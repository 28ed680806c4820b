/** HMAC-SHA1: the definition of RFC 2104 and the keyed context that is used again and again
    (crypto/hash/hmac.c). */
module HmacCode {
  import opened Results
  import opened Sha1
  import opened Sha1Code

  const BLOCK := 64
  const MAX_KEY := 20

  /** The key, filled up with zeros to a block, combined with one octet. */
  function XorPad(key: seq<byte>, c: byte): (r: seq<byte>)
    requires |key| <= BLOCK
    ensures |r| == BLOCK
    ensures forall i | 0 <= i < BLOCK :: r[i] == if i < |key| then key[i] ^ c else c
  {
    seq(BLOCK, i requires 0 <= i < BLOCK => if i < |key| then key[i] ^ c else c)
  }

  /** Section 2 of RFC 2104, for keys of at most a block. */
  function Hmac(key: seq<byte>, m: seq<byte>): (t: seq<byte>)
    requires |key| <= BLOCK && 8 * (BLOCK + |m|) < WORD_MAX * WORD_MAX
    ensures |t| == 20
  {
    Hash(XorPad(key, 0x5c) + Hash(XorPad(key, 0x36) + m))
  }

  /** What the implementation computes, for messages of any length. */
  function HmacHere(key: seq<byte>, m: seq<byte>): (t: seq<byte>)
    requires |key| <= BLOCK
    ensures |t| == 20
  {
    HashHere(XorPad(key, 0x5c) + HashHere(XorPad(key, 0x36) + m))
  }

  /** RFC 2104 with the two pads written out, octet by octet. */
  lemma HmacByPads(key: seq<byte>, m: seq<byte>, inner: seq<byte>, outer: seq<byte>)
    requires |key| <= BLOCK && 8 * (BLOCK + |m|) < WORD_MAX * WORD_MAX && |inner| == |outer| == 64
    requires forall i | 0 <= i < 64 :: inner[i] == (if i < |key| then key[i] else 0) ^ 0x36
    requires forall i | 0 <= i < 64 :: outer[i] == (if i < |key| then key[i] else 0) ^ 0x5c
    ensures Hmac(key, m) == Hash(outer + Hash(inner + m))
  {
    hide Hash;
    assert inner == XorPad(key, 0x36) && outer == XorPad(key, 0x5c);
  }

  lemma HmacHereIsHmac(key: seq<byte>, m: seq<byte>)
    requires |key| <= BLOCK && BLOCK + |m| < 0x2000_0000
    ensures HmacHere(key, m) == Hmac(key, m)
  {
    hide Hash, HashHere, XorPad;
    HashHereIsSha1(XorPad(key, 0x36) + m);
    HashHereIsSha1(XorPad(key, 0x5c) + Hash(XorPad(key, 0x36) + m));
  }

  /** Sets the two pads from a key. */
  method FillPads(k: seq<byte>, ipad: array<byte>, opad: array<byte>)
    requires |k| <= BLOCK == ipad.Length == opad.Length && ipad != opad
    modifies ipad, opad
    ensures ipad[..] == XorPad(k, 0x36) && opad[..] == XorPad(k, 0x5c)
  {
    for i := 0 to |k|
      invariant forall j | 0 <= j < i :: ipad[j] == k[j] ^ 0x36 && opad[j] == k[j] ^ 0x5c
    {
      ipad[i] := k[i] ^ 0x36;
      opad[i] := k[i] ^ 0x5c;
    }
    for i := |k| to BLOCK
      invariant forall j | 0 <= j < |k| :: ipad[j] == k[j] ^ 0x36 && opad[j] == k[j] ^ 0x5c
      invariant forall j | |k| <= j < i :: ipad[j] == 0x36 && opad[j] == 0x5c
    {
      ipad[i] := 0x36;
      opad[i] := 0x5c;
    }
  }

  class Authenticator {
    const opad: array<byte>
    const ctx: Context
    const initCtx: Context
    ghost var key: seq<byte>

    /** The key is set; this is all that a new message needs. */
    ghost predicate Keyed()
      reads this, opad, ctx, ctx.buf, initCtx, initCtx.buf
    {
      && Separate() && |key| <= BLOCK
      && opad[..] == XorPad(key, 0x5c)
      && initCtx.Valid() && initCtx.msg == XorPad(key, 0x36)
    }

    /** The parts do not overlap. */
    ghost predicate Separate()
      reads this
    {
      && opad.Length == BLOCK && ctx != initCtx && ctx.buf != initCtx.buf && ctx.buf != opad && initCtx.buf != opad
      && ctx.buf.Length == BLOCK && initCtx.buf.Length == BLOCK
    }

    /** A message is under way, and this much of it has been taken in. */
    ghost predicate Started(data: seq<byte>)
      reads this, opad, ctx, ctx.buf, initCtx, initCtx.buf
    {
      Keyed() && ctx.Valid() && ctx.msg == XorPad(key, 0x36) + data
    }

    constructor ()
      ensures Separate() && fresh(opad) && fresh(ctx) && fresh(ctx.buf) && fresh(initCtx) && fresh(initCtx.buf)
    {
      opad := new byte[BLOCK];
      ctx := new Context();
      initCtx := new Context();
      key := [];
    }

    /** srtp_hmac_init */
    method Init(k: seq<byte>) returns (err: Option<Error>)
      requires Separate()
      modifies this`key, opad, ctx, ctx.buf, initCtx, initCtx.buf
      ensures |k| > MAX_KEY ==> err == Some(BadParam)
      ensures |k| <= MAX_KEY ==> err == None && key == k && Started([])
    {
      hide Context.Holds, XorPad;
      if |k| > MAX_KEY { return Some(BadParam); }
      var ipad := new byte[BLOCK];
      FillPads(k, ipad, opad);
      key := k;
      initCtx.Init();
      initCtx.Update(ipad[..]);
      ctx.CopyFrom(initCtx);
      err := None;
    }

    /** srtp_hmac_start: whatever happened before, a new message begins. */
    method Start()
      requires Keyed()
      modifies ctx, ctx.buf
      ensures Started([]) && key == old(key)
    {
      hide Context.Holds, XorPad;
      ctx.CopyFrom(initCtx);
    }

    method Update(m: seq<byte>, ghost data: seq<byte>)
      requires Started(data)
      modifies ctx, ctx.buf
      ensures Started(data + m) && key == old(key)
    {
      hide Context.Holds, XorPad;
      ctx.Update(m);
      assert XorPad(key, 0x36) + data + m == XorPad(key, 0x36) + (data + m);
    }

    /** srtp_hmac_compute: the first tagLen octets of the HMAC value of the whole message. */
    method Compute(m: seq<byte>, tagLen: nat, ghost data: seq<byte>) returns (r: Result<seq<byte>>)
      requires Started(data)
      modifies ctx, ctx.buf
      ensures Keyed() && key == old(key)
      ensures r == if tagLen > 20 then Failure(BadParam) else Success(HmacHere(key, data + m)[..tagLen])
    {
      hide Context.Holds, XorPad, HashHere;
      if tagLen > 20 { return Failure(BadParam); }
      Update(m, data);
      var inner := ctx.Final();
      ctx.Init();
      ctx.Update(opad[..]);
      ctx.Update(inner);
      var outer := ctx.Final();
      assert [] + opad[..] + inner == opad[..] + inner;
      r := Success(outer[..tagLen]);
    }
  }

  /** The same authenticator for one message after another: each tag is the HMAC value of its own
      message, however the messages are cut into updates. */
  method Sign(a: Authenticator, msgs: seq<seq<seq<byte>>>) returns (tags: seq<seq<byte>>)
    requires a.Keyed()
    modifies a.ctx, a.ctx.buf
    ensures a.Keyed() && a.key == old(a.key)
    ensures |tags| == |msgs| && forall i | 0 <= i < |msgs| :: tags[i] == HmacHere(a.key, Join(msgs[i]))
  {
    hide XorPad, HmacHere, Context.Holds;
    tags := [];
    for i := 0 to |msgs|
      invariant a.Keyed() && a.key == old(a.key)
      invariant |tags| == i && forall j | 0 <= j < i :: tags[j] == HmacHere(a.key, Join(msgs[j]))
    {
      var t := SignOne(a, msgs[i]);
      tags := tags + [t];
    }
  }

  method SignOne(a: Authenticator, chunks: seq<seq<byte>>) returns (t: seq<byte>)
    requires a.Keyed()
    modifies a.ctx, a.ctx.buf
    ensures a.Keyed() && a.key == old(a.key) && t == HmacHere(a.key, Join(chunks))
  {
    hide XorPad, HmacHere, Context.Holds;
    a.Start();
    for i := 0 to |chunks|
      invariant a.Started(Join(chunks[..i])) && a.key == old(a.key)
    {
      a.Update(chunks[i], Join(chunks[..i]));
      assert chunks[..i + 1][..i] == chunks[..i];
    }
    assert chunks[..|chunks|] == chunks;
    var r := a.Compute([], 20, Join(chunks));
    assert Join(chunks) + [] == Join(chunks);
    t := r.value;
  }
}
