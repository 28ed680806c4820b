/** srtp_process_header_encryption (srtp/srtp.c), working in place on the packet buffer. */
module HeaderEncryption {
  import opened Octets
  import opened Keystreams
  import opened Ciphers
  import opened HeaderExtensions

  datatype Status = Ok | ParseError | CipherFailure

  function StatusOf(r: Outcome): Status {
    match r
    case Done(_) => Ok
    case ParseErr => ParseError
    case CipherFail => CipherFailure
  }

  const ONE_BYTE_PROFILE := 0xbede
  const TWO_BYTE_PROFILE := 0x1000

  /** The whole pass over an extension, given from its 4-octet header on. */
  function HeaderCrypt(ids: seq<octet>, k: CipherKey, iv: block, p: nat, profile: nat, data: seq<octet>): (r: Outcome)
    ensures r.Done? ==> |r.data| == |data|
  {
    if profile == ONE_BYTE_PROFILE then Walk(OneByte, ids, k, iv, p, data)
    else if profile / 16 * 16 == TWO_BYTE_PROFILE then Walk(TwoByte, ids, k, iv, p, data)
    else ParseErr
  }

  /** Octets of keystream that the pass spends. */
  function HeaderUse(k: CipherKey, iv: block, p: nat, profile: nat, data: seq<octet>): (n: nat) {
    if profile == ONE_BYTE_PROFILE then WalkUse(OneByte, k, iv, p, data)
    else if profile / 16 * 16 == TWO_BYTE_PROFILE then WalkUse(TwoByte, k, iv, p, data)
    else 0
  }

  lemma HeaderCryptInvolutive(ids: seq<octet>, k: CipherKey, iv: block, p: nat, profile: nat, data: seq<octet>)
    requires HeaderCrypt(ids, k, iv, p, profile, data).Done?
    ensures HeaderCrypt(ids, k, iv, p, profile, HeaderCrypt(ids, k, iv, p, profile, data).data) == Done(data)
  {
    hide Walk;
    if profile == ONE_BYTE_PROFILE {
      WalkInvolutive(OneByte, ids, k, iv, p, data);
    } else {
      WalkInvolutive(TwoByte, ids, k, iv, p, data);
    }
  }

  /** Adds m octets of keystream, from position `from`, into the buffer at position i. */
  method AddInto(buf: array<octet>, i: nat, m: nat, keystream: array<octet>, from: nat)
    requires i + m <= buf.Length && from + m <= keystream.Length && buf != keystream
    modifies buf
    ensures buf[..] == Patch(old(buf[..]), i, XorSeq(Sub(old(buf[..]), i, i + m), Sub(keystream[..], from, from + m)))
  {
    ghost var sum := XorSeq(buf[i..i + m], keystream[from..from + m]);
    for j := 0 to m
      invariant forall k | i <= k < i + j :: buf[k] == sum[k - i]
      invariant forall k | 0 <= k < buf.Length && !(i <= k < i + j) :: buf[k] == old(buf[k])
    {
      buf[i + j] := XorOctet(buf[i + j], keystream[from + j]);
    }
  }

  method SkipPadding(buf: array<octet>, i: nat, end: nat) returns (next: nat)
    requires i <= end <= buf.Length
    ensures i <= next <= end && next == i + Padding(Sub(buf[..], i, end))
  {
    next := i;
    while next < end && buf[next] == 0
      invariant i <= next <= end
      invariant forall k | i <= k < next :: buf[k] == 0
    {
      next := next + 1;
    }
    PaddingUnique(Sub(buf[..], i, end), next - i);
  }

  /** The octets of an element after it was processed, with the padding behind it. */
  function Processed(form: Form, ids: seq<octet>, k: CipherKey, iv: block, p: nat, e: Piece): (r: seq<octet>)
    requires |e.head| == form.Head()
    ensures |r| == |e.head| + |e.element| + |e.pad|
  {
    e.head + Recode(form, ids, k, iv, p, e).element + e.pad
  }

  lemma HeadOf(form: Form, buf: seq<octet>, i: nat, end: nat)
    requires i + form.Head() <= end <= |buf|
    ensures var d := Sub(buf, i, end);
      && form.Id(d) == (if form.OneByte? then buf[i] / 16 else buf[i])
      && form.Len(d) == (if form.OneByte? then buf[i] % 16 + 1 else buf[i + 1])
  {
  }

  lemma PatchElement(form: Form, ids: seq<octet>, k: CipherKey, iv: block, p: nat, buf: seq<octet>, i: nat, end: nat)
    requires i <= end <= |buf| && Fits(form, Sub(buf, i, end))
    ensures var e := Split(form, Sub(buf, i, end));
      Patch(buf, i + form.Head(), Recode(form, ids, k, iv, p, e).element)
        == Patch(buf, i, Processed(form, ids, k, iv, p, e))
  {
    hide Recode, Padding, Sub, Patch;
    var d := Sub(buf, i, end);
    var e, h := Split(form, d), form.Head();
    var n, c := |e.element|, |e.pad|;
    SubOfSub(buf, i, end, 0, h);
    SubOfSub(buf, i, end, h + n, h + n + c);
    PatchWithin(buf, i, e.head, Recode(form, ids, k, iv, p, e).element, e.pad);
  }

  lemma SplitParts(form: Form, buf: seq<octet>, i: nat, end: nat)
    requires i <= end <= |buf| && Fits(form, Sub(buf, i, end))
    ensures var e := Split(form, Sub(buf, i, end)); var at := i + form.Head() + |e.element|;
      && at <= end
      && e.element == Sub(buf, i + form.Head(), at)
      && |e.pad| == Padding(Sub(buf, at, end))
      && at + |e.pad| <= end
      && e.rest == Sub(buf, at + |e.pad|, end)
  {
    hide Padding, Sub;
    var d := Sub(buf, i, end);
    var e, h := Split(form, d), form.Head();
    var n := h + |e.element|;
    SubOfSub(buf, i, end, h, n);
    SubOfSub(buf, i, end, n, |d|);
    SubOfSub(buf, i, end, n + |e.pad|, |d|);
  }

  lemma KeystreamBehindHead(k: CipherKey, iv: block, p: nat, h: nat, n: nat, was: seq<octet>, ks: seq<octet>)
    requires h + n <= |was|
    requires ks == Patch(was, 0, PacketKeystream(k, iv, p, h + n))
    ensures Sub(ks, h, h + n) == PacketKeystream(k, iv, p + h, n)
  {
    hide PacketKeystream, Sub, Patch;
    var s := PacketKeystream(k, iv, p, h + n);
    SubOfPatch(was, 0, s, 0, h + n);
    SubOfSub(ks, 0, h + n, h, h + n);
    SubOfKeystream(k, iv, p, h + n, h, h + n);
  }

  /** What the element loop writes is the recoded element. */
  lemma RecodedInPlace(form: Form, ids: seq<octet>, k: CipherKey, iv: block, p: nat, buf: seq<octet>, i: nat, end: nat)
    requires i <= end <= |buf| && Fits(form, Sub(buf, i, end))
    ensures var e := Split(form, Sub(buf, i, end)); var lo := i + form.Head(); var hi := lo + |e.element|;
      && hi <= end
      && Patch(buf, i, Processed(form, ids, k, iv, p, e))
          == if form.Id(Sub(buf, i, end)) in ids
             then Patch(buf, lo, XorSeq(Sub(buf, lo, hi), PacketKeystream(k, iv, p + form.Head(), |e.element|)))
             else buf
  {
    hide PacketKeystream, Sub, Patch, Processed, Split, Fits;
    var d := Sub(buf, i, end);
    var e := Split(form, d);
    SplitParts(form, buf, i, end);
    SplitIsPiece(form, d);
    PatchElement(form, ids, k, iv, p, buf, i, end);
    PatchSelf(buf, i + form.Head(), i + form.Head() + |e.element|);
  }

  /** One pass of the loop, from the element header at position i to the next one. */
  method ProcessElement(form: Form, buf: array<octet>, i: nat, end: nat, xid: octet, xlen: nat,
                        ids: seq<octet>, c: Cipher, keystream: array<octet>)
    returns (next: nat, ok: bool)
    requires i + form.Head() + xlen <= end <= buf.Length && keystream.Length == 257 && buf != keystream
    requires c.Valid() && xlen <= 255
    requires xid == form.Id(Sub(buf[..], i, end)) && xlen == form.Len(Sub(buf[..], i, end))
    modifies buf, c, keystream
    ensures c.Valid() && c.iv == old(c.iv) && c.mark == old(c.mark)
    ensures ok <==> Reaches(c.key, c.iv, old(c.pos) + form.Head() + xlen)
    ensures !ok ==> buf[..] == old(buf[..]) && c.pos == old(c.pos)
    ensures ok ==>
      var e := Split(form, Sub(old(buf[..]), i, end));
      && c.pos == old(c.pos) + form.Head() + xlen
      && next == i + |e.head| + |e.element| + |e.pad|
      && buf[..] == Patch(old(buf[..]), i, Processed(form, ids, c.key, c.iv, old(c.pos), e))
  {
    hide Split, Processed, Patch, Sub, PacketKeystream, XorSeq, Reaches, Padding;
    ghost var was, p, h, ks := buf[..], c.pos, form.Head(), keystream[..];
    ghost var e := Split(form, Sub(was, i, end));
    SplitParts(form, was, i, end);
    RecodedInPlace(form, ids, c.key, c.iv, p, was, i, end);
    var status := c.Output(keystream, form.Head() + xlen);
    if status != CipherOk { return i, false; }
    KeystreamBehindHead(c.key, c.iv, p, h, xlen, ks, keystream[..]);
    next := i + form.Head();
    assert buf[..] == was;
    ghost var at := next + xlen;
    SubOfPatch(was, next, XorSeq(Sub(was, next, at), PacketKeystream(c.key, c.iv, p + h, xlen)), at, end);
    if xid in ids {
      AddInto(buf, next, xlen, keystream, form.Head());
    }
    next := next + xlen;
    next := SkipPadding(buf, next, end);
    ok := true;
  }

  function Prefixed(a: seq<octet>, r: Outcome): (o: Outcome) {
    if r.Done? then Done(a + r.data) else r
  }

  lemma PrefixedTwice(a: seq<octet>, b: seq<octet>, r: Outcome)
    ensures Prefixed(a, Prefixed(b, r)) == Prefixed(a + b, r)
  {
    if r.Done? { assert a + (b + r.data) == a + b + r.data; }
  }

  lemma WalkElement(form: Form, ids: seq<octet>, k: CipherKey, iv: block, p: nat, d: seq<octet>)
    requires Continues(form, k, iv, p, d)
    ensures var e := Split(form, d);
      var q := p + form.Head() + |e.element|;
      && Walk(form, ids, k, iv, p, d) == Prefixed(Processed(form, ids, k, iv, p, e), Walk(form, ids, k, iv, q, e.rest))
      && p + WalkUse(form, k, iv, p, d) == q + WalkUse(form, k, iv, q, e.rest)
  {
    hide Walk, Split, Reaches, IsPiece, Recode;
    SplitIsPiece(form, d);
    WalkStep(form, ids, k, iv, p, Split(form, d));
  }

  lemma WalkStops(form: Form, ids: seq<octet>, k: CipherKey, iv: block, p: nat, d: seq<octet>)
    ensures |d| < form.Head() ==> Walk(form, ids, k, iv, p, d) == Done(d)
    ensures |d| >= form.Head() && form.Head() + form.Len(d) > |d| ==> Walk(form, ids, k, iv, p, d) == ParseErr
    ensures Fits(form, d) && form.OneByte? && form.Id(d) == 15 ==> Walk(form, ids, k, iv, p, d) == Done(d)
    ensures Fits(form, d) && !(form.OneByte? && form.Id(d) == 15) && !Reaches(k, iv, p + form.Head() + form.Len(d)) ==>
      Walk(form, ids, k, iv, p, d) == CipherFail
    ensures !Continues(form, k, iv, p, d) ==> WalkUse(form, k, iv, p, d) == 0
  {
  }

  /** What one pass of the loop does to the octets done so far and to the walk ahead. */
  lemma LoopStep(form: Form, ids: seq<octet>, k: CipherKey, iv: block, p: nat, was: seq<octet>, start: nat, end: nat,
                 done: seq<octet>)
    requires start + |done| <= end <= |was| && Fits(form, Sub(was, start + |done|, end))
    ensures var i := start + |done|;
      var d := Sub(was, i, end);
      var e := Split(form, d);
      var proc := Processed(form, ids, k, iv, p, e);
      var q := p + form.Head() + form.Len(d);
      && i + |proc| <= end && Patch(Patch(was, start, done), i, proc) == Patch(was, start, done + proc)
      && (Continues(form, k, iv, p, d) ==>
            var rest := Sub(was, i + |proc|, end);
            && Prefixed(done, Walk(form, ids, k, iv, p, d)) == Prefixed(done + proc, Walk(form, ids, k, iv, q, rest))
            && p + WalkUse(form, k, iv, p, d) == q + WalkUse(form, k, iv, q, rest))
  {
    hide Walk, WalkUse, Split, Processed, Patch, Sub, Reaches, Continues, Prefixed;
    var i := start + |done|;
    var d := Sub(was, i, end);
    var e := Split(form, d);
    var proc := Processed(form, ids, k, iv, p, e);
    SplitParts(form, was, i, end);
    PatchTwice(was, start, done, proc);
    if Continues(form, k, iv, p, d) {
      WalkElement(form, ids, k, iv, p, d);
      PrefixedTwice(done, proc, Walk(form, ids, k, iv, p + form.Head() + |e.element|, e.rest));
    }
  }

  /** The loop over the elements between positions start and end. */
  method ProcessElements(form: Form, buf: array<octet>, start: nat, end: nat, ids: seq<octet>, c: Cipher)
    returns (status: Status)
    requires start <= end <= buf.Length && c.Valid()
    modifies buf, c
    ensures c.Valid() && c.iv == old(c.iv) && c.mark == old(c.mark)
    ensures c.pos == old(c.pos) + WalkUse(form, c.key, c.iv, old(c.pos), Sub(old(buf[..]), start, end))
    ensures var r := Walk(form, ids, c.key, old(c.iv), old(c.pos), Sub(old(buf[..]), start, end));
      && status == StatusOf(r)
      && (status == Ok ==> buf[..] == Patch(old(buf[..]), start, r.data))
    ensures Sub(buf[..], 0, start) == Sub(old(buf[..]), 0, start)
    ensures Sub(buf[..], end, buf.Length) == Sub(old(buf[..]), end, buf.Length)
  {
    hide Walk, WalkUse, Split, Processed, Patch, Sub, Reaches, Cipher.Valid;
    var keystream := new octet[257](j => 0);
    ghost var was, iv, p, done := buf[..], c.iv, c.pos, [];
    ghost var whole := Walk(form, ids, c.key, iv, p, Sub(was, start, end));
    ghost var last := p + WalkUse(form, c.key, iv, p, Sub(was, start, end));
    PatchEmpty(was, start);
    assert whole == Prefixed(done, whole) by { if whole.Done? { assert done + whole.data == whole.data; } }
    var i := start;
    while i + form.Head() <= end
      invariant c.Valid() && c.iv == iv && c.mark == old(c.mark) && start <= i <= end && i == start + |done|
      invariant buf[..] == Patch(was, start, done)
      invariant whole == Prefixed(done, Walk(form, ids, c.key, iv, c.pos, Sub(was, i, end)))
      invariant last == c.pos + WalkUse(form, c.key, iv, c.pos, Sub(was, i, end))
      decreases end - i
    {
      SubsOfPatch(was, start, done, end);
      HeadOf(form, buf[..], i, end);
      WalkStops(form, ids, c.key, iv, c.pos, Sub(was, i, end));
      var xid := if form.OneByte? then buf[i] / 16 else buf[i];
      var xlen := if form.OneByte? then buf[i] % 16 + 1 else buf[i + 1];
      if i + form.Head() + xlen > end { return ParseError; }
      if form.OneByte? && xid == 15 { break; }
      ghost var proc := Processed(form, ids, c.key, iv, c.pos, Split(form, Sub(was, i, end)));
      LoopStep(form, ids, c.key, iv, c.pos, was, start, end, done);
      var next, ok := ProcessElement(form, buf, i, end, xid, xlen, ids, c, keystream);
      if !ok { return CipherFailure; }
      done := done + proc;
      i := next;
    }
    WalkStops(form, ids, c.key, iv, c.pos, Sub(was, i, end));
    SubsOfPatch(was, start, done, end);
    PatchTail(was, start, done, end);
    status := Ok;
  }

  lemma SubsOfPatch(s: seq<octet>, at: nat, t: seq<octet>, end: nat)
    requires at + |t| <= end <= |s|
    ensures Sub(Patch(s, at, t), 0, at) == Sub(s, 0, at)
    ensures Sub(Patch(s, at, t), at + |t|, end) == Sub(s, at + |t|, end)
    ensures Sub(Patch(s, at, t), end, |s|) == Sub(s, end, |s|)
  {
    hide Sub, Patch;
    SubOfPatch(s, at, t, at + |t|, end);
    SubOfPatch(s, at, t, 0, at);
    SubOfPatch(s, at, t, end, |s|);
  }

  lemma PatchTail(s: seq<octet>, at: nat, t: seq<octet>, end: nat)
    requires at + |t| <= end <= |s|
    ensures Patch(s, at, t) == Patch(s, at, t + Sub(s, at + |t|, end))
  {
  }

  /** The pass over the extension whose header is at position `at`. */
  method Process(buf: array<octet>, at: nat, ids: seq<octet>, c: Cipher) returns (status: Status)
    requires at + 4 <= buf.Length && at + 4 + 4 * Value(Sub(buf[..], at + 2, at + 4)) <= buf.Length
    requires c.Valid()
    modifies buf, c
    ensures c.Valid() && c.iv == old(c.iv) && c.mark == old(c.mark)
    ensures var end := at + 4 + 4 * Value(Sub(old(buf[..]), at + 2, at + 4));
      var profile := Value(Sub(old(buf[..]), at, at + 2));
      c.pos == old(c.pos) + HeaderUse(c.key, c.iv, old(c.pos), profile, Sub(old(buf[..]), at + 4, end))
    ensures var end := at + 4 + 4 * Value(Sub(old(buf[..]), at + 2, at + 4));
      var profile := Value(Sub(old(buf[..]), at, at + 2));
      var r := HeaderCrypt(ids, c.key, old(c.iv), old(c.pos), profile, Sub(old(buf[..]), at + 4, end));
      && status == StatusOf(r)
      && (status == Ok ==> buf[..] == Patch(old(buf[..]), at + 4, r.data))
  {
    hide Walk, WalkUse, Sub, Patch, Value;
    TwoOctets(buf[..], at);
    TwoOctets(buf[..], at + 2);
    var profile := 256 * (buf[at] as int) + buf[at + 1];
    var end := at + 4 + 4 * (256 * (buf[at + 2] as int) + buf[at + 3]);
    if profile == ONE_BYTE_PROFILE {
      status := ProcessElements(OneByte, buf, at + 4, end, ids, c);
    } else if profile / 16 * 16 == TWO_BYTE_PROFILE {
      status := ProcessElements(TwoByte, buf, at + 4, end, ids, c);
    } else {
      status := ParseError;
    }
  }
}
