/** srtp_protect and srtp_unprotect outside AEAD, on packet buffers (srtp/srtp.c). */
module SrtpCode {
  import opened Results
  import opened Octets
  import opened Replay
  import opened Keystreams
  import opened Ciphers
  import opened RtpPackets
  import opened SrtpBodies
  import opened SrtpPackets
  import opened Cryptex
  import opened StreamIndexes
  import HE = HeaderEncryption
  import PI = PacketIndex

  /** The blocks that a packet cipher and a header extension cipher have encrypted. */
  datatype Logs = Logs(packet: seq<block>, xtn: seq<block>) {
    ghost function Plus(l: Logs): (r: Logs) { Logs(packet + l.packet, xtn + l.xtn) }
  }

  /** The blocks that this much keystream of a packet costs. */
  ghost function SpentBlocks(key: Key, iv: block, u: Spent): (r: Logs) {
    Logs(BlocksUsed(key.cipher, iv, 0, u.packet), if key.xtn.Some? then BlocksUsed(key.xtn.value, iv, 0, u.xtn) else [])
  }

  /** The block counters allow this much keystream. */
  ghost predicate Within(key: Key, iv: block, u: Spent) {
    Reaches(key.cipher, iv, u.packet) && (key.xtn.Some? ==> Reaches(key.xtn.value, iv, u.xtn))
  }

  /** The cipher contexts of one set of session keys. */
  class SessionKeys {
    const key: Key
    const cipher: Cipher
    const xtn: Cipher?

    ghost predicate Valid()
      reads this, cipher, xtn
    {
      && cipher.Valid() && cipher.key == key.cipher
      && (xtn != null <==> key.xtn.Some?)
      && (xtn != null ==> xtn != cipher && xtn.Valid() && xtn.key == key.xtn.value)
    }

    constructor (k: Key)
      requires k.cipher.IcmKey? ==> Low(k.cipher.offset) == 0
      requires k.xtn.Some? && k.xtn.value.IcmKey? ==> Low(k.xtn.value.offset) == 0
      ensures Valid() && key == k && Log() == Logs([], [])
      ensures fresh(cipher) && (xtn != null ==> fresh(xtn))
    {
      key := k;
      cipher := new Cipher(k.cipher);
      if k.xtn.Some? {
        var c := new Cipher(k.xtn.value);
        xtn := c;
      } else {
        xtn := null;
      }
    }

    /** Every block encrypted so far, and those before the vector in force. */
    ghost function Log(): (r: Logs)
      reads cipher, xtn
    {
      Logs(cipher.log, if xtn == null then [] else xtn.log)
    }

    ghost function Mark(): (r: Logs)
      reads cipher, xtn
    {
      Logs(cipher.mark, if xtn == null then [] else xtn.mark)
    }

    /** The keystream used since then. */
    ghost function Pos(): (u: Spent)
      reads cipher, xtn
    {
      Spent(cipher.pos, if xtn == null then 0 else xtn.pos)
    }

    ghost predicate Under(iv: block)
      reads this, cipher, xtn
    {
      Valid() && cipher.iv == iv && (xtn != null ==> xtn.iv == iv)
    }

    /** Both ciphers are set to the start of the keystream of this packet. */
    ghost predicate Ready(iv: block)
      reads this, cipher, xtn
    {
      Under(iv) && Pos() == Spent(0, 0)
    }

    /** The log grows by the keystream of the packet in hand. */
    lemma LogOfPacket(iv: block)
      requires Under(iv)
      ensures Log() == Mark().Plus(SpentBlocks(key, iv, Pos())) && Within(key, iv, Pos())
    {
      hide BlocksUsed, CounterBlock, Reaches;
      ReachesNull(cipher.key, iv, cipher.pos);
      if xtn != null { ReachesNull(xtn.key, iv, xtn.pos); }
    }

    method SetIv(iv: block)
      requires Valid()
      modifies cipher, xtn
      ensures Ready(iv) && Mark() == old(Log())
    {
      cipher.SetIv(iv);
      if xtn != null { xtn.SetIv(iv); }
    }
  }

  /** The error that stands for a result. */
  function ErrorOf<T>(r: Result<T>): (e: Option<Error>) {
    if r.Success? then None else Some(r.error)
  }

  /** dst holds the start of the packet up to `split`, and src the rest of it. */
  ghost predicate Holds(pkt: seq<octet>, split: nat, src: array<octet>, dst: array<octet>)
    reads src, dst
  {
    && split <= |pkt| <= src.Length && |pkt| <= dst.Length
    && Sub(dst[..], 0, split) == Sub(pkt, 0, split)
    && Sub(src[..], split, |pkt|) == Sub(pkt, split, |pkt|)
  }

  /** The extension header announces an extension that ends where the payload starts. */
  ghost predicate XtnEnds(pkt: seq<octet>, l: Layout)
    requires l.Fits(|pkt|)
  {
    l.x ==> l.start == l.h + XTN_HEADER + 4 * Value(Sub(pkt, l.h + 2, l.h + 4))
  }

  /** A cipher context that is set to the start of the keystream of a packet. */
  ghost predicate AtStart(c: Cipher?, k: Option<CipherKey>, iv: block)
    reads c
  {
    (c != null <==> k.Some?) && (c != null ==> c.Valid() && c.key == k.value && c.iv == iv && c.pos == 0)
  }

  /** The header extension stage in the output buffer. */
  method CryptXtn(ids: seq<octet>, xtn: Cipher?, dst: array<octet>, l: Layout,
                  ghost k: Option<CipherKey>, ghost iv: block, ghost pkt: seq<octet>)
    returns (err: Option<Error>)
    requires AtStart(xtn, k, iv) && l.Fits(|pkt|) && XtnEnds(pkt, l) && |pkt| <= dst.Length
    requires Sub(dst[..], 0, l.start) == Sub(pkt, 0, l.start)
    modifies dst, xtn
    ensures xtn != null ==> xtn.Valid() && xtn.iv == iv && xtn.mark == old(xtn.mark) && xtn.pos == XtnUse(k, iv, pkt, l)
    ensures var r := XtnStage(ids, k, iv, pkt, l);
      && err == ErrorOf(r)
      && (r.Success? ==> Sub(dst[..], 0, l.start) == Sub(r.value, 0, l.start))
      && (r.Success? ==> Sub(dst[..], l.start, dst.Length) == Sub(old(dst[..]), l.start, dst.Length))
      && (r.Success? ==> Sub(r.value, l.start, |pkt|) == Sub(pkt, l.start, |pkt|))
  {
    hide Sub, Patch, Value, HE.HeaderCrypt, HE.HeaderUse;
    if !l.x || xtn == null { return None; }
    ghost var was, at := dst[..], l.h + XTN_HEADER;
    SubOfSub(was, 0, l.start, l.h + 2, l.h + 4);
    SubOfSub(pkt, 0, l.start, l.h + 2, l.h + 4);
    SubOfSub(was, 0, l.start, l.h, l.h + 2);
    SubOfSub(pkt, 0, l.start, l.h, l.h + 2);
    SubOfSub(was, 0, l.start, at, l.start);
    SubOfSub(pkt, 0, l.start, at, l.start);
    var status := HE.Process(dst, l.h, ids, xtn);
    match status {
      case ParseError => err := Some(ParseErr);
      case CipherFailure => err := Some(CipherFail);
      case Ok =>
        err := None;
        ghost var e := HE.HeaderCrypt(ids, xtn.key, iv, 0, ProfileAt(pkt, l.h), Sub(pkt, at, l.start)).data;
        PatchEnds(was, pkt, at, e, l.start);
    }
  }

  lemma PatchEnds(s: seq<octet>, t: seq<octet>, at: nat, e: seq<octet>, end: nat)
    requires at + |e| == end <= |t| && end <= |s| && Sub(s, 0, end) == Sub(t, 0, end)
    ensures Sub(Patch(s, at, e), 0, end) == Sub(Patch(t, at, e), 0, end)
    ensures Sub(Patch(s, at, e), end, |s|) == Sub(s, end, |s|)
    ensures Sub(Patch(t, at, e), end, |t|) == Sub(t, end, |t|)
  {
    hide Sub, Patch;
    SubOfSub(s, 0, end, 0, at);
    SubOfSub(t, 0, end, 0, at);
    SubOfPatch(s, at, e, 0, at);
    SubOfPatch(t, at, e, 0, at);
    SubOfPatch(s, at, e, at, end);
    SubOfPatch(t, at, e, at, end);
    SubOfPatch(s, at, e, end, |s|);
    SubOfPatch(t, at, e, end, |t|);
    SubConcat(Patch(s, at, e), 0, at, end);
    SubConcat(Patch(t, at, e), 0, at, end);
  }

  lemma PatchRest(s: seq<octet>, p: seq<octet>, at: nat, t: seq<octet>)
    requires at + |t| == |p| <= |s| && Sub(s, 0, at) == Sub(p, 0, at)
    ensures Sub(Patch(s, at, t), 0, |p|) == Patch(p, at, t)
    ensures Sub(Patch(s, at, t), |p|, |s|) == Sub(s, |p|, |s|)
  {
    hide Sub, Patch;
    SubOfPatch(s, at, t, 0, at);
    SubOfPatch(s, at, t, at, |p|);
    SubConcat(Patch(s, at, t), 0, at, |p|);
    SubOfPatch(p, at, t, 0, at);
    SubOfPatch(p, at, t, at, |p|);
    SubConcat(Patch(p, at, t), 0, at, |p|);
    SubWhole(Patch(p, at, t));
    SubOfPatch(s, at, t, |p|, |s|);
  }

  /** The octets from `start` on at keystream position p; without the confidentiality
      service they stay as they are. */
  function RestCrypt(conf: bool, k: CipherKey, iv: block, p: nat, pkt: seq<octet>, start: nat): (r: Result<seq<octet>>)
    requires start <= |pkt|
    ensures r.Success? ==> |r.value| == |pkt|
  {
    if !conf then Success(pkt)
    else if !Reaches(k, iv, p + |pkt| - start) then Failure(CipherFail)
    else Success(CryptRange(k, iv, p, pkt, start, |pkt|))
  }

  /** Encrypts the octets from `start` on, or copies them. */
  method CryptRest(conf: bool, c: Cipher, src: array<octet>, end: nat, dst: array<octet>, start: nat,
                   ghost pkt: seq<octet>)
    returns (err: Option<Error>)
    requires c.Valid() && |pkt| == end <= OBJECT_MAX && start <= end && Holds(pkt, start, src, dst)
    modifies dst, c
    ensures c.Valid() && c.iv == old(c.iv) && c.mark == old(c.mark)
    ensures c.pos == if conf then Moved(c.key, c.iv, old(c.pos), end - start) else old(c.pos)
    ensures var r := RestCrypt(conf, c.key, c.iv, old(c.pos), pkt, start);
      && err == ErrorOf(r)
      && (r.Success? ==> Sub(dst[..], 0, end) == r.value)
      && Sub(dst[..], end, dst.Length) == Sub(old(dst[..]), end, dst.Length)
  {
    hide Sub, Patch, Encipher, Reaches;
    ghost var was := dst[..];
    PatchRest(was, pkt, start, Encipher(c.key, c.iv, c.pos, Sub(pkt, start, end)));
    PatchRest(was, pkt, start, Sub(pkt, start, end));
    PatchSelf(pkt, start, end);
    err := None;
    if conf {
      var status := c.Encrypt(src, start, end - start, dst, start, end - start);
      if status != CipherOk { err := Some(CipherFail); }
    } else if src != dst {
      Copy(src, start, dst, start, end - start);
    } else {
      SubConcat(was, 0, start, end);
      SubConcat(pkt, 0, start, end);
      SubWhole(pkt);
    }
  }

  /** Header extension stage and payload, for sender and receiver alike. */
  method CryptPlain(cfg: Config, sk: SessionKeys, src: array<octet>, end: nat, dst: array<octet>, l: Layout,
                    ghost iv: block, ghost pkt: seq<octet>)
    returns (err: Option<Error>)
    requires sk.Ready(iv) && |pkt| == end <= OBJECT_MAX && l.Fits(end) && XtnEnds(pkt, l)
    requires Holds(pkt, l.start, src, dst)
    modifies dst, sk.cipher, sk.xtn
    ensures sk.Under(iv) && sk.Mark() == old(sk.Mark()) && sk.Pos() == PlainSpent(cfg, sk.key, iv, pkt, l)
    ensures var r := OpenPlain(cfg, sk.key, iv, pkt, l);
      && err == ErrorOf(r)
      && (r.Success? ==> Sub(dst[..], 0, end) == r.value
                         && Sub(dst[..], end, dst.Length) == Sub(old(dst[..]), end, dst.Length))
  {
    hide Sub, Patch, XtnStage, XtnEnds, CryptRange, Reaches, HE.HeaderUse;
    ghost var was := dst[..];
    err := CryptXtn(cfg.ids, sk.xtn, dst, l, sk.key.xtn, iv, pkt);
    if err.Some? { return; }
    ghost var p := XtnStage(cfg.ids, sk.key.xtn, iv, pkt, l).value;
    TailOfTail(dst[..], was, l.start, end);
    err := CryptRest(cfg.conf, sk.cipher, src, end, dst, l.start, p);
  }

  lemma TailOfTail(s: seq<octet>, t: seq<octet>, lo: nat, hi: nat)
    requires lo <= hi <= |s| == |t| && Sub(s, lo, |s|) == Sub(t, lo, |t|)
    ensures Sub(s, hi, |s|) == Sub(t, hi, |t|) && Sub(s, lo, hi) == Sub(t, lo, hi)
  {
    hide Sub;
    SubOfSub(s, lo, |s|, hi - lo, |s| - lo);
    SubOfSub(t, lo, |t|, hi - lo, |t| - lo);
    SubOfSub(s, lo, |s|, 0, hi - lo);
    SubOfSub(t, lo, |t|, 0, hi - lo);
  }

  // --- Cryptex ------------------------------------------------------------------------------

  /** In place: move the extension header, run the keystream, move it back. */
  method CryptexInPlace(conf: bool, c: Cipher, buf: array<octet>, end: nat, h: nat)
    returns (err: Option<Error>)
    requires c.Valid() && c.pos == 0
    requires RTP_HEADER <= h && h + XTN_HEADER <= buf.Length && 16 <= end <= buf.Length && end <= OBJECT_MAX
    modifies buf, c
    ensures c.Valid() && c.iv == old(c.iv) && c.mark == old(c.mark)
    ensures err == if conf && !Reaches(c.key, c.iv, end - 16) then Some(CipherFail) else None
    ensures c.pos == if conf then Moved(c.key, c.iv, 0, end - 16) else 0
    ensures err == None && conf ==>
      buf[..] == CsrcFirst(CryptRange(c.key, c.iv, 0, XtnFirst(old(buf[..]), h), 16, end), h)
    ensures err == None && !conf ==> buf[..] == old(buf[..])
  {
    hide XtnFirst, CsrcFirst, Encipher, Sub, Patch, Reaches, Cipher.Valid;
    MovesAreInverse(buf[..], h);
    MoveXtnBeforeCsrc(buf, h);
    err := None;
    if conf {
      var status := c.Encrypt(buf, 16, end - 16, buf, 16, end - 16);
      if status != CipherOk { return Some(CipherFail); }
    }
    MoveCsrcBeforeXtn(buf, h);
  }

  /** Between buffers: the CSRCs are encrypted in the output, then the rest into it. */
  method CryptexBetween(conf: bool, c: Cipher, src: array<octet>, end: nat, dst: array<octet>, h: nat,
                        ghost pkt: seq<octet>)
    returns (err: Option<Error>)
    requires c.Valid() && c.pos == 0 && src != dst
    requires RTP_HEADER <= h && h + XTN_HEADER <= end == |pkt| <= OBJECT_MAX && Holds(pkt, h + XTN_HEADER, src, dst)
    modifies dst, c
    ensures c.Valid() && c.iv == old(c.iv) && c.mark == old(c.mark)
    ensures c.pos == BetweenUse(conf, c.key, c.iv, h, end)
    ensures var r :=
        if conf then CryptexCrypt(c.key, c.iv, pkt, h)
        else if !Reaches(c.key, c.iv, h - RTP_HEADER) then Failure(CipherFail)
        else Success(CryptRange(c.key, c.iv, 0, pkt, RTP_HEADER, h));
      && err == ErrorOf(r)
      && (r.Success? ==> Sub(dst[..], 0, end) == r.value)
      && Sub(dst[..], end, dst.Length) == Sub(old(dst[..]), end, dst.Length)
  {
    hide Sub, Patch, Encipher, Reaches;
    var at, n := h + XTN_HEADER, h - RTP_HEADER;
    ghost var was := dst[..];
    ReachesLess(c.key, c.iv, n, end - 16);
    ghost var mid := CryptRange(c.key, c.iv, 0, pkt, RTP_HEADER, h);
    ghost var x := Encipher(c.key, c.iv, 0, Sub(pkt, RTP_HEADER, h));
    CsrcsInPlace(was, pkt, at, h, x);
    if h > RTP_HEADER {
      var status := c.Encrypt(dst, RTP_HEADER, n, dst, RTP_HEADER, n);
      if status != CipherOk { return Some(CipherFail); }
    } else {
      NothingEncrypted(c.key, c.iv, was, pkt, RTP_HEADER);
      ReachesStart(c.key, c.iv);
    }
    assert dst[..] == Patch(was, RTP_HEADER, x);
    err := CryptRest(conf, c, src, end, dst, at, mid);
  }

  lemma ReachesLess(k: CipherKey, iv: block, m: nat, n: nat)
    requires m <= n
    ensures Reaches(k, iv, n) ==> Reaches(k, iv, m)
  {
    hide Low, Base;
  }

  lemma ReachesStart(k: CipherKey, iv: block)
    ensures Reaches(k, iv, 0)
  {
  }

  lemma NothingEncrypted(k: CipherKey, iv: block, s: seq<octet>, pkt: seq<octet>, at: nat)
    requires at <= |pkt| && at <= |s|
    ensures Patch(s, at, Encipher(k, iv, 0, Sub(pkt, at, at))) == s
  {
    assert Encipher(k, iv, 0, Sub(pkt, at, at)) == [];
    PatchEmpty(s, at);
  }

  /** Changing the CSRCs in a buffer that holds the start of a packet. */
  lemma CsrcsInPlace(s: seq<octet>, pkt: seq<octet>, at: nat, h: nat, x: seq<octet>)
    requires RTP_HEADER + |x| == h < at <= |pkt| <= |s| && Sub(s, 0, at) == Sub(pkt, 0, at)
    ensures Sub(s, RTP_HEADER, h) == Sub(pkt, RTP_HEADER, h)
    ensures Sub(Patch(s, RTP_HEADER, x), 0, at) == Sub(Patch(pkt, RTP_HEADER, x), 0, at)
    ensures Sub(Patch(s, RTP_HEADER, x), |pkt|, |s|) == Sub(s, |pkt|, |s|)
    ensures Sub(Patch(pkt, RTP_HEADER, x), at, |pkt|) == Sub(pkt, at, |pkt|)
  {
    hide Sub, Patch;
    SubOfSub(s, 0, at, RTP_HEADER, h);
    SubOfSub(pkt, 0, at, RTP_HEADER, h);
    SubOfPatch(s, RTP_HEADER, x, |pkt|, |s|);
    SubOfPatch(pkt, RTP_HEADER, x, at, |pkt|);
    PatchOfPrefix(s, at, RTP_HEADER, x);
    PatchOfPrefix(pkt, at, RTP_HEADER, x);
  }

  // --- Sending ------------------------------------------------------------------------------

  lemma CryptRangeOfPrefix(k: CipherKey, iv: block, p: nat, s: seq<octet>, lo: nat, hi: nat, n: nat)
    requires lo <= hi <= n <= |s|
    ensures Sub(CryptRange(k, iv, p, s, lo, hi), 0, n) == CryptRange(k, iv, p, Sub(s, 0, n), lo, hi)
  {
    hide Encipher, Sub, Patch;
    SubOfSub(s, 0, n, lo, hi);
    PatchOfPrefix(s, n, lo, Encipher(k, iv, p, Sub(s, lo, hi)));
  }

  /** What the in-place run does to a buffer that starts with the packet. */
  lemma InPlaceIsCryptex(k: CipherKey, iv: block, s: seq<octet>, h: nat, end: nat)
    requires RTP_HEADER <= h && h + XTN_HEADER <= end <= |s| && Reaches(k, iv, end - 16)
    ensures var r := CsrcFirst(CryptRange(k, iv, 0, XtnFirst(s, h), 16, end), h);
      && CryptexCrypt(k, iv, Sub(s, 0, end), h) == Success(Sub(r, 0, end))
      && Sub(r, end, |s|) == Sub(s, end, |s|)
  {
    hide XtnFirst, CsrcFirst, CryptRange, Sub, Reaches;
    var n, at := h - RTP_HEADER, h + XTN_HEADER;
    var q := CryptRange(k, iv, 0, s, RTP_HEADER, h);
    InPlaceAgrees(k, iv, s, h, end);
    CryptRangeOfPrefix(k, iv, 0, s, RTP_HEADER, h, end);
    CryptRangeOfPrefix(k, iv, n, q, at, end, end);
    CryptRangeOutside(k, iv, 0, s, RTP_HEADER, h, end, |s|);
    CryptRangeOutside(k, iv, n, q, at, end, end, |s|);
  }

  /** CSRCs, extension data and payload, in place or between buffers. */
  method CryptexRun(c: Cipher, src: array<octet>, end: nat, dst: array<octet>, h: nat, ghost pkt: seq<octet>)
    returns (err: Option<Error>)
    requires c.Valid() && c.pos == 0
    requires RTP_HEADER <= h && h + XTN_HEADER <= end == |pkt| <= OBJECT_MAX && Holds(pkt, h + XTN_HEADER, src, dst)
    modifies dst, c
    ensures c.Valid() && c.iv == old(c.iv) && c.mark == old(c.mark)
    ensures var r := CryptexCrypt(c.key, c.iv, pkt, h);
      && err == ErrorOf(r)
      && (r.Success? ==> Sub(dst[..], 0, end) == r.value
                         && Sub(dst[..], end, dst.Length) == Sub(old(dst[..]), end, dst.Length))
  {
    hide XtnFirst, CsrcFirst, CryptRange, Sub, Reaches;
    if src == dst {
      ghost var was := dst[..];
      SubConcat(was, 0, h + XTN_HEADER, end);
      SubConcat(pkt, 0, h + XTN_HEADER, end);
      SubWhole(pkt);
      err := CryptexInPlace(true, c, dst, end, h);
      if err.None? { InPlaceIsCryptex(c.key, c.iv, was, h, end); }
    } else {
      err := CryptexBetween(true, c, src, end, dst, h, pkt);
    }
  }

  /** srtp_cryptex_protect: the profile is replaced, then the packet is encrypted. */
  method ProtectCryptex(sk: SessionKeys, src: array<octet>, end: nat, dst: array<octet>, h: nat,
                        ghost iv: block, ghost pkt: seq<octet>)
    returns (err: Option<Error>)
    requires sk.Ready(iv)
    requires RTP_HEADER <= h && h + XTN_HEADER <= end == |pkt| <= OBJECT_MAX && Holds(pkt, h + XTN_HEADER, src, dst)
    modifies dst, sk.cipher
    ensures sk.Valid() && sk.cipher.iv == iv && sk.cipher.mark == old(sk.cipher.mark)
    ensures var q := CryptexProfile(ProfileAt(pkt, h));
      var r := if q.None? then Failure(ParseErr) else CryptexCrypt(sk.key.cipher, iv, SetProfile(pkt, h, q.value), h);
      && err == ErrorOf(r)
      && (r.Success? ==> Sub(dst[..], 0, end) == r.value
                         && Sub(dst[..], end, dst.Length) == Sub(old(dst[..]), end, dst.Length))
  {
    hide Sub, Value, CryptexCrypt, Patch;
    ghost var was := dst[..];
    SubOfSub(was, 0, h + XTN_HEADER, h, h + 2);
    SubOfSub(pkt, 0, h + XTN_HEADER, h, h + 2);
    TwoOctets(was, h);
    var profile := 256 * (dst[h] as int) + dst[h + 1];
    var q := CryptexProfile(profile);
    if q.None? { return Some(ParseErr); }
    ProfileInPlace(was, src[..], pkt, h, BigEndian(q.value, 2));
    Write(dst, h, BigEndian(q.value, 2));
    assert src != dst ==> src[..] == old(src[..]);
    err := CryptexRun(sk.cipher, src, end, dst, h, SetProfile(pkt, h, q.value));
  }

  lemma ProfileInPlace(s: seq<octet>, src: seq<octet>, pkt: seq<octet>, h: nat, x: seq<octet>)
    requires |x| == 2 && h + XTN_HEADER <= |pkt| <= |s| && |pkt| <= |src|
    requires Sub(s, 0, h + XTN_HEADER) == Sub(pkt, 0, h + XTN_HEADER)
    requires Sub(src, h + XTN_HEADER, |pkt|) == Sub(pkt, h + XTN_HEADER, |pkt|)
    ensures var s', p' := Patch(s, h, x), Patch(pkt, h, x);
      && Sub(s', 0, h + XTN_HEADER) == Sub(p', 0, h + XTN_HEADER)
      && Sub(p', h + XTN_HEADER, |pkt|) == Sub(src, h + XTN_HEADER, |pkt|)
      && Sub(s', h + XTN_HEADER, |pkt|) == Sub(s, h + XTN_HEADER, |pkt|)
      && Sub(s', |pkt|, |s|) == Sub(s, |pkt|, |s|)
  {
    hide Sub, Patch;
    PatchOfPrefix(s, h + XTN_HEADER, h, x);
    PatchOfPrefix(pkt, h + XTN_HEADER, h, x);
    SubOfPatch(pkt, h, x, h + XTN_HEADER, |pkt|);
    SubOfPatch(s, h, x, h + XTN_HEADER, |pkt|);
    SubOfPatch(s, h, x, |pkt|, |s|);
  }

  /** How much of the packet has to be in the output buffer before it is encrypted. */
  function Split(cryptex: bool, l: Layout): (n: nat) {
    if cryptex then l.h + XTN_HEADER else l.start
  }

  /** The packet as it is sent, before MKI and tag. */
  method ProtectBody(cfg: Config, sk: SessionKeys, src: array<octet>, end: nat, dst: array<octet>, l: Layout,
                     ghost iv: block, ghost pkt: seq<octet>)
    returns (err: Option<Error>)
    requires cfg.Valid() && KeyFits(cfg, sk.key) && sk.Ready(iv)
    requires |pkt| == end <= OBJECT_MAX && ValidHeader(pkt) && l == LayoutOf(pkt) && XtnEnds(pkt, l)
    requires !(cfg.cryptex && cfg.conf && Cc(pkt) != 0 && !l.x)
    requires Holds(pkt, Split(cfg.cryptex && cfg.conf && l.x, l), src, dst)
    modifies dst, sk.cipher, sk.xtn
    ensures sk.Under(iv) && sk.Mark() == old(sk.Mark())
    ensures var r := Protected(cfg, sk.key, iv, pkt);
      && err == ErrorOf(r)
      && (r.Success? ==> Sub(dst[..], 0, end) == r.value
                         && Sub(dst[..], end, dst.Length) == Sub(old(dst[..]), end, dst.Length))
  {
    hide Sub, Value, CryptexCrypt, XtnStage, CryptRange, Reaches, ValidHeader, LayoutOf, Cc, SetProfile, XtnEnds;
    if cfg.cryptex && cfg.conf {
      if l.x {
        err := ProtectCryptex(sk, src, end, dst, l.h, iv, pkt);
      } else {
        err := CryptRest(true, sk.cipher, src, end, dst, l.start, pkt);
      }
    } else {
      err := CryptPlain(cfg, sk, src, end, dst, l, iv, pkt);
    }
  }

  /** Computes the tag over the first n octets and puts it at position `at`. */
  method WriteTag(cfg: Config, key: Key, buf: array<octet>, n: nat, at: nat, est: nat, s: seqNum)
    requires cfg.Valid() && !cfg.gcm && n <= at && at + cfg.tagLen <= buf.Length
    modifies buf
    ensures buf[..] == Patch(old(buf[..]), at, Tag(cfg, key, est, s, Sub(old(buf[..]), 0, n)))
  {
    hide Sub, Patch;
    ghost var was := buf[..];
    var m := key.mac(Sub(buf[..], 0, n) + RocOctets(est));
    var t := Sub(m, 0, cfg.tagLen);
    Write(buf, at, t);
    if cfg.Carries(s) {
      MoveWithin(buf, at, at + 4, cfg.tagLen - 4);
      Write(buf, at, RocOctets(est));
      ShiftedTag(was, at, m, cfg.tagLen, RocOctets(est));
    }
  }

  lemma ShiftedTag(s: seq<octet>, at: nat, m: seq<octet>, n: nat, roc: seq<octet>)
    requires |roc| == 4 <= n <= |m| && at + n <= |s|
    ensures var a := Patch(s, at, Sub(m, 0, n));
      var b := Patch(a, at + 4, Sub(a, at, at + n - 4));
      Patch(b, at, roc) == Patch(s, at, roc + Sub(m, 0, n - 4))
  {
    hide Sub, Patch;
    var t := Sub(m, 0, n);
    var a := Patch(s, at, t);
    SubOfPatch(s, at, t, at, at + n);
    SubOfSub(a, at, at + n, 0, n - 4);
    SubOfSub(m, 0, n, 0, n - 4);
    var u := Sub(m, 0, n - 4);
    assert Sub(a, at, at + n - 4) == u;
    SubOfSub(m, 0, n, 0, 4);
    PatchHeadAndTail(s, at, t, u, roc);
  }

  lemma PatchHeadAndTail(s: seq<octet>, at: nat, t: seq<octet>, u: seq<octet>, roc: seq<octet>)
    requires |roc| == 4 && |t| == 4 + |u| && at + |t| <= |s|
    ensures Patch(Patch(Patch(s, at, t), at + 4, u), at, roc) == Patch(s, at, roc + u)
  {
  }

  lemma XtnEndsAtPayload(pkt: seq<octet>)
    requires ValidHeader(pkt)
    ensures XtnEnds(pkt, LayoutOf(pkt))
  {
    hide Value, Sub;
  }

  /** Copying the start of the packet, when the buffers differ, and the MKI behind it. */
  method CopyHeader(src: array<octet>, end: nat, dst: array<octet>, split: nat, mki: seq<octet>)
    requires split <= end <= src.Length && end + |mki| <= dst.Length
    modifies dst
    ensures Holds(Sub(old(src[..]), 0, end), split, src, dst)
    ensures Sub(dst[..], end, end + |mki|) == mki
    ensures Sub(dst[..], end + |mki|, dst.Length) == Sub(old(dst[..]), end + |mki|, dst.Length)
  {
    hide Sub, Patch;
    ghost var pkt, was := Sub(src[..], 0, end), dst[..];
    SubOfSub(src[..], 0, end, 0, split);
    SubOfSub(src[..], 0, end, split, end);
    SubOfPatch(was, 0, Sub(src[..], 0, split), 0, split);
    SubOfPatch(was, 0, Sub(src[..], 0, split), end + |mki|, |was|);
    if src != dst { Copy(src, 0, dst, 0, split); }
    ghost var mid := dst[..];
    SubOfPatch(mid, end, mki, 0, split);
    SubOfPatch(mid, end, mki, split, end);
    SubOfPatch(mid, end, mki, end, end + |mki|);
    SubOfPatch(mid, end, mki, end + |mki|, |mid|);
    Write(dst, end, mki);
    assert src != dst ==> src[..] == old(src[..]);
  }

  lemma FinishedPacket(s: seq<octet>, b: seq<octet>, mki: seq<octet>, t: seq<octet>)
    requires |b| + |mki| + |t| <= |s|
    requires Sub(s, 0, |b|) == b && Sub(s, |b|, |b| + |mki|) == mki
    requires Sub(s, |b| + |mki|, |b| + |mki| + |t|) == t
    ensures Sub(s, 0, |b| + |mki| + |t|) == b + mki + t
  {
    hide Sub;
    SubConcat(s, 0, |b|, |b| + |mki|);
    SubConcat(s, 0, |b| + |mki|, |b| + |mki| + |t|);
  }

  /** The tag behind an encrypted packet and its MKI. */
  method AppendTag(cfg: Config, key: Key, dst: array<octet>, end: nat, est: nat, s: seqNum, ghost b: seq<octet>,
                   ghost slack: seq<octet>)
    requires cfg.Valid() && !cfg.gcm && |key.mki| == cfg.mkiSize && |slack| == cfg.TagOut(s)
    requires end + cfg.mkiSize + cfg.TagOut(s) <= dst.Length && |b| == end && Sub(dst[..], 0, end) == b
    requires Sub(dst[..], end, end + cfg.mkiSize) == key.mki
    requires Sub(dst[..], end + cfg.mkiSize, end + cfg.mkiSize + cfg.TagOut(s)) == slack
    modifies dst
    ensures Sub(dst[..], 0, end + cfg.mkiSize + cfg.TagOut(s)) == b + key.mki + TagField(cfg, key, est, s, b, slack)
  {
    hide Sub, Patch, Tag;
    var at, n := end + cfg.mkiSize, cfg.TagOut(s);
    if cfg.auth && n > 0 {
      ghost var mid, t := dst[..], Tag(cfg, key, est, s, b);
      WriteTag(cfg, key, dst, end, at, est, s);
      SubOfPatch(mid, at, t, 0, end);
      SubOfPatch(mid, at, t, end, at);
      SubOfPatch(mid, at, t, at, at + n);
    }
    FinishedPacket(dst[..], b, key.mki, TagField(cfg, key, est, s, b, slack));
  }

  /** Since `before`, the ciphers have used keystream of this packet only, from its start. */
  ghost predicate Consumed(sk: SessionKeys, before: Logs, iv: block)
    reads sk, sk.cipher, sk.xtn
  {
    sk.Log() == before.Plus(SpentBlocks(sk.key, iv, sk.Pos())) && Within(sk.key, iv, sk.Pos())
  }

  lemma TailParts(was: seq<octet>, mid: seq<octet>, end: nat, m: nat, n: nat)
    requires end + m + n <= |was| == |mid| && Sub(mid, end, |mid|) == Sub(was, end, |was|)
    ensures Sub(mid, end, end + m) == Sub(was, end, end + m)
    ensures Sub(mid, end + m, end + m + n) == Sub(was, end + m, end + m + n)
  {
    hide Sub;
    SubOfSub(mid, end, |mid|, 0, m);
    SubOfSub(was, end, |was|, 0, m);
    SubOfSub(mid, end, |mid|, m, m + n);
    SubOfSub(was, end, |was|, m, m + n);
  }

  lemma SsrcInBuffer(s: seq<octet>, pkt: seq<octet>, split: nat)
    requires |pkt| >= RTP_HEADER && RTP_HEADER <= split <= |pkt| <= |s| && Sub(s, 0, split) == Sub(pkt, 0, split)
    ensures SsrcOf(s) == SsrcOf(pkt)
  {
    hide Sub;
    SubOfSub(s, 0, split, 8, 12);
    SubOfSub(pkt, 0, split, 8, 12);
  }

  /** The part of srtp_protect behind the packet index. */
  method Seal(cfg: Config, sk: SessionKeys, est: nat, s: seqNum, src: array<octet>, end: nat, dst: array<octet>,
              l: Layout, ghost pkt: seq<octet>, ghost slack: seq<octet>)
    returns (err: Option<Error>)
    requires cfg.Valid() && !cfg.gcm && KeyFits(cfg, sk.key) && sk.Valid()
    requires |pkt| == end <= OBJECT_MAX && ValidHeader(pkt) && l == LayoutOf(pkt) && s == SeqOf(pkt)
    requires !(cfg.cryptex && cfg.conf && Cc(pkt) != 0 && !l.x)
    requires Holds(pkt, Split(cfg.cryptex && cfg.conf && l.x, l), src, dst)
    requires |slack| == cfg.TagOut(s) && end + cfg.mkiSize + cfg.TagOut(s) <= dst.Length
    requires Sub(dst[..], end, end + cfg.mkiSize) == sk.key.mki
    requires Sub(dst[..], end + cfg.mkiSize, end + cfg.mkiSize + cfg.TagOut(s)) == slack
    modifies dst, sk.cipher, sk.xtn
    ensures sk.Valid() && Consumed(sk, old(sk.Log()), CmIv(SsrcOf(pkt), est))
    ensures var r := ProtectPacket(cfg, sk.key, est, pkt, slack);
      && err == ErrorOf(r)
      && (r.Success? ==> |r.value| == end + cfg.mkiSize + cfg.TagOut(s) && Sub(dst[..], 0, |r.value|) == r.value)
  {
    hide Sub, Patch, Value, Protected, ValidHeader, LayoutOf, Tag, CmIv, XtnEnds, Cc, SeqOf, SsrcOf,
         SpentBlocks, Within, Cipher.Valid;
    XtnEndsAtPayload(pkt);
    LayoutFields(pkt);
    SsrcInBuffer(dst[..], pkt, Split(cfg.cryptex && cfg.conf && l.x, l));
    var iv := CmIv(SsrcOf(dst[..]), est);
    sk.SetIv(iv);
    ghost var was := dst[..];
    err := ProtectBody(cfg, sk, src, end, dst, l, iv, pkt);
    sk.LogOfPacket(iv);
    if err.Some? { return; }
    TailParts(was, dst[..], end, cfg.mkiSize, cfg.TagOut(s));
    AppendTag(cfg, sk.key, dst, end, est, s, Sub(dst[..], 0, end), slack);
  }

  /** srtp_protect on one stream, from the RTP packet in rtp[..rtpLen] to srtp, which may be
      the same buffer and offers `cap` octets. */
  method Protect(cfg: Config, sk: SessionKeys, idx: StreamIndex, allowRepeat: bool,
                 rtp: array<octet>, rtpLen: nat, srtp: array<octet>, cap: nat)
    returns (r: Result<nat>)
    requires cfg.Valid() && !cfg.gcm && KeyFits(cfg, sk.key) && sk.Valid() && idx.View().Valid()
    requires rtpLen <= rtp.Length && rtpLen <= OBJECT_MAX && cap <= srtp.Length
    modifies srtp, sk.cipher, sk.xtn, idx, idx.db, idx.db.bitmask.words
    ensures sk.Valid()
    ensures var pkt := Sub(old(rtp[..]), 0, rtpLen);
      var sent := Send(cfg, sk.key, old(idx.View()), allowRepeat, pkt, Sub(old(srtp[..]), 0, cap));
      && idx.View() == sent.0
      && (match r
          case Failure(e) => sent.1 == Failure(e)
          case Success(n) => n <= cap && sent.1 == Success(Sub(srtp[..], 0, n)))
    ensures var pkt := Sub(old(rtp[..]), 0, rtpLen);
      match Admit(cfg, old(idx.View()), allowRepeat, pkt, cap)
      case Failure(_) => sk.Log() == old(sk.Log())
      case Success(l) => Consumed(sk, old(sk.Log()), CmIv(SsrcOf(pkt), l.est))
  {
    hide Sub, Patch, Value, ProtectPacket, ValidHeader, LayoutOf, CmIv, XtnEnds, Cc, SeqOf, SsrcOf, HasXtn,
         PI.LocateSend, PI.Record,
         Consumed, SessionKeys.Valid;
    var hdr := Sub(rtp[..], 0, rtpLen);
    if !ValidHeader(hdr) { return Failure(BadParam); }
    LayoutFields(hdr);
    var l, s := LayoutOf(hdr), SeqOf(hdr);
    var at, n := rtpLen + cfg.mkiSize, cfg.TagOut(s);
    if cap < at + n { return Failure(BufferSmall); }
    if cfg.cryptex && cfg.conf && Cc(hdr) != 0 && !l.x { return Failure(CryptexErr); }
    ghost var out := srtp[..];
    CopyHeader(rtp, rtpLen, srtp, Split(cfg.cryptex && cfg.conf && l.x, l), sk.key.mki);
    TagSlack(out, srtp[..], at, n, cap);
    var found := idx.FindSend(s, allowRepeat);
    if !found.Usable() { return Failure(IndexError(found.status)); }
    idx.Commit(found);
    var err := Seal(cfg, sk, found.est, s, rtp, rtpLen, srtp, l, hdr, Sub(Sub(out, 0, cap), at, at + n));
    if err.Some? { return Failure(err.value); }
    r := Success(at + n);
  }

  lemma TagSlack(was: seq<octet>, now: seq<octet>, at: nat, n: nat, cap: nat)
    requires at + n <= cap <= |was| == |now| && Sub(now, at, |now|) == Sub(was, at, |was|)
    ensures Sub(now, at, at + n) == Sub(Sub(was, 0, cap), at, at + n)
  {
    hide Sub;
    SubOfSub(was, at, |was|, 0, n);
    SubOfSub(now, at, |now|, 0, n);
    SubOfSub(was, 0, cap, at, at + n);
  }

  // --- Receiving ----------------------------------------------------------------------------

  /** The end of srtp_cryptex_unprotect_cleanup. */
  method RestoreProfileAt(buf: array<octet>, h: nat)
    requires h + 2 <= buf.Length
    modifies buf
    ensures buf[..] == RestoreProfile(old(buf[..]), h)
  {
    hide Sub, Patch, Value, BigEndian;
    TwoOctets(buf[..], h);
    BigEndianOfValue(Sub(buf[..], h, h + 2));
    PatchSelf(buf[..], h, h + 2);
    var profile := 256 * (buf[h] as int) + buf[h + 1];
    if IsCryptex(profile) {
      Write(buf, h, BigEndian(PlainProfile(profile), 2));
    }
  }

  /** A cryptex packet in one buffer, of which the first end octets are to be returned. */
  method OpenInPlace(cfg: Config, sk: SessionKeys, buf: array<octet>, n: nat, end: nat, h: nat, ghost iv: block)
    returns (err: Option<Error>)
    requires sk.Ready(iv)
    requires RTP_HEADER <= h && h + XTN_HEADER <= n <= buf.Length && 16 <= end <= n && n <= OBJECT_MAX
    modifies buf, sk.cipher
    ensures sk.Valid() && sk.cipher.iv == iv && sk.cipher.mark == old(sk.cipher.mark)
    ensures sk.cipher.pos == if cfg.conf then Moved(sk.key.cipher, iv, 0, end - 16) else 0
    ensures var sp := Sub(old(buf[..]), 0, n);
      var r := if end < h + XTN_HEADER then OpenShort(cfg, sk.key, iv, sp, h, end)
               else OpenCryptex(cfg, sk.key, iv, Sub(sp, 0, end), h, true);
      err == ErrorOf(r) && (r.Success? ==> Sub(buf[..], 0, end) == r.value)
  {
    hide Sub, XtnFirst, CsrcFirst, CryptRange, Reaches, CryptexCrypt, RestoreProfile, Cipher.Valid;
    ghost var was, k := buf[..], sk.key.cipher;
    SubOfSub(was, 0, n, 0, end);
    CryptexReaches(k, iv, Sub(was, 0, end), h);
    err := CryptexInPlace(cfg.conf, sk.cipher, buf, end, h);
    if err.Some? { return; }
    ghost var mid := buf[..];
    RestoreProfileAt(buf, h);
    if end < h + XTN_HEADER {
      RestoreOfPrefix(mid, h, n);
      SubOfSub(buf[..], 0, n, 0, end);
      if cfg.conf {
        InPlaceShort(k, iv, was, h, end);
        CryptRangeOfPrefix(k, iv, 0, was, RTP_HEADER, end - XTN_HEADER, n);
      }
    } else {
      RestoreOfPrefix(mid, h, end);
      if cfg.conf { InPlaceIsCryptex(k, iv, was, h, end); }
    }
  }

  lemma CryptexReaches(k: CipherKey, iv: block, pkt: seq<octet>, h: nat)
    ensures RTP_HEADER <= h && h + XTN_HEADER <= |pkt| && !Reaches(k, iv, |pkt| - 16) ==>
      CryptexCrypt(k, iv, pkt, h) == Failure(CipherFail)
  {
    hide Reaches;
  }

  /** A cryptex packet between buffers; the header is already in dst. */
  method OpenBetween(cfg: Config, sk: SessionKeys, src: array<octet>, end: nat, dst: array<octet>, h: nat,
                     ghost iv: block, ghost b: seq<octet>)
    returns (err: Option<Error>)
    requires sk.Ready(iv) && src != dst
    requires RTP_HEADER <= h && h + XTN_HEADER <= end == |b| <= OBJECT_MAX && Holds(b, h + XTN_HEADER, src, dst)
    modifies dst, sk.cipher
    ensures sk.Valid() && sk.cipher.iv == iv && sk.cipher.mark == old(sk.cipher.mark)
    ensures sk.cipher.pos == BetweenUse(cfg.conf, sk.key.cipher, iv, h, end)
    ensures var r := OpenCryptex(cfg, sk.key, iv, b, h, false);
      err == ErrorOf(r) && (r.Success? ==> Sub(dst[..], 0, end) == r.value)
  {
    hide Sub, CryptRange, Reaches, CryptexCrypt, RestoreProfile;
    err := CryptexBetween(cfg.conf, sk.cipher, src, end, dst, h, b);
    if err.Some? { return; }
    RestoreOfPrefix(dst[..], h, end);
    RestoreProfileAt(dst, h);
  }

  /** Decryption into the output buffer. */
  method OpenInto(cfg: Config, sk: SessionKeys, srtp: array<octet>, n: nat, end: nat, rtp: array<octet>, l: Layout,
                  ghost iv: block)
    returns (err: Option<Error>)
    requires sk.Ready(iv) && end <= n <= srtp.Length && n <= OBJECT_MAX && end <= rtp.Length
    requires ValidHeader(Sub(srtp[..], 0, n)) && l == LayoutOf(Sub(srtp[..], 0, n))
    requires EncStart(cfg, Sub(srtp[..], 0, n), l, rtp == srtp) <= end
    modifies rtp, sk.cipher, sk.xtn
    ensures sk.Under(iv) && sk.Mark() == old(sk.Mark())
    ensures sk.Pos() == ContentsSpent(cfg, sk.key, iv, Sub(old(srtp[..]), 0, n), l, end, rtp == srtp)
    ensures var r := OpenContents(cfg, sk.key, iv, Sub(old(srtp[..]), 0, n), l, end, rtp == srtp);
      err == ErrorOf(r) && (r.Success? ==> Sub(rtp[..], 0, end) == r.value)
  {
    hide Sub, ValidHeader, LayoutOf, XtnEnds, OpenPlain, OpenShort, OpenCryptex, ProfileAt, PayloadStart, HdrLen,
         Cipher.Valid;
    ghost var b := Sub(Sub(srtp[..], 0, n), 0, end);
    SubOfSub(srtp[..], 0, n, 0, end);
    if !CryptexIn(cfg, Sub(srtp[..], 0, n), l) {
      HeaderOfPrefix(Sub(srtp[..], 0, n), end);
      CopyStart(srtp, end, rtp, l.start);
      err := CryptPlain(cfg, sk, srtp, end, rtp, l, iv, b);
    } else if rtp == srtp {
      err := OpenInPlace(cfg, sk, rtp, n, end, l.h, iv);
    } else {
      CopyStart(srtp, end, rtp, l.h + XTN_HEADER);
      err := OpenBetween(cfg, sk, srtp, end, rtp, l.h, iv, b);
    }
  }

  /** The blocks that the ciphers encrypt for a received packet, accepted or not. */
  ghost function OpenBlocks(cfg: Config, key: Key, est: nat, sp: seq<octet>, cap: nat, inPlace: bool): (r: Logs)
    requires cfg.Valid() && !cfg.gcm && ValidHeader(sp)
  {
    SpentBlocks(key, CmIv(SsrcOf(sp), est), OpenSpent(cfg, key, est, sp, cap, inPlace))
  }

  /** The part of srtp_unprotect behind the packet index. */
  method OpenPacket(cfg: Config, sk: SessionKeys, est: nat, srtp: array<octet>, n: nat, rtp: array<octet>, cap: nat)
    returns (r: Result<nat>)
    requires cfg.Valid() && !cfg.gcm && sk.Valid()
    requires n <= srtp.Length && n <= OBJECT_MAX && cap <= rtp.Length && ValidHeader(Sub(srtp[..], 0, n))
    modifies rtp, sk.cipher, sk.xtn
    ensures sk.Valid()
    ensures var sp := Sub(old(srtp[..]), 0, n);
      sk.Log() == old(sk.Log()).Plus(OpenBlocks(cfg, sk.key, est, sp, cap, rtp == srtp))
    ensures var o := Open(cfg, sk.key, est, Sub(old(srtp[..]), 0, n), cap, rtp == srtp);
      match r
      case Failure(e) => o == Failure(e)
      case Success(m) => m <= rtp.Length && o == Success(Sub(rtp[..], 0, m))
  {
    hide Sub, Value, ValidHeader, LayoutOf, CmIv, SeqOf, SsrcOf, TagMatches, OpenContents, EncStart,
         ContentsSpent, SpentBlocks, Within, Cipher.Valid;
    var sp := Sub(srtp[..], 0, n);
    LayoutFields(sp);
    var l, s, iv := LayoutOf(sp), SeqOf(sp), CmIv(SsrcOf(sp), est);
    sk.SetIv(iv);
    sk.LogOfPacket(iv);
    var tag := cfg.TagOut(s);
    if tag + cfg.mkiSize > n || EncStart(cfg, sp, l, rtp == srtp) > n - tag - cfg.mkiSize { return Failure(ParseErr); }
    var end := n - tag - cfg.mkiSize;
    if cap < end { return Failure(BufferSmall); }
    if cfg.auth && tag > 0 {
      var ok := TagMatches(cfg, sk.key, est, s, Sub(sp, 0, end), Sub(sp, n - cfg.tagLen, n));
      if !ok { return Failure(AuthFail); }
    }
    var err := OpenInto(cfg, sk, srtp, n, end, rtp, l, iv);
    sk.LogOfPacket(iv);
    if err.Some? { return Failure(err.value); }
    r := Success(end);
  }

  method CopyStart(src: array<octet>, end: nat, dst: array<octet>, split: nat)
    requires split <= end <= src.Length && end <= dst.Length
    modifies dst
    ensures Holds(Sub(old(src[..]), 0, end), split, src, dst)
  {
    hide Sub, Patch;
    SubOfSub(src[..], 0, end, 0, split);
    SubOfSub(src[..], 0, end, split, end);
    SubOfPatch(dst[..], 0, Sub(src[..], 0, split), 0, split);
    if src != dst {
      Copy(src, 0, dst, 0, split);
      assert src[..] == old(src[..]);
    }
  }

  /** The layout of a packet is that of a part of it which holds the whole header. */
  lemma HeaderOfPrefix(sp: seq<octet>, end: nat)
    requires ValidHeader(sp) && LayoutOf(sp).start <= end <= |sp|
    ensures LayoutOf(sp).Fits(end)
    ensures XtnEnds(Sub(sp, 0, end), LayoutOf(sp))
  {
    hide Sub, Value;
    var l := LayoutOf(sp);
    if l.x { SubOfSub(sp, 0, end, l.h + 2, l.h + 4); }
  }

  function KeysOf(sks: seq<SessionKeys>): (keys: seq<Key>)
    ensures |keys| == |sks| && forall i | 0 <= i < |sks| :: keys[i] == sks[i].key
  {
    seq(|sks|, i requires 0 <= i < |sks| => sks[i].key)
  }

  /** No two keys of a stream share a cipher context. */
  ghost predicate Separate(sks: seq<SessionKeys>) {
    forall i, j | 0 <= i < |sks| && 0 <= j < |sks| && i != j ::
      && sks[i].cipher != sks[j].cipher && sks[i].cipher != sks[j].xtn
      && (sks[i].xtn != null ==> sks[i].xtn != sks[j].xtn)
  }

  /** The cipher contexts of all keys of a stream. */
  ghost function Contexts(sks: seq<SessionKeys>): (r: set<object?>) {
    (set sk | sk in sks :: sk.cipher) + (set sk | sk in sks :: sk.xtn)
  }

  lemma {:induction false} FindMkiSkips(mkis: seq<seq<octet>>, mki: seq<octet>, from: nat, i: nat)
    requires from <= i <= |mkis| && forall j | from <= j < i :: mkis[j] != mki
    ensures FindMki(mkis, mki, from) == FindMki(mkis, mki, i)
    decreases i - from
  {
    if from < i { FindMkiSkips(mkis, mki, from + 1, i); }
  }

  /** srtp_get_session_keys_for_packet */
  method FindKey(mkiSize: nat, mkis: seq<seq<octet>>, sp: seq<octet>, trailing: nat) returns (r: Result<nat>)
    ensures r == SelectKey(mkiSize, mkis, sp, trailing)
  {
    if mkis == [] { return Failure(NoCtx); }
    if mkiSize == 0 { return Success(0); }
    if trailing + mkiSize > |sp| { return Failure(BadMki); }
    var at := |sp| - trailing - mkiSize;
    var mki := Sub(sp, at, at + mkiSize);
    for i := 0 to |mkis|
      invariant forall j | 0 <= j < i :: mkis[j] != mki
    {
      if mkis[i] == mki {
        FindMkiSkips(mkis, mki, 0, i);
        return Success(i);
      }
    }
    FindMkiSkips(mkis, mki, 0, |mkis|);
    r := Failure(BadMki);
  }

  /** The part of srtp_unprotect before the ciphers: the key, and the place of the packet. */
  method Choose(cfg: Config, mkis: seq<seq<octet>>, idx: StreamIndex, sp: seq<octet>, ghost keys: seq<Key>)
    returns (r: Result<(nat, PI.Located)>)
    requires cfg.Valid() && !cfg.gcm && idx.View().Valid() && mkis == Mkis(keys)
    ensures r == FindPlace(cfg, keys, idx.View(), sp)
  {
    hide Sub, Value, ValidHeader, SeqOf, SelectKey, CarriedRoc, PI.Locate;
    if !ValidHeader(sp) { return Failure(BadParam); }
    LayoutFields(sp);
    var s := SeqOf(sp);
    var carry := cfg.Carries(s);
    var found := PI.Located(Ok, 0, 0);
    if !carry {
      found := idx.Find(s, None);
      if !found.Usable() { return Failure(IndexError(found.status)); }
    }
    var k := FindKey(cfg.mkiSize, mkis, sp, Trailing(cfg, s));
    if k.Failure? { return Failure(k.error); }
    if carry {
      if |sp| < RTP_HEADER + cfg.mkiSize + cfg.tagLen { return Failure(BadParam); }
      found := idx.Find(s, Some(CarriedRoc(cfg, sp)));
      if !found.Usable() { return Failure(IndexError(found.status)); }
    }
    r := Success((k.value, found));
  }

  /** The blocks that key i of a stream encrypts for a received packet, accepted or not. */
  ghost function ReceiveBlocks(cfg: Config, keys: seq<Key>, i: nat, st: PI.IndexState, sp: seq<octet>, cap: nat,
                               inPlace: bool)
    : (r: Logs)
    requires cfg.Valid() && !cfg.gcm && st.Valid()
  {
    match FindPlace(cfg, keys, st, sp)
    case Failure(_) => Logs([], [])
    case Success((k, at)) => if k == i then OpenBlocks(cfg, keys[k], at.est, sp, cap, inPlace) else Logs([], [])
  }

  /** srtp_unprotect on one stream, up to the point where the packet is put on record. */
  method Unprotect(cfg: Config, sks: seq<SessionKeys>, idx: StreamIndex,
                   srtp: array<octet>, n: nat, rtp: array<octet>, cap: nat)
    returns (r: Result<nat>, found: PI.Located)
    requires cfg.Valid() && !cfg.gcm && idx.View().Valid()
    requires Separate(sks) && forall i | 0 <= i < |sks| :: sks[i].Valid()
    requires n <= srtp.Length && n <= OBJECT_MAX && cap <= rtp.Length
    modifies rtp, Contexts(sks)
    ensures forall i | 0 <= i < |sks| :: sks[i].Valid()
    ensures var sp := Sub(old(srtp[..]), 0, n);
      forall i | 0 <= i < |sks| ::
        sks[i].Log() == old(sks[i].Log()).Plus(ReceiveBlocks(cfg, KeysOf(sks), i, idx.View(), sp, cap, rtp == srtp))
    ensures var got := Receive(cfg, KeysOf(sks), idx.View(), Sub(old(srtp[..]), 0, n), cap, rtp == srtp);
      match r
      case Failure(e) => got == Failure(e)
      case Success(m) => m <= rtp.Length && got == Success(Received(Sub(rtp[..], 0, m), found))
  {
    hide Sub, Value, ValidHeader, Open, OpenBlocks, FindPlace, PI.Locate, Cipher.Valid;
    var sp := Sub(srtp[..], 0, n);
    found := PI.Located(Ok, 0, 0);
    var place := Choose(cfg, Mkis(KeysOf(sks)), idx, sp, KeysOf(sks));
    if place.Failure? { return Failure(place.error), found; }
    var k := place.value.0;
    found := place.value.1;
    assert sks[k] in sks;
    r := OpenPacket(cfg, sks[k], found.est, srtp, n, rtp, cap);
  }
}
