/** srtp_protect_aead and srtp_unprotect_aead on packet buffers (srtp/srtp.c). */
module AeadCode {
  import opened Results
  import opened Octets
  import opened Replay
  import opened Keystreams
  import opened Ciphers
  import opened RtpPackets
  import opened SrtpBodies
  import opened SrtpPackets
  import opened Cryptex
  import opened AeadPackets
  import opened SrtpCode
  import opened StreamIndexes
  import PI = PacketIndex

  /** One set of session keys; GCM itself is a function of the key. */
  class AeadKeys {
    const key: AeadKey
    const xtn: Cipher?

    ghost predicate Valid()
      reads this, xtn
    {
      (xtn != null <==> key.xtn.Some?) && (xtn != null ==> xtn.Valid() && xtn.key == key.xtn.value)
    }

    constructor (k: AeadKey)
      requires k.xtn.Some? && k.xtn.value.IcmKey? ==> Low(k.xtn.value.offset) == 0
      ensures Valid() && key == k && (xtn != null ==> fresh(xtn))
    {
      key := k;
      if k.xtn.Some? {
        var c := new Cipher(k.xtn.value);
        xtn := c;
      } else {
        xtn := null;
      }
    }

    method SetIv(iv: block)
      requires Valid()
      modifies xtn
      ensures Valid() && AtStart(xtn, key.xtn, iv)
    {
      if xtn != null { xtn.SetIv(iv); }
    }
  }

  // --- Sending ------------------------------------------------------------------------------

  /** Seals what is behind `split`, with the start of the output as associated data. */
  method SealInto(a: Aead, ghost tagLen: nat, iv: seq<octet>, src: array<octet>, end: nat, dst: array<octet>,
                  split: nat,
                  ghost p: seq<octet>)
    requires IsAead(a, tagLen) && |p| == end && Holds(p, split, src, dst) && end + tagLen <= dst.Length
    modifies dst
    ensures Sub(dst[..], 0, end + tagLen) == SealFrom(a, tagLen, iv, p, split)
  {
    hide Sub, Patch, IsAead;
    ghost var was := dst[..];
    var c := a.seal(iv, Sub(dst[..], 0, split), Sub(src[..], split, end));
    SealedLength(a, tagLen, iv, Sub(p, 0, split), Sub(p, split, end));
    Write(dst, split, c);
    SubOfPatch(was, split, c, 0, split);
    SubOfPatch(was, split, c, split, end + tagLen);
    SubConcat(dst[..], 0, split, end + tagLen);
  }

  /** The profile is replaced, and in place the extension header is moved while sealing. */
  method SealCryptex(a: Aead, ghost tagLen: nat, iv: seq<octet>, src: array<octet>, end: nat, dst: array<octet>, h: nat,
                     ghost pkt: seq<octet>)
    returns (err: Option<Error>)
    requires IsAead(a, tagLen) && RTP_HEADER <= h && h + XTN_HEADER <= end == |pkt| && end + tagLen <= dst.Length
    requires Holds(pkt, h + XTN_HEADER, src, dst) && (src != dst ==> h == RTP_HEADER)
    modifies dst
    ensures var q := CryptexProfile(ProfileAt(pkt, h));
      && err == (if q.None? then Some(ParseErr) else None)
      && (q.Some? ==>
          Sub(dst[..], 0, end + tagLen)
          == CsrcFirst(SealFrom(a, tagLen, iv, XtnFirst(SetProfile(pkt, h, q.value), h), 16), h))
  {
    hide Sub, Patch, Value, BigEndian, IsAead, SealFrom, XtnFirst, CsrcFirst, CryptexProfile;
    ghost var was := dst[..];
    SubOfSub(was, 0, h + XTN_HEADER, h, h + 2);
    SubOfSub(pkt, 0, h + XTN_HEADER, h, h + 2);
    TwoOctets(was, h);
    var profile := 256 * (dst[h] as int) + dst[h + 1];
    var q := CryptexProfile(profile);
    if q.None? { return Some(ParseErr); }
    ProfileInPlace(was, src[..], pkt, h, BigEndian(q.value, 2));
    Write(dst, h, BigEndian(q.value, 2));
    ghost var p := SetProfile(pkt, h, q.value);
    err := None;
    if src == dst {
      HeldWhole(dst[..], p, h + XTN_HEADER);
      SealMoved(a, tagLen, iv, dst, end, h, p);
    } else {
      assert src[..] == old(src[..]);
      MoveNothing(p);
      SealInto(a, tagLen, iv, src, end, dst, h + XTN_HEADER, p);
      MoveNothing(SealFrom(a, tagLen, iv, p, 16));
    }
  }

  lemma HeldWhole(s: seq<octet>, p: seq<octet>, split: nat)
    requires split <= |p| <= |s| && Sub(s, 0, split) == Sub(p, 0, split) && Sub(s, split, |p|) == Sub(p, split, |p|)
    ensures Sub(s, 0, |p|) == p
  {
    hide Sub;
    SubConcat(s, 0, split, |p|);
    SubConcat(p, 0, split, |p|);
    SubWhole(p);
  }

  /** Sealing in one buffer, around the two moves. */
  method SealMoved(a: Aead, ghost tagLen: nat, iv: seq<octet>, buf: array<octet>, end: nat, h: nat, ghost p: seq<octet>)
    requires IsAead(a, tagLen) && RTP_HEADER <= h && h + XTN_HEADER <= end == |p| && end + tagLen <= buf.Length
    requires Sub(buf[..], 0, end) == p
    modifies buf
    ensures Sub(buf[..], 0, end + tagLen) == CsrcFirst(SealFrom(a, tagLen, iv, XtnFirst(p, h), 16), h)
  {
    hide Sub, Patch, IsAead, SealFrom, XtnFirst, CsrcFirst;
    MovesOfPrefix(buf[..], h, end);
    MoveXtnBeforeCsrc(buf, h);
    ghost var m := XtnFirst(p, h);
    SubOfSub(buf[..], 0, end, 0, 16);
    SubOfSub(buf[..], 0, end, 16, end);
    SealInto(a, tagLen, iv, buf, end, buf, 16, m);
    MovesOfPrefix(buf[..], h, end + tagLen);
    MoveCsrcBeforeXtn(buf, h);
  }

  /** The sealed packet, before MKI and counter. */
  method SealBodyInto(cfg: Config, ak: AeadKeys, est: nat, src: array<octet>, end: nat, dst: array<octet>, l: Layout,
                      ghost pkt: seq<octet>)
    returns (err: Option<Error>)
    requires cfg.Valid() && cfg.gcm && IsAead(ak.key.aead, cfg.tagLen) && ak.Valid()
    requires |pkt| == end && ValidHeader(pkt) && l == LayoutOf(pkt) && end + cfg.tagLen <= dst.Length
    requires !(cfg.cryptex && cfg.conf && Cc(pkt) != 0 && !(l.x && src == dst))
    requires (ak.xtn != null ==> cfg.ids != [])
    requires Holds(pkt, Split(cfg.cryptex && cfg.conf && l.x, l), src, dst)
    modifies dst, ak.xtn
    ensures ak.Valid()
    ensures var r := SealBody(cfg, ak.key, est, pkt, src == dst);
      err == ErrorOf(r) && (r.Success? ==> Sub(dst[..], 0, end + cfg.tagLen) == r.value)
  {
    hide Sub, Patch, Value, IsAead, SealFrom, XtnFirst, CsrcFirst, XtnStage, CryptexProfile, ProfileAt, SetProfile,
         CmIv, AeadIv, XtnEnds, SsrcOf, ValidHeader, LayoutOf, Cc;
    XtnEndsAtPayload(pkt);
    LayoutFields(pkt);
    SsrcInBuffer(dst[..], pkt, Split(cfg.cryptex && cfg.conf && l.x, l));
    var ssrc := SsrcOf(dst[..]);
    var iv := AeadIv(ak.key.salt, ssrc, est);
    ak.SetIv(CmIv(ssrc, est));
    if cfg.cryptex && cfg.conf && l.x {
      HdrLenOfCc(pkt);
      err := SealCryptex(ak.key.aead, cfg.tagLen, iv, src, end, dst, l.h, pkt);
    } else if cfg.cryptex && cfg.conf {
      SealInto(ak.key.aead, cfg.tagLen, iv, src, end, dst, l.start, pkt);
      err := None;
    } else {
      ghost var was, k := dst[..], ak.key.xtn;
      err := CryptXtn(cfg.ids, ak.xtn, dst, l, k, CmIv(ssrc, est), pkt);
      if err.Some? { return; }
      ghost var p := XtnStage(cfg.ids, k, CmIv(ssrc, est), pkt, l).value;
      assert src != dst ==> src[..] == old(src[..]);
      TailOfTail(dst[..], was, l.start, end);
      SealInto(ak.key.aead, cfg.tagLen, iv, src, end, dst, l.start, p);
    }
  }

  lemma ThreeParts(s: seq<octet>, b: seq<octet>, mki: seq<octet>, t: seq<octet>)
    requires |b| + |mki| + |t| <= |s| && Sub(s, 0, |b|) == b
    ensures var r := Patch(Patch(s, |b|, mki), |b| + |mki|, t);
      Sub(r, 0, |b| + |mki| + |t|) == b + mki + t
  {
    hide Sub, Patch;
    var n, m := |b|, |b| + |mki|;
    var r1 := Patch(s, n, mki);
    SubOfPatch(s, n, mki, 0, n);
    SubOfPatch(s, n, mki, n, m);
    SubOfPatch(r1, m, t, 0, n);
    SubOfPatch(r1, m, t, n, m);
    SubOfPatch(r1, m, t, m, m + |t|);
    FinishedPacket(Patch(r1, m, t), b, mki, t);
  }

  /** srtp_protect_aead on one stream. */
  method Protect(cfg: Config, ak: AeadKeys, idx: StreamIndex, allowRepeat: bool,
                 rtp: array<octet>, rtpLen: nat, srtp: array<octet>, cap: nat)
    returns (r: Result<nat>)
    requires cfg.Valid() && cfg.gcm && IsAead(ak.key.aead, cfg.tagLen) && ak.Valid() && idx.View().Valid()
    requires |ak.key.mki| == cfg.mkiSize && (ak.xtn != null ==> cfg.ids != [])
    requires rtpLen <= rtp.Length && cap <= srtp.Length
    modifies srtp, ak.xtn, idx, idx.db, idx.db.bitmask.words
    ensures ak.Valid()
    ensures var pkt := Sub(old(rtp[..]), 0, rtpLen);
      var sent := SendAead(cfg, ak.key, old(idx.View()), allowRepeat, pkt, cap, rtp == srtp);
      && idx.View() == sent.0
      && (match r
          case Failure(e) => sent.1 == Failure(e)
          case Success(n) => n <= cap && sent.1 == Success(Sub(srtp[..], 0, n)))
  {
    hide Sub, Patch, Value, IsAead, SealBody, ValidHeader, LayoutOf, Cc, SeqOf, HasXtn, RocOctets, PI.LocateSend,
         PI.Record;
    var hdr := Sub(rtp[..], 0, rtpLen);
    if !ValidHeader(hdr) { return Failure(BadParam); }
    LayoutFields(hdr);
    var l, s := LayoutOf(hdr), SeqOf(hdr);
    var n := rtpLen + cfg.tagLen;
    if cap < n + cfg.mkiSize + RocLen(cfg, s) { return Failure(BufferSmall); }
    if cfg.cryptex && cfg.conf && Cc(hdr) != 0 && !(l.x && rtp == srtp) { return Failure(CryptexErr); }
    CopyStart(rtp, rtpLen, srtp, Split(cfg.cryptex && cfg.conf && l.x, l));
    var found := idx.FindSend(s, allowRepeat);
    if !found.Usable() { return Failure(IndexError(found.status)); }
    idx.Commit(found);
    var err := SealBodyInto(cfg, ak, found.est, rtp, rtpLen, srtp, l, hdr);
    if err.Some? { return Failure(err.value); }
    ThreeParts(srtp[..], Sub(srtp[..], 0, n), ak.key.mki, RocField(cfg, s, found.est));
    Write(srtp, n, ak.key.mki);
    Write(srtp, n + cfg.mkiSize, RocField(cfg, s, found.est));
    r := Success(n + cfg.mkiSize + RocLen(cfg, s));
  }

  // --- Receiving ----------------------------------------------------------------------------

  /** A packet without cryptex. */
  method OpenPlainInto(cfg: Config, ak: AeadKeys, est: nat, srtp: array<octet>, n: nat, end: nat, rtp: array<octet>,
                       l: Layout)
    returns (r: Result<nat>)
    requires cfg.Valid() && IsAead(ak.key.aead, cfg.tagLen) && ak.Valid() && n <= srtp.Length
    requires ValidHeader(Sub(srtp[..], 0, n)) && l == LayoutOf(Sub(srtp[..], 0, n))
    requires l.start + cfg.tagLen <= end <= n && end - cfg.tagLen <= rtp.Length
    modifies rtp, ak.xtn
    ensures ak.Valid()
    ensures var o := OpenAeadPlain(cfg, ak.key, est, Sub(old(srtp[..]), 0, n), l, end);
      match r
      case Failure(e) => o == Failure(e)
      case Success(m) => m <= rtp.Length && o == Success(Sub(rtp[..], 0, m))
  {
    hide Sub, Patch, Value, IsAead, XtnStage, CmIv, AeadIv, XtnEnds, SsrcOf, ValidHeader, LayoutOf;
    var sp := Sub(srtp[..], 0, n);
    LayoutFields(sp);
    var ssrc := SsrcOf(sp);
    ak.SetIv(CmIv(ssrc, est));
    var plain := ak.key.aead.open(AeadIv(ak.key.salt, ssrc, est), Sub(sp, 0, l.start), Sub(sp, l.start, end));
    SubOfSub(srtp[..], 0, n, 0, l.start);
    SubOfSub(srtp[..], 0, l.start, 0, l.start);
    CopyStart(srtp, l.start, rtp, l.start);
    if plain.None? { return Failure(AuthFail); }
    var x := plain.value;
    OpenedLength(ak.key.aead, cfg.tagLen, AeadIv(ak.key.salt, ssrc, est), Sub(sp, 0, l.start), Sub(sp, l.start, end));
    ghost var was, p := rtp[..], Sub(sp, 0, l.start) + x;
    Write(rtp, l.start, x);
    HeaderThenText(was, sp, x, l.start);
    XtnEndsOfHeader(sp, p);
    var err := CryptXtn(cfg.ids, ak.xtn, rtp, l, ak.key.xtn, CmIv(ssrc, est), p);
    if err.Some? { return Failure(err.value); }
    var m := l.start + |x|;
    ghost var q := XtnStage(cfg.ids, ak.key.xtn, CmIv(ssrc, est), p, l).value;
    TailOfTail(rtp[..], Patch(was, l.start, x), l.start, m);
    HeldWhole(rtp[..], q, l.start);
    r := Success(m);
  }

  lemma HeaderThenText(s: seq<octet>, sp: seq<octet>, x: seq<octet>, start: nat)
    requires start <= |sp| && start + |x| <= |s| && Sub(s, 0, start) == Sub(sp, 0, start)
    ensures var p, r := Sub(sp, 0, start) + x, Patch(s, start, x);
      && Sub(r, 0, start) == Sub(p, 0, start) == Sub(sp, 0, start)
      && Sub(r, start, start + |x|) == Sub(p, start, |p|)
  {
  }

  lemma XtnEndsOfHeader(sp: seq<octet>, p: seq<octet>)
    requires ValidHeader(sp)
    requires var n := LayoutOf(sp).start; n <= |p| && Sub(p, 0, n) == Sub(sp, 0, n)
    ensures XtnEnds(p, LayoutOf(sp))
  {
    hide Sub, Value;
    var l := LayoutOf(sp);
    if l.x {
      SubOfSub(sp, 0, l.start, l.h + 2, l.h + 4);
      SubOfSub(p, 0, l.start, l.h + 2, l.h + 4);
    }
  }

  /** A cryptex packet in one buffer. */
  method OpenMoved(a: Aead, ghost tagLen: nat, iv: seq<octet>, buf: array<octet>, n: nat, end: nat, h: nat)
    returns (r: Result<nat>)
    requires IsAead(a, tagLen) && RTP_HEADER <= h && h + XTN_HEADER <= n <= buf.Length && 16 <= end <= n
    modifies buf
    ensures var m := XtnFirst(Sub(old(buf[..]), 0, n), h);
      match a.open(iv, Sub(m, 0, 16), Sub(m, 16, end))
      case None => r == Failure(AuthFail)
      case Some(x) =>
        && 16 + |x| <= n && r == Success(16 + |x|)
        && Sub(buf[..], 0, 16 + |x|) == Sub(RestoreProfile(CsrcFirst(Patch(m, 16, x), h), h), 0, 16 + |x|)
  {
    hide Sub, Patch, IsAead, XtnFirst, CsrcFirst, RestoreProfile;
    MovesOfPrefix(buf[..], h, n);
    ghost var m := XtnFirst(Sub(buf[..], 0, n), h);
    MoveXtnBeforeCsrc(buf, h);
    ghost var moved := buf[..];
    SubOfSub(moved, 0, n, 0, 16);
    SubOfSub(moved, 0, n, 16, end);
    var plain := a.open(iv, Sub(buf[..], 0, 16), Sub(buf[..], 16, end));
    if plain.None? { return Failure(AuthFail); }
    var x := plain.value;
    OpenedLength(a, tagLen, iv, Sub(moved, 0, 16), Sub(moved, 16, end));
    Write(buf, 16, x);
    PatchOfPrefix(moved, n, 16, x);
    MovesOfPrefix(buf[..], h, n);
    MoveCsrcBeforeXtn(buf, h);
    RestoreOfPrefix(buf[..], h, n);
    RestoreProfileAt(buf, h);
    SubOfSub(buf[..], 0, n, 0, 16 + |x|);
    r := Success(16 + |x|);
  }

  /** A cryptex packet without CSRCs between buffers. */
  method OpenUnmoved(a: Aead, ghost tagLen: nat, iv: seq<octet>, src: array<octet>, n: nat, end: nat, dst: array<octet>)
    returns (r: Result<nat>)
    requires IsAead(a, tagLen) && src != dst && 16 + tagLen <= end <= n <= src.Length && end - tagLen <= dst.Length
    modifies dst
    ensures var m := Sub(src[..], 0, n);
      match a.open(iv, Sub(m, 0, 16), Sub(m, 16, end))
      case None => r == Failure(AuthFail)
      case Some(x) =>
        && 16 + |x| <= n && 16 + |x| <= dst.Length && r == Success(16 + |x|)
        && Sub(dst[..], 0, 16 + |x|) == Sub(RestoreProfile(Patch(m, 16, x), RTP_HEADER), 0, 16 + |x|)
  {
    hide Sub, Patch, IsAead, RestoreProfile;
    ghost var m := Sub(src[..], 0, n);
    SubOfSub(src[..], 0, n, 0, 16);
    SubOfSub(src[..], 0, n, 16, end);
    SubOfSub(src[..], 0, 16, 0, 16);
    CopyStart(src, 16, dst, 16);
    var plain := a.open(iv, Sub(src[..], 0, 16), Sub(src[..], 16, end));
    if plain.None? { return Failure(AuthFail); }
    var x := plain.value;
    OpenedLength(a, tagLen, iv, Sub(m, 0, 16), Sub(m, 16, end));
    ghost var was := dst[..];
    var k := 16 + |x|;
    Write(dst, 16, x);
    SamePrefix(was, m, x);
    RestoreOfPrefix(dst[..], RTP_HEADER, k);
    RestoreOfPrefix(Patch(m, 16, x), RTP_HEADER, k);
    RestoreProfileAt(dst, RTP_HEADER);
    r := Success(k);
  }

  lemma SamePrefix(s: seq<octet>, t: seq<octet>, x: seq<octet>)
    requires 16 + |x| <= |s| && 16 + |x| <= |t| && Sub(s, 0, 16) == Sub(t, 0, 16)
    ensures Sub(Patch(s, 16, x), 0, 16 + |x|) == Sub(Patch(t, 16, x), 0, 16 + |x|)
  {
    hide Sub, Patch;
    var n := 16 + |x|;
    SubOfPatch(s, 16, x, 0, 16);
    SubOfPatch(s, 16, x, 16, n);
    SubConcat(Patch(s, 16, x), 0, 16, n);
    SubOfPatch(t, 16, x, 0, 16);
    SubOfPatch(t, 16, x, 16, n);
    SubConcat(Patch(t, 16, x), 0, 16, n);
  }

  /** The part of srtp_unprotect_aead behind the packet index. */
  method OpenPacket(cfg: Config, ak: AeadKeys, est: nat, srtp: array<octet>, n: nat, rtp: array<octet>, cap: nat)
    returns (r: Result<nat>)
    requires cfg.Valid() && cfg.gcm && IsAead(ak.key.aead, cfg.tagLen) && ak.Valid()
    requires n <= srtp.Length && cap <= rtp.Length && ValidHeader(Sub(srtp[..], 0, n))
    modifies rtp, ak.xtn
    ensures ak.Valid()
    ensures var o := OpenAead(cfg, ak.key, est, Sub(old(srtp[..]), 0, n), cap, rtp == srtp);
      match r
      case Failure(e) => o == Failure(e)
      case Success(m) => m <= rtp.Length && o == Success(Sub(rtp[..], 0, m))
  {
    hide Sub, Patch, Value, IsAead, OpenAeadPlain, XtnFirst, CsrcFirst, RestoreProfile, ProfileAt,
         CmIv, AeadIv, SeqOf, SsrcOf, ValidHeader, LayoutOf, Cc, HdrLen;
    var sp := Sub(srtp[..], 0, n);
    LayoutFields(sp);
    HdrLenOfCc(sp);
    var l, s := LayoutOf(sp), SeqOf(sp);
    var cryptex := CryptexIn(cfg, sp, l);
    if cryptex && rtp != srtp && Cc(sp) != 0 { return Failure(CryptexErr); }
    var trailer := cfg.mkiSize + RocLen(cfg, s);
    var start := if cryptex then RTP_HEADER + XTN_HEADER else l.start;
    if cfg.tagLen + trailer > n || start > n - cfg.tagLen - trailer { return Failure(ParseErr); }
    if cap < n - cfg.tagLen - trailer { return Failure(BufferSmall); }
    if !cryptex {
      r := OpenPlainInto(cfg, ak, est, srtp, n, n - trailer, rtp, l);
    } else {
      var iv := AeadIv(ak.key.salt, SsrcOf(sp), est);
      if rtp == srtp {
        r := OpenMoved(ak.key.aead, cfg.tagLen, iv, rtp, n, n - trailer, l.h);
      } else {
        r := OpenUnmoved(ak.key.aead, cfg.tagLen, iv, srtp, n, n - trailer, rtp);
        UnmovedIsMoved(sp);
      }
    }
  }

  lemma UnmovedIsMoved(s: seq<octet>)
    requires |s| >= RTP_HEADER + XTN_HEADER
    ensures XtnFirst(s, RTP_HEADER) == s
    ensures forall x: seq<octet> | 16 + |x| <= |s| :: CsrcFirst(Patch(s, 16, x), RTP_HEADER) == Patch(s, 16, x)
  {
    hide Patch, CsrcFirst, XtnFirst;
    MoveNothing(s);
    forall x: seq<octet> | 16 + |x| <= |s|
      ensures CsrcFirst(Patch(s, 16, x), RTP_HEADER) == Patch(s, 16, x)
    {
      MoveNothing(Patch(s, 16, x));
    }
  }

  function KeysOf(aks: seq<AeadKeys>): (keys: seq<AeadKey>)
    ensures |keys| == |aks| && forall i | 0 <= i < |aks| :: keys[i] == aks[i].key
  {
    seq(|aks|, i requires 0 <= i < |aks| => aks[i].key)
  }

  /** srtp_unprotect under AES-GCM on one stream, up to the point where the packet is put on
      record. */
  method Unprotect(cfg: Config, aks: seq<AeadKeys>, idx: StreamIndex,
                   srtp: array<octet>, n: nat, rtp: array<octet>, cap: nat)
    returns (r: Result<nat>, found: PI.Located)
    requires cfg.Valid() && cfg.gcm && idx.View().Valid()
    requires forall ak | ak in aks :: IsAead(ak.key.aead, cfg.tagLen)
    requires forall i | 0 <= i < |aks| :: aks[i].Valid()
    requires forall i, j | 0 <= i < |aks| && 0 <= j < |aks| && i != j :: aks[i].xtn != null ==> aks[i].xtn != aks[j].xtn
    requires n <= srtp.Length && cap <= rtp.Length
    modifies rtp, set ak | ak in aks :: ak.xtn
    ensures forall i | 0 <= i < |aks| :: aks[i].Valid()
    ensures var got := ReceiveAead(cfg, KeysOf(aks), idx.View(), Sub(old(srtp[..]), 0, n), cap, rtp == srtp);
      match r
      case Failure(e) => got == Failure(e)
      case Success(m) => m <= rtp.Length && got == Success(Received(Sub(rtp[..], 0, m), found))
  {
    hide Sub, Value, IsAead, ValidHeader, SeqOf, OpenAead, SelectKey, RocAtEnd, PI.Locate;
    var sp := Sub(srtp[..], 0, n);
    found := PI.Located(Ok, 0, 0);
    if !ValidHeader(sp) { return Failure(BadParam), found; }
    LayoutFields(sp);
    var s := SeqOf(sp);
    if cfg.rcc != Rcc3 {
      found := idx.Find(s, None);
      if !found.Usable() { return Failure(IndexError(found.status)), found; }
    }
    var k := FindKey(cfg.mkiSize, AeadMkis(KeysOf(aks)), sp, Trailing(cfg, s));
    if k.Failure? { return Failure(k.error), found; }
    if cfg.rcc == Rcc3 {
      if cfg.Carries(s) {
        if n < RTP_HEADER + cfg.mkiSize + cfg.tagLen + 4 { return Failure(BadParam), found; }
        found := idx.Find(s, Some(RocAtEnd(sp)));
      } else {
        found := idx.Find(s, None);
      }
      if !found.Usable() { return Failure(IndexError(found.status)), found; }
    }
    assert aks[k.value] in aks;
    r := OpenPacket(cfg, aks[k.value], found.est, srtp, n, rtp, cap);
  }
}
