/** SRTP packets under AES-GCM (srtp_protect_aead and srtp_unprotect_aead in srtp/srtp.c,
    RFC 7714), with the AEAD itself left abstract. */
module AeadPackets {
  import opened Results
  import opened Octets
  import opened Replay
  import opened Ciphers
  import opened RtpPackets
  import opened SrtpBodies
  import opened SrtpPackets
  import opened Cryptex
  import HE = HeaderEncryption
  import PI = PacketIndex

  /** An AEAD under one key: the sealed text is the ciphertext followed by the GCM tag. */
  datatype Aead = Aead(seal: (seq<octet>, seq<octet>, seq<octet>) -> seq<octet>,
                       open: (seq<octet>, seq<octet>, seq<octet>) -> Option<seq<octet>>)

  ghost predicate Opens(a: Aead, tagLen: nat, iv: seq<octet>, aad: seq<octet>, x: seq<octet>) {
    |a.seal(iv, aad, x)| == |x| + tagLen && a.open(iv, aad, a.seal(iv, aad, x)) == Some(x)
  }

  /** Opening undoes sealing, and takes off the tag. */
  ghost predicate IsAead(a: Aead, tagLen: nat) {
    && (forall iv, aad, x :: Opens(a, tagLen, iv, aad, x))
    && (forall iv, aad, y :: a.open(iv, aad, y).Some? ==> |y| == |a.open(iv, aad, y).value| + tagLen)
  }

  lemma SealedLength(a: Aead, tagLen: nat, iv: seq<octet>, aad: seq<octet>, x: seq<octet>)
    requires IsAead(a, tagLen)
    ensures |a.seal(iv, aad, x)| == |x| + tagLen
  {
    assert Opens(a, tagLen, iv, aad, x);
  }

  lemma OpenedLength(a: Aead, tagLen: nat, iv: seq<octet>, aad: seq<octet>, y: seq<octet>)
    requires IsAead(a, tagLen) && a.open(iv, aad, y).Some?
    ensures |y| == |a.open(iv, aad, y).value| + tagLen
  {
  }

  type salt12 = s: seq<octet> | |s| == 12 witness Zeros(12)

  datatype AeadKey = AeadKey(aead: Aead, salt: salt12, xtn: Option<CipherKey>, mki: seq<octet>)

  /** Section 8.1 of RFC 7714: SSRC, rollover counter and sequence number, with the salt. */
  function AeadIv(salt: salt12, ssrc: seq<octet>, est: nat): (iv: seq<octet>)
    requires |ssrc| == 4
    ensures |iv| == 12
  {
    XorSeq(Zeros(2) + ssrc + BigEndian(est, 6), salt)
  }

  lemma AeadIvInjective(salt: salt12, ssrc: seq<octet>, est: nat, ssrc': seq<octet>, est': nat)
    requires |ssrc| == |ssrc'| == 4 && est < INDEX_MAX && est' < INDEX_MAX
    requires AeadIv(salt, ssrc, est) == AeadIv(salt, ssrc', est')
    ensures ssrc == ssrc' && est == est'
  {
    hide XorSeq, BigEndian;
    var a, b := Zeros(2) + ssrc + BigEndian(est, 6), Zeros(2) + ssrc' + BigEndian(est', 6);
    XorSeqCancels(a, b, salt);
    assert a[2..6] == ssrc && b[2..6] == ssrc';
    assert a[6..] == BigEndian(est, 6) && b[6..] == BigEndian(est', 6);
    Pow256Values();
    BigEndianInjective(est, est', 6);
  }

  /** The 4 octets that mode 3 appends to a carrying packet. */
  function RocField(cfg: Config, s: seqNum, est: nat): (r: seq<octet>)
    requires cfg.Valid()
    ensures |r| == RocLen(cfg, s)
  {
    if RocLen(cfg, s) == 4 then RocOctets(est) else []
  }

  function RocLen(cfg: Config, s: seqNum): (n: nat)
    requires cfg.Valid()
  {
    if cfg.rcc == Rcc3 && cfg.Carries(s) then 4 else 0
  }

  // --- Sending ------------------------------------------------------------------------------

  /** The octets up to `split` are authenticated, the rest is sealed. */
  function SealFrom(a: Aead, ghost tagLen: nat, iv: seq<octet>, p: seq<octet>, split: nat): (r: seq<octet>)
    requires split <= |p| && IsAead(a, tagLen)
    ensures |r| == |p| + tagLen
  {
    assert Opens(a, tagLen, iv, Sub(p, 0, split), Sub(p, split, |p|));
    Sub(p, 0, split) + a.seal(iv, Sub(p, 0, split), Sub(p, split, |p|))
  }

  /** The packet as sent, with the GCM tag, before MKI and counter. */
  function SealBody(cfg: Config, key: AeadKey, est: nat, pkt: seq<octet>, inPlace: bool): (r: Result<seq<octet>>)
    requires cfg.Valid() && ValidHeader(pkt) && IsAead(key.aead, cfg.tagLen)
    ensures r.Success? ==> |r.value| == |pkt| + cfg.tagLen
  {
    var l, ssrc := LayoutOf(pkt), SsrcOf(pkt);
    var iv := AeadIv(key.salt, ssrc, est);
    if cfg.cryptex && cfg.conf then
      if !l.x then
        if Cc(pkt) != 0 then Failure(CryptexErr) else Success(SealFrom(key.aead, cfg.tagLen, iv, pkt, l.start))
      else if !inPlace && Cc(pkt) != 0 then Failure(CryptexErr)
      else
        match CryptexProfile(ProfileAt(pkt, l.h))
        case None => Failure(ParseErr)
        case Some(q) =>
          Success(CsrcFirst(SealFrom(key.aead, cfg.tagLen, iv, XtnFirst(SetProfile(pkt, l.h, q), l.h), 16), l.h))
    else
      var p :- XtnStage(cfg.ids, key.xtn, CmIv(ssrc, est), pkt, l);
      Success(SealFrom(key.aead, cfg.tagLen, iv, p, l.start))
  }

  function ProtectAead(cfg: Config, key: AeadKey, est: nat, pkt: seq<octet>, inPlace: bool): (r: Result<seq<octet>>)
    requires cfg.Valid() && ValidHeader(pkt) && IsAead(key.aead, cfg.tagLen)
  {
    var b :- SealBody(cfg, key, est, pkt, inPlace);
    Success(b + key.mki + RocField(cfg, SeqOf(pkt), est))
  }

  /** What srtp_protect_aead checks before the packet index is used up. */
  function AdmitAead(cfg: Config, st: PI.IndexState, allowRepeat: bool, pkt: seq<octet>, cap: nat, inPlace: bool)
    : (r: Result<PI.Located>)
    requires cfg.Valid() && st.Valid()
    ensures r.Success? ==> ValidHeader(pkt) && r.value.Usable() && r.value == PI.LocateSend(st, SeqOf(pkt), allowRepeat)
  {
    if !ValidHeader(pkt) then Failure(BadParam) else
    var s := SeqOf(pkt);
    if cap < |pkt| + cfg.tagLen + cfg.mkiSize + RocLen(cfg, s) then Failure(BufferSmall) else
    if cfg.cryptex && cfg.conf && Cc(pkt) != 0 && !(HasXtn(pkt) && inPlace) then Failure(CryptexErr) else
    var l := PI.LocateSend(st, s, allowRepeat);
    if l.Usable() then Success(l) else Failure(IndexError(l.status))
  }

  /** srtp_protect on one stream under AES-GCM, into `cap` octets. */
  function SendAead(cfg: Config, key: AeadKey, st: PI.IndexState, allowRepeat: bool, pkt: seq<octet>, cap: nat,
                    inPlace: bool)
    : (r: (PI.IndexState, Result<seq<octet>>))
    requires cfg.Valid() && cfg.gcm && st.Valid() && IsAead(key.aead, cfg.tagLen)
    ensures r.0.Valid()
  {
    match AdmitAead(cfg, st, allowRepeat, pkt, cap, inPlace)
    case Failure(e) => (st, Failure(e))
    case Success(l) => (PI.Record(st, l), ProtectAead(cfg, key, l.est, pkt, inPlace))
  }

  // --- Receiving ----------------------------------------------------------------------------

  /** A packet without cryptex; its last octets, from `end` on, are MKI and counter. */
  function OpenAeadPlain(cfg: Config, key: AeadKey, est: nat, sp: seq<octet>, l: Layout,
                         end: nat): (r: Result<seq<octet>>)
    requires l.Fits(|sp|) && |sp| >= RTP_HEADER && l.start <= end <= |sp|
  {
    var iv := AeadIv(key.salt, SsrcOf(sp), est);
    match key.aead.open(iv, Sub(sp, 0, l.start), Sub(sp, l.start, end))
    case None => Failure(AuthFail)
    case Some(x) => XtnStage(cfg.ids, key.xtn, CmIv(SsrcOf(sp), est), Sub(sp, 0, l.start) + x, l)
  }

  /** A packet with cryptex: the extension header is moved, the rest is opened behind it, and
      the CSRCs are moved back. */
  function OpenAeadCryptex(cfg: Config, key: AeadKey, est: nat, sp: seq<octet>, h: nat,
                           end: nat): (r: Result<seq<octet>>)
    requires RTP_HEADER <= h && h + XTN_HEADER <= |sp| && 16 <= end <= |sp| && IsAead(key.aead, cfg.tagLen)
  {
    var iv := AeadIv(key.salt, SsrcOf(sp), est);
    var m := XtnFirst(sp, h);
    match key.aead.open(iv, Sub(m, 0, 16), Sub(m, 16, end))
    case None => Failure(AuthFail)
    case Some(x) =>
      Success(Sub(RestoreProfile(CsrcFirst(Patch(m, 16, x), h), h), 0, 16 + |x|))
  }

  function OpenAead(cfg: Config, key: AeadKey, est: nat, sp: seq<octet>, cap: nat,
                    inPlace: bool): (r: Result<seq<octet>>)
    requires cfg.Valid() && ValidHeader(sp) && IsAead(key.aead, cfg.tagLen)
  {
    var l := LayoutOf(sp);
    var cryptex := CryptexIn(cfg, sp, l);
    if cryptex && !inPlace && Cc(sp) != 0 then Failure(CryptexErr) else
    var trailer := cfg.mkiSize + RocLen(cfg, SeqOf(sp));
    var start := if cryptex then RTP_HEADER + XTN_HEADER else l.start;
    if cfg.tagLen + trailer > |sp| || start > |sp| - cfg.tagLen - trailer then Failure(ParseErr)
    else if cap < |sp| - cfg.tagLen - trailer then Failure(BufferSmall)
    else if cryptex then OpenAeadCryptex(cfg, key, est, sp, l.h, |sp| - trailer)
    else OpenAeadPlain(cfg, key, est, sp, l, |sp| - trailer)
  }

  function AeadMkis(keys: seq<AeadKey>): (r: seq<seq<octet>>)
    ensures |r| == |keys| && forall i | 0 <= i < |keys| :: r[i] == keys[i].mki
  {
    seq(|keys|, i requires 0 <= i < |keys| => keys[i].mki)
  }

  /** The counter in the last 4 octets of a packet. */
  function RocAtEnd(sp: seq<octet>): (r: roc32)
    requires |sp| >= 4
  {
    Pow256Values();
    Value(Sub(sp, |sp| - 4, |sp|))
  }

  /** srtp_unprotect on one stream under AES-GCM.  In mode 3 the key is chosen before the
      packet index is looked at. */
  function ReceiveAead(cfg: Config, keys: seq<AeadKey>, st: PI.IndexState, sp: seq<octet>, cap: nat, inPlace: bool)
    : (r: Result<Received>)
    requires cfg.Valid() && cfg.gcm && st.Valid() && forall k | k in keys :: IsAead(k.aead, cfg.tagLen)
    ensures r.Success? ==> r.value.at.Usable()
  {
    if !ValidHeader(sp) then Failure(BadParam) else
    var s := SeqOf(sp);
    var early := PI.Locate(st, s, None);
    if cfg.rcc != Rcc3 && !early.Usable() then Failure(IndexError(early.status)) else
    var k :- SelectKey(cfg.mkiSize, AeadMkis(keys), sp, Trailing(cfg, s));
    if cfg.Carries(s) && |sp| < RTP_HEADER + cfg.mkiSize + cfg.tagLen + 4 then Failure(BadParam) else
    var at := if cfg.Carries(s) then PI.Locate(st, s, Some(RocAtEnd(sp))) else early;
    if !at.Usable() then Failure(IndexError(at.status)) else
    var pkt :- OpenAead(cfg, keys[k], at.est, sp, cap, inPlace);
    Success(Received(pkt, at))
  }

  // --- Round trip -------------------------------------------------------------------------

  lemma SealedParts(a: Aead, tagLen: nat, iv: seq<octet>, p: seq<octet>, split: nat, t: seq<octet>)
    requires split <= |p| && IsAead(a, tagLen)
    ensures var s := SealFrom(a, tagLen, iv, p, split) + t;
      && |s| == |p| + tagLen + |t|
      && Sub(s, 0, split) == Sub(p, 0, split)
      && a.open(iv, Sub(s, 0, split), Sub(s, split, |s| - |t|)) == Some(Sub(p, split, |p|))
  {
    var c := a.seal(iv, Sub(p, 0, split), Sub(p, split, |p|));
    assert Opens(a, tagLen, iv, Sub(p, 0, split), Sub(p, split, |p|));
    var s := Sub(p, 0, split) + c + t;
    assert Sub(s, split, |s| - |t|) == c;
  }

  lemma Rejoined(p: seq<octet>, split: nat)
    requires split <= |p|
    ensures Sub(p, 0, split) + Sub(p, split, |p|) == p
  {
  }

  lemma SealedPacket(cfg: Config, key: AeadKey, est: nat, pkt: seq<octet>, p: seq<octet>, t: seq<octet>)
    requires cfg.Valid() && ValidHeader(pkt) && IsAead(key.aead, cfg.tagLen)
    requires |p| == |pkt| && Sub(p, 0, RTP_HEADER) == Sub(pkt, 0, RTP_HEADER)
    requires HasXtn(pkt) ==> Sub(p, HdrLen(pkt), HdrLen(pkt) + 4) == Sub(pkt, HdrLen(pkt), HdrLen(pkt) + 4)
    ensures var l := LayoutOf(pkt);
      SameLayout(pkt, SealFrom(key.aead, cfg.tagLen, AeadIv(key.salt, SsrcOf(pkt), est), p, l.start) + t)
  {
    hide Sub, SealFrom, ValidHeader, PayloadStart, HdrLen, HasXtn;
    var l, iv := LayoutOf(pkt), AeadIv(key.salt, SsrcOf(pkt), est);
    var s := SealFrom(key.aead, cfg.tagLen, iv, p, l.start) + t;
    SealedParts(key.aead, cfg.tagLen, iv, p, l.start, t);
    SubOfSub(s, 0, l.start, 0, RTP_HEADER);
    SubOfSub(p, 0, l.start, 0, RTP_HEADER);
    if l.x {
      SubOfSub(s, 0, l.start, l.h + 2, l.h + 4);
      SubOfSub(p, 0, l.start, l.h + 2, l.h + 4);
      SubOfSub(p, l.h, l.h + 4, 2, 4);
      SubOfSub(pkt, l.h, l.h + 4, 2, 4);
    }
  }

  /** What is opened behind the trailer of a packet sealed without cryptex. */
  lemma AeadPlainRoundTrip(cfg: Config, key: AeadKey, est: nat, pkt: seq<octet>, t: seq<octet>)
    requires cfg.Valid() && ValidHeader(pkt) && IsAead(key.aead, cfg.tagLen)
    requires XtnStage(cfg.ids, key.xtn, CmIv(SsrcOf(pkt), est), pkt, LayoutOf(pkt)).Success?
    ensures var l, p := LayoutOf(pkt), XtnStage(cfg.ids, key.xtn, CmIv(SsrcOf(pkt), est), pkt, LayoutOf(pkt)).value;
      var sp := SealFrom(key.aead, cfg.tagLen, AeadIv(key.salt, SsrcOf(pkt), est), p, l.start) + t;
      SameLayout(pkt, sp) && OpenAeadPlain(cfg, key, est, sp, l, |sp| - |t|) == Success(pkt)
  {
    hide Sub, SealFrom, XtnStage, ValidHeader, PayloadStart, HdrLen, SsrcOf, CmIv, AeadIv, SameLayout;
    var l, iv := LayoutOf(pkt), CmIv(SsrcOf(pkt), est);
    var p := XtnStage(cfg.ids, key.xtn, iv, pkt, l).value;
    var sp := SealFrom(key.aead, cfg.tagLen, AeadIv(key.salt, SsrcOf(pkt), est), p, l.start) + t;
    XtnStageOutside(cfg.ids, key.xtn, iv, pkt, l, 0, RTP_HEADER);
    if l.x { XtnStageOutside(cfg.ids, key.xtn, iv, pkt, l, l.h, l.h + 4); }
    SealedPacket(cfg, key, est, pkt, p, t);
    SameLayoutFacts(pkt, sp);
    SealedParts(key.aead, cfg.tagLen, AeadIv(key.salt, SsrcOf(pkt), est), p, l.start, t);
    Rejoined(p, l.start);
    XtnStageInvolutive(cfg.ids, key.xtn, iv, pkt, l);
  }

  /** A packet sealed under cryptex has the layout of the plain one and announces cryptex. */
  lemma SealedCryptexHeader(cfg: Config, key: AeadKey, est: nat, pkt: seq<octet>, q: nat, t: seq<octet>)
    requires cfg.Valid() && cfg.cryptex && ValidHeader(pkt) && IsAead(key.aead, cfg.tagLen) && HasXtn(pkt)
    requires CryptexProfile(ProfileAt(pkt, HdrLen(pkt))) == Some(q)
    ensures var l := LayoutOf(pkt);
      var m := XtnFirst(SetProfile(pkt, l.h, q), l.h);
      var sp := CsrcFirst(SealFrom(key.aead, cfg.tagLen, AeadIv(key.salt, SsrcOf(pkt), est), m, 16), l.h) + t;
      SameLayout(pkt, sp) && CryptexIn(cfg, sp, l)
  {
    hide Sub, Patch, Value, BigEndian, SealFrom, XtnFirst, CsrcFirst, ValidHeader, PayloadStart, HdrLen, HasXtn;
    var l, iv := LayoutOf(pkt), AeadIv(key.salt, SsrcOf(pkt), est);
    var p := SetProfile(pkt, l.h, q);
    var m := XtnFirst(p, l.h);
    var c := SealFrom(key.aead, cfg.tagLen, iv, m, 16);
    var b := CsrcFirst(c, l.h);
    SealedParts(key.aead, cfg.tagLen, iv, m, 16, []);
    assert c + [] == c;
    MovedHeads(p, l.h);
    MovedHeads(c, l.h);
    HeadsOfHead(c, m);
    PrefixOfConcat(b, t);
    SubOfSub(b + t, 0, |b|, 0, 12);
    SubOfSub(b + t, 0, |b|, l.h, l.h + 4);
    SubOfPatch(pkt, l.h, BigEndian(q, 2), 0, 12);
    SubOfPatch(pkt, l.h, BigEndian(q, 2), l.h + 2, l.h + 4);
    TwoHalves(b + t, p, l.h);
    ProfileAfterSet(pkt, l.h, q);
  }

  lemma HeadsOfHead(c: seq<octet>, m: seq<octet>)
    requires |c| >= 16 && |m| >= 16 && Sub(c, 0, 16) == Sub(m, 0, 16)
    ensures Sub(c, 0, 12) == Sub(m, 0, 12) && Sub(c, 12, 16) == Sub(m, 12, 16)
  {
    hide Sub;
    SubOfSub(c, 0, 16, 0, 12);
    SubOfSub(m, 0, 16, 0, 12);
    SubOfSub(c, 0, 16, 12, 16);
    SubOfSub(m, 0, 16, 12, 16);
  }

  lemma TwoHalves(a: seq<octet>, b: seq<octet>, h: nat)
    requires h + 4 <= |a| && h + 4 <= |b| && Sub(a, h, h + 4) == Sub(b, h, h + 4)
    ensures Sub(a, h, h + 2) == Sub(b, h, h + 2) && Sub(a, h + 2, h + 4) == Sub(b, h + 2, h + 4)
  {
    hide Sub;
    SubOfSub(a, h, h + 4, 0, 2);
    SubOfSub(b, h, h + 4, 0, 2);
    SubOfSub(a, h, h + 4, 2, 4);
    SubOfSub(b, h, h + 4, 2, 4);
  }

  lemma OpenedMoved(s: seq<octet>, m: seq<octet>, h: nat)
    requires RTP_HEADER <= h && h + XTN_HEADER <= |m| <= |s| && Sub(s, 0, 16) == Sub(m, 0, 16)
    ensures Sub(CsrcFirst(Patch(s, 16, Sub(m, 16, |m|)), h), 0, |m|) == CsrcFirst(m, h)
  {
    hide Sub, Patch, CsrcFirst;
    var x := Sub(m, 16, |m|);
    var r := Patch(s, 16, x);
    SubOfPatch(s, 16, x, 0, 16);
    SubOfPatch(s, 16, x, 16, |m|);
    SubConcat(r, 0, 16, |m|);
    SubConcat(m, 0, 16, |m|);
    SubWhole(m);
    MovesOfPrefix(r, h, |m|);
  }

  lemma AeadCryptexRoundTrip(cfg: Config, key: AeadKey, est: nat, pkt: seq<octet>, q: nat, t: seq<octet>)
    requires cfg.Valid() && ValidHeader(pkt) && IsAead(key.aead, cfg.tagLen) && HasXtn(pkt)
    requires CryptexProfile(ProfileAt(pkt, HdrLen(pkt))) == Some(q)
    ensures var l := LayoutOf(pkt);
      var m := XtnFirst(SetProfile(pkt, l.h, q), l.h);
      var sp := CsrcFirst(SealFrom(key.aead, cfg.tagLen, AeadIv(key.salt, SsrcOf(pkt), est), m, 16), l.h) + t;
      SsrcOf(sp) == SsrcOf(pkt) ==> OpenAeadCryptex(cfg, key, est, sp, l.h, |sp| - |t|) == Success(pkt)
  {
    hide Sub, Patch, Value, SealFrom, XtnFirst, CsrcFirst, ValidHeader, PayloadStart, HdrLen, HasXtn, SsrcOf,
         ProfileAt, SetProfile, RestoreProfile, AeadIv;
    var l, iv := LayoutOf(pkt), AeadIv(key.salt, SsrcOf(pkt), est);
    var p := SetProfile(pkt, l.h, q);
    var m := XtnFirst(p, l.h);
    var c := SealFrom(key.aead, cfg.tagLen, iv, m, 16);
    MovesAreInverse(c, l.h);
    MovesAreInverse(p, l.h);
    MovesOfAppend(CsrcFirst(c, l.h), t, l.h);
    SealedParts(key.aead, cfg.tagLen, iv, m, 16, t);
    OpenedMoved(c + t, m, l.h);
    RestoreOfPrefix(CsrcFirst(Patch(c + t, 16, Sub(m, 16, |m|)), l.h), l.h, |m|);
    ProfileRestored(pkt, l.h, q);
  }

  lemma ProfileRestored(pkt: seq<octet>, h: nat, q: nat)
    requires h + 2 <= |pkt| && CryptexProfile(ProfileAt(pkt, h)) == Some(q)
    ensures RestoreProfile(SetProfile(pkt, h, q), h) == pkt
  {
    hide SetProfile, ProfileAt;
    ProfileAfterSet(pkt, h, q);
  }

  /** When the receiver gets back what was sent: it must see the same use of cryptex as the sender,
      and it handles CSRCs under cryptex in place only. */
  predicate AeadSurvives(cfg: Config, pkt: seq<octet>, inPlace: bool)
    requires ValidHeader(pkt)
  {
    if cfg.conf then cfg.cryptex && HasXtn(pkt) && Cc(pkt) != 0 ==> inPlace
    else !CryptexIn(cfg, pkt, LayoutOf(pkt))
  }

  /** The cryptex path never returns a packet with a cryptex profile. */
  lemma CryptexProfileGone(cfg: Config, key: AeadKey, est: nat, sp: seq<octet>, h: nat, end: nat, pkt: seq<octet>)
    requires RTP_HEADER <= h && h + XTN_HEADER <= |sp| && 16 <= end <= |sp| && IsAead(key.aead, cfg.tagLen)
    requires h + 2 <= |pkt| && IsCryptex(ProfileAt(pkt, h))
    ensures OpenAeadCryptex(cfg, key, est, sp, h, end) != Success(pkt)
  {
    hide Sub, Patch, Value, IsAead, XtnFirst, CsrcFirst, SetProfile, AeadIv, SsrcOf;
    var r := OpenAeadCryptex(cfg, key, est, sp, h, end);
    if r == Success(pkt) {
      var m := XtnFirst(sp, h);
      var x := key.aead.open(AeadIv(key.salt, SsrcOf(sp), est), Sub(m, 0, 16), Sub(m, 16, end)).value;
      OpenedLength(key.aead, cfg.tagLen, AeadIv(key.salt, SsrcOf(sp), est), Sub(m, 0, 16), Sub(m, 16, end));
      var y := CsrcFirst(Patch(m, 16, x), h);
      var p := PlainProfile(ProfileAt(y, h));
      ProfileBound(y, h);
      ProfileAfterSet(y, h, p);
      SubOfSub(RestoreProfile(y, h), 0, 16 + |x|, h, h + 2);
      assert false;
    }
  }

  lemma ProfileBound(s: seq<octet>, h: nat)
    requires h + 2 <= |s|
    ensures ProfileAt(s, h) < 0x1_0000
  {
    hide Sub;
    Pow256Values();
  }

  lemma OpenOfProtectAead(cfg: Config, key: AeadKey, est: nat, pkt: seq<octet>, txInPlace: bool, cap: nat,
                          rxInPlace: bool)
    requires cfg.Valid() && cfg.gcm && cap >= |pkt|
    requires IsAead(key.aead, cfg.tagLen) && |key.mki| == cfg.mkiSize && (key.xtn.Some? ==> cfg.ids != [])
    requires ValidHeader(pkt) && ProtectAead(cfg, key, est, pkt, txInPlace).Success?
    ensures var sp := ProtectAead(cfg, key, est, pkt, txInPlace).value;
      && SameLayout(pkt, sp) && ValidHeader(sp)
      && (OpenAead(cfg, key, est, sp, cap, rxInPlace) == Success(pkt) <==> AeadSurvives(cfg, pkt, rxInPlace))
  {
    hide Sub, SealFrom, XtnStage, XtnFirst, CsrcFirst, OpenAeadPlain, OpenAeadCryptex, SameLayout,
         CmIv, AeadIv, ValidHeader, LayoutOf, SeqOf, SsrcOf, ProfileAt, SetProfile, HdrLen, HasXtn, Cc, CryptexProfile;
    LayoutFields(pkt);
    var t := key.mki + RocField(cfg, SeqOf(pkt), est);
    var b := SealBody(cfg, key, est, pkt, txInPlace).value;
    var sp := b + t;
    assert b + key.mki + RocField(cfg, SeqOf(pkt), est) == sp;
    if cfg.cryptex && cfg.conf && HasXtn(pkt) {
      var q := CryptexProfile(ProfileAt(pkt, HdrLen(pkt))).value;
      SealedCryptexHeader(cfg, key, est, pkt, q, t);
      SameLayoutFacts(pkt, sp);
      AeadCryptexRoundTrip(cfg, key, est, pkt, q, t);
    } else {
      NoXtnStage(cfg, key, est, pkt);
      AeadPlainRoundTrip(cfg, key, est, pkt, t);
      SameLayoutFacts(pkt, sp);
      if cfg.cryptex && HasXtn(pkt) {
        PlainSealKeepsProfile(cfg, key, est, pkt, t);
        if CryptexIn(cfg, pkt, LayoutOf(pkt)) {
          CryptexProfileGone(cfg, key, est, sp, LayoutOf(pkt).h, |sp| - |t|, pkt);
        }
      }
    }
  }

  /** Sealing without cryptex leaves the profile field alone. */
  lemma PlainSealKeepsProfile(cfg: Config, key: AeadKey, est: nat, pkt: seq<octet>, t: seq<octet>)
    requires cfg.Valid() && ValidHeader(pkt) && IsAead(key.aead, cfg.tagLen) && HasXtn(pkt)
    requires XtnStage(cfg.ids, key.xtn, CmIv(SsrcOf(pkt), est), pkt, LayoutOf(pkt)).Success?
    ensures var l, p := LayoutOf(pkt), XtnStage(cfg.ids, key.xtn, CmIv(SsrcOf(pkt), est), pkt, LayoutOf(pkt)).value;
      var sp := SealFrom(key.aead, cfg.tagLen, AeadIv(key.salt, SsrcOf(pkt), est), p, l.start) + t;
      ProfileAt(sp, l.h) == ProfileAt(pkt, l.h)
  {
    hide Sub, SealFrom, XtnStage, ValidHeader, PayloadStart, HdrLen, HasXtn, SsrcOf, CmIv, AeadIv, Value, IsAead;
    LayoutFields(pkt);
    var l, iv := LayoutOf(pkt), CmIv(SsrcOf(pkt), est);
    var p := XtnStage(cfg.ids, key.xtn, iv, pkt, l).value;
    var s := SealFrom(key.aead, cfg.tagLen, AeadIv(key.salt, SsrcOf(pkt), est), p, l.start) + t;
    XtnStageOutside(cfg.ids, key.xtn, iv, pkt, l, l.h, l.h + 2);
    SealedParts(key.aead, cfg.tagLen, AeadIv(key.salt, SsrcOf(pkt), est), p, l.start, t);
    SubOfSub(s, 0, l.start, l.h, l.h + 2);
    SubOfSub(p, 0, l.start, l.h, l.h + 2);
  }

  lemma NoXtnStage(cfg: Config, key: AeadKey, est: nat, pkt: seq<octet>)
    requires ValidHeader(pkt)
    ensures !HasXtn(pkt) ==> XtnStage(cfg.ids, key.xtn, CmIv(SsrcOf(pkt), est), pkt, LayoutOf(pkt)) == Success(pkt)
  {
    hide CmIv, SsrcOf, HE.HeaderCrypt;
  }

  lemma RocIsAtEnd(b: seq<octet>, est: nat)
    requires est < INDEX_MAX
    ensures RocAtEnd(b + RocOctets(est)) == est / SEQ_MAX
  {
    hide Value, BigEndian;
    var sp := b + RocOctets(est);
    assert Sub(sp, |sp| - 4, |sp|) == RocOctets(est);
    Pow256Values();
    ValueOfBigEndian(est / SEQ_MAX, 4);
  }

  /** What a packet with this index carries. */
  function Carried(cfg: Config, s: seqNum, est: nat): (c: Option<roc32>)
    requires cfg.Valid() && est < INDEX_MAX
  {
    if cfg.Carries(s) then Some(est / SEQ_MAX) else None
  }

  /** The round trip under AES-GCM, with counter carrying (mode 3), header extension encryption
      or cryptex, for a receiver that puts the packet at the sender's index. */
  lemma AeadRoundTrip(cfg: Config, keys: seq<AeadKey>, i: nat, st: PI.IndexState, est: nat,
                      pkt: seq<octet>, txInPlace: bool, cap: nat, rxInPlace: bool, at: PI.Located)
    requires cfg.Valid() && cfg.gcm && cap >= |pkt|
    requires DistinctMkis(cfg.mkiSize, AeadMkis(keys)) && i < |keys| && (keys[i].xtn.Some? ==> cfg.ids != [])
    requires forall k | k in keys :: IsAead(k.aead, cfg.tagLen)
    requires ValidHeader(pkt) && est < INDEX_MAX && ProtectAead(cfg, keys[i], est, pkt, txInPlace).Success?
    requires st.Valid() && at.Usable() && at.est == est
    requires at == PI.Locate(st, SeqOf(pkt), Carried(cfg, SeqOf(pkt), est))
    ensures var sp := ProtectAead(cfg, keys[i], est, pkt, txInPlace).value;
      ReceiveAead(cfg, keys, st, sp, cap, rxInPlace) == Success(Received(pkt, at))
      <==> AeadSurvives(cfg, pkt, rxInPlace)
  {
    hide SealBody, OpenAead, Sub, SameLayout, ValidHeader, SeqOf, SelectKey, RocAtEnd, PI.Locate, RocOctets, HasXtn, Cc,
         IsAead, AeadSurvives;
    LayoutFields(pkt);
    var key, s := keys[i], SeqOf(pkt);
    var b, t := SealBody(cfg, key, est, pkt, txInPlace).value, RocField(cfg, s, est);
    var sp := b + key.mki + t;
    OpenOfProtectAead(cfg, key, est, pkt, txInPlace, cap, rxInPlace);
    SameLayoutFacts(pkt, sp);
    MkiAgreement(cfg.mkiSize, AeadMkis(keys), i, b, t);
    if cfg.Carries(s) { RocIsAtEnd(b + key.mki, est); }
  }

  // --- A packet that does not survive -------------------------------------------------------

  const ONE_CSRC: seq<octet> := [0x91] + Zeros(15) + [0xbe, 0xde, 0, 0]
  const GCM_CRYPTEX := Config(true, true, true, 0, 16, RccNone, 1, [], true)

  lemma OneCsrcHeader()
    ensures ValidHeader(ONE_CSRC) && LayoutOf(ONE_CSRC) == Layout(16, true, 20)
    ensures Cc(ONE_CSRC) == 1 && GCM_CRYPTEX.Valid()
    ensures ProfileAt(ONE_CSRC, 16) == 0xbede
  {
    var pkt := ONE_CSRC;
    assert Sub(pkt, 18, 20) == [0, 0] && Sub(pkt, 16, 18) == [0xbe, 0xde];
    assert Value([0, 0]) == 0 && Value([0xbe, 0xde]) == 0xbede;
  }

  /** A packet with one CSRC under cryptex: it is sealed in place, opens in place, and does not open
      between buffers. */
  lemma CsrcsNeedOneBuffer(key: AeadKey, est: nat)
    requires IsAead(key.aead, GCM_CRYPTEX.tagLen) && key.mki == [] && key.xtn.None?
    ensures ValidHeader(ONE_CSRC) && ProtectAead(GCM_CRYPTEX, key, est, ONE_CSRC, true).Success?
    ensures var sp := ProtectAead(GCM_CRYPTEX, key, est, ONE_CSRC, true).value;
      && ValidHeader(sp)
      && OpenAead(GCM_CRYPTEX, key, est, sp, 20, true) == Success(ONE_CSRC)
      && OpenAead(GCM_CRYPTEX, key, est, sp, 20, false) != Success(ONE_CSRC)
  {
    hide OpenAead, ValidHeader, LayoutOf, SealFrom, XtnFirst, CsrcFirst, AeadIv, SsrcOf, SeqOf, Cc, SetProfile,
         ProfileAt, IsAead;
    OneCsrcHeader();
    LayoutFields(ONE_CSRC);
    OpenOfProtectAead(GCM_CRYPTEX, key, est, ONE_CSRC, true, 20, true);
    OpenOfProtectAead(GCM_CRYPTEX, key, est, ONE_CSRC, true, 20, false);
  }
}
