/** The confidentiality transform of SRTP packets outside AEAD (srtp_protect and
    srtp_unprotect in srtp/srtp.c): payload, listed header extension elements
    (RFC 6904), and CSRCs with the extension under cryptex (RFC 9335). */
module SrtpBodies {
  import opened Results
  import opened Octets
  import opened Replay
  import opened Keystreams
  import opened Ciphers
  import opened RtpPackets
  import HE = HeaderEncryption

  /** Roll-over counter carrying, RFC 4771. */
  datatype RccMode = RccNone | Rcc1 | Rcc2 | Rcc3

  /** The settings of a stream that the RTP transform depends on. */
  datatype Config = Config(gcm: bool, conf: bool, auth: bool, mkiSize: nat, tagLen: nat, rcc: RccMode, rate: nat,
                           ids: seq<octet>, cryptex: bool) {
    /** What srtp_policy_validate and the allocation of the stream guarantee; an MKI is
        in use exactly when its size is not 0. */
    predicate Valid() {
      && mkiSize <= 128 && tagLen <= 16 && 1 <= rate < 0x1_0000
      && (rcc == Rcc1 || rcc == Rcc2 ==> tagLen >= 5 && !gcm)
      && (rcc == Rcc3 ==> gcm)
      && (ids != [] ==> !cryptex)
    }

    /** The packet with this sequence number carries the rollover counter. */
    predicate Carries(s: seqNum)
      requires rate >= 1
    {
      rcc != RccNone && s % rate == 0
    }

    /** Tag octets at the end of the packet: in mode 1 only carrying packets have a tag. */
    function TagOut(s: seqNum): (n: nat)
      requires rate >= 1
    {
      if rcc == Rcc1 && !Carries(s) then 0 else tagLen
    }
  }

  type digest = s: seq<octet> | |s| == 20 witness Zeros(20)

  /** Session keys: the ciphers, the authentication function and the MKI value. */
  datatype Key = Key(cipher: CipherKey, xtn: Option<CipherKey>, mac: seq<octet> -> digest, mki: seq<octet>)

  const CRYPTEX_ONE_BYTE := 0xc0de
  const CRYPTEX_TWO_BYTE := 0xc2de

  // --- Stages -------------------------------------------------------------------------

  /** Encryption of the octets from lo to hi, at keystream position p. */
  function CryptRange(k: CipherKey, iv: block, p: nat, pkt: seq<octet>, lo: nat, hi: nat): (r: seq<octet>)
    requires lo <= hi <= |pkt|
    ensures |r| == |pkt|
  {
    Patch(pkt, lo, Encipher(k, iv, p, Sub(pkt, lo, hi)))
  }

  /** The profile field of the extension header at h. */
  function ProfileAt(pkt: seq<octet>, h: nat): (p: nat)
    requires h + 2 <= |pkt|
  {
    Value(Sub(pkt, h, h + 2))
  }

  function SetProfile(pkt: seq<octet>, h: nat, p: nat): (r: seq<octet>)
    requires h + 2 <= |pkt|
    ensures |r| == |pkt|
  {
    Patch(pkt, h, BigEndian(p, 2))
  }

  /** Header extension encryption, when there is an extension and a cipher for it. */
  function XtnStage(ids: seq<octet>, xtn: Option<CipherKey>, iv: block, pkt: seq<octet>,
                    l: Layout): (r: Result<seq<octet>>)
    requires l.Fits(|pkt|)
    ensures r.Success? ==> |r.value| == |pkt|
  {
    if !l.x || xtn.None? then Success(pkt) else
    var d := Sub(pkt, l.h + XTN_HEADER, l.start);
    match HE.HeaderCrypt(ids, xtn.value, iv, 0, ProfileAt(pkt, l.h), d)
    case ParseErr => Failure(ParseErr)
    case CipherFail => Failure(CipherFail)
    case Done(e) => Success(Patch(pkt, l.h + XTN_HEADER, e))
  }

  /** Octets of keystream that the stage takes from the header extension cipher. */
  function XtnUse(xtn: Option<CipherKey>, iv: block, pkt: seq<octet>, l: Layout): (n: nat)
    requires l.Fits(|pkt|)
  {
    if !l.x || xtn.None? then 0
    else HE.HeaderUse(xtn.value, iv, 0, ProfileAt(pkt, l.h), Sub(pkt, l.h + XTN_HEADER, l.start))
  }

  /** Cryptex replaces these two profiles, and only these. */
  function CryptexProfile(p: nat): (q: Option<nat>) {
    if p == HE.ONE_BYTE_PROFILE then Some(CRYPTEX_ONE_BYTE)
    else if p == HE.TWO_BYTE_PROFILE then Some(CRYPTEX_TWO_BYTE)
    else None
  }

  predicate IsCryptex(p: nat) { p == CRYPTEX_ONE_BYTE || p == CRYPTEX_TWO_BYTE }

  function PlainProfile(p: nat): (q: nat) {
    if p == CRYPTEX_ONE_BYTE then HE.ONE_BYTE_PROFILE
    else if p == CRYPTEX_TWO_BYTE then HE.TWO_BYTE_PROFILE
    else p
  }

  /** CSRCs and everything behind the extension header share one run of keystream. */
  function CryptexCrypt(k: CipherKey, iv: block, pkt: seq<octet>, h: nat): (r: Result<seq<octet>>)
    requires RTP_HEADER <= h && h + XTN_HEADER <= |pkt|
    ensures r.Success? ==> |r.value| == |pkt|
  {
    if !Reaches(k, iv, |pkt| - RTP_HEADER - XTN_HEADER) then Failure(CipherFail)
    else Success(CryptRange(k, iv, h - RTP_HEADER, CryptRange(k, iv, 0, pkt, RTP_HEADER, h), h + XTN_HEADER, |pkt|))
  }

  function PayloadCrypt(k: CipherKey, iv: block, pkt: seq<octet>, start: nat): (r: Result<seq<octet>>)
    requires start <= |pkt|
    ensures r.Success? ==> |r.value| == |pkt|
  {
    if !Reaches(k, iv, |pkt| - start) then Failure(CipherFail)
    else Success(CryptRange(k, iv, 0, pkt, start, |pkt|))
  }

  // --- The two directions ---------------------------------------------------------------

  /** The keys of a stream have a header extension cipher only if ids are listed. */
  predicate KeyFits(cfg: Config, key: Key) {
    (key.xtn.Some? ==> cfg.ids != []) && |key.mki| == cfg.mkiSize
  }

  /** The packet as it is sent, before MKI and tag are appended. */
  function Protected(cfg: Config, key: Key, iv: block, pkt: seq<octet>): (r: Result<seq<octet>>)
    requires ValidHeader(pkt)
    ensures r.Success? ==> |r.value| == |pkt|
  {
    var l := LayoutOf(pkt);
    if cfg.cryptex && cfg.conf then
      if !l.x then
        if Cc(pkt) != 0 then Failure(CryptexErr) else PayloadCrypt(key.cipher, iv, pkt, l.start)
      else
        match CryptexProfile(ProfileAt(pkt, l.h))
        case None => Failure(ParseErr)
        case Some(q) => CryptexCrypt(key.cipher, iv, SetProfile(pkt, l.h, q), l.h)
    else
      var p :- XtnStage(cfg.ids, key.xtn, iv, pkt, l);
      if cfg.conf then PayloadCrypt(key.cipher, iv, p, l.start) else Success(p)
  }

  /** The receiver sees cryptex in use. */
  predicate CryptexIn(cfg: Config, pkt: seq<octet>, l: Layout)
    requires l.Fits(|pkt|)
  {
    cfg.cryptex && l.x && IsCryptex(ProfileAt(pkt, l.h))
  }

  function RestoreProfile(pkt: seq<octet>, h: nat): (r: seq<octet>)
    requires h + 2 <= |pkt|
    ensures |r| == |pkt|
  {
    SetProfile(pkt, h, PlainProfile(ProfileAt(pkt, h)))
  }

  /** A received packet without cryptex, stripped of MKI and tag. */
  function OpenPlain(cfg: Config, key: Key, iv: block, pkt: seq<octet>, l: Layout): (r: Result<seq<octet>>)
    requires l.Fits(|pkt|)
    ensures r.Success? ==> |r.value| == |pkt|
  {
    var p :- XtnStage(cfg.ids, key.xtn, iv, pkt, l);
    if cfg.conf then PayloadCrypt(key.cipher, iv, p, l.start) else Success(p)
  }

  /** A received packet with cryptex, stripped of MKI and tag.  Without the confidentiality
      service, CSRCs are still decrypted when the buffers differ. */
  function OpenCryptex(cfg: Config, key: Key, iv: block, pkt: seq<octet>, h: nat,
                       inPlace: bool): (r: Result<seq<octet>>)
    requires RTP_HEADER <= h && h + XTN_HEADER <= |pkt|
    ensures r.Success? ==> |r.value| == |pkt|
  {
    var q :-
      if cfg.conf then CryptexCrypt(key.cipher, iv, pkt, h)
      else if inPlace then Success(pkt)
      else if !Reaches(key.cipher, iv, h - RTP_HEADER) then Failure(CipherFail)
      else Success(CryptRange(key.cipher, iv, 0, pkt, RTP_HEADER, h));
    Success(RestoreProfile(q, h))
  }

  // --- Ranges ---------------------------------------------------------------------------

  lemma CryptRangeOutside(k: CipherKey, iv: block, p: nat, pkt: seq<octet>, lo: nat, hi: nat, a: nat, b: nat)
    requires lo <= hi <= |pkt| && a <= b <= |pkt| && (b <= lo || hi <= a)
    ensures Sub(CryptRange(k, iv, p, pkt, lo, hi), a, b) == Sub(pkt, a, b)
  {
    hide Encipher, Sub, Patch;
    SubOfPatch(pkt, lo, Encipher(k, iv, p, Sub(pkt, lo, hi)), a, b);
  }

  lemma CryptRangeInvolutive(k: CipherKey, iv: block, p: nat, pkt: seq<octet>, lo: nat, hi: nat)
    requires lo <= hi <= |pkt|
    ensures CryptRange(k, iv, p, CryptRange(k, iv, p, pkt, lo, hi), lo, hi) == pkt
  {
    hide Encipher, Sub, Patch;
    var x := Sub(pkt, lo, hi);
    var y := Encipher(k, iv, p, x);
    SubOfPatch(pkt, lo, y, lo, hi);
    EncipherInvolutive(k, iv, p, x);
    PatchAgain(pkt, lo, y, x);
    PatchSelf(pkt, lo, hi);
  }

  /** Encryption of a range and a change in front of it do not touch each other. */
  lemma CryptRangePatch(k: CipherKey, iv: block, p: nat, pkt: seq<octet>, lo: nat, hi: nat, at: nat, t: seq<octet>)
    requires at + |t| <= lo <= hi <= |pkt|
    ensures CryptRange(k, iv, p, Patch(pkt, at, t), lo, hi) == Patch(CryptRange(k, iv, p, pkt, lo, hi), at, t)
  {
    hide Encipher, Sub, Patch;
    SubOfPatch(pkt, at, t, lo, hi);
    PatchCommutes(pkt, at, t, lo, Encipher(k, iv, p, Sub(pkt, lo, hi)));
  }

  lemma CryptRangesCommute(k: CipherKey, iv: block, pkt: seq<octet>, p: nat, lo: nat, hi: nat, q: nat, a: nat, b: nat)
    requires lo <= hi <= a <= b <= |pkt|
    ensures CryptRange(k, iv, p, CryptRange(k, iv, q, pkt, a, b), lo, hi)
         == CryptRange(k, iv, q, CryptRange(k, iv, p, pkt, lo, hi), a, b)
  {
    hide CryptRange, Encipher, Sub, Patch;
    var t := Encipher(k, iv, p, Sub(pkt, lo, hi));
    CryptRangeOutside(k, iv, q, pkt, a, b, lo, hi);
    CryptRangePatch(k, iv, q, pkt, a, b, lo, t);
    CryptRangeIs(k, iv, p, pkt, lo, hi);
    CryptRangeIs(k, iv, p, CryptRange(k, iv, q, pkt, a, b), lo, hi);
  }

  lemma CryptRangeIs(k: CipherKey, iv: block, p: nat, pkt: seq<octet>, lo: nat, hi: nat)
    requires lo <= hi <= |pkt|
    ensures CryptRange(k, iv, p, pkt, lo, hi) == Patch(pkt, lo, Encipher(k, iv, p, Sub(pkt, lo, hi)))
  {
  }

  // --- Round trip -------------------------------------------------------------------------

  lemma CryptexCryptInvolutive(k: CipherKey, iv: block, pkt: seq<octet>, h: nat)
    requires RTP_HEADER <= h && h + XTN_HEADER <= |pkt| && CryptexCrypt(k, iv, pkt, h).Success?
    ensures CryptexCrypt(k, iv, CryptexCrypt(k, iv, pkt, h).value, h) == Success(pkt)
  {
    hide CryptRange, Reaches;
    var n, q, d := |pkt|, h - RTP_HEADER, h + XTN_HEADER;
    var a := CryptRange(k, iv, 0, pkt, RTP_HEADER, h);
    CryptRangesCommute(k, iv, a, 0, RTP_HEADER, h, q, d, n);
    CryptRangeInvolutive(k, iv, 0, pkt, RTP_HEADER, h);
    CryptRangeInvolutive(k, iv, q, pkt, d, n);
  }

  lemma CryptexCryptOutside(k: CipherKey, iv: block, pkt: seq<octet>, h: nat, a: nat, b: nat)
    requires RTP_HEADER <= h && h + XTN_HEADER <= |pkt| && CryptexCrypt(k, iv, pkt, h).Success?
    requires a <= b <= RTP_HEADER || h <= a <= b <= h + XTN_HEADER
    ensures Sub(CryptexCrypt(k, iv, pkt, h).value, a, b) == Sub(pkt, a, b)
  {
    hide CryptRange, Reaches, Sub;
    var n, q, d := |pkt|, h - RTP_HEADER, h + XTN_HEADER;
    var p := CryptRange(k, iv, 0, pkt, RTP_HEADER, h);
    CryptRangeOutside(k, iv, 0, pkt, RTP_HEADER, h, a, b);
    CryptRangeOutside(k, iv, q, p, d, n, a, b);
  }

  lemma ProfileAfterSet(pkt: seq<octet>, h: nat, p: nat)
    requires h + 2 <= |pkt| && p < 0x1_0000
    ensures ProfileAt(SetProfile(pkt, h, p), h) == p
    ensures SetProfile(SetProfile(pkt, h, p), h, ProfileAt(pkt, h)) == pkt
  {
    hide Value, BigEndian, Sub, Patch;
    SubOfPatch(pkt, h, BigEndian(p, 2), h, h + 2);
    Pow256Values();
    ValueOfBigEndian(p, 2);
    BigEndianOfValue(Sub(pkt, h, h + 2));
    PatchAgain(pkt, h, BigEndian(p, 2), Sub(pkt, h, h + 2));
    PatchSelf(pkt, h, h + 2);
  }

  lemma RestoreOfPrefix(s: seq<octet>, h: nat, n: nat)
    requires h + 2 <= n <= |s|
    ensures Sub(RestoreProfile(s, h), 0, n) == RestoreProfile(Sub(s, 0, n), h)
  {
    hide Sub, Patch, Value, BigEndian, PlainProfile;
    SubOfSub(s, 0, n, h, h + 2);
    PatchOfPrefix(s, n, h, BigEndian(PlainProfile(Value(Sub(s, h, h + 2))), 2));
  }

  /** Header extension encryption changes only extension data, and undoes itself. */
  lemma XtnStageInvolutive(ids: seq<octet>, xtn: Option<CipherKey>, iv: block, pkt: seq<octet>, l: Layout)
    requires l.Fits(|pkt|) && XtnStage(ids, xtn, iv, pkt, l).Success?
    ensures XtnStage(ids, xtn, iv, XtnStage(ids, xtn, iv, pkt, l).value, l) == Success(pkt)
  {
    hide Sub, Patch, Value, HE.HeaderCrypt;
    if l.x && xtn.Some? {
      var d, k, at := Sub(pkt, l.h + XTN_HEADER, l.start), xtn.value, l.h + XTN_HEADER;
      HE.HeaderCryptInvolutive(ids, k, iv, 0, ProfileAt(pkt, l.h), d);
      var e := HE.HeaderCrypt(ids, k, iv, 0, ProfileAt(pkt, l.h), d).data;
      SubOfPatch(pkt, at, e, at, l.start);
      SubOfPatch(pkt, at, e, l.h, l.h + 2);
      PatchAgain(pkt, at, e, d);
      PatchSelf(pkt, at, l.start);
    }
  }

  lemma XtnStageOutside(ids: seq<octet>, xtn: Option<CipherKey>, iv: block, pkt: seq<octet>, l: Layout, a: nat, b: nat)
    requires l.Fits(|pkt|) && XtnStage(ids, xtn, iv, pkt, l).Success? && a <= b <= |pkt|
    requires (l.x && b <= l.h + XTN_HEADER) || l.start <= a || xtn.None? || !l.x
    ensures Sub(XtnStage(ids, xtn, iv, pkt, l).value, a, b) == Sub(pkt, a, b)
  {
    hide Sub, Patch, Value, HE.HeaderCrypt;
    if l.x && xtn.Some? {
      var d, k, at := Sub(pkt, l.h + XTN_HEADER, l.start), xtn.value, l.h + XTN_HEADER;
      var e := HE.HeaderCrypt(ids, k, iv, 0, ProfileAt(pkt, l.h), d).data;
      SubOfPatch(pkt, at, e, a, b);
    }
  }

  /** Payload encryption and header extension encryption can be done in any order. */
  lemma XtnStageBeforePayload(ids: seq<octet>, xtn: Option<CipherKey>, iv: block, pkt: seq<octet>, l: Layout,
                              k: CipherKey)
    requires l.Fits(|pkt|) && XtnStage(ids, xtn, iv, pkt, l).Success?
    ensures XtnStage(ids, xtn, iv, CryptRange(k, iv, 0, pkt, l.start, |pkt|), l)
      == Success(CryptRange(k, iv, 0, XtnStage(ids, xtn, iv, pkt, l).value, l.start, |pkt|))
  {
    hide Sub, Patch, Value, CryptRange, HE.HeaderCrypt;
    if l.x && xtn.Some? {
      var at, n := l.h + XTN_HEADER, |pkt|;
      CryptRangeOutside(k, iv, 0, pkt, l.start, n, at, l.start);
      CryptRangeOutside(k, iv, 0, pkt, l.start, n, l.h, l.h + 2);
      var e := HE.HeaderCrypt(ids, xtn.value, iv, 0, ProfileAt(pkt, l.h), Sub(pkt, at, l.start)).data;
      CryptRangePatch(k, iv, 0, pkt, l.start, n, at, e);
    }
  }

  lemma PlainRoundTrip(cfg: Config, key: Key, iv: block, pkt: seq<octet>)
    requires ValidHeader(pkt) && !(cfg.cryptex && cfg.conf)
    requires Protected(cfg, key, iv, pkt).Success?
    ensures OpenPlain(cfg, key, iv, Protected(cfg, key, iv, pkt).value, LayoutOf(pkt)) == Success(pkt)
  {
    hide XtnStage, CryptRange, Reaches, ValidHeader, PayloadStart, HdrLen;
    var l := LayoutOf(pkt);
    var p := XtnStage(cfg.ids, key.xtn, iv, pkt, l).value;
    XtnStageInvolutive(cfg.ids, key.xtn, iv, pkt, l);
    XtnStageBeforePayload(cfg.ids, key.xtn, iv, p, l, key.cipher);
    CryptRangeInvolutive(key.cipher, iv, 0, pkt, l.start, |pkt|);
  }

  lemma NoExtensionRoundTrip(cfg: Config, key: Key, iv: block, pkt: seq<octet>)
    requires ValidHeader(pkt) && cfg.cryptex && cfg.conf && !HasXtn(pkt)
    requires Protected(cfg, key, iv, pkt).Success?
    ensures OpenPlain(cfg, key, iv, Protected(cfg, key, iv, pkt).value, LayoutOf(pkt)) == Success(pkt)
  {
    hide CryptRange, Reaches, ValidHeader, PayloadStart, HdrLen;
    CryptRangeInvolutive(key.cipher, iv, 0, pkt, LayoutOf(pkt).start, |pkt|);
  }

  lemma CryptexRoundTrip(cfg: Config, key: Key, iv: block, pkt: seq<octet>, inPlace: bool)
    requires ValidHeader(pkt) && cfg.cryptex && cfg.conf && HasXtn(pkt)
    requires Protected(cfg, key, iv, pkt).Success?
    ensures var b := Protected(cfg, key, iv, pkt).value; var l := LayoutOf(pkt);
      CryptexIn(cfg, b, l) && OpenCryptex(cfg, key, iv, b, l.h, inPlace) == Success(pkt)
  {
    hide CryptexCrypt, Reaches, ValidHeader, PayloadStart, HdrLen, SetProfile, Value, Sub;
    var l := LayoutOf(pkt);
    var q := CryptexProfile(ProfileAt(pkt, l.h)).value;
    var p := SetProfile(pkt, l.h, q);
    ProfileAfterSet(pkt, l.h, q);
    CryptexCryptInvolutive(key.cipher, iv, p, l.h);
    CryptexCryptOutside(key.cipher, iv, p, l.h, l.h, l.h + 2);
  }

  /** Sending keeps the fixed header and the length of the extension. */
  lemma ProtectedKeepsLayout(cfg: Config, key: Key, iv: block, pkt: seq<octet>)
    requires ValidHeader(pkt) && Protected(cfg, key, iv, pkt).Success?
    ensures SameLayout(pkt, Protected(cfg, key, iv, pkt).value)
  {
    hide CryptexCrypt, PayloadCrypt, XtnStage, SetProfile, Reaches, Value, Sub;
    var l, n := LayoutOf(pkt), |pkt|;
    KeptByPayload(key.cipher, iv, pkt, l, 0, RTP_HEADER);
    if l.x {
      var f, e := l.h + 2, l.h + 4;
      if cfg.cryptex && cfg.conf {
        KeptByCryptex(key.cipher, iv, pkt, l.h, 0, RTP_HEADER);
        KeptByCryptex(key.cipher, iv, pkt, l.h, f, e);
      } else {
        KeptByXtn(cfg, key, iv, pkt, l, f, e);
      }
    }
    if !(cfg.cryptex && cfg.conf) { KeptByXtn(cfg, key, iv, pkt, l, 0, RTP_HEADER); }
  }

  lemma KeptByPayload(k: CipherKey, iv: block, pkt: seq<octet>, l: Layout, a: nat, b: nat)
    requires l.Fits(|pkt|) && a <= b <= l.start
    ensures var r := PayloadCrypt(k, iv, pkt, l.start); r.Success? ==> Sub(r.value, a, b) == Sub(pkt, a, b)
  {
    hide CryptRange, Reaches, Sub;
    CryptRangeOutside(k, iv, 0, pkt, l.start, |pkt|, a, b);
  }

  lemma KeptByXtn(cfg: Config, key: Key, iv: block, pkt: seq<octet>, l: Layout, a: nat, b: nat)
    requires l.Fits(|pkt|) && a <= b <= l.start && b <= l.h + XTN_HEADER
    requires XtnStage(cfg.ids, key.xtn, iv, pkt, l).Success?
    ensures var p := XtnStage(cfg.ids, key.xtn, iv, pkt, l).value; var r := PayloadCrypt(key.cipher, iv, p, l.start);
      Sub(p, a, b) == Sub(pkt, a, b) && (r.Success? ==> Sub(r.value, a, b) == Sub(pkt, a, b))
  {
    hide PayloadCrypt, XtnStage, Sub;
    XtnStageOutside(cfg.ids, key.xtn, iv, pkt, l, a, b);
    KeptByPayload(key.cipher, iv, XtnStage(cfg.ids, key.xtn, iv, pkt, l).value, l, a, b);
  }

  lemma KeptByCryptex(k: CipherKey, iv: block, pkt: seq<octet>, h: nat, a: nat, b: nat)
    requires RTP_HEADER <= h && h + XTN_HEADER <= |pkt|
    requires a <= b <= RTP_HEADER || h + 2 <= a <= b <= h + XTN_HEADER
    ensures forall q: nat :: var r := CryptexCrypt(k, iv, SetProfile(pkt, h, q), h);
      r.Success? ==> Sub(r.value, a, b) == Sub(pkt, a, b)
  {
    hide CryptexCrypt, Sub, Patch;
    forall q: nat
      ensures var r := CryptexCrypt(k, iv, SetProfile(pkt, h, q), h);
        r.Success? ==> Sub(r.value, a, b) == Sub(pkt, a, b)
    {
      SubOfPatch(pkt, h, BigEndian(q, 2), a, b);
      if CryptexCrypt(k, iv, SetProfile(pkt, h, q), h).Success? {
        CryptexCryptOutside(k, iv, SetProfile(pkt, h, q), h, a, b);
      }
    }
  }
}
