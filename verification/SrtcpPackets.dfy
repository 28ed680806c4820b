/** SRTCP packets (srtp_protect_rtcp and srtp_unprotect_rtcp in srtp/srtp.c), with an HMAC tag
    and under AES-GCM. */
module SrtcpPackets {
  import opened Results
  import opened Octets
  import opened Replay
  import opened RtcpReplay
  import opened Keystreams
  import opened Ciphers
  import opened SrtpBodies
  import SP = SrtpPackets
  import A = AeadPackets

  const RTCP_HEADER := 8
  const RTCP_TRAILER := 4

  /** The settings of a stream that the RTCP transform depends on. */
  datatype RtcpConfig = RtcpConfig(conf: bool, mkiSize: nat, tagLen: nat) {
    predicate Valid() { mkiSize <= 128 && tagLen <= 16 }
  }

  datatype RtcpKey = RtcpKey(cipher: CipherKey, mac: seq<octet> -> digest, mki: seq<octet>)

  datatype RtcpAeadKey = RtcpAeadKey(aead: A.Aead, salt: A.salt12, mki: seq<octet>)

  function RtcpSsrc(pkt: seq<octet>): (s: seq<octet>)
    requires |pkt| >= RTCP_HEADER
    ensures |s| == 4
  {
    Sub(pkt, 4, 8)
  }

  /** The counter-mode IV: SSRC, and the index split over two words. */
  function RtcpIv(ssrc: seq<octet>, i: rtcpIndex): (iv: block)
    requires |ssrc| == 4
  {
    Zeros(4) + ssrc + BigEndian(i / 0x1_0000, 4) + BigEndian(i % 0x1_0000 * 0x1_0000, 4)
  }

  /** It is the IV that the same number would give as the index of an RTP packet. */
  lemma RtcpIvIsCmIv(ssrc: seq<octet>, i: rtcpIndex)
    requires |ssrc| == 4
    ensures RtcpIv(ssrc, i) == SP.CmIv(ssrc, i)
  {
    BigEndianLow(i, 4);
    var low := i % 0x1_0000;
    assert BigEndian(low * 0x1_0000, 4) == BigEndian(low, 2) + Zeros(2) by {
      BigEndianLow(low * 0x1_0000, 2);
      assert low * 0x1_0000 / 0x1_0000 == low && low * 0x1_0000 % 0x1_0000 == 0;
      assert BigEndian(0, 2) == Zeros(2);
    }
  }

  lemma BigEndianLow(x: nat, n: nat)
    ensures BigEndian(x, n + 2) == BigEndian(x / 0x1_0000, n) + BigEndian(x % 0x1_0000, 2)
  {
    assert BigEndian(x, n + 2) == BigEndian(x / 256 / 256, n) + [x / 256 % 256] + [x % 256];
    var y := x % 0x1_0000;
    assert BigEndian(y, 2) == BigEndian(y / 256 / 256, 0) + [y / 256 % 256] + [y % 256];
    assert x / 256 / 256 == x / 0x1_0000 && y / 256 % 256 == x / 256 % 256 && y % 256 == x % 256;
  }

  /** The E bit and the index, in network order. */
  function Trailer(e: bool, i: rtcpIndex): (r: seq<octet>)
    ensures |r| == RTCP_TRAILER
  {
    BigEndian((if e then RTCP_INDEX_MAX else 0) + i, 4)
  }

  predicate EBit(word: seq<octet>)
    requires |word| == RTCP_TRAILER
  {
    Value(word) >= RTCP_INDEX_MAX
  }

  function IndexIn(word: seq<octet>): (i: rtcpIndex)
    requires |word| == RTCP_TRAILER
  {
    Value(word) % RTCP_INDEX_MAX
  }

  lemma TrailerFields(e: bool, i: rtcpIndex)
    ensures EBit(Trailer(e, i)) == e && IndexIn(Trailer(e, i)) == i
  {
    hide Value, BigEndian;
    Pow256Values();
    ValueOfBigEndian((if e then RTCP_INDEX_MAX else 0) + i, 4);
  }

  // --- With an HMAC tag -------------------------------------------------------------------

  /** The packet with its trailer: what the tag is computed over. */
  function SealedRtcp(conf: bool, k: CipherKey, i: rtcpIndex, pkt: seq<octet>): (r: Result<seq<octet>>)
    requires |pkt| >= RTCP_HEADER
    ensures r.Success? ==> |r.value| == |pkt| + RTCP_TRAILER
  {
    var b :- if conf then PayloadCrypt(k, RtcpIv(RtcpSsrc(pkt), i), pkt, RTCP_HEADER) else Success(pkt);
    Success(b + Trailer(conf, i))
  }

  function ProtectRtcp(cfg: RtcpConfig, key: RtcpKey, i: rtcpIndex, pkt: seq<octet>): (r: Result<seq<octet>>)
    requires cfg.Valid() && |pkt| >= RTCP_HEADER
  {
    var b :- SealedRtcp(cfg.conf, key.cipher, i, pkt);
    Success(b + key.mki + Sub(key.mac(b), 0, cfg.tagLen))
  }

  /** The packet in the first n octets of an authentic one. */
  function OpenedRtcp(conf: bool, k: CipherKey, i: rtcpIndex, b: seq<octet>): (r: Result<seq<octet>>)
    requires |b| >= RTCP_HEADER
    ensures r.Success? ==> |r.value| == |b|
  {
    if conf then PayloadCrypt(k, RtcpIv(RtcpSsrc(b), i), b, RTCP_HEADER) else Success(b)
  }

  /** srtp_unprotect_rtcp for a packet whose key has been found, into `cap` octets. */
  function OpenRtcp(cfg: RtcpConfig, key: RtcpKey, db: Rdb, sp: seq<octet>,
                    cap: nat): (r: Result<(seq<octet>, rtcpIndex)>)
    requires cfg.Valid() && db.Valid()
  {
    if |sp| < RTCP_HEADER + RTCP_TRAILER + cfg.mkiSize + cfg.tagLen then Failure(BadParam) else
    var n := |sp| - cfg.tagLen - cfg.mkiSize - RTCP_TRAILER;
    var word := Sub(sp, n, n + RTCP_TRAILER);
    if EBit(word) != cfg.conf then Failure(CantCheck) else
    var i := IndexIn(word);
    if CheckRtcp(db, i) != Ok then Failure(SP.IndexError(CheckRtcp(db, i))) else
    var tag := Sub(key.mac(Sub(sp, 0, n + RTCP_TRAILER)), 0, cfg.tagLen);
    if tag != Sub(sp, |sp| - cfg.tagLen, |sp|) then Failure(AuthFail) else
    if cap < n then Failure(BufferSmall) else
    var pkt :- OpenedRtcp(cfg.conf, key.cipher, i, Sub(sp, 0, n));
    Success((pkt, i))
  }

  function RtcpMkis(keys: seq<RtcpKey>): (r: seq<seq<octet>>)
    ensures |r| == |keys| && forall i | 0 <= i < |keys| :: r[i] == keys[i].mki
  {
    seq(|keys|, i requires 0 <= i < |keys| => keys[i].mki)
  }

  function ReceiveRtcp(cfg: RtcpConfig, keys: seq<RtcpKey>, db: Rdb, sp: seq<octet>, cap: nat)
    : (r: Result<(seq<octet>, rtcpIndex)>)
    requires cfg.Valid() && db.Valid()
    ensures r.Success? ==> CheckRtcp(db, r.value.1) == Ok
  {
    if |sp| < RTCP_HEADER + RTCP_TRAILER then Failure(BadParam) else
    var k :- SP.SelectKey(cfg.mkiSize, RtcpMkis(keys), sp, cfg.tagLen);
    OpenRtcp(cfg, keys[k], db, sp, cap)
  }

  /** srtp_protect_rtcp on one stream: the index is used up even if the packet then fails. */
  function SendRtcp(cfg: RtcpConfig, key: RtcpKey, db: Rdb, pkt: seq<octet>, cap: nat): (r: (Rdb, Result<seq<octet>>))
    requires cfg.Valid() && db.Valid()
    ensures r.0.Valid()
  {
    if |pkt| < RTCP_HEADER then (db, Failure(BadParam))
    else if cap < |pkt| + RTCP_TRAILER + cfg.mkiSize + cfg.tagLen then (db, Failure(BufferSmall))
    else if Expired(db) then (db, Failure(KeyExpired))
    else (Incremented(db), ProtectRtcp(cfg, key, db.start + 1, pkt))
  }

  lemma SealedOpens(conf: bool, k: CipherKey, i: rtcpIndex, pkt: seq<octet>)
    requires |pkt| >= RTCP_HEADER && SealedRtcp(conf, k, i, pkt).Success?
    ensures OpenedRtcp(conf, k, i, Sub(SealedRtcp(conf, k, i, pkt).value, 0, |pkt|)) == Success(pkt)
  {
    hide CryptRange, Reaches, RtcpIv, Sub, Trailer;
    var iv := RtcpIv(RtcpSsrc(pkt), i);
    var b := if conf then PayloadCrypt(k, iv, pkt, RTCP_HEADER).value else pkt;
    CryptRangeInvolutive(k, iv, 0, pkt, RTCP_HEADER, |pkt|);
    CryptRangeOutside(k, iv, 0, pkt, RTCP_HEADER, |pkt|, 4, 8);
    PrefixOf(b, Trailer(conf, i));
  }

  lemma PrefixOf(a: seq<octet>, b: seq<octet>)
    ensures Sub(a + b, 0, |a|) == a && Sub(a + b, |a|, |a + b|) == b
  {
  }

  lemma RtcpParts(b: seq<octet>, m: seq<octet>, t: seq<octet>)
    requires |b| >= RTCP_TRAILER
    ensures var sp, n := b + m + t, |b| - RTCP_TRAILER;
      && Sub(sp, 0, n + RTCP_TRAILER) == b
      && Sub(sp, 0, n) == Sub(b, 0, n)
      && Sub(sp, n, n + RTCP_TRAILER) == Sub(b, n, |b|)
      && Sub(sp, |sp| - |t|, |sp|) == t
  {
  }

  /** The SRTCP round trip with an HMAC tag, encrypted or only authenticated. */
  lemma RtcpRoundTrip(cfg: RtcpConfig, keys: seq<RtcpKey>, j: nat, db: Rdb, i: rtcpIndex, pkt: seq<octet>, cap: nat)
    requires cfg.Valid() && SP.DistinctMkis(cfg.mkiSize, RtcpMkis(keys)) && j < |keys|
    requires |pkt| >= RTCP_HEADER && cap >= |pkt| && ProtectRtcp(cfg, keys[j], i, pkt).Success?
    requires db.Valid() && CheckRtcp(db, i) == Ok
    ensures ReceiveRtcp(cfg, keys, db, ProtectRtcp(cfg, keys[j], i, pkt).value, cap) == Success((pkt, i))
  {
    hide SealedRtcp, OpenedRtcp, CheckRtcp, EBit, IndexIn, Sub, SP.SelectKey;
    var key := keys[j];
    var b := SealedRtcp(cfg.conf, key.cipher, i, pkt).value;
    var t := Sub(key.mac(b), 0, cfg.tagLen);
    SP.MkiAgreement(cfg.mkiSize, RtcpMkis(keys), j, b, t);
    RtcpParts(b, key.mki, t);
    SealedOpens(cfg.conf, key.cipher, i, pkt);
    SealedTrailer(cfg.conf, key.cipher, i, pkt);
    TrailerFields(cfg.conf, i);
  }

  lemma SealedTrailer(conf: bool, k: CipherKey, i: rtcpIndex, pkt: seq<octet>)
    requires |pkt| >= RTCP_HEADER && SealedRtcp(conf, k, i, pkt).Success?
    ensures var b := SealedRtcp(conf, k, i, pkt).value; Sub(b, |pkt|, |b|) == Trailer(conf, i)
  {
    hide Sub, PayloadCrypt, Trailer;
    var b := if conf then PayloadCrypt(k, RtcpIv(RtcpSsrc(pkt), i), pkt, RTCP_HEADER).value else pkt;
    PrefixOf(b, Trailer(conf, i));
  }

  // --- Under AES-GCM ----------------------------------------------------------------------

  /** Section 9.1 of RFC 7714: SSRC and index, with the salt. */
  function RtcpAeadIv(salt: A.salt12, ssrc: seq<octet>, i: rtcpIndex): (iv: seq<octet>)
    requires |ssrc| == 4
    ensures |iv| == 12
  {
    XorSeq(Zeros(2) + ssrc + Zeros(2) + BigEndian(i, 4), salt)
  }

  lemma RtcpAeadIvInjective(salt: A.salt12, ssrc: seq<octet>, i: rtcpIndex, ssrc': seq<octet>, i': rtcpIndex)
    requires |ssrc| == |ssrc'| == 4 && RtcpAeadIv(salt, ssrc, i) == RtcpAeadIv(salt, ssrc', i')
    ensures ssrc == ssrc' && i == i'
  {
    hide XorSeq, BigEndian;
    var a, b := Zeros(2) + ssrc + Zeros(2) + BigEndian(i, 4), Zeros(2) + ssrc' + Zeros(2) + BigEndian(i', 4);
    XorSeqCancels(a, b, salt);
    assert a[2..6] == ssrc && b[2..6] == ssrc';
    assert a[8..] == BigEndian(i, 4) && b[8..] == BigEndian(i', 4);
    Pow256Values();
    BigEndianInjective(i, i', 4);
  }

  /** What is sealed and what only authenticated: without encryption the whole packet is
      associated data.  The trailer always is. */
  function EncryptedFrom(e: bool, n: nat): (r: nat) { if e then RTCP_HEADER else n }

  function ProtectRtcpAead(cfg: RtcpConfig, key: RtcpAeadKey, i: rtcpIndex, pkt: seq<octet>): (r: seq<octet>)
    requires |pkt| >= RTCP_HEADER
  {
    var word, at := Trailer(cfg.conf, i), EncryptedFrom(cfg.conf, |pkt|);
    var iv := RtcpAeadIv(key.salt, RtcpSsrc(pkt), i);
    Sub(pkt, 0, at) + key.aead.seal(iv, Sub(pkt, 0, at) + word, Sub(pkt, at, |pkt|)) + word + key.mki
  }

  /** The E bit of the packet, not the setting, says whether it is encrypted. */
  function OpenRtcpAead(cfg: RtcpConfig, key: RtcpAeadKey, db: Rdb, sp: seq<octet>, cap: nat)
    : (r: Result<(seq<octet>, rtcpIndex)>)
    requires cfg.Valid() && db.Valid()
  {
    if |sp| < RTCP_HEADER + RTCP_TRAILER + cfg.mkiSize + cfg.tagLen then Failure(BadParam) else
    var n := |sp| - cfg.mkiSize - RTCP_TRAILER;
    var word := Sub(sp, n, n + RTCP_TRAILER);
    var i := IndexIn(word);
    if CheckRtcp(db, i) != Ok then Failure(SP.IndexError(CheckRtcp(db, i))) else
    if cap < n - cfg.tagLen then Failure(BufferSmall) else
    var at := EncryptedFrom(EBit(word), n - cfg.tagLen);
    match key.aead.open(RtcpAeadIv(key.salt, RtcpSsrc(sp), i), Sub(sp, 0, at) + word, Sub(sp, at, n))
    case None => Failure(AuthFail)
    case Some(x) => Success((Sub(sp, 0, at) + x, i))
  }

  function RtcpAeadMkis(keys: seq<RtcpAeadKey>): (r: seq<seq<octet>>)
    ensures |r| == |keys| && forall i | 0 <= i < |keys| :: r[i] == keys[i].mki
  {
    seq(|keys|, i requires 0 <= i < |keys| => keys[i].mki)
  }

  function ReceiveRtcpAead(cfg: RtcpConfig, keys: seq<RtcpAeadKey>, db: Rdb, sp: seq<octet>, cap: nat)
    : (r: Result<(seq<octet>, rtcpIndex)>)
    requires cfg.Valid() && db.Valid()
    ensures r.Success? ==> CheckRtcp(db, r.value.1) == Ok
  {
    if |sp| < RTCP_HEADER + RTCP_TRAILER then Failure(BadParam) else
    var k :- SP.SelectKey(cfg.mkiSize, RtcpAeadMkis(keys), sp, 0);
    OpenRtcpAead(cfg, keys[k], db, sp, cap)
  }

  function SendRtcpAead(cfg: RtcpConfig, key: RtcpAeadKey, db: Rdb, pkt: seq<octet>,
                        cap: nat): (r: (Rdb, Result<seq<octet>>))
    requires cfg.Valid() && db.Valid()
    ensures r.0.Valid()
  {
    if |pkt| < RTCP_HEADER then (db, Failure(BadParam))
    else if cap < |pkt| + RTCP_TRAILER + cfg.mkiSize + cfg.tagLen then (db, Failure(BufferSmall))
    else if Expired(db) then (db, Failure(KeyExpired))
    else (Incremented(db), Success(ProtectRtcpAead(cfg, key, db.start + 1, pkt)))
  }

  lemma AeadRtcpParts(h: seq<octet>, c: seq<octet>, word: seq<octet>, mki: seq<octet>)
    requires |word| == RTCP_TRAILER
    ensures var sp := h + c + word + mki; var n := |sp| - |mki| - RTCP_TRAILER;
      && n == |h| + |c|
      && Sub(sp, 0, |h|) == h && Sub(sp, |h|, n) == c && Sub(sp, n, n + RTCP_TRAILER) == word
  {
  }

  /** The SRTCP round trip under AES-GCM, whatever the E bit. */
  lemma RtcpAeadRoundTrip(cfg: RtcpConfig, keys: seq<RtcpAeadKey>, j: nat, db: Rdb, i: rtcpIndex, pkt: seq<octet>,
                          cap: nat)
    requires cfg.Valid() && SP.DistinctMkis(cfg.mkiSize, RtcpAeadMkis(keys)) && j < |keys|
    requires A.IsAead(keys[j].aead, cfg.tagLen)
    requires |pkt| >= RTCP_HEADER && cap >= |pkt| && db.Valid() && CheckRtcp(db, i) == Ok
    ensures ReceiveRtcpAead(cfg, keys, db, ProtectRtcpAead(cfg, keys[j], i, pkt), cap) == Success((pkt, i))
  {
    hide CheckRtcp, EBit, IndexIn, Sub, SP.SelectKey, RtcpAeadIv, Trailer;
    var key := keys[j];
    var word, at := Trailer(cfg.conf, i), EncryptedFrom(cfg.conf, |pkt|);
    var iv := RtcpAeadIv(key.salt, RtcpSsrc(pkt), i);
    var h, x := Sub(pkt, 0, at), Sub(pkt, at, |pkt|);
    var c := key.aead.seal(iv, h + word, x);
    assert A.Opens(key.aead, cfg.tagLen, iv, h + word, x);
    var sp := h + c + word + key.mki;
    AeadRtcpParts(h, c, word, key.mki);
    SameSsrc(sp, pkt, at);
    TrailerFields(cfg.conf, i);
    SP.MkiAgreement(cfg.mkiSize, RtcpAeadMkis(keys), j, h + c + word, []);
    assert sp + [] == sp;
    A.Rejoined(pkt, at);
  }

  lemma SameSsrc(sp: seq<octet>, pkt: seq<octet>, at: nat)
    requires RTCP_HEADER <= at <= |pkt| && at <= |sp| && Sub(sp, 0, at) == Sub(pkt, 0, at)
    ensures RtcpSsrc(sp) == RtcpSsrc(pkt)
  {
    hide Sub;
    SubOfSub(sp, 0, at, 4, 8);
    SubOfSub(pkt, 0, at, 4, 8);
  }
}
