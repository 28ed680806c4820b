/** What SRTCP packets look like on the wire, octet by octet: section 3.4 of RFC 3711, and section 9
    of RFC 7714 for AES-GCM. */
module SrtcpFormats {
  import opened Results
  import opened Octets
  import opened Numbers
  import opened Replay
  import opened RtcpReplay
  import opened Keystreams
  import opened Ciphers
  import opened SrtpBodies
  import opened SrtcpPackets
  import opened CounterBlocks
  import W = WireFormats
  import SP = SrtpPackets
  import A = AeadPackets
  import AF = AeadFormats

  const TWO_31 := 0x8000_0000

  // --- With an HMAC tag ---------------------------------------------------------------------

  lemma PayloadIsMasked(k: CipherKey, i: rtcpIndex, s: seq<octet>)
    requires |s| >= 8 && SaltFits(k)
    ensures var r := PayloadCrypt(k, RtcpIv(s[4..8], i), s, 8);
      && (r.Failure? <==> W.TooLong(k, |s| - 8))
      && (r.Success? ==> r.value[..8] == s[..8] && W.Masked(k, s[4..8], i, s, r.value, 8, |s|, 0))
  {
    hide W.Masked, CryptRange, RtcpIv, SP.CmIv, Reaches;
    var ssrc := s[4..8];
    RtcpIvIsCmIv(ssrc, i);
    ReachesIff(k, ssrc, i, |s| - 8);
    if Reaches(k, RtcpIv(ssrc, i), |s| - 8) { W.RangeIsMasked(k, ssrc, i, 0, s, 8, |s|); }
  }

  /** Everything behind the first 8 octets is under the keystream if the confidentiality service is on;
      then come the E bit with the index, the MKI, and a tag over the packet and that word. */
  ghost predicate IsSentRtcp(cfg: RtcpConfig, key: RtcpKey, i: rtcpIndex, pkt: seq<octet>, r: seq<octet>)
    requires cfg.Valid() && |pkt| >= 8
  {
    var word := BigEndian((if cfg.conf then TWO_31 else 0) + i, 4);
    && |r| == |pkt| + 4 + |key.mki| + cfg.tagLen
    && r[..8] == pkt[..8]
    && (if cfg.conf then W.Masked(key.cipher, pkt[4..8], i, pkt, r, 8, |pkt|, 0) else r[..|pkt|] == pkt)
    && r[|pkt|..] == word + key.mki + key.mac(r[..|pkt|] + word)[..cfg.tagLen]
  }

  /** How an SRTCP packet is sent, and when it is not. */
  lemma SentRtcp(cfg: RtcpConfig, key: RtcpKey, i: rtcpIndex, pkt: seq<octet>)
    requires cfg.Valid() && |pkt| >= 8 && SaltFits(key.cipher)
    ensures var p := ProtectRtcp(cfg, key, i, pkt);
      && (p.Failure? <==> cfg.conf && W.TooLong(key.cipher, |pkt| - 8))
      && (p.Success? ==> IsSentRtcp(cfg, key, i, pkt, p.value))
  {
    hide W.Masked, PayloadCrypt, BigEndian, RtcpIv;
    PayloadIsMasked(key.cipher, i, pkt);
    var word, p := Trailer(cfg.conf, i), ProtectRtcp(cfg, key, i, pkt);
    if p.Success? {
      var b := if cfg.conf then PayloadCrypt(key.cipher, RtcpIv(pkt[4..8], i), pkt, 8).value else pkt;
      var r := p.value;
      assert r == b + (word + key.mki + key.mac(b + word)[..cfg.tagLen]);
      assert r[..|pkt|] == b;
      assert r[..8] == b[..8];
      if cfg.conf {
        assert b[8..|pkt|] == r[8..|pkt|];
        W.MaskedResult(key.cipher, pkt[4..8], i, pkt, b, r, 8, |pkt|, 0);
      }
    }
  }

  /** The word behind a received packet, as a number: E bit and index. */
  function WordAt(sp: seq<octet>, n: nat): (w: nat)
    requires n + 4 <= |sp|
  {
    0x100_0000 * (sp[n] as int) + 0x1_0000 * (sp[n + 1] as int) + 256 * (sp[n + 2] as int) + sp[n + 3]
  }

  lemma WordIs(sp: seq<octet>, n: nat)
    requires n + 4 <= |sp|
    ensures Value(Sub(sp, n, n + 4)) == WordAt(sp, n)
  {
    hide Value;
    Pow256Values();
    TwoOctets(sp, n);
    TwoOctets(sp, n + 2);
    assert Sub(sp, n, n + 4) == Sub(sp, n, n + 2) + Sub(sp, n + 2, n + 4);
    ValueOfConcat(Sub(sp, n, n + 2), Sub(sp, n + 2, n + 4));
  }

  /** The packet in the first n octets: again under the keystream, if it is encrypted. */
  ghost predicate IsOpenedRtcp(cfg: RtcpConfig, key: RtcpKey, sp: seq<octet>, n: nat, p: seq<octet>)
    requires 8 <= n && n + 4 <= |sp|
  {
    && |p| == n && p[..8] == sp[..8]
    && if cfg.conf then W.Masked(key.cipher, sp[4..8], WordAt(sp, n) % TWO_31, sp, p, 8, n, 0) else p == sp[..n]
  }

  /** Which of the checks on a received SRTCP packet decides, in this order: length, E bit, index, tag,
      room.  It is refused for its tag exactly if the octets differ from those of the authentication
      function over the packet and the index word. */
  lemma RtcpTagDecides(cfg: RtcpConfig, key: RtcpKey, db: Rdb, sp: seq<octet>, cap: nat)
    requires cfg.Valid() && db.Valid() && SaltFits(key.cipher)
    ensures var n := |sp| - cfg.tagLen - cfg.mkiSize - 4;
      var r := OpenRtcp(cfg, key, db, sp, cap);
      if n < 8 then r == Failure(BadParam)
      else
        var w := WordAt(sp, n);
        if (w >= TWO_31) != cfg.conf then r == Failure(CantCheck)
        else if CheckRtcp(db, w % TWO_31) == ReplayOld then r == Failure(ReplayedOld)
        else if CheckRtcp(db, w % TWO_31) == ReplayFail then r == Failure(Replayed)
        else
          && (r == Failure(AuthFail) <==> sp[|sp| - cfg.tagLen..] != key.mac(sp[..n + 4])[..cfg.tagLen])
          && (r.Success? ==> n <= cap && r.value.1 == w % TWO_31 && IsOpenedRtcp(cfg, key, sp, n, r.value.0))
          && (r.Failure? && r != Failure(AuthFail) ==> cap < n || (cfg.conf && W.TooLong(key.cipher, n - 8)))
  {
    hide W.Masked, PayloadCrypt, Value, CheckRtcp, RtcpIv;
    var n := |sp| - cfg.tagLen - cfg.mkiSize - 4;
    if n >= 8 {
      WordIs(sp, n);
      CheckedRtcp(db, WordAt(sp, n) % TWO_31);
      var s, i := sp[..n], WordAt(sp, n) % TWO_31;
      assert s[4..8] == sp[4..8] && s[..8] == sp[..8] && Sub(sp, 0, n) == s && Sub(sp, 0, n + 4) == sp[..n + 4];
      assert Sub(key.mac(sp[..n + 4]), 0, cfg.tagLen) == key.mac(sp[..n + 4])[..cfg.tagLen];
      PayloadIsMasked(key.cipher, i, s);
      PayloadFails(key.cipher, RtcpIv(sp[4..8], i), s);
      var r := OpenRtcp(cfg, key, db, sp, cap);
      if r.Success? && cfg.conf {
        W.MaskedAlike(key.cipher, sp[4..8], i, sp, s, r.value.0, 8, n, 0) by { W.SliceOfPrefix(sp, n, 8, n); }
      }
    }
  }

  lemma PayloadFails(k: CipherKey, iv: block, s: seq<octet>)
    requires |s| >= 8
    ensures PayloadCrypt(k, iv, s, 8).Failure? ==> PayloadCrypt(k, iv, s, 8) == Failure(CipherFail)
  {
    hide Reaches, CryptRange;
  }

  // --- Under AES-GCM ------------------------------------------------------------------------

  /** Section 9.1 of RFC 7714: the same with the SRTCP index. */
  lemma RtcpAeadIvIs(salt: A.salt12, ssrc: seq<octet>, i: rtcpIndex)
    requires |ssrc| == 4
    ensures Value(XorSeq(RtcpAeadIv(salt, ssrc, i), salt)) == Value(ssrc) * AF.TWO_48 + i
  {
    hide Value, XorSeq, BigEndian;
    Pow256Values();
    var x := Zeros(2) + ssrc + Zeros(2) + BigEndian(i, 4);
    XorSeqInvolutive(x, salt);
    assert x == Zeros(2) + ssrc + (Zeros(2) + BigEndian(i, 4));
    AF.NumberOfFields(ssrc, Zeros(2) + BigEndian(i, 4));
    ValueOfZeros(2);
    ValueOfConcat(Zeros(2), BigEndian(i, 4));
    ValueOfBigEndian(i, 4);
  }

  /** How an SRTCP packet is sealed: encrypted behind its first 8 octets, or authenticated as a whole;
      the word with E bit and index is authenticated, and sent behind the tag, with the MKI. */
  lemma SealedRtcpIs(cfg: RtcpConfig, key: RtcpAeadKey, i: rtcpIndex, pkt: seq<octet>)
    requires |pkt| >= 8
    ensures var iv, seal := RtcpAeadIv(key.salt, pkt[4..8], i), key.aead.seal;
      ProtectRtcpAead(cfg, key, i, pkt) ==
        if cfg.conf then
          var word := BigEndian(TWO_31 + i, 4);
          pkt[..8] + seal(iv, pkt[..8] + word, pkt[8..]) + word + key.mki
        else
          var word := BigEndian(i, 4);
          pkt + seal(iv, pkt + word, []) + word + key.mki
  {
    hide BigEndian, RtcpAeadIv;
    assert pkt[..|pkt|] == pkt && pkt[|pkt|..] == [];
  }

  /** How it is opened: the E bit of the packet says what was encrypted. */
  lemma OpenedRtcpIs(cfg: RtcpConfig, key: RtcpAeadKey, db: Rdb, sp: seq<octet>, cap: nat)
    requires cfg.Valid() && db.Valid()
    ensures var n := |sp| - cfg.mkiSize - 4;
      var r := OpenRtcpAead(cfg, key, db, sp, cap);
      if n - cfg.tagLen < 8 then r == Failure(BadParam)
      else
        var w := WordAt(sp, n);
        var i, word, head := w % TWO_31, sp[n..n + 4], if w >= TWO_31 then 8 else n - cfg.tagLen;
        if CheckRtcp(db, i) == ReplayOld then r == Failure(ReplayedOld)
        else if CheckRtcp(db, i) == ReplayFail then r == Failure(Replayed)
        else if cap < n - cfg.tagLen then r == Failure(BufferSmall)
        else
          var x := key.aead.open(RtcpAeadIv(key.salt, sp[4..8], i), sp[..head] + word, sp[head..n]);
          r == if x.Some? then Success((sp[..head] + x.value, i)) else Failure(AuthFail)
  {
    hide Value, CheckRtcp, RtcpAeadIv;
    var n := |sp| - cfg.mkiSize - 4;
    if n - cfg.tagLen >= 8 {
      WordIs(sp, n);
      CheckedRtcp(db, WordAt(sp, n) % TWO_31);
    }
  }

  lemma CheckedRtcp(db: Rdb, i: rtcpIndex)
    requires db.Valid()
    ensures CheckRtcp(db, i) == Ok || CheckRtcp(db, i) == ReplayOld || CheckRtcp(db, i) == ReplayFail
  {
  }
}
