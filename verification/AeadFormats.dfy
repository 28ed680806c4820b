/** What SRTP packets look like on the wire under AES-GCM (RFC 7714, with RFC 4771, RFC 6904 and
    RFC 9335). */
module AeadFormats {
  import opened Results
  import opened Octets
  import opened Numbers
  import opened Replay
  import opened RtpPackets
  import opened SrtpBodies
  import opened SrtpPackets
  import opened Cryptex
  import opened AeadPackets
  import opened WireFormats
  import HE = HeaderEncryption

  // --- The initialization vector --------------------------------------------------------------

  const TWO_48 := 0x1_0000_0000_0000

  /** Section 8.1 of RFC 7714 on numbers: the SSRC, and the packet index in the low 48 bits. */
  lemma AeadIvIs(salt: salt12, ssrc: seq<octet>, est: nat)
    requires |ssrc| == 4 && est < INDEX_MAX
    ensures Value(XorSeq(AeadIv(salt, ssrc, est), salt)) == Value(ssrc) * TWO_48 + est
  {
    hide Value, XorSeq, BigEndian;
    Pow256Values();
    var x := Zeros(2) + ssrc + BigEndian(est, 6);
    XorSeqInvolutive(x, salt);
    NumberOfFields(ssrc, BigEndian(est, 6));
    ValueOfBigEndian(est, 6);
  }

  lemma NumberOfFields(ssrc: seq<octet>, index: seq<octet>)
    requires |ssrc| == 4 && |index| == 6
    ensures Value(Zeros(2) + ssrc + index) == Value(ssrc) * TWO_48 + Value(index)
  {
    hide Value;
    Pow256Values();
    ValueOfZeros(2);
    ValueOfConcat(Zeros(2), ssrc);
    ValueOfConcat(Zeros(2) + ssrc, index);
  }

  // --- Sending ------------------------------------------------------------------------------

  /** The header with listed elements of its extension encrypted. */
  ghost predicate HeaderSent(cfg: Config, key: AeadKey, est: nat, s: seq<octet>, r: seq<octet>)
    requires HeaderFits(s)
  {
    var h, start := CsrcEnd(s), HeaderEnd(s);
    if Extended(s) && key.xtn.Some? then
      && |r| == start && r[..h + 4] == s[..h + 4]
      && var profile := 256 * (s[h] as int) + s[h + 1];
         ExtensionBody(cfg.ids, key.xtn.value, CmIv(s[8..12], est), profile, s[h + 4..start], r[h + 4..start])
    else r == s[..start]
  }

  ghost predicate HeaderFails(cfg: Config, key: AeadKey, est: nat, s: seq<octet>)
    requires HeaderFits(s)
  {
    && Extended(s) && key.xtn.Some?
    && var h := CsrcEnd(s);
       var profile, d := 256 * (s[h] as int) + s[h + 1], s[h + 4..HeaderEnd(s)];
       ExtensionFails(cfg.ids, key.xtn.value, CmIv(s[8..12], est), profile, d)
  }

  lemma HeaderStage(cfg: Config, key: AeadKey, est: nat, s: seq<octet>)
    requires HeaderFits(s)
    ensures var start := HeaderEnd(s);
      var r := XtnStage(cfg.ids, key.xtn, CmIv(s[8..12], est), s, Layout(CsrcEnd(s), Extended(s), start));
      if r.Failure? then HeaderFails(cfg, key, est, s) && r != Failure(AuthFail)
      else HeaderSent(cfg, key, est, s, r.value[..start]) && r.value[start..] == s[start..]
  {
    hide CmIv, HE.HeaderCrypt, ExtensionBody, ExtensionFails, ProfileAt;
    var h, start := CsrcEnd(s), HeaderEnd(s);
    if Extended(s) && key.xtn.Some? {
      ProfileOctets(s, h, 0);
      var d := s[h + 4..start];
      ExtensionStage(cfg.ids, key.xtn.value, CmIv(s[8..12], est), ProfileAt(s, h), d);
      var r := XtnStage(cfg.ids, key.xtn, CmIv(s[8..12], est), s, Layout(h, true, start));
      if r.Success? {
        assert r.value[..start][h + 4..start] == r.value[h + 4..start];
        assert r.value[..start][..h + 4] == s[..h + 4];
      }
    }
  }

  /** The counter behind the MKI of a carrying packet. */
  function RocBehind(cfg: Config, s: nat, est: nat): (r: seq<octet>)
    requires cfg.rate >= 1
  {
    if cfg.rcc == Rcc3 && s % cfg.rate == 0 then BigEndian(est / 0x1_0000, 4) else []
  }

  /** How a packet is sealed without cryptex: the header is authenticated and the payload encrypted. */
  lemma SealedPlain(cfg: Config, key: AeadKey, est: nat, pkt: seq<octet>, inPlace: bool)
    requires cfg.Valid() && ValidHeader(pkt) && IsAead(key.aead, cfg.tagLen) && !(cfg.cryptex && cfg.conf)
    ensures HeaderFits(pkt)
    ensures var r := ProtectAead(cfg, key, est, pkt, inPlace);
      var iv, start, n := AeadIv(key.salt, pkt[8..12], est), HeaderEnd(pkt), 256 * (pkt[2] as int) + pkt[3];
      if r.Failure? then HeaderFails(cfg, key, est, pkt)
      else
        && |r.value| >= start && HeaderSent(cfg, key, est, pkt, r.value[..start])
        && r.value[start..] == key.aead.seal(iv, r.value[..start], pkt[start..]) + key.mki + RocBehind(cfg, n, est)
  {
    hide CmIv, AeadIv, XtnStage, HeaderSent, HeaderFails, ValidHeader, IsAead, BigEndian;
    HeaderIs(pkt);
    HeaderStage(cfg, key, est, pkt);
    var r := ProtectAead(cfg, key, est, pkt, inPlace);
    if r.Success? {
      var iv, l := AeadIv(key.salt, pkt[8..12], est), LayoutOf(pkt);
      var p := XtnStage(cfg.ids, key.xtn, CmIv(pkt[8..12], est), pkt, l).value;
      var c := key.aead.seal(iv, p[..l.start], pkt[l.start..]);
      assert p[l.start..|p|] == pkt[l.start..];
      assert r.value == p[..l.start] + (c + key.mki + RocField(cfg, SeqOf(pkt), est));
    }
  }

  /** With cryptex and no extension to hide, CSRCs are an error. */
  lemma SealedBare(cfg: Config, key: AeadKey, est: nat, pkt: seq<octet>, inPlace: bool)
    requires cfg.Valid() && ValidHeader(pkt) && IsAead(key.aead, cfg.tagLen) && cfg.cryptex && cfg.conf
    requires HeaderFits(pkt) && !Extended(pkt)
    ensures var iv, h := AeadIv(key.salt, pkt[8..12], est), CsrcEnd(pkt);
      ProtectAead(cfg, key, est, pkt, inPlace)
        == if h != 12 then Failure(CryptexErr)
           else Success(pkt[..h] + key.aead.seal(iv, pkt[..h], pkt[h..]) + key.mki
                        + RocBehind(cfg, 256 * (pkt[2] as int) + pkt[3], est))
  {
    hide AeadIv, ValidHeader, IsAead, BigEndian;
    HeaderIs(pkt);
    var h := CsrcEnd(pkt);
    assert Sub(pkt, 0, h) == pkt[..h] && Sub(pkt, h, |pkt|) == pkt[h..];
  }

  /** How a packet is sealed with cryptex: the fixed header and the extension header with its new profile
      are authenticated; the CSRCs and everything behind are encrypted, and sent around it. */
  lemma SealedCryptex(cfg: Config, key: AeadKey, est: nat, pkt: seq<octet>, inPlace: bool)
    requires cfg.Valid() && ValidHeader(pkt) && IsAead(key.aead, cfg.tagLen) && cfg.cryptex && cfg.conf
    requires HeaderFits(pkt) && Extended(pkt)
    ensures var r := ProtectAead(cfg, key, est, pkt, inPlace);
      var iv, h := AeadIv(key.salt, pkt[8..12], est), CsrcEnd(pkt);
      if h != 12 && !inPlace then r == Failure(CryptexErr)
      else if pkt[h..h + 2] != [0xbe, 0xde] && pkt[h..h + 2] != [0x10, 0x00] then r == Failure(ParseErr)
      else
        var x := (if pkt[h..h + 2] == [0xbe, 0xde] then [0xc0, 0xde] else [0xc2, 0xde]) + pkt[h + 2..h + 4];
        var c := key.aead.seal(iv, pkt[..12] + x, pkt[12..h] + pkt[h + 4..]);
        && |c| >= h - 12
        && r == Success(pkt[..12] + c[..h - 12] + x + c[h - 12..] + key.mki
                        + RocBehind(cfg, 256 * (pkt[2] as int) + pkt[3], est))
  {
    hide AeadIv, ValidHeader, IsAead, BigEndian, SetProfile, ProfileAt, XtnFirst, CsrcFirst, SealFrom, HeaderFits,
         HeaderEnd;
    HeaderIs(pkt);
    var iv, h := AeadIv(key.salt, pkt[8..12], est), CsrcEnd(pkt);
    ProfileOctets(pkt, h, 0);
    if pkt[h..h + 2] == [0xbe, 0xde] {
      MovedAndSealed(key, cfg.tagLen, iv, pkt, h, 0xc0de);
    } else if pkt[h..h + 2] == [0x10, 0x00] {
      MovedAndSealed(key, cfg.tagLen, iv, pkt, h, 0xc2de);
    }
  }

  lemma MovedAndSealed(key: AeadKey, tagLen: nat, iv: seq<octet>, pkt: seq<octet>, h: nat, profile: nat)
    requires 12 <= h && h + 4 <= |pkt| && profile < 0x1_0000 && IsAead(key.aead, tagLen)
    ensures var x := [profile / 256, profile % 256] + pkt[h + 2..h + 4];
      var c := key.aead.seal(iv, pkt[..12] + x, pkt[12..h] + pkt[h + 4..]);
      && |c| >= h - 12
      && CsrcFirst(SealFrom(key.aead, tagLen, iv, XtnFirst(SetProfile(pkt, h, profile), h), 16), h)
           == pkt[..12] + c[..h - 12] + x + c[h - 12..]
  {
    hide SetProfile, XtnFirst, CsrcFirst, IsAead;
    var s, x := SetProfile(pkt, h, profile), [profile / 256, profile % 256] + pkt[h + 2..h + 4];
    var a, d, b := pkt[..12], pkt[12..h], pkt[h + 4..];
    ProfileOctets(pkt, h, profile);
    assert s == a + d + x + b by {
      assert s == s[..h] + s[h..h + 2] + s[h + 2..];
      assert pkt[..h] == a + d && pkt[h + 2..] == pkt[h + 2..h + 4] + b;
    }
    Parts(a, d, x, b);
    var m := a + x + d + b;
    assert Sub(m, 0, 16) == a + x && Sub(m, 16, |m|) == d + b;
    var c := key.aead.seal(iv, a + x, d + b);
    SealedLength(key.aead, tagLen, iv, a + x, d + b);
    assert a + x + c == a + x + c[..h - 12] + c[h - 12..];
    Parts(a, c[..h - 12], x, c[h - 12..]);
  }

  // --- Receiving ----------------------------------------------------------------------------

  /** The packet with the extension header in front of its CSRC list. */
  function Rearranged(sp: seq<octet>, h: nat): (m: seq<octet>)
    requires 12 <= h && h + 4 <= |sp|
    ensures |m| == |sp|
  {
    sp[..12] + sp[h..h + 4] + sp[12..h] + sp[h + 4..]
  }

  /** What is made of a cryptex packet that was opened to x: the CSRCs are put back in front of the
      extension header, and its profile is restored. */
  function PutBack(sp: seq<octet>, h: nat, x: seq<octet>): (p: seq<octet>)
    requires 12 <= h && h + 4 <= |sp| && 16 + |x| <= |sp|
    ensures |p| == 16 + |x|
  {
    var y := x + Rearranged(sp, h)[16 + |x|..];
    (sp[..12] + y[..h - 12] + Restored(sp[h..h + 2]) + sp[h + 2..h + 4] + y[h - 12..])[..16 + |x|]
  }

  /** How a received packet is opened: which check decides, what is authenticated and what decrypted. */
  lemma OpenedAead(cfg: Config, key: AeadKey, est: nat, sp: seq<octet>, cap: nat, inPlace: bool)
    requires cfg.Valid() && ValidHeader(sp) && IsAead(key.aead, cfg.tagLen)
    ensures HeaderFits(sp)
    ensures var r := OpenAead(cfg, key, est, sp, cap, inPlace);
      var iv, h, start := AeadIv(key.salt, sp[8..12], est), CsrcEnd(sp), HeaderEnd(sp);
      var roc := RocBehind(cfg, 256 * (sp[2] as int) + sp[3], est);
      var end, cryptex := |sp| - cfg.mkiSize - |roc|, CryptexSeen(cfg, sp);
      if cryptex && h != 12 && !inPlace then r == Failure(CryptexErr)
      else if end - cfg.tagLen < (if cryptex then 16 else start) then r == Failure(ParseErr)
      else if cap < end - cfg.tagLen then r == Failure(BufferSmall)
      else if cryptex then
        var m := Rearranged(sp, h);
        var x := key.aead.open(iv, m[..16], m[16..end]);
        if x.None? then r == Failure(AuthFail) else 16 + |x.value| <= |sp| && r == Success(PutBack(sp, h, x.value))
      else
        var x := key.aead.open(iv, sp[..start], sp[start..end]);
        if x.None? then r == Failure(AuthFail) else OpenedHeader(cfg, key, est, sp, x.value, r)
  {
    hide CmIv, AeadIv, ValidHeader, IsAead, BigEndian, CryptexIn, OpenAeadCryptex, OpenAeadPlain, OpenedHeader, PutBack,
         Rearranged;
    HeaderIs(sp);
    CryptexSeenIs(cfg, sp);
    var end := |sp| - cfg.mkiSize - RocLen(cfg, SeqOf(sp));
    if CryptexSeen(cfg, sp) {
      if 16 <= end { OpenedMoved(cfg, key, est, sp, end); }
    } else if HeaderEnd(sp) <= end {
      OpenedBehindHeader(cfg, key, est, sp, end);
    }
  }

  /** The elements of the extension are decrypted once the packet is authentic. */
  ghost predicate OpenedHeader(cfg: Config, key: AeadKey, est: nat, sp: seq<octet>, x: seq<octet>,
                               r: Result<seq<octet>>)
    requires HeaderFits(sp)
  {
    var start := HeaderEnd(sp);
    var s := sp[..start] + x;
    HeaderFits(s) && HeaderEnd(s) == start
    && if r.Failure? then HeaderFails(cfg, key, est, s) && r != Failure(AuthFail)
       else |r.value| == |s| && HeaderSent(cfg, key, est, s, r.value[..start]) && r.value[start..] == x
  }

  lemma OpenedBehindHeader(cfg: Config, key: AeadKey, est: nat, sp: seq<octet>, end: nat)
    requires cfg.Valid() && HeaderFits(sp) && HeaderEnd(sp) <= end <= |sp|
    ensures var start := HeaderEnd(sp);
      var r := OpenAeadPlain(cfg, key, est, sp, Layout(CsrcEnd(sp), Extended(sp), start), end);
      var x := key.aead.open(AeadIv(key.salt, sp[8..12], est), sp[..start], sp[start..end]);
      if x.None? then r == Failure(AuthFail) else OpenedHeader(cfg, key, est, sp, x.value, r)
  {
    hide CmIv, AeadIv, HeaderFails, HeaderSent, XtnStage;
    var start := HeaderEnd(sp);
    var x := key.aead.open(AeadIv(key.salt, sp[8..12], est), sp[..start], sp[start..end]);
    assert Sub(sp, 0, start) == sp[..start] && Sub(sp, start, end) == sp[start..end];
    if x.Some? {
      var s := sp[..start] + x.value;
      assert s[8..12] == sp[8..12] && s[start..] == x.value;
      HeaderStage(cfg, key, est, s);
    }
  }

  lemma OpenedMoved(cfg: Config, key: AeadKey, est: nat, sp: seq<octet>, end: nat)
    requires cfg.Valid() && IsAead(key.aead, cfg.tagLen) && HeaderFits(sp) && CryptexSeen(cfg, sp) && 16 <= end <= |sp|
    ensures var iv, m := AeadIv(key.salt, sp[8..12], est), Rearranged(sp, CsrcEnd(sp));
      var r := OpenAeadCryptex(cfg, key, est, sp, CsrcEnd(sp), end);
      var x := key.aead.open(iv, m[..16], m[16..end]);
      if x.None? then r == Failure(AuthFail)
      else 16 + |x.value| <= |sp| && r == Success(PutBack(sp, CsrcEnd(sp), x.value))
  {
    hide AeadIv, IsAead, RestoreProfile, CsrcFirst, XtnFirst, Patch, Restored;
    var iv, h := AeadIv(key.salt, sp[8..12], est), CsrcEnd(sp);
    var m := Rearranged(sp, h);
    assert m == XtnFirst(sp, h) by { RearrangedIs(sp, h); }
    var x := key.aead.open(iv, m[..16], m[16..end]);
    if x.Some? {
      OpenedLength(key.aead, cfg.tagLen, iv, m[..16], m[16..end]);
      PutBackIs(sp, h, x.value);
    }
  }

  lemma RearrangedIs(sp: seq<octet>, h: nat)
    requires 12 <= h && h + 4 <= |sp|
    ensures Rearranged(sp, h) == XtnFirst(sp, h)
  {
  }

  lemma PutBackIs(sp: seq<octet>, h: nat, x: seq<octet>)
    requires 12 <= h && h + 4 <= |sp| && 16 + |x| <= |sp|
    requires sp[h..h + 2] == [0xc0, 0xde] || sp[h..h + 2] == [0xc2, 0xde]
    ensures var q := CsrcFirst(Patch(Rearranged(sp, h), 16, x), h);
      Sub(RestoreProfile(q, h), 0, 16 + |x|) == PutBack(sp, h, x)
  {
    hide CsrcFirst, RestoreProfile, Restored;
    var m := Rearranged(sp, h);
    var y := x + m[16 + |x|..];
    var a, z := sp[..12], sp[h..h + 4];
    assert Patch(m, 16, x) == a + z + y[..h - 12] + y[h - 12..];
    Parts(a, y[..h - 12], z, y[h - 12..]);
    var q := a + y[..h - 12] + z + y[h - 12..];
    assert q[h..h + 4] == z && q[h..h + 2] == z[..2] == sp[h..h + 2];
    assert q[..h] == a + y[..h - 12] && q[h + 2..] == z[2..] + y[h - 12..] && z[2..] == sp[h + 2..h + 4];
    RestoredIs(q, sp, h);
  }
}
