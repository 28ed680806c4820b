/** What SRTP packets look like on the wire, octet by octet (RFC 3711, RFC 4771, RFC 6904 and
    RFC 9335), for senders and receivers alike. */
module WireFormats {
  import opened Results
  import opened Octets
  import opened Replay
  import opened Keystreams
  import opened Ciphers
  import opened RtpPackets
  import opened SrtpBodies
  import opened SrtpPackets
  import opened CounterBlocks
  import HE = HeaderEncryption
  import HX = HeaderExtensions
  import ET = ElementTables
  import PI = PacketIndex

  // --- The RTP header -----------------------------------------------------------------------

  /** The end of the CSRC list (section 5.1 of RFC 3550). */
  function CsrcEnd(pkt: seq<octet>): (n: nat)
    requires |pkt| >= 12
  {
    12 + 4 * (pkt[0] % 16)
  }

  predicate Extended(pkt: seq<octet>)
    requires |pkt| >= 12
  {
    pkt[0] / 16 % 2 == 1
  }

  /** The end of the header, with its extension of so many 32-bit words. */
  function HeaderEnd(pkt: seq<octet>): (n: nat)
    requires |pkt| >= 12 && (Extended(pkt) ==> |pkt| >= CsrcEnd(pkt) + 4)
  {
    var h := CsrcEnd(pkt);
    if Extended(pkt) then h + 4 + 4 * (256 * (pkt[h + 2] as int) + pkt[h + 3]) else h
  }

  predicate HeaderFits(pkt: seq<octet>) {
    && |pkt| >= 12 && |pkt| >= CsrcEnd(pkt) && (Extended(pkt) ==> |pkt| >= CsrcEnd(pkt) + 4)
    && HeaderEnd(pkt) <= |pkt|
  }

  lemma HeaderIs(pkt: seq<octet>)
    ensures ValidHeader(pkt) <==> HeaderFits(pkt)
    ensures ValidHeader(pkt) ==>
      && LayoutOf(pkt) == Layout(CsrcEnd(pkt), Extended(pkt), HeaderEnd(pkt))
      && SeqOf(pkt) == 256 * (pkt[2] as int) + pkt[3] && SsrcOf(pkt) == pkt[8..12]
  {
    hide Value;
    if |pkt| >= 12 {
      TwoOctets(pkt, 2);
      if |pkt| >= CsrcEnd(pkt) + 4 { TwoOctets(pkt, CsrcEnd(pkt) + 2); }
    }
  }

  // --- Octets under the keystream -----------------------------------------------------------

  /** From lo to hi, r is s under the keystream from its position p on. */
  ghost predicate Masked(k: CipherKey, ssrc: seq<octet>, est: nat, s: seq<octet>, r: seq<octet>, lo: nat, hi: nat,
                         p: nat) {
    && hi <= |s| && hi <= |r|
    && forall i | lo <= i < hi :: r[i] == XorOctet(s[i], KeystreamAt(k, ssrc, est, p + i - lo))
  }

  lemma RangeIsMasked(k: CipherKey, ssrc: seq<octet>, est: nat, p: nat, s: seq<octet>, lo: nat, hi: nat)
    requires SaltFits(k) && |ssrc| == 4 && est < INDEX_MAX && lo <= hi <= |s|
    requires Reaches(k, CmIv(ssrc, est), p + hi - lo)
    ensures var r := CryptRange(k, CmIv(ssrc, est), p, s, lo, hi);
      r[..lo] == s[..lo] && r[hi..] == s[hi..] && Masked(k, ssrc, est, s, r, lo, hi, p)
  {
    hide KeystreamAt, Reaches, CmIv, PacketKeystream, XorOctet;
    var iv := CmIv(ssrc, est);
    var r := CryptRange(k, iv, p, s, lo, hi);
    forall i | lo <= i < hi
      ensures r[i] == XorOctet(s[i], KeystreamAt(k, ssrc, est, p + i - lo))
    {
      KeystreamIs(k, ssrc, est, p, hi - lo, i - lo);
      assert r[i] == Encipher(k, iv, p, Sub(s, lo, hi))[i - lo];
    }
  }

  // --- The body of a packet -----------------------------------------------------------------

  /** Listed elements of an extension are under the keystream of the header extension cipher, in one of
      the two forms; the profile says which. */
  ghost predicate ExtensionBody(ids: seq<octet>, k: CipherKey, iv: block, profile: nat, d: seq<octet>, r: seq<octet>) {
    || (profile == 0xbede && AllElements(HX.OneByte, ids, k, iv, d, r))
    || (0x1000 <= profile < 0x1010 && AllElements(HX.TwoByte, ids, k, iv, d, r))
  }

  ghost predicate AllElements(form: HX.Form, ids: seq<octet>, k: CipherKey, iv: block, d: seq<octet>, r: seq<octet>) {
    exists es, last ::
      && ET.IsTable(form, d, ET.Element(0, 0), es, last)
      && ET.Ends(form, ids, k, iv, d, ET.Element(0, 0), es, last, HX.Done(r))
  }

  /** The profile is another one, or some element is not complete or not within reach of the keystream. */
  ghost predicate ExtensionFails(ids: seq<octet>, k: CipherKey, iv: block, profile: nat, d: seq<octet>) {
    || (profile == 0xbede && ElementFails(HX.OneByte, ids, k, iv, d))
    || (0x1000 <= profile < 0x1010 && ElementFails(HX.TwoByte, ids, k, iv, d))
    || (profile != 0xbede && !(0x1000 <= profile < 0x1010))
  }

  ghost predicate ElementFails(form: HX.Form, ids: seq<octet>, k: CipherKey, iv: block, d: seq<octet>) {
    exists es, last, r: HX.Outcome ::
      && !r.Done? && ET.IsTable(form, d, ET.Element(0, 0), es, last)
      && ET.Ends(form, ids, k, iv, d, ET.Element(0, 0), es, last, r)
  }

  lemma ExtensionStage(ids: seq<octet>, k: CipherKey, iv: block, profile: nat, d: seq<octet>)
    ensures var r := HE.HeaderCrypt(ids, k, iv, 0, profile, d);
      if r.Done? then ExtensionBody(ids, k, iv, profile, d, r.data) else ExtensionFails(ids, k, iv, profile, d)
  {
    hide HX.Walk, ET.Ends, ET.IsTable;
    var form := if profile == 0xbede then HX.OneByte else HX.TwoByte;
    var es, last := ET.WalkIsByElements(form, ids, k, iv, d);
  }

  /** Without cryptex: the payload is under the keystream if the confidentiality service is on, and
      the header is as it was but for listed elements of its extension. */
  ghost predicate PlainBody(cfg: Config, key: Key, est: nat, s: seq<octet>, r: seq<octet>)
    requires HeaderFits(s)
  {
    var h, start, ssrc := CsrcEnd(s), HeaderEnd(s), s[8..12];
    && |r| == |s|
    && (if cfg.conf then Masked(key.cipher, ssrc, est, s, r, start, |s|, 0) else r[start..] == s[start..])
    && (if Extended(s) && key.xtn.Some? then
          && r[..h + 4] == s[..h + 4]
          && var profile := 256 * (s[h] as int) + s[h + 1];
             ExtensionBody(cfg.ids, key.xtn.value, CmIv(ssrc, est), profile, s[h + 4..start], r[h + 4..start])
        else r[..start] == s[..start])
  }

  /** With cryptex: CSRCs, extension and payload are under one run of keystream. */
  ghost predicate CryptexBody(key: Key, est: nat, s: seq<octet>, r: seq<octet>, profile: seq<octet>)
    requires |s| >= 12 && CsrcEnd(s) + 4 <= |s| && |profile| == 2
  {
    var h, ssrc := CsrcEnd(s), s[8..12];
    && |r| == |s| && r[..12] == s[..12]
    && Masked(key.cipher, ssrc, est, s, r, 12, h, 0)
    && r[h..h + 4] == profile + s[h + 2..h + 4]
    && Masked(key.cipher, ssrc, est, s, r, h + 4, |s|, h - 12)
  }

  lemma PlainStage(cfg: Config, key: Key, est: nat, s: seq<octet>)
    requires HeaderFits(s) && est < INDEX_MAX && SaltFits(key.cipher)
    requires OpenPlain(cfg, key, CmIv(s[8..12], est), s, Layout(CsrcEnd(s), Extended(s), HeaderEnd(s))).Success?
    ensures var r := OpenPlain(cfg, key, CmIv(s[8..12], est), s, Layout(CsrcEnd(s), Extended(s), HeaderEnd(s))).value;
      PlainBody(cfg, key, est, s, r)
  {
    hide CmIv, HE.HeaderCrypt, CryptRange, Reaches, Masked, Value, ExtensionBody;
    var l, ssrc := Layout(CsrcEnd(s), Extended(s), HeaderEnd(s)), s[8..12];
    var p := XtnStage(cfg.ids, key.xtn, CmIv(ssrc, est), s, l).value;
    var r := OpenPlain(cfg, key, CmIv(ssrc, est), s, l).value;
    if l.x { TwoOctets(s, l.h); }
    assert p[l.start..] == s[l.start..];
    if cfg.conf {
      RangeIsMasked(key.cipher, ssrc, est, 0, p, l.start, |p|);
      MaskedAlike(key.cipher, ssrc, est, s, p, r, l.start, |s|, 0);
      assert r[..l.start] == p[..l.start];
    }
    if l.x && key.xtn.Some? {
      ExtensionStage(cfg.ids, key.xtn.value, CmIv(ssrc, est), ProfileAt(s, l.h), s[l.h + 4..l.start]);
      assert r[l.h + 4..l.start] == r[..l.start][l.h + 4..] == p[l.h + 4..l.start];
      assert r[..l.h + 4] == r[..l.start][..l.h + 4] == s[..l.h + 4];
    }
  }

  lemma MaskedAlike(k: CipherKey, ssrc: seq<octet>, est: nat, s: seq<octet>, t: seq<octet>, r: seq<octet>, lo: nat,
                    hi: nat, p: nat)
    requires lo <= hi <= |s| && hi <= |t| && s[lo..hi] == t[lo..hi] && Masked(k, ssrc, est, t, r, lo, hi, p)
    ensures Masked(k, ssrc, est, s, r, lo, hi, p)
  {
    hide KeystreamAt, XorOctet;
    assert forall i | lo <= i < hi :: s[i] == s[lo..hi][i - lo] == t[lo..hi][i - lo] == t[i];
  }

  /** The payload, or everything behind so many octets, is more than the block counter allows. */
  predicate TooLong(k: CipherKey, n: int) { k.IcmKey? && n > 0xf_fff0 }

  lemma ProfileOctets(s: seq<octet>, h: nat, p: nat)
    requires h + 4 <= |s| && p < 0x1_0000
    ensures SetProfile(s, h, p)[..h] == s[..h] && SetProfile(s, h, p)[h + 2..] == s[h + 2..]
    ensures SetProfile(s, h, p)[h..h + 2] == [p / 256, p % 256]
    ensures ProfileAt(s, h) == 256 * (s[h] as int) + s[h + 1]
  {
    TwoOctets(s, h);
    assert BigEndian(p, 2) == BigEndian(p / 256, 1) + [p % 256];
    assert BigEndian(p / 256, 1) == BigEndian(p / 256 / 256, 0) + [p / 256 % 256];
    assert p / 256 % 256 == p / 256;
  }

  /** CSRCs and what is behind the extension header, under one run of keystream. */
  lemma CryptexStage(key: Key, est: nat, s: seq<octet>, h: nat)
    requires |s| >= 12 && est < INDEX_MAX && SaltFits(key.cipher) && 12 <= h && h + 4 <= |s|
    requires CryptexCrypt(key.cipher, CmIv(s[8..12], est), s, h).Success?
    ensures var r := CryptexCrypt(key.cipher, CmIv(s[8..12], est), s, h).value;
      && r[..12] == s[..12] && r[h..h + 4] == s[h..h + 4]
      && Masked(key.cipher, s[8..12], est, s, r, 12, h, 0)
      && Masked(key.cipher, s[8..12], est, s, r, h + 4, |s|, h - 12)
  {
    hide CmIv, CryptRange, KeystreamAt, XorOctet;
    var k, ssrc := key.cipher, s[8..12];
    var iv := CmIv(ssrc, est);
    var mid := CryptRange(k, iv, 0, s, 12, h);
    var r := CryptRange(k, iv, h - 12, mid, h + 4, |s|);
    ReachesIff(k, ssrc, est, |s| - 16);
    ReachesIff(k, ssrc, est, h - 12);
    RangeIsMasked(k, ssrc, est, 0, s, 12, h);
    RangeIsMasked(k, ssrc, est, h - 12, mid, h + 4, |s|);
    assert mid[h + 4..] == mid[h..][4..] == s[h..][4..] == s[h + 4..];
    MaskedAlike(k, ssrc, est, s, mid, r, h + 4, |s|, h - 12);
    assert forall i | 0 <= i < h + 4 :: r[i] == r[..h + 4][i] == mid[i];
    assert forall i | h <= i < |s| :: mid[i] == mid[h..][i - h] == s[h..][i - h] == s[i];
    assert forall i | 0 <= i < 12 :: mid[i] == mid[..12][i] == s[i];
  }

  /** How a packet is sent, before MKI and tag: which octets are under which keystream, and when there
      is an error. */
  lemma SentBody(cfg: Config, key: Key, est: nat, pkt: seq<octet>)
    requires ValidHeader(pkt) && est < INDEX_MAX && SaltFits(key.cipher)
    ensures HeaderFits(pkt)
    ensures var r := Protected(cfg, key, CmIv(pkt[8..12], est), pkt);
      var h, start := CsrcEnd(pkt), HeaderEnd(pkt);
      if !(cfg.cryptex && cfg.conf) then
        && (r.Success? ==> PlainBody(cfg, key, est, pkt, r.value))
        && (key.xtn.None? || !Extended(pkt) ==> (r.Failure? <==> cfg.conf && TooLong(key.cipher, |pkt| - start)))
        && (r.Failure? && key.xtn.Some? && Extended(pkt) ==>
              (cfg.conf && TooLong(key.cipher, |pkt| - start)) || XtnFails(cfg, key, est, pkt))
      else if !Extended(pkt) then
        && (r.Success? ==> PlainBody(cfg, key, est, pkt, r.value))
        && (r.Failure? <==> h != 12 || TooLong(key.cipher, |pkt| - start))
      else
        && (r.Success? ==>
              || (pkt[h..h + 2] == [0xbe, 0xde] && CryptexBody(key, est, pkt, r.value, [0xc0, 0xde]))
              || (pkt[h..h + 2] == [0x10, 0x00] && CryptexBody(key, est, pkt, r.value, [0xc2, 0xde])))
        && (r.Failure? <==>
              || (pkt[h..h + 2] != [0xbe, 0xde] && pkt[h..h + 2] != [0x10, 0x00])
              || TooLong(key.cipher, |pkt| - 16))
  {
    hide CmIv, CryptRange, Reaches, Masked, HE.HeaderCrypt, ValidHeader, SetProfile, ProfileAt, PlainBody, CryptexBody,
         XtnFails;
    HeaderIs(pkt);
    if cfg.cryptex && cfg.conf && Extended(pkt) {
      SentCryptex(key, est, pkt);
    } else {
      SentOrOpenedPlain(cfg, key, est, pkt);
    }
  }

  lemma SentCryptex(key: Key, est: nat, pkt: seq<octet>)
    requires HeaderFits(pkt) && Extended(pkt) && est < INDEX_MAX && SaltFits(key.cipher)
    ensures var iv, h := CmIv(pkt[8..12], est), CsrcEnd(pkt);
      match CryptexProfile(ProfileAt(pkt, h))
      case None => pkt[h..h + 2] != [0xbe, 0xde] && pkt[h..h + 2] != [0x10, 0x00]
      case Some(q) =>
        var r := CryptexCrypt(key.cipher, iv, SetProfile(pkt, h, q), h);
        && (r.Failure? <==> TooLong(key.cipher, |pkt| - 16))
        && (|| (pkt[h..h + 2] == [0xbe, 0xde] && (r.Success? ==> CryptexBody(key, est, pkt, r.value, [0xc0, 0xde])))
            || (pkt[h..h + 2] == [0x10, 0x00] && (r.Success? ==> CryptexBody(key, est, pkt, r.value, [0xc2, 0xde]))))
  {
    hide CmIv, CryptRange, Reaches, SetProfile, ProfileAt, CryptexBody, HeaderEnd;
    var h, ssrc := CsrcEnd(pkt), pkt[8..12];
    ReachesIff(key.cipher, ssrc, est, |pkt| - 16);
    ProfileOctets(pkt, h, 0);
    var q := CryptexProfile(ProfileAt(pkt, h));
    if q.Some? && CryptexCrypt(key.cipher, CmIv(ssrc, est), SetProfile(pkt, h, q.value), h).Success? {
      CryptexWithProfile(key, est, pkt, q.value);
    }
  }

  lemma CryptexWithProfile(key: Key, est: nat, pkt: seq<octet>, p: nat)
    requires HeaderFits(pkt) && Extended(pkt) && est < INDEX_MAX && SaltFits(key.cipher) && p < 0x1_0000
    requires CryptexCrypt(key.cipher, CmIv(pkt[8..12], est), SetProfile(pkt, CsrcEnd(pkt), p), CsrcEnd(pkt)).Success?
    ensures var h := CsrcEnd(pkt);
      var r := CryptexCrypt(key.cipher, CmIv(pkt[8..12], est), SetProfile(pkt, h, p), h).value;
      CryptexBody(key, est, pkt, r, [p / 256, p % 256])
  {
    hide CmIv, CryptRange, Reaches, Masked, SetProfile, ProfileAt, CryptexCrypt;
    var h, ssrc := CsrcEnd(pkt), pkt[8..12];
    var s := SetProfile(pkt, h, p);
    ProfileOctets(pkt, h, p);
    assert s[8..12] == s[..h][8..12] == ssrc;
    var r := CryptexCrypt(key.cipher, CmIv(ssrc, est), s, h).value;
    CryptexStage(key, est, s, h);
    assert s[12..h] == s[..h][12..] == pkt[12..h];
    MaskedAlike(key.cipher, ssrc, est, pkt, s, r, 12, h, 0);
    assert s[h + 4..] == s[h + 2..][2..] == pkt[h + 4..];
    MaskedAlike(key.cipher, ssrc, est, pkt, s, r, h + 4, |pkt|, h - 12);
    assert s[..12] == s[..h][..12] == pkt[..12];
    assert s[h..h + 4] == s[h..h + 2] + s[h + 2..][..2];
  }

  /** The header extension of a packet cannot be processed. */
  ghost predicate XtnFails(cfg: Config, key: Key, est: nat, s: seq<octet>)
    requires HeaderFits(s) && Extended(s) && key.xtn.Some?
  {
    var h := CsrcEnd(s);
    var profile, d := 256 * (s[h] as int) + s[h + 1], s[h + 4..HeaderEnd(s)];
    ExtensionFails(cfg.ids, key.xtn.value, CmIv(s[8..12], est), profile, d)
  }

  lemma SentOrOpenedPlain(cfg: Config, key: Key, est: nat, s: seq<octet>)
    requires HeaderFits(s) && est < INDEX_MAX && SaltFits(key.cipher)
    ensures var r := OpenPlain(cfg, key, CmIv(s[8..12], est), s, Layout(CsrcEnd(s), Extended(s), HeaderEnd(s)));
      && (r.Success? ==> PlainBody(cfg, key, est, s, r.value))
      && (key.xtn.None? || !Extended(s) ==> (r.Failure? <==> cfg.conf && TooLong(key.cipher, |s| - HeaderEnd(s))))
      && (r.Failure? && key.xtn.Some? && Extended(s) ==>
            || (cfg.conf && TooLong(key.cipher, |s| - HeaderEnd(s)))
            || XtnFails(cfg, key, est, s))
  {
    hide CmIv, PlainBody, HE.HeaderCrypt, CryptRange, Reaches, ProfileAt, ExtensionFails, ExtensionBody;
    var l := Layout(CsrcEnd(s), Extended(s), HeaderEnd(s));
    ReachesIff(key.cipher, s[8..12], est, |s| - l.start);
    if l.x && key.xtn.Some? {
      ProfileOctets(s, l.h, 0);
      ExtensionStage(cfg.ids, key.xtn.value, CmIv(s[8..12], est), ProfileAt(s, l.h), s[l.h + 4..l.start]);
    }
    if OpenPlain(cfg, key, CmIv(s[8..12], est), s, l).Success? { PlainStage(cfg, key, est, s); }
  }

  // --- Whole packets ------------------------------------------------------------------------

  /** How a packet is sent: the body, the MKI of the key, and a tag over the body and the rollover
      counter.  A carrying packet has the counter in front of a tag that is 4 octets shorter. */
  lemma SentPacket(cfg: Config, key: Key, est: nat, pkt: seq<octet>, slack: seq<octet>)
    requires cfg.Valid() && !cfg.gcm && ValidHeader(pkt) && |slack| == cfg.TagOut(SeqOf(pkt))
    ensures HeaderFits(pkt)
    ensures var body := Protected(cfg, key, CmIv(pkt[8..12], est), pkt);
      var s, roc := 256 * (pkt[2] as int) + pkt[3], BigEndian(est / 0x1_0000, 4);
      var carrying := cfg.rcc != RccNone && s % cfg.rate == 0;
      match ProtectPacket(cfg, key, est, pkt, slack)
      case Failure(e) => body == Failure(e)
      case Success(r) =>
        && body.Success? && var b := body.value; var m := key.mac(b + roc);
           r == b + key.mki + if cfg.rcc == Rcc1 && !carrying then []
                              else if !cfg.auth then slack
                              else if carrying then roc + m[..cfg.tagLen - 4]
                              else m[..cfg.tagLen]
  {
    hide CmIv, Protected, ValidHeader, BigEndian;
    HeaderIs(pkt);
  }

  /** The receiver sees one of the two cryptex profiles. */
  predicate CryptexSeen(cfg: Config, sp: seq<octet>)
    requires HeaderFits(sp)
  {
    var h := CsrcEnd(sp);
    cfg.cryptex && Extended(sp) && (sp[h..h + 2] == [0xc0, 0xde] || sp[h..h + 2] == [0xc2, 0xde])
  }

  lemma CryptexSeenIs(cfg: Config, sp: seq<octet>)
    requires ValidHeader(sp)
    ensures HeaderFits(sp) && (CryptexIn(cfg, sp, LayoutOf(sp)) <==> CryptexSeen(cfg, sp))
  {
    hide Value;
    HeaderIs(sp);
    if Extended(sp) { TwoOctets(sp, CsrcEnd(sp)); }
  }

  /** Which of the checks on a received packet decides: its length, the room for it, its tag.  A packet
      with a tag is refused for it exactly if its octets differ from those of the authentication
      function over the packet and the rollover counter; a carrying packet has a shorter tag, behind
      the counter. */
  lemma TagDecides(cfg: Config, key: Key, est: nat, sp: seq<octet>, cap: nat, inPlace: bool)
    requires cfg.Valid() && !cfg.gcm && ValidHeader(sp)
    ensures HeaderFits(sp)
    ensures var s := 256 * (sp[2] as int) + sp[3];
      var carrying := cfg.rcc != RccNone && s % cfg.rate == 0;
      var n := if cfg.rcc == Rcc1 && !carrying then 0 else cfg.tagLen;
      var end := |sp| - n - cfg.mkiSize;
      var from := if !CryptexSeen(cfg, sp) then HeaderEnd(sp) else if inPlace then 16 else CsrcEnd(sp) + 4;
      var r := Open(cfg, key, est, sp, cap, inPlace);
      if end < from then r == Failure(ParseErr)
      else if cap < end then r == Failure(BufferSmall)
      else if !cfg.auth || n == 0 then r != Failure(AuthFail)
      else
        var m := key.mac(sp[..end] + BigEndian(est / 0x1_0000, 4));
        r == Failure(AuthFail) <==>
          if carrying then sp[|sp| - n + 4..] != m[..n - 4] else sp[|sp| - n..] != m[..n]
  {
    hide CmIv, BigEndian, ValidHeader, OpenContents, CryptexIn, TagMatches, Sub;
    HeaderIs(sp);
    CryptexSeenIs(cfg, sp);
    if Checked(cfg, key, est, sp, cap, inPlace).Success? { ContentsAreAuthentic(cfg, key, est, sp, cap, inPlace); }
    var n := cfg.TagOut(SeqOf(sp));
    var end := |sp| - n - cfg.mkiSize;
    if end >= 0 && n > 0 { TagMatchesIff(cfg, key, est, sp, end); }
  }

  lemma TagMatchesIff(cfg: Config, key: Key, est: nat, sp: seq<octet>, end: nat)
    requires cfg.Valid() && !cfg.gcm && |sp| >= 12 && end + cfg.tagLen <= |sp|
    ensures var s, n := SeqOf(sp), cfg.tagLen;
      var m := key.mac(Sub(sp, 0, end) + BigEndian(est / 0x1_0000, 4));
      && Sub(sp, 0, end) == sp[..end]
      && (TagMatches(cfg, key, est, s, Sub(sp, 0, end), Sub(sp, |sp| - n, |sp|))
          <==> if cfg.rcc != RccNone && s % cfg.rate == 0 then sp[|sp| - n + 4..] == m[..n - 4]
               else sp[|sp| - n..] == m[..n])
  {
    hide BigEndian, SeqOf;
    var n := cfg.tagLen;
    var t := Sub(sp, |sp| - n, |sp|);
    assert t == sp[|sp| - n..];
    if n >= 4 { assert Sub(t, 4, n) == sp[|sp| - n + 4..]; }
  }

  /** Nothing behind the check of the tag ends in this error. */
  lemma ContentsAreAuthentic(cfg: Config, key: Key, est: nat, sp: seq<octet>, cap: nat, inPlace: bool)
    requires cfg.Valid() && !cfg.gcm && ValidHeader(sp) && Checked(cfg, key, est, sp, cap, inPlace).Success?
    ensures Open(cfg, key, est, sp, cap, inPlace) != Failure(AuthFail)
  {
    hide CmIv, ValidHeader, LayoutOf, CryptRange, Reaches, HE.HeaderCrypt, CryptexIn, Checked, ProfileAt;
  }

  /** The profile that a receiver puts back. */
  function Restored(profile: seq<octet>): (p: seq<octet>)
    ensures |p| == 2
  {
    if profile == [0xc0, 0xde] then [0xbe, 0xde] else [0x10, 0x00]
  }

  /** The packet that a receiver makes of the octets up to `end`. */
  ghost predicate Opened(cfg: Config, key: Key, est: nat, sp: seq<octet>, end: nat, inPlace: bool, p: seq<octet>)
    requires HeaderFits(sp) && 12 <= end <= |sp|
  {
    var h, k, ssrc := CsrcEnd(sp), key.cipher, sp[8..12];
    if !CryptexSeen(cfg, sp) then HeaderEnd(sp) <= end && PlainBody(cfg, key, est, sp[..end], p)
    else
      var restored := sp[..h] + Restored(sp[h..h + 2]) + sp[h + 2..];
      if !cfg.conf && inPlace then p == restored[..end]
      else if end < h + 4 then
        // The packet ends inside its CSRC list: all but its last four octets are under the keystream.
        && 16 <= end == |p| && p[..12] == sp[..12] && p[end - 4..] == restored[end - 4..end]
        && Masked(k, ssrc, est, sp, p, 12, end - 4, 0)
      else if !cfg.conf then
        |p| == end && p[..12] == sp[..12] && Masked(k, ssrc, est, sp, p, 12, h, 0) && p[h..] == restored[h..end]
      else CryptexBody(key, est, sp[..end], p, Restored(sp[h..h + 2]))
  }

  lemma RestoredIs(q: seq<octet>, sp: seq<octet>, h: nat)
    requires h + 4 <= |q| && h + 4 <= |sp| && q[h..h + 2] == sp[h..h + 2]
    requires sp[h..h + 2] == [0xc0, 0xde] || sp[h..h + 2] == [0xc2, 0xde]
    ensures RestoreProfile(q, h) == q[..h] + Restored(sp[h..h + 2]) + q[h + 2..]
  {
    var p := sp[h..h + 2];
    assert q[h] == p[0] && q[h + 1] == p[1] by { assert q[h] == q[h..h + 2][0] && q[h + 1] == q[h..h + 2][1]; }
    ProfileOctets(q, h, 0xbede);
    ProfileOctets(q, h, 0x1000);
    var r := RestoreProfile(q, h);
    assert r == r[..h] + r[h..h + 2] + r[h + 2..];
  }

  /** A received packet is opened as it was sent: octet by octet, in one buffer or between two. */
  lemma OpenedPacket(cfg: Config, key: Key, est: nat, sp: seq<octet>, cap: nat, inPlace: bool)
    requires cfg.Valid() && !cfg.gcm && ValidHeader(sp) && est < INDEX_MAX && SaltFits(key.cipher)
    requires Open(cfg, key, est, sp, cap, inPlace).Success?
    ensures HeaderFits(sp)
    ensures var p := Open(cfg, key, est, sp, cap, inPlace).value;
      12 <= |p| <= |sp| && Opened(cfg, key, est, sp, |p|, inPlace, p)
  {
    hide CmIv, ValidHeader, Masked, CryptexIn, OpenPlain, OpenCryptex, OpenShort, Opened, LayoutOf;
    HeaderIs(sp);
    CryptexSeenIs(cfg, sp);
    var end := Checked(cfg, key, est, sp, cap, inPlace).value;
    var l := LayoutOf(sp);
    if !CryptexSeen(cfg, sp) {
      OpenedPlain(cfg, key, est, sp, end, inPlace);
    } else if end < l.h + 4 {
      OpenedShort(cfg, key, est, sp, end, inPlace);
    } else {
      OpenedCryptex(cfg, key, est, sp, end, inPlace);
    }
  }

  lemma OpenedPlain(cfg: Config, key: Key, est: nat, sp: seq<octet>, end: nat, inPlace: bool)
    requires HeaderFits(sp) && est < INDEX_MAX && SaltFits(key.cipher)
    requires !CryptexSeen(cfg, sp) && HeaderEnd(sp) <= end <= |sp|
    ensures var l := Layout(CsrcEnd(sp), Extended(sp), HeaderEnd(sp));
      var r := OpenPlain(cfg, key, CmIv(sp[8..12], est), Sub(sp, 0, end), l);
      r.Success? ==> Opened(cfg, key, est, sp, end, inPlace, r.value)
  {
    hide CmIv, PlainBody, OpenPlain;
    var s := sp[..end];
    assert s[8..12] == sp[8..12];
    SentOrOpenedPlain(cfg, key, est, s);
  }

  lemma MaskedResult(k: CipherKey, ssrc: seq<octet>, est: nat, s: seq<octet>, q: seq<octet>, r: seq<octet>, lo: nat,
                     hi: nat, p: nat)
    requires lo <= hi <= |q| && hi <= |r| && q[lo..hi] == r[lo..hi] && Masked(k, ssrc, est, s, q, lo, hi, p)
    ensures Masked(k, ssrc, est, s, r, lo, hi, p)
  {
    hide KeystreamAt, XorOctet;
    assert forall i | lo <= i < hi :: q[i] == q[lo..hi][i - lo] == r[lo..hi][i - lo] == r[i];
  }

  /** Putting the profile back in a packet that was changed in front of it. */
  lemma RestoredParts(sp: seq<octet>, q: seq<octet>, h: nat, profile: seq<octet>, a: nat, b: nat, end: nat)
    requires a <= b <= h && h + 2 <= |q| && |q| <= |sp| && b <= end <= |q| && |profile| == 2
    requires q[..a] == sp[..a] && q[b..] == sp[b..|q|]
    ensures var p, restored := (q[..h] + profile + q[h + 2..])[..end], sp[..h] + profile + sp[h + 2..];
      p[..a] == sp[..a] && p[a..b] == q[a..b] && p[b..] == restored[b..end]
  {
    var p, restored := (q[..h] + profile + q[h + 2..])[..end], sp[..h] + profile + sp[h + 2..];
    assert forall i | 0 <= i < b :: p[i] == q[i];
    assert p[..a] == q[..a] && p[a..b] == q[a..b];
    forall i | b <= i < end
      ensures p[i] == restored[i]
    {
      assert q[i] == q[b..][i - b] == sp[b..|q|][i - b] == sp[i];
    }
  }

  lemma TailOfTail(q: seq<octet>, s: seq<octet>, a: nat, h: nat)
    requires a <= h && h + 2 <= |q| == |s| && q[a..] == s[a..]
    ensures q[h..h + 2] == s[h..h + 2]
  {
    assert forall i | a <= i < |q| :: q[i] == q[a..][i - a] == s[a..][i - a] == s[i];
  }

  lemma OpenedShort(cfg: Config, key: Key, est: nat, sp: seq<octet>, end: nat, inPlace: bool)
    requires HeaderFits(sp) && est < INDEX_MAX && SaltFits(key.cipher)
    requires CryptexSeen(cfg, sp) && 16 <= end < CsrcEnd(sp) + 4 && inPlace
    ensures var r := OpenShort(cfg, key, CmIv(sp[8..12], est), sp, CsrcEnd(sp), end);
      r.Success? ==> |r.value| == end && Opened(cfg, key, est, sp, end, inPlace, r.value)
  {
    hide CmIv, CryptRange, Masked, RestoreProfile, Reaches, PlainBody, CryptexBody, Restored;
    var h, k, ssrc := CsrcEnd(sp), key.cipher, sp[8..12];
    var r := OpenShort(cfg, key, CmIv(ssrc, est), sp, h, end);
    if r.Success? && cfg.conf {
      var q := CryptRange(k, CmIv(ssrc, est), 0, sp, 12, end - 4);
      RangeIsMasked(k, ssrc, est, 0, sp, 12, end - 4);
      TailOfTail(q, sp, end - 4, h);
      RestoredIs(q, sp, h);
      RestoredParts(sp, q, h, Restored(sp[h..h + 2]), 12, end - 4, end);
      MaskedResult(k, ssrc, est, sp, q, r.value, 12, end - 4, 0);
    } else if r.Success? {
      RestoredIs(sp, sp, h);
    }
  }

  lemma OpenedCryptex(cfg: Config, key: Key, est: nat, sp: seq<octet>, end: nat, inPlace: bool)
    requires HeaderFits(sp) && est < INDEX_MAX && SaltFits(key.cipher)
    requires CryptexSeen(cfg, sp) && CsrcEnd(sp) + 4 <= end <= |sp|
    ensures var r := OpenCryptex(cfg, key, CmIv(sp[8..12], est), Sub(sp, 0, end), CsrcEnd(sp), inPlace);
      r.Success? ==> Opened(cfg, key, est, sp, end, inPlace, r.value)
  {
    hide CmIv, CryptRange, Masked, RestoreProfile, CryptexCrypt, Reaches, PlainBody, CryptexBody, Restored;
    var h, k, ssrc, s := CsrcEnd(sp), key.cipher, sp[8..12], sp[..end];
    if OpenCryptex(cfg, key, CmIv(ssrc, est), s, h, inPlace).Success? {
      if cfg.conf {
        RestoredAfterCryptex(key, est, sp, end);
      } else if inPlace {
        assert s[h..h + 2] == sp[h..h + 2];
        RestoredIs(s, sp, h);
      } else {
        RestoredAfterCsrcs(key, est, sp, end);
      }
    }
  }

  lemma SliceOfPrefix(s: seq<octet>, end: nat, a: nat, b: nat)
    requires a <= b <= end <= |s|
    ensures s[..end][a..b] == s[a..b]
  {
  }

  lemma RestoredAfterCryptex(key: Key, est: nat, sp: seq<octet>, end: nat)
    requires |sp| >= 12 && est < INDEX_MAX && SaltFits(key.cipher) && CsrcEnd(sp) + 4 <= end <= |sp|
    requires var p := sp[CsrcEnd(sp)..CsrcEnd(sp) + 2]; p == [0xc0, 0xde] || p == [0xc2, 0xde]
    requires CryptexCrypt(key.cipher, CmIv(sp[8..12], est), sp[..end], CsrcEnd(sp)).Success?
    ensures var h := CsrcEnd(sp); var q := CryptexCrypt(key.cipher, CmIv(sp[8..12], est), sp[..end], h).value;
      CryptexBody(key, est, sp[..end], RestoreProfile(q, h), Restored(sp[h..h + 2]))
  {
    hide CmIv, CryptRange, Masked, RestoreProfile, CryptexCrypt, Restored;
    var h, k, ssrc, s := CsrcEnd(sp), key.cipher, sp[8..12], sp[..end];
    assert s[8..12] == ssrc && s[h..h + 2] == sp[h..h + 2];
    CryptexStage(key, est, s, h);
    var q := CryptexCrypt(k, CmIv(ssrc, est), s, h).value;
    assert q[h..h + 2] == q[h..h + 4][..2];
    RestoredIs(q, sp, h);
    var r := RestoreProfile(q, h);
    assert r[h..h + 4] == Restored(sp[h..h + 2]) + q[h..h + 4][2..];
    assert r[..12] == q[..12] && r[12..h] == q[12..h] && r[h + 4..] == q[h + 4..];
    MaskedResult(k, ssrc, est, s, q, r, 12, h, 0);
    MaskedResult(k, ssrc, est, s, q, r, h + 4, end, h - 12);
  }

  /** Without the confidentiality service and between buffers, the CSRCs alone are decrypted. */
  lemma RestoredAfterCsrcs(key: Key, est: nat, sp: seq<octet>, end: nat)
    requires |sp| >= 12 && est < INDEX_MAX && SaltFits(key.cipher) && CsrcEnd(sp) + 4 <= end <= |sp|
    requires var p := sp[CsrcEnd(sp)..CsrcEnd(sp) + 2]; p == [0xc0, 0xde] || p == [0xc2, 0xde]
    requires Reaches(key.cipher, CmIv(sp[8..12], est), CsrcEnd(sp) - 12)
    ensures var h := CsrcEnd(sp);
      var r := RestoreProfile(CryptRange(key.cipher, CmIv(sp[8..12], est), 0, sp[..end], 12, h), h);
      var restored := sp[..h] + Restored(sp[h..h + 2]) + sp[h + 2..];
      && r[..12] == sp[..12] && Masked(key.cipher, sp[8..12], est, sp, r, 12, h, 0)
      && r[h..] == restored[h..end]
  {
    hide CmIv, CryptRange, Masked, RestoreProfile, Reaches, Restored;
    var h, k, ssrc, s := CsrcEnd(sp), key.cipher, sp[8..12], sp[..end];
    var q := CryptRange(k, CmIv(ssrc, est), 0, s, 12, h);
    var r := RestoreProfile(q, h);
    RangeIsMasked(k, ssrc, est, 0, s, 12, h);
    assert q[h..h + 2] == q[h..][..2] == sp[h..h + 2];
    RestoredIs(q, sp, h);
    assert r == r[..end];
    RestoredParts(sp, q, h, Restored(sp[h..h + 2]), 12, h, end);
    MaskedResult(k, ssrc, est, s, q, r, 12, h, 0);
    MaskedAlike(k, ssrc, est, sp, s, r, 12, h, 0) by { SliceOfPrefix(sp, end, 12, h); }
  }

  /** When a packet is not sent, and why: a bad header, too little room, CSRCs without an extension under
      cryptex, or an index that the stream does not take. */
  lemma RefusedToSend(cfg: Config, st: PI.IndexState, allowRepeat: bool, pkt: seq<octet>, cap: nat)
    requires cfg.Valid() && st.Valid()
    ensures var r := Admit(cfg, st, allowRepeat, pkt, cap);
      if !HeaderFits(pkt) then r == Failure(BadParam)
      else
        var q := 256 * (pkt[2] as int) + pkt[3];
        var n := if cfg.rcc == Rcc1 && q % cfg.rate != 0 then 0 else cfg.tagLen;
        var l := PI.LocateSend(st, q, allowRepeat);
        if cap < |pkt| + cfg.mkiSize + n then r == Failure(BufferSmall)
        else if cfg.cryptex && cfg.conf && CsrcEnd(pkt) != 12 && !Extended(pkt) then r == Failure(CryptexErr)
        else if l.status == ReplayOld then r == Failure(ReplayedOld)
        else if l.status == ReplayFail then r == Failure(Replayed)
        else if l.status == IndexOld then r == Failure(PacketIndexOld)
        else r == Success(l)
  {
    hide ValidHeader, PI.LocateSend;
    HeaderIs(pkt);
  }

  /** When a received packet is refused before its key is used: a bad header, an index that does not pass,
      no key or no key with its MKI. */
  lemma RefusedPlace(cfg: Config, keys: seq<Key>, st: PI.IndexState, sp: seq<octet>)
    requires cfg.Valid() && !cfg.gcm && st.Valid()
    ensures var r := FindPlace(cfg, keys, st, sp);
      if !HeaderFits(sp) then r == Failure(BadParam)
      else
        var q := 256 * (sp[2] as int) + sp[3];
        var l := PI.Locate(st, q, None);
        if cfg.rcc == RccNone || q % cfg.rate != 0 then
          if l.status == ReplayOld then r == Failure(ReplayedOld)
          else if l.status == ReplayFail then r == Failure(Replayed)
          else if l.status == IndexOld then r == Failure(PacketIndexOld)
          else if keys == [] then r == Failure(NoCtx)
          else r == Failure(BadMki) || (r.Success? && r.value.1 == l)
        else if keys == [] then r == Failure(NoCtx)
        else r.Success? ==> |sp| >= 12 + cfg.mkiSize + cfg.tagLen
  {
    hide ValidHeader, PI.Locate, FindMki;
    HeaderIs(sp);
  }
}
