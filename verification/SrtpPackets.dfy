/** Whole SRTP packets outside AEAD: MKI, authentication tag, carried rollover counter,
    key selection and packet index (srtp_protect and srtp_unprotect in srtp/srtp.c). */
module SrtpPackets {
  import opened Results
  import opened Octets
  import opened Replay
  import opened Keystreams
  import opened Ciphers
  import opened RtpPackets
  import opened SrtpBodies
  import HE = HeaderEncryption
  import PI = PacketIndex

  /** Section 4.1.1 of RFC 3711: SSRC and packet index, shifted by 16 bits. */
  function CmIv(ssrc: seq<octet>, est: nat): (iv: block)
    requires |ssrc| == 4
  {
    Zeros(4) + ssrc + BigEndian(est, 6) + Zeros(2)
  }

  /** The rollover counter of a packet index, in network order. */
  function RocOctets(est: nat): (r: seq<octet>)
    ensures |r| == 4
  {
    BigEndian(est / SEQ_MAX, 4)
  }

  /** The tag over a packet and its rollover counter; a carrying packet puts the counter in
      front of the shortened tag (RFC 4771). */
  function Tag(cfg: Config, key: Key, est: nat, s: seqNum, body: seq<octet>): (t: seq<octet>)
    requires cfg.Valid() && !cfg.gcm
    ensures |t| == cfg.tagLen
  {
    var m := key.mac(body + RocOctets(est));
    if cfg.Carries(s) then RocOctets(est) + Sub(m, 0, cfg.tagLen - 4) else Sub(m, 0, cfg.tagLen)
  }

  /** The tag field as sent: without the authentication service its octets stay as they
      were in the output buffer. */
  function TagField(cfg: Config, key: Key, est: nat, s: seqNum, body: seq<octet>, slack: seq<octet>): (t: seq<octet>)
    requires cfg.Valid() && !cfg.gcm && |slack| == cfg.TagOut(s)
    ensures |t| == cfg.TagOut(s)
  {
    if cfg.auth && cfg.TagOut(s) > 0 then Tag(cfg, key, est, s, body) else slack
  }

  /** srtp_protect for a packet whose index has been found. */
  function ProtectPacket(cfg: Config, key: Key, est: nat, pkt: seq<octet>, slack: seq<octet>): (r: Result<seq<octet>>)
    requires cfg.Valid() && !cfg.gcm && ValidHeader(pkt) && |slack| == cfg.TagOut(SeqOf(pkt))
  {
    var b :- Protected(cfg, key, CmIv(SsrcOf(pkt), est), pkt);
    Success(b + key.mki + TagField(cfg, key, est, SeqOf(pkt), b, slack))
  }

  /** What srtp_protect checks before the packet index is used up: the place of the packet. */
  function Admit(cfg: Config, st: PI.IndexState, allowRepeat: bool, pkt: seq<octet>, cap: nat): (r: Result<PI.Located>)
    requires cfg.Valid() && st.Valid()
    ensures r.Success? ==> ValidHeader(pkt) && r.value.Usable() && r.value == PI.LocateSend(st, SeqOf(pkt), allowRepeat)
    ensures r.Success? ==> |pkt| + cfg.mkiSize + cfg.TagOut(SeqOf(pkt)) <= cap
  {
    if !ValidHeader(pkt) then Failure(BadParam) else
    var s := SeqOf(pkt);
    if cap < |pkt| + cfg.mkiSize + cfg.TagOut(s) then Failure(BufferSmall) else
    if cfg.cryptex && cfg.conf && Cc(pkt) != 0 && !HasXtn(pkt) then Failure(CryptexErr) else
    var l := PI.LocateSend(st, s, allowRepeat);
    if l.Usable() then Success(l) else Failure(IndexError(l.status))
  }

  /** srtp_protect on one stream: the new index state, and the packet that is sent.  `out` is
      the output buffer as it was. */
  function Send(cfg: Config, key: Key, st: PI.IndexState, allowRepeat: bool, pkt: seq<octet>, out: seq<octet>)
    : (r: (PI.IndexState, Result<seq<octet>>))
    requires cfg.Valid() && !cfg.gcm && st.Valid()
    ensures r.0.Valid()
  {
    match Admit(cfg, st, allowRepeat, pkt, |out|)
    case Failure(e) => (st, Failure(e))
    case Success(l) =>
      var at := |pkt| + cfg.mkiSize;
      (PI.Record(st, l), ProtectPacket(cfg, key, l.est, pkt, Sub(out, at, at + cfg.TagOut(SeqOf(pkt)))))
  }

  // --- Key selection ----------------------------------------------------------------------

  /** The first position, from i on, that has this MKI. */
  function FindMki(mkis: seq<seq<octet>>, mki: seq<octet>, i: nat): (r: Option<nat>)
    requires i <= |mkis|
    ensures r.Some? ==> r.value < |mkis|
    decreases |mkis| - i
  {
    if i == |mkis| then None
    else if mkis[i] == mki then Some(i)
    else FindMki(mkis, mki, i + 1)
  }

  /** srtp_get_session_keys_for_packet: the position of the key; `trailing` octets follow the MKI. */
  function SelectKey(mkiSize: nat, mkis: seq<seq<octet>>, sp: seq<octet>, trailing: nat): (r: Result<nat>)
    ensures r.Success? ==> r.value < |mkis|
  {
    if mkis == [] then Failure(NoCtx)
    else if mkiSize == 0 then Success(0)
    else if trailing + mkiSize > |sp| then Failure(BadMki)
    else
      var at := |sp| - trailing - mkiSize;
      match FindMki(mkis, Sub(sp, at, at + mkiSize), 0)
      case None => Failure(BadMki)
      case Some(i) => Success(i)
  }

  function Mkis(keys: seq<Key>): (r: seq<seq<octet>>)
    ensures |r| == |keys| && forall i | 0 <= i < |keys| :: r[i] == keys[i].mki
  {
    seq(|keys|, i requires 0 <= i < |keys| => keys[i].mki)
  }

  /** Octets behind the MKI of an RTP packet (srtp_get_session_keys_for_rtp_packet). */
  function Trailing(cfg: Config, s: seqNum): (n: nat)
    requires cfg.Valid()
  {
    if cfg.gcm then (if cfg.rcc == Rcc3 && cfg.Carries(s) then 4 else 0) else cfg.TagOut(s)
  }

  // --- Receiving --------------------------------------------------------------------------

  predicate TagMatches(cfg: Config, key: Key, est: nat, s: seqNum, body: seq<octet>, tag: seq<octet>)
    requires cfg.Valid() && !cfg.gcm && |tag| == cfg.tagLen
  {
    var m := key.mac(body + RocOctets(est));
    if cfg.Carries(s) then Sub(m, 0, cfg.tagLen - 4) == Sub(tag, 4, cfg.tagLen) else Sub(m, 0, cfg.tagLen) == tag
  }

  /** Where decryption starts in the received packet. */
  function EncStart(cfg: Config, sp: seq<octet>, l: Layout, inPlace: bool): (n: nat)
    requires l.Fits(|sp|)
  {
    if !CryptexIn(cfg, sp, l) then l.start
    else if inPlace then RTP_HEADER + XTN_HEADER
    else l.h + XTN_HEADER
  }

  /** A cryptex packet that ends inside its CSRC list, processed in place. */
  function OpenShort(cfg: Config, key: Key, iv: block, sp: seq<octet>, h: nat, end: nat): (r: Result<seq<octet>>)
    requires RTP_HEADER + XTN_HEADER <= end < h + XTN_HEADER <= |sp|
  {
    var n := end - RTP_HEADER - XTN_HEADER;
    if cfg.conf && !Reaches(key.cipher, iv, n) then Failure(CipherFail) else
    var q := if cfg.conf then CryptRange(key.cipher, iv, 0, sp, RTP_HEADER, RTP_HEADER + n) else sp;
    Success(Sub(RestoreProfile(q, h), 0, end))
  }

  /** The packet that the first `end` octets of an authentic packet stand for. */
  function OpenContents(cfg: Config, key: Key, iv: block, sp: seq<octet>, l: Layout, end: nat, inPlace: bool)
    : (r: Result<seq<octet>>)
    requires l.Fits(|sp|) && EncStart(cfg, sp, l, inPlace) <= end <= |sp|
  {
    if !CryptexIn(cfg, sp, l) then OpenPlain(cfg, key, iv, Sub(sp, 0, end), l)
    else if end < l.h + XTN_HEADER then OpenShort(cfg, key, iv, sp, l.h, end)
    else OpenCryptex(cfg, key, iv, Sub(sp, 0, end), l.h, inPlace)
  }

  /** The checks on a packet whose key and index have been found: where its contents end. */
  function Checked(cfg: Config, key: Key, est: nat, sp: seq<octet>, cap: nat, inPlace: bool): (r: Result<nat>)
    requires cfg.Valid() && !cfg.gcm && ValidHeader(sp)
    ensures r.Success? ==> EncStart(cfg, sp, LayoutOf(sp), inPlace) <= r.value <= |sp|
  {
    var s := SeqOf(sp);
    var trailer := cfg.TagOut(s) + cfg.mkiSize;
    if trailer > |sp| || EncStart(cfg, sp, LayoutOf(sp), inPlace) > |sp| - trailer then Failure(ParseErr) else
    var end := |sp| - trailer;
    if cap < end then Failure(BufferSmall) else
    var b := Sub(sp, 0, end);
    if cfg.auth && cfg.TagOut(s) > 0 && !TagMatches(cfg, key, est, s, b, Sub(sp, |sp| - cfg.tagLen, |sp|)) then
      Failure(AuthFail)
    else Success(end)
  }

  /** srtp_unprotect for a packet whose key and index have been found, into a buffer of `cap`
      octets that is the input buffer or another one. */
  function Open(cfg: Config, key: Key, est: nat, sp: seq<octet>, cap: nat, inPlace: bool): (r: Result<seq<octet>>)
    requires cfg.Valid() && !cfg.gcm && ValidHeader(sp)
  {
    var end :- Checked(cfg, key, est, sp, cap, inPlace);
    OpenContents(cfg, key, CmIv(SsrcOf(sp), est), sp, LayoutOf(sp), end, inPlace)
  }

  function IndexError(s: Status): Error {
    match s
    case ReplayOld => ReplayedOld
    case ReplayFail => Replayed
    case _ => PacketIndexOld
  }

  /** The counter that a carrying packet brings, at the start of its tag. */
  function CarriedRoc(cfg: Config, sp: seq<octet>): (r: roc32)
    requires cfg.Valid() && 4 <= cfg.tagLen <= |sp|
  {
    Pow256Values();
    Value(Sub(sp, |sp| - cfg.tagLen, |sp| - cfg.tagLen + 4))
  }

  datatype Received = Received(pkt: seq<octet>, at: PI.Located)

  /** What srtp_unprotect finds out before it touches a cipher: the key, and the place of the packet. */
  function FindPlace(cfg: Config, keys: seq<Key>, st: PI.IndexState, sp: seq<octet>): (r: Result<(nat, PI.Located)>)
    requires cfg.Valid() && !cfg.gcm && st.Valid()
    ensures r.Success? ==> ValidHeader(sp) && r.value.0 < |keys| && r.value.1.Usable()
  {
    if !ValidHeader(sp) then Failure(BadParam) else
    var s := SeqOf(sp);
    var early := PI.Locate(st, s, None);
    if !cfg.Carries(s) && !early.Usable() then Failure(IndexError(early.status)) else
    var k :- SelectKey(cfg.mkiSize, Mkis(keys), sp, Trailing(cfg, s));
    if cfg.Carries(s) && |sp| < RTP_HEADER + cfg.mkiSize + cfg.tagLen then Failure(BadParam) else
    var at := if cfg.Carries(s) then PI.Locate(st, s, Some(CarriedRoc(cfg, sp))) else early;
    if at.Usable() then Success((k, at)) else Failure(IndexError(at.status))
  }

  /** srtp_unprotect on one stream: what the packet is turned into, and where it belongs. */
  function Receive(cfg: Config, keys: seq<Key>, st: PI.IndexState, sp: seq<octet>, cap: nat, inPlace: bool)
    : (r: Result<Received>)
    requires cfg.Valid() && !cfg.gcm && st.Valid()
    ensures r.Success? ==> r.value.at.Usable()
  {
    var (k, at) :- FindPlace(cfg, keys, st, sp);
    var pkt :- Open(cfg, keys[k], at.est, sp, cap, inPlace);
    Success(Received(pkt, at))
  }

  // --- Keystream of received packets --------------------------------------------------------

  /** Octets of keystream from the packet cipher and from the header extension cipher. */
  datatype Spent = Spent(packet: nat, xtn: nat)

  /** Where a cipher at position p of its keystream gets to with n more octets. */
  function Moved(k: CipherKey, iv: block, p: nat, n: nat): (q: nat) {
    if Reaches(k, iv, p + n) then p + n else p
  }

  /** Octets of keystream used on a cryptex packet between buffers: CSRCs first, then the rest. */
  function BetweenUse(conf: bool, k: CipherKey, iv: block, h: nat, end: nat): (n: nat)
    requires RTP_HEADER <= h && h + XTN_HEADER <= end
  {
    var csrcs := h - RTP_HEADER;
    if !Reaches(k, iv, csrcs) then 0
    else if conf then Moved(k, iv, csrcs, end - h - XTN_HEADER)
    else csrcs
  }

  /** Header extension elements first, and the payload if they are in order. */
  function PlainSpent(cfg: Config, key: Key, iv: block, pkt: seq<octet>, l: Layout): (u: Spent)
    requires l.Fits(|pkt|)
  {
    var payload := cfg.conf && XtnStage(cfg.ids, key.xtn, iv, pkt, l).Success?;
    Spent(if payload then Moved(key.cipher, iv, 0, |pkt| - l.start) else 0, XtnUse(key.xtn, iv, pkt, l))
  }

  /** What a packet that passed the checks takes from the ciphers. */
  function ContentsSpent(cfg: Config, key: Key, iv: block, sp: seq<octet>, l: Layout, end: nat, inPlace: bool)
    : (u: Spent)
    requires l.Fits(|sp|) && EncStart(cfg, sp, l, inPlace) <= end <= |sp|
  {
    if !CryptexIn(cfg, sp, l) then PlainSpent(cfg, key, iv, Sub(sp, 0, end), l)
    else if !inPlace then Spent(BetweenUse(cfg.conf, key.cipher, iv, l.h, end), 0)
    else if cfg.conf then Spent(Moved(key.cipher, iv, 0, end - RTP_HEADER - XTN_HEADER), 0)
    else Spent(0, 0)
  }

  function OpenSpent(cfg: Config, key: Key, est: nat, sp: seq<octet>, cap: nat, inPlace: bool): (u: Spent)
    requires cfg.Valid() && !cfg.gcm && ValidHeader(sp)
  {
    match Checked(cfg, key, est, sp, cap, inPlace)
    case Failure(_) => Spent(0, 0)
    case Success(end) => ContentsSpent(cfg, key, CmIv(SsrcOf(sp), est), sp, LayoutOf(sp), end, inPlace)
  }

  /** The packet passes the checks, and its keystream runs out behind the CSRCs, which are decrypted
      on their own when a cryptex packet goes from one buffer to another. */
  predicate StopsAtCsrcs(cfg: Config, key: Key, est: nat, sp: seq<octet>, cap: nat, inPlace: bool)
    requires cfg.Valid() && !cfg.gcm && ValidHeader(sp)
  {
    var l, iv, end := LayoutOf(sp), CmIv(SsrcOf(sp), est), Checked(cfg, key, est, sp, cap, inPlace);
    && cfg.conf && !inPlace && CryptexIn(cfg, sp, l) && l.h > RTP_HEADER && end.Success?
    && Reaches(key.cipher, iv, l.h - RTP_HEADER) && !Reaches(key.cipher, iv, end.value - RTP_HEADER - XTN_HEADER)
  }

  /** The packet passes the checks, its header extension starts with an element that takes keystream,
      and then an element is malformed, or there is not enough keystream for the elements or the payload. */
  predicate StopsAtElements(cfg: Config, key: Key, est: nat, sp: seq<octet>, cap: nat, inPlace: bool)
    requires cfg.Valid() && !cfg.gcm && ValidHeader(sp)
  {
    var l, iv, end := LayoutOf(sp), CmIv(SsrcOf(sp), est), Checked(cfg, key, est, sp, cap, inPlace);
    && end.Success? && !CryptexIn(cfg, sp, l)
    && var b := Sub(sp, 0, end.value);
       && XtnUse(key.xtn, iv, b, l) > 0
       && (XtnStage(cfg.ids, key.xtn, iv, b, l).Failure? || (cfg.conf && !Reaches(key.cipher, iv, end.value - l.start)))
  }

  /** There is a header extension cipher, and it has a keystream; the null cipher has none. */
  predicate HidesElements(key: Key) {
    key.xtn.Some? && key.xtn.value.IcmKey?
  }

  predicate StopsHalfway(cfg: Config, key: Key, est: nat, sp: seq<octet>, cap: nat, inPlace: bool)
    requires cfg.Valid() && !cfg.gcm && ValidHeader(sp)
  {
    || StopsAtCsrcs(cfg, key, est, sp, cap, inPlace)
    || (HidesElements(key) && StopsAtElements(cfg, key, est, sp, cap, inPlace))
  }

  /** A packet that is refused has used keystream of the packet cipher if and only if it stops at the
      CSRCs, and keystream of the header extension cipher if and only if it stops at the elements. */
  lemma RefusedUsesKeystreamIff(cfg: Config, key: Key, est: nat, sp: seq<octet>, cap: nat, inPlace: bool)
    requires cfg.Valid() && !cfg.gcm && ValidHeader(sp)
    ensures var o, u := Open(cfg, key, est, sp, cap, inPlace), OpenSpent(cfg, key, est, sp, cap, inPlace);
      && (o.Failure? && u.packet > 0 <==> StopsAtCsrcs(cfg, key, est, sp, cap, inPlace))
      && (o.Failure? && u.xtn > 0 <==> StopsAtElements(cfg, key, est, sp, cap, inPlace))
  {
    hide ValidHeader, LayoutOf, CmIv, SsrcOf, SeqOf, Reaches, XtnStage, XtnUse, CryptRange, Sub, TagMatches, ProfileAt,
         RestoreProfile;
  }

  // --- Round trip -------------------------------------------------------------------------

  /** Different keys have different MKIs; without MKIs there is one key only. */
  ghost predicate DistinctMkis(mkiSize: nat, mkis: seq<seq<octet>>) {
    && (forall i | 0 <= i < |mkis| :: |mkis[i]| == mkiSize)
    && (forall i, j | 0 <= i < j < |mkis| :: mkis[i] != mkis[j])
  }

  lemma {:induction false} FindMkiFinds(mkis: seq<seq<octet>>, i: nat, from: nat)
    requires from <= i < |mkis| && forall j | from <= j < i :: mkis[j] != mkis[i]
    ensures FindMki(mkis, mkis[i], from) == Some(i)
    decreases i - from
  {
    if from < i { FindMkiFinds(mkis, i, from + 1); }
  }

  /** The receiver looks for the MKI where the sender put it, and finds the sender's key. */
  lemma MkiAgreement(mkiSize: nat, mkis: seq<seq<octet>>, i: nat, body: seq<octet>, trailer: seq<octet>)
    requires DistinctMkis(mkiSize, mkis) && i < |mkis|
    ensures SelectKey(mkiSize, mkis, body + mkis[i] + trailer, |trailer|) == Success(i)
  {
    var sp := body + mkis[i] + trailer;
    if mkiSize == 0 {
      assert mkis[0] == mkis[i];
    } else {
      assert Sub(sp, |body|, |body| + mkiSize) == mkis[i];
      FindMkiFinds(mkis, i, 0);
    }
  }

  lemma ConcatParts(b: seq<octet>, m: seq<octet>, t: seq<octet>)
    ensures var sp := b + m + t;
      && Sub(sp, 0, |b|) == b
      && Sub(sp, |sp| - |t|, |sp|) == t
  {
  }

  /** Appending a trailer keeps the layout. */
  lemma AppendKeepsLayout(pkt: seq<octet>, b: seq<octet>, sp: seq<octet>)
    requires ValidHeader(pkt) && SameLayout(pkt, b) && |b| <= |sp| && Sub(sp, 0, |b|) == b
    ensures SameLayout(pkt, sp) && LayoutOf(pkt).Fits(|b|) && LayoutOf(pkt).Fits(|sp|)
    ensures HasXtn(pkt) ==> ProfileAt(sp, HdrLen(pkt)) == ProfileAt(b, HdrLen(pkt))
  {
    hide Sub, Value, HdrLen, HasXtn, ValidHeader;
    var l := LayoutOf(pkt);
    SubOfSub(sp, 0, |b|, 0, RTP_HEADER);
    if l.x {
      SubOfSub(sp, 0, |b|, l.h + 2, l.h + 4);
      SubOfSub(sp, 0, |b|, l.h, l.h + 2);
    }
  }

  lemma TagFieldMatches(cfg: Config, key: Key, est: nat, s: seqNum, body: seq<octet>)
    requires cfg.Valid() && !cfg.gcm
    ensures TagMatches(cfg, key, est, s, body, Tag(cfg, key, est, s, body))
  {
    var m := key.mac(body + RocOctets(est));
    if cfg.Carries(s) {
      assert Sub(RocOctets(est) + Sub(m, 0, cfg.tagLen - 4), 4, cfg.tagLen) == Sub(m, 0, cfg.tagLen - 4);
    }
  }

  /** The counter in a carrying packet is the sender's. */
  lemma CarriedRocIsSenders(cfg: Config, key: Key, est: nat, s: seqNum, body: seq<octet>, sp: seq<octet>)
    requires cfg.Valid() && !cfg.gcm && cfg.Carries(s) && est < INDEX_MAX
    requires |sp| >= cfg.tagLen && Sub(sp, |sp| - cfg.tagLen, |sp|) == Tag(cfg, key, est, s, body)
    ensures CarriedRoc(cfg, sp) == est / SEQ_MAX
  {
    hide Sub, Value, BigEndian;
    var at := |sp| - cfg.tagLen;
    SubOfSub(sp, at, |sp|, 0, 4);
    Pow256Values();
    ValueOfBigEndian(est / SEQ_MAX, 4);
    TagStartsWithRoc(cfg, key, est, s, body);
  }

  lemma TagStartsWithRoc(cfg: Config, key: Key, est: nat, s: seqNum, body: seq<octet>)
    requires cfg.Valid() && !cfg.gcm && cfg.Carries(s)
    ensures Sub(Tag(cfg, key, est, s, body), 0, 4) == RocOctets(est)
  {
  }

  /** The receiver can tell what the sender did.  Without the confidentiality service a sender does
      not use cryptex, but a receiver takes a packet with a cryptex profile for one that does. */
  predicate Survives(cfg: Config, pkt: seq<octet>)
    requires ValidHeader(pkt)
  {
    cfg.conf || !CryptexIn(cfg, pkt, LayoutOf(pkt))
  }

  function OpenedBody(cfg: Config, key: Key, iv: block, b: seq<octet>, l: Layout,
                      inPlace: bool): (r: Result<seq<octet>>)
    requires l.Fits(|b|)
  {
    if CryptexIn(cfg, b, l) then OpenCryptex(cfg, key, iv, b, l.h, inPlace) else OpenPlain(cfg, key, iv, b, l)
  }

  /** What the receiver makes of the body of a sent packet. */
  lemma OpenBody(cfg: Config, key: Key, iv: block, pkt: seq<octet>, inPlace: bool)
    requires cfg.Valid() && KeyFits(cfg, key) && ValidHeader(pkt) && Protected(cfg, key, iv, pkt).Success?
    ensures var b := Protected(cfg, key, iv, pkt).value;
      OpenedBody(cfg, key, iv, b, LayoutOf(pkt), inPlace) == Success(pkt) <==> Survives(cfg, pkt)
  {
    hide Protected, OpenPlain, OpenCryptex, ProfileAt;
    if cfg.cryptex && cfg.conf && HasXtn(pkt) {
      CryptexRoundTrip(cfg, key, iv, pkt, inPlace);
    } else if cfg.cryptex && cfg.conf {
      NoExtensionRoundTrip(cfg, key, iv, pkt);
    } else {
      PlainRoundTrip(cfg, key, iv, pkt);
      if cfg.cryptex {
        UnchangedBody(cfg, key, iv, pkt);
        if !Survives(cfg, pkt) { ProfileLost(cfg, key, iv, pkt, LayoutOf(pkt).h, inPlace); }
      }
    }
  }

  lemma UnchangedBody(cfg: Config, key: Key, iv: block, pkt: seq<octet>)
    requires cfg.Valid() && KeyFits(cfg, key) && cfg.cryptex && !cfg.conf && ValidHeader(pkt)
    ensures Protected(cfg, key, iv, pkt) == Success(pkt)
  {
    hide ValidHeader, HE.HeaderCrypt, HdrLen, PayloadStart, HasXtn;
  }

  /** The cryptex path always puts another profile into such a packet. */
  lemma ProfileLost(cfg: Config, key: Key, iv: block, pkt: seq<octet>, h: nat, inPlace: bool)
    requires !cfg.conf && RTP_HEADER <= h && h + XTN_HEADER <= |pkt| && IsCryptex(ProfileAt(pkt, h))
    ensures OpenCryptex(cfg, key, iv, pkt, h, inPlace) != Success(pkt)
  {
    hide CryptRange, Reaches, SetProfile, Value, Sub;
    var q := if inPlace then pkt else CryptRange(key.cipher, iv, 0, pkt, RTP_HEADER, h);
    CryptRangeOutside(key.cipher, iv, 0, pkt, RTP_HEADER, h, h, h + 2);
    ProfileAfterSet(q, h, PlainProfile(ProfileAt(q, h)));
  }

  /** A protected packet opens to what was sent exactly if it survives. */
  lemma OpenOfProtect(cfg: Config, key: Key, est: nat, pkt: seq<octet>, slack: seq<octet>, cap: nat, inPlace: bool)
    requires cfg.Valid() && !cfg.gcm && KeyFits(cfg, key) && cap >= |pkt|
    requires ValidHeader(pkt) && |slack| == cfg.TagOut(SeqOf(pkt))
    requires ProtectPacket(cfg, key, est, pkt, slack).Success?
    ensures var sp := ProtectPacket(cfg, key, est, pkt, slack).value;
      && SameLayout(pkt, sp) && ValidHeader(sp)
      && (Open(cfg, key, est, sp, cap, inPlace) == Success(pkt) <==> Survives(cfg, pkt))
  {
    hide Protected, OpenPlain, OpenCryptex, OpenShort, TagMatches, Tag, Sub, ProfileAt,
         SameLayout, CmIv, ValidHeader, LayoutOf, SeqOf, SsrcOf, Survives;
    LayoutFields(pkt);
    var iv, l, s := CmIv(SsrcOf(pkt), est), LayoutOf(pkt), SeqOf(pkt);
    var b := Protected(cfg, key, iv, pkt).value;
    var t := TagField(cfg, key, est, s, b, slack);
    var sp := b + key.mki + t;
    ProtectedKeepsLayout(cfg, key, iv, pkt);
    ConcatParts(b, key.mki, t);
    AppendKeepsLayout(pkt, b, sp);
    SameLayoutFacts(pkt, sp);
    TagFieldMatches(cfg, key, est, s, b);
    OpenBody(cfg, key, iv, pkt, inPlace);
  }

  lemma LayoutFields(pkt: seq<octet>)
    requires ValidHeader(pkt)
    ensures var l := LayoutOf(pkt); |pkt| >= RTP_HEADER && l.h == HdrLen(pkt) && l.x == HasXtn(pkt)
  {
  }

  /** The counter that the receiver reads from a packet. */
  function CarriedBy(cfg: Config, s: seqNum, sp: seq<octet>): (c: Option<roc32>)
    requires cfg.Valid() && !cfg.gcm && |sp| >= cfg.TagOut(s)
  {
    if cfg.Carries(s) then Some(CarriedRoc(cfg, sp)) else None
  }

  /** The SRTP round trip: a receiver with the same settings and keys that puts the packet at
      the sender's index gets back exactly what was sent, whichever key, counter-carrying mode,
      header extension or cryptex setting is in use, in place or between buffers, if and only if
      the packet survives. */
  lemma SrtpRoundTrip(cfg: Config, keys: seq<Key>, i: nat, st: PI.IndexState, est: nat,
                      pkt: seq<octet>, slack: seq<octet>, cap: nat, inPlace: bool, at: PI.Located)
    requires cfg.Valid() && !cfg.gcm && cap >= |pkt|
    requires DistinctMkis(cfg.mkiSize, Mkis(keys)) && i < |keys| && KeyFits(cfg, keys[i])
    requires ValidHeader(pkt) && |slack| == cfg.TagOut(SeqOf(pkt))
    requires ProtectPacket(cfg, keys[i], est, pkt, slack).Success?
    requires st.Valid() && at.Usable() && at.est == est
    requires var sp := ProtectPacket(cfg, keys[i], est, pkt, slack).value;
      at == PI.Locate(st, SeqOf(pkt), CarriedBy(cfg, SeqOf(pkt), sp))
    ensures var sp := ProtectPacket(cfg, keys[i], est, pkt, slack).value;
      Receive(cfg, keys, st, sp, cap, inPlace) == Success(Received(pkt, at)) <==> Survives(cfg, pkt)
  {
    hide Protected, Open, Tag, Sub, SameLayout, CmIv, ValidHeader, SeqOf, SsrcOf, SelectKey, CarriedRoc, PI.Locate,
         Survives;
    LayoutFields(pkt);
    var key, s := keys[i], SeqOf(pkt);
    var b := Protected(cfg, key, CmIv(SsrcOf(pkt), est), pkt).value;
    var t := TagField(cfg, key, est, s, b, slack);
    var sp := b + key.mki + t;
    OpenOfProtect(cfg, key, est, pkt, slack, cap, inPlace);
    SameLayoutFacts(pkt, sp);
    MkiAgreement(cfg.mkiSize, Mkis(keys), i, b, t);
  }

  /** The counter that arrives is the sender's, except that without the authentication service
      no tag is written, and what stands in the output buffer counts. */
  lemma CarriesSendersRoc(cfg: Config, key: Key, est: nat, pkt: seq<octet>, slack: seq<octet>)
    requires cfg.Valid() && !cfg.gcm && est < INDEX_MAX && ValidHeader(pkt)
    requires |slack| == cfg.TagOut(SeqOf(pkt)) && ProtectPacket(cfg, key, est, pkt, slack).Success?
    ensures var s, sp := SeqOf(pkt), ProtectPacket(cfg, key, est, pkt, slack).value;
      && |sp| >= cfg.TagOut(s)
      && (CarriedBy(cfg, s, sp) == (if cfg.Carries(s) then Some(est / SEQ_MAX) else None)
          <==> !cfg.Carries(s) || cfg.auth || Value(Sub(slack, 0, 4)) == est / SEQ_MAX)
  {
    hide Protected, Tag, Sub, CmIv, ValidHeader, SeqOf, SsrcOf, CarriedRoc, Value;
    LayoutFields(pkt);
    var s := SeqOf(pkt);
    var b := Protected(cfg, key, CmIv(SsrcOf(pkt), est), pkt).value;
    var t := TagField(cfg, key, est, s, b, slack);
    ConcatParts(b, key.mki, t);
    if cfg.Carries(s) {
      if cfg.auth { CarriedRocIsSenders(cfg, key, est, s, b, b + key.mki + t); }
      else { CarriedRocIsInSlack(cfg, b + key.mki, slack); }
    }
  }

  lemma CarriedRocIsInSlack(cfg: Config, b: seq<octet>, slack: seq<octet>)
    requires cfg.Valid() && 4 <= cfg.tagLen == |slack|
    ensures CarriedRoc(cfg, b + slack) == Value(Sub(slack, 0, 4))
  {
    assert Sub(b + slack, |b|, |b| + 4) == Sub(slack, 0, 4);
  }

  const MANGLED: seq<octet> := [0x90] + Zeros(11) + [0xc0, 0xde, 0, 0]
  const CRYPTEX_ONLY := Config(false, false, false, 0, 0, RccNone, 1, [], true)

  lemma MangledHeader()
    ensures ValidHeader(MANGLED) && CRYPTEX_ONLY.Valid() && !Survives(CRYPTEX_ONLY, MANGLED)
  {
    var pkt := MANGLED;
    assert Sub(pkt, 14, 16) == [0, 0] && Sub(pkt, 12, 14) == [0xc0, 0xde];
    assert Value([0, 0]) == 0 && Value([0xc0, 0xde]) == 0xc0de;
  }

  /** A packet that does not survive: with cryptex on and the confidentiality service off it is
      sent as it is, and comes back with another profile. */
  lemma CryptexProfileIsMangled(key: Key, est: nat)
    requires KeyFits(CRYPTEX_ONLY, key)
    ensures ValidHeader(MANGLED) && ProtectPacket(CRYPTEX_ONLY, key, est, MANGLED, []) == Success(MANGLED)
    ensures Open(CRYPTEX_ONLY, key, est, MANGLED, 16, true) != Success(MANGLED)
  {
    hide Protected, Open, CmIv, SsrcOf, SeqOf, ValidHeader, Survives;
    var pkt := MANGLED;
    MangledHeader();
    UnchangedBody(CRYPTEX_ONLY, key, CmIv(SsrcOf(pkt), est), pkt);
    assert pkt + key.mki + [] == pkt;
    OpenOfProtect(CRYPTEX_ONLY, key, est, pkt, [], 16, true);
  }

  const BARE: seq<octet> := [0x80] + Zeros(11)
  const COUNTER_ONLY := Config(false, false, false, 0, 10, Rcc2, 1, [], false)

  lemma BareHeader()
    ensures ValidHeader(BARE) && SeqOf(BARE) == 0 && LayoutOf(BARE) == Layout(12, false, 12) && COUNTER_ONLY.Valid()
    ensures Value(Zeros(4)) == 0
  {
    assert Sub(BARE, 2, 4) == [0, 0] && [0, 0][..1] == [0];
    assert Value([0, 0]) == 0;
    var z := Zeros(4);
    assert z[..3][..2] == [0, 0] && z[..3] == [0, 0, 0];
  }

  /** A packet whose counter is not the sender's: number 2^16, in mode 2, without the authentication
      service and from a buffer of zeros, arrives with counter 0 instead of 1. */
  lemma CarriesCounterOfBuffer(key: Key)
    requires KeyFits(COUNTER_ONLY, key)
    ensures ValidHeader(BARE) && COUNTER_ONLY.Carries(SeqOf(BARE)) && COUNTER_ONLY.Valid()
    ensures ProtectPacket(COUNTER_ONLY, key, SEQ_MAX, BARE, Zeros(10)) == Success(BARE + Zeros(10))
    ensures CarriedBy(COUNTER_ONLY, SeqOf(BARE), BARE + Zeros(10)) == Some(0) != Some(SEQ_MAX / SEQ_MAX)
  {
    hide CmIv, SsrcOf, SeqOf, ValidHeader, Value, CarriedRoc;
    BareHeader();
    assert BARE + key.mki + Zeros(10) == BARE + Zeros(10);
    CarriedRocIsInSlack(COUNTER_ONLY, BARE, Zeros(10));
    assert Sub(Zeros(10), 0, 4) == Zeros(4);
  }
}
