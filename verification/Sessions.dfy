/** Sessions as values: streams, the template stream, directions, and what each call of the
    library does to them (srtp/srtp.c). */
module Sessions {
  import opened Results
  import opened Octets
  import opened Replay
  import opened RtcpReplay
  import opened Keystreams
  import opened Ciphers
  import opened RtpPackets
  import opened Cryptex
  import opened SrtpBodies
  import opened SrtpPackets
  import opened AeadPackets
  import opened SrtcpPackets
  import HE = HeaderEncryption
  import PI = PacketIndex

  datatype Direction = Unknown | Sender | Receiver

  type ssrc4 = s: seq<octet> | |s| == 4 witness Zeros(4)

  /** Settings and keys of a stream, in counter mode or GCM. */
  datatype Protection =
    | Cm(cfg: Config, keys: seq<Key>, rtcpCfg: RtcpConfig, rtcpKeys: seq<RtcpKey>)
    | Gcm(cfg: Config, aeadKeys: seq<AeadKey>, rtcpCfg: RtcpConfig, rtcpAeadKeys: seq<RtcpAeadKey>)
  {
    /** There is a key, and all keys fit the settings. */
    ghost predicate Valid() {
      && cfg.Valid() && rtcpCfg.Valid() && cfg.gcm == Gcm? && rtcpCfg.mkiSize == cfg.mkiSize
      && (Cm? ==> 0 < |keys| == |rtcpKeys| && forall i | 0 <= i < |keys| :: KeyFits(cfg, keys[i]))
      && (Cm? ==> forall i | 0 <= i < |rtcpKeys| :: |rtcpKeys[i].mki| == cfg.mkiSize)
      && (Gcm? ==> 0 < |aeadKeys| == |rtcpAeadKeys| && forall i | 0 <= i < |aeadKeys| :: GcmKeysFit(i))
    }

    ghost predicate GcmKeysFit(i: nat)
      requires Gcm? && i < |aeadKeys| == |rtcpAeadKeys|
    {
      && IsAead(aeadKeys[i].aead, cfg.tagLen) && |aeadKeys[i].mki| == cfg.mkiSize
      && (aeadKeys[i].xtn.Some? ==> cfg.ids != [])
      && IsAead(rtcpAeadKeys[i].aead, rtcpCfg.tagLen) && |rtcpAeadKeys[i].mki| == cfg.mkiSize
    }

    function KeyCount(): (n: nat) { if Cm? then |keys| else |aeadKeys| }
  }

  datatype StreamState = StreamState(ssrc: ssrc4, prot: Protection, allowRepeat: bool, st: PI.IndexState, rtcp: Rdb,
                                     dir: Direction) {
    ghost predicate Valid() { prot.Valid() && st.Valid() && rtcp.Valid() }

    /** Nothing was ever sent or received on this stream. */
    ghost predicate Pristine() { Valid() && st.db.Pristine() && st.pendingRoc == 0 && rtcp == Fresh() }
  }

  datatype Session = Session(template: Option<StreamState>, streams: seq<StreamState>) {
    /** The template stays pristine and has a direction from the start. */
    ghost predicate Valid() {
      && (template.Some? ==> template.value.Pristine() && template.value.dir != Unknown)
      && (forall i | 0 <= i < |streams| :: streams[i].Valid())
    }
  }

  // --- Streams ------------------------------------------------------------------------------

  /** srtp_stream_list_get: the first stream with this SSRC, from i on. */
  function FindStream(streams: seq<StreamState>, ssrc: ssrc4, i: nat): (r: Option<nat>)
    requires i <= |streams|
    ensures r.Some? ==> i <= r.value < |streams| && streams[r.value].ssrc == ssrc
    ensures r.Some? ==> forall j | i <= j < r.value :: streams[j].ssrc != ssrc
    ensures r.None? ==> forall j | i <= j < |streams| :: streams[j].ssrc != ssrc
    decreases |streams| - i
  {
    if i == |streams| then None
    else if streams[i].ssrc == ssrc then Some(i)
    else FindStream(streams, ssrc, i + 1)
  }

  /** srtp_stream_clone: the keys and settings of the template with empty replay databases. */
  function Clone(t: StreamState, ssrc: ssrc4): (s: StreamState)
    requires t.Valid()
    ensures s.Pristine() && s.Valid() && s.ssrc == ssrc && s.dir == t.dir
  {
    t.(ssrc := ssrc, st := PI.IndexState(Rdbx(0, ClearBits(|t.st.db.bits|)), 0), rtcp := Fresh())
  }

  /** srtp_get_session_keys */
  function KeyIndex(p: Protection, mki: nat): (r: Result<nat>)
    requires p.Valid()
    ensures r.Success? ==> r.value < p.KeyCount()
  {
    if p.cfg.mkiSize == 0 then Success(0) else if mki >= p.KeyCount() then Failure(BadMki) else Success(mki)
  }

  /** srtp_protect behind the choice of the stream, up to the packet index. */
  function AdmitOn(s: StreamState, mki: nat, pkt: seq<octet>, cap: nat, inPlace: bool): (r: Result<PI.Located>)
    requires s.Valid()
    ensures r.Success? ==> ValidHeader(pkt) && r.value.Usable()
    ensures r.Success? ==> r.value == PI.LocateSend(s.st, SeqOf(pkt), s.allowRepeat)
  {
    var _ :- KeyIndex(s.prot, mki);
    match s.prot
    case Cm(cfg, _, _, _) => Admit(cfg, s.st, s.allowRepeat, pkt, cap)
    case Gcm(cfg, _, _, _) => AdmitAead(cfg, s.st, s.allowRepeat, pkt, cap, inPlace)
  }

  function SendOn(s: StreamState, mki: nat, pkt: seq<octet>, out: seq<octet>, inPlace: bool)
    : (r: (PI.IndexState, Result<seq<octet>>))
    requires s.Valid()
    ensures r.0.Valid()
    ensures var a := AdmitOn(s, mki, pkt, |out|, inPlace);
      if a.Success? then r.0 == PI.Record(s.st, a.value) else r == (s.st, Failure(a.error))
  {
    var k := KeyIndex(s.prot, mki);
    if k.Failure? then (s.st, Failure(k.error)) else
    match s.prot
    case Cm(cfg, keys, _, _) => Send(cfg, keys[k.value], s.st, s.allowRepeat, pkt, out)
    case Gcm(cfg, keys, _, _) =>
      assert s.prot.GcmKeysFit(k.value);
      SendAead(cfg, keys[k.value], s.st, s.allowRepeat, pkt, |out|, inPlace)
  }

  lemma AllAead(p: Protection)
    requires p.Valid() && p.Gcm?
    ensures forall k | k in p.aeadKeys :: IsAead(k.aead, p.cfg.tagLen)
  {
    forall k | k in p.aeadKeys
      ensures IsAead(k.aead, p.cfg.tagLen)
    {
      var i :| 0 <= i < |p.aeadKeys| && p.aeadKeys[i] == k;
      assert p.GcmKeysFit(i);
    }
  }

  /** srtp_unprotect behind the choice of the stream. */
  function ReceiveOn(s: StreamState, sp: seq<octet>, cap: nat, inPlace: bool): (r: Result<Received>)
    requires s.Valid()
    ensures r.Success? ==> r.value.at.Usable() && ValidHeader(sp)
    ensures r.Success? ==> exists carried :: r.value.at == PI.Locate(s.st, SeqOf(sp), carried)
  {
    match s.prot
    case Cm(cfg, keys, _, _) => Receive(cfg, keys, s.st, sp, cap, inPlace)
    case Gcm(cfg, keys, _, _) =>
      AllAead(s.prot);
      ReceiveAead(cfg, keys, s.st, sp, cap, inPlace)
  }

  function SendRtcpOn(s: StreamState, mki: nat, pkt: seq<octet>, cap: nat): (r: (Rdb, Result<seq<octet>>))
    requires s.Valid()
    ensures r.0.Valid()
  {
    var k := KeyIndex(s.prot, mki);
    if k.Failure? then (s.rtcp, Failure(k.error)) else
    match s.prot
    case Cm(_, _, cfg, keys) => SendRtcp(cfg, keys[k.value], s.rtcp, pkt, cap)
    case Gcm(_, _, cfg, keys) => SendRtcpAead(cfg, keys[k.value], s.rtcp, pkt, cap)
  }

  function ReceiveRtcpOn(s: StreamState, sp: seq<octet>, cap: nat): (r: Result<(seq<octet>, rtcpIndex)>)
    requires s.Valid()
    ensures r.Success? ==> CheckRtcp(s.rtcp, r.value.1) == Ok
  {
    match s.prot
    case Cm(_, _, cfg, keys) => ReceiveRtcp(cfg, keys, s.rtcp, sp, cap)
    case Gcm(_, _, cfg, keys) => ReceiveRtcpAead(cfg, keys, s.rtcp, sp, cap)
  }

  // --- Calls on a session -------------------------------------------------------------------

  /** The stream to send on: an unknown SSRC gets a new stream from the template, and a
      stream without direction becomes a sender. */
  function ForSending(s: Session, ssrc: ssrc4): (r: Result<(Session, nat)>)
    requires s.Valid()
    ensures r.Success? ==>
      var (t, i) := r.value;
      t.Valid() && i < |t.streams| && t.streams[i].ssrc == ssrc && t.template == s.template
  {
    match FindStream(s.streams, ssrc, 0)
    case Some(i) =>
      if s.streams[i].dir == Receiver then Failure(DirectionMismatch)
      else Success((s.(streams := s.streams[i := s.streams[i].(dir := Sender)]), i))
    case None =>
      if s.template.None? || s.template.value.dir == Receiver then Failure(NoCtx)
      else Success((s.(streams := s.streams + [Clone(s.template.value, ssrc).(dir := Sender)]), |s.streams|))
  }

  /** srtp_protect */
  function Protect(s: Session, mki: nat, pkt: seq<octet>, out: seq<octet>,
                   inPlace: bool): (r: (Session, Result<seq<octet>>))
    requires s.Valid()
    ensures r.0.Valid()
  {
    if !ValidHeader(pkt) then (s, Failure(BadParam)) else
    match ForSending(s, SsrcOf(pkt))
    case Failure(e) => (s, Failure(e))
    case Success((t, i)) =>
      var sent := SendOn(t.streams[i], mki, pkt, out, inPlace);
      (t.(streams := t.streams[i := t.streams[i].(st := sent.0)]), sent.1)
  }

  /** srtp_protect_rtcp */
  function ProtectControl(s: Session, mki: nat, pkt: seq<octet>, cap: nat): (r: (Session, Result<seq<octet>>))
    requires s.Valid()
    ensures r.0.Valid()
  {
    if |pkt| < RTCP_HEADER then (s, Failure(BadParam)) else
    match ForSending(s, RtcpSsrc(pkt))
    case Failure(e) => (s, Failure(e))
    case Success((t, i)) =>
      var sent := SendRtcpOn(t.streams[i], mki, pkt, cap);
      (t.(streams := t.streams[i := t.streams[i].(rtcp := sent.0)]), sent.1)
  }

  /** Where a packet from this SSRC is to be received: on its stream, or provisionally on the
      template. */
  datatype Place = On(i: nat) | Provisional

  function ForReceiving(s: Session, ssrc: ssrc4): (r: Result<Place>)
    ensures r.Success? && r.value.On? ==> r.value.i < |s.streams| && s.streams[r.value.i].ssrc == ssrc
    ensures r.Success? && r.value.Provisional? ==> s.template.Some?
  {
    match FindStream(s.streams, ssrc, 0)
    case Some(i) => if s.streams[i].dir == Sender then Failure(DirectionMismatch) else Success(On(i))
    case None => if s.template.None? || s.template.value.dir == Sender then Failure(NoCtx) else Success(Provisional)
  }

  function StreamAt(s: Session, p: Place): (r: StreamState)
    requires s.Valid() && (p.On? ==> p.i < |s.streams|) && (p.Provisional? ==> s.template.Some?)
    ensures r.Valid()
  {
    if p.On? then s.streams[p.i] else s.template.value
  }

  /** The accepted packet's stream after it was put on record; a provisional stream becomes a
      stream of its own. */
  function Accept(s: Session, p: Place, ssrc: ssrc4, st: PI.IndexState, rtcp: Rdb): (r: Session)
    requires s.Valid() && (p.On? ==> p.i < |s.streams|) && (p.Provisional? ==> s.template.Some?)
    requires st.Valid() && rtcp.Valid()
    ensures r.Valid() && r.template == s.template
  {
    if p.On? then
      var x := s.streams[p.i];
      s.(streams := s.streams[p.i := x.(st := st, rtcp := rtcp, dir := if x.dir == Unknown then Receiver else x.dir)])
    else
      s.(streams := s.streams + [Clone(s.template.value, ssrc).(st := st, rtcp := rtcp)])
  }

  /** srtp_unprotect */
  function Unprotect(s: Session, sp: seq<octet>, cap: nat, inPlace: bool): (r: (Session, Result<seq<octet>>))
    requires s.Valid()
    ensures r.0.Valid()
  {
    if !ValidHeader(sp) then (s, Failure(BadParam)) else
    var p := ForReceiving(s, SsrcOf(sp));
    if p.Failure? then (s, Failure(p.error)) else
    var x := StreamAt(s, p.value);
    match ReceiveOn(x, sp, cap, inPlace)
    case Failure(e) => (s, Failure(e))
    case Success(got) => (Accept(s, p.value, SsrcOf(sp), PI.Record(x.st, got.at), x.rtcp), Success(got.pkt))
  }

  /** srtp_unprotect_rtcp */
  function UnprotectControl(s: Session, sp: seq<octet>, cap: nat): (r: (Session, Result<seq<octet>>))
    requires s.Valid()
    ensures r.0.Valid()
  {
    if |sp| < RTCP_HEADER + RTCP_TRAILER then (s, Failure(BadParam)) else
    var p := ForReceiving(s, RtcpSsrc(sp));
    if p.Failure? then (s, Failure(p.error)) else
    var x := StreamAt(s, p.value);
    match ReceiveRtcpOn(x, sp, cap)
    case Failure(e) => (s, Failure(e))
    case Success((pkt, i)) => (Accept(s, p.value, RtcpSsrc(sp), x.st, AddRtcp(x.rtcp, i)), Success(pkt))
  }

  /** srtp_stream_set_roc */
  function SetRoc(s: Session, ssrc: ssrc4, roc: roc32): (r: Session)
    requires s.Valid()
    ensures r.Valid()
  {
    match FindStream(s.streams, ssrc, 0)
    case None => s
    case Some(i) => s.(streams := s.streams[i := s.streams[i].(st := s.streams[i].st.(pendingRoc := roc))])
  }

  /** On a pristine stream the estimate is the sequence number itself, which is what the
      library uses for provisional streams without looking at the template's database. */
  lemma PristineEstimate(s: StreamState, seqNo: seqNum)
    requires s.Pristine()
    ensures PI.Locate(s.st, seqNo, None) == PI.Located(Ok, seqNo, seqNo)
  {
  }

  /** srtp_stream_remove */
  function RemoveStream(s: Session, ssrc: ssrc4): (r: Session)
    requires s.Valid()
    ensures r.Valid()
  {
    match FindStream(s.streams, ssrc, 0)
    case None => s
    case Some(i) => s.(streams := s.streams[..i] + s.streams[i + 1..])
  }

  /** What re-keying makes of a stream: a clone of the old template becomes a clone of the new
      one that keeps its packet index and its RTCP database; the replay window starts empty and
      a pending rollover counter is dropped. */
  function Rekey(x: StreamState, cloned: bool, t: StreamState): (r: StreamState)
    requires x.Valid() && t.Valid()
    ensures r.Valid() && r.ssrc == x.ssrc && r.st.db.index == x.st.db.index && r.rtcp == x.rtcp
  {
    if !cloned then x
    else Clone(t, x.ssrc).(st := PI.IndexState(Rdbx(x.st.db.index, ClearBits(|t.st.db.bits|)), 0), rtcp := x.rtcp)
  }

  // --- Trailer lengths ----------------------------------------------------------------------

  /** stream_get_protect_trailer_length */
  function StreamTrailer(s: StreamState, rtp: bool, mki: nat): (r: Result<nat>)
    requires s.Valid()
  {
    var _ :- KeyIndex(s.prot, mki);
    var cfg := s.prot.cfg;
    var tag := if rtp then cfg.tagLen + (if cfg.rcc == Rcc3 then 4 else 0) else s.prot.rtcpCfg.tagLen + RTCP_TRAILER;
    Success(cfg.mkiSize + tag)
  }

  /** The longest of what was found so far and the trailer of one more stream. */
  function Longer(found: Option<nat>, t: Result<nat>): (r: Option<nat>) {
    if t.Failure? then found
    else if found.None? || t.value > found.value then Some(t.value)
    else found
  }

  function LongestTrailer(s: Session, rtp: bool, mki: nat, n: nat): (r: Option<nat>)
    requires s.Valid() && n <= |s.streams|
  {
    if n > 0 then Longer(LongestTrailer(s, rtp, mki, n - 1), StreamTrailer(s.streams[n - 1], rtp, mki))
    else if s.template.None? then None
    else
      var t := StreamTrailer(s.template.value, rtp, mki);
      Some(if t.Success? then t.value else 0)
  }

  /** get_protect_trailer_length */
  function TrailerLength(s: Session, rtp: bool, mki: nat): (r: Result<nat>)
    requires s.Valid()
  {
    match LongestTrailer(s, rtp, mki, |s.streams|)
    case None => Failure(BadParam)
    case Some(n) => Success(n)
  }

  lemma {:induction false} LongestCovers(s: Session, rtp: bool, mki: nat, n: nat, i: nat)
    requires s.Valid() && i < n <= |s.streams| && StreamTrailer(s.streams[i], rtp, mki).Success?
    ensures var l := LongestTrailer(s, rtp, mki, n); l.Some? && StreamTrailer(s.streams[i], rtp, mki).value <= l.value
  {
    hide StreamTrailer, StreamState.Valid, StreamState.Pristine;
    if i < n - 1 { LongestCovers(s, rtp, mki, n - 1, i); }
  }

  lemma {:induction false} LongestCoversTemplate(s: Session, rtp: bool, mki: nat, n: nat)
    requires s.Valid() && n <= |s.streams| && s.template.Some? && StreamTrailer(s.template.value, rtp, mki).Success?
    ensures var l := LongestTrailer(s, rtp, mki, n);
      l.Some? && StreamTrailer(s.template.value, rtp, mki).value <= l.value
  {
    hide StreamTrailer, StreamState.Valid, StreamState.Pristine;
    if n > 0 { LongestCoversTemplate(s, rtp, mki, n - 1); }
  }

  /** The transforms themselves never find the buffer too small. */
  lemma ProtectedErrors(cfg: Config, key: Key, iv: block, pkt: seq<octet>)
    requires ValidHeader(pkt)
    ensures Protected(cfg, key, iv, pkt) != Failure(BufferSmall)
  {
    hide ValidHeader, ProfileAt, CryptRange, Reaches, HE.HeaderCrypt, HdrLen, Cc, HasXtn, PayloadStart;
  }

  lemma SealErrors(cfg: Config, key: AeadKey, est: nat, pkt: seq<octet>, inPlace: bool)
    requires cfg.Valid() && ValidHeader(pkt) && IsAead(key.aead, cfg.tagLen)
    ensures SealBody(cfg, key, est, pkt, inPlace) != Failure(BufferSmall)
  {
    hide ValidHeader, ProfileAt, HE.HeaderCrypt, HdrLen, Cc, HasXtn, PayloadStart, SealFrom, XtnFirst, CsrcFirst,
         AeadIv, CmIv, IsAead;
  }

  lemma CmFits(cfg: Config, key: Key, st: PI.IndexState, allowRepeat: bool, pkt: seq<octet>, out: seq<octet>)
    requires cfg.Valid() && !cfg.gcm && st.Valid() && KeyFits(cfg, key) && |out| >= |pkt| + cfg.mkiSize + cfg.tagLen
    ensures var r := Send(cfg, key, st, allowRepeat, pkt, out).1;
      r != Failure(BufferSmall) && (r.Success? ==> |r.value| <= |pkt| + cfg.mkiSize + cfg.tagLen)
  {
    hide ValidHeader, SeqOf, SsrcOf, Protected, PI.LocateSend, PI.Record, Cc, HasXtn, Tag, CmIv, Sub;
    match Admit(cfg, st, allowRepeat, pkt, |out|)
    case Failure(e) =>
    case Success(l) => ProtectedErrors(cfg, key, CmIv(SsrcOf(pkt), l.est), pkt) by { LayoutFields(pkt); }
  }

  lemma GcmFits(cfg: Config, key: AeadKey, st: PI.IndexState, allowRepeat: bool, pkt: seq<octet>, cap: nat,
                inPlace: bool)
    requires cfg.Valid() && cfg.gcm && st.Valid() && IsAead(key.aead, cfg.tagLen) && |key.mki| == cfg.mkiSize
    requires cap >= |pkt| + cfg.mkiSize + cfg.tagLen + if cfg.rcc == Rcc3 then 4 else 0
    ensures var r := SendAead(cfg, key, st, allowRepeat, pkt, cap, inPlace).1;
      && r != Failure(BufferSmall)
      && (r.Success? ==> |r.value| <= |pkt| + cfg.mkiSize + cfg.tagLen + if cfg.rcc == Rcc3 then 4 else 0)
  {
    hide ValidHeader, SeqOf, SealBody, PI.LocateSend, PI.Record, Cc, HasXtn, RocOctets, IsAead;
    match AdmitAead(cfg, st, allowRepeat, pkt, cap, inPlace)
    case Failure(e) =>
    case Success(l) => SealErrors(cfg, key, l.est, pkt, inPlace);
  }

  lemma SendFits(s: StreamState, mki: nat, pkt: seq<octet>, out: seq<octet>, inPlace: bool)
    requires s.Valid() && StreamTrailer(s, true, mki).Success? && |out| >= |pkt| + StreamTrailer(s, true, mki).value
    ensures var r := SendOn(s, mki, pkt, out, inPlace).1;
      r != Failure(BufferSmall) && (r.Success? ==> |r.value| <= |pkt| + StreamTrailer(s, true, mki).value)
  {
    hide Send, SendAead, Admit, AdmitAead, IsAead;
    var k := KeyIndex(s.prot, mki).value;
    match s.prot
    case Cm(cfg, keys, _, _) => CmFits(cfg, keys[k], s.st, s.allowRepeat, pkt, out);
    case Gcm(cfg, keys, _, _) =>
      assert s.prot.GcmKeysFit(k);
      GcmFits(cfg, keys[k], s.st, s.allowRepeat, pkt, |out|, inPlace);
  }

  /** A buffer that offers the reported trailer length is never too small, for any packet of any
      stream, and no packet grows by more than that. */
  lemma TrailerIsEnough(s: Session, mki: nat, pkt: seq<octet>, out: seq<octet>, inPlace: bool)
    requires s.Valid() && TrailerLength(s, true, mki).Success? && |out| >= |pkt| + TrailerLength(s, true, mki).value
    ensures var r := Protect(s, mki, pkt, out, inPlace).1;
      r != Failure(BufferSmall) && (r.Success? ==> |r.value| <= |pkt| + TrailerLength(s, true, mki).value)
  {
    hide ValidHeader, SsrcOf, SendOn, StreamTrailer, StreamState.Pristine, LongestTrailer, KeyIndex, Clone;
    if ValidHeader(pkt) {
      LayoutFields(pkt);
      if ForSending(s, SsrcOf(pkt)).Success? {
        var (t, i) := ForSending(s, SsrcOf(pkt)).value;
        var x := t.streams[i];
        SameTrailer(s, SsrcOf(pkt), mki);
        if KeyIndex(x.prot, mki).Success? {
          SendFits(x, mki, pkt, out, inPlace);
        } else {
          BadKeyIndex(x, mki, pkt, out, inPlace);
        }
      }
    }
  }

  lemma BadKeyIndex(x: StreamState, mki: nat, pkt: seq<octet>, out: seq<octet>, inPlace: bool)
    requires x.Valid() && KeyIndex(x.prot, mki).Failure?
    ensures SendOn(x, mki, pkt, out, inPlace).1 == Failure(BadMki)
  {
    hide Send, SendAead;
  }

  /** The stream that is chosen for sending has a trailer that the session's length covers. */
  lemma SameTrailer(s: Session, ssrc: ssrc4, mki: nat)
    requires s.Valid() && ForSending(s, ssrc).Success? && TrailerLength(s, true, mki).Success?
    ensures var (t, i) := ForSending(s, ssrc).value;
      t.streams[i].Valid() && (KeyIndex(t.streams[i].prot, mki).Success? ==>
        && StreamTrailer(t.streams[i], true, mki).Success?
        && StreamTrailer(t.streams[i], true, mki).value <= TrailerLength(s, true, mki).value)
  {
    hide StreamState.Pristine, LongestTrailer;
    match FindStream(s.streams, ssrc, 0)
    case Some(i) =>
      if KeyIndex(s.streams[i].prot, mki).Success? { LongestCovers(s, true, mki, |s.streams|, i); }
    case None =>
      if KeyIndex(s.template.value.prot, mki).Success? { LongestCoversTemplate(s, true, mki, |s.streams|); }
  }

  /** On a control packet the reported length is exact. */
  lemma ControlGrowsByTrailer(s: StreamState, mki: nat, pkt: seq<octet>, cap: nat)
    requires s.Valid() && StreamTrailer(s, false, mki).Success?
    ensures var r, n := SendRtcpOn(s, mki, pkt, cap).1, |pkt| + StreamTrailer(s, false, mki).value;
      (r == Failure(BufferSmall) ==> cap < n) && (r.Success? ==> |r.value| == n <= cap)
  {
    hide Trailer, RtcpAeadIv, RtcpIv, CryptRange, Reaches, IsAead, Sub;
    var k := KeyIndex(s.prot, mki).value;
    if s.prot.Gcm? && |pkt| >= RTCP_HEADER {
      assert s.prot.GcmKeysFit(k);
      var key, at := s.prot.rtcpAeadKeys[k], EncryptedFrom(s.prot.rtcpCfg.conf, |pkt|);
      var i := if Expired(s.rtcp) then 0 else s.rtcp.start + 1;
      SealedLength(key.aead, s.prot.rtcpCfg.tagLen, RtcpAeadIv(key.salt, RtcpSsrc(pkt), i),
                 Sub(pkt, 0, at) + Trailer(s.prot.rtcpCfg.conf, i), Sub(pkt, at, |pkt|));
    }
  }
}
