/** Two sessions and a network between them: what srtp_protect sends on one and srtp_unprotect
    makes of it on the other, when packets get lost, repeated and reordered on the way. */
module Delivery {
  import opened Results
  import opened Octets
  import opened Replay
  import opened RtpPackets
  import opened SrtpBodies
  import opened SrtpPackets
  import opened AeadPackets
  import opened Sessions
  import opened SessionRuns
  import RtcpReplay
  import PI = PacketIndex

  /** A packet on its way: its SSRC and index, the packet, and what was sent for it. */
  datatype Parcel = Parcel(ssrc: ssrc4, est: nat, pkt: seq<octet>, wire: seq<octet>)

  // --- One packet ---------------------------------------------------------------------------

  ghost predicate WrappedCm(cfg: Config, keys: seq<Key>, m: Parcel, i: nat, slack: seq<octet>)
    requires cfg.Valid() && !cfg.gcm && ValidHeader(m.pkt)
  {
    && i < |keys| && |slack| == cfg.TagOut(SeqOf(m.pkt))
    && ProtectPacket(cfg, keys[i], m.est, m.pkt, slack) == Success(m.wire)
  }

  ghost predicate WrappedGcm(cfg: Config, keys: seq<AeadKey>, m: Parcel, i: nat, inPlace: bool)
    requires cfg.Valid() && cfg.gcm && ValidHeader(m.pkt)
  {
    && i < |keys| && IsAead(keys[i].aead, cfg.tagLen)
    && ProtectAead(cfg, keys[i], m.est, m.pkt, inPlace) == Success(m.wire)
  }

  /** The packet was protected under one of the keys. */
  ghost predicate Wrapped(p: Protection, m: Parcel)
    requires p.Valid()
  {
    && ValidHeader(m.pkt) && m.ssrc == SsrcOf(m.pkt) && m.est < INDEX_MAX && m.est % SEQ_MAX == SeqOf(m.pkt)
    && match p
       case Cm(cfg, keys, _, _) => exists i: nat, slack :: WrappedCm(cfg, keys, m, i, slack)
       case Gcm(cfg, keys, _, _) => exists i: nat, inPlace :: WrappedGcm(cfg, keys, m, i, inPlace)
  }

  /** Whatever a stream sends is wrapped under its keys, at the index it was admitted to. */
  lemma SentIsWrapped(x: StreamState, mki: nat, pkt: seq<octet>, out: seq<octet>, inPlace: bool)
    requires x.Valid() && SendOn(x, mki, pkt, out, inPlace).1.Success?
    ensures AdmitOn(x, mki, pkt, |out|, inPlace).Success?
    ensures var est := AdmitOn(x, mki, pkt, |out|, inPlace).value.est;
      Wrapped(x.prot, Parcel(SsrcOf(pkt), est, pkt, SendOn(x, mki, pkt, out, inPlace).1.value))
  {
    hide ValidHeader, SeqOf, SsrcOf, ProtectPacket, ProtectAead, PI.LocateSend, PI.Record, IsAead, Cc, HasXtn;
    var k := KeyIndex(x.prot, mki).value;
    var l := AdmitOn(x, mki, pkt, |out|, inPlace).value;
    LayoutFields(pkt);
    var m := Parcel(SsrcOf(pkt), l.est, pkt, SendOn(x, mki, pkt, out, inPlace).1.value);
    PI.SentAtSequenceNumber(x.st, SeqOf(pkt), x.allowRepeat);
    match x.prot
    case Cm(cfg, keys, _, _) =>
      var at := |pkt| + cfg.mkiSize;
      assert WrappedCm(cfg, keys, m, k, Sub(out, at, at + cfg.TagOut(SeqOf(pkt))));
    case Gcm(cfg, keys, _, _) =>
      assert x.prot.GcmKeysFit(k);
      assert WrappedGcm(cfg, keys, m, k, inPlace);
  }

  /** Settings under which packets arrive: MKIs tell the keys apart, and a carried counter is
      authenticated. */
  ghost predicate Telling(p: Protection)
    requires p.Valid()
  {
    match p
    case Cm(cfg, keys, _, _) => DistinctMkis(cfg.mkiSize, Mkis(keys)) && (cfg.rcc == RccNone || cfg.auth)
    case Gcm(cfg, keys, _, _) => DistinctMkis(cfg.mkiSize, AeadMkis(keys))
  }

  /** There is room for the packet, and it survives the use of cryptex. */
  ghost predicate Fits(p: Protection, pkt: seq<octet>, cap: nat, inPlace: bool)
    requires p.Valid() && ValidHeader(pkt)
  {
    cap >= |pkt| && if p.Cm? then Survives(p.cfg, pkt) else AeadSurvives(p.cfg, pkt, inPlace)
  }

  /** The receiver can tell the index of the packet: it is near, or the packet says so. */
  ghost predicate Reachable(cfg: Config, index: nat, m: Parcel)
    requires cfg.Valid() && ValidHeader(m.pkt)
  {
    cfg.Carries(SeqOf(m.pkt)) || PI.Near(index, m.est)
  }

  ghost predicate New(st: PI.IndexState, seen: set<nat>, e: nat) {
    e !in seen && e > st.db.index - |st.db.bits|
  }

  /** What a stream makes of a packet that arrives. */
  ghost predicate Handled(st: PI.IndexState, seen: set<nat>, m: Parcel, r: Result<Received>) {
    if New(st, seen, m.est) then
      r.Success? && r.value.pkt == m.pkt && r.value.at.est == m.est == PI.TrueIndex(st, r.value.at)
    else r.Failure?
  }

  lemma HandledCm(x: StreamState, seen: set<nat>, m: Parcel, cap: nat, inPlace: bool)
    requires x.Valid() && x.prot.Cm? && Wrapped(x.prot, m) && Telling(x.prot) && Fits(x.prot, m.pkt, cap, inPlace)
    requires PI.Tracks(x.st.db, seen) && x.st.pendingRoc == 0 && Reachable(x.prot.cfg, x.st.db.index, m)
    ensures Handled(x.st, seen, m, Receive(x.prot.cfg, x.prot.keys, x.st, m.wire, cap, inPlace))
    ensures SameLayout(m.pkt, m.wire) && ValidHeader(m.wire)
  {
    hide ProtectPacket, Open, ValidHeader, SeqOf, PI.Locate, Survives, SelectKey, CarriedRoc, PI.Tracks, SameLayout,
         PI.Near;
    var cfg, keys := x.prot.cfg, x.prot.keys;
    var i: nat, slack :| WrappedCm(cfg, keys, m, i, slack);
    LayoutFields(m.pkt);
    CarriesSendersRoc(cfg, keys[i], m.est, m.pkt, slack);
    var carried := CarriedBy(cfg, SeqOf(m.pkt), m.wire);
    PI.LocatesIffNew(x.st, seen, m.est, carried);
    OpenOfProtect(cfg, keys[i], m.est, m.pkt, slack, cap, inPlace);
    SameLayoutFacts(m.pkt, m.wire);
    var at := PI.Locate(x.st, SeqOf(m.pkt), carried);
    if at.Usable() { SrtpRoundTrip(cfg, keys, i, x.st, m.est, m.pkt, slack, cap, inPlace, at); }
  }

  lemma HandledGcm(x: StreamState, seen: set<nat>, m: Parcel, cap: nat, inPlace: bool)
    requires x.Valid() && x.prot.Gcm? && Wrapped(x.prot, m) && Telling(x.prot) && Fits(x.prot, m.pkt, cap, inPlace)
    requires PI.Tracks(x.st.db, seen) && x.st.pendingRoc == 0 && Reachable(x.prot.cfg, x.st.db.index, m)
    requires forall k | k in x.prot.aeadKeys :: IsAead(k.aead, x.prot.cfg.tagLen)
    ensures Handled(x.st, seen, m, ReceiveAead(x.prot.cfg, x.prot.aeadKeys, x.st, m.wire, cap, inPlace))
    ensures SameLayout(m.pkt, m.wire) && ValidHeader(m.wire)
  {
    hide OpenAead, SealBody, ValidHeader, SeqOf, PI.Locate, AeadSurvives, SelectKey, RocAtEnd, PI.Tracks, SameLayout,
         PI.Near, IsAead, RocOctets;
    var cfg, keys := x.prot.cfg, x.prot.aeadKeys;
    var i: nat, tx :| WrappedGcm(cfg, keys, m, i, tx);
    assert x.prot.GcmKeysFit(i);
    LayoutFields(m.pkt);
    var s := SeqOf(m.pkt);
    PI.LocatesIffNew(x.st, seen, m.est, Carried(cfg, s, m.est));
    OpenOfProtectAead(cfg, keys[i], m.est, m.pkt, tx, cap, inPlace);
    SameLayoutFacts(m.pkt, m.wire);
    var at := PI.Locate(x.st, s, Carried(cfg, s, m.est));
    if at.Usable() {
      AeadRoundTrip(cfg, keys, i, x.st, m.est, m.pkt, tx, cap, inPlace, at);
    } else if cfg.Carries(s) {
      RocIsAtEnd(SealBody(cfg, keys[i], m.est, m.pkt, tx).value + keys[i].mki, m.est);
    }
  }

  /** A stream hands up exactly what was sent if the packet is new to it, and else refuses it. */
  lemma StreamHandles(x: StreamState, seen: set<nat>, m: Parcel, cap: nat, inPlace: bool)
    requires x.Valid() && Wrapped(x.prot, m) && Telling(x.prot) && Fits(x.prot, m.pkt, cap, inPlace)
    requires PI.Tracks(x.st.db, seen) && x.st.pendingRoc == 0 && Reachable(x.prot.cfg, x.st.db.index, m)
    ensures Handled(x.st, seen, m, ReceiveOn(x, m.wire, cap, inPlace))
    ensures ValidHeader(m.wire) && SsrcOf(m.wire) == m.ssrc
  {
    hide Wrapped, Telling, Fits, Reachable, Handled, PI.Tracks, Receive, ReceiveAead, ValidHeader, SameLayout, SeqOf,
         SsrcOf, IsAead;
    WrappedFacts(x.prot, m);
    if x.prot.Cm? {
      HandledCm(x, seen, m, cap, inPlace);
    } else {
      AllAead(x.prot);
      HandledGcm(x, seen, m, cap, inPlace);
    }
    SameLayoutFacts(m.pkt, m.wire);
  }

  lemma WrappedFacts(p: Protection, m: Parcel)
    requires p.Valid() && Wrapped(p, m)
    ensures ValidHeader(m.pkt) && |m.pkt| >= RTP_HEADER && SsrcOf(m.pkt) == m.ssrc
  {
  }

  // --- What serves an SSRC ------------------------------------------------------------------

  /** Settings and keys for the packets of an SSRC: those of its stream, or of the template. */
  ghost function Serving(s: Session, ssrc: ssrc4): (r: Option<Protection>) {
    match FindStream(s.streams, ssrc, 0)
    case Some(i) => Some(s.streams[i].prot)
    case None => if s.template.Some? then Some(s.template.value.prot) else None
  }

  /** The newest index of an SSRC. */
  ghost function Newest(s: Session, ssrc: ssrc4): (n: nat) {
    match FindStream(s.streams, ssrc, 0)
    case Some(i) => s.streams[i].st.db.index
    case None => 0
  }

  /** How many indices back from the newest one its window reaches. */
  ghost function Window(s: Session, ssrc: ssrc4): (n: nat) {
    match FindStream(s.streams, ssrc, 0)
    case Some(i) => |s.streams[i].st.db.bits|
    case None => if s.template.Some? then |s.template.value.st.db.bits| else 0
  }

  ghost predicate ServesAlike(s: Session, t: Session) {
    forall ssrc :: Serving(s, ssrc) == Serving(t, ssrc)
  }

  lemma UpdateServesAlike(s: Session, i: nat, x: StreamState)
    requires i < |s.streams| && x.ssrc == s.streams[i].ssrc && x.prot == s.streams[i].prot
    ensures ServesAlike(s, s.(streams := s.streams[i := x]))
  {
    var t := s.streams[i := x];
    forall ssrc
      ensures Serving(s, ssrc) == Serving(s.(streams := t), ssrc)
    {
      SameFind(s.streams, t, ssrc);
    }
  }

  lemma SameFind(a: seq<StreamState>, b: seq<StreamState>, ssrc: ssrc4)
    requires |a| == |b| && forall j | 0 <= j < |a| :: a[j].ssrc == b[j].ssrc
    ensures FindStream(a, ssrc, 0) == FindStream(b, ssrc, 0)
  {
    var i, j := FindStream(a, ssrc, 0), FindStream(b, ssrc, 0);
    if i.Some? && j.Some? { assert i.value == j.value; }
  }

  lemma AppendServesAlike(s: Session, x: StreamState)
    requires FindStream(s.streams, x.ssrc, 0).None? && s.template.Some? && x.prot == s.template.value.prot
    ensures ServesAlike(s, s.(streams := s.streams + [x]))
  {
    var t := s.streams + [x];
    forall ssrc
      ensures Serving(s, ssrc) == Serving(s.(streams := t), ssrc)
    {
      FindInAppended(s.streams, x, ssrc);
    }
  }

  lemma FindInAppended(a: seq<StreamState>, x: StreamState, ssrc: ssrc4)
    ensures FindStream(a + [x], ssrc, 0) ==
      if FindStream(a, ssrc, 0).Some? then FindStream(a, ssrc, 0) else if x.ssrc == ssrc then Some(|a|) else None
  {
    var b := a + [x];
    var i, j := FindStream(a, ssrc, 0), FindStream(b, ssrc, 0);
    if i.Some? { assert b[i.value].ssrc == ssrc; }
    if j.Some? && j.value < |a| { assert a[j.value].ssrc == ssrc; }
    if i.None? && x.ssrc == ssrc { assert b[|a|].ssrc == ssrc; }
  }

  /** Sending changes nobody's settings and keys. */
  lemma ProtectServesAlike(s: Session, mki: nat, pkt: seq<octet>, out: seq<octet>, inPlace: bool)
    requires s.Valid()
    ensures ServesAlike(s, Protect(s, mki, pkt, out, inPlace).0)
  {
    hide SendOn, ValidHeader, SsrcOf, ServesAlike, StreamState.Valid, StreamState.Pristine;
    var t := Protect(s, mki, pkt, out, inPlace).0;
    if t == s {
      SelfServesAlike(s);
    } else {
      LayoutFields(pkt);
      var ssrc := SsrcOf(pkt);
      match FindStream(s.streams, ssrc, 0)
      case Some(i) =>
        UpdateServesAlike(s, i, t.streams[i]);
        assert t.streams == s.streams[i := t.streams[i]];
      case None =>
        var x := t.streams[|s.streams|];
        AppendServesAlike(s, x);
        assert t.streams == s.streams + [x];
    }
  }

  lemma SelfServesAlike(s: Session)
    ensures ServesAlike(s, s)
  {
  }

  /** Nor does accepting a packet. */
  lemma AcceptServesAlike(s: Session, p: Place, ssrc: ssrc4, st: PI.IndexState, rtcp: RtcpReplay.Rdb)
    requires s.Valid() && ForReceiving(s, ssrc) == Success(p) && st.Valid() && rtcp.Valid()
    ensures ServesAlike(s, Accept(s, p, ssrc, st, rtcp))
  {
    hide ServesAlike, StreamState.Valid, StreamState.Pristine;
    var t := Accept(s, p, ssrc, st, rtcp);
    match p
    case On(i) => UpdateServesAlike(s, i, t.streams[i]);
    case Provisional => AppendServesAlike(s, t.streams[|s.streams|]);
  }

  // --- A link -------------------------------------------------------------------------------

  /** A packet that was handed up: the number of the parcel, and the packet. */
  datatype Handover = Handover(k: nat, pkt: seq<octet>)

  /** A sending and a receiving session, everything that was sent so far, everything that was
      handed up so far, and the packet indices of that. */
  datatype Link = Link(tx: Session, rx: Session, sent: seq<Parcel>, got: seq<Handover>, seen: set<Use>)

  /** The sender sends a packet, or any packet sent so far arrives: now or later, for the first
      time or again, or never. */
  datatype Event =
    | Post(mki: nat, pkt: seq<octet>, out: seq<octet>, txInPlace: bool)
    | Arrive(k: nat, cap: nat, rxInPlace: bool)

  /** The parcel that a call of srtp_protect makes. */
  ghost function Posted(s: Session, mki: nat, pkt: seq<octet>, out: seq<octet>, inPlace: bool): (m: Parcel)
    requires s.Valid() && Protect(s, mki, pkt, out, inPlace).1.Success?
    ensures ValidHeader(pkt) && ForSending(s, SsrcOf(pkt)).Success?
    ensures var (t, i) := ForSending(s, SsrcOf(pkt)).value; t.streams[i].Valid() && Wrapped(t.streams[i].prot, m)
    ensures m.pkt == pkt && m.wire == Protect(s, mki, pkt, out, inPlace).1.value
  {
    var (t, i) := ForSending(s, SsrcOf(pkt)).value;
    SentIsWrapped(t.streams[i], mki, pkt, out, inPlace);
    var est := AdmitOn(t.streams[i], mki, pkt, |out|, inPlace).value.est;
    Parcel(SsrcOf(pkt), est, pkt, Protect(s, mki, pkt, out, inPlace).1.value)
  }

  ghost function UseFor(m: Parcel): (u: Use) { Use(m.ssrc, m.est, m.est) }

  ghost function Step(l: Link, e: Event): (r: Link)
    requires l.tx.Valid() && l.rx.Valid()
    ensures r.tx.Valid() && r.rx.Valid()
  {
    match e
    case Post(mki, pkt, out, inPlace) =>
      var r := Protect(l.tx, mki, pkt, out, inPlace);
      l.(tx := r.0, sent := l.sent + if r.1.Success? then [Posted(l.tx, mki, pkt, out, inPlace)] else [])
    case Arrive(k, cap, inPlace) =>
      if k >= |l.sent| then l else
      var r := Unprotect(l.rx, l.sent[k].wire, cap, inPlace);
      if r.1.Failure? then l
      else l.(rx := r.0, got := l.got + [Handover(k, r.1.value)], seen := l.seen + {UseFor(l.sent[k])})
  }

  /** The receiving session only receives, and no rollover counter is pending in it. */
  ghost predicate Quiet(s: Session) {
    && (s.template.Some? ==> s.template.value.dir != Sender)
    && (forall i | 0 <= i < |s.streams| :: s.streams[i].dir != Sender && s.streams[i].st.pendingRoc == 0)
  }

  ghost predicate Underway(s: Session, m: Parcel) {
    var p := Serving(s, m.ssrc);
    p.Some? && p.value.Valid() && Wrapped(p.value, m)
  }

  /** What is handed up is what was sent, and no index of an SSRC is handed up twice. */
  ghost predicate Faithful(l: Link) {
    && (forall i | 0 <= i < |l.got| ::
          && l.got[i].k < |l.sent| && l.got[i].pkt == l.sent[l.got[i].k].pkt
          && UseFor(l.sent[l.got[i].k]) in l.seen)
    && (forall i, j | 0 <= i < j < |l.got| :: UseFor(l.sent[l.got[i].k]) != UseFor(l.sent[l.got[j].k]))
    && (forall u | u in l.seen :: exists i :: 0 <= i < |l.got| && UseFor(l.sent[l.got[i].k]) == u)
  }

  ghost predicate Linked(l: Link) {
    && l.tx.Valid() && InStep(l.rx, l.seen) && Quiet(l.rx) && ServesAlike(l.tx, l.rx) && Faithful(l)
    && (forall k | 0 <= k < |l.sent| :: Underway(l.rx, l.sent[k]))
  }

  /** What an arrival needs: settings that let it be told apart, room and no cryptex profile of
      its own, and an index that the receiver can tell. */
  ghost predicate Allowed(l: Link, e: Event) {
    e.Arrive? && e.k < |l.sent| && Underway(l.rx, l.sent[e.k]) ==>
      var m := l.sent[e.k];
      var p := Serving(l.rx, m.ssrc).value;
      Telling(p) && Fits(p, m.pkt, e.cap, e.rxInPlace) && Reachable(p.cfg, Newest(l.rx, m.ssrc), m)
  }

  // --- One step of a link -------------------------------------------------------------------

  lemma PostLinked(l: Link, e: Event)
    requires Linked(l) && e.Post?
    ensures Linked(Step(l, e))
  {
    hide Protect, Wrapped, InStep, ValidHeader, SsrcOf, StreamState.Valid, Protection.Valid, Quiet, ServesAlike, Posted,
         UseFor, Faithful;
    LinkedSessions(l);
    var Post(mki, pkt, out, inPlace) := e;
    var r := Protect(l.tx, mki, pkt, out, inPlace);
    ProtectServesAlike(l.tx, mki, pkt, out, inPlace);
    AlikeThrough(l.tx, r.0, l.rx);
    if r.1.Success? { PostedUnderway(l, e); }
    SentMore(l, r.0, Step(l, e).sent);
  }

  lemma SentMore(l: Link, tx: Session, sent: seq<Parcel>)
    requires Faithful(l) && l.sent <= sent
    ensures Faithful(l.(tx := tx, sent := sent))
  {
    hide UseFor;
    var r := l.(tx := tx, sent := sent);
    forall i | 0 <= i < |l.got|
      ensures r.got[i].k < |r.sent| && r.sent[r.got[i].k] == l.sent[l.got[i].k]
    {
    }
  }

  lemma LinkedSessions(l: Link)
    requires Linked(l)
    ensures l.tx.Valid() && l.rx.Valid()
  {
    hide Faithful, Quiet, ServesAlike, Underway, PI.Tracks;
  }

  lemma AlikeThrough(s: Session, t: Session, o: Session)
    requires ServesAlike(s, t) && ServesAlike(s, o)
    ensures ServesAlike(t, o)
  {
    hide Serving;
  }

  lemma PostedUnderway(l: Link, e: Event)
    requires l.tx.Valid() && ServesAlike(l.tx, l.rx) && e.Post?
    requires Protect(l.tx, e.mki, e.pkt, e.out, e.txInPlace).1.Success?
    ensures Underway(l.rx, Posted(l.tx, e.mki, e.pkt, e.out, e.txInPlace))
  {
    hide Protect, ValidHeader, SsrcOf, StreamState.Pristine, Protection.Valid, Posted, SeqOf, WrappedCm, WrappedGcm;
    var m := Posted(l.tx, e.mki, e.pkt, e.out, e.txInPlace);
    LayoutFields(e.pkt);
    var (t, i) := ForSending(l.tx, SsrcOf(e.pkt)).value;
    assert Serving(l.tx, SsrcOf(e.pkt)) == Some(t.streams[i].prot);
    assert Serving(l.rx, m.ssrc) == Serving(l.tx, m.ssrc);
  }

  /** Where a packet of a served SSRC is received. */
  lemma Placed(s: Session, seen: set<Use>, ssrc: ssrc4)
    requires InStep(s, seen) && Quiet(s) && Serving(s, ssrc).Some?
    ensures s.Valid() && ForReceiving(s, ssrc).Success?
    ensures var x := StreamAt(s, ForReceiving(s, ssrc).value);
      && x.Valid() && x.prot == Serving(s, ssrc).value && x.st.db.index == Newest(s, ssrc) && x.st.pendingRoc == 0
      && PI.Tracks(x.st.db, IndicesOf(seen, ssrc))
  {
    hide InStep, PI.Tracks, IndicesOf;
    InStepFacts(s, seen);
    ReceivingInStep(s, seen, ssrc);
  }

  /** The packet of this parcel was not handed up before, and its index has not left the window. */
  ghost predicate IsNew(s: Session, seen: set<Use>, m: Parcel)
    requires s.Valid() && ForReceiving(s, m.ssrc).Success?
  {
    New(StreamAt(s, ForReceiving(s, m.ssrc).value).st, IndicesOf(seen, m.ssrc), m.est)
  }

  lemma Arrives(s: Session, seen: set<Use>, m: Parcel, cap: nat, inPlace: bool)
    requires InStep(s, seen) && Quiet(s) && Underway(s, m)
    requires var p := Serving(s, m.ssrc).value;
      Telling(p) && Fits(p, m.pkt, cap, inPlace) && Reachable(p.cfg, Newest(s, m.ssrc), m)
    ensures s.Valid() && ForReceiving(s, m.ssrc).Success? && ValidHeader(m.wire) && SsrcOf(m.wire) == m.ssrc
    ensures var x := StreamAt(s, ForReceiving(s, m.ssrc).value);
      Handled(x.st, IndicesOf(seen, m.ssrc), m, ReceiveOn(x, m.wire, cap, inPlace))
  {
    hide InStep, PI.Tracks, IndicesOf, Quiet, Wrapped, Telling, Fits, Reachable, Handled, ReceiveOn, ValidHeader,
         SsrcOf, Newest;
    Placed(s, seen, m.ssrc);
    StreamHandles(StreamAt(s, ForReceiving(s, m.ssrc).value), IndicesOf(seen, m.ssrc), m, cap, inPlace);
  }

  /** An arriving packet that is new is handed up exactly as it was sent, and every other one is
      refused. */
  lemma ArrivalOutcome(l: Link, k: nat, cap: nat, inPlace: bool)
    requires Linked(l) && k < |l.sent| && Allowed(l, Arrive(k, cap, inPlace))
    ensures l.rx.Valid() && ForReceiving(l.rx, l.sent[k].ssrc).Success?
    ensures var r := Unprotect(l.rx, l.sent[k].wire, cap, inPlace).1;
      if IsNew(l.rx, l.seen, l.sent[k]) then r == Success(l.sent[k].pkt) else r.Failure?
  {
    hide InStep, Quiet, Wrapped, Telling, Fits, Reachable, ReceiveOn, ValidHeader, SsrcOf, Faithful, ServesAlike, New,
         IndicesOf, PI.Record, Accept, Serving;
    LinkedSessions(l);
    Arrives(l.rx, l.seen, l.sent[k], cap, inPlace);
  }

  /** The call that receives it uses the packet's own index. */
  lemma ArrivalUse(s: Session, seen: set<Use>, m: Parcel, cap: nat, inPlace: bool)
    requires s.Valid() && ForReceiving(s, m.ssrc).Success? && ValidHeader(m.wire) && SsrcOf(m.wire) == m.ssrc
    requires var x := StreamAt(s, ForReceiving(s, m.ssrc).value);
      Handled(x.st, IndicesOf(seen, m.ssrc), m, ReceiveOn(x, m.wire, cap, inPlace))
    requires Unprotect(s, m.wire, cap, inPlace).1.Success?
    ensures UseBy(s, DoUnprotect(m.wire, cap, inPlace)) == {UseFor(m)}
    ensures UseFor(m) !in seen
  {
    hide ReceiveOn, ValidHeader, SsrcOf, SeqOf, PI.Locate, PI.Record, Accept, ForReceiving;
    LayoutFields(m.wire);
    var c := DoUnprotect(m.wire, cap, inPlace);
    var x := StreamAt(s, ForReceiving(s, m.ssrc).value);
    var at := ReceiveOn(x, m.wire, cap, inPlace).value.at;
    var carried :| at == PI.Locate(x.st, SeqOf(m.wire), carried);
    assert UseOf(m.ssrc, x.st, SeqOf(m.wire), carried) == UseFor(m);
    assert Uses(s, c, UseFor(m));
    assert UseFor(m) in seen ==> m.est in IndicesOf(seen, m.ssrc);
  }

  lemma ArriveLinked(l: Link, e: Event)
    requires Linked(l) && e.Arrive? && Allowed(l, e)
    ensures Linked(Step(l, e))
  {
    hide InStep, Quiet, Wrapped, Telling, Fits, Reachable, ReceiveOn, ValidHeader, SsrcOf, Faithful, ServesAlike,
         Handled, IndicesOf,
         PI.Record, Accept, Serving, UseBy, UseFor, Unprotect;
    LinkedSessions(l);
    if e.k < |l.sent| && Unprotect(l.rx, l.sent[e.k].wire, e.cap, e.rxInPlace).1.Success? {
      var m := l.sent[e.k];
      var r := Unprotect(l.rx, m.wire, e.cap, e.rxInPlace);
      Arrives(l.rx, l.seen, m, e.cap, e.rxInPlace);
      ArrivalUse(l.rx, l.seen, m, e.cap, e.rxInPlace);
      CallStepsWell(l.rx, l.seen, DoUnprotect(m.wire, e.cap, e.rxInPlace));
      ArrivalOutcome(l, e.k, e.cap, e.rxInPlace);
      AcceptedQuietly(l.rx, m.wire, e.cap, e.rxInPlace);
      StaysUnderway(l.rx, r.0, l.sent);
      AlikeThrough(l.rx, r.0, l.tx) by { AlikeBack(l.tx, l.rx); }
      AlikeBack(r.0, l.tx);
      GotMore(l, r.0, e.k);
    }
  }

  lemma AlikeBack(s: Session, t: Session)
    requires ServesAlike(s, t)
    ensures ServesAlike(t, s)
  {
    hide Serving;
  }

  lemma AcceptedQuietly(s: Session, sp: seq<octet>, cap: nat, inPlace: bool)
    requires s.Valid() && Quiet(s)
    ensures var t := Unprotect(s, sp, cap, inPlace).0; Quiet(t) && ServesAlike(s, t)
  {
    hide ReceiveOn, ValidHeader, SsrcOf, ServesAlike, Protection.Valid;
    if Unprotect(s, sp, cap, inPlace).1.Failure? {
      SelfServesAlike(s);
    } else {
      LayoutFields(sp);
      var p := ForReceiving(s, SsrcOf(sp)).value;
      var x := StreamAt(s, p);
      AcceptServesAlike(s, p, SsrcOf(sp), PI.Record(x.st, ReceiveOn(x, sp, cap, inPlace).value.at), x.rtcp);
    }
  }

  lemma StaysUnderway(s: Session, t: Session, sent: seq<Parcel>)
    requires ServesAlike(s, t) && forall k | 0 <= k < |sent| :: Underway(s, sent[k])
    ensures forall k | 0 <= k < |sent| :: Underway(t, sent[k])
  {
    hide Serving, Wrapped;
    forall k | 0 <= k < |sent|
      ensures Underway(t, sent[k])
    {
      assert Serving(t, sent[k].ssrc) == Serving(s, sent[k].ssrc);
    }
  }

  lemma GotMore(l: Link, rx: Session, k: nat)
    requires Faithful(l) && k < |l.sent| && UseFor(l.sent[k]) !in l.seen
    ensures Faithful(l.(rx := rx, got := l.got + [Handover(k, l.sent[k].pkt)], seen := l.seen + {UseFor(l.sent[k])}))
  {
    hide UseFor;
    var r := l.(rx := rx, got := l.got + [Handover(k, l.sent[k].pkt)], seen := l.seen + {UseFor(l.sent[k])});
    forall u | u in r.seen
      ensures exists i :: 0 <= i < |r.got| && UseFor(r.sent[r.got[i].k]) == u
    {
      if u in l.seen {
        var i :| 0 <= i < |l.got| && UseFor(l.sent[l.got[i].k]) == u;
        assert UseFor(r.sent[r.got[i].k]) == u;
      } else {
        assert UseFor(r.sent[r.got[|l.got|].k]) == u;
      }
    }
  }

  // --- Runs of a link -----------------------------------------------------------------------

  ghost function RunLink(l: Link, es: seq<Event>): (r: Link)
    requires l.tx.Valid() && l.rx.Valid()
    ensures r.tx.Valid() && r.rx.Valid()
  {
    if es == [] then l else Step(RunLink(l, es[..|es| - 1]), es[|es| - 1])
  }

  ghost predicate AllAllowed(l: Link, es: seq<Event>)
    requires l.tx.Valid() && l.rx.Valid()
  {
    forall n | 0 <= n < |es| :: Allowed(RunLink(l, es[..n]), es[n])
  }

  /** A link to start from: two sessions with the same settings and keys for every SSRC, on
      which nothing was sent or received yet. */
  ghost predicate NewLink(l: Link) {
    && l.tx.Valid() && Start(l.rx) && Quiet(l.rx) && ServesAlike(l.tx, l.rx)
    && l.sent == [] && l.got == [] && l.seen == {}
  }

  lemma {:induction false} RunLinked(l: Link, es: seq<Event>)
    requires NewLink(l) && AllAllowed(l, es)
    ensures Linked(RunLink(l, es))
  {
    hide Step, Quiet, ServesAlike, Allowed;
    if es == [] {
      RunInStep(l.rx, []);
    } else {
      var init, e := es[..|es| - 1], es[|es| - 1];
      forall n | 0 <= n < |init|
        ensures Allowed(RunLink(l, init[..n]), init[n])
      {
        assert init[..n] == es[..n];
      }
      RunLinked(l, init);
      var m := RunLink(l, init);
      if e.Post? { PostLinked(m, e); } else { ArriveLinked(m, e); }
    }
  }

  /** Over any run between two sessions, with any number of streams, through a network that
      loses, repeats and reorders packets: whatever is handed up is what was sent, no parcel is
      handed up twice, and neither is an index of an SSRC. */
  lemma DeliveredOnceAndUnchanged(l: Link, es: seq<Event>, i: nat, j: nat)
    requires NewLink(l) && AllAllowed(l, es) && i < |RunLink(l, es).got|
    ensures var r := RunLink(l, es); r.got[i].k < |r.sent| && r.got[i].pkt == r.sent[r.got[i].k].pkt
    ensures var r := RunLink(l, es); j < |r.got| && i != j ==>
      && r.got[j].k < |r.sent| && r.got[i].k != r.got[j].k
      && (r.sent[r.got[i].k].ssrc, r.sent[r.got[i].k].est) != (r.sent[r.got[j].k].ssrc, r.sent[r.got[j].k].est)
  {
    hide RunLink, AllAllowed, NewLink, InStep, Quiet, ServesAlike, Underway;
    RunLinked(l, es);
  }

  /** The packet of parcel k, or another one with its SSRC and index, was handed up. */
  ghost predicate HandedUp(l: Link, k: nat)
    requires k < |l.sent|
  {
    exists i :: 0 <= i < |l.got| && l.got[i].k < |l.sent| && UseFor(l.sent[l.got[i].k]) == UseFor(l.sent[k])
  }

  lemma {:induction false} SeenIsHandedUp(l: Link, k: nat)
    requires Linked(l) && k < |l.sent|
    ensures l.sent[k].est in IndicesOf(l.seen, l.sent[k].ssrc) <==> HandedUp(l, k)
  {
    hide PI.Tracks, Quiet, ServesAlike, NoRepeats, DistinctSsrcs;
    var m := l.sent[k];
    if m.est in IndicesOf(l.seen, m.ssrc) {
      var u :| u in l.seen && u.ssrc == m.ssrc && u.index == m.est;
      var i :| 0 <= i < |l.got| && UseFor(l.sent[l.got[i].k]) == u;
      assert UseFor(l.sent[l.got[i].k]) == UseFor(m);
    }
  }

  /** At any point of a run, a packet that arrives is handed up exactly as it was sent if its
      index was not handed up before and has not left the window, and is refused otherwise. */
  lemma HandedUpIffNew(l: Link, es: seq<Event>, k: nat, cap: nat, inPlace: bool)
    requires NewLink(l) && AllAllowed(l, es)
    requires var r := RunLink(l, es); k < |r.sent| && Allowed(r, Arrive(k, cap, inPlace))
    ensures var r := RunLink(l, es);
      var m, u := r.sent[k], Unprotect(r.rx, r.sent[k].wire, cap, inPlace).1;
      if !HandedUp(r, k) && m.est > Newest(r.rx, m.ssrc) - Window(r.rx, m.ssrc) then u == Success(m.pkt) else u.Failure?
  {
    hide RunLink, AllAllowed, Allowed, Linked, HandedUp, Unprotect, IndicesOf, Quiet, ServesAlike;
    RunLinked(l, es);
    var r := RunLink(l, es);
    ArrivalOutcome(r, k, cap, inPlace);
    SeenIsHandedUp(r, k);
    NewestIsOfPlace(r.rx, r.sent[k].ssrc);
  }

  lemma NewestIsOfPlace(s: Session, ssrc: ssrc4)
    requires s.Valid() && ForReceiving(s, ssrc).Success?
    ensures var st := StreamAt(s, ForReceiving(s, ssrc).value).st;
      st.db.index == Newest(s, ssrc) && |st.db.bits| == Window(s, ssrc)
  {
  }
}
