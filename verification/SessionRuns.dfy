/** Whole runs of a session: any calls, on any number of streams, in any order. */
module SessionRuns {
  import opened Results
  import opened Octets
  import opened Replay
  import opened RtcpReplay
  import opened RtpPackets
  import opened SrtpPackets
  import opened AeadPackets
  import opened Sessions
  import SP = SrtcpPackets
  import PI = PacketIndex

  datatype Call =
    | DoProtect(mki: nat, pkt: seq<octet>, out: seq<octet>, inPlace: bool)
    | DoUnprotect(sp: seq<octet>, cap: nat, inPlace: bool)
    | DoProtectControl(mki: nat, pkt: seq<octet>, cap: nat)
    | DoUnprotectControl(sp: seq<octet>, cap: nat)
    | DoSetRoc(ssrc: ssrc4, roc: roc32)
    | DoRemove(ssrc: ssrc4)

  function After(s: Session, c: Call): (r: Session)
    requires s.Valid()
    ensures r.Valid()
  {
    match c
    case DoProtect(mki, pkt, out, inPlace) => Protect(s, mki, pkt, out, inPlace).0
    case DoUnprotect(sp, cap, inPlace) => Unprotect(s, sp, cap, inPlace).0
    case DoProtectControl(mki, pkt, cap) => ProtectControl(s, mki, pkt, cap).0
    case DoUnprotectControl(sp, cap) => UnprotectControl(s, sp, cap).0
    case DoSetRoc(ssrc, roc) => SetRoc(s, ssrc, roc)
    case DoRemove(ssrc) => RemoveStream(s, ssrc)
  }

  /** A packet index that a call uses for a packet of an SSRC: its place in the count of
      packets, and the 48-bit value that goes into the keystream or the nonce. */
  datatype Use = Use(ssrc: ssrc4, index: nat, est: nat)

  function UseOf(ssrc: ssrc4, st: PI.IndexState, s: seqNum, carried: Option<roc32>): (u: Use)
    requires st.Valid() && PI.Locate(st, s, carried).Usable()
    ensures u.ssrc == ssrc && u.est < INDEX_MAX
  {
    PI.LocateFacts(st, s, carried);
    var l := PI.Locate(st, s, carried);
    Use(ssrc, PI.TrueIndex(st, l), l.est)
  }

  /** The use that a call makes, if it gets that far: a sender uses an index even if the
      packet then fails, a receiver uses one only for a packet that it accepts. */
  ghost predicate Uses(s: Session, c: Call, u: Use)
    requires s.Valid()
  {
    match c
    case DoProtect(mki, pkt, out, inPlace) =>
      ValidHeader(pkt) && ForSending(s, SsrcOf(pkt)).Success? &&
      var (t, i) := ForSending(s, SsrcOf(pkt)).value;
      var a := AdmitOn(t.streams[i], mki, pkt, |out|, inPlace);
      a.Success? && PI.Locate(t.streams[i].st, SeqOf(pkt), None).Usable()
      && u == UseOf(SsrcOf(pkt), t.streams[i].st, SeqOf(pkt), None)
    case DoUnprotect(sp, cap, inPlace) =>
      Unprotect(s, sp, cap, inPlace).1.Success? &&
      var x := StreamAt(s, ForReceiving(s, SsrcOf(sp)).value);
      var at := ReceiveOn(x, sp, cap, inPlace).value.at;
      exists carried: Option<roc32> ::
        PI.Locate(x.st, SeqOf(sp), carried) == at && u == UseOf(SsrcOf(sp), x.st, SeqOf(sp), carried)
    case _ => false
  }

  // --- The invariant ------------------------------------------------------------------------

  /** No stream may repeat an index on purpose. */
  ghost predicate NoRepeats(s: Session) {
    && (s.template.Some? ==> !s.template.value.allowRepeat)
    && (forall i | 0 <= i < |s.streams| :: !s.streams[i].allowRepeat)
  }

  ghost predicate DistinctSsrcs(streams: seq<StreamState>) {
    forall i, j | 0 <= i < j < |streams| :: streams[i].ssrc != streams[j].ssrc
  }

  ghost function IndicesOf(seen: set<Use>, ssrc: ssrc4): (r: set<nat>) {
    set u | u in seen && u.ssrc == ssrc :: u.index
  }

  /** Every stream's replay window is in step with the indices used on its SSRC. */
  ghost predicate InStep(s: Session, seen: set<Use>) {
    && s.Valid() && NoRepeats(s) && DistinctSsrcs(s.streams)
    && (forall i | 0 <= i < |s.streams| :: PI.Tracks(s.streams[i].st.db, IndicesOf(seen, s.streams[i].ssrc)))
    && (forall u | u in seen :: exists i :: 0 <= i < |s.streams| && s.streams[i].ssrc == u.ssrc)
    && (forall u | u in seen :: u.est == u.index % INDEX_MAX)
  }

  lemma IndicesOfAdded(seen: set<Use>, u: Use, ssrc: ssrc4)
    ensures IndicesOf(seen + {u}, ssrc)
      == if ssrc == u.ssrc then IndicesOf(seen, ssrc) + {u.index} else IndicesOf(seen, ssrc)
  {
    var t := seen + {u};
    if ssrc == u.ssrc { assert u in t; }
    forall x | x in IndicesOf(seen, ssrc)
      ensures x in IndicesOf(t, ssrc)
    {
      var v :| v in seen && v.ssrc == ssrc && v.index == x;
      assert v in t;
    }
  }

  /** One stream takes up an index at which its window let a packet pass. */
  lemma StreamTakes(ssrc: ssrc4, st: PI.IndexState, seen: set<Use>, s: seqNum, carried: Option<roc32>)
    requires st.Valid() && PI.Tracks(st.db, IndicesOf(seen, ssrc)) && PI.Locate(st, s, carried).Usable()
    ensures var u := UseOf(ssrc, st, s, carried);
      && u !in seen && u.est == u.index % INDEX_MAX
      && (forall v | v in seen && v.ssrc == u.ssrc :: v.index != u.index)
      && PI.Tracks(PI.Record(st, PI.Locate(st, s, carried)).db, IndicesOf(seen + {u}, ssrc))
  {
    hide PI.Locate, PI.Record, PI.Tracks;
    var u := UseOf(ssrc, st, s, carried);
    PI.LocateFacts(st, s, carried);
    UsableIsNotOld(st, s, carried);
    PI.PassesIffFresh(st, IndicesOf(seen, ssrc), s, carried);
    PI.RecordTracks(st, IndicesOf(seen, ssrc), s, carried);
    IndicesOfAdded(seen, u, ssrc);
    forall v | v in seen && v.ssrc == u.ssrc
      ensures v.index != u.index
    {
      assert v.index in IndicesOf(seen, ssrc);
    }
  }

  lemma UsableIsNotOld(st: PI.IndexState, s: seqNum, carried: Option<roc32>)
    requires st.Valid()
    ensures PI.Locate(st, s, carried).Usable() ==> PI.Locate(st, s, carried).status != IndexOld
  {
  }

  /** Changing one stream in step keeps the session in step. */
  lemma UpdateInStep(s: Session, seen: set<Use>, i: nat, x: StreamState, more: set<Use>)
    requires InStep(s, seen) && i < |s.streams| && x.Valid() && x.ssrc == s.streams[i].ssrc && !x.allowRepeat
    requires PI.Tracks(x.st.db, IndicesOf(seen + more, x.ssrc))
    requires forall u | u in more :: u.ssrc == x.ssrc && u.est == u.index % INDEX_MAX
    ensures InStep(s.(streams := s.streams[i := x]), seen + more)
  {
    hide PI.Tracks;
    var t := s.streams[i := x];
    forall j | 0 <= j < |t|
      ensures PI.Tracks(t[j].st.db, IndicesOf(seen + more, t[j].ssrc))
    {
      if j != i { OtherSsrc(seen, more, x.ssrc, t[j].ssrc); }
    }
    forall u | u in seen + more
      ensures exists j :: 0 <= j < |t| && t[j].ssrc == u.ssrc
    {
      if u in more {
        assert t[i].ssrc == u.ssrc;
      } else {
        var j :| 0 <= j < |s.streams| && s.streams[j].ssrc == u.ssrc;
        assert t[j].ssrc == u.ssrc;
      }
    }
  }

  lemma OtherSsrc(seen: set<Use>, more: set<Use>, ssrc: ssrc4, other: ssrc4)
    requires ssrc != other && forall u | u in more :: u.ssrc == ssrc
    ensures IndicesOf(seen + more, other) == IndicesOf(seen, other)
  {
  }

  /** So does adding a stream with a new SSRC. */
  lemma AppendInStep(s: Session, seen: set<Use>, x: StreamState, more: set<Use>)
    requires InStep(s, seen) && x.Valid() && !x.allowRepeat
    requires forall i | 0 <= i < |s.streams| :: s.streams[i].ssrc != x.ssrc
    requires PI.Tracks(x.st.db, IndicesOf(seen + more, x.ssrc))
    requires forall u | u in more :: u.ssrc == x.ssrc && u.est == u.index % INDEX_MAX
    ensures InStep(s.(streams := s.streams + [x]), seen + more)
  {
    hide PI.Tracks;
    var t := s.streams + [x];
    forall j | 0 <= j < |t|
      ensures PI.Tracks(t[j].st.db, IndicesOf(seen + more, t[j].ssrc))
    {
      if j < |s.streams| { OtherSsrc(seen, more, x.ssrc, t[j].ssrc); }
    }
    forall u | u in seen + more
      ensures exists j :: 0 <= j < |t| && t[j].ssrc == u.ssrc
    {
      if u in more {
        assert t[|s.streams|].ssrc == u.ssrc;
      } else {
        var j :| 0 <= j < |s.streams| && s.streams[j].ssrc == u.ssrc;
        assert t[j].ssrc == u.ssrc;
      }
    }
  }

  /** A new stream is in step because its SSRC was never used. */
  lemma NewStreamTracks(s: Session, seen: set<Use>, ssrc: ssrc4)
    requires InStep(s, seen) && s.template.Some?
    requires forall i | 0 <= i < |s.streams| :: s.streams[i].ssrc != ssrc
    ensures PI.Tracks(Clone(s.template.value, ssrc).st.db, IndicesOf(seen, ssrc))
    ensures IndicesOf(seen, ssrc) == {}
  {
  }

  // --- One call -----------------------------------------------------------------------------

  ghost function UseBy(s: Session, c: Call): (r: set<Use>)
    requires s.Valid()
    ensures forall u | u in r :: Uses(s, c, u)
    ensures (exists u :: Uses(s, c, u)) ==> r != {}
  {
    if exists u :: Uses(s, c, u) then var u :| Uses(s, c, u); {u} else {}
  }

  /** What is left of the uses: with a stream its window goes, and the session forgets them. */
  ghost function Kept(seen: set<Use>, c: Call): (r: set<Use>) {
    if c.DoRemove? then set u | u in seen && u.ssrc != c.ssrc else seen
  }

  /** The call used no index that was used before, and the session stays in step. */
  ghost predicate StepsWell(s: Session, seen: set<Use>, c: Call)
    requires s.Valid()
  {
    && InStep(After(s, c), Kept(seen, c) + UseBy(s, c))
    && (forall u, v | u in UseBy(s, c) && v in seen && v.ssrc == u.ssrc :: v.index != u.index)
  }

  lemma StepsWellIfUnused(s: Session, seen: set<Use>, c: Call)
    requires InStep(s, seen) && InStep(After(s, c), Kept(seen, c)) && forall u :: !Uses(s, c, u)
    ensures StepsWell(s, seen, c)
  {
    hide After, InStep, Uses, Kept;
    InStepFacts(s, seen);
    assert UseBy(s, c) == {};
    assert Kept(seen, c) + {} == Kept(seen, c);
  }

  lemma StepsWellIfUsed(s: Session, seen: set<Use>, c: Call, w: Use)
    requires InStep(s, seen) && !c.DoRemove? && InStep(After(s, c), seen + {w})
    requires Uses(s, c, w) && forall u | Uses(s, c, u) :: u == w
    requires forall v | v in seen && v.ssrc == w.ssrc :: v.index != w.index
    ensures StepsWell(s, seen, c)
  {
    hide After, InStep, Uses;
    InStepFacts(s, seen);
    assert UseBy(s, c) == {w};
  }

  /** The stream chosen for sending, in a session in step. */
  lemma SendingInStep(s: Session, seen: set<Use>, ssrc: ssrc4)
    requires InStep(s, seen) && ForSending(s, ssrc).Success?
    ensures var (t, i) := ForSending(s, ssrc).value; InStep(t, seen)
  {
    hide InStep, PI.Tracks, Clone;
    InStepFacts(s, seen);
    assert seen + {} == seen;
    match FindStream(s.streams, ssrc, 0)
    case Some(i) =>
      StreamInStep(s, seen, i);
      UpdateInStep(s, seen, i, s.streams[i].(dir := Sender), {});
    case None =>
      NewStreamTracks(s, seen, ssrc);
      CloneFacts(s.template.value, ssrc);
      AppendInStep(s, seen, Clone(s.template.value, ssrc).(dir := Sender), {});
  }

  lemma InStepFacts(s: Session, seen: set<Use>)
    requires InStep(s, seen)
    ensures s.Valid() && (s.template.Some? ==> !s.template.value.allowRepeat)
  {
  }

  lemma StreamInStep(s: Session, seen: set<Use>, i: nat)
    requires InStep(s, seen) && i < |s.streams|
    ensures !s.streams[i].allowRepeat && s.streams[i].Valid()
    ensures PI.Tracks(s.streams[i].st.db, IndicesOf(seen, s.streams[i].ssrc))
  {
  }

  lemma CloneFacts(t: StreamState, ssrc: ssrc4)
    requires t.Valid()
    ensures var c := Clone(t, ssrc); c.Valid() && c.ssrc == ssrc && c.allowRepeat == t.allowRepeat && c.dir == t.dir
  {
  }

  lemma ProtectStepsWell(s: Session, seen: set<Use>, c: Call)
    requires InStep(s, seen) && c.DoProtect?
    ensures StepsWell(s, seen, c)
  {
    hide InStep, PI.Tracks, PI.Locate, PI.Record, SendOn, AdmitOn, ForSending, UseOf, SeqOf, SsrcOf, HdrLen, XtnLen,
         HasXtn;
    InStepFacts(s, seen);
    var DoProtect(mki, pkt, out, inPlace) := c;
    if !ValidHeader(pkt) || ForSending(s, SsrcOf(pkt)).Failure? {
      StepsWellIfUnused(s, seen, c);
    } else {
      var (t, i) := ForSending(s, SsrcOf(pkt)).value;
      SendingInStep(s, seen, SsrcOf(pkt));
      StreamInStep(t, seen, i);
      var x := t.streams[i];
      var a := AdmitOn(x, mki, pkt, |out|, inPlace);
      if a.Failure? {
        assert t.streams[i := x.(st := x.st)] == t.streams;
        StepsWellIfUnused(s, seen, c);
      } else {
        var n := SeqOf(pkt);
        StreamTakes(x.ssrc, x.st, seen, n, None);
        var u := UseOf(x.ssrc, x.st, n, None);
        UpdateInStep(t, seen, i, x.(st := PI.Record(x.st, PI.Locate(x.st, n, None))), {u});
        StepsWellIfUsed(s, seen, c, u);
      }
    }
  }

  lemma UnprotectStepsWell(s: Session, seen: set<Use>, c: Call)
    requires InStep(s, seen) && c.DoUnprotect?
    ensures StepsWell(s, seen, c)
  {
    hide InStep, PI.Tracks, PI.Locate, PI.Record, ReceiveOn, ForReceiving, UseOf, SeqOf, SsrcOf, HdrLen, XtnLen, HasXtn;
    InStepFacts(s, seen);
    var DoUnprotect(sp, cap, inPlace) := c;
    if Unprotect(s, sp, cap, inPlace).1.Failure? {
      StepsWellIfUnused(s, seen, c);
    } else {
      var ssrc, n := SsrcOf(sp), SeqOf(sp);
      var p := ForReceiving(s, ssrc).value;
      var x := StreamAt(s, p);
      ReceivingInStep(s, seen, ssrc);
      var at := ReceiveOn(x, sp, cap, inPlace).value.at;
      var carried :| at == PI.Locate(x.st, n, carried);
      StreamTakes(ssrc, x.st, seen, n, carried);
      var u := UseOf(ssrc, x.st, n, carried);
      AcceptInStep(s, seen, p, ssrc, PI.Record(x.st, at), x.rtcp, {u});
      OneUse(x, ssrc, n, carried);
      StepsWellIfUsed(s, seen, c, u);
    }
  }

  /** How the counter was obtained does not matter for the use. */
  lemma OneUse(x: StreamState, ssrc: ssrc4, n: seqNum, carried: Option<roc32>)
    requires x.st.Valid() && PI.Locate(x.st, n, carried).Usable()
    ensures forall other: Option<roc32> | PI.Locate(x.st, n, other) == PI.Locate(x.st, n, carried) ::
      UseOf(ssrc, x.st, n, other) == UseOf(ssrc, x.st, n, carried)
  {
    hide PI.Locate;
  }

  lemma ReceivingInStep(s: Session, seen: set<Use>, ssrc: ssrc4)
    requires InStep(s, seen) && ForReceiving(s, ssrc).Success?
    ensures s.Valid() && PI.Tracks(StreamAt(s, ForReceiving(s, ssrc).value).st.db, IndicesOf(seen, ssrc))
    ensures !StreamAt(s, ForReceiving(s, ssrc).value).allowRepeat
  {
    hide InStep, PI.Tracks;
    InStepFacts(s, seen);
    match FindStream(s.streams, ssrc, 0)
    case Some(i) => StreamInStep(s, seen, i);
    case None =>
      NewStreamTracks(s, seen, ssrc);
      PristineClone(s.template.value, ssrc);
  }

  lemma PristineClone(t: StreamState, ssrc: ssrc4)
    requires t.Pristine()
    ensures Clone(t, ssrc) == t.(ssrc := ssrc)
  {
    assert t.st.db.bits == ClearBits(|t.st.db.bits|);
  }

  lemma AcceptInStep(s: Session, seen: set<Use>, p: Place, ssrc: ssrc4, st: PI.IndexState, rtcp: Rdb, more: set<Use>)
    requires InStep(s, seen) && ForReceiving(s, ssrc) == Success(p) && st.Valid() && rtcp.Valid()
    requires PI.Tracks(st.db, IndicesOf(seen + more, ssrc))
    requires forall u | u in more :: u.ssrc == ssrc && u.est == u.index % INDEX_MAX
    ensures InStep(Accept(s, p, ssrc, st, rtcp), seen + more)
  {
    hide InStep, PI.Tracks, Clone;
    InStepFacts(s, seen);
    match p
    case On(i) =>
      StreamInStep(s, seen, i);
      var x := s.streams[i];
      UpdateInStep(s, seen, i, x.(st := st, rtcp := rtcp, dir := if x.dir == Unknown then Receiver else x.dir), more);
    case Provisional =>
      CloneFacts(s.template.value, ssrc);
      AppendInStep(s, seen, Clone(s.template.value, ssrc).(st := st, rtcp := rtcp), more);
  }

  lemma ControlStepsWell(s: Session, seen: set<Use>, c: Call)
    requires InStep(s, seen) && (c.DoProtectControl? || c.DoUnprotectControl?)
    ensures StepsWell(s, seen, c)
  {
    hide InStep, PI.Tracks, SendRtcpOn, ReceiveRtcpOn, ForSending, ForReceiving, AddRtcp, Sub;
    InStepFacts(s, seen);
    match c
    case DoProtectControl(mki, pkt, cap) =>
      if |pkt| >= SP.RTCP_HEADER && ForSending(s, SP.RtcpSsrc(pkt)).Success? {
        var (t, i) := ForSending(s, SP.RtcpSsrc(pkt)).value;
        SendingInStep(s, seen, SP.RtcpSsrc(pkt));
        StreamInStep(t, seen, i);
        var x := t.streams[i];
        assert seen + {} == seen;
        UpdateInStep(t, seen, i, x.(rtcp := SendRtcpOn(x, mki, pkt, cap).0), {});
      }
      StepsWellIfUnused(s, seen, c);
    case DoUnprotectControl(sp, cap) =>
      if UnprotectControl(s, sp, cap).1.Success? {
        var ssrc := SP.RtcpSsrc(sp);
        var p := ForReceiving(s, ssrc).value;
        var x := StreamAt(s, p);
        ReceivingInStep(s, seen, ssrc);
        assert seen + {} == seen;
        AcceptInStep(s, seen, p, ssrc, x.st, AddRtcp(x.rtcp, ReceiveRtcpOn(x, sp, cap).value.1), {});
      }
      StepsWellIfUnused(s, seen, c);
  }

  lemma SetRocStepsWell(s: Session, seen: set<Use>, c: Call)
    requires InStep(s, seen) && c.DoSetRoc?
    ensures StepsWell(s, seen, c)
  {
    hide InStep, PI.Tracks;
    InStepFacts(s, seen);
    match FindStream(s.streams, c.ssrc, 0)
    case None => StepsWellIfUnused(s, seen, c);
    case Some(i) =>
      StreamInStep(s, seen, i);
      var x := s.streams[i];
      assert seen + {} == seen;
      UpdateInStep(s, seen, i, x.(st := x.st.(pendingRoc := c.roc)), {});
      StepsWellIfUnused(s, seen, c);
  }

  lemma RemoveStepsWell(s: Session, seen: set<Use>, c: Call)
    requires InStep(s, seen) && c.DoRemove?
    ensures StepsWell(s, seen, c)
  {
    hide InStep, PI.Tracks;
    InStepFacts(s, seen);
    match FindStream(s.streams, c.ssrc, 0) {
      case None => NothingToForget(s, seen, c);
      case Some(i) => RemovedInStep(s, seen, c, i);
    }
    StepsWellIfUnused(s, seen, c);
  }

  lemma NothingToForget(s: Session, seen: set<Use>, c: Call)
    requires InStep(s, seen) && c.DoRemove? && FindStream(s.streams, c.ssrc, 0).None?
    ensures InStep(s, Kept(seen, c))
  {
    hide PI.Tracks, NoRepeats, DistinctSsrcs;
    assert Kept(seen, c) == seen;
  }

  lemma RemovedInStep(s: Session, seen: set<Use>, c: Call, i: nat)
    requires InStep(s, seen) && c.DoRemove? && i < |s.streams| && s.streams[i].ssrc == c.ssrc
    ensures InStep(s.(streams := s.streams[..i] + s.streams[i + 1..]), Kept(seen, c))
  {
    hide PI.Tracks, StreamState.Valid, StreamState.Pristine, IndicesOf;
    var t, kept := s.streams[..i] + s.streams[i + 1..], Kept(seen, c);
    forall j | 0 <= j < |t|
      ensures t[j] == s.streams[Behind(i, j)] && t[j].ssrc != c.ssrc
      ensures PI.Tracks(t[j].st.db, IndicesOf(kept, t[j].ssrc))
    {
      KeptIndices(seen, c, t[j].ssrc);
    }
    forall u | u in kept
      ensures exists j :: 0 <= j < |t| && t[j].ssrc == u.ssrc
    {
      var j :| 0 <= j < |s.streams| && s.streams[j].ssrc == u.ssrc;
      assert t[if j < i then j else j - 1].ssrc == u.ssrc;
    }
  }

  lemma KeptIndices(seen: set<Use>, c: Call, ssrc: ssrc4)
    requires c.DoRemove? && ssrc != c.ssrc
    ensures IndicesOf(Kept(seen, c), ssrc) == IndicesOf(seen, ssrc)
  {
  }

  /** Where the stream at position j stood before the one at position i was taken out. */
  function Behind(i: nat, j: nat): (k: nat) { if j < i then j else j + 1 }

  lemma CallStepsWell(s: Session, seen: set<Use>, c: Call)
    requires InStep(s, seen)
    ensures s.Valid() && StepsWell(s, seen, c)
  {
    hide InStep, StepsWell;
    InStepFacts(s, seen);
    match c
    case DoProtect(_, _, _, _) => ProtectStepsWell(s, seen, c);
    case DoUnprotect(_, _, _) => UnprotectStepsWell(s, seen, c);
    case DoSetRoc(_, _) => SetRocStepsWell(s, seen, c);
    case DoRemove(_) => RemoveStepsWell(s, seen, c);
    case DoProtectControl(_, _, _) => ControlStepsWell(s, seen, c);
    case DoUnprotectControl(_, _) => ControlStepsWell(s, seen, c);
  }

  // --- Runs ---------------------------------------------------------------------------------

  function RunCalls(s: Session, calls: seq<Call>): (r: Session)
    requires s.Valid()
    ensures r.Valid()
  {
    if calls == [] then s else After(RunCalls(s, calls[..|calls| - 1]), calls[|calls| - 1])
  }

  /** The index that the k-th call uses. */
  ghost function UseAt(s: Session, calls: seq<Call>, k: nat): (r: set<Use>)
    requires s.Valid() && k < |calls|
  {
    UseBy(RunCalls(s, calls[..k]), calls[k])
  }

  ghost function SeenBy(s: Session, calls: seq<Call>): (r: set<Use>)
    requires s.Valid()
  {
    if calls == [] then {} else Kept(SeenBy(s, calls[..|calls| - 1]), calls[|calls| - 1]) + UseAt(s, calls, |calls| - 1)
  }

  /** The stream of this SSRC is removed behind call j and before call k. */
  ghost predicate Removed(calls: seq<Call>, ssrc: ssrc4, j: nat, k: nat)
    requires j < k <= |calls|
  {
    exists i :: j < i < k && calls[i] == DoRemove(ssrc)
  }

  /** A session to start from: any streams with empty windows and different SSRCs. */
  ghost predicate Start(s: Session) {
    && s.Valid() && NoRepeats(s) && DistinctSsrcs(s.streams)
    && (forall i | 0 <= i < |s.streams| :: PI.Fresh(s.streams[i].st.db))
  }

  lemma {:induction false} RunInStep(s: Session, calls: seq<Call>)
    requires Start(s)
    ensures InStep(RunCalls(s, calls), SeenBy(s, calls))
  {
    hide UseBy, After;
    if calls != [] {
      var init, c := calls[..|calls| - 1], calls[|calls| - 1];
      RunInStep(s, init);
      CallStepsWell(RunCalls(s, init), SeenBy(s, init), c);
    }
  }

  lemma {:induction false} UseIsSeen(s: Session, calls: seq<Call>, j: nat, u: Use)
    requires s.Valid() && j < |calls| && u in UseAt(s, calls, j) && !Removed(calls, u.ssrc, j, |calls|)
    ensures u in SeenBy(s, calls)
  {
    hide UseBy, RunCalls;
    var init := calls[..|calls| - 1];
    if j < |calls| - 1 {
      assert init[..j] == calls[..j];
      assert forall i | 0 <= i < |init| :: init[i] == calls[i];
      UseIsSeen(s, init, j, u);
    }
  }

  /** Over any run of calls, no SSRC uses an index twice, whether sent or accepted, with counters
      set or carried at any point and streams made from the template on the way, unless its
      stream is removed in between. */
  lemma NoIndexUsedTwice(s: Session, calls: seq<Call>, j: nat, k: nat, u: Use, v: Use)
    requires Start(s) && j < k < |calls| && u in UseAt(s, calls, j) && v in UseAt(s, calls, k)
    ensures u.ssrc == v.ssrc && u.index == v.index ==> Removed(calls, u.ssrc, j, k)
  {
    hide UseBy, InStep, Uses, RunCalls, SeenBy;
    if !Removed(calls, u.ssrc, j, k) {
      var before := calls[..k];
      RunInStep(s, before);
      CallStepsWell(RunCalls(s, before), SeenBy(s, before), calls[k]);
      assert before[..j] == calls[..j];
      assert forall i | 0 <= i < |before| :: before[i] == calls[i];
      UseIsSeen(s, before, j, u);
    }
  }

  /** Every index stays at or below the newest one of its stream, as long as that is there. */
  lemma UseIsBounded(s: Session, calls: seq<Call>, k: nat, u: Use)
    requires Start(s) && k < |calls| && u in UseAt(s, calls, k) && !Removed(calls, u.ssrc, k, |calls|)
    ensures exists i ::
      && 0 <= i < |RunCalls(s, calls).streams| && RunCalls(s, calls).streams[i].ssrc == u.ssrc
      && u.index <= RunCalls(s, calls).streams[i].st.db.index
    ensures u.est == u.index % INDEX_MAX
  {
    hide UseBy, Uses, RunCalls, SeenBy, UseAt;
    RunInStep(s, calls);
    UseIsSeen(s, calls, k, u);
    var t, seen := RunCalls(s, calls), SeenBy(s, calls);
    var i :| 0 <= i < |t.streams| && t.streams[i].ssrc == u.ssrc;
    assert u.index in IndicesOf(seen, u.ssrc);
    assert PI.Tracks(t.streams[i].st.db, IndicesOf(seen, t.streams[i].ssrc));
  }

  ghost predicate BelowLimit(s: Session) {
    forall i | 0 <= i < |s.streams| :: s.streams[i].st.db.index < INDEX_MAX
  }

  /** As long as every stream is below 2^48 packets, no two packets of a run that are sent or
      accepted have the same SSRC and 48-bit index, unless the stream is removed in between. */
  lemma NoNonceUsedTwice(s: Session, calls: seq<Call>, j: nat, k: nat, u: Use, v: Use)
    requires Start(s) && j < k < |calls| && u in UseAt(s, calls, j) && v in UseAt(s, calls, k)
    requires BelowLimit(RunCalls(s, calls[..k + 1]))
    ensures u.ssrc == v.ssrc && u.est == v.est ==> Removed(calls, u.ssrc, j, k)
  {
    hide RunCalls, UseAt, SeenBy, UseBy;
    if u.ssrc == v.ssrc && !Removed(calls, u.ssrc, j, k) {
      var upto := calls[..k + 1];
      SameUses(s, calls, upto, j);
      SameUses(s, calls, upto, k);
      UsedWithCall(s, upto, k, v);
      assert forall i | 0 <= i < |upto| :: upto[i] == calls[i];
      assert !Removed(upto, u.ssrc, j, k + 1);
      NoIndexUsedTwice(s, calls, j, k, u, v);
      UseIsBounded(s, upto, j, u);
      UseIsBounded(s, upto, k, v);
      PI.BelowLimit(u.index);
      PI.BelowLimit(v.index);
    }
  }

  lemma SameUses(s: Session, calls: seq<Call>, upto: seq<Call>, j: nat)
    requires s.Valid() && upto <= calls && j < |upto|
    ensures UseAt(s, upto, j) == UseAt(s, calls, j)
  {
    hide UseBy, RunCalls;
    assert upto[..j] == calls[..j];
  }

  /** A call that uses an index does not remove a stream. */
  lemma UsedWithCall(s: Session, calls: seq<Call>, k: nat, v: Use)
    requires s.Valid() && k < |calls| && v in UseAt(s, calls, k)
    ensures !calls[k].DoRemove?
  {
  }

  /** Under AES-GCM this means that no initialization vector comes up twice among the packets
      that are sent or accepted under a key.  Packets that are refused are not among them: they
      are opened with the vector of the index that they claim. */
  lemma NoAeadIvUsedTwice(s: Session, calls: seq<Call>, j: nat, k: nat, u: Use, v: Use, salt: salt12)
    requires Start(s) && j < k < |calls| && u in UseAt(s, calls, j) && v in UseAt(s, calls, k)
    requires BelowLimit(RunCalls(s, calls[..k + 1]))
    ensures AeadIv(salt, u.ssrc, u.est) == AeadIv(salt, v.ssrc, v.est) ==> Removed(calls, u.ssrc, j, k)
  {
    hide RunCalls, UseAt, AeadIv;
    if AeadIv(salt, u.ssrc, u.est) == AeadIv(salt, v.ssrc, v.est) {
      ShortIndex(s, calls, j, u);
      ShortIndex(s, calls, k, v);
      AeadIvInjective(salt, u.ssrc, u.est, v.ssrc, v.est);
      NoNonceUsedTwice(s, calls, j, k, u, v);
    }
  }

  lemma ShortIndex(s: Session, calls: seq<Call>, k: nat, u: Use)
    requires s.Valid() && k < |calls| && u in UseAt(s, calls, k)
    ensures u.est < INDEX_MAX
  {
    hide RunCalls, PI.Locate, SendOn, ReceiveOn, AdmitOn, ForSending, ForReceiving, ValidHeader, SeqOf, SsrcOf,
         Unprotect;
  }

  // --- Removal ------------------------------------------------------------------------------

  /** Removing a stream that was made from the template takes the session back to where it was
      before the stream's first packet. */
  lemma RemovalForgets(s: Session, mki: nat, pkt: seq<octet>, out: seq<octet>, inPlace: bool)
    requires s.Valid() && ValidHeader(pkt) && FindStream(s.streams, SsrcOf(pkt), 0).None?
    requires ForSending(s, SsrcOf(pkt)).Success?
    ensures RemoveStream(Protect(s, mki, pkt, out, inPlace).0, SsrcOf(pkt)) == s
  {
    hide SendOn, ValidHeader, SsrcOf, StreamState.Valid, StreamState.Pristine;
    LayoutFields(pkt);
    var t := Protect(s, mki, pkt, out, inPlace).0;
    assert t.streams == s.streams + [t.streams[|s.streams|]];
    assert t.streams[|s.streams|].ssrc == SsrcOf(pkt);
    assert FindStream(t.streams, SsrcOf(pkt), 0) == Some(|s.streams|);
  }

  /** So a packet that is sent before and after the removal of its stream uses its index twice. */
  lemma RemovalRepeatsIndex(s: Session, c: Call, u: Use)
    requires s.Valid() && c.DoProtect? && Uses(s, c, u) && FindStream(s.streams, u.ssrc, 0).None?
    ensures var calls := [c, DoRemove(u.ssrc), c];
      && UseAt(s, calls, 0) == UseAt(s, calls, 2) == {u}
      && Removed(calls, u.ssrc, 0, 2)
  {
    hide Protect, ForSending, AdmitOn, ValidHeader, SsrcOf, SeqOf, PI.Locate, RemoveStream, FindStream;
    var calls := [c, DoRemove(u.ssrc), c];
    RemovalForgets(s, c.mki, c.pkt, c.out, c.inPlace);
    assert calls[..0] == [] && calls[..1] == [c] && calls[..1][..0] == [];
    assert calls[..2] == [c, DoRemove(u.ssrc)] && calls[..2][..1] == [c];
    assert RunCalls(s, [c]) == After(s, c);
    assert RunCalls(s, calls[..2]) == After(After(s, c), DoRemove(u.ssrc)) == s;
    assert calls[1] == DoRemove(u.ssrc);
  }
}
