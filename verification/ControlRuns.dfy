/** Control packets over whole runs of a session: their indices and initialization vectors. */
module ControlRuns {
  import opened Results
  import opened Octets
  import opened RtcpReplay
  import opened Sessions
  import opened SessionRuns
  import RtpPackets
  import SP = SrtpPackets
  import CP = SrtcpPackets
  import A = AeadPackets
  import PI = PacketIndex

  /** An SRTCP index that a call uses for a packet of an SSRC. */
  datatype ControlUse = ControlUse(ssrc: ssrc4, index: rtcpIndex)

  /** The index that a call uses: a sender's is used up even if the packet then fails, a receiver uses
      one only for a packet that it accepts. */
  ghost function Used(s: Session, c: Call): (r: Option<ControlUse>)
    requires s.Valid()
  {
    match c
    case DoProtectControl(mki, pkt, cap) =>
      if |pkt| < CP.RTCP_HEADER || ForSending(s, CP.RtcpSsrc(pkt)).Failure? then None else
      var (t, i) := ForSending(s, CP.RtcpSsrc(pkt)).value;
      var after := SendRtcpOn(t.streams[i], mki, pkt, cap).0;
      if after == t.streams[i].rtcp then None else Some(ControlUse(CP.RtcpSsrc(pkt), after.start))
    case DoUnprotectControl(sp, cap) =>
      if UnprotectControl(s, sp, cap).1.Failure? then None else
      var x := StreamAt(s, ForReceiving(s, CP.RtcpSsrc(sp)).value);
      Some(ControlUse(CP.RtcpSsrc(sp), ReceiveRtcpOn(x, sp, cap).value.1))
    case _ => None
  }

  // --- The invariant ------------------------------------------------------------------------

  ghost function IndicesFor(seen: set<ControlUse>, ssrc: ssrc4): (r: set<int>) {
    set u | u in seen && u.ssrc == ssrc :: u.index
  }

  /** A sender has used indices up to its counter; a receiver's window says what it has accepted; a
      stream without direction has done neither. */
  ghost predicate Follows(x: StreamState, seen: set<int>) {
    if x.dir == Sender then forall i | i in seen :: i <= x.rtcp.start
    else TracksRtcp(x.rtcp, seen) && (x.dir == Unknown ==> seen == {})
  }

  ghost predicate ControlInStep(s: Session, seen: set<ControlUse>) {
    && s.Valid() && DistinctSsrcs(s.streams)
    && (forall i | 0 <= i < |s.streams| :: Follows(s.streams[i], IndicesFor(seen, s.streams[i].ssrc)))
    && (forall u | u in seen :: exists i :: 0 <= i < |s.streams| && s.streams[i].ssrc == u.ssrc)
  }

  lemma InStepIsValid(s: Session, seen: set<ControlUse>)
    requires ControlInStep(s, seen)
    ensures s.Valid()
  {
  }

  lemma StreamFollows(s: Session, seen: set<ControlUse>, i: nat)
    requires ControlInStep(s, seen) && i < |s.streams|
    ensures s.streams[i].Valid() && Follows(s.streams[i], IndicesFor(seen, s.streams[i].ssrc))
  {
  }

  lemma OtherIndices(seen: set<ControlUse>, more: set<ControlUse>, ssrc: ssrc4, other: ssrc4)
    requires ssrc != other && forall u | u in more :: u.ssrc == ssrc
    ensures IndicesFor(seen + more, other) == IndicesFor(seen, other)
  {
  }

  lemma AddedIndex(seen: set<ControlUse>, u: ControlUse)
    ensures IndicesFor(seen + {u}, u.ssrc) == IndicesFor(seen, u.ssrc) + {u.index}
  {
    var t := seen + {u};
    assert u in t;
    forall i | i in IndicesFor(seen, u.ssrc)
      ensures i in IndicesFor(t, u.ssrc)
    {
      var v :| v in seen && v.ssrc == u.ssrc && v.index == i;
      assert v in t;
    }
  }

  /** Changing one stream that follows keeps the session in step. */
  lemma UpdateFollows(s: Session, seen: set<ControlUse>, i: nat, x: StreamState, more: set<ControlUse>)
    requires ControlInStep(s, seen) && i < |s.streams| && x.Valid() && x.ssrc == s.streams[i].ssrc
    requires Follows(x, IndicesFor(seen + more, x.ssrc)) && forall u | u in more :: u.ssrc == x.ssrc
    ensures ControlInStep(s.(streams := s.streams[i := x]), seen + more)
  {
    hide Follows;
    var t := s.streams[i := x];
    forall j | 0 <= j < |t|
      ensures Follows(t[j], IndicesFor(seen + more, t[j].ssrc))
    {
      if j != i { OtherIndices(seen, more, x.ssrc, t[j].ssrc); }
    }
    forall u | u in seen + more
      ensures exists j :: 0 <= j < |t| && t[j].ssrc == u.ssrc
    {
      if u in more {
        assert t[i].ssrc == u.ssrc;
      } else {
        var j :| 0 <= j < |s.streams| && s.streams[j].ssrc == u.ssrc;
        assert t[j].ssrc == u.ssrc;
      }
    }
  }

  /** So does adding a stream with a new SSRC. */
  lemma AppendFollows(s: Session, seen: set<ControlUse>, x: StreamState, more: set<ControlUse>)
    requires ControlInStep(s, seen) && x.Valid() && FindStream(s.streams, x.ssrc, 0).None?
    requires Follows(x, IndicesFor(seen + more, x.ssrc)) && forall u | u in more :: u.ssrc == x.ssrc
    ensures ControlInStep(s.(streams := s.streams + [x]), seen + more)
  {
    hide Follows;
    var t := s.streams + [x];
    forall j | 0 <= j < |t|
      ensures Follows(t[j], IndicesFor(seen + more, t[j].ssrc))
    {
      if j < |s.streams| { OtherIndices(seen, more, x.ssrc, t[j].ssrc); }
    }
    forall u | u in seen + more
      ensures exists j :: 0 <= j < |t| && t[j].ssrc == u.ssrc
    {
      if u in more {
        assert t[|s.streams|].ssrc == u.ssrc;
      } else {
        var j :| 0 <= j < |s.streams| && s.streams[j].ssrc == u.ssrc;
        assert t[j].ssrc == u.ssrc;
      }
    }
  }

  /** A stream that is new has no indices yet. */
  lemma NothingUsedYet(s: Session, seen: set<ControlUse>, ssrc: ssrc4)
    requires ControlInStep(s, seen) && FindStream(s.streams, ssrc, 0).None?
    ensures IndicesFor(seen, ssrc) == {}
  {
    hide Follows;
  }

  // --- One call -----------------------------------------------------------------------------

  /** The stream chosen for sending, in a session in step. */
  lemma SendingFollows(s: Session, seen: set<ControlUse>, ssrc: ssrc4)
    requires ControlInStep(s, seen) && ForSending(s, ssrc).Success?
    ensures var (t, i) := ForSending(s, ssrc).value; ControlInStep(t, seen) && t.streams[i].dir == Sender
  {
    hide ControlInStep, Protection.Valid, TracksRtcp;
    InStepIsValid(s, seen);
    assert seen + {} == seen;
    match FindStream(s.streams, ssrc, 0)
    case Some(i) =>
      StreamFollows(s, seen, i);
      UpdateFollows(s, seen, i, s.streams[i].(dir := Sender), {});
    case None =>
      NothingUsedYet(s, seen, ssrc);
      AppendFollows(s, seen, Clone(s.template.value, ssrc).(dir := Sender), {});
  }

  /** The stream to receive on follows, too. */
  lemma ReceivingFollows(s: Session, seen: set<ControlUse>, ssrc: ssrc4)
    requires ControlInStep(s, seen) && ForReceiving(s, ssrc).Success?
    ensures s.Valid() && TracksRtcp(StreamAt(s, ForReceiving(s, ssrc).value).rtcp, IndicesFor(seen, ssrc))
  {
    hide ControlInStep, Protection.Valid, TracksRtcp, IndicesFor;
    InStepIsValid(s, seen);
    match FindStream(s.streams, ssrc, 0)
    case Some(i) => StreamFollows(s, seen, i);
    case None =>
      NothingUsedYet(s, seen, ssrc);
      FreshTracks();
  }

  lemma AcceptFollows(s: Session, seen: set<ControlUse>, p: Place, ssrc: ssrc4, st: PI.IndexState, rtcp: Rdb,
                      more: set<ControlUse>)
    requires ControlInStep(s, seen) && ForReceiving(s, ssrc) == Success(p) && st.Valid() && rtcp.Valid()
    requires TracksRtcp(rtcp, IndicesFor(seen + more, ssrc)) && forall u | u in more :: u.ssrc == ssrc
    ensures s.Valid() && ControlInStep(Accept(s, p, ssrc, st, rtcp), seen + more)
  {
    hide ControlInStep, Protection.Valid, TracksRtcp, IndicesFor;
    InStepIsValid(s, seen);
    match p
    case On(i) =>
      StreamFollows(s, seen, i);
      var x := s.streams[i];
      UpdateFollows(s, seen, i, x.(st := st, rtcp := rtcp, dir := if x.dir == Unknown then Receiver else x.dir), more);
    case Provisional =>
      AppendFollows(s, seen, Clone(s.template.value, ssrc).(st := st, rtcp := rtcp), more);
  }

  /** What is left of the uses when a stream is removed. */
  ghost function KeptUses(seen: set<ControlUse>, c: Call): (r: set<ControlUse>) {
    if c.DoRemove? then set u | u in seen && u.ssrc != c.ssrc else seen
  }

  ghost function UsedSet(s: Session, c: Call): (r: set<ControlUse>)
    requires s.Valid()
  {
    if Used(s, c).Some? then {Used(s, c).value} else {}
  }

  /** The call used no index that was used before, and the session stays in step. */
  ghost predicate ControlSteps(s: Session, seen: set<ControlUse>, c: Call)
    requires s.Valid()
  {
    ControlInStep(After(s, c), KeptUses(seen, c) + UsedSet(s, c)) && UsedSet(s, c) !! seen
  }

  lemma UnusedSteps(s: Session, seen: set<ControlUse>, c: Call)
    requires s.Valid() && Used(s, c).None? && ControlInStep(After(s, c), KeptUses(seen, c))
    ensures ControlSteps(s, seen, c)
  {
    hide After, ControlInStep, Used, KeptUses;
    assert KeptUses(seen, c) + {} == KeptUses(seen, c);
  }

  lemma MediaSteps(s: Session, seen: set<ControlUse>, c: Call)
    requires ControlInStep(s, seen) && (c.DoProtect? || c.DoUnprotect? || c.DoSetRoc?)
    ensures s.Valid() && ControlSteps(s, seen, c)
  {
    hide ControlInStep, Protection.Valid, TracksRtcp, IndicesFor, SendOn, ReceiveOn, ForSending, ForReceiving,
         PI.Record,
         RtpPackets.SsrcOf, RtpPackets.HdrLen, RtpPackets.XtnLen, RtpPackets.HasXtn;
    InStepIsValid(s, seen);
    assert seen + {} == seen;
    match c {
      case DoProtect(mki, pkt, out, inPlace) =>
        if RtpPackets.ValidHeader(pkt) && ForSending(s, RtpPackets.SsrcOf(pkt)).Success? {
          var (t, i) := ForSending(s, RtpPackets.SsrcOf(pkt)).value;
          SendingFollows(s, seen, RtpPackets.SsrcOf(pkt));
          StreamFollows(t, seen, i);
          UpdateFollows(t, seen, i, t.streams[i].(st := SendOn(t.streams[i], mki, pkt, out, inPlace).0), {});
        }
      case DoUnprotect(sp, cap, inPlace) =>
        if Unprotect(s, sp, cap, inPlace).1.Success? {
          var ssrc := RtpPackets.SsrcOf(sp);
          var p := ForReceiving(s, ssrc).value;
          var x := StreamAt(s, p);
          ReceivingFollows(s, seen, ssrc);
          AcceptFollows(s, seen, p, ssrc, PI.Record(x.st, ReceiveOn(x, sp, cap, inPlace).value.at), x.rtcp, {});
        }
      case DoSetRoc(ssrc, roc) =>
        match FindStream(s.streams, ssrc, 0) {
          case None =>
          case Some(i) =>
            StreamFollows(s, seen, i);
            UpdateFollows(s, seen, i, s.streams[i].(st := s.streams[i].st.(pendingRoc := roc)), {});
        }
    }
    UnusedSteps(s, seen, c);
  }

  /** A sender's counter moves on by one, or not at all. */
  lemma CounterMoves(x: StreamState, mki: nat, pkt: seq<octet>, cap: nat)
    requires x.Valid()
    ensures var db := SendRtcpOn(x, mki, pkt, cap).0; db == x.rtcp || db == x.rtcp.(start := x.rtcp.start + 1)
  {
    hide CP.ProtectRtcp, CP.ProtectRtcpAead, Protection.GcmKeysFit;
  }

  lemma ProtectControlSteps(s: Session, seen: set<ControlUse>, c: Call)
    requires ControlInStep(s, seen) && c.DoProtectControl?
    ensures s.Valid() && ControlSteps(s, seen, c)
  {
    hide ControlInStep, Protection.Valid, TracksRtcp, IndicesFor, SendRtcpOn, ForSending, Sub;
    InStepIsValid(s, seen);
    var DoProtectControl(mki, pkt, cap) := c;
    if |pkt| < CP.RTCP_HEADER || ForSending(s, CP.RtcpSsrc(pkt)).Failure? {
      UnusedSteps(s, seen, c);
    } else {
      var ssrc := CP.RtcpSsrc(pkt);
      var (t, i) := ForSending(s, ssrc).value;
      SendingFollows(s, seen, ssrc);
      StreamFollows(t, seen, i);
      var x := t.streams[i];
      var after := SendRtcpOn(x, mki, pkt, cap).0;
      CounterMoves(x, mki, pkt, cap);
      if after == x.rtcp {
        assert t.streams[i := x.(rtcp := after)] == t.streams;
        UnusedSteps(s, seen, c);
      } else {
        var u := ControlUse(ssrc, after.start);
        AddedIndex(seen, u);
        UpdateFollows(t, seen, i, x.(rtcp := after), {u});
        NewIndex(seen, u, x);
      }
    }
  }

  lemma NewIndex(seen: set<ControlUse>, u: ControlUse, x: StreamState)
    requires x.dir == Sender && Follows(x, IndicesFor(seen, u.ssrc)) && u.index > x.rtcp.start
    ensures u !in seen
  {
    assert u in seen ==> u.index in IndicesFor(seen, u.ssrc);
  }

  lemma UnprotectControlSteps(s: Session, seen: set<ControlUse>, c: Call)
    requires ControlInStep(s, seen) && c.DoUnprotectControl?
    ensures s.Valid() && ControlSteps(s, seen, c)
  {
    hide ControlInStep, Protection.Valid, TracksRtcp, IndicesFor, ReceiveRtcpOn, ForReceiving, AddRtcp, Sub;
    InStepIsValid(s, seen);
    var DoUnprotectControl(sp, cap) := c;
    if UnprotectControl(s, sp, cap).1.Failure? {
      UnusedSteps(s, seen, c);
    } else {
      var ssrc := CP.RtcpSsrc(sp);
      var p := ForReceiving(s, ssrc).value;
      var x := StreamAt(s, p);
      var i := ReceiveRtcpOn(x, sp, cap).value.1;
      var u := ControlUse(ssrc, i);
      ReceivingFollows(s, seen, ssrc);
      PassesIffNew(x.rtcp, IndicesFor(seen, ssrc), i);
      AddTracks(x.rtcp, IndicesFor(seen, ssrc), i);
      AddedIndex(seen, u);
      AcceptFollows(s, seen, p, ssrc, x.st, AddRtcp(x.rtcp, i), {u});
      NotSeen(seen, u);
    }
  }

  lemma NotSeen(seen: set<ControlUse>, u: ControlUse)
    requires u.index !in IndicesFor(seen, u.ssrc)
    ensures u !in seen
  {
  }

  lemma RemoveSteps(s: Session, seen: set<ControlUse>, c: Call)
    requires ControlInStep(s, seen) && c.DoRemove?
    ensures s.Valid() && ControlSteps(s, seen, c)
  {
    hide Follows, StreamState.Valid;
    var kept := KeptUses(seen, c);
    match FindStream(s.streams, c.ssrc, 0) {
      case None => assert kept == seen;
      case Some(i) => RemovedFollows(s, seen, c, i);
    }
    UnusedSteps(s, seen, c);
  }

  lemma RemovedFollows(s: Session, seen: set<ControlUse>, c: Call, i: nat)
    requires ControlInStep(s, seen) && c.DoRemove? && i < |s.streams| && s.streams[i].ssrc == c.ssrc
    ensures ControlInStep(s.(streams := s.streams[..i] + s.streams[i + 1..]), KeptUses(seen, c))
  {
    hide Follows, StreamState.Valid, StreamState.Pristine, IndicesFor;
    var t, kept := s.streams[..i] + s.streams[i + 1..], KeptUses(seen, c);
    forall j | 0 <= j < |t|
      ensures t[j] == s.streams[Behind(i, j)] && t[j].ssrc != c.ssrc && Follows(t[j], IndicesFor(kept, t[j].ssrc))
    {
      KeptIndicesFor(seen, c, t[j].ssrc);
    }
    forall u | u in kept
      ensures exists j :: 0 <= j < |t| && t[j].ssrc == u.ssrc
    {
      var j :| 0 <= j < |s.streams| && s.streams[j].ssrc == u.ssrc;
      assert t[if j < i then j else j - 1].ssrc == u.ssrc;
    }
  }

  lemma KeptIndicesFor(seen: set<ControlUse>, c: Call, ssrc: ssrc4)
    requires c.DoRemove? && ssrc != c.ssrc
    ensures IndicesFor(KeptUses(seen, c), ssrc) == IndicesFor(seen, ssrc)
  {
  }

  lemma EveryCallSteps(s: Session, seen: set<ControlUse>, c: Call)
    requires ControlInStep(s, seen)
    ensures s.Valid() && ControlSteps(s, seen, c)
  {
    hide ControlInStep, ControlSteps;
    InStepIsValid(s, seen);
    match c
    case DoProtectControl(_, _, _) => ProtectControlSteps(s, seen, c);
    case DoUnprotectControl(_, _) => UnprotectControlSteps(s, seen, c);
    case DoRemove(_) => RemoveSteps(s, seen, c);
    case _ => MediaSteps(s, seen, c);
  }

  // --- Runs ---------------------------------------------------------------------------------

  /** The index that the k-th call uses. */
  ghost function UsedAt(s: Session, calls: seq<Call>, k: nat): (r: Option<ControlUse>)
    requires s.Valid() && k < |calls|
  {
    Used(RunCalls(s, calls[..k]), calls[k])
  }

  ghost function UsedBy(s: Session, calls: seq<Call>): (r: set<ControlUse>)
    requires s.Valid()
  {
    if calls == [] then {} else
    var init, c := calls[..|calls| - 1], calls[|calls| - 1];
    KeptUses(UsedBy(s, init), c) + UsedSet(RunCalls(s, init), c)
  }

  /** A session to start from: different SSRCs, and no control packet received yet. */
  ghost predicate ControlStart(s: Session) {
    && s.Valid() && DistinctSsrcs(s.streams)
    && (forall i | 0 <= i < |s.streams| && s.streams[i].dir != Sender :: TracksRtcp(s.streams[i].rtcp, {}))
  }

  lemma {:induction false} ControlRunInStep(s: Session, calls: seq<Call>)
    requires ControlStart(s)
    ensures ControlInStep(RunCalls(s, calls), UsedBy(s, calls))
  {
    hide UsedSet, After, KeptUses;
    if calls != [] {
      var init, c := calls[..|calls| - 1], calls[|calls| - 1];
      ControlRunInStep(s, init);
      EveryCallSteps(RunCalls(s, init), UsedBy(s, init), c);
    }
  }

  lemma {:induction false} UseIsKept(s: Session, calls: seq<Call>, j: nat)
    requires s.Valid() && j < |calls| && UsedAt(s, calls, j).Some?
    requires !Removed(calls, UsedAt(s, calls, j).value.ssrc, j, |calls|)
    ensures UsedAt(s, calls, j).value in UsedBy(s, calls)
  {
    hide Used, RunCalls;
    var init := calls[..|calls| - 1];
    if j < |calls| - 1 {
      assert init[..j] == calls[..j];
      assert forall i | 0 <= i < |init| :: init[i] == calls[i];
      UseIsKept(s, init, j);
    }
  }

  /** Over any run of calls, no SSRC sends or accepts a control packet with an index that it has used
      before, unless its stream is removed in between. */
  lemma NoControlIndexUsedTwice(s: Session, calls: seq<Call>, j: nat, k: nat)
    requires ControlStart(s) && j < k < |calls| && UsedAt(s, calls, j).Some?
    ensures UsedAt(s, calls, j) == UsedAt(s, calls, k) ==> Removed(calls, UsedAt(s, calls, j).value.ssrc, j, k)
  {
    hide Used, ControlInStep, RunCalls, UsedBy;
    var u := UsedAt(s, calls, j).value;
    if !Removed(calls, u.ssrc, j, k) {
      var before := calls[..k];
      ControlRunInStep(s, before);
      EveryCallSteps(RunCalls(s, before), UsedBy(s, before), calls[k]);
      assert before[..j] == calls[..j];
      assert forall i | 0 <= i < |before| :: before[i] == calls[i];
      UseIsKept(s, before, j);
    }
  }

  /** So no initialization vector comes up twice among the control packets that are sent or accepted
      under a key, in counter mode or GCM. */
  lemma NoControlIvUsedTwice(s: Session, calls: seq<Call>, j: nat, k: nat, salt: A.salt12)
    requires ControlStart(s) && j < k < |calls| && UsedAt(s, calls, j).Some? && UsedAt(s, calls, k).Some?
    ensures var u, v := UsedAt(s, calls, j).value, UsedAt(s, calls, k).value;
      && (CP.RtcpIv(u.ssrc, u.index) == CP.RtcpIv(v.ssrc, v.index) ==> Removed(calls, u.ssrc, j, k))
      && (CP.RtcpAeadIv(salt, u.ssrc, u.index) == CP.RtcpAeadIv(salt, v.ssrc, v.index) ==> Removed(calls, u.ssrc, j, k))
  {
    hide UsedAt, CP.RtcpIv, CP.RtcpAeadIv;
    var u, v := UsedAt(s, calls, j).value, UsedAt(s, calls, k).value;
    NoControlIndexUsedTwice(s, calls, j, k);
    if CP.RtcpIv(u.ssrc, u.index) == CP.RtcpIv(v.ssrc, v.index) { RtcpIvInjective(u, v); }
    if CP.RtcpAeadIv(salt, u.ssrc, u.index) == CP.RtcpAeadIv(salt, v.ssrc, v.index) {
      CP.RtcpAeadIvInjective(salt, u.ssrc, u.index, v.ssrc, v.index);
    }
  }

  lemma RtcpIvInjective(u: ControlUse, v: ControlUse)
    requires CP.RtcpIv(u.ssrc, u.index) == CP.RtcpIv(v.ssrc, v.index)
    ensures u == v
  {
    hide CP.RtcpIv, BigEndian;
    CP.RtcpIvIsCmIv(u.ssrc, u.index);
    CP.RtcpIvIsCmIv(v.ssrc, v.index);
    var a, b := SP.CmIv(u.ssrc, u.index), SP.CmIv(v.ssrc, v.index);
    assert a[4..8] == u.ssrc && b[4..8] == v.ssrc;
    assert a[8..14] == BigEndian(u.index, 6) && b[8..14] == BigEndian(v.index, 6);
    Pow256Values();
    BigEndianInjective(u.index, v.index, 6);
  }
}
