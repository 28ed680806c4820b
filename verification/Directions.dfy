/** A stream is used in one direction: over any run of calls, an SSRC that sends never receives, and
    the other way round. */
module Directions {
  import opened Results
  import opened Octets
  import opened RtpPackets
  import opened SrtpPackets
  import opened Sessions
  import opened SessionRuns
  import opened SessionLaws
  import RtcpReplay
  import SP = SrtcpPackets
  import PI = PacketIndex

  /** The direction of the first stream with this SSRC. */
  ghost predicate Directed(s: Session, ssrc: ssrc4, d: Direction) {
    var i := FindStream(s.streams, ssrc, 0);
    i.Some? && s.streams[i.value].dir == d
  }

  /** The call sends a packet of this SSRC. */
  ghost predicate Sends(s: Session, c: Call, ssrc: ssrc4)
    requires s.Valid()
  {
    match c
    case DoProtect(mki, pkt, out, inPlace) =>
      Protect(s, mki, pkt, out, inPlace).1.Success? && |pkt| >= 12 && SsrcOf(pkt) == ssrc
    case DoProtectControl(mki, pkt, cap) =>
      ProtectControl(s, mki, pkt, cap).1.Success? && |pkt| >= 8 && pkt[4..8] == ssrc
    case _ => false
  }

  /** The call accepts a packet of this SSRC. */
  ghost predicate Accepts(s: Session, c: Call, ssrc: ssrc4)
    requires s.Valid()
  {
    match c
    case DoUnprotect(sp, cap, inPlace) =>
      Unprotect(s, sp, cap, inPlace).1.Success? && |sp| >= 12 && SsrcOf(sp) == ssrc
    case DoUnprotectControl(sp, cap) =>
      UnprotectControl(s, sp, cap).1.Success? && |sp| >= 8 && sp[4..8] == ssrc
    case _ => false
  }

  lemma FoundInUpdated(streams: seq<StreamState>, i: nat, x: StreamState, ssrc: ssrc4, j: nat)
    requires FindStream(streams, ssrc, 0) == Some(j) && i < |streams| && x.ssrc == streams[i].ssrc
    ensures FindStream(streams[i := x], ssrc, 0) == Some(j)
  {
    FirstStream(streams[i := x], ssrc, j);
  }

  lemma FoundInLonger(streams: seq<StreamState>, x: StreamState, ssrc: ssrc4)
    ensures var i := FindStream(streams, ssrc, 0);
      FindStream(streams + [x], ssrc, 0)
        == if i.Some? then i else if x.ssrc == ssrc then Some(|streams|) else None
  {
    var i, more := FindStream(streams, ssrc, 0), streams + [x];
    if i.Some? {
      FirstStream(more, ssrc, i.value);
    } else if x.ssrc == ssrc {
      FirstStream(more, ssrc, |streams|);
    }
  }

  lemma FoundInShorter(streams: seq<StreamState>, i: nat, ssrc: ssrc4, j: nat)
    requires FindStream(streams, ssrc, 0) == Some(j) && i < |streams| && streams[i].ssrc != ssrc
    ensures var k, fewer := if i < j then j - 1 else j, streams[..i] + streams[i + 1..];
      k < |fewer| && fewer[k] == streams[j] && FindStream(fewer, ssrc, 0) == Some(k)
  {
    FirstStream(streams[..i] + streams[i + 1..], ssrc, if i < j then j - 1 else j);
  }

  lemma SendingKeeps(s: Session, ssrc': ssrc4, ssrc: ssrc4, d: Direction)
    requires s.Valid() && ForSending(s, ssrc').Success? && Directed(s, ssrc, d) && d != Unknown
    ensures var (t, i) := ForSending(s, ssrc').value;
      Directed(t, ssrc, d) && FindStream(t.streams, ssrc', 0) == Some(i) && t.streams[i].dir == Sender
  {
    hide Protection.Valid;
    SendingDirects(s, ssrc');
    var j := FindStream(s.streams, ssrc, 0).value;
    match FindStream(s.streams, ssrc', 0)
    case Some(i) => FoundInUpdated(s.streams, i, s.streams[i].(dir := Sender), ssrc, j);
    case None => FoundInLonger(s.streams, Clone(s.template.value, ssrc').(dir := Sender), ssrc);
  }

  lemma SendingDirects(s: Session, ssrc: ssrc4)
    requires s.Valid() && ForSending(s, ssrc).Success?
    ensures var (t, i) := ForSending(s, ssrc).value;
      FindStream(t.streams, ssrc, 0) == Some(i) && t.streams[i].dir == Sender
  {
    hide Protection.Valid;
    match FindStream(s.streams, ssrc, 0)
    case Some(i) => FoundInUpdated(s.streams, i, s.streams[i].(dir := Sender), ssrc, i);
    case None => FoundInLonger(s.streams, Clone(s.template.value, ssrc).(dir := Sender), ssrc);
  }

  lemma ChangedKeeps(s: Session, i: nat, x: StreamState, ssrc: ssrc4, d: Direction)
    requires i < |s.streams| && x.ssrc == s.streams[i].ssrc && Directed(s, ssrc, d)
    requires s.streams[i].dir == d ==> x.dir == d
    ensures Directed(s.(streams := s.streams[i := x]), ssrc, d)
  {
    FoundInUpdated(s.streams, i, x, ssrc, FindStream(s.streams, ssrc, 0).value);
  }

  lemma AcceptKeeps(s: Session, p: Place, ssrc': ssrc4, st: PI.IndexState, rtcp: RtcpReplay.Rdb, ssrc: ssrc4,
                    d: Direction)
    requires s.Valid() && (p.On? ==> p.i < |s.streams|) && (p.Provisional? ==> s.template.Some?)
    requires st.Valid() && rtcp.Valid() && Directed(s, ssrc, d) && d != Unknown
    ensures Directed(Accept(s, p, ssrc', st, rtcp), ssrc, d)
  {
    hide Protection.Valid;
    if p.On? {
      var x := s.streams[p.i];
      ChangedKeeps(s, p.i, x.(st := st, rtcp := rtcp, dir := if x.dir == Unknown then Receiver else x.dir), ssrc, d);
    } else {
      FoundInLonger(s.streams, Clone(s.template.value, ssrc').(st := st, rtcp := rtcp), ssrc);
    }
  }

  lemma RemovalKeeps(s: Session, i: nat, ssrc: ssrc4, d: Direction)
    requires i < |s.streams| && s.streams[i].ssrc != ssrc && Directed(s, ssrc, d)
    ensures Directed(s.(streams := s.streams[..i] + s.streams[i + 1..]), ssrc, d)
  {
    FoundInShorter(s.streams, i, ssrc, FindStream(s.streams, ssrc, 0).value);
  }

  lemma ProtectKeeps(s: Session, mki: nat, pkt: seq<octet>, out: seq<octet>, inPlace: bool, ssrc: ssrc4, d: Direction)
    requires s.Valid() && Directed(s, ssrc, d) && d != Unknown
    ensures Directed(Protect(s, mki, pkt, out, inPlace).0, ssrc, d)
  {
    hide Protection.Valid, ForSending, ValidHeader, SsrcOf, Directed, SendOn;
    if ValidHeader(pkt) {
      LayoutFields(pkt);
      if ForSending(s, SsrcOf(pkt)).Success? {
        SendingKeeps(s, SsrcOf(pkt), ssrc, d);
        var (t, i) := ForSending(s, SsrcOf(pkt)).value;
        ChangedKeeps(t, i, t.streams[i].(st := SendOn(t.streams[i], mki, pkt, out, inPlace).0), ssrc, d);
      }
    }
  }

  lemma ProtectControlKeeps(s: Session, mki: nat, pkt: seq<octet>, cap: nat, ssrc: ssrc4, d: Direction)
    requires s.Valid() && Directed(s, ssrc, d) && d != Unknown
    ensures Directed(ProtectControl(s, mki, pkt, cap).0, ssrc, d)
  {
    hide Protection.Valid, ForSending, Directed, SendRtcpOn;
    if |pkt| >= 8 && ForSending(s, SP.RtcpSsrc(pkt)).Success? {
      SendingKeeps(s, SP.RtcpSsrc(pkt), ssrc, d);
      var (t, i) := ForSending(s, SP.RtcpSsrc(pkt)).value;
      ChangedKeeps(t, i, t.streams[i].(rtcp := SendRtcpOn(t.streams[i], mki, pkt, cap).0), ssrc, d);
    }
  }

  lemma UnprotectKeeps(s: Session, sp: seq<octet>, cap: nat, inPlace: bool, ssrc: ssrc4, d: Direction)
    requires s.Valid() && Directed(s, ssrc, d) && d != Unknown
    ensures Directed(Unprotect(s, sp, cap, inPlace).0, ssrc, d)
  {
    hide Protection.Valid, ValidHeader, SsrcOf, Directed, ReceiveOn, PI.Record, Accept;
    if Unprotect(s, sp, cap, inPlace).1.Success? {
      LayoutFields(sp);
      var p := ForReceiving(s, SsrcOf(sp)).value;
      var x := StreamAt(s, p);
      AcceptKeeps(s, p, SsrcOf(sp), PI.Record(x.st, ReceiveOn(x, sp, cap, inPlace).value.at), x.rtcp, ssrc, d);
    }
  }

  lemma UnprotectControlKeeps(s: Session, sp: seq<octet>, cap: nat, ssrc: ssrc4, d: Direction)
    requires s.Valid() && Directed(s, ssrc, d) && d != Unknown
    ensures Directed(UnprotectControl(s, sp, cap).0, ssrc, d)
  {
    hide Protection.Valid, Directed, ReceiveRtcpOn, Accept;
    if UnprotectControl(s, sp, cap).1.Success? {
      var p := ForReceiving(s, SP.RtcpSsrc(sp)).value;
      var x := StreamAt(s, p);
      AcceptKeeps(s, p, SP.RtcpSsrc(sp), x.st, RtcpReplay.AddRtcp(x.rtcp, ReceiveRtcpOn(x, sp, cap).value.1), ssrc, d);
    }
  }

  /** No call but the removal of the stream changes a direction once it is there. */
  lemma CallKeepsDirection(s: Session, c: Call, ssrc: ssrc4, d: Direction)
    requires s.Valid() && Directed(s, ssrc, d) && d != Unknown && c != DoRemove(ssrc)
    ensures Directed(After(s, c), ssrc, d)
  {
    hide Protection.Valid, Protect, ProtectControl, Unprotect, UnprotectControl, Directed;
    match c {
      case DoProtect(mki, pkt, out, inPlace) => ProtectKeeps(s, mki, pkt, out, inPlace, ssrc, d);
      case DoProtectControl(mki, pkt, cap) => ProtectControlKeeps(s, mki, pkt, cap, ssrc, d);
      case DoUnprotect(sp, cap, inPlace) => UnprotectKeeps(s, sp, cap, inPlace, ssrc, d);
      case DoUnprotectControl(sp, cap) => UnprotectControlKeeps(s, sp, cap, ssrc, d);
      case DoSetRoc(ssrc', roc) =>
        var i := FindStream(s.streams, ssrc', 0);
        if i.Some? {
          var x := s.streams[i.value];
          ChangedKeeps(s, i.value, x.(st := x.st.(pendingRoc := roc)), ssrc, d);
        }
      case DoRemove(ssrc') =>
        var i := FindStream(s.streams, ssrc', 0);
        if i.Some? { RemovalKeeps(s, i.value, ssrc, d); }
    }
  }

  lemma SentDirects(s: Session, ssrc: ssrc4, x: StreamState)
    requires s.Valid() && ForSending(s, ssrc).Success?
    ensures var (t, i) := ForSending(s, ssrc).value;
      x.ssrc == ssrc && x.dir == Sender ==> Directed(t.(streams := t.streams[i := x]), ssrc, Sender)
    ensures !Directed(s, ssrc, Receiver)
  {
    hide Protection.Valid;
    SendingDirects(s, ssrc);
    var (t, i) := ForSending(s, ssrc).value;
    if x.ssrc == ssrc { FoundInUpdated(t.streams, i, x, ssrc, i); }
  }

  lemma AcceptDirects(s: Session, ssrc: ssrc4, st: PI.IndexState, rtcp: RtcpReplay.Rdb)
    requires s.Valid() && ForReceiving(s, ssrc).Success? && st.Valid() && rtcp.Valid()
    ensures Directed(Accept(s, ForReceiving(s, ssrc).value, ssrc, st, rtcp), ssrc, Receiver)
    ensures !Directed(s, ssrc, Sender)
  {
    hide Protection.Valid;
    match FindStream(s.streams, ssrc, 0)
    case Some(i) =>
      var x := s.streams[i];
      FoundInUpdated(s.streams, i, x.(st := st, rtcp := rtcp, dir := Receiver), ssrc, i);
    case None => FoundInLonger(s.streams, Clone(s.template.value, ssrc).(st := st, rtcp := rtcp), ssrc);
  }

  /** A packet that is sent makes its stream a sender, which it was or could become. */
  lemma SendDirects(s: Session, c: Call, ssrc: ssrc4)
    requires s.Valid() && Sends(s, c, ssrc)
    ensures Directed(After(s, c), ssrc, Sender) && !Directed(s, ssrc, Receiver)
  {
    hide Protection.Valid, ForSending, ValidHeader, SsrcOf, Directed, SendOn, SendRtcpOn;
    match c {
      case DoProtect(mki, pkt, out, inPlace) =>
        LayoutFields(pkt);
        SendingDirects(s, ssrc);
        var (t, i) := ForSending(s, ssrc).value;
        SentDirects(s, ssrc, t.streams[i].(st := SendOn(t.streams[i], mki, pkt, out, inPlace).0));
      case DoProtectControl(mki, pkt, cap) =>
        SendingDirects(s, ssrc);
        var (t, i) := ForSending(s, ssrc).value;
        SentDirects(s, ssrc, t.streams[i].(rtcp := SendRtcpOn(t.streams[i], mki, pkt, cap).0));
    }
  }

  /** A packet that is accepted makes its stream a receiver. */
  lemma ReceiptDirects(s: Session, c: Call, ssrc: ssrc4)
    requires s.Valid() && Accepts(s, c, ssrc)
    ensures Directed(After(s, c), ssrc, Receiver) && !Directed(s, ssrc, Sender)
  {
    hide Protection.Valid, ForReceiving, ValidHeader, SsrcOf, Directed, ReceiveOn, ReceiveRtcpOn, PI.Record, Accept;
    match c {
      case DoUnprotect(sp, cap, inPlace) =>
        LayoutFields(sp);
        var x := StreamAt(s, ForReceiving(s, ssrc).value);
        AcceptDirects(s, ssrc, PI.Record(x.st, ReceiveOn(x, sp, cap, inPlace).value.at), x.rtcp);
      case DoUnprotectControl(sp, cap) =>
        var x := StreamAt(s, ForReceiving(s, ssrc).value);
        AcceptDirects(s, ssrc, x.st, RtcpReplay.AddRtcp(x.rtcp, ReceiveRtcpOn(x, sp, cap).value.1));
    }
  }

  /** A direction lasts until the stream is removed. */
  lemma {:induction false} DirectionLasts(s: Session, calls: seq<Call>, j: nat, k: nat, ssrc: ssrc4, d: Direction)
    requires s.Valid() && j < k <= |calls| && d != Unknown && !Removed(calls, ssrc, j, k)
    requires Directed(RunCalls(s, calls[..j + 1]), ssrc, d)
    ensures Directed(RunCalls(s, calls[..k]), ssrc, d)
    decreases k
  {
    hide RunCalls, After, Directed;
    if j + 1 < k {
      DirectionLasts(s, calls, j, k - 1, ssrc, d);
      NextCall(s, calls, k - 1);
      CallKeepsDirection(RunCalls(s, calls[..k - 1]), calls[k - 1], ssrc, d);
    }
  }

  lemma NextCall(s: Session, calls: seq<Call>, k: nat)
    requires s.Valid() && k < |calls|
    ensures RunCalls(s, calls[..k + 1]) == After(RunCalls(s, calls[..k]), calls[k])
  {
    hide After;
    assert calls[..k + 1][..k] == calls[..k];
  }

  /** Over any run of calls, no SSRC both sends a packet and accepts one, unless its stream is removed in
      between; this goes for RTP and RTCP together. */
  lemma OneDirection(s: Session, calls: seq<Call>, j: nat, k: nat, ssrc: ssrc4)
    requires s.Valid() && j < k < |calls|
    ensures var a, b := RunCalls(s, calls[..j]), RunCalls(s, calls[..k]);
      || (Sends(a, calls[j], ssrc) && Accepts(b, calls[k], ssrc))
      || (Accepts(a, calls[j], ssrc) && Sends(b, calls[k], ssrc))
      ==> Removed(calls, ssrc, j, k)
  {
    hide RunCalls, After, Sends, Accepts;
    var a, b := RunCalls(s, calls[..j]), RunCalls(s, calls[..k]);
    NextCall(s, calls, j);
    if !Removed(calls, ssrc, j, k) {
      if Sends(a, calls[j], ssrc) && Accepts(b, calls[k], ssrc) {
        SendDirects(a, calls[j], ssrc);
        DirectionLasts(s, calls, j, k, ssrc, Sender);
        ReceiptDirects(b, calls[k], ssrc);
      } else if Accepts(a, calls[j], ssrc) && Sends(b, calls[k], ssrc) {
        ReceiptDirects(a, calls[j], ssrc);
        DirectionLasts(s, calls, j, k, ssrc, Receiver);
        SendDirects(b, calls[k], ssrc);
      }
    }
  }

  /** What the other direction, or an unknown SSRC, gets for an answer. */
  lemma RefusedByDirection(s: Session, ssrc: ssrc4)
    requires s.Valid()
    ensures var known, t := FindStream(s.streams, ssrc, 0).Some?, s.template;
      && (Directed(s, ssrc, Receiver) <==> ForSending(s, ssrc) == Failure(DirectionMismatch))
      && (Directed(s, ssrc, Sender) <==> ForReceiving(s, ssrc) == Failure(DirectionMismatch))
      && (!known && (t.None? || t.value.dir == Receiver) <==> ForSending(s, ssrc) == Failure(NoCtx))
      && (!known && (t.None? || t.value.dir == Sender) <==> ForReceiving(s, ssrc) == Failure(NoCtx))
  {
    hide Protection.Valid, StreamState.Pristine;
  }
}
