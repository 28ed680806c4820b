/** How a stream finds and records the index of an RTP packet: the estimate of
    srtp_get_est_pkt_index, a pending or carried rollover counter, the replay check,
    and the "advance" path that re-bases the window (srtp/srtp.c). */
module PacketIndex {
  import opened Replay
  import opened Results

  /** The part of a stream that the packet index depends on; a pending counter of 0
      means that none is pending. */
  datatype IndexState = IndexState(db: Rdbx, pendingRoc: roc32) {
    ghost predicate Valid() { db.Valid() }
  }

  datatype Located = Located(status: Status, est: nat, delta: int) {
    /** The packet may go on to be processed. */
    predicate Usable() { status == Ok || status == IndexAdvance }
  }

  /** srtp_estimate_index: the index that a given rollover counter stands for. */
  function EstimateWithRoc(index: nat, roc: roc32, s: seqNum): (l: Located) {
    var est := roc * SEQ_MAX + s;
    if est > index && est - index > SEQ_MEDIAN then Located(IndexAdvance, est, 0)
    else if est < index && index - est > SEQ_MEDIAN then Located(IndexOld, est, 0)
    else Located(Ok, est, est - index)
  }

  /** srtp_get_est_pkt_index */
  function EstimatePacket(st: IndexState, s: seqNum): (l: Located) {
    if st.pendingRoc != 0 then EstimateWithRoc(st.db.index, st.pendingRoc, s)
    else var g := EstimateIndex(st.db.index, s); Located(Ok, g.est, g.delta)
  }

  /** The estimate followed by the replay check, which the advance path does not need. */
  function Locate(st: IndexState, s: seqNum, carried: Option<roc32>): (l: Located)
    requires st.Valid()
    ensures l.status == Ok ==> |st.db.bits| - 1 + l.delta >= 0
  {
    var l := if carried.Some? then EstimateWithRoc(st.db.index, carried.value, s)
             else EstimatePacket(st, s);
    if l.status == Ok then l.(status := Check(st.db, l.delta)) else l
  }

  /** The sender's version: a stream may allow the same index to be sent again. */
  function LocateSend(st: IndexState, s: seqNum, allowRepeat: bool): (l: Located)
    requires st.Valid()
    ensures l.status == Ok ==> |st.db.bits| - 1 + l.delta >= 0
  {
    var l := Locate(st, s, None);
    if l.status == ReplayFail && allowRepeat then l.(status := Ok) else l
  }

  /** Recording a packet that was located. */
  function Record(st: IndexState, l: Located): (r: IndexState)
    requires st.Valid() && l.Usable()
    requires l.status == Ok ==> |st.db.bits| - 1 + l.delta >= 0
    ensures r.Valid() && |r.db.bits| == |st.db.bits|
  {
    if l.status == IndexAdvance then
      var rebased := SetRocSeq(st.db, l.est / SEQ_MAX % ROC_MAX, l.est % SEQ_MAX).1;
      IndexState(AddIndex(rebased, 0), 0)
    else
      IndexState(AddIndex(st.db, l.delta), st.pendingRoc)
  }

  /** The place of a located packet in the count of packets. */
  function TrueIndex(st: IndexState, l: Located): int {
    if l.status == IndexAdvance then l.est else st.db.index + l.delta
  }

  // --- One step -------------------------------------------------------------------

  /** The window marks exactly the recorded indices that lie inside it. */
  ghost predicate Tracks(db: Rdbx, seen: set<nat>) {
    && db.Valid()
    && (forall i | i in seen :: i <= db.index)
    && (forall i: nat | db.index - |db.bits| < i <= db.index :: db.Marked(i) <==> i in seen)
  }

  lemma EstimateWithRocFacts(index: nat, roc: roc32, s: seqNum)
    ensures var l := EstimateWithRoc(index, roc, s);
      && -SEQ_MEDIAN <= l.delta <= SEQ_MEDIAN
      && l.est < INDEX_MAX && l.est % SEQ_MAX == s
      && (l.status == Ok ==> l.est == index + l.delta)
      && (l.status == IndexAdvance ==> index + SEQ_MEDIAN < l.est)
  {
    DivisionUnique(roc * SEQ_MAX + s, SEQ_MAX, roc, s);
  }

  lemma LocateFacts(st: IndexState, s: seqNum, carried: Option<roc32>)
    requires st.Valid()
    ensures var l := Locate(st, s, carried);
      && -SEQ_MEDIAN <= l.delta < SEQ_MAX
      && (l.Usable() ==>
            && 0 <= TrueIndex(st, l)
            && TrueIndex(st, l) % SEQ_MAX == s
            && l.est == TrueIndex(st, l) % INDEX_MAX)
      && (l.status == IndexAdvance ==> st.db.index + SEQ_MEDIAN < l.est < INDEX_MAX)
  {
    if carried.Some? {
      EstimateWithRocFacts(st.db.index, carried.value, s);
    } else if st.pendingRoc != 0 {
      EstimateWithRocFacts(st.db.index, st.pendingRoc, s);
    } else {
      EstimateIsClosest(st.db.index, s, s);
    }
  }

  /** The result of srtp_rdbx_set_roc_seq, which its callers ignore, is ok on the advance path. */
  lemma AdvanceNeverMovesBack(st: IndexState, s: seqNum, carried: Option<roc32>)
    requires st.Valid()
    requires Locate(st, s, carried).status == IndexAdvance
    ensures var e := Locate(st, s, carried).est;
      SetRocSeq(st.db, e / SEQ_MAX % ROC_MAX, e % SEQ_MAX)
        == (Ok, Rdbx(e, ClearBits(|st.db.bits|)))
  {
    LocateFacts(st, s, carried);
    var e := Locate(st, s, carried).est;
    SplitIndex(e);
    SplitIndex(st.db.index);
  }

  /** A packet passes exactly when it lies ahead of the window or is in it and not yet seen. */
  lemma PassesIffFresh(st: IndexState, seen: set<nat>, s: seqNum, carried: Option<roc32>)
    requires Tracks(st.db, seen)
    requires Locate(st, s, carried).status != IndexOld
    ensures var l := Locate(st, s, carried); var t := TrueIndex(st, l);
      l.Usable() <==> t > st.db.index - |st.db.bits| && t !in seen
  {
    LocateFacts(st, s, carried);
    var l := Locate(st, s, carried);
    var t := TrueIndex(st, l);
    if l.status != IndexAdvance && st.db.index - |st.db.bits| < t <= st.db.index {
      EstimateIsClosest(st.db.index, s, s);
      assert st.db.Marked(t) <==> t in seen;
    }
  }

  /** How far off a receiver may be that has to guess the rollover counter: less than 2^15
      packets, or anywhere in the first 2^16 packets while it is in their first half. */
  ghost predicate Near(index: nat, e: nat) {
    Abs(e - index) < SEQ_MEDIAN || (index <= SEQ_MEDIAN && e < SEQ_MAX)
  }

  /** A receiver that is near, or is told the rollover counter, lets a packet pass exactly when
      its true index is new and not too old, and finds that index. */
  lemma LocatesIffNew(st: IndexState, seen: set<nat>, e: nat, carried: Option<roc32>)
    requires Tracks(st.db, seen) && e < INDEX_MAX
    requires if carried.Some? then carried.value == e / SEQ_MAX else st.pendingRoc == 0 && Near(st.db.index, e)
    ensures var l := Locate(st, e % SEQ_MAX, carried);
      && (l.Usable() <==> e !in seen && e > st.db.index - |st.db.bits|)
      && (l.Usable() ==> l.est == e == TrueIndex(st, l))
  {
    var s := e % SEQ_MAX;
    var l := Locate(st, s, carried);
    SplitIndex(e);
    EstimateIsClosest(st.db.index, s, e);
    if carried.None? && st.db.index > SEQ_MEDIAN {
      CloseAndCongruent(st.db.index + EstimateIndex(st.db.index, s).delta, e);
    }
    BelowLimit(e);
    if l.status != IndexOld { PassesIffFresh(st, seen, s, carried); }
  }

  /** A sender that is near sends a packet exactly when its index is not too old, and new unless the
      stream may repeat itself. */
  lemma SendsIffNew(st: IndexState, seen: set<nat>, e: nat, allowRepeat: bool)
    requires Tracks(st.db, seen) && e < INDEX_MAX && st.pendingRoc == 0 && Near(st.db.index, e)
    ensures var l := LocateSend(st, e % SEQ_MAX, allowRepeat);
      && (l.Usable() <==> (allowRepeat || e !in seen) && e > st.db.index - |st.db.bits|)
      && (l.Usable() ==> l.est == e == TrueIndex(st, l))
  {
    var s := e % SEQ_MAX;
    var l := Locate(st, s, None);
    LocatesIffNew(st, seen, e, None);
    SplitIndex(e);
    EstimateIsClosest(st.db.index, s, e);
    if st.db.index > SEQ_MEDIAN { CloseAndCongruent(st.db.index + EstimateIndex(st.db.index, s).delta, e); }
    BelowLimit(e);
  }

  /** A sender's index is a 48-bit value with the sequence number at its end. */
  lemma SentAtSequenceNumber(st: IndexState, s: seqNum, allowRepeat: bool)
    requires st.Valid()
    ensures var l := LocateSend(st, s, allowRepeat); l.est < INDEX_MAX && l.est % SEQ_MAX == s
  {
    if st.pendingRoc != 0 {
      EstimateWithRocFacts(st.db.index, st.pendingRoc, s);
    } else {
      EstimateIsClosest(st.db.index, s, s);
      var t := st.db.index + EstimateIndex(st.db.index, s).delta;
      SplitIndex(t);
      RocModulo(t / SEQ_MAX, s);
      DivisionUnique(t % INDEX_MAX, SEQ_MAX, t / SEQ_MAX % ROC_MAX, s);
    }
  }

  lemma CloseAndCongruent(a: nat, b: nat)
    requires a % SEQ_MAX == b % SEQ_MAX && Abs(a - b) < SEQ_MAX
    ensures a == b
  {
    SplitIndex(a);
    SplitIndex(b);
    var k := a / SEQ_MAX - b / SEQ_MAX;
    assert a - b == k * SEQ_MAX;
    assert k == 0 || Abs(k * SEQ_MAX) >= SEQ_MAX;
  }

  lemma AddTracks(db: Rdbx, seen: set<nat>, delta: int)
    requires Tracks(db, seen)
    requires -|db.bits| < delta < SEQ_MAX && 0 <= db.index + delta
    ensures Tracks(AddIndex(db, delta), seen + {db.index + delta})
    ensures AddIndex(db, delta).index == if delta > 0 then db.index + delta else db.index
  {
    var r, t := AddIndex(db, delta), db.index + delta;
    forall i: nat | r.index - |r.bits| < i <= r.index
      ensures r.Marked(i) <==> i in seen + {t}
    {
      if i <= db.index { assert db.Marked(i) <==> i in seen; }
    }
  }

  /** Re-basing by more than 2^15 moves the window past every index seen before. */
  lemma RebaseTracks(db: Rdbx, seen: set<nat>, e: nat)
    requires Tracks(db, seen)
    requires db.index + SEQ_MEDIAN < e
    ensures Tracks(AddIndex(Rdbx(e, ClearBits(|db.bits|)), 0), seen + {e})
  {
  }

  /** Recording an accepted packet keeps the window in step with the set of indices seen. */
  lemma RecordTracks(st: IndexState, seen: set<nat>, s: seqNum, carried: Option<roc32>)
    requires Tracks(st.db, seen)
    requires Locate(st, s, carried).Usable()
    ensures var l := Locate(st, s, carried); var t := TrueIndex(st, l);
      && t >= 0
      && Tracks(Record(st, l).db, seen + {t})
      && Record(st, l).db.index == if t > st.db.index then t else st.db.index
  {
    LocateFacts(st, s, carried);
    var l := Locate(st, s, carried);
    if l.status == IndexAdvance {
      AdvanceNeverMovesBack(st, s, carried);
      RebaseTracks(st.db, seen, l.est);
    } else {
      AddTracks(st.db, seen, l.delta);
    }
  }

  // --- Runs of one stream -----------------------------------------------------------

  /** What happens to a receiving stream: a packet arrives, or the application sets
      the rollover counter.  `authentic` stands for every later check on the packet. */
  datatype Event =
    | Packet(s: seqNum, carried: Option<roc32>, authentic: bool)
    | SetRoc(roc: roc32)

  /** A packet that was accepted: its place in the count of packets, and the 48-bit
      packet index that was used for its keystream and its tag. */
  datatype Receipt = Receipt(index: nat, est: nat)

  function Step(st: IndexState, e: Event): (r: (IndexState, Option<Receipt>))
    requires st.Valid()
    ensures r.0.Valid() && |r.0.db.bits| == |st.db.bits|
  {
    match e
    case SetRoc(roc) => (st.(pendingRoc := roc), None)
    case Packet(s, carried, authentic) =>
      var l := Locate(st, s, carried);
      if l.Usable() && authentic then
        LocateFacts(st, s, carried);
        (Record(st, l), Some(Receipt(TrueIndex(st, l), l.est)))
      else (st, None)
  }

  function Run(st: IndexState, es: seq<Event>): (r: IndexState)
    requires st.Valid()
    ensures r.Valid() && |r.db.bits| == |st.db.bits|
  {
    if es == [] then st else Step(Run(st, es[..|es| - 1]), es[|es| - 1]).0
  }

  /** The packet accepted by the k-th event of a run, if any. */
  function Accepted(st: IndexState, es: seq<Event>, k: nat): (r: Option<Receipt>)
    requires st.Valid() && k < |es|
  {
    Step(Run(st, es[..k]), es[k]).1
  }

  /** The indices accepted by a run. */
  ghost function Seen(st: IndexState, es: seq<Event>): set<nat>
    requires st.Valid()
  {
    if es == [] then {} else
    var before := Seen(st, es[..|es| - 1]);
    match Accepted(st, es, |es| - 1)
    case None => before
    case Some(p) => before + {p.index}
  }

  ghost predicate Fresh(db: Rdbx) {
    db.Valid() && forall k | 0 <= k < |db.bits| :: !db.bits[k]
  }

  /** Every run from an empty window keeps the window in step with what was accepted. */
  lemma {:induction false} RunTracks(st: IndexState, es: seq<Event>)
    requires Fresh(st.db)
    ensures Tracks(Run(st, es).db, Seen(st, es))
  {
    if es != [] {
      var init, e := es[..|es| - 1], es[|es| - 1];
      RunTracks(st, init);
      var mid := Run(st, init);
      if e.Packet? && Step(mid, e).1.Some? {
        RecordTracks(mid, Seen(st, init), e.s, e.carried);
      }
    }
  }

  lemma {:induction false} AcceptedIsSeen(st: IndexState, es: seq<Event>, j: nat)
    requires st.Valid() && j < |es| && Accepted(st, es, j).Some?
    ensures Accepted(st, es, j).value.index in Seen(st, es)
  {
    var init := es[..|es| - 1];
    if j < |es| - 1 {
      assert init[..j] == es[..j];
      AcceptedIsSeen(st, init, j);
    }
  }

  /** Replay safety: over a whole run, with counters set or carried at any point, no
      packet is accepted twice. */
  lemma NoIndexAcceptedTwice(st: IndexState, es: seq<Event>, j: nat, k: nat)
    requires Fresh(st.db)
    requires j < k < |es|
    requires Accepted(st, es, j).Some? && Accepted(st, es, k).Some?
    ensures Accepted(st, es, j).value.index != Accepted(st, es, k).value.index
  {
    var before, e := es[..k], es[k];
    RunTracks(st, before);
    assert before[..j] == es[..j];
    AcceptedIsSeen(st, before, j);
    PassesIffFresh(Run(st, before), Seen(st, before), e.s, e.carried);
  }

  lemma ReceiptIsModulo(st: IndexState, e: Event)
    requires st.Valid() && Step(st, e).1.Some?
    ensures var p := Step(st, e).1.value;
      p.est == p.index % INDEX_MAX && (p.index < INDEX_MAX ==> p.est == p.index)
  {
    hide Locate, Record;
    LocateFacts(st, e.s, e.carried);
    BelowLimit(Step(st, e).1.value.index);
  }

  lemma BelowLimit(i: nat)
    ensures i < INDEX_MAX ==> i % INDEX_MAX == i
  {
  }

  lemma AcceptedIsBounded(st: IndexState, es: seq<Event>, k: nat)
    requires Fresh(st.db) && k < |es| && Accepted(st, es, k).Some?
    ensures Accepted(st, es, k).value.index <= Run(st, es).db.index
  {
    AcceptedIsSeen(st, es, k);
    RunTracks(st, es);
  }

  /** The 48-bit index is the true index as long as the stream stays below 2^48. */
  lemma AcceptedIsExact(st: IndexState, es: seq<Event>, k: nat)
    requires Fresh(st.db) && k < |es| && Accepted(st, es, k).Some?
    requires Run(st, es).db.index < INDEX_MAX
    ensures Accepted(st, es, k).value.est == Accepted(st, es, k).value.index
  {
    hide Step, Run;
    AcceptedIsBounded(st, es, k);
    ReceiptIsModulo(Run(st, es[..k]), es[k]);
  }

  lemma NoPacketIndexAcceptedTwice(st: IndexState, es: seq<Event>, j: nat, k: nat)
    requires Fresh(st.db)
    requires j < k < |es|
    requires Accepted(st, es, j).Some? && Accepted(st, es, k).Some?
    requires Run(st, es).db.index < INDEX_MAX
    ensures Accepted(st, es, j).value.est != Accepted(st, es, k).value.est
  {
    NoIndexAcceptedTwice(st, es, j, k);
    AcceptedIsExact(st, es, j);
    AcceptedIsExact(st, es, k);
  }

  lemma RunStep(st: IndexState, es: seq<Event>, k: nat)
    requires st.Valid() && k < |es|
    ensures Run(st, es[..k + 1]) == Step(Run(st, es[..k]), es[k]).0
  {
    assert es[..k + 1][..k] == es[..k];
  }

  /** Past 2^48 the 48-bit index comes round again: a run that accepts index 0 twice. */
  lemma PacketIndexReusedPastLimit(ws: nat)
    requires 64 <= ws < SEQ_MEDIAN
    ensures var st := IndexState(Init(ws), 0);
      var es := [Packet(0, None, true), SetRoc(ROC_MAX - 1), Packet(65535, None, true), Packet(0, None, true)];
      Accepted(st, es, 0) == Some(Receipt(0, 0)) && Accepted(st, es, 3) == Some(Receipt(INDEX_MAX, 0))
  {
    var st := IndexState(Init(ws), 0);
    var es := [Packet(0, None, true), SetRoc(ROC_MAX - 1), Packet(65535, None, true), Packet(0, None, true)];
    assert Run(st, es[..0]) == st;
    RunStep(st, es, 0);
    RunStep(st, es, 1);
    RunStep(st, es, 2);
    AdvanceToLastIndex(Run(st, es[..2]));
    LastIndexRollsOver(Run(st, es[..3]));
  }

  lemma AdvanceToLastIndex(st: IndexState)
    requires st.Valid() && st.db.index == 0 && st.pendingRoc == ROC_MAX - 1
    ensures Step(st, Packet(65535, None, true)).0.db.index == INDEX_MAX - 1
    ensures Step(st, Packet(65535, None, true)).0.pendingRoc == 0
  {
    AdvanceNeverMovesBack(st, 65535, None);
  }

  lemma LastIndexRollsOver(st: IndexState)
    requires st.Valid() && st.db.index == INDEX_MAX - 1 && st.pendingRoc == 0
    ensures Step(st, Packet(0, None, true)).1 == Some(Receipt(INDEX_MAX, 0))
  {
  }

  // --- Resynchronisation by a carried counter ---------------------------------------

  /** A carried counter that puts the packet ahead brings the receiver to exactly the
      sender's index; one more than 2^15 behind is refused. */
  lemma CarriedCounterResynchronises(st: IndexState, s: seqNum, roc: roc32)
    requires st.Valid()
    ensures var sender := roc * SEQ_MAX + s; var l := Locate(st, s, Some(roc));
      && (sender > st.db.index ==> l.Usable() && l.est == sender && Record(st, l).db.index == sender)
      && (l.status == IndexOld <==> sender + SEQ_MEDIAN < st.db.index)
  {
    EstimateWithRocFacts(st.db.index, roc, s);
    var l := Locate(st, s, Some(roc));
    if l.status == IndexAdvance { AdvanceNeverMovesBack(st, s, Some(roc)); }
  }
}
