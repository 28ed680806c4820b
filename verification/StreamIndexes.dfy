/** The replay database and the packet index of a stream as objects that are updated in
    place (crypto/replay/rdbx.c and the index code of srtp/srtp.c). */
module StreamIndexes {
  import opened Results
  import opened Replay
  import opened PacketIndex
  import opened BitVectors

  class ReplayDb {
    var index: nat
    const bitmask: BitVector

    ghost function View(): (db: Rdbx)
      reads this, bitmask.words
    {
      Rdbx(index, bitmask.Bits())
    }

    constructor (ws: nat)
      ensures View() == Init(ws) && fresh(bitmask) && fresh(bitmask.words)
    {
      index := 0;
      bitmask := new BitVector(ws);
    }

    method Check(delta: int) returns (s: Status)
      requires View().Valid()
      ensures s == Replay.Check(View(), delta)
    {
      var length := 32 * bitmask.words.Length;
      if delta > 0 { return Ok; }
      if length - 1 + delta < 0 { return ReplayOld; }
      var bit := bitmask.GetBit(length - 1 + delta);
      s := if bit then ReplayFail else Ok;
    }

    method AddIndex(delta: int)
      requires View().Valid() && |View().bits| - 1 + delta >= 0
      modifies this, bitmask.words
      ensures View() == Replay.AddIndex(old(View()), delta)
    {
      var length := 32 * bitmask.words.Length;
      if delta > 0 {
        index := index + delta % SEQ_MAX;
        bitmask.LeftShift(delta);
        bitmask.SetBit(length - 1);
      } else {
        bitmask.SetBit(length - 1 + delta);
      }
    }

    method SetRocSeq(roc: roc32, s: seqNum) returns (r: Status)
      requires View().Valid()
      modifies this, bitmask.words
      ensures (r, View()) == Replay.SetRocSeq(old(View()), roc, s)
    {
      if roc < index / SEQ_MAX { return ReplayOld; }
      index := roc * SEQ_MAX + s;
      bitmask.SetToZero();
      r := Ok;
    }
  }

  /** The replay database of a stream together with its pending rollover counter. */
  class StreamIndex {
    const db: ReplayDb
    var pendingRoc: roc32

    ghost function View(): (st: IndexState)
      reads this, db, db.bitmask.words
    {
      IndexState(db.View(), pendingRoc)
    }

    constructor (ws: nat)
      ensures View() == IndexState(Init(ws), 0)
      ensures fresh(db) && fresh(db.bitmask) && fresh(db.bitmask.words)
    {
      db := new ReplayDb(ws);
      pendingRoc := 0;
    }

    /** The estimate and the replay check. */
    method Find(s: seqNum, carried: Option<roc32>) returns (l: Located)
      requires View().Valid()
      ensures l == Locate(View(), s, carried)
    {
      if carried.Some? {
        l := EstimateWithRoc(db.index, carried.value, s);
      } else if pendingRoc != 0 {
        l := EstimateWithRoc(db.index, pendingRoc, s);
      } else {
        var g := EstimateIndex(db.index, s);
        l := Located(Ok, g.est, g.delta);
      }
      if l.status == Ok {
        var c := db.Check(l.delta);
        l := l.(status := c);
      }
    }

    method FindSend(s: seqNum, allowRepeat: bool) returns (l: Located)
      requires View().Valid()
      ensures l == LocateSend(View(), s, allowRepeat)
    {
      l := Find(s, None);
      if l.status == ReplayFail && allowRepeat { l := l.(status := Ok); }
    }

    /** Puts a located packet on record; on the advance path the window starts afresh, and
        the result of the re-basing is ignored. */
    method Commit(l: Located)
      requires View().Valid() && l.Usable()
      requires l.status == Ok ==> |View().db.bits| - 1 + l.delta >= 0
      modifies this, db, db.bitmask.words
      ensures View() == Record(old(View()), l)
    {
      if l.status == IndexAdvance {
        var ignored := db.SetRocSeq(l.est / SEQ_MAX % ROC_MAX, l.est % SEQ_MAX);
        pendingRoc := 0;
        db.AddIndex(0);
      } else {
        db.AddIndex(l.delta);
      }
    }
  }
}
