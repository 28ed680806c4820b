/** The replay database of SRTCP: a window of 128 explicit packet indices for receivers, and a
    counter for senders (crypto/replay/rdb.c). */
module RtcpReplay {
  import opened Replay
  import opened BitVectors

  const RTCP_WINDOW := 128
  const RTCP_INDEX_MAX := 0x8000_0000

  type rtcpIndex = i: int | 0 <= i < RTCP_INDEX_MAX

  datatype Rdb = Rdb(start: nat, bits: seq<bool>) {
    predicate Valid() { |bits| == RTCP_WINDOW && start < RTCP_INDEX_MAX }
  }

  function Fresh(): (db: Rdb) { Rdb(0, ClearBits(RTCP_WINDOW)) }

  function CheckRtcp(db: Rdb, i: rtcpIndex): (s: Status)
    requires db.Valid()
  {
    if i >= db.start + RTCP_WINDOW then Ok
    else if i < db.start then ReplayOld
    else if db.bits[i - db.start] then ReplayFail
    else Ok
  }

  /** srtp_rdb_add_index for an index that is not before the window. */
  function AddRtcp(db: Rdb, i: rtcpIndex): (r: Rdb)
    requires db.Valid() && i >= db.start
    ensures r.Valid()
  {
    var delta := i - db.start;
    if delta < RTCP_WINDOW then db.(bits := db.bits[delta := true])
    else
      var shift := delta - (RTCP_WINDOW - 1);
      Rdb(db.start + shift, ShiftBits(db.bits, shift)[RTCP_WINDOW - 1 := true])
  }

  // --- Receivers --------------------------------------------------------------------------

  /** The database says exactly which of the seen indices are in the window, and the window
      ends at the newest of them. */
  ghost predicate TracksRtcp(db: Rdb, seen: set<int>) {
    && db.Valid()
    && (forall k | 0 <= k < RTCP_WINDOW :: db.bits[k] == (db.start + k in seen))
    && (forall i | i in seen :: i < db.start + RTCP_WINDOW)
    && (db.start > 0 ==> db.start + RTCP_WINDOW - 1 in seen)
  }

  lemma FreshTracks()
    ensures TracksRtcp(Fresh(), {})
  {
  }

  /** An index passes exactly if it is new and at most 127 behind every index seen so far. */
  lemma PassesIffNew(db: Rdb, seen: set<int>, i: rtcpIndex)
    requires TracksRtcp(db, seen)
    ensures CheckRtcp(db, i) == Ok <==> i !in seen && forall j | j in seen :: j - i < RTCP_WINDOW
  {
    if db.start <= i < db.start + RTCP_WINDOW { assert db.bits[i - db.start] == (i in seen); }
  }

  lemma AddTracks(db: Rdb, seen: set<int>, i: rtcpIndex)
    requires TracksRtcp(db, seen) && i >= db.start
    ensures TracksRtcp(AddRtcp(db, i), seen + {i})
  {
    var r := AddRtcp(db, i);
    forall k | 0 <= k < RTCP_WINDOW
      ensures r.bits[k] == (r.start + k in seen + {i})
    {
      var d := r.start - db.start + k;
      if d < RTCP_WINDOW { assert db.bits[d] == (db.start + d in seen); }
    }
  }

  /** A receiver that is shown authentic packets with these indices, one after the other:
      the ones it accepts. */
  function Accepts(db: Rdb, arrivals: seq<rtcpIndex>): (r: seq<rtcpIndex>)
    requires db.Valid()
    decreases |arrivals|
  {
    if arrivals == [] then []
    else if CheckRtcp(db, arrivals[0]) != Ok then Accepts(db, arrivals[1..])
    else [arrivals[0]] + Accepts(AddRtcp(db, arrivals[0]), arrivals[1..])
  }

  /** None of these indices was seen before, and none occurs twice. */
  ghost predicate NewOnce(a: seq<rtcpIndex>, seen: set<int>) {
    (forall k | 0 <= k < |a| :: a[k] !in seen) && (forall j, k | 0 <= j < k < |a| :: a[j] != a[k])
  }

  lemma {:induction false} AcceptedAreNew(db: Rdb, seen: set<int>, arrivals: seq<rtcpIndex>)
    requires TracksRtcp(db, seen) && db.Valid()
    ensures NewOnce(Accepts(db, arrivals), seen)
    decreases |arrivals|
  {
    hide AddRtcp, NewOnce;
    if arrivals == [] {
      NothingIsNew(seen);
    } else {
      var i, rest := arrivals[0], arrivals[1..];
      if CheckRtcp(db, i) == Ok {
        PassesIffNew(db, seen, i);
        AddTracks(db, seen, i);
        AcceptedAreNew(AddRtcp(db, i), seen + {i}, rest);
        FirstAndRest(i, Accepts(AddRtcp(db, i), rest), seen);
      } else {
        AcceptedAreNew(db, seen, rest);
      }
    }
  }

  lemma NothingIsNew(seen: set<int>)
    ensures NewOnce([], seen)
  {
  }

  lemma FirstAndRest(i: rtcpIndex, b: seq<rtcpIndex>, seen: set<int>)
    requires i !in seen && NewOnce(b, seen + {i})
    ensures NewOnce([i] + b, seen)
  {
    var a := [i] + b;
    assert forall k | 0 < k < |a| :: a[k] == b[k - 1];
  }

  /** Over any sequence of arrivals, no SRTCP index is accepted twice. */
  lemma NoRtcpIndexAcceptedTwice(arrivals: seq<rtcpIndex>)
    ensures var a := Accepts(Fresh(), arrivals); forall j, k | 0 <= j < k < |a| :: a[j] != a[k]
  {
    hide Accepts;
    FreshTracks();
    AcceptedAreNew(Fresh(), {}, arrivals);
  }

  // --- Senders ----------------------------------------------------------------------------

  /** srtp_rdb_increment: the next index, if there is one. */
  predicate Expired(db: Rdb) { db.start >= RTCP_INDEX_MAX - 1 }

  function Incremented(db: Rdb): (r: Rdb)
    requires db.Valid() && !Expired(db)
    ensures r.Valid()
  {
    db.(start := db.start + 1)
  }

  /** The indices that n requests to send are given. */
  function Issued(db: Rdb, n: nat): (r: seq<rtcpIndex>)
    requires db.Valid()
    decreases n
  {
    if n == 0 || Expired(db) then [] else [db.start + 1] + Issued(Incremented(db), n - 1)
  }

  /** A sender uses consecutive indices, never one twice, until the last one is used up. */
  lemma {:induction false} IssuedAreConsecutive(db: Rdb, n: nat)
    requires db.Valid()
    ensures var r := Issued(db, n);
      && (forall k | 0 <= k < |r| :: r[k] == db.start + 1 + k)
      && |r| == (if n <= RTCP_INDEX_MAX - 1 - db.start then n else RTCP_INDEX_MAX - 1 - db.start)
    decreases n
  {
    if n > 0 && !Expired(db) {
      IssuedAreConsecutive(Incremented(db), n - 1);
      var r, t := Issued(db, n), Issued(Incremented(db), n - 1);
      assert forall k | 0 < k < |r| :: r[k] == t[k - 1];
    }
  }

  // --- In place ---------------------------------------------------------------------------

  class RtcpDb {
    var start: nat
    const bitmask: BitVector

    ghost function View(): (db: Rdb)
      reads this, bitmask.words
    {
      Rdb(start, bitmask.Bits())
    }

    constructor ()
      ensures View() == Fresh() && fresh(bitmask) && fresh(bitmask.words)
    {
      start := 0;
      bitmask := new BitVector(RTCP_WINDOW);
    }

    method Check(i: rtcpIndex) returns (s: Status)
      requires View().Valid()
      ensures s == CheckRtcp(View(), i)
    {
      if i >= start + RTCP_WINDOW { return Ok; }
      if i < start { return ReplayOld; }
      var bit := bitmask.GetBit(i - start);
      s := if bit then ReplayFail else Ok;
    }

    method Add(i: rtcpIndex) returns (s: Status)
      requires View().Valid()
      modifies this, bitmask.words
      ensures i < old(start) ==> s == ReplayFail && View() == old(View())
      ensures i >= old(start) ==> s == Ok && View() == AddRtcp(old(View()), i)
    {
      hide ShiftBits, Flatten;
      if i < start { return ReplayFail; }
      var delta := i - start;
      if delta < RTCP_WINDOW {
        bitmask.SetBit(delta);
      } else {
        delta := delta - (RTCP_WINDOW - 1);
        bitmask.LeftShift(delta);
        bitmask.SetBit(RTCP_WINDOW - 1);
        start := start + delta;
      }
      s := Ok;
    }

    method Increment() returns (ok: bool)
      requires View().Valid()
      modifies this
      ensures ok == !Expired(old(View()))
      ensures View() == if ok then Incremented(old(View())) else old(View())
    {
      if start >= RTCP_INDEX_MAX - 1 { return false; }
      start := start + 1;
      ok := true;
    }
  }
}
