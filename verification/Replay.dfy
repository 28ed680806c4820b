/** The replay database with extended range (crypto/replay/rdbx.c): the highest
    packet index seen so far and one bit for each of the most recent indices. */
module Replay {

  datatype Status = Ok | ReplayOld | ReplayFail | IndexOld | IndexAdvance

  const SEQ_MEDIAN := 0x8000
  const SEQ_MAX := 0x1_0000
  const ROC_MAX := 0x1_0000_0000
  const INDEX_MAX := 0x1_0000_0000_0000

  type seqNum = s: int | 0 <= s < SEQ_MAX
  type roc32 = r: int | 0 <= r < ROC_MAX

  /** The bitmask's last bit stands for `index`, the one before it for `index - 1`, ... */
  datatype Rdbx = Rdbx(index: nat, bits: seq<bool>) {

    ghost predicate Valid() {
      0 < |bits| <= SEQ_MEDIAN
    }

    ghost predicate Pristine() {
      Valid() && index == 0 && forall k | 0 <= k < |bits| :: !bits[k]
    }

    /** Packet index i lies in the window and is marked as received. */
    ghost predicate Marked(i: int) {
      index - |bits| < i <= index && bits[|bits| - 1 + (i - index)]
    }
  }

  function ShiftBits(bits: seq<bool>, n: nat): (r: seq<bool>)
    ensures |r| == |bits|
    ensures forall k | 0 <= k < |bits| :: r[k] == (k + n < |bits| && bits[k + n])
  {
    seq(|bits|, k requires 0 <= k < |bits| => k + n < |bits| && bits[k + n])
  }

  function ClearBits(n: nat): (r: seq<bool>)
    ensures |r| == n
    ensures forall k | 0 <= k < n :: !r[k]
  {
    seq(n, k => false)
  }

  /** The bitmask is a whole number of 32-bit words. */
  function WindowLength(ws: nat): (l: nat)
    ensures ws <= l < ws + 32 && l % 32 == 0
  {
    (ws + 31) / 32 * 32
  }

  function Init(ws: nat): (db: Rdbx)
    ensures 0 < ws < SEQ_MEDIAN ==> db.Pristine()
  {
    Rdbx(0, ClearBits(WindowLength(ws)))
  }

  function Check(db: Rdbx, delta: int): (s: Status)
    requires db.Valid()
  {
    if delta > 0 then Ok
    else if |db.bits| - 1 + delta < 0 then ReplayOld
    else if db.bits[|db.bits| - 1 + delta] then ReplayFail
    else Ok
  }

  /** The advance of the index is truncated to 16 bits, the shift of the bitmask is not. */
  function AddIndex(db: Rdbx, delta: int): (r: Rdbx)
    requires db.Valid() && |db.bits| - 1 + delta >= 0
    ensures r.Valid() && |r.bits| == |db.bits|
  {
    var top := |db.bits| - 1;
    if delta > 0 then
      Rdbx(db.index + delta % SEQ_MAX, ShiftBits(db.bits, delta)[top := true])
    else
      Rdbx(db.index, db.bits[top + delta := true])
  }

  function SetRocSeq(db: Rdbx, roc: roc32, s: seqNum): (r: (Status, Rdbx))
    requires db.Valid()
    ensures r.1.Valid() && |r.1.bits| == |db.bits|
  {
    if roc < db.index / SEQ_MAX then (ReplayOld, db)
    else (Ok, Rdbx(roc * SEQ_MAX + s, ClearBits(|db.bits|)))
  }

  /** An estimated packet index and its distance from the local index. */
  datatype Estimate = Estimate(est: nat, delta: int)

  /** The rollover counter of the guess is a 32-bit value. */
  function GuessIndex(local: nat, s: seqNum): (g: Estimate)
  {
    var localRoc := local / SEQ_MAX % ROC_MAX;
    var localSeq := local % SEQ_MAX;
    if localSeq < SEQ_MEDIAN then
      if s - localSeq > SEQ_MEDIAN then
        Estimate((localRoc - 1) % ROC_MAX * SEQ_MAX + s, s - localSeq - SEQ_MAX)
      else
        Estimate(localRoc * SEQ_MAX + s, s - localSeq)
    else
      if localSeq - SEQ_MEDIAN > s then
        Estimate((localRoc + 1) % ROC_MAX * SEQ_MAX + s, s - localSeq + SEQ_MAX)
      else
        Estimate(localRoc * SEQ_MAX + s, s - localSeq)
  }

  function EstimateIndex(index: nat, s: seqNum): (g: Estimate) {
    if index > SEQ_MEDIAN then GuessIndex(index, s) else Estimate(s, s - index)
  }

  // --- Correctness of the estimate ------------------------------------------------

  lemma SplitIndex(i: nat)
    ensures i == i / SEQ_MAX * SEQ_MAX + i % SEQ_MAX && 0 <= i % SEQ_MAX < SEQ_MAX
  {
  }

  lemma RocModulo(r: int, s: seqNum)
    ensures (r * SEQ_MAX + s) % INDEX_MAX == r % ROC_MAX * SEQ_MAX + s
  {
    var q, m := r / ROC_MAX, r % ROC_MAX;
    assert r * SEQ_MAX + s == q * INDEX_MAX + (m * SEQ_MAX + s);
    assert 0 <= m * SEQ_MAX + s < INDEX_MAX;
  }

  function Abs(x: int): nat { if x < 0 then -x else x }

  lemma ModuloShift(r: int, d: int, m: int)
    requires m > 1
    ensures (r % m + d) % m == (r + d) % m
  {
    var q := r / m;
    assert r + d == q * m + (r % m + d);
    ModuloMultiple(q, r % m + d, m);
  }

  lemma {:induction false} ModuloMultiple(q: int, x: int, m: int)
    requires m > 1
    ensures (q * m + x) % m == x % m
    decreases if q < 0 then -q else q
  {
    if q > 0 {
      ModuloMultiple(q - 1, x, m);
      assert (q - 1) * m + x + m == q * m + x;
      ModuloAddOne((q - 1) * m + x, m);
    } else if q < 0 {
      ModuloMultiple(q + 1, x, m);
      assert q * m + x + m == (q + 1) * m + x;
      ModuloAddOne(q * m + x, m);
    }
  }

  lemma ModuloAddOne(x: int, m: int)
    requires m > 1
    ensures (x + m) % m == x % m
  {
    var k, z := x / m, x % m;
    assert x == k * m + z && x + m == (k + 1) * m + z;
    DivisionUnique(x + m, m, k + 1, z);
  }

  lemma DivisionUnique(x: int, m: int, k: int, z: int)
    requires m > 1 && 0 <= z < m && x == k * m + z
    ensures x / m == k && x % m == z
  {
    var k', z' := x / m, x % m;
    assert (k - k') * m == z' - z;
    assert k - k' >= 1 ==> (k - k') * m >= m;
    assert k - k' <= -1 ==> (k - k') * m <= -m;
  }

  /** The rollover counter the guess takes, before it is cut to 32 bits. */
  function GuessedRoc(local: nat, s: seqNum): int {
    var q := local % SEQ_MAX;
    if q < SEQ_MEDIAN && s - q > SEQ_MEDIAN then local / SEQ_MAX - 1
    else if q >= SEQ_MEDIAN && q - SEQ_MEDIAN > s then local / SEQ_MAX + 1
    else local / SEQ_MAX
  }

  lemma GuessedRocIsGuess(local: nat, s: seqNum)
    ensures GuessIndex(local, s).est == GuessedRoc(local, s) % ROC_MAX * SEQ_MAX + s
  {
    var r := local / SEQ_MAX;
    ModuloShift(r, 1, ROC_MAX);
    ModuloShift(r, -1, ROC_MAX);
  }

  /** The guess is the true index modulo 2^48, and a step of at most 2^15. */
  lemma GuessIsTrueIndexModulo(local: nat, s: seqNum)
    requires local > SEQ_MEDIAN
    ensures var g := GuessIndex(local, s);
      && -SEQ_MEDIAN <= g.delta <= SEQ_MEDIAN
      && 0 <= local + g.delta
      && (local + g.delta) % SEQ_MAX == s
      && g.est == (local + g.delta) % INDEX_MAX
  {
    var g, v := GuessIndex(local, s), GuessedRoc(local, s);
    SplitIndex(local);
    assert local + g.delta == v * SEQ_MAX + s;
    GuessedRocIsGuess(local, s);
    RocModulo(v, s);
    DivisionUnique(local + g.delta, SEQ_MAX, v, s);
  }

  /** What every estimate satisfies: `index + delta` is the non-negative number with
      the packet's sequence number that lies closest to the local index (section 3.3.1
      of RFC 3711), and `est` is that number reduced to 48 bits. */
  lemma EstimateIsClosest(index: nat, s: seqNum, v: nat)
    requires v % SEQ_MAX == s
    ensures var g := EstimateIndex(index, s);
      && -SEQ_MEDIAN <= g.delta < SEQ_MAX
      && 0 <= index + g.delta
      && (index + g.delta) % SEQ_MAX == s
      && g.est == (index + g.delta) % INDEX_MAX
      && Abs(g.delta) <= Abs(v - index)
  {
    var g := EstimateIndex(index, s);
    if index > SEQ_MEDIAN { GuessIsTrueIndexModulo(index, s); }
    var t := index + g.delta;
    SplitIndex(t);
    SplitIndex(v);
    var k := v / SEQ_MAX - t / SEQ_MAX;
    assert v == t + k * SEQ_MAX;
    assert k == 0 || Abs(v - t) >= SEQ_MAX;
  }

  /** The 48-bit estimate is exact unless the guess steps past the last rollover counter. */
  predicate RollsOver(index: nat, s: seqNum) {
    index / SEQ_MAX == ROC_MAX - 1 && index % SEQ_MAX - SEQ_MEDIAN > s
  }

  lemma EstimateExactIff(index: nat, s: seqNum)
    requires index < INDEX_MAX
    ensures var g := EstimateIndex(index, s);
      g.est == index + g.delta <==> !RollsOver(index, s)
  {
    var g := EstimateIndex(index, s);
    EstimateIsClosest(index, s, s);
    SplitIndex(index);
    if RollsOver(index, s) {
      assert index + g.delta == INDEX_MAX + s;
      assert g.est < INDEX_MAX;
    } else {
      assert index + g.delta < INDEX_MAX;
    }
  }
}
