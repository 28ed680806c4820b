/** AES encryption with tables, on a state that is updated in place (crypto/cipher/aes.c). */
module AesCode {
  import opened Results
  import opened AesTables
  import opened Aes

  // --- One round ----------------------------------------------------------------------------

  function PackQuad(q: quad): word { Pack(q[0], q[1], q[2], q[3]) }

  /** A column from the four tables, with its word of the round key. */
  function TableColumn(a: byte, b: byte, c: byte, d: byte, k: quad): (w: word) {
    PlusWord(PlusWord(PlusWord(PlusWord(T0(a), T1(b)), T2(c)), T3(d)), PackQuad(k))
  }

  lemma PackXorQuad(a: quad, b: quad)
    ensures PlusWord(PackQuad(a), PackQuad(b)) == PackQuad(XorQuad(a, b))
  {
    hide Pack, Plus, PlusWord;
    PackPlus(a[0], a[1], a[2], a[3], b[0], b[1], b[2], b[3]);
  }

  lemma UnpackQuad(q: quad)
    ensures Unpack(PackQuad(q)) == q
  {
    hide Pack, Unpack;
    UnpackPack(q[0], q[1], q[2], q[3]);
  }

  /** The tables do the substitution and the mixing of a column at once. */
  lemma TableColumnIs(a: byte, b: byte, c: byte, d: byte, k: quad)
    ensures Unpack(TableColumn(a, b, c, d, k)) == XorQuad(MixColumn(Sbox(a), Sbox(b), Sbox(c), Sbox(d)), k)
  {
    hide Pack, Unpack, XTime, Times3, Sbox, T0, T1, T2, T3, Plus, PlusWord;
    var p, q, r, s := Sbox(a), Sbox(b), Sbox(c), Sbox(d);
    TableT0(a);
    TableT1(b);
    TableT2(c);
    TableT3(d);
    var t0, t1: quad, t2: quad, t3: quad :=
      [XTime(p), p, p, Times3(p)], [Times3(q), XTime(q), q, q],
      [r, Times3(r), XTime(r), r], [s, s, Times3(s), XTime(s)];
    PackXorQuad(t0, t1);
    PackXorQuad(XorQuad(t0, t1), t2);
    PackXorQuad(XorQuad(XorQuad(t0, t1), t2), t3);
    PackXorQuad(XorQuad(XorQuad(XorQuad(t0, t1), t2), t3), k);
    assert XorQuad(XorQuad(XorQuad(t0, t1), t2), t3) == MixColumn(p, q, r, s);
    UnpackQuad(XorQuad(MixColumn(p, q, r, s), k));
  }

  lemma AddToColumns(a: quad, b: quad, c: quad, d: quad, k: state)
    ensures AddRoundKey(a + b + c + d, k)
      == XorQuad(a, k[0..4]) + XorQuad(b, k[4..8]) + XorQuad(c, k[8..12]) + XorQuad(d, k[12..16])
  {
    hide Plus;
  }

  /** The next column from four octets of the state. */
  function NextColumn(a: byte, b: byte, c: byte, d: byte, k: quad): (q: quad) {
    XorQuad(MixColumn(Sbox(a), Sbox(b), Sbox(c), Sbox(d)), k)
  }

  /** A round, column by column. */
  lemma RoundByColumns(x: state, k: state)
    ensures RoundOf(x, k)
      == NextColumn(x[0], x[5], x[10], x[15], k[0..4]) + NextColumn(x[4], x[9], x[14], x[3], k[4..8])
         + NextColumn(x[8], x[13], x[2], x[7], k[8..12]) + NextColumn(x[12], x[1], x[6], x[11], k[12..16])
  {
    hide Sbox, MixColumn, XorQuad, AddRoundKey;
    var y := ShiftRows(SubBytes(x));
    AddToColumns(MixColumn(y[0], y[1], y[2], y[3]), MixColumn(y[4], y[5], y[6], y[7]),
                 MixColumn(y[8], y[9], y[10], y[11]), MixColumn(y[12], y[13], y[14], y[15]), k);
  }

  /** Writes a word to the state. */
  method Store(s: array<byte>, j: nat, w: word)
    requires s.Length == 16 && j < 4
    modifies s
    ensures s[..] == old(s[..4 * j]) + Unpack(w) + old(s[4 * j + 4..])
  {
    hide Unpack;
    var q := Unpack(w);
    s[4 * j], s[4 * j + 1], s[4 * j + 2], s[4 * j + 3] := q[0], q[1], q[2], q[3];
  }

  /** aes_round */
  method Round(s: array<byte>, k: state)
    requires s.Length == 16
    modifies s
    ensures s[..] == RoundOf(old(s[..]), k)
  {
    hide TableColumn, Unpack, RoundOf, Sbox, MixColumn, XorQuad, NextColumn;
    var c0 := TableColumn(s[0], s[5], s[10], s[15], k[0..4]);
    var c1 := TableColumn(s[4], s[9], s[14], s[3], k[4..8]);
    var c2 := TableColumn(s[8], s[13], s[2], s[7], k[8..12]);
    var c3 := TableColumn(s[12], s[1], s[6], s[11], k[12..16]);
    NextColumnIs(s[0], s[5], s[10], s[15], k[0..4]);
    NextColumnIs(s[4], s[9], s[14], s[3], k[4..8]);
    NextColumnIs(s[8], s[13], s[2], s[7], k[8..12]);
    NextColumnIs(s[12], s[1], s[6], s[11], k[12..16]);
    RoundByColumns(s[..], k);
    StoreAll(s, c0, c1, c2, c3);
  }

  lemma NextColumnIs(a: byte, b: byte, c: byte, d: byte, k: quad)
    ensures Unpack(TableColumn(a, b, c, d, k)) == NextColumn(a, b, c, d, k)
  {
    hide TableColumn, Unpack, Sbox, MixColumn, XorQuad;
    TableColumnIs(a, b, c, d, k);
  }

  method StoreAll(s: array<byte>, c0: word, c1: word, c2: word, c3: word)
    requires s.Length == 16
    modifies s
    ensures s[..] == Unpack(c0) + Unpack(c1) + Unpack(c2) + Unpack(c3)
  {
    hide Unpack;
    Store(s, 0, c0);
    Store(s, 1, c1);
    Store(s, 2, c2);
    Store(s, 3, c3);
  }

  lemma RowsMoved(x: state, y: state)
    requires y[0] == Sbox(x[0]) && y[4] == Sbox(x[4]) && y[8] == Sbox(x[8]) && y[12] == Sbox(x[12])
    requires y[1] == Sbox(x[5]) && y[5] == Sbox(x[9]) && y[9] == Sbox(x[13]) && y[13] == Sbox(x[1])
    requires y[2] == Sbox(x[10]) && y[6] == Sbox(x[14]) && y[10] == Sbox(x[2]) && y[14] == Sbox(x[6])
    requires y[3] == Sbox(x[15]) && y[7] == Sbox(x[3]) && y[11] == Sbox(x[7]) && y[15] == Sbox(x[11])
    ensures y == ShiftRows(SubBytes(x))
  {
    hide Sbox;
  }

  /** The first two rows: no shift, and one place left. */
  method FirstRows(s: array<byte>)
    requires s.Length == 16
    modifies s
    ensures s[0] == Sbox(old(s[0])) && s[4] == Sbox(old(s[4])) && s[8] == Sbox(old(s[8])) && s[12] == Sbox(old(s[12]))
    ensures s[1] == Sbox(old(s[5])) && s[5] == Sbox(old(s[9])) && s[9] == Sbox(old(s[13])) && s[13] == Sbox(old(s[1]))
    ensures s[2] == old(s[2]) && s[6] == old(s[6]) && s[10] == old(s[10]) && s[14] == old(s[14])
    ensures s[3] == old(s[3]) && s[7] == old(s[7]) && s[11] == old(s[11]) && s[15] == old(s[15])
  {
    hide Sbox;
    s[0] := Sbox(s[0]);
    s[4] := Sbox(s[4]);
    s[8] := Sbox(s[8]);
    s[12] := Sbox(s[12]);
    var tmp := Sbox(s[1]);
    s[1] := Sbox(s[5]);
    s[5] := Sbox(s[9]);
    s[9] := Sbox(s[13]);
    s[13] := tmp;
  }

  /** The last two rows: two and three places left. */
  method LastRows(s: array<byte>)
    requires s.Length == 16
    modifies s
    ensures s[2] == Sbox(old(s[10])) && s[6] == Sbox(old(s[14])) && s[10] == Sbox(old(s[2])) && s[14] == Sbox(old(s[6]))
    ensures s[3] == Sbox(old(s[15])) && s[7] == Sbox(old(s[3])) && s[11] == Sbox(old(s[7])) && s[15] == Sbox(old(s[11]))
    ensures s[0] == old(s[0]) && s[4] == old(s[4]) && s[8] == old(s[8]) && s[12] == old(s[12])
    ensures s[1] == old(s[1]) && s[5] == old(s[5]) && s[9] == old(s[9]) && s[13] == old(s[13])
  {
    hide Sbox;
    var tmp := Sbox(s[10]);
    s[10] := Sbox(s[2]);
    s[2] := tmp;
    tmp := Sbox(s[14]);
    s[14] := Sbox(s[6]);
    s[6] := tmp;
    tmp := Sbox(s[15]);
    s[15] := Sbox(s[11]);
    s[11] := Sbox(s[7]);
    s[7] := Sbox(s[3]);
    s[3] := tmp;
  }

  /** aes_final_round: substitution and row shifts by moving octets, then the round key. */
  method FinalRound(s: array<byte>, k: state)
    requires s.Length == 16
    modifies s
    ensures s[..] == FinalRoundOf(old(s[..]), k)
  {
    hide Sbox, AddRoundKey, ShiftRows, SubBytes;
    FirstRows(s);
    LastRows(s);
    RowsMoved(old(s[..]), s[..]);
    AddKey(s, k);
  }

  /** v128_xor_eq */
  method AddKey(s: array<byte>, k: state)
    requires s.Length == 16
    modifies s
    ensures s[..] == AddRoundKey(old(s[..]), k)
  {
    hide Plus;
    for i := 0 to 16
      invariant forall j | 0 <= j < i :: s[j] == Plus(old(s[j]), k[j])
      invariant forall j | i <= j < 16 :: s[j] == old(s[j])
    {
      s[i] := Plus(s[i], k[i]);
    }
  }

  // --- Key expansion ------------------------------------------------------------------------

  /** The four words of a round key that follow from their first one and an earlier round key. */
  function Chained(first: quad, k: state): (r: state) {
    var w0 := XorQuad(first, k[0..4]);
    var w1 := XorQuad(w0, k[4..8]);
    var w2 := XorQuad(w1, k[8..12]);
    w0 + w1 + w2 + XorQuad(w2, k[12..16])
  }

  lemma QuadsOfState(a: quad, b: quad, c: quad, d: quad)
    ensures var s: state := a + b + c + d; s[0..4] == a && s[4..8] == b && s[8..12] == c && s[12..16] == d
  {
  }

  lemma XorQuadCommutes(a: quad, b: quad)
    ensures XorQuad(a, b) == XorQuad(b, a)
  {
    hide Plus;
    PlusCommutes(a[0], b[0]);
    PlusCommutes(a[1], b[1]);
    PlusCommutes(a[2], b[2]);
    PlusCommutes(a[3], b[3]);
  }

  lemma PlusCommutes(a: byte, b: byte)
    ensures Plus(a, b) == Plus(b, a)
  {
  }

  lemma ChainedWords(first: quad, a: quad, b: quad, c: quad, d: quad)
    ensures var w0 := XorQuad(a, first);
      var w1 := XorQuad(b, w0);
      var w2 := XorQuad(c, w1);
      Chained(first, a + b + c + d) == w0 + w1 + w2 + XorQuad(d, w2)
  {
    hide XorQuad;
    QuadsOfState(a, b, c, d);
    XorQuadCommutes(a, first);
    XorQuadCommutes(b, XorQuad(a, first));
    XorQuadCommutes(c, XorQuad(b, XorQuad(a, first)));
    XorQuadCommutes(d, XorQuad(c, XorQuad(b, XorQuad(a, first))));
  }

  lemma KeyWordStep(key: seq<byte>, nk: nat, i: nat)
    requires KeyLength(|key|) && nk == |key| / 4 && i >= nk
    ensures KeyWord(key, i) == XorQuad(KeyWord(key, i - nk), Munge(nk, i, KeyWord(key, i - 1)))
  {
    hide XorQuad, Munge;
  }

  lemma MungeLater(nk: nat, r: nat, j: nat, t: quad)
    requires (nk == 4 || nk == 8) && 4 * r >= nk && 1 <= j <= 3
    ensures Munge(nk, 4 * r + j, t) == t
  {
    hide XorQuad, SubWord, RotWord;
    if nk == 4 {
      Remainder(4, r, j);
    } else {
      var q, e := r / 2, r % 2;
      assert 4 * r + j == 8 * q + (4 * e + j);
      Remainder(8, q, 4 * e + j);
    }
  }

  lemma Remainder(m: nat, q: nat, x: nat)
    requires x < m && (m == 4 || m == 8)
    ensures (m * q + x) % m == x
  {
  }

  /** Round key r from the round key nk / 4 before it. */
  lemma NextRoundKey(key: seq<byte>, nk: nat, r: nat)
    requires KeyLength(|key|) && nk == |key| / 4 && 4 * r >= nk
    ensures RoundKey(key, r) == Chained(Munge(nk, 4 * r, KeyWord(key, 4 * r - 1)), RoundKey(key, r - nk / 4))
  {
    hide XorQuad, Munge, KeyWord, Chained;
    var b := r - nk / 4;
    assert 4 * r - nk == 4 * b;
    KeyWordStep(key, nk, 4 * r);
    KeyWordStep(key, nk, 4 * r + 1);
    KeyWordStep(key, nk, 4 * r + 2);
    KeyWordStep(key, nk, 4 * r + 3);
    MungeLater(nk, r, 1, KeyWord(key, 4 * r));
    MungeLater(nk, r, 2, KeyWord(key, 4 * r + 1));
    MungeLater(nk, r, 3, KeyWord(key, 4 * r + 2));
    ChainedWords(Munge(nk, 4 * r, KeyWord(key, 4 * r - 1)),
                 KeyWord(key, 4 * b), KeyWord(key, 4 * b + 1), KeyWord(key, 4 * b + 2), KeyWord(key, 4 * b + 3));
  }

  lemma LastWord(key: seq<byte>, r: nat)
    requires KeyLength(|key|) && r >= 1
    ensures RoundKey(key, r - 1)[12..16] == KeyWord(key, 4 * r - 1)
  {
    hide KeyWord;
    QuadsOfState(KeyWord(key, 4 * r - 4), KeyWord(key, 4 * r - 3), KeyWord(key, 4 * r - 2), KeyWord(key, 4 * r - 1));
  }

  lemma FirstRoundKeys(key: seq<byte>)
    requires KeyLength(|key|)
    ensures RoundKey(key, 0) == key[..16] && (|key| == 32 ==> RoundKey(key, 1) == key[16..])
  {
    hide XorQuad, Munge;
    assert KeyWord(key, 0) == key[0..4] && KeyWord(key, 1) == key[4..8];
    assert KeyWord(key, 2) == key[8..12] && KeyWord(key, 3) == key[12..16];
    if |key| == 32 {
      assert KeyWord(key, 4) == key[16..20] && KeyWord(key, 5) == key[20..24];
      assert KeyWord(key, 6) == key[24..28] && KeyWord(key, 7) == key[28..32];
    }
  }

  lemma PowerNext(n: nat)
    ensures Power(n + 1) == XTime(Power(n)) && Power(0) == 1
  {
    hide XTime;
  }

  /** aes_128_expand_encryption_key */
  method Expand128(key: seq<byte>) returns (round: seq<state>)
    requires |key| == 16
    ensures |round| == 11 && forall r | 0 <= r < 11 :: round[r] == RoundKey(key, r)
  {
    hide RoundKey, KeyWord, Chained, XTime, Plus, Sbox, Power;
    FirstRoundKeys(key);
    PowerNext(0);
    round := [key];
    var rc: byte := 1;
    for i := 1 to 11
      invariant |round| == i && rc == Power(i - 1) && forall r | 0 <= r < i :: round[r] == RoundKey(key, r)
    {
      var k := round[i - 1];
      LastWord(key, i);
      NextRoundKey(key, 4, i);
      PowerNext(i - 1);
      var first: quad := [Plus(Sbox(k[13]), rc), Sbox(k[14]), Sbox(k[15]), Sbox(k[12])];
      MungeRotated(4, i, k[12..16], rc);
      round := round + [Chained(first, k)];
      rc := XTime(rc);
    }
  }

  /** The first word of a round key that starts a new multiple of the key. */
  lemma MungeRotated(nk: nat, r: nat, t: quad, rc: byte)
    requires (nk == 4 || nk == 8) && 4 * r >= nk && 4 * r % nk == 0 && rc == Power(4 * r / nk - 1)
    ensures Munge(nk, 4 * r, t) == [Plus(Sbox(t[1]), rc), Sbox(t[2]), Sbox(t[3]), Sbox(t[0])]
  {
    hide Sbox, Power, Plus;
    PlusZero(Sbox(t[2]));
    PlusZero(Sbox(t[3]));
    PlusZero(Sbox(t[0]));
  }

  lemma PlusZero(a: byte)
    ensures Plus(a, 0) == a
  {
  }

  /** aes_256_expand_encryption_key */
  method Expand256(key: seq<byte>) returns (round: seq<state>)
    requires |key| == 32
    ensures |round| == 15 && forall r | 0 <= r < 15 :: round[r] == RoundKey(key, r)
  {
    hide RoundKey, KeyWord, Chained, XTime, Plus, Sbox, Power;
    FirstRoundKeys(key);
    PowerNext(0);
    round := [key[..16], key[16..]];
    var rc: byte := 1;
    for i := 2 to 15
      invariant |round| == i && rc == Power((i + 1) / 2 - 1) && forall r | 0 <= r < i :: round[r] == RoundKey(key, r)
    {
      var next;
      next, rc := Next256(round[i - 2], round[i - 1], i, rc, key);
      round := round + [next];
    }
  }

  /** One turn of the loop: round key i from the two before it. */
  method Next256(p: state, k: state, i: nat, rc: byte, ghost key: seq<byte>) returns (next: state, c: byte)
    requires |key| == 32 && i >= 2 && p == RoundKey(key, i - 2) && k == RoundKey(key, i - 1)
    requires rc == Power((i + 1) / 2 - 1)
    ensures next == RoundKey(key, i) && c == Power((i + 2) / 2 - 1)
  {
    hide RoundKey, KeyWord, Chained, XTime, Plus, Sbox, Power;
    LastWord(key, i);
    NextRoundKey(key, 8, i);
    var first: quad;
    c := rc;
    if i % 2 == 0 {
      first := [Plus(Sbox(k[13]), rc), Sbox(k[14]), Sbox(k[15]), Sbox(k[12])];
      MungeRotated(8, i, k[12..16], rc);
      PowerNext(i / 2 - 1);
      c := XTime(rc);
    } else {
      first := [Sbox(k[12]), Sbox(k[13]), Sbox(k[14]), Sbox(k[15])];
      MungeMiddle(i, k[12..16]);
    }
    next := Chained(first, p);
  }

  lemma MungeMiddle(r: nat, t: quad)
    requires r >= 2 && r % 2 == 1
    ensures Munge(8, 4 * r, t) == [Sbox(t[0]), Sbox(t[1]), Sbox(t[2]), Sbox(t[3])]
  {
    hide Sbox;
    assert 4 * r % 8 == 4;
  }

  // --- Encryption ---------------------------------------------------------------------------

  /** srtp_aes_expand_encryption_key */
  method ExpandKey(key: seq<byte>) returns (r: Result<seq<state>>)
    ensures r.Success? <==> KeyLength(|key|)
    ensures r.Success? ==> |r.value| == RoundCount(|key|) + 1
    ensures r.Success? ==> forall i | 0 <= i < |r.value| :: r.value[i] == RoundKey(key, i)
    ensures r.Failure? ==> r.error == BadParam
  {
    hide RoundKey;
    if |key| == 16 {
      var k := Expand128(key);
      return Success(k);
    } else if |key| == 32 {
      var k := Expand256(key);
      return Success(k);
    }
    r := Failure(BadParam);
  }

  /** srtp_aes_encrypt */
  method Encrypt(s: array<byte>, round: seq<state>, ghost key: seq<byte>)
    requires s.Length == 16 && KeyLength(|key|) && |round| == RoundCount(|key|) + 1
    requires forall i | 0 <= i < |round| :: round[i] == RoundKey(key, i)
    modifies s
    ensures s[..] == Encrypted(key, old(s[..]))
  {
    hide RoundKey, RoundOf, FinalRoundOf, AddRoundKey;
    ghost var x := s[..];
    AddKey(s, round[0]);
    for i := 1 to |round| - 1
      invariant s[..] == After(key, x, i - 1)
    {
      Round(s, round[i]);
    }
    FinalRound(s, round[|round| - 1]);
  }
}
