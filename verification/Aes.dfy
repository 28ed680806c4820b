/** AES as defined in FIPS 197, for keys of 128 and 256 bits, and the tables measured against it. */
module Aes {
  import opened AesTables

  type quad = s: seq<byte> | |s| == 4 witness [0, 0, 0, 0]
  type state = s: seq<byte> | |s| == 16 witness [0, 0, 0, 0, 0, 0, 0, 0, 0, 0, 0, 0, 0, 0, 0, 0]

  // --- The cipher ---------------------------------------------------------------------------

  /** Addition in GF(2^8), section 4.1. */
  function Plus(a: byte, b: byte): byte { a ^ b }

  /** Multiplication by x, section 4.2.1, and by x + 1. */
  function XTime(b: byte): byte { (b << 1) ^ (if b & 0x80 == 0 then 0 else 0x1b) }

  function Times3(b: byte): byte { Plus(XTime(b), b) }

  function SubBytes(s: state): (r: state)
    ensures forall i | 0 <= i < 16 :: r[i] == Sbox(s[i])
  {
    seq(16, i requires 0 <= i < 16 => Sbox(s[i]))
  }

  /** The columns of the state are stored one after the other. */
  function ShiftRows(s: state): (r: state) {
    [s[0], s[5], s[10], s[15], s[4], s[9], s[14], s[3], s[8], s[13], s[2], s[7], s[12], s[1], s[6], s[11]]
  }

  /** Row r moves r places to the left, section 5.1.2. */
  lemma RowsShift(s: state, r: nat, c: nat)
    requires r < 4 && c < 4
    ensures ShiftRows(s)[r + 4 * c] == s[r + 4 * ((c + r) % 4)]
  {
  }

  /** Section 5.1.3. */
  function MixColumn(a: byte, b: byte, c: byte, d: byte): (r: quad) {
    [Sum(XTime(a), Times3(b), c, d), Sum(a, XTime(b), Times3(c), d),
     Sum(a, b, XTime(c), Times3(d)), Sum(Times3(a), b, c, XTime(d))]
  }

  function Sum(a: byte, b: byte, c: byte, d: byte): byte { Plus(Plus(Plus(a, b), c), d) }

  function MixColumns(s: state): (r: state) {
    MixColumn(s[0], s[1], s[2], s[3]) + MixColumn(s[4], s[5], s[6], s[7])
    + MixColumn(s[8], s[9], s[10], s[11]) + MixColumn(s[12], s[13], s[14], s[15])
  }

  function AddRoundKey(s: state, k: state): (r: state)
    ensures forall i | 0 <= i < 16 :: r[i] == Plus(s[i], k[i])
  {
    seq(16, i requires 0 <= i < 16 => Plus(s[i], k[i]))
  }

  function RoundOf(s: state, k: state): (r: state) { AddRoundKey(MixColumns(ShiftRows(SubBytes(s))), k) }

  function FinalRoundOf(s: state, k: state): (r: state) { AddRoundKey(ShiftRows(SubBytes(s)), k) }

  // --- The key schedule, section 5.2 --------------------------------------------------------

  function XorQuad(a: quad, b: quad): (r: quad) {
    [Plus(a[0], b[0]), Plus(a[1], b[1]), Plus(a[2], b[2]), Plus(a[3], b[3])]
  }

  function SubWord(a: quad): (r: quad) { [Sbox(a[0]), Sbox(a[1]), Sbox(a[2]), Sbox(a[3])] }

  function RotWord(a: quad): (r: quad) { [a[1], a[2], a[3], a[0]] }

  /** x to the power n. */
  function Power(n: nat): byte { if n == 0 then 1 else XTime(Power(n - 1)) }

  function Rcon(i: nat): (r: quad)
    requires i >= 1
  {
    [Power(i - 1), 0, 0, 0]
  }

  predicate KeyLength(n: nat) { n == 16 || n == 32 }

  /** What word i adds to the word nk places before it, given the word before it. */
  function Munge(nk: nat, i: nat, t: quad): (u: quad)
    requires nk == 4 || nk == 8
    requires i >= nk
  {
    if i % nk == 0 then XorQuad(SubWord(RotWord(t)), Rcon(i / nk)) else if nk > 6 && i % nk == 4 then SubWord(t) else t
  }

  /** Word i of the expanded key; a key has n / 4 words. */
  function KeyWord(key: seq<byte>, i: nat): (w: quad)
    requires KeyLength(|key|)
    decreases i
  {
    var nk := |key| / 4;
    if i < nk then key[4 * i..4 * i + 4]
    else XorQuad(KeyWord(key, i - nk), Munge(nk, i, KeyWord(key, i - 1)))
  }

  function RoundKey(key: seq<byte>, r: nat): (k: state)
    requires KeyLength(|key|)
  {
    KeyWord(key, 4 * r) + KeyWord(key, 4 * r + 1) + KeyWord(key, 4 * r + 2) + KeyWord(key, 4 * r + 3)
  }

  function RoundCount(n: nat): (r: nat) { if n == 16 then 10 else 14 }

  /** The state after r rounds, section 5.1. */
  function After(key: seq<byte>, x: state, r: nat): (s: state)
    requires KeyLength(|key|)
  {
    if r == 0 then AddRoundKey(x, RoundKey(key, 0)) else RoundOf(After(key, x, r - 1), RoundKey(key, r))
  }

  function Encrypted(key: seq<byte>, x: state): (y: state)
    requires KeyLength(|key|)
  {
    var nr := RoundCount(|key|);
    FinalRoundOf(After(key, x, nr - 1), RoundKey(key, nr))
  }

  // --- The tables ---------------------------------------------------------------------------

  /** Four octets in a little-endian word, and back. */
  function Pack(a: byte, b: byte, c: byte, d: byte): word {
    (a as word) | ((b as word) << 8) | ((c as word) << 16) | ((d as word) << 24)
  }

  function Unpack(w: word): (q: quad) {
    [(w & 0xff) as byte, ((w >> 8) & 0xff) as byte, ((w >> 16) & 0xff) as byte, ((w >> 24) & 0xff) as byte]
  }

  lemma UnpackPack(a: byte, b: byte, c: byte, d: byte)
    ensures Unpack(Pack(a, b, c, d)) == [a, b, c, d]
  {
  }

  function PlusWord(a: word, b: word): word { a ^ b }

  lemma PackPlus(a: byte, b: byte, c: byte, d: byte, p: byte, q: byte, r: byte, s: byte)
    ensures PlusWord(Pack(a, b, c, d), Pack(p, q, r, s)) == Pack(Plus(a, p), Plus(b, q), Plus(c, r), Plus(d, s))
  {
  }

  // --- Row by row ---------------------------------------------------------------------------

  /** An entry of each table holds the multiples of an S-box value that a column needs. */
  ghost predicate Columns(s: byte, t0: word, t1: word, t2: word, t3: word) {
    && t0 == Pack(XTime(s), s, s, Times3(s)) && t1 == Pack(Times3(s), XTime(s), s, s)
    && t2 == Pack(s, Times3(s), XTime(s), s) && t3 == Pack(s, s, Times3(s), XTime(s))
  }

  /** Multiplication in GF(2^8), section 4.2. */
  function Times(a: byte, b: byte): byte {
    var a1 := XTime(a);
    var a2 := XTime(a1);
    var a3 := XTime(a2);
    var a4 := XTime(a3);
    var a5 := XTime(a4);
    var a6 := XTime(a5);
    var a7 := XTime(a6);
    (if b & 1 == 0 then 0 else a) ^ (if b & 2 == 0 then 0 else a1)
    ^ (if b & 4 == 0 then 0 else a2) ^ (if b & 8 == 0 then 0 else a3)
    ^ (if b & 16 == 0 then 0 else a4) ^ (if b & 32 == 0 then 0 else a5)
    ^ (if b & 64 == 0 then 0 else a6) ^ (if b & 128 == 0 then 0 else a7)
  }

  /** The affine transformation of section 5.1.1: the sum of five rotations and a constant. */
  function Affine(b: byte): byte {
    b ^ ((b << 1) | (b >> 7)) ^ ((b << 2) | (b >> 6)) ^ ((b << 3) | (b >> 5)) ^ ((b << 4) | (b >> 4)) ^ 0x63
  }

  /** Its inverse, section 5.3.2. */
  function InvAffine(b: byte): byte {
    ((b << 1) | (b >> 7)) ^ ((b << 3) | (b >> 5)) ^ ((b << 6) | (b >> 2)) ^ 0x05
  }

  lemma AffineOfInverse(b: byte)
    ensures Affine(InvAffine(b)) == b && InvAffine(Affine(b)) == b
  {
  }

  /** s is the affine transformation of the multiplicative inverse of x, or of 0. */
  ghost predicate Substitutes(x: byte, s: byte) {
    var y := InvAffine(s);
    if x == 0 then y == 0 else Times(x, y) == 1
  }

  lemma Row0(n: byte)
    requires n < 16
    ensures Columns(Sbox0(n), T00(n), T10(n), T20(n), T30(n)) && Substitutes(0x00 | n, Sbox0(n))
  {
  }

  lemma Row1(n: byte)
    requires n < 16
    ensures Columns(Sbox1(n), T01(n), T11(n), T21(n), T31(n)) && Substitutes(0x10 | n, Sbox1(n))
  {
  }

  lemma Row2(n: byte)
    requires n < 16
    ensures Columns(Sbox2(n), T02(n), T12(n), T22(n), T32(n)) && Substitutes(0x20 | n, Sbox2(n))
  {
  }

  lemma Row3(n: byte)
    requires n < 16
    ensures Columns(Sbox3(n), T03(n), T13(n), T23(n), T33(n)) && Substitutes(0x30 | n, Sbox3(n))
  {
  }

  lemma Row4(n: byte)
    requires n < 16
    ensures Columns(Sbox4(n), T04(n), T14(n), T24(n), T34(n)) && Substitutes(0x40 | n, Sbox4(n))
  {
  }

  lemma Row5(n: byte)
    requires n < 16
    ensures Columns(Sbox5(n), T05(n), T15(n), T25(n), T35(n)) && Substitutes(0x50 | n, Sbox5(n))
  {
  }

  lemma Row6(n: byte)
    requires n < 16
    ensures Columns(Sbox6(n), T06(n), T16(n), T26(n), T36(n)) && Substitutes(0x60 | n, Sbox6(n))
  {
  }

  lemma Row7(n: byte)
    requires n < 16
    ensures Columns(Sbox7(n), T07(n), T17(n), T27(n), T37(n)) && Substitutes(0x70 | n, Sbox7(n))
  {
  }

  lemma Row8(n: byte)
    requires n < 16
    ensures Columns(Sbox8(n), T08(n), T18(n), T28(n), T38(n)) && Substitutes(0x80 | n, Sbox8(n))
  {
  }

  lemma Row9(n: byte)
    requires n < 16
    ensures Columns(Sbox9(n), T09(n), T19(n), T29(n), T39(n)) && Substitutes(0x90 | n, Sbox9(n))
  {
  }

  lemma RowA(n: byte)
    requires n < 16
    ensures Columns(SboxA(n), T0A(n), T1A(n), T2A(n), T3A(n)) && Substitutes(0xa0 | n, SboxA(n))
  {
  }

  lemma RowB(n: byte)
    requires n < 16
    ensures Columns(SboxB(n), T0B(n), T1B(n), T2B(n), T3B(n)) && Substitutes(0xb0 | n, SboxB(n))
  {
  }

  lemma RowC(n: byte)
    requires n < 16
    ensures Columns(SboxC(n), T0C(n), T1C(n), T2C(n), T3C(n)) && Substitutes(0xc0 | n, SboxC(n))
  {
  }

  lemma RowD(n: byte)
    requires n < 16
    ensures Columns(SboxD(n), T0D(n), T1D(n), T2D(n), T3D(n)) && Substitutes(0xd0 | n, SboxD(n))
  {
  }

  lemma RowE(n: byte)
    requires n < 16
    ensures Columns(SboxE(n), T0E(n), T1E(n), T2E(n), T3E(n)) && Substitutes(0xe0 | n, SboxE(n))
  {
  }

  lemma RowF(n: byte)
    requires n < 16
    ensures Columns(SboxF(n), T0F(n), T1F(n), T2F(n), T3F(n)) && Substitutes(0xf0 | n, SboxF(n))
  {
  }

  /** The entries of all tables for x, from the row that x belongs to. */
  lemma Entries(x: byte)
    ensures Columns(Sbox(x), T0(x), T1(x), T2(x), T3(x)) && Substitutes(x, Sbox(x))
  {
    hide Columns, Substitutes,
         Sbox0, Sbox1, Sbox2, Sbox3, Sbox4, Sbox5, Sbox6, Sbox7, Sbox8, Sbox9, SboxA, SboxB, SboxC, SboxD, SboxE, SboxF,
         T00, T01, T02, T03, T04, T05, T06, T07, T08, T09, T0A, T0B, T0C, T0D, T0E, T0F,
         T10, T11, T12, T13, T14, T15, T16, T17, T18, T19, T1A, T1B, T1C, T1D, T1E, T1F,
         T20, T21, T22, T23, T24, T25, T26, T27, T28, T29, T2A, T2B, T2C, T2D, T2E, T2F,
         T30, T31, T32, T33, T34, T35, T36, T37, T38, T39, T3A, T3B, T3C, T3D, T3E, T3F;
    var n := x & 0x0f;
    var h := x >> 4;
    if h & 8 == 0 {
      if h & 4 == 0 {
        if h & 2 == 0 {
          if h & 1 == 0 { Row0(n); } else { Row1(n); }
        } else {
          if h & 1 == 0 { Row2(n); } else { Row3(n); }
        }
      } else {
        if h & 2 == 0 {
          if h & 1 == 0 { Row4(n); } else { Row5(n); }
        } else {
          if h & 1 == 0 { Row6(n); } else { Row7(n); }
        }
      }
    } else {
      if h & 4 == 0 {
        if h & 2 == 0 {
          if h & 1 == 0 { Row8(n); } else { Row9(n); }
        } else {
          if h & 1 == 0 { RowA(n); } else { RowB(n); }
        }
      } else {
        if h & 2 == 0 {
          if h & 1 == 0 { RowC(n); } else { RowD(n); }
        } else {
          if h & 1 == 0 { RowE(n); } else { RowF(n); }
        }
      }
    }
  }

  /** Each entry of each table holds the multiples of one S-box value that a column needs. */
  lemma TableT0(x: byte)
    ensures var s := Sbox(x); T0(x) == Pack(XTime(s), s, s, Times3(s))
  {
    hide Sbox, T0, T1, T2, T3, Pack;
    Entries(x);
  }

  lemma TableT1(x: byte)
    ensures var s := Sbox(x); T1(x) == Pack(Times3(s), XTime(s), s, s)
  {
    hide Sbox, T0, T1, T2, T3, Pack;
    Entries(x);
  }

  lemma TableT2(x: byte)
    ensures var s := Sbox(x); T2(x) == Pack(s, Times3(s), XTime(s), s)
  {
    hide Sbox, T0, T1, T2, T3, Pack;
    Entries(x);
  }

  lemma TableT3(x: byte)
    ensures var s := Sbox(x); T3(x) == Pack(s, s, Times3(s), XTime(s))
  {
    hide Sbox, T0, T1, T2, T3, Pack;
    Entries(x);
  }

  /** The S-box is the multiplicative inverse, or 0, under the affine transformation (section 5.1.1). */
  lemma SboxIsInverse(x: byte)
    ensures exists y ::
      Sbox(x) == Affine(y) && if x == 0 then y == 0 else Times(x, y) == 1
  {
    hide Sbox, T0, T1, T2, T3, Times, Affine, InvAffine, Columns;
    Entries(x);
    AffineOfInverse(Sbox(x));
    var y := InvAffine(Sbox(x));
    assert Sbox(x) == Affine(y);
  }
}
