/** Bit vectors kept in 32-bit words (crypto/math/datatypes.c, crypto/include/datatypes.h).
    A word is the sequence of its bits, the least significant one first. */
module BitVectors {
  import opened Replay

  type word = w: seq<bool> | |w| == 32 witness ClearBits(32)

  const ZERO_WORD: word := ClearBits(32)

  /** The C operators >> and << on a 32-bit word. */
  function ShiftRight(w: word, n: nat): (r: word)
    ensures forall j | 0 <= j < 32 :: r[j] == (j + n < 32 && w[j + n])
  {
    ShiftBits(w, n)
  }

  function ShiftLeft(w: word, n: nat): (r: word)
    ensures forall j | 0 <= j < 32 :: r[j] == (j >= n && w[j - n])
  {
    seq(32, j requires 0 <= j < 32 => j >= n && w[j - n])
  }

  function XorWord(a: word, b: word): (r: word)
    ensures forall j | 0 <= j < 32 :: r[j] == (a[j] != b[j])
  {
    seq(32, j requires 0 <= j < 32 => a[j] != b[j])
  }

  /** All the bits of the words, word 0 first. */
  function Flatten(ws: seq<word>): (r: seq<bool>)
    ensures |r| == 32 * |ws|
    ensures forall k | 0 <= k < 32 * |ws| :: r[k] == ws[k / 32][k % 32]
  {
    seq(32 * |ws|, k requires 0 <= k < 32 * |ws| => ws[k / 32][k % 32])
  }

  /** What the word loop of bitvector_left_shift leaves at word i. */
  function ShiftedWord(ws: seq<word>, i: nat, base: nat, bit: nat): (r: word)
    requires i < |ws| && base < |ws| && bit < 32
  {
    if i + base >= |ws| then ZERO_WORD
    else if bit == 0 then ws[i + base]
    else if i + base == |ws| - 1 then ShiftRight(ws[i + base], bit)
    else XorWord(ShiftRight(ws[i + base], bit), ShiftLeft(ws[i + base + 1], 32 - bit))
  }

  lemma TwoParts(ws: seq<word>, i: nat, base: nat, bit: nat)
    requires i + base + 1 < |ws| && 0 < bit < 32
    ensures ShiftedWord(ws, i, base, bit)
      == XorWord(ShiftRight(ws[i + base], bit), ShiftLeft(ws[i + base + 1], 32 - bit))
  {
    hide ShiftRight, ShiftLeft, XorWord;
  }

  lemma OnePart(ws: seq<word>, base: nat, bit: nat)
    requires base < |ws| && 0 < bit < 32
    ensures ShiftedWord(ws, |ws| - base - 1, base, bit) == ShiftRight(ws[|ws| - 1], bit)
  {
    hide ShiftRight, ShiftLeft, XorWord;
  }

  lemma SplitPosition(q: nat, j: nat)
    requires j < 32
    ensures (32 * q + j) / 32 == q && (32 * q + j) % 32 == j
  {
  }

  lemma BitOfShiftedWord(ws: seq<word>, i: nat, j: nat, base: nat, bit: nat)
    requires i < |ws| && base < |ws| && bit < 32 && j < 32
    ensures ShiftedWord(ws, i, base, bit)[j] ==
      if j + bit < 32 then i + base < |ws| && ws[i + base][j + bit]
      else i + base + 1 < |ws| && ws[i + base + 1][j + bit - 32]
  {
  }

  lemma ShiftedWordBit(ws: seq<word>, i: nat, j: nat, base: nat, bit: nat)
    requires i < |ws| && base < |ws| && bit < 32 && j < 32
    ensures var k := 32 * i + j + 32 * base + bit;
      ShiftedWord(ws, i, base, bit)[j] == (k < 32 * |ws| && Flatten(ws)[k])
  {
    hide Flatten, ShiftedWord;
    BitOfShiftedWord(ws, i, j, base, bit);
    if j + bit < 32 {
      FlattenedBit(ws, i + base, j + bit);
    } else {
      FlattenedBit(ws, i + base + 1, j + bit - 32);
    }
  }

  lemma FlattenedBit(ws: seq<word>, q: nat, j: nat)
    requires j < 32
    ensures 32 * q + j < 32 * |ws| <==> q < |ws|
    ensures q < |ws| ==> Flatten(ws)[32 * q + j] == ws[q][j]
  {
    SplitPosition(q, j);
  }

  /** Shifting word by word shifts the whole vector. */
  lemma ShiftByWords(ws: seq<word>, r: seq<word>, shift: nat)
    requires |r| == |ws| && shift < 32 * |ws|
    requires forall i | 0 <= i < |ws| :: r[i] == ShiftedWord(ws, i, shift / 32, shift % 32)
    ensures Flatten(r) == ShiftBits(Flatten(ws), shift)
  {
    hide ShiftedWord, Flatten;
    forall k | 0 <= k < 32 * |ws|
      ensures Flatten(r)[k] == ShiftBits(Flatten(ws), shift)[k]
    {
      ShiftedWordBit(ws, k / 32, k % 32, shift / 32, shift % 32);
      assert k + shift == 32 * (k / 32) + k % 32 + 32 * (shift / 32) + shift % 32;
    }
  }

  lemma FlattenZero(ws: seq<word>)
    requires forall i | 0 <= i < |ws| :: ws[i] == ZERO_WORD
    ensures Flatten(ws) == ClearBits(32 * |ws|)
  {
  }

  lemma FlattenUpdate(ws: seq<word>, k: nat)
    requires k < 32 * |ws|
    ensures Flatten(ws[k / 32 := ws[k / 32][k % 32 := true]]) == Flatten(ws)[k := true]
  {
    var l, r := Flatten(ws[k / 32 := ws[k / 32][k % 32 := true]]), Flatten(ws)[k := true];
    forall m | 0 <= m < 32 * |ws|
      ensures l[m] == r[m]
    {
      if m / 32 == k / 32 && m % 32 == k % 32 { assert m == k; }
    }
  }

  class BitVector {
    const words: array<word>

    ghost function Bits(): (r: seq<bool>)
      reads words
    {
      Flatten(words[..])
    }

    constructor (length: nat)
      ensures fresh(words)
      ensures Bits() == ClearBits(WindowLength(length))
    {
      words := new word[(length + 31) / 32](i => ZERO_WORD);
      new;
      FlattenZero(words[..]);
    }

    method SetToZero()
      modifies words
      ensures Bits() == ClearBits(old(|Bits()|))
    {
      var i := 0;
      while i < words.Length
        invariant i <= words.Length
        invariant forall m | 0 <= m < i :: words[m] == ZERO_WORD
      {
        words[i] := ZERO_WORD;
        i := i + 1;
      }
      FlattenZero(words[..]);
    }

    method GetBit(k: nat) returns (b: bool)
      requires k < |Bits()|
      ensures b == Bits()[k]
    {
      b := words[k / 32][k % 32];
    }

    method SetBit(k: nat)
      requires k < |Bits()|
      modifies words
      ensures Bits() == old(Bits())[k := true]
    {
      FlattenUpdate(words[..], k);
      ghost var ws := words[..];
      words[k / 32] := words[k / 32][k % 32 := true];
      assert words[..] == ws[k / 32 := ws[k / 32][k % 32 := true]];
    }

    /** Moves every bit down by `shift` places, in words of 32 bits. */
    method LeftShift(shift: nat)
      modifies words
      ensures Bits() == ShiftBits(old(Bits()), shift)
    {
      var base, bit := shift / 32, shift % 32;
      var n := words.Length;
      if shift >= 32 * n {
        SetToZero();
        assert Bits() == ShiftBits(old(Bits()), shift);
        return;
      }
      ghost var was := words[..];
      if bit == 0 {
        MoveWords(base);
      } else {
        MoveBits(base, bit);
      }
      for i := n - base to n
        invariant forall m | 0 <= m < i :: words[m] == ShiftedWord(was, m, base, bit)
      {
        words[i] := ZERO_WORD;
      }
      ShiftByWords(was, words[..], shift);
    }

    method MoveWords(base: nat)
      requires base < words.Length
      modifies words
      ensures forall m | 0 <= m < words.Length - base :: words[m] == ShiftedWord(old(words[..]), m, base, 0)
    {
      for i := 0 to words.Length - base
        invariant forall m | 0 <= m < i :: words[m] == ShiftedWord(old(words[..]), m, base, 0)
        invariant forall m | i <= m < words.Length :: words[m] == old(words[m])
      {
        words[i] := words[i + base];
      }
    }

    method MoveBits(base: nat, bit: nat)
      requires base < words.Length && 0 < bit < 32
      modifies words
      ensures forall m | 0 <= m < words.Length - base :: words[m] == ShiftedWord(old(words[..]), m, base, bit)
    {
      hide ShiftRight, ShiftLeft, XorWord, ShiftedWord;
      ghost var was := words[..];
      for i := 0 to words.Length - base - 1
        invariant forall m | 0 <= m < i :: words[m] == ShiftedWord(was, m, base, bit)
        invariant forall m | i <= m < words.Length :: words[m] == was[m]
      {
        TwoParts(was, i, base, bit);
        words[i] := XorWord(ShiftRight(words[i + base], bit), ShiftLeft(words[i + base + 1], 32 - bit));
      }
      OnePart(was, base, bit);
      words[words.Length - base - 1] := ShiftRight(words[words.Length - 1], bit);
    }
  }
}
