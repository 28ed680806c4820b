/** The streaming SHA-1 context (srtp_sha1_init, srtp_sha1_update and srtp_sha1_final in
    crypto/hash/sha1.c). */
module Sha1Code {
  import opened Sha1

  // --- The padding that the implementation applies --------------------------------------------

  /** Like the padding of the standard, but with a length of 32 bits behind 32 zero bits. */
  function PaddedHere(m: seq<byte>): (r: seq<byte>)
    ensures |r| % 64 == 0
  {
    PadLength(|m|);
    m + [0x80] + Zeros((119 - |m| % 64) % 64) + Octets(0) + Octets(ToWord(8 * |m| % WORD_MAX))
  }

  function HashHere(m: seq<byte>): (s: seq<byte>)
    ensures |s| == 20
  {
    Digest(Absorb(START, PaddedHere(m)))
  }

  lemma WordOfOctets(w: word)
    ensures var s := Octets(w); Word(s[0], s[1], s[2], s[3]) == w
  {
  }

  lemma OctetsInjective(v: word, w: word)
    requires Octets(v) == Octets(w)
    ensures v == w
  {
    hide Octets, Word;
    WordOfOctets(v);
    WordOfOctets(w);
  }

  lemma ToWordZero(n: nat)
    requires n < WORD_MAX && ToWord(n) == 0
    ensures n == 0
  {
  }

  /** The two paddings agree exactly for messages of less than 2^29 octets. */
  lemma PaddingAgrees(m: seq<byte>)
    requires 8 * |m| < WORD_MAX * WORD_MAX
    ensures PaddedHere(m) == Padded(m) <==> |m| < 0x2000_0000
  {
    hide Octets, ToWord;
    var bits := 8 * |m|;
    var p := m + [0x80] + Zeros((119 - |m| % 64) % 64);
    var a, b := Octets(ToWord(bits / WORD_MAX)), Octets(ToWord(bits % WORD_MAX));
    assert Padded(m) == p + a + b && PaddedHere(m) == p + Octets(0) + b;
    ZeroWord();
    if PaddedHere(m) == Padded(m) {
      assert (p + a + b)[|p|..|p| + 4] == a && (p + Octets(0) + b)[|p|..|p| + 4] == Octets(0);
      OctetsInjective(ToWord(bits / WORD_MAX), 0);
      ToWordZero(bits / WORD_MAX);
    }
  }

  lemma ZeroWord()
    ensures ToWord(0) == 0
  {
  }

  /** For these messages the implementation computes SHA-1. */
  lemma HashHereIsSha1(m: seq<byte>)
    requires |m| < 0x2000_0000
    ensures HashHere(m) == Hash(m)
  {
    hide Padded, PaddedHere, Absorb, Digest;
    PaddingAgrees(m);
  }

  lemma {:induction false} AbsorbAppend(h: Chain, a: seq<byte>, b: seq<byte>)
    requires |a| % 64 == 0 && |b| % 64 == 0
    ensures Absorb(h, a + b) == Absorb(Absorb(h, a), b)
    decreases |a|
  {
    hide Compress, Words;
    if a == [] {
      assert a + b == b;
    } else {
      assert (a + b)[..64] == a[..64] && (a + b)[64..] == a[64..] + b;
      AbsorbAppend(Compress(h, Words(a[..64])), a[64..], b);
    }
  }

  lemma AbsorbBlock(h: Chain, b: seq<byte>)
    requires |b| == 64
    ensures Absorb(h, b) == Compress(h, Words(b))
  {
    hide Compress, Words;
    assert b[..64] == b && b[64..] == [];
  }

  // --- The last blocks ------------------------------------------------------------------------

  /** The block that holds the last r octets of the message. */
  function LastBlock(t: seq<byte>, bits: word): (b: seq<byte>)
    requires |t| < 64
    ensures |b| == 64
  {
    if |t| < 56 then t + [0x80] + Zeros(59 - |t|) + Octets(bits) else t + [0x80] + Zeros(63 - |t|)
  }

  function ExtraBlock(bits: word): (b: seq<byte>)
    ensures |b| == 64
  {
    Zeros(60) + Octets(bits)
  }

  lemma OctetsOfZero()
    ensures Octets(0) == Zeros(4)
  {
  }

  /** The whole blocks of a message, and what is left. */
  function Whole(m: seq<byte>): (r: seq<byte>)
    ensures |r| % 64 == 0 && |r| == |m| - |m| % 64
  {
    m[..|m| - |m| % 64]
  }

  function Rest(m: seq<byte>): (r: seq<byte>)
    ensures |r| == |m| % 64 && m == Whole(m) + r
  {
    m[|m| - |m| % 64..]
  }

  lemma Filler(r: nat)
    requires r < 64
    ensures r < 56 ==> (119 - r) % 64 == 55 - r && Zeros(55 - r) + Zeros(4) == Zeros(59 - r)
    ensures r >= 56 ==> (119 - r) % 64 == 119 - r && Zeros(119 - r) + Zeros(4) == Zeros(63 - r) + Zeros(60)
  {
  }

  /** The padded message is its whole blocks followed by one or two more. */
  lemma PaddedBlocks(m: seq<byte>)
    ensures var w := ToWord(8 * |m| % WORD_MAX);
      PaddedHere(m) == Whole(m) + LastBlock(Rest(m), w) + if |Rest(m)| < 56 then [] else ExtraBlock(w)
  {
    hide Octets, ToWord, Zeros, Whole, Rest;
    var whole, t, w := Whole(m), Rest(m), ToWord(8 * |m| % WORD_MAX);
    OctetsOfZero();
    Filler(|t|);
    Regrouped(whole, t, Zeros((119 - |t|) % 64), Zeros(4), Octets(w));
    if |t| >= 56 {
      Split(whole + t + [0x80], Zeros(63 - |t|), Zeros(60), Octets(w));
      assert whole + t + [0x80] + Zeros(63 - |t|) == whole + (t + [0x80] + Zeros(63 - |t|));
    } else {
      assert whole + t + [0x80] + Zeros(59 - |t|) + Octets(w) == whole + (t + [0x80] + Zeros(59 - |t|) + Octets(w));
    }
  }

  lemma Regrouped(a: seq<byte>, t: seq<byte>, z: seq<byte>, y: seq<byte>, w: seq<byte>)
    ensures a + t + [0x80] + z + y + w == a + t + [0x80] + (z + y) + w
  {
  }

  lemma Split(a: seq<byte>, z: seq<byte>, y: seq<byte>, w: seq<byte>)
    ensures a + (z + y) + w == a + z + (y + w)
  {
  }

  /** A word of which the first one, two or three octets belong to the message. */
  function Cut1(w: word): word { (w & 0xff000000) | 0x800000 }
  function Cut2(w: word): word { (w & 0xffff0000) | 0x8000 }
  function Cut3(w: word): word { (w & 0xffffff00) | 0x80 }

  lemma CutOne(b0: byte, b1: byte, b2: byte, b3: byte)
    ensures Cut1(Word(b0, b1, b2, b3)) == Word(b0, 0x80, 0, 0)
  {
  }

  lemma CutTwo(b0: byte, b1: byte, b2: byte, b3: byte)
    ensures Cut2(Word(b0, b1, b2, b3)) == Word(b0, b1, 0x80, 0)
  {
  }

  lemma CutThree(b0: byte, b1: byte, b2: byte, b3: byte)
    ensures Cut3(Word(b0, b1, b2, b3)) == Word(b0, b1, b2, 0x80)
  {
  }

  lemma ConstantWords()
    ensures Word(0x80, 0, 0, 0) == 0x80000000 && Word(0, 0, 0, 0) == 0
  {
  }

  /** Word j of a block. */
  function WordAt(b: seq<byte>, j: nat): word
    requires 4 * j + 4 <= |b|
  {
    Word(b[4 * j], b[4 * j + 1], b[4 * j + 2], b[4 * j + 3])
  }

  lemma WordsAt(b: seq<byte>, w: seq<word>)
    requires |b| == 64 && |w| == 16 && forall j | 0 <= j < 16 :: w[j] == WordAt(b, j)
    ensures w == Words(b)
  {
  }

  lemma LastBlockOctet(t: seq<byte>, bits: word, k: nat)
    requires |t| < 64 && k < 64
    ensures var b, r := LastBlock(t, bits), |t|;
      && (k < r ==> b[k] == t[k])
      && (k == r ==> b[k] == 0x80)
      && (k > r && (k < 60 || r >= 56) ==> b[k] == 0)
      && (k >= 60 && r < 56 ==> b[k] == Octets(bits)[k - 60])
  {
    hide Octets;
  }

  /** Word j of the last block: of the message, with the 0x80 octet, or behind it. */
  function LastWord(buf: seq<byte>, r: nat, bits: word, j: nat): word
    requires |buf| == 64 && r < 64 && j < 16
  {
    var w := WordAt(buf, j);
    if j < r / 4 then w
    else if j == r / 4 then
      (if r % 4 == 0 then 0x80000000 else if r % 4 == 1 then Cut1(w) else if r % 4 == 2 then Cut2(w) else Cut3(w))
    else if j == 15 && r < 56 then bits
    else 0
  }

  lemma LastBlockWord(buf: seq<byte>, r: nat, bits: word, j: nat)
    requires |buf| == 64 && r < 64 && j < 16
    ensures WordAt(LastBlock(buf[..r], bits), j) == LastWord(buf, r, bits, j)
  {
    hide Word, Octets, Cut1, Cut2, Cut3, LastBlock;
    var i := 4 * j;
    LastBlockOctet(buf[..r], bits, i);
    LastBlockOctet(buf[..r], bits, i + 1);
    LastBlockOctet(buf[..r], bits, i + 2);
    LastBlockOctet(buf[..r], bits, i + 3);
    CutOne(buf[i], buf[i + 1], buf[i + 2], buf[i + 3]);
    CutTwo(buf[i], buf[i + 1], buf[i + 2], buf[i + 3]);
    CutThree(buf[i], buf[i + 1], buf[i + 2], buf[i + 3]);
    ConstantWords();
    WordOfOctets(bits);
  }

  lemma ExtraBlockWords(bits: word, j: nat)
    requires j < 16
    ensures WordAt(ExtraBlock(bits), j) == if j < 15 then 0 else bits
  {
    hide Word, Octets;
    ConstantWords();
    WordOfOctets(bits);
  }

  // --- The context ----------------------------------------------------------------------------

  class Context {
    var h: Chain
    const buf: array<byte>
    var filled: nat
    /** A 32-bit number. */
    var bits: nat
    ghost var msg: seq<byte>

    /** The context has taken in this message. */
    ghost predicate Holds(m: seq<byte>)
      reads this`h, this`filled, buf
    {
      && buf.Length == 64 && filled < 64
      && buf[..filled] == Rest(m)
      && h == Absorb(START, Whole(m))
    }

    ghost predicate Valid()
      reads this, buf
    {
      Holds(msg) && bits == 8 * |msg| % WORD_MAX
    }

    constructor ()
      ensures Valid() && msg == [] && fresh(buf)
    {
      h, filled, bits, msg := START, 0, 0, [];
      buf := new byte[64];
    }

    /** srtp_sha1_init */
    method Init()
      requires buf.Length == 64
      modifies this
      ensures Valid() && msg == []
    {
      h, filled, bits, msg := START, 0, 0, [];
    }

    /** memcpy of another context. */
    method CopyFrom(c: Context)
      requires c.Valid() && buf.Length == 64 && c.buf != buf
      modifies this, buf
      ensures Valid() && msg == old(c.msg)
    {
      hide Absorb, Whole, Rest;
      h, filled, bits, msg := c.h, c.filled, c.bits, c.msg;
      forall i | 0 <= i < 64 { buf[i] := c.buf[i]; }
      assert buf[..filled] == c.buf[..filled];
    }

    /** srtp_sha1_core on the buffer. */
    method Core()
      requires buf.Length == 64
      modifies this`h
      ensures h == Compress(old(h), Words(buf[..]))
    {
      hide Word, Compress;
      var w := new word[80];
      Load(w, 16);
      WordsAt(buf[..], w[..16]);
      h := Run(w, h);
    }

    /** The next octets go into the buffer; a full buffer is processed. */
    method Take(m: seq<byte>, at: nat, ghost before: seq<byte>) returns (n: nat)
      requires Holds(before) && at < |m|
      modifies this`h, this`filled, buf
      ensures 0 < n && at + n <= |m| && Holds(before + m[at..at + n])
    {
      hide Absorb, Compress, Words, Whole, Rest;
      var left := |m| - at;
      if left + filled >= 64 {
        n := 64 - filled;
        Fill(m, at, n);
        assert buf[..] == buf[..64];
        filled := 0;
        Core();
        FullBlock(before, m[at..at + n], buf[..]);
      } else {
        n := left;
        Fill(m, at, n);
        filled := filled + left;
        PartBlock(before, m[at..at + n]);
      }
    }

    /** Copies n octets behind those that are in the buffer. */
    method Fill(m: seq<byte>, at: nat, n: nat)
      requires buf.Length == 64 && at + n <= |m| && filled + n <= 64
      modifies buf
      ensures buf[..filled + n] == old(buf[..filled]) + m[at..at + n]
    {
      for i := 0 to n
        invariant forall k | 0 <= k < filled :: buf[k] == old(buf[k])
        invariant forall k | filled <= k < filled + i :: buf[k] == m[at + k - filled]
      {
        buf[filled + i] := m[at + i];
      }
    }

    /** srtp_sha1_update */
    method Update(m: seq<byte>)
      requires Valid()
      modifies this, buf
      ensures Valid() && msg == old(msg) + m
    {
      hide Absorb, MoreBits, Whole, Rest;
      BitCount(bits, |msg|, |m|);
      bits := MoreBits(bits, |m|);
      var at := 0;
      assert msg + m[..0] == msg;
      while at < |m|
        invariant at <= |m| && Holds(msg + m[..at]) && msg == old(msg) && bits == 8 * (|msg| + |m|) % WORD_MAX
      {
        ghost var before := msg + m[..at];
        var n := Take(m, at, before);
        assert before + m[at..at + n] == msg + m[..at + n];
        at := at + n;
      }
      assert msg + m[..at] == msg + m;
      msg := msg + m;
    }

    /** The words that hold octets of the message. */
    method Load(w: array<word>, n: nat)
      requires buf.Length == 64 && n <= 16 && w.Length == 80
      modifies w
      ensures forall j | 0 <= j < n :: w[j] == WordAt(buf[..], j)
    {
      hide Word;
      for k := 0 to n
        invariant forall j | 0 <= j < k :: w[j] == WordAt(buf[..], j)
      {
        w[k] := Word(buf[4 * k], buf[4 * k + 1], buf[4 * k + 2], buf[4 * k + 3]);
      }
    }

    /** The words of the message, with the 0x80 octet behind them. */
    method Mark(w: array<word>, ghost length: word) returns (i: nat)
      requires buf.Length == 64 && filled < 64 && w.Length == 80
      modifies w
      ensures i == (filled + 3) / 4 + 1
      ensures forall j | 0 <= j < i && j < 16 :: w[j] == LastWord(buf[..], filled, length, j)
    {
      hide WordAt, Cut1, Cut2, Cut3;
      i := (filled + 3) / 4;
      Load(w, i);
      if filled % 4 == 0 {
        w[i] := 0x80000000;
      } else {
        var v := WordAt(buf[..], i - 1);
        match filled % 4 {
          case 3 => w[i - 1] := Cut3(v);
          case 2 => w[i - 1] := Cut2(v);
          case _ => w[i - 1] := Cut1(v);
        }
        w[i] := 0;
      }
      i := i + 1;
    }

    /** The first sixteen words of the last run: the rest of the message, the 0x80 octet, zeros,
        and the length if there is room. */
    method Pad(w: array<word>, length: word)
      requires buf.Length == 64 && filled < 64 && w.Length == 80
      modifies w
      ensures forall j | 0 <= j < 16 :: w[j] == LastWord(buf[..], filled, length, j)
    {
      hide WordAt, Cut1, Cut2, Cut3;
      var i := Mark(w, length);
      while i < 15
        invariant i <= 17 && (filled + 3) / 4 < i
        invariant forall j | 0 <= j < i && j < 16 :: w[j] == LastWord(buf[..], filled, length, j)
      {
        w[i] := 0;
        i := i + 1;
      }
      if filled < 56 {
        w[15] := length;
      } else if filled < 60 {
        w[15] := 0;
      }
    }

    /** srtp_sha1_final */
    method Final() returns (out: seq<byte>)
      requires Valid()
      modifies this`h
      ensures out == HashHere(msg)
    {
      hide Absorb, Compress, Words, LastBlock, ExtraBlock, LastWord, PaddedHere, Digest, ToWord, Whole, Rest;
      ghost var start, t := h, buf[..filled];
      var length := ToWord(bits);
      var w := new word[80];
      Pad(w, length);
      forall j | 0 <= j < 16
        ensures w[..16][j] == WordAt(LastBlock(t, length), j)
      {
        LastBlockWord(buf[..], filled, length, j);
      }
      WordsAt(LastBlock(t, length), w[..16]);
      h := Run(w, h);
      PaddedHash(msg, length);
      if filled >= 56 {
        RunExtra(w, length);
      }
      out := Digest(h);
    }

    /** The run of the compression that only takes the length. */
    method RunExtra(w: array<word>, length: word)
      requires w.Length == 80
      modifies w, this`h
      ensures h == Compress(old(h), Words(ExtraBlock(length)))
    {
      hide Compress, Words, ExtraBlock;
      for i := 0 to 15
        invariant h == old(h) && forall j | 0 <= j < i :: w[j] == 0
      {
        w[i] := 0;
      }
      w[15] := length;
      forall j | 0 <= j < 16
        ensures w[..16][j] == WordAt(ExtraBlock(length), j)
      {
        ExtraBlockWords(length, j);
      }
      WordsAt(ExtraBlock(length), w[..16]);
      h := Run(w, h);
    }
  }

  /** The chaining value after the padded message, one run at a time. */
  lemma PaddedHash(m: seq<byte>, length: word)
    requires length == ToWord(8 * |m| % WORD_MAX)
    ensures var one := Compress(Absorb(START, Whole(m)), Words(LastBlock(Rest(m), length)));
      Absorb(START, PaddedHere(m)) == if |Rest(m)| < 56 then one else Compress(one, Words(ExtraBlock(length)))
  {
    hide Absorb, Compress, Words, LastBlock, ExtraBlock, PaddedHere, ToWord, Whole, Rest;
    var whole, b, x := Whole(m), LastBlock(Rest(m), length), ExtraBlock(length);
    PaddedBlocks(m);
    assert whole + b + [] == whole + b;
    AbsorbAppend(START, whole, b);
    AbsorbBlock(Absorb(START, whole), b);
    AbsorbAppend(START, whole + b, x);
    AbsorbBlock(Absorb(START, whole + b), x);
  }

  /** The bit count in 32-bit arithmetic. */
  function MoreBits(bits: nat, k: nat): (r: nat) { (bits + k % WORD_MAX * 8 % WORD_MAX) % WORD_MAX }

  lemma BitCount(bits: nat, n: nat, k: nat)
    requires bits == 8 * n % WORD_MAX
    ensures MoreBits(bits, k) == 8 * (n + k) % WORD_MAX
  {
    var p, q := k / WORD_MAX, 8 * n / WORD_MAX;
    var a := 8 * (k % WORD_MAX);
    var r := a / WORD_MAX;
    assert 8 * n == q * WORD_MAX + bits && a == r * WORD_MAX + a % WORD_MAX;
    assert k == p * WORD_MAX + k % WORD_MAX;
    assert 8 * (n + k) == (q + 8 * p + r) * WORD_MAX + (bits + a % WORD_MAX);
    WordsDropped(q + 8 * p + r, bits + a % WORD_MAX);
  }

  lemma WordsDropped(q: nat, x: nat)
    ensures (q * WORD_MAX + x) % WORD_MAX == x % WORD_MAX
  {
  }

  lemma FullBlock(before: seq<byte>, x: seq<byte>, b: seq<byte>)
    requires |b| == 64 && b == Rest(before) + x
    ensures Whole(before + x) == before + x && Rest(before + x) == []
    ensures Compress(Absorb(START, Whole(before)), Words(b)) == Absorb(START, before + x)
  {
    hide Compress, Words, Absorb, Whole, Rest;
    var m, w := before + x, Whole(before);
    assert m == w + b;
    assert m + [] == m;
    SplitUnique(m, m, []);
    AbsorbAppend(START, w, b);
    AbsorbBlock(Absorb(START, w), b);
  }

  lemma PartBlock(before: seq<byte>, x: seq<byte>)
    requires |Rest(before)| + |x| < 64
    ensures Rest(before + x) == Rest(before) + x && Whole(before + x) == Whole(before)
  {
    var m, w, t := before + x, Whole(before), Rest(before) + x;
    assert m == w + t;
    SplitUnique(m, w, t);
  }

  lemma SplitUnique(m: seq<byte>, w: seq<byte>, t: seq<byte>)
    requires m == w + t && |w| % 64 == 0 && |t| < 64
    ensures Whole(m) == w && Rest(m) == t
  {
  }

  // --- Chunks ---------------------------------------------------------------------------------

  function Join(chunks: seq<seq<byte>>): (m: seq<byte>) {
    if chunks == [] then [] else Join(chunks[..|chunks| - 1]) + chunks[|chunks| - 1]
  }

  /** However a message is cut into updates, the result is its SHA-1 value. */
  method HashChunks(chunks: seq<seq<byte>>) returns (out: seq<byte>)
    ensures out == HashHere(Join(chunks))
    ensures |Join(chunks)| < 0x2000_0000 ==> out == Hash(Join(chunks))
  {
    hide Hash, HashHere;
    var c := new Context();
    for i := 0 to |chunks|
      invariant c.Valid() && fresh(c) && fresh(c.buf) && c.msg == Join(chunks[..i])
    {
      c.Update(chunks[i]);
      assert chunks[..i + 1][..i] == chunks[..i];
    }
    assert chunks[..|chunks|] == chunks;
    out := c.Final();
    if |Join(chunks)| < 0x2000_0000 { HashHereIsSha1(Join(chunks)); }
  }
}
