/** SHA-1: the definition of FIPS 180-4 and the streaming implementation (crypto/hash/sha1.c). */
module Sha1 {
  type byte = bv8
  type word = bv32

  // --- The standard -------------------------------------------------------------------------

  datatype Chain = Chain(a: word, b: word, c: word, d: word, e: word)

  const START := Chain(0x67452301, 0xefcdab89, 0x98badcfe, 0x10325476, 0xc3d2e1f0)

  function Rotl1(x: word): word { (x << 1) | (x >> 31) }
  function Rotl5(x: word): word { (x << 5) | (x >> 27) }
  function Rotl30(x: word): word { (x << 30) | (x >> 2) }

  /** Section 4.1.1. */
  function Ch(x: word, y: word, z: word): word { (x & y) ^ (!x & z) }
  function Parity(x: word, y: word, z: word): word { x ^ y ^ z }
  function Maj(x: word, y: word, z: word): word { (x & y) ^ (x & z) ^ (y & z) }

  function F(t: nat, x: word, y: word, z: word): word {
    if t < 20 then Ch(x, y, z) else if t < 40 then Parity(x, y, z) else if t < 60 then Maj(x, y, z) else Parity(x, y, z)
  }

  /** Section 4.2.1. */
  function K(t: nat): word {
    if t < 20 then 0x5a827999 else if t < 40 then 0x6ed9eba1 else if t < 60 then 0x8f1bbcdc else 0xca62c1d6
  }

  function Mix(a: word, b: word, c: word, d: word): word { Rotl1(a ^ b ^ c ^ d) }

  function Add(a: word, b: word, c: word, d: word, e: word): word { a + b + c + d + e }

  /** The message schedule of section 6.1.2. */
  function Scheduled(m: seq<word>, t: nat): word
    requires |m| == 16
  {
    if t < 16 then m[t]
    else Mix(Scheduled(m, t - 3), Scheduled(m, t - 8), Scheduled(m, t - 14), Scheduled(m, t - 16))
  }

  function Round(s: Chain, t: nat, w: word): Chain {
    Chain(Add(Rotl5(s.a), F(t, s.b, s.c, s.d), s.e, K(t), w), s.a, Rotl30(s.b), s.c, s.d)
  }

  function Rounds(h: Chain, m: seq<word>, t: nat): Chain
    requires |m| == 16
  {
    if t == 0 then h else Round(Rounds(h, m, t - 1), t - 1, Scheduled(m, t - 1))
  }

  function Sum(h: Chain, s: Chain): Chain {
    Chain(h.a + s.a, h.b + s.b, h.c + s.c, h.d + s.d, h.e + s.e)
  }

  function Compress(h: Chain, m: seq<word>): Chain
    requires |m| == 16
  {
    Sum(h, Rounds(h, m, 80))
  }

  /** A word from four octets, the most significant one first, and back. */
  function Word(b0: byte, b1: byte, b2: byte, b3: byte): word {
    ((b0 as word) << 24) | ((b1 as word) << 16) | ((b2 as word) << 8) | (b3 as word)
  }

  function Octets(w: word): (s: seq<byte>)
    ensures |s| == 4
  {
    [((w >> 24) & 0xff) as byte, ((w >> 16) & 0xff) as byte, ((w >> 8) & 0xff) as byte, (w & 0xff) as byte]
  }

  function Words(block: seq<byte>): (m: seq<word>)
    requires |block| == 64
    ensures |m| == 16
  {
    seq(16, i requires 0 <= i < 16 => Word(block[4 * i], block[4 * i + 1], block[4 * i + 2], block[4 * i + 3]))
  }

  /** The chaining value after whole blocks. */
  function Absorb(h: Chain, s: seq<byte>): Chain
    requires |s| % 64 == 0
    decreases |s|
  {
    if s == [] then h else Absorb(Compress(h, Words(s[..64])), s[64..])
  }

  function Zeros(n: nat): (z: seq<byte>)
    ensures |z| == n
  {
    seq(n, _ => 0)
  }

  const WORD_MAX := 0x1_0000_0000

  function ToWord(n: nat): word
    requires n < WORD_MAX
  {
    n as word
  }

  /** Section 5.1.1: the octet 0x80, zeros, and the number of bits as 64 bits. */
  function Padded(m: seq<byte>): (r: seq<byte>)
    requires 8 * |m| < WORD_MAX * WORD_MAX
    ensures |r| % 64 == 0
  {
    PadLength(|m|);
    var bits := 8 * |m|;
    m + [0x80] + Zeros((119 - |m| % 64) % 64) + Octets(ToWord(bits / WORD_MAX)) + Octets(ToWord(bits % WORD_MAX))
  }

  /** The padding in its parts: as many zeros as the last block needs, and no more. */
  lemma PaddedShape(m: seq<byte>)
    requires 8 * |m| < WORD_MAX * WORD_MAX
    ensures var p := Padded(m);
      && |m| + 9 <= |p| < |m| + 9 + 64 && p[..|m|] == m && p[|m|] == 0x80
      && (forall i | |m| < i < |p| - 8 :: p[i] == 0)
      && p[|p| - 8..|p| - 4] == Octets(ToWord(8 * |m| / 0x1_0000_0000))
      && p[|p| - 4..] == Octets(ToWord(8 * |m| % 0x1_0000_0000))
  {
    hide Octets, ToWord;
  }

  lemma PadLength(n: nat)
    ensures (n + 1 + (119 - n % 64) % 64 + 8) % 64 == 0
  {
  }

  function Digest(h: Chain): (s: seq<byte>)
    ensures |s| == 20
  {
    Octets(h.a) + Octets(h.b) + Octets(h.c) + Octets(h.d) + Octets(h.e)
  }

  function Hash(m: seq<byte>): (s: seq<byte>)
    requires 8 * |m| < WORD_MAX * WORD_MAX
    ensures |s| == 20
  {
    Digest(Absorb(START, Padded(m)))
  }

  // --- Compression, in place ----------------------------------------------------------------

  /** The implementation's forms of Ch and Maj. */
  function F0(b: word, c: word, d: word): word { (b & c) | (!b & d) }
  function F2(b: word, c: word, d: word): word { (b & c) | (b & d) | (c & d) }

  lemma ChForm(x: word, y: word, z: word)
    ensures (x & y) | (!x & z) == (x & y) ^ (!x & z)
  {
  }

  lemma MajForm(x: word, y: word, z: word)
    ensures (x & y) | (x & z) | (y & z) == (x & y) ^ (x & z) ^ (y & z)
  {
  }

  lemma LogicalFunctions(b: word, c: word, d: word)
    ensures F0(b, c, d) == Ch(b, c, d) && F2(b, c, d) == Maj(b, c, d)
  {
    ChForm(b, c, d);
    MajForm(b, c, d);
  }

  lemma AddCommutes(a: word, b: word, c: word, d: word, e: word)
    ensures Add(a, b, c, d, e) == Add(a, b, c, e, d)
  {
  }

  /** One round as the implementation writes it. */
  lemma RoundIs(s: Chain, t: nat, w: word)
    ensures Round(s, t, w) == Chain(Add(Rotl5(s.a), F(t, s.b, s.c, s.d), s.e, w, K(t)), s.a, Rotl30(s.b), s.c, s.d)
  {
    hide Rotl5, Rotl30, F, K, Add;
    AddCommutes(Rotl5(s.a), F(t, s.b, s.c, s.d), s.e, K(t), w);
  }

  lemma NextRound(h: Chain, m: seq<word>, t: nat)
    requires |m| == 16
    ensures Rounds(h, m, 0) == h && Rounds(h, m, t + 1) == Round(Rounds(h, m, t), t, Scheduled(m, t))
  {
    hide Round, Scheduled;
  }

  /** The message schedule. */
  method Expand(w: array<word>, ghost m: seq<word>)
    requires w.Length == 80 && m == w[..16]
    modifies w
    ensures forall i | 0 <= i < 80 :: w[i] == Scheduled(m, i)
  {
    hide Mix;
    for t := 16 to 80
      invariant forall i | 0 <= i < t :: w[i] == Scheduled(m, i)
    {
      w[t] := Mix(w[t - 3], w[t - 8], w[t - 14], w[t - 16]);
    }
  }

  /** Twenty rounds with Ch, and twenty with the exclusive-or. */
  method FirstRounds(w: array<word>, h: Chain, ghost m: seq<word>) returns (s: Chain)
    requires w.Length == 80 && |m| == 16 && forall i | 0 <= i < 80 :: w[i] == Scheduled(m, i)
    ensures s == Rounds(h, m, 40)
  {
    hide Rotl5, Rotl30, F0, F2, Ch, Maj, Parity, Add, Round, Rounds, Scheduled;
    var a, b, c, d, e := h.a, h.b, h.c, h.d, h.e;
    NextRound(h, m, 0);
    for t := 0 to 20
      invariant Chain(a, b, c, d, e) == Rounds(h, m, t)
    {
      LogicalFunctions(b, c, d);
      RoundIs(Chain(a, b, c, d, e), t, w[t]);
      NextRound(h, m, t);
      var temp := Add(Rotl5(a), F0(b, c, d), e, w[t], 0x5a827999);
      a, b, c, d, e := temp, a, Rotl30(b), c, d;
    }
    for t := 20 to 40
      invariant Chain(a, b, c, d, e) == Rounds(h, m, t)
    {
      RoundIs(Chain(a, b, c, d, e), t, w[t]);
      NextRound(h, m, t);
      var temp := Add(Rotl5(a), Parity(b, c, d), e, w[t], 0x6ed9eba1);
      a, b, c, d, e := temp, a, Rotl30(b), c, d;
    }
    s := Chain(a, b, c, d, e);
  }

  /** Twenty rounds with Maj, and twenty with the exclusive-or. */
  method LastRounds(w: array<word>, s: Chain, ghost h: Chain, ghost m: seq<word>) returns (r: Chain)
    requires w.Length == 80 && |m| == 16 && s == Rounds(h, m, 40) && forall i | 0 <= i < 80 :: w[i] == Scheduled(m, i)
    ensures r == Rounds(h, m, 80)
  {
    hide Rotl5, Rotl30, F0, F2, Ch, Maj, Parity, Add, Round, Rounds, Scheduled;
    var a, b, c, d, e := s.a, s.b, s.c, s.d, s.e;
    for t := 40 to 60
      invariant Chain(a, b, c, d, e) == Rounds(h, m, t)
    {
      LogicalFunctions(b, c, d);
      RoundIs(Chain(a, b, c, d, e), t, w[t]);
      NextRound(h, m, t);
      var temp := Add(Rotl5(a), F2(b, c, d), e, w[t], 0x8f1bbcdc);
      a, b, c, d, e := temp, a, Rotl30(b), c, d;
    }
    for t := 60 to 80
      invariant Chain(a, b, c, d, e) == Rounds(h, m, t)
    {
      RoundIs(Chain(a, b, c, d, e), t, w[t]);
      NextRound(h, m, t);
      var temp := Add(Rotl5(a), Parity(b, c, d), e, w[t], 0xca62c1d6);
      a, b, c, d, e := temp, a, Rotl30(b), c, d;
    }
    r := Chain(a, b, c, d, e);
  }

  /** The schedule and the eighty rounds, from the sixteen words at the start of w. */
  method Run(w: array<word>, h: Chain) returns (r: Chain)
    requires w.Length == 80
    modifies w
    ensures r == Compress(h, old(w[..16]))
  {
    hide Rounds, Scheduled, Sum;
    ghost var m := w[..16];
    Expand(w, m);
    var s := FirstRounds(w, h, m);
    s := LastRounds(w, s, h, m);
    r := Sum(h, s);
  }
}
