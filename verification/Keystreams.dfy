/** AES integer counter mode (crypto/cipher/aes_icm.c) over an arbitrary block function,
    against the plain definition of the keystream in section 4.1.1 of RFC 3711. */
module Keystreams {
  import opened Octets

  type block = s: seq<octet> | |s| == 16 witness Zeros(16)

  const MAX_BLOCKS := 0xffff

  /** A counter block: fourteen fixed octets and a 16-bit block counter. */
  function Low(b: block): (v: nat)
    ensures v < 0x1_0000
  {
    Pow256Values();
    Value(b[14..])
  }

  function CounterBlock(base: block, i: nat): (b: block)
    ensures b[..14] == base[..14]
  {
    base[..14] + BigEndian((Low(base) + i) % 0x1_0000, 2)
  }

  /** Octet p of the keystream that starts at counter block `base`. */
  function KeystreamOctet(E: block -> block, base: block, p: nat): octet {
    E(CounterBlock(base, p / 16))[p % 16]
  }

  /** Octets p .. p + n - 1 of the keystream. */
  function Keystream(E: block -> block, base: block, p: nat, n: nat): (ks: seq<octet>)
    ensures |ks| == n
    ensures forall i | 0 <= i < n :: ks[i] == KeystreamOctet(E, base, p + i)
  {
    seq<octet>(n, i requires 0 <= i < n => KeystreamOctet(E, base, p + i))
  }

  /** Encryption, and decryption, of a string at keystream position p. */
  function Crypt(E: block -> block, base: block, p: nat, x: seq<octet>): (y: seq<octet>)
    ensures |y| == |x|
  {
    XorSeq(x, Keystream(E, base, p, |x|))
  }

  /** Encrypting in two pieces is encrypting in one. */
  lemma CryptConcat(E: block -> block, base: block, p: nat, x: seq<octet>, y: seq<octet>)
    ensures Crypt(E, base, p, x + y) == Crypt(E, base, p, x) + Crypt(E, base, p + |x|, y)
  {
    var k, l := Keystream(E, base, p, |x|), Keystream(E, base, p + |x|, |y|);
    assert Keystream(E, base, p, |x + y|) == k + l;
    XorSeqConcat(x, y, k, l);
  }

  /** The number of blocks that the first p octets of keystream take. */
  function Blocks(p: nat): (n: nat) {
    (p + 15) / 16
  }

  lemma BlocksOfPosition(p: nat)
    ensures Blocks(p) == p / 16 + if p % 16 == 0 then 0 else 1
  {
  }

  /** With b octets of the last block left over, n more octets take new blocks only
      for what exceeds b. */
  lemma BlocksAdd(p: nat, n: nat)
    ensures var b := 16 * Blocks(p) - p;
      && 0 <= b < 16
      && Blocks(p + n) == Blocks(p) + if n <= b then 0 else Blocks(n - b)
  {
  }

  /** Where n octets from position p fall in the blocks: b octets are left over from the
      block before, then come whole blocks, then a tail. */
  lemma BlockLayout(p: nat, n: nat)
    ensures var b := 16 * Blocks(p) - p;
      && 0 <= b < 16
      && (b > 0 ==> p % 16 == 16 - b)
      && (n <= b ==> Blocks(p + n) == Blocks(p) && (n < b ==> (p + n) / 16 == p / 16))
      && (n > b ==>
            var count, tail := (n - b) / 16, (n - b) % 16;
            && p + n == 16 * (Blocks(p) + count) + tail
            && (p + n) / 16 == Blocks(p) + count
            && (p + n - tail) / 16 == Blocks(p) + count && (p + n - tail) % 16 == 0
            && Blocks(p + n) == Blocks(p) + count + if tail == 0 then 0 else 1)
  {
    var b := 16 * Blocks(p) - p;
    BlocksOfPosition(p);
    BlocksAdd(p, n);
    if n > b {
      BlocksOfPosition(n - b);
      DivideBlock(Blocks(p) + (n - b) / 16, (n - b) % 16);
      DivideBlock(Blocks(p) + (n - b) / 16, 0);
    }
  }

  lemma DivideBlock(q: nat, r: nat)
    requires r < 16
    ensures (16 * q + r) / 16 == q && (16 * q + r) % 16 == r
  {
  }

  // --- The counter ----------------------------------------------------------------

  /** The increment of the last two octets, with its carry. */
  function Increment(b: block): (r: block)
  {
    if b[15] == 255 then b[..14] + [if b[14] == 255 then 0 else b[14] + 1, 0]
    else b[..15] + [b[15] + 1]
  }

  lemma LowOctets(b: block)
    ensures Low(b) == 256 * (b[14] as int) + b[15]
  {
    var t := b[14..];
    assert t[..1] == [b[14]] && t[..1][..0] == [];
    assert Value(t[..1]) == Value(t[..1][..0]) * 256 + b[14];
  }

  lemma LowOfCounterBlock(base: block, i: nat)
    ensures Low(CounterBlock(base, i)) == (Low(base) + i) % 0x1_0000
  {
    Pow256Values();
    var v := (Low(base) + i) % 0x1_0000;
    ValueOfBigEndian(v, 2);
    assert CounterBlock(base, i)[14..] == BigEndian(v, 2);
  }

  lemma SameBlock(a: block, b: block)
    requires a[..14] == b[..14] && Low(a) == Low(b)
    ensures a == b
  {
    BigEndianOfValue(a[14..]);
    BigEndianOfValue(b[14..]);
    assert a == a[..14] + a[14..] && b == b[..14] + b[14..];
  }

  lemma CounterBlockZero(base: block)
    ensures CounterBlock(base, 0) == base
  {
    LowOfCounterBlock(base, 0);
    SameBlock(CounterBlock(base, 0), base);
  }

  lemma IncrementLow(b: block)
    ensures Low(Increment(b)) == (Low(b) + 1) % 0x1_0000
    ensures Increment(b)[..14] == b[..14]
  {
    LowOctets(b);
    LowOctets(Increment(b));
  }

  lemma NextModulo(x: nat)
    ensures (x % 0x1_0000 + 1) % 0x1_0000 == (x + 1) % 0x1_0000
  {
  }

  /** Clocking the counter moves to the next counter block. */
  lemma IncrementIsNext(base: block, i: nat)
    ensures Increment(CounterBlock(base, i)) == CounterBlock(base, i + 1)
  {
    var b := CounterBlock(base, i);
    IncrementLow(b);
    LowOfCounterBlock(base, i);
    LowOfCounterBlock(base, i + 1);
    NextModulo(Low(base) + i);
    assert Low(Increment(b)) == Low(CounterBlock(base, i + 1));
    SameBlock(Increment(b), CounterBlock(base, i + 1));
  }
}
