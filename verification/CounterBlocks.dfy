/** The keystream of a packet from numbers alone (section 4.1.1 of RFC 3711): which block goes
    through the block function for an octet of a packet. */
module CounterBlocks {
  import opened Octets
  import opened Numbers
  import opened Replay
  import opened Keystreams
  import opened Ciphers
  import opened SrtpPackets

  const TWO_64 := 0x1_0000_0000_0000_0000

  /** The block for an octet of keystream: salt and vector are added, and the last two octets count
      the blocks. */
  lemma BlockOfOctet(E: block -> block, o: block, iv: block, p: nat, n: nat, i: nat) returns (c: block)
    requires i < n
    ensures PacketKeystream(IcmKey(E, o), iv, p, n)[i] == E(c)[(p + i) % 16]
    ensures forall j | 0 <= j < 14 :: c[j] == XorOctet(o[j], iv[j])
    ensures 256 * (c[14] as int) + c[15]
      == (256 * (XorOctet(o[14], iv[14]) as int) + XorOctet(o[15], iv[15]) + (p + i) / 16) % 0x1_0000
  {
    hide XorOctet, Low;
    var b := Base(IcmKey(E, o), iv);
    c := CounterBlock(b, (p + i) / 16);
    LowOfCounterBlock(b, (p + i) / 16);
    LowOctets(c);
    LowOctets(b);
    assert forall j | 0 <= j < 14 :: c[j] == c[..14][j] == b[..14][j] == b[j];
  }

  /** The log of a cipher has the block of every octet that was taken, in their order and nothing else. */
  lemma BlocksAreLogged(k: CipherKey, iv: block, n: nat, p: nat)
    requires k.IcmKey? && p < n
    ensures var b := BlocksUsed(k, iv, 0, n);
      |b| == (n + 15) / 16 && p / 16 < |b| && PacketKeystream(k, iv, 0, n)[p] == k.E(b[p / 16])[p % 16]
  {
    hide Base, CounterBlock;
  }

  /** Section 4.1.1: the salt, the SSRC and the packet index, each at its place. */
  function FirstBlock(salt: nat, ssrc: nat, index: nat): (x: nat) {
    Xor(Xor(salt * 0x1_0000, ssrc * TWO_64), index * 0x1_0000)
  }

  lemma SaltNumber(o: block)
    requires o[14] == 0 && o[15] == 0
    ensures Value(o) == Value(o[..14]) * 0x1_0000
  {
    hide Value;
    Pow256Values();
    assert o == Zeros(0) + o[..14] + Zeros(2);
    ValueBetweenZeros(0, o[..14], 2);
  }

  lemma VectorParts(ssrc: seq<octet>, est: nat)
    requires |ssrc| == 4 && est < INDEX_MAX
    ensures var a, b := Zeros(4) + ssrc + Zeros(8), Zeros(8) + BigEndian(est, 6) + Zeros(2);
      Value(a) == Value(ssrc) * TWO_64 && Value(b) == est * 0x1_0000
  {
    hide Value;
    Pow256Values();
    LongPow256();
    ValueBetweenZeros(4, ssrc, 8);
    ValueBetweenZeros(8, BigEndian(est, 6), 2);
    ValueOfBigEndian(est, 6);
  }

  lemma SumOfParts(o: block, ssrc: seq<octet>, est: nat)
    requires |ssrc| == 4
    ensures var a, b := Zeros(4) + ssrc + Zeros(8), Zeros(8) + BigEndian(est, 6) + Zeros(2);
      XorSeq(o, CmIv(ssrc, est)) == XorSeq(XorSeq(o, a), b)
  {
    hide XorOctet;
    var a, b, iv := Zeros(4) + ssrc + Zeros(8), Zeros(8) + BigEndian(est, 6) + Zeros(2), CmIv(ssrc, est);
    forall j | 0 <= j < 16
      ensures XorOctet(o[j], iv[j]) == XorOctet(XorOctet(o[j], a[j]), b[j])
    {
      XorNothing(o[j]);
      XorNothing(XorOctet(o[j], a[j]));
      assert j < 8 ==> iv[j] == a[j] && b[j] == 0;
      assert j >= 8 ==> iv[j] == b[j] && a[j] == 0;
    }
  }

  lemma XorNothing(x: octet)
    ensures XorOctet(x, 0) == x
  {
    XorZero(x);
  }

  /** The number of the first counter block of a packet. */
  lemma FirstBlockIs(k: CipherKey, ssrc: seq<octet>, est: nat)
    requires k.IcmKey? && k.offset[14] == 0 && k.offset[15] == 0 && |ssrc| == 4 && est < INDEX_MAX
    ensures Value(Base(k, CmIv(ssrc, est))) == FirstBlock(Value(k.offset[..14]), Value(ssrc), est)
  {
    hide Value, XorSeq, Xor, CmIv, BigEndian;
    var o, a, b := k.offset, Zeros(4) + ssrc + Zeros(8), Zeros(8) + BigEndian(est, 6) + Zeros(2);
    SaltNumber(o);
    VectorParts(ssrc, est);
    SumOfParts(o, ssrc, est);
    ValueOfXor(o, a);
    ValueOfXor(XorSeq(o, a), b);
  }

  /** The counter counts up in its last two octets. */
  lemma LaterBlock(base: block, i: nat)
    requires Low(base) + i < 0x1_0000
    ensures Value(CounterBlock(base, i)) == Value(base) + i
  {
    hide Value, BigEndian;
    Pow256Values();
    var c := CounterBlock(base, i);
    LowOfCounterBlock(base, i);
    assert c == c[..14] + c[14..] && base == base[..14] + base[14..];
    ValueOfConcat(c[..14], c[14..]);
    ValueOfConcat(base[..14], base[14..]);
  }

  /** Octet p of the keystream of a packet; the null cipher has zeros. */
  function KeystreamAt(k: CipherKey, ssrc: seq<octet>, est: nat, p: nat): (x: octet) {
    if k.NullKey? then 0
    else k.E(BigEndian(FirstBlock(Value(k.offset[..14]), Value(ssrc), est) + p / 16, 16))[p % 16]
  }

  /** The salt of counter mode leaves the block counter to the packet. */
  predicate SaltFits(k: CipherKey) {
    k.IcmKey? ==> k.offset[14] == 0 && k.offset[15] == 0
  }

  lemma StartsAtZero(k: CipherKey, ssrc: seq<octet>, est: nat)
    requires k.IcmKey? && SaltFits(k) && |ssrc| == 4
    ensures Low(Base(k, CmIv(ssrc, est))) == 0
  {
    hide Low;
    LowOctets(Base(k, CmIv(ssrc, est)));
    XorZero(0);
  }

  /** The keystream of a packet reaches exactly this far: 2^16 - 1 blocks. */
  lemma ReachesIff(k: CipherKey, ssrc: seq<octet>, est: nat, p: nat)
    requires SaltFits(k) && |ssrc| == 4
    ensures Reaches(k, CmIv(ssrc, est), p) <==> k.NullKey? || p <= 0xf_fff0
  {
    hide Low, Base, CmIv;
    if k.IcmKey? { StartsAtZero(k, ssrc, est); }
  }

  /** The keystream is the one of the standard, as far as it reaches. */
  lemma KeystreamIs(k: CipherKey, ssrc: seq<octet>, est: nat, p: nat, n: nat, i: nat)
    requires SaltFits(k) && |ssrc| == 4 && est < INDEX_MAX && i < n && Reaches(k, CmIv(ssrc, est), p + n)
    ensures PacketKeystream(k, CmIv(ssrc, est), p, n)[i] == KeystreamAt(k, ssrc, est, p + i)
  {
    hide Low, Base, CmIv, Value, CounterBlock, FirstBlock, BigEndian;
    if k.IcmKey? {
      ReachesIff(k, ssrc, est, p + n);
      StartsAtZero(k, ssrc, est);
      var b, j := Base(k, CmIv(ssrc, est)), (p + i) / 16;
      FirstBlockIs(k, ssrc, est);
      LaterBlock(b, j);
      BigEndianOfValue(CounterBlock(b, j));
    }
  }
}
