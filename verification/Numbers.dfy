/** Octet strings as numbers, the most significant octet first. */
module Numbers {
  import opened Octets

  lemma {:induction false} ValueOfConcat(a: seq<octet>, b: seq<octet>)
    ensures Value(a + b) == Value(a) * Pow256(|b|) + Value(b)
    decreases |b|
  {
    if b == [] {
      assert a + b == a;
    } else {
      hide Value;
      var c, o := b[..|b| - 1], b[|b| - 1];
      ValueOfConcat(a, c);
      ValueOfAppended(a + c, o);
      ValueOfAppended(c, o);
      assert a + b == a + c + [o] && b == c + [o];
      MultipliedOut(Value(a), Pow256(|c|), Value(c));
    }
  }

  lemma MultipliedOut(x: nat, p: nat, y: nat)
    ensures (x * p + y) * 256 == x * (256 * p) + y * 256
  {
  }

  lemma {:induction false} ValueOfZeros(n: nat)
    ensures Value(Zeros(n)) == 0
  {
    if n > 0 {
      ValueOfZeros(n - 1);
      assert Zeros(n)[..n - 1] == Zeros(n - 1);
    }
  }

  /** Zeros in front do not count, zeros behind are a factor. */
  lemma ValueBetweenZeros(m: nat, s: seq<octet>, n: nat)
    ensures Value(Zeros(m) + s + Zeros(n)) == Value(s) * Pow256(n)
  {
    hide Value;
    ValueOfZeros(m);
    ValueOfZeros(n);
    ValueOfConcat(Zeros(m), s);
    ValueOfConcat(Zeros(m) + s, Zeros(n));
  }

  lemma XorTwoDigits(a: nat, b: nat, x: nat, y: nat)
    requires x < 2 && y < 2
    ensures Xor(2 * a + x, 2 * b + y) == 2 * Xor(a, b) + (x + y) % 2
  {
    hide Xor;
    XorStep(2 * a + x, 2 * b + y);
    assert (2 * a + x) / 2 == a && (2 * b + y) / 2 == b;
  }

  lemma OneMoreBit(p: nat, q: nat, r: nat, x: nat, y: nat)
    requires Xor(p + x / 2, q + y / 2) == r + Xor(x / 2, y / 2)
    ensures Xor(2 * p + x, 2 * q + y) == 2 * r + Xor(x, y)
  {
    hide Xor;
    XorTwoDigits(p + x / 2, q + y / 2, x % 2, y % 2);
    XorTwoDigits(x / 2, y / 2, x % 2, y % 2);
    assert 2 * p + x == 2 * (p + x / 2) + x % 2 && 2 * q + y == 2 * (q + y / 2) + y % 2;
  }

  /** Exclusive-or works octet by octet. */
  lemma XorDigits(a: nat, b: nat, x: octet, y: octet)
    ensures Xor(256 * a + x, 256 * b + y) == 256 * Xor(a, b) + XorOctet(x, y)
  {
    hide Xor;
    var r := Xor(a, b);
    XorZero(0);
    OneMoreBit(a, b, r, x / 128, y / 128);
    OneMoreBit(2 * a, 2 * b, 2 * r, x / 64, y / 64);
    OneMoreBit(4 * a, 4 * b, 4 * r, x / 32, y / 32);
    OneMoreBit(8 * a, 8 * b, 8 * r, x / 16, y / 16);
    OneMoreBit(16 * a, 16 * b, 16 * r, x / 8, y / 8);
    OneMoreBit(32 * a, 32 * b, 32 * r, x / 4, y / 4);
    OneMoreBit(64 * a, 64 * b, 64 * r, x / 2, y / 2);
    OneMoreBit(128 * a, 128 * b, 128 * r, x, y);
  }

  lemma {:induction false} ValueOfXor(a: seq<octet>, b: seq<octet>)
    requires |a| == |b|
    ensures Value(XorSeq(a, b)) == Xor(Value(a), Value(b))
    decreases |a|
  {
    if a != [] {
      hide Xor, XorSeq;
      var n := |a| - 1;
      ValueOfXor(a[..n], b[..n]);
      XorDigits(Value(a[..n]), Value(b[..n]), a[n], b[n]);
      assert XorSeq(a, b) == XorSeq(a[..n], b[..n]) + [XorOctet(a[n], b[n])];
      ValueOfAppended(XorSeq(a[..n], b[..n]), XorOctet(a[n], b[n]));
    }
  }

  lemma LongPow256()
    ensures Pow256(8) == 0x1_0000_0000_0000_0000 && Pow256(12) == 0x1_0000_0000_0000_0000_0000_0000
    ensures Pow256(16) == 0x1_0000_0000_0000_0000_0000_0000_0000_0000
  {
    Pow256Values();
    assert Pow256(7) == 256 * Pow256(6);
    assert Pow256(9) == 256 * Pow256(8) && Pow256(10) == 256 * Pow256(9) && Pow256(11) == 256 * Pow256(10);
    assert Pow256(13) == 256 * Pow256(12) && Pow256(14) == 256 * Pow256(13) && Pow256(15) == 256 * Pow256(14);
  }
}
