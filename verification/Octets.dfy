/** Octets, octet strings, exclusive-or and big-endian numbers. */
module Octets {

  type octet = x: int | 0 <= x < 256

  /** Bitwise exclusive-or of two naturals. */
  function Xor(a: nat, b: nat): nat
    decreases a + b
  {
    if a == 0 && b == 0 then 0 else (a + b) % 2 + 2 * Xor(a / 2, b / 2)
  }

  lemma XorStep(a: nat, b: nat)
    ensures Xor(a, b) % 2 == (a + b) % 2
    ensures Xor(a, b) / 2 == Xor(a / 2, b / 2)
  {
    if a == 0 && b == 0 {
    } else {
      var q := Xor(a / 2, b / 2);
      assert ((a + b) % 2 + 2 * q) / 2 == q;
    }
  }

  lemma ParityOfSum(a: nat, b: nat, r: nat)
    requires r % 2 == (a + b) % 2
    ensures (r + b) % 2 == a % 2
  {
  }

  /** Adding the same mask twice gives the value back. */
  lemma {:induction false} XorInvolutive(a: nat, b: nat)
    ensures Xor(Xor(a, b), b) == a
    decreases a + b
  {
    if a == 0 && b == 0 {
    } else {
      var r := Xor(a, b);
      XorStep(a, b);
      XorStep(r, b);
      XorInvolutive(a / 2, b / 2);
      ParityOfSum(a, b, r);
      assert Xor(r, b) == Xor(r, b) / 2 * 2 + Xor(r, b) % 2;
      assert a == a / 2 * 2 + a % 2;
    }
  }

  lemma {:induction false} XorZero(a: nat)
    ensures Xor(a, 0) == a
  {
    if a != 0 { XorZero(a / 2); }
  }

  lemma {:induction false} XorCommutes(a: nat, b: nat)
    ensures Xor(a, b) == Xor(b, a)
    decreases a + b
  {
    if a != 0 || b != 0 { XorCommutes(a / 2, b / 2); }
  }

  predicate PowerOfTwo(n: nat) {
    n == 1 || (n > 1 && n % 2 == 0 && PowerOfTwo(n / 2))
  }

  lemma {:induction false} XorBound(a: nat, b: nat, n: nat)
    requires a < n && b < n && PowerOfTwo(n)
    ensures Xor(a, b) < n
  {
    if n > 1 { XorBound(a / 2, b / 2, n / 2); }
  }

  lemma PowerOfTwo256()
    ensures PowerOfTwo(256)
  {
    assert PowerOfTwo(4);
    assert PowerOfTwo(16);
    assert PowerOfTwo(64);
  }

  function XorOctet(a: octet, b: octet): (r: octet) {
    PowerOfTwo256();
    XorBound(a, b, 256);
    Xor(a, b)
  }

  /** Octet-wise exclusive-or of two strings of the same length. */
  function XorSeq(a: seq<octet>, b: seq<octet>): (r: seq<octet>)
    requires |a| == |b|
    ensures |r| == |a|
    ensures forall i | 0 <= i < |a| :: r[i] == XorOctet(a[i], b[i])
  {
    seq(|a|, i requires 0 <= i < |a| => XorOctet(a[i], b[i]))
  }

  lemma XorSeqInvolutive(a: seq<octet>, b: seq<octet>)
    requires |a| == |b|
    ensures XorSeq(XorSeq(a, b), b) == a
  {
    forall i | 0 <= i < |a|
      ensures XorSeq(XorSeq(a, b), b)[i] == a[i]
    {
      XorInvolutive(a[i], b[i]);
    }
  }

  /** Xor with a fixed mask is injective. */
  lemma XorSeqCancels(a: seq<octet>, b: seq<octet>, m: seq<octet>)
    requires |a| == |b| == |m|
    requires XorSeq(a, m) == XorSeq(b, m)
    ensures a == b
  {
    XorSeqInvolutive(a, m);
    XorSeqInvolutive(b, m);
  }

  function Zeros(n: nat): (z: seq<octet>)
    ensures |z| == n
    ensures forall i | 0 <= i < n :: z[i] == 0
  {
    seq(n, i => 0)
  }

  lemma XorSeqZeros(a: seq<octet>)
    ensures XorSeq(a, Zeros(|a|)) == a
  {
    forall i | 0 <= i < |a|
      ensures XorSeq(a, Zeros(|a|))[i] == a[i]
    {
      XorZero(a[i]);
    }
  }

  lemma ZerosXorSeq(a: seq<octet>)
    ensures XorSeq(Zeros(|a|), a) == a
  {
    forall i | 0 <= i < |a|
      ensures XorSeq(Zeros(|a|), a)[i] == a[i]
    {
      XorCommutes(0, a[i]);
      XorZero(a[i]);
    }
  }

  lemma XorSeqConcat(a: seq<octet>, b: seq<octet>, m: seq<octet>, n: seq<octet>)
    requires |a| == |m| && |b| == |n|
    ensures XorSeq(a + b, m + n) == XorSeq(a, m) + XorSeq(b, n)
  {
  }

  // --- Parts of a string ------------------------------------------------------------

  /** The octets of s from position lo up to, but not including, hi. */
  function Sub(s: seq<octet>, lo: nat, hi: nat): (r: seq<octet>)
    requires lo <= hi <= |s|
    ensures |r| == hi - lo
  {
    s[lo..hi]
  }

  /** s with the octets from position `at` replaced by t. */
  function Patch(s: seq<octet>, at: nat, t: seq<octet>): (r: seq<octet>)
    requires at + |t| <= |s|
    ensures |r| == |s|
  {
    s[..at] + t + s[at + |t|..]
  }

  lemma SubOfSub(s: seq<octet>, lo: nat, hi: nat, a: nat, b: nat)
    requires lo <= hi <= |s| && a <= b <= hi - lo
    ensures Sub(Sub(s, lo, hi), a, b) == Sub(s, lo + a, lo + b)
  {
    var u := s[lo..hi];
    assert forall i | a <= i < b :: u[i] == s[lo + i];
    assert u[a..b] == s[lo + a..lo + b];
  }

  lemma SubConcat(s: seq<octet>, lo: nat, mid: nat, hi: nat)
    requires lo <= mid <= hi <= |s|
    ensures Sub(s, lo, mid) + Sub(s, mid, hi) == Sub(s, lo, hi)
  {
  }

  lemma SubWhole(s: seq<octet>)
    ensures Sub(s, 0, |s|) == s
  {
  }

  lemma SubOfPatch(s: seq<octet>, at: nat, t: seq<octet>, lo: nat, hi: nat)
    requires at + |t| <= |s| && lo <= hi <= |s|
    ensures hi <= at || at + |t| <= lo ==> Sub(Patch(s, at, t), lo, hi) == Sub(s, lo, hi)
    ensures lo == at && hi == at + |t| ==> Sub(Patch(s, at, t), lo, hi) == t
  {
    var r := Patch(s, at, t);
    if hi <= at || at + |t| <= lo {
      assert r[lo..hi] == s[lo..hi];
    }
  }

  lemma PatchOfPrefix(s: seq<octet>, n: nat, at: nat, x: seq<octet>)
    requires at + |x| <= n <= |s|
    ensures Sub(Patch(s, at, x), 0, n) == Patch(Sub(s, 0, n), at, x)
  {
  }

  lemma PatchTwice(s: seq<octet>, at: nat, t: seq<octet>, u: seq<octet>)
    requires at + |t| + |u| <= |s|
    ensures Patch(Patch(s, at, t), at + |t|, u) == Patch(s, at, t + u)
  {
  }

  lemma PatchEmpty(s: seq<octet>, at: nat)
    requires at <= |s|
    ensures Patch(s, at, []) == s
  {
  }

  /** Writing back what is already there, around a change, changes nothing more. */
  lemma PatchWithin(s: seq<octet>, at: nat, a: seq<octet>, t: seq<octet>, b: seq<octet>)
    requires at + |a| + |t| + |b| <= |s|
    requires Sub(s, at, at + |a|) == a
    requires Sub(s, at + |a| + |t|, at + |a| + |t| + |b|) == b
    ensures Patch(s, at, a + t + b) == Patch(s, at + |a|, t)
  {
    var l, m, n := at + |a|, at + |a| + |t|, at + |a| + |t| + |b|;
    assert s[..l] == s[..at] + a;
    assert s[m..] == b + s[n..];
  }

  lemma PatchAgain(s: seq<octet>, at: nat, t: seq<octet>, u: seq<octet>)
    requires at + |t| <= |s| && |t| == |u|
    ensures Patch(Patch(s, at, t), at, u) == Patch(s, at, u)
  {
  }

  /** Changes at different places can be made in any order. */
  lemma PatchCommutes(s: seq<octet>, i: nat, t: seq<octet>, j: nat, u: seq<octet>)
    requires i + |t| <= j && j + |u| <= |s|
    ensures Patch(Patch(s, i, t), j, u) == Patch(Patch(s, j, u), i, t)
  {
    var a, b := Patch(Patch(s, i, t), j, u), Patch(Patch(s, j, u), i, t);
    forall k | 0 <= k < |s| ensures a[k] == b[k] {
    }
  }

  lemma PatchSelf(s: seq<octet>, lo: nat, hi: nat)
    requires lo <= hi <= |s|
    ensures Patch(s, lo, Sub(s, lo, hi)) == s
  {
  }

  /** memcpy of n octets between different buffers. */
  method Copy(src: array<octet>, so: nat, dst: array<octet>, d: nat, n: nat)
    requires so + n <= src.Length && d + n <= dst.Length && src != dst
    modifies dst
    ensures dst[..] == Patch(old(dst[..]), d, Sub(src[..], so, so + n))
  {
    for i := 0 to n
      invariant forall k | d <= k < d + i :: dst[k] == src[k - d + so]
      invariant forall k | 0 <= k < dst.Length && !(d <= k < d + i) :: dst[k] == old(dst[k])
    {
      dst[d + i] := src[so + i];
    }
    assert dst[d..d + n] == src[so..so + n];
  }

  // --- Numbers ----------------------------------------------------------------------

  function Pow256(n: nat): (p: nat)
    ensures p >= 1
  {
    if n == 0 then 1 else 256 * Pow256(n - 1)
  }

  /** The n-octet big-endian form of x; higher-order octets are dropped. */
  function BigEndian(x: nat, n: nat): (s: seq<octet>)
    ensures |s| == n
  {
    if n == 0 then [] else BigEndian(x / 256, n - 1) + [x % 256]
  }

  function Value(s: seq<octet>): (v: nat)
    ensures v < Pow256(|s|)
  {
    if s == [] then 0 else Value(s[..|s| - 1]) * 256 + s[|s| - 1]
  }

  lemma {:induction false} ValueOfBigEndian(x: nat, n: nat)
    requires x < Pow256(n)
    ensures Value(BigEndian(x, n)) == x
  {
    if n != 0 {
      var q, o := x / 256, x % 256;
      assert x == 256 * q + o;
      assert q < Pow256(n - 1);
      ValueOfBigEndian(q, n - 1);
      ValueOfAppended(BigEndian(q, n - 1), o);
    }
  }

  lemma ValueOfAppended(s: seq<octet>, o: octet)
    ensures Value(s + [o]) == Value(s) * 256 + o
  {
    assert (s + [o])[..|s|] == s;
  }

  lemma {:induction false} BigEndianOfValue(s: seq<octet>)
    ensures BigEndian(Value(s), |s|) == s
  {
    if s != [] {
      var t := s[..|s| - 1];
      BigEndianOfValue(t);
      assert (Value(t) * 256 + s[|s| - 1]) / 256 == Value(t);
      assert s == t + [s[|s| - 1]];
    }
  }

  lemma BigEndianInjective(x: nat, y: nat, n: nat)
    requires x < Pow256(n) && y < Pow256(n)
    requires BigEndian(x, n) == BigEndian(y, n)
    ensures x == y
  {
    ValueOfBigEndian(x, n);
    ValueOfBigEndian(y, n);
  }

  lemma Pow256Values()
    ensures Pow256(2) == 0x1_0000
    ensures Pow256(4) == 0x1_0000_0000
    ensures Pow256(6) == 0x1_0000_0000_0000
  {
    assert Pow256(1) == 256;
    assert Pow256(3) == 0x100_0000;
    assert Pow256(5) == 0x100_0000_0000;
  }

  lemma TwoOctets(s: seq<octet>, i: nat)
    requires i + 2 <= |s|
    ensures Value(Sub(s, i, i + 2)) == 256 * (s[i] as int) + s[i + 1]
  {
    var t := Sub(s, i, i + 2);
    assert t[..1] == [s[i]] && t[..1][..0] == [];
    assert Value(t[..1]) == Value(t[..1][..0]) * 256 + s[i];
  }
}
