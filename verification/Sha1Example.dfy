/** SHA-1 of a message of one octet, worked through round by round. */
module Sha1Example {
  import opened Sha1

  function Pick(n: int, a: word, b: word, c: word, d: word, e: word, f: word, g: word, h: word): word {
    if n < 4 then (if n < 2 then (if n < 1 then a else b) else (if n < 3 then c else d))
    else (if n < 6 then (if n < 5 then e else f) else (if n < 7 then g else h))
  }

  /** The message schedule. */
  function W(t: nat): word {
    if t < 8 then
      Pick(t - 0, 0xa8800000, 0x00000000, 0x00000000, 0x00000000, 0x00000000, 0x00000000, 0x00000000, 0x00000000) else
    if t < 16 then
      Pick(t - 8, 0x00000000, 0x00000000, 0x00000000, 0x00000000, 0x00000000, 0x00000000, 0x00000000, 0x00000008) else
    if t < 24 then
      Pick(t - 16, 0x51000001, 0x00000000, 0x00000010, 0xa2000002, 0x00000000, 0x00000020, 0x44000005, 0x00000010) else
    if t < 32 then
      Pick(t - 24, 0xa2000042, 0x8800000a, 0x00000000, 0x00000080, 0x10000015, 0x00000050, 0x2a000108, 0x2000001a) else
    if t < 40 then
      Pick(t - 32, 0xe6000007, 0x00000200, 0x40000014, 0x8800014a, 0xa8000420, 0x800000e8, 0x8800000a, 0x00000840) else
    if t < 48 then
      Pick(t - 40, 0x8800015b, 0x00000500, 0xa0001082, 0x00000182, 0x2400007b, 0x00002040, 0x8800010e, 0x08001442) else
    if t < 56 then
      Pick(t - 48, 0x5c004210, 0x00000e88, 0x800001e8, 0xa8008460, 0x080015b2, 0x00005200, 0x4001087e, 0x00001960) else
    if t < 64 then
      Pick(t - 56, 0xe8000392, 0x800204e8, 0x080010e2, 0x80014c60, 0x4804205e, 0x0000edc0, 0x28000e00, 0x800847e8) else
    if t < 72 then
      Pick(t - 64, 0x68015b54, 0x00050000, 0x001086a0, 0x800182a8, 0x00007b24, 0x00204000, 0x00010e88, 0x00144288) else
    Pick(t - 72, 0x10421049, 0x000e8c00, 0x8001e928, 0x20846682, 0xc015b2f4, 0x00520600, 0xc1087abc, 0x80196f28)
  }

  /** The first register before round t - 4; the other registers are earlier values of it. */
  function A(t: nat): word {
    if t < 8 then
      Pick(t - 0, 0x0f4b87c3, 0x40c951d8, 0x62eb73fa, 0xefcdab89, 0x67452301, 0x483498b3, 0x6d43e376, 0x178d3024) else
    if t < 16 then
      Pick(t - 8, 0x18ad13a1, 0x9cf66c88, 0x4f4f1935, 0xe4d9dda8, 0x02ced8a6, 0x3e7e994b, 0xa2aa948d, 0x04dbc7c3) else
    if t < 24 then
      Pick(t - 16, 0xb1cd8f83, 0xe076c54b, 0x02216b07, 0xe8ccf18c, 0x21aabf10, 0x9de71050, 0xefa4b1bf, 0x3a1338ca) else
    if t < 32 then
      Pick(t - 24, 0xa0875d99, 0x6eb41f4a, 0x42c258e6, 0x8f1f3afb, 0x9294a1a6, 0x4f92a32b, 0x66bf5207, 0xe06508c2) else
    if t < 40 then
      Pick(t - 32, 0x7141a5df, 0x35e24496, 0x0ffe5aef, 0xc4008edc, 0x25dbac40, 0x77276665, 0xb86364c0, 0xce97c949) else
    if t < 48 then
      Pick(t - 40, 0xe7af9024, 0xd389a94d, 0x77ebab22, 0xbc2fe83f, 0xa35f13a2, 0x79d500ef, 0xedfa44a8, 0x76370e32) else
    if t < 56 then
      Pick(t - 48, 0x3200c363, 0x1a82eedf, 0xf8fbbc64, 0x0e92be8f, 0xd3a21f7f, 0x3a92df5d, 0x7bbf21fd, 0xb7df7d6b) else
    if t < 64 then
      Pick(t - 56, 0x755d4634, 0x969d1e7a, 0x2f646483, 0xb8707d98, 0xb88aae3c, 0x4fba372a, 0x56a40dcf, 0x65b0dff6) else
    if t < 72 then
      Pick(t - 64, 0x09fbb53d, 0xa3f786b3, 0x22819587, 0x9123e02e, 0x9055e0f1, 0x311d8d8e, 0xd3d4d2e3, 0xfeee180a) else
    if t < 80 then
      Pick(t - 72, 0x07f707a4, 0xb3b5f987, 0x1a434b4d, 0x15b62d25, 0x384c23c7, 0xa5f28e86, 0xb1621768, 0xebc47825) else
    Pick(t - 80, 0x7ef17496, 0xa59a6ee8, 0x4fd837d0, 0xf3a1ea39, 0x32ad8794, 0x00000000, 0x00000000, 0x00000000)
  }

  /** The tables take round t. */
  ghost predicate Right(t: nat) {
    && A(t + 5) == Add(Rotl5(A(t + 4)), F(t, A(t + 3), Rotl30(A(t + 2)), Rotl30(A(t + 1))), Rotl30(A(t)), K(t), W(t))
    && (t >= 16 ==> W(t) == Mix(W(t - 3), W(t - 8), W(t - 14), W(t - 16)))
  }

  lemma Right0(t: nat)
    requires 0 <= t < 4
    ensures Right(t)
  {
  }

  lemma Right4(t: nat)
    requires 4 <= t < 8
    ensures Right(t)
  {
  }

  lemma Right8(t: nat)
    requires 8 <= t < 12
    ensures Right(t)
  {
  }

  lemma Right12(t: nat)
    requires 12 <= t < 16
    ensures Right(t)
  {
  }

  lemma Right16(t: nat)
    requires 16 <= t < 20
    ensures Right(t)
  {
  }

  lemma Right20(t: nat)
    requires 20 <= t < 24
    ensures Right(t)
  {
  }

  lemma Right24(t: nat)
    requires 24 <= t < 28
    ensures Right(t)
  {
  }

  lemma Right28(t: nat)
    requires 28 <= t < 32
    ensures Right(t)
  {
  }

  lemma Right32(t: nat)
    requires 32 <= t < 36
    ensures Right(t)
  {
  }

  lemma Right36(t: nat)
    requires 36 <= t < 40
    ensures Right(t)
  {
  }

  lemma Right40(t: nat)
    requires 40 <= t < 44
    ensures Right(t)
  {
  }

  lemma Right44(t: nat)
    requires 44 <= t < 48
    ensures Right(t)
  {
  }

  lemma Right48(t: nat)
    requires 48 <= t < 52
    ensures Right(t)
  {
  }

  lemma Right52(t: nat)
    requires 52 <= t < 56
    ensures Right(t)
  {
  }

  lemma Right56(t: nat)
    requires 56 <= t < 60
    ensures Right(t)
  {
  }

  lemma Right60(t: nat)
    requires 60 <= t < 64
    ensures Right(t)
  {
  }

  lemma Right64(t: nat)
    requires 64 <= t < 68
    ensures Right(t)
  {
  }

  lemma Right68(t: nat)
    requires 68 <= t < 72
    ensures Right(t)
  {
  }

  lemma Right72(t: nat)
    requires 72 <= t < 76
    ensures Right(t)
  {
  }

  lemma Right76(t: nat)
    requires 76 <= t < 80
    ensures Right(t)
  {
  }

  lemma AllRight(t: nat)
    requires t < 80
    ensures Right(t)
  {
    hide Right;
    if t < 40 {
      if t < 4 {
        Right0(t);
      } else if t < 8 {
        Right4(t);
      } else if t < 12 {
        Right8(t);
      } else if t < 16 {
        Right12(t);
      } else if t < 20 {
        Right16(t);
      } else if t < 24 {
        Right20(t);
      } else if t < 28 {
        Right24(t);
      } else if t < 32 {
        Right28(t);
      } else if t < 36 {
        Right32(t);
      } else {
        Right36(t);
      }
    } else {
      if t < 44 {
        Right40(t);
      } else if t < 48 {
        Right44(t);
      } else if t < 52 {
        Right48(t);
      } else if t < 56 {
        Right52(t);
      } else if t < 60 {
        Right56(t);
      } else if t < 64 {
        Right60(t);
      } else if t < 68 {
        Right64(t);
      } else if t < 72 {
        Right68(t);
      } else if t < 76 {
        Right72(t);
      } else {
        Right76(t);
      }
    }
  }

  lemma {:induction false} ScheduleIs(m: seq<word>, t: nat)
    requires |m| == 16 && t < 80 && forall i | 0 <= i < 16 :: m[i] == W(i)
    ensures Scheduled(m, t) == W(t)
  {
    hide W, A, Mix, F, K, Add, Rotl5, Rotl30;
    if t >= 16 {
      ScheduleIs(m, t - 3);
      ScheduleIs(m, t - 8);
      ScheduleIs(m, t - 14);
      ScheduleIs(m, t - 16);
      AllRight(t);
    }
  }

  /** The registers before round t. */
  function Registers(t: nat): Chain {
    Chain(A(t + 4), A(t + 3), Rotl30(A(t + 2)), Rotl30(A(t + 1)), Rotl30(A(t)))
  }

  lemma StartIs()
    ensures Registers(0) == START
  {
  }

  lemma {:induction false} RoundsAre(m: seq<word>, t: nat)
    requires |m| == 16 && t <= 80 && forall i | 0 <= i < 16 :: m[i] == W(i)
    ensures Rounds(START, m, t) == Registers(t)
  {
    hide W, A, Mix, F, K, Add, Rotl5, Rotl30, Scheduled;
    if t == 0 {
      StartIs();
    } else {
      RoundsAre(m, t - 1);
      ScheduleIs(m, t - 1);
      AllRight(t - 1);
    }
  }

  lemma LastRegisters()
    ensures Sum(START, Registers(80)) == Chain(0x99f2aa95, 0xe36f95c2, 0xacb0eaf2, 0x3998f030, 0x638f3f15)
  {
  }

  const MESSAGE: seq<byte> := [0xa8]

  lemma PaddedMessage()
    ensures var p := Padded(MESSAGE);
      |p| == 64 && p[..2] == [0xa8, 0x80] && p[63] == 0x08 && forall i | 2 <= i < 63 :: p[i] == 0
  {
  }

  lemma WordsOfMessage(p: seq<byte>, i: nat)
    requires |p| == 64 && p[..2] == [0xa8, 0x80] && p[63] == 0x08 && i < 16
    requires forall j | 2 <= j < 63 :: p[j] == 0
    ensures Words(p)[i] == W(i)
  {
  }

  lemma DigestOf(c: Chain)
    requires c == Chain(0x99f2aa95, 0xe36f95c2, 0xacb0eaf2, 0x3998f030, 0x638f3f15)
    ensures Digest(c)
      == [0x99, 0xf2, 0xaa, 0x95, 0xe3, 0x6f, 0x95, 0xc2, 0xac, 0xb0, 0xea, 0xf2, 0x39, 0x98, 0xf0, 0x30,
          0x63, 0x8f, 0x3f, 0x15]
  {
  }

  /** The hash of this message is 99f2aa95e36f95c2acb0eaf23998f030638f3f15. */
  lemma HashOfMessage()
    ensures Hash(MESSAGE)
      == [0x99, 0xf2, 0xaa, 0x95, 0xe3, 0x6f, 0x95, 0xc2, 0xac, 0xb0, 0xea, 0xf2, 0x39, 0x98, 0xf0, 0x30,
          0x63, 0x8f, 0x3f, 0x15]
  {
    hide Padded, Words, W, Rounds, Registers, Sum, Digest;
    PaddedMessage();
    var p := Padded(MESSAGE);
    forall i | 0 <= i < 16
      ensures Words(p)[i] == W(i)
    {
      WordsOfMessage(p, i);
    }
    RoundsAre(Words(p), 80);
    LastRegisters();
    DigestOf(Compress(START, Words(p)));
    assert p[..64] == p && p[64..] == [];
    assert Absorb(START, p) == Absorb(Compress(START, Words(p)), []);
  }
}
