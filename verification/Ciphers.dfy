/** The cipher contexts of the SRTP packet path: AES integer counter mode
    (crypto/cipher/aes_icm.c) and the null cipher (crypto/cipher/null_cipher.c). */
module Ciphers {
  import opened Octets
  import opened Keystreams

  datatype CipherStatus = CipherOk | Terminus | DstSmall

  /** A keyed cipher.  The offset of counter mode is the 14-octet salt and two zero octets. */
  datatype CipherKey = NullKey | IcmKey(E: block -> block, offset: block)

  function Base(k: CipherKey, iv: block): (b: block) {
    if k.NullKey? then iv else XorSeq(k.offset, iv)
  }

  /** Octets p .. p + n - 1 of the keystream of a packet. */
  function PacketKeystream(k: CipherKey, iv: block, p: nat, n: nat): (ks: seq<octet>)
    ensures |ks| == n
  {
    if k.NullKey? then Zeros(n) else Keystream(k.E, Base(k, iv), p, n)
  }

  function Encipher(k: CipherKey, iv: block, p: nat, x: seq<octet>): (y: seq<octet>)
    ensures |y| == |x|
  {
    XorSeq(x, PacketKeystream(k, iv, p, |x|))
  }

  lemma EncipherInvolutive(k: CipherKey, iv: block, p: nat, x: seq<octet>)
    ensures Encipher(k, iv, p, Encipher(k, iv, p, x)) == x
  {
    XorSeqInvolutive(x, PacketKeystream(k, iv, p, |x|));
  }

  lemma EncipherConcat(k: CipherKey, iv: block, p: nat, x: seq<octet>, y: seq<octet>)
    ensures Encipher(k, iv, p, x + y) == Encipher(k, iv, p, x) + Encipher(k, iv, p + |x|, y)
  {
    if k.NullKey? {
      assert Zeros(|x + y|) == Zeros(|x|) + Zeros(|y|);
      XorSeqConcat(x, y, Zeros(|x|), Zeros(|y|));
    } else {
      CryptConcat(k.E, Base(k, iv), p, x, y);
    }
  }

  /** The keystream reaches up to position p: the 16-bit block counter does not run out. */
  predicate Reaches(k: CipherKey, iv: block, p: nat) {
    k.NullKey? || Low(Base(k, iv)) + Blocks(p) <= MAX_BLOCKS
  }

  /** The counter blocks from block number i up to, but not including, j. */
  function BlockRange(base: block, i: nat, j: nat): (r: seq<block>)
    requires i <= j
    ensures |r| == j - i
    ensures forall k | 0 <= k < j - i :: r[k] == CounterBlock(base, i + k)
  {
    seq<block>(j - i, k requires 0 <= k < j - i => CounterBlock(base, i + k))
  }

  lemma EncipherNextChunk(k: CipherKey, iv: block, p: nat, orig: seq<octet>, d: nat, data: seq<octet>, done: nat,
                          m: nat)
    requires done + m <= |data| && d + |data| <= |orig|
    ensures var first := Patch(orig, d, Encipher(k, iv, p, Sub(data, 0, done)));
      Patch(first, d + done, Encipher(k, iv, p + done, Sub(data, done, done + m)))
         == Patch(orig, d, Encipher(k, iv, p, Sub(data, 0, done + m)))
  {
    hide *;
    var head, chunk := Sub(data, 0, done), Sub(data, done, done + m);
    SubConcat(data, 0, done, done + m);
    EncipherConcat(k, iv, p, head, chunk);
    PatchTwice(orig, d, Encipher(k, iv, p, head), Encipher(k, iv, p + done, chunk));
  }

  lemma BlockRangeEmpty(base: block, i: nat)
    ensures BlockRange(base, i, i) == []
  {
  }

  lemma BlockRangeNext(base: block, i: nat, j: nat)
    requires i <= j
    ensures BlockRange(base, i, j + 1) == BlockRange(base, i, j) + [CounterBlock(base, j)]
  {
    hide CounterBlock;
  }

  lemma StartOfData(k: CipherKey, iv: block, p: nat, orig: seq<octet>, d: nat, src: seq<octet>, so: nat, n: nat)
    requires so + n <= |src| && d + n <= |orig|
    ensures var data := Sub(src, so, so + n);
      && Sub(data, 0, n) == data
      && Patch(orig, d, Encipher(k, iv, p, Sub(data, 0, 0))) == orig
  {
    var data := Sub(src, so, so + n);
    SubWhole(data);
    assert Encipher(k, iv, p, Sub(data, 0, 0)) == [];
    PatchEmpty(orig, d);
  }

  /** A refilled buffer holds the next sixteen octets of keystream. */
  lemma BufferIsKeystream(E: block -> block, base: block, p: nat, m: nat)
    requires p % 16 + m <= 16
    ensures E(CounterBlock(base, p / 16))[p % 16..p % 16 + m] == Keystream(E, base, p, m)
  {
    var b, ks := E(CounterBlock(base, p / 16))[p % 16..p % 16 + m], Keystream(E, base, p, m);
    forall i | 0 <= i < m
      ensures b[i] == ks[i]
    {
      assert (p + i) / 16 == p / 16 && (p + i) % 16 == p % 16 + i;
    }
  }

  lemma AddedBuffer(k: CipherKey, iv: block, p: nat, buffer: block, from: nat, chunk: seq<octet>)
    requires k.IcmKey? && from + |chunk| <= 16
    requires |chunk| > 0 ==> from == p % 16 && buffer == k.E(CounterBlock(Base(k, iv), p / 16))
    ensures XorSeq(chunk, Sub(buffer, from, from + |chunk|)) == Encipher(k, iv, p, chunk)
  {
    if |chunk| > 0 { BufferIsKeystream(k.E, Base(k, iv), p, |chunk|); }
  }

  /** The blocks that n octets from position p cost the block function. */
  function BlocksUsed(k: CipherKey, iv: block, p: nat, n: nat): (r: seq<block>) {
    if k.NullKey? then [] else
    assert Blocks(p) <= Blocks(p + n);
    BlockRange(Base(k, iv), Blocks(p), Blocks(p + n))
  }

  lemma BlocksUsedAdd(k: CipherKey, iv: block, p: nat, n: nat)
    ensures BlocksUsed(k, iv, 0, p) + BlocksUsed(k, iv, p, n) == BlocksUsed(k, iv, 0, p + n)
  {
    hide CounterBlock, Base;
  }

  lemma ReachesNull(k: CipherKey, iv: block, p: nat)
    ensures k.NullKey? ==> Reaches(k, iv, p)
  {
  }

  lemma NullEncipher(k: CipherKey, iv: block, p: nat, x: seq<octet>)
    requires k.NullKey?
    ensures Encipher(k, iv, p, x) == x
  {
    XorSeqZeros(x);
  }

  lemma EncipherZeros(k: CipherKey, iv: block, p: nat, n: nat)
    ensures Encipher(k, iv, p, Zeros(n)) == PacketKeystream(k, iv, p, n)
  {
    ZerosXorSeq(PacketKeystream(k, iv, p, n));
  }

  lemma SubOfKeystream(k: CipherKey, iv: block, p: nat, n: nat, lo: nat, hi: nat)
    requires lo <= hi <= n
    ensures Sub(PacketKeystream(k, iv, p, n), lo, hi) == PacketKeystream(k, iv, p + lo, hi - lo)
  {
    hide Base, KeystreamOctet;
  }

  // --- Block count in size_t arithmetic -------------------------------------------

  const SIZE_T := 0x1_0000_0000_0000_0000
  /** No object is larger than this many octets. */
  const OBJECT_MAX := 0x7fff_ffff_ffff_ffff

  function NewBlocks(n: nat, buffered: nat): nat {
    ((n - buffered) % SIZE_T + 15) % SIZE_T / 16
  }

  /** The subtraction wraps when the buffer holds more than is asked for; no block is then
      counted, because at most 15 octets are buffered. */
  lemma WrappedSubtractionIsHarmless(n: nat, buffered: nat)
    requires n <= OBJECT_MAX && buffered < 16
    ensures NewBlocks(n, buffered) == if n <= buffered then 0 else Blocks(n - buffered)
  {
    if n < buffered {
      assert (n - buffered) % SIZE_T == SIZE_T + n - buffered;
      assert (SIZE_T + n - buffered + 15) % SIZE_T == n - buffered + 15;
    } else {
      assert (n - buffered) % SIZE_T == n - buffered;
    }
  }

  /** The check before encryption refuses exactly what would run out of block counter. */
  lemma TerminusIff(k: CipherKey, iv: block, p: nat, n: nat, buffered: nat)
    requires k.IcmKey? && Reaches(k, iv, p) && n <= OBJECT_MAX && buffered == 16 * Blocks(p) - p
    ensures NewBlocks(n, buffered) > MAX_BLOCKS - Low(CounterBlock(Base(k, iv), Blocks(p)))
        <==> !Reaches(k, iv, p + n)
  {
    hide Low, NewBlocks, Base;
    BlocksAdd(p, n);
    WrappedSubtractionIsHarmless(n, buffered);
    LowOfCounterBlock(Base(k, iv), Blocks(p));
  }

  // --- The context ------------------------------------------------------------------

  class Cipher {
    const key: CipherKey
    var counter: block
    var buffer: block
    var buffered: nat
    /** The initialization vector in force and the octets of keystream used since it was set. */
    ghost var iv: block
    ghost var pos: nat
    /** Every block given to the block function, in order, and those before this vector. */
    ghost var log: seq<block>
    ghost var mark: seq<block>

    ghost predicate Valid()
      reads this
    {
      && log == mark + BlocksUsed(key, iv, 0, pos)
      && CounterValid()
    }

    ghost predicate CounterValid()
      reads this`counter, this`buffer, this`buffered, this`iv, this`pos
    {
      key.IcmKey? ==>
        && buffered == 16 * Blocks(pos) - pos
        && counter == CounterBlock(Base(key, iv), Blocks(pos))
        && Reaches(key, iv, pos)
        && (buffered > 0 ==> buffer == key.E(CounterBlock(Base(key, iv), pos / 16)))
    }

    constructor (k: CipherKey)
      requires k.IcmKey? ==> Low(k.offset) == 0
      ensures Valid() && key == k && log == []
    {
      key := k;
      counter := if k.IcmKey? then k.offset else Zeros(16);
      buffer, buffered := Zeros(16), 0;
      iv, pos, log, mark := Zeros(16), 0, [], [];
      if k.IcmKey? {
        XorSeqZeros(k.offset);
        CounterBlockZero(k.offset);
      }
    }

    method SetIv(v: block)
      modifies this
      ensures Valid() && iv == v && pos == 0 && log == old(log) && mark == log
    {
      if key.IcmKey? {
        counter := XorSeq(key.offset, v);
        buffered := 0;
        CounterBlockZero(counter);
      }
      iv, pos, mark := v, 0, log;
    }

    /** Refills the buffer from the counter block and clocks the counter. */
    method Advance(ghost i: nat)
      requires key.IcmKey? && counter == CounterBlock(Base(key, iv), i)
      modifies this`counter, this`buffer, this`log
      ensures buffer == key.E(CounterBlock(Base(key, iv), i))
      ensures counter == CounterBlock(Base(key, iv), i + 1)
      ensures log == old(log) + [CounterBlock(Base(key, iv), i)]
    {
      buffer := key.E(counter);
      log := log + [counter];
      IncrementIsNext(Base(key, iv), i);
      counter := Increment(counter);
    }

    /** Adds the octets of the buffer from position `from` into m octets of the data. */
    method AddBuffer(src: array<octet>, so: nat, dst: array<octet>, d: nat, m: nat, from: nat)
      requires so + m <= src.Length && d + m <= dst.Length && from + m <= 16
      requires src == dst ==> so == d
      modifies dst
      ensures dst[..] == Patch(old(dst[..]), d, XorSeq(Sub(old(src[..]), so, so + m), Sub(buffer, from, from + m)))
    {
      ghost var sum := XorSeq(src[so..so + m], buffer[from..from + m]);
      var i := 0;
      while i < m
        invariant i <= m
        invariant forall k | d <= k < d + i :: dst[k] == sum[k - d]
        invariant forall k | 0 <= k < dst.Length && !(d <= k < d + i) :: dst[k] == old(dst[k])
        invariant src != dst ==> forall k | 0 <= k < src.Length :: src[k] == old(src[k])
      {
        dst[d + i] := XorOctet(src[so + i], buffer[from + i]);
        i := i + 1;
      }
    }

    /** The first `done` octets of the data have been encrypted into place, starting from
        keystream position p; the rest of the source is untouched. */
    ghost predicate Progress(src: array<octet>, so: nat, dst: array<octet>, d: nat, done: nat,
                             p: nat, orig: seq<octet>, data: seq<octet>)
      requires so + |data| <= src.Length && d + |data| <= dst.Length == |orig|
      reads this`iv, this`pos, src, dst
    {
      && done <= |data| && pos == p + done
      && Sub(src[..], so + done, so + |data|) == Sub(data, done, |data|)
      && dst[..] == Patch(orig, d, Encipher(key, iv, p, Sub(data, 0, done)))
    }

    /** Adds the buffer, from position `from`, into the next m octets of the data. */
    method AddChunk(src: array<octet>, so: nat, dst: array<octet>, d: nat, done: nat, m: nat, from: nat,
                    ghost p: nat, ghost orig: seq<octet>, ghost data: seq<octet>)
      requires so + |data| <= src.Length && d + |data| <= dst.Length == |orig|
      requires src == dst ==> so == d
      requires Progress(src, so, dst, d, done, p, orig, data)
      requires key.IcmKey? && done + m <= |data| && from + m <= 16
      requires m > 0 ==> from == pos % 16 && buffer == key.E(CounterBlock(Base(key, iv), pos / 16))
      modifies dst, this`pos
      ensures pos == old(pos) + m
      ensures Progress(src, so, dst, d, done + m, p, orig, data)
    {
      hide Sub, Patch, Encipher, CounterBlock, Base;
      ghost var chunk, srcWas, n := Sub(data, done, done + m), src[..], |data|;
      SubOfSub(srcWas, so + done, so + n, 0, m);
      SubOfSub(srcWas, so + done, so + n, m, n - done);
      SubOfSub(data, done, n, 0, m);
      SubOfSub(data, done, n, m, n - done);
      AddedBuffer(key, iv, pos, buffer, from, chunk);
      SubOfPatch(dst[..], d + done, Encipher(key, iv, pos, chunk), d + done + m, d + n);
      EncipherNextChunk(key, iv, p, orig, d, data, done, m);
      AddBuffer(src, so + done, dst, d + done, m, from);
      assert src != dst ==> src[..] == srcWas;
      pos := pos + m;
    }

    /** aes_icm encryption of n octets from src[so..] to dst[d..], in place or not. */
    method IcmEncrypt(src: array<octet>, so: nat, n: nat, dst: array<octet>, d: nat, dstLen: nat)
      returns (status: CipherStatus)
      requires CounterValid() && key.IcmKey?
      requires so + n <= src.Length && d + n <= dst.Length && n <= OBJECT_MAX
      requires src == dst ==> so == d
      modifies dst, this`counter, this`buffer, this`buffered, this`pos, this`log
      ensures CounterValid()
      ensures status == DstSmall <==> dstLen < n
      ensures status == CipherOk <==> dstLen >= n && Reaches(key, iv, old(pos) + n)
      ensures status == CipherOk ==>
        && pos == old(pos) + n
        && dst[..] == Patch(old(dst[..]), d, Encipher(key, iv, old(pos), Sub(old(src[..]), so, so + n)))
        && log == old(log) + BlockRange(Base(key, iv), Blocks(old(pos)), Blocks(pos))
      ensures status != CipherOk ==>
        && counter == old(counter) && buffer == old(buffer) && buffered == old(buffered)
        && pos == old(pos) && log == old(log) && dst[..] == old(dst[..])
    {
      if dstLen < n { return DstSmall; }
      hide NewBlocks, Low, Reaches, Patch, Encipher, Sub, BlockRange;
      var newBlocks := NewBlocks(n, buffered);
      TerminusIff(key, iv, pos, n, buffered);
      if newBlocks > MAX_BLOCKS - Low(counter) { return Terminus; }
      status := CipherOk;
      IcmApply(src, so, n, dst, d);
    }

    /** The counter stands at block i, with nothing in the buffer. */
    ghost predicate AtBlock(i: nat)
      reads this
    {
      key.IcmKey? && pos == 16 * i && buffered == 0 && counter == CounterBlock(Base(key, iv), i)
    }

    method WholeBlocks(src: array<octet>, so: nat, dst: array<octet>, d: nat, done: nat, count: nat, ghost i: nat,
                       ghost p: nat, ghost orig: seq<octet>, ghost data: seq<octet>)
      requires so + |data| <= src.Length && d + |data| <= dst.Length == |orig|
      requires src == dst ==> so == d
      requires Progress(src, so, dst, d, done, p, orig, data)
      requires AtBlock(i) && done + 16 * count <= |data|
      modifies dst, this`pos, this`counter, this`buffer, this`log
      ensures Progress(src, so, dst, d, done + 16 * count, p, orig, data)
      ensures AtBlock(i + count) && log == old(log) + BlockRange(Base(key, iv), i, i + count)
    {
      hide Progress, CounterBlock, BlockRange, Base;
      ghost var base := Base(key, iv);
      BlockRangeEmpty(base, i);
      for k := 0 to count
        invariant Progress(src, so, dst, d, done + 16 * k, p, orig, data)
        invariant AtBlock(i + k) && log == old(log) + BlockRange(base, i, i + k)
      {
        BlockRangeNext(base, i, i + k);
        Advance(i + k);
        AddChunk(src, so, dst, d, done + 16 * k, 16, 0, p, orig, data);
      }
    }

    method TailBlock(src: array<octet>, so: nat, dst: array<octet>, d: nat, done: nat, tail: nat, ghost i: nat,
                     ghost p: nat, ghost orig: seq<octet>, ghost data: seq<octet>)
      requires so + |data| <= src.Length && d + |data| <= dst.Length == |orig|
      requires src == dst ==> so == d
      requires Progress(src, so, dst, d, done, p, orig, data)
      requires AtBlock(i) && 0 < tail < 16 && done + tail <= |data|
      modifies dst, this`pos, this`counter, this`buffer, this`buffered, this`log
      ensures Progress(src, so, dst, d, done + tail, p, orig, data)
      ensures pos == old(pos) + tail && buffered == 16 - tail
      ensures counter == CounterBlock(Base(key, iv), i + 1)
      ensures buffer == key.E(CounterBlock(Base(key, iv), i))
      ensures log == old(log) + [CounterBlock(Base(key, iv), i)]
    {
      hide Progress, CounterBlock, Base;
      Advance(i);
      AddChunk(src, so, dst, d, done, tail, 0, p, orig, data);
      buffered := 16 - tail;
    }

    /** The last n octets of the data, once the buffer is used up. */
    method FreshBlocks(src: array<octet>, so: nat, dst: array<octet>, d: nat, done: nat, n: nat, ghost i: nat,
                       ghost p: nat, ghost orig: seq<octet>, ghost data: seq<octet>)
      requires so + |data| <= src.Length && d + |data| <= dst.Length == |orig|
      requires src == dst ==> so == d
      requires Progress(src, so, dst, d, done, p, orig, data)
      requires AtBlock(i) && done + n == |data|
      modifies dst, this`pos, this`counter, this`buffer, this`buffered, this`log
      ensures Progress(src, so, dst, d, done + n, p, orig, data)
      ensures pos == old(pos) + n && buffered == (if n % 16 == 0 then 0 else 16 - n % 16)
      ensures var last := if n % 16 == 0 then i + n / 16 else i + n / 16 + 1;
        counter == CounterBlock(Base(key, iv), last) && log == old(log) + BlockRange(Base(key, iv), i, last)
      ensures buffered > 0 ==> buffer == key.E(CounterBlock(Base(key, iv), i + n / 16))
    {
      hide Progress, CounterBlock, BlockRange, Base;
      var count, tail := n / 16, n % 16;
      WholeBlocks(src, so, dst, d, done, count, i, p, orig, data);
      if tail != 0 {
        BlockRangeNext(Base(key, iv), i, i + count);
        TailBlock(src, so, dst, d, done + 16 * count, tail, i + count, p, orig, data);
      }
    }

    method IcmApply(src: array<octet>, so: nat, n: nat, dst: array<octet>, d: nat)
      requires CounterValid() && key.IcmKey? && Reaches(key, iv, pos + n)
      requires so + n <= src.Length && d + n <= dst.Length
      requires src == dst ==> so == d
      modifies dst, this`counter, this`buffer, this`buffered, this`pos, this`log
      ensures CounterValid() && pos == old(pos) + n
      ensures dst[..] == Patch(old(dst[..]), d, Encipher(key, iv, old(pos), Sub(old(src[..]), so, so + n)))
      ensures log == old(log) + BlockRange(Base(key, iv), Blocks(old(pos)), Blocks(pos))
    {
      hide Progress, Encipher, Patch, Sub, CounterBlock, BlockRange, Base, Low, Blocks;
      ghost var data, orig, p, base := Sub(src[..], so, so + n), dst[..], pos, Base(key, iv);
      StartOfData(key, iv, p, orig, d, src[..], so, n);
      StartProgress(src, so, dst, d, n);
      BlockLayout(p, n);
      BlockRangeEmpty(base, Blocks(p));
      if n <= buffered {
        AddChunk(src, so, dst, d, 0, n, 16 - buffered, p, orig, data);
        buffered := buffered - n;
      } else {
        var done := buffered;
        AddChunk(src, so, dst, d, 0, done, 16 - buffered, p, orig, data);
        buffered := 0;
        FreshBlocks(src, so, dst, d, done, n - done, Blocks(p), p, orig, data);
      }
      EndProgress(src, so, dst, d, n, p, orig, data);
    }

    /** The cipher interface: counter mode, or a copy for the null cipher. */
    method Encrypt(src: array<octet>, so: nat, n: nat, dst: array<octet>, d: nat, dstLen: nat)
      returns (status: CipherStatus)
      requires Valid()
      requires so + n <= src.Length && d + n <= dst.Length && n <= OBJECT_MAX
      requires src == dst ==> so == d
      modifies dst, this`counter, this`buffer, this`buffered, this`pos, this`log
      ensures Valid()
      ensures status == CipherOk <==>
        (dstLen >= n || (key.NullKey? && src == dst)) && Reaches(key, iv, old(pos) + n)
      ensures status == CipherOk ==>
        && pos == old(pos) + n
        && dst[..] == Patch(old(dst[..]), d, Encipher(key, iv, old(pos), Sub(old(src[..]), so, so + n)))
      ensures status != CipherOk ==> pos == old(pos) && log == old(log) && dst[..] == old(dst[..])
    {
      hide Patch, Encipher, Sub, Reaches, BlockRange;
      BlocksUsedAdd(key, iv, pos, n);
      if key.IcmKey? {
        status := IcmEncrypt(src, so, n, dst, d, dstLen);
        return;
      }
      ReachesNull(key, iv, pos + n);
      if src != dst && dstLen < n { return DstSmall; }
      NullEncipher(key, iv, pos, Sub(src[..], so, so + n));
      if src == dst {
        PatchSelf(dst[..], d, d + n);
      } else {
        Copy(src, so, dst, d, n);
      }
      pos := pos + n;
      status := CipherOk;
    }

    /** srtp_cipher_output: the next n octets of keystream. */
    method Output(out: array<octet>, n: nat) returns (status: CipherStatus)
      requires Valid() && n <= out.Length && n <= OBJECT_MAX
      modifies out, this`counter, this`buffer, this`buffered, this`pos, this`log
      ensures Valid()
      ensures status == CipherOk <==> Reaches(key, iv, old(pos) + n)
      ensures status == CipherOk ==>
        pos == old(pos) + n && out[..] == Patch(old(out[..]), 0, PacketKeystream(key, iv, old(pos), n))
      ensures status != CipherOk ==> pos == old(pos) && log == old(log)
    {
      hide Patch, Encipher, Sub, Reaches, PacketKeystream;
      Fill(out, n);
      ghost var zeroed := out[..];
      SubOfPatch(old(out[..]), 0, Zeros(n), 0, n);
      status := Encrypt(out, 0, n, out, 0, n);
      EncipherZeros(key, iv, old(pos), n);
      PatchAgain(old(out[..]), 0, Zeros(n), PacketKeystream(key, iv, old(pos), n));
    }

    static method Fill(out: array<octet>, n: nat)
      requires n <= out.Length
      modifies out
      ensures out[..] == Patch(old(out[..]), 0, Zeros(n))
    {
      for i := 0 to n
        invariant forall j | 0 <= j < i :: out[j] == 0
        invariant forall j | i <= j < out.Length :: out[j] == old(out[j])
      {
        out[i] := 0;
      }
      assert out[..n] == Zeros(n);
    }

    lemma StartProgress(src: array<octet>, so: nat, dst: array<octet>, d: nat, n: nat)
      requires so + n <= src.Length && d + n <= dst.Length
      ensures Progress(src, so, dst, d, 0, pos, dst[..], Sub(src[..], so, so + n))
    {
      hide Encipher, Sub, Patch;
      StartOfData(key, iv, pos, dst[..], d, src[..], so, n);
    }

    lemma EndProgress(src: array<octet>, so: nat, dst: array<octet>, d: nat, n: nat,
                      p: nat, orig: seq<octet>, data: seq<octet>)
      requires so + n <= src.Length && d + n <= dst.Length == |orig| && |data| == n
      requires Progress(src, so, dst, d, n, p, orig, data)
      ensures dst[..] == Patch(orig, d, Encipher(key, iv, p, data))
    {
      SubWhole(data);
    }
  }
}
