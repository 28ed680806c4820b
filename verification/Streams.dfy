/** Stream contexts in memory: which blocks they hold, which of them they share with the
    template, and the list that keeps them (srtp_stream_clone, srtp_stream_dealloc and
    srtp_stream_list_* in srtp/srtp.c). */
module Streams {
  import opened Results
  import opened Replay
  import opened RtcpReplay
  import opened Sessions
  import PI = PacketIndex

  // --- Memory -------------------------------------------------------------------------------

  /** A block of memory from srtp_crypto_alloc. */
  class Block {
    constructor () {}
  }

  /** The allocator: a block is live from its allocation until it is freed, and only a live
      block may be freed. */
  class Memory {
    ghost var live: multiset<Block>

    ghost predicate Valid()
      reads this
    {
      forall b | b in live :: live[b] == 1
    }

    constructor ()
      ensures Valid() && live == multiset{}
    {
      live := multiset{};
    }

    method Alloc() returns (b: Block)
      requires Valid()
      modifies this
      ensures Valid() && fresh(b) && live == old(live) + multiset{b}
    {
      b := new Block();
      live := live + multiset{b};
    }

    method Free(b: Block)
      requires Valid() && b in live
      modifies this
      ensures Valid() && live == old(live) - multiset{b} && b !in live
    {
      live := live - multiset{b};
    }
  }

  /** The pointers of one set of session keys; the octets of the MKI are never shared. */
  datatype KeySlot = KeySlot(rtpCipher: Option<Block>, rtpAuth: Option<Block>, xtnCipher: Option<Block>,
                             rtcpCipher: Option<Block>, rtcpAuth: Option<Block>,
                             mki: Option<Block>, limit: Option<Block>)

  const NO_SLOT := KeySlot(None, None, None, None, None, None, None)

  /** srtp_stream_ctx_t */
  class StreamContext {
    const ssrc: ssrc4
    const prot: Protection
    const allowRepeat: bool
    const slots: seq<KeySlot>
    const xtnList: Option<Block>
    const keyArray: Block
    const window: Block
    const self: Block
    var st: PI.IndexState
    var rtcp: Rdb
    var dir: Direction

    function View(): (s: StreamState)
      reads this
    {
      StreamState(ssrc, prot, allowRepeat, st, rtcp, dir)
    }

    constructor (v: StreamState, slots: seq<KeySlot>, xtnList: Option<Block>, keyArray: Block, window: Block,
                 self: Block)
      ensures View() == v && this.slots == slots && this.xtnList == xtnList
      ensures this.keyArray == keyArray && this.window == window && this.self == self
    {
      ssrc, prot, allowRepeat := v.ssrc, v.prot, v.allowRepeat;
      st, rtcp, dir := v.st, v.rtcp, v.dir;
      this.slots, this.xtnList, this.keyArray, this.window, this.self := slots, xtnList, keyArray, window, self;
    }
  }

  // --- Ownership ----------------------------------------------------------------------------

  /** A pointer is freed with its stream unless the template has the same one. */
  ghost function Released(b: Option<Block>, t: Option<Block>): (r: multiset<Block>) {
    if b.Some? && b != t then multiset{b.value} else multiset{}
  }

  ghost function SlotBlocks(k: KeySlot, t: KeySlot): (r: multiset<Block>) {
    Released(k.rtpCipher, t.rtpCipher) + Released(k.rtpAuth, t.rtpAuth) + Released(k.xtnCipher, t.xtnCipher)
    + Released(k.rtcpCipher, t.rtcpCipher) + Released(k.rtcpAuth, t.rtcpAuth)
    + Released(k.mki, None) + Released(k.limit, t.limit)
  }

  /** The slot of the template that the i-th slot is compared with. */
  function TemplateSlot(s: StreamContext, t: StreamContext?, i: nat): (k: KeySlot) {
    if t != null && |t.slots| == |s.slots| && i < |t.slots| then t.slots[i] else NO_SLOT
  }

  ghost function SlotsBlocks(s: StreamContext, t: StreamContext?, n: nat): (r: multiset<Block>)
    requires n <= |s.slots|
  {
    if n == 0 then multiset{} else SlotsBlocks(s, t, n - 1) + SlotBlocks(s.slots[n - 1], TemplateSlot(s, t, n - 1))
  }

  function TemplateXtnList(t: StreamContext?): (b: Option<Block>) { if t == null then None else t.xtnList }

  /** The blocks that a stream does not share with the template. */
  ghost function OwnBlocks(s: StreamContext, t: StreamContext?): (r: multiset<Block>) {
    SlotsBlocks(s, t, |s.slots|) + multiset{s.keyArray, s.window}
    + Released(s.xtnList, TemplateXtnList(t)) + multiset{s.self}
  }

  method Release(mem: Memory, b: Option<Block>, t: Option<Block>)
    requires mem.Valid() && Released(b, t) <= mem.live
    modifies mem
    ensures mem.Valid() && mem.live == old(mem.live) - Released(b, t)
  {
    if b.Some? && b != t { mem.Free(b.value); }
  }

  /** Taking away two parts one after the other. */
  lemma Take(l: multiset<Block>, a: multiset<Block>, b: multiset<Block>)
    requires a + b <= l
    ensures a <= l && b <= l - a && l - a - b == l - (a + b)
  {
  }

  method ReleaseSlot(mem: Memory, k: KeySlot, t: KeySlot)
    requires mem.Valid() && SlotBlocks(k, t) <= mem.live
    modifies mem
    ensures mem.Valid() && mem.live == old(mem.live) - SlotBlocks(k, t)
  {
    hide Released;
    ghost var l := mem.live;
    ghost var a := Released(k.rtpCipher, t.rtpCipher);
    ghost var b := a + Released(k.rtpAuth, t.rtpAuth);
    ghost var c := b + Released(k.xtnCipher, t.xtnCipher);
    ghost var d := c + Released(k.rtcpCipher, t.rtcpCipher);
    ghost var e := d + Released(k.rtcpAuth, t.rtcpAuth);
    ghost var f := e + Released(k.mki, None);
    Take(l, f, Released(k.limit, t.limit));
    Take(l, e, Released(k.mki, None));
    Take(l, d, Released(k.rtcpAuth, t.rtcpAuth));
    Take(l, c, Released(k.rtcpCipher, t.rtcpCipher));
    Take(l, b, Released(k.xtnCipher, t.xtnCipher));
    Take(l, a, Released(k.rtpAuth, t.rtpAuth));
    Release(mem, k.rtpCipher, t.rtpCipher);
    Release(mem, k.rtpAuth, t.rtpAuth);
    Release(mem, k.xtnCipher, t.xtnCipher);
    Release(mem, k.rtcpCipher, t.rtcpCipher);
    Release(mem, k.rtcpAuth, t.rtcpAuth);
    Release(mem, k.mki, None);
    Release(mem, k.limit, t.limit);
  }

  lemma {:induction false} SlotsBlocksGrow(s: StreamContext, t: StreamContext?, m: nat, n: nat, l: multiset<Block>)
    requires m <= n <= |s.slots| && SlotsBlocks(s, t, n) <= l
    ensures SlotsBlocks(s, t, m) <= l
    decreases n
  {
    hide SlotBlocks;
    if m < n {
      Take(l, SlotsBlocks(s, t, n - 1), SlotBlocks(s.slots[n - 1], TemplateSlot(s, t, n - 1)));
      SlotsBlocksGrow(s, t, m, n - 1, l);
    }
  }

  lemma SlotsStart(s: StreamContext, t: StreamContext?, l: multiset<Block>)
    ensures l - SlotsBlocks(s, t, 0) == l
  {
  }

  lemma SlotsNext(s: StreamContext, t: StreamContext?, i: nat)
    requires i < |s.slots|
    ensures SlotsBlocks(s, t, i + 1) == SlotsBlocks(s, t, i) + SlotBlocks(s.slots[i], TemplateSlot(s, t, i))
  {
  }

  method ReleaseSlots(mem: Memory, s: StreamContext, t: StreamContext?)
    requires mem.Valid() && SlotsBlocks(s, t, |s.slots|) <= mem.live
    modifies mem
    ensures mem.Valid() && mem.live == old(mem.live) - SlotsBlocks(s, t, |s.slots|)
  {
    hide SlotBlocks, TemplateSlot, SlotsBlocks, Memory.Valid;
    ghost var l := mem.live;
    SlotsStart(s, t, l);
    for i := 0 to |s.slots|
      invariant mem.Valid() && mem.live == l - SlotsBlocks(s, t, i)
    {
      SlotsBlocksGrow(s, t, i + 1, |s.slots|, l);
      SlotsNext(s, t, i);
      Take(l, SlotsBlocks(s, t, i), SlotBlocks(s.slots[i], TemplateSlot(s, t, i)));
      ReleaseSlot(mem, s.slots[i], TemplateSlot(s, t, i));
    }
  }

  method FreeTwo(mem: Memory, a: Block, b: Block)
    requires mem.Valid() && multiset{a, b} <= mem.live
    modifies mem
    ensures mem.Valid() && mem.live == old(mem.live) - multiset{a, b}
  {
    mem.Free(a);
    mem.Free(b);
  }

  /** srtp_stream_dealloc: frees exactly what the stream does not share with the template. */
  method Dealloc(mem: Memory, s: StreamContext, t: StreamContext?)
    requires mem.Valid() && OwnBlocks(s, t) <= mem.live
    modifies mem
    ensures mem.Valid() && mem.live == old(mem.live) - OwnBlocks(s, t)
  {
    hide SlotBlocks, Released;
    ghost var l, n := mem.live, |s.slots|;
    ghost var a, b, c := SlotsBlocks(s, t, n), multiset{s.keyArray, s.window}, Released(s.xtnList, TemplateXtnList(t));
    Take(l, a + b + c, multiset{s.self});
    Take(l, a + b, c);
    Take(l, a, b);
    ReleaseSlots(mem, s, t);
    FreeTwo(mem, s.keyArray, s.window);
    Release(mem, s.xtnList, TemplateXtnList(t));
    mem.Free(s.self);
  }

  // --- Sharing ------------------------------------------------------------------------------

  /** All pointers that a stream could share. */
  ghost function SlotPointers(k: KeySlot): (r: set<Option<Block>>) {
    {k.rtpCipher, k.rtpAuth, k.xtnCipher, k.rtcpCipher, k.rtcpAuth, k.limit} - {None}
  }

  ghost function Pointers(s: StreamContext): (r: set<Option<Block>>) {
    (set i, b | 0 <= i < |s.slots| && b in SlotPointers(s.slots[i]) :: b) + ({s.xtnList} - {None})
  }

  /** A clone of the template: everything but the MKI octets is the template's. */
  ghost predicate Shares(s: StreamContext, t: StreamContext) {
    && |s.slots| == |t.slots| && s.xtnList == t.xtnList
    && (forall i | 0 <= i < |s.slots| :: s.slots[i] == t.slots[i].(mki := s.slots[i].mki))
  }

  /** A stream with keys of its own. */
  ghost predicate Independent(s: StreamContext, t: StreamContext?) {
    t != null ==> Pointers(s) !! Pointers(t)
  }

  ghost function MkiBlocks(slots: seq<KeySlot>): (r: multiset<Block>) {
    if slots == [] then multiset{} else MkiBlocks(slots[..|slots| - 1]) + Released(slots[|slots| - 1].mki, None)
  }

  lemma SharedSlot(k: KeySlot, t: KeySlot)
    requires k == t.(mki := k.mki)
    ensures SlotBlocks(k, t) == Released(k.mki, None)
  {
  }

  lemma {:induction false} SharedSlots(s: StreamContext, t: StreamContext, n: nat)
    requires Shares(s, t) && n <= |s.slots|
    ensures SlotsBlocks(s, t, n) == MkiBlocks(s.slots[..n])
  {
    hide SlotBlocks, Released;
    if n > 0 {
      SharedSlots(s, t, n - 1);
      SharedSlot(s.slots[n - 1], t.slots[n - 1]);
      assert s.slots[..n][..n - 1] == s.slots[..n - 1];
    }
  }

  /** A clone owns its MKIs, its two arrays and itself. */
  lemma SharedOwn(s: StreamContext, t: StreamContext)
    requires Shares(s, t)
    ensures OwnBlocks(s, t) == MkiBlocks(s.slots) + multiset{s.keyArray, s.window, s.self}
  {
    hide SlotsBlocks, MkiBlocks;
    SharedSlots(s, t, |s.slots|);
    assert s.slots[..|s.slots|] == s.slots;
  }

  /** The pointer is one of these, or null. */
  ghost predicate Among(b: Option<Block>, ps: set<Option<Block>>) { b.None? || b in ps }

  lemma ReleasedApart(a: Option<Block>, b: Option<Block>, ps: set<Option<Block>>, qs: set<Option<Block>>)
    requires Among(a, ps) && Among(b, qs) && ps !! qs
    ensures Released(a, b) == Released(a, None)
  {
  }

  lemma PointersAmong(k: KeySlot)
    ensures var ps := SlotPointers(k);
      && Among(k.rtpCipher, ps) && Among(k.rtpAuth, ps) && Among(k.xtnCipher, ps)
      && Among(k.rtcpCipher, ps) && Among(k.rtcpAuth, ps) && Among(k.limit, ps)
  {
  }

  lemma DifferentPointers(k: KeySlot, m: KeySlot)
    requires SlotPointers(k) !! SlotPointers(m)
    ensures SlotBlocks(k, m) == SlotBlocks(k, NO_SLOT)
  {
    hide SlotBlocks, SlotPointers, Among, Released;
    var ps, qs := SlotPointers(k), SlotPointers(m);
    PointersAmong(k);
    PointersAmong(m);
    ReleasedApart(k.rtpCipher, m.rtpCipher, ps, qs);
    ReleasedApart(k.rtpAuth, m.rtpAuth, ps, qs);
    ReleasedApart(k.xtnCipher, m.xtnCipher, ps, qs);
    ReleasedApart(k.rtcpCipher, m.rtcpCipher, ps, qs);
    ReleasedApart(k.rtcpAuth, m.rtcpAuth, ps, qs);
    ReleasedApart(k.limit, m.limit, ps, qs);
    SlotBlocksAre(k, m);
    SlotBlocksAre(k, NO_SLOT);
  }

  lemma SlotBlocksAre(k: KeySlot, t: KeySlot)
    ensures SlotBlocks(k, t)
      == Released(k.rtpCipher, t.rtpCipher) + Released(k.rtpAuth, t.rtpAuth) + Released(k.xtnCipher, t.xtnCipher)
         + Released(k.rtcpCipher, t.rtcpCipher) + Released(k.rtcpAuth, t.rtcpAuth)
    + Released(k.mki, None) + Released(k.limit, t.limit)
  {
  }

  lemma IndependentSlot(s: StreamContext, t: StreamContext, i: nat)
    requires Independent(s, t) && i < |s.slots|
    ensures SlotBlocks(s.slots[i], TemplateSlot(s, t, i)) == SlotBlocks(s.slots[i], NO_SLOT)
  {
    if |t.slots| == |s.slots| {
      var k, m := s.slots[i], t.slots[i];
      assert SlotPointers(k) <= Pointers(s) && SlotPointers(m) <= Pointers(t);
      DifferentPointers(k, m);
    }
  }

  lemma {:induction false} IndependentSlots(s: StreamContext, t: StreamContext, n: nat)
    requires Independent(s, t) && n <= |s.slots|
    ensures SlotsBlocks(s, t, n) == SlotsBlocks(s, null, n)
  {
    hide SlotBlocks, Independent;
    if n > 0 {
      IndependentSlots(s, t, n - 1);
      IndependentSlot(s, t, n - 1);
    }
  }

  /** A stream with keys of its own owns the same blocks whatever the template is. */
  lemma IndependentOwn(s: StreamContext, t: StreamContext?)
    requires Independent(s, t)
    ensures OwnBlocks(s, t) == OwnBlocks(s, null)
  {
    hide SlotsBlocks;
    if t != null {
      IndependentSlots(s, t, |s.slots|);
      assert s.xtnList.Some? ==> s.xtnList in Pointers(s);
      assert t.xtnList.Some? ==> t.xtnList in Pointers(t);
    }
  }

  // --- Allocation ---------------------------------------------------------------------------

  /** The key slots of a clone: the pointers of the template, and MKIs of its own. */
  method CloneSlots(mem: Memory, slots: seq<KeySlot>) returns (own: seq<KeySlot>)
    requires mem.Valid()
    modifies mem
    ensures mem.Valid() && mem.live == old(mem.live) + MkiBlocks(own)
    ensures |own| == |slots| && forall j | 0 <= j < |own| :: own[j] == slots[j].(mki := own[j].mki)
  {
    hide Memory.Valid, MkiBlocks;
    own := [];
    NoMkis();
    for i := 0 to |slots|
      invariant mem.Valid() && |own| == i && forall j | 0 <= j < i :: own[j] == slots[j].(mki := own[j].mki)
      invariant mem.live == old(mem.live) + MkiBlocks(own)
    {
      var mki := None;
      if slots[i].mki.Some? {
        var b := mem.Alloc();
        mki := Some(b);
      }
      ghost var before := own;
      own := own + [slots[i].(mki := mki)];
      MkiAppended(before, slots[i].(mki := mki));
    }
  }

  /** srtp_stream_clone: shares the keys of the template, with replay databases of its own. */
  method CloneStream(mem: Memory, t: StreamContext, ssrc: ssrc4) returns (s: StreamContext)
    requires mem.Valid() && t.View().Valid()
    modifies mem
    ensures mem.Valid() && fresh(s) && Shares(s, t) && s.View() == Clone(t.View(), ssrc)
    ensures mem.live == old(mem.live) + OwnBlocks(s, t)
  {
    hide Released, Memory.Valid, MkiBlocks, Shares, OwnBlocks;
    ghost var l := mem.live;
    var self := mem.Alloc();
    var keyArray := mem.Alloc();
    var window := mem.Alloc();
    var own := CloneSlots(mem, t.slots);
    var st := PI.IndexState(Rdbx(0, ClearBits(|t.st.db.bits|)), 0);
    s := new StreamContext(StreamState(ssrc, t.prot, t.allowRepeat, st, Fresh(), t.dir),
                           own, t.xtnList, keyArray, window, self);
    SharesBySlots(s, t);
    SharedOwn(s, t);
  }

  lemma NoMkis()
    ensures MkiBlocks([]) == multiset{}
  {
  }

  lemma SharesBySlots(s: StreamContext, t: StreamContext)
    requires |s.slots| == |t.slots| && s.xtnList == t.xtnList
    requires forall i | 0 <= i < |s.slots| :: s.slots[i] == t.slots[i].(mki := s.slots[i].mki)
    ensures Shares(s, t)
  {
  }

  lemma MkiAppended(slots: seq<KeySlot>, k: KeySlot)
    ensures MkiBlocks(slots + [k]) == MkiBlocks(slots) + (if k.mki.Some? then multiset{k.mki.value} else multiset{})
  {
    assert (slots + [k])[..|slots|] == slots;
  }

  ghost function SumBlocks(slots: seq<KeySlot>): (r: multiset<Block>) {
    if slots == [] then multiset{} else SumBlocks(slots[..|slots| - 1]) + SlotBlocks(slots[|slots| - 1], NO_SLOT)
  }

  lemma SumAppended(slots: seq<KeySlot>, k: KeySlot)
    ensures SumBlocks(slots + [k]) == SumBlocks(slots) + SlotBlocks(k, NO_SLOT)
  {
    assert (slots + [k])[..|slots|] == slots;
  }

  lemma NoSlots()
    ensures SumBlocks([]) == multiset{}
  {
  }

  lemma {:induction false} SlotsSum(s: StreamContext, n: nat)
    requires n <= |s.slots|
    ensures SlotsBlocks(s, null, n) == SumBlocks(s.slots[..n])
  {
    hide SlotBlocks;
    if n > 0 {
      SlotsSum(s, n - 1);
      assert s.slots[..n][..n - 1] == s.slots[..n - 1];
    }
  }

  lemma OwnSum(s: StreamContext)
    ensures OwnBlocks(s, null)
      == SumBlocks(s.slots) + multiset{s.keyArray, s.window} + Released(s.xtnList, None) + multiset{s.self}
  {
    hide SlotsBlocks, SumBlocks, Released;
    SlotsSum(s, |s.slots|);
    assert s.slots[..|s.slots|] == s.slots;
  }

  method AllocIf(mem: Memory, wanted: bool) returns (b: Option<Block>)
    requires mem.Valid()
    modifies mem
    ensures mem.Valid() && b.Some? == wanted && (b.Some? ==> fresh(b.value))
    ensures mem.live == old(mem.live) + Released(b, None)
  {
    b := None;
    if wanted {
      var x := mem.Alloc();
      b := Some(x);
    }
  }

  /** Adding two parts one after the other. */
  lemma Give(l: multiset<Block>, a: multiset<Block>, b: multiset<Block>) returns (c: multiset<Block>)
    ensures c == a + b && l + a + b == l + c
  {
    c := a + b;
  }

  method AllocSlot(mem: Memory, withXtn: bool, withMki: bool) returns (k: KeySlot)
    requires mem.Valid()
    modifies mem
    ensures mem.Valid() && k.rtpAuth.Some? && forall p | p in SlotPointers(k) :: p.Some? && fresh(p.value)
    ensures mem.live == old(mem.live) + SlotBlocks(k, NO_SLOT)
  {
    hide Released, Memory.Valid;
    ghost var l := mem.live;
    var rtpCipher := AllocIf(mem, true);
    ghost var a := Released(rtpCipher, None);
    var rtpAuth := AllocIf(mem, true);
    ghost var b := Give(l, a, Released(rtpAuth, None));
    var xtn := AllocIf(mem, withXtn);
    b := Give(l, b, Released(xtn, None));
    var rtcpCipher := AllocIf(mem, true);
    b := Give(l, b, Released(rtcpCipher, None));
    var rtcpAuth := AllocIf(mem, true);
    b := Give(l, b, Released(rtcpAuth, None));
    var mki := AllocIf(mem, withMki);
    b := Give(l, b, Released(mki, None));
    var limit := AllocIf(mem, true);
    b := Give(l, b, Released(limit, None));
    k := KeySlot(rtpCipher, rtpAuth, xtn, rtcpCipher, rtcpAuth, mki, limit);
  }

  method AllocSlots(mem: Memory, n: nat, withXtn: bool, withMki: bool) returns (own: seq<KeySlot>)
    requires mem.Valid()
    modifies mem
    ensures mem.Valid() && |own| == n && forall j | 0 <= j < n :: own[j].rtpAuth.Some?
    ensures forall j, p | 0 <= j < n && p in SlotPointers(own[j]) :: p.Some? && fresh(p.value)
    ensures mem.live == old(mem.live) + SumBlocks(own)
  {
    hide Memory.Valid, SlotBlocks, SlotPointers, SumBlocks;
    ghost var l := mem.live;
    own := [];
    NoSlots();
    for i := 0 to n
      invariant mem.Valid() && |own| == i && forall j | 0 <= j < i :: own[j].rtpAuth.Some?
      invariant forall j, p | 0 <= j < i && p in SlotPointers(own[j]) :: p.Some? && fresh(p.value)
      invariant mem.live == l + SumBlocks(own)
    {
      var k := AllocSlot(mem, withXtn, withMki);
      SumAppended(own, k);
      ghost var g := Give(l, SumBlocks(own), SlotBlocks(k, NO_SLOT));
      own := own + [k];
    }
  }

  /** srtp_stream_alloc and srtp_stream_init: a stream with keys of its own. */
  method AllocStream(mem: Memory, v: StreamState) returns (s: StreamContext)
    requires mem.Valid() && v.Pristine()
    modifies mem
    ensures mem.Valid() && fresh(s) && s.View() == v
    ensures |s.slots| == v.prot.KeyCount() && forall i | 0 <= i < |s.slots| :: s.slots[i].rtpAuth.Some?
    ensures forall p | p in Pointers(s) :: p.Some? && fresh(p.value)
    ensures mem.live == old(mem.live) + OwnBlocks(s, null)
  {
    hide Released, Memory.Valid, SlotBlocks, SlotPointers, SumBlocks, OwnBlocks, StreamState.Pristine;
    ghost var l := mem.live;
    var withXtn, withMki := v.prot.cfg.ids != [], v.prot.cfg.mkiSize > 0;
    var own := AllocSlots(mem, v.prot.KeyCount(), withXtn, withMki);
    ghost var a := SumBlocks(own);
    var keyArray := mem.Alloc();
    var window := mem.Alloc();
    ghost var b := Give(l, a, multiset{keyArray, window});
    var xtnList := AllocIf(mem, withXtn);
    b := Give(l, b, Released(xtnList, None));
    var self := mem.Alloc();
    b := Give(l, b, multiset{self});
    s := new StreamContext(v, own, xtnList, keyArray, window, self);
    OwnSum(s);
  }

  // --- The list -----------------------------------------------------------------------------

  datatype Entry = Vacant | Entry(ssrc: ssrc4, stream: StreamContext)

  const INITIAL_CAPACITY := 2

  /** The position of the first stream with this SSRC, or the length. */
  function IndexOf(ss: seq<StreamContext>, ssrc: ssrc4): (i: nat)
    ensures i <= |ss| && (i < |ss| ==> ss[i].ssrc == ssrc) && forall j | 0 <= j < i :: ss[j].ssrc != ssrc
  {
    if ss == [] || ss[0].ssrc == ssrc then 0 else 1 + IndexOf(ss[1..], ssrc)
  }

  lemma Swapped(rest: multiset<Block>, a: Block, b: Block, c: Block)
    ensures rest + multiset{a, b} + multiset{c} - multiset{b} == rest + multiset{a, c}
  {
  }

  class StreamList {
    var entries: array<Entry>
    var size: nat
    var buffer: Block
    const self: Block

    ghost predicate Valid()
      reads this, entries
    {
      && 0 < entries.Length && size <= entries.Length
      && forall i | 0 <= i < size :: entries[i].Entry? && entries[i].ssrc == entries[i].stream.ssrc
    }

    ghost function Streams(): (ss: seq<StreamContext>)
      requires Valid()
      reads this, entries
      ensures |ss| == size && forall i | 0 <= i < size :: ss[i] == entries[i].stream
    {
      seq(size, i requires 0 <= i < size reads this, entries requires Valid() => entries[i].stream)
    }

    ghost function Blocks(): (r: multiset<Block>)
      reads this
    {
      multiset{self, buffer}
    }

    constructor (self: Block, buffer: Block)
      ensures Valid() && Streams() == [] && fresh(entries) && Blocks() == multiset{self, buffer}
    {
      this.self, this.buffer := self, buffer;
      entries := new Entry[INITIAL_CAPACITY](i => Vacant);
      size := 0;
    }

    /** The buffer is doubled, and the entries are copied. */
    method Grow(mem: Memory, ghost rest: multiset<Block>)
      requires Valid() && mem.Valid() && mem.live == rest + Blocks()
      modifies this, mem
      ensures Valid() && mem.Valid() && mem.live == rest + Blocks()
      ensures size == old(size) && Streams() == old(Streams())
      ensures fresh(entries) && entries.Length == 2 * old(entries.Length)
    {
      hide Memory.Valid;
      var fresher := mem.Alloc();
      var bigger := new Entry[2 * entries.Length](i => Vacant);
      forall i | 0 <= i < entries.Length {
        bigger[i] := entries[i];
      }
      Swapped(rest, self, buffer, fresher);
      mem.Free(buffer);
      ghost var was := Streams();
      entries, buffer := bigger, fresher;
      assert Streams() == was;
    }

    /** srtp_stream_list_insert: at the end. */
    method Insert(mem: Memory, s: StreamContext, ghost rest: multiset<Block>)
      requires Valid() && mem.Valid() && mem.live == rest + Blocks()
      modifies this, entries, mem
      ensures Valid() && mem.Valid() && mem.live == rest + Blocks()
      ensures Streams() == old(Streams()) + [s]
      ensures entries == old(entries) || fresh(entries)
    {
      hide Memory.Valid;
      ghost var was := Streams();
      if size == entries.Length { Grow(mem, rest); }
      entries[size] := Entry(s.ssrc, s);
      size := size + 1;
      assert Streams() == was + [s];
    }

    /** srtp_stream_list_remove: the first stream with the same SSRC, if there is one; the
        streams behind it move up. */
    method Remove(s: StreamContext)
      requires Valid()
      modifies this`size, entries
      ensures Valid()
      ensures var was := old(Streams()); var i := IndexOf(was, s.ssrc);
        Streams() == if i < |was| then was[..i] + was[i + 1..] else was
    {
      ghost var was := Streams();
      var i := 0;
      while i < size && entries[i].ssrc != s.ssrc
        invariant 0 <= i <= size && unchanged(this) && unchanged(entries)
        invariant forall j | 0 <= j < i :: was[j].ssrc != s.ssrc
      {
        i := i + 1;
      }
      IndexOfUnique(was, s.ssrc, i);
      if i == size { return; }
      forall j | i <= j < size - 1 {
        entries[j] := entries[j + 1];
      }
      size := size - 1;
      assert Streams() == was[..i] + was[i + 1..];
    }

    /** srtp_stream_list_get */
    method Get(ssrc: ssrc4) returns (r: StreamContext?)
      requires Valid()
      ensures var i := IndexOf(Streams(), ssrc); if i < size then r == Streams()[i] else r == null
    {
      ghost var ss := Streams();
      for i := 0 to size
        invariant forall j | 0 <= j < i :: ss[j].ssrc != ssrc
      {
        if entries[i].ssrc == ssrc {
          IndexOfUnique(ss, ssrc, i);
          return entries[i].stream;
        }
      }
      IndexOfUnique(ss, ssrc, size);
      r := null;
    }
  }

  lemma IndexOfUnique(ss: seq<StreamContext>, ssrc: ssrc4, i: nat)
    requires i <= |ss| && (i < |ss| ==> ss[i].ssrc == ssrc) && forall j | 0 <= j < i :: ss[j].ssrc != ssrc
    ensures IndexOf(ss, ssrc) == i
  {
  }
}
