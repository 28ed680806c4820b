/** The session context: its streams, its template and its memory, as the calls of the library
    change them in place (srtp/srtp.c). */
module SessionCode {
  import opened Results
  import opened Octets
  import opened Replay
  import opened RtcpReplay
  import opened RtpPackets
  import opened SrtcpPackets
  import opened Streams
  import S = Sessions
  import PI = PacketIndex

  ghost function ViewOf(ss: seq<StreamContext>): (r: seq<S.StreamState>)
    reads ss
    ensures |r| == |ss| && forall i | 0 <= i < |ss| :: r[i] == ss[i].View()
  {
    seq(|ss|, i requires 0 <= i < |ss| reads ss => ss[i].View())
  }

  /** The blocks of all streams that are not the template's. */
  ghost function ListBlocks(ss: seq<StreamContext>, t: StreamContext?): (r: multiset<Block>) {
    if ss == [] then multiset{} else ListBlocks(ss[..|ss| - 1], t) + OwnBlocks(ss[|ss| - 1], t)
  }

  lemma {:induction false} ListBlocksConcat(a: seq<StreamContext>, b: seq<StreamContext>, t: StreamContext?)
    ensures ListBlocks(a + b, t) == ListBlocks(a, t) + ListBlocks(b, t)
    decreases |b|
  {
    hide OwnBlocks;
    if b == [] {
      assert a + b == a;
    } else {
      var n := |b| - 1;
      assert (a + b)[..|a + b| - 1] == a + b[..n];
      ListBlocksConcat(a, b[..n], t);
    }
  }

  lemma ListBlocksOne(s: StreamContext, t: StreamContext?)
    ensures ListBlocks([s], t) == OwnBlocks(s, t)
  {
    hide OwnBlocks;
    assert [s][..0] == [];
  }

  ghost function TemplateBlocks(t: StreamContext?): (r: multiset<Block>) {
    if t == null then multiset{} else OwnBlocks(t, null)
  }

  /** Every stream is either a clone of the template or has keys of its own. */
  ghost predicate Linked(s: StreamContext, t: StreamContext?) {
    Independent(s, t) || (t != null && Shares(s, t))
  }

  ghost predicate HasKeys(s: StreamContext) {
    |s.slots| > 0 && s.slots[0].rtpAuth.Some?
  }

  /** How the streams hang together: this depends on no mutable field. */
  ghost predicate Wired(ss: seq<StreamContext>, t: StreamContext?) {
    && (t != null ==> HasKeys(t) && t !in ss)
    && (forall i | 0 <= i < |ss| :: HasKeys(ss[i]) && Linked(ss[i], t))
    && (forall i, j | 0 <= i < j < |ss| :: ss[i] != ss[j])
  }

  /** The session's value fits its streams; a clone goes in the direction of the template. */
  ghost predicate Fits(ss: seq<StreamContext>, t: StreamContext?, v: S.Session) {
    && v.Valid() && |v.streams| == |ss| && (t != null <==> v.template.Some?)
    && (t != null ==> forall i | 0 <= i < |ss| && Shares(ss[i], t) :: v.streams[i].dir == v.template.value.dir)
  }

  lemma WiredAppend(ss: seq<StreamContext>, t: StreamContext?, c: StreamContext)
    requires Wired(ss, t) && HasKeys(c) && Linked(c, t) && c !in ss && c != t
    ensures Wired(ss + [c], t)
  {
    hide HasKeys, Linked;
  }

  lemma FitsAppend(ss: seq<StreamContext>, t: StreamContext?, v: S.Session, c: StreamContext, x: S.StreamState)
    requires Fits(ss, t, v) && x.Valid() && (t != null && Shares(c, t) ==> x.dir == v.template.value.dir)
    ensures Fits(ss + [c], t, v.(streams := v.streams + [x]))
  {
    hide Shares, S.StreamState.Valid, S.StreamState.Pristine;
  }

  lemma FitsUpdate(ss: seq<StreamContext>, t: StreamContext?, v: S.Session, i: nat, x: S.StreamState)
    requires Fits(ss, t, v) && i < |ss| && x.Valid() && (t != null && Shares(ss[i], t) ==> x.dir == v.streams[i].dir)
    ensures Fits(ss, t, v.(streams := v.streams[i := x]))
  {
    hide Shares, S.StreamState.Valid, S.StreamState.Pristine;
  }

  /** All blocks that a session has to free in the end. */
  ghost function AllBlocks(ss: seq<StreamContext>, t: StreamContext?, list: multiset<Block>,
                           self: Block): (r: multiset<Block>) {
    ListBlocks(ss, t) + TemplateBlocks(t) + list + multiset{self}
  }

  lemma BlocksAppend(rest: multiset<Block>, ss: seq<StreamContext>, t: StreamContext?, l: multiset<Block>, self: Block,
                     c: StreamContext)
    ensures var others := rest + ListBlocks(ss, t) + TemplateBlocks(t) + multiset{self} + OwnBlocks(c, t);
      && rest + AllBlocks(ss, t, l, self) + OwnBlocks(c, t) == others + l
      && others + l == rest + AllBlocks(ss + [c], t, l, self)
  {
    hide ListBlocks, OwnBlocks, TemplateBlocks;
    ListBlocksConcat(ss, [c], t);
    ListBlocksOne(c, t);
  }

  lemma ListBlocksSplit(ss: seq<StreamContext>, t: StreamContext?, i: nat)
    requires i < |ss|
    ensures ListBlocks(ss, t) == ListBlocks(ss[..i] + ss[i + 1..], t) + OwnBlocks(ss[i], t)
  {
    hide ListBlocks, OwnBlocks;
    assert ss == ss[..i] + ([ss[i]] + ss[i + 1..]);
    ListBlocksConcat(ss[..i], [ss[i]] + ss[i + 1..], t);
    ListBlocksConcat([ss[i]], ss[i + 1..], t);
    ListBlocksConcat(ss[..i], ss[i + 1..], t);
    ListBlocksOne(ss[i], t);
  }

  lemma BlocksRemove(rest: multiset<Block>, ss: seq<StreamContext>, t: StreamContext?, l: multiset<Block>, self: Block,
                     i: nat)
    requires i < |ss|
    ensures var left := rest + AllBlocks(ss[..i] + ss[i + 1..], t, l, self);
      && rest + AllBlocks(ss, t, l, self) == left + OwnBlocks(ss[i], t)
      && left + OwnBlocks(ss[i], t) - OwnBlocks(ss[i], t) == left
  {
    hide ListBlocks, OwnBlocks, TemplateBlocks;
    ListBlocksSplit(ss, t, i);
  }

  lemma WiredRemove(ss: seq<StreamContext>, t: StreamContext?, v: S.Session, i: nat)
    requires Wired(ss, t) && Fits(ss, t, v) && i < |ss|
    ensures Wired(ss[..i] + ss[i + 1..], t)
    ensures Fits(ss[..i] + ss[i + 1..], t, v.(streams := v.streams[..i] + v.streams[i + 1..]))
  {
    hide HasKeys, Linked, Shares, S.StreamState.Valid, S.StreamState.Pristine;
    var rs, xs := ss[..i] + ss[i + 1..], v.streams[..i] + v.streams[i + 1..];
    assert forall j | 0 <= j < |rs| ::
        rs[j] == ss[if j < i then j else j + 1] && xs[j] == v.streams[if j < i then j else j + 1];
  }

  /** None of the streams shares a pointer with the template. */
  ghost predicate AllIndependent(ss: seq<StreamContext>, t: StreamContext?) {
    forall i | 0 <= i < |ss| :: Independent(ss[i], t)
  }

  lemma {:induction false} ListBlocksIndependent(ss: seq<StreamContext>, t: StreamContext?)
    requires AllIndependent(ss, t)
    ensures ListBlocks(ss, t) == ListBlocks(ss, null)
    decreases |ss|
  {
    hide OwnBlocks, Independent;
    if ss != [] {
      var n := |ss| - 1;
      ListBlocksIndependent(ss[..n], t);
      IndependentOwn(ss[n], t);
    }
  }

  /** The streams of a session without template stay as they are when it gets one. */
  lemma NewTemplate(rest: multiset<Block>, ss: seq<StreamContext>, t: StreamContext, v: S.Session, x: S.StreamState,
                    l: multiset<Block>, self: Block)
    requires Wired(ss, null) && Fits(ss, null, v) && HasKeys(t) && t !in ss && AllIndependent(ss, t)
    requires x.Pristine() && x.dir != S.Unknown
    ensures Wired(ss, t) && Fits(ss, t, v.(template := Some(x)))
    ensures rest + AllBlocks(ss, null, l, self) + OwnBlocks(t, null) == rest + AllBlocks(ss, t, l, self)
  {
    hide OwnBlocks, HasKeys, Independent, Shares, S.StreamState.Valid, S.StreamState.Pristine, ListBlocks;
    ListBlocksIndependent(ss, t);
    assert TemplateBlocks(null) == multiset{};
    forall i | 0 <= i < |ss|
      ensures !Shares(ss[i], t)
    {
      IndependentIsNotShared(ss[i], t);
    }
  }

  lemma IndependentIsNotShared(s: StreamContext, t: StreamContext)
    requires HasKeys(s) && Independent(s, t)
    ensures !Shares(s, t) && (HasKeys(t) ==> s.slots[0].rtpAuth != t.slots[0].rtpAuth)
  {
    assert s.slots[0].rtpAuth in SlotPointers(s.slots[0]);
    assert s.slots[0].rtpAuth in Pointers(s);
    if HasKeys(t) {
      assert t.slots[0].rtpAuth in SlotPointers(t.slots[0]);
      assert t.slots[0].rtpAuth in Pointers(t);
    }
  }

  /** A new stream shares nothing with the streams that are there. */
  method NewStream(mem: Memory, v: S.StreamState, ghost ss: seq<StreamContext>) returns (s: StreamContext)
    requires mem.Valid() && v.Pristine()
    modifies mem
    ensures mem.Valid() && mem.live == old(mem.live) + OwnBlocks(s, null)
    ensures fresh(s) && s.View() == v && HasKeys(s) && v.Valid() && AllIndependent(ss, s)
    ensures forall x | x in ss :: Independent(s, x)
  {
    hide OwnBlocks, Memory.Valid, Pointers, S.StreamState.Valid;
    forall i | 0 <= i < |ss|
      ensures forall p | p in Pointers(ss[i]) && p.Some? :: allocated(p.value)
    {
      PointersAllocated(ss[i]);
    }
    s := AllocStream(mem, v);
    KeyedStream(s, v);
  }

  /** Pointers that a stream has are to memory that was allocated before. */
  lemma PointersAllocated(s: StreamContext)
    ensures forall p | p in Pointers(s) && p.Some? :: allocated(p.value)
  {
  }

  class SessionContext {
    const mem: Memory
    const self: Block
    var template: StreamContext?
    var list: StreamList

    ghost predicate Valid()
      reads this, list, list.entries, template, if list.Valid() then list.Streams() else []
    {
      list.Valid() && Wired(list.Streams(), template) && Fits(list.Streams(), template, View())
    }

    ghost function View(): (v: S.Session)
      requires list.Valid()
      reads this, list, list.entries, template, if list.Valid() then list.Streams() else []
    {
      S.Session(if template == null then None else Some(template.View()), ViewOf(list.Streams()))
    }

    ghost function Blocks(): (r: multiset<Block>)
      requires list.Valid()
      reads this, list, list.entries
    {
      AllBlocks(list.Streams(), template, list.Blocks(), self)
    }

    constructor (mem: Memory)
      requires mem.Valid()
      modifies mem
      ensures Valid() && this.mem == mem && mem.Valid() && View() == S.Session(None, [])
      ensures fresh(list) && fresh(list.entries) && mem.live == old(mem.live) + Blocks()
    {
      hide Memory.Valid;
      var a := mem.Alloc();
      var b := mem.Alloc();
      var c := mem.Alloc();
      var l := new StreamList(b, c);
      this.mem, self, template, list := mem, a, null, l;
      EmptySession(old(mem.live), a, b, c);
    }

    /** The stream at this SSRC is the one that the value-level lookup finds. */
    lemma LookupAgrees(ssrc: S.ssrc4)
      requires list.Valid()
      ensures var ss := list.Streams(); var i := IndexOf(ss, ssrc);
        S.FindStream(ViewOf(ss), ssrc, 0) == if i < |ss| then Some(i) else None
    {
      var ss := list.Streams();
      var f := S.FindStream(ViewOf(ss), ssrc, 0);
      if f.Some? { IndexOfUnique(ss, ssrc, f.value); } else { IndexOfUnique(ss, ssrc, |ss|); }
    }

    /** Puts a stream at the end of the list, together with its blocks. */
    method Append(c: StreamContext, ghost rest: multiset<Block>)
      requires list.Valid() && mem.Valid() && mem.live == rest + Blocks() + OwnBlocks(c, template)
      modifies list, list.entries, mem
      ensures list.Valid() && mem.Valid() && mem.live == rest + Blocks()
      ensures list.Streams() == old(list.Streams()) + [c]
      ensures ViewOf(list.Streams()) == old(ViewOf(list.Streams())) + [c.View()]
      ensures list.entries == old(list.entries) || fresh(list.entries)
    {
      hide Memory.Valid, AllBlocks, OwnBlocks, ListBlocks, TemplateBlocks;
      ghost var ss := list.Streams();
      BlocksAppend(rest, ss, template, list.Blocks(), self, c);
      ghost var others := rest + ListBlocks(ss, template) + TemplateBlocks(template) + multiset{self};
      list.Insert(mem, c, others + OwnBlocks(c, template));
      BlocksAppend(rest, ss, template, list.Blocks(), self, c);
    }

    /** A new stream from the template, at the end of the list. */
    method AddClone(ssrc: S.ssrc4, ghost rest: multiset<Block>) returns (c: StreamContext)
      requires Valid() && template != null && mem.Valid() && mem.live == rest + Blocks()
      modifies list, list.entries, mem
      ensures Valid() && mem.Valid() && mem.live == rest + Blocks()
      ensures template == old(template) && fresh(c) && Shares(c, template)
      ensures list.Streams() == old(list.Streams()) + [c]
      ensures list.entries == old(list.entries) || fresh(list.entries)
      ensures View() == old(View()).(streams := old(View()).streams + [S.Clone(template.View(), ssrc)])
    {
      hide Wired, Fits, Memory.Valid, AllBlocks, OwnBlocks, ListBlocks, TemplateBlocks, Shares, HasKeys, Linked,
           S.Clone,
           S.StreamState.Valid, S.StreamState.Pristine, S.Session.Valid;
      ghost var ss, v := list.Streams(), View();
      TemplateFacts(ss, template, v);
      c := CloneStream(mem, template, ssrc);
      Append(c, rest);
      ClonesAreLinked(c, template);
      WiredAppend(ss, template, c);
      FitsAppend(ss, template, v, c, S.Clone(template.View(), ssrc));
    }

    /** Changes the fields of one stream. */
    method Store(s: StreamContext, st: PI.IndexState, rtcp: Rdb, dir: S.Direction, ghost i: nat)
      requires Valid() && i < |list.Streams()| && s == list.Streams()[i] && st.Valid() && rtcp.Valid()
      requires dir == s.dir || s.dir == S.Unknown
      modifies s
      ensures Valid() && View() == old(View()).(streams := old(View()).streams[i := s.View()])
      ensures s.View() == old(s.View()).(st := st, rtcp := rtcp, dir := dir)
      ensures list.Streams() == old(list.Streams()) && Blocks() == old(Blocks())
    {
      hide Wired, Fits, Shares, HasKeys, Linked, S.StreamState.Pristine, S.Session.Valid;
      ghost var ss, v := list.Streams(), View();
      DistinctStreams(ss, template, i);
      StreamFacts(ss, template, v, i);
      s.st, s.rtcp, s.dir := st, rtcp, dir;
      FitsUpdate(ss, template, v, i, s.View());
      assert ViewOf(ss) == v.streams[i := s.View()];
    }

    /** A new sending stream for an SSRC that has none. */
    method NewSender(ssrc: S.ssrc4, ghost rest: multiset<Block>) returns (r: Result<StreamContext>)
      requires Valid() && mem.Valid() && mem.live == rest + Blocks() && S.FindStream(View().streams, ssrc, 0).None?
      modifies list, list.entries, mem
      ensures Valid() && mem.Valid() && mem.live == rest + Blocks() && template == old(template)
      ensures list.entries == old(list.entries) || fresh(list.entries)
      ensures r.Success? ==> fresh(r.value)
      ensures Chosen(S.ForSending(old(View()), ssrc), r, old(View()), View(), list.Streams())
    {
      hide Wired, Fits, Shares, HasKeys, Linked, Memory.Valid, AllBlocks, S.Clone, S.StreamState.Valid,
           S.StreamState.Pristine,
           S.ForSending, S.FindStream, Chosen;
      ghost var v, ss := View(), list.Streams();
      ViewFacts(ss, template, v);
      ChosenNone(v, ssrc, ss);
      if template == null || template.dir == S.Receiver { return Failure(NoCtx); }
      TemplateFacts(ss, template, v);
      var s := AddClone(ssrc, rest);
      ChosenNew(v, ssrc, ss, s);
      StreamFacts(list.Streams(), template, View(), |ss|);
      SenderClone(v.template.value, ssrc);
      Store(s, s.st, s.rtcp, S.Sender, |ss|);
      r := Success(s);
    }

    /** The stream to send on. */
    method ForSending(ssrc: S.ssrc4, ghost rest: multiset<Block>) returns (r: Result<StreamContext>)
      requires Valid() && mem.Valid() && mem.live == rest + Blocks()
      modifies list, list.entries, mem, list.Streams()
      ensures Valid() && mem.Valid() && mem.live == rest + Blocks() && template == old(template)
      ensures list.entries == old(list.entries) || fresh(list.entries)
      ensures r.Success? ==> r.value in old(list.Streams()) || fresh(r.value)
      ensures Chosen(S.ForSending(old(View()), ssrc), r, old(View()), View(), list.Streams())
    {
      hide Wired, Fits, Shares, HasKeys, Linked, Memory.Valid, AllBlocks, S.StreamState.Valid, S.StreamState.Pristine,
           S.ForSending, S.FindStream, IndexOf, Chosen;
      LookupAgrees(ssrc);
      ghost var v, ss, i := View(), list.Streams(), IndexOf(list.Streams(), ssrc);
      var s := list.Get(ssrc);
      if s == null {
        r := NewSender(ssrc, rest);
        return;
      }
      StreamFacts(ss, template, v, i);
      ChosenFound(v, ssrc, i, ss);
      if s.dir == S.Receiver { return Failure(DirectionMismatch); }
      Store(s, s.st, s.rtcp, S.Sender, i);
      r := Success(s);
    }

    /** srtp_protect */
    method Protect(mki: nat, pkt: seq<octet>, out: seq<octet>, inPlace: bool, ghost rest: multiset<Block>)
      returns (r: Result<seq<octet>>)
      requires Valid() && mem.Valid() && mem.live == rest + Blocks()
      modifies list, list.entries, mem, list.Streams()
      ensures Valid() && mem.Valid() && mem.live == rest + Blocks()
      ensures (View(), r) == S.Protect(old(View()), mki, pkt, out, inPlace)
    {
      hide Wired, Fits, Memory.Valid, AllBlocks, S.StreamState.Valid, S.StreamState.Pristine, S.ForSending, S.SendOn,
           SsrcOf, HdrLen, XtnLen, HasXtn;
      ghost var v := View();
      ViewFacts(list.Streams(), template, v);
      if !ValidHeader(pkt) { return Failure(BadParam); }
      var chosen := ForSending(SsrcOf(pkt), rest);
      if chosen.Failure? { return Failure(chosen.error); }
      var s := chosen.value;
      ghost var i := S.ForSending(v, SsrcOf(pkt)).value.1;
      StreamFacts(list.Streams(), template, View(), i);
      StateFacts(s.View());
      var sent := S.SendOn(s.View(), mki, pkt, out, inPlace);
      Store(s, sent.0, s.rtcp, s.dir, i);
      r := sent.1;
    }

    /** srtp_protect_rtcp */
    method ProtectControl(mki: nat, pkt: seq<octet>, cap: nat,
                          ghost rest: multiset<Block>) returns (r: Result<seq<octet>>)
      requires Valid() && mem.Valid() && mem.live == rest + Blocks()
      modifies list, list.entries, mem, list.Streams()
      ensures Valid() && mem.Valid() && mem.live == rest + Blocks()
      ensures (View(), r) == S.ProtectControl(old(View()), mki, pkt, cap)
    {
      hide Wired, Fits, Memory.Valid, AllBlocks, S.StreamState.Valid, S.StreamState.Pristine, S.ForSending,
           S.SendRtcpOn, Sub;
      ghost var v := View();
      ViewFacts(list.Streams(), template, v);
      if |pkt| < RTCP_HEADER { return Failure(BadParam); }
      var chosen := ForSending(RtcpSsrc(pkt), rest);
      if chosen.Failure? { return Failure(chosen.error); }
      var s := chosen.value;
      ghost var i := S.ForSending(v, RtcpSsrc(pkt)).value.1;
      StreamFacts(list.Streams(), template, View(), i);
      StateFacts(s.View());
      var sent := S.SendRtcpOn(s.View(), mki, pkt, cap);
      Store(s, s.st, sent.0, s.dir, i);
      r := sent.1;
    }

    /** The stream to receive on, which may be the template. */
    method ForReceiving(ssrc: S.ssrc4) returns (r: Result<StreamContext>)
      requires Valid()
      ensures match S.ForReceiving(View(), ssrc)
        case Failure(e) => r == Failure(e)
        case Success(On(i)) => r == Success(list.Streams()[i]) && r.value != template
        case Success(Provisional) => template != null && r == Success(template)
    {
      hide Fits, Shares, HasKeys, Linked, S.FindStream, IndexOf;
      LookupAgrees(ssrc);
      ViewFacts(list.Streams(), template, View());
      ghost var i := IndexOf(list.Streams(), ssrc);
      var s := list.Get(ssrc);
      if s != null {
        return if s.dir == S.Sender then Failure(DirectionMismatch) else Success(s);
      }
      if template == null || template.dir == S.Sender { return Failure(NoCtx); }
      r := Success(template);
    }

    /** An accepted packet on the template makes a stream of its own. */
    method AcceptNew(ssrc: S.ssrc4, st: PI.IndexState, rtcp: Rdb, ghost rest: multiset<Block>)
      requires Valid() && template != null && mem.Valid() && mem.live == rest + Blocks() && st.Valid() && rtcp.Valid()
      modifies list, list.entries, mem
      ensures Valid() && mem.Valid() && mem.live == rest + Blocks()
      ensures View() == S.Accept(old(View()), S.Provisional, ssrc, st, rtcp)
    {
      hide Wired, Fits, Shares, Memory.Valid, AllBlocks, S.Clone, S.StreamState.Valid, S.StreamState.Pristine;
      ghost var v, ss := View(), list.Streams();
      TemplateFacts(ss, template, v);
      ViewFacts(ss, template, v);
      var c := AddClone(ssrc, rest);
      StreamFacts(list.Streams(), template, View(), |ss|);
      Store(c, st, rtcp, c.dir, |ss|);
      assert View().streams == v.streams + [c.View()];
    }

    /** Puts an accepted packet on record; a provisional stream becomes a stream of its own. */
    method Accept(x: StreamContext, ssrc: S.ssrc4, st: PI.IndexState, rtcp: Rdb, ghost p: S.Place,
                  ghost rest: multiset<Block>)
      requires Valid() && mem.Valid() && mem.live == rest + Blocks() && st.Valid() && rtcp.Valid()
      requires p.On? ==> p.i < |list.Streams()| && x == list.Streams()[p.i] && x != template
      requires p.Provisional? ==> x == template
      modifies list, list.entries, mem, list.Streams()
      ensures Valid() && mem.Valid() && mem.live == rest + Blocks()
      ensures View() == S.Accept(old(View()), p, ssrc, st, rtcp)
    {
      hide Wired, Fits, Shares, Memory.Valid, AllBlocks, S.Clone, S.StreamState.Valid, S.StreamState.Pristine;
      ghost var v, ss := View(), list.Streams();
      ViewFacts(ss, template, v);
      if x == template {
        AcceptNew(ssrc, st, rtcp, rest);
      } else {
        StreamFacts(ss, template, v, p.i);
        Store(x, st, rtcp, if x.dir == S.Unknown then S.Receiver else x.dir, p.i);
      }
    }

    /** srtp_unprotect: a packet that is refused leaves the session as it was. */
    method Unprotect(sp: seq<octet>, cap: nat, inPlace: bool,
                     ghost rest: multiset<Block>) returns (r: Result<seq<octet>>)
      requires Valid() && mem.Valid() && mem.live == rest + Blocks()
      modifies list, list.entries, mem, list.Streams()
      ensures Valid() && mem.Valid() && mem.live == rest + Blocks()
      ensures (View(), r) == S.Unprotect(old(View()), sp, cap, inPlace)
      ensures r.Failure? ==> View() == old(View()) && mem.live == old(mem.live) && list.Streams() == old(list.Streams())
    {
      hide Wired, Fits, Memory.Valid, AllBlocks, S.StreamState.Valid, S.StreamState.Pristine, S.ForReceiving,
           S.ReceiveOn, S.Accept,
           SsrcOf, HdrLen, XtnLen, HasXtn, PI.Record, PI.Locate;
      ghost var v := View();
      ViewFacts(list.Streams(), template, v);
      if !ValidHeader(sp) { return Failure(BadParam); }
      var x := ForReceiving(SsrcOf(sp));
      if x.Failure? { return Failure(x.error); }
      ghost var p := S.ForReceiving(v, SsrcOf(sp)).value;
      assert x.value.View() == S.StreamAt(v, p);
      StateFacts(x.value.View());
      var got := S.ReceiveOn(x.value.View(), sp, cap, inPlace);
      if got.Failure? { return Failure(got.error); }
      Accept(x.value, SsrcOf(sp), PI.Record(x.value.st, got.value.at), x.value.rtcp, p, rest);
      r := Success(got.value.pkt);
    }

    /** srtp_unprotect_rtcp */
    method UnprotectControl(sp: seq<octet>, cap: nat, ghost rest: multiset<Block>) returns (r: Result<seq<octet>>)
      requires Valid() && mem.Valid() && mem.live == rest + Blocks()
      modifies list, list.entries, mem, list.Streams()
      ensures Valid() && mem.Valid() && mem.live == rest + Blocks()
      ensures (View(), r) == S.UnprotectControl(old(View()), sp, cap)
      ensures r.Failure? ==> View() == old(View()) && mem.live == old(mem.live) && list.Streams() == old(list.Streams())
    {
      hide Wired, Fits, Memory.Valid, AllBlocks, S.StreamState.Valid, S.StreamState.Pristine, S.ForReceiving,
           S.ReceiveRtcpOn, S.Accept, Sub;
      ghost var v := View();
      ViewFacts(list.Streams(), template, v);
      if |sp| < RTCP_HEADER + RTCP_TRAILER { return Failure(BadParam); }
      var x := ForReceiving(RtcpSsrc(sp));
      if x.Failure? { return Failure(x.error); }
      ghost var p := S.ForReceiving(v, RtcpSsrc(sp)).value;
      assert x.value.View() == S.StreamAt(v, p);
      StateFacts(x.value.View());
      var got := S.ReceiveRtcpOn(x.value.View(), sp, cap);
      if got.Failure? { return Failure(got.error); }
      var (pkt, i) := got.value;
      Accept(x.value, RtcpSsrc(sp), x.value.st, AddRtcp(x.value.rtcp, i), p, rest);
      r := Success(pkt);
    }

    /** srtp_stream_set_roc */
    method SetRoc(ssrc: S.ssrc4, roc: roc32) returns (r: Result<()>)
      requires Valid()
      modifies list.Streams()
      ensures Valid() && View() == S.SetRoc(old(View()), ssrc, roc)
      ensures r == if S.FindStream(old(View()).streams, ssrc, 0).None? then Failure(BadParam) else Success(())
    {
      hide Wired, Fits, Shares, HasKeys, Linked, S.FindStream, IndexOf, S.StreamState.Pristine;
      LookupAgrees(ssrc);
      ghost var v, i := View(), IndexOf(list.Streams(), ssrc);
      ViewFacts(list.Streams(), template, v);
      var s := list.Get(ssrc);
      if s == null { return Failure(BadParam); }
      StreamFacts(list.Streams(), template, v, i);
      Store(s, s.st.(pendingRoc := roc), s.rtcp, s.dir, i);
      r := Success(());
    }

    /** Takes the stream at position i, the first with its SSRC, out of the list. */
    method Unlink(s: StreamContext, ghost i: nat)
      requires list.Valid() && i < |list.Streams()| && s == list.Streams()[i] && IndexOf(list.Streams(), s.ssrc) == i
      modifies list`size, list.entries
      ensures list.Valid() && list.Streams() == old(list.Streams())[..i] + old(list.Streams())[i + 1..]
      ensures ViewOf(list.Streams()) == old(ViewOf(list.Streams()))[..i] + old(ViewOf(list.Streams()))[i + 1..]
    {
      hide IndexOf;
      list.Remove(s);
    }

    /** Frees a stream that is not in the list any more. */
    method FreeStream(s: StreamContext, ghost rest: multiset<Block>)
      requires list.Valid() && mem.Valid() && mem.live == rest + OwnBlocks(s, template)
      modifies mem
      ensures list.Valid() && mem.Valid() && mem.live == rest
      ensures list.Streams() == old(list.Streams()) && ViewOf(list.Streams()) == old(ViewOf(list.Streams()))
    {
      hide Memory.Valid, OwnBlocks;
      Taken(rest, OwnBlocks(s, template));
      Dealloc(mem, s, template);
    }

    /** Both, for the stream at position i. */
    method Drop(s: StreamContext, ghost i: nat, ghost rest: multiset<Block>)
      requires list.Valid() && mem.Valid() && mem.live == rest + Blocks()
      requires i < |list.Streams()| && s == list.Streams()[i] && IndexOf(list.Streams(), s.ssrc) == i
      modifies list`size, list.entries, mem
      ensures list.Valid() && mem.Valid() && mem.live == rest + Blocks()
      ensures list.Streams() == old(list.Streams())[..i] + old(list.Streams())[i + 1..]
      ensures ViewOf(list.Streams()) == old(ViewOf(list.Streams()))[..i] + old(ViewOf(list.Streams()))[i + 1..]
    {
      hide Memory.Valid, AllBlocks, OwnBlocks, IndexOf, ViewOf;
      BlocksRemove(rest, list.Streams(), template, list.Blocks(), self, i);
      Unlink(s, i);
      FreeStream(s, rest + Blocks());
    }

    /** srtp_stream_remove: the stream's own blocks are freed, those of the template stay. */
    method RemoveStream(ssrc: S.ssrc4, ghost rest: multiset<Block>) returns (r: Result<()>)
      requires Valid() && mem.Valid() && mem.live == rest + Blocks()
      modifies list`size, list.entries, mem
      ensures Valid() && mem.Valid() && mem.live == rest + Blocks()
      ensures View() == S.RemoveStream(old(View()), ssrc)
      ensures r == if S.FindStream(old(View()).streams, ssrc, 0).None? then Failure(NoCtx) else Success(())
    {
      hide Wired, Fits, Memory.Valid, AllBlocks, S.FindStream, IndexOf, S.StreamState.Valid, S.StreamState.Pristine,
           S.Session.Valid, S.RemoveStream;
      LookupAgrees(ssrc);
      ghost var v, ss, i := View(), list.Streams(), IndexOf(list.Streams(), ssrc);
      ViewFacts(ss, template, v);
      NotFound(v, ssrc);
      var s := list.Get(ssrc);
      if s == null { return Failure(NoCtx); }
      WiredRemove(ss, template, v, i);
      RemovedFrom(v, ssrc, i);
      Drop(s, i, rest);
      r := Success(());
    }

    /** srtp_remove_and_dealloc_streams: the loop of srtp_stream_list_for_each stays at the first
        entry as long as the callback removes entries. */
    method RemoveAll(ghost rest: multiset<Block>)
      requires list.Valid() && mem.Valid() && mem.live == rest + Blocks()
      modifies list`size, list.entries, mem
      ensures list.Valid() && mem.Valid() && mem.live == rest + Blocks() && list.Streams() == []
    {
      hide Memory.Valid, AllBlocks, OwnBlocks;
      var i, size := 0, list.size;
      while i < list.size
        invariant i == 0 && list.Valid() && size == list.size && mem.Valid() && mem.live == rest + Blocks()
        decreases list.size
      {
        ghost var ss := list.Streams();
        var s := list.entries[i].stream;
        IndexOfUnique(ss, s.ssrc, 0);
        Drop(s, 0, rest);
        if size == list.size { i := i + 1; }
        size := list.size;
      }
    }

    /** srtp_dealloc: everything that the session holds is freed, each block exactly once. */
    method Destroy(ghost rest: multiset<Block>)
      requires list.Valid() && mem.Valid() && mem.live == rest + Blocks()
      modifies list`size, list.entries, mem
      ensures mem.Valid() && mem.live == rest
    {
      hide Memory.Valid, OwnBlocks;
      RemoveAll(rest);
      EmptyBlocks(rest, template, list.self, list.buffer, self);
      if template != null { Dealloc(mem, template, null); }
      FreeTwo(mem, list.self, list.buffer);
      mem.Free(self);
    }

    /** srtp_stream_add for one SSRC: a stream with keys of its own. */
    method AddStream(v: S.StreamState, ghost rest: multiset<Block>)
      requires Valid() && mem.Valid() && mem.live == rest + Blocks() && v.Pristine()
      modifies list, list.entries, mem
      ensures Valid() && mem.Valid() && mem.live == rest + Blocks()
      ensures View() == old(View()).(streams := old(View()).streams + [v])
    {
      hide Wired, Fits, Shares, Memory.Valid, AllBlocks, OwnBlocks, Independent, HasKeys, S.Session.Valid,
           S.StreamState.Pristine;
      ghost var ss, was := list.Streams(), View();
      var s := NewStream(mem, v, if template == null then [] else [template]);
      ApartFrom(s, template);
      IndependentOwn(s, template);
      Append(s, rest);
      WiredAppend(ss, template, s);
      FitsAppend(ss, template, was, s, v);
    }

    method SetTemplate(s: StreamContext, ghost rest: multiset<Block>)
      requires Valid() && template == null && mem.live == rest + Blocks() + OwnBlocks(s, null)
      requires HasKeys(s) && s !in list.Streams() && AllIndependent(list.Streams(), s)
      requires s.View().Pristine() && s.dir != S.Unknown
      modifies this`template
      ensures Valid() && mem.live == rest + Blocks() && View() == old(View()).(template := Some(s.View()))
    {
      hide Wired, Fits, AllBlocks, OwnBlocks, AllIndependent, HasKeys, S.Session.Valid, S.StreamState.Pristine;
      NewTemplate(rest, list.Streams(), s, View(), s.View(), list.Blocks(), self);
      template := s;
    }

    /** A stream that is allocated and, because it is not wanted, freed again. */
    method AllocAndFree(v: S.StreamState)
      requires mem.Valid() && v.Pristine()
      modifies mem
      ensures mem.Valid() && mem.live == old(mem.live)
    {
      hide Memory.Valid, OwnBlocks;
      var s := AllocStream(mem, v);
      Taken(old(mem.live), OwnBlocks(s, null));
      Dealloc(mem, s, null);
    }

    /** srtp_stream_add for any SSRC: the template, if there is none yet. */
    method AddTemplate(v: S.StreamState, ghost rest: multiset<Block>) returns (r: Result<()>)
      requires Valid() && mem.Valid() && mem.live == rest + Blocks() && v.Pristine() && v.dir != S.Unknown
      modifies this`template, mem
      ensures Valid() && mem.Valid() && mem.live == rest + Blocks() && list == old(list)
      ensures if old(template) != null then r == Failure(BadParam) && View() == old(View())
              else r == Success(()) && View() == old(View()).(template := Some(v))
    {
      hide Wired, Fits, Memory.Valid, AllBlocks, OwnBlocks, AllIndependent, HasKeys, S.Session.Valid,
           S.StreamState.Pristine;
      if template != null {
        AllocAndFree(v);
        return Failure(BadParam);
      }
      var s := NewStream(mem, v, list.Streams());
      SetTemplate(s, rest);
      r := Success(());
    }

    /** get_protect_trailer_length_cb, for the stream at position i. */
    method LongerWith(i: nat, found: Option<nat>, rtp: bool, mki: nat, ghost v: S.Session) returns (r: Option<nat>)
      requires Valid() && v == View() && v.Valid() && i < list.size == |v.streams|
      requires found == S.LongestTrailer(v, rtp, mki, i)
      ensures r == S.LongestTrailer(v, rtp, mki, i + 1)
    {
      hide Wired, S.StreamTrailer, S.StreamState.Pristine, S.StreamState.Valid;
      var s := list.entries[i].stream;
      StreamFacts(list.Streams(), template, v, i);
      r := S.Longer(found, S.StreamTrailer(s.View(), rtp, mki));
    }

    /** get_protect_trailer_length: the loop leaves the list as it is and sees every stream. */
    method TrailerLength(rtp: bool, mki: nat) returns (r: Result<nat>)
      requires Valid()
      ensures r == S.TrailerLength(View(), rtp, mki)
    {
      hide Wired, S.StreamTrailer, S.StreamState.Pristine, S.StreamState.Valid;
      ghost var v := View();
      ViewFacts(list.Streams(), template, v);
      var found: Option<nat> := None;
      if template != null {
        TemplateFacts(list.Streams(), template, v);
        var t := S.StreamTrailer(template.View(), rtp, mki);
        found := Some(if t.Success? then t.value else 0);
      }
      var i, size := 0, list.size;
      while i < list.size
        invariant i <= list.size == size && found == S.LongestTrailer(v, rtp, mki, i)
        decreases list.size - i
      {
        found := LongerWith(i, found, rtp, mki, v);
        if size == list.size { i := i + 1; }
        size := list.size;
      }
      r := if found.None? then Failure(BadParam) else Success(found.value);
    }
  }

  lemma RemovedFrom(v: S.Session, ssrc: S.ssrc4, i: nat)
    requires v.Valid() && S.FindStream(v.streams, ssrc, 0) == Some(i)
    ensures i < |v.streams| && S.RemoveStream(v, ssrc) == v.(streams := v.streams[..i] + v.streams[i + 1..])
  {
  }

  lemma NotFound(v: S.Session, ssrc: S.ssrc4)
    requires v.Valid()
    ensures S.FindStream(v.streams, ssrc, 0).None? ==> S.RemoveStream(v, ssrc) == v
  {
  }

  lemma ApartFrom(s: StreamContext, t: StreamContext?)
    requires HasKeys(s) && (t != null ==> Independent(s, t))
    ensures Independent(s, t) && Linked(s, t) && (t != null ==> !Shares(s, t))
  {
    if t != null { IndependentIsNotShared(s, t); }
  }

  lemma Taken(a: multiset<Block>, b: multiset<Block>)
    ensures a + b - b == a && b <= a + b
  {
  }

  lemma KeyedStream(s: StreamContext, v: S.StreamState)
    requires v.Pristine() && |s.slots| == v.prot.KeyCount() && forall i | 0 <= i < |s.slots| :: s.slots[i].rtpAuth.Some?
    ensures HasKeys(s) && v.Valid()
  {
  }

  /** What is left once the streams are gone, and how it is taken apart. */
  lemma EmptyBlocks(rest: multiset<Block>, t: StreamContext?, a: Block, b: Block, self: Block)
    ensures var l := rest + AllBlocks([], t, multiset{a, b}, self);
      && TemplateBlocks(t) <= l
      && l - TemplateBlocks(t) == rest + multiset{a, b} + multiset{self}
      && rest + multiset{a, b} + multiset{self} - multiset{a, b} == rest + multiset{self}
      && rest + multiset{self} - multiset{self} == rest
      && (t == null ==> l == rest + multiset{a, b} + multiset{self})
  {
    hide TemplateBlocks;
    Peel(rest, TemplateBlocks(t), multiset{a, b}, multiset{self});
    if t == null { NoTemplate(); }
  }

  lemma Peel(rest: multiset<Block>, t: multiset<Block>, l: multiset<Block>, s: multiset<Block>)
    ensures t <= rest + (multiset{} + t + l + s) && rest + (multiset{} + t + l + s) - t == rest + l + s
    ensures rest + l + s - l == rest + s && rest + s - s == rest
  {
  }

  lemma NoTemplate()
    ensures TemplateBlocks(null) == multiset{}
  {
  }

  lemma StateFacts(x: S.StreamState)
    requires x.Valid()
    ensures x.st.Valid() && x.rtcp.Valid()
  {
  }

  /** The chosen stream is the one of the value-level call, and so is the session. */
  ghost predicate Chosen(spec: Result<(S.Session, nat)>, r: Result<StreamContext>, before: S.Session, after: S.Session,
                         ss: seq<StreamContext>) {
    match spec
    case Failure(e) => r == Failure(e) && after == before
    case Success((v, i)) => r.Success? && after == v && i < |ss| && ss[i] == r.value
  }

  lemma ChosenFound(v: S.Session, ssrc: S.ssrc4, i: nat, ss: seq<StreamContext>)
    requires v.Valid() && S.FindStream(v.streams, ssrc, 0) == Some(i) && |ss| == |v.streams|
    ensures v.streams[i].dir == S.Receiver ==> Chosen(S.ForSending(v, ssrc), Failure(DirectionMismatch), v, v, ss)
    ensures v.streams[i].dir != S.Receiver ==>
      var sender := v.streams[i].(dir := S.Sender);
      Chosen(S.ForSending(v, ssrc), Success(ss[i]), v, v.(streams := v.streams[i := sender]), ss)
  {
  }

  lemma ChosenNone(v: S.Session, ssrc: S.ssrc4, ss: seq<StreamContext>)
    requires v.Valid() && S.FindStream(v.streams, ssrc, 0) == None && |ss| == |v.streams|
    ensures v.template.None? || v.template.value.dir == S.Receiver ==>
      Chosen(S.ForSending(v, ssrc), Failure(NoCtx), v, v, ss)
  {
  }

  lemma ChosenNew(v: S.Session, ssrc: S.ssrc4, ss: seq<StreamContext>, c: StreamContext)
    requires v.Valid() && S.FindStream(v.streams, ssrc, 0) == None && |ss| == |v.streams|
    requires v.template.Some? && v.template.value.dir != S.Receiver
    ensures var x := S.Clone(v.template.value, ssrc);
      Chosen(S.ForSending(v, ssrc), Success(c), v,
             v.(streams := (v.streams + [x])[|ss| := x.(dir := S.Sender)]), ss + [c])
  {
    var x := S.Clone(v.template.value, ssrc);
    assert (v.streams + [x])[|ss| := x.(dir := S.Sender)] == v.streams + [x.(dir := S.Sender)];
  }

  lemma SenderClone(t: S.StreamState, ssrc: S.ssrc4)
    requires t.Valid()
    ensures S.Clone(t, ssrc).st.Valid() && S.Clone(t, ssrc).rtcp.Valid()
  {
  }

  lemma ViewFacts(ss: seq<StreamContext>, t: StreamContext?, v: S.Session)
    requires Fits(ss, t, v)
    ensures v.Valid() && |v.streams| == |ss| && (t != null <==> v.template.Some?)
  {
  }

  lemma DistinctStreams(ss: seq<StreamContext>, t: StreamContext?, i: nat)
    requires Wired(ss, t) && i < |ss|
    ensures ss[i] != t && forall j | 0 <= j < |ss| && j != i :: ss[j] != ss[i]
  {
  }

  lemma StreamFacts(ss: seq<StreamContext>, t: StreamContext?, v: S.Session, i: nat)
    requires Fits(ss, t, v) && i < |ss|
    ensures v.Valid() && |v.streams| == |ss| && v.streams[i].Valid()
    ensures t != null && Shares(ss[i], t) ==> v.streams[i].dir != S.Unknown
  {
  }

  lemma EmptySession(l: multiset<Block>, a: Block, b: Block, c: Block)
    ensures l + multiset{a} + multiset{b} + multiset{c} == l + AllBlocks([], null, multiset{b, c}, a)
    ensures Wired([], null) && Fits([], null, S.Session(None, []))
  {
  }

  lemma TemplateFacts(ss: seq<StreamContext>, t: StreamContext, v: S.Session)
    requires Wired(ss, t) && Fits(ss, t, v)
    ensures HasKeys(t) && v.template.Some? && v.template.value.Valid()
    ensures v.template.value.Pristine() && v.template.value.dir != S.Unknown
  {
  }

  lemma ClonesAreLinked(c: StreamContext, t: StreamContext)
    requires Shares(c, t) && HasKeys(t)
    ensures Linked(c, t) && HasKeys(c)
  {
  }
}
