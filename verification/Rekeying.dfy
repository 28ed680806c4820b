/** Re-keying all streams of the template (update_template_streams in srtp/srtp.c). */
module Rekeying {
  import opened Results
  import opened Streams
  import opened SessionCode
  import S = Sessions

  /** What has become of a stream: a clone of the old template is replaced by a clone of the new
      one, any other stream is kept. */
  ghost predicate Replaced(s: StreamContext, t: StreamContext, c: StreamContext, nt: StreamContext) {
    if Shares(s, t) then Shares(c, nt) && c != s else c == s
  }

  lemma AuthTellsClones(s: StreamContext, t: StreamContext)
    requires HasKeys(s) && HasKeys(t) && Linked(s, t)
    ensures s.slots[0].rtpAuth == t.slots[0].rtpAuth <==> Shares(s, t)
  {
    if Independent(s, t) { IndependentIsNotShared(s, t); }
  }

  /** Takes the first stream out of a list. */
  method TakeFirst(list: StreamList) returns (s: StreamContext)
    requires list.Valid() && list.size > 0
    modifies list`size, list.entries
    ensures list.Valid() && s == old(list.Streams())[0] && list.Streams() == old(list.Streams())[1..]
  {
    s := list.entries[0].stream;
    ghost var ss := list.Streams();
    IndexOfUnique(ss, s.ssrc, 0);
    list.Remove(s);
    assert ss[..0] + ss[1..] == ss[1..];
  }

  /** A clone of the new template, with the packet index and the RTCP database of the stream
      that it replaces, whose own blocks are freed. */
  method Replace(mem: Memory, s: StreamContext, t: StreamContext, nt: StreamContext, ghost rest: multiset<Block>)
    returns (c: StreamContext)
    requires mem.Valid() && mem.live == rest + OwnBlocks(s, t) && s.View().Valid() && nt.View().Valid()
    modifies mem
    ensures mem.Valid() && mem.live == rest + OwnBlocks(c, nt)
    ensures fresh(c) && Shares(c, nt) && c.View() == S.Rekey(s.View(), true, nt.View())
  {
    hide Memory.Valid, OwnBlocks, Shares;
    var index, rtcp := s.st.db.index, s.rtcp;
    Taken(rest, OwnBlocks(s, t));
    Dealloc(mem, s, t);
    c := CloneStream(mem, nt, s.ssrc);
    c.st := c.st.(db := c.st.db.(index := index));
    c.rtcp := rtcp;
  }

  /** What update_template_stream_cb puts in the new list. */
  method RekeyOne(mem: Memory, s: StreamContext, t: StreamContext, nt: StreamContext, ghost rest: multiset<Block>)
    returns (c: StreamContext)
    requires mem.Valid() && mem.live == rest + OwnBlocks(s, t) && s.View().Valid() && nt.View().Valid()
    requires HasKeys(s) && HasKeys(t) && HasKeys(nt) && Linked(s, t) && Independent(s, nt)
    modifies mem
    ensures mem.Valid() && mem.live == rest + OwnBlocks(c, nt)
    ensures Replaced(s, t, c, nt) && (c == s || fresh(c)) && Linked(c, nt) && HasKeys(c)
    ensures c.View() == S.Rekey(s.View(), Shares(s, t), nt.View())
  {
    hide Memory.Valid, OwnBlocks, Independent, Shares, HasKeys, S.Rekey;
    FirstKeys(s, t);
    AuthTellsClones(s, t);
    if s.slots[0].rtpAuth != t.slots[0].rtpAuth {
      IndependentOwn(s, t);
      IndependentOwn(s, nt);
      KeptStream(s.View(), nt.View());
      c := s;
    } else {
      c := Replace(mem, s, t, nt, rest);
      ClonesAreLinked(c, nt);
    }
  }

  lemma KeptStream(x: S.StreamState, t: S.StreamState)
    requires x.Valid() && t.Valid()
    ensures S.Rekey(x, false, t) == x
  {
  }

  lemma FirstKeys(s: StreamContext, t: StreamContext)
    requires HasKeys(s) && HasKeys(t)
    ensures |s.slots| > 0 && |t.slots| > 0
  {
  }

  // --- All streams --------------------------------------------------------------------------

  /** The new list so far, stream by stream in the old order, with the states of the streams. */
  ghost predicate Rekeyed(ss: seq<StreamContext>, views: seq<S.StreamState>, t: StreamContext,
                          ns: seq<StreamContext>, newViews: seq<S.StreamState>, nt: StreamContext, v: S.StreamState) {
    && |newViews| == |ns| <= |ss| == |views| && v.Valid() && Apart(ss, ns, nt)
    && forall i | 0 <= i < |ns| ::
      && views[i].Valid() && Replaced(ss[i], t, ns[i], nt) && Linked(ns[i], nt) && HasKeys(ns[i])
      && newViews[i] == S.Rekey(views[i], Shares(ss[i], t), v)
  }

  ghost predicate RekeyedSoFar(ss: seq<StreamContext>, views: seq<S.StreamState>, t: StreamContext,
                               ns: seq<StreamContext>, nt: StreamContext, v: S.StreamState)
    reads ns
  {
    Rekeyed(ss, views, t, ns, ViewOf(ns), nt, v)
  }

  /** The new streams are different objects, and each is its old stream or none of the old ones. */
  ghost predicate Apart(ss: seq<StreamContext>, ns: seq<StreamContext>, nt: StreamContext) {
    && |ns| <= |ss|
    && (forall i | 0 <= i < |ns| :: ns[i] != nt && (ns[i] == ss[i] || ns[i] !in ss))
    && (forall i, j | 0 <= i < j < |ns| :: ns[i] != ns[j])
  }

  ghost function Others(ss: seq<StreamContext>, ns: seq<StreamContext>, nt: StreamContext): (r: set<StreamContext>) {
    (set x | x in ns) + {nt} + if |ns| < |ss| then set x | x in ss && x != ss[|ns|] else {}
  }

  lemma NotAmongOthers(ss: seq<StreamContext>, ns: seq<StreamContext>, nt: StreamContext)
    requires Apart(ss, ns, nt) && |ns| < |ss| && nt !in ss && forall i, j | 0 <= i < j < |ss| :: ss[i] != ss[j]
    ensures ss[|ns|] !in Others(ss, ns, nt)
  {
  }

  lemma ApartNext(ss: seq<StreamContext>, ns: seq<StreamContext>, nt: StreamContext, c: StreamContext)
    requires Apart(ss, ns, nt) && |ns| < |ss| && c !in Others(ss, ns, nt)
    ensures Apart(ss, ns + [c], nt)
  {
  }

  /** The streams before re-keying. */
  ghost predicate ToRekey(ss: seq<StreamContext>, t: StreamContext, nt: StreamContext)
    reads ss
  {
    && HasKeys(t) && HasKeys(nt) && nt !in ss
    && (forall i | 0 <= i < |ss| :: HasKeys(ss[i]) && Linked(ss[i], t) && Independent(ss[i], nt))
    && (forall i | 0 <= i < |ss| :: ss[i].View().Valid())
    && (forall i, j | 0 <= i < j < |ss| :: ss[i] != ss[j])
  }

  /** The blocks of both lists; the new list's entry is made between the two states. */
  lemma RekeyBlocks(rest: multiset<Block>, ss: seq<StreamContext>, t: StreamContext, ns: seq<StreamContext>,
                    nt: StreamContext,
                    l: multiset<Block>, c: StreamContext)
    requires ss != []
    ensures var others := rest + ListBlocks(ss[1..], t) + ListBlocks(ns, nt);
      && rest + ListBlocks(ss, t) + ListBlocks(ns, nt) + l == (others + l) + OwnBlocks(ss[0], t)
      && (others + l) + OwnBlocks(c, nt) == (others + OwnBlocks(c, nt)) + l
      && (others + OwnBlocks(c, nt)) + l == rest + ListBlocks(ss[1..], t) + ListBlocks(ns + [c], nt) + l
  {
    hide ListBlocks, OwnBlocks;
    assert ss == [ss[0]] + ss[1..];
    ListBlocksConcat([ss[0]], ss[1..], t);
    ListBlocksOne(ss[0], t);
    ListBlocksConcat(ns, [c], nt);
    ListBlocksOne(c, nt);
  }

  /** One turn of the loop: the first stream of the old list goes to the end of the new one. */
  method RekeyStep(mem: Memory, list: StreamList, t: StreamContext, newList: StreamList, nt: StreamContext,
                   ghost ss: seq<StreamContext>, ghost ns: seq<StreamContext>, ghost others: set<StreamContext>,
                   ghost rest: multiset<Block>)
    returns (c: StreamContext)
    requires mem.Valid() && list.Valid() && newList.Valid() && list != newList && list.entries != newList.entries
    requires ss != [] && list.Streams() == ss && newList.Streams() == ns
    requires HasKeys(ss[0]) && HasKeys(t) && HasKeys(nt) && Linked(ss[0], t) && Independent(ss[0], nt)
    requires ss[0].View().Valid() && nt.View().Valid() && ss[0] !in others
    requires mem.live == rest + ListBlocks(ss, t) + ListBlocks(ns, nt) + newList.Blocks()
    modifies list`size, list.entries, newList, newList.entries, mem
    ensures mem.Valid() && list.Valid() && newList.Valid()
    ensures newList.entries == old(newList.entries) || fresh(newList.entries)
    ensures list.Streams() == ss[1..] && newList.Streams() == ns + [c]
    ensures mem.live == rest + ListBlocks(ss[1..], t) + ListBlocks(ns + [c], nt) + newList.Blocks()
    ensures Replaced(ss[0], t, c, nt) && c !in others && Linked(c, nt) && HasKeys(c)
    ensures c.View() == S.Rekey(ss[0].View(), Shares(ss[0], t), nt.View())
  {
    hide Memory.Valid, ListBlocks, OwnBlocks, Independent, Shares, HasKeys, Linked, Replaced, S.Rekey,
         S.StreamState.Valid;
    RekeyBlocks(rest, ss, t, ns, nt, newList.Blocks(), ss[0]);
    var s := TakeFirst(list);
    c := RekeyOne(mem, s, t, nt, rest + ListBlocks(ss[1..], t) + ListBlocks(ns, nt) + newList.Blocks());
    RekeyBlocks(rest, ss, t, ns, nt, newList.Blocks(), c);
    newList.Insert(mem, c, rest + ListBlocks(ss[1..], t) + ListBlocks(ns, nt) + OwnBlocks(c, nt));
    RekeyBlocks(rest, ss, t, ns, nt, newList.Blocks(), c);
  }

  lemma RekeyedNext(ss: seq<StreamContext>, views: seq<S.StreamState>, t: StreamContext, ns: seq<StreamContext>,
                    nt: StreamContext,
                    v: S.StreamState, c: StreamContext)
    requires RekeyedSoFar(ss, views, t, ns, nt, v) && |ns| < |ss| && views[|ns|].Valid() && c !in Others(ss, ns, nt)
    requires Replaced(ss[|ns|], t, c, nt) && Linked(c, nt) && HasKeys(c)
    requires c.View() == S.Rekey(views[|ns|], Shares(ss[|ns|], t), v)
    ensures RekeyedSoFar(ss, views, t, ns + [c], nt, v)
  {
    hide Replaced, Linked, HasKeys, Shares, S.Rekey, S.StreamState.Valid, Apart, Others;
    ApartNext(ss, ns, nt, c);
  }

  lemma NextToRekey(ss: seq<StreamContext>, views: seq<S.StreamState>, t: StreamContext, ns: seq<StreamContext>,
                    nt: StreamContext,
                    v: S.StreamState)
    requires RekeyedSoFar(ss, views, t, ns, nt, v) && |ns| < |ss| && ToRekey(ss, t, nt)
    ensures var s := ss[|ns|];
      && HasKeys(s) && HasKeys(t) && HasKeys(nt) && Linked(s, t) && Independent(s, nt) && s.View().Valid()
      && s !in Others(ss, ns, nt)
  {
    hide HasKeys, Linked, Independent, Shares, Others, Apart, Replaced, S.Rekey, S.StreamState.Valid;
    NotAmongOthers(ss, ns, nt);
  }

  /** One turn of the loop, with what is known about all streams. */
  method RekeyTurn(mem: Memory, list: StreamList, t: StreamContext, newList: StreamList, nt: StreamContext,
                   ghost ss: seq<StreamContext>, ghost was: seq<S.StreamState>, ghost ns: seq<StreamContext>,
                   ghost v: S.StreamState, ghost rest: multiset<Block>)
    returns (c: StreamContext)
    requires mem.Valid() && list.Valid() && newList.Valid() && list != newList && list.entries != newList.entries
    requires |ns| < |ss| && list.Streams() == ss[|ns|..] && newList.Streams() == ns
    requires was == ViewOf(ss) && v == nt.View()
    requires ToRekey(ss, t, nt) && v.Valid() && RekeyedSoFar(ss, was, t, ns, nt, v)
    requires mem.live == rest + ListBlocks(ss[|ns|..], t) + ListBlocks(ns, nt) + newList.Blocks()
    modifies list`size, list.entries, newList, newList.entries, mem
    ensures mem.Valid() && list.Valid() && newList.Valid()
    ensures newList.entries == old(newList.entries) || fresh(newList.entries)
    ensures list.Streams() == ss[|ns| + 1..] && newList.Streams() == ns + [c]
    ensures mem.live == rest + ListBlocks(ss[|ns| + 1..], t) + ListBlocks(ns + [c], nt) + newList.Blocks()
    ensures was == ViewOf(ss) && v == nt.View() && RekeyedSoFar(ss, was, t, ns + [c], nt, v)
  {
    hide Memory.Valid, ListBlocks, OwnBlocks, Independent, Shares, HasKeys, Linked, Replaced, S.Rekey, RekeyedSoFar,
         S.StreamState.Valid,
         Others, Apart, ToRekey;
    ghost var k := |ns|;
    assert ss[k..][0] == ss[k] && ss[k..][1..] == ss[k + 1..];
    NextToRekey(ss, was, t, ns, nt, v);
    c := RekeyStep(mem, list, t, newList, nt, ss[k..], ns, Others(ss, ns, nt), rest);
    RekeyedNext(ss, was, t, ns, nt, v, c);
  }

  /** srtp_stream_list_for_each with update_template_stream_cb: every callback takes its stream out
      of the list, so the loop never leaves the first entry and sees each stream once. */
  method RekeyAll(mem: Memory, list: StreamList, t: StreamContext, newList: StreamList, nt: StreamContext,
                  ghost ss: seq<StreamContext>, ghost rest: multiset<Block>)
    returns (ghost ns: seq<StreamContext>)
    requires mem.Valid() && list.Valid() && newList.Valid() && list != newList && list.entries != newList.entries
    requires list.Streams() == ss && newList.Streams() == [] && ToRekey(ss, t, nt) && nt.View().Valid()
    requires mem.live == rest + ListBlocks(ss, t) + newList.Blocks()
    modifies list`size, list.entries, newList, newList.entries, mem
    ensures mem.Valid() && list.Valid() && newList.Valid()
    ensures list.Streams() == [] && newList.Streams() == ns && |ns| == |ss|
    ensures newList.entries == old(newList.entries) || fresh(newList.entries)
    ensures mem.live == rest + ListBlocks(ns, nt) + newList.Blocks()
    ensures RekeyedSoFar(ss, ViewOf(ss), t, ns, nt, nt.View())
  {
    hide Memory.Valid, ListBlocks, OwnBlocks, RekeyedSoFar, S.StreamState.Valid, ToRekey, ViewOf,
         StreamContext.View, StreamList.Blocks, StreamList.Valid, StreamList.Streams;
    ns := [];
    ghost var was, v := ViewOf(ss), nt.View();
    NothingRekeyed(rest, ss, was, t, nt, v, newList.Blocks());
    var i, size := 0, list.size;
    while i < list.size
      invariant i == 0 && size == list.size && |ns| <= |ss|
      invariant mem.Valid() && list.Valid() && newList.Valid() && list.entries == old(list.entries)
      invariant newList.entries == old(newList.entries) || fresh(newList.entries)
      invariant list.Streams() == ss[|ns|..] && newList.Streams() == ns
      invariant mem.live == rest + ListBlocks(ss[|ns|..], t) + ListBlocks(ns, nt) + newList.Blocks()
      invariant was == ViewOf(ss) && v == nt.View() && RekeyedSoFar(ss, was, t, ns, nt, v)
      decreases list.size
    {
      var c := RekeyTurn(mem, list, t, newList, nt, ss, was, ns, v, rest);
      ns := ns + [c];
      if size == list.size { i := i + 1; }
      size := list.size;
    }
    NothingLeft(rest, t, ns, nt, newList.Blocks());
  }

  lemma NothingRekeyed(rest: multiset<Block>, ss: seq<StreamContext>, views: seq<S.StreamState>, t: StreamContext,
                       nt: StreamContext,
                       ntView: S.StreamState, l: multiset<Block>)
    requires |ss| == |views| && ntView.Valid()
    ensures RekeyedSoFar(ss, views, t, [], nt, ntView)
    ensures rest + ListBlocks(ss, t) + l == rest + ListBlocks(ss[0..], t) + ListBlocks([], nt) + l
  {
    assert ss[0..] == ss;
  }

  lemma NothingLeft(rest: multiset<Block>, t: StreamContext, ns: seq<StreamContext>, nt: StreamContext,
                    l: multiset<Block>)
    ensures rest + ListBlocks([], t) + ListBlocks(ns, nt) + l == rest + ListBlocks(ns, nt) + l
  {
  }

  // --- The session --------------------------------------------------------------------------

  /** Everything before the loop: the new template and the new list are there as well. */
  lemma BlocksBefore(rest: multiset<Block>, ss: seq<StreamContext>, t: StreamContext, nt: StreamContext,
                     l: multiset<Block>,
                     self: Block, k: multiset<Block>)
    ensures rest + AllBlocks(ss, t, l, self) + OwnBlocks(nt, null) + k
      == Meanwhile(rest, t, nt, l, self) + ListBlocks(ss, t) + k
  {
    hide ListBlocks, OwnBlocks;
  }

  /** Everything after it, without the old list and the old template. */
  lemma BlocksAfter(rest: multiset<Block>, ns: seq<StreamContext>, t: StreamContext, nt: StreamContext,
                    l: multiset<Block>,
                    self: Block, k: multiset<Block>)
    ensures var full := Meanwhile(rest, t, nt, l, self) + ListBlocks(ns, nt) + k;
      && l <= full && OwnBlocks(t, null) <= full - l
      && full - l - OwnBlocks(t, null) == rest + AllBlocks(ns, nt, k, self)
  {
    hide ListBlocks, OwnBlocks;
    TakeApart(rest, OwnBlocks(t, null), l, multiset{self}, OwnBlocks(nt, null), ListBlocks(ns, nt), k);
  }

  lemma TakeApart(r: multiset<Block>, t: multiset<Block>, l: multiset<Block>, s: multiset<Block>, n: multiset<Block>,
                  x: multiset<Block>, k: multiset<Block>)
    ensures var full := r + t + l + s + n + x + k;
      l <= full && t <= full - l && full - l - t == r + (x + n + k + s)
  {
  }

  /** The streams of a valid session can be re-keyed to a template that is new. */
  lemma ReadyToRekey(ss: seq<StreamContext>, t: StreamContext, v: S.Session, nt: StreamContext)
    requires Wired(ss, t) && Fits(ss, t, v) && v.streams == ViewOf(ss)
    requires HasKeys(nt) && nt !in ss && AllIndependent(ss, nt)
    ensures ToRekey(ss, t, nt)
  {
    hide HasKeys, Linked, Independent, Shares;
  }

  lemma RekeyedSession(ss: seq<StreamContext>, t: StreamContext, was: S.Session, ns: seq<StreamContext>,
                       newViews: seq<S.StreamState>,
                       nt: StreamContext, v: S.StreamState)
    requires Wired(ss, t) && Fits(ss, t, was) && ToRekey(ss, t, nt)
    requires |ns| == |ss| && Rekeyed(ss, was.streams, t, ns, newViews, nt, v)
    requires v.Pristine() && v.dir == was.template.value.dir
    ensures Wired(ns, nt) && Fits(ns, nt, S.Session(Some(v), newViews)) && RekeyedTo(ss, was, t, ns, newViews, nt, v)
  {
    hide HasKeys, Linked, Independent, Shares, S.Clone;
    forall i | 0 <= i < |ns|
      ensures newViews[i].Valid() && newViews[i].dir == was.streams[i].dir
      ensures (Shares(ns[i], nt) ==> newViews[i].dir == v.dir)
    {
      if !Shares(ss[i], t) { IndependentIsNotShared(ss[i], nt); }
    }
  }

  /** The old, empty list and the old template are freed. */
  method FreeOld(session: SessionContext, ghost newList: StreamList, ghost ns: seq<StreamContext>,
                 ghost nt: StreamContext,
                 ghost rest: multiset<Block>)
    requires session.template != null && session.mem.Valid() && newList.Valid() && newList.Streams() == ns
    requires session.mem.live == Meanwhile(rest, session.template, nt, session.list.Blocks(), session.self)
                                 + ListBlocks(ns, nt) + newList.Blocks()
    modifies session.mem
    ensures session.mem.Valid() && session.mem.live == rest + AllBlocks(ns, nt, newList.Blocks(), session.self)
    ensures newList.Valid() && newList.Streams() == ns && ViewOf(ns) == old(ViewOf(ns)) && nt.View() == old(nt.View())
  {
    hide Memory.Valid, ListBlocks, OwnBlocks, AllBlocks, Meanwhile;
    BlocksAfter(rest, ns, session.template, nt, session.list.Blocks(), session.self, newList.Blocks());
    FreeTwo(session.mem, session.list.self, session.list.buffer);
    Dealloc(session.mem, session.template, null);
  }

  /** The new list and template take the place of the old ones. */
  method Install(session: SessionContext, newList: StreamList, nt: StreamContext)
    requires newList.Valid() && Wired(newList.Streams(), nt)
    requires Fits(newList.Streams(), nt, S.Session(Some(nt.View()), ViewOf(newList.Streams())))
    modifies session
    ensures session.template == nt && session.list == newList && session.Valid()
    ensures session.View() == S.Session(Some(nt.View()), old(ViewOf(newList.Streams())))
    ensures session.list.Streams() == old(newList.Streams()) && session.list.Blocks() == old(newList.Blocks())
  {
    hide Wired, Fits;
    session.template, session.list := nt, newList;
  }

  /** What is live while both lists exist, apart from the streams and the new list. */
  ghost function Meanwhile(rest: multiset<Block>, t: StreamContext, nt: StreamContext, l: multiset<Block>,
                           self: Block): (r: multiset<Block>) {
    rest + OwnBlocks(t, null) + l + multiset{self} + OwnBlocks(nt, null)
  }

  method NewList(mem: Memory) returns (l: StreamList)
    requires mem.Valid()
    modifies mem
    ensures mem.Valid() && mem.live == old(mem.live) + l.Blocks()
    ensures fresh(l) && fresh(l.entries) && l.Valid() && l.Streams() == []
  {
    hide Memory.Valid;
    var a := mem.Alloc();
    var b := mem.Alloc();
    l := new StreamList(a, b);
  }

  /** The new template and an empty list. */
  method Prepare(session: SessionContext, v: S.StreamState, ghost rest: multiset<Block>) returns (newList: StreamList,
                 nt: StreamContext)
    requires session.Valid() && session.mem.Valid()
    requires session.mem.live == rest + session.Blocks() && session.template != null
    requires v.Pristine()
    modifies session.mem
    ensures session.Valid() && session.View() == old(session.View())
    ensures session.list.Streams() == old(session.list.Streams())
    ensures session.mem.Valid() && fresh(newList) && fresh(newList.entries)
    ensures newList.Valid() && newList.Streams() == []
    ensures fresh(nt) && nt.View() == v && ToRekey(session.list.Streams(), session.template, nt)
    ensures session.mem.live == Meanwhile(rest, session.template, nt, session.list.Blocks(), session.self)
                                + ListBlocks(session.list.Streams(), session.template) + newList.Blocks()
  {
    hide Memory.Valid, ListBlocks, OwnBlocks, AllBlocks, Meanwhile, Wired, Fits, AllIndependent, HasKeys,
         S.Session.Valid,
         S.StreamState.Pristine, S.StreamState.Valid, ToRekey;
    ghost var ss, t := session.list.Streams(), session.template;
    nt := NewStream(session.mem, v, ss);
    newList := NewList(session.mem);
    BlocksBefore(rest, ss, t, nt, session.list.Blocks(), session.self, newList.Blocks());
    ReadyToRekey(ss, t, session.View(), nt);
  }

  /** What re-keying leaves: the streams in their order, each kept or replaced, with the same
      direction. */
  ghost predicate RekeyedTo(ss: seq<StreamContext>, was: S.Session, t: StreamContext,
                            ns: seq<StreamContext>, newViews: seq<S.StreamState>, nt: StreamContext, v: S.StreamState) {
    && |ns| == |ss| && Rekeyed(ss, was.streams, t, ns, newViews, nt, v)
    && forall i | 0 <= i < |ns| :: newViews[i].dir == was.streams[i].dir
  }

  /** Fills the new list. */
  method Rebuild(session: SessionContext, newList: StreamList, nt: StreamContext, ghost v: S.StreamState,
                 ghost rest: multiset<Block>)
    returns (ghost ns: seq<StreamContext>)
    requires session.Valid() && session.mem.Valid() && session.template != null
    requires v.Pristine() && v.dir == session.template.dir
    requires newList.Valid() && newList.Streams() == []
    requires newList != session.list && newList.entries != session.list.entries
    requires nt.View() == v && ToRekey(session.list.Streams(), session.template, nt)
    requires session.mem.live == rest + ListBlocks(session.list.Streams(), session.template) + newList.Blocks()
    modifies session.list`size, session.list.entries, newList, newList.entries, session.mem
    ensures session.list.Valid() && newList.Valid() && session.mem.Valid() && newList.Streams() == ns
    ensures session.mem.live == rest + ListBlocks(ns, nt) + newList.Blocks()
    ensures Wired(ns, nt) && Fits(ns, nt, S.Session(Some(v), ViewOf(ns)))
    ensures RekeyedTo(old(session.list.Streams()), old(session.View()), session.template, ns, ViewOf(ns), nt, v)
  {
    hide Memory.Valid, ListBlocks, OwnBlocks, AllBlocks, Wired, Fits, Rekeyed, AllIndependent, HasKeys, S.Session.Valid,
         S.StreamState.Pristine, S.StreamState.Valid, ToRekey;
    ghost var ss, was := session.list.Streams(), session.View();
    TemplateFacts(ss, session.template, was);
    PristineIsValid(v);
    ns := RekeyAll(session.mem, session.list, session.template, newList, nt, ss, rest);
    RekeyedSession(ss, session.template, was, ns, ViewOf(ns), nt, v);
  }

  lemma PristineIsValid(x: S.StreamState)
    requires x.Pristine()
    ensures x.Valid()
  {
  }

  /** The new template and the new list, filled. */
  method BuildNew(session: SessionContext, v: S.StreamState, ghost rest: multiset<Block>)
    returns (newList: StreamList, nt: StreamContext, ghost ns: seq<StreamContext>)
    requires session.Valid() && session.mem.Valid()
    requires session.mem.live == rest + session.Blocks() && session.template != null
    requires v.Pristine() && v.dir == session.template.dir
    modifies session.list`size, session.list.entries, session.mem
    ensures fresh(newList) && newList.Valid() && session.mem.Valid() && newList.Streams() == ns && nt.View() == v
    ensures Wired(ns, nt) && Fits(ns, nt, S.Session(Some(v), ViewOf(ns)))
    ensures session.mem.live == Meanwhile(rest, session.template, nt, session.list.Blocks(), session.self)
                                + ListBlocks(ns, nt) + newList.Blocks()
    ensures RekeyedTo(old(session.list.Streams()), old(session.View()), session.template, ns, ViewOf(ns), nt, v)
  {
    hide Memory.Valid, ListBlocks, AllBlocks, OwnBlocks, Wired, Fits, RekeyedTo, S.Session.Valid,
         S.StreamState.Pristine, S.StreamState.Valid, ToRekey, Meanwhile, SessionContext.View, ViewOf;
    newList, nt := Prepare(session, v, rest);
    ns := Rebuild(session, newList, nt, v, Meanwhile(rest, session.template, nt, session.list.Blocks(), session.self));
  }

  /** The new list and template take the place of the old ones, which are freed. */
  method Swap(session: SessionContext, newList: StreamList, nt: StreamContext, ghost ns: seq<StreamContext>,
              ghost rest: multiset<Block>)
    requires session.template != null && session.mem.Valid() && newList.Valid() && newList.Streams() == ns
    requires Wired(ns, nt) && Fits(ns, nt, S.Session(Some(nt.View()), ViewOf(ns)))
    requires session.mem.live == Meanwhile(rest, session.template, nt, session.list.Blocks(), session.self)
                                 + ListBlocks(ns, nt) + newList.Blocks()
    modifies session, session.mem
    ensures session.Valid() && session.mem.Valid() && session.mem.live == rest + session.Blocks()
    ensures session.template == nt && session.template.View() == old(nt.View())
    ensures session.list.Streams() == ns && session.View().streams == old(ViewOf(ns))
  {
    hide Memory.Valid, ListBlocks, AllBlocks, OwnBlocks, Wired, Fits, Meanwhile, ViewOf;
    FreeOld(session, newList, ns, nt, rest);
    Install(session, newList, nt);
  }

  /** update_template_streams behind the checks. */
  method RekeySession(session: SessionContext, v: S.StreamState, ghost rest: multiset<Block>)
    requires session.Valid() && session.mem.Valid()
    requires session.mem.live == rest + session.Blocks() && session.template != null
    requires v.Pristine() && v.dir == session.template.dir
    modifies session, session.list`size, session.list.entries, session.mem
    ensures session.Valid() && session.mem.Valid() && session.mem.live == rest + session.Blocks()
    ensures session.template != null && session.template.View() == v
    ensures RekeyedTo(old(session.list.Streams()), old(session.View()), old(session.template),
                      session.list.Streams(), session.View().streams, session.template, v)
  {
    hide Memory.Valid, ListBlocks, AllBlocks, OwnBlocks, Wired, Fits, RekeyedTo, S.Session.Valid,
         S.StreamState.Pristine, S.StreamState.Valid, Meanwhile, SessionContext.View, ViewOf, SessionContext.Blocks;
    var newList, nt;
    ghost var ns;
    newList, nt, ns := BuildNew(session, v, rest);
    Swap(session, newList, nt, ns, rest);
  }

  /** is_update_policy_compatable and is_update_template_direction_compatible */
  predicate Compatible(t: StreamContext, v: S.StreamState)
    reads t
  {
    t.prot.cfg.mkiSize == v.prot.cfg.mkiSize && t.dir == v.dir
  }

  /** update_template_streams: every stream keeps its place, its SSRC, its direction, its packet
      index and its RTCP database; clones of the old template get the keys of the new one, all
      other streams are left alone; nothing is leaked or freed twice. */
  method UpdateTemplate(session: SessionContext, v: S.StreamState, ghost rest: multiset<Block>) returns (r: Result<()>)
    requires session.Valid() && session.mem.Valid() && session.mem.live == rest + session.Blocks() && v.Pristine()
    modifies session, session.list`size, session.list.entries, session.mem
    ensures session.Valid() && session.mem.Valid() && session.mem.live == rest + session.Blocks()
    ensures r == if old(session.template != null && Compatible(session.template, v)) then Success(())
                 else Failure(BadParam)
    ensures r.Failure? ==> session.View() == old(session.View())
    ensures r.Success? ==>
      && session.template != null && session.template.View() == v
      && RekeyedTo(old(session.list.Streams()), old(session.View()), old(session.template),
                   session.list.Streams(), session.View().streams, session.template, v)
  {
    hide Memory.Valid, AllBlocks, Wired, Fits, RekeyedTo, S.StreamState.Pristine;
    if session.template == null || !Compatible(session.template, v) { return Failure(BadParam); }
    RekeySession(session, v, rest);
    r := Success(());
  }
}
