/** Streams that share session keys, with their cipher contexts and packet buffers: which blocks
    go through the block functions over a whole run of calls. */
module KeystreamRuns {
  import opened Results
  import opened Octets
  import opened Replay
  import opened Keystreams
  import opened Ciphers
  import opened RtpPackets
  import opened SrtpBodies
  import opened SrtpPackets
  import opened CounterBlocks
  import opened StreamIndexes
  import opened Sessions
  import opened SessionRuns
  import opened SessionLaws
  import C = SrtpCode
  import HX = HeaderExtensions
  import PI = PacketIndex

  // --- Blocks -------------------------------------------------------------------------------

  /** The counter blocks of packets with different SSRC or index never meet. */
  lemma BlocksNeverMeet(k: CipherKey, u: Use, v: Use, i: nat, j: nat)
    requires k.IcmKey? && u.est < INDEX_MAX && v.est < INDEX_MAX && (u.ssrc, u.est) != (v.ssrc, v.est)
    ensures CounterBlock(Base(k, CmIv(u.ssrc, u.est)), i) != CounterBlock(Base(k, CmIv(v.ssrc, v.est)), j)
  {
    hide XorSeq, BigEndian, Low;
    var a, b := CmIv(u.ssrc, u.est), CmIv(v.ssrc, v.est);
    if CounterBlock(Base(k, a), i) == CounterBlock(Base(k, b), j) {
      assert Base(k, a)[..14] == Base(k, b)[..14];
      SameIvPrefix(k.offset, a, b);
      assert a[4..8] == a[..14][4..8] == u.ssrc && b[4..8] == b[..14][4..8] == v.ssrc;
      assert a[8..14] == a[..14][8..14] == BigEndian(u.est, 6) && b[8..14] == b[..14][8..14] == BigEndian(v.est, 6);
      Pow256Values();
      BigEndianInjective(u.est, v.est, 6);
      assert false;
    }
  }

  lemma SameIvPrefix(o: block, a: block, b: block)
    requires XorSeq(o, a)[..14] == XorSeq(o, b)[..14]
    ensures a[..14] == b[..14]
  {
    forall i | 0 <= i < 14
      ensures a[i] == b[i]
    {
      assert XorSeq(o, a)[..14][i] == XorSeq(o, b)[..14][i];
      XorCommutes(o[i], a[i]);
      XorCommutes(o[i], b[i]);
      XorInvolutive(a[i], o[i]);
      XorInvolutive(b[i], o[i]);
    }
  }

  /** Within a packet the block counter does not come round. */
  lemma BlocksOfPacketDiffer(k: CipherKey, iv: block, i: nat, j: nat, n: nat)
    requires k.IcmKey? && Reaches(k, iv, n) && i < j < Blocks(n)
    ensures CounterBlock(Base(k, iv), i) != CounterBlock(Base(k, iv), j)
  {
    hide Low, Base;
    LowOfCounterBlock(Base(k, iv), i);
    LowOfCounterBlock(Base(k, iv), j);
  }

  lemma BlocksOfUse(k: CipherKey, iv: block, n: nat)
    ensures var r := BlocksUsed(k, iv, 0, n);
      && (k.NullKey? ==> r == [])
      && (k.IcmKey? ==> |r| == Blocks(n) && forall i | 0 <= i < |r| :: r[i] == CounterBlock(Base(k, iv), i))
  {
    hide CounterBlock, Base;
  }

  // --- The logs of the ciphers ----------------------------------------------------------------

  /** The block belongs to the keystream of one of these packets. */
  ghost predicate FromUse(k: CipherKey, seen: set<Use>, b: block) {
    exists u, i: nat :: u in seen && b == CounterBlock(Base(k, CmIv(u.ssrc, u.est)), i)
  }

  /** All blocks of the log belong to these packets. */
  ghost predicate Logged(k: CipherKey, log: seq<block>, seen: set<Use>) {
    forall a | 0 <= a < |log| :: FromUse(k, seen, log[a])
  }

  ghost predicate Once(log: seq<block>) {
    forall a, b | 0 <= a < b < |log| :: log[a] != log[b]
  }

  /** No packet of the set has the SSRC and 48-bit index of this one. */
  ghost predicate IsNew(seen: set<Use>, u: Use) {
    u.est < INDEX_MAX && forall v | v in seen :: v.est < INDEX_MAX && (v.ssrc, v.est) != (u.ssrc, u.est)
  }

  /** The blocks of a new packet are new, and no two of them are equal. */
  lemma LogGrows(k: CipherKey, log: seq<block>, seen: set<Use>, u: Use, n: nat)
    requires Logged(k, log, seen) && Reaches(k, CmIv(u.ssrc, u.est), n)
    ensures var more := log + BlocksUsed(k, CmIv(u.ssrc, u.est), 0, n);
      && Logged(k, more, seen + {u})
      && (Once(log) && IsNew(seen, u) ==> Once(more))
  {
    hide CounterBlock, Base, CmIv, BlocksUsed, Reaches, IsNew;
    var iv := CmIv(u.ssrc, u.est);
    var blocks := BlocksUsed(k, iv, 0, n);
    var more := log + blocks;
    BlocksOfUse(k, iv, n);
    forall a | 0 <= a < |more|
      ensures FromUse(k, seen + {u}, more[a])
    {
      if a < |log| {
        MoreUses(k, seen, u, log[a]);
      } else {
        assert u in seen + {u} && more[a] == CounterBlock(Base(k, iv), a - |log|);
      }
    }
    if Once(log) && IsNew(seen, u) {
      forall a, b | 0 <= a < b < |more|
        ensures more[a] != more[b]
      {
        if |log| <= a {
          BlocksOfPacketDiffer(k, iv, a - |log|, b - |log|, n);
        } else if |log| <= b {
          OldAndNew(k, seen, u, log[a], b - |log|);
        }
      }
    }
  }

  lemma MoreUses(k: CipherKey, seen: set<Use>, u: Use, b: block)
    requires FromUse(k, seen, b)
    ensures FromUse(k, seen + {u}, b)
  {
    hide CounterBlock, Base, CmIv;
    var v, i: nat :| v in seen && b == CounterBlock(Base(k, CmIv(v.ssrc, v.est)), i);
    assert v in seen + {u};
  }

  lemma OldAndNew(k: CipherKey, seen: set<Use>, u: Use, b: block, i: nat)
    requires k.IcmKey? && FromUse(k, seen, b) && IsNew(seen, u)
    ensures b != CounterBlock(Base(k, CmIv(u.ssrc, u.est)), i)
  {
    hide CounterBlock, Base, CmIv;
    var v, j: nat :| v in seen && b == CounterBlock(Base(k, CmIv(v.ssrc, v.est)), j);
    BlocksNeverMeet(k, v, u, j, i);
  }

  lemma StillLogged(k: CipherKey, log: seq<block>, seen: set<Use>, u: Use)
    requires Logged(k, log, seen)
    ensures Logged(k, log, seen + {u})
  {
    hide FromUse;
    forall a | 0 <= a < |log|
      ensures FromUse(k, seen + {u}, log[a])
    {
      MoreUses(k, seen, u, log[a]);
    }
  }

  // --- Streams and logs together ------------------------------------------------------------

  /** Every stream's replay window is in step with the indices used on its SSRC. */
  ghost predicate Tracked(ssrcs: seq<ssrc4>, views: seq<PI.IndexState>, seen: set<Use>) {
    && |ssrcs| == |views|
    && (forall i, j | 0 <= i < j < |ssrcs| :: ssrcs[i] != ssrcs[j])
    && (forall i | 0 <= i < |views| :: PI.Tracks(views[i].db, IndicesOf(seen, ssrcs[i])))
    && (forall u | u in seen :: u.ssrc in ssrcs && u.est == u.index % INDEX_MAX)
  }

  ghost predicate Below(views: seq<PI.IndexState>) {
    forall i | 0 <= i < |views| :: views[i].db.index < INDEX_MAX
  }

  /** The logs of the two ciphers of a key hold blocks of these packets only. */
  ghost predicate BothLogged(key: Key, logs: C.Logs, seen: set<Use>) {
    && Logged(key.cipher, logs.packet, seen)
    && (if key.xtn.Some? then Logged(key.xtn.value, logs.xtn, seen) else logs.xtn == [])
  }

  /** Neither cipher has encrypted a block twice. */
  ghost predicate BothOnce(logs: C.Logs) {
    Once(logs.packet) && Once(logs.xtn)
  }

  lemma BothGrow(key: Key, logs: C.Logs, seen: set<Use>, u: Use, n: Spent)
    requires BothLogged(key, logs, seen) && C.Within(key, CmIv(u.ssrc, u.est), n)
    ensures var more := logs.Plus(C.SpentBlocks(key, CmIv(u.ssrc, u.est), n));
      BothLogged(key, more, seen + {u}) && (BothOnce(logs) && IsNew(seen, u) ==> BothOnce(more))
  {
    hide Logged, Once, IsNew, CmIv, BlocksUsed, Reaches;
    LogGrows(key.cipher, logs.packet, seen, u, n.packet);
    if key.xtn.Some? { LogGrows(key.xtn.value, logs.xtn, seen, u, n.xtn); }
  }

  lemma BothStillLogged(key: Key, logs: C.Logs, seen: set<Use>, u: Use)
    requires BothLogged(key, logs, seen)
    ensures BothLogged(key, logs, seen + {u})
  {
    hide Logged;
    StillLogged(key.cipher, logs.packet, seen, u);
    if key.xtn.Some? { StillLogged(key.xtn.value, logs.xtn, seen, u); }
  }

  /** The logs hold blocks of these packets only, and none twice while all streams are below 2^48. */
  ghost predicate Sound(keys: seq<Key>, logs: seq<C.Logs>, seen: set<Use>, views: seq<PI.IndexState>) {
    && |logs| == |keys|
    && forall k | 0 <= k < |keys| :: BothLogged(keys[k], logs[k], seen) && (Below(views) ==> BothOnce(logs[k]))
  }

  lemma TrackedView(ssrcs: seq<ssrc4>, views: seq<PI.IndexState>, seen: set<Use>, i: nat)
    requires Tracked(ssrcs, views, seen) && i < |views|
    ensures |ssrcs| == |views| && views[i].Valid() && PI.Tracks(views[i].db, IndicesOf(seen, ssrcs[i]))
  {
  }

  /** A stream takes up an index at which its window lets a packet pass. */
  lemma TakesUp(ssrcs: seq<ssrc4>, views: seq<PI.IndexState>, seen: set<Use>, i: nat, s: seqNum, carried: Option<roc32>)
    requires Tracked(ssrcs, views, seen) && i < |views| && views[i].Valid() && PI.Locate(views[i], s, carried).Usable()
    ensures var u := UseOf(ssrcs[i], views[i], s, carried);
      var after := views[i := PI.Record(views[i], PI.Locate(views[i], s, carried))];
      Tracked(ssrcs, after, seen + {u}) && (Below(after) ==> Below(views) && IsNew(seen, u))
  {
    hide PI.Tracks, PI.Locate, PI.Record, IndicesOf, UseOf;
    var st, ssrc := views[i], ssrcs[i];
    var u := UseOf(ssrc, st, s, carried);
    var after := views[i := PI.Record(st, PI.Locate(st, s, carried))];
    TrackedView(ssrcs, views, seen, i);
    StreamTakes(ssrc, st, seen, s, carried);
    forall j | 0 <= j < |after|
      ensures PI.Tracks(after[j].db, IndicesOf(seen + {u}, ssrcs[j]))
    {
      if j != i { IndicesOfAdded(seen, u, ssrcs[j]); }
    }
    NewestAfter(ssrc, st, seen, s, carried);
    if Below(after) {
      BelowBefore(views, after, i);
      forall v | v in seen
        ensures v.est < INDEX_MAX && (v.ssrc, v.est) != (u.ssrc, u.est)
      {
        var j :| 0 <= j < |ssrcs| && ssrcs[j] == v.ssrc;
        Bounded(views[j].db, seen, v);
        PI.BelowLimit(v.index);
        PI.BelowLimit(u.index);
      }
    }
  }

  lemma NewestAfter(ssrc: ssrc4, st: PI.IndexState, seen: set<Use>, s: seqNum, carried: Option<roc32>)
    requires st.Valid() && PI.Tracks(st.db, IndicesOf(seen, ssrc)) && PI.Locate(st, s, carried).Usable()
    ensures var u, r := UseOf(ssrc, st, s, carried), PI.Record(st, PI.Locate(st, s, carried));
      u.index <= r.db.index && st.db.index <= r.db.index
  {
    hide PI.Tracks, PI.Locate, PI.Record, IndicesOf;
    PI.LocateFacts(st, s, carried);
    PI.RecordTracks(st, IndicesOf(seen, ssrc), s, carried);
  }

  lemma BelowBefore(views: seq<PI.IndexState>, after: seq<PI.IndexState>, i: nat)
    requires |views| == |after| && i < |views| && after == views[i := after[i]]
    requires Below(after) && views[i].db.index <= after[i].db.index
    ensures Below(views)
  {
    forall j | 0 <= j < |views|
      ensures views[j].db.index < INDEX_MAX
    {
      assert after[j].db.index < INDEX_MAX;
    }
  }

  lemma Bounded(db: Rdbx, seen: set<Use>, v: Use)
    requires PI.Tracks(db, IndicesOf(seen, v.ssrc)) && v in seen
    ensures v.index <= db.index
  {
    assert v.index in IndicesOf(seen, v.ssrc);
  }

  /** The stream takes up the index, and a key the keystream of the packet. */
  lemma UsesKeystream(keys: seq<Key>, logs: seq<C.Logs>, ssrcs: seq<ssrc4>, views: seq<PI.IndexState>,
                      seen: set<Use>,
                      i: nat, s: seqNum, carried: Option<roc32>, k: nat, n: Spent)
    requires Tracked(ssrcs, views, seen) && Sound(keys, logs, seen, views)
    requires i < |views| && views[i].Valid() && PI.Locate(views[i], s, carried).Usable()
    requires k < |keys| && C.Within(keys[k], CmIv(ssrcs[i], PI.Locate(views[i], s, carried).est), n)
    ensures var l := PI.Locate(views[i], s, carried);
      var more := logs[k := logs[k].Plus(C.SpentBlocks(keys[k], CmIv(ssrcs[i], l.est), n))];
      Sound(keys, more, seen + {UseOf(ssrcs[i], views[i], s, carried)}, views[i := PI.Record(views[i], l)])
  {
    hide PI.Tracks, PI.Locate, PI.Record, IndicesOf, Tracked, BothLogged, BothOnce, IsNew, Below, CmIv, C.SpentBlocks,
         C.Within;
    TrackedView(ssrcs, views, seen, i);
    var u := UseOf(ssrcs[i], views[i], s, carried);
    TakesUp(ssrcs, views, seen, i, s, carried);
    forall j | 0 <= j < |keys|
      ensures BothLogged(keys[j], logs[j], seen + {u})
    {
      BothStillLogged(keys[j], logs[j], seen, u);
    }
    BothGrow(keys[k], logs[k], seen, u, n);
  }

  /** A new stream starts with an empty window. */
  lemma TracksNewStream(ssrcs: seq<ssrc4>, views: seq<PI.IndexState>, seen: set<Use>, ssrc: ssrc4, ws: nat)
    requires Tracked(ssrcs, views, seen) && ssrc !in ssrcs && 0 < ws < SEQ_MEDIAN
    ensures Tracked(ssrcs + [ssrc], views + [PI.IndexState(Init(ws), 0)], seen)
  {
    assert IndicesOf(seen, ssrc) == {};
  }

  lemma SoundWithNewStream(keys: seq<Key>, logs: seq<C.Logs>, seen: set<Use>, views: seq<PI.IndexState>, ws: nat)
    requires Sound(keys, logs, seen, views) && 0 < ws < SEQ_MEDIAN
    ensures Sound(keys, logs, seen, views + [PI.IndexState(Init(ws), 0)])
  {
    hide BothLogged, BothOnce;
    var more := views + [PI.IndexState(Init(ws), 0)];
    if Below(more) {
      forall i | 0 <= i < |views|
        ensures views[i].db.index < INDEX_MAX
      {
        assert more[i].db.index < INDEX_MAX;
      }
    }
  }

  /** A pending counter changes neither. */
  lemma TracksPending(ssrcs: seq<ssrc4>, views: seq<PI.IndexState>, seen: set<Use>, i: nat, roc: roc32)
    requires Tracked(ssrcs, views, seen) && i < |views|
    ensures var after := views[i := views[i].(pendingRoc := roc)];
      Tracked(ssrcs, after, seen) && (Below(after) ==> Below(views))
  {
    var after := views[i := views[i].(pendingRoc := roc)];
    if Below(after) { BelowBefore(views, after, i); }
  }

  // --- Objects ------------------------------------------------------------------------------

  /** What the streams consist of. */
  ghost function Parts(xs: seq<StreamIndex>): (r: set<object>) {
    (set x | x in xs :: x as object) + (set x | x in xs :: x.db as object)
    + (set x | x in xs :: x.db.bitmask.words as object)
  }

  /** No two streams have a part in common. */
  ghost predicate Apart(xs: seq<StreamIndex>) {
    forall i, j | 0 <= i < j < |xs| ::
      xs[i] != xs[j] && xs[i].db != xs[j].db && xs[i].db.bitmask.words != xs[j].db.bitmask.words
  }

  ghost function ViewsOf(xs: seq<StreamIndex>): (r: seq<PI.IndexState>)
    reads Parts(xs)
    ensures |r| == |xs| && forall i | 0 <= i < |xs| :: r[i] == xs[i].View()
  {
    seq(|xs|, i requires 0 <= i < |xs| reads Parts(xs) => assert xs[i] in xs; xs[i].View())
  }

  ghost function LogsOf(sks: seq<C.SessionKeys>): (r: seq<C.Logs>)
    reads C.Contexts(sks)
    ensures |r| == |sks| && forall i | 0 <= i < |sks| :: r[i] == sks[i].Log()
  {
    seq(|sks|, i requires 0 <= i < |sks| reads C.Contexts(sks) => assert sks[i] in sks; sks[i].Log())
  }

  /** Keys whose contexts are apart and in order. */
  ghost predicate KeysInOrder(cfg: Config, sks: seq<C.SessionKeys>)
    reads sks, C.Contexts(sks)
  {
    && cfg.Valid() && !cfg.gcm && C.Separate(sks)
    && forall i | 0 <= i < |sks| :: assert sks[i] in sks; sks[i].Valid() && KeyFits(cfg, sks[i].key)
  }

  /** What a call that works on one key and one stream leaves. */
  lemma LogsAfter(sks: seq<C.SessionKeys>, k: nat, logs: seq<C.Logs>)
    requires k < |sks| == |logs| && forall j | 0 <= j < |sks| && j != k :: sks[j].Log() == logs[j]
    ensures LogsOf(sks) == logs[k := sks[k].Log()]
  {
  }

  lemma ViewsAfter(xs: seq<StreamIndex>, i: nat, views: seq<PI.IndexState>)
    requires i < |xs| == |views| && forall j | 0 <= j < |xs| && j != i :: xs[j].View() == views[j]
    ensures ViewsOf(xs) == views[i := xs[i].View()]
  {
  }

  /** srtp_protect on stream i with key k. */
  method SendWith(cfg: Config, sks: seq<C.SessionKeys>, xs: seq<StreamIndex>, i: nat, k: nat,
                rtp: array<octet>, rtpLen: nat, srtp: array<octet>, cap: nat)
    returns (r: Result<nat>, ghost n: Spent)
    requires KeysInOrder(cfg, sks) && Apart(xs) && i < |xs| && k < |sks| && xs[i].View().Valid()
    requires rtpLen <= rtp.Length && rtpLen <= OBJECT_MAX && cap <= srtp.Length
    modifies srtp, sks[k].cipher, sks[k].xtn, xs[i], xs[i].db, xs[i].db.bitmask.words
    ensures KeysInOrder(cfg, sks)
    ensures var pkt := Sub(old(rtp[..]), 0, rtpLen);
      match Admit(cfg, old(xs[i].View()), false, pkt, cap)
      case Failure(_) => ViewsOf(xs) == old(ViewsOf(xs)) && LogsOf(sks) == old(LogsOf(sks))
      case Success(l) =>
        && C.Within(sks[k].key, CmIv(SsrcOf(pkt), l.est), n)
        && ViewsOf(xs) == old(ViewsOf(xs))[i := PI.Record(old(xs[i].View()), l)]
        && var used := C.SpentBlocks(sks[k].key, CmIv(SsrcOf(pkt), l.est), n);
           LogsOf(sks) == old(LogsOf(sks))[k := old(sks[k].Log()).Plus(used)]
  {
    hide Sub, Admit, C.Within, CmIv, SsrcOf, C.SpentBlocks, PI.Record, ProtectPacket, Cipher.Valid, KeyFits,
         StreamIndex.View,
         ViewsOf, LogsOf;
    ghost var logs, views := LogsOf(sks), ViewsOf(xs);
    r := C.Protect(cfg, sks[k], xs[i], false, rtp, rtpLen, srtp, cap);
    n := sks[k].Pos();
    LogsAfter(sks, k, logs);
    ViewsAfter(xs, i, views);
  }

  // --- Received packets ---------------------------------------------------------------------

  /** The place of a packet is found from the stream's own counter or from the carried one. */
  lemma PlaceIsLocated(cfg: Config, keys: seq<Key>, st: PI.IndexState, sp: seq<octet>)
    requires cfg.Valid() && !cfg.gcm && st.Valid() && FindPlace(cfg, keys, st, sp).Success?
    ensures |sp| >= RTP_HEADER
    ensures exists carried :: FindPlace(cfg, keys, st, sp).value.1 == PI.Locate(st, SeqOf(sp), carried)
  {
    hide ValidHeader, SelectKey, CarriedRoc, PI.Locate, SeqOf, Sub;
    LayoutFields(sp);
  }

  /** The keystream that a received packet uses is within reach of the block counters. */
  lemma OpenSpentWithin(cfg: Config, key: Key, est: nat, sp: seq<octet>, cap: nat, inPlace: bool)
    requires cfg.Valid() && !cfg.gcm && ValidHeader(sp)
    ensures C.Within(key, CmIv(SsrcOf(sp), est), OpenSpent(cfg, key, est, sp, cap, inPlace))
  {
    hide ValidHeader, LayoutOf, CmIv, SsrcOf, SeqOf, XtnStage, XtnUse, Sub, TagMatches, ProfileAt, Reaches, Checked;
    LayoutFields(sp);
    var iv, l := CmIv(SsrcOf(sp), est), LayoutOf(sp);
    C.ReachesStart(key.cipher, iv);
    if key.xtn.Some? {
      C.ReachesStart(key.xtn.value, iv);
      var end := Checked(cfg, key, est, sp, cap, inPlace);
      if end.Success? && !CryptexIn(cfg, sp, l) { XtnUseReaches(key.xtn.value, iv, Sub(sp, 0, end.value), l); }
    }
  }

  lemma XtnUseReaches(xtn: CipherKey, iv: block, pkt: seq<octet>, l: Layout)
    requires l.Fits(|pkt|)
    ensures Reaches(xtn, iv, XtnUse(Some(xtn), iv, pkt, l))
  {
    hide Reaches, HX.WalkUse, Sub, ProfileAt;
    C.ReachesStart(xtn, iv);
    if l.x {
      var d := Sub(pkt, l.h + XTN_HEADER, l.start);
      HX.WalkUseReaches(HX.OneByte, xtn, iv, 0, d);
      HX.WalkUseReaches(HX.TwoByte, xtn, iv, 0, d);
    }
  }

  /** The packet is refused after it has used keystream. */
  ghost predicate RefusedHalfway(cfg: Config, keys: seq<Key>, st: PI.IndexState, sp: seq<octet>, cap: nat,
                                 inPlace: bool)
    requires cfg.Valid() && !cfg.gcm && st.Valid()
  {
    var place := FindPlace(cfg, keys, st, sp);
    place.Success? && StopsHalfway(cfg, keys[place.value.0], place.value.1.est, sp, cap, inPlace)
  }

  /** A packet that is refused leaves the logs as they are if and only if it was not refused halfway. */
  lemma RefusedUsesNothing(cfg: Config, keys: seq<Key>, st: PI.IndexState, sp: seq<octet>, cap: nat, inPlace: bool)
    requires cfg.Valid() && !cfg.gcm && st.Valid() && Receive(cfg, keys, st, sp, cap, inPlace).Failure?
    ensures RefusedHalfway(cfg, keys, st, sp, cap, inPlace) <==>
      exists i: nat | i < |keys| :: C.ReceiveBlocks(cfg, keys, i, st, sp, cap, inPlace) != C.Logs([], [])
  {
    hide ValidHeader, FindPlace, SrtpPackets.Open, OpenSpent, StopsAtCsrcs, StopsAtElements, CmIv, SsrcOf, Base;
    match FindPlace(cfg, keys, st, sp)
    case Failure(_) =>
    case Success((k, at)) =>
      RefusedBlocks(cfg, keys[k], at.est, sp, cap, inPlace);
      var b := C.OpenBlocks(cfg, keys[k], at.est, sp, cap, inPlace);
      assert C.ReceiveBlocks(cfg, keys, k, st, sp, cap, inPlace) == b;
  }

  /** Which of the two ciphers a packet that is refused has made encrypt blocks. */
  lemma RefusedBlocks(cfg: Config, key: Key, est: nat, sp: seq<octet>, cap: nat, inPlace: bool)
    requires cfg.Valid() && !cfg.gcm && ValidHeader(sp) && SrtpPackets.Open(cfg, key, est, sp, cap, inPlace).Failure?
    ensures var b := C.OpenBlocks(cfg, key, est, sp, cap, inPlace);
      && (b.packet != [] <==> StopsAtCsrcs(cfg, key, est, sp, cap, inPlace))
      && (b.xtn != [] <==> HidesElements(key) && StopsAtElements(cfg, key, est, sp, cap, inPlace))
  {
    hide ValidHeader, SrtpPackets.Open, OpenSpent, CmIv, SsrcOf, SeqOf, Checked, XtnUse, XtnStage, Base, LayoutOf,
         CryptexIn, CounterBlock;
    RefusedUsesKeystreamIff(cfg, key, est, sp, cap, inPlace);
    LayoutFields(sp);
    var iv, n := CmIv(SsrcOf(sp), est), OpenSpent(cfg, key, est, sp, cap, inPlace);
    BlocksOfUse(key.cipher, iv, n.packet);
    if key.xtn.Some? { BlocksOfUse(key.xtn.value, iv, n.xtn); }
  }

  /** The logs have grown by what each key encrypts for this packet. */
  ghost predicate Grown(cfg: Config, keys: seq<Key>, st: PI.IndexState, sp: seq<octet>, cap: nat, inPlace: bool,
                        logs: seq<C.Logs>, after: seq<C.Logs>)
    requires cfg.Valid() && !cfg.gcm && st.Valid()
  {
    && |logs| == |after| == |keys|
    && forall j | 0 <= j < |keys| :: after[j] == logs[j].Plus(C.ReceiveBlocks(cfg, keys, j, st, sp, cap, inPlace))
  }

  /** An accepted packet uses keystream of its own index, from one key. */
  lemma AcceptedUse(cfg: Config, keys: seq<Key>, st: PI.IndexState, sp: seq<octet>, cap: nat, inPlace: bool,
                    logs: seq<C.Logs>, after: seq<C.Logs>)
    returns (k: nat, n: Spent, carried: Option<roc32>)
    requires cfg.Valid() && !cfg.gcm && st.Valid() && Receive(cfg, keys, st, sp, cap, inPlace).Success?
    requires Grown(cfg, keys, st, sp, cap, inPlace, logs, after)
    ensures |sp| >= RTP_HEADER && k < |keys| == |logs|
    ensures var at := Receive(cfg, keys, st, sp, cap, inPlace).value.at;
      && at == PI.Locate(st, SeqOf(sp), carried) && C.Within(keys[k], CmIv(SsrcOf(sp), at.est), n)
      && after == logs[k := logs[k].Plus(C.SpentBlocks(keys[k], CmIv(SsrcOf(sp), at.est), n))]
  {
    hide ValidHeader, FindPlace, SrtpPackets.Open, OpenSpent, CmIv, SsrcOf, SeqOf, C.SpentBlocks, PI.Locate, C.Within;
    PlaceIsLocated(cfg, keys, st, sp);
    var at := FindPlace(cfg, keys, st, sp).value.1;
    k := FindPlace(cfg, keys, st, sp).value.0;
    n := OpenSpent(cfg, keys[k], at.est, sp, cap, inPlace);
    OpenSpentWithin(cfg, keys[k], at.est, sp, cap, inPlace);
    carried :| at == PI.Locate(st, SeqOf(sp), carried);
    assert forall j | 0 <= j < |keys| && j != k :: after[j] == logs[j];
    assert after == logs[k := after[k]];
  }

  lemma SameLogs(cfg: Config, keys: seq<Key>, st: PI.IndexState, sp: seq<octet>, cap: nat, inPlace: bool,
                 logs: seq<C.Logs>, after: seq<C.Logs>)
    requires cfg.Valid() && !cfg.gcm && st.Valid() && Grown(cfg, keys, st, sp, cap, inPlace, logs, after)
    requires Receive(cfg, keys, st, sp, cap, inPlace).Failure? && !RefusedHalfway(cfg, keys, st, sp, cap, inPlace)
    ensures after == logs
  {
    hide Receive, RefusedHalfway, C.ReceiveBlocks;
    RefusedUsesNothing(cfg, keys, st, sp, cap, inPlace);
    forall j | 0 <= j < |keys|
      ensures after[j] == logs[j]
    {
      assert C.ReceiveBlocks(cfg, keys, j, st, sp, cap, inPlace) == C.Logs([], []);
    }
  }

  /** A packet that is accepted was not refused halfway. */
  lemma AcceptedIsNotHalfway(cfg: Config, keys: seq<Key>, st: PI.IndexState, sp: seq<octet>, cap: nat, inPlace: bool)
    requires cfg.Valid() && !cfg.gcm && st.Valid() && Receive(cfg, keys, st, sp, cap, inPlace).Success?
    ensures !RefusedHalfway(cfg, keys, st, sp, cap, inPlace)
  {
    hide FindPlace, SrtpPackets.Open, OpenSpent, StopsAtCsrcs, StopsAtElements;
    var (k, at) := FindPlace(cfg, keys, st, sp).value;
    RefusedUsesKeystreamIff(cfg, keys[k], at.est, sp, cap, inPlace);
  }

  // --- Packets that are refused halfway -----------------------------------------------------

  const LONG: seq<octet> := [0x91] + Zeros(15) + [0xc0, 0xde, 0, 0] + Zeros(0x10_0000)
  const CRYPTEX_ALONE := Config(false, true, false, 0, 0, RccNone, 1, [], true)

  lemma LongHeader()
    ensures ValidHeader(LONG) && LayoutOf(LONG) == Layout(16, true, 20)
    ensures IsCryptex(ProfileAt(LONG, 16)) && CRYPTEX_ALONE.Valid() && SeqOf(LONG) == 0
  {
    var pkt := LONG;
    assert Sub(pkt, 18, 20) == [0, 0] == Sub(pkt, 2, 4) && Sub(pkt, 16, 18) == [0xc0, 0xde];
    assert Value([0, 0]) == 0 && Value([0xc0, 0xde]) == 0xc0de;
  }

  /** With cryptex and no authentication, one CSRC and a payload of 2^20 octets: the CSRC is decrypted,
      the payload is more than the block counter allows, and nothing is put on record. */
  lemma LongPacketStopsHalfway(key: Key, est: nat)
    requires key.cipher.IcmKey? && SaltFits(key.cipher)
    ensures ValidHeader(LONG) && StopsAtCsrcs(CRYPTEX_ALONE, key, est, LONG, |LONG|, false)
    ensures Open(CRYPTEX_ALONE, key, est, LONG, |LONG|, false).Failure?
  {
    hide ValidHeader, LayoutOf, ProfileAt, CmIv, SsrcOf, SeqOf, Low, Base, SrtpPackets.Open, OpenSpent;
    LongHeader();
    LayoutFields(LONG);
    StartsAtZero(key.cipher, SsrcOf(LONG), est);
    RefusedUsesKeystreamIff(CRYPTEX_ALONE, key, est, LONG, |LONG|, false);
  }

  const MALFORMED: seq<octet> := [0x90] + Zeros(11) + [0xbe, 0xde, 0, 1] + [0x10, 0xaa, 0x2f, 0x01]
  const ELEMENTS_ALONE := Config(false, true, false, 0, 0, RccNone, 1, [1], false)

  lemma MalformedHeader()
    ensures ValidHeader(MALFORMED) && LayoutOf(MALFORMED) == Layout(12, true, 20)
    ensures ELEMENTS_ALONE.Valid() && SeqOf(MALFORMED) == 0
    ensures ProfileAt(MALFORMED, 12) == 0xbede && Sub(MALFORMED, 16, 20) == [0x10, 0xaa, 0x2f, 0x01]
  {
    var pkt := MALFORMED;
    assert Sub(pkt, 2, 4) == [0, 0] && Sub(pkt, 14, 16) == [0, 1] && Sub(pkt, 12, 14) == [0xbe, 0xde];
    assert Value([0, 0]) == 0 && Value([0, 1]) == 1 && Value([0xbe, 0xde]) == 0xbede;
  }

  /** The walk spends two octets of keystream on the first element; the second is longer than the extension. */
  lemma MalformedWalk(xtn: CipherKey, iv: block)
    requires Reaches(xtn, iv, 2)
    ensures var d := [0x10, 0xaa, 0x2f, 0x01];
      HX.Walk(HX.OneByte, [1], xtn, iv, 0, d) == HX.ParseErr && HX.WalkUse(HX.OneByte, xtn, iv, 0, d) > 0
  {
    hide Reaches;
    var e := HX.Piece([0x10], [0xaa], [], [0x2f, 0x01]);
    assert HX.Join(e) == [0x10, 0xaa, 0x2f, 0x01];
    HX.SplitOfJoin(HX.OneByte, e);
    HX.WalkStep(HX.OneByte, [1], xtn, iv, 0, e);
    assert HX.Walk(HX.OneByte, [1], xtn, iv, 2, e.rest) == HX.ParseErr;
  }

  /** With encrypted header extension elements and no authentication, a second element that is too long:
      the first is decrypted, the second is a parse error, and nothing is put on record. */
  lemma MalformedStopsHalfway(key: Key, est: nat)
    requires HidesElements(key) && SaltFits(key.xtn.value)
    ensures ValidHeader(MALFORMED) && StopsAtElements(ELEMENTS_ALONE, key, est, MALFORMED, |MALFORMED|, false)
    ensures Open(ELEMENTS_ALONE, key, est, MALFORMED, |MALFORMED|, false).Failure?
  {
    hide ValidHeader, LayoutOf, ProfileAt, CmIv, SsrcOf, SeqOf, Low, Base, Sub, SrtpPackets.Open, OpenSpent, HX.Walk,
         HX.WalkUse;
    MalformedHeader();
    LayoutFields(MALFORMED);
    SubWhole(MALFORMED);
    StartsAtZero(key.xtn.value, SsrcOf(MALFORMED), est);
    MalformedWalk(key.xtn.value, CmIv(SsrcOf(MALFORMED), est));
    RefusedUsesKeystreamIff(ELEMENTS_ALONE, key, est, MALFORMED, |MALFORMED|, false);
  }

  /** When such a packet arrives again, its blocks go through the block function once more. */
  lemma HalfwayRepeatsBlocks(cfg: Config, key: Key, est: nat, sp: seq<octet>, cap: nat, inPlace: bool, logs: C.Logs)
    requires cfg.Valid() && !cfg.gcm && ValidHeader(sp)
    ensures var b := C.OpenBlocks(cfg, key, est, sp, cap, inPlace);
      var twice := logs.Plus(b).Plus(b);
      && (StopsAtCsrcs(cfg, key, est, sp, cap, inPlace) ==> !Once(twice.packet))
      && (HidesElements(key) && StopsAtElements(cfg, key, est, sp, cap, inPlace) ==> !Once(twice.xtn))
  {
    hide ValidHeader, StopsAtCsrcs, StopsAtElements, SrtpPackets.Open, C.OpenBlocks, Once;
    RefusedUsesKeystreamIff(cfg, key, est, sp, cap, inPlace);
    if Open(cfg, key, est, sp, cap, inPlace).Failure? {
      RefusedBlocks(cfg, key, est, sp, cap, inPlace);
      var b := C.OpenBlocks(cfg, key, est, sp, cap, inPlace);
      TwiceIsNotOnce(logs.packet, b.packet);
      TwiceIsNotOnce(logs.xtn, b.xtn);
    }
  }

  lemma TwiceIsNotOnce(log: seq<block>, b: seq<block>)
    ensures b != [] ==> !Once(log + b + b)
  {
    if b != [] {
      var twice := log + b + b;
      assert twice[|log|] == b[0] == twice[|log| + |b|];
    }
  }

  // --- Streams that share keys --------------------------------------------------------------

  /** The position of an SSRC, from i on, or the number of SSRCs if it is not there. */
  function PositionOf(ssrcs: seq<ssrc4>, ssrc: ssrc4, i: nat): (r: nat)
    requires i <= |ssrcs| && ssrc !in ssrcs[..i]
    ensures r <= |ssrcs| && (if r < |ssrcs| then ssrcs[r] == ssrc else ssrc !in ssrcs)
    decreases |ssrcs| - i
  {
    if i == |ssrcs| || ssrcs[i] == ssrc then i else PositionOf(ssrcs, ssrc, i + 1)
  }

  /** Streams made from one template: they share its session keys and their cipher contexts, and have
      windows of their own.  No stream may repeat an index. */
  class KeySharers {
    const cfg: Config
    const keys: seq<C.SessionKeys>
    const window: nat
    var ssrcs: seq<ssrc4>
    var streams: seq<StreamIndex>
    /** The packets that were sent or accepted. */
    ghost var seen: set<Use>
    /** No packet was refused halfway. */
    ghost var clean: bool

    /** Everything is in order if these are the logs of the keys. */
    ghost predicate Holds(logs: seq<C.Logs>)
      reads this, keys, C.Contexts(keys), Parts(streams)
    {
      && 0 < window < SEQ_MEDIAN && keys != [] && KeysInOrder(cfg, keys) && Apart(streams)
      && Tracked(ssrcs, ViewsOf(streams), seen)
      && (clean ==> Sound(C.KeysOf(keys), logs, seen, ViewsOf(streams)))
    }

    ghost predicate Valid()
      reads this, keys, C.Contexts(keys), Parts(streams)
    {
      Holds(LogsOf(keys))
    }

    constructor (cfg: Config, keys: seq<C.SessionKeys>, window: nat)
      requires 0 < window < SEQ_MEDIAN && keys != [] && KeysInOrder(cfg, keys)
      requires forall k | 0 <= k < |keys| :: keys[k].Log() == C.Logs([], [])
      ensures Valid() && this.cfg == cfg && this.keys == keys && this.window == window
      ensures ssrcs == [] && streams == [] && clean
    {
      hide C.SessionKeys.Valid, Tracked, Sound;
      this.cfg, this.keys, this.window := cfg, keys, window;
      ssrcs, streams, seen, clean := [], [], {}, true;
      new;
      NothingUsed(C.KeysOf(keys), LogsOf(keys));
    }

    /** A stream for this SSRC; a new one starts with an empty window. */
    method StreamFor(ssrc: ssrc4) returns (i: nat)
      requires Valid()
      modifies this`ssrcs, this`streams
      ensures Valid() && i < |streams| == |ssrcs| && ssrcs[i] == ssrc
      ensures fresh(Parts(streams) - old(Parts(streams)))
    {
      hide KeysInOrder, Tracked, Sound, LogsOf, Parts, Apart;
      TrackedLengths(ssrcs, ViewsOf(streams), seen);
      i := PositionOf(ssrcs, ssrc, 0);
      if i == |ssrcs| {
        var x := NewStream(LogsOf(keys));
        Add(ssrc, x, LogsOf(keys));
      }
    }

    /** A stream that is not in the list yet. */
    method NewStream(ghost logs: seq<C.Logs>) returns (x: StreamIndex)
      requires Holds(logs)
      ensures Holds(logs) && LogsOf(keys) == old(LogsOf(keys))
      ensures fresh(Parts([x])) && Apart(streams + [x]) && x.View() == PI.IndexState(Init(window), 0)
    {
      hide C.SessionKeys.Valid, Tracked, Sound;
      ghost var views := ViewsOf(streams);
      x := new StreamIndex(window);
      assert views == ViewsOf(streams);
    }

    method Add(ssrc: ssrc4, x: StreamIndex, ghost logs: seq<C.Logs>)
      requires Holds(logs) && ssrc !in ssrcs && x.View() == PI.IndexState(Init(window), 0) && Apart(streams + [x])
      modifies this`ssrcs, this`streams
      ensures Holds(logs) && ssrcs == old(ssrcs) + [ssrc] && streams == old(streams) + [x]
      ensures LogsOf(keys) == old(LogsOf(keys)) && x.View() == old(x.View())
      ensures Parts(streams) == old(Parts(streams)) + Parts([x])
    {
      hide C.SessionKeys.Valid, Tracked, Sound, Init, StreamIndex.View;
      ghost var views := ViewsOf(streams);
      TracksNewStream(ssrcs, views, seen, ssrc, window);
      if clean { SoundWithNewStream(C.KeysOf(keys), logs, seen, views, window); }
      PartsAppended(streams, x);
      ssrcs, streams := ssrcs + [ssrc], streams + [x];
      assert ViewsOf(streams) == views + [x.View()];
    }

    /** srtp_protect on stream i with key k. */
    method SendPacket(i: nat, k: nat, rtp: array<octet>, rtpLen: nat, srtp: array<octet>,
                      cap: nat) returns (r: Result<nat>)
      requires Valid() && i < |streams| == |ssrcs| && k < |keys|
      requires rtpLen <= rtp.Length && rtpLen <= OBJECT_MAX && cap <= srtp.Length
      requires ValidHeader(Sub(rtp[..], 0, rtpLen)) && SsrcOf(Sub(rtp[..], 0, rtpLen)) == ssrcs[i]
      modifies this`seen, srtp, keys[k].cipher, keys[k].xtn, streams[i], streams[i].db, streams[i].db.bitmask.words
      ensures Valid()
    {
      hide C.SessionKeys.Valid, KeyFits, Tracked, Sound, LogsOf, ViewsOf, Sub, ValidHeader, SsrcOf, SeqOf, CmIv,
           C.SpentBlocks, C.Within, PI.Record, PI.Locate, UseOf;
      ghost var views, logs, pkt := ViewsOf(streams), LogsOf(keys), Sub(rtp[..], 0, rtpLen);
      TrackedView(ssrcs, views, seen, i);
      LayoutFields(pkt);
      ghost var n;
      r, n := SendWith(cfg, keys, streams, i, k, rtp, rtpLen, srtp, cap);
      ghost var a := Admit(cfg, views[i], false, pkt, cap);
      if a.Success? {
        Taken(clean, C.KeysOf(keys), logs, ssrcs, views, seen, i, SeqOf(pkt), None, k, n);
        views, logs := ViewsOf(streams), LogsOf(keys);
        seen := seen + {UseOf(ssrcs[i], old(ViewsOf(streams))[i], SeqOf(pkt), None)};
        assert views == ViewsOf(streams) && logs == LogsOf(keys);
      }
    }

    /** srtp_protect: an unknown SSRC gets a stream of its own, even if the packet is then refused. */
    method Protect(mki: nat, rtp: array<octet>, rtpLen: nat, srtp: array<octet>, cap: nat) returns (r: Result<nat>)
      requires Valid() && rtpLen <= rtp.Length && rtpLen <= OBJECT_MAX && cap <= srtp.Length
      modifies this, srtp, C.Contexts(keys), Parts(streams)
      ensures Valid() && clean == old(clean) && fresh(Parts(streams) - old(Parts(streams)))
    {
      hide KeysInOrder, Tracked, Sound, LogsOf, ViewsOf, Sub, ValidHeader, SsrcOf, Apart, C.Contexts, Parts;
      var hdr := Sub(rtp[..], 0, rtpLen);
      if !ValidHeader(hdr) { return Failure(BadParam); }
      LayoutFields(hdr);
      var i := StreamFor(SsrcOf(hdr));
      var k := if cfg.mkiSize == 0 then 0 else mki;
      if k >= |keys| { return Failure(BadMki); }
      InParts(streams, i);
      InContexts(keys, k);
      r := SendPacket(i, k, rtp, rtpLen, srtp, cap);
    }

    /** srtp_stream_set_roc */
    method SetRoc(ssrc: ssrc4, roc: roc32) returns (r: Result<()>)
      requires Valid()
      modifies Parts(streams)
      ensures Valid() && streams == old(streams) && clean == old(clean)
      ensures r.Success? <==> ssrc in ssrcs
      ensures r.Success? && roc != 0 ==> GoesOnWith(StateFor(ssrc), roc, old(StateFor(ssrc)).db.index)
      ensures forall i | 0 <= i < |streams| :: |ssrcs| == |streams| && (ssrcs[i] != ssrc ==>
        ViewsOf(streams)[i] == old(ViewsOf(streams))[i])
    {
      hide C.SessionKeys.Valid, Tracked, BothLogged, BothOnce, Below, GoesOnWith;
      ghost var views, logs := ViewsOf(streams), LogsOf(keys);
      TrackedLengths(ssrcs, views, seen);
      var i := PositionOf(ssrcs, ssrc, 0);
      if i == |ssrcs| { return Failure(BadParam); }
      TracksPending(ssrcs, views, seen, i, roc);
      TrackedView(ssrcs, views, seen, i);
      if roc != 0 { PendingGoesOn(views[i], roc); }
      assert streams[i] in streams;
      streams[i].pendingRoc := roc;
      ViewsAfter(streams, i, views);
      assert logs == LogsOf(keys);
      r := Success(());
    }

    /** Puts an accepted packet on record, on stream i. */
    method Accept(i: nat, found: PI.Located, ghost s: seqNum, ghost carried: Option<roc32>, ghost k: nat,
                  ghost n: Spent, ghost logs: seq<C.Logs>)
      requires Holds(logs) && i < |streams| == |ssrcs| && k < |keys| == |logs| && streams[i].View().Valid()
      requires found == PI.Locate(streams[i].View(), s, carried) && found.Usable()
      requires C.Within(keys[k].key, CmIv(ssrcs[i], found.est), n)
      requires LogsOf(keys) == logs[k := logs[k].Plus(C.SpentBlocks(keys[k].key, CmIv(ssrcs[i], found.est), n))]
      modifies this`seen, streams[i], streams[i].db, streams[i].db.bitmask.words
      ensures Valid()
    {
      hide C.SessionKeys.Valid, KeyFits, Tracked, Sound, CmIv, C.SpentBlocks, PI.Record, PI.Locate, C.Within, UseOf,
           StreamIndex.View;
      ghost var views, used := ViewsOf(streams), LogsOf(keys);
      Taken(clean, C.KeysOf(keys), logs, ssrcs, views, seen, i, s, carried, k, n);
      streams[i].Commit(found);
      ViewsAfter(streams, i, views);
      ghost var after := ViewsOf(streams);
      seen := seen + {UseOf(ssrcs[i], views[i], s, carried)};
      assert after == ViewsOf(streams) && used == LogsOf(keys);
    }

    /** srtp_unprotect up to the point where the packet is put on record, on a stream of the list or a
        provisional one. */
    method Open(x: StreamIndex, srtp: array<octet>, n: nat, rtp: array<octet>, cap: nat)
      returns (r: Result<nat>, found: PI.Located)
      requires Valid() && x.View().Valid() && n <= srtp.Length && n <= OBJECT_MAX && cap <= rtp.Length
      modifies rtp, C.Contexts(keys)
      ensures Holds(old(LogsOf(keys))) && x.View() == old(x.View()) && ViewsOf(streams) == old(ViewsOf(streams))
      ensures var sp := Sub(old(srtp[..]), 0, n);
        Grown(cfg, C.KeysOf(keys), x.View(), sp, cap, rtp == srtp, old(LogsOf(keys)), LogsOf(keys))
      ensures var got := Receive(cfg, C.KeysOf(keys), x.View(), Sub(old(srtp[..]), 0, n), cap, rtp == srtp);
        match r
        case Failure(e) => got == Failure(e)
        case Success(m) => m <= rtp.Length && got == Success(Received(Sub(rtp[..], 0, m), found))
    {
      hide Tracked, Sound, Sub, Receive, C.ReceiveBlocks, Cipher.Valid;
      ghost var views := ViewsOf(streams);
      r, found := C.Unprotect(cfg, keys, x, srtp, n, rtp, cap);
      assert views == ViewsOf(streams);
    }

    /** The index state that a packet of this SSRC is checked against. */
    ghost function StateFor(ssrc: ssrc4): (st: PI.IndexState)
      requires Valid()
      reads this, keys, C.Contexts(keys), Parts(streams)
      ensures st.Valid()
    {
      var i := PositionOf(ssrcs, ssrc, 0);
      if i < |ssrcs| then ViewsOf(streams)[i] else PI.IndexState(Init(window), 0)
    }

    /** The packet would be refused after it has used keystream. */
    ghost predicate Halfway(sp: seq<octet>, cap: nat, inPlace: bool)
      requires Valid()
      reads this, keys, C.Contexts(keys), Parts(streams)
    {
      ValidHeader(sp) && RefusedHalfway(cfg, C.KeysOf(keys), StateFor(SsrcOf(sp)), sp, cap, inPlace)
    }

    /** Puts an accepted packet on record; a provisional stream becomes a stream of its own. */
    method Record(ssrc: ssrc4, x: StreamIndex, found: PI.Located, ghost s: seqNum, ghost carried: Option<roc32>,
                  ghost k: nat,
                  ghost n: Spent, ghost logs: seq<C.Logs>)
      requires Holds(logs) && |ssrcs| == |streams| && k < |keys| == |logs| && x.View().Valid()
      requires var i := PositionOf(ssrcs, ssrc, 0);
        if i < |ssrcs| then x == streams[i] else Apart(streams + [x]) && x.View() == PI.IndexState(Init(window), 0)
      requires found == PI.Locate(x.View(), s, carried) && found.Usable()
      requires C.Within(keys[k].key, CmIv(ssrc, found.est), n)
      requires LogsOf(keys) == logs[k := logs[k].Plus(C.SpentBlocks(keys[k].key, CmIv(ssrc, found.est), n))]
      modifies this`seen, this`ssrcs, this`streams, x, x.db, x.db.bitmask.words
      ensures Valid() && Parts(streams) <= old(Parts(streams)) + Parts([x])
    {
      hide KeysInOrder, Tracked, Sound, CmIv, C.SpentBlocks, PI.Locate, C.Within, LogsOf, ViewsOf, Init, Apart, Parts;
      var i := PositionOf(ssrcs, ssrc, 0);
      if i == |ssrcs| { Add(ssrc, x, logs); }
      Accept(i, found, s, carried, k, n, logs);
    }

    /** x is the stream of this SSRC, or a provisional one if there is none. */
    ghost predicate Serves(x: StreamIndex, ssrc: ssrc4)
      reads this, x, x.db, x.db.bitmask.words
    {
      && |ssrcs| == |streams|
      && var i := PositionOf(ssrcs, ssrc, 0);
         if i < |ssrcs| then x == streams[i] else Apart(streams + [x]) && x.View() == PI.IndexState(Init(window), 0)
    }

    /** srtp_unprotect on the stream of the packet. */
    method ReceiveOn(x: StreamIndex, srtp: array<octet>, n: nat, rtp: array<octet>, cap: nat) returns (r: Result<nat>)
      requires Valid() && x.View().Valid() && n <= srtp.Length && n <= OBJECT_MAX && cap <= rtp.Length
      requires ValidHeader(Sub(srtp[..], 0, n)) && Serves(x, SsrcOf(Sub(srtp[..], 0, n)))
      modifies this, rtp, C.Contexts(keys), x, x.db, x.db.bitmask.words
      ensures Valid() && Parts(streams) <= old(Parts(streams)) + Parts([x])
      ensures var sp := Sub(old(srtp[..]), 0, n);
        clean == (old(clean) && !RefusedHalfway(cfg, C.KeysOf(keys), old(x.View()), sp, cap, rtp == srtp))
      ensures var sp, st := Sub(old(srtp[..]), 0, n), old(x.View());
        RefusedHalfway(cfg, C.KeysOf(keys), st, sp, cap, rtp == srtp) ==>
          && r.Failure? && ssrcs == old(ssrcs) && streams == old(streams) && ViewsOf(streams) == old(ViewsOf(streams))
          && Grown(cfg, C.KeysOf(keys), st, sp, cap, rtp == srtp, old(LogsOf(keys)), LogsOf(keys))
    {
      hide KeysInOrder, Tracked, Sound, Sub, ValidHeader, SsrcOf, SeqOf, Apart, Parts, LogsOf, ViewsOf, Receive,
           RefusedHalfway, CmIv,
           C.SpentBlocks, C.Within, PI.Locate, Init, Grown;
      ghost var sp, logs, st, ks := Sub(srtp[..], 0, n), LogsOf(keys), x.View(), C.KeysOf(keys);
      LayoutFields(sp);
      KeysFacts(cfg, keys);
      var ssrc := SsrcOf(Sub(srtp[..], 0, n));
      var found;
      r, found := Open(x, srtp, n, rtp, cap);
      if r.Failure? {
        ghost var halfway := RefusedHalfway(cfg, ks, st, sp, cap, rtp == srtp);
        if !halfway { SameLogs(cfg, ks, st, sp, cap, rtp == srtp, logs, LogsOf(keys)); }
        ForgetIf(halfway, logs);
      } else {
        AcceptedIsNotHalfway(cfg, ks, st, sp, cap, rtp == srtp);
        ghost var k, m, carried := AcceptedUse(cfg, ks, st, sp, cap, rtp == srtp, logs, LogsOf(keys));
        Record(ssrc, x, found, SeqOf(sp), carried, k, m, logs);
      }
    }

    /** srtp_unprotect: an unknown SSRC gets a stream of its own if the packet is accepted. */
    method Unprotect(srtp: array<octet>, n: nat, rtp: array<octet>, cap: nat) returns (r: Result<nat>)
      requires Valid() && n <= srtp.Length && n <= OBJECT_MAX && cap <= rtp.Length
      modifies this, rtp, C.Contexts(keys), Parts(streams)
      ensures Valid() && fresh(Parts(streams) - old(Parts(streams)))
      ensures clean == old(clean && !Halfway(Sub(srtp[..], 0, n), cap, rtp == srtp))
      ensures var sp := Sub(old(srtp[..]), 0, n);
        old(Halfway(sp, cap, rtp == srtp)) ==>
          && r.Failure? && ssrcs == old(ssrcs) && streams == old(streams) && ViewsOf(streams) == old(ViewsOf(streams))
          && var st := old(StateFor(SsrcOf(sp)));
             st == StateFor(SsrcOf(sp)) &&
             Grown(cfg, C.KeysOf(keys), st, sp, cap, rtp == srtp, old(LogsOf(keys)), LogsOf(keys))
    {
      hide KeysInOrder, Tracked, Sound, Sub, ValidHeader, SsrcOf, LogsOf, ViewsOf, RefusedHalfway, Init, Apart, Grown;
      var hdr := Sub(srtp[..], 0, n);
      if !ValidHeader(hdr) { return Failure(BadParam); }
      LayoutFields(hdr);
      var x := Candidate(SsrcOf(hdr));
      r := ReceiveOn(x, srtp, n, rtp, cap);
    }

    method Candidate(ssrc: ssrc4) returns (x: StreamIndex)
      requires Valid()
      ensures Valid() && Serves(x, ssrc) && x.View() == old(StateFor(ssrc)) && x.View().Valid()
      ensures fresh(Parts([x]) - Parts(streams))
    {
      hide KeysInOrder, Tracked, Sound, LogsOf, Init;
      ghost var views := ViewsOf(streams);
      TrackedLengths(ssrcs, views, seen);
      var i := PositionOf(ssrcs, ssrc, 0);
      if i < |ssrcs| {
        x := streams[i];
        TrackedView(ssrcs, views, seen, i);
        PartsOfOne(streams, i);
      } else {
        x := NewStream(LogsOf(keys));
      }
    }

    /** After a packet that was refused halfway, nothing is known about the logs any more. */
    ghost method ForgetIf(halfway: bool, logs: seq<C.Logs>)
      requires Holds(logs) && (!halfway ==> LogsOf(keys) == logs)
      modifies this`clean
      ensures Valid() && clean == (old(clean) && !halfway)
      ensures ViewsOf(streams) == old(ViewsOf(streams)) && LogsOf(keys) == old(LogsOf(keys))
    {
      hide C.SessionKeys.Valid, Tracked, Sound;
      ghost var views, used := ViewsOf(streams), LogsOf(keys);
      clean := clean && !halfway;
      assert views == ViewsOf(streams) && used == LogsOf(keys);
    }
  }

  lemma KeysFacts(cfg: Config, sks: seq<C.SessionKeys>)
    requires KeysInOrder(cfg, sks)
    ensures cfg.Valid() && !cfg.gcm && forall k | 0 <= k < |sks| :: KeyFits(cfg, C.KeysOf(sks)[k])
  {
    hide KeyFits;
  }

  /** What taking up an index means for a session, clean or not. */
  lemma Taken(clean: bool, keys: seq<Key>, logs: seq<C.Logs>, ssrcs: seq<ssrc4>, views: seq<PI.IndexState>,
              seen: set<Use>,
              i: nat, s: seqNum, carried: Option<roc32>, k: nat, n: Spent)
    requires Tracked(ssrcs, views, seen) && (clean ==> Sound(keys, logs, seen, views)) && |logs| == |keys|
    requires i < |views| && views[i].Valid() && |ssrcs| == |views| && PI.Locate(views[i], s, carried).Usable()
    requires k < |keys| && C.Within(keys[k], CmIv(ssrcs[i], PI.Locate(views[i], s, carried).est), n)
    ensures var l := PI.Locate(views[i], s, carried);
      var u := UseOf(ssrcs[i], views[i], s, carried);
      var after := views[i := PI.Record(views[i], l)];
      var more := logs[k := logs[k].Plus(C.SpentBlocks(keys[k], CmIv(ssrcs[i], l.est), n))];
      Tracked(ssrcs, after, seen + {u}) && (clean ==> Sound(keys, more, seen + {u}, after))
  {
    hide PI.Locate, PI.Record, IndicesOf, Tracked, Sound, CmIv, C.SpentBlocks, C.Within, UseOf;
    TakesUp(ssrcs, views, seen, i, s, carried);
    if clean { UsesKeystream(keys, logs, ssrcs, views, seen, i, s, carried, k, n); }
  }

  lemma NothingUsed(keys: seq<Key>, logs: seq<C.Logs>)
    requires |logs| == |keys| && forall k | 0 <= k < |keys| :: logs[k] == C.Logs([], [])
    ensures Tracked([], [], {}) && Sound(keys, logs, {}, [])
  {
  }

  lemma PartsAppended(xs: seq<StreamIndex>, x: StreamIndex)
    ensures Parts(xs + [x]) == Parts(xs) + Parts([x])
  {
    forall o | o in Parts(xs) + Parts([x])
      ensures o in Parts(xs + [x])
    {
      assert x in xs + [x];
      if o in Parts(xs) { MemberOfParts(xs, [x], o); }
    }
  }

  lemma InContexts(sks: seq<C.SessionKeys>, k: nat)
    requires k < |sks|
    ensures sks[k].cipher in C.Contexts(sks) && sks[k].xtn in C.Contexts(sks)
  {
    assert sks[k] in sks;
  }

  lemma PartsOfOne(xs: seq<StreamIndex>, i: nat)
    requires i < |xs|
    ensures Parts([xs[i]]) <= Parts(xs)
  {
    assert xs[i] in xs;
  }

  lemma InParts(xs: seq<StreamIndex>, i: nat)
    requires i < |xs|
    ensures xs[i] in Parts(xs) && xs[i].db in Parts(xs) && xs[i].db.bitmask.words in Parts(xs)
  {
    assert xs[i] in xs;
  }

  lemma MemberOfParts(xs: seq<StreamIndex>, ys: seq<StreamIndex>, o: object)
    requires o in Parts(xs)
    ensures o in Parts(xs + ys)
  {
    var x :| x in xs && (o == x || o == x.db || o == x.db.bitmask.words);
    assert x in xs + ys;
  }

  lemma TrackedLengths(ssrcs: seq<ssrc4>, views: seq<PI.IndexState>, seen: set<Use>)
    requires Tracked(ssrcs, views, seen)
    ensures |ssrcs| == |views|
  {
  }

  // --- Runs ---------------------------------------------------------------------------------

  /** A call with its packet buffers, which may be the same one. */
  datatype BufferCall =
    | Send(mki: nat, rtp: array<octet>, rtpLen: nat, srtp: array<octet>, cap: nat)
    | Get(srtp: array<octet>, n: nat, rtp: array<octet>, cap: nat)
    | Counter(ssrc: ssrc4, roc: roc32)
  {
    ghost predicate Fits() {
      match this
      case Send(_, rtp, rtpLen, srtp, cap) => rtpLen <= rtp.Length && rtpLen <= OBJECT_MAX && cap <= srtp.Length
      case Get(srtp, n, rtp, cap) => n <= srtp.Length && n <= OBJECT_MAX && cap <= rtp.Length
      case Counter(_, _) => true
    }

    ghost function Out(): (r: set<object>) {
      match this
      case Send(_, _, _, srtp, _) => {srtp}
      case Get(_, _, rtp, _) => {rtp}
      case Counter(_, _) => {}
    }

    /** The call cannot refuse a packet halfway. */
    predicate Safe(cfg: Config) {
      Get? ==> cfg.ids == [] && (!cfg.cryptex || !cfg.conf || srtp == rtp)
    }
  }

  ghost function Outs(calls: seq<BufferCall>): (r: set<object>) {
    set c, o | c in calls && o in c.Out() :: o
  }

  /** Only cryptex packets that go from one buffer to another, and packets of streams that encrypt header
      extension elements, can be refused halfway. */
  lemma SafeIsNotHalfway(cfg: Config, keys: seq<Key>, st: PI.IndexState, sp: seq<octet>, cap: nat, inPlace: bool)
    requires cfg.Valid() && !cfg.gcm && st.Valid() && (!cfg.cryptex || !cfg.conf || inPlace)
    requires cfg.ids == [] && forall k | 0 <= k < |keys| :: KeyFits(cfg, keys[k])
    ensures !RefusedHalfway(cfg, keys, st, sp, cap, inPlace)
  {
    hide FindPlace, ValidHeader, Checked, Reaches, CmIv, SsrcOf, LayoutOf, XtnStage, Sub;
  }

  method Perform(s: KeySharers, c: BufferCall)
    requires s.Valid() && c.Fits()
    modifies s, C.Contexts(s.keys), Parts(s.streams), c.Out()
    ensures s.Valid() && fresh(Parts(s.streams) - old(Parts(s.streams)))
    ensures s.clean ==> old(s.clean)
    ensures c.Safe(s.cfg) ==> s.clean == old(s.clean)
  {
    hide KeysInOrder, Tracked, Sound, Sub, ValidHeader, SsrcOf, LogsOf, ViewsOf, RefusedHalfway, Init, Apart, Parts,
         C.Contexts;
    match c
    case Send(mki, rtp, rtpLen, srtp, cap) =>
      var r := s.Protect(mki, rtp, rtpLen, srtp, cap);
    case Get(srtp, n, rtp, cap) =>
      ghost var sp := Sub(srtp[..], 0, n);
      KeysFacts(s.cfg, s.keys);
      if c.Safe(s.cfg) && ValidHeader(sp) {
        LayoutFields(sp);
        SafeIsNotHalfway(s.cfg, C.KeysOf(s.keys), s.StateFor(SsrcOf(sp)), sp, cap, rtp == srtp);
      }
      var r := s.Unprotect(srtp, n, rtp, cap);
    case Counter(ssrc, roc) =>
      var r := s.SetRoc(ssrc, roc);
  }

  /** Over any run of calls on any number of streams that share session keys, with counters set and
      packets refused on the way, no block goes twice through the block function of a packet cipher or of a
      header extension cipher, as long as the streams stay below 2^48 packets and no packet is refused
      halfway. */
  method Run(s: KeySharers, calls: seq<BufferCall>)
    requires s.Valid() && forall c | c in calls :: c.Fits()
    modifies s, C.Contexts(s.keys), Parts(s.streams), Outs(calls)
    ensures s.Valid()
    ensures s.clean && Below(ViewsOf(s.streams)) ==> forall k | 0 <= k < |s.keys| :: BothOnce(s.keys[k].Log())
    ensures (forall c | c in calls :: c.Safe(s.cfg)) ==> s.clean == old(s.clean)
    decreases |calls|
  {
    hide KeysInOrder, Tracked, Sound, LogsOf, ViewsOf, Apart, Parts, C.Contexts;
    if calls != [] {
      var c, rest := calls[0], calls[1..];
      assert c in calls && forall d | d in rest :: d in calls;
      Perform(s, c);
      Run(s, rest);
    }
    if s.clean && Below(ViewsOf(s.streams)) { SoundMeansOnce(s.keys, s.seen, ViewsOf(s.streams)); }
  }

  lemma SoundMeansOnce(sks: seq<C.SessionKeys>, seen: set<Use>, views: seq<PI.IndexState>)
    requires Sound(C.KeysOf(sks), LogsOf(sks), seen, views) && Below(views)
    ensures forall k | 0 <= k < |sks| :: BothOnce(sks[k].Log())
  {
    hide BothLogged, BothOnce;
    forall k | 0 <= k < |sks|
      ensures BothOnce(sks[k].Log())
    {
      assert BothOnce(LogsOf(sks)[k]);
    }
  }

  /** Packet buffers are no part of a stream or a cipher context. */
  lemma BufferApart(sks: seq<C.SessionKeys>, xs: seq<StreamIndex>, a: array<octet>)
    ensures a !in C.Contexts(sks) && a !in Parts(xs)
  {
  }

  /** The logs after a packet that is refused halfway has arrived twice. */
  lemma GrownTwice(cfg: Config, keys: seq<Key>, st: PI.IndexState, sp: seq<octet>, cap: nat, inPlace: bool,
                   logs: seq<C.Logs>, mid: seq<C.Logs>, after: seq<C.Logs>)
    requires cfg.Valid() && !cfg.gcm && st.Valid() && FindPlace(cfg, keys, st, sp).Success?
    requires Grown(cfg, keys, st, sp, cap, inPlace, logs, mid) && Grown(cfg, keys, st, sp, cap, inPlace, mid, after)
    ensures |after| == |keys| && Repeats(cfg, keys, st, sp, cap, inPlace, after)
  {
    hide FindPlace, StopsAtCsrcs, StopsAtElements, Once, C.OpenBlocks;
    var (k, at) := FindPlace(cfg, keys, st, sp).value;
    HalfwayRepeatsBlocks(cfg, keys[k], at.est, sp, cap, inPlace, logs[k]);
    assert C.ReceiveBlocks(cfg, keys, k, st, sp, cap, inPlace) == C.OpenBlocks(cfg, keys[k], at.est, sp, cap, inPlace);
  }

  /** The log of a cipher that this packet stops at, of the key that it selects, has a block twice. */
  ghost predicate Repeats(cfg: Config, keys: seq<Key>, st: PI.IndexState, sp: seq<octet>, cap: nat, inPlace: bool,
                          logs: seq<C.Logs>)
    requires cfg.Valid() && !cfg.gcm && st.Valid() && |logs| == |keys| && FindPlace(cfg, keys, st, sp).Success?
  {
    var (k, at) := FindPlace(cfg, keys, st, sp).value;
    && (StopsAtCsrcs(cfg, keys[k], at.est, sp, cap, inPlace) ==> !Once(logs[k].packet))
    && (HidesElements(keys[k]) && StopsAtElements(cfg, keys[k], at.est, sp, cap, inPlace) ==> !Once(logs[k].xtn))
  }

  /** A packet that is refused halfway arrives twice, in these buffers and then in those: a block goes
      through the block function of its key twice. */
  method ArrivesTwice(s: KeySharers, srtp: array<octet>, rtp: array<octet>, again: array<octet>, out: array<octet>,
                      n: nat, cap: nat)
    requires s.Valid() && n <= OBJECT_MAX && n <= srtp.Length && cap <= rtp.Length && n <= again.Length
    requires cap <= out.Length && again != rtp && (again == out <==> srtp == rtp)
    requires Sub(again[..], 0, n) == Sub(srtp[..], 0, n) && s.Halfway(Sub(srtp[..], 0, n), cap, rtp == srtp)
    modifies s, rtp, out, C.Contexts(s.keys), Parts(s.streams)
    ensures s.Valid()
    ensures var sp := Sub(old(srtp[..]), 0, n);
      Repeats(s.cfg, C.KeysOf(s.keys), old(s.StateFor(SsrcOf(sp))), sp, cap, rtp == srtp, LogsOf(s.keys))
  {
    hide KeysInOrder, Tracked, Sound, Sub, ValidHeader, SsrcOf, LogsOf, ViewsOf, Init, Apart, Parts, C.Contexts,
         FindPlace, StopsHalfway, Repeats, Grown, KeySharers.StateFor;
    ghost var sp, keys, logs := Sub(srtp[..], 0, n), C.KeysOf(s.keys), LogsOf(s.keys);
    LayoutFields(sp);
    KeysFacts(s.cfg, s.keys);
    ghost var st := s.StateFor(SsrcOf(sp));
    BufferApart(s.keys, s.streams, again);
    var r := s.Unprotect(srtp, n, rtp, cap);
    ghost var mid := LogsOf(s.keys);
    r := s.Unprotect(again, n, out, cap);
    GrownTwice(s.cfg, keys, st, sp, cap, rtp == srtp, logs, mid, LogsOf(s.keys));
  }

  /** On a new stream, and without MKI and carried counters, a packet with number 0 selects the first key. */
  lemma FirstPlace(cfg: Config, keys: seq<Key>, window: nat, sp: seq<octet>)
    requires cfg.Valid() && !cfg.gcm && cfg.mkiSize == 0 && cfg.rcc.RccNone? && keys != []
    requires 0 < window < SEQ_MEDIAN && ValidHeader(sp) && |sp| >= RTP_HEADER && SeqOf(sp) == 0
    ensures var place := FindPlace(cfg, keys, PI.IndexState(Init(window), 0), sp); place.Success? && place.value.0 == 0
  {
    hide ValidHeader, SeqOf;
  }

  method LongPacketTwice(s: KeySharers, srtp: array<octet>, rtp: array<octet>)
    requires s.Valid() && s.cfg == CRYPTEX_ALONE && s.ssrcs == []
    requires s.keys[0].key.cipher.IcmKey? && SaltFits(s.keys[0].key.cipher)
    requires srtp[..] == LONG && srtp != rtp && |LONG| <= rtp.Length
    modifies s, rtp, C.Contexts(s.keys), Parts(s.streams)
    ensures s.Valid() && !Once(s.keys[0].cipher.log)
  {
    hide KeysInOrder, Tracked, Sound, Sub, ValidHeader, SsrcOf, SeqOf, LogsOf, ViewsOf, Init, Apart, Parts, C.Contexts,
         FindPlace, StopsAtCsrcs, StopsAtElements, Low, Once;
    ghost var st := PI.IndexState(Init(s.window), 0);
    LongHeader();
    LayoutFields(LONG);
    SubWhole(LONG);
    FirstPlace(s.cfg, C.KeysOf(s.keys), s.window, LONG);
    LongPacketStopsHalfway(s.keys[0].key, FindPlace(s.cfg, C.KeysOf(s.keys), st, LONG).value.1.est);
    ArrivesTwice(s, srtp, rtp, srtp, rtp, srtp.Length, srtp.Length);
  }

  method MalformedTwice(s: KeySharers, srtp: array<octet>, rtp: array<octet>)
    requires s.Valid() && s.cfg == ELEMENTS_ALONE && s.ssrcs == []
    requires HidesElements(s.keys[0].key) && SaltFits(s.keys[0].key.xtn.value)
    requires srtp[..] == MALFORMED && srtp != rtp && |MALFORMED| <= rtp.Length
    modifies s, rtp, C.Contexts(s.keys), Parts(s.streams)
    ensures s.Valid() && !Once(s.keys[0].Log().xtn)
  {
    hide KeysInOrder, Tracked, Sound, Sub, ValidHeader, SsrcOf, SeqOf, LogsOf, ViewsOf, Init, Apart, Parts, C.Contexts,
         FindPlace, StopsAtCsrcs, StopsAtElements, Low, Once;
    ghost var st := PI.IndexState(Init(s.window), 0);
    MalformedHeader();
    LayoutFields(MALFORMED);
    SubWhole(MALFORMED);
    FirstPlace(s.cfg, C.KeysOf(s.keys), s.window, MALFORMED);
    MalformedStopsHalfway(s.keys[0].key, FindPlace(s.cfg, C.KeysOf(s.keys), st, MALFORMED).value.1.est);
    ArrivesTwice(s, srtp, rtp, srtp, rtp, srtp.Length, srtp.Length);
  }
}
