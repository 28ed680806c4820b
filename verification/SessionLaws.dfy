/** What the calls of a session do to packets and streams, across several calls: the index and the key
    of a packet, the rollover counter that the application sets, directions, and trailer lengths. */
module SessionLaws {
  import opened Results
  import opened Octets
  import opened Replay
  import opened RtpPackets
  import opened SrtpBodies
  import opened SrtpPackets
  import opened AeadPackets
  import opened Sessions
  import RtcpReplay
  import PI = PacketIndex
  import SP = SrtcpPackets
  import SF = SrtcpFormats
  import W = WireFormats

  function Max(a: nat, b: nat): (m: nat) { if a < b then b else a }

  // --- The rollover counter set by the application --------------------------------------------

  lemma CounterIsUsed(st: PI.IndexState, q: seqNum, carried: Option<roc32>)
    requires st.Valid() && (carried.Some? || st.pendingRoc != 0)
    ensures var roc := if carried.Some? then carried.value else st.pendingRoc;
      var l := PI.Locate(st, q, carried);
      && l.est == roc * 0x1_0000 + q
      && (l.Usable() ==> PI.Record(st, l).db.index == Max(st.db.index, l.est))
  {
    var l := PI.Locate(st, q, carried);
    PI.LocateFacts(st, q, carried);
    if l.status == IndexAdvance { PI.AdvanceNeverMovesBack(st, q, carried); }
  }

  /** What becomes of the counter: a packet more than 2^15 ahead takes it up, and the stream counts on from
      there by itself; otherwise it stays for the packets to come. */
  lemma CounterAfterwards(st: PI.IndexState, q: seqNum, next: seqNum)
    requires st.Valid() && st.pendingRoc != 0 && PI.Locate(st, q, None).Usable()
    ensures var e := st.pendingRoc * 0x1_0000 + q;
      var after := PI.Record(st, PI.Locate(st, q, None));
      PI.Locate(after, next, None).est
        == if e > st.db.index + 0x8000 then EstimateIndex(e, next).est else st.pendingRoc * 0x1_0000 + next
  {
    CounterIsUsed(st, q, None);
    var l := PI.Locate(st, q, None);
    if l.status == IndexAdvance { PI.AdvanceNeverMovesBack(st, q, None); }
  }

  /** st goes on from an earlier state with this counter: it decides about every packet that comes next. */
  ghost predicate GoesOnWith(st: PI.IndexState, roc: roc32, newest: nat) {
    && st.Valid() && st.db.index == newest
    && forall q: seqNum ::
         var l := PI.Locate(st, q, None);
         l.est == roc * 0x1_0000 + q && (l.Usable() ==> PI.Record(st, l).db.index == Max(newest, l.est))
  }

  lemma PendingGoesOn(st: PI.IndexState, roc: roc32)
    requires st.Valid() && roc != 0
    ensures GoesOnWith(st.(pendingRoc := roc), roc, st.db.index)
  {
    hide PI.Locate, PI.Record;
    forall q: seqNum
      ensures var r := st.(pendingRoc := roc);
        var l := PI.Locate(r, q, None);
        l.est == roc * 0x1_0000 + q && (l.Usable() ==> PI.Record(r, l).db.index == Max(st.db.index, l.est))
    {
      CounterIsUsed(st.(pendingRoc := roc), q, None);
    }
  }

  /** After srtp_stream_set_roc with a counter other than 0, the next packet of the stream has the index
      that this counter and its sequence number make, if that is new and in the window; the newest index
      moves up to it, however far ahead it is.  No other stream is touched. */
  lemma SetRocDecides(s: Session, ssrc: ssrc4, roc: roc32, i: nat, seen: set<nat>, q: seqNum)
    requires s.Valid() && roc != 0 && FindStream(s.streams, ssrc, 0) == Some(i)
    requires PI.Tracks(s.streams[i].st.db, seen)
    ensures var t := SetRoc(s, ssrc, roc);
      && FindStream(t.streams, ssrc, 0) == Some(i) && t.template == s.template && |t.streams| == |s.streams|
      && (forall j | 0 <= j < |s.streams| && j != i :: t.streams[j] == s.streams[j])
      && var x, db, e := t.streams[i], s.streams[i].st.db, roc * 0x1_0000 + q;
         var l := PI.Locate(x.st, q, None);
         && x.prot == s.streams[i].prot && x.rtcp == s.streams[i].rtcp && x.st.db == db
         && (l.Usable() <==> e !in seen && e > db.index - |db.bits|)
         && (l.Usable() ==> l.est == e && PI.Record(x.st, l).db.index == Max(db.index, e))
  {
    hide PI.Tracks, StreamState.Pristine, Protection.Valid;
    var t := SetRoc(s, ssrc, roc);
    FirstStream(t.streams, ssrc, i);
    var x, db := t.streams[i], s.streams[i].st.db;
    CounterIsUsed(x.st, q, None);
    var e := roc * 0x1_0000 + q;
    assert e % SEQ_MAX == q && e / SEQ_MAX == roc;
    PI.LocatesIffNew(x.st, seen, e, Some(roc));
  }

  lemma {:induction false} FirstStreamFrom(streams: seq<StreamState>, ssrc: ssrc4, i: nat, from: nat)
    requires from <= i < |streams| && streams[i].ssrc == ssrc
    requires forall j | from <= j < i :: streams[j].ssrc != ssrc
    ensures FindStream(streams, ssrc, from) == Some(i)
    decreases i - from
  {
    if from < i { FirstStreamFrom(streams, ssrc, i, from + 1); }
  }

  lemma FirstStream(streams: seq<StreamState>, ssrc: ssrc4, i: nat)
    requires i < |streams| && streams[i].ssrc == ssrc && forall j | 0 <= j < i :: streams[j].ssrc != ssrc
    ensures FindStream(streams, ssrc, 0) == Some(i)
  {
    FirstStreamFrom(streams, ssrc, i, 0);
  }

  // --- Which index and which key ----------------------------------------------------------------

  /** The stream that a packet of this SSRC belongs to, or the template. */
  function ServedBy(s: Session, ssrc: ssrc4): (x: StreamState)
    requires FindStream(s.streams, ssrc, 0).Some? || s.template.Some?
  {
    match FindStream(s.streams, ssrc, 0)
    case Some(i) => s.streams[i]
    case None => s.template.value
  }

  /** The position of that stream after the call; a new one is at the end. */
  function PlaceOf(s: Session, ssrc: ssrc4): (i: nat) {
    match FindStream(s.streams, ssrc, 0)
    case Some(i) => i
    case None => |s.streams|
  }

  /** x sends pkt as r: under the key with this number, at the index found from its own state. */
  ghost predicate SentBy(x: StreamState, mki: nat, pkt: seq<octet>, out: seq<octet>, inPlace: bool, r: seq<octet>)
    requires x.Valid() && ValidHeader(pkt)
  {
    var l := PI.LocateSend(x.st, SeqOf(pkt), x.allowRepeat);
    var k := if x.prot.cfg.mkiSize == 0 then 0 else mki;
    && x.dir != Receiver && l.Usable()
    && match x.prot
       case Cm(cfg, keys, _, _) =>
         var at, n := |pkt| + cfg.mkiSize, cfg.TagOut(SeqOf(pkt));
         k < |keys| && at + n <= |out| && ProtectPacket(cfg, keys[k], l.est, pkt, Sub(out, at, at + n)) == Success(r)
       case Gcm(cfg, keys, _, _) =>
         k < |keys| && GcmSends(cfg, keys[k], l.est, pkt, inPlace, r)
  }

  ghost predicate GcmSends(cfg: Config, key: AeadKey, est: nat, pkt: seq<octet>, inPlace: bool, r: seq<octet>)
    requires cfg.Valid() && ValidHeader(pkt)
  {
    IsAead(key.aead, cfg.tagLen) && ProtectAead(cfg, key, est, pkt, inPlace) == Success(r)
  }

  lemma SentOn(x: StreamState, mki: nat, pkt: seq<octet>, out: seq<octet>, inPlace: bool)
    requires x.Valid() && ValidHeader(pkt) && x.dir != Receiver && SendOn(x, mki, pkt, out, inPlace).1.Success?
    ensures var r := SendOn(x, mki, pkt, out, inPlace);
      && SentBy(x, mki, pkt, out, inPlace, r.1.value)
      && r.0 == PI.Record(x.st, PI.LocateSend(x.st, SeqOf(pkt), x.allowRepeat))
  {
    hide ValidHeader, SeqOf, PI.LocateSend, PI.Record, ProtectPacket, ProtectAead, Cc, HasXtn, IsAead, Sub,
         Config.TagOut, RocLen;
    if x.prot.Gcm? { assert x.prot.GcmKeysFit(KeyIndex(x.prot, mki).value); }
  }

  lemma CloneOfPristine(t: StreamState, ssrc: ssrc4)
    requires t.Pristine()
    ensures Clone(t, ssrc) == t.(ssrc := ssrc)
  {
    hide Protection.Valid;
    assert ClearBits(|t.st.db.bits|) == t.st.db.bits;
  }

  lemma DirectionDoesNotCount(x: StreamState, ssrc: ssrc4, mki: nat, pkt: seq<octet>, out: seq<octet>, inPlace: bool,
                              r: seq<octet>)
    requires x.Valid() && ValidHeader(pkt) && x.dir != Receiver
    ensures SentBy(x.(ssrc := ssrc, dir := Sender), mki, pkt, out, inPlace, r) == SentBy(x, mki, pkt, out, inPlace, r)
  {
    hide ValidHeader, SeqOf, PI.LocateSend, ProtectPacket, GcmSends, Sub, Protection.Valid, Config.Valid;
  }

  /** What srtp_protect sends, and which stream it is sent on: the one of its SSRC, or a new one with
      the settings, keys and empty databases of the template.  Only that stream changes. */
  lemma SentIs(s: Session, mki: nat, pkt: seq<octet>, out: seq<octet>, inPlace: bool)
    requires s.Valid() && Protect(s, mki, pkt, out, inPlace).1.Success?
    ensures ValidHeader(pkt) && |pkt| >= 12
    ensures var ssrc, (t, r) := SsrcOf(pkt), Protect(s, mki, pkt, out, inPlace);
      && (FindStream(s.streams, ssrc, 0).Some? || s.template.Some?)
      && var x, j := ServedBy(s, ssrc), PlaceOf(s, ssrc);
         && x.Valid() && SentBy(x, mki, pkt, out, inPlace, r.value)
         && t.template == s.template && |t.streams| == Max(|s.streams|, j + 1)
         && (forall i | 0 <= i < |s.streams| && i != j :: t.streams[i] == s.streams[i])
         && t.streams[j] == StreamState(ssrc, x.prot, x.allowRepeat,
                                        PI.Record(x.st, PI.LocateSend(x.st, SeqOf(pkt), x.allowRepeat)), x.rtcp, Sender)
  {
    hide ValidHeader, SeqOf, SsrcOf, SendOn, SentBy, PI.LocateSend, PI.Record, Protection.Valid;
    LayoutFields(pkt);
    var ssrc := SsrcOf(pkt);
    var (u, i) := ForSending(s, ssrc).value;
    var x := ServedBy(s, ssrc);
    if s.template.Some? { CloneOfPristine(s.template.value, ssrc); }
    assert u.streams[i] == x.(ssrc := ssrc, dir := Sender);
    SentOn(u.streams[i], mki, pkt, out, inPlace);
    DirectionDoesNotCount(x, ssrc, mki, pkt, out, inPlace, Protect(s, mki, pkt, out, inPlace).1.value);
  }

  /** k is the number of the first key with the MKI in front of the last n octets. */
  ghost predicate Selects(mkiSize: nat, mkis: seq<seq<octet>>, sp: seq<octet>, n: nat, k: nat) {
    && k < |mkis|
    && if mkiSize == 0 then k == 0
       else
         && n + mkiSize <= |sp|
         && var mki := sp[|sp| - n - mkiSize..|sp| - n];
            mkis[k] == mki && forall j | 0 <= j < k :: mkis[j] != mki
  }

  lemma {:induction false} FindMkiIs(mkis: seq<seq<octet>>, mki: seq<octet>, from: nat)
    requires from <= |mkis|
    ensures var r := FindMki(mkis, mki, from);
      if r.Some? then
        from <= r.value < |mkis| && mkis[r.value] == mki && forall j | from <= j < r.value :: mkis[j] != mki
      else forall j | from <= j < |mkis| :: mkis[j] != mki
    decreases |mkis| - from
  {
    if from < |mkis| { FindMkiIs(mkis, mki, from + 1); }
  }

  lemma SelectKeyIs(mkiSize: nat, mkis: seq<seq<octet>>, sp: seq<octet>, n: nat)
    requires SelectKey(mkiSize, mkis, sp, n).Success?
    ensures Selects(mkiSize, mkis, sp, n, SelectKey(mkiSize, mkis, sp, n).value)
  {
    hide FindMki;
    if mkiSize > 0 { FindMkiIs(mkis, sp[|sp| - n - mkiSize..|sp| - n], 0); }
  }

  predicate Carrying(cfg: Config, q: nat)
    requires cfg.rate >= 1
  {
    cfg.rcc != RccNone && q % cfg.rate == 0
  }

  /** The counter that a packet carries: in front of its shortened tag, or under AES-GCM at its end. */
  function CounterIn(cfg: Config, sp: seq<octet>, q: nat): (r: Option<roc32>)
    requires cfg.rate >= 1 && (Carrying(cfg, q) ==> |sp| >= 4 && (!cfg.gcm ==> |sp| >= cfg.tagLen >= 4))
  {
    if !Carrying(cfg, q) then None else
    var at := if cfg.gcm then |sp| - 4 else |sp| - cfg.tagLen;
    Some(SF.WordAt(sp, at))
  }

  /** x accepts sp as p: with the key that its MKI selects, at the place found from its state and the
      counter that the packet carries. */
  ghost predicate ReceivedBy(x: StreamState, sp: seq<octet>, cap: nat, inPlace: bool, k: nat, l: PI.Located,
                             p: seq<octet>)
    requires x.Valid() && ValidHeader(sp)
  {
    var cfg, q := x.prot.cfg, SeqOf(sp);
    && x.dir != Sender && l.Usable()
    && (Carrying(cfg, q) ==> |sp| >= 4 && (!cfg.gcm ==> |sp| >= cfg.tagLen >= 4))
    && l == PI.Locate(x.st, q, CounterIn(cfg, sp, q))
    && match x.prot
       case Cm(_, keys, _, _) =>
         && Selects(cfg.mkiSize, Mkis(keys), sp, if cfg.rcc == Rcc1 && !Carrying(cfg, q) then 0 else cfg.tagLen, k)
         && Open(cfg, keys[k], l.est, sp, cap, inPlace) == Success(p)
       case Gcm(_, keys, _, _) =>
         && Selects(cfg.mkiSize, AeadMkis(keys), sp, if Carrying(cfg, q) then 4 else 0, k)
         && GcmOpens(cfg, keys[k], l.est, sp, cap, inPlace, p)
  }

  ghost predicate GcmOpens(cfg: Config, key: AeadKey, est: nat, sp: seq<octet>, cap: nat, inPlace: bool, p: seq<octet>)
    requires cfg.Valid() && ValidHeader(sp)
  {
    IsAead(key.aead, cfg.tagLen) && OpenAead(cfg, key, est, sp, cap, inPlace) == Success(p)
  }

  lemma ReceivedCm(x: StreamState, sp: seq<octet>, cap: nat, inPlace: bool) returns (k: nat)
    requires x.Valid() && x.prot.Cm? && x.dir != Sender && ReceiveOn(x, sp, cap, inPlace).Success?
    ensures ValidHeader(sp)
    ensures var r := ReceiveOn(x, sp, cap, inPlace).value; ReceivedBy(x, sp, cap, inPlace, k, r.at, r.pkt)
  {
    hide ValidHeader, SeqOf, PI.Locate, SrtpPackets.Open, SelectKey, Selects, Value;
    LayoutFields(sp);
    var cfg, q := x.prot.cfg, SeqOf(sp);
    SelectKeyIs(cfg.mkiSize, Mkis(x.prot.keys), sp, Trailing(cfg, q));
    k := SelectKey(cfg.mkiSize, Mkis(x.prot.keys), sp, Trailing(cfg, q)).value;
    if Carrying(cfg, q) { SF.WordIs(sp, |sp| - cfg.tagLen); }
  }

  lemma ReceivedGcm(x: StreamState, sp: seq<octet>, cap: nat, inPlace: bool) returns (k: nat)
    requires x.Valid() && x.prot.Gcm? && x.dir != Sender && ReceiveOn(x, sp, cap, inPlace).Success?
    ensures ValidHeader(sp)
    ensures var r := ReceiveOn(x, sp, cap, inPlace).value; ReceivedBy(x, sp, cap, inPlace, k, r.at, r.pkt)
  {
    hide ValidHeader, SeqOf, PI.Locate, OpenAead, SelectKey, Selects, Value, IsAead;
    AllAead(x.prot);
    LayoutFields(sp);
    var cfg, q := x.prot.cfg, SeqOf(sp);
    SelectKeyIs(cfg.mkiSize, AeadMkis(x.prot.aeadKeys), sp, Trailing(cfg, q));
    k := SelectKey(cfg.mkiSize, AeadMkis(x.prot.aeadKeys), sp, Trailing(cfg, q)).value;
    assert x.prot.aeadKeys[k] in x.prot.aeadKeys;
    if Carrying(cfg, q) { SF.WordIs(sp, |sp| - 4); }
  }

  /** What srtp_unprotect accepts, and on which stream: the one of its SSRC, or a new one with the
      settings and keys of the template.  Only that stream changes. */
  lemma ReceivedIs(s: Session, sp: seq<octet>, cap: nat, inPlace: bool) returns (k: nat, l: PI.Located)
    requires s.Valid() && Unprotect(s, sp, cap, inPlace).1.Success?
    ensures ValidHeader(sp) && |sp| >= 12 && l.Usable()
    ensures var ssrc, (t, r) := SsrcOf(sp), Unprotect(s, sp, cap, inPlace);
      && (FindStream(s.streams, ssrc, 0).Some? || s.template.Some?)
      && var x, j := ServedBy(s, ssrc), PlaceOf(s, ssrc);
         && x.Valid() && (l.status == Ok ==> |x.st.db.bits| - 1 + l.delta >= 0)
         && ReceivedBy(x, sp, cap, inPlace, k, l, r.value)
         && t.template == s.template && |t.streams| == Max(|s.streams|, j + 1)
         && (forall i | 0 <= i < |s.streams| && i != j :: t.streams[i] == s.streams[i])
         && t.streams[j] == StreamState(ssrc, x.prot, x.allowRepeat, PI.Record(x.st, l), x.rtcp, Receiver)
  {
    hide ValidHeader, SeqOf, SsrcOf, ReceivedBy, PI.Locate, PI.Record, Protection.Valid, ReceiveOn;
    LayoutFields(sp);
    var ssrc := SsrcOf(sp);
    var x := ServedBy(s, ssrc);
    if s.template.Some? { CloneOfPristine(s.template.value, ssrc); }
    l := ReceiveOn(x, sp, cap, inPlace).value.at;
    if x.prot.Cm? {
      k := ReceivedCm(x, sp, cap, inPlace);
    } else {
      k := ReceivedGcm(x, sp, cap, inPlace);
    }
  }

  /** Two calls: after srtp_stream_set_roc, the next packet that is sent on the stream has the index that
      the counter and its sequence number make, and the stream goes on from there. */
  lemma SentAfterSetRoc(s: Session, ssrc: ssrc4, roc: roc32, i: nat, mki: nat, pkt: seq<octet>, out: seq<octet>,
                        inPlace: bool)
    requires s.Valid() && roc != 0 && FindStream(s.streams, ssrc, 0) == Some(i)
    requires Protect(SetRoc(s, ssrc, roc), mki, pkt, out, inPlace).1.Success?
    requires ValidHeader(pkt) && |pkt| >= 12 && SsrcOf(pkt) == ssrc
    ensures var x := SetRoc(s, ssrc, roc).streams[i];
      var (t, r) := Protect(SetRoc(s, ssrc, roc), mki, pkt, out, inPlace);
      var e := roc * 0x1_0000 + SeqOf(pkt);
      && SentBy(x, mki, pkt, out, inPlace, r.value)
      && PI.LocateSend(x.st, SeqOf(pkt), x.allowRepeat).est == e
      && |t.streams| == |s.streams| && t.streams[i].st.db.index == Max(s.streams[i].st.db.index, e)
  {
    hide ValidHeader, SeqOf, SsrcOf, PI.Locate, PI.Record, Protect, ProtectPacket, GcmSends, Protection.Valid,
         StreamState.Pristine, PI.LocateSend;
    var t := SetRoc(s, ssrc, roc);
    FirstStream(t.streams, ssrc, i);
    SentIs(t, mki, pkt, out, inPlace);
    RepeatsAtCounter(t.streams[i].st, SeqOf(pkt), t.streams[i].allowRepeat);
  }

  lemma RepeatsAtCounter(st: PI.IndexState, q: seqNum, allowRepeat: bool)
    requires st.Valid() && st.pendingRoc != 0
    ensures var l := PI.LocateSend(st, q, allowRepeat);
      && l.est == st.pendingRoc * 0x1_0000 + q
      && (l.Usable() ==> PI.Record(st, l).db.index == Max(st.db.index, l.est))
  {
    CounterIsUsed(st, q, None);
    var l := PI.LocateSend(st, q, allowRepeat);
    if l.Usable() && !PI.Locate(st, q, None).Usable() {
      assert l.delta <= 0;
    }
  }

  /** And the next packet that is received on it, unless the packet carries a counter itself. */
  lemma ReceivedAfterSetRoc(s: Session, ssrc: ssrc4, roc: roc32, i: nat, sp: seq<octet>, cap: nat, inPlace: bool)
    returns (k: nat, l: PI.Located)
    requires s.Valid() && roc != 0 && FindStream(s.streams, ssrc, 0) == Some(i)
    requires Unprotect(SetRoc(s, ssrc, roc), sp, cap, inPlace).1.Success?
    requires ValidHeader(sp) && |sp| >= 12 && SsrcOf(sp) == ssrc
    requires s.streams[i].prot.cfg.Valid() && !Carrying(s.streams[i].prot.cfg, SeqOf(sp))
    ensures var x := SetRoc(s, ssrc, roc).streams[i];
      var (t, r) := Unprotect(SetRoc(s, ssrc, roc), sp, cap, inPlace);
      && ReceivedBy(x, sp, cap, inPlace, k, l, r.value) && l.est == roc * 0x1_0000 + SeqOf(sp)
      && |t.streams| == |s.streams| && t.streams[i].st.db.index == Max(s.streams[i].st.db.index, l.est)
  {
    hide ValidHeader, SeqOf, SsrcOf, PI.Locate, PI.Record, Unprotect, Protection.Valid, StreamState.Pristine, Open,
         OpenAead, Selects, Carrying;
    var t := SetRoc(s, ssrc, roc);
    FirstStream(t.streams, ssrc, i);
    k, l := ReceivedIs(t, sp, cap, inPlace);
    CounterIsUsed(t.streams[i].st, SeqOf(sp), None);
  }

  // --- Control packets ------------------------------------------------------------------------

  /** x sends this control packet as r: with the next index, under the key with this number. */
  ghost predicate ControlSentBy(x: StreamState, mki: nat, pkt: seq<octet>, r: seq<octet>)
    requires x.Valid() && |pkt| >= 8
  {
    var i, k := x.rtcp.start + 1, if x.prot.cfg.mkiSize == 0 then 0 else mki;
    && x.dir != Receiver && i < RtcpReplay.RTCP_INDEX_MAX
    && match x.prot
       case Cm(_, _, cfg, keys) => k < |keys| && SP.ProtectRtcp(cfg, keys[k], i, pkt) == Success(r)
       case Gcm(_, _, cfg, keys) => k < |keys| && SP.ProtectRtcpAead(cfg, keys[k], i, pkt) == r
  }

  /** What srtp_protect_rtcp sends, and on which stream. */
  lemma ControlSentIs(s: Session, mki: nat, pkt: seq<octet>, cap: nat)
    requires s.Valid() && ProtectControl(s, mki, pkt, cap).1.Success?
    ensures |pkt| >= 8
    ensures var ssrc, (t, r) := pkt[4..8], ProtectControl(s, mki, pkt, cap);
      && (FindStream(s.streams, ssrc, 0).Some? || s.template.Some?)
      && var x, j := ServedBy(s, ssrc), PlaceOf(s, ssrc);
         && x.Valid() && ControlSentBy(x, mki, pkt, r.value)
         && t.template == s.template && |t.streams| == Max(|s.streams|, j + 1)
         && (forall i | 0 <= i < |s.streams| && i != j :: t.streams[i] == s.streams[i])
         && t.streams[j] == StreamState(ssrc, x.prot, x.allowRepeat, x.st, RtcpReplay.Incremented(x.rtcp), Sender)
  {
    hide SendRtcpOn, ControlSentBy, RtcpReplay.Incremented, Protection.Valid;
    var ssrc := SP.RtcpSsrc(pkt);
    var (u, i) := ForSending(s, ssrc).value;
    var x := ServedBy(s, ssrc);
    if s.template.Some? { CloneOfPristine(s.template.value, ssrc); }
    assert u.streams[i] == x.(ssrc := ssrc, dir := Sender);
    ControlSentOn(x, ssrc, mki, pkt, cap);
  }

  lemma ControlSentOn(x: StreamState, ssrc: ssrc4, mki: nat, pkt: seq<octet>, cap: nat)
    requires x.Valid() && |pkt| >= 8 && x.dir != Receiver
    requires SendRtcpOn(x.(ssrc := ssrc, dir := Sender), mki, pkt, cap).1.Success?
    ensures !RtcpReplay.Expired(x.rtcp)
    ensures var r := SendRtcpOn(x.(ssrc := ssrc, dir := Sender), mki, pkt, cap);
      ControlSentBy(x, mki, pkt, r.1.value) && r.0 == RtcpReplay.Incremented(x.rtcp)
  {
    hide SP.ProtectRtcp, SP.ProtectRtcpAead, RtcpReplay.Incremented;
  }

  /** x accepts this control packet as p, with this index: the key is the one that its MKI selects. */
  ghost predicate ControlReceivedBy(x: StreamState, sp: seq<octet>, cap: nat, k: nat, p: seq<octet>, i: nat)
    requires x.Valid()
  {
    var cfg := x.prot.rtcpCfg;
    && x.dir != Sender && i < RtcpReplay.RTCP_INDEX_MAX
    && match x.prot
       case Cm(_, _, _, keys) =>
         && Selects(cfg.mkiSize, SP.RtcpMkis(keys), sp, cfg.tagLen, k)
         && SP.OpenRtcp(cfg, keys[k], x.rtcp, sp, cap) == Success((p, i))
       case Gcm(_, _, _, keys) =>
         && Selects(cfg.mkiSize, SP.RtcpAeadMkis(keys), sp, 0, k)
         && SP.OpenRtcpAead(cfg, keys[k], x.rtcp, sp, cap) == Success((p, i))
  }

  lemma ControlReceivedOn(x: StreamState, sp: seq<octet>, cap: nat) returns (k: nat)
    requires x.Valid() && x.dir != Sender && ReceiveRtcpOn(x, sp, cap).Success?
    ensures var r := ReceiveRtcpOn(x, sp, cap).value; ControlReceivedBy(x, sp, cap, k, r.0, r.1)
  {
    hide SP.OpenRtcp, SP.OpenRtcpAead, SelectKey, Selects;
    match x.prot
    case Cm(_, _, cfg, keys) =>
      SelectKeyIs(cfg.mkiSize, SP.RtcpMkis(keys), sp, cfg.tagLen);
      k := SelectKey(cfg.mkiSize, SP.RtcpMkis(keys), sp, cfg.tagLen).value;
    case Gcm(_, _, cfg, keys) =>
      SelectKeyIs(cfg.mkiSize, SP.RtcpAeadMkis(keys), sp, 0);
      k := SelectKey(cfg.mkiSize, SP.RtcpAeadMkis(keys), sp, 0).value;
  }

  /** What srtp_unprotect_rtcp accepts, and on which stream. */
  lemma ControlReceivedIs(s: Session, sp: seq<octet>, cap: nat) returns (k: nat, i: RtcpReplay.rtcpIndex)
    requires s.Valid() && UnprotectControl(s, sp, cap).1.Success?
    ensures |sp| >= 12
    ensures var ssrc, (t, r) := sp[4..8], UnprotectControl(s, sp, cap);
      && (FindStream(s.streams, ssrc, 0).Some? || s.template.Some?)
      && var x, j := ServedBy(s, ssrc), PlaceOf(s, ssrc);
         && x.Valid() && i >= x.rtcp.start && ControlReceivedBy(x, sp, cap, k, r.value, i)
         && t.template == s.template && |t.streams| == Max(|s.streams|, j + 1)
         && (forall m | 0 <= m < |s.streams| && m != j :: t.streams[m] == s.streams[m])
         && t.streams[j] == StreamState(ssrc, x.prot, x.allowRepeat, x.st, RtcpReplay.AddRtcp(x.rtcp, i), Receiver)
  {
    hide ReceiveRtcpOn, ControlReceivedBy, RtcpReplay.AddRtcp, Protection.Valid;
    var ssrc := SP.RtcpSsrc(sp);
    var x := ServedBy(s, ssrc);
    if s.template.Some? { CloneOfPristine(s.template.value, ssrc); }
    i := ReceiveRtcpOn(x, sp, cap).value.1;
    k := ControlReceivedOn(x, sp, cap);
  }

  // --- Authenticity ---------------------------------------------------------------------------

  /** Whatever srtp_unprotect accepts with the authentication service on ends in the tag that a key of
      the stream gives to the packet and the rollover counter of its index. */
  lemma AcceptedIsAuthentic(s: Session, sp: seq<octet>, cap: nat, inPlace: bool) returns (k: nat, l: PI.Located)
    requires s.Valid() && Unprotect(s, sp, cap, inPlace).1.Success?
    ensures ValidHeader(sp) && |sp| >= 12
    ensures FindStream(s.streams, SsrcOf(sp), 0).Some? || s.template.Some?
    ensures var prot := ServedBy(s, SsrcOf(sp)).prot;
      var cfg, q := prot.cfg, SeqOf(sp);
      && cfg.Valid() && cfg.gcm == prot.Gcm?
      && (prot.Cm? && cfg.auth && cfg.tagLen > 0 && (cfg.rcc == Rcc1 ==> Carrying(cfg, q)) ==>
            k < |prot.keys| && AuthenticAt(cfg, prot.keys[k], l.est, sp, q))
  {
    hide ValidHeader, SsrcOf, Unprotect, SeqOf, AuthenticAt, FindStream;
    k, l := ReceivedIs(s, sp, cap, inPlace);
    TagOfReceived(ServedBy(s, SsrcOf(sp)), sp, cap, inPlace, k, l, Unprotect(s, sp, cap, inPlace).1.value);
  }

  /** sp ends in the tag that this key gives to it and the rollover counter of this index. */
  ghost predicate AuthenticAt(cfg: Config, key: Key, est: nat, sp: seq<octet>, q: nat)
    requires cfg.Valid() && !cfg.gcm
  {
    var n, end := cfg.tagLen, |sp| - cfg.tagLen - cfg.mkiSize;
    && end >= 0
    && var m := key.mac(sp[..end] + BigEndian(est / 0x1_0000, 4));
       if Carrying(cfg, q) then sp[|sp| - n + 4..] == m[..n - 4] else sp[|sp| - n..] == m[..n]
  }

  lemma TagOfReceived(x: StreamState, sp: seq<octet>, cap: nat, inPlace: bool, k: nat, l: PI.Located, p: seq<octet>)
    requires x.Valid() && ValidHeader(sp) && |sp| >= 12 && ReceivedBy(x, sp, cap, inPlace, k, l, p)
    ensures var cfg, q := x.prot.cfg, SeqOf(sp);
      x.prot.Cm? && cfg.auth && cfg.tagLen > 0 && (cfg.rcc == Rcc1 ==> Carrying(cfg, q)) ==>
        k < |x.prot.keys| && AuthenticAt(cfg, x.prot.keys[k], l.est, sp, q)
  {
    hide ValidHeader, PI.Locate, Open, OpenAead, BigEndian, SeqOf, CounterIn;
    W.HeaderIs(sp);
    if x.prot.Cm? { W.TagDecides(x.prot.cfg, x.prot.keys[k], l.est, sp, cap, inPlace); }
  }

  // --- Re-keying ------------------------------------------------------------------------------

  /** A stream of the old template goes on with the keys and settings of the new one: the next packet has
      the index that it would have had, and passes if the new window reaches back to it.  Other streams
      are left alone. */
  lemma RekeyedGoesOn(x: StreamState, t: StreamState, q: seqNum)
    requires x.Valid() && t.Valid() && x.st.pendingRoc == 0
    ensures Rekey(x, false, t) == x
    ensures var r, before := Rekey(x, true, t), PI.Locate(x.st, q, None);
      var l := PI.Locate(r.st, q, None);
      && r.ssrc == x.ssrc && r.prot == t.prot && r.allowRepeat == t.allowRepeat && r.dir == t.dir && r.rtcp == x.rtcp
      && l.est == before.est && l.delta == before.delta
      && (l.Usable() <==> l.delta > -|t.st.db.bits|)
  {
    hide Protection.Valid;
  }

  // --- Trailer lengths ------------------------------------------------------------------------

  /** Exactly the packets that carry all that they can grow by the trailer length of their stream: in
      mode 1 only carrying packets have a tag, and in mode 3 only they have a counter. */
  lemma GrowsByTrailer(x: StreamState, mki: nat, pkt: seq<octet>, out: seq<octet>, inPlace: bool)
    requires x.Valid() && ValidHeader(pkt) && x.dir != Receiver && StreamTrailer(x, true, mki).Success?
    requires SendOn(x, mki, pkt, out, inPlace).1.Success?
    ensures var cfg, n, m := x.prot.cfg, |SendOn(x, mki, pkt, out, inPlace).1.value|, StreamTrailer(x, true, mki).value;
      if (cfg.rcc == Rcc1 || cfg.rcc == Rcc3) && SeqOf(pkt) % cfg.rate != 0
      then n == |pkt| + m - if cfg.rcc == Rcc1 then cfg.tagLen else 4
      else n == |pkt| + m
  {
    hide ValidHeader, SeqOf, SsrcOf, SendOn, PI.LocateSend, PI.Record, Protected, SealBody, IsAead, CmIv, RocOctets,
         Tag;
    SentOn(x, mki, pkt, out, inPlace);
    LayoutFields(pkt);
    var k := if x.prot.cfg.mkiSize == 0 then 0 else mki;
    match x.prot
    case Cm(cfg, keys, _, _) => assert KeyFits(cfg, keys[k]);
    case Gcm(_, _, _, _) => assert x.prot.GcmKeysFit(k);
  }

  /** The reported length is the trailer length of some stream, or of the template, for this key. */
  lemma TrailerIsReached(s: Session, rtp: bool, mki: nat)
    requires s.Valid() && TrailerLength(s, rtp, mki).Success? && TrailerLength(s, rtp, mki).value > 0
    ensures exists x ::
      && (x in s.streams || s.template == Some(x))
      && x.Valid() && StreamTrailer(x, rtp, mki) == TrailerLength(s, rtp, mki)
  {
    hide StreamTrailer, Protection.Valid;
    LongestIsReached(s, rtp, mki, |s.streams|);
  }

  lemma {:induction false} LongestIsReached(s: Session, rtp: bool, mki: nat, n: nat)
    requires s.Valid() && n <= |s.streams|
    ensures var l := LongestTrailer(s, rtp, mki, n);
      l.Some? && l.value > 0 ==> exists x ::
        && (x in s.streams || s.template == Some(x))
        && x.Valid() && StreamTrailer(x, rtp, mki) == Success(l.value)
  {
    hide StreamTrailer, Protection.Valid;
    if n > 0 {
      LongestIsReached(s, rtp, mki, n - 1);
      assert s.streams[n - 1] in s.streams;
    }
  }
}
