/** srtp_protect_rtcp and srtp_unprotect_rtcp on packet buffers (srtp/srtp.c). */
module SrtcpCode {
  import opened Results
  import opened Octets
  import opened Replay
  import opened RtcpReplay
  import opened BitVectors
  import opened Ciphers
  import opened SrtpBodies
  import opened SrtcpPackets
  import opened Cryptex
  import opened SrtpCode
  import SP = SrtpPackets
  import A = AeadPackets

  /** Two writes behind the packet, in either order. */
  lemma WritesBehind(s: seq<octet>, n: nat, at: nat, x: seq<octet>, bt: nat, y: seq<octet>, lo: nat, hi: nat)
    requires lo <= hi <= n <= at && bt >= n && at + |x| <= |s| && bt + |y| <= |s|
    ensures Sub(Patch(Patch(s, at, x), bt, y), lo, hi) == Sub(s, lo, hi)
  {
    hide Sub, Patch;
    SubOfPatch(s, at, x, lo, hi);
    SubOfPatch(Patch(s, at, x), bt, y, lo, hi);
  }

  /** The packet is in place, and MKI and trailer are behind it. */
  method WriteTrailer(dst: array<octet>, src: array<octet>, n: nat, gap: nat, word: seq<octet>, mki: seq<octet>,
                      split: nat,
                      ghost pkt: seq<octet>)
    requires |pkt| == n && Holds(pkt, split, src, dst) && |word| == RTCP_TRAILER
    requires n + gap + RTCP_TRAILER + |mki| <= dst.Length
    modifies dst
    ensures Holds(pkt, split, src, dst)
    ensures Sub(dst[..], n + gap, n + gap + RTCP_TRAILER) == word
    ensures Sub(dst[..], n + gap + RTCP_TRAILER, n + gap + RTCP_TRAILER + |mki|) == mki
  {
    hide Sub, Patch;
    ghost var was := dst[..];
    var a, b := n + gap, n + gap + RTCP_TRAILER;
    WritesBehind(was, n, b, mki, a, word, 0, split);
    WritesBehind(was, n, b, mki, a, word, split, n);
    SubOfPatch(was, b, mki, b, b + |mki|);
    SubOfPatch(Patch(was, b, mki), a, word, b, b + |mki|);
    SubOfPatch(Patch(was, b, mki), a, word, a, b);
    Write(dst, b, mki);
    Write(dst, a, word);
    assert src != dst ==> src[..] == old(src[..]);
  }

  lemma TrailerKept(was: seq<octet>, mid: seq<octet>, b: seq<octet>, word: seq<octet>, mki: seq<octet>)
    requires |b| + |word| + |mki| <= |mid| == |was| && Sub(mid, 0, |b|) == b
    requires Sub(mid, |b|, |mid|) == Sub(was, |b|, |was|)
    requires Sub(was, |b|, |b| + |word|) == word && Sub(was, |b| + |word|, |b| + |word| + |mki|) == mki
    ensures Sub(mid, 0, |b| + |word|) == b + word
    ensures Sub(mid, |b| + |word|, |b| + |word| + |mki|) == mki
  {
    hide Sub;
    var n := |b|;
    SubOfSub(mid, n, |mid|, 0, |word|);
    SubOfSub(was, n, |was|, 0, |word|);
    SubOfSub(mid, n, |mid|, |word|, |word| + |mki|);
    SubOfSub(was, n, |was|, |word|, |word| + |mki|);
    SubConcat(mid, 0, n, n + |word|);
  }

  /** The tag over the first n octets, written behind the MKI. */
  method WriteRtcpTag(cfg: RtcpConfig, key: RtcpKey, buf: array<octet>, n: nat)
    requires cfg.Valid() && |key.mki| == cfg.mkiSize && n + cfg.mkiSize + cfg.tagLen <= buf.Length
    requires Sub(buf[..], n, n + cfg.mkiSize) == key.mki
    modifies buf
    ensures var b := Sub(old(buf[..]), 0, n);
      Sub(buf[..], 0, n + cfg.mkiSize + cfg.tagLen) == b + key.mki + Sub(key.mac(b), 0, cfg.tagLen)
  {
    hide Sub, Patch;
    ghost var was := buf[..];
    var end := n + cfg.mkiSize;
    var tag := Sub(key.mac(Sub(buf[..], 0, n)), 0, cfg.tagLen);
    Write(buf, end, tag);
    SubOfPatch(was, end, tag, 0, n);
    SubOfPatch(was, end, tag, n, end);
    SubOfPatch(was, end, tag, end, end + cfg.tagLen);
    FinishedPacket(buf[..], Sub(was, 0, n), key.mki, tag);
  }

  /** The part of srtp_protect_rtcp behind the index. */
  method Seal(cfg: RtcpConfig, key: RtcpKey, cipher: Cipher, i: rtcpIndex, rtcp: array<octet>, n: nat,
              srtcp: array<octet>,
              ghost pkt: seq<octet>)
    returns (err: Option<Error>)
    requires cfg.Valid() && cipher.Valid() && cipher.key == key.cipher && |key.mki| == cfg.mkiSize
    requires RTCP_HEADER <= n == |pkt| <= OBJECT_MAX && Holds(pkt, RTCP_HEADER, rtcp, srtcp)
    requires n + RTCP_TRAILER + cfg.mkiSize + cfg.tagLen <= srtcp.Length
    modifies srtcp, cipher
    ensures cipher.Valid()
    ensures var r := ProtectRtcp(cfg, key, i, pkt);
      && err == ErrorOf(r)
      && (r.Success? ==> |r.value| == n + RTCP_TRAILER + cfg.mkiSize + cfg.tagLen
                         && Sub(srtcp[..], 0, |r.value|) == r.value)
  {
    hide Sub, Patch, Trailer, RtcpIv, RtcpSsrc, CryptRange, Reaches, Encipher, Cipher.Valid;
    var word := Trailer(cfg.conf, i);
    WriteTrailer(srtcp, rtcp, n, 0, word, key.mki, RTCP_HEADER, pkt);
    SameSsrc(srtcp[..], pkt, RTCP_HEADER);
    cipher.SetIv(RtcpIv(RtcpSsrc(srtcp[..]), i));
    ghost var was := srtcp[..];
    err := CryptRest(cfg.conf, cipher, rtcp, n, srtcp, RTCP_HEADER, pkt);
    if err.Some? { return; }
    TrailerKept(was, srtcp[..], Sub(srtcp[..], 0, n), word, key.mki);
    WriteRtcpTag(cfg, key, srtcp, n + RTCP_TRAILER);
  }

  /** srtp_protect_rtcp on one stream; the output may be the input buffer. */
  method Protect(cfg: RtcpConfig, key: RtcpKey, cipher: Cipher, db: RtcpDb,
                 rtcp: array<octet>, n: nat, srtcp: array<octet>, cap: nat)
    returns (r: Result<nat>)
    requires cfg.Valid() && cipher.Valid() && cipher.key == key.cipher && |key.mki| == cfg.mkiSize && db.View().Valid()
    requires n <= rtcp.Length && n <= OBJECT_MAX && cap <= srtcp.Length
    modifies srtcp, cipher, db
    ensures cipher.Valid()
    ensures var sent := SendRtcp(cfg, key, old(db.View()), Sub(old(rtcp[..]), 0, n), cap);
      && db.View() == sent.0
      && (match r
          case Failure(e) => sent.1 == Failure(e)
          case Success(m) => m <= cap && sent.1 == Success(Sub(srtcp[..], 0, m)))
  {
    hide Sub, ProtectRtcp, Flatten;
    if n < RTCP_HEADER { return Failure(BadParam); }
    var end := n + RTCP_TRAILER + cfg.mkiSize + cfg.tagLen;
    if cap < end { return Failure(BufferSmall); }
    CopyStart(rtcp, n, srtcp, RTCP_HEADER);
    var ok := db.Increment();
    if !ok { return Failure(KeyExpired); }
    var err := Seal(cfg, key, cipher, db.start, rtcp, n, srtcp, Sub(old(rtcp[..]), 0, n));
    if err.Some? { return Failure(err.value); }
    r := Success(end);
  }

  /** The part of srtp_unprotect_rtcp behind the choice of the key. */
  method OpenPacket(cfg: RtcpConfig, key: RtcpKey, cipher: Cipher, db: RtcpDb, srtcp: array<octet>, n: nat,
                    rtcp: array<octet>, cap: nat)
    returns (r: Result<nat>, i: rtcpIndex)
    requires cfg.Valid() && db.View().Valid() && cipher.Valid() && cipher.key == key.cipher
    requires n <= srtcp.Length && n <= OBJECT_MAX && cap <= rtcp.Length
    modifies rtcp, cipher
    ensures cipher.Valid()
    ensures var got := OpenRtcp(cfg, key, db.View(), Sub(old(srtcp[..]), 0, n), cap);
      match r
      case Failure(e) => got == Failure(e)
      case Success(m) => m <= rtcp.Length && got == Success((Sub(rtcp[..], 0, m), i))
  {
    hide Sub, EBit, IndexIn, RtcpIv, RtcpSsrc, CryptRange, Reaches, CheckRtcp, Flatten;
    var sp := Sub(srtcp[..], 0, n);
    i := 0;
    if n < RTCP_HEADER + RTCP_TRAILER + cfg.mkiSize + cfg.tagLen { return Failure(BadParam), i; }
    var end := n - cfg.tagLen - cfg.mkiSize - RTCP_TRAILER;
    var word := Sub(sp, end, end + RTCP_TRAILER);
    if EBit(word) != cfg.conf { return Failure(CantCheck), i; }
    i := IndexIn(word);
    var status := db.Check(i);
    if status != Ok { return Failure(SP.IndexError(status)), i; }
    SubOfSub(srtcp[..], 0, n, 0, end);
    SubOfSub(sp, 0, end, 0, end);
    SameSsrc(Sub(sp, 0, end), sp, end);
    cipher.SetIv(RtcpIv(RtcpSsrc(sp), i));
    var tag := Sub(key.mac(Sub(sp, 0, end + RTCP_TRAILER)), 0, cfg.tagLen);
    if tag != Sub(sp, n - cfg.tagLen, n) { return Failure(AuthFail), i; }
    if cap < end { return Failure(BufferSmall), i; }
    CopyStart(srtcp, end, rtcp, RTCP_HEADER);
    var err := CryptRest(cfg.conf, cipher, srtcp, end, rtcp, RTCP_HEADER, Sub(sp, 0, end));
    if err.Some? { return Failure(err.value), i; }
    r := Success(end);
  }

  /** srtp_unprotect_rtcp on one stream, up to the point where the index is put on record. */
  method Unprotect(cfg: RtcpConfig, keys: seq<RtcpKey>, ciphers: seq<Cipher>, db: RtcpDb,
                   srtcp: array<octet>, n: nat, rtcp: array<octet>, cap: nat)
    returns (r: Result<nat>, i: rtcpIndex)
    requires cfg.Valid() && db.View().Valid() && |ciphers| == |keys|
    requires forall j | 0 <= j < |keys| :: ciphers[j].Valid() && ciphers[j].key == keys[j].cipher
    requires forall i, j | 0 <= i < |ciphers| && 0 <= j < |ciphers| && i != j :: ciphers[i] != ciphers[j]
    requires n <= srtcp.Length && n <= OBJECT_MAX && cap <= rtcp.Length
    modifies rtcp, ciphers
    ensures forall j | 0 <= j < |keys| :: ciphers[j].Valid()
    ensures var got := ReceiveRtcp(cfg, keys, db.View(), Sub(old(srtcp[..]), 0, n), cap);
      match r
      case Failure(e) => got == Failure(e)
      case Success(m) => m <= rtcp.Length && got == Success((Sub(rtcp[..], 0, m), i))
  {
    hide Sub, SP.SelectKey, OpenRtcp, Flatten;
    i := 0;
    if n < RTCP_HEADER + RTCP_TRAILER { return Failure(BadParam), i; }
    var k := FindKey(cfg.mkiSize, RtcpMkis(keys), Sub(srtcp[..], 0, n), cfg.tagLen);
    if k.Failure? { return Failure(k.error), i; }
    r, i := OpenPacket(cfg, keys[k.value], ciphers[k.value], db, srtcp, n, rtcp, cap);
  }

  // --- Under AES-GCM ------------------------------------------------------------------------

  /** srtp_protect_rtcp_aead on one stream. */
  method ProtectAead(cfg: RtcpConfig, key: RtcpAeadKey, db: RtcpDb, rtcp: array<octet>, n: nat, srtcp: array<octet>,
                     cap: nat)
    returns (r: Result<nat>)
    requires cfg.Valid() && A.IsAead(key.aead, cfg.tagLen) && |key.mki| == cfg.mkiSize && db.View().Valid()
    requires n <= rtcp.Length && cap <= srtcp.Length
    modifies srtcp, db
    ensures var sent := SendRtcpAead(cfg, key, old(db.View()), Sub(old(rtcp[..]), 0, n), cap);
      && db.View() == sent.0
      && (match r
          case Failure(e) => sent.1 == Failure(e)
          case Success(m) => m <= cap && sent.1 == Success(Sub(srtcp[..], 0, m)))
  {
    hide Sub, Patch, Trailer, RtcpAeadIv, RtcpSsrc, A.IsAead;
    ghost var pkt := Sub(rtcp[..], 0, n);
    if n < RTCP_HEADER { return Failure(BadParam); }
    var end := n + cfg.tagLen + RTCP_TRAILER;
    if cap < end + cfg.mkiSize { return Failure(BufferSmall); }
    var at := EncryptedFrom(cfg.conf, n);
    CopyStart(rtcp, n, srtcp, at);
    var ok := db.Increment();
    if !ok { return Failure(KeyExpired); }
    var word := Trailer(cfg.conf, db.start);
    WriteTrailer(srtcp, rtcp, n, cfg.tagLen, word, key.mki, at, pkt);
    SameSsrc(srtcp[..], pkt, at);
    var aad := Sub(srtcp[..], 0, at);
    var c := key.aead.seal(RtcpAeadIv(key.salt, RtcpSsrc(srtcp[..]), db.start), aad + word, Sub(rtcp[..], at, n));
    ghost var iv := RtcpAeadIv(key.salt, RtcpSsrc(srtcp[..]), db.start);
    A.SealedLength(key.aead, cfg.tagLen, iv, aad + word, Sub(pkt, at, n));
    ghost var was := srtcp[..];
    Write(srtcp, at, c);
    SubOfPatch(was, at, c, 0, at);
    SubOfPatch(was, at, c, at, n + cfg.tagLen);
    SubOfPatch(was, at, c, n + cfg.tagLen, end);
    SubOfPatch(was, at, c, end, end + cfg.mkiSize);
    SubConcat(srtcp[..], 0, at, n + cfg.tagLen);
    FinishedPacket(srtcp[..], aad + c, word, key.mki);
    r := Success(end + cfg.mkiSize);
  }

  /** srtp_unprotect_rtcp_aead on one stream, up to the point where the index is put on record. */
  method UnprotectAead(cfg: RtcpConfig, keys: seq<RtcpAeadKey>, db: RtcpDb, srtcp: array<octet>, n: nat,
                       rtcp: array<octet>, cap: nat)
    returns (r: Result<nat>, i: rtcpIndex)
    requires cfg.Valid() && db.View().Valid() && forall k | k in keys :: A.IsAead(k.aead, cfg.tagLen)
    requires n <= srtcp.Length && cap <= rtcp.Length
    modifies rtcp
    ensures var got := ReceiveRtcpAead(cfg, keys, db.View(), Sub(old(srtcp[..]), 0, n), cap);
      match r
      case Failure(e) => got == Failure(e)
      case Success(m) => m <= rtcp.Length && got == Success((Sub(rtcp[..], 0, m), i))
  {
    hide Sub, Patch, SP.SelectKey, EBit, IndexIn, RtcpAeadIv, RtcpSsrc, CheckRtcp, A.IsAead, Flatten;
    var sp := Sub(srtcp[..], 0, n);
    i := 0;
    if n < RTCP_HEADER + RTCP_TRAILER { return Failure(BadParam), i; }
    var k := FindKey(cfg.mkiSize, RtcpAeadMkis(keys), sp, 0);
    if k.Failure? { return Failure(k.error), i; }
    var key := keys[k.value];
    if n < RTCP_HEADER + RTCP_TRAILER + cfg.mkiSize + cfg.tagLen { return Failure(BadParam), i; }
    var end := n - cfg.mkiSize - RTCP_TRAILER;
    var word := Sub(sp, end, end + RTCP_TRAILER);
    i := IndexIn(word);
    var status := db.Check(i);
    if status != Ok { return Failure(SP.IndexError(status)), i; }
    if cap < end - cfg.tagLen { return Failure(BufferSmall), i; }
    var at := EncryptedFrom(EBit(word), end - cfg.tagLen);
    var iv := RtcpAeadIv(key.salt, RtcpSsrc(sp), i);
    var plain := key.aead.open(iv, Sub(sp, 0, at) + word, Sub(sp, at, end));
    if plain.None? { return Failure(AuthFail), i; }
    var x := plain.value;
    A.OpenedLength(key.aead, cfg.tagLen, iv, Sub(sp, 0, at) + word, Sub(sp, at, end));
    SubOfSub(srtcp[..], 0, n, 0, at);
    SubOfSub(srtcp[..], 0, at, 0, at);
    CopyStart(srtcp, at, rtcp, at);
    ghost var was := rtcp[..];
    Write(rtcp, at, x);
    SubOfPatch(was, at, x, 0, at);
    SubOfPatch(was, at, x, at, at + |x|);
    SubConcat(rtcp[..], 0, at, at + |x|);
    r := Success(at + |x|);
  }
}
