/** Cryptex in place (RFC 9335): the extension header is moved in front of the CSRC list, one
    run of keystream is added, and the header is moved back (srtp/srtp.c). */
module Cryptex {
  import opened Octets
  import opened Keystreams
  import opened Ciphers
  import opened RtpPackets
  import opened SrtpBodies

  /** The extension header at h, moved in front of the CSRC list. */
  function XtnFirst(s: seq<octet>, h: nat): (r: seq<octet>)
    requires RTP_HEADER <= h && h + XTN_HEADER <= |s|
    ensures |r| == |s|
  {
    Sub(s, 0, 12) + Sub(s, h, h + 4) + Sub(s, 12, h) + Sub(s, h + 4, |s|)
  }

  /** The CSRC list moved back in front of the extension header. */
  function CsrcFirst(s: seq<octet>, h: nat): (r: seq<octet>)
    requires RTP_HEADER <= h && h + XTN_HEADER <= |s|
    ensures |r| == |s|
  {
    Sub(s, 0, 12) + Sub(s, 16, h + 4) + Sub(s, 12, 16) + Sub(s, h + 4, |s|)
  }

  /** Fixed header, CSRC list, extension header, rest. */
  lemma Parts(a: seq<octet>, c: seq<octet>, x: seq<octet>, r: seq<octet>)
    requires |a| == 12 && |x| == 4
    ensures XtnFirst(a + c + x + r, 12 + |c|) == a + x + c + r
    ensures CsrcFirst(a + x + c + r, 12 + |c|) == a + c + x + r
  {
    var s, t, h := a + c + x + r, a + x + c + r, 12 + |c|;
    assert Sub(s, 0, 12) == a && Sub(s, h, h + 4) == x && Sub(s, 12, h) == c && Sub(s, h + 4, |s|) == r;
    assert Sub(t, 0, 12) == a && Sub(t, 16, h + 4) == c && Sub(t, 12, 16) == x && Sub(t, h + 4, |t|) == r;
  }

  lemma SplitIntoParts(s: seq<octet>, h: nat)
    requires RTP_HEADER <= h && h + XTN_HEADER <= |s|
    ensures s == Sub(s, 0, 12) + Sub(s, 12, h) + Sub(s, h, h + 4) + Sub(s, h + 4, |s|)
    ensures s == Sub(s, 0, 12) + Sub(s, 12, 16) + Sub(s, 16, h + 4) + Sub(s, h + 4, |s|)
  {
    hide Sub;
    SubConcat(s, 0, 12, h);
    SubConcat(s, 0, h, h + 4);
    SubConcat(s, 0, 12, 16);
    SubConcat(s, 0, 16, h + 4);
    SubConcat(s, 0, h + 4, |s|);
    SubWhole(s);
  }

  /** The two moves are inverse to each other, for every CSRC count. */
  lemma MovesAreInverse(s: seq<octet>, h: nat)
    requires RTP_HEADER <= h && h + XTN_HEADER <= |s|
    ensures CsrcFirst(XtnFirst(s, h), h) == s && XtnFirst(CsrcFirst(s, h), h) == s
  {
    hide XtnFirst, CsrcFirst, Sub;
    SplitIntoParts(s, h);
    Parts(Sub(s, 0, 12), Sub(s, 12, h), Sub(s, h, h + 4), Sub(s, h + 4, |s|));
    Parts(Sub(s, 0, 12), Sub(s, 16, h + 4), Sub(s, 12, 16), Sub(s, h + 4, |s|));
  }

  /** The moves do not touch what is behind the extension header. */
  lemma MovesOfAppend(s: seq<octet>, t: seq<octet>, h: nat)
    requires RTP_HEADER <= h && h + XTN_HEADER <= |s|
    ensures XtnFirst(s + t, h) == XtnFirst(s, h) + t && CsrcFirst(s + t, h) == CsrcFirst(s, h) + t
  {
    hide XtnFirst, CsrcFirst, Sub;
    var r := Sub(s, h + 4, |s|);
    SplitIntoParts(s, h);
    var a, c, x := Sub(s, 0, 12), Sub(s, 12, h), Sub(s, h, h + 4);
    assert s + t == a + c + x + (r + t);
    assert a + x + c + (r + t) == (a + x + c + r) + t;
    Parts(a, c, x, r);
    Parts(a, c, x, r + t);
    var y, d := Sub(s, 12, 16), Sub(s, 16, h + 4);
    assert s + t == a + y + d + (r + t);
    assert a + d + y + (r + t) == (a + d + y + r) + t;
    Parts(a, d, y, r);
    Parts(a, d, y, r + t);
  }

  lemma MovesOfPrefix(s: seq<octet>, h: nat, n: nat)
    requires RTP_HEADER <= h && h + XTN_HEADER <= n <= |s|
    ensures Sub(CsrcFirst(s, h), 0, n) == CsrcFirst(Sub(s, 0, n), h)
    ensures Sub(XtnFirst(s, h), 0, n) == XtnFirst(Sub(s, 0, n), h)
  {
    hide CsrcFirst, XtnFirst, Sub;
    SubConcat(s, 0, n, |s|);
    SubWhole(s);
    MovesOfAppend(Sub(s, 0, n), Sub(s, n, |s|), h);
    PrefixOfConcat(CsrcFirst(Sub(s, 0, n), h), Sub(s, n, |s|));
    PrefixOfConcat(XtnFirst(Sub(s, 0, n), h), Sub(s, n, |s|));
  }

  lemma PrefixOfConcat(a: seq<octet>, b: seq<octet>)
    ensures Sub(a + b, 0, |a|) == a
  {
  }

  /** The fixed header stays, and the extension header is where it belongs. */
  lemma MovedHeads(s: seq<octet>, h: nat)
    requires RTP_HEADER <= h && h + XTN_HEADER <= |s|
    ensures Sub(XtnFirst(s, h), 0, 12) == Sub(s, 0, 12) == Sub(CsrcFirst(s, h), 0, 12)
    ensures Sub(XtnFirst(s, h), 12, 16) == Sub(s, h, h + 4)
    ensures Sub(CsrcFirst(s, h), h, h + 4) == Sub(s, 12, 16)
  {
  }

  lemma CryptRangeOfConcat(k: CipherKey, iv: block, p: nat, a: seq<octet>, b: seq<octet>, c: seq<octet>)
    ensures CryptRange(k, iv, p, a + b + c, |a|, |a| + |b|) == a + Encipher(k, iv, p, b) + c
  {
    hide Encipher;
    var s := a + b + c;
    assert Sub(s, |a|, |a| + |b|) == b;
  }

  /** The in-place run and the two-buffer form give the same octets. */
  lemma InPlaceAgrees(k: CipherKey, iv: block, s: seq<octet>, h: nat, end: nat)
    requires RTP_HEADER <= h && h + XTN_HEADER <= end <= |s|
    ensures CsrcFirst(CryptRange(k, iv, 0, XtnFirst(s, h), 16, end), h)
      == CryptRange(k, iv, h - RTP_HEADER, CryptRange(k, iv, 0, s, RTP_HEADER, h), h + XTN_HEADER, end)
  {
    hide XtnFirst, CsrcFirst, Sub, CryptRange, Encipher;
    var a, c, x := Sub(s, 0, 12), Sub(s, 12, h), Sub(s, h, h + 4);
    var r, t := Sub(s, h + 4, end), Sub(s, end, |s|);
    var c', r' := Encipher(k, iv, 0, c), Encipher(k, iv, |c|, r);
    SplitIntoParts(s, h);
    SubConcat(s, h + 4, end, |s|);
    Parts(a, c, x, r + t);
    assert XtnFirst(s, h) == (a + x) + (c + r) + t;
    EncipherConcat(k, iv, 0, c, r);
    CryptRangeOfConcat(k, iv, 0, a + x, c + r, t);
    assert CryptRange(k, iv, 0, XtnFirst(s, h), 16, end) == a + x + c' + (r' + t);
    Parts(a, c', x, r' + t);
    assert s == a + c + (x + r + t);
    CryptRangeOfConcat(k, iv, 0, a, c, x + r + t);
    assert a + c' + (x + r + t) == (a + c' + x) + r + t;
    CryptRangeOfConcat(k, iv, |c|, a + c' + x, r, t);
    assert (a + c' + x) + r' + t == a + c' + x + (r' + t);
  }

  /** The same for a run that ends inside the CSRC list. */
  lemma InPlaceShort(k: CipherKey, iv: block, s: seq<octet>, h: nat, end: nat)
    requires RTP_HEADER + XTN_HEADER <= end < h + XTN_HEADER <= |s|
    ensures CsrcFirst(CryptRange(k, iv, 0, XtnFirst(s, h), 16, end), h)
      == CryptRange(k, iv, 0, s, RTP_HEADER, end - XTN_HEADER)
  {
    hide XtnFirst, CsrcFirst, Sub, CryptRange, Encipher;
    var a, x, r := Sub(s, 0, 12), Sub(s, h, h + 4), Sub(s, h + 4, |s|);
    var c, d := Sub(s, 12, end - 4), Sub(s, end - 4, h);
    var c' := Encipher(k, iv, 0, c);
    SplitIntoParts(s, h);
    SubConcat(s, 12, end - 4, h);
    Parts(a, c + d, x, r);
    assert XtnFirst(s, h) == (a + x) + c + (d + r);
    CryptRangeOfConcat(k, iv, 0, a + x, c, d + r);
    assert (a + x) + c' + (d + r) == a + x + (c' + d) + r;
    Parts(a, c' + d, x, r);
    assert s == a + c + (d + x + r);
    CryptRangeOfConcat(k, iv, 0, a, c, d + x + r);
    assert a + c' + (d + x + r) == a + (c' + d) + x + r;
  }

  // --- In the packet buffer ---------------------------------------------------------------

  /** memmove within one buffer. */
  method MoveWithin(buf: array<octet>, from: nat, to: nat, n: nat)
    requires from + n <= buf.Length && to + n <= buf.Length
    modifies buf
    ensures buf[..] == Patch(old(buf[..]), to, Sub(old(buf[..]), from, from + n))
  {
    var tmp := buf[from..from + n];
    Write(buf, to, tmp);
  }

  method Write(buf: array<octet>, to: nat, t: seq<octet>)
    requires to + |t| <= buf.Length
    modifies buf
    ensures buf[..] == Patch(old(buf[..]), to, t)
  {
    for i := 0 to |t|
      invariant forall k | to <= k < to + i :: buf[k] == t[k - to]
      invariant forall k | 0 <= k < buf.Length && !(to <= k < to + i) :: buf[k] == old(buf[k])
    {
      buf[to + i] := t[i];
    }
  }

  lemma XtnFirstByPatches(s: seq<octet>, h: nat)
    requires RTP_HEADER <= h && h + XTN_HEADER <= |s|
    ensures Patch(Patch(s, 16, Sub(s, 12, h)), 12, Sub(s, h, h + 4)) == XtnFirst(s, h)
  {
    hide Sub, Patch, XtnFirst;
    var a, c, x, r := Sub(s, 0, 12), Sub(s, 12, h), Sub(s, h, h + 4), Sub(s, h + 4, |s|);
    SplitIntoParts(s, h);
    Parts(a, c, x, r);
    var t := Sub(s, 12, 16);
    assert s == (a + t) + Sub(s, 16, h + 4) + r;
    PatchOfConcat(a + t, Sub(s, 16, h + 4), r, c);
    assert (a + t) + c + r == a + t + (c + r);
    PatchOfConcat(a, t, c + r, x);
  }

  lemma CsrcFirstByPatches(s: seq<octet>, h: nat)
    requires RTP_HEADER <= h && h + XTN_HEADER <= |s|
    ensures Patch(Patch(s, 12, Sub(s, 16, h + 4)), h, Sub(s, 12, 16)) == CsrcFirst(s, h)
  {
    hide Sub, Patch, CsrcFirst;
    var a, x, c, r := Sub(s, 0, 12), Sub(s, 12, 16), Sub(s, 16, h + 4), Sub(s, h + 4, |s|);
    SplitIntoParts(s, h);
    Parts(a, c, x, r);
    var t := Sub(s, h, h + 4);
    assert s == a + Sub(s, 12, h) + (t + r);
    PatchOfConcat(a, Sub(s, 12, h), t + r, c);
    assert a + c + (t + r) == (a + c) + t + r;
    PatchOfConcat(a + c, t, r, x);
  }

  lemma PatchOfConcat(a: seq<octet>, b: seq<octet>, c: seq<octet>, t: seq<octet>)
    requires |t| == |b|
    ensures Patch(a + b + c, |a|, t) == a + t + c
  {
  }

  /** srtp_cryptex_move_hdr_xtnd_hdr_before_csrc */
  method MoveXtnBeforeCsrc(buf: array<octet>, h: nat)
    requires RTP_HEADER <= h && h + XTN_HEADER <= buf.Length
    modifies buf
    ensures buf[..] == XtnFirst(old(buf[..]), h)
  {
    hide Sub, Patch, XtnFirst;
    XtnFirstByPatches(buf[..], h);
    if h > RTP_HEADER {
      var tmp := Sub(buf[..], h, h + 4);
      MoveWithin(buf, RTP_HEADER, RTP_HEADER + 4, h - RTP_HEADER);
      Write(buf, RTP_HEADER, tmp);
    } else {
      MoveNothing(buf[..]);
    }
  }

  /** srtp_cryptex_move_csrc_before_hdr_xtnd_hdr */
  method MoveCsrcBeforeXtn(buf: array<octet>, h: nat)
    requires RTP_HEADER <= h && h + XTN_HEADER <= buf.Length
    modifies buf
    ensures buf[..] == CsrcFirst(old(buf[..]), h)
  {
    hide Sub, Patch, CsrcFirst;
    CsrcFirstByPatches(buf[..], h);
    if h > RTP_HEADER {
      var tmp := Sub(buf[..], RTP_HEADER, RTP_HEADER + 4);
      MoveWithin(buf, RTP_HEADER + 4, RTP_HEADER, h - RTP_HEADER);
      Write(buf, h, tmp);
    } else {
      MoveNothing(buf[..]);
    }
  }

  lemma MoveNothing(s: seq<octet>)
    requires RTP_HEADER + XTN_HEADER <= |s|
    ensures XtnFirst(s, RTP_HEADER) == s && CsrcFirst(s, RTP_HEADER) == s
  {
  }
}
