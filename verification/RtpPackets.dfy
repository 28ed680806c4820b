/** The layout of RTP packets (RFC 3550) and the header checks of srtp/srtp.c. */
module RtpPackets {
  import opened Octets
  import opened Replay

  const RTP_HEADER := 12
  const XTN_HEADER := 4

  function Cc(pkt: seq<octet>): (n: nat)
    requires |pkt| >= RTP_HEADER
    ensures n < 16
  {
    pkt[0] % 16
  }

  predicate HasXtn(pkt: seq<octet>)
    requires |pkt| >= RTP_HEADER
  {
    pkt[0] / 16 % 2 == 1
  }

  function SeqOf(pkt: seq<octet>): (s: seqNum)
    requires |pkt| >= RTP_HEADER
  {
    Pow256Values();
    Value(Sub(pkt, 2, 4))
  }

  function SsrcOf(pkt: seq<octet>): (s: seq<octet>)
    requires |pkt| >= RTP_HEADER
    ensures |s| == 4
  {
    Sub(pkt, 8, 12)
  }

  /** Length of the fixed header and the CSRC list. */
  function HdrLen(pkt: seq<octet>): (n: nat)
    requires |pkt| >= RTP_HEADER
    ensures RTP_HEADER <= n <= RTP_HEADER + 60
  {
    RTP_HEADER + 4 * Cc(pkt)
  }

  /** Length of the header extension with its own 4-octet header. */
  function XtnLen(pkt: seq<octet>): (n: nat)
    requires |pkt| >= RTP_HEADER && |pkt| >= HdrLen(pkt) + XTN_HEADER
    ensures n >= XTN_HEADER
  {
    4 * (Value(Sub(pkt, HdrLen(pkt) + 2, HdrLen(pkt) + 4)) + 1)
  }

  /** srtp_validate_rtp_header */
  predicate ValidHeader(pkt: seq<octet>) {
    && |pkt| >= RTP_HEADER
    && |pkt| >= HdrLen(pkt)
    && (HasXtn(pkt) ==> |pkt| >= HdrLen(pkt) + XTN_HEADER && |pkt| >= HdrLen(pkt) + XtnLen(pkt))
  }

  /** Where the payload starts, behind the header extension if there is one. */
  function PayloadStart(pkt: seq<octet>): (n: nat)
    requires ValidHeader(pkt)
    ensures HdrLen(pkt) <= n <= |pkt|
  {
    if HasXtn(pkt) then HdrLen(pkt) + XtnLen(pkt) else HdrLen(pkt)
  }

  /** The places that the transforms work at: the end of the CSRC list, whether an
      extension header follows there, and the start of the payload. */
  datatype Layout = Layout(h: nat, x: bool, start: nat) {
    predicate Fits(n: nat) {
      RTP_HEADER <= h <= start <= n && (x ==> h + XTN_HEADER <= start)
    }
  }

  function LayoutOf(pkt: seq<octet>): (l: Layout)
    requires ValidHeader(pkt)
    ensures l.Fits(|pkt|)
  {
    Layout(HdrLen(pkt), HasXtn(pkt), PayloadStart(pkt))
  }

  // --- Packets with the same header ---------------------------------------------------

  /** The second packet starts like the first one, as far as the layout depends on it:
      the fixed header, and the length field of the extension. */
  ghost predicate SameLayout(a: seq<octet>, b: seq<octet>)
    requires ValidHeader(a)
  {
    && |b| >= PayloadStart(a)
    && Sub(b, 0, RTP_HEADER) == Sub(a, 0, RTP_HEADER)
    && (HasXtn(a) ==> Sub(b, HdrLen(a) + 2, HdrLen(a) + 4) == Sub(a, HdrLen(a) + 2, HdrLen(a) + 4))
  }

  lemma SameFixedHeader(a: seq<octet>, b: seq<octet>)
    requires |a| >= RTP_HEADER && |b| >= RTP_HEADER && Sub(a, 0, RTP_HEADER) == Sub(b, 0, RTP_HEADER)
    ensures Cc(a) == Cc(b) && HasXtn(a) == HasXtn(b) && HdrLen(a) == HdrLen(b)
    ensures SeqOf(a) == SeqOf(b) && SsrcOf(a) == SsrcOf(b)
  {
    hide Value, HdrLen;
    assert a[0] == Sub(a, 0, RTP_HEADER)[0] == b[0];
    SubOfSub(a, 0, RTP_HEADER, 2, 4);
    SubOfSub(b, 0, RTP_HEADER, 2, 4);
    SubOfSub(a, 0, RTP_HEADER, 8, 12);
    SubOfSub(b, 0, RTP_HEADER, 8, 12);
    assert HdrLen(a) == HdrLen(b) by { HdrLenOfCc(a); HdrLenOfCc(b); }
  }

  lemma HdrLenOfCc(a: seq<octet>)
    requires |a| >= RTP_HEADER
    ensures HdrLen(a) == RTP_HEADER + 4 * Cc(a)
  {
  }

  lemma SameLayoutFacts(a: seq<octet>, b: seq<octet>)
    requires ValidHeader(a) && SameLayout(a, b)
    ensures ValidHeader(b) && PayloadStart(b) == PayloadStart(a) && HdrLen(b) == HdrLen(a)
    ensures Cc(a) == Cc(b) && HasXtn(a) == HasXtn(b) && SeqOf(a) == SeqOf(b) && SsrcOf(a) == SsrcOf(b)
    ensures HasXtn(a) ==> XtnLen(b) == XtnLen(a)
    ensures LayoutOf(b) == LayoutOf(a)
  {
    hide Value, SeqOf, SsrcOf, Cc, Sub, HdrLen, HasXtn;
    SameFixedHeader(a, b);
  }
}
