/** Header extension encryption element by element (RFC 6904 over the formats of RFC 5285): where the
    elements of an extension are, and which octet of keystream each of their octets gets. */
module ElementTables {
  import opened Octets
  import opened Keystreams
  import opened Ciphers
  import opened HeaderExtensions

  /** An element: the position of its header, and the place of that header in the keystream. */
  datatype Element = Element(at: nat, place: nat)

  /** Where the data of an element starts, behind one or two octets of header. */
  function DataAt(form: Form, at: nat): (n: nat) { if form.OneByte? then at + 1 else at + 2 }

  function IdAt(form: Form, d: seq<octet>, at: nat): (id: octet)
    requires DataAt(form, at) <= |d|
  {
    if form.OneByte? then d[at] / 16 else d[at]
  }

  function DataEnd(form: Form, d: seq<octet>, at: nat): (n: nat)
    requires DataAt(form, at) <= |d|
    ensures n >= DataAt(form, at)
  {
    if form.OneByte? then at + 2 + d[at] % 16 else at + 2 + d[at + 1]
  }

  /** There is a whole element, and it is not the one that stops the processing. */
  predicate Passes(form: Form, d: seq<octet>, at: nat) {
    DataAt(form, at) <= |d| && DataEnd(form, d, at) <= |d| && !(form.OneByte? && IdAt(form, d, at) == 15)
  }

  /** The next element is behind the zeros that follow; they take no keystream. */
  ghost predicate Follows(form: Form, d: seq<octet>, e: Element, f: Element) {
    && Passes(form, d, e.at)
    && var end := DataEnd(form, d, e.at);
       && end <= f.at <= |d| && (forall i | end <= i < f.at :: d[i] == 0) && (f.at < |d| ==> d[f.at] != 0)
       && f.place == e.place + end - e.at
  }

  /** The elements from this one on, and the place where they end. */
  ghost predicate IsTable(form: Form, d: seq<octet>, first: Element, es: seq<Element>, last: Element)
    decreases |es|
  {
    if es == [] then last == first
    else es[0] == first && exists next :: Follows(form, d, first, next) && IsTable(form, d, next, es[1..], last)
  }

  /** Octet x is in the data of this element, and its id is listed. */
  predicate Covers(form: Form, ids: seq<octet>, d: seq<octet>, e: Element, x: nat) {
    Passes(form, d, e.at) && DataAt(form, e.at) <= x < DataEnd(form, d, e.at) && IdAt(form, d, e.at) in ids
  }

  /** Octet x of d becomes y: under the keystream of the listed element that it is in, or as it was. */
  ghost predicate Becomes(form: Form, ids: seq<octet>, k: CipherKey, iv: block, d: seq<octet>, es: seq<Element>, x: nat,
                          y: octet)
    requires x < |d|
  {
    && (forall e | e in es && Covers(form, ids, d, e, x) ::
          y == XorOctet(d[x], PacketKeystream(k, iv, e.place + x - e.at, 1)[0]))
    && ((forall e | e in es :: !Covers(form, ids, d, e, x)) ==> y == d[x])
  }

  /** The octets of d from position `at` on become r. */
  ghost predicate Encrypted(form: Form, ids: seq<octet>, k: CipherKey, iv: block, d: seq<octet>, at: nat,
                            es: seq<Element>, r: seq<octet>) {
    at + |r| == |d| && forall j | 0 <= j < |r| :: Becomes(form, ids, k, iv, d, es, at + j, r[j])
  }

  /** How the processing of the elements from `first` on ends. */
  ghost predicate Ends(form: Form, ids: seq<octet>, k: CipherKey, iv: block, d: seq<octet>, first: Element,
                       es: seq<Element>, last: Element, r: Outcome) {
    match r
    case Done(x) =>
      && (DataAt(form, last.at) > |d| || (DataEnd(form, d, last.at) <= |d| && !Passes(form, d, last.at)))
      && Encrypted(form, ids, k, iv, d, first.at, es, x)
    case ParseErr => DataAt(form, last.at) <= |d| < DataEnd(form, d, last.at)
    case CipherFail =>
      Passes(form, d, last.at) && !Reaches(k, iv, last.place + DataEnd(form, d, last.at) - last.at)
  }

  lemma SameElement(form: Form, d: seq<octet>, at: nat)
    requires at <= |d|
    ensures var s := d[at..];
      && (|s| >= form.Head() <==> DataAt(form, at) <= |d|)
      && (|s| >= form.Head() ==>
            IdAt(form, d, at) == form.Id(s) && DataEnd(form, d, at) == at + form.Head() + form.Len(s))
  {
  }

  lemma StopsHere(form: Form, ids: seq<octet>, k: CipherKey, iv: block, d: seq<octet>, first: Element)
    requires first.at <= |d| && !Continues(form, k, iv, first.place, d[first.at..])
    ensures Ends(form, ids, k, iv, d, first, [], first, Walk(form, ids, k, iv, first.place, d[first.at..]))
  {
    hide Reaches, Split, PacketKeystream, XorOctet, DataEnd, IdAt;
    SameElement(form, d, first.at);
    var s := d[first.at..];
    assert forall j | 0 <= j < |s| :: s[j] == d[first.at + j] && Becomes(form, ids, k, iv, d, [], first.at + j, s[j]);
  }

  lemma PieceIn(d: seq<octet>, at: nat, e: Piece)
    requires at <= |d| && Join(e) == d[at..]
    ensures var a := at + |e.head|;
      var b := a + |e.element|;
      var c := b + |e.pad|;
      && c + |e.rest| == |d|
      && d[at..a] == e.head && d[a..b] == e.element && d[b..c] == e.pad && d[c..] == e.rest
  {
    assert d == d[..at] + e.head + e.element + e.pad + e.rest;
  }

  /** One element of the walk, seen in the whole extension. */
  lemma StepFollows(form: Form, d: seq<octet>, first: Element)
    requires first.at <= |d| && Fits(form, d[first.at..])
    requires !(form.OneByte? && form.Id(d[first.at..]) == 15)
    ensures var e := Split(form, d[first.at..]);
      var next := Element(first.at + |e.head| + |e.element| + |e.pad|, first.place + form.Head() + |e.element|);
      && Follows(form, d, first, next) && next.at <= |d| && d[next.at..] == e.rest
      && DataEnd(form, d, first.at) == first.at + |e.head| + |e.element|
      && form.Id(e.head) == IdAt(form, d, first.at)
  {
    hide Split, DataEnd, IdAt, Join;
    var s := d[first.at..];
    var e := Split(form, s);
    SplitIsPiece(form, s);
    SameElement(form, d, first.at);
    PieceIn(d, first.at, e);
    var b := first.at + |e.head| + |e.element|;
    var c := b + |e.pad|;
    assert forall i | b <= i < c :: d[i] == d[b..c][i - b];
    assert c < |d| ==> d[c] == d[c..][0];
  }

  lemma BecomesWithFirst(form: Form, ids: seq<octet>, k: CipherKey, iv: block, d: seq<octet>, first: Element,
                         fs: seq<Element>, x: nat, y: octet)
    requires x < |d|
    requires || (Becomes(form, ids, k, iv, d, fs, x, y) && !Covers(form, ids, d, first, x))
             || (Becomes(form, ids, k, iv, d, [first], x, y) && forall f | f in fs :: !Covers(form, ids, d, f, x))
    ensures Becomes(form, ids, k, iv, d, [first] + fs, x, y)
  {
    hide PacketKeystream, XorOctet, Covers;
    assert first in [first] && first in [first] + fs && forall f | f in fs :: f in [first] + fs;
  }

  lemma StepEncrypts(form: Form, ids: seq<octet>, k: CipherKey, iv: block, d: seq<octet>, first: Element,
                     next: Element, fs: seq<Element>, e: Piece, rest: seq<octet>)
    requires first.at <= |d| && Join(e) == d[first.at..] && Follows(form, d, first, next)
    requires |e.head| == form.Head() && next.at == first.at + |e.head| + |e.element| + |e.pad|
    requires form.Id(e.head) == IdAt(form, d, first.at)
    requires DataEnd(form, d, first.at) == first.at + |e.head| + |e.element|
    requires Encrypted(form, ids, k, iv, d, next.at, fs, rest) && forall f | f in fs :: f.at >= next.at
    ensures Encrypted(form, ids, k, iv, d, first.at, [first] + fs,
                      Join(Recode(form, ids, k, iv, first.place, e).(rest := rest)))
  {
    hide PacketKeystream, XorOctet, DataEnd, IdAt, Becomes, Recode;
    var es, g := [first] + fs, Recode(form, ids, k, iv, first.place, e);
    var r, n := Join(g.(rest := rest)), next.at - first.at;
    forall j | 0 <= j < |r|
      ensures Becomes(form, ids, k, iv, d, es, first.at + j, r[j])
    {
      if j >= n {
        assert r[j] == rest[j - n];
      } else {
        assert r[j] == Join(g)[j];
        FirstBecomes(form, ids, k, iv, d, first, e, first.at + j);
      }
      BecomesWithFirst(form, ids, k, iv, d, first, fs, first.at + j, r[j]);
    }
  }

  lemma FirstBecomes(form: Form, ids: seq<octet>, k: CipherKey, iv: block, d: seq<octet>, first: Element, e: Piece,
                     x: nat)
    requires first.at <= |d| && Join(e) == d[first.at..] && Passes(form, d, first.at)
    requires |e.head| == form.Head() && DataEnd(form, d, first.at) == first.at + |e.head| + |e.element|
    requires first.at <= x < first.at + |e.head| + |e.element| + |e.pad| && form.Id(e.head) == IdAt(form, d, first.at)
    ensures var y := Join(Recode(form, ids, k, iv, first.place, e))[x - first.at];
      Becomes(form, ids, k, iv, d, [first], x, y)
  {
    hide PacketKeystream, XorOctet, DataEnd, IdAt, Recode;
    ElementOctet(form, ids, k, iv, first.place, e, x - first.at);
    assert d[x] == d[first.at..][x - first.at] && first in [first];
  }

  /** What becomes of the octets of one element and the padding behind it. */
  lemma ElementOctet(form: Form, ids: seq<octet>, k: CipherKey, iv: block, p: nat, e: Piece, j: nat)
    requires |e.head| == form.Head() && j < |e.head| + |e.element| + |e.pad|
    ensures var r := Join(Recode(form, ids, k, iv, p, e));
      r[j] == if |e.head| <= j < |e.head| + |e.element| && form.Id(e.head) in ids
              then XorOctet(Join(e)[j], PacketKeystream(k, iv, p + j, 1)[0]) else Join(e)[j]
  {
    hide PacketKeystream, XorOctet;
    var h := form.Head();
    if h <= j < h + |e.element| {
      OneOctet(k, iv, p + h, |e.element|, j - h);
    }
  }

  lemma OneOctet(k: CipherKey, iv: block, p: nat, n: nat, i: nat)
    requires i < n
    ensures PacketKeystream(k, iv, p, n)[i] == PacketKeystream(k, iv, p + i, 1)[0]
  {
    hide KeystreamOctet, Base;
  }

  lemma {:induction false} WalkFrom(form: Form, ids: seq<octet>, k: CipherKey, iv: block, d: seq<octet>, first: Element)
    returns (es: seq<Element>, last: Element)
    requires first.at <= |d|
    ensures IsTable(form, d, first, es, last) && forall e | e in es :: e.at >= first.at
    ensures Ends(form, ids, k, iv, d, first, es, last, Walk(form, ids, k, iv, first.place, d[first.at..]))
    decreases |d| - first.at
  {
    hide Walk, Reaches, Split, PacketKeystream, XorOctet, Recode, Join, IsPiece, Encrypted, DataEnd, IdAt,
         Follows, Passes, DataAt;
    var s := d[first.at..];
    es, last := [], first;
    if Continues(form, k, iv, first.place, s) {
      var e := Split(form, s);
      SplitIsPiece(form, s);
      SplitOfJoin(form, e);
      WalkStep(form, ids, k, iv, first.place, e);
      StepFollows(form, d, first);
      var next := Element(first.at + |e.head| + |e.element| + |e.pad|, first.place + form.Head() + |e.element|);
      var fs;
      fs, last := WalkFrom(form, ids, k, iv, d, next);
      es := [first] + fs;
      assert es[1..] == fs;
      var rest := Walk(form, ids, k, iv, next.place, e.rest);
      if rest.Done? { StepEncrypts(form, ids, k, iv, d, first, next, fs, e, rest.data); }
    } else {
      StopsHere(form, ids, k, iv, d, first);
    }
  }

  /** The processing of an extension: it goes through its elements, each with its place in the keystream,
      and encrypts the octets of listed ones; it ends at the end of the extension or at an element with
      id 15, and fails at an element that is not complete or not within reach of the keystream. */
  lemma WalkIsByElements(form: Form, ids: seq<octet>, k: CipherKey, iv: block, d: seq<octet>)
    returns (es: seq<Element>, last: Element)
    ensures IsTable(form, d, Element(0, 0), es, last)
    ensures Ends(form, ids, k, iv, d, Element(0, 0), es, last, Walk(form, ids, k, iv, 0, d))
  {
    hide Walk, Ends, IsTable;
    es, last := WalkFrom(form, ids, k, iv, d, Element(0, 0));
    assert d[0..] == d;
  }
}
