/** Encryption of selected RTP header extension elements (RFC 6904), as done by
    srtp_process_header_encryption in srtp/srtp.c. */
module HeaderExtensions {
  import opened Octets
  import opened Keystreams
  import opened Ciphers

  datatype Outcome = Done(data: seq<octet>) | ParseErr | CipherFail

  /** Which of the two element formats of RFC 5285 is in use. */
  datatype Form = OneByte | TwoByte {
    function Head(): (n: nat) { if OneByte? then 1 else 2 }

    function Id(d: seq<octet>): (id: octet)
      requires |d| >= Head()
    {
      if OneByte? then d[0] / 16 else d[0]
    }

    function Len(d: seq<octet>): (n: nat)
      requires |d| >= Head()
      ensures n <= 255
    {
      if OneByte? then d[0] % 16 + 1 else d[1]
    }
  }

  /** Octets of zero padding at the start of d. */
  function Padding(d: seq<octet>): (n: nat)
    ensures n <= |d|
    ensures n < |d| ==> d[n] != 0
    ensures forall i | 0 <= i < n :: d[i] == 0
  {
    if d == [] || d[0] != 0 then 0 else 1 + Padding(d[1..])
  }

  lemma {:induction false} PaddingUnique(d: seq<octet>, n: nat)
    requires n <= |d| && (n < |d| ==> d[n] != 0)
    requires forall i | 0 <= i < n :: d[i] == 0
    ensures Padding(d) == n
  {
    if n != 0 { PaddingUnique(d[1..], n - 1); }
  }

  // --- One element ------------------------------------------------------------------

  /** The octets of an extension from one element on: its header, its data, the zero
      padding behind it, and what follows. */
  datatype Piece = Piece(head: seq<octet>, element: seq<octet>, pad: seq<octet>, rest: seq<octet>)

  function Join(e: Piece): seq<octet> { e.head + e.element + e.pad + e.rest }

  ghost predicate IsPiece(form: Form, e: Piece) {
    && |e.head| == form.Head()
    && |e.element| == form.Len(e.head)
    && (forall i | 0 <= i < |e.pad| :: e.pad[i] == 0)
    && (e.rest != [] ==> e.rest[0] != 0)
  }

  predicate Fits(form: Form, d: seq<octet>) {
    |d| >= form.Head() && form.Head() + form.Len(d) <= |d|
  }

  function Split(form: Form, d: seq<octet>): (e: Piece)
    requires Fits(form, d)
    ensures |e.rest| < |d| && |e.head| == form.Head() && |e.element| == form.Len(d)
  {
    var h, n := form.Head(), form.Len(d);
    var next := h + n + Padding(Sub(d, h + n, |d|));
    Piece(Sub(d, 0, h), Sub(d, h, h + n), Sub(d, h + n, next), Sub(d, next, |d|))
  }

  lemma HeadFixesElement(form: Form, d: seq<octet>, e: seq<octet>)
    requires |d| >= form.Head() && |e| >= form.Head()
    requires d[..form.Head()] == e[..form.Head()]
    ensures form.Id(d) == form.Id(e) && form.Len(d) == form.Len(e)
  {
    assert d[0] == d[..form.Head()][0] == e[0];
    if form.TwoByte? { assert d[1] == d[..2][1] == e[1]; }
  }

  lemma SplitIsPiece(form: Form, d: seq<octet>)
    requires Fits(form, d)
    ensures IsPiece(form, Split(form, d)) && Join(Split(form, d)) == d
    ensures form.Id(Split(form, d).head) == form.Id(d)
  {
    var e, h := Split(form, d), form.Head();
    HeadFixesElement(form, d, e.head);
    SubConcat(d, 0, h, h + |e.element|);
    SubConcat(d, 0, h + |e.element|, h + |e.element| + |e.pad|);
    SubConcat(d, 0, h + |e.element| + |e.pad|, |d|);
    SubWhole(d);
  }

  lemma SplitOfJoin(form: Form, e: Piece)
    requires IsPiece(form, e)
    ensures Fits(form, Join(e)) && Split(form, Join(e)) == e
    ensures form.Id(Join(e)) == form.Id(e.head) && form.Len(Join(e)) == |e.element|
  {
    hide Padding;
    var d, h, n := Join(e), form.Head(), |e.element|;
    assert d[..h] == e.head;
    HeadFixesElement(form, d, e.head);
    ParsedTail(d, e.head + e.element, e.pad, e.rest);
    SubOfConcat(e.head, e.element, e.pad + e.rest);
    assert d == e.head + e.element + (e.pad + e.rest);
  }

  lemma SubOfConcat(a: seq<octet>, b: seq<octet>, c: seq<octet>)
    ensures Sub(a + b + c, 0, |a|) == a && Sub(a + b + c, |a|, |a| + |b|) == b
  {
  }

  lemma ParsedTail(d: seq<octet>, front: seq<octet>, pad: seq<octet>, rest: seq<octet>)
    requires d == front + pad + rest
    requires (forall i | 0 <= i < |pad| :: pad[i] == 0) && (rest != [] ==> rest[0] != 0)
    ensures Padding(Sub(d, |front|, |d|)) == |pad|
    ensures Sub(d, |front|, |front| + |pad|) == pad && Sub(d, |front| + |pad|, |d|) == rest
  {
    hide Padding;
    var tail := Sub(d, |front|, |d|);
    assert tail == pad + rest;
    PaddingUnique(tail, |pad|);
  }

  // --- The walk ---------------------------------------------------------------------

  function Recode(form: Form, ids: seq<octet>, k: CipherKey, iv: block, p: nat, e: Piece): (r: Piece)
    requires |e.head| == form.Head()
    ensures r.head == e.head && |r.element| == |e.element| && r.pad == e.pad && r.rest == e.rest
  {
    if form.Id(e.head) in ids then e.(element := Encipher(k, iv, p + form.Head(), e.element)) else e
  }

  /** The walk over the elements of d, at position p of the keystream: listed elements are
      encrypted, and keystream is spent on every element up to one with id 15. */
  function Walk(form: Form, ids: seq<octet>, k: CipherKey, iv: block, p: nat, d: seq<octet>): (r: Outcome)
    ensures r.Done? ==> |r.data| == |d|
    decreases |d|
  {
    if |d| < form.Head() then Done(d)
    else if !Fits(form, d) then ParseErr
    else if form.OneByte? && form.Id(d) == 15 then Done(d)
    else if !Reaches(k, iv, p + form.Head() + form.Len(d)) then CipherFail
    else
      var e := Split(form, d);
      var rest := Walk(form, ids, k, iv, p + form.Head() + form.Len(d), e.rest);
      if rest.Done? then
        SplitIsPiece(form, d);
        Done(Join(Recode(form, ids, k, iv, p, e).(rest := rest.data)))
      else rest
  }

  lemma RecodeIsPiece(form: Form, ids: seq<octet>, k: CipherKey, iv: block, p: nat, e: Piece, rest: seq<octet>)
    requires IsPiece(form, e) && (rest != [] ==> rest[0] != 0)
    ensures IsPiece(form, Recode(form, ids, k, iv, p, e).(rest := rest))
  {
  }

  lemma WalkKeepsFirst(form: Form, ids: seq<octet>, k: CipherKey, iv: block, p: nat, d: seq<octet>)
    requires d != [] && Walk(form, ids, k, iv, p, d).Done?
    ensures Walk(form, ids, k, iv, p, d).data[0] == d[0]
  {
    if Fits(form, d) { SplitIsPiece(form, d); }
  }

  /** The walk goes on past the element at the start of d. */
  predicate Continues(form: Form, k: CipherKey, iv: block, p: nat, d: seq<octet>) {
    && Fits(form, d) && !(form.OneByte? && form.Id(d) == 15)
    && Reaches(k, iv, p + form.Head() + form.Len(d))
  }

  /** Octets of keystream that the walk spends, whether or not it gets to the end. */
  function WalkUse(form: Form, k: CipherKey, iv: block, p: nat, d: seq<octet>): (n: nat)
    decreases |d|
  {
    if !Continues(form, k, iv, p, d) then 0 else
    var m := form.Head() + form.Len(d);
    m + WalkUse(form, k, iv, p + m, Split(form, d).rest)
  }

  /** The walk stays within reach of the block counter. */
  lemma {:induction false} WalkUseReaches(form: Form, k: CipherKey, iv: block, p: nat, d: seq<octet>)
    requires Reaches(k, iv, p)
    ensures Reaches(k, iv, p + WalkUse(form, k, iv, p, d))
    decreases |d|
  {
    hide Reaches, Split;
    if Continues(form, k, iv, p, d) {
      WalkUseReaches(form, k, iv, p + form.Head() + form.Len(d), Split(form, d).rest);
    }
  }

  lemma WalkStep(form: Form, ids: seq<octet>, k: CipherKey, iv: block, p: nat, e: Piece)
    requires IsPiece(form, e) && Continues(form, k, iv, p, Join(e))
    ensures var rest := Walk(form, ids, k, iv, p + form.Head() + |e.element|, e.rest);
      Walk(form, ids, k, iv, p, Join(e))
        == if rest.Done? then Done(Join(Recode(form, ids, k, iv, p, e).(rest := rest.data))) else rest
  {
    hide Recode, Reaches, IsPiece, Join, Split;
    SplitOfJoin(form, e);
  }

  lemma ContinuesFromHead(form: Form, k: CipherKey, iv: block, p: nat, e: Piece, f: Piece)
    requires IsPiece(form, e) && IsPiece(form, f) && e.head == f.head && |e.element| == |f.element|
    requires Continues(form, k, iv, p, Join(e))
    ensures Continues(form, k, iv, p, Join(f))
  {
    hide Reaches, Split, IsPiece, Join;
    SplitOfJoin(form, e);
    SplitOfJoin(form, f);
  }

  /** A second pass from the same keystream position undoes the first. */
  lemma {:induction false} WalkInvolutive(form: Form, ids: seq<octet>, k: CipherKey, iv: block, p: nat, d: seq<octet>)
    requires Walk(form, ids, k, iv, p, d).Done?
    ensures Walk(form, ids, k, iv, p, Walk(form, ids, k, iv, p, d).data) == Done(d)
    decreases |d|
  {
    if Continues(form, k, iv, p, d) {
      WalkInvolutiveStep(form, ids, k, iv, p, d);
    }
  }

  lemma {:induction false} WalkInvolutiveStep(form: Form, ids: seq<octet>, k: CipherKey, iv: block, p: nat,
                                              d: seq<octet>)
    requires Walk(form, ids, k, iv, p, d).Done? && Continues(form, k, iv, p, d)
    ensures Walk(form, ids, k, iv, p, Walk(form, ids, k, iv, p, d).data) == Done(d)
    decreases |d|, 0
  {
    hide Walk, Recode, Reaches, IsPiece, Join, Split;
    var e := Split(form, d);
    SplitIsPiece(form, d);
    SplitOfJoin(form, e);
    WalkStep(form, ids, k, iv, p, e);
    var q := p + form.Head() + |e.element|;
    var rest := Walk(form, ids, k, iv, q, e.rest).data;
    WalkInvolutive(form, ids, k, iv, q, e.rest);
    RestStartsAlike(form, ids, k, iv, q, e);
    var f := Recode(form, ids, k, iv, p, e).(rest := rest);
    RecodeIsPiece(form, ids, k, iv, p, e, rest);
    ContinuesFromHead(form, k, iv, p, e, f);
    WalkStep(form, ids, k, iv, p, f);
    RecodeTwice(form, ids, k, iv, p, e, rest);
  }

  lemma RestStartsAlike(form: Form, ids: seq<octet>, k: CipherKey, iv: block, q: nat, e: Piece)
    requires IsPiece(form, e) && Walk(form, ids, k, iv, q, e.rest).Done?
    ensures var rest := Walk(form, ids, k, iv, q, e.rest).data; rest != [] ==> rest[0] != 0
  {
    hide Walk;
    if e.rest != [] { WalkKeepsFirst(form, ids, k, iv, q, e.rest); }
  }

  lemma RecodeTwice(form: Form, ids: seq<octet>, k: CipherKey, iv: block, p: nat, e: Piece, rest: seq<octet>)
    requires |e.head| == form.Head()
    ensures Recode(form, ids, k, iv, p, Recode(form, ids, k, iv, p, e).(rest := rest)).(rest := e.rest) == e
  {
    hide Encipher;
    EncipherInvolutive(k, iv, p + form.Head(), e.element);
  }

  // --- What the walk leaves alone -----------------------------------------------------

  /** Position, id and length of every element that the walk passes. */
  function Elements(form: Form, d: seq<octet>, at: nat): (r: seq<(nat, octet, nat)>)
    decreases |d|
  {
    if !Fits(form, d) || (form.OneByte? && form.Id(d) == 15) then [] else
    var e := Split(form, d);
    [(at, form.Id(d), |e.element|)] + Elements(form, e.rest, at + |e.head| + |e.element| + |e.pad|)
  }

  /** For every octet, whether it belongs to the data of a listed element. */
  function Listed(form: Form, ids: seq<octet>, d: seq<octet>): (m: seq<bool>)
    ensures |m| == |d|
    decreases |d|
  {
    if !Fits(form, d) || (form.OneByte? && form.Id(d) == 15) then seq(|d|, i => false) else
    var e := Split(form, d);
    SplitIsPiece(form, d);
    seq(|e.head|, i => false) + seq(|e.element|, i => form.Id(d) in ids)
      + seq(|e.pad|, i => false) + Listed(form, ids, e.rest)
  }

  /** Two extensions that differ only in the data of listed elements. */
  ghost predicate DifferInListed(form: Form, ids: seq<octet>, d: seq<octet>, r: seq<octet>) {
    |r| == |d| && forall i | 0 <= i < |d| :: r[i] != d[i] ==> Listed(form, ids, d)[i]
  }

  lemma ElementsStep(form: Form, at: nat, e: Piece)
    requires IsPiece(form, e) && !(form.OneByte? && form.Id(e.head) == 15)
    ensures Elements(form, Join(e), at) == [(at, form.Id(e.head), |e.element|)]
      + Elements(form, e.rest, at + |e.head| + |e.element| + |e.pad|)
  {
    hide IsPiece, Join, Split;
    SplitOfJoin(form, e);
  }

  lemma DifferStep(form: Form, ids: seq<octet>, k: CipherKey, iv: block, p: nat, e: Piece, rest: seq<octet>)
    requires IsPiece(form, e) && !(form.OneByte? && form.Id(e.head) == 15)
    requires DifferInListed(form, ids, e.rest, rest)
    ensures DifferInListed(form, ids, Join(e), Join(Recode(form, ids, k, iv, p, e).(rest := rest)))
  {
    hide IsPiece, Split, Encipher;
    SplitOfJoin(form, e);
    var f := Recode(form, ids, k, iv, p, e).(rest := rest);
    var m := Listed(form, ids, Join(e));
    var a, b := |e.head|, |e.head| + |e.element|;
    var c := b + |e.pad|;
    assert forall i | a <= i < b :: m[i] == (form.Id(e.head) in ids);
    assert forall i | c <= i < |m| :: m[i] == Listed(form, ids, e.rest)[i - c];
    forall i | 0 <= i < |m|
      ensures Join(f)[i] != Join(e)[i] ==> m[i]
    {
      if i >= c { assert Join(f)[i] == rest[i - c] && Join(e)[i] == e.rest[i - c]; }
    }
  }

  /** Element positions, ids, lengths and padding are kept, and so is every octet outside
      the data of a listed element. */
  lemma {:induction false} WalkChangesOnlyListed(form: Form, ids: seq<octet>, k: CipherKey, iv: block, p: nat,
                                                 d: seq<octet>, at: nat)
    requires Walk(form, ids, k, iv, p, d).Done?
    ensures var r := Walk(form, ids, k, iv, p, d).data;
      Elements(form, r, at) == Elements(form, d, at) && DifferInListed(form, ids, d, r)
    decreases |d|
  {
    if Continues(form, k, iv, p, d) {
      WalkChangesOnlyListedStep(form, ids, k, iv, p, d, at);
    }
  }

  lemma {:induction false} WalkChangesOnlyListedStep(form: Form, ids: seq<octet>, k: CipherKey, iv: block, p: nat,
                                                     d: seq<octet>, at: nat)
    requires Walk(form, ids, k, iv, p, d).Done? && Continues(form, k, iv, p, d)
    ensures var r := Walk(form, ids, k, iv, p, d).data;
      Elements(form, r, at) == Elements(form, d, at) && DifferInListed(form, ids, d, r)
    decreases |d|, 0
  {
    hide Walk, Recode, Reaches, IsPiece, Join, Split, Elements, DifferInListed;
    var e := Split(form, d);
    SplitIsPiece(form, d);
    SplitOfJoin(form, e);
    WalkStep(form, ids, k, iv, p, e);
    var q := p + form.Head() + |e.element|;
    var rest := Walk(form, ids, k, iv, q, e.rest).data;
    WalkChangesOnlyListed(form, ids, k, iv, q, e.rest, at + |e.head| + |e.element| + |e.pad|);
    RestStartsAlike(form, ids, k, iv, q, e);
    RecodeIsPiece(form, ids, k, iv, p, e, rest);
    ElementsStep(form, at, e);
    ElementsStep(form, at, Recode(form, ids, k, iv, p, e).(rest := rest));
    DifferStep(form, ids, k, iv, p, e, rest);
  }
}
