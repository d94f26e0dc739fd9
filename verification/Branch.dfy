/**
 * The branch relation that scopes a transaction's fields: ancestors and
 * descendants, siblings under one parent occurrence, and same-occurrence
 * cousins below different top-level sequences.
 */
module Branch {
  import opened PathCodec

  /** Number of leading elements `a` and `b` share. */
  function SharedLength<T(==)>(a: seq<T>, b: seq<T>): (n: nat)
    ensures n <= |a| && n <= |b| && a[..n] == b[..n]
    ensures n < |a| && n < |b| ==> a[n] != b[n]
  {
    if |a| == 0 || |b| == 0 || a[0] != b[0] then 0
    else
      var n := SharedLength(a[1..], b[1..]);
      assert a[..n + 1] == [a[0]] + a[1..][..n] && b[..n + 1] == [b[0]] + b[1..][..n];
      n + 1
  }

  function Shorter<T>(a: seq<T>, b: seq<T>): nat {
    if |a| < |b| then |a| else |b|
  }

  /** The relation on the stored texts. */
  predicate InBranch(candidate: string, instrument: string) {
    var c, i := PathSegments(candidate), PathSegments(instrument);
    var k := SharedLength(c, i);
    c != [] && i != [] &&
    if k == Shorter(c, i) then true
    else if k == 0 then SegmentOccurrence(c[0]).Some? && SegmentOccurrence(c[0]) == SegmentOccurrence(i[0])
    else |c| == |i| && k == |c| - 1
  }

  function SharedDepth(a: string, b: string): nat {
    SharedLength(PathSegments(a), PathSegments(b))
  }

  /** The same relation on frames. */
  predicate Related(c: seq<TextFrame>, i: seq<TextFrame>) {
    var k := SharedLength(c, i);
    c != [] && i != [] &&
    if k == Shorter(c, i) then true
    else if k == 0 then c[0].occurrence == i[0].occurrence
    else |c| == |i| && k == |c| - 1
  }

  lemma {:induction false} SharedLengthUnique<T>(a: seq<T>, b: seq<T>, n: nat)
    requires n <= |a| && n <= |b| && a[..n] == b[..n]
    requires n < |a| && n < |b| ==> a[n] != b[n]
    ensures SharedLength(a, b) == n
  {}

  lemma SharedLengthPrinted(p: seq<TextFrame>, q: seq<TextFrame>)
    ensures SharedLength(Printed(p), Printed(q)) == SharedLength(p, q)
  {
    var n := SharedLength(p, q);
    assert Printed(p)[..n] == Printed(p[..n]) == Printed(q[..n]) == Printed(q)[..n];
    if n < |p| && n < |q| && PrintFrame(p[n]) == PrintFrame(q[n]) {
      FrameInjective(p[n], q[n]);
    }
    SharedLengthUnique(Printed(p), Printed(q), n);
  }

  /** On stored paths the text relation is the relation on frames, and so is the shared depth. */
  lemma BranchIsStructural(c: seq<TextFrame>, i: seq<TextFrame>)
    requires Plain(c) && Plain(i)
    ensures InBranch(PathText(c), PathText(i)) == Related(c, i)
    ensures SharedDepth(PathText(c), PathText(i)) == SharedLength(c, i)
  {
    hide PathText, PathSegments, SegmentOccurrence, PrintFrame;
    SegmentsReadBack(c);
    SegmentsReadBack(i);
    SharedLengthPrinted(c, i);
    if c != [] && i != [] {
      OccurrenceReadsBack(c[0]);
      OccurrenceReadsBack(i[0]);
      if c[0].occurrence != i[0].occurrence && Decimal(c[0].occurrence) == Decimal(i[0].occurrence) {
        DecimalInjective(c[0].occurrence, i[0].occurrence);
      }
    }
  }

  /** On any texts: symmetric, reflexive off the root, and never across different top-level occurrences. */
  lemma BranchLaws(a: string, b: string)
    ensures InBranch(a, b) == InBranch(b, a)
    ensures InBranch(a, a) <==> a != "" && a != "$"
    ensures InBranch(a, b) ==>
      SegmentOccurrence(PathSegments(a)[0]) == SegmentOccurrence(PathSegments(b)[0])
  {
    hide SegmentOccurrence;
    var c, i := PathSegments(a), PathSegments(b);
    SharedLengthUnique(c, c, |c|);
    var k := SharedLength(c, i);
    if k > 0 {
      assert c[..k][0] == i[..k][0];
    }
  }

  /** Instruments in different top-level occurrences have no row in common. */
  lemma TopOccurrencesAreDisjoint(row: seq<TextFrame>, p: seq<TextFrame>, q: seq<TextFrame>)
    requires p != [] && q != [] && p[0].occurrence != q[0].occurrence
    ensures !(Related(row, p) && Related(row, q))
  {}

  lemma SameTop(c: seq<TextFrame>, i: seq<TextFrame>)
    ensures Related(c, i) ==> c[0].occurrence == i[0].occurrence
  {}

  /** `row` lies on the way from the root to both. */
  predicate CommonAncestor(row: seq<TextFrame>, p: seq<TextFrame>, q: seq<TextFrame>) {
    row != [] && row <= p && row <= q
  }

  /** `row` is below another top-level sequence with the same occurrence. */
  predicate Cousin(row: seq<TextFrame>, p: seq<TextFrame>) {
    row != [] && p != [] && row[0] != p[0] && row[0].occurrence == p[0].occurrence
  }

  /** A related row with the same top-level sequence is a prefix, an extension, or a sibling. */
  lemma RelatedInside(c: seq<TextFrame>, i: seq<TextFrame>)
    requires Related(c, i) && c[0] == i[0]
    ensures c <= i || i <= c || (|c| == |i| && c[..|c| - 1] == i[..|i| - 1])
  {}

  /**
   * Two instruments that diverge strictly inside both paths share exactly the
   * rows of their common ancestors and of same-occurrence top-level cousins.
   */
  lemma SharedRows(row: seq<TextFrame>, p: seq<TextFrame>, q: seq<TextFrame>)
    requires var k := SharedLength(p, q); 0 < k < |p| - 1 && k < |q| - 1
    ensures Related(row, p) && Related(row, q) <==> CommonAncestor(row, p, q) || Cousin(row, p)
  {
    var k := SharedLength(p, q);
    assert p[..k][0] == q[..k][0];
    if row != [] && row[0] != p[0] {
      assert !(row <= p);
    } else if Related(row, p) && Related(row, q) {
      RelatedInside(row, p);
      RelatedInside(row, q);
    }
  }

  /** Same-occurrence cousins below different top-level sequences, or siblings under one parent. */
  predicate Mixes(p: seq<TextFrame>, q: seq<TextFrame>)
    requires p != [] && q != []
  {
    if p[0] != q[0] then p[0].occurrence == q[0].occurrence
    else |p| == |q| && p[..|p| - 1] == q[..|q| - 1]
  }

  lemma SharedLengthBelow(c: seq<TextFrame>, q: seq<TextFrame>, p: seq<TextFrame>)
    requires q <= c && !(p <= q) && !(q <= p)
    ensures SharedLength(c, p) == SharedLength(q, p) < Shorter(p, q)
  {
    var k := SharedLength(q, p);
    assert q[..k] == p[..k] && q[..|q|] == q && p[..|p|] == p;
    assert k < |q| && k < |p|;
    assert c[..k] == q[..k];
    assert c[k] == q[k];
    SharedLengthUnique(c, p, k);
  }

  /**
   * Of two instruments, neither on the other's path: some row at or below one lies
   * in the branch of the other exactly when they are cousins of one occurrence or
   * siblings, whatever occurrences the siblings have.
   */
  lemma InstrumentsKeptApartIff(p: seq<TextFrame>, q: seq<TextFrame>)
    requires p != [] && q != [] && !(p <= q) && !(q <= p)
    ensures (exists c :: q <= c && Related(c, p)) <==> Mixes(p, q)
  {
    forall c | q <= c && Related(c, p)
      ensures Mixes(p, q)
    {
      SharedLengthBelow(c, q, p);
    }
    if Mixes(p, q) {
      SharedLengthBelow(q, q, p);
      MixesRelated(p, q);
      assert q <= q && Related(q, p);
    }
  }

  lemma MixesRelated(p: seq<TextFrame>, q: seq<TextFrame>)
    requires p != [] && q != [] && Mixes(p, q) && p != q && SharedLength(q, p) < Shorter(p, q)
    ensures Related(q, p)
  {
    if p[0] != q[0] {
      SharedLengthUnique(q, p, 0);
    } else {
      assert p == p[..|p| - 1] + [p[|p| - 1]] && q == q[..|q| - 1] + [q[|q| - 1]];
      SharedLengthUnique(q, p, |p| - 1);
    }
  }

  /** Two sequences under one parent occurrence are always in each other's branch, whatever their occurrences. */
  lemma SiblingsMix(parent: seq<TextFrame>, x: TextFrame, y: TextFrame)
    requires parent != [] && Plain(parent + [x]) && Plain(parent + [y])
    ensures InBranch(PathText(parent + [x]), PathText(parent + [y]))
  {
    var p, q := parent + [x], parent + [y];
    BranchIsStructural(p, q);
    assert p[..|parent|] == parent == q[..|parent|];
    if x == y {
      SharedLengthUnique(p, q, |p|);
    } else {
      SharedLengthUnique(p, q, |parent|);
    }
  }
}
