/** Filtering, stable sorting by descending depth, and first hits. */
module Selection {
  import opened Bytes

  function Filter<T>(xs: seq<T>, keep: T -> bool): seq<T> {
    if xs == [] then []
    else
      var last := xs[|xs| - 1];
      Filter(xs[..|xs| - 1], keep) + (if keep(last) then [last] else [])
  }

  /** The first element on which `f` succeeds, with what it yields. */
  function FirstHit<T, R>(xs: seq<T>, f: T -> Option<R>): Option<(T, R)> {
    if xs == [] then None
    else
      var before := FirstHit(xs[..|xs| - 1], f);
      var last := xs[|xs| - 1];
      if before.Some? then before else if f(last).Some? then Some((last, f(last).value)) else None
  }

  /** Deepest first; a new element goes behind those at least as deep. */
  function Insert<T>(xs: seq<T>, x: T, depth: T -> nat): seq<T> {
    if xs == [] || depth(xs[|xs| - 1]) >= depth(x) then xs + [x]
    else Insert(xs[..|xs| - 1], x, depth) + [xs[|xs| - 1]]
  }

  /** A stable sort, deepest first. */
  function SortDeepest<T>(xs: seq<T>, depth: T -> nat): seq<T> {
    if xs == [] then [] else Insert(SortDeepest(xs[..|xs| - 1], depth), xs[|xs| - 1], depth)
  }

  ghost predicate DeepestFirst<T>(xs: seq<T>, depth: T -> nat) {
    forall i, j :: 0 <= i < j < |xs| ==> depth(xs[i]) >= depth(xs[j])
  }

  /** Picks the elements of one depth. */
  function AtDepth<T>(depth: T -> nat, d: nat): T -> bool {
    x => depth(x) == d
  }

  // ---- Filter ----

  lemma FilterOne<T>(x: T, keep: T -> bool)
    ensures Filter([x], keep) == if keep(x) then [x] else []
  {}

  lemma {:induction false} FilterConcat<T(!new)>(a: seq<T>, b: seq<T>, keep: T -> bool)
    ensures Filter(a + b, keep) == Filter(a, keep) + Filter(b, keep)
  {
    if b == [] {
      assert a + b == a;
    } else {
      assert (a + b)[..|a + b| - 1] == a + b[..|b| - 1];
      FilterConcat(a, b[..|b| - 1], keep);
    }
  }

  lemma {:induction false} FilterMembers<T(!new)>(xs: seq<T>, keep: T -> bool)
    ensures forall x :: x in Filter(xs, keep) <==> x in xs && keep(x)
  {
    if xs != [] {
      var rest, last := xs[..|xs| - 1], xs[|xs| - 1];
      assert xs == rest + [last];
      FilterMembers(rest, keep);
    }
  }

  lemma {:induction false} FilterTwice<T(!new)>(xs: seq<T>, f: T -> bool, g: T -> bool, both: T -> bool)
    requires forall x :: both(x) == (f(x) && g(x))
    ensures Filter(Filter(xs, f), g) == Filter(xs, both)
  {
    if xs != [] {
      var rest, last := xs[..|xs| - 1], xs[|xs| - 1];
      FilterTwice(rest, f, g, both);
      FilterConcat(Filter(rest, f), if f(last) then [last] else [], g);
      FilterOne(last, g);
    }
  }

  lemma {:induction false} FilterNone<T(!new)>(xs: seq<T>, keep: T -> bool)
    requires forall x :: x in xs ==> !keep(x)
    ensures Filter(xs, keep) == []
  {
    if xs != [] {
      assert xs[|xs| - 1] in xs;
      FilterNone(xs[..|xs| - 1], keep);
    }
  }

  lemma {:induction false} FilterAll<T(!new)>(xs: seq<T>, keep: T -> bool)
    requires forall x :: x in xs ==> keep(x)
    ensures Filter(xs, keep) == xs
  {
    if xs != [] {
      assert xs[|xs| - 1] in xs;
      FilterAll(xs[..|xs| - 1], keep);
    }
  }

  lemma AtOwnDepth<T>(x: T, depth: T -> nat)
    ensures AtDepth(depth, depth(x))(x)
  {}

  lemma {:induction false} FirstOfFilter<T(!new)>(xs: seq<T>, keep: T -> bool)
    requires xs != [] && keep(xs[0])
    ensures Filter(xs, keep) != [] && Filter(xs, keep)[0] == xs[0]
  {
    if |xs| > 1 {
      FirstOfFilter(xs[..|xs| - 1], keep);
    }
  }

  // ---- Sorting ----

  lemma {:induction false} InsertMembers<T(!new)>(xs: seq<T>, x: T, depth: T -> nat)
    ensures forall y :: y in Insert(xs, x, depth) <==> y in xs || y == x
    ensures |Insert(xs, x, depth)| == |xs| + 1
  {
    if xs != [] && depth(xs[|xs| - 1]) < depth(x) {
      assert xs == xs[..|xs| - 1] + [xs[|xs| - 1]];
      InsertMembers(xs[..|xs| - 1], x, depth);
    }
  }

  lemma {:induction false} InsertKeepsOrder<T(!new)>(xs: seq<T>, x: T, depth: T -> nat)
    requires DeepestFirst(xs, depth)
    ensures DeepestFirst(Insert(xs, x, depth), depth)
  {
    if xs != [] && depth(xs[|xs| - 1]) < depth(x) {
      var rest, last := xs[..|xs| - 1], xs[|xs| - 1];
      InsertKeepsOrder(rest, x, depth);
      InsertMembers(rest, x, depth);
      var ys := Insert(rest, x, depth);
      forall i | 0 <= i < |ys|
        ensures depth(ys[i]) >= depth(last)
      {
        assert ys[i] in ys;
        if ys[i] in rest {
          var j :| 0 <= j < |rest| && rest[j] == ys[i];
          assert depth(xs[j]) >= depth(xs[|xs| - 1]);
        }
      }
    }
  }

  lemma {:induction false} InsertIsStable<T(!new)>(xs: seq<T>, x: T, depth: T -> nat, d: nat)
    ensures Filter(Insert(xs, x, depth), AtDepth(depth, d)) ==
      Filter(xs, AtDepth(depth, d)) + (if depth(x) == d then [x] else [])
  {
    hide Filter;
    var keep := AtDepth(depth, d);
    FilterOne(x, keep);
    if xs == [] || depth(xs[|xs| - 1]) >= depth(x) {
      FilterConcat(xs, [x], keep);
    } else {
      var rest, last := xs[..|xs| - 1], xs[|xs| - 1];
      assert xs == rest + [last];
      InsertIsStable(rest, x, depth, d);
      FilterConcat(Insert(rest, x, depth), [last], keep);
      FilterConcat(rest, [last], keep);
      FilterOne(last, keep);
    }
  }

  lemma {:induction false} SortOrders<T(!new)>(xs: seq<T>, depth: T -> nat)
    ensures DeepestFirst(SortDeepest(xs, depth), depth)
    ensures forall y :: y in SortDeepest(xs, depth) <==> y in xs
    ensures |SortDeepest(xs, depth)| == |xs|
  {
    if xs != [] {
      var rest, last := xs[..|xs| - 1], xs[|xs| - 1];
      assert xs == rest + [last];
      SortOrders(rest, depth);
      InsertKeepsOrder(SortDeepest(rest, depth), last, depth);
      InsertMembers(SortDeepest(rest, depth), last, depth);
    }
  }

  /** Elements of one depth keep their order. */
  lemma {:induction false} SortIsStable<T(!new)>(xs: seq<T>, depth: T -> nat, d: nat)
    ensures Filter(SortDeepest(xs, depth), AtDepth(depth, d)) == Filter(xs, AtDepth(depth, d))
  {
    if xs != [] {
      var rest, last := xs[..|xs| - 1], xs[|xs| - 1];
      SortIsStable(rest, depth, d);
      InsertIsStable(SortDeepest(rest, depth), last, depth, d);
    }
  }

  lemma {:induction false} FirstKept<T(!new)>(xs: seq<T>, keep: T -> bool, k: nat)
    requires k < |xs| && keep(xs[k]) && forall j :: 0 <= j < k ==> !keep(xs[j])
    ensures Filter(xs, keep) != [] && Filter(xs, keep)[0] == xs[k]
  {
    if k == |xs| - 1 {
      FilterNone(xs[..k], keep);
    } else {
      FirstKept(xs[..|xs| - 1], keep, k);
    }
  }

  /** The first element after sorting is the first of the deepest that were kept. */
  lemma FirstSorted<T(!new)>(xs: seq<T>, keep: T -> bool, depth: T -> nat, k: nat)
    requires k < |xs| && keep(xs[k])
    requires forall j :: 0 <= j < |xs| && keep(xs[j]) ==> depth(xs[j]) < depth(xs[k]) || (depth(xs[j]) == depth(xs[k]) && k <= j)
    ensures var sorted := SortDeepest(Filter(xs, keep), depth); sorted != [] && sorted[0] == xs[k]
  {
    hide Filter, SortDeepest, AtDepth;
    var kept, d := Filter(xs, keep), depth(xs[k]);
    var sorted := SortDeepest(kept, depth);
    var both := (x: T) => keep(x) && depth(x) == d;
    FilterMembers(xs, keep);
    SortOrders(kept, depth);
    assert xs[k] in sorted;
    var i :| 0 <= i < |sorted| && sorted[i] == xs[k];
    assert sorted[0] in xs;
    assert depth(sorted[0]) == d;
    SortIsStable(kept, depth, d);
    AtOwnDepth(sorted[0], depth);
    FirstOfFilter(sorted, AtDepth(depth, d));
    AtDepthIff(xs, depth, d);
    FilterTwice(xs, keep, AtDepth(depth, d), both);
    FirstKept(xs, both, k);
  }

  lemma AtDepthIff<T(!new)>(xs: seq<T>, depth: T -> nat, d: nat)
    ensures forall x :: AtDepth(depth, d)(x) <==> depth(x) == d
  {}

  // ---- First hits ----

  lemma {:induction false} FirstHitConcat<T(!new), R>(a: seq<T>, b: seq<T>, f: T -> Option<R>)
    ensures FirstHit(a + b, f) == if FirstHit(a, f).Some? then FirstHit(a, f) else FirstHit(b, f)
  {
    if b == [] {
      assert a + b == a;
    } else {
      assert (a + b)[..|a + b| - 1] == a + b[..|b| - 1];
      FirstHitConcat(a, b[..|b| - 1], f);
    }
  }

  /** There is a hit exactly when some element yields one; the hit is an element and what it yields. */
  lemma {:induction false} FirstHitIff<T(!new), R>(xs: seq<T>, f: T -> Option<R>)
    ensures FirstHit(xs, f).None? <==> forall x :: x in xs ==> f(x).None?
    ensures FirstHit(xs, f).Some? ==>
      FirstHit(xs, f).value.0 in xs && f(FirstHit(xs, f).value.0) == Some(FirstHit(xs, f).value.1)
  {
    if xs != [] {
      var rest, last := xs[..|xs| - 1], xs[|xs| - 1];
      assert xs == rest + [last];
      FirstHitIff(rest, f);
    }
  }

  /** Dropping elements other than the hit does not change it. */
  lemma {:induction false} FirstHitFiltered<T(!new), R>(xs: seq<T>, f: T -> Option<R>, keep: T -> bool)
    requires FirstHit(xs, f).Some? && keep(FirstHit(xs, f).value.0)
    ensures FirstHit(Filter(xs, keep), f) == FirstHit(xs, f)
  {
    var rest, last := xs[..|xs| - 1], xs[|xs| - 1];
    FirstHitConcat(Filter(rest, keep), if keep(last) then [last] else [], f);
    if FirstHit(rest, f).Some? {
      FirstHitFiltered(rest, f, keep);
    } else {
      FirstHitIff(rest, f);
      FirstHitIff(Filter(rest, keep), f);
      FilterMembers(rest, keep);
      assert Filter(xs, keep) == Filter(rest, keep) + [last];
      assert FirstHit(xs, f) == Some((last, f(last).value));
    }
  }

  /** In a list with the deepest first, the first hit is among the deepest hits. */
  lemma {:induction false} FirstHitIsDeepest<T(!new), R>(xs: seq<T>, f: T -> Option<R>, depth: T -> nat)
    requires DeepestFirst(xs, depth) && FirstHit(xs, f).Some?
    ensures forall x :: x in xs && f(x).Some? ==> depth(x) <= depth(FirstHit(xs, f).value.0)
  {
    var rest, last := xs[..|xs| - 1], xs[|xs| - 1];
    assert xs == rest + [last];
    FirstHitIff(rest, f);
    if FirstHit(rest, f).Some? {
      FirstHitIsDeepest(rest, f, depth);
      var i :| 0 <= i < |rest| && rest[i] == FirstHit(rest, f).value.0;
      assert xs[i] == rest[i];
    }
  }

  /**
   * Searching a list sorted deepest first finds what searching the original
   * finds among the elements of the greatest depth that has a hit.
   */
  lemma NearestHit<T(!new), R>(xs: seq<T>, f: T -> Option<R>, depth: T -> nat) returns (d: nat)
    requires FirstHit(SortDeepest(xs, depth), f).Some?
    ensures FirstHit(SortDeepest(xs, depth), f) == FirstHit(Filter(xs, AtDepth(depth, d)), f)
    ensures forall x :: x in xs && f(x).Some? ==> depth(x) <= d
  {
    hide SortDeepest, DeepestFirst, Filter, FirstHit;
    var sorted := SortDeepest(xs, depth);
    SortOrders(xs, depth);
    FirstHitIsDeepest(sorted, f, depth);
    d := depth(FirstHit(sorted, f).value.0);
    SortIsStable(xs, depth, d);
    FirstHitFiltered(sorted, f, AtDepth(depth, d));
  }
}
