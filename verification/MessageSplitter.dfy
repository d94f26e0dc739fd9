/** Cutting a file that holds several FIN messages into one slice per message. */
module MessageSplitter {
  import opened Bytes
  import Trimming

  const BASIC_HEADER: Bytes := [0x7B, 0x31, 0x3A]        // {1:
  const APPLICATION_HEADER: Bytes := [0x7B, 0x32, 0x3A]  // {2:

  /** Bytes allowed between messages: `$`, white space, SOH and ETX. */
  predicate IsFiller(b: byte) {
    b == DOLLAR || IsWhitespace(b) || b == SOH || b == ETX
  }

  /** SOH, ETX, tab, line feed, form feed, carriage return, blank and `$`: exactly the eight bytes of this table. */
  lemma FillerBytes(b: byte)
    ensures IsFiller(b) <==> b in {0x01, 0x03, 0x09, 0x0A, 0x0C, 0x0D, 0x20, 0x24}
  {}

  ghost predicate AllFiller(s: Bytes) {
    forall k :: 0 <= k < |s| ==> IsFiller(s[k])
  }

  predicate StartsWith(s: Bytes, at: nat, word: Bytes) {
    at + |word| <= |s| && s[at..at + |word|] == word
  }

  predicate Contains(s: Bytes, word: Bytes) {
    exists k | 0 <= k <= |s| :: StartsWith(s, k, word)
  }

  /** Whether the last byte that is not filler is `}`; `closed` answers for the empty text. */
  function ClosedAfter(s: Bytes, closed: bool): bool {
    if s == [] then closed
    else
      var b := s[|s| - 1];
      if IsFiller(b) then ClosedAfter(s[..|s| - 1], closed) else b == CLOSE_BRACE
  }

  /** A message begins at `at`. */
  predicate IsStart(s: Bytes, at: nat) {
    at < |s| && StartsWith(s, at, BASIC_HEADER) && ClosedAfter(s[..at], true)
  }

  // ---- The scan ----

  function Step(closed: bool, b: byte): bool {
    if IsFiller(b) then closed else b == CLOSE_BRACE
  }

  /** The starts at or after `i`, where `closed` describes the text before `i`. */
  function StartsFrom(s: Bytes, i: nat, closed: bool): seq<nat>
    requires i <= |s|
    decreases |s| - i
  {
    if i == |s| then []
    else
      var rest := StartsFrom(s, i + 1, Step(closed, s[i]));
      if StartsWith(s, i, BASIC_HEADER) && closed then [i] + rest else rest
  }

  /** What lies before the first start, and the text from each start to the next. */
  datatype Cuts = Cuts(lead: Bytes, fragments: seq<Bytes>)

  function Cut(s: Bytes, closed: bool): Cuts {
    if s == [] then Cuts([], [])
    else
      var rest := Cut(s[1..], Step(closed, s[0]));
      if StartsWith(s, 0, BASIC_HEADER) && closed then Cuts([], [[s[0]] + rest.lead] + rest.fragments)
      else Cuts([s[0]] + rest.lead, rest.fragments)
  }

  /** A fragment counts, without its trailing filler, if it has an application header. */
  function Kept(fragments: seq<Bytes>): seq<Bytes> {
    if fragments == [] then []
    else
      var message := Trimming.TrimEnd(fragments[|fragments| - 1], IsFiller);
      Kept(fragments[..|fragments| - 1]) + (if Contains(message, APPLICATION_HEADER) then [message] else [])
  }

  function Split(s: Bytes): seq<Bytes> {
    Kept(Cut(s, true).fragments)
  }

  /** The end of fragment `n`. */
  function EndOf(s: Bytes, starts: seq<nat>, n: nat): nat
    requires n < |starts|
  {
    if n + 1 < |starts| then starts[n + 1] else |s|
  }

  /** The starts increase from `i`, the lead ends at the first, and the fragments are the slices between them. */
  ghost predicate CutsAt(s: Bytes, i: nat, starts: seq<nat>, cuts: Cuts) {
    && i <= |s|
    && |cuts.fragments| == |starts|
    && (starts == [] ==> cuts.lead == s[i..])
    && (starts != [] ==> i <= starts[0] <= |s| && cuts.lead == s[i..starts[0]])
    && (forall n: nat {:trigger cuts.fragments[n]} {:trigger EndOf(s, starts, n)} :: n < |starts| ==>
          && i <= starts[n] < EndOf(s, starts, n) <= |s|
          && cuts.fragments[n] == s[starts[n]..EndOf(s, starts, n)])
  }

  lemma CutsAtStart(s: Bytes, i: nat, starts: seq<nat>, cuts: Cuts)
    requires i < |s| && CutsAt(s, i + 1, starts, cuts)
    ensures CutsAt(s, i, [i] + starts, Cuts([], [[s[i]] + cuts.lead] + cuts.fragments))
  {}

  lemma NoCutsAtEnd(s: Bytes)
    ensures CutsAt(s, |s|, [], Cuts([], []))
  {}

  lemma CutsLater(s: Bytes, i: nat, starts: seq<nat>, cuts: Cuts)
    requires i < |s| && CutsAt(s, i + 1, starts, cuts)
    ensures CutsAt(s, i, starts, Cuts([s[i]] + cuts.lead, cuts.fragments))
  {}

  lemma {:induction false} CutsAtStarts(s: Bytes, i: nat, closed: bool)
    requires i <= |s|
    ensures CutsAt(s, i, StartsFrom(s, i, closed), Cut(s[i..], closed))
    decreases |s| - i
  {
    hide StartsWith, CutsAt;
    if i == |s| {
      NoCutsAtEnd(s);
      assert s[i..] == [];
    } else {
      var closed' := Step(closed, s[i]);
      CutsAtStarts(s, i + 1, closed');
      assert s[i..][1..] == s[i + 1..];
      assert StartsWith(s[i..], 0, BASIC_HEADER) == StartsWith(s, i, BASIC_HEADER) by {
        SameStart(s, i, BASIC_HEADER);
      }
      var starts, cuts := StartsFrom(s, i + 1, closed'), Cut(s[i + 1..], closed');
      if StartsWith(s, i, BASIC_HEADER) && closed {
        CutsAtStart(s, i, starts, cuts);
      } else {
        CutsLater(s, i, starts, cuts);
      }
    }
  }

  lemma SameStart(s: Bytes, i: nat, word: Bytes)
    requires i <= |s|
    ensures StartsWith(s[i..], 0, word) == StartsWith(s, i, word)
  {}

  /** Exactly the positions where a message begins. */
  lemma {:induction false} StartsFromExact(s: Bytes, i: nat, closed: bool)
    requires i <= |s| && closed == ClosedAfter(s[..i], true)
    ensures forall k: nat :: k in StartsFrom(s, i, closed) <==> i <= k && IsStart(s, k)
    decreases |s| - i
  {
    if i < |s| {
      assert s[..i + 1][..i] == s[..i];
      StartsFromExact(s, i + 1, Step(closed, s[i]));
    }
  }

  // ---- The loops ----

  method HasApplicationHeader(fragment: Bytes) returns (found: bool)
    ensures found == Contains(fragment, APPLICATION_HEADER)
  {
    found := false;
    for k := 0 to |fragment|
      invariant found == exists j | 0 <= j < k :: StartsWith(fragment, j, APPLICATION_HEADER)
    {
      found := found || StartsWith(fragment, k, APPLICATION_HEADER);
    }
  }

  method DropTrailingFiller(fragment: Bytes) returns (r: Bytes)
    ensures r == Trimming.TrimEnd(fragment, IsFiller)
  {
    r := fragment;
    while r != [] && IsFiller(r[|r| - 1])
      invariant Trimming.TrimEnd(r, IsFiller) == Trimming.TrimEnd(fragment, IsFiller)
    {
      r := r[..|r| - 1];
    }
  }

  method FindStarts(input: Bytes) returns (starts: seq<nat>)
    ensures starts == StartsFrom(input, 0, true)
  {
    hide StartsWith;
    starts := [];
    var prevClosed := true;
    for i := 0 to |input|
      invariant starts + StartsFrom(input, i, prevClosed) == StartsFrom(input, 0, true)
    {
      var b := input[i];
      ghost var before, rest := starts, StartsFrom(input, i + 1, Step(prevClosed, b));
      if StartsWith(input, i, BASIC_HEADER) && prevClosed {
        starts := starts + [i];
        assert starts + rest == before + ([i] + rest);
      }
      if !IsFiller(b) {
        prevClosed := b == CLOSE_BRACE;
      }
    }
  }

  method SplitMessages(input: Bytes) returns (out: seq<Bytes>)
    ensures out == Split(input)
  {
    hide StartsFrom, Cut, Contains;
    var starts := FindStarts(input);
    CutsAtStarts(input, 0, true);
    assert input[0..] == input;
    ghost var fragments := Cut(input, true).fragments;
    out := [];
    for n := 0 to |starts|
      invariant out == Kept(fragments[..n])
    {
      assert starts[n] < EndOf(input, starts, n) <= |input|;
      assert fragments[n] == input[starts[n]..EndOf(input, starts, n)];
      var end := if n + 1 < |starts| then starts[n + 1] else |input|;
      var fragment := DropTrailingFiller(input[starts[n]..end]);
      var keep := HasApplicationHeader(fragment);
      assert fragments[..n + 1][..n] == fragments[..n];
      if keep {
        out := out + [fragment];
      }
    }
    assert fragments[..|starts|] == fragments;
  }

  // ---- What the messages of a file are ----

  /**
   * A message occupies `[a, b)`: it begins where one may begin, carries an
   * application header, ends on a byte that is not filler, and only filler
   * separates it from the next start or the end of the text.
   */
  ghost predicate IsMessage(s: Bytes, a: nat, b: nat) {
    && a < b <= |s|
    && IsStart(s, a)
    && !IsFiller(s[b - 1])
    && Contains(s[a..b], APPLICATION_HEADER)
    && NextStart(s, a, b)
  }

  /** From `b` there is only filler up to `e`, where the next start after `a` or the end of the text is. */
  ghost predicate GapTo(s: Bytes, a: nat, b: nat, e: nat) {
    && b <= e <= |s|
    && (e == |s| || IsStart(s, e))
    && (forall k :: b <= k < e ==> IsFiller(s[k]))
    && (forall k :: a < k < e ==> !IsStart(s, k))
  }

  ghost predicate NextStart(s: Bytes, a: nat, b: nat) {
    exists e :: GapTo(s, a, b, e)
  }

  ghost predicate IncreasingWithin(starts: seq<nat>, i: nat, end: nat) {
    && (forall n :: 0 <= n < |starts| ==> i <= starts[n] < end)
    && (forall m, n :: 0 <= m < n < |starts| ==> starts[m] < starts[n])
  }

  lemma {:induction false} StartsIncrease(s: Bytes, i: nat, closed: bool)
    requires i <= |s|
    ensures IncreasingWithin(StartsFrom(s, i, closed), i, |s|)
    decreases |s| - i
  {
    hide StartsWith;
    if i < |s| {
      StartsIncrease(s, i + 1, Step(closed, s[i]));
    }
  }

  /** Fragment `n` runs from a start to the next start. */
  lemma FragmentBounds(s: Bytes, starts: seq<nat>, n: nat)
    requires starts == StartsFrom(s, 0, true) && n < |starts|
    ensures var a, e := starts[n], EndOf(s, starts, n);
      && a < e <= |s| && IsStart(s, a) && (e == |s| || IsStart(s, e))
      && forall k :: a < k < e ==> !IsStart(s, k)
  {
    hide StartsFrom, IsStart;
    assert s[..0] == [];
    StartsFromExact(s, 0, true);
    StartsIncrease(s, 0, true);
    assert starts[n] in starts;
    if n + 1 < |starts| {
      assert starts[n + 1] in starts;
    }
    forall k: nat | starts[n] < k < EndOf(s, starts, n)
      ensures !IsStart(s, k)
    {
      assert forall m :: 0 <= m < |starts| && m <= n ==> starts[m] <= starts[n];
      assert forall m :: n + 1 <= m < |starts| ==> starts[n + 1] <= starts[m];
      assert k !in starts;
    }
  }

  /** The only candidate that begins at `a` ends where the filler begins. */
  lemma MessageEndsAtFiller(s: Bytes, a: nat, b: nat, e: nat, c: nat)
    requires IsStart(s, a) && a < e && GapTo(s, a, b, e) && a <= b && (b > a ==> !IsFiller(s[b - 1]))
    ensures IsMessage(s, a, b) <==> Contains(s[a..b], APPLICATION_HEADER)
    ensures IsMessage(s, a, c) ==> c == b
  {}

  lemma FillerUpTo(s: Bytes, a: nat, b: nat, e: nat)
    requires a <= b <= e <= |s| && (e == |s| || IsStart(s, e)) && forall k :: a < k < e ==> !IsStart(s, k)
    requires forall k :: b - a <= k < e - a ==> IsFiller(s[a..e][k])
    ensures GapTo(s, a, b, e)
  {
    hide IsStart;
    forall k | b <= k < e
      ensures IsFiller(s[k])
    {
      assert s[k] == s[a..e][k - a];
    }
  }

  /** `at` gives the place of each message, in order and without overlap, before `end`. */
  ghost predicate Locates(s: Bytes, at: seq<(nat, nat)>, messages: seq<Bytes>, end: nat) {
    && |at| == |messages|
    && (forall m :: 0 <= m < |at| ==>
          && IsMessage(s, at[m].0, at[m].1)
          && at[m].1 <= end
          && messages[m] == s[at[m].0..at[m].1])
    && (forall l, m :: 0 <= l < m < |at| ==> at[l].1 <= at[m].0)
  }

  /** Fragment `n`, without its filler, is the one message that begins there, or there is none. */
  lemma FragmentIsMessage(s: Bytes, n: nat) returns (b: nat)
    requires n < |StartsFrom(s, 0, true)| == |Cut(s, true).fragments|
    ensures var a := StartsFrom(s, 0, true)[n];
      var text := Trimming.TrimEnd(Cut(s, true).fragments[n], IsFiller);
      && a <= b <= EndOf(s, StartsFrom(s, 0, true), n) <= |s|
      && text == s[a..b]
      && (IsMessage(s, a, b) <==> Contains(text, APPLICATION_HEADER))
      && (forall c :: IsMessage(s, a, c) ==> c == b)
  {
    hide StartsFrom, IsMessage, Cut, Contains, IsStart, GapTo;
    var starts, fragments := StartsFrom(s, 0, true), Cut(s, true).fragments;
    var a, e := starts[n], EndOf(s, starts, n);
    CutsAtStarts(s, 0, true);
    assert s[0..] == s;
    FragmentBounds(s, starts, n);
    assert fragments[n] == s[a..e];
    var j := Trimming.TrimEndCut(fragments[n], IsFiller);
    b := a + j;
    assert fragments[n][..j] == s[a..b];
    assert b > a ==> fragments[n][j - 1] == s[b - 1];
    FillerUpTo(s, a, b, e);
    forall c: nat
      ensures IsMessage(s, a, b) <==> Contains(s[a..b], APPLICATION_HEADER)
      ensures IsMessage(s, a, c) ==> c == b
    {
      MessageEndsAtFiller(s, a, b, e, c);
    }
  }

  lemma {:induction false} KeptAreMessages(s: Bytes, n: nat) returns (at: seq<(nat, nat)>)
    requires n <= |StartsFrom(s, 0, true)| == |Cut(s, true).fragments|
    ensures var starts := StartsFrom(s, 0, true);
      && Locates(s, at, Kept(Cut(s, true).fragments[..n]), if n < |starts| then starts[n] else |s|)
      && (forall k, b: nat :: 0 <= k < n && IsMessage(s, starts[k], b) ==> (starts[k], b) in at)
  {
    hide StartsFrom, IsMessage, Cut, Contains;
    at := [];
    if n > 0 {
      var starts, fragments := StartsFrom(s, 0, true), Cut(s, true).fragments;
      at := KeptAreMessages(s, n - 1);
      assert fragments[..n][..n - 1] == fragments[..n - 1];
      var b := FragmentIsMessage(s, n - 1);
      var a := starts[n - 1];
      if IsMessage(s, a, b) {
        at := at + [(a, b)];
      }
    }
  }

  /**
   * On any input: the result is exactly the messages of the file, each once, in
   * order and without overlap.
   */
  lemma SplitIsExact(s: Bytes) returns (at: seq<(nat, nat)>)
    ensures Locates(s, at, Split(s), |s|)
    ensures forall a: nat, b: nat :: IsMessage(s, a, b) ==> (a, b) in at
  {
    hide StartsFrom, Cut, IsStart, Contains, NextStart;
    var starts, fragments := StartsFrom(s, 0, true), Cut(s, true).fragments;
    CutsAtStarts(s, 0, true);
    assert s[0..] == s && s[..0] == [];
    StartsFromExact(s, 0, true);
    at := KeptAreMessages(s, |starts|);
    assert fragments[..|starts|] == fragments;
  }

  // ---- Splitting undoes joining ----

  /** Cutting a text that ends closed, before another envelope, cuts the two apart. */
  lemma {:induction false} CutConcat(x: Bytes, y: Bytes, closed: bool)
    requires StartsWith(y, 0, BASIC_HEADER) && ClosedAfter(x, closed)
    ensures Cut(x + y, closed) == Cuts(Cut(x, closed).lead, Cut(x, closed).fragments + Cut(y, true).fragments)
    ensures Cut(y, true).lead == []
  {
    hide ClosedAfter;
    assert x == [] ==> closed by {
      ClosedCons(x, closed);
    }
    if x == [] {
      assert x + y == y;
    } else {
      ClosedCons(x, closed);
      CutConcat(x[1..], y, Step(closed, x[0]));
      assert (x + y)[1..] == x[1..] + y;
      HeadStart(x, y, closed);
    }
  }

  lemma {:induction false} ClosedCons(x: Bytes, closed: bool)
    ensures x == [] ==> ClosedAfter(x, closed) == closed
    ensures x != [] ==> ClosedAfter(x, closed) == ClosedAfter(x[1..], Step(closed, x[0]))
  {
    if |x| > 1 {
      var init := x[..|x| - 1];
      ClosedCons(init, closed);
      assert x[1..][..|x| - 2] == init[1..];
    }
  }

  /** `{1:` cannot straddle the end of a text that ends closed. */
  lemma HeadStart(x: Bytes, y: Bytes, closed: bool)
    requires x != [] && StartsWith(y, 0, BASIC_HEADER)
    ensures StartsWith(x + y, 0, BASIC_HEADER) == StartsWith(x, 0, BASIC_HEADER)
  {
    hide StartsWith;
    HeaderBytes(x + y, 0);
    HeaderBytes(x, 0);
    HeaderBytes(y, 0);
  }

  lemma HeaderBytes(s: Bytes, at: nat)
    ensures StartsWith(s, at, BASIC_HEADER) <==>
      at + 3 <= |s| && s[at] == OPEN_BRACE && s[at + 1] == 0x31 && s[at + 2] == COLON
  {}

  lemma {:induction false} KeptConcat(a: seq<Bytes>, b: seq<Bytes>)
    ensures Kept(a + b) == Kept(a) + Kept(b)
  {
    hide Contains;
    if b == [] {
      assert a + b == a;
    } else {
      assert (a + b)[..|a + b| - 1] == a + b[..|b| - 1];
      KeptConcat(a, b[..|b| - 1]);
    }
  }

  /** Files can be split one after the other, if the first ends closed and the second begins with an envelope. */
  lemma SplitConcat(x: Bytes, y: Bytes)
    requires StartsWith(y, 0, BASIC_HEADER) && ClosedAfter(x, true)
    ensures Split(x + y) == Split(x) + Split(y)
  {
    hide Cut, ClosedAfter, StartsWith, Kept;
    CutConcat(x, y, true);
    KeptConcat(Cut(x, true).fragments, Cut(y, true).fragments);
  }

  lemma {:induction false} CutLeadingFiller(f: Bytes, y: Bytes, closed: bool)
    requires AllFiller(f)
    ensures Cut(f + y, closed).fragments == Cut(y, closed).fragments
  {
    hide StartsWith;
    if f == [] {
      assert f + y == y;
    } else {
      assert (f + y)[1..] == f[1..] + y;
      CutLeadingFiller(f[1..], y, closed);
      HeaderBytes(f + y, 0);
    }
  }

  /** Filler after the last fragment belongs to it. */
  function WithFiller(fragments: seq<Bytes>, f: Bytes): seq<Bytes> {
    if fragments == [] then [] else fragments[..|fragments| - 1] + [fragments[|fragments| - 1] + f]
  }

  function CutsWithFiller(cuts: Cuts, f: Bytes): Cuts {
    Cuts(if cuts.fragments == [] then cuts.lead + f else cuts.lead, WithFiller(cuts.fragments, f))
  }

  lemma FillerAndNewLead(b: byte, rest: Cuts, f: Bytes)
    ensures CutsWithFiller(Cuts([b] + rest.lead, rest.fragments), f) ==
      Cuts([b] + CutsWithFiller(rest, f).lead, CutsWithFiller(rest, f).fragments)
  {}

  lemma FillerAndNewStart(b: byte, rest: Cuts, f: Bytes)
    ensures CutsWithFiller(Cuts([], [[b] + rest.lead] + rest.fragments), f) ==
      Cuts([], [[b] + CutsWithFiller(rest, f).lead] + CutsWithFiller(rest, f).fragments)
  {
    var all := [[b] + rest.lead] + rest.fragments;
    if rest.fragments == [] {
      assert [b] + (rest.lead + f) == [b] + rest.lead + f;
    } else {
      assert all[..|all| - 1] == [[b] + rest.lead] + rest.fragments[..|rest.fragments| - 1];
    }
  }

  lemma {:induction false} CutTrailingFiller(x: Bytes, f: Bytes, closed: bool)
    requires AllFiller(f)
    ensures Cut(x + f, closed) == CutsWithFiller(Cut(x, closed), f)
  {
    hide StartsWith, CutsWithFiller;
    if x == [] {
      FillerAlone(x, f, closed);
    } else {
      var rest := Cut(x[1..], Step(closed, x[0]));
      assert (x + f)[1..] == x[1..] + f;
      CutTrailingFiller(x[1..], f, Step(closed, x[0]));
      FillerAndNewLead(x[0], rest, f);
      FillerAndNewStart(x[0], rest, f);
      HeaderBytes(x, 0);
      HeaderBytes(x + f, 0);
    }
  }

  lemma FillerAlone(x: Bytes, f: Bytes, closed: bool)
    requires x == [] && AllFiller(f)
    ensures Cut(x + f, closed) == CutsWithFiller(Cut(x, closed), f)
  {
    assert x + f == f;
    FillerHasNoStart(f, closed);
  }

  lemma {:induction false} FillerHasNoStart(f: Bytes, closed: bool)
    requires AllFiller(f)
    ensures Cut(f, closed) == Cuts(f, [])
  {
    hide StartsWith;
    if f != [] {
      HeaderBytes(f, 0);
      FillerHasNoStart(f[1..], closed);
    }
  }

  lemma {:induction false} TrimEndOfFilled(v: Bytes, f: Bytes)
    requires AllFiller(f)
    ensures Trimming.TrimEnd(v + f, IsFiller) == Trimming.TrimEnd(v, IsFiller)
  {
    if f == [] {
      assert v + f == v;
    } else {
      assert (v + f)[..|v + f| - 1] == v + f[..|f| - 1];
      TrimEndOfFilled(v, f[..|f| - 1]);
    }
  }

  lemma SplitFiller(before: Bytes, x: Bytes, after: Bytes)
    requires AllFiller(before) && AllFiller(after)
    ensures Split(before + x + after) == Split(x)
  {
    hide Cut, Contains;
    assert before + x + after == before + (x + after);
    CutLeadingFiller(before, x + after, true);
    CutTrailingFiller(x, after, true);
    var fragments := Cut(x, true).fragments;
    if fragments != [] {
      var filled := WithFiller(fragments, after);
      assert filled[..|filled| - 1] == fragments[..|fragments| - 1];
      TrimEndOfFilled(fragments[|fragments| - 1], after);
    }
  }

  /** One envelope: from `{1:` to `}`, with no further `{1:` right after a closed brace. */
  ghost predicate IsEnvelope(e: Bytes) {
    && StartsWith(e, 0, BASIC_HEADER)
    && e[|e| - 1] == CLOSE_BRACE
    && forall k :: 0 < k < |e| ==> !IsStart(e, k)
  }

  lemma {:induction false} CutWithoutStarts(x: Bytes, closed: bool)
    requires forall k :: 0 <= k < |x| && StartsWith(x, k, BASIC_HEADER) ==> !ClosedAfter(x[..k], closed)
    ensures Cut(x, closed) == Cuts(x, [])
  {
    hide StartsWith, ClosedAfter;
    if x != [] {
      var closed' := Step(closed, x[0]);
      forall k | 0 <= k < |x| - 1 && StartsWith(x[1..], k, BASIC_HEADER)
        ensures !ClosedAfter(x[1..][..k], closed')
      {
        HeaderBytes(x, k + 1);
        HeaderBytes(x[1..], k);
        ClosedCons(x[..k + 1], closed);
        assert x[..k + 1][1..] == x[1..][..k];
      }
      CutWithoutStarts(x[1..], closed');
      ClosedCons(x[..0], closed);
    }
  }

  /** An envelope on its own is one fragment, with nothing to trim. */
  lemma CutEnvelope(e: Bytes)
    requires IsEnvelope(e)
    ensures Cut(e, true).fragments == [e]
  {
    hide StartsWith, ClosedAfter;
    HeaderBytes(e, 0);
    ClosedCons(e[..0], true);
    forall k | 0 <= k < |e| - 1 && StartsWith(e[1..], k, BASIC_HEADER)
      ensures !ClosedAfter(e[1..][..k], false)
    {
      HeaderBytes(e, k + 1);
      HeaderBytes(e[1..], k);
      ClosedCons(e[..k + 1], true);
      assert e[..k + 1][1..] == e[1..][..k];
      assert !IsStart(e, k + 1);
    }
    CutWithoutStarts(e[1..], false);
    assert [e[0]] + e[1..] == e;
  }

  lemma SplitEnvelope(e: Bytes)
    requires IsEnvelope(e)
    ensures Split(e) == if Contains(e, APPLICATION_HEADER) then [e] else []
    ensures ClosedAfter(e, true)
  {
    hide Cut, StartsWith, Contains;
    CutEnvelope(e);
    HeaderBytes(e, 0);
    assert [e][..0] == [];
    assert Trimming.TrimEnd(e, IsFiller) == e;
    assert Kept([e]) == Kept([]) + (if Contains(e, APPLICATION_HEADER) then [e] else []);
    assert Split(e) == Kept([e]);
  }

  // ---- Files ----

  datatype Piece = Piece(envelope: Bytes, gap: Bytes)

  /** A file: each envelope followed by its filler. */
  function Joined(pieces: seq<Piece>): Bytes {
    if pieces == [] then [] else pieces[0].envelope + pieces[0].gap + Joined(pieces[1..])
  }

  /** The envelopes that carry an application header; acknowledgements do not. */
  function Messages(pieces: seq<Piece>): seq<Bytes> {
    if pieces == [] then []
    else
      (if Contains(pieces[0].envelope, APPLICATION_HEADER) then [pieces[0].envelope] else []) + Messages(pieces[1..])
  }

  ghost predicate WellJoined(pieces: seq<Piece>) {
    forall k :: 0 <= k < |pieces| ==> IsEnvelope(pieces[k].envelope) && AllFiller(pieces[k].gap)
  }

  lemma {:induction false} ClosedAfterFiller(x: Bytes, f: Bytes, closed: bool)
    requires AllFiller(f)
    ensures ClosedAfter(x + f, closed) == ClosedAfter(x, closed)
  {
    if f == [] {
      assert x + f == x;
    } else {
      assert (x + f)[..|x + f| - 1] == x + f[..|f| - 1];
      ClosedAfterFiller(x, f[..|f| - 1], closed);
    }
  }

  lemma {:induction false} SplitJoined(pieces: seq<Piece>)
    requires WellJoined(pieces)
    ensures Split(Joined(pieces)) == Messages(pieces)
  {
    hide IsEnvelope, Contains, ClosedAfter, StartsWith, Split, AllFiller;
    if pieces == [] {
      SplitNothing();
    } else {
      var p, rest := pieces[0], pieces[1..];
      assert IsEnvelope(p.envelope) && AllFiller(p.gap);
      SplitJoined(rest);
      SplitEnvelope(p.envelope);
      NoFiller();
      SplitFiller([], p.envelope, p.gap);
      assert [] + p.envelope + p.gap == p.envelope + p.gap;
      if rest == [] {
        assert Joined(pieces) == p.envelope + p.gap;
      } else {
        ClosedAfterFiller(p.envelope, p.gap, true);
        assert IsEnvelope(rest[0].envelope);
        BeginsWithEnvelope(rest[0].envelope, rest[0].gap + Joined(rest[1..]));
        assert Joined(rest) == rest[0].envelope + (rest[0].gap + Joined(rest[1..]));
        SplitConcat(p.envelope + p.gap, Joined(rest));
      }
    }
  }

  lemma SplitNothing()
    ensures Split([]) == []
  {}

  lemma NoFiller()
    ensures AllFiller([])
  {}

  lemma BeginsWithEnvelope(e: Bytes, tail: Bytes)
    requires IsEnvelope(e)
    ensures StartsWith(e + tail, 0, BASIC_HEADER)
  {}

  /**
   * Messages joined with any filler before, between and after them, and with
   * acknowledgement envelopes among them, are recovered in order, byte for byte.
   */
  lemma SplittingUndoesJoining(lead: Bytes, pieces: seq<Piece>)
    requires AllFiller(lead) && WellJoined(pieces)
    ensures Split(lead + Joined(pieces)) == Messages(pieces)
  {
    hide Split, Joined, Messages;
    SplitJoined(pieces);
    NoFiller();
    SplitFiller(lead, Joined(pieces), []);
    assert lead + Joined(pieces) + [] == lead + Joined(pieces);
  }
}
