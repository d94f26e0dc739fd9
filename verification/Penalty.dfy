/**
 * Reconciling the penalties an institution expects with those its depository
 * reports. Money is in whole cents, so that rounding to cents changes nothing.
 */
module Penalty {
  import opened Bytes
  import opened Text

  /** An expected accrual or a reported penalty; the amount is signed, payable negative. */
  datatype Entry = Entry(
    transactionRef: string,
    isin: string,
    counterparty: Option<string>,
    currency: string,
    penaltyType: string,
    amount: int)

  /** Payable amounts are negative and receivable ones positive, whatever the sign of the magnitude. */
  function SignedAmount(magnitude: int, direction: string): int {
    var size := if magnitude < 0 then -magnitude else magnitude;
    if Upper(Strip(direction)) == "RECEIVABLE" then size else -size
  }

  /** Unrecognised types count as settlement fails. */
  function TypeName(penaltyType: string): string {
    if Upper(Strip(penaltyType)) == "LMFP" then "LMFP" else "SEFP"
  }

  function KeyOf(e: Entry): string {
    Upper(Strip(e.transactionRef)) + "|" + Upper(Strip(e.isin)) + "|" + TypeName(e.penaltyType)
  }

  /** Within this many cents a reported amount matches. */
  const TOLERANCE := 1

  datatype Side = Side(amount: int, first: Entry)

  datatype Status = Matched | Break | MissingReported | MissingComputed

  datatype Line = Line(key: string, representative: Entry, computed: int, reported: int, diff: int, status: Status)

  datatype Summary = Summary(
    computedTotal: int,
    reportedTotal: int,
    netDiff: int,
    accruals: nat,
    reported: nat,
    matched: nat,
    breaks: nat,
    missingReported: nat,
    missingComputed: nat,
    breakAmount: nat,
    allReconciled: bool)

  function Abs(x: int): nat {
    if x < 0 then -x else x
  }

  // ---- One side ----

  function Keys(entries: seq<Entry>): set<string> {
    set i | 0 <= i < |entries| :: KeyOf(entries[i])
  }

  function Total(entries: seq<Entry>): int {
    if entries == [] then 0 else Total(entries[..|entries| - 1]) + entries[|entries| - 1].amount
  }

  /** The sum of the amounts under one key. */
  function SumOf(entries: seq<Entry>, key: string): int {
    if entries == [] then 0
    else
      var e := entries[|entries| - 1];
      SumOf(entries[..|entries| - 1], key) + (if KeyOf(e) == key then e.amount else 0)
  }

  /** The first entry under a key. */
  function FirstOf(entries: seq<Entry>, key: string): Entry
    requires key in Keys(entries)
  {
    var rest, e := entries[..|entries| - 1], entries[|entries| - 1];
    if key in Keys(rest) then FirstOf(rest, key) else e
  }

  /** What one side has under a key: its amounts added up, its other details from the first entry. */
  function SideOf(entries: seq<Entry>, key: string): Option<Side> {
    if key in Keys(entries) then Some(Side(SumOf(entries, key), FirstOf(entries, key))) else None
  }

  function Added(side: Option<Side>, e: Entry): Side {
    match side
    case None => Side(e.amount, e)
    case Some(s) => s.(amount := s.amount + e.amount)
  }

  lemma KeysOfMore(entries: seq<Entry>, e: Entry)
    ensures Keys(entries + [e]) == Keys(entries) + {KeyOf(e)}
  {
    var all := entries + [e];
    assert forall i :: 0 <= i < |entries| ==> all[i] == entries[i];
    assert all[|entries|] == e;
  }

  /** One more entry changes its own key only: it is added to the side there, or starts it. */
  lemma SideOfMore(entries: seq<Entry>, e: Entry, key: string)
    ensures SideOf(entries + [e], key) == if KeyOf(e) == key then Some(Added(SideOf(entries, key), e)) else SideOf(entries, key)
  {
    hide KeyOf, Keys;
    KeysOfMore(entries, e);
    assert (entries + [e])[..|entries|] == entries;
    NothingUnder(entries, key);
  }

  lemma {:induction false} NothingUnder(entries: seq<Entry>, key: string)
    ensures key !in Keys(entries) ==> SumOf(entries, key) == 0
  {
    if entries != [] {
      var rest, e := entries[..|entries| - 1], entries[|entries| - 1];
      assert entries == rest + [e];
      KeysOfMore(rest, e);
      NothingUnder(rest, key);
    }
  }

  // ---- Lines and summary ----

  function StatusOf(c: Option<Side>, r: Option<Side>, diff: int): Status {
    if c.Some? && r.Some? then if Abs(diff) <= TOLERANCE then Matched else Break
    else if c.Some? then MissingReported
    else MissingComputed
  }

  function LineOf(key: string, c: Option<Side>, r: Option<Side>): Line
    requires c.Some? || r.Some?
  {
    var computed := if c.Some? then c.value.amount else 0;
    var reported := if r.Some? then r.value.amount else 0;
    var diff := reported - computed;
    Line(key, if c.Some? then c.value.first else r.value.first, computed, reported, diff, StatusOf(c, r, diff))
  }

  function Count(lines: seq<Line>, status: Status): nat {
    if lines == [] then 0
    else Count(lines[..|lines| - 1], status) + (if lines[|lines| - 1].status == status then 1 else 0)
  }

  function SumComputed(lines: seq<Line>): int {
    if lines == [] then 0 else SumComputed(lines[..|lines| - 1]) + lines[|lines| - 1].computed
  }

  function SumReported(lines: seq<Line>): int {
    if lines == [] then 0 else SumReported(lines[..|lines| - 1]) + lines[|lines| - 1].reported
  }

  function SumDiff(lines: seq<Line>): int {
    if lines == [] then 0 else SumDiff(lines[..|lines| - 1]) + lines[|lines| - 1].diff
  }

  /** The absolute differences of the lines that do not match. */
  function Outstanding(lines: seq<Line>): nat {
    if lines == [] then 0
    else
      var last := lines[|lines| - 1];
      Outstanding(lines[..|lines| - 1]) + (if last.status.Matched? then 0 else Abs(last.diff))
  }

  function Summarise(accruals: nat, reported: nat, lines: seq<Line>): Summary {
    Summary(
      SumComputed(lines), SumReported(lines), SumReported(lines) - SumComputed(lines), accruals, reported,
      Count(lines, Matched), Count(lines, Break), Count(lines, MissingReported), Count(lines, MissingComputed),
      Outstanding(lines),
      Count(lines, Break) == 0 && Count(lines, MissingReported) == 0 && Count(lines, MissingComputed) == 0)
  }

  /** The lines of these keys, in this order. */
  function LinesOf(keys: seq<string>, computed: seq<Entry>, reported: seq<Entry>): seq<Line>
    requires forall k :: k in keys ==> k in Keys(computed) + Keys(reported)
  {
    if keys == [] then []
    else
      var key := keys[|keys| - 1];
      assert key in keys;
      LinesOf(keys[..|keys| - 1], computed, reported) + [LineOf(key, SideOf(computed, key), SideOf(reported, key))]
  }

  /** One line for each key of either side, in key order. */
  ghost function Reconciled(computed: seq<Entry>, reported: seq<Entry>): seq<Line> {
    var keys := Keys(computed) + Keys(reported);
    InOrderIsOrdered(keys);
    LinesOf(InOrder(keys), computed, reported)
  }

  // ---- The loops ----

  type Sides = map<string, (Option<Side>, Option<Side>)>

  ghost predicate Collects(sides: Sides, computed: seq<Entry>, reported: seq<Entry>) {
    && sides.Keys == Keys(computed) + Keys(reported)
    && forall key :: key in sides ==> sides[key] == (SideOf(computed, key), SideOf(reported, key))
  }

  method CollectSides(computed: seq<Entry>, reported: seq<Entry>) returns (sides: Sides)
    ensures Collects(sides, computed, reported)
  {
    hide SideOf, KeyOf, Keys;
    sides := map[];
    NothingCollected();
    for i := 0 to |computed|
      invariant Collects(sides, computed[..i], [])
    {
      var key := KeyOf(computed[i]);
      var entry := if key in sides then sides[key] else (None, None);
      AddComputed(sides, computed[..i], computed[i]);
      assert computed[..i] + [computed[i]] == computed[..i + 1];
      sides := sides[key := (Some(Added(entry.0, computed[i])), entry.1)];
    }
    assert computed[..|computed|] == computed;
    for i := 0 to |reported|
      invariant Collects(sides, computed, reported[..i])
    {
      var key := KeyOf(reported[i]);
      var entry := if key in sides then sides[key] else (None, None);
      AddReported(sides, computed, reported[..i], reported[i]);
      assert reported[..i] + [reported[i]] == reported[..i + 1];
      sides := sides[key := (entry.0, Some(Added(entry.1, reported[i])))];
    }
    assert reported[..|reported|] == reported;
  }

  lemma NothingCollected()
    ensures Collects(map[], [], [])
  {}

  lemma AddComputed(sides: Sides, computed: seq<Entry>, e: Entry)
    requires Collects(sides, computed, [])
    ensures var key := KeyOf(e); var entry := if key in sides then sides[key] else (None, None);
      Collects(sides[key := (Some(Added(entry.0, e)), entry.1)], computed + [e], [])
  {
    hide KeyOf, SumOf, FirstOf;
    KeysOfMore(computed, e);
    forall key
      ensures SideOf(computed + [e], key) == if KeyOf(e) == key then Some(Added(SideOf(computed, key), e)) else SideOf(computed, key)
    {
      SideOfMore(computed, e, key);
    }
  }

  lemma AddReported(sides: Sides, computed: seq<Entry>, reported: seq<Entry>, e: Entry)
    requires Collects(sides, computed, reported)
    ensures var key := KeyOf(e); var entry := if key in sides then sides[key] else (None, None);
      Collects(sides[key := (entry.0, Some(Added(entry.1, e)))], computed, reported + [e])
  {
    hide KeyOf, SumOf, FirstOf;
    KeysOfMore(reported, e);
    forall key
      ensures SideOf(reported + [e], key) == if KeyOf(e) == key then Some(Added(SideOf(reported, key), e)) else SideOf(reported, key)
    {
      SideOfMore(reported, e, key);
    }
  }

  /** The summary before its closing totals. */
  function Running(accruals: nat, reported: nat, lines: seq<Line>): Summary {
    Summarise(accruals, reported, lines).(netDiff := 0, allReconciled := false)
  }

  /** The part of the loop that counts one line. */
  method CountLine(before: Summary, ghost accruals: nat, ghost reported: nat, ghost lines: seq<Line>, line: Line)
    returns (after: Summary)
    requires before == Running(accruals, reported, lines)
    ensures after == Running(accruals, reported, lines + [line])
  {
    assert (lines + [line])[..|lines|] == lines;
    after := before;
    match line.status {
      case Matched => after := after.(matched := after.matched + 1);
      case Break => after := after.(breaks := after.breaks + 1);
      case MissingReported => after := after.(missingReported := after.missingReported + 1);
      case MissingComputed => after := after.(missingComputed := after.missingComputed + 1);
    }
    if !line.status.Matched? {
      after := after.(breakAmount := after.breakAmount + Abs(line.diff));
    }
    after := after.(computedTotal := after.computedTotal + line.computed,
                    reportedTotal := after.reportedTotal + line.reported);
  }

  lemma LinesOneMore(keys: seq<string>, key: string, computed: seq<Entry>, reported: seq<Entry>)
    requires forall k :: k in keys + [key] ==> k in Keys(computed) + Keys(reported)
    ensures key in Keys(computed) + Keys(reported)
    ensures LinesOf(keys + [key], computed, reported) ==
      LinesOf(keys, computed, reported) + [LineOf(key, SideOf(computed, key), SideOf(reported, key))]
  {}

  lemma LeastIsMember(key: string, keys: set<string>)
    requires IsLeast(key, keys)
    ensures key in keys
  {}

  lemma NoneLeft()
    ensures InOrder({}) == []
  {}

  lemma SidePresent(sides: Sides, computed: seq<Entry>, reported: seq<Entry>, key: string)
    requires Collects(sides, computed, reported) && key in sides
    ensures sides[key] == (SideOf(computed, key), SideOf(reported, key))
    ensures sides[key].0.Some? || sides[key].1.Some?
  {}

  method Reconcile(computed: seq<Entry>, reported: seq<Entry>) returns (lines: seq<Line>, summary: Summary)
    ensures lines == Reconciled(computed, reported)
    ensures summary == Summarise(|computed|, |reported|, lines)
  {
    hide SideOf, Keys, InOrder, IsLeast, LineOf, LinesOf, Increasing;
    var sides := CollectSides(computed, reported);
    ghost var keys := InOrder(sides.Keys);
    InOrderIsOrdered(sides.Keys);
    lines := [];
    summary := Summary(0, 0, 0, |computed|, |reported|, 0, 0, 0, 0, 0, false);
    var remaining := sides.Keys;
    ghost var done: seq<string> := [];
    NoLines(computed, reported);
    while remaining != {}
      invariant remaining <= sides.Keys
      invariant done + InOrder(remaining) == keys
      invariant lines == LinesOf(done, computed, reported)
      invariant summary == Running(|computed|, |reported|, lines)
      decreases remaining
    {
      LeastExists(remaining);
      var key :| IsLeast(key, remaining);
      LeastIsMember(key, remaining);
      InOrderStep(key, remaining);
      SidePresent(sides, computed, reported, key);
      var line := LineOf(key, sides[key].0, sides[key].1);
      summary := CountLine(summary, |computed|, |reported|, lines, line);
      assert keys == (done + [key]) + InOrder(remaining - {key});
      LinesOneMore(done, key, computed, reported);
      lines := lines + [line];
      done := done + [key];
      remaining := remaining - {key};
    }
    NoneLeft();
    assert done == keys;
    summary := summary.(netDiff := summary.reportedTotal - summary.computedTotal,
                        allReconciled := summary.breaks == 0 && summary.missingReported == 0 && summary.missingComputed == 0);
  }

  lemma NoLines(computed: seq<Entry>, reported: seq<Entry>)
    ensures LinesOf([], computed, reported) == []
  {}

  // ---- What the lines are ----

  lemma {:induction false} LinesAt(keys: seq<string>, computed: seq<Entry>, reported: seq<Entry>)
    requires forall k :: k in keys ==> k in Keys(computed) + Keys(reported)
    ensures var lines := LinesOf(keys, computed, reported);
      && |lines| == |keys|
      && forall i :: 0 <= i < |keys| ==> FiguresOf(lines[i], keys[i], computed, reported) && Shows(lines[i], keys[i], computed, reported)
  {
    hide SideOf, Keys, LineOf, FiguresOf, Shows;
    if keys != [] {
      var rest, key := keys[..|keys| - 1], keys[|keys| - 1];
      assert key in keys;
      LinesAt(rest, computed, reported);
      FiguresOfLine(key, computed, reported);
    }
  }

  /** `e` is the first of the entries under the key. */
  ghost predicate IsFirst(e: Entry, entries: seq<Entry>, key: string) {
    exists i :: 0 <= i < |entries| && entries[i] == e && KeyOf(e) == key && forall j :: 0 <= j < i ==> KeyOf(entries[j]) != key
  }

  lemma {:induction false} FirstOfIsFirst(entries: seq<Entry>, key: string)
    requires key in Keys(entries)
    ensures IsFirst(FirstOf(entries, key), entries, key)
  {
    hide KeyOf;
    var rest, e := entries[..|entries| - 1], entries[|entries| - 1];
    assert entries == rest + [e];
    KeysOfMore(rest, e);
    NotUnder(rest, key);
    hide Keys;
    if key in Keys(rest) {
      FirstOfIsFirst(rest, key);
      var i :| 0 <= i < |rest| && rest[i] == FirstOf(rest, key) && forall j :: 0 <= j < i ==> KeyOf(rest[j]) != key;
      assert forall j :: 0 <= j < |rest| ==> entries[j] == rest[j];
      assert entries[i] == FirstOf(entries, key);
    } else {
      assert entries[|rest|] == FirstOf(entries, key);
    }
  }

  lemma NotUnder(entries: seq<Entry>, key: string)
    ensures key !in Keys(entries) <==> forall j :: 0 <= j < |entries| ==> KeyOf(entries[j]) != key
  {}

  /** A line shows the details of the first entry under its key, an expected one if there is any. */
  ghost predicate Shows(line: Line, key: string, computed: seq<Entry>, reported: seq<Entry>) {
    IsFirst(line.representative, if key in Keys(computed) then computed else reported, key)
  }

  /** A line shows the sums of both sides under its key, their difference and what that means. */
  ghost predicate FiguresOf(line: Line, key: string, computed: seq<Entry>, reported: seq<Entry>) {
    && line.key == key
    && line.computed == SumOf(computed, key)
    && line.reported == SumOf(reported, key)
    && line.diff == line.reported - line.computed
    && (line.status.Matched? <==> key in Keys(computed) && key in Keys(reported) && Abs(line.diff) <= TOLERANCE)
    && (line.status.Break? <==> key in Keys(computed) && key in Keys(reported) && Abs(line.diff) > TOLERANCE)
    && (line.status.MissingReported? <==> key in Keys(computed) && key !in Keys(reported))
    && (line.status.MissingComputed? <==> key !in Keys(computed) && key in Keys(reported))
  }

  lemma FiguresOfLine(key: string, computed: seq<Entry>, reported: seq<Entry>)
    requires key in Keys(computed) + Keys(reported)
    ensures var line := LineOf(key, SideOf(computed, key), SideOf(reported, key));
      FiguresOf(line, key, computed, reported) && Shows(line, key, computed, reported)
  {
    hide Keys, SumOf, FirstOf, IsFirst;
    NothingUnder(computed, key);
    NothingUnder(reported, key);
    FirstOfIsFirst(if key in Keys(computed) then computed else reported, key);
  }

  /** One line for each distinct key of either side, in strictly increasing key order. */
  lemma LinesByKey(computed: seq<Entry>, reported: seq<Entry>) returns (keys: seq<string>)
    ensures Increasing(keys) && forall k :: k in keys <==> k in Keys(computed) || k in Keys(reported)
    ensures var lines := Reconciled(computed, reported);
      && |lines| == |keys|
      && forall i :: 0 <= i < |keys| ==> FiguresOf(lines[i], keys[i], computed, reported) && Shows(lines[i], keys[i], computed, reported)
  {
    hide Keys, FiguresOf, Shows, Increasing, LinesOf;
    var all := Keys(computed) + Keys(reported);
    keys := InOrder(all);
    InOrderIsOrdered(all);
    LinesAt(keys, computed, reported);
  }

  lemma IncreasingIsDistinct(keys: seq<string>)
    requires Increasing(keys)
    ensures Distinct(keys)
  {
    forall i, j | 0 <= i < j < |keys|
      ensures keys[i] != keys[j]
    {
      LessIsStrict(keys[i], keys[j]);
    }
  }

  // ---- Conservation ----

  function SumOver(entries: seq<Entry>, keys: seq<string>): int {
    if keys == [] then 0 else SumOver(entries, keys[..|keys| - 1]) + SumOf(entries, keys[|keys| - 1])
  }

  lemma {:induction false} SumOverOneMore(entries: seq<Entry>, e: Entry, keys: seq<string>)
    requires Distinct(keys)
    ensures SumOver(entries + [e], keys) == SumOver(entries, keys) + (if KeyOf(e) in keys then e.amount else 0)
  {
    hide KeyOf;
    if keys != [] {
      var rest, key := keys[..|keys| - 1], keys[|keys| - 1];
      assert keys == rest + [key] && key !in rest;
      SumOverOneMore(entries, e, rest);
      assert (entries + [e])[..|entries|] == entries;
    }
  }

  lemma {:induction false} SumOverNothing(keys: seq<string>)
    ensures SumOver([], keys) == 0
  {
    if keys != [] {
      SumOverNothing(keys[..|keys| - 1]);
    }
  }

  /** Adding up by key loses nothing and counts nothing twice. */
  lemma {:induction false} SumOverAllKeys(entries: seq<Entry>, keys: seq<string>)
    requires Distinct(keys) && forall k :: k in Keys(entries) ==> k in keys
    ensures SumOver(entries, keys) == Total(entries)
  {
    hide KeyOf, Distinct;
    if entries == [] {
      SumOverNothing(keys);
    } else {
      var rest, e := entries[..|entries| - 1], entries[|entries| - 1];
      assert entries == rest + [e];
      KeysOfMore(rest, e);
      SumOverOneMore(rest, e, keys);
      SumOverAllKeys(rest, keys);
    }
  }

  lemma {:induction false} TotalsOfLines(lines: seq<Line>, keys: seq<string>, computed: seq<Entry>, reported: seq<Entry>)
    requires |lines| == |keys| && forall i :: 0 <= i < |keys| ==> FiguresOf(lines[i], keys[i], computed, reported)
    ensures SumComputed(lines) == SumOver(computed, keys)
    ensures SumReported(lines) == SumOver(reported, keys)
    ensures SumDiff(lines) == SumReported(lines) - SumComputed(lines)
    ensures Abs(SumDiff(lines)) <= Outstanding(lines) + Count(lines, Matched)
  {
    hide SumOf, Keys;
    if lines != [] {
      TotalsOfLines(lines[..|lines| - 1], keys[..|keys| - 1], computed, reported);
    }
  }

  /**
   * The totals are the sums of the inputs, their difference is the sum of the
   * line differences, and what the matched lines hide is at most a cent each.
   */
  lemma TotalsBalance(computed: seq<Entry>, reported: seq<Entry>)
    ensures var lines := Reconciled(computed, reported);
      var summary := Summarise(|computed|, |reported|, lines);
      && summary.computedTotal == Total(computed)
      && summary.reportedTotal == Total(reported)
      && summary.netDiff == SumDiff(lines)
      && Abs(summary.netDiff) <= summary.breakAmount + summary.matched
  {
    hide Keys, FiguresOf, Shows, Reconciled, Increasing, Distinct;
    var lines := Reconciled(computed, reported);
    var keys := LinesByKey(computed, reported);
    IncreasingIsDistinct(keys);
    TotalsOfLines(lines, keys, computed, reported);
    SumOverAllKeys(computed, keys);
    SumOverAllKeys(reported, keys);
  }

  // ---- Counts ----

  /** The lines with one of two statuses are as many as the keys that give them. */
  lemma {:induction false} CountWhere(lines: seq<Line>, keys: seq<string>, pick: set<string>, a: Status, b: Status)
    requires |lines| == |keys| && Distinct(keys)
    requires forall i :: 0 <= i < |keys| ==> (lines[i].status == a || lines[i].status == b <==> keys[i] in pick)
    ensures Count(lines, a) + (if a == b then 0 else Count(lines, b)) == |Picked(keys, pick)|
  {
    if lines != [] {
      CountWhere(lines[..|lines| - 1], keys[..|keys| - 1], pick, a, b);
      PickOneMore(keys, pick);
    }
  }

  function Picked(keys: seq<string>, pick: set<string>): set<string> {
    set k | k in keys && k in pick
  }

  lemma PickOneMore(keys: seq<string>, pick: set<string>)
    requires keys != [] && Distinct(keys)
    ensures |Picked(keys, pick)| ==
      |Picked(keys[..|keys| - 1], pick)| + (if keys[|keys| - 1] in pick then 1 else 0)
  {
    var rest, key := keys[..|keys| - 1], keys[|keys| - 1];
    assert keys == rest + [key];
    assert key !in Picked(rest, pick);
    if key in pick {
      assert Picked(keys, pick) == Picked(rest, pick) + {key};
    } else {
      assert Picked(keys, pick) == Picked(rest, pick);
    }
  }

  lemma StatusesByKey(lines: seq<Line>, keys: seq<string>, computed: seq<Entry>, reported: seq<Entry>)
    requires |lines| == |keys|
    requires forall i :: 0 <= i < |keys| ==> FiguresOf(lines[i], keys[i], computed, reported)
    requires forall k :: k in keys ==> k in Keys(computed) || k in Keys(reported)
    ensures var c, r := Keys(computed), Keys(reported);
      forall i :: 0 <= i < |keys| ==>
        && (lines[i].status == Matched || lines[i].status == Break <==> keys[i] in c * r)
        && (lines[i].status == MissingReported <==> keys[i] in c - r)
        && (lines[i].status == MissingComputed <==> keys[i] in r - c)
  {}

  /** The four counts are the sizes of the key sets that define them, and together the number of lines. */
  lemma CountsPartition(computed: seq<Entry>, reported: seq<Entry>)
    ensures var lines := Reconciled(computed, reported);
      var summary := Summarise(|computed|, |reported|, lines);
      && summary.matched + summary.breaks == |Keys(computed) * Keys(reported)|
      && summary.missingReported == |Keys(computed) - Keys(reported)|
      && summary.missingComputed == |Keys(reported) - Keys(computed)|
      && summary.matched + summary.breaks + summary.missingReported + summary.missingComputed == |lines|
  {
    hide Keys, FiguresOf, Shows, Reconciled, Increasing, Distinct;
    var lines := Reconciled(computed, reported);
    var keys := LinesByKey(computed, reported);
    IncreasingIsDistinct(keys);
    var c, r := Keys(computed), Keys(reported);
    StatusesByKey(lines, keys, computed, reported);
    CountWhere(lines, keys, c * r, Matched, Break);
    CountWhere(lines, keys, c - r, MissingReported, MissingReported);
    CountWhere(lines, keys, r - c, MissingComputed, MissingComputed);
    assert Picked(keys, c * r) == c * r;
    assert Picked(keys, c - r) == c - r;
    assert Picked(keys, r - c) == r - c;
    CountsAddUp(lines);
  }

  lemma {:induction false} CountsAddUp(lines: seq<Line>)
    ensures Count(lines, Matched) + Count(lines, Break) + Count(lines, MissingReported) + Count(lines, MissingComputed) == |lines|
    ensures Count(lines, Matched) == |lines| <==> forall i :: 0 <= i < |lines| ==> lines[i].status.Matched?
    ensures Count(lines, Matched) == |lines| ==> Outstanding(lines) == 0
  {
    if lines != [] {
      CountsAddUp(lines[..|lines| - 1]);
    }
  }

  /** Everything is reconciled exactly when both sides have the same keys and agree within a cent under each. */
  lemma AllReconciledIff(computed: seq<Entry>, reported: seq<Entry>)
    ensures var summary := Summarise(|computed|, |reported|, Reconciled(computed, reported));
      && (summary.allReconciled <==>
            && Keys(computed) == Keys(reported)
            && forall k :: k in Keys(computed) ==> Abs(SumOf(reported, k) - SumOf(computed, k)) <= TOLERANCE)
      && (summary.allReconciled ==> summary.breakAmount == 0)
  {
    hide Keys, Reconciled, Increasing, SumOf, Abs, FiguresOf, Shows, Agrees;
    var lines := Reconciled(computed, reported);
    var keys := LinesByKey(computed, reported);
    CountsAddUp(lines);
    forall i | 0 <= i < |lines|
      ensures lines[i].status.Matched? <==> Agrees(keys[i], computed, reported)
    {
      MatchedAgrees(lines[i], keys[i], computed, reported);
    }
    assert (forall k :: k in keys ==> Agrees(k, computed, reported)) <==>
      forall i :: 0 <= i < |lines| ==> lines[i].status.Matched?;
    AllAgreeIff(computed, reported);
  }

  /** The key is on both sides, with sums within a cent of each other. */
  ghost predicate Agrees(key: string, computed: seq<Entry>, reported: seq<Entry>) {
    key in Keys(computed) && key in Keys(reported) && Abs(SumOf(reported, key) - SumOf(computed, key)) <= TOLERANCE
  }

  lemma MatchedAgrees(line: Line, key: string, computed: seq<Entry>, reported: seq<Entry>)
    requires FiguresOf(line, key, computed, reported)
    ensures line.status.Matched? <==> Agrees(key, computed, reported)
  {
    hide Keys, SumOf, Abs;
  }

  lemma AllAgreeIff(computed: seq<Entry>, reported: seq<Entry>)
    ensures (forall k :: k in Keys(computed) || k in Keys(reported) ==> Agrees(k, computed, reported)) <==>
      && Keys(computed) == Keys(reported)
      && forall k :: k in Keys(computed) ==> Abs(SumOf(reported, k) - SumOf(computed, k)) <= TOLERANCE
  {
    hide Keys, SumOf, Abs;
  }

  // ---- The order of the inputs does not matter ----

  lemma {:induction false} SumWithout(entries: seq<Entry>, i: nat, key: string)
    requires i < |entries|
    ensures SumOf(entries, key) ==
      SumOf(entries[..i] + entries[i + 1..], key) + (if KeyOf(entries[i]) == key then entries[i].amount else 0)
  {
    hide KeyOf;
    var rest, last := entries[..|entries| - 1], entries[|entries| - 1];
    var without := entries[..i] + entries[i + 1..];
    if i == |rest| {
      assert without == rest;
    } else {
      SumWithout(rest, i, key);
      assert without[..|without| - 1] == rest[..i] + rest[i + 1..];
      assert without[|without| - 1] == last;
    }
  }

  lemma Without(s: seq<Entry>, i: nat)
    requires i < |s|
    ensures multiset(s[..i] + s[i + 1..]) == multiset(s) - multiset{s[i]}
  {
    assert s == s[..i] + [s[i]] + s[i + 1..];
  }

  lemma {:induction false} SumOfPermuted(a: seq<Entry>, b: seq<Entry>, key: string)
    requires multiset(a) == multiset(b)
    ensures SumOf(a, key) == SumOf(b, key)
  {
    hide KeyOf;
    assert |a| == |multiset(a)| == |multiset(b)| == |b|;
    if a != [] {
      var last := a[|a| - 1];
      assert last in multiset(b);
      var i :| 0 <= i < |b| && b[i] == last;
      Without(a, |a| - 1);
      Without(b, i);
      assert a[..|a| - 1] + a[|a| - 1 + 1..] == a[..|a| - 1];
      SumWithout(b, i, key);
      SumOfPermuted(a[..|a| - 1], b[..i] + b[i + 1..], key);
    }
  }

  lemma KeysOfPermuted(a: seq<Entry>, b: seq<Entry>)
    requires multiset(a) == multiset(b)
    ensures Keys(a) == Keys(b)
  {
    hide KeyOf;
    forall i | 0 <= i < |a|
      ensures KeyOf(a[i]) in Keys(b)
    {
      assert a[i] in multiset(b);
      var j :| 0 <= j < |b| && b[j] == a[i];
    }
    forall j | 0 <= j < |b|
      ensures KeyOf(b[j]) in Keys(a)
    {
      assert b[j] in multiset(a);
      var i :| 0 <= i < |a| && a[i] == b[j];
    }
  }

  /** Equal but for the entry whose details are shown. */
  predicate SameFigures(a: Line, b: Line) {
    a.(representative := b.representative) == b
  }

  lemma {:induction false} SummaryOfSame(accruals: nat, reported: nat, a: seq<Line>, b: seq<Line>)
    requires |a| == |b| && forall i :: 0 <= i < |a| ==> SameFigures(a[i], b[i])
    ensures Summarise(accruals, reported, a) == Summarise(accruals, reported, b)
  {
    if a != [] {
      SummaryOfSame(accruals, reported, a[..|a| - 1], b[..|b| - 1]);
    }
  }

  /** Reordering either input changes no key, figure, status or total. */
  lemma OrderDoesNotMatter(computed: seq<Entry>, reported: seq<Entry>, computed': seq<Entry>, reported': seq<Entry>)
    requires multiset(computed) == multiset(computed') && multiset(reported) == multiset(reported')
    ensures var a, b := Reconciled(computed, reported), Reconciled(computed', reported');
      && |a| == |b|
      && (forall i :: 0 <= i < |a| ==> SameFigures(a[i], b[i]))
      && Summarise(|computed|, |reported|, a) == Summarise(|computed'|, |reported'|, b)
  {
    hide Keys, KeyOf, SumOf, Increasing, LinesOf, Summarise, Shows;
    KeysOfPermuted(computed, computed');
    KeysOfPermuted(reported, reported');
    assert |computed| == |multiset(computed)| == |computed'|;
    assert |reported| == |multiset(reported)| == |reported'|;
    var all := Keys(computed) + Keys(reported);
    var keys := InOrder(all);
    InOrderIsOrdered(all);
    LinesAt(keys, computed, reported);
    LinesAt(keys, computed', reported');
    var a, b := Reconciled(computed, reported), Reconciled(computed', reported');
    forall i | 0 <= i < |keys|
      ensures SameFigures(a[i], b[i])
    {
      SumOfPermuted(computed, computed', keys[i]);
      SumOfPermuted(reported, reported', keys[i]);
    }
    SummaryOfSame(|computed|, |reported|, a, b);
  }

  // ---- Keys ----

  /** The first pair is the second with the bar moved on by `m`: the reference has taken in part of the other's ISIN. */
  ghost predicate Shifted(a: string, b: string, c: string, d: string) {
    exists m: string :: a == c + ("|" + m) && d == m + ("|" + b)
  }

  lemma ShiftedJoins(a: string, b: string, c: string, d: string)
    requires Shifted(a, b, c, d)
    ensures a + ("|" + b) == c + ("|" + d)
  {
    var m: string :| a == c + ("|" + m) && d == m + ("|" + b);
    assert c + ("|" + m) + ("|" + b) == c + ("|" + (m + ("|" + b)));
  }

  lemma LongerIsShifted(a: string, b: string, c: string, d: string)
    requires a + ("|" + b) == c + ("|" + d) && |c| < |a|
    ensures Shifted(a, b, c, d)
  {
    var s, m := a + ("|" + b), a[|c| + 1..];
    assert s[..|a|] == a && s[..|c|] == c && s[|c|] == '|' == a[|c|];
    assert a[..|c|] == c;
    assert a == c + ("|" + m);
    assert d == s[|c| + 1..] == m + ("|" + b);
  }

  /** Two joined pairs are the same text exactly when they are equal or one is the other shifted. */
  lemma JoinedIff(a: string, b: string, c: string, d: string)
    ensures a + ("|" + b) == c + ("|" + d) <==> (a == c && b == d) || Shifted(a, b, c, d) || Shifted(c, d, a, b)
  {
    if a + ("|" + b) == c + ("|" + d) {
      if |c| < |a| {
        LongerIsShifted(a, b, c, d);
      } else if |a| < |c| {
        LongerIsShifted(c, d, a, b);
      } else {
        var s := a + ("|" + b);
        assert a == s[..|a|] == c && b == s[|a| + 1..] == d;
      }
    }
    if Shifted(a, b, c, d) {
      ShiftedJoins(a, b, c, d);
    }
    if Shifted(c, d, a, b) {
      ShiftedJoins(c, d, a, b);
    }
  }

  /** Late matching fails are one type of penalty, everything else the other. */
  predicate IsLate(e: Entry) {
    Upper(Strip(e.penaltyType)) == "LMFP"
  }

  /**
   * Two entries are added up under one key exactly when they have one type and, up
   * to case and outer blanks, the same reference and ISIN - or a bar in a reference
   * or an ISIN stands where the other entry's fields are joined.
   */
  lemma KeyIdentifies(e: Entry, f: Entry)
    ensures var a, b := Upper(Strip(e.transactionRef)), Upper(Strip(e.isin));
      var c, d := Upper(Strip(f.transactionRef)), Upper(Strip(f.isin));
      KeyOf(e) == KeyOf(f) <==>
        && (IsLate(e) <==> IsLate(f))
        && ((a == c && b == d) || Shifted(a, b, c, d) || Shifted(c, d, a, b))
  {
    hide Strip, Upper, Shifted;
    var a, b, t := Upper(Strip(e.transactionRef)), Upper(Strip(e.isin)), TypeName(e.penaltyType);
    var c, d, u := Upper(Strip(f.transactionRef)), Upper(Strip(f.isin)), TypeName(f.penaltyType);
    JoinedIff(a, b, c, d);
    var x, y := a + ("|" + b), c + ("|" + d);
    assert KeyOf(e) == x + ("|" + t) && KeyOf(f) == y + ("|" + u);
    SameTail(x, t, y, u);
  }

  /** Of one trade, the late matching fail comes first. */
  lemma LateFirst(e: Entry, f: Entry)
    requires IsLate(e) != IsLate(f)
    requires Upper(Strip(e.transactionRef)) == Upper(Strip(f.transactionRef)) && Upper(Strip(e.isin)) == Upper(Strip(f.isin))
    ensures if IsLate(e) then Less(KeyOf(e), KeyOf(f)) else Less(KeyOf(f), KeyOf(e))
  {
    hide Upper, Strip;
    var stem := Upper(Strip(e.transactionRef)) + "|" + Upper(Strip(e.isin)) + "|";
    assert Less("LMFP", "SEFP");
    LessAfter(stem, "LMFP", "SEFP");
  }

  lemma {:induction false} LessAfter(stem: string, a: string, b: string)
    requires Less(a, b)
    ensures Less(stem + a, stem + b)
  {
    if stem == "" {
      assert stem + a == a && stem + b == b;
    } else {
      LessAfter(stem[1..], a, b);
      assert (stem + a)[1..] == stem[1..] + a && (stem + b)[1..] == stem[1..] + b;
    }
  }

  lemma TwoKeys(keys: seq<string>, k: string, l: string)
    requires Increasing(keys) && k != l && forall key :: key in keys <==> key == k || key == l
    ensures keys == [k, l] || keys == [l, k]
  {
    assert k in keys && l in keys;
    assert forall i :: 0 <= i < |keys| ==> keys[i] in keys;
    assert |keys| > 2 ==> keys[0] == keys[1] || keys[1] == keys[2] || keys[0] == keys[2];
    IncreasingIsDistinct(keys);
    assert keys == [keys[0], keys[1]];
  }

  /** Penalties of different types are never set against each other, whatever else they share: both are missing on the other side. */
  lemma TypesStayApart(e: Entry, f: Entry)
    requires IsLate(e) != IsLate(f)
    ensures var lines := Reconciled([e], [f]);
      && |lines| == 2
      && (exists i :: 0 <= i < 2 && lines[i].status == MissingReported && lines[i].representative == e
                      && lines[1 - i].status == MissingComputed && lines[1 - i].representative == f)
      && !Summarise(1, 1, lines).allReconciled
      && (Upper(Strip(e.transactionRef)) == Upper(Strip(f.transactionRef)) && Upper(Strip(e.isin)) == Upper(Strip(f.isin)) ==>
            lines[0].representative == if IsLate(e) then e else f)
  {
    hide KeyOf, IsLate, Reconciled, SumOf;
    KeyIdentifies(e, f);
    KeysOfMore([], e);
    KeysOfMore([], f);
    assert [] + [e] == [e] && [] + [f] == [f];
    var k, l := KeyOf(e), KeyOf(f);
    assert Keys([e]) == {k} && Keys([f]) == {l};
    var keys := LinesByKey([e], [f]);
    var lines := Reconciled([e], [f]);
    TwoKeys(keys, k, l);
    var i := if keys[0] == k then 0 else 1;
    assert FiguresOf(lines[i], k, [e], [f]) && FiguresOf(lines[1 - i], l, [e], [f]);
    assert lines[i].status == MissingReported && lines[1 - i].status == MissingComputed;
    CountsAddUp(lines);
    if Upper(Strip(e.transactionRef)) == Upper(Strip(f.transactionRef)) && Upper(Strip(e.isin)) == Upper(Strip(f.isin)) {
      LateFirst(e, f);
      LessIsStrict(k, l);
    }
  }

  lemma SameTail(x: string, t: string, y: string, u: string)
    requires |t| == |u|
    ensures x + ("|" + t) == y + ("|" + u) <==> x == y && t == u
  {
    var s := x + ("|" + t);
    if s == y + ("|" + u) {
      assert x == s[..|x|] == y && t == s[|x| + 1..] == u;
    }
  }

  /** Where no reference has a bar, different transactions have different keys. */
  lemma BarFreeKeysIdentify(e: Entry, f: Entry)
    requires Lacks(Upper(Strip(e.transactionRef)), '|') && Lacks(Upper(Strip(f.transactionRef)), '|')
    ensures KeyOf(e) == KeyOf(f) <==>
      && Upper(Strip(e.transactionRef)) == Upper(Strip(f.transactionRef))
      && Upper(Strip(e.isin)) == Upper(Strip(f.isin))
      && (IsLate(e) <==> IsLate(f))
  {
    hide Strip, Upper, KeyOf;
    KeyIdentifies(e, f);
    var a, b := Upper(Strip(e.transactionRef)), Upper(Strip(e.isin));
    var c, d := Upper(Strip(f.transactionRef)), Upper(Strip(f.isin));
    ShiftedHasBar(a, b, c, d);
    ShiftedHasBar(c, d, a, b);
  }

  lemma ShiftedHasBar(a: string, b: string, c: string, d: string)
    ensures Shifted(a, b, c, d) ==> !Lacks(a, '|') && !Lacks(d, '|')
  {
    if Shifted(a, b, c, d) {
      var m: string :| a == c + ("|" + m) && d == m + ("|" + b);
      assert a[|c|] == '|' && d[|m|] == '|';
    }
  }

  /** With a bar in a reference, different transactions can be added up under one key. */
  lemma BarsCollide(e: Entry, f: Entry)
    requires e.transactionRef == "A|B" && e.isin == "C" && f.transactionRef == "A" && f.isin == "B|C"
    requires e.penaltyType == f.penaltyType
    ensures KeyOf(e) == KeyOf(f)
  {
    assert Strip("A|B") == "A|B" && Strip("C") == "C" && Strip("A") == "A" && Strip("B|C") == "B|C";
    assert Upper("A|B") == "A|B" && Upper("C") == "C" && Upper("A") == "A" && Upper("B|C") == "B|C";
    assert Shifted("A|B", "C", "A", "B|C") by {
      assert "A|B" == "A" + ("|" + "B") && "B|C" == "B" + ("|" + "C");
    }
    KeyIdentifies(e, f);
  }

  /** A penalty expected as payable and reported as receivable differs by twice its size. */
  lemma DirectionMismatchDoubles(e: Entry, f: Entry, magnitude: int)
    requires KeyOf(e) == KeyOf(f)
    requires e.amount == SignedAmount(magnitude, "payable") && f.amount == SignedAmount(magnitude, "receivable")
    ensures var lines := Reconciled([e], [f]);
      && |lines| == 1
      && lines[0].diff == 2 * Abs(magnitude)
      && (lines[0].status == Break <==> magnitude != 0)
  {
    DirectionWords();
    hide KeyOf, Strip, Upper;
    var key := KeyOf(e);
    KeysOfMore([], e);
    KeysOfMore([], f);
    assert [] + [e] == [e] && [] + [f] == [f];
    assert Keys([e]) == {key} == Keys([f]);
    var keys := LinesByKey([e], [f]);
    assert keys[0] in keys && (|keys| > 1 ==> keys[1] in keys);
    LessIsStrict(key, key);
    assert |keys| == 1 && keys[0] == key;
    assert SumOf([e], key) == e.amount && SumOf([f], key) == f.amount;
  }

  lemma DirectionWords()
    ensures Upper(Strip("payable")) != "RECEIVABLE" && Upper(Strip("receivable")) == "RECEIVABLE"
  {}
}
