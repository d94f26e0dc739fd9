/**
 * The statement-line grouping of the MT 940 parser, and its simulation by the
 * anchored sequence ENTRY (anchor 61, member 86) of the schema-driven parser.
 * `parse` reads a 61 line and `text` decodes an 86 narrative; both are arbitrary.
 */
module Mt940 {
  import opened Bytes
  import opened Sequences
  import opened StatementLine

  const TAG_61: Bytes := [0x36, 0x31]
  const TAG_86: Bytes := [0x38, 0x36]
  const ENTRY: Bytes := [0x45, 0x4E, 0x54, 0x52, 0x59]

  function EntryConfig(maxDepth: nat): Config {
    Config([AnchoredSequence(ENTRY, TAG_61, [TAG_86])], maxDepth)
  }

  datatype Entries = Entries(list: seq<CashEntry>, lastWasEntry: bool)

  /** The arms of the tag match that touch the entries; every other tag only ends the adjacency. */
  function AddField(st: Entries, f: RawField, parse: Bytes -> Option<CashEntry>, text: Bytes -> string): Entries {
    if f.tag == TAG_61 then
      match parse(f.value)
      case Some(e) => Entries(st.list + [e], true)
      case None => st
    else if f.tag == TAG_86 then
      var n := |st.list|;
      Entries(if st.lastWasEntry && n > 0 then st.list[n - 1 := st.list[n - 1].(info := Some(text(f.value)))] else st.list,
              false)
    else st.(lastWasEntry := false)
  }

  function Collect(input: seq<RawField>, parse: Bytes -> Option<CashEntry>, text: Bytes -> string): Entries {
    if input == [] then Entries([], false)
    else AddField(Collect(input[..|input| - 1], parse, text), input[|input| - 1], parse, text)
  }

  /** The loop over the fields. */
  method CollectEntries(input: seq<RawField>, parse: Bytes -> Option<CashEntry>, text: Bytes -> string)
    returns (entries: seq<CashEntry>)
    ensures entries == Collect(input, parse, text).list
  {
    entries := [];
    var lastWasEntry := false;
    for i := 0 to |input|
      invariant Entries(entries, lastWasEntry) == Collect(input[..i], parse, text)
    {
      assert input[..i + 1][..i] == input[..i];
      var f := input[i];
      if f.tag == TAG_61 {
        var parsed := parse(f.value);
        if parsed.Some? {
          entries := entries + [parsed.value];
          lastWasEntry := true;
        }
      } else if f.tag == TAG_86 {
        if lastWasEntry && entries != [] {
          var n := |entries|;
          entries := entries[n - 1 := entries[n - 1].(info := Some(text(f.value)))];
        }
        lastWasEntry := false;
      } else {
        lastWasEntry := false;
      }
    }
    assert input[..|input|] == input;
  }

  function Lines(input: seq<RawField>): nat {
    if input == [] then 0
    else Lines(input[..|input| - 1]) + if input[|input| - 1].tag == TAG_61 then 1 else 0
  }

  ghost predicate AllParse(input: seq<RawField>, parse: Bytes -> Option<CashEntry>) {
    forall i :: 0 <= i < |input| && input[i].tag == TAG_61 ==> parse(input[i].value).Some?
  }

  ghost predicate NoMarkers(input: seq<RawField>) {
    forall i :: 0 <= i < |input| ==> input[i].tag != TAG_16R && input[i].tag != TAG_16S
  }

  /** Is an ENTRY group open after `input`? */
  predicate GroupOpen(input: seq<RawField>) {
    input != [] &&
    var last := input[|input| - 1].tag;
    (last == TAG_61 || (last == TAG_86 && GroupOpen(input[..|input| - 1])))
  }

  /** The entry whose narrative field `i` becomes, if any. */
  function AttachedTo(input: seq<RawField>, parse: Bytes -> Option<CashEntry>, text: Bytes -> string, i: nat): Option<nat>
    requires i < |input|
  {
    var st := Collect(input[..i], parse, text);
    if input[i].tag == TAG_86 && st.lastWasEntry && st.list != [] then Some(|st.list| - 1) else None
  }

  // ---- The schema-driven side ----

  /** The path of the last field of `input`. */
  function LastPath(input: seq<RawField>): Path
    requires input != []
  {
    if GroupOpen(input) && Lines(input) > 0 then [Frame(ENTRY, Lines(input) - 1)] else []
  }

  ghost predicate EntryState(input: seq<RawField>, m: Machine) {
    && m.stack == []
    && Instances(m.ledger, [], ENTRY) == Lines(input)
    && (GroupOpen(input) ==> Lines(input) > 0)
    && m.anchor == (if GroupOpen(input) && Lines(input) > 0 then Some(OpenAnchor(0, Lines(input) - 1)) else None)
    && |m.fields| == |input|
  }

  lemma EntryStep(m: Machine, maxDepth: nat, f: RawField)
    requires AnchorInRange(m, EntryConfig(maxDepth)) && m.stack == [] && f.tag != TAG_16R && f.tag != TAG_16S
    ensures var cfg := EntryConfig(maxDepth);
      var after := Push(m, cfg, f);
      && after.stack == []
      && |after.fields| == |m.fields| + 1 && m.fields <= after.fields
      && after.fields[|m.fields|].path == (if after.anchor.Some? then AnchorPath(after.anchor.value, cfg) else [])
      && (if f.tag == TAG_61 then
            var k := Instances(m.ledger, [], ENTRY);
            after.anchor == Some(OpenAnchor(0, k)) && after.ledger == m.ledger + [[Frame(ENTRY, k)]]
          else
            after.ledger == m.ledger && after.anchor == if f.tag == TAG_86 then m.anchor else None)
  {}

  lemma {:induction false} EntryStates(input: seq<RawField>, maxDepth: nat)
    requires NoMarkers(input)
    ensures EntryState(input, Run(Start, EntryConfig(maxDepth), input))
    ensures input != [] ==>
      Run(Start, EntryConfig(maxDepth), input).fields[|input| - 1].path == LastPath(input)
  {
    hide Push, Trim;
    if input != [] {
      var init, f := input[..|input| - 1], input[|input| - 1];
      EntryStates(init, maxDepth);
      var m := Run(Start, EntryConfig(maxDepth), init);
      EntryStep(m, maxDepth, f);
      if f.tag == TAG_61 {
        var p := [Frame(ENTRY, Lines(init))];
        InstancesAppend(m.ledger, p, [], ENTRY);
        assert p[..0] == [];
      }
    }
  }

  lemma {:induction false} PathOfField(input: seq<RawField>, maxDepth: nat, i: nat)
    requires NoMarkers(input) && i < |input|
    ensures var fields := Run(Start, EntryConfig(maxDepth), input).fields;
      |fields| == |input| && fields[i].path == LastPath(input[..i + 1])
    decreases |input|
  {
    EntryStates(input, maxDepth);
    if i == |input| - 1 {
      assert input[..i + 1] == input;
    } else {
      var init := input[..|input| - 1];
      PathOfField(init, maxDepth, i);
      EntryStates(init, maxDepth);
      EntryStep(Run(Start, EntryConfig(maxDepth), init), maxDepth, input[|input| - 1]);
      assert init[..i + 1] == input[..i + 1];
    }
  }

  // ---- The bespoke side against it ----

  /** Entries collected: the lines that parse; adjacency implies an open group. */
  lemma {:induction false} CollectedLines(input: seq<RawField>, parse: Bytes -> Option<CashEntry>, text: Bytes -> string)
    ensures var st := Collect(input, parse, text);
      && |st.list| <= Lines(input)
      && (|st.list| == Lines(input) <==> AllParse(input, parse))
      && (st.lastWasEntry ==> GroupOpen(input) && st.list != [])
  {
    if input != [] {
      var init, f := input[..|input| - 1], input[|input| - 1];
      CollectedLines(init, parse, text);
      assert AllParse(input, parse) <==> AllParse(init, parse) && (f.tag == TAG_61 ==> parse(f.value).Some?) by {
        assert forall i :: 0 <= i < |init| ==> init[i] == input[i];
      }
    }
  }

  /** Both parsers count the same entries exactly when every 61 line parses. */
  lemma EntryCountsAgreeIff(input: seq<RawField>, maxDepth: nat, parse: Bytes -> Option<CashEntry>, text: Bytes -> string)
    requires NoMarkers(input)
    ensures var groups := Instances(Run(Start, EntryConfig(maxDepth), input).ledger, [], ENTRY);
      |Collect(input, parse, text).list| == groups <==> AllParse(input, parse)
  {
    EntryStates(input, maxDepth);
    CollectedLines(input, parse, text);
  }

  /** A narrative is attached exactly when it becomes the info of an entry: of the last one, if no other line came between. */
  lemma AttachedShows(input: seq<RawField>, parse: Bytes -> Option<CashEntry>, text: Bytes -> string, i: nat)
    requires i < |input| && input[i].tag == TAG_86
    ensures var before, after := Collect(input[..i], parse, text).list, Collect(input[..i + 1], parse, text).list;
      match AttachedTo(input, parse, text, i)
      case None => after == before
      case Some(k) => k == |before| - 1 && after == before[k := before[k].(info := Some(text(input[i].value)))]
  {
    assert input[..i + 1][..i] == input[..i];
  }

  /**
   * A narrative the bespoke parser attaches to some entry lies in an ENTRY group
   * of the schema-driven parser, and the two number that entry alike exactly when
   * every 61 line before it parses.
   */
  lemma AttachmentIsSimulated(input: seq<RawField>, maxDepth: nat, parse: Bytes -> Option<CashEntry>, text: Bytes -> string, i: nat)
    requires NoMarkers(input) && i < |input| && AttachedTo(input, parse, text, i).Some?
    ensures var fields := Run(Start, EntryConfig(maxDepth), input).fields;
      var k := AttachedTo(input, parse, text, i).value;
      && |fields| == |input|
      && |fields[i].path| == 1 && fields[i].path[0].name == ENTRY
      && (fields[i].path == [Frame(ENTRY, k)] <==> AllParse(input[..i], parse))
  {
    PathOfField(input, maxDepth, i);
    CollectedLines(input[..i], parse, text);
    assert input[..i + 1][..i] == input[..i];
  }

  // ---- The entries, one by one ----

  /** A 61 line that becomes an entry. */
  predicate Parses(f: RawField, parse: Bytes -> Option<CashEntry>) {
    f.tag == TAG_61 && parse(f.value).Some?
  }

  /** A 61 line that is skipped; the entry before it stays the current one. */
  predicate Skipped(f: RawField, parse: Bytes -> Option<CashEntry>) {
    f.tag == TAG_61 && parse(f.value).None?
  }

  /** The 61 lines that become entries. */
  function ParsedLines(input: seq<RawField>, parse: Bytes -> Option<CashEntry>): nat {
    if input == [] then 0
    else ParsedLines(input[..|input| - 1], parse) + (if Parses(input[|input| - 1], parse) then 1 else 0)
  }

  ghost predicate AllSkipped(input: seq<RawField>, parse: Bytes -> Option<CashEntry>, x: nat) {
    forall y :: x <= y < |input| ==> Skipped(input[y], parse)
  }

  /** The first 86 at or after `x` that only skipped lines precede, if any. */
  function Narrative(input: seq<RawField>, parse: Bytes -> Option<CashEntry>, x: nat): Option<Bytes>
    requires x <= |input|
    decreases |input| - x
  {
    if x == |input| then None
    else if input[x].tag == TAG_86 then Some(input[x].value)
    else if Skipped(input[x], parse) then Narrative(input, parse, x + 1)
    else None
  }

  /** What the entry of the 61 line at `p` must be. */
  function EntryAt(input: seq<RawField>, parse: Bytes -> Option<CashEntry>, text: Bytes -> string, p: nat): CashEntry
    requires p < |input| && Parses(input[p], parse)
  {
    var e := parse(input[p].value).value;
    var narrative := Narrative(input, parse, p + 1);
    if narrative.Some? then e.(info := Some(text(narrative.value))) else e
  }

  lemma {:induction false} NarrativeStep(input: seq<RawField>, parse: Bytes -> Option<CashEntry>, x: nat)
    requires x < |input|
    ensures var n := |input| - 1;
      Narrative(input, parse, x) ==
        if !AllSkipped(input[..n], parse, x) then Narrative(input[..n], parse, x)
        else if input[n].tag == TAG_86 then Some(input[n].value)
        else None
    decreases |input| - x
  {
    var n := |input| - 1;
    if x < n {
      NarrativeStep(input, parse, x + 1);
      assert input[..n][x] == input[x];
      assert Skipped(input[x], parse) ==> (AllSkipped(input[..n], parse, x) <==> AllSkipped(input[..n], parse, x + 1));
    } else {
      assert Narrative(input, parse, n + 1) == None;
    }
  }

  lemma {:induction false} NoNarrativeYet(input: seq<RawField>, parse: Bytes -> Option<CashEntry>, x: nat)
    requires x <= |input| && AllSkipped(input, parse, x)
    ensures Narrative(input, parse, x) == None
    decreases |input| - x
  {
    if x < |input| {
      NoNarrativeYet(input, parse, x + 1);
    }
  }

  lemma {:induction false} ParsedLinesMonotone(input: seq<RawField>, parse: Bytes -> Option<CashEntry>, i: nat, j: nat)
    requires i <= j <= |input|
    ensures ParsedLines(input[..i], parse) <= ParsedLines(input[..j], parse)
    ensures i < j && Parses(input[i], parse) ==> ParsedLines(input[..i], parse) < ParsedLines(input[..j], parse)
    decreases j
  {
    hide Parses;
    if i < j {
      assert input[..j][..j - 1] == input[..j - 1];
      ParsedLinesMonotone(input, parse, i, j - 1);
    }
  }

  lemma {:induction false} SkippedLinesAddNone(input: seq<RawField>, parse: Bytes -> Option<CashEntry>, x: nat)
    requires x <= |input| && AllSkipped(input, parse, x)
    ensures ParsedLines(input, parse) == ParsedLines(input[..x], parse)
    decreases |input|
  {
    var n := |input| - 1;
    if x < |input| {
      assert Skipped(input[n], parse);
      assert input[..n][..x] == input[..x];
      SkippedLinesAddNone(input[..n], parse, x);
    } else {
      assert input[..x] == input;
    }
  }

  /** The entries are the lines that parse; the last one is current while only skipped lines follow it. */
  lemma {:induction false} EntriesAreParsedLines(input: seq<RawField>, parse: Bytes -> Option<CashEntry>, text: Bytes -> string)
    ensures |Collect(input, parse, text).list| == ParsedLines(input, parse)
  {
    if input != [] {
      EntriesAreParsedLines(input[..|input| - 1], parse, text);
    }
  }

  /** The line at `p` became an entry and is still the current one. */
  ghost predicate IsCurrent(input: seq<RawField>, parse: Bytes -> Option<CashEntry>, p: nat) {
    p < |input| && Parses(input[p], parse) && AllSkipped(input, parse, p + 1)
  }

  lemma {:induction false} CurrentIff(input: seq<RawField>, parse: Bytes -> Option<CashEntry>, text: Bytes -> string)
    ensures Collect(input, parse, text).lastWasEntry <==> exists p: nat :: IsCurrent(input, parse, p)
  {
    if input != [] {
      var n := |input| - 1;
      var init, f := input[..n], input[n];
      CurrentIff(init, parse, text);
      assert Collect(input, parse, text) == AddField(Collect(init, parse, text), f, parse, text);
      forall p: nat | p < n
        ensures IsCurrent(input, parse, p) <==> IsCurrent(init, parse, p) && Skipped(f, parse)
      {}
      assert IsCurrent(input, parse, n) <==> Parses(f, parse);
    }
  }

  /** The current entry is that of the line at `p` exactly when only skipped lines follow it. */
  lemma CurrentIsLine(input: seq<RawField>, parse: Bytes -> Option<CashEntry>, text: Bytes -> string, p: nat)
    requires p < |input| && Parses(input[p], parse)
    ensures var st := Collect(input, parse, text);
      st.lastWasEntry && |st.list| == ParsedLines(input[..p], parse) + 1 <==> AllSkipped(input, parse, p + 1)
  {
    hide Collect, Narrative, Skipped;
    EntriesAreParsedLines(input, parse, text);
    CurrentIff(input, parse, text);
    var k := ParsedLines(input[..p], parse);
    assert input[..p + 1][..p] == input[..p];
    assert ParsedLines(input[..p + 1], parse) == k + 1;
    if AllSkipped(input, parse, p + 1) {
      assert IsCurrent(input, parse, p);
      SkippedLinesAddNone(input, parse, p + 1);
    } else if q: nat :| IsCurrent(input, parse, q) {
      assert q > p;
      ParsedLinesMonotone(input, parse, p + 1, q);
      ParsedLinesMonotone(input, parse, q, |input|);
      assert input[..|input|] == input;
    }
  }

  /**
   * Whatever parses: entry k is the k-th 61 line that parses, and carries the first
   * 86 after it that only skipped lines precede, else the line's own details.
   */
  lemma {:induction false} EntriesByAdjacency(input: seq<RawField>, parse: Bytes -> Option<CashEntry>, text: Bytes -> string, p: nat)
    requires p < |input| && Parses(input[p], parse)
    ensures var list := Collect(input, parse, text).list; var k := ParsedLines(input[..p], parse);
      |list| == ParsedLines(input, parse) && k < |list| && list[k] == EntryAt(input, parse, text, p)
    decreases |input|
  {
    hide ParsedLines, AllSkipped, Narrative;
    EntriesAreParsedLines(input, parse, text);
    var n := |input| - 1;
    var init, f := input[..n], input[n];
    if p < n {
      EntriesByAdjacency(init, parse, text, p);
      assert init[..p] == input[..p];
      NarrativeStep(input, parse, p + 1);
      if AllSkipped(init, parse, p + 1) {
        NoNarrativeYet(init, parse, p + 1);
      }
      CurrentIsLine(init, parse, text, p);
    } else {
      EntriesAreParsedLines(init, parse, text);
      NothingSkipped(input, parse);
      NoNarrativeYet(input, parse, n + 1);
    }
  }

  lemma NothingSkipped(input: seq<RawField>, parse: Bytes -> Option<CashEntry>)
    ensures AllSkipped(input, parse, |input|)
  {}
}
