/**
 * Anchored groups against their declarative reading, and against the
 * hand-written grouping of statement lines in the MT 940 parser.
 */
module Grouping {
  import opened Bytes
  import opened Sequences
  import opened Naming

  // ---- The declarative reading ----

  /** The machine before field `i`. */
  function Before(cfg: Config, input: seq<RawField>, i: nat): (m: Machine)
    requires i <= |input|
    ensures AnchorInRange(m, cfg)
  {
    Run(Start, cfg, input[..i])
  }

  /** Field `j` has the tag of an anchor. */
  predicate IsAnchor(cfg: Config, input: seq<RawField>, j: nat) {
    j < |input| && AnchorIndex(cfg.anchored, input[j].tag) < |cfg.anchored|
  }

  /** Field `j` is an anchor at root scope. */
  predicate StartsGroup(cfg: Config, input: seq<RawField>, j: nat)
    requires j < |input|
  {
    && input[j].tag != TAG_16S
    && AnchorIndex(cfg.anchored, input[j].tag) < |cfg.anchored|
    && Before(cfg, input, j).stack == []
  }

  /** Field `x` leaves the group of sequence `index` open: it is inside a 16R sequence, ends one, or is a member. */
  predicate Stays(cfg: Config, input: seq<RawField>, x: nat, index: nat)
    requires x < |input| && index < |cfg.anchored|
  {
    || Before(cfg, input, x).stack != []
    || input[x].tag == TAG_16S
    || (AnchorIndex(cfg.anchored, input[x].tag) == |cfg.anchored| && input[x].tag in cfg.anchored[index].memberTags)
  }

  /** At root scope only members separate the end of `input` from the anchor at `j`. */
  ghost predicate InGroup(cfg: Config, input: seq<RawField>, j: nat) {
    && j < |input| && StartsGroup(cfg, input, j)
    && (forall x :: j < x < |input| ==> Stays(cfg, input, x, AnchorIndex(cfg.anchored, input[j].tag)))
  }

  /** The group opened by the anchor at `j`. */
  function GroupOf(cfg: Config, input: seq<RawField>, j: nat): OpenAnchor
    requires IsAnchor(cfg, input, j)
  {
    var i := AnchorIndex(cfg.anchored, input[j].tag);
    OpenAnchor(i, Instances(Before(cfg, input, j).ledger, [], cfg.anchored[i].name))
  }

  /** The path of the fields in that group. */
  function GroupPath(cfg: Config, input: seq<RawField>, j: nat): Path
    requires IsAnchor(cfg, input, j)
  {
    AnchorPath(GroupOf(cfg, input, j), cfg)
  }

  lemma BeforeOfPrefix(cfg: Config, input: seq<RawField>, n: nat, i: nat)
    requires i <= n <= |input|
    ensures Before(cfg, input[..n], i) == Before(cfg, input, i)
  {
    assert input[..n][..i] == input[..i];
  }

  /** The anchor whose group is still open after `input`, field by field. */
  function OpenStart(cfg: Config, input: seq<RawField>): (j: Option<nat>)
    ensures j.Some? ==> IsAnchor(cfg, input, j.value)
  {
    if input == [] then None
    else
      var n := |input| - 1;
      if StartsGroup(cfg, input, n) then Some(n)
      else
        var j := OpenStart(cfg, input[..n]);
        if j.Some? && Stays(cfg, input, n, AnchorIndex(cfg.anchored, input[j.value].tag)) then j else None
  }

  lemma StepsAgree(cfg: Config, input: seq<RawField>, n: nat, x: nat, index: nat)
    requires x < n <= |input| && index < |cfg.anchored|
    ensures Stays(cfg, input[..n], x, index) == Stays(cfg, input, x, index)
    ensures StartsGroup(cfg, input[..n], x) == StartsGroup(cfg, input, x)
  {
    hide Run, AnchorIndex;
    BeforeOfPrefix(cfg, input, n, x);
  }

  /** An open group is one that only members separate from its anchor. */
  lemma {:induction false} OpenStartIsInGroup(cfg: Config, input: seq<RawField>, j: nat)
    ensures OpenStart(cfg, input) == Some(j) <==> InGroup(cfg, input, j)
  {
    hide Run, AnchorIndex, Before;
    if input != [] {
      var n := |input| - 1;
      var init := input[..n];
      OpenStartIsInGroup(cfg, init, j);
      if j < n && AnchorIndex(cfg.anchored, input[j].tag) < |cfg.anchored| {
        var index := AnchorIndex(cfg.anchored, input[j].tag);
        forall x: nat | x < n
          ensures Stays(cfg, init, x, index) == Stays(cfg, input, x, index)
          ensures StartsGroup(cfg, init, x) == StartsGroup(cfg, input, x)
        {
          StepsAgree(cfg, input, n, x, index);
        }
        assert InGroup(cfg, input, j) <==> InGroup(cfg, init, j) && Stays(cfg, input, n, index);
      }
    }
  }

  /** How one field moves the open group. */
  lemma AnchorAfterPush(m: Machine, cfg: Config, f: RawField, name: Bytes)
    requires AnchorInRange(m, cfg) && name == Trim(f.value)
    ensures var after := Push(m, cfg, f);
      var i := AnchorIndex(cfg.anchored, f.tag);
      after.anchor ==
         if m.stack != [] || f.tag == TAG_16S then m.anchor
         else if i < |cfg.anchored| then Some(OpenAnchor(i, Instances(m.ledger, [], cfg.anchored[i].name)))
         else if m.anchor.Some? && f.tag in cfg.anchored[m.anchor.value.index].memberTags then m.anchor
         else None
  {}

  /** The machine's open group, read off its fields. */
  function SpelledAnchor(cfg: Config, input: seq<RawField>): Option<OpenAnchor> {
    var j := OpenStart(cfg, input);
    if j.Some? then Some(GroupOf(cfg, input, j.value)) else None
  }

  lemma {:induction false} OpenGroupIsSpelled(cfg: Config, input: seq<RawField>)
    ensures Run(Start, cfg, input).anchor == SpelledAnchor(cfg, input)
  {
    hide Run, Instances, AnchorIndex, Trim, Push;
    if input == [] {
      RunEmpty(cfg);
    } else {
      var n := |input| - 1;
      var init, f := input[..n], input[n];
      OpenGroupIsSpelled(cfg, init);
      AnchorAfterPush(Run(Start, cfg, init), cfg, f, Trim(f.value));
      RunAppend(Start, cfg, init, f);
      assert init + [f] == input;
      var j := OpenStart(cfg, init);
      if j.Some? {
        BeforeOfPrefix(cfg, input, n, j.value);
      }
      BeforeOfPrefix(cfg, input, |input|, n);
    }
  }

  lemma RunEmpty(cfg: Config)
    ensures Run(Start, cfg, []) == Start
  {}

  lemma {:induction false} LedgerGrows(cfg: Config, input: seq<RawField>, i: nat, j: nat)
    requires i <= j <= |input|
    ensures Before(cfg, input, i).ledger <= Before(cfg, input, j).ledger
    decreases j
  {
    hide AnchorIndex, Trim, Instances;
    if i < j {
      LedgerGrows(cfg, input, i, j - 1);
      assert input[..j][..j - 1] == input[..j - 1];
    }
  }

  /** An anchor enters the path of its group into the ledger. */
  lemma AnchorIsLedgered(cfg: Config, input: seq<RawField>, j: nat)
    requires j < |input| && StartsGroup(cfg, input, j)
    ensures var before, after := Before(cfg, input, j).ledger, Before(cfg, input, j + 1).ledger;
      |before| < |after| && after[|before|] == GroupPath(cfg, input, j)
  {
    hide AnchorIndex, Trim, Instances;
    assert input[..j + 1][..j] == input[..j];
  }

  /** Two groups never share a path. */
  lemma GroupsDiffer(cfg: Config, input: seq<RawField>, i: nat, j: nat)
    requires i < j < |input| && StartsGroup(cfg, input, i) && StartsGroup(cfg, input, j)
    ensures GroupPath(cfg, input, i) != GroupPath(cfg, input, j)
  {
    hide Run, AnchorIndex, GroupPath, WellNamed, StartsGroup;
    var n := |input|;
    AnchorIsLedgered(cfg, input, i);
    AnchorIsLedgered(cfg, input, j);
    LedgerGrows(cfg, input, i + 1, j);
    LedgerGrows(cfg, input, j, j + 1);
    var l := Before(cfg, input, j + 1).ledger;
    RunKeepsWellNamed(Start, cfg, input[..j + 1]);
    var x, y := |Before(cfg, input, i).ledger|, |Before(cfg, input, j).ledger|;
    assert x < y < |l| && l[x] == Before(cfg, input, i + 1).ledger[x];
    if l[x] == l[y] {
      DistinctPaths(l, x, y);
    }
  }

  /**
   * For any anchored sequences: a field emitted at root scope carries the path of
   * the group an anchor opened exactly when only members separate the two at root
   * scope, and it carries no path exactly when there is no such anchor.
   */
  lemma RootFieldsAreGrouped(cfg: Config, input: seq<RawField>, i: nat)
    requires i < |input| && input[i].tag != TAG_16S && Before(cfg, input, i).stack == []
    ensures var at := |Before(cfg, input, i).fields|;
      var fields := Run(Start, cfg, input).fields;
      var prefix := input[..i + 1];
      && at < |fields|
      && fields[at].tag == input[i].tag && fields[at].value == input[i].value
      && (forall j: nat :: j < |prefix| && StartsGroup(cfg, prefix, j) ==>
            (fields[at].path == GroupPath(cfg, prefix, j) <==> InGroup(cfg, prefix, j)))
      && (fields[at].path == [] <==> forall j :: !InGroup(cfg, prefix, j))
  {
    hide Instances, AnchorIndex, Trim;
    var prefix := input[..i + 1];
    var m := Before(cfg, input, i);
    var f := input[i];
    OpenGroupIsSpelled(cfg, prefix);
    assert prefix[..i] == input[..i];
    assert Run(Start, cfg, prefix) == Push(m, cfg, f);
    LastPath(m, cfg, f, Trim(f.value));
    FieldsStay(cfg, input, i + 1);
    OnlyTheOpenGroup(cfg, prefix, Run(Start, cfg, prefix).fields[|m.fields|].path);
  }

  /** Among the anchors of a text, the path of the open group belongs to the one whose group is open. */
  lemma OnlyTheOpenGroup(cfg: Config, input: seq<RawField>, path: Path)
    requires var a := SpelledAnchor(cfg, input);
      AnchorInRange(Run(Start, cfg, input), cfg) && a == Run(Start, cfg, input).anchor
      && path == if a.Some? then AnchorPath(a.value, cfg) else []
    ensures forall j: nat :: j < |input| && StartsGroup(cfg, input, j) ==>
      (path == GroupPath(cfg, input, j) <==> InGroup(cfg, input, j))
    ensures path == [] <==> forall j :: !InGroup(cfg, input, j)
  {
    hide Run, AnchorIndex, StartsGroup, Stays, GroupPath, InGroup, OpenStart, GroupOf;
    SpelledPath(cfg, input);
    var open := OpenStart(cfg, input);
    forall j: nat
      ensures open == Some(j) <==> InGroup(cfg, input, j)
    {
      OpenStartIsInGroup(cfg, input, j);
    }
    if open.Some? {
      GroupPathIsNotRoot(cfg, input, open.value);
      assert InGroup(cfg, input, open.value);
    }
    forall j: nat | j < |input| && StartsGroup(cfg, input, j)
      ensures IsAnchor(cfg, input, j)
      ensures path == GroupPath(cfg, input, j) <==> InGroup(cfg, input, j)
    {
      StartsAtAnchor(cfg, input, j);
      GroupPathIsNotRoot(cfg, input, j);
      if open.Some? {
        InGroupStarts(cfg, input, open.value);
        if open.value < j {
          GroupsDiffer(cfg, input, open.value, j);
        } else if j < open.value {
          GroupsDiffer(cfg, input, j, open.value);
        }
      }
    }
  }

  lemma SpelledPath(cfg: Config, input: seq<RawField>)
    ensures var a, j := SpelledAnchor(cfg, input), OpenStart(cfg, input);
      (a.None? <==> j.None?) && (j.Some? ==> a.value.index < |cfg.anchored| && AnchorPath(a.value, cfg) == GroupPath(cfg, input, j.value))
  {
    hide Run, AnchorIndex, OpenStart;
  }

  lemma StartsAtAnchor(cfg: Config, input: seq<RawField>, j: nat)
    requires j < |input| && StartsGroup(cfg, input, j)
    ensures IsAnchor(cfg, input, j)
  {}

  lemma InGroupStarts(cfg: Config, input: seq<RawField>, j: nat)
    requires InGroup(cfg, input, j)
    ensures j < |input| && StartsGroup(cfg, input, j)
  {}

  lemma GroupPathIsNotRoot(cfg: Config, input: seq<RawField>, j: nat)
    requires IsAnchor(cfg, input, j)
    ensures GroupPath(cfg, input, j) != []
  {}

  /** The path of the field just emitted at root scope is that of the group now open. */
  lemma LastPath(m: Machine, cfg: Config, f: RawField, name: Bytes)
    requires AnchorInRange(m, cfg) && m.stack == [] && f.tag != TAG_16S && name == Trim(f.value)
    ensures var after := Push(m, cfg, f);
      && |after.fields| == |m.fields| + 1 && after.fields[..|m.fields|] == m.fields
      && after.fields[|m.fields|].tag == f.tag && after.fields[|m.fields|].value == f.value
      && after.fields[|m.fields|].path == if after.anchor.Some? then AnchorPath(after.anchor.value, cfg) else []
  {}

  lemma PushKeepsFields(m: Machine, cfg: Config, f: RawField)
    requires AnchorInRange(m, cfg)
    ensures m.fields <= Push(m, cfg, f).fields
  {}

  lemma {:induction false} FieldsStay(cfg: Config, input: seq<RawField>, i: nat)
    requires i <= |input|
    ensures Before(cfg, input, i).fields <= Run(Start, cfg, input).fields
    decreases |input|
  {
    if i == |input| {
      assert input[..i] == input;
    } else {
      var n := |input| - 1;
      FieldsStay(cfg, input[..n], i);
      BeforeOfPrefix(cfg, input, n, i);
      PushKeepsFields(Run(Start, cfg, input[..n]), cfg, input[n]);
    }
  }
}
