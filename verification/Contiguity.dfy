/**
 * When the fields of one sequence instance, nested instances included, form a
 * single run of the output: always, unless some anchored group can go on after a
 * 16R/16S sequence has interrupted it. `tags` says which tags an input may have.
 */
module Contiguity {
  import opened Bytes
  import opened Sequences
  import opened Naming

  /** Sequence `i` can be started: it is the first with its anchor tag, and 16S never gets that far. */
  predicate Startable(cfg: Config, tags: Bytes -> bool, i: nat) {
    && i < |cfg.anchored| && tags(cfg.anchored[i].anchorTag)
    && AnchorIndex(cfg.anchored, cfg.anchored[i].anchorTag) == i
    && cfg.anchored[i].anchorTag != TAG_16S
  }

  /** `tag` continues the group of sequence `i`. */
  predicate Continues(cfg: Config, tags: Bytes -> bool, i: nat, tag: Bytes) {
    && i < |cfg.anchored| && tags(tag) && tag in cfg.anchored[i].memberTags
    && tag != TAG_16S && AnchorIndex(cfg.anchored, tag) == |cfg.anchored|
  }

  /**
   * A group of sequence `i` can go on after a 16R sequence: 16R itself continues
   * it, or 16R starts it and something else continues it.
   */
  ghost predicate Resumes(cfg: Config, tags: Bytes -> bool, i: nat) {
    && Startable(cfg, tags, i)
    && (Continues(cfg, tags, i, TAG_16R) ||
        (cfg.anchored[i].anchorTag == TAG_16R && exists tag :: Continues(cfg, tags, i, tag)))
  }

  ghost predicate CanSplit(cfg: Config, tags: Bytes -> bool) {
    cfg.maxDepth > 0 && exists i: nat :: Resumes(cfg, tags, i)
  }

  ghost predicate AllTagged(input: seq<RawField>, tags: Bytes -> bool) {
    forall k :: 0 <= k < |input| ==> tags(input[k].tag)
  }

  /** `path` is `p` or lies below it. */
  predicate Under(p: Path, path: Path) {
    p <= path
  }

  /** The fields at or below `p` are adjacent. */
  ghost predicate OneRun(fields: seq<Field>, p: Path) {
    forall i, j, k :: 0 <= i < j < k < |fields| && Under(p, fields[i].path) && Under(p, fields[k].path) ==> Under(p, fields[j].path)
  }

  ghost predicate FieldsOk(m: Machine) {
    && (forall i, p :: 0 <= i < |m.fields| && Under(p, m.fields[i].path) && p != [] ==> p in m.ledger)
    && (forall p :: p in m.ledger ==> OneRun(m.fields, p))
  }

  /** An instance that can still grow has its run at the end of the output. */
  ghost predicate OpenRunsLast(m: Machine, current: Path) {
    forall i, p :: 0 <= i < |m.fields| && p in m.ledger && Under(p, current) && Under(p, m.fields[i].path) ==>
      Under(p, m.fields[|m.fields| - 1].path)
  }

  ghost predicate CurrentOk(m: Machine, current: Path) {
    && (forall p :: Under(p, current) && p != [] ==> p in m.ledger)
    && OpenRunsLast(m, current)
  }

  /** A group started by 16R is over as soon as its first field is out. */
  predicate Lasts(cfg: Config, a: OpenAnchor) {
    cfg.maxDepth == 0 || a.index != AnchorIndex(cfg.anchored, TAG_16R)
  }

  /** The path that fields still to come can extend. */
  function LivePath(m: Machine, cfg: Config): Path
    requires AnchorInRange(m, cfg)
  {
    if m.stack == [] && m.anchor.Some? && Lasts(cfg, m.anchor.value) then AnchorPath(m.anchor.value, cfg) else m.stack
  }

  ghost predicate AnchorOk(m: Machine, cfg: Config, tags: Bytes -> bool) {
    && AnchorInRange(m, cfg)
    && |m.stack| <= cfg.maxDepth
    && (m.anchor.Some? ==> Startable(cfg, tags, m.anchor.value.index))
    && (m.anchor.Some? && m.stack != [] ==> !Lasts(cfg, m.anchor.value))
  }

  ghost predicate Inv(m: Machine, cfg: Config, tags: Bytes -> bool) {
    && AnchorOk(m, cfg, tags) && WellNamed(m.ledger)
    && FieldsOk(m)
    && CurrentOk(m, LivePath(m, cfg))
  }

  /** Between the anchor step and the emission the current path is that of the field. */
  ghost predicate MidInv(m: Machine, cfg: Config) {
    && AnchorInRange(m, cfg) && WellNamed(m.ledger)
    && FieldsOk(m)
    && CurrentOk(m, FieldPath(m, cfg))
  }

  /** A newly opened path is not in the ledger yet. */
  lemma NextIsFresh(ledger: seq<Path>, parent: Path, name: Bytes)
    requires WellNamed(ledger)
    ensures parent + [NextFrame(ledger, parent, name)] !in ledger
  {
    var p := parent + [NextFrame(ledger, parent, name)];
    assert Parent(p) == parent;
    if p in ledger {
      var i :| 0 <= i < |ledger| && ledger[i] == p;
      OccurrenceBelowCount(ledger, i);
    }
  }

  lemma EmitKeepsMidInv(m: Machine, cfg: Config, f: RawField)
    requires MidInv(m, cfg)
    ensures MidInv(Emit(m, cfg, f), cfg)
  {
    hide WellNamed;
    var path := FieldPath(m, cfg);
    var after := Emit(m, cfg, f);
    forall p | p in m.ledger ensures OneRun(after.fields, p) {
      assert OneRun(m.fields, p);
      if Under(p, path) {
        assert forall i :: 0 <= i < |m.fields| && Under(p, m.fields[i].path) ==> Under(p, m.fields[|m.fields| - 1].path);
      }
    }
    forall i, p | 0 <= i < |after.fields| && Under(p, after.fields[i].path) && p != [] ensures p in after.ledger {
      if i < |m.fields| { assert Under(p, m.fields[i].path); }
    }
  }

  /** Descending into a fresh instance: nothing written so far lies below it. */
  lemma EnterFresh(m: Machine, parent: Path, p: Path)
    requires FieldsOk(m) && p !in m.ledger && p != [] && Parent(p) == parent
    requires CurrentOk(m, parent)
    ensures var after := m.(ledger := m.ledger + [p]); FieldsOk(after) && CurrentOk(after, p)
  {
    var after := m.(ledger := m.ledger + [p]);
    assert forall i :: 0 <= i < |m.fields| ==> !(Under(p, m.fields[i].path));
    assert OneRun(after.fields, p);
    forall q | Under(q, p) && q != [] ensures q in after.ledger {
      if q != p { assert Under(q, parent); }
    }
    forall i, q | 0 <= i < |m.fields| && q in after.ledger && Under(q, p) && Under(q, m.fields[i].path)
      ensures Under(q, m.fields[|m.fields| - 1].path)
    {
      if q != p { assert Under(q, parent); }
    }
  }

  /** Nothing lies above the root. */
  lemma RootIsCurrent(m: Machine)
    requires WellNamed(m.ledger)
    ensures CurrentOk(m, [])
  {
    assert forall p :: Under(p, []) ==> p == [];
    assert [] !in m.ledger;
  }

  /** Runs are a matter of the fields and the ledger only. */
  lemma SameOutput(m: Machine, after: Machine, path: Path)
    requires after.fields == m.fields && after.ledger == m.ledger
    ensures FieldsOk(m) <==> FieldsOk(after)
    ensures CurrentOk(m, path) <==> CurrentOk(after, path)
  {}

  lemma StepAnchorKeepsInv(m: Machine, cfg: Config, tags: Bytes -> bool, tag: Bytes)
    requires Inv(m, cfg, tags) && !CanSplit(cfg, tags) && tags(tag) && tag != TAG_16S
    ensures MidInv(StepAnchor(m, cfg, tag), cfg)
  {
    hide WellNamed, OneRun, Under, CurrentOk, FieldsOk;
    var i := AnchorIndex(cfg.anchored, tag);
    RootIsCurrent(m);
    if m.stack == [] && i < |cfg.anchored| {
      var name := cfg.anchored[i].name;
      var p := [NextFrame(m.ledger, [], name)];
      assert [] + p == p && Parent(p) == [];
      NextIsFresh(m.ledger, [], name);
      OpenKeepsWellNamed(m.ledger, [], name);
      EnterFresh(m, [], p);
      SameOutput(m.(ledger := m.ledger + [p]), StepAnchor(m, cfg, tag), p);
    } else {
      SameOutput(m, StepAnchor(m, cfg, tag), []);
      if m.stack == [] && m.anchor.Some? && tag in cfg.anchored[m.anchor.value.index].memberTags {
        GroupGoesOn(m, cfg, tags, tag);
      }
    }
  }

  /** Only a group that lasts is ever continued. */
  lemma GroupGoesOn(m: Machine, cfg: Config, tags: Bytes -> bool, tag: Bytes)
    requires AnchorOk(m, cfg, tags) && !CanSplit(cfg, tags) && m.anchor.Some? && m.stack == []
    requires Continues(cfg, tags, m.anchor.value.index, tag)
    ensures Lasts(cfg, m.anchor.value)
    ensures tag == TAG_16R ==> cfg.maxDepth == 0
  {
    var i := m.anchor.value.index;
    assert cfg.maxDepth > 0 ==> !Resumes(cfg, tags, i);
  }

  /** How the anchor stands after the step, for a tag that opens no sequence and for 16R. */
  lemma StepAnchorKeepsOk(m: Machine, cfg: Config, tags: Bytes -> bool, tag: Bytes)
    requires AnchorOk(m, cfg, tags) && !CanSplit(cfg, tags) && tags(tag) && tag != TAG_16S
    ensures var s := StepAnchor(m, cfg, tag);
      && s.stack == m.stack
      && (tag != TAG_16R ==> AnchorOk(s, cfg, tags) && (s.stack == [] && s.anchor.Some? ==> Lasts(cfg, s.anchor.value)))
      && (tag == TAG_16R && s.anchor.Some? ==>
            Startable(cfg, tags, s.anchor.value.index) && (cfg.maxDepth == 0 || !Lasts(cfg, s.anchor.value)))
  {
    if m.stack == [] && AnchorIndex(cfg.anchored, tag) == |cfg.anchored| && m.anchor.Some?
       && tag in cfg.anchored[m.anchor.value.index].memberTags {
      GroupGoesOn(m, cfg, tags, tag);
    }
  }

  /** A 16R field is out: entering its sequence, or staying where the depth limit forbids it. */
  lemma OpenKeepsInv(m: Machine, cfg: Config, tags: Bytes -> bool, name: Bytes)
    requires MidInv(m, cfg) && |m.stack| <= cfg.maxDepth
    requires m.anchor.Some? ==> Startable(cfg, tags, m.anchor.value.index) && (cfg.maxDepth == 0 || !Lasts(cfg, m.anchor.value))
    ensures Inv(Open(m, cfg, name), cfg, tags)
  {
    hide WellNamed, OneRun, Under, FieldsOk, CurrentOk, AnchorIndex;
    RootIsCurrent(m);
    if |m.stack| < cfg.maxDepth {
      NextIsFresh(m.ledger, m.stack, name);
      OpenKeepsWellNamed(m.ledger, m.stack, name);
      var p := m.stack + [NextFrame(m.ledger, m.stack, name)];
      assert Parent(p) == m.stack;
      EnterFresh(m, m.stack, p);
      SameOutput(m.(ledger := m.ledger + [p]), Open(m, cfg, name), p);
    } else {
      SameOutput(m, Open(m, cfg, name), LivePath(m, cfg));
    }
  }

  lemma PopKeepsInv(m: Machine, cfg: Config, tags: Bytes -> bool)
    requires MidInv(m, cfg) && AnchorOk(m, cfg, tags) && m.stack != []
    ensures Inv(m.(stack := m.stack[..|m.stack| - 1]), cfg, tags)
  {
    var after := m.(stack := m.stack[..|m.stack| - 1]);
    assert LivePath(after, cfg) == after.stack <= m.stack;
    forall p | Under(p, after.stack)
      ensures Under(p, m.stack)
    {}
  }

  lemma CloseKeepsInv(m: Machine, cfg: Config, tags: Bytes -> bool, f: RawField, found: Bytes)
    requires Inv(m, cfg, tags)
    ensures Inv(Close(m, f, found), cfg, tags)
  {
    hide WellNamed, OneRun, Under, FieldsOk, CurrentOk, AnchorIndex;
    if m.stack != [] && m.stack[|m.stack| - 1].name == found {
      EmitKeepsMidInv(m, cfg, f);
      PopKeepsInv(Emit(m, cfg, f), cfg, tags);
    } else {
      SameOutput(m, Close(m, f, found), LivePath(m, cfg));
    }
  }

  lemma PushKeepsInv(m: Machine, cfg: Config, tags: Bytes -> bool, f: RawField, name: Bytes)
    requires Inv(m, cfg, tags) && !CanSplit(cfg, tags) && tags(f.tag) && name == Trim(f.value)
    ensures Inv(Push(m, cfg, f), cfg, tags)
  {
    hide WellNamed, FieldsOk, CurrentOk, AnchorIndex, Trim, Startable, CanSplit, Lasts, StepAnchor, Open, Close;
    if f.tag == TAG_16S {
      CloseKeepsInv(m, cfg, tags, f, name);
    } else {
      StepAnchorKeepsInv(m, cfg, tags, f.tag);
      StepAnchorKeepsOk(m, cfg, tags, f.tag);
      var s := StepAnchor(m, cfg, f.tag);
      EmitKeepsMidInv(s, cfg, f);
      if f.tag == TAG_16R {
        OpenKeepsInv(Emit(s, cfg, f), cfg, tags, name);
      }
    }
  }

  lemma {:induction false} RunKeepsInv(cfg: Config, tags: Bytes -> bool, input: seq<RawField>)
    requires !CanSplit(cfg, tags) && AllTagged(input, tags)
    ensures Inv(Run(Start, cfg, input), cfg, tags)
  {
    hide Push, CanSplit;
    if input == [] {
      assert forall p :: Under(p, []) ==> p == [];
    } else {
      var init, f := input[..|input| - 1], input[|input| - 1];
      RunKeepsInv(cfg, tags, init);
      PushKeepsInv(Run(Start, cfg, init), cfg, tags, f, Trim(f.value));
    }
  }

  /** Every instance's fields form one run of the output. */
  lemma InstancesAreContiguous(cfg: Config, tags: Bytes -> bool, input: seq<RawField>, p: Path)
    requires !CanSplit(cfg, tags) && AllTagged(input, tags)
    ensures OneRun(Run(Start, cfg, input).fields, p)
  {
    RunKeepsInv(cfg, tags, input);
    var m := Run(Start, cfg, input);
    assert p !in m.ledger && p != [] ==> forall i :: 0 <= i < |m.fields| ==> !Under(p, m.fields[i].path);
  }

  // ---- Splitting inputs ----

  /** A group, 16R, 16S, and 16R again, which continues the group. */
  function MemberInput(anchorTag: Bytes): seq<RawField> {
    [RawField(anchorTag, []), RawField(TAG_16R, []), RawField(TAG_16S, []), RawField(TAG_16R, [])]
  }

  /** 16R, which starts the group, 16S, and a tag that continues it. */
  function AnchorInput(tag: Bytes): seq<RawField> {
    [RawField(TAG_16R, []), RawField(TAG_16S, []), RawField(tag, [])]
  }

  lemma RunOfThree(cfg: Config, input: seq<RawField>)
    requires |input| == 3
    ensures Run(Start, cfg, input) == Push(Push(Push(Start, cfg, input[0]), cfg, input[1]), cfg, input[2])
  {
    hide Push;
    assert input[..2][..1] == input[..1] && input[..1][..0] == [];
    assert Run(Start, cfg, input[..1]) == Push(Start, cfg, input[0]);
    assert Run(Start, cfg, input[..2]) == Push(Run(Start, cfg, input[..1]), cfg, input[1]);
  }

  lemma RunOfFour(cfg: Config, input: seq<RawField>)
    requires |input| == 4
    ensures Run(Start, cfg, input)
         == Push(Push(Push(Push(Start, cfg, input[0]), cfg, input[1]), cfg, input[2]), cfg, input[3])
  {
    hide Push;
    RunOfThree(cfg, input[..3]);
  }

  /** The group of sequence `i` is the only thing opened so far, and perhaps a 16R sequence with an empty name in it. */
  predicate InFirstGroup(m: Machine, cfg: Config, i: nat, name: Bytes, inside: bool)
    requires i < |cfg.anchored|
  {
    var p := [Frame(cfg.anchored[i].name, 0)];
    && m.anchor == Some(OpenAnchor(i, 0))
    && m.ledger == (if inside then [p, [NextFrame([p], [], name)]] else [p])
  }

  /** The first field of a run starts its group. */
  lemma FirstAnchor(cfg: Config, tags: Bytes -> bool, i: nat, tag: Bytes)
    requires Startable(cfg, tags, i) && tag == cfg.anchored[i].anchorTag
    ensures var m := Emit(StepAnchor(Start, cfg, tag), cfg, RawField(tag, []));
      && InFirstGroup(m, cfg, i, [], false) && m.stack == []
      && |m.fields| == 1 && m.fields[0].path == [Frame(cfg.anchored[i].name, 0)]
  {}

  /** Entering and leaving the sequence: the field between lies below another path. */
  lemma OpenAndClose(m: Machine, cfg: Config, i: nat, name: Bytes)
    requires cfg.maxDepth > 0 && i < |cfg.anchored| && InFirstGroup(m, cfg, i, [], false) && m.stack == []
    requires name == Trim([])
    ensures var q := [NextFrame(m.ledger, [], name)];
      var after := Push(Open(m, cfg, name), cfg, RawField(TAG_16S, []));
      && q != [Frame(cfg.anchored[i].name, 0)]
      && InFirstGroup(after, cfg, i, name, true) && after.stack == []
      && |after.fields| == |m.fields| + 1 && after.fields[..|m.fields|] == m.fields && after.fields[|m.fields|].path == q
  {
    hide Trim, Instances;
    var p := [Frame(cfg.anchored[i].name, 0)];
    var q := [NextFrame(m.ledger, [], name)];
    assert [] + q == q;
    assert WellNamed([p]) by {
      FirstIsWellNamed(p[0].name);
    }
    NextIsFresh([p], [], name);
    var entered := Open(m, cfg, name);
    assert entered.stack == q;
    assert Push(entered, cfg, RawField(TAG_16S, [])) == Close(entered, RawField(TAG_16S, []), name);
  }

  lemma FirstIsWellNamed(name: Bytes)
    ensures WellNamed([[Frame(name, 0)]])
  {
    OpenKeepsWellNamed([], [], name);
    assert [] + [[] + [NextFrame([], [], name)]] == [[Frame(name, 0)]];
  }

  /** A field that continues the group carries its path again. */
  lemma ContinuingField(m: Machine, cfg: Config, tags: Bytes -> bool, i: nat, name: Bytes, f: RawField)
    requires i < |cfg.anchored| && InFirstGroup(m, cfg, i, name, true) && m.stack == [] && Continues(cfg, tags, i, f.tag)
    ensures var after := Push(m, cfg, f);
      && |after.fields| == |m.fields| + 1 && after.fields[..|m.fields|] == m.fields
      && after.fields[|m.fields|].path == [Frame(cfg.anchored[i].name, 0)]
      && m.ledger <= after.ledger
  {
    hide Trim, Instances;
  }

  lemma NotOneRun(fields: seq<Field>, p: Path, q: Path, i: nat, j: nat, k: nat)
    requires i < j < k < |fields| && fields[i].path == p && fields[j].path == q && fields[k].path == p
    requires |p| == |q| && p != q
    ensures !OneRun(fields, p)
  {
    assert Under(p, fields[i].path) && !Under(p, fields[j].path) && Under(p, fields[k].path);
  }

  /** Where 16R continues a group, four fields split it. */
  lemma MarkerMembersSplitARun(cfg: Config, tags: Bytes -> bool, i: nat) returns (p: Path)
    requires cfg.maxDepth > 0 && Startable(cfg, tags, i) && Continues(cfg, tags, i, TAG_16R)
    ensures var m := Run(Start, cfg, MemberInput(cfg.anchored[i].anchorTag)); p in m.ledger && !OneRun(m.fields, p)
  {
    hide Trim, Instances, OneRun, AnchorIndex, Open;
    var tag, name := cfg.anchored[i].anchorTag, Trim([]);
    var input := MemberInput(tag);
    RunOfFour(cfg, input);
    p := [Frame(cfg.anchored[i].name, 0)];
    FirstAnchor(cfg, tags, i, tag);
    var m1 := Push(Start, cfg, input[0]);
    var m2 := Emit(m1, cfg, input[1]);
    assert Push(m1, cfg, input[1]) == Open(m2, cfg, name);
    OpenAndClose(m2, cfg, i, name);
    var m3 := Push(Open(m2, cfg, name), cfg, input[2]);
    ContinuingField(m3, cfg, tags, i, name, input[3]);
    var m4 := Push(m3, cfg, input[3]);
    assert m4.ledger[0] == m3.ledger[0] == p;
    assert m4.fields[0] == m3.fields[0] == m2.fields[0] && m4.fields[2] == m3.fields[2];
    NotOneRun(m4.fields, p, m3.fields[2].path, 0, 2, 3);
  }

  /** Where 16R starts a group that something else continues, three fields split it. */
  lemma MarkerAnchorsSplitARun(cfg: Config, tags: Bytes -> bool, i: nat, tag: Bytes) returns (p: Path)
    requires cfg.maxDepth > 0 && Startable(cfg, tags, i) && cfg.anchored[i].anchorTag == TAG_16R && Continues(cfg, tags, i, tag)
    ensures var m := Run(Start, cfg, AnchorInput(tag)); p in m.ledger && !OneRun(m.fields, p)
  {
    hide Trim, Instances, OneRun, AnchorIndex, Open;
    var name := Trim([]);
    var input := AnchorInput(tag);
    RunOfThree(cfg, input);
    p := [Frame(cfg.anchored[i].name, 0)];
    FirstAnchor(cfg, tags, i, TAG_16R);
    var m1 := Emit(StepAnchor(Start, cfg, TAG_16R), cfg, input[0]);
    assert Push(Start, cfg, input[0]) == Open(m1, cfg, name);
    OpenAndClose(m1, cfg, i, name);
    var m2 := Push(Open(m1, cfg, name), cfg, input[1]);
    ContinuingField(m2, cfg, tags, i, name, input[2]);
    var m3 := Push(m2, cfg, input[2]);
    assert m3.ledger[0] == m2.ledger[0] == p;
    NotOneRun(m3.fields, p, m2.fields[1].path, 0, 1, 2);
  }

  /**
   * For any configuration and whichever tags inputs have, 16R and 16S among them: some
   * input splits some instance exactly when a group can go on after a 16R sequence.
   */
  lemma SplitsIff(cfg: Config, tags: Bytes -> bool)
    requires tags(TAG_16R) && tags(TAG_16S)
    ensures (exists input, p :: AllTagged(input, tags) && SplitBy(cfg, input, p)) <==> CanSplit(cfg, tags)
  {
    hide OneRun, Startable;
    if CanSplit(cfg, tags) {
      var input, p := Splitter(cfg, tags);
    } else {
      forall input, p | AllTagged(input, tags)
        ensures !SplitBy(cfg, input, p)
      {
        InstancesAreContiguous(cfg, tags, input, p);
      }
    }
  }

  /** Four fields without values suffice. */
  lemma Splitter(cfg: Config, tags: Bytes -> bool) returns (input: seq<RawField>, p: Path)
    requires CanSplit(cfg, tags) && tags(TAG_16R) && tags(TAG_16S)
    ensures AllTagged(input, tags) && SplitBy(cfg, input, p)
    ensures |input| <= 4 && forall k :: 0 <= k < |input| ==> input[k].value == []
  {
    hide OneRun;
    var i: nat :| Resumes(cfg, tags, i);
    if Continues(cfg, tags, i, TAG_16R) {
      input := MemberInput(cfg.anchored[i].anchorTag);
      p := MarkerMembersSplitARun(cfg, tags, i);
    } else {
      var tag :| Continues(cfg, tags, i, tag);
      input := AnchorInput(tag);
      p := MarkerAnchorsSplitARun(cfg, tags, i, tag);
    }
  }

  /** The fields of the instance `p` are not adjacent. */
  ghost predicate SplitBy(cfg: Config, input: seq<RawField>, p: Path) {
    var m := Run(Start, cfg, input);
    p in m.ledger && !OneRun(m.fields, p)
  }
}
