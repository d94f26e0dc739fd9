/**
 * Paths name sequence instances faithfully: on every input, with anchored groups
 * and 16R/16S sequences mixed in any way, each instance gets a path of its own,
 * occurrence numbers run 0, 1, 2, ... per parent and name, and two fields carry
 * the same path exactly when they belong to the same instance.
 */
module Naming {
  import opened Bytes
  import opened Sequences

  function Parent(p: Path): Path
    requires p != []
  {
    p[..|p| - 1]
  }

  function Last(p: Path): Frame
    requires p != []
  {
    p[|p| - 1]
  }

  /** Every instance is numbered by the namesakes opened before it under its parent. */
  ghost predicate WellNamed(ledger: seq<Path>) {
    forall i :: 0 <= i < |ledger| ==>
      && ledger[i] != []
      && Last(ledger[i]).occurrence == Instances(ledger[..i], Parent(ledger[i]), Last(ledger[i]).name)
  }

  /** Opening `parent + [NextFrame]` keeps the ledger well named. */
  lemma OpenKeepsWellNamed(ledger: seq<Path>, parent: Path, name: Bytes)
    requires WellNamed(ledger)
    ensures WellNamed(ledger + [parent + [NextFrame(ledger, parent, name)]])
  {
    var p := parent + [NextFrame(ledger, parent, name)];
    assert Parent(p) == parent;
    var after := ledger + [p];
    forall i | 0 <= i < |after|
      ensures after[i] != [] && Last(after[i]).occurrence == Instances(after[..i], Parent(after[i]), Last(after[i]).name)
    {
      assert after[..i] == ledger[..i];
      assert ledger[..|ledger|] == ledger;
    }
  }

  lemma PushKeepsWellNamed(m: Machine, cfg: Config, f: RawField)
    requires AnchorInRange(m, cfg) && WellNamed(m.ledger)
    ensures WellNamed(Push(m, cfg, f).ledger)
  {
    if f.tag != TAG_16S {
      var stepped := StepAnchor(m, cfg, f.tag);
      var i := AnchorIndex(cfg.anchored, f.tag);
      if m.stack == [] && i < |cfg.anchored| {
        OpenKeepsWellNamed(m.ledger, [], cfg.anchored[i].name);
        var frame := NextFrame(m.ledger, [], cfg.anchored[i].name);
        assert [] + [frame] == [frame];
      }
      OpenKeepsWellNamed(stepped.ledger, stepped.stack, Trim(f.value));
    }
  }

  lemma {:induction false} RunKeepsWellNamed(m: Machine, cfg: Config, input: seq<RawField>)
    requires AnchorInRange(m, cfg) && WellNamed(m.ledger)
    ensures WellNamed(Run(m, cfg, input).ledger)
  {
    if input != [] {
      var init := input[..|input| - 1];
      RunKeepsWellNamed(m, cfg, init);
      PushKeepsWellNamed(Run(m, cfg, init), cfg, input[|input| - 1]);
    }
  }

  /** An instance opened at `i` is counted by every later prefix. */
  lemma {:induction false} CountedLater(ledger: seq<Path>, i: nat, j: nat)
    requires i < j <= |ledger| && ledger[i] != []
    ensures Instances(ledger[..i], Parent(ledger[i]), Last(ledger[i]).name)
          < Instances(ledger[..j], Parent(ledger[i]), Last(ledger[i]).name)
    decreases j
  {
    assert ledger[..j][..j - 1] == ledger[..j - 1];
    if i < j - 1 {
      CountedLater(ledger, i, j - 1);
    }
  }

  /** No two instances share a path. */
  lemma DistinctPaths(ledger: seq<Path>, i: nat, j: nat)
    requires WellNamed(ledger) && i < |ledger| && j < |ledger| && ledger[i] == ledger[j]
    ensures i == j
  {
    if i < j {
      CountedLater(ledger, i, j);
    } else if j < i {
      CountedLater(ledger, j, i);
    }
  }

  /** The k-th instance under a parent and name exists for every k below the count. */
  lemma {:induction false} FindInstance(ledger: seq<Path>, parent: Path, name: Bytes, k: nat) returns (i: nat)
    requires WellNamed(ledger) && k < Instances(ledger, parent, name)
    ensures i < |ledger| && ledger[i] == parent + [Frame(name, k)]
    decreases |ledger|
  {
    var n := |ledger| - 1;
    var init := ledger[..n];
    assert forall q :: 0 <= q < n ==> init[..q] == ledger[..q];
    if k < Instances(init, parent, name) {
      i := FindInstance(init, parent, name, k);
    } else {
      i := n;
      var p := ledger[n];
      assert p == Parent(p) + [Last(p)];
    }
  }

  lemma {:induction false} OccurrenceBelowCount(ledger: seq<Path>, i: nat)
    requires WellNamed(ledger) && i < |ledger|
    ensures Last(ledger[i]).occurrence < Instances(ledger, Parent(ledger[i]), Last(ledger[i]).name)
  {
    CountedLater(ledger, i, |ledger|);
    assert ledger[..|ledger|] == ledger;
  }

  /**
   * The instance paths of a run: pairwise different, numbered in opening order,
   * and without gaps - `parent/name[k]` was opened exactly when `k` is below the
   * number of instances called `name` under `parent`.
   */
  lemma InstancesAreUniquelyNamed(cfg: Config, input: seq<RawField>)
    ensures var l := Run(Start, cfg, input).ledger;
      && (forall i, j :: 0 <= i < j < |l| ==> l[i] != l[j])
      && (forall i, j :: 0 <= i < j < |l| && l[i] != [] && IsInstance(l[j], Parent(l[i]), Last(l[i]).name)
            ==> Last(l[i]).occurrence < Last(l[j]).occurrence)
      && (forall parent, name, k: nat ::
            parent + [Frame(name, k)] in l <==> k < Instances(l, parent, name))
  {
    RunKeepsWellNamed(Start, cfg, input);
    var l := Run(Start, cfg, input).ledger;
    forall i, j | 0 <= i < j < |l| ensures l[i] != l[j] {
      if l[i] == l[j] { DistinctPaths(l, i, j); }
    }
    forall i, j | 0 <= i < j < |l| && l[i] != [] && IsInstance(l[j], Parent(l[i]), Last(l[i]).name)
      ensures Last(l[i]).occurrence < Last(l[j]).occurrence
    {
      CountedLater(l, i, j);
    }
    forall parent, name, k: nat
      ensures parent + [Frame(name, k)] in l <==> k < Instances(l, parent, name)
    {
      var p := parent + [Frame(name, k)];
      if p in l {
        var i :| 0 <= i < |l| && l[i] == p;
        OccurrenceBelowCount(l, i);
        assert Parent(p) == parent;
      } else if k < Instances(l, parent, name) {
        var i := FindInstance(l, parent, name, k);
      }
    }
  }

  lemma {:induction false} InstancesAtMost(ledger: seq<Path>, parent: Path, name: Bytes)
    ensures Instances(ledger, parent, name) <= |ledger|
  {
    if ledger != [] {
      InstancesAtMost(ledger[..|ledger| - 1], parent, name);
    }
  }

  lemma {:induction false} LedgerAtMost(cfg: Config, input: seq<RawField>)
    ensures |Run(Start, cfg, input).ledger| <= 2 * |input|
  {
    if input != [] {
      var init := input[..|input| - 1];
      LedgerAtMost(cfg, init);
      var m, f := Run(Start, cfg, init), input[|input| - 1];
      assert |StepAnchor(m, cfg, f.tag).ledger| <= |m.ledger| + 1;
      assert |Push(m, cfg, f).ledger| <= |m.ledger| + 2;
    }
  }

  /** A 32-bit counter cannot overflow on fewer than 2^31 fields. */
  lemma CountersFit(cfg: Config, input: seq<RawField>, parent: Path, name: Bytes)
    requires |input| < 0x8000_0000
    ensures Instances(Run(Start, cfg, input).ledger, parent, name) < 0x1_0000_0000
  {
    LedgerAtMost(cfg, input);
    InstancesAtMost(Run(Start, cfg, input).ledger, parent, name);
  }

  // ---- Which instance owns a field ----

  /**
   * The machine with identities added: `live` are the ledger positions of the
   * open 16R instances, `group` that of the open anchored group, and `owners[i]`
   * says which opening field `i` belongs to (`None` at root scope).
   */
  datatype Traced = Traced(m: Machine, live: seq<nat>, group: Option<nat>, owners: seq<Option<nat>>)

  const TracedStart := Traced(Start, [], None, [])

  function TraceAnchor(t: Traced, cfg: Config, tag: Bytes): Traced
    requires AnchorInRange(t.m, cfg)
  {
    var stepped := StepAnchor(t.m, cfg, tag);
    t.(m := stepped,
       group := if |stepped.ledger| > |t.m.ledger| then Some(|t.m.ledger|)
                else if stepped.anchor.None? then None
                else t.group)
  }

  function Owner(t: Traced): Option<nat> {
    if t.m.stack != [] then (if t.live == [] then None else Some(t.live[|t.live| - 1])) else t.group
  }

  function TracePush(t: Traced, cfg: Config, f: RawField): Traced
    requires AnchorInRange(t.m, cfg)
  {
    var after := Push(t.m, cfg, f);
    if f.tag == TAG_16S then
      if |after.fields| > |t.m.fields| && t.live != []
      then Traced(after, t.live[..|t.live| - 1], t.group, t.owners + [Some(t.live[|t.live| - 1])])
      else t.(m := after)
    else
      var s := TraceAnchor(t, cfg, f.tag);
      Traced(after,
             if |after.stack| > |s.m.stack| then s.live + [|s.m.ledger|] else s.live,
             s.group,
             s.owners + [Owner(s)])
  }

  function TraceRun(cfg: Config, input: seq<RawField>): (t: Traced)
    ensures t.m == Run(Start, cfg, input)
  {
    if input == [] then TracedStart
    else TracePush(TraceRun(cfg, input[..|input| - 1]), cfg, input[|input| - 1])
  }

  ghost predicate LiveOk(m: Machine, live: seq<nat>) {
    && |live| == |m.stack|
    && (forall k :: 0 <= k < |live| ==> live[k] < |m.ledger| && m.ledger[live[k]] == m.stack[..k + 1])
  }

  ghost predicate GroupOk(m: Machine, group: Option<nat>, cfg: Config)
    requires AnchorInRange(m, cfg)
  {
    && (group.Some? <==> m.anchor.Some?)
    && (group.Some? ==> group.value < |m.ledger| && m.ledger[group.value] == AnchorPath(m.anchor.value, cfg))
  }

  ghost predicate OwnerOk(ledger: seq<Path>, path: Path, owner: Option<nat>) {
    if owner.Some? then owner.value < |ledger| && ledger[owner.value] == path else path == []
  }

  ghost predicate OwnersOk(m: Machine, owners: seq<Option<nat>>) {
    && |owners| == |m.fields|
    && (forall i :: 0 <= i < |owners| ==> OwnerOk(m.ledger, m.fields[i].path, owners[i]))
  }

  ghost predicate TraceInv(t: Traced, cfg: Config) {
    && AnchorInRange(t.m, cfg)
    && LiveOk(t.m, t.live)
    && GroupOk(t.m, t.group, cfg)
    && OwnersOk(t.m, t.owners)
  }

  lemma TraceAnchorKeepsInv(t: Traced, cfg: Config, tag: Bytes)
    requires TraceInv(t, cfg)
    ensures TraceInv(TraceAnchor(t, cfg, tag), cfg)
  {}

  lemma OwnerNamesPath(t: Traced, cfg: Config)
    requires TraceInv(t, cfg)
    ensures OwnerOk(t.m.ledger, FieldPath(t.m, cfg), Owner(t))
  {}

  lemma TraceCloseKeepsInv(t: Traced, cfg: Config, f: RawField, found: Bytes)
    requires TraceInv(t, cfg) && t.m.stack != []
    ensures var after := Close(t.m, f, found);
      |after.fields| > |t.m.fields| ==>
      TraceInv(Traced(after, t.live[..|t.live| - 1], t.group, t.owners + [Some(t.live[|t.live| - 1])]), cfg)
  {}

  lemma TraceOpenKeepsInv(t: Traced, cfg: Config, name: Bytes)
    requires TraceInv(t, cfg)
    ensures var after := Open(t.m, cfg, name);
      TraceInv(t.(m := after, live := if |after.stack| > |t.m.stack| then t.live + [|t.m.ledger|] else t.live), cfg)
  {}

  lemma TracePushKeepsInv(t: Traced, cfg: Config, f: RawField)
    requires TraceInv(t, cfg)
    ensures TraceInv(TracePush(t, cfg, f), cfg)
  {
    var name := Trim(f.value);
    if f.tag == TAG_16S {
      if t.m.stack != [] {
        TraceCloseKeepsInv(t, cfg, f, name);
      }
    } else {
      TraceAnchorKeepsInv(t, cfg, f.tag);
      var s := TraceAnchor(t, cfg, f.tag);
      OwnerNamesPath(s, cfg);
      var emitted := s.(m := Emit(s.m, cfg, f), owners := s.owners + [Owner(s)]);
      assert TraceInv(emitted, cfg);
      if f.tag == TAG_16R {
        TraceOpenKeepsInv(emitted, cfg, name);
      }
    }
  }

  lemma {:induction false} TraceRunKeepsInv(cfg: Config, input: seq<RawField>)
    ensures TraceInv(TraceRun(cfg, input), cfg)
  {
    if input != [] {
      TraceRunKeepsInv(cfg, input[..|input| - 1]);
      TracePushKeepsInv(TraceRun(cfg, input[..|input| - 1]), cfg, input[|input| - 1]);
    }
  }

  /** Two fields carry the same path exactly when the same instance owns them. */
  lemma SamePathIffSameInstance(cfg: Config, input: seq<RawField>, i: nat, j: nat)
    requires i < |Run(Start, cfg, input).fields| && j < |Run(Start, cfg, input).fields|
    ensures var t := TraceRun(cfg, input);
      && |t.owners| == |t.m.fields|
      && (t.m.fields[i].path == t.m.fields[j].path <==> t.owners[i] == t.owners[j])
  {
    TraceRunKeepsInv(cfg, input);
    RunKeepsWellNamed(Start, cfg, input);
    var t := TraceRun(cfg, input);
    assert OwnerOk(t.m.ledger, t.m.fields[i].path, t.owners[i]);
    assert OwnerOk(t.m.ledger, t.m.fields[j].path, t.owners[j]);
    if t.m.fields[i].path == t.m.fields[j].path && t.owners[i].Some? && t.owners[j].Some? {
      DistinctPaths(t.m.ledger, t.owners[i].value, t.owners[j].value);
    }
  }
}
