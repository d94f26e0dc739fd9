/** Nested messages written out with 16R/16S markers, and the paths their fields must get. */
module Trees {
  import opened Bytes
  import opened Sequences
  import opened Naming
  import opened Nesting
  import Contiguity

  /** A list of fields and sequences; a sequence has a list inside and one after it. */
  datatype Tree =
    | Nil
    | Leaf(tag: Bytes, value: Bytes, next: Tree)
    | Group(name: Bytes, inner: Tree, next: Tree)

  predicate WellFormed(t: Tree) {
    match t
    case Nil => true
    case Leaf(tag, _, next) => tag != TAG_16R && tag != TAG_16S && WellFormed(next)
    case Group(name, inner, next) => Trimmed(name) && WellFormed(inner) && WellFormed(next)
  }

  function Depth(t: Tree): nat {
    match t
    case Nil => 0
    case Leaf(_, _, next) => Depth(next)
    case Group(_, inner, next) => if Depth(next) > Depth(inner) then Depth(next) else Depth(inner) + 1
  }

  function Flatten(t: Tree): seq<RawField> {
    match t
    case Nil => []
    case Leaf(tag, value, next) => [RawField(tag, value)] + Flatten(next)
    case Group(name, inner, next) =>
      [RawField(TAG_16R, name)] + (Flatten(inner) + ([RawField(TAG_16S, name)] + Flatten(next)))
  }

  function FieldAt(f: RawField, path: Path): Field {
    Field(f.tag, ExtractQualifier(f.value), f.value, path)
  }

  /**
   * The fields of a tree below `parent`: a sequence is numbered by its earlier
   * namesakes among its siblings, `before`. Its 16R belongs to the parent, its 16S to itself.
   */
  function Expected(t: Tree, parent: Path, before: seq<Bytes>): seq<Field> {
    match t
    case Nil => []
    case Leaf(tag, value, next) => [FieldAt(RawField(tag, value), parent)] + Expected(next, parent, before)
    case Group(name, inner, next) =>
      var path := parent + [Frame(name, multiset(before)[name])];
      [FieldAt(RawField(TAG_16R, name), parent)]
        + (Expected(inner, path, [])
        + ([FieldAt(RawField(TAG_16S, name), path)] + Expected(next, parent, before + [name])))
  }

  ghost predicate ParentsKnown(ledger: seq<Path>) {
    forall p :: p in ledger ==> p != [] && (Parent(p) == [] || Parent(p) in ledger)
  }

  /** The state between two items of a tree list. */
  ghost predicate Ready(m: Machine, before: seq<Bytes>) {
    && m.anchor == None
    && WellNamed(m.ledger) && ParentsKnown(m.ledger)
    && (m.stack == [] || m.stack in m.ledger)
    && (forall name :: Instances(m.ledger, m.stack, name) == multiset(before)[name])
  }

  /** Nothing outside `stack` is counted anew. */
  ghost predicate SameElsewhere(l: seq<Path>, l': seq<Path>, stack: Path) {
    forall q, name :: !(stack <= q) ==> Instances(l', q, name) == Instances(l, q, name)
  }

  lemma {:induction false} NoInstances(ledger: seq<Path>, parent: Path, name: Bytes)
    requires forall i :: 0 <= i < |ledger| ==> ledger[i] != [] && Parent(ledger[i]) != parent
    ensures Instances(ledger, parent, name) == 0
  {
    if ledger != [] {
      NoInstances(ledger[..|ledger| - 1], parent, name);
    }
  }

  /** Entering a path not seen before: all its children are still to come. */
  lemma EnterReady(m: Machine, name: Bytes, before: seq<Bytes>, fields: seq<Field>)
    requires Ready(m, before)
    ensures var path := m.stack + [NextFrame(m.ledger, m.stack, name)];
      Ready(m.(fields := fields, stack := path, ledger := m.ledger + [path]), [])
  {
    var path := m.stack + [NextFrame(m.ledger, m.stack, name)];
    var ledger := m.ledger + [path];
    assert Parent(path) == m.stack;
    OpenKeepsWellNamed(m.ledger, m.stack, name);
    Contiguity.NextIsFresh(m.ledger, m.stack, name);
    forall i | 0 <= i < |ledger| ensures ledger[i] != [] && Parent(ledger[i]) != path {
      if i < |m.ledger| { assert ledger[i] in m.ledger; }
    }
    forall name' ensures Instances(ledger, path, name') == 0 {
      NoInstances(ledger, path, name');
    }
  }

  lemma OpenStep(m: Machine, maxDepth: nat, name: Bytes, before: seq<Bytes>) returns (after: Machine)
    requires Ready(m, before) && Trimmed(name) && |m.stack| < maxDepth
    ensures after == Push(m, Config([], maxDepth), RawField(TAG_16R, name))
    ensures Entered(m, after, name, before) && Ready(after, [])
  {
    var f := RawField(TAG_16R, name);
    assert NextFrame(m.ledger, m.stack, name) == Frame(name, multiset(before)[name]);
    EnterReady(m, name, before, m.fields + [FieldAt(f, m.stack)]);
    var path := m.stack + [NextFrame(m.ledger, m.stack, name)];
    after := m.(fields := m.fields + [FieldAt(f, m.stack)], stack := path, ledger := m.ledger + [path]);
  }

  lemma CloseStep(m: Machine, maxDepth: nat, name: Bytes)
    requires m.stack != [] && m.stack[|m.stack| - 1].name == name && Trimmed(name)
    requires AnchorInRange(m, Config([], maxDepth))
    ensures Push(m, Config([], maxDepth), RawField(TAG_16S, name))
         == m.(fields := m.fields + [FieldAt(RawField(TAG_16S, name), m.stack)], stack := m.stack[..|m.stack| - 1])
  {}

  /** Back at the parent after a group: one more namesake, nothing else. */
  lemma ReadyAfterGroup(m: Machine, after: Machine, path: Path, name: Bytes, before: seq<Bytes>)
    requires Ready(m, before) && path != [] && Parent(path) == m.stack && Last(path).name == name
    requires after.anchor == None && after.stack == m.stack
    requires WellNamed(after.ledger) && ParentsKnown(after.ledger)
    requires m.ledger + [path] <= after.ledger && SameElsewhere(m.ledger + [path], after.ledger, path)
    ensures Ready(after, before + [name])
    ensures SameElsewhere(m.ledger, after.ledger, m.stack)
  {
    assert !(path <= m.stack);
    forall name' ensures Instances(after.ledger, m.stack, name') == multiset(before + [name])[name'] {
      assert Instances(m.ledger, m.stack, name') == multiset(before)[name'];
      InstancesAppend(m.ledger, path, m.stack, name');
      assert multiset(before + [name]) == multiset(before) + multiset{name};
    }
    forall q, name' | !(m.stack <= q) ensures Instances(after.ledger, q, name') == Instances(m.ledger, q, name') {
      InstancesAppend(m.ledger, path, q, name');
      assert path[..|m.stack|] == m.stack;
      assert path <= q ==> m.stack <= q;
    }
  }

  /** `after` is `m` with the fields of `t` emitted and everything opened closed again. */
  ghost predicate Ran(m: Machine, after: Machine, t: Tree, before: seq<Bytes>) {
    && after.fields == m.fields + Expected(t, m.stack, before)
    && after.stack == m.stack && after.diagnostics == m.diagnostics && after.anchor == None
    && WellNamed(after.ledger) && ParentsKnown(after.ledger)
    && m.ledger <= after.ledger && SameElsewhere(m.ledger, after.ledger, m.stack)
  }

  /** The machine on a flattened tree emits the expected fields and returns to its stack in silence. */
  lemma {:induction false} TreeRun(m: Machine, maxDepth: nat, t: Tree, before: seq<Bytes>) returns (after: Machine)
    requires Ready(m, before) && WellFormed(t) && |m.stack| + Depth(t) <= maxDepth
    ensures after == Run(m, Config([], maxDepth), Flatten(t)) && Ran(m, after, t, before)
    decreases t
  {
    var cfg := Config([], maxDepth);
    match t
    case Nil =>
      after := m;
    case Leaf(tag, value, next) =>
      var f := RawField(tag, value);
      var m1 := Push(m, cfg, f);
      after := TreeRun(m1, maxDepth, next, before);
      LeafRun(m, cfg, t);
      LeafDone(m, m1, after, t, before);
    case Group(name, inner, next) =>
      var m1 := OpenStep(m, maxDepth, name, before);
      var m2 := TreeRun(m1, maxDepth, inner, []);
      CloseStep(m2, maxDepth, name);
      var m3 := Push(m2, cfg, RawField(TAG_16S, name));
      GroupClosed(m, m1, m2, m3, name, inner, before);
      after := TreeRun(m3, maxDepth, next, before + [name]);
      GroupRun(m, cfg, name, Flatten(inner), Flatten(next));
      GroupDone(m, m1, m2, m3, after, t, before);
  }

  lemma LeafRun(m: Machine, cfg: Config, t: Tree)
    requires t.Leaf? && AnchorInRange(m, cfg)
    ensures Run(m, cfg, Flatten(t)) == Run(Push(m, cfg, RawField(t.tag, t.value)), cfg, Flatten(t.next))
  {
    var fs := Flatten(t);
    assert fs[1..] == Flatten(t.next);
    RunCons(m, cfg, fs);
  }

  lemma LeafDone(m: Machine, m1: Machine, after: Machine, t: Tree, before: seq<Bytes>)
    requires t.Leaf?
    requires m1 == m.(fields := m.fields + [FieldAt(RawField(t.tag, t.value), m.stack)])
    requires Ran(m1, after, t.next, before)
    ensures Ran(m, after, t, before)
  {}

  /** What `OpenStep` does. */
  ghost predicate Entered(m: Machine, m1: Machine, name: Bytes, before: seq<Bytes>) {
    var path := m.stack + [Frame(name, multiset(before)[name])];
    m1 == m.(fields := m.fields + [FieldAt(RawField(TAG_16R, name), m.stack)],
             stack := path, ledger := m.ledger + [path])
  }

  /** What `CloseStep` does. */
  ghost predicate Left(m2: Machine, m3: Machine, name: Bytes) {
    m2.stack != [] &&
    m3 == m2.(fields := m2.fields + [FieldAt(RawField(TAG_16S, name), m2.stack)], stack := m2.stack[..|m2.stack| - 1])
  }

  lemma GroupClosed(m: Machine, m1: Machine, m2: Machine, m3: Machine, name: Bytes, inner: Tree, before: seq<Bytes>)
    requires Ready(m, before) && Entered(m, m1, name, before) && Ran(m1, m2, inner, []) && Left(m2, m3, name)
    ensures m3.stack == m.stack && Ready(m3, before + [name]) && SameElsewhere(m.ledger, m3.ledger, m.stack)
  {
    var path := m1.stack;
    assert Parent(path) == m.stack;
    ReadyAfterGroup(m, m3, path, name, before);
  }

  lemma GroupDone(m: Machine, m1: Machine, m2: Machine, m3: Machine, after: Machine, t: Tree, before: seq<Bytes>)
    requires t.Group? && Entered(m, m1, t.name, before) && Ran(m1, m2, t.inner, []) && Left(m2, m3, t.name)
    requires m3.stack == m.stack && SameElsewhere(m.ledger, m3.ledger, m.stack)
    requires Ran(m3, after, t.next, before + [t.name])
    ensures Ran(m, after, t, before)
  {}

  lemma GroupRun(m: Machine, cfg: Config, name: Bytes, inner: seq<RawField>, next: seq<RawField>)
    requires AnchorInRange(m, cfg)
    ensures Run(m, cfg, [RawField(TAG_16R, name)] + (inner + ([RawField(TAG_16S, name)] + next)))
         == Run(Push(Run(Push(m, cfg, RawField(TAG_16R, name)), cfg, inner), cfg, RawField(TAG_16S, name)), cfg, next)
  {
    var open, close := RawField(TAG_16R, name), RawField(TAG_16S, name);
    var tail := [close] + next;
    var all := [open] + (inner + tail);
    assert all[1..] == inner + tail && tail[1..] == next;
    RunCons(m, cfg, all);
    RunConcat(Push(m, cfg, open), cfg, inner, tail);
    RunCons(Run(Push(m, cfg, open), cfg, inner), cfg, tail);
  }

  /** A tree no deeper than the limit comes back with its paths, and nothing is reported. */
  lemma TreeReadsBack(t: Tree, maxDepth: nat)
    requires WellFormed(t) && Depth(t) <= maxDepth
    ensures Run(Start, Config([], maxDepth), Flatten(t)).fields == Expected(t, [], [])
    ensures Diagnose(Config([], maxDepth), Flatten(t)) == []
  {
    assert Ready(Start, []);
    var after := TreeRun(Start, maxDepth, t, []);
    assert [] + Expected(t, [], []) == Expected(t, [], []);
  }
}
