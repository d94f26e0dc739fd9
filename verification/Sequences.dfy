/**
 * The sequence state machine behind `push_field`: a stack of open 16R/16S
 * sequences, per-parent occurrence numbers, and one open anchored group.
 *
 * `Machine` is the specification. It keeps the paths of all instances ever
 * opened and numbers a new instance by counting its earlier namesakes under the
 * same parent. `FieldParser` is the mutable parser with its counter table.
 */
module Sequences {
  import opened Bytes

  datatype Frame = Frame(name: Bytes, occurrence: nat)
  type Path = seq<Frame>

  datatype AnchoredSequence = AnchoredSequence(name: Bytes, anchorTag: Bytes, memberTags: seq<Bytes>)

  datatype Field = Field(tag: Bytes, qualifier: Option<Bytes>, value: Bytes, path: Path)

  datatype LimitKind = TotalBytes | BlockBytes | Fields | SequenceDepth

  datatype Diagnostic =
    | LimitExceeded(kind: LimitKind, limit: nat, observed: nat)
    | ExpectedBlockOpen(offset: nat)
    | MissingBlockSeparator(offset: nat)
    | UnclosedBlock(offset: nat)
    | UnclosedTextBlock(offset: nat)
    | MalformedFieldTag(offset: nat)
    | MismatchedSequenceEnd(expected: Option<Bytes>, found: Bytes)
    | UnclosedSequence(name: Bytes)

  /** What the caller fixes for a run: the anchored sequences and the depth limit. */
  datatype Config = Config(anchored: seq<AnchoredSequence>, maxDepth: nat)

  /** A tag and its value, as the line scanner hands them over. */
  datatype RawField = RawField(tag: Bytes, value: Bytes)

  datatype OpenAnchor = OpenAnchor(index: nat, occurrence: nat)

  datatype Machine = Machine(
    fields: seq<Field>,
    stack: Path,
    ledger: seq<Path>,
    anchor: Option<OpenAnchor>,
    diagnostics: seq<Diagnostic>)

  const TAG_16R: Bytes := [0x31, 0x36, 0x52]
  const TAG_16S: Bytes := [0x31, 0x36, 0x53]

  const Start := Machine([], [], [], None, [])

  /** The four-character qualifier of a generic field value such as `:SEME//REF`. */
  function ExtractQualifier(value: Bytes): Option<Bytes> {
    if |value| < 7 || value[0] != COLON then None
    else if (forall k :: 1 <= k < 5 ==> IsAlphanumeric(value[k])) && value[5] == SLASH && value[6] == SLASH
    then Some(value[1..5])
    else None
  }

  /** `q` has four characters and stands between a colon and two slashes at the front of `value`. */
  ghost predicate IsQualifier(q: Bytes, value: Bytes) {
    && |q| == 4 && (forall k :: 0 <= k < 4 ==> IsAlphanumeric(q[k]))
    && exists rest: Bytes :: value == [COLON] + q + [SLASH, SLASH] + rest
  }

  lemma QualifierIff(value: Bytes, q: Bytes)
    ensures ExtractQualifier(value) == Some(q) <==> IsQualifier(q, value)
  {
    if ExtractQualifier(value) == Some(q) {
      assert value == [COLON] + q + [SLASH, SLASH] + value[7..];
    }
    if IsQualifier(q, value) {
      var rest: Bytes :| value == [COLON] + q + [SLASH, SLASH] + rest;
      assert value[1..5] == q;
      forall k | 1 <= k < 5
        ensures IsAlphanumeric(value[k])
      {
        assert value[k] == q[k - 1];
      }
    }
  }

  /** Is `p` the path of an instance called `name` directly under `parent`? */
  predicate IsInstance(p: Path, parent: Path, name: Bytes) {
    p != [] && p[..|p| - 1] == parent && p[|p| - 1].name == name
  }

  /** How many of the `ledger` entries are called `name` directly under `parent`. */
  function Instances(ledger: seq<Path>, parent: Path, name: Bytes): nat {
    if ledger == [] then 0
    else Instances(ledger[..|ledger| - 1], parent, name) + if IsInstance(ledger[|ledger| - 1], parent, name) then 1 else 0
  }

  /** The frame of the next instance called `name` under `parent`. */
  function NextFrame(ledger: seq<Path>, parent: Path, name: Bytes): Frame {
    Frame(name, Instances(ledger, parent, name))
  }

  /** Position of the anchored sequence started by `tag`, or the number of them. */
  function AnchorIndex(anchored: seq<AnchoredSequence>, tag: Bytes): (i: nat)
    ensures i <= |anchored|
    ensures i < |anchored| ==> anchored[i].anchorTag == tag
    ensures forall k :: 0 <= k < i ==> anchored[k].anchorTag != tag
  {
    if anchored == [] || anchored[0].anchorTag == tag then 0 else 1 + AnchorIndex(anchored[1..], tag)
  }

  predicate AnchorInRange(m: Machine, cfg: Config) {
    m.anchor.Some? ==> m.anchor.value.index < |cfg.anchored|
  }

  /** The path of the open anchored group. */
  function AnchorPath(a: OpenAnchor, cfg: Config): Path
    requires a.index < |cfg.anchored|
  {
    [Frame(cfg.anchored[a.index].name, a.occurrence)]
  }

  /** 16S: pops the sequence when it is called `found`, reports anything else. */
  function Close(m: Machine, f: RawField, found: Bytes): Machine {
    if m.stack == [] then
      m.(diagnostics := m.diagnostics + [MismatchedSequenceEnd(None, found)])
    else
      var top := m.stack[|m.stack| - 1];
      if top.name == found then
        m.(fields := m.fields + [Field(f.tag, ExtractQualifier(f.value), f.value, m.stack)],
           stack := m.stack[..|m.stack| - 1])
      else
        m.(diagnostics := m.diagnostics + [MismatchedSequenceEnd(Some(top.name), found)])
  }

  /** Starts, keeps or ends the anchored group on a field at root scope. */
  function StepAnchor(m: Machine, cfg: Config, tag: Bytes): (r: Machine)
    requires AnchorInRange(m, cfg)
    ensures AnchorInRange(r, cfg)
  {
    if m.stack != [] then m
    else
      var i := AnchorIndex(cfg.anchored, tag);
      if i < |cfg.anchored| then
        var frame := NextFrame(m.ledger, [], cfg.anchored[i].name);
        m.(anchor := Some(OpenAnchor(i, frame.occurrence)), ledger := m.ledger + [[frame]])
      else if m.anchor.Some? && tag !in cfg.anchored[m.anchor.value.index].memberTags then
        m.(anchor := None)
      else m
  }

  /** The path a field gets: the open stack, or the open anchored group at root. */
  function FieldPath(m: Machine, cfg: Config): Path
    requires AnchorInRange(m, cfg)
  {
    if m.stack == [] && m.anchor.Some? then AnchorPath(m.anchor.value, cfg) else m.stack
  }

  /** 16R: opens a sequence unless the depth limit is reached. */
  function Open(m: Machine, cfg: Config, name: Bytes): Machine {
    if |m.stack| >= cfg.maxDepth then
      m.(diagnostics := m.diagnostics + [LimitExceeded(SequenceDepth, cfg.maxDepth, |m.stack| + 1)])
    else
      var path := m.stack + [NextFrame(m.ledger, m.stack, name)];
      m.(stack := path, ledger := m.ledger + [path])
  }

  function Emit(m: Machine, cfg: Config, f: RawField): Machine
    requires AnchorInRange(m, cfg)
  {
    m.(fields := m.fields + [Field(f.tag, ExtractQualifier(f.value), f.value, FieldPath(m, cfg))])
  }

  function Push(m: Machine, cfg: Config, f: RawField): (r: Machine)
    requires AnchorInRange(m, cfg)
    ensures AnchorInRange(r, cfg)
  {
    if f.tag == TAG_16S then Close(m, f, Trim(f.value))
    else
      var emitted := Emit(StepAnchor(m, cfg, f.tag), cfg, f);
      if f.tag == TAG_16R then Open(emitted, cfg, Trim(f.value)) else emitted
  }

  /** The machine after all of `input`. */
  function Run(m: Machine, cfg: Config, input: seq<RawField>): (r: Machine)
    requires AnchorInRange(m, cfg)
    ensures AnchorInRange(r, cfg)
  {
    if input == [] then m
    else Push(Run(m, cfg, input[..|input| - 1]), cfg, input[|input| - 1])
  }

  lemma RunAppend(m: Machine, cfg: Config, input: seq<RawField>, f: RawField)
    requires AnchorInRange(m, cfg)
    ensures Run(m, cfg, input + [f]) == Push(Run(m, cfg, input), cfg, f)
  {}

  lemma {:induction false} RunConcat(m: Machine, cfg: Config, a: seq<RawField>, b: seq<RawField>)
    requires AnchorInRange(m, cfg)
    ensures Run(m, cfg, a + b) == Run(Run(m, cfg, a), cfg, b)
    decreases |b|
  {
    if b == [] {
      assert a + b == a;
    } else {
      var b' := b[..|b| - 1];
      RunConcat(m, cfg, a, b');
      assert (a + b)[..|a + b| - 1] == a + b';
    }
  }

  lemma RunCons(m: Machine, cfg: Config, input: seq<RawField>)
    requires AnchorInRange(m, cfg) && input != []
    ensures Run(m, cfg, input) == Run(Push(m, cfg, input[0]), cfg, input[1..])
  {
    assert [input[0]] + input[1..] == input;
    RunConcat(m, cfg, [input[0]], input[1..]);
    assert [input[0]][..0] == [];
    assert Run(m, cfg, [input[0]]) == Push(m, cfg, input[0]);
  }

  // ---- The mutable parser ----

  /** One row of the occurrence table. */
  datatype Counter = Counter(parent: Path, name: Bytes, count: nat)

  function CounterIndex(counts: seq<Counter>, parent: Path, name: Bytes): (i: nat)
    ensures i <= |counts|
    ensures i < |counts| ==> counts[i].parent == parent && counts[i].name == name
    ensures forall k :: 0 <= k < i ==> !(counts[k].parent == parent && counts[k].name == name)
  {
    if counts == [] || (counts[0].parent == parent && counts[0].name == name) then 0
    else 1 + CounterIndex(counts[1..], parent, name)
  }

  function CountFor(counts: seq<Counter>, parent: Path, name: Bytes): nat {
    var i := CounterIndex(counts, parent, name);
    if i < |counts| then counts[i].count else 0
  }

  /** The table agrees with the ledger, for every parent and name. */
  ghost predicate CountsMatch(counts: seq<Counter>, ledger: seq<Path>) {
    forall parent, name :: CountFor(counts, parent, name) == Instances(ledger, parent, name)
  }

  lemma CounterIndexIsLeast(counts: seq<Counter>, parent: Path, name: Bytes, i: nat)
    requires i <= |counts|
    requires i < |counts| ==> counts[i].parent == parent && counts[i].name == name
    requires forall k :: 0 <= k < i ==> !(counts[k].parent == parent && counts[k].name == name)
    ensures CounterIndex(counts, parent, name) == i
  {}

  lemma InstancesAppend(ledger: seq<Path>, p: Path, parent: Path, name: Bytes)
    ensures Instances(ledger + [p], parent, name)
         == Instances(ledger, parent, name) + if IsInstance(p, parent, name) then 1 else 0
  {}

  /** Bumping (or adding) the row of `parent`, `name` accounts for one more instance. */
  lemma BumpKeepsMatch(counts: seq<Counter>, counts': seq<Counter>, ledger: seq<Path>, parent: Path, frame: Frame)
    requires CountsMatch(counts, ledger)
    requires var i := CounterIndex(counts, parent, frame.name);
      counts' == if i < |counts| then counts[i := counts[i].(count := counts[i].count + 1)]
                 else counts + [Counter(parent, frame.name, 1)]
    ensures CountsMatch(counts', ledger + [parent + [frame]])
  {
    var p := parent + [frame];
    assert p[..|p| - 1] == parent;
    forall parent', name'
      ensures CountFor(counts', parent', name') == Instances(ledger + [p], parent', name')
    {
      InstancesAppend(ledger, p, parent', name');
      assert CountFor(counts, parent', name') == Instances(ledger, parent', name');
      var i := CounterIndex(counts, parent, frame.name);
      var j := CounterIndex(counts, parent', name');
      if parent' == parent && name' == frame.name {
        CounterIndexIsLeast(counts', parent', name', i);
      } else if j < |counts| {
        CounterIndexIsLeast(counts', parent', name', j);
      } else {
        CounterIndexIsLeast(counts', parent', name', |counts'|);
      }
    }
  }

  /** The parser's mutable state, updated field by field. */
  class FieldParser {
    const cfg: Config
    var fields: seq<Field>
    var stack: Path
    var counts: seq<Counter>
    var openAnchor: Option<OpenAnchor>
    var diagnostics: seq<Diagnostic>
    ghost var ledger: seq<Path>

    ghost predicate Valid()
      reads this
    {
      CountsMatch(counts, ledger) && AnchorInRange(State(), cfg)
    }

    /** The specification state this object represents. */
    ghost function State(): Machine
      reads this
    {
      Machine(fields, stack, ledger, openAnchor, diagnostics)
    }

    constructor (cfg: Config, diagnostics: seq<Diagnostic>)
      ensures Valid() && this.cfg == cfg && State() == Start.(diagnostics := diagnostics)
    {
      this.cfg := cfg;
      fields, stack, counts, openAnchor := [], [], [], None;
      this.diagnostics := diagnostics;
      ledger := [];
    }

    /** Looks the counter up, bumps it, and returns the old count. */
    method NextOccurrence(name: Bytes) returns (occurrence: nat)
      requires Valid()
      modifies this`counts, this`ledger
      ensures Valid()
      ensures occurrence == Instances(old(ledger), stack, name)
      ensures ledger == old(ledger) + [stack + [Frame(name, occurrence)]]
    {
      var i := 0;
      while i < |counts| && !(counts[i].parent == stack && counts[i].name == name)
        invariant 0 <= i <= |counts|
        invariant forall k :: 0 <= k < i ==> !(counts[k].parent == stack && counts[k].name == name)
      {
        i := i + 1;
      }
      CounterIndexIsLeast(counts, stack, name, i);
      assert CountFor(counts, stack, name) == Instances(ledger, stack, name);
      ghost var before := counts;
      if i < |counts| {
        occurrence := counts[i].count;
        counts := counts[i := counts[i].(count := occurrence + 1)];
      } else {
        counts := counts + [Counter(stack, name, 1)];
        occurrence := 0;
      }
      BumpKeepsMatch(before, counts, ledger, stack, Frame(name, occurrence));
      ledger := ledger + [stack + [Frame(name, occurrence)]];
    }

    method CloseSequence(f: RawField, found: Bytes)
      requires Valid()
      modifies this
      ensures Valid() && State() == Close(old(State()), f, found)
    {
      if stack == [] {
        diagnostics := diagnostics + [MismatchedSequenceEnd(None, found)];
      } else {
        var frame := stack[|stack| - 1];
        if frame.name == found {
          fields := fields + [Field(f.tag, ExtractQualifier(f.value), f.value, stack)];
          stack := stack[..|stack| - 1];
        } else {
          diagnostics := diagnostics + [MismatchedSequenceEnd(Some(frame.name), found)];
        }
      }
    }

    /** The anchored frame of this field, if any; updates the open group. */
    method AnchorFrame(tag: Bytes) returns (frame: Option<Frame>)
      requires Valid()
      modifies this`counts, this`ledger, this`openAnchor
      ensures Valid() && State() == StepAnchor(old(State()), cfg, tag)
      ensures stack + (if frame.Some? then [frame.value] else []) == FieldPath(State(), cfg)
    {
      frame := None;
      if stack == [] && cfg.anchored != [] {
        var i := AnchorIndex(cfg.anchored, tag);
        if i < |cfg.anchored| {
          var name := cfg.anchored[i].name;
          var occurrence := NextOccurrence(name);
          openAnchor := Some(OpenAnchor(i, occurrence));
          frame := Some(Frame(name, occurrence));
          assert stack + [Frame(name, occurrence)] == [Frame(name, occurrence)];
        } else if openAnchor.Some? {
          var a := openAnchor.value;
          if tag in cfg.anchored[a.index].memberTags {
            frame := Some(Frame(cfg.anchored[a.index].name, a.occurrence));
          } else {
            openAnchor := None;
          }
        }
      }
    }

    method OpenSequence(name: Bytes)
      requires Valid()
      modifies this
      ensures Valid() && State() == Open(old(State()), cfg, name)
    {
      if |stack| >= cfg.maxDepth {
        diagnostics := diagnostics + [LimitExceeded(SequenceDepth, cfg.maxDepth, |stack| + 1)];
        return;
      }
      var occurrence := NextOccurrence(name);
      stack := stack + [Frame(name, occurrence)];
    }

    method PushField(f: RawField)
      requires Valid()
      modifies this
      ensures Valid() && State() == Push(old(State()), cfg, f)
    {
      if f.tag == TAG_16S {
        var found := TrimAscii(f.value);
        CloseSequence(f, found);
        return;
      }
      var frame := AnchorFrame(f.tag);
      var path := if frame.Some? then stack + [frame.value] else stack;
      ghost var stepped := State();
      fields := fields + [Field(f.tag, ExtractQualifier(f.value), f.value, path)];
      assert path == FieldPath(stepped, cfg);
      assert State() == Emit(stepped, cfg, f);
      if f.tag == TAG_16R {
        var name := TrimAscii(f.value);
        OpenSequence(name);
      }
    }
  }
}
