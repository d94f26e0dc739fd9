/**
 * The sequence diagnostics recognise exactly the bracket language of 16R/16S:
 * a run reports nothing if and only if its markers spell the word of a forest
 * no taller than the depth limit. Anchored groups make no difference.
 */
module Nesting {
  import opened Bytes
  import opened Sequences

  datatype Mark = Opens(name: Bytes) | Closes(name: Bytes)

  /** Nested sequences, first child and next sibling. */
  datatype Forest = Empty | Node(name: Bytes, inner: Forest, rest: Forest)

  function Word(f: Forest): seq<Mark> {
    match f
    case Empty => []
    case Node(name, inner, rest) => [Opens(name)] + Word(inner) + [Closes(name)] + Word(rest)
  }

  function Height(f: Forest): nat {
    match f
    case Empty => 0
    case Node(_, inner, rest) => if Height(rest) > Height(inner) then Height(rest) else Height(inner) + 1
  }

  ghost predicate WellNested(w: seq<Mark>, maxDepth: nat) {
    exists f :: Word(f) == w && Height(f) <= maxDepth
  }

  /** The markers of an input, with trimmed names. */
  function Marks(input: seq<RawField>): seq<Mark> {
    if input == [] then [] else MarkOf(input[0]) + Marks(input[1..])
  }

  function MarkOf(f: RawField): seq<Mark> {
    if f.tag == TAG_16R then [Opens(Trim(f.value))]
    else if f.tag == TAG_16S then [Closes(Trim(f.value))]
    else []
  }

  /** The report on sequences still open at the end, innermost first. */
  function Unclosed(stack: Path): seq<Diagnostic> {
    if stack == [] then []
    else [UnclosedSequence(stack[|stack| - 1].name)] + Unclosed(stack[..|stack| - 1])
  }

  /** All diagnostics of a run over `input`. */
  function Diagnose(cfg: Config, input: seq<RawField>): seq<Diagnostic> {
    var m := Run(Start, cfg, input);
    m.diagnostics + Unclosed(m.stack)
  }

  // ---- From the machine to a stack of names ----

  function Names(stack: Path): seq<Bytes> {
    seq(|stack|, i requires 0 <= i < |stack| => stack[i].name)
  }

  /** Can `w` be consumed to the end, starting below the open `names`? */
  predicate Accepts(w: seq<Mark>, names: seq<Bytes>, maxDepth: nat) {
    if w == [] then names == []
    else match w[0]
      case Opens(n) => |names| < maxDepth && Accepts(w[1..], names + [n], maxDepth)
      case Closes(n) => names != [] && names[|names| - 1] == n && Accepts(w[1..], names[..|names| - 1], maxDepth)
  }

  lemma {:induction false} DiagnosticsStay(m: Machine, cfg: Config, input: seq<RawField>)
    requires AnchorInRange(m, cfg)
    ensures |m.diagnostics| <= |Run(m, cfg, input).diagnostics|
  {
    if input != [] {
      DiagnosticsStay(m, cfg, input[..|input| - 1]);
    }
  }

  /** One field moves the stack of names as its marker says, or reports. */
  lemma PushFollowsMark(m: Machine, cfg: Config, f: RawField, name: Bytes)
    requires AnchorInRange(m, cfg) && m.diagnostics == [] && name == Trim(f.value)
    ensures var after := Push(m, cfg, f);
      if f.tag == TAG_16R then
        if |m.stack| < cfg.maxDepth then after.diagnostics == [] && Names(after.stack) == Names(m.stack) + [name]
        else after.diagnostics != []
      else if f.tag == TAG_16S then
        if m.stack != [] && Names(m.stack)[|m.stack| - 1] == name
        then after.diagnostics == [] && Names(after.stack) == Names(m.stack)[..|m.stack| - 1]
        else after.diagnostics != []
      else after.diagnostics == [] && after.stack == m.stack
  {}

  /** Consuming one field's marker in the word of its input. */
  lemma AcceptsFirst(f: RawField, rest: seq<Mark>, names: seq<Bytes>, maxDepth: nat, name: Bytes)
    requires name == Trim(f.value)
    ensures Accepts(MarkOf(f) + rest, names, maxDepth) <==>
      if f.tag == TAG_16R then |names| < maxDepth && Accepts(rest, names + [name], maxDepth)
      else if f.tag == TAG_16S then
        names != [] && names[|names| - 1] == name && Accepts(rest, names[..|names| - 1], maxDepth)
      else Accepts(rest, names, maxDepth)
  {
    var w := MarkOf(f) + rest;
    if f.tag == TAG_16R || f.tag == TAG_16S {
      assert w[1..] == rest;
    } else {
      assert w == rest;
    }
  }

  lemma {:induction false} QuietIffAccepted(m: Machine, cfg: Config, input: seq<RawField>)
    requires AnchorInRange(m, cfg) && m.diagnostics == []
    ensures var r := Run(m, cfg, input);
      r.diagnostics == [] && r.stack == [] <==> Accepts(Marks(input), Names(m.stack), cfg.maxDepth)
    decreases |input|
  {
    if input != [] {
      var f, rest := input[0], input[1..];
      var name := Trim(f.value);
      var next := Push(m, cfg, f);
      RunCons(m, cfg, input);
      PushFollowsMark(m, cfg, f, name);
      AcceptsFirst(f, Marks(rest), Names(m.stack), cfg.maxDepth, name);
      if next.diagnostics == [] {
        QuietIffAccepted(next, cfg, rest);
      } else {
        DiagnosticsStay(next, cfg, rest);
      }
    }
  }

  // ---- From the stack of names to the grammar ----

  /** A forest that fits under the limit is consumed whole. */
  lemma {:induction false} ForestIsConsumed(f: Forest, w: seq<Mark>, names: seq<Bytes>, maxDepth: nat)
    requires |names| + Height(f) <= maxDepth
    ensures Accepts(Word(f) + w, names, maxDepth) <==> Accepts(w, names, maxDepth)
  {
    match f
    case Empty =>
      assert [] + w == w;
    case Node(name, inner, rest) =>
      var afterInner := [Closes(name)] + (Word(rest) + w);
      var afterOpen := Word(inner) + afterInner;
      assert Word(f) + w == [Opens(name)] + afterOpen;
      assert ([Opens(name)] + afterOpen)[1..] == afterOpen;
      ForestIsConsumed(inner, afterInner, names + [name], maxDepth);
      assert afterInner[1..] == Word(rest) + w;
      assert (names + [name])[..|names|] == names;
      ForestIsConsumed(rest, w, names, maxDepth);
  }

  /** The word left when the sequences `names` are open, `fs[i]` being what follows at level `i`. */
  function Layers(fs: seq<Forest>, names: seq<Bytes>): seq<Mark>
    requires |fs| == |names| + 1
    decreases |names|
  {
    var n := |names|;
    if n == 0 then Word(fs[0])
    else Word(fs[n]) + [Closes(names[n - 1])] + Layers(fs[..n], names[..n - 1])
  }

  /** Prefixing the top forest's word prefixes the whole. */
  lemma LayersTop(gs: seq<Forest>, fs: seq<Forest>, names: seq<Bytes>, prefix: seq<Mark>)
    requires |gs| == |fs| == |names| + 1 && fs[..|names|] == gs[..|names|]
    requires Word(fs[|names|]) == prefix + Word(gs[|names|])
    ensures Layers(fs, names) == prefix + Layers(gs, names)
  {}

  ghost predicate LayersFit(fs: seq<Forest>, maxDepth: nat) {
    forall i :: 0 <= i < |fs| ==> i + Height(fs[i]) <= maxDepth
  }

  /** An opening mark folds the two top forests into one node. */
  lemma FoldLayers(gs: seq<Forest>, names: seq<Bytes>, name: Bytes, maxDepth: nat) returns (fs: seq<Forest>)
    requires |gs| == |names| + 2 && LayersFit(gs, maxDepth)
    ensures |fs| == |names| + 1 && LayersFit(fs, maxDepth)
    ensures Layers(fs, names) == [Opens(name)] + Layers(gs, names + [name])
  {
    var n := |names|;
    fs := gs[..n] + [Node(name, gs[n + 1], gs[n])];
    var below := gs[..n + 1];
    assert below[..n] == gs[..n] == fs[..n];
    assert (names + [name])[..n] == names;
    var prefix := [Opens(name)] + Word(gs[n + 1]) + [Closes(name)];
    LayersTop(below, fs, names, prefix);
    assert prefix + Layers(below, names)
        == [Opens(name)] + (Word(gs[n + 1]) + [Closes(name)] + Layers(below, names));
  }

  /** A consumed word can be parsed back into one forest per open level. */
  lemma {:induction false} AcceptedHasLayers(w: seq<Mark>, names: seq<Bytes>, maxDepth: nat) returns (fs: seq<Forest>)
    requires Accepts(w, names, maxDepth) && |names| <= maxDepth
    ensures |fs| == |names| + 1 && Layers(fs, names) == w && LayersFit(fs, maxDepth)
    decreases |w|
  {
    if w == [] {
      fs := [Empty];
    } else {
      assert w == [w[0]] + w[1..];
      match w[0]
      case Opens(name) =>
        var gs := AcceptedHasLayers(w[1..], names + [name], maxDepth);
        fs := FoldLayers(gs, names, name, maxDepth);
      case Closes(name) =>
        var gs := AcceptedHasLayers(w[1..], names[..|names| - 1], maxDepth);
        fs := gs + [Empty];
        assert fs[..|names|] == gs;
    }
  }

  /** No sequence diagnostic exactly when the 16R/16S word is well nested within the limit. */
  lemma QuietIffWellNested(cfg: Config, input: seq<RawField>)
    ensures Diagnose(cfg, input) == [] <==> WellNested(Marks(input), cfg.maxDepth)
  {
    QuietIffAccepted(Start, cfg, input);
    var w := Marks(input);
    if Accepts(w, [], cfg.maxDepth) {
      var fs := AcceptedHasLayers(w, [], cfg.maxDepth);
      assert Word(fs[0]) == w;
    }
    if WellNested(w, cfg.maxDepth) {
      var f :| Word(f) == w && Height(f) <= cfg.maxDepth;
      ForestIsConsumed(f, [], [], cfg.maxDepth);
      assert Word(f) + [] == w;
    }
  }

  // ---- Conservation ----

  function MismatchedEnds(ds: seq<Diagnostic>): nat {
    if ds == [] then 0
    else MismatchedEnds(ds[..|ds| - 1]) + if ds[|ds| - 1].MismatchedSequenceEnd? then 1 else 0
  }

  /** Every input field either comes out as a field or is reported as a mismatched end. */
  lemma {:induction false} NothingIsLost(cfg: Config, input: seq<RawField>)
    ensures var m := Run(Start, cfg, input); |m.fields| + MismatchedEnds(m.diagnostics) == |input|
  {
    if input != [] {
      var init, f := input[..|input| - 1], input[|input| - 1];
      NothingIsLost(cfg, init);
      PushAddsOne(Run(Start, cfg, init), cfg, f, Trim(f.value));
    }
  }

  lemma PushAddsOne(m: Machine, cfg: Config, f: RawField, name: Bytes)
    requires AnchorInRange(m, cfg) && name == Trim(f.value)
    ensures var after := Push(m, cfg, f);
      |after.fields| + MismatchedEnds(after.diagnostics) == |m.fields| + MismatchedEnds(m.diagnostics) + 1
  {
    hide Trim;
    var after := Push(m, cfg, f);
    if |after.diagnostics| > |m.diagnostics| {
      assert after.diagnostics[..|m.diagnostics|] == m.diagnostics;
    }
  }
}
