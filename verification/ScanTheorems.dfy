/** The line scan equals one run of the sequence machine over the fields of the text. */
module ScanTheorems {
  import opened Bytes
  import opened Sequences
  import opened Nesting
  import opened TextScanner

  /** Reports already written do not influence a push. */
  lemma PushPrepend(m: Machine, cfg: Config, f: RawField, ds: seq<Diagnostic>, name: Bytes)
    requires AnchorInRange(m, cfg) && name == Trim(f.value)
    ensures var r := Push(m, cfg, f);
      Push(m.(diagnostics := ds + m.diagnostics), cfg, f) == r.(diagnostics := ds + r.diagnostics)
  {
    var m' := m.(diagnostics := ds + m.diagnostics);
    if f.tag == TAG_16S {
    } else {
      assert StepAnchor(m', cfg, f.tag) == StepAnchor(m, cfg, f.tag).(diagnostics := ds + m.diagnostics);
    }
  }

  lemma {:induction false} RunPrepend(m: Machine, cfg: Config, input: seq<RawField>, ds: seq<Diagnostic>)
    requires AnchorInRange(m, cfg)
    ensures var r := Run(m, cfg, input);
      Run(m.(diagnostics := ds + m.diagnostics), cfg, input) == r.(diagnostics := ds + r.diagnostics)
  {
    if input != [] {
      var init, f := input[..|input| - 1], input[|input| - 1];
      RunPrepend(m, cfg, init, ds);
      PushPrepend(Run(m, cfg, init), cfg, f, ds, Trim(f.value));
    }
  }

  lemma {:induction false} MismatchedEndsAdd(a: seq<Diagnostic>, b: seq<Diagnostic>)
    ensures MismatchedEnds(a + b) == MismatchedEnds(a) + MismatchedEnds(b)
  {
    if b == [] {
      assert a + b == a;
    } else {
      var b' := b[..|b| - 1];
      MismatchedEndsAdd(a, b');
      assert (a + b)[..|a + b| - 1] == a + b';
    }
  }

  /** A report the scanner makes, not the sequence machine. */
  predicate IsScannerReport(d: Diagnostic) {
    d.MalformedFieldTag? || (d.LimitExceeded? && d.kind == Fields)
  }

  /** The reports of the sequence machine, in order. */
  function SequenceReports(ds: seq<Diagnostic>): seq<Diagnostic> {
    if ds == [] then []
    else
      var last := ds[|ds| - 1];
      SequenceReports(ds[..|ds| - 1]) + (if IsScannerReport(last) then [] else [last])
  }

  lemma {:induction false} SequenceReportsAdd(a: seq<Diagnostic>, b: seq<Diagnostic>)
    ensures SequenceReports(a + b) == SequenceReports(a) + SequenceReports(b)
  {
    hide IsScannerReport;
    if b == [] {
      assert a + b == a;
    } else {
      var b' := b[..|b| - 1];
      SequenceReportsAdd(a, b');
      assert (a + b)[..|a + b| - 1] == a + b';
    }
  }

  lemma {:induction false} MismatchesAreKept(ds: seq<Diagnostic>)
    ensures MismatchedEnds(SequenceReports(ds)) == MismatchedEnds(ds)
  {
    if ds != [] {
      var rest, last := ds[..|ds| - 1], ds[|ds| - 1];
      MismatchesAreKept(rest);
      MismatchedEndsAdd(SequenceReports(rest), if IsScannerReport(last) then [] else [last]);
      assert [last][..0] == [];
    }
  }

  lemma PushReports(m: Machine, cfg: Config, f: RawField, name: Bytes)
    requires AnchorInRange(m, cfg) && name == Trim(f.value)
    ensures var ds := Push(m, cfg, f).diagnostics;
      ds == m.diagnostics || (ds == m.diagnostics + [ds[|ds| - 1]] && !IsScannerReport(ds[|ds| - 1]))
  {
    hide Trim;
  }

  /** The machine makes no scanner reports. */
  lemma {:induction false} MachineReports(cfg: Config, input: seq<RawField>)
    ensures var ds := Run(Start, cfg, input).diagnostics; SequenceReports(ds) == ds
  {
    hide Push;
    if input != [] {
      var init, f := input[..|input| - 1], input[|input| - 1];
      var m := Run(Start, cfg, init);
      MachineReports(cfg, init);
      PushReports(m, cfg, f, Trim(f.value));
    }
  }

  function Silent(m: Machine): Machine {
    m.(diagnostics := [])
  }

  /**
   * `r` is the machine `q` of a run from no reports, with the reports `ds` of the
   * past and those of the scanner itself mixed in; `clean` says there are none of
   * the latter, and then nothing else is reported.
   */
  ghost predicate Agrees(r: Machine, ds: seq<Diagnostic>, q: Machine, clean: bool) {
    && Silent(r) == Silent(q)
    && SequenceReports(r.diagnostics) == SequenceReports(ds) + SequenceReports(q.diagnostics)
    && (clean ==> r.diagnostics == ds + q.diagnostics)
    && (r.diagnostics == [] <==> ds == [] && clean && q.diagnostics == [])
  }

  lemma AgreesAfterReport(r: Machine, ds: seq<Diagnostic>, d: Diagnostic, q: Machine, clean: bool)
    requires IsScannerReport(d) && Agrees(r, ds + [d], q, clean)
    ensures Agrees(r, ds, q, false)
  {
    SequenceReportsAdd(ds, [d]);
    assert [d][..0] == [];
  }

  /** Reports of the machine can be counted with the past or with the run. */
  lemma AgreesAfterPush(r: Machine, ds: seq<Diagnostic>, e: seq<Diagnostic>, q: Machine, clean: bool)
    requires Agrees(r, ds + e, q, clean)
    ensures Agrees(r, ds, q.(diagnostics := e + q.diagnostics), clean)
  {
    hide SequenceReports;
    SequenceReportsAdd(ds, e);
    SequenceReportsAdd(e, q.diagnostics);
    assert ds + (e + q.diagnostics) == ds + e + q.diagnostics;
  }

  function Pend(s: Scan): seq<nat> {
    if s.pending.Some? then [s.pending.value] else []
  }

  /** The fields a scan still has to hand over: the pending one, then the starts to come. */
  function Remaining(s: Scan, later: seq<nat>, maxFields: nat): seq<nat>
    requires s.accepted <= maxFields
  {
    Pend(s) + Take(later, maxFields - s.accepted)
  }

  lemma RemainingSeparated(text: Bytes, s: Scan, start: nat, maxFields: nat)
    requires start <= |text| && PendingOk(text, s, start) && s.accepted <= maxFields
    ensures Separated(text, Remaining(s, FieldStarts(text, start), maxFields))
  {
    var later := FieldStarts(text, start);
    FieldStartsSeparated(text, start);
    var taken := Take(later, maxFields - s.accepted);
    SeparatedPrefix(text, later, |taken|);
    if s.pending.Some? {
      assert ([s.pending.value] + taken)[1..] == taken;
    } else {
      assert [] + taken == taken;
    }
  }

  /** What the rest of the scan has to show, stated once for lines and text ends alike. */
  ghost predicate ScanAgrees(r: Machine, text: Bytes, cfg: Config, s: Scan, later: seq<nat>, tagsOk: bool, maxFields: nat)
    requires AnchorInRange(s.m, cfg) && s.accepted <= maxFields
    requires Separated(text, Remaining(s, later, maxFields))
  {
    Agrees(r, s.m.diagnostics,
           Run(Silent(s.m), cfg, Raws(text, Remaining(s, later, maxFields))),
           tagsOk && |later| <= maxFields - s.accepted)
  }

  /** Handing over `f` after the reports `ds` is handing it over in silence, plus `ds`. */
  lemma PushAgrees(m: Machine, cfg: Config, f: RawField)
    requires AnchorInRange(m, cfg)
    ensures Push(m, cfg, f) == var r := Push(Silent(m), cfg, f); r.(diagnostics := m.diagnostics + r.diagnostics)
  {
    PushPrepend(Silent(m), cfg, f, m.diagnostics, Trim(f.value));
    assert m.diagnostics + [] == m.diagnostics;
  }

  /** At the end of the text only the pending field is left. */
  lemma FlushAgrees(text: Bytes, cfg: Config, s: Scan, maxFields: nat)
    requires AnchorInRange(s.m, cfg) && s.accepted <= maxFields
    requires PendingOk(text, s, |text| + 1)
    ensures Separated(text, Remaining(s, [], maxFields))
    ensures ScanAgrees(Flush(text, cfg, s, |text|), text, cfg, s, [], true, maxFields)
  {
    if s.pending.Some? {
      var p := s.pending.value;
      assert Remaining(s, [], maxFields) == [p];
      var f := RawAt(text, p, |text|);
      assert Raws(text, [p]) == [f];
      RunCons(Silent(s.m), cfg, [f]);
      PushAgrees(s.m, cfg, f);
      SequenceReportsAdd(s.m.diagnostics, Push(Silent(s.m), cfg, f).diagnostics);
    } else {
      assert Remaining(s, [], maxFields) == [];
    }
  }

  /** A report of the scanner's own. */
  lemma ReportAgrees(r: Machine, text: Bytes, cfg: Config, s: Scan, d: Diagnostic, later: seq<nat>, tagsOk: bool, maxFields: nat)
    requires AnchorInRange(s.m, cfg) && s.accepted <= maxFields
    requires Separated(text, Remaining(s, later, maxFields))
    requires IsScannerReport(d)
    requires ScanAgrees(r, text, cfg, Report(s, d), later, tagsOk, maxFields)
    ensures ScanAgrees(r, text, cfg, s, later, false, maxFields)
  {
    hide Run, Raws, Agrees, Remaining, Separated, IsScannerReport;
    assert Silent(Report(s, d).m) == Silent(s.m) && Remaining(Report(s, d), later, maxFields) == Remaining(s, later, maxFields) by {
      SameRemaining(s, Report(s, d), later, maxFields);
    }
    AgreesAfterReport(r, s.m.diagnostics, d, Run(Silent(s.m), cfg, Raws(text, Remaining(s, later, maxFields))),
                      tagsOk && |later| <= maxFields - s.accepted);
  }

  lemma SameRemaining(s: Scan, s': Scan, later: seq<nat>, maxFields: nat)
    requires s.accepted == s'.accepted <= maxFields && s.pending == s'.pending
    ensures Remaining(s, later, maxFields) == Remaining(s', later, maxFields)
  {}

  /** Handing over one field, then running over the rest in silence. */
  lemma HandOver(m: Machine, cfg: Config, f: RawField, rest: seq<RawField>, r: Machine, clean: bool)
    requires AnchorInRange(m, cfg)
    requires var next := Push(m, cfg, f); Agrees(r, next.diagnostics, Run(Silent(next), cfg, rest), clean)
    ensures Agrees(r, m.diagnostics, Run(Silent(m), cfg, [f] + rest), clean)
  {
    hide Push, Agrees;
    var fs := [f] + rest;
    assert fs[1..] == rest;
    RunCons(Silent(m), cfg, fs);
    var pushed := Push(Silent(m), cfg, f);
    PushAgrees(m, cfg, f);
    RunPrepend(Silent(pushed), cfg, rest, pushed.diagnostics);
    assert pushed.diagnostics + [] == pushed.diagnostics;
    AgreesAfterPush(r, m.diagnostics, pushed.diagnostics, Run(Silent(pushed), cfg, rest), clean);
  }

  /** Accepting the field start `rest[0]` hands over the pending field. */
  lemma FlushThenRun(r: Machine, text: Bytes, cfg: Config, s: Scan, rest: seq<nat>, clean: bool)
    requires AnchorInRange(s.m, cfg) && rest != []
    requires Separated(text, rest) && Separated(text, Pend(s) + rest) && rest[0] <= |text|
    requires PendingOk(text, s, rest[0])
    requires var m := Flush(text, cfg, s, PreviousLineEnd(text, rest[0]));
      Agrees(r, m.diagnostics, Run(Silent(m), cfg, Raws(text, rest)), clean)
    ensures Agrees(r, s.m.diagnostics, Run(Silent(s.m), cfg, Raws(text, Pend(s) + rest)), clean)
  {
    if s.pending.Some? {
      var p := s.pending.value;
      HandOver(s.m, cfg, RawAt(text, p, PreviousLineEnd(text, rest[0])), Raws(text, rest), r, clean);
    } else {
      assert Pend(s) + rest == rest;
    }
  }

  lemma RemainingAfterAccept(s: Scan, s': Scan, start: nat, later: seq<nat>, maxFields: nat)
    requires s.accepted < maxFields && s'.accepted == s.accepted + 1 && s'.pending == Some(start)
    ensures Remaining(s', later, maxFields) == [start] + Take(later, maxFields - s'.accepted)
    ensures Remaining(s, [start] + later, maxFields) == Pend(s) + Remaining(s', later, maxFields)
  {}

  lemma AcceptAgrees(r: Machine, text: Bytes, cfg: Config, s: Scan, start: nat, later: seq<nat>, tagsOk: bool, maxFields: nat)
    requires AnchorInRange(s.m, cfg) && s.accepted < maxFields
    requires IsFieldStart(text, start) && PendingOk(text, s, start)
    requires Separated(text, Remaining(s, [start] + later, maxFields))
    requires var s' := Scan(Flush(text, cfg, s, PreviousLineEnd(text, start)), Some(start), s.accepted + 1);
      && Separated(text, Remaining(s', later, maxFields))
      && ScanAgrees(r, text, cfg, s', later, tagsOk, maxFields)
    ensures ScanAgrees(r, text, cfg, s, [start] + later, tagsOk, maxFields)
  {
    var s' := Scan(Flush(text, cfg, s, PreviousLineEnd(text, start)), Some(start), s.accepted + 1);
    RemainingAfterAccept(s, s', start, later, maxFields);
    FlushThenRun(r, text, cfg, s, Remaining(s', later, maxFields), tagsOk && |later| <= maxFields - s'.accepted);
  }

  /** Past the limit nothing more is taken from the text. */
  lemma LimitAgrees(text: Bytes, cfg: Config, s: Scan, later: seq<nat>, maxFields: nat, tagsOk: bool)
    requires AnchorInRange(s.m, cfg) && s.accepted == maxFields && later != []
    requires PendingOk(text, s, |text|)
    requires Separated(text, Remaining(s, later, maxFields))
    ensures ScanAgrees(Flush(text, cfg, Report(s, LimitExceeded(Fields, maxFields, s.accepted + 1)), |text|),
                       text, cfg, s, later, tagsOk, maxFields)
  {
    var d := LimitExceeded(Fields, maxFields, s.accepted + 1);
    FlushAgrees(text, cfg, Report(s, d), maxFields);
    assert Remaining(s, [], maxFields) == Remaining(s, later, maxFields);
    ReportAgrees(Flush(text, cfg, Report(s, d), |text|), text, cfg, s, d, [], true, maxFields);
  }

  predicate LaterTagsOk(text: Bytes, start: nat)
    requires start < |text|
  {
    forall p :: p in LaterColonLines(text, start) ==> IsFieldStart(text, p)
  }

  /** The starts and the tag check, split at the first line. */
  lemma SplitFirstLine(text: Bytes, start: nat)
    requires start < |text|
    ensures var later := Starts(text, LaterColonLines(text, start));
      if text[start] != COLON then
        FieldStarts(text, start) == later && TagsOk(text, start) == LaterTagsOk(text, start)
      else if !IsFieldStart(text, start) then
        FieldStarts(text, start) == later && !TagsOk(text, start)
      else
        FieldStarts(text, start) == [start] + later && TagsOk(text, start) == LaterTagsOk(text, start)
  {}

  lemma {:induction false} ScanIsRun(text: Bytes, cfg: Config, maxFields: nat, base: nat, start: nat, s: Scan)
    requires start <= |text| && AnchorInRange(s.m, cfg) && PendingOk(text, s, start) && s.accepted <= maxFields
    ensures Separated(text, Remaining(s, FieldStarts(text, start), maxFields))
    ensures ScanAgrees(ScanFrom(text, cfg, maxFields, base, start, s), text, cfg, s,
                       FieldStarts(text, start), TagsOk(text, start), maxFields)
    decreases |text| - start
  {
    hide Run, Raws, Separated, ScanAgrees, Remaining;
    RemainingSeparated(text, s, start, maxFields);
    if start == |text| {
      FlushAgrees(text, cfg, s, maxFields);
      return;
    }
    SplitFirstLine(text, start);
    var later := Starts(text, LaterColonLines(text, start));
    var r := ScanFrom(text, cfg, maxFields, base, start, s);
    if text[start] != COLON {
      NextLineIsRun(text, cfg, maxFields, base, start, s);
    } else if !IsFieldStart(text, start) {
      var d := MalformedFieldTag(base + start);
      NextLineIsRun(text, cfg, maxFields, base, start, Report(s, d));
      ReportAgrees(r, text, cfg, s, d, later, LaterTagsOk(text, start), maxFields);
    } else if s.accepted >= maxFields {
      LimitAgrees(text, cfg, s, FieldStarts(text, start), maxFields, TagsOk(text, start));
    } else {
      var s' := Scan(Flush(text, cfg, s, PreviousLineEnd(text, start)), Some(start), s.accepted + 1);
      NextLineIsRun(text, cfg, maxFields, base, start, s');
      AcceptAgrees(r, text, cfg, s, start, later, LaterTagsOk(text, start), maxFields);
    }
  }

  lemma {:induction false} NextLineIsRun(text: Bytes, cfg: Config, maxFields: nat, base: nat, start: nat, s: Scan)
    requires start < |text| && AnchorInRange(s.m, cfg) && s.accepted <= maxFields
    requires s.pending.Some? ==> IsFieldStart(text, s.pending.value) && LineEnd(text, s.pending.value) <= LineEnd(text, start)
    ensures Separated(text, Remaining(s, Starts(text, LaterColonLines(text, start)), maxFields))
    ensures ScanAgrees(NextLine(text, cfg, maxFields, base, start, s), text, cfg, s,
                       Starts(text, LaterColonLines(text, start)), LaterTagsOk(text, start), maxFields)
    decreases |text| - start, 0
  {
    hide Run, Raws, Separated, ScanAgrees, Remaining;
    var e := LineEnd(text, start);
    if e == |text| {
      FlushAgrees(text, cfg, s, maxFields);
    } else {
      ScanIsRun(text, cfg, maxFields, base, e + 1, s);
    }
  }

  // ---- The whole text block ----

  function ConfigOf(limits: Limits, anchored: seq<AnchoredSequence>): Config {
    Config(anchored, limits.sequenceDepth)
  }

  /** The fields and the complete report of a text block, after the reports `ds`. */
  function ParseText(text: Bytes, ds: seq<Diagnostic>, limits: Limits, base: nat, anchored: seq<AnchoredSequence>):
      (r: (seq<Field>, seq<Diagnostic>))
  {
    var s := Scan(Start.(diagnostics := ds), None, 0);
    var m := ScanFrom(text, ConfigOf(limits, anchored), limits.fields, base, 0, s);
    (m.fields, m.diagnostics + Unclosed(m.stack))
  }

  /** Number of field starts, cut off at the limit. */
  function CountStarts(text: Bytes, maxFields: nat): nat {
    var n := |FieldStarts(text, 0)|;
    if n <= maxFields then n else maxFields
  }

  lemma {:induction false} UnclosedIsNoMismatch(stack: Path)
    ensures MismatchedEnds(Unclosed(stack)) == 0
    decreases |stack|
  {
    if stack != [] {
      var rest := Unclosed(stack[..|stack| - 1]);
      UnclosedIsNoMismatch(stack[..|stack| - 1]);
      var d := UnclosedSequence(stack[|stack| - 1].name);
      MismatchedEndsAdd([d], rest);
      assert [d][..0] == [];
    }
  }

  /**
   * The scan of a whole text is the machine's run over the fields in it: the same
   * fields, the machine's reports in order among the scanner's own, and nothing
   * but the machine's reports when tags and field count are in order.
   */
  lemma TextScanIsRun(text: Bytes, ds: seq<Diagnostic>, limits: Limits, base: nat, anchored: seq<AnchoredSequence>) returns (r: Machine)
    ensures ParseText(text, ds, limits, base, anchored) == (r.fields, r.diagnostics + Unclosed(r.stack))
    ensures Agrees(r, ds, Run(Start, ConfigOf(limits, anchored), FieldsIn(text, limits.fields)),
                   TagsOk(text, 0) && |FieldStarts(text, 0)| <= limits.fields)
  {
    var cfg := ConfigOf(limits, anchored);
    var s := Scan(Start.(diagnostics := ds), None, 0);
    ScanIsRun(text, cfg, limits.fields, base, 0, s);
    r := ScanFrom(text, cfg, limits.fields, base, 0, s);
    assert Remaining(s, FieldStarts(text, 0), limits.fields) == Take(FieldStarts(text, 0), limits.fields);
    assert Silent(s.m) == Start;
  }

  /** The emitted fields, with their paths, are those of the machine run on the fields of the text. */
  lemma FieldsAreMachineFields(text: Bytes, ds: seq<Diagnostic>, limits: Limits, base: nat, anchored: seq<AnchoredSequence>)
    ensures ParseText(text, ds, limits, base, anchored).0
         == Run(Start, ConfigOf(limits, anchored), FieldsIn(text, limits.fields)).fields
  {
    var r := TextScanIsRun(text, ds, limits, base, anchored);
  }

  lemma {:induction false} RunQualifiers(cfg: Config, input: seq<RawField>, q: Bytes)
    ensures forall f :: f in Run(Start, cfg, input).fields ==> (f.qualifier == Some(q) <==> IsQualifier(q, f.value))
  {
    hide IsQualifier, ExtractQualifier, Trim;
    if input != [] {
      var init, f := input[..|input| - 1], input[|input| - 1];
      RunQualifiers(cfg, init, q);
      QualifierIff(f.value, q);
    }
  }

  /** Every field of a parsed text has exactly the qualifier that its value spells. */
  lemma QualifiersAreSpelled(text: Bytes, ds: seq<Diagnostic>, limits: Limits, base: nat, anchored: seq<AnchoredSequence>)
    ensures forall f, q :: f in ParseText(text, ds, limits, base, anchored).0 ==> (f.qualifier == Some(q) <==> IsQualifier(q, f.value))
  {
    hide IsQualifier;
    FieldsAreMachineFields(text, ds, limits, base, anchored);
    forall q
      ensures forall f :: f in ParseText(text, ds, limits, base, anchored).0 ==> (f.qualifier == Some(q) <==> IsQualifier(q, f.value))
    {
      RunQualifiers(ConfigOf(limits, anchored), FieldsIn(text, limits.fields), q);
    }
  }

  lemma SameMismatches(r: Machine, q: Machine, clean: bool)
    requires Agrees(r, [], q, clean)
    ensures |r.fields| == |q.fields| && MismatchedEnds(r.diagnostics) == MismatchedEnds(q.diagnostics)
  {
    MismatchesAreKept(r.diagnostics);
    MismatchesAreKept(q.diagnostics);
    assert [] + SequenceReports(q.diagnostics) == SequenceReports(q.diagnostics);
  }

  /** On any text: fields emitted plus mismatched ends reported is the number of field starts. */
  lemma EveryStartIsAccountedFor(text: Bytes, limits: Limits, base: nat, anchored: seq<AnchoredSequence>)
    ensures var r := ParseText(text, [], limits, base, anchored);
      |r.0| + MismatchedEnds(r.1) == CountStarts(text, limits.fields)
  {
    hide ParseText, Agrees, Run, MismatchedEnds;
    var r := TextScanIsRun(text, [], limits, base, anchored);
    NothingIsLost(ConfigOf(limits, anchored), FieldsIn(text, limits.fields));
    UnclosedIsNoMismatch(r.stack);
    MismatchedEndsAdd(r.diagnostics, Unclosed(r.stack));
    var q := Run(Start, ConfigOf(limits, anchored), FieldsIn(text, limits.fields));
    SameMismatches(r, q, TagsOk(text, 0) && |FieldStarts(text, 0)| <= limits.fields);
  }

  /**
   * A text block is reported on unless every tag line is well formed, the field
   * limit is kept, and its 16R/16S markers are well nested within the depth limit.
   */
  lemma QuietTextIff(text: Bytes, limits: Limits, base: nat, anchored: seq<AnchoredSequence>)
    ensures ParseText(text, [], limits, base, anchored).1 == [] <==>
      && TagsOk(text, 0)
      && |FieldStarts(text, 0)| <= limits.fields
      && WellNested(Marks(FieldsIn(text, limits.fields)), limits.sequenceDepth)
  {
    var r := TextScanIsRun(text, [], limits, base, anchored);
    QuietIffWellNested(ConfigOf(limits, anchored), FieldsIn(text, limits.fields));
    assert Unclosed(r.stack) == [] <==> r.stack == [];
  }

  /** On any text the sequence reports are those of the machine on the fields in it, in order. */
  lemma SequenceReportsAreDiagnose(text: Bytes, limits: Limits, base: nat, anchored: seq<AnchoredSequence>)
    ensures SequenceReports(ParseText(text, [], limits, base, anchored).1)
         == Diagnose(ConfigOf(limits, anchored), FieldsIn(text, limits.fields))
  {
    hide ParseText, FieldsIn, Run, FieldStarts, TagsOk;
    var r := TextScanIsRun(text, [], limits, base, anchored);
    SequenceReportsAdd(r.diagnostics, Unclosed(r.stack));
    UnclosedIsSequenceReport(r.stack);
    MachineReports(ConfigOf(limits, anchored), FieldsIn(text, limits.fields));
  }

  lemma {:induction false} UnclosedIsSequenceReport(stack: Path)
    ensures SequenceReports(Unclosed(stack)) == Unclosed(stack)
    decreases |stack|
  {
    if stack != [] {
      var rest := Unclosed(stack[..|stack| - 1]);
      UnclosedIsSequenceReport(stack[..|stack| - 1]);
      var d := UnclosedSequence(stack[|stack| - 1].name);
      SequenceReportsAdd([d], rest);
      assert [d][..0] == [];
    }
  }

  /** Where tags and field count are in order, these are all the reports. */
  lemma CleanTextReports(text: Bytes, limits: Limits, base: nat, anchored: seq<AnchoredSequence>)
    requires TagsOk(text, 0) && |FieldStarts(text, 0)| <= limits.fields
    ensures ParseText(text, [], limits, base, anchored).1
         == Diagnose(ConfigOf(limits, anchored), FieldsIn(text, limits.fields))
  {
    var r := TextScanIsRun(text, [], limits, base, anchored);
    assert [] + Run(Start, ConfigOf(limits, anchored), FieldsIn(text, limits.fields)).diagnostics ==
      Run(Start, ConfigOf(limits, anchored), FieldsIn(text, limits.fields)).diagnostics;
  }
}
