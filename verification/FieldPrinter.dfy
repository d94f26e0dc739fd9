/** Printing fields as `:tag:value` lines, and reading them back. */
module FieldPrinter {
  import opened Bytes
  import opened Sequences
  import opened Nesting
  import opened TextScanner
  import opened ScanTheorems
  import Trimming

  /** A tag that can be scanned; a trimmed value none of whose later lines starts with a colon. */
  predicate Printable(f: RawField) {
    && ScannableTag(f.tag)
    && Trimmed(f.value)
    && (forall k :: 0 <= k < |f.value| - 1 && f.value[k] == LF ==> f.value[k + 1] != COLON)
  }

  /** A line ending: white space up to a line feed, such as LF or CR LF. */
  predicate IsLineEnding(eol: Bytes) {
    eol != [] && eol[|eol| - 1] == LF && forall k :: 0 <= k < |eol| ==> IsWhitespace(eol[k])
  }

  function PrintField(f: RawField, eol: Bytes): Bytes {
    [COLON] + f.tag + [COLON] + f.value + eol
  }

  function PrintFields(fs: seq<RawField>, eol: Bytes): Bytes {
    if fs == [] then [] else PrintField(fs[0], eol) + PrintFields(fs[1..], eol)
  }

  /** Lines inside a body without a colon at a line start contribute nothing. */
  lemma {:induction false} SkipBody(text: Bytes, q: nat, end: nat)
    requires q < end <= |text| && text[q] != COLON && text[end - 1] == LF
    requires forall k :: q <= k < end - 1 && text[k] == LF ==> text[k + 1] != COLON
    ensures ColonLines(text, q) == ColonLines(text, end)
    decreases end - q
  {
    var e := LineEnd(text, q);
    assert e < end;
    if e + 1 < end {
      SkipBody(text, e + 1, end);
    }
  }

  /** The printed `f` stands in `text` at `at`. */
  ghost predicate StandsAt(text: Bytes, at: nat, f: RawField, eol: Bytes) {
    var c := at + 1 + |f.tag|;
    var end := EndOf(at, f, eol);
    && end <= |text|
    && text[at] == COLON && text[c] == COLON
    && (forall k :: at < k < c ==> text[k] == f.tag[k - at - 1])
    && (forall k :: c < k < end ==> text[k] == (f.value + eol)[k - c - 1])
  }

  function EndOf(at: nat, f: RawField, eol: Bytes): nat {
    at + 2 + |f.tag| + |f.value| + |eol|
  }

  lemma PrintedAt(text: Bytes, at: nat, f: RawField, eol: Bytes, tail: Bytes)
    requires at <= |text| && text[at..] == PrintField(f, eol) + tail
    ensures StandsAt(text, at, f, eol) && text[EndOf(at, f, eol)..] == tail
  {}

  /** A printed field is a field start whose first line ends inside it. */
  lemma PrintedStart(text: Bytes, at: nat, f: RawField, eol: Bytes)
    requires StandsAt(text, at, f, eol) && Printable(f) && IsLineEnding(eol)
    ensures var end := EndOf(at, f, eol);
      && text[end - 1] == LF
      && IsFieldStart(text, at) && LineEnd(text, at) < end
      && TagEnd(text, at) == at + 1 + |f.tag|
  {}

  /** A line with a colon, followed by lines without one up to `end`. */
  lemma SkipFrom(text: Bytes, at: nat, end: nat)
    requires at < end <= |text| && text[at] == COLON && text[end - 1] == LF
    requires forall k :: LineEnd(text, at) <= k < end - 1 && text[k] == LF ==> text[k + 1] != COLON
    ensures ColonLines(text, at) == [at] + ColonLines(text, end)
  {
    var e := LineEnd(text, at);
    assert e < end;
    if e + 1 < end {
      SkipBody(text, e + 1, end);
    }
  }

  /** The colon lines after a printed field are those after its end. */
  lemma PrintedLine(text: Bytes, at: nat, f: RawField, eol: Bytes)
    requires StandsAt(text, at, f, eol) && Printable(f) && IsLineEnding(eol)
    requires var end := EndOf(at, f, eol);
      text[end - 1] == LF && at + 1 + |f.tag| < LineEnd(text, at) < end
    ensures ColonLines(text, at) == [at] + ColonLines(text, EndOf(at, f, eol))
  {
    SkipFrom(text, at, EndOf(at, f, eol));
  }

  lemma CutBody(text: Bytes, c: nat, value: Bytes, eol: Bytes, end: nat, stop: nat)
    requires eol != [] && end == c + 1 + |value| + |eol| <= |text| && (stop == end - 1 || stop == end)
    requires forall k :: c < k < end ==> text[k] == (value + eol)[k - c - 1]
    ensures text[c + 1..stop] == value + eol[..|eol| - (end - stop)]
  {}

  /** A trimmed value followed by blanks is the field value. */
  lemma PaddedValue(value: Bytes, after: Bytes)
    requires Trimmed(value) && forall k :: 0 <= k < |after| ==> IsWhitespace(after[k])
    ensures FieldValue(value + after) == value
  {
    Trimming.TrimOfPadded([], value, after, IsWhitespace);
    assert [] + value + after == value + after;
    FieldValueIsTrim(value + after);
  }

  lemma CutTag(text: Bytes, at: nat, c: nat, tag: Bytes)
    requires c == at + 1 + |tag| <= |text|
    requires forall k :: at < k < c ==> text[k] == tag[k - at - 1]
    ensures text[at + 1..c] == tag
  {}

  lemma CutValue(text: Bytes, at: nat, f: RawField, eol: Bytes, stop: nat)
    requires StandsAt(text, at, f, eol) && Printable(f) && IsLineEnding(eol)
    requires stop == EndOf(at, f, eol) - 1 || stop == EndOf(at, f, eol)
    ensures FieldValue(text[at + 2 + |f.tag|..stop]) == f.value
  {
    var end := EndOf(at, f, eol);
    CutBody(text, at + 1 + |f.tag|, f.value, eol, end, stop);
    PaddedValue(f.value, eol[..|eol| - (end - stop)]);
  }

  lemma RawAtParts(text: Bytes, at: nat, stop: nat, f: RawField)
    requires IsFieldStart(text, at) && TagEnd(text, at) == at + 1 + |f.tag| < stop <= |text|
    requires text[at + 1..at + 1 + |f.tag|] == f.tag && FieldValue(text[at + 2 + |f.tag|..stop]) == f.value
    ensures RawAt(text, at, stop) == f
  {}

  /** The field cut out of a printed line is the one printed. */
  lemma PrintedRaw(text: Bytes, at: nat, f: RawField, eol: Bytes, stop: nat)
    requires StandsAt(text, at, f, eol) && Printable(f) && IsLineEnding(eol)
    requires stop == EndOf(at, f, eol) - 1 || stop == EndOf(at, f, eol)
    ensures IsFieldStart(text, at) && TagEnd(text, at) < stop <= |text|
    ensures RawAt(text, at, stop) == f
  {
    PrintedStart(text, at, f, eol);
    CutTag(text, at, at + 1 + |f.tag|, f.tag);
    CutValue(text, at, f, eol, stop);
    RawAtParts(text, at, stop, f);
  }

  function Positions(fs: seq<RawField>, eol: Bytes, at: nat): seq<nat> {
    if fs == [] then [] else [at] + Positions(fs[1..], eol, EndOf(at, fs[0], eol))
  }

  ghost predicate AllPrintable(fs: seq<RawField>) {
    forall k :: 0 <= k < |fs| ==> Printable(fs[k])
  }

  lemma RawsOfPrinted(text: Bytes, at: nat, f: RawField, eol: Bytes, rest: seq<nat>)
    requires StandsAt(text, at, f, eol) && Printable(f) && IsLineEnding(eol)
    requires Separated(text, rest)
    requires if rest == [] then EndOf(at, f, eol) == |text| else rest[0] == EndOf(at, f, eol)
    ensures Separated(text, [at] + rest) && Raws(text, [at] + rest) == [f] + Raws(text, rest)
  {
    var end := EndOf(at, f, eol);
    PrintedStart(text, at, f, eol);
    assert ([at] + rest)[1..] == rest;
    PrintedRaw(text, at, f, eol, if rest == [] then |text| else PreviousLineEnd(text, end));
  }

  lemma {:induction false} PrintedFields(text: Bytes, at: nat, fs: seq<RawField>, eol: Bytes)
    requires at <= |text| && text[at..] == PrintFields(fs, eol)
    requires AllPrintable(fs) && IsLineEnding(eol)
    ensures ColonLines(text, at) == Positions(fs, eol, at)
    ensures Starts(text, Positions(fs, eol, at)) == Positions(fs, eol, at)
    ensures forall p :: p in Positions(fs, eol, at) ==> IsFieldStart(text, p)
    ensures Separated(text, Positions(fs, eol, at)) && Raws(text, Positions(fs, eol, at)) == fs
    decreases |fs|
  {
    if fs == [] {
    } else {
      var f := fs[0];
      var end := EndOf(at, f, eol);
      PrintedAt(text, at, f, eol, PrintFields(fs[1..], eol));
      PrintedStart(text, at, f, eol);
      PrintedLine(text, at, f, eol);
      PrintedFields(text, end, fs[1..], eol);
      var rest := Positions(fs[1..], eol, end);
      assert ([at] + rest)[1..] == rest;
      if |fs| == 1 { assert |text[end..]| == 0; }
      RawsOfPrinted(text, at, f, eol, rest);
      assert fs == [f] + fs[1..];
    }
  }

  /** A text block: blank lines, then the fields. */
  function PrintText(lead: Bytes, fs: seq<RawField>, eol: Bytes): Bytes {
    lead + PrintFields(fs, eol)
  }

  lemma SkipLead(text: Bytes, lead: Bytes, rest: Bytes)
    requires text == lead + rest && (lead == [] || IsLineEnding(lead))
    ensures ColonLines(text, 0) == ColonLines(text, |lead|)
  {
    if lead != [] {
      assert forall k :: 0 <= k < |lead| ==> text[k] == lead[k];
      SkipBody(text, 0, |lead|);
    }
  }

  /** The scanner finds exactly the printed fields. */
  lemma FieldsReadBack(lead: Bytes, fs: seq<RawField>, eol: Bytes, maxFields: nat)
    requires AllPrintable(fs) && IsLineEnding(eol) && (lead == [] || IsLineEnding(lead)) && |fs| <= maxFields
    ensures var text := PrintText(lead, fs, eol);
      TagsOk(text, 0) && |FieldStarts(text, 0)| == |fs| && FieldsIn(text, maxFields) == fs
  {
    var text := PrintText(lead, fs, eol);
    assert text[|lead|..] == PrintFields(fs, eol);
    SkipLead(text, lead, PrintFields(fs, eol));
    PrintedFields(text, |lead|, fs, eol);
    assert FieldStarts(text, 0) == Positions(fs, eol, |lead|);
    assert Take(FieldStarts(text, 0), maxFields) == FieldStarts(text, 0);
  }

  /** Parsing a printed text gives the machine's fields for them and exactly the machine's reports. */
  lemma TextReadsBack(lead: Bytes, fs: seq<RawField>, eol: Bytes, limits: Limits, base: nat, anchored: seq<AnchoredSequence>)
    requires AllPrintable(fs) && IsLineEnding(eol) && (lead == [] || IsLineEnding(lead)) && |fs| <= limits.fields
    ensures var r := ParseText(PrintText(lead, fs, eol), [], limits, base, anchored);
      var cfg := ConfigOf(limits, anchored);
      r.0 == Run(Start, cfg, fs).fields && r.1 == Diagnose(cfg, fs)
  {
    FieldsReadBack(lead, fs, eol, limits.fields);
    var text := PrintText(lead, fs, eol);
    FieldsAreMachineFields(text, [], limits, base, anchored);
    CleanTextReports(text, limits, base, anchored);
  }
}
