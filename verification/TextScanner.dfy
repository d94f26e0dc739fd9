/**
 * The line-driven scanner over the text block: it finds `:tag:` lines, joins
 * continuation lines to the field before them, and feeds the sequence machine.
 */
module TextScanner {
  import opened Bytes
  import opened Sequences

  datatype Limits = Limits(totalBytes: nat, blockBytes: nat, fields: nat, sequenceDepth: nat)

  function LineEnd(text: Bytes, start: nat): (e: nat)
    requires start <= |text|
    ensures start <= e <= |text|
    ensures e < |text| ==> text[e] == LF
    ensures forall k :: start <= k < e ==> text[k] != LF
  {
    IndexOf(text, LF, start)
  }

  /** Position of the colon that ends the tag of a line starting with one. */
  function TagEnd(text: Bytes, start: nat): (e: nat)
    requires start < |text|
    ensures start < e <= |text|
    ensures e < |text| ==> text[e] == COLON
    ensures forall k :: start < k < e ==> text[k] != COLON
  {
    IndexOf(text, COLON, start + 1)
  }

  /** A line `:tag:...` with a tag of two to four alphanumeric characters. */
  predicate IsFieldStart(text: Bytes, start: nat) {
    && start < |text|
    && text[start] == COLON
    && TagEnd(text, start) < LineEnd(text, start)
    && 3 <= TagEnd(text, start) - start <= 5
    && (forall k :: start < k < TagEnd(text, start) ==> IsAlphanumeric(text[k]))
  }

  /** The tags a text can have. */
  predicate ScannableTag(tag: Bytes) {
    2 <= |tag| <= 4 && forall k :: 0 <= k < |tag| ==> IsAlphanumeric(tag[k])
  }

  /** The line starts from `start` on that hold a colon, in order. */
  function ColonLines(text: Bytes, start: nat): seq<nat>
    requires start <= |text|
    decreases |text| - start
  {
    if start == |text| then []
    else if text[start] == COLON then [start] + LaterColonLines(text, start)
    else LaterColonLines(text, start)
  }

  /** The colon lines after the line that starts at `start`. */
  function LaterColonLines(text: Bytes, start: nat): seq<nat>
    requires start < |text|
    decreases |text| - start, 0
  {
    var e := LineEnd(text, start);
    if e == |text| then [] else ColonLines(text, e + 1)
  }

  /** Those of `lines` that start a field. */
  function Starts(text: Bytes, lines: seq<nat>): seq<nat> {
    if lines == [] then []
    else (if IsFieldStart(text, lines[0]) then [lines[0]] else []) + Starts(text, lines[1..])
  }

  function FieldStarts(text: Bytes, start: nat): seq<nat>
    requires start <= |text|
  {
    Starts(text, ColonLines(text, start))
  }

  /** No line from `start` on has a malformed tag. */
  predicate TagsOk(text: Bytes, start: nat)
    requires start <= |text|
  {
    forall p :: p in ColonLines(text, start) ==> IsFieldStart(text, p)
  }

  /** Where the line before `next` ends. */
  function PreviousLineEnd(text: Bytes, next: nat): (e: nat)
    requires next <= |text|
    ensures e <= next <= e + 1
  {
    if next >= 1 && text[next - 1] == LF then next - 1 else next
  }

  /** The field starting at `start`, its value running to `end`. */
  function RawAt(text: Bytes, start: nat, end: nat): RawField
    requires IsFieldStart(text, start) && TagEnd(text, start) < end <= |text|
  {
    RawField(text[start + 1..TagEnd(text, start)], FieldValue(text[TagEnd(text, start) + 1..end]))
  }

  /** Trims, then drops a carriage return - which trimming has left none of. */
  function FieldValue(v: Bytes): Bytes {
    var t := Trim(v);
    if t != [] && t[|t| - 1] == CR then t[..|t| - 1] else t
  }

  lemma FieldValueIsTrim(v: Bytes)
    ensures FieldValue(v) == Trim(v)
  {
    var i, j := Trimming.TrimCuts(v, IsWhitespace);
  }

  /** Field starts in increasing order, each line ending before the next start. */
  predicate Separated(text: Bytes, starts: seq<nat>) {
    starts == [] ||
    (IsFieldStart(text, starts[0])
     && (|starts| > 1 ==> LineEnd(text, starts[0]) < starts[1] <= |text|)
     && Separated(text, starts[1..]))
  }

  /** The fields that begin at `starts`: each runs to the line before the next, the last to the end. */
  function Raws(text: Bytes, starts: seq<nat>): (r: seq<RawField>)
    requires Separated(text, starts)
    ensures |r| == |starts|
  {
    if starts == [] then []
    else
      var end := if |starts| > 1 then PreviousLineEnd(text, starts[1]) else |text|;
      [RawAt(text, starts[0], end)] + Raws(text, starts[1..])
  }

  /** Colons at or after `from`, each past the end of the line before it. */
  predicate Ordered(text: Bytes, lines: seq<nat>, from: nat) {
    lines == [] ||
    (from <= lines[0] < |text| && text[lines[0]] == COLON
     && Ordered(text, lines[1..], LineEnd(text, lines[0]) + 1))
  }

  lemma {:induction false} ColonLinesOrdered(text: Bytes, start: nat)
    requires start <= |text|
    ensures Ordered(text, ColonLines(text, start), start)
    decreases |text| - start
  {
    if start < |text| {
      var rest := LaterColonLines(text, start);
      var e := LineEnd(text, start);
      if e < |text| {
        ColonLinesOrdered(text, e + 1);
      }
    }
  }

  lemma {:induction false} StartsSeparated(text: Bytes, lines: seq<nat>, from: nat)
    requires Ordered(text, lines, from)
    ensures var starts := Starts(text, lines);
      Separated(text, starts) && (starts != [] ==> from <= starts[0] < |text|)
  {
    if lines != [] {
      var e := LineEnd(text, lines[0]);
      var rest := Starts(text, lines[1..]);
      StartsSeparated(text, lines[1..], e + 1);
      if IsFieldStart(text, lines[0]) {
        assert ([lines[0]] + rest)[1..] == rest;
      } else {
        assert [] + rest == rest;
      }
    }
  }

  lemma FieldStartsSeparated(text: Bytes, start: nat)
    requires start <= |text|
    ensures Separated(text, FieldStarts(text, start))
    ensures FieldStarts(text, start) != [] ==> FieldStarts(text, start)[0] >= start
  {
    ColonLinesOrdered(text, start);
    StartsSeparated(text, ColonLines(text, start), start);
  }

  lemma {:induction false} SeparatedPrefix(text: Bytes, starts: seq<nat>, n: nat)
    requires Separated(text, starts) && n <= |starts|
    ensures Separated(text, starts[..n])
  {
    if n > 0 {
      SeparatedPrefix(text, starts[1..], n - 1);
      assert starts[..n][1..] == starts[1..][..n - 1];
    }
  }

  function Take(starts: seq<nat>, n: nat): seq<nat> {
    if |starts| <= n then starts else starts[..n]
  }

  /** The fields of a text under a limit on their number. */
  function FieldsIn(text: Bytes, maxFields: nat): seq<RawField> {
    FieldStartsSeparated(text, 0);
    var starts := FieldStarts(text, 0);
    SeparatedPrefix(text, starts, |Take(starts, maxFields)|);
    Raws(text, Take(starts, maxFields))
  }

  // ---- The scan ----

  /** A scan in progress: the machine, the field not yet handed over, and the number accepted. */
  datatype Scan = Scan(m: Machine, pending: Option<nat>, accepted: nat)

  /** The pending field's first line lies before `start`. */
  ghost predicate PendingOk(text: Bytes, s: Scan, start: nat) {
    s.pending.Some? ==> IsFieldStart(text, s.pending.value) && LineEnd(text, s.pending.value) < start
  }

  function Flush(text: Bytes, cfg: Config, s: Scan, end: nat): (m: Machine)
    requires AnchorInRange(s.m, cfg) && end <= |text|
    requires s.pending.Some? ==> IsFieldStart(text, s.pending.value) && TagEnd(text, s.pending.value) < end
    ensures AnchorInRange(m, cfg)
  {
    if s.pending.Some? then Push(s.m, cfg, RawAt(text, s.pending.value, end)) else s.m
  }

  function Report(s: Scan, d: Diagnostic): Scan {
    s.(m := s.m.(diagnostics := s.m.diagnostics + [d]))
  }

  /** Scans the lines from `start` on and hands over the last field. */
  function ScanFrom(text: Bytes, cfg: Config, maxFields: nat, base: nat, start: nat, s: Scan): (m: Machine)
    requires start <= |text| && AnchorInRange(s.m, cfg)
    requires PendingOk(text, s, start)
    ensures AnchorInRange(m, cfg)
    decreases |text| - start
  {
    if start == |text| then Flush(text, cfg, s, |text|)
    else if text[start] != COLON then NextLine(text, cfg, maxFields, base, start, s)
    else if !IsFieldStart(text, start) then
      NextLine(text, cfg, maxFields, base, start, Report(s, MalformedFieldTag(base + start)))
    else if s.accepted >= maxFields then
      Flush(text, cfg, Report(s, LimitExceeded(Fields, maxFields, s.accepted + 1)), |text|)
    else
      NextLine(text, cfg, maxFields, base, start, Scan(Flush(text, cfg, s, PreviousLineEnd(text, start)), Some(start), s.accepted + 1))
  }

  function NextLine(text: Bytes, cfg: Config, maxFields: nat, base: nat, start: nat, s: Scan): (m: Machine)
    requires start < |text| && AnchorInRange(s.m, cfg)
    requires s.pending.Some? ==> IsFieldStart(text, s.pending.value) && LineEnd(text, s.pending.value) <= LineEnd(text, start)
    ensures AnchorInRange(m, cfg)
    decreases |text| - start, 0
  {
    var e := LineEnd(text, start);
    if e == |text| then Flush(text, cfg, s, |text|) else ScanFrom(text, cfg, maxFields, base, e + 1, s)
  }
}
