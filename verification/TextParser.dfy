/** The text-block loops themselves, over the mutable `FieldParser`. */
module TextParser {
  import opened Bytes
  import opened Sequences
  import opened Nesting
  import opened TextScanner
  import opened ScanTheorems

  /** Counts the field starts, stopping at the limit. */
  method CountFieldStarts(text: Bytes, maxFields: nat) returns (count: nat)
    ensures count == CountStarts(text, maxFields)
  {
    count := 0;
    var lineStart := 0;
    ghost var all := FieldStarts(text, 0);
    while lineStart < |text|
      invariant lineStart <= |text|
      invariant count <= maxFields
      invariant |all| == count + |FieldStarts(text, lineStart)|
      decreases |text| - lineStart
    {
      var lineEnd := LineEnd(text, lineStart);
      SplitFirstLine(text, lineStart);
      if text[lineStart] == COLON && IsFieldStart(text, lineStart) {
        if count >= maxFields {
          return;
        }
        count := count + 1;
      }
      if lineEnd == |text| {
        return;
      }
      lineStart := lineEnd + 1;
    }
  }

  method ReportUnclosed(stack: Path, ds: seq<Diagnostic>) returns (r: seq<Diagnostic>)
    ensures r == ds + Unclosed(stack)
  {
    r := ds;
    var i := |stack|;
    assert stack[..i] == stack;
    while i > 0
      invariant 0 <= i <= |stack|
      invariant r + Unclosed(stack[..i]) == ds + Unclosed(stack)
    {
      i := i - 1;
      var d := UnclosedSequence(stack[i].name);
      assert stack[..i + 1][..i] == stack[..i];
      assert Unclosed(stack[..i + 1]) == [d] + Unclosed(stack[..i]);
      assert r + ([d] + Unclosed(stack[..i])) == (r + [d]) + Unclosed(stack[..i]);
      r := r + [d];
    }
  }

  /** Hands the pending field to the parser. */
  method PushPending(p: FieldParser, text: Bytes, pending: Option<nat>, end: nat)
    requires p.Valid() && end <= |text|
    requires pending.Some? ==> IsFieldStart(text, pending.value) && TagEnd(text, pending.value) < end
    modifies p
    ensures p.Valid()
    ensures p.State() == Flush(text, p.cfg, Scan(old(p.State()), pending, 0), end)
  {
    if pending.Some? {
      p.PushField(RawAt(text, pending.value, end));
    }
  }

  /** One line of the scan; `full` says the field limit stopped it. */
  method ScanLine(p: FieldParser, text: Bytes, maxFields: nat, base: nat, lineStart: nat, pending: Option<nat>, accepted: nat)
    returns (pending': Option<nat>, accepted': nat, full: bool)
    requires p.Valid() && lineStart < |text| && PendingOk(text, Scan(p.State(), pending, accepted), lineStart)
    modifies p
    ensures p.Valid() && PendingOk(text, Scan(p.State(), pending', accepted'), LineEnd(text, lineStart) + 1)
    ensures ScanFrom(text, p.cfg, maxFields, base, lineStart, Scan(old(p.State()), pending, accepted)) ==
      var s := Scan(p.State(), pending', accepted');
      if full then Flush(text, p.cfg, s, |text|) else NextLine(text, p.cfg, maxFields, base, lineStart, s)
  {
    pending', accepted', full := pending, accepted, false;
    if text[lineStart] == COLON {
      if !IsFieldStart(text, lineStart) {
        p.diagnostics := p.diagnostics + [MalformedFieldTag(base + lineStart)];
      } else if accepted >= maxFields {
        p.diagnostics := p.diagnostics + [LimitExceeded(Fields, maxFields, accepted + 1)];
        full := true;
      } else {
        PushPending(p, text, pending, PreviousLineEnd(text, lineStart));
        pending' := Some(lineStart);
        accepted' := accepted + 1;
      }
    }
  }

  method ParseTextFields(text: Bytes, ds: seq<Diagnostic>, limits: Limits, base: nat, anchored: seq<AnchoredSequence>)
    returns (fields: seq<Field>, diagnostics: seq<Diagnostic>)
    ensures (fields, diagnostics) == ParseText(text, ds, limits, base, anchored)
  {
    var cfg := ConfigOf(limits, anchored);
    var p := new FieldParser(cfg, ds);
    var pending: Option<nat> := None;
    var accepted := 0;
    var lineStart := 0;
    ghost var result := ScanFrom(text, cfg, limits.fields, base, 0, Scan(p.State(), None, 0));
    while lineStart < |text|
      invariant p.Valid() && p.cfg == cfg && fresh(p)
      invariant lineStart <= |text| && PendingOk(text, Scan(p.State(), pending, accepted), lineStart)
      invariant ScanFrom(text, cfg, limits.fields, base, lineStart, Scan(p.State(), pending, accepted)) == result
      decreases |text| - lineStart
    {
      var full;
      pending, accepted, full := ScanLine(p, text, limits.fields, base, lineStart, pending, accepted);
      var lineEnd := LineEnd(text, lineStart);
      if full || lineEnd == |text| {
        break;
      }
      lineStart := lineEnd + 1;
    }
    PushPending(p, text, pending, |text|);
    fields := p.fields;
    diagnostics := ReportUnclosed(p.stack, p.diagnostics);
  }
}
