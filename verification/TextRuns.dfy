/** When the fields of a text's sequences form one run each: contiguity for the tags a text can have. */
module TextRuns {
  import opened Bytes
  import opened Sequences
  import opened TextScanner
  import opened ScanTheorems
  import opened FieldPrinter
  import opened Contiguity

  lemma RawAtIsScannable(text: Bytes, start: nat, end: nat)
    requires IsFieldStart(text, start) && TagEnd(text, start) < end <= |text|
    ensures ScannableTag(RawAt(text, start, end).tag)
  {}

  lemma {:induction false} RawsAreScannable(text: Bytes, starts: seq<nat>)
    requires Separated(text, starts)
    ensures AllTagged(Raws(text, starts), ScannableTag)
  {
    hide ScannableTag;
    if starts != [] {
      var end := if |starts| > 1 then PreviousLineEnd(text, starts[1]) else |text|;
      RawAtIsScannable(text, starts[0], end);
      RawsAreScannable(text, starts[1..]);
    }
  }

  lemma FieldsAreScannable(text: Bytes, maxFields: nat)
    ensures AllTagged(FieldsIn(text, maxFields), ScannableTag)
  {
    hide ScannableTag;
    FieldStartsSeparated(text, 0);
    var starts := Take(FieldStarts(text, 0), maxFields);
    SeparatedPrefix(text, FieldStarts(text, 0), |starts|);
    RawsAreScannable(text, starts);
  }

  /** The fields below some path are not adjacent in the parsed text. */
  ghost predicate SplitByText(text: Bytes, limits: Limits, base: nat, anchored: seq<AnchoredSequence>, p: Path) {
    !OneRun(ParseText(text, [], limits, base, anchored).0, p)
  }

  /**
   * For any anchored sequences and any limits that admit four fields: some text splits the
   * fields of some path exactly when a group whose anchor tag can be scanned can go on
   * after a 16R sequence with a tag that can be scanned.
   */
  lemma TextSplitsIff(limits: Limits, base: nat, anchored: seq<AnchoredSequence>)
    ensures (exists text, p :: SplitByText(text, limits, base, anchored, p)) ==> CanSplit(ConfigOf(limits, anchored), ScannableTag)
    ensures limits.fields >= 4 && CanSplit(ConfigOf(limits, anchored), ScannableTag) ==>
      exists text, p :: SplitByText(text, limits, base, anchored, p)
  {
    hide OneRun, CanSplit, ScannableTag;
    var cfg := ConfigOf(limits, anchored);
    forall text, p | !CanSplit(cfg, ScannableTag)
      ensures !SplitByText(text, limits, base, anchored, p)
    {
      FieldsAreMachineFields(text, [], limits, base, anchored);
      FieldsAreScannable(text, limits.fields);
      InstancesAreContiguous(cfg, ScannableTag, FieldsIn(text, limits.fields), p);
    }
    if limits.fields >= 4 && CanSplit(cfg, ScannableTag) {
      MarkersAreScannable();
      var input, p := Splitter(cfg, ScannableTag);
      EmptyFieldsPrintable(input);
      TextReadsBack([], input, [LF], limits, base, anchored);
      assert SplitByText(PrintText([], input, [LF]), limits, base, anchored, p);
    }
  }

  lemma MarkersAreScannable()
    ensures ScannableTag(TAG_16R) && ScannableTag(TAG_16S)
  {}

  lemma EmptyFieldsPrintable(input: seq<RawField>)
    requires AllTagged(input, ScannableTag) && forall k :: 0 <= k < |input| ==> input[k].value == []
    ensures AllPrintable(input)
  {}
}
