# SwiftPipe, modelled and verified

SwiftPipe reads SWIFT FIN messages, parses their structure, writes rows, turns
rows into securities events and cash statements, and reconciles. This project
models that pipeline in Dafny and proves what it promises. The parts, in the
order data flows through them:

- **FIN parsing** (`MessageSplitter`, `Envelope`, `TextScanner`, `TextParser`,
  `Sequences`, `Message`): the cut of a file into messages, the brace scan of the
  envelope, the line scan of the text block, and the state machine behind
  `push_field` with its sequence stack, occurrence counters and anchored groups.
  `Sequences.FieldParser` is the mutable parser; `Sequences.Push` and `Run` are
  its specification. `ScanTheorems`, `Naming`, `Contiguity`, `Nesting`,
  `Grouping` and `TextRuns` hold what is true of every run; `FieldPrinter`, `Trees` and
  `EnvelopePrinter` print messages and read them back.
- **MT 940** (`StatementLine`, `Mt940`): field 61 with its optional parts, and the
  grouping of lines and narratives, simulated by an anchored sequence.
- **Rows and events** (`PathCodec`, `RowMerge`, `Batch`, `Branch`, `Selection`,
  `Normalizer`, `JobEvents`): paths as text, the merge of captures into rows, the branch
  relation and the scoped lookups that keep transactions apart.
- **Jobs** (`JobStore`, `JobEngine`, `Server`, `Preparation`, `Manifest`): the
  indexed store and the metrics as classes, the queue, workers and reaper as a
  system of atomic steps interleaved in any order, the handlers as methods that
  take those steps, the strided parallel phase, and the manifest's counts.
- **Read model and reconciliation** (`ReadModel`, `Penalty`, `BusinessDays`): the
  join of headers and entries, the penalty reconciliation in whole cents, and the
  business-day loops with the dispute window.

Code that changes state is imperative here too: a class or a method with loops,
proved equal to a specification function, about which the laws are then proved.

What the project takes as given: UTF-8 decoding (`decode`), conversion of text to
numbers (`toNumber`), the ISIN scanner, schema matching (the list of matches), the
result of processing one input, and the current time are parameters. Bytes are
`Bytes.byte`; field 61, the penalty keys and message types are ASCII text. Stored
tables are row sequences that keep the order of writing. `BTreeMap` iteration is
iteration in the order of `Text.Less`. Money in reconciliation is whole cents;
elsewhere `real`.

## Where code and expectation part

Each of these is proved, with the exact condition under which the expectation
holds.

- `in_branch` is documented to keep instruments apart. Rows at or below one
  instrument can change what is looked up for another, neither being on the
  other's path, exactly when they are siblings under one parent, whatever their
  occurrences, or cousins of one occurrence (`Normalizer.LookupsKeptApartIff`,
  `Branch.InstrumentsKeptApartIff`;
  repo/crates/swift-normalize/src/lib.rs:341-400). Then an event can carry the
  other's quantity (`Normalizer.SiblingQuantityLeaks`, a message through the whole
  of `normalize`).
- An event takes its message-wide fallback reference from any row: other rows
  change it exactly when it has no linked reference and they change the fallback
  (`Normalizer.EventIgnoresForeignRows`, `Normalizer.ForeignReferenceLeaks`).
- Splitting a stored path gives its frames back exactly when no name holds a slash
  (`PathCodec.SegmentsReadBack`). Two paths have one text exactly when merging
  their frames gives the same frame (`PathCodec.TextsCollideIff`), and a root
  sequence looks nested exactly when its name begins like a printed frame and a
  slash (`PathCodec.LooksNestedIff`); where no name does, texts are injective
  (`PathCodec.PathTextInjective`).
- A schema rule may write the column `message_id` or `sequence_path`. Matches land
  in the rows of their own message, entity and path exactly when every such rule
  writes back what was there (`RowMerge.ReservedColumnsIff`). Rows follow the
  sequence instances of a message exactly when no two paths of its fields are
  stored as one text (`RowMerge.RowsFollowInstancesIff`).
- A sequence's fields form one run of the output on every input exactly when no
  anchored group can go on after a 16R sequence: none that can be started has 16R
  as a continuing member, or is started by 16R and continued by something else
  (`Contiguity.SplitsIff`, on the inputs of `push_field`; `TextRuns.TextSplitsIff`,
  on texts, whose tags have two to four alphanumerics).
- A `:61:` line that does not parse leaves `last_was_entry` as it was, so a later
  `:86:` can be attached to the entry before it; the two MT 940 parsers then
  number entries differently (`Mt940.AttachmentIsSimulated`,
  `Mt940.EntriesByAdjacency`).
- A slow worker may finish a job the reaper has failed. The job is then counted
  twice and its final state is overwritten (`JobEngine.ReapedJobsCanFinish`). The
  running gauge is negative exactly when more reaped jobs have finished after all
  than unreaped ones are in processing (`JobEngine.GaugesNonNegativeIff`).
- `businessDaysBetween` does not ignore the time of day: it counts one day more
  when the end is later in its day than the start and a weekday follows
  (`BusinessDays.TimeOfDayIgnoredIff`), so counts over adjoining spans need not add
  up (`BusinessDays.AdditiveIff`). Five business days are a week only from a
  weekday (`BusinessDays.FiveDaysAreAWeekIff`).
- The entry date of field 61 is recognised but never reported
  (`StatementLine.LineReadsBack`).
- When two statements share source and message id the read model gives all their
  entries to the later one (`ReadModel.ReadModelIsDirectIff`).
- Different penalties share a key exactly when a bar in a reference and one in an
  ISIN line up (`Penalty.KeyIdentifies`).

## Model

| member | source | states |
|---|---|---|
| MessageSplitter.SplitMessages | repo/crates/swift-core/src/lib.rs:178-208 | the two loops compute `Split`, the specification the next rows are about |
| MessageSplitter.FillerBytes | repo/crates/swift-core/src/lib.rs:187-197 | filler is exactly these eight bytes: SOH, ETX, tab, line feed, form feed, carriage return, blank and `$` |
| MessageSplitter.SplitIsExact | repo/crates/swift-core/src/lib.rs:170-208 | on any input the result is exactly the file's messages: ordered, disjoint slices that begin at `{1:` after a closed brace, contain `{2:`, end before trailing filler, and none is missed |
| MessageSplitter.SplittingUndoesJoining | repo/crates/swift-core/src/lib.rs:170-208 | messages and acknowledgement envelopes joined with any filler come back as exactly the messages, in order |
| MessageSplitter.SplitConcat | repo/crates/swift-core/src/lib.rs:178-208 | splitting distributes over concatenation when the first part ends closed and the second begins an envelope |
| Envelope.FindBlockClose | repo/crates/swift-core/src/lib.rs:582-617 | for other than text blocks it finds the position where braces first balance, or there is none; depth never underflows |
| Envelope.BraceEndCloses | repo/crates/swift-core/src/lib.rs:582-617 | the depth-counting scan meets its declarative meaning, both ways |
| Envelope.ReadBlock | repo/crates/swift-core/src/lib.rs:338-382 | one turn of the block loop: the block, or the diagnostic and where to resume |
| Envelope.ParseBlocks | repo/crates/swift-core/src/lib.rs:329-383 | the loop over the envelope returns the blocks and diagnostics of the specification, in order |
| EnvelopePrinter.BlocksReadBack | repo/crates/swift-core/src/lib.rs:329-383 | printed blocks with balanced contents (text without `-}`) are read back with ids, contents and positions, and nothing is reported |
| EnvelopePrinter.StandsForIff | repo/crates/swift-core/src/lib.rs:571-580 | which block an id is, both ways: the digits 1 to 5 have names, any other id stays itself |
| Bytes.TrimAscii | repo/crates/swift-core/src/lib.rs:723-741 | the two shrinking loops cut off exactly the outer white space |
| Bytes.AsciiClasses | repo/crates/swift-core/src/lib.rs:719-757 | white space, digits and alphanumerics, character by character |
| Trimming.TrimCuts | repo/crates/swift-core/src/lib.rs:714-741 | trimming is the slice between the outer blanks |
| TextParser.CountFieldStarts | repo/crates/swift-core/src/lib.rs:639-661 | counts the field starts up to the limit |
| TextParser.ScanLine | repo/crates/swift-core/src/lib.rs:404-458 | one line of the scan advances pending start, accepted count and parser exactly as specified |
| TextParser.PushPending | repo/crates/swift-core/src/lib.rs:404-458 | the pending field is cut at the line end before the next start and pushed |
| TextParser.ReportUnclosed | repo/crates/swift-core/src/lib.rs:459-472 | one report for each sequence left open |
| TextParser.ParseTextFields | repo/crates/swift-core/src/lib.rs:392-472 | the whole loop computes `ParseText` |
| ScanTheorems.TextScanIsRun | repo/crates/swift-core/src/lib.rs:392-472 | scanning a text is running the sequence machine over the fields in it: same fields, the machine's reports in order among the scanner's own, and no others when tags and field count are in order |
| ScanTheorems.SequenceReportsAreDiagnose | repo/crates/swift-core/src/lib.rs:392-472 | on any text the sequence reports are exactly those of the machine on its fields, in order |
| ScanTheorems.FieldsAreMachineFields | repo/crates/swift-core/src/lib.rs:392-472 | emitted fields and paths are those of the machine on the fields of the text |
| ScanTheorems.QualifiersAreSpelled | repo/crates/swift-core/src/lib.rs:743-757 | on any text, a field has a qualifier if and only if its value is a colon, those four alphanumerics, two slashes and anything |
| ScanTheorems.EveryStartIsAccountedFor | repo/crates/swift-core/src/lib.rs:392-508 | on any text, fields emitted plus mismatched ends is the number of field starts within the limit |
| ScanTheorems.QuietTextIff | repo/crates/swift-core/src/lib.rs:392-472 | no diagnostic if and only if all tag lines are well formed, the field limit is kept and the markers are well nested within the depth limit |
| FieldPrinter.FieldsReadBack | repo/crates/swift-core/src/lib.rs:404-458 | the scanner finds exactly the printed tags and values, with either line ending |
| FieldPrinter.TextReadsBack | repo/crates/swift-core/src/lib.rs:392-472 | parsing a printed text gives the machine's fields and exactly the machine's reports |
| Trees.TreeReadsBack | repo/crates/swift-core/src/lib.rs:475-569 | a flattened tree of sequences no deeper than the limit returns every field with the path of its place in the tree, in silence |
| Message.Parse | repo/crates/swift-core/src/lib.rs:283-320 | size check, blocks and text block together |
| Message.MessageReadsBack | repo/crates/swift-core/src/lib.rs:283-320 | parsing undoes printing: a block for each piece, named after its id, with its text and content; the fields with their paths; no diagnostics |
| Sequences.FieldParser.PushField | repo/crates/swift-core/src/lib.rs:475-569 | the mutable parser takes the machine's step: whole new state |
| Sequences.FieldParser.NextOccurrence | repo/crates/swift-core/src/lib.rs:759-777 | the counter returns the number of instances opened so far under this parent and name |
| Sequences.FieldParser.OpenSequence | repo/crates/swift-core/src/lib.rs:556-568 | opening, or the depth report |
| Sequences.FieldParser.CloseSequence | repo/crates/swift-core/src/lib.rs:486-508 | closing, or the mismatch report |
| Sequences.FieldParser.AnchorFrame | repo/crates/swift-core/src/lib.rs:510-547 | the anchored frame of a field, and the open group after it |
| Sequences.BumpKeepsMatch | repo/crates/swift-core/src/lib.rs:759-777 | the counter table stays equal to the counts of opened instances |
| Naming.InstancesAreUniquelyNamed | repo/crates/swift-core/src/lib.rs:475-569 | on every run, instance paths are pairwise different, numbered in opening order, without gaps |
| Naming.CountersFit | repo/crates/swift-core/src/lib.rs:759-777 | 32-bit occurrence counters cannot overflow below 2^31 fields |
| Naming.SamePathIffSameInstance | repo/crates/swift-core/src/lib.rs:540-568 | two fields share a path if and only if one sequence instance owns both |
| Contiguity.InstancesAreContiguous | repo/crates/swift-core/src/lib.rs:475-569 | the fields below an instance form one run of the output, unless a group can go on after a 16R sequence |
| Contiguity.MarkerMembersSplitARun | repo/crates/swift-core/src/lib.rs:510-547 | where 16R continues a group, four fields split it |
| Contiguity.MarkerAnchorsSplitARun | repo/crates/swift-core/src/lib.rs:510-568 | where 16R starts a group that another tag continues, three fields split it |
| Contiguity.SplitsIff | repo/crates/swift-core/src/lib.rs:475-569 | for any configuration and any set of tags inputs may have, 16R and 16S among them, some input splits some instance if and only if a group can go on after a 16R sequence and sequences can open at all |
| TextRuns.TextSplitsIff | repo/crates/swift-core/src/lib.rs:392-569 | some text splits the fields below some path only if such a group can be started and go on with tags of two to four alphanumerics; if it can and four fields are admitted, some text does |
| Nesting.QuietIffWellNested | repo/crates/swift-core/src/lib.rs:486-568 | no mismatch, unclosed or depth report if and only if the 16R/16S word is a forest within the limit |
| Nesting.NothingIsLost | repo/crates/swift-core/src/lib.rs:486-554 | every input field is emitted or reported as a mismatched end |
| Grouping.OpenGroupIsSpelled | repo/crates/swift-core/src/lib.rs:510-547 | for any anchored sequences, the open group is the one the recent history spells out |
| Grouping.OpenStartIsInGroup | repo/crates/swift-core/src/lib.rs:510-547 | a group is open exactly when only member tags separate the end from its anchor |
| Grouping.RootFieldsAreGrouped | repo/crates/swift-core/src/lib.rs:510-554 | for any anchored sequences, a field at root carries the path of an anchor's group if and only if at root scope only members separate it from that anchor, and no path if and only if there is no such anchor |
| StatementLine.ParseStatementLine | repo/crates/swift-mt940/src/lib.rs:133-212 | the cursor-driven parser computes `ReadLine` |
| StatementLine.AnyLineReadsBack | repo/crates/swift-mt940/src/lib.rs:133-236 | printing date, optional entry date, mark, optional funds code, amount, type and references, then parsing, recovers all but the entry date, which is skipped, without ambiguity between the optional parts; the amount is what its digits denote with a point for every comma, signed by its mark |
| StatementLine.LineReadsBack | repo/crates/swift-mt940/src/lib.rs:133-236 | for a whole amount that number is what it spells, for one with a comma the whole, a point and the cents |
| StatementLine.NoAmountNoEntry | repo/crates/swift-mt940/src/lib.rs:133-236 | a line with nothing but blanks for an amount gives no entry, whatever the number conversion makes of an empty text |
| StatementLine.ReversalsCancel | repo/crates/swift-mt940/src/lib.rs:165-212 | a printed line and the same line with the reversing mark cancel out on the balance |
| StatementLine.LetterIff | repo/crates/swift-mt940/src/lib.rs:178-182 | which characters are a funds code |
| Text.BlankIff | repo/crates/swift-mt940/src/lib.rs:222-236 | which characters are trimmed from text |
| Mt940.CollectEntries | repo/crates/swift-mt940/src/lib.rs:43-92 | the grouping loop with its `last_was_entry` flag computes `Collect` |
| Mt940.EntryCountsAgreeIff | repo/crates/swift-mt940/src/lib.rs:43-92 | both parsers count the same entries if and only if every 61 line parses |
| Mt940.AttachedShows | repo/crates/swift-mt940/src/lib.rs:43-92 | a narrative is attached if and only if it becomes the info of the last entry, and then of no other |
| Mt940.AttachmentIsSimulated | repo/crates/swift-mt940/src/lib.rs:43-92 | a narrative attached to entry k lies in an ENTRY group, numbered k if and only if every earlier 61 line parses |
| Mt940.EntriesByAdjacency | repo/crates/swift-mt940/src/lib.rs:43-92 | whatever parses, entry k is the k-th 61 line that does, with the first 86 after it that only unparseable 61 lines precede, if there is one |
| Mt940.PathOfField | repo/crates/swift-core/src/lib.rs:510-547 | under the MT 940 configuration each field's path follows from the lines up to it |
| PathCodec.SegmentsReadBack | repo/crates/swift-normalize/src/lib.rs:421-427 | splitting a stored path gives its printed frames if and only if no name holds a slash |
| PathCodec.OccurrenceReadsBack | repo/crates/swift-normalize/src/lib.rs:406-410 | the bracketed text of a printed frame is its decimal occurrence, for any name |
| PathCodec.PathTextInjective | repo/crates/swift-db/src/lib.rs:353-364 | different paths are stored differently, for names that do not begin like a path; a slash alone does no harm |
| PathCodec.PlainIsFlat | repo/crates/swift-db/src/lib.rs:353-364 | a name without a slash never begins like a path |
| PathCodec.TextsCollideIff | repo/crates/swift-db/src/lib.rs:353-364 | two stored texts agree if and only if merging the frames of each path gives the same name and occurrence; the conditions a caller can check on names are in `LooksNestedIff` and `PathTextInjective` |
| PathCodec.LooksNestedIff | repo/crates/swift-db/src/lib.rs:353-364 | a root sequence is stored like some nested path if and only if its name begins with a printed frame and a slash |
| PathCodec.SlashesCollide | repo/crates/swift-db/src/lib.rs:353-364 | any two frames and their merger have one text |
| RowMerge.MergeNormalizedRow | repo/crates/swift-db/src/lib.rs:258-270 | the scan for a row with the same key, then update in place or append |
| RowMerge.MaterializeRows | repo/crates/swift-db/src/lib.rs:244-256 | the fold over the matches |
| RowMerge.RowColumns | repo/crates/swift-db/src/lib.rs:272-296 | the columns of one match and what is in each: message id, path, payload as captured, normalised value |
| RowMerge.RowsAreTheTable | repo/crates/swift-db/src/lib.rs:244-296 | whatever the rules write, row keys stay unique and the rows are a map of maps with later values winning |
| RowMerge.RowsCounted | repo/crates/swift-db/src/lib.rs:258-296 | there are as many rows as different stored keys |
| RowMerge.LastCaptureWins | repo/crates/swift-db/src/lib.rs:258-296 | the last capture of a column is the value in its row |
| RowMerge.SameRowIffSameKey | repo/crates/swift-db/src/lib.rs:258-296 | two matches share a row if and only if their stored keys agree, key columns written by rules included |
| RowMerge.ReservedColumnsIff | repo/crates/swift-db/src/lib.rs:258-296 | every match lands in the row of its own message, entity and path if and only if each rule that writes a key column writes back what was there |
| RowMerge.ReservedColumnSplits | repo/crates/swift-db/src/lib.rs:258-296 | of two matches that belong together, one writing a key column, the row stays whole if and only if it writes the column back |
| RowMerge.SameRowIffSameInstance | repo/crates/swift-db/src/lib.rs:244-296 | over parser, path text and merge: same row if and only if same entity and same sequence instance (or both at root), where stored paths are apart |
| RowMerge.RowsFollowInstancesIff | repo/crates/swift-db/src/lib.rs:244-296 | for any decoding of names, that holds for all matches if and only if no two paths of the message's fields are stored as one text |
| RowMerge.DecodesKeepsApart | repo/crates/swift-db/src/lib.rs:353-368 | names that decoding keeps apart, none beginning like a path, keep stored paths apart |
| Batch.Materialize | repo/crates/swift-db/src/lib.rs:172-256 | one raw row, a field row for each field, an error row for each diagnostic and issue, and the merged rows |
| Batch.MaterializedMentions | repo/crates/swift-db/src/lib.rs:172-296 | every row a message produces carries its id if and only if no rule writes something else over the id column |
| Branch.BranchIsStructural | repo/crates/swift-normalize/src/lib.rs:377-427 | the relation and the depth on stored texts are those on frame lists |
| Branch.BranchLaws | repo/crates/swift-normalize/src/lib.rs:377-427 | on any texts: symmetric, reflexive exactly off the root, never across top-level occurrences |
| Branch.TopOccurrencesAreDisjoint | repo/crates/swift-normalize/src/lib.rs:353-400 | instruments with different top-level occurrences have no row in common |
| Branch.SharedRows | repo/crates/swift-normalize/src/lib.rs:341-400 | instruments that diverge strictly inside both paths share exactly common ancestors and same-occurrence top-level cousins |
| Branch.InstrumentsKeptApartIff | repo/crates/swift-normalize/src/lib.rs:341-400 | of two instruments, neither on the other's path, some row at or below one is in the branch of the other if and only if they are siblings or cousins of one occurrence |
| Branch.SiblingsMix | repo/crates/swift-normalize/src/lib.rs:346-400 | siblings are in each other's branch even with different occurrences |
| Selection.SortIsStable | repo/crates/swift-normalize/src/lib.rs:326-333 | sorting by depth keeps the order of rows of equal depth |
| Selection.NearestHit | repo/crates/swift-normalize/src/lib.rs:282-296 | searching the sorted rows finds the first hit among the deepest that have one |
| Normalizer.ScopedRows | repo/crates/swift-normalize/src/lib.rs:310-339 | branch rows by depth, then root rows |
| Normalizer.FindFirst | repo/crates/swift-normalize/src/lib.rs:282-296 | the loops return the first usable column of the first row in scope order |
| Normalizer.LookupIsNearest | repo/crates/swift-normalize/src/lib.rs:282-339 | a lookup returns a match of greatest shared depth in the branch, and a root match only when the branch has none |
| Normalizer.LookupIgnoresForeignRows | repo/crates/swift-normalize/src/lib.rs:310-339 | rows outside branch and root change no lookup |
| Normalizer.SettlementDateIsNearest | repo/crates/swift-normalize/src/lib.rs:220-249 | the date is what the first of the nearest SETT fields in the branch says after its last `//`; root fields never count |
| Normalizer.DateIsSaid | repo/crates/swift-normalize/src/lib.rs:251-266 | eight digits after the last `//` are year, month and day in that order, with hyphens; anything else is taken as it stands; for every text |
| Normalizer.StoredSettlementDate | repo/crates/swift-db/src/lib.rs:184-193 | from parsed fields to the date: stored fields give what the first of the nearest fields tagged 98 and qualified SETT says in its decoded value, and none if and only if there is no such field |
| Normalizer.KindsByNumber | repo/crates/swift-normalize/src/lib.rs:20-30 | a message is a holding, a settlement or a confirmation if and only if its type is MT and one of the numbers of that kind |
| Normalizer.EventPartsAreBest | repo/crates/swift-normalize/src/lib.rs:121-211 | for any rows and scope, quantity, amount, account, party and status are each read from a row in scope that serves it at the lowest rank that any serves, and missing only when none does; a reference is a linked one in scope, or else a sender's from anywhere |
| Normalizer.CaptureReachesEvent | repo/crates/swift-normalize/src/lib.rs:61-211 | from a stored message to its one event: a capture in the branch of the instrument or at root, in any table, shows as the quantity, amount, party, status or reference its column stands for |
| Normalizer.CurrencyPrefixIff | repo/crates/swift-normalize/src/lib.rs:268-282 | a currency is read if and only if three capitals stand before a digit |
| Normalizer.EventIgnoresForeignRows | repo/crates/swift-normalize/src/lib.rs:121-211 | rows outside branch and root and fields outside the branch change an event if and only if it has no linked reference and they change the fallback |
| Normalizer.ForeignReferenceLeaks | repo/crates/swift-normalize/src/lib.rs:203-211 | a whole message with one instrument: a sender reference captured under another top-level occurrence becomes the reference of its one event, which has none without it |
| Normalizer.LookupsKeptApartIff | repo/crates/swift-normalize/src/lib.rs:310-400 | dropping one instrument's rows changes no lookup of the other if and only if they are neither siblings nor cousins of one occurrence; rows of one message suffice to tell |
| Normalizer.EventsKeptApart | repo/crates/swift-normalize/src/lib.rs:121-197 | then the other's event, its fallback reference aside, is the same with those rows and fields dropped; all of it if and only if it has a linked reference or the fallback stays |
| Normalizer.SiblingQuantityLeaks | repo/crates/swift-normalize/src/lib.rs:121-197 | otherwise a whole message exists whose one event carries the quantity captured beside its instrument, and has none without that capture |
| Normalizer.OtherTransactionsDoNotMatter | repo/crates/swift-normalize/src/lib.rs:61-118 | rows and fields of other top-level occurrences, wherever they stand, change nothing else in an event, and nothing at all in one with a linked reference |
| Normalizer.NormalizeIsHomomorphic | repo/crates/swift-normalize/src/lib.rs:61-118 | batches of different messages normalise to the concatenation of their results |
| JobEvents.EventsByMessage | repo/crates/swift-normalize/src/lib.rs:61-118 | a job's events are those of its messages, each normalised alone, in input order, when no rule writes another id over the message id |
| JobStore.Store.Insert | repo/crates/swift-api/src/job_store.rs:155-167 | a known id is replaced in its place, a new one appended; index and list stay consistent |
| JobStore.Store.Update | repo/crates/swift-api/src/job_store.rs:169-194 | only the known job changes; first start and latest end are remembered |
| JobStore.Store.ListRecent | repo/crates/swift-api/src/job_store.rs:203-214 | the newest entries, newest first, up to the limit |
| JobStore.Store.ListStuck | repo/crates/swift-api/src/job_store.rs:216-229 | each job running too long, once, and no other |
| JobStore.StuckIdsExact | repo/crates/swift-api/src/job_store.rs:216-229 | the listing is exact and free of duplicates |
| JobStore.StuckIff | repo/crates/swift-api/src/job_store.rs:169-229 | after any insertion and updates a job is stuck if and only if the last one left it running and its first start is more than the timeout ago |
| JobStore.Metrics.Submitted | repo/crates/swift-api/src/state.rs:192-196 | the counters and gauges after a submission |
| JobStore.Metrics.Dispatched | repo/crates/swift-api/src/state.rs:263-267 | the gauges after a dispatch |
| JobStore.Metrics.Completed | repo/crates/swift-api/src/state.rs:198-204 | the counters and gauges after a success |
| JobStore.Metrics.Failed | repo/crates/swift-api/src/state.rs:238-250 | the same after a failure, with or without a run |
| JobStore.Metrics.Stuck | repo/crates/swift-api/src/state.rs:252-257 | the same after a reap |
| JobEngine.EveryRunBalances | repo/crates/swift-api/src/queue.rs:118-269 | on every run: the channel is bounded, accepted jobs are received once and in order, none is reaped twice, and the metrics balance |
| JobEngine.GaugesNonNegativeIff | repo/crates/swift-api/src/state.rs:191-268 | the running gauge is the unreaped jobs in processing less the reaped ones that finished after all, negative exactly when the latter are more; so too in flight with the queued jobs on top; no other gauge is ever negative |
| JobEngine.NoLateFinishNoNegativeGauge | repo/crates/swift-api/src/queue.rs:159-269 | on a run where workers finish no job the reaper counts, no gauge is ever negative |
| JobEngine.StoreFollowsPhases | repo/crates/swift-api/src/queue.rs:159-229 | queued in the store exactly before a worker starts; running only while executing and never after a reap |
| JobEngine.ReapedJobsCanFinish | repo/crates/swift-api/src/queue.rs:242-269 | a run in which reaper and worker both end one job: two gauges at -1, a failed job completed |
| JobEngine.WorkersCanProceed | repo/crates/swift-api/src/queue.rs:136-157 | while an accepted job is unfinished some worker can step |
| JobEngine.DrainingFinishesEveryJob | repo/crates/swift-api/src/queue.rs:136-229 | without new requests the workers' steps are bounded, they can stop only when all are taken, and then every accepted job is final |
| Server.Server.Submit | repo/crates/swift-api/src/routes.rs:574-587 | the submit sequence on store, metrics and channel is the engine's steps, also when the channel is full |
| Server.Server.ProcessNext | repo/crates/swift-api/src/queue.rs:136-157 | a worker's turn is the engine's steps from receive to count |
| Server.Server.ProcessTask | repo/crates/swift-api/src/queue.rs:159-229 | the store follows the job to its end and the metrics count it |
| Server.Server.Reap | repo/crates/swift-api/src/queue.rs:242-269 | exactly the stuck jobs are failed and counted, by the engine's steps |
| Server.ProcessTakes | repo/crates/swift-api/src/queue.rs:136-229 | a whole turn is enabled step by step, and what it leaves |
| Preparation.RunWorker | repo/crates/swift-api/src/job.rs:936-974 | a worker's strided loop covers the inputs of its remainder, in order |
| Preparation.ChunksDependOnNothingElse | repo/crates/swift-api/src/job.rs:932-988 | whatever the schedule, each worker ends with the same chunk |
| Preparation.EachInputOnce | repo/crates/swift-api/src/job.rs:936-988 | the joined chunks hold every input exactly once |
| Preparation.ParallelIsSequential | repo/crates/swift-api/src/job.rs:928-990 | for every worker count, schedule and sort, the result is the sequential map |
| Manifest.ProcessInputs | repo/crates/swift-api/src/job.rs:548-596 | the loop over the prepared inputs computes the fold |
| Manifest.ManifestBalances | repo/crates/swift-api/src/job.rs:548-646 | one result per input; messages, completed results and raw rows agree; errors and renderings add up; completed exactly when all inputs became messages; the errors file has a line for each |
| Manifest.ResultByAttempt | repo/crates/swift-api/src/job.rs:548-596 | what became of each input: the error of reading, rendering or writing, or a complete message; its type, and one error for each that parsing found |
| Manifest.ErrorRowsByMessage | repo/crates/swift-api/src/job.rs:548-596 | each result's error count is the number of error rows with its id |
| Manifest.MessageIdsDiffer | repo/crates/swift-api/src/job.rs:940-941 | different inputs have different message ids |
| Manifest.RenderedUrisDiffer | repo/crates/swift-api/src/job.rs:548-596 | a completed message of a rendering job is rendered to the place named after its id, and no two to one place |
| Manifest.WriteErrors | repo/crates/swift-api/src/job.rs:1239-1264 | a line for each error row, then one for each failed message |
| ReadModel.ReadStatements | repo/crates/ingest-cli/src/serve.rs:168-229 | the index and the two loops give each key's entries to its last header |
| ReadModel.LineIsShown | repo/crates/ingest-cli/src/snapshot.rs:112-126 | from a printed line to the snapshot: its date, direction word, signed amount, type, and the customer reference before that of the bank |
| ReadModel.StatementIsShown | repo/crates/ingest-cli/src/snapshot.rs:91-126 | balances count for the account on a credit mark and against it on a debit mark; the other details are those of the statement |
| ReadModel.EntriesByKeySurvive | repo/crates/ingest-cli/src/serve.rs:168-229 | whatever the keys, no entry is lost, duplicated, reordered or moved to another key |
| ReadModel.ReadModelIsDirectIff | repo/crates/ingest-cli/src/serve.rs:168-229 | the rejoined model is the direct snapshot if and only if every statement with a successor of the same key has no entries |
| ReadModel.FlattenKeepsEntries | repo/crates/ingest-parquet/src/lib.rs:127-189 | flattening keeps each key's entries as the direct view maps them |
| Penalty.Reconcile | repo/crates/ingest-penalty/src/lib.rs:441-544 | the loops produce the lines in key order and the summary of them |
| Penalty.CollectSides | repo/crates/ingest-penalty/src/lib.rs:454-490 | under each key, both sides added up with the first entry's details |
| Penalty.LinesByKey | repo/crates/ingest-penalty/src/lib.rs:436-535 | one line per distinct key in strictly increasing order, with both sums, their difference, the status they call for, and the details of the first entry, an expected one if there is any |
| Penalty.TotalsBalance | repo/crates/ingest-penalty/src/lib.rs:526-542 | totals are the input sums, the net difference is the sum of line differences, and exceeds the outstanding amount by at most a cent per match |
| Penalty.CountsPartition | repo/crates/ingest-penalty/src/lib.rs:505-520 | the four counts are the sizes of their key sets and partition the lines |
| Penalty.AllReconciledIff | repo/crates/ingest-penalty/src/lib.rs:537-543 | reconciled if and only if both sides have the same keys and agree within a cent; then nothing is outstanding |
| Penalty.OrderDoesNotMatter | repo/crates/ingest-penalty/src/lib.rs:436-544 | reordering either input changes no key, figure, status or total |
| Penalty.DirectionMismatchDoubles | repo/crates/ingest-penalty/src/lib.rs:253-265 | expected payable, reported receivable: the difference is twice the size |
| Penalty.KeyIdentifies | repo/crates/ingest-penalty/src/lib.rs:428-435 | two entries share a key if and only if both or neither are LMFP and, up to case and blanks, reference and ISIN agree or the bar between them is shifted into one of them |
| Penalty.BarFreeKeysIdentify | repo/crates/ingest-penalty/src/lib.rs:428-435 | where no reference has a bar the key identifies reference, ISIN and type |
| Penalty.TypesStayApart | repo/crates/ingest-penalty/src/lib.rs:428-535 | an LMFP entry and one of another type give two lines, each missing on the other side, the LMFP line first for one trade, and are not reconciled |
| Penalty.BarsCollide | repo/crates/ingest-penalty/src/lib.rs:428-435 | two transactions with one key, when a reference holds a bar |
| BusinessDays.WeekendsIff | repo/console/src/lib/csdrWork.ts:174-177 | weekends are the forty-eight hours from 1970-01-03 and those every 168 hours on and back |
| BusinessDays.AddBusinessDays | repo/console/src/lib/csdrWork.ts:179-187 | the loop ends on the n-th weekday, at the same time of day |
| BusinessDays.AddIsLeast | repo/console/src/lib/csdrWork.ts:179-187 | that is the earliest day with n weekdays behind it |
| BusinessDays.BusinessDaysBetween | repo/console/src/lib/csdrWork.ts:189-198 | the loop counts the weekdays it steps on |
| BusinessDays.BetweenExact | repo/console/src/lib/csdrWork.ts:189-198 | the count is the weekdays between the two days, and one more exactly when the time of day makes the loop step past the end day onto a weekday |
| BusinessDays.BetweenUndoesAdd | repo/console/src/lib/csdrWork.ts:179-198 | counting undoes adding, from any instant |
| BusinessDays.TimeOfDayIgnoredIff | repo/console/src/lib/csdrWork.ts:189-198 | exactly when the count depends on days alone |
| BusinessDays.AdditiveIff | repo/console/src/lib/csdrWork.ts:189-198 | exactly when counts over adjoining spans add up |
| BusinessDays.AddAdds | repo/console/src/lib/csdrWork.ts:179-187 | adding in two steps is adding once |
| BusinessDays.FiveDaysAreAWeekIff | repo/console/src/lib/csdrWork.ts:179-187 | five business days are seven days exactly from a weekday |
| BusinessDays.WindowDates | repo/console/src/lib/csdrWork.ts:200-206 | statement on the fourth weekday of the month, cutoff ten weekdays and a fortnight later, both at midnight |
| BusinessDays.ElapsedPlusRemaining | repo/console/src/lib/csdrWork.ts:207-221 | inside the window days gone and days left make ten; none is left only at the cutoff instant |
| BusinessDays.WindowOnlyMovesOn | repo/console/src/lib/csdrWork.ts:207-221 | as time goes on the days left never rise and the state only moves forward |
| BusinessDays.StatesByDate | repo/console/src/lib/csdrWork.ts:207-221 | the dates between which each state holds |

## Left out

- Normalizer.CaptureReachesEvent: the currency is that of the one payload beside the amount; that the first in key order counts when a row holds several is only in `Currency`.
- Preparation.ParallelIsSequential: the sort is any sorted rearrangement; worker panics are not modelled.
- StatementLine.LineReadsBack: printed lines carry the type letter N; the parser knows no other.
- Penalty.TotalsBalance: amounts are whole cents, so rounding of binary floating point is not modelled.
- Sequences.FieldParser.NextOccurrence: counters are unbounded; `Naming.CountersFit` says when 32 bits suffice.
- JobEngine.EveryRunBalances: the queue-depth gauge, a closed channel and idempotency keys are not modelled.
- ReadModel.ReadStatements: DuckDB and Parquet are row sequences; the position table, a plain map over rows, is left out.
- Schema matching, YAML loading and rendering by schema: their source is not part of this model; matches and renderings are inputs.
- `split_bare_statements`, `message_type_of`, `extract_isin`, `normalize_capture_value`, balances and the other MT 940 tags: straight text functions.
- Slicing in the middle of a multi-byte character, which aborts field 61 in the original: text is ASCII here.
- Clearing raw field values after materialising, an option of a job: field rows keep them.
- Penalty rates, instrument classification, accruals and the CSV reader: table look-ups and a library.
- The civil calendar behind `Date.UTC`: the month's first midnight is a parameter of the dispute window.
- Files, HTTP, databases, zip output, authentication, tracing and the console's components: input and output.
