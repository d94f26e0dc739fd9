/**
 * The body of a job: prepared inputs are folded, in input order, into results,
 * counts and one batch of output rows; the manifest reports the counts.
 */
module Manifest {
  import opened Bytes
  import opened PathCodec
  import opened Batch

  /** What reading, parsing and, if selected, rendering one input came to. */
  datatype Attempt = Unusable(error: string) | Usable(parsed: Parsed, rendering: Rendering)

  datatype Rendering = Rendered(text: string) | NotRenderable(error: string)

  datatype Status = Completed | Failed

  datatype MessageResult = MessageResult(
    messageId: string,
    messageType: string,
    uri: string,
    status: Status,
    parseErrors: nat,
    renderedUri: Option<string>,
    error: Option<string>)

  datatype Prepared =
    | Ready(result: MessageResult, batch: Batch, renderedUri: Option<string>, rendered: Option<string>)
    | Rejected(result: MessageResult)

  /** The request: the input uris, whether to render, the output prefix and the configured message type. */
  datatype Job = Job(uris: seq<string>, render: bool, prefix: string, messageType: Option<string>)

  function MessageId(i: nat): string {
    "msg-" + Decimal(i + 1)
  }

  function FailedResult(id: string, messageType: string, uri: string, error: string): MessageResult {
    MessageResult(id, messageType, uri, Failed, 0, None, Some(error))
  }

  function Prepare(job: Job, i: nat, attempt: Attempt, decode: Bytes -> string): Prepared
    requires i < |job.uris|
  {
    var id := MessageId(i);
    var fallback := if job.messageType.Some? then job.messageType.value else "unknown";
    match attempt
    case Unusable(error) => Rejected(FailedResult(id, fallback, job.uris[i], error))
    case Usable(parsed, rendering) =>
      if job.render && rendering.NotRenderable? then Rejected(FailedResult(id, fallback, job.uris[i], rendering.error))
      else
        var batch := Materialized(id, parsed, decode);
        var uri := if job.render then Some(job.prefix + "rendered/" + id + ".fin") else None;
        Ready(MessageResult(id, parsed.messageType, job.uris[i], Completed, |batch.errors|, uri, None), batch, uri,
              if job.render then Some(rendering.text) else None)
  }

  // ---- The fold ----

  datatype Tally = Tally(results: seq<MessageResult>, messages: nat, parseErrors: nat, rendered: nat, batch: Batch)

  const NothingYet := Tally([], 0, 0, 0, EmptyBatch)

  /** The result that counts: a rendered output that cannot be written fails the message after all. */
  function Settle(job: Job, p: Prepared, write: string -> Option<string>): (MessageResult, Batch) {
    match p
    case Rejected(result) => (result, EmptyBatch)
    case Ready(result, batch, uri, rendered) =>
      var failure := if job.render && uri.Some? && rendered.Some? then write(uri.value) else None;
      match failure
      case None => (result, batch)
      case Some(error) => (FailedResult(result.messageId, result.messageType, result.uri, error), EmptyBatch)
  }

  function Add(t: Tally, settled: (MessageResult, Batch)): Tally {
    var (result, batch) := settled;
    var done := result.status.Completed?;
    Tally(
      t.results + [result],
      t.messages + (if done then 1 else 0),
      t.parseErrors + (if done then result.parseErrors else 0),
      t.rendered + (if done && result.renderedUri.Some? then 1 else 0),
      Extend(t.batch, batch))
  }

  /** The first `n` inputs of a job, where `write` gives the error of writing an output, if any. */
  function Fold(job: Job, attempts: seq<Attempt>, decode: Bytes -> string, write: string -> Option<string>, n: nat): Tally
    requires n <= |job.uris| == |attempts|
  {
    if n == 0 then NothingYet
    else
      Add(Fold(job, attempts, decode, write, n - 1), Settle(job, Prepare(job, n - 1, attempts[n - 1], decode), write))
  }

  method ProcessInputs(
      job: Job, prepared: seq<Prepared>, ghost attempts: seq<Attempt>, ghost decode: Bytes -> string,
      write: string -> Option<string>)
    returns (results: seq<MessageResult>, messages: nat, parseErrors: nat, rendered: nat, batch: Batch)
    requires |prepared| == |attempts| == |job.uris|
    requires forall i :: 0 <= i < |prepared| ==> prepared[i] == Prepare(job, i, attempts[i], decode)
    ensures Tally(results, messages, parseErrors, rendered, batch) == Fold(job, attempts, decode, write, |job.uris|)
  {
    hide Prepare, MessageId;
    results, messages, parseErrors, rendered, batch := [], 0, 0, 0, EmptyBatch;
    for i := 0 to |prepared|
      invariant Tally(results, messages, parseErrors, rendered, batch) == Fold(job, attempts, decode, write, i)
    {
      var inputResult;
      match prepared[i] {
        case Ready(result, own, uri, text) =>
          var failure := if job.render && uri.Some? && text.Some? then write(uri.value) else None;
          match failure {
            case None =>
              batch := Extend(batch, own);
              inputResult := result;
            case Some(error) =>
              inputResult := FailedResult(result.messageId, result.messageType, result.uri, error);
          }
        case Rejected(result) =>
          inputResult := result;
      }
      if inputResult.status.Completed? {
        messages := messages + 1;
        parseErrors := parseErrors + inputResult.parseErrors;
        if inputResult.renderedUri.Some? {
          rendered := rendered + 1;
        }
      }
      results := results + [inputResult];
    }
  }

  // ---- What the manifest reports ----

  function CompletedIds(results: seq<MessageResult>): seq<string> {
    if results == [] then []
    else
      var last := results[|results| - 1];
      CompletedIds(results[..|results| - 1]) + (if last.status.Completed? then [last.messageId] else [])
  }

  function RawIds(raw: seq<RawMessage>): seq<string> {
    seq(|raw|, i requires 0 <= i < |raw| => raw[i].messageId)
  }

  /** The error rows of one message. */
  function ErrorsOf(errors: seq<ErrorRow>, id: string): nat {
    if errors == [] then 0
    else ErrorsOf(errors[..|errors| - 1], id) + (if errors[|errors| - 1].messageId == id then 1 else 0)
  }

  /** The result reported for input `i` fits its attempt. */
  predicate ResultFits(job: Job, result: MessageResult, i: nat)
    requires i < |job.uris|
  {
    && result.messageId == MessageId(i)
    && result.uri == job.uris[i]
    && (result.status.Failed? <==> result.error.Some?)
    && result.renderedUri == (if job.render && result.status.Completed? then Some(RenderedAt(job.prefix, MessageId(i))) else None)
  }

  lemma SettledFits(job: Job, i: nat, attempt: Attempt, decode: Bytes -> string, write: string -> Option<string>)
    requires i < |job.uris|
    ensures var (result, batch) := Settle(job, Prepare(job, i, attempt, decode), write);
      && ResultFits(job, result, i)
      && RawIds(batch.raw) == (if result.status.Completed? then [MessageId(i)] else [])
      && |batch.errors| == result.parseErrors
      && (result.status.Failed? ==> batch == EmptyBatch)
      && forall k :: 0 <= k < |batch.errors| ==> batch.errors[k].messageId == MessageId(i)
  {
    assert RenderedAt(job.prefix, MessageId(i)) == job.prefix + "rendered/" + MessageId(i) + ".fin";
  }

  /** The counts are those of the batch and of the results. */
  ghost predicate Balanced(job: Job, t: Tally, n: nat)
    requires n <= |job.uris|
  {
    && |t.results| == n
    && (forall i :: 0 <= i < n ==> ResultFits(job, t.results[i], i))
    && CompletedIds(t.results) == RawIds(t.batch.raw)
    && t.messages == |t.batch.raw| <= n
    && t.parseErrors == |t.batch.errors|
    && t.rendered == (if job.render then t.messages else 0)
  }

  lemma {:induction false} FoldBalances(
      job: Job, attempts: seq<Attempt>, decode: Bytes -> string, write: string -> Option<string>, n: nat)
    requires n <= |job.uris| == |attempts|
    ensures Balanced(job, Fold(job, attempts, decode, write, n), n)
  {
    hide Prepare, Settle, ResultFits;
    if n > 0 {
      FoldBalances(job, attempts, decode, write, n - 1);
      var t := Fold(job, attempts, decode, write, n - 1);
      var settled := Settle(job, Prepare(job, n - 1, attempts[n - 1], decode), write);
      SettledFits(job, n - 1, attempts[n - 1], decode, write);
      AddBalances(job, t, settled, n - 1);
    }
  }

  lemma AddBalances(job: Job, t: Tally, settled: (MessageResult, Batch), n: nat)
    requires n < |job.uris| && Balanced(job, t, n) && ResultFits(job, settled.0, n)
    requires RawIds(settled.1.raw) == (if settled.0.status.Completed? then [MessageId(n)] else [])
    requires |settled.1.errors| == settled.0.parseErrors && (settled.0.status.Failed? ==> settled.1 == EmptyBatch)
    ensures Balanced(job, Add(t, settled), n + 1)
  {
    hide MessageId;
    var (result, batch) := settled;
    var results := t.results + [result];
    assert results[..n] == t.results;
    assert |batch.raw| == |RawIds(batch.raw)|;
    assert RawIds(t.batch.raw + batch.raw) == RawIds(t.batch.raw) + RawIds(batch.raw);
  }

  // ---- The errors file ----

  function FailureLines(results: seq<MessageResult>): seq<(string, string)> {
    if results == [] then []
    else
      var last := results[|results| - 1];
      FailureLines(results[..|results| - 1]) + (if last.error.Some? then [(last.messageId, last.error.value)] else [])
  }

  /** One line for each parse error, then one for each failed message. */
  function ErrorLines(errors: seq<ErrorRow>, results: seq<MessageResult>): seq<(string, string)> {
    seq(|errors|, i requires 0 <= i < |errors| => (errors[i].messageId, errors[i].error)) + FailureLines(results)
  }

  method WriteErrors(batch: Batch, results: seq<MessageResult>) returns (lines: seq<(string, string)>)
    ensures lines == ErrorLines(batch.errors, results)
  {
    lines := [];
    for i := 0 to |batch.errors|
      invariant lines == ErrorLines(batch.errors[..i], [])
    {
      lines := lines + [(batch.errors[i].messageId, batch.errors[i].error)];
    }
    assert batch.errors[..|batch.errors|] == batch.errors;
    ghost var first := lines;
    for i := 0 to |results|
      invariant lines == first + FailureLines(results[..i])
    {
      assert results[..i + 1][..i] == results[..i];
      if results[i].error.Some? {
        lines := lines + [(results[i].messageId, results[i].error.value)];
      }
    }
    assert results[..|results|] == results;
  }

  lemma {:induction false} FailuresCounted(results: seq<MessageResult>)
    requires forall i :: 0 <= i < |results| ==> (results[i].status.Failed? <==> results[i].error.Some?)
    ensures |FailureLines(results)| + |CompletedIds(results)| == |results|
    ensures |CompletedIds(results)| == |results| <==> forall i :: 0 <= i < |results| ==> results[i].status.Completed?
  {
    if results != [] {
      FailuresCounted(results[..|results| - 1]);
    }
  }

  /** `completed`, unless some message failed. */
  predicate AllCompleted(results: seq<MessageResult>) {
    forall i :: 0 <= i < |results| ==> results[i].status.Completed?
  }

  /**
   * Conservation: one result for each input, in order; the message count is the
   * number of completed results and of raw rows, whose ids agree; the error count
   * is the number of error rows; rendering is all or nothing; the job completes
   * without errors exactly when every input became a message; and the errors file
   * has a line for each parse error and each message that failed.
   */
  lemma ManifestBalances(job: Job, attempts: seq<Attempt>, decode: Bytes -> string, write: string -> Option<string>)
    requires |job.uris| == |attempts|
    ensures var n := |job.uris|;
      var t := Fold(job, attempts, decode, write, n);
      && |t.results| == n
      && (forall i :: 0 <= i < n ==> t.results[i].messageId == MessageId(i) && t.results[i].uri == job.uris[i])
      && CompletedIds(t.results) == RawIds(t.batch.raw)
      && t.messages == |t.batch.raw|
      && t.parseErrors == |t.batch.errors|
      && t.rendered == (if job.render then t.messages else 0)
      && (AllCompleted(t.results) <==> t.messages == n)
      && |ErrorLines(t.batch.errors, t.results)| == t.parseErrors + (n - t.messages)
  {
    hide Fold, MessageId;
    FoldBalances(job, attempts, decode, write, |job.uris|);
    var t := Fold(job, attempts, decode, write, |job.uris|);
    assert |RawIds(t.batch.raw)| == |t.batch.raw|;
    FailuresCounted(t.results);
  }

  lemma MessageIdsDiffer(i: nat, j: nat)
    requires i != j
    ensures MessageId(i) != MessageId(j)
  {
    if MessageId(i) == MessageId(j) {
      assert Decimal(i + 1) == MessageId(i)[4..] == MessageId(j)[4..] == Decimal(j + 1);
      DecimalInjective(i + 1, j + 1);
    }
  }

  lemma {:induction false} FoldAt(
      job: Job, attempts: seq<Attempt>, decode: Bytes -> string, write: string -> Option<string>, n: nat, i: nat)
    requires i < n <= |job.uris| == |attempts|
    ensures var results := Fold(job, attempts, decode, write, n).results;
      |results| == n && results[i] == Settle(job, Prepare(job, i, attempts[i], decode), write).0
  {
    hide Prepare, Settle;
    FoldBalances(job, attempts, decode, write, n - 1);
    if i < n - 1 {
      FoldAt(job, attempts, decode, write, n - 1, i);
    }
  }

  /**
   * What became of each input: it fails with the error of reading, rendering or writing,
   * whichever comes first, or is complete with the type that was parsed and one error for
   * each that parsing found. Where nothing was kept the type is the configured one, if any.
   */
  lemma ResultByAttempt(
      job: Job, attempts: seq<Attempt>, decode: Bytes -> string, write: string -> Option<string>, i: nat)
    requires i < |job.uris| == |attempts|
    ensures var results := Fold(job, attempts, decode, write, |job.uris|).results;
      && |results| == |job.uris|
      && var r, a := results[i], attempts[i];
      && (a.Unusable? ==> r.error == Some(a.error))
      && (a.Usable? && job.render && a.rendering.NotRenderable? ==> r.error == Some(a.rendering.error))
      && (a.Usable? && job.render && a.rendering.Rendered? ==> r.error == write(RenderedAt(job.prefix, MessageId(i))))
      && (a.Usable? && !job.render ==> r.error == None)
      && (r.status.Failed? <==> r.error.Some?)
      && (a.Usable? && (job.render ==> a.rendering.Rendered?) ==> r.messageType == a.parsed.messageType)
      && (a.Unusable? || (job.render && a.rendering.NotRenderable?) ==>
            (job.messageType.Some? ==> r.messageType == job.messageType.value) && (job.messageType.None? ==> r.messageType == "unknown"))
      && (r.status.Completed? ==> r.parseErrors == |a.parsed.errors|) && (r.status.Failed? ==> r.parseErrors == 0)
  {
    hide Fold, MessageId, FieldRows;
    FoldAt(job, attempts, decode, write, |job.uris|, i);
    FoldBalances(job, attempts, decode, write, |job.uris|);
    assert RenderedAt(job.prefix, MessageId(i)) == job.prefix + "rendered/" + MessageId(i) + ".fin";
  }

  /** No two messages of a job are rendered to the same place, and each place names its message. */
  lemma RenderedUrisDiffer(
      job: Job, attempts: seq<Attempt>, decode: Bytes -> string, write: string -> Option<string>, i: nat, j: nat)
    requires i < |job.uris| == |attempts| && j < |job.uris| && i != j
    ensures var results := Fold(job, attempts, decode, write, |job.uris|).results;
      && |results| == |job.uris|
      && (results[i].renderedUri.Some? <==> job.render && results[i].status.Completed?)
      && (results[i].renderedUri.Some? ==> results[i].renderedUri.value == RenderedAt(job.prefix, MessageId(i)))
      && (results[i].renderedUri.Some? ==> results[i].renderedUri != results[j].renderedUri)
  {
    hide Fold, MessageId;
    FoldBalances(job, attempts, decode, write, |job.uris|);
    MessageIdsDiffer(i, j);
    var results := Fold(job, attempts, decode, write, |job.uris|).results;
    assert ResultFits(job, results[i], i) && ResultFits(job, results[j], j);
    PlacesDiffer(job.prefix, MessageId(i), MessageId(j));
  }

  /** Where a message is rendered to. */
  function RenderedAt(prefix: string, id: string): string {
    prefix + ("rendered/" + (id + ".fin"))
  }

  lemma PlacesDiffer(prefix: string, a: string, b: string)
    ensures RenderedAt(prefix, a) == RenderedAt(prefix, b) ==> a == b
  {
    var s, t, n := RenderedAt(prefix, a), RenderedAt(prefix, b), |prefix| + 9;
    assert a == s[n..|s| - 4] && b == t[n..|t| - 4];
  }

  lemma {:induction false} ErrorsOfConcat(a: seq<ErrorRow>, b: seq<ErrorRow>, id: string)
    ensures ErrorsOf(a + b, id) == ErrorsOf(a, id) + ErrorsOf(b, id)
  {
    if b == [] {
      assert a + b == a;
    } else {
      assert (a + b)[..|a + b| - 1] == a + b[..|b| - 1];
      ErrorsOfConcat(a, b[..|b| - 1], id);
    }
  }

  lemma {:induction false} ErrorsOfOne(errors: seq<ErrorRow>, own: string, id: string)
    requires forall k :: 0 <= k < |errors| ==> errors[k].messageId == own
    ensures ErrorsOf(errors, id) == if own == id then |errors| else 0
  {
    if errors != [] {
      ErrorsOfOne(errors[..|errors| - 1], own, id);
    }
  }

  /** Each message's error count is the number of error rows that carry its id, whichever the other messages are. */
  lemma {:induction false} ErrorRowsByMessage(
      job: Job, attempts: seq<Attempt>, decode: Bytes -> string, write: string -> Option<string>, n: nat, i: nat)
    requires n <= |job.uris| == |attempts|
    ensures var t := Fold(job, attempts, decode, write, n);
      && |t.results| == n
      && ErrorsOf(t.batch.errors, MessageId(i)) == if i < n then t.results[i].parseErrors else 0
  {
    hide Prepare, Settle, MessageId;
    if n > 0 {
      ErrorRowsByMessage(job, attempts, decode, write, n - 1, i);
      var t := Fold(job, attempts, decode, write, n - 1);
      var (result, batch) := Settle(job, Prepare(job, n - 1, attempts[n - 1], decode), write);
      SettledFits(job, n - 1, attempts[n - 1], decode, write);
      ErrorsOfConcat(t.batch.errors, batch.errors, MessageId(i));
      ErrorsOfOne(batch.errors, MessageId(n - 1), MessageId(i));
      if i != n - 1 {
        MessageIdsDiffer(i, n - 1);
      }
    }
  }
}
