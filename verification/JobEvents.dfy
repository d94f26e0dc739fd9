/** The events of a whole job: messages do not see each other's rows. */
module JobEvents {
  import opened Bytes
  import opened RowMerge
  import opened Batch
  import opened Manifest
  import opened Normalizer

  /** What input `i` adds to the job's batch. */
  function OwnBatch(job: Job, attempts: seq<Attempt>, decode: Bytes -> string, write: string -> Option<string>, i: nat): Batch
    requires i < |job.uris| == |attempts|
  {
    Settle(job, Prepare(job, i, attempts[i], decode), write).1
  }

  /** No schema rule writes another message id over the column that carries it. */
  predicate KeepsId(attempt: Attempt, id: string) {
    attempt.Usable? ==>
      forall k :: 0 <= k < |attempt.parsed.matches| && attempt.parsed.matches[k].column == MESSAGE_ID ==>
        attempt.parsed.matches[k].value == id
  }

  /** The events of each of the first `n` inputs, normalised alone. */
  function EventsApart(
      job: Job, attempts: seq<Attempt>, decode: Bytes -> string, write: string -> Option<string>, tools: Tools, n: nat): seq<Event>
    requires n <= |job.uris| == |attempts|
  {
    if n == 0 then []
    else
      EventsApart(job, attempts, decode, write, tools, n - 1) + Normalize(OwnBatch(job, attempts, decode, write, n - 1), tools)
  }

  function Ids(n: nat): set<string> {
    set i: nat | i < n :: MessageId(i)
  }

  lemma OwnMentions(job: Job, attempts: seq<Attempt>, decode: Bytes -> string, write: string -> Option<string>, i: nat)
    requires i < |job.uris| == |attempts| && KeepsId(attempts[i], MessageId(i))
    ensures Mentions(OwnBatch(job, attempts, decode, write, i), {MessageId(i)})
  {
    hide Mentions, MessageId, Materialized;
    NothingMentioned({MessageId(i)});
    if attempts[i].Usable? {
      MaterializedMentions(MessageId(i), attempts[i].parsed, decode);
    }
  }

  lemma NothingMentioned(ids: set<string>)
    ensures Mentions(EmptyBatch, ids)
  {}

  lemma ExtendMentions(a: Batch, b: Batch, x: set<string>, y: set<string>)
    requires Mentions(a, x) && Mentions(b, y)
    ensures Mentions(Extend(a, b), x + y)
  {}

  /** Batches that mention different messages are unrelated. */
  lemma DisjointUnrelated(a: Batch, b: Batch, x: set<string>, y: set<string>)
    requires Mentions(a, x) && Mentions(b, y) && x !! y
    ensures Unrelated(b, a.raw)
  {}

  lemma {:induction false} FoldMentions(
      job: Job, attempts: seq<Attempt>, decode: Bytes -> string, write: string -> Option<string>, n: nat)
    requires n <= |job.uris| == |attempts| && forall i: nat :: i < n ==> KeepsId(attempts[i], MessageId(i))
    ensures Mentions(Fold(job, attempts, decode, write, n).batch, Ids(n))
  {
    hide Mentions, MessageId, Prepare, Settle, KeepsId;
    if n == 0 {
      NothingMentioned(Ids(0));
    } else {
      FoldMentions(job, attempts, decode, write, n - 1);
      OwnMentions(job, attempts, decode, write, n - 1);
      ExtendMentions(Fold(job, attempts, decode, write, n - 1).batch, OwnBatch(job, attempts, decode, write, n - 1),
                     Ids(n - 1), {MessageId(n - 1)});
      assert Ids(n) == Ids(n - 1) + {MessageId(n - 1)};
    }
  }

  /**
   * A job's events are those of its messages, each normalised alone, in input order,
   * as long as no schema rule writes another message's id.
   */
  lemma {:induction false} EventsByMessage(
      job: Job, attempts: seq<Attempt>, decode: Bytes -> string, write: string -> Option<string>, tools: Tools, n: nat)
    requires n <= |job.uris| == |attempts| && forall i: nat :: i < n ==> KeepsId(attempts[i], MessageId(i))
    ensures Normalize(Fold(job, attempts, decode, write, n).batch, tools) == EventsApart(job, attempts, decode, write, tools, n)
  {
    hide Mentions, Unrelated, MessageId, Prepare, Settle, KeepsId, NormalizeMessage;
    if n > 0 {
      EventsByMessage(job, attempts, decode, write, tools, n - 1);
      var before, own := Fold(job, attempts, decode, write, n - 1).batch, OwnBatch(job, attempts, decode, write, n - 1);
      FoldMentions(job, attempts, decode, write, n - 1);
      OwnMentions(job, attempts, decode, write, n - 1);
      forall i: nat | i < n - 1
        ensures MessageId(i) != MessageId(n - 1)
      {
        MessageIdsDiffer(i, n - 1);
      }
      DisjointUnrelated(before, own, Ids(n - 1), {MessageId(n - 1)});
      DisjointUnrelated(own, before, {MessageId(n - 1)}, Ids(n - 1));
      NormalizeIsHomomorphic(before, own, tools);
    }
  }
}
