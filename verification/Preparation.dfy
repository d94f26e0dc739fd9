/**
 * Preparing the inputs of a job in parallel. Worker `k` of `w` takes the inputs
 * `k`, `k + w`, `k + 2w`, ...; the chunks are joined in worker order and sorted
 * by input index.
 */
module Preparation {
  import opened Bytes

  /** The first input at or after `index` with remainder `k`, in steps of `w`: nothing in between has it. */
  lemma RemaindersAreSpaced(index: nat, d: nat, w: nat)
    requires 0 < d < w
    ensures (index + d) % w != index % w
    ensures (index + w) % w == index % w
  {
    var q, r := index / w, index % w;
    assert index == w * q + r;
    if r + d < w {
      RemainderIs(index + d, w, q, r + d);
    } else {
      RemainderIs(index + d, w, q + 1, r + d - w);
    }
    RemainderIs(index + w, w, q + 1, r);
  }

  lemma RemainderIs(x: nat, w: nat, q: nat, r: nat)
    requires w > 0 && r < w && x == w * q + r
    ensures x % w == r
  {
    var q', r' := x / w, x % w;
    if q' > q {
      Multiples(q, q', w);
    } else if q' < q {
      Multiples(q', q, w);
    }
  }

  lemma Multiples(a: nat, b: nat, w: nat)
    requires a < b
    ensures w * a + w <= w * b
  {
    assert w * b == w * (a + 1) + w * (b - a - 1);
  }

  /** The work of worker `k` on the inputs before `n`. */
  function Chunk<P>(k: nat, w: nat, n: nat, process: nat -> P): seq<(nat, P)>
    requires w > 0
  {
    if n == 0 then []
    else
      var rest := Chunk(k, w, n - 1, process);
      if (n - 1) % w == k then rest + [(n - 1, process(n - 1))] else rest
  }

  lemma {:induction false} NothingBetween<P>(k: nat, w: nat, index: nat, m: nat, process: nat -> P)
    requires w > 0 && index % w == k && index < m <= index + w
    ensures Chunk(k, w, m, process) == Chunk(k, w, index + 1, process)
    decreases m
  {
    if m > index + 1 {
      NothingBetween(k, w, index, m - 1, process);
      RemaindersAreSpaced(index, m - 1 - index, w);
    }
  }

  lemma NextRemainder(index: nat, w: nat)
    requires w > 0
    ensures (index + w) % w == index % w
  {
    RemainderIs(index + w, w, index / w + 1, index % w);
  }

  lemma {:induction false} NothingBefore<P>(k: nat, w: nat, n: nat, process: nat -> P)
    requires k < w
    ensures n <= k ==> Chunk(k, w, n, process) == []
  {
    if 0 < n <= k {
      NothingBefore(k, w, n - 1, process);
      RemainderIs(n - 1, w, 0, n - 1);
    }
  }

  /** A worker that takes `next` next has done its share before it. */
  ghost predicate WorkerInStep<P>(chunk: seq<(nat, P)>, next: nat, k: nat, w: nat, n: nat, process: nat -> P)
    requires w > 0
  {
    next % w == k && chunk == Chunk(k, w, if next < n then next else n, process)
  }

  lemma WorkerStays<P>(chunk: seq<(nat, P)>, next: nat, k: nat, w: nat, n: nat, process: nat -> P)
    requires w > 0 && WorkerInStep(chunk, next, k, w, n, process) && next < n
    ensures WorkerInStep(chunk + [(next, process(next))], next + w, k, w, n, process)
  {
    NothingBetween(k, w, next, if next + w < n then next + w else n, process);
    NextRemainder(next, w);
  }

  lemma FreshInStep<P>(k: nat, w: nat, n: nat, process: nat -> P)
    requires k < w
    ensures WorkerInStep([], k, k, w, n, process)
  {
    RemainderIs(k, w, 0, k);
    NothingBefore(k, w, if k < n then k else n, process);
  }

  lemma WorkerDone<P>(chunk: seq<(nat, P)>, next: nat, k: nat, w: nat, n: nat, process: nat -> P)
    requires w > 0 && WorkerInStep(chunk, next, k, w, n, process) && next >= n
    ensures chunk == Chunk(k, w, n, process)
  {}

  /** The loop of one worker, `step_by(w)` from its own number. */
  method RunWorker<P>(k: nat, w: nat, n: nat, process: nat -> P) returns (chunk: seq<(nat, P)>)
    requires k < w
    ensures chunk == Chunk(k, w, n, process)
  {
    hide WorkerInStep, Chunk;
    chunk := [];
    var index := k;
    FreshInStep(k, w, n, process);
    while index < n
      invariant WorkerInStep(chunk, index, k, w, n, process)
    {
      WorkerStays(chunk, index, k, w, n, process);
      chunk := chunk + [(index, process(index))];
      index := index + w;
    }
    WorkerDone(chunk, index, k, w, n, process);
  }

  // ---- Any interleaving ----

  /** What each worker has done, and the input it takes next. */
  datatype Pool<P> = Pool(chunks: seq<seq<(nat, P)>>, next: seq<nat>)

  function Fresh<P>(w: nat): Pool<P> {
    Pool(seq(w, k => []), seq(w, k => k))
  }

  predicate CanStep<P>(p: Pool<P>, k: nat, n: nat) {
    k < |p.chunks| == |p.next| && p.next[k] < n
  }

  function StepWorker<P>(p: Pool<P>, k: nat, process: nat -> P): Pool<P>
    requires k < |p.chunks| == |p.next|
  {
    Pool(p.chunks[k := p.chunks[k] + [(p.next[k], process(p.next[k]))]], p.next[k := p.next[k] + |p.chunks|])
  }

  /** The pool after a schedule, which names the worker that takes each step; none if some step cannot be taken. */
  function After<P>(schedule: seq<nat>, w: nat, n: nat, process: nat -> P): Option<Pool<P>> {
    if schedule == [] then Some(Fresh(w))
    else
      var before, k := After(schedule[..|schedule| - 1], w, n, process), schedule[|schedule| - 1];
      if before.Some? && CanStep(before.value, k, n) then Some(StepWorker(before.value, k, process)) else None
  }

  /** Each worker has done its share so far. */
  ghost predicate InStep<P>(p: Pool<P>, w: nat, n: nat, process: nat -> P) {
    && w > 0 && |p.chunks| == |p.next| == w
    && forall k :: 0 <= k < w ==> WorkerInStep(p.chunks[k], p.next[k], k, w, n, process)
  }

  lemma {:induction false} ScheduleKeepsStep<P>(schedule: seq<nat>, w: nat, n: nat, process: nat -> P, p: Pool<P>)
    requires w > 0 && After(schedule, w, n, process) == Some(p)
    ensures InStep(p, w, n, process)
  {
    hide WorkerInStep;
    if schedule == [] {
      forall k | 0 <= k < w
        ensures WorkerInStep(p.chunks[k], p.next[k], k, w, n, process)
      {
        FreshInStep(k, w, n, process);
      }
    } else {
      var init, k := schedule[..|schedule| - 1], schedule[|schedule| - 1];
      var before := After(init, w, n, process).value;
      ScheduleKeepsStep(init, w, n, process, before);
      WorkerStays(before.chunks[k], before.next[k], k, w, n, process);
    }
  }

  /** When no worker can step, each has its whole chunk, whatever the schedule. */
  lemma ChunksDependOnNothingElse<P>(schedule: seq<nat>, w: nat, n: nat, process: nat -> P, p: Pool<P>)
    requires w > 0 && After(schedule, w, n, process) == Some(p)
    requires forall k: nat :: !CanStep(p, k, n)
    ensures |p.chunks| == w && forall k :: 0 <= k < w ==> p.chunks[k] == Chunk(k, w, n, process)
  {
    ScheduleKeepsStep(schedule, w, n, process, p);
    forall k: nat | k < w
      ensures p.chunks[k] == Chunk(k, w, n, process)
    {
      assert WorkerInStep(p.chunks[k], p.next[k], k, w, n, process);
      assert !CanStep(p, k, n);
    }
  }

  // ---- Joining and sorting ----

  function Join<P>(chunks: seq<seq<P>>): seq<P> {
    if chunks == [] then [] else Join(chunks[..|chunks| - 1]) + chunks[|chunks| - 1]
  }

  /** The sequential result, tagged with input indices. */
  function Sequential<P>(n: nat, process: nat -> P): (r: seq<(nat, P)>)
    ensures |r| == n && forall i: nat :: i < n ==> r[i] == (i, process(i))
  {
    if n == 0 then [] else Sequential(n - 1, process) + [(n - 1, process(n - 1))]
  }

  ghost predicate SortedByIndex<P>(s: seq<(nat, P)>) {
    forall i, j :: 0 <= i < j < |s| ==> s[i].0 <= s[j].0
  }

  /** The full chunks of the first `m` workers, joined. */
  function JoinedChunks<P>(m: nat, w: nat, n: nat, process: nat -> P): seq<(nat, P)>
    requires w > 0
  {
    if m == 0 then [] else JoinedChunks(m - 1, w, n, process) + Chunk(m - 1, w, n, process)
  }

  /** One more input is one more entry, in the chunk its remainder names. */
  lemma {:induction false} JoinOneMore<P>(m: nat, w: nat, n: nat, process: nat -> P)
    requires w > 0
    ensures multiset(JoinedChunks(m, w, n + 1, process)) ==
      multiset(JoinedChunks(m, w, n, process)) + (if n % w < m then multiset{(n, process(n))} else multiset{})
  {
    if m > 0 {
      JoinOneMore(m - 1, w, n, process);
    }
  }

  lemma {:induction false} NoInputs<P>(m: nat, w: nat, process: nat -> P)
    requires w > 0
    ensures JoinedChunks(m, w, 0, process) == []
  {
    if m > 0 {
      NoInputs(m - 1, w, process);
    }
  }

  /** Every input is prepared exactly once. */
  lemma {:induction false} EachInputOnce<P>(w: nat, n: nat, process: nat -> P)
    requires w > 0
    ensures multiset(JoinedChunks(w, w, n, process)) == multiset(Sequential(n, process))
  {
    if n == 0 {
      NoInputs(w, w, process);
    } else {
      EachInputOnce(w, n - 1, process);
      JoinOneMore(w, w, n - 1, process);
    }
  }

  /** There is only one way to sort entries with distinct indices. */
  lemma {:induction false} SortIsUnique<P>(s: seq<(nat, P)>, n: nat, process: nat -> P)
    requires SortedByIndex(s) && multiset(s) == multiset(Sequential(n, process))
    ensures s == Sequential(n, process)
  {
    assert |s| == |multiset(s)| == |multiset(Sequential(n, process))| == n;
    if n > 0 {
      LastIsSame(s, n, process);
      SameWithoutLast(s[..n - 1], Sequential(n - 1, process), s[n - 1], s, Sequential(n, process));
      SortIsUnique(s[..n - 1], n - 1, process);
    }
  }

  lemma SameWithoutLast<T>(s': seq<T>, t': seq<T>, x: T, s: seq<T>, t: seq<T>)
    requires s == s' + [x] && t == t' + [x] && multiset(s) == multiset(t)
    ensures multiset(s') == multiset(t')
  {
    assert multiset(s') == multiset(s) - multiset{x};
    assert multiset(t') == multiset(t) - multiset{x};
  }

  lemma LastIsSame<P>(s: seq<(nat, P)>, n: nat, process: nat -> P)
    requires n > 0 && |s| == n && SortedByIndex(s) && multiset(s) == multiset(Sequential(n, process))
    ensures s[n - 1] == (n - 1, process(n - 1))
  {
    hide Sequential;
    var t := Sequential(n, process);
    assert s[n - 1] in multiset(s) && t[n - 1] in multiset(t);
    assert s[n - 1] in t && t[n - 1] in s;
    var i :| 0 <= i < n && s[i] == t[n - 1];
    assert s[i].0 == n - 1 <= s[n - 1].0;
  }

  lemma {:induction false} JoinOfChunks<P>(chunks: seq<seq<(nat, P)>>, w: nat, n: nat, process: nat -> P)
    requires w > 0 && forall k: nat :: k < |chunks| ==> chunks[k] == Chunk(k, w, n, process)
    ensures Join(chunks) == JoinedChunks(|chunks|, w, n, process)
  {
    hide Chunk;
    if chunks != [] {
      JoinOfChunks(chunks[..|chunks| - 1], w, n, process);
    }
  }

  /**
   * For every number of workers, every schedule and every way of sorting: the
   * joined and sorted result is the sequential one.
   */
  lemma ParallelIsSequential<P>(schedule: seq<nat>, w: nat, n: nat, process: nat -> P, p: Pool<P>, sorted: seq<(nat, P)>)
    requires w > 0 && After(schedule, w, n, process) == Some(p)
    requires forall k: nat :: !CanStep(p, k, n)
    requires SortedByIndex(sorted) && multiset(sorted) == multiset(Join(p.chunks))
    ensures sorted == Sequential(n, process)
  {
    hide SortedByIndex, Chunk, CanStep, After;
    ChunksDependOnNothingElse(schedule, w, n, process, p);
    JoinOfChunks(p.chunks, w, n, process);
    EachInputOnce(w, n, process);
    SortIsUnique(sorted, n, process);
  }
}
