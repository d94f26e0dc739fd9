/** The FIN envelope: `{id:content}` blocks, text block 4 closed by `-}`. */
module Envelope {
  import opened Bytes
  import opened Sequences
  import opened TextScanner

  datatype BlockId = BasicHeader | ApplicationHeader | UserHeader | Text | Trailer | Other(id: Bytes)

  /** `start` is the offset of the content in the message. */
  datatype Block = Block(id: BlockId, raw: Bytes, content: Bytes, start: nat)

  const TEXT_ID: Bytes := [0x34]

  function BlockIdOf(id: Bytes): BlockId {
    if id == [0x31] then BasicHeader
    else if id == [0x32] then ApplicationHeader
    else if id == [0x33] then UserHeader
    else if id == TEXT_ID then Text
    else if id == [0x35] then Trailer
    else Other(id)
  }

  // ---- Where a block closes ----

  /** Position of the first `-}` at or after `from`, or the end. */
  function TextEnd(input: Bytes, from: nat): (i: nat)
    requires from <= |input|
    ensures from <= i <= |input|
    ensures i < |input| ==> i + 1 < |input| && input[i] == HYPHEN && input[i + 1] == CLOSE_BRACE
    ensures forall k :: from <= k < i && k + 1 < |input| ==> !(input[k] == HYPHEN && input[k + 1] == CLOSE_BRACE)
    decreases |input| - from
  {
    if from + 1 >= |input| then |input|
    else if input[from] == HYPHEN && input[from + 1] == CLOSE_BRACE then from
    else TextEnd(input, from + 1)
  }

  function Delta(b: byte): int {
    if b == OPEN_BRACE then 1 else if b == CLOSE_BRACE then -1 else 0
  }

  /** Opening minus closing braces. */
  function Balance(s: Bytes): int {
    if s == [] then 0 else Balance(s[..|s| - 1]) + Delta(s[|s| - 1])
  }

  /** The braces opened at `open` are all closed for the first time by the one at `c`. */
  ghost predicate ClosesAt(input: Bytes, open: nat, c: nat) {
    && open <= c < |input|
    && Balance(input[open..c + 1]) == 0
    && (forall k :: open < k <= c ==> Balance(input[open..k]) > 0)
  }

  lemma BalanceAppend(input: Bytes, open: nat, k: nat)
    requires open <= k < |input|
    ensures Balance(input[open..k + 1]) == Balance(input[open..k]) + Delta(input[k])
  {
    assert input[open..k + 1][..k - open] == input[open..k];
  }

  /** The closing position, found by scanning on from `at` with `depth` braces open. */
  function BraceEnd(input: Bytes, at: nat, depth: nat): Option<nat>
    requires at <= |input| && (depth > 0 || (at < |input| && input[at] == OPEN_BRACE))
    decreases |input| - at
  {
    if at == |input| then None
    else if input[at] == OPEN_BRACE then BraceEnd(input, at + 1, depth + 1)
    else if input[at] == CLOSE_BRACE then
      if depth == 1 then Some(at) else BraceEnd(input, at + 1, depth - 1)
    else BraceEnd(input, at + 1, depth)
  }

  /** The scan finds the position where the braces first balance, if there is one. */
  lemma {:induction false} BraceEndCloses(input: Bytes, open: nat, at: nat, depth: nat)
    requires open <= at <= |input| && open < |input| && input[open] == OPEN_BRACE
    requires depth == Balance(input[open..at]) && (at == open || depth > 0)
    requires forall k :: open < k <= at ==> Balance(input[open..k]) > 0
    ensures match BraceEnd(input, at, depth)
      case Some(c) => ClosesAt(input, open, c)
      case None => forall c: nat :: !ClosesAt(input, open, c)
    decreases |input| - at
  {
    if at < |input| {
      BalanceAppend(input, open, at);
      if input[at] == CLOSE_BRACE && depth == 1 {
        assert ClosesAt(input, open, at);
      } else {
        var next := depth + Delta(input[at]);
        BraceEndCloses(input, open, at + 1, next);
      }
    } else {
      forall c: nat ensures !ClosesAt(input, open, c) {
        assert open <= c < |input| ==> Balance(input[open..c + 1]) > 0;
      }
    }
  }

  function BlockEnd(input: Bytes, open: nat, contentStart: nat, id: Bytes): Option<nat>
    requires open < contentStart <= |input| && input[open] == OPEN_BRACE
  {
    if id == TEXT_ID then
      var i := TextEnd(input, contentStart);
      if i < |input| then Some(i + 1) else None
    else BraceEnd(input, open, 0)
  }

  /** `find_block_close`: the same by a loop; the depth counter never drops below zero. */
  method FindBlockClose(input: Bytes, open: nat, contentStart: nat, id: Bytes) returns (close: Option<nat>)
    requires open < contentStart <= |input| && input[open] == OPEN_BRACE
    ensures close == BlockEnd(input, open, contentStart, id)
    ensures id != TEXT_ID ==>
      match close
      case Some(c) => ClosesAt(input, open, c)
      case None => forall c: nat :: !ClosesAt(input, open, c)
  {
    if id == TEXT_ID {
      var cursor := contentStart;
      while cursor + 1 < |input|
        invariant contentStart <= cursor <= |input|
        invariant TextEnd(input, cursor) == TextEnd(input, contentStart)
        decreases |input| - cursor
      {
        if input[cursor] == HYPHEN && input[cursor + 1] == CLOSE_BRACE {
          return Some(cursor + 1);
        }
        cursor := cursor + 1;
      }
      return None;
    }
    assert input[open..open] == [];
    BraceEndCloses(input, open, open, 0);
    var depth: nat := 0;
    var idx := open;
    while idx < |input|
      invariant open <= idx <= |input|
      invariant idx == open || depth > 0
      invariant idx == open ==> depth == 0
      invariant BraceEnd(input, idx, depth) == BraceEnd(input, open, 0)
    {
      if input[idx] == OPEN_BRACE {
        depth := depth + 1;
      } else if input[idx] == CLOSE_BRACE {
        depth := depth - 1;
        if depth == 0 {
          return Some(idx);
        }
      }
      idx := idx + 1;
    }
    return None;
  }

  // ---- The block list ----

  function ContentEnd(input: Bytes, contentStart: nat, close: nat, id: Bytes): (e: nat)
    requires contentStart <= close < |input|
    ensures contentStart <= e <= close
  {
    if id == TEXT_ID && close > contentStart && input[close - 1] == HYPHEN then close - 1 else close
  }

  lemma BlockEndInside(input: Bytes, open: nat, contentStart: nat, id: Bytes)
    requires open < contentStart <= |input| && input[open] == OPEN_BRACE
    requires forall k :: open < k < contentStart ==> input[k] != CLOSE_BRACE
    ensures BlockEnd(input, open, contentStart, id).Some? ==>
      contentStart <= BlockEnd(input, open, contentStart, id).value < |input|
  {
    if id != TEXT_ID && BlockEnd(input, open, contentStart, id).Some? {
      assert input[open..open] == [];
      BraceEndCloses(input, open, open, 0);
      var c := BlockEnd(input, open, contentStart, id).value;
      BalanceAppend(input, open, c);
      if c > open {
        assert Delta(input[c]) < 0;
      }
    }
  }

  /** The first colon after an opening brace, or `|input|`. */
  function HeaderEnd(input: Bytes, open: nat): (c: nat)
    requires open < |input|
    ensures open < c <= |input|
  {
    IndexOf(input, COLON, open + 1)
  }

  /** What stands at an opening brace. */
  datatype Step = Stop(d: Diagnostic) | Found(block: Block, next: nat)

  function StepAt(input: Bytes, open: nat, limits: Limits): (s: Step)
    requires open < |input| && input[open] == OPEN_BRACE
    ensures s.Found? ==> open < s.next <= |input|
  {
    if open + 3 > |input| then Stop(UnclosedBlock(open))
    else
      var colon := HeaderEnd(input, open);
      if colon == |input| || IndexOf(input, CLOSE_BRACE, open + 1) < colon then Stop(MissingBlockSeparator(open))
      else
        var id := input[open + 1..colon];
        BlockEndInside(input, open, colon + 1, id);
        match BlockEnd(input, open, colon + 1, id)
        case None => Stop(if id == TEXT_ID then UnclosedTextBlock(open) else UnclosedBlock(open))
        case Some(close) =>
          if close - open + 1 > limits.blockBytes then Stop(LimitExceeded(BlockBytes, limits.blockBytes, close - open + 1))
          else
            Found(Block(BlockIdOf(id), input[open..close + 1],
                        input[colon + 1..ContentEnd(input, colon + 1, close, id)], colon + 1),
                  close + 1)
  }

  /** The blocks from `offset` on, and the reason for stopping early if any. */
  function BlocksFrom(input: Bytes, offset: nat, limits: Limits): (seq<Block>, seq<Diagnostic>)
    requires offset <= |input|
    decreases |input| - offset
  {
    var open := IndexOf(input, OPEN_BRACE, offset);
    if open == |input| then ([], [])
    else match StepAt(input, open, limits)
      case Stop(d) => ([], [d])
      case Found(block, next) =>
        var rest := BlocksFrom(input, next, limits);
        ([block] + rest.0, rest.1)
  }

  /** Reads the block at `open`, or reports why there is none. */
  method ReadBlock(input: Bytes, open: nat, limits: Limits) returns (s: Step)
    requires open < |input| && input[open] == OPEN_BRACE
    ensures s == StepAt(input, open, limits)
  {
    hide BlockEnd, ContentEnd, IndexOf, ClosesAt, BlockIdOf;
    if open + 3 > |input| {
      return Stop(UnclosedBlock(open));
    }
    var colon := HeaderEnd(input, open);
    if colon == |input| {
      return Stop(MissingBlockSeparator(open));
    }
    if IndexOf(input, CLOSE_BRACE, open + 1) < colon {
      return Stop(MissingBlockSeparator(open));
    }
    var id := input[open + 1..colon];
    BlockEndInside(input, open, colon + 1, id);
    var closing := FindBlockClose(input, open, colon + 1, id);
    if closing.None? {
      return Stop(if id == TEXT_ID then UnclosedTextBlock(open) else UnclosedBlock(open));
    }
    var close := closing.value;
    var observed := close - open + 1;
    if observed > limits.blockBytes {
      return Stop(LimitExceeded(BlockBytes, limits.blockBytes, observed));
    }
    return Found(Block(BlockIdOf(id), input[open..close + 1],
                       input[colon + 1..ContentEnd(input, colon + 1, close, id)], colon + 1),
                 close + 1);
  }

  method ParseBlocks(input: Bytes, ds: seq<Diagnostic>, limits: Limits) returns (blocks: seq<Block>, diagnostics: seq<Diagnostic>)
    ensures var r := BlocksFrom(input, 0, limits); blocks == r.0 && diagnostics == ds + r.1
  {
    blocks, diagnostics := [], ds;
    var offset := 0;
    ghost var all := BlocksFrom(input, 0, limits);
    while offset < |input|
      invariant offset <= |input|
      invariant diagnostics == ds
      invariant all.0 == blocks + BlocksFrom(input, offset, limits).0 && all.1 == BlocksFrom(input, offset, limits).1
      decreases |input| - offset
    {
      var open := IndexOf(input, OPEN_BRACE, offset);
      if open == |input| {
        break;
      }
      var step := ReadBlock(input, open, limits);
      match step {
        case Stop(d) =>
          diagnostics := diagnostics + [d];
          return;
        case Found(block, next) =>
          ghost var rest := BlocksFrom(input, next, limits);
          assert blocks + ([block] + rest.0) == (blocks + [block]) + rest.0;
          blocks := blocks + [block];
          offset := next;
      }
    }
  }
}
