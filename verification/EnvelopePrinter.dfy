/** Printing an envelope and reading it back. */
module EnvelopePrinter {
  import opened Bytes
  import opened TextScanner
  import opened Envelope

  /** A block as written: bytes before its brace, its id and its content. */
  datatype Piece = Piece(gap: Bytes, id: Bytes, content: Bytes)

  ghost predicate Without(s: Bytes, b: byte) {
    forall k :: 0 <= k < |s| ==> s[k] != b
  }

  /** Braces in `s` match, and none closes before it opens. */
  ghost predicate Balanced(s: Bytes) {
    Balance(s) == 0 && forall k :: 0 <= k <= |s| ==> Balance(s[..k]) >= 0
  }

  ghost predicate NoTextEnd(s: Bytes) {
    forall k :: 0 <= k < |s| - 1 ==> !(s[k] == HYPHEN && s[k + 1] == CLOSE_BRACE)
  }

  ghost predicate PieceOk(p: Piece, limits: Limits) {
    && Without(p.gap, OPEN_BRACE)
    && Without(p.id, OPEN_BRACE) && Without(p.id, CLOSE_BRACE) && Without(p.id, COLON)
    && (if p.id == TEXT_ID then NoTextEnd(p.content) else Balanced(p.content))
    && |PrintPiece(p)| <= limits.blockBytes
  }

  function Closing(id: Bytes): Bytes {
    if id == TEXT_ID then [HYPHEN, CLOSE_BRACE] else [CLOSE_BRACE]
  }

  function PrintPiece(p: Piece): Bytes {
    [OPEN_BRACE] + p.id + [COLON] + p.content + Closing(p.id)
  }

  function PrintPieces(ps: seq<Piece>, tail: Bytes): Bytes {
    if ps == [] then tail else ps[0].gap + (PrintPiece(ps[0]) + PrintPieces(ps[1..], tail))
  }

  /** The blocks the printed pieces stand for, from offset `at` on. */
  function BlocksOf(ps: seq<Piece>, at: nat): seq<Block> {
    if ps == [] then []
    else
      var open := at + |ps[0].gap|;
      [BlockOf(ps[0], open)] + BlocksOf(ps[1..], open + |PrintPiece(ps[0])|)
  }

  /** `s` occupies the input from `at` on. */
  ghost predicate Holds(input: Bytes, at: nat, s: Bytes) {
    at + |s| <= |input| && forall k :: at <= k < at + |s| ==> input[k] == s[k - at]
  }

  /** The header, content and closing of a printed block, each in its place. */
  lemma PieceParts(input: Bytes, open: nat, p: Piece)
    requires Holds(input, open, PrintPiece(p))
    ensures var start := open + 2 + |p.id|;
      && Holds(input, open, [OPEN_BRACE]) && Holds(input, open + 1, p.id) && Holds(input, open + 1 + |p.id|, [COLON])
      && Holds(input, start, p.content) && Holds(input, start + |p.content|, Closing(p.id))
      && Holds(input, start, p.content + Closing(p.id))
  {}

  lemma {:induction false} BalanceAdd(a: Bytes, b: Bytes)
    ensures Balance(a + b) == Balance(a) + Balance(b)
  {
    if b == [] {
      assert a + b == a;
    } else {
      BalanceAdd(a, b[..|b| - 1]);
      assert (a + b)[..|a + b| - 1] == a + b[..|b| - 1];
    }
  }

  lemma {:induction false} BalanceOfPlain(s: Bytes)
    requires Without(s, OPEN_BRACE) && Without(s, CLOSE_BRACE)
    ensures Balance(s) == 0
  {
    if s != [] {
      BalanceOfPlain(s[..|s| - 1]);
    }
  }

  /** Every proper, non-empty prefix of a printed block leaves a brace open. */
  lemma PrefixesOpen(id: Bytes, content: Bytes, k: nat)
    requires Without(id, OPEN_BRACE) && Without(id, CLOSE_BRACE) && Balanced(content)
    requires 0 < k <= 2 + |id| + |content|
    ensures var s := [OPEN_BRACE] + (id + [COLON]) + content; Balance(s[..k]) > 0
  {
    var plain := id + [COLON];
    var s := [OPEN_BRACE] + plain + content;
    assert Balance([OPEN_BRACE]) == 1 by { assert [OPEN_BRACE][..0] == []; }
    if k <= 1 + |plain| {
      assert s[..k] == [OPEN_BRACE] + plain[..k - 1];
      BalanceAdd([OPEN_BRACE], plain[..k - 1]);
      BalanceOfPlain(plain[..k - 1]);
    } else {
      var c := content[..k - 1 - |plain|];
      assert s[..k] == [OPEN_BRACE] + plain + c;
      BalanceAdd([OPEN_BRACE] + plain, c);
      BalanceAdd([OPEN_BRACE], plain);
      BalanceOfPlain(plain);
    }
  }

  /** A printed block with balanced content closes at its last byte. */
  lemma PieceCloses(input: Bytes, open: nat, p: Piece)
    requires Holds(input, open, PrintPiece(p)) && p.id != TEXT_ID && Balanced(p.content)
    requires Without(p.id, OPEN_BRACE) && Without(p.id, CLOSE_BRACE)
    ensures ClosesAt(input, open, open + |PrintPiece(p)| - 1)
  {
    var whole := PrintPiece(p);
    var s := [OPEN_BRACE] + (p.id + [COLON]) + p.content;
    assert whole == s + [CLOSE_BRACE];
    var c := open + |s|;
    forall k | open < k <= c ensures Balance(input[open..k]) > 0 {
      assert input[open..k] == input[open..open + |whole|][..k - open] == s[..k - open];
      PrefixesOpen(p.id, p.content, k - open);
    }
    assert input[open..c + 1] == whole;
    WholeIsBalanced(p, s);
  }

  lemma WholeIsBalanced(p: Piece, s: Bytes)
    requires s == [OPEN_BRACE] + (p.id + [COLON]) + p.content && Balance(p.content) == 0
    requires Without(p.id, OPEN_BRACE) && Without(p.id, CLOSE_BRACE)
    ensures Balance(s + [CLOSE_BRACE]) == 0
  {
    var plain := p.id + [COLON];
    BalanceAdd(s, [CLOSE_BRACE]);
    BalanceAdd([OPEN_BRACE] + plain, p.content);
    BalanceAdd([OPEN_BRACE], plain);
    BalanceOfPlain(plain);
    assert [OPEN_BRACE][..0] == [] && [CLOSE_BRACE][..0] == [];
  }

  /** The first `-}` after text content without one is the closing one. */
  lemma TextCloses(input: Bytes, start: nat, content: Bytes)
    requires Holds(input, start, content + [HYPHEN, CLOSE_BRACE]) && NoTextEnd(content)
    ensures TextEnd(input, start) == start + |content|
  {
    var s := content + [HYPHEN, CLOSE_BRACE];
    var e := start + |content|;
    assert input[e] == s[|content|] && input[e + 1] == s[|content| + 1];
    forall k | start <= k < e ensures !(input[k] == HYPHEN && input[k + 1] == CLOSE_BRACE) {
      assert input[k] == s[k - start] && input[k + 1] == s[k + 1 - start];
    }
    var i := TextEnd(input, start);
    assert i <= e;
  }

  lemma PieceEnds(input: Bytes, open: nat, p: Piece, limits: Limits)
    requires Holds(input, open, PrintPiece(p)) && PieceOk(p, limits)
    requires input[open] == OPEN_BRACE
    ensures BlockEnd(input, open, open + 2 + |p.id|, p.id) == Some(open + |PrintPiece(p)| - 1)
  {
    var start := open + 2 + |p.id|;
    if p.id == TEXT_ID {
      PieceParts(input, open, p);
      TextCloses(input, start, p.content);
    } else {
      PieceCloses(input, open, p);
      assert input[open..open] == [];
      BraceEndCloses(input, open, open, 0);
    }
  }

  /** The header of a printed block: no brace before the colon that ends its id. */
  lemma PieceHeader(input: Bytes, open: nat, p: Piece, limits: Limits)
    requires Holds(input, open, PrintPiece(p)) && PieceOk(p, limits)
    ensures var colon := open + 1 + |p.id|;
      && colon + 1 <= |input| && input[open] == OPEN_BRACE
      && HeaderEnd(input, open) == colon && input[open + 1..colon] == p.id
      && IndexOf(input, CLOSE_BRACE, open + 1) > colon
  {
    var colon := open + 1 + |p.id|;
    PieceParts(input, open, p);
    assert input[open] == [OPEN_BRACE][0] && input[colon] == [COLON][0];
    assert forall k :: open + 1 <= k < colon ==> input[k] == p.id[k - open - 1];
  }

  lemma PieceContent(input: Bytes, open: nat, p: Piece)
    requires Holds(input, open, PrintPiece(p))
    ensures var start := open + 2 + |p.id|; var close := open + |PrintPiece(p)| - 1;
      && start <= close < |input|
      && input[start..ContentEnd(input, start, close, p.id)] == p.content
      && input[open..close + 1] == PrintPiece(p)
  {}

  lemma PieceReadBack(input: Bytes, open: nat, p: Piece, limits: Limits)
    requires Holds(input, open, PrintPiece(p)) && PieceOk(p, limits)
    ensures input[open] == OPEN_BRACE
    ensures StepAt(input, open, limits)
         == Found(BlockOf(p, open), open + |PrintPiece(p)|)
  {
    hide Holds, Balanced, NoTextEnd, Without;
    PieceHeader(input, open, p, limits);
    PieceEnds(input, open, p, limits);
    PieceContent(input, open, p);
  }

  /** The first piece: where it opens, and what follows it. */
  lemma FirstPiece(input: Bytes, at: nat, p: Piece, rest: Bytes)
    requires Holds(input, at, p.gap + (PrintPiece(p) + rest)) && Without(p.gap, OPEN_BRACE)
    ensures var open := at + |p.gap|;
      && Holds(input, open, PrintPiece(p)) && Holds(input, open + |PrintPiece(p)|, rest)
      && IndexOf(input, OPEN_BRACE, at) == open
  {
    var open := at + |p.gap|;
    assert forall k :: at <= k < open ==> input[k] == p.gap[k - at];
    assert input[open] == PrintPiece(p)[0];
  }

  /** The block has this id: the digits 1 to 5 have names of their own. */
  predicate StandsFor(b: BlockId, id: Bytes) {
    match b
    case BasicHeader => id == [0x31]
    case ApplicationHeader => id == [0x32]
    case UserHeader => id == [0x33]
    case Text => id == [0x34]
    case Trailer => id == [0x35]
    case Other(other) => id == other && !(|id| == 1 && 0x31 <= id[0] <= 0x35)
  }

  lemma StandsForIff(b: BlockId, id: Bytes)
    ensures StandsFor(b, id) <==> BlockIdOf(id) == b
  {
    assert |id| == 1 ==> id == [id[0]];
  }

  function BlockOf(p: Piece, open: nat): Block {
    Block(BlockIdOf(p.id), PrintPiece(p), p.content, open + 2 + |p.id|)
  }

  /** Reading from `at` reads the first piece and goes on behind it. */
  lemma ReadFirstPiece(input: Bytes, at: nat, p: Piece, rest: Bytes, limits: Limits)
    requires Holds(input, at, p.gap + (PrintPiece(p) + rest)) && PieceOk(p, limits)
    ensures var open := at + |p.gap|; var next := open + |PrintPiece(p)|;
      && Holds(input, next, rest)
      && BlocksFrom(input, at, limits)
         == ([BlockOf(p, open)] + BlocksFrom(input, next, limits).0, BlocksFrom(input, next, limits).1)
  {
    hide Holds, StepAt, PrintPiece;
    FirstPiece(input, at, p, rest);
    PieceReadBack(input, at + |p.gap|, p, limits);
  }

  lemma NoMoreBlocks(input: Bytes, at: nat, tail: Bytes, limits: Limits)
    requires Holds(input, at, tail) && at + |tail| == |input| && Without(tail, OPEN_BRACE)
    ensures BlocksFrom(input, at, limits) == ([], [])
  {}

  lemma {:induction false} BlocksReadBackFrom(input: Bytes, at: nat, ps: seq<Piece>, tail: Bytes, limits: Limits)
    requires Holds(input, at, PrintPieces(ps, tail)) && at + |PrintPieces(ps, tail)| == |input|
    requires Without(tail, OPEN_BRACE) && forall k :: 0 <= k < |ps| ==> PieceOk(ps[k], limits)
    ensures BlocksFrom(input, at, limits) == (BlocksOf(ps, at), [])
    decreases |ps|
  {
    hide Holds, BlocksFrom, PrintPiece;
    if ps == [] {
      NoMoreBlocks(input, at, tail, limits);
    } else {
      var p, rest := ps[0], PrintPieces(ps[1..], tail);
      ReadFirstPiece(input, at, p, rest, limits);
      BlocksReadBackFrom(input, at + |p.gap| + |PrintPiece(p)|, ps[1..], tail, limits);
    }
  }

  /** Reading a printed envelope gives its blocks and reports nothing. */
  lemma BlocksReadBack(ps: seq<Piece>, tail: Bytes, limits: Limits)
    requires Without(tail, OPEN_BRACE) && forall k :: 0 <= k < |ps| ==> PieceOk(ps[k], limits)
    ensures BlocksFrom(PrintPieces(ps, tail), 0, limits) == (BlocksOf(ps, 0), [])
  {
    BlocksReadBackFrom(PrintPieces(ps, tail), 0, ps, tail, limits);
  }
}
