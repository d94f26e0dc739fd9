/** A whole FIN message: envelope, text block, fields. */
module Message {
  import opened Bytes
  import opened Sequences
  import opened Nesting
  import opened TextScanner
  import opened ScanTheorems
  import opened TextParser
  import opened Envelope
  import opened EnvelopePrinter
  import opened FieldPrinter
  import opened Trees

  datatype Parsed = Parsed(blocks: seq<Block>, fields: seq<Field>, diagnostics: seq<Diagnostic>)

  /** Position of the first text block, or the number of blocks. */
  function TextBlock(blocks: seq<Block>): (i: nat)
    ensures i <= |blocks|
    ensures i < |blocks| ==> blocks[i].id == Text
    ensures forall k :: 0 <= k < i ==> blocks[k].id != Text
  {
    if blocks == [] || blocks[0].id == Text then 0 else 1 + TextBlock(blocks[1..])
  }

  function ParseMessage(input: Bytes, limits: Limits, anchored: seq<AnchoredSequence>): Parsed {
    if |input| > limits.totalBytes then
      Parsed([], [], [LimitExceeded(TotalBytes, limits.totalBytes, |input|)])
    else
      var (blocks, ds) := BlocksFrom(input, 0, limits);
      var i := TextBlock(blocks);
      if i == |blocks| then Parsed(blocks, [], ds)
      else
        var (fields, all) := ParseText(blocks[i].content, ds, limits, blocks[i].start, anchored);
        Parsed(blocks, fields, all)
  }

  method Parse(input: Bytes, limits: Limits, anchored: seq<AnchoredSequence>) returns (p: Parsed)
    ensures p == ParseMessage(input, limits, anchored)
  {
    hide BlocksFrom, ParseText;
    var diagnostics := [];
    if |input| > limits.totalBytes {
      diagnostics := diagnostics + [LimitExceeded(TotalBytes, limits.totalBytes, |input|)];
      return Parsed([], [], diagnostics);
    }
    var blocks;
    blocks, diagnostics := ParseBlocks(input, diagnostics, limits);
    assert [] + BlocksFrom(input, 0, limits).1 == BlocksFrom(input, 0, limits).1;
    var fields := [];
    var i := TextBlock(blocks);
    if i < |blocks| {
      fields, diagnostics := ParseTextFields(blocks[i].content, diagnostics, limits, blocks[i].start, anchored);
    }
    return Parsed(blocks, fields, diagnostics);
  }

  lemma {:induction false} BlocksOfAt(ps: seq<Piece>, at: nat, k: nat)
    requires k < |ps|
    ensures |BlocksOf(ps, at)| == |ps|
    ensures var b := BlocksOf(ps, at)[k];
      StandsFor(b.id, ps[k].id) && b.raw == PrintPiece(ps[k]) && b.content == ps[k].content
  {
    StandsForIff(BlockIdOf(ps[k].id), ps[k].id);
    var next := at + |ps[0].gap| + |PrintPiece(ps[0])|;
    if k > 0 {
      BlocksOfAt(ps[1..], next, k - 1);
    } else if |ps| > 1 {
      BlocksOfAt(ps[1..], next, 0);
    }
  }

  /** The first printed piece with id 4 becomes the text block. */
  lemma TextPiece(ps: seq<Piece>, t: nat)
    requires t < |ps| && ps[t].id == TEXT_ID && forall k :: 0 <= k < t ==> ps[k].id != TEXT_ID
    ensures var bs := BlocksOf(ps, 0); TextBlock(bs) == t < |bs| && bs[t].content == ps[t].content
  {
    forall k | 0 <= k <= t
      ensures |BlocksOf(ps, 0)| == |ps|
      ensures StandsFor(BlocksOf(ps, 0)[k].id, ps[k].id) && BlocksOf(ps, 0)[k].content == ps[k].content
    {
      BlocksOfAt(ps, 0, k);
    }
    assert BlocksOf(ps, 0)[t].id == Text;
    assert forall k :: 0 <= k < t ==> BlocksOf(ps, 0)[k].id != Text;
  }

  /** A printable message: pieces of an envelope, the first block 4 among them holding a tree of fields. */
  ghost predicate PrintableMessage(ps: seq<Piece>, tail: Bytes, t: nat, lead: Bytes, tree: Tree, eol: Bytes, limits: Limits) {
    && Without(tail, OPEN_BRACE) && (forall k :: 0 <= k < |ps| ==> PieceOk(ps[k], limits))
    && |PrintPieces(ps, tail)| <= limits.totalBytes
    && t < |ps| && ps[t].id == TEXT_ID && (forall k :: 0 <= k < t ==> ps[k].id != TEXT_ID)
    && ps[t].content == PrintText(lead, Flatten(tree), eol)
    && IsLineEnding(eol) && (lead == [] || IsLineEnding(lead))
    && AllPrintable(Flatten(tree)) && |Flatten(tree)| <= limits.fields
    && WellFormed(tree) && Depth(tree) <= limits.sequenceDepth
  }

  /**
   * Parsing undoes printing: a block for each piece, named after its id, with its text
   * and content; the fields with the paths of the tree; and no reports.
   */
  lemma MessageReadsBack(ps: seq<Piece>, tail: Bytes, t: nat, lead: Bytes, tree: Tree, eol: Bytes, limits: Limits)
    requires PrintableMessage(ps, tail, t, lead, tree, eol, limits)
    ensures ParseMessage(PrintPieces(ps, tail), limits, [])
         == Parsed(BlocksOf(ps, 0), Expected(tree, [], []), [])
    ensures |BlocksOf(ps, 0)| == |ps|
    ensures forall k :: 0 <= k < |ps| ==>
      var b := BlocksOf(ps, 0)[k]; StandsFor(b.id, ps[k].id) && b.raw == PrintPiece(ps[k]) && b.content == ps[k].content
  {
    hide PieceOk, PrintPieces, PrintText, BlocksFrom, ParseText, Expected, Flatten, Run, Diagnose, BlocksOf;
    BlocksReadBack(ps, tail, limits);
    TextPiece(ps, t);
    forall k | 0 <= k < |ps|
      ensures |BlocksOf(ps, 0)| == |ps|
      ensures var b := BlocksOf(ps, 0)[k]; StandsFor(b.id, ps[k].id) && b.raw == PrintPiece(ps[k]) && b.content == ps[k].content
    {
      BlocksOfAt(ps, 0, k);
    }
    var b := BlocksOf(ps, 0)[t];
    TextReadsBack(lead, Flatten(tree), eol, limits, b.start, []);
    TreeReadsBack(tree, limits.sequenceDepth);
  }
}
