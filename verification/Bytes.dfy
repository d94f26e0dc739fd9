/** Octets, and the ASCII classes the parser distinguishes. */
module Bytes {
  import Trimming

  datatype Option<+T> = None | Some(value: T)

  function OrElse<T>(a: Option<T>, b: Option<T>): Option<T> {
    if a.Some? then a else b
  }

  newtype byte = b: int | 0 <= b < 0x100
  type Bytes = seq<byte>

  const LF: byte := 0x0A
  const CR: byte := 0x0D
  const SOH: byte := 0x01
  const ETX: byte := 0x03
  const DOLLAR: byte := 0x24
  const HYPHEN: byte := 0x2D
  const SLASH: byte := 0x2F
  const COLON: byte := 0x3A
  const OPEN_BRACE: byte := 0x7B
  const CLOSE_BRACE: byte := 0x7D

  /** Space, tab, line feed, form feed and carriage return. */
  predicate IsWhitespace(b: byte) {
    b == 0x20 || b == 0x09 || b == LF || b == 0x0C || b == CR
  }

  predicate IsDigit(b: byte) {
    0x30 <= b <= 0x39
  }

  predicate IsAlphanumeric(b: byte) {
    IsDigit(b) || 0x41 <= b <= 0x5A || 0x61 <= b <= 0x7A
  }

  const DIGITS := "0123456789"
  const CAPITALS := "ABCDEFGHIJKLMNOPQRSTUVWXYZ"
  const SMALL_LETTERS := "abcdefghijklmnopqrstuvwxyz"

  lemma DigitIff(c: char)
    ensures '0' <= c <= '9' <==> c in DIGITS
  {
    assert '0' <= c <= '9' ==> c == DIGITS[(c - '0') as int];
  }

  lemma CapitalIff(c: char)
    ensures 'A' <= c <= 'Z' <==> c in CAPITALS
  {
    assert 'A' <= c <= 'Z' ==> c == CAPITALS[(c - 'A') as int];
  }

  lemma SmallLetterIff(c: char)
    ensures 'a' <= c <= 'z' <==> c in SMALL_LETTERS
  {
    assert 'a' <= c <= 'z' ==> c == SMALL_LETTERS[(c - 'a') as int];
  }

  /** The classes, character by character. */
  lemma AsciiClasses(b: byte)
    ensures IsDigit(b) <==> (b as int) as char in DIGITS
    ensures IsAlphanumeric(b) <==> var c := (b as int) as char; c in DIGITS || c in CAPITALS || c in SMALL_LETTERS
    ensures IsWhitespace(b) <==> (b as int) as char in " \t\n\U{0C}\r"
  {
    var c := (b as int) as char;
    DigitIff(c);
    CapitalIff(c);
    SmallLetterIff(c);
    hide DIGITS, CAPITALS, SMALL_LETTERS;
  }

  /** Index of the first `b` at or after `from`, or `|s|` when there is none. */
  function IndexOf(s: Bytes, b: byte, from: nat): (i: nat)
    requires from <= |s|
    ensures from <= i <= |s|
    ensures i < |s| ==> s[i] == b
    ensures forall k :: from <= k < i ==> s[k] != b
    decreases |s| - from
  {
    if from == |s| || s[from] == b then from else IndexOf(s, b, from + 1)
  }

  function Trim(v: Bytes): Bytes {
    Trimming.Trim(v, IsWhitespace)
  }

  /** Neither end is whitespace. */
  predicate Trimmed(v: Bytes) {
    Trimming.Trimmed(v, IsWhitespace)
  }

  /** The two slice-shrinking loops of the original trim. */
  method TrimAscii(v: Bytes) returns (r: Bytes)
    ensures r == Trim(v)
  {
    r := v;
    while r != [] && IsWhitespace(r[0])
      invariant Trimming.TrimStart(r, IsWhitespace) == Trimming.TrimStart(v, IsWhitespace)
    {
      r := r[1..];
    }
    ghost var s := r;
    while r != [] && IsWhitespace(r[|r| - 1])
      invariant Trimming.TrimEnd(r, IsWhitespace) == Trimming.TrimEnd(s, IsWhitespace)
    {
      r := r[..|r| - 1];
    }
  }
}
