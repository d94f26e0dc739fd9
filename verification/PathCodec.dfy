/** Sequence paths as text: `A[0]/B[1]`, printed by the row writer and split again by the normaliser. */
module PathCodec {
  import opened Bytes
  import opened Text

  /** A frame with its name decoded to text. */
  datatype TextFrame = TextFrame(name: string, occurrence: nat)

  function Digit(d: nat): char
    requires d < 10
  {
    "0123456789"[d]
  }

  function Decimal(n: nat): (s: string)
    ensures s != ""
    ensures forall k :: 0 <= k < |s| ==> '0' <= s[k] <= '9'
  {
    if n < 10 then [Digit(n)] else Decimal(n / 10) + [Digit(n % 10)]
  }

  lemma {:induction false} DecimalInjective(m: nat, n: nat)
    requires Decimal(m) == Decimal(n)
    ensures m == n
  {
    var s := Decimal(m);
    assert s[|s| - 1] == Digit(m % 10) == Digit(n % 10);
    assert m % 10 == n % 10;
    if m >= 10 && n >= 10 {
      assert Decimal(m / 10) == s[..|s| - 1] == Decimal(n / 10);
      DecimalInjective(m / 10, n / 10);
    }
  }

  function PrintFrame(f: TextFrame): string {
    f.name + ("[" + (Decimal(f.occurrence) + "]"))
  }

  /** Frames joined by slashes. */
  function PrintPath(path: seq<TextFrame>): string
    requires path != []
  {
    if |path| == 1 then PrintFrame(path[0]) else PrintFrame(path[0]) + ("/" + PrintPath(path[1..]))
  }

  /** The stored text of a path; root scope is `$`. */
  function PathText(path: seq<TextFrame>): string {
    if path == [] then "$" else PrintPath(path)
  }

  /** Position of the first slash, or the length. */
  function Slash(s: string): (i: nat)
    ensures i <= |s| && (i < |s| ==> s[i] == '/')
    ensures forall k :: 0 <= k < i ==> s[k] != '/'
  {
    if s == "" || s[0] == '/' then 0 else 1 + Slash(s[1..])
  }

  function Split(s: string): (parts: seq<string>)
    ensures parts != []
    decreases |s|
  {
    var i := Slash(s);
    if i == |s| then [s] else [s[..i]] + Split(s[i + 1..])
  }

  function PathSegments(path: string): seq<string> {
    if path == "" || path == "$" then [] else Split(path)
  }

  /** Position of the last `c`, if any. */
  function LastIndex(s: string, c: char): (i: Option<nat>)
    ensures i.Some? ==> i.value < |s| && s[i.value] == c && forall k :: i.value < k < |s| ==> s[k] != c
    ensures i.None? ==> forall k :: 0 <= k < |s| ==> s[k] != c
  {
    if s == "" then None
    else if s[|s| - 1] == c then Some(|s| - 1)
    else LastIndex(s[..|s| - 1], c)
  }

  /** The text between the last brackets. */
  function SegmentOccurrence(segment: string): Option<string> {
    var start := LastIndex(segment, '[');
    var end := LastIndex(segment, ']');
    if start.None? || end.None? || end.value <= start.value then None
    else Some(segment[start.value + 1..end.value])
  }

  ghost predicate Plain(path: seq<TextFrame>) {
    forall k :: 0 <= k < |path| ==> Lacks(path[k].name, '/')
  }

  /** Where the last brackets of a printed frame are. */
  lemma FrameBrackets(f: TextFrame)
    ensures var s := PrintFrame(f);
      && LastIndex(s, '[') == Some(|f.name|) && LastIndex(s, ']') == Some(|s| - 1)
      && s[..|f.name|] == f.name && s[|f.name| + 1..|s| - 1] == Decimal(f.occurrence)
  {
    hide Decimal;
    var s := PrintFrame(f);
    var d := Decimal(f.occurrence);
    var n := |f.name|;
    assert s[n] == '[' && s[|s| - 1] == ']';
    assert forall k :: n < k < |s| - 1 ==> s[k] == d[k - n - 1];
    assert s[n + 1..|s| - 1] == d;
  }

  /** A printed frame yields its occurrence back, for any name. */
  lemma OccurrenceReadsBack(f: TextFrame)
    ensures SegmentOccurrence(PrintFrame(f)) == Some(Decimal(f.occurrence))
  {
    FrameBrackets(f);
  }

  lemma FrameInjective(f: TextFrame, g: TextFrame)
    requires PrintFrame(f) == PrintFrame(g)
    ensures f == g
  {
    FrameBrackets(f);
    FrameBrackets(g);
    DecimalInjective(f.occurrence, g.occurrence);
  }

  lemma FrameHasNoSlash(f: TextFrame)
    requires Lacks(f.name, '/')
    ensures Lacks(PrintFrame(f), '/') && PrintFrame(f) != ""
  {}

  function Printed(path: seq<TextFrame>): seq<string> {
    seq(|path|, i requires 0 <= i < |path| => PrintFrame(path[i]))
  }

  lemma SplitAtSlash(head: string, rest: string)
    requires Lacks(head, '/')
    ensures Split(head + ("/" + rest)) == [head] + Split(rest)
  {
    var s := head + ("/" + rest);
    assert s[|head|] == '/' && forall k :: 0 <= k < |head| ==> s[k] == head[k];
    assert Slash(s) == |head|;
    assert s[..|head|] == head && s[|head| + 1..] == rest;
  }

  lemma SplitWithoutSlash(s: string)
    requires Lacks(s, '/')
    ensures Split(s) == [s]
  {}

  /** Splitting a printed path recovers its frames. */
  lemma {:induction false} SplitReadsBack(path: seq<TextFrame>)
    requires path != [] && Plain(path)
    ensures Split(PrintPath(path)) == Printed(path)
    decreases |path|
  {
    hide PrintFrame, Split, Lacks;
    var head := PrintFrame(path[0]);
    FrameHasNoSlash(path[0]);
    if |path| == 1 {
      SplitWithoutSlash(head);
    } else {
      SplitAtSlash(head, PrintPath(path[1..]));
      SplitReadsBack(path[1..]);
      assert Printed(path) == [head] + Printed(path[1..]);
    }
  }

  lemma {:induction false} PathEndsInBracket(path: seq<TextFrame>)
    requires path != []
    ensures |PrintPath(path)| >= 2 && PrintPath(path)[|PrintPath(path)| - 1] == ']'
    decreases |path|
  {
    if |path| > 1 {
      PathEndsInBracket(path[1..]);
    }
  }

  // ---- What slashes do ----

  function Slashes(s: string): nat {
    if s == "" then 0 else Slashes(s[..|s| - 1]) + (if s[|s| - 1] == '/' then 1 else 0)
  }

  lemma {:induction false} SlashesAdd(a: string, b: string)
    ensures Slashes(a + b) == Slashes(a) + Slashes(b)
  {
    if b == "" {
      assert a + b == a;
    } else {
      assert (a + b)[..|a + b| - 1] == a + b[..|b| - 1];
      SlashesAdd(a, b[..|b| - 1]);
    }
  }

  lemma {:induction false} SlashesZeroIff(s: string)
    ensures Slashes(s) == 0 <==> Lacks(s, '/')
  {
    if s != "" {
      SlashesZeroIff(s[..|s| - 1]);
    }
  }

  /** Every slash makes one more segment. */
  lemma {:induction false} SegmentsCounted(s: string)
    ensures |Split(s)| == Slashes(s) + 1
    decreases |s|
  {
    hide Lacks, Slashes;
    var i := Slash(s);
    BeforeSlash(s);
    SlashesZeroIff(s[..i]);
    if i < |s| {
      assert s == s[..i] + ("/" + s[i + 1..]);
      SlashesAdd(s[..i], "/" + s[i + 1..]);
      SlashesAdd("/", s[i + 1..]);
      OneSlash();
      SegmentsCounted(s[i + 1..]);
    } else {
      assert s[..i] == s;
    }
  }

  lemma BeforeSlash(s: string)
    ensures Lacks(s[..Slash(s)], '/')
  {}

  lemma FrameSlashes(f: TextFrame)
    ensures Slashes(PrintFrame(f)) == Slashes(f.name)
  {
    hide Slashes, Decimal;
    var tail := "[" + (Decimal(f.occurrence) + "]");
    assert Lacks(tail, '/');
    SlashesZeroIff(tail);
    SlashesAdd(f.name, tail);
  }

  lemma {:induction false} PathSlashes(path: seq<TextFrame>)
    requires path != []
    ensures Slashes(PrintPath(path)) >= |path| - 1
    ensures Slashes(PrintPath(path)) == |path| - 1 <==> Plain(path)
    decreases |path|
  {
    hide Slashes, PrintFrame, Lacks;
    FrameSlashes(path[0]);
    SlashesZeroIff(path[0].name);
    if |path| > 1 {
      var rest := PrintPath(path[1..]);
      PathSlashes(path[1..]);
      SlashesAdd(PrintFrame(path[0]), "/" + rest);
      SlashesAdd("/", rest);
      OneSlash();
      assert Plain(path) <==> Lacks(path[0].name, '/') && Plain(path[1..]);
    }
  }

  lemma OneSlash()
    ensures Slashes("/") == 1
  {
    assert "/"[..0] == "";
  }

  /** The segments of a stored path are its printed frames exactly when no name holds a slash; root scope has none. */
  lemma SegmentsReadBack(path: seq<TextFrame>)
    ensures PathSegments(PathText(path)) == Printed(path) <==> Plain(path)
  {
    hide PrintPath, Split, Printed, Plain;
    if path == [] {
      RootReadsBack();
    } else {
      PathEndsInBracket(path);
      if Plain(path) {
        SplitReadsBack(path);
      } else {
        SegmentsCounted(PrintPath(path));
        PathSlashes(path);
        PrintedLength(path);
      }
    }
  }

  lemma RootReadsBack()
    ensures Printed([]) == [] && Plain([])
  {}

  lemma PrintedLength(path: seq<TextFrame>)
    ensures |Printed(path)| == |path|
  {}

  // ---- When two paths have one text ----

  /** Two frames as one whose name holds the slash. */
  function Merged(a: TextFrame, b: TextFrame): TextFrame {
    TextFrame(PrintFrame(a) + ("/" + b.name), b.occurrence)
  }

  /** All frames of a path as one. */
  function MergedPath(path: seq<TextFrame>): TextFrame
    requires path != []
  {
    if |path| == 1 then path[0] else Merged(path[0], MergedPath(path[1..]))
  }

  /** A nested path and a root sequence with a slash in its name are stored alike. */
  lemma SlashesCollide(a: TextFrame, b: TextFrame)
    ensures PathText([Merged(a, b)]) == PathText([a, b])
  {
    assert [a, b][1..] == [b];
    MergedPrints(a, b);
    assert PrintPath([a, b]) == PrintFrame(a) + ("/" + PrintPath([b]));
  }

  lemma MergedPrints(a: TextFrame, b: TextFrame)
    ensures PrintFrame(Merged(a, b)) == PrintFrame(a) + ("/" + PrintFrame(b))
  {
    hide Decimal;
    var head, tail := PrintFrame(a), "[" + (Decimal(b.occurrence) + "]");
    assert head + ("/" + b.name) + tail == head + ("/" + (b.name + tail));
  }

  lemma {:induction false} MergedPathPrints(path: seq<TextFrame>)
    requires path != []
    ensures PrintFrame(MergedPath(path)) == PrintPath(path)
    decreases |path|
  {
    hide PrintFrame, Merged;
    if |path| > 1 {
      MergedPathPrints(path[1..]);
      MergedPrints(path[0], MergedPath(path[1..]));
    }
  }

  /** Two paths share a text exactly when merging their frames gives the same name and occurrence. */
  lemma TextsCollideIff(p: seq<TextFrame>, q: seq<TextFrame>)
    ensures PathText(p) == PathText(q) <==> (p == [] && q == []) || (p != [] && q != [] && MergedPath(p) == MergedPath(q))
  {
    hide PrintPath, PrintFrame, MergedPath;
    if p != [] {
      PathEndsInBracket(p);
      MergedPathPrints(p);
    }
    if q != [] {
      PathEndsInBracket(q);
      MergedPathPrints(q);
    }
    if p != [] && q != [] && PathText(p) == PathText(q) {
      FrameInjective(MergedPath(p), MergedPath(q));
    }
  }

  /** The name begins like a path: a printed frame, then a slash. */
  ghost predicate Nests(name: string) {
    exists a: TextFrame, b: string :: name == PrintFrame(a) + ("/" + b)
  }

  /** A root sequence is stored like some nested path exactly when its name begins like one. */
  lemma LooksNestedIff(f: TextFrame)
    ensures (exists q :: |q| > 1 && PathText(q) == PathText([f])) <==> Nests(f.name)
  {
    hide PrintFrame, PrintPath, PathText;
    if Nests(f.name) {
      var a: TextFrame, b: string :| f.name == PrintFrame(a) + ("/" + b);
      SlashesCollide(a, TextFrame(b, f.occurrence));
      var q := [a, TextFrame(b, f.occurrence)];
      assert |q| > 1 && PathText(q) == PathText([f]);
    }
    forall q | |q| > 1 && PathText(q) == PathText([f])
      ensures Nests(f.name)
    {
      TextsCollideIff(q, [f]);
    }
  }

  /** No name begins like a path; a slash alone does no harm. */
  ghost predicate Flat(path: seq<TextFrame>) {
    forall k :: 0 <= k < |path| ==> !Nests(path[k].name)
  }

  lemma PlainIsFlat(path: seq<TextFrame>)
    requires Plain(path)
    ensures Flat(path)
  {
    forall k | 0 <= k < |path|
      ensures !Nests(path[k].name)
    {
      NestsHasSlash(path[k].name);
    }
  }

  lemma NestsHasSlash(name: string)
    ensures Nests(name) ==> !Lacks(name, '/')
  {
    if Nests(name) {
      var a: TextFrame, b: string :| name == PrintFrame(a) + ("/" + b);
      assert name[|PrintFrame(a)|] == '/';
    }
  }

  /** A printed frame that continues with a slash inside another one makes the other's name nest. */
  lemma PrefixNests(f: TextFrame, g: TextFrame, x: string, y: string)
    requires PrintFrame(f) + ("/" + x) == PrintFrame(g) + y && |PrintFrame(f)| < |PrintFrame(g)|
    ensures Nests(g.name)
  {
    hide Decimal;
    var s, n := PrintFrame(f) + ("/" + x), |PrintFrame(f)|;
    var t := PrintFrame(g);
    assert s[n] == '/' && t[n] == s[n];
    assert forall k :: |g.name| < k < |t| - 1 ==> t[k] == Decimal(g.occurrence)[k - |g.name| - 1];
    assert n < |g.name|;
    assert g.name == t[..|g.name|] == s[..|g.name|];
    assert g.name[..n] == s[..n] == PrintFrame(f);
    assert g.name == PrintFrame(f) + ("/" + g.name[n + 1..]);
  }

  /** Different paths are stored as different texts, as long as no name begins like a path. */
  lemma {:induction false} PathTextInjective(p: seq<TextFrame>, q: seq<TextFrame>)
    requires Flat(p) && Flat(q)
    ensures PathText(p) == PathText(q) <==> p == q
    decreases |p|
  {
    hide PrintFrame, Nests;
    if PathText(p) == PathText(q) {
      TextsCollideIff(p, q);
      if p != [] {
        var s, t := PrintFrame(p[0]), PrintFrame(q[0]);
        if |s| < |t| {
          assert |p| > 1;
          PrefixNests(p[0], q[0], PrintPath(p[1..]), if |q| > 1 then "/" + PrintPath(q[1..]) else "");
        } else if |t| < |s| {
          assert |q| > 1;
          PrefixNests(q[0], p[0], PrintPath(q[1..]), if |p| > 1 then "/" + PrintPath(p[1..]) else "");
        } else {
          SameFirst(p, q);
          if |p| > 1 {
            PathTextInjective(p[1..], q[1..]);
          }
          assert p == [p[0]] + p[1..] && q == [q[0]] + q[1..];
        }
      }
    }
  }

  lemma SameFirst(p: seq<TextFrame>, q: seq<TextFrame>)
    requires p != [] && q != [] && PrintPath(p) == PrintPath(q) && |PrintFrame(p[0])| == |PrintFrame(q[0])|
    ensures p[0] == q[0]
    ensures |p| == 1 <==> |q| == 1
    ensures |p| > 1 ==> PrintPath(p[1..]) == PrintPath(q[1..])
  {
    hide PrintFrame;
    var s, n := PrintPath(p), |PrintFrame(p[0])|;
    assert s[..n] == PrintFrame(p[0]) && s[..n] == PrintFrame(q[0]);
    FrameInjective(p[0], q[0]);
    if |p| > 1 {
      assert s[n + 1..] == PrintPath(p[1..]);
    }
    if |q| > 1 {
      assert s[n + 1..] == PrintPath(q[1..]);
    }
  }
}
