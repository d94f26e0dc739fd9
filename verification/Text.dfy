/** ASCII text: blanks, letter case, and the order in which ordered maps keep their keys. */
module Text {
  import opened Bytes
  import Trimming

  predicate IsBlank(c: char) {
    c == ' ' || '\t' <= c <= '\r'
  }

  /** Blank, tab, line feed, vertical tab, form feed and carriage return. */
  lemma BlankIff(c: char)
    ensures IsBlank(c) <==> c in " \t\n\U{0B}\U{0C}\r"
  {}

  predicate IsDigitChar(c: char) {
    '0' <= c <= '9'
  }

  predicate AllDigits(s: string) {
    forall k :: 0 <= k < |s| ==> IsDigitChar(s[k])
  }

  function Strip(s: string): string {
    Trimming.Trim(s, IsBlank)
  }

  function UpperChar(c: char): char {
    if 'a' <= c <= 'z' then c - 'a' + 'A' else c
  }

  function Upper(s: string): string {
    seq(|s|, i requires 0 <= i < |s| => UpperChar(s[i]))
  }

  /** `c` does not occur. */
  predicate Lacks(s: string, c: char) {
    forall k :: 0 <= k < |s| ==> s[k] != c
  }

  ghost predicate Distinct(keys: seq<string>) {
    forall i, j :: 0 <= i < j < |keys| ==> keys[i] != keys[j]
  }

  /** Lexicographic order. */
  predicate Less(a: string, b: string) {
    b != "" && (a == "" || a[0] < b[0] || (a[0] == b[0] && Less(a[1..], b[1..])))
  }

  lemma {:induction false} LessIsStrict(a: string, b: string)
    ensures !(Less(a, b) && Less(b, a))
    ensures a != b ==> Less(a, b) || Less(b, a)
  {
    if a != "" && b != "" && a[0] == b[0] {
      LessIsStrict(a[1..], b[1..]);
      assert a == [a[0]] + a[1..] && b == [b[0]] + b[1..];
    }
  }

  lemma {:induction false} LessIsTransitive(a: string, b: string, c: string)
    requires Less(a, b) && Less(b, c)
    ensures Less(a, c)
  {
    if a != "" && a[0] == b[0] == c[0] {
      LessIsTransitive(a[1..], b[1..], c[1..]);
    }
  }

  /** `k` comes before every other key. */
  predicate IsLeast(k: string, keys: set<string>) {
    k in keys && forall other :: other in keys ==> other == k || Less(k, other)
  }

  lemma {:induction false} LeastExists(keys: set<string>)
    requires keys != {}
    ensures exists k :: IsLeast(k, keys)
  {
    var x :| x in keys;
    var rest := keys - {x};
    assert keys == rest + {x};
    if rest == {} {
      assert IsLeast(x, keys);
    } else {
      LeastExists(rest);
      var y :| IsLeast(y, rest);
      var k := if Less(x, y) then x else y;
      LessIsStrict(x, y);
      forall other | other in keys
        ensures other == k || Less(k, other)
      {
        if k == x && other != x && other != y {
          LessIsTransitive(x, y, other);
        }
      }
      assert IsLeast(k, keys);
    }
  }

  lemma LeastIsUnique(keys: set<string>)
    ensures forall x, y :: IsLeast(x, keys) && IsLeast(y, keys) ==> x == y
  {
    forall x, y | IsLeast(x, keys) && IsLeast(y, keys)
      ensures x == y
    {
      LessIsStrict(x, y);
    }
  }

  /** The first of some keys of an ordered map, if any. */
  function Least(keys: set<string>): (r: Option<string>)
    ensures r.None? <==> keys == {}
    ensures r.Some? ==> IsLeast(r.value, keys)
  {
    if keys == {} then None
    else
      LeastExists(keys);
      LeastIsUnique(keys);
      var k :| IsLeast(k, keys);
      Some(k)
  }

  ghost predicate Increasing(s: seq<string>) {
    forall i, j :: 0 <= i < j < |s| ==> Less(s[i], s[j])
  }

  /** The keys of an ordered map, in iteration order. */
  ghost function InOrder(keys: set<string>): seq<string>
  {
    if keys == {} then []
    else
      LeastExists(keys);
      var k :| IsLeast(k, keys);
      [k] + InOrder(keys - {k})
  }

  lemma {:induction false} InOrderIsOrdered(keys: set<string>)
    ensures Increasing(InOrder(keys))
    ensures forall k :: k in InOrder(keys) <==> k in keys
  {
    if keys != {} {
      var s := InOrder(keys);
      var k := s[0];
      LeastExists(keys);
      assert IsLeast(k, keys) && s == [k] + InOrder(keys - {k});
      InOrderIsOrdered(keys - {k});
      forall i, j | 0 <= i < j < |s|
        ensures Less(s[i], s[j])
      {
        assert s[j] in keys - {k};
      }
    }
  }

  /** The next key of an ordered map is the one that comes first. */
  lemma InOrderStep(k: string, keys: set<string>)
    requires IsLeast(k, keys)
    ensures InOrder(keys) == [k] + InOrder(keys - {k})
  {
    LeastExists(keys);
    var k' := InOrder(keys)[0];
    assert IsLeast(k', keys);
    LessIsStrict(k, k');
  }
}
