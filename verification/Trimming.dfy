/** Cutting blank elements off both ends of a sequence. */
module Trimming {
  /** `v[i..j]` is what is left of `v` between its outer blanks. */
  ghost predicate TrimsTo<T>(v: seq<T>, blank: T -> bool, i: nat, j: nat) {
    && i <= j <= |v|
    && (forall k :: 0 <= k < i ==> blank(v[k]))
    && (forall k :: j <= k < |v| ==> blank(v[k]))
    && (i < j ==> !blank(v[i]) && !blank(v[j - 1]))
  }

  /** Neither end is blank. */
  predicate Trimmed<T>(v: seq<T>, blank: T -> bool) {
    |v| > 0 ==> !blank(v[0]) && !blank(v[|v| - 1])
  }

  function TrimStart<T>(v: seq<T>, blank: T -> bool): seq<T> {
    if |v| > 0 && blank(v[0]) then TrimStart(v[1..], blank) else v
  }

  function TrimEnd<T>(v: seq<T>, blank: T -> bool): seq<T> {
    if |v| > 0 && blank(v[|v| - 1]) then TrimEnd(v[..|v| - 1], blank) else v
  }

  function Trim<T>(v: seq<T>, blank: T -> bool): seq<T> {
    TrimEnd(TrimStart(v, blank), blank)
  }

  lemma {:induction false} TrimStartCut<T>(v: seq<T>, blank: T -> bool) returns (i: nat)
    ensures i <= |v| && TrimStart(v, blank) == v[i..]
    ensures forall k :: 0 <= k < i ==> blank(v[k])
    ensures i < |v| ==> !blank(v[i])
  {
    if |v| > 0 && blank(v[0]) {
      var i' := TrimStartCut(v[1..], blank);
      i := i' + 1;
      forall k | 0 < k < i ensures blank(v[k]) {
        assert v[k] == v[1..][k - 1];
      }
    } else {
      i := 0;
    }
  }

  lemma {:induction false} TrimEndCut<T>(v: seq<T>, blank: T -> bool) returns (j: nat)
    ensures j <= |v| && TrimEnd(v, blank) == v[..j]
    ensures forall k :: j <= k < |v| ==> blank(v[k])
    ensures 0 < j ==> !blank(v[j - 1])
  {
    if |v| > 0 && blank(v[|v| - 1]) {
      j := TrimEndCut(v[..|v| - 1], blank);
    } else {
      j := |v|;
    }
  }

  /** Trimming cuts out the part between the outer blanks. */
  lemma TrimCuts<T>(v: seq<T>, blank: T -> bool) returns (i: nat, j: nat)
    ensures TrimsTo(v, blank, i, j) && Trim(v, blank) == v[i..j]
  {
    i := TrimStartCut(v, blank);
    var s := v[i..];
    var n := TrimEndCut(s, blank);
    j := i + n;
    assert s[..n] == v[i..j];
    forall k | j <= k < |v| ensures blank(v[k]) {
      assert s[k - i] == v[k];
    }
    if i < j {
      assert s[n - 1] == v[j - 1];
    }
  }

  /** Blanks wrapped round a trimmed value are exactly what trimming removes. */
  lemma TrimOfPadded<T>(before: seq<T>, v: seq<T>, after: seq<T>, blank: T -> bool)
    requires Trimmed(v, blank)
    requires forall k :: 0 <= k < |before| ==> blank(before[k])
    requires forall k :: 0 <= k < |after| ==> blank(after[k])
    ensures Trim(before + v + after, blank) == v
  {
    var s := before + v + after;
    var i, j := |before|, |before| + |v|;
    assert v == s[i..j];
    assert TrimsTo(s, blank, i, j);
    var i', j' := TrimCuts(s, blank);
  }

}
