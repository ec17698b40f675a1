/** Sequence facts behind the stream operations `distinct` and `toMap`. */
module Seqs {

  /** No element occurs twice. */
  predicate NoDuplicates<T(==)>(s: seq<T>) {
    forall i, j :: 0 <= i < j < |s| ==> s[i] != s[j]
  }

  /** `r` is `s` with some elements left out and the rest in their order (matched greedily). */
  predicate Subsequence<T(==)>(r: seq<T>, s: seq<T>)
    decreases |s|
  {
    if |r| == 0 then true
    else if |s| == 0 then false
    else if r[0] == s[0] then Subsequence(r[1..], s[1..])
    else Subsequence(r, s[1..])
  }

  /** The position of the first occurrence of `x` in `s`. */
  function IndexOf<T(==)>(s: seq<T>, x: T): (i: nat)
    requires x in s
    ensures i < |s| && s[i] == x
    ensures forall j :: 0 <= j < i ==> s[j] != x
  {
    if s[0] == x then 0 else 1 + IndexOf(s[1..], x)
  }

  /** The first occurrence of an element is not moved by appending to the sequence. */
  lemma IndexOfPrefix<T>(s: seq<T>, t: seq<T>, x: T)
    requires x in s
    ensures x in s + t && IndexOf(s + t, x) == IndexOf(s, x)
  {
    var i, k := IndexOf(s, x), IndexOf(s + t, x);
    assert (s + t)[i] == x;
    assert k <= i;
    assert s[k] == (s + t)[k];
  }

  /** The elements of `s` with later repetitions dropped (Java's `Stream.distinct`). */
  function Distinct<T(==)>(s: seq<T>): (r: seq<T>)
    ensures NoDuplicates(r)
    ensures forall i :: 0 <= i < |r| ==> r[i] in s
    ensures forall i :: 0 <= i < |s| ==> s[i] in r
  {
    if |s| == 0 then []
    else
      var d, x := Distinct(s[..|s| - 1]), s[|s| - 1];
      assert s == s[..|s| - 1] + [x];
      if x in d then d else d + [x]
  }

  /** A sequence without repetitions is its own `Distinct`. */
  lemma {:induction false} DistinctOfDuplicateFree<T>(s: seq<T>)
    requires NoDuplicates(s)
    ensures Distinct(s) == s
  {
    if |s| > 0 {
      var n := |s| - 1;
      DistinctOfDuplicateFree(s[..n]);
      assert s[n] !in s[..n];
      assert s[..n] + [s[n]] == s;
    }
  }

  /** `Distinct` keeps the elements in the order of their first occurrence in `s`. */
  lemma {:induction false} DistinctKeepsFirstOccurrenceOrder<T>(s: seq<T>, i: nat, j: nat)
    requires i < j < |Distinct(s)|
    ensures IndexOf(s, Distinct(s)[i]) < IndexOf(s, Distinct(s)[j])
  {
    var n := |s| - 1;
    var p, x := s[..n], s[n];
    assert s == p + [x];
    var d := Distinct(p);
    var r := Distinct(s);
    if j < |d| {
      DistinctKeepsFirstOccurrenceOrder(p, i, j);
      IndexOfPrefix(p, [x], d[i]);
      IndexOfPrefix(p, [x], d[j]);
    } else {
      assert r == d + [x] && r[j] == x && x !in p;
      assert IndexOf(s, x) == n;
      assert r[i] in p;
    }
  }
}
