/** Sequence helpers: first-seen de-duplication (`Array.from(new Set(xs))`, and the key order of a JavaScript `Map`). */
module Seqs {

  /** No element occurs twice. */
  predicate NoDuplicates<T(==)>(s: seq<T>) {
    forall i, j :: 0 <= i < j < |s| ==> s[i] != s[j]
  }

  /** `xs.map(f)`. */
  function Map<T, U>(f: T -> U, s: seq<T>): (r: seq<U>)
    ensures |r| == |s| && forall k :: 0 <= k < |s| ==> r[k] == f(s[k])
  {
    seq(|s|, k requires 0 <= k < |s| => f(s[k]))
  }

  /** Mapping a sequence maps its head, then its tail. */
  lemma MapCons<T, U>(f: T -> U, a: T, rest: seq<T>)
    ensures Map(f, [a] + rest) == [f(a)] + Map(f, rest)
  {
    var l := Map(f, [a] + rest);
    var r := [f(a)] + Map(f, rest);
    forall k | 0 <= k < |l|
      ensures l[k] == r[k]
    {
      if k > 0 {
        assert ([a] + rest)[k] == rest[k - 1];
      }
    }
  }

  /** Index of the first occurrence of `x`. */
  function FirstIndex<T(==)>(s: seq<T>, x: T): (i: nat)
    requires x in s
    ensures i < |s| && s[i] == x && x !in s[..i]
  {
    if s[0] == x then 0 else
      var k := FirstIndex(s[1..], x);
      assert s[..k + 1] == [s[0]] + s[1..][..k];
      k + 1
  }

  /** The distinct elements of `s`, each once, in the order in which they first occur. */
  function Distinct<T(==)>(s: seq<T>): (r: seq<T>)
    ensures NoDuplicates(r)
    ensures forall i :: 0 <= i < |r| ==> r[i] in s
  {
    if s == [] then [] else
      var d := Distinct(s[..|s| - 1]);
      var x := s[|s| - 1];
      assert s == s[..|s| - 1] + [x];
      if x in d then d else d + [x]
  }

  /** `Distinct` keeps exactly the elements of its input. */
  lemma {:induction false} DistinctMembers<T>(s: seq<T>, x: T)
    ensures x in Distinct(s) <==> x in s
  {
    if s != [] {
      var t := s[..|s| - 1];
      assert s == t + [s[|s| - 1]];
      DistinctMembers(t, x);
    }
  }

  /** Appending an element does not move the first occurrence of anything already present. */
  lemma {:induction false} FirstIndexSnoc<T>(s: seq<T>, x: T, y: T)
    requires y in s
    ensures FirstIndex(s + [x], y) == FirstIndex(s, y)
  {
    if s[0] != y {
      assert (s + [x])[1..] == s[1..] + [x];
      FirstIndexSnoc(s[1..], x, y);
    }
  }

  /** `Distinct` lists elements in first-seen order. */
  lemma {:induction false} DistinctFirstSeen<T>(s: seq<T>, i: nat, j: nat)
    requires i < j < |Distinct(s)|
    ensures FirstIndex(s, Distinct(s)[i]) < FirstIndex(s, Distinct(s)[j])
  {
    var t := s[..|s| - 1];
    var x := s[|s| - 1];
    assert s == t + [x];
    var d := Distinct(t);
    var a, b := Distinct(s)[i], Distinct(s)[j];
    assert a in t by {
      if x in d { } else { assert i < |d|; assert a == d[i]; }
    }
    FirstIndexSnoc(t, x, a);
    if x in d || j < |d| {
      assert a == d[i] && b == d[j];
      DistinctFirstSeen(t, i, j);
      FirstIndexSnoc(t, x, b);
    } else {
      DistinctMembers(t, x);
      assert b == x && x !in t;
      assert FirstIndex(s, b) == |t| by { assert s[..|t|] == t; }
    }
  }
}
