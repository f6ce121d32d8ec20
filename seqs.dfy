/**
 * `Array.prototype.filter` over sequences, and the "no duplicates" property
 * the assignment lists are meant to keep. Every removal in the application
 * (of a person from an item, of an item, of a person, of a malformed entry)
 * is this filter with a different predicate.
 */
module Seqs {

  predicate NoDuplicates<T(==)>(s: seq<T>) {
    forall i, j :: 0 <= i < j < |s| ==> s[i] != s[j]
  }

  /** The set of elements of a sequence. */
  function Elems<T>(s: seq<T>): set<T> {
    set x | x in s
  }

  /** `xs.filter(keep)`: the elements satisfying `keep`, in their original order. */
  function Filter<T(==)>(xs: seq<T>, keep: T -> bool): (r: seq<T>)
    ensures |r| <= |xs|
    ensures forall x | x in r :: x in xs && keep(x)
    ensures forall x | x in xs && keep(x) :: x in r
    ensures (forall x | x in xs :: keep(x)) ==> r == xs
    ensures NoDuplicates(xs) ==> NoDuplicates(r)
  {
    if xs == [] then []
    else
      var rest := Filter(xs[1..], keep);
      assert NoDuplicates(xs) ==> xs[0] !in xs[1..];
      if keep(xs[0]) then [xs[0]] + rest else rest
  }

  /** Filtering a concatenation filters each part, so the kept elements keep their relative order. */
  lemma {:induction false} FilterAppend<T>(a: seq<T>, b: seq<T>, keep: T -> bool)
    ensures Filter(a + b, keep) == Filter(a, keep) + Filter(b, keep)
    decreases |a|
  {
    if a == [] {
      assert a + b == b;
    } else {
      assert (a + b)[0] == a[0];
      assert (a + b)[1..] == a[1..] + b;
      FilterAppend(a[1..], b, keep);
    }
  }

  /** The elements of a non-empty sequence are its head and the elements of its tail. */
  lemma ElemsCons<T>(s: seq<T>)
    requires s != []
    ensures Elems(s) == {s[0]} + Elems(s[1..])
  {
    forall x | x in Elems(s) ensures x in {s[0]} + Elems(s[1..]) {
      var k :| 0 <= k < |s| && s[k] == x;
      if k > 0 {
        assert s[1..][k - 1] == x;
      }
    }
  }

  /** Adding an element outside `r` to `r` adds one to its meet with `a` exactly when `a` holds it. */
  lemma MeetWithOneMore<T>(a: set<T>, r: set<T>, h: T)
    requires h !in r
    ensures |a * ({h} + r)| == |a * r| + (if h in a then 1 else 0)
  {
    if h in a {
      assert a * ({h} + r) == {h} + a * r;
    } else {
      assert a * ({h} + r) == a * r;
    }
  }

  /** A sequence without duplicates has as many distinct elements as it has entries. */
  lemma {:induction false} DistinctCardinality<T>(s: seq<T>)
    requires NoDuplicates(s)
    ensures |Elems(s)| == |s|
    decreases |s|
  {
    if s != [] {
      var rest := s[1..];
      ElemsCons(s);
      assert s[0] !in Elems(rest);
      DistinctCardinality(rest);
    }
  }
}
