/** Sequence helpers shared by the components: a stable filter, as
    JavaScript's `Array.prototype.filter` and a Python comprehension behave. */
module Seqs {

  /** The elements of `s` that satisfy `p`, in their original order. */
  function Filter<T>(p: T -> bool, s: seq<T>): (r: seq<T>)
    ensures |r| <= |s|
    ensures forall i :: 0 <= i < |r| ==> r[i] in s && p(r[i])
    ensures forall i :: 0 <= i < |s| && p(s[i]) ==> s[i] in r
  {
    if s == [] then [] else (if p(s[0]) then [s[0]] else []) + Filter(p, s[1..])
  }

  /** Filtering distributes over concatenation: the kept elements of the first part
      come before those of the second, so the filter is stable. */
  lemma {:induction false} FilterAppend<T>(p: T -> bool, a: seq<T>, b: seq<T>)
    ensures Filter(p, a + b) == Filter(p, a) + Filter(p, b)
  {
    if a == [] {
      assert a + b == b;
    } else {
      assert (a + b)[0] == a[0];
      assert (a + b)[1..] == a[1..] + b;
      FilterAppend(p, a[1..], b);
    }
  }

  /** When exactly the elements from index `c` on satisfy `p`, the filter is that suffix. */
  lemma {:induction false} FilterSuffix<T>(p: T -> bool, s: seq<T>, c: nat)
    requires c <= |s|
    requires forall i :: 0 <= i < |s| ==> (p(s[i]) <==> c <= i)
    ensures Filter(p, s) == s[c..]
  {
    if s == [] {
    } else if c == 0 {
      FilterSuffix(p, s[1..], 0);
      assert s == [s[0]] + s[1..];
    } else {
      assert !p(s[0]);
      FilterSuffix(p, s[1..], c - 1);
      assert s[1..][c - 1..] == s[c..];
    }
  }

  /** A filter by a predicate every element satisfies keeps the whole sequence. */
  lemma FilterKeepsAll<T>(p: T -> bool, s: seq<T>)
    requires forall i :: 0 <= i < |s| ==> p(s[i])
    ensures Filter(p, s) == s
  {
    FilterSuffix(p, s, 0);
  }

  /** The filter is non-empty exactly when some element satisfies the predicate,
      which is what `Array.prototype.some` reports. */
  lemma FilterNonEmptyIffSome<T>(p: T -> bool, s: seq<T>)
    ensures Filter(p, s) != [] <==> exists i :: 0 <= i < |s| && p(s[i])
  {
    var r := Filter(p, s);
    if r != [] {
      assert r[0] in r;
    }
    if exists i :: 0 <= i < |s| && p(s[i]) {
      var i :| 0 <= i < |s| && p(s[i]);
      assert s[i] in r;
    }
  }
}
