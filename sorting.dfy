/** Python's `sorted()` on the two kinds of list the media-file walkers sort: ints, and
    (width, height) pairs compared lexicographically, the latter taken from a set and so
    free of repeats. */
module Sorting {

  predicate SortedInts(xs: seq<int>)
  {
    forall i, j :: 0 <= i < j < |xs| ==> xs[i] <= xs[j]
  }

  /** A list stays sorted when an element no larger than all of its elements goes in front. */
  lemma SortedCons(h: int, xs: seq<int>)
    requires SortedInts(xs)
    requires forall y :: y in xs ==> h <= y
    ensures SortedInts([h] + xs)
  {
    var r := [h] + xs;
    forall i, j | 0 <= i < j < |r| ensures r[i] <= r[j] {
      if i > 0 {
        assert r[i] == xs[i - 1] && r[j] == xs[j - 1];
      } else {
        assert r[j] == xs[j - 1] && xs[j - 1] in xs;
      }
    }
  }

  function InsertInt(x: int, xs: seq<int>): (r: seq<int>)
    requires SortedInts(xs)
    ensures SortedInts(r)
    ensures forall y :: y in r <==> y == x || y in xs
  {
    if xs == [] then [x]
    else if x <= xs[0] then
      SortedCons(x, xs);
      [x] + xs
    else
      var rest := InsertInt(x, xs[1..]);
      assert xs == [xs[0]] + xs[1..];
      assert forall y :: y in xs[1..] ==> xs[0] <= y by {
        forall y | y in xs[1..] ensures xs[0] <= y {
          var k :| 0 <= k < |xs[1..]| && xs[1..][k] == y;
          assert xs[k + 1] == y;
        }
      }
      SortedCons(xs[0], rest);
      [xs[0]] + rest
  }

  /** Insertion adds exactly one occurrence of the element. */
  lemma {:induction false} InsertIntCounts(x: int, xs: seq<int>)
    requires SortedInts(xs)
    ensures multiset(InsertInt(x, xs)) == multiset(xs) + multiset{x}
  {
    if xs != [] && x > xs[0] {
      InsertIntCounts(x, xs[1..]);
      assert xs == [xs[0]] + xs[1..];
    }
  }

  /** `sorted(xs)`: the same ints, ascending, repeats kept. */
  function SortInts(xs: seq<int>): (r: seq<int>)
    ensures SortedInts(r)
    ensures multiset(r) == multiset(xs)
  {
    if xs == [] then []
    else
      assert xs == xs[..|xs| - 1] + [xs[|xs| - 1]];
      InsertIntCounts(xs[|xs| - 1], SortInts(xs[..|xs| - 1]));
      InsertInt(xs[|xs| - 1], SortInts(xs[..|xs| - 1]))
  }

  /** Tuple comparison in Python: by width, then by height. */
  predicate LexLess(a: (int, int), b: (int, int))
  {
    a.0 < b.0 || (a.0 == b.0 && a.1 < b.1)
  }

  predicate StrictlySorted(xs: seq<(int, int)>)
  {
    forall i, j :: 0 <= i < j < |xs| ==> LexLess(xs[i], xs[j])
  }

  function InsertDistinct(x: (int, int), xs: seq<(int, int)>): (r: seq<(int, int)>)
    requires StrictlySorted(xs)
    ensures StrictlySorted(r)
    ensures forall p :: p in r <==> p in xs || p == x
  {
    if xs == [] then [x]
    else if x == xs[0] then xs
    else if LexLess(x, xs[0]) then [x] + xs
    else
      var rest := InsertDistinct(x, xs[1..]);
      assert forall p :: p in rest ==> LexLess(xs[0], p) by {
        forall p | p in rest ensures LexLess(xs[0], p) {
          if p != x {
            var k :| 1 <= k < |xs| && xs[k] == p;
          }
        }
      }
      [xs[0]] + rest
  }

  /** `sorted(list(s))` for the set `s` of the pairs in `xs`: each pair once, ascending. */
  function SortDistinct(xs: seq<(int, int)>): (r: seq<(int, int)>)
    ensures StrictlySorted(r)
    ensures forall p :: p in r <==> p in xs
  {
    if xs == [] then []
    else
      assert xs == xs[..|xs| - 1] + [xs[|xs| - 1]];
      InsertDistinct(xs[|xs| - 1], SortDistinct(xs[..|xs| - 1]))
  }
}
