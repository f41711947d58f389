/** List comprehensions and the few facts about them the draft editor needs. */
module Sequences {

  /** `[x for x in s if keep(x)]`. */
  function Filter<T(!new)>(keep: T -> bool, s: seq<T>): (r: seq<T>)
    ensures |r| <= |s|
    ensures forall x :: x in r <==> x in s && keep(x)
  {
    if s == [] then []
    else
      var rest := Filter(keep, s[1..]);
      assert s == [s[0]] + s[1..];
      if keep(s[0]) then [s[0]] + rest else rest
  }

  /** `[f(x) for x in s]`. */
  function Map<T, U>(f: T -> U, s: seq<T>): (r: seq<U>)
    ensures |r| == |s|
    ensures forall i :: 0 <= i < |s| ==> r[i] == f(s[i])
  {
    seq(|s|, i requires 0 <= i < |s| => f(s[i]))
  }

  function Elements<T(!new)>(s: seq<T>): (all: set<T>)
    ensures forall x :: x in all <==> x in s
  {
    set x | x in s
  }

  lemma {:induction false} FilterAppend<T(!new)>(keep: T -> bool, s: seq<T>, x: T)
    ensures Filter(keep, s + [x]) == Filter(keep, s) + (if keep(x) then [x] else [])
  {
    if s == [] {
      assert s + [x] == [x];
    } else {
      assert (s + [x])[1..] == s[1..] + [x];
      FilterAppend(keep, s[1..], x);
    }
  }

  lemma {:induction false} FilterConcat<T(!new)>(keep: T -> bool, a: seq<T>, b: seq<T>)
    ensures Filter(keep, a + b) == Filter(keep, a) + Filter(keep, b)
  {
    if a == [] {
      assert a + b == b;
    } else {
      assert (a + b)[1..] == a[1..] + b;
      FilterConcat(keep, a[1..], b);
    }
  }

  /** Two positions of a filtered list come from two positions of the list, in order. */
  lemma {:induction false} FilterPair<T(!new)>(keep: T -> bool, s: seq<T>, i: nat, j: nat) returns (i': nat, j': nat)
    requires i < j < |Filter(keep, s)|
    ensures i' < j' < |s| && s[i'] == Filter(keep, s)[i] && s[j'] == Filter(keep, s)[j]
  {
    if !keep(s[0]) {
      i', j' := FilterPair(keep, s[1..], i, j);
      i', j' := i' + 1, j' + 1;
    } else if i > 0 {
      i', j' := FilterPair(keep, s[1..], i - 1, j - 1);
      i', j' := i' + 1, j' + 1;
    } else {
      var x := Filter(keep, s[1..])[j - 1];
      assert x in s[1..];
      j' :| 0 <= j' < |s[1..]| && s[1..][j'] == x;
      i', j' := 0, j' + 1;
    }
  }

  /** A list matched at exactly one position filters to that one element. */
  lemma {:induction false} FilterSingleton<T(!new)>(keep: T -> bool, s: seq<T>, k: nat)
    requires k < |s| && keep(s[k])
    requires forall i :: 0 <= i < |s| && keep(s[i]) ==> i == k
    ensures Filter(keep, s) == [s[k]]
  {
    if k == 0 {
      FilterNone(keep, s[1..]);
    } else {
      FilterSingleton(keep, s[1..], k - 1);
    }
  }

  lemma {:induction false} FilterNone<T(!new)>(keep: T -> bool, s: seq<T>)
    requires forall i :: 0 <= i < |s| ==> !keep(s[i])
    ensures Filter(keep, s) == []
  {
    if s != [] {
      FilterNone(keep, s[1..]);
    }
  }

  /** A list has at least as many positions as distinct elements. */
  lemma {:induction false} DistinctBound<T>(s: seq<T>, all: set<T>)
    requires forall x :: x in all ==> x in s
    ensures |all| <= |s|
  {
    if s == [] {
      assert all == {};
    } else {
      assert s == [s[0]] + s[1..];
      var rest := all - {s[0]};
      DistinctBound(s[1..], rest);
      assert all <= rest + {s[0]};
      assert |rest + {s[0]}| <= |rest| + 1;
      SubsetSize(all, rest + {s[0]});
    }
  }

  lemma {:induction false} SubsetSize<T>(a: set<T>, b: set<T>)
    requires a <= b
    ensures |a| <= |b|
  {
    assert b == a + (b - a);
  }

  /** Pairwise distinct positions: the set of elements is as large as the list. */
  lemma {:induction false} DistinctSize<T>(s: seq<T>)
    requires forall i, j :: 0 <= i < j < |s| ==> s[i] != s[j]
    ensures |set x | x in s| == |s|
  {
    if s != [] {
      DistinctSize(s[1..]);
      assert s == [s[0]] + s[1..];
      assert (set x | x in s) == {s[0]} + (set x | x in s[1..]);
    }
  }
}
