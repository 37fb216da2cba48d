/** Sorting as a canonical form: a sorted arrangement is unique when no two items tie. */
module Sorting {

  /** What xs contains. */
  function Elements<T(==)>(xs: seq<T>): set<T> { set x | x in xs }

  predicate Sorted<T>(xs: seq<T>, le: (T, T) -> bool)
  {
    forall i, j :: 0 <= i < j < |xs| ==> le(xs[i], xs[j])
  }

  ghost predicate TotalPreorder<T(!new)>(le: (T, T) -> bool)
  {
    && (forall x, y :: le(x, y) || le(y, x))
    && (forall x, y, z :: le(x, y) && le(y, z) ==> le(x, z))
  }

  /** No two different members of xs tie under le. */
  ghost predicate Strict<T(!new)>(xs: seq<T>, le: (T, T) -> bool)
  {
    forall x, y :: x in xs && y in xs && le(x, y) && le(y, x) ==> x == y
  }

  function Insert<T>(x: T, xs: seq<T>, le: (T, T) -> bool): (r: seq<T>)
    ensures multiset(r) == multiset{x} + multiset(xs)
  {
    if xs == [] then [x]
    else if le(x, xs[0]) then [x] + xs
    else
      assert xs == [xs[0]] + xs[1..];
      [xs[0]] + Insert(x, xs[1..], le)
  }

  /** A stable sort, as list.sort and sorted are. */
  function Sort<T>(xs: seq<T>, le: (T, T) -> bool): (r: seq<T>)
    ensures multiset(r) == multiset(xs)
  {
    if xs == [] then []
    else
      assert xs == [xs[0]] + xs[1..];
      Insert(xs[0], Sort(xs[1..], le), le)
  }

  lemma SameMembers<T>(xs: seq<T>, ys: seq<T>)
    requires multiset(xs) == multiset(ys)
    ensures |xs| == |ys| && forall x :: x in xs <==> x in ys
  {
    forall x ensures x in xs <==> x in ys { assert x in multiset(xs) <==> x in multiset(ys); }
    assert |multiset(xs)| == |multiset(ys)|;
  }

  lemma {:induction false} InsertSorted<T(!new)>(x: T, xs: seq<T>, le: (T, T) -> bool)
    requires TotalPreorder(le) && Sorted(xs, le)
    ensures Sorted(Insert(x, xs, le), le)
  {
    if xs != [] && !le(x, xs[0]) {
      InsertSorted(x, xs[1..], le);
      var r := Insert(x, xs[1..], le);
      forall y | y in r ensures le(xs[0], y) {
        assert y in multiset(r);
        assert y == x || y in xs[1..];
      }
    }
  }

  lemma {:induction false} SortSorts<T(!new)>(xs: seq<T>, le: (T, T) -> bool)
    requires TotalPreorder(le)
    ensures Sorted(Sort(xs, le), le)
  {
    if xs != [] {
      SortSorts(xs[1..], le);
      InsertSorted(xs[0], Sort(xs[1..], le), le);
    }
  }

  lemma Cancel<T>(x: T, a: multiset<T>, b: multiset<T>)
    requires multiset{x} + a == multiset{x} + b
    ensures a == b
  {
    assert a == (multiset{x} + a) - multiset{x};
    assert b == (multiset{x} + b) - multiset{x};
  }

  lemma FirstLeast<T(!new)>(xs: seq<T>, x: T, le: (T, T) -> bool)
    requires Sorted(xs, le) && TotalPreorder(le) && x in xs
    ensures le(xs[0], x)
  {
    var i :| 0 <= i < |xs| && xs[i] == x;
    if i == 0 { assert le(x, x); }
  }

  lemma {:induction false} SortedUnique<T(!new)>(xs: seq<T>, ys: seq<T>, le: (T, T) -> bool)
    requires Sorted(xs, le) && Sorted(ys, le) && TotalPreorder(le)
    requires multiset(xs) == multiset(ys) && Strict(xs, le)
    ensures xs == ys
  {
    SameMembers(xs, ys);
    if xs != [] {
      FirstLeast(xs, ys[0], le);
      FirstLeast(ys, xs[0], le);
      assert xs == [xs[0]] + xs[1..] && ys == [ys[0]] + ys[1..];
      Cancel(xs[0], multiset(xs[1..]), multiset(ys[1..]));
      SortedUnique(xs[1..], ys[1..], le);
    }
  }

  /** Sorting without ties identifies exactly the rearrangements. */
  lemma SortCanonical<T(!new)>(xs: seq<T>, ys: seq<T>, le: (T, T) -> bool)
    requires TotalPreorder(le) && Strict(xs, le)
    ensures Sort(xs, le) == Sort(ys, le) <==> multiset(xs) == multiset(ys)
  {
    SortSorts(xs, le);
    SortSorts(ys, le);
    if multiset(xs) == multiset(ys) {
      SameMembers(xs, Sort(xs, le));
      SortedUnique(Sort(xs, le), Sort(ys, le), le);
    } else {
      assert multiset(Sort(xs, le)) != multiset(Sort(ys, le));
    }
  }

  lemma SortIdempotent<T(!new)>(xs: seq<T>, le: (T, T) -> bool)
    requires TotalPreorder(le) && Strict(xs, le)
    ensures Sort(Sort(xs, le), le) == Sort(xs, le)
  {
    SortCanonical(xs, Sort(xs, le), le);
  }

  // ----- rearrangements up to a normal form -----

  function MapSeq<T, U>(f: T -> U, xs: seq<T>): (r: seq<U>)
    ensures |r| == |xs| && forall i :: 0 <= i < |xs| ==> r[i] == f(xs[i])
  {
    seq(|xs|, i requires 0 <= i < |xs| => f(xs[i]))
  }

  /** ys can be reordered so that it agrees with xs item by item under f. */
  ghost predicate Matches<T(!new), U>(f: T -> U, xs: seq<T>, ys: seq<T>)
  {
    exists zs: seq<T> :: Aligned(f, xs, ys, zs)
  }

  ghost predicate Aligned<T, U>(f: T -> U, xs: seq<T>, ys: seq<T>, zs: seq<T>)
  {
    multiset(zs) == multiset(ys) && |zs| == |xs| && forall i :: 0 <= i < |xs| ==> f(xs[i]) == f(zs[i])
  }

  function Without<T>(ys: seq<T>, j: nat): seq<T>
    requires j < |ys|
  {
    ys[..j] + ys[j + 1..]
  }

  lemma RemoveAt<T>(ys: seq<T>, j: nat)
    requires j < |ys|
    ensures multiset(ys) == multiset{ys[j]} + multiset(Without(ys, j))
  {
    assert ys == ys[..j] + [ys[j]] + ys[j + 1..];
  }

  lemma RemoveImage<T, U>(f: T -> U, ys: seq<T>, j: nat)
    requires j < |ys|
    ensures multiset(MapSeq(f, ys)) == multiset{f(ys[j])} + multiset(MapSeq(f, Without(ys, j)))
  {
    RemoveAt(MapSeq(f, ys), j);
    assert Without(MapSeq(f, ys), j) == MapSeq(f, Without(ys, j));
  }

  lemma FindEqual<T>(x: T, xs: seq<T>, ys: seq<T>) returns (j: nat)
    requires x in xs && multiset(xs) == multiset(ys)
    ensures j < |ys| && ys[j] == x
  {
    SameMembers(xs, ys);
    j :| 0 <= j < |ys| && ys[j] == x;
  }

  lemma {:induction false} MapSeqMultiset<T, U>(f: T -> U, xs: seq<T>, ys: seq<T>)
    requires multiset(xs) == multiset(ys)
    ensures multiset(MapSeq(f, xs)) == multiset(MapSeq(f, ys))
  {
    SameMembers(xs, ys);
    if xs != [] {
      var j := FindEqual(xs[0], xs, ys);
      RemoveAt(ys, j);
      assert xs == [xs[0]] + xs[1..];
      Cancel(xs[0], multiset(xs[1..]), multiset(Without(ys, j)));
      MapSeqMultiset(f, xs[1..], Without(ys, j));
      RemoveImage(f, ys, j);
      RemoveImage(f, xs, 0);
      assert Without(xs, 0) == xs[1..];
    }
  }

  lemma ExtendAlignment<T(!new), U>(f: T -> U, xs: seq<T>, ys: seq<T>, j: nat, tail: seq<T>) returns (zs: seq<T>)
    requires xs != [] && j < |ys| && f(xs[0]) == f(ys[j])
    requires Aligned(f, Without(xs, 0), Without(ys, j), tail)
    ensures Aligned(f, xs, ys, zs)
  {
    zs := [ys[j]] + tail;
    RemoveAt(ys, j);
    forall i | 0 <= i < |xs| ensures f(xs[i]) == f(zs[i]) {
      if i > 0 { assert xs[i] == Without(xs, 0)[i - 1]; }
    }
  }

  lemma {:induction false} AlignmentExists<T(!new), U>(f: T -> U, xs: seq<T>, ys: seq<T>) returns (zs: seq<T>)
    requires multiset(MapSeq(f, xs)) == multiset(MapSeq(f, ys))
    ensures Aligned(f, xs, ys, zs)
  {
    SameMembers(MapSeq(f, xs), MapSeq(f, ys));
    if xs == [] {
      zs := [];
    } else {
      var j := FindEqual(MapSeq(f, xs)[0], MapSeq(f, xs), MapSeq(f, ys));
      RemoveImage(f, ys, j);
      RemoveImage(f, xs, 0);
      Cancel(f(xs[0]), multiset(MapSeq(f, Without(xs, 0))), multiset(MapSeq(f, Without(ys, j))));
      var tail := AlignmentExists(f, Without(xs, 0), Without(ys, j));
      RemoveAt(ys, j);
      zs := ExtendAlignment(f, xs, ys, j, tail);
    }
  }

  /** Two lists have the same multiset of normal forms exactly when one reorders to match the other. */
  lemma MatchesIffSameNormalForms<T(!new), U>(f: T -> U, xs: seq<T>, ys: seq<T>)
    ensures multiset(MapSeq(f, xs)) == multiset(MapSeq(f, ys)) <==> Matches(f, xs, ys)
  {
    if multiset(MapSeq(f, xs)) == multiset(MapSeq(f, ys)) {
      var zs := AlignmentExists(f, xs, ys);
    }
    if Matches(f, xs, ys) {
      var zs :| Aligned(f, xs, ys, zs);
      assert MapSeq(f, xs) == MapSeq(f, zs);
      MapSeqMultiset(f, zs, ys);
    }
  }

  // ----- lists without repetition -----

  predicate Distinct<T(==)>(xs: seq<T>) { forall i, j :: 0 <= i < j < |xs| ==> xs[i] != xs[j] }

  lemma {:induction false} DistinctCounts<T>(s: seq<T>)
    ensures Distinct(s) <==> forall x :: multiset(s)[x] <= 1
  {
    if |s| > 0 {
      var n := |s| - 1;
      DistinctCounts(s[..n]);
      assert s == s[..n] + [s[n]];
      if Distinct(s) {
        assert s[n] !in s[..n];
        assert multiset(s[..n])[s[n]] == 0;
      } else if Distinct(s[..n]) {
        assert s[n] in s[..n];
        assert multiset(s)[s[n]] >= 2;
      } else {
        var x :| multiset(s[..n])[x] > 1;
        assert multiset(s)[x] > 1;
      }
    }
  }

  lemma DistinctReordered<T>(s: seq<T>, t: seq<T>)
    requires multiset(s) == multiset(t) && Distinct(t)
    ensures Distinct(s)
  {
    DistinctCounts(s);
    DistinctCounts(t);
  }

  /** Two lists without repetition and with the same members are rearrangements of each other. */
  lemma SameMembersSameMultiset<T>(s: seq<T>, t: seq<T>)
    requires Distinct(s) && Distinct(t) && forall x :: x in s <==> x in t
    ensures multiset(s) == multiset(t)
  {
    DistinctCounts(s);
    DistinctCounts(t);
    forall x ensures multiset(s)[x] == multiset(t)[x] {
      assert x in multiset(s) <==> x in s;
      assert x in multiset(t) <==> x in t;
    }
  }
}
