/** Stable insertion sort, standing for Go's sort.SliceStable and SQL's ORDER BY, and the two facts
    every use of it needs: what order the result is in, and that a strict order pins the result down. */
module Sorting {

  function Elems<T>(s: seq<T>): set<T> {
    set x | x in s
  }

  ghost predicate Sorted<T>(s: seq<T>, less: (T, T) -> bool) {
    forall i, j | 0 <= i < j < |s| :: less(s[i], s[j])
  }

  ghost predicate Transitive<T(!new)>(less: (T, T) -> bool) {
    forall x, y, z | less(x, y) && less(y, z) :: less(x, z)
  }

  // Puts x in front of the first element that is not smaller, so equal elements keep their order.
  function InsertStable<T>(x: T, s: seq<T>, less: (T, T) -> bool): (r: seq<T>)
    ensures multiset(r) == multiset(s) + multiset{x}
    ensures |r| == |s| + 1
  {
    if s == [] || !less(s[0], x) then [x] + s
    else
      assert s == [s[0]] + s[1..];
      [s[0]] + InsertStable(x, s[1..], less)
  }

  function StableSort<T>(s: seq<T>, less: (T, T) -> bool): (r: seq<T>)
    ensures multiset(r) == multiset(s)
    ensures |r| == |s|
  {
    if s == [] then []
    else
      assert s == [s[0]] + s[1..];
      InsertStable(s[0], StableSort(s[1..], less), less)
  }

  lemma SameElems<T>(s: seq<T>, t: seq<T>)
    requires multiset(s) == multiset(t)
    ensures forall x :: x in s <==> x in t
    ensures Elems(s) == Elems(t)
  {
    assert forall x :: x in s <==> x in multiset(s);
    assert forall x :: x in t <==> x in multiset(t);
  }

  lemma {:induction false} InsertSorted<T(!new)>(x: T, s: seq<T>, coarse: (T, T) -> bool, fine: (T, T) -> bool)
    requires Sorted(s, fine) && Transitive(fine)
    requires forall y | y in s :: if coarse(y, x) then fine(y, x) else fine(x, y)
    ensures Sorted(InsertStable(x, s, coarse), fine)
  {
    if s != [] && coarse(s[0], x) {
      InsertSorted(x, s[1..], coarse, fine);
      var t := InsertStable(x, s[1..], coarse);
      SameElems(t, s[1..] + [x]);
      forall y | y in t ensures fine(s[0], y) {
        if y != x {
          assert y in s[1..];
        }
      }
    } else if s != [] {
      forall y | y in s ensures fine(x, y) {
        assert fine(x, s[0]);
        assert y == s[0] || fine(s[0], y);
      }
    }
  }

  // Sorting by a coarse order sorts by every finer order that agrees with the input on ties.
  lemma {:induction false} StableSortRefines<T(!new)>(s: seq<T>, coarse: (T, T) -> bool, fine: (T, T) -> bool)
    requires Transitive(fine)
    requires forall i, j | 0 <= i < j < |s| :: if coarse(s[j], s[i]) then fine(s[j], s[i]) else fine(s[i], s[j])
    ensures Sorted(StableSort(s, coarse), fine)
    ensures Elems(StableSort(s, coarse)) == Elems(s)
  {
    SameElems(StableSort(s, coarse), s);
    if s != [] {
      var rest := s[1..];
      StableSortRefines(rest, coarse, fine);
      var t := StableSort(rest, coarse);
      SameElems(t, rest);
      forall y | y in t ensures if coarse(y, s[0]) then fine(y, s[0]) else fine(s[0], y) {
        var j :| 0 <= j < |rest| && rest[j] == y;
        assert s[j + 1] == y;
      }
      InsertSorted(s[0], t, coarse, fine);
    }
  }

  lemma {:induction false} StableSortIdentity<T>(s: seq<T>, less: (T, T) -> bool)
    requires forall i, j | 0 <= i < j < |s| :: !less(s[j], s[i])
    ensures StableSort(s, less) == s
  {
    if s != [] {
      StableSortIdentity(s[1..], less);
      assert s == [s[0]] + s[1..];
      assert |s| > 1 ==> !less(s[1], s[0]);
    }
  }

  lemma NoElems<T>(s: seq<T>)
    ensures Elems(s) == {} <==> s == []
  {
    if s != [] {
      assert s[0] in Elems(s);
    }
  }

  lemma SubsetSize<T>(A: set<T>, B: set<T>)
    requires A <= B && |A| == |B|
    ensures A == B
  {
    assert |B - A| == 0;
  }

  // Two strictly sorted sequences with the same elements are the same sequence.
  lemma {:induction false} SortedUnique<T>(s: seq<T>, t: seq<T>, less: (T, T) -> bool)
    requires Sorted(s, less) && Sorted(t, less)
    requires Elems(s) == Elems(t)
    requires forall x, y | x in s && y in s :: !(less(x, y) && less(y, x))
    ensures s == t
  {
    if s == [] {
      NoElems(t);
    } else {
      assert s[0] in Elems(t);
      assert t != [];
      assert t[0] in Elems(s);
      assert s[0] == t[0];
      forall x ensures x in s[1..] <==> x in t[1..] {
        if x in s[1..] {
          assert less(s[0], x);
          assert x in Elems(s) && x in t && x != s[0];
        }
        if x in t[1..] {
          assert less(t[0], x);
          assert x in Elems(t) && x in Elems(s) && x != s[0];
        }
      }
      SortedUnique(s[1..], t[1..], less);
      assert s == [s[0]] + s[1..] && t == [t[0]] + t[1..];
    }
  }
}
