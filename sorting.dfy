/**
  * Python's `list.sort(key=...)` (and `sorted`), which the scripts call to order leaderboard
  * rows and season lists: a stable sort, modelled as insertion sort by a strict "comes
  * before" relation on the elements (`key(a) < key(b)`).
  */
module Sorting {

  /** `less` is a strict weak order: irreflexive, transitive, and "neither comes before the
      other" is transitive too.  Any `key(a) < key(b)` on a totally ordered key is one. */
  ghost predicate StrictWeakOrder<T(!new)>(less: (T, T) -> bool)
  {
    (forall a :: !less(a, a)) &&
    (forall a, b, c :: less(a, b) && less(b, c) ==> less(a, c)) &&
    (forall a, b, c :: less(a, c) ==> less(a, b) || less(b, c))
  }

  /** No element comes before one to its left. */
  predicate Sorted<T>(s: seq<T>, less: (T, T) -> bool)
  {
    forall i, j :: 0 <= i < j < |s| ==> !less(s[j], s[i])
  }

  /** Neither element comes before the other: the sort may not reorder them. */
  predicate Tied<T>(a: T, b: T, less: (T, T) -> bool)
  {
    !less(a, b) && !less(b, a)
  }

  /** The elements of `s` tied with `z`, in their order in `s`. */
  function TiedWith<T>(s: seq<T>, z: T, less: (T, T) -> bool): seq<T>
  {
    if s == [] then [] else (if Tied(s[0], z, less) then [s[0]] else []) + TiedWith(s[1..], z, less)
  }

  /** Insert `x` after every element that does not come after it. */
  function Insert<T>(x: T, s: seq<T>, less: (T, T) -> bool): seq<T>
  {
    if s == [] then [x]
    else if less(x, s[0]) then [x] + s
    else [s[0]] + Insert(x, s[1..], less)
  }

  /** `rows.sort(key=...)`: each element in turn inserted into the sorted prefix. */
  function SortBy<T>(s: seq<T>, less: (T, T) -> bool): seq<T>
  {
    if s == [] then [] else Insert(s[|s| - 1], SortBy(s[..|s| - 1], less), less)
  }

  lemma {:induction false} InsertMultiset<T>(x: T, s: seq<T>, less: (T, T) -> bool)
    ensures multiset(Insert(x, s, less)) == multiset(s) + multiset{x}
  {
    if s != [] && !less(x, s[0]) {
      InsertMultiset(x, s[1..], less);
      assert s == [s[0]] + s[1..];
    }
  }

  lemma {:induction false} InsertSorted<T(!new)>(x: T, s: seq<T>, less: (T, T) -> bool)
    requires StrictWeakOrder(less) && Sorted(s, less)
    ensures Sorted(Insert(x, s, less), less)
  {
    if s == [] {
    } else if less(x, s[0]) {
      var r := [x] + s;
      forall j | 1 <= j < |r| ensures !less(r[j], x) {
        assert r[j] == s[j - 1];
        assert j == 1 || !less(s[j - 1], s[0]);
      }
    } else {
      var t := s[1..];
      assert Sorted(t, less) by {
        forall i, j | 0 <= i < j < |t| ensures !less(t[j], t[i]) {
          assert t[j] == s[j + 1] && t[i] == s[i + 1];
        }
      }
      InsertSorted(x, t, less);
      InsertMultiset(x, t, less);
      var ins := Insert(x, t, less);
      forall j | 0 <= j < |ins| ensures !less(ins[j], s[0]) {
        assert ins[j] in multiset(ins);
        assert ins[j] == x || ins[j] in multiset(t);
        if ins[j] != x {
          var k :| 0 <= k < |t| && t[k] == ins[j];
          assert t[k] == s[k + 1];
        }
      }
    }
  }

  /** Nothing tied with an element that comes before `s[0]` occurs in a sorted `s`. */
  lemma NoneTiedAfter<T(!new)>(x: T, z: T, s: seq<T>, less: (T, T) -> bool)
    requires StrictWeakOrder(less) && Sorted(s, less)
    requires s != [] && less(x, s[0]) && Tied(x, z, less)
    ensures TiedWith(s, z, less) == []
  {
    assert less(z, s[0]);
    forall k | 0 <= k < |s| ensures !Tied(s[k], z, less) {
      assert k == 0 || !less(s[k], s[0]);
      assert less(z, s[k]);
    }
    NoneTied(s, z, less);
  }

  lemma {:induction false} NoneTied<T>(s: seq<T>, z: T, less: (T, T) -> bool)
    requires forall k :: 0 <= k < |s| ==> !Tied(s[k], z, less)
    ensures TiedWith(s, z, less) == []
  {
    if s != [] {
      assert forall k :: 0 <= k < |s[1..]| ==> s[1..][k] == s[k + 1];
      NoneTied(s[1..], z, less);
    }
  }

  /** Inserting `x` puts it after every element it is tied with. */
  lemma {:induction false} InsertStable<T(!new)>(x: T, s: seq<T>, z: T, less: (T, T) -> bool)
    requires StrictWeakOrder(less) && Sorted(s, less)
    ensures TiedWith(Insert(x, s, less), z, less) == TiedWith(s, z, less) + (if Tied(x, z, less) then [x] else [])
  {
    var tail := if Tied(x, z, less) then [x] else [];
    if s == [] {
      assert TiedWith([x], z, less) == tail + TiedWith([x][1..], z, less);
    } else if less(x, s[0]) {
      var r := [x] + s;
      assert r[1..] == s;
      if Tied(x, z, less) {
        NoneTiedAfter(x, z, s, less);
      }
    } else {
      var t := s[1..];
      assert Sorted(t, less) by {
        forall i, j | 0 <= i < j < |t| ensures !less(t[j], t[i]) {
          assert t[j] == s[j + 1] && t[i] == s[i + 1];
        }
      }
      InsertStable(x, t, z, less);
      var head := if Tied(s[0], z, less) then [s[0]] else [];
      var r := [s[0]] + Insert(x, t, less);
      assert r[1..] == Insert(x, t, less);
      assert TiedWith(r, z, less) == head + (TiedWith(t, z, less) + tail);
    }
  }

  lemma {:induction false} TiedWithAppend<T>(s: seq<T>, x: T, z: T, less: (T, T) -> bool)
    ensures TiedWith(s + [x], z, less) == TiedWith(s, z, less) + (if Tied(x, z, less) then [x] else [])
  {
    if s == [] {
      assert [] + [x] == [x];
      assert TiedWith([x], z, less) == (if Tied(x, z, less) then [x] else []) + TiedWith([x][1..], z, less);
    } else {
      var head := if Tied(s[0], z, less) then [s[0]] else [];
      var tail := if Tied(x, z, less) then [x] else [];
      assert (s + [x])[0] == s[0];
      assert (s + [x])[1..] == s[1..] + [x];
      assert TiedWith(s + [x], z, less) == head + TiedWith(s[1..] + [x], z, less);
      TiedWithAppend(s[1..], x, z, less);
      assert TiedWith(s, z, less) == head + TiedWith(s[1..], z, less);
      assert head + (TiedWith(s[1..], z, less) + tail) == (head + TiedWith(s[1..], z, less)) + tail;
    }
  }

  /** The sort is ordered and a permutation of its input. */
  lemma {:induction false} SortByCorrect<T(!new)>(s: seq<T>, less: (T, T) -> bool)
    requires StrictWeakOrder(less)
    ensures Sorted(SortBy(s, less), less)
    ensures multiset(SortBy(s, less)) == multiset(s)
  {
    if s != [] {
      var init := s[..|s| - 1];
      SortByCorrect(init, less);
      InsertSorted(s[|s| - 1], SortBy(init, less), less);
      InsertMultiset(s[|s| - 1], SortBy(init, less), less);
      assert init + [s[|s| - 1]] == s;
    }
  }

  /** The sort is stable: the elements tied with any `z` keep their input order. */
  lemma {:induction false} SortByStable<T(!new)>(s: seq<T>, z: T, less: (T, T) -> bool)
    requires StrictWeakOrder(less)
    ensures TiedWith(SortBy(s, less), z, less) == TiedWith(s, z, less)
  {
    if s != [] {
      var init := s[..|s| - 1];
      var x := s[|s| - 1];
      SortByStable(init, z, less);
      SortByCorrect(init, less);
      InsertStable(x, SortBy(init, less), z, less);
      TiedWithAppend(init, x, z, less);
      assert init + [x] == s;
    }
  }
}
