/**
 * A stable sort of a sequence under a "not after" relation, standing for
 * Rust's `slice::sort_by`, `sort_by_key` and `sort` (all stable). The
 * relation `le(a, b)` holds when `a` may come before `b`.
 */
module Sorting {

  ghost predicate IsTotalPreorder<T(!new)>(le: (T, T) -> bool) {
    && (forall a, b :: le(a, b) || le(b, a))
    && (forall a, b, c :: le(a, b) && le(b, c) ==> le(a, c))
  }

  predicate SortedBy<T>(s: seq<T>, le: (T, T) -> bool) {
    forall i, j :: 0 <= i < j < |s| ==> le(s[i], s[j])
  }

  /** `x` placed after every leading element that may come before it. */
  function Insert<T>(x: T, s: seq<T>, le: (T, T) -> bool): (r: seq<T>)
    ensures |r| == |s| + 1
    ensures multiset(r) == multiset(s) + multiset{x}
    decreases |s|
  {
    if |s| == 0 then [x]
    else if !le(s[0], x) then [x] + s
    else assert s == [s[0]] + s[1..]; [s[0]] + Insert(x, s[1..], le)
  }

  /** Insertion sort, taking the elements from left to right. */
  function Sort<T>(s: seq<T>, le: (T, T) -> bool): (r: seq<T>)
    ensures |r| == |s| && multiset(r) == multiset(s)
    decreases |s|
  {
    if |s| == 0 then []
    else assert s == s[..|s| - 1] + [s[|s| - 1]]; Insert(s[|s| - 1], Sort(s[..|s| - 1], le), le)
  }

  lemma {:induction false} InsertSorted<T(!new)>(x: T, s: seq<T>, le: (T, T) -> bool)
    requires IsTotalPreorder(le) && SortedBy(s, le)
    ensures SortedBy(Insert(x, s, le), le)
    decreases |s|
  {
    if |s| > 0 && le(s[0], x) {
      var tail := Insert(x, s[1..], le);
      InsertSorted(x, s[1..], le);
      forall j | 0 <= j < |tail| ensures le(s[0], tail[j]) {
        assert tail[j] in multiset(tail);
        assert tail[j] == x || tail[j] in s[1..];
      }
    }
  }

  lemma {:induction false} SortSorted<T(!new)>(s: seq<T>, le: (T, T) -> bool)
    requires IsTotalPreorder(le)
    ensures SortedBy(Sort(s, le), le)
    decreases |s|
  {
    if |s| > 0 {
      SortSorted(s[..|s| - 1], le);
      InsertSorted(s[|s| - 1], Sort(s[..|s| - 1], le), le);
    }
  }

  lemma {:induction false} InsertAtEnd<T>(x: T, s: seq<T>, le: (T, T) -> bool)
    requires forall i :: 0 <= i < |s| ==> le(s[i], x)
    ensures Insert(x, s, le) == s + [x]
    decreases |s|
  {
    if |s| > 0 {
      InsertAtEnd(x, s[1..], le);
    }
  }

  /** Sorting leaves an already sorted sequence exactly as it is. */
  lemma {:induction false} SortKeepsSorted<T>(s: seq<T>, le: (T, T) -> bool)
    requires SortedBy(s, le)
    ensures Sort(s, le) == s
    decreases |s|
  {
    if |s| > 0 {
      var init := s[..|s| - 1];
      assert SortedBy(init, le);
      SortKeepsSorted(init, le);
      InsertAtEnd(s[|s| - 1], init, le);
    }
  }

  /** The elements of `s` that are equivalent to `x` under `le` (each may
      come before the other), in their order in `s`. */
  function Equivalents<T(!new)>(s: seq<T>, x: T, le: (T, T) -> bool): (r: seq<T>)
    ensures |r| <= |s|
    ensures forall y :: y in r <==> y in s && le(x, y) && le(y, x)
    decreases |s|
  {
    if |s| == 0 then []
    else
      var rest := Equivalents(s[1..], x, le);
      assert forall y :: y in s <==> y == s[0] || y in s[1..];
      (if le(x, s[0]) && le(s[0], x) then [s[0]] else []) + rest
  }

  lemma {:induction false} EquivalentsAppend<T(!new)>(a: seq<T>, b: seq<T>, x: T, le: (T, T) -> bool)
    ensures Equivalents(a + b, x, le) == Equivalents(a, x, le) + Equivalents(b, x, le)
    decreases |a|
  {
    if |a| == 0 {
      assert a + b == b;
    } else {
      assert (a + b)[0] == a[0] && (a + b)[1..] == a[1..] + b;
      EquivalentsAppend(a[1..], b, x, le);
    }
  }

  lemma EquivalentsSnoc<T(!new)>(s: seq<T>, y: T, x: T, le: (T, T) -> bool)
    ensures Equivalents(s + [y], x, le) == Equivalents(s, x, le) + (if le(x, y) && le(y, x) then [y] else [])
  {
    EquivalentsAppend(s, [y], x, le);
    assert Equivalents([y], x, le) == (if le(x, y) && le(y, x) then [y] else []) + Equivalents([], x, le);
  }

  lemma {:induction false} NoEquivalents<T(!new)>(s: seq<T>, x: T, le: (T, T) -> bool)
    requires forall k :: 0 <= k < |s| ==> !(le(x, s[k]) && le(s[k], x))
    ensures Equivalents(s, x, le) == []
    decreases |s|
  {
    if |s| > 0 {
      NoEquivalents(s[1..], x, le);
    }
  }

  /** Inserting `y` into a sorted sequence adds it after the elements
      equivalent to it. */
  lemma {:induction false} InsertEquivalents<T(!new)>(y: T, s: seq<T>, x: T, le: (T, T) -> bool)
    requires IsTotalPreorder(le) && SortedBy(s, le)
    ensures Equivalents(Insert(y, s, le), x, le)
      == Equivalents(s, x, le) + (if le(x, y) && le(y, x) then [y] else [])
    decreases |s|
  {
    if |s| == 0 {
    } else if !le(s[0], y) {
      if le(x, y) && le(y, x) {
        forall k | 0 <= k < |s| ensures !(le(x, s[k]) && le(s[k], x)) {
          if k > 0 {
            assert le(s[0], s[k]);
          }
        }
        NoEquivalents(s, x, le);
      }
      assert Insert(y, s, le) == [y] + s;
      EquivalentsAppend([y], s, x, le);
    } else {
      assert SortedBy(s[1..], le) by {
        forall i, j | 0 <= i < j < |s[1..]| ensures le(s[1..][i], s[1..][j]) {
          assert s[1..][i] == s[i + 1] && s[1..][j] == s[j + 1];
        }
      }
      InsertEquivalents(y, s[1..], x, le);
    }
  }

  /** Stability: the elements equivalent to any `x` come out of the sort in
      the order they had in the input. */
  lemma {:induction false} SortStable<T(!new)>(s: seq<T>, x: T, le: (T, T) -> bool)
    requires IsTotalPreorder(le)
    ensures Equivalents(Sort(s, le), x, le) == Equivalents(s, x, le)
    decreases |s|
  {
    if |s| > 0 {
      var init := s[..|s| - 1];
      var y := s[|s| - 1];
      SortStable(init, x, le);
      SortSorted(init, le);
      InsertEquivalents(y, Sort(init, le), x, le);
      StableStep(init, y, x, le);
      SnocSplit(s);
    }
  }

  lemma SnocSplit<T>(s: seq<T>)
    requires |s| > 0
    ensures s == s[..|s| - 1] + [s[|s| - 1]]
  {
  }

  /** The step of `SortStable`: appending `y` keeps the order of the
      equivalents when sorting the others did and inserting `y` adds it
      after them. */
  lemma StableStep<T(!new)>(init: seq<T>, y: T, x: T, le: (T, T) -> bool)
    requires Equivalents(Sort(init, le), x, le) == Equivalents(init, x, le)
    requires Equivalents(Insert(y, Sort(init, le), le), x, le)
      == Equivalents(Sort(init, le), x, le) + (if le(x, y) && le(y, x) then [y] else [])
    ensures Equivalents(Sort(init + [y], le), x, le) == Equivalents(init + [y], x, le)
  {
    var s := init + [y];
    assert s[..|s| - 1] == init;
    assert Sort(s, le) == Insert(y, Sort(init, le), le);
    EquivalentsSnoc(init, y, x, le);
  }

  /** No two elements of `s` share a key. */
  ghost predicate DistinctBy<T, K>(s: seq<T>, key: T -> K) {
    forall i, j :: 0 <= i < j < |s| ==> key(s[i]) != key(s[j])
  }

  lemma {:induction false} InsertDistinct<T, K>(x: T, s: seq<T>, le: (T, T) -> bool, key: T -> K)
    requires DistinctBy(s, key) && forall i :: 0 <= i < |s| ==> key(s[i]) != key(x)
    ensures DistinctBy(Insert(x, s, le), key)
    decreases |s|
  {
    if |s| > 0 && le(s[0], x) {
      var rest := s[1..];
      assert forall i :: 0 <= i < |rest| ==> rest[i] == s[i + 1];
      InsertDistinct(x, rest, le, key);
      var tail := Insert(x, rest, le);
      forall j | 0 <= j < |tail| ensures key(s[0]) != key(tail[j]) {
        assert tail[j] in multiset(tail);
        assert tail[j] == x || tail[j] in rest;
      }
      assert Insert(x, s, le) == [s[0]] + tail;
      assert forall j :: 1 <= j < |tail| + 1 ==> ([s[0]] + tail)[j] == tail[j - 1];
    }
  }

  /** Sorting keeps keys distinct. */
  lemma {:induction false} SortDistinct<T, K>(s: seq<T>, le: (T, T) -> bool, key: T -> K)
    requires DistinctBy(s, key)
    ensures DistinctBy(Sort(s, le), key)
    decreases |s|
  {
    if |s| > 0 {
      var init := s[..|s| - 1];
      var x := s[|s| - 1];
      assert forall i :: 0 <= i < |init| ==> init[i] == s[i];
      SortDistinct(init, le, key);
      var t := Sort(init, le);
      forall i | 0 <= i < |t| ensures key(t[i]) != key(x) {
        assert t[i] in multiset(t);
        assert t[i] in init;
      }
      InsertDistinct(x, t, le, key);
    }
  }
}
