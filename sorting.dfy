/**
 * A stable insertion sort over a comparator, the behaviour of
 * `Array.prototype.sort` (stable since ES2019) and the order the model gives
 * to SQL `ORDER BY` results, whose ties keep insertion order.
 */
module Sorting {
  import Text

  /** `le` is a total preorder: every pair is comparable and `le` is transitive. */
  ghost predicate TotalPreorder<T(!new)>(le: (T, T) -> bool)
  {
    (forall a, b :: le(a, b) || le(b, a))
    && (forall a, b, c :: le(a, b) && le(b, c) ==> le(a, c))
  }

  ghost predicate SortedBy<T>(s: seq<T>, le: (T, T) -> bool)
  {
    forall i, j :: 0 <= i < j < |s| ==> le(s[i], s[j])
  }

  /** The elements of `s` satisfying `p`, in their order. */
  function Filter<T(!new)>(s: seq<T>, p: T -> bool): (r: seq<T>)
    ensures |r| <= |s|
  {
    if s == [] then [] else (if p(s[0]) then [s[0]] else []) + Filter(s[1..], p)
  }

  /** The filter keeps exactly the elements satisfying `p`. */
  lemma {:induction false} FilterMembers<T(!new)>(s: seq<T>, p: T -> bool)
    ensures forall x :: x in Filter(s, p) <==> x in s && p(x)
    decreases |s|
  {
    if s != [] {
      FilterMembers(s[1..], p);
      assert s == [s[0]] + s[1..];
    }
  }

  lemma {:induction false} FilterAppend<T(!new)>(a: seq<T>, b: seq<T>, p: T -> bool)
    ensures Filter(a + b, p) == Filter(a, p) + Filter(b, p)
    decreases |a|
  {
    if a == [] {
      assert a + b == b;
    } else {
      var head := if p(a[0]) then [a[0]] else [];
      assert Filter(a + b, p) == head + Filter(a[1..] + b, p) by {
        assert (a + b)[0] == a[0] && (a + b)[1..] == a[1..] + b;
      }
      FilterAppend(a[1..], b, p);
      Text.ConcatAssoc(head, Filter(a[1..], p), Filter(b, p));
    }
  }

  /** Filtering by a predicate every element satisfies changes nothing. */
  lemma {:induction false} FilterAll<T(!new)>(s: seq<T>, p: T -> bool)
    requires forall x :: x in s ==> p(x)
    ensures Filter(s, p) == s
    decreases |s|
  {
    if s != [] {
      assert s == [s[0]] + s[1..];
      FilterAll(s[1..], p);
    }
  }

  /** Two filters may be applied in either order. */
  lemma {:induction false} FilterCommute<T(!new)>(s: seq<T>, p: T -> bool, q: T -> bool)
    ensures Filter(Filter(s, p), q) == Filter(Filter(s, q), p)
    decreases |s|
  {
    if s != [] {
      var x := s[0];
      FilterCommute(s[1..], p, q);
      FilterAppend(if p(x) then [x] else [], Filter(s[1..], p), q);
      FilterAppend(if q(x) then [x] else [], Filter(s[1..], q), p);
      assert Filter([x], p) == if p(x) then [x] else [];
      assert Filter([x], q) == if q(x) then [x] else [];
    }
  }

  /** A filter that keeps as many elements as it was given keeps them all. */
  lemma {:induction false} FilterSameLength<T(!new)>(s: seq<T>, p: T -> bool)
    requires |Filter(s, p)| == |s|
    ensures Filter(s, p) == s
    decreases |s|
  {
    if s != [] {
      assert p(s[0]);
      FilterSameLength(s[1..], p);
      assert s == [s[0]] + s[1..];
    }
  }

  /** Places `x` after every element of `s` that is not greater than it. */
  function Insert<T>(x: T, s: seq<T>, le: (T, T) -> bool): (r: seq<T>)
    ensures |r| == |s| + 1
  {
    if s == [] then [x]
    else if le(s[0], x) then [s[0]] + Insert(x, s[1..], le) else [x] + s
  }

  /** Inserting adds `x` and nothing else. */
  lemma {:induction false} InsertMultiset<T>(x: T, s: seq<T>, le: (T, T) -> bool)
    ensures multiset(Insert(x, s, le)) == multiset(s) + multiset{x}
    decreases |s|
  {
    if s != [] {
      assert s == [s[0]] + s[1..];
      InsertMultiset(x, s[1..], le);
    }
  }

  function SortBy<T>(s: seq<T>, le: (T, T) -> bool): (r: seq<T>)
    ensures multiset(r) == multiset(s)
  {
    if s == [] then []
    else
      assert s == s[..|s| - 1] + [s[|s| - 1]];
      InsertMultiset(s[|s| - 1], SortBy(s[..|s| - 1], le), le);
      Insert(s[|s| - 1], SortBy(s[..|s| - 1], le), le)
  }

  lemma {:induction false} InsertSorted<T(!new)>(x: T, s: seq<T>, le: (T, T) -> bool)
    requires TotalPreorder(le) && SortedBy(s, le)
    ensures SortedBy(Insert(x, s, le), le)
    decreases |s|
  {
    if s != [] && le(s[0], x) {
      InsertSorted(x, s[1..], le);
      var t := Insert(x, s[1..], le);
      InsertMultiset(x, s[1..], le);
      forall j | 0 <= j < |t| ensures le(s[0], t[j]) {
        var y := t[j];
        assert y in multiset(t);
        if y != x {
          assert y in multiset(s[1..]);
          assert y in s[1..];
        }
      }
      ConsSorted(s[0], t, le);
    }
  }

  lemma ConsSorted<T>(a: T, t: seq<T>, le: (T, T) -> bool)
    requires SortedBy(t, le) && forall j :: 0 <= j < |t| ==> le(a, t[j])
    ensures SortedBy([a] + t, le)
  {
    var r := [a] + t;
    forall i, j | 0 <= i < j < |r| ensures le(r[i], r[j]) {
      assert r[j] == t[j - 1];
      if i > 0 {
        assert r[i] == t[i - 1];
      }
    }
  }

  lemma {:induction false} SortBySorted<T(!new)>(s: seq<T>, le: (T, T) -> bool)
    requires TotalPreorder(le)
    ensures SortedBy(SortBy(s, le), le)
    decreases |s|
  {
    if s != [] {
      SortBySorted(s[..|s| - 1], le);
      InsertSorted(s[|s| - 1], SortBy(s[..|s| - 1], le), le);
    }
  }

  /** The elements equivalent to `k` under `le`. */
  function EquivClass<T>(le: (T, T) -> bool, k: T): T -> bool
  {
    y => le(y, k) && le(k, y)
  }

  lemma {:induction false} FilterNone<T(!new)>(s: seq<T>, p: T -> bool)
    requires forall i :: 0 <= i < |s| ==> !p(s[i])
    ensures Filter(s, p) == []
    decreases |s|
  {
    if s != [] {
      FilterNone(s[1..], p);
    }
  }

  /** Inserting `x` into a sorted sequence puts it after every element equivalent to it. */
  lemma {:induction false} InsertStable<T(!new)>(x: T, s: seq<T>, le: (T, T) -> bool, k: T)
    requires TotalPreorder(le) && SortedBy(s, le)
    ensures Filter(Insert(x, s, le), EquivClass(le, k))
         == Filter(s, EquivClass(le, k)) + Filter([x], EquivClass(le, k))
    decreases |s|
  {
    var p := EquivClass(le, k);
    if s == [] {
    } else if le(s[0], x) {
      InsertStable(x, s[1..], le, k);
      InsertStableStep(x, s, le, p);
    } else {
      InsertStableFront(x, s, le, k);
    }
  }

  lemma InsertStableStep<T(!new)>(x: T, s: seq<T>, le: (T, T) -> bool, p: T -> bool)
    requires s != [] && le(s[0], x)
    requires Filter(Insert(x, s[1..], le), p) == Filter(s[1..], p) + Filter([x], p)
    ensures Filter(Insert(x, s, le), p) == Filter(s, p) + Filter([x], p)
  {
    var t := Insert(x, s[1..], le);
    var head := if p(s[0]) then [s[0]] else [];
    InsertPast(x, s, le);
    assert Filter([s[0]] + t, p) == head + Filter(t, p) by { FilterCons(s[0], t, p); }
    assert Filter(s, p) == head + Filter(s[1..], p) by {
      assert [s[0]] + s[1..] == s;
      FilterCons(s[0], s[1..], p);
    }
    Text.ConcatAssoc(head, Filter(s[1..], p), Filter([x], p));
  }

  lemma InsertPast<T>(x: T, s: seq<T>, le: (T, T) -> bool)
    requires s != [] && le(s[0], x)
    ensures Insert(x, s, le) == [s[0]] + Insert(x, s[1..], le)
  {
  }

  lemma FilterCons<T(!new)>(a: T, t: seq<T>, p: T -> bool)
    ensures Filter([a] + t, p) == (if p(a) then [a] else []) + Filter(t, p)
  {
    assert ([a] + t)[1..] == t;
  }

  lemma InsertStableFront<T(!new)>(x: T, s: seq<T>, le: (T, T) -> bool, k: T)
    requires TotalPreorder(le) && SortedBy(s, le)
    requires s != [] && !le(s[0], x)
    ensures Filter(Insert(x, s, le), EquivClass(le, k))
         == Filter(s, EquivClass(le, k)) + Filter([x], EquivClass(le, k))
  {
    var p := EquivClass(le, k);
    assert Insert(x, s, le) == [x] + s;
    FilterAppend([x], s, p);
    if p(x) {
      forall i | 0 <= i < |s| ensures !p(s[i]) {
        NotEquiv(x, s, le, k, i);
      }
      FilterNone(s, p);
    }
  }

  lemma NotEquiv<T(!new)>(x: T, s: seq<T>, le: (T, T) -> bool, k: T, i: int)
    requires TotalPreorder(le) && SortedBy(s, le)
    requires 0 <= i < |s| && !le(s[0], x) && le(x, k) && le(k, x)
    ensures !(le(s[i], k) && le(k, s[i]))
  {
    if i > 0 {
      assert le(s[0], s[i]);
    }
  }

  /**
   * Stability: the elements of any one equivalence class keep their relative order.
   */
  lemma {:induction false} SortByStable<T(!new)>(s: seq<T>, le: (T, T) -> bool, k: T)
    requires TotalPreorder(le)
    ensures Filter(SortBy(s, le), EquivClass(le, k)) == Filter(s, EquivClass(le, k))
    decreases |s|
  {
    var p := EquivClass(le, k);
    if s != [] {
      var init := s[..|s| - 1];
      SortByStable(init, le, k);
      SortBySorted(init, le);
      InsertStable(s[|s| - 1], SortBy(init, le), le, k);
      assert s == init + [s[|s| - 1]];
      FilterAppend(init, [s[|s| - 1]], p);
    }
  }

  /** Sorting a sequence that is already sorted leaves it unchanged. */
  lemma {:induction false} SortBySortedId<T(!new)>(s: seq<T>, le: (T, T) -> bool)
    requires TotalPreorder(le) && SortedBy(s, le)
    ensures SortBy(s, le) == s
    decreases |s|
  {
    if s != [] {
      var init := s[..|s| - 1];
      assert SortedBy(init, le);
      SortBySortedId(init, le);
      InsertLast(s[|s| - 1], init, le);
      assert init + [s[|s| - 1]] == s;
    }
  }

  lemma {:induction false} InsertLast<T(!new)>(x: T, s: seq<T>, le: (T, T) -> bool)
    requires forall i :: 0 <= i < |s| ==> le(s[i], x)
    ensures Insert(x, s, le) == s + [x]
    decreases |s|
  {
    if s != [] {
      InsertLast(x, s[1..], le);
      assert [s[0]] + (s[1..] + [x]) == s + [x];
    }
  }

  /** `s` back to front: position `i` holds position `|s| - 1 - i` of `s`. */
  function Reverse<T>(s: seq<T>): (r: seq<T>)
    ensures |r| == |s|
  {
    seq(|s|, i requires 0 <= i < |s| => s[|s| - 1 - i])
  }

  function Take<T>(s: seq<T>, n: int): (r: seq<T>)
    ensures |r| == if n <= 0 then 0 else if n < |s| then n else |s|
    ensures r == s[..|r|]
  {
    if n <= 0 then [] else if n < |s| then s[..n] else s
  }

  /** A subsequence of a sorted sequence is sorted. */
  lemma {:induction false} FilterSorted<T(!new)>(s: seq<T>, p: T -> bool, le: (T, T) -> bool)
    requires SortedBy(s, le)
    ensures SortedBy(Filter(s, p), le)
    decreases |s|
  {
    if s != [] {
      FilterSorted(s[1..], p, le);
      var t := Filter(s[1..], p);
      FilterMembers(s[1..], p);
      forall j | 0 <= j < |t| ensures le(s[0], t[j]) {
        assert t[j] in s[1..];
      }
    }
  }

  ghost predicate Distinct<T>(s: seq<T>)
  {
    forall i, j :: 0 <= i < j < |s| ==> s[i] != s[j]
  }

  lemma {:induction false} DistinctMultiplicity<T>(s: seq<T>, x: T)
    requires Distinct(s)
    ensures multiset(s)[x] <= 1
    decreases |s|
  {
    if s != [] {
      assert s == [s[0]] + s[1..];
      DistinctMultiplicity(s[1..], x);
      if s[0] == x {
        assert x !in s[1..];
      }
    }
  }

  /** A permutation of a sequence without repetitions has none either. */
  lemma PermutationDistinct<T>(s: seq<T>, t: seq<T>)
    requires multiset(s) == multiset(t) && Distinct(t)
    ensures Distinct(s)
  {
    forall i, j | 0 <= i < j < |s| ensures s[i] != s[j] {
      if s[i] == s[j] {
        var x := s[i];
        assert s == s[..i] + [x] + s[i + 1..j] + [x] + s[j + 1..];
        assert multiset(s)[x] >= 2;
        DistinctMultiplicity(t, x);
      }
    }
  }

  /** A permutation of a sequence whose keys are all different has all keys different. */
  lemma PermutationDistinctKeys<T, K>(s: seq<T>, t: seq<T>, key: T -> K)
    requires multiset(s) == multiset(t)
    requires forall i, j :: 0 <= i < j < |t| ==> key(t[i]) != key(t[j])
    ensures forall i, j :: 0 <= i < j < |s| ==> key(s[i]) != key(s[j])
  {
    assert Distinct(t);
    PermutationDistinct(s, t);
    forall i, j | 0 <= i < j < |s| ensures key(s[i]) != key(s[j]) {
      assert s[i] in multiset(t) && s[j] in multiset(t);
      var a :| 0 <= a < |t| && t[a] == s[i];
      var b :| 0 <= b < |t| && t[b] == s[j];
      assert a != b;
    }
  }
}
