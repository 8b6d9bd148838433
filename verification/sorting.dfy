/** The `.sort({ createdAt: -1 })` order of the debt and transaction queries:
    newest first. The database does not promise an order among equal keys, so
    the properties proved here are "sorted by key, descending" and "a
    permutation of the input"; the insertion sort below is one admissible
    order. */
module Sorting {
  import opened Common

  /** Every element's key is at least the key of every later element. */
  ghost predicate SortedDesc<T>(s: seq<T>, key: T -> int) {
    forall i, j :: 0 <= i < j < |s| ==> key(s[i]) >= key(s[j])
  }

  /** Dropping the first element of a sorted sequence leaves it sorted. */
  lemma SortedTail<T>(s: seq<T>, key: T -> int)
    requires SortedDesc(s, key) && |s| > 0
    ensures SortedDesc(s[1..], key)
  {
    forall i, j | 0 <= i < j < |s| - 1
      ensures key(s[1..][i]) >= key(s[1..][j])
    {
      assert s[1..][i] == s[i + 1] && s[1..][j] == s[j + 1];
    }
  }

  /** Places `x` before the first element whose key is not larger than its
      own, so `x` goes ahead of elements with an equal key; into a sorted
      sequence, that keeps it sorted. */
  function Insert<T>(x: T, s: seq<T>, key: T -> int): (r: seq<T>)
    ensures SortedDesc(s, key) ==> SortedDesc(r, key)
    ensures multiset(r) == multiset(s) + multiset{x}
    ensures |r| == |s| + 1
  {
    if |s| == 0 || key(x) >= key(s[0]) then
      assert SortedDesc(s, key) ==> SortedDesc([x] + s, key) by {
        if SortedDesc(s, key) {
          SortedCons(x, s, key);
        }
      }
      [x] + s
    else
      var rest := Insert(x, s[1..], key);
      assert multiset(s) == multiset{s[0]} + multiset(s[1..]) by {
        assert s == [s[0]] + s[1..];
      }
      assert SortedDesc(s, key) ==> SortedDesc([s[0]] + rest, key) by {
        if SortedDesc(s, key) {
          SortedTail(s, key);
          BoundedByHead(x, s, rest, key);
          SortedCons(s[0], rest, key);
        }
      }
      [s[0]] + rest
  }

  /** Putting an element with the largest key in front of a sorted list
      keeps it sorted. */
  lemma SortedCons<T>(y: T, s: seq<T>, key: T -> int)
    requires SortedDesc(s, key)
    requires |s| == 0 || key(y) >= key(s[0])
    ensures SortedDesc([y] + s, key)
  {
    var r := [y] + s;
    forall i, j | 0 <= i < j < |r|
      ensures key(r[i]) >= key(r[j])
    {
      if i > 0 {
        assert r[i] == s[i - 1] && r[j] == s[j - 1];
      } else {
        assert r[j] == s[j - 1];
      }
    }
  }

  /** Every element of `s` after its head, and `x` itself when it belongs
      after the head, has a key no larger than the head's. */
  lemma BoundedByHead<T>(x: T, s: seq<T>, rest: seq<T>, key: T -> int)
    requires SortedDesc(s, key) && |s| > 0 && key(x) < key(s[0])
    requires multiset(rest) == multiset(s[1..]) + multiset{x}
    ensures forall i :: 0 <= i < |rest| ==> key(rest[i]) <= key(s[0])
  {
    forall i | 0 <= i < |rest|
      ensures key(rest[i]) <= key(s[0])
    {
      assert rest[i] in multiset(rest);
      if rest[i] != x {
        assert rest[i] in multiset(s[1..]);
        var k :| 0 <= k < |s[1..]| && s[1..][k] == rest[i];
        assert s[k + 1] == rest[i];
      }
    }
  }

  /** Sorts by `key`, largest (newest) first. */
  function SortDesc<T>(s: seq<T>, key: T -> int): (r: seq<T>)
    ensures SortedDesc(r, key)
    ensures multiset(r) == multiset(s)
    ensures |r| == |s|
  {
    if |s| == 0 then []
    else
      assert s == [s[0]] + s[1..];
      Insert(s[0], SortDesc(s[1..], key), key)
  }

  /** Sorting neither adds nor drops elements. */
  lemma SortKeepsMembers<T>(s: seq<T>, key: T -> int)
    ensures forall x :: x in SortDesc(s, key) ==> x in s
    ensures forall x :: x in s ==> x in SortDesc(s, key)
  {
    var r := SortDesc(s, key);
    assert forall x :: x in r ==> x in multiset(r);
    assert forall x :: x in s ==> x in multiset(s);
  }

  /** Filtering a sorted sequence leaves it sorted. */
  lemma {:induction false} FilterKeepsSorted<T>(s: seq<T>, p: T -> bool, key: T -> int)
    requires SortedDesc(s, key)
    ensures SortedDesc(Filter(s, p), key)
  {
    if |s| > 0 {
      FilterKeepsSorted(s[1..], p, key);
      var rest := Filter(s[1..], p);
      if p(s[0]) {
        forall y | y in rest
          ensures key(s[0]) >= key(y)
        {
          var k :| 0 <= k < |s[1..]| && s[1..][k] == y;
          assert s[k + 1] == y;
        }
      }
    }
  }

  /** The sum over a filtered sequence does not depend on where `x` was
      inserted. */
  lemma {:induction false} SumFilterInsert<T>(x: T, s: seq<T>, key: T -> int, p: T -> bool, f: T -> int)
    ensures SumBy(Filter(Insert(x, s, key), p), f) == SumBy(Filter([x] + s, p), f)
  {
    if |s| > 0 && key(x) < key(s[0]) {
      var a, b, c := [x], [s[0]], s[1..];
      var ins := Insert(x, c, key);
      calc {
        SumBy(Filter(Insert(x, s, key), p), f);
      == { assert Insert(x, s, key) == b + ins; }
        SumBy(Filter(b + ins, p), f);
      == { FilterConcat(b, ins, p); SumConcat(Filter(b, p), Filter(ins, p), f); }
        SumBy(Filter(b, p), f) + SumBy(Filter(ins, p), f);
      == { SumFilterInsert(x, c, key, p, f); }
        SumBy(Filter(b, p), f) + SumBy(Filter(a + c, p), f);
      == { FilterConcat(a, c, p); SumConcat(Filter(a, p), Filter(c, p), f); }
        SumBy(Filter(a, p), f) + (SumBy(Filter(b, p), f) + SumBy(Filter(c, p), f));
      == { FilterConcat(b, c, p); SumConcat(Filter(b, p), Filter(c, p), f); }
        SumBy(Filter(a, p), f) + SumBy(Filter(b + c, p), f);
      == { FilterConcat(a, b + c, p); SumConcat(Filter(a, p), Filter(b + c, p), f); }
        SumBy(Filter(a + (b + c), p), f);
      == { assert a + (b + c) == [x] + s; }
        SumBy(Filter([x] + s, p), f);
      }
    }
  }

  /** Sorting does not change the sum over any filter of the rows: the
      newest-first listing carries the same totals as the stored order. */
  lemma {:induction false} SumFilterSort<T>(s: seq<T>, key: T -> int, p: T -> bool, f: T -> int)
    ensures SumBy(Filter(SortDesc(s, key), p), f) == SumBy(Filter(s, p), f)
  {
    if |s| > 0 {
      var sorted := SortDesc(s[1..], key);
      SumFilterSort(s[1..], key, p, f);
      SumFilterInsert(s[0], sorted, key, p, f);
      assert SortDesc(s, key) == Insert(s[0], sorted, key);
      FilterConcat([s[0]], sorted, p);
      FilterConcat([s[0]], s[1..], p);
      SumConcat(Filter([s[0]], p), Filter(sorted, p), f);
      SumConcat(Filter([s[0]], p), Filter(s[1..], p), f);
      assert s == [s[0]] + s[1..];
    }
  }
}
