/** Shared vocabulary: optional values, identifiers, and the array combinators
    (`filter`, `map`, `reduce` with `+`) that the routes and pages apply to
    fetched collections. */
module Common {

  /** A value that may be absent: a missing request field, an unpopulated
      reference, a failed `find`. */
  datatype Option<+T> = None | Some(value: T) {
    function GetOr(default: T): T {
      match this
      case Some(v) => v
      case None => default
    }
  }

  /** Database identifiers (`_id`) are opaque strings. */
  type Id = string

  function Min(a: int, b: int): int { if a <= b then a else b }

  function Max(a: int, b: int): int { if a >= b then a else b }

  /** `s.filter(p)`: the elements satisfying `p`, in their original order. */
  function Filter<T>(s: seq<T>, p: T -> bool): (r: seq<T>)
    ensures |r| <= |s|
    ensures forall x :: x in r ==> x in s && p(x)
    ensures forall x :: x in s && p(x) ==> x in r
  {
    if |s| == 0 then []
    else if p(s[0]) then [s[0]] + Filter(s[1..], p)
    else Filter(s[1..], p)
  }

  /** `s.map(f)`. */
  function MapSeq<T, U>(s: seq<T>, f: T -> U): (r: seq<U>)
    ensures |r| == |s|
    ensures forall i :: 0 <= i < |s| ==> r[i] == f(s[i])
  {
    seq(|s|, i requires 0 <= i < |s| => f(s[i]))
  }

  /** `s.reduce((sum, x) => sum + f(x), 0)`. */
  function SumBy<T>(s: seq<T>, f: T -> int): int
  {
    if |s| == 0 then 0 else f(s[0]) + SumBy(s[1..], f)
  }

  /** Filtering distributes over concatenation: it keeps relative order and
      never moves an element across the boundary. */
  lemma {:induction false} FilterConcat<T>(a: seq<T>, b: seq<T>, p: T -> bool)
    ensures Filter(a + b, p) == Filter(a, p) + Filter(b, p)
  {
    if |a| == 0 {
      assert a + b == b;
    } else {
      assert (a + b)[1..] == a[1..] + b;
      FilterConcat(a[1..], b, p);
    }
  }

  /** When every element before one that passes also passes, the filter
      keeps a prefix. */
  lemma {:induction false} FilterOfClosedIsPrefix<T>(s: seq<T>, p: T -> bool)
    requires forall i, j :: 0 <= i < j < |s| && p(s[j]) ==> p(s[i])
    ensures Filter(s, p) == s[..|Filter(s, p)|]
  {
    if |s| > 0 {
      if p(s[0]) {
        var rest := s[1..];
        assert forall i, j :: 0 <= i < j < |rest| && p(rest[j]) ==> p(rest[i]) by {
          forall i, j | 0 <= i < j < |rest| && p(rest[j])
            ensures p(rest[i])
          {
            assert rest[i] == s[i + 1] && rest[j] == s[j + 1];
          }
        }
        FilterOfClosedIsPrefix(rest, p);
        var m := |Filter(rest, p)|;
        assert [s[0]] + rest[..m] == s[..m + 1];
      } else {
        assert forall i :: 0 < i < |s| && p(s[i]) ==> p(s[0]);
        FilterDropsAll(s, p);
      }
    }
  }

  /** A filter that every element passes is the identity. */
  lemma {:induction false} FilterKeepsAll<T>(s: seq<T>, p: T -> bool)
    requires forall i :: 0 <= i < |s| ==> p(s[i])
    ensures Filter(s, p) == s
  {
    if |s| > 0 {
      FilterKeepsAll(s[1..], p);
    }
  }

  /** A filter that no element passes yields nothing. */
  lemma {:induction false} FilterDropsAll<T>(s: seq<T>, p: T -> bool)
    requires forall i :: 0 <= i < |s| ==> !p(s[i])
    ensures Filter(s, p) == []
  {
    if |s| > 0 {
      FilterDropsAll(s[1..], p);
    }
  }

  /** Summing distributes over concatenation. */
  lemma {:induction false} SumConcat<T>(a: seq<T>, b: seq<T>, f: T -> int)
    ensures SumBy(a + b, f) == SumBy(a, f) + SumBy(b, f)
  {
    if |a| == 0 {
      assert a + b == b;
    } else {
      assert (a + b)[1..] == a[1..] + b;
      SumConcat(a[1..], b, f);
    }
  }

  /** A sum of non-negative terms is non-negative, and is at least any one
      of its terms. */
  lemma {:induction false} SumBounds<T>(s: seq<T>, f: T -> int)
    requires forall i :: 0 <= i < |s| ==> f(s[i]) >= 0
    ensures SumBy(s, f) >= 0
    ensures forall i :: 0 <= i < |s| ==> f(s[i]) <= SumBy(s, f)
  {
    if |s| > 0 {
      SumBounds(s[1..], f);
      assert forall i :: 1 <= i < |s| ==> s[i] == s[1..][i - 1];
    }
  }

  /** A sum of strictly positive terms is positive exactly when there is a
      term. */
  lemma {:induction false} SumPositiveIffNonEmpty<T>(s: seq<T>, f: T -> int)
    requires forall i :: 0 <= i < |s| ==> f(s[i]) > 0
    ensures SumBy(s, f) > 0 <==> |s| > 0
  {
    if |s| > 0 {
      SumBounds(s[1..], f);
    }
  }

  /** Splitting a sum along a predicate and its complement loses nothing. */
  lemma {:induction false} SumSplit<T>(s: seq<T>, p: T -> bool, q: T -> bool, f: T -> int)
    requires forall x :: q(x) == !p(x)
    ensures SumBy(s, f) == SumBy(Filter(s, p), f) + SumBy(Filter(s, q), f)
  {
    if |s| > 0 {
      SumSplit(s[1..], p, q, f);
      if p(s[0]) {
        SumConcat([s[0]], Filter(s[1..], p), f);
      } else {
        SumConcat([s[0]], Filter(s[1..], q), f);
      }
    }
  }
}
