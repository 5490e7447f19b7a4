/** The Python built-ins the whist engine leans on: `range`, `sum`, `max`,
    `list.index`, and a few sequence helpers. */
module Builtins {

  /** Python's `range(start, stop, step)` for a non-zero step. */
  function Range(start: int, stop: int, step: int): (r: seq<int>)
    requires step != 0
    ensures step > 0 ==> forall i :: 0 <= i < |r| ==> start <= r[i] < stop
    ensures step < 0 ==> forall i :: 0 <= i < |r| ==> stop < r[i] <= start
    decreases if step > 0 then stop - start else start - stop
  {
    if (step > 0 && start < stop) || (step < 0 && stop < start) then
      [start] + Range(start + step, stop, step)
    else
      []
  }

  /** An ascending range holds exactly the `m` values start, start+step, ...
      when `m` is the number of steps that stay below `stop`. */
  lemma {:induction false} RangeSteps(start: int, stop: int, step: int, m: nat)
    requires step > 0
    requires m == 0 ==> stop <= start
    requires m > 0 ==> start + (m - 1) * step < stop <= start + m * step
    ensures |Range(start, stop, step)| == m
    ensures forall k :: 0 <= k < m ==> Range(start, stop, step)[k] == start + k * step
    decreases m
  {
    if m > 0 {
      assert start < stop by {
        assert (m - 1) * step >= 0;
      }
      assert (start + step) + (m - 2) * step == start + (m - 1) * step;
      assert (start + step) + (m - 1) * step == start + m * step;
      RangeSteps(start + step, stop, step, m - 1);
      var r := Range(start, stop, step);
      assert r == [start] + Range(start + step, stop, step);
      forall k | 0 <= k < m
        ensures r[k] == start + k * step
      {
        if k > 0 {
          assert r[k] == Range(start + step, stop, step)[k - 1];
          assert (start + step) + (k - 1) * step == start + k * step;
        }
      }
    }
  }

  /** Python's `sum` over a list of integers. */
  function Sum(s: seq<int>): int
  {
    if s == [] then 0 else Sum(s[..|s| - 1]) + s[|s| - 1]
  }

  lemma {:induction false} SumAppend(s: seq<int>, t: seq<int>)
    ensures Sum(s + t) == Sum(s) + Sum(t)
  {
    if t != [] {
      assert (s + t)[..|s + t| - 1] == s + t[..|t| - 1];
      SumAppend(s, t[..|t| - 1]);
    } else {
      assert s + t == s;
    }
  }

  /** A sum of non-negative values is non-negative. */
  lemma {:induction false} SumNonNegative(s: seq<int>)
    requires forall i :: 0 <= i < |s| ==> s[i] >= 0
    ensures Sum(s) >= 0
  {
    if s != [] {
      SumNonNegative(s[..|s| - 1]);
    }
  }

  /** `range(n)` holds exactly 0, ..., n - 1. */
  lemma RangeMembers(n: int)
    ensures forall b :: b in Range(0, n, 1) <==> 0 <= b < n
  {
    if n > 0 {
      RangeSteps(0, n, 1, n);
      forall b | 0 <= b < n
        ensures b in Range(0, n, 1)
      {
        assert Range(0, n, 1)[b] == b;
      }
    } else {
      RangeSteps(0, n, 1, 0);
    }
  }

  /** Python's `max` over a non-empty list. */
  function Max(s: seq<int>): (m: int)
    requires |s| > 0
    ensures m in s
    ensures forall x :: x in s ==> x <= m
  {
    if |s| == 1 then s[0]
    else
      var rest := Max(s[1..]);
      assert forall x :: x in s ==> x == s[0] || x in s[1..];
      if s[0] >= rest then s[0] else rest
  }

  /** Python's `list.index`: the position of the first occurrence. */
  function IndexOf<T(==)>(s: seq<T>, x: T): (i: nat)
    requires x in s
    ensures i < |s| && s[i] == x
    ensures forall j :: 0 <= j < i ==> s[j] != x
  {
    if s[0] == x then 0 else 1 + IndexOf(s[1..], x)
  }

  /** The elements of `s` taken at the given positions, in that order. */
  function Pick<T>(s: seq<T>, positions: seq<int>): (r: seq<T>)
    requires forall i :: 0 <= i < |positions| ==> 0 <= positions[i] < |s|
    ensures |r| == |positions|
    ensures forall i :: 0 <= i < |positions| ==> r[i] == s[positions[i]]
  {
    seq(|positions|, i requires 0 <= i < |positions| => s[positions[i]])
  }

  /** No value occurs twice in `s`. */
  predicate Distinct<T(==)>(s: seq<T>)
  {
    forall i, j :: 0 <= i < j < |s| ==> s[i] != s[j]
  }

  /** `s` with position `i` removed, which is what Python's `list.pop(i)` leaves. */
  function RemoveAt<T>(s: seq<T>, i: nat): (r: seq<T>)
    requires i < |s|
    ensures |r| == |s| - 1
    ensures forall k :: 0 <= k < i ==> r[k] == s[k]
    ensures forall k :: i <= k < |r| ==> r[k] == s[k + 1]
    ensures multiset(r) + multiset{s[i]} == multiset(s)
  {
    assert s == s[..i] + [s[i]] + s[i + 1..];
    s[..i] + s[i + 1..]
  }

  /** In a list without repetitions every value occurs at most once. */
  lemma {:induction false} DistinctCountsOne<T>(s: seq<T>, x: T)
    requires Distinct(s)
    ensures multiset(s)[x] <= 1
  {
    if s != [] {
      var t := s[..|s| - 1];
      assert s == t + [s[|s| - 1]];
      assert Distinct(t);
      DistinctCountsOne(t, x);
      if x == s[|s| - 1] {
        assert x !in t;
      }
    }
  }

  /** A rearrangement of a list without repetitions has none either. */
  lemma DistinctPermutation<T>(s: seq<T>, t: seq<T>)
    requires Distinct(s) && multiset(s) == multiset(t)
    ensures Distinct(t)
  {
    forall i, j | 0 <= i < j < |t|
      ensures t[i] != t[j]
    {
      if t[i] == t[j] {
        var x := t[i];
        assert multiset(t)[x] >= 2 by {
          assert t == t[..i] + [x] + t[i + 1..j] + [x] + t[j + 1..];
        }
        DistinctCountsOne(s, x);
      }
    }
  }
}
