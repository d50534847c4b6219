/**
 * Ordering helpers: the descending sort that stands for
 * `sort_values(..., ascending=False)`, and the median of a numeric column
 * (`Series.median`) together with the fact that at most half of the values
 * lie strictly above it.
 */
module Sorting {

  ghost predicate SortedDesc<T>(s: seq<T>, key: T -> real)
  {
    forall i, j :: 0 <= i < j < |s| ==> key(s[i]) >= key(s[j])
  }

  /** Inserts `x` in front of the first element whose key is not larger. */
  function InsertDesc<T>(x: T, s: seq<T>, key: T -> real): (r: seq<T>)
    requires SortedDesc(s, key)
    ensures |r| == |s| + 1
    ensures multiset(r) == multiset(s) + multiset{x}
    ensures SortedDesc(r, key)
    ensures s != [] ==> r[0] == x || r[0] == s[0]
  {
    if s == [] then [x]
    else if key(x) >= key(s[0]) then ConsSorted(x, s, key); [x] + s
    else
      SortedTail(s, key);
      var rest := InsertDesc(x, s[1..], key);
      assert s == [s[0]] + s[1..];
      assert multiset([s[0]] + rest) == multiset{s[0]} + multiset(rest);
      ConsSorted(s[0], rest, key);
      [s[0]] + rest
  }

  /** The tail of a sorted list is sorted and starts no higher than the head. */
  lemma SortedTail<T>(s: seq<T>, key: T -> real)
    requires SortedDesc(s, key) && s != []
    ensures SortedDesc(s[1..], key)
    ensures |s| > 1 ==> key(s[0]) >= key(s[1..][0])
  {
    forall i, j | 0 <= i < j < |s| - 1
      ensures key(s[1..][i]) >= key(s[1..][j])
    {
      assert s[1..][i] == s[i + 1] && s[1..][j] == s[j + 1];
    }
  }

  /** Putting in front of a sorted list an element whose key is at least the first one's keeps it sorted. */
  lemma ConsSorted<T>(a: T, rest: seq<T>, key: T -> real)
    requires SortedDesc(rest, key)
    requires rest != [] ==> key(a) >= key(rest[0])
    ensures SortedDesc([a] + rest, key)
  {
    var r := [a] + rest;
    forall i, j | 0 <= i < j < |r|
      ensures key(r[i]) >= key(r[j])
    {
      assert r[j] == rest[j - 1];
      if i == 0 {
        assert key(rest[0]) >= key(rest[j - 1]);
      } else {
        assert r[i] == rest[i - 1];
      }
    }
  }

  /** A sort by non-increasing key; elements with equal keys keep their input order. */
  function SortDesc<T>(s: seq<T>, key: T -> real): (r: seq<T>)
    ensures |r| == |s|
    ensures multiset(r) == multiset(s)
    ensures SortedDesc(r, key)
  {
    if s == [] then []
    else
      assert s == [s[0]] + s[1..];
      InsertDesc(s[0], SortDesc(s[1..], key), key)
  }

  function Id(y: real): real { y }

  /** Number of values strictly above `m`. */
  function CountAbove(xs: seq<real>, m: real): (n: nat)
    ensures n <= |xs|
  {
    if xs == [] then 0 else (if xs[0] > m then 1 else 0) + CountAbove(xs[1..], m)
  }

  lemma {:induction false} CountAboveConcat(a: seq<real>, b: seq<real>, m: real)
    ensures CountAbove(a + b, m) == CountAbove(a, m) + CountAbove(b, m)
  {
    if a == [] {
      assert a + b == b;
    } else {
      assert (a + b)[1..] == a[1..] + b;
      CountAboveConcat(a[1..], b, m);
    }
  }

  lemma {:induction false} CountAboveInsert(x: real, s: seq<real>, m: real)
    requires SortedDesc(s, Id)
    ensures CountAbove(InsertDesc(x, s, Id), m) == CountAbove(s, m) + (if x > m then 1 else 0)
  {
    if s != [] && x < s[0] {
      CountAboveInsert(x, s[1..], m);
      assert InsertDesc(x, s, Id)[1..] == InsertDesc(x, s[1..], Id);
    }
  }

  /** Sorting does not change how many values lie above a bound. */
  lemma {:induction false} CountAboveSort(xs: seq<real>, m: real)
    ensures CountAbove(SortDesc(xs, Id), m) == CountAbove(xs, m)
  {
    if xs != [] {
      CountAboveSort(xs[1..], m);
      CountAboveInsert(xs[0], SortDesc(xs[1..], Id), m);
    }
  }

  /** In a non-increasing sequence whose tail from `h` is at most `m`, at most `h` values exceed `m`. */
  lemma CountAboveSortedPrefix(s: seq<real>, h: nat, m: real)
    requires h <= |s|
    requires forall k :: h <= k < |s| ==> s[k] <= m
    ensures CountAbove(s, m) <= h
  {
    assert s == s[..h] + s[h..];
    CountAboveConcat(s[..h], s[h..], m);
    CountAboveNone(s[h..], m);
  }

  lemma {:induction false} CountAboveNone(s: seq<real>, m: real)
    requires forall k :: 0 <= k < |s| ==> s[k] <= m
    ensures CountAbove(s, m) == 0
  {
    if s != [] {
      CountAboveNone(s[1..], m);
    }
  }

  /** `Series.median` of the (non-empty) list of non-missing values. */
  function Median(xs: seq<real>): real
    requires |xs| > 0
  {
    Middle(SortDesc(xs, Id))
  }

  /** The middle value of a sorted list, or the mean of the two middle values when its length is even. */
  function Middle(s: seq<real>): real
    requires |s| > 0
  {
    var n := |s|;
    if n % 2 == 1 then s[n / 2] else (s[n / 2 - 1] + s[n / 2]) / 2.0
  }

  /** At most half of the values (rounded down) lie strictly above the median. */
  lemma AtMostHalfAboveMedian(xs: seq<real>)
    requires |xs| > 0
    ensures CountAbove(xs, Median(xs)) <= |xs| / 2
  {
    var s := SortDesc(xs, Id);
    var m := Median(xs);
    MiddleBound(s);
    CountAboveSortedPrefix(s, |s| / 2, m);
    CountAboveSort(xs, m);
  }

  /** In a non-increasing list, every value from the middle position on is at most the middle value. */
  lemma MiddleBound(s: seq<real>)
    requires |s| > 0 && SortedDesc(s, Id)
    ensures forall k :: |s| / 2 <= k < |s| ==> s[k] <= Middle(s)
  {
    var n := |s|;
    var h := n / 2;
    assert Middle(s) >= s[h] by {
      if n % 2 == 0 {
        assert Id(s[h - 1]) >= Id(s[h]);
      }
    }
    forall k | h < k < n
      ensures s[k] <= Middle(s)
    {
      assert Id(s[h]) >= Id(s[k]);
    }
  }
}
