/** The stable ascending sort of a list by a numeric key, and sums that do not depend on order. */
module Sorting {

  /** Inserted after everything whose key is not larger. */
  function Insert<T(!new)>(x: T, s: seq<T>, key: T -> real): (t: seq<T>)
    ensures |t| == |s| + 1
    ensures multiset(t) == multiset(s) + multiset{x}
  {
    if s == [] then [x]
    else
      var n := |s| - 1;
      assert s == s[..n] + [s[n]];
      if key(s[n]) <= key(x) then s + [x] else Insert(x, s[..n], key) + [s[n]]
  }

  function SortBy<T(!new)>(s: seq<T>, key: T -> real): (t: seq<T>)
    ensures |t| == |s|
    ensures multiset(t) == multiset(s)
  {
    if s == [] then []
    else
      assert s == s[..|s| - 1] + [s[|s| - 1]];
      Insert(s[|s| - 1], SortBy(s[..|s| - 1], key), key)
  }

  ghost predicate Sorted<T(!new)>(s: seq<T>, key: T -> real) {
    forall i, j :: 0 <= i < j < |s| ==> key(s[i]) <= key(s[j])
  }

  lemma {:induction false} InsertKeepsSorted<T(!new)>(x: T, s: seq<T>, key: T -> real)
    requires Sorted(s, key)
    ensures Sorted(Insert(x, s, key), key)
  {
    if s != [] && key(x) < key(s[|s| - 1]) {
      var n := |s| - 1;
      InsertKeepsSorted(x, s[..n], key);
      var t := Insert(x, s[..n], key);
      assert Insert(x, s, key) == t + [s[n]];
      forall i | 0 <= i < |t| ensures key(t[i]) <= key(s[n]) {
        InsertedOrThere(x, s[..n], key, t[i]);
      }
      hide Insert;
      SortedWithLargest(t, s[n], key);
    }
  }

  lemma InsertedOrThere<T(!new)>(x: T, s: seq<T>, key: T -> real, y: T)
    requires y in Insert(x, s, key)
    ensures y == x || y in s
  {
    hide Insert;
    assert y in multiset(Insert(x, s, key));
  }

  lemma SortedWithLargest<T(!new)>(t: seq<T>, y: T, key: T -> real)
    requires Sorted(t, key) && forall i :: 0 <= i < |t| ==> key(t[i]) <= key(y)
    ensures Sorted(t + [y], key)
  {
  }

  lemma {:induction false} SortByIsSorted<T(!new)>(s: seq<T>, key: T -> real)
    ensures Sorted(SortBy(s, key), key)
  {
    if s != [] {
      SortByIsSorted(s[..|s| - 1], key);
      InsertKeepsSorted(s[|s| - 1], SortBy(s[..|s| - 1], key), key);
    }
  }

  function Sum<T(!new)>(s: seq<T>, g: T -> real): real {
    if s == [] then 0.0 else Sum(s[..|s| - 1], g) + g(s[|s| - 1])
  }

  lemma {:induction false} SumOfInsert<T(!new)>(x: T, s: seq<T>, key: T -> real, g: T -> real)
    ensures Sum(Insert(x, s, key), g) == Sum(s, g) + g(x)
  {
    if s != [] {
      var n := |s| - 1;
      if key(s[n]) <= key(x) {
        assert (s + [x])[..n + 1] == s;
      } else {
        SumOfInsert(x, s[..n], key, g);
        assert (Insert(x, s[..n], key) + [s[n]])[..n + 1] == Insert(x, s[..n], key);
      }
    }
  }

  lemma {:induction false} SumOfSort<T(!new)>(s: seq<T>, key: T -> real, g: T -> real)
    ensures Sum(SortBy(s, key), g) == Sum(s, g)
  {
    if s != [] {
      SumOfSort(s[..|s| - 1], key, g);
      SumOfInsert(s[|s| - 1], SortBy(s[..|s| - 1], key), key, g);
    }
  }

  function Filter<T(!new)>(s: seq<T>, p: T -> bool): (t: seq<T>)
    ensures |t| <= |s|
    ensures forall x :: x in t <==> x in s && p(x)
  {
    if s == [] then []
    else
      var n := |s| - 1;
      assert s == s[..n] + [s[n]];
      if p(s[n]) then Filter(s[..n], p) + [s[n]] else Filter(s[..n], p)
  }

  function Count<T(!new)>(s: seq<T>, p: T -> bool): nat {
    |Filter(s, p)|
  }

  lemma CountStep<T(!new)>(s: seq<T>, p: T -> bool)
    requires s != []
    ensures Count(s, p) == Count(s[..|s| - 1], p) + if p(s[|s| - 1]) then 1 else 0
  {
  }

  lemma {:induction false} FilterOfInsert<T(!new)>(x: T, s: seq<T>, key: T -> real, p: T -> bool)
    ensures Count(Insert(x, s, key), p) == Count(s, p) + if p(x) then 1 else 0
  {
    if s != [] {
      var n := |s| - 1;
      if key(s[n]) <= key(x) {
        assert (s + [x])[..n + 1] == s;
      } else {
        FilterOfInsert(x, s[..n], key, p);
        assert (Insert(x, s[..n], key) + [s[n]])[..n + 1] == Insert(x, s[..n], key);
      }
    }
  }

  lemma {:induction false} CountOfSort<T(!new)>(s: seq<T>, key: T -> real, p: T -> bool)
    ensures Count(SortBy(s, key), p) == Count(s, p)
  {
    if s != [] {
      CountOfSort(s[..|s| - 1], key, p);
      FilterOfInsert(s[|s| - 1], SortBy(s[..|s| - 1], key), key, p);
    }
  }

  lemma {:induction false} CountOfConcat<T(!new)>(s: seq<T>, t: seq<T>, p: T -> bool)
    ensures Count(s + t, p) == Count(s, p) + Count(t, p)
  {
    if t == [] {
      assert s + t == s;
    } else {
      var n := |t| - 1;
      assert (s + t)[..|s| + n] == s + t[..n];
      CountOfConcat(s, t[..n], p);
    }
  }

  lemma {:induction false} CountSplits<T(!new)>(s: seq<T>, p: T -> bool, q: T -> bool)
    requires forall x :: x in s ==> p(x) != q(x)
    ensures Count(s, p) + Count(s, q) == |s|
  {
    if s != [] {
      var n := |s| - 1;
      assert s == s[..n] + [s[n]];
      CountSplits(s[..n], p, q);
    }
  }

  /** A predicate true of the last items of a list is counted at least that often. */
  lemma CountSuffix<T(!new)>(s: seq<T>, k: nat, p: T -> bool)
    requires k <= |s| && forall i :: k <= i < |s| ==> p(s[i])
    ensures |s| - k <= Count(s, p)
  {
    if k < |s| {
      CountSuffix(s[..|s| - 1], k, p);
    }
  }

  lemma CountPrefix<T(!new)>(s: seq<T>, k: nat, p: T -> bool)
    requires k <= |s| && forall i :: 0 <= i < k ==> p(s[i])
    ensures k <= Count(s, p)
  {
    if k < |s| {
      CountPrefix(s[..|s| - 1], k, p);
    } else if k > 0 {
      CountPrefix(s[..|s| - 1], k - 1, p);
    }
  }
}
