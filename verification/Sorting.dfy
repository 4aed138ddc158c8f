/** A stable sort by an ordering, standing for the library sorts the code calls. */
module Sorting {

  ghost predicate TotalOrder<T(!new)>(le: (T, T) -> bool) {
    && (forall a, b :: le(a, b) || le(b, a))
    && (forall a, b, c :: le(a, b) && le(b, c) ==> le(a, c))
  }

  ghost predicate SortedBy<T>(s: seq<T>, le: (T, T) -> bool) {
    forall i, j :: 0 <= i < j < |s| ==> le(s[i], s[j])
  }

  /** Puts `x` behind every element that may stand before it. */
  function Insert<T>(s: seq<T>, x: T, le: (T, T) -> bool): seq<T> {
    if s == [] || le(s[|s| - 1], x) then s + [x]
    else Insert(s[..|s| - 1], x, le) + [s[|s| - 1]]
  }

  function Sort<T>(s: seq<T>, le: (T, T) -> bool): seq<T> {
    if s == [] then [] else Insert(Sort(s[..|s| - 1], le), s[|s| - 1], le)
  }

  /** The elements among the first `n` that satisfy `p`, in order. */
  function FilterTo<T>(s: seq<T>, p: T -> bool, n: nat): (f: seq<T>)
    requires n <= |s|
  {
    if n == 0 then []
    else if p(s[n - 1]) then FilterTo(s, p, n - 1) + [s[n - 1]]
    else FilterTo(s, p, n - 1)
  }

  /** The elements that satisfy `p`, in order. */
  function Filter<T>(s: seq<T>, p: T -> bool): seq<T> {
    FilterTo(s, p, |s|)
  }

  lemma {:induction false} FilterToMembers<T>(s: seq<T>, p: T -> bool, n: nat, x: T)
    requires n <= |s|
    ensures x in FilterTo(s, p, n) <==> p(x) && exists i :: 0 <= i < n && s[i] == x
  {
    if n > 0 {
      FilterToMembers(s, p, n - 1, x);
    }
  }

  lemma FilterMembers<T>(s: seq<T>, p: T -> bool, x: T)
    ensures x in Filter(s, p) <==> x in s && p(x)
  {
    FilterToMembers(s, p, |s|, x);
  }

  lemma {:induction false} FilterPrefix<T>(s: seq<T>, t: seq<T>, p: T -> bool, n: nat)
    requires n <= |s|
    ensures FilterTo(s + t, p, n) == FilterTo(s, p, n)
  {
    if n > 0 {
      FilterPrefix(s, t, p, n - 1);
    }
  }

  lemma FilterAppend<T>(s: seq<T>, x: T, p: T -> bool)
    ensures Filter(s + [x], p) == if p(x) then Filter(s, p) + [x] else Filter(s, p)
  {
    FilterPrefix(s, [x], p, |s|);
  }

  lemma {:induction false} FilterNone<T>(s: seq<T>, p: T -> bool)
    requires forall x :: x in s ==> !p(x)
    ensures Filter(s, p) == []
  {
    FilterNoneTo(s, p, |s|);
  }

  lemma {:induction false} FilterNoneTo<T>(s: seq<T>, p: T -> bool, n: nat)
    requires n <= |s| && forall x :: x in s ==> !p(x)
    ensures FilterTo(s, p, n) == []
  {
    if n > 0 {
      FilterNoneTo(s, p, n - 1);
    }
  }

  lemma FilterOne<T>(x: T, p: T -> bool)
    ensures Filter([x], p) == if p(x) then [x] else []
  {
    assert FilterTo([x], p, 0) == [];
  }

  lemma {:induction false} FilterConcatTo<T>(a: seq<T>, b: seq<T>, p: T -> bool, n: nat)
    requires n <= |b|
    ensures FilterTo(a + b, p, |a| + n) == Filter(a, p) + FilterTo(b, p, n)
  {
    if n == 0 {
      FilterPrefix(a, b, p, |a|);
    } else {
      FilterConcatTo(a, b, p, n - 1);
    }
  }

  lemma FilterConcat<T>(a: seq<T>, b: seq<T>, p: T -> bool)
    ensures Filter(a + b, p) == Filter(a, p) + Filter(b, p)
  {
    FilterConcatTo(a, b, p, |b|);
  }

  lemma {:induction false} InsertPermutes<T>(s: seq<T>, x: T, le: (T, T) -> bool)
    ensures multiset(Insert(s, x, le)) == multiset(s) + multiset{x}
  {
    if s != [] && !le(s[|s| - 1], x) {
      InsertPermutes(s[..|s| - 1], x, le);
      assert s == s[..|s| - 1] + [s[|s| - 1]];
    }
  }

  lemma {:induction false} SortPermutes<T>(s: seq<T>, le: (T, T) -> bool)
    ensures multiset(Sort(s, le)) == multiset(s)
  {
    if s != [] {
      SortPermutes(s[..|s| - 1], le);
      InsertPermutes(Sort(s[..|s| - 1], le), s[|s| - 1], le);
      assert s == s[..|s| - 1] + [s[|s| - 1]];
    }
  }

  lemma CountTwice<T>(s: seq<T>, i: nat, j: nat)
    requires i < j < |s| && s[i] == s[j]
    ensures multiset(s)[s[i]] >= 2
  {
    assert s == s[..i] + [s[i]] + s[i + 1..j] + [s[j]] + s[j + 1..];
  }

  lemma SortMembers<T>(s: seq<T>, le: (T, T) -> bool, x: T)
    ensures x in Sort(s, le) <==> x in s
  {
    SortPermutes(s, le);
    assert x in multiset(s) <==> x in s;
    assert x in multiset(Sort(s, le)) <==> x in Sort(s, le);
  }

  lemma {:induction false} InsertSorts<T(!new)>(s: seq<T>, x: T, le: (T, T) -> bool)
    requires TotalOrder(le) && SortedBy(s, le)
    ensures SortedBy(Insert(s, x, le), le)
    ensures forall y :: y in Insert(s, x, le) <==> y in s || y == x
  {
    if s != [] {
      var front, last := s[..|s| - 1], s[|s| - 1];
      assert s == front + [last];
      if le(last, x) {
        forall i | 0 <= i < |s| ensures le(s[i], x) {
          if i < |s| - 1 {
            assert le(s[i], last);
          }
        }
      } else {
        InsertSorts(front, x, le);
        var inner := Insert(front, x, le);
        forall i | 0 <= i < |inner| ensures le(inner[i], last) {
          assert inner[i] in inner;
          assert inner[i] in front ==> exists k :: 0 <= k < |front| && front[k] == inner[i];
        }
      }
    }
  }

  lemma {:induction false} SortSorts<T(!new)>(s: seq<T>, le: (T, T) -> bool)
    requires TotalOrder(le)
    ensures SortedBy(Sort(s, le), le)
  {
    if s != [] {
      SortSorts(s[..|s| - 1], le);
      InsertSorts(Sort(s[..|s| - 1], le), s[|s| - 1], le);
    }
  }

  /** Elements that the order does not separate keep their relative order. */
  lemma {:induction false} InsertStable<T(!new)>(s: seq<T>, x: T, le: (T, T) -> bool, p: T -> bool)
    requires forall a, b :: p(a) && p(b) ==> le(a, b)
    requires TotalOrder(le) && SortedBy(s, le)
    ensures Filter(Insert(s, x, le), p) == Filter(s + [x], p)
  {
    if s != [] && !le(s[|s| - 1], x) {
      var front, last := s[..|s| - 1], s[|s| - 1];
      assert s == front + [last];
      InsertStable(front, x, le, p);
      FilterAppend(Insert(front, x, le), last, p);
      FilterAppend(front, x, p);
      FilterAppend(front, last, p);
      FilterAppend(s, x, p);
      assert !(p(last) && p(x));
    }
  }

  lemma {:induction false} SortStable<T(!new)>(s: seq<T>, le: (T, T) -> bool, p: T -> bool)
    requires TotalOrder(le)
    requires forall a, b :: p(a) && p(b) ==> le(a, b)
    ensures Filter(Sort(s, le), p) == Filter(s, p)
  {
    if s != [] {
      var front, last := s[..|s| - 1], s[|s| - 1];
      SortStable(front, le, p);
      SortSorts(front, le);
      InsertStable(Sort(front, le), last, le, p);
      FilterAppend(Sort(front, le), last, p);
      FilterAppend(front, last, p);
      assert s == front + [last];
    }
  }

  lemma {:induction false} FilterSorted<T>(s: seq<T>, le: (T, T) -> bool, p: T -> bool, n: nat)
    requires SortedBy(s, le) && n <= |s|
    ensures SortedBy(FilterTo(s, p, n), le)
  {
    if n > 0 {
      FilterSorted(s, le, p, n - 1);
      var f := FilterTo(s, p, n - 1);
      forall i | 0 <= i < |f| ensures le(f[i], s[n - 1]) {
        FilterToMembers(s, p, n - 1, f[i]);
      }
    }
  }
}
