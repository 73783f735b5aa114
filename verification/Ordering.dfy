/** Go's string order, and sorting by a strict order. */
module Ordering {

  predicate Before(a: string, b: string) {
    b != "" && (a == "" || a[0] < b[0] || (a[0] == b[0] && Before(a[1..], b[1..])))
  }

  /** Orders pairs by their first component, then by their second. */
  predicate PairBefore(a: (string, string), b: (string, string)) {
    if a.0 != b.0 then Before(a.0, b.0) else Before(a.1, b.1)
  }

  ghost predicate StrictOrder<T(!new)>(less: (T, T) -> bool) {
    && (forall a :: !less(a, a))
    && (forall a, b, c :: less(a, b) && less(b, c) ==> less(a, c))
    && (forall a, b :: a != b ==> less(a, b) || less(b, a))
  }

  /** The strings agree up to `i`, where the first ends or has the smaller character. */
  predicate SmallerAt(a: string, b: string, i: nat) {
    i <= |a| && i < |b| && a[..i] == b[..i] && (i == |a| || a[i] < b[i])
  }

  lemma HeadsAgree(a: string, b: string, i: nat)
    ensures SmallerAt(a, b, i) && i > 0 ==> a != "" && b != "" && a[0] == b[0]
  {
    if SmallerAt(a, b, i) && i > 0 {
      assert a[..i][0] == b[..i][0];
    }
  }

  /** A string comes before another exactly when it does so where they first differ. */
  lemma {:induction false} BeforeIff(a: string, b: string)
    ensures Before(a, b) <==> exists i: nat :: SmallerAt(a, b, i)
  {
    if a != "" && b != "" && a[0] == b[0] {
      BeforeIff(a[1..], b[1..]);
      if i: nat :| SmallerAt(a[1..], b[1..], i) {
        assert a[..i + 1] == [a[0]] + a[1..][..i] && b[..i + 1] == [b[0]] + b[1..][..i];
        assert SmallerAt(a, b, i + 1);
      }
      if i: nat :| SmallerAt(a, b, i) {
        assert i > 0;
        assert a[1..][..i - 1] == a[..i][1..] && b[1..][..i - 1] == b[..i][1..];
        assert SmallerAt(a[1..], b[1..], i - 1);
      }
    } else {
      assert Before(a, b) <==> SmallerAt(a, b, 0);
      forall i: nat
        ensures SmallerAt(a, b, i) ==> SmallerAt(a, b, 0)
      {
        HeadsAgree(a, b, i);
      }
    }
  }

  lemma {:induction false} BeforeTransitive(a: string, b: string, c: string)
    requires Before(a, b) && Before(b, c)
    ensures Before(a, c)
  {
    if a != "" && a[0] == b[0] && b[0] == c[0] {
      BeforeTransitive(a[1..], b[1..], c[1..]);
    }
  }

  lemma {:induction false} BeforeTotal(a: string, b: string)
    ensures !Before(a, a)
    ensures a != b ==> Before(a, b) || Before(b, a)
  {
    if a != "" {
      BeforeTotal(a[1..], if b == "" then "" else b[1..]);
      if b != "" && a[0] == b[0] {
        assert a == [a[0]] + a[1..] && b == [b[0]] + b[1..];
      }
    }
  }

  lemma BeforeIsStrictOrder()
    ensures StrictOrder(Before)
  {
    forall a: string, b: string
      ensures !Before(a, a) && (a != b ==> Before(a, b) || Before(b, a))
    {
      BeforeTotal(a, b);
    }
    forall a: string, b: string, c: string | Before(a, b) && Before(b, c)
      ensures Before(a, c)
    {
      BeforeTransitive(a, b, c);
    }
  }

  lemma PairBeforeIsStrictOrder()
    ensures StrictOrder(PairBefore)
  {
    hide Before;
    BeforeIsStrictOrder();
  }

  ghost predicate Ascending<T>(s: seq<T>, less: (T, T) -> bool) {
    forall i, j :: 0 <= i < j < |s| ==> less(s[i], s[j])
  }

  /** Inserts `x` before the first element that does not precede it. */
  function Insert<T>(x: T, s: seq<T>, less: (T, T) -> bool): (r: seq<T>)
    ensures multiset(r) == multiset(s) + multiset{x}
  {
    if s == [] then [x]
    else if less(s[0], x) then
      var rest := Insert(x, s[1..], less);
      assert s == [s[0]] + s[1..];
      [s[0]] + rest
    else [x] + s
  }

  function Sort<T>(s: seq<T>, less: (T, T) -> bool): (r: seq<T>)
    ensures multiset(r) == multiset(s)
  {
    if s == [] then []
    else
      assert s == [s[0]] + s[1..];
      Insert(s[0], Sort(s[1..], less), less)
  }

  ghost predicate Distinct<T>(s: seq<T>) {
    forall i, j :: 0 <= i < j < |s| ==> s[i] != s[j]
  }

  ghost predicate WeakOrder<T(!new)>(less: (T, T) -> bool) {
    && (forall a, b :: less(a, b) ==> !less(b, a))
    && (forall a, b, c :: !less(b, a) && !less(c, b) ==> !less(c, a))
  }

  /** No later element precedes an earlier one; elements neither of which precedes the other may come in any order. */
  ghost predicate Sorted<T>(s: seq<T>, less: (T, T) -> bool) {
    forall i, j :: 0 <= i < j < |s| ==> !less(s[j], s[i])
  }

  lemma StrictOrderIsWeak<T(!new)>(less: (T, T) -> bool)
    requires StrictOrder(less)
    ensures WeakOrder(less)
  {
    forall a, b, c | !less(b, a) && !less(c, b)
      ensures !less(c, a)
    {
      assert a == b || less(a, b);
      assert b == c || less(b, c);
    }
  }

  lemma BeforeIsWeakOrder()
    ensures WeakOrder(Before)
  {
    BeforeIsStrictOrder();
    StrictOrderIsWeak(Before);
  }

  lemma InsertHolds<T(!new)>(x: T, s: seq<T>, less: (T, T) -> bool)
    ensures forall y :: y in Insert(x, s, less) <==> y == x || y in s
  {
    forall y
      ensures y in Insert(x, s, less) <==> y == x || y in s
    {
      assert y in Insert(x, s, less) <==> y in multiset(Insert(x, s, less));
    }
  }

  lemma PrependSorted<T(!new)>(x: T, s: seq<T>, less: (T, T) -> bool)
    requires Sorted(s, less) && forall y :: y in s ==> !less(y, x)
    ensures Sorted([x] + s, less)
  {
  }

  lemma {:induction false} InsertSorts<T(!new)>(x: T, s: seq<T>, less: (T, T) -> bool)
    requires WeakOrder(less) && Sorted(s, less)
    ensures Sorted(Insert(x, s, less), less)
  {
    if s != [] {
      InsertSorts(x, s[1..], less);
      InsertHolds(x, s[1..], less);
      assert forall y :: y in s[1..] ==> !less(y, s[0]);
      if less(s[0], x) {
        PrependSorted(s[0], Insert(x, s[1..], less), less);
      } else {
        assert s == [s[0]] + s[1..];
        assert !less(s[0], s[0]);
        PrependSorted(x, s, less);
      }
    }
  }

  lemma {:induction false} InsertDistinct<T(!new)>(x: T, s: seq<T>, less: (T, T) -> bool)
    requires Distinct(s) && x !in s
    ensures Distinct(Insert(x, s, less))
  {
    if s != [] && less(s[0], x) {
      InsertDistinct(x, s[1..], less);
      InsertHolds(x, s[1..], less);
      assert s[0] !in s[1..];
    }
  }

  lemma SortHolds<T(!new)>(s: seq<T>, less: (T, T) -> bool)
    ensures forall y :: y in Sort(s, less) <==> y in s
  {
    forall y
      ensures y in Sort(s, less) <==> y in s
    {
      assert y in Sort(s, less) <==> y in multiset(Sort(s, less));
    }
  }

  lemma {:induction false} SortSorts<T(!new)>(s: seq<T>, less: (T, T) -> bool)
    requires WeakOrder(less)
    ensures Sorted(Sort(s, less), less)
    ensures forall y :: y in Sort(s, less) <==> y in s
    ensures Distinct(s) ==> Distinct(Sort(s, less))
  {
    SortHolds(s, less);
    if s != [] {
      SortSorts(s[1..], less);
      InsertSorts(s[0], Sort(s[1..], less), less);
      if Distinct(s) {
        assert s[0] !in s[1..];
        InsertDistinct(s[0], Sort(s[1..], less), less);
      }
    }
  }

  /** Sorting distinct elements yields them in ascending order. */
  lemma SortAscends<T(!new)>(s: seq<T>, less: (T, T) -> bool)
    requires StrictOrder(less) && Distinct(s)
    ensures Ascending(Sort(s, less), less)
    ensures forall x :: x in Sort(s, less) <==> x in s
  {
    StrictOrderIsWeak(less);
    SortSorts(s, less);
  }

  lemma FirstIsLeast<T(!new)>(a: seq<T>, less: (T, T) -> bool, x: T)
    requires Ascending(a, less) && x in a
    ensures x == a[0] || less(a[0], x)
  {
    var i :| 0 <= i < |a| && a[i] == x;
  }

  /** The least element comes first in both. */
  lemma SameHead<T(!new)>(a: seq<T>, b: seq<T>, less: (T, T) -> bool)
    requires StrictOrder(less) && Ascending(a, less) && Ascending(b, less)
    requires a != [] && forall x :: x in a <==> x in b
    ensures b != [] && a[0] == b[0]
  {
    assert a[0] in a;
    FirstIsLeast(b, less, a[0]);
    assert b[0] in b;
    FirstIsLeast(a, less, b[0]);
    assert !less(a[0], a[0]);
  }

  lemma HeadIsOnlyFirst<T(!new)>(a: seq<T>, less: (T, T) -> bool, x: T)
    requires StrictOrder(less) && Ascending(a, less) && a != []
    ensures x in a[1..] <==> x in a && x != a[0]
  {
    if x in a && x != a[0] {
      var i :| 0 <= i < |a| && a[i] == x;
      assert a[1..][i - 1] == x;
    }
    if x in a[1..] {
      var i :| 0 <= i < |a| - 1 && a[1..][i] == x;
      assert less(a[0], a[i + 1]);
    }
  }

  lemma TailAscends<T>(a: seq<T>, less: (T, T) -> bool)
    requires Ascending(a, less) && a != []
    ensures Ascending(a[1..], less)
  {
  }

  lemma SomethingIn<T(!new)>(s: seq<T>)
    requires s != []
    ensures exists x :: x in s
  {
    assert s[0] in s;
  }

  lemma EmptyOfAll<T(!new)>(s: seq<T>)
    requires forall x :: x !in s
    ensures s == []
  {
    if s != [] {
      SomethingIn(s);
    }
  }

  /** A list in ascending order is determined by its elements. */
  lemma {:induction false} AscendingIsUnique<T(!new)>(a: seq<T>, b: seq<T>, less: (T, T) -> bool)
    requires StrictOrder(less) && Ascending(a, less) && Ascending(b, less)
    requires forall x :: x in a <==> x in b
    ensures a == b
  {
    if a == [] {
      EmptyOfAll(b);
    } else {
      SameHead(a, b, less);
      forall x
        ensures x in a[1..] <==> x in b[1..]
      {
        HeadIsOnlyFirst(a, less, x);
        HeadIsOnlyFirst(b, less, x);
      }
      TailAscends(a, less);
      TailAscends(b, less);
      AscendingIsUnique(a[1..], b[1..], less);
      assert a == [a[0]] + a[1..] && b == [b[0]] + b[1..];
    }
  }
}
