/** Small datatypes and sequence vocabulary shared by every module. */
module Wrappers {

  datatype Option<+T> = None | Some(value: T)

  datatype Result<+T, +E> = Success(value: T) | Failure(error: E)

  /** The elements of `s` that satisfy `p`, in order. */
  function Filter<T(!new)>(p: T -> bool, s: seq<T>): (r: seq<T>)
    ensures |r| <= |s|
    ensures forall x :: x in r <==> x in s && p(x)
  {
    if s == [] then []
    else
      var rest := Filter(p, s[..|s| - 1]);
      if p(s[|s| - 1]) then rest + [s[|s| - 1]] else rest
  }

  lemma {:induction false} FilterNone<T(!new)>(p: T -> bool, s: seq<T>)
    requires forall x :: x in s ==> !p(x)
    ensures Filter(p, s) == []
  {
    if s != [] {
      FilterNone(p, s[..|s| - 1]);
    }
  }

  lemma FilterOneMore<T(!new)>(p: T -> bool, s: seq<T>, x: T)
    ensures Filter(p, s + [x]) == if p(x) then Filter(p, s) + [x] else Filter(p, s)
  {
    assert (s + [x])[..|s|] == s;
  }

  /** Filtering distributes over concatenation. */
  lemma {:induction false} FilterAppend<T(!new)>(p: T -> bool, a: seq<T>, b: seq<T>)
    ensures Filter(p, a + b) == Filter(p, a) + Filter(p, b)
  {
    if b == [] {
      assert a + b == a;
    } else {
      var front, last := b[..|b| - 1], b[|b| - 1];
      FilterAppend(p, a, front);
      SplitLast(b);
      ConcatAssociates(a, front, [last]);
      FilterOneMore(p, a + front, last);
      FilterOneMore(p, front, last);
      ConcatAssociates(Filter(p, a), Filter(p, front), [last]);
    }
  }

  lemma {:induction false} FiltersAgree<T(!new)>(p: T -> bool, q: T -> bool, s: seq<T>)
    requires forall x :: x in s ==> p(x) == q(x)
    ensures Filter(p, s) == Filter(q, s)
  {
    if s != [] {
      FiltersAgree(p, q, s[..|s| - 1]);
    }
  }

  /** Where an element that passes ends up, and that only later ones come after it. */
  lemma {:induction false} FilterPlace<T(!new)>(p: T -> bool, s: seq<T>, n: nat) returns (at: nat)
    requires n < |s| && p(s[n])
    ensures at < |Filter(p, s)| && Filter(p, s)[at] == s[n]
    ensures forall m :: at < m < |Filter(p, s)| ==> exists k :: n < k < |s| && p(s[k]) && Filter(p, s)[m] == s[k]
    decreases |s|
  {
    var front, last := s[..|s| - 1], |s| - 1;
    var before := Filter(p, front);
    if n == last {
      at := |before|;
    } else {
      at := FilterPlace(p, front, n);
      forall m | at < m < |Filter(p, s)|
        ensures exists k :: n < k < |s| && p(s[k]) && Filter(p, s)[m] == s[k]
      {
        if m < |before| {
          var k :| n < k < |front| && p(front[k]) && before[m] == front[k];
          assert s[k] == front[k];
        } else {
          assert p(s[last]) && Filter(p, s)[m] == s[last];
        }
      }
    }
  }

  /** The value appended to the list, unless the list already holds it. */
  function AppendUnique<T(==, !new)>(list: seq<T>, value: T): (r: seq<T>)
    ensures forall x :: x in r <==> x in list || x == value
  {
    if value in list then list else list + [value]
  }

  /** First occurrences only, in order. */
  function Dedup<T(==, !new)>(s: seq<T>): (r: seq<T>)
    ensures forall x :: x in r <==> x in s
    ensures forall i, j :: 0 <= i < j < |r| ==> r[i] != r[j]
  {
    if s == [] then [] else AppendUnique(Dedup(s[..|s| - 1]), s[|s| - 1])
  }

  lemma DedupGrows<T(!new)>(s: seq<T>, x: T)
    ensures Dedup(s + [x]) == AppendUnique(Dedup(s), x)
  {
    assert (s + [x])[..|s|] == s;
  }

  lemma SplitLast<T>(s: seq<T>)
    requires s != []
    ensures s == s[..|s| - 1] + [s[|s| - 1]]
  {
  }

  lemma PrefixGrows<T>(s: seq<T>, n: nat)
    requires n < |s|
    ensures s[..n + 1] == s[..n] + [s[n]]
  {
  }

  lemma WholePrefix<T>(s: seq<T>)
    ensures s[..|s|] == s
  {
  }

  lemma ConcatAssociates<T>(a: seq<T>, b: seq<T>, c: seq<T>)
    ensures (a + b) + c == a + (b + c)
  {
  }

  lemma TailOfFront<T>(s: seq<T>)
    requires |s| > 1
    ensures s[1..] == s[..|s| - 1][1..] + [s[|s| - 1]]
  {
  }
}
