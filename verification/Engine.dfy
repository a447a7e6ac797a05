/** A small relational engine over a fixed table: WHERE keeps rows, ORDER BY sorts them by a key, LIMIT and
    OFFSET cut the result. Pagination is judged against it. */
module Engine {

  function Filter<R>(s: seq<R>, p: R -> bool): seq<R> {
    if s == [] then [] else if p(s[0]) then [s[0]] + Filter(s[1..], p) else Filter(s[1..], p)
  }

  // x before the first element it comes before
  function Insert<R>(x: R, s: seq<R>, before: (R, R) -> bool): seq<R> {
    if s == [] || before(x, s[0]) then [x] + s else [s[0]] + Insert(x, s[1..], before)
  }

  function SortBy<R>(s: seq<R>, before: (R, R) -> bool): seq<R> {
    if s == [] then [] else Insert(s[0], SortBy(s[1..], before), before)
  }

  function Take<R>(s: seq<R>, n: nat): seq<R> { if n < |s| then s[..n] else s }

  // LIMIT and OFFSET
  function Fetch<R>(s: seq<R>, limit: nat, offset: nat): seq<R> {
    if offset < |s| then Take(s[offset..], limit) else []
  }

  ghost predicate Transitive<R(!new)>(before: (R, R) -> bool) {
    forall a, b, c :: before(a, b) && before(b, c) ==> before(a, c)
  }

  ghost predicate Ordered<R(!new)>(s: seq<R>, before: (R, R) -> bool) {
    forall i, j :: 0 <= i < j < |s| ==> before(s[i], s[j])
  }

  // Any two rows at different places can be told apart.
  ghost predicate Comparable<R(!new)>(s: seq<R>, before: (R, R) -> bool) {
    forall i, j :: 0 <= i < |s| && 0 <= j < |s| && i != j ==> before(s[i], s[j]) || before(s[j], s[i])
  }

  lemma {:induction false} FilterMembers<R(!new)>(s: seq<R>, p: R -> bool)
    ensures forall x :: x in Filter(s, p) <==> x in s && p(x)
  {
    if s != [] {
      FilterMembers(s[1..], p);
    }
  }

  lemma {:induction false} FilterSame<R(!new)>(s: seq<R>, p: R -> bool, q: R -> bool)
    requires forall x :: x in s ==> p(x) == q(x)
    ensures Filter(s, p) == Filter(s, q)
  {
    if s != [] {
      FilterSame(s[1..], p, q);
    }
  }

  lemma {:induction false} FilterTwice<R(!new)>(s: seq<R>, p: R -> bool, q: R -> bool, both: R -> bool)
    requires forall x :: x in s ==> both(x) == (p(x) && q(x))
    ensures Filter(Filter(s, p), q) == Filter(s, both)
  {
    if s != [] {
      FilterTwice(s[1..], p, q, both);
      assert s[0] in s;
    }
  }

  lemma {:induction false} FilterAll<R(!new)>(s: seq<R>, p: R -> bool)
    requires forall x :: x in s ==> p(x)
    ensures Filter(s, p) == s
  {
    if s != [] {
      FilterAll(s[1..], p);
    }
  }

  lemma {:induction false} FilterNone<R(!new)>(s: seq<R>, p: R -> bool)
    requires forall x :: x in s ==> !p(x)
    ensures Filter(s, p) == []
  {
    if s != [] {
      FilterNone(s[1..], p);
    }
  }

  lemma {:induction false} FilterConcat<R>(a: seq<R>, b: seq<R>, p: R -> bool)
    ensures Filter(a + b, p) == Filter(a, p) + Filter(b, p)
  {
    if a == [] {
      assert a + b == b;
    } else {
      assert (a + b)[1..] == a[1..] + b;
      FilterConcat(a[1..], b, p);
    }
  }

  lemma {:induction false} InsertMembers<R>(x: R, s: seq<R>, before: (R, R) -> bool)
    ensures multiset(Insert(x, s, before)) == multiset(s) + multiset{x}
  {
    if s != [] && !before(x, s[0]) {
      assert s == [s[0]] + s[1..];
      InsertMembers(x, s[1..], before);
    }
  }

  lemma {:induction false} SortMembers<R>(s: seq<R>, before: (R, R) -> bool)
    ensures multiset(SortBy(s, before)) == multiset(s)
  {
    if s != [] {
      assert s == [s[0]] + s[1..];
      SortMembers(s[1..], before);
      InsertMembers(s[0], SortBy(s[1..], before), before);
    }
  }

  lemma SortKeepsMembers<R(!new)>(s: seq<R>, before: (R, R) -> bool)
    ensures forall x :: x in SortBy(s, before) <==> x in s
    ensures |SortBy(s, before)| == |s|
  {
    SortMembers(s, before);
    assert forall x :: x in SortBy(s, before) <==> x in multiset(SortBy(s, before));
    assert |multiset(SortBy(s, before))| == |SortBy(s, before)|;
  }

  lemma {:induction false} InsertOrders<R(!new)>(x: R, s: seq<R>, before: (R, R) -> bool)
    requires Transitive(before) && Ordered(s, before)
    requires forall y :: y in s ==> before(x, y) || before(y, x)
    ensures Ordered(Insert(x, s, before), before)
  {
    if s != [] && !before(x, s[0]) {
      InsertOrders(x, s[1..], before);
      var rest := Insert(x, s[1..], before);
      InsertMembers(x, s[1..], before);
      forall y | y in rest
        ensures before(s[0], y)
      {
        assert y in multiset(rest);
        if y != x {
          assert y in s[1..];
        }
      }
    }
  }

  lemma {:induction false} SortOrders<R(!new)>(s: seq<R>, before: (R, R) -> bool)
    requires Transitive(before) && Comparable(s, before)
    ensures Ordered(SortBy(s, before), before)
  {
    if s != [] {
      assert forall i :: 0 <= i < |s| - 1 ==> s[1..][i] == s[i + 1];
      SortOrders(s[1..], before);
      SortKeepsMembers(s[1..], before);
      forall y | y in SortBy(s[1..], before)
        ensures before(s[0], y) || before(y, s[0])
      {
        var i :| 0 <= i < |s[1..]| && s[1..][i] == y;
        assert s[i + 1] == y;
      }
      InsertOrders(s[0], SortBy(s[1..], before), before);
    }
  }

  lemma {:induction false} FilterInsert<R(!new)>(x: R, s: seq<R>, before: (R, R) -> bool, p: R -> bool)
    requires Transitive(before) && Ordered(s, before)
    ensures Filter(Insert(x, s, before), p) == if p(x) then Insert(x, Filter(s, p), before) else Filter(s, p)
  {
    var f := Filter(s, p);
    if s == [] || before(x, s[0]) {
      assert ([x] + s)[1..] == s;
      FilterMembers(s, p);
      if f != [] {
        assert f[0] in s;
        assert before(x, f[0]);
      }
    } else {
      var rest := Insert(x, s[1..], before);
      var all := [s[0]] + rest;
      assert Insert(x, s, before) == all && all[0] == s[0] && all[1..] == rest;
      FilterInsert(x, s[1..], before, p);
      if p(s[0]) {
        assert f[0] == s[0] && f[1..] == Filter(s[1..], p);
        assert Insert(x, f, before) == [s[0]] + Insert(x, f[1..], before);
      }
    }
  }

  // Filtering before sorting or after it gives the same rows in the same order.
  lemma {:induction false} FilterSort<R(!new)>(s: seq<R>, before: (R, R) -> bool, p: R -> bool)
    requires Transitive(before) && Comparable(s, before)
    ensures Filter(SortBy(s, before), p) == SortBy(Filter(s, p), before)
  {
    if s != [] {
      assert forall i :: 0 <= i < |s| - 1 ==> s[1..][i] == s[i + 1];
      FilterSort(s[1..], before, p);
      SortOrders(s[1..], before);
      var sorted := SortBy(s[1..], before);
      FilterInsert(s[0], sorted, before, p);
      var f := Filter(s, p);
      if p(s[0]) {
        assert f[0] == s[0] && f[1..] == Filter(s[1..], p);
      }
    }
  }

  lemma {:induction false} FilterComparable<R(!new)>(s: seq<R>, before: (R, R) -> bool, p: R -> bool)
    requires Comparable(s, before)
    ensures Comparable(Filter(s, p), before)
  {
    if s != [] {
      var tail := s[1..];
      assert forall i :: 0 <= i < |tail| ==> tail[i] == s[i + 1];
      FilterComparable(tail, before, p);
      FilterMembers(tail, p);
      forall y | y in tail
        ensures before(s[0], y) || before(y, s[0])
      {
        var i :| 0 <= i < |tail| && tail[i] == y;
        assert s[i + 1] == y;
      }
      ConsComparable(s[0], Filter(tail, p), before);
    }
  }

  lemma ConsComparable<R(!new)>(x: R, rest: seq<R>, before: (R, R) -> bool)
    requires Comparable(rest, before) && forall y :: y in rest ==> before(x, y) || before(y, x)
    ensures Comparable([x] + rest, before)
  {
    var f := [x] + rest;
    forall i, j | 0 <= i < j < |f|
      ensures before(f[i], f[j]) || before(f[j], f[i])
    {
      assert f[j] == rest[j - 1];
      if i > 0 {
        assert f[i] == rest[i - 1];
      }
    }
  }

  // Only how the elements compare with one another matters.
  lemma {:induction false} InsertSame<R>(x: R, s: seq<R>, a: (R, R) -> bool, b: (R, R) -> bool)
    requires forall y :: y in s ==> a(x, y) == b(x, y)
    ensures Insert(x, s, a) == Insert(x, s, b)
  {
    if s != [] {
      assert s[0] in s && forall y :: y in s[1..] ==> y in s;
      InsertSame(x, s[1..], a, b);
    }
  }

  ghost predicate Alike<R(!new)>(s: seq<R>, a: (R, R) -> bool, b: (R, R) -> bool) {
    forall i, j :: 0 <= i < |s| && 0 <= j < |s| && i != j ==> a(s[i], s[j]) == b(s[i], s[j])
  }

  lemma {:induction false} SortSame<R(!new)>(s: seq<R>, a: (R, R) -> bool, b: (R, R) -> bool)
    requires Alike(s, a, b)
    ensures SortBy(s, a) == SortBy(s, b)
  {
    if s != [] {
      assert forall i :: 0 <= i < |s| - 1 ==> s[1..][i] == s[i + 1];
      SortSame(s[1..], a, b);
      SortKeepsMembers(s[1..], a);
      forall y | y in SortBy(s[1..], a)
        ensures a(s[0], y) == b(s[0], y)
      {
        var i :| 0 <= i < |s[1..]| && s[1..][i] == y;
        assert s[i + 1] == y;
      }
      InsertSame(s[0], SortBy(s[1..], a), a, b);
    }
  }

  // An order that never puts a later element first leaves the sequence as it is.
  lemma {:induction false} SortKeeps<R(!new)>(s: seq<R>, before: (R, R) -> bool)
    requires forall x, y :: before(x, y)
    ensures SortBy(s, before) == s
  {
    if s != [] {
      SortKeeps(s[1..], before);
      assert s == [s[0]] + s[1..];
    }
  }

  // Cutting a sequence at its multiples of n and joining the pieces gives the sequence back.
  function Pages<R>(s: seq<R>, n: nat, count: nat): seq<R> {
    if count == 0 then [] else Pages(s, n, count - 1) + Fetch(s, n, (count - 1) * n)
  }

  lemma {:induction false} PagesPrefix<R>(s: seq<R>, n: nat, count: nat)
    requires n > 0
    ensures Pages(s, n, count) == Take(s, count * n)
  {
    if count > 0 {
      PagesPrefix(s, n, count - 1);
      var k := (count - 1) * n;
      assert count * n == k + n;
      NextPage(s, n, k);
    }
  }

  lemma NextPage<R>(s: seq<R>, n: nat, k: nat)
    ensures Take(s, k) + Fetch(s, n, k) == Take(s, k + n)
  {
    if k < |s| {
      assert s == s[..k] + s[k..];
    }
  }
}
