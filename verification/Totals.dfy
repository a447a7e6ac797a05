/** Counting: how many elements of a sequence hold a given ticket, and the sizes of sets. */
module Totals {

  function Remove<T>(s: seq<T>, i: nat): seq<T>
    requires i < |s|
  {
    s[..i] + s[i + 1..]
  }

  function One(b: bool): nat { if b then 1 else 0 }

  // `ticket` gives an element's ticket, or -1 for none.
  function Count<T>(s: seq<T>, ticket: T -> int, id: int): nat {
    if s == [] then 0 else One(ticket(s[0]) == id) + Count(s[1..], ticket, id)
  }

  lemma {:induction false} CountConcat<T>(a: seq<T>, b: seq<T>, ticket: T -> int, id: int)
    ensures Count(a + b, ticket, id) == Count(a, ticket, id) + Count(b, ticket, id)
  {
    if a == [] {
      assert a + b == b;
    } else {
      assert (a + b)[1..] == a[1..] + b;
      CountConcat(a[1..], b, ticket, id);
    }
  }

  lemma CountAppend<T>(s: seq<T>, x: T, ticket: T -> int, id: int)
    ensures Count(s + [x], ticket, id) == Count(s, ticket, id) + One(ticket(x) == id)
  {
    CountConcat(s, [x], ticket, id);
    assert [x][1..] == [];
  }

  lemma CountRemove<T>(s: seq<T>, i: nat, ticket: T -> int, id: int)
    requires i < |s|
    ensures Count(s, ticket, id) == Count(Remove(s, i), ticket, id) + One(ticket(s[i]) == id)
  {
    assert s == s[..i] + ([s[i]] + s[i + 1..]);
    CountConcat(s[..i], [s[i]] + s[i + 1..], ticket, id);
    CountConcat(s[..i], s[i + 1..], ticket, id);
    assert ([s[i]] + s[i + 1..])[1..] == s[i + 1..];
  }

  lemma CountUpdate<T>(s: seq<T>, i: nat, x: T, ticket: T -> int, id: int)
    requires i < |s|
    ensures Count(s[i := x], ticket, id) + One(ticket(s[i]) == id) == Count(s, ticket, id) + One(ticket(x) == id)
  {
    CountRemove(s, i, ticket, id);
    CountRemove(s[i := x], i, ticket, id);
    assert Remove(s[i := x], i) == Remove(s, i);
  }

  // An element's ticket is counted, and two elements' tickets are counted twice.
  lemma CountCovers<T>(s: seq<T>, i: nat, ticket: T -> int)
    requires i < |s|
    ensures Count(s, ticket, ticket(s[i])) >= 1
    ensures forall j :: 0 <= j < |s| && j != i && ticket(s[j]) == ticket(s[i]) ==> Count(s, ticket, ticket(s[i])) >= 2
  {
    var id := ticket(s[i]);
    CountRemove(s, i, ticket, id);
    forall j | 0 <= j < |s| && j != i && ticket(s[j]) == id
      ensures Count(s, ticket, id) >= 2
    {
      var k := if j < i then j else j - 1;
      assert Remove(s, i)[k] == s[j];
      CountRemove(Remove(s, i), k, ticket, id);
    }
  }

  lemma {:induction false} CountNone<T>(s: seq<T>, ticket: T -> int, id: int)
    requires forall x :: x in s ==> ticket(x) != id
    ensures Count(s, ticket, id) == 0
  {
    if s != [] {
      CountNone(s[1..], ticket, id);
    }
  }

  lemma SubsetSize<T>(small: set<T>, big: set<T>)
    requires small <= big
    ensures |small| <= |big|
  {
    assert big == small + (big - small);
  }
}
