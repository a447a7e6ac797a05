/** First and Last on a database that reads its statements: Last answers with what First would if the rows that
    pass were listed the other way round, and without an ordering with the row of the greatest key. */
module LastRow {
  import opened GoStrings
  import opened SqlQuotes
  import opened SqlBinding
  import opened Identifiers
  import opened QueryBuilder
  import opened QueryObject
  import opened QueryFilter
  import opened QueryLast
  import opened QueryServer
  import opened SqlReader
  import opened QueryReader
  import opened Conditions
  import opened Engine
  import opened Database
  import Keyset

  // ---------- sorting the other way ----------

  function Backwards<R>(s: seq<R>): (r: seq<R>)
    ensures |r| == |s| && forall i :: 0 <= i < |s| ==> r[i] == s[|s| - 1 - i]
  {
    if s == [] then [] else Backwards(s[1..]) + [s[0]]
  }

  function Converse<R>(before: (R, R) -> bool): (R, R) -> bool { (x, y) => before(y, x) }

  // Of any two elements at different places exactly one comes before the other.
  ghost predicate Strict<R(!new)>(s: seq<R>, before: (R, R) -> bool) {
    forall i, j :: 0 <= i < |s| && 0 <= j < |s| && i != j ==> before(s[i], s[j]) == !before(s[j], s[i])
  }

  lemma {:induction false} InsertLast<R>(x: R, s: seq<R>, before: (R, R) -> bool)
    requires forall y :: y in s ==> !before(x, y)
    ensures Insert(x, s, before) == s + [x]
  {
    if s != [] {
      InsertLast(x, s[1..], before);
      assert s == [s[0]] + s[1..];
    }
  }

  lemma {:induction false} InsertAhead<R>(x: R, s: seq<R>, last: R, before: (R, R) -> bool)
    requires before(x, last)
    ensures Insert(x, s + [last], before) == Insert(x, s, before) + [last]
  {
    if s == [] {
      assert s + [last] == [last] && [last][0] == last;
    } else {
      assert (s + [last])[0] == s[0] && (s + [last])[1..] == s[1..] + [last];
      InsertAhead(x, s[1..], last, before);
    }
  }

  lemma {:induction false} InsertBackwards<R(!new)>(x: R, s: seq<R>, before: (R, R) -> bool)
    requires Transitive(before) && Ordered(s, before) && forall y :: y in s ==> before(x, y) == !before(y, x)
    ensures Insert(x, Backwards(s), Converse(before)) == Backwards(Insert(x, s, before))
  {
    if s == [] || before(x, s[0]) {
      var back := Backwards(s);
      forall y | y in back
        ensures !before(y, x)
      {
        var i :| 0 <= i < |back| && back[i] == y;
        assert s[|s| - 1 - i] == y;
        assert y == s[0] || before(s[0], y);
      }
      InsertLast(x, back, Converse(before));
      assert ([x] + s)[1..] == s;
    } else {
      InsertBackwards(x, s[1..], before);
      InsertAhead(x, Backwards(s[1..]), s[0], Converse(before));
      var rest := Insert(x, s[1..], before);
      assert ([s[0]] + rest)[0] == s[0] && ([s[0]] + rest)[1..] == rest;
    }
  }

  lemma {:induction false} SortBackwards<R(!new)>(s: seq<R>, before: (R, R) -> bool)
    requires Transitive(before) && Strict(s, before)
    ensures SortBy(s, Converse(before)) == Backwards(SortBy(s, before))
  {
    if s != [] {
      var tail := s[1..];
      assert forall i :: 0 <= i < |tail| ==> tail[i] == s[i + 1];
      SortBackwards(tail, before);
      SortOrders(tail, before);
      SortKeepsMembers(tail, before);
      forall y | y in SortBy(tail, before)
        ensures before(s[0], y) == !before(y, s[0])
      {
        var i :| 0 <= i < |tail| && tail[i] == y;
        assert s[i + 1] == y;
      }
      InsertBackwards(s[0], SortBy(tail, before), before);
    }
  }

  ghost predicate Different<R(!new)>(s: seq<R>) { forall i, j :: 0 <= i < j < |s| ==> s[i] != s[j] }

  lemma DifferentCons<R(!new)>(x: R, s: seq<R>)
    requires Different(s) && x !in s
    ensures Different([x] + s)
  {
    var all := [x] + s;
    assert forall i :: 0 < i < |all| ==> all[i] == s[i - 1] && all[i] in s;
  }

  lemma {:induction false} InsertDiffers<R(!new)>(x: R, s: seq<R>, before: (R, R) -> bool)
    requires Different(s) && x !in s
    ensures Different(Insert(x, s, before))
  {
    if s != [] && !before(x, s[0]) {
      InsertDiffers(x, s[1..], before);
      InsertMembers(x, s[1..], before);
      var rest := Insert(x, s[1..], before);
      forall i | 0 <= i < |rest|
        ensures rest[i] != s[0]
      {
        assert rest[i] in multiset(rest);
        assert rest[i] == x || rest[i] in s[1..];
      }
      DifferentCons(s[0], rest);
    } else if s != [] {
      DifferentCons(x, s);
    }
  }

  lemma {:induction false} SortDiffers<R(!new)>(s: seq<R>, before: (R, R) -> bool)
    requires Different(s)
    ensures Different(SortBy(s, before))
  {
    if s != [] {
      SortDiffers(s[1..], before);
      SortKeepsMembers(s[1..], before);
      InsertDiffers(s[0], SortBy(s[1..], before), before);
    }
  }

  // ---------- ordering by columns ----------

  // Values are ordered up to ties.
  ghost predicate WeakOrder(less: (Value, Value) -> bool) {
    && (forall a :: !less(a, a))
    && (forall a, b, c :: less(a, b) && less(b, c) ==> less(a, c))
    && (forall a, b, c :: less(a, c) ==> less(a, b) || less(b, c))
  }

  // The terms as they are printed
  function TermsOf(terms: seq<string>): (r: seq<seq<Piece>>)
    ensures |r| == |terms|
  {
    seq(|terms|, i requires 0 <= i < |terms| => Chars(terms[i]))
  }

  ghost predicate ByColumns(terms: seq<string>) { forall t :: t in terms ==> Ordering(t).Some? }

  lemma TermIs<R>(w: World<R>, t: string, x: R, y: R)
    requires Ordering(t).Some?
    ensures TermPrecedes(w, Chars(t), x, y) == (
      var (col, desc) := Ordering(t).value;
      if desc then w.less(w.value(y, col), w.value(x, col)) else w.less(w.value(x, col), w.value(y, col)))
  {
    hide Ordering;
    TextOf(t, []);
    assert Chars(t) + [] == Chars(t) && t + "" == t;
  }

  lemma PrecedesCons<R>(w: World<R>, terms: seq<string>, x: R, y: R)
    requires terms != []
    ensures Precedes(w, TermsOf(terms), x, y) == (
      TermPrecedes(w, Chars(terms[0]), x, y)
      || (!TermPrecedes(w, Chars(terms[0]), y, x) && Precedes(w, TermsOf(terms[1..]), x, y)))
  {
    hide TermPrecedes;
    assert TermsOf(terms)[1..] == TermsOf(terms[1..]);
  }

  lemma TermApart<R>(w: World<R>, t: string, x: R, y: R)
    requires WeakOrder(w.less) && Ordering(t).Some?
    ensures !(TermPrecedes(w, Chars(t), x, y) && TermPrecedes(w, Chars(t), y, x))
  {
    hide Ordering, TermPrecedes;
    TermIs(w, t, x, y);
    TermIs(w, t, y, x);
    var a, b := w.value(x, Ordering(t).value.0), w.value(y, Ordering(t).value.0);
    assert !(w.less(a, b) && w.less(b, a)) by {
      assert w.less(a, b) && w.less(b, a) ==> w.less(a, a);
    }
  }

  lemma TermBetween<R>(w: World<R>, t: string, x: R, y: R, z: R)
    requires WeakOrder(w.less) && Ordering(t).Some? && TermPrecedes(w, Chars(t), x, z)
    ensures TermPrecedes(w, Chars(t), x, y) || TermPrecedes(w, Chars(t), y, z)
  {
    hide Ordering, TermPrecedes;
    TermIs(w, t, x, y);
    TermIs(w, t, y, z);
    TermIs(w, t, x, z);
    var (col, desc) := Ordering(t).value;
    var a, b, c := w.value(x, col), w.value(y, col), w.value(z, col);
    assert if desc then w.less(c, b) || w.less(b, a) else w.less(a, b) || w.less(b, c);
  }

  lemma {:induction false} PrecedesApart<R>(w: World<R>, terms: seq<string>, x: R, y: R)
    requires WeakOrder(w.less) && ByColumns(terms) && Precedes(w, TermsOf(terms), x, y)
    ensures !Precedes(w, TermsOf(terms), y, x)
  {
    hide Ordering, TermPrecedes, WeakOrder, Precedes, TermsOf;
    if terms == [] {
      NoTermPrecedes(w, x, y);
    } else {
      assert terms[0] in terms;
      PrecedesCons(w, terms, x, y);
      PrecedesCons(w, terms, y, x);
      TermApart(w, terms[0], x, y);
      if !TermPrecedes(w, Chars(terms[0]), x, y) {
        PrecedesApart(w, terms[1..], x, y);
      }
    }
  }

  lemma NoTermPrecedes<R>(w: World<R>, x: R, y: R)
    ensures !Precedes(w, TermsOf([]), x, y)
  {
  }

  lemma {:induction false} PrecedesBetween<R>(w: World<R>, terms: seq<string>, x: R, y: R, z: R)
    requires WeakOrder(w.less) && ByColumns(terms) && Precedes(w, TermsOf(terms), x, z)
    ensures Precedes(w, TermsOf(terms), x, y) || Precedes(w, TermsOf(terms), y, z)
  {
    hide Ordering, TermPrecedes, WeakOrder, Precedes, TermsOf;
    if terms == [] {
      NoTermPrecedes(w, x, z);
    } else {
      var t := terms[0];
      assert t in terms;
      PrecedesCons(w, terms, x, y);
      PrecedesCons(w, terms, y, z);
      PrecedesCons(w, terms, x, z);
      if TermPrecedes(w, Chars(t), x, z) {
        TermApart(w, t, x, y);
        TermApart(w, t, y, z);
        TermBetween(w, t, x, y, z);
      } else {
        PrecedesBetween(w, terms[1..], x, y, z);
        if TermPrecedes(w, Chars(t), y, x) && !TermPrecedes(w, Chars(t), y, z) {
          TermBetween(w, t, y, z, x);
        }
        if TermPrecedes(w, Chars(t), z, y) && !TermPrecedes(w, Chars(t), x, y) {
          TermBetween(w, t, z, x, y);
        }
      }
    }
  }

  lemma OrderIsTransitive<R(!new)>(w: World<R>, terms: seq<string>)
    requires WeakOrder(w.less) && ByColumns(terms)
    ensures Transitive(InOrder(w, TermsOf(terms)))
  {
    hide Ordering, Precedes, WeakOrder;
    var before := InOrder(w, TermsOf(terms));
    forall a, b, c | before(a, b) && before(b, c)
      ensures before(a, c)
    {
      if Precedes(w, TermsOf(terms), c, a) {
        PrecedesBetween(w, terms, c, b, a);
      }
    }
  }

  // The second list has the columns of the first with the other direction.
  ghost predicate Flipped(terms: seq<string>, others: seq<string>) {
    && |terms| == |others| && ByColumns(terms)
    && forall i :: 0 <= i < |terms| ==> Ordering(others[i]) == Some((Ordering(terms[i]).value.0, !Ordering(terms[i]).value.1))
  }

  lemma {:induction false} FlippedPrecedes<R>(w: World<R>, terms: seq<string>, others: seq<string>, x: R, y: R)
    requires Flipped(terms, others)
    ensures Precedes(w, TermsOf(others), x, y) == Precedes(w, TermsOf(terms), y, x)
  {
    hide Ordering, TermPrecedes, Precedes, TermsOf;
    if terms == [] {
      NoTermPrecedes(w, x, y);
      NoTermPrecedes(w, y, x);
    } else {
      assert terms[0] in terms;
      PrecedesCons(w, others, x, y);
      PrecedesCons(w, terms, y, x);
      TermIs(w, terms[0], x, y);
      TermIs(w, terms[0], y, x);
      TermIs(w, others[0], x, y);
      TermIs(w, others[0], y, x);
      FlippedPrecedes(w, terms[1..], others[1..], x, y);
    }
  }

  // The terms tell any two of the rows apart.
  ghost predicate TellsApart<R(!new)>(w: World<R>, terms: seq<string>, rows: seq<R>) {
    forall i, j :: 0 <= i < |rows| && 0 <= j < |rows| && i != j ==>
      Precedes(w, TermsOf(terms), rows[i], rows[j]) || Precedes(w, TermsOf(terms), rows[j], rows[i])
  }

  lemma OrderIsStrict<R(!new)>(w: World<R>, terms: seq<string>, rows: seq<R>)
    requires WeakOrder(w.less) && ByColumns(terms) && TellsApart(w, terms, rows)
    ensures Strict(rows, InOrder(w, TermsOf(terms)))
  {
    hide Ordering, Precedes, WeakOrder;
    forall i, j | 0 <= i < |rows| && 0 <= j < |rows| && i != j
      ensures Precedes(w, TermsOf(terms), rows[i], rows[j]) == !Precedes(w, TermsOf(terms), rows[j], rows[i])
    {
      if Precedes(w, TermsOf(terms), rows[i], rows[j]) {
        PrecedesApart(w, terms, rows[i], rows[j]);
      }
    }
  }

  lemma ListsBackwards<R(!new)>(w: World<R>, terms: seq<string>, others: seq<string>, rows: seq<R>)
    requires WeakOrder(w.less) && Flipped(terms, others) && TellsApart(w, terms, rows)
    ensures SortBy(rows, InOrder(w, TermsOf(others))) == Backwards(SortBy(rows, InOrder(w, TermsOf(terms))))
  {
    hide Ordering, Precedes, WeakOrder;
    var before := InOrder(w, TermsOf(terms));
    OrderIsTransitive(w, terms);
    OrderIsStrict(w, terms, rows);
    SortBackwards(rows, before);
    assert Alike(rows, InOrder(w, TermsOf(others)), Converse(before)) by {
      forall x, y
        ensures InOrder(w, TermsOf(others))(x, y) == Converse(before)(x, y)
      {
        FlippedPrecedes(w, terms, others, y, x);
      }
    }
    SortSame(rows, InOrder(w, TermsOf(others)), Converse(before));
  }

  // Rows told apart are different, so DISTINCT keeps them all.
  lemma ListingDiffers<R(!new)>(w: World<R>, terms: seq<string>, rows: seq<R>)
    requires WeakOrder(w.less) && ByColumns(terms) && TellsApart(w, terms, rows)
    ensures FirstOnes(SortBy(rows, InOrder(w, TermsOf(terms)))) == SortBy(rows, InOrder(w, TermsOf(terms)))
  {
    hide Ordering, Precedes, WeakOrder;
    var before := InOrder(w, TermsOf(terms));
    forall i, j | 0 <= i < j < |rows|
      ensures rows[i] != rows[j]
    {
      if rows[i] == rows[j] {
        PrecedesApart(w, terms, rows[i], rows[i]);
      }
    }
    SortDiffers(rows, before);
    DifferentAreFirst(SortBy(rows, before));
  }

  // ---------- the query ----------

  // A query ordered by columns, with a space before each direction word, or one of a model with a key
  ghost predicate Turnable(b: Builder) {
    && (b.orderBy == [] ==> b.meta.pk.Some? && IsName(b.meta.pk.value))
    && forall t :: t in b.orderBy ==> ValidIdent(t) && SpaceBefore(t)
  }

  // The terms a query lists its rows by: its ordering, else the key
  function Listed(b: Builder): seq<string> {
    if b.orderBy == [] && b.meta.pk.Some? then [b.meta.pk.value] else b.orderBy
  }

  function Passers<R>(w: World<R>, b: Builder): seq<R>
    requires Sound(b) && Matched(b)
  {
    Filter(w.rows, Passing(w, WhereOf(b)))
  }

  // The rows that pass, in the order of the terms
  function Listing<R>(w: World<R>, b: Builder, terms: seq<string>): seq<R>
    requires Sound(b) && Matched(b)
  {
    SortBy(Passers(w, b), InOrder(w, TermsOf(terms)))
  }

  lemma UpperBlank(s: string, k: nat)
    requires k < |s| && ToUpper(s)[k] == ' '
    ensures IsSpace(s[k])
  {
  }

  lemma ReversedTrims(term: string)
    requires TrimSpace(term) != ""
    ensures Trimmed(ReverseTerm(term))
  {
    hide TrimSpace, ToUpper;
    var t := TrimSpace(term);
    TrimSpaceTrims(term);
    UpperLength(t);
    var n := if HasSuffix(ToUpper(t), " DESC") then 5 else if HasSuffix(ToUpper(t), " ASC") then 4 else 0;
    if n > 0 {
      if |t| == n {
        UpperBlank(t, 0);
      }
      TrimSpaceTrims(t[..|t| - n]);
    }
  }

  lemma {:induction false} ColumnsBind(terms: seq<string>)
    requires forall t :: t in terms ==> ValidIdent(t)
    ensures AllTidy(terms) && MarksAll(terms) == 0 && BoundTerms(terms, []) == TermsOf(terms)
  {
    hide ValidIdent, Bind, Marks, Tidy;
    if terms == [] {
      NoTerms();
    } else {
      assert terms[0] in terms && forall t :: t in terms[1..] ==> t in terms;
      ColumnsBind(terms[1..]);
      IdentIsInert(terms[0]);
      InertIsClosed(terms[0]);
      UnmarkedBinds(terms[0]);
      MarksAllCons(terms);
      assert TermsOf(terms) == [Chars(terms[0])] + TermsOf(terms[1..]);
    }
  }

  lemma ReversedTerm(term: string)
    requires ValidIdent(term) && SpaceBefore(term)
    ensures ValidIdent(ReverseTerm(term)) && Trimmed(ReverseTerm(term)) && Ordering(term).Some?
    ensures Ordering(ReverseTerm(term)) == Some((Ordering(term).value.0, !Ordering(term).value.1))
  {
    hide ValidIdent, SpaceBefore, Ordering, ReverseTerm, TrimSpace;
    ReverseFlipsIff(term);
    var c, blanks, word := TermParts(term);
    ColumnShape(c);
    ReversedTrims(term);
  }

  lemma KeyTerm(pk: string)
    requires IsName(pk)
    ensures ValidIdent(pk) && Ordering(pk) == Some((pk, false))
    ensures ValidIdent(pk + " DESC") && Trimmed(pk + " DESC") && Ordering(pk + " DESC") == Some((pk, true))
  {
    hide ValidIdent, IsName, TrimSpace, Trimmed, AfterQualified;
    NameIsColumn(pk);
    ColumnIsTerm(pk);
    ColumnTrims(pk);
    TrimSpaceTrims(pk);
    Keyset.CursorOrderIff(pk, true);
    assert CursorOrder(pk, true) == pk + " DESC";
  }

  // The ordering of Last: columns, each in the other direction than in the list
  lemma ReversedTerms(b: Builder)
    requires Turnable(b)
    ensures Flipped(Listed(b), Reversed(b).orderBy)
    ensures forall t :: t in Listed(b) ==> ValidIdent(t)
    ensures forall t :: t in Reversed(b).orderBy ==> ValidIdent(t) && Trimmed(t)
  {
    hide ValidIdent, SpaceBefore, Ordering, ReverseTerm, Trimmed, IsName;
    var others := Reversed(b).orderBy;
    if b.orderBy == [] {
      KeyTerm(b.meta.pk.value);
    } else {
      forall i | 0 <= i < |others|
        ensures ValidIdent(others[i]) && Trimmed(others[i]) && Ordering(b.orderBy[i]).Some?
        ensures Ordering(others[i]) == Some((Ordering(b.orderBy[i]).value.0, !Ordering(b.orderBy[i]).value.1))
      {
        assert b.orderBy[i] in b.orderBy;
        ReversedTerm(b.orderBy[i]);
      }
    }
  }

  lemma LastLegible(b: Builder)
    requires Sound(b) && Matched(b) && Legible(b, []) && Turnable(b) && b.cols == [] && b.joins == []
    ensures var r := Reversed(b); Sound(r) && Matched(r) && r.rankArgs == [] && Legible(r, [])
  {
    hide ValidIdent, Turnable, MatchedClauses, PlainNames, Smooth, Marks, Bind, Reverse, IsName, Balanced, SelectText, SelectArgs,
         BoundSelect, MarksAll, AllTidy, Trimmed;
    var r := Reversed(b);
    ReversedTerms(b);
    LastMeans(b);
    ColumnsBind(r.orderBy);
    forall t | t in BoundTerms(r.orderBy, r.rankArgs)
      ensures Smooth(t, Outside)
    {
      var i :| 0 <= i < |r.orderBy| && t == Chars(r.orderBy[i]);
      TermSmooth(r.orderBy[i]);
    }
  }

  lemma LastSafe(b: Builder)
    requires Safe(b) && Turnable(b)
    ensures Safe(Reversed(b))
  {
    hide ValidIdent, Turnable, Steady, Quiet, Reverse, Trimmed, Flipped;
    var r := Reversed(b);
    ReversedTerms(b);
    forall t | t in r.orderBy
      ensures Steady(t)
    {
      IdentQuiet(t);
      QuietSteady(t);
    }
  }

  lemma LastAskable<R>(w: World<R>, b: Builder)
    requires Askable(b, w) && Turnable(b)
    ensures b.rankArgs == [] && Askable(Reversed(b), w)
  {
    hide Sound, MatchedClauses, Legible, Turnable, Safe, Reverse;
    LastLegible(b);
    if IsPG(b.driver) {
      LastSafe(b);
    }
  }

  // The rows a statement is answered with before it is cut, for an ordering by columns that tells them apart
  lemma SelectedIs<R(!new)>(w: World<R>, b: Builder, limit: Option<Value>, offset: Option<Value>)
    requires Sound(b) && Matched(b) && b.rankArgs == [] && WeakOrder(w.less)
    requires forall t :: t in b.orderBy ==> ValidIdent(t)
    requires TellsApart(w, b.orderBy, Passers(w, b))
    ensures Selected(w, Meant(b, [], limit, offset)) == Listing(w, b, b.orderBy)
  {
    hide ValidIdent, Ordering, WeakOrder, TellsApart, MatchedClauses, WhereOf, Filter, SortBy, InOrder, FirstOnes, PlainNames;
    ColumnsBind(b.orderBy);
    forall t | t in b.orderBy
      ensures Ordering(t).Some?
    {
      OrderingIffValid(t);
    }
    ListingDiffers(w, b.orderBy, Passers(w, b));
  }

  // The row after those skipped, if there is one
  function RowAt<R>(l: seq<R>, offset: int): seq<R> {
    var k := if offset > 0 then offset else 0; if k < |l| then [l[k]] else []
  }

  lemma OneRow<R>(w: World<R>, s: Selection, offset: int)
    requires s.limit == Some(IntValue(1)) && s.offset == Positive(offset)
    ensures Answer(w, s) == RowAt(Selected(w, s), offset)
  {
    hide Selected;
    var l := Selected(w, s);
    var k: nat := if offset > 0 then offset else 0;
    assert Bound(s.offset, 0) == k && Bound(s.limit, |l|) == 1;
  }

  lemma OneAnswered<R(!new)>(db: Statement -> seq<R>, w: World<R>, b: Builder)
    requires Answers(db, w, b.driver) && Askable(b, w) && b.rankArgs == [] && WeakOrder(w.less)
    requires forall t :: t in b.orderBy ==> ValidIdent(t)
    requires TellsApart(w, b.orderBy, Passers(w, b))
    ensures db(Statement(Rewritten(b.driver, SelectText(b, 1)), SelectArgs(b, 1))) == RowAt(Listing(w, b, b.orderBy), b.offset)
  {
    hide ValidIdent, MatchedClauses, Legible, Safe, WhereOf, SelectText, SelectArgs, TellsApart, WeakOrder, Selected, Answers,
         Answer, BoundTerms, Listing, PlainNames, RowAt;
    SelectAnswered(db, w, b, 1);
    SelectedIs(w, b, Positive(1), Positive(b.offset));
    OneRow(w, Meant(b, [], Positive(1), Positive(b.offset)), b.offset);
  }

  // First answers with the first row of the listing, after those skipped.
  lemma FirstAnswered<R(!new)>(db: Statement -> seq<R>, w: World<R>, b: Builder)
    requires Answers(db, w, b.driver) && Askable(b, w) && Turnable(b) && b.orderBy != [] && WeakOrder(w.less)
    requires TellsApart(w, Listed(b), Passers(w, b))
    ensures db(Statement(Rewritten(b.driver, SelectText(b, 1)), SelectArgs(b, 1)))
         == RowAt(Listing(w, b, Listed(b)), b.offset)
  {
    hide ValidIdent, SpaceBefore, Sound, MatchedClauses, Legible, Safe, WhereOf, SelectText, SelectArgs, TellsApart, WeakOrder,
         Answers, Listing, RowAt, Passers;
    LastAskable(w, b);
    OneAnswered(db, w, b);
  }

  // Main result: Last answers with the last row of the listing, before those skipped from its end; without an
  // ordering, with the row of the greatest key.
  lemma LastAnswered<R(!new)>(db: Statement -> seq<R>, w: World<R>, b: Builder)
    requires Answers(db, w, b.driver) && Askable(b, w) && Turnable(b) && WeakOrder(w.less)
    requires TellsApart(w, Listed(b), Passers(w, b))
    ensures db(Statement(Rewritten(b.driver, SelectText(Reversed(b), 1)), SelectArgs(Reversed(b), 1)))
         == RowAt(Backwards(Listing(w, b, Listed(b))), b.offset)
  {
    hide ValidIdent, SpaceBefore, Sound, MatchedClauses, Legible, Safe, WhereOf, SelectText, SelectArgs, TellsApart, WeakOrder,
         Answers, Flipped, Reverse, RowAt, Turnable, Filter, SortBy, InOrder, Listed;
    var r := Reversed(b);
    LastAskable(w, b);
    ReversedTerms(b);
    SameWhere(b, r);
    assert Passers(w, r) == Passers(w, b);
    FlippedTellsApart(w, Listed(b), r.orderBy, Passers(w, b));
    LastUnranked(b);
    OneAnswered(db, w, r);
    ListsBackwards(w, Listed(b), r.orderBy, Passers(w, b));
  }

  lemma LastUnranked(b: Builder)
    requires b.rankArgs == []
    ensures Reversed(b).rankArgs == [] && Reversed(b).driver == b.driver && Reversed(b).offset == b.offset
  {
  }

  lemma SameWhere(b: Builder, r: Builder)
    requires Sound(b) && Matched(b) && Sound(r) && Matched(r) && r.where == b.where && r.given == b.given
    ensures WhereOf(r) == WhereOf(b)
  {
  }

  lemma FlippedTellsApart<R(!new)>(w: World<R>, terms: seq<string>, others: seq<string>, rows: seq<R>)
    requires Flipped(terms, others) && TellsApart(w, terms, rows)
    ensures TellsApart(w, others, rows)
  {
    hide Flipped, Precedes;
    forall i, j | 0 <= i < |rows| && 0 <= j < |rows| && i != j
      ensures Precedes(w, TermsOf(others), rows[i], rows[j]) || Precedes(w, TermsOf(others), rows[j], rows[i])
    {
      FlippedPrecedes(w, terms, others, rows[i], rows[j]);
      FlippedPrecedes(w, terms, others, rows[j], rows[i]);
    }
  }
}
