/** Offset pagination in 64-bit arithmetic. Main results: for every page and page size the two paginating
    methods agree exactly when the size is not 1 and the count goes beyond the page exactly when the rows do,
    and the pages joined are all the rows exactly when the size is not 1. */
module OffsetPaging {
  import opened GoStrings
  import opened SqlBinding
  import opened QueryBuilder
  import opened QueryObject
  import opened QueryReader
  import opened Engine
  import Database

  const MaxInt := 0x7FFF_FFFF_FFFF_FFFF
  const MinInt := -0x8000_0000_0000_0000
  const MaxPageSize := 1000

  predicate IsInt(n: int) { MinInt <= n <= MaxInt }

  // Two's complement
  function Wrap(n: int): (w: int)
    ensures IsInt(w) && (IsInt(n) ==> w == n)
  {
    (n - MinInt) % 0x1_0000_0000_0000_0000 + MinInt
  }

  // Go's division by a positive number: towards zero
  function Quot(a: int, b: int): int
    requires b > 0
  {
    if a >= 0 then a / b else -((-a) / b)
  }

  datatype Page<R> = Page(
    items: seq<R>, total: int, page: int, pageSize: int, totalPages: int, hasNext: bool, hasPrev: bool)

  datatype Answer<R> = Got(page: Page<R>) | BadQuery(err: Error)

  // ---------- clampPaging ----------

  function SizeOf(pageSize: int): (s: int)
    ensures 1 <= s <= MaxPageSize
    ensures s == 1 <==> pageSize == 1
    ensures 1 <= pageSize <= MaxPageSize ==> s == pageSize
    ensures pageSize < 1 ==> s == 10
    ensures pageSize > MaxPageSize ==> s == MaxPageSize
  {
    if pageSize < 1 then 10 else if pageSize > MaxPageSize then MaxPageSize else pageSize
  }

  function LastPage(size: int): int
    requires size > 0
  {
    Wrap(MaxInt / size + 1)
  }

  function PageOf(page: int, size: int): int
    requires size > 0
  {
    var p := if page < 1 then 1 else page;
    if p > LastPage(size) then LastPage(size) else p
  }

  method ClampPaging(page: int, pageSize: int) returns (p: int, s: int)
    ensures s == SizeOf(pageSize) && p == PageOf(page, s)
  {
    p, s := page, pageSize;
    if p < 1 {
      p := 1;
    }
    if s < 1 {
      s := 10;
    }
    if s > MaxPageSize {
      s := MaxPageSize;
    }
    var maxPage := Wrap(MaxInt / s + 1);
    if p > maxPage {
      p := maxPage;
    }
  }

  function OffsetOf(p: int, size: int): int { Wrap(Wrap(p - 1) * size) }

  lemma DivMul(a: int, size: int)
    requires a >= 0 && size > 0
    ensures 0 <= a / size && (a / size) * size <= a < (a / size) * size + size
  {
    assert a == (a / size) * size + a % size;
  }

  lemma DivFits(n: int, size: int)
    requires n >= 0 && size > 0
    ensures n * size <= MaxInt <==> n <= MaxInt / size
    ensures 0 <= MaxInt / size <= MaxInt && (MaxInt / size) * size <= MaxInt < (MaxInt / size) * size + size
  {
    DivMul(MaxInt, size);
    FitsBelow(n, size, MaxInt / size);
  }

  lemma FitsBelow(n: int, size: int, q: int)
    requires n >= 0 && size > 0 && q >= 0 && q * size <= MaxInt < q * size + size
    ensures (n * size <= MaxInt <==> n <= q) && q <= MaxInt
  {
    assert (q + 1) * size == q * size + size;
    if n <= q {
      Scale(n, q, size);
    } else {
      Scale(q + 1, n, size);
    }
    Scale(1, size, q);
  }

  lemma Scale(a: int, b: int, size: int)
    requires a <= b && size >= 0
    ensures a * size <= b * size
  {
  }

  lemma HalfFits(size: int)
    requires size >= 2
    ensures MaxInt / size + 1 <= MaxInt && LastPage(size) == MaxInt / size + 1
  {
    var q := MaxInt / size;
    DivFits(0, size);
    Scale(2, size, q);
  }

  // For every page and every page size but 1, the offset does not wrap, and the page is the one asked for
  // if its offset fits, else the last page whose offset does. A page size of 1 wraps.
  lemma ClampIff(page: int, pageSize: int)
    requires IsInt(page) && IsInt(pageSize)
    ensures var s := SizeOf(pageSize);
      var p := PageOf(page, s);
      var asked := if page < 1 then 1 else page;
      && (1 <= p && OffsetOf(p, s) == (p - 1) * s && 0 <= OffsetOf(p, s) <= MaxInt <==> pageSize != 1)
      && (pageSize != 1 ==>
            if (asked - 1) * s <= MaxInt then p == asked else p < asked && p * s > MaxInt)
      && (pageSize == 1 ==> p == MinInt && OffsetOf(p, s) == MaxInt)
  {
    var s := SizeOf(pageSize);
    var asked := if page < 1 then 1 else page;
    if s == 1 {
      assert LastPage(1) == MinInt;
    } else {
      HalfFits(s);
      DivFits(asked - 1, s);
      var p := PageOf(page, s);
      DivFits(p - 1, s);
      Scale(0, p - 1, s);
    }
  }

  // ---------- the two methods ----------

  function PageStatement(b: Builder, size: int, offset: int): Statement {
    Statement(Rewritten(b.driver, PageText(b)), PageArgs(b, size, offset))
  }

  function CountOf(b: Builder): Statement { Statement(Rewritten(b.driver, CountText(b)), b.args) }

  function TotalPages(total: int, size: int): int
    requires size > 0
  {
    var n := Quot(Wrap(total + size - 1), size);
    if n == 0 then 1 else n
  }

  function Counted<R>(b: Builder, db: Statement -> seq<R>, count: Statement -> int, page: int, pageSize: int): Page<R> {
    var s := SizeOf(pageSize);
    var p := PageOf(page, s);
    var total := count(CountOf(b));
    var n := TotalPages(total, s);
    Page(db(PageStatement(b, s, OffsetOf(p, s))), total, p, s, n, p < n, p > 1)
  }

  function Uncounted<R>(b: Builder, db: Statement -> seq<R>, page: int, pageSize: int): Page<R> {
    var s := SizeOf(pageSize);
    var p := PageOf(page, s);
    var rows := db(PageStatement(b, s + 1, OffsetOf(p, s)));
    Page(Take(rows, s), -1, p, s, 0, |rows| > s, p > 1)
  }

  // `db` and `count` answer statements.
  method Paginate<R>(q: Query, db: Statement -> seq<R>, count: Statement -> int, page: int, pageSize: int)
    returns (r: Answer<R>)
    ensures r == if q.err.Some? then BadQuery(q.err.value) else Got(Counted(q.View(), db, count, page, pageSize))
  {
    hide PageText, CountText, PageArgs, Rewritten, Wrap;
    if q.err.Some? {
      return BadQuery(q.err.value);
    }
    var p, s := ClampPaging(page, pageSize);
    var c := q.CountStatement();
    var total := count(c);
    var totalPages := Quot(Wrap(total + s - 1), s);
    if totalPages == 0 {
      totalPages := 1;
    }
    var offset := Wrap(Wrap(p - 1) * s);
    var sql, args := q.BuildSelectPage(s, offset);
    var items := db(Statement(sql, args));
    return Got(Page(items, total, p, s, totalPages, p < totalPages, p > 1));
  }

  method PaginateNoCount<R>(q: Query, db: Statement -> seq<R>, page: int, pageSize: int) returns (r: Answer<R>)
    ensures r == if q.err.Some? then BadQuery(q.err.value) else Got(Uncounted(q.View(), db, page, pageSize))
  {
    hide PageText, PageArgs, Rewritten, Wrap;
    if q.err.Some? {
      return BadQuery(q.err.value);
    }
    var p, s := ClampPaging(page, pageSize);
    var offset := Wrap(Wrap(p - 1) * s);
    var sql, args := q.BuildSelectPage(s + 1, offset);
    var items := db(Statement(sql, args));
    var hasNext := |items| > s;
    if hasNext {
      items := items[..s];
    }
    return Got(Page(items, -1, p, s, 0, hasNext, p > 1));
  }

  // ---------- over a fixed table ----------

  // `rows` are the rows the query selects, in its order, which the database cuts. COUNT ignores DISTINCT, so
  // what it counts can be more.
  ghost predicate Serves<R(!new)>(b: Builder, db: Statement -> seq<R>, count: Statement -> int, rows: seq<R>) {
    && |rows| <= MaxInt
    && 0 <= count(CountOf(b)) <= MaxInt
    && forall size: nat, offset: nat :: db(PageStatement(b, size, offset)) == Fetch(rows, size, offset)
  }

  // The number of pages: what the rows fill, at least one; wrong exactly where the rounding wraps.
  lemma TotalPagesIff(total: int, size: int)
    requires 0 <= total <= MaxInt && 1 <= size <= MaxPageSize
    ensures var n := TotalPages(total, size);
      && (n >= 1 && (n == 1 || (n - 1) * size < total) && total <= n * size <==> total + size - 1 <= MaxInt)
      && (total + size - 1 > MaxInt ==> n < 1)
  {
    hide Wrap;
    var sum := total + size - 1;
    if sum <= MaxInt {
      RoundsUp(total, size);
    } else {
      assert Wrap(sum) == sum - 0x1_0000_0000_0000_0000 by { WrapsOver(sum); }
      DivMul(-Wrap(sum), size);
      QuotNegative(-Wrap(sum), size);
    }
  }

  lemma WrapsOver(n: int)
    requires MaxInt < n <= MaxInt + MaxPageSize
    ensures Wrap(n) == n - 0x1_0000_0000_0000_0000
  {
  }

  lemma RoundsUp(total: int, size: int)
    requires total >= 0 && size >= 1
    ensures var q := (total + size - 1) / size;
      var n := if q == 0 then 1 else q;
      n >= 1 && (n == 1 || (n - 1) * size < total) && total <= n * size
  {
    var q := (total + size - 1) / size;
    DivMul(total + size - 1, size);
    assert (q - 1) * size == q * size - size;
  }

  lemma QuotNegative(a: int, size: int)
    requires a > MaxPageSize >= size >= 1 && 0 <= a / size && a < (a / size) * size + size
    ensures a / size >= 1
  {
  }

  lemma HasNextMeans(n: int, p: int, total: int, size: int)
    requires size > 0 && n >= 1 && p >= 1 && (n == 1 || (n - 1) * size < total) && total <= n * size
    ensures p < n <==> p * size < total
  {
    if p < n {
      Scale(p, n - 1, size);
    } else {
      Scale(n, p, size);
    }
  }

  // Where the offset does not wrap, both methods return the page's rows.
  lemma PageRows<R(!new)>(
    b: Builder, db: Statement -> seq<R>, count: Statement -> int, rows: seq<R>, page: int, pageSize: int)
    requires Serves(b, db, count, rows) && IsInt(page) && IsInt(pageSize) && pageSize != 1
    ensures var s := SizeOf(pageSize);
      var p := PageOf(page, s);
      && p >= 1 && (p - 1) * s >= 0
      && Counted(b, db, count, page, pageSize).items == Fetch(rows, s, (p - 1) * s)
      && Uncounted(b, db, page, pageSize).items == Fetch(rows, s, (p - 1) * s)
      && (Uncounted(b, db, page, pageSize).hasNext <==> p * s < |rows|)
  {
    hide PageStatement, CountOf;
    ClampIff(page, pageSize);
    var s := SizeOf(pageSize);
    var p := PageOf(page, s);
    assert p * s == (p - 1) * s + s;
  }

  // A page size of 1 asks for the row at the greatest offset.
  lemma SizeOneIsEmpty<R(!new)>(
    b: Builder, db: Statement -> seq<R>, count: Statement -> int, rows: seq<R>, page: int)
    requires Serves(b, db, count, rows) && IsInt(page)
    ensures Counted(b, db, count, page, 1).items == [] && Uncounted(b, db, page, 1).items == []
    ensures Counted(b, db, count, page, 1).hasNext && !Uncounted(b, db, page, 1).hasNext
  {
    hide PageStatement, CountOf;
    ClampIff(page, 1);
    TotalPagesIff(count(CountOf(b)), 1);
  }

  // The exact condition, whatever is counted: the two methods return the same Items, and the same HasNext if and
  // only if the page size is not 1 and the count, unless its rounding wraps, goes beyond the page exactly when
  // the rows do.
  lemma AgreeIff<R(!new)>(
    b: Builder, db: Statement -> seq<R>, count: Statement -> int, rows: seq<R>, page: int, pageSize: int)
    requires Serves(b, db, count, rows) && IsInt(page) && IsInt(pageSize)
    ensures var c, u := Counted(b, db, count, page, pageSize), Uncounted(b, db, page, pageSize);
      && c.page == u.page && c.pageSize == u.pageSize && c.hasPrev == u.hasPrev && c.items == u.items
      && (c.hasNext == u.hasNext <==>
            && pageSize != 1
            && (c.total + c.pageSize - 1 <= MaxInt && c.page * c.pageSize < c.total <==> c.page * c.pageSize < |rows|))
  {
    hide PageStatement, CountOf, Wrap, Fetch;
    if pageSize == 1 {
      SizeOneIsEmpty(b, db, count, rows, page);
    } else {
      var s := SizeOf(pageSize);
      var p := PageOf(page, s);
      var total := count(CountOf(b));
      PageRows(b, db, count, rows, page, pageSize);
      TotalPagesIff(total, s);
      if total + s - 1 <= MaxInt {
        HasNextMeans(TotalPages(total, s), p, total, s);
      }
    }
  }

  // Without DISTINCT the rows are counted: they agree exactly when the page size is not 1 and the number of
  // pages does not wrap, or there is nothing left to show.
  lemma AgreeWhenCounted<R(!new)>(
    b: Builder, db: Statement -> seq<R>, count: Statement -> int, rows: seq<R>, page: int, pageSize: int)
    requires Serves(b, db, count, rows) && count(CountOf(b)) == |rows| && IsInt(page) && IsInt(pageSize)
    ensures var c, u := Counted(b, db, count, page, pageSize), Uncounted(b, db, page, pageSize);
      c.hasNext == u.hasNext
      <==> pageSize != 1 && (|rows| + c.pageSize - 1 <= MaxInt || c.page * c.pageSize >= |rows|)
  {
    hide PageStatement, CountOf, Wrap, Fetch, TotalPages;
    AgreeIff(b, db, count, rows, page, pageSize);
  }

  // With DISTINCT more may be counted than is shown: they agree, sizes permitting, exactly outside the pages
  // between the last row shown and the last one counted.
  lemma AgreeWhenDistinct<R(!new)>(
    b: Builder, db: Statement -> seq<R>, count: Statement -> int, rows: seq<R>, page: int, pageSize: int)
    requires Serves(b, db, count, rows) && count(CountOf(b)) >= |rows| && IsInt(page) && IsInt(pageSize)
    requires pageSize != 1 && count(CountOf(b)) + SizeOf(pageSize) - 1 <= MaxInt
    ensures var c, u := Counted(b, db, count, page, pageSize), Uncounted(b, db, page, pageSize);
      c.hasNext == u.hasNext <==> !(|rows| <= c.page * c.pageSize < c.total)
  {
    hide PageStatement, CountOf, Wrap, Fetch, TotalPages;
    AgreeIff(b, db, count, rows, page, pageSize);
  }

  // Pages 1 to n, joined
  function Joined<R>(b: Builder, db: Statement -> seq<R>, count: Statement -> int, pageSize: int, n: nat): seq<R> {
    if n == 0 then []
    else Joined(b, db, count, pageSize, n - 1) + Counted(b, db, count, n, pageSize).items
  }

  lemma {:induction false} JoinedIsPages<R(!new)>(
    b: Builder, db: Statement -> seq<R>, count: Statement -> int, rows: seq<R>, pageSize: int, n: nat)
    requires Serves(b, db, count, rows) && IsInt(pageSize) && pageSize != 1
    requires n <= 1 || (n - 1) * SizeOf(pageSize) <= MaxInt
    ensures Joined(b, db, count, pageSize, n) == Pages(rows, SizeOf(pageSize), n)
  {
    hide PageStatement, CountOf, Wrap, Fetch, Counted, Serves, PageOf;
    if n > 0 {
      var s := SizeOf(pageSize);
      if n > 1 {
        Scale(n - 2, n - 1, s);
      }
      JoinedIsPages(b, db, count, rows, pageSize, n - 1);
      PageIsAsked(n, pageSize);
      PageRows(b, db, count, rows, n, pageSize);
    }
  }

  lemma PageIsAsked(n: nat, pageSize: int)
    requires IsInt(pageSize) && pageSize != 1 && n >= 1
    requires n == 1 || (n - 1) * SizeOf(pageSize) <= MaxInt
    ensures IsInt(n) && PageOf(n, SizeOf(pageSize)) == n
  {
    hide Wrap;
    var s := SizeOf(pageSize);
    if n > 1 {
      Scale(1, s, n - 1);
      assert (n - 1) * s >= n - 1;
      if n == MaxInt + 1 {
        Scale(2, s, n - 1);
      }
    }
    ClampIff(n, pageSize);
  }

  lemma {:induction false} SizeOneJoined<R(!new)>(
    b: Builder, db: Statement -> seq<R>, count: Statement -> int, rows: seq<R>, n: nat)
    requires Serves(b, db, count, rows) && n <= MaxInt
    ensures Joined(b, db, count, 1, n) == []
  {
    hide PageStatement, CountOf, Counted, Serves;
    if n > 0 {
      SizeOneJoined(b, db, count, rows, n - 1);
      SizeOneIsEmpty(b, db, count, rows, n);
    }
  }

  // Pages 1 to TotalPages joined are all the rows, each once and in order, exactly when the page size is
  // not 1 (or there is nothing to show); with DISTINCT too, where the last pages may be empty.
  lemma AllPagesIff<R(!new)>(
    b: Builder, db: Statement -> seq<R>, count: Statement -> int, rows: seq<R>, pageSize: int)
    requires Serves(b, db, count, rows) && IsInt(pageSize)
    requires |rows| <= count(CountOf(b)) && count(CountOf(b)) + SizeOf(pageSize) - 1 <= MaxInt
    ensures var n := Counted(b, db, count, 1, pageSize).totalPages;
      && n >= 1
      && (Joined(b, db, count, pageSize, n) == rows <==> pageSize != 1 || rows == [])
  {
    hide PageStatement, CountOf, Wrap, Fetch, Joined, Pages;
    var s, total := SizeOf(pageSize), count(CountOf(b));
    TotalPagesIff(total, s);
    var n := TotalPages(total, s);
    if pageSize == 1 {
      assert n <= MaxInt;
      SizeOneJoined(b, db, count, rows, n);
    } else {
      JoinedIsPages(b, db, count, rows, pageSize, n);
      PagesPrefix(rows, s, n);
    }
  }

  // A page so far away that its offset would not fit shows nothing, provided the table ends before the last
  // offset that fits; otherwise it shows the rows of that last page instead.
  lemma TooFarIsEmptyIff<R(!new)>(
    b: Builder, db: Statement -> seq<R>, count: Statement -> int, rows: seq<R>, page: int, pageSize: int)
    requires Serves(b, db, count, rows) && IsInt(page) && IsInt(pageSize) && pageSize != 1
    requires page >= 1 && (page - 1) * SizeOf(pageSize) > MaxInt
    ensures Counted(b, db, count, page, pageSize).items == [] <==> |rows| <= MaxInt / SizeOf(pageSize) * SizeOf(pageSize)
  {
    hide PageStatement, CountOf, Wrap;
    var s := SizeOf(pageSize);
    ClampIff(page, pageSize);
    HalfFits(s);
    PageRows(b, db, count, rows, page, pageSize);
    assert PageOf(page, s) == MaxInt / s + 1 by { DivFits(page - 1, s); }
  }

  // HasPrev says that rows were skipped, the size is the one asked for up to the limits, and the offset is that
  // of the page, exactly when the page size is not 1.
  lemma HasPrevIff<R>(b: Builder, db: Statement -> seq<R>, count: Statement -> int, page: int, pageSize: int)
    requires IsInt(page) && IsInt(pageSize)
    ensures var c, u := Counted(b, db, count, page, pageSize), Uncounted(b, db, page, pageSize);
      && (1 <= pageSize <= 1000 ==> c.pageSize == pageSize) && (pageSize < 1 ==> c.pageSize == 10)
      && (pageSize > 1000 ==> c.pageSize == 1000) && u.pageSize == c.pageSize && u.hasPrev == c.hasPrev
      && ((c.hasPrev <==> OffsetOf(c.page, c.pageSize) > 0) <==> pageSize != 1)
  {
    hide PageStatement, CountOf, Wrap;
    ClampIff(page, pageSize);
    var s := SizeOf(pageSize);
    var p := PageOf(page, s);
    if pageSize != 1 && p > 1 {
      Scale(1, p - 1, s);
    }
  }

  // ---------- the database ----------

  // The rows of the query, before it is cut, and how many rows its conditions let through
  ghost function RowsOf<R>(w: Database.World<R>, b: Builder): seq<R>
    requires Database.Askable(b, w)
  {
    Database.Selected(w, Meant(b, [], None, None))
  }

  ghost function PassingOf<R>(w: Database.World<R>, b: Builder): nat
    requires Database.Askable(b, w)
  {
    |Filter(w.rows, Database.Passing(w, WhereOf(b)))|
  }

  lemma RowsCounted<R(!new)>(w: Database.World<R>, b: Builder)
    requires Database.Askable(b, w)
    ensures |RowsOf(w, b)| <= PassingOf(w, b) && (!b.distinct ==> |RowsOf(w, b)| == PassingOf(w, b))
  {
    hide Sound, MatchedClauses, WhereOf, Legible, BoundTerms;
    var s := Meant(b, [], None, None);
    var passing := Filter(w.rows, Database.Passing(w, s.where));
    var sorted := SortBy(passing, Database.InOrder(w, s.order));
    SortKeepsMembers(passing, Database.InOrder(w, s.order));
    Database.FirstOnesFewer(sorted);
  }

  lemma PageCut<R(!new)>(db: Statement -> seq<R>, w: Database.World<R>, b: Builder, size: nat, offset: nat)
    requires Database.Answers(db, w, b.driver) && Database.Askable(b, w)
    ensures db(PageStatement(b, size, offset)) == Fetch(RowsOf(w, b), size, offset)
  {
    hide Sound, MatchedClauses, WhereOf, PageText, PageArgs, Rewritten, Legible, BoundTerms, Database.Answers, Fetch;
    Database.PageAnswered(db, w, b, size, offset);
    SameRows(w, b, Some(IntValue(size)), Some(IntValue(offset)));
  }

  // Limit and offset do not bear on the rows before they are cut.
  lemma SameRows<R>(w: Database.World<R>, b: Builder, limit: Option<Value>, offset: Option<Value>)
    requires Database.Askable(b, w)
    ensures Database.Selected(w, Meant(b, [], limit, offset)) == RowsOf(w, b)
  {
    hide Sound, MatchedClauses, WhereOf, Legible, BoundTerms;
  }

  // A database that reads its statements serves the pages, and counts the rows unless they are DISTINCT.
  lemma DatabaseServes<R(!new)>(db: Statement -> seq<R>, count: Statement -> int, w: Database.World<R>, b: Builder)
    requires Database.Answers(db, w, b.driver) && Database.Counts(count, w, b.driver) && Database.Askable(b, w)
    requires count(CountOf(b)) <= MaxInt
    ensures Serves(b, db, count, RowsOf(w, b))
    ensures |RowsOf(w, b)| <= count(CountOf(b)) && (!b.distinct ==> |RowsOf(w, b)| == count(CountOf(b)))
    ensures count(CountOf(b)) == PassingOf(w, b)
  {
    hide Database.Askable, Database.Answers, Database.Counts, RowsOf, PageStatement;
    CountIs(count, w, b);
    RowsCounted(w, b);
    forall size: nat, offset: nat
      ensures db(PageStatement(b, size, offset)) == Fetch(RowsOf(w, b), size, offset)
    {
      PageCut(db, w, b, size, offset);
    }
  }

  lemma CountIs<R(!new)>(count: Statement -> int, w: Database.World<R>, b: Builder)
    requires Database.Counts(count, w, b.driver) && Database.Askable(b, w)
    ensures count(CountOf(b)) == PassingOf(w, b)
  {
    hide Sound, MatchedClauses, WhereOf, Legible, CountText, Rewritten, Database.Counts;
    Database.CountAnswered(count, w, b);
  }

  // Page number p of the rows
  function Slice<R>(rows: seq<R>, p: int, size: int): seq<R> {
    if p < 1 || size < 1 then []
    else
      Scale(0, p - 1, size);
      Fetch(rows, size, (p - 1) * size)
  }

  lemma SliceShown<R(!new)>(
    b: Builder, db: Statement -> seq<R>, count: Statement -> int, rows: seq<R>, page: int, pageSize: int)
    requires Serves(b, db, count, rows) && IsInt(page) && IsInt(pageSize)
    ensures var c, u := Counted(b, db, count, page, pageSize), Uncounted(b, db, page, pageSize);
      if pageSize == 1 then c.items == []
      else c.items == Slice(rows, c.page, c.pageSize) && (u.hasNext <==> c.page * c.pageSize < |rows|)
  {
    hide PageOf, Fetch, Serves;
    CountedFields(b, db, count, page, pageSize);
    if pageSize == 1 {
      SizeOneIsEmpty(b, db, count, rows, page);
    } else {
      PageRows(b, db, count, rows, page, pageSize);
    }
  }

  // Main result, on a database that knows nothing but the statements it is sent: what the pages show and when
  // the two methods agree.
  lemma AgreeInDatabase<R(!new)>(
    db: Statement -> seq<R>, count: Statement -> int, w: Database.World<R>, b: Builder, page: int, pageSize: int)
    requires Database.Answers(db, w, b.driver) && Database.Counts(count, w, b.driver) && Database.Askable(b, w)
    requires count(CountOf(b)) <= MaxInt && IsInt(page) && IsInt(pageSize)
    ensures var c, u := Counted(b, db, count, page, pageSize), Uncounted(b, db, page, pageSize);
      var rows := RowsOf(w, b);
      && c.total == PassingOf(w, b) && c.items == u.items
      && (if pageSize == 1 then c.items == []
          else c.items == Slice(rows, c.page, c.pageSize)
               && (u.hasNext <==> c.page * c.pageSize < |rows|))
      && (!b.distinct ==> (c.hasNext == u.hasNext
            <==> pageSize != 1 && (|rows| + c.pageSize - 1 <= MaxInt || c.page * c.pageSize >= |rows|)))
      && (b.distinct && pageSize != 1 && c.total + c.pageSize - 1 <= MaxInt ==>
            (c.hasNext == u.hasNext <==> !(|rows| <= c.page * c.pageSize < c.total)))
  {
    hide Database.Answers, Database.Counts, Database.Askable, Serves, RowsOf, PassingOf, Counted, Uncounted, CountOf, Slice,
         SizeOf, PageOf, Wrap, LastPage;
    var rows := RowsOf(w, b);
    DatabaseServes(db, count, w, b);
    CountedFields(b, db, count, page, pageSize);
    SliceShown(b, db, count, rows, page, pageSize);
    AgreeIff(b, db, count, rows, page, pageSize);
    if !b.distinct {
      AgreeWhenCounted(b, db, count, rows, page, pageSize);
    } else if pageSize != 1 && count(CountOf(b)) + SizeOf(pageSize) - 1 <= MaxInt {
      AgreeWhenDistinct(b, db, count, rows, page, pageSize);
    }
  }

  lemma CountedFields<R>(b: Builder, db: Statement -> seq<R>, count: Statement -> int, page: int, pageSize: int)
    ensures var c := Counted(b, db, count, page, pageSize);
      && c.total == count(CountOf(b)) && c.pageSize == SizeOf(pageSize) && c.page == PageOf(page, SizeOf(pageSize))
  {
  }

  lemma AllPagesInDatabase<R(!new)>(
    db: Statement -> seq<R>, count: Statement -> int, w: Database.World<R>, b: Builder, pageSize: int)
    requires Database.Answers(db, w, b.driver) && Database.Counts(count, w, b.driver) && Database.Askable(b, w)
    requires count(CountOf(b)) + SizeOf(pageSize) - 1 <= MaxInt && IsInt(pageSize)
    ensures var n := Counted(b, db, count, 1, pageSize).totalPages;
      && n >= 1
      && (Joined(b, db, count, pageSize, n) == RowsOf(w, b) <==> pageSize != 1 || RowsOf(w, b) == [])
  {
    hide Database.Answers, Database.Counts, Database.Askable, Counted, Serves, CountOf, RowsOf, PassingOf, Joined;
    DatabaseServes(db, count, w, b);
    AllPagesIff(b, db, count, RowsOf(w, b), pageSize);
  }
}
