/** Keyset pagination: PaginateAfter filters by a cursor, orders by its column and asks for one row more than
    the page. Main results: following NextCursor from page to page yields exactly the filtered rows, in key
    order, each once, and ends, if and only if no page ends on a key that counts as zero; and the cursor
    holds for every row of a page if and only if no clause after the first is joined with OR. */
module Keyset {
  import opened GoStrings
  import opened SqlQuotes
  import opened SqlBinding
  import opened Identifiers
  import opened QueryBuilder
  import opened QueryObject
  import opened QueryFilter
  import opened QueryLast
  import opened QueryServer
  import opened SqlReader
  import opened QueryReader
  import opened Conditions
  import opened Engine
  import Database

  const MaxPageSize := 1000

  // `next` is Nil when there is no next page
  datatype KeysetPage<R> = KeysetPage(items: seq<R>, next: Value, hasNext: bool)

  datatype Answer<R> = Got(page: KeysetPage<R>) | BadQuery(err: Error) | BadColumn | NoSuchColumn

  function ClampLimit(limit: int): (n: nat)
    ensures 1 <= n <= MaxPageSize
    ensures 1 <= limit <= MaxPageSize ==> n == limit
    ensures limit < 1 ==> n == 10
    ensures limit > MaxPageSize ==> n == 1000
  {
    if limit < 1 then 10 else if limit > MaxPageSize then MaxPageSize else limit
  }

  function Cursor(after: Value): Option<Value> { if IsZeroValue(after) then None else Some(after) }

  // The statement of a page
  function AfterStatement(b: Builder, col: string, after: Value, desc: bool, limit: nat): Statement {
    var rq := AfterCursor(b, col, Cursor(after), desc);
    Statement(Rewritten(b.driver, SelectText(rq, limit + 1)), SelectArgs(rq, limit + 1))
  }

  // The page made of the rows that came back; `key` reads the cursor column of a row
  function CutPage<R>(rows: seq<R>, limit: nat, key: R -> Value): KeysetPage<R> {
    if |rows| > limit && limit > 0 then KeysetPage(rows[..limit], key(rows[limit - 1]), true)
    else KeysetPage(Take(rows, limit), Nil, |rows| > limit)
  }

  // The copy of the query, filtered by the cursor and ordered by its column
  method WithCursor(q: Query, col: string, after: Value, desc: bool) returns (rq: Query)
    ensures fresh(rq) && rq.driver == q.driver && rq.View() == AfterCursor(q.View(), col, Cursor(after), desc)
  {
    var op, order := ">", col + " ASC";
    if desc {
      op, order := "<", col + " DESC";
    }
    rq := q.Copy();
    if after != Nil && !IsZeroValue(after) {
      rq.where := q.where + [Clause(col + " " + op + " ?", false)];
      rq.args, rq.given := q.args + [after], q.given + [[after]];
    }
    rq.orderBy := [order];
  }

  // `db` answers a statement with rows. The query itself is left as it was.
  method PaginateAfter<R>(
    q: Query, db: Statement -> seq<R>, key: R -> Value, col: string, after: Value, desc: bool, limit: int)
    returns (r: Answer<R>)
    ensures r ==
      if q.err.Some? then BadQuery(q.err.value)
      else if !ValidIdent(col) then BadColumn
      else if FieldOf(q.meta.fields, col).None? then NoSuchColumn
      else Got(CutPage(db(AfterStatement(q.View(), col, after, desc, ClampLimit(limit))), ClampLimit(limit), key))
  {
    hide ValidIdent, FieldOf, SelectText, SelectArgs, Rewritten, AfterCursor;
    if q.err.Some? {
      return BadQuery(q.err.value);
    }
    if !ValidIdent(col) {
      return BadColumn;
    }
    var f := FieldOf(q.meta.fields, col);
    if f.None? {
      return NoSuchColumn;
    }
    var size := limit;
    if size < 1 {
      size := 10;
    }
    if size > MaxPageSize {
      size := MaxPageSize;
    }
    var rq := WithCursor(q, col, after, desc);
    var sql, args := rq.BuildSelect(size + 1);
    var items := db(Statement(sql, args));
    var hasNext := |items| > size;
    if hasNext {
      items := items[..size];
    }
    var next := Nil;
    if hasNext && |items| > 0 {
      next := key(items[|items| - 1]);
    }
    return Got(KeysetPage(items, next, hasNext));
  }

  // ---------- the cursor among the conditions ----------

  ghost predicate Passes(items: seq<Item>, truth: seq<Piece> -> Truth) { items == [] || SomeRun(items, truth, Yes) }

  // Where the last AND run begins
  function LastStart(items: seq<Item>): (i: nat)
    ensures items != [] ==> i < |items| && (i == 0 || items[i].or)
    ensures items == [] ==> i == 0
    ensures forall k :: i < k < |items| ==> !items[k].or
  {
    if items == [] || items[|items| - 1].or then (if items == [] then 0 else |items| - 1)
    else LastStart(items[..|items| - 1])
  }

  // Some AND run before the last one lets the row through.
  ghost predicate Earlier(items: seq<Item>, truth: seq<Piece> -> Truth) {
    exists i: nat :: i < LastStart(items) && RunHolds(items, i, truth, Yes)
  }

  ghost predicate LastRun(items: seq<Item>, truth: seq<Piece> -> Truth) {
    items == [] || RunHolds(items, LastStart(items), truth, Yes)
  }

  lemma PassesSplits(items: seq<Item>, truth: seq<Piece> -> Truth)
    ensures Passes(items, truth) <==> LastRun(items, truth) || Earlier(items, truth)
  {
    hide AtLeast;
    if items != [] && SomeRun(items, truth, Yes) && !LastRun(items, truth) {
      var i: nat :| RunHolds(items, i, truth, Yes);
      assert i < LastStart(items);
    }
  }

  lemma EarlierKept(items: seq<Item>, c: Item, truth: seq<Piece> -> Truth, i: nat)
    requires !c.or && i < LastStart(items)
    ensures RunHolds(items + [c], i, truth, Yes) <==> RunHolds(items, i, truth, Yes)
  {
    hide AtLeast;
    var all := items + [c];
    assert forall k :: 0 <= k < |items| ==> all[k] == items[k];
    assert forall k :: 0 <= k < |items| ==> (SameRun(all, i, k) <==> SameRun(items, i, k));
    assert !SameRun(all, i, |items|) by { assert all[LastStart(items)].or; }
  }

  lemma LastExtended(items: seq<Item>, c: Item, truth: seq<Piece> -> Truth)
    requires !c.or
    ensures LastStart(items + [c]) == LastStart(items)
    ensures LastRun(items + [c], truth) <==> LastRun(items, truth) && truth(c.cond) == Yes
  {
    hide AtLeast, RunHolds, LastStart;
    LastStartKept(items, c);
    if items == [] {
      assert items + [c] == [c];
      OnlyRun(c, truth);
    } else {
      LastRunExtended(items, c, truth);
    }
    YesIsMost(c.cond, truth);
  }

  lemma LastStartKept(items: seq<Item>, c: Item)
    requires !c.or
    ensures LastStart(items + [c]) == LastStart(items)
  {
    assert (items + [c])[..|items|] == items;
  }

  lemma OnlyRun(c: Item, truth: seq<Piece> -> Truth)
    ensures RunHolds([c], 0, truth, Yes) <==> AtLeast(c.cond, truth, Yes)
  {
    hide AtLeast;
    assert SameRun([c], 0, 0);
  }

  lemma LastRunExtended(items: seq<Item>, c: Item, truth: seq<Piece> -> Truth)
    requires !c.or && items != []
    ensures RunHolds(items + [c], LastStart(items), truth, Yes)
      <==> RunHolds(items, LastStart(items), truth, Yes) && AtLeast(c.cond, truth, Yes)
  {
    hide AtLeast;
    var all, i := items + [c], LastStart(items);
    assert forall k :: 0 <= k < |items| ==> all[k] == items[k];
    assert forall k :: 0 <= k < |items| ==> (SameRun(all, i, k) <==> SameRun(items, i, k));
    assert SameRun(all, i, |items|);
    assert all[|items|] == c;
  }

  lemma YesIsMost(cond: seq<Piece>, truth: seq<Piece> -> Truth)
    ensures AtLeast(cond, truth, Yes) <==> truth(cond) == Yes
  {
  }

  // A condition added with AND binds to the last run only: a row passes the longer list if and only if it
  // passes the old one and the new condition, or an earlier alternative lets it through regardless.
  lemma CursorEscapesIff(items: seq<Item>, cond: seq<Piece>, truth: seq<Piece> -> Truth)
    ensures var all := items + [Item(cond, false)];
      && (Passes(all, truth) <==> (Passes(items, truth) && truth(cond) == Yes) || Earlier(items, truth))
      && ((Passes(all, truth) <==> Passes(items, truth) && truth(cond) == Yes)
          <==> !(Earlier(items, truth) && truth(cond) != Yes))
  {
    hide AtLeast, RunHolds, LastStart;
    var c := Item(cond, false);
    var all := items + [c];
    PassesSplits(items, truth);
    PassesSplits(all, truth);
    LastExtended(items, c, truth);
    forall i: nat | i < LastStart(items)
      ensures RunHolds(all, i, truth, Yes) <==> RunHolds(items, i, truth, Yes)
    {
      EarlierKept(items, c, truth, i);
    }
  }

  // Some clause of the run that begins at clause i is this very condition.
  ghost predicate RunHas(items: seq<Item>, i: nat, cond: seq<Piece>) {
    exists k :: 0 <= k < |items| && SameRun(items, i, k) && items[k].cond == cond
  }

  // Every AND run before the last has the condition in it.
  ghost predicate Guarded(items: seq<Item>, cond: seq<Piece>) {
    forall i: nat :: i < LastStart(items) && (i == 0 || items[i].or) ==> RunHas(items, i, cond)
  }

  // Whatever the conditions mean, a row passes with the cursor only if it satisfies the cursor.
  ghost predicate Respected(items: seq<Item>, cond: seq<Piece>) {
    forall truth: seq<Piece> -> Truth :: Passes(items + [Item(cond, false)], truth) ==> truth(cond) == Yes
  }

  // A row on which the condition alone fails
  function OnlyFails(cond: seq<Piece>): seq<Piece> -> Truth { p => if p == cond then No else Yes }

  lemma GuardHolds(items: seq<Item>, cond: seq<Piece>, truth: seq<Piece> -> Truth)
    requires Guarded(items, cond) && Earlier(items, truth)
    ensures truth(cond) == Yes
  {
    hide AtLeast;
    var i: nat :| i < LastStart(items) && RunHolds(items, i, truth, Yes);
    assert RunHas(items, i, cond);
    var k :| 0 <= k < |items| && SameRun(items, i, k) && items[k].cond == cond;
    assert AtLeast(items[k].cond, truth, Yes);
    YesIsMost(cond, truth);
  }

  lemma UnguardedEscapes(items: seq<Item>, cond: seq<Piece>, i: nat)
    requires i < LastStart(items) && (i == 0 || items[i].or) && !RunHas(items, i, cond)
    ensures Earlier(items, OnlyFails(cond)) && OnlyFails(cond)(cond) != Yes
  {
    var truth := OnlyFails(cond);
    forall k | 0 <= k < |items| && SameRun(items, i, k)
      ensures AtLeast(items[k].cond, truth, Yes)
    {
      assert items[k].cond != cond;
    }
    assert RunHolds(items, i, truth, Yes);
  }

  // The exact condition on the query: the cursor holds for every row of every page if and only if every AND run
  // before the last contains the cursor condition itself.
  lemma CursorRespectedIff(items: seq<Item>, cond: seq<Piece>)
    ensures Respected(items, cond) <==> Guarded(items, cond)
  {
    hide Passes, Earlier, LastStart, RunHas, OnlyFails;
    if Guarded(items, cond) {
      forall truth: seq<Piece> -> Truth | Passes(items + [Item(cond, false)], truth)
        ensures truth(cond) == Yes
      {
        CursorEscapesIff(items, cond, truth);
        if Earlier(items, truth) {
          GuardHolds(items, cond, truth);
        }
      }
    } else {
      var i: nat :| i < LastStart(items) && (i == 0 || items[i].or) && !RunHas(items, i, cond);
      UnguardedEscapes(items, cond, i);
      CursorEscapesIff(items, cond, OnlyFails(cond));
    }
  }

  // A query that does not itself hold the cursor condition respects it if and only if no clause after the first
  // is joined with OR.
  lemma NewCursorRespectedIff(items: seq<Item>, cond: seq<Piece>)
    requires forall k :: 0 <= k < |items| ==> items[k].cond != cond
    ensures Respected(items, cond) <==> forall k :: 1 <= k < |items| ==> !items[k].or
  {
    hide Respected;
    CursorRespectedIff(items, cond);
    if !(forall k :: 1 <= k < |items| ==> !items[k].or) {
      var k :| 1 <= k < |items| && items[k].or;
      assert LastStart(items) >= k;
      assert !RunHas(items, 0, cond);
    }
  }

  // Without OrWhere there is one run, and the cursor holds for every row of the page.
  lemma NoOrNoEscape(items: seq<Item>, truth: seq<Piece> -> Truth)
    requires forall k :: 1 <= k < |items| ==> !items[k].or
    ensures !Earlier(items, truth)
  {
  }

  // ---------- the fixed table ----------

  // `truth` is the value of a bound condition on a row, `less` the order of the key column.
  datatype World<!R> = World(table: seq<R>, key: R -> Value, less: (Value, Value) -> bool, truth: R -> seq<Piece> -> Truth)

  ghost function KeyOrder<R>(w: World<R>, desc: bool): (R, R) -> bool {
    (x, y) => Beyond(w, desc, w.key(x), y)
  }

  // The row lies beyond the cursor.
  predicate Beyond<R>(w: World<R>, desc: bool, after: Value, r: R) {
    if desc then w.less(w.key(r), after) else w.less(after, w.key(r))
  }

  // Keys are strictly ordered and no two rows of the table share one.
  ghost predicate UniqueKeys<R(!new)>(w: World<R>) {
    && (forall a, b, c :: w.less(a, b) && w.less(b, c) ==> w.less(a, c))
    && (forall a :: !w.less(a, a))
    && (forall i, j :: 0 <= i < |w.table| && 0 <= j < |w.table| && i != j ==>
          w.less(w.key(w.table[i]), w.key(w.table[j])) || w.less(w.key(w.table[j]), w.key(w.table[i])))
  }

  ghost function Passing<R(!new)>(w: World<R>, items: seq<Item>): R -> bool {
    r => Passes(items, w.truth(r))
  }

  // The rows a query selects, in the order of the key
  ghost function Selected<R(!new)>(w: World<R>, items: seq<Item>, desc: bool): seq<R> {
    SortBy(Filter(w.table, Passing(w, items)), KeyOrder(w, desc))
  }

  ghost function ItemsOf(b: Builder): seq<Item>
    requires |b.given| == |b.where| && Matched(b)
  {
    Items(b.where, b.given)
  }

  // The bound cursor condition
  function CursorPieces(col: string, desc: bool, after: Value): seq<Piece> {
    Chars(col + " " + (if desc then "<" else ">") + " ") + [Arg(after)]
  }

  ghost predicate CursorMeans<R(!new)>(w: World<R>, col: string, desc: bool) {
    forall r, after :: w.truth(r)(CursorPieces(col, desc, after)) == Yes <==> Beyond(w, desc, after, r)
  }

  // A query that PaginateAfter pages through: sound, with one AND run, no ranking, and whole rows
  ghost predicate Pageable(b: Builder) {
    && Sound(b) && |b.given| == |b.where| && Matched(b) && b.rankArgs == [] && b.joins == [] && b.cols == [] && b.offset <= 0
    && forall k :: 1 <= k < |b.where| ==> !b.where[k].or
  }

  // The database runs the statements of the pages: conditions, order and limit.
  ghost predicate Runs<R(!new)>(db: Statement -> seq<R>, w: World<R>, b: Builder, col: string, desc: bool) {
    forall after: Value, limit: nat :: RunsPage(db, w, b, col, desc, after, limit)
  }

  ghost predicate RunsPage<R(!new)>(
    db: Statement -> seq<R>, w: World<R>, b: Builder, col: string, desc: bool, after: Value, limit: nat)
  {
    var rq := AfterCursor(b, col, Cursor(after), desc);
    && |rq.given| == |rq.where| && Matched(rq)
    && db(AfterStatement(b, col, after, desc, limit)) == Take(Selected(w, ItemsOf(rq), desc), limit + 1)
  }

  lemma CursorBinds(col: string, desc: bool, after: Value)
    requires ValidIdent(col)
    ensures Closed(CursorText(col, desc)) && Marks(CursorText(col, desc)) == 1
    ensures Bind(CursorText(col, desc), [after]) == CursorPieces(col, desc, after)
  {
    hide ValidIdent, Bind, Marks, Closed, QuotedMarks;
    CursorCounts(col, desc);
    IdentIsInert(col);
    var head := col + " " + (if desc then "<" else ">") + " ";
    MarkBinds(after);
    BindAfterPlain(head, "?", [after]);
    assert CursorText(col, desc) == head + "?";
  }

  lemma AfterItems(b: Builder, col: string, after: Value, desc: bool)
    requires |b.given| == |b.where| && Matched(b) && ValidIdent(col)
    ensures var rq := AfterCursor(b, col, Cursor(after), desc);
      && |rq.given| == |rq.where| && Matched(rq)
      && ItemsOf(rq) == if IsZeroValue(after) then ItemsOf(b)
                        else ItemsOf(b) + [Item(CursorPieces(col, desc, after), false)]
  {
    hide Bind, Marks, Closed, ValidIdent, CursorText, CursorPieces;
    CursorBinds(col, desc, after);
    var rq := AfterCursor(b, col, Cursor(after), desc);
    if !IsZeroValue(after) {
      var n := |b.where|;
      assert rq.where[n] == Clause(CursorText(col, desc), false) && rq.given[n] == [after];
      assert forall i :: 0 <= i < n ==> rq.where[i] == b.where[i] && rq.given[i] == b.given[i];
      assert ItemsOf(rq)[n] == Item(CursorPieces(col, desc, after), false);
    }
  }

  // ---------- one page ----------

  lemma OrderFacts<R(!new)>(w: World<R>, desc: bool)
    requires UniqueKeys(w)
    ensures Transitive(KeyOrder(w, desc)) && Comparable(w.table, KeyOrder(w, desc))
  {
  }

  // The listing has exactly the rows of the table that pass, each as often, in strict key order.
  lemma ListingFacts<R(!new)>(w: World<R>, items: seq<Item>, desc: bool)
    requires UniqueKeys(w)
    ensures var l := Selected(w, items, desc);
      && multiset(l) == multiset(Filter(w.table, Passing(w, items)))
      && (forall r :: r in l <==> r in w.table && Passes(items, w.truth(r)))
      && InKeyOrder(w, desc, l)
  {
    hide Passes, UniqueKeys;
    var before := KeyOrder(w, desc);
    var f := Filter(w.table, Passing(w, items));
    OrderFacts(w, desc);
    FilterComparable(w.table, before, Passing(w, items));
    SortMembers(f, before);
    SortKeepsMembers(f, before);
    SortOrders(f, before);
    FilterMembers(w.table, Passing(w, items));
  }

  lemma NotBeyond<R(!new)>(w: World<R>, desc: bool, a: R, b: R)
    requires UniqueKeys(w) && (a == b || Beyond(w, desc, w.key(a), b))
    ensures !Beyond(w, desc, w.key(b), a)
  {
  }

  ghost predicate InKeyOrder<R>(w: World<R>, desc: bool, l: seq<R>) {
    forall i, j :: 0 <= i < j < |l| ==> Beyond(w, desc, w.key(l[i]), l[j])
  }

  lemma BeyondAt<R(!new)>(w: World<R>, l: seq<R>, desc: bool, m: nat, i: nat)
    requires UniqueKeys(w) && InKeyOrder(w, desc, l) && 0 < m <= |l| && i < |l|
    ensures Beyond(w, desc, w.key(l[m - 1]), l[i]) <==> i >= m
  {
    hide UniqueKeys, Beyond;
    if i < m {
      NotBeyond(w, desc, l[i], l[m - 1]);
    }
  }

  // What lies beyond row m - 1 of the listing is the rest of the listing.
  lemma BeyondIsRest<R(!new)>(w: World<R>, l: seq<R>, desc: bool, m: nat, p: R -> bool)
    requires UniqueKeys(w) && 0 < m <= |l| && InKeyOrder(w, desc, l)
    requires forall r :: p(r) <==> Beyond(w, desc, w.key(l[m - 1]), r)
    ensures Filter(l, p) == l[m..]
  {
    hide UniqueKeys, Beyond, InKeyOrder;
    forall r | r in l[..m]
      ensures !p(r)
    {
      var i :| 0 <= i < m && l[i] == r;
      BeyondAt(w, l, desc, m, i);
    }
    forall r | r in l[m..]
      ensures p(r)
    {
      var i :| 0 <= i < |l[m..]| && l[m..][i] == r;
      assert l[m + i] == r;
      BeyondAt(w, l, desc, m, m + i);
    }
    FilterNone(l[..m], p);
    FilterAll(l[m..], p);
    FilterConcat(l[..m], l[m..], p);
    assert l == l[..m] + l[m..];
  }

  // The rows of the query with a cursor are the rows of the query beyond the cursor.
  lemma CursorFilters<R(!new)>(
    w: World<R>, items: seq<Item>, col: string, desc: bool, after: Value, p: R -> bool)
    requires UniqueKeys(w) && CursorMeans(w, col, desc)
    requires forall k :: 1 <= k < |items| ==> !items[k].or
    requires forall r :: p(r) <==> Beyond(w, desc, after, r)
    ensures Selected(w, items + [Item(CursorPieces(col, desc, after), false)], desc)
         == Filter(Selected(w, items, desc), p)
  {
    hide Passes, UniqueKeys, CursorPieces, Earlier, Beyond, KeyOrder;
    var cond := CursorPieces(col, desc, after);
    var all := items + [Item(cond, false)];
    var before := KeyOrder(w, desc);
    forall r
      ensures Passes(all, w.truth(r)) <==> Passes(items, w.truth(r)) && p(r)
    {
      CursorEscapesIff(items, cond, w.truth(r));
      NoOrNoEscape(items, w.truth(r));
    }
    OrderFacts(w, desc);
    FilterComparable(w.table, before, Passing(w, items));
    FilterSort(Filter(w.table, Passing(w, items)), before, p);
    FilterTwice(w.table, Passing(w, items), p, Passing(w, all));
  }

  // A cursor that stands at row m of the listing
  ghost predicate StandsAt<R>(w: World<R>, l: seq<R>, after: Value, m: nat) {
    if m == 0 then IsZeroValue(after) else m < |l| && after == w.key(l[m - 1]) && !IsZeroValue(after)
  }

  // The page holds the rows of the listing from row m on, and says whether and where it goes on.
  ghost predicate Shows<R>(page: KeysetPage<R>, w: World<R>, l: seq<R>, limit: nat, m: nat) {
    && page.items == Fetch(l, limit, m)
    && page.hasNext == (m + limit < |l|)
    && page.next == (if page.hasNext then (if m + limit > 0 then w.key(l[m + limit - 1]) else Nil) else Nil)
  }

  lemma PageAt<R(!new)>(
    db: Statement -> seq<R>, w: World<R>, b: Builder, col: string, desc: bool, limit: nat, after: Value, m: nat)
    requires UniqueKeys(w) && CursorMeans(w, col, desc) && Pageable(b) && ValidIdent(col)
    requires Runs(db, w, b, col, desc) && limit > 0
    requires StandsAt(w, Selected(w, ItemsOf(b), desc), after, m)
    ensures var l := Selected(w, ItemsOf(b), desc);
      Shows(CutPage(db(AfterStatement(b, col, after, desc, limit)), limit, w.key), w, l, limit, m)
  {
    hide UniqueKeys, CursorMeans, Sound, MatchedClauses, ValidIdent, Selected, ItemsOf, AfterStatement, Runs, CutPage,
         Shows;
    var l := Selected(w, ItemsOf(b), desc);
    RowsFrom(db, w, b, col, desc, limit, after, m);
    CutShows(w, l, limit, m);
  }

  // The rows that come back for a cursor at row m
  lemma RowsFrom<R(!new)>(
    db: Statement -> seq<R>, w: World<R>, b: Builder, col: string, desc: bool, limit: nat, after: Value, m: nat)
    requires UniqueKeys(w) && CursorMeans(w, col, desc) && Pageable(b) && ValidIdent(col)
    requires Runs(db, w, b, col, desc)
    requires StandsAt(w, Selected(w, ItemsOf(b), desc), after, m)
    ensures var l := Selected(w, ItemsOf(b), desc);
      m <= |l| && db(AfterStatement(b, col, after, desc, limit)) == Take(l[m..], limit + 1)
  {
    hide UniqueKeys, CursorMeans, ValidIdent, Selected, ItemsOf, Sound, AfterStatement, Beyond, CursorPieces, AfterCursor,
         MatchedClauses;
    var l := Selected(w, ItemsOf(b), desc);
    var rq := AfterCursor(b, col, Cursor(after), desc);
    AfterItems(b, col, after, desc);
    assert RunsPage(db, w, b, col, desc, after, limit);
    if m > 0 {
      var p := r => Beyond(w, desc, after, r);
      OneRun(b);
      CursorFilters(w, ItemsOf(b), col, desc, after, p);
      ListingFacts(w, ItemsOf(b), desc);
      BeyondIsRest(w, l, desc, m, p);
    } else {
      assert l[0..] == l;
    }
  }

  lemma CutShows<R>(w: World<R>, l: seq<R>, limit: nat, m: nat)
    requires limit > 0 && m <= |l|
    ensures Shows(CutPage(Take(l[m..], limit + 1), limit, w.key), w, l, limit, m)
  {
    var rows := Take(l[m..], limit + 1);
    assert forall i :: 0 <= i < |rows| ==> rows[i] == l[m + i];
    if m == |l| {
      assert l[m..] == [];
    }
    assert Take(rows, limit) == Take(l[m..], limit);
  }

  lemma OneRun(b: Builder)
    requires Pageable(b)
    ensures forall k :: 1 <= k < |ItemsOf(b)| ==> !ItemsOf(b)[k].or
  {
  }

  // ---------- all pages ----------

  // The k-th page a client gets that starts with a zero cursor and hands back each NextCursor
  ghost function Page<R>(
    db: Statement -> seq<R>, key: R -> Value, b: Builder, col: string, desc: bool, limit: nat, k: nat): KeysetPage<R>
  {
    var after := if k == 0 then Nil else Page(db, key, b, col, desc, limit, k - 1).next;
    CutPage(db(AfterStatement(b, col, after, desc, limit)), limit, key)
  }

  // The rows of the first n pages
  ghost function Collected<R>(
    db: Statement -> seq<R>, key: R -> Value, b: Builder, col: string, desc: bool, limit: nat, n: nat): seq<R>
  {
    if n == 0 then []
    else Collected(db, key, b, col, desc, limit, n - 1) + Page(db, key, b, col, desc, limit, n - 1).items
  }

  // The number of rows before page k
  function First(k: nat, limit: nat): nat { k * limit }

  lemma FirstStep(k: nat, limit: nat)
    ensures First(k, limit) == if k == 0 then 0 else First(k - 1, limit) + limit
  {
    if k > 0 {
      assert (k - 1) * limit + limit == k * limit;
    }
  }

  // Page number p is full, is not the last one, and ends on a key that counts as zero.
  ghost predicate EndsOnZero<R>(w: World<R>, l: seq<R>, limit: nat, p: nat) {
    0 < First(p, limit) < |l| && IsZeroValue(w.key(l[First(p, limit) - 1]))
  }

  lemma PageStep<R>(
    db: Statement -> seq<R>, key: R -> Value, b: Builder, col: string, desc: bool, limit: nat, k: nat, after: Value)
    requires after == if k == 0 then Nil else Page(db, key, b, col, desc, limit, k - 1).next
    ensures Page(db, key, b, col, desc, limit, k) == CutPage(db(AfterStatement(b, col, after, desc, limit)), limit, key)
  {
    hide AfterStatement, CutPage;
  }

  lemma {:induction false} PageFollows<R(!new)>(
    db: Statement -> seq<R>, w: World<R>, b: Builder, col: string, desc: bool, limit: nat, k: nat)
    requires UniqueKeys(w) && CursorMeans(w, col, desc) && Pageable(b) && ValidIdent(col)
    requires Runs(db, w, b, col, desc) && limit > 0
    requires k == 0 || First(k, limit) < |Selected(w, ItemsOf(b), desc)|
    requires forall p: nat :: p <= k ==> !EndsOnZero(w, Selected(w, ItemsOf(b), desc), limit, p)
    ensures var l := Selected(w, ItemsOf(b), desc);
      Shows(Page(db, w.key, b, col, desc, limit, k), w, l, limit, First(k, limit))
  {
    hide UniqueKeys, CursorMeans, Sound, MatchedClauses, ValidIdent, Selected, ItemsOf, Runs, AfterStatement, CutPage,
         IsZeroValue, Page, Shows, EndsOnZero, StandsAt, First;
    var l := Selected(w, ItemsOf(b), desc);
    if k == 0 {
      AtStart(w, l);
      FirstStep(0, limit);
      PageStep(db, w.key, b, col, desc, limit, 0, Nil);
      PageAt(db, w, b, col, desc, limit, Nil, 0);
    } else {
      var m := First(k, limit);
      FirstStep(k, limit);
      PageFollows(db, w, b, col, desc, limit, k - 1);
      var after := Page(db, w.key, b, col, desc, limit, k - 1).next;
      Standing(Page(db, w.key, b, col, desc, limit, k - 1), w, l, limit, k, m);
      PageStep(db, w.key, b, col, desc, limit, k, after);
      PageAt(db, w, b, col, desc, limit, after, m);
    }
  }

  lemma AtStart<R>(w: World<R>, l: seq<R>)
    ensures StandsAt(w, l, Nil, 0)
  {
  }

  lemma Standing<R>(page: KeysetPage<R>, w: World<R>, l: seq<R>, limit: nat, k: nat, m: nat)
    requires m == First(k, limit) && limit <= m && 0 < m < |l| && Shows(page, w, l, limit, m - limit)
    requires !EndsOnZero(w, l, limit, k)
    ensures StandsAt(w, l, page.next, m)
  {
  }

  lemma {:induction false} CollectedPages<R(!new)>(
    db: Statement -> seq<R>, w: World<R>, b: Builder, col: string, desc: bool, limit: nat, n: nat)
    requires UniqueKeys(w) && CursorMeans(w, col, desc) && Pageable(b) && ValidIdent(col)
    requires Runs(db, w, b, col, desc) && limit > 0
    requires n <= 1 || (n - 1) * limit < |Selected(w, ItemsOf(b), desc)|
    requires forall p: nat :: p < n ==> !EndsOnZero(w, Selected(w, ItemsOf(b), desc), limit, p)
    ensures Collected(db, w.key, b, col, desc, limit, n) == Pages(Selected(w, ItemsOf(b), desc), limit, n)
  {
    hide UniqueKeys, CursorMeans, Sound, MatchedClauses, ValidIdent, Selected, ItemsOf, Runs, AfterStatement, CutPage,
         IsZeroValue, EndsOnZero, Page;
    if n > 0 {
      if n > 1 {
        assert (n - 2) * limit + limit == (n - 1) * limit;
      }
      CollectedPages(db, w, b, col, desc, limit, n - 1);
      PageFollows(db, w, b, col, desc, limit, n - 1);
    }
  }

  // How many pages there are: at least one
  function PageCount(rows: nat, limit: nat): (n: nat)
    requires limit > 0
    ensures n >= 1 && (n == 1 || (n - 1) * limit < rows) && n * limit >= rows
  {
    if rows == 0 then 1 else (rows - 1) / limit + 1
  }

  // The client asks until HasNext is false; these are the pages it has then seen.
  ghost predicate EndsAfter<R>(
    db: Statement -> seq<R>, key: R -> Value, b: Builder, col: string, desc: bool, limit: nat, n: nat)
  {
    && n > 0 && !Page(db, key, b, col, desc, limit, n - 1).hasNext
    && forall k: nat :: k < n - 1 ==> Page(db, key, b, col, desc, limit, k).hasNext
  }

  // Keyset completeness, when no page ends on a zero: the client ends, after as many pages as the rows fill,
  // with exactly the listing.
  lemma Completes<R(!new)>(
    db: Statement -> seq<R>, w: World<R>, b: Builder, col: string, desc: bool, limit: nat)
    requires UniqueKeys(w) && CursorMeans(w, col, desc) && Pageable(b) && ValidIdent(col)
    requires Runs(db, w, b, col, desc) && limit > 0
    requires forall p: nat :: !EndsOnZero(w, Selected(w, ItemsOf(b), desc), limit, p)
    ensures var l := Selected(w, ItemsOf(b), desc);
      var n := PageCount(|l|, limit);
      && EndsAfter(db, w.key, b, col, desc, limit, n)
      && Collected(db, w.key, b, col, desc, limit, n) == l
  {
    hide UniqueKeys, CursorMeans, Sound, MatchedClauses, ValidIdent, Selected, ItemsOf, Runs, IsZeroValue, EndsOnZero, Page,
         Collected, PageCount;
    var l := Selected(w, ItemsOf(b), desc);
    var n := PageCount(|l|, limit);
    CollectedPages(db, w, b, col, desc, limit, n);
    PagesPrefix(l, limit, n);
    forall k: nat | k < n
      ensures Page(db, w.key, b, col, desc, limit, k).hasNext <==> k < n - 1
    {
      PageInside(|l|, limit, n, k);
      PageFollows(db, w, b, col, desc, limit, k);
    }
  }

  lemma PageInside(rows: nat, limit: nat, n: nat, k: nat)
    requires limit > 0 && k < n && (n == 1 || (n - 1) * limit < rows) && n * limit >= rows
    ensures k == 0 || k * limit < rows
    ensures k * limit + limit < rows <==> k < n - 1
  {
    if k < n - 1 {
      assert (k + 1) * limit <= (n - 1) * limit;
    }
    assert (k + 1) * limit == k * limit + limit;
    assert k == n - 1 ==> k * limit + limit == n * limit;
  }

  // The first page that ends on a zero
  lemma {:induction false} FirstZero<R>(w: World<R>, l: seq<R>, limit: nat, p: nat) returns (first: nat)
    requires EndsOnZero(w, l, limit, p)
    ensures EndsOnZero(w, l, limit, first) && forall q: nat :: q < first ==> !EndsOnZero(w, l, limit, q)
  {
    hide EndsOnZero;
    if q: nat :| q < p && EndsOnZero(w, l, limit, q) {
      first := FirstZero(w, l, limit, q);
    } else {
      first := p;
    }
  }

  // Counting pages round and round: 0, 1, ..., n - 1, 0, 1, ...
  function Turn(k: nat, n: nat): (t: nat)
    requires n > 0
    ensures t < n && (k < n ==> t == k)
  {
    if k == 0 then 0 else if Turn(k - 1, n) + 1 == n then 0 else Turn(k - 1, n) + 1
  }

  // Where a page ends on a zero key, that cursor means the beginning: the pages repeat.
  lemma {:induction false} Repeats<R(!new)>(
    db: Statement -> seq<R>, w: World<R>, b: Builder, col: string, desc: bool, limit: nat, first: nat, k: nat)
    requires UniqueKeys(w) && CursorMeans(w, col, desc) && Pageable(b) && ValidIdent(col)
    requires Runs(db, w, b, col, desc) && limit > 0
    requires EndsOnZero(w, Selected(w, ItemsOf(b), desc), limit, first)
    requires forall q: nat :: q < first ==> !EndsOnZero(w, Selected(w, ItemsOf(b), desc), limit, q)
    ensures first > 0
    ensures Page(db, w.key, b, col, desc, limit, k) == Page(db, w.key, b, col, desc, limit, Turn(k, first))
    ensures Page(db, w.key, b, col, desc, limit, k).hasNext
  {
    hide UniqueKeys, CursorMeans, Sound, MatchedClauses, ValidIdent, Selected, ItemsOf, Runs, AfterStatement, CutPage,
         Page, Fetch;
    var l := Selected(w, ItemsOf(b), desc);
    var m := Turn(k, first);
    assert m < first && m * limit + limit <= first * limit by { Multiples(m, first, limit); }
    if k < first {
      PageFollows(db, w, b, col, desc, limit, k);
    } else {
      Repeats(db, w, b, col, desc, limit, first, k - 1);
      var j := Turn(k - 1, first);
      assert j < first && j * limit + limit <= first * limit by { Multiples(j, first, limit); }
      PageFollows(db, w, b, col, desc, limit, j);
      var after := Page(db, w.key, b, col, desc, limit, k - 1).next;
      PageFollows(db, w, b, col, desc, limit, m);
      PageStep(db, w.key, b, col, desc, limit, k, after);
      if m == 0 {
        assert j * limit + limit == first * limit by { assert j + 1 == first; }
        PageAt(db, w, b, col, desc, limit, after, 0);
        PageAt(db, w, b, col, desc, limit, Nil, 0);
        PageStep(db, w.key, b, col, desc, limit, 0, Nil);
      } else {
        assert after == Page(db, w.key, b, col, desc, limit, m - 1).next;
        PageStep(db, w.key, b, col, desc, limit, m, after);
      }
    }
  }

  lemma Multiples(m: nat, first: nat, limit: nat)
    requires m < first
    ensures m * limit + limit <= first * limit
  {
    assert (m + 1) * limit <= first * limit;
  }

  // The exact condition: following the cursors ends if and only if no page before the last ends on a key
  // that counts as zero, and when it ends the client has every filtered row once, in key order.
  lemma RunsCompleteIff<R(!new)>(
    db: Statement -> seq<R>, w: World<R>, b: Builder, col: string, desc: bool, limit: nat)
    requires UniqueKeys(w) && CursorMeans(w, col, desc) && Pageable(b) && ValidIdent(col)
    requires Runs(db, w, b, col, desc) && limit > 0
    ensures var l := Selected(w, ItemsOf(b), desc);
      && ((exists n: nat :: EndsAfter(db, w.key, b, col, desc, limit, n)) <==> forall p: nat :: !EndsOnZero(w, l, limit, p))
      && (forall n: nat :: EndsAfter(db, w.key, b, col, desc, limit, n) ==>
            Collected(db, w.key, b, col, desc, limit, n) == l)
      && multiset(l) == multiset(Filter(w.table, Passing(w, ItemsOf(b))))
      && InKeyOrder(w, desc, l)
  {
    hide UniqueKeys, CursorMeans, Sound, MatchedClauses, ValidIdent, Selected, ItemsOf, Runs, EndsOnZero, Page, Collected,
         InKeyOrder, Passing;
    var l := Selected(w, ItemsOf(b), desc);
    ListingFacts(w, ItemsOf(b), desc);
    if p: nat :| EndsOnZero(w, l, limit, p) {
      var first := FirstZero(w, l, limit, p);
      forall k: nat
        ensures Page(db, w.key, b, col, desc, limit, k).hasNext
      {
        Repeats(db, w, b, col, desc, limit, first, k);
      }
    } else {
      Completes(db, w, b, col, desc, limit);
    }
  }

  // ---------- the database ----------

  // The ordering PaginateAfter asks for, read by the grammar: its column and its direction, exactly when the
  // column is one and does not carry a direction word itself.
  lemma CursorOrderIff(col: string, desc: bool)
    requires ValidIdent(col) && Trimmed(col)
    ensures Ordering(CursorOrder(col, desc)) == Some((col, desc)) <==> IsColumn(col)
    ensures IsColumn(col) ==> ValidIdent(CursorOrder(col, desc)) && Trimmed(CursorOrder(col, desc))
  {
    hide IsColumn, ValidIdent, TrimSpace, Ordering, Trimmed;
    TrimSpaceTrims(col);
    var word := if desc then "DESC" else "ASC";
    Upper();
    if IsColumn(col) {
      Reads(col, " ", word);
      assert CursorOrder(col, desc) == col + " " + word by { OrderText(col, desc); }
      OrderingIffValid(CursorOrder(col, desc));
      ColumnChars(col);
      TrimmedEnds(CursorOrder(col, desc));
    } else {
      var c, blanks, given := TermParts(col);
      assert given != "" by { assert c + "" + "" == c; }
      WordChars(given);
      Reads(c, blanks, given + " " + word);
      LongerWord(given);
      OrderText(col, desc);
      assert CursorOrder(col, desc) == c + blanks + (given + " " + word);
      assert |ToUpper(given + " " + word)| == |given| + 1 + |word| > 4;
    }
  }

  lemma Upper()
    ensures ToUpper("DESC") == "DESC" && ToUpper("ASC") == "ASC"
  {
  }

  lemma OrderText(col: string, desc: bool)
    ensures CursorOrder(col, desc) == col + " " + (if desc then "DESC" else "ASC")
  {
    assert " DESC" == " " + "DESC" && " ASC" == " " + "ASC";
  }

  lemma TrimmedEnds(s: string)
    requires s != "" && !IsSpace(s[0]) && !IsSpace(s[|s| - 1])
    ensures Trimmed(s)
  {
  }

  // Keys in their order; NULL is not a key.
  function KeyOf<R>(d: Database.World<R>, col: string): R -> Value { r => d.value(r, col) }

  function KeyLess<R>(d: Database.World<R>): (Value, Value) -> bool {
    (a, b) => a != Nil && b != Nil && d.less(a, b)
  }

  function TruthsOf<R>(d: Database.World<R>): R -> seq<Piece> -> Truth { r => Database.Truths(d, r) }

  // The table with a column of it as the key
  function KeyedBy<R>(d: Database.World<R>, col: string): World<R> {
    World(d.rows, KeyOf(d, col), KeyLess(d), TruthsOf(d))
  }

  lemma CursorReads<R(!new)>(d: Database.World<R>, col: string, desc: bool)
    requires IsColumn(col)
    ensures CursorMeans(KeyedBy(d, col), col, desc)
  {
    hide IsColumn, ReadCondition, Bind, Marks;
    var w, op := KeyedBy(d, col), if desc then "<" else ">";
    forall r, after
      ensures w.truth(r)(CursorPieces(col, desc, after)) == Yes <==> Beyond(w, desc, after, r)
    {
      ColumnIsTerm(col);
      CursorBinds(col, desc, after);
      OpConditionReads(col, op, after);
      assert CursorText(col, desc) == col + " " + op + " ?";
    }
  }

  // A query that PaginateAfter can page through in this database: whole rows of its table, in one AND run
  // without ranking, whose statements reach the server as meant
  ghost predicate Answerable(b: Builder, table: string) {
    && Pageable(b) && Named(b) && FullName(b.schema, b.meta.table) == table && BalancedWhere(b.where)
    && (IsPG(b.driver) ==> Safe(b) && Unquoted(b.where))
  }

  lemma CursorAskable<R(!new)>(d: Database.World<R>, b: Builder, col: string, after: Value, desc: bool)
    requires Answerable(b, d.table) && IsColumn(col)
    ensures Database.Askable(AfterCursor(b, col, Cursor(after), desc), d)
    ensures var rq := AfterCursor(b, col, Cursor(after), desc);
      BoundTerms(rq.orderBy, rq.rankArgs) == [Chars(CursorOrder(col, desc))]
  {
    hide IsColumn, ValidIdent, Bind, Marks, Closed, QuotedMarks, BoundSelect, SelectText, SelectArgs, MatchedClauses,
         PlainNames, Concat, MarksAll, CursorText, CursorOrder, Smooth, Steady, Balanced, QuietNames, Inert, Trimmed;
    var rq := AfterCursor(b, col, Cursor(after), desc);
    ColumnIsTerm(col);
    ColumnTrims(col);
    AfterCursorAlignedIff(b, col, Cursor(after), desc, 1);
    CursorOrderIff(col, desc);
    CursorTerm(col, desc);
    TermSmooth(CursorOrder(col, desc));
    CursorBalanced(b, col, after, desc);
    CursorCounts(col, desc);
    if IsPG(b.driver) {
      CursorSafe(b, col, after, desc);
    }
  }

  lemma CursorTerm(col: string, desc: bool)
    requires ValidIdent(col)
    ensures AllTidy([CursorOrder(col, desc)]) && MarksAll([CursorOrder(col, desc)]) == 0
    ensures BoundTerms([CursorOrder(col, desc)], []) == [Chars(CursorOrder(col, desc))]
  {
    hide ValidIdent, CursorOrder, Bind;
    CursorCounts(col, desc);
    var t := CursorOrder(col, desc);
    OneTerm(t);
    assert t in [t] && Marks(t) == 0;
    UnmarkedBinds(t);
    assert [t][1..] == [];
  }

  lemma CursorBalanced(b: Builder, col: string, after: Value, desc: bool)
    requires IsColumn(col) && BalancedWhere(b.where)
    ensures BalancedWhere(AfterCursor(b, col, Cursor(after), desc).where)
  {
    hide IsColumn, Balanced, Neutral, Plain;
    ColumnIsPlain(col);
    var text := CursorText(col, desc);
    assert Plain(text) by { CursorPlain(col, desc); }
    PlainIsNeutral(text);
    NeutralIsBalanced(text);
    AddingBalanced(b, text, [after], false);
  }

  lemma CursorPlain(col: string, desc: bool)
    requires Plain(col)
    ensures Plain(CursorText(col, desc))
  {
  }

  lemma CursorSafe(b: Builder, col: string, after: Value, desc: bool)
    requires IsColumn(col) && Safe(b) && Unquoted(b.where)
    ensures var rq := AfterCursor(b, col, Cursor(after), desc); Safe(rq) && Unquoted(rq.where)
  {
    hide IsColumn, ValidIdent, Steady, Quiet, QuietNames, QuotedMarks, CursorOrder, Inert, Marks, Closed;
    ColumnIsTerm(col);
    IdentQuiet(col);
    var op := if desc then "<" else ">";
    assert Quiet(op) by { SignsQuiet(); }
    OpSteady(col, op);
    assert CursorText(col, desc) == col + " " + op + " ?";
    CursorCounts(col, desc);
    OrderSteadyOf(col, desc);
    var filtered := if IsZeroValue(after) then b else Adding(b, CursorText(col, desc), [after], false);
    if !IsZeroValue(after) {
      AddingSafe(b, CursorText(col, desc), [after], false);
    }
    OrderingSafe(filtered, CursorOrder(col, desc), b.rankArgs);
  }

  lemma SignsQuiet()
    ensures Quiet("<") && Quiet(">")
  {
  }

  lemma OrderSteadyOf(col: string, desc: bool)
    requires Quiet(col)
    ensures Steady(CursorOrder(col, desc))
  {
    hide Steady;
    assert Quiet(CursorOrder(col, desc));
    QuietSteady(CursorOrder(col, desc));
  }

  // What the term of the ordering says of two rows
  lemma TermMeans<R>(d: Database.World<R>, col: string, desc: bool, x: R, y: R)
    requires IsColumn(col)
    ensures Database.InOrder(d, [Chars(CursorOrder(col, desc))])(x, y)
         == !(if desc then d.less(d.value(x, col), d.value(y, col)) else d.less(d.value(y, col), d.value(x, col)))
  {
    hide IsColumn, ValidIdent, Ordering, CursorOrder, Trimmed;
    ColumnIsTerm(col);
    ColumnTrims(col);
    CursorOrderIff(col, desc);
    var t := CursorOrder(col, desc);
    TextOf(t, []);
    assert Chars(t) + [] == Chars(t) && t + "" == t;
    assert [Chars(t)][1..] == [];
    assert Database.Precedes(d, [Chars(t)], y, x) == Database.TermPrecedes(d, Chars(t), y, x);
  }

  lemma OrdersAlike<R(!new)>(d: Database.World<R>, col: string, desc: bool, rows: seq<R>)
    requires UniqueKeys(KeyedBy(d, col)) && IsColumn(col) && Comparable(rows, KeyOrder(KeyedBy(d, col), desc))
    ensures Alike(rows, Database.InOrder(d, [Chars(CursorOrder(col, desc))]), KeyOrder(KeyedBy(d, col), desc))
  {
    hide IsColumn, CursorOrder;
    var term, key := Database.InOrder(d, [Chars(CursorOrder(col, desc))]), KeyOrder(KeyedBy(d, col), desc);
    forall i, j | 0 <= i < |rows| && 0 <= j < |rows| && i != j
      ensures term(rows[i], rows[j]) == key(rows[i], rows[j])
    {
      TermMeans(d, col, desc, rows[i], rows[j]);
      assert key(rows[i], rows[j]) || key(rows[j], rows[i]);
      KeysDiffer(d, col, desc, rows[i], rows[j]);
    }
  }

  lemma KeysDiffer<R(!new)>(d: Database.World<R>, col: string, desc: bool, x: R, y: R)
    requires UniqueKeys(KeyedBy(d, col))
    requires var key := KeyOrder(KeyedBy(d, col), desc); key(x, y) || key(y, x)
    ensures KeyOrder(KeyedBy(d, col), desc)(x, y)
         == !(if desc then d.less(d.value(x, col), d.value(y, col)) else d.less(d.value(y, col), d.value(x, col)))
  {
    var w, less := KeyedBy(d, col), KeyLess(d);
    var a, b := d.value(x, col), d.value(y, col);
    assert w.key(x) == a && w.key(y) == b;
    assert w.less(a, b) == less(a, b) && w.less(b, a) == less(b, a);
    assert !(w.less(a, b) && w.less(b, a)) by {
      assert w.less(a, b) && w.less(b, a) ==> w.less(a, a);
    }
  }

  // The rows it answers with, before the limit: those that pass, in the order of the key
  lemma SelectedIs<R(!new)>(d: Database.World<R>, b: Builder, col: string, after: Value, desc: bool, limit: Option<Value>)
    requires UniqueKeys(KeyedBy(d, col)) && Answerable(b, d.table) && IsColumn(col)
    ensures var rq := AfterCursor(b, col, Cursor(after), desc);
      && Sound(rq) && Matched(rq)
      && Database.Selected(d, Meant(rq, [], limit, None)) == Selected(KeyedBy(d, col), ItemsOf(rq), desc)
  {
    hide IsColumn, UniqueKeys, Answerable, AfterCursor, KeyedBy, CursorOrder, Items, SomeRun, Sound, MatchedClauses,
         WhereOf, Legible, BoundTerms;
    var rq, w := AfterCursor(b, col, Cursor(after), desc), KeyedBy(d, col);
    CursorAskable(d, b, col, after, desc);
    SoundShape(rq);
    var p, q := Database.Passing(d, WhereOf(rq)), Passing(w, ItemsOf(rq));
    forall r | r in d.rows
      ensures p(r) == q(r)
    {
      Database.PassingIff(d, rq, r);
      TruthsSame(d, col, r);
    }
    FilterSame(d.rows, p, q);
    var before := KeyOrder(w, desc);
    assert w.table == d.rows by { TableSame(d, col); }
    OrderFacts(w, desc);
    FilterComparable(d.rows, before, q);
    OrdersAlike(d, col, desc, Filter(d.rows, q));
    SortSame(Filter(d.rows, q), Database.InOrder(d, [Chars(CursorOrder(col, desc))]), before);
    ListingFacts(w, ItemsOf(rq), desc);
    InKeyOrderDiffer(w, desc, Selected(w, ItemsOf(rq), desc));
    Database.DifferentAreFirst(Selected(w, ItemsOf(rq), desc));
  }

  lemma TruthsSame<R>(d: Database.World<R>, col: string, r: R)
    ensures KeyedBy(d, col).truth(r) == Database.Truths(d, r)
  {
  }

  lemma TableSame<R>(d: Database.World<R>, col: string)
    ensures KeyedBy(d, col).table == d.rows
  {
  }

  lemma InKeyOrderDiffer<R(!new)>(w: World<R>, desc: bool, l: seq<R>)
    requires UniqueKeys(w) && InKeyOrder(w, desc, l)
    ensures forall i, j :: 0 <= i < j < |l| ==> l[i] != l[j]
  {
  }

  // The database that reads its statements runs the pages.
  lemma DatabaseRuns<R(!new)>(db: Statement -> seq<R>, d: Database.World<R>, b: Builder, col: string, desc: bool)
    requires Database.Answers(db, d, b.driver) && Answerable(b, d.table) && IsColumn(col)
    requires UniqueKeys(KeyedBy(d, col))
    ensures Runs(db, KeyedBy(d, col), b, col, desc)
  {
    hide RunsPage, UniqueKeys, Answerable, Database.Answers, KeyedBy, IsColumn;
    forall after: Value, limit: nat
      ensures RunsPage(db, KeyedBy(d, col), b, col, desc, after, limit)
    {
      PageAnswered(db, d, b, col, desc, after, limit);
    }
  }

  // The answer to one page
  lemma PageAnswered<R(!new)>(
    db: Statement -> seq<R>, d: Database.World<R>, b: Builder, col: string, desc: bool, after: Value, limit: nat)
    requires Database.Answers(db, d, b.driver) && Answerable(b, d.table) && IsColumn(col)
    requires UniqueKeys(KeyedBy(d, col))
    ensures RunsPage(db, KeyedBy(d, col), b, col, desc, after, limit)
  {
    hide IsColumn, UniqueKeys, Database.Answers, Database.Askable, Database.Selected, KeyedBy, Items, Sound, MatchedClauses,
         WhereOf, Legible, BoundTerms, SelectText, SelectArgs, Rewritten, Selected, Named, BalancedWhere, Safe;
    var rq := AfterCursor(b, col, Cursor(after), desc);
    CursorAskable(d, b, col, after, desc);
    SelectedIs(d, b, col, after, desc, Positive(limit + 1));
    SoundShape(rq);
    Database.SelectAnswered(db, d, rq, limit + 1);
  }

  // Main result, on a database that knows nothing but the statements it is sent.
  lemma KeysetCompleteIff<R(!new)>(
    db: Statement -> seq<R>, d: Database.World<R>, b: Builder, col: string, desc: bool, limit: nat)
    requires Database.Answers(db, d, b.driver) && Answerable(b, d.table) && IsColumn(col)
    requires UniqueKeys(KeyedBy(d, col)) && limit > 0
    ensures var w := KeyedBy(d, col);
      var l := Selected(w, ItemsOf(b), desc);
      && ((exists n: nat :: EndsAfter(db, w.key, b, col, desc, limit, n)) <==> forall p: nat :: !EndsOnZero(w, l, limit, p))
      && (forall n: nat :: EndsAfter(db, w.key, b, col, desc, limit, n) ==>
            Collected(db, w.key, b, col, desc, limit, n) == l)
      && multiset(l) == multiset(Filter(d.rows, Passing(w, ItemsOf(b))))
      && InKeyOrder(w, desc, l)
  {
    hide IsColumn, ValidIdent, UniqueKeys, Database.Answers, KeyedBy, Sound, MatchedClauses, Selected, ItemsOf, EndsOnZero,
         Collected, InKeyOrder, Passing, Runs, CursorMeans, EndsAfter, Named, BalancedWhere, Safe;
    ColumnIsTerm(col);
    DatabaseRuns(db, d, b, col, desc);
    CursorReads(d, col, desc);
    TableSame(d, col);
    RunsCompleteIff(db, KeyedBy(d, col), b, col, desc, limit);
  }
}
