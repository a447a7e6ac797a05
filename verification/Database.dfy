/** A database over one fixed table, which answers the statements it is sent by reading them: it filters by the
    conditions it reads in SQL's three-valued logic, orders by the terms it reads, drops duplicates for DISTINCT
    and cuts at the limit and offset it reads. Main result: what it answers to a query of the builder. */
module Database {
  import opened GoStrings
  import opened SqlQuotes
  import opened SqlBinding
  import opened QueryBuilder
  import opened QueryObject
  import opened QueryFilter
  import opened QueryLast
  import opened QueryServer
  import opened SqlReader
  import opened QueryReader
  import opened Conditions
  import opened Engine

  // A table and what only the database knows of it: the columns of a row, the order of values, the truth of
  // conditions outside the grammar and of pattern and full-text matches, and relevance.
  datatype World<!R> = World(
    table: string, rows: seq<R>, value: (R, string) -> Value, less: (Value, Value) -> bool,
    other: (R, seq<Piece>) -> Truth, ahead: (seq<Piece>, R, R) -> bool)

  function OfBool(b: bool): Truth { if b then Yes else No }

  // ---------- conditions ----------

  // A comparison with NULL is unknown.
  function Comparison(less: (Value, Value) -> bool, x: Value, op: string, v: Value): Option<Truth> {
    var known := x != Nil && v != Nil;
    if op == "=" then Some(if known then OfBool(x == v) else Unknown)
    else if op == "<>" then Some(if known then OfBool(x != v) else Unknown)
    else if op == "<" then Some(if known then OfBool(less(x, v)) else Unknown)
    else if op == ">" then Some(if known then OfBool(less(v, x)) else Unknown)
    else if op == "<=" then Some(if known then OfBool(less(x, v) || x == v) else Unknown)
    else if op == ">=" then Some(if known then OfBool(less(v, x) || x == v) else Unknown)
    else None
  }

  function Membership(x: Value, values: seq<Value>): Truth {
    if x != Nil && x in values then Yes else if x == Nil || Nil in values then Unknown else No
  }

  function TruthOf<R>(w: World<R>, r: R, p: seq<Piece>): Truth {
    match ReadCondition(p)
    case Some(Compare(col, op, v)) =>
      var c := Comparison(w.less, w.value(r, col), op, v);
      if c.Some? then c.value else w.other(r, p)
    case Some(IsNull(col)) => OfBool(w.value(r, col) == Nil)
    case Some(NotNull(col)) => OfBool(w.value(r, col) != Nil)
    case Some(Among(col, values)) => Membership(w.value(r, col), values)
    case Some(Never) => No
    case _ => w.other(r, p)
  }

  function Truths<R>(w: World<R>, r: R): seq<Piece> -> Truth { p => TruthOf(w, r, p) }

  function Passing<R>(w: World<R>, where: Option<Expr>): R -> bool {
    r => where.None? || Evaluated(where.value, Truths(w, r)) == Yes
  }

  // ---------- ordering ----------

  // The row comes strictly before the other by one term
  function TermPrecedes<R>(w: World<R>, t: seq<Piece>, x: R, y: R): bool {
    var s := Text(t);
    if |s| == |t| && Ordering(s).Some? then
      var (col, desc) := Ordering(s).value;
      if desc then w.less(w.value(y, col), w.value(x, col)) else w.less(w.value(x, col), w.value(y, col))
    else w.ahead(t, x, y)
  }

  // By the first term that tells them apart
  function Precedes<R>(w: World<R>, terms: seq<seq<Piece>>, x: R, y: R): bool {
    terms != []
    && (TermPrecedes(w, terms[0], x, y) || (!TermPrecedes(w, terms[0], y, x) && Precedes(w, terms[1..], x, y)))
  }

  // Rows that no term tells apart stay in the order of the table.
  function InOrder<R>(w: World<R>, terms: seq<seq<Piece>>): (R, R) -> bool { (x, y) => !Precedes(w, terms, y, x) }

  // ---------- the answer ----------

  // DISTINCT
  ghost function FirstOnes<R>(rows: seq<R>): seq<R> {
    if rows == [] then []
    else
      var n := |rows| - 1;
      FirstOnes(rows[..n]) + (if rows[n] in rows[..n] then [] else [rows[n]])
  }

  function Bound(v: Option<Value>, none: nat): nat {
    if v.Some? && v.value.IntValue? then (if v.value.n < 0 then 0 else v.value.n) else none
  }

  ghost function Selected<R>(w: World<R>, s: Selection): seq<R> {
    var sorted := SortBy(Filter(w.rows, Passing(w, s.where)), InOrder(w, s.order));
    if s.distinct then FirstOnes(sorted) else sorted
  }

  ghost function Answer<R>(w: World<R>, s: Selection): seq<R> {
    Fetch(Selected(w, s), Bound(s.limit, |Selected(w, s)|), Bound(s.offset, 0))
  }

  // What a statement with its arguments says to the server
  function Understood(driver: string, sql: string, args: seq<Value>): Option<Selection> {
    if IsPG(driver) then ReadSelect(ServerBind(sql, args))
    else if Marks(sql) == |args| then ReadSelect(Bind(sql, args))
    else None
  }

  // A selection from the table alone
  predicate FromTable<R>(w: World<R>, s: Selection) { s.table == w.table && s.joins == [] }

  // The database answers the SELECTs of whole rows and the counts of its table.
  ghost predicate Answers<R(!new)>(db: Statement -> seq<R>, w: World<R>, driver: string) {
    forall sql, args ::
      var s := Understood(driver, sql, args);
      s.Some? && FromTable(w, s.value) && s.value.items == [Everything] ==> db(Statement(sql, args)) == Answer(w, s.value)
  }

  ghost predicate Counts<R(!new)>(count: Statement -> int, w: World<R>, driver: string) {
    forall sql, args ::
      var s := Understood(driver, sql, args);
      s.Some? && FromTable(w, s.value) && s.value.items == [RowCount]
      ==> count(Statement(sql, args)) == |Filter(w.rows, Passing(w, s.value.where))|
  }

  // ---------- what it answers to the builder ----------

  // A query for whole rows of the table, whose statements reach the server as meant
  ghost predicate Askable<R>(b: Builder, w: World<R>) {
    && Sound(b) && Matched(b) && Legible(b, []) && FullName(b.schema, b.meta.table) == w.table && b.cols == [] && b.joins == []
    && (IsPG(b.driver) ==> Safe(b) && Unquoted(b.where))
  }

  lemma Reaches(b: Builder, text: string, args: seq<Value>)
    requires Ready(b, text, args) && (IsPG(b.driver) ==> Unquoted(b.where))
    ensures Marks(text) == |args|
    ensures Understood(b.driver, Rewritten(b.driver, text), args) == ReadSelect(Bind(text, args))
  {
    hide Bind, Marks, QuotedMarks, ServerSafe, ServerBind, ReadSelect, QuotedWhere;
    QuotedWhereIff(b.where);
    AlignedIff(b.driver, text, args);
  }

  // Main result: a SELECT gets the rows of the table that its conditions let through, in its order, cut at its
  // limit and offset.
  lemma SelectAnswered<R(!new)>(db: Statement -> seq<R>, w: World<R>, b: Builder, limit: int)
    requires Answers(db, w, b.driver) && Askable(b, w)
    ensures db(Statement(Rewritten(b.driver, SelectText(b, limit)), SelectArgs(b, limit)))
         == Answer(w, Meant(b, [], Positive(limit), Positive(b.offset)))
  {
    hide Sound, Matched, Legible, Safe, SelectText, SelectArgs, Bind, Marks, ReadSelect, Understood, Answer, ServerSafe,
         QuotedWhere, QuotedMarks, ClosedWhere, WhereOf;
    AskableReady(b, w, limit, 0, 0);
    Reaches(b, SelectText(b, limit), SelectArgs(b, limit));
    SelectReads(b, [], limit);
  }

  lemma AskableReady<R>(b: Builder, w: World<R>, limit: int, pageSize: int, offset: int)
    requires Askable(b, w)
    ensures Ready(b, SelectText(b, limit), SelectArgs(b, limit)) && Ready(b, PageText(b), PageArgs(b, pageSize, offset))
    ensures Ready(b, CountText(b), b.args)
  {
    hide Sound, MatchedClauses, Legible, Safe, Ready, SelectText, SelectArgs, PageText, PageArgs, CountText, ClosedWhere;
    MatchedIsClosed(b);
    StatementsReady(b, limit, pageSize, offset, [], []);
  }

  lemma PageAnswered<R(!new)>(db: Statement -> seq<R>, w: World<R>, b: Builder, pageSize: int, offset: int)
    requires Answers(db, w, b.driver) && Askable(b, w)
    ensures db(Statement(Rewritten(b.driver, PageText(b)), PageArgs(b, pageSize, offset)))
         == Answer(w, Meant(b, [], Some(IntValue(pageSize)), Some(IntValue(offset))))
  {
    hide Sound, Matched, Legible, Safe, PageText, PageArgs, Bind, Marks, ReadSelect, Understood, Answer, ServerSafe,
         QuotedWhere, QuotedMarks, ClosedWhere, WhereOf;
    AskableReady(b, w, 0, pageSize, offset);
    Reaches(b, PageText(b), PageArgs(b, pageSize, offset));
    PageReads(b, [], pageSize, offset);
  }

  lemma CountAnswered<R(!new)>(count: Statement -> int, w: World<R>, b: Builder)
    requires Counts(count, w, b.driver) && Askable(b, w)
    ensures count(Statement(Rewritten(b.driver, CountText(b)), b.args)) == |Filter(w.rows, Passing(w, WhereOf(b)))|
  {
    hide Sound, Safe, CountText, Bind, Marks, ReadSelect, Understood, ServerSafe, QuotedWhere, QuotedMarks, ClosedWhere,
         WhereOf, Named, BalancedWhere, MatchedClauses;
    AskableReady(b, w, 0, 0, 0);
    Reaches(b, CountText(b), b.args);
    CountsRead(b, []);
  }

  lemma {:induction false} DifferentAreFirst<R>(rows: seq<R>)
    requires forall i, j :: 0 <= i < j < |rows| ==> rows[i] != rows[j]
    ensures FirstOnes(rows) == rows
  {
    if rows != [] {
      var n := |rows| - 1;
      DifferentAreFirst(rows[..n]);
      assert rows == rows[..n] + [rows[n]];
    }
  }

  lemma {:induction false} FirstOnesFewer<R>(rows: seq<R>)
    ensures |FirstOnes(rows)| <= |rows|
  {
    if rows != [] {
      FirstOnesFewer(rows[..|rows| - 1]);
    }
  }

  // The conditions of a query let a row through if and only if all of one maximal AND run do.
  lemma PassingIff<R>(w: World<R>, b: Builder, r: R)
    requires |b.where| == |b.given| && Matched(b)
    ensures |Items(b.where, b.given)| == |b.where|
    ensures Passing(w, WhereOf(b))(r) <==> b.where == [] || SomeRun(Items(b.where, b.given), Truths(w, r), Yes)
  {
    hide Tree, SomeRun, Evaluated, Bind, Marks, Closed, Items;
    ItemsLength(b.where, b.given);
    if b.where != [] {
      TreeEvaluated(Items(b.where, b.given), Truths(w, r), Yes);
    }
  }
}
