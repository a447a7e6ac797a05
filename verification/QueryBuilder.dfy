/** The fluent query builder: calls collect conditions, arguments, ORDER BY terms and rank arguments, and
    the builder prints one SQL text and one argument list. Main result: for every chain of calls, binding
    the printed text to the printed arguments gives each condition the arguments it was given with. */
module QueryBuilder {
  import opened GoStrings
  import opened SqlQuotes
  import opened SqlBinding
  import opened Identifiers

  datatype Column = Column(name: string, fts: bool, autoNow: bool)

  datatype Meta = Meta(table: string, pk: Option<string>, fields: seq<Column>)

  datatype Clause = Clause(cond: string, or: bool)

  datatype Error = InvalidIdentifier | InvalidJoin | TooManyValues | NotSearchable | UnsupportedDriver

  // `given` holds, clause by clause, the arguments of the call that added it.
  datatype Builder = Builder(
    driver: string, schema: string, meta: Meta, cols: seq<string>, joins: seq<string>,
    where: seq<Clause>, args: seq<Value>, orderBy: seq<string>, rankArgs: seq<Value>,
    distinct: bool, limit: int, offset: int, err: Option<Error>, given: seq<seq<Value>>)

  datatype Call =
    | Select(cols: seq<string>)
    | Distinct
    | JoinOn(kind: string, table: string, on: string)
    | Where(cond: string, args: seq<Value>, or: bool)
    | WhereOp(col: string, op: string, val: Value, or: bool)
    | WhereNull(col: string, test: string)
    | WhereIn(col: string, vals: seq<Value>)
    | Search(col: string, term: string)
    | OrderBy(cols: seq<string>)
    | Limit(n: int)
    | Offset(n: int)

  const MaxWhereIn := 5000

  // ---------- what each call does ----------

  function Failing(b: Builder, e: Error): Builder { b.(err := Some(e)) }

  function Adding(b: Builder, cond: string, args: seq<Value>, or: bool): Builder {
    b.(where := b.where + [Clause(cond, or)], args := b.args + args, given := b.given + [args])
  }

  predicate AllValid(cols: seq<string>) { forall c :: c in cols ==> ValidIdent(c) }

  // The elements of a slice; the bytes of a byte slice
  function Elements(v: Value): Option<seq<Value>> {
    match v
    case SliceValue(items) => Some(items)
    case BytesValue(bytes) => Some(seq(|bytes|, i requires 0 <= i < |bytes| => SizedInt(8, false, bytes[i])))
    case _ => None
  }

  // The slice form of WhereIn: one value, itself a slice
  function Expanded(vals: seq<Value>): seq<Value> {
    if |vals| == 1 && Elements(vals[0]).Some? then Elements(vals[0]).value else vals
  }

  // "?, ?, ..."
  function Placeholders(n: nat): string {
    if n == 0 then "" else if n == 1 then "?" else Placeholders(n - 1) + ", " + "?"
  }

  function InCondition(col: string, n: nat): string { col + " IN (" + Placeholders(n) + ")" }

  function Joining(b: Builder, kind: string, table: string, on: string): Builder {
    if !ValidIdent(table) then Failing(b, InvalidIdentifier)
    else if !ValidJoinOn(on) then Failing(b, InvalidJoin)
    else b.(joins := b.joins + [kind + " JOIN " + table + " ON " + on])
  }

  // The field of a column: the last one declared with that name
  function FieldOf(fields: seq<Column>, col: string): Option<Column> {
    if fields == [] then None
    else if fields[|fields| - 1].name == col then Some(fields[|fields| - 1])
    else FieldOf(fields[..|fields| - 1], col)
  }

  // The text search configuration, quoted
  function Language(): string { "'" + "portuguese" + "'" }

  function SearchVector(col: string): string { "to_tsvector(" + Language() + ", " + col + ")" }

  function SearchCondition(col: string): string {
    SearchVector(col) + " @@ plainto_tsquery(" + Language() + ", " + "?" + ")"
  }

  function SearchRank(col: string): string {
    "ts_rank(" + SearchVector(col) + ", plainto_tsquery(" + Language() + ", " + "?" + ")) DESC"
  }

  function SearchMatch(col: string): string { MatchHead(col) + "?" + MatchTail() }

  function MatchHead(col: string): string { "MATCH" + ("(" + col + ")") + " AGAINST" + "(" }

  function MatchTail(): string { " IN NATURAL LANGUAGE MODE" + ")" }

  function SearchShadow(meta: Meta, col: string): string { meta.table + "_" + col + "_fts" }

  function Searching(b: Builder, col: string, term: string): Builder {
    var arg := TextValue(term);
    if IsPG(b.driver) then
      Adding(b, SearchCondition(col), [arg], false).(orderBy := [SearchRank(col)], rankArgs := [arg])
    else if b.driver == "mysql" then
      Adding(b, SearchMatch(col), [arg], false).(orderBy := [SearchMatch(col) + " DESC"], rankArgs := [arg])
    else if b.driver == "sqlite" || b.driver == "sqlite3" then
      var shadow := SearchShadow(b.meta, col);
      var pk := if b.meta.pk.Some? then b.meta.pk.value else "id";
      var joined := Joining(b, "INNER", shadow, shadow + ".rowid = " + b.meta.table + "." + pk);
      if joined.err.Some? then joined
      else Adding(joined, shadow + " MATCH ?", [arg], false).(orderBy := [shadow + ".rank"])
    else Failing(b, UnsupportedDriver)
  }

  function Apply(b: Builder, c: Call): Builder {
    match c
    case Select(cols) => if AllValid(cols) then b.(cols := cols) else Failing(b, InvalidIdentifier)
    case Distinct => b.(distinct := true)
    case JoinOn(kind, table, on) => Joining(b, kind, table, on)
    case Where(cond, args, or) => Adding(b, cond, args, or)
    case WhereOp(col, op, val, or) =>
      if ValidIdent(col) then Adding(b, col + " " + op + " ?", [val], or) else Failing(b, InvalidIdentifier)
    case WhereNull(col, test) =>
      if ValidIdent(col) then Adding(b, col + " " + test, [], false) else Failing(b, InvalidIdentifier)
    case WhereIn(col, vals) =>
      var items := Expanded(vals);
      if !ValidIdent(col) then Failing(b, InvalidIdentifier)
      else if items == [] then Adding(b, "1 = 0", [], false)
      else if |items| > MaxWhereIn then Failing(b, TooManyValues)
      else Adding(b, InCondition(col, |items|), items, false)
    case Search(col, term) =>
      if !ValidIdent(col) then Failing(b, InvalidIdentifier)
      else if FieldOf(b.meta.fields, col).None? || !FieldOf(b.meta.fields, col).value.fts then Failing(b, NotSearchable)
      else Searching(b, col, term)
    case OrderBy(cols) => if AllValid(cols) then b.(orderBy := b.orderBy + cols) else Failing(b, InvalidIdentifier)
    case Limit(n) => b.(limit := n)
    case Offset(n) => b.(offset := n)
  }

  function ApplyAll(b: Builder, calls: seq<Call>): Builder
    decreases |calls|
  {
    if calls == [] then b else ApplyAll(Apply(b, calls[0]), calls[1..])
  }

  // ---------- what is printed ----------

  function Connective(or: bool): string { if or then " OR " else " AND " }

  function ClausesText(where: seq<Clause>): string {
    if where == [] then ""
    else
      var last := where[|where| - 1];
      ClausesText(where[..|where| - 1]) + (if |where| > 1 then Connective(last.or) else "") + ("(" + last.cond + ")")
  }

  function WhereText(where: seq<Clause>): string {
    if where == [] then "" else " WHERE " + ClausesText(where)
  }

  function QualifiedTable(b: Builder): string {
    if b.schema != "" then b.schema + "." + b.meta.table else b.meta.table
  }

  function JoinsText(joins: seq<string>): string {
    if joins == [] then "" else JoinsText(joins[..|joins| - 1]) + (" " + joins[|joins| - 1])
  }

  function FromText(b: Builder): string { " FROM " + QualifiedTable(b) + JoinsText(b.joins) }

  function ColumnsText(b: Builder): string {
    if b.cols != [] then Join(b.cols, ", ") else if b.joins != [] then b.meta.table + ".*" else "*"
  }

  function HeadText(b: Builder): string {
    "SELECT " + (if b.distinct then "DISTINCT " else "") + ColumnsText(b) + FromText(b)
  }

  function OrderText(orderBy: seq<string>): string {
    if orderBy == [] then "" else " ORDER BY " + Join(orderBy, ", ")
  }

  function LimitText(limit: int): string { if limit > 0 then " LIMIT ?" else "" }

  function OffsetText(offset: int): string { if offset > 0 then " OFFSET ?" else "" }

  function IntArgs(n: int): seq<Value> { if n > 0 then [IntValue(n)] else [] }

  // buildSelect, before its placeholders are rewritten
  function SelectText(b: Builder, limit: int): string {
    HeadText(b) + WhereText(b.where) + OrderText(b.orderBy) + LimitText(limit) + OffsetText(b.offset)
  }

  function SelectArgs(b: Builder, limit: int): seq<Value> {
    b.args + b.rankArgs + IntArgs(limit) + IntArgs(b.offset)
  }

  // buildSelectPage: LIMIT and OFFSET always printed
  function PageText(b: Builder): string {
    HeadText(b) + WhereText(b.where) + OrderText(b.orderBy) + " LIMIT ? OFFSET ?"
  }

  function PageArgs(b: Builder, pageSize: int, offset: int): seq<Value> {
    b.args + b.rankArgs + [IntValue(pageSize), IntValue(offset)]
  }

  function CountText(b: Builder): string { "SELECT COUNT(*)" + FromText(b) + WhereText(b.where) }

  function ExistsText(b: Builder): string { "SELECT 1" + FromText(b) + WhereText(b.where) + " LIMIT 1" }

  function DeleteText(b: Builder): string { "DELETE FROM " + QualifiedTable(b) + WhereText(b.where) }

  // ---------- the meaning ----------

  // Each condition in its parentheses, with its own arguments in place
  function BoundClauses(where: seq<Clause>, given: seq<seq<Value>>): seq<Piece>
    requires |where| == |given| && MatchedClauses(where, given)
  {
    if where == [] then []
    else
      var n := |where| - 1;
      MatchedInit(where, given);
      BoundClauses(where[..n], given[..n]) + (if n > 0 then Chars(Connective(where[n].or)) else [])
      + (Chars("(") + Bind(where[n].cond, given[n]) + Chars(")"))
  }

  function BoundWhere(where: seq<Clause>, given: seq<seq<Value>>): seq<Piece>
    requires |where| == |given| && MatchedClauses(where, given)
  {
    if where == [] then [] else Chars(" WHERE ") + BoundClauses(where, given)
  }

  function BoundOrder(orderBy: seq<string>, rankArgs: seq<Value>): seq<Piece>
    requires AllTidy(orderBy) && MarksAll(orderBy) == |rankArgs|
  {
    if orderBy == [] then []
    else
      MarksJoin(orderBy, ", ");
      Chars(" ORDER BY ") + Bind(Join(orderBy, ", "), rankArgs)
  }

  function BoundInt(text: string, n: int): seq<Piece> { if n > 0 then Chars(text) + [Arg(IntValue(n))] else [] }

  function BoundSelect(b: Builder, limit: int): seq<Piece>
    requires Sound(b) && Matched(b)
  {
    Chars(HeadText(b)) + BoundWhere(b.where, b.given) + BoundOrder(b.orderBy, b.rankArgs)
    + BoundInt(" LIMIT ", limit) + BoundInt(" OFFSET ", b.offset)
  }

  // ---------- the invariant ----------

  function Concat(parts: seq<seq<Value>>): seq<Value> {
    if parts == [] then [] else Concat(parts[..|parts| - 1]) + parts[|parts| - 1]
  }

  function MarksAll(parts: seq<string>): nat {
    if parts == [] then 0 else MarksAll(parts[..|parts| - 1]) + Marks(parts[|parts| - 1])
  }

  ghost predicate AllTidy(parts: seq<string>) { forall p :: p in parts ==> Tidy(p) }

  ghost predicate AllInert(parts: seq<string>) { forall p :: p in parts ==> Inert(p) }

  // The names that come from the model and the connection carry neither placeholders nor quotes.
  ghost predicate PlainNames(b: Builder) {
    && Inert(b.schema) && Inert(b.meta.table) && AllInert(b.cols) && AllInert(b.joins)
    && (b.meta.pk.Some? ==> Inert(b.meta.pk.value))
    && forall f :: f in b.meta.fields ==> Inert(f.name)
  }

  ghost predicate Sound(b: Builder) {
    && |b.given| == |b.where| && b.args == Concat(b.given)
    && PlainNames(b)
    && AllTidy(b.orderBy) && MarksAll(b.orderBy) == |b.rankArgs|
    && (b.rankArgs != [] ==> IsPG(b.driver) || b.driver == "mysql")
  }

  ghost predicate MatchedClauses(where: seq<Clause>, given: seq<seq<Value>>)
    requires |where| == |given|
  {
    forall i :: 0 <= i < |where| ==> Closed(where[i].cond) && Marks(where[i].cond) == |given[i]|
  }

  ghost predicate Matched(b: Builder)
    requires |b.given| == |b.where|
  {
    MatchedClauses(b.where, b.given)
  }

  lemma MatchedInit(where: seq<Clause>, given: seq<seq<Value>>)
    requires |where| == |given| && where != [] && MatchedClauses(where, given)
    ensures MatchedClauses(where[..|where| - 1], given[..|where| - 1])
  {
    var n := |where| - 1;
    forall i | 0 <= i < n
      ensures Closed(where[..n][i].cond) && Marks(where[..n][i].cond) == |given[..n][i]|
    {
      assert where[..n][i] == where[i] && given[..n][i] == given[i];
    }
  }

  lemma {:induction false} MarksJoinCons(parts: seq<string>, sep: string)
    requires Inert(sep) && parts != [] && AllTidy(parts)
    ensures Marks(Join(parts, sep)) == Marks(parts[0]) + Marks(Join(parts[1..], sep))
    ensures Tidy(Join(parts[1..], sep)) ==> Tidy(Join(parts, sep))
  {
    hide Marks, Closed, QuotedMarks, Inert;
    assert Tidy(parts[0]);
    if |parts| > 1 {
      InertIsClosed(sep);
      ClosedConcat(parts[0], sep);
      ClosedConcat(parts[0] + sep, Join(parts[1..], sep));
    } else {
      assert parts[1..] == [];
      EmptyCounts();
    }
  }

  lemma EmptyCounts()
    ensures Marks("") == 0 && Tidy("")
  {
  }

  lemma {:induction false} MarksAllCons(parts: seq<string>)
    requires parts != []
    ensures MarksAll(parts) == Marks(parts[0]) + MarksAll(parts[1..])
  {
    hide Marks;
    if |parts| == 1 {
      assert parts[..0] == [] && parts[1..] == [];
    } else {
      var init := parts[..|parts| - 1];
      MarksAllCons(init);
      assert init[1..] == parts[1..][..|parts| - 2];
    }
  }

  lemma {:induction false} MarksJoin(parts: seq<string>, sep: string)
    requires Inert(sep) && AllTidy(parts)
    ensures Marks(Join(parts, sep)) == MarksAll(parts) && Tidy(Join(parts, sep))
  {
    hide Marks, Tidy, Inert;
    if parts == [] {
      EmptyCounts();
    } else {
      MarksJoin(parts[1..], sep);
      MarksJoinCons(parts, sep);
      MarksAllCons(parts);
    }
  }

  lemma {:induction false} MarksAllConcat(a: seq<string>, b: seq<string>)
    ensures MarksAll(a + b) == MarksAll(a) + MarksAll(b)
  {
    hide Marks;
    if b == [] {
      assert a + b == a;
    } else {
      assert (a + b)[..|a + b| - 1] == a + b[..|b| - 1];
      MarksAllConcat(a, b[..|b| - 1]);
    }
  }

  lemma {:induction false} InertAll(parts: seq<string>)
    requires AllInert(parts)
    ensures MarksAll(parts) == 0 && AllTidy(parts)
  {
    hide Marks, Tidy, Inert;
    if parts != [] {
      var n := |parts| - 1;
      InertAll(parts[..n]);
      assert Inert(parts[n]);
      InertIsClosed(parts[n]);
      assert parts == parts[..n] + [parts[n]];
    }
  }

  lemma {:induction false} JoinInert(parts: seq<string>, sep: string)
    requires AllInert(parts) && Inert(sep)
    ensures Inert(Join(parts, sep))
  {
    if |parts| > 1 {
      JoinInert(parts[1..], sep);
      assert Inert(parts[0]);
    }
  }

  // ---------- every call keeps the invariant ----------

  // A call whose condition closes its quotes and carries as many placeholders as arguments; only the raw forms
  // can fail this.
  predicate CallMatched(c: Call) {
    c.Where? ==> Closed(c.cond) && Marks(c.cond) == |c.args|
  }

  // The operators and tests of the typed methods
  ghost predicate CallTyped(c: Call) {
    && (c.WhereOp? ==> Inert(c.op))
    && (c.WhereNull? ==> Inert(c.test))
    && (c.JoinOn? ==> Inert(c.kind))
  }

  lemma AddingSound(b: Builder, cond: string, args: seq<Value>, or: bool)
    requires Sound(b)
    ensures Sound(Adding(b, cond, args, or))
    ensures Matched(Adding(b, cond, args, or)) <==> Matched(b) && Closed(cond) && Marks(cond) == |args|
  {
    hide Marks, Closed;
    var b' := Adding(b, cond, args, or);
    assert b'.given[..|b.given|] == b.given;
    var n := |b.where|;
    assert b'.where[n].cond == cond && b'.given[n] == args;
    assert forall i :: 0 <= i < n ==> b'.where[i] == b.where[i] && b'.given[i] == b.given[i];
  }

  lemma {:induction false} MarksCount(n: nat)
    ensures Tidy(Placeholders(n)) && Marks(Placeholders(n)) == n
  {
    hide Marks, Closed, QuotedMarks;
    OneMarkCounts();
    if n == 0 {
      EmptyCounts();
    } else if n > 1 {
      MarksCount(n - 1);
      assert Inert(", ");
      InertIsClosed(", ");
      ClosedConcat(Placeholders(n - 1), ", ");
      ClosedConcat(Placeholders(n - 1) + ", ", "?");
    }
  }

  lemma InConditionCount(col: string, n: nat)
    requires Inert(col)
    ensures Tidy(InCondition(col, n)) && Marks(InCondition(col, n)) == n
  {
    hide Marks, Closed, QuotedMarks, Inert, Placeholders;
    MarksCount(n);
    var head := col + " IN (";
    assert Inert(head) && Inert(")") by { InWords(col); }
    InertIsClosed(head);
    InertIsClosed(")");
    ClosedConcat(head, Placeholders(n));
    ClosedConcat(head + Placeholders(n), ")");
  }

  lemma InWords(col: string)
    requires Inert(col)
    ensures Inert(col + " IN (") && Inert(")")
  {
  }

  lemma OpConditionCount(col: string, op: string)
    requires Inert(col) && Inert(op)
    ensures var cond := col + " " + op + " ?"; Tidy(cond) && Marks(cond) == 1
    ensures var cond := col + " " + op; Tidy(cond) && Marks(cond) == 0
  {
    hide Marks, Closed, QuotedMarks;
    InertIsClosed(col + " " + op);
    OneMark(col + " " + op + " ", "");
    assert col + " " + op + " ?" == col + " " + op + " " + "?" + "";
  }

  // A placeholder between texts without one
  lemma OneMark(before: string, after: string)
    requires (Tidy(before) && Marks(before) == 0) || Inert(before)
    requires Inert(after)
    ensures var s := before + "?" + after; Tidy(s) && Marks(s) == 1
  {
    hide Marks, Closed, QuotedMarks, Inert;
    if Inert(before) {
      InertIsClosed(before);
    }
    OneMarkCounts();
    InertIsClosed(after);
    ClosedConcat(before, "?");
    ClosedConcat(before + "?", after);
  }

  lemma JoiningSound(b: Builder, kind: string, table: string, on: string)
    requires Sound(b) && Inert(kind)
    ensures Sound(Joining(b, kind, table, on)) && Joining(b, kind, table, on).where == b.where
    ensures Joining(b, kind, table, on).given == b.given
  {
    hide Marks, MarksAll, Closed, ValidIdent, ValidJoinOn;
    if ValidIdent(table) && ValidJoinOn(on) {
      ValidIdentClean(table);
      CleanIsInert(table);
      ValidJoinOnClean(on);
      CleanIsInert(on);
      assert Inert(kind + " JOIN " + table + " ON " + on);
    }
  }

  lemma CleanIsInert(s: string)
    requires Clean(s)
    ensures Inert(s)
  {
    assert Foreign('?') && Foreign('\'') && Foreign('"') && Foreign('`');
  }

  // The quoted configuration between texts without placeholder
  lemma AroundLanguage(before: string, after: string)
    requires (Tidy(before) && Marks(before) == 0) || Inert(before)
    requires Inert(after)
    ensures var s := before + Language() + after; Tidy(s) && Marks(s) == 0
  {
    hide Marks, Closed, QuotedMarks, Inert;
    if Inert(before) {
      InertIsClosed(before);
    }
    LanguageQuoted();
    InertIsClosed(after);
    ClosedConcat(before, Language());
    ClosedConcat(before + Language(), after);
  }

  lemma LanguageQuoted()
    ensures Tidy(Language()) && Marks(Language()) == 0
  {
    hide Marks, Closed, QuotedMarks;
    CountZero("portuguese", '?');
    QuotedWord("portuguese");
  }

  lemma SearchWords(col: string)
    requires Inert(col)
    ensures Inert("to_tsvector(") && Inert(", " + col + ")") && Inert(", ") && Inert(")") && Inert("ts_rank(")
    ensures Inert(" @@ plainto_tsquery(") && Inert(", plainto_tsquery(") && Inert(")) DESC")
  {
  }

  lemma VectorQuoted(col: string)
    requires Inert(col)
    ensures Tidy(SearchVector(col)) && Marks(SearchVector(col)) == 0
  {
    hide Marks, Closed, QuotedMarks, Inert, Language;
    SearchWords(col);
    AroundLanguage("to_tsvector(", ", " + col + ")");
    assert SearchVector(col) == "to_tsvector(" + Language() + (", " + col + ")");
  }

  lemma SearchTextsPG(col: string)
    requires Inert(col)
    ensures Tidy(SearchCondition(col)) && Marks(SearchCondition(col)) == 1
    ensures Tidy(SearchRank(col)) && Marks(SearchRank(col)) == 1
  {
    hide Marks, Closed, QuotedMarks, Inert, Language, SearchVector;
    SearchWords(col);
    VectorQuoted(col);
    var vec := SearchVector(col);
    QuotedThen(vec, " @@ plainto_tsquery(");
    AroundLanguage(vec + " @@ plainto_tsquery(", ", ");
    OneMark(vec + " @@ plainto_tsquery(" + Language() + ", ", ")");
    InertIsClosed("ts_rank(");
    ClosedConcat("ts_rank(", vec);
    QuotedThen("ts_rank(" + vec, ", plainto_tsquery(");
    AroundLanguage("ts_rank(" + vec + ", plainto_tsquery(", ", ");
    OneMark("ts_rank(" + vec + ", plainto_tsquery(" + Language() + ", ", ")) DESC");
  }

  lemma QuotedThen(before: string, after: string)
    requires Tidy(before) && Marks(before) == 0 && Inert(after)
    ensures var s := before + after; Tidy(s) && Marks(s) == 0
  {
    hide Marks, Closed, QuotedMarks, Inert;
    InertIsClosed(after);
    ClosedConcat(before, after);
  }

  lemma SearchTextsMysql(col: string)
    requires Inert(col)
    ensures Tidy(SearchMatch(col)) && Marks(SearchMatch(col)) == 1
    ensures var rank := SearchMatch(col) + " DESC"; Tidy(rank) && Marks(rank) == 1
  {
    hide Marks, Closed, QuotedMarks, Inert, MatchHead, MatchTail;
    MatchPlain(col);
    var head, tail := MatchHead(col), MatchTail();
    OneMark(head, tail);
    OneMark(head, tail + " DESC");
    assert SearchMatch(col) + " DESC" == head + "?" + (tail + " DESC");
  }

  lemma MatchPlain(col: string)
    requires Inert(col)
    ensures Inert(MatchHead(col)) && Inert(MatchTail()) && Inert(MatchTail() + " DESC")
    ensures MatchTail() != "" && MatchTail()[0] == ' '
    ensures '$' !in col ==> '$' !in MatchHead(col) && '$' !in MatchTail()
  {
  }

  lemma SearchTextsSqlite(meta: Meta, col: string)
    requires Inert(col) && Inert(meta.table)
    ensures var cond := SearchShadow(meta, col) + " MATCH ?"; Tidy(cond) && Marks(cond) == 1
    ensures Inert(SearchShadow(meta, col) + ".rank")
  {
    hide Marks, Closed, QuotedMarks, SearchShadow;
    var shadow := SearchShadow(meta, col);
    assert Inert(shadow) by { ShadowPlain(meta, col); }
    OneMark(shadow + " MATCH ", "");
    assert shadow + " MATCH ?" == shadow + " MATCH " + "?" + "";
  }

  lemma ShadowPlain(meta: Meta, col: string)
    requires Inert(col) && Inert(meta.table)
    ensures Inert(SearchShadow(meta, col))
  {
  }

  lemma OneTerm(s: string)
    requires Tidy(s)
    ensures MarksAll([s]) == Marks(s) && AllTidy([s])
  {
    hide Marks, Tidy;
    assert [s][..0] == [];
  }

  lemma SearchingSound(b: Builder, col: string, term: string)
    requires Sound(b) && Inert(col)
    ensures Sound(Searching(b, col, term))
    ensures Matched(Searching(b, col, term)) <==> Matched(b)
  {
    hide SearchCondition, SearchRank, SearchMatch, SearchShadow, Marks, Closed, QuotedMarks, MarksAll, Concat, Joining,
         MatchedClauses;
    var arg := TextValue(term);
    if IsPG(b.driver) {
      SearchTextsPG(col);
      OneTerm(SearchRank(col));
      AddingSound(b, SearchCondition(col), [arg], false);
    } else if b.driver == "mysql" {
      SearchTextsMysql(col);
      OneTerm(SearchMatch(col) + " DESC");
      AddingSound(b, SearchMatch(col), [arg], false);
    } else if b.driver == "sqlite" || b.driver == "sqlite3" {
      SearchTextsSqlite(b.meta, col);
      var shadow := SearchShadow(b.meta, col);
      var pk := if b.meta.pk.Some? then b.meta.pk.value else "id";
      var on := shadow + ".rowid = " + b.meta.table + "." + pk;
      InertIsClosed(shadow + ".rank");
      OneTerm(shadow + ".rank");
      assert Inert("INNER");
      JoiningSound(b, "INNER", shadow, on);
      AddingSound(Joining(b, "INNER", shadow, on), shadow + " MATCH ?", [arg], false);
      JoiningKeepsDriver(b, "INNER", shadow, on);
    }
  }

  lemma JoiningKeepsDriver(b: Builder, kind: string, table: string, on: string)
    ensures Joining(b, kind, table, on).driver == b.driver
  {
  }

  lemma IdentIsInert(s: string)
    requires ValidIdent(s)
    ensures Inert(s)
  {
    ValidIdentClean(s);
    CleanIsInert(s);
  }

  lemma ApplySound(b: Builder, c: Call)
    requires Sound(b) && CallTyped(c)
    ensures Sound(Apply(b, c))
    ensures Matched(b) && CallMatched(c) ==> Matched(Apply(b, c))
  {
    hide ValidIdent, Marks, Closed, QuotedMarks, MarksAll, Concat, Searching, Joining, InCondition, Inert;
    match c {
      case Select(cols) =>
        forall col | AllValid(cols) && col in cols
          ensures Inert(col)
        {
          IdentIsInert(col);
        }
      case JoinOn(kind, table, on) => JoiningSound(b, kind, table, on);
      case Where(cond, args, or) => AddingSound(b, cond, args, or);
      case WhereOp(col, op, val, or) =>
        if ValidIdent(col) {
          IdentIsInert(col);
          OpConditionCount(col, op);
          AddingSound(b, col + " " + op + " ?", [val], or);
        }
      case WhereNull(col, test) =>
        if ValidIdent(col) {
          IdentIsInert(col);
          OpConditionCount(col, test);
          AddingSound(b, col + " " + test, [], false);
        }
      case WhereIn(col, vals) =>
        if ValidIdent(col) {
          IdentIsInert(col);
          InConditionCount(col, |Expanded(vals)|);
          AddingSound(b, InCondition(col, |Expanded(vals)|), Expanded(vals), false);
          NoneCondition();
          AddingSound(b, "1 = 0", [], false);
        }
      case Search(col, term) =>
        if ValidIdent(col) {
          IdentIsInert(col);
          SearchingSound(b, col, term);
        }
      case OrderBy(cols) =>
        if AllValid(cols) {
          forall col | col in cols
            ensures Inert(col)
          {
            IdentIsInert(col);
          }
          MarksAllConcat(b.orderBy, cols);
          InertAll(cols);
        }
      case _ =>
    }
  }

  lemma NoneCondition()
    ensures Tidy("1 = 0") && Marks("1 = 0") == 0
  {
    InertIsClosed("1 = 0");
  }

  // A new query, as From, FromDB and FromTx make it
  function Fresh(driver: string, schema: string, meta: Meta): Builder {
    Builder(driver, schema, meta, [], [], [], [], [], [], false, 0, 0, None, [])
  }

  ghost predicate PlainMeta(schema: string, meta: Meta) {
    Inert(schema) && Inert(meta.table) && (meta.pk.Some? ==> Inert(meta.pk.value))
    && forall f :: f in meta.fields ==> Inert(f.name)
  }

  lemma {:induction false} ApplyAllSound(b: Builder, calls: seq<Call>)
    requires Sound(b) && forall c :: c in calls ==> CallTyped(c)
    ensures Sound(ApplyAll(b, calls))
    ensures Matched(b) && (forall c :: c in calls ==> CallMatched(c)) ==> Matched(ApplyAll(b, calls))
    decreases |calls|
  {
    hide Apply, Sound, MatchedClauses, CallTyped, CallMatched;
    assert |b.given| == |b.where| by { SoundShape(b); }
    if calls != [] {
      assert calls[0] in calls;
      ApplySound(b, calls[0]);
      ApplyAllSound(Apply(b, calls[0]), calls[1..]);
    }
    ApplyAllShape(b, calls);
  }

  lemma SoundShape(b: Builder)
    requires Sound(b)
    ensures |b.given| == |b.where|
  {
  }

  lemma {:induction false} ApplyAllShape(b: Builder, calls: seq<Call>)
    requires Sound(b) && forall c :: c in calls ==> CallTyped(c)
    ensures |ApplyAll(b, calls).given| == |ApplyAll(b, calls).where|
    decreases |calls|
  {
    hide Apply, Sound, CallTyped;
    if calls == [] {
      SoundShape(b);
    } else {
      assert calls[0] in calls;
      ApplySound(b, calls[0]);
      ApplyAllShape(Apply(b, calls[0]), calls[1..]);
    }
  }

  // ---------- the printed text, bound to the printed arguments ----------

  lemma {:induction false} ClausesBind(where: seq<Clause>, given: seq<seq<Value>>)
    requires |where| == |given| && MatchedClauses(where, given)
    ensures Closed(ClausesText(where)) && Marks(ClausesText(where)) == |Concat(given)|
    ensures Bind(ClausesText(where), Concat(given)) == BoundClauses(where, given)
  {
    hide Bind, Marks, Closed;
    if where == [] {
      NothingBinds();
    } else {
      var n := |where| - 1;
      MatchedInit(where, given);
      ClausesBind(where[..n], given[..n]);
      ClauseBinds(ClausesText(where[..n]), Concat(given[..n]), if n > 0 then Connective(where[n].or) else "",
                  where[n].cond, given[n]);
      assert Chars("") == [];
    }
  }

  // One more condition in its parentheses
  lemma ClauseBinds(text: string, args: seq<Value>, link: string, cond: string, more: seq<Value>)
    requires Closed(text) && Marks(text) == |args| && Closed(cond) && Marks(cond) == |more|
    requires link == " AND " || link == " OR " || link == ""
    ensures var all := text + link + ("(" + cond + ")");
      && Closed(all) && Marks(all) == |args + more|
      && Bind(all, args + more) == Bind(text, args) + Chars(link) + (Chars("(") + Bind(cond, more) + Chars(")"))
  {
    hide Bind, Marks, Closed;
    assert Inert(link) && Inert("(") && Inert(")");
    BindBeforePlain(text, args, link);
    BindAfterPlain("(", cond, more);
    InertIsClosed("(");
    ClosedConcat("(", cond);
    BindBeforePlain("(" + cond, more, ")");
    BindConcat(text + link, args, "(" + cond + ")", more);
    ClosedConcat(text + link, "(" + cond + ")");
  }

  lemma NothingBinds()
    ensures Tidy("") && Marks("") == 0 && Bind("", []) == []
  {
  }

  lemma WhereBinds(where: seq<Clause>, given: seq<seq<Value>>)
    requires |where| == |given| && MatchedClauses(where, given)
    ensures Closed(WhereText(where)) && Marks(WhereText(where)) == |Concat(given)|
    ensures Bind(WhereText(where), Concat(given)) == BoundWhere(where, given)
  {
    hide Bind, Marks, Closed;
    if where == [] {
      NothingBinds();
    } else {
      ClausesBind(where, given);
      assert Inert(" WHERE ");
      InertIsClosed(" WHERE ");
      ClosedConcat(" WHERE ", ClausesText(where));
      BindAfterPlain(" WHERE ", ClausesText(where), Concat(given));
    }
  }

  lemma OrderBinds(orderBy: seq<string>, rankArgs: seq<Value>)
    requires AllTidy(orderBy) && MarksAll(orderBy) == |rankArgs|
    ensures Tidy(OrderText(orderBy)) && Marks(OrderText(orderBy)) == |rankArgs|
    ensures Bind(OrderText(orderBy), rankArgs) == BoundOrder(orderBy, rankArgs)
  {
    hide Bind, Marks, Closed, QuotedMarks;
    if orderBy == [] {
      NothingBinds();
    } else {
      assert Inert(", ") && Inert(" ORDER BY ");
      MarksJoin(orderBy, ", ");
      InertIsClosed(" ORDER BY ");
      ClosedConcat(" ORDER BY ", Join(orderBy, ", "));
      BindAfterPlain(" ORDER BY ", Join(orderBy, ", "), rankArgs);
    }
  }

  lemma IntBinds(text: string, n: int)
    requires Inert(text)
    ensures var t := if n > 0 then text + "?" else ""; Tidy(t) && Marks(t) == |IntArgs(n)|
    ensures Bind(if n > 0 then text + "?" else "", IntArgs(n)) == BoundInt(text, n)
  {
    hide Bind, Marks, Closed, QuotedMarks;
    if n > 0 {
      MarkBinds(IntValue(n));
      InertIsClosed(text);
      OneMarkCounts();
      ClosedConcat(text, "?");
      BindAfterPlain(text, "?", [IntValue(n)]);
    } else {
      NothingBinds();
    }
  }

  lemma MarkBinds(v: Value)
    ensures Marks("?") == 1 && Bind("?", [v]) == [Arg(v)]
  {
    assert [v][1..] == [] && "?"[1..] == "";
    NothingBindsFrom(None);
  }

  lemma {:induction false} JoinsPlain(joins: seq<string>)
    requires AllInert(joins)
    ensures Inert(JoinsText(joins))
  {
    if joins != [] {
      JoinsPlain(joins[..|joins| - 1]);
      assert Inert(joins[|joins| - 1]);
    }
  }

  lemma FromPlain(b: Builder)
    requires PlainNames(b)
    ensures Inert(FromText(b)) && Inert(QualifiedTable(b))
  {
    hide JoinsText;
    JoinsPlain(b.joins);
  }

  lemma HeadPlain(b: Builder)
    requires PlainNames(b)
    ensures Inert(FromText(b)) && Inert(HeadText(b)) && Inert(QualifiedTable(b))
  {
    hide FromText, QualifiedTable, Join;
    FromPlain(b);
    JoinInert(b.cols, ", ");
    assert Inert(ColumnsText(b));
  }

  // What buildSelect and buildSelectPage share
  lemma BodyBinds(b: Builder)
    requires Sound(b) && Matched(b)
    ensures var text := HeadText(b) + WhereText(b.where) + OrderText(b.orderBy);
      && Closed(text) && Marks(text) == |b.args + b.rankArgs|
      && Bind(text, b.args + b.rankArgs)
         == Chars(HeadText(b)) + BoundWhere(b.where, b.given) + BoundOrder(b.orderBy, b.rankArgs)
  {
    hide Bind, Marks, Closed, WhereText, OrderText, HeadText, BoundWhere, BoundOrder, Concat, MarksAll, PlainNames, Inert;
    HeadPlain(b);
    InertIsClosed(HeadText(b));
    WhereBinds(b.where, b.given);
    OrderBinds(b.orderBy, b.rankArgs);
    BindAfterPlain(HeadText(b), WhereText(b.where), b.args);
    ClosedConcat(HeadText(b), WhereText(b.where));
    ClosedConcat(HeadText(b) + WhereText(b.where), OrderText(b.orderBy));
    BindConcat(HeadText(b) + WhereText(b.where), b.args, OrderText(b.orderBy), b.rankArgs);
  }

  lemma LimitBinds(limit: int)
    ensures Tidy(LimitText(limit)) && Marks(LimitText(limit)) == |IntArgs(limit)|
    ensures Bind(LimitText(limit), IntArgs(limit)) == BoundInt(" LIMIT ", limit)
  {
    hide Bind, Marks, Tidy;
    assert Inert(" LIMIT ");
    IntBinds(" LIMIT ", limit);
    assert LimitText(limit) == (if limit > 0 then " LIMIT " + "?" else "");
  }

  lemma OffsetBinds(offset: int)
    ensures Tidy(OffsetText(offset)) && Marks(OffsetText(offset)) == |IntArgs(offset)|
    ensures Bind(OffsetText(offset), IntArgs(offset)) == BoundInt(" OFFSET ", offset)
  {
    hide Bind, Marks, Tidy;
    assert Inert(" OFFSET ");
    IntBinds(" OFFSET ", offset);
    assert OffsetText(offset) == (if offset > 0 then " OFFSET " + "?" else "");
  }

  // Main result for buildSelect: bound to its arguments, the text is the head, each condition with the
  // arguments it came with, the ranking with its argument, the limit and the offset.
  lemma SelectMeans(b: Builder, limit: int)
    requires Sound(b) && Matched(b)
    ensures Closed(SelectText(b, limit)) && Marks(SelectText(b, limit)) == |SelectArgs(b, limit)|
    ensures Bind(SelectText(b, limit), SelectArgs(b, limit)) == BoundSelect(b, limit)
  {
    hide Bind, Marks, Closed, QuotedMarks, WhereText, OrderText, HeadText, BoundWhere, BoundOrder, LimitText, OffsetText,
         BoundInt, Sound, MatchedClauses;
    BodyBinds(b);
    LimitBinds(limit);
    OffsetBinds(b.offset);
    var text := HeadText(b) + WhereText(b.where) + OrderText(b.orderBy);
    BindConcat(text, b.args + b.rankArgs, LimitText(limit), IntArgs(limit));
    ClosedConcat(text, LimitText(limit));
    BindConcat(text + LimitText(limit), b.args + b.rankArgs + IntArgs(limit), OffsetText(b.offset), IntArgs(b.offset));
    ClosedConcat(text + LimitText(limit), OffsetText(b.offset));
  }

  function BoundPage(b: Builder, pageSize: int, offset: int): seq<Piece>
    requires Sound(b) && Matched(b)
  {
    Chars(HeadText(b)) + BoundWhere(b.where, b.given) + BoundOrder(b.orderBy, b.rankArgs)
    + (Chars(" LIMIT ") + [Arg(IntValue(pageSize))] + Chars(" OFFSET ") + [Arg(IntValue(offset))])
  }

  lemma PageMeans(b: Builder, pageSize: int, offset: int)
    requires Sound(b) && Matched(b)
    ensures Marks(PageText(b)) == |PageArgs(b, pageSize, offset)|
    ensures Bind(PageText(b), PageArgs(b, pageSize, offset)) == BoundPage(b, pageSize, offset)
  {
    hide Bind, Marks, Closed, WhereText, OrderText, HeadText, BoundWhere, BoundOrder, Sound, MatchedClauses;
    BodyBinds(b);
    LimitOffsetBinds(pageSize, offset);
    BindConcat(HeadText(b) + WhereText(b.where) + OrderText(b.orderBy), b.args + b.rankArgs,
               " LIMIT ? OFFSET ?", [IntValue(pageSize), IntValue(offset)]);
  }

  lemma LimitOffsetBinds(pageSize: int, offset: int)
    ensures Tidy(" LIMIT ? OFFSET ?") && Marks(" LIMIT ? OFFSET ?") == 2
    ensures Bind(" LIMIT ? OFFSET ?", [IntValue(pageSize), IntValue(offset)])
         == Chars(" LIMIT ") + [Arg(IntValue(pageSize))] + Chars(" OFFSET ") + [Arg(IntValue(offset))]
  {
    hide Bind, Marks, Closed, QuotedMarks;
    assert Inert(" LIMIT ") && Inert(" OFFSET ");
    OneMarkCounts();
    InertIsClosed(" LIMIT ");
    InertIsClosed(" OFFSET ");
    ClosedConcat(" LIMIT ", "?");
    ClosedConcat(" OFFSET ", "?");
    ClosedConcat(" LIMIT " + "?", " OFFSET " + "?");
    MarkBinds(IntValue(pageSize));
    MarkBinds(IntValue(offset));
    BindAfterPlain(" LIMIT ", "?", [IntValue(pageSize)]);
    BindAfterPlain(" OFFSET ", "?", [IntValue(offset)]);
    BindConcat(" LIMIT " + "?", [IntValue(pageSize)], " OFFSET " + "?", [IntValue(offset)]);
    assert " LIMIT ? OFFSET ?" == (" LIMIT " + "?") + (" OFFSET " + "?");
    assert [IntValue(pageSize), IntValue(offset)] == [IntValue(pageSize)] + [IntValue(offset)];
  }

  // COUNT, EXISTS and DELETE have only the conditions' arguments.
  lemma FilterMeans(b: Builder)
    requires Sound(b) && Matched(b)
    ensures Marks(CountText(b)) == |b.args| && Marks(ExistsText(b)) == |b.args| && Marks(DeleteText(b)) == |b.args|
    ensures Bind(CountText(b), b.args) == Chars("SELECT COUNT(*)" + FromText(b)) + BoundWhere(b.where, b.given)
    ensures Bind(ExistsText(b), b.args)
         == Chars("SELECT 1" + FromText(b)) + BoundWhere(b.where, b.given) + Chars(" LIMIT 1")
    ensures Bind(DeleteText(b), b.args) == Chars("DELETE FROM " + QualifiedTable(b)) + BoundWhere(b.where, b.given)
  {
    hide Bind, Marks, Closed, WhereText, FromText, QualifiedTable, BoundWhere, Concat, MarksAll, PlainNames;
    FilterHeads(b);
    WhereBinds(b.where, b.given);
    BindAfterPlain("SELECT COUNT(*)" + FromText(b), WhereText(b.where), b.args);
    BindAfterPlain("SELECT 1" + FromText(b), WhereText(b.where), b.args);
    InertIsClosed("SELECT 1" + FromText(b));
    ClosedConcat("SELECT 1" + FromText(b), WhereText(b.where));
    BindBeforePlain("SELECT 1" + FromText(b) + WhereText(b.where), b.args, " LIMIT 1");
    BindAfterPlain("DELETE FROM " + QualifiedTable(b), WhereText(b.where), b.args);
  }

  lemma FilterHeads(b: Builder)
    requires PlainNames(b)
    ensures Inert("SELECT COUNT(*)" + FromText(b)) && Inert("SELECT 1" + FromText(b)) && Inert(" LIMIT 1")
    ensures Inert("DELETE FROM " + QualifiedTable(b)) && Inert("UPDATE " + QualifiedTable(b) + " SET ")
  {
    hide FromText, QualifiedTable, PlainNames;
    HeadPlain(b);
  }

  // ---------- UPDATE ----------

  // The SET assignments: the sorted columns of the values, then the autonow columns without a value
  function AutoNow(fields: seq<Column>, keys: seq<string>): seq<string> {
    if fields == [] then []
    else
      var f := fields[|fields| - 1];
      AutoNow(fields[..|fields| - 1], keys)
      + (if f.autoNow && f.name !in keys then [f.name + " = CURRENT_TIMESTAMP"] else [])
  }

  function Assignments(keys: seq<string>): seq<string> {
    seq(|keys|, i requires 0 <= i < |keys| => keys[i] + " = ?")
  }

  function SetClauses(b: Builder, keys: seq<string>): seq<string> {
    Assignments(keys) + AutoNow(b.meta.fields, keys)
  }

  function UpdateText(b: Builder, keys: seq<string>): string {
    "UPDATE " + QualifiedTable(b) + " SET " + Join(SetClauses(b, keys), ", ") + WhereText(b.where)
  }

  // The assignments with their values in place
  function BoundSet(keys: seq<string>, vals: seq<Value>, auto: seq<string>): seq<Piece>
    requires |keys| == |vals|
  {
    if keys == [] then Chars(Join(auto, ", "))
    else
      Chars(keys[0] + " = ") + [Arg(vals[0])]
      + (if |keys| > 1 || auto != [] then Chars(", ") else [])
      + BoundSet(keys[1..], vals[1..], auto)
  }

  lemma {:induction false} SetBinds(keys: seq<string>, vals: seq<Value>, auto: seq<string>)
    requires |keys| == |vals| && AllInert(keys) && AllInert(auto)
    ensures var text := Join(Assignments(keys) + auto, ", ");
      Tidy(text) && Marks(text) == |vals| && Bind(text, vals) == BoundSet(keys, vals, auto)
  {
    hide Bind, Marks, Closed, QuotedMarks, Inert;
    assert Inert(", ") by { CommaInert(); }
    if keys == [] {
      JoinInert(auto, ", ");
      InertIsClosed(Join(auto, ", "));
      InertBinds(Join(auto, ", "));
      assert Assignments(keys) + auto == auto && vals == [];
    } else {
      var all, rest := Assignments(keys) + auto, Assignments(keys[1..]) + auto;
      SetBinds(keys[1..], vals[1..], auto);
      assert all[1..] == rest && all[0] == keys[0] + " = " + "?";
      assert Inert(keys[0] + " = ") by { AssignInert(keys[0]); }
      OneAssignment(keys[0], vals[0]);
      assert vals == [vals[0]] + vals[1..];
      if |all| == 1 {
        assert rest == [] && keys[1..] == [] && auto == [];
        assert Join(all, ", ") == all[0] && vals == [vals[0]];
        assert BoundSet(keys[1..], vals[1..], auto) == [] by { NoAssignments(); }
      } else {
        BindBeforePlain(all[0], [vals[0]], ", ");
        InertIsClosed(", ");
        ClosedConcat(all[0], ", ");
        ClosedConcat(all[0] + ", ", Join(rest, ", "));
        BindConcat(all[0] + ", ", [vals[0]], Join(rest, ", "), vals[1..]);
      }
    }
  }

  lemma CommaInert()
    ensures Inert(", ")
  {
  }

  lemma AssignInert(key: string)
    requires Inert(key)
    ensures Inert(key + " = ")
  {
  }

  lemma NoAssignments()
    ensures BoundSet([], [], []) == []
  {
  }

  lemma InertBinds(s: string)
    requires Inert(s)
    ensures Marks(s) == 0 && Bind(s, []) == Chars(s)
  {
    InertIsClosed(s);
    BindPlain(s, None);
  }

  lemma OneAssignment(key: string, val: Value)
    requires Inert(key + " = ")
    ensures var text := key + " = " + "?";
      Tidy(text) && Marks(text) == 1 && Bind(text, [val]) == Chars(key + " = ") + [Arg(val)]
  {
    hide Bind, Marks, Closed, QuotedMarks, Inert;
    MarkBinds(val);
    OneMarkCounts();
    InertIsClosed(key + " = ");
    ClosedConcat(key + " = ", "?");
    BindAfterPlain(key + " = ", "?", [val]);
  }

  lemma {:induction false} AutoNowPlain(fields: seq<Column>, keys: seq<string>)
    requires forall f :: f in fields ==> Inert(f.name)
    ensures AllInert(AutoNow(fields, keys))
  {
    if fields != [] {
      AutoNowPlain(fields[..|fields| - 1], keys);
      assert Inert(fields[|fields| - 1].name + " = CURRENT_TIMESTAMP");
    }
  }

  // Main result for Update: SET values first, then the conditions' arguments
  lemma UpdateMeans(b: Builder, keys: seq<string>, vals: seq<Value>)
    requires Sound(b) && Matched(b) && |keys| == |vals| && AllInert(keys)
    ensures Marks(UpdateText(b, keys)) == |vals + b.args|
    ensures Bind(UpdateText(b, keys), vals + b.args)
         == Chars("UPDATE " + QualifiedTable(b) + " SET ") + BoundSet(keys, vals, AutoNow(b.meta.fields, keys))
            + BoundWhere(b.where, b.given)
  {
    hide Bind, Marks, Closed, QuotedMarks, WhereText, QualifiedTable, BoundWhere, Concat, MarksAll, BoundSet, AutoNow,
         Assignments;
    FilterHeads(b);
    WhereBinds(b.where, b.given);
    AutoNowPlain(b.meta.fields, keys);
    SetBinds(keys, vals, AutoNow(b.meta.fields, keys));
    var head, set_ := "UPDATE " + QualifiedTable(b) + " SET ", Join(SetClauses(b, keys), ", ");
    BindAfterPlain(head, set_, vals);
    InertIsClosed(head);
    ClosedConcat(head, set_);
    BindConcat(head + set_, vals, WhereText(b.where), b.args);
  }

  // ---------- after any chain of calls ----------

  ghost predicate WellCalled(calls: seq<Call>) { forall c :: c in calls ==> CallTyped(c) && CallMatched(c) }

  lemma FreshSound(driver: string, schema: string, meta: Meta)
    requires PlainMeta(schema, meta)
    ensures Sound(Fresh(driver, schema, meta)) && Matched(Fresh(driver, schema, meta))
  {
  }

  // Placeholder alignment: for every chain of calls whose raw conditions close their quotes and carry as many
  // placeholders as arguments, the SELECT the query prints means what the calls said.
  lemma ChainMeans(driver: string, schema: string, meta: Meta, calls: seq<Call>, limit: int)
    requires PlainMeta(schema, meta) && WellCalled(calls)
    ensures var b := ApplyAll(Fresh(driver, schema, meta), calls);
      && Sound(b) && Matched(b)
      && Marks(SelectText(b, limit)) == |SelectArgs(b, limit)|
      && Bind(SelectText(b, limit), SelectArgs(b, limit)) == BoundSelect(b, limit)
  {
    hide Apply, Bind, Marks, SelectText, SelectArgs, BoundSelect, Sound, CallTyped, CallMatched, Closed;
    var b0 := Fresh(driver, schema, meta);
    FreshSound(driver, schema, meta);
    ApplyAllSound(b0, calls);
    SelectMeans(ApplyAll(b0, calls), limit);
  }

  // ---------- whatever the raw conditions are ----------

  ghost predicate ClosedWhere(where: seq<Clause>) { forall w :: w in where ==> Closed(w.cond) }

  // How far the placeholders of the conditions exceed their arguments
  function Excess(where: seq<Clause>, given: seq<seq<Value>>): int
    requires |where| == |given|
  {
    if where == [] then 0
    else
      var n := |where| - 1;
      Excess(where[..n], given[..n]) + Marks(where[n].cond) - |given[n]|
  }

  // The question marks in the quotes of the conditions
  function QuotedWhere(where: seq<Clause>): nat {
    if where == [] then 0 else QuotedWhere(where[..|where| - 1]) + QuotedMarks(where[|where| - 1].cond)
  }

  lemma {:induction false} QuotedWhereIff(where: seq<Clause>)
    ensures QuotedWhere(where) == 0 <==> forall w :: w in where ==> QuotedMarks(w.cond) == 0
  {
    hide QuotedMarks;
    if where != [] {
      var n := |where| - 1;
      QuotedWhereIff(where[..n]);
      assert where == where[..n] + [where[n]];
    }
  }

  lemma {:induction false} ClausesCount(where: seq<Clause>, given: seq<seq<Value>>)
    requires |where| == |given| && ClosedWhere(where)
    ensures var text := ClausesText(where);
      Closed(text) && Marks(text) == |Concat(given)| + Excess(where, given) && QuotedMarks(text) == QuotedWhere(where)
  {
    hide Marks, Closed, QuotedMarks;
    if where == [] {
      EmptyCounts();
    } else {
      var n := |where| - 1;
      assert where[n] in where;
      ClausesCount(where[..n], given[..n]);
      ClauseCounts(ClausesText(where[..n]), if n > 0 then Connective(where[n].or) else "", where[n].cond);
    }
  }

  lemma ClauseCounts(text: string, link: string, cond: string)
    requires Closed(text) && Closed(cond) && (link == " AND " || link == " OR " || link == "")
    ensures var all := text + link + ("(" + cond + ")");
      Closed(all) && Marks(all) == Marks(text) + Marks(cond) && QuotedMarks(all) == QuotedMarks(text) + QuotedMarks(cond)
  {
    hide Marks, Closed, QuotedMarks;
    assert Inert(link) && Inert("(") && Inert(")");
    InertIsClosed(link);
    InertIsClosed("(");
    InertIsClosed(")");
    ClosedConcat(text, link);
    ClosedConcat("(", cond);
    ClosedConcat("(" + cond, ")");
    ClosedConcat(text + link, "(" + cond + ")");
  }

  lemma WhereCounts(where: seq<Clause>, given: seq<seq<Value>>)
    requires |where| == |given| && ClosedWhere(where)
    ensures var text := WhereText(where);
      Closed(text) && Marks(text) == |Concat(given)| + Excess(where, given) && QuotedMarks(text) == QuotedWhere(where)
  {
    hide Marks, Closed, QuotedMarks;
    ClausesCount(where, given);
    EmptyCounts();
    assert Inert(" WHERE ");
    InertIsClosed(" WHERE ");
    ClosedConcat(" WHERE ", ClausesText(where));
  }

  // With no assumption on the raw calls but closed quotes: placeholders and arguments differ by the surplus of
  // the conditions, and the only question marks in quotes are those of the conditions.
  lemma SelectCounts(b: Builder, limit: int)
    requires Sound(b) && ClosedWhere(b.where)
    ensures Marks(SelectText(b, limit)) == |SelectArgs(b, limit)| + Excess(b.where, b.given)
    ensures QuotedMarks(SelectText(b, limit)) == QuotedWhere(b.where)
  {
    hide Marks, Closed, QuotedMarks, WhereText, HeadText, OrderText, LimitText, OffsetText, Concat, MarksAll, PlainNames,
         Inert;
    HeadPlain(b);
    InertIsClosed(HeadText(b));
    WhereCounts(b.where, b.given);
    OrderBinds(b.orderBy, b.rankArgs);
    LimitBinds(limit);
    OffsetBinds(b.offset);
    var t1 := HeadText(b) + WhereText(b.where);
    ClosedConcat(HeadText(b), WhereText(b.where));
    var t2 := t1 + OrderText(b.orderBy);
    ClosedConcat(t1, OrderText(b.orderBy));
    ClosedConcat(t2, LimitText(limit));
    ClosedConcat(t2 + LimitText(limit), OffsetText(b.offset));
  }

  // ---------- PaginateAfter's derived query ----------

  function CursorText(col: string, desc: bool): string { col + " " + (if desc then "<" else ">") + " ?" }

  function CursorOrder(col: string, desc: bool): string { if desc then col + " DESC" else col + " ASC" }

  // The copy of the query that PaginateAfter runs; `after` is its cursor, if it has one
  function AfterCursor(b: Builder, col: string, after: Option<Value>, desc: bool): Builder {
    var filtered := if after.Some? then Adding(b, CursorText(col, desc), [after.value], false) else b;
    filtered.(orderBy := [CursorOrder(col, desc)])
  }

  // It replaces the ordering and keeps the rank arguments, so its arguments are one too many exactly after
  // a Search that ranks; otherwise it means what it says.
  lemma AfterCursorAlignedIff(b: Builder, col: string, after: Option<Value>, desc: bool, limit: int)
    requires Sound(b) && Matched(b) && ValidIdent(col)
    ensures var rq := AfterCursor(b, col, after, desc);
      && Marks(SelectText(rq, limit)) + |b.rankArgs| == |SelectArgs(rq, limit)|
      && (Marks(SelectText(rq, limit)) == |SelectArgs(rq, limit)| <==> b.rankArgs == [])
      && (b.rankArgs == [] ==> (
            && Sound(rq) && Matched(rq)
            && Bind(SelectText(rq, limit), SelectArgs(rq, limit)) == BoundSelect(rq, limit)))
  {
    hide Marks, Closed, QuotedMarks, Bind, SelectText, BoundSelect, ValidIdent, CursorText, CursorOrder, MarksAll, Concat,
         MatchedClauses;
    var rq := AfterCursor(b, col, after, desc);
    CursorCounts(col, desc);
    if after.Some? {
      AddingSound(b, CursorText(col, desc), [after.value], false);
    }
    var plain := rq.(rankArgs := []);
    SelectMeans(plain, limit);
    assert SelectText(rq, limit) == SelectText(plain, limit) by { RankNotPrinted(rq, limit); }
    assert |SelectArgs(rq, limit)| == |SelectArgs(plain, limit)| + |b.rankArgs|;
    if b.rankArgs == [] {
      assert rq == plain;
    }
  }

  lemma RankNotPrinted(b: Builder, limit: int)
    ensures SelectText(b, limit) == SelectText(b.(rankArgs := []), limit)
  {
  }

  lemma CursorCounts(col: string, desc: bool)
    requires ValidIdent(col)
    ensures Tidy(CursorText(col, desc)) && Marks(CursorText(col, desc)) == 1
    ensures MarksAll([CursorOrder(col, desc)]) == 0 && AllTidy([CursorOrder(col, desc)])
  {
    hide Marks, Closed, QuotedMarks, ValidIdent;
    IdentIsInert(col);
    var head := col + " " + (if desc then "<" else ">") + " ";
    OneMark(head, "");
    assert CursorText(col, desc) == head + "?" + "";
    InertAll([CursorOrder(col, desc)]);
  }

  // ---------- which queries have rank arguments ----------

  // A Search that succeeds on a driver that ranks
  predicate Ranks(driver: string, meta: Meta, c: Call) {
    && c.Search? && ValidIdent(c.col)
    && FieldOf(meta.fields, c.col).Some? && FieldOf(meta.fields, c.col).value.fts
    && (IsPG(driver) || driver == "mysql")
  }

  lemma ApplyRanks(b: Builder, c: Call)
    ensures Apply(b, c).rankArgs != [] <==> b.rankArgs != [] || Ranks(b.driver, b.meta, c)
    ensures Apply(b, c).driver == b.driver && Apply(b, c).meta == b.meta
  {
    hide ValidIdent, ValidJoinOn, FieldOf, SearchCondition, SearchRank, SearchMatch, SearchShadow, InCondition;
  }

  lemma {:induction false} ChainRanksIff(b: Builder, calls: seq<Call>)
    ensures ApplyAll(b, calls).rankArgs != [] <==> b.rankArgs != [] || exists c :: c in calls && Ranks(b.driver, b.meta, c)
    decreases |calls|
  {
    hide Apply, Ranks;
    if calls != [] {
      ApplyRanks(b, calls[0]);
      ChainRanksIff(Apply(b, calls[0]), calls[1..]);
      assert calls == [calls[0]] + calls[1..];
    }
  }

  // So PaginateAfter's statement is aligned if and only if no call of the chain is a ranking search.
  lemma ChainCursorIff(
    driver: string, schema: string, meta: Meta, calls: seq<Call>, col: string, after: Option<Value>, desc: bool, limit: int)
    requires PlainMeta(schema, meta) && WellCalled(calls) && ValidIdent(col)
    ensures var rq := AfterCursor(ApplyAll(Fresh(driver, schema, meta), calls), col, after, desc);
      Marks(SelectText(rq, limit)) == |SelectArgs(rq, limit)| <==> forall c :: c in calls ==> !Ranks(driver, meta, c)
  {
    hide Apply, Ranks, Marks, Closed, Sound, SelectText, SelectArgs, ValidIdent, CallTyped, CallMatched, PlainMeta, Bind,
         BoundSelect, MatchedClauses, AfterCursor;
    var b0 := Fresh(driver, schema, meta);
    ChainMeans(driver, schema, meta, calls, limit);
    ChainRanksIff(b0, calls);
    AfterCursorAlignedIff(ApplyAll(b0, calls), col, after, desc, limit);
  }
}
