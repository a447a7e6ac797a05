/** The builder's statements as a database reads them. Main results: every SELECT, COUNT, EXISTS, DELETE and UPDATE
    of the builder reads back as the query it stands for, part by part, and every typed condition as the
    comparison its call names. */
module QueryReader {
  import opened GoStrings
  import opened Patterns
  import opened SqlQuotes
  import opened SqlBinding
  import opened QueryBuilder
  import opened QueryFilter
  import opened QueryLast
  import opened SqlReader

  // Table and schema are plain names.
  ghost predicate Named(b: Builder) {
    IsName(b.meta.table) && (b.schema == "" || IsName(b.schema))
  }

  lemma TableIsColumn(b: Builder)
    requires Named(b)
    ensures IsColumn(QualifiedTable(b)) && IsColumn(b.meta.table)
  {
    hide IsName, IsColumn;
    NameIsColumn(b.meta.table);
    if b.schema != "" {
      TwoNamesAreColumn(b.schema, b.meta.table);
    }
  }

  lemma TableFullName(b: Builder)
    ensures QualifiedTable(b) == FullName(b.schema, b.meta.table)
  {
  }

  // Table and joins, and what follows them
  lemma FromReads(b: Builder, joins: seq<JoinRead>, tail: seq<Piece>)
    requires Named(b) && JoinsAre(b.joins, joins) && Section(tail)
    ensures Chars(" ") <= Chars(FromText(b)) + tail
    ensures var rest := Chars(JoinsText(b.joins)) + tail;
      && Eat(Chars(FromText(b)) + tail, " FROM ") == Some(Chars(QualifiedTable(b)) + rest)
      && ReadColumn(Chars(QualifiedTable(b)) + rest) == Some((QualifiedTable(b), rest))
      && ReadJoins(rest) == (joins, tail)
  {
    hide Named, QualifiedTable, JoinsText, FromText, IsColumn, ReadColumn, ReadJoins, JoinsAre, Section, Chars, Eat;
    var rest := Chars(JoinsText(b.joins)) + tail;
    TableIsColumn(b);
    JoinsRead(b.joins, joins, tail);
    ColumnReads(QualifiedTable(b), rest);
    FromShape(b);
    var p := Chars(" FROM ") + (Chars(QualifiedTable(b)) + rest);
    assert Chars(FromText(b)) + tail == p;
    EatReads(" FROM ", Chars(QualifiedTable(b)) + rest);
    BlankFirst(p);
  }

  lemma FromShape(b: Builder)
    ensures Chars(FromText(b)) == Chars(" FROM ") + (Chars(QualifiedTable(b)) + Chars(JoinsText(b.joins)))
  {
    hide QualifiedTable, JoinsText;
    CharsConcat(" FROM " + QualifiedTable(b), JoinsText(b.joins));
    CharsConcat(" FROM ", QualifiedTable(b));
  }

  lemma BlankFirst(p: seq<Piece>)
    requires Chars(" FROM ") <= p
    ensures Chars(" ") <= p
  {
    assert p[0] == Chars(" FROM ")[0];
  }

  // ---------- conditions, ordering, limit and offset ----------

  function WhereOf(b: Builder): Option<Expr>
    requires |b.where| == |b.given| && Matched(b)
  {
    if b.where == [] then None
    else
      assert |Items(b.where, b.given)| == |b.where|;
      Some(Tree(Items(b.where, b.given)))
  }

  // What may follow the conditions
  ghost predicate AfterWhere(rest: seq<Piece>) { Chars(" ORDER BY ") <= rest || Trailing(rest) }

  lemma AfterWhereFacts(rest: seq<Piece>)
    requires AfterWhere(rest)
    ensures Section(rest) && Ends(rest) && Eat(rest, " WHERE ") == None
  {
    if rest == [] {
      EatFails(rest, " WHERE ", 0);
    } else {
      SectionStart(rest);
      assert Chars(" AND ")[1] == Ch('A') && Chars(" OR ")[1] == Ch('O') && Chars(" OR ")[2] == Ch('R');
      var w := if Chars(" ORDER BY ") <= rest then " ORDER BY " else if Chars(" LIMIT ") <= rest then " LIMIT "
        else " OFFSET ";
      assert rest[1] == Chars(w)[1] && rest[3] == Chars(w)[3] && Chars(" OR ")[3] == Ch(' ');
      EatFails(rest, " WHERE ", 1);
    }
  }

  lemma WhereReads(b: Builder, rest: seq<Piece>)
    requires |b.where| == |b.given| && Matched(b) && BalancedWhere(b.where) && AfterWhere(rest)
    ensures ReadWhere(BoundWhere(b.where, b.given) + rest) == Some((WhereOf(b), rest))
    ensures Section(BoundWhere(b.where, b.given) + rest)
  {
    hide Balanced, ParseOr, Tree, BoundClauses, Bind, Marks, Closed, AfterWhere;
    AfterWhereFacts(rest);
    if b.where == [] {
      assert BoundWhere(b.where, b.given) + rest == rest;
    } else {
      var items := Items(b.where, b.given);
      forall i | 0 <= i < |items|
        ensures Balanced(items[i].cond)
      {
        BindBalanced(b.where[i].cond, b.given[i]);
      }
      BoundIsPrinted(b.where, b.given);
      ParseReads(items, rest);
      var clauses := BoundClauses(b.where, b.given) + rest;
      assert BoundWhere(b.where, b.given) + rest == Chars(" WHERE ") + clauses;
      EatReads(" WHERE ", clauses);
    }
  }

  // The ordering terms, each with its own arguments in place
  function BoundTerms(orderBy: seq<string>, args: seq<Value>): seq<seq<Piece>>
    requires AllTidy(orderBy) && MarksAll(orderBy) == |args|
  {
    if orderBy == [] then []
    else
      MarksAllCons(orderBy);
      var m := Marks(orderBy[0]);
      [Bind(orderBy[0], args[..m])] + BoundTerms(orderBy[1..], args[m..])
  }

  lemma {:induction false} TermsBind(orderBy: seq<string>, args: seq<Value>)
    requires orderBy != [] && AllTidy(orderBy) && MarksAll(orderBy) == |args|
    ensures Tidy(Join(orderBy, ", ")) && Marks(Join(orderBy, ", ")) == |args|
    ensures BoundTerms(orderBy, args) != []
    ensures Bind(Join(orderBy, ", "), args) == Listing(BoundTerms(orderBy, args))
  {
    hide Bind, Marks, Tidy, QuotedMarks, Closed;
    MarksAllCons(orderBy);
    MarksJoin(orderBy, ", ") by { assert Inert(", ") by { CommaInert(); } }
    var m := Marks(orderBy[0]);
    assert args == args[..m] + args[m..];
    if |orderBy| == 1 {
      assert BoundTerms(orderBy[1..], args[m..]) == [] && orderBy[1..] == [];
      assert MarksAll([]) == 0;
      assert args[..m] == args;
    } else {
      TermsBind(orderBy[1..], args[m..]);
      CommaInert();
      BindAfterPlain(", ", Join(orderBy[1..], ", "), args[m..]);
      InertIsClosed(", ");
      assert Closed(orderBy[0]) by { assert orderBy[0] in orderBy; FirstTidy(orderBy); }
      ClosedConcat(", ", Join(orderBy[1..], ", "));
      BindConcat(orderBy[0], args[..m], ", " + Join(orderBy[1..], ", "), args[m..]);
      assert Join(orderBy, ", ") == orderBy[0] + (", " + Join(orderBy[1..], ", "));
      assert BoundTerms(orderBy, args)[1..] == BoundTerms(orderBy[1..], args[m..]);
    }
  }

  lemma FirstTidy(orderBy: seq<string>)
    requires orderBy != [] && AllTidy(orderBy)
    ensures Closed(orderBy[0])
  {
    assert orderBy[0] in orderBy;
  }

  lemma OrderReads(orderBy: seq<string>, args: seq<Value>, rest: seq<Piece>)
    requires AllTidy(orderBy) && MarksAll(orderBy) == |args| && Trailing(rest)
    requires forall t :: t in BoundTerms(orderBy, args) ==> Smooth(t, Outside)
    ensures ReadOrder(BoundOrder(orderBy, args) + rest) == (BoundTerms(orderBy, args), rest)
    ensures AfterWhere(BoundOrder(orderBy, args) + rest)
  {
    hide Bind, Marks, Tidy, Smooth, ReadTerms, Join, MarksAll;
    if orderBy == [] {
      assert BoundOrder(orderBy, args) + rest == rest;
      TrailingIsNoOrder(rest);
    } else {
      TermsBind(orderBy, args);
      TermsRead(BoundTerms(orderBy, args), rest);
      var terms := Listing(BoundTerms(orderBy, args)) + rest;
      assert BoundOrder(orderBy, args) + rest == Chars(" ORDER BY ") + terms;
      EatReads(" ORDER BY ", terms);
    }
  }

  lemma TrailingIsNoOrder(rest: seq<Piece>)
    requires Trailing(rest)
    ensures Eat(rest, " ORDER BY ") == None
  {
    if rest == [] {
      EatFails(rest, " ORDER BY ", 0);
    } else {
      var w := if Chars(" LIMIT ") <= rest then " LIMIT " else " OFFSET ";
      assert rest[1] == Chars(w)[1] && rest[2] == Chars(w)[2];
      EatFails(rest, " ORDER BY ", 2);
      EatFails(rest, " ORDER BY ", if w == " LIMIT " then 1 else 2);
    }
  }

  function Positive(n: int): Option<Value> { if n > 0 then Some(IntValue(n)) else None }

  lemma LimitsRead(limit: int, offset: int)
    ensures var p := BoundInt(" LIMIT ", limit) + BoundInt(" OFFSET ", offset);
      && Trailing(p)
      && ReadNumber(p, " LIMIT ") == Some((Positive(limit), BoundInt(" OFFSET ", offset)))
      && ReadNumber(BoundInt(" OFFSET ", offset), " OFFSET ") == Some((Positive(offset), []))
  {
    hide Chars;
    var second := BoundInt(" OFFSET ", offset);
    if offset > 0 {
      assert second == Chars(" OFFSET ") + [Arg(IntValue(offset))];
      EatReads(" OFFSET ", [Arg(IntValue(offset))]);
      OffsetIsNoLimit([Arg(IntValue(offset))]);
      assert [Arg(IntValue(offset))][1..] == [];
    } else {
      EatFails(second, " OFFSET ", 0);
      EatFails(second, " LIMIT ", 0);
    }
    if limit > 0 {
      var p := Chars(" LIMIT ") + ([Arg(IntValue(limit))] + second);
      assert BoundInt(" LIMIT ", limit) + second == p;
      EatReads(" LIMIT ", [Arg(IntValue(limit))] + second);
      assert ([Arg(IntValue(limit))] + second)[1..] == second;
    } else {
      assert BoundInt(" LIMIT ", limit) + second == second;
    }
  }

  // LIMIT and OFFSET printed always
  lemma PageLimitsRead(limit: int, offset: int)
    ensures var second := Chars(" OFFSET ") + [Arg(IntValue(offset))];
      var p := Chars(" LIMIT ") + [Arg(IntValue(limit))] + second;
      && Trailing(p)
      && ReadNumber(p, " LIMIT ") == Some((Some(IntValue(limit)), second))
      && ReadNumber(second, " OFFSET ") == Some((Some(IntValue(offset)), []))
  {
    hide Chars;
    var second := Chars(" OFFSET ") + [Arg(IntValue(offset))];
    EatReads(" OFFSET ", [Arg(IntValue(offset))]);
    assert [Arg(IntValue(offset))][1..] == [];
    var p := Chars(" LIMIT ") + ([Arg(IntValue(limit))] + second);
    assert Chars(" LIMIT ") + [Arg(IntValue(limit))] + second == p;
    EatReads(" LIMIT ", [Arg(IntValue(limit))] + second);
    assert ([Arg(IntValue(limit))] + second)[1..] == second;
  }

  lemma OffsetIsNoLimit(rest: seq<Piece>)
    ensures Eat(Chars(" OFFSET ") + rest, " LIMIT ") == None
  {
    var p := Chars(" OFFSET ") + rest;
    assert p[1] == Chars(" OFFSET ")[1];
    EatFails(p, " LIMIT ", 1);
  }

  // ---------- the columns ----------

  // What the SELECT lists: the chosen columns, else the base table's with a join, else everything
  function SelectedItems(b: Builder): seq<SelectItem> {
    if b.cols != [] then ItemsOf(b.cols)
    else if b.joins != [] then [EverythingOf(b.meta.table)]
    else [Everything]
  }

  lemma StarReads(b: Builder, rest: seq<Piece>)
    requires Named(b) && b.cols == [] && Chars(" ") <= rest
    ensures ReadItems(Chars(ColumnsText(b)) + rest) == Some((SelectedItems(b), rest))
    ensures Eat(Chars(ColumnsText(b)) + rest, "DISTINCT ") == None
  {
    hide IsName, JoinsText;
    var p := Chars(ColumnsText(b)) + rest;
    EatFails(rest, ", ", 0);
    if b.joins == [] {
      assert p == Chars("*") + rest;
      EatReads("*", rest);
      assert p[0] == Chars("*")[0];
      EatFails(p, "DISTINCT ", 0);
    } else {
      TableStarReads(b.meta.table, rest);
    }
  }

  lemma TableStarReads(table: string, rest: seq<Piece>)
    requires IsName(table)
    ensures ReadItem(Chars(table + ".*") + rest) == Some((EverythingOf(table), rest))
    ensures Eat(Chars(table + ".*") + rest, "DISTINCT ") == None
  {
    hide IsName;
    var p := Chars(table + ".*") + rest;
    EatReads(table + ".*", rest);
    NameFacts(table);
    NameChars(table);
    TextOf(table + ".*", rest);
    EatNameThen(table, ".*" + Text(rest));
    assert table + ".*" + Text(rest) == table + (".*" + Text(rest));
    assert p[0] == Ch(table[0]) && IsWordChar(table[0]);
    EatFails(p, "*", 0);
    assert EatName(table, false).Some?;
    EatFails(p, "1", 0);
    assert p[|table|] == Ch('.');
    if |table| < 8 {
      EatFails(p, "COUNT(*)", |table|);
    } else {
      assert p[5] == Ch(table[5]);
      EatFails(p, "COUNT(*)", 5);
    }
    if |table| < 9 {
      EatFails(p, "DISTINCT ", |table|);
    } else {
      assert p[8] == Ch(table[8]);
      EatFails(p, "DISTINCT ", 8);
    }
  }

  lemma NotDistinct(col: string, rest: seq<Piece>)
    requires IsColumn(col) && AfterItem(rest) && (rest[0] == Ch(' ') ==> col != "DISTINCT")
    ensures Eat(Chars(col) + rest, "DISTINCT ") == None
  {
    hide IsColumn;
    var p := Chars(col) + rest;
    ColumnChars(col);
    assert p[|col|] == rest[0];
    if |col| < 8 {
      EatFails(p, "DISTINCT ", |col|);
    } else if |col| > 8 {
      assert p[8] == Ch(col[8]);
      EatFails(p, "DISTINCT ", 8);
    } else if rest[0] == Ch(',') {
      EatFails(p, "DISTINCT ", 8);
    } else {
      var i :| 0 <= i < 8 && col[i] != "DISTINCT"[i];
      assert p[i] == Ch(col[i]);
      EatFails(p, "DISTINCT ", i);
    }
  }

  lemma ChosenReads(cols: seq<string>, rest: seq<Piece>)
    requires cols != [] && PlainColumns(cols) && Chars(" ") <= rest
    ensures ReadItems(Chars(Join(cols, ", ")) + rest) == Some((ItemsOf(cols), rest))
    ensures Eat(Chars(Join(cols, ", ")) + rest, "DISTINCT ") == None
  {
    hide IsColumn, ReadItems, Eat;
    assert cols[0] in cols;
    ColumnsRead(cols, rest);
    if |cols| == 1 {
      assert cols == [cols[0]];
      NotDistinct(cols[0], rest);
    } else {
      var others := Chars(", ") + (Chars(Join(cols[1..], ", ")) + rest);
      CharsConcat(cols[0] + ", ", Join(cols[1..], ", "));
      CharsConcat(cols[0], ", ");
      assert Chars(Join(cols, ", ")) + rest == Chars(cols[0]) + others;
      FirstOf(", ", Chars(Join(cols[1..], ", ")) + rest);
      NotDistinct(cols[0], others);
    }
  }

  lemma ColumnsReadBack(b: Builder, rest: seq<Piece>)
    requires Named(b) && (b.cols == [] || PlainColumns(b.cols)) && Chars(" ") <= rest
    ensures ReadItems(Chars(ColumnsText(b)) + rest) == Some((SelectedItems(b), rest))
    ensures Eat(Chars(ColumnsText(b)) + rest, "DISTINCT ") == None
  {
    hide Named, PlainColumns, ReadItems, Eat;
    if b.cols == [] {
      StarReads(b, rest);
    } else {
      ChosenReads(b.cols, rest);
    }
  }

  // The head of the SELECT, up to the conditions
  lemma HeadReads(b: Builder, joins: seq<JoinRead>, tail: seq<Piece>)
    requires Named(b) && (b.cols == [] || PlainColumns(b.cols)) && JoinsAre(b.joins, joins) && Section(tail)
    ensures var start := Eat(Chars(HeadText(b)) + tail, "SELECT ");
      && start.Some?
      && Eat(start.value, "DISTINCT ").Some? == b.distinct
      && var list := if b.distinct then Eat(start.value, "DISTINCT ").value else start.value;
      && ReadItems(list) == Some((SelectedItems(b), Chars(FromText(b)) + tail))
  {
    hide Named, PlainColumns, ReadItems, ColumnsText, FromText, JoinsAre, Section, Chars, Eat, HeadText, QualifiedTable,
         JoinsText, ReadColumn, ReadJoins, SelectedItems;
    FromReads(b, joins, tail);
    var rest := Chars(FromText(b)) + tail;
    var list := Chars(ColumnsText(b)) + rest;
    ColumnsReadBack(b, rest);
    var word := if b.distinct then "DISTINCT " else "";
    EatReads("SELECT ", Chars(word) + list);
    HeadPieces(b, word, tail);
    if b.distinct {
      EatReads("DISTINCT ", list);
    } else {
      assert Chars(word) + list == list by { NoChars(); }
    }
  }

  lemma HeadPieces(b: Builder, word: string, tail: seq<Piece>)
    requires word == if b.distinct then "DISTINCT " else ""
    ensures Chars(HeadText(b)) + tail
         == Chars("SELECT ") + (Chars(word) + (Chars(ColumnsText(b)) + (Chars(FromText(b)) + tail)))
  {
    hide ColumnsText, FromText, Chars;
    CharsConcat("SELECT " + word + ColumnsText(b), FromText(b));
    CharsConcat("SELECT " + word, ColumnsText(b));
    CharsConcat("SELECT ", word);
  }

  lemma NoChars()
    ensures Chars("") == []
  {
  }

  // ---------- whole statements ----------

  // A query whose names and columns are plain and whose ordering terms read as terms
  ghost predicate Legible(b: Builder, joins: seq<JoinRead>)
    requires Sound(b)
  {
    && Named(b) && (b.cols == [] || PlainColumns(b.cols)) && JoinsAre(b.joins, joins) && BalancedWhere(b.where)
    && forall t :: t in BoundTerms(b.orderBy, b.rankArgs) ==> Smooth(t, Outside)
  }

  // The query a SELECT of the builder stands for
  function Meant(b: Builder, joins: seq<JoinRead>, limit: Option<Value>, offset: Option<Value>): Selection
    requires Sound(b) && Matched(b)
  {
    Selection(b.distinct, SelectedItems(b), FullName(b.schema, b.meta.table), joins, WhereOf(b), BoundTerms(b.orderBy, b.rankArgs),
              limit, offset)
  }

  lemma BodyReads(
    b: Builder, joins: seq<JoinRead>, limits: seq<Piece>, second: seq<Piece>, limit: Option<Value>, offset: Option<Value>)
    requires Sound(b) && Matched(b) && Legible(b, joins) && Trailing(limits)
    requires ReadNumber(limits, " LIMIT ") == Some((limit, second)) && ReadNumber(second, " OFFSET ") == Some((offset, []))
    ensures ReadSelect(Chars(HeadText(b)) + (BoundWhere(b.where, b.given) + (BoundOrder(b.orderBy, b.rankArgs) + limits)))
         == Some(Meant(b, joins, limit, offset))
  {
    hide Named, PlainColumns, JoinsAre, Section, BalancedWhere, Smooth, MatchedClauses, PlainNames, AllTidy, MarksAll,
         Concat, ReadItems, ReadColumn, ReadJoins, ReadWhere, ReadOrder, ReadNumber, Eat, HeadText, BoundWhere, BoundOrder,
         BoundTerms, WhereOf, SelectedItems, Trailing, AfterWhere, FromText, JoinsText, Chars, QualifiedTable, FullName;
    var order := BoundOrder(b.orderBy, b.rankArgs) + limits;
    var where := BoundWhere(b.where, b.given) + order;
    OrderReads(b.orderBy, b.rankArgs, limits);
    WhereReads(b, order);
    HeadReads(b, joins, where);
    FromReads(b, joins, where);
    TableFullName(b);
  }

  // Main result: buildSelect's statement, bound to its arguments, reads back as the query.
  lemma SelectReads(b: Builder, joins: seq<JoinRead>, limit: int)
    requires Sound(b) && Matched(b) && Legible(b, joins)
    ensures Marks(SelectText(b, limit)) == |SelectArgs(b, limit)|
    ensures ReadSelect(Bind(SelectText(b, limit), SelectArgs(b, limit)))
         == Some(Meant(b, joins, Positive(limit), Positive(b.offset)))
  {
    hide ReadSelect, Bind, Marks, PlainNames, AllTidy, MarksAll, Concat, MatchedClauses, Legible, HeadText, BoundWhere,
         BoundOrder, BoundInt, SelectText, SelectArgs, Meant, ReadNumber, Trailing;
    SelectMeans(b, limit);
    LimitsRead(limit, b.offset);
    var second := BoundInt(" OFFSET ", b.offset);
    var limits := BoundInt(" LIMIT ", limit) + second;
    BodyReads(b, joins, limits, second, Positive(limit), Positive(b.offset));
    Regroups(Chars(HeadText(b)), BoundWhere(b.where, b.given), BoundOrder(b.orderBy, b.rankArgs),
             BoundInt(" LIMIT ", limit), second);
  }

  lemma Regroups(a: seq<Piece>, b: seq<Piece>, c: seq<Piece>, d: seq<Piece>, e: seq<Piece>)
    ensures a + b + c + d + e == a + (b + (c + (d + e)))
    ensures a + b + c + (d + e) == a + (b + (c + (d + e)))
  {
  }

  // The statement of a page, with LIMIT and OFFSET
  lemma PageReads(b: Builder, joins: seq<JoinRead>, pageSize: int, offset: int)
    requires Sound(b) && Matched(b) && Legible(b, joins)
    ensures Marks(PageText(b)) == |PageArgs(b, pageSize, offset)|
    ensures ReadSelect(Bind(PageText(b), PageArgs(b, pageSize, offset)))
         == Some(Meant(b, joins, Some(IntValue(pageSize)), Some(IntValue(offset))))
  {
    hide ReadSelect, Bind, Marks, PlainNames, AllTidy, MarksAll, Concat, MatchedClauses, Legible, HeadText, BoundWhere,
         BoundOrder, PageText, PageArgs, Meant, ReadNumber, Trailing, Chars;
    PageMeans(b, pageSize, offset);
    PageLimitsRead(pageSize, offset);
    var second := Chars(" OFFSET ") + [Arg(IntValue(offset))];
    var first := Chars(" LIMIT ") + [Arg(IntValue(pageSize))];
    BodyReads(b, joins, first + second, second, Some(IntValue(pageSize)), Some(IntValue(offset)));
    Regroups(Chars(HeadText(b)), BoundWhere(b.where, b.given), BoundOrder(b.orderBy, b.rankArgs), first, second);
    assert first + Chars(" OFFSET ") + [Arg(IntValue(offset))] == first + second;
  }

  // A SELECT of one item without ordering: COUNT and EXISTS
  lemma CountsRead(b: Builder, joins: seq<JoinRead>)
    requires Sound(b) && Matched(b) && Named(b) && JoinsAre(b.joins, joins) && BalancedWhere(b.where)
    ensures Marks(CountText(b)) == |b.args| && Marks(ExistsText(b)) == |b.args|
    ensures ReadSelect(Bind(CountText(b), b.args))
         == Some(Selection(false, [RowCount], FullName(b.schema, b.meta.table), joins, WhereOf(b), [], None, None))
    ensures ReadSelect(Bind(ExistsText(b), b.args))
         == Some(Selection(false, [One], FullName(b.schema, b.meta.table), joins, WhereOf(b), [], Some(IntValue(1)), None))
  {
    hide Bind, Marks, Named, JoinsAre, BalancedWhere, MatchedClauses, PlainNames, AllTidy, MarksAll, Concat, ReadItems, Chars,
         ReadSelect, CountText, ExistsText, BoundWhere, FromText, WhereOf, QualifiedTable, FullName;
    FilterMeans(b);
    var from, where := Chars(FromText(b)), BoundWhere(b.where, b.given);
    ItemHeads(FromText(b));
    TableFullName(b);
    OneItemReads(b, joins, "COUNT(*)", RowCount, [], None);
    OneItemReads(b, joins, "1", One, Chars(" LIMIT 1"), Some(IntValue(1)));
    assert Bind(CountText(b), b.args) == Chars("SELECT ") + (Chars("COUNT(*)") + (from + (where + [])));
    assert Bind(ExistsText(b), b.args) == Chars("SELECT ") + (Chars("1") + (from + (where + Chars(" LIMIT 1"))));
  }

  lemma ItemHeads(from: string)
    ensures Chars("SELECT COUNT(*)" + from) == Chars("SELECT ") + (Chars("COUNT(*)") + Chars(from))
    ensures Chars("SELECT 1" + from) == Chars("SELECT ") + (Chars("1") + Chars(from))
  {
    hide Chars;
    assert "SELECT " + "COUNT(*)" == "SELECT COUNT(*)" && "SELECT " + "1" == "SELECT 1";
    CharsConcat("SELECT COUNT(*)", from);
    CharsConcat("SELECT ", "COUNT(*)");
    CharsConcat("SELECT 1", from);
    CharsConcat("SELECT ", "1");
  }

  lemma OneItemReads(
    b: Builder, joins: seq<JoinRead>, item: string, read: SelectItem, limits: seq<Piece>, limit: Option<Value>)
    requires Sound(b) && Matched(b) && Named(b) && JoinsAre(b.joins, joins) && BalancedWhere(b.where)
    requires (item == "COUNT(*)" && read == RowCount) || (item == "1" && read == One)
    requires (limits == [] && limit == None) || (limits == Chars(" LIMIT 1") && limit == Some(IntValue(1)))
    ensures ReadSelect(Chars("SELECT ") + (Chars(item) + (Chars(FromText(b)) + (BoundWhere(b.where, b.given) + limits))))
         == Some(Selection(false, [read], QualifiedTable(b), joins, WhereOf(b), [], limit, None))
  {
    hide Named, JoinsAre, BalancedWhere, MatchedClauses, PlainNames, AllTidy, MarksAll, Concat, Chars, FromText, BoundWhere,
         WhereOf, QualifiedTable, ReadItems, ReadColumn, ReadJoins, ReadWhere, ReadNumber, Eat, AfterWhere, Trailing, Section,
         ReadOrder, JoinsText;
    LiteralLimit(limits, limit);
    WhereReads(b, limits);
    var where := BoundWhere(b.where, b.given) + limits;
    FromReads(b, joins, where);
    var from := Chars(FromText(b)) + where;
    EatReads("SELECT ", Chars(item) + from);
    LiteralItem(item, read, from);
  }

  lemma LiteralItem(item: string, read: SelectItem, rest: seq<Piece>)
    requires (item == "COUNT(*)" && read == RowCount) || (item == "1" && read == One)
    requires Chars(" ") <= rest
    ensures ReadItems(Chars(item) + rest) == Some(([read], rest))
    ensures Eat(Chars(item) + rest, "DISTINCT ") == None
  {
    var p := Chars(item) + rest;
    EatReads(item, rest);
    assert p[0] == Ch(item[0]);
    EatFails(p, "*", 0);
    EatFails(p, "DISTINCT ", 0);
    EatFails(rest, ", ", 0);
    if item == "COUNT(*)" {
      EatFails(p, "1", 0);
    }
  }

  lemma LiteralLimit(limits: seq<Piece>, limit: Option<Value>)
    requires (limits == [] && limit == None) || (limits == Chars(" LIMIT 1") && limit == Some(IntValue(1)))
    ensures Trailing(limits) && AfterWhere(limits) && ReadOrder(limits) == ([], limits)
    ensures ReadNumber(limits, " LIMIT ") == Some((limit, [])) && ReadNumber([], " OFFSET ") == Some((None, []))
  {
    EatFails([], " OFFSET ", 0);
    if limits == [] {
      EatFails(limits, " LIMIT ", 0);
    } else {
      assert limits == Chars(" LIMIT ") + [Ch('1')];
      EatReads(" LIMIT ", [Ch('1')]);
      assert [Ch('1')][1..] == [] && Text([Ch('1')]) == "1";
      OneDigit();
    }
    TrailingIsNoOrder(limits);
  }

  lemma OneDigit()
    ensures DigitsLength("1") == 1 && Number("1") == 1
  {
    assert "1"[1..] == "" && "1"[..0] == "";
  }

  // ---------- DELETE and UPDATE ----------

  datatype Deletion = Deletion(table: string, where: Option<Expr>)

  function ReadDelete(p: seq<Piece>): Option<Deletion> {
    var from :- Eat(p, "DELETE FROM ");
    var table :- ReadColumn(from);
    var where :- ReadWhere(table.1);
    if where.1 != [] then None else Some(Deletion(table.0, where.0))
  }

  lemma DeleteReads(b: Builder)
    requires Sound(b) && Matched(b) && Named(b) && BalancedWhere(b.where)
    ensures Marks(DeleteText(b)) == |b.args|
    ensures ReadDelete(Bind(DeleteText(b), b.args)) == Some(Deletion(FullName(b.schema, b.meta.table), WhereOf(b)))
  {
    hide Bind, Marks, Named, BalancedWhere, MatchedClauses, PlainNames, AllTidy, MarksAll, Concat, Chars, DeleteText,
         BoundWhere, WhereOf, QualifiedTable, FullName, ReadColumn, ReadWhere, Eat, IsColumn, Section, AfterWhere;
    FilterMeans(b);
    TableIsColumn(b);
    TableFullName(b);
    var where := BoundWhere(b.where, b.given);
    assert AfterWhere([]) by { NothingAfterWhere(); }
    WhereReads(b, []);
    assert where + [] == where;
    SectionIsNoJoin(where);
    CharsConcat("DELETE FROM ", QualifiedTable(b));
    assert Bind(DeleteText(b), b.args) == Chars("DELETE FROM ") + (Chars(QualifiedTable(b)) + where);
    EatReads("DELETE FROM ", Chars(QualifiedTable(b)) + where);
    ColumnReads(QualifiedTable(b), where);
  }

  lemma NothingAfterWhere()
    ensures AfterWhere([])
  {
  }

  // A value, or the database's clock
  datatype Assignment = Assignment(col: string, value: Option<Value>)

  datatype Change = Change(table: string, set_: seq<Assignment>, where: Option<Expr>)

  function ReadAssignments(p: seq<Piece>): (r: Option<(seq<Assignment>, seq<Piece>)>)
    decreases |p|
  {
    var col :- ReadColumn(p);
    var value :- Eat(col.1, " = ");
    var clock := Eat(value, "CURRENT_TIMESTAMP");
    if clock.None? && (value == [] || !value[0].Arg?) then None
    else
      var first := Assignment(col.0, if clock.Some? then None else Some(value[0].v));
      var rest := if clock.Some? then clock.value else value[1..];
      if Eat(rest, ", ").None? then Some(([first], rest))
      else
        var others :- ReadAssignments(Eat(rest, ", ").value);
        Some(([first] + others.0, others.1))
  }

  function ReadUpdate(p: seq<Piece>): Option<Change> {
    var start :- Eat(p, "UPDATE ");
    var table :- ReadColumn(start);
    var list :- Eat(table.1, " SET ");
    var assigns :- ReadAssignments(list);
    var where :- ReadWhere(assigns.1);
    if where.1 != [] then None else Some(Change(table.0, assigns.0, where.0))
  }

  // The given values in the order of their columns
  function GivenValues(keys: seq<string>, vals: seq<Value>): seq<Assignment>
    requires |keys| == |vals|
  {
    seq(|keys|, i requires 0 <= i < |keys| => Assignment(keys[i], Some(vals[i])))
  }

  // The columns the database's clock is assigned to: the autonow columns without a value
  function Clocked(fields: seq<Column>, keys: seq<string>): seq<Assignment> {
    if fields == [] then []
    else
      var f := fields[|fields| - 1];
      Clocked(fields[..|fields| - 1], keys) + (if f.autoNow && f.name !in keys then [Assignment(f.name, None)] else [])
  }

  // An assignment as it is bound
  function AssignmentPieces(a: Assignment): seq<Piece> {
    Chars(a.col + " = ") + (if a.value.Some? then [Arg(a.value.value)] else Chars("CURRENT_TIMESTAMP"))
  }

  function AllAssignments(all: seq<Assignment>): seq<Piece> {
    if all == [] then []
    else if |all| == 1 then AssignmentPieces(all[0])
    else AssignmentPieces(all[0]) + (Chars(", ") + AllAssignments(all[1..]))
  }

  lemma AssignmentReads(a: Assignment, rest: seq<Piece>)
    requires IsColumn(a.col)
    ensures var p := AssignmentPieces(a) + rest;
      var value := (if a.value.Some? then [Arg(a.value.value)] else Chars("CURRENT_TIMESTAMP")) + rest;
      && ReadColumn(p) == Some((a.col, Chars(" = ") + value)) && Eat(Chars(" = ") + value, " = ") == Some(value)
      && Eat(value, "CURRENT_TIMESTAMP") == (if a.value.Some? then None else Some(rest))
      && (a.value.Some? ==> value[0] == Arg(a.value.value) && value[1..] == rest)
  {
    hide IsColumn, ReadColumn;
    var value := (if a.value.Some? then [Arg(a.value.value)] else Chars("CURRENT_TIMESTAMP")) + rest;
    CharsConcat(a.col, " = ");
    assert AssignmentPieces(a) + rest == Chars(a.col) + (Chars(" = ") + value);
    FirstOf(" = ", value);
    ColumnReads(a.col, Chars(" = ") + value);
    EatReads(" = ", value);
    if a.value.Some? {
      EatFails(value, "CURRENT_TIMESTAMP", 0);
    } else {
      EatReads("CURRENT_TIMESTAMP", rest);
    }
  }

  lemma {:induction false} AssignmentsRead(all: seq<Assignment>, rest: seq<Piece>)
    requires all != [] && (forall a :: a in all ==> IsColumn(a.col)) && Eat(rest, ", ") == None
    ensures ReadAssignments(AllAssignments(all) + rest) == Some((all, rest))
    decreases |all|
  {
    hide IsColumn, ReadColumn, AssignmentPieces, Eat, Chars;
    assert all[0] in all;
    if |all| == 1 {
      AssignmentReads(all[0], rest);
      assert all == [all[0]];
    } else {
      var others := AllAssignments(all[1..]) + rest;
      AssignmentReads(all[0], Chars(", ") + others);
      assert AllAssignments(all) + rest == AssignmentPieces(all[0]) + (Chars(", ") + others);
      EatReads(", ", others);
      AssignmentsRead(all[1..], rest);
      assert all == [all[0]] + all[1..];
    }
  }

  lemma {:induction false} ClockedTexts(fields: seq<Column>, keys: seq<string>)
    ensures |AutoNow(fields, keys)| == |Clocked(fields, keys)|
    ensures forall i :: 0 <= i < |AutoNow(fields, keys)| ==>
      Chars(AutoNow(fields, keys)[i]) == AssignmentPieces(Clocked(fields, keys)[i])
  {
    hide Chars, AssignmentPieces;
    if fields != [] {
      var n := |fields| - 1;
      ClockedTexts(fields[..n], keys);
      ClockText(fields[n].name);
    }
  }

  lemma ClockText(name: string)
    ensures Chars(name + " = CURRENT_TIMESTAMP") == AssignmentPieces(Assignment(name, None))
  {
    hide Chars;
    CharsConcat(name + " = ", "CURRENT_TIMESTAMP");
    assert name + " = CURRENT_TIMESTAMP" == name + " = " + "CURRENT_TIMESTAMP";
  }

  lemma {:induction false} ClockedColumns(fields: seq<Column>, keys: seq<string>)
    ensures forall a :: a in Clocked(fields, keys) ==> exists f :: f in fields && f.name == a.col
  {
    if fields != [] {
      var n := |fields| - 1;
      ClockedColumns(fields[..n], keys);
      assert fields == fields[..n] + [fields[n]];
    }
  }

  lemma {:induction false} AutoPieces(auto: seq<string>, clocked: seq<Assignment>)
    requires |auto| == |clocked| && forall i :: 0 <= i < |auto| ==> Chars(auto[i]) == AssignmentPieces(clocked[i])
    ensures Chars(Join(auto, ", ")) == AllAssignments(clocked)
  {
    hide AssignmentPieces;
    if |auto| > 1 {
      AutoPieces(auto[1..], clocked[1..]);
      CharsConcat(auto[0] + ", ", Join(auto[1..], ", "));
      CharsConcat(auto[0], ", ");
    }
  }

  lemma {:induction false} SetPieces(keys: seq<string>, vals: seq<Value>, auto: seq<string>, clocked: seq<Assignment>)
    requires |keys| == |vals| && Chars(Join(auto, ", ")) == AllAssignments(clocked) && |auto| == |clocked|
    ensures BoundSet(keys, vals, auto) == AllAssignments(GivenValues(keys, vals) + clocked)
  {
    hide Join, Chars;
    if keys == [] {
      assert GivenValues(keys, vals) + clocked == clocked;
    } else {
      var all := GivenValues(keys, vals) + clocked;
      SetPieces(keys[1..], vals[1..], auto, clocked);
      assert all[0] == Assignment(keys[0], Some(vals[0]));
      assert all[1..] == GivenValues(keys[1..], vals[1..]) + clocked;
      if |all| == 1 {
        assert BoundSet(keys[1..], vals[1..], auto) == AllAssignments([]) == [];
      }
    }
  }

  // The assignments read back are the values of the given columns and the clock for the others that take it.
  lemma UpdateReads(b: Builder, keys: seq<string>, vals: seq<Value>)
    requires Sound(b) && Matched(b) && Named(b) && BalancedWhere(b.where) && |keys| == |vals| && AllInert(keys)
    requires (forall k :: k in keys ==> IsColumn(k)) && (forall f :: f in b.meta.fields ==> IsColumn(f.name))
    requires GivenValues(keys, vals) + Clocked(b.meta.fields, keys) != []
    ensures Marks(UpdateText(b, keys)) == |vals + b.args|
    ensures ReadUpdate(Bind(UpdateText(b, keys), vals + b.args))
         == Some(Change(FullName(b.schema, b.meta.table), GivenValues(keys, vals) + Clocked(b.meta.fields, keys), WhereOf(b)))
  {
    hide Bind, Marks, Named, BalancedWhere, MatchedClauses, AllTidy, MarksAll, Concat, Chars, UpdateText,
         BoundWhere, WhereOf, QualifiedTable, FullName, ReadColumn, ReadWhere, Eat, IsColumn, Section, AfterWhere, ReadAssignments,
         BoundSet, AllAssignments, PlainNames, AutoNow, Clocked, GivenValues;
    var set_ := GivenValues(keys, vals) + Clocked(b.meta.fields, keys);
    UpdateMeans(b, keys, vals);
    ClockedTexts(b.meta.fields, keys);
    AutoPieces(AutoNow(b.meta.fields, keys), Clocked(b.meta.fields, keys));
    SetPieces(keys, vals, AutoNow(b.meta.fields, keys), Clocked(b.meta.fields, keys));
    TableIsColumn(b);
    TableFullName(b);
    var where := BoundWhere(b.where, b.given);
    assert AfterWhere([]) by { NothingAfterWhere(); }
    WhereReads(b, []);
    assert where + [] == where;
    SectionIsNoComma(where);
    ColumnsOfSet(b, keys, vals);
    AssignmentsRead(set_, where);
    var list := AllAssignments(set_) + where;
    EatReads(" SET ", list);
    FirstOf(" SET ", list);
    ColumnReads(QualifiedTable(b), Chars(" SET ") + list);
    EatReads("UPDATE ", Chars(QualifiedTable(b)) + (Chars(" SET ") + list));
    CharsConcat("UPDATE " + QualifiedTable(b), " SET ");
    CharsConcat("UPDATE ", QualifiedTable(b));
    assert Bind(UpdateText(b, keys), vals + b.args)
        == Chars("UPDATE ") + (Chars(QualifiedTable(b)) + (Chars(" SET ") + list));
  }

  lemma ColumnsOfSet(b: Builder, keys: seq<string>, vals: seq<Value>)
    requires |keys| == |vals|
    requires (forall k :: k in keys ==> IsColumn(k)) && (forall f :: f in b.meta.fields ==> IsColumn(f.name))
    ensures forall a :: a in GivenValues(keys, vals) + Clocked(b.meta.fields, keys) ==> IsColumn(a.col)
  {
    hide IsColumn;
    ClockedColumns(b.meta.fields, keys);
  }

  lemma SectionIsNoComma(rest: seq<Piece>)
    requires Section(rest)
    ensures Eat(rest, ", ") == None
  {
    if rest != [] {
      SectionStart(rest);
    }
    EatFails(rest, ", ", 0);
  }
}
