/** One condition or ordering term as a database reads it. Main results: every typed call adds a condition that
    reads as the comparison, test, membership or full-text match its name promises, on its own column with its
    own values; and a ranking search orders by relevance, best first. */
module Conditions {
  import opened GoStrings
  import opened Patterns
  import opened SqlQuotes
  import opened SqlBinding
  import opened Identifiers
  import opened QueryBuilder
  import opened QueryFilter
  import opened QueryLast
  import opened SqlReader

  // ---------- the grammar ----------

  datatype Cond =
    | Compare(col: string, op: string, value: Value)
    | IsNull(col: string)
    | NotNull(col: string)
    | Among(col: string, values: seq<Value>)
    | Never
    | Matches(col: string, term: Value)

  function ReadArg(p: seq<Piece>): Option<(Value, seq<Piece>)> {
    if p != [] && p[0].Arg? then Some((p[0].v, p[1..])) else None
  }

  function ReadArgs(p: seq<Piece>): (r: Option<(seq<Value>, seq<Piece>)>)
    decreases |p|
  {
    if p == [] || !p[0].Arg? then None
    else if Eat(p[1..], ", ").None? then Some(([p[0].v], p[1..]))
    else
      var others :- ReadArgs(Eat(p[1..], ", ").value);
      Some(([p[0].v] + others.0, others.1))
  }

  // to_tsvector('portuguese', column)
  function ReadVector(p: seq<Piece>): Option<(string, seq<Piece>)> {
    var call :- Eat(p, "to_tsvector(");
    var language :- Eat(call, "'portuguese'");
    var comma :- Eat(language, ", ");
    var col :- ReadColumn(comma);
    var end :- Eat(col.1, ")");
    Some((col.0, end))
  }

  // plainto_tsquery('portuguese', argument)
  function ReadQuery(p: seq<Piece>): Option<(Value, seq<Piece>)> {
    var call :- Eat(p, "plainto_tsquery(");
    var language :- Eat(call, "'portuguese'");
    var comma :- Eat(language, ", ");
    var term :- ReadArg(comma);
    var end :- Eat(term.1, ")");
    Some((term.0, end))
  }

  // MATCH(column) AGAINST(argument IN NATURAL LANGUAGE MODE)
  function ReadMatch(p: seq<Piece>): Option<(string, Value, seq<Piece>)> {
    var call :- Eat(p, "MATCH(");
    var col :- ReadColumn(call);
    var against :- Eat(col.1, ") AGAINST(");
    var term :- ReadArg(against);
    var end :- Eat(term.1, " IN NATURAL LANGUAGE MODE)");
    Some((col.0, term.0, end))
  }

  function ReadFullText(p: seq<Piece>): Option<Cond> {
    if ReadMatch(p).Some? then
      var m := ReadMatch(p).value;
      if m.2 == [] then Some(Matches(m.0, m.1)) else None
    else
      var vector :- ReadVector(p);
      var at :- Eat(vector.1, " @@ ");
      var query :- ReadQuery(at);
      if query.1 == [] then Some(Matches(vector.0, query.0)) else None
  }

  // " op argument"
  function ReadComparison(col: string, p: seq<Piece>): Option<Cond> {
    var t := Text(p);
    if |t| > 2 && |p| == |t| + 1 && t[0] == ' ' && t[|t| - 1] == ' ' && p[|t|].Arg?
    then Some(Compare(col, t[1..|t| - 1], p[|t|].v)) else None
  }

  function ReadTest(col: string, p: seq<Piece>): Option<Cond> {
    if p == Chars(" IS NULL") then Some(IsNull(col))
    else if p == Chars(" IS NOT NULL") then Some(NotNull(col))
    else if Eat(p, " IN (").Some? then
      var values :- ReadArgs(Eat(p, " IN (").value);
      if values.1 == Chars(")") then Some(Among(col, values.0)) else None
    else ReadComparison(col, p)
  }

  function ReadCondition(p: seq<Piece>): Option<Cond> {
    if p == Chars("1 = 0") then Some(Never)
    else if ReadFullText(p).Some? then ReadFullText(p)
    else
      var col :- ReadColumn(p);
      ReadTest(col.0, col.1)
  }

  // ---------- a column at the front ----------

  // A call's name is not a column followed by a blank.
  lemma CallFails(col: string, rest: seq<Piece>, word: string, k: nat)
    requires IsColumn(col) && Chars(" ") <= rest
    requires k < |word| && word[k] == '(' && forall i :: 0 <= i < k ==> word[i] != ' '
    ensures Eat(Chars(col) + rest, word) == None
  {
    hide IsColumn;
    var p := Chars(col) + rest;
    ColumnChars(col);
    if |col| <= k {
      assert p[|col|] == rest[0] == Chars(" ")[0];
      EatFails(p, word, |col|);
    } else {
      assert p[k] == Ch(col[k]);
      EatFails(p, word, k);
    }
  }

  lemma PlainReads(col: string, rest: seq<Piece>)
    requires IsColumn(col) && Chars(" ") <= rest
    ensures ReadCondition(Chars(col) + rest) == ReadTest(col, rest)
  {
    hide IsColumn, ReadColumn, Eat, ReadTest;
    var p := Chars(col) + rest;
    BlankBreaks(rest);
    ColumnReads(col, rest);
    CallFails(col, rest, "MATCH(", 5);
    CallFails(col, rest, "to_tsvector(", 11);
    NotNever(col, rest);
  }

  lemma BlankBreaks(rest: seq<Piece>)
    requires Chars(" ") <= rest
    ensures Breaks(rest)
  {
    assert rest[0] == Chars(" ")[0];
  }

  lemma NotNever(col: string, rest: seq<Piece>)
    requires IsColumn(col)
    ensures Chars(col) + rest != Chars("1 = 0")
  {
    hide IsColumn;
    NameStart(col);
    assert (Chars(col) + rest)[0] == Ch(col[0]);
    assert Chars("1 = 0")[0] == Ch('1');
  }

  // ---------- comparisons and tests ----------

  // The operators of the typed methods, and of the full-text table of SQLite
  predicate IsOperator(op: string) {
    op == "=" || op == "<>" || op == ">" || op == ">=" || op == "<" || op == "<=" || op == "LIKE" || op == "MATCH"
  }

  lemma ComparisonReads(col: string, op: string, v: Value)
    requires IsOperator(op)
    ensures ReadTest(col, Chars(" " + op + " ") + [Arg(v)]) == Some(Compare(col, op, v))
  {
    var t := " " + op + " ";
    var p := Chars(t) + [Arg(v)];
    TextOf(t, [Arg(v)]);
    assert Text(p) == t && t[1..|t| - 1] == op;
    assert p[|t|] == Arg(v);
    EatFails(p, " IN (", 1) by { assert p[1] == Ch(op[0]); }
    assert Chars(" IS NULL")[|Chars(" IS NULL")| - 1] == Ch('L');
    assert Chars(" IS NOT NULL")[|Chars(" IS NOT NULL")| - 1] == Ch('L');
    assert p[|p| - 1] == Arg(v);
  }

  lemma OpBinds(col: string, op: string, v: Value)
    requires Inert(col) && Inert(op)
    ensures Marks(col + " " + op + " ?") == 1
    ensures Bind(col + " " + op + " ?", [v]) == Chars(col) + (Chars(" " + op + " ") + [Arg(v)])
  {
    hide Bind, Marks;
    var head := col + " " + op + " ";
    assert Inert(head);
    MarkBinds(v);
    BindAfterPlain(head, "?", [v]);
    assert col + " " + op + " ?" == head + "?";
    assert head == col + (" " + op + " ");
    CharsConcat(col, " " + op + " ");
  }

  lemma OperatorInert(op: string)
    requires IsOperator(op)
    ensures Inert(op)
  {
  }

  lemma OpConditionReads(col: string, op: string, v: Value)
    requires IsColumn(col) && IsOperator(op)
    ensures Marks(col + " " + op + " ?") == 1
    ensures ReadCondition(Bind(col + " " + op + " ?", [v])) == Some(Compare(col, op, v))
  {
    hide IsColumn, ReadCondition, ReadTest, Bind, Marks, IsOperator;
    ColumnIsInert(col);
    OperatorInert(op);
    OpBinds(col, op, v);
    BlankAtFront(" " + op + " ", [Arg(v)]);
    PlainReads(col, Chars(" " + op + " ") + [Arg(v)]);
    ComparisonReads(col, op, v);
  }

  lemma BlankAtFront(s: string, rest: seq<Piece>)
    requires s != "" && s[0] == ' '
    ensures Chars(" ") <= Chars(s) + rest
  {
  }

  lemma ColumnIsInert(col: string)
    requires IsColumn(col)
    ensures Inert(col) && Closed(col) && Marks(col) == 0
  {
    hide IsColumn;
    ColumnChars(col);
    InertIsClosed(col);
  }

  lemma NullTestReads(col: string, negated: bool)
    requires IsColumn(col)
    ensures var test := if negated then "IS NOT NULL" else "IS NULL";
      && Marks(col + " " + test) == 0
      && ReadCondition(Bind(col + " " + test, [])) == Some(if negated then NotNull(col) else IsNull(col))
  {
    hide IsColumn, ReadCondition, Bind, Marks;
    var test := if negated then "IS NOT NULL" else "IS NULL";
    ColumnIsInert(col);
    assert Inert(test);
    assert Inert(col + " " + test);
    InertBinds(col + " " + test);
    assert col + " " + test == col + (" " + test);
    CharsConcat(col, " " + test);
    BlankAtFront(" " + test, []);
    assert Chars(" " + test) + [] == Chars(" " + test);
    PlainReads(col, Chars(" " + test));
    assert " IS NOT NULL" == " " + "IS NOT NULL" && " IS NULL" == " " + "IS NULL";
    assert |Chars(" IS NOT NULL")| != |Chars(" IS NULL")|;
  }

  // ---------- membership ----------

  function ArgList(vals: seq<Value>): seq<Piece> {
    if vals == [] then [] else if |vals| == 1 then [Arg(vals[0])] else [Arg(vals[0])] + (Chars(", ") + ArgList(vals[1..]))
  }

  lemma {:induction false} ArgListSnoc(vals: seq<Value>, v: Value)
    requires vals != []
    ensures ArgList(vals + [v]) == ArgList(vals) + (Chars(", ") + [Arg(v)])
  {
    hide Chars;
    if |vals| == 1 {
      assert (vals + [v])[1..] == [v];
    } else {
      assert (vals + [v])[1..] == vals[1..] + [v];
      ArgListSnoc(vals[1..], v);
    }
  }

  lemma {:induction false} PlaceholdersBind(vals: seq<Value>)
    ensures Marks(Placeholders(|vals|)) == |vals| && Bind(Placeholders(|vals|), vals) == ArgList(vals)
  {
    hide Bind, Marks, Chars;
    var n := |vals|;
    MarksCount(n);
    if n == 0 {
      NothingBinds();
    } else {
      var init, v := vals[..n - 1], vals[n - 1];
      MarkBinds(v);
      if n == 1 {
        assert vals == [v];
      } else {
        PlaceholdersBind(init);
        MarksCount(n - 1);
        CommaInert();
        BindAfterPlain(", ", "?", [v]);
        BindConcat(Placeholders(n - 1), init, ", " + "?", [v]);
        assert Placeholders(n) == Placeholders(n - 1) + (", " + "?");
        assert vals == init + [v];
        ArgListSnoc(init, v);
      }
    }
  }

  lemma ArgListStarts(vals: seq<Value>, rest: seq<Piece>)
    requires vals != []
    ensures var p := ArgList(vals) + rest;
      && p != [] && p[0] == Arg(vals[0])
      && p[1..] == if |vals| == 1 then rest else Chars(", ") + (ArgList(vals[1..]) + rest)
  {
    hide Chars;
    if |vals| == 1 {
      HeadFirst(Arg(vals[0]), [], [], rest);
      assert ArgList(vals) == [Arg(vals[0])] + ([] + []);
    } else {
      HeadFirst(Arg(vals[0]), Chars(", "), ArgList(vals[1..]), rest);
    }
  }

  lemma HeadFirst(x: Piece, a: seq<Piece>, b: seq<Piece>, c: seq<Piece>)
    ensures var p := [x] + (a + b) + c; p != [] && p[0] == x && p[1..] == a + (b + c)
  {
    assert [x] + (a + b) + c == [x] + (a + (b + c));
  }

  lemma {:induction false} ArgsRead(vals: seq<Value>, rest: seq<Piece>)
    requires vals != [] && Eat(rest, ", ") == None
    ensures ReadArgs(ArgList(vals) + rest) == Some((vals, rest))
  {
    hide Eat, ArgList, Chars;
    ArgListStarts(vals, rest);
    if |vals| == 1 {
      assert vals == [vals[0]];
    } else {
      EatReads(", ", ArgList(vals[1..]) + rest);
      ArgsRead(vals[1..], rest);
      assert vals == [vals[0]] + vals[1..];
    }
  }

  lemma InBinds(col: string, vals: seq<Value>)
    requires Inert(col)
    ensures Marks(InCondition(col, |vals|)) == |vals|
    ensures Bind(InCondition(col, |vals|), vals)
         == Chars(col) + (Chars(" IN (") + (ArgList(vals) + Chars(")")))
  {
    hide Bind, Marks, Closed, Placeholders, Chars, ArgList, Inert, QuotedMarks, InCondition;
    InText(col, |vals|);
    InWords(col);
    PlaceholdersFacts(vals);
    AroundBinds(col + " IN (", Placeholders(|vals|), ")", vals);
    SplitHead(col, " IN (", ArgList(vals) + Chars(")"));
  }

  lemma PlaceholdersFacts(vals: seq<Value>)
    ensures var list := Placeholders(|vals|); Closed(list) && Marks(list) == |vals| && Bind(list, vals) == ArgList(vals)
  {
    hide Bind, Marks, ArgList, Placeholders;
    MarksCount(|vals|);
    PlaceholdersBind(vals);
  }

  lemma SplitHead(a: string, b: string, rest: seq<Piece>)
    ensures Chars(a + b) + rest == Chars(a) + (Chars(b) + rest)
  {
  }

  lemma InText(col: string, n: nat)
    ensures InCondition(col, n) == col + " IN (" + Placeholders(n) + ")"
  {
    hide Placeholders;
  }

  // Arguments between texts without placeholders
  lemma AroundBinds(head: string, body: string, tail: string, args: seq<Value>)
    requires Inert(head) && Inert(tail) && Closed(body) && Marks(body) == |args|
    ensures Marks(head + body + tail) == |args|
    ensures Bind(head + body + tail, args) == Chars(head) + (Bind(body, args) + Chars(tail))
  {
    hide Bind, Marks, Closed, Chars, Inert;
    BindBeforePlain(body, args, tail);
    BindAfterPlain(head, body + tail, args);
    assert head + body + tail == head + (body + tail);
  }

  lemma InConditionReads(col: string, vals: seq<Value>)
    requires IsColumn(col) && vals != []
    ensures Marks(InCondition(col, |vals|)) == |vals|
    ensures ReadCondition(Bind(InCondition(col, |vals|), vals)) == Some(Among(col, vals))
  {
    hide IsColumn, ReadCondition, Bind, Marks, InCondition, ReadArgs;
    ColumnIsInert(col);
    InBinds(col, vals);
    var list := ArgList(vals) + Chars(")");
    var p := Chars(" IN (") + list;
    BlankAtFront(" IN (", list);
    PlainReads(col, p);
    EatReads(" IN (", list);
    EatFails(Chars(")"), ", ", 0);
    ArgsRead(vals, Chars(")"));
    assert p[4] == Ch('(');
    assert Chars(" IS NULL")[4] == Ch('N') && Chars(" IS NOT NULL")[4] == Ch('N');
  }

  lemma NeverReads()
    ensures Marks("1 = 0") == 0 && ReadCondition(Bind("1 = 0", [])) == Some(Never)
  {
    assert Inert("1 = 0");
    InertBinds("1 = 0");
  }

  // ---------- full-text search ----------

  // A placeholder between texts that hold none
  lemma MarkBetween(before: string, after: string, v: Value)
    requires Tidy(before) && Marks(before) == 0 && Inert(after)
    ensures Marks(before + "?" + after) == 1
    ensures Bind(before + "?" + after, [v]) == Chars(before) + ([Arg(v)] + Chars(after))
  {
    hide Bind, Marks, Closed, QuotedMarks;
    MarkBinds(v);
    OneMarkCounts();
    UnmarkedBinds(before);
    BindBeforePlain("?", [v], after);
    BindConcat(before, [], "?" + after, [v]);
    assert [] + [v] == [v];
    assert before + "?" + after == before + ("?" + after);
  }

  lemma UnmarkedBinds(s: string)
    requires Marks(s) == 0
    ensures Bind(s, []) == Chars(s)
  {
    BindPlain(s, None);
  }

  lemma LanguageIs()
    ensures Language() == "'portuguese'"
  {
    assert "'" + "portuguese" == "'portuguese";
  }

  // to_tsvector of a column
  lemma VectorReads(col: string, rest: seq<Piece>)
    requires IsColumn(col)
    ensures ReadVector(Chars(SearchVector(col)) + rest) == Some((col, rest))
  {
    hide IsColumn, ReadColumn, Eat, Language, Chars;
    LanguageIs();
    var l := Language();
    var p4 := Chars(")") + rest;
    var p3 := Chars(col) + p4;
    var p2 := Chars(", ") + p3;
    var p1 := Chars(l) + p2;
    CharsConcat("to_tsvector(" + l + ", " + col, ")");
    CharsConcat("to_tsvector(" + l + ", ", col);
    CharsConcat("to_tsvector(" + l, ", ");
    CharsConcat("to_tsvector(", l);
    assert Chars(SearchVector(col)) + rest == Chars("to_tsvector(") + p1;
    EatReads("to_tsvector(", p1);
    EatReads("'portuguese'", p2);
    EatReads(", ", p3);
    FirstOf(")", rest);
    ColumnReads(col, p4);
    EatReads(")", rest);
  }

  lemma QueryReads(v: Value, rest: seq<Piece>)
    ensures ReadQuery(QueryPieces(v) + rest) == Some((v, rest))
  {
    hide Eat, Language, Chars;
    LanguageIs();
    var l := Language();
    var p3 := [Arg(v)] + (Chars(")") + rest);
    var p2 := Chars(", ") + p3;
    var p1 := Chars(l) + p2;
    CharsConcat("plainto_tsquery(" + l, ", ");
    CharsConcat("plainto_tsquery(", l);
    assert QueryPieces(v) + rest == Chars("plainto_tsquery(") + p1;
    EatReads("plainto_tsquery(", p1);
    EatReads("'portuguese'", p2);
    EatReads(", ", p3);
    assert p3[1..] == Chars(")") + rest;
    EatReads(")", rest);
  }

  lemma SearchConditionReads(col: string, v: Value)
    requires IsColumn(col)
    ensures Marks(SearchCondition(col)) == 1
    ensures ReadCondition(Bind(SearchCondition(col), [v])) == Some(Matches(col, v))
  {
    hide IsColumn, ReadVector, ReadQuery, Bind, Marks, Closed, QuotedMarks, Eat, Language, Chars, SearchVector;
    SearchBinds(col, " @@ ", v);
    assert SearchCondition(col) == SearchText(col, " @@ ") by { ConditionIsText(col); }
    var query := QueryPieces(v);
    assert query + [] == query;
    VectorReads(col, Chars(" @@ ") + query);
    EatReads(" @@ ", query);
    QueryReads(v, []);
    VectorStart(col, Chars(" @@ ") + query);
  }

  lemma ConditionIsText(col: string)
    ensures SearchCondition(col) == SearchText(col, " @@ ")
  {
    hide Language, SearchVector;
    assert " @@ plainto_tsquery(" == " @@ " + "plainto_tsquery(";
  }

  // A column's vector and the bound query, with a sign between them
  function SearchText(col: string, link: string): string {
    SearchVector(col) + (link + "plainto_tsquery(") + Language() + ", " + "?" + ")"
  }

  function QueryPieces(v: Value): seq<Piece> {
    Chars("plainto_tsquery(" + Language() + ", ") + ([Arg(v)] + Chars(")"))
  }

  lemma VectorStart(col: string, rest: seq<Piece>)
    ensures var p := Chars(SearchVector(col)) + rest; Eat(p, "MATCH(") == None && p != Chars("1 = 0")
  {
    hide Language;
    var p := Chars(SearchVector(col)) + rest;
    assert SearchVector(col)[0] == 't';
    assert p[0] == Ch('t');
    EatFails(p, "MATCH(", 0);
    assert Chars("1 = 0")[0] == Ch('1');
  }

  lemma SearchBinds(col: string, link: string, v: Value)
    requires IsColumn(col) && (link == " @@ " || link == ", ")
    ensures Tidy(SearchText(col, link)) && Marks(SearchText(col, link)) == 1
    ensures Bind(SearchText(col, link), [v]) == Chars(SearchVector(col)) + (Chars(link) + QueryPieces(v))
  {
    hide IsColumn, Bind, Marks, Closed, QuotedMarks, Language, Chars, SearchVector, Inert;
    ColumnIsInert(col);
    SearchWords(col);
    VectorQuoted(col);
    LinkInert(link);
    var vec, l := SearchVector(col), Language();
    QuotedThen(vec, link + "plainto_tsquery(");
    AroundLanguage(vec + (link + "plainto_tsquery("), ", ");
    var before := vec + (link + "plainto_tsquery(") + l + ", ";
    MarkBetween(before, ")", v);
    OneMark(before, ")");
    assert before == vec + (link + ("plainto_tsquery(" + l + ", "));
    CharsConcat(vec, link + ("plainto_tsquery(" + l + ", "));
    CharsConcat(link, "plainto_tsquery(" + l + ", ");
  }

  lemma LinkInert(link: string)
    requires link == " @@ " || link == ", "
    ensures Inert(link + "plainto_tsquery(")
  {
  }

  lemma MatchReads(col: string, v: Value, rest: seq<Piece>)
    requires IsColumn(col)
    ensures ReadMatch(Chars(MatchHead(col)) + ([Arg(v)] + (Chars(MatchTail()) + rest))) == Some((col, v, rest))
  {
    hide IsColumn, ReadColumn, Eat, Chars;
    var p3 := [Arg(v)] + (Chars(MatchTail()) + rest);
    var p2 := Chars(") AGAINST(") + p3;
    var p1 := Chars(col) + p2;
    assert MatchHead(col) == "MATCH(" + (col + ") AGAINST(") by {
      assert "MATCH" + "(" == "MATCH(" && ")" + " AGAINST" + "(" == ") AGAINST(";
      MatchHeadRegroups(col);
    }
    CharsConcat("MATCH(", col + ") AGAINST(");
    CharsConcat(col, ") AGAINST(");
    assert Chars(MatchHead(col)) + p3 == Chars("MATCH(") + p1;
    EatReads("MATCH(", p1);
    FirstOf(") AGAINST(", p3);
    ColumnReads(col, p2);
    EatReads(") AGAINST(", p3);
    assert p3[1..] == Chars(MatchTail()) + rest;
    assert MatchTail() == " IN NATURAL LANGUAGE MODE)";
    EatReads(" IN NATURAL LANGUAGE MODE)", rest);
  }

  lemma MatchHeadRegroups(col: string)
    ensures "MATCH" + ("(" + col + ")") + " AGAINST" + "(" == ("MATCH" + "(") + (col + (")" + " AGAINST" + "("))
  {
  }

  lemma SearchMatchReads(col: string, v: Value)
    requires IsColumn(col)
    ensures Marks(SearchMatch(col)) == 1
    ensures ReadCondition(Bind(SearchMatch(col), [v])) == Some(Matches(col, v))
  {
    hide IsColumn, ReadMatch, ReadVector, Bind, Marks, Closed, QuotedMarks, Chars, MatchHead, MatchTail;
    ColumnIsInert(col);
    MatchPlain(col);
    InertIsClosed(MatchHead(col));
    MarkBetween(MatchHead(col), MatchTail(), v);
    assert Chars(MatchTail()) + [] == Chars(MatchTail());
    MatchReads(col, v, []);
    MatchStart(col, [Arg(v)] + Chars(MatchTail()));
  }

  lemma MatchStart(col: string, rest: seq<Piece>)
    ensures Chars(MatchHead(col)) + rest != Chars("1 = 0")
  {
    assert MatchHead(col)[0] == 'M';
    assert (Chars(MatchHead(col)) + rest)[0] == Ch('M') && Chars("1 = 0")[0] == Ch('1');
  }

  // ---------- ranking terms ----------

  function ReadDirection(p: seq<Piece>): Option<bool> {
    if p == Chars(" DESC") then Some(true) else if p == [] || p == Chars(" ASC") then Some(false) else None
  }

  // By relevance: the column and the term searched, and whether the best comes first
  function ReadRank(p: seq<Piece>): Option<(string, Value, bool)> {
    if ReadMatch(p).Some? then
      var m := ReadMatch(p).value;
      var desc :- ReadDirection(m.2);
      Some((m.0, m.1, desc))
    else
      var call :- Eat(p, "ts_rank(");
      var vector :- ReadVector(call);
      var comma :- Eat(vector.1, ", ");
      var query :- ReadQuery(comma);
      var end :- Eat(query.1, ")");
      var desc :- ReadDirection(end);
      Some((vector.0, query.0, desc))
  }

  lemma RankBinds(col: string, v: Value)
    requires IsColumn(col)
    ensures Tidy(SearchRank(col)) && Marks(SearchRank(col)) == 1 && Marks(SearchText(col, ", ")) == 1
    ensures Bind(SearchRank(col), [v]) == Chars("ts_rank(") + (Bind(SearchText(col, ", "), [v]) + Chars(") DESC"))
  {
    hide IsColumn, Bind, Marks, Closed, QuotedMarks, Chars, SearchText, SearchRank, Inert;
    ColumnIsInert(col);
    SearchTextsPG(col);
    SearchBinds(col, ", ", v);
    RankWords();
    AroundBinds("ts_rank(", SearchText(col, ", "), ") DESC", [v]);
    RankIsText(col);
  }

  lemma RankWords()
    ensures Inert("ts_rank(") && Inert(") DESC")
  {
  }

  lemma RankIsText(col: string)
    ensures SearchRank(col) == "ts_rank(" + SearchText(col, ", ") + ") DESC"
  {
    hide Language, SearchVector;
    assert ", plainto_tsquery(" == ", " + "plainto_tsquery(" && ")) DESC" == ")" + ") DESC";
  }

  // A ranking search on PostgreSQL orders by relevance, the best first.
  lemma RankReads(col: string, v: Value)
    requires IsColumn(col)
    ensures Marks(SearchRank(col)) == 1
    ensures ReadRank(Bind(SearchRank(col), [v])) == Some((col, v, true))
  {
    hide IsColumn, ReadVector, ReadQuery, Bind, Marks, Closed, QuotedMarks, Eat, Chars, SearchVector, SearchText, SearchRank,
         QueryPieces;
    RankBinds(col, v);
    SearchBinds(col, ", ", v);
    var end := Chars(") DESC");
    assert end == Chars(")") + Chars(" DESC") by {
      CharsConcat(")", " DESC");
      assert ")" + " DESC" == ") DESC";
    }
    var query := QueryPieces(v) + end;
    var vector := Chars(SearchVector(col)) + (Chars(", ") + query);
    assert Bind(SearchRank(col), [v]) == Chars("ts_rank(") + vector;
    EatReads("ts_rank(", vector);
    VectorReads(col, Chars(", ") + query);
    EatReads(", ", query);
    QueryReads(v, end);
    EatReads(")", Chars(" DESC"));
    NoMatchAtRank(vector);
  }

  lemma NoMatchAtRank(rest: seq<Piece>)
    ensures Eat(Chars("ts_rank(") + rest, "MATCH(") == None
  {
    var p := Chars("ts_rank(") + rest;
    assert p[0] == Chars("ts_rank(")[0];
    EatFails(p, "MATCH(", 0);
  }

  lemma MatchRankBinds(col: string, v: Value)
    requires IsColumn(col)
    ensures Tidy(SearchMatch(col) + " DESC") && Marks(SearchMatch(col) + " DESC") == 1
    ensures Bind(SearchMatch(col) + " DESC", [v])
         == Chars(MatchHead(col)) + ([Arg(v)] + (Chars(MatchTail()) + Chars(" DESC")))
  {
    hide IsColumn, Bind, Marks, Closed, QuotedMarks, Chars, MatchHead, MatchTail, Inert;
    ColumnIsInert(col);
    MatchPlain(col);
    SearchTextsMysql(col);
    InertIsClosed(MatchHead(col));
    MarkBetween(MatchHead(col), MatchTail() + " DESC", v);
    CharsConcat(MatchTail(), " DESC");
    assert SearchMatch(col) + " DESC" == MatchHead(col) + "?" + (MatchTail() + " DESC");
  }

  // And on MySQL
  lemma MatchRankReads(col: string, v: Value)
    requires IsColumn(col)
    ensures Marks(SearchMatch(col) + " DESC") == 1
    ensures ReadRank(Bind(SearchMatch(col) + " DESC", [v])) == Some((col, v, true))
  {
    hide IsColumn, ReadMatch, Bind, Marks, Closed, QuotedMarks, Chars, MatchHead, MatchTail, SearchMatch;
    MatchRankBinds(col, v);
    MatchReads(col, v, Chars(" DESC"));
  }

  lemma RankSmooth(col: string, v: Value)
    requires IsColumn(col) && Marks(SearchRank(col)) == 1
    ensures Smooth(Bind(SearchRank(col), [v]), Outside)
  {
    hide IsColumn, Bind, Marks, Closed, QuotedMarks, Chars, SearchText, SearchRank, Smooth, Balanced;
    RankBinds(col, v);
    SearchBinds(col, ", ", v);
    SearchTextBalanced(col, v);
    var c := Bind(SearchText(col, ", "), [v]);
    DescSmooth();
    SmoothGroup(c, Chars(" DESC"));
    SmoothRankWords(Grouped(c) + Chars(" DESC"));
    RankGroups(c);
  }

  lemma RankGroups(c: seq<Piece>)
    ensures Chars("ts_rank(") + (c + Chars(") DESC")) == Chars("ts_rank") + (Grouped(c) + Chars(" DESC"))
  {
    CharsConcat("ts_rank", "(");
    assert "ts_rank" + "(" == "ts_rank(" && ")" + " DESC" == ") DESC";
    CharsConcat(")", " DESC");
    assert Chars("(") == [Ch('(')] && Chars(")") == [Ch(')')];
  }

  lemma DescSmooth()
    ensures Smooth(Chars(" DESC"), Outside)
  {
    hide Smooth, Chars;
    assert Smooth([], Outside) by { NothingSmooth(); }
    SmoothWord("DESC", []);
    FirstOf("DESC", []);
    SmoothBlanks(" ", Chars("DESC") + []);
    CharsConcat(" ", "DESC");
    assert " " + "DESC" == " DESC";
    assert Chars(" DESC") == Chars(" ") + (Chars("DESC") + []);
  }

  lemma SmoothRankWords(rest: seq<Piece>)
    requires Smooth(rest, Outside)
    ensures Smooth(Chars("ts_rank") + rest, Outside) && Smooth(Chars("MATCH") + rest, Outside)
    ensures Smooth(Chars(" AGAINST") + rest, Outside)
  {
    hide Smooth, Chars;
    SmoothWord("ts_rank", rest);
    SmoothWord("MATCH", rest);
    SmoothWord("AGAINST", rest);
    FirstOf("AGAINST", rest);
    SmoothBlanks(" ", Chars("AGAINST") + rest);
    CharsConcat(" ", "AGAINST");
    assert " " + "AGAINST" == " AGAINST";
    assert Chars(" AGAINST") + rest == Chars(" ") + (Chars("AGAINST") + rest);
  }

  lemma SearchTextBalanced(col: string, v: Value)
    requires IsColumn(col) && Marks(SearchText(col, ", ")) == 1
    ensures Balanced(Bind(SearchText(col, ", "), [v]))
  {
    hide IsColumn, Balanced, Neutral, Plain, SearchText, Marks, Bind;
    ColumnIsPlain(col);
    LanguageNeutral(col);
    assert Plain("?") && Plain("to_tsvector") by { WordsPlain(); }
    LanguageNeutral("?");
    CallNeutral("to_tsvector", "(" + (Language() + ", " + col) + ")");
    assert Plain(", plainto_tsquery") by { PlainWord(", plainto_tsquery"); }
    CallNeutral(", plainto_tsquery", "(" + (Language() + ", " + "?") + ")");
    NeutralConcat("to_tsvector" + ("(" + (Language() + ", " + col) + ")"),
                  ", plainto_tsquery" + ("(" + (Language() + ", " + "?") + ")"));
    SearchTextParts(col);
    NeutralIsBalanced(SearchText(col, ", "));
    BindBalanced(SearchText(col, ", "), [v]);
  }

  lemma SearchTextParts(col: string)
    ensures SearchText(col, ", ")
      == "to_tsvector" + ("(" + (Language() + ", " + col) + ")")
         + (", plainto_tsquery" + ("(" + (Language() + ", " + "?") + ")"))
  {
    hide Language;
    assert "to_tsvector(" == "to_tsvector" + "(";
    assert ", " + "plainto_tsquery(" == ", plainto_tsquery" + "(";
    SearchRegroups("to_tsvector", Language(), col, ", plainto_tsquery");
  }

  lemma ColumnIsPlain(col: string)
    requires IsColumn(col)
    ensures Plain(col)
  {
    hide IsColumn;
    ColumnChars(col);
  }

  lemma MatchRankSmooth(col: string, v: Value)
    requires IsColumn(col) && Marks(SearchMatch(col) + " DESC") == 1
    ensures Smooth(Bind(SearchMatch(col) + " DESC", [v]), Outside)
  {
    hide IsColumn, Bind, Marks, Closed, QuotedMarks, Chars, SearchMatch, Smooth, Balanced, MatchHead, MatchTail, Plain, Neutral;
    MatchRankBinds(col, v);
    ColumnIsPlain(col);
    PlainIsNeutral(col);
    NeutralIsBalanced(col);
    var mode := [Arg(v)] + Chars(" IN NATURAL LANGUAGE MODE");
    ModeBalanced(v);
    DescSmooth();
    SmoothGroup(mode, Chars(" DESC"));
    var rest := Grouped(mode) + Chars(" DESC");
    SmoothRankWords(rest);
    SmoothGroup(Chars(col), Chars(" AGAINST") + rest);
    SmoothRankWords(Grouped(Chars(col)) + (Chars(" AGAINST") + rest));
    MatchGroups(col, v);
  }

  lemma ModeBalanced(v: Value)
    ensures Balanced([Arg(v)] + Chars(" IN NATURAL LANGUAGE MODE"))
  {
    hide After, Plain, Neutral;
    PlainWord(" IN NATURAL LANGUAGE MODE");
    PlainIsNeutral(" IN NATURAL LANGUAGE MODE");
    NeutralIsBalanced(" IN NATURAL LANGUAGE MODE");
    AfterOne(Arg(v), Outside);
    AfterConcat([Arg(v)], Chars(" IN NATURAL LANGUAGE MODE"), Outside);
  }

  lemma MatchGroups(col: string, v: Value)
    ensures Chars(MatchHead(col)) + ([Arg(v)] + (Chars(MatchTail()) + Chars(" DESC")))
         == Chars("MATCH") + (Grouped(Chars(col))
            + (Chars(" AGAINST") + (Grouped([Arg(v)] + Chars(" IN NATURAL LANGUAGE MODE")) + Chars(" DESC"))))
  {
    hide Chars;
    CharsConcat("MATCH" + ("(" + col + ")") + " AGAINST", "(");
    CharsConcat("MATCH" + ("(" + col + ")"), " AGAINST");
    CharsConcat("MATCH", "(" + col + ")");
    CharsConcat("(" + col, ")");
    CharsConcat("(", col);
    CharsConcat(" IN NATURAL LANGUAGE MODE", ")");
    ParenChars();
  }

  lemma ParenChars()
    ensures Chars("(") == [Ch('(')] && Chars(")") == [Ch(')')]
  {
  }

  // ---------- what the typed calls add ----------

  // One condition more, which reads as `cond`
  ghost predicate Adds(before: Builder, after: Builder, cond: Cond, or: bool) {
    var n := |before.where|;
    && |before.given| == n && |after.where| == n + 1 && |after.given| == n + 1
    && after.where[..n] == before.where && after.given[..n] == before.given && after.where[n].or == or
    && Marks(after.where[n].cond) == |after.given[n]|
    && ReadCondition(Bind(after.where[n].cond, after.given[n])) == Some(cond)
  }

  lemma AddingAdds(b: Builder, text: string, args: seq<Value>, or: bool, cond: Cond)
    requires |b.given| == |b.where| && Marks(text) == |args| && ReadCondition(Bind(text, args)) == Some(cond)
    ensures Adds(b, Adding(b, text, args, or), cond, or)
  {
    hide ReadCondition, Bind, Marks;
  }

  lemma OpReads(b: Builder, col: string, op: string, val: Value, or: bool)
    requires |b.given| == |b.where| && IsColumn(col) && IsOperator(op)
    ensures Adds(b, Apply(b, WhereOp(col, op, val, or)), Compare(col, op, val), or)
  {
    hide ReadCondition, Bind, Marks, IsColumn, ValidIdent, IsOperator, Adds;
    ColumnIsTerm(col);
    OpConditionReads(col, op, val);
    AddingAdds(b, col + " " + op + " ?", [val], or, Compare(col, op, val));
  }

  lemma NullReads(b: Builder, col: string, negated: bool)
    requires |b.given| == |b.where| && IsColumn(col)
    ensures Adds(b, Apply(b, WhereNull(col, if negated then "IS NOT NULL" else "IS NULL")),
                 if negated then NotNull(col) else IsNull(col), false)
  {
    hide ReadCondition, Bind, Marks, IsColumn, ValidIdent, Adds;
    var test := if negated then "IS NOT NULL" else "IS NULL";
    ColumnIsTerm(col);
    NullTestReads(col, negated);
    AddingAdds(b, col + " " + test, [], false, if negated then NotNull(col) else IsNull(col));
  }

  // The values of a WhereIn: listed one by one, or in a single slice
  ghost predicate Lists(vals: seq<Value>, items: seq<Value>) {
    || vals == [SliceValue(items)]
    || (vals == items && !(|vals| == 1 && (vals[0].SliceValue? || vals[0].BytesValue?)))
    || (exists bytes :: vals == [BytesValue(bytes)] && |items| == |bytes|
                     && forall i :: 0 <= i < |items| ==> items[i] == SizedInt(8, false, bytes[i]))
  }

  // No row for an empty list, membership for one of at most 5000 values, an error beyond
  lemma InReads(b: Builder, col: string, vals: seq<Value>, items: seq<Value>)
    requires |b.given| == |b.where| && IsColumn(col) && Lists(vals, items)
    ensures var after := Apply(b, WhereIn(col, vals));
      if items == [] then Adds(b, after, Never, false)
      else if |items| <= 5000 then Adds(b, after, Among(col, items), false)
      else after == b.(err := Some(TooManyValues))
  {
    hide ReadCondition, Bind, Marks, IsColumn, ValidIdent, Adds, InCondition;
    ColumnIsTerm(col);
    assert Expanded(vals) == items by { ListsExpanded(vals, items); }
    NeverReads();
    if items == [] {
      AddingAdds(b, "1 = 0", [], false, Never);
    } else {
      InConditionReads(col, items);
      AddingAdds(b, InCondition(col, |items|), items, false, Among(col, items));
    }
  }

  lemma ListsExpanded(vals: seq<Value>, items: seq<Value>)
    requires Lists(vals, items)
    ensures Expanded(vals) == items
  {
  }

  // A full-text search filters by the term and, where the driver ranks, orders by relevance.
  lemma SearchRanks(b: Builder, col: string, term: string)
    requires |b.given| == |b.where| && IsColumn(col) && (IsPG(b.driver) || b.driver == "mysql")
    requires FieldOf(b.meta.fields, col).Some? && FieldOf(b.meta.fields, col).value.fts
    ensures var after, v := Apply(b, Search(col, term)), TextValue(term);
      && Adds(b, after, Matches(col, v), false)
      && |after.orderBy| == 1 && Marks(after.orderBy[0]) == |after.rankArgs|
      && ReadRank(Bind(after.orderBy[0], after.rankArgs)) == Some((col, v, true))
  {
    hide ReadCondition, ReadRank, Bind, Marks, IsColumn, ValidIdent, Adds, SearchCondition, SearchRank, SearchMatch, FieldOf;
    var v := TextValue(term);
    ColumnIsTerm(col);
    if IsPG(b.driver) {
      SearchConditionReads(col, v);
      RankReads(col, v);
      AddingAdds(b, SearchCondition(col), [v], false, Matches(col, v));
      SameAdds(b, Adding(b, SearchCondition(col), [v], false), Apply(b, Search(col, term)), Matches(col, v));
    } else {
      SearchMatchReads(col, v);
      MatchRankReads(col, v);
      AddingAdds(b, SearchMatch(col), [v], false, Matches(col, v));
      SameAdds(b, Adding(b, SearchMatch(col), [v], false), Apply(b, Search(col, term)), Matches(col, v));
    }
  }

  // On SQLite it joins the shadow table by row id, filters there and orders by its rank.
  lemma SearchJoins(b: Builder, col: string, term: string)
    requires |b.given| == |b.where| && (b.driver == "sqlite" || b.driver == "sqlite3") && b.err == None
    requires IsName(col) && IsName(b.meta.table) && (b.meta.pk.Some? ==> IsName(b.meta.pk.value))
    requires FieldOf(b.meta.fields, col).Some? && FieldOf(b.meta.fields, col).value.fts
    ensures var after := Apply(b, Search(col, term));
      var shadow, n := b.meta.table + "_" + col + "_fts", |b.joins|;
      var pk := b.meta.table + "." + (if b.meta.pk.Some? then b.meta.pk.value else "id");
      && after.err == None && Adds(b, after, Compare(shadow, "MATCH", TextValue(term)), false)
      && |after.joins| == n + 1 && after.joins[..n] == b.joins
      && IsJoin(after.joins[n], JoinRead("INNER", shadow, shadow + ".rowid", pk))
      && |after.orderBy| == 1 && Ordering(after.orderBy[0]) == Some((shadow + ".rank", false))
  {
    hide ReadCondition, Bind, Marks, IsColumn, IsName, ValidIdent, ValidJoinOn, Adds, FieldOf, IsJoin, Ordering;
    var shadow, v := SearchShadow(b.meta, col), TextValue(term);
    var key := if b.meta.pk.Some? then b.meta.pk.value else "id";
    NameIsColumn(col);
    ColumnIsTerm(col);
    ShadowName(b.meta.table, col);
    var joined := Joining(b, "INNER", shadow, shadow + ".rowid = " + b.meta.table + "." + key);
    ShadowIsJoined(b, shadow, key);
    OnText(shadow, b.meta.table, key);
    OpConditionReads(shadow, "MATCH", v);
    AddingAdds(joined, shadow + " MATCH ?", [v], false, Compare(shadow, "MATCH", v));
    var mid := Adding(joined, shadow + " MATCH ?", [v], false);
    AddsFrom(b, joined, mid, Compare(shadow, "MATCH", v));
    SameAdds(b, mid, Apply(b, Search(col, term)), Compare(shadow, "MATCH", v));
    ColumnOrdering(shadow + ".rank");
  }

  lemma ShadowIsJoined(b: Builder, shadow: string, key: string)
    requires IsName(shadow) && IsName(b.meta.table) && (b.meta.pk.Some? ==> key == b.meta.pk.value && IsName(key))
    requires b.meta.pk.None? ==> key == "id"
    ensures var joined := Joining(b, "INNER", shadow, shadow + ".rowid = " + b.meta.table + "." + key);
      var n := |b.joins|;
      && joined == b.(joins := joined.joins) && |joined.joins| == n + 1 && joined.joins[..n] == b.joins
      && IsJoin(joined.joins[n], JoinRead("INNER", shadow, shadow + ".rowid", b.meta.table + "." + key))
    ensures IsColumn(shadow) && IsColumn(shadow + ".rank")
  {
    hide IsColumn, IsName, ValidIdent, ValidJoinOn, IsJoin;
    NameIsColumn(shadow);
    ColumnIsTerm(shadow);
    assert IsName("rowid") && IsName("id") by { ShortNames(); }
    Columns(shadow, b.meta.table, key);
    OnReads(shadow, "rowid", b.meta.table, key);
    JoinOf("INNER", shadow, shadow + ".rowid", b.meta.table + "." + key);
    OnText(shadow, b.meta.table, key);
  }

  lemma OnText(shadow: string, table: string, key: string)
    ensures shadow + ".rowid = " + table + "." + key == shadow + "." + "rowid" + " = " + (table + "." + key)
    ensures shadow + ".rowid" == shadow + "." + "rowid"
    ensures shadow + " MATCH ?" == shadow + " " + "MATCH" + " ?"
  {
    assert ".rowid = " == "." + "rowid" + " = " && ".rowid" == "." + "rowid";
    assert " MATCH ?" == " " + "MATCH" + " ?";
  }

  // Only the conditions matter.
  lemma SameAdds(b: Builder, mid: Builder, after: Builder, cond: Cond)
    requires Adds(b, mid, cond, false) && after.where == mid.where && after.given == mid.given
    ensures Adds(b, after, cond, false)
  {
    hide ReadCondition, Bind, Marks;
  }

  lemma AddsFrom(b: Builder, joined: Builder, after: Builder, cond: Cond)
    requires joined.where == b.where && joined.given == b.given && Adds(joined, after, cond, false)
    ensures Adds(b, after, cond, false)
  {
    hide ReadCondition, Bind, Marks;
  }

  lemma ShadowName(table: string, col: string)
    requires IsName(table) && IsName(col)
    ensures IsName(table + "_" + col + "_fts")
  {
    hide NameLength;
    Pieces();
    NamesJoined(table, "_");
    NamesJoined(table + "_", col);
    NamesJoined(table + "_" + col, "_fts");
    assert (table + "_" + col + "_fts")[0] == table[0];
  }

  lemma Columns(shadow: string, table: string, key: string)
    requires IsName(shadow) && IsName(table) && IsName(key)
    ensures IsColumn(shadow + ".rowid") && IsColumn(shadow + ".rank") && IsColumn(table + "." + key)
  {
    hide IsName, IsColumn;
    assert IsName("rowid") && IsName("rank") by { ShortNames(); }
    TwoNamesAreColumn(shadow, "rowid");
    TwoNamesAreColumn(shadow, "rank");
    TwoNamesAreColumn(table, key);
    Dots(shadow);
  }

  lemma Dots(s: string)
    ensures s + ".rowid" == s + "." + "rowid" && s + ".rank" == s + "." + "rank"
  {
    assert ".rowid" == "." + "rowid" && ".rank" == "." + "rank";
  }

  lemma ShortNames()
    ensures IsName("rowid") && IsName("rank") && IsName("id")
  {
    ShortWords();
    AllWord("rowid");
    AllWord("rank");
    AllWord("id");
  }

  lemma ShortWords()
    ensures forall i :: 0 <= i < 5 ==> IsWordChar("rowid"[i])
    ensures forall i :: 0 <= i < 4 ==> IsWordChar("rank"[i])
    ensures forall i :: 0 <= i < 2 ==> IsWordChar("id"[i])
  {
  }

  lemma ColumnTrims(col: string)
    requires IsColumn(col)
    ensures Trimmed(col)
  {
    hide IsColumn;
    ColumnChars(col);
  }

  lemma ColumnOrdering(col: string)
    requires IsColumn(col)
    ensures Ordering(col) == Some((col, false))
  {
    hide IsColumn, AfterQualified, TrimSpace;
    ColumnTrimmed(col, "");
    assert col + "" == col;
    ColumnThen(col, "");
  }

  // A join condition of two dotted names
  lemma OnReads(a: string, b: string, c: string, d: string)
    requires IsName(a) && IsName(b) && IsName(c) && IsName(d)
    ensures ValidJoinOn(a + "." + b + " = " + (c + "." + d))
  {
    hide IsName, EatName, TrimSpace, AfterDotted, SkipSpaces;
    var right := c + "." + d;
    var t := a + "." + b + " = " + right;
    NameEnds(a);
    NameEnds(d);
    assert t[0] == a[0] && t[|t| - 1] == d[|d| - 1];
    assert TrimSpace(t) == t by { TrimsToItself(t); }
    DottedThen(a, b, " = " + right);
    assert t == a + "." + b + (" = " + right);
    NameEnds(c);
    BlanksThen(" ", "= " + right);
    assert " " + ("= " + right) == " = " + right;
    assert ("= " + right)[1..] == " " + right;
    BlanksThen(" ", right);
    DottedThen(c, d, "");
    assert right + "" == right;
    assert SkipSpaces(" = " + right) == "= " + right;
  }

  lemma TrimsToItself(t: string)
    requires t != "" && !IsSpace(t[0]) && !IsSpace(t[|t| - 1])
    ensures TrimSpace(t) == t
  {
    TrimFuncIdentity(t, IsSpace);
  }

  lemma NameEnds(s: string)
    requires IsName(s)
    ensures s != "" && IsWordChar(s[0]) && IsWordChar(s[|s| - 1])
  {
    NameFacts(s);
    NameChars(s);
  }

  lemma DottedThen(a: string, b: string, tail: string)
    requires IsName(a) && IsName(b) && (tail != "" ==> !IsWordChar(tail[0]))
    ensures AfterDotted(a + "." + b + tail) == Some(tail)
  {
    hide IsName, EatName;
    EatNameThen(a, "." + (b + tail));
    EatNameThen(b, tail);
    assert a + "." + b + tail == a + ("." + (b + tail)) && ("." + (b + tail))[1..] == b + tail;
  }

  lemma JoinOf(kind: string, table: string, left: string, right: string)
    requires (kind == "INNER" || kind == "LEFT") && IsColumn(table) && IsColumn(left) && IsColumn(right)
    ensures IsJoin(kind + " JOIN " + table + " ON " + (left + " = " + right), JoinRead(kind, table, left, right))
  {
    hide IsColumn;
    var j := JoinRead(kind, table, left, right);
    assert Blank(" ");
    assert kind + " JOIN " + table + " ON " + (left + " = " + right) == JoinParts(j, " ", " ") by {
      assert " = " == " " + "=" + " ";
    }
  }
}
