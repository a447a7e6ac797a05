/** The server's side of the builder. The statement a query sends reaches the server as the calls meant it: on
    PostgreSQL, where the placeholders are numbered, exactly when no raw condition has a question mark in
    quotes; on the other drivers always. */
module QueryServer {
  import opened GoStrings
  import opened SqlQuotes
  import opened SqlBinding
  import opened Identifiers
  import opened QueryBuilder

  // Text that can follow a placeholder
  predicate Follows(s: string) { s != "" ==> !IsDigit(s[0]) }

  // Closed quotes, and safe to number
  predicate Steady(s: string) { Closed(s) && ServerSafe(s) }

  // Nothing that quoting or numbering could touch
  predicate Quiet(s: string) { Inert(s) && '$' !in s }

  lemma {:induction false} SafeFromConcat(a: string, b: string, q: Option<char>)
    requires SafeFrom(a, q) && SafeFrom(b, QuoteAfter(a, q)) && Follows(b)
    ensures SafeFrom(a + b, q)
  {
    if a == "" {
      assert a + b == b;
    } else {
      assert (a + b)[1..] == a[1..] + b;
      SafeFromConcat(a[1..], b, QuoteStep(q, a[0]));
      assert |a| > 1 ==> (a + b)[1] == a[1];
      assert |a| == 1 && b != "" ==> (a + b)[1] == b[0];
    }
  }

  lemma SteadyConcat(a: string, b: string)
    requires Steady(a) && Steady(b) && Follows(b)
    ensures Steady(a + b)
  {
    SafeFromConcat(a, b, None);
    ClosedConcat(a, b);
  }

  lemma {:induction false} QuietSteady(s: string)
    requires Quiet(s)
    ensures Steady(s)
  {
    InertIsClosed(s);
    QuietSafe(s);
  }

  lemma QuietTail(s: string)
    requires Quiet(s) && s != ""
    ensures Quiet(s[1..])
  {
    forall c | c in s[1..]
      ensures c in s
    {
      assert s == [s[0]] + s[1..];
    }
  }

  lemma QuietConcat(a: string, b: string)
    requires Quiet(a) && Quiet(b)
    ensures Quiet(a + b)
  {
  }

  lemma QuietWord(s: string)
    requires forall i :: 0 <= i < |s| ==> s[i] != '?' && s[i] != '$' && !IsQuote(s[i])
    ensures Quiet(s)
  {
  }

  lemma {:induction false} QuietSafe(s: string)
    requires Quiet(s)
    ensures SafeFrom(s, None)
  {
    if s != "" {
      QuietTail(s);
      assert s[0] in s;
      QuietSafe(s[1..]);
    }
  }

  // A steady text after a quiet one, whatever it starts with
  lemma {:induction false} QuietThen(a: string, b: string)
    requires Quiet(a) && Steady(b)
    ensures Steady(a + b)
  {
    if a == "" {
      assert a + b == b;
    } else {
      QuietTail(a);
      assert a[0] in a && (a + b)[1..] == a[1..] + b;
      QuietThen(a[1..], b);
    }
  }

  lemma MarkSteady()
    ensures Steady("?")
  {
  }

  // A placeholder between texts
  lemma SteadyMark(a: string, b: string)
    requires Quiet(a) || Steady(a)
    requires Quiet(b) && Follows(b)
    ensures Steady(a + "?" + b)
  {
    hide Steady, Quiet;
    MarkSteady();
    QuietSteady(b);
    if Quiet(a) {
      QuietThen(a, "?");
    } else {
      SteadyConcat(a, "?");
    }
    SteadyConcat(a + "?", b);
  }

  lemma {:induction false} InsideSafe(w: string, c: char)
    requires c !in w
    ensures SafeFrom(w, Some(c))
  {
    if w != "" {
      InsideSafe(w[1..], c);
    }
  }

  lemma QuotedSteady(w: string)
    requires '\'' !in w
    ensures Steady("'" + w + "'")
  {
    InsideSafe(w, '\'');
    InsideScan(w, '\'');
    QuoteAlone();
    QuoteSafe();
    if w == "" {
      assert "'" + w == "'";
    } else {
      QuoteThen(w);
    }
    ScanConcat("'", w, None);
    SafeFromConcat("'" + w, "'", None);
    QuotedWord(w);
  }

  lemma QuoteThen(w: string)
    requires SafeFrom(w, Some('\''))
    ensures SafeFrom("'" + w, None)
  {
    assert ("'" + w)[1..] == w;
  }

  lemma QuoteSafe()
    ensures SafeFrom("'", None) && SafeFrom("'", Some('\''))
  {
  }

  lemma {:induction false} SteadyJoin(parts: seq<string>)
    requires forall p :: p in parts ==> Steady(p)
    ensures Steady(Join(parts, ", "))
  {
    hide Steady, Quiet;
    if parts == [] {
      NothingSteady();
    } else if |parts| > 1 {
      SteadyJoin(parts[1..]);
      LinksQuiet();
      QuietThen(", ", Join(parts[1..], ", "));
      SteadyConcat(parts[0], ", " + Join(parts[1..], ", "));
      assert parts[0] + ", " + Join(parts[1..], ", ") == parts[0] + (", " + Join(parts[1..], ", "));
    }
  }

  lemma NothingSteady()
    ensures Steady("")
  {
  }

  lemma LinksQuiet()
    ensures Quiet(", ") && Quiet("(") && Quiet(")") && Quiet(" AND ") && Quiet(" OR ") && Quiet("")
    ensures Quiet(" WHERE ") && Quiet(" ORDER BY ") && Quiet(" LIMIT ") && Quiet(" OFFSET ")
  {
  }

  lemma {:induction false} SteadyClauses(where: seq<Clause>)
    requires forall w :: w in where ==> Steady(w.cond)
    ensures Steady(ClausesText(where))
  {
    hide Steady, Quiet;
    if where == [] {
      NothingSteady();
    } else {
      var n := |where| - 1;
      SteadyClauses(where[..n]);
      SteadyClause(ClausesText(where[..n]), if n > 0 then Connective(where[n].or) else "", where[n].cond);
    }
  }

  lemma SteadyClause(text: string, link: string, cond: string)
    requires Steady(text) && Steady(cond) && (link == " AND " || link == " OR " || link == "")
    ensures Steady(text + link + ("(" + cond + ")"))
  {
    hide Steady, Quiet;
    LinksQuiet();
    QuietSteady(link);
    SteadyConcat(text, link);
    QuietThen("(", cond);
    QuietSteady(")");
    SteadyConcat("(" + cond, ")");
    SteadyConcat(text + link, "(" + cond + ")");
  }

  // ---------- the invariant ----------

  ghost predicate AllQuiet(parts: seq<string>) { forall p :: p in parts ==> Quiet(p) }

  ghost predicate QuietNames(b: Builder) {
    && Quiet(b.schema) && Quiet(b.meta.table) && AllQuiet(b.cols) && AllQuiet(b.joins)
    && (b.meta.pk.Some? ==> Quiet(b.meta.pk.value))
    && (forall f :: f in b.meta.fields ==> Quiet(f.name))
  }

  ghost predicate Safe(b: Builder) {
    && QuietNames(b)
    && (forall w :: w in b.where ==> Steady(w.cond))
    && (forall t :: t in b.orderBy ==> Steady(t))
  }

  // Only raw conditions can fail this.
  ghost predicate CallSafe(c: Call) {
    && (c.Where? ==> Steady(c.cond))
    && (c.WhereOp? ==> Quiet(c.op))
    && (c.WhereNull? ==> Quiet(c.test))
    && (c.JoinOn? ==> Quiet(c.kind))
  }

  lemma CleanIsQuiet(s: string)
    requires Clean(s)
    ensures Quiet(s)
  {
    CleanIsInert(s);
    assert Foreign('$');
  }

  lemma IdentQuiet(s: string)
    requires ValidIdent(s)
    ensures Quiet(s)
  {
    ValidIdentClean(s);
    CleanIsQuiet(s);
  }

  lemma {:induction false} PlaceholdersSteady(n: nat)
    ensures Steady(Placeholders(n))
  {
    hide Steady, Quiet;
    MarkSteady();
    if n == 0 {
      NothingSteady();
    } else if n > 1 {
      PlaceholdersSteady(n - 1);
      LinksQuiet();
      QuietSteady(", ");
      SteadyConcat(Placeholders(n - 1), ", ");
      SteadyConcat(Placeholders(n - 1) + ", ", "?");
    }
  }

  lemma InSteady(col: string, n: nat)
    requires Quiet(col)
    ensures Steady(InCondition(col, n))
  {
    hide Steady, Placeholders;
    PlaceholdersSteady(n);
    assert Quiet(col + " IN (");
    QuietThen(col + " IN (", Placeholders(n));
    LinksQuiet();
    QuietSteady(")");
    SteadyConcat(col + " IN (" + Placeholders(n), ")");
  }

  lemma OpSteady(col: string, op: string)
    requires Quiet(col) && Quiet(op)
    ensures Steady(col + " " + op + " ?") && Steady(col + " " + op)
  {
    hide Steady;
    assert Quiet(col + " " + op + " ");
    LinksQuiet();
    SteadyMark(col + " " + op + " ", "");
    assert col + " " + op + " ?" == col + " " + op + " " + "?" + "";
    QuietSteady(col + " " + op);
  }

  lemma SearchWordsQuiet(col: string)
    requires Quiet(col)
    ensures Quiet("to_tsvector(") && Quiet(", " + col + ")") && Quiet("ts_rank(")
    ensures Quiet(" @@ plainto_tsquery(") && Quiet(", plainto_tsquery(") && Quiet(")) DESC")
  {
    hide Quiet;
    QuietWord("to_tsvector(");
    QuietWord(", ");
    QuietWord(")");
    QuietWord("ts_rank(");
    QuietWord(" @@ plainto_tsquery(");
    QuietWord(", plainto_tsquery(");
    QuietWord(")) DESC");
    QuietConcat(", ", col);
    QuietConcat(", " + col, ")");
  }

  lemma LanguageSteady()
    ensures Steady(Language()) && Follows(Language())
  {
    hide Steady;
    QuotedSteady("portuguese");
  }

  lemma VectorSteady(col: string)
    requires Quiet(col)
    ensures Steady(SearchVector(col)) && Follows(SearchVector(col))
  {
    hide Steady, Quiet, Language;
    SearchWordsQuiet(col);
    LanguageSteady();
    QuietThen("to_tsvector(", Language());
    QuietSteady(", " + col + ")");
    SteadyConcat("to_tsvector(" + Language(), ", " + col + ")");
    assert SearchVector(col) == "to_tsvector(" + Language() + (", " + col + ")");
  }

  // A query in the quoted configuration after a steady text
  lemma QuerySteady(before: string, call: string, after: string)
    requires Steady(before) && Quiet(call) && call != "" && !IsDigit(call[0]) && Quiet(after) && Follows(after)
    ensures Steady(before + call + Language() + ", " + "?" + after)
  {
    hide Steady, Quiet, Language;
    LanguageSteady();
    LinksQuiet();
    QuietSteady(call);
    SteadyConcat(before, call);
    SteadyConcat(before + call, Language());
    QuietSteady(", ");
    SteadyConcat(before + call + Language(), ", ");
    SteadyMark(before + call + Language() + ", ", after);
  }

  lemma SearchSteadyPG(col: string)
    requires Quiet(col)
    ensures Steady(SearchCondition(col)) && Steady(SearchRank(col))
  {
    hide Steady, Quiet, Language, SearchVector;
    SearchWordsQuiet(col);
    VectorSteady(col);
    LinksQuiet();
    var vec := SearchVector(col);
    QuerySteady(vec, " @@ plainto_tsquery(", ")");
    QuietThen("ts_rank(", vec);
    QuerySteady("ts_rank(" + vec, ", plainto_tsquery(", ")) DESC");
  }

  lemma SearchSteadyMysql(col: string)
    requires Quiet(col)
    ensures Steady(SearchMatch(col)) && Steady(SearchMatch(col) + " DESC")
  {
    hide Steady, MatchHead, MatchTail;
    MatchPlain(col);
    SteadyMark(MatchHead(col), MatchTail());
    assert Quiet(" DESC");
    QuietSteady(" DESC");
    SteadyConcat(SearchMatch(col), " DESC");
  }

  lemma ShadowQuiet(meta: Meta, col: string)
    requires Quiet(col) && Quiet(meta.table)
    ensures var shadow := SearchShadow(meta, col);
      Quiet(shadow) && Steady(shadow + " MATCH ?") && Steady(shadow + ".rank")
  {
    hide Steady;
    var shadow := SearchShadow(meta, col);
    LinksQuiet();
    QuietSteady(shadow + ".rank");
    SteadyMark(shadow + " MATCH ", "");
    assert shadow + " MATCH ?" == shadow + " MATCH " + "?" + "";
  }

  lemma JoiningSafe(b: Builder, kind: string, table: string, on: string)
    requires Safe(b) && Quiet(kind)
    ensures Safe(Joining(b, kind, table, on))
  {
    hide ValidIdent, ValidJoinOn, Steady;
    if ValidIdent(table) && ValidJoinOn(on) {
      IdentQuiet(table);
      ValidJoinOnClean(on);
      CleanIsQuiet(on);
      assert Quiet(kind + " JOIN " + table + " ON " + on);
    }
  }

  lemma AddingSafe(b: Builder, cond: string, args: seq<Value>, or: bool)
    requires Safe(b) && Steady(cond)
    ensures Safe(Adding(b, cond, args, or))
  {
    hide Steady, Quiet;
  }

  lemma OrderingSafe(b: Builder, term: string, rankArgs: seq<Value>)
    requires Safe(b) && Steady(term)
    ensures Safe(b.(orderBy := [term])) && Safe(b.(orderBy := [term], rankArgs := rankArgs))
  {
    hide Steady, Quiet;
  }

  lemma SearchingSafe(b: Builder, col: string, term: string)
    requires Safe(b) && Quiet(col)
    ensures Safe(Searching(b, col, term))
  {
    hide Safe, Steady, Quiet, SearchCondition, SearchRank, SearchMatch, SearchShadow, Joining;
    var arg := TextValue(term);
    if IsPG(b.driver) {
      SearchSteadyPG(col);
      AddingSafe(b, SearchCondition(col), [arg], false);
      OrderingSafe(Adding(b, SearchCondition(col), [arg], false), SearchRank(col), [arg]);
    } else if b.driver == "mysql" {
      SearchSteadyMysql(col);
      AddingSafe(b, SearchMatch(col), [arg], false);
      OrderingSafe(Adding(b, SearchMatch(col), [arg], false), SearchMatch(col) + " DESC", [arg]);
    } else if b.driver == "sqlite" || b.driver == "sqlite3" {
      assert Quiet(b.meta.table) by { NamesOf(b); }
      ShadowQuiet(b.meta, col);
      var shadow := SearchShadow(b.meta, col);
      var pk := if b.meta.pk.Some? then b.meta.pk.value else "id";
      var on := shadow + ".rowid = " + b.meta.table + "." + pk;
      assert Quiet("INNER") by { KindQuiet(); }
      JoiningSafe(b, "INNER", shadow, on);
      var joined := Joining(b, "INNER", shadow, on);
      AddingSafe(joined, shadow + " MATCH ?", [arg], false);
      OrderingSafe(Adding(joined, shadow + " MATCH ?", [arg], false), shadow + ".rank", []);
    } else {
      FailingSafe(b, UnsupportedDriver);
    }
  }

  lemma KindQuiet()
    ensures Quiet("INNER")
  {
  }

  lemma NamesOf(b: Builder)
    requires Safe(b)
    ensures Quiet(b.meta.table)
  {
  }

  lemma FailingSafe(b: Builder, e: Error)
    requires Safe(b)
    ensures Safe(Failing(b, e))
  {
  }

  lemma ApplySafe(b: Builder, c: Call)
    requires Safe(b) && CallSafe(c)
    ensures Safe(Apply(b, c))
  {
    hide ValidIdent, Steady, Quiet, Searching, Joining, InCondition, FieldOf;
    match c {
      case Select(cols) =>
        forall col | AllValid(cols) && col in cols
          ensures Quiet(col)
        {
          IdentQuiet(col);
        }
      case JoinOn(kind, table, on) => JoiningSafe(b, kind, table, on);
      case WhereOp(col, op, val, or) =>
        if ValidIdent(col) {
          IdentQuiet(col);
          OpSteady(col, op);
        }
      case WhereNull(col, test) =>
        if ValidIdent(col) {
          IdentQuiet(col);
          OpSteady(col, test);
        }
      case WhereIn(col, vals) =>
        if ValidIdent(col) {
          IdentQuiet(col);
          InSteady(col, |Expanded(vals)|);
          NoneSteady();
        }
      case Search(col, term) =>
        if ValidIdent(col) {
          IdentQuiet(col);
          SearchingSafe(b, col, term);
        }
      case OrderBy(cols) =>
        forall col | AllValid(cols) && col in cols
          ensures Steady(col)
        {
          IdentQuiet(col);
          QuietSteady(col);
        }
      case _ =>
    }
  }

  lemma NoneSteady()
    ensures Steady("1 = 0")
  {
    QuietSteady("1 = 0");
  }

  lemma {:induction false} ApplyAllSafe(b: Builder, calls: seq<Call>)
    requires Safe(b) && forall c :: c in calls ==> CallSafe(c)
    ensures Safe(ApplyAll(b, calls))
    decreases |calls|
  {
    hide Apply, Safe, CallSafe;
    if calls != [] {
      assert calls[0] in calls;
      ApplySafe(b, calls[0]);
      ApplyAllSafe(Apply(b, calls[0]), calls[1..]);
    }
  }

  // ---------- the printed statements ----------

  lemma {:induction false} JoinsQuiet(joins: seq<string>)
    requires AllQuiet(joins)
    ensures Quiet(JoinsText(joins))
  {
    if joins != [] {
      JoinsQuiet(joins[..|joins| - 1]);
      assert Quiet(joins[|joins| - 1]);
    }
  }

  lemma {:induction false} JoinQuiet(parts: seq<string>)
    requires AllQuiet(parts)
    ensures Quiet(Join(parts, ", "))
  {
    if |parts| > 1 {
      JoinQuiet(parts[1..]);
      assert Quiet(parts[0]);
    }
  }

  lemma TableQuiet(b: Builder)
    requires Safe(b)
    ensures Quiet(QualifiedTable(b)) && Quiet(FromText(b))
  {
    hide Steady, JoinsText;
    JoinsQuiet(b.joins);
  }

  lemma HeadsQuiet(b: Builder)
    requires Safe(b)
    ensures Quiet(HeadText(b))
    ensures Quiet("SELECT COUNT(*)" + FromText(b)) && Quiet("SELECT 1" + FromText(b))
    ensures Quiet("DELETE FROM " + QualifiedTable(b)) && Quiet("UPDATE " + QualifiedTable(b) + " SET ")
  {
    hide Steady, Quiet, FromText, QualifiedTable, ColumnsText;
    TableQuiet(b);
    ColumnsQuiet(b);
    QuietWord("SELECT ");
    QuietWord("DISTINCT ");
    QuietWord("SELECT COUNT(*)");
    QuietWord("SELECT 1");
    QuietWord("DELETE FROM ");
    QuietWord("UPDATE ");
    QuietWord(" SET ");
    QuietWord("");
    QuietConcat("SELECT COUNT(*)", FromText(b));
    QuietConcat("SELECT 1", FromText(b));
    QuietConcat("DELETE FROM ", QualifiedTable(b));
    QuietConcat("UPDATE ", QualifiedTable(b));
    QuietConcat("UPDATE " + QualifiedTable(b), " SET ");
    var distinct := if b.distinct then "DISTINCT " else "";
    QuietConcat("SELECT ", distinct);
    QuietConcat("SELECT " + distinct, ColumnsText(b));
    QuietConcat("SELECT " + distinct + ColumnsText(b), FromText(b));
  }

  lemma ColumnsQuiet(b: Builder)
    requires Safe(b)
    ensures Quiet(ColumnsText(b))
  {
    hide Steady, Join;
    JoinQuiet(b.cols);
  }

  lemma WhereSteady(b: Builder)
    requires Safe(b)
    ensures Steady(WhereText(b.where)) && Follows(WhereText(b.where))
  {
    hide Steady, Quiet, ClausesText;
    SteadyClauses(b.where);
    LinksQuiet();
    NothingSteady();
    QuietThen(" WHERE ", ClausesText(b.where));
  }

  lemma OrderSteady(b: Builder)
    requires Safe(b)
    ensures Steady(OrderText(b.orderBy)) && Follows(OrderText(b.orderBy))
  {
    hide Steady, Quiet, Join;
    SteadyJoin(b.orderBy);
    LinksQuiet();
    NothingSteady();
    QuietThen(" ORDER BY ", Join(b.orderBy, ", "));
  }

  lemma BodySteady(b: Builder)
    requires Safe(b)
    ensures Steady(HeadText(b) + WhereText(b.where) + OrderText(b.orderBy))
  {
    hide Steady, Quiet, Safe, HeadText, WhereText, OrderText;
    HeadsQuiet(b);
    WhereSteady(b);
    OrderSteady(b);
    QuietThen(HeadText(b), WhereText(b.where));
    SteadyConcat(HeadText(b) + WhereText(b.where), OrderText(b.orderBy));
  }

  lemma LimitsSteady(n: int)
    ensures Steady(LimitText(n)) && Follows(LimitText(n)) && Steady(OffsetText(n)) && Follows(OffsetText(n))
    ensures Steady(" LIMIT ? OFFSET ?")
  {
    hide Steady, Quiet;
    LinksQuiet();
    NothingSteady();
    SteadyMark(" LIMIT ", "");
    SteadyMark(" OFFSET ", "");
    SteadyMark(" LIMIT ", " OFFSET ");
    MarkSteady();
    SteadyConcat(" LIMIT " + "?" + " OFFSET ", "?");
    assert " LIMIT ? OFFSET ?" == " LIMIT " + "?" + " OFFSET " + "?";
    assert LimitText(n) == (if n > 0 then " LIMIT " + "?" + "" else "");
    assert OffsetText(n) == (if n > 0 then " OFFSET " + "?" + "" else "");
  }

  lemma SelectSteady(b: Builder, limit: int)
    requires Safe(b)
    ensures Steady(SelectText(b, limit)) && Steady(PageText(b))
  {
    hide Steady, Quiet, Safe, HeadText, WhereText, OrderText, LimitText, OffsetText;
    BodySteady(b);
    LimitsSteady(limit);
    LimitsSteady(b.offset);
    var t := HeadText(b) + WhereText(b.where) + OrderText(b.orderBy);
    SteadyConcat(t, LimitText(limit));
    SteadyConcat(t + LimitText(limit), OffsetText(b.offset));
    SteadyConcat(t, " LIMIT ? OFFSET ?");
  }

  lemma FiltersSteady(b: Builder)
    requires Safe(b)
    ensures Steady(CountText(b)) && Steady(ExistsText(b)) && Steady(DeleteText(b))
  {
    hide Steady, Safe, WhereText, FromText, QualifiedTable;
    HeadsQuiet(b);
    WhereSteady(b);
    QuietThen("SELECT COUNT(*)" + FromText(b), WhereText(b.where));
    QuietThen("SELECT 1" + FromText(b), WhereText(b.where));
    assert Quiet(" LIMIT 1");
    QuietSteady(" LIMIT 1");
    SteadyConcat("SELECT 1" + FromText(b) + WhereText(b.where), " LIMIT 1");
    QuietThen("DELETE FROM " + QualifiedTable(b), WhereText(b.where));
  }

  lemma {:induction false} AutoNowSteady(fields: seq<Column>, keys: seq<string>)
    requires forall f :: f in fields ==> Quiet(f.name)
    ensures forall t :: t in AutoNow(fields, keys) ==> Steady(t)
  {
    hide Steady;
    if fields != [] {
      var n := |fields| - 1;
      AutoNowSteady(fields[..n], keys);
      assert Quiet(fields[n].name + " = CURRENT_TIMESTAMP");
      QuietSteady(fields[n].name + " = CURRENT_TIMESTAMP");
    }
  }

  lemma AssignmentsSteady(keys: seq<string>)
    requires AllQuiet(keys)
    ensures forall t :: t in Assignments(keys) ==> Steady(t)
  {
    hide Steady;
    forall t | t in Assignments(keys)
      ensures Steady(t)
    {
      var i :| 0 <= i < |keys| && t == keys[i] + " = ?";
      assert Quiet(keys[i]);
      assert Quiet(keys[i] + " = ");
      LinksQuiet();
      SteadyMark(keys[i] + " = ", "");
      assert t == keys[i] + " = " + "?" + "";
    }
  }

  lemma UpdateSteady(b: Builder, keys: seq<string>)
    requires Safe(b) && AllQuiet(keys)
    ensures Steady(UpdateText(b, keys))
  {
    hide Steady, Quiet, WhereText, QualifiedTable, Join, AutoNow, Assignments;
    HeadsQuiet(b);
    WhereSteady(b);
    AutoNowSteady(b.meta.fields, keys);
    AssignmentsSteady(keys);
    SteadyJoin(SetClauses(b, keys));
    var head, set_ := "UPDATE " + QualifiedTable(b) + " SET ", Join(SetClauses(b, keys), ", ");
    QuietThen(head, set_);
    SteadyConcat(head + set_, WhereText(b.where));
  }

  // ---------- the question marks in quotes are those of the conditions ----------

  lemma BodyQuoted(b: Builder)
    requires Sound(b) && ClosedWhere(b.where)
    ensures var text := HeadText(b) + WhereText(b.where) + OrderText(b.orderBy);
      Closed(text) && QuotedMarks(text) == QuotedWhere(b.where)
  {
    hide Marks, Closed, QuotedMarks, WhereText, HeadText, OrderText, Concat, MarksAll, PlainNames, Inert, QuotedWhere;
    HeadPlain(b);
    InertIsClosed(HeadText(b));
    WhereCounts(b.where, b.given);
    OrderBinds(b.orderBy, b.rankArgs);
    ClosedConcat(HeadText(b), WhereText(b.where));
    ClosedConcat(HeadText(b) + WhereText(b.where), OrderText(b.orderBy));
  }

  lemma PageQuoted(b: Builder)
    requires Sound(b) && ClosedWhere(b.where)
    ensures QuotedMarks(PageText(b)) == QuotedWhere(b.where)
  {
    hide Closed, QuotedMarks, WhereText, HeadText, OrderText, Sound, QuotedWhere;
    BodyQuoted(b);
    LimitOffsetBinds(0, 0);
    ClosedConcat(HeadText(b) + WhereText(b.where) + OrderText(b.orderBy), " LIMIT ? OFFSET ?");
  }

  lemma FiltersQuoted(b: Builder)
    requires Sound(b) && ClosedWhere(b.where)
    ensures QuotedMarks(CountText(b)) == QuotedWhere(b.where) && QuotedMarks(ExistsText(b)) == QuotedWhere(b.where)
    ensures QuotedMarks(DeleteText(b)) == QuotedWhere(b.where)
  {
    hide Marks, Closed, QuotedMarks, WhereText, FromText, QualifiedTable, Concat, MarksAll, PlainNames, Inert, QuotedWhere;
    FilterHeads(b);
    WhereCounts(b.where, b.given);
    InertIsClosed("SELECT COUNT(*)" + FromText(b));
    InertIsClosed("SELECT 1" + FromText(b));
    InertIsClosed("DELETE FROM " + QualifiedTable(b));
    InertIsClosed(" LIMIT 1");
    ClosedConcat("SELECT COUNT(*)" + FromText(b), WhereText(b.where));
    ClosedConcat("SELECT 1" + FromText(b), WhereText(b.where));
    ClosedConcat("SELECT 1" + FromText(b) + WhereText(b.where), " LIMIT 1");
    ClosedConcat("DELETE FROM " + QualifiedTable(b), WhereText(b.where));
  }

  lemma UpdateQuoted(b: Builder, keys: seq<string>, vals: seq<Value>)
    requires Sound(b) && ClosedWhere(b.where) && |keys| == |vals| && AllInert(keys)
    ensures QuotedMarks(UpdateText(b, keys)) == QuotedWhere(b.where)
  {
    hide Marks, Closed, QuotedMarks, WhereText, QualifiedTable, Concat, MarksAll, Inert, QuotedWhere, AutoNow, Assignments;
    FilterHeads(b);
    WhereCounts(b.where, b.given);
    AutoNowPlain(b.meta.fields, keys);
    SetBinds(keys, vals, AutoNow(b.meta.fields, keys));
    var head, set_ := "UPDATE " + QualifiedTable(b) + " SET ", Join(SetClauses(b, keys), ", ");
    InertIsClosed(head);
    ClosedConcat(head, set_);
    ClosedConcat(head + set_, WhereText(b.where));
  }

  // ---------- main results ----------

  // No raw condition has a question mark in quotes.
  ghost predicate Unquoted(where: seq<Clause>) { forall w :: w in where ==> QuotedMarks(w.cond) == 0 }

  // With no assumption on the raw conditions but closed quotes and texts that are safe to number: the SELECT
  // reaches the server as meant if and only if the conditions have as many placeholders as arguments
  // altogether and, on PostgreSQL, no question mark in quotes.
  lemma SelectAlignedIff(b: Builder, limit: int)
    requires Sound(b) && ClosedWhere(b.where) && (IsPG(b.driver) ==> Safe(b))
    ensures Aligned(b.driver, SelectText(b, limit), SelectArgs(b, limit))
      <==> Excess(b.where, b.given) == 0 && (IsPG(b.driver) ==> Unquoted(b.where))
  {
    hide Sound, Safe, Aligned, Marks, Closed, QuotedMarks, SelectText, SelectArgs, ServerSafe, Excess;
    SelectCounts(b, limit);
    QuotedWhereIff(b.where);
    if IsPG(b.driver) {
      SelectSteady(b, limit);
    }
    AlignedIff(b.driver, SelectText(b, limit), SelectArgs(b, limit));
  }

  ghost predicate SafeMeta(schema: string, meta: Meta) {
    && Quiet(schema) && Quiet(meta.table) && (meta.pk.Some? ==> Quiet(meta.pk.value))
    && forall f :: f in meta.fields ==> Quiet(f.name)
  }

  lemma FreshSafe(driver: string, schema: string, meta: Meta)
    requires SafeMeta(schema, meta)
    ensures Safe(Fresh(driver, schema, meta)) && PlainMeta(schema, meta)
  {
  }

  lemma MatchedIsClosed(b: Builder)
    requires Sound(b) && Matched(b)
    ensures ClosedWhere(b.where)
  {
    hide Closed, Marks;
    forall w | w in b.where
      ensures Closed(w.cond)
    {
      var i :| 0 <= i < |b.where| && b.where[i] == w;
    }
  }

  // What the calls of a chain make sure of
  lemma ChainReady(driver: string, schema: string, meta: Meta, calls: seq<Call>)
    requires SafeMeta(schema, meta) && WellCalled(calls)
    requires IsPG(driver) ==> forall c :: c in calls ==> CallSafe(c)
    ensures var b := ApplyAll(Fresh(driver, schema, meta), calls);
      && Sound(b) && Matched(b) && ClosedWhere(b.where) && b.driver == driver && (IsPG(driver) ==> Safe(b))
  {
    hide Apply, Sound, MatchedClauses, CallTyped, CallMatched, CallSafe, Safe, SafeMeta, PlainMeta, ClosedWhere, Ranks;
    var b0 := Fresh(driver, schema, meta);
    FreshSafe(driver, schema, meta);
    FreshSound(driver, schema, meta);
    ApplyAllSound(b0, calls);
    SoundShape(ApplyAll(b0, calls));
    MatchedIsClosed(ApplyAll(b0, calls));
    ChainKeepsDriver(b0, calls);
    if IsPG(driver) {
      ApplyAllSafe(b0, calls);
    }
  }

  lemma {:induction false} ChainKeepsDriver(b: Builder, calls: seq<Call>)
    ensures ApplyAll(b, calls).driver == b.driver && ApplyAll(b, calls).meta == b.meta
    decreases |calls|
  {
    hide Apply, Ranks;
    if calls != [] {
      ApplyRanks(b, calls[0]);
      ChainKeepsDriver(Apply(b, calls[0]), calls[1..]);
    }
  }

  // Main result. For every chain of calls, every statement of the query reaches the server as the calls meant
  // it: always off PostgreSQL, and there if and only if no condition has a question mark in quotes.
  lemma ChainOnServer(
    driver: string, schema: string, meta: Meta, calls: seq<Call>, limit: int, pageSize: int, offset: int,
    keys: seq<string>, vals: seq<Value>)
    requires SafeMeta(schema, meta) && WellCalled(calls) && |keys| == |vals| && AllQuiet(keys)
    requires IsPG(driver) ==> forall c :: c in calls ==> CallSafe(c)
    ensures var b := ApplyAll(Fresh(driver, schema, meta), calls);
      var fits := IsPG(driver) ==> Unquoted(b.where);
      && (Aligned(driver, SelectText(b, limit), SelectArgs(b, limit)) <==> fits)
      && (Aligned(driver, PageText(b), PageArgs(b, pageSize, offset)) <==> fits)
      && (Aligned(driver, CountText(b), b.args) <==> fits)
      && (Aligned(driver, ExistsText(b), b.args) <==> fits)
      && (Aligned(driver, DeleteText(b), b.args) <==> fits)
      && (Aligned(driver, UpdateText(b, keys), vals + b.args) <==> fits)
  {
    hide Apply, Sound, Safe, Matched, Marks, Closed, ClosedWhere, QuotedMarks, SelectText, SelectArgs, PageText, PageArgs,
         CountText, ExistsText, DeleteText, UpdateText, ServerSafe, Aligned, MatchedClauses, CallTyped, CallMatched,
         CallSafe, SafeMeta, QuotedWhere, Quiet, Inert, Bind;
    var b := ApplyAll(Fresh(driver, schema, meta), calls);
    ChainReady(driver, schema, meta, calls);
    assert AllInert(keys) by { QuietKeys(keys); }
    StatementsReady(b, limit, pageSize, offset, keys, vals);
    QuotedWhereIff(b.where);
    AlignedIff(driver, SelectText(b, limit), SelectArgs(b, limit));
    AlignedIff(driver, PageText(b), PageArgs(b, pageSize, offset));
    AlignedIff(driver, CountText(b), b.args);
    AlignedIff(driver, ExistsText(b), b.args);
    AlignedIff(driver, DeleteText(b), b.args);
    AlignedIff(driver, UpdateText(b, keys), vals + b.args);
  }

  lemma QuietKeys(keys: seq<string>)
    requires AllQuiet(keys)
    ensures AllInert(keys)
  {
  }

  // Each statement of a ready query: as many placeholders as arguments, quoted marks only from the conditions,
  // and on PostgreSQL safe to number
  lemma StatementsReady(b: Builder, limit: int, pageSize: int, offset: int, keys: seq<string>, vals: seq<Value>)
    requires Sound(b) && Matched(b) && ClosedWhere(b.where) && (IsPG(b.driver) ==> Safe(b))
    requires |keys| == |vals| && AllQuiet(keys) && AllInert(keys)
    ensures Ready(b, SelectText(b, limit), SelectArgs(b, limit)) && Ready(b, PageText(b), PageArgs(b, pageSize, offset))
    ensures Ready(b, CountText(b), b.args) && Ready(b, ExistsText(b), b.args) && Ready(b, DeleteText(b), b.args)
    ensures Ready(b, UpdateText(b, keys), vals + b.args)
  {
    hide Sound, Safe, Marks, Closed, QuotedMarks, SelectText, SelectArgs, PageText, PageArgs, CountText, ExistsText,
         DeleteText, UpdateText, ServerSafe, MatchedClauses, QuotedWhere, Quiet, Inert, Bind, ClosedWhere;
    SelectMeans(b, limit);
    PageMeans(b, pageSize, offset);
    FilterMeans(b);
    UpdateMeans(b, keys, vals);
    SelectCounts(b, limit);
    PageQuoted(b);
    FiltersQuoted(b);
    UpdateQuoted(b, keys, vals);
    if IsPG(b.driver) {
      SelectSteady(b, limit);
      FiltersSteady(b);
      UpdateSteady(b, keys);
    }
  }

  predicate Ready(b: Builder, text: string, args: seq<Value>) {
    Marks(text) == |args| && QuotedMarks(text) == QuotedWhere(b.where) && (IsPG(b.driver) ==> ServerSafe(text))
  }

  // ---------- a witness ----------

  // note = 'why?' AND id = ?
  function Why(): string { "note = " + ("'" + "why?" + "'") + " AND id = " + "?" }

  // One condition with one argument, a question mark in a literal before its placeholder: mysql and sqlite run
  // it as meant, PostgreSQL does not.
  lemma QuotedMarkByDriver(driver: string, schema: string, meta: Meta, v: Value)
    requires SafeMeta(schema, meta)
    ensures var b := ApplyAll(Fresh(driver, schema, meta), [Where(Why(), [v], false)]);
      && CallMatched(Where(Why(), [v], false)) && CallSafe(Where(Why(), [v], false))
      && (Aligned(driver, SelectText(b, 0), SelectArgs(b, 0)) <==> !IsPG(driver))
  {
    hide Why, Marks, Closed, QuotedMarks, ServerSafe, SelectText, SelectArgs, Aligned, SafeMeta, PageText, PageArgs,
         CountText, ExistsText, DeleteText, UpdateText;
    WhyCounts();
    var call := Where(Why(), [v], false);
    var calls := [call];
    var b := ApplyAll(Fresh(driver, schema, meta), calls);
    OneCall(Fresh(driver, schema, meta), call);
    assert b.where == [Clause(Why(), false)];
    assert b.where[0] in b.where;
    ChainOnServer(driver, schema, meta, calls, 0, 0, 0, [], []);
  }

  lemma OneCall(b: Builder, c: Call)
    ensures ApplyAll(b, [c]) == Apply(b, c)
  {
    hide Apply;
    assert [c][1..] == [];
  }

  lemma WhyCounts()
    ensures Steady(Why()) && Marks(Why()) == 1 && QuotedMarks(Why()) == 1
  {
    hide Marks, Closed, QuotedMarks, ServerSafe, Steady, Quiet;
    WhyWords();
    QuotedWord("why?");
    QuotedSteady("why?");
    InertIsClosed("note = ");
    InertIsClosed(" AND id = ");
    OneMarkCounts();
    ClosedConcat("note = ", "'" + "why?" + "'");
    ClosedConcat("note = " + ("'" + "why?" + "'"), " AND id = ");
    ClosedConcat("note = " + ("'" + "why?" + "'") + " AND id = ", "?");
    QuietThen("note = ", "'" + "why?" + "'");
    QuietSteady(" AND id = ");
    SteadyConcat("note = " + ("'" + "why?" + "'"), " AND id = ");
    MarkSteady();
    SteadyConcat("note = " + ("'" + "why?" + "'") + " AND id = ", "?");
  }

  lemma WhyWords()
    ensures Quiet("note = ") && Inert("note = ") && Quiet(" AND id = ") && Inert(" AND id = ")
    ensures Count("why?", '?') == 1 && '\'' !in "why?"
  {
    assert "why?" == "why" + "?";
    CountConcat("why", "?", '?');
    CountZero("why", '?');
    assert Count("?", '?') == 1 by { OneMarkCounted(); }
  }

  lemma OneMarkCounted()
    ensures Count("?", '?') == 1
  {
  }
}
