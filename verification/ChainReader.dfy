/** Main result: for every chain of calls on plain names, the SELECT, the page, the COUNT and the EXISTS of the query
    read back as what the calls built, joins, ranking and all. */
module ChainReader {
  import opened GoStrings
  import opened Patterns
  import opened SqlQuotes
  import opened SqlBinding
  import opened Identifiers
  import opened QueryBuilder
  import opened QueryFilter
  import opened QueryLast
  import opened SqlReader
  import opened QueryReader
  import opened Conditions

  // ---------- ordering terms ----------

  // However its arguments are bound, the term reads as one term.
  ghost predicate SmoothTerm(t: string) {
    forall args: seq<Value> :: |args| == Marks(t) ==> Smooth(Bind(t, args), Outside)
  }

  lemma {:induction false} AllSmooth(orderBy: seq<string>, args: seq<Value>)
    requires AllTidy(orderBy) && MarksAll(orderBy) == |args| && forall t :: t in orderBy ==> SmoothTerm(t)
    ensures forall t :: t in BoundTerms(orderBy, args) ==> Smooth(t, Outside)
  {
    hide Smooth, Bind, Marks, Tidy;
    if orderBy != [] {
      MarksAllCons(orderBy);
      assert orderBy[0] in orderBy && forall t :: t in orderBy[1..] ==> t in orderBy;
      AllSmooth(orderBy[1..], args[Marks(orderBy[0])..]);
    }
  }

  lemma GivenSmooth(t: string)
    requires ValidIdent(t) && Trimmed(t)
    ensures SmoothTerm(t)
  {
    hide ValidIdent, Trimmed, Smooth, Bind, Marks;
    TermSmooth(t);
    IdentIsInert(t);
    InertIsClosed(t);
    forall args: seq<Value> | |args| == Marks(t)
      ensures Smooth(Bind(t, args), Outside)
    {
      assert args == [];
      UnmarkedBinds(t);
    }
  }

  lemma RankTermSmooth(col: string)
    requires IsColumn(col)
    ensures SmoothTerm(SearchRank(col)) && SmoothTerm(SearchMatch(col) + " DESC")
  {
    hide IsColumn, Smooth, Bind, Marks, SearchRank, SearchMatch;
    RankBinds(col, Nil);
    MatchRankBinds(col, Nil);
    forall args: seq<Value> | |args| == 1
      ensures Smooth(Bind(SearchRank(col), args), Outside) && Smooth(Bind(SearchMatch(col) + " DESC", args), Outside)
    {
      assert args == [args[0]];
      RankSmooth(col, args[0]);
      MatchRankSmooth(col, args[0]);
    }
  }

  // ---------- joins ----------

  lemma DottedFirst(t: string) returns (col: string)
    requires AfterDotted(t).Some?
    ensures t == col + AfterDotted(t).value && IsColumn(col)
    ensures AfterDotted(t).value != "" ==> !IsWordChar(AfterDotted(t).value[0])
  {
    hide EatName, IsName, IsColumn;
    var first, after := NameFirst(t);
    var second, rest := NameFirst(after[1..]);
    TwoNamesAreColumn(first, second);
    col := first + "." + second;
    assert after == "." + after[1..];
  }

  // Two dotted names with an equals sign between them, and blanks around it or none
  ghost predicate IsOn(on: string, left: string, right: string) {
    && IsColumn(left) && '.' in left && IsColumn(right) && '.' in right
    && exists a, b :: Blank(a) && Blank(b) && on == left + (a + ("=" + (b + right)))
  }

  lemma DotIn(t: string, col: string)
    requires AfterDotted(t).Some? && t == col + AfterDotted(t).value
    ensures '.' in col
  {
    hide EatName, IsName;
    var first, after := NameFirst(t);
    var second, rest := NameFirst(after[1..]);
    assert after == "." + after[1..] && t == (first + "." + second) + rest;
    assert |col| == |first + "." + second|;
    assert col == t[..|col|] == first + "." + second;
    assert (first + "." + second)[|first|] == '.';
  }

  // The pattern of join conditions accepts exactly these, blanks around them aside.
  lemma AcceptedOn(on: string) returns (left: string, right: string)
    requires ValidJoinOn(on)
    ensures IsOn(TrimSpace(on), left, right)
  {
    hide IsColumn, TrimSpace, AfterDotted;
    var t := TrimSpace(on);
    left := DottedFirst(t);
    DotIn(t, left);
    var rest := AfterDotted(t).value;
    var a := BlanksFirst(rest);
    var equals := SkipSpaces(rest);
    var b := BlanksFirst(equals[1..]);
    right := DottedFirst(SkipSpaces(equals[1..]));
    DotIn(SkipSpaces(equals[1..]), right);
    assert right + "" == right;
    assert equals == "=" + equals[1..];
    assert equals[1..] == b + right;
    assert Blank(a) && Blank(b) && t == left + (a + ("=" + (b + right)));
  }

  lemma DottedReads(col: string, tail: string)
    requires IsColumn(col) && '.' in col && (tail != "" ==> !IsWordChar(tail[0]))
    ensures AfterDotted(col + tail) == Some(tail)
  {
    hide IsName, IsColumn, AfterDotted;
    ColumnShape(col);
    if IsName(col) {
      NameChars(col);
      assert false;
    } else {
      var n :| 0 < n < |col| - 1 && col[n] == '.' && IsName(col[..n]) && IsName(col[n + 1..]);
      assert col == col[..n] + "." + col[n + 1..];
      DottedThen(col[..n], col[n + 1..], tail);
    }
  }

  lemma ValidJoinOnIff(on: string)
    ensures ValidJoinOn(on) <==> exists left, right :: IsOn(TrimSpace(on), left, right)
  {
    hide IsColumn, TrimSpace, AfterDotted, ValidJoinOn, SkipSpaces;
    if ValidJoinOn(on) {
      var left, right := AcceptedOn(on);
    }
    if left, right :| IsOn(TrimSpace(on), left, right) {
      var a, b :| Blank(a) && Blank(b) && TrimSpace(on) == left + (a + ("=" + (b + right)));
      var equals := "=" + (b + right);
      JoinOnReads(TrimSpace(on), left, right, a, b);
      assert ValidJoinOn(on) by { OnFromParts(on, a + equals, equals); }
    }
  }

  lemma JoinOnReads(t: string, left: string, right: string, a: string, b: string)
    requires IsColumn(left) && '.' in left && IsColumn(right) && '.' in right && Blank(a) && Blank(b)
    requires t == left + (a + ("=" + (b + right)))
    ensures var equals := "=" + (b + right);
      AfterDotted(t) == Some(a + equals) && SkipSpaces(a + equals) == equals
      && AfterDotted(SkipSpaces(equals[1..])) == Some("")
  {
    hide IsColumn, AfterDotted, SkipSpaces;
    var equals := "=" + (b + right);
    assert (a + equals)[0] == if a == "" then '=' else a[0];
    DottedReads(left, a + equals);
    BlanksThen(a, equals);
    ColumnChars(right);
    BlanksThen(b, right);
    assert equals[1..] == b + right;
    DottedReads(right, "");
    assert right + "" == right;
  }

  lemma OnFromParts(on: string, rest: string, equals: string)
    requires AfterDotted(TrimSpace(on)) == Some(rest) && SkipSpaces(rest) == equals
    requires equals != "" && equals[0] == '=' && AfterDotted(SkipSpaces(equals[1..])) == Some("")
    ensures ValidJoinOn(on)
  {
    hide TrimSpace, AfterDotted, SkipSpaces;
  }

  lemma AcceptedJoin(kind: string, table: string, on: string) returns (j: JoinRead)
    requires (kind == "INNER" || kind == "LEFT") && IsColumn(table) && ValidJoinOn(on) && Trimmed(on)
    ensures IsJoin(kind + " JOIN " + table + " ON " + on, j) && j.kind == kind && j.table == table && IsOn(on, j.left, j.right)
  {
    hide IsColumn, TrimSpace, AfterDotted, Trimmed, ValidJoinOn;
    TrimSpaceTrims(on);
    var left, right := AcceptedOn(on);
    j := JoinRead(kind, table, left, right);
    var a, b :| Blank(a) && Blank(b) && on == left + (a + ("=" + (b + right)));
    assert kind + " JOIN " + table + " ON " + on == JoinParts(j, a, b);
  }

  ghost predicate ReadableJoin(s: string) { exists j :: IsJoin(s, j) }

  lemma JoinReadable(s: string, j: JoinRead)
    requires IsJoin(s, j)
    ensures ReadableJoin(s)
  {
  }

  lemma {:induction false} AllJoins(joins: seq<string>) returns (read: seq<JoinRead>)
    requires forall s :: s in joins ==> ReadableJoin(s)
    ensures JoinsAre(joins, read)
  {
    hide IsJoin;
    if joins == [] {
      read := [];
    } else {
      var n := |joins| - 1;
      assert joins[n] in joins;
      var j :| IsJoin(joins[n], j);
      var init := AllJoins(joins[..n]);
      read := init + [j];
    }
  }

  // ---------- every call ----------

  // Calls on plain names, with conditions that close their parentheses. Columns carry no direction word,
  // and terms and join conditions no blanks around them.
  ghost predicate PlainCall(c: Call) {
    match c
    case Select(cols) => cols == [] || PlainColumns(cols)
    case JoinOn(kind, table, on) => (kind == "INNER" || kind == "LEFT") && IsColumn(table) && Trimmed(on)
    case Where(cond, args, _) => Closed(cond) && Marks(cond) == |args| && Balanced(Chars(cond))
    case WhereOp(col, op, _, _) => IsColumn(col) && IsOperator(op)
    case WhereNull(col, test) => IsColumn(col) && (test == "IS NULL" || test == "IS NOT NULL")
    case WhereIn(col, _) => IsColumn(col)
    case Search(col, _) => IsName(col)
    case OrderBy(cols) => forall t :: t in cols ==> Trimmed(t)
    case _ => true
  }

  ghost predicate PlainTable(schema: string, meta: Meta) {
    && IsName(meta.table) && (schema == "" || IsName(schema)) && (meta.pk.Some? ==> IsName(meta.pk.value))
    && forall f :: f in meta.fields ==> IsName(f.name)
  }

  lemma PlainIsTyped(c: Call)
    requires PlainCall(c)
    ensures CallTyped(c) && CallMatched(c) && CallBalanced(c)
  {
    hide IsColumn, Trimmed, Balanced;
    match c {
      case WhereOp(col, op, _, _) => OperatorText(op);
      case WhereNull(col, test) => TestText(test);
      case JoinOn(kind, _, _) => assert Inert(kind);
      case _ =>
    }
  }

  lemma OperatorText(op: string)
    requires IsOperator(op)
    ensures Inert(op) && Plain(op)
  {
  }

  lemma TestText(test: string)
    requires test == "IS NULL" || test == "IS NOT NULL"
    ensures Inert(test) && Plain(test)
  {
  }

  ghost predicate Readable(b: Builder) {
    && PlainTable(b.schema, b.meta)
    && (b.cols == [] || PlainColumns(b.cols))
    && (forall s :: s in b.joins ==> ReadableJoin(s))
    && (forall t :: t in b.orderBy ==> SmoothTerm(t))
  }

  lemma SearchReadable(b: Builder, col: string, term: string)
    requires Readable(b) && IsName(col)
    ensures Readable(Searching(b, col, term))
  {
    hide IsName, IsColumn, Readable, ReadableJoin, SmoothTerm, SearchCondition, SearchRank, SearchMatch, SearchShadow, Joining;
    NameIsColumn(col);
    RankTermSmooth(col);
    var arg, shadow := TextValue(term), SearchShadow(b.meta, col);
    var key := if b.meta.pk.Some? then b.meta.pk.value else "id";
    var on := shadow + ".rowid = " + b.meta.table + "." + key;
    assert IsName(b.meta.table) && (b.meta.pk.Some? ==> IsName(b.meta.pk.value)) by { ReadableNames(b); }
    ShadowReadable(b.meta, col);
    JoiningReadable(b, "INNER", shadow, on);
    var joined := Joining(b, "INNER", shadow, on);
    Reordered(b, Adding(b, SearchCondition(col), [arg], false).(orderBy := [SearchRank(col)], rankArgs := [arg]));
    Reordered(b, Adding(b, SearchMatch(col), [arg], false).(orderBy := [SearchMatch(col) + " DESC"], rankArgs := [arg]));
    Reordered(b, Failing(b, UnsupportedDriver));
    Reordered(joined, Adding(joined, shadow + " MATCH ?", [arg], false).(orderBy := [shadow + ".rank"]));
  }

  lemma ReadableNames(b: Builder)
    requires Readable(b)
    ensures IsName(b.meta.table) && (b.meta.pk.Some? ==> IsName(b.meta.pk.value))
  {
  }

  lemma JoiningReadable(b: Builder, kind: string, table: string, on: string)
    requires Readable(b) && ReadableJoin(kind + " JOIN " + table + " ON " + on)
    ensures Readable(Joining(b, kind, table, on))
  {
    hide ReadableJoin, ValidIdent, ValidJoinOn, SmoothTerm, PlainColumns, PlainTable;
  }

  // Conditions, arguments and errors do not matter.
  lemma Reordered(b: Builder, after: Builder)
    requires Readable(b) && after.schema == b.schema && after.meta == b.meta && after.cols == b.cols && after.joins == b.joins
    requires after.orderBy == b.orderBy || forall t :: t in after.orderBy ==> SmoothTerm(t)
    ensures Readable(after)
  {
    hide ReadableJoin, SmoothTerm, PlainColumns, PlainTable;
  }

  // The shadow table's join and ordering on SQLite
  lemma ShadowReadable(meta: Meta, col: string)
    requires IsName(meta.table) && IsName(col) && (meta.pk.Some? ==> IsName(meta.pk.value))
    ensures var shadow := SearchShadow(meta, col);
      var on := shadow + ".rowid = " + meta.table + "." + (if meta.pk.Some? then meta.pk.value else "id");
      ReadableJoin("INNER" + " JOIN " + shadow + " ON " + on) && SmoothTerm(shadow + ".rank")
  {
    hide IsName, IsColumn, SmoothTerm, IsJoin, Trimmed, ValidIdent;
    var shadow := SearchShadow(meta, col);
    var key := if meta.pk.Some? then meta.pk.value else "id";
    assert IsName(key) by { ShortNames(); }
    ShadowName(meta.table, col);
    NameIsColumn(shadow);
    Columns(shadow, meta.table, key);
    OnText(shadow, meta.table, key);
    JoinOf("INNER", shadow, shadow + ".rowid", meta.table + "." + key);
    var on := shadow + ".rowid = " + meta.table + "." + key;
    assert on == shadow + ".rowid" + " = " + (meta.table + "." + key);
    JoinReadable("INNER" + " JOIN " + shadow + " ON " + on,
                 JoinRead("INNER", shadow, shadow + ".rowid", meta.table + "." + key));
    ColumnIsTerm(shadow + ".rank");
    ColumnTrims(shadow + ".rank");
    GivenSmooth(shadow + ".rank");
  }

  lemma ApplyReadable(b: Builder, c: Call)
    requires Readable(b) && PlainCall(c)
    ensures Readable(Apply(b, c))
  {
    hide IsName, IsColumn, SmoothTerm, ReadableJoin, ValidIdent, ValidJoinOn, PlainColumns, Trimmed, Searching, FieldOf,
         InCondition, PlainTable, IsOperator, Balanced;
    match c {
      case JoinOn(kind, table, on) =>
        if ValidIdent(table) && ValidJoinOn(on) {
          var j := AcceptedJoin(kind, table, on);
          JoinReadable(kind + " JOIN " + table + " ON " + on, j);
        }
      case Search(col, term) => SearchReadable(b, col, term);
      case OrderBy(cols) =>
        if AllValid(cols) {
          forall t | t in cols
            ensures SmoothTerm(t)
          {
            GivenSmooth(t);
          }
        }
      case _ =>
    }
  }

  lemma {:induction false} ChainReadable(b: Builder, calls: seq<Call>)
    requires Readable(b) && forall c :: c in calls ==> PlainCall(c)
    ensures Readable(ApplyAll(b, calls))
    decreases |calls|
  {
    hide Readable, PlainCall, Apply;
    if calls != [] {
      assert calls[0] in calls;
      ApplyReadable(b, calls[0]);
      ChainReadable(Apply(b, calls[0]), calls[1..]);
    }
  }

  // ---------- what each call does ----------

  // Only conditions and their arguments change.
  ghost predicate OnlyConditions(b: Builder, after: Builder) {
    after == b.(where := after.where, args := after.args, given := after.given)
  }

  // ---------- refused calls ----------

  // What a call is refused for: a name, term or join condition that does not match its pattern, too many values,
  // or a search that the column or the driver does not support
  ghost predicate Faulty(b: Builder, c: Call) {
    match c
    case Select(cols) => exists col :: col in cols && !ValidIdent(col)
    case JoinOn(_, table, on) => !ValidIdent(table) || !ValidJoinOn(on)
    case WhereOp(col, _, _, _) => !ValidIdent(col)
    case WhereNull(col, _) => !ValidIdent(col)
    case WhereIn(col, vals) => !ValidIdent(col) || |Expanded(vals)| > 5000
    case Search(col, _) =>
      || !ValidIdent(col) || FieldOf(b.meta.fields, col).None? || !FieldOf(b.meta.fields, col).value.fts
      || (!IsPG(b.driver) && b.driver != "mysql"
          && ((b.driver != "sqlite" && b.driver != "sqlite3") || !ValidIdent(b.meta.table + "_" + col + "_fts")
              || !ValidJoinOn(ShadowOn(b.meta, col))))
    case OrderBy(cols) => exists col :: col in cols && !ValidIdent(col)
    case _ => false
  }

  // The condition of the shadow table's join
  function ShadowOn(meta: Meta, col: string): string {
    meta.table + "_" + col + "_fts" + ".rowid = " + meta.table + "." + (if meta.pk.Some? then meta.pk.value else "id")
  }

  // A refused call records an error and changes nothing else, and no call takes an error away.
  lemma FaultyIff(b: Builder, c: Call)
    ensures b.err == None ==> (Apply(b, c).err.Some? <==> Faulty(b, c))
    ensures b.err == None && Faulty(b, c) ==> Apply(b, c) == b.(err := Apply(b, c).err)
    ensures b.err.Some? ==> Apply(b, c).err.Some?
  {
    hide ValidIdent, ValidJoinOn, SearchCondition, SearchRank, SearchMatch, InCondition, Expanded, FieldOf;
    if c.Search? {
      assert SearchShadow(b.meta, c.col) == b.meta.table + "_" + c.col + "_fts";
      assert ShadowOn(b.meta, c.col) == SearchShadow(b.meta, c.col) + ".rowid = " + b.meta.table + "."
        + (if b.meta.pk.Some? then b.meta.pk.value else "id");
    }
  }

  // After any chain of calls the query is in error if and only if some call of it was refused; no statement is
  // then sent.
  lemma {:induction false} ChainRefusedIff(b: Builder, calls: seq<Call>)
    requires b.err == None
    ensures ApplyAll(b, calls).err.Some? <==>
      exists i :: 0 <= i < |calls| && Faulty(ApplyAll(b, calls[..i]), calls[i])
    decreases |calls|
  {
    hide Apply, Faulty;
    if calls != [] {
      var n := |calls| - 1;
      var init := calls[..n];
      ApplyLast(b, calls);
      ChainRefusedIff(b, init);
      assert forall i :: 0 <= i < n ==> init[..i] == calls[..i] && init[i] == calls[i];
      FaultyIff(ApplyAll(b, init), calls[n]);
      if ApplyAll(b, init).err.Some? {
        var i :| 0 <= i < |init| && Faulty(ApplyAll(b, init[..i]), init[i]);
        assert Faulty(ApplyAll(b, calls[..i]), calls[i]);
      }
    }
  }

  lemma {:induction false} ApplyLast(b: Builder, calls: seq<Call>)
    requires calls != []
    ensures ApplyAll(b, calls) == Apply(ApplyAll(b, calls[..|calls| - 1]), calls[|calls| - 1])
    decreases |calls|
  {
    hide Apply;
    if |calls| > 1 {
      ApplyLast(Apply(b, calls[0]), calls[1..]);
      assert calls[1..][..|calls| - 2] == calls[..|calls| - 1][1..];
    } else {
      assert calls[..0] == [] && calls[1..] == [];
    }
  }

  // A call that is accepted
  ghost predicate Accepted(b: Builder, c: Call) {
    match c
    case Select(cols) => AllValid(cols)
    case JoinOn(_, _, on) => ValidJoinOn(on)
    case WhereIn(_, vals) => |Expanded(vals)| <= 5000
    case Search(col, _) =>
      && FieldOf(b.meta.fields, col).Some? && FieldOf(b.meta.fields, col).value.fts && b.err == None
      && (IsPG(b.driver) || b.driver == "mysql" || b.driver == "sqlite" || b.driver == "sqlite3")
    case OrderBy(cols) => AllValid(cols)
    case _ => true
  }

  // What the call asks for, in terms of what is read back: nothing else changes.
  ghost predicate Means(b: Builder, c: Call, after: Builder) {
    match c
    case Select(cols) => after == b.(cols := cols)
    case Distinct => after == b.(distinct := true)
    case JoinOn(kind, table, on) =>
      exists text, j :: after == b.(joins := b.joins + [text]) && IsJoin(text, j) && j.kind == kind && j.table == table
                     && IsOn(on, j.left, j.right)
    case Where(cond, args, or) =>
      after == b.(where := b.where + [Clause(cond, or)], args := b.args + args, given := b.given + [args])
    case WhereOp(col, op, val, or) => OnlyConditions(b, after) && Adds(b, after, Compare(col, op, val), or)
    case WhereNull(col, test) =>
      OnlyConditions(b, after) && Adds(b, after, if test == "IS NULL" then IsNull(col) else NotNull(col), false)
    case WhereIn(col, vals) =>
      OnlyConditions(b, after)
      && forall items :: Lists(vals, items) ==>
           Adds(b, after, if items == [] then Never else Among(col, items), false)
    case Search(col, term) =>
      var v := TextValue(term);
      if IsPG(b.driver) || b.driver == "mysql" then
        && OnlyConditions(b, after.(orderBy := b.orderBy, rankArgs := b.rankArgs)) && Adds(b, after, Matches(col, v), false)
        && |after.orderBy| == 1 && Marks(after.orderBy[0]) == |after.rankArgs|
        && ReadRank(Bind(after.orderBy[0], after.rankArgs)) == Some((col, v, true))
      else
        var shadow := b.meta.table + "_" + col + "_fts";
        var key := b.meta.table + "." + (if b.meta.pk.Some? then b.meta.pk.value else "id");
        && OnlyConditions(b, after.(orderBy := b.orderBy, joins := b.joins))
        && Adds(b, after, Compare(shadow, "MATCH", v), false)
        && |after.joins| == |b.joins| + 1 && after.joins[..|b.joins|] == b.joins
        && IsJoin(after.joins[|b.joins|], JoinRead("INNER", shadow, shadow + ".rowid", key))
        && |after.orderBy| == 1 && Ordering(after.orderBy[0]) == Some((shadow + ".rank", false))
    case OrderBy(cols) => after == b.(orderBy := b.orderBy + cols)
    case Limit(n) => after == b.(limit := n)
    case Offset(n) => after == b.(offset := n)
  }

  // Main result: every accepted call on plain names does what it says, and nothing else.
  lemma CallMeans(b: Builder, c: Call)
    requires |b.given| == |b.where| && PlainTable(b.schema, b.meta) && PlainCall(c) && Accepted(b, c)
    ensures Means(b, c, Apply(b, c))
  {
    hide IsColumn, IsName, ValidIdent, ValidJoinOn, Trimmed, ReadCondition, ReadRank, Bind, Marks, IsJoin, IsOn, Adds, FieldOf,
         InCondition, SearchCondition, SearchRank, SearchMatch, Expanded, Lists, Balanced, Closed, Ordering;
    match c {
      case JoinOn(kind, table, on) =>
        ColumnIsTerm(table);
        var j := AcceptedJoin(kind, table, on);
        var text := kind + " JOIN " + table + " ON " + on;
        assert Apply(b, c) == b.(joins := b.joins + [text]) && IsJoin(text, j);
      case WhereOp(col, op, val, or) =>
        ColumnIsTerm(col);
        OpReads(b, col, op, val, or);
      case WhereNull(col, test) =>
        ColumnIsTerm(col);
        NullReads(b, col, test == "IS NOT NULL");
      case WhereIn(col, vals) => InMeans(b, col, vals);
      case Search(col, term) => SearchMeans(b, col, term);
      case _ =>
    }
  }

  lemma InMeans(b: Builder, col: string, vals: seq<Value>)
    requires |b.given| == |b.where| && IsColumn(col) && |Expanded(vals)| <= 5000
    ensures Means(b, WhereIn(col, vals), Apply(b, WhereIn(col, vals)))
  {
    hide IsColumn, ValidIdent, ReadCondition, Bind, Marks, Adds, InCondition, Expanded;
    ColumnIsTerm(col);
    forall items | Lists(vals, items)
      ensures Adds(b, Apply(b, WhereIn(col, vals)), if items == [] then Never else Among(col, items), false)
    {
      InReads(b, col, vals, items);
      ListsExpanded(vals, items);
    }
  }

  lemma SearchMeans(b: Builder, col: string, term: string)
    requires |b.given| == |b.where| && PlainTable(b.schema, b.meta) && IsName(col) && Accepted(b, Search(col, term))
    ensures Means(b, Search(col, term), Apply(b, Search(col, term)))
  {
    hide IsColumn, IsName, ValidIdent, ReadCondition, ReadRank, Bind, Marks, IsJoin, Adds, FieldOf, SearchCondition, SearchRank,
         SearchMatch, Ordering;
    NameIsColumn(col);
    ColumnIsTerm(col);
    if IsPG(b.driver) || b.driver == "mysql" {
      SearchRanks(b, col, term);
    } else {
      SearchJoins(b, col, term);
    }
  }

  // ---------- every chain ----------

  lemma PlainTableIsPlain(schema: string, meta: Meta)
    requires PlainTable(schema, meta)
    ensures PlainMeta(schema, meta) && Plain(meta.table)
  {
    hide IsName;
    NameInert(meta.table);
    if schema != "" {
      NameInert(schema);
    }
    if meta.pk.Some? {
      NameInert(meta.pk.value);
    }
    forall f | f in meta.fields
      ensures Inert(f.name)
    {
      NameInert(f.name);
    }
  }

  lemma NameInert(s: string)
    requires IsName(s)
    ensures Inert(s) && Plain(s)
  {
    NameChars(s);
  }

  lemma ChainLegible(driver: string, schema: string, meta: Meta, calls: seq<Call>) returns (joins: seq<JoinRead>)
    requires PlainTable(schema, meta) && forall c :: c in calls ==> PlainCall(c)
    ensures var b := ApplyAll(Fresh(driver, schema, meta), calls);
      Sound(b) && Matched(b) && JoinsAre(b.joins, joins) && Legible(b, joins)
  {
    hide PlainTable, PlainCall, Apply, IsJoin, SmoothTerm, Smooth, PlainColumns, BalancedWhere, CallTyped, CallMatched,
         CallBalanced, MatchedClauses, PlainMeta, Plain, ReadableJoin;
    var b0 := Fresh(driver, schema, meta);
    var b := ApplyAll(b0, calls);
    PlainTableIsPlain(schema, meta);
    forall c | c in calls
      ensures CallTyped(c) && CallMatched(c) && CallBalanced(c)
    {
      PlainIsTyped(c);
    }
    FreshSound(driver, schema, meta);
    ApplyAllSound(b0, calls);
    assert BalancedWhere(b0.where) by { NothingBalanced(); }
    ApplyAllBalanced(b0, calls);
    ChainReadable(b0, calls);
    AllSmooth(b.orderBy, b.rankArgs);
    joins := AllJoins(b.joins);
    ReadableNamed(b);
  }

  lemma ReadableNamed(b: Builder)
    requires Readable(b)
    ensures Named(b)
  {
  }

  // Main result
  lemma ChainReads(driver: string, schema: string, meta: Meta, calls: seq<Call>, limit: int, size: int, offset: int)
    requires PlainTable(schema, meta) && forall c :: c in calls ==> PlainCall(c)
    ensures var b := ApplyAll(Fresh(driver, schema, meta), calls);
      && Sound(b) && Matched(b)
      && Marks(SelectText(b, limit)) == |SelectArgs(b, limit)| && Marks(PageText(b)) == |PageArgs(b, size, offset)|
      && Marks(CountText(b)) == |b.args| && Marks(ExistsText(b)) == |b.args|
      && exists joins :: JoinsAre(b.joins, joins)
           && ReadSelect(Bind(SelectText(b, limit), SelectArgs(b, limit)))
              == Some(Meant(b, joins, Positive(limit), Positive(b.offset)))
           && ReadSelect(Bind(PageText(b), PageArgs(b, size, offset)))
              == Some(Meant(b, joins, Some(IntValue(size)), Some(IntValue(offset))))
           && ReadSelect(Bind(CountText(b), b.args))
              == Some(Selection(false, [RowCount], FullName(b.schema, b.meta.table), joins, WhereOf(b), [], None, None))
           && ReadSelect(Bind(ExistsText(b), b.args))
              == Some(Selection(false, [One], FullName(b.schema, b.meta.table), joins, WhereOf(b), [], Some(IntValue(1)), None))
  {
    hide PlainTable, PlainCall, Apply, IsJoin, Smooth, PlainColumns, BalancedWhere, MatchedClauses, ReadSelect, Bind, Marks,
         SelectText, SelectArgs, PageText, PageArgs, CountText, ExistsText, Meant, WhereOf, BoundTerms, QualifiedTable,
         PlainNames, AllTidy, MarksAll, Concat;
    var b := ApplyAll(Fresh(driver, schema, meta), calls);
    var joins := ChainLegible(driver, schema, meta, calls);
    SelectReads(b, joins, limit);
    PageReads(b, joins, size, offset);
    CountsRead(b, joins);
  }
}
