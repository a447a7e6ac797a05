/** The query object: its methods update the fields of the builder in place and print statements with
    loops, each proved against the functions of QueryBuilder. */
module QueryObject {
  import opened GoStrings
  import opened SqlBinding
  import opened Identifiers
  import opened QueryBuilder

  datatype Refusal = Failed(err: Error) | NoWhere | HasJoins | UnknownColumn | NotStored

  datatype Statement = Statement(sql: string, args: seq<Value>) | Refused(reason: Refusal)

  class Query {
    const driver: string
    const schema: string
    const meta: Meta
    var cols: seq<string>
    var joins: seq<string>
    var where: seq<Clause>
    var args: seq<Value>
    var orderBy: seq<string>
    var rankArgs: seq<Value>
    var distinct: bool
    var limit: int
    var offset: int
    var err: Option<Error>
    ghost var given: seq<seq<Value>>

    ghost function View(): Builder
      reads this
    {
      Builder(driver, schema, meta, cols, joins, where, args, orderBy, rankArgs, distinct, limit, offset, err, given)
    }

    constructor (driver: string, schema: string, meta: Meta)
      ensures View() == Fresh(driver, schema, meta)
    {
      this.driver, this.schema, this.meta := driver, schema, meta;
      cols, joins, where, args, orderBy, rankArgs := [], [], [], [], [], [];
      distinct, limit, offset, err, given := false, 0, 0, None, [];
    }

    // The Go assignment `rq := *q`
    method Copy() returns (rq: Query)
      ensures fresh(rq) && rq.View() == View()
    {
      rq := new Query(driver, schema, meta);
      rq.cols, rq.joins, rq.where, rq.args, rq.given := cols, joins, where, args, given;
      rq.orderBy, rq.rankArgs, rq.distinct, rq.limit, rq.offset, rq.err := orderBy, rankArgs, distinct, limit, offset, err;
    }

    // The loop that Select and OrderBy share: is every name valid?
    static method CheckIdents(names: seq<string>) returns (ok: bool)
      ensures ok == AllValid(names)
    {
      for i := 0 to |names|
        invariant forall k :: 0 <= k < i ==> ValidIdent(names[k])
      {
        if !ValidIdent(names[i]) {
          return false;
        }
      }
      return true;
    }

    method Select(cols: seq<string>)
      modifies this
      ensures View() == Apply(old(View()), Call.Select(cols))
    {
      var ok := CheckIdents(cols);
      if ok {
        this.cols := cols;
      } else {
        err := Some(InvalidIdentifier);
      }
    }

    method Distinct()
      modifies this
      ensures View() == Apply(old(View()), Call.Distinct)
    {
      distinct := true;
    }

    // addJoin
    method AddJoin(kind: string, table: string, on: string)
      modifies this
      ensures View() == Apply(old(View()), JoinOn(kind, table, on))
    {
      if !ValidIdent(table) {
        err := Some(InvalidIdentifier);
        return;
      }
      if !ValidJoinOn(on) {
        err := Some(InvalidJoin);
        return;
      }
      joins := joins + [kind + " JOIN " + table + " ON " + on];
    }

    // Where (or == false) and OrWhere
    method Where(cond: string, args: seq<Value>, or: bool)
      modifies this
      ensures View() == Apply(old(View()), Call.Where(cond, args, or))
    {
      where := where + [Clause(cond, or)];
      this.args := this.args + args;
      given := given + [args];
    }

    // whereOp
    method WhereOp(col: string, op: string, val: Value, or: bool)
      modifies this
      ensures View() == Apply(old(View()), Call.WhereOp(col, op, val, or))
    {
      if !ValidIdent(col) {
        err := Some(InvalidIdentifier);
        return;
      }
      where := where + [Clause(col + " " + op + " ?", or)];
      args := args + [val];
      given := given + [[val]];
    }

    // WhereNull and WhereNotNull
    method WhereNull(col: string, test: string)
      modifies this
      ensures View() == Apply(old(View()), Call.WhereNull(col, test))
    {
      if !ValidIdent(col) {
        err := Some(InvalidIdentifier);
        return;
      }
      where := where + [Clause(col + " " + test, false)];
      given := given + [[]];
    }

    method WhereIn(col: string, vals: seq<Value>)
      modifies this
      ensures View() == Apply(old(View()), Call.WhereIn(col, vals))
    {
      hide ValidIdent;
      if !ValidIdent(col) {
        err := Some(InvalidIdentifier);
        return;
      }
      var items := vals;
      if |vals| == 1 && Elements(vals[0]).Some? {
        items := Elements(vals[0]).value;
      }
      if |items| == 0 {
        where := where + [Clause("1 = 0", false)];
        given := given + [[]];
        return;
      }
      if |items| > MaxWhereIn {
        err := Some(TooManyValues);
        return;
      }
      var sb := "";
      for i := 0 to |items|
        invariant sb == Placeholders(i)
      {
        if i > 0 {
          sb := sb + ", ";
        }
        sb := sb + "?";
      }
      where := where + [Clause(col + " IN (" + sb + ")", false)];
      args := args + items;
      given := given + [items];
    }

    method Search(col: string, term: string)
      modifies this
      ensures View() == Apply(old(View()), Call.Search(col, term))
    {
      hide ValidIdent, SearchCondition, SearchRank, SearchMatch, FieldOf, Searching;
      if !ValidIdent(col) {
        err := Some(InvalidIdentifier);
        return;
      }
      var f := FieldOf(meta.fields, col);
      if f.None? || !f.value.fts {
        err := Some(NotSearchable);
        return;
      }
      SearchDriver(col, term);
    }

    // The branches of Search, driver by driver
    method SearchDriver(col: string, term: string)
      modifies this
      ensures View() == Searching(old(View()), col, term)
    {
      hide SearchCondition, SearchRank, SearchMatch, SearchShadow, ValidIdent, ValidJoinOn;
      var arg := TextValue(term);
      if driver == "postgres" || driver == "pgx" {
        where := where + [Clause(SearchCondition(col), false)];
        args, given := args + [arg], given + [[arg]];
        orderBy := [SearchRank(col)];
        rankArgs := [arg];
      } else if driver == "mysql" {
        where := where + [Clause(SearchMatch(col), false)];
        args, given := args + [arg], given + [[arg]];
        orderBy := [SearchMatch(col) + " DESC"];
        rankArgs := [arg];
      } else if driver == "sqlite" || driver == "sqlite3" {
        var pk := if meta.pk.Some? then meta.pk.value else "id";
        var shadow := SearchShadow(meta, col);
        AddJoin("INNER", shadow, shadow + ".rowid = " + meta.table + "." + pk);
        if err.Some? {
          return;
        }
        where := where + [Clause(shadow + " MATCH ?", false)];
        args, given := args + [arg], given + [[arg]];
        orderBy := [shadow + ".rank"];
      } else {
        err := Some(UnsupportedDriver);
      }
    }

    method OrderBy(cols: seq<string>)
      modifies this
      ensures View() == Apply(old(View()), Call.OrderBy(cols))
    {
      var ok := CheckIdents(cols);
      if ok {
        orderBy := orderBy + cols;
      } else {
        err := Some(InvalidIdentifier);
      }
    }

    method Limit(n: int)
      modifies this
      ensures View() == Apply(old(View()), Call.Limit(n))
    {
      limit := n;
    }

    method Offset(n: int)
      modifies this
      ensures View() == Apply(old(View()), Call.Offset(n))
    {
      offset := n;
    }

    // ---------- printing ----------

    method WriteWhere(sb: string) returns (out: string)
      ensures out == sb + WhereText(where)
    {
      hide ClausesText;
      NoClauses();
      out := sb;
      if |where| == 0 {
        return;
      }
      out := out + " WHERE ";
      ghost var head := out;
      for i := 0 to |where|
        invariant out == head + ClausesText(where[..i])
      {
        ClausesNext(where, i);
        var w := where[i];
        var link := "";
        if i > 0 {
          if w.or {
            link := " OR ";
          } else {
            link := " AND ";
          }
        }
        out := out + link;
        out := out + ("(" + w.cond + ")");
      }
      assert where[..|where|] == where;
    }

    method WriteFrom(sb: string) returns (out: string)
      ensures out == sb + FromText(View())
    {
      hide QualifiedTable, JoinsText;
      var table := if schema != "" then schema + "." + meta.table else meta.table;
      assert table == QualifiedTable(View()) by { TableName(View()); }
      out := sb + " FROM " + table;
      ghost var head := out;
      NoJoins();
      for i := 0 to |joins|
        invariant out == head + JoinsText(joins[..i])
      {
        NextJoin(joins, i);
        out := out + (" " + joins[i]);
      }
      assert joins[..|joins|] == joins;
      assert out == sb + (" FROM " + table + JoinsText(joins));
    }

    // The column loop of writeSelectHead
    method WriteColumns() returns (list: string)
      ensures list == ColumnsText(View())
    {
      if |cols| > 0 {
        list := "";
        assert cols[0..] == cols;
        for i := 0 to |cols|
          invariant list + (if 0 < i < |cols| then ", " else "") + Join(cols[i..], ", ") == Join(cols, ", ")
        {
          JoinNext(cols, i, ", ");
          if i > 0 {
            list := list + ", ";
          }
          list := list + cols[i];
        }
        assert cols[|cols|..] == [];
      } else if |joins| > 0 {
        list := meta.table + ".*";
      } else {
        list := "*";
      }
    }

    method WriteSelectHead(sb: string) returns (out: string)
      ensures out == sb + HeadText(View())
    {
      hide FromText, ColumnsText;
      out := sb + "SELECT ";
      if distinct {
        out := out + "DISTINCT ";
      }
      var list := WriteColumns();
      out := out + list;
      out := WriteFrom(out);
    }

    method WriteOrderBy(sb: string) returns (out: string)
      ensures out == sb + OrderText(orderBy)
    {
      out := sb;
      if |orderBy| > 0 {
        out := out + (" ORDER BY " + Join(orderBy, ", "));
      }
    }

    method BuildSelect(forceLimit: int) returns (sql: string, out: seq<Value>)
      ensures var lim := if forceLimit > 0 then forceLimit else limit;
        sql == Rewritten(driver, SelectText(View(), lim)) && out == SelectArgs(View(), lim)
    {
      hide HeadText, WhereText, OrderText, Rewritten;
      var sb := WriteSelectHead("");
      assert sb == HeadText(View());
      sb := WriteWhere(sb);
      sb := WriteOrderBy(sb);
      var lim := limit;
      if forceLimit > 0 {
        lim := forceLimit;
      }
      out := args;
      if |rankArgs| > 0 || lim > 0 || offset > 0 {
        out := args;
        out := out + rankArgs;
      }
      if lim > 0 {
        sb := sb + " LIMIT ?";
        out := out + [IntValue(lim)];
      }
      if offset > 0 {
        sb := sb + " OFFSET ?";
        out := out + [IntValue(offset)];
      }
      assert sb == SelectText(View(), lim);
      assert out == SelectArgs(View(), lim) by {
        assert args + rankArgs + [] == args + rankArgs;
        assert rankArgs == [] ==> args + rankArgs == args;
      }
      sql := RewritePlaceholders(driver, sb);
    }

    method BuildSelectPage(pageSize: int, offset: int) returns (sql: string, out: seq<Value>)
      ensures sql == Rewritten(driver, PageText(View())) && out == PageArgs(View(), pageSize, offset)
    {
      hide HeadText, WhereText, OrderText, Rewritten;
      var sb := WriteSelectHead("");
      assert sb == HeadText(View());
      sb := WriteWhere(sb);
      sb := WriteOrderBy(sb);
      sb := sb + " LIMIT ? OFFSET ?";
      out := args + rankArgs + [IntValue(pageSize), IntValue(offset)];
      sql := RewritePlaceholders(driver, sb);
    }

    // The statement of Count
    method CountStatement() returns (s: Statement)
      ensures s == if err.Some? then Refused(Failed(err.value))
                   else Statement(Rewritten(driver, CountText(View())), args)
    {
      hide FromText, WhereText, Rewritten;
      if err.Some? {
        return Refused(Failed(err.value));
      }
      var sb := WriteFrom("SELECT COUNT(*)");
      sb := WriteWhere(sb);
      var sql := RewritePlaceholders(driver, sb);
      return Statement(sql, args);
    }

    // The statement of Exists
    method ExistsStatement() returns (s: Statement)
      ensures s == if err.Some? then Refused(Failed(err.value))
                   else Statement(Rewritten(driver, ExistsText(View())), args)
    {
      hide FromText, WhereText, Rewritten;
      if err.Some? {
        return Refused(Failed(err.value));
      }
      var sb := WriteFrom("SELECT 1");
      sb := WriteWhere(sb);
      sb := sb + " LIMIT 1";
      var sql := RewritePlaceholders(driver, sb);
      return Statement(sql, args);
    }

    // The statement of Delete: never without a condition
    method DeleteStatement() returns (s: Statement)
      ensures s == if err.Some? then Refused(Failed(err.value))
                   else if where == [] then Refused(NoWhere)
                   else if joins != [] then Refused(HasJoins)
                   else Statement(Rewritten(driver, DeleteText(View())), args)
    {
      hide QualifiedTable, WhereText, Rewritten;
      if err.Some? {
        return Refused(Failed(err.value));
      }
      if |where| == 0 {
        return Refused(NoWhere);
      }
      if |joins| > 0 {
        return Refused(HasJoins);
      }
      var table := if schema != "" then schema + "." + meta.table else meta.table;
      TableName(View());
      var sb := WriteWhere("DELETE FROM " + table);
      var sql := RewritePlaceholders(driver, sb);
      return Statement(sql, args);
    }

    // The keys of the values, sorted, in whatever order the map gives them
    static method SortedKeys(values: map<string, Value>) returns (keys: seq<string>)
      ensures IsListing(keys, values.Keys)
    {
      keys := [];
      var rest := values.Keys;
      while rest != {}
        invariant rest <= values.Keys
        invariant forall k :: k in keys <==> k in values.Keys - rest
        invariant forall i, j :: 0 <= i < j < |keys| ==> keys[i] != keys[j]
        decreases |rest|
      {
        var k :| k in rest;
        assert k !in keys;
        rest := rest - {k};
        keys := keys + [k];
      }
      SortedListing(keys);
      assert (set x | x in keys) == values.Keys;
      keys := SortStrings(keys);
    }

    // The assignments of Update: one placeholder for each value, in the order of the keys
    static method AssignValues(
      keys: seq<string>, values: map<string, Value>, protect: (string, Value) -> Option<Value>)
      returns (setClauses: seq<string>, out: Option<seq<Value>>)
      requires forall k :: k in keys ==> k in values
      ensures out.Some? <==> Stored(keys, values, protect)
      ensures out.Some? ==> out.value == StoredValues(keys, values, protect) && setClauses == Assignments(keys)
    {
      setClauses := [];
      var vals: seq<Value> := [];
      for i := 0 to |keys|
        invariant setClauses == Assignments(keys[..i])
        invariant Stored(keys[..i], values, protect) && vals == StoredValues(keys[..i], values, protect)
      {
        assert keys[..i + 1] == keys[..i] + [keys[i]];
        var col := keys[i];
        setClauses := setClauses + [col + " = ?"];
        var val := protect(col, values[col]);
        if val.None? {
          return setClauses, None;
        }
        vals := vals + [val.value];
      }
      assert keys[..|keys|] == keys;
      return setClauses, Some(vals);
    }

    // The autonow columns without a value
    method AssignAutoNow(keys: seq<string>, values: map<string, Value>) returns (setClauses: seq<string>)
      requires forall k :: k in keys <==> k in values
      ensures setClauses == AutoNow(meta.fields, keys)
    {
      setClauses := [];
      for i := 0 to |meta.fields|
        invariant setClauses == AutoNow(meta.fields[..i], keys)
      {
        assert meta.fields[..i + 1][..i] == meta.fields[..i];
        var f := meta.fields[i];
        if f.autoNow && f.name !in values {
          setClauses := setClauses + [f.name + " = CURRENT_TIMESTAMP"];
        }
      }
      assert meta.fields[..|meta.fields|] == meta.fields;
    }

    // The statement of Update. `protect` is the hashing or encryption of marked columns, None its failure.
    method UpdateStatement(values: map<string, Value>, protect: (string, Value) -> Option<Value>)
      returns (s: Statement, ghost keys: seq<string>)
      ensures IsListing(keys, values.Keys)
      ensures s.Statement? <==> CanUpdate(values, protect)
      ensures err.Some? ==> s == Refused(Failed(err.value))
      ensures err.None? && where == [] ==> s == Refused(NoWhere)
      ensures s.Statement? ==> Stored(keys, values, protect) && s == Statement(
        Rewritten(driver, UpdateText(View(), keys)), StoredValues(keys, values, protect) + args)
    {
      hide QualifiedTable, WhereText, Rewritten, FieldOf, StringLess, Stored, StoredValues, Assignments, AutoNow, StrictlySorted;
      var sorted := SortedKeys(values);
      keys := sorted;
      assert forall k :: k in sorted <==> k in values;
      if err.Some? {
        return Refused(Failed(err.value)), keys;
      }
      if |where| == 0 {
        return Refused(NoWhere), keys;
      }
      if |joins| > 0 {
        return Refused(HasJoins), keys;
      }
      var known := AllKnown(sorted);
      if !known {
        return Refused(UnknownColumn), keys;
      }
      StoredMeans(sorted, values, protect);
      var setClauses, out := AssignValues(sorted, values, protect);
      if out.None? {
        return Refused(NotStored), keys;
      }
      var auto := AssignAutoNow(sorted, values);
      setClauses := setClauses + auto;
      var table := if schema != "" then schema + "." + meta.table else meta.table;
      TableName(View());
      var sb := "UPDATE " + table + " SET " + Join(setClauses, ", ");
      sb := WriteWhere(sb);
      var sql := RewritePlaceholders(driver, sb);
      return Statement(sql, out.value + args), keys;
    }

    method AllKnown(names: seq<string>) returns (known: bool)
      ensures known <==> forall k :: k in names ==> FieldOf(meta.fields, k).Some?
    {
      hide FieldOf;
      for i := 0 to |names|
        invariant forall j :: 0 <= j < i ==> FieldOf(meta.fields, names[j]).Some?
      {
        if FieldOf(meta.fields, names[i]).None? {
          assert names[i] in names;
          return false;
        }
      }
      return true;
    }

    // A query without error and joins and with a condition, known columns, and values that can be stored
    ghost predicate CanUpdate(values: map<string, Value>, protect: (string, Value) -> Option<Value>)
      reads this
    {
      && err.None? && where != [] && joins == []
      && (forall k :: k in values ==> FieldOf(meta.fields, k).Some?)
      && (forall k :: k in values ==> protect(k, values[k]).Some?)
    }

    // The statement of Last: a copy of the query with the ordering reversed, limited to one row
    method LastStatement() returns (s: Statement)
      ensures s == if err.Some? then Refused(Failed(err.value))
                   else Statement(Rewritten(driver, SelectText(Reversed(View()), 1)), SelectArgs(Reversed(View()), 1))
    {
      hide SelectText, Rewritten, Reverse;
      if err.Some? {
        return Refused(Failed(err.value));
      }
      var order := ReverseOrder(orderBy, meta);
      var rq := Copy();
      rq.orderBy := order;
      assert rq.View() == Reversed(View());
      var sql, out := rq.BuildSelect(1);
      return Statement(sql, out);
    }
  }

  lemma NoClauses()
    ensures forall where: seq<Clause> :: ClausesText(where[..0]) == ""
  {
  }

  lemma ClausesNext(where: seq<Clause>, i: nat)
    requires i < |where|
    ensures ClausesText(where[..i + 1])
      == ClausesText(where[..i]) + (if i > 0 then Connective(where[i].or) else "") + ("(" + where[i].cond + ")")
  {
    assert where[..i + 1][..i] == where[..i];
  }

  lemma JoinNext(parts: seq<string>, i: nat, sep: string)
    requires i < |parts|
    ensures Join(parts[i..], sep) == parts[i] + (if i + 1 < |parts| then sep else "") + Join(parts[i + 1..], sep)
  {
    assert parts[i..][1..] == parts[i + 1..];
  }

  lemma NoJoins()
    ensures JoinsText([]) == ""
  {
  }

  lemma NextJoin(joins: seq<string>, i: nat)
    requires i < |joins|
    ensures JoinsText(joins[..i + 1]) == JoinsText(joins[..i]) + (" " + joins[i])
  {
    assert joins[..i + 1][..i] == joins[..i];
  }

  lemma TableName(b: Builder)
    ensures QualifiedTable(b) == if b.schema != "" then b.schema + "." + b.meta.table else b.meta.table
  {
  }

  lemma StoredMeans(keys: seq<string>, values: map<string, Value>, protect: (string, Value) -> Option<Value>)
    requires forall k :: k in keys <==> k in values
    ensures Stored(keys, values, protect) <==> forall k :: k in values ==> protect(k, values[k]).Some?
  {
  }

  // Every value could be stored, and what is stored, in the order of the columns
  ghost predicate Stored(keys: seq<string>, values: map<string, Value>, protect: (string, Value) -> Option<Value>) {
    forall k :: k in keys ==> k in values && protect(k, values[k]).Some?
  }

  function StoredValues(keys: seq<string>, values: map<string, Value>, protect: (string, Value) -> Option<Value>)
    : (vals: seq<Value>)
    requires Stored(keys, values, protect)
    ensures |vals| == |keys|
  {
    if keys == [] then []
    else
      var n := |keys| - 1;
      StoredValues(keys[..n], values, protect) + [protect(keys[n], values[keys[n]]).value]
  }

  // ---------- Last ----------

  // One ORDER BY term, direction reversed
  function ReverseTerm(term: string): string {
    var t := TrimSpace(term);
    var u := ToUpper(t);
    if HasSuffix(u, " DESC") then TrimSpace(t[..|t| - 5]) + " ASC"
    else if HasSuffix(u, " ASC") then TrimSpace(t[..|t| - 4]) + " DESC"
    else t + " DESC"
  }

  function Reverse(terms: seq<string>, meta: Meta): seq<string> {
    if terms == [] then (if meta.pk.Some? then [meta.pk.value + " DESC"] else [])
    else seq(|terms|, i requires 0 <= i < |terms| => ReverseTerm(terms[i]))
  }

  function Reversed(b: Builder): Builder { b.(orderBy := Reverse(b.orderBy, b.meta)) }

  // reverseOrder
  method ReverseOrder(terms: seq<string>, meta: Meta) returns (out: seq<string>)
    ensures out == Reverse(terms, meta)
  {
    hide ReverseTerm;
    if |terms| == 0 {
      if meta.pk.Some? {
        return [meta.pk.value + " DESC"];
      }
      return [];
    }
    out := [];
    for i := 0 to |terms|
      invariant |out| == i && forall k :: 0 <= k < i ==> out[k] == ReverseTerm(terms[k])
    {
      var next := ReversedTerm(terms[i]);
      out := out + [next];
    }
  }

  // The loop body of reverseOrder
  method ReversedTerm(term: string) returns (out: string)
    ensures out == ReverseTerm(term)
  {
    hide TrimSpace;
    var t := TrimSpace(term);
    var u := ToUpper(t);
    if HasSuffix(u, " DESC") {
      out := TrimSpace(t[..|t| - 5]) + " ASC";
    } else if HasSuffix(u, " ASC") {
      out := TrimSpace(t[..|t| - 4]) + " DESC";
    } else {
      out := t + " DESC";
    }
  }
}
