/** One batched query standing in for many. Main result: for every table and every list of keys, the rows
    grouped by Prefetch are, key by key, exactly those a query for that key alone returns, in the same order,
    with no entry for a key without rows. */
module Prefetching {
  import opened GoStrings
  import opened SqlQuotes
  import opened SqlBinding
  import opened Identifiers
  import opened QueryBuilder
  import opened QueryObject
  import opened QueryFilter
  import opened QueryLast
  import opened QueryServer
  import opened SqlReader
  import opened QueryReader
  import opened Conditions
  import opened Engine
  import Database

  datatype Result<+T> = Ok(value: T) | Rejected(err: Error)

  // ---------- dedupe and groupByKey ----------

  function Uniq(keys: seq<Value>): seq<Value> {
    if keys == [] then []
    else
      var n := |keys| - 1;
      Uniq(keys[..n]) + (if keys[n] in keys[..n] then [] else [keys[n]])
  }

  method Dedupe(keys: seq<Value>) returns (out: seq<Value>)
    ensures out == Uniq(keys)
  {
    var seen: set<Value> := {};
    out := [];
    for i := 0 to |keys|
      invariant seen == (set k | k in keys[..i]) && out == Uniq(keys[..i])
    {
      assert keys[..i + 1] == keys[..i] + [keys[i]];
      if keys[i] !in seen {
        seen := seen + {keys[i]};
        out := out + [keys[i]];
      }
    }
    assert keys[..|keys|] == keys;
  }

  method GroupByKey<R>(items: seq<R>, keyOf: R -> Value) returns (grouped: map<Value, seq<R>>)
    ensures grouped == Groups(items, keyOf)
  {
    grouped := map[];
    for i := 0 to |items|
      invariant grouped == Groups(items[..i], keyOf)
    {
      assert items[..i + 1] == items[..i] + [items[i]];
      var k := keyOf(items[i]);
      grouped := grouped[k := (if k in grouped then grouped[k] else []) + [items[i]]];
    }
    assert items[..|items|] == items;
  }

  function Groups<R>(items: seq<R>, keyOf: R -> Value): map<Value, seq<R>> {
    if items == [] then map[]
    else
      var n := |items| - 1;
      var before, k := Groups(items[..n], keyOf), keyOf(items[n]);
      before[k := (if k in before then before[k] else []) + [items[n]]]
  }

  function WithKey<R>(keyOf: R -> Value, k: Value): R -> bool { r => keyOf(r) == k }

  lemma FilterSnoc<R>(s: seq<R>, p: R -> bool)
    requires s != []
    ensures var n := |s| - 1; Filter(s, p) == Filter(s[..n], p) + (if p(s[n]) then [s[n]] else [])
  {
    var n := |s| - 1;
    assert s == s[..n] + [s[n]];
    FilterConcat(s[..n], [s[n]], p);
    assert [s[n]][1..] == [];
  }

  // A group holds the items of its key, in their order, and there is a group for every key that occurs.
  lemma {:induction false} GroupsMean<R>(items: seq<R>, keyOf: R -> Value, k: Value)
    ensures k in Groups(items, keyOf) <==> Filter(items, WithKey(keyOf, k)) != []
    ensures k in Groups(items, keyOf) ==> Groups(items, keyOf)[k] == Filter(items, WithKey(keyOf, k))
  {
    if items != [] {
      GroupsMean(items[..|items| - 1], keyOf, k);
      FilterSnoc(items, WithKey(keyOf, k));
    }
  }

  lemma {:induction false} UniqFacts(keys: seq<Value>)
    ensures forall k :: k in Uniq(keys) <==> k in keys
    ensures forall i, j :: 0 <= i < j < |Uniq(keys)| ==> Uniq(keys)[i] != Uniq(keys)[j]
    ensures |Uniq(keys)| == |set k | k in keys|
  {
    if keys != [] {
      var n := |keys| - 1;
      UniqFacts(keys[..n]);
      assert keys == keys[..n] + [keys[n]];
      assert (set k | k in keys) == (set k | k in keys[..n]) + {keys[n]};
    }
  }

  // ---------- the query ----------

  // All, on a new query filtered by one call
  function Asked(driver: string, schema: string, meta: Meta, call: Call): Statement {
    var b := Apply(Fresh(driver, schema, meta), call);
    if b.err.Some? then Refused(Refusal.Failed(b.err.value))
    else Statement(Rewritten(driver, SelectText(b, 0)), SelectArgs(b, 0))
  }

  method Prefetch<R>(
    driver: string, schema: string, meta: Meta, db: Statement -> seq<R>, col: string, keys: seq<Value>, keyOf: R -> Value)
    returns (r: Result<map<Value, seq<R>>>)
    ensures r == Prefetched(driver, schema, meta, db, col, keys, keyOf)
  {
    hide SelectText, SelectArgs, Rewritten, Apply;
    if |keys| == 0 {
      return Ok(map[]);
    }
    var uniq := Dedupe(keys);
    var q := new Query(driver, schema, meta);
    q.WhereIn(col, [SliceValue(uniq)]);
    if q.err.Some? {
      return Rejected(q.err.value);
    }
    var sql, args := q.BuildSelect(0);
    ApplyKeeps(Fresh(driver, schema, meta), Call.WhereIn(col, [SliceValue(uniq)]));
    var rels := db(Statement(sql, args));
    var grouped := GroupByKey(rels, keyOf);
    return Ok(grouped);
  }

  lemma ApplyKeeps(b: Builder, c: Call)
    requires c.WhereIn?
    ensures Apply(b, c).limit == b.limit && Apply(b, c).driver == b.driver
  {
  }

  // ---------- over a fixed table ----------

  // The database answers a filter on the key column with the rows of the table that have such a key, in the
  // order of the table. NULL equals no key.
  ghost predicate Serves<R(!new)>(
    driver: string, schema: string, meta: Meta, db: Statement -> seq<R>, table: seq<R>, col: string, keyOf: R -> Value)
  {
    && (forall vals: seq<Value> :: |vals| <= MaxWhereIn ==>
          db(Asked(driver, schema, meta, Call.WhereIn(col, [SliceValue(vals)]))) == Filter(table, HasKeyIn(keyOf, vals)))
    && (forall k: Value ::
          db(Asked(driver, schema, meta, Call.WhereOp(col, "=", k, false))) == Filter(table, KeyIs(keyOf, k)))
  }

  function HasKeyIn<R>(keyOf: R -> Value, vals: seq<Value>): R -> bool { r => keyOf(r) != Nil && keyOf(r) in vals }

  function KeyIs<R>(keyOf: R -> Value, k: Value): R -> bool { r => keyOf(r) != Nil && keyOf(r) == k }

  // The statement is refused exactly for a column that is no identifier and for more than 5000 distinct keys.
  lemma AskedIff(driver: string, schema: string, meta: Meta, col: string, vals: seq<Value>)
    ensures Asked(driver, schema, meta, Call.WhereIn(col, [SliceValue(vals)])).Refused? <==>
      !ValidIdent(col) || |vals| > MaxWhereIn
    ensures Asked(driver, schema, meta, Call.WhereIn(col, [SliceValue(vals)])).Refused? ==>
      Asked(driver, schema, meta, Call.WhereIn(col, [SliceValue(vals)])).reason.Failed?
  {
    hide ValidIdent, SelectText, SelectArgs, Rewritten;
  }

  // What Prefetch returns, as a function of what the database answers
  function Prefetched<R>(
    driver: string, schema: string, meta: Meta, db: Statement -> seq<R>, col: string, keys: seq<Value>, keyOf: R -> Value)
    : Result<map<Value, seq<R>>>
  {
    if keys == [] then Ok(map[]) else
      match Asked(driver, schema, meta, Call.WhereIn(col, [SliceValue(Uniq(keys))]))
      case Refused(Failed(e)) => Rejected(e)
      case s => Ok(Groups(db(s), keyOf))
  }

  // One query for all keys is as good as one query for each.
  lemma ServedPerKey<R(!new)>(
    driver: string, schema: string, meta: Meta, db: Statement -> seq<R>, table: seq<R>, col: string, keys: seq<Value>,
    keyOf: R -> Value, k: Value)
    requires Serves(driver, schema, meta, db, table, col, keyOf) && ValidIdent(col)
    ensures var r := Prefetched(driver, schema, meta, db, col, keys, keyOf);
      && (r.Ok? <==> |set x | x in keys| <= MaxWhereIn)
      && (r.Ok? ==>
            var single := db(Asked(driver, schema, meta, Call.WhereOp(col, "=", k, false)));
            && (k in r.value <==> k in keys && single != [])
            && (k in r.value ==> r.value[k] == single))
  {
    hide ValidIdent, Asked, Groups;
    UniqFacts(keys);
    var uniq := Uniq(keys);
    AskedIff(driver, schema, meta, col, uniq);
    if keys == [] {
      assert (set x | x in keys) == {};
    } else if |uniq| <= MaxWhereIn {
      var rels := Filter(table, HasKeyIn(keyOf, uniq));
      GroupsMean(rels, keyOf, k);
      if k in keys {
        FilterTwice(table, HasKeyIn(keyOf, uniq), WithKey(keyOf, k), KeyIs(keyOf, k));
      } else {
        FilterMembers(table, HasKeyIn(keyOf, uniq));
        FilterNone(rels, WithKey(keyOf, k));
      }
    }
  }

  // ---------- the database ----------

  // Names and calls that read as meant, on PostgreSQL too
  ghost predicate Nameable(driver: string, schema: string, meta: Meta) {
    && Named(Fresh(driver, schema, meta)) && PlainMeta(schema, meta) && (IsPG(driver) ==> SafeMeta(schema, meta))
  }

  // A query with one condition of a typed method
  lemma OneAskable<R>(w: Database.World<R>, driver: string, schema: string, meta: Meta, c: Call)
    requires Nameable(driver, schema, meta) && FullName(schema, meta.table) == w.table
    requires c.WhereIn? || (c.WhereOp? && IsOperator(c.op))
    ensures Database.Askable(Apply(Fresh(driver, schema, meta), c), w)
    ensures var b := Apply(Fresh(driver, schema, meta), c);
      b.driver == driver && b.orderBy == [] && !b.distinct && b.offset == 0
  {
    hide ValidIdent, Plain, Balanced, MatchedClauses, Bind, Marks, Closed, Steady, Quiet, Inert, InCondition, IsName;
    var b0 := Fresh(driver, schema, meta);
    FreshSound(driver, schema, meta);
    assert CallTyped(c) && (c.WhereOp? ==> Plain(c.op)) by { OperatorPlain(c); }
    ApplySound(b0, c);
    assert Plain(meta.table) by { NamePlain(meta.table); }
    assert BalancedWhere(b0.where) by { NothingBalanced(); }
    ApplyBalanced(b0, c);
    if IsPG(driver) {
      OneSafe(driver, schema, meta, c);
    }
  }

  lemma OneSafe(driver: string, schema: string, meta: Meta, c: Call)
    requires SafeMeta(schema, meta) && (c.WhereIn? || (c.WhereOp? && IsOperator(c.op)))
    ensures var b := Apply(Fresh(driver, schema, meta), c); Safe(b) && Unquoted(b.where)
  {
    hide ValidIdent, Steady, Quiet, InCondition, QuotedMarks;
    FreshSafe(driver, schema, meta);
    OperatorQuiet(c);
    ApplySafe(Fresh(driver, schema, meta), c);
    OneUnquoted(Fresh(driver, schema, meta), c);
  }

  lemma OperatorPlain(c: Call)
    requires c.WhereOp? ==> IsOperator(c.op)
    ensures c.WhereOp? ==> Plain(c.op) && Inert(c.op)
  {
  }

  lemma OperatorQuiet(c: Call)
    requires c.WhereOp? ==> IsOperator(c.op)
    ensures c.WhereOp? ==> Quiet(c.op)
  {
  }

  lemma NamePlain(s: string)
    requires IsName(s)
    ensures Plain(s)
  {
    NameChars(s);
  }

  lemma OneUnquoted(b: Builder, c: Call)
    requires b.where == [] && (c.WhereIn? || (c.WhereOp? && IsOperator(c.op)))
    ensures Unquoted(Apply(b, c).where)
  {
    hide ValidIdent, QuotedMarks, Marks, Closed, Inert, InCondition;
    match c {
      case WhereIn(col, vals) =>
        if ValidIdent(col) {
          IdentIsInert(col);
          InConditionCount(col, |Expanded(vals)|);
          NoneCondition();
        }
      case WhereOp(col, op, val, or) =>
        if ValidIdent(col) {
          IdentIsInert(col);
          assert Inert(op) by { OperatorInert(op); }
          OpConditionCount(col, op);
        }
    }
  }

  // The rows of the table that the one condition holds for, in its order
  lemma OneAnswered<R(!new)>(
    db: Statement -> seq<R>, w: Database.World<R>, driver: string, schema: string, meta: Meta, c: Call, cond: Cond, p: R -> bool)
    requires Database.Answers(db, w, driver) && Nameable(driver, schema, meta)
    requires FullName(schema, meta.table) == w.table
    requires (c.WhereIn? || (c.WhereOp? && IsOperator(c.op))) && Asked(driver, schema, meta, c).Statement?
    requires Adds(Fresh(driver, schema, meta), Apply(Fresh(driver, schema, meta), c), cond, false)
    requires cond.Among? || cond.Never? || (cond.Compare? && cond.op == "=")
    requires forall r :: r in w.rows ==> (p(r) <==> Meets(w, r, cond))
    ensures db(Asked(driver, schema, meta, c)) == Filter(w.rows, p)
  {
    hide Database.Answers, Database.Askable, Nameable, Sound, MatchedClauses, Apply, Legible, WhereOf, ReadCondition, Bind,
         Marks, SelectText, SelectArgs, Rewritten, Closed, SomeRun;
    var b := Apply(Fresh(driver, schema, meta), c);
    OneAskable(w, driver, schema, meta, c);
    Database.SelectAnswered(db, w, b, 0);
    AskableShape(w, b);
    var q := Database.Passing(w, WhereOf(b));
    forall r | r in w.rows
      ensures q(r) == p(r)
    {
      OnePasses(w, b, r, cond);
    }
    FilterSame(w.rows, q, p);
    SortKeeps(Filter(w.rows, q), Database.InOrder(w, []));
    assert Filter(w.rows, q)[0..] == Filter(w.rows, q);
  }

  lemma AskableShape<R>(w: Database.World<R>, b: Builder)
    requires Database.Askable(b, w)
    ensures Sound(b) && Matched(b)
  {
  }

  // What a condition the database reads says of a row
  predicate Meets<R>(w: Database.World<R>, r: R, cond: Cond) {
    match cond
    case Among(col, vals) => w.value(r, col) != Nil && w.value(r, col) in vals
    case Compare(col, "=", v) => w.value(r, col) != Nil && w.value(r, col) == v
    case _ => false
  }

  lemma OnePasses<R>(w: Database.World<R>, b: Builder, r: R, cond: Cond)
    requires Sound(b) && Matched(b) && |b.where| == 1 && Marks(b.where[0].cond) == |b.given[0]|
    requires ReadCondition(Bind(b.where[0].cond, b.given[0])) == Some(cond)
    requires cond.Among? || cond.Never? || (cond.Compare? && cond.op == "=")
    ensures Database.Passing(w, WhereOf(b))(r) <==> Meets(w, r, cond)
  {
    hide ReadCondition, Bind, Marks, Closed, WhereOf;
    Database.PassingIff(w, b, r);
    var items := Items(b.where, b.given);
    var truth := Database.Truths(w, r);
    assert SomeRun(items, truth, Yes) <==> truth(items[0].cond) == Yes by { OneItemRuns(items, truth); }
  }

  lemma OneItemRuns(items: seq<Item>, truth: seq<Piece> -> Truth)
    requires |items| == 1
    ensures SomeRun(items, truth, Yes) <==> truth(items[0].cond) == Yes
  {
    if truth(items[0].cond) == Yes {
      assert RunHolds(items, 0, truth, Yes);
    }
    if SomeRun(items, truth, Yes) {
      var i: nat :| RunHolds(items, i, truth, Yes);
      assert SameRun(items, i, 0) && AtLeast(items[0].cond, truth, Yes);
    }
  }

  // A database that reads its statements serves the keys.
  lemma DatabaseServes<R(!new)>(
    driver: string, schema: string, meta: Meta, db: Statement -> seq<R>, w: Database.World<R>, col: string, keyOf: R -> Value)
    requires Database.Answers(db, w, driver) && Nameable(driver, schema, meta) && IsColumn(col)
    requires FullName(schema, meta.table) == w.table
    requires forall r :: r in w.rows ==> keyOf(r) == w.value(r, col)
    ensures Serves(driver, schema, meta, db, w.rows, col, keyOf)
  {
    hide Database.Answers, Nameable, IsColumn, ValidIdent, Asked, Adds, Apply, IsOperator;
    var b := Fresh(driver, schema, meta);
    forall vals: seq<Value> | |vals| <= MaxWhereIn
      ensures db(Asked(driver, schema, meta, Call.WhereIn(col, [SliceValue(vals)]))) == Filter(w.rows, HasKeyIn(keyOf, vals))
    {
      InReads(b, col, [SliceValue(vals)], vals);
      AskedStatement(driver, schema, meta, Call.WhereIn(col, [SliceValue(vals)]));
      OneAnswered(db, w, driver, schema, meta, Call.WhereIn(col, [SliceValue(vals)]),
                  if vals == [] then Never else Among(col, vals), HasKeyIn(keyOf, vals));
    }
    forall k: Value
      ensures db(Asked(driver, schema, meta, Call.WhereOp(col, "=", k, false))) == Filter(w.rows, KeyIs(keyOf, k))
    {
      assert IsOperator("=") by { EqualsIsOperator(); }
      OpReads(b, col, "=", k, false);
      AskedStatement(driver, schema, meta, Call.WhereOp(col, "=", k, false));
      OneAnswered(db, w, driver, schema, meta, Call.WhereOp(col, "=", k, false), Compare(col, "=", k), KeyIs(keyOf, k));
    }
  }

  lemma EqualsIsOperator()
    ensures IsOperator("=")
  {
  }

  lemma AskedStatement(driver: string, schema: string, meta: Meta, c: Call)
    requires (c.WhereIn? && IsColumn(c.col) && |Expanded(c.vals)| <= MaxWhereIn) || (c.WhereOp? && IsColumn(c.col))
    ensures Asked(driver, schema, meta, c).Statement?
  {
    hide ValidIdent, IsColumn, SelectText, SelectArgs, Rewritten;
    ColumnIsTerm(c.col);
  }

  // Main result, on a database that knows nothing but the statements it is sent
  lemma PrefetchIsPerKey<R(!new)>(
    driver: string, schema: string, meta: Meta, db: Statement -> seq<R>, w: Database.World<R>, col: string,
    keys: seq<Value>, keyOf: R -> Value, k: Value)
    requires Database.Answers(db, w, driver) && Nameable(driver, schema, meta) && IsColumn(col)
    requires FullName(schema, meta.table) == w.table
    requires forall r :: r in w.rows ==> keyOf(r) == w.value(r, col)
    ensures var r := Prefetched(driver, schema, meta, db, col, keys, keyOf);
      && (r.Ok? <==> |set x | x in keys| <= MaxWhereIn)
      && (r.Ok? ==>
            var rows := Filter(w.rows, KeyIs(keyOf, k));
            && db(Asked(driver, schema, meta, Call.WhereOp(col, "=", k, false))) == rows
            && (k in r.value <==> k in keys && rows != [])
            && (k in r.value ==> r.value[k] == rows))
  {
    hide Database.Answers, Nameable, IsColumn, ValidIdent, Asked, Prefetched, KeyIs;
    ColumnIsTerm(col);
    DatabaseServes(driver, schema, meta, db, w, col, keyOf);
    ServedPerKey(driver, schema, meta, db, w.rows, col, keys, keyOf, k);
  }
}
