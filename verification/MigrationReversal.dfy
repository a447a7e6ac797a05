/** Running a generated up section and then its down section on an abstract database. Statements fail
    where a database refuses them, so a down section that restores the schema also never drops a table
    that is still referenced, a column that is still indexed, or a full-text table's content. */
module MigrationReversal {
  import opened GoStrings
  import opened MigrationSql

  datatype Table =
    | Base(columns: set<string>, refs: map<string, string>)   // refs: foreign-key column -> table
    | Shadow(content: string, column: string)                 // SQLite full-text table over a base table

  datatype Index = Index(table: string, column: string)

  datatype Db = Db(tables: map<string, Table>, indexes: map<string, Index>, triggers: map<string, string>)

  // ---------- what a statement does ----------

  predicate IsBase(db: Db, table: string) { table in db.tables && db.tables[table].Base? }

  predicate HasColumn(db: Db, table: string, column: string) {
    IsBase(db, table) && column in db.tables[table].columns
  }

  // REFERENCES target(id); a table may refer to itself
  predicate CanRefer(db: Db, target: string, self: string, selfColumns: set<string>) {
    if target == self then "id" in selfColumns else HasColumn(db, target, "id")
  }

  predicate DistinctColumns(fields: seq<MigField>) {
    forall i, j :: 0 <= i < j < |fields| ==> fields[i].column != fields[j].column
  }

  function ColumnSet(fields: seq<MigField>): set<string> { set f | f in fields :: f.column }

  // A primary key is printed without its REFERENCES clause.
  predicate Refers(f: MigField) { f.fk != "" && !f.isPK }

  function RefsOf(fields: seq<MigField>): map<string, string> {
    if fields == [] then map[]
    else
      var f := fields[|fields| - 1];
      var refs := RefsOf(fields[..|fields| - 1]);
      if Refers(f) then refs[f.column := f.fk] else refs
  }

  predicate ReferredBy(db: Db, table: string, other: string) {
    IsBase(db, other) && table in db.tables[other].refs.Values
  }

  function WithColumn(t: Table, f: MigField): Table
    requires t.Base?
  {
    Base(t.columns + {f.column}, if f.fk != "" then t.refs[f.column := f.fk] else t.refs)
  }

  function WithoutColumn(t: Table, column: string): Table
    requires t.Base?
  {
    Base(t.columns - {column}, t.refs - {column})
  }

  function WithoutTable(db: Db, table: string): Db {
    Db(db.tables - {table},
       map i | i in db.indexes && db.indexes[i].table != table :: db.indexes[i],
       map g | g in db.triggers && db.triggers[g] != table :: db.triggers[g])
  }

  predicate CanDropColumn(db: Db, table: string, column: string) {
    && HasColumn(db, table, column)
    && (forall i :: i in db.indexes ==> db.indexes[i] != Index(table, column))
    && (forall s :: s in db.tables ==> db.tables[s] != Shadow(table, column))
    && (column == "id" ==> forall o :: o in db.tables ==> !ReferredBy(db, table, o))
  }

  predicate CanDropTable(db: Db, table: string) {
    && (forall o :: o in db.tables && o != table ==> !ReferredBy(db, table, o))
    && (forall s :: s in db.tables && db.tables[s].Shadow? ==> db.tables[s].content != table)
  }

  function CreateIndexOn(db: Db, index: string, table: string, column: string): Option<Db> {
    if index in db.indexes then Some(db)
    else if HasColumn(db, table, column) then Some(db.(indexes := db.indexes[index := Index(table, column)]))
    else None
  }

  function Exec(db: Db, d: Ddl): Option<Db> {
    match d
    case CreateTable(table, fields) =>
      if table in db.tables then Some(db)
      else if DistinctColumns(fields)
              && forall f :: f in fields && Refers(f) ==> CanRefer(db, f.fk, table, ColumnSet(fields))
      then Some(db.(tables := db.tables[table := Base(ColumnSet(fields), RefsOf(fields))]))
      else None
    case CreateIndex(_, index, table, column) => CreateIndexOn(db, index, table, column)
    case CreateGinIndex(index, table, column) => CreateIndexOn(db, index, table, column)
    case CreateFulltextIndex(index, table, column) =>
      if index in db.indexes then None else CreateIndexOn(db, index, table, column)
    case CreateFtsTable(shadow, table, column, _) =>
      if shadow in db.tables then Some(db)
      else if HasColumn(db, table, column) then Some(db.(tables := db.tables[shadow := Shadow(table, column)]))
      else None
    case CreateFtsTrigger(event, shadow, table, _, _) =>
      if TriggerName(shadow, event) in db.triggers then Some(db)
      else if IsBase(db, table) then Some(db.(triggers := db.triggers[TriggerName(shadow, event) := table]))
      else None
    case AddColumn(table, f) =>
      if IsBase(db, table) && f.column !in db.tables[table].columns
         && (f.fk != "" ==> CanRefer(db, f.fk, table, db.tables[table].columns))
      then Some(db.(tables := db.tables[table := WithColumn(db.tables[table], f)]))
      else None
    case DropColumn(table, column) =>
      if CanDropColumn(db, table, column)
      then Some(db.(tables := db.tables[table := WithoutColumn(db.tables[table], column)]))
      else None
    case DropIndex(index) => Some(db.(indexes := db.indexes - {index}))
    case DropIndexOn(index, table) =>
      if index in db.indexes && db.indexes[index].table == table
      then Some(db.(indexes := db.indexes - {index})) else None
    case DropTrigger(trigger) => Some(db.(triggers := db.triggers - {trigger}))
    case DropTable(table) =>
      if table !in db.tables then Some(db)
      else if CanDropTable(db, table) then Some(WithoutTable(db, table))
      else None
  }

  function Run(db: Db, ddls: seq<Ddl>): Option<Db>
    decreases |ddls|
  {
    if ddls == [] then Some(db)
    else
      var next :- Exec(db, ddls[0]);
      Run(next, ddls[1..])
  }

  lemma {:induction false} RunConcat(db: Db, a: seq<Ddl>, b: seq<Ddl>)
    ensures Run(db, a + b) == if Run(db, a).None? then None else Run(Run(db, a).value, b)
    decreases |a|
  {
    hide Exec;
    if a == [] {
      assert a + b == b;
    } else {
      assert (a + b)[1..] == a[1..] + b;
      if Exec(db, a[0]).Some? {
        RunConcat(Exec(db, a[0]).value, a[1..], b);
      }
    }
  }

  lemma RunOne(db: Db, d: Ddl)
    ensures Run(db, [d]) == Exec(db, d)
  {
    assert [d][1..] == [];
  }

  // ---------- consistency and freshness ----------

  // Every index, trigger, reference and full-text table belongs to something that exists.
  ghost predicate Consistent(db: Db) {
    && (forall i :: i in db.indexes ==> HasColumn(db, db.indexes[i].table, db.indexes[i].column))
    && (forall g :: g in db.triggers ==> IsBase(db, db.triggers[g]))
    && (forall s :: s in db.tables && db.tables[s].Shadow?
          ==> HasColumn(db, db.tables[s].content, db.tables[s].column))
    && (forall t, c :: IsBase(db, t) && c in db.tables[t].refs
          ==> c in db.tables[t].columns && HasColumn(db, db.tables[t].refs[c], "id"))
  }

  datatype Name = TableNamed(name: string) | IndexNamed(name: string) | TriggerNamed(name: string)

  // The name a CREATE statement introduces
  function Created(d: Ddl): seq<Name> {
    match d
    case CreateTable(table, _) => [TableNamed(table)]
    case CreateIndex(_, index, _, _) => [IndexNamed(index)]
    case CreateGinIndex(index, _, _) => [IndexNamed(index)]
    case CreateFulltextIndex(index, _, _) => [IndexNamed(index)]
    case CreateFtsTable(shadow, _, _, _) => [TableNamed(shadow)]
    case CreateFtsTrigger(event, shadow, _, _, _) => [TriggerNamed(TriggerName(shadow, event))]
    case _ => []
  }

  function Names(ddls: seq<Ddl>): seq<Name> {
    if ddls == [] then [] else Created(ddls[0]) + Names(ddls[1..])
  }

  predicate Has(db: Db, n: Name) {
    match n
    case TableNamed(t) => t in db.tables
    case IndexNamed(i) => i in db.indexes
    case TriggerNamed(g) => g in db.triggers
  }

  ghost predicate Distinct(names: seq<Name>) {
    forall i, j :: 0 <= i < j < |names| ==> names[i] != names[j]
  }

  // The created names are new and differ from one another.
  ghost predicate Fresh(db: Db, ddls: seq<Ddl>) {
    Distinct(Names(ddls)) && forall n :: n in Names(ddls) ==> !Has(db, n)
  }

  lemma {:induction false} NamesConcat(a: seq<Ddl>, b: seq<Ddl>)
    ensures Names(a + b) == Names(a) + Names(b)
  {
    if a == [] {
      assert a + b == b;
    } else {
      assert (a + b)[1..] == a[1..] + b;
      NamesConcat(a[1..], b);
    }
  }

  lemma {:induction false} RefsAreFields(fields: seq<MigField>)
    ensures forall c :: c in RefsOf(fields) ==> exists f :: f in fields && Refers(f) && f.column == c && f.fk == RefsOf(fields)[c]
  {
    if fields != [] {
      RefsAreFields(fields[..|fields| - 1]);
      assert fields == fields[..|fields| - 1] + [fields[|fields| - 1]];
    }
  }

  lemma ExecConsistent(db: Db, d: Ddl)
    requires Consistent(db) && Exec(db, d).Some? && IsUp(d)
    ensures Consistent(Exec(db, d).value)
  {
    match d {
      case CreateTable(table, fields) =>
        if table !in db.tables {
          TableConsistent(db, table, fields);
        }
      case AddColumn(table, f) => ColumnConsistent(db, table, f);
      case CreateFtsTable(shadow, table, column, pk) => ShadowConsistent(db, d);
      case _ => TablesKept(db, d);
    }
  }

  lemma ShadowConsistent(db: Db, d: Ddl)
    requires d.CreateFtsTable? && Consistent(db) && Exec(db, d).Some?
    ensures Consistent(Exec(db, d).value)
  {
    var after := Exec(db, d).value;
    assert forall t, c :: HasColumn(db, t, c) ==> HasColumn(after, t, c);
    assert forall t :: IsBase(after, t) ==> IsBase(db, t) && after.tables[t] == db.tables[t];
  }

  lemma TablesKept(db: Db, d: Ddl)
    requires d.CreateIndex? || d.CreateGinIndex? || d.CreateFulltextIndex? || d.CreateFtsTrigger?
    requires Consistent(db) && Exec(db, d).Some?
    ensures Consistent(Exec(db, d).value)
  {
    hide TriggerName;
    var after := Exec(db, d).value;
    assert after.tables == db.tables;
    assert forall t, c :: HasColumn(db, t, c) ==> HasColumn(after, t, c);
  }

  predicate IsUp(d: Ddl) {
    d.CreateTable? || d.CreateIndex? || d.CreateGinIndex? || d.CreateFulltextIndex? || d.CreateFtsTable?
    || d.CreateFtsTrigger? || d.AddColumn?
  }

  lemma TableConsistent(db: Db, table: string, fields: seq<MigField>)
    requires Consistent(db) && table !in db.tables && Exec(db, CreateTable(table, fields)).Some?
    ensures Consistent(Exec(db, CreateTable(table, fields)).value)
  {
    var after := Exec(db, CreateTable(table, fields)).value;
    RefsAreFields(fields);
    assert forall t, c :: HasColumn(db, t, c) ==> HasColumn(after, t, c);
    forall t, c | IsBase(after, t) && c in after.tables[t].refs
      ensures c in after.tables[t].columns && HasColumn(after, after.tables[t].refs[c], "id")
    {
      if t != table {
        assert IsBase(db, t) && after.tables[t] == db.tables[t];
      } else {
        var f :| f in fields && Refers(f) && f.column == c && f.fk == RefsOf(fields)[c];
        assert CanRefer(db, f.fk, table, ColumnSet(fields));
      }
    }
  }

  lemma ColumnConsistent(db: Db, table: string, f: MigField)
    requires Consistent(db) && Exec(db, AddColumn(table, f)).Some?
    ensures Consistent(Exec(db, AddColumn(table, f)).value)
  {
    var after := Exec(db, AddColumn(table, f)).value;
    assert forall t, c :: HasColumn(db, t, c) ==> HasColumn(after, t, c);
    forall t, c | IsBase(after, t) && c in after.tables[t].refs
      ensures c in after.tables[t].columns && HasColumn(after, after.tables[t].refs[c], "id")
    {
      assert IsBase(db, t);
      if t == table && c == f.column && f.fk != "" {
        assert CanRefer(db, f.fk, table, db.tables[table].columns);
      } else {
        assert c in db.tables[t].refs;
      }
    }
  }

  lemma ExecNames(db: Db, d: Ddl, n: Name)
    requires Exec(db, d).Some? && IsUp(d)
    ensures Has(Exec(db, d).value, n) <==> Has(db, n) || n in Created(d)
  {
  }

  ghost predicate AllUp(ddls: seq<Ddl>) { forall d :: d in ddls ==> IsUp(d) }

  // Running the first part of an up section keeps the rest fresh and the database consistent.
  lemma {:induction false} RunUp(db: Db, a: seq<Ddl>, b: seq<Ddl>)
    requires Consistent(db) && AllUp(a) && Fresh(db, a + b) && Run(db, a).Some?
    ensures Consistent(Run(db, a).value) && Fresh(db, a) && Fresh(Run(db, a).value, b)
    decreases |a|
  {
    hide Exec, Consistent, Created, IsUp, Has, Fresh;
    FreshParts(db, a, b);
    if a == [] {
      assert a + b == b;
    } else {
      var d, next := a[0], Exec(db, a[0]).value;
      assert d in a && forall e :: e in a[1..] ==> e in a;
      assert a + b == [d] + (a[1..] + b);
      ExecConsistent(db, d);
      FreshNext(db, d, a[1..] + b);
      RunUp(next, a[1..], b);
    }
  }

  lemma FreshParts(db: Db, a: seq<Ddl>, b: seq<Ddl>)
    requires Fresh(db, a + b)
    ensures Fresh(db, a) && Fresh(db, b)
  {
    hide Created, Has;
    NamesConcat(a, b);
    assert forall n :: n in Names(a) ==> n in Names(a + b);
    assert forall n :: n in Names(b) ==> n in Names(a + b);
    DistinctParts(Names(a), Names(b));
  }

  lemma FreshNext(db: Db, d: Ddl, rest: seq<Ddl>)
    requires Fresh(db, [d] + rest) && Exec(db, d).Some? && IsUp(d)
    ensures Fresh(Exec(db, d).value, rest)
  {
    hide Exec, Created, IsUp, Has;
    assert ([d] + rest)[1..] == rest;
    DistinctParts(Created(d), Names(rest));
    forall n | n in Names(rest)
      ensures !Has(Exec(db, d).value, n)
    {
      ExecNames(db, d, n);
      assert n in Names([d] + rest);
    }
  }

  lemma DistinctParts(a: seq<Name>, b: seq<Name>)
    requires Distinct(a + b)
    ensures Distinct(a) && Distinct(b) && forall n :: n in a ==> n !in b
  {
    var all := a + b;
    assert forall i :: 0 <= i < |a| ==> all[i] == a[i];
    assert forall j :: 0 <= j < |b| ==> all[|a| + j] == b[j];
  }

  // ---------- an added column ----------

  // `down` takes back what `up` did to this database.
  ghost predicate Undoes(db: Db, up: seq<Ddl>, down: seq<Ddl>) {
    Run(db, up).Some? ==> Run(Run(db, up).value, down) == Some(db)
  }

  // Undoing nests: the later step is taken back first.
  lemma UndoesNested(db: Db, up1: seq<Ddl>, up2: seq<Ddl>, down2: seq<Ddl>, down1: seq<Ddl>)
    requires Undoes(db, up1, down1)
    requires Run(db, up1).Some? ==> Undoes(Run(db, up1).value, up2, down2)
    ensures Undoes(db, up1 + up2, down2 + down1)
  {
    hide Exec;
    RunConcat(db, up1, up2);
    if Run(db, up1 + up2).Some? {
      RunConcat(Run(db, up1 + up2).value, down2, down1);
    }
  }

  lemma UndoesNothing(db: Db)
    ensures Undoes(db, [], [])
  {
  }

  lemma ColumnUndone(db: Db, table: string, f: MigField)
    requires Consistent(db)
    ensures Undoes(db, [AddColumn(table, f)], [DropColumn(table, f.column)])
  {
    RunOne(db, AddColumn(table, f));
    if Exec(db, AddColumn(table, f)).Some? {
      var after := Exec(db, AddColumn(table, f)).value;
      RunOne(after, DropColumn(table, f.column));
      var t := db.tables[table];
      assert f.column !in t.refs;
      assert WithColumn(t, f).columns - {f.column} == t.columns;
      assert WithColumn(t, f).refs - {f.column} == t.refs;
      assert WithoutColumn(after.tables[table], f.column) == t;
      if f.column == "id" {
        NoReferences(db, table, f);
      }
      assert after.tables[table := t] == db.tables;
    }
  }

  // Without an id column, a table cannot be referenced; a new id column is not referenced yet.
  lemma NoReferences(db: Db, table: string, f: MigField)
    requires Consistent(db) && f.column == "id" && Exec(db, AddColumn(table, f)).Some?
    ensures forall o :: o in db.tables ==> !ReferredBy(Exec(db, AddColumn(table, f)).value, table, o)
  {
    var after := Exec(db, AddColumn(table, f)).value;
    forall o, c | IsBase(after, o) && c in after.tables[o].refs
      ensures after.tables[o].refs[c] != table
    {
      if !(o == table && c == f.column && f.fk != "") {
        assert IsBase(db, o) && c in db.tables[o].refs;
      }
    }
  }

  lemma IndexUndone(db: Db, d: Ddl, drop: Ddl)
    requires d.CreateIndex? || d.CreateGinIndex? || d.CreateFulltextIndex?
    requires d.index !in db.indexes
    requires drop == DropIndex(d.index) || drop == DropIndexOn(d.index, d.table)
    ensures Undoes(db, [d], [drop])
  {
    RunOne(db, d);
    if Exec(db, d).Some? {
      var after := Exec(db, d).value;
      RunOne(after, drop);
      assert after.indexes - {d.index} == db.indexes;
    }
  }

  // The three triggers are dropped in the order they were created, which does not matter.
  lemma TriggersUndone(db: Db, d: Ddl)
    requires d.CreateFtsTrigger?
    requires forall e :: TriggerName(d.shadow, e) !in db.triggers
    ensures Undoes(db, [d.(event := AfterInsert), d.(event := AfterDelete), d.(event := AfterUpdate)],
                   [DropTrigger(TriggerName(d.shadow, AfterInsert)), DropTrigger(TriggerName(d.shadow, AfterDelete)),
                    DropTrigger(TriggerName(d.shadow, AfterUpdate))])
  {
    hide TriggerName;
    var i, e, u := TriggerName(d.shadow, AfterInsert), TriggerName(d.shadow, AfterDelete), TriggerName(d.shadow, AfterUpdate);
    var ups := [d.(event := AfterInsert), d.(event := AfterDelete), d.(event := AfterUpdate)];
    var drops := [DropTrigger(i), DropTrigger(e), DropTrigger(u)];
    var t := db.triggers;
    var after := db.(triggers := t[i := d.table][e := d.table][u := d.table]);
    TriggerNamesDiffer(d.shadow);
    if Run(db, ups).Some? {
      assert ups[1..][1..] == [ups[2]] && ups[2..][1..] == [];
      var d1 := db.(triggers := t[i := d.table]);
      var d2 := db.(triggers := t[i := d.table][e := d.table]);
      assert Exec(db, ups[0]) == Some(d1) && Exec(d1, ups[1]) == Some(d2) && Exec(d2, ups[2]) == Some(after);
      RunOne(d2, ups[2]);
      assert Run(db, ups) == Some(after);
      var a1 := after.(triggers := after.triggers - {i});
      var a2 := a1.(triggers := a1.triggers - {e});
      assert drops[1..][1..] == [drops[2]];
      assert Exec(after, drops[0]) == Some(a1) && Exec(a1, drops[1]) == Some(a2);
      RunOne(a2, drops[2]);
      assert Run(after, drops) == Exec(a2, drops[2]);
      assert after.triggers - {i} - {e} - {u} == t;
    }
  }

  lemma TriggerNamesDiffer(shadow: string)
    ensures TriggerName(shadow, AfterInsert) != TriggerName(shadow, AfterDelete)
    ensures TriggerName(shadow, AfterInsert) != TriggerName(shadow, AfterUpdate)
    ensures TriggerName(shadow, AfterDelete) != TriggerName(shadow, AfterUpdate)
  {
    var n := |shadow|;
    assert TriggerName(shadow, AfterInsert)[n..] == "_ai";
    assert TriggerName(shadow, AfterDelete)[n..] == "_ad";
    assert TriggerName(shadow, AfterUpdate)[n..] == "_au";
    assert "_ai"[2] != "_ad"[2] && "_ai"[2] != "_au"[2] && "_ad"[2] != "_au"[2];
  }

  lemma ShadowUndone(db: Db, d: Ddl)
    requires Consistent(db) && d.CreateFtsTable? && d.shadow !in db.tables
    ensures Undoes(db, [d], [DropTable(d.shadow)])
  {
    RunOne(db, d);
    if Exec(db, d).Some? {
      var after := Exec(db, d).value;
      RunOne(after, DropTable(d.shadow));
      assert forall o :: o in db.tables ==> after.tables[o] == db.tables[o];
      assert CanDropTable(after, d.shadow) by {
        forall o | o in after.tables && o != d.shadow
          ensures !ReferredBy(after, d.shadow, o)
        {
          assert IsBase(after, o) ==> IsBase(db, o);
        }
      }
      assert after.tables - {d.shadow} == db.tables;
      assert WithoutTable(after, d.shadow).indexes == db.indexes;
      assert WithoutTable(after, d.shadow).triggers == db.triggers;
    }
  }

  // Undoing in sequence, when the second part starts from what the first part built
  lemma UndoesSequence(db: Db, up1: seq<Ddl>, up2: seq<Ddl>, down2: seq<Ddl>, down1: seq<Ddl>)
    requires Consistent(db) && AllUp(up1) && Fresh(db, up1 + up2)
    requires Undoes(db, up1, down1)
    requires forall mid :: Consistent(mid) && Fresh(mid, up2) ==> Undoes(mid, up2, down2)
    ensures Undoes(db, up1 + up2, down2 + down1)
  {
    hide Exec, Fresh, Consistent;
    if Run(db, up1).Some? {
      RunUp(db, up1, up2);
    }
    UndoesNested(db, up1, up2, down2, down1);
  }

  // Full-text objects of a column
  lemma FtsUndone(db: Db, table: string, pk: string, f: MigField, driver: string)
    requires Consistent(db) && Fresh(db, Statements(FtsUp(table, pk, f, driver)))
    ensures Undoes(db, Statements(FtsUp(table, pk, f, driver)), Statements(FtsDown(table, f, driver)))
  {
    hide FtsIndexName, FtsShadowTable, UnsupportedText, TriggerName, Undoes;
    var up, down := Statements(FtsUp(table, pk, f, driver)), Statements(FtsDown(table, f, driver));
    var index, shadow := FtsIndexName(table, f.column), FtsShadowTable(table, f.column);
    if IsPostgres(driver) {
      var d := CreateGinIndex(index, table, f.column);
      FtsStatements(table, pk, f, driver);
      FreshOne(db, d);
      assert IndexNamed(index) in Created(d);
      IndexUndone(db, d, DropIndex(index));
    } else if driver == "mysql" {
      var d := CreateFulltextIndex(index, table, f.column);
      FtsStatements(table, pk, f, driver);
      FreshOne(db, d);
      assert IndexNamed(index) in Created(d);
      IndexUndone(db, d, DropIndexOn(index, table));
    } else if driver == "sqlite" || driver == "sqlite3" {
      FtsStatements(table, pk, f, driver);
      SqliteFtsUndone(db, shadow, table, f.column, pk);
    } else {
      FtsStatements(table, pk, f, driver);
      UndoesNothing(db);
    }
  }

  function SqliteUp(shadow: string, table: string, column: string, pk: string): seq<Ddl> {
    [CreateFtsTable(shadow, table, column, pk)]
    + [CreateFtsTrigger(AfterInsert, shadow, table, column, pk), CreateFtsTrigger(AfterDelete, shadow, table, column, pk),
       CreateFtsTrigger(AfterUpdate, shadow, table, column, pk)]
  }

  function SqliteDown(shadow: string): seq<Ddl> {
    [DropTrigger(TriggerName(shadow, AfterInsert)), DropTrigger(TriggerName(shadow, AfterDelete)),
     DropTrigger(TriggerName(shadow, AfterUpdate))]
    + [DropTable(shadow)]
  }

  lemma FtsStatements(table: string, pk: string, f: MigField, driver: string)
    ensures var index := FtsIndexName(table, f.column);
      && (IsPostgres(driver) ==>
            && Statements(FtsUp(table, pk, f, driver)) == [CreateGinIndex(index, table, f.column)]
            && Statements(FtsDown(table, f, driver)) == [DropIndex(index)])
      && (driver == "mysql" ==>
            && Statements(FtsUp(table, pk, f, driver)) == [CreateFulltextIndex(index, table, f.column)]
            && Statements(FtsDown(table, f, driver)) == [DropIndexOn(index, table)])
      && (driver == "sqlite" || driver == "sqlite3" ==>
            && Statements(FtsUp(table, pk, f, driver)) == SqliteUp(FtsShadowTable(table, f.column), table, f.column, pk)
            && Statements(FtsDown(table, f, driver)) == SqliteDown(FtsShadowTable(table, f.column)))
      && (!IsPostgres(driver) && driver != "mysql" && driver != "sqlite" && driver != "sqlite3" ==>
            && Statements(FtsUp(table, pk, f, driver)) == []
            && Statements(FtsDown(table, f, driver)) == [])
  {
    hide FtsIndexName, FtsShadowTable, UnsupportedText, TriggerName;
    var index, shadow := FtsIndexName(table, f.column), FtsShadowTable(table, f.column);
    if IsPostgres(driver) {
      StatementsAfterBlank([CreateGinIndex(index, table, f.column)]);
      StatementsOfStmts([DropIndex(index)]);
      assert FtsUp(table, pk, f, driver) == [Blank] + Stmts([CreateGinIndex(index, table, f.column)]);
      assert FtsDown(table, f, driver) == Stmts([DropIndex(index)]);
    } else if driver == "mysql" {
      StatementsAfterBlank([CreateFulltextIndex(index, table, f.column)]);
      StatementsOfStmts([DropIndexOn(index, table)]);
      assert FtsUp(table, pk, f, driver) == [Blank] + Stmts([CreateFulltextIndex(index, table, f.column)]);
      assert FtsDown(table, f, driver) == Stmts([DropIndexOn(index, table)]);
    } else if driver == "sqlite" || driver == "sqlite3" {
      StatementsAfterBlank(SqliteUp(shadow, table, f.column, pk));
      StatementsOfStmts(SqliteDown(shadow));
      assert FtsUp(table, pk, f, driver) == [Blank] + Stmts(SqliteUp(shadow, table, f.column, pk));
      assert FtsDown(table, f, driver) == Stmts(SqliteDown(shadow));
    } else {
      NotesHoldNothing(FtsUp(table, pk, f, driver));
    }
  }

  function Stmts(ddls: seq<Ddl>): seq<Block> {
    seq(|ddls|, i requires 0 <= i < |ddls| => Stmt(ddls[i]))
  }

  lemma {:induction false} StatementsOfStmts(ddls: seq<Ddl>)
    ensures Statements(Stmts(ddls)) == ddls
  {
    if ddls != [] {
      StatementsOfStmts(ddls[1..]);
      assert Stmts(ddls)[1..] == Stmts(ddls[1..]);
    }
  }

  lemma StatementsAfterBlank(ddls: seq<Ddl>)
    ensures Statements([Blank] + Stmts(ddls)) == ddls
  {
    StatementsOfStmts(ddls);
    assert ([Blank] + Stmts(ddls))[1..] == Stmts(ddls);
  }

  lemma FreshOne(db: Db, d: Ddl)
    requires Fresh(db, [d])
    ensures forall n :: n in Created(d) ==> !Has(db, n)
  {
    assert [d][1..] == [];
    assert Names([d]) == Created(d) + Names([d][1..]);
  }

  lemma SqliteFtsUndone(db: Db, shadow: string, table: string, column: string, pk: string)
    requires Consistent(db) && Fresh(db, SqliteUp(shadow, table, column, pk))
    ensures Undoes(db, SqliteUp(shadow, table, column, pk), SqliteDown(shadow))
  {
    hide Exec, Consistent, TriggerName, Undoes;
    var create := CreateFtsTable(shadow, table, column, pk);
    var up1, up2 := [create], SqliteUp(shadow, table, column, pk)[1..];
    var down2 := SqliteDown(shadow)[..3];
    assert SqliteUp(shadow, table, column, pk) == up1 + up2;
    assert SqliteDown(shadow) == down2 + [DropTable(shadow)];
    FreshParts(db, up1, up2);
    FreshOne(db, create);
    assert TableNamed(shadow) in Created(create);
    ShadowUndone(db, create);
    forall mid | Consistent(mid) && Fresh(mid, up2)
      ensures Undoes(mid, up2, down2)
    {
      FreshTriggers(mid, shadow, table, column, pk);
      TriggersUndone(mid, up2[0]);
    }
    UndoesSequence(db, up1, up2, down2, [DropTable(shadow)]);
  }

  lemma FreshTriggers(db: Db, shadow: string, table: string, column: string, pk: string)
    requires Fresh(db, SqliteUp(shadow, table, column, pk)[1..])
    ensures forall e :: TriggerName(shadow, e) !in db.triggers
  {
    hide TriggerName;
    var up := SqliteUp(shadow, table, column, pk)[1..];
    assert up[1..][1..] == [up[2]] && up[2..][1..] == [];
    assert Names(up) == Created(up[0]) + Names(up[1..]);
    assert Names(up[1..]) == Created(up[1]) + Names([up[2]]);
    assert Names([up[2]]) == Created(up[2]) + Names([up[2]][1..]);
    forall e
      ensures TriggerName(shadow, e) !in db.triggers
    {
      var k := match e case AfterInsert => 0 case AfterDelete => 1 case AfterUpdate => 2;
      assert up[k].event == e;
      assert TriggerNamed(TriggerName(shadow, up[k].event)) in Created(up[k]);
      assert TriggerNamed(TriggerName(shadow, e)) in Names(up);
    }
  }

  // ---------- changed tables ----------

  lemma AddUndone(db: Db, a: MigAlter, f: MigField, driver: string)
    requires Consistent(db) && Fresh(db, Statements(AddUp(a, f, driver)))
    ensures Undoes(db, Statements(AddUp(a, f, driver)), Statements(AddDown(a, f, driver)))
  {
    hide Exec, Consistent, Fresh, FtsUp, FtsDown, IndexName, Undoes;
    var index := IndexName(a.table, f.column);
    var create := CreateIndex(f.unique, index, a.table, f.column);
    var indexed := f.unique || f.fk != "";
    var up1, down1 := [AddColumn(a.table, f)], [DropColumn(a.table, f.column)];
    var up2, down2 := if indexed then [create] else [], if indexed then [DropIndex(index)] else [];
    var up3 := if f.fts then Statements(FtsUp(a.table, a.pkColumn, f, driver)) else [];
    var down3 := if f.fts then Statements(FtsDown(a.table, f, driver)) else [];
    AddStatements(a, f, driver);
    assert Statements(AddUp(a, f, driver)) == up1 + up2 + up3;
    assert Statements(AddDown(a, f, driver)) == down3 + (down2 + down1);
    ColumnUndone(db, a.table, f);
    FreshParts(db, up1 + up2, up3);
    forall mid | Consistent(mid) && Fresh(mid, up2)
      ensures Undoes(mid, up2, down2)
    {
      if indexed {
        FreshOne(mid, create);
        assert IndexNamed(index) in Created(create);
        IndexUndone(mid, create, DropIndex(index));
      } else {
        UndoesNothing(mid);
      }
    }
    UndoesSequence(db, up1, up2, down2, down1);
    forall mid | Consistent(mid) && Fresh(mid, up3)
      ensures Undoes(mid, up3, down3)
    {
      if f.fts {
        FtsUndone(mid, a.table, a.pkColumn, f, driver);
      } else {
        UndoesNothing(mid);
      }
    }
    UndoesSequence(db, up1 + up2, up3, down3, down2 + down1);
  }

  lemma AddStatements(a: MigAlter, f: MigField, driver: string)
    ensures var index := IndexName(a.table, f.column);
      var indexed := f.unique || f.fk != "";
      && Statements(AddUp(a, f, driver)) ==
           [AddColumn(a.table, f)] + (if indexed then [CreateIndex(f.unique, index, a.table, f.column)] else [])
           + (if f.fts then Statements(FtsUp(a.table, a.pkColumn, f, driver)) else [])
      && Statements(AddDown(a, f, driver)) ==
           (if f.fts then Statements(FtsDown(a.table, f, driver)) else [])
           + ((if indexed then [DropIndex(index)] else []) + [DropColumn(a.table, f.column)])
  {
    hide FtsUp, FtsDown, IndexName;
    var index := IndexName(a.table, f.column);
    var indexed := f.unique || f.fk != "";
    var ups := [AddColumn(a.table, f)] + (if indexed then [CreateIndex(f.unique, index, a.table, f.column)] else []);
    var fts := if f.fts then FtsUp(a.table, a.pkColumn, f, driver) else [];
    assert AddUp(a, f, driver) == Stmts(ups) + fts;
    StatementsConcat(Stmts(ups), fts);
    StatementsOfStmts(ups);
    var downs := (if indexed then [DropIndex(index)] else []) + [DropColumn(a.table, f.column)];
    var ftsDown := if f.fts then FtsDown(a.table, f, driver) else [];
    assert AddDown(a, f, driver) == ftsDown + Stmts(downs);
    StatementsConcat(ftsDown, Stmts(downs));
    StatementsOfStmts(downs);
  }

  lemma {:induction false} AddsDownSnoc(a: MigAlter, add: seq<MigField>, driver: string)
    requires add != []
    ensures AddsDown(a, add, driver)
         == AddDown(a, add[|add| - 1], driver) + AddsDown(a, add[..|add| - 1], driver)
  {
    hide AddDown;
    if |add| > 1 {
      AddsDownSnoc(a, add[1..], driver);
      var init := add[..|add| - 1];
      assert add[1..][|add| - 2] == add[|add| - 1] && add[1..][..|add| - 2] == init[1..];
    } else {
      assert add[1..] == [] && add[..0] == [];
    }
  }

  lemma {:induction false} AddsUndone(db: Db, a: MigAlter, add: seq<MigField>, driver: string)
    requires Consistent(db) && Fresh(db, Statements(AddsUp(a, add, driver)))
    ensures Undoes(db, Statements(AddsUp(a, add, driver)), Statements(AddsDown(a, add, driver)))
  {
    hide Exec, Consistent, Fresh, AddUp, AddDown, Undoes;
    if add == [] {
      UndoesNothing(db);
    } else {
      var init, f := add[..|add| - 1], add[|add| - 1];
      var up1, up2 := Statements(AddsUp(a, init, driver)), Statements(AddUp(a, f, driver));
      var down1, down2 := Statements(AddsDown(a, init, driver)), Statements(AddDown(a, f, driver));
      StatementsConcat(AddsUp(a, init, driver), AddUp(a, f, driver));
      AddsDownSnoc(a, add, driver);
      StatementsConcat(AddDown(a, f, driver), AddsDown(a, init, driver));
      FreshParts(db, up1, up2);
      AddsUndone(db, a, init, driver);
      AddsAreUp(a, init, driver);
      forall mid | Consistent(mid) && Fresh(mid, up2)
        ensures Undoes(mid, up2, down2)
      {
        AddUndone(mid, a, f, driver);
      }
      UndoesSequence(db, up1, up2, down2, down1);
    }
  }

  lemma FtsIsUp(table: string, pk: string, f: MigField, driver: string)
    ensures AllUp(Statements(FtsUp(table, pk, f, driver)))
  {
    hide FtsIndexName, FtsShadowTable;
    FtsStatements(table, pk, f, driver);
  }

  lemma {:induction false} AddsAreUp(a: MigAlter, add: seq<MigField>, driver: string)
    ensures AllUp(Statements(AddsUp(a, add, driver)))
  {
    hide AddUp, FtsUp, IndexName;
    if add != [] {
      var init, f := add[..|add| - 1], add[|add| - 1];
      AddsAreUp(a, init, driver);
      StatementsConcat(AddsUp(a, init, driver), AddUp(a, f, driver));
      AddStatements(a, f, driver);
      FtsIsUp(a.table, a.pkColumn, f, driver);
    }
  }

  // The comments of a changed table are not statements.
  lemma AlterStatements(a: MigAlter, driver: string)
    ensures Statements(AlterUp(a, driver)) == Statements(AddsUp(a, a.add, driver))
  {
    hide AddsUp, AddedText, RemovedText, AdviceText, SuggestionText;
    var title := [Blank, NoteLine(AddedText(a.table))];
    var removed := if |a.removed| > 0
      then [Blank, NoteLine(RemovedText(a.table)), NoteLine(AdviceText())] + Suggestions(a.table, a.removed) else [];
    NotesHoldNothing(title);
    NotesHoldNothing(removed);
    var adds := if |a.add| > 0 then title + AddsUp(a, a.add, driver) else [];
    StatementsConcat(adds, removed);
    StatementsConcat(title, AddsUp(a, a.add, driver));
    if |a.add| == 0 {
      NoAdds(a, driver);
    }
  }

  lemma NoAdds(a: MigAlter, driver: string)
    ensures AddsUp(a, [], driver) == []
  {
  }

  lemma {:induction false} NotesHoldNothing(blocks: seq<Block>)
    requires forall b :: b in blocks ==> !b.Stmt?
    ensures Statements(blocks) == []
  {
    if blocks != [] {
      NotesHoldNothing(blocks[1..]);
    }
  }

  lemma {:induction false} AltersDownSnoc(alters: seq<MigAlter>, driver: string)
    requires alters != []
    ensures var last := alters[|alters| - 1];
      AltersDown(alters, driver) == AddsDown(last, last.add, driver) + AltersDown(alters[..|alters| - 1], driver)
  {
    hide AddsDown;
    if |alters| > 1 {
      AltersDownSnoc(alters[1..], driver);
      var init := alters[..|alters| - 1];
      assert alters[1..][|alters| - 2] == alters[|alters| - 1] && alters[1..][..|alters| - 2] == init[1..];
    } else {
      assert alters[1..] == [] && alters[..0] == [];
    }
  }

  lemma {:induction false} AltersUndone(db: Db, alters: seq<MigAlter>, driver: string)
    requires Consistent(db) && Fresh(db, Statements(AltersUp(alters, driver)))
    ensures Undoes(db, Statements(AltersUp(alters, driver)), Statements(AltersDown(alters, driver)))
    ensures AllUp(Statements(AltersUp(alters, driver)))
  {
    hide Exec, Consistent, Fresh, AlterUp, AddsDown, AddsUp, Undoes, IsUp;
    if alters == [] {
      UndoesNothing(db);
    } else {
      var init, a := alters[..|alters| - 1], alters[|alters| - 1];
      var up1, up2 := Statements(AltersUp(init, driver)), Statements(AddsUp(a, a.add, driver));
      var down1, down2 := Statements(AltersDown(init, driver)), Statements(AddsDown(a, a.add, driver));
      StatementsConcat(AltersUp(init, driver), AlterUp(a, driver));
      AlterStatements(a, driver);
      AltersDownSnoc(alters, driver);
      StatementsConcat(AddsDown(a, a.add, driver), AltersDown(init, driver));
      FreshParts(db, up1, up2);
      AltersUndone(db, init, driver);
      AddsAreUp(a, a.add, driver);
      forall mid | Consistent(mid) && Fresh(mid, up2)
        ensures Undoes(mid, up2, down2)
      {
        AddsUndone(mid, a, a.add, driver);
      }
      UndoesSequence(db, up1, up2, down2, down1);
    }
  }

  // ---------- new tables ----------

  // The database without a table and everything attached to it
  function Strip(db: Db, table: string): Db {
    Db(map t | t in db.tables && t != table && !IsShadowOf(db.tables[t], table) :: db.tables[t],
       map i | i in db.indexes && db.indexes[i].table != table :: db.indexes[i],
       map g | g in db.triggers && db.triggers[g] != table :: db.triggers[g])
  }

  predicate IsShadowOf(t: Table, content: string) { t.Shadow? && t.content == content }

  // A statement that attaches something to the table
  predicate Attaches(d: Ddl, table: string) {
    && (d.CreateIndex? || d.CreateGinIndex? || d.CreateFulltextIndex? || d.CreateFtsTable? || d.CreateFtsTrigger?)
    && d.table == table
  }

  // If the name is in use, it belongs to the table.
  predicate Owned(db: Db, n: Name, table: string) {
    match n
    case TableNamed(t) => t in db.tables ==> IsShadowOf(db.tables[t], table)
    case IndexNamed(i) => i in db.indexes ==> db.indexes[i].table == table
    case TriggerNamed(g) => g in db.triggers ==> db.triggers[g] == table
  }

  ghost predicate AllAttach(ddls: seq<Ddl>, table: string) { forall d :: d in ddls ==> Attaches(d, table) }

  ghost predicate AllOwned(db: Db, names: seq<Name>, table: string) { forall n :: n in names ==> Owned(db, n, table) }

  // Every full-text table over `table` is among the names.
  ghost predicate ShadowsAmong(db: Db, names: seq<Name>, table: string) {
    forall s :: s in db.tables && IsShadowOf(db.tables[s], table) ==> TableNamed(s) in names
  }

  lemma AttachStep(db: Db, d: Ddl, table: string)
    requires IsBase(db, table) && Attaches(d, table) && Exec(db, d).Some?
    requires forall n :: n in Created(d) ==> !Has(db, n)
    ensures var after := Exec(db, d).value;
      && IsBase(after, table) && Strip(after, table) == Strip(db, table)
      && (forall n :: Owned(db, n, table) ==> Owned(after, n, table))
      && (forall n :: n in Created(d) ==> Owned(after, n, table) && Has(after, n))
      && (forall n :: Has(db, n) ==> Has(after, n))
      && (forall s :: s in after.tables && s !in db.tables ==> TableNamed(s) in Created(d))
      && (forall s :: s in db.tables ==> after.tables[s] == db.tables[s])
  {
    hide TriggerName, Strip;
    AttachStrips(db, d, table);
    assert Created(d) != [] && !Has(db, Created(d)[0]);
  }

  lemma AttachStrips(db: Db, d: Ddl, table: string)
    requires IsBase(db, table) && Attaches(d, table) && Exec(db, d).Some?
    requires forall n :: n in Created(d) ==> !Has(db, n)
    ensures Strip(Exec(db, d).value, table) == Strip(db, table)
  {
    hide TriggerName;
    var after := Exec(db, d).value;
    assert Created(d) != [] && !Has(db, Created(d)[0]);
    assert Strip(after, table).tables == Strip(db, table).tables;
    assert Strip(after, table).indexes == Strip(db, table).indexes;
    assert Strip(after, table).triggers == Strip(db, table).triggers;
  }

  // Attaching things to a table changes nothing else, and everything named is the table's.
  lemma {:induction false} AttachRun(db: Db, ups: seq<Ddl>, table: string, known: seq<Name>)
    requires Consistent(db) && IsBase(db, table) && AllAttach(ups, table) && Fresh(db, ups) && Run(db, ups).Some?
    requires ShadowsAmong(db, known, table) && AllOwned(db, known, table) && forall n :: n in known ==> Has(db, n)
    ensures var after := Run(db, ups).value;
      && Consistent(after) && IsBase(after, table) && Strip(after, table) == Strip(db, table)
      && AllOwned(after, known + Names(ups), table)
      && (forall n :: n in known + Names(ups) ==> Has(after, n))
      && ShadowsAmong(after, known + Names(ups), table)
    decreases |ups|
  {
    hide Exec, Consistent, Strip, Created, Has, Owned, Attaches, IsUp;
    if ups == [] {
      assert known + Names(ups) == known;
    } else {
      var d := ups[0];
      assert d in ups && Attaches(d, table);
      AttachesIsUp(d, table);
      assert [d] + ups[1..] == ups;
      FreshParts(db, [d], ups[1..]);
      FreshOne(db, d);
      AttachStep(db, d, table);
      RunOne(db, d);
      RunUp(db, [d], ups[1..]);
      var next := Exec(db, d).value;
      assert ShadowsAmong(next, known + Created(d), table);
      assert (known + Created(d)) + Names(ups[1..]) == known + Names(ups);
      AttachRun(next, ups[1..], table, known + Created(d));
    }
  }

  lemma AttachesIsUp(d: Ddl, table: string)
    requires Attaches(d, table)
    ensures IsUp(d)
  {
  }

  // ---------- detaching ----------

  function Dropped(d: Ddl): seq<Name> {
    match d
    case DropIndex(index) => [IndexNamed(index)]
    case DropIndexOn(index, _) => [IndexNamed(index)]
    case DropTrigger(trigger) => [TriggerNamed(trigger)]
    case DropTable(table) => [TableNamed(table)]
    case _ => []
  }

  function DroppedNames(ddls: seq<Ddl>): seq<Name> {
    if ddls == [] then [] else Dropped(ddls[0]) + DroppedNames(ddls[1..])
  }

  ghost predicate Detaches(d: Ddl, table: string, names: seq<Name>) {
    && (d.DropIndex? || (d.DropIndexOn? && d.table == table) || d.DropTrigger? || d.DropTable?)
    && forall n :: n in Dropped(d) ==> n in names
  }

  lemma DetachStep(db: Db, d: Ddl, table: string, names: seq<Name>)
    requires Consistent(db) && IsBase(db, table) && AllOwned(db, names, table) && Detaches(d, table, names)
    requires forall n :: n in Dropped(d) ==> Has(db, n)
    ensures Exec(db, d).Some?
    ensures var after := Exec(db, d).value;
      && Consistent(after) && IsBase(after, table) && Strip(after, table) == Strip(db, table)
      && AllOwned(after, names, table)
      && (forall n :: Has(after, n) <==> Has(db, n) && n !in Dropped(d))
      && (forall s :: s in after.tables ==> s in db.tables && after.tables[s] == db.tables[s])
  {
    hide Consistent, Strip;
    var n := Dropped(d)[0];
    assert n in Dropped(d) && Has(db, n) && n in names && Owned(db, n, table);
    if d.DropTable? {
      DetachShadow(db, d.table, table);
    } else if d.DropTrigger? {
      DetachTrigger(db, d.trigger, table);
    } else {
      DetachIndex(db, d.index, table);
    }
    assert forall n :: n in names ==> Owned(db, n, table);
  }

  lemma DetachIndex(db: Db, index: string, table: string)
    requires Consistent(db) && IsBase(db, table) && index in db.indexes && db.indexes[index].table == table
    ensures var after := db.(indexes := db.indexes - {index});
      Consistent(after) && Strip(after, table) == Strip(db, table)
  {
    var after := db.(indexes := db.indexes - {index});
    assert forall t, c :: HasColumn(after, t, c) <==> HasColumn(db, t, c);
    assert forall t :: IsBase(after, t) <==> IsBase(db, t);
    assert Strip(after, table).indexes == Strip(db, table).indexes;
  }

  lemma DetachTrigger(db: Db, trigger: string, table: string)
    requires Consistent(db) && IsBase(db, table) && trigger in db.triggers && db.triggers[trigger] == table
    ensures var after := db.(triggers := db.triggers - {trigger});
      Consistent(after) && Strip(after, table) == Strip(db, table)
  {
    var after := db.(triggers := db.triggers - {trigger});
    assert forall t, c :: HasColumn(after, t, c) <==> HasColumn(db, t, c);
    assert forall t :: IsBase(after, t) <==> IsBase(db, t);
    assert Strip(after, table).triggers == Strip(db, table).triggers;
  }

  // Nothing refers to a full-text table, so it can be dropped and takes nothing with it.
  lemma ShadowDrops(db: Db, shadow: string, table: string)
    requires Consistent(db) && shadow in db.tables && IsShadowOf(db.tables[shadow], table)
    ensures Exec(db, DropTable(shadow)) == Some(db.(tables := db.tables - {shadow}))
  {
    assert !IsBase(db, shadow);
    assert forall o, c :: IsBase(db, o) && c in db.tables[o].refs ==> HasColumn(db, db.tables[o].refs[c], "id");
    assert CanDropTable(db, shadow);
    assert WithoutTable(db, shadow).indexes == db.indexes;
    assert WithoutTable(db, shadow).triggers == db.triggers;
  }

  lemma ShadowGone(db: Db, shadow: string, table: string)
    requires Consistent(db) && shadow in db.tables && IsShadowOf(db.tables[shadow], table)
    ensures Consistent(db.(tables := db.tables - {shadow}))
  {
    var after := db.(tables := db.tables - {shadow});
    assert forall t :: IsBase(after, t) <==> IsBase(db, t);
    assert forall t, c :: HasColumn(after, t, c) <==> HasColumn(db, t, c);
    forall t, c | IsBase(after, t) && c in after.tables[t].refs
      ensures c in after.tables[t].columns && HasColumn(after, after.tables[t].refs[c], "id")
    {
      assert IsBase(db, t) && c in db.tables[t].refs;
    }
  }

  lemma DetachShadow(db: Db, shadow: string, table: string)
    requires Consistent(db) && IsBase(db, table) && shadow in db.tables && IsShadowOf(db.tables[shadow], table)
    ensures Exec(db, DropTable(shadow)) == Some(db.(tables := db.tables - {shadow}))
    ensures var after := db.(tables := db.tables - {shadow});
      Consistent(after) && IsBase(after, table) && Strip(after, table) == Strip(db, table)
  {
    hide Consistent, Exec;
    var after := db.(tables := db.tables - {shadow});
    ShadowDrops(db, shadow, table);
    ShadowGone(db, shadow, table);
    assert Strip(after, table).tables == Strip(db, table).tables;
  }

  // Detaching distinct names of the table takes away exactly those names.
  lemma {:induction false} DetachRun(db: Db, downs: seq<Ddl>, table: string, names: seq<Name>)
    requires Consistent(db) && IsBase(db, table) && AllOwned(db, names, table)
    requires forall d :: d in downs ==> Detaches(d, table, names)
    requires Distinct(DroppedNames(downs)) && forall n :: n in DroppedNames(downs) ==> Has(db, n)
    ensures Run(db, downs).Some?
    ensures var after := Run(db, downs).value;
      && Consistent(after) && IsBase(after, table) && Strip(after, table) == Strip(db, table)
      && (forall s :: s in after.tables ==> s in db.tables && after.tables[s] == db.tables[s])
      && (forall n :: n in DroppedNames(downs) ==> !Has(after, n))
      && (forall n :: Has(after, n) ==> Has(db, n))
    decreases |downs|
  {
    hide Exec, Consistent, Strip, Dropped, Has, AllOwned, Detaches;
    if downs != [] {
      var d, rest := downs[0], downs[1..];
      assert d in downs;
      assert DroppedNames(downs) == Dropped(d) + DroppedNames(rest);
      DistinctParts(Dropped(d), DroppedNames(rest));
      DetachStep(db, d, table, names);
      DetachRun(Exec(db, d).value, rest, table, names);
    }
  }

  lemma {:induction false} DroppedConcat(a: seq<Ddl>, b: seq<Ddl>)
    ensures DroppedNames(a + b) == DroppedNames(a) + DroppedNames(b)
  {
    if a == [] {
      assert a + b == b;
    } else {
      assert (a + b)[1..] == a[1..] + b;
      DroppedConcat(a[1..], b);
    }
  }

  // What the down section drops of a field, against what the up section created for it
  ghost predicate TakesBack(ups: seq<Ddl>, downs: seq<Ddl>, table: string) {
    && AllAttach(ups, table)
    && (forall d :: d in downs ==> Detaches(d, table, Names(ups)))
    && (forall s :: TableNamed(s) in Names(ups) ==> TableNamed(s) in DroppedNames(downs))
    && (Distinct(Names(ups)) ==> Distinct(DroppedNames(downs)))
  }

  lemma FtsTakesBack(table: string, pk: string, f: MigField, driver: string)
    ensures TakesBack(Statements(FtsUp(table, pk, f, driver)), Statements(FtsDown(table, f, driver)), table)
  {
    hide FtsIndexName, FtsShadowTable, TriggerName;
    FtsStatements(table, pk, f, driver);
    var index, shadow := FtsIndexName(table, f.column), FtsShadowTable(table, f.column);
    if driver == "sqlite" || driver == "sqlite3" {
      SqliteTakesBack(shadow, table, f.column, pk);
    } else if IsPostgres(driver) {
      NamesOfOne(CreateGinIndex(index, table, f.column), DropIndex(index));
    } else if driver == "mysql" {
      NamesOfOne(CreateFulltextIndex(index, table, f.column), DropIndexOn(index, table));
    }
  }

  lemma NamesOfOne(up: Ddl, down: Ddl)
    ensures Names([up]) == Created(up) && DroppedNames([down]) == Dropped(down)
  {
    assert [up][1..] == [] && [down][1..] == [];
  }

  lemma SqliteTakesBack(shadow: string, table: string, column: string, pk: string)
    ensures TakesBack(SqliteUp(shadow, table, column, pk), SqliteDown(shadow), table)
  {
    hide TriggerName, Names, DroppedNames;
    var up, down := SqliteUp(shadow, table, column, pk), SqliteDown(shadow);
    TriggerNamesDiffer(shadow);
    SqliteNames(shadow, table, column, pk);
    var dropped := DroppedNames(down);
    assert Distinct(dropped);
    forall d | d in down
      ensures Detaches(d, table, Names(up))
    {
      var k :| 0 <= k < 4 && d == down[k];
      assert Dropped(d) == [dropped[k]];
      assert dropped[k] == Names(up)[(k + 1) % 4];
    }
  }

  lemma SqliteNames(shadow: string, table: string, column: string, pk: string)
    ensures Names(SqliteUp(shadow, table, column, pk))
         == [TableNamed(shadow), TriggerNamed(TriggerName(shadow, AfterInsert)),
             TriggerNamed(TriggerName(shadow, AfterDelete)), TriggerNamed(TriggerName(shadow, AfterUpdate))]
    ensures DroppedNames(SqliteDown(shadow))
         == [TriggerNamed(TriggerName(shadow, AfterInsert)), TriggerNamed(TriggerName(shadow, AfterDelete)),
             TriggerNamed(TriggerName(shadow, AfterUpdate)), TableNamed(shadow)]
  {
    hide TriggerName, Names, DroppedNames;
    var up, down := SqliteUp(shadow, table, column, pk), SqliteDown(shadow);
    NamesOfFour(up);
    DroppedOfFour(down);
  }

  lemma NamesOfFour(ddls: seq<Ddl>)
    requires |ddls| == 4
    ensures Names(ddls) == Created(ddls[0]) + (Created(ddls[1]) + (Created(ddls[2]) + Created(ddls[3])))
  {
    hide Created;
    assert ddls[1..][1..] == ddls[2..] && ddls[2..][1..] == ddls[3..] && ddls[3..][1..] == [];
    assert Names(ddls[3..]) == Created(ddls[3]);
    assert Names(ddls[2..]) == Created(ddls[2]) + Names(ddls[3..]);
    assert Names(ddls[1..]) == Created(ddls[1]) + Names(ddls[2..]);
  }

  lemma DroppedOfFour(ddls: seq<Ddl>)
    requires |ddls| == 4
    ensures DroppedNames(ddls) == Dropped(ddls[0]) + (Dropped(ddls[1]) + (Dropped(ddls[2]) + Dropped(ddls[3])))
  {
    hide Dropped;
    assert ddls[1..][1..] == ddls[2..] && ddls[2..][1..] == ddls[3..] && ddls[3..][1..] == [];
    assert DroppedNames(ddls[3..]) == Dropped(ddls[3]);
    assert DroppedNames(ddls[2..]) == Dropped(ddls[2]) + DroppedNames(ddls[3..]);
    assert DroppedNames(ddls[1..]) == Dropped(ddls[1]) + DroppedNames(ddls[2..]);
  }

  // Taking back two parts takes back both, whichever order the down section uses.
  lemma TakesBackBoth(up1: seq<Ddl>, up2: seq<Ddl>, down1: seq<Ddl>, down2: seq<Ddl>, table: string)
    requires TakesBack(up1, down1, table) && TakesBack(up2, down2, table)
    ensures TakesBack(up1 + up2, down1 + down2, table) && TakesBack(up1 + up2, down2 + down1, table)
  {
    hide Dropped, Created, Attaches;
    NamesConcat(up1, up2);
    DroppedConcat(down1, down2);
    DroppedConcat(down2, down1);
    if Distinct(Names(up1) + Names(up2)) {
      DistinctParts(Names(up1), Names(up2));
      DroppedAmong(down1, table, Names(up1));
      DroppedAmong(down2, table, Names(up2));
      DistinctUnion(DroppedNames(down1), DroppedNames(down2));
      DistinctUnion(DroppedNames(down2), DroppedNames(down1));
    }
  }

  lemma {:induction false} DroppedAmong(downs: seq<Ddl>, table: string, names: seq<Name>)
    requires forall d :: d in downs ==> Detaches(d, table, names)
    ensures forall n :: n in DroppedNames(downs) ==> n in names
  {
    if downs != [] {
      assert downs[0] in downs;
      DroppedAmong(downs[1..], table, names);
    }
  }

  lemma DistinctUnion(a: seq<Name>, b: seq<Name>)
    requires Distinct(a) && Distinct(b) && forall n :: n in a ==> n !in b
    ensures Distinct(a + b)
  {
    var all := a + b;
    forall i, j | 0 <= i < j < |all|
      ensures all[i] != all[j]
    {
      if i < |a| <= j {
        assert a[i] in a && b[j - |a|] in b;
      }
    }
  }

  lemma FieldTakesBack(m: MigModel, f: MigField, driver: string)
    ensures TakesBack(Statements(FieldUp(m, f, driver)), Statements(FieldDown(m, f, driver)), m.table)
  {
    hide FtsUp, FtsDown, IndexName, TakesBack;
    var index := IndexName(m.table, f.column);
    var unique, plain := CreateIndex(true, index, m.table, f.column), CreateIndex(false, index, m.table, f.column);
    var up1 := if f.unique && !f.isPK then [unique] else if f.fk != "" && !f.unique then [plain] else [];
    var down1 := if (f.unique || f.fk != "") && !f.isPK then [DropIndex(index)] else [];
    var up2 := if f.fts then Statements(FtsUp(m.table, PKColumn(m.fields), f, driver)) else [];
    var down2 := if f.fts then Statements(FtsDown(m.table, f, driver)) else [];
    FieldStatements(m, f, driver);
    assert TakesBack(up1, down1, m.table) by {
      OneIndexTakesBack(up1, down1, m.table, index);
    }
    assert TakesBack(up2, down2, m.table) by {
      if f.fts {
        FtsTakesBack(m.table, PKColumn(m.fields), f, driver);
      } else {
        NothingTaken(m.table);
      }
    }
    TakesBackBoth(up1, up2, down1, down2, m.table);
  }

  lemma NothingTaken(table: string)
    ensures TakesBack([], [], table)
  {
  }

  lemma OneIndexTakesBack(up: seq<Ddl>, down: seq<Ddl>, table: string, index: string)
    requires up == [] || (|up| == 1 && up[0].CreateIndex? && up[0].index == index && up[0].table == table)
    requires down == [] || (down == [DropIndex(index)] && up != [])
    ensures TakesBack(up, down, table)
  {
    if up != [] {
      NamesOfOne(up[0], DropIndex(index));
      assert up == [up[0]];
    }
  }

  lemma FieldStatements(m: MigModel, f: MigField, driver: string)
    ensures var index := IndexName(m.table, f.column);
      && Statements(FieldUp(m, f, driver)) ==
           (if f.unique && !f.isPK then [CreateIndex(true, index, m.table, f.column)]
            else if f.fk != "" && !f.unique then [CreateIndex(false, index, m.table, f.column)] else [])
           + (if f.fts then Statements(FtsUp(m.table, PKColumn(m.fields), f, driver)) else [])
      && Statements(FieldDown(m, f, driver)) ==
           (if f.fts then Statements(FtsDown(m.table, f, driver)) else [])
           + (if (f.unique || f.fk != "") && !f.isPK then [DropIndex(index)] else [])
  {
    hide FtsUp, FtsDown, IndexName;
    var index := IndexName(m.table, f.column);
    var create := if f.unique && !f.isPK then [CreateIndex(true, index, m.table, f.column)]
      else if f.fk != "" && !f.unique then [CreateIndex(false, index, m.table, f.column)] else [];
    var blocks := if create == [] then [] else [Blank] + Stmts(create);
    var fts := if f.fts then FtsUp(m.table, PKColumn(m.fields), f, driver) else [];
    assert FieldUp(m, f, driver) == blocks + fts;
    StatementsConcat(blocks, fts);
    StatementsAfterBlank(create);
    var drop := if (f.unique || f.fk != "") && !f.isPK then [DropIndex(index)] else [];
    var ftsDown := if f.fts then FtsDown(m.table, f, driver) else [];
    assert FieldDown(m, f, driver) == ftsDown + Stmts(drop);
    StatementsConcat(ftsDown, Stmts(drop));
    StatementsOfStmts(drop);
  }

  lemma {:induction false} FieldsTakeBack(m: MigModel, fields: seq<MigField>, driver: string)
    ensures TakesBack(Statements(FieldsUp(m, fields, driver)), Statements(FieldsDown(m, fields, driver)), m.table)
  {
    hide FieldUp, FieldDown, TakesBack;
    if fields == [] {
      NothingTaken(m.table);
    } else {
      var init, f := fields[..|fields| - 1], fields[|fields| - 1];
      FieldsTakeBack(m, init, driver);
      FieldTakesBack(m, f, driver);
      StatementsConcat(FieldsUp(m, init, driver), FieldUp(m, f, driver));
      StatementsConcat(FieldsDown(m, init, driver), FieldDown(m, f, driver));
      TakesBackBoth(Statements(FieldsUp(m, init, driver)), Statements(FieldUp(m, f, driver)),
                    Statements(FieldsDown(m, init, driver)), Statements(FieldDown(m, f, driver)), m.table);
    }
  }

  // A new table's database, stripped of it, is the old one.
  lemma CreateStep(db: Db, table: string, fields: seq<MigField>)
    requires Consistent(db) && table !in db.tables && Exec(db, CreateTable(table, fields)).Some?
    ensures var after := Exec(db, CreateTable(table, fields)).value;
      && Consistent(after) && IsBase(after, table) && Strip(after, table) == db
      && ShadowsAmong(after, [], table)
  {
    var after := Exec(db, CreateTable(table, fields)).value;
    TableConsistent(db, table, fields);
    assert Strip(after, table).tables == db.tables;
    assert Strip(after, table).indexes == db.indexes;
    assert Strip(after, table).triggers == db.triggers;
  }

  // Dropping a table whose full-text tables are gone leaves the stripped database.
  lemma DropStep(db: Db, before: Db, table: string)
    requires Consistent(before) && table !in before.tables
    requires IsBase(db, table) && Strip(db, table) == before
    requires forall s :: s in db.tables ==> !IsShadowOf(db.tables[s], table)
    ensures Exec(db, DropTable(table)) == Some(before)
  {
    forall o | o in db.tables && o != table
      ensures !ReferredBy(db, table, o)
    {
      assert o in Strip(db, table).tables && before.tables[o] == db.tables[o];
      assert IsBase(before, o) ==> forall c :: c in before.tables[o].refs ==> before.tables[o].refs[c] != table;
    }
    assert WithoutTable(db, table).tables == before.tables;
    assert WithoutTable(db, table) == before;
  }

  lemma ModelUndone(db: Db, m: MigModel, driver: string)
    requires Consistent(db) && Fresh(db, Statements(ModelUp(m, driver)))
    ensures Undoes(db, Statements(ModelUp(m, driver)), Statements(ModelDown(m, driver)))
    ensures AllUp(Statements(ModelUp(m, driver)))
  {
    hide Exec, Consistent, FieldsUp, FieldsDown, Strip, Created, Has, IsBase;
    var create, drop := CreateTable(m.table, m.fields), DropTable(m.table);
    var ups := Statements(FieldsUp(m, m.fields, driver));
    var downs := Statements(FieldsDown(m, m.fields, driver));
    ModelStatements(m, driver);
    FieldsTakeBack(m, m.fields, driver);
    AttachesAreUp(ups, m.table);
    CreateIsUp(create);
    if Run(db, [create] + ups).Some? {
      RunConcat(db, [create], ups);
      RunOne(db, create);
      FreshParts(db, [create], ups);
      FreshOne(db, create);
      CreatedTable(db, create);
      RunUp(db, [create], ups);
      var made := Exec(db, create).value;
      CreateStep(db, m.table, m.fields);
      AttachRun(made, ups, m.table, []);
      var after := Run(made, ups).value;
      assert [] + Names(ups) == Names(ups);
      DroppedAmong(downs, m.table, Names(ups));
      DetachRun(after, downs, m.table, Names(ups));
      var bare := Run(after, downs).value;
      forall s | s in bare.tables
        ensures !IsShadowOf(bare.tables[s], m.table)
      {
        NameOfTable(bare, s);
      }
      DropStep(bare, db, m.table);
      RunConcat(after, downs, [drop]);
      RunOne(bare, drop);
    }
  }

  lemma NameOfTable(db: Db, s: string)
    ensures s in db.tables <==> Has(db, TableNamed(s))
  {
  }

  lemma CreatedTable(db: Db, d: Ddl)
    requires d.CreateTable? && forall n :: n in Created(d) ==> !Has(db, n)
    ensures d.table !in db.tables
  {
    assert TableNamed(d.table) in Created(d);
  }

  lemma CreateIsUp(d: Ddl)
    requires d.CreateTable?
    ensures IsUp(d)
  {
  }

  lemma AttachesAreUp(ddls: seq<Ddl>, table: string)
    requires AllAttach(ddls, table)
    ensures AllUp(ddls)
  {
  }

  lemma ModelStatements(m: MigModel, driver: string)
    ensures Statements(ModelUp(m, driver))
         == [CreateTable(m.table, m.fields)] + Statements(FieldsUp(m, m.fields, driver))
    ensures Statements(ModelDown(m, driver))
         == Statements(FieldsDown(m, m.fields, driver)) + [DropTable(m.table)]
  {
    hide FieldsUp, FieldsDown;
    StatementsConcat([Stmt(CreateTable(m.table, m.fields))], FieldsUp(m, m.fields, driver));
    StatementsConcat(FieldsDown(m, m.fields, driver), [Stmt(DropTable(m.table))]);
    StatementsOfStmts([CreateTable(m.table, m.fields)]);
    StatementsOfStmts([DropTable(m.table)]);
    assert Stmts([CreateTable(m.table, m.fields)]) == [Stmt(CreateTable(m.table, m.fields))];
    assert Stmts([DropTable(m.table)]) == [Stmt(DropTable(m.table))];
  }

  lemma {:induction false} ModelsDownSnoc(models: seq<MigModel>, driver: string)
    requires models != []
    ensures ModelsDown(models, driver)
         == ModelDown(models[|models| - 1], driver) + ModelsDown(models[..|models| - 1], driver)
  {
    hide ModelDown;
    if |models| > 1 {
      ModelsDownSnoc(models[1..], driver);
      var init := models[..|models| - 1];
      assert models[1..][|models| - 2] == models[|models| - 1] && models[1..][..|models| - 2] == init[1..];
    } else {
      assert models[1..] == [] && models[..0] == [];
    }
  }

  lemma {:induction false} ModelsUndone(db: Db, models: seq<MigModel>, driver: string)
    requires Consistent(db) && Fresh(db, Statements(ModelsUp(models, driver)))
    ensures Undoes(db, Statements(ModelsUp(models, driver)), Statements(ModelsDown(models, driver)))
    ensures AllUp(Statements(ModelsUp(models, driver)))
  {
    hide Exec, Consistent, Fresh, ModelUp, ModelDown, Undoes, IsUp;
    if models == [] {
      UndoesNothing(db);
    } else {
      var init, m := models[..|models| - 1], models[|models| - 1];
      var gap := if |models| > 1 then [Blank] else [];
      var up1, up2 := Statements(ModelsUp(init, driver)), Statements(ModelUp(m, driver));
      var down1, down2 := Statements(ModelsDown(init, driver)), Statements(ModelDown(m, driver));
      NotesHoldNothing(gap);
      StatementsConcat(ModelsUp(init, driver) + gap, ModelUp(m, driver));
      StatementsConcat(ModelsUp(init, driver), gap);
      assert up1 + [] == up1;
      ModelsDownSnoc(models, driver);
      StatementsConcat(ModelDown(m, driver), ModelsDown(init, driver));
      FreshParts(db, up1, up2);
      ModelsUndone(db, init, driver);
      ModelIsUp(m, driver);
      forall mid | Consistent(mid) && Fresh(mid, up2)
        ensures Undoes(mid, up2, down2)
      {
        ModelUndone(mid, m, driver);
      }
      UndoesSequence(db, up1, up2, down2, down1);
    }
  }

  lemma ModelIsUp(m: MigModel, driver: string)
    ensures AllUp(Statements(ModelUp(m, driver)))
  {
    hide FieldsUp, FieldsDown;
    ModelStatements(m, driver);
    FieldsTakeBack(m, m.fields, driver);
    AttachesAreUp(Statements(FieldsUp(m, m.fields, driver)), m.table);
  }

  // Main result. When the up section succeeds on a consistent database where its names are new, the down
  // section succeeds and restores that database.
  lemma DownRestores(db: Db, models: seq<MigModel>, alters: seq<MigAlter>, driver: string)
    requires Consistent(db) && Fresh(db, Statements(UpScript(models, alters, driver)))
    requires Run(db, Statements(UpScript(models, alters, driver))).Some?
    ensures Run(Run(db, Statements(UpScript(models, alters, driver))).value,
                Statements(DownScript(models, alters, driver))) == Some(db)
  {
    hide Exec, Consistent, Fresh, ModelsUp, ModelsDown, AltersUp, AltersDown, Header;
    var up1, up2 := Statements(ModelsUp(models, driver)), Statements(AltersUp(alters, driver));
    var down1, down2 := Statements(ModelsDown(models, driver)), Statements(AltersDown(alters, driver));
    UpStatements(models, alters, driver);
    StatementsConcat(AltersDown(alters, driver), ModelsDown(models, driver));
    FreshParts(db, up1, up2);
    ModelsUndone(db, models, driver);
    forall mid | Consistent(mid) && Fresh(mid, up2)
      ensures Undoes(mid, up2, down2)
    {
      AltersUndone(mid, alters, driver);
    }
    UndoesSequence(db, up1, up2, down2, down1);
  }

  lemma UpStatements(models: seq<MigModel>, alters: seq<MigAlter>, driver: string)
    ensures Statements(UpScript(models, alters, driver))
         == Statements(ModelsUp(models, driver)) + Statements(AltersUp(alters, driver))
  {
    hide ModelsUp, AltersUp, HeaderText, ReviewText, Statements;
    NotesHoldNothing(Header());
    NotesHoldNothing([Blank]);
    StatementsConcat(Header() + ModelsUp(models, driver) + AltersUp(alters, driver), [Blank]);
    StatementsConcat(Header() + ModelsUp(models, driver), AltersUp(alters, driver));
    StatementsConcat(Header(), ModelsUp(models, driver));
  }

  // ---------- freshness is needed ----------

  predicate IsDown(d: Ddl) {
    d.DropIndex? || d.DropIndexOn? || d.DropTrigger? || d.DropTable? || d.DropColumn?
  }

  // A down section leaves none of the names it drops behind, whoever created them.
  lemma {:induction false} DroppedAreGone(db: Db, downs: seq<Ddl>, n: Name)
    requires (forall d :: d in downs ==> IsDown(d)) && Run(db, downs).Some?
    requires n in DroppedNames(downs) || !Has(db, n)
    ensures !Has(Run(db, downs).value, n)
    decreases |downs|
  {
    if downs != [] {
      assert downs[0] in downs;
      DroppedAreGone(Exec(db, downs[0]).value, downs[1..], n);
    }
  }

  ghost predicate DropsAll(ups: seq<Ddl>, downs: seq<Ddl>) {
    && (forall d :: d in downs ==> IsDown(d))
    && (forall n :: n in Names(ups) ==> n in DroppedNames(downs))
  }

  lemma DropsAllBoth(up1: seq<Ddl>, up2: seq<Ddl>, down1: seq<Ddl>, down2: seq<Ddl>)
    requires DropsAll(up1, down1) && DropsAll(up2, down2)
    ensures DropsAll(up1 + up2, down2 + down1) && DropsAll(up1 + up2, down1 + down2)
  {
    NamesConcat(up1, up2);
    DroppedConcat(down2, down1);
    DroppedConcat(down1, down2);
  }

  lemma FtsDropsAll(table: string, pk: string, f: MigField, driver: string)
    ensures DropsAll(Statements(FtsUp(table, pk, f, driver)), Statements(FtsDown(table, f, driver)))
  {
    hide FtsIndexName, FtsShadowTable, TriggerName;
    FtsStatements(table, pk, f, driver);
    var index, shadow := FtsIndexName(table, f.column), FtsShadowTable(table, f.column);
    SqliteNames(shadow, table, f.column, pk);
    NamesOfOne(CreateGinIndex(index, table, f.column), DropIndex(index));
    NamesOfOne(CreateFulltextIndex(index, table, f.column), DropIndexOn(index, table));
  }

  // The one index the down section leaves to DROP TABLE: a primary key's own foreign key
  predicate KeepsKeyIndex(f: MigField) { f.isPK && f.fk != "" && !f.unique }

  lemma FieldDropsAll(m: MigModel, f: MigField, driver: string)
    requires !KeepsKeyIndex(f)
    ensures DropsAll(Statements(FieldUp(m, f, driver)), Statements(FieldDown(m, f, driver)))
  {
    hide FtsUp, FtsDown, IndexName;
    FieldStatements(m, f, driver);
    var index := IndexName(m.table, f.column);
    NamesOfOne(CreateIndex(true, index, m.table, f.column), DropIndex(index));
    NamesOfOne(CreateIndex(false, index, m.table, f.column), DropIndex(index));
    var up1 := if f.unique && !f.isPK then [CreateIndex(true, index, m.table, f.column)]
      else if f.fk != "" && !f.unique then [CreateIndex(false, index, m.table, f.column)] else [];
    var down1 := if (f.unique || f.fk != "") && !f.isPK then [DropIndex(index)] else [];
    var up2 := if f.fts then Statements(FtsUp(m.table, PKColumn(m.fields), f, driver)) else [];
    var down2 := if f.fts then Statements(FtsDown(m.table, f, driver)) else [];
    FtsDropsAll(m.table, PKColumn(m.fields), f, driver);
    DropsAllBoth(up1, up2, down1, down2);
  }

  lemma {:induction false} FieldsDropAll(m: MigModel, fields: seq<MigField>, driver: string)
    requires forall f :: f in fields ==> !KeepsKeyIndex(f)
    ensures DropsAll(Statements(FieldsUp(m, fields, driver)), Statements(FieldsDown(m, fields, driver)))
  {
    hide FieldUp, FieldDown, DropsAll;
    if fields == [] {
      NothingDropped();
    } else {
      var init, f := fields[..|fields| - 1], fields[|fields| - 1];
      FieldsDropAll(m, init, driver);
      FieldDropsAll(m, f, driver);
      StatementsConcat(FieldsUp(m, init, driver), FieldUp(m, f, driver));
      StatementsConcat(FieldsDown(m, init, driver), FieldDown(m, f, driver));
      DropsAllBoth(Statements(FieldsUp(m, init, driver)), Statements(FieldUp(m, f, driver)),
                   Statements(FieldsDown(m, init, driver)), Statements(FieldDown(m, f, driver)));
    }
  }

  lemma NothingDropped()
    ensures DropsAll([], [])
  {
  }

  lemma {:induction false} ModelsDropAll(models: seq<MigModel>, driver: string)
    requires forall m, f :: m in models && f in m.fields ==> !KeepsKeyIndex(f)
    ensures DropsAll(Statements(ModelsUp(models, driver)), Statements(ModelsDown(models, driver)))
  {
    hide ModelUp, ModelDown, DropsAll, FieldsUp, FieldsDown;
    if models == [] {
      NothingDropped();
    } else {
      var init, m := models[..|models| - 1], models[|models| - 1];
      var gap := if |models| > 1 then [Blank] else [];
      var ups, downs := Statements(FieldsUp(m, m.fields, driver)), Statements(FieldsDown(m, m.fields, driver));
      ModelsDropAll(init, driver);
      FieldsDropAll(m, m.fields, driver);
      TableDropped(m);
      DropsAllBoth([CreateTable(m.table, m.fields)], ups, [DropTable(m.table)], downs);
      ModelStatements(m, driver);
      NotesHoldNothing(gap);
      StatementsConcat(ModelsUp(init, driver) + gap, ModelUp(m, driver));
      StatementsConcat(ModelsUp(init, driver), gap);
      assert Statements(ModelsUp(init, driver)) + [] == Statements(ModelsUp(init, driver));
      ModelsDownSnoc(models, driver);
      StatementsConcat(ModelDown(m, driver), ModelsDown(init, driver));
      DropsAllBoth(Statements(ModelsUp(init, driver)), Statements(ModelUp(m, driver)),
                   Statements(ModelsDown(init, driver)), Statements(ModelDown(m, driver)));
    }
  }

  lemma TableDropped(m: MigModel)
    ensures DropsAll([CreateTable(m.table, m.fields)], [DropTable(m.table)])
  {
    NamesOfOne(CreateTable(m.table, m.fields), DropTable(m.table));
  }

  lemma AddDropsAll(a: MigAlter, f: MigField, driver: string)
    ensures DropsAll(Statements(AddUp(a, f, driver)), Statements(AddDown(a, f, driver)))
  {
    hide FtsUp, FtsDown, IndexName;
    AddStatements(a, f, driver);
    var index := IndexName(a.table, f.column);
    var create := CreateIndex(f.unique, index, a.table, f.column);
    var indexed := f.unique || f.fk != "";
    var up1, down1 := [AddColumn(a.table, f)], [DropColumn(a.table, f.column)];
    var up2, down2 := if indexed then [create] else [], if indexed then [DropIndex(index)] else [];
    var up3 := if f.fts then Statements(FtsUp(a.table, a.pkColumn, f, driver)) else [];
    var down3 := if f.fts then Statements(FtsDown(a.table, f, driver)) else [];
    NamesOfOne(AddColumn(a.table, f), DropColumn(a.table, f.column));
    NamesOfOne(create, DropIndex(index));
    FtsDropsAll(a.table, a.pkColumn, f, driver);
    DropsAllBoth(up1, up2, down1, down2);
    DropsAllBoth(up1 + up2, up3, down2 + down1, down3);
  }

  lemma {:induction false} AddsDropAll(a: MigAlter, add: seq<MigField>, driver: string)
    ensures DropsAll(Statements(AddsUp(a, add, driver)), Statements(AddsDown(a, add, driver)))
  {
    hide AddUp, AddDown, DropsAll;
    if add == [] {
      NothingDropped();
    } else {
      var init, f := add[..|add| - 1], add[|add| - 1];
      AddsDropAll(a, init, driver);
      AddDropsAll(a, f, driver);
      StatementsConcat(AddsUp(a, init, driver), AddUp(a, f, driver));
      AddsDownSnoc(a, add, driver);
      StatementsConcat(AddDown(a, f, driver), AddsDown(a, init, driver));
      DropsAllBoth(Statements(AddsUp(a, init, driver)), Statements(AddUp(a, f, driver)),
                   Statements(AddsDown(a, init, driver)), Statements(AddDown(a, f, driver)));
    }
  }

  lemma {:induction false} AltersDropAll(alters: seq<MigAlter>, driver: string)
    ensures DropsAll(Statements(AltersUp(alters, driver)), Statements(AltersDown(alters, driver)))
  {
    hide AlterUp, AddsUp, AddsDown, DropsAll;
    if alters == [] {
      NothingDropped();
    } else {
      var init, a := alters[..|alters| - 1], alters[|alters| - 1];
      AltersDropAll(init, driver);
      AddsDropAll(a, a.add, driver);
      StatementsConcat(AltersUp(init, driver), AlterUp(a, driver));
      AlterStatements(a, driver);
      AltersDownSnoc(alters, driver);
      StatementsConcat(AddsDown(a, a.add, driver), AltersDown(init, driver));
      DropsAllBoth(Statements(AltersUp(init, driver)), Statements(AddsUp(a, a.add, driver)),
                   Statements(AltersDown(init, driver)), Statements(AddsDown(a, a.add, driver)));
    }
  }

  // The exact condition, for pairwise different names: the down section restores the database if and only
  // if none of the created names was there before. (IF NOT EXISTS lets the up section pass over one that
  // was, and the down section then drops what it did not create.)
  lemma DownRestoresIffNew(db: Db, models: seq<MigModel>, alters: seq<MigAlter>, driver: string)
    requires Consistent(db) && Distinct(Names(Statements(UpScript(models, alters, driver))))
    requires Run(db, Statements(UpScript(models, alters, driver))).Some?
    requires forall m, f :: m in models && f in m.fields ==> !KeepsKeyIndex(f)
    ensures Run(Run(db, Statements(UpScript(models, alters, driver))).value,
                Statements(DownScript(models, alters, driver))) == Some(db)
       <==> forall n :: n in Names(Statements(UpScript(models, alters, driver))) ==> !Has(db, n)
  {
    hide Exec, Consistent, UpScript, ModelsUp, ModelsDown, AltersUp, AltersDown, Has;
    var ups := Statements(UpScript(models, alters, driver));
    var downs := Statements(DownScript(models, alters, driver));
    var after := Run(db, ups).value;
    UpStatements(models, alters, driver);
    StatementsConcat(AltersDown(alters, driver), ModelsDown(models, driver));
    ModelsDropAll(models, driver);
    AltersDropAll(alters, driver);
    DropsAllBoth(Statements(ModelsUp(models, driver)), Statements(AltersUp(alters, driver)),
                 Statements(ModelsDown(models, driver)), Statements(AltersDown(alters, driver)));
    if Run(after, downs) == Some(db) {
      forall n | n in Names(ups)
        ensures !Has(db, n)
      {
        DroppedAreGone(after, downs, n);
      }
    }
    if forall n :: n in Names(ups) ==> !Has(db, n) {
      DownRestores(db, models, alters, driver);
    }
  }
}
