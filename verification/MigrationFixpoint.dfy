/** The autodetector: it compares models with the schema read from the migrations and prints what is
    missing. Main result: once its own output is the last migration, a second run has nothing to do,
    exactly when the printed names survive the schema reader; and after two runs or more, exactly when they
    are in lower case. */
module MigrationFixpoint {
  import opened GoStrings
  import opened MigrationSql
  import opened MigrationSchema
  import opened MigrationParse
  import opened MigrationLines
  import opened Engine

  // ---------- detection ----------

  // The columns migDiffModel adds: unknown ones, in field order, the primary key excepted
  function Missing(fields: seq<MigField>, cols: set<string>): seq<MigField> {
    if fields == [] then []
    else
      var last := fields[|fields| - 1];
      Missing(fields[..|fields| - 1], cols) + (if last.column !in cols && !last.isPK then [last] else [])
  }

  function ModelColumns(fields: seq<MigField>): set<string> { set f | f in fields :: f.column }

  ghost predicate IsAlter(m: MigModel, cols: set<string>, a: MigAlter) {
    && a.table == m.table && a.pkColumn == PKColumn(m.fields)
    && a.add == Missing(m.fields, cols)
    && IsListing(a.removed, cols - ModelColumns(m.fields))
  }

  ghost predicate Unchanged(m: MigModel, cols: set<string>) {
    Missing(m.fields, cols) == [] && cols <= ModelColumns(m.fields)
  }

  // migDiffModel
  method DiffModel(m: MigModel, cols: set<string>) returns (r: Option<MigAlter>)
    ensures r.None? <==> Unchanged(m, cols)
    ensures r.Some? ==> IsAlter(m, cols, r.value)
  {
    var add: seq<MigField> := [];
    var modelCols: set<string> := {};
    for i := 0 to |m.fields|
      invariant add == Missing(m.fields[..i], cols)
      invariant modelCols == ModelColumns(m.fields[..i])
    {
      var f := m.fields[i];
      assert m.fields[..i + 1] == m.fields[..i] + [f];
      modelCols := modelCols + {f.column};
      if f.column !in cols && !f.isPK {
        add := add + [f];
      }
    }
    assert m.fields[..|m.fields|] == m.fields;
    var removed := RemovedColumns(cols, modelCols);
    ListingEmptyIff(removed, cols, modelCols);
    if |add| == 0 && |removed| == 0 {
      return None;
    }
    return Some(MigAlter(m.table, PKColumn(m.fields), add, removed));
  }

  lemma ListingEmptyIff(removed: seq<string>, cols: set<string>, modelCols: set<string>)
    requires IsListing(removed, cols - modelCols)
    ensures removed == [] <==> cols <= modelCols
  {
    hide StringLess;
    if removed == [] {
      assert forall c :: c in cols && c !in modelCols ==> c in removed;
    } else {
      assert removed[0] in cols - modelCols;
    }
  }

  // The map loop of migDiffModel, in any iteration order, and the sort after it
  method RemovedColumns(cols: set<string>, modelCols: set<string>) returns (removed: seq<string>)
    ensures IsListing(removed, cols - modelCols)
  {
    removed := [];
    var rest := cols;
    while rest != {}
      invariant rest <= cols
      invariant forall c :: c in removed <==> c in cols - rest - modelCols
      invariant forall i, j :: 0 <= i < j < |removed| ==> removed[i] != removed[j]
      decreases |rest|
    {
      var c :| c in rest;
      assert c !in removed;
      rest := rest - {c};
      if c !in modelCols {
        removed := removed + [c];
      }
    }
    SortedListing(removed);
    assert (set x | x in removed) == cols - modelCols;
    removed := SortStrings(removed);
  }

  function Pending(models: seq<MigModel>, schema: Schema): seq<MigModel> {
    if models == [] then []
    else
      var last := models[|models| - 1];
      Pending(models[..|models| - 1], schema) + (if last.table !in schema then [last] else [])
  }

  ghost predicate AltersOf(models: seq<MigModel>, schema: Schema, alters: seq<MigAlter>) {
    if models == [] then alters == []
    else
      var m, init := models[|models| - 1], models[..|models| - 1];
      if m.table !in schema || Unchanged(m, schema[m.table]) then AltersOf(init, schema, alters)
      else
        && alters != []
        && IsAlter(m, schema[m.table], alters[|alters| - 1])
        && AltersOf(init, schema, alters[..|alters| - 1])
  }

  // ---------- what is detected ----------

  function Lacks(cols: set<string>): MigField -> bool { (f: MigField) => f.column !in cols && !f.isPK }

  // The columns to add are those of the model that the table lacks, the key excepted, in model order.
  lemma {:induction false} MissingIs(fields: seq<MigField>, cols: set<string>)
    ensures Missing(fields, cols) == Filter(fields, Lacks(cols))
  {
    if fields != [] {
      var n := |fields| - 1;
      MissingIs(fields[..n], cols);
      assert fields == fields[..n] + [fields[n]];
      FilterConcat(fields[..n], [fields[n]], Lacks(cols));
    }
  }

  function NotIn(schema: Schema): MigModel -> bool { (m: MigModel) => m.table !in schema }

  // The tables to create are those of the models that the schema lacks, in order.
  lemma {:induction false} PendingIs(models: seq<MigModel>, schema: Schema)
    ensures Pending(models, schema) == Filter(models, NotIn(schema))
  {
    if models != [] {
      var n := |models| - 1;
      PendingIs(models[..n], schema);
      assert models == models[..n] + [models[n]];
      FilterConcat(models[..n], [models[n]], NotIn(schema));
    }
  }

  // The table is there, and lacks a column of the model or has one that the model lacks.
  predicate Differs(m: MigModel, schema: Schema) {
    && m.table in schema
    && ((exists f :: f in m.fields && f.column !in schema[m.table] && !f.isPK)
        || (exists c :: c in schema[m.table] && forall f :: f in m.fields ==> f.column != c))
  }

  function Differing(schema: Schema): MigModel -> bool { m => Differs(m, schema) }

  // One change for each model whose table differs, in order: its missing columns are added, and the columns it
  // does not have are listed as removed, sorted.
  lemma {:induction false} AltersAre(models: seq<MigModel>, schema: Schema, alters: seq<MigAlter>)
    requires AltersOf(models, schema, alters)
    ensures var changed := Filter(models, Differing(schema));
      && |alters| == |changed|
      && forall i :: 0 <= i < |alters| ==>
           && changed[i].table in schema && alters[i].table == changed[i].table
           && alters[i].add == Filter(changed[i].fields, Lacks(schema[changed[i].table]))
           && IsListing(alters[i].removed, schema[changed[i].table] - ModelColumns(changed[i].fields))
  {
    hide IsListing, Missing;
    if models != [] {
      var n := |models| - 1;
      var m, init := models[n], models[..n];
      assert models == init + [m];
      FilterConcat(init, [m], Differing(schema));
      DiffersIff(m, schema);
      if Differs(m, schema) {
        AltersAre(init, schema, alters[..|alters| - 1]);
        MissingIs(m.fields, schema[m.table]);
      } else {
        AltersAre(init, schema, alters);
      }
    }
  }

  lemma DiffersIff(m: MigModel, schema: Schema)
    ensures Differs(m, schema) <==> m.table in schema && !Unchanged(m, schema[m.table])
  {
    if m.table in schema {
      var cols := schema[m.table];
      MissingIs(m.fields, cols);
      FilterMembers(m.fields, Lacks(cols));
      if Missing(m.fields, cols) != [] {
        assert Missing(m.fields, cols)[0] in Filter(m.fields, Lacks(cols));
      }
      assert cols <= ModelColumns(m.fields) <==> forall c :: c in cols ==> exists f :: f in m.fields && f.column == c;
    }
  }

  // What runMakeMigrations calls "no change": nothing pending and nothing to add
  ghost predicate Settled(models: seq<MigModel>, schema: Schema) {
    forall m :: m in models ==> m.table in schema && Missing(m.fields, schema[m.table]) == []
  }

  // The model loop of runMakeMigrations
  method Detect(models: seq<MigModel>, schema: Schema)
    returns (pending: seq<MigModel>, alters: seq<MigAlter>, changed: bool)
    ensures pending == Pending(models, schema)
    ensures AltersOf(models, schema, alters)
    ensures !changed <==> Settled(models, schema)
  {
    hide AltersOf, Pending, Settled, Unchanged, IsAlter, Missing;
    pending, alters := [], [];
    var hasAdds := false;
    NoModels(schema);
    assert models[..0] == [];
    for i := 0 to |models|
      invariant pending == Pending(models[..i], schema)
      invariant AltersOf(models[..i], schema, alters)
      invariant pending == [] && !hasAdds <==> Settled(models[..i], schema)
    {
      var m := models[i];
      NextModel(models, i, schema, alters);
      if m.table !in schema {
        pending := pending + [m];
      } else {
        var r := DiffModel(m, schema[m.table]);
        NextAdds(m, schema[m.table], r);
        if r.Some? {
          NextAlter(models, i, schema, alters, r.value);
          alters := alters + [r.value];
          hasAdds := hasAdds || |r.value.add| > 0;
        }
      }
    }
    assert models[..|models|] == models;
    changed := !(|pending| == 0 && !hasAdds);
  }

  lemma NoModels(schema: Schema)
    ensures Pending([], schema) == [] && AltersOf([], schema, []) && Settled([], schema)
  {
  }

  lemma NextModel(models: seq<MigModel>, i: nat, schema: Schema, alters: seq<MigAlter>)
    requires i < |models|
    ensures var m := models[i];
      && Pending(models[..i + 1], schema) == Pending(models[..i], schema) + (if m.table !in schema then [m] else [])
      && (m.table !in schema || Unchanged(m, schema[m.table]) ==>
            AltersOf(models[..i + 1], schema, alters) == AltersOf(models[..i], schema, alters))
      && (Settled(models[..i + 1], schema) <==>
            Settled(models[..i], schema) && m.table in schema && Missing(m.fields, schema[m.table]) == [])
  {
    hide Unchanged, IsAlter, Missing;
    assert models[..i + 1] == models[..i] + [models[i]];
    assert models[..i + 1][..i] == models[..i];
  }

  lemma NextAlter(models: seq<MigModel>, i: nat, schema: Schema, alters: seq<MigAlter>, a: MigAlter)
    requires i < |models| && models[i].table in schema && !Unchanged(models[i], schema[models[i].table])
    requires IsAlter(models[i], schema[models[i].table], a) && AltersOf(models[..i], schema, alters)
    ensures AltersOf(models[..i + 1], schema, alters + [a])
  {
    hide Unchanged, IsAlter;
    assert models[..i + 1][..i] == models[..i];
    assert (alters + [a])[..|alters|] == alters;
  }

  lemma NextAdds(m: MigModel, cols: set<string>, r: Option<MigAlter>)
    requires r.None? ==> Unchanged(m, cols)
    requires r.Some? ==> IsAlter(m, cols, r.value)
    ensures Missing(m.fields, cols) == if r.Some? then r.value.add else []
  {
    hide Missing;
  }

  // ---------- which statements an up section holds ----------

  ghost predicate Declares(b: Block) { b.Stmt? && (b.ddl.CreateTable? || b.ddl.AddColumn?) }

  ghost predicate Expected(b: Block, models: seq<MigModel>, alters: seq<MigAlter>) {
    || (exists m :: m in models && b == Stmt(CreateTable(m.table, m.fields)))
    || (exists a, f :: a in alters && f in a.add && b == Stmt(AddColumn(a.table, f)))
  }

  lemma FtsDeclaresNothing(table: string, pk: string, f: MigField, driver: string)
    ensures forall b :: b in FtsUp(table, pk, f, driver) ==> !Declares(b)
  {
    hide FtsIndexName, FtsShadowTable, UnsupportedText;
  }

  lemma {:induction false} FieldsDeclareNothing(m: MigModel, fields: seq<MigField>, driver: string)
    ensures forall b :: b in FieldsUp(m, fields, driver) ==> !Declares(b)
  {
    hide IndexName, FtsUp;
    if fields != [] {
      FieldsDeclareNothing(m, fields[..|fields| - 1], driver);
      FtsDeclaresNothing(m.table, PKColumn(m.fields), fields[|fields| - 1], driver);
    }
  }

  lemma {:induction false} ModelsDeclare(models: seq<MigModel>, driver: string)
    ensures forall b :: b in ModelsUp(models, driver) && Declares(b)
                    ==> exists m :: m in models && b == Stmt(CreateTable(m.table, m.fields))
    ensures forall m :: m in models ==> Stmt(CreateTable(m.table, m.fields)) in ModelsUp(models, driver)
  {
    hide FieldsUp;
    if models != [] {
      var init, last := models[..|models| - 1], models[|models| - 1];
      ModelsDeclare(init, driver);
      FieldsDeclareNothing(last, last.fields, driver);
      assert models == init + [last];
      assert Stmt(CreateTable(last.table, last.fields)) in ModelUp(last, driver);
      forall m | m in models
        ensures Stmt(CreateTable(m.table, m.fields)) in ModelsUp(models, driver)
      {
        if m != last {
          assert m in init;
        }
      }
    }
  }

  lemma {:induction false} AddsDeclare(a: MigAlter, add: seq<MigField>, driver: string)
    ensures forall b :: b in AddsUp(a, add, driver) && Declares(b)
                    ==> exists f :: f in add && b == Stmt(AddColumn(a.table, f))
    ensures forall f :: f in add ==> Stmt(AddColumn(a.table, f)) in AddsUp(a, add, driver)
  {
    hide IndexName, FtsIndexName, FtsShadowTable;
    if add != [] {
      var init, last := add[..|add| - 1], add[|add| - 1];
      AddsDeclare(a, init, driver);
      assert add == init + [last];
      forall b | b in AddUp(a, last, driver) && Declares(b)
        ensures b == Stmt(AddColumn(a.table, last))
      {
        hide UnsupportedText;
      }
      assert Stmt(AddColumn(a.table, last)) in AddUp(a, last, driver);
    }
  }

  lemma AlterDeclares(a: MigAlter, driver: string)
    ensures forall b :: b in AlterUp(a, driver) && Declares(b)
                    ==> exists f :: f in a.add && b == Stmt(AddColumn(a.table, f))
    ensures forall f :: f in a.add ==> Stmt(AddColumn(a.table, f)) in AlterUp(a, driver)
  {
    hide AddsUp, AddedText, RemovedText, SuggestionText, AdviceText;
    AddsDeclare(a, a.add, driver);
  }

  lemma {:induction false} AltersDeclare(alters: seq<MigAlter>, driver: string)
    ensures forall b :: b in AltersUp(alters, driver) && Declares(b)
                    ==> exists a, f :: a in alters && f in a.add && b == Stmt(AddColumn(a.table, f))
    ensures forall a, f :: a in alters && f in a.add ==> Stmt(AddColumn(a.table, f)) in AltersUp(alters, driver)
  {
    hide AlterUp;
    if alters != [] {
      var init, last := alters[..|alters| - 1], alters[|alters| - 1];
      AltersDeclare(init, driver);
      AlterDeclares(last, driver);
      assert alters == init + [last];
    }
  }

  // The table and column declarations of an up section are those of its models and alters.
  lemma UpDeclares(models: seq<MigModel>, alters: seq<MigAlter>, driver: string, b: Block)
    requires Declares(b)
    ensures b in UpScript(models, alters, driver) <==> Expected(b, models, alters)
  {
    hide ModelsUp, AltersUp;
    ModelsDeclare(models, driver);
    AltersDeclare(alters, driver);
  }

  // ---------- what the reader knows afterwards ----------

  ghost predicate Gives(b: Block, table: string, column: string) {
    match b
    case Stmt(CreateTable(t, fields)) => ToLower(t) == table && column in Recorded(fields)
    case Stmt(AddColumn(t, f)) => ToLower(t) == table && ToLower(f.column) == column
    case _ => false
  }

  ghost predicate Touches(b: Block, table: string) {
    Declares(b) && ToLower(b.ddl.table) == table
  }

  lemma {:induction false} EffectsKnow(schema: Schema, blocks: seq<Block>, table: string, column: string)
    ensures table in Effects(schema, blocks) <==> table in schema || exists b :: b in blocks && Touches(b, table)
    ensures column in Columns(Effects(schema, blocks), table)
       <==> column in Columns(schema, table) || exists b :: b in blocks && Gives(b, table, column)
    decreases |blocks|
  {
    hide ToLower, Recorded;
    if blocks != [] {
      var next := Effect(schema, blocks[0]);
      EffectsKnow(next, blocks[1..], table, column);
      assert blocks == [blocks[0]] + blocks[1..];
      assert table in next <==> table in schema || Touches(blocks[0], table);
      assert column in Columns(next, table) <==> column in Columns(schema, table) || Gives(blocks[0], table, column);
    }
  }

  // ---------- the fixpoint ----------

  // A name the schema reader reports as it was printed
  predicate Survives(column: string) {
    ToLower(column) == column && IsDeclaredColumn(column)
  }

  // A check on the names of one model, before anything is printed
  ghost predicate NamesSurvive(m: MigModel, schema: Schema) {
    if m.table !in schema then
      && ToLower(m.table) == m.table
      && forall f :: f in m.fields && !f.isPK ==> Survives(f.column)
    else
      forall f :: f in m.fields && !f.isPK && f.column !in schema[m.table] ==> ToLower(f.column) == f.column
  }

  lemma {:induction false} MissingMembers(fields: seq<MigField>, cols: set<string>)
    ensures forall f :: f in Missing(fields, cols) <==> f in fields && f.column !in cols && !f.isPK
  {
    if fields != [] {
      var init, last := fields[..|fields| - 1], fields[|fields| - 1];
      MissingMembers(init, cols);
      assert fields == init + [last];
    }
  }

  lemma {:induction false} PendingMembers(models: seq<MigModel>, schema: Schema)
    ensures forall m :: m in Pending(models, schema) <==> m in models && m.table !in schema
  {
    if models != [] {
      var init, last := models[..|models| - 1], models[|models| - 1];
      PendingMembers(init, schema);
      assert models == init + [last];
    }
  }

  lemma {:induction false} AlterMembers(models: seq<MigModel>, schema: Schema, alters: seq<MigAlter>)
    requires AltersOf(models, schema, alters)
    ensures forall a :: a in alters ==> exists m :: m in models && m.table in schema && IsAlter(m, schema[m.table], a)
    ensures forall m :: m in models && m.table in schema && !Unchanged(m, schema[m.table])
                    ==> exists a :: a in alters && IsAlter(m, schema[m.table], a)
  {
    hide IsAlter, Unchanged;
    if models != [] {
      var init, last := models[..|models| - 1], models[|models| - 1];
      assert models == init + [last];
      if last.table !in schema || Unchanged(last, schema[last.table]) {
        AlterMembers(init, schema, alters);
      } else {
        var rest, a := alters[..|alters| - 1], alters[|alters| - 1];
        AlterMembers(init, schema, rest);
        assert alters == rest + [a];
        assert a in alters && IsAlter(last, schema[last.table], a);
        forall b | b in alters
          ensures exists m :: m in models && m.table in schema && IsAlter(m, schema[m.table], b)
        {
          if b == a {
            assert last in models && IsAlter(last, schema[last.table], b);
          } else {
            assert b in rest;
            var m :| m in init && m.table in schema && IsAlter(m, schema[m.table], b);
            assert m in models;
          }
        }
        forall m | m in models && m.table in schema && !Unchanged(m, schema[m.table])
          ensures exists b :: b in alters && IsAlter(m, schema[m.table], b)
        {
          if m != last {
            assert m in init;
            var b :| b in rest && IsAlter(m, schema[m.table], b);
            assert b in alters;
          }
        }
      }
    }
  }

  lemma AltersAreTidy(models: seq<MigModel>, schema: Schema, alters: seq<MigAlter>)
    requires forall m :: m in models ==> TidyModel(m)
    requires AltersOf(models, schema, alters) && CleanSchema(schema)
    ensures forall a :: a in alters ==> TidyAlter(a)
  {
    AlterMembers(models, schema, alters);
    forall a | a in alters
      ensures TidyAlter(a)
    {
      var m :| m in models && m.table in schema && IsAlter(m, schema[m.table], a);
      MissingMembers(m.fields, schema[m.table]);
      PKColumnPlain(m.fields);
      forall c | c in a.removed
        ensures '\n' !in c
      {
        assert c in schema[m.table];
      }
    }
  }

  // A new table whose names survive is found with its columns.
  lemma NewTableKnown(
    schema: Schema, pending: seq<MigModel>, alters: seq<MigAlter>, driver: string, m: MigModel, f: MigField)
    requires m in pending && ToLower(m.table) == m.table
    ensures var after := Effects(schema, UpScript(pending, alters, driver));
      && m.table in after
      && (f in m.fields && Survives(f.column) ==> f.column in Columns(after, m.table))
  {
    hide UpScript, Effects, Columns, ToLower, IsDeclaredColumn;
    var create := Stmt(CreateTable(m.table, m.fields));
    UpDeclares(pending, alters, driver, create);
    EffectsKnow(schema, UpScript(pending, alters, driver), m.table, f.column);
    assert Touches(create, m.table);
    if f in m.fields && Survives(f.column) {
      assert Gives(create, m.table, f.column);
    }
  }

  // A known table keeps its columns and gains the added ones.
  lemma OldTableKnown(
    schema: Schema, pending: seq<MigModel>, alters: seq<MigAlter>, driver: string, a: MigAlter, f: MigField)
    requires a in alters && f in a.add && ToLower(f.column) == f.column && ToLower(a.table) == a.table
    ensures f.column in Columns(Effects(schema, UpScript(pending, alters, driver)), a.table)
  {
    hide UpScript, Effects, Columns, ToLower;
    var add := Stmt(AddColumn(a.table, f));
    UpDeclares(pending, alters, driver, add);
    EffectsKnow(schema, UpScript(pending, alters, driver), a.table, f.column);
    assert Gives(add, a.table, f.column);
  }

  // A model whose names survive finds its table and every column afterwards.
  lemma SurvivorsAreKnown(
    schema: Schema, models: seq<MigModel>, alters: seq<MigAlter>, driver: string, m: MigModel, f: MigField)
    requires CleanSchema(schema) && AltersOf(models, schema, alters)
    requires m in models && NamesSurvive(m, schema)
    ensures var after := Effects(schema, UpScript(Pending(models, schema), alters, driver));
      && m.table in after
      && (f in m.fields && !f.isPK ==> f.column in after[m.table])
  {
    hide UpScript, Effects, Columns, ToLower, IsDeclaredColumn;
    var pending := Pending(models, schema);
    var after := Effects(schema, UpScript(pending, alters, driver));
    PendingMembers(models, schema);
    KnownColumns(schema, m.table);
    KnownColumns(after, m.table);
    if m.table !in schema {
      NewTableKnown(schema, pending, alters, driver, m, f);
    } else {
      EffectsKnow(schema, UpScript(pending, alters, driver), m.table, f.column);
      if f in m.fields && !f.isPK && f.column !in schema[m.table] {
        MissingMembers(m.fields, schema[m.table]);
        AlterMembers(models, schema, alters);
        var a :| a in alters && IsAlter(m, schema[m.table], a);
        OldTableKnown(schema, pending, alters, driver, a, f);
      }
    }
  }

  lemma KnownColumns(schema: Schema, table: string)
    ensures table in schema ==> Columns(schema, table) == schema[table]
    ensures table !in schema ==> Columns(schema, table) == {}
  {
  }

  // Conversely, a model that finds everything afterwards had names that survive.
  lemma KnownNamesSurvive(
    schema: Schema, models: seq<MigModel>, alters: seq<MigAlter>, driver: string, m: MigModel)
    requires CleanSchema(schema) && AltersOf(models, schema, alters)
    requires var after := Effects(schema, UpScript(Pending(models, schema), alters, driver));
      CleanSchema(after) && m.table in after && Missing(m.fields, after[m.table]) == []
    requires m in models
    ensures NamesSurvive(m, schema)
  {
    hide UpScript, Effects, Columns;
    var pending := Pending(models, schema);
    var up := UpScript(pending, alters, driver);
    var after := Effects(schema, up);
    MissingMembers(m.fields, after[m.table]);
    KnownColumns(after, m.table);
    KnownColumns(schema, m.table);
    forall f | f in m.fields && !f.isPK
      ensures ToLower(f.column) == f.column
      ensures m.table !in schema ==> IsDeclaredColumn(f.column)
    {
      assert f !in Missing(m.fields, after[m.table]);
      assert f.column in after[m.table];
      if m.table !in schema {
        EffectsKnow(schema, up, m.table, f.column);
        var b :| b in up && Gives(b, m.table, f.column);
        UpDeclares(pending, alters, driver, b);
        AlterMembers(models, schema, alters);
        assert forall a :: a in alters ==> a.table in schema && ToLower(a.table) == a.table;
        assert b.ddl.CreateTable?;
      }
    }
  }

  // Main result. Print the differences, append the file, read the directory again: nothing is pending
  // and nothing is to be added, exactly when the names of every model survive the reader.
  lemma Fixpoint(prior: seq<string>, models: seq<MigModel>, alters: seq<MigAlter>, driver: string)
    requires forall m :: m in models ==> TidyModel(m)
    requires AltersOf(models, ParseFiles(prior), alters)
    ensures Settled(models, ParseFiles(prior + [GeneratedText(models, ParseFiles(prior), alters, driver)]))
       <==> forall m :: m in models ==> NamesSurvive(m, ParseFiles(prior))
  {
    hide UpScript, Effects, NamesSurvive, Missing, GeneratedText, ParseFiles, CleanSchema;
    var schema := ParseFiles(prior);
    var files := prior + [GeneratedText(models, schema, alters, driver)];
    var after := Effects(schema, UpScript(Pending(models, schema), alters, driver));
    ParsedSchemaClean(prior);
    ParsedSchemaClean(files);
    ReadBack(prior, models, alters, driver);
    if forall m :: m in models ==> NamesSurvive(m, schema) {
      forall m | m in models
        ensures m.table in after && Missing(m.fields, after[m.table]) == []
      {
        AllKnown(schema, models, alters, driver, m);
      }
    }
    if Settled(models, after) {
      forall m | m in models
        ensures NamesSurvive(m, schema)
      {
        KnownNamesSurvive(schema, models, alters, driver, m);
      }
    }
  }

  // The reader sees the effect of the up section that was printed.
  lemma ReadBack(prior: seq<string>, models: seq<MigModel>, alters: seq<MigAlter>, driver: string)
    requires forall m :: m in models ==> TidyModel(m)
    requires AltersOf(models, ParseFiles(prior), alters)
    ensures var schema := ParseFiles(prior);
      ParseFiles(prior + [GeneratedText(models, schema, alters, driver)])
      == Effects(schema, UpScript(Pending(models, schema), alters, driver))
  {
    hide UpScript, Effects, ParseFile, Render, CleanSchema, TidyModel, AltersOf;
    var schema := ParseFiles(prior);
    var pending := Pending(models, schema);
    var files := prior + [GeneratedText(models, schema, alters, driver)];
    ParsedSchemaClean(prior);
    AltersAreTidy(models, schema, alters);
    PendingMembers(models, schema);
    GeneratedFileRead(schema, pending, alters, driver);
    assert files[..|files| - 1] == prior;
  }

  // The file runMakeMigrations writes for the detected differences
  function GeneratedText(models: seq<MigModel>, schema: Schema, alters: seq<MigAlter>, driver: string): string {
    Render(Script(Pending(models, schema), alters, driver), IsPostgres(driver))
  }

  lemma AllKnown(
    schema: Schema, models: seq<MigModel>, alters: seq<MigAlter>, driver: string, m: MigModel)
    requires CleanSchema(schema) && AltersOf(models, schema, alters)
    requires m in models && NamesSurvive(m, schema)
    ensures var after := Effects(schema, UpScript(Pending(models, schema), alters, driver));
      m.table in after && Missing(m.fields, after[m.table]) == []
  {
    hide UpScript, Effects, NamesSurvive, CleanSchema;
    var after := Effects(schema, UpScript(Pending(models, schema), alters, driver));
    SurvivorsAreKnown(schema, models, alters, driver, m, MigField("", "", 0, false, false, false, "", false));
    var missing := Missing(m.fields, after[m.table]);
    MissingMembers(m.fields, after[m.table]);
    if missing != [] {
      var f := missing[0];
      assert f in missing;
      SurvivorsAreKnown(schema, models, alters, driver, m, f);
    }
  }

  // The condition is real: in a new table, a column named like a constraint keyword is still missing after
  // the first run.
  lemma KeywordColumnNotAtOnce(m: MigModel, f: MigField, driver: string)
    requires TidyModel(m) && f in m.fields && !f.isPK && ToUpper(f.column) in ConstraintKeywords
    ensures !Settled([m], ParseFiles([GeneratedText([m], map[], [], driver)]))
  {
    hide ParseFile, GeneratedText, Missing, Settled, ToUpper, TidyModel;
    assert [m][..0] == [];
    assert AltersOf([], map[], []) && AltersOf([m], map[], []);
    assert ParseFiles([]) == map[];
    Fixpoint([], [m], [], driver);
    assert [] + [GeneratedText([m], map[], [], driver)] == [GeneratedText([m], map[], [], driver)];
    assert m in [m];
    assert !Survives(f.column);
  }

  // ---------- run after run ----------

  predicate LowerNames(m: MigModel) {
    && ToLower(m.table) == m.table
    && forall f :: f in m.fields && !f.isPK ==> ToLower(f.column) == f.column
  }

  // One run of makemigrations: no file when there is no change, else the differences as the last file
  ghost predicate RunOf(models: seq<MigModel>, driver: string, files: seq<string>, next: seq<string>) {
    var schema := ParseFiles(files);
    if Settled(models, schema) then next == files
    else
      exists alters ::
        AltersOf(models, schema, alters) && next == files + [GeneratedText(models, schema, alters, driver)]
  }

  // The migration files after each of any number of runs, with the same models
  ghost predicate History(models: seq<MigModel>, driver: string, files: seq<seq<string>>) {
    forall i :: 0 <= i < |files| - 1 ==> RunOf(models, driver, files[i], files[i + 1])
  }

  // Whatever the files hold, models are settled only if their names are in lower case.
  lemma SettledIsLower(models: seq<MigModel>, contents: seq<string>)
    requires Settled(models, ParseFiles(contents))
    ensures forall m :: m in models ==> LowerNames(m)
  {
    hide ParseFiles, Missing, ToLower;
    var schema := ParseFiles(contents);
    ParsedSchemaClean(contents);
    forall m | m in models
      ensures LowerNames(m)
    {
      MissingMembers(m.fields, schema[m.table]);
      forall f | f in m.fields && !f.isPK
        ensures ToLower(f.column) == f.column
      {
        assert f !in Missing(m.fields, schema[m.table]);
        assert f.column in schema[m.table];
      }
    }
  }

  // After a run that printed a model in lower case, its table is known.
  lemma TableKnown(
    schema: Schema, models: seq<MigModel>, alters: seq<MigAlter>, driver: string, m: MigModel)
    requires m in models && ToLower(m.table) == m.table
    ensures m.table in Effects(schema, UpScript(Pending(models, schema), alters, driver))
  {
    hide UpScript, Effects, ToLower;
    var pending := Pending(models, schema);
    if m.table !in schema {
      PendingMembers(models, schema);
      NewTableKnown(schema, pending, alters, driver, m, MigField("", "", 0, false, false, false, "", false));
    } else {
      EffectsKnow(schema, UpScript(pending, alters, driver), m.table, "");
    }
  }

  lemma SecondRunSettles(
    models: seq<MigModel>, driver: string, files: seq<string>, next: seq<string>, last: seq<string>)
    requires forall m :: m in models ==> TidyModel(m) && LowerNames(m)
    requires RunOf(models, driver, files, next) && RunOf(models, driver, next, last)
    ensures Settled(models, ParseFiles(last))
  {
    hide ParseFiles, GeneratedText, AltersOf, Settled, Effects, UpScript, ToLower, TidyModel;
    var schema, later := ParseFiles(files), ParseFiles(next);
    if !Settled(models, later) {
      var first :| AltersOf(models, schema, first) && next == files + [GeneratedText(models, schema, first, driver)];
      var second :| AltersOf(models, later, second) && last == next + [GeneratedText(models, later, second, driver)];
      ReadBack(files, models, first, driver);
      forall m | m in models
        ensures NamesSurvive(m, later)
      {
        TableKnown(schema, models, first, driver, m);
      }
      Fixpoint(next, models, second, driver);
    }
  }

  // Main result. After two runs or more, the models are settled exactly when their names are in lower case:
  // a keyword column needs the second run, and a name with a capital letter is never settled.
  lemma {:induction false} RunsSettleIff(models: seq<MigModel>, driver: string, files: seq<seq<string>>)
    requires (forall m :: m in models ==> TidyModel(m)) && |files| >= 3 && History(models, driver, files)
    ensures Settled(models, ParseFiles(files[|files| - 1])) <==> forall m :: m in models ==> LowerNames(m)
    decreases |files|
  {
    hide ParseFiles, LowerNames, Settled, TidyModel;
    var n := |files| - 1;
    assert RunOf(models, driver, files[n - 1], files[n - 1 + 1]);
    if Settled(models, ParseFiles(files[n])) {
      SettledIsLower(models, files[n]);
    } else if n == 2 {
      assert RunOf(models, driver, files[0], files[0 + 1]);
      if forall m :: m in models ==> LowerNames(m) {
        SecondRunSettles(models, driver, files[0], files[1], files[2]);
      }
    } else {
      forall i | 0 <= i < n - 1
        ensures RunOf(models, driver, files[..n][i], files[..n][i + 1])
      {
        assert RunOf(models, driver, files[i], files[i + 1]);
      }
      RunsSettleIff(models, driver, files[..n]);
    }
  }
}
