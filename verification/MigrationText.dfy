/** A generated migration as the database receives it. Main results: every piece that is sent reads back as the
    statement it carries, running the pieces that are read is running the statements, and the down section so
    received restores the schema the up section found. */
module MigrationText {
  import opened GoStrings
  import opened MigrationSql
  import opened MigrationRunner
  import opened MigrationExecution
  import opened MigrationSections
  import opened MigrationReversal
  import opened DdlReader

  // ---------- every statement is legible ----------

  ghost predicate AllLegible(blocks: seq<Block>) { forall b :: b in blocks && b.Stmt? ==> Legible(b.ddl) }

  lemma NamesAreIdents(table: string, column: string)
    requires IsIdent(table) && IsIdent(column)
    ensures IsIdent(IndexName(table, column)) && IsIdent(FtsIndexName(table, column))
    ensures IsIdent(FtsShadowTable(table, column)) && FtsShadowTable(table, column) != "rowid"
  {
    assert |FtsShadowTable(table, column)| > 5;
  }

  lemma FtsLegible(table: string, pk: string, f: MigField, driver: string)
    requires IsIdent(table) && IsIdent(pk) && Readable(f)
    ensures AllLegible(FtsUp(table, pk, f, driver)) && AllLegible(FtsDown(table, f, driver))
  {
    hide IsIdent, IndexName, FtsIndexName, FtsShadowTable, TriggerName, UnsupportedText;
    NamesAreIdents(table, f.column);
    var shadow := FtsShadowTable(table, f.column);
    TriggerNameIsIdent(shadow, AfterInsert);
    TriggerNameIsIdent(shadow, AfterDelete);
    TriggerNameIsIdent(shadow, AfterUpdate);
  }

  lemma FieldLegible(m: MigModel, f: MigField, driver: string)
    requires IsIdent(m.table) && IsIdent(PKColumn(m.fields)) && Readable(f)
    ensures AllLegible(FieldUp(m, f, driver)) && AllLegible(FieldDown(m, f, driver))
  {
    hide IsIdent, IndexName, FtsUp, FtsDown, PKColumn;
    NamesAreIdents(m.table, f.column);
    FtsLegible(m.table, PKColumn(m.fields), f, driver);
  }

  lemma {:induction false} FieldsLegible(m: MigModel, fields: seq<MigField>, driver: string)
    requires IsIdent(m.table) && IsIdent(PKColumn(m.fields)) && forall f :: f in fields ==> Readable(f)
    ensures AllLegible(FieldsUp(m, fields, driver)) && AllLegible(FieldsDown(m, fields, driver))
  {
    hide IsIdent, FieldUp, FieldDown, PKColumn, Legible, Readable;
    if fields != [] {
      var n := |fields| - 1;
      assert fields[n] in fields;
      FieldsLegible(m, fields[..n], driver);
      FieldLegible(m, fields[n], driver);
    }
  }

  // A model with fields, whose names are identifiers
  ghost predicate LegibleModel(m: MigModel) { SafeModel(m) && m.fields != [] }

  lemma {:induction false} KeyIsIdent(fields: seq<MigField>)
    requires forall f :: f in fields ==> SafeField(f)
    ensures IsIdent(PKColumn(fields))
  {
    if fields != [] {
      assert fields[0] in fields;
      KeyIsIdent(fields[1..]);
    }
  }

  lemma ModelLegible(m: MigModel, driver: string)
    requires LegibleModel(m)
    ensures AllLegible(ModelUp(m, driver)) && AllLegible(ModelDown(m, driver))
  {
    hide IsIdent, FieldsUp, FieldsDown, PKColumn;
    KeyIsIdent(m.fields);
    FieldsLegible(m, m.fields, driver);
  }

  lemma {:induction false} ModelsLegible(models: seq<MigModel>, driver: string)
    requires forall m :: m in models ==> LegibleModel(m)
    ensures AllLegible(ModelsUp(models, driver))
  {
    hide LegibleModel, ModelUp, Legible;
    if models != [] {
      var n := |models| - 1;
      assert models[n] in models;
      ModelsLegible(models[..n], driver);
      ModelLegible(models[n], driver);
    }
  }

  lemma {:induction false} ModelsDownLegible(models: seq<MigModel>, driver: string)
    requires forall m :: m in models ==> LegibleModel(m)
    ensures AllLegible(ModelsDown(models, driver))
  {
    hide LegibleModel, ModelDown, Legible;
    if models != [] {
      assert models[0] in models;
      ModelsDownLegible(models[1..], driver);
      ModelLegible(models[0], driver);
    }
  }

  lemma AddLegible(a: MigAlter, f: MigField, driver: string)
    requires IsIdent(a.table) && IsIdent(a.pkColumn) && Readable(f)
    ensures AllLegible(AddUp(a, f, driver)) && AllLegible(AddDown(a, f, driver))
  {
    hide IsIdent, IndexName, FtsUp, FtsDown;
    NamesAreIdents(a.table, f.column);
    FtsLegible(a.table, a.pkColumn, f, driver);
  }

  lemma {:induction false} AddsLegible(a: MigAlter, add: seq<MigField>, driver: string)
    requires IsIdent(a.table) && IsIdent(a.pkColumn) && forall f :: f in add ==> Readable(f)
    ensures AllLegible(AddsUp(a, add, driver))
  {
    hide IsIdent, AddUp, Legible, Readable;
    if add != [] {
      var n := |add| - 1;
      assert add[n] in add;
      AddsLegible(a, add[..n], driver);
      AddLegible(a, add[n], driver);
    }
  }

  lemma {:induction false} AddsDownLegible(a: MigAlter, add: seq<MigField>, driver: string)
    requires IsIdent(a.table) && IsIdent(a.pkColumn) && forall f :: f in add ==> Readable(f)
    ensures AllLegible(AddsDown(a, add, driver))
  {
    hide IsIdent, AddDown, Legible, Readable;
    if add != [] {
      assert add[0] in add;
      AddsDownLegible(a, add[1..], driver);
      AddLegible(a, add[0], driver);
    }
  }

  lemma AlterLegible(a: MigAlter, driver: string)
    requires SafeAlter(a)
    ensures AllLegible(AlterUp(a, driver)) && AllLegible(AddsDown(a, a.add, driver))
  {
    hide IsIdent, AddsUp, AddsDown, AddedText, RemovedText, AdviceText, SuggestionText, Legible;
    AddsLegible(a, a.add, driver);
    AddsDownLegible(a, a.add, driver);
  }

  lemma {:induction false} AltersLegible(alters: seq<MigAlter>, driver: string)
    requires forall a :: a in alters ==> SafeAlter(a)
    ensures AllLegible(AltersUp(alters, driver))
  {
    hide SafeAlter, AlterUp, Legible;
    if alters != [] {
      var n := |alters| - 1;
      assert alters[n] in alters;
      AltersLegible(alters[..n], driver);
      AlterLegible(alters[n], driver);
    }
  }

  lemma {:induction false} AltersDownLegible(alters: seq<MigAlter>, driver: string)
    requires forall a :: a in alters ==> SafeAlter(a)
    ensures AllLegible(AltersDown(alters, driver))
  {
    hide SafeAlter, AddsDown, Legible;
    if alters != [] {
      assert alters[0] in alters;
      AltersDownLegible(alters[1..], driver);
      AlterLegible(alters[0], driver);
    }
  }

  ghost predicate LegibleInput(models: seq<MigModel>, alters: seq<MigAlter>, driver: string) {
    SafeInput(models, alters, driver) && forall m :: m in models ==> m.fields != []
  }

  lemma {:induction false} StatementsLegible(blocks: seq<Block>)
    requires AllLegible(blocks)
    ensures forall d :: d in Statements(blocks) ==> Legible(d)
  {
    hide Legible;
    if blocks != [] {
      assert blocks[0] in blocks && forall b :: b in blocks[1..] ==> b in blocks;
      StatementsLegible(blocks[1..]);
    }
  }

  lemma ScriptsLegible(models: seq<MigModel>, alters: seq<MigAlter>, driver: string)
    requires LegibleInput(models, alters, driver)
    ensures forall d :: d in Statements(UpScript(models, alters, driver)) ==> Legible(d)
    ensures forall d :: d in Statements(DownScript(models, alters, driver)) ==> Legible(d)
  {
    hide Legible, ModelsUp, ModelsDown, AltersUp, AltersDown, SafeModel, SafeAlter, HeaderText, ReviewText;
    ModelsLegible(models, driver);
    ModelsDownLegible(models, driver);
    AltersLegible(alters, driver);
    AltersDownLegible(alters, driver);
    StatementsLegible(UpScript(models, alters, driver));
    StatementsLegible(DownScript(models, alters, driver));
  }

  // ---------- what the database receives ----------

  // The piece is comment lines and a text that reads as the command.
  ghost predicate ReadsAs(piece: string, c: Command) {
    exists notes, text :: IsNotes(notes) && piece == notes + text && ReadDdl(text) == Some(c)
  }

  ghost predicate AllRead(pieces: seq<string>, commands: seq<Command>) {
    |pieces| == |commands| && forall i :: 0 <= i < |pieces| ==> ReadsAs(pieces[i], commands[i])
  }

  // One command after another, up to the first that the database refuses
  function PerformAll(db: Db, commands: seq<Command>): Option<Db>
    decreases |commands|
  {
    if commands == [] then Some(db)
    else
      var next :- Perform(db, commands[0]);
      PerformAll(next, commands[1..])
  }

  function CommandsOf(ddls: seq<Ddl>, pg: bool): seq<Command> {
    seq(|ddls|, i requires 0 <= i < |ddls| => CommandOf(ddls[i], pg))
  }

  lemma CarriedReads(piece: string, d: Ddl, pg: bool)
    requires Carries(piece, d, pg) && Legible(d)
    ensures ReadsAs(piece, CommandOf(d, pg))
  {
    hide Legible, Body, ReadDdl, CommandOf, IsNotes;
    DdlReads(d, pg);
    var notes :| IsNotes(notes) && piece == notes + Body(d, pg);
    assert IsNotes(notes) && piece == notes + Body(d, pg) && ReadDdl(Body(d, pg)) == Some(CommandOf(d, pg));
  }

  lemma AllCarriedRead(pieces: seq<string>, ddls: seq<Ddl>, pg: bool)
    requires CarriesAll(pieces, ddls, pg) && forall d :: d in ddls ==> Legible(d)
    ensures AllRead(pieces, CommandsOf(ddls, pg))
  {
    hide Legible, Carries, ReadsAs, CommandOf;
    forall i | 0 <= i < |pieces|
      ensures ReadsAs(pieces[i], CommandsOf(ddls, pg)[i])
    {
      assert ddls[i] in ddls;
      CarriedReads(pieces[i], ddls[i], pg);
    }
  }

  lemma {:induction false} PerformsAll(db: Db, ddls: seq<Ddl>, pg: bool)
    requires forall d :: d in ddls ==> Legible(d)
    ensures PerformAll(db, CommandsOf(ddls, pg)) == Run(db, ddls)
    decreases |ddls|
  {
    hide Legible, Perform, Exec, CommandOf, ReadDdl, Body;
    if ddls != [] {
      assert ddls[0] in ddls && forall d :: d in ddls[1..] ==> d in ddls;
      TextRuns(db, ddls[0], pg);
      DdlReads(ddls[0], pg);
      assert CommandsOf(ddls, pg)[1..] == CommandsOf(ddls[1..], pg);
      if Exec(db, ddls[0]).Some? {
        PerformsAll(Exec(db, ddls[0]).value, ddls[1..], pg);
      }
    }
  }

  // Main result. Without SQLite's triggers, each piece of the up section that is sent reads as its statement,
  // and so does each of the down section always; and running what is read is running the statements.
  lemma GeneratedTextRuns(db: Db, models: seq<MigModel>, alters: seq<MigAlter>, driver: string)
    requires LegibleInput(models, alters, driver)
    ensures var file, pg := GeneratedFile(models, alters, driver), IsPostgres(driver);
      var ups, downs := Statements(UpScript(models, alters, driver)), Statements(DownScript(models, alters, driver));
      && (!(IsSqlite(driver) && HasFts(models, alters)) ==> AllRead(ToExecute(UpSection(file)), CommandsOf(ups, pg)))
      && AllRead(ToExecute(DownSection(file)), CommandsOf(downs, pg))
      && PerformAll(db, CommandsOf(ups, pg)) == Run(db, ups)
      && PerformAll(db, CommandsOf(downs, pg)) == Run(db, downs)
  {
    hide UpScript, DownScript, GeneratedFile, Legible, AllRead, CarriesAll, ToExecute, UpSection, DownSection, PerformAll,
         CommandsOf, Run, HasFts, SafeInput;
    var pg := IsPostgres(driver);
    GeneratedFileRuns(models, alters, driver);
    ScriptsLegible(models, alters, driver);
    var file := GeneratedFile(models, alters, driver);
    var ups, downs := Statements(UpScript(models, alters, driver)), Statements(DownScript(models, alters, driver));
    if !(IsSqlite(driver) && HasFts(models, alters)) {
      AllCarriedRead(ToExecute(UpSection(file)), ups, pg);
    }
    AllCarriedRead(ToExecute(DownSection(file)), downs, pg);
    PerformsAll(db, ups, pg);
    PerformsAll(db, downs, pg);
  }

  // So a migration that is received and undone leaves the schema it found.
  lemma TextRestores(db: Db, models: seq<MigModel>, alters: seq<MigAlter>, driver: string)
    requires LegibleInput(models, alters, driver) && Consistent(db)
    requires !(IsSqlite(driver) && HasFts(models, alters))
    requires Fresh(db, Statements(UpScript(models, alters, driver)))
    requires Run(db, Statements(UpScript(models, alters, driver))).Some?
    ensures exists ups, downs ::
      && AllRead(ToExecute(UpSection(GeneratedFile(models, alters, driver))), ups)
      && AllRead(ToExecute(DownSection(GeneratedFile(models, alters, driver))), downs)
      && PerformAll(db, ups).Some? && PerformAll(PerformAll(db, ups).value, downs) == Some(db)
  {
    hide UpScript, DownScript, GeneratedFile, AllRead, ToExecute, UpSection, DownSection, PerformAll, CommandsOf, Run, HasFts,
         SafeInput, Consistent, Fresh;
    var pg := IsPostgres(driver);
    var ups, downs := Statements(UpScript(models, alters, driver)), Statements(DownScript(models, alters, driver));
    var after := Run(db, ups).value;
    GeneratedTextRuns(db, models, alters, driver);
    GeneratedTextRuns(after, models, alters, driver);
    DownRestores(db, models, alters, driver);
    var u, d := CommandsOf(ups, pg), CommandsOf(downs, pg);
    assert AllRead(ToExecute(UpSection(GeneratedFile(models, alters, driver))), u)
        && AllRead(ToExecute(DownSection(GeneratedFile(models, alters, driver))), d)
        && PerformAll(db, u).Some? && PerformAll(PerformAll(db, u).value, d) == Some(db);
  }

  // ---------- which indexes and full-text tables are made ----------

  predicate IsExtra(b: Block) { b.Stmt? && !b.ddl.CreateTable? && !b.ddl.AddColumn? }

  // The key of a model is its first primary-key field.
  lemma {:induction false} KeyIsFirst(fields: seq<MigField>)
    ensures (forall f :: f in fields ==> !f.isPK) ==> PKColumn(fields) == "id"
    ensures forall i :: 0 <= i < |fields| && fields[i].isPK && (forall j :: 0 <= j < i ==> !fields[j].isPK) ==>
      PKColumn(fields) == fields[i].column
  {
    if fields != [] {
      KeyIsFirst(fields[1..]);
      assert fields == [fields[0]] + fields[1..];
      assert forall i :: 1 <= i < |fields| ==> fields[i] == fields[1..][i - 1];
      assert forall i :: 0 <= i < |fields| - 1 ==> fields[1..][i] == fields[i + 1];
    }
  }

  // A full-text field has the driver's own index, or the shadow table and its three triggers on SQLite.
  ghost predicate SearchWanted(driver: string, table: string, pk: string, column: string, b: Block) {
    || ((driver == "postgres" || driver == "pgx")
        && b == Stmt(CreateGinIndex(table + "_" + column + "_fts_idx", table, column)))
    || (driver == "mysql" && b == Stmt(CreateFulltextIndex(table + "_" + column + "_fts_idx", table, column)))
    || ((driver == "sqlite" || driver == "sqlite3")
        && (b == Stmt(CreateFtsTable(table + "_" + column + "_fts", table, column, pk))
            || exists e :: b == Stmt(CreateFtsTrigger(e, table + "_" + column + "_fts", table, column, pk))))
  }

  // A unique field has a unique index, a foreign key that is not unique an ordinary one. The primary key of a new
  // table is unique without an index.
  ghost predicate Wanted(driver: string, table: string, pk: string, f: MigField, newTable: bool, b: Block) {
    || (f.unique && !(newTable && f.isPK)
        && b == Stmt(CreateIndex(true, table + "_" + f.column + "_idx", table, f.column)))
    || (!f.unique && f.fk != "" && b == Stmt(CreateIndex(false, table + "_" + f.column + "_idx", table, f.column)))
    || (f.fts && SearchWanted(driver, table, pk, f.column, b))
  }

  lemma SearchMade(driver: string, table: string, pk: string, f: MigField, b: Block)
    requires IsExtra(b)
    ensures b in FtsUp(table, pk, f, driver) <==> SearchWanted(driver, table, pk, f.column, b)
  {
    hide UnsupportedText;
    var shadow := FtsShadowTable(table, f.column);
    if driver == "sqlite" || driver == "sqlite3" {
      forall e
        ensures Stmt(CreateFtsTrigger(e, shadow, table, f.column, pk)) in FtsUp(table, pk, f, driver)
      {
        assert e == AfterInsert || e == AfterDelete || e == AfterUpdate;
      }
    }
  }

  lemma FieldMade(m: MigModel, f: MigField, driver: string, b: Block)
    requires IsExtra(b)
    ensures b in FieldUp(m, f, driver) <==> Wanted(driver, m.table, PKColumn(m.fields), f, true, b)
  {
    hide FtsUp, SearchWanted, PKColumn;
    SearchMade(driver, m.table, PKColumn(m.fields), f, b);
  }

  lemma {:induction false} FieldsMade(m: MigModel, fields: seq<MigField>, driver: string, b: Block)
    requires IsExtra(b)
    ensures b in FieldsUp(m, fields, driver)
      <==> exists f :: f in fields && Wanted(driver, m.table, PKColumn(m.fields), f, true, b)
  {
    hide FieldUp, Wanted, PKColumn;
    if fields != [] {
      var n := |fields| - 1;
      FieldsMade(m, fields[..n], driver, b);
      FieldMade(m, fields[n], driver, b);
      assert fields == fields[..n] + [fields[n]];
    }
  }

  ghost predicate ModelWants(m: MigModel, driver: string, b: Block) {
    exists f :: f in m.fields && Wanted(driver, m.table, PKColumn(m.fields), f, true, b)
  }

  ghost predicate AlterWants(a: MigAlter, driver: string, b: Block) {
    exists f :: f in a.add && Wanted(driver, a.table, a.pkColumn, f, false, b)
  }

  lemma {:induction false} ModelsMade(models: seq<MigModel>, driver: string, b: Block)
    requires IsExtra(b)
    ensures b in ModelsUp(models, driver) <==> exists m :: m in models && ModelWants(m, driver, b)
  {
    hide FieldsUp, Wanted, PKColumn;
    if models != [] {
      var n := |models| - 1;
      ModelsMade(models[..n], driver, b);
      FieldsMade(models[n], models[n].fields, driver, b);
      assert b in ModelUp(models[n], driver) <==> ModelWants(models[n], driver, b);
      assert models == models[..n] + [models[n]];
    }
  }

  lemma AddMade(a: MigAlter, f: MigField, driver: string, b: Block)
    requires IsExtra(b)
    ensures b in AddUp(a, f, driver) <==> Wanted(driver, a.table, a.pkColumn, f, false, b)
  {
    hide FtsUp, SearchWanted;
    SearchMade(driver, a.table, a.pkColumn, f, b);
  }

  lemma {:induction false} AddsMade(a: MigAlter, add: seq<MigField>, driver: string, b: Block)
    requires IsExtra(b)
    ensures b in AddsUp(a, add, driver) <==> exists f :: f in add && Wanted(driver, a.table, a.pkColumn, f, false, b)
  {
    hide AddUp, Wanted;
    if add != [] {
      var n := |add| - 1;
      AddsMade(a, add[..n], driver, b);
      AddMade(a, add[n], driver, b);
      assert add == add[..n] + [add[n]];
    }
  }

  lemma AlterMade(a: MigAlter, driver: string, b: Block)
    requires IsExtra(b)
    ensures b in AlterUp(a, driver) <==> AlterWants(a, driver, b)
  {
    hide AddsUp, Wanted, AddedText, RemovedText, AdviceText, SuggestionText;
    AddsMade(a, a.add, driver, b);
  }

  lemma {:induction false} AltersMade(alters: seq<MigAlter>, driver: string, b: Block)
    requires IsExtra(b)
    ensures b in AltersUp(alters, driver) <==> exists a :: a in alters && AlterWants(a, driver, b)
  {
    hide AlterUp, AlterWants;
    if alters != [] {
      var n := |alters| - 1;
      AltersMade(alters[..n], driver, b);
      AlterMade(alters[n], driver, b);
      assert alters == alters[..n] + [alters[n]];
    }
  }

  // Besides tables and columns, an up section makes exactly the indexes and full-text tables its fields ask for.
  lemma ExtrasIff(models: seq<MigModel>, alters: seq<MigAlter>, driver: string, b: Block)
    requires IsExtra(b)
    ensures b in UpScript(models, alters, driver) <==>
      (exists m :: m in models && ModelWants(m, driver, b)) || (exists a :: a in alters && AlterWants(a, driver, b))
  {
    hide ModelsUp, AltersUp, ModelWants, AlterWants, HeaderText, ReviewText;
    ModelsMade(models, driver, b);
    AltersMade(alters, driver, b);
  }

  // The advice in the comments for a removed column reads, uncommented, as the drop of that column.
  lemma SuggestionReads(table: string, column: string, pg: bool)
    requires IsIdent(table) && IsIdent(column)
    ensures var text := SuggestionText(table, column);
      text != "" && text[|text| - 1] == ';' && ReadDdl(text[..|text| - 1]) == Some(RemoveColumn(table, column))
  {
    hide ReadDdl, IsIdent;
    var d := DropColumn(table, column);
    DdlReads(d, pg);
    var text := "ALTER TABLE " + table + " DROP COLUMN " + column;
    OneLineBody(d, text, pg);
    assert SuggestionText(table, column) == text + ";";
  }
}
