/** A generated file, from its text to the statements that reach the database. */
module MigrationSections {
  import opened GoStrings
  import opened MigrationSql
  import opened MigrationSchema
  import opened MigrationParse
  import opened MigrationLines
  import opened MigrationRunner
  import opened MigrationExecution

  ghost predicate SafeField(f: MigField) { IsIdent(f.column) && (f.fk == "" || IsIdent(f.fk)) }

  ghost predicate SafeModel(m: MigModel) {
    IsIdent(m.table) && forall f :: f in m.fields ==> SafeField(f)
  }

  ghost predicate SafeAlter(a: MigAlter) {
    && IsIdent(a.table) && IsIdent(a.pkColumn)
    && (forall f :: f in a.add ==> SafeField(f))
    && (forall c :: c in a.removed ==> '\n' !in c && ';' !in c)
  }

  ghost predicate SafeInput(models: seq<MigModel>, alters: seq<MigAlter>, driver: string) {
    && (forall m :: m in models ==> SafeModel(m))
    && (forall a :: a in alters ==> SafeAlter(a))
    && ';' !in driver
  }

  predicate IsSqlite(driver: string) { driver == "sqlite" || driver == "sqlite3" }

  // Some printed field is marked for full-text search.
  ghost predicate HasFts(models: seq<MigModel>, alters: seq<MigAlter>) {
    || (exists m, f :: m in models && f in m.fields && f.fts)
    || (exists a, f :: a in alters && f in a.add && f.fts)
  }

  // ---------- statements without stray semicolons ----------

  lemma {:induction false} JoinLacks(parts: seq<string>, sep: string, c: char)
    requires c !in sep && forall p :: p in parts ==> c !in p
    ensures c !in Join(parts, sep)
  {
    if |parts| > 1 {
      JoinLacks(parts[1..], sep, c);
    }
  }

  lemma {:induction false} JoinEnds(parts: seq<string>, sep: string)
    requires parts != [] && parts[0] != "" && parts[|parts| - 1] != ""
    ensures var s, last := Join(parts, sep), parts[|parts| - 1];
      s != "" && s[0] == parts[0][0] && s[|s| - 1] == last[|last| - 1]
  {
    if |parts| > 1 {
      var rest := parts[1..];
      if rest[0] == "" {
        JoinLast(rest, sep);
      } else {
        JoinEnds(rest, sep);
      }
    }
  }

  lemma {:induction false} JoinLast(parts: seq<string>, sep: string)
    requires parts != [] && parts[|parts| - 1] != ""
    ensures var s, last := Join(parts, sep), parts[|parts| - 1]; s != "" && s[|s| - 1] == last[|last| - 1]
  {
    if |parts| > 1 {
      JoinLast(parts[1..], sep);
    }
  }

  lemma IdentIsPlain(s: string)
    requires IsIdent(s)
    ensures ';' !in s && '\n' !in s && s != "" && !IsSpace(s[0]) && !IsSpace(s[|s| - 1]) && s[0] != '-'
  {
  }

  lemma TypeTextRuns(f: MigField, pg: bool)
    requires SafeField(f)
    ensures ';' !in SqlType(f, pg) && ';' !in Constraints(f, pg)
    ensures var s := SqlType(f, pg) + AlterConstraints(f, pg); ';' !in s && s != "" && !IsSpace(s[|s| - 1])
  {
    hide SqlType, NotNullText, ReferenceText;
    SqlTypeRuns(f, pg);
    ConstraintTextRuns(f, pg);
    TypeTextEnds(f, pg);
  }

  lemma SqlTypeRuns(f: MigField, pg: bool)
    ensures ';' !in SqlType(f, pg)
  {
    if f.size > 0 {
      assert ';' !in Itoa(f.size);
    }
  }

  lemma ConstraintTextRuns(f: MigField, pg: bool)
    requires SafeField(f)
    ensures ';' !in NotNullText(f, pg) && ';' !in ReferenceText(f)
  {
    hide Default, IsIdent;
    DefaultEnds(f.goType, pg);
    if f.fk != "" {
      IdentIsPlain(f.fk);
    }
  }

  lemma TypeTextEnds(f: MigField, pg: bool)
    ensures var s := SqlType(f, pg); s != "" && !IsSpace(s[|s| - 1])
    ensures var s := AlterConstraints(f, pg); s != "" ==> !IsSpace(s[|s| - 1])
  {
    assert var s := SqlType(f, pg); s != "" && !IsSpace(s[|s| - 1]);
    DefaultEnds(f.goType, pg);
    var notNull, reference := NotNullText(f, pg), ReferenceText(f);
    assert notNull != "" ==> !IsSpace(notNull[|notNull| - 1]);
    assert reference != "" ==> reference[|reference| - 1] == ')';
  }

  lemma DefaultEnds(goType: string, pg: bool)
    ensures var s := Default(goType, pg); ';' !in s && s != "" && !IsSpace(s[|s| - 1])
  {
  }

  lemma ColumnLineRuns(f: MigField, last: bool, pg: bool)
    requires SafeField(f)
    ensures ';' !in ColumnLine(f, last, pg)
  {
    hide SqlType, Constraints, PadRight;
    TypeTextRuns(f, pg);
    IdentIsPlain(f.column);
    assert ';' !in PadRight(f.column, 20) by { PadLacks(f.column); }
  }

  lemma PadLacks(s: string)
    requires ';' !in s
    ensures ';' !in PadRight(s, 20)
  {
  }

  lemma CreateTableRuns(table: string, fields: seq<MigField>, pg: bool)
    requires IsIdent(table) && forall f :: f in fields ==> SafeField(f)
    ensures Runnable(Stmt(CreateTable(table, fields)), pg)
  {
    hide TableHead, ColumnLine;
    var columns := ColumnLines(fields, pg);
    var lines := [TableHead(table)] + columns + [")"];
    assert DdlLines(CreateTable(table, fields), pg) == lines;
    TableHeadRuns(table);
    forall l | l in columns
      ensures ';' !in l
    {
      var j :| 0 <= j < |fields| && l == ColumnLine(fields[j], j == |fields| - 1, pg);
      ColumnLineRuns(fields[j], j == |fields| - 1, pg);
    }
    JoinLacks(lines, "\n", ';');
    JoinEnds(lines, "\n");
  }

  lemma TableHeadRuns(table: string)
    requires IsIdent(table)
    ensures ';' !in TableHead(table) && TableHead(table) != "" && TableHead(table)[0] == 'C'
  {
    IdentIsPlain(table);
  }

  // A statement on one line
  lemma OneLineRuns(d: Ddl, line: string, pg: bool)
    requires DdlLines(d, pg) == [line] && !d.CreateFtsTrigger? && ';' !in line && IsStatementText(line)
    ensures Runnable(Stmt(d), pg)
  {
  }

  lemma AddColumnRuns(table: string, f: MigField, pg: bool)
    requires IsIdent(table) && SafeField(f)
    ensures Runnable(Stmt(AddColumn(table, f)), pg)
  {
    hide SqlType, AlterConstraints;
    TypeTextRuns(f, pg);
    IdentIsPlain(table);
    IdentIsPlain(f.column);
    var text := SqlType(f, pg) + AlterConstraints(f, pg);
    var head := "ALTER TABLE " + table + " ADD COLUMN " + f.column + " ";
    assert ';' !in head && head[0] == 'A';
    var line := DdlLines(AddColumn(table, f), pg)[0];
    assert line == head + text;
    OneLineRuns(AddColumn(table, f), line, pg);
  }

  lemma IndexRuns(d: Ddl, pg: bool)
    requires d.CreateIndex? || d.CreateGinIndex? || d.CreateFulltextIndex? || d.CreateFtsTable?
    requires d.CreateFtsTable? ==> ';' !in d.shadow && ';' !in d.pk
    requires !d.CreateFtsTable? ==> ';' !in d.index
    requires ';' !in d.table && ';' !in d.column
    ensures Runnable(Stmt(d), pg)
  {
    hide TriggerHead, TriggerInsert, TriggerDelete, ColumnLines, TableHead, SqlType, AlterConstraints,
         IndexOn, GinOn, FtsUsing, Runnable;
    match d {
      case CreateFtsTable(shadow, table, column, pk) => FtsTableRuns(d, pg);
      case CreateIndex(unique, index, table, column) =>
        IndexTextRuns(index, table, column);
        CreateRuns(d, if unique then "CREATE UNIQUE INDEX IF NOT EXISTS " else "CREATE INDEX IF NOT EXISTS ",
                   IndexOn(index, table, column), pg);
      case CreateGinIndex(index, table, column) =>
        IndexTextRuns(index, table, column);
        CreateRuns(d, "CREATE INDEX IF NOT EXISTS ", GinOn(index, table, column), pg);
      case CreateFulltextIndex(index, table, column) =>
        IndexTextRuns(index, table, column);
        CreateRuns(d, "CREATE FULLTEXT INDEX ", IndexOn(index, table, column), pg);
    }
  }

  lemma CreateRuns(d: Ddl, front: string, back: string, pg: bool)
    requires DdlLines(d, pg) == [front + back] && !d.CreateFtsTrigger?
    requires front != "" && front[0] == 'C' && ';' !in front
    requires ';' !in back && back != "" && back[|back| - 1] == ')'
    ensures Runnable(Stmt(d), pg)
  {
    hide Runnable, DdlLines;
    var line := front + back;
    assert line[0] == front[0] && line[|line| - 1] == back[|back| - 1];
    OneLineRuns(d, line, pg);
  }

  lemma FtsTableRuns(d: Ddl, pg: bool)
    requires d.CreateFtsTable?
    requires ';' !in d.shadow && ';' !in d.pk && ';' !in d.table && ';' !in d.column
    ensures Runnable(Stmt(d), pg)
  {
    hide FtsUsing, Runnable;
    FtsUsingRuns(d);
    CreateRuns(d, "CREATE VIRTUAL TABLE IF NOT EXISTS ", FtsUsing(d.shadow, d.table, d.column, d.pk), pg);
  }

  lemma FtsUsingRuns(d: Ddl)
    requires d.CreateFtsTable?
    requires ';' !in d.shadow && ';' !in d.pk && ';' !in d.table && ';' !in d.column
    ensures var s := FtsUsing(d.shadow, d.table, d.column, d.pk); ';' !in s && s != "" && s[|s| - 1] == ')'
  {
  }

  lemma IndexTextRuns(index: string, table: string, column: string)
    requires ';' !in index && ';' !in table && ';' !in column
    ensures var s := IndexOn(index, table, column); ';' !in s && s != "" && s[|s| - 1] == ')'
    ensures var s := GinOn(index, table, column); ';' !in s && s != "" && s[|s| - 1] == ')'
  {
  }

  lemma OneDropRuns(d: Ddl, line: string, pg: bool)
    requires DdlLines(d, pg) == [line] && !d.CreateFtsTrigger?
    requires ';' !in line && '\n' !in line && IsStatementText(line)
    ensures Runnable(Stmt(d), pg) && IsDropBlock(Stmt(d), pg)
  {
    OneLineRuns(d, line, pg);
    OneLineBlock(d, line, pg);
  }

  lemma DropColumnRuns(table: string, column: string, pg: bool)
    requires IsIdent(table) && IsIdent(column)
    ensures Runnable(Stmt(DropColumn(table, column)), pg) && IsDropBlock(Stmt(DropColumn(table, column)), pg)
  {
    hide Runnable, IsDropBlock, IsIdent;
    IdentIsPlain(table);
    IdentIsPlain(column);
    OneDropRuns(DropColumn(table, column), "ALTER TABLE " + table + " DROP COLUMN " + column, pg);
  }

  lemma DropIndexRuns(index: string, pg: bool)
    requires IsIdent(index)
    ensures Runnable(Stmt(DropIndex(index)), pg) && IsDropBlock(Stmt(DropIndex(index)), pg)
  {
    hide Runnable, IsDropBlock, IsIdent;
    IdentIsPlain(index);
    OneDropRuns(DropIndex(index), "DROP INDEX IF EXISTS " + index, pg);
  }

  lemma DropIndexOnRuns(index: string, table: string, pg: bool)
    requires IsIdent(index) && IsIdent(table)
    ensures Runnable(Stmt(DropIndexOn(index, table)), pg) && IsDropBlock(Stmt(DropIndexOn(index, table)), pg)
  {
    hide Runnable, IsDropBlock, IsIdent;
    IdentIsPlain(index);
    IdentIsPlain(table);
    OneDropRuns(DropIndexOn(index, table), "DROP INDEX " + index + " ON " + table, pg);
  }

  lemma DropTriggerRuns(trigger: string, pg: bool)
    requires IsIdent(trigger)
    ensures Runnable(Stmt(DropTrigger(trigger)), pg) && IsDropBlock(Stmt(DropTrigger(trigger)), pg)
  {
    hide Runnable, IsDropBlock, IsIdent;
    IdentIsPlain(trigger);
    OneDropRuns(DropTrigger(trigger), "DROP TRIGGER IF EXISTS " + trigger, pg);
  }

  lemma DropTableRuns(table: string, pg: bool)
    requires IsIdent(table)
    ensures Runnable(Stmt(DropTable(table)), pg) && IsDropBlock(Stmt(DropTable(table)), pg)
  {
    hide Runnable, IsDropBlock, IsIdent;
    IdentIsPlain(table);
    OneDropRuns(DropTable(table), "DROP TABLE IF EXISTS " + table, pg);
  }

  // A block of a down section: one line that is not a comment
  ghost predicate IsDropBlock(b: Block, pg: bool) {
    var lines := BlockLines(b, pg);
    |lines| == 1 && '\n' !in lines[0] && lines[0] != "" && !IsSpace(lines[0][0]) && lines[0][0] != '-'
  }

  // ---------- the sections of the script ----------

  ghost predicate AllRun(blocks: seq<Block>, pg: bool) { forall b :: b in blocks ==> Runnable(b, pg) }

  ghost predicate AllDrops(blocks: seq<Block>, pg: bool) {
    forall b :: b in blocks ==> Runnable(b, pg) && IsDropBlock(b, pg)
  }

  lemma NamesAreSafe(table: string, column: string)
    requires IsIdent(table) && IsIdent(column)
    ensures IsIdent(IndexName(table, column)) && IsIdent(FtsIndexName(table, column))
    ensures IsIdent(FtsShadowTable(table, column))
    ensures forall e :: IsIdent(TriggerName(FtsShadowTable(table, column), e))
  {
    IdentConcat(table, "_");
    IdentConcat(table + "_", column);
    IdentConcat(table + "_" + column, "_idx");
    IdentConcat(table + "_" + column, "_fts_idx");
    IdentConcat(table + "_" + column, "_fts");
    var shadow := FtsShadowTable(table, column);
    IdentConcat(shadow, "_ai");
    IdentConcat(shadow, "_ad");
    IdentConcat(shadow, "_au");
  }

  lemma IdentConcat(a: string, b: string)
    requires IsIdent(a) && forall i :: 0 <= i < |b| ==> IsWordChar(b[i])
    ensures IsIdent(a + b)
  {
  }

  lemma {:induction false} EscapedLacks(s: string)
    requires ';' !in s
    ensures ';' !in Escaped(s)
  {
    if s != "" {
      EscapedLacks(s[1..]);
    }
  }

  lemma NoteRuns(text: string, pg: bool)
    requires '\n' !in text && ';' !in text
    ensures Runnable(NoteLine(text), pg)
  {
  }

  lemma UnsupportedRuns(table: string, column: string, driver: string, pg: bool)
    requires IsIdent(table) && IsIdent(column) && ';' !in driver
    ensures Runnable(NoteLine(UnsupportedText(table, column, driver)), pg)
  {
    hide Escaped, Runnable, IsIdent, UnsupportedText;
    EscapedLacks(driver);
    EscapedPlain(driver);
    IdentIsPlain(table);
    IdentIsPlain(column);
    UnsupportedLacks(table, column, driver, '\n');
    UnsupportedLacks(table, column, driver, ';');
    NoteRuns(UnsupportedText(table, column, driver), pg);
  }

  lemma FtsUpRuns(table: string, pk: string, f: MigField, driver: string, pg: bool)
    requires IsIdent(table) && IsIdent(pk) && SafeField(f) && ';' !in driver
    ensures AllRun(FtsUp(table, pk, f, driver), pg)
  {
    hide UnsupportedText, IsIdent, Body, IsStatementText, TriggerName, FtsIndexName, FtsShadowTable;
    NamesAreSafe(table, f.column);
    IdentIsPlain(table);
    IdentIsPlain(pk);
    IdentIsPlain(f.column);
    var index, shadow := FtsIndexName(table, f.column), FtsShadowTable(table, f.column);
    IdentIsPlain(index);
    IdentIsPlain(shadow);
    IndexRuns(CreateGinIndex(index, table, f.column), pg);
    IndexRuns(CreateFulltextIndex(index, table, f.column), pg);
    IndexRuns(CreateFtsTable(shadow, table, f.column, pk), pg);
    UnsupportedRuns(table, f.column, driver, pg);
  }

  lemma FtsDownRuns(table: string, f: MigField, driver: string, pg: bool)
    requires IsIdent(table) && SafeField(f)
    ensures AllDrops(FtsDown(table, f, driver), pg)
  {
    hide IsIdent, Runnable, IsDropBlock, TriggerName, FtsIndexName, FtsShadowTable;
    NamesAreSafe(table, f.column);
    var index, shadow := FtsIndexName(table, f.column), FtsShadowTable(table, f.column);
    DropIndexRuns(index, pg);
    DropIndexOnRuns(index, table, pg);
    DropTriggerRuns(TriggerName(shadow, AfterInsert), pg);
    DropTriggerRuns(TriggerName(shadow, AfterDelete), pg);
    DropTriggerRuns(TriggerName(shadow, AfterUpdate), pg);
    DropTableRuns(shadow, pg);
  }

  lemma IndexOfFieldRuns(unique: bool, table: string, f: MigField, pg: bool)
    requires IsIdent(table) && SafeField(f)
    ensures Runnable(Stmt(CreateIndex(unique, IndexName(table, f.column), table, f.column)), pg)
  {
    hide Runnable, IndexName;
    NamesAreSafe(table, f.column);
    IdentIsPlain(IndexName(table, f.column));
    IdentIsPlain(table);
    IdentIsPlain(f.column);
    IndexRuns(CreateIndex(unique, IndexName(table, f.column), table, f.column), pg);
  }

  lemma {:induction false} PKColumnIsIdent(fields: seq<MigField>)
    requires forall f :: f in fields ==> SafeField(f)
    ensures IsIdent(PKColumn(fields))
  {
    if fields != [] {
      assert fields[0] in fields;
      PKColumnIsIdent(fields[1..]);
    }
  }

  lemma {:induction false} FieldsUpRun(m: MigModel, fields: seq<MigField>, driver: string, pg: bool)
    requires SafeModel(m) && (forall f :: f in fields ==> SafeField(f)) && ';' !in driver
    ensures AllRun(FieldsUp(m, fields, driver), pg)
  {
    hide IsIdent, FtsUp, IndexName, Body, IsStatementText;
    if fields != [] {
      var f := fields[|fields| - 1];
      FieldsUpRun(m, fields[..|fields| - 1], driver, pg);
      PKColumnIsIdent(m.fields);
      FtsUpRuns(m.table, PKColumn(m.fields), f, driver, pg);
      IndexOfFieldRuns(true, m.table, f, pg);
      IndexOfFieldRuns(false, m.table, f, pg);
    }
  }

  lemma {:induction false} ModelsUpRun(models: seq<MigModel>, driver: string, pg: bool)
    requires (forall m :: m in models ==> SafeModel(m)) && ';' !in driver
    ensures AllRun(ModelsUp(models, driver), pg)
  {
    hide IsIdent, FieldsUp, Body, IsStatementText;
    if models != [] {
      var m := models[|models| - 1];
      ModelsUpRun(models[..|models| - 1], driver, pg);
      assert m in models && SafeModel(m);
      CreateTableRuns(m.table, m.fields, pg);
      FieldsUpRun(m, m.fields, driver, pg);
    }
  }

  lemma {:induction false} AddsUpRun(a: MigAlter, add: seq<MigField>, driver: string, pg: bool)
    requires SafeAlter(a) && (forall f :: f in add ==> SafeField(f)) && ';' !in driver
    ensures AllRun(AddsUp(a, add, driver), pg)
  {
    hide IsIdent, FtsUp, IndexName, Body, IsStatementText;
    if add != [] {
      var f := add[|add| - 1];
      AddsUpRun(a, add[..|add| - 1], driver, pg);
      AddColumnRuns(a.table, f, pg);
      FtsUpRuns(a.table, a.pkColumn, f, driver, pg);
      IndexOfFieldRuns(true, a.table, f, pg);
      IndexOfFieldRuns(false, a.table, f, pg);
    }
  }

  lemma AlterNotesRun(table: string, pg: bool)
    requires IsIdent(table)
    ensures Runnable(NoteLine(AddedText(table)), pg) && Runnable(NoteLine(RemovedText(table)), pg)
  {
    hide Runnable, IsIdent, AddedText, RemovedText;
    IdentIsPlain(table);
    AlterNotesLack(table, '\n');
    AlterNotesLack(table, ';');
    NoteRuns(AddedText(table), pg);
    NoteRuns(RemovedText(table), pg);
  }

  lemma AdviceRuns(pg: bool)
    ensures Runnable(NoteLine(AdviceText()), pg)
  {
    hide Runnable, AdviceText;
    AdviceLacks('\n');
    AdviceLacks(';');
    NoteRuns(AdviceText(), pg);
  }

  // A suggestion's only semicolon is its last character.
  lemma SuggestionRuns(table: string, column: string, pg: bool)
    requires IsIdent(table) && '\n' !in column && ';' !in column
    ensures Runnable(NoteLine(SuggestionText(table, column)), pg)
  {
    hide IsIdent;
    IdentIsPlain(table);
    var text := "ALTER TABLE " + table + " DROP COLUMN " + column;
    assert ';' !in text && '\n' !in text;
    assert SuggestionText(table, column) == text + ";";
    EndedNoteRuns(text, pg);
  }

  lemma EndedNoteRuns(text: string, pg: bool)
    requires '\n' !in text && ';' !in text
    ensures Runnable(NoteLine(text + ";"), pg)
  {
    var line := "-- " + (text + ";");
    assert line[..|line| - 1] == "-- " + text;
  }

  lemma AlterUpRuns(a: MigAlter, driver: string, pg: bool)
    requires SafeAlter(a) && ';' !in driver
    ensures AllRun(AlterUp(a, driver), pg)
  {
    hide IsIdent, AddsUp, Body, IsStatementText, AddedText, RemovedText, SuggestionText, AdviceText, Runnable;
    AddsUpRun(a, a.add, driver, pg);
    AlterNotesRun(a.table, pg);
    AdviceRuns(pg);
    BlankRuns(pg);
    forall b | b in Suggestions(a.table, a.removed)
      ensures Runnable(b, pg)
    {
      var i :| 0 <= i < |a.removed| && b == NoteLine(SuggestionText(a.table, a.removed[i]));
      assert a.removed[i] in a.removed;
      SuggestionRuns(a.table, a.removed[i], pg);
    }
  }

  lemma BlankRuns(pg: bool)
    ensures Runnable(Blank, pg)
  {
  }

  lemma {:induction false} AltersUpRun(alters: seq<MigAlter>, driver: string, pg: bool)
    requires (forall a :: a in alters ==> SafeAlter(a)) && ';' !in driver
    ensures AllRun(AltersUp(alters, driver), pg)
  {
    hide AlterUp, Runnable;
    if alters != [] {
      AltersUpRun(alters[..|alters| - 1], driver, pg);
      AlterUpRuns(alters[|alters| - 1], driver, pg);
    }
  }

  lemma HeaderRuns(pg: bool)
    ensures AllRun(Header(), pg)
  {
    hide Runnable, HeaderText, ReviewText, NoteLine;
    HeaderTextsPlain();
    NoteRuns(HeaderText(), pg);
    NoteRuns(ReviewText(), pg);
    BlankRuns(pg);
  }

  lemma HeaderTextsPlain()
    ensures '\n' !in HeaderText() && ';' !in HeaderText() && '\n' !in ReviewText() && ';' !in ReviewText()
  {
    PlainText("Migração gerada ");
    PlainText("automaticamente pelo Kyrux Framework");
    PlainText("Revisione antes de executar:");
    PlainText(" go run main.go migrate");
  }

  lemma PlainText(s: string)
    requires forall i :: 0 <= i < |s| ==> s[i] != '\n' && s[i] != ';'
    ensures '\n' !in s && ';' !in s
  {
  }

  // The up section without the blank line before the separator
  function UpBody(models: seq<MigModel>, alters: seq<MigAlter>, driver: string): seq<Block> {
    Header() + ModelsUp(models, driver) + AltersUp(alters, driver)
  }

  lemma UpBodyRuns(models: seq<MigModel>, alters: seq<MigAlter>, driver: string, pg: bool)
    requires SafeInput(models, alters, driver)
    ensures AllRun(UpBody(models, alters, driver), pg)
  {
    hide Header, ModelsUp, AltersUp, Runnable;
    HeaderRuns(pg);
    ModelsUpRun(models, driver, pg);
    AltersUpRun(alters, driver, pg);
  }

  lemma {:induction false} FieldsDownRun(m: MigModel, fields: seq<MigField>, driver: string, pg: bool)
    requires SafeModel(m) && forall f :: f in fields ==> SafeField(f)
    ensures AllDrops(FieldsDown(m, fields, driver), pg)
  {
    hide IsIdent, FtsDown, IndexName, Runnable, IsDropBlock;
    if fields != [] {
      var f := fields[|fields| - 1];
      FieldsDownRun(m, fields[..|fields| - 1], driver, pg);
      FtsDownRuns(m.table, f, driver, pg);
      NamesAreSafe(m.table, f.column);
      DropIndexRuns(IndexName(m.table, f.column), pg);
    }
  }

  lemma {:induction false} ModelsDownRun(models: seq<MigModel>, driver: string, pg: bool)
    requires forall m :: m in models ==> SafeModel(m)
    ensures AllDrops(ModelsDown(models, driver), pg)
  {
    hide IsIdent, FieldsDown, Runnable, IsDropBlock;
    if models != [] {
      var m := models[0];
      assert m in models;
      ModelsDownRun(models[1..], driver, pg);
      FieldsDownRun(m, m.fields, driver, pg);
      DropTableRuns(m.table, pg);
    }
  }

  lemma {:induction false} AddsDownRun(a: MigAlter, add: seq<MigField>, driver: string, pg: bool)
    requires SafeAlter(a) && forall f :: f in add ==> SafeField(f)
    ensures AllDrops(AddsDown(a, add, driver), pg)
  {
    hide IsIdent, FtsDown, IndexName, Runnable, IsDropBlock;
    if add != [] {
      var f := add[0];
      assert f in add;
      AddsDownRun(a, add[1..], driver, pg);
      FtsDownRuns(a.table, f, driver, pg);
      NamesAreSafe(a.table, f.column);
      DropIndexRuns(IndexName(a.table, f.column), pg);
      DropColumnRuns(a.table, f.column, pg);
    }
  }

  lemma {:induction false} AltersDownRun(alters: seq<MigAlter>, driver: string, pg: bool)
    requires forall a :: a in alters ==> SafeAlter(a)
    ensures AllDrops(AltersDown(alters, driver), pg)
  {
    hide AddsDown, Runnable, IsDropBlock;
    if alters != [] {
      assert alters[0] in alters;
      AltersDownRun(alters[1..], driver, pg);
      AddsDownRun(alters[0], alters[0].add, driver, pg);
    }
  }

  // ---------- from the text to the database ----------

  lemma {:induction false} NotStoppedNoSeparator(st: Scan, lines: seq<string>)
    requires st.Valid() && !st.stopped && !ParseLines(st, lines).stopped
    ensures LinesBefore(lines) == lines
    decreases |lines|
  {
    hide ParseLine, IsSeparator;
    if lines != [] {
      SeparatorLineStops(st, lines[0]);
      if ParseLine(st, lines[0]).stopped {
        StoppedStays(ParseLine(st, lines[0]), lines[1..]);
      } else {
        NotStoppedNoSeparator(ParseLine(st, lines[0]), lines[1..]);
      }
    }
  }

  lemma {:induction false} BeforeConcat(a: seq<string>, b: seq<string>)
    requires LinesBefore(a) == a
    ensures LinesBefore(a + b) == a + LinesBefore(b) && LinesAfter(a + b) == LinesAfter(b)
  {
    hide IsSeparator;
    if a == [] {
      assert a + b == b;
    } else {
      assert (a + b)[1..] == a[1..] + b;
      assert !IsSeparator(a[0]);
      BeforeConcat(a[1..], b);
    }
  }

  lemma {:induction false} NoSeparators(lines: seq<string>)
    requires forall l :: l in lines ==> !IsSeparator(l)
    ensures WithoutSeparators(lines) == lines
  {
    hide IsSeparator;
    if lines != [] {
      NoSeparators(lines[1..]);
    }
  }

  lemma {:induction false} JoinUnlines(lines: seq<string>)
    ensures Join(lines + [""], "\n") == Unlines(lines)
  {
    if lines == [] {
      assert lines + [""] == [""];
    } else {
      assert (lines + [""])[1..] == lines[1..] + [""];
      JoinUnlines(lines[1..]);
    }
  }

  lemma DropLineIsNoSeparator(line: string)
    requires line == "" || (!IsSpace(line[0]) && line[0] != '-')
    ensures !IsSeparator(line)
  {
    SameSeparator(line);
    if line != "" {
      TrimKeepsFirst(line);
    }
    if IsDownLine(TrimSpace(line)) {
      DownLineText(TrimSpace(line));
    }
  }

  lemma {:induction false} DropLines(blocks: seq<Block>, pg: bool)
    requires AllDrops(blocks, pg)
    ensures OneLine(Lines(blocks, pg))
    ensures forall l :: l in Lines(blocks, pg) ==> !IsSeparator(l)
  {
    hide BlockLines, Runnable, IsSeparator;
    if blocks != [] {
      DropLines(blocks[1..], pg);
      var lines := BlockLines(blocks[0], pg);
      assert IsDropBlock(blocks[0], pg);
      DropLineIsNoSeparator(lines[0]);
      assert lines == [lines[0]];
    }
  }

  lemma DownScriptDrops(models: seq<MigModel>, alters: seq<MigAlter>, driver: string, pg: bool)
    requires SafeInput(models, alters, driver)
    ensures AllDrops(DownScript(models, alters, driver), pg)
  {
    hide Runnable, IsDropBlock, AltersDown, ModelsDown;
    AltersDownRun(alters, driver, pg);
    ModelsDownRun(models, driver, pg);
  }

  lemma SafeIsTidy(models: seq<MigModel>, alters: seq<MigAlter>, driver: string)
    requires SafeInput(models, alters, driver)
    ensures forall m :: m in models ==> TidyModel(m)
    ensures forall a :: a in alters ==> TidyAlter(a)
  {
    forall f: MigField | SafeField(f)
      ensures TidyField(f)
    {
    }
  }

  // The runner's two sections of a generated file are the rendered up and down blocks.
  lemma SectionsOfGenerated(models: seq<MigModel>, alters: seq<MigAlter>, driver: string)
    requires SafeInput(models, alters, driver)
    ensures UpSection(GeneratedFile(models, alters, driver))
         == Render(UpBody(models, alters, driver), IsPostgres(driver))
    ensures DownSection(GeneratedFile(models, alters, driver))
         == Render(DownScript(models, alters, driver), IsPostgres(driver))
  {
    hide UpScript, DownScript, Lines, IsPostgres, ParseLine, IsSeparator, LinesBefore, LinesAfter, Runnable,
         IsDropBlock, Effects;
    var pg := IsPostgres(driver);
    var up, body, down := UpScript(models, alters, driver), UpBody(models, alters, driver), DownScript(models, alters, driver);
    SafeIsTidy(models, alters, driver);
    DownScriptDrops(models, alters, driver, pg);
    DropLines(down, pg);
    GeneratedLines(models, alters, driver);
    var upLines, downLines := Lines(up, pg), Lines(down, pg);
    UpScriptPlain(models, alters, driver);
    ScriptRead(map[], up, pg);
    NotStoppedNoSeparator(Scan(map[], "", false), upLines);
    SeparatorSplits(upLines, downLines + [""]);
    forall l | l in downLines + [""]
      ensures !IsSeparator(l)
    {
      if l == "" {
        DropLineIsNoSeparator(l);
      }
    }
    NoSeparators(downLines + [""]);
    assert up == body + [Blank] by { UpEndsBlank(models, alters, driver); }
    LinesConcat(body, [Blank], pg);
    assert Lines([Blank], pg) == [""] by { BlankLines(pg); }
    JoinUnlines(Lines(body, pg));
    JoinUnlines(downLines);
  }

  function GeneratedFile(models: seq<MigModel>, alters: seq<MigAlter>, driver: string): string {
    Render(Script(models, alters, driver), IsPostgres(driver))
  }

  lemma UpEndsBlank(models: seq<MigModel>, alters: seq<MigAlter>, driver: string)
    ensures UpScript(models, alters, driver) == UpBody(models, alters, driver) + [Blank]
  {
  }

  lemma BlankLines(pg: bool)
    ensures Lines([Blank], pg) == [""]
  {
    assert [Blank][1..] == [];
  }

  lemma SeparatorSplits(upLines: seq<string>, downLines: seq<string>)
    requires LinesBefore(upLines) == upLines
    ensures LinesBefore(upLines + [DownNote] + downLines) == upLines
    ensures LinesAfter(upLines + [DownNote] + downLines) == WithoutSeparators(downLines)
  {
    hide IsSeparator;
    var rest := [DownNote] + downLines;
    assert upLines + [DownNote] + downLines == upLines + rest;
    BeforeConcat(upLines, rest);
    assert IsSeparator(DownNote) by {
      SameSeparator(DownNote);
      Untrimmed(DownNote);
    }
    assert rest[1..] == downLines;
  }

  lemma GeneratedLines(models: seq<MigModel>, alters: seq<MigAlter>, driver: string)
    requires SafeInput(models, alters, driver)
    requires OneLine(Lines(DownScript(models, alters, driver), IsPostgres(driver)))
    ensures Split(GeneratedFile(models, alters, driver), '\n')
         == Lines(UpScript(models, alters, driver), IsPostgres(driver)) + [DownNote]
            + (Lines(DownScript(models, alters, driver), IsPostgres(driver)) + [""])
  {
    hide UpScript, DownScript, Lines, IsPostgres;
    SafeIsTidy(models, alters, driver);
    var tail := ScriptSplit(models, alters, driver);
    var down := Lines(DownScript(models, alters, driver), IsPostgres(driver));
    SplitUnlines(down, "");
    assert Unlines(down) + "" == Unlines(down);
  }

  // Which input makes the printer write triggers
  lemma {:induction false} FieldsTriggers(m: MigModel, fields: seq<MigField>, driver: string)
    ensures NoTrigger(Statements(FieldsUp(m, fields, driver)))
       <==> !(IsSqlite(driver) && exists f :: f in fields && f.fts)
  {
    hide FtsUp, IndexName;
    if fields != [] {
      var init, f := fields[..|fields| - 1], fields[|fields| - 1];
      FieldsTriggers(m, init, driver);
      StatementsConcat(FieldsUp(m, init, driver), FieldUp(m, f, driver));
      FieldTriggers(m, f, driver);
      assert fields == init + [f];
    }
  }

  lemma FtsTriggers(table: string, pk: string, f: MigField, driver: string)
    ensures NoTrigger(Statements(FtsUp(table, pk, f, driver))) <==> !IsSqlite(driver)
  {
    hide FtsIndexName, FtsShadowTable, UnsupportedText;
    var blocks := FtsUp(table, pk, f, driver);
    if IsSqlite(driver) {
      assert blocks[1..][1..] == blocks[2..];
      var d := blocks[2].ddl;
      assert d in Statements(blocks[2..]);
      assert d in Statements(blocks[1..]) && d in Statements(blocks);
    } else {
      assert blocks[1..][1..] == [];
      assert Statements(blocks) == Statements(blocks[1..]);
      assert Statements(blocks[1..]) == if blocks[1].Stmt? then [blocks[1].ddl] else [];
    }
  }

  lemma FieldTriggers(m: MigModel, f: MigField, driver: string)
    ensures NoTrigger(Statements(FieldUp(m, f, driver))) <==> !(IsSqlite(driver) && f.fts)
  {
    hide FtsUp, IndexName;
    var index := if f.unique && !f.isPK
      then [Blank, Stmt(CreateIndex(true, IndexName(m.table, f.column), m.table, f.column))] else [];
    var fkIndex := if f.fk != "" && !f.unique
      then [Blank, Stmt(CreateIndex(false, IndexName(m.table, f.column), m.table, f.column))] else [];
    var fts := if f.fts then FtsUp(m.table, PKColumn(m.fields), f, driver) else [];
    StatementsConcat(index + fkIndex, fts);
    StatementsConcat(index, fkIndex);
    FtsTriggers(m.table, PKColumn(m.fields), f, driver);
    PairStatements(index);
    PairStatements(fkIndex);
  }

  lemma PairStatements(blocks: seq<Block>)
    requires blocks == [] || (|blocks| == 2 && blocks[0] == Blank && blocks[1].Stmt? && blocks[1].ddl.CreateIndex?)
    ensures NoTrigger(Statements(blocks))
  {
    if blocks != [] {
      assert blocks[1..][1..] == [];
    }
  }

  lemma OneStatement(d: Ddl)
    ensures Statements([Stmt(d)]) == [d]
  {
    assert [Stmt(d)][1..] == [];
  }

  lemma {:induction false} ModelsTriggers(models: seq<MigModel>, driver: string)
    ensures NoTrigger(Statements(ModelsUp(models, driver)))
       <==> !(IsSqlite(driver) && exists m, f :: m in models && f in m.fields && f.fts)
  {
    hide FieldsUp;
    if models != [] {
      var init, m := models[..|models| - 1], models[|models| - 1];
      ModelsTriggers(init, driver);
      FieldsTriggers(m, m.fields, driver);
      var gap := if |models| > 1 then [Blank] else [];
      StatementsConcat(ModelsUp(init, driver) + gap, ModelUp(m, driver));
      StatementsConcat(ModelsUp(init, driver), gap);
      StatementsConcat([Stmt(CreateTable(m.table, m.fields))], FieldsUp(m, m.fields, driver));
      OneStatement(CreateTable(m.table, m.fields));
      assert Statements(gap) == [] by { GapStatements(gap); }
      assert models == init + [m];
    }
  }

  lemma GapStatements(blocks: seq<Block>)
    requires forall b :: b in blocks ==> !b.Stmt?
    ensures Statements(blocks) == []
  {
  }

  lemma {:induction false} AddsTriggers(a: MigAlter, add: seq<MigField>, driver: string)
    ensures NoTrigger(Statements(AddsUp(a, add, driver))) <==> !(IsSqlite(driver) && exists f :: f in add && f.fts)
  {
    hide FtsUp, IndexName;
    if add != [] {
      var init, f := add[..|add| - 1], add[|add| - 1];
      AddsTriggers(a, init, driver);
      var index := CreateIndex(f.unique, IndexName(a.table, f.column), a.table, f.column);
      var indexes := if f.unique || f.fk != "" then [Stmt(index)] else [];
      var fts := if f.fts then FtsUp(a.table, a.pkColumn, f, driver) else [];
      assert AddUp(a, f, driver) == [Stmt(AddColumn(a.table, f))] + indexes + fts;
      StatementsConcat(AddsUp(a, init, driver), AddUp(a, f, driver));
      StatementsConcat([Stmt(AddColumn(a.table, f))] + indexes, fts);
      StatementsConcat([Stmt(AddColumn(a.table, f))], indexes);
      OneStatement(AddColumn(a.table, f));
      OneStatement(index);
      FtsTriggers(a.table, a.pkColumn, f, driver);
      assert add == init + [f];
    }
  }

  lemma AlterTriggers(a: MigAlter, driver: string)
    ensures NoTrigger(Statements(AlterUp(a, driver))) <==> !(IsSqlite(driver) && exists f :: f in a.add && f.fts)
  {
    hide AddsUp, AddedText, RemovedText, AdviceText, SuggestionText;
    AddsTriggers(a, a.add, driver);
    var title := [Blank, NoteLine(AddedText(a.table))];
    var removed := if |a.removed| > 0
      then [Blank, NoteLine(RemovedText(a.table)), NoteLine(AdviceText())] + Suggestions(a.table, a.removed) else [];
    GapStatements(title);
    GapStatements(removed);
    var adds := if |a.add| > 0 then title + AddsUp(a, a.add, driver) else [];
    StatementsConcat(adds, removed);
    StatementsConcat(title, AddsUp(a, a.add, driver));
  }

  lemma {:induction false} AltersTriggers(alters: seq<MigAlter>, driver: string)
    ensures NoTrigger(Statements(AltersUp(alters, driver)))
       <==> !(IsSqlite(driver) && exists a, f :: a in alters && f in a.add && f.fts)
  {
    hide AlterUp;
    if alters != [] {
      var init, a := alters[..|alters| - 1], alters[|alters| - 1];
      AltersTriggers(init, driver);
      AlterTriggers(a, driver);
      StatementsConcat(AltersUp(init, driver), AlterUp(a, driver));
      assert alters == init + [a];
    }
  }

  lemma UpTriggers(models: seq<MigModel>, alters: seq<MigAlter>, driver: string)
    ensures NoTrigger(Statements(UpBody(models, alters, driver))) <==> !(IsSqlite(driver) && HasFts(models, alters))
    ensures Statements(UpScript(models, alters, driver)) == Statements(UpBody(models, alters, driver))
  {
    hide ModelsUp, AltersUp, Header;
    ModelsTriggers(models, driver);
    AltersTriggers(alters, driver);
    StatementsConcat(Header() + ModelsUp(models, driver), AltersUp(alters, driver));
    StatementsConcat(Header(), ModelsUp(models, driver));
    HeaderStatements();
    UpEndsBlank(models, alters, driver);
    StatementsConcat(UpBody(models, alters, driver), [Blank]);
    GapStatements([Blank]);
  }

  lemma HeaderStatements()
    ensures Statements(Header()) == []
  {
    hide HeaderText, ReviewText;
    GapStatements(Header());
  }

  // Fewer statements than pieces as soon as there is a trigger
  lemma {:induction false} TriggersAddCuts(ddls: seq<Ddl>)
    ensures TotalCuts(ddls) >= |ddls|
    ensures TotalCuts(ddls) == |ddls| <==> NoTrigger(ddls)
  {
    if ddls != [] {
      TriggersAddCuts(ddls[1..]);
      assert ddls == [ddls[0]] + ddls[1..];
    }
  }

  lemma {:induction false} DropsHaveNoTrigger(blocks: seq<Block>, pg: bool)
    requires AllDrops(blocks, pg)
    ensures NoTrigger(Statements(blocks))
  {
    hide Runnable;
    if blocks != [] {
      DropsHaveNoTrigger(blocks[1..], pg);
      assert IsDropBlock(blocks[0], pg);
      TriggerHasLines(blocks[0], pg);
    }
  }

  lemma TriggerHasLines(b: Block, pg: bool)
    ensures b.Stmt? && b.ddl.CreateFtsTrigger? ==> |BlockLines(b, pg)| > 1
  {
    hide TriggerHead, TriggerInsert, TriggerDelete;
  }

  // Main result. What the runner sends for the up section is its statements in order, comments aside,
  // exactly when SQLite's full-text triggers are not among them; the down section always runs so.
  lemma GeneratedFileRuns(models: seq<MigModel>, alters: seq<MigAlter>, driver: string)
    requires SafeInput(models, alters, driver)
    ensures CarriesAll(ToExecute(UpSection(GeneratedFile(models, alters, driver))),
                       Statements(UpScript(models, alters, driver)), IsPostgres(driver))
       <==> !(IsSqlite(driver) && HasFts(models, alters))
    ensures CarriesAll(ToExecute(DownSection(GeneratedFile(models, alters, driver))),
                       Statements(DownScript(models, alters, driver)), IsPostgres(driver))
  {
    hide UpScript, DownScript, UpBody, GeneratedFile, Render, IsPostgres, Runnable, IsDropBlock, ToExecute,
         Carries, UpSection, DownSection;
    var pg := IsPostgres(driver);
    var up, down := UpBody(models, alters, driver), DownScript(models, alters, driver);
    SectionsOfGenerated(models, alters, driver);
    UpBodyRuns(models, alters, driver, pg);
    DownScriptDrops(models, alters, driver, pg);
    EmptyNotes();
    assert "" + Render(up, pg) == Render(up, pg) && "" + Render(down, pg) == Render(down, pg);
    ScriptChunks("", up, pg);
    ScriptChunks("", down, pg);
    TriggersAddCuts(Statements(up));
    UpTriggers(models, alters, driver);
    DropsHaveNoTrigger(down, pg);
  }

  lemma EmptyNotes()
    ensures IsNotes("") && ';' !in ""
  {
  }
}
