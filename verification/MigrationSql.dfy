/** The DDL printer of `makemigrations`: models and detected differences become the text of a
    migration file. The text is specified by a script of blocks (blank lines, notes, statements). */
module MigrationSql {
  import opened GoStrings

  datatype MigField = MigField(
    column: string, goType: string, size: int,
    isPK: bool, notNull: bool, unique: bool, fk: string, fts: bool)

  datatype MigModel = MigModel(name: string, table: string, fields: seq<MigField>)

  datatype MigAlter = MigAlter(table: string, pkColumn: string, add: seq<MigField>, removed: seq<string>)

  // ---------- column types and constraints ----------

  predicate IsPostgres(driver: string) { driver == "postgres" || driver == "pgx" }

  function SqlType(f: MigField, pg: bool): string {
    if f.isPK then (if pg then "BIGSERIAL" else "INTEGER")
    else if f.goType == "int" || f.goType == "int32" then "INTEGER"
    else if f.goType == "int64" then (if pg then "BIGINT" else "INTEGER")
    else if f.goType == "float32" || f.goType == "float64" then "DECIMAL"
    else if f.goType == "bool" then "BOOLEAN"
    else if f.goType == "time.Time" then (if pg then "TIMESTAMPTZ" else "DATETIME")
    else if f.size > 0 then "VARCHAR(" + Itoa(f.size) + ")"
    else "TEXT"
  }

  function Default(goType: string, pg: bool): string {
    if goType == "bool" then "FALSE"
    else if goType in {"int", "int32", "int64", "float32", "float64"} then "0"
    else if goType == "time.Time" then (if pg then "NOW()" else "CURRENT_TIMESTAMP")
    else "''"
  }

  function NotNullText(f: MigField, pg: bool): string {
    if f.notNull then " NOT NULL DEFAULT " + Default(f.goType, pg) else ""
  }

  function ReferenceText(f: MigField): string {
    if f.fk != "" then " REFERENCES " + f.fk + "(id)" else ""
  }

  // migConstraints: a space before each part
  function Constraints(f: MigField, pg: bool): string {
    if f.isPK then " PRIMARY KEY"
    else NotNullText(f, pg) + (if f.unique then " UNIQUE" else "") + ReferenceText(f)
  }

  // migAlterConstraints: no inline UNIQUE
  function AlterConstraints(f: MigField, pg: bool): string {
    NotNullText(f, pg) + ReferenceText(f)
  }

  function IndexName(table: string, column: string): string { table + "_" + column + "_idx" }

  function FtsIndexName(table: string, column: string): string { table + "_" + column + "_fts_idx" }

  function FtsShadowTable(table: string, column: string): string { table + "_" + column + "_fts" }

  function PKColumn(fields: seq<MigField>): string {
    if fields == [] then "id" else if fields[0].isPK then fields[0].column else PKColumn(fields[1..])
  }

  // ---------- statements ----------

  datatype FtsEvent = AfterInsert | AfterDelete | AfterUpdate

  datatype Ddl =
    | CreateTable(table: string, fields: seq<MigField>)
    | CreateIndex(unique: bool, index: string, table: string, column: string)
    | CreateGinIndex(index: string, table: string, column: string)
    | CreateFulltextIndex(index: string, table: string, column: string)
    | CreateFtsTable(shadow: string, table: string, column: string, pk: string)
    | CreateFtsTrigger(event: FtsEvent, shadow: string, table: string, column: string, pk: string)
    | AddColumn(table: string, field: MigField)
    | DropColumn(table: string, column: string)
    | DropIndex(index: string)
    | DropIndexOn(index: string, table: string)
    | DropTrigger(trigger: string)
    | DropTable(table: string)

  function TriggerName(shadow: string, event: FtsEvent): string {
    shadow + match event { case AfterInsert => "_ai" case AfterDelete => "_ad" case AfterUpdate => "_au" }
  }

  function ColumnLine(f: MigField, last: bool, pg: bool): string {
    "    " + PadRight(f.column, 20) + " " + SqlType(f, pg) + Constraints(f, pg) + (if last then "" else ",")
  }

  function TableHead(table: string): string { "CREATE TABLE IF NOT EXISTS " + table + " (" }

  function ColumnLines(fields: seq<MigField>, pg: bool): seq<string> {
    seq(|fields|, j requires 0 <= j < |fields| => ColumnLine(fields[j], j == |fields| - 1, pg))
  }

  function TriggerHead(event: FtsEvent, shadow: string, table: string): string {
    "CREATE TRIGGER IF NOT EXISTS " + TriggerName(shadow, event) + " AFTER "
    + (match event { case AfterInsert => "INSERT" case AfterDelete => "DELETE" case AfterUpdate => "UPDATE" })
    + " ON " + table + " BEGIN"
  }

  function TriggerInsert(shadow: string, column: string, pk: string): string {
    "  INSERT INTO " + shadow + "(rowid, " + column + ") VALUES (new." + pk + ", new." + column + ");"
  }

  function TriggerDelete(shadow: string, column: string, pk: string): string {
    "  INSERT INTO " + shadow + "(" + shadow + ", rowid, " + column + ") VALUES('delete', old." + pk
    + ", old." + column + ");"
  }

  function IndexOn(index: string, table: string, column: string): string {
    index + " ON " + table + " (" + column + ")"
  }

  function GinOn(index: string, table: string, column: string): string {
    index + " ON " + table + " USING GIN (to_tsvector('portuguese', " + column + "))"
  }

  function FtsUsing(shadow: string, table: string, column: string, pk: string): string {
    shadow + " USING fts5(" + column + ", content='" + table + "', content_rowid='" + pk + "')"
  }

  // The lines of a statement, without the semicolon that ends it.
  function DdlLines(d: Ddl, pg: bool): (lines: seq<string>)
    ensures lines != []
  {
    match d
    case CreateTable(table, fields) =>
      [TableHead(table)] + ColumnLines(fields, pg) + [")"]
    case CreateIndex(unique, index, table, column) =>
      [if unique then "CREATE UNIQUE INDEX IF NOT EXISTS " + IndexOn(index, table, column)
       else "CREATE INDEX IF NOT EXISTS " + IndexOn(index, table, column)]
    case CreateGinIndex(index, table, column) =>
      ["CREATE INDEX IF NOT EXISTS " + GinOn(index, table, column)]
    case CreateFulltextIndex(index, table, column) =>
      ["CREATE FULLTEXT INDEX " + IndexOn(index, table, column)]
    case CreateFtsTable(shadow, table, column, pk) =>
      ["CREATE VIRTUAL TABLE IF NOT EXISTS " + FtsUsing(shadow, table, column, pk)]
    case CreateFtsTrigger(event, shadow, table, column, pk) =>
      [TriggerHead(event, shadow, table)]
      + (if event.AfterInsert? then [] else [TriggerDelete(shadow, column, pk)])
      + (if event.AfterDelete? then [] else [TriggerInsert(shadow, column, pk)])
      + ["END"]
    case AddColumn(table, f) =>
      ["ALTER TABLE " + table + " ADD COLUMN " + f.column + " " + SqlType(f, pg) + AlterConstraints(f, pg)]
    case DropColumn(table, column) => ["ALTER TABLE " + table + " DROP COLUMN " + column]
    case DropIndex(index) => ["DROP INDEX IF EXISTS " + index]
    case DropIndexOn(index, table) => ["DROP INDEX " + index + " ON " + table]
    case DropTrigger(trigger) => ["DROP TRIGGER IF EXISTS " + trigger]
    case DropTable(table) => ["DROP TABLE IF EXISTS " + table]
  }

  // ---------- scripts ----------

  datatype Block = Blank | Note(text: string) | Stmt(ddl: Ddl)

  function Terminated(lines: seq<string>): seq<string>
    requires lines != []
  {
    lines[..|lines| - 1] + [lines[|lines| - 1] + ";"]
  }

  function BlockLines(b: Block, pg: bool): seq<string> {
    match b
    case Blank => [""]
    case Note(text) => [text]
    case Stmt(d) => Terminated(DdlLines(d, pg))
  }

  function Lines(blocks: seq<Block>, pg: bool): seq<string> {
    if blocks == [] then [] else BlockLines(blocks[0], pg) + Lines(blocks[1..], pg)
  }

  function Render(blocks: seq<Block>, pg: bool): string { Unlines(Lines(blocks, pg)) }

  function Statements(blocks: seq<Block>): seq<Ddl> {
    if blocks == [] then []
    else (if blocks[0].Stmt? then [blocks[0].ddl] else []) + Statements(blocks[1..])
  }

  // Go's %q, for the escapes of ASCII text
  function Quoted(s: string): string { "\"" + Escaped(s) + "\"" }

  function Escaped(s: string): string {
    if s == "" then ""
    else
      (match s[0]
       case '\"' => "\\\""
       case '\\' => "\\\\"
       case '\n' => "\\n"
       case '\r' => "\\r"
       case '\t' => "\\t"
       case c => [c])
      + Escaped(s[1..])
  }

  // A comment line of the file
  function NoteLine(text: string): Block { Note("-- " + text) }

  function UnsupportedText(table: string, column: string, driver: string): string {
    "AVISO: kyrux:\"fts\" em " + table + "." + column + " ignorado — full-text search não "
    + "suportado no driver " + Quoted(driver) + " (suportado: postgres, mysql, sqlite)"
  }

  function FtsUp(table: string, pk: string, f: MigField, driver: string): seq<Block> {
    var shadow := FtsShadowTable(table, f.column);
    if IsPostgres(driver) then
      [Blank, Stmt(CreateGinIndex(FtsIndexName(table, f.column), table, f.column))]
    else if driver == "mysql" then
      [Blank, Stmt(CreateFulltextIndex(FtsIndexName(table, f.column), table, f.column))]
    else if driver == "sqlite" || driver == "sqlite3" then
      [Blank, Stmt(CreateFtsTable(shadow, table, f.column, pk)),
       Stmt(CreateFtsTrigger(AfterInsert, shadow, table, f.column, pk)),
       Stmt(CreateFtsTrigger(AfterDelete, shadow, table, f.column, pk)),
       Stmt(CreateFtsTrigger(AfterUpdate, shadow, table, f.column, pk))]
    else
      [Blank, NoteLine(UnsupportedText(table, f.column, driver))]
  }

  function FtsDown(table: string, f: MigField, driver: string): seq<Block> {
    var shadow := FtsShadowTable(table, f.column);
    if IsPostgres(driver) then [Stmt(DropIndex(FtsIndexName(table, f.column)))]
    else if driver == "mysql" then [Stmt(DropIndexOn(FtsIndexName(table, f.column), table))]
    else if driver == "sqlite" || driver == "sqlite3" then
      [Stmt(DropTrigger(TriggerName(shadow, AfterInsert))),
       Stmt(DropTrigger(TriggerName(shadow, AfterDelete))),
       Stmt(DropTrigger(TriggerName(shadow, AfterUpdate))),
       Stmt(DropTable(shadow))]
    else []
  }

  // What one field of a new table adds after CREATE TABLE
  function FieldUp(m: MigModel, f: MigField, driver: string): seq<Block> {
    (if f.unique && !f.isPK then
       [Blank, Stmt(CreateIndex(true, IndexName(m.table, f.column), m.table, f.column))] else [])
    + (if f.fk != "" && !f.unique then
         [Blank, Stmt(CreateIndex(false, IndexName(m.table, f.column), m.table, f.column))] else [])
    + (if f.fts then FtsUp(m.table, PKColumn(m.fields), f, driver) else [])
  }

  function FieldsUp(m: MigModel, fields: seq<MigField>, driver: string): seq<Block> {
    if fields == [] then []
    else FieldsUp(m, fields[..|fields| - 1], driver) + FieldUp(m, fields[|fields| - 1], driver)
  }

  function ModelUp(m: MigModel, driver: string): seq<Block> {
    [Stmt(CreateTable(m.table, m.fields))] + FieldsUp(m, m.fields, driver)
  }

  function ModelsUp(models: seq<MigModel>, driver: string): seq<Block> {
    if models == [] then []
    else
      ModelsUp(models[..|models| - 1], driver)
      + (if |models| > 1 then [Blank] else [])
      + ModelUp(models[|models| - 1], driver)
  }

  function AddUp(a: MigAlter, f: MigField, driver: string): seq<Block> {
    [Stmt(AddColumn(a.table, f))]
    + (if f.unique then [Stmt(CreateIndex(true, IndexName(a.table, f.column), a.table, f.column))]
       else if f.fk != "" then [Stmt(CreateIndex(false, IndexName(a.table, f.column), a.table, f.column))]
       else [])
    + (if f.fts then FtsUp(a.table, a.pkColumn, f, driver) else [])
  }

  function AddsUp(a: MigAlter, add: seq<MigField>, driver: string): seq<Block> {
    if add == [] then []
    else AddsUp(a, add[..|add| - 1], driver) + AddUp(a, add[|add| - 1], driver)
  }

  function SuggestionText(table: string, column: string): string {
    "ALTER TABLE " + table + " DROP COLUMN " + column + ";"
  }

  function Suggestions(table: string, removed: seq<string>): seq<Block> {
    seq(|removed|, i requires 0 <= i < |removed| => NoteLine(SuggestionText(table, removed[i])))
  }

  function AlterUp(a: MigAlter, driver: string): seq<Block> {
    (if |a.add| > 0 then [Blank, NoteLine(AddedText(a.table))] + AddsUp(a, a.add, driver) else [])
    + (if |a.removed| > 0 then
         [Blank, NoteLine(RemovedText(a.table)), NoteLine(AdviceText())] + Suggestions(a.table, a.removed)
       else [])
  }

  function AddedText(table: string): string { "Colunas novas em " + table }

  function RemovedText(table: string): string {
    "AVISO: colunas presentes nas " + "migrations mas ausentes do model '" + table + "'."
  }

  function AdviceText(): string {
    "A remoção NÃO é gerada " + "automaticamente (perda de dados)" + " — descomente para aplicar:"
  }

  function AltersUp(alters: seq<MigAlter>, driver: string): seq<Block> {
    if alters == [] then []
    else AltersUp(alters[..|alters| - 1], driver) + AlterUp(alters[|alters| - 1], driver)
  }

  function AddDown(a: MigAlter, f: MigField, driver: string): seq<Block> {
    (if f.fts then FtsDown(a.table, f, driver) else [])
    + (if f.unique || f.fk != "" then [Stmt(DropIndex(IndexName(a.table, f.column)))] else [])
    + [Stmt(DropColumn(a.table, f.column))]
  }

  // Newest column first
  function AddsDown(a: MigAlter, add: seq<MigField>, driver: string): seq<Block> {
    if add == [] then [] else AddsDown(a, add[1..], driver) + AddDown(a, add[0], driver)
  }

  function AltersDown(alters: seq<MigAlter>, driver: string): seq<Block> {
    if alters == [] then []
    else AltersDown(alters[1..], driver) + AddsDown(alters[0], alters[0].add, driver)
  }

  function FieldDown(m: MigModel, f: MigField, driver: string): seq<Block> {
    (if f.fts then FtsDown(m.table, f, driver) else [])
    + (if (f.unique || f.fk != "") && !f.isPK then [Stmt(DropIndex(IndexName(m.table, f.column)))] else [])
  }

  function FieldsDown(m: MigModel, fields: seq<MigField>, driver: string): seq<Block> {
    if fields == [] then []
    else FieldsDown(m, fields[..|fields| - 1], driver) + FieldDown(m, fields[|fields| - 1], driver)
  }

  function ModelDown(m: MigModel, driver: string): seq<Block> {
    FieldsDown(m, m.fields, driver) + [Stmt(DropTable(m.table))]
  }

  function ModelsDown(models: seq<MigModel>, driver: string): seq<Block> {
    if models == [] then [] else ModelsDown(models[1..], driver) + ModelDown(models[0], driver)
  }

  function HeaderText(): string { "Migração gerada " + "automaticamente pelo Kyrux Framework" }

  function ReviewText(): string { "Revisione antes de executar:" + " go run main.go migrate" }

  const DownNote := "-- down"

  function Header(): seq<Block> { [NoteLine(HeaderText()), NoteLine(ReviewText()), Blank] }

  function UpScript(models: seq<MigModel>, alters: seq<MigAlter>, driver: string): seq<Block> {
    Header() + ModelsUp(models, driver) + AltersUp(alters, driver) + [Blank]
  }

  function DownScript(models: seq<MigModel>, alters: seq<MigAlter>, driver: string): seq<Block> {
    AltersDown(alters, driver) + ModelsDown(models, driver)
  }

  function Script(models: seq<MigModel>, alters: seq<MigAlter>, driver: string): seq<Block> {
    UpScript(models, alters, driver) + [Note(DownNote)] + DownScript(models, alters, driver)
  }

  lemma {:induction false} LinesConcat(a: seq<Block>, b: seq<Block>, pg: bool)
    ensures Lines(a + b, pg) == Lines(a, pg) + Lines(b, pg)
  {
    hide BlockLines;
    if a == [] {
      assert a + b == b;
    } else {
      assert (a + b)[1..] == a[1..] + b;
      LinesConcat(a[1..], b, pg);
    }
  }

  lemma RenderConcat(a: seq<Block>, b: seq<Block>, pg: bool)
    ensures Render(a + b, pg) == Render(a, pg) + Render(b, pg)
  {
    LinesConcat(a, b, pg);
    UnlinesConcat(Lines(a, pg), Lines(b, pg));
  }

  lemma {:induction false} StatementsConcat(a: seq<Block>, b: seq<Block>)
    ensures Statements(a + b) == Statements(a) + Statements(b)
  {
    if a == [] {
      assert a + b == b;
    } else {
      assert (a + b)[1..] == a[1..] + b;
      StatementsConcat(a[1..], b);
      var first := if a[0].Stmt? then [a[0].ddl] else [];
      assert Statements(a + b) == first + Statements(a[1..] + b);
      assert Statements(a) == first + Statements(a[1..]);
    }
  }

  // ---------- the printing loops ----------

  function Text(b: Block, pg: bool): string { Unlines(BlockLines(b, pg)) }

  lemma RenderSnoc(blocks: seq<Block>, b: Block, pg: bool)
    ensures Render(blocks + [b], pg) == Render(blocks, pg) + Text(b, pg)
  {
    RenderConcat(blocks, [b], pg);
    assert [b][1..] == [];
    assert Lines([b], pg) == BlockLines(b, pg) + Lines([b][1..], pg);
    assert Lines([b], pg) == BlockLines(b, pg);
  }

  lemma UnlinesOne(line: string)
    ensures Unlines([line]) == line + "\n"
  {
    assert Unlines([line][1..]) == "";
  }

  // Appends blocks to the text written so far.
  method Write(sb: string, blocks: seq<Block>, ghost done: seq<Block>, pg: bool) returns (out: string)
    requires sb == Render(done, pg)
    ensures out == Render(done + blocks, pg)
  {
    hide Render, Text;
    out := sb;
    assert done + blocks[..0] == done;
    for i := 0 to |blocks|
      invariant out == Render(done + blocks[..i], pg)
    {
      out := out + Text(blocks[i], pg);
      RenderSnoc(done + blocks[..i], blocks[i], pg);
      assert done + blocks[..i + 1] == done + blocks[..i] + [blocks[i]];
    }
    assert blocks[..|blocks|] == blocks;
  }

  // The CREATE TABLE part of migGenerateSQL's loop body
  method TableText(m: MigModel, pg: bool) returns (sb: string)
    ensures sb == Text(Stmt(CreateTable(m.table, m.fields)), pg)
  {
    hide Unlines, ColumnLine, TableHead, DdlLines;
    sb := TableHead(m.table) + "\n";
    ghost var lines := [TableHead(m.table)];
    UnlinesOne(TableHead(m.table));
    for j := 0 to |m.fields|
      invariant lines == [TableHead(m.table)] + ColumnLines(m.fields, pg)[..j]
      invariant sb == Unlines(lines)
    {
      var line := ColumnLine(m.fields[j], j == |m.fields| - 1, pg);
      sb := sb + (line + "\n");
      UnlinesConcat(lines, [line]);
      UnlinesOne(line);
      lines := lines + [line];
    }
    sb := sb + (");" + "\n");
    UnlinesConcat(lines, [");"]);
    UnlinesOne(");");
    assert ColumnLines(m.fields, pg)[..|m.fields|] == ColumnLines(m.fields, pg);
    TableLines(m, pg);
  }

  lemma TableLines(m: MigModel, pg: bool)
    ensures BlockLines(Stmt(CreateTable(m.table, m.fields)), pg)
         == [TableHead(m.table)] + ColumnLines(m.fields, pg) + [");"]
  {
    hide TableHead, ColumnLines;
    var lines := DdlLines(CreateTable(m.table, m.fields), pg);
    assert lines == [TableHead(m.table)] + ColumnLines(m.fields, pg) + [")"];
    assert lines[..|lines| - 1] == [TableHead(m.table)] + ColumnLines(m.fields, pg);
    assert lines[|lines| - 1] + ";" == ");";
  }

  // Indexes and full-text objects of one field of a new table
  method WriteField(sb: string, m: MigModel, f: MigField, driver: string, ghost done: seq<Block>)
    returns (out: string)
    requires sb == Render(done, IsPostgres(driver))
    ensures out == Render(done + FieldUp(m, f, driver), IsPostgres(driver))
  {
    hide Render, FtsUp, IndexName, IsPostgres;
    var pg := IsPostgres(driver);
    out := sb;
    ghost var written := done;
    var index := IndexName(m.table, f.column);
    if f.unique && !f.isPK {
      var create := [Blank, Stmt(CreateIndex(true, index, m.table, f.column))];
      out := Write(out, create, written, pg);
      written := written + create;
    }
    if f.fk != "" && !f.unique {
      var create := [Blank, Stmt(CreateIndex(false, index, m.table, f.column))];
      out := Write(out, create, written, pg);
      written := written + create;
    }
    if f.fts {
      var fts := FtsUp(m.table, PKColumn(m.fields), f, driver);
      out := Write(out, fts, written, pg);
      written := written + fts;
    }
    assert written == done + FieldUp(m, f, driver);
  }

  method WriteFields(sb: string, m: MigModel, driver: string, ghost done: seq<Block>) returns (out: string)
    requires sb == Render(done, IsPostgres(driver))
    ensures out == Render(done + FieldsUp(m, m.fields, driver), IsPostgres(driver))
  {
    hide Render, FieldUp, IsPostgres;
    out := sb;
    ghost var written := done;
    for j := 0 to |m.fields|
      invariant written == done + FieldsUp(m, m.fields[..j], driver)
      invariant out == Render(written, IsPostgres(driver))
    {
      assert m.fields[..j + 1][..j] == m.fields[..j];
      out := WriteField(out, m, m.fields[j], driver, written);
      written := written + FieldUp(m, m.fields[j], driver);
    }
    assert m.fields[..|m.fields|] == m.fields;
  }

  // One new column, its index and its full-text objects
  method WriteAdd(sb: string, a: MigAlter, f: MigField, driver: string, ghost done: seq<Block>) returns (out: string)
    requires sb == Render(done, IsPostgres(driver))
    ensures out == Render(done + AddUp(a, f, driver), IsPostgres(driver))
  {
    hide Render, FtsUp, IndexName, IsPostgres;
    var pg := IsPostgres(driver);
    ghost var written := done + [Stmt(AddColumn(a.table, f))];
    out := Write(sb, [Stmt(AddColumn(a.table, f))], done, pg);
    var index := Stmt(CreateIndex(f.unique, IndexName(a.table, f.column), a.table, f.column));
    if f.unique {
      out := Write(out, [index], written, pg);
      written := written + [index];
    } else if f.fk != "" {
      out := Write(out, [index], written, pg);
      written := written + [index];
    }
    if f.fts {
      var fts := FtsUp(a.table, a.pkColumn, f, driver);
      out := Write(out, fts, written, pg);
      written := written + fts;
    }
    assert written == done + AddUp(a, f, driver);
  }

  // New columns of one changed table
  method WriteAdds(sb: string, a: MigAlter, driver: string, ghost done: seq<Block>) returns (out: string)
    requires sb == Render(done, IsPostgres(driver))
    ensures out == Render(done + AddsUp(a, a.add, driver), IsPostgres(driver))
  {
    hide Render, AddUp, IsPostgres;
    var pg := IsPostgres(driver);
    out := sb;
    ghost var written := done;
    for j := 0 to |a.add|
      invariant written == done + AddsUp(a, a.add[..j], driver)
      invariant out == Render(written, pg)
    {
      assert a.add[..j + 1][..j] == a.add[..j];
      out := WriteAdd(out, a, a.add[j], driver, written);
      written := written + AddUp(a, a.add[j], driver);
    }
    assert a.add[..|a.add|] == a.add;
  }

  // New columns and commented suggestions of one changed table
  method WriteAlter(sb: string, a: MigAlter, driver: string, ghost done: seq<Block>) returns (out: string)
    requires sb == Render(done, IsPostgres(driver))
    ensures out == Render(done + AlterUp(a, driver), IsPostgres(driver))
  {
    hide Render, AddsUp, IsPostgres, AddedText, RemovedText, SuggestionText, AdviceText, NoteLine;
    var pg := IsPostgres(driver);
    out := sb;
    ghost var written := done;
    if |a.add| > 0 {
      var title := [Blank, NoteLine(AddedText(a.table))];
      out := Write(out, title, written, pg);
      out := WriteAdds(out, a, driver, written + title);
      written := written + title + AddsUp(a, a.add, driver);
    }
    if |a.removed| > 0 {
      var title := [Blank, NoteLine(RemovedText(a.table)), NoteLine(AdviceText())];
      out := Write(out, title, written, pg);
      written := written + title;
      ghost var start := written;
      for j := 0 to |a.removed|
        invariant written == start + Suggestions(a.table, a.removed)[..j]
        invariant out == Render(written, pg)
      {
        var line := [NoteLine(SuggestionText(a.table, a.removed[j]))];
        out := Write(out, line, written, pg);
        written := written + line;
      }
      assert Suggestions(a.table, a.removed)[..|a.removed|] == Suggestions(a.table, a.removed);
    }
    assert written == done + AlterUp(a, driver);
  }

  // One changed table's part of the down section, newest column first
  method WriteAddsDown(sb: string, a: MigAlter, driver: string, ghost done: seq<Block>) returns (out: string)
    requires sb == Render(done, IsPostgres(driver))
    ensures out == Render(done + AddsDown(a, a.add, driver), IsPostgres(driver))
  {
    hide Render, FtsDown, IndexName, IsPostgres;
    var pg := IsPostgres(driver);
    out := sb;
    ghost var written := done;
    for j := |a.add| downto 0
      invariant written == done + AddsDown(a, a.add[j..], driver)
      invariant out == Render(written, pg)
    {
      ghost var start := written;
      assert a.add[j..][1..] == a.add[j + 1..];
      var f := a.add[j];
      if f.fts {
        var fts := FtsDown(a.table, f, driver);
        out := Write(out, fts, written, pg);
        written := written + fts;
      }
      if f.unique || f.fk != "" {
        var drop := [Stmt(DropIndex(IndexName(a.table, f.column)))];
        out := Write(out, drop, written, pg);
        written := written + drop;
      }
      out := Write(out, [Stmt(DropColumn(a.table, f.column))], written, pg);
      written := written + [Stmt(DropColumn(a.table, f.column))];
      assert written == start + AddDown(a, f, driver);
    }
  }

  // One column's part of the down section of a new table
  method WriteFieldDown(sb: string, m: MigModel, f: MigField, driver: string, ghost done: seq<Block>) returns (out: string)
    requires sb == Render(done, IsPostgres(driver))
    ensures out == Render(done + FieldDown(m, f, driver), IsPostgres(driver))
  {
    hide Render, FtsDown, IndexName, IsPostgres;
    var pg := IsPostgres(driver);
    out := sb;
    ghost var written := done;
    if f.fts {
      var fts := FtsDown(m.table, f, driver);
      out := Write(out, fts, written, pg);
      written := written + fts;
    }
    if (f.unique || f.fk != "") && !f.isPK {
      var drop := [Stmt(DropIndex(IndexName(m.table, f.column)))];
      out := Write(out, drop, written, pg);
      written := written + drop;
    }
    assert written == done + FieldDown(m, f, driver);
  }

  // One new table's part of the down section
  method WriteModelDown(sb: string, m: MigModel, driver: string, ghost done: seq<Block>) returns (out: string)
    requires sb == Render(done, IsPostgres(driver))
    ensures out == Render(done + ModelDown(m, driver), IsPostgres(driver))
  {
    hide Render, FieldDown, IsPostgres;
    var pg := IsPostgres(driver);
    out := sb;
    ghost var written := done;
    for j := 0 to |m.fields|
      invariant written == done + FieldsDown(m, m.fields[..j], driver)
      invariant out == Render(written, pg)
    {
      assert m.fields[..j + 1][..j] == m.fields[..j];
      out := WriteFieldDown(out, m, m.fields[j], driver, written);
      written := written + FieldDown(m, m.fields[j], driver);
    }
    assert m.fields[..|m.fields|] == m.fields;
    out := Write(out, [Stmt(DropTable(m.table))], written, pg);
    assert done + ModelDown(m, driver) == written + [Stmt(DropTable(m.table))];
  }

  // The up section: new tables, then changed tables
  method WriteUp(models: seq<MigModel>, alters: seq<MigAlter>, driver: string) returns (sb: string)
    ensures sb == Render(UpScript(models, alters, driver), IsPostgres(driver))
  {
    hide Render, Text, FieldsUp, AlterUp, IsPostgres;
    var pg := IsPostgres(driver);
    var header := Header();
    assert Render([], pg) == "" by { EmptyText(pg); }
    sb := Write("", header, [], pg);
    ghost var done := [] + header;

    for i := 0 to |models|
      invariant done == header + ModelsUp(models[..i], driver)
      invariant sb == Render(done, pg)
    {
      ghost var start := done;
      assert models[..i + 1][..i] == models[..i];
      var m := models[i];
      if i > 0 {
        sb := Write(sb, [Blank], done, pg);
        done := done + [Blank];
      }
      var table := TableText(m, pg);
      sb := sb + table;
      RenderSnoc(done, Stmt(CreateTable(m.table, m.fields)), pg);
      done := done + [Stmt(CreateTable(m.table, m.fields))];
      sb := WriteFields(sb, m, driver, done);
      done := done + FieldsUp(m, m.fields, driver);
      assert done == start + ((if i > 0 then [Blank] else []) + ModelUp(m, driver));
    }
    assert models[..|models|] == models;

    ghost var upModels := done;
    for i := 0 to |alters|
      invariant done == upModels + AltersUp(alters[..i], driver)
      invariant sb == Render(done, pg)
    {
      assert alters[..i + 1][..i] == alters[..i];
      sb := WriteAlter(sb, alters[i], driver, done);
      done := done + AlterUp(alters[i], driver);
    }
    assert alters[..|alters|] == alters;
    sb := Write(sb, [Blank], done, pg);
    assert done + [Blank] == UpScript(models, alters, driver);
  }

  lemma EmptyText(pg: bool)
    ensures Render([], pg) == ""
  {
  }

  // migGenerateSQL: the up section, the separator, and everything undone in reverse order
  method GenerateSql(models: seq<MigModel>, alters: seq<MigAlter>, driver: string) returns (sb: string)
    ensures sb == Render(Script(models, alters, driver), IsPostgres(driver))
  {
    hide Render, UpScript, AddsDown, ModelDown, IsPostgres;
    var pg := IsPostgres(driver);
    sb := WriteUp(models, alters, driver);
    ghost var up := UpScript(models, alters, driver);
    sb := Write(sb, [Note(DownNote)], up, pg);
    ghost var done := up + [Note(DownNote)];
    ghost var down := done;
    for i := |alters| downto 0
      invariant done == down + AltersDown(alters[i..], driver)
      invariant sb == Render(done, pg)
    {
      assert alters[i..][1..] == alters[i + 1..];
      sb := WriteAddsDown(sb, alters[i], driver, done);
      done := done + AddsDown(alters[i], alters[i].add, driver);
    }
    ghost var downAlters := done;
    for i := |models| downto 0
      invariant done == downAlters + ModelsDown(models[i..], driver)
      invariant sb == Render(done, pg)
    {
      assert models[i..][1..] == models[i + 1..];
      sb := WriteModelDown(sb, models[i], driver, done);
      done := done + ModelDown(models[i], driver);
    }
    assert done == Script(models, alters, driver);
  }
}
