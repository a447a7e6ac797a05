/** The text of a generated migration, line by line: every name the schema reader reports is clean,
    every line of an up section is one line, and reading the file equals the effect of its statements. */
module MigrationLines {
  import opened GoStrings
  import opened Patterns
  import opened MigrationSql
  import opened MigrationSchema
  import opened MigrationParse

  // ---------- the schema reader yields clean names ----------

  ghost predicate CleanName(s: string) { ToLower(s) == s && '\n' !in s }

  ghost predicate CleanSchema(schema: Schema) {
    forall t :: t in schema ==> CleanName(t) && forall c :: c in schema[t] ==> CleanName(c)
  }

  lemma LowerIsClean(s: string)
    requires '\n' !in s
    ensures CleanName(ToLower(s))
  {
    var l := ToLower(s);
    assert forall i :: 0 <= i < |l| ==> l[i] == LowerChar(s[i]) && l[i] != '\n' && LowerChar(l[i]) == l[i];
    assert ToLower(l) == l;
  }

  lemma {:induction false} FieldsArePieces(s: string, sep: char -> bool, c: char)
    requires c !in s
    ensures forall w :: w in FieldsFunc(s, sep) ==> c !in w
    decreases |s|
  {
    if s == "" {
    } else if sep(s[0]) {
      FieldsArePieces(s[1..], sep, c);
    } else {
      FieldsArePieces(s[WordLength(s, sep)..], sep, c);
    }
  }

  lemma ColumnOfLineClean(trim: string)
    requires '\n' !in trim
    ensures CleanName(ColumnOfLine(trim))
  {
    hide ToLower, FieldsFunc, TrimFunc;
    var fields := Fields(trim);
    if fields == [] {
      assert CleanName("") by { assert ToLower("") == "" by { EmptyLower(); } }
    } else {
      FieldsArePieces(trim, IsSpace, '\n');
      var field := fields[0];
      assert field in fields;
      if '\n' in TrimFunc(field, IsColumnQuote) {
        TrimFuncMembers(field, IsColumnQuote, '\n');
      }
      LowerIsClean(TrimFunc(field, IsColumnQuote));
    }
  }

  lemma EmptyLower()
    ensures ToLower("") == ""
  {
  }

  lemma NameIsClean(s: string, dots: bool)
    requires EatName(s, dots).Some?
    ensures '\n' !in EatName(s, dots).value.0
  {
  }

  lemma MatchedNamesClean(s: string, verb: string)
    requires MatchAlter(s, verb).Some?
    ensures '\n' !in MatchAlter(s, verb).value.0 && '\n' !in MatchAlter(s, verb).value.1
  {
    hide EatName, EatWord, EatSpaces, EatQuote;
    var s2 := EatSpaces(EatWord(s, "ALTER").value).value;
    var s4 := EatSpaces(EatWord(s2, "TABLE").value).value;
    NameIsClean(EatQuote(s4), true);
    var table := EatName(EatQuote(s4), true).value;
    var s7 := EatSpaces(EatWord(EatSpaces(EatQuote(table.1)).value, verb).value).value;
    if MatchAfterKeyword(s7).Some? {
      NameIsClean(EatQuote(EatSpaces(EatWord(s7, "COLUMN").value).value), false);
    } else {
      NameIsClean(EatQuote(s7), false);
    }
  }

  lemma ParseLineClean(st: Scan, line: string)
    requires st.Valid() && CleanSchema(st.schema) && '\n' !in line
    ensures CleanSchema(ParseLine(st, line).schema)
  {
    hide TrimSpace, ToLower, ToUpper, FieldsFunc, MatchAlter, ColumnOfLine, IsDownLine, CleanName;
    var trim := TrimSpace(line);
    assert '\n' !in trim by {
      if '\n' in trim {
        TrimSpaceMembers(line, '\n');
      }
    }
    ColumnOfLineClean(trim);
    OpenTableClean(st, trim, |CreatePrefixes[0]|);
    OpenTableClean(st, trim, |CreatePrefixes[1]|);
    AlterLineClean(st, trim);
    assert |ToUpper(trim)| == |trim| by { UpperLength(trim); }
  }

  lemma OpenTableClean(st: Scan, trim: string, n: nat)
    requires st.Valid() && CleanSchema(st.schema) && '\n' !in trim
    ensures n <= |trim| ==> CleanSchema(OpenTable(st, trim[n..]).schema)
  {
    hide ToLower, FieldsFunc, CleanName;
    if n <= |trim| {
      var fields := FieldsFunc(trim[n..], IsTableNameEnd);
      FieldsArePieces(trim[n..], IsTableNameEnd, '\n');
      if fields != [] {
        assert fields[0] in fields;
        LowerIsClean(fields[0]);
      }
    }
  }

  lemma AlterLineClean(st: Scan, trim: string)
    requires st.Valid() && CleanSchema(st.schema)
    ensures CleanSchema(AlterLine(st, trim).schema)
  {
    hide ToLower, MatchAlter, CleanName;
    var add := MatchAlter(trim, "ADD");
    if add.Some? {
      MatchedNamesClean(trim, "ADD");
      LowerIsClean(add.value.0);
      LowerIsClean(add.value.1);
    }
  }

  lemma {:induction false} ParseLinesClean(st: Scan, lines: seq<string>)
    requires st.Valid() && CleanSchema(st.schema)
    requires forall l :: l in lines ==> '\n' !in l
    ensures CleanSchema(ParseLines(st, lines).schema)
    decreases |lines|
  {
    hide ParseLine, CleanSchema;
    if lines != [] {
      ParseLineClean(st, lines[0]);
      ParseLinesClean(ParseLine(st, lines[0]), lines[1..]);
    }
  }

  // Every table and column name the reader reports is lower-case and on one line.
  lemma {:induction false} ParsedSchemaClean(contents: seq<string>)
    ensures CleanSchema(ParseFiles(contents))
  {
    if contents != [] {
      ParsedSchemaClean(contents[..|contents| - 1]);
      var content := contents[|contents| - 1];
      SplitPartsLackSeparator(content, '\n');
      ParseLinesClean(Scan(ParseFiles(contents[..|contents| - 1]), "", false), Split(content, '\n'));
    }
  }

  // ---------- the up section is made of plain lines ----------

  ghost predicate OneLine(lines: seq<string>) { forall l :: l in lines ==> '\n' !in l }

  ghost predicate PlainBlock(b: Block) {
    TidyUpBlock(b) && forall pg :: OneLine(BlockLines(b, pg))
  }

  ghost predicate Plain(blocks: seq<Block>) { forall b :: b in blocks ==> PlainBlock(b) }

  lemma TypeTextPlain(f: MigField, pg: bool)
    requires '\n' !in f.fk
    ensures '\n' !in SqlType(f, pg) && '\n' !in Constraints(f, pg) && '\n' !in AlterConstraints(f, pg)
  {
    assert '\n' !in Default(f.goType, pg);
    assert '\n' !in NotNullText(f, pg);
    assert '\n' !in ReferenceText(f);
    if f.size > 0 {
      assert '\n' !in Itoa(f.size);
    }
  }

  lemma ColumnLinesPlain(fields: seq<MigField>, pg: bool)
    requires forall f :: f in fields ==> TidyField(f)
    ensures OneLine(ColumnLines(fields, pg))
  {
    hide ColumnLine, TidyField;
    forall l | l in ColumnLines(fields, pg)
      ensures '\n' !in l
    {
      var j :| 0 <= j < |fields| && l == ColumnLine(fields[j], j == |fields| - 1, pg);
      assert fields[j] in fields;
      ColumnLinePlain(fields[j], j == |fields| - 1, pg);
    }
  }

  lemma ColumnLinePlain(f: MigField, last: bool, pg: bool)
    requires TidyField(f)
    ensures '\n' !in ColumnLine(f, last, pg)
  {
    hide SqlType, Constraints;
    TypeTextPlain(f, pg);
    assert '\n' !in PadRight(f.column, 20);
  }

  lemma TableHeadPlain(table: string)
    requires '\n' !in table
    ensures '\n' !in TableHead(table)
  {
  }

  lemma CreateTablePlain(table: string, fields: seq<MigField>)
    requires IsIdent(table) && forall f :: f in fields ==> TidyField(f)
    ensures PlainBlock(Stmt(CreateTable(table, fields)))
  {
    hide ColumnLines, TableHead, DdlLines, IsIdent;
    IdentHasNoSpace(table);
    forall pg
      ensures OneLine(BlockLines(Stmt(CreateTable(table, fields)), pg))
    {
      TableLines(MigModel("", table, fields), pg);
      ColumnLinesPlain(fields, pg);
      TableHeadPlain(table);
    }
  }

  lemma AddColumnPlain(table: string, f: MigField)
    requires IsIdent(table) && TidyField(f)
    ensures PlainBlock(Stmt(AddColumn(table, f)))
  {
    hide SqlType, AlterConstraints;
    forall pg
      ensures OneLine(BlockLines(Stmt(AddColumn(table, f)), pg))
    {
      TypeTextPlain(f, pg);
      var head := AddColumnHead(table, f.column);
      var body := head + SqlType(f, pg) + AlterConstraints(f, pg);
      assert DdlLines(AddColumn(table, f), pg) == [body];
      OneLineBlock(AddColumn(table, f), body, pg);
      assert '\n' !in head by { AddColumnHeadPlain(table, f.column); }
      assert '\n' !in body;
    }
  }

  function AddColumnHead(table: string, column: string): string {
    "ALTER TABLE " + table + " ADD COLUMN " + column + " "
  }

  lemma AddColumnHeadPlain(table: string, column: string)
    requires IsIdent(table) && '\n' !in column
    ensures '\n' !in AddColumnHead(table, column)
  {
    IdentHasNoSpace(table);
  }

  lemma IndexPlain(d: Ddl)
    requires d.CreateIndex? || d.CreateGinIndex? || d.CreateFulltextIndex? || d.CreateFtsTable?
    requires d.CreateFtsTable? ==> '\n' !in d.shadow && '\n' !in d.pk
    requires !d.CreateFtsTable? ==> '\n' !in d.index
    requires '\n' !in d.table && '\n' !in d.column
    ensures PlainBlock(Stmt(d))
  {
    hide TriggerHead, TriggerInsert, TriggerDelete, ColumnLines, TableHead, SqlType, AlterConstraints,
         IndexOn, GinOn, FtsUsing;
    forall pg
      ensures OneLine(BlockLines(Stmt(d), pg))
    {
      IndexBodyPlain(d, pg);
      OneLineBlock(d, DdlLines(d, pg)[0], pg);
    }
  }

  lemma IndexBodyPlain(d: Ddl, pg: bool)
    requires d.CreateIndex? || d.CreateGinIndex? || d.CreateFulltextIndex? || d.CreateFtsTable?
    requires d.CreateFtsTable? ==> '\n' !in d.shadow && '\n' !in d.pk
    requires !d.CreateFtsTable? ==> '\n' !in d.index
    requires '\n' !in d.table && '\n' !in d.column
    ensures |DdlLines(d, pg)| == 1 && '\n' !in DdlLines(d, pg)[0]
  {
    hide TriggerHead, TriggerInsert, TriggerDelete, ColumnLines, TableHead, SqlType, AlterConstraints,
         IndexOn, GinOn, FtsUsing;
    match d {
      case CreateFtsTable(shadow, table, column, pk) =>
        FtsUsingPlain(d);
        NewlineFree("CREATE VIRTUAL TABLE IF NOT EXISTS ", FtsUsing(shadow, table, column, pk));
      case CreateIndex(unique, index, table, column) =>
        IndexTextPlain(index, table, column);
        NewlineFree("CREATE UNIQUE INDEX IF NOT EXISTS ", IndexOn(index, table, column));
        NewlineFree("CREATE INDEX IF NOT EXISTS ", IndexOn(index, table, column));
      case CreateGinIndex(index, table, column) =>
        IndexTextPlain(index, table, column);
        NewlineFree("CREATE INDEX IF NOT EXISTS ", GinOn(index, table, column));
      case CreateFulltextIndex(index, table, column) =>
        IndexTextPlain(index, table, column);
        NewlineFree("CREATE FULLTEXT INDEX ", IndexOn(index, table, column));
    }
  }

  lemma NewlineFree(a: string, b: string)
    requires '\n' !in a && '\n' !in b
    ensures '\n' !in a + b
  {
  }

  lemma FtsUsingPlain(d: Ddl)
    requires d.CreateFtsTable?
    requires '\n' !in d.shadow && '\n' !in d.pk && '\n' !in d.table && '\n' !in d.column
    ensures '\n' !in FtsUsing(d.shadow, d.table, d.column, d.pk)
  {
  }

  lemma IndexTextPlain(index: string, table: string, column: string)
    requires '\n' !in index && '\n' !in table && '\n' !in column
    ensures '\n' !in IndexOn(index, table, column) && '\n' !in GinOn(index, table, column)
  {
  }

  lemma TriggerPlain(d: Ddl)
    requires d.CreateFtsTrigger?
    requires '\n' !in d.shadow && '\n' !in d.table && '\n' !in d.column && '\n' !in d.pk
    ensures PlainBlock(Stmt(d))
  {
    hide TriggerHead, TriggerInsert, TriggerDelete;
    assert '\n' !in TriggerHead(d.event, d.shadow, d.table) by { TriggerHeadPlain(d); }
    assert '\n' !in TriggerInsert(d.shadow, d.column, d.pk) by { TriggerStepsPlain(d); }
    assert '\n' !in TriggerDelete(d.shadow, d.column, d.pk) by { TriggerStepsPlain(d); }
    forall pg
      ensures OneLine(BlockLines(Stmt(d), pg))
    {
      var lines := DdlLines(d, pg);
      assert OneLine(lines);
    }
  }

  lemma TriggerHeadPlain(d: Ddl)
    requires d.CreateFtsTrigger? && '\n' !in d.shadow && '\n' !in d.table
    ensures '\n' !in TriggerHead(d.event, d.shadow, d.table)
  {
    assert '\n' !in TriggerName(d.shadow, d.event);
  }

  lemma TriggerStepsPlain(d: Ddl)
    requires d.CreateFtsTrigger? && '\n' !in d.shadow && '\n' !in d.column && '\n' !in d.pk
    ensures '\n' !in TriggerInsert(d.shadow, d.column, d.pk) && '\n' !in TriggerDelete(d.shadow, d.column, d.pk)
  {
  }

  lemma {:induction false} EscapedPlain(s: string)
    ensures '\n' !in Escaped(s)
  {
    if s != "" {
      EscapedPlain(s[1..]);
    }
  }

  lemma FtsUpPlain(table: string, pk: string, f: MigField, driver: string)
    requires IsIdent(table) && '\n' !in pk && TidyField(f)
    ensures Plain(FtsUp(table, pk, f, driver))
  {
    hide PlainBlock, UnsupportedText;
    var index, shadow := FtsIndexName(table, f.column), FtsShadowTable(table, f.column);
    assert '\n' !in index && '\n' !in shadow;
    IndexPlain(CreateGinIndex(index, table, f.column));
    IndexPlain(CreateFulltextIndex(index, table, f.column));
    IndexPlain(CreateFtsTable(shadow, table, f.column, pk));
    TriggerPlain(CreateFtsTrigger(AfterInsert, shadow, table, f.column, pk));
    TriggerPlain(CreateFtsTrigger(AfterDelete, shadow, table, f.column, pk));
    TriggerPlain(CreateFtsTrigger(AfterUpdate, shadow, table, f.column, pk));
    BlankPlain();
    UnsupportedPlain(table, f.column, driver);
  }

  lemma NotePlain(text: string)
    requires text != "" && LowerChar(text[0]) != 'd' && !IsSpace(text[0]) && '\n' !in text
    ensures PlainBlock(NoteLine(text))
  {
    NoteText(text);
  }

  lemma BlankPlain()
    ensures PlainBlock(Blank)
  {
  }

  lemma UnsupportedPlain(table: string, column: string, driver: string)
    requires '\n' !in table && '\n' !in column
    ensures PlainBlock(NoteLine(UnsupportedText(table, column, driver)))
  {
    hide Escaped, PlainBlock, UnsupportedText;
    EscapedPlain(driver);
    UnsupportedLacks(table, column, driver, '\n');
    NotePlain(UnsupportedText(table, column, driver));
  }

  // The texts of the notes lack line breaks and semicolons.
  predicate Lacks(s: string, c: char) { forall i :: 0 <= i < |s| ==> s[i] != c }

  lemma LacksConcat(a: string, b: string, c: char)
    requires Lacks(a, c) && Lacks(b, c)
    ensures Lacks(a + b, c)
  {
  }

  lemma LacksMeans(s: string, c: char)
    ensures Lacks(s, c) <==> c !in s
  {
  }

  lemma UnsupportedWords(c: char)
    requires c == '\n' || c == ';'
    ensures Lacks("AVISO: kyrux:\"fts\" em ", c) && Lacks(".", c) && Lacks(" ignorado — full-text search não ", c)
  {
  }

  lemma SupportedWords(c: char)
    requires c == '\n' || c == ';'
    ensures Lacks("suportado no driver ", c) && Lacks(" (suportado: postgres, mysql, sqlite)", c)
  {
  }

  lemma UnsupportedLacks(table: string, column: string, driver: string, c: char)
    requires c == '\n' || c == ';'
    requires c !in table && c !in column && c !in Quoted(driver)
    ensures c !in UnsupportedText(table, column, driver)
    ensures var text := UnsupportedText(table, column, driver);
      text != "" && LowerChar(text[0]) != 'd' && !IsSpace(text[0])
  {
    hide Lacks, Quoted;
    UnsupportedWords(c);
    SupportedWords(c);
    LacksMeans(table, c);
    LacksMeans(column, c);
    LacksMeans(Quoted(driver), c);
    var front := "AVISO: kyrux:\"fts\" em ";
    LacksConcat(front, table, c);
    LacksConcat(front + table, ".", c);
    LacksConcat(front + table + ".", column, c);
    var named := front + table + "." + column;
    LacksConcat(named, " ignorado — full-text search não ", c);
    var middle := named + " ignorado — full-text search não ";
    LacksConcat(middle, "suportado no driver ", c);
    LacksConcat(middle + "suportado no driver ", Quoted(driver), c);
    LacksConcat(middle + "suportado no driver " + Quoted(driver), " (suportado: postgres, mysql, sqlite)", c);
    LacksMeans(UnsupportedText(table, column, driver), c);
    assert UnsupportedText(table, column, driver)[0] == 'A';
  }

  lemma AlterWords(c: char)
    requires c == '\n' || c == ';'
    ensures Lacks("Colunas novas em ", c) && Lacks("AVISO: colunas presentes nas ", c)
    ensures Lacks("migrations mas ausentes do model '", c) && Lacks("'.", c)
  {
  }

  lemma AlterNotesLack(table: string, c: char)
    requires (c == '\n' || c == ';') && c !in table
    ensures c !in AddedText(table) && c !in RemovedText(table)
    ensures AddedText(table) != "" && AddedText(table)[0] == 'C'
    ensures RemovedText(table) != "" && RemovedText(table)[0] == 'A'
  {
    hide Lacks;
    AlterWords(c);
    LacksMeans(table, c);
    LacksConcat("Colunas novas em ", table, c);
    LacksMeans(AddedText(table), c);
    var front, words := "AVISO: colunas presentes nas ", "migrations mas ausentes do model '";
    LacksConcat(front, words, c);
    LacksConcat(front + words, table, c);
    LacksConcat(front + words + table, "'.", c);
    LacksMeans(RemovedText(table), c);
  }

  lemma AdviceWords(c: char)
    requires c == '\n' || c == ';'
    ensures Lacks("A remoção NÃO é gerada ", c) && Lacks("automaticamente (perda de dados)", c)
    ensures Lacks(" — descomente para aplicar:", c)
  {
  }

  lemma AdviceLacks(c: char)
    requires c == '\n' || c == ';'
    ensures c !in AdviceText() && AdviceText() != "" && AdviceText()[0] == 'A'
  {
    hide Lacks;
    AdviceWords(c);
    var front, words := "A remoção NÃO é gerada ", "automaticamente (perda de dados)";
    LacksConcat(front, words, c);
    LacksConcat(front + words, " — descomente para aplicar:", c);
    LacksMeans(AdviceText(), c);
  }

  lemma IndexOfFieldPlain(unique: bool, table: string, f: MigField)
    requires IsIdent(table) && TidyField(f)
    ensures PlainBlock(Stmt(CreateIndex(unique, IndexName(table, f.column), table, f.column)))
  {
    assert '\n' !in IndexName(table, f.column);
    IndexPlain(CreateIndex(unique, IndexName(table, f.column), table, f.column));
  }

  lemma {:induction false} PKColumnPlain(fields: seq<MigField>)
    requires forall f :: f in fields ==> TidyField(f)
    ensures '\n' !in PKColumn(fields)
  {
    if fields != [] {
      assert fields[0] in fields;
      PKColumnPlain(fields[1..]);
    }
  }

  lemma {:induction false} FieldsUpPlain(m: MigModel, fields: seq<MigField>, driver: string)
    requires TidyModel(m) && forall f :: f in fields ==> TidyField(f)
    ensures Plain(FieldsUp(m, fields, driver))
  {
    hide PlainBlock, FtsUp, IndexName;
    if fields != [] {
      var f := fields[|fields| - 1];
      FieldsUpPlain(m, fields[..|fields| - 1], driver);
      PKColumnPlain(m.fields);
      FtsUpPlain(m.table, PKColumn(m.fields), f, driver);
      IndexOfFieldPlain(true, m.table, f);
      IndexOfFieldPlain(false, m.table, f);
      BlankPlain();
    }
  }

  lemma {:induction false} ModelsUpPlain(models: seq<MigModel>, driver: string)
    requires forall m :: m in models ==> TidyModel(m)
    ensures Plain(ModelsUp(models, driver))
  {
    hide PlainBlock, FieldsUp;
    if models != [] {
      var m := models[|models| - 1];
      ModelsUpPlain(models[..|models| - 1], driver);
      FieldsUpPlain(m, m.fields, driver);
      CreateTablePlain(m.table, m.fields);
      BlankPlain();
    }
  }

  lemma {:induction false} AddsUpPlain(a: MigAlter, add: seq<MigField>, driver: string)
    requires TidyAlter(a) && forall f :: f in add ==> TidyField(f)
    ensures Plain(AddsUp(a, add, driver))
  {
    hide PlainBlock, FtsUp, IndexName;
    if add != [] {
      var f := add[|add| - 1];
      AddsUpPlain(a, add[..|add| - 1], driver);
      FtsUpPlain(a.table, a.pkColumn, f, driver);
      IndexOfFieldPlain(true, a.table, f);
      IndexOfFieldPlain(false, a.table, f);
      AddColumnPlain(a.table, f);
    }
  }

  lemma AlterNotesPlain(table: string)
    requires '\n' !in table
    ensures PlainBlock(NoteLine(AddedText(table))) && PlainBlock(NoteLine(RemovedText(table)))
  {
    hide PlainBlock, AddedText, RemovedText;
    AlterNotesLack(table, '\n');
    NotePlain(AddedText(table));
    NotePlain(RemovedText(table));
  }

  lemma AdvicePlain()
    ensures PlainBlock(NoteLine(AdviceText()))
  {
    hide PlainBlock, AdviceText;
    AdviceLacks('\n');
    NotePlain(AdviceText());
  }

  lemma SuggestionPlain(table: string, column: string)
    requires '\n' !in table && '\n' !in column
    ensures PlainBlock(NoteLine(SuggestionText(table, column)))
  {
    hide PlainBlock;
    NotePlain(SuggestionText(table, column));
  }

  lemma SuggestionsPlain(a: MigAlter)
    requires TidyAlter(a)
    ensures Plain(Suggestions(a.table, a.removed))
  {
    hide PlainBlock, SuggestionText;
    forall b | b in Suggestions(a.table, a.removed)
      ensures PlainBlock(b)
    {
      var i :| 0 <= i < |a.removed| && b == NoteLine(SuggestionText(a.table, a.removed[i]));
      assert a.removed[i] in a.removed;
      SuggestionPlain(a.table, a.removed[i]);
    }
  }

  lemma AlterUpPlain(a: MigAlter, driver: string)
    requires TidyAlter(a)
    ensures Plain(AlterUp(a, driver))
  {
    hide PlainBlock, AddsUp, Suggestions, AddedText, RemovedText, AdviceText;
    AddsUpPlain(a, a.add, driver);
    AlterNotesPlain(a.table);
    AdvicePlain();
    SuggestionsPlain(a);
    BlankPlain();
  }

  lemma {:induction false} AltersUpPlain(alters: seq<MigAlter>, driver: string)
    requires forall a :: a in alters ==> TidyAlter(a)
    ensures Plain(AltersUp(alters, driver))
  {
    hide PlainBlock, AlterUp;
    if alters != [] {
      AltersUpPlain(alters[..|alters| - 1], driver);
      AlterUpPlain(alters[|alters| - 1], driver);
    }
  }

  lemma HeaderPlain()
    ensures Plain(Header())
  {
    hide PlainBlock;
    NotePlain(HeaderText());
    NotePlain(ReviewText());
    BlankPlain();
  }

  lemma UpScriptPlain(models: seq<MigModel>, alters: seq<MigAlter>, driver: string)
    requires forall m :: m in models ==> TidyModel(m)
    requires forall a :: a in alters ==> TidyAlter(a)
    ensures Plain(UpScript(models, alters, driver))
  {
    hide PlainBlock, ModelsUp, AltersUp, Header;
    HeaderPlain();
    ModelsUpPlain(models, driver);
    AltersUpPlain(alters, driver);
    BlankPlain();
  }

  lemma {:induction false} PlainLines(blocks: seq<Block>, pg: bool)
    requires Plain(blocks)
    ensures OneLine(Lines(blocks, pg))
  {
    hide BlockLines, TidyUpBlock;
    if blocks != [] {
      assert PlainBlock(blocks[0]) && OneLine(BlockLines(blocks[0], pg));
      PlainLines(blocks[1..], pg);
    }
  }

  // The file's text, line by line: the up section, the separator, and the rest
  lemma ScriptSplit(models: seq<MigModel>, alters: seq<MigAlter>, driver: string) returns (tail: string)
    requires forall m :: m in models ==> TidyModel(m)
    requires forall a :: a in alters ==> TidyAlter(a)
    ensures tail == Render(DownScript(models, alters, driver), IsPostgres(driver))
    ensures Split(Render(Script(models, alters, driver), IsPostgres(driver)), '\n')
         == Lines(UpScript(models, alters, driver), IsPostgres(driver)) + [DownNote] + Split(tail, '\n')
  {
    hide UpScript, DownScript, Lines, IsPostgres;
    var pg := IsPostgres(driver);
    var up, down := UpScript(models, alters, driver), DownScript(models, alters, driver);
    tail := Render(down, pg);
    UpScriptPlain(models, alters, driver);
    PlainLines(up, pg);
    RenderConcat(up + [Note(DownNote)], down, pg);
    RenderSnoc(up, Note(DownNote), pg);
    UnlinesOne(DownNote);
    UnlinesConcat(Lines(up, pg), [DownNote]);
    SplitUnlines(Lines(up, pg) + [DownNote], tail);
  }

  // Reading a generated file has the effect of its up statements; the down section is never seen.
  lemma GeneratedFileRead(schema: Schema, models: seq<MigModel>, alters: seq<MigAlter>, driver: string)
    requires forall m :: m in models ==> TidyModel(m)
    requires forall a :: a in alters ==> TidyAlter(a)
    ensures ParseFile(schema, Render(Script(models, alters, driver), IsPostgres(driver)))
         == Effects(schema, UpScript(models, alters, driver))
  {
    hide ParseLine, UpScript, Script, Effects, IsPostgres, Render;
    var pg := IsPostgres(driver);
    var up := UpScript(models, alters, driver);
    var tail := ScriptSplit(models, alters, driver);
    var st := Scan(schema, "", false);
    UpScriptPlain(models, alters, driver);
    ScriptRead(schema, up, pg);
    var read := Scan(Effects(schema, up), "", false);
    ParseLinesConcat(st, Lines(up, pg) + [DownNote], Split(tail, '\n'));
    ParseLinesSnoc(st, Lines(up, pg), DownNote);
    SeparatorStops(read);
    StoppedStays(read.(stopped := true), Split(tail, '\n'));
  }

  lemma SeparatorStops(st: Scan)
    requires st.Valid() && !st.stopped
    ensures ParseLine(st, DownNote) == st.(stopped := true)
  {
    Untrimmed(DownNote);
  }
}
