/** What the schema reader makes of the text the DDL printer writes: the whole file has the effect
    of its CREATE TABLE and ADD COLUMN statements, and nothing else in it is noticed. */
module MigrationParse {
  import opened GoStrings
  import opened Patterns
  import opened MigrationSql
  import opened MigrationSchema

  ghost predicate TidyField(f: MigField) {
    IsIdent(f.column) && '\n' !in f.fk
  }

  ghost predicate TidyModel(m: MigModel) {
    IsIdent(m.table) && forall f :: f in m.fields ==> TidyField(f)
  }

  ghost predicate TidyAlter(a: MigAlter) {
    && IsIdent(a.table) && '\n' !in a.pkColumn
    && (forall f :: f in a.add ==> TidyField(f))
    && (forall c :: c in a.removed ==> '\n' !in c)
  }

  // The reader's effect of one statement
  function Recorded(fields: seq<MigField>): set<string> {
    set f | f in fields && IsDeclaredColumn(ToLower(f.column)) :: ToLower(f.column)
  }

  function Effect(schema: Schema, b: Block): Schema {
    match b
    case Stmt(CreateTable(table, fields)) =>
      schema[ToLower(table) := Columns(schema, ToLower(table)) + Recorded(fields)]
    case Stmt(AddColumn(table, f)) => AddColumnTo(schema, ToLower(table), ToLower(f.column))
    case _ => schema
  }

  function Effects(schema: Schema, blocks: seq<Block>): Schema
    decreases |blocks|
  {
    if blocks == [] then schema else Effects(Effect(schema, blocks[0]), blocks[1..])
  }

  // A comment line that cannot be taken for the separator
  ghost predicate IsNote(text: string) {
    && |text| >= 4 && text[0] == '-' && text[1] == '-' && text[2] == ' '
    && LowerChar(text[3]) != 'd' && !IsSpace(text[3])
  }

  lemma NoteText(text: string)
    requires text != "" && LowerChar(text[0]) != 'd' && !IsSpace(text[0])
    ensures IsNote("-- " + text)
  {
    assert ("-- " + text)[3] == text[0];
  }

  // A block of an up section with plain names
  ghost predicate TidyUpBlock(b: Block) {
    match b
    case Blank => true
    case Note(text) => IsNote(text)
    case Stmt(CreateTable(table, fields)) => IsIdent(table) && forall f :: f in fields ==> TidyField(f)
    case Stmt(AddColumn(table, f)) => IsIdent(table) && TidyField(f)
    case Stmt(d) =>
      d.CreateIndex? || d.CreateGinIndex? || d.CreateFulltextIndex? || d.CreateFtsTable? || d.CreateFtsTrigger?
  }

  // ---------- single lines ----------

  lemma IdentHasNoSpace(s: string)
    requires IsIdent(s)
    ensures forall i :: 0 <= i < |s| ==> !IsSpace(s[i]) && !IsReSpace(s[i]) && !IsTableNameEnd(s[i])
    ensures '\n' !in s
  {
  }

  // Trimming a line that starts with printed text leaves that text in front.
  lemma TrimKeepsHead(pad: string, head: string, tail: string)
    requires forall i :: 0 <= i < |pad| ==> IsSpace(pad[i])
    requires head != "" && !IsSpace(head[0]) && !IsSpace(head[|head| - 1])
    ensures TrimSpace(pad + head + tail) == head + TrimRightFunc(tail, IsSpace)
    ensures TrimRightFunc(tail, IsSpace) <= tail
  {
    TrimLeftKeeps(pad, head + tail, IsSpace);
    assert pad + head + tail == pad + (head + tail);
    TrimRightKeeps(head, tail, IsSpace);
    TrimRightIsPrefix(tail, IsSpace);
  }

  lemma NoteInert(st: Scan, text: string)
    requires st.Valid() && TidyUpBlock(Note(text))
    ensures ParseLine(st, text) == st
  {
    hide TrimSpace, TableLine, OuterLine;
    var head, tail := text[..4], text[4..];
    assert text == "" + head + tail;
    TrimKeepsHead("", head, tail);
    var trim := TrimSpace(text);
    assert trim[..4] == head && trim[3] == text[3];
    assert trim[0] == text[0] && trim[1] == text[1];
    assert HasPrefix(trim, "--");
    assert |trim| == |"-- down"| ==> ToLower(trim)[3] != ToLower("-- down")[3];
  }

  ghost predicate NotCreateTable(head: string) {
    && |head| <= |CreatePrefixes[1]|
    && (exists i :: 0 <= i < |head| && UpperChar(head[i]) != CreatePrefixes[1][i])
    && UpperChar(head[0]) != 'A' && head[0] != '-'
  }

  lemma InertLine(st: Scan, pad: string, head: string, tail: string)
    requires st.Valid() && st.inTable == "" && !st.stopped
    requires forall i :: 0 <= i < |pad| ==> IsSpace(pad[i])
    requires head != "" && !IsSpace(head[0]) && !IsSpace(head[|head| - 1]) && NotCreateTable(head)
    ensures ParseLine(st, pad + head + tail) == st
  {
    hide TrimSpace, TableLine, OpenTable;
    TrimKeepsHead(pad, head, tail);
    var trim := TrimSpace(pad + head + tail);
    assert forall i :: 0 <= i < |head| ==> ToUpper(trim)[i] == UpperChar(head[i]);
    var i :| 0 <= i < |head| && UpperChar(head[i]) != CreatePrefixes[1][i];
    assert !HasPrefix(ToUpper(trim), CreatePrefixes[1]);
    assert CreatePrefixes[1][i] == CreatePrefixes[0][i];
    assert !HasPrefix(ToUpper(trim), CreatePrefixes[0]);
    NotAlter(trim, "ADD");
    NotAlter(trim, "DROP");
  }

  lemma NotAlter(s: string, verb: string)
    requires s != "" && UpperChar(s[0]) != 'A'
    ensures MatchAlter(s, verb) == None
  {
    hide EatName, EatSpaces, MatchColumnName;
    if |s| >= 5 {
      assert ToUpper(s[..5])[0] == UpperChar(s[0]);
    }
  }

  lemma TableHeadLine(schema: Schema, table: string)
    requires IsIdent(table)
    ensures ParseLine(Scan(schema, "", false), TableHead(table))
         == Scan(schema[ToLower(table) := Columns(schema, ToLower(table))], ToLower(table), false)
  {
    hide ToUpper, ToLower, FieldsFunc, TrimSpace, AlterLine, TableLine, IsDownLine;
    var prefix, rest := CreatePrefixes[0], table + " (";
    TableHeadTrimmed(table);
    UpperPrefix(prefix, rest);
    assert TableHead(table) == prefix + rest;
    assert (prefix + rest)[|prefix|..] == rest;
    IdentHasNoSpace(table);
    FirstField(table, " (", IsTableNameEnd);
    var st := Scan(schema, "", false);
    assert TableHead(table)[0] == 'C';
    assert ParseLine(st, TableHead(table)) == OuterLine(st, TableHead(table));
    assert OuterLine(st, prefix + rest) == OpenTable(st, rest);
    assert FieldsFunc(rest, IsTableNameEnd)[0] == table;
  }

  lemma TableHeadTrimmed(table: string)
    ensures TrimSpace(TableHead(table)) == TableHead(table)
  {
    TrimFuncIdentity(TableHead(table), IsSpace);
  }

  // The printer's own capitals are unchanged by ToUpper.
  lemma UpperPrefix(prefix: string, rest: string)
    requires forall i :: 0 <= i < |prefix| ==> !IsLowerLetter(prefix[i])
    ensures HasPrefix(ToUpper(prefix + rest), prefix)
  {
    assert ToUpper(prefix + rest)[..|prefix|] == prefix;
  }

  lemma ColumnTextSplit(f: MigField, last: bool, pg: bool) returns (tail: string)
    ensures tail != "" && tail[0] == ' '
    ensures ColumnLine(f, last, pg) == "    " + f.column + tail
  {
    hide SqlType, Constraints;
    var rest := SqlType(f, pg) + Constraints(f, pg) + (if last then "" else ",");
    var pad := if |f.column| < 20 then Spaces(20 - |f.column|) else "";
    assert PadRight(f.column, 20) == f.column + pad;
    tail := pad + " " + rest;
    assert tail[0] == ' ';
  }

  lemma ColumnLineRecorded(st: Scan, f: MigField, last: bool, pg: bool)
    requires st.Valid() && st.inTable != "" && !st.stopped && IsIdent(f.column)
    ensures ParseLine(st, ColumnLine(f, last, pg))
         == if IsDeclaredColumn(ToLower(f.column))
            then st.(schema := AddColumnTo(st.schema, st.inTable, ToLower(f.column)))
            else st
  {
    hide ColumnLine, FieldsFunc, TrimSpace, IsDeclaredColumn, ToLower, OuterLine, IsDownLine, TrimFunc;
    var tail := ColumnTextSplit(f, last, pg);
    IdentHasNoSpace(f.column);
    TrimKeepsHead("    ", f.column, tail);
    var kept := TrimRightFunc(tail, IsSpace);
    var trim := TrimSpace(ColumnLine(f, last, pg));
    assert trim == f.column + kept;
    assert trim[0] == f.column[0];
    FirstField(f.column, kept, IsSpace);
    assert Fields(trim)[0] == f.column;
    TrimFuncIdentity(f.column, IsColumnQuote);
  }

  lemma {:induction false} ColumnLinesRecorded(st: Scan, fields: seq<MigField>, n: nat, pg: bool)
    requires st.Valid() && st.inTable != "" && !st.stopped
    requires forall f :: f in fields ==> IsIdent(f.column)
    requires n <= |fields|
    ensures ParseLines(st, ColumnLines(fields, pg)[..n])
         == st.(schema := st.schema[st.inTable := Columns(st.schema, st.inTable) + Recorded(fields[..n])])
  {
    hide ColumnLine, ParseLine, IsDeclaredColumn;
    var lines := ColumnLines(fields, pg);
    if n == 0 {
      assert lines[..0] == [] && Recorded(fields[..0]) == {};
      assert Columns(st.schema, st.inTable) + {} == Columns(st.schema, st.inTable);
      assert st.schema == st.schema[st.inTable := Columns(st.schema, st.inTable)];
    } else {
      ColumnLinesRecorded(st, fields, n - 1, pg);
      var mid := ParseLines(st, lines[..n - 1]);
      ParseLinesSnoc(st, lines[..n - 1], lines[n - 1]);
      assert lines[..n] == lines[..n - 1] + [lines[n - 1]];
      var f := fields[n - 1];
      assert f in fields;
      assert lines[n - 1] == ColumnLine(f, n - 1 == |fields| - 1, pg);
      ColumnLineRecorded(mid, f, n - 1 == |fields| - 1, pg);
      assert fields[..n] == fields[..n - 1] + [f];
      assert ParseLines(st, lines[..n]) == ParseLine(mid, lines[n - 1]);
      var known := Columns(st.schema, st.inTable);
      assert mid == st.(schema := st.schema[st.inTable := known + Recorded(fields[..n - 1])]);
      assert Columns(mid.schema, st.inTable) == known + Recorded(fields[..n - 1]);
      var gain := if IsDeclaredColumn(ToLower(f.column)) then {ToLower(f.column)} else {};
      assert Recorded(fields[..n]) == Recorded(fields[..n - 1]) + gain;
      var all := known + Recorded(fields[..n]);
      assert all == known + Recorded(fields[..n - 1]) + gain;
      assert mid.schema[st.inTable := all] == st.schema[st.inTable := all];
      if gain == {} {
        assert all == known + Recorded(fields[..n - 1]);
        assert ParseLine(mid, lines[n - 1]) == mid;
      } else {
        assert ParseLine(mid, lines[n - 1]).schema == AddColumnTo(mid.schema, st.inTable, ToLower(f.column));
      }
    }
  }

  lemma {:induction false} ParseLinesConcat(st: Scan, a: seq<string>, b: seq<string>)
    requires st.Valid()
    ensures ParseLines(st, a + b) == ParseLines(ParseLines(st, a), b)
    decreases |a|
  {
    hide ParseLine;
    if a == [] {
      assert a + b == b;
    } else {
      assert (a + b)[1..] == a[1..] + b;
      ParseLinesConcat(ParseLine(st, a[0]), a[1..], b);
    }
  }

  lemma ParseLinesOne(st: Scan, line: string)
    requires st.Valid()
    ensures ParseLines(st, [line]) == ParseLine(st, line)
  {
    hide ParseLine;
    assert [line][1..] == [];
  }

  lemma ParseLinesSnoc(st: Scan, a: seq<string>, line: string)
    requires st.Valid()
    ensures ParseLines(st, a + [line]) == ParseLine(ParseLines(st, a), line)
  {
    hide ParseLine;
    ParseLinesConcat(st, a, [line]);
    ParseLinesOne(ParseLines(st, a), line);
  }

  // ---------- ALTER TABLE ... ADD COLUMN ----------

  lemma EatWordAt(word: string, rest: string)
    requires forall i :: 0 <= i < |word| ==> !IsLowerLetter(word[i])
    ensures EatWord(word + rest, word) == Some(rest)
  {
    assert (word + rest)[..|word|] == word && (word + rest)[|word|..] == rest;
    assert ToUpper(word) == word;
  }

  lemma EatSpaceAt(rest: string)
    requires rest != "" && !IsReSpace(rest[0])
    ensures EatSpaces(" " + rest) == Some(rest)
  {
    assert (" " + rest)[1..] == rest;
    assert SkipSpaces(" " + rest) == SkipSpaces(rest) == rest;
  }

  lemma EatNameAt(name: string, rest: string, dots: bool)
    requires IsIdent(name)
    requires rest != "" && !IsWordChar(rest[0]) && rest[0] != '.'
    ensures EatQuote(name + rest) == name + rest
    ensures EatName(name + rest, dots) == Some((name, rest))
  {
    var s := name + rest;
    assert s[0] == name[0];
    assert forall i :: 0 <= i < |name| ==> s[i] == name[i];
    assert s[|name|] == rest[0];
    assert NameLength(s, dots) == |name|;
    assert s[..|name|] == name && s[|name|..] == rest;
  }

  // What both patterns read of a statement before its verb, and of a column after it
  lemma MatchVerb(table: string, verb: string, column: string, rest: string)
    requires IsIdent(table) && IsIdent(column) && (verb == "ADD" || verb == "DROP")
    requires rest != "" && !IsWordChar(rest[0]) && rest[0] != '.'
    ensures var line := "ALTER TABLE " + table + " " + verb + " COLUMN " + column + rest;
      MatchAlter(line, verb) == Some((table, column)) && (verb == "DROP" ==> MatchAlter(line, "ADD") == None)
  {
    hide EatWord, EatSpaces, EatName, EatQuote;
    var s7 := "COLUMN" + (" " + (column + rest));
    var s6 := " " + s7;
    var s5 := verb + s6;
    var afterTable := " " + s5;
    var s4 := table + afterTable;
    var s3 := " " + s4;
    var s2 := "TABLE" + s3;
    var s1 := " " + s2;
    assert "ALTER TABLE " + table + " " + verb + " COLUMN " + column + rest == "ALTER" + s1;
    EatWordAt("ALTER", s1);
    EatSpaceAt(s2);
    EatWordAt("TABLE", s3);
    EatSpaceAt(s4);
    EatNameAt(table, afterTable, true);
    assert EatQuote(afterTable) == afterTable by { NoQuote(afterTable); }
    EatSpaceAt(s5);
    EatWordAt(verb, s6);
    if verb == "DROP" {
      OtherVerb(s6);
    }
    EatSpaceAt(s7);
    EatWordAt("COLUMN", " " + (column + rest));
    EatSpaceAt(column + rest);
    EatNameAt(column, rest, false);
  }

  lemma OtherVerb(rest: string)
    ensures EatWord("DROP" + rest, "ADD") == None
  {
    var s := "DROP" + rest;
    assert ToUpper(s[..3])[0] == 'D';
  }

  lemma NoQuote(s: string)
    requires s != "" && s[0] != '\"'
    ensures EatQuote(s) == s
  {
  }

  lemma AddColumnLine(schema: Schema, table: string, f: MigField, pg: bool)
    requires IsIdent(table) && IsIdent(f.column)
    ensures ParseLines(Scan(schema, "", false), BlockLines(Stmt(AddColumn(table, f)), pg))
         == Scan(Effect(schema, Stmt(AddColumn(table, f))), "", false)
  {
    hide SqlType, AlterConstraints, TrimSpace, MatchAlter, ParseLine, IsDownLine;
    var st := Scan(schema, "", false);
    var rest := " " + SqlType(f, pg) + AlterConstraints(f, pg) + ";";
    var line := "ALTER TABLE " + table + " ADD COLUMN " + f.column + rest;
    var body := "ALTER TABLE " + table + " ADD COLUMN " + f.column + " " + SqlType(f, pg) + AlterConstraints(f, pg);
    OneLineBlock(AddColumn(table, f), body, pg);
    assert body + ";" == line;
    ParseLinesOne(st, line);
    assert TrimSpace(line) == line by { Untrimmed(line); }
    assert line == "ALTER TABLE " + table + " " + "ADD" + " COLUMN " + f.column + rest by {
      assert " ADD COLUMN " == " " + "ADD" + " COLUMN ";
    }
    MatchVerb(table, "ADD", f.column, rest);
    AlterLineRead(st, line);
  }

  // The advised line, once uncommented: the reader forgets the column, and nothing else.
  lemma DropLineRead(schema: Schema, table: string, column: string)
    requires IsIdent(table) && IsIdent(column)
    ensures ParseLine(Scan(schema, "", false), SuggestionText(table, column))
         == Scan(if ToLower(table) in schema
                 then schema[ToLower(table) := schema[ToLower(table)] - {ToLower(column)}] else schema, "", false)
  {
    hide TrimSpace, MatchAlter, ParseLine, ToLower;
    var st, line := Scan(schema, "", false), SuggestionText(table, column);
    assert line[|line| - 1] == ';' && line[0] == 'A';
    assert TrimSpace(line) == line by { Untrimmed(line); }
    assert line == "ALTER TABLE " + table + " " + "DROP" + " COLUMN " + column + ";" by {
      assert " DROP COLUMN " == " " + "DROP" + " COLUMN ";
    }
    MatchVerb(table, "DROP", column, ";");
    AlterLineRead(st, line);
  }

  lemma Untrimmed(s: string)
    requires s != "" && !IsSpace(s[0]) && !IsSpace(s[|s| - 1])
    ensures TrimSpace(s) == s
  {
  }

  lemma AlterLineRead(st: Scan, line: string)
    requires st.Valid() && st.inTable == "" && !st.stopped
    requires line != "" && line[0] == 'A' && TrimSpace(line) == line
    ensures ParseLine(st, line) == AlterLine(st, line)
  {
    hide TrimSpace, AlterLine, OpenTable;
    assert ToUpper(line)[0] == 'A';
  }

  // ---------- blocks and scripts ----------

  lemma CreateTableLines(schema: Schema, table: string, fields: seq<MigField>, pg: bool)
    requires IsIdent(table) && forall f :: f in fields ==> IsIdent(f.column)
    ensures ParseLines(Scan(schema, "", false), BlockLines(Stmt(CreateTable(table, fields)), pg))
         == Scan(Effect(schema, Stmt(CreateTable(table, fields))), "", false)
  {
    hide ParseLine, ColumnLines, Recorded;
    var st := Scan(schema, "", false);
    var columns := ColumnLines(fields, pg);
    TableLines(MigModel("", table, fields), pg);
    var lower := ToLower(table);
    var inside := Scan(schema[lower := Columns(schema, lower)], lower, false);
    TableHeadLine(schema, table);
    assert lower != "";
    ParseLinesOne(st, TableHead(table));
    ColumnLinesRecorded(inside, fields, |fields|, pg);
    assert columns[..|fields|] == columns by { ColumnCount(fields, pg); }
    assert fields[..|fields|] == fields;
    ParseLinesConcat(st, [TableHead(table)], columns);
    var filled := ParseLines(inside, columns);
    ParseLinesSnoc(st, [TableHead(table)] + columns, ");");
    ClosingLine(filled);
    var all := Columns(schema, lower) + Recorded(fields);
    assert inside.schema[lower := all] == schema[lower := all];
  }

  lemma ColumnCount(fields: seq<MigField>, pg: bool)
    ensures |ColumnLines(fields, pg)| == |fields|
  {
  }

  lemma ClosingLine(st: Scan)
    requires st.Valid() && st.inTable != "" && !st.stopped
    ensures ParseLine(st, ");") == st.(inTable := "")
  {
    Untrimmed(");");
  }

  lemma OneInertLine(st: Scan, head: string, tail: string)
    requires st.Valid() && st.inTable == "" && !st.stopped
    requires head != "" && !IsSpace(head[0]) && !IsSpace(head[|head| - 1]) && NotCreateTable(head)
    ensures ParseLines(st, [head + tail]) == st
  {
    hide ParseLine, NotCreateTable;
    assert head + tail == "" + head + tail;
    InertLine(st, "", head, tail);
    ParseLinesOne(st, head + tail);
  }

  lemma OneLineBlock(d: Ddl, body: string, pg: bool)
    requires DdlLines(d, pg) == [body]
    ensures BlockLines(Stmt(d), pg) == [body + ";"]
  {
    assert [body][..0] == [];
  }

  lemma CreateIndexInert(st: Scan, d: Ddl, pg: bool)
    requires st.Valid() && st.inTable == "" && !st.stopped
    requires d.CreateIndex? || d.CreateGinIndex? || d.CreateFulltextIndex? || d.CreateFtsTable?
    ensures ParseLines(st, BlockLines(Stmt(d), pg)) == st
  {
    hide ParseLine, ParseLines;
    hide DdlLines;
    var body := IndexHead(d, pg);
    OneLineBlock(d, body, pg);
    var head, tail := "CREATE " + [CreateLetter(d)], body[8..] + ";";
    assert body + ";" == head + tail;
    assert UpperChar(head[7]) != CreatePrefixes[1][7];
    OneInertLine(st, head, tail);
  }

  lemma IndexHead(d: Ddl, pg: bool) returns (body: string)
    requires d.CreateIndex? || d.CreateGinIndex? || d.CreateFulltextIndex? || d.CreateFtsTable?
    ensures DdlLines(d, pg) == [body] && |body| >= 8
    ensures body[..8] == "CREATE " + [CreateLetter(d)]
  {
    hide TriggerHead, TriggerInsert, TriggerDelete, ColumnLines, TableHead, SqlType, AlterConstraints,
         IndexOn, GinOn, FtsUsing;
    body := DdlLines(d, pg)[0];
  }

  // The letter that tells the statement from CREATE TABLE
  function CreateLetter(d: Ddl): char {
    if d.CreateFulltextIndex? then 'F' else if d.CreateFtsTable? then 'V'
    else if d.CreateIndex? && d.unique then 'U' else 'I'
  }

  lemma TriggerInert(st: Scan, d: Ddl, pg: bool)
    requires st.Valid() && st.inTable == "" && !st.stopped && d.CreateFtsTrigger?
    ensures ParseLines(st, BlockLines(Stmt(d), pg)) == st
  {
    hide ParseLine, ParseLines, TriggerHead, TriggerDelete, TriggerInsert, BlockLines;
    var del := if d.event.AfterInsert? then [] else [TriggerDelete(d.shadow, d.column, d.pk)];
    var ins := if d.event.AfterDelete? then [] else [TriggerInsert(d.shadow, d.column, d.pk)];
    var head := [TriggerHead(d.event, d.shadow, d.table)];
    TriggerBlock(d, pg, head, del, ins);
    TriggerSteps(d);
    ParseLinesConcat(st, head + del + ins, ["END;"]);
    ParseLinesConcat(st, head + del, ins);
    ParseLinesConcat(st, head, del);
    TriggerHeadInert(st, d);
    TriggerStepInert(st, TriggerDelete(d.shadow, d.column, d.pk));
    TriggerStepInert(st, TriggerInsert(d.shadow, d.column, d.pk));
    assert ParseLines(st, []) == st by { NoLines(st); }
    EndInert(st);
  }

  lemma TriggerSteps(d: Ddl)
    requires d.CreateFtsTrigger?
    ensures "  INSERT" <= TriggerInsert(d.shadow, d.column, d.pk) && "  INSERT" <= TriggerDelete(d.shadow, d.column, d.pk)
  {
  }

  lemma EndInert(st: Scan)
    requires st.Valid() && st.inTable == "" && !st.stopped
    ensures ParseLines(st, ["END;"]) == st
  {
    hide ParseLine, ParseLines;
    assert UpperChar("END;"[0]) != CreatePrefixes[1][0];
    assert "END;" == "END;" + "";
    OneInertLine(st, "END;", "");
  }

  lemma TriggerBlock(d: Ddl, pg: bool, head: seq<string>, del: seq<string>, ins: seq<string>)
    requires d.CreateFtsTrigger?
    requires head == [TriggerHead(d.event, d.shadow, d.table)]
    requires del == if d.event.AfterInsert? then [] else [TriggerDelete(d.shadow, d.column, d.pk)]
    requires ins == if d.event.AfterDelete? then [] else [TriggerInsert(d.shadow, d.column, d.pk)]
    ensures BlockLines(Stmt(d), pg) == head + del + ins + ["END;"]
  {
    hide TriggerHead, TriggerDelete, TriggerInsert;
    var lines := head + del + ins + ["END"];
    assert DdlLines(d, pg) == lines;
    assert lines[..|lines| - 1] == head + del + ins && lines[|lines| - 1] == "END";
    assert "END" + ";" == "END;";
  }

  lemma NoLines(st: Scan)
    requires st.Valid()
    ensures ParseLines(st, []) == st
  {
  }

  lemma TriggerHeadInert(st: Scan, d: Ddl)
    requires st.Valid() && st.inTable == "" && !st.stopped && d.CreateFtsTrigger?
    ensures ParseLines(st, [TriggerHead(d.event, d.shadow, d.table)]) == st
  {
    hide ParseLine, ParseLines, TriggerName;
    var line := TriggerHead(d.event, d.shadow, d.table);
    var head := "CREATE TR";
    assert line[..9] == head;
    assert UpperChar(head[8]) != CreatePrefixes[1][8];
    assert line == head + line[9..];
    OneInertLine(st, head, line[9..]);
  }

  lemma TriggerStepInert(st: Scan, line: string)
    requires st.Valid() && st.inTable == "" && !st.stopped
    requires "  INSERT" <= line
    ensures ParseLines(st, [line]) == st
  {
    hide ParseLine, ParseLines;
    var head := "INSERT";
    assert line == "  " + head + line[8..];
    assert UpperChar(head[0]) != CreatePrefixes[1][0];
    InertLine(st, "  ", head, line[8..]);
    ParseLinesOne(st, line);
  }

  lemma BlockRead(schema: Schema, b: Block, pg: bool)
    requires TidyUpBlock(b)
    ensures ParseLines(Scan(schema, "", false), BlockLines(b, pg)) == Scan(Effect(schema, b), "", false)
  {
    hide ParseLine, ParseLines, DdlLines;
    var st := Scan(schema, "", false);
    match b
    case Blank =>
      ParseLinesOne(st, "");
      BlankInert(st);
    case Note(text) =>
      ParseLinesOne(st, text);
      NoteInert(st, text);
    case Stmt(d) =>
      match d {
        case CreateTable(table, fields) => CreateTableLines(schema, table, fields, pg);
        case AddColumn(table, f) => AddColumnLine(schema, table, f, pg);
        case CreateFtsTrigger(_, _, _, _, _) => TriggerInert(st, d, pg);
        case _ => CreateIndexInert(st, d, pg);
      }
  }

  lemma BlankInert(st: Scan)
    requires st.Valid()
    ensures ParseLine(st, "") == st
  {
  }

  // Reading a printed script has the effect of its statements, one after the other.
  lemma {:induction false} ScriptRead(schema: Schema, blocks: seq<Block>, pg: bool)
    requires forall b :: b in blocks ==> TidyUpBlock(b)
    ensures ParseLines(Scan(schema, "", false), Lines(blocks, pg)) == Scan(Effects(schema, blocks), "", false)
    decreases |blocks|
  {
    hide BlockLines, Effect, TidyUpBlock;
    var st := Scan(schema, "", false);
    if blocks != [] {
      BlockRead(schema, blocks[0], pg);
      ParseLinesConcat(st, BlockLines(blocks[0], pg), Lines(blocks[1..], pg));
      ScriptRead(Effect(schema, blocks[0]), blocks[1..], pg);
    }
  }
}
