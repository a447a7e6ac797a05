/** The schema reader of `makemigrations`: it rebuilds table -> columns from the text of the
    migration files, line by line, ignoring everything after a file's "-- down" line. */
module MigrationSchema {
  import opened GoStrings
  import opened Patterns

  type Schema = map<string, set<string>>

  function Columns(schema: Schema, table: string): set<string> {
    if table in schema then schema[table] else {}
  }

  function AddColumnTo(schema: Schema, table: string, column: string): Schema {
    schema[table := Columns(schema, table) + {column}]
  }

  // ---------- the two ALTER TABLE patterns ----------

  // (?:COLUMN\s+)?"?([a-zA-Z_]\w*): the optional keyword is preferred when the name still matches after it
  function MatchColumnName(s: string): Option<string> {
    var keyword := MatchAfterKeyword(s);
    if keyword.Some? then keyword
    else
      var name :- EatName(EatQuote(s), false);
      Some(name.0)
  }

  function MatchAfterKeyword(s: string): Option<string> {
    var afterWord :- EatWord(s, "COLUMN");
    var afterSpaces :- EatSpaces(afterWord);
    var name :- EatName(EatQuote(afterSpaces), false);
    Some(name.0)
  }

  // reAlterAdd and reAlterDrop: the table and the column of ALTER TABLE t ADD|DROP [COLUMN] c
  function MatchAlter(s: string, verb: string): Option<(string, string)> {
    var s1 :- EatWord(s, "ALTER");
    var s2 :- EatSpaces(s1);
    var s3 :- EatWord(s2, "TABLE");
    var s4 :- EatSpaces(s3);
    var table :- EatName(EatQuote(s4), true);
    var s5 :- EatSpaces(EatQuote(table.1));
    var s6 :- EatWord(s5, verb);
    var s7 :- EatSpaces(s6);
    var column :- MatchColumnName(s7);
    Some((table.0, column))
  }

  // ---------- one line ----------

  datatype Scan = Scan(schema: Schema, inTable: string, stopped: bool) {
    ghost predicate Valid() { inTable != "" ==> inTable in schema }
  }

  const ConstraintKeywords := {"PRIMARY", "FOREIGN", "UNIQUE", "CONSTRAINT", "CHECK", "KEY", "INDEX"}

  const CreatePrefixes := ["CREATE TABLE IF NOT EXISTS ", "CREATE TABLE "]

  predicate IsTableNameEnd(c: char) { c == ' ' || c == '\t' || c == '(' || c == '\"' || c == '\'' }

  predicate IsColumnQuote(c: char) { c == '\"' || c == ',' }

  function ColumnOfLine(trim: string): string {
    var fields := Fields(trim);
    if fields == [] then "" else ToLower(TrimFunc(fields[0], IsColumnQuote))
  }

  predicate IsDeclaredColumn(col: string) { col != "" && ToUpper(col) !in ConstraintKeywords }

  function TableLine(st: Scan, trim: string): (out: Scan)
    requires st.Valid() && st.inTable != ""
    ensures out.Valid()
  {
    if HasPrefix(trim, ")") then st.(inTable := "")
    else
      var col := ColumnOfLine(trim);
      if IsDeclaredColumn(col) then st.(schema := AddColumnTo(st.schema, st.inTable, col)) else st
  }

  function OpenTable(st: Scan, rest: string): (out: Scan)
    requires st.Valid()
    ensures out.Valid()
  {
    var fields := FieldsFunc(rest, IsTableNameEnd);
    if fields == [] then st
    else
      var table := ToLower(fields[0]);
      st.(schema := st.schema[table := Columns(st.schema, table)], inTable := table)
  }

  function AlterLine(st: Scan, trim: string): (out: Scan)
    requires st.Valid()
    ensures out.Valid()
  {
    var add := MatchAlter(trim, "ADD");
    if add.Some? then
      st.(schema := AddColumnTo(st.schema, ToLower(add.value.0), ToLower(add.value.1)))
    else
      var drop := MatchAlter(trim, "DROP");
      if drop.Some? && ToLower(drop.value.0) in st.schema then
        var table := ToLower(drop.value.0);
        st.(schema := st.schema[table := st.schema[table] - {ToLower(drop.value.1)}])
      else st
  }

  function OuterLine(st: Scan, trim: string): (out: Scan)
    requires st.Valid()
    ensures out.Valid()
  {
    if HasPrefix(ToUpper(trim), CreatePrefixes[0]) then OpenTable(st, trim[|CreatePrefixes[0]|..])
    else if HasPrefix(ToUpper(trim), CreatePrefixes[1]) then OpenTable(st, trim[|CreatePrefixes[1]|..])
    else AlterLine(st, trim)
  }

  predicate IsDownLine(trim: string) { EqualFold(trim, "-- down") }

  function ParseLine(st: Scan, line: string): (out: Scan)
    requires st.Valid()
    ensures out.Valid()
  {
    var trim := TrimSpace(line);
    if st.stopped || trim == "" then st
    else if HasPrefix(trim, "--") then (if IsDownLine(trim) then st.(stopped := true) else st)
    else if st.inTable != "" then TableLine(st, trim)
    else OuterLine(st, trim)
  }

  function ParseLines(st: Scan, lines: seq<string>): (out: Scan)
    requires st.Valid()
    ensures out.Valid()
    decreases |lines|
  {
    if lines == [] then st else ParseLines(ParseLine(st, lines[0]), lines[1..])
  }

  function ParseFile(schema: Schema, content: string): Schema {
    ParseLines(Scan(schema, "", false), Split(content, '\n')).schema
  }

  // The files in the order they are applied
  function ParseFiles(contents: seq<string>): Schema {
    if contents == [] then map[]
    else ParseFile(ParseFiles(contents[..|contents| - 1]), contents[|contents| - 1])
  }

  // One turn of migSchemaInDir's loop over the lines of a file; `stop` is its break
  method ReadLine(schema: Schema, inTable: string, line: string)
    returns (schema': Schema, inTable': string, stop: bool)
    requires Scan(schema, inTable, false).Valid()
    ensures Scan(schema', inTable', stop) == ParseLine(Scan(schema, inTable, false), line)
  {
    hide TrimSpace, Fields, FieldsFunc, MatchAlter, ToLower, IsDownLine, TrimFunc;
    schema', inTable', stop := schema, inTable, false;
    var trim := TrimSpace(line);
    if trim == "" {
      return;
    }
    if HasPrefix(trim, "--") {
      stop := IsDownLine(trim);
      return;
    }
    if inTable != "" {
      if HasPrefix(trim, ")") {
        inTable' := "";
        return;
      }
      var fields := Fields(trim);
      if fields == [] {
        return;
      }
      var col := ToLower(TrimFunc(fields[0], IsColumnQuote));
      if col == "" || ToUpper(col) in ConstraintKeywords {
        return;
      }
      schema' := schema[inTable := schema[inTable] + {col}];
      return;
    }
    var upper := ToUpper(trim);
    for i := 0 to |CreatePrefixes|
      invariant schema' == schema && inTable' == inTable && !stop
      invariant forall k :: 0 <= k < i ==> !HasPrefix(upper, CreatePrefixes[k])
    {
      if HasPrefix(upper, CreatePrefixes[i]) {
        var fields := FieldsFunc(trim[|CreatePrefixes[i]|..], IsTableNameEnd);
        if |fields| > 0 {
          inTable' := ToLower(fields[0]);
          if inTable' !in schema {
            schema' := schema[inTable' := {}];
          }
        }
        return;
      }
    }
    var add := MatchAlter(trim, "ADD");
    if add.Some? {
      var table, column := ToLower(add.value.0), ToLower(add.value.1);
      schema' := schema[table := Columns(schema, table) + {column}];
    } else {
      var drop := MatchAlter(trim, "DROP");
      if drop.Some? {
        var table, column := ToLower(drop.value.0), ToLower(drop.value.1);
        if table in schema {
          schema' := schema[table := schema[table] - {column}];
        }
      }
    }
  }

  // migSchemaInDir, on the contents of the sorted files
  method SchemaInDir(contents: seq<string>) returns (schema: Schema)
    ensures schema == ParseFiles(contents)
  {
    hide ParseLine;
    schema := map[];
    for i := 0 to |contents|
      invariant schema == ParseFiles(contents[..i])
    {
      assert contents[..i + 1][..i] == contents[..i];
      ghost var target := ParseFile(schema, contents[i]);
      var inTable := "";
      var lines := Split(contents[i], '\n');
      assert lines[0..] == lines;
      for j := 0 to |lines|
        invariant Scan(schema, inTable, false).Valid()
        invariant ParseLines(Scan(schema, inTable, false), lines[j..]).schema == target
      {
        assert lines[j..][1..] == lines[j + 1..];
        var stop;
        schema, inTable, stop := ReadLine(schema, inTable, lines[j]);
        if stop {
          StoppedStays(Scan(schema, inTable, true), lines[j + 1..]);
          break;
        }
      }
    }
    assert contents[..|contents|] == contents;
  }

  lemma {:induction false} StoppedStays(st: Scan, lines: seq<string>)
    requires st.Valid() && st.stopped
    ensures ParseLines(st, lines) == st
  {
    if lines != [] {
      StoppedStays(st, lines[1..]);
    }
  }
}
