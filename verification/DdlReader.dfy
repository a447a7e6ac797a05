/** The printed DDL as a database reads it: statements taken apart by the grammar of DDL alone, and what they do to
    a schema. Main results: every statement of a migration reads back as the table, column, index, trigger or drop it
    stands for, column types and constraints included; and running what is read is running the statements. */
module DdlReader {
  import opened GoStrings
  import opened Patterns
  import opened MigrationSql
  import opened MigrationExecution
  import opened MigrationReversal

  // ---------- words and names ----------

  function Skip(s: string, word: string): (rest: Option<string>)
    ensures rest.Some? ==> |rest.value| == |s| - |word|
  {
    if word <= s then Some(s[|word|..]) else None
  }

  function ReadName(s: string): (r: Option<(string, string)>)
    ensures r.Some? ==> |r.value.1| < |s|
  {
    EatName(s, false)
  }

  lemma Skips(word: string, rest: string)
    ensures Skip(word + rest, word) == Some(rest)
  {
  }

  lemma SkipFails(s: string, word: string, i: nat)
    requires i < |word| && (i >= |s| || s[i] != word[i])
    ensures Skip(s, word) == None
  {
  }

  // What ends a name
  predicate Stops(rest: string) { rest == "" || !IsWordChar(rest[0]) }

  lemma NameReads(name: string, rest: string)
    requires IsIdent(name) && Stops(rest)
    ensures ReadName(name + rest) == Some((name, rest))
  {
    NameCounts(name, rest);
    var s := name + rest;
    assert s[..|name|] == name && s[|name|..] == rest;
  }

  lemma {:induction false} NameCounts(name: string, rest: string)
    requires (forall i :: 0 <= i < |name| ==> IsWordChar(name[i])) && Stops(rest)
    ensures NameLength(name + rest, false) == |name|
  {
    if name == "" {
      assert name + rest == rest;
    } else {
      assert (name + rest)[1..] == name[1..] + rest;
      NameCounts(name[1..], rest);
    }
  }

  // ---------- column types ----------

  datatype Kind =
    | BigSerial | Integer | BigInt | Decimal | Boolean | TimestampTz | DateTime | VarChar(size: nat) | Text

  function CapitalsLength(s: string): (n: nat)
    ensures n <= |s|
  {
    if s != "" && IsUpperLetter(s[0]) then 1 + CapitalsLength(s[1..]) else 0
  }

  function DigitsCount(s: string): (n: nat)
    ensures n <= |s|
  {
    if s != "" && IsDigit(s[0]) then 1 + DigitsCount(s[1..]) else 0
  }

  function Numeral(s: string): nat {
    if s == "" || !IsDigit(s[|s| - 1]) then 0
    else 10 * Numeral(s[..|s| - 1]) + (s[|s| - 1] as int - '0' as int)
  }

  function ReadSize(s: string): Option<(Kind, string)> {
    var open :- Skip(s, "(");
    var d := DigitsCount(open);
    var end :- Skip(open[d..], ")");
    Some((VarChar(Numeral(open[..d])), end))
  }

  function ReadKind(s: string): Option<(Kind, string)> {
    var n := CapitalsLength(s);
    var word, rest := s[..n], s[n..];
    if word == "BIGSERIAL" then Some((BigSerial, rest))
    else if word == "INTEGER" then Some((Integer, rest))
    else if word == "BIGINT" then Some((BigInt, rest))
    else if word == "DECIMAL" then Some((Decimal, rest))
    else if word == "BOOLEAN" then Some((Boolean, rest))
    else if word == "TIMESTAMPTZ" then Some((TimestampTz, rest))
    else if word == "DATETIME" then Some((DateTime, rest))
    else if word == "TEXT" then Some((Text, rest))
    else if word == "VARCHAR" then ReadSize(rest)
    else None
  }

  // The type a field asks for, by its Go type, its size and the driver
  function KindOf(f: MigField, pg: bool): Kind {
    if f.isPK then if pg then BigSerial else Integer
    else match f.goType
      case "int" => Integer
      case "int32" => Integer
      case "int64" => if pg then BigInt else Integer
      case "float32" => Decimal
      case "float64" => Decimal
      case "bool" => Boolean
      case "time.Time" => if pg then TimestampTz else DateTime
      case _ => if f.size > 0 then VarChar(f.size) else Text
  }

  lemma {:induction false} CapitalsThen(word: string, rest: string)
    requires (forall i :: 0 <= i < |word| ==> IsUpperLetter(word[i])) && (rest != "" ==> !IsUpperLetter(rest[0]))
    ensures CapitalsLength(word + rest) == |word|
  {
    if word == "" {
      assert word + rest == rest;
    } else {
      assert (word + rest)[1..] == word[1..] + rest;
      CapitalsThen(word[1..], rest);
    }
  }

  // After a type
  predicate AfterKind(rest: string) { rest != "" ==> rest[0] == ' ' || rest[0] == ',' || rest[0] == '\n' }

  lemma WordReads(word: string, rest: string)
    requires word in {"BIGSERIAL", "INTEGER", "BIGINT", "DECIMAL", "BOOLEAN", "TIMESTAMPTZ", "DATETIME", "TEXT", "VARCHAR"}
    requires rest != "" ==> !IsUpperLetter(rest[0])
    ensures CapitalsLength(word + rest) == |word| && (word + rest)[..|word|] == word && (word + rest)[|word|..] == rest
  {
    CapitalsThen(word, rest);
  }

  lemma {:induction false} ItoaReads(n: nat, rest: string)
    requires rest != "" ==> !IsDigit(rest[0])
    ensures DigitsCount(Itoa(n) + rest) == |Itoa(n)| && Numeral(Itoa(n)) == n
  {
    ItoaDigits(n);
    DigitsThen(Itoa(n), rest);
    NumeralOfItoa(n);
  }

  lemma {:induction false} ItoaDigits(n: nat)
    ensures forall i :: 0 <= i < |Itoa(n)| ==> IsDigit(Itoa(n)[i])
  {
    if n >= 10 {
      ItoaDigits(n / 10);
    }
  }

  lemma {:induction false} DigitsThen(digits: string, rest: string)
    requires (forall i :: 0 <= i < |digits| ==> IsDigit(digits[i])) && (rest != "" ==> !IsDigit(rest[0]))
    ensures DigitsCount(digits + rest) == |digits|
  {
    if digits == "" {
      assert digits + rest == rest;
    } else {
      assert (digits + rest)[1..] == digits[1..] + rest;
      DigitsThen(digits[1..], rest);
    }
  }

  lemma {:induction false} NumeralOfItoa(n: nat)
    ensures Numeral(Itoa(n)) == n
  {
    var s := Itoa(n);
    if n >= 10 {
      NumeralOfItoa(n / 10);
      assert s[..|s| - 1] == Itoa(n / 10);
    } else {
      assert s[..0] == "" && Numeral("") == 0;
    }
  }

  lemma SizeReads(n: nat, rest: string)
    ensures ReadSize("(" + Itoa(n) + ")" + rest) == Some((VarChar(n), rest))
  {
    hide Itoa, Numeral, DigitsCount;
    var open := Itoa(n) + (")" + rest);
    assert "(" + Itoa(n) + ")" + rest == "(" + open;
    Skips("(", open);
    ItoaReads(n, ")" + rest);
    assert open[|Itoa(n)|..] == ")" + rest && open[..|Itoa(n)|] == Itoa(n);
    Skips(")", rest);
  }

  lemma KindReads(f: MigField, pg: bool, rest: string)
    requires AfterKind(rest)
    ensures ReadKind(SqlType(f, pg) + rest) == Some((KindOf(f, pg), rest))
  {
    hide ReadSize, CapitalsLength, Itoa;
    if KindOf(f, pg).VarChar? {
      var tail := "(" + Itoa(f.size) + ")" + rest;
      assert SqlType(f, pg) == "VARCHAR(" + Itoa(f.size) + ")";
      assert "VARCHAR(" == "VARCHAR" + "(";
      assert SqlType(f, pg) + rest == "VARCHAR" + tail;
      WordReads("VARCHAR", tail);
      SizeReads(f.size, rest);
    } else {
      WordReads(SqlType(f, pg), rest);
    }
  }

  // ---------- column definitions ----------

  // `default` is the literal printed, `references` the table and column referred to.
  datatype ColumnDef = ColumnDef(
    name: string, kind: Kind, primaryKey: bool, notNull: bool, default: Option<string>, unique: bool,
    references: Option<(string, string)>)

  // A literal ends at a blank, a comma or the end of the line.
  function LiteralLength(s: string): (n: nat)
    ensures n <= |s|
  {
    if s == "" || s[0] == ' ' || s[0] == ',' || s[0] == '\n' then 0 else 1 + LiteralLength(s[1..])
  }

  function ReadTarget(s: string): (r: Option<((string, string), string)>)
    ensures r.Some? ==> |r.value.1| < |s|
  {
    var table :- ReadName(s);
    var open :- Skip(table.1, "(");
    var column :- ReadName(open);
    var end :- Skip(column.1, ")");
    Some(((table.0, column.0), end))
  }

  // Constraints in any order, and what follows them
  function ReadConstraints(def: ColumnDef, s: string): (r: (ColumnDef, string))
    ensures |r.1| <= |s|
    decreases |s|
  {
    if Skip(s, " PRIMARY KEY").Some? then ReadConstraints(def.(primaryKey := true), Skip(s, " PRIMARY KEY").value)
    else if Skip(s, " NOT NULL").Some? then ReadConstraints(def.(notNull := true), Skip(s, " NOT NULL").value)
    else if Skip(s, " UNIQUE").Some? then ReadConstraints(def.(unique := true), Skip(s, " UNIQUE").value)
    else if Skip(s, " DEFAULT ").Some? then
      var literal := Skip(s, " DEFAULT ").value;
      var n := LiteralLength(literal);
      ReadConstraints(def.(default := Some(literal[..n])), literal[n..])
    else if Skip(s, " REFERENCES ").Some? && ReadTarget(Skip(s, " REFERENCES ").value).Some? then
      var target := ReadTarget(Skip(s, " REFERENCES ").value).value;
      ReadConstraints(def.(references := Some(target.0)), target.1)
    else (def, s)
  }

  function ReadColumnDef(s: string): (r: Option<(ColumnDef, string)>)
    ensures r.Some? ==> |r.value.1| < |s|
  {
    var name :- ReadName(s);
    var kind :- ReadKind(SkipSpaces(name.1));
    if |kind.1| > |name.1| then None
    else Some(ReadConstraints(ColumnDef(name.0, kind.0, false, false, None, false, None), kind.1))
  }

  // What a column's definition ends with
  predicate EndsColumn(rest: string) { rest == "" || rest[0] == ',' || rest[0] == '\n' }

  // The default of a NOT NULL column, by its Go type and the driver
  function DefaultOf(goType: string, pg: bool): string {
    match goType
    case "bool" => "FALSE"
    case "int" => "0"
    case "int32" => "0"
    case "int64" => "0"
    case "float32" => "0"
    case "float64" => "0"
    case "time.Time" => if pg then "NOW()" else "CURRENT_TIMESTAMP"
    case _ => "''"
  }

  // What a field of a new table asks for: its primary key, or NOT NULL with a default, UNIQUE and a reference
  function DefOf(f: MigField, pg: bool): ColumnDef {
    var plain := !f.isPK;
    ColumnDef(f.column, KindOf(f, pg), f.isPK, plain && f.notNull,
              if plain && f.notNull then Some(DefaultOf(f.goType, pg)) else None, plain && f.unique,
              if plain && f.fk != "" then Some((f.fk, "id")) else None)
  }

  // A column added later: UNIQUE is a separate index.
  function AddedDefOf(f: MigField, pg: bool): ColumnDef {
    ColumnDef(f.column, KindOf(f, pg), false, f.notNull, if f.notNull then Some(DefaultOf(f.goType, pg)) else None,
              false, if f.fk != "" then Some((f.fk, "id")) else None)
  }

  lemma NothingMore(def: ColumnDef, rest: string)
    requires EndsColumn(rest)
    ensures ReadConstraints(def, rest) == (def, rest)
  {
    SkipFails(rest, " PRIMARY KEY", 0);
    SkipFails(rest, " NOT NULL", 0);
    SkipFails(rest, " UNIQUE", 0);
    SkipFails(rest, " DEFAULT ", 0);
    SkipFails(rest, " REFERENCES ", 0);
  }

  lemma PrimaryKeyReads(def: ColumnDef, rest: string)
    ensures ReadConstraints(def, " PRIMARY KEY" + rest) == ReadConstraints(def.(primaryKey := true), rest)
  {
    Skips(" PRIMARY KEY", rest);
  }

  lemma NotNullReads(def: ColumnDef, rest: string)
    ensures ReadConstraints(def, " NOT NULL" + rest) == ReadConstraints(def.(notNull := true), rest)
  {
    var s := " NOT NULL" + rest;
    assert s[1] == 'N';
    SkipFails(s, " PRIMARY KEY", 1);
    Skips(" NOT NULL", rest);
  }

  lemma UniqueReads(def: ColumnDef, rest: string)
    ensures ReadConstraints(def, " UNIQUE" + rest) == ReadConstraints(def.(unique := true), rest)
  {
    var s := " UNIQUE" + rest;
    assert s[1] == 'U';
    SkipFails(s, " PRIMARY KEY", 1);
    SkipFails(s, " NOT NULL", 1);
    Skips(" UNIQUE", rest);
  }

  lemma {:induction false} LiteralThen(literal: string, rest: string)
    requires forall i :: 0 <= i < |literal| ==> literal[i] != ' ' && literal[i] != ',' && literal[i] != '\n'
    requires rest == "" || rest[0] == ' ' || rest[0] == ',' || rest[0] == '\n'
    ensures LiteralLength(literal + rest) == |literal|
  {
    if literal == "" {
      assert literal + rest == rest;
    } else {
      assert (literal + rest)[1..] == literal[1..] + rest;
      LiteralThen(literal[1..], rest);
    }
  }

  lemma DefaultReads(def: ColumnDef, goType: string, pg: bool, rest: string)
    requires AfterKind(rest)
    ensures ReadConstraints(def, " DEFAULT " + Default(goType, pg) + rest)
         == ReadConstraints(def.(default := Some(DefaultOf(goType, pg))), rest)
  {
    hide LiteralLength;
    var literal := Default(goType, pg);
    DefaultIs(goType, pg);
    var s := " DEFAULT " + (literal + rest);
    assert " DEFAULT " + literal + rest == s;
    assert s[1] == 'D';
    SkipFails(s, " PRIMARY KEY", 1);
    SkipFails(s, " NOT NULL", 1);
    SkipFails(s, " UNIQUE", 1);
    Skips(" DEFAULT ", literal + rest);
    LiteralThen(literal, rest);
    assert (literal + rest)[..|literal|] == literal && (literal + rest)[|literal|..] == rest;
  }

  lemma DefaultIs(goType: string, pg: bool)
    ensures Default(goType, pg) == DefaultOf(goType, pg)
    ensures var d := Default(goType, pg);
      forall i :: 0 <= i < |d| ==> d[i] != ' ' && d[i] != ',' && d[i] != '\n'
  {
  }

  lemma ReferenceReads(def: ColumnDef, table: string, rest: string)
    requires IsIdent(table)
    ensures ReadConstraints(def, " REFERENCES " + table + "(id)" + rest)
         == ReadConstraints(def.(references := Some((table, "id"))), rest)
  {
    hide IsIdent;
    var close := ")" + rest;
    var open := "(" + ("id" + close);
    var s := " REFERENCES " + (table + open);
    assert "(id)" == "(" + "id" + ")";
    assert " REFERENCES " + table + "(id)" + rest == s;
    assert s[1] == 'R';
    SkipFails(s, " PRIMARY KEY", 1);
    SkipFails(s, " NOT NULL", 1);
    SkipFails(s, " UNIQUE", 1);
    SkipFails(s, " DEFAULT ", 1);
    Skips(" REFERENCES ", table + open);
    NameReads(table, open);
    Skips("(", "id" + close);
    assert IsIdent("id") by { IdIsIdent(); }
    NameReads("id", close);
    Skips(")", rest);
  }

  lemma IdIsIdent()
    ensures IsIdent("id")
  {
  }

  // NOT NULL and its default
  lemma NotNullTextReads(def: ColumnDef, f: MigField, pg: bool, rest: string)
    requires AfterKind(rest)
    ensures ReadConstraints(def, NotNullText(f, pg) + rest)
         == ReadConstraints(if f.notNull then def.(notNull := true, default := Some(DefaultOf(f.goType, pg))) else def, rest)
  {
    hide Default, DefaultOf, ReadConstraints;
    if f.notNull {
      var tail := " DEFAULT " + Default(f.goType, pg) + rest;
      assert " NOT NULL DEFAULT " == " NOT NULL" + " DEFAULT ";
      assert NotNullText(f, pg) + rest == " NOT NULL" + tail;
      NotNullReads(def, tail);
      DefaultReads(def.(notNull := true), f.goType, pg, rest);
    } else {
      assert NotNullText(f, pg) + rest == rest;
    }
  }

  lemma ReferenceTextReads(def: ColumnDef, f: MigField, rest: string)
    requires f.fk == "" || IsIdent(f.fk)
    ensures ReadConstraints(def, ReferenceText(f) + rest)
         == ReadConstraints(if f.fk != "" then def.(references := Some((f.fk, "id"))) else def, rest)
  {
    hide ReadConstraints, IsIdent;
    if f.fk != "" {
      ReferenceReads(def, f.fk, rest);
    } else {
      assert ReferenceText(f) + rest == rest;
    }
  }

  lemma UniqueTextReads(def: ColumnDef, unique: bool, rest: string)
    ensures ReadConstraints(def, (if unique then " UNIQUE" else "") + rest)
         == ReadConstraints(if unique then def.(unique := true) else def, rest)
  {
    hide ReadConstraints;
    if unique {
      UniqueReads(def, rest);
    } else {
      assert "" + rest == rest;
    }
  }

  ghost predicate Readable(f: MigField) { IsIdent(f.column) && (f.fk == "" || IsIdent(f.fk)) }

  lemma ConstraintsRead(def: ColumnDef, f: MigField, pg: bool, rest: string)
    requires Readable(f) && EndsColumn(rest)
    requires def == ColumnDef(f.column, KindOf(f, pg), false, false, None, false, None)
    ensures ReadConstraints(def, Constraints(f, pg) + rest) == (DefOf(f, pg), rest)
    ensures AfterKind(Constraints(f, pg) + rest)
  {
    hide ReadConstraints, NotNullText, ReferenceText, DefaultOf, KindOf, IsIdent;
    TextStarts(f, pg, rest);
    if f.isPK {
      PrimaryKeyReads(def, rest);
      NothingMore(def.(primaryKey := true), rest);
    } else {
      var refers := ReferenceText(f) + rest;
      var unique := (if f.unique then " UNIQUE" else "") + refers;
      assert Constraints(f, pg) + rest == NotNullText(f, pg) + unique;
      NotNullTextReads(def, f, pg, unique);
      var d1 := if f.notNull then def.(notNull := true, default := Some(DefaultOf(f.goType, pg))) else def;
      UniqueTextReads(d1, f.unique, refers);
      var d2 := if f.unique then d1.(unique := true) else d1;
      ReferenceTextReads(d2, f, rest);
      NothingMore(if f.fk != "" then d2.(references := Some((f.fk, "id"))) else d2, rest);
    }
  }

  lemma TextStarts(f: MigField, pg: bool, rest: string)
    requires EndsColumn(rest)
    ensures AfterKind(ReferenceText(f) + rest)
    ensures AfterKind((if f.unique then " UNIQUE" else "") + (ReferenceText(f) + rest))
    ensures AfterKind(Constraints(f, pg) + rest) && AfterKind(AlterConstraints(f, pg) + rest)
  {
    hide Default;
    assert f.notNull ==> NotNullText(f, pg)[0] == ' ';
    assert f.fk != "" ==> ReferenceText(f)[0] == ' ';
  }

  lemma AlterConstraintsRead(def: ColumnDef, f: MigField, pg: bool, rest: string)
    requires Readable(f) && EndsColumn(rest)
    requires def == ColumnDef(f.column, KindOf(f, pg), false, false, None, false, None)
    ensures ReadConstraints(def, AlterConstraints(f, pg) + rest) == (AddedDefOf(f, pg), rest)
    ensures AfterKind(AlterConstraints(f, pg) + rest)
  {
    hide ReadConstraints, NotNullText, ReferenceText, DefaultOf, KindOf, IsIdent;
    TextStarts(f, pg, rest);
    var refers := ReferenceText(f) + rest;
    assert AlterConstraints(f, pg) + rest == NotNullText(f, pg) + refers;
    NotNullTextReads(def, f, pg, refers);
    var d1 := if f.notNull then def.(notNull := true, default := Some(DefaultOf(f.goType, pg))) else def;
    ReferenceTextReads(d1, f, rest);
    NothingMore(if f.fk != "" then d1.(references := Some((f.fk, "id"))) else d1, rest);
  }

  // ---------- one column line ----------

  lemma {:induction false} BlanksSkipped(n: nat, rest: string)
    requires rest != "" && !IsReSpace(rest[0])
    ensures SkipSpaces(Spaces(n) + rest) == rest
  {
    if n == 0 {
      assert Spaces(0) + rest == rest;
    } else {
      assert (Spaces(n) + rest)[1..] == Spaces(n - 1) + rest;
      BlanksSkipped(n - 1, rest);
    }
  }

  lemma TypeStarts(f: MigField, pg: bool)
    ensures SqlType(f, pg) != "" && IsUpperLetter(SqlType(f, pg)[0])
  {
    hide Itoa;
  }

  // A column and its definition behind any blanks
  lemma ColumnDefReads(f: MigField, pg: bool, blanks: nat, constraints: string, rest: string)
    requires Readable(f) && blanks > 0 && AfterKind(constraints + rest)
    ensures var s := f.column + (Spaces(blanks) + (SqlType(f, pg) + (constraints + rest)));
      ReadColumnDef(s) ==
        Some(ReadConstraints(ColumnDef(f.column, KindOf(f, pg), false, false, None, false, None), constraints + rest))
  {
    hide ReadConstraints, SqlType, KindOf, IsIdent, ReadKind, SkipSpaces, ReadName;
    var typed := SqlType(f, pg) + (constraints + rest);
    TypeStarts(f, pg);
    SpacesStop(blanks, typed);
    NameReads(f.column, Spaces(blanks) + typed);
    BlanksSkipped(blanks, typed);
    KindReads(f, pg, constraints + rest);
  }

  lemma SpacesStop(n: nat, rest: string)
    requires n > 0
    ensures Stops(Spaces(n) + rest) && |Spaces(n)| == n
  {
  }

  // A line of CREATE TABLE, without the blanks it starts with
  lemma ColumnTextReads(f: MigField, pg: bool, rest: string)
    requires Readable(f) && EndsColumn(rest)
    ensures ReadColumnDef(PadRight(f.column, 20) + " " + SqlType(f, pg) + Constraints(f, pg) + rest)
         == Some((DefOf(f, pg), rest))
  {
    hide ReadConstraints, SqlType, KindOf, IsIdent, ReadColumnDef, Constraints, DefOf;
    var blanks := if |f.column| < 20 then 21 - |f.column| else 1;
    var tail := SqlType(f, pg) + (Constraints(f, pg) + rest);
    PadIs(f.column, blanks);
    assert PadRight(f.column, 20) + " " + SqlType(f, pg) + Constraints(f, pg) + rest
        == f.column + (Spaces(blanks) + tail);
    ConstraintsRead(ColumnDef(f.column, KindOf(f, pg), false, false, None, false, None), f, pg, rest);
    ColumnDefReads(f, pg, blanks, Constraints(f, pg), rest);
  }

  lemma PadIs(column: string, blanks: nat)
    requires blanks == if |column| < 20 then 21 - |column| else 1
    ensures PadRight(column, 20) + " " == column + Spaces(blanks)
  {
  }

  // The definition in ADD COLUMN
  lemma AddedTextReads(f: MigField, pg: bool, rest: string)
    requires Readable(f) && EndsColumn(rest)
    ensures ReadColumnDef(f.column + " " + SqlType(f, pg) + AlterConstraints(f, pg) + rest)
         == Some((AddedDefOf(f, pg), rest))
  {
    hide ReadConstraints, SqlType, KindOf, IsIdent, ReadColumnDef, AlterConstraints, AddedDefOf;
    var tail := SqlType(f, pg) + (AlterConstraints(f, pg) + rest);
    assert " " == Spaces(1);
    assert f.column + " " + SqlType(f, pg) + AlterConstraints(f, pg) + rest == f.column + (Spaces(1) + tail);
    AlterConstraintsRead(ColumnDef(f.column, KindOf(f, pg), false, false, None, false, None), f, pg, rest);
    ColumnDefReads(f, pg, 1, AlterConstraints(f, pg), rest);
  }

  // ---------- statements ----------

  datatype IndexKind = Ordinary | Gin | FullText

  // What a trigger does to the full-text table: enter the new row, or withdraw the old one
  datatype TriggerStep = Enter(shadow: string, column: string, pk: string) | Withdraw(shadow: string, column: string, pk: string)

  datatype Command =
    | MakeTable(table: string, columns: seq<ColumnDef>)
    | MakeIndex(kind: IndexKind, unique: bool, ifNew: bool, index: string, table: string, column: string)
    | MakeShadow(shadow: string, table: string, column: string, pk: string)
    | MakeTrigger(trigger: string, event: FtsEvent, table: string, steps: seq<TriggerStep>)
    | MakeColumn(table: string, def: ColumnDef)
    | RemoveColumn(table: string, column: string)
    | RemoveIndex(index: string)
    | RemoveIndexFrom(index: string, table: string)
    | RemoveTrigger(trigger: string)
    | RemoveTable(table: string)

  // A name that ends the text
  function LastName(s: string): Option<string> {
    var name :- ReadName(s);
    if name.1 == "" then Some(name.0) else None
  }

  function ReadColumns(s: string): (r: Option<seq<ColumnDef>>)
    decreases |s|
  {
    var line :- Skip(s, "\n");
    var first :- ReadColumnDef(SkipSpaces(line));
    if |first.1| >= |s| then None
    else if first.1 == "\n)" then Some([first.0])
    else
      var more :- Skip(first.1, ",");
      var others :- ReadColumns(more);
      Some([first.0] + others)
  }

  function ReadTable(s: string): Option<Command> {
    var name :- ReadName(s);
    var open :- Skip(name.1, " (");
    var columns :- ReadColumns(open);
    Some(MakeTable(name.0, columns))
  }

  // index ON table (column), or with a text search vector
  function ReadIndex(kind: IndexKind, unique: bool, ifNew: bool, s: string): Option<Command> {
    var index :- ReadName(s);
    var on :- Skip(index.1, " ON ");
    var table :- ReadName(on);
    if Skip(table.1, " USING GIN (").Some? then
      var call :- Skip(Skip(table.1, " USING GIN (").value, "to_tsvector(");
      var language :- Skip(call, "'portuguese', ");
      var column :- ReadName(language);
      if column.1 == "))" then Some(MakeIndex(Gin, unique, ifNew, index.0, table.0, column.0)) else None
    else
      var open :- Skip(table.1, " (");
      var column :- ReadName(open);
      if column.1 == ")" then Some(MakeIndex(kind, unique, ifNew, index.0, table.0, column.0)) else None
  }

  function ReadShadow(s: string): Option<Command> {
    var shadow :- ReadName(s);
    var open :- Skip(shadow.1, " USING fts5(");
    var column :- ReadName(open);
    var content :- Skip(column.1, ", content='");
    var table :- ReadName(content);
    var rowid :- Skip(table.1, "', content_rowid='");
    var pk :- ReadName(rowid);
    if pk.1 == "')" then Some(MakeShadow(shadow.0, table.0, column.0, pk.0)) else None
  }

  // INSERT INTO shadow(rowid, column) VALUES (new.pk, new.column);
  function ReadEnter(shadow: string, s: string): Option<(TriggerStep, string)> {
    var column :- ReadName(s);
    var values :- Skip(column.1, ") VALUES (");
    var new1 :- Skip(values, "new.");
    var pk :- ReadName(new1);
    var new2 :- Skip(pk.1, ", new.");
    var again :- ReadName(new2);
    var end :- Skip(again.1, ");\n");
    if again.0 == column.0 then Some((Enter(shadow, column.0, pk.0), end)) else None
  }

  // INSERT INTO shadow(shadow, rowid, column) VALUES('delete', old.pk, old.column);
  function ReadWithdraw(shadow: string, s: string): Option<(TriggerStep, string)> {
    var itself :- ReadName(s);
    var rowid :- Skip(itself.1, ", rowid, ");
    var column :- ReadName(rowid);
    var values :- Skip(column.1, ") VALUES(");
    var delete :- Skip(values, "'delete', old.");
    var pk :- ReadName(delete);
    var old2 :- Skip(pk.1, ", old.");
    var again :- ReadName(old2);
    var end :- Skip(again.1, ");\n");
    if itself.0 == shadow && again.0 == column.0 then Some((Withdraw(shadow, column.0, pk.0), end)) else None
  }

  function ReadStep(s: string): Option<(TriggerStep, string)> {
    var into :- Skip(s, "  INSERT INTO ");
    var shadow :- ReadName(into);
    var open :- Skip(shadow.1, "(");
    if Skip(open, "rowid, ").Some? then ReadEnter(shadow.0, Skip(open, "rowid, ").value)
    else ReadWithdraw(shadow.0, open)
  }

  function ReadSteps(s: string): (r: Option<seq<TriggerStep>>)
    decreases |s|
  {
    if s == "END" then Some([])
    else
      var first :- ReadStep(s);
      if |first.1| >= |s| then None
      else
        var others :- ReadSteps(first.1);
        Some([first.0] + others)
  }

  function ReadEvent(s: string): Option<(FtsEvent, string)> {
    if Skip(s, "INSERT").Some? then Some((AfterInsert, Skip(s, "INSERT").value))
    else if Skip(s, "DELETE").Some? then Some((AfterDelete, Skip(s, "DELETE").value))
    else if Skip(s, "UPDATE").Some? then Some((AfterUpdate, Skip(s, "UPDATE").value))
    else None
  }

  function ReadTrigger(s: string): Option<Command> {
    var name :- ReadName(s);
    var after :- Skip(name.1, " AFTER ");
    var event :- ReadEvent(after);
    var on :- Skip(event.1, " ON ");
    var table :- ReadName(on);
    var begin :- Skip(table.1, " BEGIN\n");
    var steps :- ReadSteps(begin);
    Some(MakeTrigger(name.0, event.0, table.0, steps))
  }

  function ReadAlter(s: string): Option<Command> {
    var table :- ReadName(s);
    if Skip(table.1, " ADD COLUMN ").Some? then
      var def :- ReadColumnDef(Skip(table.1, " ADD COLUMN ").value);
      if def.1 == "" then Some(MakeColumn(table.0, def.0)) else None
    else
      var drop :- Skip(table.1, " DROP COLUMN ");
      var column :- LastName(drop);
      Some(RemoveColumn(table.0, column))
  }

  function ReadIndexDrop(s: string): Option<Command> {
    var index :- ReadName(s);
    var on :- Skip(index.1, " ON ");
    var table :- LastName(on);
    Some(RemoveIndexFrom(index.0, table))
  }

  function ReadCreate(s: string): Option<Command> {
    if Skip(s, "TABLE IF NOT EXISTS ").Some? then ReadTable(Skip(s, "TABLE IF NOT EXISTS ").value)
    else if Skip(s, "UNIQUE INDEX IF NOT EXISTS ").Some?
      then ReadIndex(Ordinary, true, true, Skip(s, "UNIQUE INDEX IF NOT EXISTS ").value)
    else if Skip(s, "INDEX IF NOT EXISTS ").Some?
      then ReadIndex(Ordinary, false, true, Skip(s, "INDEX IF NOT EXISTS ").value)
    else if Skip(s, "FULLTEXT INDEX ").Some? then ReadIndex(FullText, false, false, Skip(s, "FULLTEXT INDEX ").value)
    else if Skip(s, "VIRTUAL TABLE IF NOT EXISTS ").Some? then ReadShadow(Skip(s, "VIRTUAL TABLE IF NOT EXISTS ").value)
    else
      var trigger :- Skip(s, "TRIGGER IF NOT EXISTS ");
      ReadTrigger(trigger)
  }

  function ReadDrop(s: string): Option<Command> {
    if Skip(s, "INDEX IF EXISTS ").Some? then
      var index :- LastName(Skip(s, "INDEX IF EXISTS ").value);
      Some(RemoveIndex(index))
    else if Skip(s, "INDEX ").Some? then ReadIndexDrop(Skip(s, "INDEX ").value)
    else if Skip(s, "TRIGGER IF EXISTS ").Some? then
      var trigger :- LastName(Skip(s, "TRIGGER IF EXISTS ").value);
      Some(RemoveTrigger(trigger))
    else
      var rest :- Skip(s, "TABLE IF EXISTS ");
      var table :- LastName(rest);
      Some(RemoveTable(table))
  }

  // A statement without the semicolon that ends it
  function ReadDdl(s: string): Option<Command> {
    if Skip(s, "CREATE ").Some? then ReadCreate(Skip(s, "CREATE ").value)
    else if Skip(s, "ALTER TABLE ").Some? then ReadAlter(Skip(s, "ALTER TABLE ").value)
    else
      var drop :- Skip(s, "DROP ");
      ReadDrop(drop)
  }

  // ---------- what each statement stands for ----------

  function DefsOf(fields: seq<MigField>, pg: bool): seq<ColumnDef> {
    seq(|fields|, i requires 0 <= i < |fields| => DefOf(fields[i], pg))
  }

  function StepsOf(event: FtsEvent, shadow: string, column: string, pk: string): seq<TriggerStep> {
    match event
    case AfterInsert => [Enter(shadow, column, pk)]
    case AfterDelete => [Withdraw(shadow, column, pk)]
    case AfterUpdate => [Withdraw(shadow, column, pk), Enter(shadow, column, pk)]
  }

  function CommandOf(d: Ddl, pg: bool): Command {
    match d
    case CreateTable(table, fields) => MakeTable(table, DefsOf(fields, pg))
    case CreateIndex(unique, index, table, column) => MakeIndex(Ordinary, unique, true, index, table, column)
    case CreateGinIndex(index, table, column) => MakeIndex(Gin, false, true, index, table, column)
    case CreateFulltextIndex(index, table, column) => MakeIndex(FullText, false, false, index, table, column)
    case CreateFtsTable(shadow, table, column, pk) => MakeShadow(shadow, table, column, pk)
    case CreateFtsTrigger(event, shadow, table, column, pk) =>
      MakeTrigger(TriggerName(shadow, event), event, table, StepsOf(event, shadow, column, pk))
    case AddColumn(table, f) => MakeColumn(table, AddedDefOf(f, pg))
    case DropColumn(table, column) => RemoveColumn(table, column)
    case DropIndex(index) => RemoveIndex(index)
    case DropIndexOn(index, table) => RemoveIndexFrom(index, table)
    case DropTrigger(trigger) => RemoveTrigger(trigger)
    case DropTable(table) => RemoveTable(table)
  }

  // Names are identifiers.
  ghost predicate Legible(d: Ddl) {
    match d
    case CreateTable(table, fields) => IsIdent(table) && fields != [] && forall f :: f in fields ==> Readable(f)
    case CreateIndex(_, index, table, column) => IsIdent(index) && IsIdent(table) && IsIdent(column)
    case CreateGinIndex(index, table, column) => IsIdent(index) && IsIdent(table) && IsIdent(column)
    case CreateFulltextIndex(index, table, column) => IsIdent(index) && IsIdent(table) && IsIdent(column)
    case CreateFtsTable(shadow, table, column, pk) =>
      IsIdent(shadow) && IsIdent(table) && IsIdent(column) && IsIdent(pk)
    case CreateFtsTrigger(_, shadow, table, column, pk) =>
      IsIdent(shadow) && shadow != "rowid" && IsIdent(table) && IsIdent(column) && IsIdent(pk)
    case AddColumn(table, f) => IsIdent(table) && Readable(f)
    case DropColumn(table, column) => IsIdent(table) && IsIdent(column)
    case DropIndex(index) => IsIdent(index)
    case DropIndexOn(index, table) => IsIdent(index) && IsIdent(table)
    case DropTrigger(trigger) => IsIdent(trigger)
    case DropTable(table) => IsIdent(table)
  }

  // ---------- reading them back ----------

  lemma LastNameReads(name: string)
    requires IsIdent(name)
    ensures LastName(name) == Some(name)
  {
    hide IsIdent;
    NameReads(name, "");
    assert name + "" == name;
  }

  // The columns of a table, from the line break before the first one on
  function ColumnsText(fields: seq<MigField>, pg: bool): string
    requires fields != []
  {
    "\n    " + (PadRight(fields[0].column, 20) + " " + SqlType(fields[0], pg) + Constraints(fields[0], pg))
    + (if |fields| == 1 then "\n)" else "," + ColumnsText(fields[1..], pg))
  }

  lemma {:induction false} ColumnsRead(fields: seq<MigField>, pg: bool)
    requires fields != [] && forall f :: f in fields ==> Readable(f)
    ensures ReadColumns(ColumnsText(fields, pg)) == Some(DefsOf(fields, pg))
    decreases |fields|
  {
    hide Readable, PadRight, SqlType, Constraints, ReadColumnDef, DefOf, SkipSpaces, Skip;
    var f := fields[0];
    var text := PadRight(f.column, 20) + " " + SqlType(f, pg) + Constraints(f, pg);
    var rest := if |fields| == 1 then "\n)" else "," + ColumnsText(fields[1..], pg);
    var s := ColumnsText(fields, pg);
    assert f in fields && forall g :: g in fields[1..] ==> g in fields;
    assert s == "\n" + (Spaces(4) + (text + rest)) by { assert "\n    " == "\n" + Spaces(4); }
    Skips("\n", Spaces(4) + (text + rest));
    assert text + rest != "" && !IsReSpace((text + rest)[0]) by { LineStarts(f, pg); }
    BlanksSkipped(4, text + rest);
    ColumnTextReads(f, pg, rest);
    if |fields| == 1 {
      assert DefsOf(fields, pg) == [DefOf(f, pg)];
    } else {
      assert rest[0] == ',' && rest != "\n)";
      Skips(",", ColumnsText(fields[1..], pg));
      ColumnsRead(fields[1..], pg);
      assert DefsOf(fields, pg) == [DefOf(f, pg)] + DefsOf(fields[1..], pg);
    }
  }

  lemma LineStarts(f: MigField, pg: bool)
    requires Readable(f)
    ensures var text := PadRight(f.column, 20) + " " + SqlType(f, pg) + Constraints(f, pg);
      text != "" && !IsReSpace(text[0])
  {
    hide SqlType, Constraints;
  }

  // A line of CREATE TABLE without the blanks it starts with and the comma
  function LineText(f: MigField, pg: bool): string {
    PadRight(f.column, 20) + " " + SqlType(f, pg) + Constraints(f, pg)
  }

  lemma ColumnLineIs(f: MigField, last: bool, pg: bool)
    ensures "\n" + ColumnLine(f, last, pg) == "\n    " + LineText(f, pg) + (if last then "" else ",")
  {
    hide PadRight, SqlType, Constraints;
    assert "\n    " == "\n" + "    ";
  }

  lemma {:induction false} LinesJoined(fields: seq<MigField>, pg: bool)
    requires fields != []
    ensures "\n" + Join(ColumnLines(fields, pg) + [")"], "\n") == ColumnsText(fields, pg)
    decreases |fields|
  {
    hide ColumnLine, LineText, ColumnsText, PadRight, SqlType, Constraints;
    var lines := ColumnLines(fields, pg) + [")"];
    var last := |fields| == 1;
    ColumnLineIs(fields[0], last, pg);
    ColumnsTextIs(fields, pg);
    assert lines[0] == ColumnLine(fields[0], last, pg) && |lines| > 1;
    if last {
      assert lines[1..] == [")"] && Join([")"], "\n") == ")";
      assert "\n)" == "\n" + ")" && ColumnLines(fields, pg)[1..] == [];
      assert "\n    " + LineText(fields[0], pg) + "" == "\n    " + LineText(fields[0], pg);
    } else {
      LinesJoined(fields[1..], pg);
      assert lines[1..] == ColumnLines(fields[1..], pg) + [")"];
    }
    assert Join(lines, "\n") == lines[0] + "\n" + Join(lines[1..], "\n");
    assert "\n" + (lines[0] + "\n" + Join(lines[1..], "\n")) == ("\n" + lines[0]) + ("\n" + Join(lines[1..], "\n"));
  }

  lemma ColumnsTextIs(fields: seq<MigField>, pg: bool)
    requires fields != []
    ensures ColumnsText(fields, pg)
         == "\n    " + LineText(fields[0], pg) + (if |fields| == 1 then "\n)" else "," + ColumnsText(fields[1..], pg))
  {
    hide PadRight, SqlType, Constraints;
  }

  lemma TableReads(table: string, fields: seq<MigField>, pg: bool)
    requires Legible(CreateTable(table, fields))
    ensures ReadDdl(Body(CreateTable(table, fields), pg)) == Some(CommandOf(CreateTable(table, fields), pg))
  {
    hide IsIdent, Readable, ColumnLines, Join, ReadColumns, ColumnsText, Skip, ReadName;
    var d := CreateTable(table, fields);
    var columns := ColumnsText(fields, pg);
    var named := table + (" (" + columns);
    LinesJoined(fields, pg);
    TableBody(table, fields, pg);
    assert Body(d, pg) == "CREATE " + ("TABLE IF NOT EXISTS " + named);
    Skips("CREATE ", "TABLE IF NOT EXISTS " + named);
    Skips("TABLE IF NOT EXISTS ", named);
    NameReads(table, " (" + columns);
    Skips(" (", columns);
    ColumnsRead(fields, pg);
  }

  lemma TableBody(table: string, fields: seq<MigField>, pg: bool)
    ensures Body(CreateTable(table, fields), pg)
         == "CREATE " + ("TABLE IF NOT EXISTS " + (table + (" (" + ("\n" + Join(ColumnLines(fields, pg) + [")"], "\n")))))
  {
    hide ColumnLines;
    var rest := ColumnLines(fields, pg) + [")"];
    var lines := DdlLines(CreateTable(table, fields), pg);
    assert lines == [TableHead(table)] + rest && lines[1..] == rest;
    assert TableHead(table) == "CREATE " + ("TABLE IF NOT EXISTS " + (table + " (")) by {
      assert "CREATE TABLE IF NOT EXISTS " == "CREATE " + "TABLE IF NOT EXISTS ";
    }
    assert Join(lines, "\n") == TableHead(table) + "\n" + Join(rest, "\n");
  }

  lemma OneLineBody(d: Ddl, line: string, pg: bool)
    requires DdlLines(d, pg) == [line]
    ensures Body(d, pg) == line
  {
  }

  // The kinds of CREATE and of DROP begin differently.
  lemma CreateKinds(rest: string)
    ensures Skip("UNIQUE INDEX IF NOT EXISTS " + rest, "TABLE IF NOT EXISTS ") == None
    ensures Skip("INDEX IF NOT EXISTS " + rest, "TABLE IF NOT EXISTS ") == None
    ensures Skip("INDEX IF NOT EXISTS " + rest, "UNIQUE INDEX IF NOT EXISTS ") == None
  {
    SkipFails("UNIQUE INDEX IF NOT EXISTS " + rest, "TABLE IF NOT EXISTS ", 0);
    SkipFails("INDEX IF NOT EXISTS " + rest, "TABLE IF NOT EXISTS ", 0);
    SkipFails("INDEX IF NOT EXISTS " + rest, "UNIQUE INDEX IF NOT EXISTS ", 0);
  }

  lemma OtherKinds(word: string, rest: string)
    requires word == "FULLTEXT INDEX " || word == "VIRTUAL TABLE IF NOT EXISTS " || word == "TRIGGER IF NOT EXISTS "
    ensures Skip(word + rest, "TABLE IF NOT EXISTS ") == None && Skip(word + rest, "UNIQUE INDEX IF NOT EXISTS ") == None
    ensures Skip(word + rest, "INDEX IF NOT EXISTS ") == None
    ensures word != "FULLTEXT INDEX " ==> Skip(word + rest, "FULLTEXT INDEX ") == None
    ensures word == "TRIGGER IF NOT EXISTS " ==> Skip(word + rest, "VIRTUAL TABLE IF NOT EXISTS ") == None
  {
    var s := word + rest;
    assert s[0] == word[0] && s[1] == word[1];
    SkipFails(s, "TABLE IF NOT EXISTS ", if word[0] == 'T' then 1 else 0);
    SkipFails(s, "UNIQUE INDEX IF NOT EXISTS ", 0);
    SkipFails(s, "INDEX IF NOT EXISTS ", 0);
    if word != "FULLTEXT INDEX " {
      SkipFails(s, "FULLTEXT INDEX ", 0);
      if word == "TRIGGER IF NOT EXISTS " {
        SkipFails(s, "VIRTUAL TABLE IF NOT EXISTS ", 0);
      }
    }
  }

  lemma IndexOnReads(kind: IndexKind, unique: bool, ifNew: bool, index: string, table: string, column: string)
    requires IsIdent(index) && IsIdent(table) && IsIdent(column)
    ensures ReadIndex(kind, unique, ifNew, IndexOn(index, table, column))
         == Some(MakeIndex(kind, unique, ifNew, index, table, column))
  {
    hide IsIdent, Skip, ReadName;
    var end := " (" + (column + ")");
    var on := table + end;
    assert IndexOn(index, table, column) == index + (" ON " + on);
    NameReads(index, " ON " + on);
    Skips(" ON ", on);
    NameReads(table, end);
    assert end[1] == '(';
    SkipFails(end, " USING GIN (", 1);
    Skips(" (", column + ")");
    NameReads(column, ")");
  }

  lemma GinReads(index: string, table: string, column: string)
    requires IsIdent(index) && IsIdent(table) && IsIdent(column)
    ensures ReadIndex(Ordinary, false, true, GinOn(index, table, column))
         == Some(MakeIndex(Gin, false, true, index, table, column))
  {
    hide IsIdent, Skip, ReadName;
    var named := column + "))";
    var language := "'portuguese', " + named;
    var call := "to_tsvector(" + language;
    var end := " USING GIN (" + call;
    var on := table + end;
    GinText(index, table, column);
    assert GinOn(index, table, column) == index + (" ON " + on);
    NameReads(index, " ON " + on);
    Skips(" ON ", on);
    NameReads(table, end);
    Skips(" USING GIN (", call);
    Skips("to_tsvector(", language);
    Skips("'portuguese', ", named);
    NameReads(column, "))");
  }

  lemma GinText(index: string, table: string, column: string)
    ensures GinOn(index, table, column)
         == index + (" ON " + (table + (" USING GIN (" + ("to_tsvector(" + ("'portuguese', " + (column + "))"))))))
  {
    assert " USING GIN (to_tsvector('portuguese', " == " USING GIN (" + ("to_tsvector(" + "'portuguese', ");
  }

  lemma IndexReads(d: Ddl, pg: bool)
    requires Legible(d) && (d.CreateIndex? || d.CreateGinIndex? || d.CreateFulltextIndex?)
    ensures ReadDdl(Body(d, pg)) == Some(CommandOf(d, pg))
  {
    hide IsIdent, Skip, ReadIndex, IndexOn, GinOn;
    match d {
      case CreateIndex(unique, index, table, column) =>
        var on := IndexOn(index, table, column);
        var word := if unique then "UNIQUE INDEX IF NOT EXISTS " else "INDEX IF NOT EXISTS ";
        CreateWords(on);
        OneLineBody(d, "CREATE " + (word + on), pg);
        Skips("CREATE ", word + on);
        Skips(word, on);
        CreateKinds(on);
        IndexOnReads(Ordinary, unique, true, index, table, column);
      case CreateGinIndex(index, table, column) =>
        var on := GinOn(index, table, column);
        CreateWords(on);
        OneLineBody(d, "CREATE " + ("INDEX IF NOT EXISTS " + on), pg);
        Skips("CREATE ", "INDEX IF NOT EXISTS " + on);
        Skips("INDEX IF NOT EXISTS ", on);
        CreateKinds(on);
        GinReads(index, table, column);
      case CreateFulltextIndex(index, table, column) =>
        var on := IndexOn(index, table, column);
        OtherCreateWords(on);
        OneLineBody(d, "CREATE " + ("FULLTEXT INDEX " + on), pg);
        Skips("CREATE ", "FULLTEXT INDEX " + on);
        Skips("FULLTEXT INDEX ", on);
        OtherKinds("FULLTEXT INDEX ", on);
        IndexOnReads(FullText, false, false, index, table, column);
    }
  }

  lemma CreateWords(on: string)
    ensures "CREATE UNIQUE INDEX IF NOT EXISTS " + on == "CREATE " + ("UNIQUE INDEX IF NOT EXISTS " + on)
    ensures "CREATE INDEX IF NOT EXISTS " + on == "CREATE " + ("INDEX IF NOT EXISTS " + on)
  {
    UniqueWords();
    IndexWords();
    TwoWords("CREATE ", "UNIQUE INDEX IF NOT EXISTS ", on);
    TwoWords("CREATE ", "INDEX IF NOT EXISTS ", on);
  }

  lemma OtherCreateWords(on: string)
    ensures "CREATE FULLTEXT INDEX " + on == "CREATE " + ("FULLTEXT INDEX " + on)
    ensures "CREATE VIRTUAL TABLE IF NOT EXISTS " + on == "CREATE " + ("VIRTUAL TABLE IF NOT EXISTS " + on)
  {
    FullTextWords();
    VirtualWords();
    TwoWords("CREATE ", "FULLTEXT INDEX ", on);
    TwoWords("CREATE ", "VIRTUAL TABLE IF NOT EXISTS ", on);
  }

  lemma TwoWords(a: string, b: string, c: string)
    ensures (a + b) + c == a + (b + c)
  {
  }

  lemma UniqueWords()
    ensures "CREATE UNIQUE INDEX IF NOT EXISTS " == "CREATE " + "UNIQUE INDEX IF NOT EXISTS "
  {
  }

  lemma IndexWords()
    ensures "CREATE INDEX IF NOT EXISTS " == "CREATE " + "INDEX IF NOT EXISTS "
  {
  }

  lemma FullTextWords()
    ensures "CREATE FULLTEXT INDEX " == "CREATE " + "FULLTEXT INDEX "
  {
  }

  lemma VirtualWords()
    ensures "CREATE VIRTUAL TABLE IF NOT EXISTS " == "CREATE " + "VIRTUAL TABLE IF NOT EXISTS "
  {
  }

  lemma ShadowReads(shadow: string, table: string, column: string, pk: string)
    requires IsIdent(shadow) && IsIdent(table) && IsIdent(column) && IsIdent(pk)
    ensures ReadShadow(FtsUsing(shadow, table, column, pk)) == Some(MakeShadow(shadow, table, column, pk))
  {
    hide IsIdent, Skip, ReadName;
    var rowid := pk + "')";
    var content := table + ("', content_rowid='" + rowid);
    var named := column + (", content='" + content);
    assert FtsUsing(shadow, table, column, pk) == shadow + (" USING fts5(" + named);
    NameReads(shadow, " USING fts5(" + named);
    Skips(" USING fts5(", named);
    NameReads(column, ", content='" + content);
    Skips(", content='", content);
    NameReads(table, "', content_rowid='" + rowid);
    Skips("', content_rowid='", rowid);
    NameReads(pk, "')");
  }

  lemma ShadowTableReads(d: Ddl, pg: bool)
    requires Legible(d) && d.CreateFtsTable?
    ensures ReadDdl(Body(d, pg)) == Some(CommandOf(d, pg))
  {
    hide IsIdent, Skip, ReadShadow, FtsUsing;
    var using := FtsUsing(d.shadow, d.table, d.column, d.pk);
    OtherCreateWords(using);
    OneLineBody(d, "CREATE " + ("VIRTUAL TABLE IF NOT EXISTS " + using), pg);
    Skips("CREATE ", "VIRTUAL TABLE IF NOT EXISTS " + using);
    Skips("VIRTUAL TABLE IF NOT EXISTS ", using);
    OtherKinds("VIRTUAL TABLE IF NOT EXISTS ", using);
    ShadowReads(d.shadow, d.table, d.column, d.pk);
  }

  // ---------- triggers ----------

  lemma EnterReads(shadow: string, column: string, pk: string, rest: string)
    requires IsIdent(shadow) && IsIdent(column) && IsIdent(pk)
    ensures ReadStep(TriggerInsert(shadow, column, pk) + "\n" + rest) == Some((Enter(shadow, column, pk), rest))
  {
    hide IsIdent, Skip, ReadName;
    var end := ");\n" + rest;
    var new2 := column + end;
    var new1 := pk + (", new." + new2);
    var values := "new." + new1;
    var named := column + (") VALUES (" + values);
    var into := shadow + ("(" + ("rowid, " + named));
    EnterText(shadow, column, pk, rest);
    assert TriggerInsert(shadow, column, pk) + "\n" + rest == "  INSERT INTO " + into;
    Skips("  INSERT INTO ", into);
    NameReads(shadow, "(" + ("rowid, " + named));
    Skips("(", "rowid, " + named);
    Skips("rowid, ", named);
    NameReads(column, ") VALUES (" + values);
    Skips(") VALUES (", values);
    Skips("new.", new1);
    NameReads(pk, ", new." + new2);
    Skips(", new.", new2);
    NameReads(column, end);
    Skips(");\n", rest);
  }

  lemma EnterText(shadow: string, column: string, pk: string, rest: string)
    ensures TriggerInsert(shadow, column, pk) + "\n" + rest
         == "  INSERT INTO " + (shadow + ("(" + ("rowid, " +
              (column + (") VALUES (" + ("new." + (pk + (", new." + (column + (");\n" + rest))))))))))
  {
    assert "(rowid, " == "(" + "rowid, " && ") VALUES (new." == ") VALUES (" + "new." && ");" + "\n" == ");\n";
  }

  lemma WithdrawReads(shadow: string, column: string, pk: string, rest: string)
    requires IsIdent(shadow) && shadow != "rowid" && IsIdent(column) && IsIdent(pk)
    ensures ReadStep(TriggerDelete(shadow, column, pk) + "\n" + rest) == Some((Withdraw(shadow, column, pk), rest))
  {
    hide IsIdent, Skip, ReadName;
    var end := ");\n" + rest;
    var old2 := column + end;
    var old1 := pk + (", old." + old2);
    var values := "'delete', old." + old1;
    var named := column + (") VALUES(" + values);
    var itself := shadow + (", rowid, " + named);
    var into := shadow + ("(" + itself);
    WithdrawText(shadow, column, pk, rest);
    assert TriggerDelete(shadow, column, pk) + "\n" + rest == "  INSERT INTO " + into;
    Skips("  INSERT INTO ", into);
    NameReads(shadow, "(" + itself);
    Skips("(", itself);
    NotRowid(shadow, ", rowid, " + named);
    NameReads(shadow, ", rowid, " + named);
    Skips(", rowid, ", named);
    NameReads(column, ") VALUES(" + values);
    Skips(") VALUES(", values);
    Skips("'delete', old.", old1);
    NameReads(pk, ", old." + old2);
    Skips(", old.", old2);
    NameReads(column, end);
    Skips(");\n", rest);
  }

  lemma NotRowid(shadow: string, rest: string)
    requires IsIdent(shadow) && shadow != "rowid" && rest != "" && rest[0] == ','
    ensures Skip(shadow + rest, "rowid, ") == None
  {
    var s := shadow + rest;
    if |shadow| < 5 {
      assert s[|shadow|] == ',';
      SkipFails(s, "rowid, ", |shadow|);
    } else if |shadow| > 5 {
      assert s[5] == shadow[5];
      SkipFails(s, "rowid, ", 5);
    } else {
      var i :| 0 <= i < 5 && shadow[i] != "rowid"[i];
      assert s[i] == shadow[i];
      SkipFails(s, "rowid, ", i);
    }
  }

  lemma WithdrawText(shadow: string, column: string, pk: string, rest: string)
    ensures TriggerDelete(shadow, column, pk) + "\n" + rest
         == "  INSERT INTO " + (shadow + ("(" + (shadow + (", rowid, " +
              (column + (") VALUES(" + ("'delete', old." + (pk + (", old." + (column + (");\n" + rest)))))))))))
  {
    assert ") VALUES('delete', old." == ") VALUES(" + "'delete', old." && ");" + "\n" == ");\n";
  }

  function EventWord(event: FtsEvent): string {
    match event case AfterInsert => "INSERT" case AfterDelete => "DELETE" case AfterUpdate => "UPDATE"
  }

  lemma EventReads(event: FtsEvent, rest: string)
    ensures ReadEvent(EventWord(event) + rest) == Some((event, rest))
  {
    var s := EventWord(event) + rest;
    Skips(EventWord(event), rest);
    assert s[0] == EventWord(event)[0];
    if !event.AfterInsert? {
      SkipFails(s, "INSERT", 0);
      if event.AfterUpdate? {
        SkipFails(s, "DELETE", 0);
      }
    }
  }

  function StepsText(event: FtsEvent, shadow: string, column: string, pk: string): string {
    (if event.AfterInsert? then "" else TriggerDelete(shadow, column, pk) + "\n")
    + ((if event.AfterDelete? then "" else TriggerInsert(shadow, column, pk) + "\n") + "END")
  }

  lemma StepsRead(event: FtsEvent, shadow: string, column: string, pk: string)
    requires IsIdent(shadow) && shadow != "rowid" && IsIdent(column) && IsIdent(pk)
    ensures ReadSteps(StepsText(event, shadow, column, pk)) == Some(StepsOf(event, shadow, column, pk))
  {
    hide IsIdent, ReadStep, TriggerInsert, TriggerDelete, ReadSteps;
    var enter, withdraw := Enter(shadow, column, pk), Withdraw(shadow, column, pk);
    var entering := TriggerInsert(shadow, column, pk) + "\n" + "END";
    var last := if event.AfterDelete? then "END" else entering;
    EndReads();
    EnterReads(shadow, column, pk, "END");
    WithdrawReads(shadow, column, pk, last);
    StepShows(shadow, column, pk, "END");
    StepShows(shadow, column, pk, last);
    StepsCons(entering, enter, "END", []);
    assert [enter] + [] == [enter] && [withdraw] + [] == [withdraw];
    if event.AfterInsert? {
      assert StepsText(event, shadow, column, pk) == entering;
    } else {
      var text := TriggerDelete(shadow, column, pk) + "\n" + last;
      assert StepsText(event, shadow, column, pk) == text;
      StepsCons(text, withdraw, last, if event.AfterDelete? then [] else [enter]);
      assert [withdraw] + [enter] == [withdraw, enter];
    }
  }

  lemma EndReads()
    ensures ReadSteps("END") == Some([])
  {
  }

  lemma StepsCons(s: string, step: TriggerStep, rest: string, others: seq<TriggerStep>)
    requires s != "END" && |rest| < |s| && ReadStep(s) == Some((step, rest)) && ReadSteps(rest) == Some(others)
    ensures ReadSteps(s) == Some([step] + others)
  {
    hide ReadStep;
  }

  // A step is no end, and something of the text is left behind it.
  lemma StepShows(shadow: string, column: string, pk: string, rest: string)
    ensures TriggerInsert(shadow, column, pk) + "\n" + rest != "END"
    ensures TriggerDelete(shadow, column, pk) + "\n" + rest != "END"
    ensures |rest| < |TriggerInsert(shadow, column, pk) + "\n" + rest|
    ensures |rest| < |TriggerDelete(shadow, column, pk) + "\n" + rest|
  {
    assert (TriggerInsert(shadow, column, pk) + "\n" + rest)[0] == ' ';
    assert (TriggerDelete(shadow, column, pk) + "\n" + rest)[0] == ' ';
  }

  lemma TriggerNameIsIdent(shadow: string, event: FtsEvent)
    requires IsIdent(shadow)
    ensures IsIdent(TriggerName(shadow, event))
  {
  }

  lemma TriggerReads(d: Ddl, pg: bool)
    requires Legible(d) && d.CreateFtsTrigger?
    ensures ReadDdl(Body(d, pg)) == Some(CommandOf(d, pg))
  {
    hide IsIdent, Skip, ReadName, ReadSteps, StepsText, ReadEvent, EventWord, TriggerName, StepsOf;
    var name := TriggerName(d.shadow, d.event);
    var steps := StepsText(d.event, d.shadow, d.column, d.pk);
    var on := d.table + (" BEGIN\n" + steps);
    var event := EventWord(d.event) + (" ON " + on);
    var named := name + (" AFTER " + event);
    TriggerBody(d, pg);
    assert Body(d, pg) == "CREATE " + ("TRIGGER IF NOT EXISTS " + named);
    Skips("CREATE ", "TRIGGER IF NOT EXISTS " + named);
    Skips("TRIGGER IF NOT EXISTS ", named);
    OtherKinds("TRIGGER IF NOT EXISTS ", named);
    TriggerNameIsIdent(d.shadow, d.event);
    NameReads(name, " AFTER " + event);
    Skips(" AFTER ", event);
    EventReads(d.event, " ON " + on);
    Skips(" ON ", on);
    NameReads(d.table, " BEGIN\n" + steps);
    Skips(" BEGIN\n", steps);
    StepsRead(d.event, d.shadow, d.column, d.pk);
  }

  lemma TriggerHeadIs(event: FtsEvent, shadow: string, table: string)
    ensures TriggerHead(event, shadow, table) + "\n"
         == "CREATE " + ("TRIGGER IF NOT EXISTS " + (TriggerName(shadow, event) + (" AFTER "
            + (EventWord(event) + (" ON " + (table + " BEGIN\n"))))))
  {
    hide TriggerName, EventWord;
    assert TriggerHead(event, shadow, table)
        == "CREATE TRIGGER IF NOT EXISTS " + TriggerName(shadow, event) + " AFTER " + EventWord(event) + " ON " + table
           + " BEGIN" by { TriggerHeadParts(event, shadow, table); }
    TriggerWords();
  }

  lemma TriggerHeadParts(event: FtsEvent, shadow: string, table: string)
    ensures TriggerHead(event, shadow, table)
         == "CREATE TRIGGER IF NOT EXISTS " + TriggerName(shadow, event) + " AFTER " + EventWord(event) + " ON " + table
            + " BEGIN"
  {
    hide TriggerName;
  }

  lemma TriggerWords()
    ensures "CREATE TRIGGER IF NOT EXISTS " == "CREATE " + "TRIGGER IF NOT EXISTS "
    ensures " BEGIN" + "\n" == " BEGIN\n"
  {
  }

  lemma TriggerBody(d: Ddl, pg: bool)
    requires d.CreateFtsTrigger?
    ensures Body(d, pg)
         == "CREATE " + ("TRIGGER IF NOT EXISTS " + (TriggerName(d.shadow, d.event) + (" AFTER "
            + (EventWord(d.event) + (" ON " + (d.table + (" BEGIN\n" + StepsText(d.event, d.shadow, d.column, d.pk))))))))
  {
    hide TriggerName, TriggerHead, TriggerInsert, TriggerDelete, EventWord, Join;
    var head, del, ins := TriggerHead(d.event, d.shadow, d.table), TriggerDelete(d.shadow, d.column, d.pk),
      TriggerInsert(d.shadow, d.column, d.pk);
    TriggerHeadIs(d.event, d.shadow, d.table);
    match d.event {
      case AfterInsert =>
        assert DdlLines(d, pg) == [head, ins, "END"];
        JoinThree(head, ins, "END");
      case AfterDelete =>
        assert DdlLines(d, pg) == [head, del, "END"];
        JoinThree(head, del, "END");
      case AfterUpdate =>
        assert DdlLines(d, pg) == [head, del, ins, "END"];
        JoinFour(head, del, ins, "END");
    }
    assert Body(d, pg) == head + "\n" + StepsText(d.event, d.shadow, d.column, d.pk);
  }

  lemma JoinThree(a: string, b: string, c: string)
    ensures Join([a, b, c], "\n") == a + "\n" + (b + "\n" + c)
  {
    assert [a, b, c][1..] == [b, c] && [b, c][1..] == [c];
    assert Join([c], "\n") == c && Join([b, c], "\n") == b + "\n" + c;
  }

  lemma JoinFour(a: string, b: string, c: string, d: string)
    ensures Join([a, b, c, d], "\n") == a + "\n" + (b + "\n" + (c + "\n" + d))
  {
    assert [a, b, c, d][1..] == [b, c, d];
    JoinThree(b, c, d);
  }

  // ---------- changes and drops ----------

  lemma AlterReads(d: Ddl, pg: bool)
    requires Legible(d) && (d.AddColumn? || d.DropColumn?)
    ensures ReadDdl(Body(d, pg)) == Some(CommandOf(d, pg))
  {
    hide IsIdent, Skip, ReadName, ReadColumnDef, SqlType, AlterConstraints, AddedDefOf, LastName;
    match d {
      case AddColumn(table, f) =>
        var def := f.column + " " + SqlType(f, pg) + AlterConstraints(f, pg);
        var named := table + (" ADD COLUMN " + def);
        OneLineBody(d, "ALTER TABLE " + named, pg) by {
          assert DdlLines(d, pg)[0] == "ALTER TABLE " + named;
        }
        NoCreate(named);
        Skips("ALTER TABLE ", named);
        NameReads(table, " ADD COLUMN " + def);
        Skips(" ADD COLUMN ", def);
        AddedTextReads(f, pg, "");
        assert def + "" == def;
      case DropColumn(table, column) =>
        var named := table + (" DROP COLUMN " + column);
        OneLineBody(d, "ALTER TABLE " + named, pg) by {
          assert DdlLines(d, pg)[0] == "ALTER TABLE " + named;
        }
        NoCreate(named);
        Skips("ALTER TABLE ", named);
        NameReads(table, " DROP COLUMN " + column);
        assert (" DROP COLUMN " + column)[1] == 'D';
        SkipFails(" DROP COLUMN " + column, " ADD COLUMN ", 1);
        Skips(" DROP COLUMN ", column);
        LastNameReads(column);
    }
  }

  lemma NoCreate(rest: string)
    ensures Skip("ALTER TABLE " + rest, "CREATE ") == None
    ensures Skip("DROP " + rest, "CREATE ") == None && Skip("DROP " + rest, "ALTER TABLE ") == None
  {
    SkipFails("ALTER TABLE " + rest, "CREATE ", 0);
    SkipFails("DROP " + rest, "CREATE ", 0);
    SkipFails("DROP " + rest, "ALTER TABLE ", 0);
  }

  lemma DropReads(d: Ddl, pg: bool)
    requires Legible(d) && (d.DropIndex? || d.DropIndexOn? || d.DropTrigger? || d.DropTable?)
    ensures ReadDdl(Body(d, pg)) == Some(CommandOf(d, pg))
  {
    hide IsIdent, Skip, ReadName, LastName;
    DropWords(d, pg);
    NoCreate(DropTail(d));
    Skips("DROP ", DropTail(d));
    match d {
      case DropIndex(index) =>
        Skips("INDEX IF EXISTS ", index);
        LastNameReads(index);
      case DropIndexOn(index, table) =>
        NotIfExists(index, " ON " + table);
        Skips("INDEX ", index + (" ON " + table));
        NameReads(index, " ON " + table);
        Skips(" ON ", table);
        LastNameReads(table);
      case DropTrigger(trigger) =>
        OtherDrops("TRIGGER IF EXISTS ", trigger);
        Skips("TRIGGER IF EXISTS ", trigger);
        LastNameReads(trigger);
      case DropTable(table) =>
        OtherDrops("TABLE IF EXISTS ", table);
        Skips("TABLE IF EXISTS ", table);
        LastNameReads(table);
    }
  }

  function DropTail(d: Ddl): string
    requires d.DropIndex? || d.DropIndexOn? || d.DropTrigger? || d.DropTable?
  {
    match d
    case DropIndex(index) => "INDEX IF EXISTS " + index
    case DropIndexOn(index, table) => "INDEX " + (index + (" ON " + table))
    case DropTrigger(trigger) => "TRIGGER IF EXISTS " + trigger
    case DropTable(table) => "TABLE IF EXISTS " + table
  }

  lemma DropWords(d: Ddl, pg: bool)
    requires d.DropIndex? || d.DropIndexOn? || d.DropTrigger? || d.DropTable?
    ensures Body(d, pg) == "DROP " + DropTail(d)
  {
    DropStarts();
    match d {
      case DropIndex(index) => TwoWords("DROP ", "INDEX IF EXISTS ", index);
      case DropIndexOn(index, table) =>
        TwoWords("DROP ", "INDEX ", index + (" ON " + table));
        assert "DROP INDEX " + index + " ON " + table == "DROP INDEX " + (index + (" ON " + table));
      case DropTrigger(trigger) => TwoWords("DROP ", "TRIGGER IF EXISTS ", trigger);
      case DropTable(table) => TwoWords("DROP ", "TABLE IF EXISTS ", table);
    }
    OneLineBody(d, "DROP " + DropTail(d), pg);
  }

  lemma DropStarts()
    ensures "DROP INDEX IF EXISTS " == "DROP " + "INDEX IF EXISTS " && "DROP INDEX " == "DROP " + "INDEX "
    ensures "DROP TRIGGER IF EXISTS " == "DROP " + "TRIGGER IF EXISTS "
    ensures "DROP TABLE IF EXISTS " == "DROP " + "TABLE IF EXISTS "
  {
  }

  lemma OtherDrops(word: string, rest: string)
    requires word == "TRIGGER IF EXISTS " || word == "TABLE IF EXISTS "
    ensures Skip(word + rest, "INDEX IF EXISTS ") == None && Skip(word + rest, "INDEX ") == None
    ensures word == "TABLE IF EXISTS " ==> Skip(word + rest, "TRIGGER IF EXISTS ") == None
  {
    var s := word + rest;
    assert s[0] == word[0] && s[1] == word[1];
    SkipFails(s, "INDEX IF EXISTS ", 0);
    SkipFails(s, "INDEX ", 0);
    if word == "TABLE IF EXISTS " {
      SkipFails(s, "TRIGGER IF EXISTS ", 1);
    }
  }

  lemma NotIfExists(index: string, rest: string)
    requires IsIdent(index) && |rest| > 1 && rest[0] == ' ' && rest[1] == 'O'
    ensures Skip("INDEX " + (index + rest), "INDEX IF EXISTS ") == None
  {
    var s := "INDEX " + (index + rest);
    var n := 6 + |index|;
    assert s[n] == ' ' && s[n + 1] == 'O';
    if |index| == 1 {
      SkipFails(s, "INDEX IF EXISTS ", 7);
    } else if |index| == 2 {
      SkipFails(s, "INDEX IF EXISTS ", 9);
    } else {
      assert s[8] == index[2];
      SkipFails(s, "INDEX IF EXISTS ", 8);
    }
  }

  // Main result: every statement with names that are identifiers reads back as what it stands for.
  lemma DdlReads(d: Ddl, pg: bool)
    requires Legible(d)
    ensures ReadDdl(Body(d, pg)) == Some(CommandOf(d, pg))
  {
    hide Legible, ReadDdl, Body, CommandOf;
    match d {
      case CreateTable(table, fields) => TableReads(table, fields, pg);
      case CreateIndex(_, _, _, _) => IndexReads(d, pg);
      case CreateGinIndex(_, _, _) => IndexReads(d, pg);
      case CreateFulltextIndex(_, _, _) => IndexReads(d, pg);
      case CreateFtsTable(_, _, _, _) => ShadowTableReads(d, pg);
      case CreateFtsTrigger(_, _, _, _, _) => TriggerReads(d, pg);
      case AddColumn(_, _) => AlterReads(d, pg);
      case DropColumn(_, _) => AlterReads(d, pg);
      case _ => DropReads(d, pg);
    }
  }

  // ---------- running what is read ----------

  function NamesOf(columns: seq<ColumnDef>): set<string> { set c | c in columns :: c.name }

  predicate DistinctNames(columns: seq<ColumnDef>) {
    forall i, j :: 0 <= i < j < |columns| ==> columns[i].name != columns[j].name
  }

  // A reference is good if the column it names is in the table it names, which may be the new one.
  predicate GoodReference(db: Db, self: string, own: set<string>, target: (string, string)) {
    if target.0 == self then target.1 in own else HasColumn(db, target.0, target.1)
  }

  function References(columns: seq<ColumnDef>): map<string, string> {
    if columns == [] then map[]
    else
      var c := columns[|columns| - 1];
      var before := References(columns[..|columns| - 1]);
      if c.references.Some? then before[c.name := c.references.value.0] else before
  }

  // What a statement that has been read does to the schema
  function Perform(db: Db, c: Command): Option<Db> {
    match c
    case MakeTable(table, columns) =>
      if table in db.tables then Some(db)
      else if DistinctNames(columns)
              && forall d :: d in columns && d.references.Some?
                   ==> GoodReference(db, table, NamesOf(columns), d.references.value)
      then Some(db.(tables := db.tables[table := Base(NamesOf(columns), References(columns))]))
      else None
    case MakeIndex(_, _, ifNew, index, table, column) =>
      if index in db.indexes then (if ifNew then Some(db) else None)
      else if HasColumn(db, table, column) then Some(db.(indexes := db.indexes[index := Index(table, column)]))
      else None
    case MakeShadow(shadow, table, column, _) =>
      if shadow in db.tables then Some(db)
      else if HasColumn(db, table, column) then Some(db.(tables := db.tables[shadow := Shadow(table, column)]))
      else None
    case MakeTrigger(trigger, _, table, _) =>
      if trigger in db.triggers then Some(db)
      else if IsBase(db, table) then Some(db.(triggers := db.triggers[trigger := table]))
      else None
    case MakeColumn(table, d) =>
      if IsBase(db, table) && d.name !in db.tables[table].columns
         && (d.references.Some? ==> GoodReference(db, table, db.tables[table].columns, d.references.value))
      then
        var was := db.tables[table];
        Some(db.(tables := db.tables[table := Base(was.columns + {d.name},
          if d.references.Some? then was.refs[d.name := d.references.value.0] else was.refs)]))
      else None
    case RemoveColumn(table, column) =>
      if CanDropColumn(db, table, column)
      then Some(db.(tables := db.tables[table := WithoutColumn(db.tables[table], column)]))
      else None
    case RemoveIndex(index) => Some(db.(indexes := db.indexes - {index}))
    case RemoveIndexFrom(index, table) =>
      if index in db.indexes && db.indexes[index].table == table
      then Some(db.(indexes := db.indexes - {index})) else None
    case RemoveTrigger(trigger) => Some(db.(triggers := db.triggers - {trigger}))
    case RemoveTable(table) =>
      if table !in db.tables then Some(db)
      else if CanDropTable(db, table) then Some(WithoutTable(db, table))
      else None
  }

  lemma DefsNames(fields: seq<MigField>, pg: bool)
    ensures NamesOf(DefsOf(fields, pg)) == ColumnSet(fields)
    ensures DistinctNames(DefsOf(fields, pg)) <==> DistinctColumns(fields)
  {
    hide KindOf, DefaultOf;
    var defs := DefsOf(fields, pg);
    assert forall i :: 0 <= i < |fields| ==> defs[i].name == fields[i].column;
    forall c
      ensures c in NamesOf(defs) <==> c in ColumnSet(fields)
    {
      if c in ColumnSet(fields) {
        var i :| 0 <= i < |fields| && fields[i].column == c;
        assert defs[i] in defs;
      }
    }
  }

  lemma {:induction false} DefsReferences(fields: seq<MigField>, pg: bool)
    ensures References(DefsOf(fields, pg)) == RefsOf(fields)
  {
    hide KindOf, DefaultOf;
    if fields != [] {
      var n := |fields| - 1;
      DefsReferences(fields[..n], pg);
      assert DefsOf(fields, pg)[..n] == DefsOf(fields[..n], pg);
    }
  }

  lemma GoodReferences(db: Db, table: string, fields: seq<MigField>, pg: bool)
    ensures (forall d :: d in DefsOf(fields, pg) && d.references.Some?
               ==> GoodReference(db, table, ColumnSet(fields), d.references.value))
      <==> (forall f :: f in fields && Refers(f) ==> CanRefer(db, f.fk, table, ColumnSet(fields)))
  {
    hide KindOf, DefaultOf;
    var defs := DefsOf(fields, pg);
    assert forall i :: 0 <= i < |fields| ==> defs[i] == DefOf(fields[i], pg) && defs[i] in defs && fields[i] in fields;
    forall f | f in fields
      ensures DefOf(f, pg) in defs
    {
      var i :| 0 <= i < |fields| && fields[i] == f;
    }
  }

  lemma PerformsTable(db: Db, table: string, fields: seq<MigField>, pg: bool)
    ensures Perform(db, CommandOf(CreateTable(table, fields), pg)) == Exec(db, CreateTable(table, fields))
  {
    hide DefsOf, ColumnSet, NamesOf, DistinctNames, DistinctColumns, References, RefsOf, GoodReference, CanRefer;
    DefsNames(fields, pg);
    DefsReferences(fields, pg);
    GoodReferences(db, table, fields, pg);
  }

  // Running what is read of a statement's text is running the statement.
  lemma TextRuns(db: Db, d: Ddl, pg: bool)
    requires Legible(d)
    ensures ReadDdl(Body(d, pg)).Some? && Perform(db, ReadDdl(Body(d, pg)).value) == Exec(db, d)
  {
    hide Legible, ReadDdl, Body, DefsOf, KindOf, DefaultOf, TriggerName, StepsOf;
    DdlReads(d, pg);
    if d.CreateTable? {
      PerformsTable(db, d.table, d.fields, pg);
    }
  }
}
