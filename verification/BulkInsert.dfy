/** Bulk insertion in chunks. Main results: the chunks are the models in order, at most 500 at a time; every
    row of a statement has one entry for each column but the primary key, in column order, bound to that
    model's value; the statement reaches the server as meant except on PostgreSQL when a printed default has a
    question mark; and on PostgreSQL the i-th id that comes back lands in the i-th model. */
module BulkInsert {
  import opened GoStrings
  import opened Patterns
  import opened SqlQuotes
  import opened SqlBinding
  import opened QueryBuilder
  import opened QueryServer

  const ChunkSize := 500

  datatype Field = Field(column: string, pk: bool, default: string, nano: bool, hash: bool, encrypt: bool)

  // What the environment supplies: random ids by model and field number, and hashing and encryption that may fail
  datatype Secrets = Secrets(nanoId: (nat, nat) -> string, hash: string -> Option<string>, encrypt: string -> Option<string>)

  datatype Table = Table(driver: string, schema: string, name: string, fields: seq<Field>, pk: Option<nat>)

  // One entry of a VALUES row
  datatype Cell = Default(text: string) | Given(v: Value)

  // ---------- one value ----------

  function Filled(f: Field, v: Value, id: string): Value {
    if !f.pk && f.nano && v == TextValue("") then TextValue(id) else v
  }

  function Protected(f: Field, v: Value, s: Secrets): Option<Value> {
    if f.hash then
      if v.TextValue? && !HasPrefix(v.s, "$argon2id$") then
        var h :- s.hash(v.s);
        Some(TextValue(h))
      else Some(v)
    else if f.encrypt && v.TextValue? then
      var e :- s.encrypt(v.s);
      Some(TextValue(e))
    else Some(v)
  }

  // A field's entry: its default where it has one and the value counts as zero, else the value
  function CellOf(f: Field, v: Value, s: Secrets): Option<Cell> {
    if f.default != "" && IsZeroValue(v) then Some(Default(f.default))
    else
      var p :- Protected(f, v, s);
      Some(Given(p))
  }

  // ---------- one row ----------

  // The entries of a row, None where a value cannot be protected
  function Row(fields: seq<Field>, values: seq<Value>, s: Secrets): Option<seq<Cell>>
    requires |fields| == |values|
  {
    if fields == [] then Some([])
    else
      var n := |fields| - 1;
      var before :- Row(fields[..n], values[..n], s);
      if fields[n].pk then Some(before)
      else
        var cell :- CellOf(fields[n], values[n], s);
        Some(before + [cell])
  }

  function FilledRow(fields: seq<Field>, values: seq<Value>, num: nat, s: Secrets): (out: seq<Value>)
    requires |fields| == |values|
    ensures |out| == |values|
  {
    seq(|fields|, i requires 0 <= i < |fields| => Filled(fields[i], values[i], s.nanoId(num, i)))
  }

  // nonPKCols, by field number
  function NonPK(fields: seq<Field>): seq<nat> {
    if fields == [] then []
    else
      var n := |fields| - 1;
      NonPK(fields[..n]) + (if fields[n].pk then [] else [n])
  }

  function Columns(fields: seq<Field>): seq<string> {
    if fields == [] then []
    else
      var n := |fields| - 1;
      Columns(fields[..n]) + (if fields[n].pk then [] else [fields[n].column])
  }

  function TextOf(c: Cell): string { match c case Default(text) => text case Given(_) => "?" }

  function Texts(cells: seq<Cell>): seq<string> { seq(|cells|, i requires 0 <= i < |cells| => TextOf(cells[i])) }

  function Args(cells: seq<Cell>): seq<Value> {
    if cells == [] then []
    else
      var n := |cells| - 1;
      Args(cells[..n]) + (if cells[n].Given? then [cells[n].v] else [])
  }

  function RowText(cells: seq<Cell>): string { "(" + Join(Texts(cells), ", ") + ")" }

  lemma {:induction false} NonPKFacts(fields: seq<Field>)
    ensures forall j :: 0 <= j < |NonPK(fields)| ==> NonPK(fields)[j] < |fields| && !fields[NonPK(fields)[j]].pk
    ensures forall i, j :: 0 <= i < j < |NonPK(fields)| ==> NonPK(fields)[i] < NonPK(fields)[j]
  {
    if fields != [] {
      NonPKFacts(fields[..|fields| - 1]);
    }
  }

  lemma {:induction false} NonPKComplete(fields: seq<Field>, i: nat)
    requires i < |fields| && !fields[i].pk
    ensures i in NonPK(fields)
  {
    if i < |fields| - 1 {
      NonPKComplete(fields[..|fields| - 1], i);
    }
  }

  lemma {:induction false} ColumnsAligned(fields: seq<Field>)
    ensures |Columns(fields)| == |NonPK(fields)|
    ensures forall j :: 0 <= j < |NonPK(fields)| ==>
      NonPK(fields)[j] < |fields| && Columns(fields)[j] == fields[NonPK(fields)[j]].column
  {
    if fields != [] {
      ColumnsAligned(fields[..|fields| - 1]);
    }
  }

  // A row has one entry for each column that is not the primary key, in column order.
  lemma {:induction false} RowIsAligned(fields: seq<Field>, values: seq<Value>, s: Secrets)
    requires |fields| == |values|
    ensures Row(fields, values, s).Some? <==>
      forall i :: 0 <= i < |fields| && !fields[i].pk ==> CellOf(fields[i], values[i], s).Some?
    ensures Row(fields, values, s).Some? ==> |Row(fields, values, s).value| == |NonPK(fields)|
    ensures Row(fields, values, s).Some? ==> forall j :: 0 <= j < |NonPK(fields)| ==> (
      var i := NonPK(fields)[j];
      i < |fields| && CellOf(fields[i], values[i], s) == Some(Row(fields, values, s).value[j]))
  {
    hide CellOf;
    if fields != [] {
      var n := |fields| - 1;
      RowIsAligned(fields[..n], values[..n], s);
      NonPKFacts(fields[..n]);
      assert forall i :: 0 <= i < n ==> fields[..n][i] == fields[i] && values[..n][i] == values[i];
    }
  }

  // ---------- one statement ----------

  // The rows of a chunk, printed
  function RowsText(rows: seq<seq<Cell>>): string {
    if rows == [] then ""
    else
      var n := |rows| - 1;
      RowsText(rows[..n]) + (if n > 0 then ", " else "") + RowText(rows[n])
  }

  function RowsArgs(rows: seq<seq<Cell>>): seq<Value> {
    if rows == [] then [] else RowsArgs(rows[..|rows| - 1]) + Args(rows[|rows| - 1])
  }

  function TableName(t: Table): string { if t.schema != "" then t.schema + "." + t.name else t.name }

  function HeadOf(t: Table): string {
    "INSERT INTO " + TableName(t) + " (" + Join(Columns(t.fields), ", ") + ") VALUES "
  }

  predicate Returns(t: Table) { IsPG(t.driver) && t.pk.Some? && t.pk.value < |t.fields| }

  function TailOf(t: Table): string { if Returns(t) then " RETURNING " + t.fields[t.pk.value].column else "" }

  function InsertText(t: Table, rows: seq<seq<Cell>>): string { HeadOf(t) + RowsText(rows) + TailOf(t) }

  // ---------- what a statement means ----------

  function BoundCell(c: Cell): seq<Piece> { match c case Default(text) => Chars(text) case Given(v) => [Arg(v)] }

  function BoundCells(cells: seq<Cell>): seq<Piece> {
    if cells == [] then []
    else if |cells| == 1 then BoundCell(cells[0])
    else BoundCell(cells[0]) + Chars(", ") + BoundCells(cells[1..])
  }

  function BoundRows(rows: seq<seq<Cell>>): seq<Piece> {
    if rows == [] then []
    else
      var n := |rows| - 1;
      BoundRows(rows[..n]) + (if n > 0 then Chars(", ") else []) + (Chars("(") + BoundCells(rows[n]) + Chars(")"))
  }

  lemma {:induction false} ArgsCons(cells: seq<Cell>)
    requires cells != []
    ensures Args(cells) == (if cells[0].Given? then [cells[0].v] else []) + Args(cells[1..])
  {
    var n := |cells| - 1;
    if n == 0 {
      assert cells[..0] == [] && cells[1..] == [];
    } else {
      ArgsCons(cells[..n]);
      assert cells[..n][1..] == cells[1..][..n - 1];
    }
  }

  lemma TextsCons(cells: seq<Cell>)
    requires cells != []
    ensures Texts(cells) == [TextOf(cells[0])] + Texts(cells[1..])
  {
  }

  // ---------- defaults ----------

  predicate IsNumber(t: string) {
    var u := if t != "" && t[0] == '-' then t[1..] else t;
    var d := DigitsLength(u);
    d > 0 && (d == |u| || (u[d] == '.' && d + 1 < |u| && DigitsLength(u[d + 1..]) == |u| - d - 1))
  }

  predicate IsLiteral(t: string) {
    |t| >= 2 && t[0] == '\'' && t[|t| - 1] == '\'' && '\'' !in t[1..|t| - 1]
  }

  predicate IsCall(t: string) { EatName(t, false).Some? && EatName(t, false).value.1 in {"", "()"} }

  // reDefault: a number, a quoted text, a name or a call without arguments
  predicate ValidDefault(s: string) {
    var t := TrimSpace(s);
    IsNumber(t) || IsLiteral(t) || IsCall(t)
  }

  // A default holds no placeholder, only question marks in its quotes.
  predicate Fixed(s: string) { Steady(s) && Marks(s) == 0 && QuotedMarks(s) == Count(s, '?') }

  lemma FixedConcat(a: string, b: string)
    requires Fixed(a) && Fixed(b) && Follows(b)
    ensures Fixed(a + b)
  {
    hide ServerSafe, Marks, QuotedMarks;
    SteadyConcat(a, b);
    ClosedConcat(a, b);
    CountConcat(a, b, '?');
  }

  lemma QuietIsFixed(s: string)
    requires Quiet(s)
    ensures Fixed(s)
  {
    hide Marks, QuotedMarks, Steady;
    QuietSteady(s);
    InertIsClosed(s);
    CountZero(s, '?');
  }

  lemma LiteralIsFixed(t: string)
    requires IsLiteral(t)
    ensures Fixed(t) && Follows(t)
  {
    hide Marks, QuotedMarks, Steady, Closed;
    var w := t[1..|t| - 1];
    assert t == "'" + w + "'";
    QuotedWord(w);
    QuotedSteady(w);
    CountConcat("'" + w, "'", '?');
    CountConcat("'", w, '?');
    CountZero("'", '?');
  }

  lemma {:induction false} DigitsQuiet(u: string)
    requires DigitsLength(u) == |u|
    ensures Quiet(u)
  {
    if u != "" {
      DigitsQuiet(u[1..]);
      assert u == [u[0]] + u[1..];
    }
  }

  lemma {:induction false} DigitsPrefix(u: string)
    ensures DigitsLength(u[..DigitsLength(u)]) == DigitsLength(u)
  {
    if u != "" && IsDigit(u[0]) {
      DigitsPrefix(u[1..]);
      assert u[..DigitsLength(u)][1..] == u[1..][..DigitsLength(u[1..])];
    }
  }

  lemma NumberQuiet(t: string)
    requires IsNumber(t)
    ensures Quiet(t)
  {
    hide DigitsLength;
    var u := if t != "" && t[0] == '-' then t[1..] else t;
    var d := DigitsLength(u);
    DigitsPrefix(u);
    DigitsQuiet(u[..d]);
    assert Quiet(u) by {
      if d < |u| {
        DigitsQuiet(u[d + 1..]);
        assert u == u[..d] + "." + u[d + 1..];
      } else {
        assert u[..d] == u;
      }
    }
    if u != t {
      assert t == "-" + u;
    }
  }

  lemma CallQuiet(t: string)
    requires IsCall(t)
    ensures Quiet(t)
  {
    var n := NameLength(t, false);
    assert t == t[..n] + t[n..];
    assert Quiet(t[..n]);
    assert Quiet(t[n..]);
  }

  lemma {:induction false} TrimLeftPad(s: string) returns (pad: string)
    ensures s == pad + TrimLeftFunc(s, IsSpace) && forall c :: c in pad ==> IsSpace(c)
  {
    pad := "";
    if s != "" && IsSpace(s[0]) {
      pad := TrimLeftPad(s[1..]);
      pad := [s[0]] + pad;
    }
  }

  lemma {:induction false} TrimRightPad(s: string) returns (pad: string)
    ensures s == TrimRightFunc(s, IsSpace) + pad && forall c :: c in pad ==> IsSpace(c)
  {
    pad := "";
    if s != "" && IsSpace(s[|s| - 1]) {
      pad := TrimRightPad(s[..|s| - 1]);
      pad := pad + [s[|s| - 1]];
    }
  }

  lemma ValidDefaultIsFixed(s: string)
    requires ValidDefault(s)
    ensures Fixed(s)
  {
    hide IsNumber, IsLiteral, IsCall, Fixed, TrimLeftFunc, TrimRightFunc;
    var t := TrimSpace(s);
    var left := TrimLeftPad(s);
    var right := TrimRightPad(TrimLeftFunc(s, IsSpace));
    assert Quiet(left) && Quiet(right) && Follows(right) by { SpacesQuiet(left); SpacesQuiet(right); }
    QuietIsFixed(left);
    QuietIsFixed(right);
    assert s == left + (t + right);
    if IsLiteral(t) {
      LiteralIsFixed(t);
      FixedConcat(t, right);
      assert Follows(t + right) by { LiteralStarts(t, right); }
      FixedConcat(left, t + right);
    } else {
      if IsNumber(t) {
        NumberQuiet(t);
      } else {
        CallQuiet(t);
      }
      assert Quiet(s);
      QuietIsFixed(s);
    }
  }

  lemma LiteralStarts(t: string, right: string)
    requires IsLiteral(t)
    ensures Follows(t + right)
  {
  }

  lemma SpacesQuiet(pad: string)
    requires forall c :: c in pad ==> IsSpace(c)
    ensures Quiet(pad) && Follows(pad)
  {
    assert pad != "" ==> pad[0] in pad;
  }

  // ---------- binding ----------

  ghost predicate GoodCell(c: Cell) { c.Default? ==> Fixed(c.text) }

  ghost predicate GoodCells(cells: seq<Cell>) { forall c :: c in cells ==> GoodCell(c) }

  ghost predicate GoodRows(rows: seq<seq<Cell>>) { forall i :: 0 <= i < |rows| ==> GoodCells(rows[i]) }

  // The defaults of a model are checked when its metadata is built.
  ghost predicate GoodDefaults(fields: seq<Field>) {
    forall f :: f in fields && f.default != "" ==> ValidDefault(f.default)
  }

  lemma {:induction false} RowIsGood(fields: seq<Field>, values: seq<Value>, s: Secrets)
    requires |fields| == |values| && GoodDefaults(fields) && Row(fields, values, s).Some?
    ensures GoodCells(Row(fields, values, s).value)
  {
    hide Fixed, ValidDefault;
    if fields != [] {
      var n := |fields| - 1;
      RowIsGood(fields[..n], values[..n], s);
      assert fields[n] in fields;
      if fields[n].default != "" {
        ValidDefaultIsFixed(fields[n].default);
      }
    }
  }

  lemma {:induction false} RowsAreGood(fields: seq<Field>, values: seq<seq<Value>>, start: nat, s: Secrets)
    requires GoodDefaults(fields) && forall i :: 0 <= i < |values| ==> |values[i]| == |fields|
    requires Rows(fields, values, start, s).Some?
    ensures GoodRows(Rows(fields, values, start, s).value)
  {
    hide GoodCells, GoodDefaults, Row, FilledRow;
    if values != [] {
      var n := |values| - 1;
      RowsAreGood(fields, values[..n], start, s);
      RowIsGood(fields, FilledRow(fields, values[n], start + n, s), s);
    }
  }

  lemma CellBinds(c: Cell)
    requires GoodCell(c)
    ensures Steady(TextOf(c)) && Marks(TextOf(c)) == |(if c.Given? then [c.v] else [])|
    ensures Bind(TextOf(c), if c.Given? then [c.v] else []) == BoundCell(c)
  {
    hide Steady;
    match c {
      case Default(text) => BindPlain(text, None);
      case Given(v) =>
        MarkBinds(v);
        MarkSteady();
    }
  }

  // The question marks in the quotes of the defaults
  function Strays(cells: seq<Cell>): nat {
    if cells == [] then 0
    else (if cells[0].Default? then Count(cells[0].text, '?') else 0) + Strays(cells[1..])
  }

  lemma CellStrays(c: Cell)
    requires GoodCell(c)
    ensures QuotedMarks(TextOf(c)) == (if c.Default? then Count(c.text, '?') else 0)
  {
    hide Steady;
    OneMarkCounts();
  }

  lemma {:induction false} CellsBind(cells: seq<Cell>)
    requires GoodCells(cells)
    ensures var text := Join(Texts(cells), ", ");
      Steady(text) && Marks(text) == |Args(cells)| && QuotedMarks(text) == Strays(cells)
    ensures Bind(Join(Texts(cells), ", "), Args(cells)) == BoundCells(cells)
  {
    hide Bind, Marks, Steady, QuotedMarks, BoundCell, TextOf, Count, GoodCell;
    if cells == [] {
      NothingBinds();
      NothingSteady();
    } else {
      var first := if cells[0].Given? then [cells[0].v] else [];
      ArgsCons(cells);
      TextsCons(cells);
      assert cells[0] in cells;
      CellBinds(cells[0]);
      CellStrays(cells[0]);
      CellsBind(cells[1..]);
      if |cells| > 1 {
        assert Texts(cells)[1..] == Texts(cells[1..]);
        JoinsOn(TextOf(cells[0]), first, Join(Texts(cells[1..]), ", "), Args(cells[1..]));
      } else {
        assert cells[1..] == [];
        assert Args(cells) == first && Join(Texts(cells), ", ") == TextOf(cells[0]);
      }
    }
  }

  // A comma between two bound texts
  lemma JoinsOn(a: string, x: seq<Value>, b: string, y: seq<Value>)
    requires Steady(a) && Marks(a) == |x| && Steady(b) && Marks(b) == |y|
    ensures var all := a + ", " + b;
      && Steady(all) && Marks(all) == |x + y| && QuotedMarks(all) == QuotedMarks(a) + QuotedMarks(b)
      && Bind(all, x + y) == Bind(a, x) + Chars(", ") + Bind(b, y)
  {
    hide Bind, Marks, QuotedMarks, ServerSafe;
    LinksQuiet();
    InertIsClosed(", ");
    BindBeforePlain(a, x, ", ");
    ClosedConcat(a, ", ");
    ClosedConcat(a + ", ", b);
    BindConcat(a + ", ", x, b, y);
    QuietThen(", ", b);
    assert Follows(", " + b);
    SteadyConcat(a, ", " + b);
    assert a + (", " + b) == a + ", " + b;
  }

  function AllStrays(rows: seq<seq<Cell>>): nat {
    if rows == [] then 0 else AllStrays(rows[..|rows| - 1]) + Strays(rows[|rows| - 1])
  }

  lemma GroupBinds(text: string, args: seq<Value>)
    requires Steady(text) && Marks(text) == |args|
    ensures var group := "(" + text + ")";
      && Steady(group) && Follows(group) && Marks(group) == |args| && QuotedMarks(group) == QuotedMarks(text)
      && Bind(group, args) == Chars("(") + Bind(text, args) + Chars(")")
  {
    hide Bind, Marks, QuotedMarks, ServerSafe;
    LinksQuiet();
    InertIsClosed("(");
    InertIsClosed(")");
    QuietSteady(")");
    QuietThen("(", text);
    SteadyConcat("(" + text, ")");
    ClosedConcat("(", text);
    ClosedConcat("(" + text, ")");
    BindAfterPlain("(", text, args);
    BindBeforePlain("(" + text, args, ")");
  }

  lemma {:induction false} RowsBind(rows: seq<seq<Cell>>)
    requires GoodRows(rows)
    ensures Steady(RowsText(rows)) && Marks(RowsText(rows)) == |RowsArgs(rows)|
    ensures QuotedMarks(RowsText(rows)) == AllStrays(rows)
    ensures Bind(RowsText(rows), RowsArgs(rows)) == BoundRows(rows)
  {
    hide Bind, Marks, Steady, QuotedMarks, Args, BoundCells, Strays, GoodCells, Join, Texts;
    if rows == [] {
      NothingBinds();
      NothingSteady();
    } else {
      var n := |rows| - 1;
      assert forall i :: 0 <= i < n ==> rows[..n][i] == rows[i];
      RowsBind(rows[..n]);
      CellsBind(rows[n]);
      GroupBinds(Join(Texts(rows[n]), ", "), Args(rows[n]));
      RowBinds(RowsText(rows[..n]), RowsArgs(rows[..n]), n > 0, RowText(rows[n]), Args(rows[n]));
      assert n == 0 ==> rows[..n] == [];
    }
  }

  lemma RowBinds(text: string, args: seq<Value>, linked: bool, row: string, more: seq<Value>)
    requires Steady(text) && Marks(text) == |args| && Steady(row) && Follows(row) && Marks(row) == |more|
    ensures var all := text + (if linked then ", " else "") + row;
      && Steady(all) && Marks(all) == |args + more| && QuotedMarks(all) == QuotedMarks(text) + QuotedMarks(row)
      && Bind(all, args + more)
         == Bind(text, args) + (if linked then Chars(", ") else []) + Bind(row, more)
  {
    if linked {
      hide Bind, Marks, QuotedMarks, Steady;
      JoinsOn(text, args, row, more);
    } else {
      hide Bind, Marks, QuotedMarks, ServerSafe;
      assert text + "" + row == text + row;
      SteadyConcat(text, row);
      ClosedConcat(text, row);
      BindConcat(text, args, row, more);
    }
  }

  ghost predicate QuietTable(t: Table) {
    Quiet(TableName(t)) && forall f :: f in t.fields ==> Quiet(f.column)
  }

  lemma {:induction false} ColumnsQuiet(fields: seq<Field>)
    requires forall f :: f in fields ==> Quiet(f.column)
    ensures AllQuiet(Columns(fields))
  {
    hide Quiet;
    if fields != [] {
      ColumnsQuiet(fields[..|fields| - 1]);
    }
  }

  lemma EdgesQuiet(t: Table)
    requires QuietTable(t)
    ensures Quiet(HeadOf(t)) && Quiet(TailOf(t)) && Follows(TailOf(t))
  {
    hide Quiet, TableName, Join, Columns;
    ColumnsQuiet(t.fields);
    JoinQuiet(Columns(t.fields));
    var columns := Join(Columns(t.fields), ", ");
    QuietWord("INSERT INTO ");
    QuietWord(" (");
    QuietWord(") VALUES ");
    QuietWord(" RETURNING ");
    QuietWord("");
    QuietConcat("INSERT INTO ", TableName(t));
    QuietConcat("INSERT INTO " + TableName(t), " (");
    QuietConcat("INSERT INTO " + TableName(t) + " (", columns);
    QuietConcat("INSERT INTO " + TableName(t) + " (" + columns, ") VALUES ");
    if Returns(t) {
      QuietConcat(" RETURNING ", t.fields[t.pk.value].column);
    }
  }

  // Every statement has as many placeholders as arguments, and every entry is bound to its own value.
  lemma InsertMeans(t: Table, rows: seq<seq<Cell>>)
    requires QuietTable(t) && GoodRows(rows)
    ensures Steady(InsertText(t, rows)) && Marks(InsertText(t, rows)) == |RowsArgs(rows)|
    ensures QuotedMarks(InsertText(t, rows)) == AllStrays(rows)
    ensures Bind(InsertText(t, rows), RowsArgs(rows)) == Chars(HeadOf(t)) + BoundRows(rows) + Chars(TailOf(t))
  {
    hide Bind, Marks, QuotedMarks, ServerSafe, RowsText, RowsArgs, AllStrays, HeadOf, TailOf, BoundRows, GoodRows,
         QuietTable;
    EdgesQuiet(t);
    RowsBind(rows);
    InertIsClosed(HeadOf(t));
    InertIsClosed(TailOf(t));
    QuietSteady(TailOf(t));
    QuietThen(HeadOf(t), RowsText(rows));
    SteadyConcat(HeadOf(t) + RowsText(rows), TailOf(t));
    ClosedConcat(HeadOf(t), RowsText(rows));
    ClosedConcat(HeadOf(t) + RowsText(rows), TailOf(t));
    BindAfterPlain(HeadOf(t), RowsText(rows), RowsArgs(rows));
    BindBeforePlain(HeadOf(t) + RowsText(rows), RowsArgs(rows), TailOf(t));
  }

  // No default that is printed has a question mark.
  ghost predicate PlainDefaults(rows: seq<seq<Cell>>) {
    forall i :: 0 <= i < |rows| ==> forall c :: c in rows[i] && c.Default? ==> '?' !in c.text
  }

  // The exact condition by driver: the insert reaches the server as meant always off PostgreSQL, and there if
  // and only if no default that is printed has a question mark.
  lemma InsertAlignedIff(t: Table, rows: seq<seq<Cell>>)
    requires QuietTable(t) && GoodRows(rows)
    ensures Aligned(t.driver, InsertText(t, rows), RowsArgs(rows)) <==> (IsPG(t.driver) ==> PlainDefaults(rows))
  {
    hide Marks, QuotedMarks, Closed, ServerSafe, RowsArgs, AllStrays, Aligned, GoodRows, QuietTable, PlainDefaults,
         InsertText, Bind;
    InsertMeans(t, rows);
    AlignedIff(t.driver, InsertText(t, rows), RowsArgs(rows));
    NoStraysIff(rows);
  }

  // So for the chunks of a model whose defaults are valid
  lemma ChunkAlignedIff(t: Table, values: seq<seq<Value>>, start: nat, s: Secrets)
    requires QuietTable(t) && GoodDefaults(t.fields) && forall i :: 0 <= i < |values| ==> |values[i]| == |t.fields|
    requires Rows(t.fields, values, start, s).Some?
    ensures var rows := Rows(t.fields, values, start, s).value;
      Aligned(t.driver, InsertText(t, rows), RowsArgs(rows)) <==> (IsPG(t.driver) ==> PlainDefaults(rows))
  {
    hide Rows, Aligned, QuietTable, GoodRows, InsertText, RowsArgs, PlainDefaults, GoodDefaults;
    RowsAreGood(t.fields, values, start, s);
    InsertAlignedIff(t, Rows(t.fields, values, start, s).value);
  }

  // A default 'why?' on a row: mysql and sqlite insert it as meant, PostgreSQL does not.
  lemma DefaultByDriver(t: Table, v: Value)
    requires QuietTable(t)
    ensures ValidDefault("'" + "why?" + "'")
    ensures var rows := [[Default("'" + "why?" + "'"), Given(v)]];
      Aligned(t.driver, InsertText(t, rows), RowsArgs(rows)) <==> !IsPG(t.driver)
  {
    hide Aligned, QuietTable, InsertText, RowsArgs;
    WhyIsLiteral();
    ValidDefaultIsFixed("'" + "why?" + "'");
    hide Fixed, ValidDefault;
    var rows := [[Default("'" + "why?" + "'"), Given(v)]];
    assert GoodCells(rows[0]);
    assert rows[0][0] in rows[0];
    InsertAlignedIff(t, rows);
  }

  lemma WhyIsLiteral()
    ensures var t := "'" + "why?" + "'"; ValidDefault(t) && '?' in t
  {
    var t := "'" + "why?" + "'";
    assert t[0] == '\'' && t[5] == '\'' && |t| == 6 && t[4] == '?';
    TrimFuncIdentity(t, IsSpace);
    assert t[1..5] == "why?";
  }

  lemma {:induction false} CountIsZero(s: string)
    ensures Count(s, '?') == 0 <==> '?' !in s
  {
    if s != "" {
      CountIsZero(s[1..]);
    }
  }

  lemma {:induction false} StraysIff(cells: seq<Cell>)
    ensures Strays(cells) == 0 <==> forall c :: c in cells && c.Default? ==> '?' !in c.text
  {
    hide Count;
    if cells != [] {
      StraysIff(cells[1..]);
      assert cells == [cells[0]] + cells[1..];
      if cells[0].Default? {
        CountIsZero(cells[0].text);
      }
    }
  }

  lemma {:induction false} NoStraysIff(rows: seq<seq<Cell>>)
    ensures AllStrays(rows) == 0 <==> PlainDefaults(rows)
  {
    hide Strays;
    if rows != [] {
      var n := |rows| - 1;
      NoStraysIff(rows[..n]);
      StraysIff(rows[n]);
      assert forall i :: 0 <= i < n ==> rows[..n][i] == rows[i];
    }
  }

  // ---------- the objects ----------

  // A struct the caller passes by pointer
  class Model {
    var values: seq<Value>

    constructor (values: seq<Value>)
      ensures this.values == values
    {
      this.values := values;
    }
  }

  // rowValues: the entries of a model's row, written as it goes; ids generated on the way stay in the model
  method RowValues(fields: seq<Field>, m: Model, num: nat, s: Secrets) returns (phs: seq<string>, args: seq<Value>, ok: bool)
    requires |m.values| == |fields|
    modifies m
    ensures |m.values| == |fields|
    ensures ok <==> Row(fields, FilledRow(fields, old(m.values), num, s), s).Some?
    ensures ok ==> m.values == FilledRow(fields, old(m.values), num, s)
    ensures ok ==> (
      var cells := Row(fields, m.values, s);
      cells.Some? && phs == Texts(cells.value) && args == Args(cells.value))
    ensures forall i :: 0 <= i < |fields| && fields[i].pk ==> m.values[i] == old(m.values)[i]
  {
    hide CellOf, Filled, FilledRow, Row, Mixed, Texts, Args;
    phs, args := [], [];
    ghost var was := m.values;
    ghost var end := FilledRow(fields, was, num, s);
    ghost var cells: seq<Cell> := [];
    PksKept(fields, was, num, s);
    RowNone(s);
    MixedNone(end, was);
    assert fields[..0] == [] && end[..0] == [];
    for i := 0 to |fields|
      invariant m.values == Mixed(end, was, i)
      invariant Row(fields[..i], end[..i], s) == Some(cells)
      invariant phs == Texts(cells) && args == Args(cells)
    {
      RowNext(fields, end, i, s);
      var f := fields[i];
      if !f.pk {
        FilledAt(fields, was, num, i, s);
        MixedNext(end, was, i);
        var cell, found := FieldCell(f, m, i, s.nanoId(num, i), s);
        MixedNext(end, was, i);
        if !found {
          RowFails(fields, end, i, s);
          MixedKeeps(fields, end, was, i + 1);
          return [], [], false;
        }
        phs := phs + [TextOf(cell)];
        args := args + (if cell.Given? then [cell.v] else []);
        AppendCell(cells, cell);
        cells := cells + [cell];
      }
      MixedNext(end, was, i);
    }
    assert fields[..|fields|] == fields && end[..|fields|] == end;
    assert Mixed(end, was, |fields|) == end by { MixedAll(end, was); }
    return phs, args, true;
  }

  // The values of a model whose first n fields have been filled
  function Mixed(end: seq<Value>, was: seq<Value>, n: nat): seq<Value>
    requires |end| == |was| && n <= |was|
  {
    end[..n] + was[n..]
  }

  lemma MixedNone(end: seq<Value>, was: seq<Value>)
    requires |end| == |was|
    ensures Mixed(end, was, 0) == was
  {
  }

  lemma MixedAll(end: seq<Value>, was: seq<Value>)
    requires |end| == |was|
    ensures Mixed(end, was, |was|) == end
  {
  }

  lemma MixedNext(end: seq<Value>, was: seq<Value>, i: nat)
    requires |end| == |was| && i < |was|
    ensures |Mixed(end, was, i)| == |was| && Mixed(end, was, i)[i] == was[i]
    ensures Mixed(end, was, i + 1) == Mixed(end, was, i)[i := end[i]]
    ensures end[i] == was[i] ==> Mixed(end, was, i + 1) == Mixed(end, was, i)
  {
  }

  lemma MixedKeeps(fields: seq<Field>, end: seq<Value>, was: seq<Value>, n: nat)
    requires |end| == |was| == |fields| && n <= |was|
    requires forall i :: 0 <= i < |fields| && fields[i].pk ==> end[i] == was[i]
    ensures |Mixed(end, was, n)| == |was|
    ensures forall i :: 0 <= i < |fields| && fields[i].pk ==> Mixed(end, was, n)[i] == was[i]
  {
  }

  // The loop body of rowValues for a field that is not the primary key
  method FieldCell(f: Field, m: Model, i: nat, id: string, s: Secrets) returns (cell: Cell, ok: bool)
    requires i < |m.values| && !f.pk
    modifies m
    ensures m.values == old(m.values)[i := Filled(f, old(m.values)[i], id)]
    ensures ok <==> CellOf(f, m.values[i], s).Some?
    ensures ok ==> CellOf(f, m.values[i], s) == Some(cell)
  {
    hide CellOf;
    var val := m.values[i];
    if f.nano && val == TextValue("") {
      m.values := m.values[i := TextValue(id)];
      val := TextValue(id);
    }
    cell, ok := OneCell(f, val, s);
  }

  lemma RowNone(s: Secrets)
    ensures Row([], [], s) == Some([]) && Texts([]) == [] && Args([]) == []
  {
  }

  lemma RowNext(fields: seq<Field>, values: seq<Value>, i: nat, s: Secrets)
    requires |fields| == |values| && i < |fields|
    ensures Row(fields[..i + 1], values[..i + 1], s) ==
      if Row(fields[..i], values[..i], s).None? then None
      else if fields[i].pk then Row(fields[..i], values[..i], s)
      else if CellOf(fields[i], values[i], s).None? then None
      else Some(Row(fields[..i], values[..i], s).value + [CellOf(fields[i], values[i], s).value])
  {
    hide CellOf;
    assert fields[..i + 1][..i] == fields[..i] && values[..i + 1][..i] == values[..i];
  }

  lemma FilledAt(fields: seq<Field>, was: seq<Value>, num: nat, i: nat, s: Secrets)
    requires |fields| == |was| && i < |fields|
    ensures FilledRow(fields, was, num, s)[i] == Filled(fields[i], was[i], s.nanoId(num, i))
  {
  }

  lemma AppendCell(cells: seq<Cell>, cell: Cell)
    ensures Texts(cells + [cell]) == Texts(cells) + [TextOf(cell)]
    ensures Args(cells + [cell]) == Args(cells) + (if cell.Given? then [cell.v] else [])
  {
    assert (cells + [cell])[..|cells|] == cells;
  }

  lemma PkKept(f: Field, v: Value, id: string)
    requires f.pk
    ensures Filled(f, v, id) == v
  {
  }

  lemma PksKept(fields: seq<Field>, was: seq<Value>, num: nat, s: Secrets)
    requires |fields| == |was|
    ensures forall i :: 0 <= i < |fields| && fields[i].pk ==> FilledRow(fields, was, num, s)[i] == was[i]
  {
    forall i | 0 <= i < |fields| && fields[i].pk
      ensures FilledRow(fields, was, num, s)[i] == was[i]
    {
      FilledAt(fields, was, num, i, s);
      PkKept(fields[i], was[i], s.nanoId(num, i));
    }
  }

  lemma {:induction false} RowFails(fields: seq<Field>, values: seq<Value>, i: nat, s: Secrets)
    requires |fields| == |values| && i < |fields| && !fields[i].pk && CellOf(fields[i], values[i], s).None?
    ensures Row(fields, values, s).None?
  {
    RowIsAligned(fields, values, s);
  }

  // The branch of rowValues for one field: its default, or its value protected
  method OneCell(f: Field, v: Value, s: Secrets) returns (cell: Cell, ok: bool)
    ensures ok <==> CellOf(f, v, s).Some?
    ensures ok ==> CellOf(f, v, s) == Some(cell)
  {
    if f.default != "" && IsZeroValue(v) {
      return Default(f.default), true;
    }
    var val := v;
    if f.hash {
      if v.TextValue? && !HasPrefix(v.s, "$argon2id$") {
        var hashed := s.hash(v.s);
        if hashed.None? {
          return Given(v), false;
        }
        val := TextValue(hashed.value);
      }
    } else if f.encrypt {
      if v.TextValue? {
        var enc := s.encrypt(v.s);
        if enc.None? {
          return Given(v), false;
        }
        val := TextValue(enc.value);
      }
    }
    return Given(val), true;
  }

  // ---------- one chunk ----------

  datatype Insert = Insert(sql: string, args: seq<Value>)

  ghost predicate GoodModels(fields: seq<Field>, models: seq<Model>)
    reads models
  {
    && (forall i, j :: 0 <= i < j < |models| ==> models[i] != models[j])
    && forall i :: 0 <= i < |models| ==> |models[i].values| == |fields|
  }

  ghost predicate GoodTable(t: Table) {
    t.pk.Some? ==> t.pk.value < |t.fields| && t.fields[t.pk.value].pk
  }

  function ValuesOf(models: seq<Model>): seq<seq<Value>>
    reads models
  {
    seq(|models|, i requires 0 <= i < |models| reads models => models[i].values)
  }

  // The rows of models whose values are these, the first of them being model number `start`
  function Rows(fields: seq<Field>, values: seq<seq<Value>>, start: nat, s: Secrets): Option<seq<seq<Cell>>>
    requires forall i :: 0 <= i < |values| ==> |values[i]| == |fields|
  {
    if values == [] then Some([])
    else
      var n := |values| - 1;
      var before :- Rows(fields, values[..n], start, s);
      var row :- Row(fields, FilledRow(fields, values[n], start + n, s), s);
      Some(before + [row])
  }

  // What a model holds afterwards: its values, ids generated, and the primary key that came back for it
  function Stored(t: Table, values: seq<Value>, num: nat, id: Option<Value>, s: Secrets): seq<Value>
    requires |values| == |t.fields| && GoodTable(t)
  {
    var filled := FilledRow(t.fields, values, num, s);
    if Returns(t) && id.Some? then filled[t.pk.value := id.value] else filled
  }

  function At(ids: seq<Value>, i: nat): Option<Value> { if i < |ids| then Some(ids[i]) else None }

  lemma {:induction false} RowsFail(fields: seq<Field>, values: seq<seq<Value>>, start: nat, s: Secrets, i: nat)
    requires forall k :: 0 <= k < |values| ==> |values[k]| == |fields|
    requires i < |values| && Row(fields, FilledRow(fields, values[i], start + i, s), s).None?
    ensures Rows(fields, values, start, s).None?
  {
    if i < |values| - 1 {
      RowsFail(fields, values[..|values| - 1], start, s, i);
    }
  }

  lemma RowsNext(fields: seq<Field>, values: seq<seq<Value>>, start: nat, s: Secrets, i: nat)
    requires forall k :: 0 <= k < |values| ==> |values[k]| == |fields|
    requires i < |values|
    ensures Rows(fields, values[..i + 1], start, s) ==
      if Rows(fields, values[..i], start, s).None? then None
      else if Row(fields, FilledRow(fields, values[i], start + i, s), s).None? then None
      else
        Some(Rows(fields, values[..i], start, s).value
             + [Row(fields, FilledRow(fields, values[i], start + i, s), s).value])
  {
    assert values[..i + 1][..i] == values[..i];
  }

  lemma AppendRow(rows: seq<seq<Cell>>, row: seq<Cell>)
    ensures RowsText(rows + [row]) == RowsText(rows) + (if |rows| > 0 then ", " else "") + RowText(row)
    ensures RowsArgs(rows + [row]) == RowsArgs(rows) + Args(row)
  {
    assert (rows + [row])[..|rows|] == rows;
  }

  // One row of insertChunk
  method WriteRow(fields: seq<Field>, m: Model, num: nat, s: Secrets) returns (group: string, args: seq<Value>, ok: bool)
    requires |m.values| == |fields|
    modifies m
    ensures |m.values| == |fields|
    ensures ok <==> Row(fields, FilledRow(fields, old(m.values), num, s), s).Some?
    ensures ok ==> m.values == FilledRow(fields, old(m.values), num, s)
    ensures ok ==> (
      var cells := Row(fields, m.values, s);
      cells.Some? && group == RowText(cells.value) && args == Args(cells.value))
  {
    hide Row, FilledRow, Texts, Args, Join;
    var phs, rowArgs, found := RowValues(fields, m, num, s);
    return "(" + Join(phs, ", ") + ")", rowArgs, found;
  }

  // The row loop of insertChunk
  method WriteRows(t: Table, chunk: seq<Model>, start: nat, s: Secrets, head: string)
    returns (sb: string, args: seq<Value>, ok: bool)
    requires GoodModels(t.fields, chunk)
    modifies chunk
    ensures forall i :: 0 <= i < |chunk| ==> |chunk[i].values| == |t.fields|
    ensures ok <==> Rows(t.fields, old(ValuesOf(chunk)), start, s).Some?
    ensures ok ==> (
      var rows := Rows(t.fields, old(ValuesOf(chunk)), start, s).value;
      sb == head + RowsText(rows) && args == RowsArgs(rows))
    ensures ok ==> forall i :: 0 <= i < |chunk| ==>
      chunk[i].values == FilledRow(t.fields, old(chunk[i].values), start + i, s)
  {
    hide Row, FilledRow, Texts, Args, RowText, Join, Rows, RowsText, RowsArgs;
    ghost var was := ValuesOf(chunk);
    ghost var rows: seq<seq<Cell>> := [];
    sb, args := head, [];
    assert was[..0] == [];
    NoRows(t.fields, start, s);
    for i := 0 to |chunk|
      invariant forall k :: 0 <= k < |chunk| ==> |chunk[k].values| == |t.fields|
      invariant forall k :: 0 <= k < i ==> chunk[k].values == FilledRow(t.fields, was[k], start + k, s)
      invariant forall k :: i <= k < |chunk| ==> chunk[k].values == was[k]
      invariant Rows(t.fields, was[..i], start, s) == Some(rows) && |rows| == i
      invariant sb == head + RowsText(rows) && args == RowsArgs(rows)
    {
      RowsNext(t.fields, was, start, s, i);
      var group, rowArgs, found := WriteRow(t.fields, chunk[i], start + i, s);
      if !found {
        RowsFail(t.fields, was, start, s, i);
        return sb, args, false;
      }
      ghost var row := Row(t.fields, chunk[i].values, s).value;
      AppendRow(rows, row);
      if i > 0 {
        sb := sb + ", ";
      }
      sb := sb + group;
      args := args + rowArgs;
      rows := rows + [row];
    }
    assert was[..|chunk|] == was;
    return sb, args, true;
  }

  lemma NoRows(fields: seq<Field>, start: nat, s: Secrets)
    ensures Rows(fields, [], start, s) == Some([]) && RowsText([]) == "" && RowsArgs([]) == []
  {
  }

  // The loop over the ids that came back
  method WriteBack(pk: nat, chunk: seq<Model>, ids: seq<Value>)
    requires forall i :: 0 <= i < |chunk| ==> pk < |chunk[i].values|
    requires forall i, j :: 0 <= i < j < |chunk| ==> chunk[i] != chunk[j]
    modifies chunk
    ensures forall i :: 0 <= i < |chunk| ==>
      chunk[i].values == if i < |ids| then old(chunk[i].values)[pk := ids[i]] else old(chunk[i].values)
  {
    var i := 0;
    while i < |ids| && i < |chunk|
      invariant i <= |chunk| && i <= |ids|
      invariant forall k :: 0 <= k < i ==> chunk[k].values == old(chunk[k].values)[pk := ids[k]]
      invariant forall k :: i <= k < |chunk| ==> chunk[k].values == old(chunk[k].values)
      decreases |ids| - i
    {
      chunk[i].values := chunk[i].values[pk := ids[i]];
      i := i + 1;
    }
  }

  // insertChunk; `answer` is what the database says to the statement: the ids of the rows, or an error
  method InsertChunk(t: Table, chunk: seq<Model>, start: nat, s: Secrets, answer: Insert -> Option<seq<Value>>)
    returns (sent: Option<Insert>, ok: bool)
    requires GoodModels(t.fields, chunk) && GoodTable(t)
    modifies chunk
    ensures forall i :: 0 <= i < |chunk| ==> |chunk[i].values| == |t.fields|
    ensures sent == ChunkInsert(t, old(ValuesOf(chunk)), start, s)
    ensures ok <==> sent.Some? && answer(sent.value).Some?
    ensures ok ==> forall i :: 0 <= i < |chunk| ==>
      chunk[i].values == Stored(t, old(chunk[i].values), start + i, At(answer(sent.value).value, i), s)
  {
    hide Rows, RowsText, FilledRow, HeadOf, Join, Rewritten;
    var head := HeadOf(t);
    var sb, args, found := WriteRows(t, chunk, start, s, head);
    if !found {
      return None, false;
    }
    var sql := sb + TailOf(t);
    sql := RewritePlaceholders(t.driver, sql);
    var insert := Insert(sql, args);
    var ids := answer(insert);
    if ids.None? {
      return Some(insert), false;
    }
    if Returns(t) {
      WriteBack(t.pk.value, chunk, ids.value);
    }
    return Some(insert), true;
  }

  // The statement of a chunk
  function ChunkInsert(t: Table, values: seq<seq<Value>>, start: nat, s: Secrets): Option<Insert>
    requires forall i :: 0 <= i < |values| ==> |values[i]| == |t.fields|
  {
    var rows :- Rows(t.fields, values, start, s);
    Some(Insert(Rewritten(t.driver, InsertText(t, rows)), RowsArgs(rows)))
  }

  // ---------- all chunks ----------

  function Min(a: nat, b: nat): nat { if a < b then a else b }

  // The k-th chunk
  function Chunk<T>(all: seq<T>, k: nat): seq<T> {
    if k * ChunkSize < |all| then all[k * ChunkSize..Min(k * ChunkSize + ChunkSize, |all|)] else []
  }

  function Chunks<T>(all: seq<T>, n: nat): seq<T> { if n == 0 then [] else Chunks(all, n - 1) + Chunk(all, n - 1) }

  // The chunks partition the models in order, at most 500 in each.
  lemma {:induction false} ChunksPartition<T>(all: seq<T>, n: nat)
    ensures Chunks(all, n) == all[..Min(n * 500, |all|)]
    ensures forall k :: |Chunk(all, k)| <= 500
  {
    if n > 0 {
      ChunksPartition(all, n - 1);
      NextChunk(all, (n - 1) * ChunkSize, n * ChunkSize);
    }
  }

  lemma NextChunk<T>(all: seq<T>, from: nat, end: nat)
    requires from <= end
    ensures all[..Min(from, |all|)] + (if from < |all| then all[from..Min(end, |all|)] else []) == all[..Min(end, |all|)]
  {
  }

  lemma ChunkAt<T>(all: seq<T>, i: nat)
    requires i < |all|
    ensures i % 500 < |Chunk(all, i / 500)| && Chunk(all, i / 500)[i % 500] == all[i]
  {
  }

  // The primary key that came back for model i
  function Answered(sent: seq<Insert>, answer: (nat, Insert) -> Option<seq<Value>>, i: nat): Option<Value> {
    var k := i / ChunkSize;
    if k < |sent| && answer(k, sent[k]).Some? then At(answer(k, sent[k]).value, i % ChunkSize) else None
  }

  lemma AnsweredNow(sent: seq<Insert>, insert: Insert, answer: (nat, Insert) -> Option<seq<Value>>, i: nat)
    ensures i < |sent| * ChunkSize ==> Answered(sent + [insert], answer, i) == Answered(sent, answer, i)
    ensures |sent| * ChunkSize <= i < |sent| * ChunkSize + ChunkSize && answer(|sent|, insert).Some? ==>
      Answered(sent + [insert], answer, i) == At(answer(|sent|, insert).value, i - |sent| * ChunkSize)
  {
  }

  // The loop body of createAllInto: one chunk, the rest of the models untouched
  method InsertAt(t: Table, models: seq<Model>, k: nat, s: Secrets, answer: (nat, Insert) -> Option<seq<Value>>)
    returns (insert: Option<Insert>, done: bool)
    requires GoodModels(t.fields, models) && GoodTable(t) && k * ChunkSize < |models|
    modifies models
    ensures GoodModels(t.fields, models)
    ensures insert == ChunkInsert(t, Chunk(old(ValuesOf(models)), k), k * ChunkSize, s)
    ensures done <==> insert.Some? && answer(k, insert.value).Some?
    ensures done ==> forall i :: k * ChunkSize <= i < |models| && i < k * ChunkSize + ChunkSize ==>
      models[i].values == Stored(t, old(models[i].values), i, At(answer(k, insert.value).value, i - k * ChunkSize), s)
    ensures forall i :: 0 <= i < |models| && (i < k * ChunkSize || i >= k * ChunkSize + ChunkSize) ==>
      models[i].values == old(models[i].values)
  {
    hide ChunkInsert, Stored, At;
    var start := k * ChunkSize;
    var end := Min(start + ChunkSize, |models|);
    var chunk := models[start..end];
    assert ValuesOf(chunk) == Chunk(ValuesOf(models), k);
    SliceIs(models, start, end, chunk);
    assert GoodModels(t.fields, chunk);
    insert, done := InsertChunk(t, chunk, start, s, x => answer(k, x));
    assert forall i :: start <= i < end ==> models[i] == chunk[i - start];
  }

  lemma SliceIs<T>(all: seq<T>, start: nat, end: nat, slice: seq<T>)
    requires start <= end <= |all| && slice == all[start..end]
    ensures forall i :: 0 <= i < |slice| ==> slice[i] == all[start + i]
    ensures forall i :: start <= i < end ==> all[i] == slice[i - start]
    ensures forall x :: x in slice ==> x in all
  {
  }

  // createAllInto; `answer` is what the database says to the k-th statement
  method CreateAll(t: Table, models: seq<Model>, s: Secrets, answer: (nat, Insert) -> Option<seq<Value>>)
    returns (sent: seq<Insert>, ok: bool)
    requires GoodModels(t.fields, models) && GoodTable(t)
    modifies models
    ensures forall k :: 0 <= k < |sent| ==>
      Some(sent[k]) == ChunkInsert(t, Chunk(old(ValuesOf(models)), k), k * ChunkSize, s)
    ensures ok ==> |models| <= |sent| * ChunkSize < |models| + ChunkSize
    ensures ok ==> forall k :: 0 <= k < |sent| ==> answer(k, sent[k]).Some?
    ensures ok ==> forall i :: 0 <= i < |models| ==>
      models[i].values == Stored(t, old(models[i].values), i, Answered(sent, answer, i), s)
  {
    hide ChunkInsert, Stored, Answered, Chunk;
    sent := [];
    ghost var was := ValuesOf(models);
    ChunkWidth(was, |t.fields|);
    var start := 0;
    while start < |models|
      invariant start == |sent| * ChunkSize && start < |models| + ChunkSize
      invariant GoodModels(t.fields, models)
      invariant forall k :: 0 <= k < |sent| ==> Some(sent[k]) == ChunkInsert(t, Chunk(was, k), k * ChunkSize, s)
      invariant forall k :: 0 <= k < |sent| ==> answer(k, sent[k]).Some?
      invariant forall i :: 0 <= i < |models| && i < start ==>
        models[i].values == Stored(t, was[i], i, Answered(sent, answer, i), s)
      invariant forall i :: start <= i < |models| ==> models[i].values == was[i]
      decreases |models| - start
    {
      ghost var now := ValuesOf(models);
      ChunkSame(was, now, |sent|);
      var insert, done := InsertAt(t, models, |sent|, s, answer);
      if !done {
        return sent + (if insert.Some? then [insert.value] else []), false;
      }
      forall i | 0 <= i < |models|
        ensures i < start ==> Answered(sent + [insert.value], answer, i) == Answered(sent, answer, i)
        ensures start <= i < start + ChunkSize ==>
          Answered(sent + [insert.value], answer, i) == At(answer(|sent|, insert.value).value, i - start)
      {
        AnsweredNow(sent, insert.value, answer, i);
      }
      sent := sent + [insert.value];
      start := start + ChunkSize;
    }
    return sent, true;
  }

  lemma ChunkWidth(all: seq<seq<Value>>, width: nat)
    requires forall i :: 0 <= i < |all| ==> |all[i]| == width
    ensures forall k: nat, i :: 0 <= i < |Chunk(all, k)| ==> |Chunk(all, k)[i]| == width
  {
  }

  lemma ChunkSame<T>(a: seq<T>, b: seq<T>, k: nat)
    requires |a| == |b| && forall i :: k * ChunkSize <= i < |a| ==> a[i] == b[i]
    ensures Chunk(a, k) == Chunk(b, k)
  {
  }

  // If every statement of the run was answered with one id for each of its rows, the i-th id of all answers
  // together is the one for model i.
  function AllIds(sent: seq<Insert>, answer: (nat, Insert) -> Option<seq<Value>>): seq<Value> {
    if sent == [] then []
    else
      var n := |sent| - 1;
      AllIds(sent[..n], answer) + (if answer(n, sent[n]).Some? then answer(n, sent[n]).value else [])
  }

  lemma {:induction false} IdsInOrder(sent: seq<Insert>, answer: (nat, Insert) -> Option<seq<Value>>, count: nat)
    requires count <= |sent| * ChunkSize < count + ChunkSize
    requires forall k :: 0 <= k < |sent| ==> (
      answer(k, sent[k]).Some? && |answer(k, sent[k]).value| == Min(ChunkSize, count - k * ChunkSize))
    ensures |AllIds(sent, answer)| == count
    ensures forall i :: 0 <= i < count ==> Answered(sent, answer, i) == Some(AllIds(sent, answer)[i])
  {
    hide Answered;
    if sent != [] {
      var n := |sent| - 1;
      var before := if count < n * ChunkSize then count else n * ChunkSize;
      IdsInOrder(sent[..n], answer, before);
      assert sent[..n] + [sent[n]] == sent;
      forall i | 0 <= i < count
        ensures Answered(sent, answer, i) == Some(AllIds(sent, answer)[i])
      {
        AnsweredNow(sent[..n], sent[n], answer, i);
      }
    }
  }

  // Then the i-th id lands in the i-th model, and every other field keeps what the row was made of.
  lemma StoredId(t: Table, values: seq<Value>, num: nat, id: Value, s: Secrets)
    requires |values| == |t.fields| && GoodTable(t) && Returns(t)
    ensures var out := Stored(t, values, num, Some(id), s);
      && out[t.pk.value] == id
      && Row(t.fields, out, s) == Row(t.fields, FilledRow(t.fields, values, num, s), s)
  {
    var filled := FilledRow(t.fields, values, num, s);
    RowIgnoresPk(t.fields, filled, t.pk.value, id, s);
  }

  lemma {:induction false} RowIgnoresPk(fields: seq<Field>, values: seq<Value>, pk: nat, id: Value, s: Secrets)
    requires |fields| == |values| && pk < |fields| && fields[pk].pk
    ensures Row(fields, values[pk := id], s) == Row(fields, values, s)
  {
    hide CellOf;
    var n := |fields| - 1;
    if pk < n {
      RowIgnoresPk(fields[..n], values[..n], pk, id, s);
      assert values[pk := id][..n] == values[..n][pk := id];
    } else {
      assert values[pk := id][..n] == values[..n];
    }
  }
}
