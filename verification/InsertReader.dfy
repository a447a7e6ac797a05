/** An INSERT as a database reads it, and what it stores. Main result: the statement of a chunk reads back as one
    row for each model, with one entry for each column but the primary key; a value of a hashed column is stored
    as its hash and one of an encrypted column as its ciphertext, and when either fails nothing is sent. */
module InsertReader {
  import opened GoStrings
  import opened Patterns
  import opened SqlQuotes
  import opened SqlBinding
  import QueryObject
  import opened QueryFilter
  import opened QueryLast
  import opened SqlReader
  import opened BulkInsert

  // ---------- the grammar ----------

  // A literal of the statement, or an argument
  datatype Entry = Literal(text: string) | Bound(v: Value)

  datatype Insertion = Insertion(
    table: string, columns: seq<string>, rows: seq<seq<Entry>>, returning: Option<string>)

  function ReadNames(p: seq<Piece>): (r: Option<(seq<string>, seq<Piece>)>)
    decreases |p|
  {
    var first :- ReadColumn(p);
    if Eat(first.1, ", ").None? then Some(([first.0], first.1))
    else
      var others :- ReadNames(Eat(first.1, ", ").value);
      Some(([first.0] + others.0, others.1))
  }

  // How long the entry at the front is: up to a comma or a parenthesis of the row
  function EntryLength(p: seq<Piece>, st: State): (n: nat)
    ensures n <= |p|
    decreases |p|
  {
    if p == [] || (st == Outside && (p[0] == Ch(',') || p[0] == Ch(')'))) then 0
    else if Next(st, p[0]).None? then |p|
    else 1 + EntryLength(p[1..], Next(st, p[0]).value)
  }

  function ReadEntry(p: seq<Piece>): (r: Option<(Entry, seq<Piece>)>)
    ensures r.Some? ==> |r.value.1| <= |p|
  {
    var n := EntryLength(p, Outside);
    if n == 1 && p[0].Arg? then Some((Bound(p[0].v), p[1..]))
    else if |Text(p[..n])| == n then Some((Literal(Text(p[..n])), p[n..]))
    else None
  }

  function ReadEntries(p: seq<Piece>): (r: Option<(seq<Entry>, seq<Piece>)>)
    ensures r.Some? ==> |r.value.1| <= |p|
    decreases |p|
  {
    var first :- ReadEntry(p);
    if Eat(first.1, ", ").None? then Some(([first.0], first.1))
    else
      var others :- ReadEntries(Eat(first.1, ", ").value);
      Some(([first.0] + others.0, others.1))
  }

  function ReadRows(p: seq<Piece>): (r: Option<(seq<seq<Entry>>, seq<Piece>)>)
    decreases |p|
  {
    var open :- Eat(p, "(");
    var first :- ReadEntries(open);
    var end :- Eat(first.1, ")");
    if Eat(end, ", ").None? then Some(([first.0], end))
    else
      var others :- ReadRows(Eat(end, ", ").value);
      Some(([first.0] + others.0, others.1))
  }

  function ReadReturning(p: seq<Piece>): Option<Option<string>> {
    if p == [] then Some(None)
    else
      var col :- Eat(p, " RETURNING ");
      var name :- ReadColumn(col);
      if name.1 == [] then Some(Some(name.0)) else None
  }

  function ReadInsert(p: seq<Piece>): Option<Insertion> {
    var start :- Eat(p, "INSERT INTO ");
    var table :- ReadColumn(start);
    var open :- Eat(table.1, " (");
    var columns :- ReadNames(open);
    var values :- Eat(columns.1, ") VALUES ");
    var rows :- ReadRows(values);
    var returning :- ReadReturning(rows.1);
    Some(Insertion(table.0, columns.0, rows.0, returning))
  }

  // ---------- entries ----------

  // Nothing inside ends the entry.
  predicate Compact(p: seq<Piece>, st: State)
    decreases |p|
  {
    if p == [] then st == Outside
    else
      && (st == Outside ==> p[0] != Ch(',') && p[0] != Ch(')'))
      && Next(st, p[0]).Some? && Compact(p[1..], Next(st, p[0]).value)
  }

  predicate EndsEntry(rest: seq<Piece>) { rest != [] && (rest[0] == Ch(',') || rest[0] == Ch(')')) }

  lemma {:induction false} CompactEnds(p: seq<Piece>, st: State, rest: seq<Piece>)
    requires Compact(p, st) && EndsEntry(rest)
    ensures EntryLength(p + rest, st) == |p|
    decreases |p|
  {
    hide Next;
    if p == [] {
      assert p + rest == rest;
    } else {
      assert (p + rest)[1..] == p[1..] + rest;
      CompactEnds(p[1..], Next(st, p[0]).value, rest);
    }
  }

  function EntryOf(c: Cell): Entry { match c case Default(text) => Literal(text) case Given(v) => Bound(v) }

  function EntriesOf(cells: seq<Cell>): seq<Entry> {
    seq(|cells|, i requires 0 <= i < |cells| => EntryOf(cells[i]))
  }

  ghost predicate CompactCell(c: Cell) { c.Default? ==> Compact(Chars(c.text), Outside) && c.text != "" }

  lemma EntryReads(c: Cell, rest: seq<Piece>)
    requires CompactCell(c) && EndsEntry(rest)
    ensures ReadEntry(BoundCell(c) + rest) == Some((EntryOf(c), rest))
  {
    hide Next;
    var p := BoundCell(c) + rest;
    match c {
      case Given(v) =>
        OneArgCompact(v);
        CompactEnds([Arg(v)], Outside, rest);
        assert p[1..] == rest;
      case Default(text) =>
        CompactEnds(Chars(text), Outside, rest);
        SqlReader.TextOf(text, []);
        assert Chars(text) + [] == Chars(text) && text + "" == text;
        assert p[..|text|] == Chars(text) && p[|text|..] == rest;
        assert p[0] == Ch(text[0]);
    }
  }

  lemma OneArgCompact(v: Value)
    ensures Compact([Arg(v)], Outside)
  {
    assert [Arg(v)][1..] == [];
  }

  lemma {:induction false} EntriesRead(cells: seq<Cell>, rest: seq<Piece>)
    requires cells != [] && (forall c :: c in cells ==> CompactCell(c)) && rest != [] && rest[0] == Ch(')')
    ensures ReadEntries(BoundCells(cells) + rest) == Some((EntriesOf(cells), rest))
    decreases |cells|
  {
    hide CompactCell, BoundCell, ReadEntry, Chars, Eat;
    assert cells[0] in cells;
    if |cells| == 1 {
      EntryReads(cells[0], rest);
      NoComma(rest);
      assert EntriesOf(cells) == [EntryOf(cells[0])];
    } else {
      var others := BoundCells(cells[1..]) + rest;
      assert BoundCells(cells) + rest == BoundCell(cells[0]) + (Chars(", ") + others);
      CommaEnds(others);
      EntryReads(cells[0], Chars(", ") + others);
      EatReads(", ", others);
      EntriesRead(cells[1..], rest);
      assert EntriesOf(cells) == [EntryOf(cells[0])] + EntriesOf(cells[1..]);
    }
  }

  lemma NoComma(rest: seq<Piece>)
    requires rest == [] || rest[0] == Ch(')') || rest[0] == Ch(' ')
    ensures Eat(rest, ", ") == None
  {
    EatFails(rest, ", ", 0);
  }

  lemma CommaEnds(rest: seq<Piece>)
    ensures EndsEntry(Chars(", ") + rest) && Breaks(Chars(", ") + rest)
  {
  }

  // ---------- rows ----------

  function Group(cells: seq<Cell>): seq<Piece> { Chars("(") + BoundCells(cells) + Chars(")") }

  lemma BoundRowsSnoc(rows: seq<seq<Cell>>)
    requires rows != []
    ensures var n := |rows| - 1;
      BoundRows(rows) == BoundRows(rows[..n]) + (if n > 0 then Chars(", ") else []) + Group(rows[n])
    ensures |rows| == 1 ==> BoundRows(rows) == Group(rows[0])
  {
    hide BoundCells, Chars;
    if |rows| == 1 {
      assert rows[..0] == [];
    }
  }

  lemma {:induction false} BoundRowsCons(rows: seq<seq<Cell>>)
    requires rows != []
    ensures BoundRows(rows) == Group(rows[0]) + (if |rows| > 1 then Chars(", ") + BoundRows(rows[1..]) else [])
  {
    hide BoundRows, Group, Chars;
    var n := |rows| - 1;
    BoundRowsSnoc(rows);
    if n > 0 {
      BoundRowsCons(rows[..n]);
      BoundRowsSnoc(rows[1..]);
      assert rows[..n][1..] == rows[1..][..n - 1] && rows[1..][n - 1] == rows[n];
    }
  }

  ghost predicate CompactRows(rows: seq<seq<Cell>>) {
    forall r :: r in rows ==> r != [] && forall c :: c in r ==> CompactCell(c)
  }

  function EntryRows(rows: seq<seq<Cell>>): seq<seq<Entry>> {
    seq(|rows|, i requires 0 <= i < |rows| => EntriesOf(rows[i]))
  }

  lemma {:induction false} RowsRead(rows: seq<seq<Cell>>, rest: seq<Piece>)
    requires rows != [] && CompactRows(rows) && (rest == [] || rest[0] == Ch(' '))
    ensures ReadRows(BoundRows(rows) + rest) == Some((EntryRows(rows), rest))
    decreases |rows|
  {
    hide CompactCell, BoundCells, ReadEntries, Chars, Eat, EntriesOf, BoundRows;
    assert rows[0] in rows && forall r :: r in rows[1..] ==> r in rows;
    BoundRowsCons(rows);
    var more := if |rows| > 1 then Chars(", ") + (BoundRows(rows[1..]) + rest) else rest;
    var close := Chars(")") + more;
    var open := BoundCells(rows[0]) + close;
    assert BoundRows(rows) + rest == Chars("(") + open;
    EatReads("(", open);
    FirstOf(")", more);
    EntriesRead(rows[0], close);
    EatReads(")", more);
    if |rows| > 1 {
      EatReads(", ", BoundRows(rows[1..]) + rest);
      RowsRead(rows[1..], rest);
      assert EntryRows(rows) == [EntriesOf(rows[0])] + EntryRows(rows[1..]);
    } else {
      NoComma(rest);
      assert EntryRows(rows) == [EntriesOf(rows[0])];
    }
  }

  lemma {:induction false} NamesRead(names: seq<string>, rest: seq<Piece>)
    requires names != [] && (forall n :: n in names ==> IsColumn(n)) && rest != [] && rest[0] == Ch(')')
    ensures ReadNames(Chars(Join(names, ", ")) + rest) == Some((names, rest))
    decreases |names|
  {
    hide IsColumn, ReadColumn, Eat, Chars;
    assert names[0] in names;
    if |names| == 1 {
      ColumnReads(names[0], rest);
      NoComma(rest);
      assert names == [names[0]];
    } else {
      var others := Chars(Join(names[1..], ", ")) + rest;
      CharsConcat(names[0] + ", ", Join(names[1..], ", "));
      CharsConcat(names[0], ", ");
      assert Chars(Join(names, ", ")) + rest == Chars(names[0]) + (Chars(", ") + others);
      CommaEnds(others);
      ColumnReads(names[0], Chars(", ") + others);
      EatReads(", ", others);
      NamesRead(names[1..], rest);
      assert names == [names[0]] + names[1..];
    }
  }

  // ---------- the statement ----------

  ghost predicate NamedTable(t: Table) {
    && IsColumn(TableName(t)) && Columns(t.fields) != []
    && forall f :: f in t.fields ==> IsColumn(f.column)
  }

  lemma {:induction false} ColumnsNamed(fields: seq<Field>)
    requires forall f :: f in fields ==> IsColumn(f.column)
    ensures forall n :: n in Columns(fields) ==> IsColumn(n)
  {
    hide IsColumn;
    if fields != [] {
      ColumnsNamed(fields[..|fields| - 1]);
    }
  }

  function ReturningOf(t: Table): Option<string> {
    if Returns(t) then Some(t.fields[t.pk.value].column) else None
  }

  lemma ReturningReads(t: Table)
    requires NamedTable(t)
    ensures ReadReturning(Chars(TailOf(t))) == Some(ReturningOf(t))
    ensures Chars(TailOf(t)) == [] || Chars(TailOf(t))[0] == Ch(' ')
  {
    hide IsColumn, ReadColumn, TableName, Columns;
    if Returns(t) {
      var col := t.fields[t.pk.value].column;
      CharsConcat(" RETURNING ", col);
      EatReads(" RETURNING ", Chars(col));
      ColumnReads(col, []);
      assert Chars(col) + [] == Chars(col);
      assert Chars(TailOf(t))[0] == Ch(TailOf(t)[0]);
    }
  }

  lemma NamedInsertReads(t: Table, rows: seq<seq<Cell>>)
    requires QuietTable(t) && GoodRows(rows) && NamedTable(t) && rows != [] && CompactRows(rows)
    ensures Marks(InsertText(t, rows)) == |RowsArgs(rows)|
    ensures ReadInsert(Bind(InsertText(t, rows), RowsArgs(rows)))
         == Some(Insertion(TableName(t), Columns(t.fields), EntryRows(rows), ReturningOf(t)))
  {
    hide Bind, Marks, QuietTable, GoodRows, IsColumn, CompactRows, ReadColumn, ReadNames, ReadRows, ReadReturning, Eat, Chars,
         TableName, Columns, BoundRows, EntryRows, InsertText, RowsArgs, HeadOf, TailOf, Join, ReturningOf;
    InsertMeans(t, rows);
    ColumnsNamed(t.fields);
    ReturningReads(t);
    var tail := Chars(TailOf(t));
    var values := BoundRows(rows) + tail;
    var columns := Chars(Join(Columns(t.fields), ", ")) + (Chars(") VALUES ") + values);
    var table := Chars(TableName(t)) + (Chars(" (") + columns);
    HeadPieces(t, values);
    assert Bind(InsertText(t, rows), RowsArgs(rows)) == Chars(HeadOf(t)) + values;
    EatReads("INSERT INTO ", table);
    FirstOf(" (", columns);
    ColumnReads(TableName(t), Chars(" (") + columns);
    EatReads(" (", columns);
    FirstOf(") VALUES ", values);
    NamesRead(Columns(t.fields), Chars(") VALUES ") + values);
    EatReads(") VALUES ", values);
    RowsRead(rows, tail);
  }

  lemma InsertReads(t: Table, rows: seq<seq<Cell>>)
    requires QuietTable(t) && GoodRows(rows) && NamedTable(t) && rows != [] && CompactRows(rows)
    ensures Marks(InsertText(t, rows)) == |RowsArgs(rows)|
    ensures ReadInsert(Bind(InsertText(t, rows), RowsArgs(rows)))
         == Some(Insertion(FullName(t.schema, t.name), Columns(t.fields), EntryRows(rows), ReturningOf(t)))
  {
    hide ReadInsert, Bind, Marks, QuietTable, GoodRows, NamedTable, CompactRows, TableName, FullName, InsertText, RowsArgs,
         EntryRows;
    NamedInsertReads(t, rows);
    NameIs(t);
  }

  lemma NameIs(t: Table)
    ensures TableName(t) == FullName(t.schema, t.name)
  {
  }

  lemma HeadPieces(t: Table, values: seq<Piece>)
    ensures Chars(HeadOf(t)) + values
         == Chars("INSERT INTO ")
            + (Chars(TableName(t)) + (Chars(" (") + (Chars(Join(Columns(t.fields), ", ")) + (Chars(") VALUES ") + values))))
  {
    hide Chars, TableName, Columns, Join;
    var name, list := TableName(t), Join(Columns(t.fields), ", ");
    CharsConcat("INSERT INTO " + name + " (" + list, ") VALUES ");
    CharsConcat("INSERT INTO " + name + " (", list);
    CharsConcat("INSERT INTO " + name, " (");
    CharsConcat("INSERT INTO ", name);
  }

  // ---------- defaults ----------

  lemma {:induction false} CompactWord(s: string, rest: seq<Piece>)
    requires forall i :: 0 <= i < |s| ==> s[i] != ',' && s[i] != '(' && s[i] != ')' && !IsQuote(s[i])
    requires Compact(rest, Outside)
    ensures Compact(Chars(s) + rest, Outside)
  {
    if s == "" {
      assert Chars(s) + rest == rest;
    } else {
      assert (Chars(s) + rest)[1..] == Chars(s[1..]) + rest;
      CompactWord(s[1..], rest);
    }
  }

  lemma {:induction false} CompactInside(w: string, q: char, rest: seq<Piece>)
    requires q !in w && IsQuote(q) && Compact(rest, Outside)
    ensures Compact(Chars(w) + ([Ch(q)] + rest), State(0, Some(q)))
  {
    var p := Chars(w) + ([Ch(q)] + rest);
    if w == "" {
      assert p[0] == Ch(q) && p[1..] == rest;
    } else {
      assert p[1..] == Chars(w[1..]) + ([Ch(q)] + rest);
      CompactInside(w[1..], q, rest);
    }
  }

  lemma CompactLiteral(t: string, rest: seq<Piece>)
    requires IsLiteral(t) && Compact(rest, Outside)
    ensures Compact(Chars(t) + rest, Outside)
  {
    var w := t[1..|t| - 1];
    CompactInside(w, '\'', rest);
    var p := Chars(t) + rest;
    assert p[0] == Ch('\'') && p[1..] == Chars(w) + ([Ch('\'')] + rest);
  }

  lemma CompactCall(t: string, rest: seq<Piece>)
    requires IsCall(t) && Compact(rest, Outside)
    ensures Compact(Chars(t) + rest, Outside)
  {
    hide Compact;
    var name, tail := EatName(t, false).value.0, EatName(t, false).value.1;
    assert t == name + tail;
    CharsConcat(name, tail);
    assert Chars(t) + rest == Chars(name) + (Chars(tail) + rest);
    if tail == "()" {
      CompactParens(rest);
    } else {
      assert Chars(tail) + rest == rest;
    }
    CompactWord(name, Chars(tail) + rest);
  }

  lemma CompactParens(rest: seq<Piece>)
    requires Compact(rest, Outside)
    ensures Compact(Chars("()") + rest, Outside)
  {
    var p := Chars("()") + rest;
    assert p[0] == Ch('(') && p[1] == Ch(')') && p[1..][1..] == rest;
    assert p[1..][0] == Ch(')');
  }

  lemma NumberPlain(t: string)
    requires IsNumber(t)
    ensures forall i :: 0 <= i < |t| ==> IsDigit(t[i]) || t[i] == '-' || t[i] == '.'
  {
    var u := if t != "" && t[0] == '-' then t[1..] else t;
    var d := DigitsLength(u);
    DigitsAre(u);
    if d < |u| {
      DigitsAre(u[d + 1..]);
      forall i | 0 <= i < |u|
        ensures IsDigit(u[i]) || u[i] == '.'
      {
        if i > d {
          assert u[i] == u[d + 1..][i - d - 1];
        }
      }
    }
    assert u != t ==> forall i :: 1 <= i < |t| ==> t[i] == u[i - 1];
  }

  lemma {:induction false} DigitsAre(u: string)
    ensures forall i :: 0 <= i < DigitsLength(u) ==> IsDigit(u[i])
  {
    if u != "" && IsDigit(u[0]) {
      DigitsAre(u[1..]);
    }
  }

  lemma SpacesCompact(pad: string, rest: seq<Piece>)
    requires (forall c :: c in pad ==> IsSpace(c)) && Compact(rest, Outside)
    ensures Compact(Chars(pad) + rest, Outside)
  {
    hide Compact;
    forall i | 0 <= i < |pad|
      ensures IsSpace(pad[i])
    {
      assert pad[i] in pad;
    }
    CompactWord(pad, rest);
  }

  // A valid default is one entry.
  lemma ValidDefaultIsCompact(s: string)
    requires ValidDefault(s)
    ensures Compact(Chars(s), Outside) && s != ""
  {
    hide IsNumber, IsLiteral, IsCall, Compact, TrimLeftFunc, TrimRightFunc;
    var t := TrimSpace(s);
    var left := TrimLeftPad(s);
    var right := TrimRightPad(TrimLeftFunc(s, IsSpace));
    assert s == left + (t + right);
    CharsConcat(left, t + right);
    CharsConcat(t, right);
    assert Chars(s) == Chars(left) + (Chars(t) + (Chars(right) + []));
    assert Compact([], Outside) by { NothingCompact(); }
    SpacesCompact(right, []);
    assert t != "" by { DefaultShows(t); }
    if IsLiteral(t) {
      CompactLiteral(t, Chars(right) + []);
    } else if IsNumber(t) {
      NumberPlain(t);
      CompactWord(t, Chars(right) + []);
    } else {
      CompactCall(t, Chars(right) + []);
    }
    SpacesCompact(left, Chars(t) + (Chars(right) + []));
  }

  lemma NothingCompact()
    ensures Compact([], Outside)
  {
  }

  lemma DefaultShows(t: string)
    requires IsNumber(t) || IsLiteral(t) || IsCall(t)
    ensures t != ""
  {
  }

  // ---------- what is stored ----------

  // The value a row is made of: an id generated for an empty nanoid field, else the model's own
  function ValueOf(f: Field, v: Value, id: string): Value {
    if f.nano && v == TextValue("") then TextValue(id) else v
  }

  // A text to be hashed: one that is not a hash already
  predicate Plaintext(v: Value) { v.TextValue? && !("$argon2id$" <= v.s) }

  predicate TakesDefault(f: Field, v: Value) { f.default != "" && IsZeroValue(v) }

  // Protecting the value fails, so the row cannot be stored.
  predicate Unprotectable(f: Field, v: Value, s: Secrets) {
    && !TakesDefault(f, v)
    && ((f.hash && Plaintext(v) && s.hash(v.s).None?) || (!f.hash && f.encrypt && v.TextValue? && s.encrypt(v.s).None?))
  }

  // The entry for a value: the default for a zero that has one, a hash or a ciphertext for a marked field, the
  // value itself for any other
  ghost predicate Stores(f: Field, v: Value, e: Entry, s: Secrets) {
    && (e.Literal? <==> TakesDefault(f, v)) && (e.Literal? ==> e.text == f.default)
    && (e.Bound? ==> Kept(f, v, e.v, s))
  }

  // A plaintext of a hashed column becomes its hash, a text of an encrypted one its ciphertext; else it stays.
  ghost predicate Kept(f: Field, v: Value, out: Value, s: Secrets) {
    && (f.hash && Plaintext(v) ==> s.hash(v.s).Some? && out == TextValue(s.hash(v.s).value))
    && (!f.hash && f.encrypt && v.TextValue? ==> s.encrypt(v.s).Some? && out == TextValue(s.encrypt(v.s).value))
    && (!(f.hash && Plaintext(v)) && !(!f.hash && f.encrypt && v.TextValue?) ==> out == v)
  }

  lemma CellStores(f: Field, v: Value, s: Secrets)
    ensures CellOf(f, v, s).None? <==> Unprotectable(f, v, s)
    ensures CellOf(f, v, s).Some? ==> Stores(f, v, EntryOf(CellOf(f, v, s).value), s)
  {
  }

  lemma FilledIs(f: Field, v: Value, id: string)
    requires !f.pk
    ensures Filled(f, v, id) == ValueOf(f, v, id)
  {
  }

  // Row number `num` of a chunk, made of these values: its entries, column by column
  ghost predicate RowStores(fields: seq<Field>, values: seq<Value>, num: nat, entries: seq<Entry>, s: Secrets)
    requires |fields| == |values|
  {
    && |entries| == |NonPK(fields)|
    && forall j :: 0 <= j < |entries| ==>
         var i := NonPK(fields)[j];
         i < |fields| && Stores(fields[i], ValueOf(fields[i], values[i], s.nanoId(num, i)), entries[j], s)
  }

  // Some value of the row cannot be protected.
  ghost predicate RowFails(fields: seq<Field>, values: seq<Value>, num: nat, s: Secrets)
    requires |fields| == |values|
  {
    exists i :: 0 <= i < |fields| && !fields[i].pk
             && Unprotectable(fields[i], ValueOf(fields[i], values[i], s.nanoId(num, i)), s)
  }

  lemma RowStored(fields: seq<Field>, values: seq<Value>, num: nat, s: Secrets)
    requires |fields| == |values|
    ensures var row := Row(fields, FilledRow(fields, values, num, s), s);
      && (row.None? <==> RowFails(fields, values, num, s))
      && (row.Some? ==> RowStores(fields, values, num, EntriesOf(row.value), s))
  {
    hide CellOf, Stores, Unprotectable, Filled, ValueOf, Row, FilledRow;
    var filled := FilledRow(fields, values, num, s);
    RowIsAligned(fields, filled, s);
    NonPKFacts(fields);
    forall i | 0 <= i < |fields| && !fields[i].pk
      ensures var v := ValueOf(fields[i], values[i], s.nanoId(num, i));
        && (CellOf(fields[i], filled[i], s).None? <==> Unprotectable(fields[i], v, s))
        && (CellOf(fields[i], filled[i], s).Some? ==> Stores(fields[i], v, EntryOf(CellOf(fields[i], filled[i], s).value), s))
    {
      FilledAt(fields, values, num, i, s);
      FilledIs(fields[i], values[i], s.nanoId(num, i));
      CellStores(fields[i], filled[i], s);
    }
  }

  // All the rows of a chunk
  ghost predicate ChunkStores(
    fields: seq<Field>, values: seq<seq<Value>>, start: nat, entries: seq<seq<Entry>>, s: Secrets)
    requires forall k :: 0 <= k < |values| ==> |values[k]| == |fields|
  {
    && |entries| == |values|
    && forall k :: 0 <= k < |values| ==> RowStores(fields, values[k], start + k, entries[k], s)
  }

  ghost predicate ChunkFails(fields: seq<Field>, values: seq<seq<Value>>, start: nat, s: Secrets)
    requires forall k :: 0 <= k < |values| ==> |values[k]| == |fields|
  {
    exists k :: 0 <= k < |values| && RowFails(fields, values[k], start + k, s)
  }

  lemma {:induction false} RowsStored(fields: seq<Field>, values: seq<seq<Value>>, start: nat, s: Secrets)
    requires forall k :: 0 <= k < |values| ==> |values[k]| == |fields|
    ensures var rows := Rows(fields, values, start, s);
      && (rows.None? <==> ChunkFails(fields, values, start, s))
      && (rows.Some? ==> ChunkStores(fields, values, start, EntryRows(rows.value), s))
  {
    hide Row, FilledRow, RowFails, RowStores, EntriesOf;
    if values != [] {
      var n := |values| - 1;
      var init := values[..n];
      RowsStored(fields, init, start, s);
      RowStored(fields, values[n], start + n, s);
      assert forall k :: 0 <= k < n ==> init[k] == values[k];
    }
  }

  lemma {:induction false} RowIsCompact(fields: seq<Field>, values: seq<Value>, s: Secrets)
    requires |fields| == |values| && GoodDefaults(fields) && Row(fields, values, s).Some?
    ensures forall c :: c in Row(fields, values, s).value ==> CompactCell(c)
  {
    hide Compact, ValidDefault;
    if fields != [] {
      var n := |fields| - 1;
      RowIsCompact(fields[..n], values[..n], s);
      assert fields[n] in fields;
      if fields[n].default != "" {
        ValidDefaultIsCompact(fields[n].default);
      }
    }
  }

  lemma {:induction false} RowsAreCompact(fields: seq<Field>, values: seq<seq<Value>>, start: nat, s: Secrets)
    requires GoodDefaults(fields) && Columns(fields) != [] && forall k :: 0 <= k < |values| ==> |values[k]| == |fields|
    requires Rows(fields, values, start, s).Some?
    ensures CompactRows(Rows(fields, values, start, s).value)
    ensures |Rows(fields, values, start, s).value| == |values|
  {
    hide Row, FilledRow, GoodDefaults, Columns, CompactCell;
    if values != [] {
      var n := |values| - 1;
      var filled := FilledRow(fields, values[n], start + n, s);
      RowsAreCompact(fields, values[..n], start, s);
      RowIsCompact(fields, filled, s);
      RowIsAligned(fields, filled, s);
      ColumnsAligned(fields);
    }
  }

  // What the server makes of a statement
  function Received(driver: string, insert: Insert): Option<Insertion> {
    if IsPG(driver) then ReadInsert(ServerBind(insert.sql, insert.args))
    else if Marks(insert.sql) == |insert.args| then ReadInsert(Bind(insert.sql, insert.args))
    else None
  }

  // Main result. No statement is sent for a chunk exactly when some value of it cannot be protected. The
  // statement that is sent is received as one row for each model, in order, each column holding what its field
  // asks for; on PostgreSQL provided that no default that is printed has a question mark.
  lemma ChunkStored(t: Table, values: seq<seq<Value>>, start: nat, s: Secrets)
    requires QuietTable(t) && NamedTable(t) && GoodDefaults(t.fields) && values != []
    requires forall k :: 0 <= k < |values| ==> |values[k]| == |t.fields|
    ensures ChunkInsert(t, values, start, s).None? <==> ChunkFails(t.fields, values, start, s)
    ensures ChunkInsert(t, values, start, s).Some? ==>
      (IsPG(t.driver) ==> PlainDefaults(Rows(t.fields, values, start, s).value)) ==>
        var got := Received(t.driver, ChunkInsert(t, values, start, s).value);
        && got.Some? && got.value.table == FullName(t.schema, t.name) && got.value.columns == Columns(t.fields)
        && got.value.returning == ReturningOf(t)
        && ChunkStores(t.fields, values, start, got.value.rows, s)
  {
    hide Rows, QuietTable, NamedTable, GoodDefaults, GoodRows, CompactRows, ChunkStores, ChunkFails, ReadInsert, Bind,
         ServerBind, Marks, InsertText, RowsArgs, PlainDefaults, EntryRows, TableName, Columns, ReturningOf;
    RowsStored(t.fields, values, start, s);
    if Rows(t.fields, values, start, s).Some? {
      var rows := Rows(t.fields, values, start, s).value;
      assert Columns(t.fields) != [] by { HasColumns(t); }
      RowsAreGood(t.fields, values, start, s);
      RowsAreCompact(t.fields, values, start, s);
      InsertAlignedIff(t, rows);
      InsertReads(t, rows);
    }
  }

  lemma HasColumns(t: Table)
    requires NamedTable(t)
    ensures Columns(t.fields) != []
  {
  }

  // ---------- UPDATE ----------

  // The field of a column: the last one declared with that name
  function FieldNamed(fields: seq<Field>, col: string): Option<Field> {
    if fields == [] then None
    else if fields[|fields| - 1].column == col then Some(fields[|fields| - 1])
    else FieldNamed(fields[..|fields| - 1], col)
  }

  // What Update does to a value of a known column
  function Protector(fields: seq<Field>, s: Secrets): (string, Value) -> Option<Value> {
    (col, v) => if FieldNamed(fields, col).Some? then Protected(FieldNamed(fields, col).value, v, s) else Some(v)
  }

  // An UPDATE stores hashes and ciphertexts too, and stores nothing when one of its values cannot be protected.
  lemma {:induction false} UpdateKeeps(fields: seq<Field>, keys: seq<string>, values: map<string, Value>, s: Secrets)
    requires forall k :: k in keys ==> k in values && FieldNamed(fields, k).Some?
    ensures QueryObject.Stored(keys, values, Protector(fields, s)) <==>
      forall k :: k in keys ==> !Unprotectable(FieldNamed(fields, k).value.(default := ""), values[k], s)
    ensures QueryObject.Stored(keys, values, Protector(fields, s)) ==>
      forall i :: 0 <= i < |keys| ==>
        Kept(FieldNamed(fields, keys[i]).value, values[keys[i]], QueryObject.StoredValues(keys, values, Protector(fields, s))[i], s)
  {
    hide FieldNamed;
    if keys != [] {
      var n := |keys| - 1;
      UpdateKeeps(fields, keys[..n], values, s);
      assert keys == keys[..n] + [keys[n]];
    }
  }
}
