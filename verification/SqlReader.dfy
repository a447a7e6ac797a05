/** A statement as a database reads it: a SELECT, DELETE or UPDATE taken apart by the grammar of SQL alone. Main
    results: what the builder prints is read back as the query it stands for, part by part, and every typed
    condition as the comparison its call names. */
module SqlReader {
  import opened GoStrings
  import opened Patterns
  import opened SqlQuotes
  import opened SqlBinding
  import opened Identifiers
  import opened QueryBuilder
  import opened QueryFilter
  import opened QueryLast

  // ---------- words and names at the front of a text ----------

  // The characters before the first argument
  function Text(p: seq<Piece>): (s: string)
    ensures |s| <= |p|
  {
    if p == [] || p[0].Arg? then "" else [p[0].c] + Text(p[1..])
  }

  function Eat(p: seq<Piece>, word: string): (rest: Option<seq<Piece>>)
    ensures rest.Some? ==> |rest.value| == |p| - |word|
  {
    if Chars(word) <= p then Some(p[|word|..]) else None
  }

  // name or name.name
  function ReadColumn(p: seq<Piece>): (r: Option<(string, seq<Piece>)>)
    ensures r.Some? ==> |r.value.1| <= |p|
  {
    var t := Text(p);
    var rest :- AfterQualified(t);
    if |rest| > |t| then None else Some((t[..|t| - |rest|], p[|t| - |rest|..]))
  }

  function SkipBlanks(p: seq<Piece>): (rest: seq<Piece>)
    ensures |rest| <= |p|
  {
    if p != [] && p[0].Ch? && IsReSpace(p[0].c) then SkipBlanks(p[1..]) else p
  }

  lemma {:induction false} TextOf(s: string, rest: seq<Piece>)
    ensures Text(Chars(s) + rest) == s + Text(rest)
  {
    if s == "" {
      assert Chars(s) + rest == rest;
    } else {
      assert (Chars(s) + rest)[1..] == Chars(s[1..]) + rest;
      TextOf(s[1..], rest);
    }
  }

  lemma EatReads(word: string, rest: seq<Piece>)
    ensures Eat(Chars(word) + rest, word) == Some(rest)
  {
  }

  // Another character at some place
  lemma EatFails(p: seq<Piece>, word: string, i: nat)
    requires i < |word| && (i >= |p| || p[i] != Ch(word[i]))
    ensures Eat(p, word) == None
  {
    assert Chars(word)[i] == Ch(word[i]);
  }

  // What cannot continue a name
  predicate Breaks(rest: seq<Piece>) {
    rest == [] || rest[0].Arg? || (!IsWordChar(rest[0].c) && rest[0].c != '.')
  }

  lemma ColumnReads(col: string, rest: seq<Piece>)
    requires IsColumn(col) && Breaks(rest)
    ensures ReadColumn(Chars(col) + rest) == Some((col, rest))
  {
    hide IsColumn, AfterQualified;
    TextOf(col, rest);
    ColumnThen(col, Text(rest));
    var t := col + Text(rest);
    assert t[..|t| - |Text(rest)|] == col;
  }

  lemma {:induction false} BlanksSkipped(blanks: string, rest: seq<Piece>)
    requires (forall i :: 0 <= i < |blanks| ==> IsReSpace(blanks[i]))
    requires rest != [] && rest[0].Ch? && !IsReSpace(rest[0].c)
    ensures SkipBlanks(Chars(blanks) + rest) == rest
  {
    if blanks == "" {
      assert Chars(blanks) + rest == rest;
    } else {
      assert (Chars(blanks) + rest)[1..] == Chars(blanks[1..]) + rest;
      BlanksSkipped(blanks[1..], rest);
    }
  }

  // A table in a schema, or in the default one
  function FullName(schema: string, table: string): string { if schema == "" then table else schema + "." + table }

  // ---------- the grammar ----------

  datatype SelectItem = Everything | EverythingOf(table: string) | OneColumn(name: string) | One | RowCount

  datatype JoinRead = JoinRead(kind: string, table: string, left: string, right: string)

  // `order` holds the ordering terms with their arguments in place.
  datatype Selection = Selection(
    distinct: bool, items: seq<SelectItem>, table: string, joins: seq<JoinRead>, where: Option<Expr>,
    order: seq<seq<Piece>>, limit: Option<Value>, offset: Option<Value>)

  function ReadItem(p: seq<Piece>): (r: Option<(SelectItem, seq<Piece>)>)
    ensures r.Some? ==> |r.value.1| <= |p|
  {
    if Eat(p, "*").Some? then Some((Everything, Eat(p, "*").value))
    else if Eat(p, "1").Some? then Some((One, Eat(p, "1").value))
    else if Eat(p, "COUNT(*)").Some? then Some((RowCount, Eat(p, "COUNT(*)").value))
    else
      var name := EatName(Text(p), false);
      if name.Some? && Eat(p, name.value.0 + ".*").Some?
      then Some((EverythingOf(name.value.0), Eat(p, name.value.0 + ".*").value))
      else
        var col :- ReadColumn(p);
        Some((OneColumn(col.0), col.1))
  }

  function ReadItems(p: seq<Piece>): (r: Option<(seq<SelectItem>, seq<Piece>)>)
    ensures r.Some? ==> |r.value.1| <= |p|
    decreases |p|
  {
    var first :- ReadItem(p);
    if Eat(first.1, ", ").Some? then
      var others :- ReadItems(Eat(first.1, ", ").value);
      Some(([first.0] + others.0, others.1))
    else Some(([first.0], first.1))
  }

  function JoinKind(p: seq<Piece>): (r: Option<(string, seq<Piece>)>)
    ensures r.Some? ==> |r.value.1| < |p|
  {
    if Eat(p, " INNER JOIN ").Some? then Some(("INNER", Eat(p, " INNER JOIN ").value))
    else if Eat(p, " LEFT JOIN ").Some? then Some(("LEFT", Eat(p, " LEFT JOIN ").value))
    else None
  }

  function ReadJoin(p: seq<Piece>): (r: Option<(JoinRead, seq<Piece>)>)
    ensures r.Some? ==> |r.value.1| < |p|
  {
    var kind :- JoinKind(p);
    var table :- ReadColumn(kind.1);
    var on :- Eat(table.1, " ON ");
    var left :- ReadColumn(on);
    var equals :- Eat(SkipBlanks(left.1), "=");
    var right :- ReadColumn(SkipBlanks(equals));
    Some((JoinRead(kind.0, table.0, left.0, right.0), right.1))
  }

  function ReadJoins(p: seq<Piece>): (r: (seq<JoinRead>, seq<Piece>))
    ensures |r.1| <= |p|
    decreases |p|
  {
    var first := ReadJoin(p);
    if first.None? then ([], p)
    else
      var others := ReadJoins(first.value.1);
      ([first.value.0] + others.0, others.1)
  }

  function ReadWhere(p: seq<Piece>): Option<(Option<Expr>, seq<Piece>)> {
    var clauses := Eat(p, " WHERE ");
    if clauses.None? then Some((None, p))
    else
      var r :- ParseOr(clauses.value);
      Some((Some(r.0), r.1))
  }

  // A comma or a section that ends an ordering term
  predicate EndsTerm(p: seq<Piece>) { Chars(", ") <= p || Chars(" LIMIT ") <= p || Chars(" OFFSET ") <= p }

  // How long the term at the front is; commas in quotes and parentheses belong to it
  function TermLength(p: seq<Piece>, st: State): (n: nat)
    ensures n <= |p|
    decreases |p|
  {
    if p == [] || (st == Outside && EndsTerm(p)) then 0
    else if Next(st, p[0]).None? then |p|
    else 1 + TermLength(p[1..], Next(st, p[0]).value)
  }

  function ReadTerms(p: seq<Piece>): (r: (seq<seq<Piece>>, seq<Piece>))
    decreases |p|
  {
    var n := TermLength(p, Outside);
    if Eat(p[n..], ", ").Some? then
      var others := ReadTerms(Eat(p[n..], ", ").value);
      ([p[..n]] + others.0, others.1)
    else ([p[..n]], p[n..])
  }

  function ReadOrder(p: seq<Piece>): (seq<seq<Piece>>, seq<Piece>) {
    if Eat(p, " ORDER BY ").Some? then ReadTerms(Eat(p, " ORDER BY ").value) else ([], p)
  }

  // A section with one number, an argument or digits
  function ReadNumber(p: seq<Piece>, word: string): Option<(Option<Value>, seq<Piece>)> {
    var q := Eat(p, word);
    if q.None? then Some((None, p))
    else if q.value == [] then None
    else if q.value[0].Arg? then Some((Some(q.value[0].v), q.value[1..]))
    else
      var d := DigitsLength(Text(q.value));
      if d == 0 then None else Some((Some(IntValue(Number(Text(q.value)[..d]))), q.value[d..]))
  }

  function ReadSelect(p: seq<Piece>): Option<Selection> {
    var start :- Eat(p, "SELECT ");
    var distinct := Eat(start, "DISTINCT ");
    var items :- ReadItems(if distinct.Some? then distinct.value else start);
    var from :- Eat(items.1, " FROM ");
    var table :- ReadColumn(from);
    var joins := ReadJoins(table.1);
    var where :- ReadWhere(joins.1);
    var order := ReadOrder(where.1);
    var limit :- ReadNumber(order.1, " LIMIT ");
    var offset :- ReadNumber(limit.1, " OFFSET ");
    if offset.1 != [] then None
    else Some(Selection(distinct.Some?, items.0, table.0, joins.0, where.0, order.0, limit.0, offset.0))
  }

  // ---------- the list of columns ----------

  // Column names that are read as such
  ghost predicate PlainColumns(cols: seq<string>) {
    cols != ["DISTINCT"] && forall c :: c in cols ==> IsColumn(c)
  }

  function ItemsOf(cols: seq<string>): seq<SelectItem> {
    seq(|cols|, i requires 0 <= i < |cols| => OneColumn(cols[i]))
  }

  lemma NameStart(col: string)
    requires IsColumn(col)
    ensures col != "" && IsWordStart(col[0])
  {
  }

  // After a column
  predicate AfterItem(rest: seq<Piece>) { rest != [] && (rest[0] == Ch(' ') || rest[0] == Ch(',')) }

  lemma ColumnItem(col: string, rest: seq<Piece>)
    requires IsColumn(col) && AfterItem(rest)
    ensures ReadItem(Chars(col) + rest) == Some((OneColumn(col), rest))
  {
    hide IsColumn, ReadColumn;
    var p := Chars(col) + rest;
    NameStart(col);
    ColumnChars(col);
    ColumnReads(col, rest);
    assert p[0] == Ch(col[0]);
    EatFails(p, "*", 0);
    EatFails(p, "1", 0);
    NotCounted(col, rest);
    NotEverything(col, rest);
  }

  lemma NotCounted(col: string, rest: seq<Piece>)
    requires IsColumn(col) && AfterItem(rest)
    ensures Eat(Chars(col) + rest, "COUNT(*)") == None
  {
    hide IsColumn;
    var p := Chars(col) + rest;
    ColumnChars(col);
    if |col| > 5 {
      assert p[5] == Ch(col[5]);
      EatFails(p, "COUNT(*)", 5);
    } else {
      assert p[|col|] == rest[0];
      EatFails(p, "COUNT(*)", |col|);
    }
  }

  // The first name of a column is not followed by a dot and a star.
  lemma NotEverything(col: string, rest: seq<Piece>)
    requires IsColumn(col) && AfterItem(rest)
    ensures var name := EatName(Text(Chars(col) + rest), false);
      name.Some? ==> Eat(Chars(col) + rest, name.value.0 + ".*") == None
  {
    hide IsColumn;
    var p := Chars(col) + rest;
    TextOf(col, rest);
    ColumnChars(col);
    var name := EatName(Text(p), false);
    if name.Some? {
      var n := name.value.0;
      if |n| + 1 < |col| {
        assert p[|n| + 1] == Ch(col[|n| + 1]);
        EatFails(p, n + ".*", |n| + 1);
      } else {
        assert |Text(p)| > |col| ==> Text(p)[|col|] == Text(rest)[0];
        EatFails(p, n + ".*", |n|);
      }
    }
  }

  lemma {:induction false} ColumnsRead(cols: seq<string>, rest: seq<Piece>)
    requires cols != [] && (forall c :: c in cols ==> IsColumn(c)) && Chars(" ") <= rest
    ensures ReadItems(Chars(Join(cols, ", ")) + rest) == Some((ItemsOf(cols), rest))
    decreases |cols|
  {
    hide IsColumn, ReadItem;
    assert cols[0] in cols;
    if |cols| == 1 {
      ColumnItem(cols[0], rest);
      EatFails(rest, ", ", 0);
      assert ItemsOf(cols) == [OneColumn(cols[0])];
    } else {
      var others := Chars(Join(cols[1..], ", ")) + rest;
      CharsConcat(cols[0] + ", ", Join(cols[1..], ", "));
      CharsConcat(cols[0], ", ");
      assert Chars(Join(cols, ", ")) + rest == Chars(cols[0]) + (Chars(", ") + others);
      ColumnItem(cols[0], Chars(", ") + others);
      EatReads(", ", others);
      ColumnsRead(cols[1..], rest);
      assert ItemsOf(cols) == [OneColumn(cols[0])] + ItemsOf(cols[1..]);
    }
  }

  // ---------- joins ----------

  // What may follow the joins: nothing, or another section
  ghost predicate Section(rest: seq<Piece>) {
    || rest == [] || Chars(" WHERE ") <= rest || Chars(" ORDER BY ") <= rest || Chars(" LIMIT ") <= rest
    || Chars(" OFFSET ") <= rest
  }

  ghost predicate Blank(s: string) { forall i :: 0 <= i < |s| ==> IsReSpace(s[i]) }

  // A join that addJoin has accepted, in its parts
  ghost predicate IsJoin(s: string, j: JoinRead) {
    && (j.kind == "INNER" || j.kind == "LEFT") && IsColumn(j.table) && IsColumn(j.left) && IsColumn(j.right)
    && exists a, b :: Blank(a) && Blank(b) && s == JoinParts(j, a, b)
  }

  function JoinParts(j: JoinRead, a: string, b: string): string {
    j.kind + (" JOIN " + (j.table + (" ON " + (j.left + (a + ("=" + (b + j.right)))))))
  }

  lemma KindReads(kind: string, rest: seq<Piece>)
    requires kind == "INNER" || kind == "LEFT"
    ensures JoinKind(Chars(" " + kind + " JOIN ") + rest) == Some((kind, rest))
  {
    var p := Chars(" " + kind + " JOIN ") + rest;
    if kind == "INNER" {
      assert " " + kind + " JOIN " == " INNER JOIN ";
      EatReads(" INNER JOIN ", rest);
    } else {
      assert " " + kind + " JOIN " == " LEFT JOIN ";
      EatReads(" LEFT JOIN ", rest);
      assert p[1] == Ch('L');
      EatFails(p, " INNER JOIN ", 1);
    }
  }

  lemma SectionIsNoJoin(rest: seq<Piece>)
    requires Section(rest)
    ensures ReadJoin(rest) == None && Breaks(rest)
  {
    EatFailsAt(rest, " INNER JOIN ", 1);
    EatFailsAt(rest, " LEFT JOIN ", 2);
    if rest != [] {
      SectionStart(rest);
    }
  }

  lemma SectionStart(rest: seq<Piece>)
    requires Section(rest) && rest != []
    ensures |rest| > 2 && rest[0] == Ch(' ')
    ensures rest[1] == Ch('W') || (rest[1] == Ch('O') && rest[2] != Ch('N')) || (rest[1] == Ch('L') && rest[2] == Ch('I'))
  {
    var w := if Chars(" WHERE ") <= rest then " WHERE " else if Chars(" ORDER BY ") <= rest then " ORDER BY "
      else if Chars(" LIMIT ") <= rest then " LIMIT " else " OFFSET ";
    assert Chars(w) <= rest;
    assert rest[0] == Chars(w)[0] && rest[1] == Chars(w)[1] && rest[2] == Chars(w)[2];
  }

  lemma EatFailsAt(rest: seq<Piece>, word: string, i: nat)
    requires Section(rest) && ((word == " INNER JOIN " && i == 1) || (word == " LEFT JOIN " && i == 2))
    ensures Eat(rest, word) == None
  {
    if rest == [] {
      EatFails(rest, word, 0);
    } else {
      SectionStart(rest);
      if rest[1] == Ch('L') {
        EatFails(rest, word, i);
      } else {
        EatFails(rest, word, 1);
      }
    }
  }

  lemma JoinReads(s: string, j: JoinRead, rest: seq<Piece>)
    requires IsJoin(s, j) && Breaks(rest)
    ensures ReadJoin(Chars(" " + s) + rest) == Some((j, rest))
  {
    hide IsColumn, ReadColumn, JoinKind, Eat, Chars, SkipBlanks;
    var a, b :| Blank(a) && Blank(b) && s == JoinParts(j, a, b);
    var right := Chars(j.right) + rest;
    var equals := Chars("=") + (Chars(b) + right);
    var left := Chars(j.left) + (Chars(a) + equals);
    var table := Chars(j.table) + (Chars(" ON ") + left);
    JoinPieces(s, j, a, b, rest);
    KindReads(j.kind, table);
    ColumnReads(j.table, Chars(" ON ") + left) by { FirstOf(" ON ", left); }
    EatReads(" ON ", left);
    AfterLeft(a, Chars(b) + right);
    ColumnReads(j.left, Chars(a) + equals);
    BlanksSkipped(a, equals) by { FirstOf("=", Chars(b) + right); }
    EatReads("=", Chars(b) + right);
    ColumnChars(j.right);
    BlanksSkipped(b, right) by { FirstOf(j.right, rest); }
    ColumnReads(j.right, rest);
  }

  lemma FirstOf(word: string, rest: seq<Piece>)
    requires word != ""
    ensures Chars(word) + rest != [] && (Chars(word) + rest)[0] == Ch(word[0])
  {
  }

  lemma AfterLeft(a: string, rest: seq<Piece>)
    requires Blank(a)
    ensures Breaks(Chars(a) + (Chars("=") + rest))
  {
  }

  lemma JoinPieces(s: string, j: JoinRead, a: string, b: string, rest: seq<Piece>)
    requires s == JoinParts(j, a, b)
    ensures Chars(" " + s) + rest
         == Chars(" " + j.kind + " JOIN ")
            + (Chars(j.table) + (Chars(" ON ") + (Chars(j.left) + (Chars(a) + (Chars("=") + (Chars(b) + (Chars(j.right) + rest)))))))
  {
    hide Chars;
    var s1 := b + j.right;
    var s2 := "=" + s1;
    var s3 := a + s2;
    var s4 := j.left + s3;
    var s5 := " ON " + s4;
    var s6 := j.table + s5;
    assert " " + s == (" " + j.kind + " JOIN ") + s6;
    CharsConcat(" " + j.kind + " JOIN ", s6);
    CharsConcat(j.table, s5);
    CharsConcat(" ON ", s4);
    CharsConcat(j.left, s3);
    CharsConcat(a, s2);
    CharsConcat("=", s1);
    CharsConcat(b, j.right);
  }

  ghost predicate JoinsAre(joins: seq<string>, read: seq<JoinRead>) {
    |joins| == |read| && forall i :: 0 <= i < |joins| ==> IsJoin(joins[i], read[i])
  }

  lemma JoinsTextSnoc(joins: seq<string>)
    requires joins != []
    ensures var n := |joins| - 1; JoinsText(joins) == JoinsText(joins[..n]) + (" " + joins[n])
  {
  }

  lemma {:induction false} JoinsTextCons(joins: seq<string>)
    requires joins != []
    ensures JoinsText(joins) == " " + joins[0] + JoinsText(joins[1..])
  {
    hide JoinsText;
    var n := |joins| - 1;
    JoinsTextSnoc(joins);
    NoJoinsText();
    if n == 0 {
      assert joins[..0] == [] && joins[1..] == [];
    } else {
      JoinsTextCons(joins[..n]);
      JoinsTextSnoc(joins[1..]);
      assert joins[..n][1..] == joins[1..][..n - 1] && joins[1..][n - 1] == joins[n];
    }
  }

  lemma {:induction false} JoinsRead(joins: seq<string>, read: seq<JoinRead>, rest: seq<Piece>)
    requires JoinsAre(joins, read) && Section(rest)
    ensures ReadJoins(Chars(JoinsText(joins)) + rest) == (read, rest)
    ensures Breaks(Chars(JoinsText(joins)) + rest)
    decreases |joins|
  {
    hide IsJoin, ReadJoin, JoinsText, Section;
    if joins == [] {
      SectionIsNoJoin(rest);
      assert Chars(JoinsText(joins)) + rest == rest by { NoJoinsText(); }
    } else {
      var others := Chars(JoinsText(joins[1..])) + rest;
      JoinsTextCons(joins);
      CharsConcat(" " + joins[0], JoinsText(joins[1..]));
      assert Chars(JoinsText(joins)) + rest == Chars(" " + joins[0]) + others;
      JoinsRead(joins[1..], read[1..], rest);
      JoinReads(joins[0], read[0], others);
      assert read == [read[0]] + read[1..];
      FirstOf(" " + joins[0], others);
    }
  }

  lemma NoJoinsText()
    ensures JoinsText([]) == "" && Chars("") == []
  {
  }

  // ---------- ordering terms ----------

  // A term that nothing inside ends
  predicate Smooth(p: seq<Piece>, st: State)
    decreases |p|
  {
    if p == [] then st == Outside
    else
      && (st == Outside ==> p[0] != Ch(',') && (p[0] == Ch(' ') ==> |p| > 1 && p[1] != Ch('L') && p[1] != Ch('O')))
      && Next(st, p[0]).Some? && Smooth(p[1..], Next(st, p[0]).value)
  }

  lemma EndsTermStart(p: seq<Piece>)
    requires EndsTerm(p)
    ensures |p| > 1 && (p[0] == Ch(',') || (p[0] == Ch(' ') && (p[1] == Ch('L') || p[1] == Ch('O'))))
  {
    var w := if Chars(", ") <= p then ", " else if Chars(" LIMIT ") <= p then " LIMIT " else " OFFSET ";
    assert p[0] == Chars(w)[0] && p[1] == Chars(w)[1];
  }

  lemma {:induction false} SmoothEnds(p: seq<Piece>, st: State, rest: seq<Piece>)
    requires Smooth(p, st) && (rest == [] || EndsTerm(rest))
    ensures TermLength(p + rest, st) == |p|
    decreases |p|
  {
    hide EndsTerm, Next;
    if p == [] {
      assert p + rest == rest;
    } else {
      if st == Outside && EndsTerm(p + rest) {
        EndsTermStart(p + rest);
      }
      assert (p + rest)[1..] == p[1..] + rest;
      SmoothEnds(p[1..], Next(st, p[0]).value, rest);
    }
  }

  // Terms separated by commas
  function Listing(terms: seq<seq<Piece>>): seq<Piece>
    requires terms != []
  {
    if |terms| == 1 then terms[0] else terms[0] + (Chars(", ") + Listing(terms[1..]))
  }

  // Nothing, or what may follow an ordering
  ghost predicate Trailing(rest: seq<Piece>) {
    rest == [] || Chars(" LIMIT ") <= rest || Chars(" OFFSET ") <= rest
  }

  lemma TrailingIsNoComma(rest: seq<Piece>)
    requires Trailing(rest)
    ensures Eat(rest, ", ") == None && (rest == [] || EndsTerm(rest))
  {
    var w := if Chars(" LIMIT ") <= rest then " LIMIT " else " OFFSET ";
    if rest != [] {
      assert Chars(w) <= rest && rest[0] == Chars(w)[0];
    }
    EatFails(rest, ", ", 0);
  }

  lemma {:induction false} TermsRead(terms: seq<seq<Piece>>, rest: seq<Piece>)
    requires terms != [] && (forall t :: t in terms ==> Smooth(t, Outside)) && Trailing(rest)
    ensures ReadTerms(Listing(terms) + rest) == (terms, rest)
    decreases |terms|
  {
    hide Smooth, TermLength;
    assert terms[0] in terms;
    if |terms| == 1 {
      SmoothEnds(terms[0], Outside, rest);
      var p := terms[0] + rest;
      assert p[..|terms[0]|] == terms[0] && p[|terms[0]|..] == rest;
      TrailingIsNoComma(rest);
      assert terms == [terms[0]];
    } else {
      var others := Listing(terms[1..]) + rest;
      var p := terms[0] + (Chars(", ") + others);
      assert Listing(terms) + rest == p;
      SmoothEnds(terms[0], Outside, Chars(", ") + others);
      assert p[..|terms[0]|] == terms[0] && p[|terms[0]|..] == Chars(", ") + others;
      EatReads(", ", others);
      TermsRead(terms[1..], rest);
      assert terms == [terms[0]] + terms[1..];
    }
  }

  // Characters that end no term and open nothing
  predicate IsSmooth(c: char) { c != ',' && c != ' ' && !IsQuote(c) && c != '(' && c != ')' }

  lemma {:induction false} SmoothWord(s: string, rest: seq<Piece>)
    requires (forall i :: 0 <= i < |s| ==> IsSmooth(s[i])) && Smooth(rest, Outside)
    ensures Smooth(Chars(s) + rest, Outside)
  {
    if s == "" {
      assert Chars(s) + rest == rest;
    } else {
      assert (Chars(s) + rest)[1..] == Chars(s[1..]) + rest;
      SmoothWord(s[1..], rest);
    }
  }

  lemma {:induction false} SmoothBlanks(s: string, rest: seq<Piece>)
    requires Blank(s) && Smooth(rest, Outside) && rest != [] && rest[0] != Ch('L') && rest[0] != Ch('O')
    ensures Smooth(Chars(s) + rest, Outside)
  {
    if s == "" {
      assert Chars(s) + rest == rest;
    } else {
      assert (Chars(s) + rest)[1..] == Chars(s[1..]) + rest;
      SmoothBlanks(s[1..], rest);
    }
  }

  // A valid term without blanks around it
  lemma TermSmooth(t: string)
    requires ValidIdent(t) && Trimmed(t)
    ensures Smooth(Chars(t), Outside)
  {
    hide ValidIdent, IsColumn, TrimSpace, Smooth, Trimmed;
    TrimSpaceTrims(t);
    var col, blanks, word := TermParts(t);
    ColumnChars(col);
    assert Smooth([], Outside) by { NothingSmooth(); }
    if word != "" {
      WordChars(word);
      assert word[0] != 'L' && word[0] != 'O' by { WordIs(word); WordStart(word); }
      SmoothWord(word, []);
      SmoothBlanks(blanks, Chars(word) + []);
      SmoothWord(col, Chars(blanks) + (Chars(word) + []));
      CharsConcat(col + blanks, word);
      CharsConcat(col, blanks);
      assert Chars(t) == Chars(col) + (Chars(blanks) + (Chars(word) + []));
    } else {
      SmoothWord(col, []);
      assert t == col && Chars(t) == Chars(col) + [];
    }
  }

  lemma WordStart(word: string)
    requires IsWord(word)
    ensures word != "" && (UpperChar(word[0]) == 'D' || UpperChar(word[0]) == 'A')
  {
    assert |word| == |ToUpper(word)|;
    assert ToUpper(word)[0] == UpperChar(word[0]);
  }

  lemma NothingSmooth()
    ensures Smooth([], Outside)
  {
  }

  // What is in parentheses ends no term.
  lemma {:induction false} SmoothInside(c: seq<Piece>, st: State, rest: seq<Piece>)
    requires After(c, st) == Some(Outside) && Smooth(rest, Outside)
    ensures Smooth(c + ([Ch(')')] + rest), st.(depth := st.depth + 1))
    decreases |c|
  {
    var deeper := st.(depth := st.depth + 1);
    var p := c + ([Ch(')')] + rest);
    if c == [] {
      assert p[0] == Ch(')') && p[1..] == rest;
    } else {
      assert p[1..] == c[1..] + ([Ch(')')] + rest);
      var next := Next(st, c[0]).value;
      assert Next(deeper, c[0]) == Some(next.(depth := next.depth + 1));
      SmoothInside(c[1..], next, rest);
    }
  }

  lemma SmoothGroup(c: seq<Piece>, rest: seq<Piece>)
    requires Balanced(c) && Smooth(rest, Outside)
    ensures Smooth(Grouped(c) + rest, Outside)
  {
    hide After;
    SmoothInside(c, Outside, rest);
    var p := Grouped(c) + rest;
    assert p[1..] == c + ([Ch(')')] + rest);
    assert Next(Outside, p[0]) == Some(State(1, None));
  }
}
