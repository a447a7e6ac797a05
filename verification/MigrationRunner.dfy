/** Running a migration file: it is divided at its "-- down" line, and a section is executed by
    cutting it at every semicolon. Main result: on a generated file, what is executed is the intended
    statements in order, exactly when the file holds no trigger. */
module MigrationRunner {
  import opened GoStrings
  import opened MigrationSchema
  import opened MigrationParse

  // ---------- SplitMigration ----------

  predicate IsSeparator(line: string) { TrimSpace(ToLower(line)) == "-- down" }

  // The lines before the first separator
  function LinesBefore(lines: seq<string>): seq<string> {
    if lines == [] || IsSeparator(lines[0]) then [] else [lines[0]] + LinesBefore(lines[1..])
  }

  function WithoutSeparators(lines: seq<string>): seq<string> {
    if lines == [] then []
    else (if IsSeparator(lines[0]) then [] else [lines[0]]) + WithoutSeparators(lines[1..])
  }

  // The lines from the first separator on, separators dropped
  function LinesAfter(lines: seq<string>): seq<string> {
    if lines == [] then []
    else if IsSeparator(lines[0]) then WithoutSeparators(lines) else LinesAfter(lines[1..])
  }

  function UpSection(content: string): string { Join(LinesBefore(Split(content, '\n')), "\n") }

  function DownSection(content: string): string { Join(LinesAfter(Split(content, '\n')), "\n") }

  method SplitMigration(content: string) returns (up: string, down: string)
    ensures up == UpSection(content) && down == DownSection(content)
  {
    hide IsSeparator;
    var lines := Split(content, '\n');
    var upLines: seq<string>, downLines: seq<string> := [], [];
    var inDown := false;
    assert lines[0..] == lines;
    for i := 0 to |lines|
      invariant if inDown then upLines == LinesBefore(lines) else upLines + LinesBefore(lines[i..]) == LinesBefore(lines)
      invariant if inDown then downLines + WithoutSeparators(lines[i..]) == LinesAfter(lines)
                else downLines == [] && LinesAfter(lines[i..]) == LinesAfter(lines)
    {
      assert lines[i..][1..] == lines[i + 1..];
      if IsSeparator(lines[i]) {
        inDown := true;
        continue;
      }
      if inDown {
        downLines := downLines + [lines[i]];
      } else {
        upLines := upLines + [lines[i]];
      }
    }
    assert lines[|lines|..] == [] && upLines + [] == upLines && downLines + [] == downLines;
    up, down := Join(upLines, "\n"), Join(downLines, "\n");
  }

  // No line but the separators is lost, and the order is kept.
  lemma {:induction false} SplitLosesNothing(lines: seq<string>)
    ensures LinesBefore(lines) + LinesAfter(lines) == WithoutSeparators(lines)
  {
    hide IsSeparator;
    if lines != [] {
      SplitLosesNothing(lines[1..]);
    }
  }

  lemma LowerKeepsSpace(c: char)
    ensures IsSpace(LowerChar(c)) <==> IsSpace(c)
  {
  }

  lemma {:induction false} LowerTrimLeft(s: string)
    ensures TrimLeftFunc(ToLower(s), IsSpace) == ToLower(TrimLeftFunc(s, IsSpace))
  {
    if s != "" {
      LowerKeepsSpace(s[0]);
      assert ToLower(s)[1..] == ToLower(s[1..]);
      LowerTrimLeft(s[1..]);
    }
  }

  lemma {:induction false} LowerTrimRight(s: string)
    ensures TrimRightFunc(ToLower(s), IsSpace) == ToLower(TrimRightFunc(s, IsSpace))
  {
    if s != "" {
      LowerKeepsSpace(s[|s| - 1]);
      assert ToLower(s)[..|s| - 1] == ToLower(s[..|s| - 1]);
      LowerTrimRight(s[..|s| - 1]);
    }
  }

  // The runner and the schema reader recognise the same separator lines.
  lemma SameSeparator(line: string)
    ensures IsSeparator(line) <==> IsDownLine(TrimSpace(line))
  {
    LowerTrimLeft(line);
    LowerTrimRight(TrimLeftFunc(line, IsSpace));
    assert ToLower("-- down") == "-- down";
  }

  lemma SeparatorLineStops(st: Scan, line: string)
    requires st.Valid() && !st.stopped
    ensures ParseLine(st, line).stopped <==> IsSeparator(line)
    ensures IsSeparator(line) ==> ParseLine(st, line).schema == st.schema
  {
    hide TableLine, OuterLine, TrimSpace, IsSeparator, ToLower;
    SameSeparator(line);
    if IsDownLine(TrimSpace(line)) {
      DownLineText(TrimSpace(line));
    }
    if TrimSpace(line) != "" && !HasPrefix(TrimSpace(line), "--") {
      OuterNeverStops(st, TrimSpace(line));
    }
  }

  lemma DownLineText(trim: string)
    requires IsDownLine(trim)
    ensures HasPrefix(trim, "--") && trim != ""
  {
    assert |ToLower(trim)| == |trim|;
    assert ToLower("-- down") == "-- down";
    assert ToLower(trim)[0] == '-' && ToLower(trim)[1] == '-';
    assert LowerChar(trim[0]) == '-' && LowerChar(trim[1]) == '-';
    assert trim[..2] == "--";
  }

  lemma OuterNeverStops(st: Scan, trim: string)
    requires st.Valid() && !st.stopped
    ensures st.inTable != "" ==> !TableLine(st, trim).stopped
    ensures !OuterLine(st, trim).stopped
  {
    hide MatchAlter, FieldsFunc, ToUpper, ToLower, ColumnOfLine;
    assert |ToUpper(trim)| == |trim| by { UpperLength(trim); }
  }

  lemma {:induction false} ReaderStopsThere(st: Scan, lines: seq<string>)
    requires st.Valid() && !st.stopped
    ensures ParseLines(st, lines).schema == ParseLines(st, LinesBefore(lines)).schema
    decreases |lines|
  {
    hide ParseLine, IsSeparator;
    if lines != [] {
      SeparatorLineStops(st, lines[0]);
      if IsSeparator(lines[0]) {
        StoppedStays(ParseLine(st, lines[0]), lines[1..]);
      } else {
        ReaderStopsThere(ParseLine(st, lines[0]), lines[1..]);
        assert LinesBefore(lines)[1..] == LinesBefore(lines[1..]);
      }
    }
  }

  lemma {:induction false} LinesBeforeMembers(lines: seq<string>)
    ensures forall l :: l in LinesBefore(lines) ==> l in lines
  {
    if lines != [] {
      LinesBeforeMembers(lines[1..]);
    }
  }

  // The schema reader learns from a file exactly what its up section declares.
  lemma ReaderSeesUpSection(schema: Schema, content: string)
    ensures ParseFile(schema, content) == ParseFile(schema, UpSection(content))
  {
    hide ParseLine;
    var lines := Split(content, '\n');
    var st := Scan(schema, "", false);
    ReaderStopsThere(st, lines);
    var before := LinesBefore(lines);
    if before == [] {
      ParseLinesOne(st, "");
      BlankInert(st);
    } else {
      SplitPartsLackSeparator(content, '\n');
      LinesBeforeMembers(lines);
      SplitJoin(before, '\n');
    }
  }

  // ---------- execSQL ----------

  predicate IsCommentLine(line: string) { TrimSpace(line) == "" || HasPrefix(TrimSpace(line), "--") }

  predicate IsComment(s: string) { forall line :: line in Split(s, '\n') ==> IsCommentLine(line) }

  // isComment
  method CheckComment(s: string) returns (r: bool)
    ensures r == IsComment(s)
  {
    hide IsCommentLine;
    var lines := Split(s, '\n');
    for i := 0 to |lines|
      invariant forall k :: 0 <= k < i ==> IsCommentLine(lines[k])
    {
      if !IsCommentLine(lines[i]) {
        return false;
      }
    }
    return true;
  }

  // The pieces that are sent to the database
  function Pieces(chunks: seq<string>): seq<string> {
    if chunks == [] then []
    else
      var stmt := TrimSpace(chunks[0]);
      (if stmt == "" || IsComment(stmt) then [] else [stmt]) + Pieces(chunks[1..])
  }

  function ToExecute(content: string): seq<string> { Pieces(Split(content, ';')) }

  // A database connection that records what it is sent; `rejects` tells which statements fail.
  class Connection {
    const rejects: string -> bool
    var log: seq<string>

    constructor (rejects: string -> bool)
      ensures this.rejects == rejects && log == []
    {
      this.rejects := rejects;
      log := [];
    }

    method Exec(stmt: string) returns (ok: bool)
      modifies this
      ensures log == old(log) + [stmt] && ok == !rejects(stmt)
    {
      log := log + [stmt];
      ok := !rejects(stmt);
    }
  }

  // What is sent before a failure stops the run
  function UntilRejected(stmts: seq<string>, rejects: string -> bool): seq<string> {
    if stmts == [] then []
    else if rejects(stmts[0]) then [stmts[0]]
    else [stmts[0]] + UntilRejected(stmts[1..], rejects)
  }

  lemma {:induction false} AcceptedGoOn(sent: seq<string>, rest: seq<string>, rejects: string -> bool)
    requires forall s :: s in sent ==> !rejects(s)
    ensures UntilRejected(sent + rest, rejects) == sent + UntilRejected(rest, rejects)
  {
    if sent == [] {
      assert sent + rest == rest;
    } else {
      assert (sent + rest)[1..] == sent[1..] + rest;
      AcceptedGoOn(sent[1..], rest, rejects);
    }
  }

  // What is sent is the beginning of the list, up to the first statement that fails, or all of it.
  lemma {:induction false} SentIff(stmts: seq<string>, rejects: string -> bool, k: nat)
    requires k < |stmts|
    ensures var sent := UntilRejected(stmts, rejects);
      && sent <= stmts
      && (k < |sent| <==> forall j :: 0 <= j < k ==> !rejects(stmts[j]))
  {
    if k > 0 && !rejects(stmts[0]) {
      SentIff(stmts[1..], rejects, k - 1);
      assert forall j :: 0 < j < |stmts| ==> stmts[1..][j - 1] == stmts[j];
    }
    SentIsPrefix(stmts, rejects);
  }

  lemma {:induction false} SentIsPrefix(stmts: seq<string>, rejects: string -> bool)
    ensures UntilRejected(stmts, rejects) <= stmts
  {
    if stmts != [] {
      SentIsPrefix(stmts[1..], rejects);
    }
  }

  // execSQL
  method ExecSql(db: Connection, content: string) returns (ok: bool)
    modifies db
    ensures db.log == old(db.log) + UntilRejected(ToExecute(content), db.rejects)
    ensures ok <==> forall s :: s in ToExecute(content) ==> !db.rejects(s)
  {
    hide TrimSpace, IsComment, UntilRejected, Pieces, Split;
    var chunks := Split(content, ';');
    ghost var all := Pieces(chunks);
    assert chunks[0..] == chunks;
    ghost var sent := [];
    for i := 0 to |chunks|
      invariant sent + Pieces(chunks[i..]) == all
      invariant forall s :: s in sent ==> !db.rejects(s)
      invariant db.log == old(db.log) + sent
    {
      ghost var rest := chunks[i..];
      assert rest[1..] == chunks[i + 1..];
      PiecesStep(rest);
      var stmt := TrimSpace(chunks[i]);
      if stmt == "" {
        continue;
      }
      var comment := CheckComment(stmt);
      if comment {
        continue;
      }
      var accepted := db.Exec(stmt);
      if !accepted {
        assert all[|sent|] == stmt;
        AcceptedGoOn(sent, Pieces(rest), db.rejects);
        RejectedStops(Pieces(rest), db.rejects);
        return false;
      }
      sent := sent + [stmt];
    }
    PiecesOfNone(chunks[|chunks|..]);
    assert sent == all;
    AcceptedGoOn(sent, [], db.rejects);
    NothingSent(db.rejects);
    ok := true;
  }

  lemma PiecesStep(chunks: seq<string>)
    requires chunks != []
    ensures var stmt := TrimSpace(chunks[0]);
      Pieces(chunks) == (if stmt == "" || IsComment(stmt) then [] else [stmt]) + Pieces(chunks[1..])
  {
  }

  lemma PiecesOfNone(chunks: seq<string>)
    requires chunks == []
    ensures Pieces(chunks) == []
  {
  }

  lemma RejectedStops(stmts: seq<string>, rejects: string -> bool)
    requires stmts != [] && rejects(stmts[0])
    ensures UntilRejected(stmts, rejects) == [stmts[0]]
  {
  }

  lemma NothingSent(rejects: string -> bool)
    ensures UntilRejected([], rejects) == []
  {
  }
}
