/** What the runner sends to the database for a generated file: each intended statement once, in order,
    possibly with comment lines in front of it, exactly when no trigger is among them. */
module MigrationExecution {
  import opened GoStrings
  import opened MigrationSql
  import opened MigrationRunner

  function Body(d: Ddl, pg: bool): string { Join(DdlLines(d, pg), "\n") }

  // Comment and blank lines, each ended
  ghost predicate IsNotes(s: string) {
    IsComment(s) && (s == "" || s[|s| - 1] == '\n')
  }

  // A piece that is a statement behind some comment lines
  ghost predicate Carries(piece: string, d: Ddl, pg: bool) {
    exists notes :: IsNotes(notes) && piece == notes + Body(d, pg)
  }

  ghost predicate CarriesAll(pieces: seq<string>, ddls: seq<Ddl>, pg: bool) {
    |pieces| == |ddls| && forall i :: 0 <= i < |pieces| ==> Carries(pieces[i], ddls[i], pg)
  }

  // A text that begins and ends visibly, and not as a comment
  ghost predicate IsStatementText(s: string) {
    s != "" && !IsSpace(s[0]) && !IsSpace(s[|s| - 1]) && s[0] != '-'
  }

  // How many pieces a statement is cut into
  function Cuts(d: Ddl): nat {
    if !d.CreateFtsTrigger? then 1 else if d.event.AfterUpdate? then 3 else 2
  }

  function TotalCuts(ddls: seq<Ddl>): nat {
    if ddls == [] then 0 else Cuts(ddls[0]) + TotalCuts(ddls[1..])
  }

  ghost predicate NoTrigger(ddls: seq<Ddl>) { forall d :: d in ddls ==> !d.CreateFtsTrigger? }

  // A block without stray semicolons
  ghost predicate Runnable(b: Block, pg: bool) {
    match b
    case Blank => true
    case Note(text) => "--" <= text && '\n' !in text && ';' !in text[..|text| - 1]
    case Stmt(d) =>
      if d.CreateFtsTrigger? then ';' !in d.shadow + d.table + d.column + d.pk && '\n' !in d.shadow + d.table
      else ';' !in Body(d, pg) && IsStatementText(Body(d, pg))
  }

  // ---------- splitting and trimming ----------

  lemma {:induction false} SplitConcat(a: string, b: string, sep: char)
    ensures Split(a + [sep] + b, sep) == Split(a, sep) + Split(b, sep)
  {
    var s := a + [sep] + b;
    if a == "" {
      assert s[0] == sep && s[1..] == b;
    } else {
      assert s[0] == a[0] && s[1..] == a[1..] + [sep] + b;
      SplitConcat(a[1..], b, sep);
    }
  }

  lemma CommentConcat(a: string, b: string)
    ensures IsComment(a + "\n" + b) <==> IsComment(a) && IsComment(b)
  {
    hide IsCommentLine, Split;
    SplitConcat(a, b, '\n');
    assert forall l :: l in Split(a, '\n') ==> l in Split(a + "\n" + b, '\n');
    assert forall l :: l in Split(b, '\n') ==> l in Split(a + "\n" + b, '\n');
  }

  lemma EmptyIsComment()
    ensures IsComment("")
  {
  }

  lemma CommentOfLine(line: string)
    requires '\n' !in line
    ensures IsComment(line) <==> IsCommentLine(line)
  {
    hide IsCommentLine;
    SplitNone(line, '\n');
    assert line in [line];
  }

  lemma {:induction false} CommentTrimLeft(s: string)
    ensures IsComment(TrimLeftFunc(s, IsSpace)) <==> IsComment(s)
  {
    if s != "" && IsSpace(s[0]) {
      CommentTrimLeft(s[1..]);
      CommentUncons(s);
    }
  }

  lemma CommentUncons(s: string)
    requires s != "" && IsSpace(s[0])
    ensures IsComment(s) <==> IsComment(s[1..])
  {
    hide IsCommentLine;
    var rest := Split(s[1..], '\n');
    if s[0] == '\n' {
      assert s == "" + "\n" + s[1..];
      CommentConcat("", s[1..]);
      EmptyIsComment();
    } else {
      var first := [s[0]] + rest[0];
      assert Split(s, '\n') == [first] + rest[1..];
      assert IsCommentLine(first) <==> IsCommentLine(rest[0]) by { SpaceBefore(s[0], rest[0]); }
      assert rest == [rest[0]] + rest[1..];
    }
  }

  lemma SpaceBefore(c: char, line: string)
    requires IsSpace(c)
    ensures IsCommentLine([c] + line) <==> IsCommentLine(line)
  {
    assert ([c] + line)[1..] == line;
  }

  lemma {:induction false} TrimLeftSnoc(line: string, c: char)
    requires IsSpace(c)
    ensures TrimSpace(line + [c]) == TrimSpace(line)
  {
    if line == "" {
      assert line + [c] == [c] && [c][1..] == "";
    } else if IsSpace(line[0]) {
      assert (line + [c])[1..] == line[1..] + [c];
      TrimLeftSnoc(line[1..], c);
    } else {
      var s := line + [c];
      assert s[|s| - 1] == c && s[..|s| - 1] == line;
    }
  }

  lemma {:induction false} SplitSnoc(s: string, c: char, sep: char)
    requires c != sep
    ensures var parts := Split(s, sep);
      Split(s + [c], sep) == parts[..|parts| - 1] + [parts[|parts| - 1] + [c]]
  {
    if s == "" {
      assert s + [c] == [c] && [c][1..] == "" && [c] + "" == [c] && "" + [c] == [c];
      assert Split([c], sep) == [[c] + ""] + [""][1..];
    } else {
      assert (s + [c])[1..] == s[1..] + [c];
      SplitSnoc(s[1..], c, sep);
      var rest, parts := Split(s[1..], sep), Split(s, sep);
      assert (s + [c])[0] == s[0];
      if s[0] == sep {
        assert parts[..|parts| - 1] == [""] + rest[..|rest| - 1];
      } else if |rest| == 1 {
        assert [s[0]] + (rest[0] + [c]) == ([s[0]] + rest[0]) + [c];
      } else {
        assert parts[..|parts| - 1] == [[s[0]] + rest[0]] + rest[1..|rest| - 1];
      }
    }
  }

  lemma CommentUnsnoc(s: string)
    requires s != "" && IsSpace(s[|s| - 1])
    ensures IsComment(s) <==> IsComment(s[..|s| - 1])
  {
    hide IsCommentLine;
    var init, c := s[..|s| - 1], s[|s| - 1];
    var parts := Split(init, '\n');
    assert s == init + [c];
    if c == '\n' {
      assert s == init + "\n" + "";
      CommentConcat(init, "");
      EmptyIsComment();
    } else {
      SplitSnoc(init, c, '\n');
      var last := parts[|parts| - 1];
      assert IsCommentLine(last + [c]) <==> IsCommentLine(last) by { SpaceAfter(last, c); }
      assert parts == parts[..|parts| - 1] + [last];
      SameEnd(parts[..|parts| - 1], last, last + [c]);
    }
  }

  lemma SameEnd(front: seq<string>, a: string, b: string)
    requires IsCommentLine(a) <==> IsCommentLine(b)
    ensures (forall l :: l in front + [a] ==> IsCommentLine(l)) <==> (forall l :: l in front + [b] ==> IsCommentLine(l))
  {
    hide IsCommentLine;
    assert a in front + [a] && b in front + [b];
    assert forall l :: l in front ==> l in front + [a] && l in front + [b];
  }

  lemma SpaceAfter(line: string, c: char)
    requires IsSpace(c)
    ensures IsCommentLine(line + [c]) <==> IsCommentLine(line)
  {
    TrimLeftSnoc(line, c);
  }

  lemma {:induction false} CommentTrimRight(s: string)
    ensures IsComment(TrimRightFunc(s, IsSpace)) <==> IsComment(s)
  {
    if s != "" && IsSpace(s[|s| - 1]) {
      CommentTrimRight(s[..|s| - 1]);
      CommentUnsnoc(s);
    }
  }

  // Trimming does not change whether a text is only comments.
  lemma CommentTrim(s: string)
    ensures IsComment(TrimSpace(s)) <==> IsComment(s)
  {
    CommentTrimLeft(s);
    CommentTrimRight(TrimLeftFunc(s, IsSpace));
  }

  // ---------- one chunk ----------

  // The first chunk is skipped when it is only comments, and sent trimmed otherwise.
  lemma FirstChunk(chunk: string, rest: string)
    requires ';' !in chunk
    ensures ToExecute(chunk + ";" + rest) == (if IsComment(chunk) then [] else [TrimSpace(chunk)]) + ToExecute(rest)
  {
    hide IsComment, TrimSpace, Split;
    SplitFirst(chunk, rest, ';');
    CommentTrim(chunk);
    EmptyIsComment();
    var chunks := Split(chunk + ";" + rest, ';');
    assert chunks[1..] == Split(rest, ';');
    PiecesStep(chunks);
  }

  lemma LastChunk(chunk: string)
    requires ';' !in chunk
    ensures ToExecute(chunk) == if IsComment(chunk) then [] else [TrimSpace(chunk)]
  {
    hide IsComment, TrimSpace, Split;
    SplitNone(chunk, ';');
    CommentTrim(chunk);
    EmptyIsComment();
    PiecesStep([chunk]);
    assert [chunk][1..] == [];
    PiecesOfNone([chunk][1..]);
  }

  lemma NotesConcat(notes: string, s: string)
    requires IsNotes(notes)
    ensures IsComment(notes + s) <==> IsComment(s)
  {
    hide IsComment;
    if notes == "" {
      assert notes + s == s;
    } else {
      var init := notes[..|notes| - 1];
      assert notes == init + "\n" + "";
      CommentConcat(init, "");
      assert notes + s == init + "\n" + s;
      CommentConcat(init, s);
    }
  }

  lemma {:induction false} TrimLeftNotes(notes: string, s: string)
    requires s != "" && !IsSpace(s[0])
    requires notes == "" || notes[|notes| - 1] == '\n'
    ensures TrimLeftFunc(notes + s, IsSpace) == TrimLeftFunc(notes, IsSpace) + s
    ensures var t := TrimLeftFunc(notes, IsSpace); t == "" || t[|t| - 1] == '\n'
  {
    if notes == "" {
      assert notes + s == s;
    } else if IsSpace(notes[0]) {
      assert (notes + s)[1..] == notes[1..] + s;
      TrimLeftNotes(notes[1..], s);
    }
  }

  lemma StatementTextIsNoComment(s: string)
    requires IsStatementText(s)
    ensures !IsComment(s)
  {
    var first := Split(s, '\n')[0];
    FirstPart(s, '\n');
    assert first[0] == s[0];
    var trim := TrimSpace(first);
    TrimKeepsFirst(first);
    assert !IsCommentLine(first);
    assert first in Split(s, '\n');
  }

  lemma FirstPart(s: string, sep: char)
    requires s != "" && s[0] != sep
    ensures var first := Split(s, sep)[0]; first != "" && first[0] == s[0]
  {
  }

  lemma {:induction false} TrimRightKeepsFirst(s: string)
    requires s != "" && !IsSpace(s[0])
    ensures var t := TrimRightFunc(s, IsSpace); t != "" && t[0] == s[0]
  {
    if IsSpace(s[|s| - 1]) {
      TrimRightKeepsFirst(s[..|s| - 1]);
    }
  }

  lemma TrimKeepsFirst(s: string)
    requires s != "" && !IsSpace(s[0])
    ensures TrimSpace(s) != "" && TrimSpace(s)[0] == s[0]
  {
    TrimRightKeepsFirst(s);
  }

  // A statement behind comment lines is sent with those comments.
  lemma StatementChunk(notes: string, d: Ddl, rest: string, pg: bool)
    requires IsNotes(notes) && ';' !in notes && !d.CreateFtsTrigger? && Runnable(Stmt(d), pg)
    ensures exists piece :: Carries(piece, d, pg)
                         && ToExecute(notes + Body(d, pg) + ";" + rest) == [piece] + ToExecute(rest)
  {
    hide IsComment, ToExecute, Body, IsNotes;
    var body := Body(d, pg);
    assert notes + body + ";" + rest == (notes + body) + ";" + rest;
    FirstChunk(notes + body, rest);
    NotesConcat(notes, body);
    StatementTextIsNoComment(body);
    var kept := TrimmedNotes(notes, body);
    assert Carries(kept + body, d, pg);
  }

  lemma TrimmedNotes(notes: string, body: string) returns (kept: string)
    requires IsNotes(notes) && IsStatementText(body)
    ensures IsNotes(kept) && TrimSpace(notes + body) == kept + body
  {
    hide IsComment;
    TrimLeftNotes(notes, body);
    kept := TrimLeftFunc(notes, IsSpace);
    CommentTrimLeft(notes);
    assert (kept + body)[|kept + body| - 1] == body[|body| - 1];
  }

  // ---------- whole scripts ----------

  lemma {:induction false} JoinTerminated(lines: seq<string>)
    requires lines != []
    ensures Unlines(Terminated(lines)) == Join(lines, "\n") + ";" + "\n"
  {
    if |lines| == 1 {
      assert Terminated(lines) == [lines[0] + ";"];
      UnlinesOne(lines[0] + ";");
    } else {
      JoinTerminated(lines[1..]);
      assert Terminated(lines)[1..] == Terminated(lines[1..]);
      assert Unlines(Terminated(lines)) == lines[0] + "\n" + Unlines(Terminated(lines[1..]));
    }
  }

  lemma RenderCons(blocks: seq<Block>, pg: bool)
    requires blocks != []
    ensures Render(blocks, pg) == Text(blocks[0], pg) + Render(blocks[1..], pg)
  {
    hide BlockLines;
    UnlinesConcat(BlockLines(blocks[0], pg), Lines(blocks[1..], pg));
  }

  lemma NewlineIsNotes()
    ensures IsNotes("\n")
  {
    assert "\n" == "" + "\n" + "";
    CommentConcat("", "");
    EmptyIsComment();
  }

  lemma CommentLineIsComment(text: string)
    requires "--" <= text && '\n' !in text
    ensures IsComment(text)
  {
    CommentOfLine(text);
    TrimKeepsHead2(text);
  }

  lemma TrimKeepsHead2(text: string)
    requires "--" <= text
    ensures HasPrefix(TrimSpace(text), "--")
  {
    assert text == "--" + text[2..];
    TrimRightKeeps("--", text[2..], IsSpace);
  }

  // One more note line in front
  lemma MoreNotes(notes: string, text: string)
    requires IsNotes(notes) && IsComment(text)
    ensures IsNotes(notes + text + "\n")
  {
    hide IsComment;
    NotesConcat(notes, text);
    CommentConcat(notes + text, "");
    assert notes + text + "\n" == notes + text + "\n" + "";
    EmptyIsComment();
  }

  // The trigger's steps, each ended by its own semicolon, and its END
  lemma StepChunk(before: string, step: string, rest: string)
    requires ';' !in before && !IsComment(before + step) && step != ""
    requires step[|step| - 1] == ';' && ';' !in step[..|step| - 1]
    requires !IsComment(before + step[..|step| - 1])
    ensures |ToExecute(before + step + rest)| == 1 + |ToExecute(rest)|
  {
    hide IsComment, ToExecute;
    var init := step[..|step| - 1];
    assert before + step + rest == before + init + ";" + rest;
    FirstChunk(before + init, rest);
  }

  lemma EndChunk(rest: string)
    ensures |ToExecute("\n" + ("END" + ";" + "\n" + rest))| == 1 + |ToExecute("\n" + rest)|
  {
    hide IsComment, ToExecute;
    EndIsNoComment();
    FirstChunk("\n" + "END", "\n" + rest);
    assert "\n" + "END" + ";" + ("\n" + rest) == "\n" + ("END" + ";" + "\n" + rest);
  }

  lemma TriggerChunks(notes: string, d: Ddl, rest: string, pg: bool)
    requires IsNotes(notes) && ';' !in notes && d.CreateFtsTrigger? && Runnable(Stmt(d), pg)
    ensures |ToExecute(notes + Text(Stmt(d), pg) + rest)| == Cuts(d) + |ToExecute("\n" + rest)|
  {
    hide IsComment, ToExecute, TriggerHead, TriggerInsert, TriggerDelete, Text, IsNotes, IsStep, Runnable;
    var del, ins := TriggerDelete(d.shadow, d.column, d.pk), TriggerInsert(d.shadow, d.column, d.pk);
    TriggerText(d, pg);
    var end := "END" + ";" + "\n" + rest;
    EndChunk(rest);
    var first := FirstStep(d);
    var front := notes + TriggerHead(d.event, d.shadow, d.table) + "\n";
    TriggerFront(notes, d, pg);
    if d.event.AfterUpdate? {
      assert notes + Text(Stmt(d), pg) + rest == front + first + ("\n" + ins + ("\n" + end));
      TwoSteps(front, first, ins, end);
    } else {
      assert notes + Text(Stmt(d), pg) + rest == front + first + ("\n" + end);
      OneStep(front, first, "\n" + end);
    }
  }

  function FirstStep(d: Ddl): string
    requires d.CreateFtsTrigger?
  {
    if d.event.AfterInsert? then TriggerInsert(d.shadow, d.column, d.pk) else TriggerDelete(d.shadow, d.column, d.pk)
  }

  // The head with its first step, which is no comment even without its semicolon
  lemma TriggerFront(notes: string, d: Ddl, pg: bool)
    requires IsNotes(notes) && ';' !in notes && d.CreateFtsTrigger? && Runnable(Stmt(d), pg)
    ensures IsStep(TriggerInsert(d.shadow, d.column, d.pk)) && IsStep(FirstStep(d))
    ensures var front, first := notes + TriggerHead(d.event, d.shadow, d.table) + "\n", FirstStep(d);
      ';' !in front && !IsComment(front + first) && !IsComment(front + first[..|first| - 1])
  {
    hide IsComment, TriggerHead, TriggerInsert, TriggerDelete, IsNotes;
    var head, first := TriggerHead(d.event, d.shadow, d.table), FirstStep(d);
    TriggerPartsPlain(d);
    HeadIsNoComment(notes, head, first);
    HeadIsNoComment(notes, head, first[..|first| - 1]);
  }

  lemma OneStep(front: string, step: string, rest: string)
    requires IsStep(step) && ';' !in front
    requires !IsComment(front + step) && !IsComment(front + step[..|step| - 1])
    ensures |ToExecute(front + step + rest)| == 1 + |ToExecute(rest)|
  {
    hide IsComment, ToExecute;
    StepChunk(front, step, rest);
  }

  lemma TwoSteps(front: string, first: string, second: string, end: string)
    requires IsStep(first) && IsStep(second) && ';' !in front
    requires !IsComment(front + first) && !IsComment(front + first[..|first| - 1])
    ensures |ToExecute(front + first + ("\n" + second + ("\n" + end)))| == 2 + |ToExecute("\n" + end)|
  {
    hide IsComment, ToExecute;
    StepIsNoComment(second);
    StepIsNoComment(second[..|second| - 1]);
    StepChunk("\n", second, "\n" + end);
    StepChunk(front, first, "\n" + second + ("\n" + end));
  }

  lemma TriggerText(d: Ddl, pg: bool)
    requires d.CreateFtsTrigger?
    ensures Text(Stmt(d), pg)
         == TriggerHead(d.event, d.shadow, d.table) + "\n"
            + (if d.event.AfterInsert? then "" else TriggerDelete(d.shadow, d.column, d.pk) + "\n")
            + (if d.event.AfterDelete? then "" else TriggerInsert(d.shadow, d.column, d.pk) + "\n")
            + "END" + ";" + "\n"
  {
    hide TriggerHead, TriggerInsert, TriggerDelete, Unlines;
    var head := [TriggerHead(d.event, d.shadow, d.table)];
    var del := if d.event.AfterInsert? then [] else [TriggerDelete(d.shadow, d.column, d.pk)];
    var ins := if d.event.AfterDelete? then [] else [TriggerInsert(d.shadow, d.column, d.pk)];
    assert Terminated(DdlLines(d, pg)) == head + del + ins + ["END" + ";"] by { TriggerLines(d, pg, head, del, ins); }
    UnlinesNone();
    UnlinesConcat(head + del + ins, ["END" + ";"]);
    UnlinesConcat(head + del, ins);
    UnlinesConcat(head, del);
    UnlinesOne(head[0]);
    UnlinesOne("END" + ";");
    UnlinesOne(TriggerDelete(d.shadow, d.column, d.pk));
    UnlinesOne(TriggerInsert(d.shadow, d.column, d.pk));
  }

  lemma UnlinesNone()
    ensures Unlines([]) == ""
  {
  }

  lemma TriggerLines(d: Ddl, pg: bool, head: seq<string>, del: seq<string>, ins: seq<string>)
    requires d.CreateFtsTrigger?
    requires head == [TriggerHead(d.event, d.shadow, d.table)]
    requires del == if d.event.AfterInsert? then [] else [TriggerDelete(d.shadow, d.column, d.pk)]
    requires ins == if d.event.AfterDelete? then [] else [TriggerInsert(d.shadow, d.column, d.pk)]
    ensures Terminated(DdlLines(d, pg)) == head + del + ins + ["END" + ";"]
  {
    hide TriggerHead, TriggerInsert, TriggerDelete;
    var lines := DdlLines(d, pg);
    assert lines == head + del + ins + ["END"];
    assert lines[..|lines| - 1] == head + del + ins;
  }

  lemma TriggerPartsPlain(d: Ddl)
    requires d.CreateFtsTrigger? && ';' !in d.shadow + d.table + d.column + d.pk && '\n' !in d.shadow + d.table
    ensures IsHead(TriggerHead(d.event, d.shadow, d.table))
    ensures IsStep(TriggerInsert(d.shadow, d.column, d.pk)) && IsStep(TriggerDelete(d.shadow, d.column, d.pk))
  {
    assert ';' !in d.shadow && ';' !in d.table && ';' !in d.column && ';' !in d.pk;
    assert '\n' !in d.shadow && '\n' !in d.table;
    TriggerHeadText(d);
    TriggerInsertText(d);
    TriggerDeleteText(d);
  }

  ghost predicate IsHead(s: string) { ';' !in s && '\n' !in s && s != "" && s[0] == 'C' }

  ghost predicate IsStep(s: string) {
    |s| > 10 && s[|s| - 1] == ';' && ';' !in s[..|s| - 1] && "  INSERT" <= s
  }

  lemma TriggerHeadText(d: Ddl)
    requires d.CreateFtsTrigger? && ';' !in d.shadow && ';' !in d.table && '\n' !in d.shadow && '\n' !in d.table
    ensures IsHead(TriggerHead(d.event, d.shadow, d.table))
  {
    hide TriggerName, Calm;
    assert Calm(TriggerName(d.shadow, d.event)) by {
      TriggerNameText(d);
      CalmIs(TriggerName(d.shadow, d.event));
    }
    assert Calm(d.table) by { CalmIs(d.table); }
    var event := match d.event { case AfterInsert => "INSERT" case AfterDelete => "DELETE" case AfterUpdate => "UPDATE" };
    HeadWords();
    var front := "CREATE TRIGGER IF NOT EXISTS ";
    CalmConcat(front, TriggerName(d.shadow, d.event));
    CalmConcat(front + TriggerName(d.shadow, d.event), " AFTER ");
    CalmConcat(front + TriggerName(d.shadow, d.event) + " AFTER ", event);
    CalmConcat(front + TriggerName(d.shadow, d.event) + " AFTER " + event, " ON ");
    CalmConcat(front + TriggerName(d.shadow, d.event) + " AFTER " + event + " ON ", d.table);
    CalmConcat(front + TriggerName(d.shadow, d.event) + " AFTER " + event + " ON " + d.table, " BEGIN");
    CalmIs(TriggerHead(d.event, d.shadow, d.table));
  }

  lemma CalmIs(s: string)
    ensures Calm(s) <==> ';' !in s && '\n' !in s
  {
  }

  lemma HeadWords()
    ensures Calm("INSERT") && Calm("DELETE") && Calm("UPDATE") && Calm(" AFTER ") && Calm(" ON ") && Calm(" BEGIN")
    ensures Calm("CREATE TRIGGER IF NOT EXISTS ")
  {
    assert Calm("CREATE TRIGGER IF NOT EXISTS ");
    assert Calm("INSERT");
    assert Calm("DELETE");
    assert Calm("UPDATE");
    assert Calm(" AFTER ");
    assert Calm(" ON ");
    assert Calm(" BEGIN");
  }

  ghost predicate Calm(s: string) { ';' !in s && '\n' !in s }

  lemma CalmConcat(a: string, b: string)
    requires Calm(a) && Calm(b)
    ensures Calm(a + b)
  {
  }

  lemma TriggerNameText(d: Ddl)
    requires d.CreateFtsTrigger? && ';' !in d.shadow && '\n' !in d.shadow
    ensures ';' !in TriggerName(d.shadow, d.event) && '\n' !in TriggerName(d.shadow, d.event)
  {
  }

  lemma TriggerInsertText(d: Ddl)
    requires d.CreateFtsTrigger? && ';' !in d.shadow && ';' !in d.column && ';' !in d.pk
    ensures IsStep(TriggerInsert(d.shadow, d.column, d.pk))
  {
    var s := TriggerInsert(d.shadow, d.column, d.pk);
    var body := "  INSERT INTO " + d.shadow + "(rowid, " + d.column + ") VALUES (new." + d.pk + ", new." + d.column + ")";
    assert s == body + ";";
    assert s[..|s| - 1] == body;
  }

  lemma TriggerDeleteText(d: Ddl)
    requires d.CreateFtsTrigger? && ';' !in d.shadow && ';' !in d.column && ';' !in d.pk
    ensures IsStep(TriggerDelete(d.shadow, d.column, d.pk))
  {
    var s := TriggerDelete(d.shadow, d.column, d.pk);
    var body := "  INSERT INTO " + d.shadow + "(" + d.shadow + ", rowid, " + d.column + ") VALUES('delete', old." + d.pk
      + ", old." + d.column + ")";
    assert s == body + ";";
    assert s[..|s| - 1] == body;
  }

  lemma EndIsNoComment()
    ensures !IsComment("\n" + "END")
  {
    assert "\n" + "END" == "" + "\n" + "END";
    CommentConcat("", "END");
    StatementTextIsNoComment("END");
  }

  lemma StepIsNoComment(step: string)
    requires "  INSERT" <= step
    ensures !IsComment("\n" + step)
  {
    assert "\n" + step == "" + "\n" + step;
    CommentConcat("", step);
    StepTrimmed(step);
  }

  lemma StepTrimmed(step: string)
    requires "  INSERT" <= step
    ensures !IsComment(step)
  {
    hide IsComment;
    assert step[0] == ' ' && step[1] == ' ' && step[2] == 'I';
    CommentUncons(step);
    CommentUncons(step[1..]);
    assert step[1..][1..] == step[2..];
    FirstLineShows(step[2..]);
  }

  // A text whose first line shows and does not start with a dash is not a comment.
  lemma FirstLineShows(s: string)
    requires s != "" && !IsSpace(s[0]) && s[0] != '-'
    ensures !IsComment(s)
  {
    FirstPart(s, '\n');
    TrimKeepsFirst(Split(s, '\n')[0]);
    assert Split(s, '\n')[0] in Split(s, '\n');
  }

  lemma HeadIsNoComment(notes: string, head: string, step: string)
    requires IsNotes(notes) && head != "" && head[0] == 'C'
    ensures !IsComment(notes + head + "\n" + step)
  {
    hide IsComment;
    CommentConcat(notes + head, step);
    NotesConcat(notes, head);
    FirstLineShows(head);
  }

  // The pieces sent for a script behind some comment lines
  lemma {:induction false} ScriptChunks(notes: string, blocks: seq<Block>, pg: bool)
    requires IsNotes(notes) && ';' !in notes
    requires forall b :: b in blocks ==> Runnable(b, pg)
    ensures |ToExecute(notes + Render(blocks, pg))| == TotalCuts(Statements(blocks))
    ensures NoTrigger(Statements(blocks)) ==> CarriesAll(ToExecute(notes + Render(blocks, pg)), Statements(blocks), pg)
    decreases |blocks|
  {
    hide IsNotes, ToExecute, Render, Carries, Runnable, Text;
    NewlineIsNotes();
    if blocks == [] {
      assert Render(blocks, pg) == "" by { EmptyText(pg); }
      assert notes + "" == notes;
      NotesSendNothing(notes);
    } else {
      var b, more := blocks[0], blocks[1..];
      var rest := Render(more, pg);
      RenderCons(blocks, pg);
      assert Runnable(b, pg);
      match b
      case Stmt(d) =>
        ScriptChunks("\n", more, pg);
        FirstStatement(notes, d, rest, pg);
        assert Statements(blocks) == [d] + Statements(more);
      case _ =>
        NoteChunk(notes, b, rest, pg);
        ScriptChunks(NotesAfter(notes, b), more, pg);
        assert Statements(blocks) == Statements(more);
    }
  }

  // The pieces of one statement, and then those of the rest
  lemma FirstStatement(notes: string, d: Ddl, rest: string, pg: bool)
    requires IsNotes(notes) && ';' !in notes && Runnable(Stmt(d), pg)
    ensures |ToExecute(notes + (Text(Stmt(d), pg) + rest))| == Cuts(d) + |ToExecute("\n" + rest)|
    ensures !d.CreateFtsTrigger? ==> exists piece ::
      Carries(piece, d, pg) && ToExecute(notes + (Text(Stmt(d), pg) + rest)) == [piece] + ToExecute("\n" + rest)
  {
    hide IsNotes, ToExecute, Carries, Runnable, Text, Body;
    assert notes + (Text(Stmt(d), pg) + rest) == notes + Text(Stmt(d), pg) + rest;
    if d.CreateFtsTrigger? {
      TriggerChunks(notes, d, rest, pg);
    } else {
      StatementText(d, pg);
      StatementChunk(notes, d, "\n" + rest, pg);
      var piece :| Carries(piece, d, pg)
                && ToExecute(notes + Body(d, pg) + ";" + ("\n" + rest)) == [piece] + ToExecute("\n" + rest);
      assert notes + Text(Stmt(d), pg) + rest == notes + Body(d, pg) + ";" + ("\n" + rest);
    }
  }

  lemma NotesSendNothing(notes: string)
    requires IsNotes(notes) && ';' !in notes
    ensures ToExecute(notes) == []
  {
    LastChunk(notes);
  }

  lemma StatementText(d: Ddl, pg: bool)
    ensures Text(Stmt(d), pg) == Body(d, pg) + ";" + "\n"
  {
    JoinTerminated(DdlLines(d, pg));
  }

  // The comment lines still in hand after a blank line or a note
  function NotesAfter(notes: string, b: Block): string
    requires !b.Stmt?
  {
    match b
    case Blank => notes + "\n"
    case Note(text) => if ';' in text then "\n" else notes + text + "\n"
  }

  lemma NoteChunk(notes: string, b: Block, rest: string, pg: bool)
    requires IsNotes(notes) && ';' !in notes && !b.Stmt? && Runnable(b, pg)
    ensures IsNotes(NotesAfter(notes, b)) && ';' !in NotesAfter(notes, b)
    ensures ToExecute(notes + (Text(b, pg) + rest)) == ToExecute(NotesAfter(notes, b) + rest)
  {
    hide IsNotes, ToExecute, IsComment, Unlines;
    match b
    case Blank =>
      EmptyIsComment();
      MoreNotes(notes, "");
      UnlinesOne("");
      assert notes + "" + "\n" == notes + "\n";
      assert notes + (Text(b, pg) + rest) == notes + "\n" + rest;
    case Note(text) =>
      assert Text(b, pg) == text + "\n" by { UnlinesOne(text); }
      NoteTextChunk(notes, text, rest);
  }

  lemma NoteTextChunk(notes: string, text: string, rest: string)
    requires IsNotes(notes) && ';' !in notes
    requires "--" <= text && '\n' !in text && ';' !in text[..|text| - 1]
    ensures var after := if ';' in text then "\n" else notes + text + "\n";
      IsNotes(after) && ';' !in after && ToExecute(notes + (text + "\n" + rest)) == ToExecute(after + rest)
  {
    hide IsNotes, ToExecute, IsComment;
    NewlineIsNotes();
    if ';' in text {
      var init := text[..|text| - 1];
      assert text == init + ";";
      CommentLineIsComment(init) by { assert init[0] == '-' && init[1] == '-'; }
      NotesConcat(notes, init);
      FirstChunk(notes + init, "\n" + rest);
      assert notes + (text + "\n" + rest) == notes + init + ";" + ("\n" + rest);
    } else {
      CommentLineIsComment(text);
      MoreNotes(notes, text);
      assert notes + (text + "\n" + rest) == notes + text + "\n" + rest;
    }
  }
}
