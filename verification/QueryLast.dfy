/** Last runs the query with every ORDER BY term reversed. Main results: the reversed terms are valid and order
    the rows exactly the other way round if and only if no term has a blank other than a space before its
    direction word, and the reversed query still has its arguments in place. */
module QueryLast {
  import opened GoStrings
  import opened Patterns
  import opened SqlQuotes
  import opened SqlBinding
  import opened Identifiers
  import opened QueryBuilder
  import opened QueryObject

  ghost predicate Trimmed(t: string) { t != "" ==> !IsSpace(t[0]) && !IsSpace(t[|t| - 1]) }

  lemma {:induction false} TrimRightTrims(s: string)
    ensures var r := TrimRightFunc(s, IsSpace);
      && r <= s && (r != "" ==> !IsSpace(r[|r| - 1])) && (s != "" && !IsSpace(s[0]) ==> r != "")
    ensures Tidy(s) ==> Tidy(TrimRightFunc(s, IsSpace)) && Marks(TrimRightFunc(s, IsSpace)) == Marks(s)
  {
    hide Marks, Closed, QuotedMarks;
    if s != "" && IsSpace(s[|s| - 1]) {
      var n := |s| - 1;
      TrimRightTrims(s[..n]);
      assert s == s[..n] + [s[n]];
      if Tidy(s) {
        InertDropped(s[..n], [s[n]]);
      }
    }
  }

  // A tidy text without its inert end
  lemma InertDropped(a: string, b: string)
    requires Tidy(a + b) && Inert(b)
    ensures Tidy(a) && Marks(a) == Marks(a + b)
  {
    ScanConcat(a, b, None);
    QuoteAfterIsQuote(a, None);
    InertScan(b, QuoteAfter(a, None));
  }

  lemma {:induction false} QuoteAfterIsQuote(s: string, q: Option<char>)
    requires q.Some? ==> IsQuote(q.value)
    ensures QuoteAfter(s, q).Some? ==> IsQuote(QuoteAfter(s, q).value)
  {
    if s != "" {
      QuoteAfterIsQuote(s[1..], QuoteStep(q, s[0]));
    }
  }

  lemma {:induction false} TrimLeftCounts(s: string)
    ensures Tidy(s) ==> Tidy(TrimLeftFunc(s, IsSpace)) && Marks(TrimLeftFunc(s, IsSpace)) == Marks(s)
  {
    if s != "" && IsSpace(s[0]) {
      TrimLeftCounts(s[1..]);
    }
  }

  lemma TrimSpaceTrims(s: string)
    ensures Trimmed(TrimSpace(s))
    ensures Tidy(s) ==> Tidy(TrimSpace(s)) && Marks(TrimSpace(s)) == Marks(s)
    ensures Trimmed(s) ==> TrimSpace(s) == s
    ensures s != "" && !IsSpace(s[0]) ==> TrimSpace(s) != ""
  {
    hide Marks, Closed, QuotedMarks;
    var left := TrimLeftFunc(s, IsSpace);
    TrimLeftIsSuffix(s, IsSpace);
    TrimLeftCounts(s);
    TrimRightTrims(left);
    if s != "" && !IsSpace(s[0]) {
      assert left == s;
    }
  }

  // ---------- a term in the grammar of identifiers ----------

  // What follows the column of a term
  function Rest(term: string): Option<string> { AfterQualified(TrimSpace(term)) }

  // The column of a term and whether it is descending, as the grammar reads it
  function Ordering(term: string): Option<(string, bool)> {
    var t := TrimSpace(term);
    var rest :- AfterQualified(t);
    if rest == "" then Some((t, false))
    else
      var word :- EatSpaces(rest);
      if |rest| > |t| then None
      else if ToUpper(word) == "DESC" then Some((t[..|t| - |rest|], true))
      else if ToUpper(word) == "ASC" then Some((t[..|t| - |rest|], false))
      else None
  }

  // No direction word, or a space right before it
  predicate SpaceBefore(term: string) {
    var t := TrimSpace(term);
    var rest := Rest(term);
    rest.None? || rest.value == "" || EatSpaces(rest.value).None?
    || (|EatSpaces(rest.value).value| < |t| && t[|t| - |EatSpaces(rest.value).value| - 1] == ' ')
  }

  lemma {:induction false} NameThen(a: string, b: string)
    requires NameLength(a, false) == |a| && (b != "" ==> !IsWordChar(b[0]))
    ensures NameLength(a + b, false) == |a|
  {
    if a == "" {
      assert a + b == b;
    } else {
      assert (a + b)[1..] == a[1..] + b;
      NameThen(a[1..], b);
    }
  }

  lemma {:induction false} NameAlone(s: string)
    ensures NameLength(s[..NameLength(s, false)], false) == NameLength(s, false)
  {
    if s != "" && IsWordChar(s[0]) {
      NameAlone(s[1..]);
      assert s[..NameLength(s, false)][1..] == s[1..][..NameLength(s[1..], false)];
    }
  }

  // A column: a name, or a name and a dot and a name
  ghost predicate IsColumn(col: string) { AfterQualified(col) == Some("") }

  ghost predicate IsName(s: string) { s != "" && IsWordStart(s[0]) && NameLength(s, false) == |s| }

  lemma ColumnShape(col: string)
    requires IsColumn(col)
    ensures IsName(col) || exists n :: 0 < n < |col| - 1 && col[n] == '.' && IsName(col[..n]) && IsName(col[n + 1..])
  {
    var n := NameLength(col, false);
    NameAlone(col);
    if n < |col| {
      assert col[n] == '.' && IsName(col[..n]);
      var second := col[n + 1..];
      assert IsName(second);
    }
  }

  lemma NameChars(s: string)
    requires IsName(s)
    ensures forall i :: 0 <= i < |s| ==> IsWordChar(s[i])
  {
  }

  lemma ColumnChars(col: string)
    requires IsColumn(col)
    ensures col != "" && IsWordChar(col[0]) && IsWordChar(col[|col| - 1])
    ensures forall i :: 0 <= i < |col| ==> IsWordChar(col[i]) || col[i] == '.'
  {
    hide IsColumn, IsName;
    ColumnShape(col);
    if IsName(col) {
      NameChars(col);
      assert col != "" by { NameFacts(col); }
    } else {
      var n :| 0 < n < |col| - 1 && col[n] == '.' && IsName(col[..n]) && IsName(col[n + 1..]);
      NameChars(col[..n]);
      NameChars(col[n + 1..]);
      assert forall i :: 0 <= i < n ==> col[i] == col[..n][i];
      assert forall i :: n < i < |col| ==> col[i] == col[n + 1..][i - n - 1];
    }
  }

  lemma NameFacts(s: string)
    requires IsName(s)
    ensures s != "" && EatName(s, false) == Some((s, ""))
  {
    assert s[..|s|] == s && s[|s|..] == "";
  }

  lemma EatNameThen(s: string, tail: string)
    requires IsName(s) && (tail != "" ==> !IsWordChar(tail[0]))
    ensures EatName(s + tail, false) == Some((s, tail))
  {
    NameThen(s, tail);
    assert (s + tail)[..|s|] == s && (s + tail)[|s|..] == tail;
  }

  // A column, and text that does not continue it
  lemma ColumnThen(col: string, tail: string)
    requires IsColumn(col) && (tail != "" ==> !IsWordChar(tail[0]) && tail[0] != '.')
    ensures AfterQualified(col + tail) == Some(tail)
  {
    hide IsColumn, IsName, EatName;
    ColumnShape(col);
    if IsName(col) {
      EatNameThen(col, tail);
    } else {
      var n :| 0 < n < |col| - 1 && col[n] == '.' && IsName(col[..n]) && IsName(col[n + 1..]);
      var first, second := col[..n], col[n + 1..];
      assert col + tail == first + ("." + (second + tail));
      EatNameThen(first, "." + (second + tail));
      EatNameThen(second, tail);
      assert ("." + (second + tail))[1..] == second + tail;
    }
  }

  lemma NameFirst(t: string) returns (name: string, after: string)
    requires EatName(t, false).Some?
    ensures t == name + after && IsName(name) && EatName(t, false) == Some((name, after))
    ensures after != "" ==> !IsWordChar(after[0])
  {
    var n := NameLength(t, false);
    NameAlone(t);
    name, after := t[..n], t[n..];
    assert name[0] == t[0];
  }

  lemma NameIsColumn(s: string)
    requires IsName(s)
    ensures IsColumn(s)
  {
    NameFacts(s);
  }

  lemma TwoNamesAreColumn(first: string, second: string)
    requires IsName(first) && IsName(second)
    ensures IsColumn(first + "." + second)
  {
    hide IsName, EatName;
    EatNameThen(first, "." + second);
    assert first + "." + second == first + ("." + second) && ("." + second)[1..] == second;
    NameFacts(second);
  }

  // The column that a text begins with
  lemma ColumnFirst(t: string) returns (col: string)
    requires AfterQualified(t).Some?
    ensures t == col + AfterQualified(t).value && IsColumn(col)
    ensures AfterQualified(t).value != "" ==> !IsWordChar(AfterQualified(t).value[0])
  {
    hide EatName, IsName, IsColumn;
    var first, after := NameFirst(t);
    if after != "" && after[0] == '.' {
      var second, rest := NameFirst(after[1..]);
      TwoNamesAreColumn(first, second);
      col := first + "." + second;
      assert after == "." + after[1..];
    } else {
      NameIsColumn(first);
      col := first;
    }
  }

  // ---------- directions ----------

  predicate IsWord(word: string) { ToUpper(word) == "DESC" || ToUpper(word) == "ASC" }

  lemma WordChars(word: string)
    requires IsWord(word)
    ensures 3 <= |word| <= 4 && forall i :: 0 <= i < |word| ==> IsLowerLetter(word[i]) || IsUpperLetter(word[i])
  {
    assert |word| == |ToUpper(word)|;
    forall i | 0 <= i < |word|
      ensures IsLowerLetter(word[i]) || IsUpperLetter(word[i])
    {
      assert ToUpper(word)[i] == UpperChar(word[i]);
    }
  }

  lemma {:induction false} BlanksFirst(s: string) returns (blanks: string)
    ensures s == blanks + SkipSpaces(s) && forall i :: 0 <= i < |blanks| ==> IsReSpace(blanks[i])
    ensures SkipSpaces(s) != "" ==> !IsReSpace(SkipSpaces(s)[0])
  {
    blanks := "";
    if s != "" && IsReSpace(s[0]) {
      blanks := BlanksFirst(s[1..]);
      blanks := [s[0]] + blanks;
    }
  }

  lemma {:induction false} BlanksThen(blanks: string, s: string)
    requires (forall i :: 0 <= i < |blanks| ==> IsReSpace(blanks[i])) && (s != "" ==> !IsReSpace(s[0]))
    ensures SkipSpaces(blanks + s) == s
  {
    if blanks == "" {
      assert blanks + s == s;
    } else {
      assert (blanks + s)[1..] == blanks[1..] + s;
      BlanksThen(blanks[1..], s);
    }
  }

  // A column, blanks and more, which ends visibly, is read by the grammar part by part.
  lemma Reads(col: string, blanks: string, word: string)
    requires IsColumn(col) && blanks != "" && (forall i :: 0 <= i < |blanks| ==> IsReSpace(blanks[i]))
    requires word != "" && !IsReSpace(word[0]) && !IsSpace(word[|word| - 1])
    ensures var t := col + blanks + word;
      && TrimSpace(t) == t && Rest(t) == Some(blanks + word) && EatSpaces(blanks + word) == Some(word)
      && Ordering(t) == (if ToUpper(word) == "DESC" then Some((col, true))
                         else if ToUpper(word) == "ASC" then Some((col, false)) else None)
      && (SpaceBefore(t) <==> blanks[|blanks| - 1] == ' ')
  {
    hide AfterQualified, IsColumn, ToUpper, TrimFunc;
    var t := col + blanks + word;
    ColumnChars(col);
    assert t == col + (blanks + word);
    TrimFuncIdentity(t, IsSpace);
    ColumnThen(col, blanks + word);
    BlanksThen(blanks, word);
    assert t[..|t| - |blanks + word|] == col;
    assert t[|t| - |word| - 1] == blanks[|blanks| - 1];
  }

  // A valid term is a column alone, or a column, blanks and a direction word.
  lemma TermParts(term: string) returns (col: string, blanks: string, word: string)
    requires ValidIdent(term)
    ensures IsColumn(col) && TrimSpace(term) == col + blanks + word
    ensures forall i :: 0 <= i < |blanks| ==> IsReSpace(blanks[i])
    ensures (blanks == "" && word == "") || (blanks != "" && IsWord(word))
  {
    hide AfterQualified, IsColumn, TrimSpace, ToUpper;
    var t := TrimSpace(term);
    col := ColumnFirst(t);
    var rest := AfterQualified(t).value;
    if rest == "" {
      blanks, word := "", "";
    } else {
      blanks := BlanksFirst(rest);
      word := SkipSpaces(rest);
      assert t == col + blanks + word;
      assert IsReSpace(rest[0]);
    }
  }

  // A name, or two with a dot between them
  predicate IsPlainColumn(col: string) {
    IsIdent(col) || exists n :: 0 < n < |col| && col[n] == '.' && IsIdent(col[..n]) && IsIdent(col[n + 1..])
  }

  lemma NameIff(s: string)
    ensures IsName(s) <==> IsIdent(s)
  {
    if IsIdent(s) {
      AllWord(s);
    }
    if IsName(s) {
      NameChars(s);
    }
  }

  lemma ColumnIff(col: string)
    ensures IsColumn(col) <==> IsPlainColumn(col)
  {
    hide IsColumn, IsName, IsIdent;
    NameIff(col);
    if IsColumn(col) {
      ColumnShape(col);
      if !IsName(col) {
        var n :| 0 < n < |col| - 1 && col[n] == '.' && IsName(col[..n]) && IsName(col[n + 1..]);
        NameIff(col[..n]);
        NameIff(col[n + 1..]);
      }
    }
    if IsPlainColumn(col) {
      if IsName(col) {
        NameIsColumn(col);
      } else {
        var n :| 0 < n < |col| && col[n] == '.' && IsIdent(col[..n]) && IsIdent(col[n + 1..]);
        NameIff(col[..n]);
        NameIff(col[n + 1..]);
        TwoNamesAreColumn(col[..n], col[n + 1..]);
        assert col == col[..n] + "." + col[n + 1..];
      }
    }
  }

  // A column, and a direction word behind blanks or nothing
  ghost predicate IsTerm(t: string, col: string, blanks: string, word: string) {
    && IsPlainColumn(col) && t == col + blanks + word && (forall i :: 0 <= i < |blanks| ==> IsReSpace(blanks[i]))
    && ((blanks == "" && word == "") || (blanks != "" && IsWord(word)))
  }

  // The pattern accepts exactly these, blanks around them aside.
  lemma ValidIdentIff(s: string)
    ensures ValidIdent(s) <==> exists col, blanks, word :: IsTerm(TrimSpace(s), col, blanks, word)
  {
    hide AfterQualified, IsColumn, TrimSpace, ToUpper, IsPlainColumn;
    if ValidIdent(s) {
      var col, blanks, word := TermParts(s);
      ColumnIff(col);
      assert IsTerm(TrimSpace(s), col, blanks, word);
    }
    if col, blanks, word :| IsTerm(TrimSpace(s), col, blanks, word) {
      ColumnIff(col);
      var rest := blanks + word;
      assert TrimSpace(s) == col + rest;
      if rest != "" {
        assert rest[0] == blanks[0];
        WordChars(word);
        ColumnThen(col, rest);
        BlanksThen(blanks, word);
      } else {
        ColumnThen(col, "");
      }
    }
  }

  // The grammar of terms is the one of valid identifiers.
  lemma OrderingIffValid(term: string)
    ensures Ordering(term).Some? <==> ValidIdent(term)
  {
    hide AfterQualified, IsColumn, TrimSpace, ToUpper;
    if AfterQualified(TrimSpace(term)).Some? {
      var col := ColumnFirst(TrimSpace(term));
    }
  }

  // ---------- reversing ----------

  lemma {:induction false} BlanksTrimmed(blanks: string)
    requires forall i :: 0 <= i < |blanks| ==> IsReSpace(blanks[i])
    ensures TrimRightFunc(blanks, IsSpace) == ""
  {
    if blanks != "" {
      BlanksTrimmed(blanks[..|blanks| - 1]);
    }
  }

  lemma ColumnTrimmed(col: string, blanks: string)
    requires IsColumn(col) && forall i :: 0 <= i < |blanks| ==> IsReSpace(blanks[i])
    ensures TrimSpace(col + blanks) == col
  {
    hide IsColumn;
    ColumnChars(col);
    BlanksTrimmed(blanks);
    TrimRightKeeps(col, blanks, IsSpace);
    assert TrimLeftFunc(col + blanks, IsSpace) == col + blanks;
    assert col + "" == col;
  }

  lemma NoSpaceInside(col: string)
    requires IsColumn(col)
    ensures !HasSuffix(ToUpper(col), " DESC") && !HasSuffix(ToUpper(col), " ASC")
  {
    hide IsColumn;
    ColumnChars(col);
    assert forall i :: 0 <= i < |col| ==> ToUpper(col)[i] == UpperChar(col[i]) != ' ';
    var u := ToUpper(col);
    if |u| >= 5 {
      assert u[|u| - 5..][0] == u[|u| - 5];
    }
    if |u| >= 4 {
      assert u[|u| - 4..][0] == u[|u| - 4];
    }
  }

  // How the suffix test of the code sees a text that ends with a direction word
  lemma SuffixSees(head: string, c: char, word: string)
    requires IsWord(word)
    ensures var u := ToUpper(head + [c] + word);
      && (HasSuffix(u, " DESC") <==> ToUpper(word) == "DESC" && c == ' ')
      && (HasSuffix(u, " ASC") <==> ToUpper(word) == "ASC" && c == ' ')
  {
    hide ToUpper;
    WordChars(word);
    UpperOfConcat(head + [c], word);
    UpperOfConcat(head, [c]);
    UpperOne(c);
    UpperLength(head);
    UpperLength(word);
    var h, x, w := ToUpper(head), UpperChar(c), ToUpper(word);
    var u := h + [x] + w;
    assert u[|u| - |w|..] == w && u[|u| - |w| - 1..] == [x] + w;
    assert x == ' ' <==> c == ' ';
    if w == "DESC" {
      assert u[|u| - 4..] == "DESC" && "DESC"[0] != " ASC"[0];
      assert ([x] + w)[0] == x && " DESC" == [' '] + "DESC";
    } else {
      assert u[|u| - 3..] == "ASC";
      assert ([x] + w)[0] == x && " ASC" == [' '] + "ASC";
      if |u| >= 5 {
        assert u[|u| - 5..][1] == x && u[|u| - 5..][2] == 'A' && " DESC"[2] == 'E';
      }
    }
  }

  lemma UpperOne(c: char)
    ensures ToUpper([c]) == [UpperChar(c)]
  {
  }

  lemma Words()
    ensures IsWord("DESC") && IsWord("ASC") && ToUpper("DESC") == "DESC" && ToUpper("ASC") == "ASC"
  {
  }

  // A column and a direction in capitals
  lemma Directed(col: string)
    requires IsColumn(col)
    ensures Ordering(col + " DESC") == Some((col, true)) && Ordering(col + " ASC") == Some((col, false))
    ensures SpaceBefore(col + " DESC") && SpaceBefore(col + " ASC")
  {
    hide IsColumn, Ordering, SpaceBefore, ToUpper, TrimSpace, Rest, EatSpaces, IsWord;
    DirectedBy(col, "DESC");
    DirectedBy(col, "ASC");
    Words();
    assert col + " DESC" == col + " " + "DESC" && col + " ASC" == col + " " + "ASC";
  }

  lemma DirectedBy(col: string, word: string)
    requires IsColumn(col) && (word == "DESC" || word == "ASC")
    ensures Ordering(col + " " + word) == Some((col, word == "DESC")) && SpaceBefore(col + " " + word)
  {
    hide IsColumn, Ordering, SpaceBefore, ToUpper, TrimSpace, Rest, EatSpaces;
    Words();
    Reads(col, " ", word);
  }

  // A column alone
  lemma Undirected(term: string, col: string)
    requires IsColumn(col) && TrimSpace(term) == col
    ensures Ordering(term) == Some((col, false)) && SpaceBefore(term)
  {
  }

  // Ordering and SpaceBefore look at the trimmed term only.
  lemma TrimmedReads(term: string)
    ensures Ordering(term) == Ordering(TrimSpace(term)) && (SpaceBefore(term) <==> SpaceBefore(TrimSpace(term)))
  {
    hide TrimSpace, AfterQualified;
    TrimSpaceTrims(term);
    TrimSpaceTrims(TrimSpace(term));
  }

  // A term whose direction word has a space before it is reversed by its parts; one with another blank there is
  // taken for a term without direction.
  lemma ReverseParts(term: string, col: string, blanks: string, word: string)
    requires IsColumn(col) && TrimSpace(term) == col + blanks + word
    requires blanks != "" && IsWord(word) && forall i :: 0 <= i < |blanks| ==> IsReSpace(blanks[i])
    ensures ReverseTerm(term) ==
      if blanks[|blanks| - 1] != ' ' then col + blanks + word + " DESC"
      else if ToUpper(word) == "DESC" then col + " ASC" else col + " DESC"
  {
    hide IsColumn, TrimSpace, ToUpper, HasSuffix, IsWord;
    var n := |blanks| - 1;
    var t := TrimSpace(term);
    assert t == (col + blanks[..n]) + [blanks[n]] + word;
    SuffixSees(col + blanks[..n], blanks[n], word);
    WordIs(word);
    WordLength(word);
    ColumnTrimmed(col, blanks[..n]);
    assert t[..|t| - |word| - 1] == col + blanks[..n];
  }

  lemma WordLength(word: string)
    requires IsWord(word)
    ensures |word| == |ToUpper(word)|
  {
  }

  // The exact condition: the reversed term is valid, with the same column and the other direction, if and only
  // if the term has no direction word or a space right before it.
  lemma ReverseFlipsIff(term: string)
    requires ValidIdent(term)
    ensures Ordering(term).Some?
    ensures ValidIdent(ReverseTerm(term)) <==> SpaceBefore(term)
    ensures SpaceBefore(term) <==>
      Ordering(ReverseTerm(term)) == Some((Ordering(term).value.0, !Ordering(term).value.1))
    ensures SpaceBefore(term) ==> SpaceBefore(ReverseTerm(term))
  {
    hide IsColumn, TrimSpace, ToUpper, Ordering, SpaceBefore, ReverseTerm, IsWord, ValidIdent;
    OrderingIffValid(term);
    OrderingIffValid(ReverseTerm(term));
    TrimmedReads(term);
    var col, blanks, word := TermParts(term);
    Directed(col);
    if blanks == "" {
      assert col + blanks + word == col;
      Undirected(term, col);
      assert ReverseTerm(term) == col + " DESC" by { ReverseAlone(term, col); }
    } else {
      WordChars(word);
      Reads(col, blanks, word);
      WordIs(word);
      ReverseParts(term, col, blanks, word);
      if blanks[|blanks| - 1] != ' ' {
        LongerWord(word);
        Reads(col, blanks, word + " DESC");
        assert col + blanks + word + " DESC" == col + blanks + (word + " DESC");
      }
    }
  }

  lemma WordIs(word: string)
    requires IsWord(word)
    ensures ToUpper(word) == "DESC" || ToUpper(word) == "ASC"
  {
  }

  lemma ReverseAlone(term: string, col: string)
    requires IsColumn(col) && TrimSpace(term) == col
    ensures ReverseTerm(term) == col + " DESC"
  {
    hide IsColumn, TrimSpace;
    NoSpaceInside(col);
  }

  lemma LongerWord(word: string)
    requires IsWord(word)
    ensures ToUpper(word + " DESC") != "DESC" && ToUpper(word + " DESC") != "ASC"
  {
    assert |ToUpper(word)| == |word|;
    assert |ToUpper(word + " DESC")| == |word| + 5;
  }

  // A tab before the word: the term passes validation, its reversal does not.
  lemma TabWitness()
    ensures ValidIdent("a\tDESC") && ReverseTerm("a\tDESC") == "a\tDESC DESC" && !ValidIdent("a\tDESC DESC")
  {
    hide IsColumn, TrimSpace, ToUpper, Ordering, SpaceBefore, ReverseTerm, ValidIdent;
    Words();
    LetterIsColumn();
    Reads("a", "\t", "DESC");
    assert "a\tDESC" == "a" + "\t" + "DESC";
    OrderingIffValid("a\tDESC");
    ReverseParts("a\tDESC", "a", "\t", "DESC");
    ReverseFlipsIff("a\tDESC");
    assert "a" + "\t" + "DESC" + " DESC" == "a\tDESC DESC";
  }

  lemma LetterIsColumn()
    ensures IsColumn("a")
  {
    assert "a"[1..] == "";
    assert NameLength("a", false) == 1;
    assert "a"[..1] == "a";
  }

  // ---------- rankings, and whole lists ----------

  // A call with its direction, as Search orders by
  function Ranking(term: string): Option<(string, bool)> {
    if HasSuffix(term, ") DESC") then Some((term[..|term| - 5], true))
    else if HasSuffix(term, ") ASC") then Some((term[..|term| - 4], false))
    else None
  }

  // The expression of a term and whether it is descending; None for a text that is no ordering term
  function Meaning(term: string): Option<(string, bool)> {
    if ValidIdent(term) then Ordering(term)
    else if term != "" && !IsSpace(term[0]) then Ranking(term) else None
  }

  predicate Turns(term: string) { ValidIdent(term) ==> SpaceBefore(term) }

  lemma ParenIn(term: string)
    requires HasSuffix(term, ") DESC") || HasSuffix(term, ") ASC")
    ensures ')' in term
  {
    if HasSuffix(term, ") DESC") {
      assert term[|term| - 6..][0] == ')';
    } else {
      assert term[|term| - 5..][0] == ')';
    }
  }

  lemma ParenIsForeign(term: string)
    requires ')' in term
    ensures !ValidIdent(term)
  {
    hide ValidIdent;
    assert Foreign(')');
    if ValidIdent(term) {
      ValidIdentClean(term);
    }
  }

  lemma EndsWith(a: string, b: string)
    ensures HasSuffix(a + b, b) && (a + b)[..|a|] == a
  {
  }

  // A call and its direction
  lemma RankingReads(x: string, word: string)
    requires x != "" && !IsSpace(x[0]) && x[|x| - 1] == ')' && (word == "DESC" || word == "ASC")
    ensures var t := x + [' '] + word; !ValidIdent(t) && Meaning(t) == Some((x, word == "DESC")) && Turns(t)
  {
    hide ValidIdent, HasSuffix;
    var t := x + [' '] + word;
    assert t[|x| - 1] == ')' && t[0] == x[0];
    ParenIsForeign(t);
    CallEnds(x, word);
    EndsWith(x, [' '] + word);
    assert t == x + ([' '] + word);
  }

  lemma CallEnds(x: string, word: string)
    requires x != "" && x[|x| - 1] == ')' && (word == "DESC" || word == "ASC")
    ensures var t := x + [' '] + word;
      (HasSuffix(t, ") DESC") <==> word == "DESC") && (HasSuffix(t, ") ASC") <==> word == "ASC")
  {
    hide HasSuffix;
    var init := x[..|x| - 1];
    var t := x + [' '] + word;
    if word == "DESC" {
      assert ") DESC" == [')'] + [' '] + "DESC";
      assert t == init + ") DESC";
      EndsWith(init, ") DESC");
      OtherEnd(t, "ASC", 'D');
      assert ") " + "ASC" == ") ASC";
    } else {
      assert ") ASC" == [')'] + [' '] + "ASC";
      assert t == init + ") ASC";
      EndsWith(init, ") ASC");
      OtherEnd(t, "DESC", ' ');
      assert ") " + "DESC" == ") DESC";
    }
  }

  // The character four from the end tells the two directions apart.
  lemma OtherEnd(t: string, word: string, c: char)
    requires |t| >= 4 && t[|t| - 4] == c
    requires (word == "ASC" && c == 'D') || (word == "DESC" && c == ' ')
    ensures !HasSuffix(t, ") " + word)
  {
    var suffix := ") " + word;
    if |suffix| <= |t| {
      var k := |suffix| - 4;
      assert t[|t| - |suffix|..][k] == t[|t| - 4];
      assert suffix[k] != c;
    }
  }

  lemma RankingParts(term: string) returns (x: string, word: string)
    requires !ValidIdent(term) && Meaning(term).Some?
    ensures x != "" && !IsSpace(x[0]) && x[|x| - 1] == ')' && (word == "DESC" || word == "ASC")
    ensures term == x + [' '] + word
  {
    hide ValidIdent;
    if HasSuffix(term, ") DESC") {
      x, word := term[..|term| - 5], "DESC";
      assert term[|term| - 6..] == ") DESC";
      assert ") DESC" == [')'] + ([' '] + "DESC");
      assert term[|term| - 6] == term[|term| - 6..][0] == ')';
      assert term[|term| - 5..] == [' '] + "DESC" by { assert term[|term| - 6..][1..] == term[|term| - 5..]; }
      assert term == x + term[|term| - 5..];
    } else {
      x, word := term[..|term| - 4], "ASC";
      assert term[|term| - 5..] == ") ASC";
      assert ") ASC" == [')'] + ([' '] + "ASC");
      assert term[|term| - 5] == term[|term| - 5..][0] == ')';
      assert term[|term| - 4..] == [' '] + "ASC" by { assert term[|term| - 5..][1..] == term[|term| - 4..]; }
      assert term == x + term[|term| - 4..];
    }
  }

  lemma ReverseCall(x: string, word: string)
    requires x != "" && !IsSpace(x[0]) && x[|x| - 1] == ')' && (word == "DESC" || word == "ASC")
    ensures ReverseTerm(x + [' '] + word) == x + [' '] + (if word == "DESC" then "ASC" else "DESC")
  {
    hide TrimSpace, ToUpper, HasSuffix;
    var term := x + [' '] + word;
    assert term[0] == x[0] && term[|term| - 1] == word[|word| - 1];
    assert Trimmed(term) && Trimmed(x);
    TrimSpaceTrims(term);
    TrimSpaceTrims(x);
    Words();
    SuffixSees(x, ' ', word);
    assert term[..|x|] == x;
    Spaced();
  }

  lemma Spaced()
    ensures " DESC" == [' '] + "DESC" && " ASC" == [' '] + "ASC"
  {
  }

  lemma ReverseRanking(term: string)
    requires !ValidIdent(term) && Meaning(term).Some?
    ensures Meaning(ReverseTerm(term)) == Some((Meaning(term).value.0, !Meaning(term).value.1))
    ensures Turns(ReverseTerm(term))
  {
    hide ValidIdent, ReverseTerm, Meaning, Turns;
    var x, word := RankingParts(term);
    RankingReads(x, word);
    ReverseCall(x, word);
    RankingReads(x, if word == "DESC" then "ASC" else "DESC");
  }

  // Every term with a meaning is reversed in meaning exactly when it turns.
  lemma ReverseMeansIff(term: string)
    requires Meaning(term).Some?
    ensures Turns(term) <==> Meaning(ReverseTerm(term)) == Some((Meaning(term).value.0, !Meaning(term).value.1))
    ensures Turns(term) ==> Turns(ReverseTerm(term))
  {
    hide ValidIdent, ReverseTerm, Ordering, SpaceBefore, Ranking;
    if ValidIdent(term) {
      ReverseFlipsIff(term);
      if !SpaceBefore(term) {
        NotRanking(term);
      }
    } else {
      ReverseRanking(term);
    }
  }

  // A term that does not turn becomes no ordering term at all.
  lemma NotRanking(term: string)
    requires ValidIdent(term) && !SpaceBefore(term)
    ensures Meaning(ReverseTerm(term)).None?
  {
    hide ValidIdent, ReverseTerm, Ordering, SpaceBefore, TrimSpace;
    ReverseFlipsIff(term);
    var r := ReverseTerm(term);
    ReversedIsClean(term);
    if HasSuffix(r, ") DESC") || HasSuffix(r, ") ASC") {
      ParenIn(r);
    }
  }

  lemma ReversedIsClean(term: string)
    requires ValidIdent(term)
    ensures ')' !in ReverseTerm(term)
  {
    hide ValidIdent, TrimSpace, ToUpper;
    assert Foreign(')');
    ValidIdentClean(term);
    var t := TrimSpace(term);
    UpperLength(t);
    TrimmedFrom(term, ')');
    if |t| >= 4 {
      TrimmedFrom(t[..|t| - 4], ')');
    }
    if |t| >= 5 {
      TrimmedFrom(t[..|t| - 5], ')');
    }
  }

  lemma TrimmedFrom(s: string, c: char)
    requires c !in s
    ensures c !in TrimSpace(s)
  {
    if c in TrimSpace(s) {
      TrimSpaceMembers(s, c);
    }
  }

  ghost predicate Readable(terms: seq<string>) { forall t :: t in terms ==> Meaning(t).Some? }

  // How two rows compare under a list of terms: by the first term that tells them apart. `cmp` compares
  // two rows by one expression.
  function Compared<R(!new)>(terms: seq<string>, cmp: (string, R, R) -> int, a: R, b: R): int
    requires Readable(terms)
  {
    if terms == [] then 0
    else
      assert terms[0] in terms;
      var m := Meaning(terms[0]).value;
      var c := cmp(m.0, a, b);
      if c != 0 then (if m.1 then -c else c) else Compared(terms[1..], cmp, a, b)
  }

  // The reversed list is one that can be read if and only if every term turns, and then it compares any two
  // rows exactly the other way round.
  lemma {:induction false} AllReversedIff<R(!new)>(terms: seq<string>, meta: Meta, cmp: (string, R, R) -> int, a: R, b: R)
    requires Readable(terms) && terms != []
    requires forall col, x, y :: cmp(col, x, y) == -cmp(col, y, x)
    ensures Readable(Reverse(terms, meta)) <==> forall t :: t in terms ==> Turns(t)
    ensures Readable(Reverse(terms, meta)) ==> Compared(Reverse(terms, meta), cmp, a, b) == Compared(terms, cmp, b, a)
  {
    hide Meaning, ReverseTerm, Turns;
    var out := Reverse(terms, meta);
    AllReadableIff(terms, meta);
    if Readable(out) {
      assert terms[0] in terms && out[0] in out;
      ReverseMeansIff(terms[0]);
      if |terms| > 1 {
        assert out[1..] == Reverse(terms[1..], meta);
        AllReversedIff(terms[1..], meta, cmp, a, b);
      } else {
        assert out[1..] == [] && terms[1..] == [];
      }
    }
  }

  lemma AllReadableIff(terms: seq<string>, meta: Meta)
    requires Readable(terms) && terms != []
    ensures Readable(Reverse(terms, meta)) <==> forall t :: t in terms ==> Turns(t)
  {
    hide Meaning, ReverseTerm, Turns;
    var out := Reverse(terms, meta);
    forall i | 0 <= i < |terms|
      ensures Meaning(out[i]).Some? <==> Turns(terms[i])
    {
      assert terms[i] in terms;
      ReverseReadable(terms[i]);
    }
    assert forall i :: 0 <= i < |terms| ==> terms[i] in terms && out[i] in out;
  }

  lemma ReverseReadable(term: string)
    requires Meaning(term).Some?
    ensures Meaning(ReverseTerm(term)).Some? <==> Turns(term)
  {
    hide ValidIdent, ReverseTerm, Ordering, SpaceBefore, Ranking;
    ReverseMeansIff(term);
    if !Turns(term) {
      NotRanking(term);
    }
  }

  // ---------- the reversed query ----------

  lemma ReverseTermCounts(term: string)
    requires Tidy(term)
    ensures Tidy(ReverseTerm(term)) && Marks(ReverseTerm(term)) == Marks(term)
  {
    hide TrimSpace, Marks, Tidy, ToUpper, HasSuffix;
    TrimSpaceTrims(term);
    var t := TrimSpace(term);
    DirectionsInert();
    if HasSuffix(ToUpper(t), " DESC") {
      CutCounts(t, " DESC", " ASC");
    } else if HasSuffix(ToUpper(t), " ASC") {
      CutCounts(t, " ASC", " DESC");
    } else {
      InertAdded(t, " DESC");
    }
  }

  lemma CutCounts(t: string, suffix: string, other: string)
    requires HasSuffix(ToUpper(t), suffix) && (suffix == " DESC" || suffix == " ASC") && Tidy(t) && Inert(other)
    ensures |suffix| <= |t|
    ensures var r := TrimSpace(t[..|t| - |suffix|]) + other; Tidy(r) && Marks(r) == Marks(t)
  {
    hide TrimSpace, Marks, Tidy, ToUpper;
    SuffixCounts(t, suffix);
    TrimSpaceTrims(t[..|t| - |suffix|]);
    InertAdded(TrimSpace(t[..|t| - |suffix|]), other);
  }

  lemma DirectionsInert()
    ensures Inert(" ASC") && Inert(" DESC")
  {
  }

  lemma InertAdded(a: string, b: string)
    requires Tidy(a) && Inert(b)
    ensures Tidy(a + b) && Marks(a + b) == Marks(a)
  {
    ClosedConcat(a, b);
    InertIsClosed(b);
  }

  lemma SuffixCounts(t: string, suffix: string)
    requires HasSuffix(ToUpper(t), suffix) && (suffix == " DESC" || suffix == " ASC") && Tidy(t)
    ensures |suffix| <= |t| && Tidy(t[..|t| - |suffix|]) && Marks(t[..|t| - |suffix|]) == Marks(t)
  {
    hide Marks, Closed, QuotedMarks, ToUpper;
    UpperLength(t);
    var n := |t| - |suffix|;
    var head, tail := t[..n], t[n..];
    assert t == head + tail;
    assert ToUpper(tail) == suffix by { UpperTail(t, n); }
    InertFromUpper(tail, suffix);
    InertDropped(head, tail);
  }

  lemma UpperTail(t: string, n: nat)
    requires n <= |t|
    ensures ToUpper(t[n..]) == ToUpper(t)[n..]
  {
  }

  lemma InertFromUpper(tail: string, suffix: string)
    requires ToUpper(tail) == suffix && Inert(suffix)
    ensures Inert(tail)
  {
    assert forall i :: 0 <= i < |tail| ==> UpperChar(tail[i]) in suffix by {
      assert forall i :: 0 <= i < |tail| ==> UpperChar(tail[i]) == suffix[i];
    }
    assert UpperChar('?') == '?' && UpperChar('\'') == '\'' && UpperChar('"') == '"' && UpperChar('`') == '`';
  }

  lemma {:induction false} ReverseCounts(terms: seq<string>, meta: Meta)
    requires terms != [] && AllTidy(terms)
    ensures MarksAll(Reverse(terms, meta)) == MarksAll(terms) && AllTidy(Reverse(terms, meta))
  {
    hide ReverseTerm, Marks, Tidy;
    var out := Reverse(terms, meta);
    var n := |terms| - 1;
    assert terms[n] in terms;
    ReverseTermCounts(terms[n]);
    if n == 0 {
      assert out[..0] == [] && terms[..0] == [];
    } else {
      assert out[..n] == Reverse(terms[..n], meta);
      ReverseCounts(terms[..n], meta);
      assert out == out[..n] + [out[n]];
    }
  }

  // The query that Last runs prints as many placeholders as arguments, each in its place.
  lemma LastMeans(b: Builder)
    requires Sound(b) && Matched(b)
    ensures var r := Reversed(b);
      && Sound(r) && Matched(r)
      && Marks(SelectText(r, 1)) == |SelectArgs(r, 1)|
      && Bind(SelectText(r, 1), SelectArgs(r, 1)) == BoundSelect(r, 1)
  {
    hide Bind, Marks, Closed, QuotedMarks, SelectText, SelectArgs, BoundSelect, MatchedClauses, ReverseTerm, MarksAll,
         Concat;
    var r := Reversed(b);
    if b.orderBy == [] {
      assert MarksAll(b.orderBy) == 0 by { NoTerms(); }
      InertAll(r.orderBy);
    } else {
      ReverseCounts(b.orderBy, b.meta);
    }
    SelectMeans(r, 1);
  }

  lemma NoTerms()
    ensures MarksAll([]) == 0
  {
  }

  // ---------- the ordering of any chain of calls ----------

  // The ordering terms a call gives
  function Given(c: Call): seq<string> { if c.OrderBy? then c.cols else [] }

  // Model names are plain identifiers.
  ghost predicate NamedPlainly(meta: Meta) {
    IsName(meta.table) && forall f :: f in meta.fields ==> IsName(f.name)
  }

  lemma ColumnIsTerm(col: string)
    requires IsColumn(col)
    ensures ValidIdent(col) && SpaceBefore(col)
  {
    hide TrimSpace, AfterQualified;
    ColumnTrimmed(col, "");
    assert col + "" == col;
  }

  lemma RankReadable(x: string)
    requires x != "" && !IsSpace(x[0]) && x[|x| - 1] == ')'
    ensures Meaning(x + " DESC").Some? && Turns(x + " DESC")
  {
    RankingReads(x, "DESC");
    assert x + " DESC" == x + [' '] + "DESC";
  }

  lemma {:induction false} FieldIsListed(fields: seq<Column>, col: string)
    requires FieldOf(fields, col).Some?
    ensures exists f :: f in fields && f.name == col
  {
    if fields[|fields| - 1].name == col {
      assert fields[|fields| - 1] in fields;
    } else {
      FieldIsListed(fields[..|fields| - 1], col);
      var f :| f in fields[..|fields| - 1] && f.name == col;
      assert f in fields;
    }
  }

  lemma {:induction false} NamesJoined(a: string, b: string)
    requires NameLength(a, false) == |a| && NameLength(b, false) == |b|
    ensures NameLength(a + b, false) == |a + b|
  {
    if a == "" {
      assert a + b == b;
    } else {
      assert (a + b)[1..] == a[1..] + b;
      NamesJoined(a[1..], b);
    }
  }

  lemma Pieces()
    ensures NameLength("_", false) == 1 && NameLength("_fts", false) == 4 && IsName("rank")
  {
    assert forall i :: 0 <= i < 4 ==> IsWordChar("_fts"[i]) && IsWordChar("rank"[i]);
    AllWord("_");
    AllWord("_fts");
    AllWord("rank");
  }

  lemma {:induction false} AllWord(s: string)
    requires forall i :: 0 <= i < |s| ==> IsWordChar(s[i])
    ensures NameLength(s, false) == |s|
  {
    if s != "" {
      AllWord(s[1..]);
    }
  }

  lemma ShadowRank(meta: Meta, col: string)
    requires IsName(meta.table) && IsName(col)
    ensures IsColumn(SearchShadow(meta, col) + ".rank")
  {
    hide NameLength;
    Pieces();
    NamesJoined(meta.table, "_");
    NamesJoined(meta.table + "_", col);
    NamesJoined(meta.table + "_" + col, "_fts");
    var shadow := SearchShadow(meta, col);
    assert shadow[0] == meta.table[0];
    assert IsName(shadow);
    EatNameThen(shadow, ".rank");
    assert ".rank"[1..] == "rank";
    NameFacts("rank");
  }

  // Every ordering term is one that can be read, and those not given by a call turn.
  ghost predicate ReadableOrder(b: Builder, given: seq<string>) {
    forall t :: t in b.orderBy ==> Meaning(t).Some? && (Turns(t) || t in given)
  }

  lemma SearchedOrder(b: Builder, col: string, term: string, given: seq<string>)
    requires ReadableOrder(b, given) && NamedPlainly(b.meta) && IsName(col)
    ensures ReadableOrder(Searching(b, col, term), given)
  {
    hide Meaning, Turns, SearchVector, Language, SearchCondition, MatchHead, MatchTail, IsName, ValidIdent, ValidJoinOn;
    if IsPG(b.driver) {
      RankIs(col);
    } else if b.driver == "mysql" {
      MatchIs(col);
    } else if b.driver == "sqlite" || b.driver == "sqlite3" {
      ShadowRank(b.meta, col);
      ColumnIsTerm(SearchShadow(b.meta, col) + ".rank");
      ColumnMeans(SearchShadow(b.meta, col) + ".rank");
    }
  }

  lemma ColumnMeans(t: string)
    requires ValidIdent(t) && SpaceBefore(t)
    ensures Meaning(t).Some? && Turns(t)
  {
    hide Ordering, ValidIdent, SpaceBefore;
    OrderingIffValid(t);
  }

  lemma RankIs(col: string)
    ensures Meaning(SearchRank(col)).Some? && Turns(SearchRank(col))
  {
    hide Meaning, Turns, SearchVector, Language;
    var x := "ts_rank(" + SearchVector(col) + ", plainto_tsquery(" + Language() + ", " + "?" + "))";
    assert ")) DESC" == "))" + " DESC";
    assert SearchRank(col) == x + " DESC";
    assert x[0] == 't';
    RankReadable(x);
  }

  lemma MatchIs(col: string)
    ensures Meaning(SearchMatch(col) + " DESC").Some? && Turns(SearchMatch(col) + " DESC")
  {
    hide Meaning, Turns;
    assert SearchMatch(col)[0] == 'M';
    RankReadable(SearchMatch(col));
  }

  lemma ApplyOrder(b: Builder, c: Call, given: seq<string>)
    requires ReadableOrder(b, given) && NamedPlainly(b.meta)
    ensures ReadableOrder(Apply(b, c), given + Given(c)) && Apply(b, c).meta == b.meta
  {
    hide Meaning, Turns, Searching, ValidIdent, ValidJoinOn, InCondition, FieldOf, IsName, Ranks;
    ApplyRanks(b, c);
    if c.OrderBy? && AllValid(c.cols) {
      forall t | t in c.cols
        ensures Meaning(t).Some?
      {
        ValidMeans(t);
      }
    }
    if c.Search? && Apply(b, c) == Searching(b, c.col, c.term) && FieldOf(b.meta.fields, c.col).Some? {
      FieldIsListed(b.meta.fields, c.col);
      SearchedOrder(b, c.col, c.term, given);
    }
  }

  lemma ValidMeans(t: string)
    requires ValidIdent(t)
    ensures Meaning(t).Some?
  {
    hide Ordering, ValidIdent;
    OrderingIffValid(t);
  }

  // All ordering terms given by the calls of a chain
  function AllGiven(calls: seq<Call>): seq<string> {
    if calls == [] then [] else Given(calls[0]) + AllGiven(calls[1..])
  }

  lemma {:induction false} ChainOrder(b: Builder, calls: seq<Call>, given: seq<string>)
    requires ReadableOrder(b, given) && NamedPlainly(b.meta)
    ensures ReadableOrder(ApplyAll(b, calls), given + AllGiven(calls))
    decreases |calls|
  {
    hide Apply, Meaning, Turns, IsName;
    if calls == [] {
      assert given + AllGiven(calls) == given;
    } else {
      ApplyOrder(b, calls[0], given);
      ChainOrder(Apply(b, calls[0]), calls[1..], given + Given(calls[0]));
      assert given + AllGiven(calls) == given + Given(calls[0]) + AllGiven(calls[1..]);
    }
  }

  // Main result. For every chain of calls that leaves an ordering, the ordering of Last is valid if and only if
  // every valid term that OrderBy was given, and that is still in force, has no direction word or a space before
  // it; and then it is exactly the reverse.
  lemma ChainReverses<R(!new)>(
    driver: string, schema: string, meta: Meta, calls: seq<Call>, cmp: (string, R, R) -> int, x: R, y: R)
    requires NamedPlainly(meta)
    requires forall col, p, q :: cmp(col, p, q) == -cmp(col, q, p)
    ensures var b := ApplyAll(Fresh(driver, schema, meta), calls);
      && Readable(b.orderBy)
      && (b.orderBy != [] ==> (
            && (Readable(Reversed(b).orderBy)
                <==> forall t :: t in b.orderBy && t in AllGiven(calls) && ValidIdent(t) ==> SpaceBefore(t))
            && (Readable(Reversed(b).orderBy) ==>
                  Compared(Reversed(b).orderBy, cmp, x, y) == Compared(b.orderBy, cmp, y, x))))
  {
    hide Apply, Meaning, IsName, ValidIdent, SpaceBefore, ReverseTerm;
    var b0 := Fresh(driver, schema, meta);
    var b := ApplyAll(b0, calls);
    ChainOrder(b0, calls, []);
    assert [] + AllGiven(calls) == AllGiven(calls);
    if b.orderBy != [] {
      AllReversedIff(b.orderBy, b.meta, cmp, x, y);
    }
  }
}
