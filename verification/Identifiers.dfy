/** The validation of column names, ORDER BY terms and JOIN conditions. */
module Identifiers {
  import opened GoStrings
  import opened Patterns

  // name or name.name, and what follows
  function AfterQualified(t: string): Option<string> {
    var first :- EatName(t, false);
    if first.1 != "" && first.1[0] == '.' then
      var second :- EatName(first.1[1..], false);
      Some(second.1)
    else Some(first.1)
  }

  // name.name, and what follows
  function AfterDotted(t: string): Option<string> {
    var first :- EatName(t, false);
    if first.1 != "" && first.1[0] == '.' then
      var second :- EatName(first.1[1..], false);
      Some(second.1)
    else None
  }

  // reIdent: a column, table.column, either with ASC or DESC
  predicate ValidIdent(s: string) {
    var rest := AfterQualified(TrimSpace(s));
    rest.Some? && (rest.value == "" || IsDirection(EatSpaces(rest.value)))
  }

  predicate IsDirection(word: Option<string>) {
    word.Some? && (ToUpper(word.value) == "ASC" || ToUpper(word.value) == "DESC")
  }

  // reJoinOn: table.column = table.column
  predicate ValidJoinOn(s: string) {
    var left := AfterDotted(TrimSpace(s));
    left.Some? && EqualsDotted(SkipSpaces(left.value))
  }

  predicate EqualsDotted(t: string) {
    t != "" && t[0] == '=' && AfterDotted(SkipSpaces(t[1..])) == Some("")
  }

  // A character no identifier or condition of this kind contains
  predicate Foreign(c: char) { !IsWordChar(c) && !IsSpace(c) && !IsReSpace(c) && c != '.' && c != '=' }

  ghost predicate Clean(s: string) { forall c :: Foreign(c) ==> c !in s }

  lemma EatNameKeeps(t: string, c: char)
    requires c in t && Foreign(c) && EatName(t, false).Some?
    ensures c in EatName(t, false).value.1
  {
    var n := NameLength(t, false);
    assert t == t[..n] + t[n..];
  }

  lemma {:induction false} SkipSpacesKeeps(t: string, c: char)
    requires c in t && !IsReSpace(c)
    ensures c in SkipSpaces(t)
  {
    if IsReSpace(t[0]) {
      assert t == [t[0]] + t[1..];
      SkipSpacesKeeps(t[1..], c);
    }
  }

  lemma AfterQualifiedKeeps(t: string, c: char)
    requires c in t && Foreign(c)
    ensures AfterQualified(t).Some? ==> c in AfterQualified(t).value
    ensures AfterDotted(t).Some? ==> c in AfterDotted(t).value
  {
    hide EatName;
    var first := EatName(t, false);
    if first.Some? {
      EatNameKeeps(t, c);
      var r := first.value.1;
      if r[0] == '.' {
        assert r == [r[0]] + r[1..];
        if EatName(r[1..], false).Some? {
          EatNameKeeps(r[1..], c);
        }
      }
    }
  }

  lemma {:induction false} TrimLeftKeepsChar(s: string, c: char)
    requires c in s && !IsSpace(c)
    ensures c in TrimLeftFunc(s, IsSpace)
  {
    if IsSpace(s[0]) {
      assert s == [s[0]] + s[1..];
      TrimLeftKeepsChar(s[1..], c);
    }
  }

  lemma {:induction false} TrimRightKeepsChar(s: string, c: char)
    requires c in s && !IsSpace(c)
    ensures c in TrimRightFunc(s, IsSpace)
  {
    if IsSpace(s[|s| - 1]) {
      assert s == s[..|s| - 1] + [s[|s| - 1]];
      TrimRightKeepsChar(s[..|s| - 1], c);
    }
  }

  lemma TrimKeepsChar(s: string, c: char)
    requires c in s && !IsSpace(c)
    ensures c in TrimSpace(s)
  {
    TrimLeftKeepsChar(s, c);
    TrimRightKeepsChar(TrimLeftFunc(s, IsSpace), c);
  }

  lemma DirectionClean(word: string, c: char)
    requires Foreign(c) && (ToUpper(word) == "ASC" || ToUpper(word) == "DESC")
    ensures c !in word
  {
    forall i | 0 <= i < |word|
      ensures word[i] != c
    {
      assert UpperChar(word[i]) == ToUpper(word)[i];
    }
  }

  // A valid identifier cannot smuggle a placeholder or a statement into the text.
  lemma ValidIdentClean(s: string)
    requires ValidIdent(s)
    ensures Clean(s)
  {
    hide EatName, TrimSpace, AfterQualified, Foreign;
    forall c | Foreign(c)
      ensures c !in s
    {
      assert !IsSpace(c) && !IsReSpace(c) by { ForeignFacts(c); }
      if c in s {
        TrimKeepsChar(s, c);
        AfterQualifiedKeeps(TrimSpace(s), c);
        var rest := AfterQualified(TrimSpace(s)).value;
        SkipSpacesKeeps(rest, c);
        DirectionClean(SkipSpaces(rest), c);
      }
    }
  }

  lemma ForeignFacts(c: char)
    requires Foreign(c)
    ensures !IsSpace(c) && !IsReSpace(c) && c != '.' && c != '='
  {
  }

  lemma ValidJoinOnClean(s: string)
    requires ValidJoinOn(s)
    ensures Clean(s)
  {
    hide EatName, TrimSpace, AfterDotted, Foreign;
    forall c | Foreign(c)
      ensures c !in s
    {
      ForeignFacts(c);
      if c in s {
        TrimKeepsChar(s, c);
        AfterQualifiedKeeps(TrimSpace(s), c);
        var left := AfterDotted(TrimSpace(s)).value;
        SkipSpacesKeeps(left, c);
        var t := SkipSpaces(left);
        assert t == [t[0]] + t[1..];
        SkipSpacesKeeps(t[1..], c);
        AfterQualifiedKeeps(SkipSpaces(t[1..]), c);
      }
    }
  }
}
