/** The functions of Go's `strings` package that the framework's own text handling relies on,
    over sequences of characters. Case mapping covers the ASCII letters. */
module GoStrings {

  datatype Option<+T> = None | Some(value: T) {
    predicate IsFailure() { None? }

    function PropagateFailure<U>(): Option<U>
      requires None?
    {
      None
    }

    function Extract(): T
      requires Some?
    {
      value
    }
  }

  // unicode.IsSpace
  predicate IsSpace(c: char) {
    || c == ' ' || '\t' <= c <= '\r' || c == '\U{85}' || c == '\U{A0}' || c == '\U{1680}'
    || '\U{2000}' <= c <= '\U{200A}' || c == '\U{2028}' || c == '\U{2029}'
    || c == '\U{202F}' || c == '\U{205F}' || c == '\U{3000}'
  }

  predicate IsLowerLetter(c: char) { 'a' <= c <= 'z' }

  predicate IsUpperLetter(c: char) { 'A' <= c <= 'Z' }

  predicate IsDigit(c: char) { '0' <= c <= '9' }

  predicate IsWordStart(c: char) { IsLowerLetter(c) || IsUpperLetter(c) || c == '_' }

  predicate IsWordChar(c: char) { IsWordStart(c) || IsDigit(c) }

  // [a-zA-Z_][a-zA-Z0-9_]*
  predicate IsIdent(s: string) {
    && s != ""
    && IsWordStart(s[0])
    && forall i :: 0 <= i < |s| ==> IsWordChar(s[i])
  }

  function LowerChar(c: char): char {
    if IsUpperLetter(c) then ((c as int) + 32) as char else c
  }

  function UpperChar(c: char): char {
    if IsLowerLetter(c) then ((c as int) - 32) as char else c
  }

  function ToLower(s: string): string {
    seq(|s|, i requires 0 <= i < |s| => LowerChar(s[i]))
  }

  function ToUpper(s: string): string {
    seq(|s|, i requires 0 <= i < |s| => UpperChar(s[i]))
  }

  predicate EqualFold(a: string, b: string) { ToLower(a) == ToLower(b) }

  predicate HasPrefix(s: string, prefix: string) { prefix <= s }

  predicate HasSuffix(s: string, suffix: string) {
    |suffix| <= |s| && s[|s| - |suffix|..] == suffix
  }

  function TrimLeftFunc(s: string, f: char -> bool): string {
    if s != "" && f(s[0]) then TrimLeftFunc(s[1..], f) else s
  }

  function TrimRightFunc(s: string, f: char -> bool): string {
    if s != "" && f(s[|s| - 1]) then TrimRightFunc(s[..|s| - 1], f) else s
  }

  function TrimFunc(s: string, f: char -> bool): string {
    TrimRightFunc(TrimLeftFunc(s, f), f)
  }

  function TrimSpace(s: string): string { TrimFunc(s, IsSpace) }

  // strings.Split with a one-character separator
  function Split(s: string, sep: char): (parts: seq<string>)
    ensures parts != []
  {
    if s == "" then [""]
    else
      var rest := Split(s[1..], sep);
      if s[0] == sep then [""] + rest else [[s[0]] + rest[0]] + rest[1..]
  }

  function Join(parts: seq<string>, sep: string): string {
    if parts == [] then ""
    else if |parts| == 1 then parts[0]
    else parts[0] + sep + Join(parts[1..], sep)
  }

  function WordLength(s: string, sep: char -> bool): (n: nat)
    ensures n <= |s|
    ensures forall i :: 0 <= i < n ==> !sep(s[i])
    ensures n < |s| ==> sep(s[n])
  {
    if s == "" || sep(s[0]) then 0 else 1 + WordLength(s[1..], sep)
  }

  // strings.FieldsFunc: the maximal runs of characters that are not separators
  function FieldsFunc(s: string, sep: char -> bool): (words: seq<string>)
    ensures forall w :: w in words ==> w != "" && forall i :: 0 <= i < |w| ==> !sep(w[i])
    decreases |s|
  {
    if s == "" then []
    else if sep(s[0]) then FieldsFunc(s[1..], sep)
    else
      var n := WordLength(s, sep);
      [s[..n]] + FieldsFunc(s[n..], sep)
  }

  function Fields(s: string): seq<string> { FieldsFunc(s, IsSpace) }

  function Count(s: string, c: char): nat {
    if s == "" then 0 else (if s[0] == c then 1 else 0) + Count(s[1..], c)
  }

  function Spaces(n: nat): string { seq(n, _ => ' ') }

  // fmt's %-<width>s
  function PadRight(s: string, width: nat): string {
    if |s| < width then s + Spaces(width - |s|) else s
  }

  function Digit(d: nat): char
    requires d < 10
  {
    (('0' as int) + d) as char
  }

  // strconv.Itoa on the non-negative integers
  function Itoa(n: nat): (s: string)
    ensures s != ""
    ensures forall i :: 0 <= i < |s| ==> IsDigit(s[i])
  {
    if n < 10 then [Digit(n)] else Itoa(n / 10) + [Digit(n % 10)]
  }

  // Byte-wise string order, the order of sort.Strings
  predicate StringLess(a: string, b: string) {
    b != "" && (a == "" || a[0] < b[0] || (a[0] == b[0] && StringLess(a[1..], b[1..])))
  }

  function InsertString(x: string, s: seq<string>): seq<string> {
    if s == [] || !StringLess(s[0], x) then [x] + s else [s[0]] + InsertString(x, s[1..])
  }

  // sort.Strings
  function SortStrings(s: seq<string>): seq<string> {
    if s == [] then [] else InsertString(s[0], SortStrings(s[1..]))
  }

  ghost predicate StrictlySorted(s: seq<string>) {
    forall i, j :: 0 <= i < j < |s| ==> StringLess(s[i], s[j])
  }

  // The elements of a set in string order
  ghost predicate IsListing(list: seq<string>, elements: set<string>) {
    StrictlySorted(list) && forall x :: x in list <==> x in elements
  }

  function Unlines(lines: seq<string>): string {
    if lines == [] then "" else lines[0] + "\n" + Unlines(lines[1..])
  }

  // ---------- laws ----------

  lemma {:induction false} TrimLeftKeeps(pad: string, s: string, f: char -> bool)
    requires forall i :: 0 <= i < |pad| ==> f(pad[i])
    requires s != "" ==> !f(s[0])
    ensures TrimLeftFunc(pad + s, f) == s
  {
    if pad == "" {
      assert pad + s == s;
    } else {
      assert (pad + s)[1..] == pad[1..] + s;
      TrimLeftKeeps(pad[1..], s, f);
    }
  }

  // Only the part after the last kept character is ever trimmed on the right.
  lemma {:induction false} TrimRightKeeps(s: string, tail: string, f: char -> bool)
    requires s != "" && !f(s[|s| - 1])
    ensures TrimRightFunc(s + tail, f) == s + TrimRightFunc(tail, f)
  {
    if tail == "" {
      assert s + tail == s;
    } else if f(tail[|tail| - 1]) {
      assert (s + tail)[..|s + tail| - 1] == s + tail[..|tail| - 1];
      TrimRightKeeps(s, tail[..|tail| - 1], f);
    } else {
      assert (s + tail)[|s + tail| - 1] == tail[|tail| - 1];
    }
  }

  lemma {:induction false} TrimRightIsPrefix(s: string, f: char -> bool)
    ensures TrimRightFunc(s, f) <= s
  {
    if s != "" && f(s[|s| - 1]) {
      TrimRightIsPrefix(s[..|s| - 1], f);
    }
  }

  lemma {:induction false} TrimLeftIsSuffix(s: string, f: char -> bool)
    ensures |TrimLeftFunc(s, f)| <= |s|
    ensures TrimLeftFunc(s, f) == s[|s| - |TrimLeftFunc(s, f)|..]
    ensures TrimLeftFunc(s, f) != "" ==> !f(TrimLeftFunc(s, f)[0])
  {
    if s != "" && f(s[0]) {
      TrimLeftIsSuffix(s[1..], f);
    }
  }

  lemma TrimSpaceMembers(s: string, c: char)
    requires c in TrimSpace(s)
    ensures c in s
  {
    TrimLeftIsSuffix(s, IsSpace);
    TrimRightIsPrefix(TrimLeftFunc(s, IsSpace), IsSpace);
  }

  lemma TrimFuncMembers(s: string, f: char -> bool, c: char)
    requires c in TrimFunc(s, f)
    ensures c in s
  {
    TrimLeftIsSuffix(s, f);
    TrimRightIsPrefix(TrimLeftFunc(s, f), f);
  }

  // A text that neither starts nor ends with a trimmed character is left alone.
  lemma TrimFuncIdentity(s: string, f: char -> bool)
    requires s != "" ==> !f(s[0]) && !f(s[|s| - 1])
    ensures TrimFunc(s, f) == s
  {
  }

  // The first word of a text is the run up to its first separator.
  lemma FirstField(word: string, rest: string, sep: char -> bool)
    requires word != "" && forall i :: 0 <= i < |word| ==> !sep(word[i])
    requires rest != "" ==> sep(rest[0])
    ensures FieldsFunc(word + rest, sep) != []
    ensures FieldsFunc(word + rest, sep)[0] == word
  {
    var s := word + rest;
    var n := WordLength(s, sep);
    assert s[0] == word[0];
    assert forall i :: 0 <= i < |word| ==> s[i] == word[i];
    assert rest != "" ==> s[|word|] == rest[0];
    assert n == |word|;
    assert s[..n] == word;
  }

  lemma {:induction false} SplitFirst(head: string, tail: string, sep: char)
    requires sep !in head
    ensures Split(head + [sep] + tail, sep) == [head] + Split(tail, sep)
  {
    var s := head + [sep] + tail;
    if head == "" {
      assert s[0] == sep && s[1..] == tail;
    } else {
      SplitFirst(head[1..], tail, sep);
      assert s[0] == head[0] && s[1..] == head[1..] + [sep] + tail;
      assert [head[0]] + head[1..] == head;
    }
  }

  lemma {:induction false} SplitNone(s: string, sep: char)
    requires sep !in s
    ensures Split(s, sep) == [s]
  {
    if s != "" {
      SplitNone(s[1..], sep);
      assert [s[0]] + s[1..] == s;
    }
  }

  lemma {:induction false} SplitPartsLackSeparator(s: string, sep: char)
    ensures forall p :: p in Split(s, sep) ==> sep !in p
  {
    if s != "" {
      SplitPartsLackSeparator(s[1..], sep);
      var rest := Split(s[1..], sep);
      forall p | p in Split(s, sep)
        ensures sep !in p
      {
        if s[0] != sep && p == [s[0]] + rest[0] {
          assert rest[0] in rest;
        }
      }
    }
  }

  // Splitting after joining gives the parts back.
  lemma {:induction false} SplitJoin(parts: seq<string>, sep: char)
    requires parts != []
    requires forall p :: p in parts ==> sep !in p
    ensures Split(Join(parts, [sep]), sep) == parts
  {
    if |parts| == 1 {
      SplitNone(parts[0], sep);
      assert parts == [parts[0]];
    } else {
      SplitJoin(parts[1..], sep);
      SplitFirst(parts[0], Join(parts[1..], [sep]), sep);
      assert [parts[0]] + parts[1..] == parts;
    }
  }

  // Joining after splitting gives the text back.
  lemma {:induction false} JoinSplit(s: string, sep: char)
    ensures Join(Split(s, sep), [sep]) == s
  {
    if s != "" {
      JoinSplit(s[1..], sep);
      var rest := Split(s[1..], sep);
      var parts := Split(s, sep);
      if s[0] == sep {
        assert parts[1..] == rest;
      } else if |rest| > 1 {
        assert parts[1..] == rest[1..];
      }
    }
  }

  lemma {:induction false} UnlinesConcat(a: seq<string>, b: seq<string>)
    ensures Unlines(a + b) == Unlines(a) + Unlines(b)
  {
    if a == [] {
      assert a + b == b;
    } else {
      assert (a + b)[1..] == a[1..] + b;
      UnlinesConcat(a[1..], b);
    }
  }

  // A text of whole lines splits into those lines and the empty rest after the last newline.
  lemma {:induction false} SplitUnlines(lines: seq<string>, tail: string)
    requires forall l :: l in lines ==> '\n' !in l
    ensures Split(Unlines(lines) + tail, '\n') == lines + Split(tail, '\n')
  {
    hide Split;
    if lines == [] {
      assert Unlines(lines) + tail == tail;
    } else {
      SplitUnlines(lines[1..], tail);
      SplitFirst(lines[0], Unlines(lines[1..]) + tail, '\n');
      assert Unlines(lines) + tail == lines[0] + ['\n'] + (Unlines(lines[1..]) + tail);
      assert [lines[0]] + (lines[1..] + Split(tail, '\n')) == lines + Split(tail, '\n');
    }
  }

  lemma {:induction false} CountConcat(a: string, b: string, c: char)
    ensures Count(a + b, c) == Count(a, c) + Count(b, c)
  {
    if a == "" {
      assert a + b == b;
    } else {
      assert (a + b)[1..] == a[1..] + b;
      CountConcat(a[1..], b, c);
    }
  }

  lemma {:induction false} CountZero(s: string, c: char)
    ensures Count(s, c) == 0 <==> c !in s
  {
    if s != "" {
      CountZero(s[1..], c);
      assert s == [s[0]] + s[1..];
    }
  }

  lemma UpperLength(s: string)
    ensures |ToUpper(s)| == |s|
  {
  }

  lemma UpperOfConcat(a: string, b: string)
    ensures ToUpper(a + b) == ToUpper(a) + ToUpper(b)
  {
  }

  // ---------- the string order ----------

  lemma {:induction false} StringLessTotal(a: string, b: string)
    ensures StringLess(a, b) || a == b || StringLess(b, a)
  {
    if a != "" && b != "" && a[0] == b[0] {
      StringLessTotal(a[1..], b[1..]);
      assert a == [a[0]] + a[1..] && b == [b[0]] + b[1..];
    }
  }

  lemma {:induction false} StringLessIrreflexive(a: string)
    ensures !StringLess(a, a)
  {
    if a != "" {
      StringLessIrreflexive(a[1..]);
    }
  }

  lemma {:induction false} StringLessTransitive(a: string, b: string, c: string)
    requires StringLess(a, b) && StringLess(b, c)
    ensures StringLess(a, c)
  {
    if a != "" && a[0] == b[0] && b[0] == c[0] {
      StringLessTransitive(a[1..], b[1..], c[1..]);
    }
  }

  lemma {:induction false} InsertKeepsSorted(x: string, s: seq<string>)
    requires StrictlySorted(s) && x !in s
    ensures StrictlySorted(InsertString(x, s))
    ensures forall y :: y in InsertString(x, s) <==> y == x || y in s
  {
    if s == [] {
    } else if !StringLess(s[0], x) {
      StringLessTotal(s[0], x);
      forall i | 0 <= i < |s|
        ensures StringLess(x, s[i])
      {
        if i > 0 {
          StringLessTransitive(x, s[0], s[i]);
        }
      }
    } else {
      InsertKeepsSorted(x, s[1..]);
      var rest := InsertString(x, s[1..]);
      forall y | y in rest
        ensures StringLess(s[0], y)
      {
      }
      assert s == [s[0]] + s[1..];
    }
  }

  lemma {:induction false} SortedListing(s: seq<string>)
    requires forall i, j :: 0 <= i < j < |s| ==> s[i] != s[j]
    ensures IsListing(SortStrings(s), set x | x in s)
  {
    if s != [] {
      SortedListing(s[1..]);
      assert s[0] !in s[1..];
      InsertKeepsSorted(s[0], SortStrings(s[1..]));
      assert s == [s[0]] + s[1..];
    }
  }

  // A set has only one listing, so what is printed does not depend on map iteration order.
  lemma {:induction false} ListingUnique(a: seq<string>, b: seq<string>, elements: set<string>)
    requires IsListing(a, elements) && IsListing(b, elements)
    ensures a == b
    decreases |a|
  {
    assert b != [] ==> b[0] in elements;
    assert a != [] ==> a[0] in elements;
    if a != [] {
      assert a[0] in a && a[0] in b;
      assert b[0] in b && b[0] in a;
      if a[0] != b[0] {
        StringLessTransitive(a[0], b[0], a[0]);
        StringLessIrreflexive(a[0]);
      }
      StringLessIrreflexive(a[0]);
      assert forall x :: x in a[1..] <==> x in elements - {a[0]};
      assert forall x :: x in b[1..] <==> x in elements - {a[0]};
      ListingUnique(a[1..], b[1..], elements - {a[0]});
    }
  }
}
