/** The pieces the framework's regular expressions are made of, as matchers on the front of a text. */
module Patterns {
  import opened GoStrings

  // \s of a Go regular expression
  predicate IsReSpace(c: char) { c == ' ' || c == '\t' || c == '\n' || c == '\U{0C}' || c == '\r' }

  // A word matched without regard to case; `word` is in capitals.
  function EatWord(s: string, word: string): Option<string> {
    if |word| <= |s| && ToUpper(s[..|word|]) == word then Some(s[|word|..]) else None
  }

  function SkipSpaces(s: string): string {
    if s != "" && IsReSpace(s[0]) then SkipSpaces(s[1..]) else s
  }

  // \s+
  function EatSpaces(s: string): Option<string> {
    if s != "" && IsReSpace(s[0]) then Some(SkipSpaces(s)) else None
  }

  // "?
  function EatQuote(s: string): string {
    if s != "" && s[0] == '\"' then s[1..] else s
  }

  function NameLength(s: string, dots: bool): (n: nat)
    ensures n <= |s|
    ensures forall i :: 0 <= i < n ==> IsWordChar(s[i]) || (dots && s[i] == '.')
    ensures n < |s| ==> !(IsWordChar(s[n]) || (dots && s[n] == '.'))
  {
    if s != "" && (IsWordChar(s[0]) || (dots && s[0] == '.')) then 1 + NameLength(s[1..], dots) else 0
  }

  // [a-zA-Z_]\w*, or [a-zA-Z_][\w.]* when dots are allowed
  function EatName(s: string, dots: bool): Option<(string, string)> {
    if s != "" && IsWordStart(s[0]) then
      var n := NameLength(s, dots);
      Some((s[..n], s[n..]))
    else None
  }

}
