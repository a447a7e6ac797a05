/** What a SQL text with placeholders means once its arguments are bound, and the rewriting of `?` to
    PostgreSQL's numbered placeholders. */
module SqlBinding {
  import opened GoStrings
  import opened SqlQuotes

  // A Go value: an argument of a query, a field of a row or a cursor. SizedInt holds the integer types other
  // than int; `zero` says whether reflection sees the zero of any other type.
  datatype Value =
    | Nil
    | IntValue(n: int)
    | SizedInt(bits: nat, signed: bool, n: int)
    | FloatValue(r: real)
    | BoolValue(b: bool)
    | TextValue(s: string)
    | BytesValue(bytes: seq<nat>)
    | SliceValue(items: seq<Value>)
    | OtherValue(id: nat, zero: bool)

  // isZeroValue. In a case of several types the value keeps its own type and is compared with the int 0,
  // so only an int can equal it.
  function IsZeroValue(val: Value): bool {
    match val
    case Nil => true
    case TextValue(s) => s == ""
    case IntValue(n) => n == 0
    case SizedInt(_, _, _) => false
    case FloatValue(_) => false
    case BoolValue(b) => !b
    case BytesValue(bytes) => bytes == []
    case SliceValue(_) => false
    case OtherValue(_, zero) => zero
  }

  // What its comment promises: the zero of the value's own type
  predicate IsGoZero(val: Value) {
    match val
    case Nil => true
    case TextValue(s) => s == ""
    case IntValue(n) => n == 0
    case SizedInt(_, _, n) => n == 0
    case FloatValue(r) => r == 0.0
    case BoolValue(b) => !b
    case BytesValue(bytes) => bytes == []
    case SliceValue(_) => false
    case OtherValue(_, zero) => zero
  }

  // It keeps its promise for exactly the values that are not a zero of a numeric type other than int.
  lemma ZeroValueIff(val: Value)
    ensures IsZeroValue(val) ==> IsGoZero(val)
    ensures (IsZeroValue(val) <==> IsGoZero(val))
      <==> !((val.SizedInt? && val.n == 0) || (val.FloatValue? && val.r == 0.0))
  {
  }

  // A bound query: its characters, with the arguments in the places of their placeholders
  datatype Piece = Ch(c: char) | Arg(v: Value)

  function Chars(s: string): seq<Piece> { seq(|s|, i requires 0 <= i < |s| => Ch(s[i])) }

  // The k-th `?` outside quotes means the k-th argument.
  function Bind(sql: string, args: seq<Value>): seq<Piece>
    requires Marks(sql) == |args|
  {
    BindFrom(sql, None, args)
  }

  // The same where the quote q is open
  function BindFrom(sql: string, q: Option<char>, args: seq<Value>): seq<Piece>
    requires MarksFrom(sql, q) == |args|
  {
    if sql == "" then []
    else if sql[0] == '?' && q.None? then [Arg(args[0])] + BindFrom(sql[1..], q, args[1..])
    else [Ch(sql[0])] + BindFrom(sql[1..], QuoteStep(q, sql[0]), args)
  }

  // One character: a placeholder takes the first argument
  function Taken(c: char, q: Option<char>): nat { if c == '?' && q.None? then 1 else 0 }

  lemma BindUnfold(c: char, rest: string, q: Option<char>, args: seq<Value>)
    requires Taken(c, q) <= |args| && MarksFrom(rest, QuoteStep(q, c)) == |args| - Taken(c, q)
    ensures MarksFrom([c] + rest, q) == |args|
    ensures BindFrom([c] + rest, q, args)
         == [if Taken(c, q) == 1 then Arg(args[0]) else Ch(c)] + BindFrom(rest, QuoteStep(q, c), args[Taken(c, q)..])
  {
    assert ([c] + rest)[1..] == rest;
    if Taken(c, q) == 0 {
      assert args[0..] == args;
    }
  }

  lemma BindConcatStep(c: char, rest: string, q: Option<char>, x: seq<Value>, b: string, q2: Option<char>, y: seq<Value>)
    requires Taken(c, q) <= |x| && MarksFrom(rest, QuoteStep(q, c)) == |x| - Taken(c, q) && MarksFrom(b, q2) == |y|
    requires MarksFrom(rest + b, QuoteStep(q, c)) == |x| - Taken(c, q) + |y|
    requires BindFrom(rest + b, QuoteStep(q, c), x[Taken(c, q)..] + y)
          == BindFrom(rest, QuoteStep(q, c), x[Taken(c, q)..]) + BindFrom(b, q2, y)
    ensures MarksFrom([c] + (rest + b), q) == |x| + |y| && MarksFrom([c] + rest, q) == |x|
    ensures BindFrom([c] + (rest + b), q, x + y) == BindFrom([c] + rest, q, x) + BindFrom(b, q2, y)
  {
    hide BindFrom, MarksFrom, QuoteStep;
    var k := Taken(c, q);
    assert (x + y)[k..] == x[k..] + y;
    BindUnfold(c, rest, q, x);
    BindUnfold(c, rest + b, q, x + y);
  }

  lemma {:induction false} BindFromConcat(a: string, q: Option<char>, x: seq<Value>, b: string, y: seq<Value>)
    requires MarksFrom(a, q) == |x| && MarksFrom(b, QuoteAfter(a, q)) == |y|
    ensures MarksFrom(a + b, q) == |x + y|
    ensures BindFrom(a + b, q, x + y) == BindFrom(a, q, x) + BindFrom(b, QuoteAfter(a, q), y)
  {
    ScanConcat(a, b, q);
    if a == "" {
      NothingBindsFrom(q);
      assert a + b == b && x + y == y;
    } else {
      var c, rest := a[0], a[1..];
      var k, q' := Taken(c, q), QuoteStep(q, c);
      assert QuoteAfter(a, q) == QuoteAfter(rest, q') && MarksFrom(a, q) == k + MarksFrom(rest, q');
      hide BindFrom, MarksFrom, QuoteAfter, Taken;
      BindFromConcat(rest, q', x[k..], b, y);
      BindConcatStep(c, rest, q, x, b, QuoteAfter(a, q), y);
      assert a == [c] + rest && a + b == [c] + (rest + b);
    }
  }

  lemma NothingBindsFrom(q: Option<char>)
    ensures MarksFrom("", q) == 0 && BindFrom("", q, []) == []
  {
  }

  lemma BindConcat(a: string, x: seq<Value>, b: string, y: seq<Value>)
    requires Closed(a) && Marks(a) == |x| && Marks(b) == |y|
    ensures Marks(a + b) == |x + y|
    ensures Bind(a + b, x + y) == Bind(a, x) + Bind(b, y)
  {
    BindFromConcat(a, None, x, b, y);
  }

  // Text without placeholders is bound to itself.
  lemma {:induction false} BindPlain(s: string, q: Option<char>)
    requires MarksFrom(s, q) == 0
    ensures BindFrom(s, q, []) == Chars(s)
  {
    if s != "" {
      BindPlain(s[1..], QuoteStep(q, s[0]));
      assert Chars(s) == [Ch(s[0])] + Chars(s[1..]);
    }
  }

  lemma BindAfterPlain(s: string, b: string, y: seq<Value>)
    requires Inert(s) && Marks(b) == |y|
    ensures Marks(s + b) == |y| && Bind(s + b, y) == Chars(s) + Bind(b, y)
  {
    InertIsClosed(s);
    BindPlain(s, None);
    BindConcat(s, [], b, y);
    assert [] + y == y;
  }

  lemma BindBeforePlain(b: string, y: seq<Value>, s: string)
    requires Inert(s) && Closed(b) && Marks(b) == |y|
    ensures Closed(b + s) && Marks(b + s) == |y| && Bind(b + s, y) == Bind(b, y) + Chars(s)
  {
    InertIsClosed(s);
    ClosedConcat(b, s);
    BindPlain(s, None);
    BindConcat(b, y, s, []);
    assert y + [] == y;
  }

  // ---------- PostgreSQL ----------

  predicate IsPG(driver: string) { driver == "postgres" || driver == "pgx" }

  function Numbered(s: string, n: nat): string {
    if s == "" then ""
    else if s[0] == '?' then "$" + Itoa(n) + Numbered(s[1..], n + 1)
    else [s[0]] + Numbered(s[1..], n)
  }

  function Rewritten(driver: string, query: string): string {
    if IsPG(driver) then Numbered(query, 1) else query
  }

  // rewritePlaceholders
  method RewritePlaceholders(driver: string, query: string) returns (sql: string)
    ensures sql == Rewritten(driver, query)
  {
    if !IsPG(driver) {
      return query;
    }
    var b := "";
    var n := 1;
    assert query[0..] == query;
    for i := 0 to |query|
      invariant n >= 1 && b + Numbered(query[i..], n) == Numbered(query, 1)
    {
      assert query[i..][1..] == query[i + 1..];
      var c := query[i];
      if c == '?' {
        b := b + "$";
        b := b + Itoa(n);
        n := n + 1;
      } else {
        b := b + [c];
      }
    }
    assert query[|query|..] == "";
    return b;
  }

  // A decoder that counts: it turns $1, $2, ... met in order back into question marks.
  function Counted(s: string, n: nat): string
    decreases |s|
  {
    if s == "" then ""
    else if s[0] == '$' && Itoa(n) <= s[1..] then "?" + Counted(s[1 + |Itoa(n)|..], n + 1)
    else [s[0]] + Counted(s[1..], n)
  }

  lemma CountedMark(n: nat, rest: string)
    ensures Counted("$" + Itoa(n) + rest, n) == "?" + Counted(rest, n + 1)
  {
    hide Itoa;
    var t := "$" + Itoa(n) + rest;
    assert t[1..] == Itoa(n) + rest;
    assert t[1 + |Itoa(n)|..] == rest;
  }

  lemma CountedOther(c: char, rest: string, n: nat)
    requires c != '$'
    ensures Counted([c] + rest, n) == [c] + Counted(rest, n)
  {
    assert ([c] + rest)[1..] == rest;
  }

  lemma {:induction false} RewriteDecodes(s: string, n: nat)
    requires '$' !in s
    ensures Counted(Numbered(s, n), n) == s
  {
    hide Itoa, Counted;
    if s == "" {
      CountedNothing(n);
    } else {
      assert s == [s[0]] + s[1..];
      if s[0] == '?' {
        RewriteDecodes(s[1..], n + 1);
        CountedMark(n, Numbered(s[1..], n + 1));
      } else {
        RewriteDecodes(s[1..], n);
        CountedOther(s[0], Numbered(s[1..], n), n);
      }
    }
  }

  lemma CountedNothing(n: nat)
    ensures Counted("", n) == ""
  {
  }

  // strconv.Atoi on digits
  function Number(s: string): nat {
    if s == "" || !IsDigit(s[|s| - 1]) then 0
    else 10 * Number(s[..|s| - 1]) + (s[|s| - 1] as int - '0' as int)
  }

  lemma {:induction false} NumberOfItoa(n: nat)
    ensures Number(Itoa(n)) == n
  {
    if n >= 10 {
      NumberOfItoa(n / 10);
      var s := Itoa(n);
      assert s[..|s| - 1] == Itoa(n / 10);
    } else {
      var s := Itoa(n);
      assert s[..0] == "" && Number("") == 0;
    }
  }

  function DigitsLength(s: string): (n: nat)
    ensures n <= |s|
  {
    if s == "" || !IsDigit(s[0]) then 0 else 1 + DigitsLength(s[1..])
  }

  // How the server reads a statement: outside quotes, `$` and the digits after it name an argument by number.
  function ServerBind(sql: string, args: seq<Value>): seq<Piece> { ServerFrom(sql, None, args) }

  function ServerFrom(sql: string, q: Option<char>, args: seq<Value>): seq<Piece>
    decreases |sql|
  {
    if sql == "" then []
    else if sql[0] == '$' && q.None? then
      ServerArgument(sql, args) + ServerFrom(sql[1 + DigitsLength(sql[1..])..], q, args)
    else [Ch(sql[0])] + ServerFrom(sql[1..], QuoteStep(q, sql[0]), args)
  }

  // What a dollar sign and its digits stand for: the argument of that number, if there is one
  function ServerArgument(sql: string, args: seq<Value>): seq<Piece>
    requires sql != ""
  {
    var d := DigitsLength(sql[1..]);
    var k := Number(sql[1..][..d]);
    if 1 <= k <= |args| then [Arg(args[k - 1])] else Chars(sql[..1 + d])
  }

  // Outside quotes, no dollar sign and no digit straight after a placeholder
  predicate SafeFrom(s: string, q: Option<char>) {
    s == "" || (
      && (q.None? ==> s[0] != '$' && (s[0] == '?' && |s| > 1 ==> !IsDigit(s[1])))
      && SafeFrom(s[1..], QuoteStep(q, s[0])))
  }

  predicate ServerSafe(s: string) { SafeFrom(s, None) }

  lemma {:induction false} DigitsThen(digits: string, rest: string)
    requires forall i :: 0 <= i < |digits| ==> IsDigit(digits[i])
    requires rest != "" ==> !IsDigit(rest[0])
    ensures DigitsLength(digits + rest) == |digits|
  {
    if digits == "" {
      assert digits + rest == rest;
    } else {
      assert (digits + rest)[1..] == digits[1..] + rest;
      DigitsThen(digits[1..], rest);
    }
  }

  lemma ServerReadsMark(digits: string, tail: string, args: seq<Value>)
    requires forall i :: 0 <= i < |digits| ==> IsDigit(digits[i])
    requires tail != "" ==> !IsDigit(tail[0])
    requires 1 <= Number(digits) <= |args|
    ensures ServerFrom("$" + digits + tail, None, args) == [Arg(args[Number(digits) - 1])] + ServerFrom(tail, None, args)
  {
    hide Number, DigitsLength, ServerFrom, IsDollar, IsDigit;
    DigitsThen(digits, tail);
    DollarParts(digits, tail);
    ServerBindNumber("$" + digits + tail, digits, tail, args);
  }

  lemma ServerBindNumber(t: string, digits: string, tail: string, args: seq<Value>)
    requires IsDollar(t, digits, tail) && DigitsLength(digits + tail) == |digits| && 1 <= Number(digits) <= |args|
    ensures ServerFrom(t, None, args) == [Arg(args[Number(digits) - 1])] + ServerFrom(tail, None, args)
  {
    hide Number, DigitsLength, ServerArgument, ServerFrom;
    ServerBindStep(t, args, t[1..], tail, |digits|);
    NumberedArgument(t, args, |digits|);
  }

  lemma ServerBindStep(t: string, args: seq<Value>, after: string, tail: string, d: nat)
    requires t != "" && t[0] == '$' && t[1..] == after && d == DigitsLength(after) && tail == t[1 + d..]
    ensures ServerFrom(t, None, args) == ServerArgument(t, args) + ServerFrom(tail, None, args)
  {
    hide Number, DigitsLength, ServerArgument;
  }

  lemma NumberedArgument(t: string, args: seq<Value>, d: nat)
    requires t != "" && d == DigitsLength(t[1..]) && 1 <= Number(t[1..][..d]) <= |args|
    ensures ServerArgument(t, args) == [Arg(args[Number(t[1..][..d]) - 1])]
  {
    hide Number, DigitsLength;
  }

  // A dollar sign, digits, and the rest
  ghost predicate IsDollar(t: string, digits: string, tail: string) {
    && |digits| < |t| && t[0] == '$' && t[1..] == digits + tail
    && t[1..][..|digits|] == digits && t[1 + |digits|..] == tail
  }

  lemma DollarParts(digits: string, tail: string)
    ensures IsDollar("$" + digits + tail, digits, tail)
  {
    var t := "$" + digits + tail;
    assert t[1 + |digits|..] == tail;
    assert "$" + digits + tail == "$" + (digits + tail);
  }

  // Without question marks in quotes, what the server understands of the rewritten text is what was meant.
  lemma {:induction false} ServerReads(s: string, q: Option<char>, n: nat, args: seq<Value>)
    requires SafeFrom(s, q) && QuotedFrom(s, q) == 0 && n >= 1 && n - 1 + MarksFrom(s, q) == |args|
    ensures ServerFrom(Numbered(s, n), q, args) == BindFrom(s, q, args[n - 1..])
  {
    hide Itoa, DigitsLength, Number, ServerArgument;
    if s != "" {
      var rest := s[1..];
      if s[0] == '?' {
        ServerReads(rest, q, n + 1, args);
        NumberedStart(rest, n + 1);
        NumberOfItoa(n);
        ServerReadsMark(Itoa(n), Numbered(rest, n + 1), args);
        assert args[n - 1..][1..] == args[n..];
      } else {
        ServerReads(rest, QuoteStep(q, s[0]), n, args);
        assert Numbered(s, n)[1..] == Numbered(rest, n);
      }
    }
  }

  lemma NumberedStart(s: string, n: nat)
    requires s != "" ==> !IsDigit(s[0])
    ensures Numbered(s, n) != "" ==> !IsDigit(Numbered(s, n)[0])
  {
  }

  // The dollar signs that are left as text
  function Dollars(p: seq<Piece>): nat {
    if p == [] then 0 else (if p[0] == Ch('$') then 1 else 0) + Dollars(p[1..])
  }

  lemma {:induction false} DollarsConcat(a: seq<Piece>, b: seq<Piece>)
    ensures Dollars(a + b) == Dollars(a) + Dollars(b)
  {
    if a == [] {
      assert a + b == b;
    } else {
      assert (a + b)[1..] == a[1..] + b;
      DollarsConcat(a[1..], b);
    }
  }

  lemma {:induction false} BindDollars(s: string, q: Option<char>, args: seq<Value>)
    requires MarksFrom(s, q) == |args|
    ensures Dollars(BindFrom(s, q, args)) == Count(s, '$')
  {
    if s != "" {
      if s[0] == '?' && q.None? {
        BindDollars(s[1..], q, args[1..]);
      } else {
        BindDollars(s[1..], QuoteStep(q, s[0]), args);
      }
    }
  }

  // Inside quotes the server copies.
  lemma {:induction false} ServerCopies(w: string, c: char, rest: string, args: seq<Value>)
    requires c !in w
    ensures ServerFrom(w + rest, Some(c), args) == Chars(w) + ServerFrom(rest, Some(c), args)
  {
    hide DigitsLength, ServerArgument;
    if w == "" {
      assert w + rest == rest;
    } else {
      assert (w + rest)[1..] == w[1..] + rest;
      ServerCopies(w[1..], c, rest, args);
      assert Chars(w) == [Ch(w[0])] + Chars(w[1..]);
    }
  }

  // Where a placeholder is numbered inside quotes, a dollar sign appears that nobody wrote.
  lemma {:induction false} ServerDollars(s: string, q: Option<char>, n: nat, args: seq<Value>)
    requires SafeFrom(s, q) && (q.Some? ==> IsQuote(q.value))
    ensures Dollars(ServerFrom(Numbered(s, n), q, args)) >= Count(s, '$') + QuotedFrom(s, q)
  {
    hide Itoa, DigitsLength, Number, ServerArgument;
    if s != "" {
      var rest := s[1..];
      if s[0] == '?' {
        ServerDollars(rest, q, n + 1, args);
        var tail := Numbered(rest, n + 1);
        if q.Some? {
          var mark := "$" + Itoa(n);
          assert q.value !in mark;
          ServerCopies(mark, q.value, tail, args);
          assert Chars(mark)[0] == Ch('$');
          DollarsConcat(Chars(mark), ServerFrom(tail, q, args));
        } else {
          NumberedStart(rest, n + 1);
          DigitsThen(Itoa(n), tail);
          DollarParts(Itoa(n), tail);
          var t := "$" + Itoa(n) + tail;
          ServerBindStep(t, args, t[1..], tail, |Itoa(n)|);
          DollarsConcat(ServerArgument(t, args), ServerFrom(tail, q, args));
        }
      } else {
        assert Numbered(s, n)[1..] == Numbered(rest, n);
        ServerDollars(rest, QuoteStep(q, s[0]), n, args);
      }
    }
  }

  // The statement sent reaches the server as it was meant: as many placeholders as arguments, each read as
  // its own argument, and all other text unchanged.
  predicate Aligned(driver: string, text: string, args: seq<Value>) {
    && Marks(text) == |args|
    && (IsPG(driver) ==> ServerBind(Rewritten(driver, text), args) == Bind(text, args))
  }

  // The exact condition by driver: the placeholders outside quotes match the arguments, and on PostgreSQL
  // there is no question mark inside quotes, which would be numbered with the others.
  lemma AlignedIff(driver: string, text: string, args: seq<Value>)
    requires IsPG(driver) ==> ServerSafe(text)
    ensures Aligned(driver, text, args)
      <==> Marks(text) == |args| && (IsPG(driver) ==> QuotedMarks(text) == 0)
  {
    hide ServerFrom, BindFrom, Dollars, Numbered;
    if IsPG(driver) && Marks(text) == |args| {
      if QuotedMarks(text) == 0 {
        ServerReads(text, None, 1, args);
        assert args[0..] == args;
      } else {
        ServerDollars(text, None, 1, args);
        BindDollars(text, None, args);
      }
    }
  }

  // The k-th placeholder is $k: the numbers the rewritten text names, in order
  function NumbersIn(s: string): seq<nat>
    decreases |s|
  {
    if s == "" then []
    else if s[0] == '$' then
      var d := DigitsLength(s[1..]);
      [Number(s[1..][..d])] + NumbersIn(s[1 + d..])
    else NumbersIn(s[1..])
  }

  // No digit straight after a question mark, in quotes or not
  predicate Spaced(s: string) {
    s == "" || ((s[0] == '?' && |s| > 1 ==> !IsDigit(s[1])) && Spaced(s[1..]))
  }

  lemma NumbersAtDollar(t: string, digits: string, tail: string)
    requires IsDollar(t, digits, tail) && DigitsLength(digits + tail) == |digits|
    ensures NumbersIn(t) == [Number(digits)] + NumbersIn(tail)
  {
    hide Number, DigitsLength;
  }

  // n, n + 1, ...
  function CountingFrom(n: nat, count: nat): seq<nat>
    decreases count
  {
    if count == 0 then [] else [n] + CountingFrom(n + 1, count - 1)
  }

  lemma {:induction false} NumberedInOrder(s: string, n: nat)
    requires '$' !in s && Spaced(s)
    ensures NumbersIn(Numbered(s, n)) == CountingFrom(n, Count(s, '?'))
  {
    hide Itoa, DigitsLength, Number, IsDollar;
    if s != "" {
      var rest := s[1..];
      var tail := Numbered(rest, n + 1);
      if s[0] == '?' {
        NumberedInOrder(rest, n + 1);
        NumberedStart(rest, n + 1);
        FirstNumber(n, tail);
      } else {
        NumberedInOrder(rest, n);
        assert Numbered(s, n)[1..] == Numbered(rest, n);
      }
    }
  }

  lemma FirstNumber(n: nat, tail: string)
    requires tail != "" ==> !IsDigit(tail[0])
    ensures NumbersIn("$" + Itoa(n) + tail) == [n] + NumbersIn(tail)
  {
    hide Itoa, DigitsLength, Number, IsDollar, NumbersIn;
    DigitsThen(Itoa(n), tail);
    DollarParts(Itoa(n), tail);
    NumberOfItoa(n);
    NumbersAtDollar("$" + Itoa(n) + tail, Itoa(n), tail);
  }
}
