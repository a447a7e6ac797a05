/** Reading the WHERE text back, with AND binding tighter than OR and parentheses and quotes respected.
    Main result: for every chain of builder calls whose raw conditions are balanced, the text parses to
    exactly the conditions given, each with its own arguments, and a row passes if and only if it passes
    every condition of one of the maximal AND runs. */
module QueryFilter {
  import opened GoStrings
  import opened SqlQuotes
  import opened SqlBinding
  import opened Identifiers
  import opened QueryBuilder

  // ---------- parentheses and quotes ----------

  // How deep the parentheses are, and the quote that is open
  datatype State = State(depth: nat, quote: Option<char>)

  const Outside := State(0, None)

  // None: a parenthesis that was never opened is closed
  function Next(st: State, p: Piece): Option<State> {
    match p
    case Arg(_) => Some(st)
    case Ch(c) =>
      if st.quote.Some? then Some(if c == st.quote.value then st.(quote := None) else st)
      else if IsQuote(c) then Some(st.(quote := Some(c)))
      else if c == '(' then Some(st.(depth := st.depth + 1))
      else if c == ')' then if st.depth == 0 then None else Some(st.(depth := st.depth - 1))
      else Some(st)
  }

  function After(p: seq<Piece>, st: State): Option<State>
    decreases |p|
  {
    if p == [] then Some(st)
    else
      var next :- Next(st, p[0]);
      After(p[1..], next)
  }

  predicate Balanced(p: seq<Piece>) { After(p, Outside) == Some(Outside) }

  // The parenthesis that closes the one open at the start
  function Closing(p: seq<Piece>, st: State): (k: Option<nat>)
    ensures k.Some? ==> k.value < |p|
    decreases |p|
  {
    if p == [] then None
    else if Next(st, p[0]).None? then Some(0)
    else
      var k :- Closing(p[1..], Next(st, p[0]).value);
      Some(k + 1)
  }

  lemma {:induction false} AfterConcat(a: seq<Piece>, b: seq<Piece>, st: State)
    ensures After(a + b, st) == if After(a, st).None? then None else After(b, After(a, st).value)
    decreases |a|
  {
    if a == [] {
      assert a + b == b;
    } else {
      assert (a + b)[1..] == a[1..] + b;
      if Next(st, a[0]).Some? {
        AfterConcat(a[1..], b, Next(st, a[0]).value);
      }
    }
  }

  lemma {:induction false} ClosingAfter(c: seq<Piece>, rest: seq<Piece>, st: State)
    requires After(c, st) == Some(Outside)
    ensures Closing(c + [Ch(')')] + rest, st) == Some(|c|)
    decreases |c|
  {
    var p := c + [Ch(')')] + rest;
    if c == [] {
      assert p[0] == Ch(')');
    } else {
      assert p[1..] == c[1..] + [Ch(')')] + rest;
      ClosingAfter(c[1..], rest, Next(st, c[0]).value);
    }
  }

  // Binding the arguments does not disturb the parentheses.
  lemma {:induction false} BindAfter(s: string, args: seq<Value>, st: State)
    requires MarksFrom(s, st.quote) == |args|
    requires st.quote.Some? ==> IsQuote(st.quote.value)
    ensures After(BindFrom(s, st.quote, args), st) == After(Chars(s), st)
    decreases |s|
  {
    if s != "" {
      var taken := s[0] == '?' && st.quote.None?;
      var here := if taken then Arg(args[0]) else Ch(s[0]);
      var args' := if taken then args[1..] else args;
      var q := QuoteStep(st.quote, s[0]);
      assert Chars(s)[0] == Ch(s[0]) && Chars(s)[1..] == Chars(s[1..]);
      assert BindFrom(s, st.quote, args) == [here] + BindFrom(s[1..], q, args');
      assert BindFrom(s, st.quote, args)[1..] == BindFrom(s[1..], q, args');
      assert Next(st, here) == Next(st, Ch(s[0]));
      if Next(st, here).Some? {
        assert Next(st, here).value.quote == q;
        BindAfter(s[1..], args', Next(st, here).value);
      }
    }
  }

  // ---------- the parser ----------

  datatype Expr = Leaf(cond: seq<Piece>) | Both(left: Expr, right: Expr) | Either(left: Expr, right: Expr)

  function Atom(p: seq<Piece>): (r: Option<(seq<Piece>, seq<Piece>)>)
    ensures r.Some? ==> |r.value.1| < |p|
  {
    if p == [] || p[0] != Ch('(') then None
    else
      var k :- Closing(p[1..], Outside);
      Some((p[1..][..k], p[1..][k + 1..]))
  }

  function AndTail(acc: Expr, p: seq<Piece>): (r: Option<(Expr, seq<Piece>)>)
    ensures r.Some? ==> |r.value.1| <= |p|
    decreases |p|
  {
    if Chars(" AND ") <= p then
      var a :- Atom(p[5..]);
      AndTail(Both(acc, Leaf(a.0)), a.1)
    else Some((acc, p))
  }

  function ParseAnd(p: seq<Piece>): (r: Option<(Expr, seq<Piece>)>)
    ensures r.Some? ==> |r.value.1| < |p|
  {
    var a :- Atom(p);
    AndTail(Leaf(a.0), a.1)
  }

  function OrTail(acc: Expr, p: seq<Piece>): Option<(Expr, seq<Piece>)>
    decreases |p|
  {
    if Chars(" OR ") <= p then
      var a :- ParseAnd(p[4..]);
      OrTail(Either(acc, a.0), a.1)
    else Some((acc, p))
  }

  // A disjunction of conjunctions of parenthesised conditions, and what follows it
  function ParseOr(p: seq<Piece>): Option<(Expr, seq<Piece>)> {
    var a :- ParseAnd(p);
    OrTail(a.0, a.1)
  }

  // ---------- the printed list ----------

  datatype Item = Item(cond: seq<Piece>, or: bool)

  function Grouped(cond: seq<Piece>): seq<Piece> { [Ch('(')] + cond + [Ch(')')] }

  // The clauses after the first
  function Printed(items: seq<Item>): seq<Piece> {
    if items == [] then []
    else Chars(Connective(items[0].or)) + Grouped(items[0].cond) + Printed(items[1..])
  }

  function PrintedAll(items: seq<Item>): seq<Piece>
    requires items != []
  {
    Grouped(items[0].cond) + Printed(items[1..])
  }

  function Items(where: seq<Clause>, given: seq<seq<Value>>): seq<Item>
    requires |where| == |given| && MatchedClauses(where, given)
  {
    seq(|where|, i requires 0 <= i < |where| => Item(Bind(where[i].cond, given[i]), where[i].or))
  }

  lemma {:induction false} PrintedConcat(a: seq<Item>, x: Item)
    ensures Printed(a + [x]) == Printed(a) + Chars(Connective(x.or)) + Grouped(x.cond)
  {
    if a == [] {
      assert a + [x] == [x] && [x][1..] == [];
    } else {
      assert (a + [x])[1..] == a[1..] + [x];
      PrintedConcat(a[1..], x);
    }
  }

  lemma BoundStep(where: seq<Clause>, given: seq<seq<Value>>)
    requires |where| == |given| && MatchedClauses(where, given) && where != []
    ensures var n := |where| - 1;
      && MatchedClauses(where[..n], given[..n])
      && BoundClauses(where, given)
         == BoundClauses(where[..n], given[..n]) + (if n > 0 then Chars(Connective(where[n].or)) else [])
            + Grouped(Bind(where[n].cond, given[n]))
  {
    hide Bind, Marks, Closed;
    MatchedInit(where, given);
    assert Chars("(") == [Ch('(')] && Chars(")") == [Ch(')')];
  }

  lemma ItemsStep(where: seq<Clause>, given: seq<seq<Value>>)
    requires |where| == |given| && MatchedClauses(where, given) && where != []
    requires MatchedClauses(where[..|where| - 1], given[..|where| - 1])
    ensures var n := |where| - 1;
      Items(where, given) == Items(where[..n], given[..n]) + [Item(Bind(where[n].cond, given[n]), where[n].or)]
  {
    hide Bind, Marks, Closed;
  }

  lemma {:induction false} BoundIsPrinted(where: seq<Clause>, given: seq<seq<Value>>)
    requires |where| == |given| && MatchedClauses(where, given) && where != []
    ensures BoundClauses(where, given) == PrintedAll(Items(where, given))
  {
    hide Bind, Marks, Closed, BoundClauses, Items, Printed, Grouped, MatchedClauses;
    var n := |where| - 1;
    BoundStep(where, given);
    ItemsStep(where, given);
    var items := Items(where, given);
    if n == 0 {
      NothingBound(where[..0], given[..0]);
      assert items[1..] == [];
    } else {
      BoundIsPrinted(where[..n], given[..n]);
      var init := Items(where[..n], given[..n]);
      assert init != [] by { ItemsLength(where[..n], given[..n]); }
      assert items[1..] == init[1..] + [items[|init|]];
      PrintedConcat(init[1..], items[|init|]);
    }
  }

  lemma NothingBound(where: seq<Clause>, given: seq<seq<Value>>)
    requires |where| == |given| == 0 && MatchedClauses(where, given)
    ensures BoundClauses(where, given) == [] && Items(where, given) == [] && Printed([]) == []
  {
  }

  lemma ItemsLength(where: seq<Clause>, given: seq<seq<Value>>)
    requires |where| == |given| && MatchedClauses(where, given)
    ensures |Items(where, given)| == |where|
  {
  }

  // ---------- what the parser makes of it ----------

  // How many clauses come before the next OR
  function Run(items: seq<Item>): (n: nat)
    ensures n <= |items|
    ensures forall i :: 0 <= i < n ==> !items[i].or
    ensures n < |items| ==> items[n].or
  {
    if items == [] || items[0].or then 0 else 1 + Run(items[1..])
  }

  function All(acc: Expr, items: seq<Item>): Expr
    decreases |items|
  {
    if items == [] then acc else All(Both(acc, Leaf(items[0].cond)), items[1..])
  }

  function Tail(acc: Expr, items: seq<Item>): Expr
    decreases |items|
  {
    if items == [] then acc
    else
      Tail(Either(acc, RunTree(items)), AfterRun(items))
  }

  function Tree(items: seq<Item>): Expr
    requires items != []
  {
    Tail(RunTree(items), AfterRun(items))
  }

  ghost predicate AllBalanced(items: seq<Item>) { forall i :: 0 <= i < |items| ==> Balanced(items[i].cond) }

  // What follows the clauses does not continue the condition.
  ghost predicate Ends(rest: seq<Piece>) { !(Chars(" AND ") <= rest) && !(Chars(" OR ") <= rest) }

  lemma AtomReads(cond: seq<Piece>, rest: seq<Piece>)
    requires Balanced(cond)
    ensures Atom(Grouped(cond) + rest) == Some((cond, rest))
  {
    hide After, Closing;
    var p := Grouped(cond) + rest;
    assert p[1..] == cond + [Ch(')')] + rest;
    ClosingAfter(cond, rest, Outside);
    assert p[1..][..|cond|] == cond && p[1..][|cond| + 1..] == rest;
  }

  lemma NotAnd(rest: seq<Piece>)
    ensures !(Chars(" AND ") <= Chars(" OR ") + rest)
    ensures !(Chars(" OR ") <= Chars(" AND ") + rest)
  {
    assert (Chars(" OR ") + rest)[1] == Ch('O') && Chars(" AND ")[1] == Ch('A');
    assert (Chars(" AND ") + rest)[1] == Ch('A') && Chars(" OR ")[1] == Ch('O');
  }

  lemma PrintedStep(items: seq<Item>, rest: seq<Piece>)
    requires items != []
    ensures Printed(items) + rest
         == Chars(Connective(items[0].or)) + (Grouped(items[0].cond) + (Printed(items[1..]) + rest))
  {
  }

  lemma AndTailStep(acc: Expr, cond: seq<Piece>, tail: seq<Piece>)
    requires Balanced(cond)
    ensures AndTail(acc, Chars(" AND ") + (Grouped(cond) + tail)) == AndTail(Both(acc, Leaf(cond)), tail)
  {
    hide Balanced, Atom, Grouped;
    var p := Chars(" AND ") + (Grouped(cond) + tail);
    assert p[5..] == Grouped(cond) + tail;
    AtomReads(cond, tail);
  }

  lemma AndTailStops(acc: Expr, p: seq<Piece>)
    requires !(Chars(" AND ") <= p)
    ensures AndTail(acc, p) == Some((acc, p))
  {
  }

  lemma {:induction false} AndTailReads(acc: Expr, items: seq<Item>, rest: seq<Piece>)
    requires AllBalanced(items) && Ends(rest)
    ensures var n := Run(items);
      AndTail(acc, Printed(items) + rest) == Some((All(acc, items[..n]), Printed(items[n..]) + rest))
    decreases |items|
  {
    hide Balanced, AndTail, Printed, Grouped, Chars;
    var p := Printed(items) + rest;
    if items == [] {
      assert p == rest by { NothingPrinted(); }
      AndTailStops(acc, p);
    } else {
      var tail := Printed(items[1..]) + rest;
      PrintedStep(items, rest);
      if items[0].or {
        assert items[..0] == [] && items[0..] == items;
        NotAnd(Grouped(items[0].cond) + tail);
        AndTailStops(acc, p);
      } else {
        AndTailStep(acc, items[0].cond, tail);
        AndTailReads(Both(acc, Leaf(items[0].cond)), items[1..], rest);
        var m := Run(items[1..]);
        assert items[..1 + m][1..] == items[1..][..m] && items[1 + m..] == items[1..][m..];
      }
    }
  }

  lemma NothingPrinted()
    ensures Printed([]) == []
  {
  }

  // The run that begins with clause 0, and the clauses after it
  function RunTree(items: seq<Item>): Expr
    requires items != []
  {
    All(Leaf(items[0].cond), items[1..1 + Run(items[1..])])
  }

  function AfterRun(items: seq<Item>): seq<Item>
    requires items != []
  {
    items[1 + Run(items[1..])..]
  }

  lemma ParseAndReads(items: seq<Item>, rest: seq<Piece>)
    requires items != [] && AllBalanced(items) && Ends(rest)
    ensures ParseAnd(Grouped(items[0].cond) + (Printed(items[1..]) + rest))
         == Some((RunTree(items), Printed(AfterRun(items)) + rest))
  {
    hide Balanced, Atom, AndTail, Printed, Grouped, All;
    AtomReads(items[0].cond, Printed(items[1..]) + rest);
    AndTailReads(Leaf(items[0].cond), items[1..], rest);
    var n := Run(items[1..]);
    assert items[1..][..n] == items[1..1 + n] && items[1..][n..] == items[1 + n..];
  }

  lemma OrTailStep(acc: Expr, p: seq<Piece>, e: Expr, rest: seq<Piece>)
    requires ParseAnd(p) == Some((e, rest))
    ensures OrTail(acc, Chars(" OR ") + p) == OrTail(Either(acc, e), rest)
  {
    hide ParseAnd;
    assert (Chars(" OR ") + p)[4..] == p;
  }

  lemma OrTailStops(acc: Expr, p: seq<Piece>)
    requires !(Chars(" OR ") <= p)
    ensures OrTail(acc, p) == Some((acc, p))
  {
  }

  lemma TailStep(acc: Expr, items: seq<Item>)
    requires items != []
    ensures Tail(acc, items) == Tail(Either(acc, RunTree(items)), AfterRun(items))
    ensures |AfterRun(items)| < |items| && (AfterRun(items) != [] ==> AfterRun(items)[0].or)
    ensures AllBalanced(items) ==> AllBalanced(AfterRun(items))
  {
    hide All, Balanced;
  }

  lemma {:induction false} OrTailReads(acc: Expr, items: seq<Item>, rest: seq<Piece>)
    requires AllBalanced(items) && Ends(rest) && (items != [] ==> items[0].or)
    ensures OrTail(acc, Printed(items) + rest) == Some((Tail(acc, items), rest))
    decreases |items|
  {
    hide Balanced, ParseAnd, OrTail, Printed, Grouped, Chars, RunTree, AfterRun, Run, All;
    if items == [] {
      assert Printed(items) + rest == rest by { NothingPrinted(); }
      OrTailStops(acc, rest);
    } else {
      PrintedStep(items, rest);
      ParseAndReads(items, rest);
      OrTailStep(acc, Grouped(items[0].cond) + (Printed(items[1..]) + rest), RunTree(items), Printed(AfterRun(items)) + rest);
      TailStep(acc, items);
      OrTailReads(Either(acc, RunTree(items)), AfterRun(items), rest);
    }
  }

  lemma ParseReads(items: seq<Item>, rest: seq<Piece>)
    requires items != [] && AllBalanced(items) && Ends(rest)
    ensures ParseOr(PrintedAll(items) + rest) == Some((Tree(items), rest))
  {
    hide Balanced, ParseAnd, OrTail, Printed, Grouped, Tail;
    assert PrintedAll(items) + rest == Grouped(items[0].cond) + (Printed(items[1..]) + rest);
    ParseAndReads(items, rest);
    TailStep(RunTree(items), items);
    OrTailReads(RunTree(items), AfterRun(items), rest);
  }

  // ---------- the conditions and connectives are recovered ----------

  // The conditions of a tree in order, each with the connective before it
  function Listed(e: Expr): (items: seq<Item>)
    ensures items != []
  {
    match e
    case Leaf(c) => [Item(c, false)]
    case Both(l, r) => Listed(l) + Listed(r)
    case Either(l, r) => Listed(l) + [Listed(r)[0].(or := true)] + Listed(r)[1..]
  }

  lemma {:induction false} AllListed(acc: Expr, items: seq<Item>)
    requires forall i :: 0 <= i < |items| ==> !items[i].or
    ensures Listed(All(acc, items)) == Listed(acc) + items
    decreases |items|
  {
    if items != [] {
      var next := Both(acc, Leaf(items[0].cond));
      AllListed(next, items[1..]);
      assert Listed(next) == Listed(acc) + [items[0]];
    }
  }

  lemma EitherListed(acc: Expr, run: Expr, first: seq<Piece>, others: seq<Item>)
    requires Listed(run) == [Item(first, false)] + others
    ensures Listed(Either(acc, run)) == Listed(acc) + ([Item(first, true)] + others)
  {
  }

  lemma RunListed(items: seq<Item>)
    requires items != []
    ensures Listed(RunTree(items)) == [Item(items[0].cond, false)] + items[1..1 + Run(items[1..])]
    ensures items == [items[0]] + items[1..1 + Run(items[1..])] + AfterRun(items)
  {
    var n := Run(items[1..]);
    AllListed(Leaf(items[0].cond), items[1..1 + n]);
  }

  lemma {:induction false} TailListed(acc: Expr, items: seq<Item>)
    requires items != [] ==> items[0].or
    ensures Listed(Tail(acc, items)) == Listed(acc) + items
    decreases |items|
  {
    hide Listed, Run, All, RunTree, AfterRun;
    if items != [] {
      var others := items[1..1 + Run(items[1..])];
      RunListed(items);
      EitherListed(acc, RunTree(items), items[0].cond, others);
      TailStep(acc, items);
      TailListed(Either(acc, RunTree(items)), AfterRun(items));
      assert Item(items[0].cond, true) == items[0];
      assert Listed(acc) + ([items[0]] + others) + AfterRun(items) == Listed(acc) + ([items[0]] + others + AfterRun(items));
    }
  }

  // The connective before the first clause is not printed.
  lemma TreeListed(items: seq<Item>)
    requires items != []
    ensures Listed(Tree(items)) == items[0 := items[0].(or := false)]
  {
    hide Listed, Run, All, RunTree, AfterRun, Tail;
    RunListed(items);
    TailStep(RunTree(items), items);
    TailListed(RunTree(items), AfterRun(items));
  }

  // ---------- the value ----------

  // SQL's three truth values
  datatype Truth = No | Unknown | Yes
  {
    function Rank(): nat { match this case No => 0 case Unknown => 1 case Yes => 2 }
  }

  function Least(a: Truth, b: Truth): Truth { if a.Rank() <= b.Rank() then a else b }

  function Most(a: Truth, b: Truth): Truth { if a.Rank() <= b.Rank() then b else a }

  // `truth` is the value of a bound condition on some row.
  function Evaluated(e: Expr, truth: seq<Piece> -> Truth): Truth {
    match e
    case Leaf(c) => truth(c)
    case Both(l, r) => Least(Evaluated(l, truth), Evaluated(r, truth))
    case Either(l, r) => Most(Evaluated(l, truth), Evaluated(r, truth))
  }

  ghost predicate AtLeast(c: seq<Piece>, truth: seq<Piece> -> Truth, t: Truth) { truth(c).Rank() >= t.Rank() }

  // Clause k belongs to the run that clause i begins: no OR in between
  ghost predicate SameRun(items: seq<Item>, i: nat, k: nat)
    requires k < |items|
  {
    i <= k && forall m :: i < m <= k ==> !items[m].or
  }

  // Every clause of the maximal AND run that begins at clause i is at least t.
  ghost predicate RunHolds(items: seq<Item>, i: nat, truth: seq<Piece> -> Truth, t: Truth) {
    && i < |items| && (i == 0 || items[i].or)
    && forall k :: 0 <= k < |items| && SameRun(items, i, k) ==> AtLeast(items[k].cond, truth, t)
  }

  ghost predicate SomeRun(items: seq<Item>, truth: seq<Piece> -> Truth, t: Truth) {
    exists i: nat :: RunHolds(items, i, truth, t)
  }

  lemma {:induction false} AllEvaluated(acc: Expr, items: seq<Item>, truth: seq<Piece> -> Truth, t: Truth)
    ensures Evaluated(All(acc, items), truth).Rank() >= t.Rank()
      <==> Evaluated(acc, truth).Rank() >= t.Rank() && forall i :: 0 <= i < |items| ==> AtLeast(items[i].cond, truth, t)
    decreases |items|
  {
    if items != [] {
      AllEvaluated(Both(acc, Leaf(items[0].cond)), items[1..], truth, t);
      assert forall i :: 1 <= i < |items| ==> items[i] == items[1..][i - 1];
      assert forall i :: 0 <= i < |items| - 1 ==> items[1..][i] == items[i + 1];
    }
  }

  // The first run, or a run of the rest
  lemma FirstRunOrLater(items: seq<Item>, truth: seq<Piece> -> Truth, t: Truth)
    requires items != []
    ensures var n := 1 + Run(items[1..]);
      SomeRun(items, truth, t) <==>
        (forall i :: 0 <= i < n ==> AtLeast(items[i].cond, truth, t)) || SomeRun(items[n..], truth, t)
  {
    hide RunHolds, AtLeast, Run;
    var n := 1 + Run(items[1..]);
    FirstRunIs(items, truth, t);
    if SomeRun(items[n..], truth, t) {
      var i: nat :| RunHolds(items[n..], i, truth, t);
      LaterRunIs(items, truth, t, n + i);
    }
    if SomeRun(items, truth, t) {
      var i: nat :| RunHolds(items, i, truth, t);
      if i != 0 {
        RunStarts(items, truth, t, i);
        LaterRunIs(items, truth, t, i);
      }
    }
  }

  lemma RunSplits(items: seq<Item>)
    requires items != []
    ensures var n := 1 + Run(items[1..]);
      && n <= |items| && (forall i :: 1 <= i < n ==> !items[i].or) && (n < |items| ==> items[n].or)
  {
    var n := 1 + Run(items[1..]);
    assert forall i :: 1 <= i < n ==> items[i] == items[1..][i - 1];
    assert n < |items| ==> items[n] == items[1..][n - 1];
  }

  lemma FirstRunIs(items: seq<Item>, truth: seq<Piece> -> Truth, t: Truth)
    requires items != []
    ensures RunHolds(items, 0, truth, t) <==>
      forall i :: 0 <= i < 1 + Run(items[1..]) ==> AtLeast(items[i].cond, truth, t)
  {
    hide AtLeast;
    RunSplits(items);
    var n := 1 + Run(items[1..]);
    assert forall k :: 0 <= k < n ==> SameRun(items, 0, k);
    assert forall k :: 0 <= k < |items| && SameRun(items, 0, k) ==> k < n;
  }

  lemma RunStarts(items: seq<Item>, truth: seq<Piece> -> Truth, t: Truth, i: nat)
    requires items != [] && i != 0 && RunHolds(items, i, truth, t)
    ensures i >= 1 + Run(items[1..])
  {
    hide AtLeast;
    RunSplits(items);
  }

  lemma SameRunShifts(items: seq<Item>, n: nat, i: nat, k: nat)
    requires n <= i && n + k < |items|
    ensures SameRun(items[n..], i - n, k) <==> SameRun(items, i, n + k)
  {
    var rest := items[n..];
    if SameRun(rest, i - n, k) {
      forall m | i < m <= n + k
        ensures !items[m].or
      {
        assert rest[m - n] == items[m];
      }
    }
    if SameRun(items, i, n + k) {
      forall m | i - n < m <= k
        ensures !rest[m].or
      {
        assert rest[m] == items[n + m];
      }
    }
  }

  lemma RunShifts(items: seq<Item>, truth: seq<Piece> -> Truth, t: Truth, n: nat, i: nat)
    requires n <= i < |items| && items[i].or
    ensures RunHolds(items[n..], i - n, truth, t) <==> RunHolds(items, i, truth, t)
  {
    hide AtLeast, SameRun;
    var rest := items[n..];
    assert rest[i - n] == items[i];
    if RunHolds(rest, i - n, truth, t) {
      forall k | 0 <= k < |items| && SameRun(items, i, k)
        ensures AtLeast(items[k].cond, truth, t)
      {
        RunIsAfter(items, i, k);
        SameRunShifts(items, n, i, k - n);
        assert rest[k - n] == items[k];
      }
    }
    if RunHolds(items, i, truth, t) {
      forall k | 0 <= k < |rest| && SameRun(rest, i - n, k)
        ensures AtLeast(rest[k].cond, truth, t)
      {
        SameRunShifts(items, n, i, k);
        assert rest[k] == items[n + k];
      }
    }
  }

  lemma RunIsAfter(items: seq<Item>, i: nat, k: nat)
    requires k < |items| && SameRun(items, i, k)
    ensures i <= k
  {
  }

  lemma LaterRunIs(items: seq<Item>, truth: seq<Piece> -> Truth, t: Truth, i: nat)
    requires items != [] && i >= 1 + Run(items[1..])
    ensures RunHolds(items[1 + Run(items[1..])..], i - 1 - Run(items[1..]), truth, t) <==> RunHolds(items, i, truth, t)
  {
    hide AtLeast, SameRun, Run;
    RunSplits(items);
    var n := 1 + Run(items[1..]);
    if i < |items| {
      assert items[n..][i - n] == items[i];
      assert items[i].or ==> (RunHolds(items[n..], i - n, truth, t) <==> RunHolds(items, i, truth, t)) by {
        if items[i].or {
          RunShifts(items, truth, t, n, i);
        }
      }
    }
  }

  lemma {:induction false} TailEvaluated(acc: Expr, items: seq<Item>, truth: seq<Piece> -> Truth, t: Truth)
    ensures Evaluated(Tail(acc, items), truth).Rank() >= t.Rank()
      <==> Evaluated(acc, truth).Rank() >= t.Rank() || SomeRun(items, truth, t)
    decreases |items|
  {
    hide SomeRun, RunTree, AfterRun;
    if items == [] {
      NoRun(items, truth, t);
    } else {
      TailStep(acc, items);
      FirstRun(items, truth, t);
      TailEvaluated(Either(acc, RunTree(items)), AfterRun(items), truth, t);
    }
  }

  lemma NoRun(items: seq<Item>, truth: seq<Piece> -> Truth, t: Truth)
    requires items == []
    ensures !SomeRun(items, truth, t)
  {
  }

  lemma FirstRun(items: seq<Item>, truth: seq<Piece> -> Truth, t: Truth)
    requires items != []
    ensures SomeRun(items, truth, t)
       <==> Evaluated(RunTree(items), truth).Rank() >= t.Rank() || SomeRun(AfterRun(items), truth, t)
  {
    hide SomeRun, All, AtLeast, Run, Evaluated;
    var n := Run(items[1..]);
    var run := items[1..1 + n];
    AllEvaluated(Leaf(items[0].cond), run, truth, t);
    LeafEvaluated(items[0].cond, truth, t);
    RunAtLeast(items, run, truth, t, n);
    FirstRunOrLater(items, truth, t);
  }

  lemma RunAtLeast(items: seq<Item>, run: seq<Item>, truth: seq<Piece> -> Truth, t: Truth, n: nat)
    requires n < |items| && run == items[1..1 + n]
    ensures (AtLeast(items[0].cond, truth, t) && forall i :: 0 <= i < n ==> AtLeast(run[i].cond, truth, t))
       <==> forall i :: 0 <= i < 1 + n ==> AtLeast(items[i].cond, truth, t)
  {
    hide AtLeast;
    if forall i :: 0 <= i < 1 + n ==> AtLeast(items[i].cond, truth, t) {
      forall i | 0 <= i < n
        ensures AtLeast(run[i].cond, truth, t)
      {
        assert run[i] == items[i + 1];
      }
    }
    if AtLeast(items[0].cond, truth, t) && forall i :: 0 <= i < n ==> AtLeast(run[i].cond, truth, t) {
      forall i | 0 <= i < 1 + n
        ensures AtLeast(items[i].cond, truth, t)
      {
        assert i > 0 ==> items[i] == run[i - 1];
      }
    }
  }

  lemma LeafEvaluated(c: seq<Piece>, truth: seq<Piece> -> Truth, t: Truth)
    ensures AtLeast(c, truth, t) <==> Evaluated(Leaf(c), truth).Rank() >= t.Rank()
  {
  }

  // The value of the parsed condition is that of the best of its maximal AND runs.
  lemma TreeEvaluated(items: seq<Item>, truth: seq<Piece> -> Truth, t: Truth)
    requires items != []
    ensures Evaluated(Tree(items), truth).Rank() >= t.Rank() <==> SomeRun(items, truth, t)
  {
    hide SomeRun, RunTree, AfterRun, Tail;
    FirstRun(items, truth, t);
    TailStep(RunTree(items), items);
    TailEvaluated(RunTree(items), AfterRun(items), truth, t);
  }

  // ---------- the conditions the builder makes ----------

  predicate Plain(s: string) { forall c :: c in s ==> !IsQuote(c) && c != '(' && c != ')' }

  // Outside quotes, reading this text changes nothing.
  ghost predicate Neutral(s: string) {
    forall st: State :: st.quote.None? ==> After(Chars(s), st) == Some(st)
  }

  lemma CharsConcat(a: string, b: string)
    ensures Chars(a + b) == Chars(a) + Chars(b)
  {
  }

  lemma {:induction false} PlainAfter(s: string, st: State)
    requires Plain(s) && st.quote.None?
    ensures After(Chars(s), st) == Some(st)
  {
    if s != "" {
      assert Chars(s)[1..] == Chars(s[1..]);
      forall c | c in s[1..]
        ensures c in s
      {
        var i :| 0 <= i < |s| - 1 && s[1..][i] == c;
        assert s[i + 1] == c;
      }
      assert s[0] in s;
      PlainAfter(s[1..], st);
    }
  }

  lemma PlainIsNeutral(s: string)
    requires Plain(s)
    ensures Neutral(s)
  {
    forall st: State | st.quote.None?
      ensures After(Chars(s), st) == Some(st)
    {
      PlainAfter(s, st);
    }
  }

  lemma NeutralConcat(a: string, b: string)
    requires Neutral(a) && Neutral(b)
    ensures Neutral(a + b)
  {
    hide After;
    forall st: State | st.quote.None?
      ensures After(Chars(a + b), st) == Some(st)
    {
      CharsConcat(a, b);
      AfterConcat(Chars(a), Chars(b), st);
    }
  }

  lemma AfterOne(p: Piece, st: State)
    ensures After([p], st) == Next(st, p)
  {
    assert [p][1..] == [];
  }

  lemma NeutralParens(s: string)
    requires Neutral(s)
    ensures Neutral("(" + s + ")")
  {
    hide After;
    forall st: State | st.quote.None?
      ensures After(Chars("(" + s + ")"), st) == Some(st)
    {
      assert Chars("(" + s + ")") == ([Ch('(')] + Chars(s)) + [Ch(')')];
      var deeper := st.(depth := st.depth + 1);
      AfterOne(Ch('('), st);
      AfterOne(Ch(')'), deeper);
      AfterConcat([Ch('(')], Chars(s), st);
      AfterConcat([Ch('(')] + Chars(s), [Ch(')')], st);
    }
  }

  lemma {:induction false} QuotedAfter(s: string, st: State)
    requires st.quote.Some? && st.quote.value !in s
    ensures After(Chars(s), st) == Some(st)
  {
    if s != "" {
      assert Chars(s)[1..] == Chars(s[1..]);
      QuotedAfter(s[1..], st);
    }
  }

  lemma NeutralQuoted(s: string)
    requires '\'' !in s
    ensures Neutral("'" + s + "'")
  {
    hide After;
    forall st: State | st.quote.None?
      ensures After(Chars("'" + s + "'"), st) == Some(st)
    {
      assert Chars("'" + s + "'") == ([Ch('\'')] + Chars(s)) + [Ch('\'')];
      var inside := st.(quote := Some('\''));
      AfterOne(Ch('\''), st);
      AfterOne(Ch('\''), inside);
      QuotedAfter(s, inside);
      AfterConcat([Ch('\'')], Chars(s), st);
      AfterConcat([Ch('\'')] + Chars(s), [Ch('\'')], st);
    }
  }

  lemma IdentIsPlain(s: string)
    requires ValidIdent(s)
    ensures Plain(s)
  {
    hide ValidIdent;
    ValidIdentClean(s);
    assert Foreign('\'') && Foreign('"') && Foreign('`') && Foreign('(') && Foreign(')');
  }

  lemma {:induction false} PlaceholdersPlain(n: nat)
    ensures Plain(Placeholders(n))
  {
    if n > 1 {
      PlaceholdersPlain(n - 1);
    }
  }

  // The quoted configuration, and what follows it in a call's parentheses
  lemma LanguageNeutral(arg: string)
    requires Plain(arg)
    ensures Neutral("(" + (Language() + ", " + arg) + ")")
  {
    hide Neutral;
    NeutralQuoted("portuguese");
    PlainIsNeutral(", " + arg);
    NeutralConcat(Language(), ", " + arg);
    assert Language() + (", " + arg) == Language() + ", " + arg;
    NeutralParens(Language() + ", " + arg);
  }

  // A word, then parentheses
  lemma CallNeutral(word: string, group: string)
    requires Plain(word) && Neutral(group)
    ensures Neutral(word + group)
  {
    hide Neutral;
    PlainIsNeutral(word);
    NeutralConcat(word, group);
  }

  lemma SearchConditionNeutral(col: string)
    requires Plain(col)
    ensures Neutral(SearchCondition(col))
  {
    hide Neutral, Plain;
    var vector, query := "(" + (Language() + ", " + col) + ")", "(" + (Language() + ", " + "?") + ")";
    LanguageNeutral(col);
    assert Plain("?") && Plain("to_tsvector") && Plain(" @@ plainto_tsquery") by { WordsPlain(); }
    LanguageNeutral("?");
    CallNeutral("to_tsvector", vector);
    CallNeutral(" @@ plainto_tsquery", query);
    NeutralConcat("to_tsvector" + vector, " @@ plainto_tsquery" + query);
    SearchConditionParts(col);
  }

  lemma WordsPlain()
    ensures Plain("?") && Plain("to_tsvector") && Plain(" @@ plainto_tsquery")
    ensures Plain("MATCH") && Plain(" AGAINST") && Plain("?" + " IN NATURAL LANGUAGE MODE")
  {
    assert Plain("?");
    assert Plain("to_tsvector");
    assert Plain("MATCH");
    assert Plain(" AGAINST");
    PlainWord(" @@ plainto_tsquery");
    PlainWord(" IN NATURAL LANGUAGE MODE");
    assert Plain("?" + " IN NATURAL LANGUAGE MODE");
  }

  lemma PlainWord(s: string)
    requires forall i :: 0 <= i < |s| ==> !IsQuote(s[i]) && s[i] != '(' && s[i] != ')'
    ensures Plain(s)
  {
  }

  lemma SearchConditionParts(col: string)
    ensures SearchCondition(col)
      == "to_tsvector" + ("(" + (Language() + ", " + col) + ")")
         + (" @@ plainto_tsquery" + ("(" + (Language() + ", " + "?") + ")"))
  {
    hide Language;
    assert "to_tsvector(" == "to_tsvector" + "(";
    assert " @@ plainto_tsquery(" == " @@ plainto_tsquery" + "(";
    SearchRegroups("to_tsvector", Language(), col, " @@ plainto_tsquery");
  }

  lemma SearchRegroups(a: string, l: string, col: string, b: string)
    ensures (a + "(") + l + ", " + col + ")" + (b + "(") + l + ", " + "?" + ")"
         == a + ("(" + (l + ", " + col) + ")") + (b + ("(" + (l + ", " + "?") + ")"))
  {
  }

  lemma SearchMatchNeutral(col: string)
    requires Plain(col)
    ensures Neutral(SearchMatch(col))
  {
    hide Neutral, Plain;
    WordsPlain();
    PlainIsNeutral(col);
    PlainIsNeutral("?" + " IN NATURAL LANGUAGE MODE");
    NeutralParens(col);
    NeutralParens("?" + " IN NATURAL LANGUAGE MODE");
    CallNeutral("MATCH", "(" + col + ")");
    CallNeutral(" AGAINST", "(" + ("?" + " IN NATURAL LANGUAGE MODE") + ")");
    NeutralConcat("MATCH" + ("(" + col + ")"), " AGAINST" + ("(" + ("?" + " IN NATURAL LANGUAGE MODE") + ")"));
    SearchMatchParts(col);
  }

  lemma SearchMatchParts(col: string)
    ensures SearchMatch(col) == "MATCH" + ("(" + col + ")") + (" AGAINST" + ("(" + ("?" + " IN NATURAL LANGUAGE MODE") + ")"))
  {
    MatchRegroups("MATCH" + ("(" + col + ")"), " AGAINST", " IN NATURAL LANGUAGE MODE");
  }

  lemma MatchRegroups(a: string, b: string, c: string)
    ensures a + b + "(" + "?" + (c + ")") == a + (b + ("(" + ("?" + c) + ")"))
  {
  }

  lemma SearchNeutral(meta: Meta, col: string)
    requires Plain(col) && Plain(meta.table)
    ensures Neutral(SearchCondition(col)) && Neutral(SearchMatch(col)) && Neutral(SearchShadow(meta, col) + " MATCH ?")
  {
    hide Neutral;
    SearchConditionNeutral(col);
    SearchMatchNeutral(col);
    PlainIsNeutral(SearchShadow(meta, col) + " MATCH ?");
  }

  ghost predicate BalancedWhere(where: seq<Clause>) {
    forall i :: 0 <= i < |where| ==> Balanced(Chars(where[i].cond))
  }

  // Only raw conditions can fail this; the typed methods have no quotes or parentheses of their own.
  ghost predicate CallBalanced(c: Call) {
    && (c.Where? ==> Balanced(Chars(c.cond)))
    && (c.WhereOp? ==> Plain(c.op))
    && (c.WhereNull? ==> Plain(c.test))
  }

  lemma AddingBalanced(b: Builder, cond: string, args: seq<Value>, or: bool)
    requires BalancedWhere(b.where) && Balanced(Chars(cond))
    ensures BalancedWhere(Adding(b, cond, args, or).where)
  {
    hide Balanced;
    var w := Adding(b, cond, args, or).where;
    assert forall i :: 0 <= i < |b.where| ==> w[i] == b.where[i];
  }

  lemma NeutralIsBalanced(s: string)
    requires Neutral(s)
    ensures Balanced(Chars(s))
  {
    hide After;
    assert Outside.quote.None?;
  }

  lemma JoiningKeeps(b: Builder, kind: string, table: string, on: string)
    ensures var j := Joining(b, kind, table, on); j.where == b.where && j.meta == b.meta && j.driver == b.driver
  {
    hide ValidIdent, ValidJoinOn;
  }

  lemma SearchingBalanced(b: Builder, col: string, term: string)
    requires BalancedWhere(b.where) && Plain(b.meta.table) && Plain(col)
    ensures BalancedWhere(Searching(b, col, term).where) && Searching(b, col, term).meta == b.meta
  {
    hide Neutral, Balanced, Joining, SearchCondition, SearchMatch, SearchShadow, SearchRank, BalancedWhere, Plain;
    SearchNeutral(b.meta, col);
    NeutralIsBalanced(SearchCondition(col));
    NeutralIsBalanced(SearchMatch(col));
    var shadow := SearchShadow(b.meta, col);
    NeutralIsBalanced(shadow + " MATCH ?");
    AddingBalanced(b, SearchCondition(col), [TextValue(term)], false);
    AddingBalanced(b, SearchMatch(col), [TextValue(term)], false);
    var pk := if b.meta.pk.Some? then b.meta.pk.value else "id";
    var on := shadow + ".rowid = " + b.meta.table + "." + pk;
    JoiningKeeps(b, "INNER", shadow, on);
    AddingBalanced(Joining(b, "INNER", shadow, on), shadow + " MATCH ?", [TextValue(term)], false);
  }

  lemma ApplyBalanced(b: Builder, c: Call)
    requires BalancedWhere(b.where) && Plain(b.meta.table) && CallBalanced(c)
    ensures BalancedWhere(Apply(b, c).where) && Apply(b, c).meta == b.meta
  {
    hide Neutral, Balanced, Joining, Searching, ValidIdent, BalancedWhere, AllValid, FieldOf;
    match c {
      case JoinOn(kind, table, on) => JoiningKeeps(b, kind, table, on);
      case Where(cond, args, or) => AddingBalanced(b, cond, args, or);
      case WhereOp(col, op, val, or) =>
        if ValidIdent(col) {
          IdentIsPlain(col);
          PlainIsNeutral(col + " " + op + " ?");
          NeutralIsBalanced(col + " " + op + " ?");
          AddingBalanced(b, col + " " + op + " ?", [val], or);
        }
      case WhereNull(col, test) =>
        if ValidIdent(col) {
          IdentIsPlain(col);
          PlainIsNeutral(col + " " + test);
          NeutralIsBalanced(col + " " + test);
          AddingBalanced(b, col + " " + test, [], false);
        }
      case WhereIn(col, vals) =>
        if ValidIdent(col) {
          IdentIsPlain(col);
          InBalanced(col, |Expanded(vals)|);
          AddingBalanced(b, InCondition(col, |Expanded(vals)|), Expanded(vals), false);
          PlainIsNeutral("1 = 0");
          NeutralIsBalanced("1 = 0");
          AddingBalanced(b, "1 = 0", [], false);
        }
      case Search(col, term) =>
        if ValidIdent(col) {
          IdentIsPlain(col);
          SearchingBalanced(b, col, term);
        }
      case _ =>
    }
  }

  lemma InBalanced(col: string, n: nat)
    requires Plain(col)
    ensures Balanced(Chars(InCondition(col, n)))
  {
    hide Neutral, Balanced;
    PlaceholdersPlain(n);
    PlainIsNeutral(col + " IN ");
    PlainIsNeutral(Placeholders(n));
    NeutralParens(Placeholders(n));
    NeutralConcat(col + " IN ", "(" + Placeholders(n) + ")");
    assert InCondition(col, n) == col + " IN " + ("(" + Placeholders(n) + ")");
    NeutralIsBalanced(InCondition(col, n));
  }

  lemma {:induction false} ApplyAllBalanced(b: Builder, calls: seq<Call>)
    requires BalancedWhere(b.where) && Plain(b.meta.table) && forall c :: c in calls ==> CallBalanced(c)
    ensures BalancedWhere(ApplyAll(b, calls).where)
    decreases |calls|
  {
    hide Apply, BalancedWhere, CallBalanced, Plain;
    if calls != [] {
      assert calls[0] in calls;
      ApplyBalanced(b, calls[0]);
      ApplyAllBalanced(Apply(b, calls[0]), calls[1..]);
    }
  }

  // ---------- main results ----------

  // `p` starts with the conditions of the query, connected as given, with their own arguments, and a row
  // passes if and only if it passes all of one maximal AND run; `rest` follows.
  ghost predicate Filters(p: seq<Piece>, rest: seq<Piece>, items: seq<Item>)
    requires items != []
  {
    var r := ParseOr(p);
    && r.Some? && r.value.1 == rest
    && Listed(r.value.0) == items[0 := items[0].(or := false)]
    && forall truth: seq<Piece> -> Truth, t: Truth :: Evaluated(r.value.0, truth).Rank() >= t.Rank() <==> SomeRun(items, truth, t)
  }

  lemma WhereFilters(where: seq<Clause>, given: seq<seq<Value>>, rest: seq<Piece>)
    requires |where| == |given| && MatchedClauses(where, given) && where != []
    requires BalancedWhere(where) && Ends(rest)
    ensures |Items(where, given)| == |where|
    ensures Filters(BoundClauses(where, given) + rest, rest, Items(where, given))
  {
    hide Bind, Balanced, ParseOr, Tree, Listed, SomeRun, BoundClauses, PrintedAll, Marks, Closed, Evaluated;
    var items := Items(where, given);
    forall i | 0 <= i < |items|
      ensures Balanced(items[i].cond)
    {
      BindBalanced(where[i].cond, given[i]);
    }
    BoundIsPrinted(where, given);
    ParseReads(items, rest);
    TreeListed(items);
    forall truth: seq<Piece> -> Truth, t: Truth
      ensures Evaluated(Tree(items), truth).Rank() >= t.Rank() <==> SomeRun(items, truth, t)
    {
      TreeEvaluated(items, truth, t);
    }
  }

  lemma BindBalanced(s: string, args: seq<Value>)
    requires Marks(s) == |args| && Balanced(Chars(s))
    ensures Balanced(Bind(s, args))
  {
    hide BindFrom, MarksFrom, After;
    BindAfter(s, args, Outside);
  }

  // What follows the conditions of a SELECT
  function Trailer(b: Builder, limit: int): seq<Piece>
    requires Sound(b)
  {
    BoundOrder(b.orderBy, b.rankArgs) + BoundInt(" LIMIT ", limit) + BoundInt(" OFFSET ", b.offset)
  }

  lemma TrailerEnds(b: Builder, limit: int)
    requires Sound(b)
    ensures Ends(Trailer(b, limit))
  {
    hide Sound, Bind, MarksAll, Join;
    var t := Trailer(b, limit);
    assert Chars(" AND ")[1] == Ch('A') && Chars(" OR ")[1] == Ch('O') && Chars(" OR ")[3] == Ch(' ');
    if b.orderBy != [] {
      assert t[1] == Chars(" ORDER BY ")[1] == Ch('O') && t[3] == Chars(" ORDER BY ")[3] == Ch('D');
    } else if limit > 0 {
      assert t[1] == Chars(" LIMIT ")[1] == Ch('L');
    } else if b.offset > 0 {
      assert t[1] == Chars(" OFFSET ")[1] == Ch('O') && t[3] == Chars(" OFFSET ")[3] == Ch('F');
    } else {
      assert t == [];
    }
  }

  // Every SELECT that a chain of balanced calls prints
  lemma ChainFilters(driver: string, schema: string, meta: Meta, calls: seq<Call>, limit: int)
    requires PlainMeta(schema, meta) && Plain(meta.table) && WellCalled(calls)
    requires forall c :: c in calls ==> CallBalanced(c)
    ensures var b := ApplyAll(Fresh(driver, schema, meta), calls);
      && Sound(b) && Matched(b) && Marks(SelectText(b, limit)) == |SelectArgs(b, limit)|
      && |Items(b.where, b.given)| == |b.where|
      && (b.where != [] ==>
            var head := Chars(HeadText(b)) + Chars(" WHERE ");
            var bound := Bind(SelectText(b, limit), SelectArgs(b, limit));
            head <= bound && Filters(bound[|head|..], Trailer(b, limit), Items(b.where, b.given)))
  {
    hide Apply, Bind, Marks, Closed, SelectText, SelectArgs, HeadText, Sound, CallTyped, CallMatched, BoundClauses,
         Filters, BalancedWhere, CallBalanced, MatchedClauses, Items, Trailer, Ends, Plain, PlainMeta;
    var b := ApplyAll(Fresh(driver, schema, meta), calls);
    ChainMeans(driver, schema, meta, calls, limit);
    assert BalancedWhere(Fresh(driver, schema, meta).where) by { NothingBalanced(); }
    ApplyAllBalanced(Fresh(driver, schema, meta), calls);
    SoundShape(b);
    ItemsLength(b.where, b.given);
    if b.where != [] {
      TrailerEnds(b, limit);
      WhereFilters(b.where, b.given, Trailer(b, limit));
      SelectSplits(b, limit);
    }
  }

  lemma NothingBalanced()
    ensures BalancedWhere([])
  {
  }

  lemma SelectSplits(b: Builder, limit: int)
    requires Sound(b) && Matched(b) && b.where != []
    ensures BoundSelect(b, limit)
         == (Chars(HeadText(b)) + Chars(" WHERE ")) + (BoundClauses(b.where, b.given) + Trailer(b, limit))
  {
    hide Sound, HeadText, MatchedClauses, BoundClauses, Chars, BoundInt, BoundOrder;
  }

  // A DELETE removes exactly the rows its conditions describe.
  lemma DeleteFilters(b: Builder)
    requires Sound(b) && Matched(b) && b.where != [] && BalancedWhere(b.where)
    ensures Marks(DeleteText(b)) == |b.args|
    ensures var head := Chars("DELETE FROM " + QualifiedTable(b)) + Chars(" WHERE ");
      var bound := Bind(DeleteText(b), b.args);
      && |Items(b.where, b.given)| == |b.where|
      && head <= bound && Filters(bound[|head|..], [], Items(b.where, b.given))
  {
    hide Bind, Marks, Closed, BoundClauses, Filters, BalancedWhere, MatchedClauses, Items, DeleteText, QualifiedTable, Chars,
         Concat, MarksAll, PlainNames, CountText, ExistsText, FromText;
    FilterMeans(b);
    SoundShape(b);
    ItemsLength(b.where, b.given);
    assert Ends([]) by { NothingEnds(); }
    WhereFilters(b.where, b.given, []);
    var head := Chars("DELETE FROM " + QualifiedTable(b)) + Chars(" WHERE ");
    var clauses := BoundClauses(b.where, b.given);
    assert clauses + [] == clauses;
    assert Bind(DeleteText(b), b.args) == head + clauses;
  }

  lemma NothingEnds()
    ensures Ends([])
  {
  }
}
