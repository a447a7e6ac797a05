/** Quotes in a SQL text, and the question marks outside and inside them. A server takes a question mark for
    a placeholder only outside quotes. */
module SqlQuotes {
  import opened GoStrings

  predicate IsQuote(c: char) { c == '\'' || c == '"' || c == '`' }

  // The quote that is open after a character; None is outside
  function QuoteStep(q: Option<char>, c: char): Option<char> {
    if q.Some? then (if c == q.value then None else q) else if IsQuote(c) then Some(c) else None
  }

  function QuoteAfter(s: string, q: Option<char>): Option<char> {
    if s == "" then q else QuoteAfter(s[1..], QuoteStep(q, s[0]))
  }

  // The question marks outside quotes, from an open quote or none on
  function MarksFrom(s: string, q: Option<char>): nat {
    if s == "" then 0 else (if s[0] == '?' && q.None? then 1 else 0) + MarksFrom(s[1..], QuoteStep(q, s[0]))
  }

  // The question marks inside quotes
  function QuotedFrom(s: string, q: Option<char>): nat {
    if s == "" then 0 else (if s[0] == '?' && q.Some? then 1 else 0) + QuotedFrom(s[1..], QuoteStep(q, s[0]))
  }

  function Marks(s: string): nat { MarksFrom(s, None) }

  function QuotedMarks(s: string): nat { QuotedFrom(s, None) }

  // Every quote opened is closed.
  predicate Closed(s: string) { QuoteAfter(s, None) == None }

  // Closed, and no question mark in the quotes
  predicate Tidy(s: string) { Closed(s) && QuotedMarks(s) == 0 }

  // Neither quotes nor question marks
  predicate Inert(s: string) { forall c :: c in s ==> c != '?' && !IsQuote(c) }

  lemma {:induction false} ScanConcat(a: string, b: string, q: Option<char>)
    ensures QuoteAfter(a + b, q) == QuoteAfter(b, QuoteAfter(a, q))
    ensures MarksFrom(a + b, q) == MarksFrom(a, q) + MarksFrom(b, QuoteAfter(a, q))
    ensures QuotedFrom(a + b, q) == QuotedFrom(a, q) + QuotedFrom(b, QuoteAfter(a, q))
  {
    if a == "" {
      assert a + b == b;
    } else {
      assert (a + b)[1..] == a[1..] + b;
      ScanConcat(a[1..], b, QuoteStep(q, a[0]));
    }
  }

  lemma {:induction false} InertScan(s: string, q: Option<char>)
    requires Inert(s) && (q.Some? ==> IsQuote(q.value))
    ensures QuoteAfter(s, q) == q && MarksFrom(s, q) == 0 && QuotedFrom(s, q) == 0
  {
    if s != "" {
      assert s[0] in s;
      InertScan(s[1..], q);
    }
  }

  // After a text that closes its quotes, counting starts afresh.
  lemma ClosedConcat(a: string, b: string)
    requires Closed(a)
    ensures Closed(a + b) <==> Closed(b)
    ensures Marks(a + b) == Marks(a) + Marks(b) && QuotedMarks(a + b) == QuotedMarks(a) + QuotedMarks(b)
  {
    ScanConcat(a, b, None);
  }

  lemma InertIsClosed(s: string)
    requires Inert(s)
    ensures Tidy(s) && Marks(s) == 0
  {
    InertScan(s, None);
  }

  lemma OneMarkCounts()
    ensures Closed("?") && Marks("?") == 1 && QuotedMarks("?") == 0
  {
  }

  lemma {:induction false} InsideScan(w: string, c: char)
    requires c !in w
    ensures QuoteAfter(w, Some(c)) == Some(c) && MarksFrom(w, Some(c)) == 0
    ensures QuotedFrom(w, Some(c)) == Count(w, '?')
  {
    if w != "" {
      InsideScan(w[1..], c);
    }
  }

  // A quoted word holds no placeholder, whatever question marks it has.
  lemma QuotedWord(w: string)
    requires '\'' !in w
    ensures Closed("'" + w + "'") && Marks("'" + w + "'") == 0 && QuotedMarks("'" + w + "'") == Count(w, '?')
  {
    ScanConcat("'" + w, "'", None);
    ScanConcat("'", w, None);
    InsideScan(w, '\'');
    QuoteAlone();
  }

  lemma QuoteAlone()
    ensures QuoteAfter("'", None) == Some('\'') && MarksFrom("'", None) == 0 && QuotedFrom("'", None) == 0
    ensures QuoteAfter("'", Some('\'')) == None && MarksFrom("'", Some('\'')) == 0 && QuotedFrom("'", Some('\'')) == 0
  {
  }

  // Every question mark is outside quotes or inside.
  lemma {:induction false} MarksSplit(s: string, q: Option<char>)
    ensures Count(s, '?') == MarksFrom(s, q) + QuotedFrom(s, q)
  {
    if s != "" {
      MarksSplit(s[1..], QuoteStep(q, s[0]));
    }
  }
}
