/** The LRU cache of prepared statements: a map and a list that must describe one recency sequence. Main
    results: over every run no query is cached twice, at most 512 are, and each statement put in is either
    cached or was handed out for closing, exactly once; under PrepareCached the cached queries are the 512
    most recently used ones. */
module StmtCaching {
  import opened GoStrings

  const MaxCachedStmts := 512

  // ---------- the recency sequence ----------

  datatype Cached<S> = Cached(key: string, stmt: S)

  function Find<S>(s: seq<Cached<S>>, key: string): Option<S> {
    if s == [] then None else if s[0].key == key then Some(s[0].stmt) else Find(s[1..], key)
  }

  function Drop<S>(s: seq<Cached<S>>, key: string): seq<Cached<S>> {
    if s == [] then [] else if s[0].key == key then s[1..] else [s[0]] + Drop(s[1..], key)
  }

  // A hit moves to the front.
  function Touched<S>(s: seq<Cached<S>>, key: string): seq<Cached<S>> {
    var found := Find(s, key);
    if found.Some? then [Cached(key, found.value)] + Drop(s, key) else s
  }

  datatype Placed<S> = Placed(cache: seq<Cached<S>>, use: S, toClose: seq<S>)

  function PutInto<S>(s: seq<Cached<S>>, key: string, stmt: S): Placed<S> {
    var found := Find(s, key);
    if found.Some? then Placed(Touched(s, key), found.value, [stmt])
    else
      var all := [Cached(key, stmt)] + s;
      if |all| > MaxCachedStmts then Placed(all[..|all| - 1], stmt, [all[|all| - 1].stmt])
      else Placed(all, stmt, [])
  }

  ghost predicate DistinctKeys<S>(s: seq<Cached<S>>) {
    forall i, j :: 0 <= i < j < |s| ==> s[i].key != s[j].key
  }

  ghost predicate Good<S>(s: seq<Cached<S>>) { DistinctKeys(s) && |s| <= MaxCachedStmts }

  function Stmts<S>(s: seq<Cached<S>>): seq<S> { seq(|s|, i requires 0 <= i < |s| => s[i].stmt) }

  function Keys<S>(s: seq<Cached<S>>): seq<string> { seq(|s|, i requires 0 <= i < |s| => s[i].key) }

  lemma {:induction false} FindAt<S>(s: seq<Cached<S>>, key: string)
    ensures Find(s, key).Some? <==> key in Keys(s)
    ensures Find(s, key).Some? ==> Cached(key, Find(s, key).value) in s
    ensures DistinctKeys(s) ==> forall i :: 0 <= i < |s| && s[i].key == key ==> Find(s, key) == Some(s[i].stmt)
  {
    if s != [] {
      FindAt(s[1..], key);
      assert Keys(s) == [s[0].key] + Keys(s[1..]);
      assert forall i :: 1 <= i < |s| ==> s[i] == s[1..][i - 1];
    }
  }

  lemma DropKeeps<S>(s: seq<Cached<S>>, key: string)
    requires DistinctKeys(s)
    ensures DistinctKeys(Drop(s, key)) && key !in Keys(Drop(s, key))
    ensures |Drop(s, key)| == if Find(s, key).Some? then |s| - 1 else |s|
  {
    KeysOfDrop(s, key);
    WithoutMembers(Keys(s), key);
    WithoutFacts(Keys(s), key);
    FindAt(s, key);
    assert |Drop(s, key)| == |Keys(Drop(s, key))| && |s| == |Keys(s)|;
    forall i, j | 0 <= i < j < |Drop(s, key)|
      ensures Drop(s, key)[i].key != Drop(s, key)[j].key
    {
      assert Keys(Drop(s, key))[i] != Keys(Drop(s, key))[j];
    }
  }

  lemma {:induction false} DropStmts<S>(s: seq<Cached<S>>, key: string)
    requires Find(s, key).Some?
    ensures multiset(Stmts(s)) == multiset{Find(s, key).value} + multiset(Stmts(Drop(s, key)))
  {
    assert Stmts(s) == [s[0].stmt] + Stmts(s[1..]);
    if s[0].key != key {
      DropStmts(s[1..], key);
      var d := Drop(s[1..], key);
      assert Stmts([s[0]] + d) == [s[0].stmt] + Stmts(d);
    }
  }

  lemma TouchedKeeps<S>(s: seq<Cached<S>>, key: string)
    requires Good(s)
    ensures Good(Touched(s, key))
    ensures multiset(Stmts(Touched(s, key))) == multiset(Stmts(s))
    ensures forall k :: Find(Touched(s, key), k) == Find(s, k)
  {
    if Find(s, key).Some? {
      var d := Drop(s, key);
      var c := Cached(key, Find(s, key).value);
      DropKeeps(s, key);
      FindAt(s, key);
      forall i | 0 <= i < |d|
        ensures d[i].key != key
      {
        assert Keys(d)[i] == d[i].key;
      }
      DropStmts(s, key);
      assert Stmts([c] + d) == [c.stmt] + Stmts(d);
      forall k
        ensures Find(Touched(s, key), k) == Find(s, k)
      {
        assert ([c] + d)[1..] == d;
        FindDrop(s, key, k);
      }
    }
  }

  lemma {:induction false} FindDrop<S>(s: seq<Cached<S>>, key: string, k: string)
    ensures k != key ==> Find(Drop(s, key), k) == Find(s, k)
  {
    if s != [] && s[0].key != key {
      FindDrop(s[1..], key, k);
      assert ([s[0]] + Drop(s[1..], key))[1..] == Drop(s[1..], key);
    }
  }

  // A put keeps the invariant, drops nothing, and its statement for use is not one to close.
  lemma PutKeeps<S>(s: seq<Cached<S>>, key: string, stmt: S)
    requires Good(s)
    ensures var p := PutInto(s, key, stmt);
      && Good(p.cache)
      && multiset(Stmts(p.cache)) + multiset(p.toClose) == multiset(Stmts(s)) + multiset{stmt}
      && Find(p.cache, key) == Some(p.use)
      && (stmt !in Stmts(s) ==> p.use !in p.toClose)
  {
    FindAt(s, key);
    if Find(s, key).Some? {
      TouchedKeeps(s, key);
      var i :| 0 <= i < |s| && s[i].key == key;
      assert Stmts(s)[i] == Find(s, key).value;
    } else {
      var all := [Cached(key, stmt)] + s;
      forall j | 0 <= j < |s|
        ensures s[j].key != key
      {
        assert Keys(s)[j] == s[j].key;
      }
      assert Stmts(all) == [stmt] + Stmts(s);
      if |all| > MaxCachedStmts {
        var n := |all| - 1;
        assert Stmts(all) == Stmts(all[..n]) + [all[n].stmt];
        assert multiset(Stmts(all)) == multiset(Stmts(all[..n])) + multiset([all[n].stmt]);
        assert multiset(Stmts(all)) == multiset([stmt]) + multiset(Stmts(s));
        assert all[n].stmt == Stmts(s)[n - 1];
      }
    }
  }

  // When a put evicts, the victim is the entry at the back; every other entry stays, in the same order.
  lemma EvictsOldest<S>(s: seq<Cached<S>>, key: string, stmt: S)
    requires Good(s) && Find(s, key).None?
    ensures var p := PutInto(s, key, stmt);
      && p.cache[1..] == (if |s| == MaxCachedStmts then s[..|s| - 1] else s)
      && p.toClose == (if |s| == MaxCachedStmts then [s[|s| - 1].stmt] else [])
  {
  }

  // ---------- runs ----------

  datatype Op<S> = GetOp(key: string) | PutOp(key: string, stmt: S) | CloseAllOp

  // The cache, and every statement handed out for closing so far
  datatype State<S> = State(cache: seq<Cached<S>>, closing: seq<S>)

  function Step<S>(st: State<S>, op: Op<S>): State<S> {
    match op
    case GetOp(key) => st.(cache := Touched(st.cache, key))
    case PutOp(key, stmt) =>
      var p := PutInto(st.cache, key, stmt);
      State(p.cache, st.closing + p.toClose)
    case CloseAllOp => State([], st.closing + Stmts(st.cache))
  }

  function Run<S>(ops: seq<Op<S>>): State<S> {
    if ops == [] then State([], []) else Step(Run(ops[..|ops| - 1]), ops[|ops| - 1])
  }

  function PutStmts<S>(ops: seq<Op<S>>): seq<S> {
    if ops == [] then []
    else
      var op := ops[|ops| - 1];
      PutStmts(ops[..|ops| - 1]) + (if op.PutOp? then [op.stmt] else [])
  }

  // Over every run: no query twice, at most 512, and nothing lost or closed twice.
  lemma {:induction false} RunKeeps<S>(ops: seq<Op<S>>)
    ensures var st := Run(ops);
      && Good(st.cache)
      && multiset(Stmts(st.cache)) + multiset(st.closing) == multiset(PutStmts(ops))
  {
    hide Touched, PutInto, Good, Stmts;
    if ops == [] {
      NothingGood<S>();
    } else {
      var n := |ops| - 1;
      RunKeeps(ops[..n]);
      var st := Run(ops[..n]);
      match ops[n] {
        case GetOp(key) => TouchedKeeps(st.cache, key);
        case PutOp(key, stmt) =>
          PutKeeps(st.cache, key, stmt);
          var p := PutInto(st.cache, key, stmt);
          assert Run(ops) == State(p.cache, st.closing + p.toClose);
          assert multiset(st.closing + p.toClose) == multiset(p.toClose) + multiset(st.closing);
          assert PutStmts(ops) == PutStmts(ops[..n]) + [stmt];
          assert multiset(PutStmts(ops)) == multiset(PutStmts(ops[..n])) + multiset{stmt};
          assert multiset(Stmts(p.cache)) + (multiset(p.toClose) + multiset(st.closing))
              == multiset(Stmts(st.cache)) + multiset{stmt} + multiset(st.closing);
        case CloseAllOp =>
          NothingGood<S>();
          assert multiset(Run(ops).closing) == multiset(st.closing) + multiset(Stmts(st.cache));
      }
    }
  }

  // If every statement put in is a new one, each is in exactly one place: cached, or handed out once.
  lemma EachOnce<S>(ops: seq<Op<S>>, stmt: S)
    requires stmt in PutStmts(ops) && multiset(PutStmts(ops))[stmt] == 1
    ensures var st := Run(ops);
      && (stmt in Stmts(st.cache) <==> stmt !in st.closing)
      && (stmt in st.closing ==> multiset(st.closing)[stmt] == 1)
  {
    RunKeeps(ops);
    var st := Run(ops);
    assert multiset(Stmts(st.cache))[stmt] + multiset(st.closing)[stmt] == 1;
    assert stmt in Stmts(st.cache) <==> stmt in multiset(Stmts(st.cache));
    assert stmt in st.closing <==> stmt in multiset(st.closing);
  }

  // ---------- the workload of PrepareCached ----------

  // A hit, or a miss and the put of a newly prepared statement
  function Prepared<S>(s: seq<Cached<S>>, key: string, stmt: S): Placed<S> {
    var found := Find(s, key);
    if found.Some? then Placed(Touched(s, key), found.value, []) else PutInto(s, key, stmt)
  }

  function Without(keys: seq<string>, key: string): seq<string> {
    if keys == [] then [] else if keys[0] == key then keys[1..] else [keys[0]] + Without(keys[1..], key)
  }

  // The distinct queries of a history, the last used first
  function Recent(history: seq<string>): seq<string> {
    if history == [] then []
    else
      var key := history[|history| - 1];
      [key] + Without(Recent(history[..|history| - 1]), key)
  }

  function Newest(keys: seq<string>): seq<string> {
    if |keys| > MaxCachedStmts then keys[..MaxCachedStmts] else keys
  }

  // The cache after each query of the history was prepared, `stmts` being the statements made on the way
  function Served<S>(history: seq<string>, stmts: seq<S>): seq<Cached<S>>
    requires |history| == |stmts|
  {
    if history == [] then []
    else
      var n := |history| - 1;
      Prepared(Served(history[..n], stmts[..n]), history[n], stmts[n]).cache
  }

  lemma {:induction false} KeysOfDrop<S>(s: seq<Cached<S>>, key: string)
    ensures Keys(Drop(s, key)) == Without(Keys(s), key)
  {
    if s != [] {
      assert Keys(s)[1..] == Keys(s[1..]);
      if s[0].key != key {
        KeysOfDrop(s[1..], key);
        var d := Drop(s[1..], key);
        assert Keys([s[0]] + d) == [s[0].key] + Keys(d);
      }
    }
  }

  lemma {:induction false} WithoutFacts(keys: seq<string>, key: string)
    ensures key !in keys ==> Without(keys, key) == keys
    ensures key in keys ==> |Without(keys, key)| == |keys| - 1
    ensures |Without(keys, key)| <= |keys|
  {
    if keys != [] && keys[0] != key {
      WithoutFacts(keys[1..], key);
    }
  }

  lemma {:induction false} WithoutCut(keys: seq<string>, key: string, n: nat)
    requires n <= |keys|
    ensures key in keys[..n] ==> (
      n >= 1 && |Without(keys, key)| >= n - 1 && Without(keys[..n], key) == Without(keys, key)[..n - 1])
    ensures key !in keys[..n] && n >= 1 ==> |Without(keys, key)| >= n - 1 && Without(keys, key)[..n - 1] == keys[..n - 1]
  {
    WithoutFacts(keys, key);
    if n > 0 {
      var cut := keys[..n];
      assert cut[1..] == keys[1..][..n - 1];
      if keys[0] == key {
        assert key in cut;
        assert Without(cut, key) == cut[1..];
      } else {
        WithoutCut(keys[1..], key, n - 1);
        var w := Without(keys[1..], key);
        assert Without(keys, key) == [keys[0]] + w;
        assert key in cut <==> key in keys[1..][..n - 1] by {
          assert cut == [keys[0]] + keys[1..][..n - 1];
        }
        if key in cut {
          assert n - 1 >= 1;
          assert Without(cut, key) == [keys[0]] + Without(cut[1..], key);
          assert ([keys[0]] + w)[..n - 1] == [keys[0]] + w[..n - 2];
        } else if n >= 2 {
          assert ([keys[0]] + w)[..n - 1] == [keys[0]] + w[..n - 2];
          assert keys[..n - 1] == [keys[0]] + keys[1..][..n - 2];
        }
      }
    }
  }

  // LRU: after any history, exactly the 512 most recently used queries are cached, in order of use.
  lemma {:induction false} CacheIsNewest<S>(history: seq<string>, stmts: seq<S>)
    requires |history| == |stmts|
    ensures Good(Served(history, stmts))
    ensures Keys(Served(history, stmts)) == Newest(Recent(history))
  {
    hide Good, Prepared;
    if history == [] {
      NothingGood<S>();
    } else {
      var n := |history| - 1;
      CacheIsNewest(history[..n], stmts[..n]);
      ServedNext(Served(history[..n], stmts[..n]), Recent(history[..n]), history[n], stmts[n]);
    }
  }

  lemma ServedNext<S>(s: seq<Cached<S>>, all: seq<string>, key: string, stmt: S)
    requires Good(s) && Keys(s) == Newest(all)
    ensures Good(Prepared(s, key, stmt).cache)
    ensures Keys(Prepared(s, key, stmt).cache) == Newest([key] + Without(all, key))
  {
    hide Good, Find, Drop, Without, PutInto, Newest;
    FindAt(s, key);
    NewestStep(all, key);
    if Find(s, key).Some? {
      TouchedKeeps(s, key);
      KeysOfDrop(s, key);
      assert Keys(Touched(s, key)) == [key] + Keys(Drop(s, key));
    } else {
      PutKeeps(s, key, stmt);
      assert |s| <= MaxCachedStmts by { GoodSize(s); }
      KeysOfPut(s, key, stmt);
    }
  }

  lemma GoodSize<S>(s: seq<Cached<S>>)
    requires Good(s)
    ensures |s| <= MaxCachedStmts
  {
  }

  lemma NothingGood<S>()
    ensures Good<S>([]) && Stmts<S>([]) == [] && Keys<S>([]) == []
  {
  }

  lemma KeysOfPut<S>(s: seq<Cached<S>>, key: string, stmt: S)
    requires Find(s, key).None? && |s| <= MaxCachedStmts
    ensures Keys(PutInto(s, key, stmt).cache) == Newest([key] + Keys(s))
  {
    var all := [Cached(key, stmt)] + s;
    assert Keys(all) == [key] + Keys(s);
    if |all| > MaxCachedStmts {
      assert Keys(all[..|all| - 1]) == Keys(all)[..|all| - 1];
    }
  }

  lemma NewestStep(all: seq<string>, key: string)
    ensures Newest([key] + Without(all, key))
      == if key in Newest(all) then [key] + Without(Newest(all), key) else Newest([key] + Newest(all))
  {
    WithoutFacts(all, key);
    WithoutCut(all, key, |Newest(all)|);
    var w := Without(all, key);
    assert Newest(all) == all[..|Newest(all)|];
    if |all| > MaxCachedStmts {
      assert ([key] + w)[..MaxCachedStmts] == [key] + w[..MaxCachedStmts - 1];
      assert ([key] + Newest(all))[..MaxCachedStmts] == [key] + all[..MaxCachedStmts - 1];
    } else {
      assert Newest(all) == all && all[..|all|] == all;
      if key in all {
        assert w[..|all| - 1] == w;
      }
    }
  }

  // ---------- how far back a query is remembered ----------

  // The queries used since the last use of this one
  function Since(history: seq<string>, key: string): set<string> {
    if history == [] || history[|history| - 1] == key then {}
    else Since(history[..|history| - 1], key) + {history[|history| - 1]}
  }

  function Position(keys: seq<string>, key: string): (i: nat)
    requires key in keys
    ensures i < |keys| && keys[i] == key
    ensures forall j :: 0 <= j < i ==> keys[j] != key
  {
    if keys[0] == key then 0 else 1 + Position(keys[1..], key)
  }

  // The keys before this one
  function Before(keys: seq<string>, key: string): (before: set<string>)
    requires key in keys
    ensures forall k :: k in before ==> k in keys
  {
    if keys[0] == key then {} else {keys[0]} + Before(keys[1..], key)
  }

  ghost predicate Distinct(keys: seq<string>) { forall i, j :: 0 <= i < j < |keys| ==> keys[i] != keys[j] }

  lemma {:induction false} WithoutMembers(keys: seq<string>, key: string)
    requires Distinct(keys)
    ensures Distinct(Without(keys, key)) && key !in Without(keys, key)
    ensures forall k :: k in Without(keys, key) <==> k in keys && k != key
  {
    if keys != [] {
      var rest := keys[1..];
      WithoutMembers(rest, key);
      assert forall i :: 1 <= i < |keys| ==> keys[i] == rest[i - 1];
      assert forall k :: k in rest ==> k != keys[0];
      if keys[0] != key {
        var w := Without(rest, key);
        assert keys[0] !in w;
        PrependDistinct(keys[0], w);
      }
    }
  }

  lemma PrependDistinct(x: string, w: seq<string>)
    requires Distinct(w) && x !in w
    ensures Distinct([x] + w)
  {
  }

  lemma DistinctTail(keys: seq<string>)
    requires Distinct(keys) && keys != []
    ensures Distinct(keys[1..]) && keys[0] !in keys[1..]
  {
    assert forall i :: 0 <= i < |keys| - 1 ==> keys[1..][i] == keys[i + 1];
  }

  lemma {:induction false} BeforeDropped(keys: seq<string>, last: string, key: string)
    requires Distinct(keys) && key in keys && key != last
    ensures key in Without(keys, last) && Before(Without(keys, last), key) == Before(keys, key) - {last}
  {
    hide Distinct;
    DistinctTail(keys);
    if keys[0] != key {
      BeforeDropped(keys[1..], last, key);
    }
  }

  lemma {:induction false} CountBefore(keys: seq<string>, key: string)
    requires Distinct(keys) && key in keys
    ensures |Before(keys, key)| == Position(keys, key)
  {
    hide Distinct;
    DistinctTail(keys);
    if keys[0] != key {
      CountBefore(keys[1..], key);
      assert keys[0] !in Before(keys[1..], key);
    }
  }

  lemma BeforeMoved(keys: seq<string>, last: string, key: string)
    requires Distinct(keys) && key in keys && key != last
    ensures key in [last] + Without(keys, last)
    ensures Before([last] + Without(keys, last), key) == Before(keys, key) + {last}
  {
    hide Distinct, Without;
    BeforeDropped(keys, last, key);
    var r := [last] + Without(keys, last);
    assert r[0] == last && r[1..] == Without(keys, last);
  }

  lemma {:induction false} RecentFacts(history: seq<string>)
    ensures Distinct(Recent(history))
    ensures forall k :: k in Recent(history) <==> k in history
  {
    if history != [] {
      var n := |history| - 1;
      RecentFacts(history[..n]);
      WithoutMembers(Recent(history[..n]), history[n]);
      assert history == history[..n] + [history[n]];
    }
  }

  // In the recency order, what comes before a query is what was used since.
  lemma {:induction false} PositionIsSince(history: seq<string>, key: string)
    requires key in history
    ensures key in Recent(history)
    ensures Before(Recent(history), key) == Since(history, key)
    ensures Position(Recent(history), key) == |Since(history, key)|
  {
    hide Before, Distinct, Position, Without;
    RecentFacts(history);
    var n := |history| - 1;
    var last := history[n];
    var r := Recent(history);
    if last == key {
      assert Before(r, key) == {} by { FrontHasNoneBefore(r, key); }
    } else {
      assert key in history[..n] by { assert history == history[..n] + [last]; }
      PositionIsSince(history[..n], key);
      RecentFacts(history[..n]);
      BeforeMoved(Recent(history[..n]), last, key);
    }
    CountBefore(r, key);
  }

  lemma FrontHasNoneBefore(keys: seq<string>, key: string)
    requires keys != [] && keys[0] == key
    ensures Before(keys, key) == {}
  {
  }

  // A query is cached if and only if it was used and fewer than 512 others were used since.
  lemma CachedIff<S>(history: seq<string>, stmts: seq<S>, key: string)
    requires |history| == |stmts|
    ensures key in Keys(Served(history, stmts)) <==> key in history && |Since(history, key)| < 512
  {
    CacheIsNewest(history, stmts);
    RecentFacts(history);
    var r := Recent(history);
    if key in history {
      PositionIsSince(history, key);
      var p := Position(r, key);
      if p < MaxCachedStmts {
        assert Newest(r)[p] == key;
      } else {
        assert forall j :: 0 <= j < MaxCachedStmts ==> r[j] != key;
      }
    }
  }

  // ---------- the objects ----------

  // A prepared statement
  class Stmt {
    const query: string
    var closed: bool

    constructor (query: string)
      ensures this.query == query && !closed
    {
      this.query, closed := query, false;
    }

    method Close()
      modifies this
      ensures closed
    {
      closed := true;
    }
  }

  // stmtEntry in its list element
  class Entry {
    const key: string
    const stmt: Stmt

    constructor (key: string, stmt: Stmt)
      ensures this.key == key && this.stmt == stmt
    {
      this.key, this.stmt := key, stmt;
    }
  }

  function Sequence(order: seq<Entry>): seq<Cached<Stmt>> {
    seq(|order|, i requires 0 <= i < |order| => Cached(order[i].key, order[i].stmt))
  }

  // The map and the list hold the same entries, each under its own key.
  ghost predicate Agree(items: map<string, Entry>, order: seq<Entry>) {
    && DistinctKeys(Sequence(order))
    && (forall i :: 0 <= i < |order| ==> order[i].key in items && items[order[i].key] == order[i])
    && (forall k :: k in items ==> items[k] in order && items[k].key == k)
  }

  lemma AgreeFind(items: map<string, Entry>, order: seq<Entry>, key: string)
    requires Agree(items, order)
    ensures key in items <==> Find(Sequence(order), key).Some?
    ensures key in items ==> Find(Sequence(order), key) == Some(items[key].stmt)
  {
    var s := Sequence(order);
    FindAt(s, key);
    if key in items {
      var i :| 0 <= i < |order| && order[i] == items[key];
      assert s[i].key == key;
      assert Keys(s)[i] == key;
    }
    if Find(s, key).Some? {
      var i :| 0 <= i < |order| && Keys(s)[i] == key;
      assert order[i].key == key;
    }
  }

  lemma AgreeMoved(items: map<string, Entry>, order: seq<Entry>, i: nat)
    requires Agree(items, order) && Good(Sequence(order)) && i < |order|
    ensures var moved := [order[i]] + (order[..i] + order[i + 1..]);
      && Agree(items, moved)
      && Sequence(moved) == Touched(Sequence(order), order[i].key)
  {
    var s, el := Sequence(order), order[i];
    var moved := [el] + (order[..i] + order[i + 1..]);
    AgreeFind(items, order, el.key);
    DropAt(s, i);
    assert Sequence(moved) == [Cached(el.key, el.stmt)] + (s[..i] + s[i + 1..]);
    TouchedKeeps(s, el.key);
    forall j | 0 <= j < |moved|
      ensures moved[j] in order
    {
      assert moved[j] == if j == 0 then el else if j <= i then order[j - 1] else order[j];
    }
    SameMembers(order, i);
  }

  lemma SameMembers<E>(order: seq<E>, i: nat)
    requires i < |order|
    ensures forall j :: 0 <= j < |order| ==> order[j] in [order[i]] + (order[..i] + order[i + 1..])
  {
    forall j | 0 <= j < |order|
      ensures order[j] in [order[i]] + (order[..i] + order[i + 1..])
    {
      assert order == order[..i] + [order[i]] + order[i + 1..];
    }
  }

  lemma AgreeAdded(items: map<string, Entry>, order: seq<Entry>, entry: Entry)
    requires Agree(items, order) && entry.key !in items
    ensures Agree(items[entry.key := entry], [entry] + order)
    ensures Sequence([entry] + order) == [Cached(entry.key, entry.stmt)] + Sequence(order)
  {
    var s := Sequence(order);
    assert forall j :: 0 <= j < |order| ==> s[j].key in items;
    assert Sequence([entry] + order) == [Cached(entry.key, entry.stmt)] + s;
    assert forall k :: k in items ==> items[k] in [entry] + order;
  }

  lemma AgreeEvicted(items: map<string, Entry>, order: seq<Entry>)
    requires Agree(items, order) && order != []
    ensures var n := |order| - 1;
      && Agree(map k | k in items && k != order[n].key :: items[k], order[..n])
      && Sequence(order[..n]) == Sequence(order)[..n]
  {
    var n := |order| - 1;
    var s := Sequence(order);
    assert Sequence(order[..n]) == s[..n];
    assert forall j :: 0 <= j < n ==> s[j].key != s[n].key;
    var rest := map k | k in items && k != order[n].key :: items[k];
    forall k | k in rest
      ensures rest[k] in order[..n]
    {
      assert order == order[..n] + [order[n]];
      assert items[k] in order && items[k] != order[n];
    }
    forall i | 0 <= i < n
      ensures order[..n][i].key in rest
    {
      assert s[i].key == order[i].key && s[n].key == order[n].key;
    }
  }

  class StmtCache {
    var items: map<string, Entry>
    var order: seq<Entry>   // front: used most recently

    ghost predicate Valid()
      reads this
    {
      Agree(items, order) && Good(Recency())
    }

    ghost function Recency(): seq<Cached<Stmt>>
      reads this
    {
      Sequence(order)
    }

    constructor ()
      ensures Valid() && Recency() == []
    {
      items, order := map[], [];
    }

    // list.List.MoveToFront of the element of a key
    method MoveToFront(el: Entry)
      requires Valid() && el in order
      modifies this`order
      ensures Valid() && Recency() == Touched(old(Recency()), el.key)
    {
      hide Agree, Good, Touched, Sequence;
      var i := 0;
      while order[i] != el
        invariant 0 <= i < |order| && el !in order[..i]
        decreases |order| - i
      {
        i := i + 1;
      }
      AgreeMoved(items, order, i);
      TouchedKeeps(Recency(), el.key);
      order := [el] + (order[..i] + order[i + 1..]);
    }

    method Get(key: string) returns (s: Option<Stmt>)
      requires Valid()
      modifies this`order
      ensures Valid() && Recency() == Touched(old(Recency()), key)
      ensures s == Find(old(Recency()), key)
    {
      AgreeFind(items, order, key);
      if key in items {
        var el := items[key];
        MoveToFront(el);
        return Some(el.stmt);
      }
      return None;
    }

    method Put(key: string, s: Stmt) returns (use: Stmt, toClose: seq<Stmt>)
      requires Valid()
      modifies this
      ensures Valid() && Placed(Recency(), use, toClose) == PutInto(old(Recency()), key, s)
    {
      hide Good, Touched, Find, Sequence, DistinctKeys;
      AgreeFind(items, order, key);
      toClose := [];
      if key in items {
        var el := items[key];
        MoveToFront(el);
        return el.stmt, [s];
      }
      PutKeeps(Recency(), key, s);
      var entry := new Entry(key, s);
      AgreeAdded(items, order, entry);
      order := [entry] + order;
      items := items[key := entry];
      SameLength(order);
      if |order| > MaxCachedStmts {
        var oldest := order[|order| - 1];
        AgreeEvicted(items, order);
        order := order[..|order| - 1];
        items := map k | k in items && k != oldest.key :: items[k];
        toClose := toClose + [oldest.stmt];
      }
      return s, toClose;
    }

    // closeAll: the map decides the order of closing
    method CloseAll()
      requires Valid()
      modifies this, set e | e in order :: e.stmt
      ensures Valid() && Recency() == []
      ensures forall e :: e in old(order) ==> e.stmt.closed
    {
      var rest := items.Keys;
      while rest != {}
        invariant rest <= items.Keys
        invariant items == old(items) && order == old(order) && Valid()
        invariant forall k :: k in items && k !in rest ==> items[k].stmt.closed
        decreases |rest|
      {
        var k :| k in rest;
        items[k].stmt.Close();
        rest := rest - {k};
      }
      assert forall e :: e in order ==> items[e.key] == e;
      items := map[];
      order := [];
    }
  }

  class DB {
    const stmts: StmtCache?

    constructor (cached: bool)
      ensures stmts != null <==> cached
      ensures stmts != null ==> fresh(stmts) && Valid() && stmts.Recency() == []
    {
      var c: StmtCache? := null;
      if cached {
        c := new StmtCache();
      }
      stmts := c;
    }

    // What is cached is open, and prepared for the query it is cached under.
    ghost predicate Valid()
      reads this, stmts, if stmts == null then {} else set e | e in stmts.order :: e.stmt
    {
      stmts != null ==>
        && stmts.Valid()
        && forall i :: 0 <= i < |stmts.order| ==>
             stmts.order[i].stmt.query == stmts.order[i].key && !stmts.order[i].stmt.closed
    }

    // `prepares` says whether the driver can prepare the query.
    method PrepareCached(query: string, prepares: bool) returns (s: Option<Stmt>)
      requires Valid()
      modifies stmts, if stmts == null then {} else set e | e in stmts.order :: e.stmt
      ensures Valid()
      ensures s.Some? ==> s.value.query == query && !s.value.closed
      ensures s.None? <==> !prepares && (stmts == null || old(Find(stmts.Recency(), query)).None?)
      ensures stmts != null && s.None? ==> stmts.Recency() == old(stmts.Recency())
      ensures stmts != null && s.Some? ==> (
        var was := old(stmts.Recency());
        if Find(was, query).Some? then s == Find(was, query) && stmts.Recency() == Touched(was, query)
        else fresh(s.value) && stmts.Recency() == PutInto(was, query, s.value).cache)
      ensures stmts != null ==> forall e :: e in old(stmts.order) ==> (
        e.stmt.closed <==> e.stmt !in Stmts(stmts.Recency()))
    {
      if stmts == null {
        if !prepares {
          return None;
        }
        var made := new Stmt(query);
        return Some(made);
      }
      ghost var was := stmts.Recency();
      AgreeFind(stmts.items, stmts.order, query);
      FindAt(was, query);
      TouchedKeeps(was, query);
      var found := stmts.Get(query);
      forall e | e in old(stmts.order)
        ensures e.stmt in Stmts(stmts.Recency())
      {
        StmtListed(old(stmts.order), e);
        assert e.stmt in multiset(Stmts(stmts.Recency()));
      }
      if found.Some? {
        return found;
      }
      if !prepares {
        return None;
      }
      var use := PrepareAndPut(query);
      return Some(use);
    }

    // The rest of PrepareCached after a miss
    method PrepareAndPut(query: string) returns (use: Stmt)
      requires Valid() && stmts != null && Find(stmts.Recency(), query).None?
      modifies stmts, set e | e in stmts.order :: e.stmt
      ensures Valid() && fresh(use) && use.query == query && !use.closed
      ensures stmts.Recency() == PutInto(old(stmts.Recency()), query, use).cache
      ensures forall e :: e in old(stmts.order) ==> (e.stmt.closed <==> e.stmt !in Stmts(stmts.Recency()))
    {
      hide Agree, Find, Good;
      ghost var was, order := stmts.Recency(), stmts.order;
      var made := new Stmt(query);
      PutKeeps(was, query, made);
      EvictsOldest(was, query, made);
      var toClose: seq<Stmt>;
      use, toClose := stmts.Put(query, made);
      ghost var now := stmts.order;
      PutEntries(order, now, query, made);
      for i := 0 to |toClose|
        invariant stmts.Valid() && stmts.order == now
        invariant forall j :: 0 <= j < i ==> toClose[j].closed
        invariant forall e :: e in order && e.stmt !in toClose ==> !e.stmt.closed
        invariant !made.closed
      {
        toClose[i].Close();
      }
    }
  }

  // After a put that missed, the list is the new entry and the old ones, but for one evicted from the back.
  lemma PutShifts(order: seq<Entry>, now: seq<Entry>, query: string, made: Stmt)
    requires Good(Sequence(order)) && Find(Sequence(order), query).None?
    requires Sequence(now) == PutInto(Sequence(order), query, made).cache
    ensures |now| == (if |order| == MaxCachedStmts then |order| else |order| + 1)
    ensures now[0].key == query && now[0].stmt == made
    ensures forall j :: 1 <= j < |now| ==> now[j].key == order[j - 1].key && now[j].stmt == order[j - 1].stmt
    ensures PutInto(Sequence(order), query, made).toClose
         == if |order| == MaxCachedStmts then [order[|order| - 1].stmt] else []
    ensures forall i, j :: 0 <= i < j < |order| ==> order[i].key != order[j].key
  {
    var s, n := Sequence(order), Sequence(now);
    assert |n| == |now| && |s| == |order|;
    assert forall i :: 0 <= i < |now| ==> now[i].stmt == n[i].stmt && now[i].key == n[i].key;
    assert forall i :: 0 <= i < |order| ==> order[i].stmt == s[i].stmt && order[i].key == s[i].key;
  }

  // So the statement to close is the one that is no longer listed, and what is listed is new or was before.
  lemma PutEntries(order: seq<Entry>, now: seq<Entry>, query: string, made: Stmt)
    requires Good(Sequence(order)) && Find(Sequence(order), query).None?
    requires Sequence(now) == PutInto(Sequence(order), query, made).cache
    requires forall e :: e in order ==> e.stmt.query == e.key && e.stmt != made
    ensures var toClose := PutInto(Sequence(order), query, made).toClose;
      && (forall e :: e in order ==> (e.stmt in toClose <==> e.stmt !in Stmts(Sequence(now))))
      && (forall j :: 0 <= j < |now| ==> StillOpen(order, now[j], query, made, toClose))
  {
    hide PutInto, Good, Find;
    PutShifts(order, now, query, made);
    var toClose := PutInto(Sequence(order), query, made).toClose;
    var listed := Stmts(Sequence(now));
    assert forall j :: 0 <= j < |now| ==> listed[j] == now[j].stmt;
    assert forall i, j :: 0 <= i < j < |order| ==> order[i] in order && order[j] in order && order[i].stmt != order[j].stmt;
    forall e | e in order
      ensures e.stmt in toClose <==> e.stmt !in listed
    {
      var i :| 0 <= i < |order| && order[i] == e;
      if i < |now| - 1 {
        assert listed[i + 1] == e.stmt;
      }
      if e.stmt in listed {
        var j :| 0 <= j < |now| && listed[j] == e.stmt;
        assert j > 0 && order[j - 1].stmt == e.stmt;
      }
    }
    forall j | 0 <= j < |now|
      ensures StillOpen(order, now[j], query, made, toClose)
    {
      if j > 0 {
        assert order[j - 1] in order;
      }
    }
  }

  ghost predicate StillOpen(order: seq<Entry>, e: Entry, query: string, made: Stmt, toClose: seq<Stmt>) {
    || (e.stmt == made && e.key == query)
    || (e.stmt !in toClose && e.stmt.query == e.key && exists f :: f in order && f.stmt == e.stmt)
  }

  lemma StmtListed(order: seq<Entry>, e: Entry)
    requires e in order
    ensures e.stmt in multiset(Stmts(Sequence(order)))
  {
    var i :| 0 <= i < |order| && order[i] == e;
    assert Stmts(Sequence(order))[i] == e.stmt;
  }

  lemma SameLength(order: seq<Entry>)
    ensures |Sequence(order)| == |order|
    ensures order != [] ==> Sequence(order)[|order| - 1].stmt == order[|order| - 1].stmt
  {
  }

  // Dropping the entry at a place, by its key
  lemma {:induction false} DropAt<S>(s: seq<Cached<S>>, i: nat)
    requires DistinctKeys(s) && i < |s|
    ensures Drop(s, s[i].key) == s[..i] + s[i + 1..]
  {
    if i > 0 {
      assert forall j :: 1 <= j < |s| ==> s[j] == s[1..][j - 1];
      DropAt(s[1..], i - 1);
      assert s[..i] == [s[0]] + s[1..][..i - 1] && s[i + 1..] == s[1..][i..];
    } else {
      assert s[..0] == [];
    }
  }
}
