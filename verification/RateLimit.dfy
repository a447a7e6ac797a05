/** The fixed-window rate limiter. Main results, over every sequence of requests in time order: no closed
    interval as long as the window lets through more than twice the maximum from one address, no counting
    window more than the maximum, no request is blocked without that many before it in the same window, and
    the sweep that deletes expired entries is never observed. */
module RateLimiting {
  import Totals

  datatype Window = Window(count: nat, reset: int)

  datatype Limiter = Limiter(entries: map<string, Window>, lastSweep: int)

  datatype Request = Request(ip: string, at: int)

  // ---------- one request ----------

  function Swept(entries: map<string, Window>, now: int): map<string, Window> {
    map k | k in entries && now <= entries[k].reset :: entries[k]
  }

  // The window a request counts in, once counted
  function Counted(entries: map<string, Window>, ip: string, now: int, length: int): Window {
    if ip in entries && now <= entries[ip].reset then entries[ip].(count := entries[ip].count + 1)
    else Window(1, now + length)
  }

  function Handled(st: Limiter, r: Request, length: int): Limiter {
    var sweeps := r.at - st.lastSweep > length;
    var kept := if sweeps then Swept(st.entries, r.at) else st.entries;
    Limiter(kept[r.ip := Counted(kept, r.ip, r.at, length)], if sweeps then r.at else st.lastSweep)
  }

  // The same, never deleting anything
  function HandledPlain(entries: map<string, Window>, r: Request, length: int): map<string, Window> {
    entries[r.ip := Counted(entries, r.ip, r.at, length)]
  }

  // ---------- runs ----------

  // A request as it was counted: when its window began, and its place in it
  datatype Seen = Seen(ip: string, at: int, start: int, place: nat)

  datatype Run = Run(st: Limiter, log: seq<Seen>)

  function After(begin: int, rs: seq<Request>, length: int): Run {
    if rs == [] then Run(Limiter(map[], begin), [])
    else
      var r := rs[|rs| - 1];
      var before := After(begin, rs[..|rs| - 1], length);
      var st := Handled(before.st, r, length);
      var w := st.entries[r.ip];
      Run(st, before.log + [Seen(r.ip, r.at, w.reset - length, w.count)])
  }

  function AfterPlain(rs: seq<Request>, length: int): (map<string, Window>, seq<Seen>) {
    if rs == [] then (map[], [])
    else
      var r := rs[|rs| - 1];
      var before := AfterPlain(rs[..|rs| - 1], length);
      var entries := HandledPlain(before.0, r, length);
      var w := entries[r.ip];
      (entries, before.1 + [Seen(r.ip, r.at, w.reset - length, w.count)])
  }

  // The answer: a request goes through if its place in its window is within the maximum.
  predicate Passed(s: Seen, max: int) { s.place <= max }

  ghost predicate InOrder(begin: int, rs: seq<Request>) {
    && (rs != [] ==> begin <= rs[0].at)
    && forall i, j :: 0 <= i < j < |rs| ==> rs[i].at <= rs[j].at
  }

  function Clock(begin: int, rs: seq<Request>): int { if rs == [] then begin else rs[|rs| - 1].at }

  lemma InOrderInit(begin: int, rs: seq<Request>)
    requires InOrder(begin, rs) && rs != []
    ensures InOrder(begin, rs[..|rs| - 1]) && Clock(begin, rs[..|rs| - 1]) <= rs[|rs| - 1].at
  {
    assert forall i :: 0 <= i < |rs| - 1 ==> rs[..|rs| - 1][i] == rs[i];
  }

  // ---------- the sweep is not observed ----------

  // Two tables that agree on every window that can still count at some later time
  ghost predicate Alike(a: map<string, Window>, b: map<string, Window>, now: int) {
    forall ip :: (ip in a && now <= a[ip].reset) || (ip in b && now <= b[ip].reset) ==> (
      ip in a && ip in b && a[ip] == b[ip])
  }

  lemma AlikeLater(a: map<string, Window>, b: map<string, Window>, now: int, later: int)
    requires Alike(a, b, now) && now <= later
    ensures Alike(a, b, later) && Alike(Swept(a, later), b, later)
    ensures forall ip, length :: Counted(a, ip, later, length) == Counted(b, ip, later, length)
    ensures forall ip, length :: Counted(Swept(a, later), ip, later, length) == Counted(b, ip, later, length)
  {
  }

  lemma {:induction false} SweepKeepsAlike(begin: int, rs: seq<Request>, length: int)
    requires InOrder(begin, rs)
    ensures Alike(After(begin, rs, length).st.entries, AfterPlain(rs, length).0, Clock(begin, rs))
    ensures After(begin, rs, length).log == AfterPlain(rs, length).1
  {
    hide Alike, Swept, Counted;
    if rs == [] {
      assert Alike(map[], map[], begin) by { NothingAlike(begin); }
    } else {
      var n := |rs| - 1;
      InOrderInit(begin, rs);
      SweepKeepsAlike(begin, rs[..n], length);
      var st, plain := After(begin, rs[..n], length).st, AfterPlain(rs[..n], length).0;
      AlikeLater(st.entries, plain, Clock(begin, rs[..n]), rs[n].at);
      var kept := if rs[n].at - st.lastSweep > length then Swept(st.entries, rs[n].at) else st.entries;
      AlikeUpdated(kept, plain, rs[n].ip, Counted(plain, rs[n].ip, rs[n].at, length), rs[n].at);
    }
  }

  lemma NothingAlike(now: int)
    ensures Alike(map[], map[], now)
  {
  }

  lemma AlikeUpdated(a: map<string, Window>, b: map<string, Window>, ip: string, w: Window, now: int)
    requires Alike(a, b, now)
    ensures Alike(a[ip := w], b[ip := w], now)
  {
  }

  // ---------- what the log shows ----------

  // Where a logged request stands to the window its address has now
  ghost predicate Settled(s: Seen, entries: map<string, Window>, clock: int, length: int) {
    && s.start <= s.at <= s.start + length && s.at <= clock && s.place >= 1
    && if s.ip in entries then
         var start := entries[s.ip].reset - length;
         (s.start == start && s.place <= entries[s.ip].count) || s.start + length < start
       else s.start + length < clock
  }

  // No two requests have the same place in the same window, and two windows of an address do not overlap.
  ghost predicate Apart(a: Seen, b: Seen, length: int) {
    a.ip == b.ip ==>
      (a.start == b.start && a.place != b.place) || a.start + length < b.start || b.start + length < a.start
  }

  ghost predicate LogInv(log: seq<Seen>, entries: map<string, Window>, clock: int, length: int) {
    && (forall i :: 0 <= i < |log| ==> Settled(log[i], entries, clock, length))
    && (forall i, j :: 0 <= i < j < |log| ==> Apart(log[i], log[j], length))
    && (forall ip :: ip in entries ==> entries[ip].reset - length <= clock)
    && (forall ip :: ip in entries ==> Filled(log, |log|, ip, entries[ip].reset - length, entries[ip].count))
    && (forall i :: 0 <= i < |log| ==> Filled(log, i + 1, log[i].ip, log[i].start, log[i].place))
  }

  // Every place up to this one in the window has been taken by one of the first n requests.
  ghost predicate Filled(log: seq<Seen>, n: nat, ip: string, start: int, place: nat)
    requires n <= |log|
  {
    forall p :: 1 <= p <= place ==> Taken(log, n, ip, start, p)
  }

  ghost predicate Taken(log: seq<Seen>, n: nat, ip: string, start: int, place: int)
    requires n <= |log|
  {
    exists j: nat :: j < n && Takes(log[j], ip, start, place)
  }

  predicate Takes(s: Seen, ip: string, start: int, place: int) { s.ip == ip && s.start == start && s.place == place }

  lemma SettledSwept(s: Seen, entries: map<string, Window>, clock: int, now: int, length: int)
    requires Settled(s, entries, clock, length) && clock <= now
    ensures Settled(s, Swept(entries, now), now, length) && Settled(s, entries, now, length)
  {
  }

  lemma SettledCounted(s: Seen, entries: map<string, Window>, ip: string, now: int, length: int)
    requires Settled(s, entries, now, length) && length >= 0
    ensures Settled(s, entries[ip := Counted(entries, ip, now, length)], now, length)
    ensures var w := Counted(entries, ip, now, length);
      Apart(s, Seen(ip, now, w.reset - length, w.count), length)
  {
  }

  lemma FilledMore(log: seq<Seen>, x: Seen, n: nat, m: nat, ip: string, start: int, place: nat)
    requires n <= |log| && n <= m <= |log| + 1 && Filled(log, n, ip, start, place)
    ensures Filled(log + [x], m, ip, start, place)
  {
    var more := log + [x];
    forall p | 1 <= p <= place
      ensures Taken(more, m, ip, start, p)
    {
      assert Taken(log, n, ip, start, p);
      var j: nat :| j < n && Takes(log[j], ip, start, p);
      assert more[j] == log[j];
    }
  }

  lemma FilledNext(log: seq<Seen>, entries: map<string, Window>, ip: string, now: int, length: int)
    requires ip in entries ==> Filled(log, |log|, ip, entries[ip].reset - length, entries[ip].count)
    ensures var w := Counted(entries, ip, now, length);
      Filled(log + [Seen(ip, now, w.reset - length, w.count)], |log| + 1, ip, w.reset - length, w.count)
  {
    var w := Counted(entries, ip, now, length);
    var start := w.reset - length;
    var x := Seen(ip, now, start, w.count);
    var more := log + [x];
    var m := |more|;
    if w.count > 1 {
      FilledMore(log, x, |log|, m, ip, start, entries[ip].count);
    }
    forall p | 1 <= p <= w.count
      ensures Taken(more, m, ip, start, p)
    {
      if p == w.count {
        assert Takes(more[|log|], ip, start, p);
      }
    }
  }

  lemma LogStep(log: seq<Seen>, entries: map<string, Window>, kept: map<string, Window>, clock: int, r: Request, length: int)
    requires LogInv(log, entries, clock, length) && clock <= r.at && length >= 0
    requires kept == entries || kept == Swept(entries, r.at)
    ensures var w := Counted(kept, r.ip, r.at, length);
      LogInv(log + [Seen(r.ip, r.at, w.reset - length, w.count)], kept[r.ip := w], r.at, length)
  {
    hide Settled, Apart, Filled, Counted;
    var w := Counted(kept, r.ip, r.at, length);
    var x := Seen(r.ip, r.at, w.reset - length, w.count);
    var more, now := log + [x], kept[r.ip := w];
    forall i | 0 <= i < |log|
      ensures Settled(log[i], now, r.at, length) && Apart(log[i], x, length)
      ensures Filled(more, i + 1, log[i].ip, log[i].start, log[i].place)
    {
      SettledSwept(log[i], entries, clock, r.at, length);
      SettledCounted(log[i], kept, r.ip, r.at, length);
      FilledMore(log, x, i + 1, i + 1, log[i].ip, log[i].start, log[i].place);
    }
    FilledNext(log, kept, r.ip, r.at, length);
    forall ip | ip in now
      ensures Filled(more, |more|, ip, now[ip].reset - length, now[ip].count)
    {
      if ip != r.ip {
        FilledMore(log, x, |log|, |more|, ip, entries[ip].reset - length, entries[ip].count);
      }
    }
    NewSettled(kept, r.ip, r.at, length);
  }

  lemma NewSettled(entries: map<string, Window>, ip: string, now: int, length: int)
    requires length >= 0 && (ip in entries ==> entries[ip].reset - length <= now)
    ensures var w := Counted(entries, ip, now, length);
      w.reset - length <= now && Settled(Seen(ip, now, w.reset - length, w.count), entries[ip := w], now, length)
  {
  }

  lemma {:induction false} RunKeeps(begin: int, rs: seq<Request>, length: int)
    requires InOrder(begin, rs) && length >= 0
    ensures LogInv(After(begin, rs, length).log, After(begin, rs, length).st.entries, Clock(begin, rs), length)
  {
    hide LogInv, Counted, Swept;
    if rs == [] {
      NothingLogged(begin, length);
    } else {
      var n := |rs| - 1;
      InOrderInit(begin, rs);
      RunKeeps(begin, rs[..n], length);
      var before := After(begin, rs[..n], length);
      var kept := if rs[n].at - before.st.lastSweep > length then Swept(before.st.entries, rs[n].at) else before.st.entries;
      LogStep(before.log, before.st.entries, kept, Clock(begin, rs[..n]), rs[n], length);
    }
  }

  lemma NothingLogged(begin: int, length: int)
    ensures LogInv([], map[], begin, length)
  {
  }

  // ---------- counting ----------

  // The requests of an address that were let through at a time from `from` to `till`
  function Through(log: seq<Seen>, ip: string, max: int, from: int, till: int): set<nat> {
    set i: nat | i < |log| && log[i].ip == ip && from <= log[i].at <= till && Passed(log[i], max)
  }

  // The requests of an address that were let through in one counting window
  function ThroughWindow(log: seq<Seen>, ip: string, max: int, start: int): set<nat> {
    set i: nat | i < |log| && log[i].ip == ip && log[i].start == start && Passed(log[i], max)
  }

  // The places of a window up to a number
  function Places(n: int): (places: set<nat>)
    ensures forall p :: p in places <==> 1 <= p <= n
    ensures |places| == if n > 0 then n else 0
    decreases if n > 0 then n else 0
  {
    if n <= 0 then {} else Places(n - 1) + {n}
  }

  // A set is no larger than one it maps into without collisions.
  lemma {:induction false} Injected(a: set<nat>, b: set<nat>, f: nat -> nat)
    requires forall x :: x in a ==> f(x) in b
    requires forall x, y :: x in a && y in a && x != y ==> f(x) != f(y)
    ensures |a| <= |b|
    decreases |a|
  {
    if a != {} {
      var x :| x in a;
      Injected(a - {x}, b - {f(x)}, f);
    }
  }

  // No counting window lets through more than the maximum.
  lemma WindowBound(begin: int, rs: seq<Request>, length: int, ip: string, max: int, start: int)
    requires InOrder(begin, rs) && length >= 0
    ensures |ThroughWindow(After(begin, rs, length).log, ip, max, start)| <= if max > 0 then max else 0
  {
    RunKeeps(begin, rs, length);
    var log := After(begin, rs, length).log;
    var entries, clock := After(begin, rs, length).st.entries, Clock(begin, rs);
    PlacesOnce(log, entries, clock, length, ip, max, start);
  }

  lemma PlacesOnce(log: seq<Seen>, entries: map<string, Window>, clock: int, length: int, ip: string, max: int, start: int)
    requires LogInv(log, entries, clock, length) && length >= 0
    ensures |ThroughWindow(log, ip, max, start)| <= if max > 0 then max else 0
  {
    hide Filled;
    var a := ThroughWindow(log, ip, max, start);
    var f := (i: nat) => if i < |log| then log[i].place else 0;
    forall i | i in a
      ensures f(i) in Places(max)
    {
      assert Settled(log[i], entries, clock, length);
    }
    forall i, j | i in a && j in a && i != j
      ensures f(i) != f(j)
    {
      var x, y := if i < j then i else j, if i < j then j else i;
      assert Apart(log[x], log[y], length);
    }
    Injected(a, Places(max), f);
  }

  // Main result: no closed interval as long as the window lets through more than twice the maximum.
  lemma IntervalBound(begin: int, rs: seq<Request>, length: int, ip: string, max: int, from: int)
    requires InOrder(begin, rs) && length >= 0
    ensures |Through(After(begin, rs, length).log, ip, max, from, from + length)| <= 2 * (if max > 0 then max else 0)
  {
    hide InOrder, Filled;
    RunKeeps(begin, rs, length);
    var log := After(begin, rs, length).log;
    var entries, clock := After(begin, rs, length).st.entries, Clock(begin, rs);
    var a := Through(log, ip, max, from, from + length);
    if a != {} {
      var first := Earliest(log, a);
      var one := ThroughWindow(log, ip, max, log[first].start);
      PlacesOnce(log, entries, clock, length, ip, max, log[first].start);
      var rest := a - one;
      if rest == {} {
        forall i | i in a
          ensures i in one
        {
          assert i !in rest;
        }
        Totals.SubsetSize(a, one);
      } else {
        var next :| next in rest;
        var two := ThroughWindow(log, ip, max, log[next].start);
        PlacesOnce(log, entries, clock, length, ip, max, log[next].start);
        forall i | i in a
          ensures i in one + two
        {
          TwoWindows(log, entries, clock, length, ip, from, first, next, i);
        }
        Totals.SubsetSize(a, one + two);
        assert |one + two| <= |one| + |two|;
      }
    }
  }

  // The one of them whose window began first
  lemma {:induction false} Earliest(log: seq<Seen>, a: set<nat>) returns (first: nat)
    requires a != {} && forall i :: i in a ==> 0 <= i < |log|
    ensures first in a && forall i :: i in a ==> log[first].start <= log[i].start
    decreases |a|
  {
    var x :| x in a;
    if a == {x} {
      first := x;
    } else {
      var y := Earliest(log, a - {x});
      first := if log[x].start < log[y].start then x else y;
    }
  }

  // A closed interval as long as the window touches at most two windows of an address.
  lemma TwoWindows(
    log: seq<Seen>, entries: map<string, Window>, clock: int, length: int, ip: string, from: int,
    first: nat, next: nat, i: nat)
    requires LogInv(log, entries, clock, length) && length >= 0
    requires first < |log| && next < |log| && i < |log|
    requires log[first].ip == ip && log[next].ip == ip && log[i].ip == ip
    requires from <= log[first].at && log[next].at <= from + length && from <= log[i].at <= from + length
    requires log[first].start <= log[i].start && log[first].start < log[next].start
    requires log[first].at <= log[first].start + length
    ensures log[i].start == log[first].start || log[i].start == log[next].start
  {
    hide Filled;
    assert Settled(log[first], entries, clock, length) && Settled(log[next], entries, clock, length);
    assert Settled(log[i], entries, clock, length);
    WindowsApart(log, entries, clock, length, first, next);
    WindowsApart(log, entries, clock, length, first, i);
    WindowsApart(log, entries, clock, length, next, i);
  }

  lemma WindowsApart(log: seq<Seen>, entries: map<string, Window>, clock: int, length: int, i: nat, j: nat)
    requires LogInv(log, entries, clock, length) && i < |log| && j < |log| && log[i].ip == log[j].ip
    ensures log[i].start == log[j].start || log[i].start + length < log[j].start || log[j].start + length < log[i].start
  {
    hide Filled, Settled;
    if i < j {
      assert Apart(log[i], log[j], length);
    } else if j < i {
      assert Apart(log[j], log[i], length);
    }
  }

  // ---------- no request is blocked without cause ----------

  function Recent(log: seq<Seen>, ip: string, n: nat, from: int): set<nat> {
    set i: nat | i < |log| && i < n && log[i].ip == ip && from <= log[i].at
  }

  // A blocked request is preceded, within one window length, by at least the maximum from its address.
  lemma BlockedWithCause(begin: int, rs: seq<Request>, length: int, max: int, i: nat)
    requires InOrder(begin, rs) && length >= 0
    requires i < |After(begin, rs, length).log| && !Passed(After(begin, rs, length).log[i], max)
    ensures var log := After(begin, rs, length).log;
      |Recent(log, log[i].ip, i, log[i].at - length)| >= max
  {
    hide InOrder, LogInv;
    RunKeeps(begin, rs, length);
    var run := After(begin, rs, length);
    PlacesBefore(run.log, run.st.entries, Clock(begin, rs), length, i);
  }

  lemma EarlierPlace(log: seq<Seen>, entries: map<string, Window>, clock: int, length: int, i: nat, p: nat)
    requires LogInv(log, entries, clock, length) && i < |log| && 1 <= p < log[i].place
    ensures var s := log[i];
      var k := Holder(log, i, s.ip, s.start, p);
      k < |log| && log[k].place == p && k in Recent(log, s.ip, i, s.at - length)
  {
    hide Apart;
    var s := log[i];
    assert Settled(s, entries, clock, length);
    assert Taken(log, i + 1, s.ip, s.start, p) by { assert Filled(log, i + 1, s.ip, s.start, s.place); }
    var j: nat :| j < i + 1 && Takes(log[j], s.ip, s.start, p);
    assert j < i;
    assert Taken(log, i, s.ip, s.start, p);
    var k := Holder(log, i, s.ip, s.start, p);
    assert Settled(log[k], entries, clock, length);
  }

  lemma PlacesBefore(log: seq<Seen>, entries: map<string, Window>, clock: int, length: int, i: nat)
    requires LogInv(log, entries, clock, length) && i < |log|
    ensures |Recent(log, log[i].ip, i, log[i].at - length)| >= log[i].place - 1
  {
    hide LogInv, Recent, Taken;
    var s := log[i];
    var f := (p: nat) => Holder(log, i, s.ip, s.start, p);
    var places := Places(s.place - 1);
    var recent := Recent(log, s.ip, i, s.at - length);
    forall p | p in places
      ensures f(p) in recent
    {
      EarlierPlace(log, entries, clock, length, i, p);
    }
    forall p, q | p in places && q in places && p != q
      ensures f(p) != f(q)
    {
      EarlierPlace(log, entries, clock, length, i, p);
      EarlierPlace(log, entries, clock, length, i, q);
    }
    Injected(places, recent, f);
  }

  // The request that took a place, if one did
  ghost function Holder(log: seq<Seen>, n: nat, ip: string, start: int, place: nat): nat
    requires n <= |log|
  {
    if Taken(log, n, ip, start, place) then FirstTaking(log, n, ip, start, place) else 0
  }

  ghost function FirstTaking(log: seq<Seen>, n: nat, ip: string, start: int, place: int): (j: nat)
    requires n <= |log| && Taken(log, n, ip, start, place)
    ensures j < n && Takes(log[j], ip, start, place)
  {
    var j: nat :| j < n && Takes(log[j], ip, start, place); j
  }

  // ---------- Retry-After ----------

  const Second := 1_000_000_000

  // Whole seconds of a duration, towards zero
  function Seconds(d: int): int { if d >= 0 then d / Second else -((-d) / Second) }

  // The header of a blocked answer; `read` is the clock when it is computed
  function RetryAfter(reset: int, read: int): int { Seconds(reset - read) + 1 }

  lemma {:induction false} OthersKeep(st: Limiter, rs: seq<Request>, length: int, ip: string)
    requires forall r :: r in rs ==> r.ip != ip
    ensures var later := AfterAll(st, rs, length);
      ip in later.entries ==> ip in st.entries && later.entries[ip] == st.entries[ip]
  {
    if rs != [] {
      OthersKeep(st, rs[..|rs| - 1], length, ip);
      assert rs[|rs| - 1] in rs;
    }
  }

  function AfterAll(st: Limiter, rs: seq<Request>, length: int): Limiter {
    if rs == [] then st else Handled(AfterAll(st, rs[..|rs| - 1], length), rs[|rs| - 1], length)
  }

  // Waiting as long as Retry-After says is enough: the next request of the address opens a new window, and so
  // goes through if and only if the maximum lets anything through, whatever other addresses did meanwhile.
  lemma RetrySuffices(st: Limiter, r: Request, rs: seq<Request>, length: int, max: int, read: int, t: int)
    requires forall x :: x in rs ==> x.ip != r.ip
    requires t >= read + RetryAfter(Handled(st, r, length).entries[r.ip].reset, read) * Second
    ensures var later := Handled(AfterAll(Handled(st, r, length), rs, length), Request(r.ip, t), length);
      && later.entries[r.ip].count == 1
      && (Passed(Seen(r.ip, t, later.entries[r.ip].reset - length, later.entries[r.ip].count), max) <==> max >= 1)
  {
    var blocked := Handled(st, r, length);
    OthersKeep(blocked, rs, length, r.ip);
    var d := blocked.entries[r.ip].reset - read;
    assert (Seconds(d) + 1) * Second > d;
  }

  // The announced time is the least whole number of seconds after which the window is over.
  lemma RetryLeast(reset: int, read: int)
    requires read <= reset
    ensures var wait := RetryAfter(reset, read);
      wait >= 1 && read + wait * 1_000_000_000 > reset && read + (wait - 1) * 1_000_000_000 <= reset
  {
    var d := reset - read;
    assert d == d / Second * Second + d % Second;
  }

  // While the window lasts, nobody else's request ends it.
  lemma {:induction false} OthersSpare(st: Limiter, rs: seq<Request>, length: int, ip: string)
    requires ip in st.entries && forall r :: r in rs ==> r.ip != ip && r.at <= st.entries[ip].reset
    ensures var later := AfterAll(st, rs, length); ip in later.entries && later.entries[ip] == st.entries[ip]
  {
    if rs != [] {
      var n := |rs| - 1;
      OthersSpare(st, rs[..n], length, ip);
      assert rs[n] in rs;
    }
  }

  // A client that was blocked and asks again a second earlier than announced, or more, is blocked again.
  lemma RetryNeeded(st: Limiter, r: Request, rs: seq<Request>, length: int, max: int, read: int, t: int)
    requires r.at <= read <= Handled(st, r, length).entries[r.ip].reset
    requires t <= read + (RetryAfter(Handled(st, r, length).entries[r.ip].reset, read) - 1) * Second
    requires forall x :: x in rs ==> x.ip != r.ip && x.at <= t
    requires Handled(st, r, length).entries[r.ip].count > max
    ensures var e := Handled(AfterAll(Handled(st, r, length), rs, length), Request(r.ip, t), length).entries[r.ip];
      e.reset == Handled(st, r, length).entries[r.ip].reset && e.count > max
  {
    var blocked := Handled(st, r, length);
    RetryLeast(blocked.entries[r.ip].reset, read);
    OthersSpare(blocked, rs, length, r.ip);
  }

  // ---------- the object ----------

  class RlEntry {
    var count: nat
    const reset: int

    constructor (reset: int)
      ensures this.reset == reset && count == 0
    {
      this.reset, count := reset, 0;
    }
  }

  class RateLimiter {
    const max: int
    const length: int
    var entries: map<string, RlEntry>
    var lastSweep: int

    ghost function View(): Limiter
      reads this, entries.Values
    {
      Limiter(map ip | ip in entries :: Window(entries[ip].count, entries[ip].reset), lastSweep)
    }

    // Each address has an entry of its own.
    ghost predicate Valid()
      reads this
    {
      forall a, b :: a in entries && b in entries && entries[a] == entries[b] ==> a == b
    }

    constructor (max: int, length: int, now: int)
      ensures Valid() && View() == Limiter(map[], now)
      ensures this.max == max && this.length == length
    {
      this.max, this.length := max, length;
      entries, lastSweep := map[], now;
    }

    // The sweep: the map gives its keys in any order, and entries are deleted as it goes.
    method Sweep(now: int)
      requires Valid()
      modifies this`entries
      ensures Valid() && View() == Limiter(Swept(old(View()).entries, now), lastSweep)
      ensures forall ip :: ip in entries ==> ip in old(entries) && entries[ip] == old(entries)[ip]
    {
      var rest := entries.Keys;
      while rest != {}
        invariant rest <= entries.Keys
        invariant forall ip :: ip in entries ==> ip in old(entries) && entries[ip] == old(entries)[ip]
        invariant forall ip :: ip in old(entries) ==> (
          ip in entries <==> ip in rest || now <= old(entries)[ip].reset)
        decreases |rest|
      {
        var k :| k in rest;
        rest := rest - {k};
        if now > entries[k].reset {
          entries := entries - {k};
        }
      }
    }

    // One request; `read` is the clock when Retry-After is computed
    method Handle(ip: string, now: int, read: int) returns (blocked: bool, retryAfter: int)
      requires Valid()
      modifies this, entries.Values
      ensures Valid() && View() == Handled(old(View()), Request(ip, now), length)
      ensures blocked <==> View().entries[ip].count > max
      ensures retryAfter == RetryAfter(View().entries[ip].reset, read)
      ensures fresh(entries.Values - old(entries.Values))
    {
      hide Swept, Counted;
      ghost var was := View();
      if now - lastSweep > length {
        Sweep(now);
        lastSweep := now;
      }
      ghost var kept := View();
      assert kept.entries == if now - was.lastSweep > length then Swept(was.entries, now) else was.entries;
      var e := Count(ip, now);
      assert View() == Limiter(kept.entries[ip := Counted(kept.entries, ip, now, length)], kept.lastSweep);
      blocked := e.count > max;
      retryAfter := Seconds(e.reset - read) + 1;
    }

    // The window the request counts in, made if need be, with the request counted
    method Count(ip: string, now: int) returns (e: RlEntry)
      requires Valid()
      modifies this`entries, entries.Values
      ensures Valid() && ip in entries && e == entries[ip]
      ensures View() == Limiter(old(View()).entries[ip := Counted(old(View()).entries, ip, now, length)], lastSweep)
      ensures forall k :: k in entries ==> (k in old(entries) && entries[k] == old(entries)[k]) || fresh(entries[k])
    {
      if ip !in entries || now > entries[ip].reset {
        var entry := new RlEntry(now + length);
        entries := entries[ip := entry];
      }
      e := entries[ip];
      e.count := e.count + 1;
    }
  }
}
