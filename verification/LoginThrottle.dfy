/** The login throttle. Main result, over every sequence of operations with monotone time: its answers are
    those of a counter kept for each key alone, which knows nothing of the other keys and never sweeps, and a
    key is blocked exactly when that counter has reached the limit and has not run out. */
module LoginThrottle {
  import opened GoStrings

  const DefaultMaxAttempts := 10
  const DefaultLockWindow := 60_000_000_000

  datatype Record = Record(count: nat, resetAt: int)

  datatype Throttle = Throttle(records: map<string, Record>, maxAttempts: int, length: int, lastSweep: int)

  // `blocked` reads the clock twice: for its sweep and for its answer.
  datatype Op =
    | Blocked(key: string, at: int, later: int)
    | Fail(key: string, at: int)
    | Reset(key: string)
    | SetLimits(maxAttempts: int, length: int)

  // ---------- what each operation does ----------

  function Swept(records: map<string, Record>, now: int): map<string, Record> {
    map k | k in records && now <= records[k].resetAt :: records[k]
  }

  function Sweep(t: Throttle, now: int): Throttle {
    if now - t.lastSweep < t.length then t else t.(records := Swept(t.records, now), lastSweep := now)
  }

  predicate IsBlocked(t: Throttle, key: string, now: int) {
    key in t.records && now <= t.records[key].resetAt && t.records[key].count >= t.maxAttempts
  }

  function Failed(t: Throttle, key: string, now: int): Throttle {
    if key in t.records && now <= t.records[key].resetAt then
      t.(records := t.records[key := t.records[key].(count := t.records[key].count + 1)])
    else t.(records := t.records[key := Record(1, now + t.length)])
  }

  function Step(t: Throttle, op: Op): Throttle {
    match op
    case Blocked(_, at, _) => Sweep(t, at)
    case Fail(key, at) => Failed(t, key, at)
    case Reset(key) => t.(records := t.records - {key})
    case SetLimits(n, length) =>
      t.(maxAttempts := if n > 0 then n else t.maxAttempts, length := if length > 0 then length else t.length)
  }

  function New(now: int): Throttle { Throttle(map[], DefaultMaxAttempts, DefaultLockWindow, now) }

  function After(start: int, ops: seq<Op>): Throttle {
    if ops == [] then New(start) else Step(After(start, ops[..|ops| - 1]), ops[|ops| - 1])
  }

  // ---------- one key alone ----------

  // The limits in force
  function Limits(ops: seq<Op>): (int, int) {
    if ops == [] then (DefaultMaxAttempts, DefaultLockWindow)
    else
      var before, op := Limits(ops[..|ops| - 1]), ops[|ops| - 1];
      if op.SetLimits? then
        (if op.maxAttempts > 0 then op.maxAttempts else before.0, if op.length > 0 then op.length else before.1)
      else before
  }

  // The failures of a key: how many since its window opened or it was reset, and when the window ends
  function Failures(ops: seq<Op>, key: string): Option<Record> {
    if ops == [] then None
    else
      var init, op := ops[..|ops| - 1], ops[|ops| - 1];
      var before := Failures(init, key);
      if op.Fail? && op.key == key then
        if before.Some? && op.at <= before.value.resetAt then Some(before.value.(count := before.value.count + 1))
        else Some(Record(1, op.at + Limits(init).1))
      else if op.Reset? && op.key == key then None
      else before
  }

  // ---------- monotone time ----------

  function Clock(start: int, ops: seq<Op>): int {
    if ops == [] then start
    else
      var op := ops[|ops| - 1];
      match op
      case Blocked(_, _, later) => later
      case Fail(_, at) => at
      case _ => Clock(start, ops[..|ops| - 1])
  }

  ghost predicate OnTime(clock: int, op: Op) {
    && (op.Blocked? ==> clock <= op.at <= op.later)
    && (op.Fail? ==> clock <= op.at)
  }

  ghost predicate Monotone(start: int, ops: seq<Op>) {
    forall i :: 0 <= i < |ops| ==> OnTime(Clock(start, ops[..i]), ops[i])
  }

  lemma MonotoneInit(start: int, ops: seq<Op>)
    requires Monotone(start, ops) && ops != []
    ensures Monotone(start, ops[..|ops| - 1])
    ensures OnTime(Clock(start, ops[..|ops| - 1]), ops[|ops| - 1])
  {
    var init := ops[..|ops| - 1];
    forall i | 0 <= i < |init|
      ensures OnTime(Clock(start, init[..i]), init[i])
    {
      assert init[..i] == ops[..i];
    }
  }

  // The table and the key's own counter agree on every record that can still count.
  ghost predicate Tracks(records: map<string, Record>, key: string, own: Option<Record>, clock: int) {
    (key in records && clock <= records[key].resetAt) || (own.Some? && clock <= own.value.resetAt) ==> (
      key in records && own == Some(records[key]))
  }

  lemma StepTracks(t: Throttle, ops: seq<Op>, start: int, key: string)
    requires ops != [] && Monotone(start, ops)
    requires var init := ops[..|ops| - 1];
      Tracks(t.records, key, Failures(init, key), Clock(start, init)) && Limits(init) == (t.maxAttempts, t.length)
    ensures var next := Step(t, ops[|ops| - 1]);
      Tracks(next.records, key, Failures(ops, key), Clock(start, ops)) && Limits(ops) == (next.maxAttempts, next.length)
  {
    MonotoneInit(start, ops);
  }

  lemma {:induction false} RunTracks(start: int, ops: seq<Op>, key: string)
    requires Monotone(start, ops)
    ensures Tracks(After(start, ops).records, key, Failures(ops, key), Clock(start, ops))
    ensures Limits(ops) == (After(start, ops).maxAttempts, After(start, ops).length)
  {
    if ops != [] {
      MonotoneInit(start, ops);
      RunTracks(start, ops[..|ops| - 1], key);
      StepTracks(After(start, ops[..|ops| - 1]), ops, start, key);
    }
  }

  // Main result: after any history, the answer for a key is what its own failures say.
  lemma BlockedIff(start: int, ops: seq<Op>, key: string, at: int, later: int)
    requires Monotone(start, ops) && Clock(start, ops) <= at <= later
    ensures var own := Failures(ops, key);
      IsBlocked(Sweep(After(start, ops), at), key, later)
      <==> own.Some? && later <= own.value.resetAt && own.value.count >= Limits(ops).0
  {
    RunTracks(start, ops, key);
  }

  // ---------- the version that never sweeps ----------

  function StepPlain(t: Throttle, op: Op): Throttle { if op.Blocked? then t else Step(t, op) }

  function AfterPlain(start: int, ops: seq<Op>): Throttle {
    if ops == [] then New(start) else StepPlain(AfterPlain(start, ops[..|ops| - 1]), ops[|ops| - 1])
  }

  lemma {:induction false} PlainTracks(start: int, ops: seq<Op>, key: string)
    requires Monotone(start, ops)
    ensures Tracks(AfterPlain(start, ops).records, key, Failures(ops, key), Clock(start, ops))
    ensures Limits(ops) == (AfterPlain(start, ops).maxAttempts, AfterPlain(start, ops).length)
  {
    if ops != [] {
      var init, op := ops[..|ops| - 1], ops[|ops| - 1];
      MonotoneInit(start, ops);
      PlainTracks(start, init, key);
      if !op.Blocked? {
        StepTracks(AfterPlain(start, init), ops, start, key);
      }
    }
  }

  // Sweeping is not observable: both give the same answer to every question at every time.
  lemma SweepUnobservable(start: int, ops: seq<Op>, key: string, at: int, later: int)
    requires Monotone(start, ops) && Clock(start, ops) <= at <= later
    ensures IsBlocked(Sweep(After(start, ops), at), key, later) <==> IsBlocked(AfterPlain(start, ops), key, later)
  {
    RunTracks(start, ops, key);
    PlainTracks(start, ops, key);
  }

  // ---------- what the counter means ----------

  // The failures of the key among the last n operations
  function Fails(ops: seq<Op>, key: string, n: nat): nat
    requires n <= |ops|
  {
    if n == 0 then 0
    else
      var op := ops[|ops| - n];
      Fails(ops, key, n - 1) + (if op.Fail? && op.key == key then 1 else 0)
  }

  ghost predicate Quiet(ops: seq<Op>, key: string, n: nat)
    requires n <= |ops|
  {
    forall i :: |ops| - n <= i < |ops| ==> !(ops[i].Reset? && ops[i].key == key)
  }

  // The failure that opened the key's window, when no other was open, and from which it runs
  ghost predicate Opens(ops: seq<Op>, key: string, i: int, resetAt: int) {
    && 0 <= i < |ops| && ops[i].Fail? && ops[i].key == key
    && resetAt == ops[i].at + Limits(ops[..i]).1
    && (Failures(ops[..i], key).Some? ==> ops[i].at > Failures(ops[..i], key).value.resetAt)
  }

  // A failure of the key that no reset has undone
  ghost predicate Stands(ops: seq<Op>, key: string, i: int) {
    && 0 <= i < |ops| && ops[i].Fail? && ops[i].key == key
    && forall j :: i < j < |ops| ==> !(ops[j].Reset? && ops[j].key == key)
  }

  // A key has a counter exactly when it failed and was not reset since.
  lemma {:induction false} CountedIff(ops: seq<Op>, key: string)
    ensures Failures(ops, key).Some? <==> exists i :: Stands(ops, key, i)
  {
    if ops != [] {
      var last := |ops| - 1;
      var init, op := ops[..last], ops[last];
      CountedIff(init, key);
      if op.Fail? && op.key == key {
        assert Stands(ops, key, last);
      } else if op.Reset? && op.key == key {
        assert forall i :: !Stands(ops, key, i);
      } else {
        assert forall i :: Stands(init, key, i) <==> Stands(ops, key, i);
      }
    }
  }

  // The last setting of a kind that is positive
  ghost predicate LastSet(ops: seq<Op>, i: int, setting: Op -> int) {
    && 0 <= i < |ops| && ops[i].SetLimits? && setting(ops[i]) > 0
    && forall j :: i < j < |ops| && ops[j].SetLimits? ==> setting(ops[j]) <= 0
  }

  function Attempts(op: Op): int { if op.SetLimits? then op.maxAttempts else 0 }

  function Span(op: Op): int { if op.SetLimits? then op.length else 0 }

  lemma LastSetInit(ops: seq<Op>, i: int, setting: Op -> int)
    requires LastSet(ops, i, setting)
    ensures var last := |ops| - 1; i == last || (LastSet(ops[..last], i, setting) && ops[..last][i] == ops[i]
                                                 && (ops[last].SetLimits? ==> setting(ops[last]) <= 0))
  {
  }

  // The limits in force are the last positive ones that were set, else ten failures in a minute.
  lemma {:induction false} LimitsMean(ops: seq<Op>)
    ensures (forall i :: LastSet(ops, i, Attempts) ==> Limits(ops).0 == ops[i].maxAttempts)
    ensures (forall i :: LastSet(ops, i, Span) ==> Limits(ops).1 == ops[i].length)
    ensures (forall op :: op in ops ==> Attempts(op) <= 0) ==> Limits(ops).0 == 10
    ensures (forall op :: op in ops ==> Span(op) <= 0) ==> Limits(ops).1 == 60_000_000_000
  {
    if ops != [] {
      var last := |ops| - 1;
      LimitsMean(ops[..last]);
      assert ops[last] in ops && forall op :: op in ops[..last] ==> op in ops;
      forall i | LastSet(ops, i, Attempts)
        ensures Limits(ops).0 == ops[i].maxAttempts
      {
        LastSetInit(ops, i, Attempts);
      }
      forall i | LastSet(ops, i, Span)
        ensures Limits(ops).1 == ops[i].length
      {
        LastSetInit(ops, i, Span);
      }
    }
  }

  // The counter is the number of failures from the one that opened the window on, with no reset of the key in
  // between, all of them before the window ended.
  lemma {:induction false} CounterMeans(ops: seq<Op>, key: string) returns (n: nat)
    requires Failures(ops, key).Some?
    ensures n <= |ops| && Quiet(ops, key, n)
    ensures Opens(ops, key, |ops| - n, Failures(ops, key).value.resetAt)
    ensures Failures(ops, key).value.count == Fails(ops, key, n)
    ensures forall i :: |ops| - n < i < |ops| && ops[i].Fail? && ops[i].key == key ==> (
      ops[i].at <= Failures(ops, key).value.resetAt)
  {
    var last := |ops| - 1;
    var init, op := ops[..last], ops[last];
    if op.Fail? && op.key == key && !(Failures(init, key).Some? && op.at <= Failures(init, key).value.resetAt) {
      n := 1;
    } else {
      n := CounterMeans(init, key);
      FailsMore(ops, key, n);
      assert forall i :: |init| - n <= i < |init| ==> init[i] == ops[i] && init[..i] == ops[..i];
      n := n + 1;
    }
  }

  lemma {:induction false} FailsMore(ops: seq<Op>, key: string, n: nat)
    requires ops != [] && n <= |ops| - 1
    ensures var op := ops[|ops| - 1];
      Fails(ops, key, n + 1) == Fails(ops[..|ops| - 1], key, n) + (if op.Fail? && op.key == key then 1 else 0)
  {
    if n > 0 {
      FailsMore(ops, key, n - 1);
    }
  }

  // ---------- the object ----------

  class AttemptRecord {
    var count: nat
    const resetAt: int

    constructor (count: nat, resetAt: int)
      ensures this.count == count && this.resetAt == resetAt
    {
      this.count, this.resetAt := count, resetAt;
    }
  }

  class LoginThrottle {
    var records: map<string, AttemptRecord>
    var maxAttempts: int
    var length: int
    var lastSweep: int

    ghost function View(): Throttle
      reads this, records.Values
    {
      Throttle(map k | k in records :: Record(records[k].count, records[k].resetAt), maxAttempts, length, lastSweep)
    }

    // Each key has a record of its own.
    ghost predicate Valid()
      reads this
    {
      forall a, b :: a in records && b in records && records[a] == records[b] ==> a == b
    }

    constructor (now: int)
      ensures Valid() && View() == New(now)
      ensures records == map[] && maxAttempts == 10 && length == 60 * 1_000_000_000
    {
      records, maxAttempts, length, lastSweep := map[], DefaultMaxAttempts, DefaultLockWindow, now;
    }

    // SetLoginThrottle
    method SetLimits(maxAttempts: int, length: int)
      requires Valid()
      modifies this
      ensures Valid() && View() == Step(old(View()), Op.SetLimits(maxAttempts, length))
      ensures this.maxAttempts == if maxAttempts > 0 then maxAttempts else old(this.maxAttempts)
      ensures this.length == if length > 0 then length else old(this.length)
    {
      if maxAttempts > 0 {
        this.maxAttempts := maxAttempts;
      }
      if length > 0 {
        this.length := length;
      }
    }

    method Blocked(key: string, at: int, later: int) returns (blocked: bool)
      requires Valid()
      modifies this
      ensures Valid() && View() == Step(old(View()), Op.Blocked(key, at, later))
      ensures blocked <==> IsBlocked(Sweep(old(View()), at), key, later)
    {
      SweepLocked(at);
      if key !in records || later > records[key].resetAt {
        return false;
      }
      return records[key].count >= maxAttempts;
    }

    method Fail(key: string, now: int)
      requires Valid()
      modifies this, records.Values
      ensures Valid() && View() == Step(old(View()), Op.Fail(key, now))
      ensures fresh(records.Values - old(records.Values))
    {
      if key !in records || now > records[key].resetAt {
        var r := new AttemptRecord(1, now + length);
        records := records[key := r];
        return;
      }
      var r := records[key];
      r.count := r.count + 1;
    }

    method Reset(key: string)
      requires Valid()
      modifies this
      ensures Valid() && View() == Step(old(View()), Op.Reset(key)) && key !in records
    {
      records := records - {key};
    }

    // sweepLocked: the map gives its keys in any order, and records are deleted as it goes.
    method SweepLocked(now: int)
      requires Valid()
      modifies this
      ensures Valid() && View() == Sweep(old(View()), now)
    {
      if now - lastSweep < length {
        return;
      }
      var rest := records.Keys;
      while rest != {}
        invariant rest <= records.Keys
        invariant maxAttempts == old(maxAttempts) && length == old(length) && lastSweep == old(lastSweep)
        invariant forall k :: k in records ==> k in old(records) && records[k] == old(records)[k]
        invariant forall k :: k in old(records) ==> (
          k in records <==> k in rest || now <= old(records)[k].resetAt)
        decreases |rest|
      {
        var k :| k in rest;
        rest := rest - {k};
        if now > records[k].resetAt {
          records := records - {k};
        }
      }
      lastSweep := now;
    }
  }
}
