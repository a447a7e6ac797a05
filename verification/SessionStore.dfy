/** The session store: sessions by id, and for each user key the list of its session ids. Pruning drops
    expired ids from the lists and leaves the sessions in the main map. Main results: over every run with
    fresh ids and monotone time the index has no empty list, no duplicate and no dangling id, every unexpired
    session of a key is listed under it, and limits that are left alone are never exceeded beyond what they
    found; a new session is refused exactly when they are reached. */
module SessionStore {
  import opened GoStrings
  import Totals

  datatype Info = Info(key: string, expires: int)

  // The peaks are the largest limits set so far; the clock is the last time that was read.
  datatype State = State(
    sessions: map<string, Info>, byKey: map<string, seq<string>>, ttl: int, maxTotal: int, maxPerKey: int,
    peakTotal: nat, peakPerKey: nat, clock: int)

  const DefaultMaxTotal := 10_000
  const DefaultMaxPerKey := 20

  // A key of "" is a session without user. `at` is when the list is pruned, `stamp` when the session expires from.
  datatype Op =
    | SetLimits(maxTotal: int, maxPerKey: int)
    | Create(key: string, id: string, at: int, stamp: int)
    | Delete(id: string)
    | Collect(at: int)

  datatype Outcome = Done | Made | StoreFull | KeyLimitFull

  // ---------- what each operation does ----------

  function Max(a: nat, b: int): nat { if b > a then b else a }

  function List(byKey: map<string, seq<string>>, key: string): seq<string> {
    if key in byKey then byKey[key] else []
  }

  function SetList(byKey: map<string, seq<string>>, key: string, ids: seq<string>): map<string, seq<string>> {
    if ids == [] then byKey - {key} else byKey[key := ids]
  }

  predicate Unexpired(sessions: map<string, Info>, id: string, now: int) {
    id in sessions && now <= sessions[id].expires
  }

  function Alive(ids: seq<string>, sessions: map<string, Info>, now: int): seq<string> {
    if ids == [] then []
    else
      var n := |ids| - 1;
      Alive(ids[..n], sessions, now) + (if Unexpired(sessions, ids[n], now) then [ids[n]] else [])
  }

  function Pruned(st: State, key: string, now: int): State {
    st.(byKey := SetList(st.byKey, key, Alive(List(st.byKey, key), st.sessions, now)))
  }

  function Dropped(ids: seq<string>, id: string): seq<string> {
    if ids == [] then [] else if ids[0] == id then ids[1..] else [ids[0]] + Dropped(ids[1..], id)
  }

  function Without(st: State, id: string): State {
    if id !in st.sessions then st
    else
      var key := st.sessions[id].key;
      st.(sessions := st.sessions - {id},
          byKey := if key == "" then st.byKey else SetList(st.byKey, key, Dropped(List(st.byKey, key), id)))
  }

  // The sweep, whatever order it visits the sessions in
  function Swept(st: State, now: int): State {
    st.(sessions := map id | id in st.sessions && now <= st.sessions[id].expires :: st.sessions[id],
        byKey := map k | k in st.byKey && Alive(st.byKey[k], st.sessions, now) != [] :: Alive(st.byKey[k], st.sessions, now))
  }

  function Added(p: State, key: string, id: string, stamp: int): State {
    p.(sessions := p.sessions[id := Info(key, stamp + p.ttl)],
       byKey := if key == "" then p.byKey else p.byKey[key := List(p.byKey, key) + [id]], clock := stamp)
  }

  function Created(st: State, key: string, id: string, at: int, stamp: int): (State, Outcome) {
    if |st.sessions| >= st.maxTotal then (st, StoreFull)
    else
      var p := if key == "" then st else Pruned(st, key, at);
      if key != "" && |List(p.byKey, key)| >= st.maxPerKey then (p.(clock := at), KeyLimitFull)
      else (Added(p, key, id, stamp), Made)
  }

  function Step(st: State, op: Op): (State, Outcome) {
    match op
    case SetLimits(total, perKey) =>
      (st.(maxTotal := total, maxPerKey := perKey, peakTotal := Max(st.peakTotal, total),
           peakPerKey := Max(st.peakPerKey, perKey)), Done)
    case Create(key, id, at, stamp) => Created(st, key, id, at, stamp)
    case Delete(id) => (Without(st, id), Done)
    case Collect(at) => (Swept(st, at).(clock := at), Done)
  }

  // Fresh ids, time that does not run backwards
  ghost predicate Allowed(st: State, op: Op) {
    && (op.Create? ==> op.id !in st.sessions && st.clock <= op.at <= op.stamp)
    && (op.Collect? ==> st.clock <= op.at)
  }

  // ---------- the invariant ----------

  ghost predicate NoDuplicates(ids: seq<string>) { forall i, j :: 0 <= i < j < |ids| ==> ids[i] != ids[j] }

  // A list is not empty, has no duplicates, and its ids are sessions of its key.
  ghost predicate GoodList(st: State, k: string) {
    && k != "" && List(st.byKey, k) != [] && NoDuplicates(List(st.byKey, k))
    && |List(st.byKey, k)| <= st.peakPerKey
    && forall id :: id in List(st.byKey, k) ==> id in st.sessions && st.sessions[id].key == k
  }

  // An unexpired session of a user is listed under its key.
  ghost predicate Covered(st: State, id: string) {
    (id in st.sessions && st.sessions[id].key != "" && st.clock <= st.sessions[id].expires) ==>
      id in List(st.byKey, st.sessions[id].key)
  }

  ghost predicate Inv(st: State) {
    && (forall k :: k in st.byKey ==> GoodList(st, k))
    && (forall id :: Covered(st, id))
    && |st.sessions| <= st.peakTotal
    && st.maxTotal <= st.peakTotal && st.maxPerKey <= st.peakPerKey
    && st.ttl > 0
  }

  lemma {:induction false} AliveFacts(ids: seq<string>, sessions: map<string, Info>, now: int)
    ensures var a := Alive(ids, sessions, now);
      && |a| <= |ids|
      && (forall id :: id in a <==> id in ids && Unexpired(sessions, id, now))
      && (NoDuplicates(ids) ==> NoDuplicates(a))
  {
    if ids != [] {
      var n := |ids| - 1;
      AliveFacts(ids[..n], sessions, now);
      assert ids == ids[..n] + [ids[n]];
    }
  }

  lemma {:induction false} DroppedFacts(ids: seq<string>, id: string)
    ensures |Dropped(ids, id)| <= |ids|
    ensures forall x :: x in Dropped(ids, id) ==> x in ids
    ensures forall x :: x in ids && x != id ==> x in Dropped(ids, id)
    ensures NoDuplicates(ids) ==> NoDuplicates(Dropped(ids, id)) && id !in Dropped(ids, id)
  {
    if ids != [] {
      var rest := ids[1..];
      DroppedFacts(rest, id);
      assert ids == [ids[0]] + rest;
      if NoDuplicates(ids) {
        forall i, j | 0 <= i < j < |rest|
          ensures rest[i] != rest[j]
        {
          assert rest[i] == ids[i + 1] && rest[j] == ids[j + 1];
        }
        assert forall j :: 0 <= j < |rest| ==> rest[j] == ids[j + 1] != ids[0];
        if ids[0] != id {
          ConsNoDuplicates(ids[0], Dropped(rest, id));
        }
      }
    }
  }

  lemma ConsNoDuplicates(x: string, ids: seq<string>)
    requires NoDuplicates(ids) && x !in ids
    ensures NoDuplicates([x] + ids)
  {
  }

  lemma PrunedList(st: State, key: string, now: int)
    requires Inv(st) && st.clock <= now && key != ""
    ensures var ids := List(Pruned(st, key, now).byKey, key);
      && (forall id :: id in ids <==> Unexpired(st.sessions, id, now) && st.sessions[id].key == key)
      && NoDuplicates(ids) && |ids| <= st.peakPerKey
  {
    hide Alive, NoDuplicates;
    var ids := List(st.byKey, key);
    AliveFacts(ids, st.sessions, now);
    if key in st.byKey {
      assert GoodList(st, key);
    } else {
      assert NoDuplicates([]) by { NoneDuplicated(); }
    }
    assert List(Pruned(st, key, now).byKey, key) == Alive(ids, st.sessions, now);
    forall id | Unexpired(st.sessions, id, now) && st.sessions[id].key == key
      ensures id in ids
    {
      assert Covered(st, id);
    }
  }

  lemma PrunedOthers(st: State, key: string, now: int)
    requires Inv(st)
    ensures forall k :: k != key ==> List(Pruned(st, key, now).byKey, k) == List(st.byKey, k)
    ensures forall k :: k in Pruned(st, key, now).byKey ==> (
      List(Pruned(st, key, now).byKey, k) != [] && (k == key || k in st.byKey))
  {
    hide Alive;
    forall k | k in Pruned(st, key, now).byKey
      ensures List(Pruned(st, key, now).byKey, k) != [] && (k == key || k in st.byKey)
    {
      if k != key {
        assert GoodList(st, k);
      }
    }
  }

  lemma NoneDuplicated()
    ensures NoDuplicates([])
  {
  }

  lemma PrunedKeeps(st: State, key: string, now: int)
    requires Inv(st) && st.clock <= now && key != ""
    ensures Inv(Pruned(st, key, now).(clock := now))
    ensures forall id :: id in List(Pruned(st, key, now).byKey, key) <==>
      Unexpired(st.sessions, id, now) && st.sessions[id].key == key
    ensures NoDuplicates(List(Pruned(st, key, now).byKey, key))
  {
    hide Pruned, NoDuplicates, List;
    PrunedList(st, key, now);
    PrunedOthers(st, key, now);
    PrunedSame(st, key, now);
    var p := Pruned(st, key, now).(clock := now);
    forall k | k in p.byKey
      ensures GoodList(p, k)
    {
      if k != key {
        assert GoodList(st, k);
      }
    }
    forall id
      ensures Covered(p, id)
    {
      assert Covered(st, id);
    }
  }

  lemma CreatedKeeps(st: State, key: string, id: string, at: int, stamp: int)
    requires Inv(st) && Allowed(st, Create(key, id, at, stamp))
    ensures Inv(Created(st, key, id, at, stamp).0)
  {
    hide Pruned;
    var (next, outcome) := Created(st, key, id, at, stamp);
    if outcome != StoreFull {
      var p := if key == "" then st.(clock := at) else Pruned(st, key, at).(clock := at);
      assert Inv(p) && p.sessions == st.sessions && p.maxPerKey == st.maxPerKey && p.maxTotal == st.maxTotal by {
        if key == "" {
          LaterKeeps(st, at);
        } else {
          PrunedKeeps(st, key, at);
          PrunedSame(st, key, at);
        }
      }
      if outcome == Made {
        AddedKeeps(p, key, id, stamp);
        PrunedSame(st, key, at);
        assert p.ttl == st.ttl && p.peakTotal == st.peakTotal && p.peakPerKey == st.peakPerKey;
        assert next == Added(p, key, id, stamp);
      }
    }
  }

  lemma PrunedSame(st: State, key: string, now: int)
    ensures Pruned(st, key, now) == st.(byKey := Pruned(st, key, now).byKey)
  {
  }

  lemma LaterKeeps(st: State, now: int)
    requires Inv(st) && st.clock <= now
    ensures Inv(st.(clock := now))
  {
    var later := st.(clock := now);
    forall k | k in st.byKey
      ensures GoodList(later, k)
    {
      assert GoodList(st, k);
    }
    forall id
      ensures Covered(later, id)
    {
      assert Covered(st, id);
    }
  }

  lemma AddedKeeps(p: State, key: string, id: string, stamp: int)
    requires Inv(p) && id !in p.sessions && p.clock <= stamp && |p.sessions| < p.maxTotal
    requires key != "" ==> |List(p.byKey, key)| < p.maxPerKey
    ensures Inv(Added(p, key, id, stamp))
  {
    var next := Added(p, key, id, stamp);
    var ids := List(p.byKey, key);
    if key in p.byKey {
      assert GoodList(p, key);
    }
    forall k | k in next.byKey
      ensures GoodList(next, k)
    {
      if k == key && key != "" {
        assert List(next.byKey, k) == ids + [id];
        assert id !in ids;
      } else {
        assert GoodList(p, k);
        assert List(next.byKey, k) == List(p.byKey, k);
      }
    }
    forall x
      ensures Covered(next, x)
    {
      assert Covered(p, x);
    }
    assert |next.sessions| == |p.sessions| + 1;
  }

  lemma WithoutKeeps(st: State, id: string)
    requires Inv(st)
    ensures Inv(Without(st, id))
  {
    if id in st.sessions {
      var key := st.sessions[id].key;
      var next := Without(st, id);
      var ids := List(st.byKey, key);
      DroppedFacts(ids, id);
      if key in st.byKey {
        assert GoodList(st, key);
      }
      forall k | k in next.byKey
        ensures GoodList(next, k)
      {
        assert GoodList(st, k);
        if k == key {
          assert List(next.byKey, k) == Dropped(ids, id);
        } else {
          assert List(next.byKey, k) == List(st.byKey, k);
        }
      }
      forall x
        ensures Covered(next, x)
      {
        assert Covered(st, x);
      }
      assert |next.sessions| == |st.sessions| - 1 by { assert next.sessions == st.sessions - {id}; }
    }
  }

  lemma SubmapSize(small: map<string, Info>, big: map<string, Info>)
    requires small.Keys <= big.Keys
    ensures |small| <= |big|
  {
    Totals.SubsetSize(small.Keys, big.Keys);
  }

  lemma SweptKeeps(st: State, now: int)
    requires Inv(st) && st.clock <= now
    ensures Inv(Swept(st, now).(clock := now))
  {
    var next := Swept(st, now).(clock := now);
    forall k | k in next.byKey
      ensures GoodList(next, k)
    {
      assert GoodList(st, k);
      AliveFacts(st.byKey[k], st.sessions, now);
    }
    forall id
      ensures Covered(next, id)
    {
      assert Covered(st, id);
      if id in next.sessions && st.sessions[id].key != "" {
        AliveFacts(List(st.byKey, st.sessions[id].key), st.sessions, now);
      }
    }
    SubmapSize(next.sessions, st.sessions);
  }

  lemma StepKeeps(st: State, op: Op)
    requires Inv(st) && Allowed(st, op)
    ensures Inv(Step(st, op).0)
  {
    match op {
      case SetLimits(total, perKey) =>
        var next := Step(st, op).0;
        forall k | k in st.byKey
          ensures GoodList(next, k)
        {
          assert GoodList(st, k);
        }
        forall id
          ensures Covered(next, id)
        {
          assert Covered(st, id);
        }
      case Create(key, id, at, stamp) => CreatedKeeps(st, key, id, at, stamp);
      case Delete(id) => WithoutKeeps(st, id);
      case Collect(at) => SweptKeeps(st, at);
    }
  }

  // Collecting removes exactly the expired sessions and their ids, and leaves the rest of every list in order.
  lemma CollectedIff(st: State, at: int)
    requires Inv(st) && st.clock <= at
    ensures var next := Step(st, Collect(at)).0;
      && (forall id :: id in next.sessions <==> id in st.sessions && !(at > st.sessions[id].expires))
      && (forall id :: id in next.sessions ==> next.sessions[id] == st.sessions[id])
      && (forall k, id :: id in List(next.byKey, k) <==>
            id in List(st.byKey, k) && id in st.sessions && !(at > st.sessions[id].expires))
      && (forall k :: Thinned(List(next.byKey, k), List(st.byKey, k)))
      && next.maxTotal == st.maxTotal && next.maxPerKey == st.maxPerKey && next.clock == at
  {
    hide Alive, NoDuplicates;
    var next := Step(st, Collect(at)).0;
    forall k
      ensures forall id :: id in List(next.byKey, k) <==> id in List(st.byKey, k) && Unexpired(st.sessions, id, at)
      ensures Thinned(List(next.byKey, k), List(st.byKey, k))
    {
      AliveFacts(List(st.byKey, k), st.sessions, at);
      AliveThinned(List(st.byKey, k), st.sessions, at);
      assert List(next.byKey, k) == Alive(List(st.byKey, k), st.sessions, at) by { SweptList(st, at, k); }
    }
  }

  lemma SweptList(st: State, at: int, k: string)
    ensures List(Swept(st, at).byKey, k) == Alive(List(st.byKey, k), st.sessions, at)
  {
  }

  // What is left when some elements are taken out
  predicate Thinned(a: seq<string>, b: seq<string>) {
    a == []
    || (b != [] && (Thinned(a, b[..|b| - 1]) || (a[|a| - 1] == b[|b| - 1] && Thinned(a[..|a| - 1], b[..|b| - 1]))))
  }

  lemma {:induction false} AliveThinned(ids: seq<string>, sessions: map<string, Info>, now: int)
    ensures Thinned(Alive(ids, sessions, now), ids)
  {
    if ids != [] {
      var n := |ids| - 1;
      AliveThinned(ids[..n], sessions, now);
      var before := Alive(ids[..n], sessions, now);
      assert (before + [ids[n]])[..|before|] == before && before + [] == before;
    }
  }

  // ---------- runs ----------

  function NewStore(ttl: int, clock: int): State {
    State(map[], map[], ttl, DefaultMaxTotal, DefaultMaxPerKey, DefaultMaxTotal, DefaultMaxPerKey, clock)
  }

  function Run(st: State, ops: seq<Op>): State {
    if ops == [] then st else Step(Run(st, ops[..|ops| - 1]), ops[|ops| - 1]).0
  }

  ghost predicate AllAllowed(st: State, ops: seq<Op>) {
    forall i :: 0 <= i < |ops| ==> Allowed(Run(st, ops[..i]), ops[i])
  }

  // The sessions of a key that can still be used at a time
  function Live(st: State, key: string, now: int): set<string> {
    set id | id in st.sessions && st.sessions[id].key == key && now <= st.sessions[id].expires
  }

  lemma {:induction false} ListedCount(ids: seq<string>)
    requires NoDuplicates(ids)
    ensures |set id | id in ids| == |ids|
  {
    if ids != [] {
      var n := |ids| - 1;
      ListedCount(ids[..n]);
      assert (set id | id in ids) == (set id | id in ids[..n]) + {ids[n]} by { assert ids == ids[..n] + [ids[n]]; }
    }
  }

  // In every reachable state the index is sound, whatever limits were set on the way.
  lemma {:induction false} RunKeeps(ttl: int, start: int, ops: seq<Op>)
    requires ttl > 0 && AllAllowed(NewStore(ttl, start), ops)
    ensures Inv(Run(NewStore(ttl, start), ops))
    decreases |ops|
  {
    hide Inv, Allowed, Step;
    var st := NewStore(ttl, start);
    if ops == [] {
      assert Inv(st) by { NewStoreIsSound(ttl, start); }
    } else {
      var n := |ops| - 1;
      forall i | 0 <= i < n
        ensures Allowed(Run(st, ops[..n][..i]), ops[..n][i])
      {
        assert ops[..n][..i] == ops[..i];
      }
      RunKeeps(ttl, start, ops[..n]);
      assert Allowed(Run(st, ops[..n]), ops[n]);
      StepKeeps(Run(st, ops[..n]), ops[n]);
    }
  }

  lemma NewStoreIsSound(ttl: int, start: int)
    requires ttl > 0
    ensures Inv(NewStore(ttl, start))
  {
  }

  // Whatever limits were set, and however often: the bounds are the largest limits so far.
  lemma LimitsHold(st: State, key: string, now: int)
    requires Inv(st) && st.clock <= now && key != ""
    ensures |Live(st, key, now)| <= st.peakPerKey
    ensures |st.sessions| <= st.peakTotal
  {
    var ids := List(st.byKey, key);
    if key in st.byKey {
      assert GoodList(st, key);
    }
    ListedCount(ids);
    forall id | id in Live(st, key, now)
      ensures id in ids
    {
      assert Covered(st, id);
    }
    Totals.SubsetSize(Live(st, key, now), set id | id in ids);
  }

  // ---------- limits that stay as they are ----------

  predicate NoNewLimits(ops: seq<Op>) { forall op :: op in ops ==> !op.SetLimits? }

  // A step that sets no limits keeps both, and both bounds that are at least as large.
  lemma StepWithin(st: State, op: Op, key: string, total: nat, perKey: nat)
    requires Inv(st) && Allowed(st, op) && !op.SetLimits? && key != ""
    requires |st.sessions| <= total && st.maxTotal <= total
    requires |Live(st, key, st.clock)| <= perKey && st.maxPerKey <= perKey
    ensures var next := Step(st, op).0;
      && next.maxTotal == st.maxTotal && next.maxPerKey == st.maxPerKey && st.clock <= next.clock
      && |next.sessions| <= total
      && |Live(next, key, next.clock)| <= perKey
  {
    hide Inv, Alive, Dropped, List, SetList;
    var next := Step(st, op).0;
    if op.Collect? {
      SubmapSize(next.sessions, st.sessions);
    }
    if op.Delete? {
      SubmapSize(next.sessions, st.sessions);
    }
    var live := Live(st, key, st.clock);
    if op.Create? && op.key == key && Step(st, op).1 == Made {
      RefusedIff(st, key, op.id, op.at, op.stamp);
      Totals.SubsetSize(Live(next, key, next.clock), Live(st, key, op.at) + {op.id});
    } else {
      Totals.SubsetSize(Live(next, key, next.clock), live);
    }
  }

  // Main result. While no limits are set, the store stays within the larger of its size and its limit, and
  // every key within the larger of its unexpired sessions and the limit for a key, at every later time.
  lemma {:induction false} FixedLimitsHold(st: State, ops: seq<Op>, key: string, now: int)
    requires Inv(st) && AllAllowed(st, ops) && NoNewLimits(ops) && key != "" && Run(st, ops).clock <= now
    ensures Inv(Run(st, ops))
    ensures |Run(st, ops).sessions| <= Max(|st.sessions|, st.maxTotal)
    ensures |Live(Run(st, ops), key, now)| <= Max(|Live(st, key, st.clock)|, st.maxPerKey)
    decreases |ops|
  {
    hide Inv, Step, Allowed, Live;
    RunWithin(st, ops, key);
    LiveLater(Run(st, ops), key, Run(st, ops).clock, now);
  }

  lemma LiveLater(st: State, key: string, from: int, now: int)
    requires from <= now
    ensures |Live(st, key, now)| <= |Live(st, key, from)|
  {
    Totals.SubsetSize(Live(st, key, now), Live(st, key, from));
  }

  lemma {:induction false} RunWithin(st: State, ops: seq<Op>, key: string)
    requires Inv(st) && AllAllowed(st, ops) && NoNewLimits(ops) && key != ""
    ensures var end := Run(st, ops);
      && Inv(end) && end.maxTotal == st.maxTotal && end.maxPerKey == st.maxPerKey
      && |end.sessions| <= Max(|st.sessions|, st.maxTotal)
      && |Live(end, key, end.clock)| <= Max(|Live(st, key, st.clock)|, st.maxPerKey)
    decreases |ops|
  {
    hide Inv, Step, Allowed, Live;
    if ops != [] {
      var n := |ops| - 1;
      forall i | 0 <= i < n
        ensures Allowed(Run(st, ops[..n][..i]), ops[..n][i])
      {
        assert ops[..n][..i] == ops[..i];
      }
      RunWithin(st, ops[..n], key);
      var before := Run(st, ops[..n]);
      assert Allowed(before, ops[n]) && !ops[n].SetLimits?;
      StepKeeps(before, ops[n]);
      StepWithin(before, ops[n], key, Max(|st.sessions|, st.maxTotal), Max(|Live(st, key, st.clock)|, st.maxPerKey));
    }
  }

  // Limits set on a new store and left alone are never exceeded.
  lemma LimitsFromTheStart(ttl: int, start: int, total: int, perKey: int, ops: seq<Op>, key: string, now: int)
    requires ttl > 0 && key != "" && NoNewLimits(ops)
    requires var st := Step(NewStore(ttl, start), SetLimits(total, perKey)).0;
      AllAllowed(st, ops) && Run(st, ops).clock <= now
    ensures var end := Run(Step(NewStore(ttl, start), SetLimits(total, perKey)).0, ops);
      |end.sessions| <= Max(0, total) && |Live(end, key, now)| <= Max(0, perKey)
  {
    hide Inv, Run, AllAllowed;
    NewStoreIsSound(ttl, start);
    var st := Step(NewStore(ttl, start), SetLimits(total, perKey)).0;
    StepKeeps(NewStore(ttl, start), SetLimits(total, perKey));
    FixedLimitsHold(st, ops, key, now);
    assert Live(st, key, st.clock) == {};
  }

  // A session is refused for its key exactly when as many unexpired sessions of the key exist as allowed;
  // the limit on the whole store also counts the expired sessions not yet collected.
  lemma RefusedIff(st: State, key: string, id: string, at: int, stamp: int)
    requires Inv(st) && Allowed(st, Create(key, id, at, stamp))
    ensures var o := Created(st, key, id, at, stamp).1;
      && (o == StoreFull <==> |st.sessions| >= st.maxTotal)
      && (o == KeyLimitFull <==> |st.sessions| < st.maxTotal && key != "" && |Live(st, key, at)| >= st.maxPerKey)
      && (o == Made || o == StoreFull || o == KeyLimitFull)
  {
    if key != "" {
      PrunedKeeps(st, key, at);
      var ids := List(Pruned(st, key, at).byKey, key);
      ListedCount(ids);
      assert (set x | x in ids) == Live(st, key, at);
    }
  }

  // Pruning, collecting and refused requests do not change which sessions can be used.
  function Found(st: State, id: string, now: int): Option<Info> {
    if Unexpired(st.sessions, id, now) then Some(st.sessions[id]) else None
  }

  // What a step changes for a session that can be looked up: only its own creation or deletion
  lemma StepFound(st: State, op: Op, id: string, now: int)
    requires Inv(st) && Allowed(st, op) && Step(st, op).0.clock <= now
    ensures Found(Step(st, op).0, id, now) ==
      if op.Create? && op.id == id && Step(st, op).1 == Made then
        (if now <= op.stamp + st.ttl then Some(Info(op.key, op.stamp + st.ttl)) else None)
      else if op.Delete? && op.id == id then None
      else Found(st, id, now)
  {
  }

  // ---------- the objects ----------

  class Session {
    const id: string
    const userKey: string
    const expires: int

    constructor (id: string, userKey: string, expires: int)
      ensures this.id == id && this.userKey == userKey && this.expires == expires
    {
      this.id, this.userKey, this.expires := id, userKey, expires;
    }
  }

  function InfoOf(s: Session): Info { Info(s.userKey, s.expires) }

  function Infos(sessions: map<string, Session>): (infos: map<string, Info>)
    ensures infos.Keys == sessions.Keys && |infos| == |sessions|
  {
    var infos := map id | id in sessions :: InfoOf(sessions[id]);
    assert infos.Keys == sessions.Keys;
    assert |infos.Keys| == |infos| && |sessions.Keys| == |sessions|;
    infos
  }

  lemma InfosAdd(sessions: map<string, Session>, id: string, s: Session)
    ensures Infos(sessions[id := s]) == Infos(sessions)[id := InfoOf(s)]
  {
  }

  lemma InfosRemove(sessions: map<string, Session>, id: string)
    ensures Infos(sessions - {id}) == Infos(sessions) - {id}
    ensures id in sessions ==> Infos(sessions)[id] == InfoOf(sessions[id])
  {
  }

  lemma NoEmptyLists(st: State)
    requires Inv(st)
    ensures forall k :: k in st.byKey ==> st.byKey[k] != []
  {
    forall k | k in st.byKey
      ensures st.byKey[k] != []
    {
      assert GoodList(st, k);
    }
  }

  class Store {
    var sessions: map<string, Session>
    var byKey: map<string, seq<string>>
    const ttl: int
    var maxTotal: int
    var maxPerKey: int
    ghost var peakTotal: nat
    ghost var peakPerKey: nat
    ghost var clock: int

    ghost function View(): State
      reads this
    {
      State(Infos(sessions), byKey, ttl, maxTotal, maxPerKey, peakTotal, peakPerKey, clock)
    }

    ghost predicate Valid()
      reads this
    {
      Inv(View()) && forall id :: id in sessions ==> sessions[id].id == id
    }

    constructor (ttl: int, ghost now: int)
      requires ttl > 0
      ensures Valid() && View() == NewStore(ttl, now)
      ensures sessions == map[] && byKey == map[] && maxTotal == 10_000 && maxPerKey == 20 && this.ttl == ttl
    {
      sessions, byKey := map[], map[];
      this.ttl := ttl;
      maxTotal, maxPerKey := DefaultMaxTotal, DefaultMaxPerKey;
      peakTotal, peakPerKey, clock := DefaultMaxTotal, DefaultMaxPerKey, now;
      new;
      assert View().sessions == map[];
      NewStoreIsSound(ttl, now);
    }

    method SetLimits(maxTotal: int, maxPerKey: int)
      requires Valid()
      modifies this
      ensures Valid() && View() == Step(old(View()), Op.SetLimits(maxTotal, maxPerKey)).0
      ensures this.maxTotal == maxTotal && this.maxPerKey == maxPerKey
    {
      StepKeeps(View(), Op.SetLimits(maxTotal, maxPerKey));
      this.maxTotal := maxTotal;
      this.maxPerKey := maxPerKey;
      peakTotal := Max(peakTotal, maxTotal);
      peakPerKey := Max(peakPerKey, maxPerKey);
    }

    // newSession: `id` is the random id, `at` and `stamp` the two readings of the clock
    method NewSession(userKey: string, id: string, at: int, stamp: int) returns (s: Option<Session>, outcome: Outcome)
      requires Valid() && Allowed(View(), Create(userKey, id, at, stamp))
      modifies this
      ensures Valid() && (View(), outcome) == Created(old(View()), userKey, id, at, stamp)
      ensures s.Some? <==> outcome == Made
      ensures s.Some? ==> fresh(s.value) && s.value.id == id && s.value.userKey == userKey && s.value.expires == stamp + ttl
    {
      hide Inv, Pruned, Infos, Allowed, List;
      ghost var was := View();
      CreatedKeeps(was, userKey, id, at, stamp);
      PrunedSame(was, userKey, at);
      if |sessions| >= maxTotal {
        return None, StoreFull;
      }
      if userKey != "" {
        PruneKeyExpired(userKey, at);
        if |List(byKey, userKey)| >= maxPerKey {
          clock := at;
          return None, KeyLimitFull;
        }
      }
      var sess := new Session(id, userKey, stamp + ttl);
      InfosAdd(sessions, id, sess);
      sessions := sessions[id := sess];
      if userKey != "" {
        byKey := byKey[userKey := List(byKey, userKey) + [id]];
      }
      clock := stamp;
      return Some(sess), Made;
    }

    method Get(id: string, now: int) returns (s: Option<Session>)
      requires Valid()
      ensures s.Some? <==> Found(View(), id, now).Some?
      ensures s.Some? ==> s.value.id == id && Found(View(), id, now) == Some(InfoOf(s.value))
    {
      if id !in sessions || now > sessions[id].expires {
        return None;
      }
      return Some(sessions[id]);
    }

    method DeleteSession(id: string)
      requires Valid()
      modifies this
      ensures Valid() && View() == Without(old(View()), id)
    {
      hide Inv, Infos, Dropped;
      WithoutKeeps(View(), id);
      assert forall k :: k in byKey ==> byKey[k] != [] by { NoEmptyLists(View()); }
      InfosRemove(sessions, id);
      if id in sessions {
        var sess := sessions[id];
        if sess.userKey != "" {
          RemoveFromKey(sess.userKey, id);
        }
        sessions := sessions - {id};
      }
    }

    // pruneKeyExpired
    method PruneKeyExpired(key: string, now: int)
      modifies this`byKey
      ensures View() == Pruned(old(View()), key, now)
    {
      var ids := List(byKey, key);
      var alive: seq<string> := [];
      for i := 0 to |ids|
        invariant byKey == old(byKey)
        invariant alive == Alive(ids[..i], Infos(sessions), now)
      {
        assert ids[..i + 1][..i] == ids[..i];
        var id := ids[i];
        if id in sessions && !(now > sessions[id].expires) {
          alive := alive + [id];
        }
      }
      assert ids[..|ids|] == ids;
      if |alive| == 0 {
        byKey := byKey - {key};
      } else {
        byKey := byKey[key := alive];
      }
    }

    // removeFromKey
    method RemoveFromKey(key: string, id: string)
      requires forall k :: k in byKey ==> byKey[k] != []
      modifies this`byKey
      ensures byKey == SetList(old(byKey), key, Dropped(List(old(byKey), key), id))
    {
      var ids := List(byKey, key);
      var i := 0;
      while i < |ids| && ids[i] != id
        invariant 0 <= i <= |ids| && byKey == old(byKey)
        invariant id !in ids[..i]
        decreases |ids| - i
      {
        i := i + 1;
      }
      DroppedAt(ids, id, i);
      if i < |ids| {
        byKey := byKey[key := ids[..i] + ids[i + 1..]];
      }
      if |List(byKey, key)| == 0 {
        byKey := byKey - {key};
      }
    }

    // The loop body of gc
    method Visit(id: string, now: int, ghost was: State, ghost visited: set<string>)
      requires Valid() && clock <= now && id in sessions && id !in visited
      requires Inv(was) && Meanwhile(was, View(), visited, now)
      modifies this
      ensures Valid() && Meanwhile(was, View(), visited + {id}, now) && id in was.sessions
      ensures View() == old(View()).(sessions := View().sessions, byKey := byKey)
      ensures sessions.Keys == old(sessions).Keys || sessions.Keys == old(sessions).Keys - {id}
    {
      hide Inv, Without, Meanwhile, Infos;
      ghost var before := View();
      InfosRemove(sessions, id);
      MeanwhileSame(was, before, visited, id, now);
      WithoutSame(before, id);
      if now > sessions[id].expires {
        DeleteSession(id);
        SweepsOne(was, before, visited, id, now);
      } else {
        SkipsOne(was, before, visited, id, now);
      }
    }

    // One tick of gc: the map gives its sessions in any order, and the loop deletes as it goes
    method Gc(now: int)
      requires Valid() && clock <= now
      modifies this
      ensures Valid() && View() == Swept(old(View()), now).(clock := now)
    {
      hide Inv, Swept, Without, Meanwhile, Infos;
      ghost var was := View();
      SweptKeeps(was, now);
      SweptSame(was, now);
      var rest := sessions.Keys;
      assert Meanwhile(was, View(), {}, now) by { SweepStarts(was, now); }
      assert was.sessions.Keys - rest == {};
      while rest != {}
        invariant rest <= sessions.Keys
        invariant Valid() && clock <= now
        invariant View() == was.(sessions := View().sessions, byKey := byKey)
        invariant Meanwhile(was, View(), was.sessions.Keys - rest, now)
        decreases |rest|
      {
        var id :| id in rest;
        ghost var visited := was.sessions.Keys - rest;
        rest := rest - {id};
        Visit(id, now, was, visited);
        assert visited + {id} == was.sessions.Keys - rest;
      }
      assert was.sessions.Keys - rest == was.sessions.Keys;
      SweepEnds(was, View(), now);
      clock := now;
    }
  }

  lemma {:induction false} DroppedAt(ids: seq<string>, id: string, i: nat)
    requires i <= |ids| && id !in ids[..i] && (i < |ids| ==> ids[i] == id)
    ensures Dropped(ids, id) == if i < |ids| then ids[..i] + ids[i + 1..] else ids
  {
    if i > 0 {
      assert ids[0] in ids[..i];
      assert ids[1..][..i - 1] == ids[..i][1..];
      DroppedAt(ids[1..], id, i - 1);
      if i < |ids| {
        assert ids[..i] == [ids[0]] + ids[1..][..i - 1] && ids[i + 1..] == ids[1..][i..];
      }
    } else if ids != [] {
      assert ids[..0] == [];
    }
  }

  lemma SweptSame(st: State, now: int)
    ensures Swept(st, now) == st.(sessions := Swept(st, now).sessions, byKey := Swept(st, now).byKey)
  {
  }

  lemma WithoutSame(st: State, id: string)
    ensures Without(st, id) == st.(sessions := Without(st, id).sessions, byKey := Without(st, id).byKey)
    ensures Without(st, id).sessions == st.sessions - {id}
  {
  }

  lemma MeanwhileSame(was: State, st: State, visited: set<string>, id: string, now: int)
    requires Meanwhile(was, st, visited, now) && id in st.sessions
    ensures id in was.sessions && st.sessions[id] == was.sessions[id]
  {
  }

  // ---------- the sweep, half way ----------

  // After some sessions have been visited: those of them that had expired are gone, from the lists too.
  function Remaining(ids: seq<string>, sessions: map<string, Info>, visited: set<string>, now: int): seq<string> {
    if ids == [] then []
    else
      var n := |ids| - 1;
      Remaining(ids[..n], sessions, visited, now)
      + (if ids[n] in visited && !Unexpired(sessions, ids[n], now) then [] else [ids[n]])
  }

  ghost predicate Meanwhile(was: State, st: State, visited: set<string>, now: int) {
    && st.sessions == (map id | id in was.sessions && (id !in visited || Unexpired(was.sessions, id, now))
                         :: was.sessions[id])
    && forall k :: List(st.byKey, k) == Remaining(List(was.byKey, k), was.sessions, visited, now)
  }

  lemma {:induction false} RemainingNone(ids: seq<string>, sessions: map<string, Info>, now: int)
    ensures Remaining(ids, sessions, {}, now) == ids
  {
    if ids != [] {
      RemainingNone(ids[..|ids| - 1], sessions, now);
      assert ids == ids[..|ids| - 1] + [ids[|ids| - 1]];
    }
  }

  lemma SweepStarts(was: State, now: int)
    ensures Meanwhile(was, was, {}, now)
  {
    forall k
      ensures List(was.byKey, k) == Remaining(List(was.byKey, k), was.sessions, {}, now)
    {
      RemainingNone(List(was.byKey, k), was.sessions, now);
    }
  }

  lemma {:induction false} RemainingSame(
    ids: seq<string>, sessions: map<string, Info>, visited: set<string>, id: string, now: int)
    requires id !in ids || Unexpired(sessions, id, now)
    ensures Remaining(ids, sessions, visited + {id}, now) == Remaining(ids, sessions, visited, now)
  {
    if ids != [] {
      RemainingSame(ids[..|ids| - 1], sessions, visited, id, now);
    }
  }

  lemma {:induction false} DroppedConcat(a: seq<string>, b: seq<string>, id: string)
    ensures Dropped(a + b, id) == if id in a then Dropped(a, id) + b else a + Dropped(b, id)
  {
    if a == [] {
      assert a + b == b;
    } else {
      assert (a + b)[1..] == a[1..] + b;
      DroppedConcat(a[1..], b, id);
    }
  }

  lemma {:induction false} RemainingMembers(ids: seq<string>, sessions: map<string, Info>, visited: set<string>, now: int)
    ensures forall id :: id in Remaining(ids, sessions, visited, now) <==>
      id in ids && !(id in visited && !Unexpired(sessions, id, now))
  {
    if ids != [] {
      RemainingMembers(ids[..|ids| - 1], sessions, visited, now);
      assert ids == ids[..|ids| - 1] + [ids[|ids| - 1]];
    }
  }

  // Dropping an expired id from what remains of a list without duplicates
  lemma {:induction false} RemainingDrops(
    ids: seq<string>, sessions: map<string, Info>, visited: set<string>, id: string, now: int)
    requires NoDuplicates(ids) && !Unexpired(sessions, id, now) && id !in visited
    ensures Remaining(ids, sessions, visited + {id}, now) == Dropped(Remaining(ids, sessions, visited, now), id)
  {
    if ids != [] {
      var n := |ids| - 1;
      var init := ids[..n];
      RemainingDrops(init, sessions, visited, id, now);
      RemainingMembers(init, sessions, visited, now);
      var r := Remaining(init, sessions, visited, now);
      var tail := if ids[n] in visited && !Unexpired(sessions, ids[n], now) then [] else [ids[n]];
      DroppedConcat(r, tail, id);
      if id in init {
        assert ids[n] != id;
      } else {
        DroppedAbsent(r, id);
        if tail != [] {
          assert tail[1..] == [];
        }
      }
    }
  }

  lemma {:induction false} DroppedAbsent(ids: seq<string>, id: string)
    requires id !in ids
    ensures Dropped(ids, id) == ids
  {
    if ids != [] {
      DroppedAbsent(ids[1..], id);
    }
  }

  lemma SweepsOne(was: State, st: State, visited: set<string>, id: string, now: int)
    requires Inv(was) && Inv(st) && Meanwhile(was, st, visited, now)
    requires id in st.sessions && id !in visited && !Unexpired(was.sessions, id, now)
    ensures Meanwhile(was, Without(st, id), visited + {id}, now)
  {
    var next := Without(st, id);
    var key := st.sessions[id].key;
    assert st.sessions[id] == was.sessions[id];
    forall k
      ensures List(next.byKey, k) == Remaining(List(was.byKey, k), was.sessions, visited + {id}, now)
    {
      var ids := List(was.byKey, k);
      if k in was.byKey {
        assert GoodList(was, k);
      }
      if k == key && key != "" {
        RemainingDrops(ids, was.sessions, visited, id, now);
        assert List(next.byKey, k) == Dropped(List(st.byKey, k), id);
      } else {
        assert id !in ids;
        RemainingSame(ids, was.sessions, visited, id, now);
        assert List(next.byKey, k) == List(st.byKey, k);
      }
    }
  }

  lemma SkipsOne(was: State, st: State, visited: set<string>, id: string, now: int)
    requires Meanwhile(was, st, visited, now) && Unexpired(was.sessions, id, now)
    ensures Meanwhile(was, st, visited + {id}, now)
  {
    forall k
      ensures List(st.byKey, k) == Remaining(List(was.byKey, k), was.sessions, visited + {id}, now)
    {
      RemainingSame(List(was.byKey, k), was.sessions, visited, id, now);
    }
  }

  lemma {:induction false} RemainingAll(ids: seq<string>, sessions: map<string, Info>, now: int)
    requires forall id :: id in ids ==> id in sessions
    ensures Remaining(ids, sessions, sessions.Keys, now) == Alive(ids, sessions, now)
  {
    if ids != [] {
      RemainingAll(ids[..|ids| - 1], sessions, now);
    }
  }

  lemma SweepEnds(was: State, st: State, now: int)
    requires Inv(was) && Inv(st) && Meanwhile(was, st, was.sessions.Keys, now)
    ensures st.sessions == Swept(was, now).sessions && st.byKey == Swept(was, now).byKey
  {
    var end := Swept(was, now).byKey;
    forall k
      ensures k in st.byKey <==> k in end
      ensures k in st.byKey ==> st.byKey[k] == end[k]
    {
      if k in was.byKey {
        assert GoodList(was, k);
      }
      if k in st.byKey {
        assert GoodList(st, k);
      }
      RemainingAll(List(was.byKey, k), was.sessions, now);
    }
  }
}
