/** GetOrCreate and UpdateOrCreate under concurrency: any number of clients look up, insert and look up
    again on one table, interleaved in any way, and a UNIQUE constraint on the filter's columns settles
    the race. `key` stands for the values of those columns. */
module GetOrCreateRace {
  import opened Totals

  datatype Row = Row(pk: nat, key: nat, payload: int)

  // `key` is the filter, `defaults` the row to insert; an updating client is UpdateOrCreate
  datatype Client = Client(updates: bool, key: nat, defaults: Row, value: int)

  datatype Phase =
    | Looking
    | Missed                             // the first lookup found nothing
    | Present                            // an updating client's Exists said yes
    | Collided                           // the insert hit the UNIQUE constraint
    | Finished(pk: nat, created: bool)
    | Ineffective                        // an update that matched no row; no error is reported
    | Failed

  datatype State = State(unique: bool, rows: seq<Row>, nextPk: nat, phases: seq<Phase>)

  // ---------- the table ----------

  // First(): the first row of the filter
  function Find(rows: seq<Row>, key: nat): (i: nat)
    ensures i <= |rows|
    ensures i < |rows| ==> rows[i].key == key
    ensures forall k :: 0 <= k < i ==> rows[k].key != key
  {
    if rows == [] || rows[0].key == key then 0 else 1 + Find(rows[1..], key)
  }

  predicate HasKey(rows: seq<Row>, key: nat) { Find(rows, key) < |rows| }

  // UPDATE ... WHERE key: every row of the filter gets the value
  function Updated(rows: seq<Row>, key: nat, value: int): seq<Row> {
    seq(|rows|, i requires 0 <= i < |rows| => if rows[i].key == key then rows[i].(payload := value) else rows[i])
  }

  ghost predicate UniqueKeys(rows: seq<Row>) {
    forall i, j :: 0 <= i < j < |rows| ==> rows[i].key != rows[j].key
  }

  // ---------- the protocol ----------

  // The lookup or the update that ends a client's call; without a match GetOrCreate reports the insert's error.
  function Conclude(s: State, client: Client, c: nat): State
    requires c < |s.phases|
  {
    var found := Find(s.rows, client.key);
    if found == |s.rows| then s.(phases := s.phases[c := if client.updates then Ineffective else Failed])
    else
      s.(phases := s.phases[c := Finished(s.rows[found].pk, false)],
         rows := if client.updates then Updated(s.rows, client.key, client.value) else s.rows)
  }

  // The client's next statement: lookup, insert, and what follows a match or a collision
  function Step(s: State, client: Client, c: nat): (after: State)
    requires c < |s.phases|
    ensures |after.phases| == |s.phases|
  {
    match s.phases[c]
    case Looking =>
      if !HasKey(s.rows, client.key) then s.(phases := s.phases[c := Missed])
      else if client.updates then s.(phases := s.phases[c := Present])
      else Conclude(s, client, c)
    case Missed =>
      var row := client.defaults.(pk := s.nextPk);
      if s.unique && HasKey(s.rows, row.key) then s.(phases := s.phases[c := Collided])
      else
        s.(rows := s.rows + [row], nextPk := s.nextPk + 1, phases := s.phases[c := Finished(row.pk, true)])
    case Present => Conclude(s, client, c)
    case Collided => Conclude(s, client, c)
    case _ => s
  }

  // A schedule names, step by step, the client that moves.
  function Run(s: State, clients: seq<Client>, schedule: seq<nat>): (after: State)
    requires |s.phases| == |clients| && forall c :: c in schedule ==> c < |clients|
    ensures |after.phases| == |clients|
    decreases |schedule|
  {
    if schedule == [] then s
    else
      assert schedule[0] in schedule && forall c :: c in schedule[1..] ==> c in schedule;
      Run(Step(s, clients[schedule[0]], schedule[0]), clients, schedule[1..])
  }

  function Start(rows: seq<Row>, nextPk: nat, clients: seq<Client>, unique: bool): State {
    State(unique, rows, nextPk, seq(|clients|, _ => Looking))
  }

  ghost predicate DefaultsMatch(clients: seq<Client>) {
    forall c :: 0 <= c < |clients| ==> clients[c].defaults.key == clients[c].key
  }

  // ---------- the invariant ----------

  // The key a client created, -1 for none
  function CreatedKey(p: (Client, Phase)): int {
    if p.1.Finished? && p.1.created then p.0.key else -1
  }

  function Zip(clients: seq<Client>, phases: seq<Phase>): seq<(Client, Phase)>
    requires |clients| == |phases|
  {
    seq(|clients|, i requires 0 <= i < |clients| => (clients[i], phases[i]))
  }

  // How many clients reported created=true for a key
  function Creators(clients: seq<Client>, phases: seq<Phase>, key: nat): nat
    requires |clients| == |phases|
  {
    Count(Zip(clients, phases), CreatedKey, key)
  }

  ghost predicate PhaseOk(rows: seq<Row>, client: Client, p: Phase) {
    match p
    case Finished(pk, _) => HasKey(rows, client.key) && rows[Find(rows, client.key)].pk == pk
    case Collided => HasKey(rows, client.key)
    case Present => HasKey(rows, client.key)
    case Failed => false
    case Ineffective => false
    case _ => true
  }

  ghost predicate Inv(start: seq<Row>, clients: seq<Client>, s: State) {
    && s.unique && |s.phases| == |clients|
    && UniqueKeys(s.rows)
    && (forall k: nat :: HasKey(start, k) ==> HasKey(s.rows, k))
    && (forall c :: 0 <= c < |clients| ==> PhaseOk(s.rows, clients[c], s.phases[c]))
    && (forall k: nat :: Creators(clients, s.phases, k) == One(HasKey(s.rows, k) && !HasKey(start, k)))
  }

  lemma FindIs(rows: seq<Row>, i: nat)
    requires UniqueKeys(rows) && i < |rows|
    ensures Find(rows, rows[i].key) == i
  {
  }

  lemma {:induction false} FindAppended(rows: seq<Row>, row: Row, key: nat)
    ensures Find(rows + [row], key) == if HasKey(rows, key) then Find(rows, key)
                                       else if row.key == key then |rows| else |rows| + 1
  {
    if rows == [] {
      assert rows + [row] == [row] && [row][1..] == [];
    } else {
      assert (rows + [row])[1..] == rows[1..] + [row];
      FindAppended(rows[1..], row, key);
    }
  }

  lemma {:induction false} FindUpdated(rows: seq<Row>, key: nat, value: int, k: nat)
    ensures Find(Updated(rows, key, value), k) == Find(rows, k)
    ensures HasKey(rows, k) ==> Updated(rows, key, value)[Find(rows, k)].pk == rows[Find(rows, k)].pk
  {
    if rows != [] {
      assert Updated(rows, key, value)[1..] == Updated(rows[1..], key, value);
      FindUpdated(rows[1..], key, value, k);
    }
  }

  lemma PhaseChange(clients: seq<Client>, phases: seq<Phase>, c: nat, p: Phase, key: nat)
    requires |clients| == |phases| && c < |clients|
    ensures Creators(clients, phases[c := p], key) + One(CreatedKey((clients[c], phases[c])) == key)
         == Creators(clients, phases, key) + One(CreatedKey((clients[c], p)) == key)
  {
    CountUpdate(Zip(clients, phases), c, (clients[c], p), CreatedKey, key);
    assert Zip(clients, phases[c := p]) == Zip(clients, phases)[c := (clients[c], p)];
  }

  lemma ConcludeInv(start: seq<Row>, clients: seq<Client>, s: State, c: nat)
    requires Inv(start, clients, s) && c < |clients| && HasKey(s.rows, clients[c].key)
    requires s.phases[c].Looking? || s.phases[c].Collided? || s.phases[c].Present?
    ensures Inv(start, clients, Conclude(s, clients[c], c))
  {
    hide Find, Updated;
    var client := clients[c];
    var s' := Conclude(s, client, c);
    forall k: nat
      ensures Find(s'.rows, k) == Find(s.rows, k) && |s'.rows| == |s.rows|
      ensures HasKey(s.rows, k) ==> s'.rows[Find(s.rows, k)].pk == s.rows[Find(s.rows, k)].pk
    {
      FindUpdated(s.rows, client.key, client.value, k);
      assert |Updated(s.rows, client.key, client.value)| == |s.rows| by { UpdatedShape(s.rows, client.key, client.value); }
    }
    UpdatedShape(s.rows, client.key, client.value);
    forall k: nat
      ensures Creators(clients, s'.phases, k) == Creators(clients, s.phases, k)
    {
      PhaseChange(clients, s.phases, c, s'.phases[c], k);
    }
  }

  lemma UpdatedShape(rows: seq<Row>, key: nat, value: int)
    ensures |Updated(rows, key, value)| == |rows|
    ensures forall i :: 0 <= i < |rows| ==> Updated(rows, key, value)[i].key == rows[i].key
  {
  }

  lemma InsertInv(start: seq<Row>, clients: seq<Client>, s: State, c: nat)
    requires Inv(start, clients, s) && DefaultsMatch(clients) && c < |clients| && s.phases[c].Missed?
    ensures Inv(start, clients, Step(s, clients[c], c))
  {
    hide Find;
    var client := clients[c];
    var s' := Step(s, client, c);
    forall k: nat
      ensures Creators(clients, s'.phases, k)
           == Creators(clients, s.phases, k) + One(s'.phases[c].Finished? && client.key == k)
    {
      PhaseChange(clients, s.phases, c, s'.phases[c], k);
    }
    if s'.phases[c].Finished? {
      var row := client.defaults.(pk := s.nextPk);
      forall k: nat
        ensures Find(s'.rows, k) == if HasKey(s.rows, k) then Find(s.rows, k)
                                    else if row.key == k then |s.rows| else |s.rows| + 1
      {
        FindAppended(s.rows, row, k);
      }
      forall i | 0 <= i < |s.rows|
        ensures s.rows[i].key != row.key
      {
        FindIs(s.rows, i);
      }
    }
  }

  lemma StepInv(start: seq<Row>, clients: seq<Client>, s: State, c: nat)
    requires Inv(start, clients, s) && DefaultsMatch(clients) && c < |clients|
    ensures Inv(start, clients, Step(s, clients[c], c))
  {
    hide Find;
    match s.phases[c] {
      case Looking =>
        if HasKey(s.rows, clients[c].key) && !clients[c].updates {
          ConcludeInv(start, clients, s, c);
        } else {
          var p := Step(s, clients[c], c).phases[c];
          forall k: nat
            ensures Creators(clients, s.phases[c := p], k) == Creators(clients, s.phases, k)
          {
            PhaseChange(clients, s.phases, c, p, k);
          }
        }
      case Present =>
        assert PhaseOk(s.rows, clients[c], s.phases[c]);
        ConcludeInv(start, clients, s, c);
      case Missed => InsertInv(start, clients, s, c);
      case Collided =>
        assert PhaseOk(s.rows, clients[c], s.phases[c]);
        ConcludeInv(start, clients, s, c);
      case _ =>
    }
  }

  lemma {:induction false} RunInv(start: seq<Row>, clients: seq<Client>, s: State, schedule: seq<nat>)
    requires Inv(start, clients, s) && DefaultsMatch(clients) && forall c :: c in schedule ==> c < |clients|
    ensures Inv(start, clients, Run(s, clients, schedule))
    decreases |schedule|
  {
    hide Inv, Step;
    assert |s.phases| == |clients| by { InvShape(start, clients, s); }
    if schedule != [] {
      assert schedule[0] in schedule && forall c :: c in schedule[1..] ==> c in schedule;
      StepInv(start, clients, s, schedule[0]);
      RunInv(start, clients, Step(s, clients[schedule[0]], schedule[0]), schedule[1..]);
    }
  }

  lemma InvShape(start: seq<Row>, clients: seq<Client>, s: State)
    requires Inv(start, clients, s)
    ensures |s.phases| == |clients|
  {
  }

  lemma StartInv(rows: seq<Row>, nextPk: nat, clients: seq<Client>)
    requires UniqueKeys(rows)
    ensures Inv(rows, clients, Start(rows, nextPk, clients, true))
  {
    var s := Start(rows, nextPk, clients, true);
    forall k: nat
      ensures Creators(clients, s.phases, k) == 0
    {
      CountNone(Zip(clients, s.phases), CreatedKey, k);
    }
  }

  // ---------- the main result ----------

  // With UNIQUE, matching defaults and no deletes, on every interleaving: keys stay unique, nobody fails,
  // clients of the same filter that have finished hold the same row, that row is in the table, and the
  // number of clients that report created=true for a key is one if the key is new in the table, else zero.
  lemma RaceIsSettled(rows: seq<Row>, nextPk: nat, clients: seq<Client>, schedule: seq<nat>)
    requires UniqueKeys(rows) && DefaultsMatch(clients) && forall c :: c in schedule ==> c < |clients|
    ensures var s := Run(Start(rows, nextPk, clients, true), clients, schedule);
      && |s.phases| == |clients| && UniqueKeys(s.rows)
      && (forall c :: 0 <= c < |clients| ==> !s.phases[c].Failed? && !s.phases[c].Ineffective?)
      && (forall c, d :: 0 <= c < |clients| && 0 <= d < |clients| && clients[c].key == clients[d].key ==>
            s.phases[c].Finished? && s.phases[d].Finished? ==> s.phases[c].pk == s.phases[d].pk)
      && (forall c :: 0 <= c < |clients| && s.phases[c].Finished?
            ==> exists row :: row in s.rows && row.key == clients[c].key && row.pk == s.phases[c].pk)
      && (forall k: nat :: Creators(clients, s.phases, k) == One(HasKey(s.rows, k) && !HasKey(rows, k)))
  {
    hide Step;
    StartInv(rows, nextPk, clients);
    RunInv(rows, clients, Start(rows, nextPk, clients, true), schedule);
    var s := Run(Start(rows, nextPk, clients, true), clients, schedule);
    forall c | 0 <= c < |clients| && s.phases[c].Finished?
      ensures exists row :: row in s.rows && row.key == clients[c].key && row.pk == s.phases[c].pk
    {
      assert PhaseOk(s.rows, clients[c], s.phases[c]);
      assert s.rows[Find(s.rows, clients[c].key)] in s.rows;
    }
    forall c, d | 0 <= c < |clients| && 0 <= d < |clients| && clients[c].key == clients[d].key
               && s.phases[c].Finished? && s.phases[d].Finished?
      ensures s.phases[c].pk == s.phases[d].pk
    {
      assert PhaseOk(s.rows, clients[c], s.phases[c]) && PhaseOk(s.rows, clients[d], s.phases[d]);
    }
  }

  // Exactly one creator once somebody has finished on a key that was absent at the start
  lemma ExactlyOneCreator(rows: seq<Row>, nextPk: nat, clients: seq<Client>, schedule: seq<nat>, c: nat)
    requires UniqueKeys(rows) && DefaultsMatch(clients) && forall d :: d in schedule ==> d < |clients|
    requires c < |clients| && !HasKey(rows, clients[c].key)
    requires var s := Run(Start(rows, nextPk, clients, true), clients, schedule);
      |s.phases| == |clients| && s.phases[c].Finished?
    ensures Creators(clients, Run(Start(rows, nextPk, clients, true), clients, schedule).phases, clients[c].key) == 1
  {
    hide Step;
    StartInv(rows, nextPk, clients);
    RunInv(rows, clients, Start(rows, nextPk, clients, true), schedule);
    var s := Run(Start(rows, nextPk, clients, true), clients, schedule);
    assert PhaseOk(s.rows, clients[c], s.phases[c]);
  }

  // Every client is done after three steps of its own.
  function StepsLeft(p: Phase): nat {
    match p case Looking => 3 case Missed => 2 case Present => 1 case Collided => 1 case _ => 0
  }

  lemma ClientAdvances(s: State, client: Client, c: nat)
    requires c < |s.phases|
    ensures StepsLeft(s.phases[c]) > 0 ==> StepsLeft(Step(s, client, c).phases[c]) < StepsLeft(s.phases[c])
    ensures StepsLeft(s.phases[c]) == 0 <==> s.phases[c].Finished? || s.phases[c].Failed? || s.phases[c].Ineffective?
  {
  }

  // ---------- the assumptions are needed ----------

  // Two clients that both look before either inserts create two rows exactly when UNIQUE is missing.
  lemma UniqueIsNeeded(nextPk: nat, a: Client, b: Client, unique: bool)
    requires !a.updates && !b.updates && a.key == b.key && DefaultsMatch([a, b])
    ensures var s := Run(Start([], nextPk, [a, b], unique), [a, b], [0, 1, 0, 1]);
      UniqueKeys(s.rows) <==> unique
  {
    var clients := [a, b];
    assert clients[0] == a && clients[1] == b;
    var s0 := Start([], nextPk, clients, unique);
    var s1 := Step(s0, a, 0);
    var s2 := Step(s1, b, 1);
    var s3 := Step(s2, a, 0);
    var s4 := Step(s3, b, 1);
    var schedule: seq<nat> := [0, 1, 0, 1];
    assert s3.rows == [a.defaults.(pk := nextPk)];
    assert schedule[1..] == [1, 0, 1] && schedule[1..][1..] == [0, 1] && [0, 1][1..] == [1] && [1][1..] == [];
    assert Run(s3, clients, [1]) == s4;
    assert Run(s2, clients, [0, 1]) == s4;
    assert Run(s1, clients, [1, 0, 1]) == s4;
    if unique {
      assert s4.rows == s3.rows;
    } else {
      assert s4.rows[0].key == s4.rows[1].key;
    }
  }

  // A client whose defaults do not satisfy its own filter can fail: its row's key is taken, its filter's is not.
  lemma MatchingDefaultsAreNeeded(client: Client, nextPk: nat)
    requires client.defaults.key != client.key
    ensures var taken := [Row(0, client.defaults.key, 0)];
      Run(Start(taken, nextPk, [client], true), [client], [0, 0, 0]).phases
        == [if client.updates then Ineffective else Failed]
  {
    var taken := [Row(0, client.defaults.key, 0)];
    var clients := [client];
    var s0 := Start(taken, nextPk, clients, true);
    var schedule: seq<nat> := [0, 0, 0];
    assert taken[1..] == [];
    assert !HasKey(taken, client.key) && HasKey(taken, client.defaults.key);
    var s1 := Step(s0, client, 0);
    var s2 := Step(s1, client, 0);
    var s3 := Step(s2, client, 0);
    assert schedule[1..] == [0, 0] && [0, 0][1..] == [0] && [0][1..] == [];
    assert Run(s2, clients, [0]) == s3;
    assert Run(s1, clients, [0, 0]) == s3;
  }

  // ---------- one call ----------

  predicate Done(p: Phase) { p.Finished? || p.Failed? || p.Ineffective? }

  ghost predicate Within(schedule: seq<nat>, clients: seq<Client>, c: nat) {
    forall d :: d in schedule ==> d < |clients| && d != c
  }

  // A whole call of client c: what others do after its first statement, and after its second
  function Call(s: State, clients: seq<Client>, c: nat, first: seq<nat>, second: seq<nat>): (after: State)
    requires |s.phases| == |clients| && c < |clients| && Within(first, clients, c) && Within(second, clients, c)
    ensures |after.phases| == |clients|
  {
    var looked := Step(s, clients[c], c);
    if Done(looked.phases[c]) then looked
    else
      var tried := Step(Run(looked, clients, first), clients[c], c);
      if Done(tried.phases[c]) then tried else Step(Run(tried, clients, second), clients[c], c)
  }

  // The state in which client c makes its last statement
  function Last(s: State, clients: seq<Client>, c: nat, first: seq<nat>, second: seq<nat>): (before: State)
    requires |s.phases| == |clients| && c < |clients| && Within(first, clients, c) && Within(second, clients, c)
    ensures |before.phases| == |clients|
  {
    var looked := Step(s, clients[c], c);
    if Done(looked.phases[c]) then s
    else
      var waited := Run(looked, clients, first);
      var tried := Step(waited, clients[c], c);
      if Done(tried.phases[c]) then waited else Run(tried, clients, second)
  }

  // Row by row: the rows of the key hold the value, all other rows and what else the rows hold are left alone.
  ghost predicate Written(before: seq<Row>, after: seq<Row>, key: nat, value: int) {
    && |after| == |before|
    && forall i :: 0 <= i < |before| ==>
         && after[i].pk == before[i].pk && after[i].key == before[i].key
         && after[i].payload == if before[i].key == key then value else before[i].payload
  }

  // What a client's last statement does to the rows, told by how the client ends
  ghost predicate Effect(before: seq<Row>, after: seq<Row>, client: Client, p: Phase, nextPk: nat) {
    match p
    case Finished(pk, true) => pk == nextPk && after == before + [Row(nextPk, client.defaults.key, client.defaults.payload)]
    case Finished(_, false) => if client.updates then Written(before, after, client.key, client.value) else after == before
    case _ => after == before
  }

  lemma StepEffect(s: State, client: Client, c: nat)
    requires c < |s.phases| && !Done(s.phases[c])
    ensures Effect(s.rows, Step(s, client, c).rows, client, Step(s, client, c).phases[c], s.nextPk)
    ensures Step(s, client, c).phases[c].Finished? && !Step(s, client, c).phases[c].created ==> HasKey(s.rows, client.key)
  {
    hide Find;
    UpdatedShape(s.rows, client.key, client.value);
  }

  // Main result about contents: a call inserts its defaults, or writes its value to exactly the rows of its key, or
  // leaves the rows as the moves of the others left them.
  lemma CallWrites(s: State, clients: seq<Client>, c: nat, first: seq<nat>, second: seq<nat>)
    requires |s.phases| == |clients| && c < |clients| && Within(first, clients, c) && Within(second, clients, c)
    requires s.phases[c] == Looking
    ensures var before, after := Last(s, clients, c, first, second), Call(s, clients, c, first, second);
      && Effect(before.rows, after.rows, clients[c], after.phases[c], before.nextPk)
      && (after.phases[c].Finished? && !after.phases[c].created && clients[c].updates ==>
            forall r :: r in after.rows && r.key == clients[c].key ==> r.payload == clients[c].value)
  {
    hide Run, Effect;
    var looked := Step(s, clients[c], c);
    OthersKeep(looked, clients, first, c);
    var waited := Run(looked, clients, first);
    var tried := Step(waited, clients[c], c);
    OthersKeep(tried, clients, second, c);
    StepEffect(s, clients[c], c);
    if !Done(looked.phases[c]) {
      StepEffect(waited, clients[c], c);
      if !Done(tried.phases[c]) {
        StepEffect(Run(tried, clients, second), clients[c], c);
      }
    }
    var before, after := Last(s, clients, c, first, second), Call(s, clients, c, first, second);
    KeyRowsHold(before.rows, after.rows, clients[c], after.phases[c], before.nextPk);
  }

  lemma KeyRowsHold(before: seq<Row>, after: seq<Row>, client: Client, p: Phase, nextPk: nat)
    requires Effect(before, after, client, p, nextPk)
    ensures p.Finished? && !p.created && client.updates ==>
      forall r :: r in after && r.key == client.key ==> r.payload == client.value
  {
  }

  lemma {:induction false} OthersKeep(s: State, clients: seq<Client>, schedule: seq<nat>, c: nat)
    requires |s.phases| == |clients| && c < |clients| && Within(schedule, clients, c)
    ensures var after := Run(s, clients, schedule);
      |after.phases| == |clients| && after.phases[c] == s.phases[c] && after.unique == s.unique
    decreases |schedule|
  {
    if schedule != [] {
      assert schedule[0] in schedule && forall d :: d in schedule[1..] ==> d in schedule;
      OthersKeep(Step(s, clients[schedule[0]], schedule[0]), clients, schedule[1..], c);
    }
  }

  lemma {:induction false} RunConcat(s: State, clients: seq<Client>, a: seq<nat>, b: seq<nat>)
    requires |s.phases| == |clients| && (forall c :: c in a ==> c < |clients|) && forall c :: c in b ==> c < |clients|
    ensures Run(s, clients, a + b) == Run(Run(s, clients, a), clients, b)
    decreases |a|
  {
    hide Step;
    if a == [] {
      assert a + b == b;
    } else {
      assert a[0] in a && (a + b)[1..] == a[1..] + b && forall d :: d in a[1..] ==> d in a;
      StepShape(s, clients[a[0]], a[0]);
      RunConcat(Step(s, clients[a[0]], a[0]), clients, a[1..], b);
    }
  }

  lemma StepShape(s: State, client: Client, c: nat)
    requires c < |s.phases|
    ensures |Step(s, client, c).phases| == |s.phases|
  {
  }

  lemma OneMove(s: State, clients: seq<Client>, c: nat)
    requires |s.phases| == |clients| && c < |clients|
    ensures Run(s, clients, [c]) == Step(s, clients[c], c)
  {
    assert [c][1..] == [];
  }

  // A call is a run of the race in which the client moves at most three times.
  lemma CallIsRun(s: State, clients: seq<Client>, c: nat, first: seq<nat>, second: seq<nat>)
    requires |s.phases| == |clients| && c < |clients| && Within(first, clients, c) && Within(second, clients, c)
    ensures var end := Call(s, clients, c, first, second);
      || end == Run(s, clients, [c])
      || end == Run(s, clients, [c] + first + [c])
      || end == Run(s, clients, [c] + first + [c] + second + [c])
    ensures s.phases[c] == Looking ==> Done(Call(s, clients, c, first, second).phases[c])
  {
    hide Run;
    var looked := Step(s, clients[c], c);
    OneMove(s, clients, c);
    OthersKeep(looked, clients, first, c);
    var waited := Run(looked, clients, first);
    var tried := Step(waited, clients[c], c);
    OneMove(waited, clients, c);
    OthersKeep(tried, clients, second, c);
    OneMove(Run(tried, clients, second), clients, c);
    RunConcat(s, clients, [c], first);
    RunConcat(s, clients, [c] + first, [c]);
    RunConcat(s, clients, [c] + first + [c], second);
    RunConcat(s, clients, [c] + first + [c] + second, [c]);
  }

  // With UNIQUE and matching defaults the call ends with the row of its key, and it created that row exactly
  // when the key was absent both at its lookup and at its insert.
  lemma CallIsSettled(
    start: seq<Row>, clients: seq<Client>, s: State, c: nat, first: seq<nat>, second: seq<nat>)
    requires Inv(start, clients, s) && DefaultsMatch(clients) && c < |clients| && s.phases[c] == Looking
    requires Within(first, clients, c) && Within(second, clients, c)
    ensures var end, key := Call(s, clients, c, first, second), clients[c].key;
      && Inv(start, clients, end) && end.phases[c].Finished?
      && HasKey(end.rows, key) && end.rows[Find(end.rows, key)].pk == end.phases[c].pk
      && (end.phases[c].created <==>
            !HasKey(s.rows, key) && !HasKey(Run(Step(s, clients[c], c), clients, first).rows, key))
  {
    hide Run, Creators, UniqueKeys, Find;
    var looked := Step(s, clients[c], c);
    StepInv(start, clients, s, c);
    OthersKeep(looked, clients, first, c);
    RunInv(start, clients, looked, first);
    var waited := Run(looked, clients, first);
    var tried := Step(waited, clients[c], c);
    StepInv(start, clients, waited, c);
    OthersKeep(tried, clients, second, c);
    RunInv(start, clients, tried, second);
    StepInv(start, clients, Run(tried, clients, second), c);
    CallIsRun(s, clients, c, first, second);
    var end := Call(s, clients, c, first, second);
    assert PhaseOk(end.rows, clients[c], end.phases[c]);
    assert PhaseOk(waited.rows, clients[c], waited.phases[c]);
  }

  // ---------- the two methods ----------

  datatype Result = Obtained(row: Row, created: bool) | Error

  // The table and its clients
  class Table {
    const unique: bool
    const clients: seq<Client>
    var rows: seq<Row>
    var nextPk: nat
    var phases: seq<Phase>

    ghost predicate Valid()
      reads this
    {
      |phases| == |clients|
    }

    ghost function View(): State
      reads this
    {
      State(unique, rows, nextPk, phases)
    }

    // INSERT; false is the violation of the UNIQUE constraint
    method Insert(row: Row) returns (ok: bool)
      modifies this`rows, this`nextPk
      ensures ok == !(unique && HasKey(old(rows), row.key))
      ensures rows == if ok then old(rows) + [row.(pk := old(nextPk))] else old(rows)
      ensures nextPk == if ok then old(nextPk) + 1 else old(nextPk)
    {
      ok := !unique || Find(rows, row.key) == |rows|;
      if ok {
        rows := rows + [row.(pk := nextPk)];
        nextPk := nextPk + 1;
      }
    }

    // What other clients do between two statements
    method Others(schedule: seq<nat>)
      requires Valid() && forall d :: d in schedule ==> d < |clients|
      modifies this
      ensures Valid() && View() == Run(old(View()), clients, schedule)
    {
      hide Step;
      var rest: seq<nat> := schedule;
      while rest != []
        invariant Valid() && forall d :: d in rest ==> d < |clients|
        invariant Run(View(), clients, rest) == Run(old(View()), clients, schedule)
        decreases |rest|
      {
        assert rest[0] in rest && forall d :: d in rest[1..] ==> d in rest;
        Move(rest[0]);
        rest := rest[1..];
      }
    }

    method Move(d: nat)
      requires Valid() && d < |clients|
      modifies this
      ensures Valid() && View() == Step(old(View()), clients[d], d)
    {
      var after := Step(State(unique, rows, nextPk, phases), clients[d], d);
      rows, nextPk, phases := after.rows, after.nextPk, after.phases;
    }

    // GetOrCreate of client c
    method GetOrCreate(c: nat, first: seq<nat>, second: seq<nat>) returns (r: Result)
      requires Valid() && c < |clients| && phases[c] == Looking && !clients[c].updates
      requires Within(first, clients, c) && Within(second, clients, c)
      modifies this
      ensures Valid() && View() == Call(old(View()), clients, c, first, second)
      ensures phases[c] == if r.Obtained? then Finished(r.row.pk, r.created) else Failed
      ensures r.Obtained? ==> r.row in rows && r.row.key == if r.created then clients[c].defaults.key else clients[c].key
      ensures var before := Last(old(View()), clients, c, first, second);
        Effect(before.rows, rows, clients[c], phases[c], before.nextPk)
      ensures r.Obtained? && r.created ==> r.row.payload == clients[c].defaults.payload
    {
      hide Run, Effect;
      CallWrites(View(), clients, c, first, second);
      var key, defaults := clients[c].key, clients[c].defaults;
      var i := Find(rows, key);
      if i < |rows| {
        phases := phases[c := Finished(rows[i].pk, false)];
        return Obtained(rows[i], false);
      }
      phases := phases[c := Missed];
      OthersKeep(View(), clients, first, c);
      Others(first);
      var ok := Insert(defaults);
      if ok {
        var row := rows[|rows| - 1];
        phases := phases[c := Finished(row.pk, true)];
        return Obtained(row, true);
      }
      phases := phases[c := Collided];
      OthersKeep(View(), clients, second, c);
      Others(second);
      i := Find(rows, key);
      if i < |rows| {
        phases := phases[c := Finished(rows[i].pk, false)];
        return Obtained(rows[i], false);
      }
      phases := phases[c := Failed];
      return Error;
    }

    // UPDATE ... WHERE key by client c, which reports no error when it matches nothing
    method Update(c: nat)
      requires Valid() && c < |clients| && clients[c].updates
      modifies this
      ensures Valid() && View() == Conclude(old(View()), clients[c], c)
    {
      var i := Find(rows, clients[c].key);
      phases := phases[c := if i < |rows| then Finished(rows[i].pk, false) else Ineffective];
      rows := Updated(rows, clients[c].key, clients[c].value);
    }

    // UpdateOrCreate of client c
    method UpdateOrCreate(c: nat, first: seq<nat>, second: seq<nat>) returns (created: bool)
      requires Valid() && c < |clients| && phases[c] == Looking && clients[c].updates
      requires Within(first, clients, c) && Within(second, clients, c)
      modifies this
      ensures Valid() && View() == Call(old(View()), clients, c, first, second)
      ensures created <==> phases[c].Finished? && phases[c].created
      ensures var before := Last(old(View()), clients, c, first, second);
        Effect(before.rows, rows, clients[c], phases[c], before.nextPk)
      ensures phases[c].Finished? && !created ==> forall r :: r in rows && r.key == clients[c].key ==> r.payload == clients[c].value
    {
      hide Run, Conclude, Effect;
      CallWrites(View(), clients, c, first, second);
      if Find(rows, clients[c].key) < |rows| {
        phases := phases[c := Present];
        OthersKeep(View(), clients, first, c);
        Others(first);
        Concludes(View(), clients[c], c);
        Update(c);
        return false;
      }
      phases := phases[c := Missed];
      OthersKeep(View(), clients, first, c);
      Others(first);
      var ok := Insert(clients[c].defaults);
      if ok {
        phases := phases[c := Finished(rows[|rows| - 1].pk, true)];
        return true;
      }
      phases := phases[c := Collided];
      OthersKeep(View(), clients, second, c);
      Others(second);
      Concludes(View(), clients[c], c);
      Update(c);
      return false;
    }
  }

  lemma Concludes(s: State, client: Client, c: nat)
    requires c < |s.phases|
    ensures var p := Conclude(s, client, c).phases;
      |p| == |s.phases| && Done(p[c]) && (p[c].Finished? ==> !p[c].created)
  {
  }
}
