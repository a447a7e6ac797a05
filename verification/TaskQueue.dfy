/** The task queue in memory mode as a state machine: callers that enqueue, workers, retry timers and
    Close, one event for each section the program runs under its lock or on its channel. */
module TaskQueue {
  import opened Totals

  datatype Task = Task(id: nat, name: string, attempt: nat, enqueuedAt: int)

  datatype Worker = Idle | Holding(task: Task) | Running(task: Task, maxRetries: int) | Exited

  // A goroutine that has passed the check of `closed` and has not sent yet; `retry` tells a timer's from a caller's
  datatype Sender = Sender(task: Task, retry: bool)

  datatype Timer = Timer(task: Task, due: int)

  datatype Outcome = Succeeded | Failed | Panicked

  datatype HandlerRun = HandlerRun(id: nat, at: int, maxAge: int)

  datatype State = State(
    capacity: nat, closed: bool, handlers: set<string>, maxRetries: int, maxAge: int, now: int,
    buffer: seq<Task>, workers: seq<Worker>, senders: seq<Sender>, timers: seq<Timer>,
    // what has happened so far
    nextId: nat, accepted: set<nat>, stamps: map<nat, int>, done: multiset<nat>, dropped: multiset<nat>,
    runs: seq<HandlerRun>, peakRetries: int, sent: seq<Task>, taken: seq<Task>, panics: nat)

  datatype Event =
    | Register(name: string)
    | SetMaxRetries(n: int)
    | SetMaxAge(d: int)
    | Tick(time: int)
    | Admit(name: string)                  // Enqueue up to its check
    | Send(sender: nat)                    // enqueueTask
    | Take(worker: nat)                    // the worker's receive
    | Begin(worker: nat)                   // process up to the handler call
    | Finish(worker: nat, outcome: Outcome)
    | Exit(worker: nat)                    // the receive on a closed, empty channel
    | Fire(timer: nat)                     // requeue up to its check
    | Close

  const Second := 1_000_000_000

  function Max(a: int, b: int): int { if a < b then b else a }

  // ---------- the events ----------

  predicate Enabled(s: State, e: Event) {
    match e
    case Tick(time) => s.now <= time
    case Send(i) => i < |s.senders|
    case Take(w) => w < |s.workers| && s.workers[w].Idle? && s.buffer != []
    case Begin(w) => w < |s.workers| && s.workers[w].Holding?
    case Finish(w, _) => w < |s.workers| && s.workers[w].Running?
    case Exit(w) => w < |s.workers| && s.workers[w].Idle? && s.closed && s.buffer == []
    case Fire(i) => i < |s.timers| && s.timers[i].due <= s.now
    case _ => true
  }

  function AfterAdmit(s: State, name: string): State {
    if s.closed || name !in s.handlers then s
    else
      var t := Task(s.nextId, name, 0, s.now);
      s.(nextId := s.nextId + 1, stamps := s.stamps[t.id := s.now], senders := s.senders + [Sender(t, false)])
  }

  // A send on the closed channel panics; on a full one it is refused, and a retry that is refused is lost.
  function AfterSend(s: State, i: nat): State
    requires i < |s.senders|
  {
    var sender := s.senders[i];
    var t := sender.task;
    var rest := s.(senders := Remove(s.senders, i));
    if s.closed then
      rest.(panics := s.panics + 1, dropped := if sender.retry then s.dropped + multiset{t.id} else s.dropped)
    else if |s.buffer| < s.capacity then
      rest.(buffer := s.buffer + [t], sent := s.sent + [t], accepted := s.accepted + {t.id})
    else
      rest.(dropped := if sender.retry then s.dropped + multiset{t.id} else s.dropped)
  }

  function AfterTake(s: State, w: nat): State
    requires w < |s.workers| && s.buffer != []
  {
    var t := s.buffer[0];
    s.(buffer := s.buffer[1..], workers := s.workers[w := Holding(t)], taken := s.taken + [t])
  }

  predicate TooOld(s: State, t: Task) {
    s.maxAge > 0 && t.enqueuedAt != 0 && s.now - t.enqueuedAt > s.maxAge
  }

  function AfterBegin(s: State, w: nat): State
    requires w < |s.workers| && s.workers[w].Holding?
  {
    var t := s.workers[w].task;
    if TooOld(s, t) || t.name !in s.handlers then
      s.(workers := s.workers[w := Idle], dropped := s.dropped + multiset{t.id})
    else
      s.(workers := s.workers[w := Running(t, s.maxRetries)], runs := s.runs + [HandlerRun(t.id, s.now, s.maxAge)])
  }

  function AfterFinish(s: State, w: nat, outcome: Outcome): State
    requires w < |s.workers| && s.workers[w].Running?
  {
    var t := s.workers[w].task;
    var idle := s.(workers := s.workers[w := Idle]);
    match outcome
    case Succeeded => idle.(done := s.done + multiset{t.id})
    case Panicked => idle.(dropped := s.dropped + multiset{t.id})
    case Failed =>
      if t.attempt + 1 >= s.workers[w].maxRetries then idle.(dropped := s.dropped + multiset{t.id})
      else
        var again := t.(attempt := t.attempt + 1);
        idle.(timers := s.timers + [Timer(again, s.now + again.attempt * Second)])
  }

  function AfterFire(s: State, i: nat): State
    requires i < |s.timers|
  {
    var t := s.timers[i].task;
    var rest := s.(timers := Remove(s.timers, i));
    if s.closed then rest.(dropped := s.dropped + multiset{t.id})
    else rest.(senders := s.senders + [Sender(t, true)])
  }

  function After(s: State, e: Event): State
    requires Enabled(s, e)
  {
    match e
    case Register(name) => s.(handlers := s.handlers + {name})
    case SetMaxRetries(n) => s.(maxRetries := n, peakRetries := Max(s.peakRetries, n))
    case SetMaxAge(d) => s.(maxAge := d)
    case Tick(time) => s.(now := time)
    case Admit(name) => AfterAdmit(s, name)
    case Send(i) => AfterSend(s, i)
    case Take(w) => AfterTake(s, w)
    case Begin(w) => AfterBegin(s, w)
    case Finish(w, outcome) => AfterFinish(s, w, outcome)
    case Exit(w) => s.(workers := s.workers[w := Exited])
    case Fire(i) => AfterFire(s, i)
    case Close => s.(closed := true)
  }

  // New, with the source's defaults for workers and buffer
  function Initial(workers: int, buffer: int, now: int): State {
    var n := if workers <= 0 then 4 else workers;
    State(if buffer <= 0 then 1024 else buffer, false, {}, 3, 24 * 3600 * Second, now,
          [], seq(n, _ => Idle), [], [],
          0, {}, map[], multiset{}, multiset{}, [], 3, [], [], 0)
  }

  predicate Possible(s: State, events: seq<Event>)
    decreases |events|
  {
    events == [] || (Enabled(s, events[0]) && Possible(After(s, events[0]), events[1..]))
  }

  function Run(s: State, events: seq<Event>): State
    requires Possible(s, events)
    decreases |events|
  {
    if events == [] then s else Run(After(s, events[0]), events[1..])
  }

  // ---------- the invariant ----------

  function TaskTicket(t: Task): int { t.id }

  function WorkerTicket(w: Worker): int { if w.Holding? || w.Running? then w.task.id else -1 }

  function TimerTicket(t: Timer): int { t.task.id }

  function RetryTicket(x: Sender): int { if x.retry then x.task.id else -1 }

  function NewTicket(x: Sender): int { if x.retry then -1 else x.task.id }

  // In how many places a task is
  ghost function Places(s: State, id: nat): nat {
    Count(s.buffer, TaskTicket, id) + Count(s.workers, WorkerTicket, id) + Count(s.timers, TimerTicket, id)
    + Count(s.senders, RetryTicket, id) + s.done[id] + s.dropped[id]
  }

  // Each accepted task is in exactly one place, and a task not accepted is in none.
  ghost predicate Conserved(s: State) {
    forall id: nat :: Places(s, id) == One(id in s.accepted)
  }

  // A task not yet sent is nobody else's, and ids are handed out in order.
  ghost predicate NewIdsFresh(s: State) {
    && (forall id: nat :: Count(s.senders, NewTicket, id) + One(id in s.accepted) <= 1)
    && (forall id: nat :: id >= s.nextId ==> Count(s.senders, NewTicket, id) + One(id in s.accepted) == 0)
  }

  ghost predicate Accounted(s: State) {
    Conserved(s) && NewIdsFresh(s) && |s.buffer| <= s.capacity
  }

  function RunsOf(runs: seq<HandlerRun>, id: nat): nat {
    if runs == [] then 0
    else RunsOf(runs[..|runs| - 1], id) + One(runs[|runs| - 1].id == id)
  }

  ghost predicate TaskOk(s: State, t: Task, running: bool) {
    && t.id in s.stamps && s.stamps[t.id] == t.enqueuedAt
    && t.attempt <= Max(0, s.peakRetries - 1)
    && RunsOf(s.runs, t.id) == t.attempt + One(running)
  }

  ghost predicate WorkerOk(s: State, w: Worker) {
    match w
    case Holding(t) => TaskOk(s, t, false)
    case Running(t, maxRetries) => TaskOk(s, t, true) && maxRetries <= s.peakRetries
    case Exited => s.closed && s.buffer == []
    case Idle => true
  }

  ghost predicate TasksOk(s: State) {
    && (forall t :: t in s.buffer ==> TaskOk(s, t, false))
    && (forall w :: w in s.workers ==> WorkerOk(s, w))
    && (forall t :: t in s.timers ==> TaskOk(s, t.task, false))
    && (forall x :: x in s.senders ==> TaskOk(s, x.task, false))
  }

  ghost predicate HistoryOk(s: State) {
    && s.sent == s.taken + s.buffer
    && (forall id: nat :: id in s.stamps ==> id < s.nextId)
    && (forall id: nat :: RunsOf(s.runs, id) <= Max(1, s.peakRetries))
    && (forall r :: r in s.runs ==> r.id in s.stamps && InTime(r, s.stamps[r.id]))
    && s.maxRetries <= s.peakRetries
  }

  // The handler was called while the age limit of the moment, if any, was not exceeded.
  predicate InTime(r: HandlerRun, stamp: int) {
    r.maxAge > 0 && stamp != 0 ==> r.at - stamp <= r.maxAge
  }

  ghost predicate Inv(s: State) { Accounted(s) && TasksOk(s) && HistoryOk(s) }

  lemma InitialInv(workers: int, buffer: int, now: int)
    ensures Inv(Initial(workers, buffer, now))
  {
    var s := Initial(workers, buffer, now);
    forall id: nat
      ensures Places(s, id) == 0
    {
      CountNone(s.workers, WorkerTicket, id);
    }
  }

  // ---------- accounting ----------

  lemma AdmitAccounted(s: State, name: string)
    requires Accounted(s)
    ensures Accounted(After(s, Admit(name)))
  {
    var s' := After(s, Admit(name));
    if s' != s {
      var x := s'.senders[|s.senders|];
      forall id: nat
        ensures Places(s', id) == Places(s, id)
        ensures Count(s'.senders, NewTicket, id) == Count(s.senders, NewTicket, id) + One(id == s.nextId)
      {
        CountAppend(s.senders, x, RetryTicket, id);
        CountAppend(s.senders, x, NewTicket, id);
      }
    }
  }

  // What a send does to one ticket
  lemma SendMoves(s: State, i: nat, id: nat)
    requires Accounted(s) && Enabled(s, Send(i))
    ensures var s' := After(s, Send(i));
      && Places(s', id) == One(id in s'.accepted)
      && Count(s'.senders, NewTicket, id) + One(id in s'.accepted)
         <= Count(s.senders, NewTicket, id) + One(id in s.accepted)
  {
    hide Count;
    var x := s.senders[i];
    CountCovers(s.senders, i, NewTicket);
    CountCovers(s.senders, i, RetryTicket);
    assert Places(s, id) == One(id in s.accepted);
    assert Places(s, x.task.id) == One(x.task.id in s.accepted);
    assert Count(s.senders, NewTicket, x.task.id) + One(x.task.id in s.accepted) <= 1;
    CountRemove(s.senders, i, RetryTicket, id);
    CountRemove(s.senders, i, NewTicket, id);
    CountAppend(s.buffer, x.task, TaskTicket, id);
  }

  lemma SendAccounted(s: State, i: nat)
    requires Accounted(s) && Enabled(s, Send(i))
    ensures Accounted(After(s, Send(i)))
  {
    hide Count, Places;
    forall id: nat
      ensures Places(After(s, Send(i)), id) == One(id in After(s, Send(i)).accepted)
      ensures Count(After(s, Send(i)).senders, NewTicket, id) + One(id in After(s, Send(i)).accepted)
        <= Count(s.senders, NewTicket, id) + One(id in s.accepted)
    {
      SendMoves(s, i, id);
    }
  }

  lemma TakeAccounted(s: State, w: nat)
    requires Accounted(s) && Enabled(s, Take(w))
    ensures Accounted(After(s, Take(w)))
  {
    var s' := After(s, Take(w));
    forall id: nat
      ensures Places(s', id) == Places(s, id)
    {
      CountUpdate(s.workers, w, s'.workers[w], WorkerTicket, id);
    }
  }

  // A worker's step moves at most its own task.
  lemma WorkerAccounted(s: State, s': State, w: nat, ticket: int)
    requires Accounted(s) && w < |s.workers| && w < |s'.workers| && s'.workers == s.workers[w := s'.workers[w]]
    requires WorkerTicket(s.workers[w]) == ticket
    requires s'.buffer == s.buffer && s'.senders == s.senders && s'.accepted == s.accepted
    requires s'.capacity == s.capacity && s'.nextId == s.nextId
    requires forall id: nat :: (
      One(WorkerTicket(s'.workers[w]) == id) + Count(s'.timers, TimerTicket, id) + s'.done[id] + s'.dropped[id]
      == One(ticket == id) + Count(s.timers, TimerTicket, id) + s.done[id] + s.dropped[id])
    ensures Accounted(s')
  {
    forall id: nat
      ensures Places(s', id) == Places(s, id)
    {
      CountUpdate(s.workers, w, s'.workers[w], WorkerTicket, id);
    }
  }

  lemma BeginAccounted(s: State, w: nat)
    requires Accounted(s) && Enabled(s, Begin(w))
    ensures Accounted(After(s, Begin(w)))
  {
    hide Accounted;
    WorkerAccounted(s, After(s, Begin(w)), w, WorkerTicket(s.workers[w]));
  }

  lemma FinishAccounted(s: State, w: nat, outcome: Outcome)
    requires Accounted(s) && Enabled(s, Finish(w, outcome))
    ensures Accounted(After(s, Finish(w, outcome)))
  {
    hide Accounted;
    var s' := After(s, Finish(w, outcome));
    if |s'.timers| > |s.timers| {
      forall id: nat
        ensures Count(s'.timers, TimerTicket, id)
             == Count(s.timers, TimerTicket, id) + One(s.workers[w].task.id == id)
      {
        CountAppend(s.timers, s'.timers[|s.timers|], TimerTicket, id);
      }
    }
    WorkerAccounted(s, s', w, WorkerTicket(s.workers[w]));
  }

  lemma ExitAccounted(s: State, w: nat)
    requires Accounted(s) && Enabled(s, Exit(w))
    ensures Accounted(After(s, Exit(w)))
  {
    hide Accounted;
    WorkerAccounted(s, After(s, Exit(w)), w, -1);
  }

  lemma FireAccounted(s: State, i: nat)
    requires Accounted(s) && Enabled(s, Fire(i))
    ensures Accounted(After(s, Fire(i)))
  {
    var s' := After(s, Fire(i));
    var x := Sender(s.timers[i].task, true);
    forall id: nat
      ensures Places(s', id) == Places(s, id)
      ensures Count(s'.senders, NewTicket, id) == Count(s.senders, NewTicket, id)
    {
      CountRemove(s.timers, i, TimerTicket, id);
      CountAppend(s.senders, x, RetryTicket, id);
      CountAppend(s.senders, x, NewTicket, id);
    }
  }

  lemma StepAccounted(s: State, e: Event)
    requires Accounted(s) && Enabled(s, e)
    ensures Accounted(After(s, e))
  {
    match e {
      case Admit(name) => AdmitAccounted(s, name);
      case Send(i) => SendAccounted(s, i);
      case Take(w) => TakeAccounted(s, w);
      case Fire(i) => FireAccounted(s, i);
      case Begin(w) => BeginAccounted(s, w);
      case Finish(w, outcome) => FinishAccounted(s, w, outcome);
      case Exit(w) => ExitAccounted(s, w);
      case _ =>
        var s' := After(s, e);
        assert forall id: nat :: Places(s', id) == Places(s, id);
    }
  }

  // ---------- tasks and history ----------

  // No other place holds the task a worker holds.
  lemma OthersDiffer(s: State, w: nat)
    requires Accounted(s) && w < |s.workers| && (s.workers[w].Holding? || s.workers[w].Running?)
    ensures var id := s.workers[w].task.id;
      && (forall t :: t in s.buffer ==> t.id != id)
      && (forall k :: 0 <= k < |s.workers| && k != w && (s.workers[k].Holding? || s.workers[k].Running?)
            ==> s.workers[k].task.id != id)
      && (forall t :: t in s.timers ==> t.task.id != id)
      && (forall x :: x in s.senders ==> x.task.id != id)
  {
    var id := s.workers[w].task.id;
    assert Places(s, id) == One(id in s.accepted);
    CountCovers(s.workers, w, WorkerTicket);
    forall t | t in s.buffer
      ensures t.id != id
    {
      var k :| 0 <= k < |s.buffer| && s.buffer[k] == t;
      CountCovers(s.buffer, k, TaskTicket);
    }
    forall t | t in s.timers
      ensures t.task.id != id
    {
      var k :| 0 <= k < |s.timers| && s.timers[k] == t;
      CountCovers(s.timers, k, TimerTicket);
    }
    forall x | x in s.senders
      ensures x.task.id != id
    {
      var k :| 0 <= k < |s.senders| && s.senders[k] == x;
      CountCovers(s.senders, k, RetryTicket);
      CountCovers(s.senders, k, NewTicket);
    }
  }

  lemma {:induction false} RunsOfNobody(runs: seq<HandlerRun>, id: nat)
    requires forall r :: r in runs ==> r.id != id
    ensures RunsOf(runs, id) == 0
  {
    if runs != [] {
      RunsOfNobody(runs[..|runs| - 1], id);
    }
  }

  // A task is as it was when its stamp and its runs are unchanged.
  ghost predicate SameRecords(s: State, s': State) {
    && s'.runs == s.runs && s'.peakRetries >= s.peakRetries
    && forall id :: id in s.stamps ==> id in s'.stamps && s'.stamps[id] == s.stamps[id]
  }

  lemma AdmitTasks(s: State, name: string)
    requires Inv(s)
    ensures TasksOk(After(s, Admit(name))) && HistoryOk(After(s, Admit(name)))
  {
    hide Accounted, RunsOf;
    var s' := After(s, Admit(name));
    if s' != s {
      RunsOfNobody(s.runs, s.nextId);
      assert SameRecords(s, s');
      assert forall t, b :: TaskOk(s, t, b) ==> TaskOk(s', t, b);
      assert forall w :: WorkerOk(s, w) ==> WorkerOk(s', w);
    }
  }

  lemma SendTasks(s: State, i: nat)
    requires Inv(s) && Enabled(s, Send(i))
    ensures TasksOk(After(s, Send(i))) && HistoryOk(After(s, Send(i)))
  {
    hide Accounted, RunsOf;
    var s' := After(s, Send(i));
    assert s.senders[i] in s.senders;
    assert forall x :: x in s'.senders ==> x in s.senders;
    assert forall t, b :: TaskOk(s, t, b) ==> TaskOk(s', t, b);
    forall w | w in s'.workers
      ensures WorkerOk(s', w)
    {
      assert WorkerOk(s, w);
    }
    assert s'.sent == s'.taken + s'.buffer;
  }

  lemma TakeTasks(s: State, w: nat)
    requires Inv(s) && Enabled(s, Take(w))
    ensures TasksOk(After(s, Take(w))) && HistoryOk(After(s, Take(w)))
  {
    hide Accounted, RunsOf;
    var s' := After(s, Take(w));
    assert s.buffer[0] in s.buffer;
    assert forall t, b :: TaskOk(s, t, b) ==> TaskOk(s', t, b);
    forall x | x in s'.workers
      ensures WorkerOk(s', x)
    {
      if x != s'.workers[w] {
        assert x in s.workers && WorkerOk(s, x);
      }
    }
    assert s.buffer == [s.buffer[0]] + s.buffer[1..];
    assert s'.sent == s'.taken + s'.buffer;
  }

  lemma BeginTasks(s: State, w: nat)
    requires Inv(s) && Enabled(s, Begin(w))
    ensures TasksOk(After(s, Begin(w))) && HistoryOk(After(s, Begin(w)))
  {
    hide Accounted, RunsOf;
    var s' := After(s, Begin(w));
    var t := s.workers[w].task;
    assert s.workers[w] in s.workers && WorkerOk(s, s.workers[w]);
    OthersDiffer(s, w);
    forall id: nat
      ensures RunsOf(s'.runs, id) == RunsOf(s.runs, id) + One(s'.runs != s.runs && id == t.id)
    {
      if s'.runs != s.runs {
        RunsOfSnoc(s.runs, s'.runs[|s.runs|], id);
      }
    }
    forall x, b | TaskOk(s, x, b) && x.id != t.id
      ensures TaskOk(s', x, b)
    {
    }
    forall k | 0 <= k < |s'.workers|
      ensures WorkerOk(s', s'.workers[k])
    {
      if k != w {
        assert s.workers[k] in s.workers && WorkerOk(s, s.workers[k]);
      }
    }
    assert t.enqueuedAt == s.stamps[t.id];
  }

  lemma RunsOfSnoc(runs: seq<HandlerRun>, r: HandlerRun, id: nat)
    ensures RunsOf(runs + [r], id) == RunsOf(runs, id) + One(r.id == id)
  {
    assert (runs + [r])[..|runs|] == runs;
  }

  lemma FinishTasks(s: State, w: nat, outcome: Outcome)
    requires Inv(s) && Enabled(s, Finish(w, outcome))
    ensures TasksOk(After(s, Finish(w, outcome))) && HistoryOk(After(s, Finish(w, outcome)))
  {
    hide Accounted, RunsOf;
    var s' := After(s, Finish(w, outcome));
    assert s.workers[w] in s.workers && WorkerOk(s, s.workers[w]);
    assert forall t, b :: TaskOk(s, t, b) ==> TaskOk(s', t, b);
    forall x | x in s'.workers
      ensures WorkerOk(s', x)
    {
      if x != Idle {
        assert x in s.workers && WorkerOk(s, x);
      }
    }
  }

  lemma FireTasks(s: State, i: nat)
    requires Inv(s) && Enabled(s, Fire(i))
    ensures TasksOk(After(s, Fire(i))) && HistoryOk(After(s, Fire(i)))
  {
    hide Accounted, RunsOf;
    var s' := After(s, Fire(i));
    assert s.timers[i] in s.timers;
    assert forall t :: t in s'.timers ==> t in s.timers;
    assert forall t, b :: TaskOk(s, t, b) ==> TaskOk(s', t, b);
    assert forall w :: WorkerOk(s, w) ==> WorkerOk(s', w);
  }

  lemma OtherTasks(s: State, e: Event)
    requires Inv(s) && Enabled(s, e)
    requires e.Register? || e.SetMaxRetries? || e.SetMaxAge? || e.Tick? || e.Exit? || e.Close?
    ensures TasksOk(After(s, e)) && HistoryOk(After(s, e))
  {
    hide Accounted, RunsOf;
    var s' := After(s, e);
    assert forall t, b :: TaskOk(s, t, b) ==> TaskOk(s', t, b);
    forall x | x in s'.workers
      ensures WorkerOk(s', x)
    {
      if x != Exited {
        assert x in s.workers && WorkerOk(s, x);
      } else if x in s.workers {
        assert WorkerOk(s, x);
      }
    }
  }

  lemma StepInv(s: State, e: Event)
    requires Inv(s) && Enabled(s, e)
    ensures Inv(After(s, e))
  {
    hide Accounted, TasksOk, HistoryOk, After;
    StepAccounted(s, e);
    match e {
      case Admit(name) => AdmitTasks(s, name);
      case Send(i) => SendTasks(s, i);
      case Take(w) => TakeTasks(s, w);
      case Begin(w) => BeginTasks(s, w);
      case Finish(w, outcome) => FinishTasks(s, w, outcome);
      case Fire(i) => FireTasks(s, i);
      case _ => OtherTasks(s, e);
    }
  }

  lemma {:induction false} RunInv(s: State, events: seq<Event>)
    requires Inv(s) && Possible(s, events)
    ensures Inv(Run(s, events))
    decreases |events|
  {
    hide Inv, After;
    if events != [] {
      StepInv(s, events[0]);
      RunInv(After(s, events[0]), events[1..]);
    }
  }

  // ---------- the main results ----------

  // A queue whose retry limit was set before any task came in
  function Started(workers: int, buffer: int, now: int, maxRetries: int): State {
    Initial(workers, buffer, now).(maxRetries := maxRetries, peakRetries := maxRetries)
  }

  predicate FixedRetries(events: seq<Event>) { forall e :: e in events ==> !e.SetMaxRetries? }

  lemma StartedInv(workers: int, buffer: int, now: int, maxRetries: int)
    ensures Inv(Started(workers, buffer, now, maxRetries))
  {
    InitialInv(workers, buffer, now);
    var s := Initial(workers, buffer, now);
    var s' := Started(workers, buffer, now, maxRetries);
    forall id: nat
      ensures Places(s', id) == Places(s, id)
    {
    }
  }

  lemma {:induction false} RunKeeps(s: State, events: seq<Event>)
    requires Possible(s, events)
    ensures Run(s, events).capacity == s.capacity && |Run(s, events).workers| == |s.workers|
    ensures FixedRetries(events) ==> Run(s, events).peakRetries == s.peakRetries
    decreases |events|
  {
    if events != [] {
      assert events[0] in events;
      RunKeeps(After(s, events[0]), events[1..]);
    }
  }

  // Over every run with a fixed retry limit: an accepted task is in exactly one of buffer, worker, retry
  // timer, retry in flight, done and dropped; the buffer stays within its capacity and delivers in the order
  // of the sends; and a handler runs at most max(1, maxRetries) times for a task.
  lemma QueueConserves(workers: int, buffer: int, now: int, maxRetries: int, events: seq<Event>)
    requires Possible(Started(workers, buffer, now, maxRetries), events) && FixedRetries(events)
    ensures var s := Run(Started(workers, buffer, now, maxRetries), events);
      && (forall id: nat :: Places(s, id) == One(id in s.accepted))
      && |s.buffer| <= s.capacity == (if buffer <= 0 then 1024 else buffer)
      && s.sent == s.taken + s.buffer
      && (forall id: nat :: RunsOf(s.runs, id) <= Max(1, maxRetries))
  {
    hide Places, After;
    var s0 := Started(workers, buffer, now, maxRetries);
    StartedInv(workers, buffer, now, maxRetries);
    RunInv(s0, events);
    RunKeeps(s0, events);
  }

  // The time stamped by the first Enqueue survives every retry, and the handler is never called on a task
  // that is older than the age limit in force at the call.
  lemma StampSurvives(s0: State, events: seq<Event>)
    requires Inv(s0) && Possible(s0, events)
    ensures var s := Run(s0, events);
      && (forall id :: id in s0.stamps ==> id in s.stamps && s.stamps[id] == s0.stamps[id])
      && (forall t :: t in s.buffer ==> t.id in s.stamps && s.stamps[t.id] == t.enqueuedAt)
      && (forall t :: t in s.timers ==> t.task.id in s.stamps && s.stamps[t.task.id] == t.task.enqueuedAt)
      && (forall r :: r in s.runs ==> r.id in s.stamps && InTime(r, s.stamps[r.id]))
    decreases |events|
  {
    hide After, Accounted;
    RunInv(s0, events);
    if events != [] {
      StepInv(s0, events[0]);
      StampsStay(s0, events[0]);
      StampSurvives(After(s0, events[0]), events[1..]);
    }
  }

  lemma StampsStay(s: State, e: Event)
    requires Inv(s) && Enabled(s, e)
    ensures forall id :: id in s.stamps ==> id in After(s, e).stamps && After(s, e).stamps[id] == s.stamps[id]
  {
    hide Accounted, TasksOk;
  }

  // ---------- what is handled, and what is dropped ----------

  // A worker calls the handler of the task it took exactly when the task is in time, by the limit and the clock
  // of the moment, and has a handler; otherwise it drops the task.
  lemma BeginHandlesIff(s: State, w: nat)
    requires Enabled(s, Begin(w))
    ensures var t, after := s.workers[w].task, After(s, Begin(w));
      var late := s.maxAge > 0 && t.enqueuedAt != 0 && s.now - t.enqueuedAt > s.maxAge;
      && (after.workers[w].Running? <==> !late && t.name in s.handlers)
      && (after.workers[w].Running? ==>
            && after.workers[w].task == t && after.workers[w].maxRetries == s.maxRetries
            && after.runs == s.runs + [HandlerRun(t.id, s.now, s.maxAge)] && after.dropped == s.dropped)
      && (!after.workers[w].Running? ==>
            after.workers[w].Idle? && after.runs == s.runs && after.dropped == s.dropped + multiset{t.id})
  {
  }

  // A call that succeeds ends the task; one that fails is retried after as many seconds as it has failed, unless
  // the tries are used up; a panic drops the task.
  lemma FinishRetriesIff(s: State, w: nat, outcome: Outcome)
    requires Enabled(s, Finish(w, outcome))
    ensures var t, tries, after := s.workers[w].task, s.workers[w].maxRetries, After(s, Finish(w, outcome));
      var again := outcome == Failed && t.attempt + 1 < tries;
      && after.workers[w].Idle?
      && after.done == (if outcome == Succeeded then s.done + multiset{t.id} else s.done)
      && after.timers == (if again
                          then s.timers + [Timer(t.(attempt := t.attempt + 1), s.now + (t.attempt + 1) * 1_000_000_000)]
                          else s.timers)
      && after.dropped == (if outcome == Panicked || (outcome == Failed && !again) then s.dropped + multiset{t.id}
                           else s.dropped)
  {
  }

  // Why an event drops a task: too old, no handler, a panic, no tries left, or refused when it was sent again
  ghost predicate Cause(s: State, e: Event, id: nat)
    requires Enabled(s, e)
  {
    match e
    case Begin(w) =>
      var t := s.workers[w].task;
      t.id == id && (t.name !in s.handlers || (s.maxAge > 0 && t.enqueuedAt != 0 && s.now - t.enqueuedAt > s.maxAge))
    case Finish(w, outcome) =>
      var t := s.workers[w].task;
      t.id == id && (outcome == Panicked || (outcome == Failed && t.attempt + 1 >= s.workers[w].maxRetries))
    case Fire(i) => s.timers[i].task.id == id && s.closed
    case Send(i) => s.senders[i].task.id == id && s.senders[i].retry && (s.closed || |s.buffer| >= s.capacity)
    case _ => false
  }

  lemma DroppedIff(s: State, e: Event, id: nat)
    requires Enabled(s, e)
    ensures After(s, e).dropped[id] == s.dropped[id] + One(Cause(s, e, id))
  {
  }

  // A cause at some event of the run
  ghost predicate Caused(s: State, events: seq<Event>, id: nat)
    requires Possible(s, events)
    decreases |events|
  {
    events != [] && (Cause(s, events[0], id) || Caused(After(s, events[0]), events[1..], id))
  }

  // Over every run, a task is dropped if and only if some event of the run had cause to.
  lemma {:induction false} DroppedWithCause(s: State, events: seq<Event>, id: nat)
    requires Possible(s, events)
    ensures Run(s, events).dropped[id] > s.dropped[id] <==> Caused(s, events, id)
    ensures Run(s, events).dropped[id] >= s.dropped[id]
    decreases |events|
  {
    hide After, Cause;
    if events != [] {
      DroppedIff(s, events[0], id);
      DroppedWithCause(After(s, events[0]), events[1..], id);
    }
  }

  // ---------- Close ----------

  predicate IsWorkerStep(e: Event) { e.Take? || e.Begin? || e.Finish? || e.Exit? }

  function Weight(w: Worker): nat {
    match w
    case Idle => 1
    case Holding(_) => 3
    case Running(_, _) => 2
    case Exited => 0
  }

  function WorkerWeight(ws: seq<Worker>): nat {
    if ws == [] then 0 else WorkerWeight(ws[..|ws| - 1]) + Weight(ws[|ws| - 1])
  }

  // How many worker steps are left at most
  function Left(s: State): nat { WorkerWeight(s.workers) + 3 * |s.buffer| }

  lemma {:induction false} WeightUpdate(ws: seq<Worker>, w: nat, x: Worker)
    requires w < |ws|
    ensures WorkerWeight(ws[w := x]) + Weight(ws[w]) == WorkerWeight(ws) + Weight(x)
  {
    var n := |ws| - 1;
    if w == n {
      assert ws[w := x][..n] == ws[..n];
    } else {
      assert ws[w := x][..n] == ws[..n][w := x];
      WeightUpdate(ws[..n], w, x);
    }
  }

  function WorkerSteps(events: seq<Event>): nat {
    if events == [] then 0 else One(IsWorkerStep(events[0])) + WorkerSteps(events[1..])
  }

  lemma ClosedStep(s: State, e: Event)
    requires s.closed && Enabled(s, e)
    ensures After(s, e).closed && Left(After(s, e)) + One(IsWorkerStep(e)) <= Left(s)
  {
    var s' := After(s, e);
    if IsWorkerStep(e) {
      WeightUpdate(s.workers, e.worker, s'.workers[e.worker]);
    }
  }

  // After Close the workers take a bounded number of steps, whatever else happens meanwhile.
  lemma {:induction false} DrainTerminates(s: State, events: seq<Event>)
    requires s.closed && Possible(s, events)
    ensures Run(s, events).closed && WorkerSteps(events) + Left(Run(s, events)) <= Left(s)
    decreases |events|
  {
    hide After, Left;
    if events != [] {
      ClosedStep(s, events[0]);
      DrainTerminates(After(s, events[0]), events[1..]);
    }
  }

  // Until every worker has left, some worker can take a step.
  lemma DrainProgresses(s: State, w: nat)
    requires s.closed && w < |s.workers| && !s.workers[w].Exited?
    ensures exists e :: IsWorkerStep(e) && Enabled(s, e)
  {
    match s.workers[w]
    case Holding(t) => assert Enabled(s, Begin(w));
    case Running(t, _) => assert Enabled(s, Finish(w, Succeeded));
    case Idle =>
      if s.buffer != [] {
        assert Enabled(s, Take(w));
      } else {
        assert Enabled(s, Exit(w));
      }
  }

  predicate Drained(s: State) { forall w :: w in s.workers ==> w.Exited? }

  // When Close returns, buffer and workers are empty: an accepted task is done, dropped, or still on its
  // retry path (waiting for its timer, or between the timer and its send).
  lemma DrainedIsEmpty(s: State, id: nat)
    requires Inv(s) && Drained(s) && s.workers != [] && id in s.accepted
    ensures s.buffer == []
    ensures One(Count(s.timers, TimerTicket, id) > 0) + One(Count(s.senders, RetryTicket, id) > 0)
          + s.done[id] + s.dropped[id] == 1
  {
    assert s.workers[0] in s.workers && WorkerOk(s, s.workers[0]);
    CountNone(s.workers, WorkerTicket, id);
    assert Places(s, id) == One(id in s.accepted);
  }

  // ---------- the window between the check and the send ----------

  // From a closed queue a send can still panic exactly while a goroutine is between its check and its send.
  lemma SendMayPanicIff(s: State)
    requires s.closed
    ensures (exists events :: Possible(s, events) && Run(s, events).panics > s.panics) <==> s.senders != []
  {
    if s.senders != [] {
      var events := [Send(0)];
      assert events[1..] == [];
      assert Run(s, events) == After(s, Send(0));
      assert Possible(s, events) && Run(s, events).panics > s.panics;
    } else {
      forall events | Possible(s, events)
        ensures Run(s, events).panics == s.panics
      {
        NoSenderNoPanic(s, events);
      }
    }
  }

  lemma {:induction false} NoSenderNoPanic(s: State, events: seq<Event>)
    requires s.closed && s.senders == [] && Possible(s, events)
    ensures Run(s, events).panics == s.panics
    decreases |events|
  {
    if events != [] {
      NoSenderNoPanic(After(s, events[0]), events[1..]);
    }
  }

  // An open queue never panics.
  lemma OpenNeverPanics(s: State, e: Event)
    requires !s.closed && Enabled(s, e)
    ensures After(s, e).panics == s.panics
  {
  }

  // The interleaving from a new queue: the check passes, Close closes the channel, the send panics.
  lemma CloseBetweenCheckAndSend(workers: int, buffer: int, now: int, name: string)
    ensures var s := Initial(workers, buffer, now);
      var events := [Register(name), Admit(name), Close, Send(0)];
      Possible(s, events) && Run(s, events).panics == 1
  {
    var s := Initial(workers, buffer, now);
    var events := [Register(name), Admit(name), Close, Send(0)];
    assert events[1..][1..] == [Close, Send(0)] && [Close, Send(0)][1..] == [Send(0)];
    var s1 := After(s, Register(name));
    var s2 := After(s1, Admit(name));
    var s3 := After(s2, Close);
    assert |s2.senders| == 1;
    assert Possible(s3, [Send(0)]) && Run(s3, [Send(0)]).panics == 1 by {
      assert [Send(0)][1..] == [];
    }
    assert Possible(s2, [Close, Send(0)]) && Run(s2, [Close, Send(0)]) == Run(s3, [Send(0)]);
    assert Possible(s1, events[1..]) && Run(s1, events[1..]) == Run(s2, [Close, Send(0)]);
  }

  // ---------- the queue object ----------

  datatype Error = Accepted | QueueFull | QueueClosed | NoHandler | SendOnClosedChannel

  // The shared object. Each method is one or more of the events above, run without interruption; `world`
  // is the whole state machine, of which the object's fields are a part.
  class Queue {
    const capacity: nat
    var closed: bool
    var handlers: set<string>
    var maxRetries: int
    var maxAge: int
    var tasks: seq<Task>
    ghost var world: State

    ghost predicate Valid()
      reads this
    {
      && world.capacity == capacity && world.closed == closed && world.handlers == handlers
      && world.maxRetries == maxRetries && world.maxAge == maxAge && world.buffer == tasks
    }

    // New
    constructor (workers: int, buffer: int, ghost now: int)
      ensures Valid() && world == Initial(workers, buffer, now)
      ensures !closed && handlers == {} && tasks == [] && maxRetries == 3 && maxAge == 24 * 60 * 60 * 1_000_000_000
      ensures capacity == if buffer <= 0 then 1024 else buffer
      ensures |world.workers| == if workers <= 0 then 4 else workers
    {
      capacity := if buffer <= 0 then 1024 else buffer;
      closed, handlers, maxRetries, maxAge, tasks := false, {}, 3, 24 * 3600 * Second, [];
      world := Initial(workers, buffer, now);
    }

    method SetMaxRetries(n: int)
      requires Valid()
      modifies this
      ensures Valid() && world == After(old(world), Event.SetMaxRetries(n)) && maxRetries == n
    {
      maxRetries := n;
      world := After(world, Event.SetMaxRetries(n));
    }

    method SetMaxAge(d: int)
      requires Valid()
      modifies this
      ensures Valid() && world == After(old(world), Event.SetMaxAge(d)) && maxAge == d
    {
      maxAge := d;
      world := After(world, Event.SetMaxAge(d));
    }

    method Register(name: string)
      requires Valid()
      modifies this
      ensures Valid() && world == After(old(world), Event.Register(name)) && handlers == old(handlers) + {name}
    {
      handlers := handlers + {name};
      world := After(world, Event.Register(name));
    }

    // enqueueTask, for the goroutine `sender` of the world
    method EnqueueTask(t: Task, ghost sender: nat) returns (err: Error)
      requires Valid() && sender < |world.senders| && world.senders[sender].task == t
      modifies this
      ensures Valid() && world == After(old(world), Send(sender))
      ensures err == if old(closed) then SendOnClosedChannel
                     else if |old(tasks)| < capacity then Accepted else QueueFull
      ensures tasks == if err == Accepted then old(tasks) + [t] else old(tasks)
    {
      if closed {
        err := SendOnClosedChannel;
      } else if |tasks| < capacity {
        tasks := tasks + [t];
        err := Accepted;
      } else {
        err := QueueFull;
      }
      world := After(world, Send(sender));
    }

    // Enqueue. `id` and `now` are the ticket and the clock of the world.
    method Enqueue(name: string, id: nat, now: int) returns (err: Error)
      requires Valid() && id == world.nextId && now == world.now
      modifies this
      ensures Valid()
      ensures err == if old(world).closed then QueueClosed else if name !in old(world).handlers then NoHandler
                     else if |old(tasks)| < capacity then Accepted else QueueFull
      ensures tasks == if err == Accepted then old(tasks) + [Task(id, name, 0, now)] else old(tasks)
      ensures err == Accepted || err == QueueFull
          ==> world == After(After(old(world), Admit(name)), Send(|old(world).senders|))
      ensures err == QueueClosed || err == NoHandler ==> world == old(world)
    {
      if closed {
        return QueueClosed;
      }
      if name !in handlers {
        return NoHandler;
      }
      world := After(world, Admit(name));
      err := EnqueueTask(Task(id, name, 0, now), |world.senders| - 1);
    }

    // The receive of a worker's loop
    method Receive(ghost w: nat) returns (t: Task)
      requires Valid() && Enabled(world, Take(w))
      modifies this
      ensures Valid() && world == After(old(world), Take(w))
      ensures old(tasks) == [t] + tasks
    {
      t := tasks[0];
      tasks := tasks[1..];
      world := After(world, Take(w));
    }

    // process, for a handler call that ends with `outcome`; the result is the backoff of a retry, 0 for none
    method Process(t: Task, now: int, outcome: Outcome, ghost w: nat) returns (called: bool, backoff: int)
      requires Valid() && Enabled(world, Begin(w)) && world.workers[w].task == t && world.now == now
      modifies this
      ensures Valid()
      ensures called <==> !(old(maxAge) > 0 && t.enqueuedAt != 0 && now - t.enqueuedAt > old(maxAge))
                          && t.name in old(handlers)
      ensures world == if called then After(After(old(world), Begin(w)), Finish(w, outcome))
                       else After(old(world), Begin(w))
      ensures backoff > 0 <==> called && outcome.Failed? && t.attempt + 1 < old(world).maxRetries
      ensures backoff > 0 ==> (
        && backoff == (t.attempt + 1) * Second
        && world.timers == old(world).timers + [Timer(t.(attempt := t.attempt + 1), now + backoff)])
    {
      called, backoff := false, 0;
      ghost var begun := After(world, Begin(w));
      if maxAge > 0 && t.enqueuedAt != 0 && now - t.enqueuedAt > maxAge {
        world := begun;
        return;
      }
      if t.name !in handlers {
        world := begun;
        return;
      }
      called := true;
      world := After(begun, Finish(w, outcome));
      if outcome.Succeeded? || outcome.Panicked? {
        return;
      }
      if t.attempt + 1 >= maxRetries {
        return;
      }
      var attempt := t.attempt + 1;
      backoff := attempt * Second;
    }

    // requeue, when the timer `i` of the world fires
    method Requeue(t: Task, ghost i: nat) returns (kept: bool)
      requires Valid() && Enabled(world, Fire(i)) && world.timers[i].task == t
      modifies this
      ensures Valid()
      ensures kept <==> !old(world).closed && |old(tasks)| < capacity
      ensures tasks == if kept then old(tasks) + [t] else old(tasks)
      ensures world == if old(world).closed then After(old(world), Fire(i))
                       else After(After(old(world), Fire(i)), Send(|old(world).senders|))
    {
      world := After(world, Fire(i));
      if closed {
        return false;
      }
      var err := EnqueueTask(t, |world.senders| - 1);
      kept := err == Accepted;
    }

    // Close, up to its wait for the workers
    method Close()
      requires Valid()
      modifies this
      ensures Valid() && closed && tasks == old(tasks)
      ensures world == After(old(world), Event.Close)
    {
      if closed {
        return;
      }
      closed := true;
      world := After(world, Event.Close);
    }
  }
}
