// Tasks running side by side over one idempotency store, in ordered mode: the
// lock of each task's key is looked up, and the task waits for it and holds it
// from the duplicate check to the broker settlement.
//
// Any interleaving of the tasks' steps is a run. Tasks of one message take
// their steps from the program of process_message; of the key tasks of ordered
// batches, which use the same locks, any steps are allowed.
module KeyedConcurrency {
  import opened ConsumerTypes
  import opened Settlement

  type TaskId = nat
  type LockId = nat

  datatype Phase = Spawned | Waiting(lock: LockId) | Holding(lock: LockId) | Done

  // One message, or the group of one key out of an ordered batch.
  datatype Work = One(message: Message) | Group(messages: seq<Message>) {
    function Messages(): seq<Message> { if One? then [message] else messages }

    ghost predicate OfOneKey() { OneKey(Messages()) }

    function Key(): string { if Messages() == [] then "" else OrderedKey(Messages()[0]) }
  }

  datatype Task = Task(work: Work, phase: Phase, history: seq<Event>)

  datatype Stamped = Stamped(task: TaskId, event: Event)

  datatype State = State(
    tasks: map<TaskId, Task>,
    keyLocks: map<string, LockId>, // the lock made for each ordered key
    holders: map<LockId, TaskId>,  // the locks held now
    consumed: set<string>,         // the idempotency store
    trace: seq<Stamped>)           // everything the tasks did, in order

  function Key(s: State, t: TaskId): string
    requires t in s.tasks
  {
    s.tasks[t].work.Key()
  }

  // ---- the steps ----

  ghost predicate Init(s: State) {
    s.tasks == map[] && s.keyLocks == map[] && s.holders == map[] && s.trace == []
  }

  ghost predicate Spawn(s: State, s': State, t: TaskId, work: Work) {
    && t !in s.tasks && work.OfOneKey()
    && s' == s.(tasks := s.tasks[t := Task(work, Spawned, [])])
  }

  // Looks the key's lock up, making it when there is none.
  ghost predicate LookUp(s: State, s': State, t: TaskId, lock: LockId) {
    && t in s.tasks && s.tasks[t].phase == Spawned
    && (if Key(s, t) in s.keyLocks then lock == s.keyLocks[Key(s, t)] else lock !in s.keyLocks.Values)
    && s' == s.(tasks := s.tasks[t := s.tasks[t].(phase := Waiting(lock))],
                keyLocks := s.keyLocks[Key(s, t) := lock])
  }

  ghost predicate Acquire(s: State, s': State, t: TaskId) {
    && t in s.tasks && s.tasks[t].phase.Waiting?
    && var lock := s.tasks[t].phase.lock;
    && lock !in s.holders
    && s' == s.(tasks := s.tasks[t := s.tasks[t].(phase := Holding(lock))],
                holders := s.holders[lock := t])
  }

  // How the store answers: truthfully about what was recorded, unless it
  // fails; a failed recording may or may not have taken effect.
  ghost predicate StoreAnswers(before: set<string>, after: set<string>, op: Op, reply: Reply) {
    match op
    case Check(key) => after == before && (reply.Seen? ==> reply.duplicate == (key in before))
    case Remember(key) =>
      if reply.Fine? then after == before + {key} else after == before || after == before + {key}
    case _ => after == before
  }

  // One operation of the program, atomic.
  ghost predicate Operate(s: State, s': State, t: TaskId, cfg: Config, e: Event) {
    && t in s.tasks && s.tasks[t].phase.Holding?
    && (s.tasks[t].work.One? ==> Next(Single(cfg, s.tasks[t].work.message), s.tasks[t].history) == Do(e.op))
    && Fits(e.op, e.reply)
    && StoreAnswers(s.consumed, s'.consumed, e.op, e.reply)
    && s' == s.(tasks := s.tasks[t := s.tasks[t].(history := s.tasks[t].history + [e])],
                consumed := s'.consumed,
                trace := s.trace + [Stamped(t, e)])
  }

  // The task ends, by returning or by panicking at any point; its guard is
  // dropped either way.
  ghost predicate End(s: State, s': State, t: TaskId) {
    && t in s.tasks && s.tasks[t].phase.Holding?
    && s' == s.(tasks := s.tasks[t := s.tasks[t].(phase := Done)],
                holders := s.holders - {s.tasks[t].phase.lock})
  }

  datatype Choice =
    | Spawning(work: Work)
    | LookingUp(lock: LockId)
    | Acquiring
    | Operating(e: Event)
    | Ending

  ghost predicate NextState(cfg: Config, s: State, s': State, t: TaskId, choice: Choice) {
    match choice
    case Spawning(work) => Spawn(s, s', t, work)
    case LookingUp(lock) => LookUp(s, s', t, lock)
    case Acquiring => Acquire(s, s', t)
    case Operating(e) => Operate(s, s', t, cfg, e)
    case Ending => End(s, s', t)
  }

  datatype Turn = Turn(task: TaskId, choice: Choice)

  // A run: the first state and, for each turn, the state it leads to.
  ghost predicate Run(cfg: Config, states: seq<State>, turns: seq<Turn>) {
    && |states| == |turns| + 1
    && Init(states[0])
    && forall i | 0 <= i < |turns| :: NextState(cfg, states[i], states[i + 1], turns[i].task, turns[i].choice)
  }

  // ---- the invariant ----

  // One lock per key, and each lock that is held is held by the task that
  // says so.
  ghost predicate LocksAgree(s: State) {
    && (forall k, k' | k in s.keyLocks && k' in s.keyLocks && s.keyLocks[k] == s.keyLocks[k'] :: k == k')
    && (forall t | t in s.tasks && (s.tasks[t].phase.Waiting? || s.tasks[t].phase.Holding?) ::
          Key(s, t) in s.keyLocks && s.tasks[t].phase.lock == s.keyLocks[Key(s, t)])
    && (forall t | t in s.tasks && s.tasks[t].phase.Holding? ::
          s.tasks[t].phase.lock in s.holders && s.holders[s.tasks[t].phase.lock] == t)
  }

  // Each task has the messages of one key; histories are of the program, and empty before the lock is held.
  ghost predicate HistoriesFollow(cfg: Config, s: State) {
    forall t | t in s.tasks :: HistoryFollows(cfg, s.tasks[t])
  }

  ghost predicate HistoryFollows(cfg: Config, task: Task) {
    && task.work.OfOneKey()
    && (task.work.One? ==> Follows(Single(cfg, task.work.message), task.history))
    && (task.phase.Spawned? || task.phase.Waiting? ==> task.history == [])
  }

  // What a task did, out of the whole trace.
  function Projection(trace: seq<Stamped>, t: TaskId): seq<Event> {
    if trace == [] then []
    else
      var last := trace[|trace| - 1];
      Projection(trace[..|trace| - 1], t) + (if last.task == t then [last.event] else [])
  }

  ghost predicate TraceIsOfTasks(s: State) {
    && (forall i | 0 <= i < |s.trace| :: s.trace[i].task in s.tasks)
    && (forall t | t in s.tasks :: Projection(s.trace, t) == s.tasks[t].history)
  }

  ghost predicate SameKey(s: State, t: TaskId, u: TaskId) {
    t in s.tasks && u in s.tasks && Key(s, t) == Key(s, u)
  }

  // Between two events of one task there is none of another task with the
  // same ordered key.
  ghost predicate NeverOverlap(s: State) {
    forall i, j, k | 0 <= i < j < k < |s.trace| && s.trace[i].task == s.trace[k].task
                     && SameKey(s, s.trace[i].task, s.trace[j].task) ::
      s.trace[j].task == s.trace[i].task
  }

  // A task that holds its lock has not been interrupted so far.
  ghost predicate HoldersUninterrupted(s: State) {
    forall i, j | 0 <= i < j < |s.trace| && s.trace[i].task in s.tasks
                  && s.tasks[s.trace[i].task].phase.Holding? && SameKey(s, s.trace[i].task, s.trace[j].task) ::
      s.trace[j].task == s.trace[i].task
  }

  // The task is of one message; its handler answered Ack and the store
  // recorded the message.
  ghost predicate Recorded(s: State, t: TaskId) {
    && t in s.tasks && s.tasks[t].work.One?
    && Fulfilled(s.tasks[t].history, Remember(IdempotencyKey(s.tasks[t].work.message)))
  }

  ghost predicate SameDelivery(s: State, t: TaskId, u: TaskId) {
    && SameKey(s, t, u) && s.tasks[t].work.One? && s.tasks[u].work.One?
    && IdempotencyKey(s.tasks[t].work.message) == IdempotencyKey(s.tasks[u].work.message)
  }

  // At most one of the tasks with the same ordered key and idempotency key
  // has its message recorded.
  ghost predicate RecordedOnce(s: State) {
    forall t, u | Recorded(s, t) && Recorded(s, u) && SameDelivery(s, t, u) :: t == u
  }

  ghost predicate RecordsConsumed(s: State) {
    forall t | Recorded(s, t) :: IdempotencyKey(s.tasks[t].work.message) in s.consumed
  }

  // A task past its duplicate check, still holding its lock: no other delivery
  // of its message has been recorded.
  ghost predicate ChecksStand(s: State) {
    forall t, u | t in s.tasks && s.tasks[t].phase.Holding? && |s.tasks[t].history| > 0
                  && s.tasks[t].history[0].reply == Seen(false)
                  && Recorded(s, u) && SameDelivery(s, t, u) :: t == u
  }

  ghost predicate Inv(cfg: Config, s: State) {
    && LocksAgree(s)
    && HistoriesFollow(cfg, s)
    && TraceIsOfTasks(s)
    && NeverOverlap(s)
    && HoldersUninterrupted(s)
    && (cfg.store ==> RecordedOnce(s) && RecordsConsumed(s) && ChecksStand(s))
  }

  // Mutual exclusion: one holder per ordered key.
  lemma OneHolder(s: State, t: TaskId, u: TaskId)
    requires LocksAgree(s) && SameKey(s, t, u)
    requires s.tasks[t].phase.Holding? && s.tasks[u].phase.Holding?
    ensures t == u
  {
  }

  // ---- the program, as seen by the store ----

  lemma PlanRemembers(cfg: Config, m: Message, v: Verdict, h: seq<Event>, op: Op)
    requires Follows(Carry(VerdictPlan(cfg, PendingOf(cfg, m), v)), h)
    requires op.Remember?
    requires op in VerdictPlan(cfg, PendingOf(cfg, m), v).ops
    ensures op.key == IdempotencyKey(m)
  {
  }

  // A recording comes after a check that found nothing.
  lemma RecordsAfterCheck(cfg: Config, m: Message, h: seq<Event>, op: Op)
    requires cfg.store && op.Remember?
    requires Follows(Single(cfg, m), h) && Next(Single(cfg, m), h) == Do(op)
    ensures op.key == IdempotencyKey(m) && |h| > 0 && h[0].reply == Seen(false)
  {
    SingleParts(cfg, m, h);
    if |h| > 1 && !Duplicate(cfg, h) {
      PlanRemembers(cfg, m, VerdictOf(h[1].reply), h[2..], op);
    }
  }

  // ---- steps of the locks only ----

  // Nothing happened but to the tasks' phases and the locks.
  ghost predicate Quiet(s: State, s': State) {
    && s'.trace == s.trace && s'.consumed == s.consumed
    && (forall t | t in s.tasks ::
          && t in s'.tasks
          && s'.tasks[t].work == s.tasks[t].work
          && s'.tasks[t].history == s.tasks[t].history)
    && (forall t | t in s'.tasks && (t !in s.tasks || !s.tasks[t].phase.Holding?) ::
          s'.tasks[t].phase.Done? ==> t in s.tasks && s.tasks[t].phase.Done?)
    && (forall t | t in s'.tasks && t !in s.tasks ::
          s'.tasks[t].work.OfOneKey() && s'.tasks[t].history == [] && s'.tasks[t].phase.Spawned?)
    && (forall t | t in s.tasks && s'.tasks[t].phase.Holding? && !s.tasks[t].phase.Holding? ::
          s.tasks[t].phase.Waiting?)
    && (forall t | t in s.tasks && (s'.tasks[t].phase.Spawned? || s'.tasks[t].phase.Waiting?) ::
          s.tasks[t].phase.Spawned? || s.tasks[t].phase.Waiting?)
  }

  lemma QuietKeepsHistories(cfg: Config, s: State, s': State)
    requires Quiet(s, s') && HistoriesFollow(cfg, s) && TraceIsOfTasks(s)
    ensures HistoriesFollow(cfg, s') && TraceIsOfTasks(s')
  {
    hide Follows;
    forall t | t in s'.tasks
      ensures HistoryFollows(cfg, s'.tasks[t])
      ensures Projection(s'.trace, t) == s'.tasks[t].history
    {
      if t !in s.tasks {
        if s'.tasks[t].work.One? { NothingFollows(cfg, s'.tasks[t].work.message); }
        UnseenProjection(s.trace, t);
      }
    }
  }

  lemma NothingFollows(cfg: Config, m: Message)
    ensures Follows(Single(cfg, m), [])
  {
  }

  lemma {:induction false} UnseenProjection(trace: seq<Stamped>, t: TaskId)
    requires forall i | 0 <= i < |trace| :: trace[i].task != t
    ensures Projection(trace, t) == []
  {
    if trace != [] { UnseenProjection(trace[..|trace| - 1], t); }
  }

  lemma {:induction false} SeenProjection(trace: seq<Stamped>, t: TaskId, i: nat)
    requires i < |trace| && trace[i].task == t
    ensures Projection(trace, t) != []
  {
    if i < |trace| - 1 { SeenProjection(trace[..|trace| - 1], t, i); }
  }

  lemma QuietKeepsOrder(cfg: Config, s: State, s': State)
    requires Quiet(s, s') && HistoriesFollow(cfg, s) && TraceIsOfTasks(s)
    requires NeverOverlap(s) && HoldersUninterrupted(s)
    ensures NeverOverlap(s') && HoldersUninterrupted(s')
  {
    hide Follows;
    forall i, j | 0 <= i < j < |s'.trace| && s'.trace[i].task in s'.tasks
                  && s'.tasks[s'.trace[i].task].phase.Holding? && SameKey(s', s'.trace[i].task, s'.trace[j].task)
      ensures s'.trace[j].task == s'.trace[i].task
    {
      var t := s.trace[i].task;
      SeenProjection(s.trace, t, i);
      assert s.tasks[t].phase.Holding? && SameKey(s, t, s.trace[j].task);
    }
  }

  lemma QuietKeepsRecords(cfg: Config, s: State, s': State)
    requires Quiet(s, s') && HistoriesFollow(cfg, s)
    requires RecordedOnce(s) && RecordsConsumed(s) && ChecksStand(s)
    ensures RecordedOnce(s') && RecordsConsumed(s') && ChecksStand(s')
  {
    hide Next, Follows;
    forall t | Recorded(s', t) ensures Recorded(s, t) {}
    hide Recorded;
    QuietRecords(s, s');
    forall t, u | t in s'.tasks && s'.tasks[t].phase.Holding? && |s'.tasks[t].history| > 0
                  && s'.tasks[t].history[0].reply == Seen(false)
                  && Recorded(s', u) && SameDelivery(s', t, u)
      ensures t == u
    {
      assert Recorded(s, u) && SameDelivery(s, t, u);
    }
  }

  lemma QuietRecords(s: State, s': State)
    requires Quiet(s, s')
    requires RecordedOnce(s) && RecordsConsumed(s) && ChecksStand(s)
    requires forall t | Recorded(s', t) :: Recorded(s, t)
    ensures RecordedOnce(s') && RecordsConsumed(s')
  {
    forall t, u | Recorded(s', t) && Recorded(s', u) && SameDelivery(s', t, u) ensures t == u {
      assert Recorded(s, t) && Recorded(s, u) && SameDelivery(s, t, u);
    }
  }

  lemma QuietKeepsInv(cfg: Config, s: State, s': State)
    requires Inv(cfg, s) && Quiet(s, s') && LocksAgree(s')
    ensures Inv(cfg, s')
  {
    hide HistoriesFollow, TraceIsOfTasks, NeverOverlap, HoldersUninterrupted, RecordedOnce, RecordsConsumed,
         ChecksStand, LocksAgree, Quiet;
    QuietKeepsHistories(cfg, s, s');
    QuietKeepsOrder(cfg, s, s');
    if cfg.store { QuietKeepsRecords(cfg, s, s'); }
  }

  lemma SpawnKeepsLocks(s: State, s': State, t: TaskId, work: Work)
    requires LocksAgree(s) && Spawn(s, s', t, work)
    ensures LocksAgree(s') && Quiet(s, s')
  {
  }

  lemma LookUpKeepsLocks(s: State, s': State, t: TaskId, lock: LockId)
    requires LocksAgree(s) && LookUp(s, s', t, lock)
    ensures LocksAgree(s') && Quiet(s, s')
  {
    forall k | k in s.keyLocks ensures s.keyLocks[k] in s.keyLocks.Values {}
  }

  lemma AcquireKeepsLocks(s: State, s': State, t: TaskId)
    requires LocksAgree(s) && Acquire(s, s', t)
    ensures LocksAgree(s') && Quiet(s, s')
  {
  }

  lemma EndKeepsLocks(s: State, s': State, t: TaskId)
    requires LocksAgree(s) && End(s, s', t)
    ensures LocksAgree(s') && Quiet(s, s')
  {
    forall u | u in s.tasks && u != t && s.tasks[u].phase.Holding?
      ensures s.tasks[u].phase.lock != s.tasks[t].phase.lock
    {
      assert s.holders[s.tasks[u].phase.lock] == u;
    }
  }

  // ---- an operation ----

  lemma OperateKeepsHistories(cfg: Config, s: State, s': State, t: TaskId, e: Event)
    requires LocksAgree(s) && HistoriesFollow(cfg, s) && TraceIsOfTasks(s) && Operate(s, s', t, cfg, e)
    ensures LocksAgree(s') && HistoriesFollow(cfg, s') && TraceIsOfTasks(s')
  {
    hide Follows;
    if s.tasks[t].work.One? { FollowsStep(Single(cfg, s.tasks[t].work.message), s.tasks[t].history, e); }
    assert s'.trace[..|s'.trace| - 1] == s.trace;
  }

  lemma OperateKeepsOrder(cfg: Config, s: State, s': State, t: TaskId, e: Event)
    requires LocksAgree(s) && TraceIsOfTasks(s) && Operate(s, s', t, cfg, e)
    requires NeverOverlap(s) && HoldersUninterrupted(s)
    ensures NeverOverlap(s') && HoldersUninterrupted(s')
  {
    hide Next;
    var n := |s.trace|;
    forall u, v | SameKey(s', u, v) ensures SameKey(s, u, v) {}
    forall i, j, k | 0 <= i < j < k < |s'.trace| && s'.trace[i].task == s'.trace[k].task
                     && SameKey(s', s'.trace[i].task, s'.trace[j].task)
      ensures s'.trace[j].task == s'.trace[i].task
    {
      assert SameKey(s, s.trace[i].task, s.trace[j].task);
      if k < n { assert s.trace[k] == s'.trace[k]; }
    }
    forall i, j | 0 <= i < j < |s'.trace| && s'.trace[i].task in s'.tasks
                  && s'.tasks[s'.trace[i].task].phase.Holding? && SameKey(s', s'.trace[i].task, s'.trace[j].task)
      ensures s'.trace[j].task == s'.trace[i].task
    {
      assert SameKey(s, s'.trace[i].task, s'.trace[j].task);
      if j == n { OneHolder(s, s.trace[i].task, t); }
    }
  }

  // What the operation changes for the records: at most the task itself
  // becomes recorded.
  lemma OperateRecords(cfg: Config, s: State, s': State, t: TaskId, e: Event)
    requires cfg.store && HistoriesFollow(cfg, s) && Operate(s, s', t, cfg, e)
    ensures forall u | u != t :: Recorded(s', u) <==> Recorded(s, u)
    ensures s.consumed <= s'.consumed
    ensures Recorded(s', t) && !Recorded(s, t) ==>
              && e == Event(Remember(IdempotencyKey(s.tasks[t].work.message)), Fine)
              && IdempotencyKey(s.tasks[t].work.message) in s'.consumed
              && |s.tasks[t].history| > 0 && s.tasks[t].history[0].reply == Seen(false)
  {
    if Recorded(s', t) && !Recorded(s, t) {
      RecordsAfterCheck(cfg, s.tasks[t].work.message, s.tasks[t].history, e.op);
    }
  }

  lemma OperateKeepsRecords(cfg: Config, s: State, s': State, t: TaskId, e: Event)
    requires cfg.store && LocksAgree(s) && HistoriesFollow(cfg, s) && Operate(s, s', t, cfg, e)
    requires RecordedOnce(s) && RecordsConsumed(s) && ChecksStand(s)
    ensures RecordedOnce(s') && RecordsConsumed(s')
  {
    hide Next, Follows, Recorded, HistoriesFollow;
    OperateRecords(cfg, s, s', t, e);
    forall u | Recorded(s', u) ensures u in s.tasks { RecordedIsTask(s', u); }
    forall u, v | Recorded(s', u) && Recorded(s', v) && SameDelivery(s', u, v) ensures u == v {
      assert SameDelivery(s, u, v) && SameDelivery(s, v, u);
    }
  }

  lemma RecordedIsTask(s: State, t: TaskId)
    requires Recorded(s, t)
    ensures t in s.tasks
  {
  }

  lemma OperateKeepsChecks(cfg: Config, s: State, s': State, t: TaskId, e: Event)
    requires cfg.store && LocksAgree(s) && HistoriesFollow(cfg, s) && Operate(s, s', t, cfg, e)
    requires RecordsConsumed(s) && ChecksStand(s)
    ensures ChecksStand(s')
  {
    OperateRecords(cfg, s, s', t, e);
    if s.tasks[t].work.One? {
      FollowsStep(Single(cfg, s.tasks[t].work.message), s.tasks[t].history, e);
      SingleParts(cfg, s'.tasks[t].work.message, s'.tasks[t].history);
    }
    hide Next, Follows, Recorded, HistoriesFollow;
    forall u, v | u in s'.tasks && s'.tasks[u].phase.Holding? && |s'.tasks[u].history| > 0
                  && s'.tasks[u].history[0].reply == Seen(false)
                  && Recorded(s', v) && SameDelivery(s', u, v)
      ensures u == v
    {
      assert SameDelivery(s, u, v) && SameDelivery(s, v, u);
      if v == t && u != t { OneHolder(s, u, t); }
    }
  }

  // ---- every run ----

  lemma StepKeepsInv(cfg: Config, s: State, s': State, t: TaskId, choice: Choice)
    requires Inv(cfg, s) && NextState(cfg, s, s', t, choice)
    ensures Inv(cfg, s')
  {
    hide HistoriesFollow, TraceIsOfTasks, NeverOverlap, HoldersUninterrupted, RecordedOnce, RecordsConsumed,
         ChecksStand, LocksAgree, Quiet, Spawn, LookUp, Acquire, Operate, End;
    match choice
    case Spawning(work) => SpawnKeepsLocks(s, s', t, work); QuietKeepsInv(cfg, s, s');
    case LookingUp(lock) => LookUpKeepsLocks(s, s', t, lock); QuietKeepsInv(cfg, s, s');
    case Acquiring => AcquireKeepsLocks(s, s', t); QuietKeepsInv(cfg, s, s');
    case Ending => EndKeepsLocks(s, s', t); QuietKeepsInv(cfg, s, s');
    case Operating(e) =>
      OperateKeepsHistories(cfg, s, s', t, e);
      OperateKeepsOrder(cfg, s, s', t, e);
      if cfg.store {
        OperateKeepsRecords(cfg, s, s', t, e);
        OperateKeepsChecks(cfg, s, s', t, e);
      }
  }

  lemma {:induction false} InvAlways(cfg: Config, states: seq<State>, turns: seq<Turn>, i: nat)
    requires Run(cfg, states, turns) && i < |states|
    ensures Inv(cfg, states[i])
  {
    if i > 0 {
      InvAlways(cfg, states, turns, i - 1);
      hide Inv;
      StepKeepsInv(cfg, states[i - 1], states[i], turns[i - 1].task, turns[i - 1].choice);
    }
  }

  // Two pieces of work that must not be done side by side.
  ghost predicate Contend(work: Work, work': Work) {
    exists m, m' | m in work.Messages() && m' in work'.Messages() :: SharesKey(m, m')
  }

  lemma ContendMeans(work: Work, work': Work)
    requires work.OfOneKey() && work'.OfOneKey()
    ensures Contend(work, work') <==> work.Key() == work'.Key()
  {
    var a, a' := work.Messages()[0], work'.Messages()[0];
    OrderedKeyShared(a, a');
    if m, m' :| m in work.Messages() && m' in work'.Messages() && SharesKey(m, m') {
      OrderedKeyShared(m, m');
      OrderedKeyShared(a, m);
      OrderedKeyShared(a', m');
    }
  }

  // For any interleaving of any number of tasks: between two events of one
  // task there is none of another task that has a message with the same key.
  lemma TasksNeverOverlap(cfg: Config, states: seq<State>, turns: seq<Turn>, n: nat, i: nat, j: nat, k: nat)
    requires Run(cfg, states, turns) && n < |states|
    requires i < j < k < |states[n].trace| && states[n].trace[i].task == states[n].trace[k].task
    ensures var t, u := states[n].trace[i].task, states[n].trace[j].task;
            && t in states[n].tasks && u in states[n].tasks
            && (Contend(states[n].tasks[t].work, states[n].tasks[u].work) ==> t == u)
  {
    InvAlways(cfg, states, turns, n);
    var t, u := states[n].trace[i].task, states[n].trace[j].task;
    assert HistoryFollows(cfg, states[n].tasks[t]) && HistoryFollows(cfg, states[n].tasks[u]);
    hide Follows, Contend;
    ContendMeans(states[n].tasks[t].work, states[n].tasks[u].work);
  }

  // ... and of those that also share an idempotency key, at most one has its
  // handler's Ack recorded.
  lemma RecordedAtMostOnce(cfg: Config, states: seq<State>, turns: seq<Turn>, n: nat, t: TaskId, u: TaskId)
    requires Run(cfg, states, turns) && n < |states| && cfg.store
    requires Recorded(states[n], t) && Recorded(states[n], u)
    requires var m, m' := states[n].tasks[t].work.message, states[n].tasks[u].work.message;
             SharesKey(m, m') && IdempotencyKey(m) == IdempotencyKey(m')
    ensures t == u
  {
    InvAlways(cfg, states, turns, n);
    OrderedKeyShared(states[n].tasks[t].work.message, states[n].tasks[u].work.message);
    assert SameDelivery(states[n], t, u);
  }

  // Whatever the others do, a task's own part of the trace hands its message
  // off safely and settles it at most once.
  lemma TasksSettleSafely(cfg: Config, states: seq<State>, turns: seq<Turn>, n: nat, t: TaskId)
    requires Run(cfg, states, turns) && n < |states| && t in states[n].tasks && states[n].tasks[t].work.One?
    ensures var m, own := states[n].tasks[t].work.message, Projection(states[n].trace, t);
            && SafeHandOff(cfg, [m], own)
            && (m.ackHandle.Some? ==> Settlements(own, m.ackHandle.value) <= 1)
  {
    InvAlways(cfg, states, turns, n);
    var m, own := states[n].tasks[t].work.message, states[n].tasks[t].history;
    SingleHandsOffSafely(cfg, m, own);
    if m.ackHandle.Some? { SingleSettlesOnce(cfg, m, own); }
  }

  // ---- a store ----

  // The store that comes with the runtime answers as the model expects.
  class InMemoryIdempotencyStore {
    var consumed: set<string>

    constructor ()
      ensures consumed == {}
    {
      consumed := {};
    }

    method IsConsumed(key: string) returns (reply: Reply)
      ensures StoreAnswers(consumed, consumed, Check(key), reply) && Fits(Check(key), reply)
    {
      reply := Seen(key in consumed);
    }

    method RecordConsumed(key: string) returns (reply: Reply)
      modifies this
      ensures StoreAnswers(old(consumed), consumed, Remember(key), reply) && reply == Fine
    {
      consumed := consumed + {key};
      reply := Fine;
    }
  }
}
