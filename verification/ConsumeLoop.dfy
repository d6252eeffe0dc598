// The consume loop: a permit is taken before every fetch, travels with the
// spawned task, and comes back when the task ends; shutdown stops fetching and
// waits for the tasks.
module ConsumeLoop {
  import opened Wrappers
  import opened ConsumerTypes

  // ---- gathering a batch ----

  datatype FetchReply = Got(message: Message) | Nothing | Broken(error: ConsumerError)

  // The broker side: any reply may come.
  class Fetcher {
    ghost var replies: seq<FetchReply>

    constructor ()
      ensures replies == []
    {
      replies := [];
    }

    method Fetch() returns (reply: FetchReply)
      modifies this
      ensures replies == old(replies) + [reply]
    {
      reply := *;
      replies := replies + [reply];
    }
  }

  function AtLeastOne(n: nat): (r: nat)
    ensures r == if n == 0 then 1 else n
  {
    if n == 0 then 1 else n
  }

  // The batch is the first message and what the replies brought after it, in
  // order; an empty reply is only ever the last.
  ghost predicate GatheredFrom(batch: seq<Message>, first: Message, replies: seq<FetchReply>) {
    && batch != [] && batch[0] == first
    && |batch| - 1 <= |replies| <= |batch|
    && (forall i | 0 <= i < |batch| - 1 :: replies[i] == Got(batch[i + 1]))
    && (|replies| == |batch| ==> replies[|batch| - 1] == Nothing)
  }

  // The batch is the first message and everything fetched after it, up to the
  // size limit, an empty reply or the time limit; a broken fetch loses it.
  method FetchBatch(fetcher: Fetcher, first: Message, batchSize: nat)
    returns (r: Result<seq<Message>, ConsumerError>, timedOut: bool, ghost replies: seq<FetchReply>)
    modifies fetcher
    ensures fetcher.replies == old(fetcher.replies) + replies
    ensures r.Ok? ==> GatheredFrom(r.value, first, replies) && |r.value| <= if batchSize == 0 then 1 else batchSize
    ensures r.Ok? && !timedOut ==> |replies| == |r.value| || |r.value| == if batchSize == 0 then 1 else batchSize
    ensures r.Err? ==> replies != [] && replies[|replies| - 1] == Broken(r.error)
    ensures r.Err? ==> forall i | 0 <= i < |replies| - 1 :: replies[i].Got?
  {
    var messages := [first];
    replies := [];
    timedOut := false;
    if batchSize <= 1 { return Ok(messages), false, []; }
    while |messages| < batchSize
      invariant 1 <= |messages| <= batchSize && |replies| == |messages| - 1
      invariant GatheredFrom(messages, first, replies)
      invariant fetcher.replies == old(fetcher.replies) + replies
      decreases batchSize - |messages|
    {
      timedOut := *;
      if timedOut { break; }
      var reply := fetcher.Fetch();
      replies := replies + [reply];
      if reply.Broken? { return Err(reply.error), false, replies; }
      if reply.Nothing? { break; }
      messages := messages + [reply.message];
    }
    r := Ok(messages);
  }

  // ---- the loop and its tasks ----

  type TaskId = nat

  datatype Pc =
    | Selecting                         // waiting for a permit or for shutdown
    | Fetching                          // holding a permit
    | Batching(messages: seq<Message>)  // holding a permit, gathering a batch
    | Draining
    | Returned

  // What became of messages that were fetched.
  datatype Fate = Spawned(task: TaskId, batch: seq<Message>) | Dropped(batch: seq<Message>)

  datatype State = State(
    available: nat,         // permits in the semaphore
    pc: Pc,
    running: set<TaskId>,   // tasks, each holding a permit
    finished: set<TaskId>,  // tasks that ended and were not joined yet
    fetched: seq<Message>,
    fates: seq<Fate>)

  datatype Limits = Limits(concurrency: nat, batchSize: nat) {
    function Permits(): nat { AtLeastOne(concurrency) }
    function BatchLimit(): nat { AtLeastOne(batchSize) }
  }

  function LoopHeld(pc: Pc): nat {
    if pc.Fetching? || pc.Batching? then 1 else 0
  }

  function Gathered(pc: Pc): seq<Message> {
    if pc.Batching? then pc.messages else []
  }

  function Delivered(fates: seq<Fate>): seq<Message> {
    if fates == [] then []
    else Delivered(fates[..|fates| - 1]) + fates[|fates| - 1].batch
  }

  datatype Move =
    | TakePermit
    | Stop
    | Fetch(reply: FetchReply)
    | More(reply: FetchReply)
    | CloseBatch
    | TaskEnds(task: TaskId)
    | Join(task: TaskId)
    | Finish

  // A batch of messages becomes a task, which takes the permit along. A task
  // that has already ended may be joined on the way.
  ghost predicate SpawnBatch(s: State, s': State, batch: seq<Message>) {
    exists task, joined :: SpawnAs(s, s', batch, task, joined)
  }

  ghost predicate SpawnAs(s: State, s': State, batch: seq<Message>, task: TaskId, joined: set<TaskId>) {
    && !SpawnedBefore(s.fates, task)
    && joined <= s.finished && |joined| <= 1
    && s' == s.(pc := Selecting, running := s.running + {task}, finished := s.finished - joined,
                fetched := s'.fetched, fates := s.fates + [Spawned(task, batch)])
  }

  ghost predicate SpawnedBefore(fates: seq<Fate>, task: TaskId) {
    exists f | f in fates :: f.Spawned? && f.task == task
  }

  ghost predicate Init(limits: Limits, s: State) {
    s == State(limits.Permits(), Selecting, {}, {}, [], [])
  }

  ghost predicate NextState(limits: Limits, s: State, s': State, move: Move) {
    match move
    case TakePermit =>
      && s.pc == Selecting && s.available > 0
      && s' == s.(available := s.available - 1, pc := Fetching)
    case Stop =>
      && (s.pc == Selecting || s.pc == Fetching)
      && s' == s.(available := s.available + LoopHeld(s.pc), pc := Draining)
    case Fetch(Got(m)) =>
      && s.pc == Fetching
      && s'.fetched == s.fetched + [m]
      && (if limits.BatchLimit() > 1 then s' == s.(pc := Batching([m]), fetched := s'.fetched)
          else SpawnBatch(s, s', [m]))
    case Fetch(_) =>
      && s.pc == Fetching
      && s' == s.(available := s.available + 1, pc := Selecting)
    case More(Got(m)) =>
      && s.pc.Batching? && |s.pc.messages| < limits.BatchLimit()
      && s' == s.(pc := Batching(s.pc.messages + [m]), fetched := s.fetched + [m])
    case More(Nothing) =>
      && s.pc.Batching? && |s.pc.messages| < limits.BatchLimit()
      && s'.fetched == s.fetched
      && SpawnBatch(s, s', s.pc.messages)
    case More(Broken(_)) =>
      && s.pc.Batching? && |s.pc.messages| < limits.BatchLimit()
      && s' == s.(available := s.available + 1, pc := Selecting, fates := s.fates + [Dropped(s.pc.messages)])
    case CloseBatch => // the batch is full, or its time is up
      && s.pc.Batching?
      && s'.fetched == s.fetched
      && SpawnBatch(s, s', s.pc.messages)
    case TaskEnds(t) =>
      && t in s.running
      && s' == s.(available := s.available + 1, running := s.running - {t}, finished := s.finished + {t})
    case Join(t) =>
      && s.pc == Draining && t in s.finished
      && s' == s.(finished := s.finished - {t})
    case Finish =>
      && s.pc == Draining && s.running == {} && s.finished == {}
      && s' == s.(pc := Returned)
  }

  ghost predicate Run(limits: Limits, states: seq<State>, moves: seq<Move>) {
    && |states| == |moves| + 1
    && Init(limits, states[0])
    && forall i | 0 <= i < |moves| :: NextState(limits, states[i], states[i + 1], moves[i])
  }

  // Every permit is in the semaphore, with a task, or with the loop.
  ghost predicate PermitsAccounted(limits: Limits, s: State) {
    && s.running !! s.finished
    && s.available + |s.running| + LoopHeld(s.pc) == limits.Permits()
  }

  // Nothing fetched is lost track of: in order, it was spawned, dropped with a
  // broken batch, or is being gathered.
  ghost predicate MessagesAccounted(limits: Limits, s: State) {
    && Delivered(s.fates) + Gathered(s.pc) == s.fetched
    && (s.pc.Batching? ==> 1 <= |s.pc.messages| <= limits.BatchLimit())
    && forall f | f in s.fates :: 1 <= |f.batch| <= limits.BatchLimit()
  }

  // Tasks are spawned once each, and those not joined are known.
  ghost predicate TasksAccounted(s: State) {
    && (forall i, j | 0 <= i < j < |s.fates| && s.fates[i].Spawned? && s.fates[j].Spawned? ::
          s.fates[i].task != s.fates[j].task)
    && (forall t | t in s.running || t in s.finished :: SpawnedBefore(s.fates, t))
    && (s.pc == Returned ==> s.running == {} && s.finished == {})
  }

  ghost predicate Inv(limits: Limits, s: State) {
    PermitsAccounted(limits, s) && MessagesAccounted(limits, s) && TasksAccounted(s)
  }

  lemma DeliveredAppend(fates: seq<Fate>, f: Fate)
    ensures Delivered(fates + [f]) == Delivered(fates) + f.batch
  {
    assert (fates + [f])[..|fates|] == fates;
  }

  lemma SpawnedStill(fates: seq<Fate>, f: Fate, task: TaskId)
    ensures SpawnedBefore(fates + [f], task) <==> SpawnedBefore(fates, task) || (f.Spawned? && f.task == task)
  {
    forall g | g in fates ensures g in fates + [f] {}
    assert f in fates + [f];
  }

  lemma SpawnKeepsInv(limits: Limits, s: State, s': State, batch: seq<Message>)
    requires PermitsAccounted(limits, s) && TasksAccounted(s) && LoopHeld(s.pc) == 1
    requires SpawnBatch(s, s', batch)
    requires 1 <= |batch| <= limits.BatchLimit()
    requires forall f | f in s.fates :: 1 <= |f.batch| <= limits.BatchLimit()
    requires Delivered(s.fates) + batch == s'.fetched
    ensures Inv(limits, s')
  {
    var task, joined :| SpawnAs(s, s', batch, task, joined);
    SpawnKeepsTasks(s, s', batch, task, joined);
    SpawnKeepsPermits(limits, s, s', batch, task, joined);
    SpawnKeepsMessages(limits, s, s', batch, Spawned(task, batch));
    hide PermitsAccounted, TasksAccounted, MessagesAccounted;
  }

  lemma SpawnKeepsMessages(limits: Limits, s: State, s': State, batch: seq<Message>, f: Fate)
    requires s'.fates == s.fates + [f] && s'.pc == Selecting && f.batch == batch
    requires 1 <= |batch| <= limits.BatchLimit()
    requires forall f | f in s.fates :: 1 <= |f.batch| <= limits.BatchLimit()
    requires Delivered(s.fates) + batch == s'.fetched
    ensures MessagesAccounted(limits, s')
  {
    DeliveredAppend(s.fates, f);
  }

  lemma SpawnKeepsPermits(limits: Limits, s: State, s': State, batch: seq<Message>, task: TaskId, joined: set<TaskId>)
    requires PermitsAccounted(limits, s) && TasksAccounted(s) && LoopHeld(s.pc) == 1
    requires SpawnAs(s, s', batch, task, joined)
    ensures PermitsAccounted(limits, s')
  {
    assert task !in s.running && task !in s.finished;
  }

  lemma SpawnKeepsTasks(s: State, s': State, batch: seq<Message>, task: TaskId, joined: set<TaskId>)
    requires TasksAccounted(s) && SpawnAs(s, s', batch, task, joined)
    ensures TasksAccounted(s')
  {
    forall t | t in s'.running || t in s'.finished ensures SpawnedBefore(s'.fates, t) {
      SpawnedStill(s.fates, Spawned(task, batch), t);
    }
    forall i | 0 <= i < |s.fates| && s.fates[i].Spawned? ensures s.fates[i].task != task {}
  }

  lemma DropKeepsInv(limits: Limits, s: State, s': State)
    requires Inv(limits, s) && s.pc.Batching?
    requires s' == s.(available := s.available + 1, pc := Selecting, fates := s.fates + [Dropped(s.pc.messages)])
    ensures Inv(limits, s')
  {
    DeliveredAppend(s.fates, Dropped(s.pc.messages));
    forall t | t in s'.running || t in s'.finished ensures SpawnedBefore(s'.fates, t) {
      SpawnedStill(s.fates, Dropped(s.pc.messages), t);
    }
  }

  lemma GatherKeepsInv(limits: Limits, s: State, s': State, m: Message)
    requires Inv(limits, s) && LoopHeld(s.pc) == 1 && |Gathered(s.pc)| < limits.BatchLimit()
    requires s' == s.(pc := Batching(Gathered(s.pc) + [m]), fetched := s.fetched + [m])
    ensures Inv(limits, s')
  {
  }

  // Moves that neither gather nor spawn.
  ghost predicate MovesPermits(move: Move) {
    !move.More? && !move.CloseBatch? && !(move.Fetch? && move.reply.Got?)
  }

  lemma PermitMovesKeepPermits(limits: Limits, s: State, s': State, move: Move)
    requires PermitsAccounted(limits, s) && NextState(limits, s, s', move) && MovesPermits(move)
    requires s.pc == Returned ==> s.running == {} && s.finished == {}
    ensures PermitsAccounted(limits, s')
    ensures s'.fetched == s.fetched && s'.fates == s.fates && Gathered(s'.pc) == Gathered(s.pc)
    ensures s'.pc.Batching? ==> s'.pc == s.pc
    ensures forall t | t in s'.running || t in s'.finished :: t in s.running || t in s.finished
    ensures s'.pc == Returned ==> s'.running == {} && s'.finished == {}
  {
    hide SpawnBatch;
  }

  lemma PermitMovesKeepInv(limits: Limits, s: State, s': State, move: Move)
    requires Inv(limits, s) && NextState(limits, s, s', move) && MovesPermits(move)
    ensures Inv(limits, s')
  {
    PermitMovesKeepPermits(limits, s, s', move);
    hide NextState, PermitsAccounted, SpawnedBefore, Delivered;
  }

  lemma StepKeepsInv(limits: Limits, s: State, s': State, move: Move)
    requires Inv(limits, s) && NextState(limits, s, s', move)
    ensures Inv(limits, s')
  {
    hide PermitsAccounted, TasksAccounted, SpawnBatch;
    match move
    case Fetch(Got(m)) =>
      assert Gathered(s.pc) + [m] == [m];
      if limits.BatchLimit() == 1 { SpawnKeepsInv(limits, s, s', [m]); } else { GatherKeepsInv(limits, s, s', m); }
    case More(Got(m)) => GatherKeepsInv(limits, s, s', m);
    case More(Nothing) => SpawnKeepsInv(limits, s, s', s.pc.messages);
    case CloseBatch => SpawnKeepsInv(limits, s, s', s.pc.messages);
    case More(Broken(_)) => DropKeepsInv(limits, s, s');
    case _ => PermitMovesKeepInv(limits, s, s', move);
  }

  lemma {:induction false} InvAlways(limits: Limits, states: seq<State>, moves: seq<Move>, n: nat)
    requires Run(limits, states, moves) && n < |states|
    ensures Inv(limits, states[n])
  {
    if n > 0 {
      InvAlways(limits, states, moves, n - 1);
      StepKeepsInv(limits, states[n - 1], states[n], moves[n - 1]);
    }
  }

  // In every reachable state free permits, running tasks and the one the loop
  // holds while it fetches add up to the configured concurrency, at least one.
  lemma BoundedConcurrency(limits: Limits, states: seq<State>, moves: seq<Move>, n: nat)
    requires Run(limits, states, moves) && n < |states|
    ensures states[n].available + |states[n].running|
            + (if states[n].pc.Fetching? || states[n].pc.Batching? then 1 else 0)
            == if limits.concurrency == 0 then 1 else limits.concurrency
  {
    InvAlways(limits, states, moves, n);
  }

  // No batch is longer than configured, and none is empty.
  lemma BoundedBatches(limits: Limits, states: seq<State>, moves: seq<Move>, n: nat, f: Fate)
    requires Run(limits, states, moves) && n < |states| && f in states[n].fates
    ensures 1 <= |f.batch| <= if limits.batchSize == 0 then 1 else limits.batchSize
  {
    InvAlways(limits, states, moves, n);
  }

  // When the loop has returned, every task it ever spawned has ended and been
  // joined, all permits are back, and the fetched messages are, in order,
  // those of the spawned batches and those dropped with a broken batch.
  lemma DrainedWhenReturned(limits: Limits, states: seq<State>, moves: seq<Move>, n: nat)
    requires Run(limits, states, moves) && n < |states|
    requires states[n].pc == Returned
    ensures states[n].running == {} && states[n].finished == {}
    ensures states[n].available == if limits.concurrency == 0 then 1 else limits.concurrency
    ensures Delivered(states[n].fates) == states[n].fetched
  {
    InvAlways(limits, states, moves, n);
  }

  // ---- the limits are reached ----

  ghost predicate RunTo(limits: Limits, states: seq<State>, moves: seq<Move>, s: State) {
    Run(limits, states, moves) && states[|states| - 1] == s
  }

  ghost predicate Reachable(limits: Limits, s: State) {
    exists states, moves :: RunTo(limits, states, moves, s)
  }

  lemma ReachNext(limits: Limits, s: State, s': State, move: Move)
    requires Reachable(limits, s) && NextState(limits, s, s', move)
    ensures Reachable(limits, s')
  {
    var states, moves :| RunTo(limits, states, moves, s);
    hide NextState, Init;
    var states', moves' := states + [s'], moves + [move];
    forall i | 0 <= i < |moves'| ensures NextState(limits, states'[i], states'[i + 1], moves'[i]) {
      if i < |moves| { assert states'[i] == states[i] && states'[i + 1] == states[i + 1] && moves'[i] == moves[i]; }
    }
    assert RunTo(limits, states', moves', s');
  }

  lemma Fresh(limits: Limits) returns (s: State)
    ensures Reachable(limits, s) && Init(limits, s)
  {
    s := State(limits.Permits(), Selecting, {}, {}, [], []);
    assert RunTo(limits, [s], [], s);
  }

  lemma {:induction false} UnusedTask(fates: seq<Fate>) returns (task: TaskId)
    ensures forall f | f in fates && f.Spawned? :: f.task < task
  {
    task := 0;
    if fates != [] {
      var front, last := fates[..|fates| - 1], fates[|fates| - 1];
      task := UnusedTask(front);
      if last.Spawned? && last.task >= task { task := last.task + 1; }
      assert fates == front + [last];
    }
  }

  // What spawning the batch as this task leads to.
  function Spawning(s: State, batch: seq<Message>, task: TaskId): State {
    s.(pc := Selecting, running := s.running + {task}, fates := s.fates + [Spawned(task, batch)])
  }

  lemma CanSpawn(s: State, batch: seq<Message>) returns (task: TaskId)
    requires TasksAccounted(s)
    ensures task !in s.running && SpawnBatch(s, Spawning(s, batch, task), batch)
  {
    task := UnusedTask(s.fates);
    assert SpawnAs(s, Spawning(s, batch, task), batch, task, {});
  }

  lemma ReachableInv(limits: Limits, s: State)
    requires Reachable(limits, s)
    ensures Inv(limits, s)
  {
    var states, moves :| RunTo(limits, states, moves, s);
    InvAlways(limits, states, moves, |states| - 1);
  }

  // A free permit becomes one more running task.
  lemma OneMoreRuns(limits: Limits, s: State, m: Message) returns (s': State)
    requires Reachable(limits, s) && s.pc == Selecting && s.available > 0
    ensures Reachable(limits, s') && s'.pc == Selecting
    ensures s'.available == s.available - 1 && |s'.running| == |s.running| + 1
  {
    ReachableInv(limits, s);
    var task := CanSpawn(s, [m]);
    hide Reachable, Inv, SpawnedBefore, Delivered;
    var s1 := s.(available := s.available - 1, pc := Fetching);
    ReachNext(limits, s, s1, TakePermit);
    var s2 := s1.(pc := Batching([m]), fetched := s.fetched + [m]);
    s' := Spawning(s2, [m], task);
    assert SpawnAs(s1, s', [m], task, {}) && SpawnAs(s2, s', [m], task, {});
    if limits.BatchLimit() > 1 {
      ReachNext(limits, s1, s2, Fetch(Got(m)));
      ReachNext(limits, s2, s', CloseBatch);
    } else {
      ReachNext(limits, s1, s', Fetch(Got(m)));
    }
  }

  lemma {:induction false} MoreRun(limits: Limits, n: nat, m: Message) returns (s: State)
    requires n <= limits.Permits()
    ensures Reachable(limits, s) && s.pc == Selecting
    ensures |s.running| == n && s.available == limits.Permits() - n
  {
    if n == 0 {
      s := Fresh(limits);
    } else {
      s := MoreRun(limits, n - 1, m);
      s := OneMoreRuns(limits, s, m);
    }
  }

  // The configured number of tasks does run at once in some run.
  lemma ConcurrencyReached(limits: Limits, m: Message) returns (s: State)
    ensures Reachable(limits, s)
    ensures |s.running| == if limits.concurrency == 0 then 1 else limits.concurrency
  {
    s := MoreRun(limits, limits.Permits(), m);
  }

  lemma {:induction false} Gathering(limits: Limits, n: nat, m: Message) returns (s: State)
    requires 1 <= n <= limits.BatchLimit() && limits.BatchLimit() > 1
    ensures Reachable(limits, s) && s.pc.Batching? && |s.pc.messages| == n
  {
    if n == 1 {
      var s0 := Fresh(limits);
      var s1 := s0.(available := s0.available - 1, pc := Fetching);
      hide Reachable;
      ReachNext(limits, s0, s1, TakePermit);
      s := s1.(pc := Batching([m]), fetched := [m]);
      ReachNext(limits, s1, s, Fetch(Got(m)));
    } else {
      var s0 := Gathering(limits, n - 1, m);
      hide Reachable;
      s := s0.(pc := Batching(s0.pc.messages + [m]), fetched := s0.fetched + [m]);
      ReachNext(limits, s0, s, More(Got(m)));
    }
  }

  // ... and a batch of the configured size is spawned in some run.
  lemma BatchSizeReached(limits: Limits, m: Message) returns (s: State, f: Fate)
    ensures Reachable(limits, s) && f in s.fates && f.Spawned?
    ensures |f.batch| == if limits.batchSize == 0 then 1 else limits.batchSize
  {
    if limits.BatchLimit() > 1 {
      var s0 := Gathering(limits, limits.BatchLimit(), m);
      ReachableInv(limits, s0);
      var task := CanSpawn(s0, s0.pc.messages);
      s, f := Spawning(s0, s0.pc.messages, task), Spawned(task, s0.pc.messages);
      assert s.fates[|s0.fates|] == f;
      hide Reachable;
      ReachNext(limits, s0, s, CloseBatch);
    } else {
      var s0 := Fresh(limits);
      s := OneMoreRuns(limits, s0, m);
      ReachableInv(limits, s);
      assert s.running != {};
      var t :| t in s.running;
      assert SpawnedBefore(s.fates, t);
      f :| f in s.fates && f.Spawned? && f.task == t;
    }
  }

  // Messages are lost to the tasks only by a broken fetch inside a batch.
  lemma {:induction false} HandledUnlessBroken(limits: Limits, states: seq<State>, moves: seq<Move>, n: nat)
    requires Run(limits, states, moves) && n < |states|
    requires forall i | 0 <= i < n :: !(moves[i].More? && moves[i].reply.Broken?)
    ensures forall f | f in states[n].fates :: f.Spawned?
    ensures Delivered(states[n].fates) + Gathered(states[n].pc) == states[n].fetched
  {
    if n > 0 {
      HandledUnlessBroken(limits, states, moves, n - 1);
      SpawnsUnlessBroken(limits, states[n - 1], states[n], moves[n - 1]);
    }
    InvAlways(limits, states, moves, n);
  }

  lemma SpawnsUnlessBroken(limits: Limits, s: State, s': State, move: Move)
    requires NextState(limits, s, s', move) && !(move.More? && move.reply.Broken?)
    requires forall f | f in s.fates :: f.Spawned?
    ensures forall f | f in s'.fates :: f.Spawned?
  {
  }

  // What is left to do once the loop is draining: tasks must end and be
  // joined, and the loop must return.
  function Load(s: State): nat {
    2 * |s.running| + |s.finished| + (if s.pc == Draining then 1 else 0)
  }

  // Once the loop is draining, nothing more is fetched or spawned, and every
  // move brings it closer to its return.
  lemma {:induction false} NoWorkAfterStop(limits: Limits, states: seq<State>, moves: seq<Move>, i: nat, j: nat)
    requires Run(limits, states, moves) && i <= j < |states|
    requires states[i].pc == Draining || states[i].pc == Returned
    ensures states[j].pc == Draining || states[j].pc == Returned
    ensures states[j].fetched == states[i].fetched && states[j].fates == states[i].fates
    ensures Load(states[j]) + (j - i) <= Load(states[i])
  {
    if i < j {
      NoWorkAfterStop(limits, states, moves, i, j - 1);
      InvAlways(limits, states, moves, j - 1);
      DrainingStep(limits, states[j - 1], states[j], moves[j - 1]);
    }
  }

  lemma DrainingStep(limits: Limits, s: State, s': State, move: Move)
    requires Inv(limits, s) && NextState(limits, s, s', move)
    requires s.pc == Draining || s.pc == Returned
    ensures s'.pc == Draining || s'.pc == Returned
    ensures s'.fetched == s.fetched && s'.fates == s.fates && Load(s') + 1 <= Load(s)
  {
  }

  // And until then it is never stuck but for tasks that have not ended.
  lemma DrainingGoesOn(limits: Limits, s: State)
    requires s.pc == Draining
    ensures exists s', move :: NextState(limits, s, s', move)
  {
    if t :| t in s.running {
      var s' := s.(available := s.available + 1, running := s.running - {t}, finished := s.finished + {t});
      assert NextState(limits, s, s', TaskEnds(t));
    } else if t :| t in s.finished {
      assert NextState(limits, s, s.(finished := s.finished - {t}), Join(t));
    } else {
      assert s.running == {} && s.finished == {};
      assert NextState(limits, s, s.(pc := Returned), Finish);
    }
  }

  // So after the stop the loop returns within as many moves.
  lemma StopReturns(limits: Limits, states: seq<State>, moves: seq<Move>, i: nat)
    requires Run(limits, states, moves) && i < |states| && states[i].pc == Draining
    ensures |states| - 1 - i <= 2 * |states[i].running| + |states[i].finished| + 1
    ensures |states| - 1 - i == 2 * |states[i].running| + |states[i].finished| + 1
            ==> states[|states| - 1].pc == Returned
  {
    NoWorkAfterStop(limits, states, moves, i, |states| - 1);
  }

  // The stop is heard from everywhere: whatever the loop is doing, it can come to
  // drain, all running tasks kept and a batch under way made the last task.
  lemma StopHeard(limits: Limits, s: State) returns (s': State)
    requires Reachable(limits, s) && s.pc != Draining && s.pc != Returned
    ensures Reachable(limits, s') && s'.pc == Draining && s'.fetched == s.fetched
    ensures s.running <= s'.running && |s'.running| == |s.running| + (if s.pc.Batching? then 1 else 0)
    ensures Delivered(s'.fates) == s'.fetched
  {
    var s1 := s;
    if s.pc.Batching? {
      ReachableInv(limits, s);
      var task := CanSpawn(s, s.pc.messages);
      s1 := Spawning(s, s.pc.messages, task);
      hide Reachable, Inv;
      ReachNext(limits, s, s1, CloseBatch);
    }
    s' := s1.(available := s1.available + LoopHeld(s1.pc), pc := Draining);
    hide Reachable;
    ReachNext(limits, s1, s', Stop);
    ReachableInv(limits, s');
  }
}
