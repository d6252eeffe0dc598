// The key locks never deadlock: from every reachable state every task can still
// come to the end of its program and give its lock back.
module KeyedProgress {
  import opened Wrappers
  import opened ConsumerTypes
  import opened Settlement
  import opened KeyedConcurrency
  import opened RecordedTwice

  // A lock that is held is held by a task that says so.
  ghost predicate HoldersHold(s: State) {
    forall l | l in s.holders :: s.holders[l] in s.tasks && s.tasks[s.holders[l]].phase == Holding(l)
  }

  lemma StepKeepsHolders(cfg: Config, s: State, s': State, t: TaskId, choice: Choice)
    requires HoldersHold(s) && NextState(cfg, s, s', t, choice)
    ensures HoldersHold(s')
  {
    hide Next, StoreAnswers, Work.OfOneKey;
  }

  lemma {:induction false} HoldersAlways(cfg: Config, states: seq<State>, turns: seq<Turn>, n: nat)
    requires Run(cfg, states, turns) && n < |states|
    ensures HoldersHold(states[n])
  {
    if n > 0 {
      HoldersAlways(cfg, states, turns, n - 1);
      hide HoldersHold;
      StepKeepsHolders(cfg, states[n - 1], states[n], turns[n - 1].task, turns[n - 1].choice);
    }
  }

  lemma ReachableHolders(cfg: Config, s: State)
    requires Reachable(cfg, s)
    ensures HoldersHold(s) && HistoriesFollow(cfg, s)
  {
    var states, turns :| RunTo(cfg, states, turns, s);
    HoldersAlways(cfg, states, turns, |states| - 1);
    InvAlways(cfg, states, turns, |states| - 1);
  }

  lemma {:induction false} UnusedLock(locks: set<LockId>) returns (lock: LockId)
    ensures forall l | l in locks :: l < lock
    decreases |locks|
  {
    lock := 0;
    if locks != {} {
      var l :| l in locks;
      lock := UnusedLock(locks - {l});
      if l >= lock { lock := l + 1; }
      assert locks == (locks - {l}) + {l};
    }
  }

  // The same tasks, each with the work it had.
  ghost predicate SameWork(s: State, s': State) {
    s'.tasks.Keys == s.tasks.Keys && forall u | u in s.tasks :: s'.tasks[u].work == s.tasks[u].work
  }

  lemma CanLookUp(cfg: Config, s: State, t: TaskId) returns (s': State)
    requires Reachable(cfg, s) && t in s.tasks && s.tasks[t].phase == Spawned
    ensures Reachable(cfg, s') && SameWork(s, s') && t in s'.tasks && s'.tasks[t].phase.Waiting?
  {
    var lock := UnusedLock(s.keyLocks.Values);
    if Key(s, t) in s.keyLocks { lock := s.keyLocks[Key(s, t)]; }
    s' := s.(tasks := s.tasks[t := s.tasks[t].(phase := Waiting(lock))], keyLocks := s.keyLocks[Key(s, t) := lock]);
    hide Reachable, Work.Key;
    ReachNext(cfg, s, s', t, LookingUp(lock));
  }

  lemma CanEnd(cfg: Config, s: State, t: TaskId) returns (s': State)
    requires Reachable(cfg, s) && t in s.tasks && s.tasks[t].phase.Holding?
    ensures Reachable(cfg, s') && SameWork(s, s') && t in s'.tasks && s'.holders == s.holders - {s.tasks[t].phase.lock}
    ensures s'.tasks[t] == s.tasks[t].(phase := Done) && forall u | u in s.tasks && u != t :: s'.tasks[u] == s.tasks[u]
  {
    s' := s.(tasks := s.tasks[t := s.tasks[t].(phase := Done)], holders := s.holders - {s.tasks[t].phase.lock});
    hide Reachable;
    ReachNext(cfg, s, s', t, Ending);
  }

  // A task gets the lock it waits for, once its holder has ended.
  lemma CanAcquire(cfg: Config, s: State, t: TaskId) returns (s': State)
    requires Reachable(cfg, s) && t in s.tasks && s.tasks[t].phase.Waiting?
    ensures Reachable(cfg, s') && SameWork(s, s') && t in s'.tasks && s'.tasks[t].phase.Holding?
  {
    var lock, s1 := s.tasks[t].phase.lock, s;
    hide Reachable;
    if lock in s.holders {
      ReachableHolders(cfg, s);
      s1 := CanEnd(cfg, s, s.holders[lock]);
    }
    s' := s1.(tasks := s1.tasks[t := s1.tasks[t].(phase := Holding(lock))], holders := s1.holders[lock := t]);
    ReachNext(cfg, s1, s', t, Acquiring);
  }

  // ---- coming to the end of the program ----

  // A failed operation ends the program, unless it is the handler's.
  lemma WrongReturns(cfg: Config, m: Message, h: seq<Event>, op: Op, e: ConsumerError)
    requires Follows(Single(cfg, m), h) && Next(Single(cfg, m), h) == Do(op) && !op.Dispatch?
    ensures Next(Single(cfg, m), h + [Event(op, Wrong(e))]) == Return(Fail(e))
  {
    SingleParts(cfg, m, h);
    var more := h + [Event(op, Wrong(e))];
    assert |h| > Lead(cfg) ==> more[Lead(cfg)] == h[Lead(cfg)];
    assert |h| > 0 ==> more[0] == h[0];
    if Duplicate(cfg, h) {
      assert more[1..] == h[1..] + [Event(op, Wrong(e))];
    } else if |h| > Lead(cfg) {
      assert more[Lead(cfg) + 1..] == h[Lead(cfg) + 1..] + [Event(op, Wrong(e))];
    }
  }

  lemma DispatchedOnce(cfg: Config, m: Message, h: seq<Event>, e: Event, op: Op)
    requires Follows(Single(cfg, m), h) && Next(Single(cfg, m), h) == Do(e.op) && e.op.Dispatch?
    requires Next(Single(cfg, m), h + [e]) == Do(op) && Fits(e.op, e.reply)
    ensures !op.Dispatch?
  {
    SingleParts(cfg, m, h);
    var more := h + [e];
    assert |h| > 0 ==> more[0] == h[0];
    if !Duplicate(cfg, h) && |h| == Lead(cfg) {
      assert more[Lead(cfg) + 1..] == [];
    }
    hide FailurePlan;
    NoDispatchIn(cfg, m);
  }

  lemma NoDispatchIn(cfg: Config, m: Message)
    ensures forall v, k | 0 <= k < |VerdictPlan(cfg, PendingOf(cfg, m), v).ops| ::
              !VerdictPlan(cfg, PendingOf(cfg, m), v).ops[k].Dispatch?
  {
  }

  lemma CanFail(cfg: Config, s: State, t: TaskId) returns (s': State)
    requires Reachable(cfg, s) && t in s.tasks && s.tasks[t].phase.Holding? && s.tasks[t].work.One?
    requires Next(Single(cfg, s.tasks[t].work.message), s.tasks[t].history).Do?
    ensures var op := Next(Single(cfg, s.tasks[t].work.message), s.tasks[t].history).op;
            && Reachable(cfg, s') && SameWork(s, s') && t in s'.tasks
            && s'.tasks[t] == s.tasks[t].(history := s.tasks[t].history + [Event(op, Wrong(Shutdown))])
  {
    var op := Next(Single(cfg, s.tasks[t].work.message), s.tasks[t].history).op;
    s' := After(s, t, Event(op, Wrong(Shutdown)), s.consumed);
    hide Reachable, Next;
    ReachDone(cfg, s, t, Event(op, Wrong(Shutdown)), s.consumed);
  }

  ghost predicate AtEnd(cfg: Config, s: State, t: TaskId)
    requires t in s.tasks
  {
    s.tasks[t].work.One? ==> Next(Single(cfg, s.tasks[t].work.message), s.tasks[t].history).Return?
  }

  lemma CanReturn(cfg: Config, s: State, t: TaskId) returns (s': State)
    requires Reachable(cfg, s) && t in s.tasks && s.tasks[t].phase.Holding?
    ensures Reachable(cfg, s') && SameWork(s, s') && t in s'.tasks && s'.tasks[t].phase.Holding? && AtEnd(cfg, s', t)
  {
    s' := s;
    if !AtEnd(cfg, s, t) {
      var m, h := s.tasks[t].work.message, s.tasks[t].history;
      var op := Next(Single(cfg, m), h).op;
      ReachableHolders(cfg, s);
      assert HistoryFollows(cfg, s.tasks[t]);
      hide Reachable, Next, Follows, HistoriesFollow;
      s' := CanFail(cfg, s, t);
      if !op.Dispatch? {
        WrongReturns(cfg, m, h, op, Shutdown);
      } else if Next(Single(cfg, m), s'.tasks[t].history).Do? {
        var op' := Next(Single(cfg, m), s'.tasks[t].history).op;
        DispatchedOnce(cfg, m, h, Event(op, Wrong(Shutdown)), op');
        FollowsStep(Single(cfg, m), h, Event(op, Wrong(Shutdown)));
        WrongReturns(cfg, m, s'.tasks[t].history, op', Shutdown);
        s' := CanFail(cfg, s', t);
      }
    }
  }

  // From every reachable state every task can get its lock, come to the end of
  // its program and give the lock back.
  lemma EveryTaskCanFinish(cfg: Config, s: State, t: TaskId) returns (s': State)
    requires Reachable(cfg, s) && t in s.tasks && !s.tasks[t].phase.Done?
    ensures Reachable(cfg, s') && SameWork(s, s') && t in s'.tasks && s'.tasks[t].phase.Done? && AtEnd(cfg, s', t)
  {
    hide Reachable, Next;
    s' := s;
    if s'.tasks[t].phase.Spawned? { s' := CanLookUp(cfg, s', t); }
    if s'.tasks[t].phase.Waiting? { s' := CanAcquire(cfg, s', t); }
    s' := CanReturn(cfg, s', t);
    s' := CanEnd(cfg, s', t);
  }
}
