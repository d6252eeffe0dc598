// What the key locks allow: which tasks run side by side, and when two
// deliveries of one message can both be recorded in the idempotency store.
module RecordedTwice {
  import opened Wrappers
  import opened ConsumerTypes
  import opened Settlement
  import opened BatchSettlement
  import opened KeyedConcurrency

  // ---- with locks ----

  ghost predicate RunTo(cfg: Config, states: seq<State>, turns: seq<Turn>, s: State) {
    Run(cfg, states, turns) && states[|states| - 1] == s
  }

  ghost predicate Reachable(cfg: Config, s: State) {
    exists states, turns :: RunTo(cfg, states, turns, s)
  }

  // Two tasks have recorded these messages, one each.
  ghost predicate RecordsBoth(s: State, m: Message, m': Message) {
    exists t, u | t in s.tasks && u in s.tasks && t != u ::
      s.tasks[t].work == One(m) && s.tasks[u].work == One(m') && Recorded(s, t) && Recorded(s, u)
  }

  lemma ReachNext(cfg: Config, s: State, s': State, t: TaskId, choice: Choice)
    requires Reachable(cfg, s) && NextState(cfg, s, s', t, choice)
    ensures Reachable(cfg, s')
  {
    var states, turns :| RunTo(cfg, states, turns, s);
    hide NextState, Init;
    var states', turns' := states + [s'], turns + [Turn(t, choice)];
    forall i | 0 <= i < |turns'|
      ensures NextState(cfg, states'[i], states'[i + 1], turns'[i].task, turns'[i].choice)
    {
      if i < |turns| { assert states'[i] == states[i] && states'[i + 1] == states[i + 1] && turns'[i] == turns[i]; }
    }
    assert RunTo(cfg, states', turns', s');
  }

  // A task of a key without a lock gets a new lock and holds it.
  lemma ReachHolding(cfg: Config, s: State, t: TaskId, work: Work, lock: LockId) returns (s': State)
    requires Reachable(cfg, s) && t !in s.tasks && work.OfOneKey() && work.Key() !in s.keyLocks
    requires lock !in s.keyLocks.Values && lock !in s.holders
    ensures Reachable(cfg, s')
    ensures s' == s.(tasks := s.tasks[t := Task(work, Holding(lock), [])],
                     keyLocks := s.keyLocks[work.Key() := lock],
                     holders := s.holders[lock := t])
  {
    hide Reachable, Run, Work.OfOneKey, Work.Key;
    var s1 := s.(tasks := s.tasks[t := Task(work, Spawned, [])]);
    ReachNext(cfg, s, s1, t, Spawning(work));
    var s2 := s1.(tasks := s.tasks[t := Task(work, Waiting(lock), [])],
                  keyLocks := s.keyLocks[work.Key() := lock]);
    assert s2.tasks == s1.tasks[t := s1.tasks[t].(phase := Waiting(lock))];
    ReachNext(cfg, s1, s2, t, LookingUp(lock));
    s' := s2.(tasks := s.tasks[t := Task(work, Holding(lock), [])], holders := s.holders[lock := t]);
    assert s'.tasks == s2.tasks[t := s2.tasks[t].(phase := Holding(lock))];
    ReachNext(cfg, s2, s', t, Acquiring);
  }

  // Two tasks with this work hold their locks at the same time.
  ghost predicate SideBySide(s: State, work: Work, work': Work) {
    exists t, u | t in s.tasks && u in s.tasks && t != u ::
      && s.tasks[t].work == work && s.tasks[t].phase.Holding?
      && s.tasks[u].work == work' && s.tasks[u].phase.Holding?
  }

  // From a fresh start two tasks of different keys come to hold their locks.
  lemma ReachSideBySide(cfg: Config, work: Work, work': Work) returns (s: State)
    requires work.OfOneKey() && work'.OfOneKey() && work.Key() != work'.Key()
    ensures Reachable(cfg, s) && s.consumed == {}
    ensures s.tasks == map[0 := Task(work, Holding(0), []), 1 := Task(work', Holding(1), [])]
  {
    hide Work.OfOneKey, Work.Key;
    s := State(map[], map[], map[], {}, []);
    assert RunTo(cfg, [s], [], s);
    hide Reachable;
    s := ReachHolding(cfg, s, 0, work, 0);
    s := ReachHolding(cfg, s, 1, work', 1);
  }

  lemma NeverSideBySide(s: State, work: Work, work': Work)
    requires LocksAgree(s) && work.Key() == work'.Key()
    ensures !SideBySide(s, work, work')
  {
    forall t, u | t in s.tasks && u in s.tasks && s.tasks[t].work == work && s.tasks[u].work == work'
                  && s.tasks[t].phase.Holding? && s.tasks[u].phase.Holding?
      ensures t == u
    {
      OneHolder(s, t, u);
    }
  }

  // Work is done side by side in some run exactly when no message of the one
  // has the key of a message of the other.
  lemma SideBySideExactly(cfg: Config, work: Work, work': Work)
    requires work.OfOneKey() && work'.OfOneKey()
    ensures (exists s :: Reachable(cfg, s) && SideBySide(s, work, work')) <==> !Contend(work, work')
  {
    ContendMeans(work, work');
    hide Contend, Work.OfOneKey, Work.Key;
    if work.Key() != work'.Key() {
      var s := ReachSideBySide(cfg, work, work');
      assert 0 in s.tasks && 1 in s.tasks;
      assert SideBySide(s, work, work');
    } else if s :| Reachable(cfg, s) && SideBySide(s, work, work') {
      var states, turns :| RunTo(cfg, states, turns, s);
      InvAlways(cfg, states, turns, |states| - 1);
      hide SideBySide, LocksAgree, Run;
      NeverSideBySide(s, work, work');
    }
  }

  // What the task has done, and what the store holds afterwards.
  function After(s: State, t: TaskId, e: Event, consumed: set<string>): State
    requires t in s.tasks
  {
    s.(tasks := s.tasks[t := s.tasks[t].(history := s.tasks[t].history + [e])],
       consumed := consumed, trace := s.trace + [Stamped(t, e)])
  }

  lemma ReachDone(cfg: Config, s: State, t: TaskId, e: Event, consumed: set<string>)
    requires Reachable(cfg, s) && t in s.tasks && s.tasks[t].phase.Holding? && s.tasks[t].work.One?
    requires Next(Single(cfg, s.tasks[t].work.message), s.tasks[t].history) == Do(e.op)
    requires Fits(e.op, e.reply) && StoreAnswers(s.consumed, consumed, e.op, e.reply)
    ensures Reachable(cfg, After(s, t, e, consumed))
  {
    ReachNext(cfg, s, After(s, t, e, consumed), t, Operating(e));
  }

  // The history of a message that is new, acknowledged by its handler and
  // recorded.
  function RecordedHistory(m: Message): seq<Event> {
    [Event(Check(IdempotencyKey(m)), Seen(false)), Event(Dispatch(m), Handled(Ack)),
     Event(Remember(IdempotencyKey(m)), Fine)]
  }

  lemma RecordedHistoryFollows(cfg: Config, m: Message)
    requires cfg.store
    ensures var h := RecordedHistory(m);
            && (forall n | 0 <= n < 3 :: Next(Single(cfg, m), h[..n]) == Do(h[n].op))
            && Follows(Single(cfg, m), h) && Fulfilled(h, Remember(IdempotencyKey(m)))
  {
    var h := RecordedHistory(m);
    assert h[..0] == [] && h[..1] == [h[0]] && h[..2] == [h[0], h[1]];
    assert h[2] in h;
    forall i | 0 <= i < 3 ensures FollowsAt(Single(cfg, m), h, i) {}
  }

  // The task goes through the next event of that history.
  lemma ReachStep(cfg: Config, s: State, t: TaskId, m: Message, n: nat, consumed: set<string>)
    requires cfg.store && n < 3 && Reachable(cfg, s)
    requires t in s.tasks && s.tasks[t].phase.Holding? && s.tasks[t].work == One(m)
    requires s.tasks[t].history == RecordedHistory(m)[..n]
    requires StoreAnswers(s.consumed, consumed, RecordedHistory(m)[n].op, RecordedHistory(m)[n].reply)
    ensures var s' := After(s, t, RecordedHistory(m)[n], consumed);
            Reachable(cfg, s') && s'.tasks[t].history == RecordedHistory(m)[..n + 1]
  {
    RecordedHistoryFollows(cfg, m);
    ReachDone(cfg, s, t, RecordedHistory(m)[n], consumed);
  }

  // Two tasks some way through that history.
  ghost predicate AtStage(s: State, m: Message, m': Message, n: nat, n': nat)
    requires n <= 3 && n' <= 3
  {
    && s.tasks == map[0 := Task(One(m), Holding(0), RecordedHistory(m)[..n]),
                      1 := Task(One(m'), Holding(1), RecordedHistory(m')[..n'])]
    && s.consumed == if n == 3 || n' == 3 then {IdempotencyKey(m)} else {}
  }

  lemma FirstMoves(cfg: Config, s: State, m: Message, m': Message, n: nat, n': nat) returns (s': State)
    requires cfg.store && Reachable(cfg, s) && n < 3 && n' <= 3 && (n == 0 ==> n' < 3)
    requires AtStage(s, m, m', n, n')
    ensures Reachable(cfg, s') && AtStage(s', m, m', n + 1, n')
  {
    hide Reachable, IdempotencyKey;
    var consumed := if n == 2 then s.consumed + {IdempotencyKey(m)} else s.consumed;
    ReachStep(cfg, s, 0, m, n, consumed);
    s' := After(s, 0, RecordedHistory(m)[n], consumed);
  }

  lemma SecondMoves(cfg: Config, s: State, m: Message, m': Message, n: nat, n': nat) returns (s': State)
    requires cfg.store && Reachable(cfg, s) && n <= 3 && n' < 3 && (n' == 0 ==> n < 3)
    requires IdempotencyKey(m) == IdempotencyKey(m') && AtStage(s, m, m', n, n')
    ensures Reachable(cfg, s') && AtStage(s', m, m', n, n' + 1)
  {
    hide Reachable, IdempotencyKey;
    var consumed := if n' == 2 then s.consumed + {IdempotencyKey(m')} else s.consumed;
    ReachStep(cfg, s, 1, m', n', consumed);
    s' := After(s, 1, RecordedHistory(m')[n'], consumed);
  }

  // Under different ordered keys both messages pass the check before either
  // is recorded.
  lemma DifferentLocksRecordBoth(cfg: Config, m: Message, m': Message) returns (s: State)
    requires cfg.store && IdempotencyKey(m) == IdempotencyKey(m') && !SharesKey(m, m')
    ensures Reachable(cfg, s) && RecordsBoth(s, m, m')
  {
    OrderedKeyShared(m, m');
    assert One(m).Messages() == [m] && One(m').Messages() == [m'];
    s := ReachSideBySide(cfg, One(m), One(m'));
    hide *;
    assert AtStage(s, m, m', 0, 0) by { FirstStage(s, m, m'); }
    s := BothMove(cfg, s, m, m');
  }

  lemma FirstStage(s: State, m: Message, m': Message)
    requires s.tasks == map[0 := Task(One(m), Holding(0), []), 1 := Task(One(m'), Holding(1), [])]
    requires s.consumed == {}
    ensures AtStage(s, m, m', 0, 0)
  {
  }

  lemma BothMove(cfg: Config, start: State, m: Message, m': Message) returns (s: State)
    requires cfg.store && IdempotencyKey(m) == IdempotencyKey(m')
    requires Reachable(cfg, start) && AtStage(start, m, m', 0, 0)
    ensures Reachable(cfg, s) && RecordsBoth(s, m, m')
  {
    hide *;
    s := FirstMoves(cfg, start, m, m', 0, 0);
    s := SecondMoves(cfg, s, m, m', 1, 0);
    s := FirstMoves(cfg, s, m, m', 1, 1);
    s := SecondMoves(cfg, s, m, m', 2, 1);
    s := FirstMoves(cfg, s, m, m', 2, 2);
    s := SecondMoves(cfg, s, m, m', 3, 2);
    StageRecords(cfg, s, m, m');
  }

  lemma StageRecords(cfg: Config, s: State, m: Message, m': Message)
    requires cfg.store && AtStage(s, m, m', 3, 3)
    ensures RecordsBoth(s, m, m')
  {
    RecordedHistoryFollows(cfg, m);
    RecordedHistoryFollows(cfg, m');
    assert RecordedHistory(m)[..3] == RecordedHistory(m) && RecordedHistory(m')[..3] == RecordedHistory(m');
    hide IdempotencyKey, RecordedHistory, Next, Follows;
    assert Recorded(s, 0) && Recorded(s, 1);
  }

  // Of two deliveries with one idempotency key both can be recorded exactly
  // when they do not share an ordered key: the store's key says nothing of the
  // lock.
  lemma RecordedTwiceExactly(cfg: Config, m: Message, m': Message)
    requires cfg.store && IdempotencyKey(m) == IdempotencyKey(m')
    ensures (exists s :: Reachable(cfg, s) && RecordsBoth(s, m, m')) <==> !SharesKey(m, m')
  {
    if !SharesKey(m, m') {
      var s := DifferentLocksRecordBoth(cfg, m, m');
    } else if s :| Reachable(cfg, s) && RecordsBoth(s, m, m') {
      var states, turns :| RunTo(cfg, states, turns, s);
      var t, u :| t in s.tasks && u in s.tasks && t != u && s.tasks[t].work == One(m) && s.tasks[u].work == One(m')
                  && Recorded(s, t) && Recorded(s, u);
      RecordedAtMostOnce(cfg, states, turns, |states| - 1, t, u);
    }
  }

  // ---- without locks ----

  // The store's side of a trace.
  ghost predicate StoreRun(start: set<string>, trace: seq<Stamped>, end: set<string>) {
    if trace == [] then end == start
    else
      var last := trace[|trace| - 1].event;
      exists before: set<string> ::
        StoreRun(start, trace[..|trace| - 1], before) && StoreAnswers(before, end, last.op, last.reply)
  }

  lemma StoreStep(start: set<string>, trace: seq<Stamped>, before: set<string>, e: Stamped, end: set<string>)
    requires StoreRun(start, trace, before) && StoreAnswers(before, end, e.event.op, e.event.reply)
    ensures StoreRun(start, trace + [e], end)
  {
    assert (trace + [e])[..|trace|] == trace;
  }

  // Without the locks - the default is not to order - two deliveries with one
  // idempotency key can both be handled and recorded, each following the
  // program and the store answering truthfully.
  lemma UnorderedRecordsTwice(cfg: Config, m: Message, m': Message, start: set<string>)
    returns (trace: seq<Stamped>, end: set<string>)
    requires cfg.store && IdempotencyKey(m) == IdempotencyKey(m') && IdempotencyKey(m) !in start
    ensures StoreRun(start, trace, end)
    ensures Follows(Single(cfg, m), Projection(trace, 0)) && Follows(Single(cfg, m'), Projection(trace, 1))
    ensures Fulfilled(Projection(trace, 0), Remember(IdempotencyKey(m)))
    ensures Fulfilled(Projection(trace, 1), Remember(IdempotencyKey(m')))
  {
    var h, h' := RecordedHistory(m), RecordedHistory(m');
    RecordedHistoryFollows(cfg, m);
    RecordedHistoryFollows(cfg, m');
    end := start + {IdempotencyKey(m)};
    trace := Interleaved(h, h');
    hide Follows, Fulfilled, Next;
    StoreAlternates(start, m, m');
    ProjectionsAre(h, h');
  }

  function Interleaved(h: seq<Event>, h': seq<Event>): seq<Stamped>
    requires |h| == |h'| == 3
  {
    [Stamped(0, h[0]), Stamped(1, h'[0]), Stamped(0, h[1]), Stamped(1, h'[1]), Stamped(0, h[2]), Stamped(1, h'[2])]
  }

  lemma StoreAlternates(start: set<string>, m: Message, m': Message)
    requires IdempotencyKey(m) == IdempotencyKey(m') && IdempotencyKey(m) !in start
    ensures StoreRun(start, Interleaved(RecordedHistory(m), RecordedHistory(m')), start + {IdempotencyKey(m)})
  {
    var t, end := Interleaved(RecordedHistory(m), RecordedHistory(m')), start + {IdempotencyKey(m)};
    hide StoreRun, IdempotencyKey;
    assert StoreRun(start, [], start) by { NoStoreRun(start); }
    StoreStep(start, [], start, t[0], start);
    StoreStep(start, [] + [t[0]], start, t[1], start);
    StoreStep(start, [] + [t[0]] + [t[1]], start, t[2], start);
    StoreStep(start, [] + [t[0]] + [t[1]] + [t[2]], start, t[3], start);
    StoreStep(start, [] + [t[0]] + [t[1]] + [t[2]] + [t[3]], start, t[4], end);
    StoreStep(start, [] + [t[0]] + [t[1]] + [t[2]] + [t[3]] + [t[4]], end, t[5], end);
    assert t == [] + [t[0]] + [t[1]] + [t[2]] + [t[3]] + [t[4]] + [t[5]];
  }

  lemma NoStoreRun(start: set<string>)
    ensures StoreRun(start, [], start)
  {
  }

  lemma ProjectionAppend(trace: seq<Stamped>, e: Stamped, t: TaskId)
    ensures Projection(trace + [e], t) == Projection(trace, t) + (if e.task == t then [e.event] else [])
  {
    assert (trace + [e])[..|trace|] == trace;
  }

  lemma ProjectionsAre(h: seq<Event>, h': seq<Event>)
    requires |h| == |h'| == 3
    ensures Projection(Interleaved(h, h'), 0) == h && Projection(Interleaved(h, h'), 1) == h'
  {
    var t := Interleaved(h, h');
    hide Projection;
    forall k | k == 0 || k == 1 ensures Projection(t, k) == if k == 0 then h else h' {
      assert Projection([], k) == [] by { UnseenProjection([], k); }
      ProjectionAppend([], t[0], k);
      ProjectionAppend([] + [t[0]], t[1], k);
      ProjectionAppend([] + [t[0]] + [t[1]], t[2], k);
      ProjectionAppend([] + [t[0]] + [t[1]] + [t[2]], t[3], k);
      ProjectionAppend([] + [t[0]] + [t[1]] + [t[2]] + [t[3]], t[4], k);
      ProjectionAppend([] + [t[0]] + [t[1]] + [t[2]] + [t[3]] + [t[4]], t[5], k);
      assert t == [] + [t[0]] + [t[1]] + [t[2]] + [t[3]] + [t[4]] + [t[5]];
    }
  }

  // ---- inside one batch ----

  // New to the store, acknowledged, recorded and settled.
  function TakenIn(m: Message): seq<Event> {
    [Event(Check(IdempotencyKey(m)), Seen(false))]
  }

  function RecordedAndAcked(m: Message): seq<Event> {
    [Event(Remember(IdempotencyKey(m)), Fine)]
    + (if m.ackHandle.Some? then [Event(AckOp(m.ackHandle.value), Fine)] else [])
  }

  function BothAcked(m: Message, m': Message): BatchHistory {
    BatchHistory([TakenIn(m), TakenIn(m')],
                 [Event(DispatchBatch([m, m']), HandledAll([Ack, Ack]))],
                 [RecordedAndAcked(m), RecordedAndAcked(m')])
  }

  lemma TakenInFinishes(cfg: Config, m: Message)
    requires cfg.store
    ensures Finished(Intake(cfg, m), TakenIn(m), Pass) && !Duplicate(cfg, TakenIn(m))
  {
    assert TakenIn(m)[..0] == [];
  }

  lemma RecordedFinishes(cfg: Config, m: Message)
    requires cfg.store
    ensures SettledOne(cfg, PendingOf(cfg, m), Returned(Ack), RecordedAndAcked(m)) && !Aborts(RecordedAndAcked(m))
    ensures OutcomeOf(RecordedAndAcked(m), VerdictPlan(cfg, PendingOf(cfg, m), Returned(Ack)).outcome) == Pass
  {
    var plan, h := VerdictPlan(cfg, PendingOf(cfg, m), Returned(Ack)), RecordedAndAcked(m);
    forall i | 0 <= i < |h| ensures FollowsAt(Carry(plan), h, i) {
      assert i == 1 ==> h[..i] == [h[0]];
    }
  }

  // The checks of a batch all come before its recordings, so two deliveries
  // with one idempotency key are both handled and recorded, and the batch
  // ends well - even in ordered mode, where they are of one group.
  lemma OneBatchRecordsTwice(cfg: Config, m: Message, m': Message)
    requires cfg.store && IdempotencyKey(m) == IdempotencyKey(m')
    ensures BatchRun(cfg, [m, m'], BothAcked(m, m'), Pass)
    ensures Fulfilled(BothAcked(m, m').settled[0], Remember(IdempotencyKey(m)))
    ensures Fulfilled(BothAcked(m, m').settled[1], Remember(IdempotencyKey(m')))
  {
    var run, ms, reply := BothAcked(m, m'), [m, m'], HandledAll([Ack, Ack]);
    BothTakenIn(cfg, m, m');
    BothSettled(cfg, m, m');
    hide IntakeRun, Kept, SettleRun, SettleOutcome;
    BatchRunParts(cfg, ms, run.intake, reply, run.settled);
    assert run.settled[0][0] == Event(Remember(IdempotencyKey(m)), Fine);
    assert run.settled[1][0] == Event(Remember(IdempotencyKey(m')), Fine);
  }

  lemma BothTakenIn(cfg: Config, m: Message, m': Message)
    requires cfg.store
    ensures IntakeRun(cfg, [m, m'], [TakenIn(m), TakenIn(m')], Pass)
    ensures Kept(cfg, [m, m'], [TakenIn(m), TakenIn(m')]) == [m, m']
  {
    TakenInFinishes(cfg, m);
    TakenInFinishes(cfg, m');
    hide Finished, Duplicate, TakenIn;
    NothingTakenIn(cfg, [m, m']);
    IntakeAppend(cfg, [m, m'], [], TakenIn(m), Pass);
    IntakeAppend(cfg, [m, m'], [] + [TakenIn(m)], TakenIn(m'), Pass);
    assert [] + [TakenIn(m)] + [TakenIn(m')] == [TakenIn(m), TakenIn(m')];
  }

  lemma BothSettled(cfg: Config, m: Message, m': Message)
    requires cfg.store
    ensures var ps, vs := PendingAll(cfg, [m, m']), BatchVerdicts(HandledAll([Ack, Ack]), 2);
            var settled := [RecordedAndAcked(m), RecordedAndAcked(m')];
            SettleRun(cfg, ps, vs, settled) && SettleOutcome(cfg, ps, vs, settled) == Pass
  {
    RecordedFinishes(cfg, m);
    RecordedFinishes(cfg, m');
    var ps, vs := PendingAll(cfg, [m, m']), BatchVerdicts(HandledAll([Ack, Ack]), 2);
    var settled := [RecordedAndAcked(m), RecordedAndAcked(m')];
    assert vs[0] == VerdictAt(HandledAll([Ack, Ack]), 2, 0) == Returned(Ack);
    assert vs[1] == VerdictAt(HandledAll([Ack, Ack]), 2, 1) == Returned(Ack);
    assert settled[..1] == [RecordedAndAcked(m)] && [RecordedAndAcked(m)][..0] == [];
    hide SettledOne, Aborts, VerdictPlan, OutcomeOf, RecordedAndAcked, PendingOf;
    assert FirstError(cfg, ps, vs, [RecordedAndAcked(m)]) == Pass;
  }
}
