// What becomes of a delivery, told by the operations performed on it: which of
// them its handler's answer calls for, and that exactly those are performed.
module Disposition {
  import opened Wrappers
  import opened Text
  import opened ConsumerTypes
  import opened Failure
  import opened Settlement
  import opened BatchSettlement
  import opened BatchSafety

  // ---- what an answer calls for ----

  // The message is to be dead-lettered: its handler said so or failed with an
  // error that no retry can mend, or its retries are used up.
  ghost predicate GivesUp(cfg: Config, m: Message, v: Verdict) {
    && cfg.policy.enableDlq
    && (|| v == Returned(MessageResult.DeadLetter)
        || (v.Raised? && Final(v.error))
        || m.retryCount >= cfg.policy.maxRetries)
  }

  // The copy tells why it was made, and how often the message was tried.
  ghost predicate Describes(failure: FailureContext, m: Message, v: Verdict) {
    && failure.retryCount == m.retryCount
    && match v
       case Returned(DeadLetter) => failure.reason == "handler_dead_letter" && failure.error == None
       case Returned(_) => failure.reason == "handler_nack" && failure.error == None
       case Raised(reason, error) => failure.reason == reason && failure.error == Some(error.ToString())
  }

  // The operation is one that the answer calls for.
  ghost predicate CalledFor(cfg: Config, m: Message, v: Verdict, op: Op) {
    if v == Returned(Ack) then
      || (cfg.store && op == Remember(IdempotencyKey(m)))
      || (op.AckOp? && m.ackHandle == Some(op.handle))
    else if GivesUp(cfg, m, v) && cfg.deadLetterPublisher then
      || (op.PublishDeadLetter? && op.message == m && Describes(op.failure, m, v))
      || (op.TermOp? && m.ackHandle == Some(op.handle))
    else if !GivesUp(cfg, m, v) && cfg.retryPublisher then
      || (op.PublishRetry? && op.message == m && Describes(op.failure, m, v))
      || (op.AckOp? && m.ackHandle == Some(op.handle))
    else
      op.NackOp? && m.ackHandle == Some(op.handle) && op.handle.nativeRetry
  }

  // The runtime can do what the answer calls for.
  ghost predicate Equipped(cfg: Config, m: Message, v: Verdict) {
    if v == Returned(Ack) then true
    else if GivesUp(cfg, m, v) then cfg.deadLetterPublisher
    else cfg.retryPublisher || (m.ackHandle.Some? && m.ackHandle.value.nativeRetry)
  }

  // How settling the message ends if every operation goes well.
  ghost function Expected(cfg: Config, m: Message, v: Verdict): TaskOutcome {
    if Equipped(cfg, m, v) then Pass else Fail(if GivesUp(cfg, m, v) then NO_DEAD_LETTER else NO_RETRY)
  }

  // The operations of the failure plan, told apart by what there is to do it
  // with.
  lemma FailurePlanDoes(cfg: Config, m: Message, v: Verdict, action: FailureAction, failure: FailureContext)
    requires v != Returned(Ack) && Describes(failure, m, v)
    requires action.DeadLetter? <==> GivesUp(cfg, m, v)
    ensures var plan := FailurePlan(cfg, PendingOf(cfg, m), action, failure);
            plan.outcome == Expected(cfg, m, v) && DoesCalledFor(cfg, m, v, plan.ops)
  {
    hide Final, IdempotencyKey;
    var plan := FailurePlan(cfg, PendingOf(cfg, m), action, failure);
    forall op ensures op in plan.ops <==> CalledFor(cfg, m, v, op) {
      if CalledFor(cfg, m, v, op) && (op.PublishRetry? || op.PublishDeadLetter?) { assert op.failure == failure; }
    }
  }

  ghost predicate DoesCalledFor(cfg: Config, m: Message, v: Verdict, ops: seq<Op>) {
    forall op :: op in ops <==> CalledFor(cfg, m, v, op)
  }

  lemma VerdictPlanDoes(cfg: Config, m: Message, v: Verdict)
    ensures var plan := VerdictPlan(cfg, PendingOf(cfg, m), v);
            plan.outcome == Expected(cfg, m, v) && DoesCalledFor(cfg, m, v, plan.ops)
  {
    hide FailurePlan, DoesCalledFor;
    match v
    case Returned(Ack) =>
      AckPlanDoes(cfg, m);
    case Returned(Nack) =>
      FailurePlanDoes(cfg, m, v, cfg.policy.ActionForNack(m.retryCount),
                      FailureContext("handler_nack", None, m.retryCount));
    case Returned(DeadLetter) =>
      FailurePlanDoes(cfg, m, v, cfg.policy.ActionForDeadLetter(),
                      FailureContext("handler_dead_letter", None, m.retryCount));
    case Raised(reason, error) =>
      RetryableKinds(error);
      FailurePlanDoes(cfg, m, v, cfg.policy.ActionForError(error, m.retryCount),
                      FailureContext(reason, Some(error.ToString()), m.retryCount));
  }

  lemma AckPlanDoes(cfg: Config, m: Message)
    ensures DoesCalledFor(cfg, m, Returned(Ack), VerdictPlan(cfg, PendingOf(cfg, m), Returned(Ack)).ops)
  {
    hide IdempotencyKey;
  }

  // ---- one settlement ----

  // The operations performed are among those called for, up to any point.
  ghost predicate OnlyCalledFor(cfg: Config, m: Message, v: Verdict, h: seq<Event>) {
    forall e | e in h :: CalledFor(cfg, m, v, e.op)
  }

  // All that is called for has been done.
  ghost predicate AllDone(cfg: Config, m: Message, v: Verdict, h: seq<Event>) {
    forall op | CalledFor(cfg, m, v, op) :: Fulfilled(h, op)
  }

  ghost predicate NoneFailed(h: seq<Event>) {
    forall e | e in h :: !e.reply.Wrong?
  }

  // How a settlement ended: with its failed operation's error, or as expected.
  ghost function EndOf(cfg: Config, m: Message, v: Verdict, h: seq<Event>): TaskOutcome {
    if h != [] && h[|h| - 1].reply.Wrong? then Fail(h[|h| - 1].reply.error) else Expected(cfg, m, v)
  }

  lemma Settles(cfg: Config, m: Message, v: Verdict, h: seq<Event>, r: TaskOutcome)
    requires Finished(Carry(VerdictPlan(cfg, PendingOf(cfg, m), v)), h, r)
    ensures OnlyCalledFor(cfg, m, v, h) && r == EndOf(cfg, m, v, h)
    ensures r.Pass? <==> Equipped(cfg, m, v) && NoneFailed(h)
    ensures NoneFailed(h) ==> AllDone(cfg, m, v, h)
  {
    var plan := VerdictPlan(cfg, PendingOf(cfg, m), v);
    PlanEvents(plan, h);
    VerdictPlanDoes(cfg, m, v);
    hide VerdictPlan, CalledFor, Equipped;
    PlanPerformed(plan, h, r);
    forall e | e in h ensures CalledFor(cfg, m, v, e.op) {
      var i :| 0 <= i < |h| && h[i] == e;
      assert plan.ops[i] in plan.ops;
    }
    if NoneFailed(h) {
      forall op | CalledFor(cfg, m, v, op) ensures Fulfilled(h, op) { assert op in plan.ops; }
    }
  }

  lemma PlanPerformed(plan: Plan, h: seq<Event>, r: TaskOutcome)
    requires Finished(Carry(plan), h, r)
    requires forall op | op in plan.ops :: !op.Check? && !op.Dispatch? && !op.DispatchBatch?
    ensures r == if h != [] && h[|h| - 1].reply.Wrong? then Fail(h[|h| - 1].reply.error) else plan.outcome
    ensures NoneFailed(h) <==> !(h != [] && h[|h| - 1].reply.Wrong?)
    ensures NoneFailed(h) ==> forall op | op in plan.ops :: Fulfilled(h, op)
  {
    PlanEvents(plan, h);
    hide Follows;
    if NoneFailed(h) {
      assert |h| == |plan.ops|;
      forall op | op in plan.ops ensures Fulfilled(h, op) {
        var i :| 0 <= i < |plan.ops| && plan.ops[i] == op;
        assert h[i] in h && h[i] == Event(op, Fine);
      }
    }
  }

  // ---- one message ----

  // How the handler ended for the message.
  ghost predicate Answered(h: seq<Event>, m: Message, v: Verdict) {
    match v
    case Returned(result) => Event(Dispatch(m), Handled(result)) in h
    case Raised(reason, error) => reason == "handler_error" && Event(Dispatch(m), Wrong(error)) in h
  }

  ghost predicate IsCheck(cfg: Config, m: Message, e: Event) {
    cfg.store && e.op == Check(IdempotencyKey(m))
  }

  lemma DuplicateNotDispatched(cfg: Config, m: Message, h: seq<Event>)
    requires Follows(Single(cfg, m), h) && Duplicate(cfg, h)
    ensures forall i | 0 <= i < |h| :: !h[i].op.Dispatch?
  {
    SingleParts(cfg, m, h);
    PlanEvents(Plan(AckOps(m.ackHandle), Pass), h[1..]);
    forall i | 0 <= i < |h| ensures !h[i].op.Dispatch? {
      if i > 0 { assert h[i] == h[1..][i - 1]; }
    }
  }

  // Where the handler is called in the history of a message.
  lemma AnswerAt(cfg: Config, m: Message, h: seq<Event>, v: Verdict)
    requires Follows(Single(cfg, m), h) && Answered(h, m, v)
    ensures |h| > Lead(cfg) && !Duplicate(cfg, h) && h[Lead(cfg)].op == Dispatch(m)
    ensures VerdictOf(h[Lead(cfg)].reply) == v
    ensures cfg.store ==> h[0] == Event(Check(IdempotencyKey(m)), Seen(false))
  {
    var answer := if v.Returned? then Handled(v.result) else Wrong(v.error);
    var i :| 0 <= i < |h| && h[i] == Event(Dispatch(m), answer);
    SingleParts(cfg, m, h);
    if Duplicate(cfg, h) {
      DuplicateNotDispatched(cfg, m, h);
    } else if |h| > Lead(cfg) {
      SettlingNotDispatched(cfg, m, VerdictOf(h[Lead(cfg)].reply), h, Lead(cfg) + 1);
    }
  }

  lemma SettlingNotDispatched(cfg: Config, m: Message, v: Verdict, h: seq<Event>, n: nat)
    requires n <= |h| && Follows(Carry(VerdictPlan(cfg, PendingOf(cfg, m), v)), h[n..])
    ensures forall i | n <= i < |h| :: !h[i].op.Dispatch?
  {
    var plan := VerdictPlan(cfg, PendingOf(cfg, m), v);
    PlanEvents(plan, h[n..]);
    NoPlanDispatches(cfg, m, v);
    hide VerdictPlan;
    forall i | n <= i < |h| ensures !h[i].op.Dispatch? {
      assert h[i] == h[n..][i - n];
      assert plan.ops[i - n] in plan.ops;
    }
  }

  lemma NoPlanDispatches(cfg: Config, m: Message, v: Verdict)
    ensures forall op | op in VerdictPlan(cfg, PendingOf(cfg, m), v).ops ::
              !op.Check? && !op.Dispatch? && !op.DispatchBatch?
  {
    VerdictPlanDoes(cfg, m, v);
    hide VerdictPlan;
  }

  // A message that was new to the store and was handled has exactly the
  // operations performed on it that its handler's answer calls for; the task
  // ends well exactly if the runtime is equipped and none of them fails, and
  // then all of them were performed.
  lemma SingleDisposes(cfg: Config, m: Message, h: seq<Event>, v: Verdict, r: TaskOutcome)
    requires Finished(Single(cfg, m), h, r) && Answered(h, m, v)
    ensures forall e | e in h && e.op != Dispatch(m) :: IsCheck(cfg, m, e) || CalledFor(cfg, m, v, e.op)
    ensures cfg.store ==> h[0] == Event(Check(IdempotencyKey(m)), Seen(false))
    ensures r.Pass? <==> Equipped(cfg, m, v) && forall e | e in h && e.op != Dispatch(m) :: !e.reply.Wrong?
    ensures r.Pass? ==> AllDone(cfg, m, v, h)
    ensures r.Fail? ==>
              r == Expected(cfg, m, v) || exists e | e in h :: e.op != Dispatch(m) && e.reply == Wrong(r.error)
  {
    AnswerAt(cfg, m, h, v);
    var n := Lead(cfg) + 1;
    var front, tail := h[..n], h[n..];
    assert h == front + tail;
    SingleParts(cfg, m, h);
    assert Next(Single(cfg, m), h) == Next(Carry(VerdictPlan(cfg, PendingOf(cfg, m), v)), tail);
    Settles(cfg, m, v, tail, r);
    NotDispatched(cfg, m, v, tail);
    hide Follows, Next, VerdictPlan, CalledFor, Equipped, Expected, IdempotencyKey, Answered, VerdictOf, Duplicate;
    Joined(cfg, m, v, front, tail);
  }

  lemma NotDispatched(cfg: Config, m: Message, v: Verdict, h: seq<Event>)
    requires OnlyCalledFor(cfg, m, v, h)
    ensures forall e | e in h :: e.op != Dispatch(m)
  {
  }

  // Check and call come before the settlement and are none of it.
  lemma Joined(cfg: Config, m: Message, v: Verdict, front: seq<Event>, tail: seq<Event>)
    requires |front| == Lead(cfg) + 1 && front[Lead(cfg)].op == Dispatch(m)
    requires cfg.store ==> front[0] == Event(Check(IdempotencyKey(m)), Seen(false))
    requires OnlyCalledFor(cfg, m, v, tail) && forall e | e in tail :: e.op != Dispatch(m)
    ensures forall e | e in front + tail && e.op != Dispatch(m) :: IsCheck(cfg, m, e) || CalledFor(cfg, m, v, e.op)
    ensures NoneFailed(tail) <==> forall e | e in front + tail && e.op != Dispatch(m) :: !e.reply.Wrong?
    ensures AllDone(cfg, m, v, tail) ==> AllDone(cfg, m, v, front + tail)
    ensures tail != [] ==> tail[|tail| - 1] in front + tail && tail[|tail| - 1].op != Dispatch(m)
  {
    hide CalledFor, IdempotencyKey;
    forall e | e in front && e.op != Dispatch(m) ensures IsCheck(cfg, m, e) && !e.reply.Wrong? {}
    forall e | e in tail ensures e in front + tail && e.op != Dispatch(m) {}
    if tail != [] { assert tail[|tail| - 1] in tail; }
  }

  // A message that never reached its handler: the store failed, or knew it,
  // and then it was acknowledged.
  lemma SingleSkips(cfg: Config, m: Message, h: seq<Event>, r: TaskOutcome)
    requires Finished(Single(cfg, m), h, r) && forall e | e in h :: !e.op.Dispatch?
    ensures h != [] && IsCheck(cfg, m, h[0])
    ensures h[0].reply.Wrong? ==> |h| == 1 && r == Fail(h[0].reply.error)
    ensures !h[0].reply.Wrong? ==> h[0].reply == Seen(true)
    ensures !h[0].reply.Wrong? ==>
              if m.ackHandle.None? then |h| == 1 && r == Pass
              else |h| == 2 && h[1].op == AckOp(m.ackHandle.value)
                   && r == if h[1].reply.Wrong? then Fail(h[1].reply.error) else Pass
  {
    SingleParts(cfg, m, h);
    if Duplicate(cfg, h) { PlanEvents(Plan(AckOps(m.ackHandle), Pass), h[1..]); }
    forall i | 0 <= i < |h| ensures !h[i].op.Dispatch? { assert h[i] in h; }
  }

  // ---- a batch ----

  // How the handler of a batch of n ended for its member k; an error, or a wrong
  // number of results, is every member's.
  ghost predicate BatchAnswered(reply: Reply, n: nat, k: nat, v: Verdict) {
    match v
    case Returned(result) =>
      reply.HandledAll? && |reply.results| == n && k < n && reply.results[k] == result
    case Raised(reason, error) =>
      && reason == "batch_handler_error"
      && (reply == Wrong(error) || (Miscounted(reply, n) && error == MiscountError(reply, n)))
  }

  predicate Miscounted(reply: Reply, n: nat) {
    reply.HandledAll? && |reply.results| != n
  }

  function MiscountError(reply: Reply, n: nat): ConsumerError
    requires Miscounted(reply, n)
  {
    Handler("batch handler returned " + Print(|reply.results|) + " results for " + Print(n) + " messages")
  }

  lemma BatchVerdict(reply: Reply, n: nat, k: nat, v: Verdict)
    requires (reply.Wrong? || reply.HandledAll?) && k < n
    ensures BatchAnswered(reply, n, k, v) <==> BatchVerdicts(reply, n)[k] == v
  {
    hide Print;
    assert BatchVerdicts(reply, n)[k] == VerdictAt(reply, n, k);
  }

  // The members that were handled, and the answer to the call.
  ghost predicate HandledBy(run: BatchHistory, kept: seq<Message>, reply: Reply) {
    run.dispatch == [Event(DispatchBatch(kept), reply)]
  }

  // Every member has exactly the operations performed on it that its handler's
  // answer calls for, up to the one that failed.
  lemma BatchDisposes(
      cfg: Config, ms: seq<Message>, run: BatchHistory, r: TaskOutcome, kept: seq<Message>, reply: Reply, k: nat,
      v: Verdict)
    requires BatchRun(cfg, ms, run, r) && HandledBy(run, kept, reply)
    requires k < |run.settled| && BatchAnswered(reply, |kept|, k, v)
    ensures |run.settled| <= |kept| && OnlyCalledFor(cfg, kept[k], v, run.settled[k])
    ensures NoneFailed(run.settled[k]) ==> AllDone(cfg, kept[k], v, run.settled[k])
    ensures r.Pass? ==> |run.settled| == |kept| && Equipped(cfg, kept[k], v) && NoneFailed(run.settled[k])
  {
    var vs := BatchVerdicts(reply, |kept|);
    BatchVerdict(reply, |kept|, k, v);
    assert SettledOne(cfg, PendingOf(cfg, kept[k]), vs[k], run.settled[k]);
    Settles(cfg, kept[k], v, run.settled[k],
            OutcomeOf(run.settled[k], VerdictPlan(cfg, PendingOf(cfg, kept[k]), v).outcome));
    hide OnlyCalledFor, AllDone, NoneFailed, Equipped, BatchAnswered, VerdictPlan, SettledOne;
    if r.Pass? {
      AbortFails(cfg, PendingAll(cfg, kept), vs, run.settled);
      NoErrorAnywhere(cfg, PendingAll(cfg, kept), vs, run.settled, k);
    }
  }

  // Settling was cut short because a message could not be remembered.
  ghost predicate CutShort(settled: seq<seq<Event>>, k: nat) {
    k < |settled| && exists key, e :: settled[k] != [] && settled[k][|settled[k]| - 1] == Event(Remember(key), Wrong(e))
  }

  // The ends of the settlements.
  ghost predicate Ends(
      cfg: Config, kept: seq<Message>, vs: seq<Verdict>, settled: seq<seq<Event>>, ends: seq<TaskOutcome>)
  {
    && |settled| <= |kept| == |vs|
    && |ends| == |settled|
    && forall k | 0 <= k < |settled| :: ends[k] == EndOf(cfg, kept[k], vs[k], settled[k])
  }

  ghost predicate FailsFirst(ends: seq<TaskOutcome>, k: nat) {
    k < |ends| && ends[k].Fail? && forall j | 0 <= j < k :: ends[j].Pass?
  }

  ghost predicate AllPass(ends: seq<TaskOutcome>) {
    forall j | 0 <= j < |ends| :: ends[j].Pass?
  }

  // The first failure, or the other outcome when there is none.
  ghost predicate FirstOf(ends: seq<TaskOutcome>, otherwise: TaskOutcome, r: TaskOutcome) {
    (exists k: nat :: FailsFirst(ends, k) && r == ends[k]) || (AllPass(ends) && r == otherwise)
  }

  lemma FirstOfNext(ends: seq<TaskOutcome>, last: TaskOutcome, r: TaskOutcome)
    requires FirstOf(ends, Pass, r)
    ensures FirstOf(ends + [last], Pass, if r.Fail? then r else last)
  {
    var more := ends + [last];
    if k: nat :| FailsFirst(ends, k) && r == ends[k] {
      assert FailsFirst(more, k);
    } else if last.Fail? {
      assert FailsFirst(more, |ends|);
    }
  }

  // A batch that was handled reports its first failed settlement, or the
  // miscount when there is none; but when a message cannot be remembered it
  // stops there and reports that.
  lemma BatchReports(
      cfg: Config, ms: seq<Message>, run: BatchHistory, r: TaskOutcome, kept: seq<Message>, reply: Reply,
      vs: seq<Verdict>, ends: seq<TaskOutcome>)
    requires BatchRun(cfg, ms, run, r) && HandledBy(run, kept, reply)
    requires |vs| == |kept| && forall k | 0 <= k < |kept| :: BatchAnswered(reply, |kept|, k, vs[k])
    requires Ends(cfg, kept, vs, run.settled, ends)
    ensures forall k: nat | CutShort(run.settled, k) :: k == |run.settled| - 1 && r == ends[k]
    ensures (forall k: nat :: !CutShort(run.settled, k)) ==>
              && |run.settled| == |kept|
              && FirstOf(ends, if Miscounted(reply, |kept|) then Fail(MiscountError(reply, |kept|)) else Pass, r)
  {
    forall k | 0 <= k < |kept| ensures BatchVerdicts(reply, |kept|)[k] == vs[k] {
      BatchVerdict(reply, |kept|, k, vs[k]);
    }
    assert BatchVerdicts(reply, |kept|) == vs;
    EndsAre(cfg, kept, vs, run.settled, ends);
    hide BatchAnswered, BatchVerdicts, SettleRun, Print, Kept, PendingAll, FirstOf, Ends, FirstError, MiscountError;
    FirstErrorIsFirst(cfg, PendingAll(cfg, kept), vs, run.settled, ends);
    AbortsLast(cfg, PendingAll(cfg, kept), vs, run.settled, ends);
    Otherwise(ends, FirstError(cfg, PendingAll(cfg, kept), vs, run.settled), r,
              if Miscounted(reply, |kept|) then Fail(MismatchError(|reply.results|, |kept|)) else Pass);
  }

  lemma Otherwise(ends: seq<TaskOutcome>, first: TaskOutcome, r: TaskOutcome, otherwise: TaskOutcome)
    requires FirstOf(ends, Pass, first)
    ensures r == (if first.Fail? then first else otherwise) ==> FirstOf(ends, otherwise, r)
  {
  }

  ghost predicate PlansEnd(
      cfg: Config, ps: seq<Pending>, vs: seq<Verdict>, settled: seq<seq<Event>>, ends: seq<TaskOutcome>)
  {
    && |ends| == |settled| <= |ps| == |vs|
    && forall k | 0 <= k < |settled| :: OutcomeOf(settled[k], VerdictPlan(cfg, ps[k], vs[k]).outcome) == ends[k]
  }

  lemma ShorterEnds(
      cfg: Config, ps: seq<Pending>, vs: seq<Verdict>, settled: seq<seq<Event>>, ends: seq<TaskOutcome>, n: nat)
    requires PlansEnd(cfg, ps, vs, settled, ends) && n <= |settled|
    ensures PlansEnd(cfg, ps, vs, settled[..n], ends[..n])
  {
    hide OutcomeOf, VerdictPlan;
  }

  // Only the last settlement can be the one that ended the batch.
  lemma AbortsLast(
      cfg: Config, ps: seq<Pending>, vs: seq<Verdict>, settled: seq<seq<Event>>, ends: seq<TaskOutcome>)
    requires SettleRun(cfg, ps, vs, settled) && PlansEnd(cfg, ps, vs, settled, ends)
    ensures forall k: nat | CutShort(settled, k) :: k == |settled| - 1 && SettleOutcome(cfg, ps, vs, settled) == ends[k]
    ensures (forall k: nat :: !CutShort(settled, k)) ==>
              |settled| == |ps| && SettleOutcome(cfg, ps, vs, settled) == FirstError(cfg, ps, vs, settled)
  {
    hide VerdictPlan, SettledOne, FirstError;
    forall k: nat ensures CutShort(settled, k) <==> k < |settled| && Aborts(settled[k]) {
      if k < |settled| && Aborts(settled[k]) {
        var last := settled[k][|settled[k]| - 1];
        assert last == Event(Remember(last.op.key), Wrong(last.reply.error));
      }
    }
  }

  lemma EndsAre(
      cfg: Config, kept: seq<Message>, vs: seq<Verdict>, settled: seq<seq<Event>>, ends: seq<TaskOutcome>)
    requires SettleRun(cfg, PendingAll(cfg, kept), vs, settled) && Ends(cfg, kept, vs, settled, ends)
    ensures PlansEnd(cfg, PendingAll(cfg, kept), vs, settled, ends)
  {
    forall k | 0 <= k < |settled|
      ensures OutcomeOf(settled[k], VerdictPlan(cfg, PendingAll(cfg, kept)[k], vs[k]).outcome) == ends[k]
    {
      EndIs(cfg, kept, vs, settled, k);
    }
  }

  lemma EndIs(cfg: Config, kept: seq<Message>, vs: seq<Verdict>, settled: seq<seq<Event>>, k: nat)
    requires SettleRun(cfg, PendingAll(cfg, kept), vs, settled) && k < |settled|
    ensures OutcomeOf(settled[k], VerdictPlan(cfg, PendingOf(cfg, kept[k]), vs[k]).outcome)
            == EndOf(cfg, kept[k], vs[k], settled[k])
  {
    Settles(cfg, kept[k], vs[k], settled[k],
            OutcomeOf(settled[k], VerdictPlan(cfg, PendingOf(cfg, kept[k]), vs[k]).outcome));
  }

  lemma {:induction false} FirstErrorIsFirst(
      cfg: Config, ps: seq<Pending>, vs: seq<Verdict>, settled: seq<seq<Event>>, ends: seq<TaskOutcome>)
    requires PlansEnd(cfg, ps, vs, settled, ends)
    ensures FirstOf(ends, Pass, FirstError(cfg, ps, vs, settled))
  {
    if settled != [] {
      var n := |settled| - 1;
      ShorterEnds(cfg, ps, vs, settled, ends, n);
      FirstErrorIsFirst(cfg, ps, vs, settled[..n], ends[..n]);
      FirstOfNext(ends[..n], ends[n], FirstError(cfg, ps, vs, settled[..n]));
      assert ends == ends[..n] + [ends[n]];
      hide OutcomeOf, VerdictPlan, FirstOf;
    }
  }

  // Every member is checked before any is handled. A failing store or broker
  // ends the batch there, and a member known to the store is acknowledged.
  lemma BatchChecks(cfg: Config, ms: seq<Message>, run: BatchHistory, r: TaskOutcome, i: nat)
    requires BatchRun(cfg, ms, run, r) && i < |run.intake|
    ensures |run.intake| <= |ms| && (run.dispatch != [] ==> |run.intake| == |ms|)
    ensures var h := run.intake[i];
            if !cfg.store then h == []
            else
              && h != [] && h[0].op == Check(IdempotencyKey(ms[i]))
              && (h[0].reply.Wrong? || h[0].reply.Seen?)
              && (h[0].reply == Seen(true) && ms[i].ackHandle.Some? ==>
                    |h| == 2 && h[1].op == AckOp(ms[i].ackHandle.value))
              && (h[0].reply != Seen(true) || ms[i].ackHandle.None? ==> |h| == 1)
              && (h[|h| - 1].reply.Wrong? ==>
                    i == |run.intake| - 1 && run.dispatch == [] && r == Fail(h[|h| - 1].reply.error))
  {
    var h, q := run.intake[i], if i == |run.intake| - 1 && run.dispatch == [] then r else Pass;
    assert Finished(Intake(cfg, ms[i]), h, q);
    hide BatchRun;
    IntakeChecks(cfg, ms[i], h, q);
  }

  lemma IntakeChecks(cfg: Config, m: Message, h: seq<Event>, r: TaskOutcome)
    requires Finished(Intake(cfg, m), h, r)
    ensures if !cfg.store then h == []
            else
              && h != [] && h[0].op == Check(IdempotencyKey(m))
              && (h[0].reply.Wrong? || h[0].reply.Seen?)
              && (h[0].reply == Seen(true) && m.ackHandle.Some? ==> |h| == 2 && h[1].op == AckOp(m.ackHandle.value))
              && (h[0].reply != Seen(true) || m.ackHandle.None? ==> |h| == 1)
              && r == if h[|h| - 1].reply.Wrong? then Fail(h[|h| - 1].reply.error) else Pass
  {
    SingleFromIntake(cfg, m, h, r);
    if h != [] { assert FollowsAt(Intake(cfg, m), h, 0); }
    if r.Fail? || Duplicate(cfg, h) {
      forall i | 0 <= i < |h| ensures !h[i].op.Dispatch? {
        assert FollowsAt(Intake(cfg, m), h, i);
      }
      SingleSkips(cfg, m, h, r);
    }
  }
}
