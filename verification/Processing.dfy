// The tasks themselves: process_message and process_batch, written as the
// sequence of calls they make, and shown to follow their programs.
module Processing {
  import opened Wrappers
  import opened ConsumerTypes
  import opened Failure
  import opened Settlement
  import opened BatchSettlement

  // Everything outside the task. Any operation may fail, and every answer of
  // the right kind is possible.
  class Environment {
    ghost var trace: seq<Event>

    constructor ()
      ensures trace == []
    {
      trace := [];
    }

    method Perform(op: Op) returns (reply: Reply)
      modifies this
      ensures Fits(op, reply)
      ensures trace == old(trace) + [Event(op, reply)]
    {
      var fails: bool := *;
      if fails {
        var error: ConsumerError := *;
        reply := Wrong(error);
      } else {
        match op {
          case Check(_) =>
            var duplicate: bool := *;
            reply := Seen(duplicate);
          case Dispatch(_) =>
            var result: MessageResult := *;
            reply := Handled(result);
          case DispatchBatch(_) =>
            var results: seq<MessageResult> := *;
            reply := HandledAll(results);
          case _ => reply := Fine;
        }
      }
      trace := trace + [Event(op, reply)];
    }
  }

  // ---- one message ----

  method ApplyFailureAction(env: Environment, cfg: Config, p: Pending, action: FailureAction, failure: FailureContext)
    returns (r: TaskOutcome, ghost h: seq<Event>)
    modifies env
    ensures env.trace == old(env.trace) + h
    ensures Finished(Carry(FailurePlan(cfg, p, action, failure)), h, r)
  {
    ghost var program := Carry(FailurePlan(cfg, p, action, failure));
    h := [];
    match action {
      case Retry =>
        if cfg.retryPublisher {
          if p.kept.None? { return Fail(RETRY_NEEDS_MESSAGE), h; }
          var published := env.Perform(PublishRetry(p.kept.value, failure));
          FollowsStep(program, h, Event(PublishRetry(p.kept.value, failure), published));
          h := h + [Event(PublishRetry(p.kept.value, failure), published)];
          if published.Wrong? { return Fail(published.error), h; }
          if p.handle.Some? {
            var acked := env.Perform(AckOp(p.handle.value));
            FollowsStep(program, h, Event(AckOp(p.handle.value), acked));
            h := h + [Event(AckOp(p.handle.value), acked)];
            if acked.Wrong? { return Fail(acked.error), h; }
          }
          return Pass, h;
        }
        if p.handle.Some? && p.handle.value.nativeRetry {
          var nacked := env.Perform(NackOp(p.handle.value));
          FollowsStep(program, h, Event(NackOp(p.handle.value), nacked));
          h := h + [Event(NackOp(p.handle.value), nacked)];
          return if nacked.Wrong? then Fail(nacked.error) else Pass, h;
        }
        return Fail(NO_RETRY), h;
      case DeadLetter =>
        if !cfg.deadLetterPublisher {
          if p.handle.Some? && p.handle.value.nativeRetry {
            var nacked := env.Perform(NackOp(p.handle.value));
            FollowsStep(program, h, Event(NackOp(p.handle.value), nacked));
            h := h + [Event(NackOp(p.handle.value), nacked)];
            if nacked.Wrong? { return Fail(nacked.error), h; }
          }
          return Fail(NO_DEAD_LETTER), h;
        }
        if p.kept.None? { return Fail(DEAD_LETTER_NEEDS_MESSAGE), h; }
        var published := env.Perform(PublishDeadLetter(p.kept.value, failure));
        FollowsStep(program, h, Event(PublishDeadLetter(p.kept.value, failure), published));
        h := h + [Event(PublishDeadLetter(p.kept.value, failure), published)];
        if published.Wrong? { return Fail(published.error), h; }
        if p.handle.Some? {
          var termed := env.Perform(TermOp(p.handle.value));
          FollowsStep(program, h, Event(TermOp(p.handle.value), termed));
          h := h + [Event(TermOp(p.handle.value), termed)];
          if termed.Wrong? { return Fail(termed.error), h; }
        }
        return Pass, h;
    }
  }

  method ApplyAck(env: Environment, cfg: Config, p: Pending)
    returns (r: TaskOutcome, aborted: bool, ghost h: seq<Event>)
    modifies env
    ensures env.trace == old(env.trace) + h
    ensures Finished(Carry(VerdictPlan(cfg, p, Returned(Ack))), h, r)
    ensures aborted <==> Aborts(h)
  {
    ghost var program := Carry(VerdictPlan(cfg, p, Returned(Ack)));
    h := [];
    if cfg.store {
      var remembered := env.Perform(Remember(p.key));
      FollowsStep(program, h, Event(Remember(p.key), remembered));
      h := h + [Event(Remember(p.key), remembered)];
      if remembered.Wrong? { return Fail(remembered.error), true, h; }
    }
    if p.handle.Some? {
      var acked := env.Perform(AckOp(p.handle.value));
      FollowsStep(program, h, Event(AckOp(p.handle.value), acked));
      h := h + [Event(AckOp(p.handle.value), acked)];
      if acked.Wrong? { return Fail(acked.error), false, h; }
    }
    return Pass, false, h;
  }

  // Settles one message by its handler's verdict. `aborted` tells that the
  // store failed to remember the message, which ends a whole batch.
  method ApplyVerdict(env: Environment, cfg: Config, p: Pending, v: Verdict)
    returns (r: TaskOutcome, aborted: bool, ghost h: seq<Event>)
    modifies env
    ensures env.trace == old(env.trace) + h
    ensures Finished(Carry(VerdictPlan(cfg, p, v)), h, r)
    ensures aborted <==> Aborts(h)
  {
    var action, failure;
    match v {
      case Returned(Ack) =>
        r, aborted, h := ApplyAck(env, cfg, p);
        return;
      case Returned(Nack) =>
        action := cfg.policy.ActionForNack(p.retryCount);
        failure := FailureContext("handler_nack", None, p.retryCount);
      case Returned(DeadLetter) =>
        action := cfg.policy.ActionForDeadLetter();
        failure := FailureContext("handler_dead_letter", None, p.retryCount);
      case Raised(reason, error) =>
        action := cfg.policy.ActionForError(error, p.retryCount);
        failure := FailureContext(reason, Some(error.ToString()), p.retryCount);
    }
    r, h := ApplyFailureAction(env, cfg, p, action, failure);
    FailureNeverAborts(cfg, p, action, failure, h);
    aborted := false;
  }

  // Asks the store about one message and acknowledges it if it was handled
  // before.
  method TakeIn(env: Environment, cfg: Config, m: Message)
    returns (r: TaskOutcome, duplicate: bool, ghost h: seq<Event>)
    modifies env
    ensures env.trace == old(env.trace) + h
    ensures Finished(Intake(cfg, m), h, r)
    ensures duplicate <==> Duplicate(cfg, h)
  {
    ghost var program := Intake(cfg, m);
    h := [];
    if !cfg.store { return Pass, false, h; }
    var seen := env.Perform(Check(IdempotencyKey(m)));
    FollowsStep(program, h, Event(Check(IdempotencyKey(m)), seen));
    h := h + [Event(Check(IdempotencyKey(m)), seen)];
    if seen.Wrong? { return Fail(seen.error), false, h; }
    if !seen.duplicate { return Pass, false, h; }
    if m.ackHandle.Some? {
      var acked := env.Perform(AckOp(m.ackHandle.value));
      FollowsStep(program, h, Event(AckOp(m.ackHandle.value), acked));
      h := h + [Event(AckOp(m.ackHandle.value), acked)];
      if acked.Wrong? { return Fail(acked.error), true, h; }
    }
    return Pass, true, h;
  }

  method ProcessMessage(env: Environment, cfg: Config, m: Message) returns (r: TaskOutcome, ghost h: seq<Event>)
    modifies env
    ensures env.trace == old(env.trace) + h
    ensures Finished(Single(cfg, m), h, r)
  {
    hide *;
    var taken, duplicate;
    taken, duplicate, h := TakeIn(env, cfg, m);
    SingleFromIntake(cfg, m, h, taken);
    if taken.Fail? || duplicate { return taken, h; }

    var handled := env.Perform(Dispatch(m));
    SingleAnswered(cfg, m, h, Event(Dispatch(m), handled));
    h := h + [Event(Dispatch(m), handled)];
    var aborted;
    ghost var tail;
    r, aborted, tail := ApplyVerdict(env, cfg, PendingOf(cfg, m), VerdictOf(handled));
    SingleFromVerdict(cfg, m, h, tail, r);
    h := h + tail;
  }

  // ---- a batch ----

  method ApplyVerdicts(env: Environment, cfg: Config, pending: seq<Pending>, verdicts: seq<Verdict>)
    returns (r: TaskOutcome, ghost settled: seq<seq<Event>>)
    requires |pending| == |verdicts|
    modifies env
    ensures env.trace == old(env.trace) + Flatten(settled)
    ensures SettleRun(cfg, pending, verdicts, settled)
    ensures r == SettleOutcome(cfg, pending, verdicts, settled)
  {
    hide *;
    NothingSettled(cfg, pending, verdicts);
    settled := [];
    var firstError: TaskOutcome := Pass;
    var i := 0;
    while i < |pending|
      invariant i == |settled| <= |pending|
      invariant env.trace == old(env.trace) + Flatten(settled)
      invariant SettlePrefix(cfg, pending, verdicts, settled)
      invariant firstError == FirstError(cfg, pending, verdicts, settled)
    {
      var one, aborted;
      ghost var h;
      one, aborted, h := ApplyVerdict(env, cfg, pending[i], verdicts[i]);
      FlattenAppend(settled, h);
      SettleAppend(cfg, pending, verdicts, settled, h, one);
      settled := settled + [h];
      if aborted { return one, settled; }
      if one.Fail? && firstError.Pass? { firstError := one; }
      i := i + 1;
    }
    SettleDone(cfg, pending, verdicts, settled);
    r := firstError;
  }

  // Takes in the members of a batch until the store or the broker fails.
  method TakeInAll(env: Environment, cfg: Config, ms: seq<Message>)
    returns (r: TaskOutcome, kept: seq<Message>, pending: seq<Pending>, ghost intake: seq<seq<Event>>)
    modifies env
    ensures env.trace == old(env.trace) + Flatten(intake)
    ensures IntakeRun(cfg, ms, intake, r)
    ensures r.Pass? ==> |intake| == |ms| && kept == Kept(cfg, ms, intake) && pending == PendingAll(cfg, kept)
  {
    hide *;
    intake, kept, pending := [], [], [];
    NothingTakenIn(cfg, ms);
    var i := 0;
    while i < |ms|
      invariant i == |intake| <= |ms|
      invariant env.trace == old(env.trace) + Flatten(intake)
      invariant IntakeRun(cfg, ms, intake, Pass)
      invariant kept == Kept(cfg, ms, intake)
      invariant pending == PendingAll(cfg, kept)
    {
      ghost var h;
      var taken, duplicate;
      taken, duplicate, h := TakeIn(env, cfg, ms[i]);
      FlattenAppend(intake, h);
      IntakeAppend(cfg, ms, intake, h, taken);
      intake := intake + [h];
      if taken.Fail? { return taken, kept, pending, intake; }
      if !duplicate {
        PendingAppend(cfg, kept, ms[i]);
        kept, pending := kept + [ms[i]], pending + [PendingOf(cfg, ms[i])];
      }
      i := i + 1;
    }
    r := Pass;
  }

  // Calls the handler for the members kept and settles each by its verdict.
  method HandleKept(env: Environment, cfg: Config, kept: seq<Message>, pending: seq<Pending>)
    returns (r: TaskOutcome, ghost reply: Reply, ghost settled: seq<seq<Event>>)
    requires pending == PendingAll(cfg, kept)
    modifies env
    ensures reply.Wrong? || reply.HandledAll?
    ensures env.trace == old(env.trace) + [Event(DispatchBatch(kept), reply)] + Flatten(settled)
    ensures SettleRun(cfg, pending, BatchVerdicts(reply, |kept|), settled)
    ensures r == BatchOutcome(SettleOutcome(cfg, pending, BatchVerdicts(reply, |kept|), settled), reply, |kept|)
  {
    var handled := env.Perform(DispatchBatch(kept));
    reply := handled;
    r, settled := ApplyVerdicts(env, cfg, pending, BatchVerdicts(handled, |kept|));
    r := BatchOutcome(r, handled, |kept|);
  }

  method ProcessBatch(env: Environment, cfg: Config, ms: seq<Message>)
    returns (r: TaskOutcome, ghost run: BatchHistory)
    modifies env
    ensures env.trace == old(env.trace) + run.Events()
    ensures BatchRun(cfg, ms, run, r)
  {
    ghost var before := env.trace;
    var kept, pending;
    ghost var intake;
    r, kept, pending, intake := TakeInAll(env, cfg, ms);
    if r.Fail? || kept == [] {
      run := BatchHistory(intake, [], []);
      assert run.Events() == Flatten(intake);
    } else {
      ghost var reply, settled;
      r, reply, settled := HandleKept(env, cfg, kept, pending);
      run := BatchHistory(intake, [Event(DispatchBatch(kept), reply)], settled);
      BatchRunParts(cfg, ms, intake, reply, settled);
      BatchTrace(before, run);
    }
  }

  lemma BatchTrace(before: seq<Event>, run: BatchHistory)
    ensures before + Flatten(run.intake) + run.dispatch + Flatten(run.settled) == before + run.Events()
  {
  }
}
