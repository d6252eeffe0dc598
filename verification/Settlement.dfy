// How the runtime handles one delivery or one batch: the duplicate check, the
// handler, and the single broker settlement that may follow.
//
// Everything a task asks of the outside world - idempotency store, handler,
// publishers, broker - is an operation with a reply, and any operation may
// fail. A task's program is the function `Next` from the events so far to the
// next operation or the returned outcome. The methods are shown to follow it.
module Settlement {
  import opened Wrappers
  import opened ConsumerTypes
  import opened Failure

  type TaskOutcome = Outcome<ConsumerError>

  datatype Op =
    | Check(key: string)
    | Dispatch(message: Message)
    | DispatchBatch(messages: seq<Message>)
    | Remember(key: string)
    | PublishRetry(message: Message, failure: FailureContext)
    | PublishDeadLetter(message: Message, failure: FailureContext)
    | AckOp(handle: AckHandle)
    | NackOp(handle: AckHandle)
    | TermOp(handle: AckHandle)
  {
    predicate Settles() { AckOp? || NackOp? || TermOp? }
  }

  datatype Reply =
    | Fine
    | Wrong(error: ConsumerError)
    | Seen(duplicate: bool)
    | Handled(result: MessageResult)
    | HandledAll(results: seq<MessageResult>)

  predicate Fits(op: Op, reply: Reply) {
    match op
    case Check(_) => reply.Wrong? || reply.Seen?
    case Dispatch(_) => reply.Wrong? || reply.Handled?
    case DispatchBatch(_) => reply.Wrong? || reply.HandledAll?
    case _ => reply.Wrong? || reply.Fine?
  }

  datatype Event = Event(op: Op, reply: Reply)

  datatype Step = Do(op: Op) | Return(outcome: TaskOutcome)

  // ---- configuration and plans ----

  datatype Config = Config(policy: RetryPolicy, retryPublisher: bool, deadLetterPublisher: bool, store: bool)

  // What is kept of a message while its handler runs.
  datatype Pending = Pending(
    key: string, retryCount: u32, handle: Option<AckHandle>, kept: Option<Message>)

  function PendingOf(cfg: Config, m: Message): Pending {
    Pending(IdempotencyKey(m), m.retryCount, m.ackHandle,
            if cfg.retryPublisher || cfg.deadLetterPublisher then Some(m) else None)
  }

  // Operations to perform in order, stopping at the first that fails, and the
  // outcome when none does.
  datatype Plan = Plan(ops: seq<Op>, outcome: TaskOutcome)

  function AckOps(handle: Option<AckHandle>): seq<Op> {
    if handle.Some? then [AckOp(handle.value)] else []
  }

  function TermOps(handle: Option<AckHandle>): seq<Op> {
    if handle.Some? then [TermOp(handle.value)] else []
  }

  predicate Native(handle: Option<AckHandle>) {
    handle.Some? && handle.value.nativeRetry
  }

  // The runtime's own errors, with their texts shortened.
  const NO_RETRY := RetryFailed("not configured")
  const RETRY_NEEDS_MESSAGE := RetryFailed("no message")
  const NO_DEAD_LETTER := DeadLetterFailed("not configured")
  const DEAD_LETTER_NEEDS_MESSAGE := DeadLetterFailed("no message")

  function FailurePlan(cfg: Config, p: Pending, action: FailureAction, failure: FailureContext): Plan {
    match action
    case Retry =>
      if cfg.retryPublisher then
        if p.kept.None? then Plan([], Fail(RETRY_NEEDS_MESSAGE))
        else Plan([PublishRetry(p.kept.value, failure)] + AckOps(p.handle), Pass)
      else if Native(p.handle) then Plan([NackOp(p.handle.value)], Pass)
      else Plan([], Fail(NO_RETRY))
    case DeadLetter =>
      if !cfg.deadLetterPublisher then
        Plan(if Native(p.handle) then [NackOp(p.handle.value)] else [], Fail(NO_DEAD_LETTER))
      else if p.kept.None? then Plan([], Fail(DEAD_LETTER_NEEDS_MESSAGE))
      else Plan([PublishDeadLetter(p.kept.value, failure)] + TermOps(p.handle), Pass)
  }

  // How the handler ended for one message.
  datatype Verdict = Returned(result: MessageResult) | Raised(reason: string, error: ConsumerError)

  function VerdictPlan(cfg: Config, p: Pending, v: Verdict): Plan {
    match v
    case Returned(Ack) =>
      Plan((if cfg.store then [Remember(p.key)] else []) + AckOps(p.handle), Pass)
    case Returned(Nack) =>
      FailurePlan(cfg, p, cfg.policy.ActionForNack(p.retryCount),
                  FailureContext("handler_nack", None, p.retryCount))
    case Returned(DeadLetter) =>
      FailurePlan(cfg, p, cfg.policy.ActionForDeadLetter(),
                  FailureContext("handler_dead_letter", None, p.retryCount))
    case Raised(reason, error) =>
      FailurePlan(cfg, p, cfg.policy.ActionForError(error, p.retryCount),
                  FailureContext(reason, Some(error.ToString()), p.retryCount))
  }

  // ---- programs ----

  datatype Program =
    | Carry(plan: Plan)               // carry out a plan
    | Intake(cfg: Config, m: Message) // duplicate check of a batch member
    | Single(cfg: Config, m: Message) // process_message

  function NextOfPlan(plan: Plan, h: seq<Event>): Step {
    if h != [] && h[|h| - 1].reply.Wrong? then Return(Fail(h[|h| - 1].reply.error))
    else if |h| < |plan.ops| then Do(plan.ops[|h|])
    else Return(plan.outcome)
  }

  function NextOfIntake(cfg: Config, m: Message, h: seq<Event>): Step {
    if !cfg.store then Return(Pass)
    else if h == [] then Do(Check(IdempotencyKey(m)))
    else match h[0].reply
      case Wrong(e) => Return(Fail(e))
      case Seen(true) => NextOfPlan(Plan(AckOps(m.ackHandle), Pass), h[1..])
      case _ => Return(Pass)
  }

  // The intake has said that the message was handled before.
  predicate Duplicate(cfg: Config, h: seq<Event>) {
    cfg.store && h != [] && h[0].reply == Seen(true)
  }

  function VerdictOf(reply: Reply): Verdict {
    match reply
    case Handled(result) => Returned(result)
    case Wrong(e) => Raised("handler_error", e)
    case _ => Returned(Nack)
  }

  // The number of events before the handler is called.
  function Lead(cfg: Config): nat { if cfg.store then 1 else 0 }

  function NextOfSingle(cfg: Config, m: Message, h: seq<Event>): Step {
    if |h| < Lead(cfg) || Duplicate(cfg, h) || (cfg.store && h[0].reply.Wrong?) then NextOfIntake(cfg, m, h)
    else if |h| == Lead(cfg) then Do(Dispatch(m))
    else NextOfPlan(VerdictPlan(cfg, PendingOf(cfg, m), VerdictOf(h[Lead(cfg)].reply)), h[Lead(cfg) + 1..])
  }

  function Next(p: Program, h: seq<Event>): Step {
    match p
    case Carry(plan) => NextOfPlan(plan, h)
    case Intake(cfg, m) => NextOfIntake(cfg, m, h)
    case Single(cfg, m) => NextOfSingle(cfg, m, h)
  }

  // `h` is a possible history of the program, finished or not.
  ghost predicate Follows(p: Program, h: seq<Event>) {
    forall i | 0 <= i < |h| :: FollowsAt(p, h, i)
  }

  ghost predicate FollowsAt(p: Program, h: seq<Event>, i: nat)
    requires i < |h|
  {
    Next(p, h[..i]) == Do(h[i].op) && Fits(h[i].op, h[i].reply)
  }

  ghost predicate Finished(p: Program, h: seq<Event>, r: TaskOutcome) {
    Follows(p, h) && Next(p, h) == Return(r)
  }

  lemma FollowsStep(p: Program, h: seq<Event>, e: Event)
    requires Follows(p, h) && Next(p, h) == Do(e.op) && Fits(e.op, e.reply)
    ensures Follows(p, h + [e])
  {
    forall i | 0 <= i < |h + [e]| ensures FollowsAt(p, h + [e], i) {
      assert (h + [e])[..i] == h[..i];
      if i < |h| { assert FollowsAt(p, h, i); } else { assert h[..i] == h; }
    }
  }

  // ---- what the source promises of a history ----

  ghost predicate Fulfilled(h: seq<Event>, op: Op) {
    Event(op, Fine) in h
  }

  // The handler has answered Ack for this message.
  ghost predicate HandlerAcked(h: seq<Event>, m: Message) {
    || Event(Dispatch(m), Handled(Ack)) in h
    || exists e | e in h :: AckedInBatch(e, m)
  }

  ghost predicate AckedInBatch(e: Event, m: Message) {
    && e.op.DispatchBatch? && e.reply.HandledAll?
    && |e.reply.results| == |e.op.messages|
    && exists k | 0 <= k < |e.reply.results| :: e.op.messages[k] == m && e.reply.results[k] == Ack
  }

  // A copy of this message has been published for retry.
  ghost predicate RetryPublished(h: seq<Event>, m: Message) {
    exists e | e in h :: e.op.PublishRetry? && e.op.message == m && e.reply == Fine
  }

  ghost predicate DeadLetterPublished(h: seq<Event>, m: Message) {
    exists e | e in h :: e.op.PublishDeadLetter? && e.op.message == m && e.reply == Fine
  }

  // Letting go of `m` by `op` loses nothing, given what happened before.
  ghost predicate Justified(cfg: Config, m: Message, before: seq<Event>, op: Op) {
    match op
    case AckOp(_) =>
      || Event(Check(IdempotencyKey(m)), Seen(true)) in before
      || (HandlerAcked(before, m) && (cfg.store ==> Fulfilled(before, Remember(IdempotencyKey(m)))))
      || RetryPublished(before, m)
    case TermOp(_) => DeadLetterPublished(before, m)
    case NackOp(handle) => handle.nativeRetry
    case _ => true
  }

  ghost predicate JustifiedByOneOf(cfg: Config, ms: seq<Message>, before: seq<Event>, op: Op)
    requires op.Settles()
  {
    exists m | m in ms :: m.ackHandle == Some(op.handle) && Justified(cfg, m, before, op)
  }

  // Every settlement in the history is justified by the events before it.
  ghost predicate SafeHandOff(cfg: Config, ms: seq<Message>, h: seq<Event>) {
    forall i | 0 <= i < |h| && h[i].op.Settles() :: JustifiedByOneOf(cfg, ms, h[..i], h[i].op)
  }

  // How many settlements of a handle were attempted.
  function Settlements(h: seq<Event>, handle: AckHandle): nat {
    if h == [] then 0
    else Settlements(h[..|h| - 1], handle)
         + (if h[|h| - 1].op.Settles() && h[|h| - 1].op.handle == handle then 1 else 0)
  }

  // Every attempted settlement of the handle succeeded.
  ghost predicate SettledFine(h: seq<Event>, handle: AckHandle) {
    forall e | e in h && e.op.Settles() && e.op.handle == handle :: e.reply == Fine
  }

  // The broker was told to forget the delivery, and agreed.
  ghost predicate LetGo(h: seq<Event>, handle: AckHandle) {
    Fulfilled(h, AckOp(handle)) || Fulfilled(h, TermOp(handle))
  }

  // ---- plans: at most one settlement, last of all ----

  // A plan about one handle: it settles at most once, as its last operation.
  ghost predicate SettlesLast(plan: Plan, handle: Option<AckHandle>) {
    && (forall i | 0 <= i < |plan.ops| && plan.ops[i].Settles() ::
          i == |plan.ops| - 1 && Some(plan.ops[i].handle) == handle)
    && (plan.outcome.Pass? && handle.Some? ==> plan.ops != [] && plan.ops[|plan.ops| - 1].Settles())
    && (plan.outcome.Fail? ==> forall i | 0 <= i < |plan.ops| :: plan.ops[i].NackOp?)
  }

  lemma FailurePlanSettlesLast(cfg: Config, p: Pending, action: FailureAction, failure: FailureContext)
    ensures SettlesLast(FailurePlan(cfg, p, action, failure), p.handle)
  {
  }

  lemma VerdictPlanSettlesLast(cfg: Config, p: Pending, v: Verdict)
    ensures SettlesLast(VerdictPlan(cfg, p, v), p.handle)
  {
    match v
    case Returned(Ack) =>
    case Returned(Nack) =>
      FailurePlanSettlesLast(cfg, p, cfg.policy.ActionForNack(p.retryCount),
                             FailureContext("handler_nack", None, p.retryCount));
    case Returned(DeadLetter) =>
      FailurePlanSettlesLast(cfg, p, cfg.policy.ActionForDeadLetter(),
                             FailureContext("handler_dead_letter", None, p.retryCount));
    case Raised(reason, error) =>
      FailurePlanSettlesLast(cfg, p, cfg.policy.ActionForError(error, p.retryCount),
                             FailureContext(reason, Some(error.ToString()), p.retryCount));
  }

  // The events of a carried-out plan, one by one.
  lemma PlanEvents(plan: Plan, h: seq<Event>)
    requires Follows(Carry(plan), h)
    ensures |h| <= |plan.ops|
    ensures forall i | 0 <= i < |h| :: h[i].op == plan.ops[i] && Fits(h[i].op, h[i].reply)
    ensures forall i | 0 <= i < |h| - 1 :: !h[i].reply.Wrong?
  {
    if h != [] { assert FollowsAt(Carry(plan), h, |h| - 1); }
    forall i | 0 <= i < |h| ensures h[i].op == plan.ops[i] && Fits(h[i].op, h[i].reply) {
      assert FollowsAt(Carry(plan), h, i);
    }
    forall i | 0 <= i < |h| - 1 ensures !h[i].reply.Wrong? {
      assert FollowsAt(Carry(plan), h, i + 1) && h[..i + 1][i] == h[i];
    }
  }

  lemma {:induction false} NoSettlements(h: seq<Event>, handle: AckHandle)
    requires forall e | e in h && e.op.Settles() :: e.op.handle != handle
    ensures Settlements(h, handle) == 0
  {
    if h != [] { NoSettlements(h[..|h| - 1], handle); }
  }

  lemma {:induction false} SettlementsAppend(a: seq<Event>, b: seq<Event>, handle: AckHandle)
    ensures Settlements(a + b, handle) == Settlements(a, handle) + Settlements(b, handle)
  {
    if b == [] {
      assert a + b == a;
    } else {
      assert (a + b)[..|a + b| - 1] == a + b[..|b| - 1];
      SettlementsAppend(a, b[..|b| - 1], handle);
    }
  }

  // A plan's events settle only its own handle, and only at the end.
  lemma PlanSettlesAtEnd(plan: Plan, handle: Option<AckHandle>, h: seq<Event>)
    requires SettlesLast(plan, handle) && Follows(Carry(plan), h)
    ensures forall i | 0 <= i < |h| && h[i].op.Settles() ::
              i == |h| - 1 == |plan.ops| - 1 && Some(h[i].op.handle) == handle
  {
    PlanEvents(plan, h);
  }

  // One plan settles its handle at most once; when it ends well, exactly once
  // and successfully; when it ends badly, the broker still owns the delivery.
  lemma PlanSettles(plan: Plan, handle: AckHandle, h: seq<Event>)
    requires SettlesLast(plan, Some(handle)) && Follows(Carry(plan), h)
    ensures Settlements(h, handle) <= 1
    ensures Next(Carry(plan), h) == Return(Pass) ==> Settlements(h, handle) == 1 && SettledFine(h, handle)
    ensures Next(Carry(plan), h).Return? && Next(Carry(plan), h).outcome.Fail? ==> !LetGo(h, handle)
  {
    PlanEvents(plan, h);
    PlanSettlesAtEnd(plan, Some(handle), h);
    if h != [] {
      var last := h[|h| - 1];
      NoSettlements(h[..|h| - 1], handle);
      if LetGo(h, handle) { assert last.op.Settles() && last.reply == Fine; }
    }
  }

  // ---- one message ----

  // A single message's history: intake, handler, settlement.
  lemma SingleParts(cfg: Config, m: Message, h: seq<Event>)
    requires Follows(Single(cfg, m), h)
    ensures cfg.store && h != [] ==> h[0].op == Check(IdempotencyKey(m)) && (h[0].reply.Wrong? || h[0].reply.Seen?)
    ensures cfg.store && h != [] && h[0].reply.Wrong? ==> |h| == 1
    ensures Duplicate(cfg, h) ==> Follows(Carry(Plan(AckOps(m.ackHandle), Pass)), h[1..])
    ensures |h| > Lead(cfg) && !Duplicate(cfg, h) ==>
              && h[Lead(cfg)].op == Dispatch(m) && (h[Lead(cfg)].reply.Wrong? || h[Lead(cfg)].reply.Handled?)
              && Follows(Carry(VerdictPlan(cfg, PendingOf(cfg, m), VerdictOf(h[Lead(cfg)].reply))), h[Lead(cfg) + 1..])
  {
    var l := Lead(cfg);
    if h != [] { assert FollowsAt(Single(cfg, m), h, 0); }
    if |h| > 1 { assert FollowsAt(Single(cfg, m), h, 1); }
    if Duplicate(cfg, h) {
      var plan := Plan(AckOps(m.ackHandle), Pass);
      forall i | 0 <= i < |h[1..]| ensures FollowsAt(Carry(plan), h[1..], i) {
        assert FollowsAt(Single(cfg, m), h, i + 1) && h[..i + 1][1..] == h[1..][..i];
      }
    } else if |h| > l {
      var plan := VerdictPlan(cfg, PendingOf(cfg, m), VerdictOf(h[l].reply));
      var tail := h[l + 1..];
      forall i | 0 <= i < |tail| ensures FollowsAt(Carry(plan), tail, i) {
        assert FollowsAt(Single(cfg, m), h, i + l + 1) && h[..i + l + 1][l + 1..] == tail[..i];
      }
    }
  }

  // A single message starts like a batch member ...
  lemma SingleFromIntake(cfg: Config, m: Message, h: seq<Event>, r: TaskOutcome)
    requires Finished(Intake(cfg, m), h, r)
    ensures Follows(Single(cfg, m), h)
    ensures if r.Fail? || Duplicate(cfg, h) then Finished(Single(cfg, m), h, r)
            else |h| == Lead(cfg) && Next(Single(cfg, m), h) == Do(Dispatch(m))
                 && (cfg.store ==> !h[0].reply.Wrong?)
  {
    forall i | 0 <= i < |h| ensures FollowsAt(Single(cfg, m), h, i) {
      assert FollowsAt(Intake(cfg, m), h, i);
      if i > 0 { assert FollowsAt(Intake(cfg, m), h, 0) && h[..i][0] == h[0]; }
    }
    if h != [] { assert FollowsAt(Intake(cfg, m), h, 0); }
    if |h| > 1 { assert FollowsAt(Intake(cfg, m), h, 1) && h[..1][0] == h[0]; }
  }

  // The handler's answer comes next.
  lemma SingleAnswered(cfg: Config, m: Message, h: seq<Event>, e: Event)
    requires Follows(Single(cfg, m), h) && |h| == Lead(cfg) && !Duplicate(cfg, h)
    requires Next(Single(cfg, m), h) == Do(Dispatch(m)) && e.op == Dispatch(m) && Fits(e.op, e.reply)
    requires cfg.store ==> !h[0].reply.Wrong?
    ensures var longer := h + [e];
            Follows(Single(cfg, m), longer) && |longer| == Lead(cfg) + 1 && longer[Lead(cfg)] == e
            && !Duplicate(cfg, longer) && (cfg.store ==> !longer[0].reply.Wrong?)
  {
    FollowsStep(Single(cfg, m), h, e);
  }

  // ... and the task ends by carrying out the plan for its verdict.
  lemma SingleFromVerdict(cfg: Config, m: Message, h: seq<Event>, tail: seq<Event>, r: TaskOutcome)
    requires Follows(Single(cfg, m), h) && |h| == Lead(cfg) + 1 && !Duplicate(cfg, h)
    requires cfg.store ==> !h[0].reply.Wrong?
    requires Finished(Carry(VerdictPlan(cfg, PendingOf(cfg, m), VerdictOf(h[Lead(cfg)].reply))), tail, r)
    ensures Finished(Single(cfg, m), h + tail, r)
  {
    var plan := VerdictPlan(cfg, PendingOf(cfg, m), VerdictOf(h[Lead(cfg)].reply));
    forall i | 0 <= i < |h + tail| ensures FollowsAt(Single(cfg, m), h + tail, i) {
      if i < |h| {
        assert FollowsAt(Single(cfg, m), h, i) && (h + tail)[..i] == h[..i];
      } else {
        assert FollowsAt(Carry(plan), tail, i - |h|);
        assert (h + tail)[..i] == h + tail[..i - |h|];
        assert (h + tail[..i - |h|])[Lead(cfg) + 1..] == tail[..i - |h|];
      }
    }
    assert (h + tail)[Lead(cfg) + 1..] == tail;
  }

  // What the plan's own events say before it settles.
  ghost predicate Covered(cfg: Config, m: Message, v: Verdict, before: seq<Event>, op: Op) {
    match op
    case AckOp(_) =>
      || (v == Returned(Ack) && (cfg.store ==> Fulfilled(before, Remember(IdempotencyKey(m)))))
      || RetryPublished(before, m)
    case TermOp(_) => DeadLetterPublished(before, m)
    case NackOp(handle) => handle.nativeRetry
    case _ => true
  }

  // The same, of a plan's operations.
  ghost predicate CoveredByOps(cfg: Config, m: Message, v: Verdict, before: seq<Op>, op: Op) {
    match op
    case AckOp(_) =>
      || (v == Returned(Ack) && (cfg.store ==> Remember(IdempotencyKey(m)) in before))
      || exists o | o in before :: o.PublishRetry? && o.message == m
    case TermOp(_) => exists o | o in before :: o.PublishDeadLetter? && o.message == m
    case NackOp(handle) => handle.nativeRetry
    case _ => true
  }

  lemma FailurePlanCovers(cfg: Config, m: Message, v: Verdict, action: FailureAction, failure: FailureContext, i: nat)
    requires var ops := FailurePlan(cfg, PendingOf(cfg, m), action, failure).ops; i < |ops| && ops[i].Settles()
    ensures var ops := FailurePlan(cfg, PendingOf(cfg, m), action, failure).ops;
            CoveredByOps(cfg, m, v, ops[..i], ops[i])
  {
    var ops := FailurePlan(cfg, PendingOf(cfg, m), action, failure).ops;
    if i > 0 { assert ops[..i][0] == ops[0]; }
  }

  lemma VerdictPlanCovers(cfg: Config, m: Message, v: Verdict, i: nat)
    requires var ops := VerdictPlan(cfg, PendingOf(cfg, m), v).ops; i < |ops| && ops[i].Settles()
    ensures var ops := VerdictPlan(cfg, PendingOf(cfg, m), v).ops;
            CoveredByOps(cfg, m, v, ops[..i], ops[i])
  {
    match v
    case Returned(Ack) =>
      var ops := VerdictPlan(cfg, PendingOf(cfg, m), v).ops;
      if i > 0 { assert ops[..i][0] == ops[0]; }
    case Returned(Nack) =>
      FailurePlanCovers(cfg, m, v, cfg.policy.ActionForNack(m.retryCount),
                        FailureContext("handler_nack", None, m.retryCount), i);
    case Returned(DeadLetter) =>
      FailurePlanCovers(cfg, m, v, cfg.policy.ActionForDeadLetter(),
                        FailureContext("handler_dead_letter", None, m.retryCount), i);
    case Raised(reason, error) =>
      FailurePlanCovers(cfg, m, v, cfg.policy.ActionForError(error, m.retryCount),
                        FailureContext(reason, Some(error.ToString()), m.retryCount), i);
  }

  // What precedes a settlement in a carried-out verdict plan.
  lemma VerdictPlanJustifies(cfg: Config, m: Message, v: Verdict, h: seq<Event>, i: nat)
    requires Follows(Carry(VerdictPlan(cfg, PendingOf(cfg, m), v)), h)
    requires i < |h| && h[i].op.Settles()
    ensures m.ackHandle == Some(h[i].op.handle)
    ensures Covered(cfg, m, v, h[..i], h[i].op)
  {
    var plan := VerdictPlan(cfg, PendingOf(cfg, m), v);
    VerdictPlanSettlesLast(cfg, PendingOf(cfg, m), v);
    PlanEvents(plan, h);
    VerdictPlanCovers(cfg, m, v, i);
    PlanRecords(plan, h, i);
    hide VerdictPlan, Follows, Covered, CoveredByOps;
    CoversLater(cfg, m, v, plan.ops, h, i);
  }

  lemma PlanRecords(plan: Plan, h: seq<Event>, i: nat)
    requires Follows(Carry(plan), h) && i < |h|
    ensures i < |plan.ops| && forall k | 0 <= k < i && IsRecord(plan.ops[k]) :: Event(plan.ops[k], Fine) in h[..i]
  {
    PlanEvents(plan, h);
    forall k | 0 <= k < i && IsRecord(plan.ops[k]) ensures Event(plan.ops[k], Fine) in h[..i] {
      assert h[..i][k] == h[k];
    }
  }

  predicate IsRecord(op: Op) {
    op.Remember? || op.PublishRetry? || op.PublishDeadLetter?
  }

  // Operations that went well cover what their plan covers.
  lemma CoversLater(cfg: Config, m: Message, v: Verdict, ops: seq<Op>, h: seq<Event>, i: nat)
    requires i < |h| && i < |ops| && h[i].op == ops[i]
    requires forall k | 0 <= k < i && IsRecord(ops[k]) :: Event(ops[k], Fine) in h[..i]
    requires CoveredByOps(cfg, m, v, ops[..i], ops[i])
    ensures Covered(cfg, m, v, h[..i], h[i].op)
  {
    forall o | o in ops[..i] && IsRecord(o) ensures Event(o, Fine) in h[..i] {
      var k :| 0 <= k < i && ops[..i][k] == o;
    }
  }

  // The justification found in a verdict plan's own events stands in any
  // history that also holds the handler's answer.
  lemma JustifiedLater(cfg: Config, m: Message, v: Verdict, front: seq<Event>, back: seq<Event>, op: Op)
    requires Covered(cfg, m, v, back, op)
    requires v == Returned(Ack) ==> HandlerAcked(front, m)
    ensures Justified(cfg, m, front + back, op)
  {
    forall e | e in front ensures e in front + back {}
    forall e | e in back ensures e in front + back {}
  }

  lemma DuplicateJustified(cfg: Config, m: Message, h: seq<Event>, i: nat)
    requires Follows(Single(cfg, m), h) && Duplicate(cfg, h)
    requires i < |h| && h[i].op.Settles()
    ensures m.ackHandle == Some(h[i].op.handle) && Justified(cfg, m, h[..i], h[i].op)
  {
    SingleParts(cfg, m, h);
    PlanEvents(Plan(AckOps(m.ackHandle), Pass), h[1..]);
    assert h[i] == h[1..][i - 1];
    assert h[..i][0] == h[0];
  }

  lemma HandledJustified(cfg: Config, m: Message, h: seq<Event>, i: nat)
    requires Follows(Single(cfg, m), h) && !Duplicate(cfg, h)
    requires i < |h| && h[i].op.Settles()
    ensures m.ackHandle == Some(h[i].op.handle) && Justified(cfg, m, h[..i], h[i].op)
  {
    HandledParts(cfg, m, h, i);
    var n := Lead(cfg) + 1;
    var v, front, tail := VerdictOf(h[n - 1].reply), h[..n], h[n..];
    hide Next, Follows, VerdictPlan, Justified, Covered, HandlerAcked;
    assert h[i] == tail[i - n] && h[..i] == front + tail[..i - n];
    VerdictPlanJustifies(cfg, m, v, tail, i - n);
    JustifiedLater(cfg, m, v, front, tail[..i - n], h[i].op);
  }

  // A settlement of a message that was handled comes after its handler's
  // answer, out of the plan for that answer.
  lemma HandledParts(cfg: Config, m: Message, h: seq<Event>, i: nat)
    requires Follows(Single(cfg, m), h) && !Duplicate(cfg, h)
    requires i < |h| && h[i].op.Settles()
    ensures Lead(cfg) < i
    ensures var v, n := VerdictOf(h[Lead(cfg)].reply), Lead(cfg) + 1;
            && Follows(Carry(VerdictPlan(cfg, PendingOf(cfg, m), v)), h[n..])
            && (v == Returned(Ack) ==> HandlerAcked(h[..n], m))
  {
    SingleParts(cfg, m, h);
    var l := Lead(cfg);
    assert h[..l + 1][l] == h[l];
    hide Next, Follows, VerdictPlan;
  }

  // In every prefix of a task's history, the broker is only told to let go of
  // a message once that loses nothing.
  lemma SingleHandsOffSafely(cfg: Config, m: Message, h: seq<Event>)
    requires Follows(Single(cfg, m), h)
    ensures SafeHandOff(cfg, [m], h)
  {
    hide Follows, Justified;
    assert m in [m];
    forall i | 0 <= i < |h| && h[i].op.Settles()
      ensures m.ackHandle == Some(h[i].op.handle) && Justified(cfg, m, h[..i], h[i].op)
    {
      if Duplicate(cfg, h) { DuplicateJustified(cfg, m, h, i); } else { HandledJustified(cfg, m, h, i); }
    }
  }

  // Events that settle nothing do not change what a history says of a handle.
  lemma TailSettles(front: seq<Event>, back: seq<Event>, handle: AckHandle)
    requires forall e | e in front :: !e.op.Settles()
    ensures Settlements(front + back, handle) == Settlements(back, handle)
    ensures SettledFine(back, handle) ==> SettledFine(front + back, handle)
    ensures LetGo(front + back, handle) ==> LetGo(back, handle)
  {
    NoSettlements(front, handle);
    SettlementsAppend(front, back, handle);
    forall e | e in front + back && e !in back ensures e in front {}
  }

  // The plan a single message's history ends with, and where it starts.
  function PlanOfSingle(cfg: Config, m: Message, h: seq<Event>): Plan
    requires |h| > Lead(cfg) || Duplicate(cfg, h)
  {
    if Duplicate(cfg, h) then Plan(AckOps(m.ackHandle), Pass)
    else VerdictPlan(cfg, PendingOf(cfg, m), VerdictOf(h[Lead(cfg)].reply))
  }

  function PlanStart(cfg: Config, h: seq<Event>): (n: nat)
    requires |h| > Lead(cfg) || Duplicate(cfg, h)
    ensures n <= |h|
  {
    if Duplicate(cfg, h) then 1 else Lead(cfg) + 1
  }

  lemma SinglePlan(cfg: Config, m: Message, h: seq<Event>)
    requires Follows(Single(cfg, m), h)
    requires |h| > Lead(cfg) || Duplicate(cfg, h)
    ensures var plan, n := PlanOfSingle(cfg, m, h), PlanStart(cfg, h);
            && SettlesLast(plan, m.ackHandle)
            && Follows(Carry(plan), h[n..])
            && Next(Single(cfg, m), h) == Next(Carry(plan), h[n..])
            && forall i | 0 <= i < n :: !h[i].op.Settles()
  {
    SingleParts(cfg, m, h);
    if !Duplicate(cfg, h) {
      VerdictPlanSettlesLast(cfg, PendingOf(cfg, m), VerdictOf(h[Lead(cfg)].reply));
    }
  }

  // A delivery is settled at most once on every path; exactly once, with
  // success, when the task returns Ok; and never let go of when it returns an
  // error.
  lemma SingleSettlesOnce(cfg: Config, m: Message, h: seq<Event>)
    requires Follows(Single(cfg, m), h) && m.ackHandle.Some?
    ensures Settlements(h, m.ackHandle.value) <= 1
    ensures Finished(Single(cfg, m), h, Pass) ==>
              Settlements(h, m.ackHandle.value) == 1 && SettledFine(h, m.ackHandle.value)
    ensures Next(Single(cfg, m), h).Return? && Next(Single(cfg, m), h).outcome.Fail? ==> !LetGo(h, m.ackHandle.value)
  {
    var handle := m.ackHandle.value;
    if |h| > Lead(cfg) || Duplicate(cfg, h) {
      SinglePlan(cfg, m, h);
      var plan, n := PlanOfSingle(cfg, m, h), PlanStart(cfg, h);
      hide Next, Follows, PlanOfSingle, Settlements, SettledFine, LetGo, SettlesLast;
      PlanSettles(plan, handle, h[n..]);
      assert h == h[..n] + h[n..];
      TailSettles(h[..n], h[n..], handle);
    } else {
      EarlySettlesNothing(cfg, m, h);
    }
  }

  // Before the handler has answered nothing is settled, and the task has not
  // returned without error.
  lemma EarlySettlesNothing(cfg: Config, m: Message, h: seq<Event>)
    requires Follows(Single(cfg, m), h) && m.ackHandle.Some? && |h| <= Lead(cfg) && !Duplicate(cfg, h)
    ensures Settlements(h, m.ackHandle.value) == 0 && !LetGo(h, m.ackHandle.value)
    ensures !Finished(Single(cfg, m), h, Pass)
  {
    SingleParts(cfg, m, h);
    assert h == [] || h == [h[0]];
    EarlyNotFinished(cfg, m, h);
    hide Next, Follows;
    NoSettlements(h, m.ackHandle.value);
  }

  lemma EarlyNotFinished(cfg: Config, m: Message, h: seq<Event>)
    requires |h| <= Lead(cfg) && !Duplicate(cfg, h)
    ensures Next(Single(cfg, m), h) != Return(Pass)
  {
  }
}
