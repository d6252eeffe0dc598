// A batch: every member is checked first, then the rest is handled in one
// call, then each member is settled by its own verdict.
module BatchSettlement {
  import opened Wrappers
  import opened Text
  import opened ConsumerTypes
  import opened Failure
  import opened Settlement

  function Flatten(segments: seq<seq<Event>>): seq<Event> {
    if segments == [] then []
    else Flatten(segments[..|segments| - 1]) + segments[|segments| - 1]
  }

  lemma FlattenAppend(segments: seq<seq<Event>>, h: seq<Event>)
    ensures Flatten(segments + [h]) == Flatten(segments) + h
  {
    assert (segments + [h])[..|segments|] == segments;
  }

  // What happened, segment by segment: one segment a message taken in, the
  // call of the handler, one segment a message settled.
  datatype BatchHistory = BatchHistory(
    intake: seq<seq<Event>>, dispatch: seq<Event>, settled: seq<seq<Event>>)
  {
    function Events(): seq<Event> { Flatten(intake) + dispatch + Flatten(settled) }
  }

  // Remembering the message failed.
  predicate Aborts(h: seq<Event>) {
    h != [] && h[|h| - 1].op.Remember? && h[|h| - 1].reply.Wrong?
  }

  // ---- intake ----

  // The members taken in, all but the last without error.
  ghost predicate IntakeRun(cfg: Config, ms: seq<Message>, intake: seq<seq<Event>>, r: TaskOutcome) {
    && |intake| <= |ms|
    && (r.Fail? ==> intake != [])
    && forall i | 0 <= i < |intake| ::
         Finished(Intake(cfg, ms[i]), intake[i], if i == |intake| - 1 then r else Pass)
  }

  // The members that go on to the handler.
  function Kept(cfg: Config, ms: seq<Message>, intake: seq<seq<Event>>): seq<Message>
    requires |intake| <= |ms|
  {
    if intake == [] then []
    else
      var n := |intake| - 1;
      Kept(cfg, ms, intake[..n]) + (if Duplicate(cfg, intake[n]) then [] else [ms[n]])
  }

  function PendingAll(cfg: Config, ms: seq<Message>): (ps: seq<Pending>)
    ensures |ps| == |ms| && forall i | 0 <= i < |ms| :: ps[i] == PendingOf(cfg, ms[i])
  {
    seq(|ms|, i requires 0 <= i < |ms| => PendingOf(cfg, ms[i]))
  }

  lemma NothingTakenIn(cfg: Config, ms: seq<Message>)
    ensures IntakeRun(cfg, ms, [], Pass) && Flatten([]) == [] && Kept(cfg, ms, []) == [] && PendingAll(cfg, []) == []
  {
  }

  lemma PendingAppend(cfg: Config, ms: seq<Message>, m: Message)
    ensures PendingAll(cfg, ms + [m]) == PendingAll(cfg, ms) + [PendingOf(cfg, m)]
  {
  }

  lemma IntakeAppend(cfg: Config, ms: seq<Message>, intake: seq<seq<Event>>, h: seq<Event>, r: TaskOutcome)
    requires IntakeRun(cfg, ms, intake, Pass) && |intake| < |ms|
    requires Finished(Intake(cfg, ms[|intake|]), h, r)
    ensures IntakeRun(cfg, ms, intake + [h], r)
    ensures Kept(cfg, ms, intake + [h])
            == Kept(cfg, ms, intake) + (if Duplicate(cfg, h) then [] else [ms[|intake|]])
  {
    assert (intake + [h])[..|intake|] == intake;
  }

  // ---- verdicts ----

  function MismatchError(results: nat, messages: nat): ConsumerError {
    Handler("batch handler returned " + Print(results) + " results for " + Print(messages) + " messages")
  }

  function VerdictAt(reply: Reply, n: nat, i: nat): Verdict
    requires reply.Wrong? || reply.HandledAll?
    requires i < n
  {
    if reply.Wrong? then Raised("batch_handler_error", reply.error)
    else if |reply.results| == n then Returned(reply.results[i])
    else Raised("batch_handler_error", MismatchError(|reply.results|, n))
  }

  function BatchVerdicts(reply: Reply, n: nat): (vs: seq<Verdict>)
    requires reply.Wrong? || reply.HandledAll?
    ensures |vs| == n && forall i | 0 <= i < n :: vs[i] == VerdictAt(reply, n, i)
  {
    seq(n, i requires 0 <= i < n => VerdictAt(reply, n, i))
  }

  // The outcome of one finished settlement.
  function OutcomeOf(h: seq<Event>, planned: TaskOutcome): TaskOutcome {
    if h != [] && h[|h| - 1].reply.Wrong? then Fail(h[|h| - 1].reply.error) else planned
  }

  ghost predicate SettledOne(cfg: Config, p: Pending, v: Verdict, h: seq<Event>) {
    Finished(Carry(VerdictPlan(cfg, p, v)), h, OutcomeOf(h, VerdictPlan(cfg, p, v).outcome))
  }

  lemma FinishedOutcome(cfg: Config, p: Pending, v: Verdict, h: seq<Event>, r: TaskOutcome)
    requires Finished(Carry(VerdictPlan(cfg, p, v)), h, r)
    ensures SettledOne(cfg, p, v, h) && r == OutcomeOf(h, VerdictPlan(cfg, p, v).outcome)
  {
  }

  // The first error among the settlements so far.
  function FirstError(cfg: Config, ps: seq<Pending>, vs: seq<Verdict>, settled: seq<seq<Event>>): TaskOutcome
    requires |settled| <= |ps| == |vs|
  {
    if settled == [] then Pass
    else
      var n := |settled| - 1;
      var earlier := FirstError(cfg, ps, vs, settled[..n]);
      if earlier.Fail? then earlier else OutcomeOf(settled[n], VerdictPlan(cfg, ps[n], vs[n]).outcome)
  }

  ghost predicate Aborted(settled: seq<seq<Event>>) {
    settled != [] && Aborts(settled[|settled| - 1])
  }

  ghost function SettleOutcome(cfg: Config, ps: seq<Pending>, vs: seq<Verdict>, settled: seq<seq<Event>>): TaskOutcome
    requires |settled| <= |ps| == |vs|
  {
    if Aborted(settled) then
      var n := |settled| - 1;
      OutcomeOf(settled[n], VerdictPlan(cfg, ps[n], vs[n]).outcome)
    else FirstError(cfg, ps, vs, settled)
  }

  // Members settled one after the other. A failed settlement does not stop the
  // others, except when the message could not be remembered.
  ghost predicate SettleRun(cfg: Config, ps: seq<Pending>, vs: seq<Verdict>, settled: seq<seq<Event>>) {
    && |settled| <= |ps| == |vs|
    && (forall i | 0 <= i < |settled| :: SettledOne(cfg, ps[i], vs[i], settled[i]))
    && (forall i | 0 <= i < |settled| - 1 :: !Aborts(settled[i]))
    && (!Aborted(settled) ==> |settled| == |ps|)
  }

  // A settlement run under way: nothing has aborted it.
  ghost predicate SettlePrefix(cfg: Config, ps: seq<Pending>, vs: seq<Verdict>, settled: seq<seq<Event>>) {
    && |settled| <= |ps| == |vs|
    && forall i | 0 <= i < |settled| :: SettledOne(cfg, ps[i], vs[i], settled[i]) && !Aborts(settled[i])
  }

  lemma SettleAppend(
      cfg: Config, ps: seq<Pending>, vs: seq<Verdict>, settled: seq<seq<Event>>, h: seq<Event>, r: TaskOutcome)
    requires SettlePrefix(cfg, ps, vs, settled) && |settled| < |ps|
    requires Finished(Carry(VerdictPlan(cfg, ps[|settled|], vs[|settled|])), h, r)
    ensures var longer := settled + [h];
            if Aborts(h) then SettleRun(cfg, ps, vs, longer) && SettleOutcome(cfg, ps, vs, longer) == r
            else SettlePrefix(cfg, ps, vs, longer)
                 && FirstError(cfg, ps, vs, longer)
                    == var earlier := FirstError(cfg, ps, vs, settled); if earlier.Fail? then earlier else r
  {
    FinishedOutcome(cfg, ps[|settled|], vs[|settled|], h, r);
    assert (settled + [h])[..|settled|] == settled;
  }

  lemma NothingSettled(cfg: Config, ps: seq<Pending>, vs: seq<Verdict>)
    requires |ps| == |vs|
    ensures Flatten([]) == [] && SettlePrefix(cfg, ps, vs, []) && FirstError(cfg, ps, vs, []) == Pass
  {
  }

  lemma SettleDone(cfg: Config, ps: seq<Pending>, vs: seq<Verdict>, settled: seq<seq<Event>>)
    requires SettlePrefix(cfg, ps, vs, settled) && |settled| == |ps|
    ensures SettleRun(cfg, ps, vs, settled)
    ensures SettleOutcome(cfg, ps, vs, settled) == FirstError(cfg, ps, vs, settled)
  {
  }

  ghost predicate BatchRun(cfg: Config, ms: seq<Message>, run: BatchHistory, r: TaskOutcome) {
    if run.dispatch == [] then
      && run.settled == []
      && IntakeRun(cfg, ms, run.intake, r)
      && (r.Pass? ==> |run.intake| == |ms| && Kept(cfg, ms, run.intake) == [])
    else
      && IntakeRun(cfg, ms, run.intake, Pass) && |run.intake| == |ms|
      && var kept := Kept(cfg, ms, run.intake);
      && kept != []
      && |run.dispatch| == 1
      && run.dispatch[0].op == DispatchBatch(kept)
      && Fits(run.dispatch[0].op, run.dispatch[0].reply)
      && var reply := run.dispatch[0].reply;
      && var ps, vs := PendingAll(cfg, kept), BatchVerdicts(reply, |kept|);
      && SettleRun(cfg, ps, vs, run.settled)
      && r == BatchOutcome(SettleOutcome(cfg, ps, vs, run.settled), reply, |kept|)
  }

  // A batch whose handler miscounted fails even when every member was settled.
  function BatchOutcome(settling: TaskOutcome, reply: Reply, n: nat): TaskOutcome {
    if settling.Pass? && reply.HandledAll? && |reply.results| != n
    then Fail(MismatchError(|reply.results|, n)) else settling
  }

  lemma BatchRunParts(cfg: Config, ms: seq<Message>, intake: seq<seq<Event>>, reply: Reply, settled: seq<seq<Event>>)
    requires IntakeRun(cfg, ms, intake, Pass) && |intake| == |ms|
    requires reply.Wrong? || reply.HandledAll?
    requires var kept := Kept(cfg, ms, intake);
             kept != [] && SettleRun(cfg, PendingAll(cfg, kept), BatchVerdicts(reply, |kept|), settled)
    ensures var kept := Kept(cfg, ms, intake);
            BatchRun(cfg, ms, BatchHistory(intake, [Event(DispatchBatch(kept), reply)], settled),
                     BatchOutcome(SettleOutcome(cfg, PendingAll(cfg, kept), BatchVerdicts(reply, |kept|), settled),
                                  reply, |kept|))
  {
  }

  lemma FailureNeverAborts(cfg: Config, p: Pending, action: FailureAction, failure: FailureContext, h: seq<Event>)
    requires Follows(Carry(FailurePlan(cfg, p, action, failure)), h)
    ensures !Aborts(h)
  {
    PlanEvents(FailurePlan(cfg, p, action, failure), h);
  }
}
