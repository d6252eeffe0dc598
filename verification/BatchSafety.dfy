// What the source promises of a whole batch: every settlement is justified by
// what happened before it, and every delivery is settled once.
module BatchSafety {
  import opened Wrappers
  import opened ConsumerTypes
  import opened Settlement
  import opened BatchSettlement

  // ---- safe hand-off ----

  // The settlements in `segment` are justified when it comes after `before`.
  ghost predicate SafeAfter(cfg: Config, ms: seq<Message>, before: seq<Event>, segment: seq<Event>) {
    forall i | 0 <= i < |segment| && segment[i].op.Settles() ::
      JustifiedByOneOf(cfg, ms, before + segment[..i], segment[i].op)
  }

  lemma SafeAppend(cfg: Config, ms: seq<Message>, a: seq<Event>, b: seq<Event>)
    requires SafeHandOff(cfg, ms, a) && SafeAfter(cfg, ms, a, b)
    ensures SafeHandOff(cfg, ms, a + b)
  {
    forall i | 0 <= i < |a + b| && (a + b)[i].op.Settles()
      ensures JustifiedByOneOf(cfg, ms, (a + b)[..i], (a + b)[i].op)
    {
      if i < |a| {
        assert (a + b)[..i] == a[..i];
      } else {
        assert (a + b)[..i] == a + b[..i - |a|];
      }
    }
  }

  lemma JustifiedAfter(cfg: Config, m: Message, front: seq<Event>, back: seq<Event>, op: Op)
    requires Justified(cfg, m, back, op)
    ensures Justified(cfg, m, front + back, op)
  {
    forall e | e in back ensures e in front + back {}
  }

  lemma IntakeIsSafe(cfg: Config, ms: seq<Message>, m: Message, before: seq<Event>, h: seq<Event>, r: TaskOutcome)
    requires Finished(Intake(cfg, m), h, r) && m in ms
    ensures SafeAfter(cfg, ms, before, h)
  {
    SingleFromIntake(cfg, m, h, r);
    SingleHandsOffSafely(cfg, m, h);
    forall i | 0 <= i < |h| && h[i].op.Settles()
      ensures JustifiedByOneOf(cfg, ms, before + h[..i], h[i].op)
    {
      assert JustifiedByOneOf(cfg, [m], h[..i], h[i].op);
      JustifiedAfter(cfg, m, before, h[..i], h[i].op);
    }
  }

  lemma VerdictIsSafe(cfg: Config, ms: seq<Message>, m: Message, v: Verdict, before: seq<Event>, h: seq<Event>)
    requires SettledOne(cfg, PendingOf(cfg, m), v, h) && m in ms
    requires v == Returned(Ack) ==> HandlerAcked(before, m)
    ensures SafeAfter(cfg, ms, before, h)
  {
    forall i | 0 <= i < |h| && h[i].op.Settles()
      ensures JustifiedByOneOf(cfg, ms, before + h[..i], h[i].op)
    {
      VerdictPlanJustifies(cfg, m, v, h, i);
      JustifiedLater(cfg, m, v, before, h[..i], h[i].op);
    }
  }

  lemma {:induction false} IntakesAreSafe(cfg: Config, ms: seq<Message>, intake: seq<seq<Event>>, r: TaskOutcome)
    requires IntakeRun(cfg, ms, intake, r)
    ensures SafeHandOff(cfg, ms, Flatten(intake))
  {
    if intake != [] {
      var n := |intake| - 1;
      IntakesAreSafe(cfg, ms, intake[..n], Pass);
      IntakeIsSafe(cfg, ms, ms[n], Flatten(intake[..n]), intake[n], r);
      SafeAppend(cfg, ms, Flatten(intake[..n]), intake[n]);
    }
  }

  // Verdicts Ack stand for answers of the handler that `front` records.
  ghost predicate AcksRecorded(front: seq<Event>, kept: seq<Message>, vs: seq<Verdict>)
    requires |vs| == |kept|
  {
    forall k | 0 <= k < |kept| && vs[k] == Returned(Ack) :: HandlerAcked(front, kept[k])
  }

  lemma AckedLater(front: seq<Event>, back: seq<Event>, m: Message)
    requires HandlerAcked(front, m)
    ensures HandlerAcked(front + back, m)
  {
    forall e | e in front ensures e in front + back {}
  }

  lemma {:induction false} SettlementsAreSafe(
      cfg: Config, ms: seq<Message>, kept: seq<Message>, vs: seq<Verdict>, front: seq<Event>, settled: seq<seq<Event>>)
    requires |vs| == |kept| && |settled| <= |kept|
    requires forall k | 0 <= k < |kept| :: kept[k] in ms
    requires forall k | 0 <= k < |settled| :: SettledOne(cfg, PendingOf(cfg, kept[k]), vs[k], settled[k])
    requires AcksRecorded(front, kept, vs)
    requires SafeHandOff(cfg, ms, front)
    ensures SafeHandOff(cfg, ms, front + Flatten(settled))
  {
    hide SettledOne, SafeHandOff, SafeAfter, HandlerAcked;
    if settled == [] {
      assert front + Flatten(settled) == front;
    } else {
      var n := |settled| - 1;
      var before := front + Flatten(settled[..n]);
      SettlementsAreSafe(cfg, ms, kept, vs, front, settled[..n]);
      if vs[n] == Returned(Ack) { AckedLater(front, Flatten(settled[..n]), kept[n]); }
      VerdictIsSafe(cfg, ms, kept[n], vs[n], before, settled[n]);
      SafeAppend(cfg, ms, before, settled[n]);
      assert front + Flatten(settled) == before + settled[n];
    }
  }

  // Where the members kept stand in the batch.
  function KeptIndices(cfg: Config, intake: seq<seq<Event>>): (kept: seq<nat>)
    ensures forall k | 0 <= k < |kept| :: kept[k] < |intake|
  {
    if intake == [] then []
    else
      var n := |intake| - 1;
      KeptIndices(cfg, intake[..n]) + (if Duplicate(cfg, intake[n]) then [] else [n])
  }

  lemma {:induction false} KeptIndicesAre(cfg: Config, intake: seq<seq<Event>>, i: nat)
    ensures i in KeptIndices(cfg, intake) <==> i < |intake| && !Duplicate(cfg, intake[i])
  {
    if intake != [] {
      var n := |intake| - 1;
      KeptIndicesAre(cfg, intake[..n], i);
      hide Duplicate;
      assert i < n ==> intake[..n][i] == intake[i];
    }
  }

  lemma {:induction false} KeptPicked(cfg: Config, ms: seq<Message>, intake: seq<seq<Event>>)
    requires |intake| <= |ms|
    ensures Picks(ms, KeptIndices(cfg, intake), Kept(cfg, ms, intake))
  {
    hide Picks, Duplicate;
    if intake == [] {
      NothingPicked(ms);
    } else {
      var n := |intake| - 1;
      KeptPicked(cfg, ms, intake[..n]);
      var at, kept := KeptIndices(cfg, intake[..n]), Kept(cfg, ms, intake[..n]);
      PicksLater(ms, at, kept, n);
      assert at + [] == at && kept + [] == kept;
    }
  }

  lemma NothingPicked(ms: seq<Message>)
    ensures Picks(ms, [], [])
  {
  }

  // The members kept are those not seen before, in their order.
  lemma KeptAt(cfg: Config, ms: seq<Message>, intake: seq<seq<Event>>)
    requires |intake| <= |ms|
    ensures Picks(ms, KeptIndices(cfg, intake), Kept(cfg, ms, intake))
    ensures forall i: nat :: i in KeptIndices(cfg, intake) <==> i < |intake| && !Duplicate(cfg, intake[i])
  {
    hide Picks, Duplicate, KeptIndices, Kept;
    KeptPicked(cfg, ms, intake);
    forall i: nat ensures i in KeptIndices(cfg, intake) <==> i < |intake| && !Duplicate(cfg, intake[i]) {
      KeptIndicesAre(cfg, intake, i);
    }
  }

  lemma PicksLater(ms: seq<Message>, at: seq<nat>, part: seq<Message>, n: nat)
    requires Picks(ms, at, part) && n < |ms| && forall k | 0 <= k < |at| :: at[k] < n
    ensures Picks(ms, at + [n], part + [ms[n]])
  {
  }

  // In every prefix of a batch's history, the broker is only told to let go of
  // a message once that loses nothing.
  lemma BatchHandsOffSafely(cfg: Config, ms: seq<Message>, run: BatchHistory, r: TaskOutcome)
    requires BatchRun(cfg, ms, run, r)
    ensures SafeHandOff(cfg, ms, run.Events())
  {
    if run.dispatch == [] {
      IntakesAreSafe(cfg, ms, run.intake, r);
      assert run.Events() == Flatten(run.intake);
    } else {
      IntakesAreSafe(cfg, ms, run.intake, Pass);
      KeptAt(cfg, ms, run.intake);
      var kept := Kept(cfg, ms, run.intake);
      var reply := run.dispatch[0].reply;
      var front := Flatten(run.intake) + run.dispatch;
      hide SafeHandOff, IntakeRun, Duplicate, KeptIndices;
      SafeAppend(cfg, ms, Flatten(run.intake), run.dispatch);
      AcksAreRecorded(front, kept, reply);
      SettlementsAreSafe(cfg, ms, kept, BatchVerdicts(reply, |kept|), front, run.settled);
    }
  }

  lemma AcksAreRecorded(front: seq<Event>, kept: seq<Message>, reply: Reply)
    requires reply.Wrong? || reply.HandledAll?
    requires Event(DispatchBatch(kept), reply) in front
    ensures AcksRecorded(front, kept, BatchVerdicts(reply, |kept|))
  {
    forall k | 0 <= k < |kept| && BatchVerdicts(reply, |kept|)[k] == Returned(Ack)
      ensures HandlerAcked(front, kept[k])
    {
      assert VerdictAt(reply, |kept|, k) == Returned(Ack);
      assert AckedInBatch(Event(DispatchBatch(kept), reply), kept[k]);
    }
  }

  // ---- single settlement ----

  lemma {:induction false} FlattenMembers(segments: seq<seq<Event>>, e: Event)
    ensures e in Flatten(segments) <==> exists k | 0 <= k < |segments| :: e in segments[k]
  {
    if segments != [] { FlattenMembers(segments[..|segments| - 1], e); }
  }

  // Nothing is said of the handle.
  ghost predicate Silent(h: seq<Event>, handle: AckHandle) {
    forall e | e in h && e.op.Settles() :: e.op.handle != handle
  }

  lemma SilentMeans(h: seq<Event>, handle: AckHandle)
    requires Silent(h, handle)
    ensures Settlements(h, handle) == 0 && SettledFine(h, handle)
  {
    NoSettlements(h, handle);
  }

  lemma {:induction false} SilentFlatten(segments: seq<seq<Event>>, handle: AckHandle)
    requires forall k | 0 <= k < |segments| :: Silent(segments[k], handle)
    ensures Silent(Flatten(segments), handle)
  {
    forall e | e in Flatten(segments) && e.op.Settles() ensures e.op.handle != handle {
      FlattenMembers(segments, e);
      var k :| 0 <= k < |segments| && e in segments[k];
      assert Silent(segments[k], handle);
    }
  }

  lemma FineAppend(a: seq<Event>, b: seq<Event>, handle: AckHandle)
    requires SettledFine(a, handle) && SettledFine(b, handle)
    ensures SettledFine(a + b, handle)
  {
  }

  // Only segment `i` says anything of the handle.
  lemma {:induction false} FlattenSettlements(segments: seq<seq<Event>>, handle: AckHandle, i: nat)
    requires forall k | 0 <= k < |segments| && k != i :: Silent(segments[k], handle)
    ensures Settlements(Flatten(segments), handle) == if i < |segments| then Settlements(segments[i], handle) else 0
    ensures (i < |segments| ==> SettledFine(segments[i], handle)) ==> SettledFine(Flatten(segments), handle)
  {
    hide Settlements, SettledFine, Silent;
    if i >= |segments| {
      SilentFlatten(segments, handle);
      SilentMeans(Flatten(segments), handle);
    } else {
      var n := |segments| - 1;
      var front, last := Flatten(segments[..n]), segments[n];
      SettlementsAppend(front, last, handle);
      if n == i {
        SilentFlatten(segments[..n], handle);
        SilentMeans(front, handle);
      } else {
        FlattenSettlements(segments[..n], handle, i);
        SilentMeans(last, handle);
      }
      if SettledFine(segments[i], handle) { FineAppend(front, last, handle); }
    }
  }

  lemma IntakeSettles(cfg: Config, m: Message, h: seq<Event>, r: TaskOutcome)
    requires Finished(Intake(cfg, m), h, r)
    ensures forall e | e in h && e.op.Settles() :: Some(e.op.handle) == m.ackHandle
    ensures m.ackHandle.Some? && !Duplicate(cfg, h) ==> Settlements(h, m.ackHandle.value) == 0
    ensures m.ackHandle.Some? ==> Settlements(h, m.ackHandle.value) <= 1
    ensures m.ackHandle.Some? && Duplicate(cfg, h) && r.Pass? ==>
              Settlements(h, m.ackHandle.value) == 1 && SettledFine(h, m.ackHandle.value)
  {
    SingleFromIntake(cfg, m, h, r);
    SingleHandsOffSafely(cfg, m, h);
    forall i | 0 <= i < |h| && h[i].op.Settles() ensures Some(h[i].op.handle) == m.ackHandle {
      assert JustifiedByOneOf(cfg, [m], h[..i], h[i].op);
    }
    if m.ackHandle.Some? {
      SingleSettlesOnce(cfg, m, h);
      if !Duplicate(cfg, h) {
        SingleParts(cfg, m, h);
        NoSettlements(h, m.ackHandle.value);
      }
    }
  }

  lemma SettledOneSettles(cfg: Config, m: Message, v: Verdict, h: seq<Event>)
    requires SettledOne(cfg, PendingOf(cfg, m), v, h)
    ensures forall e | e in h && e.op.Settles() :: Some(e.op.handle) == m.ackHandle
    ensures m.ackHandle.Some? ==> Settlements(h, m.ackHandle.value) <= 1
    ensures m.ackHandle.Some? && OutcomeOf(h, VerdictPlan(cfg, PendingOf(cfg, m), v).outcome).Pass? ==>
              Settlements(h, m.ackHandle.value) == 1 && SettledFine(h, m.ackHandle.value)
  {
    var plan := VerdictPlan(cfg, PendingOf(cfg, m), v);
    VerdictPlanSettlesLast(cfg, PendingOf(cfg, m), v);
    PlanSettlesAtEnd(plan, m.ackHandle, h);
    if m.ackHandle.Some? { PlanSettles(plan, m.ackHandle.value, h); }
  }

  // A batch that ends without error has settled every member it kept.
  lemma {:induction false} NoErrorAnywhere(
      cfg: Config, ps: seq<Pending>, vs: seq<Verdict>, settled: seq<seq<Event>>, k: nat)
    requires |settled| <= |ps| == |vs| && k < |settled|
    requires FirstError(cfg, ps, vs, settled).Pass?
    ensures OutcomeOf(settled[k], VerdictPlan(cfg, ps[k], vs[k]).outcome).Pass?
  {
    if k < |settled| - 1 { NoErrorAnywhere(cfg, ps, vs, settled[..|settled| - 1], k); }
  }

  // The part of member `i` in the intake.
  lemma IntakePart(cfg: Config, ms: seq<Message>, intake: seq<seq<Event>>, r: TaskOutcome, i: nat)
    requires IntakeRun(cfg, ms, intake, r) && DistinctHandles(ms)
    requires i < |ms| && ms[i].ackHandle.Some?
    ensures var handle := ms[i].ackHandle.value;
            && Settlements(Flatten(intake), handle) <= 1
            && (i >= |intake| || !Duplicate(cfg, intake[i]) ==> Settlements(Flatten(intake), handle) == 0)
            && (i < |intake| && Duplicate(cfg, intake[i]) && r.Pass? ==>
                  Settlements(Flatten(intake), handle) == 1 && SettledFine(Flatten(intake), handle))
            && (i >= |intake| || !Duplicate(cfg, intake[i]) ==> SettledFine(Flatten(intake), handle))
  {
    var handle := ms[i].ackHandle.value;
    forall k | 0 <= k < |intake|
      ensures forall e | e in intake[k] && e.op.Settles() :: Some(e.op.handle) == ms[k].ackHandle
    {
      IntakeSettles(cfg, ms[k], intake[k], if k == |intake| - 1 then r else Pass);
    }
    FlattenSettlements(intake, handle, i);
    if i < |intake| {
      IntakeSettles(cfg, ms[i], intake[i], if i == |intake| - 1 then r else Pass);
      if !Duplicate(cfg, intake[i]) { NoneMeansFine(intake[i], handle); }
    }
  }

  lemma {:induction false} SettlementCounts(h: seq<Event>, e: Event)
    requires e in h && e.op.Settles()
    ensures Settlements(h, e.op.handle) >= 1
  {
    if e != h[|h| - 1] { SettlementCounts(h[..|h| - 1], e); }
  }

  lemma NoneMeansFine(h: seq<Event>, handle: AckHandle)
    requires Settlements(h, handle) == 0
    ensures SettledFine(h, handle)
  {
    forall e | e in h && e.op.Settles() ensures e.op.handle != handle {
      SettlementCounts(h, e);
    }
  }

  // The part of the delivery `handle`, kept as number `k` or not at all, in
  // the settlements.
  lemma SettledPart(
      cfg: Config, kept: seq<Message>, vs: seq<Verdict>, settled: seq<seq<Event>>, handle: AckHandle, k: nat)
    requires SettleRun(cfg, PendingAll(cfg, kept), vs, settled)
    requires forall j | 0 <= j < |kept| && kept[j].ackHandle == Some(handle) :: j == k
    requires k < |kept| ==> kept[k].ackHandle == Some(handle)
    ensures Settlements(Flatten(settled), handle) <= 1
    ensures k >= |kept| ==> Settlements(Flatten(settled), handle) == 0
    ensures k < |kept| && SettleOutcome(cfg, PendingAll(cfg, kept), vs, settled).Pass? ==>
              Settlements(Flatten(settled), handle) == 1 && SettledFine(Flatten(settled), handle)
  {
    forall j | 0 <= j < |settled|
      ensures forall e | e in settled[j] && e.op.Settles() :: Some(e.op.handle) == kept[j].ackHandle
    {
      SettledOneSettles(cfg, kept[j], vs[j], settled[j]);
    }
    FlattenSettlements(settled, handle, k);
    if k < |settled| {
      SettledOneSettles(cfg, kept[k], vs[k], settled[k]);
      if SettleOutcome(cfg, PendingAll(cfg, kept), vs, settled).Pass? {
        AbortFails(cfg, PendingAll(cfg, kept), vs, settled);
        NoErrorAnywhere(cfg, PendingAll(cfg, kept), vs, settled, k);
      }
    } else if SettleOutcome(cfg, PendingAll(cfg, kept), vs, settled).Pass? {
      AbortFails(cfg, PendingAll(cfg, kept), vs, settled);
    }
  }

  lemma AbortFails(cfg: Config, ps: seq<Pending>, vs: seq<Verdict>, settled: seq<seq<Event>>)
    requires SettleRun(cfg, ps, vs, settled) && SettleOutcome(cfg, ps, vs, settled).Pass?
    ensures !Aborted(settled) && |settled| == |ps|
  {
  }

  // Counting over the whole history.
  lemma EventsSettle(run: BatchHistory, handle: AckHandle)
    requires forall e | e in run.dispatch :: !e.op.Settles()
    ensures Settlements(run.Events(), handle)
            == Settlements(Flatten(run.intake), handle) + Settlements(Flatten(run.settled), handle)
    ensures SettledFine(Flatten(run.intake), handle) && SettledFine(Flatten(run.settled), handle) ==>
              SettledFine(run.Events(), handle)
  {
    NoSettlements(run.dispatch, handle);
    SettlementsAppend(Flatten(run.intake), run.dispatch, handle);
    SettlementsAppend(Flatten(run.intake) + run.dispatch, Flatten(run.settled), handle);
  }

  // Each delivery of a batch is settled at most once on every path; exactly
  // once, with success, when the batch returns Ok.
  lemma BatchSettlesOnce(cfg: Config, ms: seq<Message>, run: BatchHistory, r: TaskOutcome, i: nat)
    requires BatchRun(cfg, ms, run, r) && DistinctHandles(ms)
    requires i < |ms| && ms[i].ackHandle.Some?
    ensures Settlements(run.Events(), ms[i].ackHandle.value) <= 1
    ensures r.Pass? ==> Settlements(run.Events(), ms[i].ackHandle.value) == 1
                        && SettledFine(run.Events(), ms[i].ackHandle.value)
  {
    hide IntakeRun, SettleRun, SettledFine, Settlements, Flatten;
    EventsSettle(run, ms[i].ackHandle.value);
    if run.dispatch == [] {
      EmptySettlesOnce(cfg, ms, run, r, i);
    } else {
      HandledSettlesOnce(cfg, ms, run, r, i);
    }
  }

  lemma EmptySettlesOnce(cfg: Config, ms: seq<Message>, run: BatchHistory, r: TaskOutcome, i: nat)
    requires BatchRun(cfg, ms, run, r) && DistinctHandles(ms) && run.dispatch == []
    requires i < |ms| && ms[i].ackHandle.Some?
    ensures var handle := ms[i].ackHandle.value;
            && Settlements(Flatten(run.settled), handle) == 0 && SettledFine(Flatten(run.settled), handle)
            && Settlements(Flatten(run.intake), handle) <= 1
            && (r.Pass? ==> Settlements(Flatten(run.intake), handle) == 1 && SettledFine(Flatten(run.intake), handle))
  {
    KeptAt(cfg, ms, run.intake);
    IntakePart(cfg, ms, run.intake, r, i);
    if r.Pass? { assert i !in KeptIndices(cfg, run.intake); }
  }

  lemma HandledSettlesOnce(cfg: Config, ms: seq<Message>, run: BatchHistory, r: TaskOutcome, i: nat)
    requires BatchRun(cfg, ms, run, r) && DistinctHandles(ms) && run.dispatch != []
    requires i < |ms| && ms[i].ackHandle.Some?
    ensures var handle := ms[i].ackHandle.value;
            && Settlements(Flatten(run.intake), handle) + Settlements(Flatten(run.settled), handle) <= 1
            && (r.Pass? ==>
                  && Settlements(Flatten(run.intake), handle) + Settlements(Flatten(run.settled), handle) == 1
                  && SettledFine(Flatten(run.intake), handle) && SettledFine(Flatten(run.settled), handle))
  {
    hide IntakeRun, SettleRun, SettledFine, Settlements, Flatten;
    var handle := ms[i].ackHandle.value;
    KeptAt(cfg, ms, run.intake);
    IntakePart(cfg, ms, run.intake, Pass, i);
    var kept := Kept(cfg, ms, run.intake);
    var vs := BatchVerdicts(run.dispatch[0].reply, |kept|);
    var k := if i in KeptIndices(cfg, run.intake)
             then var j :| 0 <= j < |kept| && KeptIndices(cfg, run.intake)[j] == i; j else |kept|;
    KeptHandle(cfg, ms, run.intake, i, k);
    SettledPart(cfg, kept, vs, run.settled, handle, k);
    if k == |kept| { NoneMeansFine(Flatten(run.settled), handle); }
  }

  // The handle of member `i` is found at its own place among those kept.
  lemma KeptHandle(cfg: Config, ms: seq<Message>, intake: seq<seq<Event>>, i: nat, k: nat)
    requires |intake| <= |ms| && i < |ms| && DistinctHandles(ms) && ms[i].ackHandle.Some?
    requires if i in KeptIndices(cfg, intake) then k < |KeptIndices(cfg, intake)| && KeptIndices(cfg, intake)[k] == i
             else k == |KeptIndices(cfg, intake)|
    ensures var kept := Kept(cfg, ms, intake);
            && (forall j | 0 <= j < |kept| && kept[j].ackHandle == ms[i].ackHandle :: j == k)
            && (k < |kept| ==> kept[k].ackHandle == ms[i].ackHandle)
  {
    KeptAt(cfg, ms, intake);
    var kept, at := Kept(cfg, ms, intake), KeptIndices(cfg, intake);
    forall j | 0 <= j < |kept| && kept[j].ackHandle == ms[i].ackHandle ensures j == k {
      assert kept[j] == ms[at[j]];
      assert at[j] == i;
    }
  }
}
