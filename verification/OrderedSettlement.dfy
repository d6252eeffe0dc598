// A whole ordered batch: its key tasks are batches of their own, and together
// they settle every delivery once.
module OrderedSettlement {
  import opened Wrappers
  import opened ConsumerTypes
  import opened Settlement
  import opened BatchSettlement
  import opened BatchSafety
  import opened OrderedBatch

  // What a key task did, and how it ended; a task that has no outcome is still
  // running or was aborted.
  datatype KeyRun = KeyRun(events: seq<Event>, outcome: Option<TaskOutcome>)

  // A key task does what the batch of its group does, up to any point.
  ghost predicate KeyTask(cfg: Config, group: seq<Message>, run: KeyRun) {
    exists h, r :: KeyTaskAs(cfg, group, run, h, r)
  }

  ghost predicate KeyTaskAs(cfg: Config, group: seq<Message>, run: KeyRun, h: BatchHistory, r: TaskOutcome) {
    && BatchRun(cfg, group, h, r)
    && run.events <= h.Events()
    && (run.outcome.Some? ==> run.events == h.Events() && run.outcome.value == r)
  }

  // The run of an ordered batch: its key tasks were started with their groups,
  // and a join reports how a task ended.
  ghost predicate OrderedRun(cfg: Config, ms: seq<Message>, log: seq<KeyEvent>, runs: map<string, KeyRun>) {
    && WellRun(ms, log)
    && (forall k | k in StartedKeys(log) :: k in runs && KeyTask(cfg, Restrict(ms, k), runs[k]))
    && (forall i | 0 <= i < |log| && log[i].Joined? && log[i].key in runs ::
          runs[log[i].key].outcome == Some(log[i].outcome))
  }

  // How often the broker was told about the handle, by all key tasks.
  function SettlementsOfAll(keys: seq<string>, runs: map<string, KeyRun>, handle: AckHandle): nat {
    if keys == [] then 0
    else
      var last := keys[|keys| - 1];
      SettlementsOfAll(keys[..|keys| - 1], runs, handle)
      + (if last in runs then Settlements(runs[last].events, handle) else 0)
  }

  // ---- groups ----

  lemma GroupHandlesDistinct(ms: seq<Message>, key: string)
    requires DistinctHandles(ms)
    ensures DistinctHandles(Restrict(ms, key))
  {
    GroupIsRestriction(ms, key);
    var group, at := Restrict(ms, key), Positions(ms, key);
    forall i, j | 0 <= i < j < |group| && group[i].ackHandle.Some? && group[j].ackHandle.Some?
      ensures group[i].ackHandle.value.id != group[j].ackHandle.value.id
    {
      assert group[i] == ms[at[i]] && group[j] == ms[at[j]] && at[i] < at[j];
    }
  }

  // The delivery is a member of its key's group.
  lemma MemberOfGroup(ms: seq<Message>, n: nat) returns (i: nat)
    requires n < |ms|
    ensures i < |Restrict(ms, OrderedKey(ms[n]))| && Restrict(ms, OrderedKey(ms[n]))[i] == ms[n]
  {
    var key := OrderedKey(ms[n]);
    GroupIsRestriction(ms, key);
    PositionsOfKey(ms, key);
    assert n in Positions(ms, key);
    i :| 0 <= i < |Positions(ms, key)| && Positions(ms, key)[i] == n;
  }

  // No member of another group has its handle.
  lemma NotInOtherGroup(ms: seq<Message>, n: nat, key: string, m: Message)
    requires n < |ms| && DistinctHandles(ms) && ms[n].ackHandle.Some?
    requires key != OrderedKey(ms[n]) && m in Restrict(ms, key)
    ensures m.ackHandle != ms[n].ackHandle
  {
    GroupIsRestriction(ms, key);
    PositionsOfKey(ms, key);
    var i :| 0 <= i < |Restrict(ms, key)| && Restrict(ms, key)[i] == m;
    var p := Positions(ms, key)[i];
    assert p in Positions(ms, key) && ms[p] == m && OrderedKey(ms[p]) == key;
    assert p < n || n < p;
  }

  // ---- key tasks ----

  lemma OthersLeaveItAlone(cfg: Config, ms: seq<Message>, n: nat, key: string, run: KeyRun)
    requires n < |ms| && DistinctHandles(ms) && ms[n].ackHandle.Some?
    requires key != OrderedKey(ms[n]) && KeyTask(cfg, Restrict(ms, key), run)
    ensures Settlements(run.events, ms[n].ackHandle.value) == 0
  {
    var group := Restrict(ms, key);
    var h, r :| KeyTaskAs(cfg, group, run, h, r);
    BatchHandsOffSafely(cfg, group, h, r);
    forall e | e in run.events && e.op.Settles() ensures e.op.handle != ms[n].ackHandle.value {
      var i :| 0 <= i < |run.events| && run.events[i] == e;
      assert h.Events()[i] == e;
      assert JustifiedByOneOf(cfg, group, h.Events()[..i], e.op);
      var m :| m in group && m.ackHandle == Some(e.op.handle);
      NotInOtherGroup(ms, n, key, m);
    }
    NoSettlements(run.events, ms[n].ackHandle.value);
  }

  lemma OwnTaskSettles(cfg: Config, ms: seq<Message>, n: nat, run: KeyRun)
    requires n < |ms| && DistinctHandles(ms) && ms[n].ackHandle.Some?
    requires KeyTask(cfg, Restrict(ms, OrderedKey(ms[n])), run)
    ensures Settlements(run.events, ms[n].ackHandle.value) <= 1
    ensures run.outcome == Some(Pass) ==> Settlements(run.events, ms[n].ackHandle.value) == 1
                                          && SettledFine(run.events, ms[n].ackHandle.value)
  {
    var group, handle := Restrict(ms, OrderedKey(ms[n])), ms[n].ackHandle.value;
    hide BatchRun, Settlements, SettledFine, DistinctHandles, Restrict, OrderedKey;
    var h, r :| KeyTaskAs(cfg, group, run, h, r);
    GroupHandlesDistinct(ms, OrderedKey(ms[n]));
    var i := MemberOfGroup(ms, n);
    BatchSettlesOnce(cfg, group, h, r, i);
    PrefixSettles(run.events, h.Events(), handle);
  }

  lemma PrefixSettles(part: seq<Event>, whole: seq<Event>, handle: AckHandle)
    requires part <= whole
    ensures Settlements(part, handle) <= Settlements(whole, handle)
  {
    var rest := whole[|part|..];
    assert whole == part + rest;
    SettlementsAppend(part, rest, handle);
  }

  // ---- the whole batch ----

  // Only the key task of the delivery's own key counts.
  lemma {:induction false} OnlyOwnCounts(
      cfg: Config, ms: seq<Message>, n: nat, keys: seq<string>, runs: map<string, KeyRun>)
    requires n < |ms| && DistinctHandles(ms) && ms[n].ackHandle.Some? && Distinct(keys)
    requires forall k | k in keys :: k in runs && KeyTask(cfg, Restrict(ms, k), runs[k])
    ensures var key, handle := OrderedKey(ms[n]), ms[n].ackHandle.value;
            SettlementsOfAll(keys, runs, handle) == if key in keys then Settlements(runs[key].events, handle) else 0
  {
    hide KeyTask, Restrict, DistinctHandles;
    if keys != [] {
      var front, last := keys[..|keys| - 1], keys[|keys| - 1];
      assert keys == front + [last];
      OnlyOwnCounts(cfg, ms, n, front, runs);
      if last != OrderedKey(ms[n]) { OthersLeaveItAlone(cfg, ms, n, last, runs[last]); }
    }
  }

  // A task that was started and is not outstanding was joined.
  lemma {:induction false} JoinedOrOutstanding(log: seq<KeyEvent>, key: string)
    requires key in StartedKeys(log) && key !in Outstanding(log)
    ensures exists i | 0 <= i < |log| :: log[i].Joined? && log[i].key == key
  {
    var front, last := log[..|log| - 1], log[|log| - 1];
    if last.Joined? && last.key == key {
      assert log[|log| - 1].Joined?;
    } else {
      JoinedOrOutstanding(front, key);
      var i :| 0 <= i < |front| && front[i].Joined? && front[i].key == key;
      assert log[i].Joined?;
    }
  }

  // Each delivery of an ordered batch is settled at most once by all its key
  // tasks together, even when some are cut off; exactly once, with success,
  // when the batch returns Ok.
  lemma OrderedBatchSettlesOnce(
      cfg: Config, ms: seq<Message>, log: seq<KeyEvent>, runs: map<string, KeyRun>, n: nat)
    requires OrderedRun(cfg, ms, log, runs) && DistinctHandles(ms)
    requires n < |ms| && ms[n].ackHandle.Some?
    ensures SettlementsOfAll(StartedKeys(log), runs, ms[n].ackHandle.value) <= 1
    ensures StartedKeys(log) == FirstKeys(ms) && Outstanding(log) == {} && JoinsPassed(log) ==>
              && SettlementsOfAll(StartedKeys(log), runs, ms[n].ackHandle.value) == 1
              && exists key :: InGroup(ms, n, key) && key in runs
                               && SettledFine(runs[key].events, ms[n].ackHandle.value)
  {
    var key := OrderedKey(ms[n]);
    FirstKeysDistinct(ms);
    hide KeyTask, SettledFine, Outstanding, FirstKeys, StartedKeys, Restrict;
    OnlyOwnCounts(cfg, ms, n, StartedKeys(log), runs);
    if key in StartedKeys(log) { OwnTaskSettles(cfg, ms, n, runs[key]); }
    if StartedKeys(log) == FirstKeys(ms) && Outstanding(log) == {} && JoinsPassed(log) {
      InOwnGroup(ms, n);
      JoinedOrOutstanding(log, key);
      var i :| 0 <= i < |log| && log[i].Joined? && log[i].key == key;
    }
  }
}
