// An ordered batch: its messages are grouped by ordered key, each group runs
// as one task under the key's lock, and few of these tasks run at a time.
module OrderedBatch {
  import opened Wrappers
  import opened ConsumerTypes
  import opened Settlement

  const ORDERED_BATCH_KEY_CONCURRENCY := 64

  // The messages of one key, in their order.
  function Restrict(ms: seq<Message>, key: string): seq<Message> {
    if ms == [] then []
    else
      var last := ms[|ms| - 1];
      Restrict(ms[..|ms| - 1], key) + (if OrderedKey(last) == key then [last] else [])
  }

  // The keys, in the order of their first messages.
  function FirstKeys(ms: seq<Message>): seq<string> {
    if ms == [] then []
    else
      var earlier := FirstKeys(ms[..|ms| - 1]);
      var key := OrderedKey(ms[|ms| - 1]);
      earlier + (if key in earlier then [] else [key])
  }

  ghost predicate Distinct(keys: seq<string>) {
    forall i, j | 0 <= i < j < |keys| :: keys[i] != keys[j]
  }

  lemma {:induction false} FirstKeysDistinct(ms: seq<Message>)
    ensures Distinct(FirstKeys(ms))
  {
    if ms != [] { FirstKeysDistinct(ms[..|ms| - 1]); }
  }

  // The keys are those that some message has.
  lemma {:induction false} FirstKeysAre(ms: seq<Message>, key: string)
    ensures key in FirstKeys(ms) <==> Restrict(ms, key) != []
  {
    if ms != [] { FirstKeysAre(ms[..|ms| - 1], key); }
  }

  // Where the messages of one key stand in the batch.
  function Positions(ms: seq<Message>, key: string): seq<nat> {
    if ms == [] then []
    else
      var n := |ms| - 1;
      Positions(ms[..n], key) + (if OrderedKey(ms[n]) == key then [n] else [])
  }

  lemma {:induction false} GroupIsRestriction(ms: seq<Message>, key: string)
    ensures Picks(ms, Positions(ms, key), Restrict(ms, key))
  {
    if ms != [] {
      var n := |ms| - 1;
      GroupIsRestriction(ms[..n], key);
      PicksOneMore(ms[..n], Positions(ms[..n], key), Restrict(ms[..n], key), ms[n]);
      assert ms == ms[..n] + [ms[n]];
      hide Picks;
    }
  }

  lemma {:induction false} PositionsOfKey(ms: seq<Message>, key: string)
    ensures forall n: nat :: n in Positions(ms, key) <==> n < |ms| && OrderedKey(ms[n]) == key
  {
    if ms != [] { PositionsOfKey(ms[..|ms| - 1], key); }
  }

  // A group is the batch at the places of all messages that share a key with
  // its first one, in order.
  lemma GroupMeans(ms: seq<Message>, key: string)
    requires key in FirstKeys(ms)
    ensures OneKey(Restrict(ms, key)) && Picks(ms, Positions(ms, key), Restrict(ms, key))
    ensures forall n: nat :: n in Positions(ms, key) <==> n < |ms| && SharesKey(ms[n], Restrict(ms, key)[0])
  {
    FirstKeysAre(ms, key);
    GroupIsRestriction(ms, key);
    PositionsOfKey(ms, key);
    var at, group := Positions(ms, key), Restrict(ms, key);
    forall m | m in group ensures OrderedKey(m) == key {
      var i :| 0 <= i < |group| && group[i] == m;
      assert at[i] in at;
    }
    forall m, m' | m in group && m' in group ensures SharesKey(m, m') { OrderedKeyShared(m, m'); }
    assert group[0] in group;
    forall n: nat ensures n in at <==> n < |ms| && SharesKey(ms[n], group[0]) {
      if n < |ms| { OrderedKeyShared(ms[n], group[0]); }
    }
  }

  ghost predicate InGroup(ms: seq<Message>, n: nat, key: string) {
    key in FirstKeys(ms) && n in Positions(ms, key)
  }

  lemma InOwnGroup(ms: seq<Message>, n: nat)
    requires n < |ms|
    ensures InGroup(ms, n, OrderedKey(ms[n]))
  {
    FirstKeysAre(ms, OrderedKey(ms[n]));
    GroupIsRestriction(ms, OrderedKey(ms[n]));
    PositionsOfKey(ms, OrderedKey(ms[n]));
  }

  // The groups partition the batch: each place belongs to exactly one group,
  // and two places to the same one exactly if their messages share a key.
  lemma GroupsPartition(ms: seq<Message>, n: nat, n': nat)
    requires n < |ms| && n' < |ms|
    ensures Distinct(FirstKeys(ms)) && exists key :: InGroup(ms, n, key)
    ensures forall key, key' | InGroup(ms, n, key) && InGroup(ms, n', key') :: key == key' <==> SharesKey(ms[n], ms[n'])
  {
    FirstKeysDistinct(ms);
    InOwnGroup(ms, n);
    OrderedKeyShared(ms[n], ms[n']);
    forall key, key' | InGroup(ms, n, key) && InGroup(ms, n', key')
      ensures key == key' <==> SharesKey(ms[n], ms[n'])
    {
      PositionsOfKey(ms, key);
      PositionsOfKey(ms, key');
    }
  }

  lemma FirstPlace(ms: seq<Message>, key: string)
    ensures key in FirstKeys(ms) ==> Positions(ms, key) != [] && Positions(ms, key)[0] < |ms|
    ensures key !in FirstKeys(ms) ==> Positions(ms, key) == []
  {
    FirstKeysAre(ms, key);
    GroupIsRestriction(ms, key);
  }

  // The keys come in the order of their first messages.
  lemma {:induction false} FirstKeysInOrder(ms: seq<Message>, i: nat, j: nat)
    requires i < j < |FirstKeys(ms)|
    ensures var at, at' := Positions(ms, FirstKeys(ms)[i]), Positions(ms, FirstKeys(ms)[j]);
            at != [] && at' != [] && at[0] < at'[0]
  {
    var n := |ms| - 1;
    var earlier := FirstKeys(ms[..n]);
    FirstPlace(ms[..n], FirstKeys(ms)[i]);
    FirstPlace(ms[..n], FirstKeys(ms)[j]);
    if j < |earlier| {
      FirstKeysInOrder(ms[..n], i, j);
    } else {
      FirstKeysDistinct(ms);
    }
  }

  // ---- the run of the key tasks ----

  datatype KeyEvent = Started(key: string, group: seq<Message>) | Joined(key: string, outcome: TaskOutcome)

  // The key tasks started and not joined yet.
  function Outstanding(log: seq<KeyEvent>): set<string> {
    if log == [] then {} else After(Outstanding(log[..|log| - 1]), log[|log| - 1])
  }

  function After(outstanding: set<string>, e: KeyEvent): set<string> {
    if e.Started? then outstanding + {e.key} else outstanding - {e.key}
  }

  function StartedKeys(log: seq<KeyEvent>): seq<string> {
    if log == [] then []
    else
      var last := log[|log| - 1];
      StartedKeys(log[..|log| - 1]) + (if last.Started? then [last.key] else [])
  }

  // Tasks are started with the groups of their keys, joined once and only
  // after they were started, and never too many are outstanding; none is waited
  // for before there are that many or all are started.
  ghost predicate WellRun(ms: seq<Message>, log: seq<KeyEvent>) {
    && StartedKeys(log) <= FirstKeys(ms)
    && (forall i | 0 <= i < |log| && log[i].Started? :: log[i].group == Restrict(ms, log[i].key))
    && JoinsFollowStarts(log)
    && JoinsWhenDue(ms, log)
    && FewOutstanding(log)
  }

  ghost predicate JoinsFollowStarts(log: seq<KeyEvent>) {
    forall i | 0 <= i < |log| && log[i].Joined? :: log[i].key in Outstanding(log[..i])
  }

  ghost predicate JoinsWhenDue(ms: seq<Message>, log: seq<KeyEvent>) {
    forall i | 0 <= i < |log| && log[i].Joined? :: JoinDue(ms, log[..i])
  }

  ghost predicate JoinDue(ms: seq<Message>, log: seq<KeyEvent>) {
    |Outstanding(log)| == ORDERED_BATCH_KEY_CONCURRENCY || StartedKeys(log) == FirstKeys(ms)
  }

  ghost predicate FewOutstanding(log: seq<KeyEvent>) {
    forall i | 0 <= i <= |log| :: |Outstanding(log[..i])| <= ORDERED_BATCH_KEY_CONCURRENCY
  }

  ghost predicate JoinsPassed(log: seq<KeyEvent>) {
    forall i | 0 <= i < |log| && log[i].Joined? :: log[i].outcome == Pass
  }

  lemma LogAppend(log: seq<KeyEvent>, e: KeyEvent)
    ensures Outstanding(log + [e]) == After(Outstanding(log), e)
    ensures StartedKeys(log + [e]) == StartedKeys(log) + (if e.Started? then [e.key] else [])
  {
    assert (log + [e])[..|log|] == log;
  }

  lemma PrefixesStay(log: seq<KeyEvent>, e: KeyEvent)
    ensures forall i | 0 <= i <= |log| :: (log + [e])[..i] == log[..i]
  {
  }

  lemma {:induction false} OutstandingStarted(log: seq<KeyEvent>)
    ensures forall k | k in Outstanding(log) :: k in StartedKeys(log)
  {
    if log != [] { OutstandingStarted(log[..|log| - 1]); }
  }

  lemma JoinsAppend(log: seq<KeyEvent>, e: KeyEvent)
    requires JoinsFollowStarts(log) && (e.Joined? ==> e.key in Outstanding(log))
    ensures JoinsFollowStarts(log + [e])
  {
    PrefixesStay(log, e);
    assert log[..|log|] == log;
    hide Outstanding, StartedKeys, After;
  }

  lemma DueAppend(ms: seq<Message>, log: seq<KeyEvent>, e: KeyEvent)
    requires JoinsWhenDue(ms, log) && (e.Joined? ==> JoinDue(ms, log))
    ensures JoinsWhenDue(ms, log + [e])
  {
    PrefixesStay(log, e);
    assert log[..|log|] == log;
    hide JoinDue;
  }

  lemma OutstandingAppend(log: seq<KeyEvent>, e: KeyEvent)
    requires FewOutstanding(log) && |Outstanding(log + [e])| <= ORDERED_BATCH_KEY_CONCURRENCY
    ensures FewOutstanding(log + [e])
  {
    PrefixesStay(log, e);
    var more := log + [e];
    assert more[..|more|] == more;
    hide Outstanding, StartedKeys, After;
    forall i | 0 <= i <= |more| ensures |Outstanding(more[..i])| <= ORDERED_BATCH_KEY_CONCURRENCY {
      if i <= |log| { assert |Outstanding(log[..i])| <= ORDERED_BATCH_KEY_CONCURRENCY; }
    }
  }

  lemma WellRunAppend(ms: seq<Message>, log: seq<KeyEvent>, e: KeyEvent)
    requires WellRun(ms, log)
    requires e.Started? ==> e.group == Restrict(ms, e.key) && StartedKeys(log) + [e.key] <= FirstKeys(ms)
    requires e.Joined? ==> e.key in Outstanding(log) && JoinDue(ms, log)
    requires |Outstanding(log + [e])| <= ORDERED_BATCH_KEY_CONCURRENCY
    ensures WellRun(ms, log + [e])
  {
    LogAppend(log, e);
    JoinsAppend(log, e);
    DueAppend(ms, log, e);
    OutstandingAppend(log, e);
    hide Outstanding, StartedKeys, Restrict, FirstKeys, JoinsFollowStarts, JoinsWhenDue, JoinDue, FewOutstanding,
         After;
  }

  // Starting the next key's task keeps the run well.
  lemma StartNext(ms: seq<Message>, log: seq<KeyEvent>, i: nat)
    requires WellRun(ms, log) && i < |FirstKeys(ms)|
    requires StartedKeys(log) == FirstKeys(ms)[..i]
    requires |Outstanding(log)| < ORDERED_BATCH_KEY_CONCURRENCY
    ensures var key := FirstKeys(ms)[i];
            var log' := log + [Started(key, Restrict(ms, key))];
            && WellRun(ms, log')
            && StartedKeys(log') == FirstKeys(ms)[..i + 1]
            && key !in Outstanding(log) && Outstanding(log') == Outstanding(log) + {key}
            && (JoinsPassed(log) ==> JoinsPassed(log'))
  {
    hide WellRun, Outstanding, StartedKeys, FirstKeys, Restrict, JoinsPassed;
    var keys := FirstKeys(ms);
    var e := Started(keys[i], Restrict(ms, keys[i]));
    KeyIsNew(ms, log, i);
    LogAppend(log, e);
    assert keys[..i + 1] == keys[..i] + [keys[i]];
    WellRunAppend(ms, log, e);
    if JoinsPassed(log) { StartPasses(log, e); }
  }

  lemma StartPasses(log: seq<KeyEvent>, e: KeyEvent)
    requires JoinsPassed(log) && e.Started?
    ensures JoinsPassed(log + [e])
  {
  }

  lemma KeyIsNew(ms: seq<Message>, log: seq<KeyEvent>, i: nat)
    requires i < |FirstKeys(ms)| && StartedKeys(log) == FirstKeys(ms)[..i]
    ensures FirstKeys(ms)[i] !in Outstanding(log)
  {
    FirstKeysDistinct(ms);
    OutstandingStarted(log);
    hide FirstKeys, Outstanding, StartedKeys;
  }

  // The groups map each key to its messages.
  ghost predicate Grouped(ms: seq<Message>, keys: seq<string>, groups: map<string, seq<Message>>) {
    && keys == FirstKeys(ms)
    && (forall k :: k in groups <==> k in keys)
    && forall k | k in groups :: groups[k] == Restrict(ms, k)
  }

  // One more message joins its group, or starts a new one.
  function Grow(groups: map<string, seq<Message>>, m: Message): map<string, seq<Message>> {
    var key := OrderedKey(m);
    groups[key := (if key in groups then groups[key] else []) + [m]]
  }

  lemma GroupOneMore(ms: seq<Message>, m: Message, keys: seq<string>, groups: map<string, seq<Message>>)
    requires Grouped(ms, keys, groups)
    ensures Grouped(ms + [m], if OrderedKey(m) in groups then keys else keys + [OrderedKey(m)], Grow(groups, m))
  {
    assert (ms + [m])[..|ms|] == ms;
    FirstKeysAre(ms, OrderedKey(m));
    hide OrderedKey;
  }

  ghost predicate Together(groups: map<string, seq<Message>>, m: Message, m': Message) {
    exists k | k in groups :: m in groups[k] && m' in groups[k]
  }

  // Two messages of the batch are in one group exactly if they share a key.
  lemma GroupedBySharing(ms: seq<Message>, keys: seq<string>, groups: map<string, seq<Message>>, n: nat, n': nat)
    requires Grouped(ms, keys, groups) && n < |ms| && n' < |ms|
    ensures Together(groups, ms[n], ms[n']) <==> SharesKey(ms[n], ms[n'])
  {
    if k :| k in groups && ms[n] in groups[k] && ms[n'] in groups[k] {
      GroupMeans(ms, k);
    }
    if SharesKey(ms[n], ms[n']) {
      GroupsPartition(ms, n, n');
      GroupsPartition(ms, n', n');
      var k :| InGroup(ms, n, k);
      var k' :| InGroup(ms, n', k');
      InItsGroup(ms, n, k);
      InItsGroup(ms, n', k');
    }
  }

  lemma InItsGroup(ms: seq<Message>, n: nat, key: string)
    requires n < |ms| && InGroup(ms, n, key)
    ensures ms[n] in Restrict(ms, key)
  {
    GroupIsRestriction(ms, key);
    var i :| 0 <= i < |Positions(ms, key)| && Positions(ms, key)[i] == n;
    assert Restrict(ms, key)[i] == ms[n];
  }

  method GroupByKey(ms: seq<Message>) returns (keys: seq<string>, groups: map<string, seq<Message>>)
    ensures Grouped(ms, keys, groups)
    ensures forall n, n' | 0 <= n < |ms| && 0 <= n' < |ms| ::
              Together(groups, ms[n], ms[n']) <==> SharesKey(ms[n], ms[n'])
  {
    keys, groups := [], map[];
    var i := 0;
    while i < |ms|
      invariant 0 <= i <= |ms|
      invariant Grouped(ms[..i], keys, groups)
    {
      var key := OrderedKey(ms[i]);
      assert ms[..i + 1] == ms[..i] + [ms[i]];
      GroupOneMore(ms[..i], ms[i], keys, groups);
      if key !in groups { keys := keys + [key]; }
      groups := groups[key := (if key in groups then groups[key] else []) + [ms[i]]];
      i := i + 1;
    }
    assert ms[..|ms|] == ms;
    forall n, n' | 0 <= n < |ms| && 0 <= n' < |ms|
      ensures Together(groups, ms[n], ms[n']) <==> SharesKey(ms[n], ms[n'])
    {
      GroupedBySharing(ms, keys, groups, n, n');
    }
  }

  // The key tasks are well under way: those of the first `n` keys started.
  ghost predicate UnderWay(ms: seq<Message>, log: seq<KeyEvent>, outstanding: set<string>, n: nat) {
    && WellRun(ms, log) && JoinsPassed(log)
    && n <= |FirstKeys(ms)| && StartedKeys(log) == FirstKeys(ms)[..n]
    && outstanding == Outstanding(log)
  }

  // The run failed at its last join.
  ghost predicate FailedJoin(ms: seq<Message>, log: seq<KeyEvent>, r: TaskOutcome) {
    && WellRun(ms, log)
    && log != [] && log[|log| - 1].Joined? && log[|log| - 1].outcome == r
    && JoinsPassed(log[..|log| - 1])
  }

  // Waits for some outstanding task; which one ends first, and how, is open.
  method JoinOne(ms: seq<Message>, log: seq<KeyEvent>, outstanding: set<string>, ghost n: nat)
    returns (r: TaskOutcome, left: set<string>, log': seq<KeyEvent>)
    requires UnderWay(ms, log, outstanding, n) && outstanding != {}
    requires |outstanding| == ORDERED_BATCH_KEY_CONCURRENCY || n == |FirstKeys(ms)|
    ensures |left| == |outstanding| - 1
    ensures if r.Pass? then UnderWay(ms, log', left, n) else FailedJoin(ms, log', r)
  {
    var key :| key in outstanding;
    r := *;
    left := outstanding - {key};
    log' := log + [Joined(key, r)];
    LogAppend(log, Joined(key, r));
    assert log[..|log|] == log;
    WellRunAppend(ms, log, Joined(key, r));
  }

  // Starts every key's task, joining one whenever too many are in flight.
  method StartAll(ms: seq<Message>, keys: seq<string>, groups: map<string, seq<Message>>)
    returns (r: TaskOutcome, outstanding: set<string>, inFlight: nat, log: seq<KeyEvent>)
    requires Grouped(ms, keys, groups)
    ensures if r.Pass? then UnderWay(ms, log, outstanding, |keys|) && inFlight == |outstanding|
            else FailedJoin(ms, log, r)
  {
    FirstKeysDistinct(ms);
    hide WellRun, JoinsPassed, Outstanding, StartedKeys, FirstKeys, Restrict, FailedJoin;
    NothingRun(ms);
    outstanding, inFlight, log := {}, 0, [];
    var remaining := groups;
    var i := 0;
    while i < |keys|
      invariant 0 <= i <= |keys|
      invariant UnderWay(ms, log, outstanding, i)
      invariant inFlight == |outstanding| < ORDERED_BATCH_KEY_CONCURRENCY
      invariant forall j | i <= j < |keys| :: keys[j] in remaining && remaining[keys[j]] == Restrict(ms, keys[j])
    {
      var key := keys[i];
      var group := remaining[key];
      remaining := remaining - {key};
      StartNext(ms, log, i);
      log := log + [Started(key, group)];
      outstanding := outstanding + {key};
      inFlight := inFlight + 1;
      i := i + 1;
      if inFlight >= ORDERED_BATCH_KEY_CONCURRENCY {
        r, outstanding, log := JoinOne(ms, log, outstanding, i);
        if r.Fail? { return; }
        inFlight := inFlight - 1;
      }
    }
    r := Pass;
  }

  lemma NothingRun(ms: seq<Message>)
    ensures UnderWay(ms, [], {}, 0)
  {
  }

  // On success every key's task was started once with its group, and joined;
  // on failure the last join reports the error.
  method ProcessOrderedBatch(ms: seq<Message>) returns (r: TaskOutcome, log: seq<KeyEvent>)
    ensures WellRun(ms, log)
    ensures r.Pass? ==> StartedKeys(log) == FirstKeys(ms) && Outstanding(log) == {} && JoinsPassed(log)
    ensures r.Fail? ==> FailedJoin(ms, log, r)
  {
    if ms == [] { return Pass, []; }
    var keys, groups := GroupByKey(ms);
    var outstanding, inFlight;
    r, outstanding, inFlight, log := StartAll(ms, keys, groups);
    if r.Fail? { return; }
    while inFlight > 0
      invariant UnderWay(ms, log, outstanding, |keys|)
      invariant inFlight == |outstanding|
    {
      r, outstanding, log := JoinOne(ms, log, outstanding, |keys|);
      if r.Fail? { return; }
      inFlight := inFlight - 1;
    }
    r := Pass;
  }

  // ---- what the log says ----

  ghost predicate StartsAt(log: seq<KeyEvent>, i: int, key: string) {
    0 <= i < |log| && log[i].Started? && log[i].key == key
  }

  ghost predicate JoinsAt(log: seq<KeyEvent>, i: int, key: string) {
    0 <= i < |log| && log[i].Joined? && log[i].key == key
  }

  ghost predicate Starts(log: seq<KeyEvent>, key: string) { exists i :: StartsAt(log, i, key) }

  ghost predicate Joins(log: seq<KeyEvent>, key: string) { exists i :: JoinsAt(log, i, key) }

  lemma EventsAppend(log: seq<KeyEvent>, e: KeyEvent, key: string)
    ensures Starts(log + [e], key) <==> Starts(log, key) || (e.Started? && e.key == key)
    ensures Joins(log + [e], key) <==> Joins(log, key) || (e.Joined? && e.key == key)
  {
    var more := log + [e];
    if i :| StartsAt(log, i, key) { assert StartsAt(more, i, key); }
    if i :| JoinsAt(log, i, key) { assert JoinsAt(more, i, key); }
    if e.key == key { assert StartsAt(more, |log|, key) || JoinsAt(more, |log|, key); }
    if i :| StartsAt(more, i, key) { assert i == |log| || StartsAt(log, i, key); }
    if i :| JoinsAt(more, i, key) { assert i == |log| || JoinsAt(log, i, key); }
  }

  lemma {:induction false} StartedSomewhere(log: seq<KeyEvent>, key: string)
    ensures key in StartedKeys(log) <==> Starts(log, key)
  {
    if log != [] {
      var front, last := log[..|log| - 1], log[|log| - 1];
      StartedSomewhere(front, key);
      EventsAppend(front, last, key);
      LogAppend(front, last);
      hide Starts, StartedKeys;
      assert log == front + [last];
    }
  }

  // Distinct keys are started at most once.
  lemma {:induction false} StartedOnce(log: seq<KeyEvent>, key: string, i: nat, j: nat)
    requires Distinct(StartedKeys(log)) && StartsAt(log, i, key) && StartsAt(log, j, key)
    ensures i == j
  {
    var n := |log| - 1;
    ShorterRun(log, n);
    if i < n && j < n {
      assert StartsAt(log[..n], i, key) && StartsAt(log[..n], j, key);
      StartedOnce(log[..n], key, i, j);
    } else if i < n || j < n {
      assert StartsAt(log[..n], if i < j then i else j, key);
      StartedSomewhere(log[..n], key);
      assert false by { StartedTwice(log, key); }
    }
  }

  lemma StartedTwice(log: seq<KeyEvent>, key: string)
    requires log != [] && StartsAt(log, |log| - 1, key) && key in StartedKeys(log[..|log| - 1])
    ensures !Distinct(StartedKeys(log))
  {
    var earlier := StartedKeys(log[..|log| - 1]);
    var k :| 0 <= k < |earlier| && earlier[k] == key;
    assert StartedKeys(log)[k] == StartedKeys(log)[|earlier|];
  }

  // A task is outstanding while it was started and not joined.
  lemma {:induction false} OutstandingMeans(log: seq<KeyEvent>, key: string)
    requires Distinct(StartedKeys(log)) && JoinsFollowStarts(log)
    ensures key in Outstanding(log) <==> Starts(log, key) && !Joins(log, key)
  {
    if log != [] {
      var n := |log| - 1;
      var front, last := log[..n], log[n];
      assert log == front + [last];
      ShorterRun(log, n);
      ShorterJoins(log, n);
      OutstandingMeans(front, key);
      EventsAppend(front, last, key);
      LogAppend(front, last);
      StartedSomewhere(front, key);
      if Joins(front, key) { JoinsWereStarted(front, key); }
      assert last.Joined? ==> last.key in Outstanding(front);
      if last.Started? && last.key == key {
        assert StartedKeys(log)[|StartedKeys(front)|] == key;
      }
      hide Starts, Joins, StartedKeys, Outstanding, JoinsFollowStarts;
    }
  }

  lemma {:induction false} JoinsWereStarted(log: seq<KeyEvent>, key: string)
    requires JoinsFollowStarts(log) && Joins(log, key)
    ensures Starts(log, key)
  {
    var j :| JoinsAt(log, j, key);
    OutstandingStarted(log[..j]);
    StartedSomewhere(log[..j], key);
    var i :| StartsAt(log[..j], i, key);
    assert StartsAt(log, i, key);
  }

  lemma ShorterJoins(log: seq<KeyEvent>, n: nat)
    requires JoinsFollowStarts(log) && n <= |log|
    ensures JoinsFollowStarts(log[..n])
  {
    hide Outstanding;
    forall i | 0 <= i < n && log[..n][i].Joined? ensures log[..n][i].key in Outstanding(log[..n][..i]) {
      assert log[..n][..i] == log[..i];
      assert log[i].Joined?;
    }
  }

  lemma ShorterRun(log: seq<KeyEvent>, n: nat)
    requires Distinct(StartedKeys(log)) && n <= |log|
    ensures StartedKeys(log[..n]) <= StartedKeys(log) && Distinct(StartedKeys(log[..n]))
  {
    StartedPrefix(log, n);
    PrefixDistinct(StartedKeys(log[..n]), StartedKeys(log));
  }

  lemma PrefixDistinct(part: seq<string>, keys: seq<string>)
    requires part <= keys && Distinct(keys)
    ensures Distinct(part)
  {
    assert forall i | 0 <= i < |part| :: part[i] == keys[i];
  }

  lemma {:induction false} StartedPrefix(log: seq<KeyEvent>, n: nat)
    requires n <= |log|
    ensures StartedKeys(log[..n]) <= StartedKeys(log)
    decreases |log| - n
  {
    if n < |log| {
      StartedPrefix(log, n + 1);
      LogAppend(log[..n], log[n]);
      assert log[..n + 1] == log[..n] + [log[n]];
    } else {
      assert log[..n] == log;
    }
  }

  lemma RunKeysDistinct(ms: seq<Message>, log: seq<KeyEvent>)
    requires WellRun(ms, log)
    ensures Distinct(StartedKeys(log))
  {
    FirstKeysDistinct(ms);
    hide FirstKeys, StartedKeys;
  }

  // No more than sixty-four tasks are started and not joined at any time, and
  // one is waited for only when there are that many or no more to start.
  lemma AtMost64(ms: seq<Message>, log: seq<KeyEvent>, n: nat, tasks: set<string>)
    requires WellRun(ms, log) && n <= |log|
    requires forall k :: k in tasks <==> Starts(log[..n], k) && !Joins(log[..n], k)
    ensures |tasks| <= 64
    ensures n < |log| && log[n].Joined? ==>
              |tasks| == 64 || forall key | key in FirstKeys(ms) :: Starts(log[..n], key)
  {
    RunKeysDistinct(ms, log);
    ShorterRun(log, n);
    ShorterJoins(log, n);
    forall k ensures k in tasks <==> k in Outstanding(log[..n]) { OutstandingMeans(log[..n], k); }
    assert tasks == Outstanding(log[..n]);
    if n < |log| && log[n].Joined? {
      assert JoinDue(ms, log[..n]);
      forall key ensures key in StartedKeys(log[..n]) <==> Starts(log[..n], key) { StartedSomewhere(log[..n], key); }
    }
  }

  // Two tasks never have messages that share a key, and one task only such.
  lemma TasksShareNoKey(ms: seq<Message>, log: seq<KeyEvent>, i: nat, j: nat, m: Message, m': Message)
    requires WellRun(ms, log) && i < |log| && j < |log| && log[i].Started? && log[j].Started?
    requires m in log[i].group && m' in log[j].group
    ensures SharesKey(m, m') <==> i == j
  {
    RunKeysDistinct(ms, log);
    StartedSomewhere(log, log[i].key);
    StartedSomewhere(log, log[j].key);
    assert StartsAt(log, i, log[i].key) && StartsAt(log, j, log[j].key);
    GroupMeans(ms, log[i].key);
    if log[i].key == log[j].key {
      StartedOnce(log, log[i].key, i, j);
    } else {
      PlaceOf(ms, log[i].key, m);
      PlaceOf(ms, log[j].key, m');
      OrderedKeyShared(m, m');
    }
  }

  lemma PlaceOf(ms: seq<Message>, key: string, m: Message)
    requires m in Restrict(ms, key)
    ensures OrderedKey(m) == key
  {
    GroupIsRestriction(ms, key);
    PositionsOfKey(ms, key);
    var i :| 0 <= i < |Restrict(ms, key)| && Restrict(ms, key)[i] == m;
    assert Positions(ms, key)[i] in Positions(ms, key);
  }

  // A join is of a task started before, and no task is joined twice.
  lemma JoinsAreOfStarts(ms: seq<Message>, log: seq<KeyEvent>, j: nat)
    requires WellRun(ms, log) && j < |log| && log[j].Joined?
    ensures Starts(log[..j], log[j].key) && !Joins(log[..j], log[j].key)
  {
    RunKeysDistinct(ms, log);
    ShorterRun(log, j);
    ShorterJoins(log, j);
    OutstandingMeans(log[..j], log[j].key);
  }

  // When an ordered batch ends well, each of its messages was in the group of a
  // task that was started, and joined without error.
  lemma AllHandledWhenPassed(ms: seq<Message>, log: seq<KeyEvent>, n: nat) returns (i: nat, j: nat)
    requires WellRun(ms, log) && StartedKeys(log) == FirstKeys(ms) && Outstanding(log) == {} && JoinsPassed(log)
    requires n < |ms|
    ensures i < j < |log| && log[i].Started? && ms[n] in log[i].group
    ensures JoinsAt(log, j, log[i].key) && log[j].outcome == Pass
  {
    GroupsPartition(ms, n, n);
    var key :| InGroup(ms, n, key);
    InItsGroup(ms, n, key);
    StartedSomewhere(log, key);
    RunKeysDistinct(ms, log);
    OutstandingMeans(log, key);
    hide Outstanding, StartedKeys, FirstKeys, WellRun;
    i :| StartsAt(log, i, key);
    j :| JoinsAt(log, j, key);
    JoinsAreOfStarts(ms, log, j);
    var k :| StartsAt(log[..j], k, key);
    assert StartsAt(log, k, key);
    StartedOnce(log, key, i, k);
    assert log[i].group == Restrict(ms, key) by { GroupStarted(ms, log, i); }
  }

  lemma GroupStarted(ms: seq<Message>, log: seq<KeyEvent>, i: nat)
    requires WellRun(ms, log) && i < |log| && log[i].Started?
    ensures log[i].group == Restrict(ms, log[i].key)
  {
  }
}
