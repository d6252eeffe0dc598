// Snowflake ids: the bit layout, and the generator over a clock that may
// stand still, go back or be unreadable.
module Snowflake {
  import opened Wrappers
  import opened Bits

  // 2024-01-01 00:00:00 UTC
  const EPOCH: int := 1_704_067_200_000

  const WORKER_ID_BITS := 5
  const DATACENTER_ID_BITS := 5
  const SEQUENCE_BITS := 12
  const MAX_WORKER_ID: nat := Pow2(WORKER_ID_BITS) - 1
  const MAX_DATACENTER_ID: nat := Pow2(DATACENTER_ID_BITS) - 1
  const SEQUENCE_MASK: nat := Pow2(SEQUENCE_BITS) - 1
  const WORKER_ID_SHIFT := SEQUENCE_BITS
  const DATACENTER_ID_SHIFT := SEQUENCE_BITS + WORKER_ID_BITS
  const TIMESTAMP_SHIFT := SEQUENCE_BITS + WORKER_ID_BITS + DATACENTER_ID_BITS

  // The milliseconds that fit in a word above the other fields.
  const SPAN: int := 0x400_0000_0000

  datatype SnowflakeError = InvalidWorkerId | InvalidDatacenterId | ClockMovedBackwards | SystemTimeError

  // One reading of the system clock.
  datatype Reading = Time(ms: nat) | Unreadable

  // What a call answers; it waits while the clock has not moved on.
  datatype Reply = Id(id: nat) | Failed(error: SnowflakeError) | Waiting

  datatype State = State(last: int, sequence: nat)

  // A signed difference cast to an unsigned word.
  function AsWord(n: int): nat {
    n % WORD
  }

  function Pack(timestamp: int, datacenter: nat, worker: nat, sequence: nat): nat {
    Or(Or(Or(ShiftLeft(AsWord(timestamp - EPOCH), TIMESTAMP_SHIFT), ShiftLeft(datacenter, DATACENTER_ID_SHIFT)),
          ShiftLeft(worker, WORKER_ID_SHIFT)),
       sequence)
  }

  // ---- the bit layout ----

  ghost predicate InSpan(timestamp: int) {
    EPOCH <= timestamp < EPOCH + SPAN
  }

  ghost predicate InRange(timestamp: int, datacenter: nat, worker: nat, sequence: nat) {
    InSpan(timestamp) && datacenter <= MAX_DATACENTER_ID && worker <= MAX_WORKER_ID && sequence <= SEQUENCE_MASK
  }

  lemma Powers()
    ensures Pow2(5) == 32 && Pow2(12) == 4096 && Pow2(17) == 131072 && Pow2(22) == 4194304
  {
  }

  lemma Shifted(n: nat, k: nat, p: nat)
    requires p == Pow2(k) && n * p < WORD
    ensures ShiftLeft(n, k) == n * p
  {
    DoublingsMultiply(n, k);
  }

  lemma Joined(high: nat, low: nat, quotient: nat, k: nat, p: nat)
    requires p == Pow2(k) && low < p && high == quotient * p
    ensures Or(high, low) == high + low
  {
    DoublingsMultiply(quotient, k);
    OrAdds(quotient, low, k);
  }

  lemma Parted(word: nat, high: nat, low: nat, k: nat, p: nat)
    requires p == Pow2(k) && low < p && word == high * p + low
    ensures ShiftRight(word, k) == high && And(word, p - 1) == low
  {
    DoublingsMultiply(high, k);
    ShiftDrops(high, low, k);
    AndMasks(high, low, k);
  }

  // The fields as parts of a sum.
  function Sum(t: nat, datacenter: nat, worker: nat, sequence: nat): nat {
    t * 4194304 + datacenter * 131072 + worker * 4096 + sequence
  }

  lemma FieldsShift(t: nat, datacenter: nat, worker: nat)
    requires t < SPAN && datacenter < 32 && worker < 32
    ensures ShiftLeft(t, 22) == t * 4194304 && ShiftLeft(datacenter, 17) == datacenter * 131072
    ensures ShiftLeft(worker, 12) == worker * 4096
  {
    Powers();
    hide Pow2, ShiftLeft;
    Shifted(t, 22, 4194304);
    Shifted(datacenter, 17, 131072);
    Shifted(worker, 12, 4096);
  }

  lemma FieldsAdd(t: nat, datacenter: nat, worker: nat, sequence: nat)
    requires datacenter < 32 && worker < 32 && sequence < 4096
    ensures Or(Or(Or(t * 4194304, datacenter * 131072), worker * 4096), sequence)
            == Sum(t, datacenter, worker, sequence)
  {
    Powers();
    hide Pow2, Or;
    var a, b, c := t * 4194304, datacenter * 131072, worker * 4096;
    Joined(a, b, t, 22, 4194304);
    Joined(a + b, c, t * 32 + datacenter, 17, 131072);
    Joined(a + b + c, sequence, t * 1024 + datacenter * 32 + worker, 12, 4096);
  }

  lemma FieldsJoin(t: nat, datacenter: nat, worker: nat, sequence: nat)
    requires t < SPAN && datacenter < 32 && worker < 32 && sequence < 4096
    ensures Or(Or(Or(ShiftLeft(t, 22), ShiftLeft(datacenter, 17)), ShiftLeft(worker, 12)), sequence)
            == Sum(t, datacenter, worker, sequence)
  {
    hide Or, ShiftLeft, Sum;
    FieldsShift(t, datacenter, worker);
    FieldsAdd(t, datacenter, worker, sequence);
  }

  lemma FieldsPart(t: nat, datacenter: nat, worker: nat, sequence: nat)
    requires t < SPAN && datacenter < 32 && worker < 32 && sequence < 4096
    ensures var id := Sum(t, datacenter, worker, sequence);
            && id < WORD && ShiftRight(id, 22) == t && And(ShiftRight(id, 17), 31) == datacenter
            && And(ShiftRight(id, 12), 31) == worker && And(id, 4095) == sequence
  {
    Powers();
    hide Pow2, And, ShiftRight;
    var id := Sum(t, datacenter, worker, sequence);
    Parted(id, t, datacenter * 131072 + worker * 4096 + sequence, 22, 4194304);
    Parted(id, t * 32 + datacenter, worker * 4096 + sequence, 17, 131072);
    Parted(id, t * 1024 + datacenter * 32 + worker, sequence, 12, 4096);
    Parted(t * 32 + datacenter, t, datacenter, 5, 32);
    Parted(t * 1024 + datacenter * 32 + worker, t * 32 + datacenter, worker, 5, 32);
  }

  // The fields lie side by side.
  lemma PackAdds(timestamp: int, datacenter: nat, worker: nat, sequence: nat)
    requires InRange(timestamp, datacenter, worker, sequence)
    ensures Pack(timestamp, datacenter, worker, sequence) == Sum(timestamp - EPOCH, datacenter, worker, sequence)
  {
    Powers();
    hide Pow2, Or, ShiftLeft, Sum;
    assert AsWord(timestamp - EPOCH) == timestamp - EPOCH;
    FieldsJoin(timestamp - EPOCH, datacenter, worker, sequence);
  }

  // Shifting and masking gives every field back.
  lemma FieldsRecovered(timestamp: int, datacenter: nat, worker: nat, sequence: nat)
    requires InRange(timestamp, datacenter, worker, sequence)
    ensures Pack(timestamp, datacenter, worker, sequence) < WORD
    ensures ShiftRight(Pack(timestamp, datacenter, worker, sequence), TIMESTAMP_SHIFT) + EPOCH == timestamp
    ensures And(ShiftRight(Pack(timestamp, datacenter, worker, sequence), DATACENTER_ID_SHIFT), MAX_DATACENTER_ID)
            == datacenter
    ensures And(ShiftRight(Pack(timestamp, datacenter, worker, sequence), WORKER_ID_SHIFT), MAX_WORKER_ID) == worker
    ensures And(Pack(timestamp, datacenter, worker, sequence), SEQUENCE_MASK) == sequence
  {
    Powers();
    hide Pow2, Pack, And, ShiftRight, Sum;
    PackAdds(timestamp, datacenter, worker, sequence);
    FieldsPart(timestamp - EPOCH, datacenter, worker, sequence);
  }

  // Later times, and later numbers within one millisecond, give larger ids.
  lemma PackGrows(t0: int, s0: nat, t1: int, s1: nat, datacenter: nat, worker: nat)
    requires InRange(t0, datacenter, worker, s0) && InRange(t1, datacenter, worker, s1)
    requires t0 < t1 || (t0 == t1 && s0 < s1)
    ensures Pack(t0, datacenter, worker, s0) < Pack(t1, datacenter, worker, s1)
  {
    PackAdds(t0, datacenter, worker, s0);
    PackAdds(t1, datacenter, worker, s1);
    Powers();
  }

  // ---- one call ----

  datatype Wait = Until(ms: nat) | Broken | Endless

  // The first reading past the last timestamp, unless one fails before.
  function WaitPast(last: int, readings: seq<Reading>): Wait {
    if readings == [] then Endless
    else if readings[0].Unreadable? then Broken
    else if readings[0].ms > last then Until(readings[0].ms)
    else WaitPast(last, readings[1..])
  }

  // The first readings do not get past the timestamp.
  ghost predicate StillAt(last: int, readings: seq<Reading>, k: nat)
    requires k <= |readings|
  {
    forall j | 0 <= j < k :: readings[j].Time? && readings[j].ms <= last
  }

  // What waiting for the clock comes to.
  ghost predicate WaitedFor(last: int, readings: seq<Reading>, w: Wait) {
    match w
    case Until(ms) =>
      ms > last && exists k | 0 <= k < |readings| :: readings[k] == Time(ms) && StillAt(last, readings, k)
    case Broken => exists k | 0 <= k < |readings| :: readings[k].Unreadable? && StillAt(last, readings, k)
    case Endless => StillAt(last, readings, |readings|)
  }

  lemma {:induction false} WaitPastMeans(last: int, readings: seq<Reading>)
    ensures WaitedFor(last, readings, WaitPast(last, readings))
  {
    if readings != [] {
      WaitPastMeans(last, readings[1..]);
      assert StillAt(last, readings, 0);
      if readings[0].Time? && readings[0].ms <= last {
        forall k: nat | k <= |readings[1..]| && StillAt(last, readings[1..], k) ensures StillAt(last, readings, k + 1) {
          assert forall j | 1 <= j < k + 1 :: readings[j] == readings[1..][j - 1];
        }
      }
    }
  }

  // A call that meets these clock readings.
  function Next(s: State, datacenter: nat, worker: nat, readings: seq<Reading>): (State, Reply) {
    if readings == [] then (s, Waiting)
    else if readings[0].Unreadable? then (s, Failed(SystemTimeError))
    else if readings[0].ms < s.last then (s, Failed(ClockMovedBackwards))
    else if readings[0].ms > s.last then
      (State(readings[0].ms, 0), Id(Pack(readings[0].ms, datacenter, worker, 0)))
    else
      var sequence := And(s.sequence + 1, SEQUENCE_MASK);
      if sequence != 0 then (State(s.last, sequence), Id(Pack(s.last, datacenter, worker, sequence)))
      else
        match WaitPast(s.last, readings[1..])
        case Until(ms) => (State(ms, 0), Id(Pack(ms, datacenter, worker, 0)))
        case Broken => (State(s.last, 0), Failed(SystemTimeError))
        case Endless => (State(s.last, 0), Waiting)
  }

  class SnowflakeGenerator {
    const worker: nat
    const datacenter: nat
    var last: int
    var sequence: nat

    constructor (worker: nat, datacenter: nat)
      ensures this.worker == worker && this.datacenter == datacenter && last == -1 && sequence == 0
    {
      this.worker, this.datacenter := worker, datacenter;
      last, sequence := -1, 0;
    }

    static method Create(worker: nat, datacenter: nat) returns (r: Result<SnowflakeGenerator, SnowflakeError>)
      ensures r.Ok? <==> worker <= 31 && datacenter <= 31
      ensures r.Err? ==> r.error == if worker > 31 then InvalidWorkerId else InvalidDatacenterId
      ensures r.Ok? ==> fresh(r.value) && r.value.worker == worker && r.value.datacenter == datacenter
      ensures r.Ok? ==> State(r.value.last, r.value.sequence) == State(-1, 0)
    {
      Powers();
      if worker > MAX_WORKER_ID { return Err(InvalidWorkerId); }
      if datacenter > MAX_DATACENTER_ID { return Err(InvalidDatacenterId); }
      var generator := new SnowflakeGenerator(worker, datacenter);
      r := Ok(generator);
    }

    // Reads the clock until it is past the last timestamp.
    static method WaitNextMillis(last: int, readings: seq<Reading>) returns (w: Wait)
      ensures w == WaitPast(last, readings) && WaitedFor(last, readings, w)
    {
      WaitPastMeans(last, readings);
      var k := 0;
      while k < |readings|
        invariant 0 <= k <= |readings| && WaitPast(last, readings) == WaitPast(last, readings[k..])
      {
        if readings[k].Unreadable? { return Broken; }
        if readings[k].ms > last { return Until(readings[k].ms); }
        k := k + 1;
      }
      w := Endless;
    }

    // The next id, with the clock readings the call meets.
    method NextId(readings: seq<Reading>) returns (reply: Reply)
      modifies this
      ensures (State(last, sequence), reply)
              == Next(State(old(last), old(sequence)), datacenter, worker, readings)
      ensures reply == Failed(ClockMovedBackwards)
              <==> readings != [] && readings[0].Time? && readings[0].ms < old(last)
      ensures readings != [] && readings[0].Unreadable? ==> reply == Failed(SystemTimeError)
      ensures readings != [] && readings[0].Time? && readings[0].ms > old(last) ==> reply.Id? && last == readings[0].ms
      ensures reply.Failed? ==> last == old(last)
    {
      hide Pack, And;
      if readings == [] { return Waiting; }
      if readings[0].Unreadable? { return Failed(SystemTimeError); }
      var timestamp: int := readings[0].ms;
      if timestamp < last { return Failed(ClockMovedBackwards); }
      if timestamp == last {
        sequence := And(sequence + 1, SEQUENCE_MASK);
        if sequence == 0 {
          var w := WaitNextMillis(last, readings[1..]);
          if w.Broken? { return Failed(SystemTimeError); }
          if w.Endless? { return Waiting; }
          timestamp := w.ms;
        }
      } else {
        sequence := 0;
      }
      last := timestamp;
      reply := Id(Pack(timestamp, datacenter, worker, sequence));
    }
  }

  // ---- whole runs ----

  // The state after calls that met these readings, from a new generator.
  function After(calls: seq<seq<Reading>>, datacenter: nat, worker: nat): State {
    if calls == [] then State(-1, 0)
    else Next(After(calls[..|calls| - 1], datacenter, worker), datacenter, worker, calls[|calls| - 1]).0
  }

  function LastReply(calls: seq<seq<Reading>>, datacenter: nat, worker: nat): Reply
    requires calls != []
  {
    Next(After(calls[..|calls| - 1], datacenter, worker), datacenter, worker, calls[|calls| - 1]).1
  }

  // The ids given out.
  function Ids(calls: seq<seq<Reading>>, datacenter: nat, worker: nat): seq<nat> {
    if calls == [] then []
    else
      var reply := LastReply(calls, datacenter, worker);
      Ids(calls[..|calls| - 1], datacenter, worker) + (if reply.Id? then [reply.id] else [])
  }

  // The clock stays in the span, and every call has returned.
  ghost predicate Possible(calls: seq<seq<Reading>>, datacenter: nat, worker: nat) {
    calls != [] ==>
      && Possible(calls[..|calls| - 1], datacenter, worker)
      && (forall r | r in calls[|calls| - 1] && r.Time? :: InSpan(r.ms))
      && !LastReply(calls, datacenter, worker).Waiting?
  }

  ghost predicate Reads(readings: seq<Reading>, ms: int) {
    readings != [] && readings[0].Time? && readings[0].ms == ms
  }

  // A call has used up its millisecond and fails waiting for the next.
  ghost predicate WaitFails(s: State, datacenter: nat, worker: nat, readings: seq<Reading>) {
    && Reads(readings, s.last) && And(s.sequence + 1, SEQUENCE_MASK) == 0
    && Next(s, datacenter, worker, readings).1 == Failed(SystemTimeError)
  }

  // Waiting for a new millisecond failed, and no id was given since.
  ghost predicate Stale(calls: seq<seq<Reading>>, datacenter: nat, worker: nat) {
    calls != [] &&
    var front := calls[..|calls| - 1];
    StaleNext(After(front, datacenter, worker), Stale(front, datacenter, worker), datacenter, worker,
              calls[|calls| - 1])
  }

  ghost predicate StaleNext(s: State, stale: bool, datacenter: nat, worker: nat, readings: seq<Reading>) {
    !Next(s, datacenter, worker, readings).1.Id? && (stale || WaitFails(s, datacenter, worker, readings))
  }

  // A call reads the very millisecond in which the wait had failed.
  ghost predicate Reuses(calls: seq<seq<Reading>>, datacenter: nat, worker: nat) {
    calls != [] &&
    var front, readings := calls[..|calls| - 1], calls[|calls| - 1];
    Reuses(front, datacenter, worker)
    || (Stale(front, datacenter, worker) && Reads(readings, After(front, datacenter, worker).last))
  }

  ghost predicate Increasing(ids: seq<nat>) {
    forall i, j | 0 <= i < j < |ids| :: ids[i] < ids[j]
  }

  ghost predicate Distinct(ids: seq<nat>) {
    forall i, j | 0 <= i < j < |ids| :: ids[i] != ids[j]
  }

  // As long as no millisecond is reused, ids grow, and all numbers of the
  // current millisecond up to the last one have been given.
  ghost predicate History(s: State, ids: seq<nat>, stale: bool, datacenter: nat, worker: nat) {
    && Increasing(ids)
    && s.sequence <= SEQUENCE_MASK && (stale ==> s.sequence == 0)
    && (ids == [] ==> s == State(-1, 0) && !stale)
    && (ids != [] ==>
          && InSpan(s.last)
          && Given(ids, s.last, if stale then SEQUENCE_MASK else s.sequence, datacenter, worker))
  }

  // The last id is the numbered one, and all before it in its millisecond
  // are there.
  ghost predicate Given(ids: seq<nat>, ms: int, top: nat, datacenter: nat, worker: nat)
    requires ids != []
  {
    && ids[|ids| - 1] == Pack(ms, datacenter, worker, top)
    && forall k: nat | k <= top :: Pack(ms, datacenter, worker, k) in ids
  }

  ghost predicate ValidGenerator(datacenter: nat, worker: nat) {
    datacenter <= MAX_DATACENTER_ID && worker <= MAX_WORKER_ID
  }

  lemma IncreasingNext(ids: seq<nat>, id: nat)
    requires Increasing(ids) && (ids != [] ==> ids[|ids| - 1] < id)
    ensures Increasing(ids + [id])
  {
  }

  // Counting on within the millisecond.
  lemma NextNumber(sequence: nat)
    requires sequence <= SEQUENCE_MASK
    ensures And(sequence + 1, SEQUENCE_MASK) == if sequence == SEQUENCE_MASK then 0 else sequence + 1
  {
    Powers();
    var word := sequence + 1;
    if sequence == SEQUENCE_MASK { Parted(word, 1, 0, 12, 4096); } else { Parted(word, 0, word, 12, 4096); }
  }

  // A later time leads to a larger id that starts a new millisecond.
  lemma LaterTime(ids: seq<nat>, last: int, top: nat, ms: int, datacenter: nat, worker: nat)
    requires ValidGenerator(datacenter, worker) && Increasing(ids) && InSpan(ms) && top <= SEQUENCE_MASK
    requires ids != [] ==> InSpan(last) && last < ms && Given(ids, last, top, datacenter, worker)
    ensures Increasing(ids + [Pack(ms, datacenter, worker, 0)])
    ensures Given(ids + [Pack(ms, datacenter, worker, 0)], ms, 0, datacenter, worker)
  {
    if ids != [] { PackGrows(last, top, ms, 0, datacenter, worker); }
    hide Pack;
    IncreasingNext(ids, Pack(ms, datacenter, worker, 0));
  }

  // So does the next number of the same millisecond.
  lemma LaterNumber(ids: seq<nat>, last: int, top: nat, datacenter: nat, worker: nat)
    requires ValidGenerator(datacenter, worker) && Increasing(ids) && InSpan(last) && top < SEQUENCE_MASK
    requires ids != [] && Given(ids, last, top, datacenter, worker)
    ensures Increasing(ids + [Pack(last, datacenter, worker, top + 1)])
    ensures Given(ids + [Pack(last, datacenter, worker, top + 1)], last, top + 1, datacenter, worker)
  {
    PackGrows(last, top, last, top + 1, datacenter, worker);
    hide Pack;
    IncreasingNext(ids, Pack(last, datacenter, worker, top + 1));
  }

  // One call keeps the history, unless it reuses a millisecond.
  lemma HistoryNext(s: State, ids: seq<nat>, stale: bool, datacenter: nat, worker: nat, readings: seq<Reading>)
    requires ValidGenerator(datacenter, worker) && History(s, ids, stale, datacenter, worker)
    requires forall r | r in readings && r.Time? :: InSpan(r.ms)
    requires !(stale && Reads(readings, s.last)) && !Next(s, datacenter, worker, readings).1.Waiting?
    ensures var (s', reply) := Next(s, datacenter, worker, readings);
            History(s', if reply.Id? then ids + [reply.id] else ids,
                    StaleNext(s, stale, datacenter, worker, readings), datacenter, worker)
  {
    var top := if stale then SEQUENCE_MASK else s.sequence;
    hide Pack, Increasing, Given, And;
    NextNumber(s.sequence);
    if Reads(readings, s.last) {
      WaitPastMeans(s.last, readings[1..]);
      if s.sequence < SEQUENCE_MASK {
        LaterNumber(ids, s.last, s.sequence, datacenter, worker);
      } else if WaitPast(s.last, readings[1..]).Until? {
        LaterTime(ids, s.last, top, WaitPast(s.last, readings[1..]).ms, datacenter, worker);
      }
    } else if readings != [] && readings[0].Time? && readings[0].ms > s.last {
      LaterTime(ids, s.last, top, readings[0].ms, datacenter, worker);
    }
  }

  ghost predicate HistoryOf(calls: seq<seq<Reading>>, datacenter: nat, worker: nat) {
    History(After(calls, datacenter, worker), Ids(calls, datacenter, worker), Stale(calls, datacenter, worker),
            datacenter, worker)
  }

  // The last call of a run.
  lemma LastCall(calls: seq<seq<Reading>>, datacenter: nat, worker: nat)
    requires calls != [] && Possible(calls, datacenter, worker) && !Reuses(calls, datacenter, worker)
    ensures var front, readings := calls[..|calls| - 1], calls[|calls| - 1];
            var s := After(front, datacenter, worker);
            var (s', reply) := Next(s, datacenter, worker, readings);
            && Possible(front, datacenter, worker) && !Reuses(front, datacenter, worker)
            && (forall r | r in readings && r.Time? :: InSpan(r.ms))
            && !(Stale(front, datacenter, worker) && Reads(readings, s.last)) && !reply.Waiting?
            && After(calls, datacenter, worker) == s'
            && Ids(calls, datacenter, worker)
               == (if reply.Id? then Ids(front, datacenter, worker) + [reply.id] else Ids(front, datacenter, worker))
            && Stale(calls, datacenter, worker)
               == StaleNext(s, Stale(front, datacenter, worker), datacenter, worker, readings)
  {
    hide Next, StaleNext;
  }

  lemma {:induction false} HistoryHolds(calls: seq<seq<Reading>>, datacenter: nat, worker: nat)
    requires ValidGenerator(datacenter, worker) && Possible(calls, datacenter, worker)
    requires !Reuses(calls, datacenter, worker)
    ensures HistoryOf(calls, datacenter, worker)
  {
    if calls == [] { return; }
    hide After, Ids, Stale, Possible, Reuses, Next, History, StaleNext, ValidGenerator, Reads;
    var front, readings := calls[..|calls| - 1], calls[|calls| - 1];
    LastCall(calls, datacenter, worker);
    HistoryHolds(front, datacenter, worker);
    HistoryNext(After(front, datacenter, worker), Ids(front, datacenter, worker), Stale(front, datacenter, worker),
                datacenter, worker, readings);
  }

  // A reuse gives out the second id of a millisecond again.
  lemma SecondAgain(s: State, ids: seq<nat>, datacenter: nat, worker: nat, readings: seq<Reading>)
    requires ValidGenerator(datacenter, worker) && History(s, ids, true, datacenter, worker) && Reads(readings, s.last)
    ensures Next(s, datacenter, worker, readings).1.Id? && Next(s, datacenter, worker, readings).1.id in ids
  {
    NextNumber(0);
    Powers();
    hide Pack, And;
    assert Given(ids, s.last, SEQUENCE_MASK, datacenter, worker);
  }

  lemma {:induction false} ReuseRepeats(calls: seq<seq<Reading>>, datacenter: nat, worker: nat)
    requires ValidGenerator(datacenter, worker) && Possible(calls, datacenter, worker)
    requires Reuses(calls, datacenter, worker)
    ensures !Distinct(Ids(calls, datacenter, worker))
  {
    hide Next, History;
    var front, readings := calls[..|calls| - 1], calls[|calls| - 1];
    var s, ids := After(front, datacenter, worker), Ids(front, datacenter, worker);
    if Reuses(front, datacenter, worker) {
      ReuseRepeats(front, datacenter, worker);
      var i, j :| 0 <= i < j < |ids| && ids[i] == ids[j];
      assert Ids(calls, datacenter, worker)[i] == Ids(calls, datacenter, worker)[j];
    } else {
      HistoryHolds(front, datacenter, worker);
      SecondAgain(s, ids, datacenter, worker, readings);
      var id := LastReply(calls, datacenter, worker).id;
      var i :| 0 <= i < |ids| && ids[i] == id;
      assert (ids + [id])[i] == (ids + [id])[|ids|];
    }
  }

  // ---- one millisecond ----

  // Calls that all read the same millisecond.
  function Repeated(ms: nat, n: nat): (calls: seq<seq<Reading>>)
    ensures |calls| == n && forall i | 0 <= i < n :: calls[i] == [Time(ms)]
  {
    seq(n, i => [Time(ms)])
  }

  lemma {:induction false} RepeatedCounts(ms: nat, datacenter: nat, worker: nat, n: nat)
    requires InSpan(ms) && n <= SEQUENCE_MASK
    ensures var calls := Repeated(ms, n + 1);
            && After(calls, datacenter, worker) == State(ms, n) && Possible(calls, datacenter, worker)
            && LastReply(calls, datacenter, worker) == Id(Pack(ms, datacenter, worker, n))
  {
    var calls := Repeated(ms, n + 1);
    assert calls[..|calls| - 1] == Repeated(ms, n);
    SameMillisecond(ms, datacenter, worker, n);
    hide Pack, Repeated, Next, InSpan;
    if n > 0 { RepeatedCounts(ms, datacenter, worker, n - 1); }
  }

  lemma SameMillisecond(ms: nat, datacenter: nat, worker: nat, n: nat)
    requires n <= SEQUENCE_MASK
    ensures Next(if n == 0 then State(-1, 0) else State(ms, n - 1), datacenter, worker, [Time(ms)])
            == (State(ms, n), Id(Pack(ms, datacenter, worker, n)))
  {
    if n > 0 { NextNumber(n - 1); }
    hide Pack, And;
  }

  lemma IdsNext(calls: seq<seq<Reading>>, readings: seq<Reading>, datacenter: nat, worker: nat, id: nat)
    requires LastReply(calls + [readings], datacenter, worker) == Id(id)
    ensures Ids(calls + [readings], datacenter, worker) == Ids(calls, datacenter, worker) + [id]
  {
    assert (calls + [readings])[..|calls|] == calls;
    hide After, Next;
  }

  // The first id of a millisecond, in plain arithmetic.
  function FirstId(ms: nat, datacenter: nat, worker: nat): int {
    (ms - 1_704_067_200_000) * 4194304 + datacenter * 131072 + worker * 4096
  }

  lemma PackCounts(ms: nat, datacenter: nat, worker: nat, n: nat)
    requires InSpan(ms) && datacenter <= 31 && worker <= 31 && n <= 4095
    ensures Pack(ms, datacenter, worker, n) == FirstId(ms, datacenter, worker) + n
  {
    Powers();
    hide Pow2, Pack;
    PackAdds(ms, datacenter, worker, n);
  }

  // Ids that follow each other.
  ghost predicate Consecutive(ids: seq<nat>, first: int) {
    forall i | 0 <= i < |ids| :: ids[i] == first + i
  }

  // Up to 4096 calls in one millisecond get ids that follow each other, from the
  // one that the millisecond and the generator's numbers make.
  lemma {:induction false} MillisecondHolds4096(ms: nat, datacenter: nat, worker: nat, n: nat)
    requires InSpan(ms) && datacenter <= 31 && worker <= 31 && n <= 4096
    ensures |Ids(Repeated(ms, n), datacenter, worker)| == n
    ensures Consecutive(Ids(Repeated(ms, n), datacenter, worker), FirstId(ms, datacenter, worker))
  {
    if n > 0 {
      MillisecondHolds4096(ms, datacenter, worker, n - 1);
      Powers();
      hide Pack, Pow2, LastReply, After, Ids, Repeated, FirstId;
      RepeatedCounts(ms, datacenter, worker, n - 1);
      PackCounts(ms, datacenter, worker, n - 1);
      RepeatedNext(ms, n - 1);
      IdsNext(Repeated(ms, n - 1), [Time(ms)], datacenter, worker, Pack(ms, datacenter, worker, n - 1));
    }
  }

  lemma RepeatedNext(ms: nat, n: nat)
    ensures Repeated(ms, n + 1) == Repeated(ms, n) + [[Time(ms)]]
  {
  }

  // One call more waits for the next millisecond, and starts it anew.
  lemma NumbersRunOut(ms: nat, datacenter: nat, worker: nat, later: seq<Reading>, k: nat)
    requires InSpan(ms) && datacenter <= 31 && worker <= 31
    requires k <= |later| && StillAt(ms, later, k)
    ensures var reply := LastReply(Repeated(ms, 4096) + [[Time(ms)] + later], datacenter, worker);
            && (k == |later| ==> reply == Waiting)
            && (k < |later| && later[k].Unreadable? ==> reply == Failed(SystemTimeError))
            && (k < |later| && later[k].Time? && ms < later[k].ms && InSpan(later[k].ms) ==>
                  reply.Id? && reply.id == FirstId(later[k].ms, datacenter, worker))
  {
    Powers();
    hide Pack, And, Pow2, WaitPast, Repeated, Next, StillAt;
    RepeatedCounts(ms, datacenter, worker, 4095);
    var calls := Repeated(ms, 4096) + [[Time(ms)] + later];
    assert calls[..|calls| - 1] == Repeated(ms, 4096);
    FullWaits(ms, datacenter, worker, later);
    WaitIs(ms, later, k);
    if k < |later| && later[k].Time? && InSpan(later[k].ms) { PackCounts(later[k].ms, datacenter, worker, 0); }
  }

  // A call that finds its millisecond full.
  lemma FullWaits(ms: nat, datacenter: nat, worker: nat, later: seq<Reading>)
    ensures Next(State(ms, 4095), datacenter, worker, [Time(ms)] + later).1
            == match WaitPast(ms, later)
               case Until(next) => Id(Pack(next, datacenter, worker, 0))
               case Broken => Failed(SystemTimeError)
               case Endless => Waiting
  {
    Powers();
    NextNumber(4095);
    hide Pack, And, Pow2;
    assert ([Time(ms)] + later)[1..] == later;
  }

  lemma {:induction false} WaitIs(last: int, readings: seq<Reading>, k: nat)
    requires k <= |readings| && StillAt(last, readings, k)
    ensures k == |readings| ==> WaitPast(last, readings) == Endless
    ensures k < |readings| && readings[k].Unreadable? ==> WaitPast(last, readings) == Broken
    ensures k < |readings| && readings[k].Time? && readings[k].ms > last ==>
              WaitPast(last, readings) == Until(readings[k].ms)
  {
    if k > 0 {
      assert forall j | 0 <= j < k - 1 :: readings[1..][j] == readings[j + 1];
      WaitIs(last, readings[1..], k - 1);
    }
  }

  // A full millisecond, a failed wait, and the same millisecond again.
  function FullThenFailed(): seq<seq<Reading>> {
    Repeated(EPOCH, 4096) + [[Time(EPOCH), Unreadable]]
  }

  lemma FullThenFails()
    ensures var failed := FullThenFailed();
            After(failed, 0, 0) == State(EPOCH, 0) && Stale(failed, 0, 0) && Possible(failed, 0, 0)
  {
    Powers();
    RepeatedCounts(EPOCH, 0, 0, SEQUENCE_MASK);
    NextNumber(SEQUENCE_MASK);
    hide Pack, And, Pow2, Repeated;
    var full, failed := Repeated(EPOCH, 4096), FullThenFailed();
    assert failed[..|failed| - 1] == full;
    assert WaitPast(EPOCH, [Unreadable]) == Broken;
    assert [Time(EPOCH), Unreadable][1..] == [Unreadable];
  }

  lemma ReuseHappens()
    ensures exists calls :: Possible(calls, 0, 0) && Reuses(calls, 0, 0)
  {
    FullThenFails();
    NextNumber(0);
    Powers();
    hide Pack, And, FullThenFailed, Stale;
    var failed := FullThenFailed();
    var calls := failed + [[Time(EPOCH)]];
    assert calls[..|calls| - 1] == failed;
    assert Possible(calls, 0, 0) && Reuses(calls, 0, 0);
  }

  // Ids of one generator grow, and are distinct, exactly when no call reads
  // the millisecond in which waiting for the next one had failed.
  lemma IdsGrowUnlessReused(calls: seq<seq<Reading>>, datacenter: nat, worker: nat)
    requires ValidGenerator(datacenter, worker) && Possible(calls, datacenter, worker)
    ensures Increasing(Ids(calls, datacenter, worker)) <==> !Reuses(calls, datacenter, worker)
    ensures Distinct(Ids(calls, datacenter, worker)) <==> !Reuses(calls, datacenter, worker)
  {
    if Reuses(calls, datacenter, worker) {
      ReuseRepeats(calls, datacenter, worker);
    } else {
      HistoryHolds(calls, datacenter, worker);
    }
  }

  ghost predicate NoWaitFails(calls: seq<seq<Reading>>, datacenter: nat, worker: nat) {
    calls != [] ==>
      && NoWaitFails(calls[..|calls| - 1], datacenter, worker)
      && !WaitFails(After(calls[..|calls| - 1], datacenter, worker), datacenter, worker, calls[|calls| - 1])
  }

  // In particular they grow while no such wait fails.
  lemma IdsGrow(calls: seq<seq<Reading>>, datacenter: nat, worker: nat)
    requires ValidGenerator(datacenter, worker) && Possible(calls, datacenter, worker)
    requires NoWaitFails(calls, datacenter, worker)
    ensures Increasing(Ids(calls, datacenter, worker))
  {
    NeverStale(calls, datacenter, worker);
    HistoryHolds(calls, datacenter, worker);
  }

  lemma {:induction false} NeverStale(calls: seq<seq<Reading>>, datacenter: nat, worker: nat)
    requires NoWaitFails(calls, datacenter, worker)
    ensures !Stale(calls, datacenter, worker) && !Reuses(calls, datacenter, worker)
  {
    hide WaitFails, Next;
    if calls != [] { NeverStale(calls[..|calls| - 1], datacenter, worker); }
  }

  // Every id is made of this generator's numbers.
  lemma {:induction false} IdsAreOurs(calls: seq<seq<Reading>>, datacenter: nat, worker: nat, i: nat)
    requires ValidGenerator(datacenter, worker) && Possible(calls, datacenter, worker)
    requires i < |Ids(calls, datacenter, worker)|
    ensures And(ShiftRight(Ids(calls, datacenter, worker)[i], DATACENTER_ID_SHIFT), MAX_DATACENTER_ID) == datacenter
    ensures And(ShiftRight(Ids(calls, datacenter, worker)[i], WORKER_ID_SHIFT), MAX_WORKER_ID) == worker
  {
    var front := calls[..|calls| - 1];
    if i < |Ids(front, datacenter, worker)| {
      IdsAreOurs(front, datacenter, worker, i);
    } else {
      LastIdPacked(calls, datacenter, worker);
      var s := After(calls, datacenter, worker);
      FieldsRecovered(s.last, datacenter, worker, s.sequence);
    }
  }

  // An id is made of the state it leaves.
  lemma LastIdPacked(calls: seq<seq<Reading>>, datacenter: nat, worker: nat)
    requires ValidGenerator(datacenter, worker) && Possible(calls, datacenter, worker)
    requires calls != [] && LastReply(calls, datacenter, worker).Id?
    ensures var s := After(calls, datacenter, worker);
            && InRange(s.last, datacenter, worker, s.sequence)
            && LastReply(calls, datacenter, worker).id == Pack(s.last, datacenter, worker, s.sequence)
  {
    NextIdPacked(After(calls[..|calls| - 1], datacenter, worker), datacenter, worker, calls[|calls| - 1]);
    hide Next, Pack, InRange, ValidGenerator;
  }

  lemma NextIdPacked(s: State, datacenter: nat, worker: nat, readings: seq<Reading>)
    requires ValidGenerator(datacenter, worker) && forall r | r in readings && r.Time? :: InSpan(r.ms)
    requires Next(s, datacenter, worker, readings).1.Id?
    ensures var (s', reply) := Next(s, datacenter, worker, readings);
            InRange(s'.last, datacenter, worker, s'.sequence)
            && reply.id == Pack(s'.last, datacenter, worker, s'.sequence)
  {
    AndIsBelow(s.sequence + 1, SEQUENCE_MASK);
    WaitPastMeans(s.last, readings[1..]);
    hide Pack, And, Pow2;
  }

  // Generators with other numbers never give the same id.
  lemma GeneratorsDisjoint(
      calls0: seq<seq<Reading>>, datacenter0: nat, worker0: nat, calls1: seq<seq<Reading>>, datacenter1: nat,
      worker1: nat, id: nat)
    requires ValidGenerator(datacenter0, worker0) && Possible(calls0, datacenter0, worker0)
    requires ValidGenerator(datacenter1, worker1) && Possible(calls1, datacenter1, worker1)
    requires id in Ids(calls0, datacenter0, worker0) && id in Ids(calls1, datacenter1, worker1)
    ensures datacenter0 == datacenter1 && worker0 == worker1
  {
    var i :| 0 <= i < |Ids(calls0, datacenter0, worker0)| && Ids(calls0, datacenter0, worker0)[i] == id;
    var j :| 0 <= j < |Ids(calls1, datacenter1, worker1)| && Ids(calls1, datacenter1, worker1)[j] == id;
    IdsAreOurs(calls0, datacenter0, worker0, i);
    IdsAreOurs(calls1, datacenter1, worker1, j);
  }
}
