// A message whose handler keeps failing: it travels from its topic to the
// retry topic and back, with a higher retry count each time, until it is
// dead-lettered.
module RetryCycle {
  import opened Wrappers
  import opened Text
  import opened ConsumerTypes
  import opened Failure
  import opened Settlement
  import ContextCodec

  const HEADER_MESSAGE_KEY := "x-message-key"
  const HEADER_MESSAGE_ID := "x-message-id"

  // ---- from one topic to the next ----

  // The headers by which a producer passes the sender's context on.
  predicate IsContextHeader(name: string) {
    || name in {"x-trace-id", "x-request-id", "x-tenant-id", "x-user-id", "x-device-id", "x-platform",
                "x-session-id", "x-actor-id", "x-actor-type", "x-actor-roles"}
    || "x-actor-attr-" <= name
  }

  // The codec of contexts writes no others.
  lemma EncodedHeadersAre(headers: map<string, string>, c: ContextCodec.Context)
    requires ContextCodec.Carries(headers, c)
    ensures forall name | name in headers :: IsContextHeader(name)
  {
    forall name | name in headers ensures IsContextHeader(name) {
      assert ContextCodec.Known(name);
      if !ContextCodec.IsAttribute(name) {
        var f :| ContextCodec.Name(f) == name;
      }
    }
  }

  datatype Wire = Wire(topic: string, payload: seq<bv8>, headers: map<string, string>)

  // What the producer puts on the wire.
  function Publish(record: Record, context: map<string, string>): Wire {
    var headers := record.headers + context;
    Wire(record.topic, record.payload,
         if record.key.Some? then headers[HEADER_MESSAGE_KEY := record.key.value] else headers)
  }

  // What is open about a delivery: the broker's count of attempts, the handle,
  // an id for a message without one, and the content type read.
  datatype Delivery = Delivery(attempts: int, handle: Option<AckHandle>, freshId: string, contentType: ContentType)

  // The first attempt is no retry.
  function AttemptRetries(attempts: int): u32 {
    if attempts <= 1 then 0 else if attempts - 1 <= U32_MAX then attempts - 1 else U32_MAX
  }

  function Decode(w: Wire, d: Delivery): Message {
    var id := Get(w.headers, HEADER_MESSAGE_ID);
    var counted, attempted := RetryCountFromHeaders(w.headers), AttemptRetries(d.attempts);
    Message(w.payload, d.contentType, if id.Some? then id.value else d.freshId, w.topic, 0, 0,
            Get(w.headers, HEADER_MESSAGE_KEY), w.headers,
            if counted >= attempted then counted else attempted, d.handle)
  }

  // The retries of a delivery are those its header counts or those its broker
  // attempted, whichever are more; the first attempt is none.
  lemma DecodedRetries(w: Wire, d: Delivery)
    ensures var n, counted := Decode(w, d).retryCount, RetryCountFromHeaders(w.headers);
            && n >= counted
            && (1 <= d.attempts <= 0x1_0000_0000 ==> n >= d.attempts - 1 && (n == counted || n == d.attempts - 1))
            && (d.attempts < 1 ==> n == counted)
            && (d.attempts > 0x1_0000_0000 ==> n == 0xFFFF_FFFF)
  {
  }

  // What is open about one trip through the retry topic.
  datatype Trip = Trip(
    notBefore: Option<string>,
    outContext: map<string, string>, outDelivery: Delivery,
    backContext: map<string, string>, backDelivery: Delivery)

  ghost predicate FirstDeliveries(trip: Trip) {
    && trip.outDelivery.attempts <= 1 && trip.backDelivery.attempts <= 1
    && (forall k | k in trip.outContext :: IsContextHeader(k))
    && (forall k | k in trip.backContext :: IsContextHeader(k))
  }

  // The message as it comes back to its topic: straight away when the retry
  // topic is that topic, through the forwarder otherwise. A forwarder that
  // finds no original topic sends nothing.
  function Hop(m: Message, failure: FailureContext, topic: FailureTopic, trip: Trip): Option<Message> {
    var out := RetryRecord(m, failure, topic, trip.notBefore);
    var waiting := Decode(Publish(out, trip.outContext), trip.outDelivery);
    if waiting.topic == m.topic then Some(waiting)
    else
      match ForwardRecord(waiting)
      case None => None
      case Some(back) => Some(Decode(Publish(back, trip.backContext), trip.backDelivery))
  }

  // The key of a received message is what its headers say.
  predicate KeyFromHeaders(m: Message) {
    m.key == Get(m.headers, HEADER_MESSAGE_KEY)
  }

  predicate Returns(m: Message, topic: FailureTopic) {
    topic.Resolve(m.topic) == m.topic || !Blank(m.topic)
  }

  lemma ContextNames(name: string)
    requires IsContextHeader(name)
    ensures name !in {HEADER_RETRY_COUNT, HEADER_ORIGINAL_TOPIC, HEADER_MESSAGE_KEY, HEADER_MESSAGE_ID,
                      HEADER_RETRY_NOT_BEFORE}
  {
    HeaderNames();
    assert HEADER_RETRY_COUNT[2] == 'f' && HEADER_ORIGINAL_TOPIC[2] == 'f' && HEADER_RETRY_NOT_BEFORE[2] == 'f'
      && HEADER_MESSAGE_KEY[2] == 'm' && HEADER_MESSAGE_ID[2] == 'm';
    if "x-actor-attr-" <= name { assert name[2] == "x-actor-attr-"[2] == 'a'; }
  }

  lemma MessageKeyName()
    ensures HEADER_MESSAGE_KEY
            !in {HEADER_CONTENT_TYPE, HEADER_RETRY_NOT_BEFORE, HEADER_RETRY_COUNT, HEADER_ORIGINAL_TOPIC}
    ensures HEADER_MESSAGE_ID
            !in {HEADER_CONTENT_TYPE, HEADER_RETRY_NOT_BEFORE, HEADER_RETRY_COUNT, HEADER_MESSAGE_KEY}
    ensures !FailureOwned(HEADER_MESSAGE_KEY) && !FailureOwned(HEADER_MESSAGE_ID)
  {
    HeaderNames();
    assert |HEADER_MESSAGE_KEY| == 13 && |HEADER_MESSAGE_ID| == 12;
    assert HEADER_MESSAGE_ID[0] == 'x' && HEADER_CONTENT_TYPE[0] == 'c';
  }

  // What one publication and delivery carry over.
  lemma Carried(record: Record, context: map<string, string>, d: Delivery)
    requires forall k | k in context :: IsContextHeader(k)
    requires record.key.None? ==> HEADER_MESSAGE_KEY !in record.headers
    requires d.attempts <= 1
    ensures var m := Decode(Publish(record, context), d);
            && m.topic == record.topic && m.payload == record.payload && m.key == record.key && KeyFromHeaders(m)
            && m.retryCount == RetryCountFromHeaders(record.headers)
            && Get(m.headers, HEADER_ORIGINAL_TOPIC) == Get(record.headers, HEADER_ORIGINAL_TOPIC)
            && Get(m.headers, HEADER_RETRY_COUNT) == Get(record.headers, HEADER_RETRY_COUNT)
            && Get(m.headers, HEADER_RETRY_NOT_BEFORE) == Get(record.headers, HEADER_RETRY_NOT_BEFORE)
  {
    forall k | k in context
      ensures k !in {HEADER_RETRY_COUNT, HEADER_ORIGINAL_TOPIC, HEADER_MESSAGE_KEY, HEADER_MESSAGE_ID,
                     HEADER_RETRY_NOT_BEFORE}
    {
      ContextNames(k);
    }
    MessageKeyName();
  }

  lemma RetryRecordSays(m: Message, failure: FailureContext, topic: FailureTopic, notBefore: Option<string>)
    requires KeyFromHeaders(m)
    ensures var out := RetryRecord(m, failure, topic, notBefore);
            && out.topic == topic.Resolve(m.topic) && out.payload == m.payload && out.key == m.key
            && (out.key.None? ==> HEADER_MESSAGE_KEY !in out.headers)
            && Get(out.headers, HEADER_ORIGINAL_TOPIC) == Some(m.topic)
            && RetryCountFromHeaders(out.headers) == SaturatingIncrement(failure.retryCount)
  {
    var n := SaturatingIncrement(failure.retryCount);
    FailureHeadersAt(m, failure, n);
    ParsePrint(n);
    HeaderNames();
    MessageKeyName();
  }

  // One hop brings the message back to its topic with the same payload and
  // key, naming that topic, and its retry count one higher; it fails to come
  // back exactly when the forwarder would have to send it to a blank topic.
  lemma HopReturns(m: Message, failure: FailureContext, topic: FailureTopic, trip: Trip)
    requires KeyFromHeaders(m) && FirstDeliveries(trip)
    ensures Hop(m, failure, topic, trip).Some? <==> Returns(m, topic)
    ensures Returns(m, topic) ==>
              var m' := Hop(m, failure, topic, trip).value;
              && m'.topic == m.topic && m'.payload == m.payload && m'.key == m.key && KeyFromHeaders(m')
              && Get(m'.headers, HEADER_ORIGINAL_TOPIC) == Some(m.topic)
              && m'.retryCount == SaturatingIncrement(failure.retryCount)
              && (topic.Resolve(m.topic) != m.topic ==> Get(m'.headers, "x-flare-retry-not-before-unix-ms") == None)
  {
    var out := RetryRecord(m, failure, topic, trip.notBefore);
    RetryRecordSays(m, failure, topic, trip.notBefore);
    Carried(out, trip.outContext, trip.outDelivery);
    var waiting := Decode(Publish(out, trip.outContext), trip.outDelivery);
    if waiting.topic != m.topic && ForwardRecord(waiting).Some? {
      var back := ForwardRecord(waiting).value;
      HeaderNames();
      MessageKeyName();
      Carried(back, trip.backContext, trip.backDelivery);
    }
  }

  // What one publication and delivery does with the message id.
  lemma CarriedId(record: Record, context: map<string, string>, d: Delivery)
    requires forall k | k in context :: IsContextHeader(k)
    ensures var m := Decode(Publish(record, context), d);
            && Get(m.headers, HEADER_MESSAGE_ID) == Get(record.headers, HEADER_MESSAGE_ID)
            && (HEADER_MESSAGE_ID in record.headers ==> m.messageId == record.headers[HEADER_MESSAGE_ID])
            && (HEADER_MESSAGE_ID !in record.headers ==> m.messageId == d.freshId)
  {
    forall k | k in context ensures k != HEADER_MESSAGE_ID { ContextNames(k); }
    MessageKeyName();
  }

  // A message that names its id in the header keeps it on the trip; another one
  // gets a new id at every delivery.
  lemma HopKeepsId(m: Message, failure: FailureContext, topic: FailureTopic, trip: Trip)
    requires FirstDeliveries(trip) && Hop(m, failure, topic, trip).Some?
    ensures var m', id := Hop(m, failure, topic, trip).value, Get(m.headers, "x-message-id");
            && (id.Some? ==> m'.messageId == id.value)
            && (id.None? ==> m'.messageId in {trip.outDelivery.freshId, trip.backDelivery.freshId})
  {
    var out := RetryRecord(m, failure, topic, trip.notBefore);
    var waiting := Decode(Publish(out, trip.outContext), trip.outDelivery);
    FailureHeadersKeep(m, failure, SaturatingIncrement(failure.retryCount));
    MessageKeyName();
    HeaderNames();
    CarriedId(out, trip.outContext, trip.outDelivery);
    hide Decode, Publish, FailureHeaders;
    if waiting.topic != m.topic { CarriedId(ForwardRecord(waiting).value, trip.backContext, trip.backDelivery); }
  }

  // ---- the whole cycle ----

  // A handler that never succeeds: it answers Nack or fails, retryably.
  datatype Refusal = Nacks | Fails(error: ConsumerError) {
    function AsVerdict(): Verdict {
      if Nacks? then Returned(Nack) else Raised("handler_error", error)
    }
  }

  datatype Routes = Routes(retry: FailureTopic, deadLetter: FailureTopic)

  // Everything handed to the handler, and everything dead-lettered; `ended`
  // tells whether the message left the cycle.
  datatype Story = Story(dispatched: seq<Message>, deadLetters: seq<Record>, ended: bool)

  function Remaining(policy: RetryPolicy, retryCount: u32): nat {
    if retryCount < policy.maxRetries then policy.maxRetries - retryCount else 0
  }

  // One lap: the handler refuses the message, and its settlement publishes.
  datatype Lap = Dead(record: Record) | Again(message: Message) | Lost

  function LapOf(cfg: Config, routes: Routes, m: Message, refusal: Refusal, trip: Trip): Lap {
    var ops := VerdictPlan(cfg, PendingOf(cfg, m), refusal.AsVerdict()).ops;
    if ops == [] then Lost
    else match ops[0]
      case PublishDeadLetter(kept, failure) => Dead(DeadLetterRecord(kept, failure, routes.deadLetter))
      case PublishRetry(kept, failure) =>
        var back := Hop(kept, failure, routes.retry, trip);
        if back.Some? then Again(back.value) else Lost
      case _ => Lost
  }

  // Follows the message from lap to lap, as long as its count moves on.
  function Follow(
      cfg: Config, routes: Routes, m: Message, lap: nat, refusals: nat -> Refusal, trips: nat -> Trip): Story
    decreases Remaining(cfg.policy, m.retryCount)
  {
    match LapOf(cfg, routes, m, refusals(lap), trips(lap))
    case Dead(record) => Story([m], [record], true)
    case Again(m') =>
      if Remaining(cfg.policy, m'.retryCount) < Remaining(cfg.policy, m.retryCount) then
        var rest := Follow(cfg, routes, m', lap + 1, refusals, trips);
        Story([m] + rest.dispatched, rest.deadLetters, rest.ended)
      else Story([m], [], false)
    case Lost => Story([m], [], false)
  }

  lemma RefusalPlan(cfg: Config, m: Message, refusal: Refusal)
    requires cfg.retryPublisher && cfg.deadLetterPublisher && cfg.policy.enableDlq
    requires refusal.Nacks? || !Final(refusal.error)
    ensures var ops := VerdictPlan(cfg, PendingOf(cfg, m), refusal.AsVerdict()).ops;
            && ops != []
            && (if m.retryCount < cfg.policy.maxRetries then ops[0].PublishRetry? else ops[0].PublishDeadLetter?)
            && ops[0].message == m && ops[0].failure.retryCount == m.retryCount
  {
  }

  ghost predicate SameMessage(m: Message, m': Message) {
    m'.topic == m.topic && m'.payload == m.payload && m'.key == m.key
  }

  // Handed to the handler once for each count from the message's own up to the
  // limit, then dead-lettered once, always with the same payload, key and topic.
  ghost predicate EndsDeadLettered(policy: RetryPolicy, routes: Routes, m: Message, story: Story) {
    && story.ended
    && |story.dispatched| == Remaining(policy, m.retryCount) + 1
    && (forall i | 0 <= i < |story.dispatched| ::
          SameMessage(m, story.dispatched[i]) && story.dispatched[i].retryCount == m.retryCount + i)
    && |story.deadLetters| == 1
    && DeadLetterOf(m, m.retryCount + Remaining(policy, m.retryCount), routes, story.deadLetters[0])
  }

  ghost predicate DeadLetterOf(m: Message, count: nat, routes: Routes, dead: Record) {
    && dead.topic == routes.deadLetter.Resolve(m.topic) && dead.payload == m.payload && dead.key == m.key
    && Get(dead.headers, HEADER_ORIGINAL_TOPIC) == Some(m.topic)
    && RetryCountFromHeaders(dead.headers) == count
  }

  lemma OneMoreLap(policy: RetryPolicy, routes: Routes, m: Message, m': Message, rest: Story)
    requires m.retryCount < policy.maxRetries && m'.retryCount == m.retryCount + 1 && SameMessage(m, m')
    requires EndsDeadLettered(policy, routes, m', rest)
    ensures EndsDeadLettered(policy, routes, m, Story([m] + rest.dispatched, rest.deadLetters, rest.ended))
  {
    hide DeadLetterOf;
    SameDeadLetter(m, m', m'.retryCount + Remaining(policy, m'.retryCount), routes, rest.deadLetters[0]);
  }

  lemma SameDeadLetter(m: Message, m': Message, count: nat, routes: Routes, dead: Record)
    requires SameMessage(m, m')
    ensures DeadLetterOf(m, count, routes, dead) <==> DeadLetterOf(m', count, routes, dead)
  {
  }

  // Below the limit the message comes back with its count one higher; at the
  // limit it is dead-lettered.
  lemma RefusedLap(cfg: Config, routes: Routes, m: Message, refusal: Refusal, trip: Trip)
    requires cfg.retryPublisher && cfg.deadLetterPublisher && cfg.policy.enableDlq
    requires KeyFromHeaders(m) && Returns(m, routes.retry)
    requires (refusal.Nacks? || !Final(refusal.error)) && FirstDeliveries(trip)
    ensures var lap := LapOf(cfg, routes, m, refusal, trip);
            if m.retryCount < cfg.policy.maxRetries then
              lap.Again? && SameMessage(m, lap.message) && KeyFromHeaders(lap.message)
              && lap.message.retryCount == m.retryCount + 1
            else lap.Dead? && DeadLetterOf(m, m.retryCount, routes, lap.record)
  {
    RefusalPlan(cfg, m, refusal);
    var op := VerdictPlan(cfg, PendingOf(cfg, m), refusal.AsVerdict()).ops[0];
    hide VerdictPlan;
    if m.retryCount < cfg.policy.maxRetries {
      HopReturns(m, op.failure, routes.retry, trip);
      hide Hop;
    } else {
      DeadLetterSays(m, op.failure, routes);
      hide DeadLetterOf, DeadLetterRecord;
    }
  }

  lemma DeadLetterSays(m: Message, failure: FailureContext, routes: Routes)
    ensures DeadLetterOf(m, failure.retryCount, routes, DeadLetterRecord(m, failure, routes.deadLetter))
  {
    FailureHeadersAt(m, failure, failure.retryCount);
    ParsePrint(failure.retryCount);
  }

  // A message that arrives with retry count r and is always refused is handed
  // to the handler exactly max(max_retries - r, 0) + 1 times, with counts
  // r, r + 1, ..., and then dead-lettered once, still with its payload, key and
  // topic.
  lemma {:induction false} RefusedMessageIsDeadLettered(
      cfg: Config, routes: Routes, m: Message, lap: nat, refusals: nat -> Refusal, trips: nat -> Trip)
    requires cfg.retryPublisher && cfg.deadLetterPublisher && cfg.policy.enableDlq
    requires KeyFromHeaders(m) && Returns(m, routes.retry)
    requires forall i: nat :: (refusals(i).Nacks? || !Final(refusals(i).error)) && FirstDeliveries(trips(i))
    ensures EndsDeadLettered(cfg.policy, routes, m, Follow(cfg, routes, m, lap, refusals, trips))
    decreases Remaining(cfg.policy, m.retryCount)
  {
    hide Final, LapOf, DeadLetterOf, FirstDeliveries, Follow, EndsDeadLettered, KeyFromHeaders, Returns, SameMessage;
    RefusedLap(cfg, routes, m, refusals(lap), trips(lap));
    var next := LapOf(cfg, routes, m, refusals(lap), trips(lap));
    if next.Again? {
      var m' := next.message;
      SameReturns(m, m', routes.retry);
      RefusedMessageIsDeadLettered(cfg, routes, m', lap + 1, refusals, trips);
      OneMoreLap(cfg.policy, routes, m, m', Follow(cfg, routes, m', lap + 1, refusals, trips));
      FollowAgain(cfg, routes, m, m', lap, refusals, trips);
    } else {
      FollowDead(cfg, routes, m, lap, refusals, trips);
      LastLap(cfg.policy, routes, m, next.record);
    }
  }

  lemma SameReturns(m: Message, m': Message, topic: FailureTopic)
    requires SameMessage(m, m')
    ensures Returns(m, topic) <==> Returns(m', topic)
  {
  }

  lemma LastLap(policy: RetryPolicy, routes: Routes, m: Message, dead: Record)
    requires m.retryCount >= policy.maxRetries && DeadLetterOf(m, m.retryCount, routes, dead)
    ensures EndsDeadLettered(policy, routes, m, Story([m], [dead], true))
  {
    hide DeadLetterOf;
  }

  lemma FollowDead(
      cfg: Config, routes: Routes, m: Message, lap: nat, refusals: nat -> Refusal, trips: nat -> Trip)
    requires LapOf(cfg, routes, m, refusals(lap), trips(lap)).Dead?
    ensures Follow(cfg, routes, m, lap, refusals, trips)
            == Story([m], [LapOf(cfg, routes, m, refusals(lap), trips(lap)).record], true)
  {
    hide LapOf;
  }

  lemma FollowAgain(
      cfg: Config, routes: Routes, m: Message, m': Message, lap: nat, refusals: nat -> Refusal, trips: nat -> Trip)
    requires LapOf(cfg, routes, m, refusals(lap), trips(lap)) == Again(m')
    requires Remaining(cfg.policy, m'.retryCount) < Remaining(cfg.policy, m.retryCount)
    ensures var rest := Follow(cfg, routes, m', lap + 1, refusals, trips);
            Follow(cfg, routes, m, lap, refusals, trips)
            == Story([m] + rest.dispatched, rest.deadLetters, rest.ended)
  {
    hide LapOf;
  }

  // One that no retry mends is dead-lettered at once.
  lemma FinalErrorIsDeadLettered(
      cfg: Config, routes: Routes, m: Message, lap: nat, refusals: nat -> Refusal, trips: nat -> Trip)
    requires cfg.deadLetterPublisher && cfg.policy.enableDlq
    requires refusals(lap).Fails? && Final(refusals(lap).error)
    ensures var story := Follow(cfg, routes, m, lap, refusals, trips);
            && story.dispatched == [m] && story.ended && |story.deadLetters| == 1
            && DeadLetterOf(m, m.retryCount, routes, story.deadLetters[0])
  {
    var failure := FailureContext("handler_error", Some(refusals(lap).error.ToString()), m.retryCount);
    DeadLetterSays(m, failure, routes);
    hide DeadLetterOf, DeadLetterRecord;
    assert LapOf(cfg, routes, m, refusals(lap), trips(lap)) == Dead(DeadLetterRecord(m, failure, routes.deadLetter));
    FollowDead(cfg, routes, m, lap, refusals, trips);
  }
}
