// Finding the handler for a topic, and handing it one message or many.
module Dispatcher {
  import opened Wrappers
  import opened ConsumerTypes
  import opened Settlement
  import opened BatchSettlement

  // A registered handler; `id` tells objects apart that share a name.
  datatype Handler = Handler(id: nat, name: string, supportsBatch: bool)

  predicate WildcardMatches(pattern: string, topic: string) {
    pattern != "" && pattern[|pattern| - 1] == '*' && pattern[..|pattern| - 1] <= topic
  }

  // A pattern that ends in a star stands for every topic that starts with the
  // rest of it.
  lemma WildcardMeans(pattern: string, topic: string)
    ensures WildcardMatches(pattern, topic)
            <==> exists front, rest :: pattern == front + "*" && topic == front + rest
  {
    if WildcardMatches(pattern, topic) {
      var front := pattern[..|pattern| - 1];
      assert pattern == front + "*" && topic == front + topic[|front|..];
    }
    if front, rest :| pattern == front + "*" && topic == front + rest {
      assert pattern[..|pattern| - 1] == front;
    }
  }

  // The handler for a topic: the exact one, or that of the first wildcard
  // pattern, in the map's iteration order, that the topic starts with.
  function Find(handlers: map<string, Handler>, order: seq<string>, topic: string): Option<Handler> {
    if topic in handlers then Some(handlers[topic]) else FirstWildcard(handlers, order, topic)
  }

  function FirstWildcard(handlers: map<string, Handler>, order: seq<string>, topic: string): Option<Handler> {
    if order == [] then None
    else if order[0] in handlers && WildcardMatches(order[0], topic) then Some(handlers[order[0]])
    else FirstWildcard(handlers, order[1..], topic)
  }

  // An iteration order names every pattern once.
  ghost predicate IsOrder(handlers: map<string, Handler>, order: seq<string>) {
    && (forall p :: p in order <==> p in handlers)
    && forall i, j | 0 <= i < j < |order| :: order[i] != order[j]
  }

  lemma {:induction false} FirstWildcardFinds(handlers: map<string, Handler>, order: seq<string>, topic: string)
    ensures var found := FirstWildcard(handlers, order, topic);
            && (found.Some? ==> exists p :: p in order && p in handlers && WildcardMatches(p, topic)
                                            && handlers[p] == found.value)
            && (found.None? ==> forall p | p in order && p in handlers :: !WildcardMatches(p, topic))
  {
    if order != [] && !(order[0] in handlers && WildcardMatches(order[0], topic)) {
      FirstWildcardFinds(handlers, order[1..], topic);
    }
  }

  ghost predicate FirstMatchAt(handlers: map<string, Handler>, order: seq<string>, topic: string, i: nat) {
    && i < |order| && order[i] in handlers && WildcardMatches(order[i], topic)
    && forall j | 0 <= j < i && order[j] in handlers :: !WildcardMatches(order[j], topic)
  }

  lemma {:induction false} FirstInOrder(handlers: map<string, Handler>, order: seq<string>, topic: string)
    ensures var found := FirstWildcard(handlers, order, topic);
            && (found.None? ==>
                  forall i | 0 <= i < |order| && order[i] in handlers :: !WildcardMatches(order[i], topic))
            && (found.Some? ==>
                  exists i: nat :: FirstMatchAt(handlers, order, topic, i) && found == Some(handlers[order[i]]))
  {
    hide WildcardMatches;
    if order != [] {
      FirstInOrder(handlers, order[1..], topic);
      assert forall i | 1 <= i < |order| :: order[i] == order[1..][i - 1];
      if order[0] in handlers && WildcardMatches(order[0], topic) {
        assert FirstMatchAt(handlers, order, topic, 0);
      } else if i: nat :| FirstMatchAt(handlers, order[1..], topic, i)
                        && FirstWildcard(handlers, order[1..], topic) == Some(handlers[order[1..][i]])
      {
        assert FirstMatchAt(handlers, order, topic, i + 1);
      }
    }
  }

  lemma {:induction false} SomeOrder(patterns: set<string>) returns (order: seq<string>)
    ensures forall p :: p in order <==> p in patterns
    ensures forall i, j | 0 <= i < j < |order| :: order[i] != order[j]
    decreases |patterns|
  {
    order := [];
    if patterns != {} {
      var p :| p in patterns;
      var rest := SomeOrder(patterns - {p});
      order := [p] + rest;
    }
  }

  lemma FrontOrder(handlers: map<string, Handler>, p: string) returns (order: seq<string>)
    requires p in handlers
    ensures IsOrder(handlers, order) && order != [] && order[0] == p
  {
    var rest := SomeOrder(handlers.Keys - {p});
    order := [p] + rest;
  }

  // Which handler a topic gets depends on the map's iteration order, unless
  // it is registered exactly or all wildcards it matches share a handler.
  lemma FindIgnoresOrder(handlers: map<string, Handler>, order: seq<string>, topic: string)
    requires IsOrder(handlers, order)
    ensures (forall other | IsOrder(handlers, other) :: Find(handlers, other, topic) == Find(handlers, order, topic))
            <==>
            (topic in handlers
             || forall p, q | p in handlers && q in handlers
                              && WildcardMatches(p, topic) && WildcardMatches(q, topic) ::
                  handlers[p] == handlers[q])
  {
    if topic !in handlers {
      if p, q :| p in handlers && q in handlers && WildcardMatches(p, topic) && WildcardMatches(q, topic)
                 && handlers[p] != handlers[q]
      {
        var pFirst := FrontOrder(handlers, p);
        var qFirst := FrontOrder(handlers, q);
        assert Find(handlers, pFirst, topic) != Find(handlers, qFirst, topic);
      } else {
        forall other | IsOrder(handlers, other) ensures Find(handlers, other, topic) == Find(handlers, order, topic) {
          FirstWildcardFinds(handlers, other, topic);
          FirstWildcardFinds(handlers, order, topic);
        }
      }
    }
  }

  // ---- calling handlers ----

  datatype Call =
    | Called(handler: Handler, message: Message, answer: Result<MessageResult, ConsumerError>)
    | CalledBatch(handler: Handler, messages: seq<Message>, answers: Result<seq<MessageResult>, ConsumerError>)

  // The handlers' side: any answer may come.
  class Handlers {
    ghost var calls: seq<Call>

    constructor ()
      ensures calls == []
    {
      calls := [];
    }

    method Handle(h: Handler, m: Message) returns (answer: Result<MessageResult, ConsumerError>)
      modifies this
      ensures calls == old(calls) + [Called(h, m, answer)]
    {
      answer := *;
      calls := calls + [Called(h, m, answer)];
    }

    method HandleBatch(h: Handler, ms: seq<Message>) returns (answers: Result<seq<MessageResult>, ConsumerError>)
      modifies this
      ensures calls == old(calls) + [CalledBatch(h, ms, answers)]
    {
      answers := *;
      calls := calls + [CalledBatch(h, ms, answers)];
    }
  }

  function NackOnError(answer: Result<MessageResult, ConsumerError>): MessageResult {
    match answer
    case Ok(result) => result
    case Err(_) => Nack
  }

  // The result stands for the answer: the handler's own, or Nack for an error.
  ghost predicate TakenAs(answer: Result<MessageResult, ConsumerError>, result: MessageResult) {
    answer == Ok(result) || (answer.Err? && result == Nack)
  }

  class TopicDispatcher {
    var handlers: map<string, Handler>
    var order: seq<string>

    constructor ()
      ensures handlers == map[] && Valid()
    {
      handlers, order := map[], [];
    }

    ghost predicate Valid()
      reads this
    {
      IsOrder(handlers, order)
    }

    function HandlerFor(topic: string): Option<Handler>
      reads this
    {
      Find(handlers, order, topic)
    }

    // The handler of the first matching pattern in the order, if any matches.
    ghost predicate FoundAmong(topic: string, found: Option<Handler>)
      reads this
    {
      || (found.None? && forall i | 0 <= i < |order| :: !WildcardMatches(order[i], topic))
      || exists i: nat :: FirstMatchAt(handlers, order, topic, i) && found == Some(handlers[order[i]])
    }

    // All messages go to handlers of the first one's name, which takes batches.
    predicate BatchPath(ms: seq<Message>)
      reads this
    {
      && ms != [] && HandlerFor(ms[0].topic).Some?
      && HandlerFor(ms[0].topic).value.supportsBatch
      && forall i | 0 <= i < |ms| ::
           HandlerFor(ms[i].topic).Some? && HandlerFor(ms[i].topic).value.name == HandlerFor(ms[0].topic).value.name
    }

    // How many messages come before the first without a handler.
    function Served(ms: seq<Message>): (n: nat)
      reads this
      ensures n <= |ms|
      ensures forall i | 0 <= i < n :: HandlerFor(ms[i].topic).Some?
      ensures n < |ms| ==> HandlerFor(ms[n].topic).None?
    {
      if ms == [] || HandlerFor(ms[0].topic).None? then 0 else 1 + Served(ms[1..])
    }

    method Register(topic: string, handler: Handler) returns (r: Outcome<ConsumerError>)
      requires Valid()
      modifies this
      ensures Valid()
      ensures r.Fail? <==> topic in old(handlers)
      ensures handlers == if r.Pass? then old(handlers)[topic := handler] else old(handlers)
    {
      if topic in handlers {
        return Fail(Configuration("Handler already registered for topic: " + topic));
      }
      handlers := handlers[topic := handler];
      order := AnyOrder(handlers);
      r := Pass;
    }

    method FindHandler(topic: string) returns (found: Option<Handler>)
      requires Valid()
      ensures found == HandlerFor(topic)
      ensures topic in handlers ==> found == Some(handlers[topic])
      ensures topic !in handlers ==> FoundAmong(topic, found)
    {
      FirstInOrder(handlers, order, topic);
      if topic in handlers { return Some(handlers[topic]); }
      var i := 0;
      while i < |order|
        invariant 0 <= i <= |order|
        invariant FirstWildcard(handlers, order, topic) == FirstWildcard(handlers, order[i..], topic)
      {
        if WildcardMatches(order[i], topic) { return Some(handlers[order[i]]); }
        i := i + 1;
      }
      found := None;
    }

    method Dispatch(env: Handlers, m: Message) returns (r: Result<MessageResult, ConsumerError>)
      requires Valid()
      modifies env
      ensures unchanged(this)
      ensures HandlerFor(m.topic).Some? ==> env.calls == old(env.calls) + [Called(HandlerFor(m.topic).value, m, r)]
      ensures HandlerFor(m.topic).None? ==> env.calls == old(env.calls) && r == Err(NoHandler(m.topic))
    {
      var found := FindHandler(m.topic);
      if found.None? { return Err(NoHandler(m.topic)); }
      r := env.Handle(found.value, m);
    }

    // One by one: each message goes to its handler once, in order, and a
    // handler's error counts as Nack; the first message without a handler ends
    // the batch, after those before it were handled.
    method DispatchBatch(env: Handlers, ms: seq<Message>)
      returns (r: Result<seq<MessageResult>, ConsumerError>, ghost calls: seq<Call>)
      requires Valid()
      modifies env
      ensures unchanged(this)
      ensures env.calls == old(env.calls) + calls
      ensures BatchPath(ms) ==> calls == [CalledBatch(HandlerFor(ms[0].topic).value, ms, r)]
      ensures !BatchPath(ms) ==> OneByOne(ms, r, calls)
    {
      calls := [];
      if ms == [] { return Ok([]), calls; }
      var first := FindHandler(ms[0].topic);
      if first.None? { return Err(NoHandler(ms[0].topic)), calls; }
      var single := true;
      var i := 0;
      while i < |ms| && single
        invariant 0 <= i <= |ms| && unchanged(this) && env.calls == old(env.calls)
        invariant single <==> forall j | 0 <= j < i ::
                    HandlerFor(ms[j].topic).Some? && HandlerFor(ms[j].topic).value.name == first.value.name
      {
        var found := FindHandler(ms[i].topic);
        single := found.Some? && found.value.name == first.value.name;
        i := i + 1;
      }
      if single && first.value.supportsBatch {
        r := env.HandleBatch(first.value, ms);
        return r, [CalledBatch(first.value, ms, r)];
      }
      r, calls := DispatchEach(env, ms);
    }

    ghost predicate OneByOne(ms: seq<Message>, r: Result<seq<MessageResult>, ConsumerError>, calls: seq<Call>)
      reads this
    {
      && |calls| == Served(ms)
      && (forall i | 0 <= i < |calls| ::
            calls[i].Called? && calls[i].message == ms[i] && Some(calls[i].handler) == HandlerFor(ms[i].topic))
      && (if Served(ms) < |ms| then r == Err(NoHandler(ms[Served(ms)].topic))
          else r.Ok? && |r.value| == |ms|
               && forall i | 0 <= i < |ms| :: TakenAs(calls[i].answer, r.value[i]))
    }

    // The first messages have gone to their handlers.
    ghost predicate HandledSoFar(ms: seq<Message>, results: seq<MessageResult>, calls: seq<Call>)
      reads this
    {
      && |calls| == |results| <= |ms| && |calls| <= Served(ms)
      && (forall i | 0 <= i < |calls| ::
            calls[i].Called? && calls[i].message == ms[i] && Some(calls[i].handler) == HandlerFor(ms[i].topic))
      && forall i | 0 <= i < |calls| :: results[i] == NackOnError(calls[i].answer)
    }

    lemma HandledOneMore(
        ms: seq<Message>, results: seq<MessageResult>, calls: seq<Call>, handler: Handler,
        answer: Result<MessageResult, ConsumerError>)
      requires HandledSoFar(ms, results, calls) && |calls| < |ms|
      requires HandlerFor(ms[|calls|].topic) == Some(handler)
      ensures HandledSoFar(ms, results + [NackOnError(answer)], calls + [Called(handler, ms[|calls|], answer)])
    {
      hide Find;
    }

    method DispatchEach(env: Handlers, ms: seq<Message>)
      returns (r: Result<seq<MessageResult>, ConsumerError>, ghost calls: seq<Call>)
      requires Valid()
      modifies env
      ensures unchanged(this)
      ensures env.calls == old(env.calls) + calls
      ensures OneByOne(ms, r, calls)
    {
      var results := [];
      calls := [];
      hide Find, IsOrder;
      var i := 0;
      while i < |ms|
        invariant 0 <= i <= |ms| && |calls| == i
        invariant unchanged(this)
        invariant env.calls == old(env.calls) + calls
        invariant HandledSoFar(ms, results, calls)
      {
        var found := FindHandler(ms[i].topic);
        if found.None? { return Err(NoHandler(ms[i].topic)), calls; }
        var answer := env.Handle(found.value, ms[i]);
        HandledOneMore(ms, results, calls, found.value, answer);
        hide HandledSoFar;
        calls := calls + [Called(found.value, ms[i], answer)];
        results := results + [NackOnError(answer)];
        i := i + 1;
      }
      r := Ok(results);
    }

    // Any iteration order of the map.
    method AnyOrder(handlers: map<string, Handler>) returns (order: seq<string>)
      ensures IsOrder(handlers, order)
    {
      order := [];
      var left := handlers.Keys;
      while left != {}
        invariant left <= handlers.Keys
        invariant forall p :: p in order <==> p in handlers && p !in left
        invariant forall i, j | 0 <= i < j < |order| :: order[i] != order[j]
        decreases |left|
      {
        var p :| p in left;
        order := order + [p];
        left := left - {p};
      }
    }
  }

  function ReplyOf(answer: Result<seq<MessageResult>, ConsumerError>): Reply {
    match answer
    case Ok(results) => HandledAll(results)
    case Err(error) => Wrong(error)
  }

  // The batch run got its handler results from this dispatcher.
  ghost predicate DispatchedBy(
      d: TopicDispatcher, kept: seq<Message>, run: BatchHistory, answer: Result<seq<MessageResult>, ConsumerError>,
      calls: seq<Call>)
    reads d
  {
    && run.dispatch != [] && run.dispatch[0].reply == ReplyOf(answer)
    && (!d.BatchPath(kept) ==> d.OneByOne(kept, answer, calls))
  }

  // A batch whose results count wrong went to a handler that takes batches.
  // Otherwise each message is settled by its own handler's answer, or all by
  // the error of a missing handler, and the batch fails only with a settlement.
  lemma MiscountNeedsBatchHandler(
      d: TopicDispatcher, cfg: Config, ms: seq<Message>, run: BatchHistory, r: TaskOutcome,
      answer: Result<seq<MessageResult>, ConsumerError>, calls: seq<Call>)
    requires d.Valid() && BatchRun(cfg, ms, run, r) && run.dispatch != []
    requires DispatchedBy(d, Kept(cfg, ms, run.intake), run, answer, calls)
    ensures var kept := Kept(cfg, ms, run.intake);
            && (answer.Ok? && |answer.value| != |kept| ==>
                  kept != [] && d.HandlerFor(kept[0].topic).Some? && d.HandlerFor(kept[0].topic).value.supportsBatch)
            && (!d.BatchPath(kept) ==>
                  var vs := BatchVerdicts(ReplyOf(answer), |kept|);
                  && r == SettleOutcome(cfg, PendingAll(cfg, kept), vs, run.settled)
                  && (answer.Ok? ==> VerdictsAreAnswers(vs, calls)))
  {
    var kept := Kept(cfg, ms, run.intake);
    if !d.BatchPath(kept) && answer.Ok? {
      var vs := BatchVerdicts(ReplyOf(answer), |kept|);
      forall i | 0 <= i < |vs|
        ensures i < |calls| && vs[i].Returned? && TakenAs(calls[i].answer, vs[i].result)
      {
        assert vs[i] == VerdictAt(ReplyOf(answer), |kept|, i);
      }
    }
  }

  ghost predicate VerdictsAreAnswers(vs: seq<Verdict>, calls: seq<Call>) {
    |vs| == |calls|
    && forall i | 0 <= i < |vs| ::
         calls[i].Called? && vs[i].Returned? && TakenAs(calls[i].answer, vs[i].result)
  }

  // The whole batch goes to one handler exactly if it takes batches and is every
  // message's own, as long as names tell handlers apart.
  lemma BatchPathExactly(d: TopicDispatcher, ms: seq<Message>)
    requires d.Valid() && ms != []
    requires forall p, q | p in d.handlers && q in d.handlers && d.handlers[p].name == d.handlers[q].name ::
               d.handlers[p] == d.handlers[q]
    ensures d.BatchPath(ms)
            <==> exists h: Handler :: h.supportsBatch && forall m | m in ms :: d.HandlerFor(m.topic) == Some(h)
  {
    if d.BatchPath(ms) {
      var h := d.HandlerFor(ms[0].topic).value;
      forall m | m in ms ensures d.HandlerFor(m.topic) == Some(h) {
        var i :| 0 <= i < |ms| && ms[i] == m;
        BatchGoesToOwnHandler(d, ms, i);
      }
    }
    if h: Handler :| h.supportsBatch && forall m | m in ms :: d.HandlerFor(m.topic) == Some(h) {
      assert forall i | 0 <= i < |ms| :: ms[i] in ms;
    }
  }

  // Handlers are compared by name: the whole batch goes to the first one, which
  // is every message's own handler when names tell handlers apart.
  lemma BatchGoesToOwnHandler(d: TopicDispatcher, ms: seq<Message>, i: nat)
    requires d.Valid() && d.BatchPath(ms) && i < |ms|
    requires forall p, q | p in d.handlers && q in d.handlers && d.handlers[p].name == d.handlers[q].name ::
               d.handlers[p] == d.handlers[q]
    ensures d.HandlerFor(ms[i].topic) == d.HandlerFor(ms[0].topic)
  {
    FirstWildcardFinds(d.handlers, d.order, ms[0].topic);
    FirstWildcardFinds(d.handlers, d.order, ms[i].topic);
  }
}
