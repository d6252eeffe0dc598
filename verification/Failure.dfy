// What happens to a message that was not handled: the retry policy, the
// headers of retry and dead-letter copies, and the publishers of both.
module Failure {
  import opened Wrappers
  import opened Text
  import opened ConsumerTypes

  const HEADER_RETRY_COUNT := "x-flare-retry-count"
  const HEADER_FAILURE_REASON := "x-flare-failure-reason"
  const HEADER_FAILURE_ERROR := "x-flare-failure-error"
  const HEADER_ORIGINAL_TOPIC := "x-flare-original-topic"
  const HEADER_ORIGINAL_MESSAGE_ID := "x-flare-original-message-id"
  const HEADER_ORIGINAL_PARTITION := "x-flare-original-partition"
  const HEADER_ORIGINAL_OFFSET := "x-flare-original-offset"
  const HEADER_RETRY_NOT_BEFORE := "x-flare-retry-not-before-unix-ms"
  const HEADER_CONTENT_TYPE := "content-type"

  datatype FailureAction = Retry | DeadLetter

  datatype FailureContext = FailureContext(reason: string, error: Option<string>, retryCount: u32)

  datatype RetryPolicy = RetryPolicy(maxRetries: u32, enableDlq: bool) {
    function RetryOrDeadLetter(retryCount: u32): FailureAction {
      if retryCount < maxRetries then Retry
      else if enableDlq then FailureAction.DeadLetter
      else Retry
    }

    function ActionForNack(retryCount: u32): FailureAction {
      RetryOrDeadLetter(retryCount)
    }

    function ActionForError(error: ConsumerError, retryCount: u32): FailureAction {
      if error.IsRetryable() then RetryOrDeadLetter(retryCount) else ActionForDeadLetter()
    }

    function ActionForDeadLetter(): FailureAction {
      if enableDlq then FailureAction.DeadLetter else Retry
    }
  }

  datatype FailureTopic = Original | Fixed(topic: string) | Suffix(suffix: string) {
    function Resolve(original: string): string {
      match this
      case Original => original
      case Fixed(topic) => topic
      case Suffix(suffix) => original + suffix
    }
  }

  // Where a copy goes: back where the message came from, always to one topic, or
  // to the message's topic extended by the suffix.
  lemma ResolveMeans(t: FailureTopic, original: string)
    ensures t.Resolve(original) == original <==> t.Original? || t == Fixed(original) || t == Suffix("")
    ensures t.Fixed? ==> t.Resolve(original) == t.topic
    ensures t.Suffix? ==> original <= t.Resolve(original) && t.Resolve(original)[|original|..] == t.suffix
  {
  }

  function ContentTypeHeader(c: ContentType): string {
    match c
    case Json => "application/json"
    case Protobuf => "application/protobuf"
    case Avro => "application/avro"
    case Raw => "application/octet-stream"
  }

  // A failed message's own headers, overlaid with the description of the
  // failure; a content type is only supplied where the message had none.
  function FailureHeaders(m: Message, failure: FailureContext, retryCount: u32): map<string, string> {
    var h := m.headers;
    var h := h[HEADER_RETRY_COUNT := Print(retryCount)];
    var h := h[HEADER_FAILURE_REASON := failure.reason];
    var h := h[HEADER_ORIGINAL_TOPIC := m.topic];
    var h := h[HEADER_ORIGINAL_MESSAGE_ID := m.messageId];
    var h := h[HEADER_ORIGINAL_PARTITION := PrintInt(m.partition)];
    var h := h[HEADER_ORIGINAL_OFFSET := PrintInt(m.offset)];
    var h := if failure.error.Some? then h[HEADER_FAILURE_ERROR := failure.error.value] else h;
    if HEADER_CONTENT_TYPE in h then h else h[HEADER_CONTENT_TYPE := ContentTypeHeader(m.contentType)]
  }

  // The headers that a failure may set; all others are the message's own.
  predicate FailureOwned(name: string) {
    name in {HEADER_RETRY_COUNT, HEADER_FAILURE_REASON, HEADER_FAILURE_ERROR, HEADER_ORIGINAL_TOPIC,
             HEADER_ORIGINAL_MESSAGE_ID, HEADER_ORIGINAL_PARTITION, HEADER_ORIGINAL_OFFSET}
  }

  lemma HeaderNames()
    ensures |HEADER_RETRY_COUNT| == 19 && |HEADER_FAILURE_REASON| == 22 && |HEADER_FAILURE_ERROR| == 21
    ensures |HEADER_ORIGINAL_TOPIC| == 22 && |HEADER_ORIGINAL_MESSAGE_ID| == 27
    ensures |HEADER_ORIGINAL_PARTITION| == 26 && |HEADER_ORIGINAL_OFFSET| == 23
    ensures |HEADER_RETRY_NOT_BEFORE| == 32 && |HEADER_CONTENT_TYPE| == 12
    ensures HEADER_FAILURE_REASON[8] == 'f' && HEADER_ORIGINAL_TOPIC[8] == 'o'
  {
  }

  // What a failed copy's headers leave alone.
  lemma FailureHeadersKeep(m: Message, failure: FailureContext, retryCount: u32)
    ensures var h := FailureHeaders(m, failure, retryCount);
            && (forall k | k in m.headers && !FailureOwned(k) :: k in h && h[k] == m.headers[k])
            && (forall k | k in h && k !in m.headers :: FailureOwned(k) || k == HEADER_CONTENT_TYPE)
  {
  }

  function Get(headers: map<string, string>, name: string): Option<string> {
    if name in headers then Some(headers[name]) else None
  }

  // What they say.
  lemma FailureHeadersAt(m: Message, failure: FailureContext, retryCount: u32)
    ensures var h := FailureHeaders(m, failure, retryCount);
            && Get(h, "x-flare-retry-count") == Some(Print(retryCount))
            && Get(h, "x-flare-failure-reason") == Some(failure.reason)
            && Get(h, "x-flare-original-topic") == Some(m.topic)
            && Get(h, "x-flare-original-message-id") == Some(m.messageId)
            && Get(h, "x-flare-original-partition") == Some(PrintInt(m.partition))
            && Get(h, "x-flare-original-offset") == Some(PrintInt(m.offset))
            && Get(h, "x-flare-failure-error")
               == if failure.error.Some? then failure.error else Get(m.headers, "x-flare-failure-error")
  {
    HeaderNames();
  }

  // The content type is the message's own header, or else that of its payload.
  lemma ContentTypeAt(m: Message, failure: FailureContext, retryCount: u32)
    ensures var h, own := FailureHeaders(m, failure, retryCount), Get(m.headers, "content-type");
            && (own.Some? ==> Get(h, "content-type") == own)
            && (own.None? && m.contentType == Json ==> Get(h, "content-type") == Some("application/json"))
            && (own.None? && m.contentType == Protobuf ==> Get(h, "content-type") == Some("application/protobuf"))
            && (own.None? && m.contentType == Avro ==> Get(h, "content-type") == Some("application/avro"))
            && (own.None? && m.contentType == Raw ==> Get(h, "content-type") == Some("application/octet-stream"))
  {
    HeaderNames();
  }

  function RetryCountFromHeaders(headers: map<string, string>): u32 {
    if HEADER_RETRY_COUNT in headers then
      match ParseU32(headers[HEADER_RETRY_COUNT])
      case Some(n) => n
      case None => 0
    else 0
  }

  // A count is read exactly from a header that holds a number; a message without
  // one was not retried.
  lemma RetryCountRead(headers: map<string, string>, n: u32)
    ensures n > 0 ==>
              (RetryCountFromHeaders(headers) == n
               <==> exists text :: Get(headers, "x-flare-retry-count") == Some(text) && ParseU32(text) == Some(n))
    ensures RetryCountFromHeaders(headers) > 0 ==> Get(headers, "x-flare-retry-count").Some?
  {
    hide ParseU32;
    if HEADER_RETRY_COUNT in headers {
      assert Get(headers, "x-flare-retry-count") == Some(headers[HEADER_RETRY_COUNT]);
    }
  }

  function SaturatingIncrement(n: u32): u32 {
    if n < U32_MAX then n + 1 else n
  }

  // What is handed to the producer.
  datatype Record = Record(topic: string, key: Option<string>, payload: seq<bv8>, headers: map<string, string>)

  function RetryRecord(m: Message, failure: FailureContext, topic: FailureTopic, notBefore: Option<string>): Record {
    var headers := FailureHeaders(m, failure, SaturatingIncrement(failure.retryCount));
    Record(topic.Resolve(m.topic), m.key, m.payload,
           if notBefore.Some? then headers[HEADER_RETRY_NOT_BEFORE := notBefore.value] else headers)
  }

  // A retry copy waits for the deadline it is given; one without a deadline has
  // what the message had.
  lemma RetryRecordWaits(m: Message, failure: FailureContext, topic: FailureTopic, notBefore: Option<string>)
    ensures var h := RetryRecord(m, failure, topic, notBefore).headers;
            && Get(h, "x-flare-retry-not-before-unix-ms")
               == (if notBefore.Some? then notBefore else Get(m.headers, "x-flare-retry-not-before-unix-ms"))
            && forall k | k != "x-flare-retry-not-before-unix-ms" ::
                 Get(h, k) == Get(FailureHeaders(m, failure, SaturatingIncrement(failure.retryCount)), k)
  {
    HeaderNames();
  }

  function DeadLetterRecord(m: Message, failure: FailureContext, topic: FailureTopic): Record {
    Record(topic.Resolve(m.topic), m.key, m.payload, FailureHeaders(m, failure, failure.retryCount))
  }

  // What the retry forwarder sends for a message that names its original topic.
  function ForwardRecord(m: Message): Option<Record> {
    if HEADER_ORIGINAL_TOPIC in m.headers && !Blank(m.headers[HEADER_ORIGINAL_TOPIC])
    then Some(Record(m.headers[HEADER_ORIGINAL_TOPIC], m.key, m.payload, m.headers - {HEADER_RETRY_NOT_BEFORE}))
    else None
  }

  // The deadline has passed when a copy is forwarded; it is the only thing lost.
  lemma ForwardDropsDeadline(m: Message)
    ensures ForwardRecord(m).Some? <==> exists t :: Get(m.headers, "x-flare-original-topic") == Some(t) && !Blank(t)
    ensures ForwardRecord(m).Some? ==>
              var out := ForwardRecord(m).value;
              && Some(out.topic) == Get(m.headers, "x-flare-original-topic")
              && out.key == m.key && out.payload == m.payload
              && Get(out.headers, "x-flare-retry-not-before-unix-ms") == None
              && forall k | k != "x-flare-retry-not-before-unix-ms" :: Get(out.headers, k) == Get(m.headers, k)
  {
    hide Blank;
    if ForwardRecord(m).Some? {
      var t := m.headers[HEADER_ORIGINAL_TOPIC];
      assert Get(m.headers, "x-flare-original-topic") == Some(t);
    }
  }

  // A producer that may fail; `sent` lists what reached the broker.
  class Producer {
    var sent: seq<Record>

    constructor ()
      ensures sent == []
    {
      sent := [];
    }

    method Send(record: Record) returns (r: Outcome<string>)
      modifies this
      ensures sent == if r.Pass? then old(sent) + [record] else old(sent)
    {
      var fails: bool := *;
      if fails { return Fail("send failed"); }
      sent := sent + [record];
      r := Pass;
    }
  }

  class ProducerRetryPublisher {
    const producer: Producer
    const topic: FailureTopic

    constructor (producer: Producer, topic: FailureTopic)
      ensures this.producer == producer && this.topic == topic
    {
      this.producer, this.topic := producer, topic;
    }

    // `notBefore` is the printed deadline, when the publisher delays retries.
    method PublishRetry(m: Message, failure: FailureContext, notBefore: Option<string>)
      returns (r: Outcome<ConsumerError>)
      modifies producer
      ensures r.Pass? ==> producer.sent == old(producer.sent) + [RetryRecord(m, failure, topic, notBefore)]
      ensures r.Fail? ==> producer.sent == old(producer.sent) && r.error.RetryFailed?
    {
      var headers := FailureHeaders(m, failure, SaturatingIncrement(failure.retryCount));
      if notBefore.Some? {
        headers := headers[HEADER_RETRY_NOT_BEFORE := notBefore.value];
      }
      var sending := producer.Send(Record(topic.Resolve(m.topic), m.key, m.payload, headers));
      r := if sending.Pass? then Pass else Fail(RetryFailed(sending.error));
    }
  }

  class ProducerDeadLetterPublisher {
    const producer: Producer
    const topic: FailureTopic

    constructor (producer: Producer, topic: FailureTopic)
      ensures this.producer == producer && this.topic == topic
    {
      this.producer, this.topic := producer, topic;
    }

    method PublishDeadLetter(m: Message, failure: FailureContext) returns (r: Outcome<ConsumerError>)
      modifies producer
      ensures r.Pass? ==> producer.sent == old(producer.sent) + [DeadLetterRecord(m, failure, topic)]
      ensures r.Fail? ==> producer.sent == old(producer.sent) && r.error.DeadLetterFailed?
    {
      var headers := FailureHeaders(m, failure, failure.retryCount);
      var sending := producer.Send(Record(topic.Resolve(m.topic), m.key, m.payload, headers));
      r := if sending.Pass? then Pass else Fail(DeadLetterFailed(sending.error));
    }
  }

  class RetryForwarder {
    const producer: Producer

    constructor (producer: Producer)
      ensures this.producer == producer
    {
      this.producer := producer;
    }

    // Acknowledges exactly when the forwarded copy was sent. A message without
    // an original topic is not retryable; a failed send is.
    method Handle(m: Message) returns (r: Result<MessageResult, ConsumerError>)
      modifies producer
      ensures r.Ok? ==> ForwardRecord(m).Some? && r.value == MessageResult.Ack
                        && producer.sent == old(producer.sent) + [ForwardRecord(m).value]
      ensures r.Err? ==> producer.sent == old(producer.sent)
      ensures r.Err? ==> r.error.IsRetryable() == ForwardRecord(m).Some?
    {
      if HEADER_ORIGINAL_TOPIC !in m.headers || Blank(m.headers[HEADER_ORIGINAL_TOPIC]) {
        return Err(DeadLetterFailed("retry message " + m.messageId + " missing " + HEADER_ORIGINAL_TOPIC));
      }
      var headers := m.headers;
      headers := headers - {HEADER_RETRY_NOT_BEFORE};
      var sending := producer.Send(Record(m.headers[HEADER_ORIGINAL_TOPIC], m.key, m.payload, headers));
      r := if sending.Pass? then Ok(MessageResult.Ack) else Err(RetryFailed(sending.error));
    }
  }
}
