// Messages, handler results and errors of the consumer, and the keys by which
// the runtime orders and de-duplicates deliveries.
module ConsumerTypes {
  import opened Wrappers
  import opened Text

  datatype MessageResult = Ack | Nack | DeadLetter

  datatype ConsumerError =
    | Handler(text: string)
    | Serialization(text: string)
    | Deserialization(text: string)
    | Connection(text: string)
    | Timeout(text: string)
    | DeadLetterFailed(text: string)
    | RetryFailed(text: string)
    | Shutdown
    | Configuration(text: string)
    | Idempotency(text: string)
    | NoHandler(topic: string)
  {
    predicate IsRetryable() {
      Handler? || Connection? || Timeout? || RetryFailed? || Idempotency?
    }

    function Label(): string {
      match this
      case Handler(_) => "Handler error"
      case Serialization(_) => "Serialization error"
      case Deserialization(_) => "Deserialization error"
      case Connection(_) => "Connection error"
      case Timeout(_) => "Timeout error"
      case DeadLetterFailed(_) => "DLQ error"
      case RetryFailed(_) => "Retry error"
      case Shutdown => "Shutdown requested"
      case Configuration(_) => "Configuration error"
      case Idempotency(_) => "Idempotency error"
      case NoHandler(_) => "No handler found for topic"
    }

    function Detail(): string {
      if Shutdown? then "" else if NoHandler? then topic else text
    }

    function ToString(): string {
      if Shutdown? then Label() else Label() + ": " + Detail()
    }
  }

  // Errors that trying again cannot mend.
  predicate Final(e: ConsumerError) {
    || e.Serialization? || e.Deserialization? || e.DeadLetterFailed? || e.Shutdown? || e.Configuration?
    || e.NoHandler?
  }

  // An error is retryable or final, and never both.
  lemma RetryableKinds(e: ConsumerError)
    ensures e.IsRetryable() <==> !Final(e)
  {
  }

  // The text a copy carries of an error gives kind and detail away.
  lemma ErrorTextsDiffer(e: ConsumerError, e': ConsumerError)
    requires e.ToString() == e'.ToString()
    ensures e == e'
  {
    TextTellsKind(e, e');
    if e != Shutdown {
      var n := |e.Label()| + 2;
      assert e.Label() == e'.Label();
      assert e.ToString()[n..] == e.Detail() && e'.ToString()[n..] == e'.Detail();
    }
  }

  lemma TextTellsKind(e: ConsumerError, e': ConsumerError)
    requires e.ToString() == e'.ToString()
    ensures SameKind(e, e')
  {
    LabelStarts(e);
    LabelStarts(e');
    hide ConsumerError.Label;
    assert e.ToString()[0] == e'.ToString()[0] && e.ToString()[1] == e'.ToString()[1];
    assert e.ToString()[3] == e'.ToString()[3];
  }

  // Three characters tell the labels apart.
  lemma LabelStarts(e: ConsumerError)
    ensures |e.Label()| > 3
    ensures e.Handler? <==> e.Label()[0] == 'H'
    ensures e.Serialization? <==> e.Label()[0] == 'S' && e.Label()[1] == 'e'
    ensures e.Deserialization? <==> e.Label()[0] == 'D' && e.Label()[1] == 'e'
    ensures e.Connection? <==> e.Label()[0] == 'C' && e.Label()[3] == 'n'
    ensures e.Timeout? <==> e.Label()[0] == 'T'
    ensures e.DeadLetterFailed? <==> e.Label()[0] == 'D' && e.Label()[1] == 'L'
    ensures e.RetryFailed? <==> e.Label()[0] == 'R'
    ensures e.Shutdown? <==> e.Label()[0] == 'S' && e.Label()[1] == 'h'
    ensures e.Configuration? <==> e.Label()[0] == 'C' && e.Label()[3] == 'f'
    ensures e.Idempotency? <==> e.Label()[0] == 'I'
  {
  }

  predicate SameKind(e: ConsumerError, e': ConsumerError) {
    && (e.Handler? <==> e'.Handler?) && (e.Serialization? <==> e'.Serialization?)
    && (e.Deserialization? <==> e'.Deserialization?) && (e.Connection? <==> e'.Connection?)
    && (e.Timeout? <==> e'.Timeout?) && (e.DeadLetterFailed? <==> e'.DeadLetterFailed?)
    && (e.RetryFailed? <==> e'.RetryFailed?) && (e.Shutdown? <==> e'.Shutdown?)
    && (e.Configuration? <==> e'.Configuration?) && (e.Idempotency? <==> e'.Idempotency?)
  }

  datatype ContentType = Json | Protobuf | Avro | Raw

  // The broker's handle on one delivery; `id` tells handles apart.
  datatype AckHandle = AckHandle(id: nat, nativeRetry: bool)

  datatype Message = Message(
    payload: seq<bv8>,
    contentType: ContentType,
    messageId: string,
    topic: string,
    partition: int,
    offset: int,
    key: Option<string>,
    headers: map<string, string>,
    retryCount: u32,
    ackHandle: Option<AckHandle>)

  const HEADER_ENVELOPE_ID := "x-envelope-id"

  // Messages with one ordered key are handled one after the other.
  function OrderedKey(m: Message): string {
    if m.key.Some? then m.key.value else m.topic
  }

  // The key a message asks for, told by its fields: both have the same key, or
  // neither has one and they are of one topic, or the key of one names the
  // topic of the other, which has none.
  ghost predicate SharesKey(m: Message, m': Message) {
    || (m.key.Some? && m'.key.Some? && m.key.value == m'.key.value)
    || (m.key.None? && m'.key.None? && m.topic == m'.topic)
    || (m.key.Some? && m'.key.None? && m.key.value == m'.topic)
    || (m.key.None? && m'.key.Some? && m'.key.value == m.topic)
  }

  // Messages that are to be handled one after the other by one task.
  ghost predicate OneKey(ms: seq<Message>) {
    ms != [] && forall m, m' | m in ms && m' in ms :: SharesKey(m, m')
  }

  lemma OrderedKeyShared(m: Message, m': Message)
    ensures OrderedKey(m) == OrderedKey(m') <==> SharesKey(m, m')
  {
  }

  // The envelope id of the message or else its own id; blank when it has none.
  function GivenId(m: Message): string {
    if HEADER_ENVELOPE_ID in m.headers && !Blank(m.headers[HEADER_ENVELOPE_ID])
    then m.headers[HEADER_ENVELOPE_ID] else m.messageId
  }

  // The name under which a handled message is remembered: its given id, or
  // its broker position when that is blank.
  function IdempotencyKey(m: Message): string {
    var id := GivenId(m);
    if !Blank(id) then m.topic + ":" + id
    else m.topic + ":" + PrintInt(m.partition) + ":" + PrintInt(m.offset)
  }

  // What the key says after the topic.
  function KeyTail(m: Message): string {
    if Blank(GivenId(m)) then PrintInt(m.partition) + ":" + PrintInt(m.offset) else GivenId(m)
  }

  // The message is given this id: by its envelope, or by its own id when no
  // envelope names one.
  ghost predicate Named(m: Message, id: string) {
    && !Blank(id)
    && (if Unenveloped(m) then m.messageId == id else m.headers["x-envelope-id"] == id)
  }

  ghost predicate Unenveloped(m: Message) {
    "x-envelope-id" in m.headers ==> Blank(m.headers["x-envelope-id"])
  }

  ghost predicate Nameless(m: Message) {
    Unenveloped(m) && Blank(m.messageId)
  }

  ghost predicate NamedAlike(m: Message, m': Message) {
    exists id :: Named(m, id) && Named(m', id)
  }

  // The id given for one message spells the broker position of another.
  ghost predicate NamedAfterPlace(m: Message, m': Message) {
    Named(m, PrintInt(m'.partition) + ":" + PrintInt(m'.offset))
  }

  lemma NamedByGivenId(m: Message)
    ensures Nameless(m) <==> Blank(GivenId(m))
    ensures forall id :: Named(m, id) <==> !Blank(id) && GivenId(m) == id
  {
    hide Blank;
  }

  lemma PlaceNotBlank(m: Message)
    ensures !Blank(PrintInt(m.partition) + ":" + PrintInt(m.offset))
  {
    var s := PrintInt(m.partition) + ":" + PrintInt(m.offset);
    BlankMeans(s);
    assert s[|PrintInt(m.partition)|] == ':';
  }

  // Messages of colon-free topics have one key exactly if they are of one
  // topic and are given one id; or neither is given any and they are at one
  // position; or the only given id spells the other one's position.
  lemma KeysTellMessagesApart(m: Message, m': Message)
    requires ':' !in m.topic && ':' !in m'.topic
    ensures IdempotencyKey(m) == IdempotencyKey(m') <==>
            && m.topic == m'.topic
            && (|| NamedAlike(m, m')
                || (Nameless(m) && Nameless(m') && m.partition == m'.partition && m.offset == m'.offset)
                || (NamedAfterPlace(m, m') && Nameless(m'))
                || (NamedAfterPlace(m', m) && Nameless(m)))
  {
    NamedByGivenId(m);
    NamedByGivenId(m');
    PlaceNotBlank(m);
    PlaceNotBlank(m');
    KeyParts(m);
    KeyParts(m');
    hide GivenId, Blank, PrintInt, IdempotencyKey, Named, Nameless;
    assert NamedAlike(m, m') <==> !Blank(GivenId(m)) && GivenId(m) == GivenId(m') by {
      if !Blank(GivenId(m)) && GivenId(m) == GivenId(m') {
        assert Named(m, GivenId(m)) && Named(m', GivenId(m));
      }
    }
    if IdempotencyKey(m) == IdempotencyKey(m') {
      FirstSeparator(m.topic, KeyTail(m), m'.topic, KeyTail(m'), ':');
      if Blank(GivenId(m)) && Blank(GivenId(m')) { SamePosition(m, m'); }
    }
  }

  lemma KeyParts(m: Message)
    ensures IdempotencyKey(m) == m.topic + ":" + KeyTail(m)
  {
    hide GivenId, Blank, PrintInt;
    var p, o := PrintInt(m.partition), PrintInt(m.offset);
    assert m.topic + ":" + p + ":" + o == m.topic + ":" + (p + ":" + o);
  }

  lemma SamePosition(m: Message, m': Message)
    requires PrintInt(m.partition) + ":" + PrintInt(m.offset) == PrintInt(m'.partition) + ":" + PrintInt(m'.offset)
    ensures m.partition == m'.partition && m.offset == m'.offset
  {
    PrintedInt(m.partition);
    PrintedInt(m'.partition);
    FirstSeparator(PrintInt(m.partition), PrintInt(m.offset), PrintInt(m'.partition), PrintInt(m'.offset), ':');
    PrintIntTells(m.partition, m'.partition);
    PrintIntTells(m.offset, m'.offset);
  }

  lemma PrintedInt(n: int)
    ensures ':' !in PrintInt(n)
  {
    ValuePrint(if n < 0 then -n else n);
  }

  lemma PrintIntTells(n: int, k: int)
    requires PrintInt(n) == PrintInt(k)
    ensures n == k
  {
    SignPrinted(n);
    SignPrinted(k);
    ValuePrint(if n < 0 then -n else n);
    ValuePrint(if k < 0 then -k else k);
    if n < 0 { assert PrintInt(n)[1..] == Print(-n) && PrintInt(k)[1..] == Print(-k); }
  }

  lemma SignPrinted(n: int)
    ensures PrintInt(n) != "" && (PrintInt(n)[0] == '-' <==> n < 0)
  {
    ValuePrint(if n < 0 then -n else n);
  }

  // No two deliveries share a broker handle.
  ghost predicate DistinctHandles(ms: seq<Message>) {
    forall i, j | 0 <= i < j < |ms| && ms[i].ackHandle.Some? && ms[j].ackHandle.Some? ::
      ms[i].ackHandle.value.id != ms[j].ackHandle.value.id
  }
}
