/**
 * The request shaping of src/index.ts: the per-message projections
 * SQSMessageData / SNSMessageData, and the publish functions that turn one
 * message, or a batch of messages, into the commands sent to a client.
 * A client is modelled by the log of commands it has been sent.
 */
module Dispatch {
  import opened Wrappers
  import opened Message
  import opened Split

  /** `Pick<SendMessageRequest, "MessageBody" | "MessageAttributes" | "DelaySeconds">` */
  datatype SqsMessageData = SqsMessageData(messageBody: string, messageAttributes: AttributeMap, delaySeconds: Option<int>)

  /** `Pick<PublishInput, "Message" | "MessageAttributes">`: SNS carries no delay. */
  datatype SnsMessageData = SnsMessageData(message: string, messageAttributes: AttributeMap)

  /** A batch entry: `{Id: randomUUID(), ...MessageData}`. */
  datatype Entry<D> = Entry(id: string, data: D)

  /**
   * A command given to a client's `send`. For SQS, `Single` is a
   * SendMessageCommand and `Batch` a SendMessageBatchCommand, and the
   * destination is the QueueUrl; for SNS they are PublishCommand and
   * PublishBatchCommand, and the destination is the TopicArn.
   */
  datatype Request<D> =
    | Single(destination: string, data: D)
    | Batch(destination: string, entries: seq<Entry<D>>)

  /** How a publish call ends locally: its commands were sent, or it threw before sending any. */
  datatype Outcome = Sent | Failed(error: Error)

  /** The SQS fields of a message: its body, its SQS attribute encoding and its delay. */
  function SqsData(v: MessageValue): Result<SqsMessageData, Error>
  {
    match AttributesOf(Sqs, v.attributes)
    case Failure(e) => Failure(e)
    case Success(a) => Success(SqsMessageData(v.body, a, v.delay))
  }

  /** The SNS fields of a message: its body and its SNS attribute encoding; the delay is dropped. */
  function SnsData(v: MessageValue): Result<SnsMessageData, Error>
  {
    match AttributesOf(Sns, v.attributes)
    case Failure(e) => Failure(e)
    case Success(a) => Success(SnsMessageData(v.body, a))
  }

  /** What each projection keeps of a message: its body always, its delay only on SQS. */
  lemma ProjectionFields(v: MessageValue)
    ensures SqsData(v).Success? <==> AttributesOf(Sqs, v.attributes).Success?
    ensures SnsData(v).Success? <==> AttributesOf(Sns, v.attributes).Success?
    ensures SqsData(v).Success? ==>
      && SqsData(v).value.messageBody == v.body && SqsData(v).value.delaySeconds == v.delay
      && (SqsData(v).value.messageAttributes.None? <==> v.attributes.None?)
    ensures SnsData(v).Success? ==>
      SnsData(v).value.message == v.body && (SnsData(v).value.messageAttributes.None? <==> v.attributes.None?)
  {
  }

  /** A message's delay reaches SQS unchanged and never reaches SNS. */
  lemma ProjectionDelay(v: MessageValue, d: Option<int>)
    ensures SnsData(v.(delay := d)) == SnsData(v)
    ensures SqsData(v.(delay := d)).Success? <==> SqsData(v).Success?
    ensures SqsData(v).Failure? ==> SqsData(v.(delay := d)) == SqsData(v)
    ensures SqsData(v).Success? ==> SqsData(v.(delay := d)).value == SqsData(v).value.(delaySeconds := d)
  {
  }

  /** A message SQS accepts is accepted by SNS with the same body and attributes; SNS accepts more only through lists. */
  lemma ProjectionBackends(v: MessageValue)
    ensures SqsData(v).Success? ==>
      SnsData(v) == Success(SnsMessageData(SqsData(v).value.messageBody, SqsData(v).value.messageAttributes))
    ensures SqsData(v).Success? <==> SnsData(v).Success? && (v.attributes.None? || !HasList(v.attributes.value))
  {
    if v.attributes.Some? {
      EncodeRecordBackends(v.attributes.value);
    }
  }

  /** `${endpoint}/${queueName}` */
  function QueueUrl(endpoint: string, queueName: string): string
  {
    endpoint + "/" + queueName
  }

  /** The current state of every message, in order. */
  function Values(ms: seq<PublisherMessage>): seq<MessageValue>
    reads ms
  {
    seq(|ms|, i reads ms requires 0 <= i < |ms| => ms[i].Value())
  }

  // ---------------------------------------------------------------------
  // `messages.map(...)`: projecting every message, the first failure aborting
  // ---------------------------------------------------------------------

  function Collect<D>(f: MessageValue -> Result<D, Error>, vs: seq<MessageValue>): (r: Result<seq<D>, Error>)
    ensures r.Success? <==> forall i :: 0 <= i < |vs| ==> f(vs[i]).Success?
    ensures r.Success? ==> |r.value| == |vs| && forall i :: 0 <= i < |vs| ==> r.value[i] == f(vs[i]).value
  {
    if vs == [] then Success([])
    else
      var prefix := vs[..|vs| - 1];
      assert forall i :: 0 <= i < |prefix| ==> prefix[i] == vs[i];
      match Collect(f, prefix)
      case Failure(e) => Failure(e)
      case Success(ds) =>
        match f(vs[|vs| - 1])
        case Failure(e) => Failure(e)
        case Success(d) => Success(ds + [d])
  }

  /** Once a prefix fails, the whole sequence fails with the same error. */
  lemma {:induction false} CollectFailureExtends<D>(f: MessageValue -> Result<D, Error>, vs: seq<MessageValue>, k: nat)
    requires k <= |vs|
    requires Collect(f, vs[..k]).Failure?
    ensures Collect(f, vs) == Collect(f, vs[..k])
    decreases |vs| - k
  {
    if k < |vs| {
      assert vs[..k + 1][..k] == vs[..k];
      CollectFailureExtends(f, vs, k + 1);
    } else {
      assert vs[..k] == vs;
    }
  }

  /** A failing projection reports the error of the first message that cannot be projected. */
  lemma {:induction false} CollectFirstFailure<D>(f: MessageValue -> Result<D, Error>, vs: seq<MessageValue>)
    requires Collect(f, vs).Failure?
    ensures exists j ::
              && 0 <= j < |vs|
              && f(vs[j]) == Failure(Collect(f, vs).error)
              && (forall i :: 0 <= i < j ==> f(vs[i]).Success?)
  {
    var prefix := vs[..|vs| - 1];
    assert forall i :: 0 <= i < |prefix| ==> prefix[i] == vs[i];
    if Collect(f, prefix).Failure? {
      CollectFirstFailure(f, prefix);
      var j :| 0 <= j < |prefix|
        && f(prefix[j]) == Failure(Collect(f, prefix).error)
        && forall i :: 0 <= i < j ==> f(prefix[i]).Success?;
      assert f(vs[j]) == Failure(Collect(f, vs).error);
    } else {
      var j := |vs| - 1;
      assert forall i :: 0 <= i < j ==> f(vs[i]).Success?;
    }
  }

  /** The projection fails at the first message that cannot be projected, with that message's error. */
  lemma CollectFailsAt<D>(f: MessageValue -> Result<D, Error>, vs: seq<MessageValue>, i: nat)
    requires i < |vs| && f(vs[i]).Failure?
    requires forall k :: 0 <= k < i ==> f(vs[k]).Success?
    ensures Collect(f, vs) == Failure(f(vs[i]).error)
  {
    CollectFirstFailure(f, vs);
  }

  // ---------------------------------------------------------------------
  // Batches
  // ---------------------------------------------------------------------

  predicate Distinct(xs: seq<string>)
  {
    forall i, j :: 0 <= i < j < |xs| ==> xs[i] != xs[j]
  }

  /** Pairs every projected message with its id. */
  function Tag<D>(ids: seq<string>, ds: seq<D>): seq<Entry<D>>
    requires |ids| == |ds|
  {
    seq(|ds|, i requires 0 <= i < |ds| => Entry(ids[i], ds[i]))
  }

  function Ids<D>(entries: seq<Entry<D>>): seq<string>
  {
    seq(|entries|, i requires 0 <= i < |entries| => entries[i].id)
  }

  /** One batch command per chunk, in chunk order. */
  function BatchRequests<D>(destination: string, chunks: seq<seq<Entry<D>>>): seq<Request<D>>
  {
    seq(|chunks|, i requires 0 <= i < |chunks| => Batch(destination, chunks[i]))
  }

  /** The batch entries of a run of commands, concatenated in order. */
  function EntriesOf<D>(requests: seq<Request<D>>): seq<Entry<D>>
  {
    if requests == [] then []
    else (if requests[0].Batch? then requests[0].entries else []) + EntriesOf(requests[1..])
  }

  lemma {:induction false} EntriesOfBatches<D>(destination: string, chunks: seq<seq<Entry<D>>>)
    ensures EntriesOf(BatchRequests(destination, chunks)) == Flatten(chunks)
  {
    if chunks != [] {
      assert BatchRequests(destination, chunks)[1..] == BatchRequests(destination, chunks[1..]);
      EntriesOfBatches(destination, chunks[1..]);
    }
  }

  /**
   * What a batch publish sends, for entries tagged with pairwise distinct
   * ids: ceil(n / 10) batch commands to the one destination, each with one
   * to ten entries and all but the last with ten; read in order their
   * entries are exactly the tagged entries, so every entry keeps its
   * message's projection and its position, and no id occurs twice.
   */
  lemma BatchLaws<D>(destination: string, ids: seq<string>, ds: seq<D>)
    requires |ids| == |ds| && Distinct(ids)
    ensures var requests := BatchRequests(destination, Chunks(Tag(ids, ds)));
      && |requests| == (|ds| + MaxItems - 1) / MaxItems
      && (forall i :: 0 <= i < |requests| ==>
            requests[i].Batch? && requests[i].destination == destination
            && 1 <= |requests[i].entries| <= MaxItems)
      && (forall i :: 0 <= i < |requests| - 1 ==> |requests[i].entries| == MaxItems)
      && EntriesOf(requests) == Tag(ids, ds)
      && (forall k :: 0 <= k < |ds| ==> EntriesOf(requests)[k] == Entry(ids[k], ds[k]))
      && Distinct(Ids(EntriesOf(requests)))
  {
    var entries := Tag(ids, ds);
    ChunksCount(entries);
    ChunksSizes(entries);
    ChunksFlatten(entries);
    EntriesOfBatches(destination, Chunks(entries));
    assert Ids(entries) == ids;
  }

  /** The entries a batch map yields, given the projections of its messages and the ids issued before it. */
  ghost predicate Tagged<D>(r: Result<seq<Entry<D>>, Error>, tags: seq<string>, issued: set<string>,
                            data: Result<seq<D>, Error>)
  {
    match data
    case Failure(e) => r == Failure(e)
    case Success(ds) =>
      && |tags| == |ds| && Distinct(tags)
      && (forall k :: 0 <= k < |tags| ==> tags[k] !in issued)
      && r == Success(Tag(tags, ds))
  }

  /**
   * The state of a batch map after `i` messages: each has been projected
   * and tagged with an id issued during the map, no id twice.
   */
  ghost predicate Progress<D>(f: MessageValue -> Result<D, Error>, vs: seq<MessageValue>, i: nat, entries: seq<Entry<D>>,
                              tags: seq<string>, issued0: set<string>, issued: set<string>)
  {
    && i <= |vs| && |entries| == i && |tags| == i
    && (forall k :: 0 <= k < i ==> f(vs[k]).Success? && entries[k] == Entry(tags[k], f(vs[k]).value))
    && Distinct(tags) && issued0 <= issued
    && (forall k :: 0 <= k < i ==> tags[k] in issued && tags[k] !in issued0)
  }

  lemma ProgressStep<D>(f: MessageValue -> Result<D, Error>, vs: seq<MessageValue>, i: nat, entries: seq<Entry<D>>,
                        tags: seq<string>, issued0: set<string>, issued: set<string>, entry: Entry<D>, issued': set<string>)
    requires Progress(f, vs, i, entries, tags, issued0, issued)
    requires i < |vs| && f(vs[i]) == Success(entry.data)
    requires entry.id !in issued && entry.id in issued' && issued <= issued'
    ensures Progress(f, vs, i + 1, entries + [entry], tags + [entry.id], issued0, issued')
  {
  }

  /** A map that stopped at message `i` yields that message's error. */
  lemma TaggedFailure<D>(f: MessageValue -> Result<D, Error>, vs: seq<MessageValue>, i: nat, entries: seq<Entry<D>>,
                         tags: seq<string>, issued0: set<string>, issued: set<string>)
    requires Progress(f, vs, i, entries, tags, issued0, issued)
    requires i < |vs| && f(vs[i]).Failure?
    ensures Tagged(Failure(f(vs[i]).error), tags, issued0, Collect(f, vs))
  {
    CollectFailsAt(f, vs, i);
  }

  /** A map that went through every message yields the tagged projection, with ids new to it. */
  lemma TaggedSuccess<D>(f: MessageValue -> Result<D, Error>, vs: seq<MessageValue>, entries: seq<Entry<D>>,
                         tags: seq<string>, issued0: set<string>, issued: set<string>)
    requires Progress(f, vs, |vs|, entries, tags, issued0, issued)
    ensures Tagged(Success(entries), tags, issued0, Collect(f, vs))
  {
    assert entries == Tag(tags, Collect(f, vs).value);
  }

  /** What a batch publish leaves behind, given the projections of its messages. */
  ghost predicate BatchPublished<D>(outcome: Outcome, tags: seq<string>, sent: seq<Request<D>>, before: seq<Request<D>>,
                                    issued: set<string>, destination: string, data: Result<seq<D>, Error>)
  {
    match data
    case Failure(e) => outcome == Failed(e) && sent == before
    case Success(ds) =>
      && outcome == Sent
      && |tags| == |ds| && Distinct(tags)
      && (forall k :: 0 <= k < |tags| ==> tags[k] !in issued)
      && sent == before + BatchRequests(destination, Chunks(Tag(tags, ds)))
  }

  /** What a single publish leaves behind, given the projection of its message. */
  ghost predicate Published<D>(outcome: Outcome, sent: seq<Request<D>>, before: seq<Request<D>>,
                               destination: string, data: Result<D, Error>)
  {
    match data
    case Failure(e) => outcome == Failed(e) && sent == before
    case Success(d) => outcome == Sent && sent == before + [Single(destination, d)]
  }

  // ---------------------------------------------------------------------
  // The collaborators: a client and the id generator
  // ---------------------------------------------------------------------

  /** An SQS or SNS client; what `send` does over the network is not modelled, only what it was given. */
  class Client<D> {
    var sent: seq<Request<D>>

    constructor ()
      ensures sent == []
    {
      sent := [];
    }

    method Send(request: Request<D>)
      modifies this
      ensures sent == old(sent) + [request]
    {
      sent := sent + [request];
    }
  }

  /**
   * Stands in for `crypto.randomUUID`. The one property the publish
   * functions rely on is that every id it hands out is new; `issued`
   * records the ids handed out so far. The counter only realises that
   * promise; it is not the format of a UUID.
   */
  class IdSource {
    ghost var issued: set<string>
    var counter: nat

    ghost predicate Valid()
      reads this
    {
      forall id :: id in issued ==> Json.ParseInt(id).Some? && 0 <= Json.ParseInt(id).value < counter
    }

    constructor ()
      ensures Valid() && issued == {}
    {
      issued := {};
      counter := 0;
    }

    method RandomUuid() returns (id: string)
      requires Valid()
      modifies this
      ensures Valid()
      ensures id !in old(issued) && issued == old(issued) + {id}
    {
      id := Json.Decimal(counter);
      Json.DecimalRoundTrip(counter);
      issued := issued + {id};
      counter := counter + 1;
    }
  }

  // ---------------------------------------------------------------------
  // Projections and publish functions
  // ---------------------------------------------------------------------

  /** SQSMessageData: the body, the SQS attribute encoding and the delay of the message. */
  method SQSMessageData(message: PublisherMessage) returns (r: Result<SqsMessageData, Error>)
    ensures r == SqsData(message.Value())
  {
    var body := message.GetMessage();
    var delay := message.GetDelaySeconds();
    var attributes := message.GetAttributesSQS();
    match attributes
    case Failure(e) => r := Failure(e);
    case Success(a) => r := Success(SqsMessageData(body, a, delay));
  }

  /** SNSMessageData: the body and the SNS attribute encoding; the delay is not sent. */
  method SNSMessageData(message: PublisherMessage) returns (r: Result<SnsMessageData, Error>)
    ensures r == SnsData(message.Value())
  {
    var body := message.GetMessage();
    var attributes := message.GetAttributesSNS();
    match attributes
    case Failure(e) => r := Failure(e);
    case Success(a) => r := Success(SnsMessageData(body, a));
  }

  /** publishSQSMessage: one SendMessageCommand to `${endpoint}/${queueName}`, unless the attributes throw first. */
  method PublishSQSMessage(message: PublisherMessage, queueName: string, sqs: Client<SqsMessageData>, endpoint: string)
    returns (outcome: Outcome)
    modifies sqs
    ensures Published(outcome, sqs.sent, old(sqs.sent), QueueUrl(endpoint, queueName), SqsData(message.Value()))
  {
    var data := SQSMessageData(message);
    match data
    case Failure(e) => outcome := Failed(e);
    case Success(d) =>
      sqs.Send(Single(QueueUrl(endpoint, queueName), d));
      outcome := Sent;
  }

  /** publishSNSMessage: one PublishCommand to the topic, used unchanged as TopicArn. */
  method PublishSNSMessage(message: PublisherMessage, topic: string, sns: Client<SnsMessageData>)
    returns (outcome: Outcome)
    modifies sns
    ensures Published(outcome, sns.sent, old(sns.sent), topic, SnsData(message.Value()))
  {
    var data := SNSMessageData(message);
    match data
    case Failure(e) => outcome := Failed(e);
    case Success(d) =>
      sns.Send(Single(topic, d));
      outcome := Sent;
  }

  /** The callback of the `messages.map(...)` of publishSQSBatch: the projection first, then a fresh id. */
  method SqsEntry(message: PublisherMessage, ids: IdSource) returns (r: Result<Entry<SqsMessageData>, Error>)
    requires ids.Valid()
    modifies ids
    ensures ids.Valid() && old(ids.issued) <= ids.issued
    ensures SqsData(message.Value()).Failure? ==> r == Failure(SqsData(message.Value()).error)
    // no id is drawn for a message that cannot be projected
    ensures SqsData(message.Value()).Failure? ==> ids.issued == old(ids.issued)
    ensures SqsData(message.Value()).Success? ==>
      && r.Success? && r.value.data == SqsData(message.Value()).value
      && r.value.id !in old(ids.issued) && ids.issued == old(ids.issued) + {r.value.id}
  {
    var data := SQSMessageData(message);
    if data.Failure? {
      return Failure(data.error);
    }
    var id := ids.RandomUuid();
    r := Success(Entry(id, data.value));
  }

  /**
   * The `messages.map(...)` of publishSQSBatch: every message is projected
   * and tagged with a fresh id, in order; the first message that cannot be
   * projected aborts the map.
   */
  method SqsEntries(messages: seq<PublisherMessage>, ids: IdSource)
    returns (r: Result<seq<Entry<SqsMessageData>>, Error>, ghost tags: seq<string>)
    requires ids.Valid()
    modifies ids
    ensures ids.Valid() && old(ids.issued) <= ids.issued
    ensures r.Success? ==> forall k :: 0 <= k < |tags| ==> tags[k] in ids.issued
    ensures Tagged(r, tags, old(ids.issued), Collect(SqsData, Values(messages)))
  {
    ghost var vs := Values(messages);
    var entries: seq<Entry<SqsMessageData>> := [];
    tags := [];
    var i := 0;
    while i < |messages|
      invariant 0 <= i <= |messages|
      invariant ids.Valid() && Values(messages) == vs
      invariant Progress(SqsData, vs, i, entries, tags, old(ids.issued), ids.issued)
    {
      ghost var before := ids.issued;
      var entry := SqsEntry(messages[i], ids);
      if entry.Failure? {
        TaggedFailure(SqsData, vs, i, entries, tags, old(ids.issued), before);
        return Failure(entry.error), tags;
      }
      ProgressStep(SqsData, vs, i, entries, tags, old(ids.issued), before, entry.value, ids.issued);
      entries := entries + [entry.value];
      tags := tags + [entry.value.id];
      i := i + 1;
    }
    TaggedSuccess(SqsData, vs, entries, tags, old(ids.issued), ids.issued);
    r := Success(entries);
  }

  /** The callback of the `messages.map(...)` of publishSNSBatch: the projection first, then a fresh id. */
  method SnsEntry(message: PublisherMessage, ids: IdSource) returns (r: Result<Entry<SnsMessageData>, Error>)
    requires ids.Valid()
    modifies ids
    ensures ids.Valid() && old(ids.issued) <= ids.issued
    ensures SnsData(message.Value()).Failure? ==> r == Failure(SnsData(message.Value()).error)
    // no id is drawn for a message that cannot be projected
    ensures SnsData(message.Value()).Failure? ==> ids.issued == old(ids.issued)
    ensures SnsData(message.Value()).Success? ==>
      && r.Success? && r.value.data == SnsData(message.Value()).value
      && r.value.id !in old(ids.issued) && ids.issued == old(ids.issued) + {r.value.id}
  {
    var data := SNSMessageData(message);
    if data.Failure? {
      return Failure(data.error);
    }
    var id := ids.RandomUuid();
    r := Success(Entry(id, data.value));
  }

  /** The `messages.map(...)` of publishSNSBatch. */
  method SnsEntries(messages: seq<PublisherMessage>, ids: IdSource)
    returns (r: Result<seq<Entry<SnsMessageData>>, Error>, ghost tags: seq<string>)
    requires ids.Valid()
    modifies ids
    ensures ids.Valid() && old(ids.issued) <= ids.issued
    ensures r.Success? ==> forall k :: 0 <= k < |tags| ==> tags[k] in ids.issued
    ensures Tagged(r, tags, old(ids.issued), Collect(SnsData, Values(messages)))
  {
    ghost var vs := Values(messages);
    var entries: seq<Entry<SnsMessageData>> := [];
    tags := [];
    var i := 0;
    while i < |messages|
      invariant 0 <= i <= |messages|
      invariant ids.Valid() && Values(messages) == vs
      invariant Progress(SnsData, vs, i, entries, tags, old(ids.issued), ids.issued)
    {
      ghost var before := ids.issued;
      var entry := SnsEntry(messages[i], ids);
      if entry.Failure? {
        TaggedFailure(SnsData, vs, i, entries, tags, old(ids.issued), before);
        return Failure(entry.error), tags;
      }
      ProgressStep(SnsData, vs, i, entries, tags, old(ids.issued), before, entry.value, ids.issued);
      entries := entries + [entry.value];
      tags := tags + [entry.value.id];
      i := i + 1;
    }
    TaggedSuccess(SnsData, vs, entries, tags, old(ids.issued), ids.issued);
    r := Success(entries);
  }

  /** The `for` loop of the batch publishers: one batch command per chunk, in order. */
  method SendBatches<D>(client: Client<D>, destination: string, chunks: seq<seq<Entry<D>>>)
    modifies client
    ensures client.sent == old(client.sent) + BatchRequests(destination, chunks)
  {
    var k := 0;
    while k < |chunks|
      invariant 0 <= k <= |chunks|
      invariant client.sent == old(client.sent) + BatchRequests(destination, chunks[..k])
    {
      assert BatchRequests(destination, chunks[..k + 1]) == BatchRequests(destination, chunks[..k]) + [Batch(destination, chunks[k])];
      client.Send(Batch(destination, chunks[k]));
      k := k + 1;
    }
    assert chunks[..k] == chunks;
  }

  /** publishSQSBatch: the tagged entries, split into chunks, each sent as a SendMessageBatchCommand. */
  method PublishSQSBatch(messages: seq<PublisherMessage>, queueName: string, sqs: Client<SqsMessageData>,
                         endpoint: string, ids: IdSource)
    returns (outcome: Outcome, ghost tags: seq<string>)
    requires ids.Valid()
    modifies sqs, ids
    ensures ids.Valid() && old(ids.issued) <= ids.issued
    // the batch's ids are recorded, so no later call reuses them
    ensures outcome == Sent ==> forall k :: 0 <= k < |tags| ==> tags[k] in ids.issued
    ensures BatchPublished(outcome, tags, sqs.sent, old(sqs.sent), old(ids.issued),
                           QueueUrl(endpoint, queueName), Collect(SqsData, Values(messages)))
  {
    var entries;
    entries, tags := SqsEntries(messages, ids);
    if entries.Failure? {
      return Failed(entries.error), tags;
    }
    var chunks := SplitArray(entries.value);
    SendBatches(sqs, QueueUrl(endpoint, queueName), chunks);
    outcome := Sent;
  }

  /** publishSNSBatch: as publishSQSBatch, with PublishBatchCommands to the topic. */
  method PublishSNSBatch(messages: seq<PublisherMessage>, topic: string, sns: Client<SnsMessageData>, ids: IdSource)
    returns (outcome: Outcome, ghost tags: seq<string>)
    requires ids.Valid()
    modifies sns, ids
    ensures ids.Valid() && old(ids.issued) <= ids.issued
    // the batch's ids are recorded, so no later call reuses them
    ensures outcome == Sent ==> forall k :: 0 <= k < |tags| ==> tags[k] in ids.issued
    ensures BatchPublished(outcome, tags, sns.sent, old(sns.sent), old(ids.issued), topic, Collect(SnsData, Values(messages)))
  {
    var entries;
    entries, tags := SnsEntries(messages, ids);
    if entries.Failure? {
      return Failed(entries.error), tags;
    }
    var chunks := SplitArray(entries.value);
    SendBatches(sns, topic, chunks);
    outcome := Sent;
  }
}
