/**
 * The functions the plugin decorates the Fastify instance with. Each one
 * accepts PublisherMessages or raw bodies, wraps a raw body in a new
 * message without attributes or delay, optionally sets the delay, and
 * hands the messages to a publish function.
 */
module Plugin {
  import opened Wrappers
  import opened Json
  import opened Message
  import opened Dispatch

  /** `PublisherMessageType`: a ready message, or a raw body (a string or any other JSON value). */
  datatype Input = Raw(content: Json) | Prebuilt(message: PublisherMessage)

  /** A raw `null`: wrapping it throws, since the constructor reads `null.constructor`. */
  predicate IsNull(input: Input)
  {
    input.Raw? && input.content.JNull?
  }

  /** The messages passed in ready-made, which the decorators use (and the delayed ones change) in place. */
  function Prebuilts(inputs: seq<Input>): set<PublisherMessage>
  {
    set i | 0 <= i < |inputs| && inputs[i].Prebuilt? :: inputs[i].message
  }

  /** The message an input stands for, as a value. */
  ghost function InputValue(input: Input): Result<MessageValue, Error>
    reads if input.Prebuilt? then {input.message} else {}
  {
    match input
    case Prebuilt(m) => Success(m.Value())
    case Raw(content) =>
      if content.JNull? then Failure(NullValue) else Success(MessageValue(BodyText(content), None, None))
  }

  /** The messages a sequence of inputs stands for; any raw `null` makes the wrapping throw. */
  ghost function InputValues(inputs: seq<Input>): Result<seq<MessageValue>, Error>
    reads Prebuilts(inputs)
  {
    if exists i :: 0 <= i < |inputs| && IsNull(inputs[i]) then Failure(NullValue)
    else
      Success(seq(|inputs|, i reads Prebuilts(inputs) requires 0 <= i < |inputs| && !IsNull(inputs[i]) =>
                              assert inputs[i].Prebuilt? ==> inputs[i].message in Prebuilts(inputs);
                              InputValue(inputs[i]).value))
  }

  /** The position of the first raw `null`, or the length when there is none. */
  function FirstNull(inputs: seq<Input>): (n: nat)
    ensures n <= |inputs|
    ensures forall k :: 0 <= k < n ==> !IsNull(inputs[k])
    ensures n < |inputs| ==> IsNull(inputs[n])
  {
    if inputs == [] then 0
    else if IsNull(inputs[0]) then 0
    else 1 + FirstNull(inputs[1..])
  }

  /** Wrapping a sequence fails exactly when it holds a raw `null`, at the first one; otherwise every input is wrapped in place. */
  lemma InputValuesShape(inputs: seq<Input>)
    ensures InputValues(inputs).Failure? <==> FirstNull(inputs) < |inputs|
    ensures InputValues(inputs).Failure? ==> InputValues(inputs) == Failure(NullValue)
    ensures InputValues(inputs).Success? ==>
      && |InputValues(inputs).value| == |inputs|
      && forall i :: 0 <= i < |inputs| ==> InputValues(inputs).value[i] == InputValue(inputs[i]).value
  {
    var n := FirstNull(inputs);
    if n < |inputs| {
      assert IsNull(inputs[n]);
    }
  }

  /** `setDelaySeconds(delaySeconds)` on a message value. */
  function Delay(r: Result<MessageValue, Error>, delaySeconds: int): Result<MessageValue, Error>
  {
    match r
    case Failure(e) => Failure(e)
    case Success(v) => Success(v.(delay := Some(delaySeconds)))
  }

  function DelayAll(r: Result<seq<MessageValue>, Error>, delaySeconds: int): Result<seq<MessageValue>, Error>
  {
    match r
    case Failure(e) => Failure(e)
    case Success(vs) => Success(seq(|vs|, i requires 0 <= i < |vs| => vs[i].(delay := Some(delaySeconds))))
  }

  /** An error raised while wrapping wins; otherwise the message is projected. */
  function Then<D>(r: Result<MessageValue, Error>, f: MessageValue -> Result<D, Error>): Result<D, Error>
  {
    match r
    case Failure(e) => Failure(e)
    case Success(v) => f(v)
  }

  function ThenAll<D>(r: Result<seq<MessageValue>, Error>, f: MessageValue -> Result<D, Error>): Result<seq<D>, Error>
  {
    match r
    case Failure(e) => Failure(e)
    case Success(vs) => Collect(f, vs)
  }

  /**
   * Delaying a batch before projecting it for SQS changes nothing but the
   * delay of every entry: the same messages fail, and the bodies and
   * attributes are those of the undelayed batch.
   */
  lemma {:induction false} DelayedProjection(r: Result<seq<MessageValue>, Error>, delaySeconds: int)
    ensures ThenAll(DelayAll(r, delaySeconds), SqsData).Success? <==> ThenAll(r, SqsData).Success?
    ensures ThenAll(DelayAll(r, delaySeconds), SqsData).Failure? ==>
      ThenAll(DelayAll(r, delaySeconds), SqsData) == ThenAll(r, SqsData)
    ensures ThenAll(r, SqsData).Success? ==>
      var ds := ThenAll(r, SqsData).value;
      ThenAll(DelayAll(r, delaySeconds), SqsData) ==
        Success(seq(|ds|, i requires 0 <= i < |ds| => ds[i].(delaySeconds := Some(delaySeconds))))
  {
    if r.Success? {
      var vs := r.value;
      var delayed := DelayAll(r, delaySeconds).value;
      forall i | 0 <= i < |vs|
        ensures SqsData(delayed[i]).Success? <==> SqsData(vs[i]).Success?
        ensures SqsData(vs[i]).Success? ==> SqsData(delayed[i]).value == SqsData(vs[i]).value.(delaySeconds := Some(delaySeconds))
      {
        ProjectionDelay(vs[i], Some(delaySeconds));
      }
      if Collect(SqsData, delayed).Success? {
        var ds := Collect(SqsData, vs).value;
        assert Collect(SqsData, delayed).value ==
          seq(|ds|, i requires 0 <= i < |ds| => ds[i].(delaySeconds := Some(delaySeconds)));
      } else {
        var j :| 0 <= j < |delayed| && SqsData(delayed[j]).Failure?
          && forall i :: 0 <= i < j ==> SqsData(delayed[i]).Success? by {
          CollectFirstFailure(SqsData, delayed);
        }
        CollectFailsAt(SqsData, delayed, j);
        CollectFailsAt(SqsData, vs, j);
      }
    }
  }

  // ---------------------------------------------------------------------
  // Wrapping
  // ---------------------------------------------------------------------

  /** `message instanceof PublisherMessage ? message : new PublisherMessage(message)` */
  method Wrap(input: Input) returns (r: Result<PublisherMessage, Error>)
    ensures r.Success? <==> !IsNull(input)
    ensures r.Failure? ==> r == Failure(NullValue)
    ensures r.Success? ==> r.value.Value() == InputValue(input).value
    // a ready message is used as it is, not copied
    ensures input.Prebuilt? ==> r == Success(input.message)
    ensures input.Raw? && r.Success? ==> fresh(r.value)
  {
    match input
    case Prebuilt(m) =>
      r := Success(m);
    case Raw(content) =>
      if content.JNull? {
        r := Failure(NullValue);
      } else {
        var m := new PublisherMessage(content, None, None);
        r := Success(m);
      }
  }

  /** The `messages.map(...)` of the undelayed batch decorators. */
  method WrapAll(inputs: seq<Input>) returns (r: Result<seq<PublisherMessage>, Error>)
    ensures r.Success? <==> old(InputValues(inputs)).Success?
    ensures r.Failure? ==> r == Failure(NullValue)
    ensures r.Success? ==> Values(r.value) == old(InputValues(inputs)).value
    ensures r.Success? ==> forall i :: 0 <= i < |inputs| ==>
      if inputs[i].Prebuilt? then r.value[i] == inputs[i].message else fresh(r.value[i])
  {
    var messages: seq<PublisherMessage> := [];
    var i := 0;
    while i < |inputs|
      invariant 0 <= i <= |inputs| && |messages| == i
      invariant forall k :: 0 <= k < i ==> !IsNull(inputs[k])
      invariant forall k :: 0 <= k < i ==> messages[k].Value() == old(InputValue(inputs[k])).value
      invariant forall k :: 0 <= k < i ==>
        if inputs[k].Prebuilt? then messages[k] == inputs[k].message else fresh(messages[k])
    {
      var m := Wrap(inputs[i]);
      if m.Failure? {
        return Failure(NullValue);
      }
      messages := messages + [m.value];
      i := i + 1;
    }
    assert Values(messages) == old(InputValues(inputs)).value;
    r := Success(messages);
  }

  /** `m` is what wrapping `input` gives: the ready message itself, or one holding the raw body and no attributes. */
  predicate Wraps(m: PublisherMessage, input: Input)
  {
    match input
    case Prebuilt(p) => m == p
    case Raw(content) => !content.JNull? && m.message == BodyText(content) && m.attributes.None?
  }

  /**
   * The `messages.map(...)` of delayedBatchToSQS: each message is wrapped
   * and its delay set before the next one is looked at, so when a raw
   * `null` aborts the map the ready messages before it keep their new
   * delay.
   */
  method WrapAllWithDelay(inputs: seq<Input>, delaySeconds: int) returns (r: Result<seq<PublisherMessage>, Error>)
    modifies Prebuilts(inputs)
    ensures r.Success? <==> old(InputValues(inputs)).Success?
    ensures r.Failure? ==> r == Failure(NullValue)
    ensures r.Success? ==> Values(r.value) == DelayAll(old(InputValues(inputs)), delaySeconds).value
    ensures forall m :: m in Prebuilts(inputs) ==>
      m.delaySeconds == if m in Prebuilts(inputs[..FirstNull(inputs)]) then Some(delaySeconds) else old(m.delaySeconds)
  {
    var messages: seq<PublisherMessage> := [];
    var i := 0;
    while i < |inputs|
      invariant 0 <= i <= |inputs| && |messages| == i
      invariant forall k :: 0 <= k < i ==> Wraps(messages[k], inputs[k]) && messages[k].delaySeconds == Some(delaySeconds)
      invariant forall m :: m in Prebuilts(inputs) ==>
        m.delaySeconds == if m in Prebuilts(inputs[..i]) then Some(delaySeconds) else old(m.delaySeconds)
    {
      var m := Wrap(inputs[i]);
      if m.Failure? {
        return Failure(NullValue);
      }
      assert inputs[i].Prebuilt? ==> inputs[i].message in Prebuilts(inputs);
      m.value.SetDelaySeconds(Some(delaySeconds));
      PrebuiltsSnoc(inputs, i);
      messages := messages + [m.value];
      i := i + 1;
    }
    assert inputs[..i] == inputs;
    assert Values(messages) == DelayAll(old(InputValues(inputs)), delaySeconds).value;
    r := Success(messages);
  }

  lemma PrebuiltsSnoc(inputs: seq<Input>, i: nat)
    requires i < |inputs|
    ensures Prebuilts(inputs[..i + 1]) == Prebuilts(inputs[..i]) + (if inputs[i].Prebuilt? then {inputs[i].message} else {})
  {
    assert forall k :: 0 <= k < i ==> inputs[..i + 1][k] == inputs[..i][k];
  }

  // ---------------------------------------------------------------------
  // The decorators; `sqsEndpoint` (the SQS client's configured endpoint) is the parameter `endpoint`
  // ---------------------------------------------------------------------

  /** messageToSQS */
  method MessageToSQS(input: Input, queueName: string, sqs: Client<SqsMessageData>, endpoint: string)
    returns (outcome: Outcome)
    modifies sqs
    ensures Published(outcome, sqs.sent, old(sqs.sent), QueueUrl(endpoint, queueName), Then(InputValue(input), SqsData))
  {
    var message := Wrap(input);
    if message.Failure? {
      return Failed(message.error);
    }
    outcome := PublishSQSMessage(message.value, queueName, sqs, endpoint);
  }

  /** delayedMessageToSQS: the delay is set on the message itself, a ready one included, before it is sent. */
  method DelayedMessageToSQS(input: Input, queueName: string, delaySeconds: int, sqs: Client<SqsMessageData>, endpoint: string)
    returns (outcome: Outcome)
    modifies sqs, if input.Prebuilt? then {input.message} else {}
    ensures input.Prebuilt? ==> input.message.Value() == old(input.message.Value()).(delay := Some(delaySeconds))
    ensures Published(outcome, sqs.sent, old(sqs.sent), QueueUrl(endpoint, queueName),
                      Then(Delay(old(InputValue(input)), delaySeconds), SqsData))
  {
    var message := Wrap(input);
    if message.Failure? {
      return Failed(message.error);
    }
    message.value.SetDelaySeconds(Some(delaySeconds));
    outcome := PublishSQSMessage(message.value, queueName, sqs, endpoint);
  }

  /** messagesBatchToSQS */
  method MessagesBatchToSQS(inputs: seq<Input>, queueName: string, sqs: Client<SqsMessageData>, endpoint: string,
                            ids: IdSource)
    returns (outcome: Outcome, ghost tags: seq<string>)
    requires ids.Valid()
    modifies sqs, ids
    ensures ids.Valid() && old(ids.issued) <= ids.issued
    ensures outcome == Sent ==> forall k :: 0 <= k < |tags| ==> tags[k] in ids.issued
    ensures BatchPublished(outcome, tags, sqs.sent, old(sqs.sent), old(ids.issued), QueueUrl(endpoint, queueName),
                           ThenAll(old(InputValues(inputs)), SqsData))
  {
    var messages := WrapAll(inputs);
    if messages.Failure? {
      return Failed(messages.error), [];
    }
    ghost var vs := Values(messages.value);
    assert old(InputValues(inputs)) == Success(vs);
    outcome, tags := PublishSQSBatch(messages.value, queueName, sqs, endpoint, ids);
    // neither the client nor the id source holds the messages
    assert Values(messages.value) == vs;
  }

  /** delayedBatchToSQS */
  method DelayedBatchToSQS(inputs: seq<Input>, queueName: string, delaySeconds: int, sqs: Client<SqsMessageData>,
                           endpoint: string, ids: IdSource)
    returns (outcome: Outcome, ghost tags: seq<string>)
    requires ids.Valid()
    modifies sqs, ids, Prebuilts(inputs)
    ensures ids.Valid() && old(ids.issued) <= ids.issued
    ensures outcome == Sent ==> forall k :: 0 <= k < |tags| ==> tags[k] in ids.issued
    ensures forall m :: m in Prebuilts(inputs) ==>
      m.delaySeconds == if m in Prebuilts(inputs[..FirstNull(inputs)]) then Some(delaySeconds) else old(m.delaySeconds)
    ensures BatchPublished(outcome, tags, sqs.sent, old(sqs.sent), old(ids.issued), QueueUrl(endpoint, queueName),
                           ThenAll(DelayAll(old(InputValues(inputs)), delaySeconds), SqsData))
  {
    var messages := WrapAllWithDelay(inputs, delaySeconds);
    if messages.Failure? {
      return Failed(messages.error), [];
    }
    outcome, tags := PublishSQSBatch(messages.value, queueName, sqs, endpoint, ids);
  }

  /** messageToSNS */
  method MessageToSNS(input: Input, topic: string, sns: Client<SnsMessageData>) returns (outcome: Outcome)
    modifies sns
    ensures Published(outcome, sns.sent, old(sns.sent), topic, Then(InputValue(input), SnsData))
  {
    var message := Wrap(input);
    if message.Failure? {
      return Failed(message.error);
    }
    outcome := PublishSNSMessage(message.value, topic, sns);
  }

  /** messagesBatchToSNS */
  method MessagesBatchToSNS(inputs: seq<Input>, topic: string, sns: Client<SnsMessageData>, ids: IdSource)
    returns (outcome: Outcome, ghost tags: seq<string>)
    requires ids.Valid()
    modifies sns, ids
    ensures ids.Valid() && old(ids.issued) <= ids.issued
    ensures outcome == Sent ==> forall k :: 0 <= k < |tags| ==> tags[k] in ids.issued
    ensures BatchPublished(outcome, tags, sns.sent, old(sns.sent), old(ids.issued), topic, ThenAll(old(InputValues(inputs)), SnsData))
  {
    var messages := WrapAll(inputs);
    if messages.Failure? {
      return Failed(messages.error), [];
    }
    ghost var vs := Values(messages.value);
    assert old(InputValues(inputs)) == Success(vs);
    outcome, tags := PublishSNSBatch(messages.value, topic, sns, ids);
    // neither the client nor the id source holds the messages
    assert Values(messages.value) == vs;
  }
}
