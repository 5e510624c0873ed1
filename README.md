# fastify-sqs-sns-publisher, modelled in Dafny

A Fastify plugin that publishes messages to Amazon SQS queues and SNS
topics. Its core is `src/index.ts`:

- `PublisherMessage` holds a body, an optional attribute record and a mutable delay.
- The message encodes its attributes into SQS or SNS message attributes, inferring each value's data type.
- `SplitArray` cuts a batch into chunks of at most ten.
- `SQSMessageData` / `SNSMessageData` project a message onto the request fields.
- Four publish functions send one message or a batch, tagging batch entries with fresh ids.
- The plugin decorates the Fastify instance with six functions. Each accepts ready messages or raw bodies, optionally sets a delay, and publishes.

Model layout:

| file | module | models |
|---|---|---|
| `json.dfy` | `Json` | The values a body or an attribute can hold. `JSON.stringify` as `Serialize`, with an independent reader `Parse`. Decimal text of integers. |
| `coercion.dfy` | `Coercion` | JavaScript's `Array.prototype.toString` and the `!isNaN(Number(text))` test, needed for the list case of the SQS chain as written. |
| `message.dfy` | `Message` | The attribute type-inference chains and the attribute loop. The class `PublisherMessage`. |
| `split.dfy` | `Split` | `SplitArray`, against a specification function `Chunks`. |
| `dispatch.dfy` | `Dispatch` | The projections and publish functions. A client is a `Client` object logging the commands it is sent. `IdSource` stands in for `randomUUID`. |
| `plugin.dfy` | `Plugin` | The six decorators: wrapping inputs, delaying, publishing. |

How the model stands in for the parts of the source it does not run:

- **The SDK clients.** A client is a `Dispatch.Client` object; `send` appends the command to its `sent` log. The proofs speak about that log.
- **Throws.** Every error is a `Result` failure:
  - a failing publish call is `Failed(error)` and sends nothing;
  - `InvalidDataType` is the `Error("Invalid data type")`;
  - `NullValue` is the TypeError raised by reading `.constructor` of `null`.
- **`randomUUID`.** It is an `IdSource` whose one promise is that every id it returns is new.
- **`sqsEndpoint`.** The value computed at `src/index.ts:236` is the parameter `endpoint`.

## Model

| member | source | states |
|---|---|---|
| Json.Serialize | src/index.ts:13 | `JSON.stringify` for these values (compact, members in order); defined by its body, its meaning stated by Json.SerializeRoundTrip and Json.ValueRoundTrip |
| Json.DecimalRoundTrip | src/index.ts:52-54 | the decimal text `toString` gives an integer reads back as that integer |
| Json.EscapeRoundTrip | src/index.ts:13 | the escaped body of a `JSON.stringify` string literal, closed by a quote, reads back as the original string, leaving the text after the quote untouched |
| Json.ValueRoundTrip | src/index.ts:13 | `JSON.stringify` text followed by a delimiter reads back as the original value, leaving the rest |
| Json.ItemsRoundTrip | src/index.ts:50 | the comma-separated items of a serialised list read back as those items, in order |
| Json.MembersRoundTrip | src/index.ts:13 | the members of a serialised object read back as those members, keys and order included |
| Json.SerializeRoundTrip | src/index.ts:13 | `Parse(JSON.stringify(v)) == v` for every value: the serialised body or list loses nothing |
| Message.SnsDataType | src/index.ts:30-42 | getSNSDataType's chain: string, list, number-coercible, else "Invalid data type"; defined by its body, stated by Message.EncodeValueMeaning and Message.EncodeValue |
| Message.SnsValue | src/index.ts:45-56 | getSNSValue's chain, the text for each case; defined by its body, stated by Message.EncodeValueMeaning |
| Message.SqsDataType | src/index.ts:74-83 | getSQSDataType's chain with lists refused (the corrected chain, see Findings); defined by its body, stated by Message.EncodeValueMeaning and Message.EncodeValueBackends |
| Message.SqsValue | src/index.ts:86-95 | getSQSValue's chain with lists refused (corrected); defined by its body, stated by Message.EncodeValueMeaning |
| Message.SqsDataTypeAsWritten | src/index.ts:74-83 | getSQSDataType exactly as written, list coercion included; defined by its body, stated by Message.SqsListAsWritten, Message.SqsListsAsWritten and Message.SqsAsWrittenOffLists |
| Message.SqsValueAsWritten | src/index.ts:86-95 | getSQSValue exactly as written; defined by its body, stated by the same three lemmas |
| Message.EncodeValue | src/index.ts:30-56 | the data-type chain and the value chain fail on exactly the same values; an attribute encodes exactly when its data type does |
| Message.EncodeValueMeaning | src/index.ts:30-56 | per kind of value: a string is "String" with itself; a number is "Number" with text reading back to it; a boolean is "Number" with "true"/"false"; a list is "String.Array" with JSON text parsing back to it on SNS and invalid on SQS; an object is invalid; `null` throws; only SNS yields "String.Array" |
| Message.EncodeValueBackends | src/index.ts:74-95 | a value SQS encodes is encoded identically by SNS; SQS accepts exactly what SNS accepts minus lists |
| Message.SqsAsWrittenOffLists | src/index.ts:74-95 | away from lists, getSQSDataType / getSQSValue as written agree with the corrected chain |
| Coercion.TrimStartSuffix | src/index.ts:78 | `Number` ignores leading white space: the trim keeps a suffix of the text |
| Coercion.TrimStartCutsSpaces | src/index.ts:78 | every character the leading trim cuts is white space or a line terminator |
| Coercion.TrimEndPrefix | src/index.ts:78 | `Number` ignores trailing white space: the trim keeps a prefix of the text |
| Coercion.TrimEndCutsSpaces | src/index.ts:78 | every character the trailing trim cuts is white space or a line terminator |
| Coercion.CommaIsNaN | src/index.ts:78 | text holding a comma anywhere is never numeric, so `!isNaN(Number(value))` fails on it |
| Message.SqsListAsWritten | src/index.ts:74-95 | as written, a list goes to SQS as "Number" with its list text exactly when it has at most one element and that text is numeric |
| Message.SqsListsAsWritten | src/index.ts:74-95 | as written, `[]` is sent as ("Number", "") and `[7]` as ("Number", "7"), `[1, 2]` is refused; the corrected chain refuses both |
| Message.EncodeRecord | src/index.ts:58-72 | the attribute loop succeeds exactly when every property's value encodes, and then has exactly the record's property names as keys |
| Message.EncodeRecordValues | src/index.ts:61-69 | the wire attribute under each property name is the encoding of that property's value |
| Message.EncodeRecordFirstFailure | src/index.ts:100-109 | a failing loop reports the error of the first property that does not encode, all earlier ones having encoded |
| Message.FailureExtends | src/index.ts:100-109 | once a prefix of the record throws, the whole loop throws the same error (later properties are never looked at) |
| Message.EncodeRecordBackends | src/index.ts:58-111 | on records: SQS success implies SNS gives the same map; SQS succeeds exactly when SNS does and no value is a list |
| Message.AttributesOf | src/index.ts:58-60 | absent without a record, otherwise the record encoding or its first error (likewise lines 97-99); defined by its body, stated through Message.EncodeRecord, Message.EncodeRecordValues and Message.EncodeRecordFirstFailure |
| Message.BodyText | src/index.ts:13 | the stored body: a string kept as is, anything else its JSON text; defined by its body, stated by Message.BodyTextRoundTrip |
| Message.BodyTextRoundTrip | src/index.ts:13 | a string body is stored verbatim; any other body is stored as JSON text that parses back to it |
| Message.PublisherMessage.constructor | src/index.ts:12-16 | the body is the text or JSON text of the content; attributes and delay are stored as given, the values unvalidated; the message is WellFormed: a record, coming from a JavaScript object, has distinct property names |
| Message.PublisherMessage.GetMessage | src/index.ts:18-20 | returns the stored body; defined by its body, read by Dispatch.SQSMessageData / SNSMessageData, whose projections keep it (Dispatch.ProjectionFields) |
| Message.PublisherMessage.GetDelaySeconds | src/index.ts:22-24 | returns the current delay; defined by its body, read by Dispatch.SQSMessageData (Dispatch.ProjectionFields, Dispatch.ProjectionDelay) |
| Message.PublisherMessage.SetDelaySeconds | src/index.ts:26-28 | the delay is overwritten (or cleared) and nothing else about the message changes |
| Message.PublisherMessage.GetAttributesSNS | src/index.ts:58-72 | absent without a record, otherwise the SNS encoding of the record or its first error; on a WellFormed message the output holds, under each property name, the SNS encoding of that property's value |
| Message.PublisherMessage.GetAttributesSQS | src/index.ts:97-111 | absent without a record, otherwise the SQS encoding of the record or its first error; on a WellFormed message the output holds, under each property name, the SQS encoding of that property's value |
| Message.PublisherMessage.GetAttributes | src/index.ts:97-111 | the `for...in` loop fills the output map property by property and equals the record encoding, stopping at the first throw; on a WellFormed message each property name maps to its own value's encoding |
| Split.SplitArray | src/index.ts:133-145 | the `reduce` (item `index` into chunk `floor(index / 10)`, started on demand) yields exactly `Chunks(messages)` |
| Split.ChunksFlatten | src/index.ts:133-145 | concatenating the chunks gives back the input, in order |
| Split.ChunksSizes | src/index.ts:133-145 | every chunk holds 1 to 10 items, and all but the last hold exactly 10 |
| Split.ChunksCount | src/index.ts:133-145 | there are ceil(n / 10) chunks, none for an empty input |
| Split.ChunksSnoc | src/index.ts:137-141 | one more item opens a new chunk exactly when the count is a multiple of 10, otherwise it extends the last chunk |
| Split.ElevenItems | src/index.ts:133-145 | eleven items give one chunk of ten and one chunk of one, in order |
| Dispatch.SqsData | src/index.ts:147-156 | the SQS fields of a message: body, SQS attributes, delay; defined by its body, stated by Dispatch.ProjectionFields, Dispatch.ProjectionDelay and Dispatch.ProjectionBackends |
| Dispatch.SnsData | src/index.ts:158-165 | the SNS fields of a message: body and SNS attributes; defined by its body, stated by the same three lemmas |
| Dispatch.QueueUrl | src/index.ts:171 | `${endpoint}/${queueName}`, also the batch QueueUrl at line 200; defined by its body, used as the destination in Dispatch.PublishSQSMessage and Dispatch.PublishSQSBatch |
| Dispatch.ProjectionFields | src/index.ts:147-165 | a projection fails exactly when the attributes do; it keeps the body, SQS keeps the delay, and the attributes are absent exactly when the message has none |
| Dispatch.ProjectionDelay | src/index.ts:147-165 | the delay reaches the SQS projection unchanged and has no effect on the SNS projection |
| Dispatch.ProjectionBackends | src/index.ts:147-165 | a message SQS accepts is accepted by SNS with the same body and attributes; SNS accepts more only through list attributes |
| Dispatch.SQSMessageData | src/index.ts:147-156 | the method's result is the SQS projection of the message's current state |
| Dispatch.SNSMessageData | src/index.ts:158-165 | the method's result is the SNS projection of the message's current state |
| Dispatch.PublishSQSMessage | src/index.ts:167-174 | one SendMessageCommand with the projection is sent to `${endpoint}/${queueName}`; or nothing is sent and the attribute error is reported |
| Dispatch.PublishSNSMessage | src/index.ts:176-183 | one PublishCommand with the projection is sent to the topic; or nothing is sent and the attribute error is reported |
| Dispatch.Collect | src/index.ts:186-192 | mapping the projection over the messages succeeds exactly when every message projects, giving the projections in order |
| Dispatch.CollectFirstFailure | src/index.ts:186-192 | a failing map reports the error of the first message that does not project |
| Dispatch.CollectFailsAt | src/index.ts:186-192 | the map fails with the error of message `i` when `i` is the first message that does not project |
| Dispatch.CollectFailureExtends | src/index.ts:186-192 | once a prefix fails, the whole map fails with the same error |
| Dispatch.IdSource.RandomUuid | src/index.ts:189 | the id returned has never been returned before, and is recorded as issued |
| Dispatch.Client.Send | src/index.ts:198 | `send` adds exactly the given command to what the client was sent |
| Dispatch.SqsEntry | src/index.ts:186-192 | the map callback projects first, then draws a fresh id, which is recorded as issued and is the only change to the issued set; no id is drawn for a message that fails |
| Dispatch.SqsEntries | src/index.ts:186-192 | the map yields every message's projection tagged with pairwise distinct new ids, in order, all recorded as issued; or the first error; the issued set only grows |
| Dispatch.SnsEntry | src/index.ts:209-215 | as SqsEntry, with the SNS projection |
| Dispatch.SnsEntries | src/index.ts:209-215 | as SqsEntries, with the SNS projection |
| Dispatch.EntriesOfBatches | src/index.ts:197-202 | the entries of the batch commands, read in order, are the concatenated chunks |
| Dispatch.SendBatches | src/index.ts:197-202 | the loop sends one batch command per chunk, in chunk order, to the one destination |
| Dispatch.BatchLaws | src/index.ts:185-205 | a batch publish sends ceil(n / 10) batch commands to one destination, each 1..10 entries and all but the last 10; their entries in order are exactly the tagged projections, and no id occurs twice |
| Dispatch.PublishSQSBatch | src/index.ts:185-205 | nothing is sent and the first message's error is reported when a projection fails; otherwise the tagged entries, chunked, are sent as SendMessageBatchCommands to the queue URL, with fresh distinct ids that are then recorded as issued, so no later call reuses them; the issued set only grows |
| Dispatch.PublishSNSBatch | src/index.ts:208-228 | as PublishSQSBatch, as PublishBatchCommands to the topic |
| Plugin.FirstNull | src/index.ts:249 | the position of the first raw `null`, where a wrapping map throws |
| Plugin.InputValuesShape | src/index.ts:249 | wrapping a sequence of inputs fails exactly when it holds a raw `null`; otherwise it stands for one message per input, in order |
| Plugin.DelayedProjection | src/index.ts:252-259 | delaying a batch before its SQS projection changes only every entry's delay: the same batches fail, with the same error |
| Plugin.Wrap | src/index.ts:240 | a ready message is used as it is; a raw body becomes a new message without attributes or delay; a raw `null` throws |
| Plugin.WrapAll | src/index.ts:249 | the map wraps every input in order, ready messages by identity, or throws at a raw `null` |
| Plugin.WrapAllWithDelay | src/index.ts:253-257 | every wrapped message gets the delay; when a raw `null` aborts the map, exactly the ready messages before it have been changed |
| Plugin.MessageToSQS | src/index.ts:239-242 | what is sent is the SQS projection of the wrapped input, to the queue URL; a throw sends nothing |
| Plugin.DelayedMessageToSQS | src/index.ts:243-247 | the delay is set on the message itself, a ready one included, and the delayed message is published |
| Plugin.MessagesBatchToSQS | src/index.ts:248-251 | the wrapped inputs are batch-published to the queue URL; a raw `null` or an attribute error sends nothing; on success the batch's ids are fresh and recorded as issued, and the issued set only grows |
| Plugin.DelayedBatchToSQS | src/index.ts:252-259 | the delayed inputs are batch-published; ready messages up to the first raw `null` keep the new delay even when the call fails; on success the batch's ids are fresh and recorded as issued, and the issued set only grows |
| Plugin.MessageToSNS | src/index.ts:260-263 | what is sent is the SNS projection of the wrapped input, to the topic |
| Plugin.MessagesBatchToSNS | src/index.ts:265-268 | the wrapped inputs are batch-published to the topic; on success the batch's ids are fresh and recorded as issued, and the issued set only grows |

## Left out

- The Fastify wiring (`fastify-plugin`, `decorate`, `done`, the instance's `sqs` and `sns` properties) and client construction (src/index.ts:230-238) are not modelled. The decorators take the clients and the endpoint as parameters.
- What `send` does on the network, its responses and the clients' own errors are not modelled. The model states which commands were handed to `send`, in order.
- Promises are not modelled. `publishSQSBatch` / `publishSNSBatch` are `async`, so a throw inside them becomes a rejected promise, while `publishSQSMessage` throws synchronously. Both are `Failed` here. `Promise.all`'s concurrency and its rejection on the first failing send are out: the commands are issued in loop order, as the source issues them.
- Dispatch.IdSource.RandomUuid: returns decimal counter texts rather than UUIDs. The publish functions depend only on the ids being new, which is the property stated.
- Numbers are integers, and `JNum` stands for safe integers (|n| <= 2^53). Floating point, `NaN`, `Infinity` and non-integer delays are not modelled. Past 2^53 a JavaScript number is inexact, and from 1e21 on `toString` and `JSON.stringify` write exponent form (`1e+21`) where `Json.Decimal` writes every digit; such values are outside the model.
- An attribute or body value is a JSON value. `undefined`, functions, symbols, class instances, `String` objects and cyclic structures are not modelled. `JSON.stringify` throwing on cycles is therefore out too.
- Attribute records are sequences of own properties in enumeration order, so the `hasOwnProperty` filter always passes. Inherited enumerable properties are not modelled, and neither is the engine ordering integer-like keys first: the sequence is taken to be the enumeration order.
- Strings are sequences of Unicode scalar values. `JSON.stringify`'s escaping of lone surrogates does not arise.
- `SplitArray`'s `maxItems` parameter is fixed at its default, 10, which every caller uses.
- The attribute record is stored by reference (src/index.ts:14) and read only when the attributes are encoded, so a caller mutating the object after construction changes what is published. The model keeps the record as a value fixed at construction.
- Message.PublisherMessage.constructor: requires a non-`null` body. The plugin's raw `null` (a TypeError in the source) is modelled in Plugin.Wrap instead.
- Message.EncodeValueMeaning: states the corrected SQS chain, which refuses every list. As written, `getSQSDataType` sends `[]`, and a one-element list with numeric text, as "Number" (see Findings).
- Message.SqsDataType: the corrected chain lives here and in Message.SqsValue, so it is used by every SQS member downstream: Message.EncodeValue and Message.EncodeRecord on SQS, Message.PublisherMessage.GetAttributesSQS, Dispatch.SqsData, Dispatch.SQSMessageData, Dispatch.PublishSQSMessage, Dispatch.PublishSQSBatch and the four SQS decorators all refuse `[]` and `[7]` where the source sends "Number".

## Findings

| source | as written | input that shows it | evidently intended | confidence | as-written member | corrected member |
|---|---|---|---|---|---|---|
| src/index.ts:74-95 | getSQSDataType has no list case, so a list falls through to `!isNaN(Number(value))`, which holds when the list's comma-joined text is numeric | the attribute `[]` (`Number("")` is 0) is sent as DataType "Number" with StringValue ""; `[7]` as "Number" with "7" | every list is refused on SQS with "Invalid data type", as for `[1, 2]` in test/unit/sqs.ts:115-123 | medium, not executed | Message.SqsListsAsWritten | Message.EncodeValueMeaning |
