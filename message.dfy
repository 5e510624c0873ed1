/**
 * `PublisherMessage` (src/index.ts): one outbound message, its body, its
 * attribute record and its mutable delivery delay, and the two wire
 * encodings of its attributes, one for SQS and one for SNS.
 */
module Message {
  import opened Wrappers
  import opened Json
  import opened Coercion

  /** The two messaging backends; each has its own attribute encoding. */
  datatype Backend = Sqs | Sns

  datatype Error =
    | InvalidDataType  // `new Error("Invalid data type")`
    | NullValue        // the TypeError raised by reading `.constructor` of `null`

  /** `{DataType, StringValue}`, the wire form of one attribute. */
  datatype MessageAttributeValue = MessageAttributeValue(dataType: string, stringValue: string)

  /** An attribute record: its own properties in enumeration order. */
  type Record = seq<(string, Json)>

  /** What the publish functions send for an attribute record: absent, or one wire attribute per name. */
  type AttributeMap = Option<map<string, MessageAttributeValue>>

  // ---------------------------------------------------------------------
  // Type inference for one attribute value
  // ---------------------------------------------------------------------

  /** `value.constructor === String` */
  predicate IsString(v: Json) { v.JStr? }

  /** `value.constructor === Array` */
  predicate IsArray(v: Json) { v.JArr? }

  /**
   * `!isNaN(Number(value))` for a value that is neither a string nor null:
   * numbers do, booleans do (to 0 and 1), plain objects do not. Lists are
   * treated as not coercing: SNS has caught them before this test, and for
   * SQS this is the corrected chain (CoercesToNumberAsWritten keeps the
   * list case as written).
   */
  predicate CoercesToNumber(v: Json) { v.JNum? || v.JBool? }

  /** `value.toString()` for a value that coerces to a number. */
  function NumberText(v: Json): string
    requires CoercesToNumber(v)
  {
    if v.JNum? then Decimal(v.n) else if v.b then "true" else "false"
  }

  /** getSNSDataType: string, then array, then number, otherwise an error. */
  function SnsDataType(v: Json): Result<string, Error>
  {
    if v.JNull? then Failure(NullValue)
    else if IsString(v) then Success("String")
    else if IsArray(v) then Success("String.Array")
    else if CoercesToNumber(v) then Success("Number")
    else Failure(InvalidDataType)
  }

  /** getSNSValue: the same chain, giving the text that goes with each type. */
  function SnsValue(v: Json): Result<string, Error>
  {
    if v.JNull? then Failure(NullValue)
    else if IsString(v) then Success(v.s)
    else if IsArray(v) then Success(Serialize(v))
    else if CoercesToNumber(v) then Success(NumberText(v))
    else Failure(InvalidDataType)
  }

  /** getSQSDataType: string, then number, otherwise an error; no array case. */
  function SqsDataType(v: Json): Result<string, Error>
  {
    if v.JNull? then Failure(NullValue)
    else if IsString(v) then Success("String")
    else if CoercesToNumber(v) then Success("Number")
    else Failure(InvalidDataType)
  }

  /** getSQSValue */
  function SqsValue(v: Json): Result<string, Error>
  {
    if v.JNull? then Failure(NullValue)
    else if IsString(v) then Success(v.s)
    else if CoercesToNumber(v) then Success(NumberText(v))
    else Failure(InvalidDataType)
  }

  // ---------------------------------------------------------------------
  // getSQSDataType / getSQSValue exactly as written, lists included
  // ---------------------------------------------------------------------

  /** `!isNaN(Number(value))` as written: a list coerces through its text. */
  predicate CoercesToNumberAsWritten(v: Json)
  {
    v.JNum? || v.JBool? || (v.JArr? && IsNumericText(ListText(v.items)))
  }

  function SqsDataTypeAsWritten(v: Json): Result<string, Error>
  {
    if v.JNull? then Failure(NullValue)
    else if IsString(v) then Success("String")
    else if CoercesToNumberAsWritten(v) then Success("Number")
    else Failure(InvalidDataType)
  }

  function SqsValueAsWritten(v: Json): Result<string, Error>
  {
    if v.JNull? then Failure(NullValue)
    else if IsString(v) then Success(v.s)
    else if CoercesToNumberAsWritten(v) then Success(if v.JArr? then ListText(v.items) else NumberText(v))
    else Failure(InvalidDataType)
  }

  /** Away from lists the chains as written are the corrected SqsDataType and SqsValue. */
  lemma SqsAsWrittenOffLists(v: Json)
    requires !v.JArr?
    ensures SqsDataTypeAsWritten(v) == SqsDataType(v)
    ensures SqsValueAsWritten(v) == SqsValue(v)
  {
  }

  /** As written, a list goes to SQS as a number exactly when it has at most one element and its text is numeric. */
  lemma SqsListAsWritten(items: seq<Json>)
    ensures SqsDataTypeAsWritten(JArr(items)).Success? <==> |items| <= 1 && IsNumericText(ListText(items))
    ensures SqsDataTypeAsWritten(JArr(items)).Success? ==>
      SqsDataTypeAsWritten(JArr(items)) == Success("Number") && SqsValueAsWritten(JArr(items)) == Success(ListText(items))
  {
    if |items| >= 2 {
      ListTextComma(items);
      CommaIsNaN(ListText(items), |ElementText(items[0])|);
    }
  }

  /**
   * As written, `[]` and `[7]` are sent to SQS as numbers (with the texts
   * "" and "7"), while `[1, 2]` is refused; the corrected chain refuses
   * every list.
   */
  lemma SqsListsAsWritten()
    ensures SqsDataTypeAsWritten(JArr([])) == Success("Number") && SqsValueAsWritten(JArr([])) == Success("")
    ensures SqsDataTypeAsWritten(JArr([JNum(7)])) == Success("Number")
    ensures SqsValueAsWritten(JArr([JNum(7)])) == Success("7")
    ensures SqsDataTypeAsWritten(JArr([JNum(1), JNum(2)])) == Failure(InvalidDataType)
    ensures SqsDataType(JArr([])) == Failure(InvalidDataType) && SqsDataType(JArr([JNum(7)])) == Failure(InvalidDataType)
  {
    SqsListAsWritten([JNum(1), JNum(2)]);
    NumericTexts();
    assert ListText([JNum(7)]) == Decimal(7) == "7";
  }

  lemma NumericTexts()
    ensures IsNumericText("") && IsNumericText("7")
  {
    assert TrimStart("") == "" && TrimEnd("") == "";
    assert !IsSpace('7');
    assert TrimStart("7") == "7" && TrimEnd("7") == "7";
    assert LeadingDigits("7") == 1;
    assert "7" != "Infinity" by { assert |"7"| != |"Infinity"|; }
    assert "7"[1..] == "";
    assert UnsignedDecimalLiteral("7");
  }

  function DataTypeOf(b: Backend, v: Json): Result<string, Error>
  {
    if b == Sqs then SqsDataType(v) else SnsDataType(v)
  }

  function ValueOf(b: Backend, v: Json): Result<string, Error>
  {
    if b == Sqs then SqsValue(v) else SnsValue(v)
  }

  /**
   * One entry of the attribute loop: the data type is computed first (and
   * its error wins), then the string value.
   */
  function EncodeValue(b: Backend, v: Json): (r: Result<MessageAttributeValue, Error>)
    // the data-type chain and the value chain fail on exactly the same values
    ensures DataTypeOf(b, v).Success? <==> ValueOf(b, v).Success?
    ensures r.Success? <==> DataTypeOf(b, v).Success?
  {
    match DataTypeOf(b, v)
    case Failure(e) => Failure(e)
    case Success(t) =>
      match ValueOf(b, v)
      case Failure(e) => Failure(e)
      case Success(text) => Success(MessageAttributeValue(t, text))
  }

  /** What each kind of value is sent as, on either backend. */
  lemma EncodeValueMeaning(b: Backend, v: Json)
    // a string is sent unchanged, whatever it looks like
    ensures v.JStr? ==> EncodeValue(b, v) == Success(MessageAttributeValue("String", v.s))
    // an integer goes out as "Number" with decimal text that reads back as the same integer
    ensures v.JNum? ==> && EncodeValue(b, v).Success? && EncodeValue(b, v).value.dataType == "Number"
                        && ParseInt(EncodeValue(b, v).value.stringValue) == Some(v.n)
    ensures v.JBool? ==> EncodeValue(b, v) == Success(MessageAttributeValue("Number", if v.b then "true" else "false"))
    // a list is "String.Array" with its JSON text on SNS, and invalid on SQS
    ensures v.JArr? && b == Sns ==> && EncodeValue(b, v).Success? && EncodeValue(b, v).value.dataType == "String.Array"
                                    && Parse(EncodeValue(b, v).value.stringValue) == Some(v)
    ensures v.JArr? && b == Sqs ==> EncodeValue(b, v) == Failure(InvalidDataType)
    ensures v.JObj? ==> EncodeValue(b, v) == Failure(InvalidDataType)
    ensures v.JNull? ==> EncodeValue(b, v) == Failure(NullValue)
    // only SNS ever produces "String.Array"
    ensures EncodeValue(b, v).Success? && EncodeValue(b, v).value.dataType == "String.Array" ==> b == Sns
  {
    TextRoundTrips(v);
  }

  lemma TextRoundTrips(v: Json)
    ensures v.JNum? ==> ParseInt(Decimal(v.n)) == Some(v.n)
    ensures Parse(Serialize(v)) == Some(v)
  {
    if v.JNum? { DecimalRoundTrip(v.n); }
    SerializeRoundTrip(v);
  }

  // ---------------------------------------------------------------------
  // Attribute records
  // ---------------------------------------------------------------------

  function Keys(attrs: Record): set<string>
  {
    set i | 0 <= i < |attrs| :: attrs[i].0
  }

  /** A JavaScript object never has the same own property twice. */
  predicate DistinctKeys(attrs: Record)
  {
    forall i, j :: 0 <= i < j < |attrs| ==> attrs[i].0 != attrs[j].0
  }

  /**
   * The `for...in` loop of getAttributesSNS / getAttributesSQS: each
   * property in turn is encoded and stored under its name; the first
   * property that cannot be encoded aborts the whole call.
   */
  function EncodeRecord(b: Backend, attrs: Record): (r: Result<map<string, MessageAttributeValue>, Error>)
    ensures r.Success? <==> forall i :: 0 <= i < |attrs| ==> EncodeValue(b, attrs[i].1).Success?
    ensures r.Success? ==> r.value.Keys == Keys(attrs)
  {
    if attrs == [] then Success(map[])
    else
      var last := attrs[|attrs| - 1];
      var prefix := attrs[..|attrs| - 1];
      assert forall i :: 0 <= i < |prefix| ==> prefix[i] == attrs[i];
      assert Keys(attrs) == Keys(prefix) + {last.0};
      match EncodeRecord(b, prefix)
      case Failure(e) => Failure(e)
      case Success(m) =>
        match EncodeValue(b, last.1)
        case Failure(e) => Failure(e)
        case Success(a) => Success(m[last.0 := a])
  }

  /** EncodeRecord on one more property of a record. */
  lemma EncodeRecordSnoc(b: Backend, attrs: Record, i: nat)
    requires i < |attrs|
    ensures EncodeRecord(b, attrs[..i + 1]) ==
      match EncodeRecord(b, attrs[..i])
      case Failure(e) => Failure(e)
      case Success(m) =>
        match EncodeValue(b, attrs[i].1)
        case Failure(e) => Failure(e)
        case Success(a) => Success(m[attrs[i].0 := a])
  {
    assert attrs[..i + 1][..i] == attrs[..i];
  }

  /** Every property is encoded on its own: the wire attribute under a name is the encoding of that name's value. */
  lemma EncodeRecordValues(b: Backend, attrs: Record)
    requires DistinctKeys(attrs)
    requires EncodeRecord(b, attrs).Success?
    ensures forall i :: 0 <= i < |attrs| ==>
      EncodeRecord(b, attrs).value[attrs[i].0] == EncodeValue(b, attrs[i].1).value
  {
    forall i | 0 <= i < |attrs|
      ensures EncodeRecord(b, attrs).value[attrs[i].0] == EncodeValue(b, attrs[i].1).value
    {
      EncodeRecordAt(b, attrs, i);
    }
  }

  /** EncodeRecordValues for the property at one index. */
  lemma {:induction false} EncodeRecordAt(b: Backend, attrs: Record, i: nat)
    requires DistinctKeys(attrs)
    requires EncodeRecord(b, attrs).Success? && i < |attrs|
    ensures EncodeRecord(b, attrs).value[attrs[i].0] == EncodeValue(b, attrs[i].1).value
    decreases |attrs|
  {
    var n := |attrs| - 1;
    var prefix := attrs[..n];
    EncodeRecordSnoc(b, attrs, n);
    assert attrs[..n + 1] == attrs;
    if i < n {
      assert prefix[i] == attrs[i];
      DistinctKeysPrefix(attrs, n);
      EncodeRecordAt(b, prefix, i);
      assert attrs[i].0 != attrs[n].0;
    }
  }

  lemma DistinctKeysPrefix(attrs: Record, n: nat)
    requires DistinctKeys(attrs) && n <= |attrs|
    ensures DistinctKeys(attrs[..n])
  {
    forall k, l | 0 <= k < l < n ensures attrs[..n][k].0 != attrs[..n][l].0 {
      assert attrs[..n][k] == attrs[k] && attrs[..n][l] == attrs[l];
    }
  }

  /** A failing call reports the error of the first property that cannot be encoded. */
  lemma {:induction false} EncodeRecordFirstFailure(b: Backend, attrs: Record)
    requires EncodeRecord(b, attrs).Failure?
    ensures exists j ::
              && 0 <= j < |attrs|
              && EncodeValue(b, attrs[j].1) == Failure(EncodeRecord(b, attrs).error)
              && (forall i :: 0 <= i < j ==> EncodeValue(b, attrs[i].1).Success?)
  {
    var prefix := attrs[..|attrs| - 1];
    assert forall i :: 0 <= i < |prefix| ==> prefix[i] == attrs[i];
    if EncodeRecord(b, prefix).Failure? {
      EncodeRecordFirstFailure(b, prefix);
      var j :| 0 <= j < |prefix|
        && EncodeValue(b, prefix[j].1) == Failure(EncodeRecord(b, prefix).error)
        && forall i :: 0 <= i < j ==> EncodeValue(b, prefix[i].1).Success?;
      assert EncodeValue(b, attrs[j].1) == Failure(EncodeRecord(b, attrs).error);
    } else {
      var j := |attrs| - 1;
      assert forall i :: 0 <= i < j ==> EncodeValue(b, attrs[i].1).Success?;
    }
  }

  /**
   * The SQS chain is the SNS chain without its list case: a value SQS can
   * encode is encoded the same way by SNS, and the values SNS encodes but
   * SQS rejects are exactly the lists.
   */
  lemma EncodeValueBackends(v: Json)
    ensures EncodeValue(Sqs, v).Success? ==> EncodeValue(Sns, v) == EncodeValue(Sqs, v)
    ensures EncodeValue(Sqs, v).Success? <==> EncodeValue(Sns, v).Success? && !v.JArr?
  {
  }

  /** A list anywhere in a record. */
  predicate HasList(attrs: Record)
  {
    exists i :: 0 <= i < |attrs| && attrs[i].1.JArr?
  }

  /** EncodeValueBackends for whole records. */
  lemma {:induction false} EncodeRecordBackends(attrs: Record)
    ensures EncodeRecord(Sqs, attrs).Success? ==> EncodeRecord(Sns, attrs) == EncodeRecord(Sqs, attrs)
    ensures EncodeRecord(Sqs, attrs).Success? <==> EncodeRecord(Sns, attrs).Success? && !HasList(attrs)
  {
    if attrs != [] {
      var n := |attrs| - 1;
      var prefix := attrs[..n];
      assert forall i :: 0 <= i < n ==> prefix[i] == attrs[i];
      EncodeRecordSnoc(Sqs, attrs, n);
      EncodeRecordSnoc(Sns, attrs, n);
      assert attrs[..n + 1] == attrs;
      EncodeRecordBackends(prefix);
      EncodeValueBackends(attrs[n].1);
      HasListSnoc(attrs);
    }
  }

  lemma HasListSnoc(attrs: Record)
    requires attrs != []
    ensures HasList(attrs) <==> HasList(attrs[..|attrs| - 1]) || attrs[|attrs| - 1].1.JArr?
  {
    var prefix := attrs[..|attrs| - 1];
    if HasList(attrs) {
      var i :| 0 <= i < |attrs| && attrs[i].1.JArr?;
      if i < |prefix| { assert prefix[i] == attrs[i]; }
    }
    if HasList(prefix) {
      var i :| 0 <= i < |prefix| && prefix[i].1.JArr?;
      assert attrs[i] == prefix[i];
    }
  }

  /** getAttributesSNS / getAttributesSQS: absent when no record was supplied. */
  function AttributesOf(b: Backend, attrs: Option<Record>): Result<AttributeMap, Error>
  {
    match attrs
    case None => Success(None)
    case Some(r) =>
      match EncodeRecord(b, r)
      case Failure(e) => Failure(e)
      case Success(m) => Success(Some(m))
  }

  // ---------------------------------------------------------------------
  // The message
  // ---------------------------------------------------------------------

  /** The stored body: a string is kept verbatim, anything else is replaced by its JSON text. */
  function BodyText(content: Json): string
    requires !content.JNull?
  {
    if content.JStr? then content.s else Serialize(content)
  }

  /** Either way the original body can be read back from what is stored. */
  lemma BodyTextRoundTrip(content: Json)
    requires !content.JNull?
    ensures content.JStr? ==> BodyText(content) == content.s
    ensures !content.JStr? ==> Parse(BodyText(content)) == Some(content)
  {
    SerializeRoundTrip(content);
  }

  /** A snapshot of a message's state. */
  datatype MessageValue = MessageValue(body: string, attributes: Option<Record>, delay: Option<int>)

  /**
   * A message. Its attribute record comes from a JavaScript object, so its
   * property names are distinct: the constructor requires that and
   * establishes WellFormed(), which is what lets GetAttributes promise
   * each name's own encoding (EncodeRecordValues).
   */
  class PublisherMessage {
    const message: string
    const attributes: Option<Record>
    var delaySeconds: Option<int>

    /** `new PublisherMessage(message, attributes?, delaySeconds?)`; its values are not checked until the attributes are read. */
    constructor (content: Json, attributes: Option<Record>, delaySeconds: Option<int>)
      requires !content.JNull?
      requires attributes.Some? ==> DistinctKeys(attributes.value)
      ensures WellFormed()
      ensures message == BodyText(content)
      ensures this.attributes == attributes && this.delaySeconds == delaySeconds
    {
      message := BodyText(content);
      this.attributes := attributes;
      this.delaySeconds := delaySeconds;
    }

    /** The record's property names are distinct (the fields it reads are constants). */
    predicate WellFormed()
    {
      attributes.Some? ==> DistinctKeys(attributes.value)
    }

    function Value(): MessageValue
      reads this
    {
      MessageValue(message, attributes, delaySeconds)
    }

    function GetMessage(): string
    {
      message
    }

    function GetDelaySeconds(): Option<int>
      reads this
    {
      delaySeconds
    }

    /** Overwrites (or with `None`, clears) the delay; body and attributes stay as they were. */
    method SetDelaySeconds(seconds: Option<int>)
      modifies this
      ensures delaySeconds == seconds
      ensures Value() == old(Value()).(delay := seconds)
    {
      delaySeconds := seconds;
    }

    method GetAttributesSNS() returns (r: Result<AttributeMap, Error>)
      ensures r == AttributesOf(Sns, attributes)
      ensures WellFormed() && r.Success? && r.value.Some? ==>
        forall i :: 0 <= i < |attributes.value| ==>
          r.value.value[attributes.value[i].0] == EncodeValue(Sns, attributes.value[i].1).value
    {
      r := GetAttributes(Sns);
    }

    method GetAttributesSQS() returns (r: Result<AttributeMap, Error>)
      ensures r == AttributesOf(Sqs, attributes)
      ensures WellFormed() && r.Success? && r.value.Some? ==>
        forall i :: 0 <= i < |attributes.value| ==>
          r.value.value[attributes.value[i].0] == EncodeValue(Sqs, attributes.value[i].1).value
    {
      r := GetAttributes(Sqs);
    }

    /** The loop both getters run, filling the output map one property at a time. */
    method GetAttributes(b: Backend) returns (r: Result<AttributeMap, Error>)
      ensures r == AttributesOf(b, attributes)
      // every property is sent under its own name with its own encoding
      ensures WellFormed() && r.Success? && r.value.Some? ==>
        forall i :: 0 <= i < |attributes.value| ==>
          r.value.value[attributes.value[i].0] == EncodeValue(b, attributes.value[i].1).value
    {
      if attributes.None? {
        return Success(None);
      }
      var attrs := attributes.value;
      var out: map<string, MessageAttributeValue> := map[];
      var i := 0;
      while i < |attrs|
        invariant 0 <= i <= |attrs|
        invariant EncodeRecord(b, attrs[..i]) == Success(out)
      {
        EncodeRecordSnoc(b, attrs, i);
        var property := attrs[i].0;
        var value := attrs[i].1;
        var dataType := DataTypeOf(b, value);
        if dataType.Failure? {
          assert EncodeValue(b, value) == Failure(dataType.error);
          FailureExtends(b, attrs, i + 1);
          return Failure(dataType.error);
        }
        var stringValue := ValueOf(b, value);
        // the value chain's own throw cannot fire once the data-type chain succeeded
        assert stringValue.Success?;
        assert EncodeValue(b, value) == Success(MessageAttributeValue(dataType.value, stringValue.value));
        out := out[property := MessageAttributeValue(dataType.value, stringValue.value)];
        i := i + 1;
      }
      assert attrs[..i] == attrs;
      if WellFormed() {
        EncodeRecordValues(b, attrs);
      }
      r := Success(Some(out));
    }
  }

  /** Once a prefix of the record fails, the whole record fails with the same error. */
  lemma {:induction false} FailureExtends(b: Backend, attrs: Record, k: nat)
    requires k <= |attrs|
    requires EncodeRecord(b, attrs[..k]).Failure?
    ensures EncodeRecord(b, attrs) == EncodeRecord(b, attrs[..k])
    decreases |attrs| - k
  {
    if k < |attrs| {
      assert attrs[..k + 1][..k] == attrs[..k];
      FailureExtends(b, attrs, k + 1);
    } else {
      assert attrs[..k] == attrs;
    }
  }
}
