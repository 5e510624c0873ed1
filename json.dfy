/**
 * JSON text, as `JSON.stringify` produces it for the values the publisher
 * serialises: message bodies that are not already strings and the list
 * values of SNS attributes. `Parse` is an independent reader of that text;
 * the round-trip lemma `SerializeRoundTrip` is what ties the two together.
 */
module Json {
  import opened Wrappers

  /** A JSON-representable JavaScript value. Numbers are integers. */
  datatype Json =
    | JNull
    | JBool(b: bool)
    | JNum(n: int)
    | JStr(s: string)
    | JArr(items: seq<Json>)
    | JObj(members: seq<Member>)

  /** One own property of an object, in enumeration order. */
  datatype Member = Member(key: string, value: Json)

  // ---------------------------------------------------------------------
  // Decimal text of integers (Number.prototype.toString, JSON numbers)
  // ---------------------------------------------------------------------

  predicate IsDigit(c: char) { '0' <= c <= '9' }

  function DigitChar(d: int): (c: char)
    requires 0 <= d < 10
    ensures IsDigit(c)
  {
    ('0' as int + d) as char
  }

  /** The digits of a natural number, most significant first, no leading zeros. */
  function NatText(n: nat): (r: string)
    ensures |r| > 0
    ensures forall i :: 0 <= i < |r| ==> IsDigit(r[i])
  {
    if n < 10 then [DigitChar(n)] else NatText(n / 10) + [DigitChar(n % 10)]
  }

  /** Decimal text of an integer: an optional minus sign, then its digits. */
  function Decimal(n: int): string
  {
    if n < 0 then "-" + NatText(-n) else NatText(n)
  }

  /** The value of a string of digits. */
  function DigitsValue(ds: string): nat
    requires forall i :: 0 <= i < |ds| ==> IsDigit(ds[i])
  {
    if ds == [] then 0
    else
      assert IsDigit(ds[|ds| - 1]);
      DigitsValue(ds[..|ds| - 1]) * 10 + (ds[|ds| - 1] as int - '0' as int)
  }

  /** How many digits `s` starts with. */
  function LeadingDigits(s: string): (k: nat)
    ensures k <= |s|
    ensures forall i :: 0 <= i < k ==> IsDigit(s[i])
  {
    if s != [] && IsDigit(s[0]) then 1 + LeadingDigits(s[1..]) else 0
  }

  /** Reads a maximal run of digits. */
  function ParseDigits(t: string): (r: Option<(nat, string)>)
    ensures r.Some? ==> |r.value.1| < |t|
  {
    var k := LeadingDigits(t);
    if k == 0 then None else Some((DigitsValue(t[..k]), t[k..]))
  }

  /** Reads an optional minus sign and a maximal run of digits. */
  function ParseNumber(s: string): (r: Option<(int, string)>)
    ensures r.Some? ==> |r.value.1| < |s|
  {
    if |s| > 0 && s[0] == '-' then
      match ParseDigits(s[1..])
      case None => None
      case Some((v, rest)) => Some((-(v as int), rest))
    else
      match ParseDigits(s)
      case None => None
      case Some((v, rest)) => Some((v as int, rest))
  }

  /** Reads a whole string as decimal integer text. */
  function ParseInt(s: string): Option<int>
  {
    match ParseNumber(s)
    case Some((n, rest)) => if rest == [] then Some(n) else None
    case None => None
  }

  lemma {:induction false} NatTextValue(n: nat)
    ensures DigitsValue(NatText(n)) == n
  {
    if n >= 10 {
      var p := NatText(n / 10);
      assert NatText(n) == p + [DigitChar(n % 10)];
      assert NatText(n)[..|NatText(n)| - 1] == p;
      NatTextValue(n / 10);
    }
  }

  lemma {:induction false} LeadingDigitsOfDigits(ds: string, rest: string)
    requires forall i :: 0 <= i < |ds| ==> IsDigit(ds[i])
    requires rest == [] || !IsDigit(rest[0])
    ensures LeadingDigits(ds + rest) == |ds|
  {
    if ds != [] {
      assert (ds + rest)[1..] == ds[1..] + rest;
      LeadingDigitsOfDigits(ds[1..], rest);
    } else {
      assert ds + rest == rest;
    }
  }

  /** A run of digits followed by a non-digit is read as exactly that run. */
  lemma ReadDigits(ds: string, rest: string)
    requires ds != [] && forall i :: 0 <= i < |ds| ==> IsDigit(ds[i])
    requires rest == [] || !IsDigit(rest[0])
    ensures ParseDigits(ds + rest) == Some((DigitsValue(ds), rest))
  {
    LeadingDigitsOfDigits(ds, rest);
    assert (ds + rest)[..|ds|] == ds;
    assert (ds + rest)[|ds|..] == rest;
  }

  /** Decimal text is read back as the number it was written from. */
  lemma NumberRoundTrip(n: int, rest: string)
    requires rest == [] || !IsDigit(rest[0])
    ensures ParseNumber(Decimal(n) + rest) == Some((n, rest))
  {
    var ds := NatText(if n < 0 then -n else n);
    NatTextValue(if n < 0 then -n else n);
    ReadDigits(ds, rest);
    if n < 0 {
      Associate("-", ds, rest);
      assert ("-" + (ds + rest))[1..] == ds + rest;
    } else {
      assert IsDigit((ds + rest)[0]);
    }
  }

  lemma DecimalRoundTrip(n: int)
    ensures ParseInt(Decimal(n)) == Some(n)
  {
    NumberRoundTrip(n, []);
    assert Decimal(n) + [] == Decimal(n);
  }

  // ---------------------------------------------------------------------
  // String literals
  // ---------------------------------------------------------------------

  function HexDigit(d: int): (c: char)
    requires 0 <= d < 16
  {
    if d < 10 then ('0' as int + d) as char else ('a' as int + d - 10) as char
  }

  function HexValue(c: char): (r: Option<int>)
    ensures r.Some? ==> 0 <= r.value < 16
  {
    if '0' <= c <= '9' then Some(c as int - '0' as int)
    else if 'a' <= c <= 'f' then Some(c as int - 'a' as int + 10)
    else if 'A' <= c <= 'F' then Some(c as int - 'A' as int + 10)
    else None
  }

  /**
   * How `JSON.stringify` writes one character inside a string literal:
   * quote and backslash are escaped, control characters get their short
   * escape or a lower-case `\u00XX`, everything else is written as is.
   */
  function EscapeChar(c: char): string
  {
    if c == '"' then "\\\""
    else if c == '\\' then "\\\\"
    else if c as int == 0x08 then "\\b"
    else if c as int == 0x0C then "\\f"
    else if c == '\n' then "\\n"
    else if c == '\r' then "\\r"
    else if c == '\t' then "\\t"
    else if c as int < 0x20 then "\\u00" + [HexDigit(c as int / 16), HexDigit(c as int % 16)]
    else [c]
  }

  function Escape(s: string): string
  {
    if s == [] then [] else EscapeChar(s[0]) + Escape(s[1..])
  }

  /** A string literal: the escaped text between double quotes. */
  function Quote(s: string): string
  {
    "\"" + Escape(s) + "\""
  }

  /** Reads one escape sequence; `s` starts just after the backslash. */
  function UnescapeOne(s: string): (r: Option<(char, string)>)
    ensures r.Some? ==> |r.value.1| < |s|
  {
    if |s| == 0 then None
    else if s[0] == '"' then Some(('"', s[1..]))
    else if s[0] == '\\' then Some(('\\', s[1..]))
    else if s[0] == '/' then Some(('/', s[1..]))
    else if s[0] == 'b' then Some((0x08 as char, s[1..]))
    else if s[0] == 'f' then Some((0x0C as char, s[1..]))
    else if s[0] == 'n' then Some(('\n', s[1..]))
    else if s[0] == 'r' then Some(('\r', s[1..]))
    else if s[0] == 't' then Some(('\t', s[1..]))
    else if s[0] == 'u' && |s| >= 5 then
      match (HexValue(s[1]), HexValue(s[2]), HexValue(s[3]), HexValue(s[4]))
      case (Some(a), Some(b), Some(c), Some(d)) =>
        var code := ((a * 16 + b) * 16 + c) * 16 + d;
        if code < 0xD800 || 0xE000 <= code then Some((code as char, s[5..])) else None
      case _ => None
    else None
  }

  /** Reads the rest of a string literal; `s` starts just after the opening quote. */
  function ParseStringBody(s: string): (r: Option<(string, string)>)
    ensures r.Some? ==> |r.value.1| < |s|
    decreases |s|
  {
    if |s| == 0 then None
    else if s[0] == '"' then Some(([], s[1..]))
    else if s[0] == '\\' then
      match UnescapeOne(s[1..])
      case None => None
      case Some((c, t)) => Prepend(c, ParseStringBody(t))
    else if s[0] as int < 0x20 then None
    else Prepend(s[0], ParseStringBody(s[1..]))
  }

  function Prepend(c: char, r: Option<(string, string)>): Option<(string, string)>
  {
    match r
    case None => None
    case Some((x, rest)) => Some(([c] + x, rest))
  }

  lemma EscapeCharRoundTrip(c: char, t: string)
    ensures ParseStringBody(EscapeChar(c) + t) == Prepend(c, ParseStringBody(t))
  {
    if c == '"' || c == '\\' || c as int == 0x08 || c as int == 0x0C || c == '\n' || c == '\r' || c == '\t' {
      ShortEscapeRoundTrip(c, t);
    } else if c as int < 0x20 {
      UnicodeEscapeRoundTrip(c, t);
    } else {
      assert (EscapeChar(c) + t)[1..] == t;
    }
  }

  /** The two-character escapes. */
  lemma ShortEscapeRoundTrip(c: char, t: string)
    requires c == '"' || c == '\\' || c as int == 0x08 || c as int == 0x0C || c == '\n' || c == '\r' || c == '\t'
    ensures ParseStringBody(EscapeChar(c) + t) == Prepend(c, ParseStringBody(t))
  {
    var s := EscapeChar(c) + t;
    assert |EscapeChar(c)| == 2 && EscapeChar(c)[0] == '\\';
    assert s[1..] == [EscapeChar(c)[1]] + t;
    assert s[1..][1..] == t;
  }

  /** The `\u00XX` escapes of the other control characters. */
  lemma UnicodeEscapeRoundTrip(c: char, t: string)
    requires c as int < 0x20
    requires !(c as int == 0x08 || c as int == 0x0C || c == '\n' || c == '\r' || c == '\t')
    ensures ParseStringBody(EscapeChar(c) + t) == Prepend(c, ParseStringBody(t))
  {
    var s := EscapeChar(c) + t;
    var h1, h2 := HexDigit(c as int / 16), HexDigit(c as int % 16);
    assert s == ['\\', 'u', '0', '0', h1, h2] + t;
    assert s[1..][5..] == t;
    assert HexValue(h1) == Some(c as int / 16);
    assert HexValue(h2) == Some(c as int % 16);
  }

  lemma {:induction false} EscapeRoundTrip(x: string, rest: string)
    ensures ParseStringBody(Escape(x) + "\"" + rest) == Some((x, rest))
  {
    if x == [] {
      assert Escape(x) + "\"" + rest == "\"" + rest;
      assert ("\"" + rest)[1..] == rest;
    } else {
      var t := Escape(x[1..]) + "\"" + rest;
      assert Escape(x) + "\"" + rest == EscapeChar(x[0]) + t;
      EscapeCharRoundTrip(x[0], t);
      EscapeRoundTrip(x[1..], rest);
      assert [x[0]] + x[1..] == x;
    }
  }

  // ---------------------------------------------------------------------
  // Values
  // ---------------------------------------------------------------------

  /** `JSON.stringify(j)`: compact text, no whitespace, members in order. */
  function Serialize(j: Json): string
    decreases j, 1
  {
    match j
    case JNull => "null"
    case JBool(b) => if b then "true" else "false"
    case JNum(n) => Decimal(n)
    case JStr(s) => Quote(s)
    case JArr(items) => "[" + SerializeItems(items) + "]"
    case JObj(members) => "{" + SerializeMembers(members) + "}"
  }

  function SerializeItems(items: seq<Json>): string
    decreases items, 0
  {
    if items == [] then ""
    else if |items| == 1 then Serialize(items[0])
    else Serialize(items[0]) + "," + SerializeItems(items[1..])
  }

  function SerializeMembers(members: seq<Member>): string
    decreases members, 0
  {
    if members == [] then ""
    else
      var m := members[0];
      var text := Quote(m.key) + ":" + Serialize(m.value);
      if |members| == 1 then text else text + "," + SerializeMembers(members[1..])
  }

  // ---------------------------------------------------------------------
  // Reading values back
  // ---------------------------------------------------------------------

  /** Reads one value from the front of `s`, returning it and the text after it. */
  function ParseValue(s: string): (r: Option<(Json, string)>)
    ensures r.Some? ==> |r.value.1| < |s|
    decreases |s|, 1
  {
    if |s| == 0 then None
    else if s[0] == 'n' then ParseWord(s, "null", JNull)
    else if s[0] == 't' then ParseWord(s, "true", JBool(true))
    else if s[0] == 'f' then ParseWord(s, "false", JBool(false))
    else if s[0] == '"' then ParseString(s)
    else if s[0] == '[' then ParseArray(s)
    else if s[0] == '{' then ParseObject(s)
    else ParseNumeral(s)
  }

  /** Reads the literal `word`, standing for `j`. */
  function ParseWord(s: string, word: string, j: Json): (r: Option<(Json, string)>)
    requires |word| > 0
    ensures r.Some? ==> |r.value.1| < |s|
  {
    if |s| >= |word| && s[..|word|] == word then Some((j, s[|word|..])) else None
  }

  /** Reads a string literal; `s` starts with its opening quote. */
  function ParseString(s: string): (r: Option<(Json, string)>)
    requires |s| > 0
    ensures r.Some? ==> |r.value.1| < |s|
  {
    match ParseStringBody(s[1..])
    case None => None
    case Some((x, rest)) => Some((JStr(x), rest))
  }

  /** Reads an array; `s` starts with its opening bracket. */
  function ParseArray(s: string): (r: Option<(Json, string)>)
    requires |s| > 0
    ensures r.Some? ==> |r.value.1| < |s|
    decreases |s|, 0
  {
    if |s| >= 2 && s[1] == ']' then Some((JArr([]), s[2..]))
    else
      match ParseItems(s[1..])
      case None => None
      case Some((items, rest)) => Some((JArr(items), rest))
  }

  /** Reads an object; `s` starts with its opening brace. */
  function ParseObject(s: string): (r: Option<(Json, string)>)
    requires |s| > 0
    ensures r.Some? ==> |r.value.1| < |s|
    decreases |s|, 0
  {
    if |s| >= 2 && s[1] == '}' then Some((JObj([]), s[2..]))
    else
      match ParseMembers(s[1..])
      case None => None
      case Some((members, rest)) => Some((JObj(members), rest))
  }

  function ParseNumeral(s: string): (r: Option<(Json, string)>)
    ensures r.Some? ==> |r.value.1| < |s|
  {
    match ParseNumber(s)
    case None => None
    case Some((n, rest)) => Some((JNum(n), rest))
  }

  /** Reads `value (, value)* ]`: the elements of a non-empty array and its closing bracket. */
  function ParseItems(s: string): (r: Option<(seq<Json>, string)>)
    ensures r.Some? ==> |r.value.1| < |s|
    decreases |s|, 2
  {
    match ParseValue(s)
    case None => None
    case Some((v, rest)) =>
      if |rest| > 0 && rest[0] == ']' then Some(([v], rest[1..]))
      else if |rest| > 0 && rest[0] == ',' then
        match ParseItems(rest[1..])
        case None => None
        case Some((vs, rest')) => Some(([v] + vs, rest'))
      else None
  }

  /** Reads `"key":value (, "key":value)* }`: the members of a non-empty object and its closing brace. */
  function ParseMembers(s: string): (r: Option<(seq<Member>, string)>)
    ensures r.Some? ==> |r.value.1| < |s|
    decreases |s|, 2
  {
    if |s| == 0 || s[0] != '"' then None
    else
      match ParseStringBody(s[1..])
      case None => None
      case Some((key, t)) =>
        if |t| == 0 || t[0] != ':' then None
        else
          match ParseValue(t[1..])
          case None => None
          case Some((v, rest)) =>
            if |rest| > 0 && rest[0] == '}' then Some(([Member(key, v)], rest[1..]))
            else if |rest| > 0 && rest[0] == ',' then
              match ParseMembers(rest[1..])
              case None => None
              case Some((ms, rest')) => Some(([Member(key, v)] + ms, rest'))
            else None
  }

  /** A reader of `Serialize`'s output: a whole text holding exactly one value (laxer than `JSON.parse`, e.g. on leading zeros). */
  function Parse(s: string): Option<Json>
  {
    match ParseValue(s)
    case Some((j, rest)) => if rest == [] then Some(j) else None
    case None => None
  }

  /** What may follow a value inside serialised text. */
  predicate Delimited(rest: string)
  {
    rest == [] || rest[0] == ',' || rest[0] == ']' || rest[0] == '}'
  }

  lemma SerializeStart(j: Json)
    ensures |Serialize(j)| > 0
    ensures Serialize(j)[0] != ']' && Serialize(j)[0] != '}'
  {
    if j.JNum? {
      var ds := NatText(if j.n < 0 then -j.n else j.n);
      assert IsDigit(ds[0]);
    }
  }

  lemma {:induction false} ValueRoundTrip(j: Json, rest: string)
    requires Delimited(rest)
    ensures ParseValue(Serialize(j) + rest) == Some((j, rest))
    decreases j, 2
  {
    match j
    case JNull => LiteralRoundTrip(j, rest);
    case JBool(_) => LiteralRoundTrip(j, rest);
    case JNum(n) => NumRoundTrip(n, rest);
    case JStr(x) => StrRoundTrip(x, rest);
    case JArr(items) => ArrRoundTrip(items, rest);
    case JObj(members) => ObjRoundTrip(members, rest);
  }

  lemma LiteralRoundTrip(j: Json, rest: string)
    requires j.JNull? || j.JBool?
    ensures ParseValue(Serialize(j) + rest) == Some((j, rest))
  {
    var s := Serialize(j) + rest;
    if j.JNull? {
      assert s[..4] == "null" && s[4..] == rest;
    } else if j.b {
      assert s[..4] == "true" && s[4..] == rest;
    } else {
      assert s[..5] == "false" && s[5..] == rest;
    }
  }

  lemma NumRoundTrip(n: int, rest: string)
    requires Delimited(rest)
    ensures ParseValue(Serialize(JNum(n)) + rest) == Some((JNum(n), rest))
  {
    var s := Serialize(JNum(n)) + rest;
    NumberRoundTrip(n, rest);
    var ds := NatText(if n < 0 then -n else n);
    assert n >= 0 ==> IsDigit(ds[0]) && s[0] == ds[0];
    assert ParseValue(s) == ParseNumeral(s);
  }

  lemma StrRoundTrip(x: string, rest: string)
    ensures ParseValue(Serialize(JStr(x)) + rest) == Some((JStr(x), rest))
  {
    var body := Escape(x) + "\"" + rest;
    Associate("\"" + Escape(x), "\"", rest);
    Associate("\"", Escape(x), "\"" + rest);
    Associate(Escape(x), "\"", rest);
    Opening('"', body);
    EscapeRoundTrip(x, rest);
    assert ParseValue("\"" + body) == ParseString("\"" + body);
  }

  /** The first character of a text and what follows it. */
  lemma Opening(c: char, body: string)
    ensures ([c] + body)[0] == c && ([c] + body)[1..] == body
  {
  }

  lemma {:induction false} ArrRoundTrip(items: seq<Json>, rest: string)
    ensures ParseValue(Serialize(JArr(items)) + rest) == Some((JArr(items), rest))
    decreases items, 1
  {
    var inner := SerializeItems(items);
    var body := inner + "]" + rest;
    Associate("[" + inner, "]", rest);
    Associate("[", inner, "]" + rest);
    Associate(inner, "]", rest);
    Opening('[', body);
    assert ParseValue("[" + body) == ParseArray("[" + body);
    if items == [] {
      assert body == "]" + rest;
      Opening(']', rest);
    } else {
      SerializeStart(items[0]);
      assert body[0] == Serialize(items[0])[0];
      ItemsRoundTrip(items, rest);
    }
  }

  lemma {:induction false} ObjRoundTrip(members: seq<Member>, rest: string)
    ensures ParseValue(Serialize(JObj(members)) + rest) == Some((JObj(members), rest))
    decreases members, 2
  {
    var inner := SerializeMembers(members);
    var body := inner + "}" + rest;
    Associate("{" + inner, "}", rest);
    Associate("{", inner, "}" + rest);
    Associate(inner, "}", rest);
    Opening('{', body);
    assert ParseValue("{" + body) == ParseObject("{" + body);
    if members == [] {
      assert body == "}" + rest;
      Opening('}', rest);
    } else {
      assert body[0] == '"';
      MembersRoundTrip(members, rest);
    }
  }

  lemma {:induction false} ItemsRoundTrip(items: seq<Json>, rest: string)
    requires items != []
    ensures ParseItems(SerializeItems(items) + "]" + rest) == Some((items, rest))
    decreases items, 0
  {
    if |items| == 1 {
      Associate(Serialize(items[0]), "]", rest);
      LastItem(items[0], rest);
      assert [items[0]] == items;
    } else {
      var tail := SerializeItems(items[1..]) + "]" + rest;
      SerializeMoreItems(items, rest);
      ItemsRoundTrip(items[1..], rest);
      ItemStep(items[0], tail);
      assert [items[0]] + items[1..] == items;
    }
  }

  lemma {:induction false} LastItem(v: Json, rest: string)
    ensures ParseItems(Serialize(v) + ("]" + rest)) == Some(([v], rest))
    decreases v, 3
  {
    Opening(']', rest);
    ValueRoundTrip(v, "]" + rest);
    ParseItemsStep(Serialize(v) + ("]" + rest), v, "]" + rest);
  }

  lemma {:induction false} ItemStep(v: Json, tail: string)
    ensures ParseItems(Serialize(v) + ("," + tail)) ==
      match ParseItems(tail)
      case None => None
      case Some((vs, rest')) => Some(([v] + vs, rest'))
    decreases v, 3
  {
    Opening(',', tail);
    ValueRoundTrip(v, "," + tail);
    ParseItemsStep(Serialize(v) + ("," + tail), v, "," + tail);
  }

  lemma SerializeMoreItems(items: seq<Json>, rest: string)
    requires |items| > 1
    ensures SerializeItems(items) + "]" + rest == Serialize(items[0]) + ("," + (SerializeItems(items[1..]) + "]" + rest))
  {
    var a := Serialize(items[0]);
    var b := SerializeItems(items[1..]);
    assert SerializeItems(items) == a + "," + b;
    Associate(a + ",", b, "]" + rest);
    Associate(a, ",", b + "]" + rest);
    Associate(b, "]", rest);
  }

  /** How `ParseItems` proceeds once the first element has been read. */
  lemma ParseItemsStep(s: string, v: Json, after: string)
    requires ParseValue(s) == Some((v, after))
    ensures ParseItems(s) ==
      if |after| > 0 && after[0] == ']' then Some(([v], after[1..]))
      else if |after| > 0 && after[0] == ',' then
        match ParseItems(after[1..])
        case None => None
        case Some((vs, rest')) => Some(([v] + vs, rest'))
      else None
  {
  }

  lemma {:induction false} MembersRoundTrip(members: seq<Member>, rest: string)
    requires members != []
    ensures ParseMembers(SerializeMembers(members) + "}" + rest) == Some((members, rest))
    decreases members, 1
  {
    if |members| == 1 {
      SerializeOneMember(members, rest);
      LastMember(members[0], rest);
      assert [members[0]] == members;
    } else {
      var tail := SerializeMembers(members[1..]) + "}" + rest;
      SerializeMoreMembers(members, rest);
      MembersRoundTrip(members[1..], rest);
      MemberStep(members[0], "," + tail);
      assert ("," + tail)[1..] == tail;
      assert [members[0]] + members[1..] == members;
    }
  }

  lemma SerializeOneMember(members: seq<Member>, rest: string)
    requires |members| == 1
    ensures SerializeMembers(members) + "}" + rest
      == Quote(members[0].key) + ":" + Serialize(members[0].value) + ("}" + rest)
  {
  }

  lemma SerializeMoreMembers(members: seq<Member>, rest: string)
    requires |members| > 1
    ensures SerializeMembers(members) + "}" + rest
      == Quote(members[0].key) + ":" + Serialize(members[0].value) + ("," + (SerializeMembers(members[1..]) + "}" + rest))
  {
    var a := Quote(members[0].key) + ":" + Serialize(members[0].value);
    var b := SerializeMembers(members[1..]);
    assert SerializeMembers(members) == a + "," + b;
    Associate(a + ",", b, "}" + rest);
    Associate(a, ",", b + "}" + rest);
    Associate(b, "}", rest);
  }

  lemma Associate<T>(a: seq<T>, b: seq<T>, c: seq<T>)
    ensures a + b + c == a + (b + c)
  {
  }

  lemma {:induction false} LastMember(m: Member, rest: string)
    ensures ParseMembers(Quote(m.key) + ":" + Serialize(m.value) + ("}" + rest)) == Some(([m], rest))
    decreases m, 2
  {
    MemberStep(m, "}" + rest);
    assert ("}" + rest)[1..] == rest;
  }

  lemma {:induction false} MemberStep(m: Member, after: string)
    requires |after| > 0 && (after[0] == ',' || after[0] == '}')
    ensures ParseMembers(Quote(m.key) + ":" + Serialize(m.value) + after) ==
      if after[0] == '}' then Some(([m], after[1..]))
      else match ParseMembers(after[1..])
        case None => None
        case Some((ms, rest')) => Some(([m] + ms, rest'))
    decreases m, 1
  {
    var s := Quote(m.key) + ":" + Serialize(m.value) + after;
    MemberRoundTrip(m, after);
    Associate(":", Serialize(m.value), after);
    Opening(':', Serialize(m.value) + after);
    ParseMembersStep(s, m, ":" + Serialize(m.value) + after, after);
  }

  /** How `ParseMembers` proceeds once the first member has been read. */
  lemma ParseMembersStep(s: string, m: Member, t: string, after: string)
    requires |s| > 0 && s[0] == '"' && ParseStringBody(s[1..]) == Some((m.key, t))
    requires |t| > 0 && t[0] == ':' && ParseValue(t[1..]) == Some((m.value, after))
    requires |after| > 0 && (after[0] == ',' || after[0] == '}')
    ensures ParseMembers(s) ==
      if after[0] == '}' then Some(([m], after[1..]))
      else match ParseMembers(after[1..])
        case None => None
        case Some((ms, rest')) => Some(([m] + ms, rest'))
  {
  }

  /** One member is read back, up to the delimiter that follows it. */
  lemma {:induction false} MemberRoundTrip(m: Member, after: string)
    requires |after| > 0 && (after[0] == ',' || after[0] == '}')
    ensures var s := Quote(m.key) + ":" + Serialize(m.value) + after;
      && |s| > 0 && s[0] == '"'
      && ParseStringBody(s[1..]) == Some((m.key, ":" + Serialize(m.value) + after))
      && ParseValue(Serialize(m.value) + after) == Some((m.value, after))
    decreases m, 0
  {
    var s := Quote(m.key) + ":" + Serialize(m.value) + after;
    assert s == "\"" + (Escape(m.key) + "\"" + (":" + Serialize(m.value) + after));
    assert s[1..] == Escape(m.key) + "\"" + (":" + Serialize(m.value) + after);
    EscapeRoundTrip(m.key, ":" + Serialize(m.value) + after);
    ValueRoundTrip(m.value, after);
  }

  /** `JSON.parse(JSON.stringify(j))` gives back `j`. */
  lemma SerializeRoundTrip(j: Json)
    ensures Parse(Serialize(j)) == Some(j)
  {
    ValueRoundTrip(j, []);
    assert Serialize(j) + [] == Serialize(j);
  }
}
