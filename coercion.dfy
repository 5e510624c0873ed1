/**
 * The two JavaScript coercions behind `!isNaN(Number(value))` and
 * `value.toString()` when `value` is a list: a list is first turned into
 * text (`Array.prototype.toString`, its elements joined with commas), and
 * text is a number unless it is NaN, that is, unless it fails the
 * StringNumericLiteral grammar of section 7.1.4.1.1 of ECMA-262.
 */
module Coercion {
  import opened Json

  /** `String(v)` for a list element; `null` elements are written as nothing. */
  function ElementText(v: Json): string
    decreases v, 1
  {
    match v
    case JNull => ""
    case JBool(b) => if b then "true" else "false"
    case JNum(n) => Decimal(n)
    case JStr(s) => s
    case JArr(items) => ListText(items)
    case JObj(_) => "[object Object]"
  }

  /** `Array.prototype.toString`: the elements' texts joined with commas. */
  function ListText(items: seq<Json>): string
    decreases items, 0
  {
    if items == [] then ""
    else if |items| == 1 then ElementText(items[0])
    else ElementText(items[0]) + "," + ListText(items[1..])
  }

  /** WhiteSpace and LineTerminator code points, which `Number` ignores around the literal. */
  predicate IsSpace(c: char)
  {
    var x := c as int;
    x == 0x09 || x == 0x0A || x == 0x0B || x == 0x0C || x == 0x0D || x == 0x20 || x == 0xA0
    || x == 0x1680 || (0x2000 <= x <= 0x200A) || x == 0x2028 || x == 0x2029 || x == 0x202F
    || x == 0x205F || x == 0x3000 || x == 0xFEFF
  }

  /** `s` without its leading spaces: never longer, never starting with a space (see `TrimStartSuffix`, `TrimStartCutsSpaces`). */
  function TrimStart(s: string): (r: string)
    ensures |r| <= |s|
    ensures r != [] ==> !IsSpace(r[0])
  {
    if s != [] && IsSpace(s[0]) then TrimStart(s[1..]) else s
  }

  /** `TrimStart` keeps a suffix of `s`. */
  lemma {:induction false} TrimStartSuffix(s: string)
    ensures TrimStart(s) == s[|s| - |TrimStart(s)|..]
    decreases |s|
  {
    if s != [] && IsSpace(s[0]) {
      TrimStartSuffix(s[1..]);
      assert s[1..][|s[1..]| - |TrimStart(s)|..] == s[|s| - |TrimStart(s)|..];
    }
  }

  /** Everything `TrimStart` cuts is a space. */
  lemma {:induction false} TrimStartCutsSpaces(s: string, i: nat)
    requires i < |s| - |TrimStart(s)|
    ensures IsSpace(s[i])
    decreases |s|
  {
    if i > 0 {
      assert s[1..][i - 1] == s[i];
      TrimStartCutsSpaces(s[1..], i - 1);
    }
  }

  /** `s` without its trailing spaces: never longer, never ending with a space (see `TrimEndPrefix`, `TrimEndCutsSpaces`). */
  function TrimEnd(s: string): (r: string)
    ensures |r| <= |s|
    ensures r != [] ==> !IsSpace(r[|r| - 1])
  {
    if s != [] && IsSpace(s[|s| - 1]) then TrimEnd(s[..|s| - 1]) else s
  }

  /** `TrimEnd` keeps a prefix of `s`. */
  lemma {:induction false} TrimEndPrefix(s: string)
    ensures TrimEnd(s) == s[..|TrimEnd(s)|]
    decreases |s|
  {
    if s != [] && IsSpace(s[|s| - 1]) {
      TrimEndPrefix(s[..|s| - 1]);
      assert s[..|s| - 1][..|TrimEnd(s)|] == s[..|TrimEnd(s)|];
    }
  }

  /** Everything `TrimEnd` cuts is a space. */
  lemma {:induction false} TrimEndCutsSpaces(s: string, i: nat)
    requires |TrimEnd(s)| <= i < |s|
    ensures IsSpace(s[i])
    decreases |s|
  {
    if i < |s| - 1 {
      assert s[..|s| - 1][i] == s[i];
      TrimEndCutsSpaces(s[..|s| - 1], i);
    }
  }

  predicate AllDigits(s: string)
  {
    |s| > 0 && forall i :: 0 <= i < |s| ==> IsDigit(s[i])
  }

  predicate IsHexChar(c: char)
  {
    IsDigit(c) || 'a' <= c <= 'f' || 'A' <= c <= 'F'
  }

  /** `0x1F`, `0o17`, `0b101` (no sign allowed). */
  predicate NonDecimalLiteral(s: string)
  {
    && |s| > 2 && s[0] == '0'
    && var body := s[2..];
       if s[1] == 'x' || s[1] == 'X' then forall i :: 0 <= i < |body| ==> IsHexChar(body[i])
       else if s[1] == 'o' || s[1] == 'O' then forall i :: 0 <= i < |body| ==> '0' <= body[i] <= '7'
       else if s[1] == 'b' || s[1] == 'B' then forall i :: 0 <= i < |body| ==> body[i] == '0' || body[i] == '1'
       else false
  }

  /** ExponentPart: `e` or `E`, an optional sign, digits. */
  predicate Exponent(t: string)
  {
    && |t| >= 2 && (t[0] == 'e' || t[0] == 'E')
    && AllDigits(if t[1] == '+' || t[1] == '-' then t[2..] else t[1..])
  }

  /** Optional digits, then an optional exponent, then nothing. */
  predicate DigitsThenExponent(t: string)
  {
    var m := LeadingDigits(t);
    t[m..] == "" || Exponent(t[m..])
  }

  /** StrUnsignedDecimalLiteral: `Infinity`, `12`, `12.`, `12.5`, `.5`, each with an optional exponent. */
  predicate UnsignedDecimalLiteral(s: string)
  {
    if s == "Infinity" then true
    else
      var k := LeadingDigits(s);
      var rest := s[k..];
      if k > 0 then rest == "" || Exponent(rest) || (rest[0] == '.' && DigitsThenExponent(rest[1..]))
      else |rest| > 1 && rest[0] == '.' && IsDigit(rest[1]) && DigitsThenExponent(rest[1..])
  }

  predicate DecimalLiteral(s: string)
  {
    if |s| > 0 && (s[0] == '+' || s[0] == '-') then UnsignedDecimalLiteral(s[1..]) else UnsignedDecimalLiteral(s)
  }

  /** `!isNaN(Number(s))` for text `s`; blank text is 0. */
  predicate IsNumericText(s: string)
  {
    var t := TrimEnd(TrimStart(s));
    t == "" || DecimalLiteral(t) || NonDecimalLiteral(t)
  }

  // ---------------------------------------------------------------------
  // No numeric text holds a comma, so no list of two or more elements is a number
  // ---------------------------------------------------------------------

  predicate NoComma(s: string)
  {
    forall i :: 0 <= i < |s| ==> s[i] != ','
  }

  lemma NoCommaConcat(a: string, b: string)
    requires NoComma(a) && NoComma(b)
    ensures NoComma(a + b)
  {
    forall i | 0 <= i < |a + b| ensures (a + b)[i] != ',' {
      if i >= |a| { assert (a + b)[i] == b[i - |a|]; }
    }
  }

  lemma DigitsNoComma(s: string, k: nat)
    requires k <= |s| && forall i :: 0 <= i < k ==> IsDigit(s[i])
    ensures NoComma(s[..k])
  {
  }

  lemma ExponentNoComma(t: string)
    requires Exponent(t)
    ensures NoComma(t)
  {
    var u := if t[1] == '+' || t[1] == '-' then t[2..] else t[1..];
    forall i | 0 <= i < |t| ensures t[i] != ',' {
      if i >= |t| - |u| { assert t[i] == u[i - (|t| - |u|)]; }
    }
  }

  lemma DigitsThenExponentNoComma(t: string)
    requires DigitsThenExponent(t)
    ensures NoComma(t)
  {
    var m := LeadingDigits(t);
    DigitsNoComma(t, m);
    if t[m..] != "" { ExponentNoComma(t[m..]); }
    NoCommaConcat(t[..m], t[m..]);
    assert t[..m] + t[m..] == t;
  }

  lemma UnsignedNoComma(s: string)
    requires UnsignedDecimalLiteral(s)
    ensures NoComma(s)
  {
    if s != "Infinity" {
      var k := LeadingDigits(s);
      var rest := s[k..];
      DigitsNoComma(s, k);
      if rest != "" {
        if Exponent(rest) {
          ExponentNoComma(rest);
        } else {
          DigitsThenExponentNoComma(rest[1..]);
          NoCommaConcat(rest[..1], rest[1..]);
          assert rest[..1] + rest[1..] == rest;
        }
      }
      NoCommaConcat(s[..k], rest);
      assert s[..k] + rest == s;
    }
  }

  lemma LiteralNoComma(t: string)
    requires DecimalLiteral(t) || NonDecimalLiteral(t)
    ensures NoComma(t)
  {
    if DecimalLiteral(t) {
      if |t| > 0 && (t[0] == '+' || t[0] == '-') {
        UnsignedNoComma(t[1..]);
        NoCommaConcat(t[..1], t[1..]);
        assert t[..1] + t[1..] == t;
      } else {
        UnsignedNoComma(t);
      }
    } else {
      forall i | 2 <= i < |t| ensures t[i] != ',' {
        assert t[i] == t[2..][i - 2];
      }
    }
  }

  lemma {:induction false} TrimStartKeepsComma(s: string, i: nat)
    requires i < |s| && s[i] == ','
    ensures !NoComma(TrimStart(s))
    decreases |s|
  {
    if s != [] && IsSpace(s[0]) {
      assert s[1..][i - 1] == ',';
      TrimStartKeepsComma(s[1..], i - 1);
    } else {
      assert TrimStart(s)[i] == ',';
    }
  }

  lemma {:induction false} TrimEndKeepsComma(s: string, i: nat)
    requires i < |s| && s[i] == ','
    ensures !NoComma(TrimEnd(s))
    decreases |s|
  {
    if s != [] && IsSpace(s[|s| - 1]) {
      assert s[..|s| - 1][i] == ',';
      TrimEndKeepsComma(s[..|s| - 1], i);
    } else {
      assert TrimEnd(s)[i] == ',';
    }
  }

  /** Text with a comma anywhere in it is never a number. */
  lemma CommaIsNaN(s: string, i: nat)
    requires i < |s| && s[i] == ','
    ensures !IsNumericText(s)
  {
    TrimStartKeepsComma(s, i);
    var u := TrimStart(s);
    var j :| 0 <= j < |u| && u[j] == ',';
    TrimEndKeepsComma(u, j);
    var t := TrimEnd(u);
    if t != "" && (DecimalLiteral(t) || NonDecimalLiteral(t)) {
      LiteralNoComma(t);
    }
  }

  /** A list of two or more elements is written with a comma after its first element. */
  lemma ListTextComma(items: seq<Json>)
    requires |items| >= 2
    ensures |ElementText(items[0])| < |ListText(items)|
    ensures ListText(items)[|ElementText(items[0])|] == ','
  {
  }
}
