/**
 * The JSON text the settings table stores: `JSON.stringify` of a setting
 * value and `JSON.parse` of the stored text, for the values settings hold
 * here (null, booleans, integers such as `Date.now()` timestamps, strings).
 */
module Json {
  import opened Wrappers
  import opened Text

  datatype Json = JNull | JBool(b: bool) | JInt(i: int) | JStr(s: string)

  /** JavaScript truthiness of a parsed value. */
  predicate Truthy(v: Json)
  {
    match v
    case JNull => false
    case JBool(b) => b
    case JInt(i) => i != 0
    case JStr(s) => s != ""
  }

  predicate IsHex(c: char) { IsDigit(c) || ('a' <= c <= 'f') || ('A' <= c <= 'F') }

  function HexValue(c: char): (d: nat)
    requires IsHex(c)
    ensures d < 16
  {
    if IsDigit(c) then DigitValue(c)
    else if 'a' <= c <= 'f' then (c as int) - ('a' as int) + 10
    else (c as int) - ('A' as int) + 10
  }

  /** Lower-case hexadecimal digit, as `JSON.stringify` writes them. */
  function HexChar(d: nat): (c: char)
    requires d < 16
    ensures IsHex(c) && HexValue(c) == d
  {
    if d < 10 then DigitChar(d) else (('a' as int) + d - 10) as char
  }

  /** How `JSON.stringify` writes one character inside a string literal. */
  function EscapeChar(c: char): string
  {
    if c == '"' then "\\\""
    else if c == '\\' then "\\\\"
    else if c == '\U{8}' then "\\b"
    else if c == '\U{C}' then "\\f"
    else if c == '\n' then "\\n"
    else if c == '\r' then "\\r"
    else if c == '\t' then "\\t"
    else if c < ' ' then "\\u00" + [HexChar(c as int / 16), HexChar(c as int % 16)]
    else [c]
  }

  function Escape(s: string): string
  {
    if s == [] then [] else EscapeChar(s[0]) + Escape(s[1..])
  }

  /** `JSON.stringify(v)`. */
  function Stringify(v: Json): string
  {
    match v
    case JNull => "null"
    case JBool(b) => if b then "true" else "false"
    case JInt(i) => IntToString(i)
    case JStr(s) => "\"" + Escape(s) + "\""
  }

  /** The character a one-letter escape `\x` stands for. */
  function SimpleEscape(e: char): Option<char>
  {
    if e == '"' then Some('"')
    else if e == '\\' then Some('\\')
    else if e == '/' then Some('/')
    else if e == 'b' then Some('\U{8}')
    else if e == 'f' then Some('\U{C}')
    else if e == 'n' then Some('\n')
    else if e == 'r' then Some('\r')
    else if e == 't' then Some('\t')
    else None
  }

  function Prepend(c: char, r: Option<(string, string)>): Option<(string, string)>
  {
    match r
    case None => None
    case Some((s, rest)) => Some(([c] + s, rest))
  }

  /**
   * Reads the rest of a string literal after its opening quote: the decoded
   * characters and the text after the closing quote, or None when the
   * literal is malformed (unterminated, a raw control character, a bad escape).
   */
  function ParseStringBody(t: string): Option<(string, string)>
    decreases |t|
  {
    if t == [] then None
    else if t[0] == '"' then Some(("", t[1..]))
    else if t[0] == '\\' then
      if |t| < 2 then None
      else if t[1] == 'u' then
        if |t| < 6 || !(IsHex(t[2]) && IsHex(t[3]) && IsHex(t[4]) && IsHex(t[5])) then None
        else
          var code := ((HexValue(t[2]) * 16 + HexValue(t[3])) * 16 + HexValue(t[4])) * 16 + HexValue(t[5]);
          if 0xD800 <= code < 0xE000 then None
          else Prepend(code as char, ParseStringBody(t[6..]))
      else if SimpleEscape(t[1]).None? then None
      else Prepend(SimpleEscape(t[1]).value, ParseStringBody(t[2..]))
    else if t[0] < ' ' then None
    else Prepend(t[0], ParseStringBody(t[1..]))
  }

  /** A JSON integer: an optional minus and digits without a leading zero. */
  function ParseIntText(t: string): Option<int>
  {
    var neg := t != [] && t[0] == '-';
    var d := if neg then t[1..] else t;
    if d == [] || !AllDigits(d) || (|d| > 1 && d[0] == '0') then None
    else Some(if neg then 0 - DigitsValue(d) as int else DigitsValue(d))
  }

  predicate IsJsonSpace(c: char) { c == ' ' || c == '\t' || c == '\n' || c == '\r' }

  function TrimJson(s: string): string
    decreases |s|
  {
    if s != [] && IsJsonSpace(s[0]) then TrimJson(s[1..])
    else if s != [] && IsJsonSpace(s[|s| - 1]) then TrimJson(s[..|s| - 1])
    else s
  }

  /**
   * `JSON.parse(text)` over the modelled values; None where `JSON.parse`
   * throws (and for numbers with a fraction or exponent, arrays and objects,
   * which settings do not hold here).
   */
  function Parse(text: string): Option<Json>
  {
    var t := TrimJson(text);
    if t == "null" then Some(JNull)
    else if t == "true" then Some(JBool(true))
    else if t == "false" then Some(JBool(false))
    else if t != [] && t[0] == '"' then
      match ParseStringBody(t[1..])
      case Some((s, rest)) => if rest == [] then Some(JStr(s)) else None
      case None => None
    else
      match ParseIntText(t)
      case Some(i) => Some(JInt(i))
      case None => None
  }

  lemma EscapeCharParse(c: char, rest: string)
    ensures ParseStringBody(EscapeChar(c) + rest) == Prepend(c, ParseStringBody(rest))
  {
    var t := EscapeChar(c) + rest;
    if c == '"' || c == '\\' || c == '\U{8}' || c == '\U{C}' || c == '\n' || c == '\r' || c == '\t' {
      assert t[2..] == rest;
    } else if c < ' ' {
      var h1, h0 := c as int / 16, c as int % 16;
      assert t[2] == '0' && t[3] == '0' && t[4] == HexChar(h1) && t[5] == HexChar(h0);
      assert t[6..] == rest;
    } else {
      assert t[1..] == rest;
    }
  }

  lemma {:induction false} EscapeParse(s: string, rest: string)
    ensures ParseStringBody(Escape(s) + "\"" + rest) == Some((s, rest))
    decreases |s|
  {
    if s == [] {
      assert Escape(s) + "\"" + rest == "\"" + rest;
    } else {
      EscapeParse(s[1..], rest);
      assert Escape(s) + "\"" + rest == EscapeChar(s[0]) + (Escape(s[1..]) + "\"" + rest);
      EscapeCharParse(s[0], Escape(s[1..]) + "\"" + rest);
      assert [s[0]] + s[1..] == s;
    }
  }

  lemma IntTextRoundTrip(i: int)
    ensures ParseIntText(IntToString(i)) == Some(i)
  {
    var n := if i < 0 then -i else i;
    NatToStringRoundTrip(n);
    NatToStringNoLeadingZero(n);
    var t := IntToString(i);
    if i < 0 {
      assert t[1..] == NatToString(n);
    } else {
      assert t[0] != '-';
    }
  }

  lemma TrimJsonNoop(t: string)
    requires t != [] && !IsJsonSpace(t[0]) && !IsJsonSpace(t[|t| - 1])
    ensures TrimJson(t) == t
  {
  }

  /** Every stored setting reads back as the value that was stored. */
  lemma ParseStringify(v: Json)
    ensures Parse(Stringify(v)) == Some(v)
  {
    match v {
      case JNull =>
      case JBool(b) =>
      case JInt(i) => ParseStringifyInt(i);
      case JStr(s) => ParseStringifyStr(s);
    }
  }

  lemma ParseStringifyInt(i: int)
    ensures Parse(Stringify(JInt(i))) == Some(JInt(i))
  {
    var t := Stringify(JInt(i));
    IntTextRoundTrip(i);
    var n := if i < 0 then -i else i;
    assert IsDigit(NatToString(n)[|NatToString(n)| - 1]);
    if i < 0 {
      assert t[0] == '-' && t[|t| - 1] == NatToString(n)[|NatToString(n)| - 1];
    } else {
      assert IsDigit(t[0]);
    }
    TrimJsonNoop(t);
  }

  lemma ParseStringifyStr(s: string)
    ensures Parse(Stringify(JStr(s))) == Some(JStr(s))
  {
    var t := Stringify(JStr(s));
    EscapeParse(s, "");
    assert t[1..] == Escape(s) + "\"" + "";
    TrimJsonNoop(t);
  }
}
