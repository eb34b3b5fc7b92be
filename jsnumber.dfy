/**
 * JavaScript number behaviour the model needs: NaN as a distinct value,
 * truthiness for `x || fallback`, `Math.round`, the repository's two-decimal
 * rounding, `Number.prototype.toFixed(2)` and `parseFloat` on decimal text.
 * Numbers are exact rationals; binary floating-point rounding is not modelled.
 */
module JsNumber {
  import opened Wrappers
  import opened Text

  /** The result of `parseFloat`/`Number`: NaN or a finite value. */
  datatype JsNum = NaN | Num(value: real)

  /** A number is truthy unless it is 0 or NaN. */
  predicate Truthy(n: JsNum) { n.Num? && n.value != 0.0 }

  /** A looked-up number that is present, not 0 and not NaN. */
  predicate TruthyOpt(x: Option<JsNum>) { x.Some? && Truthy(x.value) }

  /** `x || fallback` for a looked-up number that may be missing, 0 or NaN. */
  function OrElse(x: Option<JsNum>, fallback: real): real
  {
    if x.Some? && Truthy(x.value) then x.value.value else fallback
  }

  /** `Math.round`: the nearest integer, halves rounded towards +infinity. */
  function Round(x: real): (r: int)
    ensures x - 0.5 < r as real <= x + 0.5
  {
    (x + 0.5).Floor
  }

  /** `Math.round(x * 100) / 100`. */
  function Round2(x: real): real
  {
    Round(x * 100.0) as real / 100.0
  }

  lemma Round2Close(x: real)
    ensures -0.005 <= Round2(x) - x <= 0.005
  {
    var r := Round(x * 100.0);
    assert x * 100.0 - 0.5 < r as real <= x * 100.0 + 0.5;
  }

  /** `Math.round` never reverses an order. */
  lemma RoundMono(x: real, y: real)
    requires x <= y
    ensures Round(x) <= Round(y)
  {
  }

  /** Two-decimal rounding keeps the sign of its argument. */
  lemma Round2Sign(x: real)
    ensures x >= 0.0 ==> Round2(x) >= 0.0
    ensures x <= 0.0 ==> Round2(x) <= 0.0
  {
    RoundInt(0);
    if x >= 0.0 {
      RoundMono(0.0, x * 100.0);
    } else {
      RoundMono(x * 100.0, 0.0);
    }
  }

  lemma RoundInt(n: int)
    ensures Round(n as real) == n
  {
  }

  /** `x.toFixed(2)` for |x| < 1e21: sign, integer part, point, two digits, halves away from zero. */
  function ToFixed2(x: real): (s: string)
    ensures |s| >= 4
  {
    var a := if x < 0.0 then -x else x;
    var n := Round(a * 100.0);
    assert n >= 0;
    (if x < 0.0 then "-" else "") + NatToString(n / 100) + "." + Pad2(n % 100)
  }

  lemma ToFixed2Sign(x: real)
    ensures ToFixed2(x)[0] == '-' <==> x < 0.0
    ensures x >= 0.0 ==> IsDigit(ToFixed2(x)[0])
  {
    var a := if x < 0.0 then -x else x;
    var n := Round(a * 100.0);
    var body := NatToString(n / 100) + "." + Pad2(n % 100);
    assert IsDigit(body[0]);
    if x < 0.0 {
      assert ToFixed2(x) == "-" + body;
    } else {
      assert ToFixed2(x) == body;
    }
  }

  function Pow10(k: nat): (p: nat)
    ensures p >= 1
  {
    if k == 0 then 1 else 10 * Pow10(k - 1)
  }

  /** Length of the run of decimal digits at the start of `s`. */
  function DigitRun(s: string): (k: nat)
    ensures k <= |s| && AllDigits(s[..k]) && (k == |s| || !IsDigit(s[k]))
  {
    if s != [] && IsDigit(s[0]) then 1 + DigitRun(s[1..]) else 0
  }

  /**
   * `parseFloat` of a string with no sign, exponent or leading white space:
   * the longest prefix of the form digits [ "." digits ] holding a digit, or NaN.
   */
  function ParseDecimalPrefix(s: string): JsNum
  {
    var k := DigitRun(s);
    var whole := s[..k];
    var rest := s[k..];
    var frac := if rest != [] && rest[0] == '.' then rest[1..][..DigitRun(rest[1..])] else [];
    if whole == [] && frac == [] then NaN
    else Num(DigitsValue(whole) as real + DigitsValue(frac) as real / Pow10(|frac|) as real)
  }

  lemma DigitRunAll(s: string)
    requires AllDigits(s)
    ensures DigitRun(s) == |s|
  {
    if s != [] {
      DigitRunAll(s[1..]);
    }
  }

  lemma {:induction false} ParseDecimalPrefixNat(n: nat, tail: string)
    requires tail == [] || (!IsDigit(tail[0]) && tail[0] != '.')
    ensures ParseDecimalPrefix(NatToString(n) + tail) == Num(n as real)
  {
    var s := NatToString(n) + tail;
    DigitRunPrefix(NatToString(n), tail);
    assert s[..|NatToString(n)|] == NatToString(n);
    assert s[|NatToString(n)|..] == tail;
    NatToStringRoundTrip(n);
  }

  lemma {:induction false} DigitRunPrefix(d: string, tail: string)
    requires AllDigits(d)
    requires tail == [] || !IsDigit(tail[0])
    ensures DigitRun(d + tail) == |d|
    decreases |d|
  {
    if d == [] {
      assert d + tail == tail;
    } else {
      assert (d + tail)[1..] == d[1..] + tail;
      DigitRunPrefix(d[1..], tail);
    }
  }
}
