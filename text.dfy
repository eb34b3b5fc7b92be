/**
 * String helpers with JavaScript semantics: digits, whitespace as the
 * `\s` class and `String.prototype.trim` define it, UTF-16 lengths,
 * prefixes and substrings, splitting, and the code-point order SQLite
 * uses to compare TEXT.
 */
module Text {

  predicate IsDigit(c: char) { '0' <= c <= '9' }

  function DigitValue(c: char): nat
    requires IsDigit(c)
  {
    (c as int) - ('0' as int)
  }

  function DigitChar(d: nat): (c: char)
    requires d < 10
    ensures IsDigit(c) && DigitValue(c) == d
  {
    (('0' as int) + d) as char
  }

  predicate AllDigits(s: string) { forall i :: 0 <= i < |s| ==> IsDigit(s[i]) }

  /** `String(n)` for a non-negative integer. */
  function NatToString(n: nat): (s: string)
    ensures |s| > 0 && AllDigits(s)
    ensures n < 10 <==> |s| == 1
    decreases n
  {
    if n < 10 then [DigitChar(n)] else NatToString(n / 10) + [DigitChar(n % 10)]
  }

  /** The number a string of decimal digits denotes. */
  function DigitsValue(s: string): nat
    requires AllDigits(s)
  {
    if s == [] then 0 else DigitsValue(s[..|s| - 1]) * 10 + DigitValue(s[|s| - 1])
  }

  lemma {:induction false} NatToStringRoundTrip(n: nat)
    ensures DigitsValue(NatToString(n)) == n
    decreases n
  {
    if n >= 10 {
      NatToStringRoundTrip(n / 10);
      var s := NatToString(n);
      assert s[..|s| - 1] == NatToString(n / 10);
    }
  }

  /** Decimal numerals have no leading zero except the numeral "0" itself. */
  lemma {:induction false} NatToStringNoLeadingZero(n: nat)
    ensures NatToString(n)[0] == '0' <==> n == 0
    decreases n
  {
    if n >= 10 {
      NatToStringNoLeadingZero(n / 10);
    }
  }

  /** `String(i)` for any integer. */
  function IntToString(i: int): string
  {
    if i < 0 then "-" + NatToString(-i) else NatToString(i)
  }

  /** `String(n).padStart(2, '0')`. */
  function Pad2(n: nat): (s: string)
    ensures |s| >= 2 && AllDigits(s)
    ensures n < 100 ==> |s| == 2
  {
    var t := NatToString(n);
    if |t| < 2 then "0" + t else t
  }

  lemma Pad2Value(n: nat)
    ensures DigitsValue(Pad2(n)) == n
  {
    NatToStringRoundTrip(n);
    if n < 10 {
      var t := NatToString(n);
      assert Pad2(n) == ['0', t[0]];
      assert ['0', t[0]][..1] == ['0'];
    }
  }

  /** The characters JavaScript's `\s` and `trim` treat as white space. */
  predicate IsJsSpace(c: char)
  {
    c == '\t' || c == '\n' || c == '\U{B}' || c == '\U{C}' || c == '\r' || c == ' '
    || c == '\U{A0}' || c == '\U{1680}' || ('\U{2000}' <= c <= '\U{200A}')
    || c == '\U{2028}' || c == '\U{2029}' || c == '\U{202F}' || c == '\U{205F}'
    || c == '\U{3000}' || c == '\U{FEFF}'
  }

  /** `s.trimStart()`: the suffix of `s` left once its leading white space is gone. */
  function TrimStart(s: string): (r: string)
    ensures |r| <= |s|
  {
    if s != [] && IsJsSpace(s[0]) then TrimStart(s[1..]) else s
  }

  /** `s.trimEnd()`: the prefix of `s` left once its trailing white space is gone. */
  function TrimEnd(s: string): (r: string)
    ensures |r| <= |s|
  {
    if s != [] && IsJsSpace(s[|s| - 1]) then TrimEnd(s[..|s| - 1]) else s
  }

  /** Only leading white space is removed, all of it. */
  lemma {:induction false} TrimStartSpec(s: string)
    ensures var r := TrimStart(s);
      && r == s[|s| - |r|..]
      && (r == [] || !IsJsSpace(r[0]))
      && (forall i :: 0 <= i < |s| - |r| ==> IsJsSpace(s[i]))
  {
    if s != [] && IsJsSpace(s[0]) {
      TrimStartSpec(s[1..]);
    }
  }

  /** Only trailing white space is removed, all of it. */
  lemma {:induction false} TrimEndSpec(s: string)
    ensures var r := TrimEnd(s);
      && r == s[..|r|]
      && (r == [] || !IsJsSpace(r[|r| - 1]))
      && (forall i :: |r| <= i < |s| ==> IsJsSpace(s[i]))
  {
    if s != [] && IsJsSpace(s[|s| - 1]) {
      TrimEndSpec(s[..|s| - 1]);
    }
  }

  /** `String.prototype.trim`. */
  function Trim(s: string): string { TrimEnd(TrimStart(s)) }

  lemma TrimEdges(s: string)
    ensures Trim(s) == [] || (!IsJsSpace(Trim(s)[0]) && !IsJsSpace(Trim(s)[|Trim(s)| - 1]))
  {
    var t := TrimStart(s);
    var r := TrimEnd(t);
    TrimStartSpec(s);
    TrimEndSpec(t);
    if r != [] {
      assert r[0] == t[0];
    }
  }

  predicate StartsWith(s: string, prefix: string)
  {
    |prefix| <= |s| && s[..|prefix|] == prefix
  }

  predicate EndsWith(s: string, suffix: string)
  {
    |suffix| <= |s| && s[|s| - |suffix|..] == suffix
  }

  /** `s.includes(sub)`. */
  predicate Contains(s: string, sub: string)
    decreases |s|
  {
    StartsWith(s, sub) || (s != [] && Contains(s[1..], sub))
  }

  /** `s.length`: UTF-16 code units, two for a character outside the Basic Multilingual Plane. */
  function Utf16Length(s: string): (n: nat)
    ensures |s| <= n <= 2 * |s|
  {
    if s == [] then 0 else Utf16Length(s[..|s| - 1]) + (if s[|s| - 1] as int > 0xFFFF then 2 else 1)
  }

  lemma {:induction false} Utf16LengthAppend(a: string, b: string)
    ensures Utf16Length(a + b) == Utf16Length(a) + Utf16Length(b)
    decreases |b|
  {
    if b == [] {
      assert a + b == a;
    } else {
      Utf16LengthAppend(a, b[..|b| - 1]);
      assert (a + b)[..|a + b| - 1] == a + b[..|b| - 1];
    }
  }

  /** The UTF-16 width of one character. */
  function Units(c: char): nat { if c as int > 0xFFFF then 2 else 1 }

  /** `slice(0, n)` for a text whose cut falls between whole characters: the longest prefix of at most `n` UTF-16 units. */
  function Utf16Prefix(s: string, n: int): (r: string)
    ensures |r| <= |s| && r == s[..|r|]
  {
    if s == [] || Units(s[0]) > n then [] else [s[0]] + Utf16Prefix(s[1..], n - Units(s[0]))
  }

  lemma Utf16LengthCons(c: char, rest: string)
    ensures Utf16Length([c] + rest) == Units(c) + Utf16Length(rest)
  {
    Utf16LengthAppend([c], rest);
    assert [c][..0] == [];
  }

  /** The prefix fits in `n` units. */
  lemma {:induction false} Utf16PrefixFits(s: string, n: int)
    requires n >= 0
    ensures Utf16Length(Utf16Prefix(s, n)) <= n
    decreases |s|
  {
    if s != [] && Units(s[0]) <= n {
      var rest := Utf16Prefix(s[1..], n - Units(s[0]));
      Utf16PrefixFits(s[1..], n - Units(s[0]));
      Utf16LengthCons(s[0], rest);
    }
  }

  /** A text that fits in `n` units is kept whole. */
  lemma {:induction false} Utf16PrefixWhole(s: string, n: int)
    requires Utf16Length(s) <= n
    ensures Utf16Prefix(s, n) == s
    decreases |s|
  {
    if s != [] {
      Utf16LengthCons(s[0], s[1..]);
      assert [s[0]] + s[1..] == s;
      Utf16PrefixWhole(s[1..], n - Units(s[0]));
    }
  }

  /** Concatenation is associative; stated once so that proofs can regroup without extensionality. */
  lemma ConcatAssoc<T>(a: seq<T>, b: seq<T>, c: seq<T>)
    ensures a + (b + c) == (a + b) + c
  {
  }

  /** `s.split(sep)` for a one-character separator. */
  function Split(s: string, sep: char): (parts: seq<string>)
    ensures |parts| >= 1
    decreases |s|
  {
    if sep !in s then [s]
    else
      var k := FirstIndex(s, sep);
      [s[..k]] + Split(s[k + 1..], sep)
  }

  /** No part contains the separator, and joining the parts with it gives the text back. */
  lemma {:induction false} SplitParts(s: string, sep: char)
    ensures var parts := Split(s, sep);
      (forall i :: 0 <= i < |parts| ==> sep !in parts[i]) && Join(parts, sep) == s
    decreases |s|
  {
    if sep in s {
      var k := FirstIndex(s, sep);
      var head, tail := s[..k], s[k + 1..];
      var rest := Split(tail, sep);
      var parts := [head] + rest;
      assert Split(s, sep) == parts;
      SplitParts(tail, sep);
      assert Join(parts, sep) == head + [sep] + Join(rest, sep) by {
        assert parts[1..] == rest;
      }
      assert head + [sep] + tail == s by { PieceAround(s, k); }
      forall i | 0 <= i < |parts| ensures sep !in parts[i] {
        if i > 0 {
          assert parts[i] == rest[i - 1];
        }
      }
    }
  }

  /** A text is what comes before position `k`, the character at `k` and what follows. */
  lemma PieceAround<T>(s: seq<T>, k: nat)
    requires k < |s|
    ensures s[..k] + [s[k]] + s[k + 1..] == s
  {
    assert s[k..] == [s[k]] + s[k + 1..];
    assert s == s[..k] + s[k..];
    ConcatAssoc(s[..k], [s[k]], s[k + 1..]);
  }

  /** The parts joined back with the separator between them. */
  function Join(parts: seq<string>, sep: char): string
    requires |parts| >= 1
  {
    if |parts| == 1 then parts[0] else parts[0] + [sep] + Join(parts[1..], sep)
  }

  function FirstIndex(s: string, c: char): (k: nat)
    requires c in s
    ensures k < |s| && s[k] == c && c !in s[..k]
  {
    if s[0] == c then 0 else 1 + FirstIndex(s[1..], c)
  }

  /** Lexicographic order on code points: how SQLite's BINARY collation orders UTF-8 text. */
  predicate LexLe(a: string, b: string)
    decreases |a|
  {
    a == [] || (b != [] && (a[0] < b[0] || (a[0] == b[0] && LexLe(a[1..], b[1..]))))
  }

  lemma {:induction false} LexLeTotal(a: string, b: string)
    ensures LexLe(a, b) || LexLe(b, a)
    decreases |a|
  {
    if a != [] && b != [] && a[0] == b[0] {
      LexLeTotal(a[1..], b[1..]);
    }
  }

  lemma {:induction false} LexLeTrans(a: string, b: string, c: string)
    requires LexLe(a, b) && LexLe(b, c)
    ensures LexLe(a, c)
    decreases |a|
  {
    if a != [] && a[0] == b[0] && b[0] == c[0] {
      LexLeTrans(a[1..], b[1..], c[1..]);
    }
  }

  lemma {:induction false} LexLeAntisym(a: string, b: string)
    requires LexLe(a, b) && LexLe(b, a)
    ensures a == b
    decreases |a|
  {
    if a != [] {
      LexLeAntisym(a[1..], b[1..]);
    }
  }

  /** `names[key] || key`: the table's name for a key, the key itself when it has none. */
  function NameOr(table: map<string, string>, key: string): string
  {
    if key in table && table[key] != "" then table[key] else key
  }

  /** A name table whose every name is non-empty and differs from its key. */
  predicate ProperNames(table: map<string, string>)
  {
    forall k :: k in table ==> table[k] != "" && table[k] != k
  }

  /** In a proper table the lookup returns the key itself exactly when the key has no entry. */
  lemma NameOrSpec(table: map<string, string>, key: string)
    requires ProperNames(table)
    ensures NameOr(table, key) == key <==> key !in table
    ensures key in table ==> NameOr(table, key) == table[key]
  {
  }
}
