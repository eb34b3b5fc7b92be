/**
 * HTML escaping as the renderer and the admin page do it before putting
 * text into `innerHTML`. src/renderer/js/utils.js and the admin page's
 * admin.js replace the five characters `& < > " '`; src/renderer/js/app.js
 * also replaces `/`, the backtick and `=`.
 */
module Html {
  import opened Wrappers
  import opened Text

  /** Which characters a call replaces: the five HTML ones, or those and `/`, backtick, `=`. */
  datatype Table = Basic | Extended

  predicate Escaped(c: char, t: Table)
  {
    c == '&' || c == '<' || c == '>' || c == '"' || c == '\'' || (t == Extended && (c == '/' || c == '`' || c == '='))
  }

  /** The entity each table maps a replaced character to. */
  function Entity(c: char): string
  {
    match c
    case '&' => "&amp;"
    case '<' => "&lt;"
    case '>' => "&gt;"
    case '"' => "&quot;"
    case '\'' => "&#039;"
    case '/' => "&#x2F;"
    case '`' => "&#x60;"
    case '=' => "&#x3D;"
    case _ => [c]
  }

  function EscapeChar(c: char, t: Table): string
  {
    if Escaped(c, t) then Entity(c) else [c]
  }

  /** `String(str).replace(/[...]/g, s => map[s])`: every replaced character by its entity, the rest as it is. */
  function Escape(s: string, t: Table): (r: string)
    ensures |s| <= |r| <= 6 * |s|
  {
    if s == [] then [] else EscapeChar(s[0], t) + Escape(s[1..], t)
  }

  /**
   * `escapeHtml(str)`: `null`, `undefined` (and, in app.js and admin.js,
   * any falsy value) give the empty text; both are `None` here.
   */
  function EscapeHtml(str: Option<string>, t: Table): (r: string)
    ensures str.None? ==> r == ""
    ensures str == Some("") ==> r == ""
  {
    if str.None? then "" else Escape(str.value, t)
  }

  /** Reading escaped text back: each entity of the table becomes its character again. */
  function Unescape(s: string, t: Table): string
    decreases |s|
  {
    if s == [] then []
    else if StartsWith(s, "&amp;") then "&" + Unescape(s[5..], t)
    else if StartsWith(s, "&lt;") then "<" + Unescape(s[4..], t)
    else if StartsWith(s, "&gt;") then ">" + Unescape(s[4..], t)
    else if StartsWith(s, "&quot;") then "\"" + Unescape(s[6..], t)
    else if StartsWith(s, "&#039;") then "'" + Unescape(s[6..], t)
    else if t == Extended && StartsWith(s, "&#x2F;") then "/" + Unescape(s[6..], t)
    else if t == Extended && StartsWith(s, "&#x60;") then "`" + Unescape(s[6..], t)
    else if t == Extended && StartsWith(s, "&#x3D;") then "=" + Unescape(s[6..], t)
    else [s[0]] + Unescape(s[1..], t)
  }

  lemma UnescapePlain(c: char, rest: string, t: Table)
    requires c != '&'
    ensures Unescape([c] + rest, t) == [c] + Unescape(rest, t)
  {
    var s := [c] + rest;
    assert s[1..] == rest;
    assert !StartsWith(s, "&amp;") && !StartsWith(s, "&lt;") && !StartsWith(s, "&gt;") && !StartsWith(s, "&quot;") by {
      NoEntityAt(s, "&amp;");
      NoEntityAt(s, "&lt;");
      NoEntityAt(s, "&gt;");
      NoEntityAt(s, "&quot;");
    }
    assert !StartsWith(s, "&#039;") && !StartsWith(s, "&#x2F;") && !StartsWith(s, "&#x60;") && !StartsWith(s, "&#x3D;") by {
      NoEntityAt(s, "&#039;");
      NoEntityAt(s, "&#x2F;");
      NoEntityAt(s, "&#x60;");
      NoEntityAt(s, "&#x3D;");
    }
  }

  /** Text whose first character is not `&` starts no entity. */
  lemma NoEntityAt(s: string, entity: string)
    requires s != [] && s[0] != '&' && entity != [] && entity[0] == '&'
    ensures !StartsWith(s, entity)
  {
  }

  lemma UnescapeAmp(rest: string, t: Table)
    ensures Unescape("&amp;" + rest, t) == "&" + Unescape(rest, t)
  {
    var s := "&amp;" + rest;
    assert s[..5] == "&amp;" && s[5..] == rest;
  }

  lemma UnescapeLt(rest: string, t: Table)
    ensures Unescape("&lt;" + rest, t) == "<" + Unescape(rest, t)
  {
    var s := "&lt;" + rest;
    assert s[..4] == "&lt;" && s[4..] == rest;
    assert s[1] == 'l';
  }

  lemma UnescapeGt(rest: string, t: Table)
    ensures Unescape("&gt;" + rest, t) == ">" + Unescape(rest, t)
  {
    var s := "&gt;" + rest;
    assert s[..4] == "&gt;" && s[4..] == rest;
    assert s[1] == 'g';
  }

  lemma UnescapeQuot(rest: string, t: Table)
    ensures Unescape("&quot;" + rest, t) == "\"" + Unescape(rest, t)
  {
    var s := "&quot;" + rest;
    assert s[..6] == "&quot;" && s[6..] == rest;
    assert s[1] == 'q';
  }

  lemma UnescapeApos(rest: string, t: Table)
    ensures Unescape("&#039;" + rest, t) == "'" + Unescape(rest, t)
  {
    var s := "&#039;" + rest;
    assert s[..6] == "&#039;" && s[6..] == rest;
    assert s[1] == '#' && s[2] == '0';
  }

  lemma UnescapeSlash(rest: string)
    ensures Unescape("&#x2F;" + rest, Extended) == "/" + Unescape(rest, Extended)
  {
    var s := "&#x2F;" + rest;
    assert s[..6] == "&#x2F;" && s[6..] == rest;
    assert s[1] == '#' && s[2] == 'x';
  }

  lemma UnescapeBacktick(rest: string)
    ensures Unescape("&#x60;" + rest, Extended) == "`" + Unescape(rest, Extended)
  {
    var s := "&#x60;" + rest;
    assert s[..6] == "&#x60;" && s[6..] == rest;
    assert s[1] == '#' && s[2] == 'x' && s[3] == '6';
  }

  lemma UnescapeEquals(rest: string)
    ensures Unescape("&#x3D;" + rest, Extended) == "=" + Unescape(rest, Extended)
  {
    var s := "&#x3D;" + rest;
    assert s[..6] == "&#x3D;" && s[6..] == rest;
    assert s[1] == '#' && s[2] == 'x' && s[3] == '3';
  }

  /** Each character's replacement reads back as that character, whatever follows it. */
  lemma UnescapeChar(c: char, rest: string, t: Table)
    ensures Unescape(EscapeChar(c, t) + rest, t) == [c] + Unescape(rest, t)
  {
    if !Escaped(c, t) {
      UnescapePlain(c, rest, t);
    } else if c == '&' {
      UnescapeAmp(rest, t);
    } else if c == '<' {
      UnescapeLt(rest, t);
    } else if c == '>' {
      UnescapeGt(rest, t);
    } else if c == '"' {
      UnescapeQuot(rest, t);
    } else if c == '\'' {
      UnescapeApos(rest, t);
    } else if c == '/' {
      UnescapeSlash(rest);
    } else if c == '`' {
      UnescapeBacktick(rest);
    } else {
      UnescapeEquals(rest);
    }
  }

  /** Escaping loses nothing: the escaped text reads back as the original. */
  lemma {:induction false} EscapeRoundTrip(s: string, t: Table)
    ensures Unescape(Escape(s, t), t) == s
    decreases |s|
  {
    if s != [] {
      UnescapeChar(s[0], Escape(s[1..], t), t);
      EscapeRoundTrip(s[1..], t);
      assert [s[0]] + s[1..] == s;
    }
  }

  /** Escaping distributes over concatenation. */
  lemma {:induction false} EscapeAppend(a: string, b: string, t: Table)
    ensures Escape(a + b, t) == Escape(a, t) + Escape(b, t)
    decreases |a|
  {
    if a == [] {
      assert a + b == b;
    } else {
      var head := EscapeChar(a[0], t);
      assert Escape(a + b, t) == head + Escape(a[1..] + b, t) by {
        assert (a + b)[0] == a[0] && (a + b)[1..] == a[1..] + b;
      }
      EscapeAppend(a[1..], b, t);
      ConcatAssoc(head, Escape(a[1..], t), Escape(b, t));
    }
  }

  /** Escaped text holds no replaced character except the `&` that opens an entity. */
  lemma {:induction false} EscapeSafe(s: string, t: Table)
    ensures forall i :: 0 <= i < |Escape(s, t)| ==> Escape(s, t)[i] == '&' || !Escaped(Escape(s, t)[i], t)
    decreases |s|
  {
    if s != [] {
      EscapeSafe(s[1..], t);
      var head := EscapeChar(s[0], t);
      assert forall i :: 0 <= i < |head| ==> head[i] == '&' || !Escaped(head[i], t);
      var e := Escape(s, t);
      assert e == head + Escape(s[1..], t);
      forall i | 0 <= i < |e| ensures e[i] == '&' || !Escaped(e[i], t) {
        if i >= |head| {
          assert e[i] == Escape(s[1..], t)[i - |head|];
        }
      }
    }
  }

  /** Text without a replaced character is left unchanged. */
  lemma {:induction false} EscapePlainText(s: string, t: Table)
    requires forall i :: 0 <= i < |s| ==> !Escaped(s[i], t)
    ensures Escape(s, t) == s
    decreases |s|
  {
    if s != [] {
      EscapePlainText(s[1..], t);
      assert [s[0]] + s[1..] == s;
    }
  }
}
