/** `escapeHtml` of public/js/script.js: five global `String.prototype.replace`
    calls that rewrite the HTML-significant characters `& < > " '` into
    character references, `&` first. */
module Escape {

  /** `s.replace(/c/g, rep)` for a one-character pattern: every occurrence of
      `c` in `s`, left to right, is replaced by `rep`; nothing else changes. */
  function ReplaceAll(s: string, c: char, rep: string): (r: string)
    ensures forall x :: x in r ==> (x in s && x != c) || x in rep
    ensures c !in s ==> r == s
  {
    if s == [] then []
    else (if s[0] == c then rep else [s[0]]) + ReplaceAll(s[1..], c, rep)
  }

  /** A global replace works piece by piece. */
  lemma {:induction false} ReplaceAllConcat(a: string, b: string, c: char, rep: string)
    ensures ReplaceAll(a + b, c, rep) == ReplaceAll(a, c, rep) + ReplaceAll(b, c, rep)
  {
    if a == [] {
      assert a + b == b;
    } else {
      assert (a + b)[0] == a[0] && (a + b)[1..] == a[1..] + b;
      ReplaceAllConcat(a[1..], b, c, rep);
    }
  }

  /** The escaping chain exactly as the source writes it, `&` first. */
  function EscapeHtml(s: string): (r: string)
    ensures '<' !in r && '>' !in r && '"' !in r && '\'' !in r
  {
    var amp := ReplaceAll(s, '&', "&amp;");
    var lt := ReplaceAll(amp, '<', "&lt;");
    assert '<' !in lt;
    var gt := ReplaceAll(lt, '>', "&gt;");
    assert '<' !in gt && '>' !in gt;
    var quot := ReplaceAll(gt, '"', "&quot;");
    assert '<' !in quot && '>' !in quot && '"' !in quot;
    ReplaceAll(quot, '\'', "&#039;")
  }

  /** The character reference (or the character itself) each input character
      stands for in the output. */
  function EscapeChar(x: char): string
  {
    if x == '&' then "&amp;"
    else if x == '<' then "&lt;"
    else if x == '>' then "&gt;"
    else if x == '"' then "&quot;"
    else if x == '\'' then "&#039;"
    else [x]
  }

  /** Reference definition: one substitution per input character. */
  function EscapeMap(s: string): string
  {
    if s == [] then [] else EscapeChar(s[0]) + EscapeMap(s[1..])
  }

  lemma EscapeHtmlConcat(a: string, b: string)
    ensures EscapeHtml(a + b) == EscapeHtml(a) + EscapeHtml(b)
  {
    var a1, b1 := ReplaceAll(a, '&', "&amp;"), ReplaceAll(b, '&', "&amp;");
    ReplaceAllConcat(a, b, '&', "&amp;");
    var a2, b2 := ReplaceAll(a1, '<', "&lt;"), ReplaceAll(b1, '<', "&lt;");
    ReplaceAllConcat(a1, b1, '<', "&lt;");
    var a3, b3 := ReplaceAll(a2, '>', "&gt;"), ReplaceAll(b2, '>', "&gt;");
    ReplaceAllConcat(a2, b2, '>', "&gt;");
    var a4, b4 := ReplaceAll(a3, '"', "&quot;"), ReplaceAll(b3, '"', "&quot;");
    ReplaceAllConcat(a3, b3, '"', "&quot;");
    ReplaceAllConcat(a4, b4, '\'', "&#039;");
  }

  lemma ReplaceAllSingle(x: char, c: char, rep: string)
    ensures ReplaceAll([x], c, rep) == if x == c then rep else [x]
  {
    assert [x][1..] == [];
  }

  /** One character through five successive replaces of distinct characters,
      where no replacement text holds a character replaced after it: the
      character is rewritten by the first step that names it, if any. */
  lemma FiveReplaces(x: char, c1: char, r1: string, c2: char, r2: string, c3: char, r3: string,
                     c4: char, r4: string, c5: char, r5: string)
    requires c2 !in r1 && c3 !in r1 && c4 !in r1 && c5 !in r1
    requires c3 !in r2 && c4 !in r2 && c5 !in r2
    requires c4 !in r3 && c5 !in r3
    requires c5 !in r4
    ensures ReplaceAll(ReplaceAll(ReplaceAll(ReplaceAll(ReplaceAll([x], c1, r1), c2, r2), c3, r3), c4, r4), c5, r5)
         == if x == c1 then r1 else if x == c2 then r2 else if x == c3 then r3
            else if x == c4 then r4 else if x == c5 then r5 else [x]
  {
    var t1 := ReplaceAll([x], c1, r1);
    ReplaceAllSingle(x, c1, r1);
    var t2 := ReplaceAll(t1, c2, r2);
    if x == c1 { assert c2 !in t1; } else { ReplaceAllSingle(x, c2, r2); }
    var t3 := ReplaceAll(t2, c3, r3);
    if x == c1 || x == c2 { assert c3 !in t2; } else { ReplaceAllSingle(x, c3, r3); }
    var t4 := ReplaceAll(t3, c4, r4);
    if x == c1 || x == c2 || x == c3 { assert c4 !in t3; } else { ReplaceAllSingle(x, c4, r4); }
    if x == c1 || x == c2 || x == c3 || x == c4 { assert c5 !in t4; } else { ReplaceAllSingle(x, c5, r5); }
  }

  lemma EscapeHtmlChar(x: char)
    ensures EscapeHtml([x]) == EscapeChar(x)
  {
    FiveReplaces(x, '&', "&amp;", '<', "&lt;", '>', "&gt;", '"', "&quot;", '\'', "&#039;");
  }

  /** The chain of five replaces equals the per-character substitution:
      because `&` is replaced first, the `&` of a reference introduced by a
      later step is never escaped again. */
  lemma {:induction false} EscapeHtmlIsPerCharacter(s: string)
    ensures EscapeHtml(s) == EscapeMap(s)
  {
    if s == [] {
    } else {
      assert s == [s[0]] + s[1..];
      EscapeHtmlConcat([s[0]], s[1..]);
      EscapeHtmlChar(s[0]);
      EscapeHtmlIsPerCharacter(s[1..]);
    }
  }

  /** The reference a later step introduces is not escaped again: `<`
      becomes `&lt;`, never `&amp;lt;`; and `&` becomes `&amp;` once. */
  lemma LaterEntitiesNotReescaped()
    ensures EscapeHtml("<") == "&lt;" && EscapeHtml("&") == "&amp;"
  {
    EscapeHtmlChar('<');
    assert "<" == ['<'];
    EscapeHtmlChar('&');
    assert "&" == ['&'];
  }

  /** `u` begins with one of the five character references. */
  predicate StartsWithEntity(u: string)
  {
    "&amp;" <= u || "&lt;" <= u || "&gt;" <= u || "&quot;" <= u || "&#039;" <= u
  }

  /** Text that cannot open a tag, close an attribute value, or start a
      character reference other than the five. */
  predicate Inert(t: string)
  {
    '<' !in t && '>' !in t && '"' !in t && '\'' !in t &&
    forall i :: 0 <= i < |t| && t[i] == '&' ==> StartsWithEntity(t[i..])
  }

  lemma PrefixExtends(p: string, u: string, v: string)
    requires p <= u
    ensures p <= u + v
  {
    assert (u + v)[..|p|] == u[..|p|];
  }

  lemma EntityExtends(u: string, v: string)
    requires StartsWithEntity(u)
    ensures StartsWithEntity(u + v)
  {
    if "&amp;" <= u { PrefixExtends("&amp;", u, v); }
    else if "&lt;" <= u { PrefixExtends("&lt;", u, v); }
    else if "&gt;" <= u { PrefixExtends("&gt;", u, v); }
    else if "&quot;" <= u { PrefixExtends("&quot;", u, v); }
    else { PrefixExtends("&#039;", u, v); }
  }

  lemma InertConcat(a: string, b: string)
    requires Inert(a) && Inert(b)
    ensures Inert(a + b)
  {
    forall i | 0 <= i < |a + b| && (a + b)[i] == '&'
      ensures StartsWithEntity((a + b)[i..])
    {
      if i < |a| {
        assert (a + b)[i..] == a[i..] + b;
        EntityExtends(a[i..], b);
      } else {
        assert (a + b)[i..] == b[i - |a|..];
      }
    }
  }

  /** A reference whose only `&` is its first character is inert. */
  lemma ReferenceInert(e: string)
    requires StartsWithEntity(e)
    requires '&' !in e[1..] && '<' !in e && '>' !in e && '"' !in e && '\'' !in e
    ensures Inert(e)
  {
    forall i | 0 <= i < |e| && e[i] == '&' ensures StartsWithEntity(e[i..]) {
      assert i == 0;
      assert e[0..] == e;
    }
  }

  lemma EscapeCharInert(x: char)
    ensures Inert(EscapeChar(x))
  {
    if x == '&' {
      assert "&amp;"[1..] == "amp;";
      ReferenceInert("&amp;");
    } else if x == '<' {
      assert "&lt;"[1..] == "lt;";
      ReferenceInert("&lt;");
    } else if x == '>' {
      assert "&gt;"[1..] == "gt;";
      ReferenceInert("&gt;");
    } else if x == '"' {
      assert "&quot;"[1..] == "quot;";
      ReferenceInert("&quot;");
    } else if x == '\'' {
      assert "&#039;"[1..] == "#039;";
      ReferenceInert("&#039;");
    } else {
      assert EscapeChar(x) == [x];
    }
  }

  lemma {:induction false} EscapeMapInert(s: string)
    ensures Inert(EscapeMap(s))
  {
    if s == [] {
    } else {
      EscapeCharInert(s[0]);
      EscapeMapInert(s[1..]);
      InertConcat(EscapeChar(s[0]), EscapeMap(s[1..]));
    }
  }

  /** The escaped text holds no raw `<`, `>`, `"` or `'`, and every `&` in it
      begins one of the five references. */
  lemma EscapeHtmlInert(s: string)
    ensures Inert(EscapeHtml(s))
  {
    EscapeHtmlIsPerCharacter(s);
    EscapeMapInert(s);
  }

  /** The five character references read back into the characters they
      stand for; every other character is kept as it is. This covers only
      the references escaping writes, not the rest of an HTML parser (such
      as its newline and NUL handling). */
  function DecodeEntities(t: string): (r: string)
    ensures |r| <= |t|
    decreases |t|
  {
    if t == [] then []
    else if "&amp;" <= t then "&" + DecodeEntities(t[5..])
    else if "&lt;" <= t then "<" + DecodeEntities(t[4..])
    else if "&gt;" <= t then ">" + DecodeEntities(t[4..])
    else if "&quot;" <= t then "\"" + DecodeEntities(t[6..])
    else if "&#039;" <= t then "'" + DecodeEntities(t[6..])
    else [t[0]] + DecodeEntities(t[1..])
  }

  lemma DecodeEscapedChar(x: char, rest: string)
    ensures DecodeEntities(EscapeChar(x) + rest) == [x] + DecodeEntities(rest)
  {
    var t := EscapeChar(x) + rest;
    var e := EscapeChar(x);
    assert t[..|e|] == e;
    assert t[|e|..] == rest;
    if x == '&' {
      assert "&amp;" <= t;
    } else if x == '<' {
      assert t[1] == 'l';
      assert "&lt;" <= t;
    } else if x == '>' {
      assert t[1] == 'g';
      assert "&gt;" <= t;
    } else if x == '"' {
      assert t[1] == 'q';
      assert "&quot;" <= t;
    } else if x == '\'' {
      assert t[1] == '#';
      assert "&#039;" <= t;
    } else {
      assert t[0] == x;
    }
  }

  /** Escaping loses nothing: decoding the five references gives back the
      original string. */
  lemma {:induction false} DecodeEscapeMap(s: string)
    ensures DecodeEntities(EscapeMap(s)) == s
  {
    if s == [] {
    } else {
      DecodeEscapedChar(s[0], EscapeMap(s[1..]));
      DecodeEscapeMap(s[1..]);
      assert s == [s[0]] + s[1..];
    }
  }

  lemma DecodeEscapeHtml(s: string)
    ensures DecodeEntities(EscapeHtml(s)) == s
  {
    EscapeHtmlIsPerCharacter(s);
    DecodeEscapeMap(s);
  }
}
