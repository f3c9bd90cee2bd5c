/**
 * `escapeHtml` of src/vscode/integration.ts: five global replacements applied
 * one after the other, `&` first.  It is proved equal to escaping each
 * character on its own, and from that: no markup character survives, every
 * `&` starts an entity, the length grows by a fixed amount per character, and
 * the escaping can be undone.
 */
module HtmlEscape {

  /** `s.replace(/c/g, rep)` for a single character `c`. */
  function ReplaceAll(s: string, c: char, rep: string): (r: string)
    ensures forall x :: x in r <==> (x in s && x != c) || (c in s && x in rep)
  {
    if s == [] then [] else (if s[0] == c then rep else [s[0]]) + ReplaceAll(s[1..], c, rep)
  }

  /** escapeHtml as written: `&`, then `"`, then `'`, then `<`, then `>`. */
  function EscapeHtml(text: string): (r: string)
    ensures '<' !in r && '>' !in r && '"' !in r && '\'' !in r
  {
    var amp := ReplaceAll(text, '&', "&amp;");
    var quot := ReplaceAll(amp, '"', "&quot;");
    var apos := ReplaceAll(quot, '\'', "&#39;");
    var lt := ReplaceAll(apos, '<', "&lt;");
    ReplaceAll(lt, '>', "&gt;")
  }

  /** The entity of one character; every other character stands for itself. */
  function EscapeChar(c: char): string
  {
    if c == '&' then "&amp;"
    else if c == '"' then "&quot;"
    else if c == '\'' then "&#39;"
    else if c == '<' then "&lt;"
    else if c == '>' then "&gt;"
    else [c]
  }

  /** The reference escaping: each character replaced by its entity, independently. */
  function EscapeEach(s: string): string
  {
    if s == [] then [] else EscapeChar(s[0]) + EscapeEach(s[1..])
  }

  lemma {:induction false} ReplaceAllAppend(a: string, b: string, c: char, rep: string)
    ensures ReplaceAll(a + b, c, rep) == ReplaceAll(a, c, rep) + ReplaceAll(b, c, rep)
  {
    if a == [] {
      assert a + b == b;
    } else {
      assert (a + b)[1..] == a[1..] + b;
      ReplaceAllAppend(a[1..], b, c, rep);
    }
  }

  lemma {:induction false} ReplaceAllAbsent(s: string, c: char, rep: string)
    requires c !in s
    ensures ReplaceAll(s, c, rep) == s
  {
    if s != [] {
      ReplaceAllAbsent(s[1..], c, rep);
    }
  }

  lemma ReplaceAllOne(x: char, c: char, rep: string)
    ensures ReplaceAll([x], c, rep) == if x == c then rep else [x]
  {
    assert [x][1..] == [];
  }

  /** The chain of replacements distributes over concatenation. */
  lemma EscapeHtmlAppend(a: string, b: string)
    ensures EscapeHtml(a + b) == EscapeHtml(a) + EscapeHtml(b)
  {
    ReplaceAllAppend(a, b, '&', "&amp;");
    var a1, b1 := ReplaceAll(a, '&', "&amp;"), ReplaceAll(b, '&', "&amp;");
    ReplaceAllAppend(a1, b1, '"', "&quot;");
    var a2, b2 := ReplaceAll(a1, '"', "&quot;"), ReplaceAll(b1, '"', "&quot;");
    ReplaceAllAppend(a2, b2, '\'', "&#39;");
    var a3, b3 := ReplaceAll(a2, '\'', "&#39;"), ReplaceAll(b2, '\'', "&#39;");
    ReplaceAllAppend(a3, b3, '<', "&lt;");
    var a4, b4 := ReplaceAll(a3, '<', "&lt;"), ReplaceAll(b3, '<', "&lt;");
    ReplaceAllAppend(a4, b4, '>', "&gt;");
  }

  /** A replacement that comes after an entity's own leaves that entity alone. */
  lemma EntityUntouched(e: string, c: char, rep: string)
    requires || (e == "&amp;" && c in "\"'<>")
             || (e == "&quot;" && c in "'<>")
             || (e == "&#39;" && c in "<>")
             || (e == "&lt;" && c == '>')
    ensures ReplaceAll(e, c, rep) == e
  {
    assert c !in e;
    ReplaceAllAbsent(e, c, rep);
  }

  /** On one character the chain yields that character's entity: no later replacement touches an earlier entity. */
  lemma EscapeHtmlChar(x: char)
    ensures EscapeHtml([x]) == EscapeChar(x)
  {
    var e := EscapeChar(x);
    ReplaceAllOne(x, '&', "&amp;");
    var s1 := ReplaceAll([x], '&', "&amp;");
    ReplaceAllOne(x, '"', "&quot;");
    var s2 := ReplaceAll(s1, '"', "&quot;");
    ReplaceAllOne(x, '\'', "&#39;");
    var s3 := ReplaceAll(s2, '\'', "&#39;");
    ReplaceAllOne(x, '<', "&lt;");
    var s4 := ReplaceAll(s3, '<', "&lt;");
    ReplaceAllOne(x, '>', "&gt;");
    var s5 := ReplaceAll(s4, '>', "&gt;");
    assert EscapeHtml([x]) == s5;
    if e == [x] {
      assert s1 == [x] && s2 == [x] && s3 == [x] && s4 == [x] && s5 == [x];
    } else {
      if x == '&' {
        EntityUntouched(e, '"', "&quot;");
        EntityUntouched(e, '\'', "&#39;");
        EntityUntouched(e, '<', "&lt;");
        EntityUntouched(e, '>', "&gt;");
      } else if x == '"' {
        EntityUntouched(e, '\'', "&#39;");
        EntityUntouched(e, '<', "&lt;");
        EntityUntouched(e, '>', "&gt;");
      } else if x == '\'' {
        EntityUntouched(e, '<', "&lt;");
        EntityUntouched(e, '>', "&gt;");
      } else if x == '<' {
        EntityUntouched(e, '>', "&gt;");
      }
    }
  }

  /** The five replacements in sequence escape each character independently. */
  lemma {:induction false} EscapeHtmlPerChar(s: string)
    ensures EscapeHtml(s) == EscapeEach(s)
  {
    if s == [] {
    } else {
      assert s == [s[0]] + s[1..];
      EscapeHtmlAppend([s[0]], s[1..]);
      EscapeHtmlChar(s[0]);
      EscapeHtmlPerChar(s[1..]);
    }
  }

  // ---------------------------------------------------------------- properties

  /** `e` occurs in `r` at position `i`. */
  predicate HasAt(r: string, i: nat, e: string)
  {
    i + |e| <= |r| && r[i..i + |e|] == e
  }

  /** One of the five entities starts at position `i`. */
  predicate EntityAt(r: string, i: nat)
  {
    HasAt(r, i, "&amp;") || HasAt(r, i, "&quot;") || HasAt(r, i, "&#39;") || HasAt(r, i, "&lt;") || HasAt(r, i, "&gt;")
  }

  lemma {:induction false} EscapeEachAmpersand(s: string, i: nat)
    requires i < |EscapeEach(s)| && EscapeEach(s)[i] == '&'
    ensures EntityAt(EscapeEach(s), i)
  {
    var head, rest := EscapeChar(s[0]), EscapeEach(s[1..]);
    var r := EscapeEach(s);
    assert r == head + rest;
    if i < |head| {
      assert head[i] == '&';
      assert i == 0 && head in {"&amp;", "&quot;", "&#39;", "&lt;", "&gt;"};
      assert r[..|head|] == head;
    } else {
      var j := i - |head|;
      assert rest[j] == '&';
      EscapeEachAmpersand(s[1..], j);
      assert forall e: string :: HasAt(rest, j, e) ==> HasAt(r, i, e) by {
        forall e: string | HasAt(rest, j, e)
          ensures HasAt(r, i, e)
        {
          assert r[i..i + |e|] == rest[j..j + |e|];
        }
      }
    }
  }

  /** Every `&` of the output starts one of the five entities: nothing is left half-escaped. */
  lemma EscapeHtmlAmpersand(s: string, i: nat)
    requires i < |EscapeHtml(s)| && EscapeHtml(s)[i] == '&'
    ensures EntityAt(EscapeHtml(s), i)
  {
    EscapeHtmlPerChar(s);
    EscapeEachAmpersand(s, i);
  }

  /** How many times `c` occurs in `s`. */
  function Count(s: string, c: char): nat
  {
    if s == [] then 0 else (if s[0] == c then 1 else 0) + Count(s[1..], c)
  }

  lemma {:induction false} EscapeEachLength(s: string)
    ensures |EscapeEach(s)| == |s| + 4 * Count(s, '&') + 5 * Count(s, '"') + 4 * Count(s, '\'') + 3 * Count(s, '<') + 3 * Count(s, '>')
  {
    if s != [] {
      EscapeEachLength(s[1..]);
    }
  }

  /** Each `&` adds 4 characters, `"` 5, `'` 4, `<` 3 and `>` 3. */
  lemma EscapeHtmlLength(s: string)
    ensures |EscapeHtml(s)| == |s| + 4 * Count(s, '&') + 5 * Count(s, '"') + 4 * Count(s, '\'') + 3 * Count(s, '<') + 3 * Count(s, '>')
  {
    EscapeHtmlPerChar(s);
    EscapeEachLength(s);
  }

  /** Text without any of the five characters comes back unchanged. */
  lemma EscapeHtmlIdentity(s: string)
    requires '&' !in s && '"' !in s && '\'' !in s && '<' !in s && '>' !in s
    ensures EscapeHtml(s) == s
  {
    ReplaceAllAbsent(s, '&', "&amp;");
    ReplaceAllAbsent(s, '"', "&quot;");
    ReplaceAllAbsent(s, '\'', "&#39;");
    ReplaceAllAbsent(s, '<', "&lt;");
    ReplaceAllAbsent(s, '>', "&gt;");
  }

  /** Reads the five entities back, left to right; every other character stands for itself. */
  function Unescape(r: string): string
    decreases |r|
  {
    if r == [] then []
    else if "&amp;" <= r then "&" + Unescape(r[5..])
    else if "&quot;" <= r then "\"" + Unescape(r[6..])
    else if "&#39;" <= r then "'" + Unescape(r[5..])
    else if "&lt;" <= r then "<" + Unescape(r[4..])
    else if "&gt;" <= r then ">" + Unescape(r[4..])
    else [r[0]] + Unescape(r[1..])
  }

  lemma {:induction false} UnescapeEscapeEach(s: string)
    ensures Unescape(EscapeEach(s)) == s
  {
    if s != [] {
      var head, rest := EscapeChar(s[0]), EscapeEach(s[1..]);
      var r := head + rest;
      assert EscapeEach(s) == r;
      assert r[..|head|] == head;
      assert r[|head|..] == rest;
      UnescapeEscapeEach(s[1..]);
      if s[0] == '&' {
        assert "&amp;" <= r;
      } else if s[0] == '"' {
        assert r[1] == 'q';
        assert "&quot;" <= r;
      } else if s[0] == '\'' {
        assert r[1] == '#';
        assert "&#39;" <= r;
      } else if s[0] == '<' {
        assert r[1] == 'l' && r[2] == 't';
        assert "&lt;" <= r;
      } else if s[0] == '>' {
        assert r[1] == 'g';
        assert "&gt;" <= r;
      } else {
        assert r[0] == s[0] != '&';
      }
    }
  }

  /** Replacing the entities back recovers the text. */
  lemma EscapeHtmlRoundTrip(s: string)
    ensures Unescape(EscapeHtml(s)) == s
  {
    EscapeHtmlPerChar(s);
    UnescapeEscapeEach(s);
  }

  /** Different texts never escape to the same HTML. */
  lemma EscapeHtmlInjective(a: string, b: string)
    ensures EscapeHtml(a) == EscapeHtml(b) ==> a == b
  {
    EscapeHtmlRoundTrip(a);
    EscapeHtmlRoundTrip(b);
  }
}
