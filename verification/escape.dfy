/** HTML escaping. js/utils.js (and its copy in app.js) escapes `&`, `<` and `>`; quiz/app.js also
    escapes `"` and `'`. Both are chains of `replaceAll` calls with `&` first; the model keeps the
    chain as written and proves it equal to a one-pass, character-by-character encoding. */
module Escape {

  function Count(s: string, c: char): (n: nat)
    ensures n <= |s|
    ensures n == 0 <==> c !in s
  {
    if |s| == 0 then 0 else (if s[0] == c then 1 else 0) + Count(s[1..], c)
  }

  /** `s.replaceAll(c, rep)` for a one-character pattern. */
  function ReplaceChar(s: string, c: char, rep: string): (r: string)
    ensures forall d :: d in r ==> (d in s && d != c) || d in rep
  {
    if |s| == 0 then ""
    else
      var r := (if s[0] == c then rep else [s[0]]) + ReplaceChar(s[1..], c, rep);
      assert forall d :: d in s[1..] ==> d in s;
      r
  }

  lemma {:induction false} ReplaceCharConcat(a: string, b: string, c: char, rep: string)
    ensures ReplaceChar(a + b, c, rep) == ReplaceChar(a, c, rep) + ReplaceChar(b, c, rep)
  {
    if |a| > 0 {
      assert (a + b)[1..] == a[1..] + b;
      ReplaceCharConcat(a[1..], b, c, rep);
    } else {
      assert a + b == b;
    }
  }

  lemma {:induction false} ReplaceCharAbsent(s: string, c: char, rep: string)
    requires c !in s
    ensures ReplaceChar(s, c, rep) == s
  {
    if |s| > 0 {
      ReplaceCharAbsent(s[1..], c, rep);
    }
  }

  lemma ReplaceCharSingle(d: char, c: char, rep: string)
    ensures ReplaceChar([d], c, rep) == if d == c then rep else [d]
  {
    assert [d][1..] == [];
  }

  /** The entity `escapeHtml` writes for one character; `strict` selects the quiz/app.js table,
      which also covers the two quote characters. */
  function Entity(c: char, strict: bool): string {
    if c == '&' then "&amp;"
    else if c == '<' then "&lt;"
    else if c == '>' then "&gt;"
    else if strict && c == '"' then "&quot;"
    else if strict && c == '\'' then "&#039;"
    else [c]
  }

  /** The reference encoding: every character replaced by its entity, in one pass. */
  function Encode(s: string, strict: bool): string {
    if |s| == 0 then "" else Entity(s[0], strict) + Encode(s[1..], strict)
  }

  /** The first three `replaceAll` calls, in source order. */
  function Replace3(s: string): string {
    ReplaceChar(ReplaceChar(ReplaceChar(s, '&', "&amp;"), '<', "&lt;"), '>', "&gt;")
  }

  /** The two extra `replaceAll` calls of the quiz/app.js variant. */
  function ReplaceQuotes(s: string): string {
    ReplaceChar(ReplaceChar(s, '"', "&quot;"), '\'', "&#039;")
  }

  lemma Replace3Concat(a: string, b: string)
    ensures Replace3(a + b) == Replace3(a) + Replace3(b)
  {
    var a1, b1 := ReplaceChar(a, '&', "&amp;"), ReplaceChar(b, '&', "&amp;");
    ReplaceCharConcat(a, b, '&', "&amp;");
    var a2, b2 := ReplaceChar(a1, '<', "&lt;"), ReplaceChar(b1, '<', "&lt;");
    ReplaceCharConcat(a1, b1, '<', "&lt;");
    ReplaceCharConcat(a2, b2, '>', "&gt;");
  }

  lemma ReplaceQuotesConcat(a: string, b: string)
    ensures ReplaceQuotes(a + b) == ReplaceQuotes(a) + ReplaceQuotes(b)
  {
    ReplaceCharConcat(a, b, '"', "&quot;");
    ReplaceCharConcat(ReplaceChar(a, '"', "&quot;"), ReplaceChar(b, '"', "&quot;"), '\'', "&#039;");
  }

  lemma Replace3Single(c: char)
    ensures Replace3([c]) == Entity(c, false)
  {
    var s1 := ReplaceChar([c], '&', "&amp;");
    assert s1 == if c == '&' then "&amp;" else [c] by {
      ReplaceCharSingle(c, '&', "&amp;");
    }
    if c == '&' {
      ReplaceCharAbsent(s1, '<', "&lt;");
      ReplaceCharAbsent(s1, '>', "&gt;");
    } else {
      var s2 := ReplaceChar(s1, '<', "&lt;");
      assert s2 == if c == '<' then "&lt;" else [c] by {
        ReplaceCharSingle(c, '<', "&lt;");
      }
      if c == '<' {
        ReplaceCharAbsent(s2, '>', "&gt;");
      } else {
        ReplaceCharSingle(c, '>', "&gt;");
      }
    }
  }

  lemma ReplaceQuotesEntity(c: char)
    ensures ReplaceQuotes(Entity(c, false)) == Entity(c, true)
  {
    var e := Entity(c, false);
    if c == '"' {
      assert ReplaceChar(e, '"', "&quot;") == "&quot;" by {
        ReplaceCharSingle(c, '"', "&quot;");
      }
      ReplaceCharAbsent("&quot;", '\'', "&#039;");
    } else if c == '\'' {
      assert ReplaceChar(e, '"', "&quot;") == e by {
        ReplaceCharSingle(c, '"', "&quot;");
      }
      ReplaceCharSingle(c, '\'', "&#039;");
    } else {
      assert '"' !in e && '\'' !in e;
      ReplaceCharAbsent(e, '"', "&quot;");
      ReplaceCharAbsent(e, '\'', "&#039;");
    }
  }

  /** The `replaceAll` chain of js/utils.js equals the one-pass encoding: replacing `&` first means
      no entity written by a later call is escaped again. */
  lemma {:induction false} Replace3IsEncode(s: string)
    ensures Replace3(s) == Encode(s, false)
  {
    if |s| > 0 {
      assert s == [s[0]] + s[1..];
      Replace3Concat([s[0]], s[1..]);
      Replace3Single(s[0]);
      Replace3IsEncode(s[1..]);
    } else {
      ReplaceCharAbsent(s, '&', "&amp;");
      ReplaceCharAbsent(s, '<', "&lt;");
      ReplaceCharAbsent(s, '>', "&gt;");
    }
  }

  /** The same for the five-call chain of quiz/app.js. */
  lemma {:induction false} ReplaceQuotesIsEncode(s: string)
    ensures ReplaceQuotes(Encode(s, false)) == Encode(s, true)
  {
    if |s| > 0 {
      ReplaceQuotesConcat(Entity(s[0], false), Encode(s[1..], false));
      ReplaceQuotesEntity(s[0]);
      ReplaceQuotesIsEncode(s[1..]);
    } else {
      ReplaceCharAbsent("", '"', "&quot;");
      ReplaceCharAbsent("", '\'', "&#039;");
    }
  }

  /** `t` begins with one of the entities the encoder writes. */
  predicate StartsEntity(t: string, strict: bool) {
    || "&amp;" <= t || "&lt;" <= t || "&gt;" <= t
    || (strict && ("&quot;" <= t || "&#039;" <= t))
  }

  /** Characters the encoder never leaves raw. */
  predicate Special(c: char, strict: bool) {
    c == '<' || c == '>' || (strict && (c == '"' || c == '\''))
  }

  /** Decoding of the five entities, left to right; every other character is kept. */
  function Unescape(t: string): string
    decreases |t|
  {
    if |t| == 0 then ""
    else if "&amp;" <= t then "&" + Unescape(t[5..])
    else if "&lt;" <= t then "<" + Unescape(t[4..])
    else if "&gt;" <= t then ">" + Unescape(t[4..])
    else if "&quot;" <= t then "\"" + Unescape(t[6..])
    else if "&#039;" <= t then "'" + Unescape(t[6..])
    else [t[0]] + Unescape(t[1..])
  }

  lemma UnescapePlain(c: char, rest: string)
    requires c != '&'
    ensures Unescape([c] + rest) == [c] + Unescape(rest)
  {
    var t := [c] + rest;
    assert t[0] == c;
    assert t[1..] == rest;
  }

  lemma UnescapeEntity(c: char, strict: bool, rest: string)
    ensures Unescape(Entity(c, strict) + rest) == [c] + Unescape(rest)
  {
    var e := Entity(c, strict);
    var t := e + rest;
    if e == [c] {
      UnescapePlain(c, rest);
    } else if c == '&' {
      assert "&amp;" <= t && t[5..] == rest;
    } else if c == '<' {
      assert t[1] == 'l' && "&lt;" <= t && t[4..] == rest;
    } else if c == '>' {
      assert t[1] == 'g' && "&gt;" <= t && t[4..] == rest;
    } else if c == '"' {
      assert t[1] == 'q' && "&quot;" <= t && t[6..] == rest;
    } else {
      assert t[1] == '#' && "&#039;" <= t && t[6..] == rest;
    }
  }

  /** No character of an entity is special, and only its first one is `&`. */
  lemma EntityShape(c: char, strict: bool)
    ensures forall i :: 0 <= i < |Entity(c, strict)| ==> !Special(Entity(c, strict)[i], strict)
    ensures forall i :: 0 < i < |Entity(c, strict)| ==> Entity(c, strict)[i] != '&'
    ensures Entity(c, strict)[0] == '&' ==> StartsEntity(Entity(c, strict), strict)
  {
  }

  /** The encoder leaves no raw special character. */
  lemma {:induction false} EncodeNoSpecial(s: string, strict: bool)
    ensures forall i :: 0 <= i < |Encode(s, strict)| ==> !Special(Encode(s, strict)[i], strict)
  {
    if |s| > 0 {
      var e, rest := Entity(s[0], strict), Encode(s[1..], strict);
      EncodeNoSpecial(s[1..], strict);
      EntityShape(s[0], strict);
      assert Encode(s, strict) == e + rest;
    }
  }

  /** Every `&` the encoder writes opens an entity. */
  lemma {:induction false} EncodeAmpersands(s: string, strict: bool)
    ensures forall i :: 0 <= i < |Encode(s, strict)| && Encode(s, strict)[i] == '&' ==>
              StartsEntity(Encode(s, strict)[i..], strict)
  {
    if |s| > 0 {
      var e, rest := Entity(s[0], strict), Encode(s[1..], strict);
      var r := e + rest;
      assert Encode(s, strict) == r;
      EncodeAmpersands(s[1..], strict);
      EntityShape(s[0], strict);
      forall i | 0 <= i < |r| && r[i] == '&'
        ensures StartsEntity(r[i..], strict)
      {
        if i < |e| {
          assert i == 0 && e <= r;
        } else {
          assert r[i..] == rest[i - |e|..];
        }
      }
    }
  }

  /** The encoder's output length: each escaped character grows by its entity's extra length. */
  lemma {:induction false} EncodeLength(s: string, strict: bool)
    ensures |Encode(s, strict)| == |s| + 4 * Count(s, '&') + 3 * Count(s, '<') + 3 * Count(s, '>')
              + (if strict then 5 * Count(s, '"') + 5 * Count(s, '\'') else 0)
  {
    if |s| > 0 {
      EncodeLength(s[1..], strict);
    }
  }

  /** The encoder works character by character, so it distributes over concatenation. */
  lemma {:induction false} EncodeConcat(a: string, b: string, strict: bool)
    ensures Encode(a + b, strict) == Encode(a, strict) + Encode(b, strict)
    decreases |a|
  {
    if |a| > 0 {
      assert (a + b)[1..] == a[1..] + b;
      EncodeConcat(a[1..], b, strict);
    } else {
      assert a + b == b;
    }
  }

  /** No double quote anywhere in `s`. */
  predicate NoQuote(s: string) {
    forall i :: 0 <= i < |s| ==> s[i] != '"'
  }

  lemma EntityQuoteFree(c: char)
    requires c != '"'
    ensures NoQuote(Entity(c, false))
  {
    if c == '&' {
      assert Entity(c, false) == "&amp;";
    } else if c == '<' {
      assert Entity(c, false) == "&lt;";
    } else if c == '>' {
      assert Entity(c, false) == "&gt;";
    }
  }

  /** The three-character encoder writes a double quote only where its input has one. */
  lemma {:induction false} EncodeQuoteFree(a: string)
    requires NoQuote(a)
    ensures NoQuote(Encode(a, false))
    decreases |a|
  {
    if |a| > 0 {
      EncodeQuoteFree(a[1..]);
      EntityQuoteFree(a[0]);
      var e, r := Entity(a[0], false), Encode(a[1..], false);
      assert Encode(a, false) == e + r;
      assert forall i :: |e| <= i < |e| + |r| ==> (e + r)[i] == r[i - |e|];
    }
  }

  /** Decoding inverts the encoder. */
  lemma {:induction false} DecodeEncode(s: string, strict: bool)
    ensures Unescape(Encode(s, strict)) == s
  {
    if |s| > 0 {
      DecodeEncode(s[1..], strict);
      UnescapeEntity(s[0], strict, Encode(s[1..], strict));
    }
  }

  /** `escapeHtml` of js/utils.js (and app.js). */
  function EscapeHtml(s: string): (r: string)
    ensures r == Encode(s, false)
    ensures '<' !in r && '>' !in r
    ensures forall i :: 0 <= i < |r| && r[i] == '&' ==> StartsEntity(r[i..], false)
    ensures |r| == |s| + 4 * Count(s, '&') + 3 * Count(s, '<') + 3 * Count(s, '>')
    ensures Unescape(r) == s
  {
    Replace3IsEncode(s);
    EncodeNoSpecial(s, false);
    EncodeAmpersands(s, false);
    EncodeLength(s, false);
    DecodeEncode(s, false);
    Replace3(s)
  }

  /** `escapeHtml` of quiz/app.js, which adds `"` and `'` to the chain. */
  function EscapeHtmlStrict(s: string): (r: string)
    ensures r == Encode(s, true)
    ensures '<' !in r && '>' !in r && '"' !in r && '\'' !in r
    ensures forall i :: 0 <= i < |r| && r[i] == '&' ==> StartsEntity(r[i..], true)
    ensures Unescape(r) == s
  {
    Replace3IsEncode(s);
    ReplaceQuotesIsEncode(s);
    EncodeNoSpecial(s, true);
    EncodeAmpersands(s, true);
    DecodeEncode(s, true);
    ReplaceQuotes(Replace3(s))
  }

  // ---------------------------------------------------------------------------------------------
  // What the HTML parser reads back

  /** No carriage return and no NUL anywhere in `s`. */
  predicate NoCrOrNul(s: string) {
    forall i :: 0 <= i < |s| ==> s[i] != '\r' && s[i] != '\0'
  }

  /** What the HTML parser makes of markup text before a tag's attribute value is stored: input
      preprocessing turns CR LF and a lone CR into LF, and the attribute-value state reads NUL as
      U+FFFD. */
  function Preprocess(t: string): string
    decreases |t|
  {
    if |t| == 0 then ""
    else
      var c, rest := t[0], t[1..];
      if c == '\r' then "\n" + Preprocess(SkipLf(rest))
      else if c == '\0' then "\U{FFFD}" + Preprocess(rest)
      else [c] + Preprocess(rest)
  }

  /** The text after a CR: one LF that completes a CR LF pair is dropped. */
  function SkipLf(t: string): (r: string)
    ensures |r| <= |t|
  {
    if |t| > 0 && t[0] == '\n' then t[1..] else t
  }

  /** The parser's rewriting leaves no CR or NUL, never lengthens the text, writes a double quote
      only where the text has one, and leaves text without CR or NUL as it is. */
  lemma {:induction false} PreprocessShape(t: string)
    ensures NoCrOrNul(Preprocess(t)) && |Preprocess(t)| <= |t|
    ensures NoQuote(t) ==> NoQuote(Preprocess(t))
    ensures NoCrOrNul(t) ==> Preprocess(t) == t
    decreases |t|
  {
    if |t| > 0 {
      var c, rest := t[0], t[1..];
      var next := if c == '\r' then SkipLf(rest) else rest;
      var h := if c == '\r' then "\n" else if c == '\0' then "\U{FFFD}" else [c];
      PreprocessShape(next);
      var p := Preprocess(next);
      assert Preprocess(t) == h + p;
      if NoQuote(t) {
        assert forall i :: 0 <= i < |rest| ==> rest[i] == t[i + 1];
        if c == '\r' && |rest| > 0 && rest[0] == '\n' {
          assert next == rest[1..];
          assert forall i :: 0 <= i < |next| ==> next[i] == rest[i + 1];
        }
      }
      assert forall i :: 0 <= i < |p| ==> (h + p)[i + 1] == p[i];
      if NoCrOrNul(t) {
        assert next == rest && h == [c];
      }
    }
  }

  /** One step of the parser's rewriting. */
  lemma PreprocessCons(c: char, rest: string)
    ensures Preprocess([c] + rest) ==
      if c == '\r' then "\n" + Preprocess(SkipLf(rest))
      else if c == '\0' then "\U{FFFD}" + Preprocess(rest)
      else [c] + Preprocess(rest)
  {
    assert ([c] + rest)[0] == c && ([c] + rest)[1..] == rest;
  }

  /** Text without CR or NUL passes through the parser unchanged, whatever follows it. */
  lemma {:induction false} PreprocessPlainPrefix(p: string, rest: string)
    requires NoCrOrNul(p) && (|p| > 0 ==> p[|p| - 1] != '\r')
    ensures Preprocess(p + rest) == p + Preprocess(rest)
    decreases |p|
  {
    if |p| > 0 {
      assert p + rest == [p[0]] + (p[1..] + rest);
      PreprocessCons(p[0], p[1..] + rest);
      PreprocessPlainPrefix(p[1..], rest);
    } else {
      assert p + rest == rest;
    }
  }

  lemma EncodeCons(c: char, s: string, strict: bool)
    ensures Encode([c] + s, strict) == Entity(c, strict) + Encode(s, strict)
  {
    assert ([c] + s)[0] == c && ([c] + s)[1..] == s;
  }

  /** The encoder writes an LF first exactly when its input starts with one. */
  lemma SkipLfEncode(s: string, strict: bool)
    ensures SkipLf(Encode(s, strict)) == Encode(SkipLf(s), strict)
  {
    if |s| > 0 {
      var e := Entity(s[0], strict);
      assert Encode(s, strict) == e + Encode(s[1..], strict);
      if s[0] == '\n' {
        assert e == "\n";
        assert (e + Encode(s[1..], strict))[1..] == Encode(s[1..], strict);
      } else {
        assert e[0] != '\n';
      }
    }
  }

  /** Escaping and the parser's rewrites commute: the encoder never writes CR or NUL and keeps
      them where they were. */
  lemma {:induction false} PreprocessEncode(s: string, strict: bool)
    ensures Preprocess(Encode(s, strict)) == Encode(Preprocess(s), strict)
    decreases |s|
  {
    if |s| > 0 {
      var c, rest := s[0], s[1..];
      assert s == [c] + rest;
      if c == '\r' {
        PreprocessEncode(SkipLf(rest), strict);
        CrStep(rest, strict);
      } else if c == '\0' {
        PreprocessEncode(rest, strict);
        NulStep(rest, strict);
      } else {
        PreprocessEncode(rest, strict);
        PlainStep(c, rest, strict);
      }
    }
  }

  lemma CrStep(rest: string, strict: bool)
    requires Preprocess(Encode(SkipLf(rest), strict)) == Encode(Preprocess(SkipLf(rest)), strict)
    ensures Preprocess(Encode("\r" + rest, strict)) == Encode(Preprocess("\r" + rest), strict)
  {
    var p := Preprocess(SkipLf(rest));
    calc {
      Preprocess(Encode("\r" + rest, strict));
      { EncodeCons('\r', rest, strict); }
      Preprocess("\r" + Encode(rest, strict));
      { PreprocessCons('\r', Encode(rest, strict)); SkipLfEncode(rest, strict); }
      "\n" + Encode(p, strict);
      { EncodeCons('\n', p, strict); }
      Encode("\n" + p, strict);
      { PreprocessCons('\r', rest); }
      Encode(Preprocess("\r" + rest), strict);
    }
  }

  lemma NulStep(rest: string, strict: bool)
    requires Preprocess(Encode(rest, strict)) == Encode(Preprocess(rest), strict)
    ensures Preprocess(Encode("\0" + rest, strict)) == Encode(Preprocess("\0" + rest), strict)
  {
    var p := Preprocess(rest);
    calc {
      Preprocess(Encode("\0" + rest, strict));
      { EncodeCons('\0', rest, strict); }
      Preprocess("\0" + Encode(rest, strict));
      { PreprocessCons('\0', Encode(rest, strict)); }
      "\U{FFFD}" + Encode(p, strict);
      { EncodeCons('\U{FFFD}', p, strict); }
      Encode("\U{FFFD}" + p, strict);
      { PreprocessCons('\0', rest); }
      Encode(Preprocess("\0" + rest), strict);
    }
  }

  /** An entity holds no CR and no NUL unless it is that character itself. */
  lemma EntityPlain(c: char, strict: bool)
    requires c != '\r' && c != '\0'
    ensures NoCrOrNul(Entity(c, strict)) && Entity(c, strict)[|Entity(c, strict)| - 1] != '\r'
  {
    var e := Entity(c, strict);
    if e != [c] {
      assert forall i :: 0 <= i < |e| ==> e[i] in "&amp;lt;gt;quot;#039";
    }
  }

  lemma PlainStep(c: char, rest: string, strict: bool)
    requires c != '\r' && c != '\0'
    requires Preprocess(Encode(rest, strict)) == Encode(Preprocess(rest), strict)
    ensures Preprocess(Encode([c] + rest, strict)) == Encode(Preprocess([c] + rest), strict)
  {
    var en, p := Entity(c, strict), Preprocess(rest);
    EntityPlain(c, strict);
    calc {
      Preprocess(Encode([c] + rest, strict));
      { EncodeCons(c, rest, strict); }
      Preprocess(en + Encode(rest, strict));
      { PreprocessPlainPrefix(en, Encode(rest, strict)); }
      en + Encode(p, strict);
      { EncodeCons(c, p, strict); }
      Encode([c] + p, strict);
      { PreprocessCons(c, rest); }
      Encode(Preprocess([c] + rest), strict);
    }
  }
}
