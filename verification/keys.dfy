/** The answer-key resolvers of js/utils.js (copied verbatim into app.js): free text in, one
    upper-case letter (or, for a labelled option, the upper-cased label) or nothing out. */
module Keys {
  import opened Options
  import opened Text

  /** A JSON scalar field of a question file, or a field that is absent. */
  datatype Scalar = Missing | Null | Bool(b: bool) | Num(n: int) | Str(s: string)

  /** JavaScript truthiness of a scalar. */
  predicate Truthy(v: Scalar) {
    match v
    case Missing => false
    case Null => false
    case Bool(b) => b
    case Num(n) => n != 0
    case Str(s) => |s| > 0
  }

  /** `String(v)`; an absent argument takes the parameter default "". */
  function ToText(v: Scalar): string {
    match v
    case Missing => ""
    case Null => "null"
    case Bool(b) => if b then "true" else "false"
    case Num(n) => IntText(n)
    case Str(s) => s
  }

  /** One entry of a question's `options` array: a string, an object with optional `label` and
      `text` fields, or any other JSON value. */
  datatype OptionEntry = Plain(text: string) | Structured(labelValue: Scalar, textValue: Scalar) | Inert

  /** `getAnswerKey`: the first character of the trimmed, upper-cased text if it is a letter A-Z. */
  function AnswerKey(v: Scalar): (r: Option<string>)
    ensures var x := ToText(v); var n := LeadingSpaces(x);
      && (r.Some? <==> n < |x| && IsAsciiLetter(x[n]))
      && (r.Some? ==> r.value == [UpperChar(x[n])])
    ensures r.Some? ==> |r.value| == 1 && IsUpperLetter(r.value[0])
  {
    var x := ToText(v);
    var t := Upper(Trim(x));
    assert |Trim(x)| > 0 ==> Trim(x)[0] == x[LeadingSpaces(x)];
    if |t| > 0 && IsUpperLetter(t[0]) then Some([t[0]]) else None
  }

  /** Answer keys ignore letter case: texts that upper-case alike resolve alike. */
  lemma AnswerKeyIgnoresCase(a: string, b: string)
    requires Upper(a) == Upper(b)
    ensures AnswerKey(Str(a)) == AnswerKey(Str(b))
  {
    SkipSpacesUpper(a, 0);
    SkipSpacesUpper(b, 0);
    var n := LeadingSpaces(a);
    if n < |a| {
      assert UpperChar(a[n]) == Upper(a)[n] == Upper(b)[n] == UpperChar(b[n]);
    }
  }

  /** The string rule `trim().match(/^([A-Z])\s*\)/i)`: a letter of either case, optional
      whitespace, then a closing parenthesis; the letter is returned upper-cased. */
  function ParenKey(x: string): (r: Option<string>)
    ensures r.Some? ==> |r.value| == 1 && IsUpperLetter(r.value[0])
  {
    ParenPrefix(Trim(x))
  }

  /** The anchored match `^([A-Z])\s*\)` (case-insensitive) on an already trimmed string. */
  function ParenPrefix(t: string): (r: Option<string>)
    ensures r.Some? ==> |r.value| == 1 && IsUpperLetter(r.value[0])
  {
    if |t| >= 2 && IsAsciiLetter(t[0]) then
      var j := SkipSpaces(t, 1);
      if j < |t| && t[j] == ')' then Some([UpperChar(t[0])]) else None
    else None
  }

  /** A `)` at `k`, after position `n`, with only whitespace between the two. */
  predicate ParenAt(x: string, n: int, k: int) {
    0 <= n < k < |x| && x[k] == ')' && forall i :: n < i < k ==> IsSpace(x[i])
  }

  /** A parenthesis key exists exactly when the first non-space character is a letter followed,
      after nothing but whitespace, by `)`. */
  predicate LetterThenParen(x: string) {
    var n := LeadingSpaces(x);
    n < |x| && IsAsciiLetter(x[n]) && exists k :: n < k < |x| && ParenAt(x, n, k)
  }

  lemma ParenPrefixSound(t: string) returns (j: int)
    requires ParenPrefix(t).Some?
    ensures IsAsciiLetter(t[0]) && ParenAt(t, 0, j) && ParenPrefix(t) == Some([UpperChar(t[0])])
  {
    j := SkipSpaces(t, 1);
  }

  lemma ParenPrefixComplete(t: string, m: int)
    requires 0 < |t| && IsAsciiLetter(t[0]) && ParenAt(t, 0, m)
    ensures ParenPrefix(t) == Some([UpperChar(t[0])])
  {
    SkipSpacesAt(t, 1, m);
  }

  lemma ParenKeySound(x: string)
    requires ParenKey(x).Some?
    ensures LetterThenParen(x) && ParenKey(x) == Some([UpperChar(x[LeadingSpaces(x)])])
  {
    var n, t := LeadingSpaces(x), Trim(x);
    var j := ParenPrefixSound(t);
    assert |t| == TrimEnd(x) - n;
    assert x[n] == t[0] && x[n + j] == t[j];
    forall i | n < i < n + j
      ensures IsSpace(x[i])
    {
      assert x[i] == t[i - n];
    }
    assert ParenAt(x, n, n + j);
  }

  lemma ParenKeyComplete(x: string, n: nat, k: int)
    requires n == LeadingSpaces(x)
    requires n < |x| && IsAsciiLetter(x[n]) && ParenAt(x, n, k)
    ensures ParenKey(x) == Some([UpperChar(x[n])])
  {
    var e, t := TrimEnd(x), Trim(x);
    assert k < e;
    assert |t| == e - n;
    assert t[0] == x[n] && t[k - n] == x[k];
    forall i | 0 < i < k - n
      ensures IsSpace(t[i])
    {
      assert t[i] == x[n + i];
    }
    ParenPrefixComplete(t, k - n);
  }

  /** `ParenKey` is exactly the letter-then-parenthesis pattern, read off the untrimmed text. */
  lemma ParenKeyMatches(x: string)
    ensures ParenKey(x).Some? <==> LetterThenParen(x)
    ensures ParenKey(x).Some? ==> ParenKey(x) == Some([UpperChar(x[LeadingSpaces(x)])])
  {
    if ParenKey(x).Some? {
      ParenKeySound(x);
    }
    if LetterThenParen(x) {
      var n := LeadingSpaces(x);
      var k :| ParenAt(x, n, k);
      ParenKeyComplete(x, n, k);
    }
  }

  /** The two examples of the string rule: "Cat" has no key, "c )x" has key "C". */
  lemma ParenKeyExamples()
    ensures ParenKey("Cat") == None
    ensures ParenKey("c )x") == Some("C")
  {
    ParenKeyMatches("Cat");
    assert LeadingSpaces("Cat") == 0;
    assert LeadingSpaces("c )x") == 0;
    assert ParenAt("c )x", 0, 2);
    ParenKeyComplete("c )x", 0, 2);
  }

  /** `getOptionKey`. A string uses the parenthesis rule; an object prefers a truthy `label`,
      trimmed and upper-cased whatever its length, then falls back to the parenthesis rule on a
      truthy `text`; anything else has no key. */
  function OptionKey(o: OptionEntry): (r: Option<string>)
    ensures o.Inert? ==> r.None?
    ensures o.Structured? && !Truthy(o.labelValue) && !Truthy(o.textValue) ==> r.None?
    ensures !(o.Structured? && Truthy(o.labelValue)) && r.Some? ==> |r.value| == 1 && IsUpperLetter(r.value[0])
    ensures o.Structured? && Truthy(o.labelValue) ==> r.Some? && Upper(r.value) == r.value
    ensures r.Some? && |r.value| > 0 ==> !IsSpace(r.value[0]) && !IsSpace(r.value[|r.value| - 1])
  {
    match o
    case Plain(t) => ParenKey(t)
    case Structured(lab, txt) =>
      if Truthy(lab) then
        var k := Upper(Trim(ToText(lab)));
        UpperIdempotent(Trim(ToText(lab)));
        Some(k)
      else if Truthy(txt) then ParenKey(ToText(txt))
      else None
    case Inert => None
  }

  /** A truthy label decides the key on its own: the `text` field is never looked at. */
  lemma LabelIgnoresText(lab: Scalar, t1: Scalar, t2: Scalar)
    requires Truthy(lab)
    ensures OptionKey(Structured(lab, t1)) == OptionKey(Structured(lab, t2))
    ensures OptionKey(Structured(lab, t1)) == Some(Upper(Trim(ToText(lab))))
  {
  }

  /** Without a label, an object's key is the string rule applied to its text. */
  lemma TextFallback(lab: Scalar, text: string)
    requires !Truthy(lab)
    ensures OptionKey(Structured(lab, Str(text))) == OptionKey(Plain(text))
  {
  }
}
