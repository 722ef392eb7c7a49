/** Character classes and string helpers shared by the key parsers, the escapers and the uid generator. */
module Text {

  /** The JavaScript WhiteSpace and LineTerminator code points: what `String.prototype.trim`
      strips and what the regular-expression class `\s` matches. */
  predicate IsSpace(c: char) {
    || c == ' ' || c == '\t' || c == '\n' || c == '\r' || c == '\U{000B}' || c == '\U{000C}'
    || c == '\U{00A0}' || c == '\U{1680}' || ('\U{2000}' <= c <= '\U{200A}')
    || c == '\U{2028}' || c == '\U{2029}' || c == '\U{202F}' || c == '\U{205F}'
    || c == '\U{3000}' || c == '\U{FEFF}'
  }

  predicate IsAsciiLetter(c: char) {
    'A' <= c <= 'Z' || 'a' <= c <= 'z'
  }

  predicate IsUpperLetter(c: char) {
    'A' <= c <= 'Z'
  }

  /** `toUpperCase` on one character, restricted to the ASCII letters. */
  function UpperChar(c: char): (u: char)
    ensures IsUpperLetter(u) <==> IsAsciiLetter(c)
    ensures IsSpace(u) <==> IsSpace(c)
    ensures !IsAsciiLetter(c) ==> u == c
    ensures IsAsciiLetter(c) ==> IsAsciiLetter(u)
    ensures !('a' <= u <= 'z')
  {
    if 'a' <= c <= 'z' then (c as int - 32) as char else c
  }

  /** `toUpperCase` on a string, character by character. */
  function Upper(s: string): (r: string)
    ensures |r| == |s|
    ensures forall i :: 0 <= i < |s| ==> r[i] == UpperChar(s[i])
  {
    seq(|s|, i requires 0 <= i < |s| => UpperChar(s[i]))
  }

  lemma UpperIdempotent(s: string)
    ensures Upper(Upper(s)) == Upper(s)
  {
  }

  /** The first position at or after `i` that does not hold whitespace (or `|s|`). */
  function SkipSpaces(s: string, i: nat): (j: nat)
    requires i <= |s|
    ensures i <= j <= |s|
    ensures forall k :: i <= k < j ==> IsSpace(s[k])
    ensures j < |s| ==> !IsSpace(s[j])
    decreases |s| - i
  {
    if i == |s| || !IsSpace(s[i]) then i else SkipSpaces(s, i + 1)
  }

  /** The number of whitespace characters before the first other character. */
  function LeadingSpaces(s: string): (n: nat)
    ensures n <= |s|
    ensures forall k :: 0 <= k < n ==> IsSpace(s[k])
    ensures n < |s| ==> !IsSpace(s[n])
  {
    SkipSpaces(s, 0)
  }

  /** The length of `s` without its trailing whitespace. */
  function KeptLength(s: string): (n: nat)
    ensures n <= |s|
    ensures forall i :: n <= i < |s| ==> IsSpace(s[i])
    ensures n > 0 ==> !IsSpace(s[n - 1])
  {
    if |s| == 0 || !IsSpace(s[|s| - 1]) then |s| else KeptLength(s[..|s| - 1])
  }

  /** Where the trimmed text ends: everything from here on is whitespace. */
  function TrimEnd(s: string): (e: nat)
    ensures LeadingSpaces(s) <= e <= |s|
    ensures forall i :: e <= i < |s| ==> IsSpace(s[i])
    ensures e > LeadingSpaces(s) ==> !IsSpace(s[e - 1])
  {
    var n := LeadingSpaces(s);
    var t := s[n..];
    var m := KeptLength(t);
    assert forall i :: n + m <= i < |s| ==> s[i] == t[i - n];
    n + m
  }

  /** `String.prototype.trim`: `s` without leading and trailing whitespace. */
  function Trim(s: string): (r: string)
    ensures |r| > 0 ==> !IsSpace(r[0]) && !IsSpace(r[|r| - 1])
  {
    s[LeadingSpaces(s)..TrimEnd(s)]
  }

  /** Trimming keeps every character from the first to the last non-space one. */
  lemma TrimKeeps(s: string, k: int)
    requires LeadingSpaces(s) <= k < |s| && !IsSpace(s[k])
    ensures k - LeadingSpaces(s) < |Trim(s)|
    ensures Trim(s)[..k - LeadingSpaces(s) + 1] == s[LeadingSpaces(s)..k + 1]
  {
  }

  /** A position preceded, from `i` on, only by whitespace and holding something else is where
      the skip from `i` stops. */
  lemma {:induction false} SkipSpacesAt(s: string, i: nat, p: nat)
    requires i <= p < |s| && !IsSpace(s[p])
    requires forall k :: i <= k < p ==> IsSpace(s[k])
    ensures SkipSpaces(s, i) == p
    decreases p - i
  {
    if i < p {
      SkipSpacesAt(s, i + 1, p);
    }
  }

  /** Upper-casing keeps whitespace where it is, so it does not move the first non-space character. */
  lemma {:induction false} SkipSpacesUpper(s: string, i: nat)
    requires i <= |s|
    ensures SkipSpaces(Upper(s), i) == SkipSpaces(s, i)
    decreases |s| - i
  {
    if i < |s| {
      assert Upper(s)[i] == UpperChar(s[i]);
      if IsSpace(s[i]) {
        SkipSpacesUpper(s, i + 1);
      }
    }
  }

  function DigitChar(d: nat): (c: char)
    requires d < 10
    ensures '0' <= c <= '9'
  {
    ('0' as int + d) as char
  }

  /** The decimal numeral of `n`, as `String(n)` writes it. */
  function Dec(n: nat): (r: string)
    ensures |r| >= 1
    ensures n >= 10 ==> |r| >= 2
    ensures forall i :: 0 <= i < |r| ==> '0' <= r[i] <= '9'
  {
    if n < 10 then [DigitChar(n)] else Dec(n / 10) + [DigitChar(n % 10)]
  }

  /** Different numbers have different numerals. */
  lemma {:induction false} DecInjective(a: nat, b: nat)
    requires Dec(a) == Dec(b)
    ensures a == b
  {
    if a >= 10 && b >= 10 {
      var da, db := Dec(a), Dec(b);
      assert da[..|da| - 1] == Dec(a / 10);
      assert db[..|db| - 1] == Dec(b / 10);
      DecInjective(a / 10, b / 10);
      assert DigitChar(a % 10) == da[|da| - 1] == db[|db| - 1] == DigitChar(b % 10);
    } else if a < 10 && b < 10 {
      assert DigitChar(a) == Dec(a)[0];
    }
  }

  /** `String(n)` for an integer: a minus sign before the numeral of a negative number. */
  function IntText(n: int): (r: string)
    ensures |r| >= 1
    ensures n < 0 <==> r[0] == '-'
  {
    if n < 0 then "-" + Dec(-n) else Dec(n)
  }
}
