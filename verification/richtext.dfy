/** `formatRichText` of quiz/app.js: escape the text, turn ```fenced``` spans into code blocks and
    `ticked` spans into inline code, then turn newlines into `<br>`. The three regular-expression
    passes are written out as left-to-right scans with the same match rules. */
module RichText {
  import opened Options
  import opened Escape

  const PreOpen: string := "<pre class=\"codeblock\">"
  const CodeOpen: string := "<code>"
  const CodeClose: string := "</code>"
  const PreClose: string := "</pre>"
  const InlineOpen: string := "<code class=\"inline-code\">"
  const Br: string := "<br>"

  /** Every tag the formatter writes. */
  const Tags: seq<string> := [PreOpen, CodeOpen, CodeClose, PreClose, InlineOpen, Br]

  /** A backtick or a newline: the delimiters the passes cut at, which occur in no tag. */
  predicate Cut(c: char) {
    c == '`' || c == '\n'
  }

  /** No character of `w` is a delimiter. */
  predicate NoCut(w: string) {
    forall j :: 0 <= j < |w| ==> !Cut(w[j])
  }

  lemma TagsHaveNoCut()
    ensures NoCut(PreOpen) && NoCut(CodeOpen) && NoCut(CodeClose)
    ensures NoCut(PreClose) && NoCut(InlineOpen) && NoCut(Br)
  {
  }

  /** Every tag is `<` followed by a body without delimiters. */
  lemma TagFacts(k: int)
    requires 0 <= k < |Tags|
    ensures |Tags[k]| > 0 && Tags[k][0] == '<'
    ensures NoCut(Tags[k][1..])
  {
    TagsHaveNoCut();
    assert NoCut(Tags[k]);
  }

  /** `t` is a concatenation of tags from `Tags` and characters other than `<` and `>`: every
      angle bracket in it belongs to a tag the formatter wrote. */
  predicate Markup(t: string)
    decreases |t|, 0
  {
    if |t| == 0 then true
    else if t[0] == '<' then AfterOpen(t[1..])
    else t[0] != '>' && Markup(t[1..])
  }

  /** `u` follows a `<`: it spells out the rest of some tag and continues as markup. */
  predicate AfterOpen(u: string)
    decreases |u|, 2
  {
    exists k :: 0 <= k < |Tags| && |Tags[k]| > 0 && Spell(u, Tags[k][1..])
  }

  /** `u` starts with the characters of `w` and continues as markup. */
  predicate Spell(u: string, w: string)
    decreases |u|, 1
  {
    if |w| == 0 then Markup(u)
    else 0 < |u| && u[0] == w[0] && Spell(u[1..], w[1..])
  }

  lemma {:induction false} SpellIntro(w: string, rest: string)
    requires Markup(rest)
    ensures Spell(w + rest, w)
    decreases |w|
  {
    if |w| == 0 {
      assert w + rest == rest;
    } else {
      SpellIntro(w[1..], rest);
      assert (w + rest)[1..] == w[1..] + rest;
    }
  }

  /** A tag in front of markup is markup. */
  lemma TagThen(k: int, rest: string)
    requires 0 <= k < |Tags| && Markup(rest)
    ensures Markup(Tags[k] + rest)
  {
    TagFacts(k);
    var t := Tags[k] + rest;
    SpellIntro(Tags[k][1..], rest);
    assert t[1..] == Tags[k][1..] + rest;
    assert t[0] == '<';
  }

  lemma TagIsMarkup(k: int)
    requires 0 <= k < |Tags|
    ensures Markup(Tags[k])
  {
    TagThen(k, "");
    assert Tags[k] + "" == Tags[k];
  }

  lemma {:induction false} NoAngleIsMarkup(t: string)
    requires forall i :: 0 <= i < |t| ==> t[i] != '<' && t[i] != '>'
    ensures Markup(t)
  {
    if |t| > 0 {
      NoAngleIsMarkup(t[1..]);
    }
  }

  lemma {:induction false} MarkupConcat(a: string, b: string)
    requires Markup(a) && Markup(b)
    ensures Markup(a + b)
    decreases |a|, 0
  {
    if |a| == 0 {
      assert a + b == b;
    } else {
      assert (a + b)[1..] == a[1..] + b;
      if a[0] == '<' {
        AfterOpenConcat(a[1..], b);
      } else {
        MarkupConcat(a[1..], b);
      }
    }
  }

  lemma {:induction false} AfterOpenConcat(u: string, b: string)
    requires AfterOpen(u) && Markup(b)
    ensures AfterOpen(u + b)
    decreases |u|, 2
  {
    var k :| 0 <= k < |Tags| && |Tags[k]| > 0 && Spell(u, Tags[k][1..]);
    SpellConcat(u, Tags[k][1..], b);
  }

  lemma {:induction false} SpellConcat(u: string, w: string, b: string)
    requires Spell(u, w) && Markup(b)
    ensures Spell(u + b, w)
    decreases |u|, 1
  {
    if |w| == 0 {
      MarkupConcat(u, b);
    } else {
      assert (u + b)[1..] == u[1..] + b;
      SpellConcat(u[1..], w[1..], b);
    }
  }

  /** Markup can be cut at a backtick or newline: no tag straddles one. */
  lemma {:induction false} MarkupSplit(t: string, p: int)
    requires Markup(t) && 0 <= p < |t| && Cut(t[p])
    ensures Markup(t[..p]) && Markup(t[p + 1..])
    decreases |t|, 0
  {
    if p == 0 {
      assert t[..p] == [];
    } else {
      assert t[1..][p..] == t[p + 1..];
      assert t[..p][1..] == t[1..][..p - 1];
      if t[0] == '<' {
        AfterOpenSplit(t[1..], p - 1);
      } else {
        MarkupSplit(t[1..], p - 1);
      }
    }
  }

  lemma {:induction false} AfterOpenSplit(u: string, p: int)
    requires AfterOpen(u) && 0 <= p < |u| && Cut(u[p])
    ensures AfterOpen(u[..p]) && Markup(u[p + 1..])
    decreases |u|, 2
  {
    var k :| 0 <= k < |Tags| && |Tags[k]| > 0 && Spell(u, Tags[k][1..]);
    TagFacts(k);
    SpellSplit(u, Tags[k][1..], p);
  }

  lemma {:induction false} SpellSplit(u: string, w: string, p: int)
    requires Spell(u, w) && NoCut(w) && 0 <= p < |u| && Cut(u[p])
    ensures Spell(u[..p], w) && Markup(u[p + 1..])
    decreases |u|, 1
  {
    if |w| == 0 {
      MarkupSplit(u, p);
    } else {
      assert p > 0;
      assert u[1..][p - 1] == u[p];
      SpellSplit(u[1..], w[1..], p - 1);
      assert u[1..][p..] == u[p + 1..];
      assert u[..p][1..] == u[1..][..p - 1];
    }
  }

  /** Three backticks start at `j`. */
  predicate FenceAt(s: string, j: int) {
    0 <= j && j + 3 <= |s| && s[j] == '`' && s[j + 1] == '`' && s[j + 2] == '`'
  }

  /** The first fence at or after `from`. */
  function FindFence(s: string, from: nat): (r: Option<nat>)
    ensures r.Some? ==> from <= r.value && FenceAt(s, r.value)
    ensures r.Some? ==> forall j :: from <= j < r.value ==> !FenceAt(s, j)
    ensures r.None? ==> forall j :: from <= j ==> !FenceAt(s, j)
    decreases |s| - from
  {
    if from + 3 > |s| then None
    else if FenceAt(s, from) then Some(from)
    else FindFence(s, from + 1)
  }

  /** The pass `replace(/```([\s\S]*?)```/g, ...)`: the first fence opens a block that the
      nearest later fence closes; without a closing fence nothing further can match. */
  function CodeBlocks(s: string): string
    decreases |s|
  {
    match FindFence(s, 0)
    case None => s
    case Some(p) =>
      match FindFence(s, p + 3)
      case None => s
      case Some(q) => s[..p] + PreOpen + CodeOpen + s[p + 3..q] + CodeClose + PreClose + CodeBlocks(s[q + 3..])
  }

  /** The first position at or after `i` holding a backtick. */
  function NextTick(s: string, i: nat): (r: Option<nat>)
    requires i <= |s|
    ensures r.Some? ==> i <= r.value < |s| && s[r.value] == '`'
    ensures r.Some? ==> forall j :: i <= j < r.value ==> s[j] != '`'
    ensures r.None? ==> forall j :: i <= j < |s| ==> s[j] != '`'
    decreases |s| - i
  {
    if i == |s| then None
    else if s[i] == '`' then Some(i)
    else NextTick(s, i + 1)
  }

  /** The end of the run of characters other than backtick and newline that starts at `i`. */
  function RunEnd(s: string, i: nat): (e: nat)
    requires i <= |s|
    ensures i <= e <= |s|
    ensures forall j :: i <= j < e ==> !Cut(s[j])
    ensures e < |s| ==> Cut(s[e])
    decreases |s| - i
  {
    if i == |s| || Cut(s[i]) then i else RunEnd(s, i + 1)
  }

  /** The pass `replace(/`([^`\n]+)`/g, ...)`: a backtick, a non-empty run without backtick or
      newline, and a closing backtick; where that fails, scanning resumes after the backtick. */
  function InlineCode(s: string): string
    decreases |s|, 1
  {
    match NextTick(s, 0)
    case None => s
    case Some(p) => InlineAt(s, p, RunEnd(s, p + 1))
  }

  /** The backtick at `p` opens a span if the run ending at `e` is non-empty and a backtick closes
      it; otherwise the backtick is kept and scanning resumes after it. */
  function InlineAt(s: string, p: nat, e: nat): string
    requires p < e <= |s|
    decreases |s|, 0
  {
    if e < |s| && s[e] == '`' && e > p + 1 then
      s[..p] + InlineOpen + s[p + 1..e] + CodeClose + InlineCode(s[e + 1..])
    else
      s[..p + 1] + InlineCode(s[p + 1..])
  }

  /** The pass `replace(/\n/g, "<br>")`. */
  function NewlinesToBr(s: string): (r: string)
    ensures '\n' !in r
  {
    ReplaceChar(s, '\n', Br)
  }

  lemma DropFence(s: string, p: int)
    requires Markup(s) && FenceAt(s, p)
    ensures Markup(s[..p]) && Markup(s[p + 3..])
  {
    MarkupSplit(s, p);
    var s1 := s[p + 1..];
    MarkupSplit(s1, 0);
    var s2 := s1[1..];
    MarkupSplit(s2, 0);
    assert s2[1..] == s[p + 3..];
  }

  lemma FencedParts(s: string, p: int, q: int)
    requires Markup(s) && FenceAt(s, p) && FenceAt(s, q) && p + 3 <= q
    ensures Markup(s[..p]) && Markup(s[p + 3..q]) && Markup(s[q + 3..])
  {
    DropFence(s, p);
    var s3 := s[p + 3..];
    assert FenceAt(s3, q - p - 3);
    DropFence(s3, q - p - 3);
    assert s3[..q - p - 3] == s[p + 3..q];
    assert s3[q - p..] == s[q + 3..];
  }

  lemma BlockMarkup(a: string, mid: string, rest: string)
    requires Markup(a) && Markup(mid) && Markup(rest)
    ensures Markup(a + PreOpen + CodeOpen + mid + CodeClose + PreClose + rest)
  {
    TagIsMarkup(0);
    TagIsMarkup(1);
    TagIsMarkup(2);
    TagIsMarkup(3);
    MarkupConcat(a, PreOpen);
    MarkupConcat(a + PreOpen, CodeOpen);
    MarkupConcat(a + PreOpen + CodeOpen, mid);
    MarkupConcat(a + PreOpen + CodeOpen + mid, CodeClose);
    MarkupConcat(a + PreOpen + CodeOpen + mid + CodeClose, PreClose);
    MarkupConcat(a + PreOpen + CodeOpen + mid + CodeClose + PreClose, rest);
  }

  lemma {:induction false} CodeBlocksMarkup(s: string)
    requires Markup(s)
    ensures Markup(CodeBlocks(s))
    decreases |s|
  {
    match FindFence(s, 0)
    case None =>
    case Some(p) =>
      match FindFence(s, p + 3)
      case None =>
      case Some(q) =>
        var rest := CodeBlocks(s[q + 3..]);
        assert CodeBlocks(s) == s[..p] + PreOpen + CodeOpen + s[p + 3..q] + CodeClose + PreClose + rest;
        assert Markup(rest) by {
          FencedParts(s, p, q);
          CodeBlocksMarkup(s[q + 3..]);
        }
        assert Markup(s[..p]) && Markup(s[p + 3..q]) by {
          FencedParts(s, p, q);
        }
        BlockMarkup(s[..p], s[p + 3..q], rest);
  }

  lemma TickedParts(s: string, p: int, e: int)
    requires Markup(s) && 0 <= p < e < |s| && s[p] == '`' && s[e] == '`'
    ensures Markup(s[..p]) && Markup(s[p + 1..e]) && Markup(s[e + 1..])
  {
    var h := s[..e];
    assert Markup(h) && Markup(s[e + 1..]) by {
      MarkupSplit(s, e);
    }
    assert h[p] == '`';
    assert Markup(h[..p]) && Markup(h[p + 1..]) by {
      MarkupSplit(h, p);
    }
    assert h[..p] == s[..p];
    assert h[p + 1..] == s[p + 1..e];
  }

  lemma InlineMarkup(a: string, mid: string, rest: string)
    requires Markup(a) && Markup(mid) && Markup(rest)
    ensures Markup(a + InlineOpen + mid + CodeClose + rest)
  {
    TagIsMarkup(2);
    TagIsMarkup(4);
    MarkupConcat(a, InlineOpen);
    MarkupConcat(a + InlineOpen, mid);
    MarkupConcat(a + InlineOpen + mid, CodeClose);
    MarkupConcat(a + InlineOpen + mid + CodeClose, rest);
  }

  lemma TickMarkup(s: string, p: int)
    requires Markup(s) && 0 <= p < |s| && s[p] == '`'
    ensures Markup(s[..p + 1]) && Markup(s[p + 1..])
  {
    MarkupSplit(s, p);
    assert Markup([s[p]]) by {
      assert [s[p]][1..] == [];
    }
    MarkupConcat(s[..p], [s[p]]);
    assert s[..p + 1] == s[..p] + [s[p]];
  }

  lemma InlineEnter(s: string, p: nat)
    requires NextTick(s, 0) == Some(p)
    ensures InlineCode(s) == InlineAt(s, p, RunEnd(s, p + 1))
  {
  }

  lemma InlineMatch(s: string, p: nat, e: nat)
    requires p + 1 < e < |s| && s[e] == '`'
    ensures InlineAt(s, p, e) == s[..p] + InlineOpen + s[p + 1..e] + CodeClose + InlineCode(s[e + 1..])
  {
  }

  lemma InlineSkip(s: string, p: nat, e: nat)
    requires p < e <= |s| && !(e < |s| && s[e] == '`' && e > p + 1)
    ensures InlineAt(s, p, e) == s[..p + 1] + InlineCode(s[p + 1..])
  {
  }

  lemma {:induction false} InlineCodeMarkup(s: string)
    requires Markup(s)
    ensures Markup(InlineCode(s))
    decreases |s|
  {
    match NextTick(s, 0)
    case None =>
    case Some(p) =>
      var e := RunEnd(s, p + 1);
      InlineEnter(s, p);
      if e < |s| && s[e] == '`' && e > p + 1 {
        var rest := InlineCode(s[e + 1..]);
        InlineMatch(s, p, e);
        assert Markup(s[..p]) && Markup(s[p + 1..e]) && Markup(rest) by {
          TickedParts(s, p, e);
          InlineCodeMarkup(s[e + 1..]);
        }
        InlineMarkup(s[..p], s[p + 1..e], rest);
      } else {
        var rest := InlineCode(s[p + 1..]);
        InlineSkip(s, p, e);
        assert Markup(s[..p + 1]) && Markup(rest) by {
          TickMarkup(s, p);
          InlineCodeMarkup(s[p + 1..]);
        }
        MarkupConcat(s[..p + 1], rest);
      }
  }

  lemma {:induction false} NewlinesMarkup(t: string)
    requires Markup(t)
    ensures Markup(NewlinesToBr(t))
    decreases |t|, 0
  {
    if |t| > 0 {
      var rest := NewlinesToBr(t[1..]);
      if t[0] == '<' {
        AfterOpenNewlines(t[1..]);
        assert NewlinesToBr(t) == [t[0]] + rest;
        assert NewlinesToBr(t)[1..] == rest;
      } else if t[0] == '\n' {
        NewlinesMarkup(t[1..]);
        assert NewlinesToBr(t) == Br + rest;
        TagThen(5, rest);
      } else {
        NewlinesMarkup(t[1..]);
        assert NewlinesToBr(t) == [t[0]] + rest;
        assert NewlinesToBr(t)[1..] == rest;
      }
    }
  }

  lemma {:induction false} AfterOpenNewlines(u: string)
    requires AfterOpen(u)
    ensures AfterOpen(NewlinesToBr(u))
    decreases |u|, 2
  {
    var k :| 0 <= k < |Tags| && |Tags[k]| > 0 && Spell(u, Tags[k][1..]);
    TagFacts(k);
    SpellNewlines(u, Tags[k][1..]);
  }

  lemma {:induction false} SpellNewlines(u: string, w: string)
    requires Spell(u, w) && NoCut(w)
    ensures Spell(NewlinesToBr(u), w)
    decreases |u|, 1
  {
    if |w| == 0 {
      NewlinesMarkup(u);
    } else {
      var rest := NewlinesToBr(u[1..]);
      SpellNewlines(u[1..], w[1..]);
      assert NewlinesToBr(u) == [u[0]] + rest;
      assert NewlinesToBr(u)[1..] == rest;
    }
  }

  /** `formatRichText`. Escaping comes first, so every `<` or `>` in the result belongs to a tag
      the formatter wrote, and no newline is left. */
  function FormatRichText(input: string): (r: string)
    ensures '\n' !in r
    ensures Markup(r)
  {
    var e := EscapeHtmlStrict(input);
    NoAngleIsMarkup(e);
    CodeBlocksMarkup(e);
    InlineCodeMarkup(CodeBlocks(e));
    NewlinesMarkup(InlineCode(CodeBlocks(e)));
    NewlinesToBr(InlineCode(CodeBlocks(e)))
  }
}
