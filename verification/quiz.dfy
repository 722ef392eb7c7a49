/** The session engine of js/quiz.js: which questions are in play, how far along the session is,
    what an answer pick records, and how the cursor moves. Every operation is a pure transition
    of a `Model.State`; the random draws and the clock reading are parameters. */
module Quiz {
  import opened Options
  import opened Text
  import opened Numeric
  import opened Keys
  import opened Escape
  import opened Model

  // ---------------------------------------------------------------------------------------------
  // Active list

  /** `questions.filter(q => wrongSet.has(q._uid))`. */
  function WrongOnes(qs: seq<Question>, w: set<string>): (r: seq<Question>)
    ensures |r| <= |qs|
    ensures |r| == 0 <==> forall i :: 0 <= i < |qs| ==> qs[i].uid !in w
    ensures forall i :: 0 <= i < |r| ==> r[i].uid in w
  {
    if |qs| == 0 then []
    else (if qs[0].uid in w then [qs[0]] else []) + WrongOnes(qs[1..], w)
  }

  /** The filter keeps every copy of a question whose uid is in the set, and nothing else. */
  lemma {:induction false} WrongOnesCount(qs: seq<Question>, w: set<string>)
    ensures forall q :: multiset(WrongOnes(qs, w))[q] == if q.uid in w then multiset(qs)[q] else 0
    decreases |qs|
  {
    if |qs| > 0 {
      WrongOnesCount(qs[1..], w);
      assert qs == [qs[0]] + qs[1..];
    }
  }

  /** `a` is `b` with some elements left out and the rest kept in order (matched greedily). */
  predicate IsSubseq<T(==)>(a: seq<T>, b: seq<T>)
    decreases |b|
  {
    |a| == 0 || (|b| > 0 && if a[0] == b[0] then IsSubseq(a[1..], b[1..]) else IsSubseq(a, b[1..]))
  }

  lemma {:induction false} SubseqRefl<T>(a: seq<T>)
    ensures IsSubseq(a, a)
    decreases |a|
  {
    if |a| > 0 {
      SubseqRefl(a[1..]);
    }
  }

  /** The filter keeps the order of the questions it keeps. */
  lemma {:induction false} WrongOnesSubseq(qs: seq<Question>, w: set<string>)
    ensures IsSubseq(WrongOnes(qs, w), qs)
    decreases |qs|
  {
    if |qs| > 0 {
      var rest := WrongOnes(qs[1..], w);
      WrongOnesSubseq(qs[1..], w);
      if qs[0].uid in w {
        var r := WrongOnes(qs, w);
        assert r[0] == qs[0] && r[1..] == rest;
      } else if |rest| > 0 {
        assert WrongOnes(qs, w) == rest;
        assert rest[0] != qs[0];
      }
    }
  }

  /** `getActiveList`: in "wrongs" mode the questions answered wrongly, or every question when
      there are none; in any other mode every question. */
  function ActiveList(s: State): (r: seq<Question>)
    ensures |r| == 0 <==> |s.questions| == 0
    ensures s.mode != Wrongs ==> r == s.questions
  {
    if s.mode == Wrongs then
      var a := WrongOnes(s.questions, s.wrongSet);
      if |a| > 0 then a else s.questions
    else s.questions
  }

  /** The active list keeps the questions it shows in their order. */
  lemma ActiveListSubseq(s: State)
    ensures IsSubseq(ActiveList(s), s.questions)
  {
    SubseqRefl(s.questions);
    WrongOnesSubseq(s.questions, s.wrongSet);
  }

  /** In "wrongs" mode the list holds exactly the questions answered wrongly, each as often as
      in `questions`, when there is at least one; otherwise it is every question. */
  lemma ActiveListWrongs(s: State)
    requires s.mode == Wrongs
    ensures (exists i :: 0 <= i < |s.questions| && s.questions[i].uid in s.wrongSet) ==>
      forall q :: multiset(ActiveList(s))[q] == if q.uid in s.wrongSet then multiset(s.questions)[q] else 0
    ensures (forall i :: 0 <= i < |s.questions| ==> s.questions[i].uid !in s.wrongSet) ==>
      ActiveList(s) == s.questions
  {
    WrongOnesCount(s.questions, s.wrongSet);
  }

  // ---------------------------------------------------------------------------------------------
  // Progress

  /** How many of `qs` have their uid in `u`. */
  function CountIn(qs: seq<Question>, u: set<string>): (n: nat)
    ensures n <= |qs|
  {
    if |qs| == 0 then 0 else (if qs[0].uid in u then 1 else 0) + CountIn(qs[1..], u)
  }

  /** Counting the members is the length of the filter that keeps them. */
  lemma {:induction false} CountInFilter(qs: seq<Question>, u: set<string>)
    ensures CountIn(qs, u) == |WrongOnes(qs, u)|
    decreases |qs|
  {
    if |qs| > 0 {
      CountInFilter(qs[1..], u);
    }
  }

  /** The `done` counter: indices answered in "all" mode, otherwise active uids answered. */
  function Done(s: State): (d: nat)
    ensures s.mode == All ==> d == |s.answeredAll|
    ensures s.mode != All ==> d == |WrongOnes(ActiveList(s), s.answeredWrongs)| <= |ActiveList(s)|
  {
    CountInFilter(ActiveList(s), s.answeredWrongs);
    if s.mode == All then |s.answeredAll| else CountIn(ActiveList(s), s.answeredWrongs)
  }

  /** What the progress bar shows: `done`, `total` and the rounded percentage. */
  datatype Meter = Meter(done: nat, total: nat, pct: int)

  /** `updateProgress`. */
  function Progress(s: State): (m: Meter)
    ensures m.total >= 1
    ensures m.total == if |s.questions| == 0 then 1 else |ActiveList(s)|
    ensures m.done == Done(s)
    ensures 2 * m.total * m.pct - m.total <= 200 * m.done < 2 * m.total * m.pct + m.total
  {
    var a := ActiveList(s);
    var total := if |a| == 0 then 1 else |a|;
    Meter(Done(s), total, Round(100 * Done(s), total))
  }

  /** The states the engine itself produces: a non-negative cursor and only in-range indices in
      `answeredAll`. (A saved record can bring in anything; see Storage.) */
  predicate Settled(s: State) {
    s.index >= 0 && forall i :: i in s.answeredAll ==> 0 <= i < |s.questions|
  }

  function Below(n: nat): (r: set<int>)
    ensures forall i :: i in r <==> 0 <= i < n
    ensures |r| == n
  {
    if n == 0 then {} else
      var r := Below(n - 1) + {n - 1};
      assert n - 1 !in Below(n - 1);
      r
  }

  lemma BoundedSetSize(a: set<int>, n: nat)
    requires forall i :: i in a ==> 0 <= i < n
    ensures |a| <= n
  {
    assert a <= Below(n);
    CardinalityOfSubset(a, Below(n));
  }

  lemma CardinalityOfSubset<T>(a: set<T>, b: set<T>)
    requires a <= b
    ensures |a| <= |b|
  {
    assert b == a + (b - a);
  }

  /** In a settled state the counter never passes the total. */
  lemma DoneWithinTotal(s: State)
    requires Settled(s)
    ensures Done(s) <= |ActiveList(s)|
  {
    if s.mode == All {
      BoundedSetSize(s.answeredAll, |s.questions|);
    }
  }

  /** In a settled state the percentage is between 0 and 100, and 0 on an empty list. */
  lemma ProgressInRange(s: State)
    requires Settled(s)
    ensures 0 <= Progress(s).pct <= 100
    ensures |s.questions| == 0 ==> Progress(s).pct == 0
  {
    DoneWithinTotal(s);
    var m := Progress(s);
    PercentInRange(m.done, m.total);
    if |s.questions| == 0 {
      assert m.done == 0;
    }
  }

  /** Outside the settled states the bar can overflow: an empty list with a stale answered index
      shows 100%. */
  lemma UnsettledProgress()
    ensures var s := State([], 0, All, false, {}, {0}, {}, map[], 0);
      !Settled(s) && Progress(s).pct == 100
  {
    var s := State([], 0, All, false, {}, {0}, {}, map[], 0);
    assert |s.answeredAll| == 1;
  }

  // ---------------------------------------------------------------------------------------------
  // Answer pick

  /** `active[state.index]`, when the index is in range. */
  function Current(s: State): (q: Option<Question>)
    ensures q.Some? <==> 0 <= s.index < |ActiveList(s)|
  {
    var a := ActiveList(s);
    if 0 <= s.index < |a| then
      Some(a[s.index])
    else None
  }

  /** `getAnswerKey(active[state.index]?.answer)`; a missing question passes `undefined`. */
  function CorrectKey(s: State): Option<string> {
    AnswerKey(match Current(s) case None => Missing case Some(q) => q.answer)
  }

  /** The uid of the current question, when there is one and it is truthy. */
  function CurrentUid(s: State): Option<string> {
    match Current(s)
    case Some(q) => if q.uid != "" then Some(q.uid) else None
    case None => None
  }

  /** `onOptionPick` on an option whose `data-key` is `dataKey`: ignored while locked or for an
      empty key; otherwise it locks, records the answer and, on a mismatch of two keys, the
      question as answered wrongly. */
  function Pick(s: State, dataKey: string): (r: State)
    ensures r.questions == s.questions && r.index == s.index && r.mode == s.mode
    ensures r.analytics == s.analytics && r.startTime == s.startTime
    ensures s.locked || dataKey == "" ==> r == s
    ensures !s.locked && dataKey != "" ==> r.locked
    ensures s.wrongSet <= r.wrongSet && s.answeredAll <= r.answeredAll && s.answeredWrongs <= r.answeredWrongs
  {
    var key := Upper(dataKey);
    if s.locked || key == "" then s
    else
      var uid := CurrentUid(s);
      var correct := CorrectKey(s);
      var all := if s.mode == All then s.answeredAll + {s.index} else s.answeredAll;
      var wr := if s.mode != All && uid.Some? then s.answeredWrongs + {uid.value} else s.answeredWrongs;
      var ws := if correct.Some? && key != correct.value && uid.Some? then s.wrongSet + {uid.value} else s.wrongSet;
      s.(locked := true, answeredAll := all, answeredWrongs := wr, wrongSet := ws)
  }

  /** What an accepted pick records: the cursor in "all" mode, the question's uid in any other
      mode, and the uid as answered wrongly exactly when both keys exist and differ. */
  lemma PickRecords(s: State, dataKey: string)
    requires !s.locked && dataKey != ""
    ensures var r := Pick(s, dataKey);
      && (forall i :: i in r.answeredAll <==> i in s.answeredAll || (s.mode == All && i == s.index))
      && (forall u :: u in r.answeredWrongs <==> u in s.answeredWrongs || (s.mode != All && CurrentUid(s) == Some(u)))
      && (forall u :: u in r.wrongSet <==>
            u in s.wrongSet || (CurrentUid(s) == Some(u) && CorrectKey(s).Some? && CorrectKey(s).value != Upper(dataKey)))
  {
  }

  /** A pick whose key differs from the correct one adds the question to the wrong set. */
  lemma PickAddsWrong(s: State, dataKey: string, u: string)
    requires !s.locked && dataKey != "" && CurrentUid(s) == Some(u)
    requires CorrectKey(s).Some? && CorrectKey(s).value != Upper(dataKey)
    ensures Pick(s, dataKey).wrongSet == s.wrongSet + {u}
  {
  }

  /** Once a pick has locked the card, any further pick changes nothing. */
  lemma PickLocks(s: State, k1: string, k2: string)
    requires !s.locked && k1 != ""
    ensures Pick(Pick(s, k1), k2) == Pick(s, k1)
  {
  }

  /** A pick on the card a settled state shows keeps the state settled. */
  lemma PickSettled(s: State, k: string)
    requires Settled(s) && (s.mode == All ==> s.index < |s.questions|)
    ensures Settled(Pick(s, k))
  {
  }

  // ---------------------------------------------------------------------------------------------
  // Option marks

  /** The classes `applyOptionResult` adds to one option. */
  datatype Mark = Mark(disabled: bool, correct: bool, wrong: bool)

  /** One option's marks, from its `data-key`, the picked key and the correct key. */
  function MarkFor(dataKey: string, selected: string, correct: Option<string>): (m: Mark)
    ensures m.disabled
    ensures !(m.correct && m.wrong)
    ensures m.correct <==> correct.Some? && correct.value != "" && Upper(dataKey) == correct.value
    ensures m.wrong ==> selected != "" && Upper(dataKey) == selected
    ensures selected != "" && Upper(dataKey) == selected ==> m.correct != m.wrong
  {
    var k := Upper(dataKey);
    var isCorrect := correct.Some? && correct.value != "" && k == correct.value;
    var isWrong := selected != "" && k == selected && (correct.None? || k != correct.value);
    Mark(true, isCorrect, isWrong)
  }

  /** `applyOptionResult` over the options' `data-key`s, judged against the current question. */
  function OptionMarks(s: State, selected: string, keys: seq<string>): (ms: seq<Mark>)
    ensures |ms| == |keys|
    ensures forall i :: 0 <= i < |ms| ==> ms[i].disabled && !(ms[i].correct && ms[i].wrong)
    ensures forall i :: 0 <= i < |ms| ==> (ms[i].correct ==> CorrectKey(s).Some?)
    ensures forall i :: 0 <= i < |ms| ==>
      (ms[i].correct <==> CorrectKey(s).Some? && Upper(keys[i]) == CorrectKey(s).value)
  {
    seq(|keys|, i requires 0 <= i < |keys| => MarkFor(keys[i], selected, CorrectKey(s)))
  }

  /** As written, `onOptionPick` marks the options only after recording the pick, so it judges
      them against the active list as the pick has changed it. */
  function PickMarksAsWritten(s: State, dataKey: string, keys: seq<string>): seq<Mark> {
    OptionMarks(Pick(s, dataKey), Upper(dataKey), keys)
  }

  /** In "wrongs" mode with no wrong answers yet, the list falls back to every question; a wrong
      pick on the second card shrinks the list to that one question, the cursor falls off its
      end, and the correct option is never highlighted. */
  lemma PickMarksLoseCorrect(s: State)
    requires ExampleStart(s) && !s.locked
    ensures CorrectKey(s) == Some("A")
    ensures PickMarksAsWritten(s, "b", ["A", "B"]) == [Mark(true, false, false), Mark(true, false, true)]
  {
    ExampleBefore(s);
    UpperB();
    PickAddsWrong(s, "b", "q_2");
    assert Pick(s, "b").wrongSet == {"q_2"};
    ExampleAfter(Pick(s, "b"));
    MarksWithoutKey(Pick(s, "b"));
  }

  lemma MarksWithoutKey(t: State)
    requires CorrectKey(t) == None
    ensures OptionMarks(t, "B", ["A", "B"]) == [Mark(true, false, false), Mark(true, false, true)]
  {
    assert Upper("A") == "A" by {
      assert Upper("A")[0] == UpperChar('A');
    }
    assert Upper("B") == "B" by {
      assert Upper("B")[0] == UpperChar('B');
    }
    assert MarkFor("A", "B", None) == Mark(true, false, false);
    assert MarkFor("B", "B", None) == Mark(true, false, true);
  }

  /** The starting state of the example: two questions whose correct answer is "A", "wrongs" mode
      with nothing answered wrongly, on the second card. */
  predicate ExampleStart(s: State) {
    s.questions == [Q1(), Q2()] && s.index == 1 && s.mode == Wrongs && s.wrongSet == {}
  }

  function Q1(): Question { Question("q_1", "", Str("A"), []) }
  function Q2(): Question { Question("q_2", "", Str("A"), []) }

  lemma KeyOfA()
    ensures AnswerKey(Str("A")) == Some("A")
  {
    assert LeadingSpaces("A") == 0;
  }

  lemma UpperB()
    ensures Upper("b") == "B"
  {
    assert Upper("b")[0] == UpperChar('b');
  }

  lemma ExampleBefore(s: State)
    requires ExampleStart(s)
    ensures ActiveList(s) == [Q1(), Q2()] && CurrentUid(s) == Some("q_2") && CorrectKey(s) == Some("A")
  {
    assert ActiveList(s) == [Q1(), Q2()];
    assert Current(s) == Some(Q2());
    KeyOfA();
  }

  lemma ExampleAfter(t: State)
    requires t.questions == [Q1(), Q2()] && t.mode == Wrongs && t.index == 1 && t.wrongSet == {"q_2"}
    ensures ActiveList(t) == [Q2()] && CorrectKey(t) == None
  {
    assert WrongOnes([Q1(), Q2()], {"q_2"}) == [Q2()] by {
      assert [Q1(), Q2()][1..] == [Q2()];
    }
  }

  /** The marks judged against the question that was answered, before the pick is recorded. */
  function PickMarks(s: State, dataKey: string, keys: seq<string>): (ms: seq<Mark>)
    ensures |ms| == |keys|
    ensures forall i :: 0 <= i < |ms| ==>
      (ms[i].correct <==> CorrectKey(s).Some? && Upper(keys[i]) == CorrectKey(s).value)
    ensures forall i :: 0 <= i < |ms| ==>
      (ms[i].wrong <==> dataKey != "" && Upper(keys[i]) == Upper(dataKey) && !ms[i].correct)
  {
    OptionMarks(s, Upper(dataKey), keys)
  }

  /** With the marks judged against the answered question, the option carrying the correct key
      is highlighted, whatever was picked. */
  lemma PickMarksShowCorrect(s: State, dataKey: string, keys: seq<string>, i: int)
    requires 0 <= i < |keys| && CorrectKey(s).Some? && Upper(keys[i]) == CorrectKey(s).value
    ensures PickMarks(s, dataKey, keys)[i].correct
  {
  }

  // ---------------------------------------------------------------------------------------------
  // Option data keys

  /** The text of `data-key="…"` up to the first double quote, which ends the attribute value. */
  function QuotedText(t: string): (v: string)
    ensures v <= t && NoQuote(v)
    ensures !NoQuote(t) ==> |v| < |t| && t[|v|] == '"'
    ensures NoQuote(t) ==> v == t
  {
    if |t| == 0 || t[0] == '"' then [] else [t[0]] + QuotedText(t[1..])
  }

  /** What an HTML parser reads back from `data-key="…"`: the text up to the first double quote,
      with line endings turned into LF and NUL into U+FFFD. */
  function AttrValue(t: string): (v: string)
    ensures NoQuote(v) && NoCrOrNul(v)
    ensures NoQuote(t) ==> v == Preprocess(t)
    ensures !NoQuote(t) ==>
      exists k :: 0 <= k < |t| && t[k] == '"' && NoQuote(t[..k]) && v == Preprocess(t[..k])
  {
    var u := QuotedText(t);
    assert !NoQuote(t) ==> t[..|u|] == u;
    PreprocessShape(u);
    Preprocess(u)
  }

  /** The attribute value stops at the first double quote, whatever follows it. */
  lemma {:induction false} AttrValueCut(x: string, y: string)
    requires NoQuote(x)
    ensures QuotedText(x + "\"" + y) == x
    ensures AttrValue(x + "\"" + y) == Preprocess(x)
    decreases |x|
  {
    if |x| > 0 {
      assert (x + "\"" + y)[1..] == x[1..] + "\"" + y;
      AttrValueCut(x[1..], y);
    } else {
      assert x + "\"" + y == "\"" + y;
    }
  }

  /** The key a pick receives from an option as written: `data-key="${escapeHtml(key)}"` with the
      three-character escaper, read back through `dataset.key`. */
  function DataKeyAsWritten(o: OptionEntry): string {
    Unescape(AttrValue(EscapeHtml(OptionKey(o).GetOr(""))))
  }

  /** Escaping a key with a double quote in it leaves the quote in place between the escaped
      halves. */
  lemma EscapeAroundQuote(a: string, b: string)
    ensures Encode(a + "\"" + b, false) == Encode(a, false) + "\"" + Encode(b, false)
  {
    var q := "\"" + b;
    assert Encode(q, false) == "\"" + Encode(b, false) by {
      assert q[0] == '"' && q[1..] == b;
    }
    EncodeConcat(a, q, false);
    assert a + "\"" + b == a + q;
  }

  /** A key holding a double quote reaches the pick cut at that quote. */
  lemma DataKeyCutAtQuote(o: OptionEntry, a: string, b: string)
    requires OptionKey(o) == Some(a + "\"" + b) && NoQuote(a)
    ensures DataKeyAsWritten(o) == Preprocess(a)
    ensures NoCrOrNul(a) ==> DataKeyAsWritten(o) == a
  {
    EscapeAroundQuote(a, b);
    EncodeQuoteFree(a);
    AttrValueCut(Encode(a, false), Encode(b, false));
    PreprocessEncode(a, false);
    PreprocessShape(a);
    DecodeEncode(Preprocess(a), false);
  }

  lemma QuotedLabelKey(lab: string)
    requires lab == "A\"B"
    ensures OptionKey(Structured(Str(lab), Missing)) == Some(lab)
  {
    assert LeadingSpaces(lab) == 0;
    assert TrimEnd(lab) == 3 by {
      assert KeptLength(lab) == 3;
    }
    assert Trim(lab) == lab;
    assert Upper(lab) == lab;
  }

  /** The option labelled `A"B` has key `A"B` but is picked as `A`. */
  lemma QuotedLabel(lab: string)
    requires lab == "A\"B"
    ensures OptionKey(Structured(Str(lab), Missing)) == Some(lab)
    ensures DataKeyAsWritten(Structured(Str(lab), Missing)) == "A"
  {
    QuotedLabelKey(lab);
    assert lab == "A" + "\"" + "B";
    assert NoCrOrNul("A");
    DataKeyCutAtQuote(Structured(Str(lab), Missing), "A", "B");
  }

  /** The data key with the five-character escaper: it reads back as the option's key, up to the
      parser's rewriting of CR and NUL. */
  function DataKey(o: OptionEntry): (k: string)
    ensures k == Preprocess(OptionKey(o).GetOr(""))
    ensures NoCrOrNul(OptionKey(o).GetOr("")) ==> k == OptionKey(o).GetOr("")
  {
    var key := OptionKey(o).GetOr("");
    PreprocessEncode(key, true);
    PreprocessShape(key);
    DecodeEncode(Preprocess(key), true);
    Unescape(AttrValue(EscapeHtmlStrict(key)))
  }

  // ---------------------------------------------------------------------------------------------
  // Render and navigation

  /** What `render` puts on the card. */
  datatype View = EmptyList | Finished | Card(pos: nat) | Broken

  /** The cursor after `render`'s clamp: an index past the end goes back to 0; a negative one
      is left alone. */
  function Clamp(index: int, n: nat): int {
    if index >= n then 0 else index
  }

  /** The screen `render` produces. A negative cursor reads `undefined` and the title lookup
      throws, which is `Broken`. */
  function Screen(s: State): (v: View)
    ensures v == EmptyList <==> |s.questions| == 0
    ensures v.Card? ==> v.pos < |ActiveList(s)| && Current(s.(index := v.pos)).Some?
    ensures v == Finished ==> Done(s) >= |ActiveList(s)| > 0
  {
    var a := ActiveList(s);
    if |a| == 0 then EmptyList
    else if Done(s) >= |a| then Finished
    else
      var i := Clamp(s.index, |a|);
      if i < 0 then Broken else Card(i)
  }

  /** `render`: the clamp and the lock reset, and on a card the question timer started at `now`.
      The finish check does not start the timer. */
  function Render(s: State, now: int): (r: State)
    ensures r.questions == s.questions && r.mode == s.mode && r.wrongSet == s.wrongSet
    ensures r.answeredAll == s.answeredAll && r.answeredWrongs == s.answeredWrongs && r.analytics == s.analytics
    ensures ActiveList(r) == ActiveList(s)
    ensures |s.questions| == 0 ==> r == s
    ensures |s.questions| > 0 ==> !r.locked
    ensures |s.questions| > 0 && 0 <= s.index < |ActiveList(s)| ==> r.index == s.index
    ensures s.index >= |ActiveList(s)| > 0 ==> r.index == 0
    ensures Screen(r) == Screen(s)
    ensures Screen(s).Card? ==> r.index == Screen(s).pos && r.startTime == now
    ensures !Screen(s).Card? ==> r.startTime == s.startTime
  {
    var a := ActiveList(s);
    if |a| == 0 then s
    else
      var t := s.(index := Clamp(s.index, |a|), locked := false);
      assert ActiveList(t) == a;
      if Screen(s).Card? then t.(startTime := now) else t
  }

  /** Rendering twice at the same time is rendering once. */
  lemma RenderIdempotent(s: State, now: int)
    ensures Render(Render(s, now), now) == Render(s, now)
  {
  }

  /** The active list depends on the questions, the mode and the wrong set only. */
  lemma SameList(s: State, t: State)
    requires s.questions == t.questions && s.mode == t.mode && s.wrongSet == t.wrongSet
    ensures ActiveList(s) == ActiveList(t)
  {
  }

  /** `next`: one step forward, wrapping at the end (JavaScript `%`). */
  function Next(s: State, now: int): (r: State)
    ensures |ActiveList(s)| == 0 ==> r == s
    ensures ActiveList(r) == ActiveList(s)
    ensures 0 <= s.index < |ActiveList(s)| ==>
      r.index == if s.index == |ActiveList(s)| - 1 then 0 else s.index + 1
    ensures s.index >= -1 && |ActiveList(s)| > 0 ==> 0 <= r.index < |ActiveList(s)|
  {
    var n := |ActiveList(s)|;
    if n == 0 then s
    else
      var t := s.(index := JsRem(s.index + 1, n));
      SameList(s, t);
      JsRemWrap(s.index + 1, n);
      Render(t, now)
  }

  /** `prev`: one step back, wrapping at the start. */
  function Prev(s: State, now: int): (r: State)
    ensures |ActiveList(s)| == 0 ==> r == s
    ensures ActiveList(r) == ActiveList(s)
    ensures 0 <= s.index < |ActiveList(s)| ==>
      r.index == if s.index == 0 then |ActiveList(s)| - 1 else s.index - 1
    ensures s.index >= 1 - |ActiveList(s)| && |ActiveList(s)| > 0 ==> 0 <= r.index < |ActiveList(s)|
  {
    var n := |ActiveList(s)|;
    if n == 0 then s
    else
      var t := s.(index := JsRem(s.index - 1 + n, n));
      SameList(s, t);
      JsRemWrap(s.index - 1 + n, n);
      Render(t, now)
  }

  /** `prev` undoes `next` on a card: the state is the one a fresh render of the card gives. */
  lemma PrevUndoesNext(s: State, t1: int, t2: int)
    requires 0 <= s.index < |ActiveList(s)|
    ensures Prev(Next(s, t1), t2) == Render(s, t2)
  {
    var n := |ActiveList(s)|;
    var u := Next(s, t1);
    assert u.index == if s.index == n - 1 then 0 else s.index + 1;
    assert Prev(u, t2).index == s.index;
  }

  /** `next` undoes `prev` on a card. */
  lemma NextUndoesPrev(s: State, t1: int, t2: int)
    requires 0 <= s.index < |ActiveList(s)|
    ensures Next(Prev(s, t1), t2) == Render(s, t2)
  {
    var n := |ActiveList(s)|;
    var u := Prev(s, t1);
    assert u.index == if s.index == 0 then n - 1 else s.index - 1;
    assert Next(u, t2).index == s.index;
  }

  /** A settled state stays settled under render and both steps. */
  lemma NavigationSettled(s: State, now: int)
    requires Settled(s)
    ensures Settled(Render(s, now)) && Settled(Next(s, now)) && Settled(Prev(s, now))
  {
  }

  /** The retry loop of `randomNext`: the first draw that differs from `current`. `Math.random`
      is the sequence of draws `floor(random() * n)`. */
  method DrawOther(current: int, n: nat, draws: seq<int>) returns (r: int)
    requires forall k :: 0 <= k < |draws| ==> 0 <= draws[k] < n
    requires exists k :: 0 <= k < |draws| && draws[k] != current
    ensures 0 <= r < n && r != current
    ensures exists k :: 0 <= k < |draws| && r == draws[k] && forall j :: 0 <= j < k ==> draws[j] == current
  {
    var k := 0;
    while k < |draws| && draws[k] == current
      invariant 0 <= k <= |draws|
      invariant forall j :: 0 <= j < k ==> draws[j] == current
      decreases |draws| - k
    {
      k := k + 1;
    }
    if k == |draws| {
      assert false;
    }
    r := draws[k];
  }

  /** `randomNext`: on a list of two or more, move to some other card and render it. */
  method RandomNext(s: State, draws: seq<int>, now: int) returns (r: State)
    requires forall k :: 0 <= k < |draws| ==> 0 <= draws[k] < |ActiveList(s)|
    requires |ActiveList(s)| > 1 ==> exists k :: 0 <= k < |draws| && draws[k] != s.index
    ensures |ActiveList(s)| <= 1 ==> r == s
    ensures |ActiveList(s)| > 1 ==> 0 <= r.index < |ActiveList(s)| && r.index != s.index
    ensures |ActiveList(s)| > 1 ==> r == Render(s.(index := r.index), now)
    ensures r.questions == s.questions && r.mode == s.mode && r.wrongSet == s.wrongSet
    ensures r.answeredAll == s.answeredAll && r.answeredWrongs == s.answeredWrongs
  {
    var n := |ActiveList(s)|;
    if n <= 1 {
      return s;
    }
    var i := DrawOther(s.index, n, draws);
    var t := s.(index := i);
    assert ActiveList(t) == ActiveList(s);
    r := Render(t, now);
  }

  /** The swap loop of `shuffleCurrent`: Fisher–Yates from the last position down, where the
      t-th draw picks `j` in `0..i` for `i = |qs| - 1 - t`. */
  method FisherYates<T>(qs: seq<T>, draws: seq<int>) returns (a: seq<T>)
    requires |qs| > 1 ==> |draws| >= |qs| - 1
    requires forall t :: 0 <= t < |draws| && t < |qs| - 1 ==> 0 <= draws[t] <= |qs| - 1 - t
    ensures |a| == |qs|
    ensures multiset(a) == multiset(qs)
    ensures |qs| > 1 ==> a[|qs| - 1] == qs[draws[0]]
  {
    a := qs;
    var i := |qs| - 1;
    while i > 0
      invariant -1 <= i <= |qs| - 1
      invariant |a| == |qs|
      invariant multiset(a) == multiset(qs)
      invariant i == |qs| - 1 ==> a == qs
      invariant i < |qs| - 1 ==> |qs| > 1 && a[|qs| - 1] == qs[draws[0]]
      decreases i
    {
      var t := |qs| - 1 - i;
      var j := draws[t];
      a := a[i := a[j]][j := a[i]];
      i := i - 1;
    }
  }

  /** The progress fields a reset clears and the cursor it rewinds. */
  function Rewind(s: State): (r: State)
    ensures r.wrongSet == {} && r.answeredAll == {} && r.answeredWrongs == {}
    ensures r.mode == All && r.index == 0
    ensures r.questions == s.questions && r.locked == s.locked
    ensures r.analytics == s.analytics && r.startTime == s.startTime
  {
    s.(wrongSet := {}, answeredAll := {}, answeredWrongs := {}, mode := All, index := 0)
  }

  /** `shuffleCurrent`: permute the questions, switch to "all" at the first card, render. The
      progress sets are kept, so `answeredAll` may now name other questions. */
  method ShuffleCurrent(s: State, draws: seq<int>, now: int) returns (r: State)
    requires |s.questions| > 1 ==> |draws| >= |s.questions| - 1
    requires forall t :: 0 <= t < |draws| && t < |s.questions| - 1 ==> 0 <= draws[t] <= |s.questions| - 1 - t
    ensures multiset(r.questions) == multiset(s.questions) && |r.questions| == |s.questions|
    ensures r.mode == All && r.index == 0
    ensures r.wrongSet == s.wrongSet && r.answeredAll == s.answeredAll && r.answeredWrongs == s.answeredWrongs
    ensures r.analytics == s.analytics
    ensures |s.questions| > 0 ==> !r.locked
    ensures |s.questions| == 0 ==> r == s.(mode := All, index := 0)
    ensures r == Render(s.(questions := r.questions, mode := All, index := 0), now)
    ensures Settled(s) ==> Settled(r)
  {
    var a := FisherYates(s.questions, draws);
    r := Render(s.(questions := a, mode := All, index := 0), now);
  }

  /** `resetAll`: clear the progress, switch to "all" at the first card, render. */
  function ResetAll(s: State, now: int): (r: State)
    ensures r.wrongSet == {} && r.answeredAll == {} && r.answeredWrongs == {}
    ensures r.mode == All && r.index == 0 && r.questions == s.questions
    ensures Settled(r)
    ensures Progress(r).done == 0 && Progress(r).pct == 0
    ensures Screen(r) == if |s.questions| == 0 then EmptyList else Card(0)
  {
    Render(Rewind(s), now)
  }
}
