/** The flashcard page of quiz/app.js: one pool of cards, a random current card that can be
    flipped, a one-shot answer pick, and a random next card. Random draws are parameters; the DOM
    is reduced to the marks the option items receive. */
module Flashcard {
  import opened Options
  import opened Keys
  import opened Escape
  import Quiz

  /** One card: its `answer` field and the keys of its `options` object, in display order, each
      with its option text. */
  datatype Card = Card(answer: Scalar, options: seq<(string, string)>)

  /** The page state: the pool, `current`, `isFlipped` and `locked`. */
  datatype Deck = Deck(cards: seq<Card>, current: Option<Card>, flipped: bool, locked: bool)

  /** `pickRandomQuestion`, given the index `Math.floor(Math.random() * length)` drew. */
  function PickRandom(cards: seq<Card>, draw: int): (r: Option<Card>)
    requires |cards| > 0 ==> 0 <= draw < |cards|
    ensures r.None? <==> |cards| == 0
    ensures r.Some? ==> r.value in cards
  {
    if |cards| == 0 then None else Some(cards[draw])
  }

  /** Every card of a non-empty pool can be drawn. */
  lemma EveryCardReachable(cards: seq<Card>, c: Card)
    requires c in cards
    ensures exists draw :: 0 <= draw < |cards| && PickRandom(cards, draw) == Some(c)
  {
    var i :| 0 <= i < |cards| && cards[i] == c;
    assert PickRandom(cards, i) == Some(c);
  }

  /** `renderQuestion(q)`: the card becomes current, face up and open for an answer. */
  function Show(d: Deck, c: Card): (r: Deck)
    ensures r.cards == d.cards && r.current == Some(c)
    ensures !r.flipped && !r.locked
  {
    d.(current := Some(c), flipped := false, locked := false)
  }

  /** `flip`: turns the current card over; without a card it does nothing. */
  function Flip(d: Deck): (r: Deck)
    ensures r.cards == d.cards && r.current == d.current && r.locked == d.locked
    ensures d.current.None? ==> r == d
    ensures d.current.Some? ==> r.flipped == !d.flipped
  {
    if d.current.None? then d else d.(flipped := !d.flipped)
  }

  /** Flipping twice restores the deck. */
  lemma FlipTwice(d: Deck)
    ensures Flip(Flip(d)) == d
  {
  }

  /** The `data-key` an option item carries and gives back: the key escaped by the five-character
      `escapeHtml`, read by the HTML parser up to the closing quote, and decoded. Only the parser's
      rewriting of CR and NUL separates it from the key. */
  function DataKey(key: string): (k: string)
    ensures k == Preprocess(key)
    ensures NoCrOrNul(key) ==> k == key
  {
    var e := EscapeHtmlStrict(key);
    assert NoQuote(e);
    PreprocessEncode(key, true);
    PreprocessShape(key);
    DecodeEncode(Preprocess(key), true);
    Unescape(Quiz.AttrValue(e))
  }

  /** `markAnswers(selectedKey)`: every option item is disabled; the item whose `data-key` is the
      answer (compared strictly, so only a string answer can match) is marked correct, and the
      picked item is marked wrong unless it is the answer. No card, no items. */
  function MarkAnswers(d: Deck, selected: string): (ms: seq<Quiz.Mark>)
    ensures d.current.None? ==> ms == []
    ensures d.current.Some? ==> |ms| == |d.current.value.options|
    ensures d.current.Some? ==> forall i :: 0 <= i < |ms| ==>
      var key := Preprocess(d.current.value.options[i].0);
      && ms[i].disabled
      && (ms[i].correct <==> d.current.value.answer == Str(key))
      && (ms[i].wrong <==> key == selected && d.current.value.answer != Str(selected))
  {
    if d.current.None? then []
    else
      var c := d.current.value;
      seq(|c.options|, i requires 0 <= i < |c.options| =>
        var key := DataKey(c.options[i].0);
        Quiz.Mark(true, c.answer == Str(key), key == selected && c.answer != Str(selected)))
  }

  /** An item is never both correct and wrong, and the picked item shows exactly one outcome. */
  lemma MarksConsistent(d: Deck, selected: string)
    requires d.current.Some?
    ensures var ms := MarkAnswers(d, selected);
      forall i :: 0 <= i < |ms| ==>
        && !(ms[i].correct && ms[i].wrong)
        && (Preprocess(d.current.value.options[i].0) == selected ==> ms[i].correct != ms[i].wrong)
  {
  }

  /** An option key with a carriage return is never marked correct, even when it spells the
      answer: the parser reads the key back with LF in its place. */
  lemma CarriageReturnKeyMissed(d: Deck, selected: string, x: char, y: char)
    requires x != '\r' && x != '\0' && y != '\r' && y != '\0' && y != '\n'
    requires d.current.Some? && d.current.value.answer == Str([x, '\r', y])
    requires |d.current.value.options| > 0 && d.current.value.options[0].0 == [x, '\r', y]
    ensures !MarkAnswers(d, selected)[0].correct
  {
    CarriageReturnReadBack(x, y);
    assert [x, '\r', y] != [x, '\n', y] by {
      assert [x, '\r', y][1] != [x, '\n', y][1];
    }
  }

  lemma CarriageReturnReadBack(x: char, y: char)
    requires x != '\r' && x != '\0' && y != '\r' && y != '\0' && y != '\n'
    ensures Preprocess([x, '\r', y]) == [x, '\n', y]
  {
    PreprocessCons(x, ['\r', y]);
    assert [x, '\r', y] == [x] + ['\r', y];
    PreprocessCons('\r', [y]);
    assert ['\r', y] == ['\r'] + [y];
    assert SkipLf([y]) == [y];
    PreprocessCons(y, []);
    assert [y] == [y] + [];
  }

  /** A numeric (or any non-string) answer never marks an item correct, even when an option key
      spells the number. */
  lemma NonStringAnswerNeverCorrect(d: Deck, selected: string)
    requires d.current.Some? && !d.current.value.answer.Str?
    ensures forall m :: m in MarkAnswers(d, selected) ==> !m.correct
  {
  }

  /** The option-click (or Enter) handler: ignored once an answer is locked in; otherwise it
      locks the card and marks the items. */
  function Choose(d: Deck, dataKey: string): (r: (Deck, Option<seq<Quiz.Mark>>))
    ensures d.locked ==> r == (d, None)
    ensures !d.locked ==> r.0 == d.(locked := true) && r.1 == Some(MarkAnswers(d, dataKey))
  {
    if d.locked then (d, None) else (d.(locked := true), Some(MarkAnswers(d, dataKey)))
  }

  /** Only the first pick on a card is marked. */
  lemma ChooseOnce(d: Deck, k1: string, k2: string)
    ensures Choose(Choose(d, k1).0, k2).1 == None
    ensures Choose(Choose(d, k1).0, k2).0 == Choose(d, k1).0
  {
  }

  /** The next button and a click outside the card: a fresh random card, or nothing when the pool
      is empty. */
  function Advance(d: Deck, draw: int): (r: Deck)
    requires |d.cards| > 0 ==> 0 <= draw < |d.cards|
    ensures r.cards == d.cards
    ensures |d.cards| == 0 ==> r == d
    ensures |d.cards| > 0 ==> r.current.Some? && r.current.value in d.cards && !r.flipped && !r.locked
  {
    match PickRandom(d.cards, draw)
    case None => d
    case Some(c) => Show(d, c)
  }

  /** `q.options[correctKey] ?? ""`: the text of the option the answer names, with the answer
      turned into a property name as JavaScript does. */
  function CorrectText(c: Card): (t: string)
    ensures (exists i :: 0 <= i < |c.options| && c.options[i].0 == PropertyName(c.answer)) ==>
      exists i :: 0 <= i < |c.options| && c.options[i].0 == PropertyName(c.answer) && t == c.options[i].1
    ensures (forall i :: 0 <= i < |c.options| ==> c.options[i].0 != PropertyName(c.answer)) ==> t == ""
  {
    Lookup(c.options, PropertyName(c.answer))
  }

  /** `String(v)` as a property name: an absent field names the key "undefined". */
  function PropertyName(v: Scalar): string {
    if v.Missing? then "undefined" else ToText(v)
  }

  function Lookup(entries: seq<(string, string)>, key: string): (t: string)
    ensures (exists i :: 0 <= i < |entries| && entries[i].0 == key) ==>
      exists i :: 0 <= i < |entries| && entries[i].0 == key && t == entries[i].1
    ensures (forall i :: 0 <= i < |entries| ==> entries[i].0 != key) ==> t == ""
  {
    if |entries| == 0 then ""
    else if entries[0].0 == key then entries[0].1
    else
      var t := Lookup(entries[1..], key);
      assert forall i :: 1 <= i < |entries| ==> entries[i] == entries[1..][i - 1];
      t
  }

  /** A numeric answer still finds its option text when a key spells the number. */
  lemma NumericAnswerText(text: string)
    ensures CorrectText(Card(Num(1), [("1", text)])) == text
  {
  }

  /** One fetched question file: a failed response, a body that is not JSON, or its cards. */
  datatype Fetched = Unavailable(status: int) | Garbled | Parsed(cards: seq<Card>)

  /** Why `init` shows an error: a file failed to load, or the pool is empty
      ("Soru bulunamadı."). */
  datatype InitError = FileFailed | NoCards

  /** `dataArrays.flat()`. */
  function Pool(fs: seq<Fetched>): seq<Card> {
    if |fs| == 0 then [] else (if fs[0].Parsed? then fs[0].cards else []) + Pool(fs[1..])
  }

  predicate AllParsed(fs: seq<Fetched>) {
    forall i :: 0 <= i < |fs| ==> fs[i].Parsed?
  }

  /** `init`: every file must load; the pooled cards must not be empty; then one random card is
      shown. On failure the deck stays empty. */
  function Init(fs: seq<Fetched>, draw: int): (r: (Deck, Option<InitError>))
    requires AllParsed(fs) && |Pool(fs)| > 0 ==> 0 <= draw < |Pool(fs)|
    ensures r.1 == Some(FileFailed) <==> !AllParsed(fs)
    ensures r.1 == Some(NoCards) <==> AllParsed(fs) && |Pool(fs)| == 0
    ensures r.1.Some? ==> r.0 == Deck(if r.1 == Some(NoCards) then Pool(fs) else [], None, false, false)
    ensures r.1.None? ==> r.0 == Deck(Pool(fs), Some(Pool(fs)[draw]), false, false)
  {
    var empty := Deck([], None, false, false);
    if !AllParsed(fs) then (empty, Some(FileFailed))
    else
      var d := empty.(cards := Pool(fs));
      match PickRandom(d.cards, draw)
      case None => (d, Some(NoCards))
      case Some(c) => (Show(d, c), None)
  }

  /** After a failed start the page is inert: no card turns over, and none is drawn. */
  lemma FailedInitInert(fs: seq<Fetched>, draw: int, draw': int)
    requires AllParsed(fs) && |Pool(fs)| > 0 ==> 0 <= draw < |Pool(fs)|
    requires Init(fs, draw).1.Some?
    ensures var d := Init(fs, draw).0;
      Flip(d) == d && Advance(d, draw') == d && MarkAnswers(d, "") == []
  {
  }

  /** The pool holds every parsed card, file by file, in order. */
  lemma {:induction false} PoolConcat(a: seq<Fetched>, b: seq<Fetched>)
    ensures Pool(a + b) == Pool(a) + Pool(b)
    decreases |a|
  {
    if |a| == 0 {
      assert a + b == b;
    } else {
      assert (a + b)[1..] == a[1..] + b;
      PoolConcat(a[1..], b);
    }
  }

  /** A card of any loaded file is in the pool. */
  lemma {:induction false} PoolHolds(fs: seq<Fetched>, i: int, c: Card)
    requires 0 <= i < |fs| && fs[i].Parsed? && c in fs[i].cards
    ensures c in Pool(fs)
    decreases |fs|
  {
    if i > 0 {
      PoolHolds(fs[1..], i - 1, c);
    }
  }
}
