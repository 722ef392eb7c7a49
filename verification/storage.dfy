/** js/storage.js: the session state as a flat saved record and back. The record is what
    `JSON.stringify` would write; the text itself and `localStorage` are left out, so a slot is
    either vacant, holds text that does not parse, or holds a record. */
module Storage {
  import opened Options
  import opened Model

  /** The saved record. A field is `None` when the stored JSON lacks it (or holds a falsy value,
      which the loader treats the same way). */
  datatype Saved = Saved(
    wrongs: Option<seq<string>>,
    answeredAll: Option<seq<int>>,
    answeredWrongs: Option<seq<string>>,
    index: Option<int>,
    mode: Option<string>,
    theme: Option<string>,
    analytics: Option<map<string, Stat>>)

  /** The `quiz_state` slot. */
  datatype Slot = Vacant | Garbled | Holds(record: Saved)

  /** `Array.from(set)`: every member once, in some order. */
  method Enumerate<T>(xs: set<T>) returns (r: seq<T>)
    ensures forall x :: x in r <==> x in xs
    ensures |r| == |xs|
    ensures forall i, j :: 0 <= i < j < |r| ==> r[i] != r[j]
  {
    r := [];
    var rest := xs;
    while rest != {}
      invariant rest <= xs
      invariant forall x :: x in r <==> x in xs - rest
      invariant |r| + |rest| == |xs|
      invariant forall i, j :: 0 <= i < j < |r| ==> r[i] != r[j]
      decreases |rest|
    {
      var x :| x in rest;
      assert x !in r;
      assert forall i :: 0 <= i < |r| ==> r[i] in r;
      r := r + [x];
      rest := rest - {x};
    }
  }

  /** The `data-theme` attribute as saved: missing or empty reads as "default". */
  function ThemeName(attr: Option<string>): (t: string)
    ensures t != ""
    ensures attr.Some? && attr.value != "" ==> t == attr.value
  {
    match attr
    case Some(a) => if a != "" then a else "default"
    case None => "default"
  }

  /** What `saveState` writes for `s` when the page's theme attribute is `attr`. */
  predicate SavedFrom(d: Saved, s: State, attr: Option<string>) {
    && d.wrongs.Some? && SetOf(d.wrongs) == s.wrongSet
    && d.answeredAll.Some? && SetOf(d.answeredAll) == s.answeredAll
    && d.answeredWrongs.Some? && SetOf(d.answeredWrongs) == s.answeredWrongs
    && d.index == Some(s.index)
    && d.mode == Some(ModeName(s.mode))
    && d.theme == Some(ThemeName(attr))
    && d.analytics == Some(s.analytics)
  }

  /** `saveState`. */
  method Save(s: State, attr: Option<string>) returns (d: Saved)
    ensures SavedFrom(d, s, attr)
    ensures |d.wrongs.value| == |s.wrongSet| && |d.answeredAll.value| == |s.answeredAll|
    ensures |d.answeredWrongs.value| == |s.answeredWrongs|
  {
    var ws := Enumerate(s.wrongSet);
    var aa := Enumerate(s.answeredAll);
    var aw := Enumerate(s.answeredWrongs);
    d := Saved(Some(ws), Some(aa), Some(aw), Some(s.index), Some(ModeName(s.mode)), Some(ThemeName(attr)), Some(s.analytics));
  }

  /** `new Set(list || [])`. */
  function SetOf<T(!new)>(xs: Option<seq<T>>): (r: set<T>)
    ensures forall x :: x in r <==> xs.Some? && x in xs.value
  {
    match xs
    case Some(v) => set x | x in v
    case None => {}
  }

  /** The page theme after a load: a truthy saved theme replaces the attribute ("default"
      removes it); otherwise the attribute stays as it was. */
  function LoadTheme(saved: Option<string>, attr: Option<string>): (r: Option<string>)
    ensures saved.None? || saved == Some("") ==> r == attr
    ensures saved == Some("default") ==> r.None?
    ensures saved.Some? && saved.value != "" && saved.value != "default" ==> r == saved
  {
    match saved
    case None => attr
    case Some(t) => if t == "" then attr else if t == "default" then None else Some(t)
  }

  /** `loadState`: nothing happens for a vacant or unparsable slot; otherwise every progress
      field is taken from the record, with the documented defaults, and none is checked. The
      questions, the lock and the timer are not touched. */
  function Load(slot: Slot, s: State, attr: Option<string>): (r: (State, Option<string>))
    ensures !slot.Holds? ==> r == (s, attr)
    ensures r.0.questions == s.questions && r.0.locked == s.locked && r.0.startTime == s.startTime
    ensures slot.Holds? ==> var d := slot.record;
      && (forall u :: u in r.0.wrongSet <==> d.wrongs.Some? && u in d.wrongs.value)
      && (forall i :: i in r.0.answeredAll <==> d.answeredAll.Some? && i in d.answeredAll.value)
      && (forall u :: u in r.0.answeredWrongs <==> d.answeredWrongs.Some? && u in d.answeredWrongs.value)
      && r.0.index == d.index.GetOr(0)
      && ValidMode(r.0.mode)
      && (d.mode.None? || d.mode == Some("") ==> r.0.mode == All)
      && (d.mode.Some? && d.mode.value != "" ==> ModeName(r.0.mode) == d.mode.value)
      && r.0.analytics == d.analytics.GetOr(map[])
    ensures slot.Holds? ==> r.1 == LoadTheme(slot.record.theme, attr)
  {
    match slot
    case Holds(d) =>
      ModeNameParseAll(d.mode);
      var t := s.(
        wrongSet := SetOf(d.wrongs),
        answeredAll := SetOf(d.answeredAll),
        answeredWrongs := SetOf(d.answeredWrongs),
        index := d.index.GetOr(0),
        mode := ParseMode(d.mode.GetOr("")),
        analytics := d.analytics.GetOr(map[]));
      (t, LoadTheme(d.theme, attr))
    case _ => (s, attr)
  }

  lemma ModeNameParseAll(m: Option<string>)
    ensures m.Some? && m.value != "" ==> ModeName(ParseMode(m.value)) == m.value
  {
    if m.Some? && m.value != "" {
      ModeNameParse(m.value);
    }
  }

  /** Loading what `saveState` wrote restores the three sets, the cursor, the mode and the
      analytics, and the theme up to the "default" spelling. */
  lemma LoadSaved(d: Saved, s: State, attr: Option<string>, t: State, attr': Option<string>)
    requires SavedFrom(d, s, attr) && ValidMode(s.mode)
    ensures var (r, th) := Load(Holds(d), t, attr');
      && r.wrongSet == s.wrongSet && r.answeredAll == s.answeredAll && r.answeredWrongs == s.answeredWrongs
      && r.index == s.index && r.mode == s.mode && r.analytics == s.analytics
      && th == (if ThemeName(attr) == "default" then None else attr)
  {
    ParseModeName(s.mode);
  }

  /** A record with no fields gives the defaults: empty sets, the first card, "all", no analytics. */
  lemma LoadDefaults(s: State, attr: Option<string>)
    ensures var (r, th) := Load(Holds(Saved(None, None, None, None, None, None, None)), s, attr);
      && r.wrongSet == {} && r.answeredAll == {} && r.answeredWrongs == {}
      && r.index == 0 && r.mode == All && r.analytics == map[] && th == attr
  {
  }
}
