/** The engine as app.js writes it: one closure with the same state and the same selection,
    progress and pick rules as js/quiz.js (those are `Quiz.ActiveList`, `Quiz.Progress` and
    `Quiz.Pick`), but no question timer, no finish screen, no empty-list guard on the steps, a
    mode toggle, and a loader that numbers the questions. `analytics` and `startTime` are not
    part of this engine and are never changed. */
module App {
  import opened Options
  import opened Text
  import opened Numeric
  import opened Model
  import Quiz

  /** `render`: nothing on an empty list; otherwise the clamp and the lock reset. */
  function Render(s: State): (r: State)
    ensures r.questions == s.questions && r.mode == s.mode && r.wrongSet == s.wrongSet
    ensures r.answeredAll == s.answeredAll && r.answeredWrongs == s.answeredWrongs
    ensures r.analytics == s.analytics && r.startTime == s.startTime
    ensures Quiz.ActiveList(r) == Quiz.ActiveList(s)
    ensures |s.questions| == 0 ==> r == s
    ensures |s.questions| > 0 ==> !r.locked
    ensures 0 <= s.index < |Quiz.ActiveList(s)| ==> r.index == s.index
    ensures s.index >= |Quiz.ActiveList(s)| > 0 ==> r.index == 0
  {
    var a := Quiz.ActiveList(s);
    if |a| == 0 then s
    else
      var t := s.(index := Quiz.Clamp(s.index, |a|), locked := false);
      Quiz.SameList(s, t);
      t
  }

  /** The two renders differ only in the question timer. */
  lemma RenderAgrees(s: State, now: int)
    ensures Quiz.Render(s, now).(startTime := s.startTime) == Render(s)
  {
  }

  /** `next` with no empty-list guard: the caller must have a card (see README). */
  function Next(s: State): (r: State)
    requires |s.questions| > 0
    ensures Quiz.ActiveList(r) == Quiz.ActiveList(s)
    ensures 0 <= s.index < |Quiz.ActiveList(s)| ==>
      r.index == if s.index == |Quiz.ActiveList(s)| - 1 then 0 else s.index + 1
    ensures s.index >= -1 ==> 0 <= r.index < |Quiz.ActiveList(s)|
  {
    var n := |Quiz.ActiveList(s)|;
    var t := s.(index := JsRem(s.index + 1, n));
    Quiz.SameList(s, t);
    JsRemWrap(s.index + 1, n);
    Render(t)
  }

  /** `prev` with no empty-list guard. */
  function Prev(s: State): (r: State)
    requires |s.questions| > 0
    ensures Quiz.ActiveList(r) == Quiz.ActiveList(s)
    ensures 0 <= s.index < |Quiz.ActiveList(s)| ==>
      r.index == if s.index == 0 then |Quiz.ActiveList(s)| - 1 else s.index - 1
    ensures s.index >= 1 - |Quiz.ActiveList(s)| ==> 0 <= r.index < |Quiz.ActiveList(s)|
  {
    var n := |Quiz.ActiveList(s)|;
    var t := s.(index := JsRem(s.index - 1 + n, n));
    Quiz.SameList(s, t);
    JsRemWrap(s.index - 1 + n, n);
    Render(t)
  }

  /** On a non-empty list the closure's steps and the module's steps agree but for the timer. */
  lemma StepsAgree(s: State, now: int)
    requires |s.questions| > 0
    ensures Quiz.Next(s, now).(startTime := s.startTime) == Next(s)
    ensures Quiz.Prev(s, now).(startTime := s.startTime) == Prev(s)
  {
    var n := |Quiz.ActiveList(s)|;
    RenderAgrees(s.(index := JsRem(s.index + 1, n)), now);
    RenderAgrees(s.(index := JsRem(s.index - 1 + n, n)), now);
  }

  /** `prev` undoes `next` on a card. */
  lemma PrevUndoesNext(s: State)
    requires 0 <= s.index < |Quiz.ActiveList(s)|
    ensures Prev(Next(s)) == Render(s)
  {
    var u := Next(s);
    assert Prev(u).index == s.index;
  }

  /** `randomNext`: on a list of two or more, some other card. */
  method RandomNext(s: State, draws: seq<int>) returns (r: State)
    requires forall k :: 0 <= k < |draws| ==> 0 <= draws[k] < |Quiz.ActiveList(s)|
    requires |Quiz.ActiveList(s)| > 1 ==> exists k :: 0 <= k < |draws| && draws[k] != s.index
    ensures |Quiz.ActiveList(s)| <= 1 ==> r == s
    ensures |Quiz.ActiveList(s)| > 1 ==> 0 <= r.index < |Quiz.ActiveList(s)| && r.index != s.index && !r.locked
    ensures r.questions == s.questions && r.mode == s.mode && r.wrongSet == s.wrongSet
    ensures r.answeredAll == s.answeredAll && r.answeredWrongs == s.answeredWrongs
  {
    var n := |Quiz.ActiveList(s)|;
    if n <= 1 {
      return s;
    }
    var i := Quiz.DrawOther(s.index, n, draws);
    var t := s.(index := i);
    Quiz.SameList(s, t);
    r := Render(t);
  }

  /** `shuffleCurrent`: permute, switch to "all" at the first card. */
  method ShuffleCurrent(s: State, draws: seq<int>) returns (r: State)
    requires |s.questions| > 1 ==> |draws| >= |s.questions| - 1
    requires forall t :: 0 <= t < |draws| && t < |s.questions| - 1 ==> 0 <= draws[t] <= |s.questions| - 1 - t
    ensures multiset(r.questions) == multiset(s.questions) && |r.questions| == |s.questions|
    ensures r.mode == All && r.index == 0
    ensures r.wrongSet == s.wrongSet && r.answeredAll == s.answeredAll && r.answeredWrongs == s.answeredWrongs
    ensures r.analytics == s.analytics && r.startTime == s.startTime
    ensures |s.questions| > 0 ==> !r.locked
    ensures |s.questions| == 0 ==> r == s.(mode := All, index := 0)
    ensures r == Render(s.(questions := r.questions, mode := All, index := 0))
  {
    var a := Quiz.FisherYates(s.questions, draws);
    r := Render(s.(questions := a, mode := All, index := 0));
  }

  /** `resetAll`. */
  function ResetAll(s: State): (r: State)
    ensures r.wrongSet == {} && r.answeredAll == {} && r.answeredWrongs == {}
    ensures r.mode == All && r.index == 0 && r.questions == s.questions
    ensures Quiz.Settled(r) && Quiz.Progress(r).pct == 0
  {
    Render(Quiz.Rewind(s))
  }

  /** The wrongs button: "all" becomes "wrongs", anything else becomes "all"; back to the first
      card. */
  function Toggle(s: State): (r: State)
    ensures r.mode == (if s.mode == All then Wrongs else All)
    ensures r.index == 0
    ensures r.questions == s.questions && r.wrongSet == s.wrongSet
    ensures r.answeredAll == s.answeredAll && r.answeredWrongs == s.answeredWrongs
  {
    Render(s.(mode := if s.mode == All then Wrongs else All, index := 0))
  }

  /** Toggling twice restores the mode, and the state is the first card rendered afresh. */
  lemma ToggleTwice(s: State)
    requires s.mode == All || s.mode == Wrongs
    ensures Toggle(Toggle(s)).mode == s.mode
    ensures Toggle(Toggle(s)) == Render(s.(index := 0))
  {
    var t := s.(index := 0);
    Quiz.SameList(t, Toggle(Toggle(s)).(index := 0, locked := s.locked));
  }

  /** What a user can do between two loads. */
  datatype Event = Picked(dataKey: string) | Forward | Backward | Toggled

  /** A run of events on a loaded list: no pick or step ever shrinks a progress set, so only a
      reset or a load can take back a recorded answer. */
  function Run(s: State, evs: seq<Event>): (r: State)
    requires |s.questions| > 0
    ensures r.questions == s.questions
    ensures s.wrongSet <= r.wrongSet && s.answeredAll <= r.answeredAll && s.answeredWrongs <= r.answeredWrongs
    decreases |evs|
  {
    if |evs| == 0 then s
    else
      var t := match evs[0]
        case Picked(k) => Quiz.Pick(s, k)
        case Forward => Next(s)
        case Backward => Prev(s)
        case Toggled => Toggle(s);
      Run(t, evs[1..])
  }

  /** Why a load stopped. */
  datatype LoadError = NotLoaded(file: string) | Unreadable

  /** The outcome of `loadSelectedQuestions`: the new state, or the error it throws with the
      state untouched. */
  datatype Loaded = Done(state: State) | Failed(error: LoadError)

  /** The index of the first failed response, if any. */
  function FirstNotOk(fs: seq<Fetch>): (k: Option<nat>)
    ensures k.Some? ==> k.value < |fs| && fs[k.value].NotOk? && forall j :: 0 <= j < k.value ==> !fs[j].NotOk?
    ensures k.None? ==> forall j :: 0 <= j < |fs| ==> !fs[j].NotOk?
  {
    if |fs| == 0 then None
    else if fs[0].NotOk? then Some(0)
    else match FirstNotOk(fs[1..]) case None => None case Some(k) => Some(k + 1)
  }

  /** The uid the loader gives the question at position `i`. */
  function UidAt(i: nat): string {
    "q_" + Dec(i + 1)
  }

  /** Position-based uids, overriding any `_uid` the file carries. */
  function AssignUids(qs: seq<Question>): (r: seq<Question>)
    ensures |r| == |qs|
    ensures forall i :: 0 <= i < |r| ==> r[i] == qs[i].(uid := UidAt(i))
  {
    seq(|qs|, i requires 0 <= i < |qs| => qs[i].(uid := UidAt(i)))
  }

  /** Different positions get different uids. */
  lemma UidsDistinct(qs: seq<Question>, i: int, j: int)
    requires 0 <= i < |qs| && 0 <= j < |qs| && i != j
    ensures AssignUids(qs)[i].uid != AssignUids(qs)[j].uid
  {
    if UidAt(i) == UidAt(j) {
      assert Dec(i + 1) == UidAt(i)[2..] == UidAt(j)[2..] == Dec(j + 1);
      DecInjective(i + 1, j + 1);
    }
  }

  /** `loadSelectedQuestions` for the selected `files` and what fetching each returned. */
  function Load(s: State, files: seq<string>, fetched: seq<Fetch>): (r: Loaded)
    requires |fetched| == |files|
    ensures |files| == 0 ==> r.Done? && r.state.questions == []
    ensures r.Failed? <==> |files| > 0 && exists j :: 0 <= j < |fetched| && !fetched[j].Body?
    ensures r.Failed? && r.error.NotLoaded? <==> |files| > 0 && exists j :: 0 <= j < |fetched| && fetched[j].NotOk?
    ensures r.Failed? && r.error.NotLoaded? ==>
      FirstNotOk(fetched).Some? && r.error.file == files[FirstNotOk(fetched).value]
    ensures r.Failed? && r.error.Unreadable? ==> exists j :: 0 <= j < |fetched| && fetched[j].BadBody?
    ensures r.Done? ==> r.state.wrongSet == {} && r.state.answeredAll == {} && r.state.answeredWrongs == {}
    ensures r.Done? ==> r.state.mode == All && r.state.index == 0
    ensures r.Done? ==> r.state.analytics == s.analytics && r.state.startTime == s.startTime
    ensures r.Done? ==> r.state.questions == AssignUids(Flatten(fetched))
  {
    if |files| == 0 then Done(Quiz.Rewind(s).(questions := []))
    else match FirstNotOk(fetched)
      case Some(k) => Failed(NotLoaded(files[k]))
      case None =>
        if exists j :: 0 <= j < |fetched| && fetched[j].BadBody? then Failed(Unreadable)
        else Done(ResetAll(s.(questions := AssignUids(Flatten(fetched)))))
  }

  /** After a successful load no two questions share a uid, so the wrong set and the answered
      sets name questions unambiguously. */
  lemma LoadedUidsDistinct(s: State, files: seq<string>, fetched: seq<Fetch>, i: int, j: int)
    requires |fetched| == |files| && Load(s, files, fetched).Done?
    requires var qs := Load(s, files, fetched).state.questions; 0 <= i < |qs| && 0 <= j < |qs| && i != j
    ensures Load(s, files, fetched).state.questions[i].uid != Load(s, files, fetched).state.questions[j].uid
  {
    UidsDistinct(Flatten(fetched), i, j);
  }

  /** A successful load does not depend on the state it starts from beyond the two fields this
      engine does not own, so loading the same files again gives the same state. */
  lemma LoadTwice(s: State, files: seq<string>, fetched: seq<Fetch>)
    requires |fetched| == |files| && Load(s, files, fetched).Done?
    ensures Load(Load(s, files, fetched).state, files, fetched) == Load(s, files, fetched)
  {
  }
}
