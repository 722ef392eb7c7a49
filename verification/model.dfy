/** The session state shared by the js/ module engine and the app.js closure: the question list,
    the cursor, the mode, the answer lock, the three progress sets and the per-question timings. */
module Model {
  import opened Keys

  /** The `mode` string. Only "all" and "wrongs" are ever assigned by the engine, but a saved
      record may carry any other non-empty string, which is kept as it is. */
  datatype Mode = All | Wrongs | Other(name: string)

  function ModeName(m: Mode): string {
    match m
    case All => "all"
    case Wrongs => "wrongs"
    case Other(name) => name
  }

  /** A mode whose name reads back as itself. */
  predicate ValidMode(m: Mode) {
    m.Other? ==> m.name != "" && m.name != "all" && m.name != "wrongs"
  }

  /** `data.mode || "all"`: the empty string is falsy and gives "all". */
  function ParseMode(name: string): (m: Mode)
    ensures ValidMode(m)
    ensures name == "" || name == "all" <==> m == All
    ensures name == "wrongs" <==> m == Wrongs
  {
    if name == "" || name == "all" then All
    else if name == "wrongs" then Wrongs
    else Other(name)
  }

  /** Naming a valid mode and reading the name back gives the mode. */
  lemma ParseModeName(m: Mode)
    requires ValidMode(m)
    ensures ParseMode(ModeName(m)) == m
  {
  }

  /** Reading a non-empty name and naming the result gives the name. */
  lemma ModeNameParse(name: string)
    requires name != ""
    ensures ModeName(ParseMode(name)) == name
  {
  }

  /** One question of a loaded file, with the `_uid` the loader adds. */
  datatype Question = Question(uid: string, title: string, answer: Scalar, options: seq<OptionEntry>)

  /** One fetched question file: a failed response, a body that does not parse, or the parsed
      array of questions. */
  datatype Fetch = NotOk | BadBody | Body(items: seq<Question>)

  /** The parsed arrays of a list of fetched files, concatenated in file order (`.flat()`). */
  function Flatten(fs: seq<Fetch>): seq<Question> {
    if |fs| == 0 then [] else (if fs[0].Body? then fs[0].items else []) + Flatten(fs[1..])
  }

  /** One entry of `analyticsData`. */
  datatype Stat = Stat(attempts: int, timeSpent: int, correct: bool)

  /** The engine state. `startTime` is `questionStartTime`; 0 stands for "not started". */
  datatype State = State(
    questions: seq<Question>,
    index: int,
    mode: Mode,
    locked: bool,
    wrongSet: set<string>,
    answeredAll: set<int>,
    answeredWrongs: set<string>,
    analytics: map<string, Stat>,
    startTime: int)
}
