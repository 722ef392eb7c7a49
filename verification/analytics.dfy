/** js/analytics.js: the statistics panel, the per-question timer record and the dashboard
    aggregates. The clock is a parameter; the DOM writes are left out. */
module Analytics {
  import opened Options
  import opened Numeric
  import opened Model
  import Quiz
  import Storage

  // ---------------------------------------------------------------------------------------------
  // Statistics panel

  /** The accuracy percentage of `updateStats`: the share of answered cards not in the wrong set,
      rounded, or 0 before any answer. Nothing ties the two sizes together, so it can go below 0. */
  function Accuracy(answered: nat, wrong: nat): (a: int)
    ensures answered == 0 ==> a == 0
    ensures answered > 0 ==> 2 * answered * a - answered <= 200 * (answered - wrong) < 2 * answered * a + answered
  {
    if answered > 0 then Round(100 * (answered - wrong), answered) else 0
  }

  /** With no more wrong answers than answered cards the accuracy is a percentage. */
  lemma AccuracyInRange(answered: nat, wrong: nat)
    requires wrong <= answered
    ensures 0 <= Accuracy(answered, wrong) <= 100
  {
    if answered > 0 {
      PercentInRange(answered - wrong, answered);
    }
  }

  /** A wrong answer given in "wrongs" mode is not counted as answered, so one answered card with
      two wrong ones shows -100%. */
  lemma AccuracyNegative()
    ensures Accuracy(1, 2) == -100
  {
  }

  /** The four figures of the statistics panel. */
  datatype Panel = Panel(total: nat, done: nat, accuracy: int, wrongs: nat)

  /** With no wrong answer the accuracy is 100% once something is answered. */
  lemma AccuracyAllRight(answered: nat)
    requires answered > 0
    ensures Accuracy(answered, 0) == 100
  {
    RoundExact(100, answered);
  }

  /** `updateStats`. */
  function UpdateStats(s: State): (p: Panel)
    ensures p.total == |s.questions| && p.done == |s.answeredAll| && p.wrongs == |s.wrongSet|
    ensures p.accuracy == Accuracy(|s.answeredAll|, |s.wrongSet|)
  {
    Panel(|s.questions|, |s.answeredAll|, Accuracy(|s.answeredAll|, |s.wrongSet|), |s.wrongSet|)
  }

  // ---------------------------------------------------------------------------------------------
  // Question timer

  /** `recordQuestionTime(id)` at time `now`: nothing before the timer has started; otherwise the
      entry for `id` (created empty on first use) gains one attempt and the elapsed time. */
  function RecordQuestionTime(a: map<string, Stat>, startTime: int, id: string, now: int): (r: map<string, Stat>)
    ensures startTime == 0 ==> r == a
    ensures startTime != 0 ==> r.Keys == a.Keys + {id}
    ensures startTime != 0 && id !in a ==> r[id] == Stat(1, now - startTime, false)
    ensures startTime != 0 && id in a ==>
      r[id] == Stat(a[id].attempts + 1, a[id].timeSpent + (now - startTime), a[id].correct)
    ensures forall k :: k in a && k != id ==> k in r && r[k] == a[k]
  {
    if startTime == 0 then a
    else
      var prior := if id in a then a[id] else Stat(0, 0, false);
      a[id := Stat(prior.attempts + 1, prior.timeSpent + (now - startTime), prior.correct)]
  }

  /** Two recordings add up: two attempts and both elapsed times, `correct` untouched. */
  lemma RecordTwice(a: map<string, Stat>, t0: int, id: string, t1: int, t2: int)
    requires t0 != 0 && id in a
    ensures var r := RecordQuestionTime(RecordQuestionTime(a, t0, id, t1), t0, id, t2);
      && r[id].attempts == a[id].attempts + 2
      && r[id].timeSpent == a[id].timeSpent + (t1 - t0) + (t2 - t0)
      && r[id].correct == a[id].correct
      && r.Keys == a.Keys
  {
  }

  // ---------------------------------------------------------------------------------------------
  // Dashboard

  /** `vals` lists the values of `m` along `ks`, an order of its keys that names every key once. */
  predicate Listing(m: map<string, Stat>, ks: seq<string>, vals: seq<Stat>) {
    && (forall k :: k in ks ==> k in m)
    && (forall k :: k in m ==> k in ks)
    && (forall i, j :: 0 <= i < j < |ks| ==> ks[i] != ks[j])
    && |vals| == |ks|
    && forall i :: 0 <= i < |ks| ==> vals[i] == m[ks[i]]
  }

  /** `Object.values(analyticsData)`: one value per key, in some key order. */
  method ObjectValues(m: map<string, Stat>) returns (vals: seq<Stat>)
    ensures |vals| == |m|
    ensures forall k :: k in m ==> m[k] in vals
    ensures forall v :: v in vals ==> exists k :: k in m && m[k] == v
    ensures exists ks :: Listing(m, ks, vals)
  {
    var keys := Storage.Enumerate(m.Keys);
    assert |m.Keys| == |m|;
    vals := [];
    var n := 0;
    while n < |keys|
      invariant 0 <= n <= |keys| && |vals| == n
      invariant forall i :: 0 <= i < n ==> keys[i] in m && vals[i] == m[keys[i]]
    {
      vals := vals + [m[keys[n]]];
      n := n + 1;
    }
    assert Listing(m, keys, vals);
    ListingCovers(m, keys, vals);
  }

  /** A listing holds every key's value, and nothing else. */
  lemma ListingCovers(m: map<string, Stat>, ks: seq<string>, vals: seq<Stat>)
    requires Listing(m, ks, vals)
    ensures forall k :: k in m ==> m[k] in vals
    ensures forall v :: v in vals ==> exists k :: k in m && m[k] == v
  {
    forall k | k in m
      ensures m[k] in vals
    {
      var i :| 0 <= i < |ks| && ks[i] == k;
      assert vals[i] == m[k];
    }
    forall v | v in vals
      ensures exists k :: k in m && m[k] == v
    {
      var i :| 0 <= i < |vals| && vals[i] == v;
      var k := ks[i];
      assert k in m && m[k] == v;
    }
  }

  /** Any two key orders list the same values the same number of times. */
  lemma ListingsAgree(m: map<string, Stat>, ks1: seq<string>, v1: seq<Stat>, ks2: seq<string>, v2: seq<Stat>)
    requires Listing(m, ks1, v1) && Listing(m, ks2, v2)
    ensures multiset(v1) == multiset(v2)
  {
    DistinctCount(ks1);
    DistinctCount(ks2);
    assert multiset(ks1) == multiset(ks2) by {
      forall k ensures multiset(ks1)[k] == multiset(ks2)[k] {
        assert k in ks1 <==> k in ks2;
      }
    }
    ValuesPerm(m, ks1, v1, ks2, v2);
  }

  /** A sequence without repeats holds each of its elements once. */
  lemma {:induction false} DistinctCount<T>(s: seq<T>)
    requires forall i, j :: 0 <= i < j < |s| ==> s[i] != s[j]
    ensures forall x :: multiset(s)[x] == if x in s then 1 else 0
    decreases |s|
  {
    if |s| > 0 {
      DistinctCount(s[1..]);
      assert s == [s[0]] + s[1..];
      assert s[0] !in s[1..];
      forall x ensures multiset(s)[x] == if x in s then 1 else 0 {
        assert multiset(s) == multiset{s[0]} + multiset(s[1..]);
        assert x in s <==> x == s[0] || x in s[1..];
      }
    }
  }

  /** Reading values along two orderings of the same keys gives a permutation of the values. */
  lemma {:induction false} ValuesPerm(m: map<string, Stat>, ks1: seq<string>, v1: seq<Stat>, ks2: seq<string>, v2: seq<Stat>)
    requires multiset(ks1) == multiset(ks2)
    requires |v1| == |ks1| && forall i :: 0 <= i < |ks1| ==> ks1[i] in m && v1[i] == m[ks1[i]]
    requires |v2| == |ks2| && forall i :: 0 <= i < |ks2| ==> ks2[i] in m && v2[i] == m[ks2[i]]
    ensures multiset(v1) == multiset(v2)
    decreases |ks1|
  {
    if |ks1| == 0 {
      assert |ks2| == |multiset(ks2)| == 0;
    } else {
      assert ks1[0] in multiset(ks2);
      var k :| 0 <= k < |ks2| && ks2[k] == ks1[0];
      Removal(ks1, ks2, k);
      var rk, rv := ks2[..k] + ks2[k + 1..], v2[..k] + v2[k + 1..];
      forall i | 0 <= i < |rk|
        ensures rk[i] in m && rv[i] == m[rk[i]]
      {
        if i < k {
          assert rk[i] == ks2[i] && rv[i] == v2[i];
        } else {
          assert rk[i] == ks2[i + 1] && rv[i] == v2[i + 1];
        }
      }
      ValuesPerm(m, ks1[1..], v1[1..], rk, rv);
      assert v1 == [v1[0]] + v1[1..];
      assert v2 == v2[..k] + [v2[k]] + v2[k + 1..];
      assert multiset(v2) == multiset(v2[..k]) + multiset{v2[k]} + multiset(v2[k + 1..]);
    }
  }

  /** `.map(d => d.timeSpent).filter(t => t > 0)`. */
  function PositiveTimes(vals: seq<Stat>): seq<int> {
    if |vals| == 0 then []
    else TimeOf(vals[0]) + PositiveTimes(vals[1..])
  }

  /** Every positive time is kept, and only those. */
  lemma {:induction false} PositiveTimesCount(vals: seq<Stat>)
    ensures |PositiveTimes(vals)| <= |vals|
    ensures forall t :: t in PositiveTimes(vals) ==> t > 0
    ensures forall i :: 0 <= i < |vals| && vals[i].timeSpent > 0 ==> vals[i].timeSpent in PositiveTimes(vals)
    ensures forall t :: t in PositiveTimes(vals) ==> exists i :: 0 <= i < |vals| && vals[i].timeSpent == t
    decreases |vals|
  {
    if |vals| > 0 {
      PositiveTimesCount(vals[1..]);
      var rest := PositiveTimes(vals[1..]);
      assert PositiveTimes(vals) == TimeOf(vals[0]) + rest;
      forall t | t in PositiveTimes(vals)
        ensures exists i :: 0 <= i < |vals| && vals[i].timeSpent == t
      {
        if t !in rest {
          assert vals[0].timeSpent == t;
        } else {
          var j :| 0 <= j < |vals[1..]| && vals[1..][j].timeSpent == t;
          assert vals[j + 1].timeSpent == t;
        }
      }
    }
  }

  lemma {:induction false} PositiveTimesConcat(a: seq<Stat>, b: seq<Stat>)
    ensures PositiveTimes(a + b) == PositiveTimes(a) + PositiveTimes(b)
    decreases |a|
  {
    if |a| == 0 {
      assert a + b == b;
    } else {
      assert (a + b)[1..] == a[1..] + b;
      PositiveTimesConcat(a[1..], b);
    }
  }

  /** The time one value contributes. */
  function TimeOf(x: Stat): seq<int> {
    if x.timeSpent > 0 then [x.timeSpent] else []
  }

  /** The times from position `k` on: that value's time, then the rest. */
  lemma {:induction false} PositiveTimesFrom(b: seq<Stat>, k: int)
    requires 0 <= k < |b|
    ensures PositiveTimes(b[k..]) == TimeOf(b[k]) + PositiveTimes(b[k + 1..])
  {
    var tail := b[k..];
    assert tail[0] == b[k] && tail[1..] == b[k + 1..];
  }

  /** Splitting the values around position `k`. */
  lemma {:induction false} PositiveTimesSplit(b: seq<Stat>, k: int)
    requires 0 <= k < |b|
    ensures PositiveTimes(b) == PositiveTimes(b[..k]) + TimeOf(b[k]) + PositiveTimes(b[k + 1..])
  {
    assert b[..k] + b[k..] == b;
    PositiveTimesConcat(b[..k], b[k..]);
    PositiveTimesFrom(b, k);
  }

  /** Reordering the values reorders the times and nothing more. */
  lemma {:induction false} PositiveTimesPerm(a: seq<Stat>, b: seq<Stat>)
    requires multiset(a) == multiset(b)
    ensures multiset(PositiveTimes(a)) == multiset(PositiveTimes(b))
    decreases |a|
  {
    if |a| > 0 {
      var x := a[0];
      assert x in multiset(b);
      var k :| 0 <= k < |b| && b[k] == x;
      var rest := b[..k] + b[k + 1..];
      Removal(a, b, k);
      PositiveTimesPerm(a[1..], rest);
      PositiveTimesSplit(b, k);
      PositiveTimesConcat(b[..k], b[k + 1..]);
      assert PositiveTimes(a) == TimeOf(x) + PositiveTimes(a[1..]);
    } else {
      assert |b| == |multiset(b)| == 0;
    }
  }

  /** Taking the same element out of two permutations of each other leaves permutations. */
  lemma {:induction false} Removal<T>(a: seq<T>, b: seq<T>, k: int)
    requires multiset(a) == multiset(b) && |a| > 0 && 0 <= k < |b| && b[k] == a[0]
    ensures multiset(a[1..]) == multiset(b[..k] + b[k + 1..])
  {
    assert a == [a[0]] + a[1..];
    assert b == b[..k] + [b[k]] + b[k + 1..];
    var rest := b[..k] + b[k + 1..];
    assert multiset(a) == multiset{a[0]} + multiset(a[1..]);
    assert multiset(b) == multiset{b[k]} + multiset(rest);
    forall y
      ensures multiset(a[1..])[y] == multiset(rest)[y]
    {
      assert multiset(a)[y] == multiset(b)[y];
    }
  }

  function Sum(ts: seq<int>): int {
    if |ts| == 0 then 0 else ts[0] + Sum(ts[1..])
  }

  lemma {:induction false} SumConcat(a: seq<int>, b: seq<int>)
    ensures Sum(a + b) == Sum(a) + Sum(b)
    decreases |a|
  {
    if |a| == 0 {
      assert a + b == b;
    } else {
      assert (a + b)[1..] == a[1..] + b;
      SumConcat(a[1..], b);
    }
  }

  /** A sum does not depend on the order of its terms. */
  lemma {:induction false} SumPerm(a: seq<int>, b: seq<int>)
    requires multiset(a) == multiset(b)
    ensures Sum(a) == Sum(b)
    decreases |a|
  {
    if |a| > 0 {
      var x := a[0];
      assert x in multiset(b);
      var k :| 0 <= k < |b| && b[k] == x;
      var rest := b[..k] + b[k + 1..];
      Removal(a, b, k);
      assert b == b[..k] + [x] + b[k + 1..];
      SumPerm(a[1..], rest);
      SumConcat(b[..k] + [x], b[k + 1..]);
      SumConcat(b[..k], [x]);
      SumConcat(b[..k], b[k + 1..]);
    } else {
      assert |b| == |multiset(b)| == 0;
    }
  }

  /** `Math.min(...times)`. */
  function MinOf(ts: seq<int>): (m: int)
    requires |ts| > 0
    ensures m in ts && forall i :: 0 <= i < |ts| ==> m <= ts[i]
  {
    if |ts| == 1 then ts[0]
    else
      var r := MinOf(ts[1..]);
      assert r in ts;
      if ts[0] <= r then ts[0] else r
  }

  /** `Math.max(...times)`. */
  function MaxOf(ts: seq<int>): (m: int)
    requires |ts| > 0
    ensures m in ts && forall i :: 0 <= i < |ts| ==> ts[i] <= m
  {
    if |ts| == 1 then ts[0]
    else
      var r := MaxOf(ts[1..]);
      assert r in ts;
      if ts[0] >= r then ts[0] else r
  }

  /** One row of the weak-topics list. */
  datatype Weak = Weak(title: string, accuracy: int)

  /** The four recommendation messages. */
  datatype Rec = PracticeWrongs | SlowDown | Perfect | KeepGoing

  /** What the dashboard shows. Times are in milliseconds; the average is in seconds and the
      total in minutes. */
  datatype Report = Report(
    avgSeconds: int,
    totalMinutes: int,
    fastest: Option<int>,
    slowest: Option<int>,
    weak: seq<Weak>,
    recs: seq<Rec>)

  /** `q.title.substring(0, 50)`. */
  function Prefix(t: string, n: nat): (p: string)
    ensures p <= t && |p| <= n
    ensures |t| <= n ==> p == t
  {
    if |t| <= n then t else t[..n]
  }

  /** One weak-topic row: the first 50 characters of the title, and 100% when the analytics entry
      records a correct answer. */
  function WeakRow(q: Question, a: map<string, Stat>): Weak {
    Weak(Prefix(q.title, 50), if q.uid in a && a[q.uid].correct then 100 else 0)
  }

  /** The place of each recommendation in the order the source pushes them. */
  function Rank(r: Rec): nat {
    match r
    case PracticeWrongs => 0
    case SlowDown => 1
    case Perfect => 2
    case KeepGoing => 3
  }

  /** The recommendation list, in the source's order, with the fallback last. */
  function Recommend(wrongCount: nat, avg: int, perfect: bool): (recs: seq<Rec>)
    ensures |recs| >= 1
    ensures forall i, j :: 0 <= i < j < |recs| ==> Rank(recs[i]) < Rank(recs[j])
    ensures PracticeWrongs in recs <==> wrongCount > 3
    ensures SlowDown in recs <==> avg > 60
    ensures Perfect in recs <==> perfect
    ensures KeepGoing in recs <==> recs == [KeepGoing]
    ensures KeepGoing in recs <==> wrongCount <= 3 && avg <= 60 && !perfect
  {
    var r := (if wrongCount > 3 then [PracticeWrongs] else [])
      + (if avg > 60 then [SlowDown] else [])
      + (if perfect then [Perfect] else []);
    if |r| == 0 then [KeepGoing] else r
  }

  /** The weak-topics list: the first five cards of the wrong set, in question order. */
  function WeakList(s: State): (ws: seq<Weak>)
    ensures var w := Quiz.WrongOnes(s.questions, s.wrongSet);
      && |ws| == (if |w| < 5 then |w| else 5)
      && forall i :: 0 <= i < |ws| ==> ws[i] == WeakRow(w[i], s.analytics)
  {
    var w := Quiz.WrongOnes(s.questions, s.wrongSet);
    var top := if |w| < 5 then w else w[..5];
    seq(|top|, i requires 0 <= i < |top| => WeakRow(top[i], s.analytics))
  }

  /** Every weak-topic row names a card of the wrong set and shows 0% or 100%. */
  lemma WeakRowsWrong(s: State)
    ensures |WeakList(s)| <= 5
    ensures forall i :: 0 <= i < |WeakList(s)| ==>
      exists q :: q in s.questions && q.uid in s.wrongSet && WeakList(s)[i] == WeakRow(q, s.analytics)
    ensures forall i :: 0 <= i < |WeakList(s)| ==> WeakList(s)[i].accuracy in {0, 100}
  {
    var w := Quiz.WrongOnes(s.questions, s.wrongSet);
    Quiz.WrongOnesCount(s.questions, s.wrongSet);
    forall i | 0 <= i < |WeakList(s)|
      ensures exists q :: q in s.questions && q.uid in s.wrongSet && WeakList(s)[i] == WeakRow(q, s.analytics)
    {
      assert multiset(w)[w[i]] > 0;
      assert w[i] in multiset(s.questions);
    }
  }

  /** The aggregate times: the rounded average in seconds and total in minutes, and the fastest
      and slowest times rounded to seconds. */
  datatype Times = Times(avgSeconds: int, totalMinutes: int, fastest: Option<int>, slowest: Option<int>)

  function TimesOf(ts: seq<int>): (t: Times)
    ensures |ts| == 0 ==> t == Times(0, 0, None, None)
    ensures |ts| > 0 ==> var n := 1000 * |ts|;
      2 * n * t.avgSeconds - n <= 2 * Sum(ts) < 2 * n * t.avgSeconds + n
    ensures 2 * 60000 * t.totalMinutes - 60000 <= 2 * Sum(ts) < 2 * 60000 * t.totalMinutes + 60000
    ensures t.fastest.Some? <==> t.slowest.Some?
    ensures t.fastest.Some? ==> t.fastest.value <= t.slowest.value
    ensures |ts| > 0 ==> t.fastest == Some(Round(MinOf(ts), 1000)) && t.slowest == Some(Round(MaxOf(ts), 1000))
    ensures t.fastest.Some? ==> exists i :: 0 <= i < |ts| && t.fastest.value == Round(ts[i], 1000)
    ensures t.slowest.Some? ==> exists i :: 0 <= i < |ts| && t.slowest.value == Round(ts[i], 1000)
  {
    if |ts| == 0 then Times(0, 0, None, None)
    else
      var lo, hi := MinOf(ts), MaxOf(ts);
      RoundMonotone(lo, hi, 1000);
      Times(Round(Sum(ts), 1000 * |ts|), Round(Sum(ts), 60000), Some(Round(lo, 1000)), Some(Round(hi, 1000)))
  }

  /** `updateAnalyticsDashboard` over the values `Object.values` gave. */
  function ReportOf(vals: seq<Stat>, s: State): (r: Report)
    ensures var t := TimesOf(PositiveTimes(vals));
      && r.avgSeconds == t.avgSeconds && r.totalMinutes == t.totalMinutes
      && r.fastest == t.fastest && r.slowest == t.slowest
    ensures r.weak == WeakList(s)
    ensures r.recs == Recommend(|Quiz.WrongOnes(s.questions, s.wrongSet)|, r.avgSeconds,
      |s.answeredAll| == |s.questions| && |s.wrongSet| == 0)
  {
    var t := TimesOf(PositiveTimes(vals));
    var perfect := |s.answeredAll| == |s.questions| && |s.wrongSet| == 0;
    Report(t.avgSeconds, t.totalMinutes, t.fastest, t.slowest, WeakList(s),
      Recommend(|Quiz.WrongOnes(s.questions, s.wrongSet)|, t.avgSeconds, perfect))
  }

  /** The dashboard depends on the analytics values only, not on the order `Object.values`
      lists them in. */
  lemma ReportOrderFree(a: seq<Stat>, b: seq<Stat>, s: State)
    requires multiset(a) == multiset(b)
    ensures ReportOf(a, s) == ReportOf(b, s)
  {
    var ta, tb := PositiveTimes(a), PositiveTimes(b);
    PositiveTimesPerm(a, b);
    SumPerm(ta, tb);
    assert |ta| == |multiset(ta)| == |multiset(tb)| == |tb|;
    if |ta| > 0 {
      MinUnique(ta, tb);
      MaxUnique(ta, tb);
    }
  }

  lemma MinUnique(a: seq<int>, b: seq<int>)
    requires |a| > 0 && |b| > 0 && multiset(a) == multiset(b)
    ensures MinOf(a) == MinOf(b)
  {
    var x, y := MinOf(a), MinOf(b);
    assert x in multiset(b) && y in multiset(a);
  }

  lemma MaxUnique(a: seq<int>, b: seq<int>)
    requires |a| > 0 && |b| > 0 && multiset(a) == multiset(b)
    ensures MaxOf(a) == MaxOf(b)
  {
    var x, y := MaxOf(a), MaxOf(b);
    assert x in multiset(b) && y in multiset(a);
  }

  /** `updateAnalyticsDashboard` itself: list the values, then aggregate. */
  method Dashboard(s: State) returns (r: Report)
    ensures |r.recs| >= 1 && |r.weak| <= 5
    ensures r.fastest.Some? <==> r.slowest.Some?
    ensures r.fastest.Some? ==> r.fastest.value <= r.slowest.value
    ensures exists ks, vals :: Listing(s.analytics, ks, vals) && r == ReportOf(vals, s)
  {
    var vals := ObjectValues(s.analytics);
    r := ReportOf(vals, s);
    ghost var ks :| Listing(s.analytics, ks, vals);
  }

  /** Whatever order `Object.values` lists the keys in, the dashboard shows the same report, so
      the report is a function of the engine state. */
  lemma DashboardDetermined(s: State, ks1: seq<string>, v1: seq<Stat>, ks2: seq<string>, v2: seq<Stat>)
    requires Listing(s.analytics, ks1, v1) && Listing(s.analytics, ks2, v2)
    ensures ReportOf(v1, s) == ReportOf(v2, s)
  {
    ListingsAgree(s.analytics, ks1, v1, ks2, v2);
    ReportOrderFree(v1, v2, s);
  }
}
