/**
 * GET /api/weekly-report: the current Sunday-to-Saturday week and the one before it, the
 * averages of each, their differences, the mood day counts, the three most frequent emotions of
 * the week and the insight messages chosen from thresholds.
 */
module WeeklyReport {
  import opened Wrappers
  import opened Http
  import opened Clock
  import opened Json
  import opened DailyLogs
  import opened CheckinStats

  // ---------------------------------------------------------------------------
  // The week windows
  // ---------------------------------------------------------------------------

  /** An inclusive range of instants. */
  datatype Window = Window(start: int, end: int)

  predicate InWindow(t: int, w: Window) {
    w.start <= t <= w.end
  }

  /** Sunday 00:00 of the week holding `now`, to Saturday 23:59:59.999. */
  function CurrentWeek(now: int): (w: Window)
    ensures w.start % DAY_MS == 0 && DayOfWeek(w.start) == 0
    ensures InWindow(now, w) && w.end == w.start + 7 * DAY_MS - 1
  {
    var start := StartOfDay(now) - DayOfWeek(now) * DAY_MS;
    SundayStart(now);
    Window(start, start + 6 * DAY_MS + (DAY_MS - 1))
  }

  lemma SundayStart(now: int)
    ensures var start := StartOfDay(now) - DayOfWeek(now) * DAY_MS;
      DayNumber(start) == DayNumber(now) - DayOfWeek(now) && DayOfWeek(start) == 0
  {
    var d := DayNumber(now);
    var k := DayOfWeek(now);
    var start := StartOfDay(now) - k * DAY_MS;
    assert start == (d - k) * DAY_MS;
    assert DayNumber(start) == d - k;
    var x := d + 4;
    assert x == 7 * (x / 7) + x % 7;
    assert d - k + 4 == 7 * (x / 7);
  }

  /** The same window a week earlier. */
  function PreviousWeek(w: Window): (p: Window)
    ensures p.end - p.start == w.end - w.start
    ensures p.start == w.start - 7 * DAY_MS
  {
    Window(w.start - 7 * DAY_MS, w.end - 7 * DAY_MS)
  }

  /**
   * The current window holds exactly the instants of the seven calendar days from its Sunday, and
   * the previous window is the week that ends right before it, also from a Sunday.
   */
  lemma WeekWindows(now: int, t: int)
    ensures var w := CurrentWeek(now);
      && (InWindow(t, w) <==> DayNumber(w.start) <= DayNumber(t) < DayNumber(w.start) + 7)
      && PreviousWeek(w).end + 1 == w.start
      && DayOfWeek(PreviousWeek(w).start) == 0
  {
    var w := CurrentWeek(now);
    var s := DayNumber(w.start);
    assert w.start == s * DAY_MS;
    var p := PreviousWeek(w);
    assert p.start == (s - 7) * DAY_MS;
    assert DayNumber(p.start) == s - 7;
    assert (s - 7 + 4) % 7 == (s + 4) % 7;
  }

  /** The logs the store returns for a window, in the order it lists them. */
  function LogsIn(logs: seq<DailyLog>, w: Window): (r: seq<DailyLog>)
    ensures forall l :: l in r <==> l in logs && InWindow(l.createdAt, w)
  {
    if logs == [] then []
    else LogsIn(logs[..|logs| - 1], w) + (if InWindow(logs[|logs| - 1].createdAt, w) then [logs[|logs| - 1]] else [])
  }

  // ---------------------------------------------------------------------------
  // Averages and trends
  // ---------------------------------------------------------------------------

  datatype Stats = Stats(mood: real, sleep: real, energy: real, medication: int)

  /** `calculateAverages` */
  function CalculateAverages(logs: seq<DailyLog>): (r: Stats)
    ensures |logs| == 0 ==> r == Stats(0.0, 0.0, 0.0, 0)
    ensures Average(Moods(logs)) - 0.05 < r.mood <= Average(Moods(logs)) + 0.05
    ensures Average(Sleeps(logs)) - 0.05 < r.sleep <= Average(Sleeps(logs)) + 0.05
    ensures Average(Energies(logs)) - 0.05 < r.energy <= Average(Energies(logs)) + 0.05
    ensures Adherence(logs) - 0.5 < r.medication as real <= Adherence(logs) + 0.5
    ensures IsTenths(r.mood) && IsTenths(r.sleep) && IsTenths(r.energy)
  {
    if |logs| == 0 then Stats(0.0, 0.0, 0.0, 0)
    else
      Stats(RoundTenths(Average(Moods(logs))), RoundTenths(Average(Sleeps(logs))),
            RoundTenths(Average(Energies(logs))), Round(Adherence(logs)))
  }

  /** Adherence is a whole percentage in 0..100. */
  lemma MedicationPercent(logs: seq<DailyLog>)
    ensures 0 <= CalculateAverages(logs).medication <= 100
  {
    RoundedAdherence(logs);
  }

  /** The difference of each statistic, this week minus last week. */
  function Trends(current: Stats, previous: Stats): (r: Stats)
    ensures previous == Stats(0.0, 0.0, 0.0, 0) ==> r == current
    ensures current == previous ==> r == Stats(0.0, 0.0, 0.0, 0)
  {
    Stats(current.mood - previous.mood, current.sleep - previous.sleep,
          current.energy - previous.energy, current.medication - previous.medication)
  }

  // ---------------------------------------------------------------------------
  // Top emotions
  // ---------------------------------------------------------------------------

  /** The emotions one log contributes: its stored list, or nothing when absent or not valid JSON. */
  function EmotionsOf(log: DailyLog): seq<string> {
    match log.lists.emotionCheckboxes
    case None => []
    case Some(text) =>
      if text == "" then []
      else match Parse(text)
        case None => []
        case Some(emotions) => emotions
  }

  /** `allEmotions` once the `forEach` has run. */
  function AllEmotions(logs: seq<DailyLog>): seq<string> {
    if logs == [] then [] else AllEmotions(logs[..|logs| - 1]) + EmotionsOf(logs[|logs| - 1])
  }

  /** A log whose emotion list does not parse adds nothing. */
  lemma InvalidEmotionsSkipped(logs: seq<DailyLog>, log: DailyLog)
    requires log.lists.emotionCheckboxes.Some? && Parse(log.lists.emotionCheckboxes.value).None?
    ensures AllEmotions(logs + [log]) == AllEmotions(logs)
  {
    assert (logs + [log])[..|logs|] == logs;
    assert AllEmotions(logs) + [] == AllEmotions(logs);
  }

  /** The `forEach` that pushes every log's emotions into `allEmotions`. */
  method CollectEmotions(logs: seq<DailyLog>) returns (all: seq<string>)
    ensures all == AllEmotions(logs)
  {
    all := [];
    for i := 0 to |logs|
      invariant all == AllEmotions(logs[..i])
    {
      assert logs[..i + 1][..i] == logs[..i];
      all := all + EmotionsOf(logs[i]);
    }
    assert logs[..|logs|] == logs;
  }

  /** The distinct emotions in order of first appearance: the key order of `emotionCounts`. */
  function FirstAppearances(xs: seq<string>): (r: seq<string>)
    ensures forall e :: e in r <==> e in xs
  {
    if xs == [] then []
    else
      var prev := FirstAppearances(xs[..|xs| - 1]);
      if xs[|xs| - 1] in prev then prev else prev + [xs[|xs| - 1]]
  }

  predicate Distinct(s: seq<string>) {
    forall i, j :: 0 <= i < j < |s| ==> s[i] != s[j]
  }

  lemma {:induction false} FirstAppearancesDistinct(xs: seq<string>)
    ensures Distinct(FirstAppearances(xs))
  {
    if xs != [] {
      FirstAppearancesDistinct(xs[..|xs| - 1]);
    }
  }

  /** The values of `emotionCounts`: how often each emotion occurs. */
  function Tally(xs: seq<string>): (r: map<string, nat>)
    ensures forall e :: e in r <==> e in xs
    ensures forall e :: e in r ==> r[e] == multiset(xs)[e] && r[e] > 0
  {
    map e | e in xs :: multiset(xs)[e]
  }

  lemma TallyAppend(xs: seq<string>, x: string)
    ensures Tally(xs + [x]) == Tally(xs)[x := (if x in Tally(xs) then Tally(xs)[x] else 0) + 1]
  {
    var l := Tally(xs + [x]);
    var r := Tally(xs)[x := (if x in Tally(xs) then Tally(xs)[x] else 0) + 1];
    assert multiset(xs + [x]) == multiset(xs) + multiset{x};
    assert l.Keys == r.Keys;
    forall e | e in l
      ensures l[e] == r[e]
    {
    }
  }

  /** The `reduce` building `emotionCounts`: keys in insertion order, and their counts. */
  method CountEmotions(all: seq<string>) returns (keys: seq<string>, counts: map<string, nat>)
    ensures keys == FirstAppearances(all) && counts == Tally(all)
  {
    keys := [];
    counts := map[];
    TallyEmpty();
    for i := 0 to |all|
      invariant keys == FirstAppearances(all[..i]) && counts == Tally(all[..i])
    {
      var e := all[i];
      ghost var seen := all[..i];
      assert all[..i + 1] == seen + [e];
      TallyAppend(seen, e);
      if e !in counts {
        keys := keys + [e];
        counts := counts[e := 1];
      } else {
        counts := counts[e := counts[e] + 1];
      }
      assert counts == Tally(seen + [e]);
    }
    assert all[..|all|] == all;
  }

  lemma TallyEmpty()
    ensures Tally([]) == map[]
  {
  }

  function Count<T>(counts: map<T, nat>, e: T): nat {
    if e in counts then counts[e] else 0
  }

  /** Place `e` after every entry counted at least as often. */
  function Insert<T>(s: seq<T>, e: T, counts: map<T, nat>): (r: seq<T>)
    ensures |r| == |s| + 1
  {
    if s == [] then [e]
    else if Count(counts, s[0]) < Count(counts, e) then [e] + s
    else [s[0]] + Insert(s[1..], e, counts)
  }

  /** `Object.entries(emotionCounts).sort((a, b) => b[1] - a[1])`, a stable sort by count descending. */
  function SortByCount<T>(keys: seq<T>, counts: map<T, nat>): (r: seq<T>)
    ensures |r| == |keys|
  {
    if keys == [] then []
    else Insert(SortByCount(keys[..|keys| - 1], counts), keys[|keys| - 1], counts)
  }

  predicate Descending<T>(s: seq<T>, counts: map<T, nat>) {
    forall i, j :: 0 <= i < j < |s| ==> Count(counts, s[i]) >= Count(counts, s[j])
  }

  /** The entries with count `n`, in order. */
  function WithCount<T>(s: seq<T>, counts: map<T, nat>, n: nat): seq<T> {
    if s == [] then []
    else (if Count(counts, s[0]) == n then [s[0]] else []) + WithCount(s[1..], counts, n)
  }

  lemma {:induction false} InsertPermutes<T>(s: seq<T>, e: T, counts: map<T, nat>)
    ensures multiset(Insert(s, e, counts)) == multiset(s) + multiset{e}
  {
    if s == [] || Count(counts, s[0]) < Count(counts, e) {
      assert Insert(s, e, counts) == [e] + s;
      MultisetCons(e, s);
    } else {
      var t := Insert(s[1..], e, counts);
      assert Insert(s, e, counts) == [s[0]] + t;
      InsertPermutes(s[1..], e, counts);
      MultisetCons(s[0], t);
      assert [s[0]] + s[1..] == s;
      MultisetCons(s[0], s[1..]);
    }
  }

  lemma MultisetCons<T>(x: T, t: seq<T>)
    ensures multiset([x] + t) == multiset{x} + multiset(t)
  {
  }

  lemma {:induction false} InsertDescending<T>(s: seq<T>, e: T, counts: map<T, nat>)
    requires Descending(s, counts)
    ensures Descending(Insert(s, e, counts), counts)
  {
    if s == [] {
    } else if Count(counts, s[0]) < Count(counts, e) {
      forall j | 0 <= j < |s|
        ensures Count(counts, e) >= Count(counts, s[j])
      {
        assert j == 0 || Count(counts, s[0]) >= Count(counts, s[j]);
      }
      ConsDescending(e, s, counts);
    } else {
      var t := Insert(s[1..], e, counts);
      DescendingTail(s, counts);
      InsertDescending(s[1..], e, counts);
      InsertPermutes(s[1..], e, counts);
      forall j | 0 <= j < |t|
        ensures Count(counts, s[0]) >= Count(counts, t[j])
      {
        assert t[j] in multiset(t);
        HeadBound(s, e, counts, t[j]);
      }
      ConsDescending(s[0], t, counts);
    }
  }

  /** A descending run stays descending with an entry in front counted at least as often as all. */
  lemma ConsDescending<T>(x: T, t: seq<T>, counts: map<T, nat>)
    requires Descending(t, counts) && forall j :: 0 <= j < |t| ==> Count(counts, x) >= Count(counts, t[j])
    ensures Descending([x] + t, counts)
  {
    var r := [x] + t;
    forall i, j | 0 <= i < j < |r|
      ensures Count(counts, r[i]) >= Count(counts, r[j])
    {
      assert r[j] == t[j - 1];
      if i > 0 {
        assert r[i] == t[i - 1];
      }
    }
  }

  /** The head of a descending run is counted at least as often as the rest and as `e` below it. */
  lemma HeadBound<T>(s: seq<T>, e: T, counts: map<T, nat>, x: T)
    requires s != [] && Descending(s, counts) && Count(counts, s[0]) >= Count(counts, e)
    requires x in multiset(s[1..]) + multiset{e}
    ensures Count(counts, s[0]) >= Count(counts, x)
  {
    if x != e {
      assert x in s[1..];
      var k :| 0 <= k < |s[1..]| && s[1..][k] == x;
      assert s[k + 1] == x;
    }
  }

  lemma {:induction false} WithCountAppend<T>(s: seq<T>, e: T, counts: map<T, nat>, n: nat)
    ensures WithCount(s + [e], counts, n) == WithCount(s, counts, n) + (if Count(counts, e) == n then [e] else [])
  {
    var last := if Count(counts, e) == n then [e] else [];
    if s == [] {
      assert s + [e] == [e] + [];
      WithCountCons(e, [], counts, n);
      assert WithCount(s + [e], counts, n) == last + [];
    } else {
      var head := if Count(counts, s[0]) == n then [s[0]] else [];
      assert s + [e] == [s[0]] + (s[1..] + [e]);
      WithCountCons(s[0], s[1..] + [e], counts, n);
      WithCountAppend(s[1..], e, counts, n);
      assert [s[0]] + s[1..] == s;
      WithCountCons(s[0], s[1..], counts, n);
      assert head + (WithCount(s[1..], counts, n) + last) == (head + WithCount(s[1..], counts, n)) + last;
    }
  }

  lemma {:induction false} WithCountNone<T>(s: seq<T>, counts: map<T, nat>, n: nat)
    requires forall i :: 0 <= i < |s| ==> Count(counts, s[i]) < n
    ensures WithCount(s, counts, n) == []
  {
    if s != [] {
      WithCountNone(s[1..], counts, n);
    }
  }

  lemma {:induction false} InsertStable<T>(s: seq<T>, e: T, counts: map<T, nat>, n: nat)
    requires Descending(s, counts)
    ensures WithCount(Insert(s, e, counts), counts, n) == WithCount(s, counts, n) + (if Count(counts, e) == n then [e] else [])
  {
    var last := if Count(counts, e) == n then [e] else [];
    if s == [] {
      assert Insert(s, e, counts) == [e] + [];
      WithCountCons(e, [], counts, n);
      assert WithCount(s, counts, n) + last == last + [];
    } else if Count(counts, s[0]) < Count(counts, e) {
      assert Insert(s, e, counts) == [e] + s;
      InsertFront(s, e, counts, n);
    } else {
      var t := Insert(s[1..], e, counts);
      var head := if Count(counts, s[0]) == n then [s[0]] else [];
      assert Insert(s, e, counts) == [s[0]] + t;
      DescendingTail(s, counts);
      InsertStable(s[1..], e, counts, n);
      WithCountCons(s[0], t, counts, n);
      assert [s[0]] + s[1..] == s;
      WithCountCons(s[0], s[1..], counts, n);
      assert head + (WithCount(s[1..], counts, n) + last) == (head + WithCount(s[1..], counts, n)) + last;
    }
  }

  lemma WithCountCons<T>(x: T, t: seq<T>, counts: map<T, nat>, n: nat)
    ensures WithCount([x] + t, counts, n) == (if Count(counts, x) == n then [x] else []) + WithCount(t, counts, n)
  {
    assert ([x] + t)[1..] == t;
  }

  lemma DescendingTail<T>(s: seq<T>, counts: map<T, nat>)
    requires s != [] && Descending(s, counts)
    ensures Descending(s[1..], counts)
  {
    forall i, j | 0 <= i < j < |s[1..]|
      ensures Count(counts, s[1..][i]) >= Count(counts, s[1..][j])
    {
      assert s[1..][i] == s[i + 1] && s[1..][j] == s[j + 1];
    }
  }

  /** An entry counted more often than the head of a descending run goes in front of it. */
  lemma InsertFront<T>(s: seq<T>, e: T, counts: map<T, nat>, n: nat)
    requires s != [] && Descending(s, counts) && Count(counts, s[0]) < Count(counts, e)
    ensures WithCount([e] + s, counts, n) == WithCount(s, counts, n) + (if Count(counts, e) == n then [e] else [])
  {
    assert ([e] + s)[1..] == s;
    if Count(counts, e) == n {
      forall i | 0 <= i < |s|
        ensures Count(counts, s[i]) < n
      {
        assert i == 0 || Count(counts, s[0]) >= Count(counts, s[i]);
      }
      WithCountNone(s, counts, n);
    }
  }

  /** The sort is a permutation of the keys, orders them by count, and is stable. */
  lemma SortByCountSpec<T>(keys: seq<T>, counts: map<T, nat>)
    ensures multiset(SortByCount(keys, counts)) == multiset(keys)
    ensures Descending(SortByCount(keys, counts), counts)
    ensures forall n: nat :: WithCount(SortByCount(keys, counts), counts, n) == WithCount(keys, counts, n)
  {
    SortPermutes(keys, counts);
    SortDescending(keys, counts);
    forall n: nat
      ensures WithCount(SortByCount(keys, counts), counts, n) == WithCount(keys, counts, n)
    {
      SortStable(keys, counts, n);
    }
  }

  lemma {:induction false} SortPermutes<T>(keys: seq<T>, counts: map<T, nat>)
    ensures multiset(SortByCount(keys, counts)) == multiset(keys)
  {
    if keys != [] {
      var p := keys[..|keys| - 1];
      SortPermutes(p, counts);
      InsertPermutes(SortByCount(p, counts), keys[|keys| - 1], counts);
      assert keys == p + [keys[|keys| - 1]];
    }
  }

  lemma {:induction false} SortDescending<T>(keys: seq<T>, counts: map<T, nat>)
    ensures Descending(SortByCount(keys, counts), counts)
  {
    if keys != [] {
      var p := keys[..|keys| - 1];
      SortDescending(p, counts);
      InsertDescending(SortByCount(p, counts), keys[|keys| - 1], counts);
    }
  }

  lemma {:induction false} SortStable<T>(keys: seq<T>, counts: map<T, nat>, n: nat)
    ensures WithCount(SortByCount(keys, counts), counts, n) == WithCount(keys, counts, n)
  {
    if keys != [] {
      var p := keys[..|keys| - 1];
      var e := keys[|keys| - 1];
      SortStable(p, counts, n);
      SortDescending(p, counts);
      InsertStable(SortByCount(p, counts), e, counts, n);
      WithCountAppend(p, e, counts, n);
      assert keys == p + [e];
    }
  }

  const TOP_EMOTIONS := 3

  /** The week's distinct emotions, most frequent first, ties in order of first appearance. */
  function Ranked(logs: seq<DailyLog>): seq<string> {
    var all := AllEmotions(logs);
    SortByCount(FirstAppearances(all), Tally(all))
  }

  /** `topEmotions`: the first three of the sorted entries. */
  function TopEmotionsOf(logs: seq<DailyLog>): (r: seq<string>)
    ensures |r| <= TOP_EMOTIONS
  {
    var ranked := Ranked(logs);
    if |ranked| <= TOP_EMOTIONS then ranked else ranked[..TOP_EMOTIONS]
  }

  /** The counting loops, then the sort and the slice. */
  method TopEmotions(logs: seq<DailyLog>) returns (top: seq<string>)
    ensures top == TopEmotionsOf(logs)
  {
    var all := CollectEmotions(logs);
    var keys, counts := CountEmotions(all);
    var sorted := SortByCount(keys, counts);
    top := if |sorted| <= TOP_EMOTIONS then sorted else sorted[..TOP_EMOTIONS];
  }

  /** The ranking holds each emotion of the week once, by non-increasing number of occurrences. */
  lemma RankedSpec(logs: seq<DailyLog>)
    ensures var all := AllEmotions(logs); var ranked := Ranked(logs);
      && Distinct(ranked)
      && (forall e :: e in ranked <==> e in all)
      && (forall i, j :: 0 <= i < j < |ranked| ==> multiset(all)[ranked[i]] >= multiset(all)[ranked[j]])
  {
    var all := AllEmotions(logs);
    var keys := FirstAppearances(all);
    var counts := Tally(all);
    var ranked := Ranked(logs);
    SortPermutes(keys, counts);
    SortDescending(keys, counts);
    FirstAppearancesDistinct(all);
    DistinctPermutation(keys, ranked);
    forall e
      ensures e in ranked <==> e in all
    {
      assert e in ranked <==> e in multiset(keys);
    }
    forall i, j | 0 <= i < j < |ranked|
      ensures multiset(all)[ranked[i]] >= multiset(all)[ranked[j]]
    {
      assert ranked[i] in multiset(keys) && ranked[j] in multiset(keys);
      assert Count(counts, ranked[i]) >= Count(counts, ranked[j]);
    }
  }

  /**
   * The top emotions are distinct emotions of the week, most frequent first; fewer than three
   * only when the week has fewer distinct emotions.
   */
  lemma TopEmotionsSpec(logs: seq<DailyLog>)
    ensures var all := AllEmotions(logs); var r := TopEmotionsOf(logs);
      && Distinct(r)
      && (forall e :: e in r ==> e in all)
      && (forall i, j :: 0 <= i < j < |r| ==> multiset(all)[r[i]] >= multiset(all)[r[j]])
      && (|r| < TOP_EMOTIONS ==> forall e :: e in all ==> e in r)
  {
    RankedSpec(logs);
    var all := AllEmotions(logs);
    var ranked := Ranked(logs);
    var r := TopEmotionsOf(logs);
    if |ranked| <= TOP_EMOTIONS {
      assert r == ranked;
    } else {
      assert r == ranked[..TOP_EMOTIONS] && |r| == TOP_EMOTIONS;
      PrefixKeeps(ranked, TOP_EMOTIONS, all);
    }
  }

  /** A prefix of a ranking is again distinct, drawn from the same emotions, in the same order. */
  lemma PrefixKeeps(ranked: seq<string>, k: nat, all: seq<string>)
    requires k <= |ranked| && Distinct(ranked) && (forall e :: e in ranked ==> e in all)
    requires forall i, j :: 0 <= i < j < |ranked| ==> multiset(all)[ranked[i]] >= multiset(all)[ranked[j]]
    ensures var r := ranked[..k];
      && Distinct(r)
      && (forall e :: e in r ==> e in all)
      && (forall i, j :: 0 <= i < j < |r| ==> multiset(all)[r[i]] >= multiset(all)[r[j]])
  {
    var r := ranked[..k];
    forall e | e in r
      ensures e in all
    {
      var i :| 0 <= i < |r| && r[i] == e;
      assert ranked[i] == e;
    }
    forall i, j | 0 <= i < j < |r|
      ensures multiset(all)[r[i]] >= multiset(all)[r[j]] && r[i] != r[j]
    {
      assert r[i] == ranked[i] && r[j] == ranked[j];
    }
  }

  /** No emotion left out of the top three occurs more often than one kept. */
  lemma TopEmotionsDominate(logs: seq<DailyLog>, e: string, x: string)
    requires e in AllEmotions(logs) && e !in TopEmotionsOf(logs) && x in TopEmotionsOf(logs)
    ensures multiset(AllEmotions(logs))[e] <= multiset(AllEmotions(logs))[x]
  {
    RankedSpec(logs);
    var ranked := Ranked(logs);
    var r := TopEmotionsOf(logs);
    assert r == ranked[..|r|];
    var a :| 0 <= a < |ranked| && ranked[a] == e;
    var b :| 0 <= b < |r| && r[b] == x;
    assert ranked[b] == x;
  }

  lemma DistinctPermutation(a: seq<string>, b: seq<string>)
    requires Distinct(a) && multiset(a) == multiset(b)
    ensures Distinct(b)
  {
    forall i, j | 0 <= i < j < |b|
      ensures b[i] != b[j]
    {
      if b[i] == b[j] {
        assert multiset(b)[b[i]] >= 2 by {
          MultisetTwo(b, i, j);
        }
        DistinctOnce(a, b[i]);
      }
    }
  }

  lemma MultisetTwo(s: seq<string>, i: nat, j: nat)
    requires i < j < |s| && s[i] == s[j]
    ensures multiset(s)[s[i]] >= 2
  {
    var x := s[i];
    assert s == s[..i] + [x] + s[i + 1..j] + [x] + s[j + 1..];
  }

  lemma {:induction false} DistinctOnce(a: seq<string>, x: string)
    requires Distinct(a)
    ensures multiset(a)[x] <= 1
  {
    if a != [] {
      var p := a[..|a| - 1];
      assert a == p + [a[|a| - 1]];
      DistinctOnce(p, x);
      if a[|a| - 1] == x {
        assert x !in p;
      }
    }
  }

  /** Emotions tied on count keep the order in which they first appeared in the week. */
  lemma TopEmotionsTies(logs: seq<DailyLog>, n: nat)
    ensures var all := AllEmotions(logs);
      WithCount(Ranked(logs), Tally(all), n) == WithCount(FirstAppearances(all), Tally(all), n)
  {
    var all := AllEmotions(logs);
    SortStable(FirstAppearances(all), Tally(all), n);
  }

  // ---------------------------------------------------------------------------
  // Insights
  // ---------------------------------------------------------------------------

  datatype Insight = MoodUp | MoodDown | SleepUp | SleepRoutine | MedicationUp | MedicationReminders
                   | CheckInsGreat | CheckInsMore

  /** The text the report carries for each insight. */
  function Message(i: Insight): string {
    match i
    case MoodUp => "\U{1F31F} Your mood has improved compared to last week! Keep up the great work."
    case MoodDown => "\U{1F499} Your mood was lower this week. Remember, it's okay to have tough weeks - focus on small self-care activities."
    case SleepUp => "\U{1F634} Your sleep quality has improved! Good sleep is crucial for mental health."
    case SleepRoutine => "\U{1F319} Consider establishing a consistent bedtime routine to improve your sleep quality."
    case MedicationUp => "\U{1F48A} Great improvement in medication adherence! Consistency is key."
    case MedicationReminders => "\U{23F0} Try setting daily reminders to help maintain consistent medication routine."
    case CheckInsGreat => "\U{2705} Excellent job staying consistent with your daily check-ins!"
    case CheckInsMore => "\U{1F4F1} Try to complete more daily check-ins next week - they help track your progress."
  }

  function MoodInsight(trends: Stats): seq<Insight> {
    if trends.mood > 0.5 then [MoodUp] else if trends.mood < -0.5 then [MoodDown] else []
  }

  function SleepInsight(trends: Stats, current: Stats): seq<Insight> {
    if trends.sleep > 0.5 then [SleepUp] else if current.sleep < 3.0 then [SleepRoutine] else []
  }

  function MedicationInsight(trends: Stats, current: Stats): seq<Insight> {
    if trends.medication > 10 then [MedicationUp] else if current.medication < 70 then [MedicationReminders] else []
  }

  function CheckInInsight(checkIns: nat): seq<Insight> {
    if checkIns >= 5 then [CheckInsGreat] else if checkIns < 3 then [CheckInsMore] else []
  }

  /** At most one insight per topic, in the order mood, sleep, medication, check-ins. */
  function InsightsOf(trends: Stats, current: Stats, checkIns: nat): seq<Insight> {
    MoodInsight(trends) + SleepInsight(trends, current) + MedicationInsight(trends, current) + CheckInInsight(checkIns)
  }

  /** `generateInsights`, pushing one insight per topic whose threshold is met. */
  method GenerateInsights(trends: Stats, current: Stats, checkIns: nat) returns (insights: seq<Insight>)
    ensures insights == InsightsOf(trends, current, checkIns)
  {
    insights := [];
    if trends.mood > 0.5 {
      insights := insights + [MoodUp];
    } else if trends.mood < -0.5 {
      insights := insights + [MoodDown];
    }
    assert insights == MoodInsight(trends);
    ghost var upToSleep := MoodInsight(trends) + SleepInsight(trends, current);
    if trends.sleep > 0.5 {
      insights := insights + [SleepUp];
    } else if current.sleep < 3.0 {
      insights := insights + [SleepRoutine];
    }
    assert insights == upToSleep;
    ghost var upToMedication := upToSleep + MedicationInsight(trends, current);
    if trends.medication > 10 {
      insights := insights + [MedicationUp];
    } else if current.medication < 70 {
      insights := insights + [MedicationReminders];
    }
    assert insights == upToMedication;
    if checkIns >= 5 {
      insights := insights + [CheckInsGreat];
    } else if checkIns < 3 {
      insights := insights + [CheckInsMore];
    }
    assert insights == upToMedication + CheckInInsight(checkIns);
  }

  /** Each insight appears exactly when its threshold is met, and there are at most four. */
  lemma InsightsSpec(trends: Stats, current: Stats, checkIns: nat)
    ensures var r := InsightsOf(trends, current, checkIns);
      && |r| <= 4
      && (MoodUp in r <==> trends.mood > 0.5)
      && (MoodDown in r <==> trends.mood < -0.5)
      && (SleepUp in r <==> trends.sleep > 0.5)
      && (SleepRoutine in r <==> trends.sleep <= 0.5 && current.sleep < 3.0)
      && (MedicationUp in r <==> trends.medication > 10)
      && (MedicationReminders in r <==> trends.medication <= 10 && current.medication < 70)
      && (CheckInsGreat in r <==> checkIns >= 5)
      && (CheckInsMore in r <==> checkIns < 3)
  {
    var m := MoodInsight(trends);
    var sl := SleepInsight(trends, current);
    var md := MedicationInsight(trends, current);
    var c := CheckInInsight(checkIns);
    forall x
      ensures x in m + sl + md + c <==> x in m || x in sl || x in md || x in c
    {
    }
  }

  function Messages(insights: seq<Insight>): (r: seq<string>)
    ensures |r| == |insights| && forall i :: 0 <= i < |r| ==> r[i] == Message(insights[i])
  {
    seq(|insights|, i requires 0 <= i < |insights| => Message(insights[i]))
  }

  // ---------------------------------------------------------------------------
  // The handler
  // ---------------------------------------------------------------------------

  const RECOMMENDATIONS := [
    "Continue daily check-ins to track your mental health journey",
    "Focus on maintaining good sleep hygiene",
    "Practice mindfulness or deep breathing when feeling stressed",
    "Stay connected with supportive friends and family",
    "Remember: progress isn't always linear - every small step counts"]

  const TOTAL_DAYS := 7

  /** The report body; the period is given as the calendar days of the window's ends. */
  datatype Report = Report(
    periodStart: int, periodEnd: int,
    checkInsCompleted: nat, goodDays: nat, challengingDays: nat, totalDays: nat,
    currentWeekStats: Stats, previousWeekStats: Stats, trends: Stats,
    topEmotions: seq<string>, insights: seq<string>, recommendations: seq<string>)

  /** The handler, given the caller's logs newest first. */
  function Get(userId: Option<string>, now: int, logs: seq<DailyLog>): (r: Response<Report>)
    ensures !TruthyString(userId) ==> r == Error(401, "Unauthorized")
    ensures TruthyString(userId) ==> r.Ok?
    ensures TruthyString(userId) ==>
      var week := CurrentWeek(now); var cur := LogsIn(logs, week); var prev := LogsIn(logs, PreviousWeek(week));
      && r.body.periodStart == DayNumber(week.start) && r.body.periodEnd == DayNumber(week.end)
      && r.body.checkInsCompleted == |cur|
      && r.body.goodDays == GoodDays(cur) && r.body.challengingDays == ChallengingDays(cur)
      && r.body.totalDays == TOTAL_DAYS
      && r.body.currentWeekStats == CalculateAverages(cur)
      && r.body.previousWeekStats == CalculateAverages(prev)
      && r.body.trends == Trends(CalculateAverages(cur), CalculateAverages(prev))
      && r.body.topEmotions == TopEmotionsOf(cur)
      && r.body.insights == Messages(InsightsOf(r.body.trends, r.body.currentWeekStats, |cur|))
      && r.body.recommendations == RECOMMENDATIONS
  {
    if !TruthyString(userId) then Unauthorized()
    else
      var week := CurrentWeek(now);
      var current := LogsIn(logs, week);
      var previous := LogsIn(logs, PreviousWeek(week));
      var currentStats := CalculateAverages(current);
      var previousStats := CalculateAverages(previous);
      var trends := Trends(currentStats, previousStats);
      Ok(Report(DayNumber(week.start), DayNumber(week.end),
                |current|, GoodDays(current), ChallengingDays(current), TOTAL_DAYS,
                currentStats, previousStats, trends, TopEmotionsOf(current),
                Messages(InsightsOf(trends, currentStats, |current|)), RECOMMENDATIONS))
  }

  /**
   * The report covers seven days from a Sunday; the trends are this week's statistics minus last
   * week's; good and challenging days never outnumber the check-ins; at most four insights.
   */
  lemma ReportSummary(userId: Option<string>, now: int, logs: seq<DailyLog>)
    requires TruthyString(userId)
    ensures var r := Get(userId, now, logs).body;
      && r.totalDays == 7 && r.periodEnd == r.periodStart + 6
      && DayOfWeek(r.periodStart * DAY_MS) == 0
      && r.trends.mood == r.currentWeekStats.mood - r.previousWeekStats.mood
      && r.trends.sleep == r.currentWeekStats.sleep - r.previousWeekStats.sleep
      && r.trends.energy == r.currentWeekStats.energy - r.previousWeekStats.energy
      && r.trends.medication == r.currentWeekStats.medication - r.previousWeekStats.medication
      && r.goodDays + r.challengingDays <= r.checkInsCompleted
      && |r.insights| <= 4 && |r.topEmotions| <= 3
      && 0 <= r.currentWeekStats.medication <= 100
  {
    var week := CurrentWeek(now);
    var current := LogsIn(logs, week);
    DayCountsDisjoint(current);
    InsightsSpec(Trends(CalculateAverages(current), CalculateAverages(LogsIn(logs, PreviousWeek(week)))),
                 CalculateAverages(current), |current|);
    MedicationPercent(current);
    var s := DayNumber(week.start);
    assert week.start == s * DAY_MS;
    assert week.end == s * DAY_MS + 6 * DAY_MS + (DAY_MS - 1);
    assert DayNumber(week.end) == s + 6;
  }
}
