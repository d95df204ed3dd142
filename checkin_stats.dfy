/**
 * The aggregates the weekly-report, progress and dashboard routes compute over a run of daily
 * logs: rating averages with a missing rating counted as 0, medication adherence over the logs
 * that record it, day counts by mood, and `Math.round` to integers and to tenths. Averages are
 * exact reals.
 */
module CheckinStats {
  import opened Wrappers
  import opened Clock
  import opened DailyLogs

  /** `rating || 0` */
  function Rating(r: Option<int>): int {
    r.GetOr(0)
  }

  function Moods(logs: seq<DailyLog>): (r: seq<int>)
    ensures |r| == |logs| && forall i :: 0 <= i < |r| ==> r[i] == Rating(logs[i].moodRating)
  {
    seq(|logs|, i requires 0 <= i < |logs| => Rating(logs[i].moodRating))
  }

  function Sleeps(logs: seq<DailyLog>): (r: seq<int>)
    ensures |r| == |logs| && forall i :: 0 <= i < |r| ==> r[i] == Rating(logs[i].sleepQuality)
  {
    seq(|logs|, i requires 0 <= i < |logs| => Rating(logs[i].sleepQuality))
  }

  function Energies(logs: seq<DailyLog>): (r: seq<int>)
    ensures |r| == |logs| && forall i :: 0 <= i < |r| ==> r[i] == Rating(logs[i].energyLevel)
  {
    seq(|logs|, i requires 0 <= i < |logs| => Rating(logs[i].energyLevel))
  }

  function Sum(xs: seq<int>): int {
    if xs == [] then 0 else Sum(xs[..|xs| - 1]) + xs[|xs| - 1]
  }

  lemma {:induction false} SumBounds(xs: seq<int>, lo: int, hi: int)
    requires forall i :: 0 <= i < |xs| ==> lo <= xs[i] <= hi
    ensures |xs| * lo <= Sum(xs) <= |xs| * hi
  {
    if xs != [] {
      var p := xs[..|xs| - 1];
      forall i | 0 <= i < |p|
        ensures lo <= p[i] <= hi
      {
        assert p[i] == xs[i];
      }
      SumBounds(p, lo, hi);
      assert Sum(xs) == Sum(p) + xs[|xs| - 1];
      MulSucc(|p|, lo);
      MulSucc(|p|, hi);
    }
  }

  lemma MulSucc(n: int, a: int)
    ensures (n + 1) * a == n * a + a
  {
  }

  /** `logs.length > 0 ? logs.reduce(sum) / logs.length : 0` */
  function Average(xs: seq<int>): real {
    if |xs| == 0 then 0.0 else Sum(xs) as real / |xs| as real
  }

  /** An average of ratings in `lo..hi` lies in `lo..hi`; no ratings average to 0. */
  lemma AverageBounds(xs: seq<int>, lo: int, hi: int)
    requires forall i :: 0 <= i < |xs| ==> lo <= xs[i] <= hi
    ensures xs == [] ==> Average(xs) == 0.0
    ensures xs != [] ==> lo as real <= Average(xs) <= hi as real
  {
    if xs != [] {
      SumBounds(xs, lo, hi);
      var n := |xs| as real;
      assert n * lo as real <= Sum(xs) as real <= n * hi as real;
      DivBounds(Sum(xs) as real, n, lo as real, hi as real);
    }
  }

  lemma DivBounds(s: real, n: real, lo: real, hi: real)
    requires n > 0.0 && n * lo <= s <= n * hi
    ensures lo <= s / n <= hi
  {
  }

  /** `Math.round(x)`: the nearest integer, halves rounded up. */
  function Round(x: real): (r: int)
    ensures x - 0.5 < r as real <= x + 0.5
  {
    (x + 0.5).Floor
  }

  /** A whole number of tenths. */
  predicate IsTenths(x: real) {
    (x * 10.0).Floor as real == x * 10.0
  }

  /** `Math.round(x * 10) / 10`: the multiple of a tenth nearest x, halves rounded up. */
  function RoundTenths(x: real): (r: real)
    ensures IsTenths(r)
    ensures x - 0.05 < r <= x + 0.05
  {
    Round(x * 10.0) as real / 10.0
  }

  /** At most one whole number of tenths lies in (x - 0.05, x + 0.05], so RoundTenths is the one. */
  lemma TenthsUnique(x: real, a: real, b: real)
    requires IsTenths(a) && x - 0.05 < a <= x + 0.05
    requires IsTenths(b) && x - 0.05 < b <= x + 0.05
    ensures a == b
  {
    var i, j := (a * 10.0).Floor, (b * 10.0).Floor;
    assert -1.0 < i as real - j as real < 1.0;
    assert i == j;
  }

  /** Rounding keeps a value inside integer bounds. */
  lemma RoundWithin(x: real, lo: int, hi: int)
    requires lo as real <= x <= hi as real
    ensures lo <= Round(x) <= hi
  {
  }

  function CountKnown(logs: seq<DailyLog>): (r: nat)
    ensures r <= |logs|
  {
    if logs == [] then 0
    else CountKnown(logs[..|logs| - 1]) + (if logs[|logs| - 1].medicationTaken.Some? then 1 else 0)
  }

  function CountTaken(logs: seq<DailyLog>): (r: nat)
    ensures r <= CountKnown(logs)
  {
    if logs == [] then 0
    else CountTaken(logs[..|logs| - 1]) + (if logs[|logs| - 1].medicationTaken == Some(true) then 1 else 0)
  }

  /** Share of the logs recording medication that record it as taken, as a percentage. */
  function Adherence(logs: seq<DailyLog>): (r: real)
    ensures 0.0 <= r <= 100.0
    ensures CountKnown(logs) == 0 ==> r == 0.0
  {
    var known := CountKnown(logs);
    if known > 0 then
      PercentBounds(CountTaken(logs) as real, known as real);
      CountTaken(logs) as real / known as real * 100.0
    else 0.0
  }

  lemma PercentBounds(t: real, k: real)
    requires 0.0 <= t <= k && k > 0.0
    ensures 0.0 <= t / k * 100.0 <= 100.0
  {
    var q := t / k;
    assert q * k == t;
    assert q <= 1.0;
  }

  /** Adherence is full exactly when every recorded answer is "taken", and nil when none is. */
  lemma AdherenceExtremes(logs: seq<DailyLog>)
    requires CountKnown(logs) > 0
    ensures Adherence(logs) == 100.0 <==> CountTaken(logs) == CountKnown(logs)
    ensures Adherence(logs) == 0.0 <==> CountTaken(logs) == 0
  {
    PercentExtremes(CountTaken(logs) as real, CountKnown(logs) as real);
  }

  lemma PercentExtremes(t: real, k: real)
    requires 0.0 <= t <= k && k > 0.0
    ensures t / k * 100.0 == 100.0 <==> t == k
    ensures t / k * 100.0 == 0.0 <==> t == 0.0
  {
    var q := t / k;
    assert q * k == t;
    if q * 100.0 == 100.0 {
      assert q == 1.0;
    }
    if q * 100.0 == 0.0 {
      assert q == 0.0;
    }
  }

  lemma {:induction false} NoKnownNoTaken(logs: seq<DailyLog>)
    requires forall i :: 0 <= i < |logs| ==> logs[i].medicationTaken.None?
    ensures CountKnown(logs) == 0 && Adherence(logs) == 0.0
  {
    if logs != [] {
      NoKnownNoTaken(logs[..|logs| - 1]);
    }
  }

  /** `Math.round(adherence)` is a whole percentage in 0..100. */
  lemma RoundedAdherence(logs: seq<DailyLog>)
    ensures 0 <= Round(Adherence(logs)) <= 100
  {
    RoundWithin(Adherence(logs), 0, 100);
  }

  /** Logs whose mood (missing counted as 0) is at least 6. */
  function GoodDays(logs: seq<DailyLog>): (r: nat)
    ensures r <= |logs|
  {
    if logs == [] then 0
    else GoodDays(logs[..|logs| - 1]) + (if Rating(logs[|logs| - 1].moodRating) >= 6 then 1 else 0)
  }

  /** Logs whose mood (missing counted as 0) is at most 3. */
  function ChallengingDays(logs: seq<DailyLog>): (r: nat)
    ensures r <= |logs|
  {
    if logs == [] then 0
    else ChallengingDays(logs[..|logs| - 1]) + (if Rating(logs[|logs| - 1].moodRating) <= 3 then 1 else 0)
  }

  /** No log is both a good and a challenging day, so together they never exceed the logs. */
  lemma {:induction false} DayCountsDisjoint(logs: seq<DailyLog>)
    ensures GoodDays(logs) + ChallengingDays(logs) <= |logs|
  {
    if logs != [] {
      DayCountsDisjoint(logs[..|logs| - 1]);
    }
  }

  /** A log without a mood counts as challenging. */
  lemma MissingMoodIsChallenging(log: DailyLog)
    requires log.moodRating.None?
    ensures ChallengingDays([log]) == 1 && GoodDays([log]) == 0
  {
    assert [log][..0] == [];
  }

  // ---------------------------------------------------------------------------
  // Streaks
  // ---------------------------------------------------------------------------

  /** `logs.some(log => dayStart <= log.createdAt < dayStart + 1 day)` */
  predicate HasLogOn(logs: seq<DailyLog>, dayStart: int) {
    exists i :: 0 <= i < |logs| && dayStart <= logs[i].createdAt < dayStart + DAY_MS
  }

  /** The number of consecutive days with a log, going back from `day`, looking at most `k` days. */
  function RunFrom(logs: seq<DailyLog>, day: int, k: nat): (r: nat)
    ensures r <= k
    decreases k
  {
    if k == 0 || !HasLogOn(logs, day) then 0 else 1 + RunFrom(logs, day - DAY_MS, k - 1)
  }

  /** The run is exactly the days with a log before the first day without one. */
  lemma {:induction false} RunFromSpec(logs: seq<DailyLog>, day: int, k: nat)
    ensures forall j :: 0 <= j < RunFrom(logs, day, k) ==> HasLogOn(logs, day - j * DAY_MS)
    ensures RunFrom(logs, day, k) < k ==> !HasLogOn(logs, day - RunFrom(logs, day, k) * DAY_MS)
    decreases k
  {
    if k > 0 && HasLogOn(logs, day) {
      RunFromSpec(logs, day - DAY_MS, k - 1);
      var n := RunFrom(logs, day - DAY_MS, k - 1);
      forall j | 0 <= j < 1 + n
        ensures HasLogOn(logs, day - j * DAY_MS)
      {
        if j > 0 {
          assert day - j * DAY_MS == (day - DAY_MS) - (j - 1) * DAY_MS;
        }
      }
      assert day - (1 + n) * DAY_MS == (day - DAY_MS) - n * DAY_MS;
    }
  }

  /** When no log is older than `lo`, a run cannot reach back past the day holding `lo`. */
  lemma RunFromReach(logs: seq<DailyLog>, day: int, k: nat, lo: int)
    requires forall i :: 0 <= i < |logs| ==> lo <= logs[i].createdAt
    requires RunFrom(logs, day, k) > 0
    ensures (RunFrom(logs, day, k) - 1) * DAY_MS < day + DAY_MS - lo
  {
    var n := RunFrom(logs, day, k);
    RunFromSpec(logs, day, k);
    assert HasLogOn(logs, day - (n - 1) * DAY_MS);
  }
}
