/**
 * GET /api/progress: over the logs of the last seven days, the check-in streak (today may still
 * be open), the rating averages, medication adherence, the good days, and a feedback message
 * about the weakest of the four metrics.
 */
module Progress {
  import opened Wrappers
  import opened Http
  import opened Clock
  import opened DailyLogs
  import opened CheckinStats

  const STREAK_DAYS := 30

  /** `sevenDaysAgo`: the instant exactly seven days before now; the fetch keeps logs from it on. */
  function Fetched(logs: seq<DailyLog>, now: int): (r: seq<DailyLog>)
    ensures forall i :: 0 <= i < |r| ==> now - 7 * DAY_MS <= r[i].createdAt
    ensures forall l :: l in r <==> l in logs && now - 7 * DAY_MS <= l.createdAt
  {
    if logs == [] then []
    else
      var last := logs[|logs| - 1];
      Fetched(logs[..|logs| - 1], now) + (if now - 7 * DAY_MS <= last.createdAt then [last] else [])
  }

  // ---------------------------------------------------------------------------
  // Streak, today exempt
  // ---------------------------------------------------------------------------

  /**
   * The streak when today may not have a log yet: today counts if it has one, and the run of
   * earlier days is counted either way.
   */
  function ExemptStreak(logs: seq<DailyLog>, today: int): nat {
    (if HasLogOn(logs, today) then 1 else 0) + RunFrom(logs, today - DAY_MS, STREAK_DAYS - 1)
  }

  /** The `for` loop over at most 30 days, with `i > 0` guarding the `break`. */
  method Streak(logs: seq<DailyLog>, now: int) returns (streak: nat)
    ensures streak == ExemptStreak(logs, StartOfDay(now))
  {
    var today := StartOfDay(now);
    streak := 0;
    var checkDate := today;
    var i := 0;
    while i < STREAK_DAYS
      invariant 0 <= i <= STREAK_DAYS
      invariant checkDate == today - i * DAY_MS
      invariant i == 0 ==> streak == 0
      invariant i > 0 ==> streak + RunFrom(logs, checkDate, STREAK_DAYS - i) == ExemptStreak(logs, today)
    {
      var hasLogForDay := exists j :: 0 <= j < |logs| && checkDate <= logs[j].createdAt < checkDate + DAY_MS;
      if hasLogForDay {
        streak := streak + 1;
      } else if i > 0 {
        break;
      }
      checkDate := checkDate - DAY_MS;
      i := i + 1;
    }
  }

  /**
   * The streak is at most 30; a day without a log today neither counts nor stops it; and since
   * only logs of the last seven days are fetched, it never exceeds 8.
   */
  lemma ExemptStreakBounds(logs: seq<DailyLog>, now: int)
    ensures ExemptStreak(logs, StartOfDay(now)) <= STREAK_DAYS
    ensures !HasLogOn(logs, StartOfDay(now)) ==> ExemptStreak(logs, StartOfDay(now)) == RunFrom(logs, StartOfDay(now) - DAY_MS, STREAK_DAYS - 1)
    ensures HasLogOn(logs, StartOfDay(now)) ==> ExemptStreak(logs, StartOfDay(now)) == RunFrom(logs, StartOfDay(now), STREAK_DAYS)
  {
  }

  lemma FetchedStreakBound(logs: seq<DailyLog>, now: int)
    ensures ExemptStreak(Fetched(logs, now), StartOfDay(now)) <= 8
  {
    var f := Fetched(logs, now);
    var yesterday := StartOfDay(now) - DAY_MS;
    if RunFrom(f, yesterday, STREAK_DAYS - 1) > 0 {
      RunFromReach(f, yesterday, STREAK_DAYS - 1, now - 7 * DAY_MS);
    }
  }

  // ---------------------------------------------------------------------------
  // Feedback on the lowest metric
  // ---------------------------------------------------------------------------

  datatype Metric = Mood | Sleep | Energy | Medication

  /** Each metric on a 0..100 scale: ratings out of 10 and 5, adherence as it is. */
  function Normalized(key: Metric, value: real): real {
    match key
    case Mood => value * 10.0
    case Energy => value * 10.0
    case Sleep => value * 20.0
    case Medication => value
  }

  /** The accumulator of the `reduce`; no key while nothing has been below 100. */
  datatype Lowest = Lowest(key: Option<Metric>, value: real, normalized: real)

  const NONE_LOWER := Lowest(None, 0.0, 100.0)

  /** `Object.entries(metrics).reduce(...)`, keeping the earlier entry on a tie. */
  function LowestOf(entries: seq<(Metric, real)>): Lowest {
    if entries == [] then NONE_LOWER else Pick(LowestOf(entries[..|entries| - 1]), entries[|entries| - 1])
  }

  /** The reducer: an entry replaces the accumulator only when strictly lower. */
  function Pick(lowest: Lowest, entry: (Metric, real)): Lowest {
    var n := Normalized(entry.0, entry.1);
    if n < lowest.normalized then Lowest(Some(entry.0), entry.1, n) else lowest
  }

  lemma LowestOfFour(a: (Metric, real), b: (Metric, real), c: (Metric, real), d: (Metric, real))
    ensures LowestOf([a, b, c, d]) == Pick(Pick(Pick(Pick(NONE_LOWER, a), b), c), d)
  {
    assert LowestOf([a]) == Pick(NONE_LOWER, a) by {
      assert [a][..0] == [];
    }
    assert LowestOf([a, b]) == Pick(LowestOf([a]), b) by {
      assert [a, b][..1] == [a];
    }
    assert LowestOf([a, b, c]) == Pick(LowestOf([a, b]), c) by {
      assert [a, b, c][..2] == [a, b];
    }
    assert LowestOf([a, b, c, d]) == Pick(LowestOf([a, b, c]), d) by {
      assert [a, b, c, d][..3] == [a, b, c];
    }
  }

  /**
   * The result is the first entry with the smallest normalised value, provided that value is
   * below 100; otherwise no key is chosen.
   */
  lemma {:induction false} LowestOfSpec(entries: seq<(Metric, real)>)
    ensures var r := LowestOf(entries);
      && r.normalized <= 100.0
      && (forall j :: 0 <= j < |entries| ==> r.normalized <= Normalized(entries[j].0, entries[j].1))
      && (r.key.None? <==> r == NONE_LOWER)
      && (r.key.None? ==> forall j :: 0 <= j < |entries| ==> Normalized(entries[j].0, entries[j].1) >= 100.0)
      && (r.key.Some? ==>
            exists i :: (0 <= i < |entries| && entries[i] == (r.key.value, r.value)
                         && r.normalized == Normalized(r.key.value, r.value) < 100.0
                         && forall j :: 0 <= j < i ==> Normalized(entries[j].0, entries[j].1) > r.normalized))
  {
    if entries != [] {
      var p := entries[..|entries| - 1];
      LowestOfSpec(p);
      var prev := LowestOf(p);
      var (key, value) := entries[|entries| - 1];
      var r := LowestOf(entries);
      assert r == Pick(prev, (key, value));
      if Normalized(key, value) < prev.normalized {
        var i := |entries| - 1;
        assert entries[i] == (key, value);
        forall j | 0 <= j < i
          ensures Normalized(entries[j].0, entries[j].1) > r.normalized
        {
          assert entries[j] == p[j];
        }
      } else if r.key.Some? {
        var i :| 0 <= i < |p| && p[i] == (r.key.value, r.value)
                 && r.normalized == Normalized(r.key.value, r.value) < 100.0
                 && forall j :: 0 <= j < i ==> Normalized(p[j].0, p[j].1) > r.normalized;
        assert entries[i] == p[i];
        forall j | 0 <= j < i
          ensures Normalized(entries[j].0, entries[j].1) > r.normalized
        {
          assert entries[j] == p[j];
        }
      }
      forall j | 0 <= j < |entries|
        ensures r.normalized <= Normalized(entries[j].0, entries[j].1)
      {
        if j < |p| {
          assert entries[j] == p[j];
        }
      }
    }
  }

  /** `metrics`, in its declaration order. */
  function Metrics(mood: real, sleep: real, energy: real, medication: real): seq<(Metric, real)> {
    [(Mood, mood), (Sleep, sleep), (Energy, energy), (Medication, medication)]
  }

  /** The messages `generateWeeklyFeedback` can give. */
  datatype Tip = MedicationMissed | MedicationReminders | MoodTough | MoodBoost | SleepPoor | SleepRelax
               | EnergyLow | EnergyActivity | Praise

  function TipText(t: Tip): string {
    match t
    case MedicationMissed => "\U{1F4DD} Focus Area: Please prioritize taking your medication regularly. Consistent medication can significantly improve your mental health journey."
    case MedicationReminders => "\U{1F48A} Focus Area: Try setting daily reminders for your medication. Consistency is key to feeling better."
    case MoodTough => "\U{1F331} Focus Area: Your mood scores show you're going through a tough time. Consider reaching out to a trusted person or counselor for support."
    case MoodBoost => "\U{1F499} Focus Area: Focus on small mood-boosting activities like listening to music, spending time outside, or connecting with friends."
    case SleepPoor => "\U{1F634} Focus Area: Poor sleep can really impact your mental health. Try establishing a consistent bedtime routine and limiting screen time before bed."
    case SleepRelax => "\U{1F319} Focus Area: Improving your sleep quality could help boost your mood and energy. Consider relaxation techniques before bed."
    case EnergyLow => "\U{26A1} Focus Area: Low energy can be challenging. Try gentle exercise, staying hydrated, and eating regular nutritious meals to boost your energy."
    case EnergyActivity => "\U{1F50B} Focus Area: Consider adding light physical activity or brief walks to help increase your energy levels throughout the day."
    case Praise => "\U{1F31F} Great job on your mental health journey! Keep up the consistent self-care and check-ins."
  }

  /** The tip for the lowest metric; `None` stands for the empty feedback string. */
  function TipFor(l: Lowest): Option<Tip> {
    match l.key
    case None => Some(Praise)
    case Some(Medication) =>
      if l.value == 0.0 then Some(MedicationMissed) else if l.value < 50.0 then Some(MedicationReminders) else None
    case Some(Mood) => if l.value < 3.0 then Some(MoodTough) else if l.value < 5.0 then Some(MoodBoost) else None
    case Some(Sleep) => if l.value < 2.0 then Some(SleepPoor) else if l.value < 3.0 then Some(SleepRelax) else None
    case Some(Energy) => if l.value < 3.0 then Some(EnergyLow) else if l.value < 5.0 then Some(EnergyActivity) else None
  }

  /** The metric a tip is about. */
  function TipMetric(t: Tip): Option<Metric> {
    match t
    case MedicationMissed => Some(Medication)
    case MedicationReminders => Some(Medication)
    case MoodTough => Some(Mood)
    case MoodBoost => Some(Mood)
    case SleepPoor => Some(Sleep)
    case SleepRelax => Some(Sleep)
    case EnergyLow => Some(Energy)
    case EnergyActivity => Some(Energy)
    case Praise => None
  }

  /** `generateWeeklyFeedback()` */
  function WeeklyFeedback(mood: real, sleep: real, energy: real, medication: real): string {
    match TipFor(LowestOf(Metrics(mood, sleep, energy, medication)))
    case None => ""
    case Some(t) => TipText(t)
  }

  /**
   * Praise exactly when no metric normalises below 100; otherwise the tip, if any, is about the
   * lowest metric, and the feedback is empty exactly when that metric is above its thresholds.
   */
  lemma TipForSpec(l: Lowest)
    ensures TipFor(l) == Some(Praise) <==> l.key.None?
    ensures TipFor(l).Some? ==> TipMetric(TipFor(l).value) == l.key
    ensures TipFor(l).None? <==>
      (l.key == Some(Medication) && l.value != 0.0 && l.value >= 50.0)
      || (l.key == Some(Mood) && l.value >= 5.0) || (l.key == Some(Sleep) && l.value >= 3.0)
      || (l.key == Some(Energy) && l.value >= 5.0)
  {
  }

  /** With no logs every average is 0, mood is the first below 100, and the "tough time" tip is given. */
  lemma NoLogsFeedback()
    ensures LowestOf(Metrics(0.0, 0.0, 0.0, 0.0)) == Lowest(Some(Mood), 0.0, 0.0)
    ensures TipFor(LowestOf(Metrics(0.0, 0.0, 0.0, 0.0))) == Some(MoodTough)
  {
    LowestOfFour((Mood, 0.0), (Sleep, 0.0), (Energy, 0.0), (Medication, 0.0));
  }

  /** All four metrics at the top of their scales: nothing is below 100, so the praise is given. */
  lemma TopMarksFeedback()
    ensures TipFor(LowestOf(Metrics(10.0, 5.0, 10.0, 100.0))) == Some(Praise)
  {
    LowestOfFour((Mood, 10.0), (Sleep, 5.0), (Energy, 10.0), (Medication, 100.0));
  }

  // ---------------------------------------------------------------------------
  // The handler
  // ---------------------------------------------------------------------------

  datatype ProgressBody = ProgressBody(
    streak: nat, averageMood: real, averageSleep: real, averageEnergy: real,
    medicationAdherence: int, weeklyCheckins: nat, weeklyMeds: int, goodDays: nat, totalLogs: nat,
    weeklyFeedback: string)

  /** The handler, given the caller's logs newest first and the clock reading. */
  method Get(userId: Option<string>, now: int, logs: seq<DailyLog>) returns (r: Response<ProgressBody>)
    ensures !TruthyString(userId) ==> r == Error(401, "Unauthorized")
    ensures TruthyString(userId) ==> (r.Ok? &&
      var weekly := Fetched(logs, now);
      var b := r.body;
      && b.streak == ExemptStreak(weekly, StartOfDay(now)) && b.streak <= 8
      && b.averageMood == RoundTenths(Average(Moods(weekly)))
      && b.averageSleep == RoundTenths(Average(Sleeps(weekly)))
      && b.averageEnergy == RoundTenths(Average(Energies(weekly)))
      && b.medicationAdherence == Round(Adherence(weekly)) && 0 <= b.medicationAdherence <= 100
      && b.weeklyMeds == b.medicationAdherence
      && b.weeklyCheckins == b.totalLogs == |weekly|
      && b.goodDays == GoodDays(weekly) <= |weekly|
      && b.weeklyFeedback == WeeklyFeedback(Average(Moods(weekly)), Average(Sleeps(weekly)),
                                            Average(Energies(weekly)), Adherence(weekly)))
  {
    if !TruthyString(userId) {
      return Unauthorized();
    }
    var weekly := Fetched(logs, now);
    var streak := Streak(weekly, now);
    FetchedStreakBound(logs, now);
    var mood := Average(Moods(weekly));
    var sleep := Average(Sleeps(weekly));
    var energy := Average(Energies(weekly));
    var adherence := Adherence(weekly);
    RoundedAdherence(weekly);
    var feedback := WeeklyFeedback(mood, sleep, energy, adherence);
    r := Ok(ProgressBody(streak, RoundTenths(mood), RoundTenths(sleep), RoundTenths(energy),
                         Round(adherence), |weekly|, Round(adherence), GoodDays(weekly), |weekly|, feedback));
  }
}
