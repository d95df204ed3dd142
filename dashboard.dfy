/**
 * GET /api/dashboard: today's log, and over the caller's 30 most recent logs the check-in streak
 * (which ends at the first day without a log, today included), the log count and the average mood.
 */
module Dashboard {
  import opened Wrappers
  import opened Http
  import opened Clock
  import opened DailyLogs
  import opened CheckinStats

  const STREAK_DAYS := 30
  const RECENT_LOGS := 30

  /** `findFirst` of a log created in [today 00:00, tomorrow 00:00), in the store's order. */
  function TodayLog(logs: seq<DailyLog>, now: int): (r: Option<DailyLog>)
    ensures r.Some? ==> r.value in logs && StartOfDay(now) <= r.value.createdAt < StartOfDay(now) + DAY_MS
    ensures r.None? <==> !HasLogOn(logs, StartOfDay(now))
  {
    if logs == [] then None
    else if StartOfDay(now) <= logs[0].createdAt < StartOfDay(now) + DAY_MS then Some(logs[0])
    else
      var r := TodayLog(logs[1..], now);
      assert HasLogOn(logs, StartOfDay(now)) <==> HasLogOn(logs[1..], StartOfDay(now)) by {
        if HasLogOn(logs, StartOfDay(now)) {
          var i :| 0 <= i < |logs| && StartOfDay(now) <= logs[i].createdAt < StartOfDay(now) + DAY_MS;
          assert logs[1..][i - 1] == logs[i];
        }
        if HasLogOn(logs[1..], StartOfDay(now)) {
          var i :| 0 <= i < |logs[1..]| && StartOfDay(now) <= logs[1..][i].createdAt < StartOfDay(now) + DAY_MS;
          assert logs[i + 1] == logs[1..][i];
        }
      }
      r
  }

  /** `take: 30` of the logs listed newest first. */
  function Recent(logs: seq<DailyLog>): (r: seq<DailyLog>)
    ensures |r| == if |logs| < RECENT_LOGS then |logs| else RECENT_LOGS
    ensures r == logs[..|r|]
  {
    if |logs| <= RECENT_LOGS then logs else logs[..RECENT_LOGS]
  }

  /** The `for` loop over at most 30 days that stops at the first day without a log. */
  method Streak(logs: seq<DailyLog>, now: int) returns (streak: nat)
    ensures streak == RunFrom(logs, StartOfDay(now), STREAK_DAYS)
  {
    var today := StartOfDay(now);
    streak := 0;
    var checkDate := today;
    var i := 0;
    while i < STREAK_DAYS
      invariant 0 <= i <= STREAK_DAYS && streak == i
      invariant checkDate == today - i * DAY_MS
      invariant streak + RunFrom(logs, checkDate, STREAK_DAYS - i) == RunFrom(logs, today, STREAK_DAYS)
    {
      var hasLogForDay := exists j :: 0 <= j < |logs| && checkDate <= logs[j].createdAt < checkDate + DAY_MS;
      assert hasLogForDay == HasLogOn(logs, checkDate);
      if hasLogForDay {
        assert RunFrom(logs, checkDate, STREAK_DAYS - i) == 1 + RunFrom(logs, checkDate - DAY_MS, STREAK_DAYS - i - 1);
        streak := streak + 1;
      } else {
        assert RunFrom(logs, checkDate, STREAK_DAYS - i) == 0;
        break;
      }
      checkDate := checkDate - DAY_MS;
      i := i + 1;
    }
  }

  /**
   * The streak is at most 30; without a log today it is 0; otherwise it counts today and every
   * day before it that has a log, up to the first day that does not.
   */
  lemma StreakSpec(logs: seq<DailyLog>, now: int)
    ensures var s := RunFrom(logs, StartOfDay(now), STREAK_DAYS);
      && s <= STREAK_DAYS
      && (!HasLogOn(logs, StartOfDay(now)) ==> s == 0)
      && (forall j :: 0 <= j < s ==> HasLogOn(logs, StartOfDay(now) - j * DAY_MS))
      && (s < STREAK_DAYS ==> !HasLogOn(logs, StartOfDay(now) - s * DAY_MS))
  {
    RunFromSpec(logs, StartOfDay(now), STREAK_DAYS);
  }

  datatype Stats = Stats(streak: nat, averageMood: real, totalLogs: nat)
  datatype DashboardBody = DashboardBody(todayLog: Option<DailyLog>, stats: Stats)

  /** The handler, given the caller's logs newest first and the clock reading. */
  method Get(userId: Option<string>, now: int, logs: seq<DailyLog>) returns (r: Response<DashboardBody>)
    ensures !TruthyString(userId) ==> r == Error(401, "Unauthorized")
    ensures TruthyString(userId) ==> (r.Ok? &&
      var recent := Recent(logs);
      && r.body.todayLog == TodayLog(logs, now)
      && r.body.stats.streak == RunFrom(recent, StartOfDay(now), STREAK_DAYS) <= STREAK_DAYS
      && r.body.stats.totalLogs == |recent| <= RECENT_LOGS
      && r.body.stats.averageMood == RoundTenths(Average(Moods(recent)))
      && (logs == [] ==> r.body.stats.averageMood == 0.0))
  {
    if !TruthyString(userId) {
      return Unauthorized();
    }
    var todayLog := TodayLog(logs, now);
    var recent := Recent(logs);
    var streak := Streak(recent, now);
    var mood := Average(Moods(recent));
    r := Ok(DashboardBody(todayLog, Stats(streak, RoundTenths(mood), |recent|)));
  }
}
