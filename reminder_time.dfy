/**
 * The pure time arithmetic of the medication reminder scheduler: parsing and displaying
 * `HH:MM` reminder times, the next instant a reminder slot is due, and the countdown text.
 */
module ReminderTime {
  import opened Wrappers
  import opened Text
  import opened Clock

  /** A medication's reminder definition, as the scheduler receives it. */
  datatype Reminder = Reminder(
    id: string,
    name: string,
    dosage: Option<string>,
    reminderTimes: seq<string>,  // "HH:MM", 24-hour clock
    reminderDate: Option<int>,   // day number of a one-off reminder; None for a daily one
    isActive: bool,
    snoozeUntil: Option<int>)    // instant, ms

  // ---------------------------------------------------------------------------
  // HH:MM
  // ---------------------------------------------------------------------------

  /** A time as an `<input type="time">` produces it: two-digit hours < 24, a colon, two-digit minutes < 60. */
  predicate WellFormedTime(t: string) {
    |t| == 5 && t[2] == ':' && AllDigits(t[..2]) && AllDigits(t[3..])
    && DigitsValue(t[..2]) < 24 && DigitsValue(t[3..]) < 60
  }

  predicate WellFormed(m: Reminder) {
    forall i :: 0 <= i < |m.reminderTimes| ==> WellFormedTime(m.reminderTimes[i])
  }

  function Hours(t: string): nat
    requires WellFormedTime(t)
  {
    DigitsValue(t[..2])
  }

  function Minutes(t: string): nat
    requires WellFormedTime(t)
  {
    DigitsValue(t[3..])
  }

  /** Milliseconds after midnight at which the time of day falls. */
  function TimeOfDay(t: string): (r: int)
    requires WellFormedTime(t)
    ensures 0 <= r < DAY_MS
  {
    (Hours(t) * 60 + Minutes(t)) * MINUTE_MS
  }

  // ---------------------------------------------------------------------------
  // formatReminderTime
  // ---------------------------------------------------------------------------

  /** `formatReminderTime`: 24-hour `HH:MM` to 12-hour `h:MM AM|PM`. */
  function FormatReminderTime(t: string): string
    requires WellFormedTime(t)
  {
    var h := Hours(t);
    var period := if h >= 12 then "PM" else "AM";
    var displayHours := if h % 12 == 0 then 12 else h % 12;
    NatToString(displayHours) + ":" + Pad2(Minutes(t)) + " " + period
  }

  /** Reads a 12-hour `h:MM AM|PM` text back to the hour (0..23) and minute it names. */
  function ParseTwelveHour(s: string): Option<(nat, nat)> {
    if 7 <= |s| && s[|s| - 6] == ':' && s[|s| - 3] == ' '
       && AllDigits(s[..|s| - 6]) && AllDigits(s[|s| - 5..|s| - 3])
       && (s[|s| - 2..] == "AM" || s[|s| - 2..] == "PM")
    then
      var hourText := s[..|s| - 6];
      var h12 := DigitsValue(hourText);
      var pm := s[|s| - 2..] == "PM";
      if 1 <= h12 <= 12 && hourText[0] != '0' then
        Some((Hour24(h12, pm), DigitsValue(s[|s| - 5..|s| - 3])))
      else None
    else None
  }

  lemma {:induction false} TwelveHourLayout(hs: string, mm: string, period: string)
    requires |mm| == 2 && |period| == 2
    ensures var s := hs + ":" + mm + " " + period;
      && |s| == |hs| + 6 && s[..|s| - 6] == hs && s[|s| - 6] == ':'
      && s[|s| - 5..|s| - 3] == mm && s[|s| - 3] == ' ' && s[|s| - 2..] == period
  {
    var s := hs + ":" + mm + " " + period;
    assert s == hs + (":" + mm + " " + period);
  }

  function Hour24(h12: nat, pm: bool): nat {
    if pm then (if h12 == 12 then 12 else h12 + 12) else (if h12 == 12 then 0 else h12)
  }

  lemma {:induction false} ParseTwelveHourOf(hs: string, mm: string, period: string)
    requires |mm| == 2 && |period| == 2 && AllDigits(hs) && AllDigits(mm) && hs != [] && hs[0] != '0'
    requires 1 <= DigitsValue(hs) <= 12 && (period == "AM" || period == "PM")
    ensures ParseTwelveHour(hs + ":" + mm + " " + period) == Some((Hour24(DigitsValue(hs), period == "PM"), DigitsValue(mm)))
  {
    TwelveHourLayout(hs, mm, period);
  }

  /**
   * The display form names the same time of day: the hour is written once, unpadded, in 1..12
   * with AM for hours 0..11 and PM for 12..23, and the minutes are zero-padded to two digits.
   */
  lemma FormatReminderTimeRoundTrip(t: string)
    requires WellFormedTime(t)
    ensures ParseTwelveHour(FormatReminderTime(t)) == Some((Hours(t), Minutes(t)))
  {
    var h := Hours(t);
    var pm := h >= 12;
    var period := if pm then "PM" else "AM";
    assert (period == "PM") == pm by {
      assert "AM"[0] != "PM"[0];
    }
    var dh := if h % 12 == 0 then 12 else h % 12;
    DisplayHour(h);
    ParseTwelveHourOf(NatToString(dh), Pad2(Minutes(t)), period);
  }

  lemma DisplayHour(h: int)
    requires 0 <= h < 24
    ensures var dh := if h % 12 == 0 then 12 else h % 12;
      1 <= dh <= 12 && Hour24(dh, h >= 12) == h
  {
    assert (if h % 12 == 0 then 12 else h % 12) == if h == 0 || h == 12 then 12 else if h < 12 then h else h - 12;
  }

  lemma {:induction false} TwelveHourText(hs: string, mm: string, period: string)
    ensures hs + ":" + mm + " " + period == (hs + ":") + mm + (" " + period)
  {
  }

  lemma SmallNumerals()
    ensures NatToString(1) == "1" && NatToString(12) == "12"
  {
    assert NatToString(12) == NatToString(1) + [DigitChar(2)];
  }

  /** Midnight reads as 12 AM, noon as 12 PM and 13:xx as 1 PM; the minutes keep two digits. */
  lemma FormatReminderTimeHours(t: string)
    requires WellFormedTime(t)
    ensures Hours(t) == 0 ==> FormatReminderTime(t) == "12:" + Pad2(Minutes(t)) + " AM"
    ensures Hours(t) == 12 ==> FormatReminderTime(t) == "12:" + Pad2(Minutes(t)) + " PM"
    ensures Hours(t) == 13 ==> FormatReminderTime(t) == "1:" + Pad2(Minutes(t)) + " PM"
  {
    var h := Hours(t);
    if h == 0 {
      FormatAs(t, "12", "AM", "12:", " AM");
    } else if h == 12 {
      FormatAs(t, "12", "PM", "12:", " PM");
    } else if h == 13 {
      FormatAs(t, "1", "PM", "1:", " PM");
    }
  }

  /** The display text for a given hour numeral and period, regrouped. */
  lemma FormatAs(t: string, hs: string, period: string, head: string, tail: string)
    requires WellFormedTime(t)
    requires hs == NatToString(if Hours(t) % 12 == 0 then 12 else Hours(t) % 12)
    requires period == if Hours(t) >= 12 then "PM" else "AM"
    requires head == hs + ":" && tail == " " + period
    ensures FormatReminderTime(t) == head + Pad2(Minutes(t)) + tail
  {
    var mm := Pad2(Minutes(t));
    TwelveHourText(hs, mm, period);
  }

  // ---------------------------------------------------------------------------
  // calculateNextReminderTime
  // ---------------------------------------------------------------------------

  /** The instant of time of day `tod` on day `day`. */
  function Occurrence(day: int, tod: int): int {
    day * DAY_MS + tod
  }

  /**
   * `calculateNextReminderTime`: the next instant one reminder slot is due, or None when a
   * one-off reminder's date and time are not after `now`. A snooze still in the future takes
   * the place of the computed time, but only once the one-off check has passed.
   */
  function NextReminderTime(time: string, reminderDate: Option<int>, snoozeUntil: Option<int>, now: int): (r: Option<int>)
    requires WellFormedTime(time)
    ensures r.Some? ==> r.value > now
  {
    var tod := TimeOfDay(time);
    var scheduled :=
      if reminderDate.Some? then
        var at := Occurrence(reminderDate.value, tod);
        if at <= now then None else Some(at)
      else
        var today := Occurrence(DayNumber(now), tod);
        Some(if today <= now then today + DAY_MS else today);
    if scheduled.None? then None
    else if snoozeUntil.Some? && snoozeUntil.value > now then snoozeUntil
    else scheduled
  }

  /** The next time of one slot of a reminder. */
  function SlotNext(m: Reminder, i: int, now: int): Option<int>
    requires WellFormed(m) && 0 <= i < |m.reminderTimes|
  {
    NextReminderTime(m.reminderTimes[i], m.reminderDate, m.snoozeUntil, now)
  }

  predicate SnoozeActive(snoozeUntil: Option<int>, now: int) {
    snoozeUntil.Some? && snoozeUntil.value > now
  }

  /**
   * A daily reminder that is not snoozed is due at the first occurrence of its time of day
   * strictly after `now`: today if that is still ahead, otherwise exactly one day later.
   */
  lemma RecurringIsNextOccurrence(time: string, snoozeUntil: Option<int>, now: int)
    requires WellFormedTime(time) && !SnoozeActive(snoozeUntil, now)
    ensures var r := NextReminderTime(time, None, snoozeUntil, now);
      && r.Some? && now < r.value <= now + DAY_MS
      && (r.value - TimeOfDay(time)) % DAY_MS == 0
      && (forall day :: Occurrence(day, TimeOfDay(time)) > now ==> r.value <= Occurrence(day, TimeOfDay(time)))
  {
    var tod := TimeOfDay(time);
    var d0 := DayNumber(now);
    var r := NextReminderTime(time, None, snoozeUntil, now).value;
    assert d0 * DAY_MS <= now < d0 * DAY_MS + DAY_MS;
    if Occurrence(d0, tod) <= now {
      assert r == (d0 + 1) * DAY_MS + tod;
      forall day | Occurrence(day, tod) > now
        ensures r <= Occurrence(day, tod)
      {
        assert day * DAY_MS > d0 * DAY_MS;
        assert day > d0;
      }
    } else {
      assert r == d0 * DAY_MS + tod;
      forall day | Occurrence(day, tod) > now
        ensures r <= Occurrence(day, tod)
      {
        assert day * DAY_MS > (d0 - 1) * DAY_MS;
        assert day >= d0;
      }
    }
  }

  /** A one-off reminder is due at its date and time when that is still ahead, and never otherwise, snoozed or not. */
  lemma DatedReminderTime(time: string, date: int, snoozeUntil: Option<int>, now: int)
    requires WellFormedTime(time)
    ensures var r := NextReminderTime(time, Some(date), snoozeUntil, now);
      && (r.None? <==> Occurrence(date, TimeOfDay(time)) <= now)
      && (r.Some? && !SnoozeActive(snoozeUntil, now) ==> r.value == Occurrence(date, TimeOfDay(time)))
  {
  }

  /** Apart from an expired one-off reminder, an active snooze is the next time. */
  lemma SnoozeOverrides(time: string, reminderDate: Option<int>, snoozeUntil: Option<int>, now: int)
    requires WellFormedTime(time) && SnoozeActive(snoozeUntil, now)
    requires reminderDate.Some? ==> Occurrence(reminderDate.value, TimeOfDay(time)) > now
    ensures NextReminderTime(time, reminderDate, snoozeUntil, now) == snoozeUntil
  {
  }

  // ---------------------------------------------------------------------------
  // getTimeUntilReminder
  // ---------------------------------------------------------------------------

  datatype Unit = Minute | Hour | Day

  function UnitMs(u: Unit): int {
    match u
    case Minute => MINUTE_MS
    case Hour => HOUR_MS
    case Day => DAY_MS
  }

  function UnitName(u: Unit): string {
    match u
    case Minute => "minute"
    case Hour => "hour"
    case Day => "day"
  }

  datatype Countdown = NoReminder | Now | In(count: nat, unit: Unit)

  /**
   * The countdown `getTimeUntilReminder` reports for a next time: the count of the largest unit
   * (days, then hours, then minutes) whose floored count is not zero.
   */
  function CountdownOf(next: Option<int>, now: int): (c: Countdown)
    ensures c == NoReminder <==> next.None?
    ensures c == Now <==> next.Some? && next.value <= now
    ensures c.In? ==> var diff := next.value - now;
      && c.count * UnitMs(c.unit) <= diff < (c.count + 1) * UnitMs(c.unit)
      && (c.unit == Day <==> diff >= DAY_MS)
      && (c.unit == Hour <==> HOUR_MS <= diff < DAY_MS)
  {
    if next.None? then NoReminder
    else
      var diffMs := next.value - now;
      if diffMs <= 0 then Now
      else
        var diffMinutes := diffMs / MINUTE_MS;
        var diffHours := diffMinutes / 60;
        var diffDays := diffHours / 24;
        FlooredDivisions(diffMs);
        if diffDays > 0 then In(diffDays, Day)
        else if diffHours > 0 then In(diffHours, Hour)
        else In(diffMinutes, Minute)
  }

  /** Flooring minutes, then hours, then days is the same as flooring by the whole unit. */
  lemma FlooredDivisions(diff: int)
    requires diff > 0
    ensures diff / MINUTE_MS / 60 == diff / HOUR_MS
    ensures diff / MINUTE_MS / 60 / 24 == diff / DAY_MS
  {
    var m := diff / MINUTE_MS;
    var h := m / 60;
    var d := h / 24;
    assert m * MINUTE_MS <= diff < (m + 1) * MINUTE_MS;
    assert h * 60 <= m < (h + 1) * 60;
    assert d * 24 <= h < (d + 1) * 24;
    assert h * HOUR_MS <= diff < (h + 1) * HOUR_MS;
    assert d * DAY_MS <= diff < (d + 1) * DAY_MS;
  }

  /** The text: "", "Now", or "in N unit", with an "s" only when N > 1. */
  function CountdownText(c: Countdown): string {
    match c
    case NoReminder => ""
    case Now => "Now"
    case In(n, u) => "in " + NatToString(n) + " " + UnitName(u) + (if n > 1 then "s" else "")
  }
}
