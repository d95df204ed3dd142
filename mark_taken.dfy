/**
 * POST /api/medications/mark-taken: checks the caller and the medication, marks today's log
 * as medication taken (creating the log when there is none) and appends a note to it.
 */
module MarkTaken {
  import opened Wrappers
  import opened Text
  import opened Http
  import opened Clock
  import opened DailyLogs
  import opened MedicationsApi

  /**
   * `existing ? existing + '\n' + note : note`; `''` is what a null `notes` reads as.
   */
  function AppendNote(existing: Option<string>, note: string): (r: string)
    ensures TruthyString(existing) ==> r == existing.value + "\n" + note
    ensures !TruthyString(existing) ==> r == note
  {
    var prior := existing.GetOr("");
    if prior != "" then prior + "\n" + note else note
  }

  /** The earlier notes are kept, untouched, in front of the new note. */
  lemma AppendNoteKeepsPrior(existing: Option<string>, note: string)
    ensures StartsWith(AppendNote(existing, note), existing.GetOr(""))
    ensures var r := AppendNote(existing, note); |r| >= |note| && r[|r| - |note|..] == note
  {
    var prior := existing.GetOr("");
    if prior != "" {
      assert AppendNote(existing, note) == prior + ("\n" + note);
      StartsWithAppend(prior, "\n" + note);
    } else {
      assert StartsWith(note, "");
    }
  }

  /** `Medication "${name}" taken at ${timeString}` */
  function TakenNote(name: string, timeString: string): (r: string)
    ensures StartsWith(r, "Medication \"" + name + "\"")
    ensures var tail := " taken at " + timeString; |r| >= |tail| && r[|r| - |tail|..] == tail
  {
    var head := "Medication \"" + name + "\"";
    StartsWithAppend(head, " taken at " + timeString);
    head + (" taken at " + timeString)
  }

  predicate Owns(rows: seq<MedicationRow>, userId: string, medicationId: string) {
    exists i :: 0 <= i < |rows| && rows[i].id == medicationId && rows[i].userId == userId
  }

  /** The first row with this id that belongs to the caller. */
  function FindOwned(rows: seq<MedicationRow>, userId: string, medicationId: string): (r: Option<MedicationRow>)
    ensures r.Some? <==> Owns(rows, userId, medicationId)
    ensures r.Some? ==> r.value in rows && r.value.id == medicationId && r.value.userId == userId
  {
    if rows == [] then None
    else if rows[0].id == medicationId && rows[0].userId == userId then Some(rows[0])
    else
      var r := FindOwned(rows[1..], userId, medicationId);
      assert Owns(rows, userId, medicationId) <==> Owns(rows[1..], userId, medicationId) by {
        if Owns(rows, userId, medicationId) {
          var i :| 0 <= i < |rows| && rows[i].id == medicationId && rows[i].userId == userId;
          assert rows[1..][i - 1] == rows[i];
        }
        if Owns(rows[1..], userId, medicationId) {
          var i :| 0 <= i < |rows[1..]| && rows[1..][i].id == medicationId && rows[1..][i].userId == userId;
          assert rows[i + 1] == rows[1..][i];
        }
      }
      r
  }

  /** Whether the log at `i` is the caller's for that calendar day, the key of the upsert. */
  predicate KeyedAs(log: DailyLog, userId: string, day: int) {
    log.userId == userId && log.date == day
  }

  /** The store holds at most one log per user and day: the unique key the upsert relies on. */
  predicate UniqueKeys(logs: seq<DailyLog>) {
    forall i, j :: 0 <= i < j < |logs| ==> !(logs[i].userId == logs[j].userId && logs[i].date == logs[j].date)
  }

  function FindKeyed(logs: seq<DailyLog>, userId: string, day: int): (r: Option<nat>)
    ensures r.Some? ==> r.value < |logs| && KeyedAs(logs[r.value], userId, day)
    ensures r.None? ==> forall i :: 0 <= i < |logs| ==> !KeyedAs(logs[i], userId, day)
  {
    if logs == [] then None
    else
      match FindKeyed(logs[..|logs| - 1], userId, day)
      case Some(i) => Some(i)
      case None => if KeyedAs(logs[|logs| - 1], userId, day) then Some(|logs| - 1)
        else
          assert forall i :: 0 <= i < |logs| - 1 ==> logs[..|logs| - 1][i] == logs[i];
          None
  }

  /**
   * The whole handler. `timeString` stands for `toLocaleTimeString`, `newLogId` for the id the
   * store gives a created log. The answer is the taken-at instant; the store's logs afterwards
   * come with it.
   */
  function Handle(userId: Option<string>, medicationId: Option<string>, takenAt: Option<int>, now: int,
                  rows: seq<MedicationRow>, logs: seq<DailyLog>, newLogId: string, timeString: int -> string)
    : (r: (Response<int>, seq<DailyLog>))
    ensures !TruthyString(userId) ==> r.0 == Error(401, "Unauthorized")
    ensures TruthyString(userId) && !TruthyString(medicationId) ==> r.0 == Error(400, "Medication ID is required")
    ensures TruthyString(userId) && TruthyString(medicationId) && !Owns(rows, userId.value, medicationId.value) ==>
      r.0 == Error(404, "Medication not found")
    ensures r.0.Error? ==> r.1 == logs
    ensures r.0.Ok? <==> TruthyString(userId) && TruthyString(medicationId) && Owns(rows, userId.value, medicationId.value)
    ensures r.0.Ok? ==> r.0.body == takenAt.GetOr(now)
  {
    if !TruthyString(userId) then (Unauthorized(), logs)
    else if !TruthyString(medicationId) then (Error(400, "Medication ID is required"), logs)
    else
      match FindOwned(rows, userId.value, medicationId.value)
      case None => (Error(404, "Medication not found"), logs)
      case Some(medication) =>
        var today := StartOfDay(now);
        var at := takenAt.GetOr(now);
        var note := TakenNote(medication.name, timeString(at));
        (Ok(at), Upsert(logs, userId.value, today, now, newLogId, note))
  }

  /** The upsert on (user, day) followed by the notes update. */
  function Upsert(logs: seq<DailyLog>, userId: string, today: int, now: int, newLogId: string, note: string)
    : (r: seq<DailyLog>)
    ensures FindKeyed(logs, userId, today).Some? ==> |r| == |logs|
    ensures FindKeyed(logs, userId, today).None? ==> |r| == |logs| + 1
  {
    match FindKeyed(logs, userId, today)
    case Some(i) =>
      logs[i := logs[i].(medicationTaken := Some(true), notes := Some(AppendNote(logs[i].notes, note)))]
    case None =>
      logs + [DailyLog(newLogId, userId, today, now, None, None, None, Some(true), Some(note), NO_LISTS)]
  }

  /**
   * After a successful call, the caller has exactly one log for today; it is marked taken and
   * its notes end with the new note after the earlier notes; the other logs are unchanged.
   */
  lemma HandleMarksToday(userId: Option<string>, medicationId: Option<string>, takenAt: Option<int>, now: int,
                         rows: seq<MedicationRow>, logs: seq<DailyLog>, newLogId: string, timeString: int -> string)
    requires UniqueKeys(logs)
    requires Handle(userId, medicationId, takenAt, now, rows, logs, newLogId, timeString).0.Ok?
    ensures var after := Handle(userId, medicationId, takenAt, now, rows, logs, newLogId, timeString).1;
      var today := StartOfDay(now);
      && UniqueKeys(after)
      && (exists i :: 0 <= i < |after| && KeyedAs(after[i], userId.value, today)
            && after[i].medicationTaken == Some(true) && after[i].notes.Some?
            && after[i].notes.value == AppendNote(
                 match FindKeyed(logs, userId.value, today) case Some(j) => logs[j].notes case None => None,
                 TakenNote(FindOwned(rows, userId.value, medicationId.value).value.name, timeString(takenAt.GetOr(now))))
            && StartsWith(after[i].notes.value,
                 match FindKeyed(logs, userId.value, today) case Some(j) => logs[j].notes.GetOr("") case None => ""))
      && (forall i :: 0 <= i < |logs| && !KeyedAs(logs[i], userId.value, today) ==> after[i] == logs[i])
  {
    var u := userId.value;
    var today := StartOfDay(now);
    var medication := FindOwned(rows, u, medicationId.value).value;
    var note := TakenNote(medication.name, timeString(takenAt.GetOr(now)));
    var after := Upsert(logs, u, today, now, newLogId, note);
    match FindKeyed(logs, u, today)
    case Some(j) =>
      AppendNoteKeepsPrior(logs[j].notes, note);
      assert KeyedAs(after[j], u, today);
      forall i, k | 0 <= i < k < |after|
        ensures !(after[i].userId == after[k].userId && after[i].date == after[k].date)
      {
        assert after[i].userId == logs[i].userId && after[i].date == logs[i].date;
        assert after[k].userId == logs[k].userId && after[k].date == logs[k].date;
      }
    case None =>
      var n := |logs|;
      assert KeyedAs(after[n], u, today);
      assert StartsWith(note, "");
      forall i, k | 0 <= i < k < |after|
        ensures !(after[i].userId == after[k].userId && after[i].date == after[k].date)
      {
        if k == n {
          assert !KeyedAs(logs[i], u, today);
        }
      }
  }
}
