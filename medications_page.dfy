/**
 * The medications page: the list it hands the reminder scheduler, the edits of the new
 * medication's time slots, and the checks made before the form is posted.
 */
module MedicationsPage {
  import opened Wrappers
  import opened Text
  import opened ReminderTime
  import opened ReminderService
  import opened MedicationsApi

  /** The page keeps the medications as GET returned them. */
  type Medication = MedicationView

  /** The new-medication form; every field is text, and the time slots are never fewer than one. */
  datatype NewMedicationForm = NewMedicationForm(
    name: string, dosage: string, frequency: string, reminderTimes: seq<string>, reminderDate: string)

  const EMPTY_FORM := NewMedicationForm("", "", "", [""], "")

  /** The medications `updateReminders` keeps. */
  predicate Remindable(m: Medication) {
    m.isActive && |m.reminderTimes| > 0
  }

  /**
   * The scheduler's view of a medication. `dateDay` stands for `new Date(reminderDate)`
   * read as a local calendar day.
   */
  function ToReminder(m: Medication, dateDay: string -> int): (r: Reminder)
    ensures r.id == m.id && r.name == m.name && r.dosage == m.dosage && r.reminderTimes == m.reminderTimes
    ensures r.isActive == m.isActive && r.snoozeUntil.None?
    ensures r.reminderDate.Some? <==> TruthyString(m.reminderDate)
  {
    Reminder(m.id, m.name, m.dosage, m.reminderTimes,
             if TruthyString(m.reminderDate) then Some(dateDay(m.reminderDate.value)) else None,
             m.isActive, None)
  }

  /** `updateReminders`: keep the active medications that have times, and convert each. */
  function ActiveReminders(ms: seq<Medication>, dateDay: string -> int): (r: seq<Reminder>)
    ensures |r| <= |ms|
    ensures forall i :: 0 <= i < |r| ==> r[i].isActive && |r[i].reminderTimes| > 0 && r[i].snoozeUntil.None?
  {
    if ms == [] then []
    else
      ActiveReminders(ms[..|ms| - 1], dateDay)
      + (if Remindable(ms[|ms| - 1]) then [ToReminder(ms[|ms| - 1], dateDay)] else [])
  }

  /** Every remindable medication reaches the scheduler, and only those. */
  lemma {:induction false} ActiveRemindersMembers(ms: seq<Medication>, dateDay: string -> int)
    ensures forall m :: m in ms && Remindable(m) ==> ToReminder(m, dateDay) in ActiveReminders(ms, dateDay)
    ensures forall x :: x in ActiveReminders(ms, dateDay) ==> exists m :: m in ms && Remindable(m) && x == ToReminder(m, dateDay)
  {
    if ms != [] {
      var p := ms[..|ms| - 1];
      ActiveRemindersMembers(p, dateDay);
      assert ms == p + [ms[|ms| - 1]];
      forall x | x in ActiveReminders(ms, dateDay)
        ensures exists m :: m in ms && Remindable(m) && x == ToReminder(m, dateDay)
      {
        if x in ActiveReminders(p, dateDay) {
          var m :| m in p && Remindable(m) && x == ToReminder(m, dateDay);
          assert m in ms;
        } else {
          assert x == ToReminder(ms[|ms| - 1], dateDay);
        }
      }
    }
  }

  /** The scheduler's own filter on active reminders keeps the whole list. */
  lemma {:induction false} SchedulerKeepsActiveReminders(ms: seq<Medication>, dateDay: string -> int)
    ensures ActiveOnly(ActiveReminders(ms, dateDay)) == ActiveReminders(ms, dateDay)
  {
    AllActiveKept(ActiveReminders(ms, dateDay));
  }

  lemma {:induction false} AllActiveKept(q: seq<Reminder>)
    requires forall i :: 0 <= i < |q| ==> q[i].isActive
    ensures ActiveOnly(q) == q
  {
    if q != [] {
      var p := q[..|q| - 1];
      var last := q[|q| - 1];
      forall i | 0 <= i < |p|
        ensures p[i].isActive
      {
        assert p[i] == q[i];
      }
      AllActiveKept(p);
      assert last.isActive;
      SplitLast(q);
    }
  }

  lemma SplitLast<T>(q: seq<T>)
    requires q != []
    ensures q[..|q| - 1] + [q[|q| - 1]] == q
  {
  }

  /**
   * The effect on the medication list: resync the scheduler only when the list is non-empty,
   * so deleting the last medication leaves its timers armed.
   */
  method MedicationsChanged(service: MedicationReminderService, ms: seq<Medication>, dateDay: string -> int, now: int)
    requires service.Valid()
    requires forall i :: 0 <= i < |ms| && Remindable(ms[i]) ==> WellFormed(ToReminder(ms[i], dateDay))
    modifies service
    ensures service.Valid()
    ensures |ms| == 0 ==> service.slots == old(service.slots) && service.queue == old(service.queue)
    ensures |ms| > 0 ==>
      && service.queue == ActiveReminders(ms, dateDay)
      && service.slots == ScheduleAll(map[], ActiveReminders(ms, dateDay), now)
    ensures service.notices == old(service.notices) && service.takenRequests == old(service.takenRequests)
  {
    if |ms| > 0 {
      var active := ActiveReminders(ms, dateDay);
      ActiveRemindersMembers(ms, dateDay);
      forall i | 0 <= i < |active| && active[i].isActive
        ensures WellFormed(active[i])
      {
        assert active[i] in active;
        var m :| m in ms && Remindable(m) && active[i] == ToReminder(m, dateDay);
        var j :| 0 <= j < |ms| && ms[j] == m;
      }
      SchedulerKeepsActiveReminders(ms, dateDay);
      service.UpdateMedications(active, now);
    }
  }

  /** `addReminderTime`: one more, empty, slot at the end. */
  function AddReminderTime(f: NewMedicationForm): (r: NewMedicationForm)
    ensures |r.reminderTimes| == |f.reminderTimes| + 1 && r.reminderTimes[|f.reminderTimes|] == ""
    ensures r.reminderTimes[..|f.reminderTimes|] == f.reminderTimes
    ensures r.(reminderTimes := f.reminderTimes) == f
  {
    f.(reminderTimes := f.reminderTimes + [""])
  }

  /** `filter((_, i) => i !== index)` */
  function WithoutIndex(ts: seq<string>, index: int): (r: seq<string>)
    ensures |r| <= |ts|
  {
    if ts == [] then []
    else WithoutIndex(ts[..|ts| - 1], index) + (if |ts| - 1 != index then [ts[|ts| - 1]] else [])
  }

  /** Filtering by index drops exactly that index, and nothing when it is out of range. */
  lemma {:induction false} WithoutIndexIsSplice(ts: seq<string>, index: int)
    ensures 0 <= index < |ts| ==> WithoutIndex(ts, index) == ts[..index] + ts[index + 1..]
    ensures !(0 <= index < |ts|) ==> WithoutIndex(ts, index) == ts
  {
    if ts != [] {
      var p := ts[..|ts| - 1];
      WithoutIndexIsSplice(p, index);
      if index == |ts| - 1 {
        assert ts[..index] + ts[index + 1..] == p;
      } else if 0 <= index < |p| {
        assert ts[..index] + ts[index + 1..] == p[..index] + p[index + 1..] + [ts[|ts| - 1]];
      } else {
        assert p + [ts[|ts| - 1]] == ts;
      }
    }
  }

  /** `removeReminderTime`: drop one slot, and fall back to one empty slot rather than none. */
  function RemoveReminderTime(f: NewMedicationForm, index: int): (r: NewMedicationForm)
    ensures |r.reminderTimes| >= 1
    ensures r.(reminderTimes := f.reminderTimes) == f
  {
    var newTimes := WithoutIndex(f.reminderTimes, index);
    f.(reminderTimes := if |newTimes| > 0 then newTimes else [""])
  }

  /** What removing a slot leaves, stated without the filter. */
  lemma RemoveReminderTimeResult(f: NewMedicationForm, index: int)
    ensures var r := RemoveReminderTime(f, index).reminderTimes;
      && (0 <= index < |f.reminderTimes| && |f.reminderTimes| > 1 ==>
            r == f.reminderTimes[..index] + f.reminderTimes[index + 1..])
      && (0 <= index < |f.reminderTimes| && |f.reminderTimes| == 1 ==> r == [""])
      && (!(0 <= index < |f.reminderTimes|) && |f.reminderTimes| > 0 ==> r == f.reminderTimes)
  {
    WithoutIndexIsSplice(f.reminderTimes, index);
  }

  /** Removing the slot just added gives back the form as it was. */
  lemma RemoveUndoesAdd(f: NewMedicationForm)
    requires |f.reminderTimes| > 0
    ensures RemoveReminderTime(AddReminderTime(f), |f.reminderTimes|) == f
  {
    var ts := AddReminderTime(f).reminderTimes;
    WithoutIndexIsSplice(ts, |f.reminderTimes|);
    assert ts[..|f.reminderTimes|] + ts[|f.reminderTimes| + 1..] == f.reminderTimes;
  }

  /** `updateReminderTime`: one slot replaced, the length kept. */
  function UpdateReminderTime(f: NewMedicationForm, index: int, time: string): (r: NewMedicationForm)
    requires 0 <= index < |f.reminderTimes|
    ensures |r.reminderTimes| == |f.reminderTimes| && r.reminderTimes[index] == time
    ensures forall j :: 0 <= j < |f.reminderTimes| && j != index ==> r.reminderTimes[j] == f.reminderTimes[j]
    ensures r.(reminderTimes := f.reminderTimes) == f
  {
    f.(reminderTimes := f.reminderTimes[index := time])
  }

  datatype Submission = Rejected(message: string) | Request(body: NewMedicationBody)

  /** The checks of `handleAddMedication`, and the body it posts. */
  function SubmitMedication(f: NewMedicationForm): (r: Submission)
    ensures r.Rejected? <==> Trim(f.name) == "" || NonBlank(f.reminderTimes) == []
    ensures Trim(f.name) == "" ==> r == Rejected("Medication name is required")
    ensures r.Request? ==>
      && r.body.name == Some(f.name) && r.body.reminderTimes == Some(NonBlank(f.reminderTimes))
      && r.body.dosage == Some(f.dosage) && r.body.frequency == Some(f.frequency)
      && r.body.reminderDate == Some(f.reminderDate)
  {
    if Trim(f.name) == "" then Rejected("Medication name is required")
    else
      var valid := NonBlank(f.reminderTimes);
      if valid == [] then Rejected("At least one reminder time is required")
      else Request(NewMedicationBody(Some(f.name), Some(f.dosage), Some(f.frequency), Some(valid), Some(f.reminderDate)))
  }

  /**
   * A submission the page accepts is accepted by the route for a signed-in user, and the
   * medication then reads back with exactly the non-blank times of the form.
   */
  lemma SubmittedTimesReadBack(f: NewMedicationForm, userId: string, newId: string, rows: seq<MedicationRow>)
    requires SubmitMedication(f).Request? && userId != ""
    ensures var created := Post(Some(userId), SubmitMedication(f).body, newId, rows).0;
      && created.Ok?
      && ParseStoredTimes(created.body.reminderTimes) == Some(NonBlank(f.reminderTimes))
  {
    var body := SubmitMedication(f).body;
    assert f.name != "";
    StoredTimesReadBack(body.reminderTimes);
    NonBlankIdempotent(f.reminderTimes);
  }
}
