/**
 * The medication reminder service: a table of armed timers keyed `${id}-${index}`, the queue of
 * active reminders, and the one-minute sweep. Timers are explicit: a timer holds the instant it
 * is due, and `Fire` is called by the host when that instant has come. Raised notifications are
 * appended to `notices`; "mark as taken" requests to `takenRequests`.
 */
module ReminderService {
  import opened Wrappers
  import opened Text
  import opened Clock
  import opened ReminderTime

  /** `${id}-${index}` */
  function SlotKey(id: string, index: nat): string {
    id + "-" + NatToString(index)
  }

  lemma SlotKeyShape(id: string, index: nat)
    ensures StartsWith(SlotKey(id, index), id)
    ensures '-' in SlotKey(id, index)
    ensures SlotKey(id, index)[|id| + 1..] == NatToString(index)
  {
    var k := SlotKey(id, index);
    assert k == id + ("-" + NatToString(index));
    assert k[..|id|] == id;
    assert k[|id|] == '-';
  }

  /** Distinct slots of one reminder get distinct keys. */
  lemma SlotKeyInjective(id: string, i: nat, j: nat)
    requires SlotKey(id, i) == SlotKey(id, j)
    ensures i == j
  {
    SlotKeyShape(id, i);
    SlotKeyShape(id, j);
    NatToStringInjective(i, j);
  }

  /**
   * One `setTimeout`: the instant it is due, the reminder and time its callback captured, and
   * whether it has yet to fire (a fired timeout stays in the Map until its key is cleared).
   */
  datatype Timer = Timer(fireAt: int, reminder: Reminder, time: string, pending: bool)

  /** The largest delay `setTimeout` honours: the host reads the delay as a signed 32-bit integer. */
  const MAX_TIMEOUT_MS := 2147483647
  const TIMEOUT_MODULUS := 4294967296

  /**
   * When `setTimeout(cb, next - now)` runs its callback. The host converts the delay to a signed
   * 32-bit integer (it is taken modulo 2^32, and a value above 2^31 - 1 reads as negative); a
   * negative delay runs the callback at once.
   */
  function DueAt(next: int, now: int): int {
    var d := (next - now) % TIMEOUT_MODULUS;
    if d > MAX_TIMEOUT_MS then now else now + d
  }

  /** A timer is never due after its reminder time, and is due at it within the host's limit. */
  lemma DueAtBounds(next: int, now: int)
    requires now <= next
    ensures now <= DueAt(next, now) <= next
    ensures DueAt(next, now) == next <==> next - now <= MAX_TIMEOUT_MS
  {
    var d := next - now;
    if d >= TIMEOUT_MODULUS {
      assert d % TIMEOUT_MODULUS < TIMEOUT_MODULUS <= d;
    } else {
      assert d % TIMEOUT_MODULUS == d;
    }
  }

  /** A delay of 60 days wraps to about 10.3 days: 5184000000 - 4294967296 = 889032704. */
  lemma SixtyDaysWraps(now: int)
    ensures DueAt(now + 60 * DAY_MS, now) == now + 889032704
  {
    assert 60 * DAY_MS == 5184000000;
    assert 5184000000 % TIMEOUT_MODULUS == 889032704;
  }

  /** A raised notification. */
  datatype Notice = Notice(title: string, body: string, tag: string)

  const TITLE := "\U{1F48A} Medication Reminder"
  const SNOOZE_MINUTES := 10

  /** The notification `showNotification` raises for a reminder at one of its times. */
  function NoticeFor(m: Reminder, time: string): (n: Notice)
    requires WellFormedTime(time)
  {
    var dosage := if TruthyString(m.dosage) then " (" + m.dosage.value + ")" else "";
    Notice(TITLE, "Time to take your " + m.name + dosage + " at " + FormatReminderTime(time), "medication-" + m.id)
  }

  // ---------------------------------------------------------------------------
  // The timer table as a value
  // ---------------------------------------------------------------------------

  /** The table after `clearReminder(id)`: every key that starts with `id` is gone. */
  function ClearPrefix(slots: map<string, Timer>, id: string): (r: map<string, Timer>)
    ensures forall k :: k in r <==> k in slots && !StartsWith(k, id)
    ensures forall k :: k in r ==> r[k] == slots[k]
  {
    map k | k in slots && !StartsWith(k, id) :: slots[k]
  }

  /** The timers `scheduleReminder(m)` arms for the first `n` times of `m`. */
  function Armed(m: Reminder, now: int, n: nat): map<string, Timer>
    requires WellFormed(m) && n <= |m.reminderTimes|
  {
    if n == 0 then map[]
    else
      var prev := Armed(m, now, n - 1);
      var next := SlotNext(m, n - 1, now);
      if next.None? then prev
      else prev[SlotKey(m.id, n - 1) := Timer(DueAt(next.value, now), m, m.reminderTimes[n - 1], true)]
  }

  /** The whole table after `scheduleReminder(m)`. */
  function Scheduled(slots: map<string, Timer>, m: Reminder, now: int): map<string, Timer>
    requires WellFormed(m)
  {
    if !m.isActive || |m.reminderTimes| == 0 then slots
    else ClearPrefix(slots, m.id) + Armed(m, now, |m.reminderTimes|)
  }

  /** `scheduleReminder` applied to each reminder of `q` in order. */
  function ScheduleAll(slots: map<string, Timer>, q: seq<Reminder>, now: int): map<string, Timer>
    requires forall i :: 0 <= i < |q| ==> WellFormed(q[i])
  {
    if q == [] then slots
    else Scheduled(ScheduleAll(slots, q[..|q| - 1], now), q[|q| - 1], now)
  }

  /** The sweep over `q`: a reminder is rescheduled when the table has no key equal to its id. */
  function Sweep(slots: map<string, Timer>, q: seq<Reminder>, now: int): map<string, Timer>
    requires forall i :: 0 <= i < |q| ==> WellFormed(q[i])
  {
    if q == [] then slots
    else
      var prev := Sweep(slots, q[..|q| - 1], now);
      if q[|q| - 1].id in prev then prev else Scheduled(prev, q[|q| - 1], now)
  }

  /** `medications.filter(med => med.isActive)` */
  function ActiveOnly(ms: seq<Reminder>): (r: seq<Reminder>)
    ensures forall m :: m in r <==> m in ms && m.isActive
    ensures |r| <= |ms|
  {
    if ms == [] then []
    else ActiveOnly(ms[..|ms| - 1]) + (if ms[|ms| - 1].isActive then [ms[|ms| - 1]] else [])
  }

  /** The index `find(med => med.id === id)` lands on. */
  function FindById(q: seq<Reminder>, id: string): (r: Option<nat>)
    ensures r.Some? ==> r.value < |q| && q[r.value].id == id && forall j :: 0 <= j < r.value ==> q[j].id != id
    ensures r.None? ==> forall j :: 0 <= j < |q| ==> q[j].id != id
  {
    if q == [] then None
    else if q[0].id == id then Some(0)
    else match FindById(q[1..], id)
      case None => None
      case Some(j) => Some(j + 1)
  }

  // ---------------------------------------------------------------------------
  // Facts about the table
  // ---------------------------------------------------------------------------

  lemma ArmedSlots(m: Reminder, now: int, n: nat)
    requires WellFormed(m) && n <= |m.reminderTimes|
    ensures forall k :: k in Armed(m, now, n) ==>
      exists i :: 0 <= i < n && SlotNext(m, i, now).Some? && k == SlotKey(m.id, i)
    ensures forall i :: 0 <= i < n ==>
      (SlotKey(m.id, i) in Armed(m, now, n) <==> SlotNext(m, i, now).Some?)
    ensures forall i :: 0 <= i < n && SlotNext(m, i, now).Some? ==>
      Armed(m, now, n)[SlotKey(m.id, i)] == Timer(DueAt(SlotNext(m, i, now).value, now), m, m.reminderTimes[i], true)
  {
    ArmedKeys(m, now, n);
    ArmedTimers(m, now, n);
  }

  lemma {:induction false} ArmedKeys(m: Reminder, now: int, n: nat)
    requires WellFormed(m) && n <= |m.reminderTimes|
    ensures forall k :: k in Armed(m, now, n) ==>
      exists i :: 0 <= i < n && SlotNext(m, i, now).Some? && k == SlotKey(m.id, i)
  {
    if n > 0 {
      ArmedKeys(m, now, n - 1);
      forall k | k in Armed(m, now, n)
        ensures exists i :: 0 <= i < n && SlotNext(m, i, now).Some? && k == SlotKey(m.id, i)
      {
        if k !in Armed(m, now, n - 1) {
          assert SlotNext(m, n - 1, now).Some? && k == SlotKey(m.id, n - 1);
        }
      }
    }
  }

  lemma EarlierSlotKey(id: string, i: nat, n: nat)
    requires i < n
    ensures SlotKey(id, i) != SlotKey(id, n)
  {
    if SlotKey(id, i) == SlotKey(id, n) {
      SlotKeyInjective(id, i, n);
    }
  }

  lemma ArmedTimers(m: Reminder, now: int, n: nat)
    requires WellFormed(m) && n <= |m.reminderTimes|
    ensures forall i :: 0 <= i < n ==>
      (SlotKey(m.id, i) in Armed(m, now, n) <==> SlotNext(m, i, now).Some?)
    ensures forall i :: 0 <= i < n && SlotNext(m, i, now).Some? ==>
      Armed(m, now, n)[SlotKey(m.id, i)] == Timer(DueAt(SlotNext(m, i, now).value, now), m, m.reminderTimes[i], true)
  {
    forall i | 0 <= i < n
      ensures SlotKey(m.id, i) in Armed(m, now, n) <==> SlotNext(m, i, now).Some?
      ensures SlotNext(m, i, now).Some? ==>
        Armed(m, now, n)[SlotKey(m.id, i)] == Timer(DueAt(SlotNext(m, i, now).value, now), m, m.reminderTimes[i], true)
    {
      ArmedAt(m, now, n, i);
    }
  }

  /** Slot `i` of `m` holds a timer in `table` exactly when it has a next instant, and that timer. */
  predicate SlotArmed(table: map<string, Timer>, m: Reminder, i: nat, now: int)
    requires WellFormed(m) && i < |m.reminderTimes|
  {
    && (SlotKey(m.id, i) in table <==> SlotNext(m, i, now).Some?)
    && (SlotNext(m, i, now).Some? ==>
          table[SlotKey(m.id, i)] == Timer(DueAt(SlotNext(m, i, now).value, now), m, m.reminderTimes[i], true))
  }

  /** The timer of slot `i` once the first `n` slots are armed. */
  lemma {:induction false} ArmedAt(m: Reminder, now: int, n: nat, i: nat)
    requires WellFormed(m) && i < n <= |m.reminderTimes|
    ensures SlotArmed(Armed(m, now, n), m, i, now)
  {
    if i == n - 1 {
      ArmedLast(m, now, n);
    } else {
      ArmedAt(m, now, n - 1, i);
      ArmedEarlier(m, now, n, i);
    }
  }

  /** A slot armed before the last keeps the timer it had. */
  lemma ArmedEarlier(m: Reminder, now: int, n: nat, i: nat)
    requires WellFormed(m) && i < n - 1 && n <= |m.reminderTimes|
    requires SlotArmed(Armed(m, now, n - 1), m, i, now)
    ensures SlotArmed(Armed(m, now, n), m, i, now)
  {
    EarlierSlotKey(m.id, i, n - 1);
    ArmedFrame(m, now, n, SlotKey(m.id, i));
    SlotArmedTransfer(Armed(m, now, n - 1), Armed(m, now, n), m, i, now);
  }

  /** Whether a slot is armed depends only on the table's entry for its key. */
  lemma SlotArmedTransfer(a: map<string, Timer>, b: map<string, Timer>, m: Reminder, i: nat, now: int)
    requires WellFormed(m) && i < |m.reminderTimes| && SlotArmed(a, m, i, now)
    requires SlotKey(m.id, i) in b <==> SlotKey(m.id, i) in a
    requires SlotKey(m.id, i) in a ==> b[SlotKey(m.id, i)] == a[SlotKey(m.id, i)]
    ensures SlotArmed(b, m, i, now)
  {
  }

  /** The slot armed last has the timer of its next instant, if it has one. */
  lemma ArmedLast(m: Reminder, now: int, n: nat)
    requires WellFormed(m) && 0 < n <= |m.reminderTimes|
    ensures SlotArmed(Armed(m, now, n), m, n - 1, now)
  {
    ArmedKeyAbsent(m, now, n - 1, n - 1);
  }

  /** Arming slot `n - 1` leaves every other key as it was. */
  lemma ArmedFrame(m: Reminder, now: int, n: nat, k: string)
    requires WellFormed(m) && 0 < n <= |m.reminderTimes| && k != SlotKey(m.id, n - 1)
    ensures k in Armed(m, now, n) <==> k in Armed(m, now, n - 1)
    ensures k in Armed(m, now, n - 1) ==> Armed(m, now, n)[k] == Armed(m, now, n - 1)[k]
  {
  }

  /** No slot from index `n` on has a timer before it is armed. */
  lemma {:induction false} ArmedKeyAbsent(m: Reminder, now: int, n: nat, j: nat)
    requires WellFormed(m) && n <= j && n <= |m.reminderTimes|
    ensures SlotKey(m.id, j) !in Armed(m, now, n)
  {
    if n > 0 {
      ArmedKeyAbsent(m, now, n - 1, j);
      EarlierSlotKey(m.id, n - 1, j);
    }
  }

  lemma ArmedKeysStartWithId(m: Reminder, now: int)
    requires WellFormed(m)
    ensures forall k :: k in Armed(m, now, |m.reminderTimes|) ==> StartsWith(k, m.id) && '-' in k
  {
    ArmedSlots(m, now, |m.reminderTimes|);
    forall k | k in Armed(m, now, |m.reminderTimes|)
      ensures StartsWith(k, m.id) && '-' in k
    {
      var i :| 0 <= i < |m.reminderTimes| && SlotNext(m, i, now).Some? && k == SlotKey(m.id, i);
      SlotKeyShape(m.id, i);
    }
  }

  /**
   * What `scheduleReminder(m)` leaves in the table. For an inactive reminder or one without
   * times, nothing changes, not even its existing timers. Otherwise the keys starting with `m.id`
   * are exactly `${m.id}-${i}` for the slots whose next time exists, each due at that time and
   * pending, and every key that does not start with `m.id` keeps its timer.
   */
  lemma ScheduledSlots(slots: map<string, Timer>, m: Reminder, now: int)
    requires WellFormed(m)
    ensures !m.isActive || |m.reminderTimes| == 0 ==> Scheduled(slots, m, now) == slots
    ensures m.isActive && |m.reminderTimes| > 0 ==>
      var r := Scheduled(slots, m, now);
      && (forall k :: k in r && StartsWith(k, m.id) ==>
            exists i :: 0 <= i < |m.reminderTimes| && SlotNext(m, i, now).Some? && k == SlotKey(m.id, i))
      && (forall i :: 0 <= i < |m.reminderTimes| ==> (SlotKey(m.id, i) in r <==> SlotNext(m, i, now).Some?))
      && (forall i :: 0 <= i < |m.reminderTimes| && SlotNext(m, i, now).Some? ==>
            r[SlotKey(m.id, i)] == Timer(DueAt(SlotNext(m, i, now).value, now), m, m.reminderTimes[i], true))
      && (forall k :: !StartsWith(k, m.id) ==> (k in r <==> k in slots) && (k in r ==> r[k] == slots[k]))
  {
    if m.isActive && |m.reminderTimes| > 0 {
      ArmedSlots(m, now, |m.reminderTimes|);
      ArmedKeysStartWithId(m, now);
      forall i | 0 <= i < |m.reminderTimes|
        ensures SlotKey(m.id, i) !in ClearPrefix(slots, m.id)
      {
        SlotKeyShape(m.id, i);
      }
    }
  }

  /**
   * Prefix clearing reaches other reminders: clearing "a" also cancels the timers of a
   * reminder whose id is "ab".
   */
  lemma ClearingIsByPrefix(slots: map<string, Timer>)
    requires SlotKey("ab", 0) in slots
    ensures SlotKey("ab", 0) !in ClearPrefix(slots, "a")
  {
    SlotKeyShape("ab", 0);
    assert SlotKey("ab", 0)[..1] == "a";
  }

  lemma UnionUpdate<K, V>(a: map<K, V>, b: map<K, V>, k: K, v: V)
    ensures (a + b)[k := v] == a + b[k := v]
  {
  }

  /** The timer under `k` belongs to slot `i` of an active reminder, and `k` is that slot's key. */
  ghost predicate SlotOf(k: string, t: Timer) {
    && WellFormed(t.reminder) && t.reminder.isActive
    && exists i :: 0 <= i < |t.reminder.reminderTimes| && k == SlotKey(t.reminder.id, i) && t.time == t.reminder.reminderTimes[i]
  }

  ghost predicate TableInvariant(slots: map<string, Timer>) {
    forall k :: k in slots ==> SlotOf(k, slots[k])
  }

  lemma CollectStep(visited: set<string>, key: string, id: string)
    ensures (set k | k in visited + {key} && StartsWith(k, id)) ==
      (set k | k in visited && StartsWith(k, id)) + (if StartsWith(key, id) then {key} else {})
  {
  }

  /** Removing the collected keys is clearing by prefix. */
  lemma DeleteCollected(slots: map<string, Timer>, id: string, keys: set<string>)
    requires keys == set k | k in slots && StartsWith(k, id)
    ensures slots - keys == ClearPrefix(slots, id)
  {
  }

  /** Arming slot `i` of an active reminder keeps every timer tied to its slot. */
  lemma ArmKeepsInvariant(slots: map<string, Timer>, m: Reminder, i: nat, t: Timer)
    requires TableInvariant(slots) && WellFormed(m) && m.isActive && i < |m.reminderTimes|
    requires t.reminder == m && t.time == m.reminderTimes[i]
    ensures TableInvariant(slots[SlotKey(m.id, i) := t])
  {
    assert SlotOf(SlotKey(m.id, i), t);
  }

  lemma ClearPrefixKeepsInvariant(slots: map<string, Timer>, id: string)
    requires TableInvariant(slots)
    ensures TableInvariant(ClearPrefix(slots, id))
  {
  }

  /**
   * A daily reminder keeps firing: right after its timer fires and `scheduleReminder` runs
   * again, the same key holds a pending timer due within the next day.
   */
  lemma DailyFireRearms(slots: map<string, Timer>, key: string, now: int)
    requires TableInvariant(slots) && key in slots
    requires slots[key].reminder.reminderDate.None? && !SnoozeActive(slots[key].reminder.snoozeUntil, now)
    ensures var t := slots[key];
      var r := Scheduled(slots[key := t.(pending := false)], t.reminder, now);
      key in r && r[key].pending && now < r[key].fireAt <= now + DAY_MS && r[key].time == t.time
  {
    var t := slots[key];
    var i :| 0 <= i < |t.reminder.reminderTimes| && key == SlotKey(t.reminder.id, i) && t.time == t.reminder.reminderTimes[i];
    RecurringIsNextOccurrence(t.time, t.reminder.snoozeUntil, now);
    DueAtBounds(SlotNext(t.reminder, i, now).value, now);
    ScheduledSlots(slots[key := t.(pending := false)], t.reminder, now);
  }

  /** A one-off slot whose date and time have passed is never armed again. */
  lemma PastOneOffNotRearmed(slots: map<string, Timer>, m: Reminder, i: nat, now: int)
    requires WellFormed(m) && m.isActive && i < |m.reminderTimes| && m.reminderDate.Some?
    requires Occurrence(m.reminderDate.value, TimeOfDay(m.reminderTimes[i])) <= now
    ensures SlotKey(m.id, i) !in Scheduled(slots, m, now)
  {
    DatedReminderTime(m.reminderTimes[i], m.reminderDate.value, m.snoozeUntil, now);
    ScheduledSlots(slots, m, now);
  }

  /**
   * A slot whose delay, taken modulo 2^32, exceeds the host's timer limit is armed with a timer
   * due at once; its callback does not re-arm a one-off reminder, so the next sweep arms it
   * again, and it is due at once while the delay stays in that band.
   */
  lemma FarSlotDueAtOnce(slots: map<string, Timer>, m: Reminder, i: nat, now: int)
    requires WellFormed(m) && m.isActive && i < |m.reminderTimes|
    requires SlotNext(m, i, now).Some? && (SlotNext(m, i, now).value - now) % TIMEOUT_MODULUS > MAX_TIMEOUT_MS
    ensures var r := Scheduled(slots, m, now);
      SlotKey(m.id, i) in r && r[SlotKey(m.id, i)].pending && r[SlotKey(m.id, i)].fireAt == now
  {
    ScheduledSlots(slots, m, now);
  }

  /**
   * A slot 2^32 ms or more ahead whose delay wraps to within the limit is armed with a timer due
   * the wrapped delay from now, strictly before its reminder time.
   */
  lemma FarSlotWraps(slots: map<string, Timer>, m: Reminder, i: nat, now: int)
    requires WellFormed(m) && m.isActive && i < |m.reminderTimes|
    requires SlotNext(m, i, now).Some? && SlotNext(m, i, now).value - now >= TIMEOUT_MODULUS
    requires (SlotNext(m, i, now).value - now) % TIMEOUT_MODULUS <= MAX_TIMEOUT_MS
    ensures var r := Scheduled(slots, m, now); var next := SlotNext(m, i, now).value;
      && SlotKey(m.id, i) in r && r[SlotKey(m.id, i)].pending
      && r[SlotKey(m.id, i)].fireAt == now + (next - now) % TIMEOUT_MODULUS
      && now <= r[SlotKey(m.id, i)].fireAt < next
  {
    ScheduledSlots(slots, m, now);
    var next := SlotNext(m, i, now).value;
    assert (next - now) % TIMEOUT_MODULUS < TIMEOUT_MODULUS <= next - now;
  }

  predicate KeysHaveDash(slots: map<string, Timer>) {
    forall k :: k in slots ==> '-' in k
  }

  predicate AllWellFormed(q: seq<Reminder>) {
    forall i :: 0 <= i < |q| ==> WellFormed(q[i])
  }

  lemma ScheduledKeepsDash(slots: map<string, Timer>, m: Reminder, now: int)
    requires WellFormed(m) && KeysHaveDash(slots)
    ensures KeysHaveDash(Scheduled(slots, m, now))
  {
    ArmedKeysStartWithId(m, now);
  }

  /**
   * The sweep tests `has(medication.id)` while keys are `${id}-${index}`: when no reminder id
   * contains '-', no id is ever a key, so every tick reschedules every queued reminder.
   */
  lemma {:induction false} SweepReschedulesAll(slots: map<string, Timer>, q: seq<Reminder>, now: int)
    requires AllWellFormed(q) && KeysHaveDash(slots)
    requires forall i :: 0 <= i < |q| ==> '-' !in q[i].id
    ensures Sweep(slots, q, now) == ScheduleAll(slots, q, now)
    ensures KeysHaveDash(ScheduleAll(slots, q, now))
  {
    if q != [] {
      var p := q[..|q| - 1];
      SweepReschedulesAll(slots, p, now);
      ScheduledKeepsDash(ScheduleAll(slots, p, now), q[|q| - 1], now);
    }
  }

  /**
   * After a snooze, every slot of the reminder is due at the snooze instant, unless the
   * reminder is a one-off whose date and time have passed.
   */
  lemma SnoozedSlots(slots: map<string, Timer>, m: Reminder, now: int, i: nat)
    requires WellFormed(m) && m.isActive && i < |m.reminderTimes|
    requires SnoozeActive(m.snoozeUntil, now)
    requires m.reminderDate.Some? ==> Occurrence(m.reminderDate.value, TimeOfDay(m.reminderTimes[i])) > now
    ensures SlotKey(m.id, i) in Scheduled(slots, m, now)
    ensures Scheduled(slots, m, now)[SlotKey(m.id, i)].fireAt == DueAt(m.snoozeUntil.value, now)
    ensures m.snoozeUntil.value - now <= MAX_TIMEOUT_MS ==>
      Scheduled(slots, m, now)[SlotKey(m.id, i)].fireAt == m.snoozeUntil.value
  {
    SnoozeOverrides(m.reminderTimes[i], m.reminderDate, m.snoozeUntil, now);
    DueAtBounds(m.snoozeUntil.value, now);
    ScheduledSlots(slots, m, now);
  }

  ghost predicate IsEarliestNext(m: Reminder, now: int, r: Option<int>)
    requires WellFormed(m)
  {
    && (r.None? <==> forall i :: 0 <= i < |m.reminderTimes| ==> SlotNext(m, i, now).None?)
    && (r.Some? ==> exists i :: 0 <= i < |m.reminderTimes| && SlotNext(m, i, now) == r)
    && (r.Some? ==> forall i :: 0 <= i < |m.reminderTimes| && SlotNext(m, i, now).Some? ==> r.value <= SlotNext(m, i, now).value)
  }

  // ---------------------------------------------------------------------------
  // The service object
  // ---------------------------------------------------------------------------

  class MedicationReminderService {
    var slots: map<string, Timer>
    var queue: seq<Reminder>
    var notices: seq<Notice>
    var takenRequests: seq<(string, int)>  // (medicationId, takenAt) posted to mark-taken
    var permissionGranted: bool

    ghost predicate Valid()
      reads this
    {
      AllWellFormed(queue) && TableInvariant(slots)
    }

    constructor (permissionGranted: bool)
      ensures Valid()
      ensures slots == map[] && queue == [] && notices == [] && takenRequests == []
      ensures this.permissionGranted == permissionGranted
    {
      slots := map[];
      queue := [];
      notices := [];
      takenRequests := [];
      this.permissionGranted := permissionGranted;
    }

    /** The host's notification permission changed. */
    method SetPermission(granted: bool)
      modifies this
      ensures permissionGranted == granted
      ensures slots == old(slots) && queue == old(queue) && notices == old(notices) && takenRequests == old(takenRequests)
    {
      permissionGranted := granted;
    }

    /** `clearReminder`: collects the keys starting with `id`, then deletes them. */
    method ClearReminder(id: string)
      requires Valid()
      modifies this
      ensures Valid()
      ensures slots == ClearPrefix(old(slots), id)
      ensures queue == old(queue) && notices == old(notices) && takenRequests == old(takenRequests)
      ensures permissionGranted == old(permissionGranted)
    {
      var keysToDelete := KeysStartingWith(id);
      DeleteCollected(slots, id, keysToDelete);
      ClearPrefixKeepsInvariant(slots, id);
      slots := slots - keysToDelete;
    }

    /** The `forEach` over the table that collects `keysToDelete`. */
    method KeysStartingWith(id: string) returns (keysToDelete: set<string>)
      ensures keysToDelete == set k | k in slots && StartsWith(k, id)
    {
      keysToDelete := {};
      var unvisited := slots.Keys;
      ghost var visited: set<string> := {};
      while unvisited != {}
        invariant visited + unvisited == slots.Keys && visited !! unvisited
        invariant keysToDelete == set k | k in visited && StartsWith(k, id)
        decreases |unvisited|
      {
        var key :| key in unvisited;
        CollectStep(visited, key, id);
        if StartsWith(key, id) {
          keysToDelete := keysToDelete + {key};
        }
        visited := visited + {key};
        unvisited := unvisited - {key};
      }
    }

    /** `clearAllReminders` */
    method ClearAllReminders()
      modifies this
      ensures slots == map[]
      ensures queue == old(queue) && notices == old(notices) && takenRequests == old(takenRequests)
      ensures permissionGranted == old(permissionGranted)
    {
      slots := map[];
    }

    /** `scheduleReminder` */
    method ScheduleReminder(m: Reminder, now: int)
      requires Valid() && WellFormed(m)
      modifies this
      ensures Valid()
      ensures slots == Scheduled(old(slots), m, now)
      ensures queue == old(queue) && notices == old(notices) && takenRequests == old(takenRequests)
      ensures permissionGranted == old(permissionGranted)
    {
      if !m.isActive || |m.reminderTimes| == 0 {
        return;
      }
      ClearReminder(m.id);
      ArmAll(m, now);
    }

    /** The `forEach` over the reminder's times, run on the cleared table. */
    method ArmAll(m: Reminder, now: int)
      requires Valid() && WellFormed(m) && m.isActive
      modifies this
      ensures Valid() && slots == old(slots) + Armed(m, now, |m.reminderTimes|)
      ensures queue == old(queue) && notices == old(notices) && takenRequests == old(takenRequests)
      ensures permissionGranted == old(permissionGranted)
    {
      ghost var cleared := slots;
      assert cleared + Armed(m, now, 0) == cleared;
      var i := 0;
      while i < |m.reminderTimes|
        invariant 0 <= i <= |m.reminderTimes|
        invariant slots == cleared + Armed(m, now, i)
        invariant Valid()
        invariant queue == old(queue) && notices == old(notices) && takenRequests == old(takenRequests)
        invariant permissionGranted == old(permissionGranted)
      {
        ArmSlot(m, i, now, cleared);
        i := i + 1;
      }
    }

    /** One turn of the `forEach` over the reminder's times: arm slot `i` if it has a next time. */
    method ArmSlot(m: Reminder, i: nat, now: int, ghost cleared: map<string, Timer>)
      requires Valid() && WellFormed(m) && m.isActive && i < |m.reminderTimes|
      requires slots == cleared + Armed(m, now, i)
      modifies this
      ensures Valid() && slots == cleared + Armed(m, now, i + 1)
      ensures queue == old(queue) && notices == old(notices) && takenRequests == old(takenRequests)
      ensures permissionGranted == old(permissionGranted)
    {
      var next := SlotNext(m, i, now);
      if next.Some? {
        var t := Timer(DueAt(next.value, now), m, m.reminderTimes[i], true);
        UnionUpdate(cleared, Armed(m, now, i), SlotKey(m.id, i), t);
        ArmKeepsInvariant(slots, m, i, t);
        slots := slots[SlotKey(m.id, i) := t];
      }
    }

    /** `showNotification`: a no-op without permission. */
    method ShowNotification(m: Reminder, time: string)
      requires WellFormedTime(time)
      modifies this
      ensures notices == old(notices) + (if permissionGranted then [NoticeFor(m, time)] else [])
      ensures slots == old(slots) && queue == old(queue) && takenRequests == old(takenRequests)
      ensures permissionGranted == old(permissionGranted)
    {
      if permissionGranted {
        notices := notices + [NoticeFor(m, time)];
      }
    }

    /**
     * The callback of the timer under `key`, run once its instant has come: notify, then
     * reschedule the reminder if it is a daily one. The spent timeout stays in the table.
     */
    method Fire(key: string, now: int)
      requires Valid() && key in slots && slots[key].pending && slots[key].fireAt <= now
      modifies this
      ensures Valid()
      ensures var t := old(slots)[key];
        && notices == old(notices) + (if permissionGranted then [NoticeFor(t.reminder, t.time)] else [])
        && slots == (if t.reminder.reminderDate.None?
                     then Scheduled(old(slots)[key := t.(pending := false)], t.reminder, now)
                     else old(slots)[key := t.(pending := false)])
      ensures queue == old(queue) && takenRequests == old(takenRequests)
      ensures permissionGranted == old(permissionGranted)
    {
      var t := slots[key];
      slots := slots[key := t.(pending := false)];
      assert SlotOf(key, t.(pending := false)) by { assert SlotOf(key, t); }
      ShowNotification(t.reminder, t.time);
      if t.reminder.reminderDate.None? {
        ScheduleReminder(t.reminder, now);
      }
    }

    /** `snoozeMedication`: the first queued reminder with this id is snoozed and rescheduled. */
    method SnoozeMedication(id: string, minutes: int, now: int)
      requires Valid()
      modifies this
      ensures Valid()
      ensures match FindById(old(queue), id)
        case None => queue == old(queue) && slots == old(slots)
        case Some(k) =>
          var snoozed := old(queue)[k].(snoozeUntil := Some(now + minutes * MINUTE_MS));
          queue == old(queue)[k := snoozed] && slots == Scheduled(old(slots), snoozed, now)
      ensures notices == old(notices) && takenRequests == old(takenRequests)
      ensures permissionGranted == old(permissionGranted)
    {
      var found := FindById(queue, id);
      if found.Some? {
        var k := found.value;
        var snoozed := queue[k].(snoozeUntil := Some(now + minutes * MINUTE_MS));
        queue := queue[k := snoozed];
        ScheduleReminder(snoozed, now);
      }
    }

    /** `handleNotificationAction` */
    method HandleNotificationAction(action: string, medicationId: string, now: int)
      requires Valid()
      modifies this
      ensures Valid()
      ensures action == "taken" ==>
        takenRequests == old(takenRequests) + [(medicationId, now)] && slots == old(slots) && queue == old(queue)
      ensures action == "snooze" ==> takenRequests == old(takenRequests)
      ensures action == "snooze" ==> match FindById(old(queue), medicationId)
        case None => queue == old(queue) && slots == old(slots)
        case Some(k) =>
          var snoozed := old(queue)[k].(snoozeUntil := Some(now + SNOOZE_MINUTES * MINUTE_MS));
          queue == old(queue)[k := snoozed] && slots == Scheduled(old(slots), snoozed, now)
      ensures action != "taken" && action != "snooze" ==>
        takenRequests == old(takenRequests) && slots == old(slots) && queue == old(queue)
      ensures notices == old(notices) && permissionGranted == old(permissionGranted)
    {
      if action == "taken" {
        takenRequests := takenRequests + [(medicationId, now)];
      } else if action == "snooze" {
        SnoozeMedication(medicationId, SNOOZE_MINUTES, now);
      }
    }

    /** `updateMedications`: clear every timer, queue the active reminders, schedule each. */
    method UpdateMedications(ms: seq<Reminder>, now: int)
      requires Valid()
      requires forall i :: 0 <= i < |ms| && ms[i].isActive ==> WellFormed(ms[i])
      modifies this
      ensures Valid()
      ensures queue == ActiveOnly(ms)
      ensures slots == ScheduleAll(map[], ActiveOnly(ms), now)
      ensures notices == old(notices) && takenRequests == old(takenRequests)
      ensures permissionGranted == old(permissionGranted)
    {
      ClearAllReminders();
      queue := ActiveOnly(ms);
      var i := 0;
      while i < |queue|
        invariant 0 <= i <= |queue|
        invariant Valid() && queue == ActiveOnly(ms)
        invariant slots == ScheduleAll(map[], queue[..i], now)
        invariant notices == old(notices) && takenRequests == old(takenRequests)
        invariant permissionGranted == old(permissionGranted)
      {
        assert queue[..i + 1][..i] == queue[..i];
        ScheduleReminder(queue[i], now);
        i := i + 1;
      }
      assert queue[..i] == queue;
    }

    /** One run of the one-minute reconciliation sweep. */
    method Tick(now: int)
      requires Valid()
      modifies this
      ensures Valid()
      ensures slots == Sweep(old(slots), queue, now)
      ensures queue == old(queue) && notices == old(notices) && takenRequests == old(takenRequests)
      ensures permissionGranted == old(permissionGranted)
    {
      var i := 0;
      while i < |queue|
        invariant 0 <= i <= |queue|
        invariant Valid()
        invariant slots == Sweep(old(slots), queue[..i], now)
        invariant queue == old(queue) && notices == old(notices) && takenRequests == old(takenRequests)
        invariant permissionGranted == old(permissionGranted)
      {
        assert queue[..i + 1][..i] == queue[..i];
        if queue[i].id !in slots {
          ScheduleReminder(queue[i], now);
        }
        i := i + 1;
      }
      assert queue[..i] == queue;
    }

    /** `getNextReminderTime`: the earliest next time over the reminder's slots. */
    method GetNextReminderTime(m: Reminder, now: int) returns (earliest: Option<int>)
      requires WellFormed(m)
      ensures IsEarliestNext(m, now, earliest)
      ensures earliest.Some? ==> earliest.value > now
    {
      earliest := None;
      var i := 0;
      while i < |m.reminderTimes|
        invariant 0 <= i <= |m.reminderTimes|
        invariant earliest.None? <==> forall j :: 0 <= j < i ==> SlotNext(m, j, now).None?
        invariant earliest.Some? ==> exists j :: 0 <= j < i && SlotNext(m, j, now) == earliest
        invariant earliest.Some? ==> forall j :: 0 <= j < i && SlotNext(m, j, now).Some? ==> earliest.value <= SlotNext(m, j, now).value
      {
        var next := SlotNext(m, i, now);
        if next.Some? && (earliest.None? || next.value < earliest.value) {
          earliest := next;
        }
        assert SlotNext(m, i, now) == next;
        i := i + 1;
      }
    }
  }

  /** `getTimeUntilReminder`: the countdown to the earliest next time of the reminder. */
  method GetTimeUntilReminder(service: MedicationReminderService, m: Reminder, now: int) returns (text: string)
    requires WellFormed(m)
    ensures exists r :: IsEarliestNext(m, now, r) && text == CountdownText(CountdownOf(r, now))
    ensures text == "" <==> forall i :: 0 <= i < |m.reminderTimes| ==> SlotNext(m, i, now).None?
    ensures text != "Now"
  {
    var next := service.GetNextReminderTime(m, now);
    var c := CountdownOf(next, now);
    text := CountdownText(c);
    if c.In? {
      assert text[..3] == "in ";
    }
  }
}
