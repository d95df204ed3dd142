# Teen mental health app: a verified model of its core logic

This project models the deterministic core of a Next.js app for teenagers, and proves properties of
that model. The app lets a teenager log a daily check-in, keep a list of medications with reminders,
chat with a support companion, and view weekly and progress summaries. The model covers four groups:

- **Medication reminders.**
  - The reminder service keeps a table of armed timers keyed `${id}-${index}` and a queue of active
    reminders. It schedules them, clears them by id prefix, snoozes them and runs the one-minute sweep.
    Its pure time arithmetic is modelled too: the next due time, the earliest time over a medication's
    slots, the countdown text and the 12-hour display.
  - The medications page edits the time slots, checks a new medication and feeds the scheduler.
  - The medications API stores `reminderTimes` as JSON text without blank entries.
  - The mark-taken route marks today's log and appends a note.
- **Chat streaming.**
  - The chat route picks or creates the session, sends a 10-message window upstream and relays the
    upstream event stream line by line. It accumulates the reply and saves it once, on `[DONE]`.
  - The chat screen consumes the relayed frames with the same line framing. It grows a placeholder
    message and takes up the session id.
- **Check-in aggregates.**
  - The weekly report gives averages, trends, day counts, the top three emotions and insights.
  - The progress page gives a streak in which today is exempt, averages, adherence and feedback on
    the weakest metric.
  - The dashboard gives today's log, a streak that ends at the first day without a log, and the
    average mood of the last 30 logs.
- **Validation and small state.**
  - The daily-log route converts arrays to and from JSON, updates or creates today's log, and pages
    through the logs.
  - The signup route checks the body in a fixed order and fills in defaults.
  - The signup form is a three-step form with an editable medication list.

Each source file has one Dafny module. Shared pieces have modules of their own:

| module | holds |
|---|---|
| `Wrappers` | the optional value type |
| `Text` | prefixes, decimal numerals, `trim` and the blank filter |
| `Json` | `JSON.stringify` and `JSON.parse` for arrays of strings |
| `Clock` | millisecond instants and days |
| `Http` | the shape of a route's answer |
| `DailyLogs` | the stored log record |
| `CheckinStats` | the aggregates the three report routes share |
| `LineFramer` | the line splitting shared by both ends of the chat stream |

Mutable objects are classes:

- `ReminderService.MedicationReminderService` holds the timer table, the queue, the raised
  notifications and the mark-taken requests.
- `ChatRoute.ChatRelay` holds the relay's buffer, accumulator, emitted frames and saved replies.
- `ChatClient.ChatScreen` holds the screen's messages, the session id and the locals of the reading
  loop.

The loops the source writes are methods with invariants, each proved against a specification
function: the streak loops, `clearReminder`'s collection, the scheduling `forEach`, the sweep,
`getNextReminderTime`, emotion counting, `generateInsights`, and both ends' reading loops over a chunk's lines
(`ChatRoute.ChatRelay.Receive` and `ChatClient.ChatScreen.Receive`). Everything else is a function.

Time is integer milliseconds in UTC, and days have a fixed length. The clock reading, new ids, the
password hash, the localized time string and the upstream JSON decoding are all parameters.

## Model

| member | source | states |
|---|---|---|
| Wrappers.OrNull | app/app/api/signup/route.ts:68 | `s \|\| null`: exactly the truthy strings survive, unchanged |
| Http.Unauthorized | app/app/api/dashboard/route.ts:13-15 | the answer with no session user is an error with status 401 |
| Clock.StartOfDay | app/app/api/dashboard/route.ts:17-18 | midnight of the instant's day: at or before it, less than a day before, a multiple of the day length |
| Clock.DayOfWeek | app/app/api/weekly-report/route.ts:19 | `getDay()` lies in 0..6 |
| Text.StartsWithAppend | app/lib/medication-reminders.ts:130 | a text starts with any prefix it was built from |
| Text.DigitChar | app/lib/medication-reminders.ts:362 | `toString()` writes a digit whose value is the number |
| Text.NatToString | app/lib/medication-reminders.ts:113 | `n.toString()` is a non-empty decimal numeral denoting n, without a leading zero, one digit exactly when n < 10 |
| Text.NatToStringInjective | app/lib/medication-reminders.ts:113 | distinct slot indexes render as distinct numerals |
| Text.Pad2 | app/lib/medication-reminders.ts:362 | `padStart(2, '0')` denotes the same number and has two digits below 100 |
| Text.TrimStart | app/components/auth/signup-form.tsx:61 | removing leading whitespace never lengthens the text |
| Text.TrimEnd | app/app/api/chat/route.ts:124 | removing trailing whitespace never lengthens the text |
| Text.TrimStartSpec | app/components/auth/signup-form.tsx:61 | the result is a suffix that drops only whitespace and starts with a non-blank character, or nothing is left |
| Text.TrimEndSpec | app/app/api/chat/route.ts:124 | the result is a prefix that drops only whitespace and ends with a non-blank character, or nothing is left |
| Text.TrimEmptyIffBlank | app/app/medications/page.tsx:140 | `trim()` is empty exactly for text made only of whitespace |
| Text.ConcatAppend | app/components/chat/chat-interface.tsx:133 | concatenating two runs of deltas is concatenating their texts |
| Text.NonBlank | app/app/api/medications/route.ts:66 | filtering out blank times never lengthens the list |
| Text.NonBlankMembers | app/app/api/medications/route.ts:66 | a time survives the filter exactly when it is in the input and not blank |
| Text.NonBlankIdempotent | app/app/medications/page.tsx:146 | the route's filter keeps everything the page's filter kept |
| Text.Utf16Prefix | app/app/api/chat/route.ts:33 | the whole characters `substring(0, n)` keeps: a prefix of at most n code units that no further character fits |
| Text.BmpUnits | app/app/api/chat/route.ts:33 | without characters above U+FFFF, `length` is the character count and the cut is at the n-th character |
| Text.AstralUnits | app/app/api/chat/route.ts:33 | with only characters above U+FFFF, `length` is twice the character count and the cut keeps n/2 characters |
| Json.ShortEscape | app/app/api/daily-log/route.ts:11 | no two-character escape letter is `u` |
| Json.Stringify | app/app/api/daily-log/route.ts:11 | the JSON text of an array is bracketed |
| Json.DecodeUnicode | app/app/api/daily-log/route.ts:18 | a `\u` escape consumes exactly four hex digits |
| Json.DecodeEscape | app/app/api/daily-log/route.ts:18 | an escape always consumes input |
| Json.ParseStringBody | app/app/api/daily-log/route.ts:18 | reading a string literal always consumes input |
| Json.ParseItems | app/app/api/daily-log/route.ts:18 | reading array items always consumes input |
| Json.EscapeCharRoundTrip | app/app/api/daily-log/route.ts:9-22 | every character's escape decodes back to the character |
| Json.UnicodeEscapeRoundTrip | app/app/api/daily-log/route.ts:9-22 | control characters written as `\u00XX` decode back |
| Json.StringBodyRoundTrip | app/app/api/daily-log/route.ts:9-22 | an escaped string followed by its closing quote reads back as the string |
| Json.ItemsRoundTrip | app/app/api/daily-log/route.ts:9-22 | the comma-separated literals of an array read back as the array |
| Json.RoundTrip | app/app/api/daily-log/route.ts:9-22 | `JSON.parse(JSON.stringify(a))` is `a` for every array of strings |
| DailyLogs.MapLists | app/app/api/daily-log/route.ts:141-147 | the conversion is applied to each of the seven lists: emotions, sleep difficulties, meals, self-care, social contact, stressors and coping strategies |
| CheckinStats.Moods | app/app/api/weekly-report/route.ts:61 | one mood per log, with a missing rating read as 0 |
| CheckinStats.Sleeps | app/app/api/weekly-report/route.ts:62 | one sleep rating per log, with a missing rating read as 0 |
| CheckinStats.Energies | app/app/api/weekly-report/route.ts:63 | one energy rating per log, with a missing rating read as 0 |
| CheckinStats.SumBounds | app/app/api/weekly-report/route.ts:61 | a sum of ratings in lo..hi lies between n·lo and n·hi |
| CheckinStats.AverageBounds | app/app/api/weekly-report/route.ts:59-63 | the average is 0 with no logs, and otherwise lies within the ratings' bounds |
| CheckinStats.Round | app/app/api/weekly-report/route.ts:74 | `Math.round` is within half of its argument, with halves rounded up |
| CheckinStats.RoundTenths | app/app/api/weekly-report/route.ts:71-73 | `Math.round(x*10)/10` is a whole number of tenths within (x − 0.05, x + 0.05] |
| CheckinStats.TenthsUnique | app/app/api/weekly-report/route.ts:71-73 | only one whole number of tenths lies in that interval, so the rounded value is determined |
| CheckinStats.RoundWithin | app/app/api/weekly-report/route.ts:74 | rounding keeps a value inside integer bounds |
| CheckinStats.CountKnown | app/app/api/weekly-report/route.ts:65 | the logs with a non-null `medicationTaken` are at most all the logs |
| CheckinStats.CountTaken | app/app/api/weekly-report/route.ts:67 | the logs marked taken are at most those that record an answer |
| CheckinStats.Adherence | app/app/api/weekly-report/route.ts:65-68 | adherence lies in 0..100, and is 0 when no log records an answer |
| CheckinStats.AdherenceExtremes | app/app/api/progress/route.ts:72-75 | adherence is 100 exactly when every recorded answer is taken, and 0 exactly when none is |
| CheckinStats.NoKnownNoTaken | app/app/api/progress/route.ts:72-75 | with no recorded answer, adherence is 0 |
| CheckinStats.RoundedAdherence | app/app/api/weekly-report/route.ts:74 | rounded adherence is a whole number in 0..100 |
| CheckinStats.GoodDays | app/app/api/weekly-report/route.ts:91 | good days are at most the logs |
| CheckinStats.ChallengingDays | app/app/api/weekly-report/route.ts:92 | challenging days are at most the logs |
| CheckinStats.DayCountsDisjoint | app/app/api/weekly-report/route.ts:90-92 | good plus challenging days never exceed the check-ins |
| CheckinStats.MissingMoodIsChallenging | app/app/api/weekly-report/route.ts:92 | a log without a mood is challenging and not good |
| CheckinStats.RunFrom | app/app/api/dashboard/route.ts:52-69 | a run of days looked at over k days is at most k long |
| CheckinStats.RunFromSpec | app/app/api/dashboard/route.ts:52-69 | every day of the run has a log, and the day just after a run shorter than k has none |
| CheckinStats.RunFromReach | app/app/api/progress/route.ts:18-31 | a run cannot reach back past the day of the oldest log |
| ReminderTime.TimeOfDay | app/lib/medication-reminders.ts:145 | `HH:MM` names an instant within the day |
| ReminderTime.ParseTwelveHourOf | app/lib/medication-reminders.ts:362 | a text `h:MM AM\|PM` reads back to its hour and minute |
| ReminderTime.FormatReminderTimeRoundTrip | app/lib/medication-reminders.ts:358-363 | the 12-hour text names exactly the hour and minute of the 24-hour time |
| ReminderTime.FormatReminderTimeHours | app/lib/medication-reminders.ts:358-363 | hour 0 reads as 12 AM, 12 as 12 PM and 13 as 1 PM, with the minutes padded to two digits |
| ReminderTime.NextReminderTime | app/lib/medication-reminders.ts:143-175 | the next due time, when there is one, is strictly after now |
| ReminderTime.RecurringIsNextOccurrence | app/lib/medication-reminders.ts:158-167 | an unsnoozed daily reminder is due at the first occurrence of its time strictly after now, at most a day ahead |
| ReminderTime.DatedReminderTime | app/lib/medication-reminders.ts:149-157 | a one-off reminder has no next time exactly when its date and time are not after now, even if snoozed; otherwise it is due then |
| ReminderTime.SnoozeOverrides | app/lib/medication-reminders.ts:170-172 | apart from an expired one-off reminder, a snooze still ahead is the next time |
| ReminderTime.CountdownOf | app/lib/medication-reminders.ts:366-386 | no reminder gives "", diff ≤ 0 gives "Now"; otherwise the count is the floored number of the largest unit that fits |
| ReminderTime.FlooredDivisions | app/lib/medication-reminders.ts:375-377 | flooring minutes, then hours, then days equals flooring by the whole unit |
| ReminderService.SlotKeyShape | app/lib/medication-reminders.ts:113 | a slot key starts with the id, holds a dash, and ends with the index's numeral |
| ReminderService.SlotKeyInjective | app/lib/medication-reminders.ts:113 | distinct slots of one reminder get distinct keys |
| ReminderService.ClearPrefix | app/lib/medication-reminders.ts:126-136 | exactly the keys that start with the id are removed; the others keep their timers |
| ReminderService.ActiveOnly | app/lib/medication-reminders.ts:295 | the queue holds exactly the active reminders |
| ReminderService.FindById | app/lib/medication-reminders.ts:281 | `find` lands on the first queued reminder with the id, or there is none |
| ReminderService.ArmedSlots | app/lib/medication-reminders.ts:94-123 | the armed timers are pending, belong to the reminder and are due at their slots' next times as `setTimeout` reads the delay (DueAt: modulo 2^32, due at once when the wrapped delay exceeds 2147483647 ms) |
| ReminderService.ArmedKeys | app/lib/medication-reminders.ts:113-122 | each armed key is the key of a slot that has a next time |
| ReminderService.ArmedTimers | app/lib/medication-reminders.ts:94-123 | a slot is armed exactly when it has a next time, and its timer is due at DueAt of that time, the delay wrapped to a signed 32-bit integer as browsers do |
| ReminderService.ArmedAt | app/lib/medication-reminders.ts:94-123 | once the first n slots are armed, each of them holds its own timer |
| ReminderService.ArmedEarlier | app/lib/medication-reminders.ts:94-123 | arming a later slot keeps an earlier slot's timer |
| ReminderService.ArmedLast | app/lib/medication-reminders.ts:100-122 | the slot armed last holds the timer of its next time, if it has one |
| ReminderService.ArmedFrame | app/lib/medication-reminders.ts:122 | arming one slot leaves every other key as it was |
| ReminderService.ArmedKeyAbsent | app/lib/medication-reminders.ts:94-123 | a slot not yet reached has no timer |
| ReminderService.ArmedKeysStartWithId | app/lib/medication-reminders.ts:113 | every armed key starts with the id and holds a dash |
| ReminderService.ScheduledSlots | app/lib/medication-reminders.ts:85-123 | an inactive or timeless reminder leaves the table untouched; otherwise the keys with the id prefix are exactly the slots with a next time, each due at DueAt of its next time (the delay taken modulo 2^32, due at once above 2147483647 ms), and other keys keep their timers |
| ReminderService.ClearingIsByPrefix | app/lib/medication-reminders.ts:130 | clearing "a" also cancels the timers of reminder "ab" |
| ReminderService.DeleteCollected | app/lib/medication-reminders.ts:128-135 | deleting the collected keys is clearing by prefix |
| ReminderService.ArmKeepsInvariant | app/lib/medication-reminders.ts:122 | every timer stays tied to its own slot after arming |
| ReminderService.ClearPrefixKeepsInvariant | app/lib/medication-reminders.ts:126-136 | every timer stays tied to its own slot after clearing |
| ReminderService.DailyFireRearms | app/lib/medication-reminders.ts:114-120 | after a daily timer fires and the reminder is rescheduled, its key holds a pending timer due within a day |
| ReminderService.PastOneOffNotRearmed | app/lib/medication-reminders.ts:149-157 | a one-off slot whose time has passed is never armed |
| ReminderService.ScheduledKeepsDash | app/lib/medication-reminders.ts:113 | scheduling only adds keys that hold a dash |
| ReminderService.SweepReschedulesAll | app/lib/medication-reminders.ts:303-313 | when no id holds a dash, every sweep reschedules every queued reminder |
| ReminderService.SnoozedSlots | app/lib/medication-reminders.ts:277-285 | after a snooze, every live slot of the reminder is due at the snooze instant when it is within the `setTimeout` limit |
| ReminderService.DueAtBounds | app/lib/medication-reminders.ts:114-120 | under the 32-bit wrap a timer is due no later than its reminder time and no earlier than now, and exactly at it if and only if the delay is at most 2147483647 ms |
| ReminderService.FarSlotDueAtOnce | app/lib/medication-reminders.ts:104-120 | a slot whose delay modulo 2^32 exceeds 2147483647 ms is armed with a timer due at once |
| ReminderService.FarSlotWraps | app/lib/medication-reminders.ts:104-120 | a slot 2^32 ms or more ahead whose wrapped delay is within the limit is armed due that wrapped delay from now, before its reminder time |
| ReminderService.SixtyDaysWraps | app/lib/medication-reminders.ts:114-120 | a delay of 60 days fires after 889032704 ms, about 10.3 days |
| ReminderService.MedicationReminderService.constructor | app/lib/medication-reminders.ts:20-30 | the service starts with no timers, no queue and no notices |
| ReminderService.MedicationReminderService.SetPermission | app/lib/medication-reminders.ts:180 | only the permission changes |
| ReminderService.MedicationReminderService.ClearReminder | app/lib/medication-reminders.ts:126-136 | the table becomes the table cleared by the id prefix; nothing else changes |
| ReminderService.MedicationReminderService.KeysStartingWith | app/lib/medication-reminders.ts:128-134 | the collected keys are exactly the table's keys that start with the id |
| ReminderService.MedicationReminderService.ClearAllReminders | app/lib/medication-reminders.ts:138-141 | the table is empty; nothing else changes |
| ReminderService.MedicationReminderService.ScheduleReminder | app/lib/medication-reminders.ts:85-124 | the table becomes the scheduled table of ScheduledSlots, with each delay wrapped to a signed 32-bit integer as `setTimeout` does, and the table invariant is kept |
| ReminderService.MedicationReminderService.ArmAll | app/lib/medication-reminders.ts:94-123 | the loop over the times adds exactly the armed timers to the cleared table |
| ReminderService.MedicationReminderService.ArmSlot | app/lib/medication-reminders.ts:95-122 | one turn of the loop arms the next slot and only that one |
| ReminderService.MedicationReminderService.ShowNotification | app/lib/medication-reminders.ts:177-187 | a notice naming the medication and time is raised only with permission |
| ReminderService.MedicationReminderService.Fire | app/lib/medication-reminders.ts:114-120 | a due timer notifies, is spent, and a daily reminder is scheduled again |
| ReminderService.MedicationReminderService.SnoozeMedication | app/lib/medication-reminders.ts:277-288 | the first queued reminder with the id gets `snoozeUntil` = now + minutes and is rescheduled; an unknown id changes nothing |
| ReminderService.MedicationReminderService.HandleNotificationAction | app/lib/medication-reminders.ts:238-250 | "taken" records a mark-taken request; "snooze" gives the first queued reminder with the id `snoozeUntil` = now + 10 minutes and reschedules it, and changes nothing for an unknown id; anything else does nothing |
| ReminderService.MedicationReminderService.UpdateMedications | app/lib/medication-reminders.ts:290-301 | the queue is the active reminders in order, and the table is them scheduled one by one from empty |
| ReminderService.MedicationReminderService.Tick | app/lib/medication-reminders.ts:303-313 | the table becomes the sweep of the queue: a reminder is rescheduled when no key equals its id |
| ReminderService.MedicationReminderService.GetNextReminderTime | app/lib/medication-reminders.ts:316-336 | the result is the earliest next time over the slots, none when no slot has one, and after now |
| ReminderService.GetTimeUntilReminder | app/lib/medication-reminders.ts:366-386 | the countdown text of the earliest next time; "" exactly when no slot has a next time; never "Now" |
| MedicationsPage.ToReminder | app/app/medications/page.tsx:100-107 | id, name, dosage, times, activity and date presence are kept, with no snooze |
| MedicationsPage.ActiveReminders | app/app/medications/page.tsx:97-107 | every reminder handed over is active, has a time and is not snoozed |
| MedicationsPage.ActiveRemindersMembers | app/app/medications/page.tsx:97-107 | exactly the active medications with times reach the scheduler |
| MedicationsPage.SchedulerKeepsActiveReminders | app/lib/medication-reminders.ts:295 | the scheduler's own active filter keeps the whole list the page hands it |
| MedicationsPage.AllActiveKept | app/lib/medication-reminders.ts:295 | filtering a list of active reminders keeps it whole |
| MedicationsPage.MedicationsChanged | app/app/medications/page.tsx:62-66 | an empty list leaves earlier timers armed; otherwise the service is resynced with the active reminders |
| MedicationsPage.AddReminderTime | app/app/medications/page.tsx:117-122 | one empty slot is appended and nothing else changes |
| MedicationsPage.WithoutIndex | app/app/medications/page.tsx:125 | the filter by index never lengthens the list |
| MedicationsPage.WithoutIndexIsSplice | app/app/medications/page.tsx:125 | exactly index i is dropped, and nothing when i is out of range |
| MedicationsPage.RemoveReminderTime | app/app/medications/page.tsx:124-130 | the slot list is never empty, and nothing else changes |
| MedicationsPage.RemoveReminderTimeResult | app/app/medications/page.tsx:124-130 | the slots are the list without index i, or `['']` when that would be empty |
| MedicationsPage.RemoveUndoesAdd | app/app/medications/page.tsx:117-130 | removing the slot just added gives back the form |
| MedicationsPage.UpdateReminderTime | app/app/medications/page.tsx:132-136 | only slot i is replaced, and the length is kept |
| MedicationsPage.SubmitMedication | app/app/medications/page.tsx:138-159 | rejected exactly when the trimmed name is empty or every time is blank; the request carries only the non-blank times |
| MedicationsPage.SubmittedTimesReadBack | app/app/medications/page.tsx:156-159 | an accepted submission is stored and reads back with exactly its non-blank times |
| MedicationsApi.ParseStoredTimes | app/app/api/medications/route.ts:31 | absent text reads as `[]`; otherwise it is `JSON.parse` of the text |
| MedicationsApi.RowsOf | app/app/api/medications/route.ts:17-24 | exactly the caller's rows |
| MedicationsApi.Views | app/app/api/medications/route.ts:27-33 | all rows are listed with parsed times, or the handler fails when a parse throws |
| MedicationsApi.Get | app/app/api/medications/route.ts:9-44 | 401 without a user; otherwise every row of the caller in store order with its times parsed, or a 500 exactly when a stored text does not parse |
| MedicationsApi.StoredTimes | app/app/api/medications/route.ts:65-67 | no array is stored as null; an array is stored as the JSON text of its non-blank entries |
| MedicationsApi.Post | app/app/api/medications/route.ts:46-81 | 401 without a user, then 400 without a name, storing nothing; otherwise the new row is put in front, as the newest |
| MedicationsApi.PostDefaults | app/app/api/medications/route.ts:69-79 | a created medication is active, and its empty optional fields are null |
| MedicationsApi.PostThenGet | app/app/api/medications/route.ts:17-90 | after a POST, GET lists the new medication first, with the non-blank times it was sent, ahead of the earlier list |
| MedicationsApi.StoredTimesReadBack | app/app/api/medications/route.ts:31-67 | what POST stores, GET reads back as the non-blank times, or `[]` |
| MarkTaken.AppendNote | app/app/api/medications/mark-taken/route.ts:69-73 | the existing notes, a newline and the note, or just the note when there are none |
| MarkTaken.AppendNoteKeepsPrior | app/app/api/medications/mark-taken/route.ts:69-73 | the earlier notes are a prefix and the new note ends the text |
| MarkTaken.TakenNote | app/app/api/medications/mark-taken/route.ts:70 | the note starts with `Medication "<name>"` and ends with ` taken at <time>` |
| MarkTaken.FindOwned | app/app/api/medications/mark-taken/route.ts:27-32 | found exactly when the caller owns a medication with the id |
| MarkTaken.FindKeyed | app/app/api/medications/mark-taken/route.ts:46-52 | the upsert finds the caller's log for the day, or there is none |
| MarkTaken.Handle | app/app/api/medications/mark-taken/route.ts:8-88 | 401, then 400, then 404, none touching the logs; success exactly for an owned medication; `takenAt` defaults to now |
| MarkTaken.Upsert | app/app/api/medications/mark-taken/route.ts:46-82 | the store keeps its size when today's log exists, and grows by one otherwise |
| MarkTaken.HandleMarksToday | app/app/api/medications/mark-taken/route.ts:46-82 | the caller has exactly one log for today, marked taken, whose notes are the earlier notes, a newline and the taken note (just the note when there were none); other logs are unchanged |
| LineFramer.NewlineIndex | app/app/api/chat/route.ts:119 | the index of the first newline, or none |
| LineFramer.Split | app/app/api/chat/route.ts:119 | `split` gives at least one piece |
| LineFramer.SplitJoin | app/app/api/chat/route.ts:119 | the pieces join back to the text and hold no newline |
| LineFramer.SplitUnique | app/app/api/chat/route.ts:119 | newline-free pieces are exactly what their join splits into |
| LineFramer.Frame | app/app/api/chat/route.ts:116-120 | the complete lines and the new buffer hold no newline and join back to buffer + chunk |
| LineFramer.FrameUnique | app/app/api/chat/route.ts:116-120 | that split into complete lines and a rest is the only one |
| LineFramer.ChunkBoundaryIrrelevant | app/app/api/chat/route.ts:116-120 | framing c1 then c2 gives the same lines and buffer as framing c1 + c2 |
| ChatRoute.Title | app/app/api/chat/route.ts:33 | the message itself up to 50 UTF-16 code units; otherwise the longest prefix of at most 50 code units (49 or 50 of them) and "..." |
| ChatRoute.BmpTitle | app/app/api/chat/route.ts:33 | a message without characters above U+FFFF is cut at its 50th character |
| ChatRoute.EmojiTitle | app/app/api/chat/route.ts:33 | 26 emoji (52 code units) give 25 emoji and "..." |
| ChatRoute.FindSession | app/app/api/chat/route.ts:23-27 | a session with the id owned by the caller, or none exists |
| ChatRoute.Window | app/app/api/chat/route.ts:71-74 | the last min(n, 10) messages, in order |
| ChatRoute.StartTurn | app/app/api/chat/route.ts:9-75 | 401 with no effect without a user; otherwise the upstream messages are the system prompt then the window |
| ChatRoute.StartTurnEffects | app/app/api/chat/route.ts:23-45 | a session is reused exactly when the caller owns the named one, otherwise one is created with the title; the user message is saved in it before the upstream call |
| ChatRoute.LinesCompose | app/app/api/chat/route.ts:122-162 | handling two runs of lines is handling their concatenation |
| ChatRoute.ClosedIgnoresLines | app/app/api/chat/route.ts:137-139 | once closed, later lines change nothing |
| ChatRoute.StartInvariant | app/app/api/chat/route.ts:108-109 | the relay invariant holds at the start |
| ChatRoute.DeltasAppend | app/app/api/chat/route.ts:156 | a delta frame adds its content to the emitted deltas |
| ChatRoute.DoneKeepsInvariant | app/app/api/chat/route.ts:125-139 | on `[DONE]` the trimmed reply is saved once if non-empty, the done frame is emitted, and the relay closes |
| ChatRoute.DeltaKeepsInvariant | app/app/api/chat/route.ts:146-157 | a non-empty delta extends the accumulator and is emitted once, for the session |
| ChatRoute.StepKeepsInvariant | app/app/api/chat/route.ts:122-161 | every line keeps the accumulator equal to the emitted deltas and the reply saved at most once, on close |
| ChatRoute.LinesKeepInvariant | app/app/api/chat/route.ts:122-162 | every run of lines keeps the relay invariant |
| ChatRoute.LinesExtend | app/app/api/chat/route.ts:122-162 | frames and replies are only ever appended |
| ChatRoute.NoDoneNoReply | app/app/api/chat/route.ts:113-167 | without a `[DONE]` line the relay stays open and saves no reply |
| ChatRoute.ReceiveChunkBoundary | app/app/api/chat/route.ts:113-122 | receiving c1 then c2 does what receiving c1 + c2 does |
| ChatRoute.HiThereExample | app/app/api/chat/route.ts:126-157 | deltas "Hi" and " there" then `[DONE]` save "Hi there" and emit two delta frames and the done frame |
| ChatRoute.ChatRelay.constructor | app/app/api/chat/route.ts:106-109 | the relay starts streaming with an empty buffer and accumulator |
| ChatRoute.ChatRelay.Receive | app/app/api/chat/route.ts:113-162 | one chunk moves the state and buffer as framing and line handling say, keeping the invariant |
| ChatRoute.ChatRelay.HandleLine | app/app/api/chat/route.ts:123-160 | one line steps the state and reports whether it closed the stream |
| ChatRoute.ChatRelay.RestIgnored | app/app/api/chat/route.ts:137-139 | lines after the closing one change nothing |
| ChatRoute.ChatRelay.EndOfStream | app/app/api/chat/route.ts:113-114 | the upstream ending before `[DONE]` saves nothing and emits nothing more |
| ChatRoute.ChatRelay.Fail | app/app/api/chat/route.ts:164-167 | a failed read saves nothing and emits nothing more |
| ChatClient.WithContent | app/components/chat/chat-interface.tsx:134-138 | only the message with the id gets the new content; ids, roles and order are kept |
| ChatClient.StepKeepsInvariant | app/components/chat/chat-interface.tsx:123-148 | every line keeps the placeholder equal to the concatenated non-empty deltas |
| ChatClient.GrowKeepsInvariant | app/components/chat/chat-interface.tsx:132-139 | a non-empty delta grows the reply and the placeholder alike |
| ChatClient.FreshReader | app/components/chat/chat-interface.tsx:103-111 | the empty placeholder shows the empty reply |
| ChatClient.LinesKeepInvariant | app/components/chat/chat-interface.tsx:123-149 | every run of lines keeps the placeholder invariant |
| ChatClient.ChunkKeepsInvariant | app/components/chat/chat-interface.tsx:113-150 | every chunk keeps the placeholder equal to the concatenated deltas |
| ChatClient.StoppedIgnoresLines | app/components/chat/chat-interface.tsx:126-128 | after `[DONE]`, the chunk's remaining lines change nothing |
| ChatClient.LinesCompose | app/components/chat/chat-interface.tsx:123-149 | handling two runs of lines is handling their concatenation |
| ChatClient.CapturedSessionKept | app/components/chat/chat-interface.tsx:141-144 | once the call started with a session id, no frame changes it or announces a session |
| ChatClient.AnnouncedWhileUncaptured | app/components/chat/chat-interface.tsx:141-144 | while the captured id is null, every frame carrying a session id sets it and announces it |
| ChatClient.SkippedLines | app/components/chat/chat-interface.tsx:124-147 | a non-data line or an unparsable payload changes nothing |
| ChatClient.DoneEndsOnlyTheChunk | app/components/chat/chat-interface.tsx:113-128 | `[DONE]` ends only the current chunk; a delta in a later chunk is still appended |
| ChatClient.OneLineChunk | app/components/chat/chat-interface.tsx:117-123 | a chunk that is one complete line runs just that line |
| ChatClient.ChatScreen.constructor | app/components/chat/chat-interface.tsx:54-63 | the screen starts idle with the welcome message and no session |
| ChatClient.ChatScreen.SetCurrentMessage | app/components/chat/chat-interface.tsx:78 | only the input text changes |
| ChatClient.ChatScreen.SendMessage | app/components/chat/chat-interface.tsx:65-90 | does nothing for a blank input or while loading; otherwise appends the trimmed user message and sends it with the prior messages and session id |
| ChatClient.ChatScreen.StartReading | app/components/chat/chat-interface.tsx:96-111 | appends the empty placeholder and starts reading with empty buffers |
| ChatClient.ChatScreen.Receive | app/components/chat/chat-interface.tsx:113-150 | one chunk moves the state and buffer as framing and line handling say |
| ChatClient.ChatScreen.HandleLine | app/components/chat/chat-interface.tsx:123-148 | one line steps the state and reports `[DONE]` |
| ChatClient.ChatScreen.ApplyFrame | app/components/chat/chat-interface.tsx:132-144 | a parsed frame grows the placeholder and takes up the session id as Apply says |
| ChatClient.ChatScreen.ReaderDone | app/components/chat/chat-interface.tsx:114-165 | the reader reporting done ends the call and loading stops |
| ChatClient.ChatScreen.Fail | app/components/chat/chat-interface.tsx:151-165 | any failure appends exactly one fallback message with the 988 guidance, and loading stops |
| WeeklyReport.CurrentWeek | app/app/api/weekly-report/route.ts:17-24 | the window starts on a Sunday at midnight, holds now, and ends 7 days less 1 ms later |
| WeeklyReport.SundayStart | app/app/api/weekly-report/route.ts:19-20 | going back `getDay()` days from midnight lands on Sunday |
| WeeklyReport.PreviousWeek | app/app/api/weekly-report/route.ts:27-30 | the same window shifted 7 days earlier |
| WeeklyReport.WeekWindows | app/app/api/weekly-report/route.ts:17-30 | the window holds exactly the seven days from its Sunday; the previous one ends right before it |
| WeeklyReport.LogsIn | app/app/api/weekly-report/route.ts:33-55 | exactly the logs created inside the window |
| WeeklyReport.CalculateAverages | app/app/api/weekly-report/route.ts:58-76 | all zero with no logs; each average is a whole number of tenths within 0.05 of the exact one (hence the rounded tenth), adherence within 0.5 |
| WeeklyReport.MedicationPercent | app/app/api/weekly-report/route.ts:74 | adherence is a whole percentage in 0..100 |
| WeeklyReport.Trends | app/app/api/weekly-report/route.ts:82-87 | against an empty previous week the trend is this week; equal weeks give zero |
| WeeklyReport.InvalidEmotionsSkipped | app/app/api/weekly-report/route.ts:98-103 | a log whose emotions do not parse adds no emotion |
| WeeklyReport.CollectEmotions | app/app/api/weekly-report/route.ts:95-105 | the loop collects every log's emotions in order |
| WeeklyReport.FirstAppearances | app/app/api/weekly-report/route.ts:107-110 | the object's keys are exactly the emotions that occur |
| WeeklyReport.FirstAppearancesDistinct | app/app/api/weekly-report/route.ts:107-110 | each key appears once |
| WeeklyReport.Tally | app/app/api/weekly-report/route.ts:107-110 | each emotion's count is its number of occurrences |
| WeeklyReport.TallyAppend | app/app/api/weekly-report/route.ts:108 | one more occurrence adds one to its count |
| WeeklyReport.CountEmotions | app/app/api/weekly-report/route.ts:107-110 | the reduce yields the keys in insertion order and the counts |
| WeeklyReport.Insert | app/app/api/weekly-report/route.ts:113 | insertion adds one entry |
| WeeklyReport.SortByCount | app/app/api/weekly-report/route.ts:113 | the sort keeps the number of entries |
| WeeklyReport.InsertPermutes | app/app/api/weekly-report/route.ts:113 | insertion adds exactly the entry |
| WeeklyReport.InsertDescending | app/app/api/weekly-report/route.ts:113 | insertion keeps the order by count |
| WeeklyReport.InsertStable | app/app/api/weekly-report/route.ts:113 | insertion keeps entries of equal count in their order |
| WeeklyReport.SortByCountSpec | app/app/api/weekly-report/route.ts:112-113 | the sort is a permutation, non-increasing by count, and stable |
| WeeklyReport.SortPermutes | app/app/api/weekly-report/route.ts:113 | the sort is a permutation of the keys |
| WeeklyReport.SortDescending | app/app/api/weekly-report/route.ts:113 | the sort is non-increasing by count |
| WeeklyReport.SortStable | app/app/api/weekly-report/route.ts:113 | entries of equal count keep their order |
| WeeklyReport.TopEmotionsOf | app/app/api/weekly-report/route.ts:114 | at most three emotions |
| WeeklyReport.TopEmotions | app/app/api/weekly-report/route.ts:95-115 | the counting loops, the sort and the slice give the top emotions |
| WeeklyReport.RankedSpec | app/app/api/weekly-report/route.ts:107-115 | the ranking holds each emotion of the week once, by non-increasing count |
| WeeklyReport.TopEmotionsSpec | app/app/api/weekly-report/route.ts:95-115 | the top emotions are distinct emotions of the week, most frequent first, fewer than three only when the week has fewer |
| WeeklyReport.PrefixKeeps | app/app/api/weekly-report/route.ts:114 | a prefix of the ranking is distinct, drawn from the week, and ordered by count |
| WeeklyReport.TopEmotionsDominate | app/app/api/weekly-report/route.ts:112-115 | no emotion left out occurs more often than one kept |
| WeeklyReport.DistinctPermutation | app/app/api/weekly-report/route.ts:113 | a permutation of distinct keys is distinct |
| WeeklyReport.TopEmotionsTies | app/app/api/weekly-report/route.ts:113 | emotions tied on count keep their order of first appearance |
| WeeklyReport.GenerateInsights | app/app/api/weekly-report/route.ts:118-146 | the pushes give InsightsOf: one insight per topic that meets its threshold, in topic order |
| WeeklyReport.InsightsSpec | app/app/api/weekly-report/route.ts:118-146 | each insight appears exactly when its threshold is met, and there are at most four |
| WeeklyReport.Messages | app/app/api/weekly-report/route.ts:122-142 | each insight carries its message text |
| WeeklyReport.Get | app/app/api/weekly-report/route.ts:8-173 | 401 without a user; otherwise the period is the current week, the counts, good and challenging days, statistics, top emotions and insights are those of the current week's logs, the previous statistics those of the previous week, and the trends their difference |
| WeeklyReport.ReportSummary | app/app/api/weekly-report/route.ts:148-163 | 7 days from a Sunday; every trend (mood, sleep, energy, medication) is current minus previous; good plus challenging days ≤ check-ins; at most 4 insights and 3 emotions; adherence in 0..100 |
| Progress.Fetched | app/app/api/progress/route.ts:17-31 | exactly the logs from seven days ago on |
| Progress.Streak | app/app/api/progress/route.ts:33-56 | the loop computes the streak with today exempt |
| Progress.ExemptStreakBounds | app/app/api/progress/route.ts:39-56 | at most 30; a day without a log today neither counts nor stops the walk |
| Progress.FetchedStreakBound | app/app/api/progress/route.ts:18-56 | with only a week of logs fetched, the streak is at most 8 |
| Progress.LowestOfFour | app/app/api/progress/route.ts:90-109 | the reduce over the four metrics in declaration order |
| Progress.LowestOfSpec | app/app/api/progress/route.ts:90-109 | the first metric with the smallest normalised value is chosen if it is below 100; otherwise none |
| Progress.TipForSpec | app/app/api/progress/route.ts:112-144 | praise exactly when no metric was chosen; a tip is about the chosen metric; empty exactly when it is above its thresholds |
| Progress.NoLogsFeedback | app/app/api/progress/route.ts:59-144 | with no logs, mood is chosen and the "tough time" tip is given |
| Progress.TopMarksFeedback | app/app/api/progress/route.ts:106-143 | with every metric at its top, praise is given |
| Progress.Get | app/app/api/progress/route.ts:9-162 | 401 without a user; otherwise the streak, rounded averages, adherence in 0..100, counts and feedback over the fetched logs |
| Dashboard.TodayLog | app/app/api/dashboard/route.ts:17-32 | a log created in today's window, none exactly when there is no such log |
| Dashboard.Recent | app/app/api/dashboard/route.ts:36-44 | the first min(n, 30) logs |
| Dashboard.Streak | app/app/api/dashboard/route.ts:46-69 | the loop computes the run of days with a log ending today |
| Dashboard.StreakSpec | app/app/api/dashboard/route.ts:47-69 | at most 30; 0 without a log today; every counted day has a log and the next day back does not |
| Dashboard.Get | app/app/api/dashboard/route.ts:9-85 | 401 without a user; otherwise today's log, the streak, the count and the rounded average mood of the 30 most recent logs, 0 with no logs |
| DailyLog.ArrayToJson | app/app/api/daily-log/route.ts:9-12 | null exactly for a missing or empty array; otherwise non-empty text that parses back to it |
| DailyLog.JsonToArray | app/app/api/daily-log/route.ts:15-22 | `[]` for missing, empty or unparsable text; otherwise the parsed array |
| DailyLog.ArrayJsonRoundTrip | app/app/api/daily-log/route.ts:9-22 | storing an array and reading it back gives the array, a missing one giving `[]` |
| DailyLog.Submitted | app/app/api/daily-log/route.ts:60-86 | each of the seven submitted lists, a missing one read as `[]` |
| DailyLog.ListsRoundTrip | app/app/api/daily-log/route.ts:139-148 | the seven lists answered are the submitted arrays |
| DailyLog.View | app/app/api/daily-log/route.ts:139-148 | the answered log keeps its id, user and creation instant, with its lists parsed |
| DailyLog.Views | app/app/api/daily-log/route.ts:185-194 | one view per log, in order |
| DailyLog.FindToday | app/app/api/daily-log/route.ts:35-49 | the first log of the caller created today, or there is none |
| DailyLog.Updated | app/app/api/daily-log/route.ts:53-94 | identity kept; for mood, sleep, energy, medication taken and notes a given value replaces and an absent one keeps the stored value; every list overwritten |
| DailyLog.Created | app/app/api/daily-log/route.ts:95-136 | a new log of the caller created today at now, with the submitted scalars (absent ones null) and lists |
| DailyLog.Post | app/app/api/daily-log/route.ts:24-150 | 401 leaving the store alone without a user; otherwise an answer and at most one more log |
| DailyLog.PostUpdatesOrCreates | app/app/api/daily-log/route.ts:53-136 | today's first log is updated in place and nothing else changes, or exactly one log is appended |
| DailyLog.PostAnswersTodaysLog | app/app/api/daily-log/route.ts:139-150 | the answered log is the caller's, created today, with the submitted arrays |
| DailyLog.TodayWindowIsDay | app/app/api/daily-log/route.ts:35-47 | the today window is exactly the instants of today's calendar day |
| DailyLog.PostKeepsOnePerDay | app/app/api/daily-log/route.ts:35-136 | saving never gives a user a second log on the same day |
| DailyLog.Ceil | app/app/api/daily-log/route.ts:206 | `Math.ceil` is the least integer at or above its argument |
| DailyLog.TotalPages | app/app/api/daily-log/route.ts:206 | null exactly for a zero limit; otherwise the least page count covering the total, 0 only with no logs |
| DailyLog.PagesCover | app/app/api/daily-log/route.ts:206 | the ceiling of total/limit is the least c with total ≤ c·limit |
| DailyLog.Slice | app/app/api/daily-log/route.ts:180-181 | at most `take` logs starting at index `skip` |
| DailyLog.SliceFromEnd | app/app/api/daily-log/route.ts:180-181 | a negative take: at most n logs ending `skip` entries before the end, in list order |
| DailyLog.Reverse | app/app/api/daily-log/route.ts:180-181 | the reversed list: same length, index i holds the entry at length − 1 − i |
| DailyLog.SliceFromEndIsReversed | app/app/api/daily-log/route.ts:180-181 | counting from the end is slicing the reversed list and reversing the slice back |
| DailyLog.PagesPrefix | app/app/api/daily-log/route.ts:180-181 | pages 1..n together are the first n·limit logs |
| DailyLog.PagesListAll | app/app/api/daily-log/route.ts:170-207 | pages 1..totalPages list every log once, in order, each nonempty and at most `limit` long; the next page is empty |
| DailyLog.PageNotEmpty | app/app/api/daily-log/route.ts:180-206 | every page up to the last holds a log |
| DailyLog.Get | app/app/api/daily-log/route.ts:161-207 | 401 without a user; page and limit default to 1 and 10; skip (page−1)·limit; a negative skip gives a 500; a non-negative limit takes that many from the skip on, a negative one counts from the end |
| DailyLog.GetNegativeLimit | app/app/api/daily-log/route.ts:170-181 | `?page=1&limit=-n` lists the last n logs of the newest-first list, so the n oldest |
| DailyLog.GetDefaults | app/app/api/daily-log/route.ts:170-181 | without parameters the first ten logs are listed as page 1 |
| SignupApi.OrDefault | app/app/api/signup/route.ts:31-32 | `value \|\| fallback` on an optional string |
| SignupApi.AgeOf | app/app/api/signup/route.ts:33-37 | `age \|\| 18`: a missing age and 0 both become 18 |
| SignupApi.FindByEmail | app/app/api/signup/route.ts:46-48 | found exactly when a stored user has the email |
| SignupApi.Public | app/app/api/signup/route.ts:88 | every field of the user but the password |
| SignupApi.MedicationRows | app/app/api/signup/route.ts:76-83 | one row per listed medication with the user's id, null defaults and active |
| SignupApi.Signup | app/app/api/signup/route.ts:8-101 | 400 for missing credentials, then for an age outside 10..19, then for a taken email, all without a write; otherwise the user is appended |
| SignupApi.SignupCreatesUser | app/app/api/signup/route.ts:57-93 | the created user is new, active, aged 10..19, has the defaults, and is answered without the password |
| SignupApi.SignupDefaults | app/app/api/signup/route.ts:30-34 | no names and no age give "Test", "User" and 18, and 18 is accepted |
| SignupApi.SignupMedications | app/app/api/signup/route.ts:74-85 | medications are written only for a non-empty list, one active row per entry, in order |
| SignupApi.UnnamedMedicationLeavesUser | app/app/api/signup/route.ts:61-100 | an unnamed medication yields a 500 after the account was created, with no medication stored |
| SignupApi.SignupKeepsEmailsUnique | app/app/api/signup/route.ts:46-71 | signing up keeps every email unique |
| SignupForm.Initial | app/components/auth/signup-form.tsx:25-28 | the form starts at step 1, not loading, with no medications |
| SignupForm.DecimalPrefix | app/components/auth/signup-form.tsx:61 | `parseInt` reads the longest run of digits |
| SignupForm.HexPrefix | app/components/auth/signup-form.tsx:61 | after `0x`, `parseInt` reads the longest run of hex digits |
| SignupForm.ParseInt | app/components/auth/signup-form.tsx:61 | a blank age parses to NaN |
| SignupForm.ParseIntNumeral | app/components/auth/signup-form.tsx:61 | a typed numeral parses to its number |
| SignupForm.RequestOf | app/components/auth/signup-form.tsx:56-64 | the request carries the email, the password, `parseInt(age)` and every medication |
| SignupForm.Submit | app/components/auth/signup-form.tsx:41-53 | nothing happens while a rendered input is invalid (names and passwords required, age a whole 10..19); otherwise steps 1 and 2 only advance; at step 3 a password mismatch is refused; the request is sent exactly at step 3 with matching passwords |
| SignupForm.Settle | app/components/auth/signup-form.tsx:85-87 | loading stops and nothing else changes |
| SignupForm.Back | app/components/auth/signup-form.tsx:289-297 | above step 1 the step goes down by one; otherwise nothing changes |
| SignupForm.Edit | app/components/auth/signup-form.tsx:135-232 | typing changes only the fields rendered at the current step |
| SignupForm.StepsStayInRange | app/components/auth/signup-form.tsx:43-297 | the step stays in 1..3, and Back undoes a step forward |
| SignupForm.ActionsKeepPassedValid | app/components/auth/signup-form.tsx:41-297 | every action keeps the fields of the steps already passed valid |
| SignupForm.RequestNeedsThreeSubmits | app/components/auth/signup-form.tsx:43-53 | from the start Continue is blocked; with both steps filled in, two submits make no request and the second reaches step 3 |
| SignupForm.DecimalPrefixOfDigits | app/components/auth/signup-form.tsx:61 | `parseInt` of a digit string, leading zeros allowed, is its value |
| SignupForm.BlankAgeDefaults | app/components/auth/signup-form.tsx:41-167 | a blank age would be sent as null and stored as 18, but it never leaves step 1; a request the form sends carries the typed age, in 10..19 |
| SignupForm.AddMedication | app/components/auth/signup-form.tsx:90-95 | appends the entry and clears it exactly when the trimmed name is non-empty |
| SignupForm.RemoveAtSpec | app/components/auth/signup-form.tsx:97-99 | exactly index i is removed and the rest keep their order |
| SignupForm.RemoveMedication | app/components/auth/signup-form.tsx:97-99 | only the medication list changes |
| SignupForm.EditsKeepNamedList | app/components/auth/signup-form.tsx:90-99 | adding and removing keep every listed name non-blank, and removing undoes an add |
| SignupForm.RequestNamesPresent | app/components/auth/signup-form.tsx:56-95 | a request from the form never carries a medication without a name |

## Left out

- Browser notifications, the service worker and the permission requests are host calls. A shown notification is an entry appended to `notices`, and "mark as taken" is a recorded request.
- `setTimeout` and `setInterval` are not modelled as running timers. A timer is an entry due at an instant, and `Fire` and `Tick` are the host calling back. The delay is converted as browsers convert it, to a signed 32-bit integer: it is taken modulo 2^32, and a result above 2147483647 ms reads as negative and is due at once. So a one-off reminder whose delay modulo 2^32 lies in that upper band notifies at once, and again after each minute's reschedule while it stays there; one 2^32 ms (about 49.7 days) or more ahead may instead be armed for the shorter wrapped delay, which each minute's sweep clears and re-arms from the new time.
- Local time zones and daylight saving time: local time is UTC and every day is 86 400 000 ms long.
- Malformed `HH:MM` reminder times are excluded by a precondition. `split(':').map(Number)` would yield NaN for them.
- ReminderService.MedicationReminderService.ScheduleReminder: the branch that notifies at once when the next time is not ahead (medication-reminders.ts:104-110) is omitted. With one clock reading per call, ReminderTime.NextReminderTime proves the next time is always after now, so that branch cannot run.
- `testNotification` and `markMedicationTaken`'s HTTP call are left out; the latter is a recorded request.
- The upstream completion request and the stream plumbing are not modelled: `ReadableStream`, the controller, `TextDecoder` and `TextEncoder`. The relay receives decoded text chunks.
- Upstream frame decoding (`JSON.parse` of a frame and `choices[0].delta.content`) is a function given as a parameter.
- The system prompt text and the user's first name in it are a parameter.
- The chat screen's welcome message text is a constant. `onNewSession` is modelled by the list of announced session ids; the session object it receives is left out.
- The screen's scrolling and toasts are left out, and so is the disabled send button while loading.
- Prisma, bcrypt and next-auth are foreign libraries. The stores are sequences passed in and returned, the session user is an optional id, and the hash and new ids are parameters.
- SignupApi.Signup and SignupApi.SignupBody: the age is taken to be an integer or null, as the form sends it. An age sent as a string, or a fractional age, is not modelled.
- DailyLog.Created: the `date` column takes the schema's default, which is given as a parameter. The schema is not part of this model.
- The daily-log fields that are only passed through (intensity, moments, durations, times, comparisons, gratitude, notes) are left out of `LogInput`. An explicit JSON `null` in the body is treated like a missing field.
- ChatRoute.Title: when a character above U+FFFF straddles code unit 50, `substring` keeps its lone high surrogate; a Dafny string holds only Unicode scalar values, so the model drops that half and the title is one code unit shorter.
- JSON values other than arrays of strings are not modelled, and neither are surrogate pairs in `\u` escapes. The parser also accepts no whitespace between tokens.
- Floating point: averages are exact reals, and `Math.round` is `floor(x + 0.5)` on them. `toFixed` and other display formatting are left out. Values near an insight threshold can come out differently. For example, in JavaScript 1.1 − 0.6 is 0.5000000000000001, which passes a `> 0.5` trend test that the exact 0.5 fails.
- SignupForm.Submit: the browser's check of the age field admits any valid number text for a whole 10..19, such as `12.0` or `1.2e1`. The model admits only digit strings. The `type="email"` syntax check on the email and emergency contact fields is not modelled; only `required` is.
- Concurrency: interleaved React state updates and concurrent chat turns are not modelled.
- ReminderService.GetTimeUntilReminder: the model reads the clock once, for both the next time and the difference. The source reads `new Date()` twice (medication-reminders.ts lines 144 and 370), so "Now" can appear there when a snooze or time falls due between the two readings. The model's "never Now" holds only under one reading.
- DailyLog.Get: `page` and `limit` are integers or absent. `parseInt` of a non-numeric parameter gives NaN, and the store's answer to a NaN skip or take is not modelled. A negative take follows the store's documented reading: reverse the order, skip and take, then reverse back.
- The signup form's handling of the response (the error toast text, `signIn` and the redirect) is left out. The model stops at the request sent and `Settle`.
- WeeklyReport.FirstAppearances lists the keys in insertion order. A JavaScript object lists integer-like keys first, which cannot matter for the fixed emotion words.
- Rendering-only pages and components, the PDF export and the seed script are outside the core.
