/**
 * /api/daily-log: POST saves the caller's check-in for today, updating the log already created
 * today or creating one; GET lists the caller's logs a page at a time. The seven list answers
 * are stored as JSON text and handed back as arrays.
 */
module DailyLog {
  import opened Wrappers
  import opened Http
  import opened Clock
  import opened Json
  import opened DailyLogs

  // ---------------------------------------------------------------------------
  // Array <-> JSON text
  // ---------------------------------------------------------------------------

  /** `arrayToJson`: no text for a missing or empty array, `JSON.stringify` otherwise. */
  function ArrayToJson(a: Option<seq<string>>): (r: Option<string>)
    ensures r.None? <==> a.None? || a.value == []
    ensures r.Some? ==> r.value != "" && Parse(r.value) == a
  {
    if a.None? || a.value == [] then None
    else
      RoundTrip(a.value);
      Some(Stringify(a.value))
  }

  /** `jsonToArray`: `[]` for missing or empty text and for text that does not parse. */
  function JsonToArray(json: Option<string>): (r: seq<string>)
    ensures !TruthyString(json) ==> r == []
    ensures TruthyString(json) && Parse(json.value).Some? ==> r == Parse(json.value).value
    ensures TruthyString(json) && Parse(json.value).None? ==> r == []
  {
    if !TruthyString(json) then []
    else match Parse(json.value)
      case Some(a) => a
      case None => []
  }

  /** Storing an array and reading it back gives the array, with a missing one read as `[]`. */
  lemma ArrayJsonRoundTrip(a: Option<seq<string>>)
    ensures JsonToArray(ArrayToJson(a)) == a.GetOr([])
  {
    if a.Some? && a.value != [] {
      RoundTrip(a.value);
    }
  }

  /** What the client submitted for the seven lists, with a missing list read as `[]`. */
  function Submitted(l: Lists<Option<seq<string>>>): (r: Lists<seq<string>>)
    ensures r.emotionCheckboxes == l.emotionCheckboxes.GetOr([])
    ensures r.sleepDifficulties == l.sleepDifficulties.GetOr([])
    ensures r.mealRegularity == l.mealRegularity.GetOr([])
    ensures r.selfCareActivities == l.selfCareActivities.GetOr([])
    ensures r.socialInteractions == l.socialInteractions.GetOr([])
    ensures r.stressors == l.stressors.GetOr([])
    ensures r.copingStrategies == l.copingStrategies.GetOr([])
  {
    MapLists(l, (a: Option<seq<string>>) => a.GetOr([]))
  }

  function StoredLists(l: Lists<Option<seq<string>>>): Lists<Option<string>> {
    MapLists(l, ArrayToJson)
  }

  function ParsedLists(l: Lists<Option<string>>): Lists<seq<string>> {
    MapLists(l, JsonToArray)
  }

  /** The seven lists survive being stored and read back. */
  lemma ListsRoundTrip(l: Lists<Option<seq<string>>>)
    ensures ParsedLists(StoredLists(l)) == Submitted(l)
  {
    ArrayJsonRoundTrip(l.emotionCheckboxes);
    ArrayJsonRoundTrip(l.sleepDifficulties);
    ArrayJsonRoundTrip(l.mealRegularity);
    ArrayJsonRoundTrip(l.selfCareActivities);
    ArrayJsonRoundTrip(l.socialInteractions);
    ArrayJsonRoundTrip(l.stressors);
    ArrayJsonRoundTrip(l.copingStrategies);
  }

  // ---------------------------------------------------------------------------
  // The log as the routes answer it
  // ---------------------------------------------------------------------------

  /** A log with its list answers parsed back to arrays. */
  datatype LogView = LogView(
    id: string, userId: string, date: int, createdAt: int,
    moodRating: Option<int>, sleepQuality: Option<int>, energyLevel: Option<int>,
    medicationTaken: Option<bool>, notes: Option<string>, lists: Lists<seq<string>>)

  /** `{ ...log, emotionCheckboxes: jsonToArray(log.emotionCheckboxes), ... }` */
  function View(log: DailyLog): (r: LogView)
    ensures r.id == log.id && r.userId == log.userId && r.createdAt == log.createdAt
    ensures r.lists == ParsedLists(log.lists)
  {
    LogView(log.id, log.userId, log.date, log.createdAt, log.moodRating, log.sleepQuality,
            log.energyLevel, log.medicationTaken, log.notes, ParsedLists(log.lists))
  }

  function Views(logs: seq<DailyLog>): (r: seq<LogView>)
    ensures |r| == |logs| && forall i :: 0 <= i < |r| ==> r[i] == View(logs[i])
  {
    seq(|logs|, i requires 0 <= i < |logs| => View(logs[i]))
  }

  // ---------------------------------------------------------------------------
  // POST: update today's log or create it
  // ---------------------------------------------------------------------------

  /**
   * The request body's fields that the model follows. A scalar that is `None` was left out of
   * the body: an update then leaves the stored value alone, a create stores null.
   */
  datatype LogInput = LogInput(
    moodRating: Option<int>, sleepQuality: Option<int>, energyLevel: Option<int>,
    medicationTaken: Option<bool>, notes: Option<string>, lists: Lists<Option<seq<string>>>)

  /** A log created today, in [today 00:00, tomorrow 00:00), belonging to the caller. */
  predicate IsTodays(log: DailyLog, userId: string, now: int) {
    log.userId == userId && StartOfDay(now) <= log.createdAt < StartOfDay(now) + DAY_MS
  }

  /** `findFirst`: the index of the first such log in the store's order. */
  function FindToday(store: seq<DailyLog>, userId: string, now: int, k: nat): (r: Option<nat>)
    requires k <= |store|
    ensures r.Some? ==> k <= r.value < |store| && IsTodays(store[r.value], userId, now)
    ensures r.Some? ==> forall j :: k <= j < r.value ==> !IsTodays(store[j], userId, now)
    ensures r.None? <==> forall j :: k <= j < |store| ==> !IsTodays(store[j], userId, now)
    decreases |store| - k
  {
    if k == |store| then None
    else if IsTodays(store[k], userId, now) then Some(k)
    else FindToday(store, userId, now, k + 1)
  }

  /** A Prisma update field: a value left out of the body leaves the stored one alone. */
  function Patch<T>(stored: Option<T>, given: Option<T>): Option<T> {
    if given.Some? then given else stored
  }

  /** The update branch: scalars patched, every list overwritten (with null when not given). */
  function Updated(log: DailyLog, input: LogInput): (r: DailyLog)
    ensures r.id == log.id && r.userId == log.userId && r.date == log.date && r.createdAt == log.createdAt
    ensures input.moodRating.Some? ==> r.moodRating == input.moodRating
    ensures input.moodRating.None? ==> r.moodRating == log.moodRating
    ensures input.sleepQuality.Some? ==> r.sleepQuality == input.sleepQuality
    ensures input.sleepQuality.None? ==> r.sleepQuality == log.sleepQuality
    ensures input.energyLevel.Some? ==> r.energyLevel == input.energyLevel
    ensures input.energyLevel.None? ==> r.energyLevel == log.energyLevel
    ensures input.medicationTaken.Some? ==> r.medicationTaken == input.medicationTaken
    ensures input.medicationTaken.None? ==> r.medicationTaken == log.medicationTaken
    ensures input.notes.Some? ==> r.notes == input.notes
    ensures input.notes.None? ==> r.notes == log.notes
    ensures r.lists == StoredLists(input.lists)
  {
    log.(moodRating := Patch(log.moodRating, input.moodRating),
         sleepQuality := Patch(log.sleepQuality, input.sleepQuality),
         energyLevel := Patch(log.energyLevel, input.energyLevel),
         medicationTaken := Patch(log.medicationTaken, input.medicationTaken),
         notes := Patch(log.notes, input.notes),
         lists := StoredLists(input.lists))
  }

  /**
   * The create branch. `createdAt` is the clock reading; `date` takes the schema's default,
   * which the caller passes as `dateDefault`.
   */
  function Created(id: string, userId: string, now: int, dateDefault: int, input: LogInput): (r: DailyLog)
    ensures r.userId == userId && r.createdAt == now && IsTodays(r, userId, now)
    ensures r.moodRating == input.moodRating && r.sleepQuality == input.sleepQuality
    ensures r.energyLevel == input.energyLevel && r.medicationTaken == input.medicationTaken
    ensures r.notes == input.notes && r.lists == StoredLists(input.lists)
  {
    DailyLog(id, userId, dateDefault, now, input.moodRating, input.sleepQuality, input.energyLevel,
             input.medicationTaken, input.notes, StoredLists(input.lists))
  }

  /** The answer and the store after it. */
  datatype Saved = Saved(response: Response<LogView>, store: seq<DailyLog>)

  /** The POST handler over the whole store of logs; `newId` is the id a create would get. */
  function Post(userId: Option<string>, now: int, newId: string, dateDefault: int,
                input: LogInput, store: seq<DailyLog>): (r: Saved)
    ensures !TruthyString(userId) ==> r == Saved(Error(401, "Unauthorized"), store)
    ensures TruthyString(userId) ==> r.response.Ok? && |store| <= |r.store| <= |store| + 1
  {
    if !TruthyString(userId) then Saved(Unauthorized(), store)
    else
      var uid := userId.value;
      match FindToday(store, uid, now, 0)
      case Some(i) =>
        var log := Updated(store[i], input);
        Saved(Ok(View(log)), store[i := log])
      case None =>
        var log := Created(newId, uid, now, dateDefault, input);
        Saved(Ok(View(log)), store + [log])
  }

  /**
   * With a log of the caller's already created today, that log (the first in store order) is
   * updated in place and nothing else changes; otherwise exactly one log is appended.
   */
  lemma PostUpdatesOrCreates(userId: string, now: int, newId: string, dateDefault: int,
                             input: LogInput, store: seq<DailyLog>)
    requires userId != ""
    ensures var r := Post(Some(userId), now, newId, dateDefault, input, store);
      if exists j :: 0 <= j < |store| && IsTodays(store[j], userId, now) then
        exists i :: 0 <= i < |store| && IsTodays(store[i], userId, now)
          && (forall j :: 0 <= j < i ==> !IsTodays(store[j], userId, now))
          && r.store == store[i := Updated(store[i], input)]
      else
        r.store == store + [Created(newId, userId, now, dateDefault, input)]
  {
    var f := FindToday(store, userId, now, 0);
    if f.Some? {
      var i := f.value;
      assert IsTodays(store[i], userId, now);
    }
  }

  /** The saved log is the caller's, created today, and its lists are the submitted arrays. */
  lemma PostAnswersTodaysLog(userId: string, now: int, newId: string, dateDefault: int,
                             input: LogInput, store: seq<DailyLog>)
    requires userId != ""
    ensures var r := Post(Some(userId), now, newId, dateDefault, input, store);
      && r.response.Ok?
      && r.response.body.userId == userId
      && StartOfDay(now) <= r.response.body.createdAt < StartOfDay(now) + DAY_MS
      && r.response.body.lists == Submitted(input.lists)
      && (input.moodRating.Some? ==> r.response.body.moodRating == input.moodRating)
  {
    ListsRoundTrip(input.lists);
    var f := FindToday(store, userId, now, 0);
    if f.Some? {
      assert IsTodays(store[f.value], userId, now);
    }
  }

  /** Midnight of an instant's day identifies the day: the today window is exactly that day. */
  lemma TodayWindowIsDay(t: int, now: int)
    ensures StartOfDay(now) <= t < StartOfDay(now) + DAY_MS <==> StartOfDay(t) == StartOfDay(now)
  {
    var n := DayNumber(now);
    if StartOfDay(now) <= t < StartOfDay(now) + DAY_MS {
      assert n * DAY_MS <= t < n * DAY_MS + DAY_MS;
      assert t / DAY_MS == n;
    }
  }

  /** At most one log per user per calendar day of `createdAt`. */
  predicate OnePerDay(store: seq<DailyLog>) {
    forall i, j :: 0 <= i < j < |store| && store[i].userId == store[j].userId
      ==> StartOfDay(store[i].createdAt) != StartOfDay(store[j].createdAt)
  }

  /** Saving a check-in never gives a user a second log on the same day. */
  lemma PostKeepsOnePerDay(userId: Option<string>, now: int, newId: string, dateDefault: int,
                           input: LogInput, store: seq<DailyLog>)
    requires OnePerDay(store)
    ensures OnePerDay(Post(userId, now, newId, dateDefault, input, store).store)
  {
    if TruthyString(userId) {
      var uid := userId.value;
      var f := FindToday(store, uid, now, 0);
      var s := Post(userId, now, newId, dateDefault, input, store).store;
      if f.Some? {
        var i := f.value;
        assert s == store[i := Updated(store[i], input)];
        forall a, b | 0 <= a < b < |s| && s[a].userId == s[b].userId
          ensures StartOfDay(s[a].createdAt) != StartOfDay(s[b].createdAt)
        {
          assert s[a].userId == store[a].userId && s[a].createdAt == store[a].createdAt;
          assert s[b].userId == store[b].userId && s[b].createdAt == store[b].createdAt;
        }
      } else {
        var log := Created(newId, uid, now, dateDefault, input);
        assert s == store + [log];
        forall a, b | 0 <= a < b < |s| && s[a].userId == s[b].userId
          ensures StartOfDay(s[a].createdAt) != StartOfDay(s[b].createdAt)
        {
          if b == |store| {
            assert s[a] == store[a] && s[b] == log;
            assert !IsTodays(store[a], uid, now);
            TodayWindowIsDay(store[a].createdAt, now);
          } else {
            assert s[a] == store[a] && s[b] == store[b];
          }
        }
      }
    }
  }

  // ---------------------------------------------------------------------------
  // GET: pagination
  // ---------------------------------------------------------------------------

  /** `Math.ceil` on reals. */
  function Ceil(x: real): (r: int)
    ensures (r - 1) as real < x <= r as real
  {
    -((-x).Floor)
  }

  /** `Math.ceil(total / limit)`; dividing by a zero limit gives a non-finite number, sent as null. */
  function TotalPages(total: nat, limit: int): (r: Option<int>)
    ensures r.None? <==> limit == 0
    ensures limit > 0 ==> r.Some? && (r.value - 1) * limit < total <= r.value * limit
    ensures limit > 0 ==> (r.value == 0 <==> total == 0)
  {
    if limit == 0 then None
    else if limit < 0 then Some(Ceil(total as real / limit as real))
    else
      var c := Ceil(total as real / limit as real);
      PagesCover(total, limit, c);
      Some(c)
  }

  lemma PagesCover(total: nat, limit: int, c: int)
    requires limit > 0 && (c - 1) as real < total as real / limit as real <= c as real
    ensures (c - 1) * limit < total <= c * limit
  {
    BelowTimes(total as real, limit as real, (c - 1) as real);
    CastMul(c - 1, limit);
    AboveTimes(total as real, limit as real, c as real);
    CastMul(c, limit);
  }

  lemma BelowTimes(t: real, l: real, x: real)
    requires l > 0.0 && x < t / l
    ensures x * l < t
  {
    assert (t / l) * l == t;
    MulStrict(x, t / l, l);
  }

  lemma AboveTimes(t: real, l: real, x: real)
    requires l > 0.0 && t / l <= x
    ensures t <= x * l
  {
    assert (t / l) * l == t;
    MulWeak(t / l, x, l);
  }

  lemma MulStrict(a: real, b: real, k: real)
    requires a < b && k > 0.0
    ensures a * k < b * k
  {
  }

  lemma MulWeak(a: real, b: real, k: real)
    requires a <= b && k > 0.0
    ensures a * k <= b * k
  {
  }

  lemma CastMul(a: int, b: int)
    ensures (a * b) as real == a as real * b as real
  {
  }

  function Min(a: int, b: int): int {
    if a <= b then a else b
  }

  /** `skip: skip, take: take` on a list: at most `take` entries starting at index `skip`. */
  function Slice<T>(items: seq<T>, skip: nat, take: nat): (r: seq<T>)
    ensures |r| <= take
    ensures skip <= |items| ==> r == items[skip..Min(skip + take, |items|)]
    ensures skip >= |items| ==> r == []
  {
    if skip >= |items| then [] else items[skip..Min(skip + take, |items|)]
  }

  /** Page `page` (from 1) of `limit` entries each. */
  function PageOf<T>(items: seq<T>, page: int, limit: int): seq<T>
    requires page >= 1 && limit >= 0
  {
    Slice(items, (page - 1) * limit, limit)
  }

  /** Pages 1..n one after another. */
  function Pages<T>(items: seq<T>, limit: int, n: nat): seq<T>
    requires limit >= 0
  {
    if n == 0 then [] else Pages(items, limit, n - 1) + PageOf(items, n, limit)
  }

  lemma {:induction false} PagesPrefix<T>(items: seq<T>, limit: int, n: nat)
    requires limit >= 0
    ensures Pages(items, limit, n) == items[..Min(n * limit, |items|)]
  {
    if n > 0 {
      PagesPrefix(items, limit, n - 1);
      var lo := Min((n - 1) * limit, |items|);
      assert n * limit == (n - 1) * limit + limit;
      if (n - 1) * limit < |items| {
        assert items[..lo] + items[lo..Min(n * limit, |items|)] == items[..Min(n * limit, |items|)];
      }
    }
  }

  /**
   * With a positive limit, pages 1..totalPages list every log exactly once, in order, each page
   * holds at most `limit` logs, and the page after the last is empty.
   */
  lemma PagesListAll<T>(items: seq<T>, limit: int)
    requires limit > 0
    ensures var n := TotalPages(|items|, limit).value;
      && Pages(items, limit, n) == items
      && (forall p :: 1 <= p <= n ==> 0 < |PageOf(items, p, limit)| <= limit)
      && PageOf(items, n + 1, limit) == []
  {
    var n := TotalPages(|items|, limit).value;
    assert (n - 1) * limit < |items| <= n * limit;
    PagesPrefix(items, limit, n);
    assert items[..Min(n * limit, |items|)] == items;
    forall p | 1 <= p <= n
      ensures 0 < |PageOf(items, p, limit)|
    {
      PageNotEmpty(items, limit, n, p);
    }
  }

  /** A page up to the last one starts inside the list, so it holds at least one entry. */
  lemma PageNotEmpty<T>(items: seq<T>, limit: int, n: int, p: int)
    requires limit > 0 && 1 <= p <= n && (n - 1) * limit < |items|
    ensures 0 < |PageOf(items, p, limit)|
  {
    MulMonotone(p - 1, n - 1, limit);
  }

  lemma MulMonotone(a: int, b: int, k: int)
    requires 0 <= a <= b && k >= 0
    ensures a * k <= b * k
  {
  }

  /** The GET answer. */
  datatype Listing = Listing(dailyLogs: seq<LogView>, total: nat, page: int, totalPages: Option<int>)

  function Max(a: int, b: int): int {
    if a >= b then a else b
  }

  /**
   * A negative `take: -n` counts from the end: the store reverses the order, skips and takes
   * `n`, and reverses the result back, so the entries keep the list's order.
   */
  function SliceFromEnd<T>(items: seq<T>, skip: nat, take: nat): (r: seq<T>)
    ensures |r| <= take
    ensures skip <= |items| ==> r == items[Max(0, |items| - skip - take)..|items| - skip]
    ensures skip >= |items| ==> r == []
  {
    if skip >= |items| then [] else items[Max(0, |items| - skip - take)..|items| - skip]
  }

  function Reverse<T>(items: seq<T>): (r: seq<T>)
    ensures |r| == |items|
    ensures forall i :: 0 <= i < |items| ==> r[i] == items[|items| - 1 - i]
  {
    if items == [] then [] else Reverse(items[1..]) + [items[0]]
  }

  /** Counting from the end is slicing the reversed list and reversing the slice back. */
  lemma SliceFromEndIsReversed<T>(items: seq<T>, skip: nat, take: nat)
    ensures SliceFromEnd(items, skip, take) == Reverse(Slice(Reverse(items), skip, take))
  {
    var a := SliceFromEnd(items, skip, take);
    var b := Reverse(Slice(Reverse(items), skip, take));
    if skip < |items| {
      var lo := Max(0, |items| - skip - take);
      var hi := Min(skip + take, |items|);
      assert |b| == hi - skip == |a|;
      forall i | 0 <= i < |a|
        ensures a[i] == b[i]
      {
        assert b[i] == Reverse(items)[skip + (hi - skip - 1 - i)];
      }
    }
  }

  /**
   * The GET handler, given the caller's logs newest first and the parsed `page` and `limit`
   * parameters (`None` when absent). A negative skip is refused by the store, which the route
   * reports as a 500; a negative take counts from the end of the list.
   */
  function Get(userId: Option<string>, page: Option<int>, limit: Option<int>, logs: seq<DailyLog>): (r: Response<Listing>)
    ensures !TruthyString(userId) ==> r == Error(401, "Unauthorized")
    ensures TruthyString(userId) ==>
      var p := page.GetOr(1);
      var l := limit.GetOr(10);
      if (p - 1) * l < 0 then r == Error(500, "Failed to fetch daily logs")
      else (r.Ok? && r.body.total == |logs| && r.body.page == p
        && (l >= 0 ==> r.body.dailyLogs == Views(Slice(logs, (p - 1) * l, l)))
        && (l < 0 ==> r.body.dailyLogs == Views(Reverse(Slice(Reverse(logs), (p - 1) * l, -l))))
        && |r.body.dailyLogs| <= (if l < 0 then -l else l)
        && r.body.totalPages == TotalPages(|logs|, l))
  {
    if !TruthyString(userId) then Unauthorized()
    else
      var p := page.GetOr(1);
      var l := limit.GetOr(10);
      var skip := (p - 1) * l;
      if skip < 0 then Error(500, "Failed to fetch daily logs")
      else if l < 0 then
        SliceFromEndIsReversed(logs, skip, -l);
        Ok(Listing(Views(SliceFromEnd(logs, skip, -l)), |logs|, p, TotalPages(|logs|, l)))
      else Ok(Listing(Views(Slice(logs, skip, l)), |logs|, p, TotalPages(|logs|, l)))
  }

  /** `?page=1&limit=-n` lists the n oldest logs, oldest last as in the newest-first order. */
  lemma GetNegativeLimit(userId: string, n: int, logs: seq<DailyLog>)
    requires userId != "" && n > 0
    ensures var r := Get(Some(userId), Some(1), Some(-n), logs);
      r.Ok? && r.body.dailyLogs == Views(logs[Max(0, |logs| - n)..])
  {
    assert (1 - 1) * -n == 0;
    SliceFromEndIsReversed(logs, 0, n);
    assert SliceFromEnd(logs, 0, n) == logs[Max(0, |logs| - n)..];
  }

  /** Without parameters the first ten logs are listed. */
  lemma GetDefaults(userId: string, logs: seq<DailyLog>)
    requires userId != ""
    ensures var r := Get(Some(userId), None, None, logs);
      r.Ok? && r.body.page == 1 && r.body.dailyLogs == Views(logs[..Min(10, |logs|)])
  {
  }
}
