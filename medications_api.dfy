/**
 * The medications route: GET lists the caller's medications with `reminderTimes` parsed from
 * its stored JSON text; POST validates a new medication, drops blank times and stores it.
 * The store is a sequence of rows newest first, the order of the query's `createdAt: 'desc'`;
 * a row POST creates is the newest, so it goes to the front.
 */
module MedicationsApi {
  import opened Wrappers
  import opened Text
  import opened Http
  import Json

  /** A stored medication; `reminderTimes` is JSON text or null. */
  datatype MedicationRow = MedicationRow(
    id: string, userId: string, name: string,
    dosage: Option<string>, frequency: Option<string>,
    reminderTimes: Option<string>, reminderDate: Option<string>, isActive: bool)

  /** A medication as GET returns it, with `reminderTimes` as an array. */
  datatype MedicationView = MedicationView(
    id: string, userId: string, name: string,
    dosage: Option<string>, frequency: Option<string>,
    reminderTimes: seq<string>, reminderDate: Option<string>, isActive: bool)

  /** A POST body; a `reminderTimes` that is missing or not an array is `None`. */
  datatype NewMedicationBody = NewMedicationBody(
    name: Option<string>, dosage: Option<string>, frequency: Option<string>,
    reminderTimes: Option<seq<string>>, reminderDate: Option<string>)

  /** `reminderTimes ? JSON.parse(reminderTimes) : []`; `None` when the parse throws. */
  function ParseStoredTimes(stored: Option<string>): (r: Option<seq<string>>)
    ensures !TruthyString(stored) ==> r == Some([])
    ensures TruthyString(stored) ==> r == Json.Parse(stored.value)
  {
    if TruthyString(stored) then Json.Parse(stored.value) else Some([])
  }

  function ViewOf(row: MedicationRow, times: seq<string>): MedicationView {
    MedicationView(row.id, row.userId, row.name, row.dosage, row.frequency, times, row.reminderDate, row.isActive)
  }

  /** The caller's rows, in store order. */
  function RowsOf(rows: seq<MedicationRow>, userId: string): (r: seq<MedicationRow>)
    ensures forall i :: 0 <= i < |r| ==> r[i].userId == userId
    ensures forall row :: row in r <==> row in rows && row.userId == userId
  {
    if rows == [] then []
    else (if rows[0].userId == userId then [rows[0]] else []) + RowsOf(rows[1..], userId)
  }

  /** Every row with its times parsed; `None` as soon as one parse throws. */
  function Views(rows: seq<MedicationRow>): (r: Option<seq<MedicationView>>)
    ensures r.Some? <==> forall i :: 0 <= i < |rows| ==> ParseStoredTimes(rows[i].reminderTimes).Some?
    ensures r.Some? ==> |r.value| == |rows| && forall i :: 0 <= i < |rows| ==>
      r.value[i] == ViewOf(rows[i], ParseStoredTimes(rows[i].reminderTimes).value)
  {
    if rows == [] then Some([])
    else
      match ParseStoredTimes(rows[0].reminderTimes)
      case None => None
      case Some(times) =>
        match Views(rows[1..])
        case None => None
        case Some(rest) => Some([ViewOf(rows[0], times)] + rest)
  }

  /** GET /api/medications */
  function Get(userId: Option<string>, rows: seq<MedicationRow>): (r: Response<seq<MedicationView>>)
    ensures !TruthyString(userId) ==> r == Error(401, "Unauthorized")
    ensures TruthyString(userId) ==>
      (r.Ok? <==> Views(RowsOf(rows, userId.value)).Some?)
      && (r.Ok? ==> r.body == Views(RowsOf(rows, userId.value)).value)
      && (r.Error? ==> r == Error(500, "Internal server error"))
  {
    if !TruthyString(userId) then Unauthorized()
    else
      match Views(RowsOf(rows, userId.value))
      case None => Error(500, "Internal server error")
      case Some(vs) => Ok(vs)
  }

  /** The JSON text POST stores for `reminderTimes`. */
  function StoredTimes(times: Option<seq<string>>): (r: Option<string>)
    ensures times.None? <==> r.None?
    ensures times.Some? ==> r == Some(Json.Stringify(NonBlank(times.value)))
  {
    match times
    case None => None
    case Some(ts) => Some(Json.Stringify(NonBlank(ts)))
  }

  /** POST /api/medications: the answer and the store afterwards. */
  function Post(userId: Option<string>, body: NewMedicationBody, newId: string, rows: seq<MedicationRow>)
    : (r: (Response<MedicationRow>, seq<MedicationRow>))
    ensures !TruthyString(userId) ==> r.0 == Error(401, "Unauthorized") && r.1 == rows
    ensures TruthyString(userId) && !TruthyString(body.name) ==>
      r.0 == Error(400, "Medication name is required") && r.1 == rows
    ensures r.0.Ok? <==> TruthyString(userId) && TruthyString(body.name)
    ensures r.0.Ok? ==> r.1 == [r.0.body] + rows
  {
    if !TruthyString(userId) then (Unauthorized(), rows)
    else if !TruthyString(body.name) then (Error(400, "Medication name is required"), rows)
    else
      var row := MedicationRow(newId, userId.value, body.name.value,
                               OrNull(body.dosage), OrNull(body.frequency),
                               StoredTimes(body.reminderTimes), OrNull(body.reminderDate), true);
      (Ok(row), [row] + rows)
  }

  /** A created medication is active, and its optional fields default to null. */
  lemma PostDefaults(userId: Option<string>, body: NewMedicationBody, newId: string, rows: seq<MedicationRow>)
    requires Post(userId, body, newId, rows).0.Ok?
    ensures var row := Post(userId, body, newId, rows).0.body;
      && row.isActive && row.userId == userId.value && row.name == body.name.value && row.id == newId
      && (row.dosage.None? <==> !TruthyString(body.dosage))
      && (row.frequency.None? <==> !TruthyString(body.frequency))
      && (row.reminderDate.None? <==> !TruthyString(body.reminderDate))
  {
  }

  /**
   * What POST stores, GET reads back: the submitted times without the blank ones, in order,
   * and `[]` when no array was sent.
   */
  lemma StoredTimesReadBack(times: Option<seq<string>>)
    ensures ParseStoredTimes(StoredTimes(times)) == Some(if times.None? then [] else NonBlank(times.value))
  {
    if times.Some? {
      Json.RoundTrip(NonBlank(times.value));
    }
  }

  /**
   * A medication POST creates is listed first by the next GET, with the non-blank times it was
   * sent (`[]` when none), ahead of what GET listed before.
   */
  lemma PostThenGet(userId: Option<string>, body: NewMedicationBody, newId: string, rows: seq<MedicationRow>)
    requires Post(userId, body, newId, rows).0.Ok?
    requires Get(userId, rows).Ok?
    ensures var after := Post(userId, body, newId, rows).1;
      var listed := Get(userId, after);
      && listed.Ok?
      && listed.body == [ViewOf(Post(userId, body, newId, rows).0.body,
                                if body.reminderTimes.None? then [] else NonBlank(body.reminderTimes.value))]
                        + Get(userId, rows).body
  {
    var row := Post(userId, body, newId, rows).0.body;
    var u := userId.value;
    StoredTimesReadBack(body.reminderTimes);
    assert ([row] + rows)[1..] == rows;
    assert RowsOf([row] + rows, u) == [row] + RowsOf(rows, u);
    assert ([row] + RowsOf(rows, u))[1..] == RowsOf(rows, u);
  }
}
