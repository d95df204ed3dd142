/**
 * The three-step signup form: Continue moves from step 1 to 2 to 3, Back goes one step down,
 * the last step checks the password confirmation and sends the signup request, and the
 * medication list is edited with add and remove.
 */
module SignupForm {
  import opened Wrappers
  import opened Text
  import opened Json
  import opened SignupApi

  const LAST_STEP := 3

  /** A medication being typed in or already listed. */
  datatype Med = Med(name: string, dosage: Option<string>, frequency: Option<string>, notes: Option<string>)

  const EMPTY_MED := Med("", None, None, None)

  /** The text fields, as typed. */
  datatype FormData = FormData(
    firstName: string, lastName: string, email: string, password: string,
    confirmPassword: string, age: string, emergencyContact: string)

  datatype Form = Form(step: int, loading: bool, medications: seq<Med>, currentMed: Med, data: FormData)

  /** The form as it first renders. */
  function Initial(): (f: Form)
    ensures f.step == 1 && !f.loading && f.medications == [] && f.currentMed == EMPTY_MED
  {
    Form(1, false, [], EMPTY_MED, FormData("", "", "", "", "", "", ""))
  }

  /** The step is always one of 1, 2, 3. */
  predicate Valid(f: Form) {
    1 <= f.step <= LAST_STEP
  }

  // ---------------------------------------------------------------------------
  // The browser's constraint validation of the rendered inputs
  // ---------------------------------------------------------------------------

  const MIN_AGE_FIELD := 10
  const MAX_AGE_FIELD := 19

  /** `type="number" min="10" max="19" required`: a whole number in 10..19 was typed. */
  predicate AgeFieldValid(age: string) {
    |age| > 0 && AllDigits(age) && MIN_AGE_FIELD <= DigitsValue(age) <= MAX_AGE_FIELD
  }

  /** Step 1 renders the two names (`required`) and the age. */
  predicate Step1Valid(d: FormData) {
    d.firstName != "" && d.lastName != "" && AgeFieldValid(d.age)
  }

  /** Step 2 renders the email and both passwords, all `required`. */
  predicate Step2Valid(d: FormData) {
    d.email != "" && d.password != "" && d.confirmPassword != ""
  }

  /** Whether the browser lets the form at this step submit: only the rendered inputs count. */
  predicate RenderedValid(f: Form) {
    (f.step == 1 ==> Step1Valid(f.data)) && (f.step == 2 ==> Step2Valid(f.data))
  }

  /** The fields of every step already passed were valid when it was left, and still are. */
  predicate PassedValid(f: Form) {
    (f.step >= 2 ==> Step1Valid(f.data)) && (f.step >= 3 ==> Step2Valid(f.data))
  }

  /** Typing into the inputs rendered at the current step; the others cannot change. */
  function Edit(f: Form, d: FormData): (r: Form)
    ensures r.step == f.step && r.loading == f.loading && r.medications == f.medications
    ensures f.step == 1 ==> r.data == f.data.(firstName := d.firstName, lastName := d.lastName, age := d.age)
    ensures f.step == 2 ==> r.data == f.data.(email := d.email, password := d.password,
                                              confirmPassword := d.confirmPassword,
                                              emergencyContact := d.emergencyContact)
    ensures f.step != 1 && f.step != 2 ==> r.data == f.data
  {
    if f.step == 1 then f.(data := f.data.(firstName := d.firstName, lastName := d.lastName, age := d.age))
    else if f.step == 2 then
      f.(data := f.data.(email := d.email, password := d.password, confirmPassword := d.confirmPassword,
                         emergencyContact := d.emergencyContact))
    else f
  }

  // ---------------------------------------------------------------------------
  // parseInt(s), radix left to the string
  // ---------------------------------------------------------------------------

  predicate IsHexDigit(c: char) {
    HexValue(c).Some?
  }

  /** The longest prefix of decimal digits. */
  function DecimalPrefix(s: string): (r: string)
    ensures AllDigits(r) && |r| <= |s| && r == s[..|r|]
    ensures |r| < |s| ==> !IsDigit(s[|r|])
  {
    if s != [] && IsDigit(s[0]) then
      var t := DecimalPrefix(s[1..]);
      assert s[..1 + |t|] == [s[0]] + s[1..][..|t|];
      [s[0]] + t
    else []
  }

  /** The longest prefix of hexadecimal digits. */
  function HexPrefix(s: string): (r: string)
    ensures |r| <= |s| && r == s[..|r|] && forall i :: 0 <= i < |r| ==> IsHexDigit(r[i])
  {
    if s != [] && IsHexDigit(s[0]) then
      var t := HexPrefix(s[1..]);
      assert s[..1 + |t|] == [s[0]] + s[1..][..|t|];
      [s[0]] + t
    else []
  }

  function HexDigitsValue(s: string): nat
    requires forall i :: 0 <= i < |s| ==> IsHexDigit(s[i])
  {
    if s == [] then 0
    else
      assert IsHexDigit(s[|s| - 1]);
      HexDigitsValue(s[..|s| - 1]) * 16 + HexValue(s[|s| - 1]).value
  }

  /** The magnitude after the sign: `0x`/`0X` switches to hexadecimal; no digit at all is NaN. */
  function Magnitude(s: string): Option<nat> {
    if |s| >= 2 && s[0] == '0' && (s[1] == 'x' || s[1] == 'X') then
      var h := HexPrefix(s[2..]);
      if h == [] then None else Some(HexDigitsValue(h))
    else
      var d := DecimalPrefix(s);
      if d == [] then None else Some(DigitsValue(d))
  }

  /** `parseInt(s)`; `None` stands for NaN, which `JSON.stringify` sends as null. */
  function ParseInt(s: string): (r: Option<int>)
    ensures TrimStart(s) == [] ==> r.None?
  {
    var t := TrimStart(s);
    if t != [] && t[0] == '-' then
      match Magnitude(t[1..])
      case Some(m) => Some(-(m as int))
      case None => None
    else if t != [] && t[0] == '+' then Magnitude(t[1..])
    else Magnitude(t)
  }

  /** A numeral typed as `n.toString()` is read back as `n`. */
  lemma ParseIntNumeral(n: nat)
    ensures ParseInt(NatToString(n)) == Some(n)
  {
    var s := NatToString(n);
    DigitNotSpace(s[0]);
    assert TrimStart(s) == s;
    MagnitudeOfNumeral(s);
  }

  lemma DigitNotSpace(c: char)
    requires IsDigit(c)
    ensures !IsWhitespace(c) && c != '-' && c != '+'
  {
  }

  lemma MagnitudeOfNumeral(s: string)
    requires |s| > 0 && AllDigits(s) && (s[0] == '0' ==> |s| == 1)
    ensures Magnitude(s) == Some(DigitsValue(s))
  {
    DecimalPrefixAll(s);
  }

  lemma {:induction false} DecimalPrefixAll(s: string)
    requires AllDigits(s)
    ensures DecimalPrefix(s) == s
  {
    if s != [] {
      DecimalPrefixAll(s[1..]);
    }
  }

  // ---------------------------------------------------------------------------
  // Steps
  // ---------------------------------------------------------------------------

  /** The request `handleSubmit` sends: every text field, `age: parseInt(age)` and the medications. */
  function RequestOf(f: Form): (b: SignupBody)
    ensures b.email == Some(f.data.email) && b.password == Some(f.data.password)
    ensures b.age == ParseInt(f.data.age)
    ensures b.medications.Some? && |b.medications.value| == |f.medications|
  {
    var ms := seq(|f.medications|, i requires 0 <= i < |f.medications| =>
      var m := f.medications[i];
      MedicationInput(Some(m.name), m.dosage, m.frequency, m.notes));
    SignupBody(Some(f.data.firstName), Some(f.data.lastName), Some(f.data.email),
               Some(f.data.password), ParseInt(f.data.age), Some(f.data.emergencyContact), Some(ms))
  }

  /** What one submit does: the new form, the request sent if any, and the error toast if any. */
  datatype Submitted = Submitted(form: Form, request: Option<SignupBody>, toast: Option<string>)

  /**
   * The form's submit up to the request. The browser runs `handleSubmit` only when the inputs
   * rendered at this step are valid; before the last step it then only moves forward.
   */
  function Submit(f: Form): (r: Submitted)
    ensures !RenderedValid(f) ==> r == Submitted(f, None, None)
    ensures RenderedValid(f) && f.step < LAST_STEP ==> r == Submitted(f.(step := f.step + 1), None, None)
    ensures f.step >= LAST_STEP && f.data.password != f.data.confirmPassword ==>
      r == Submitted(f, None, Some("Passwords do not match"))
    ensures r.request.Some? <==> f.step >= LAST_STEP && f.data.password == f.data.confirmPassword
    ensures r.request.Some? ==> r.request.value == RequestOf(f) && r.form == f.(loading := true)
  {
    if !RenderedValid(f) then Submitted(f, None, None)
    else if f.step < LAST_STEP then Submitted(f.(step := f.step + 1), None, None)
    else if f.data.password != f.data.confirmPassword then Submitted(f, None, Some("Passwords do not match"))
    else Submitted(f.(loading := true), Some(RequestOf(f)), None)
  }

  /** The `finally` after the request settles. */
  function Settle(f: Form): (r: Form)
    ensures !r.loading && r.(loading := f.loading) == f
  {
    f.(loading := false)
  }

  /** The Back button, rendered only above step 1. */
  function Back(f: Form): (r: Form)
    ensures f.step > 1 ==> r == f.(step := f.step - 1)
    ensures f.step <= 1 ==> r == f
  {
    if f.step > 1 then f.(step := f.step - 1) else f
  }

  /** Submit and Back keep the step within 1..3, and Back undoes a step forward. */
  lemma StepsStayInRange(f: Form)
    requires Valid(f)
    ensures Valid(Submit(f).form) && Valid(Back(f)) && Valid(Settle(f))
    ensures f.step < LAST_STEP && RenderedValid(f) ==> Back(Submit(f).form) == f
  {
  }

  /**
   * Every action keeps the fields of the steps already passed valid: Continue leaves a step
   * only when its fields are valid, and a field can be edited only on its own step.
   */
  lemma ActionsKeepPassedValid(f: Form, d: FormData, index: int)
    requires Valid(f) && PassedValid(f)
    ensures PassedValid(Submit(f).form) && PassedValid(Back(f)) && PassedValid(Settle(f))
    ensures PassedValid(Edit(f, d)) && PassedValid(AddMedication(f)) && PassedValid(RemoveMedication(f, index))
  {
  }

  /** From the start nothing is typed, so Continue is blocked; with both steps filled in, two
   * presses reach step 3 and neither sends a request. */
  lemma RequestNeedsThreeSubmits(d: FormData)
    ensures Submit(Initial()) == Submitted(Initial(), None, None)
    ensures Step1Valid(d) && Step2Valid(d) ==>
      var f := Initial().(data := d);
      && Submit(f).request.None? && Submit(Submit(f).form).request.None?
      && Submit(Submit(f).form).form.step == LAST_STEP
  {
  }

  lemma {:induction false} DecimalPrefixOfDigits(s: string)
    requires |s| > 0 && AllDigits(s)
    ensures ParseInt(s) == Some(DigitsValue(s))
  {
    DigitNotSpace(s[0]);
    assert TrimStart(s) == s;
    if |s| >= 2 {
      assert IsDigit(s[1]);
    }
    DecimalPrefixAll(s);
  }

  /**
   * A blank age field would reach the server as null and be stored as the default 18, but the
   * browser never lets it leave step 1; a request the form sends carries the age typed, in 10..19.
   */
  lemma BlankAgeDefaults(f: Form)
    requires Valid(f) && PassedValid(f)
    ensures TrimStart(f.data.age) == [] ==> AgeOf(RequestOf(f).age) == DEFAULT_AGE
    ensures TrimStart(f.data.age) == [] && f.step == 1 ==> Submit(f) == Submitted(f, None, None)
    ensures Submit(f).request.Some? ==>
      Submit(f).request.value.age == Some(DigitsValue(f.data.age))
      && MIN_AGE <= AgeOf(Submit(f).request.value.age) <= MAX_AGE
  {
    if f.step >= 2 {
      DecimalPrefixOfDigits(f.data.age);
    }
  }

  // ---------------------------------------------------------------------------
  // The medication list
  // ---------------------------------------------------------------------------

  /** `addMedication`: lists the entry and clears it only when its trimmed name is non-empty. */
  function AddMedication(f: Form): (r: Form)
    ensures Trim(f.currentMed.name) != "" ==>
      r == f.(medications := f.medications + [f.currentMed], currentMed := EMPTY_MED)
    ensures Trim(f.currentMed.name) == "" ==> r == f
  {
    if Trim(f.currentMed.name) != "" then
      f.(medications := f.medications + [f.currentMed], currentMed := EMPTY_MED)
    else f
  }

  /** `medications.filter((_, i) => i !== index)` */
  function RemoveAt(ms: seq<Med>, index: int): (r: seq<Med>)
    decreases |ms|
  {
    if ms == [] then []
    else if index == 0 then RemoveAt(ms[1..], index - 1)
    else [ms[0]] + RemoveAt(ms[1..], index - 1)
  }

  /** Removing drops exactly the entry at `index` and keeps the rest in order. */
  lemma {:induction false} RemoveAtSpec(ms: seq<Med>, index: int)
    ensures 0 <= index < |ms| ==> RemoveAt(ms, index) == ms[..index] + ms[index + 1..]
    ensures !(0 <= index < |ms|) ==> RemoveAt(ms, index) == ms
    decreases |ms|
  {
    if ms != [] {
      RemoveAtSpec(ms[1..], index - 1);
      if index > 0 && index < |ms| {
        assert ms[..index] == [ms[0]] + ms[1..][..index - 1];
        assert ms[index + 1..] == ms[1..][index..];
      }
      if !(0 <= index < |ms|) {
        assert ms == [ms[0]] + ms[1..];
      }
    }
  }

  function RemoveMedication(f: Form, index: int): (r: Form)
    ensures r.step == f.step && r.currentMed == f.currentMed && r.data == f.data
  {
    f.(medications := RemoveAt(f.medications, index))
  }

  /** Every listed medication has a name with something other than whitespace. */
  predicate NamedList(f: Form) {
    forall i :: 0 <= i < |f.medications| ==> Trim(f.medications[i].name) != ""
  }

  /** Adding and removing keep every listed medication named, and removing undoes an add. */
  lemma EditsKeepNamedList(f: Form, index: int)
    requires NamedList(f)
    ensures NamedList(AddMedication(f)) && NamedList(RemoveMedication(f, index))
    ensures Trim(f.currentMed.name) != "" ==>
      RemoveMedication(AddMedication(f), |f.medications|).medications == f.medications
  {
    RemoveAtSpec(f.medications, index);
    var ms := f.medications;
    if Trim(f.currentMed.name) != "" {
      RemoveAtSpec(ms + [f.currentMed], |ms|);
      assert (ms + [f.currentMed])[..|ms|] == ms;
    }
    if 0 <= index < |ms| {
      var r := ms[..index] + ms[index + 1..];
      forall i | 0 <= i < |r|
        ensures Trim(r[i].name) != ""
      {
        if i < index {
          assert r[i] == ms[i];
        } else {
          assert r[i] == ms[i + 1];
        }
      }
    }
  }

  /** So the names in a request sent from the form are never blank. */
  lemma RequestNamesPresent(f: Form)
    requires NamedList(f)
    ensures AllNamed(RequestOf(f).medications.value)
  {
  }
}
