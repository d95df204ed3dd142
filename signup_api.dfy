/**
 * POST /api/signup: checks the body in a fixed order (credentials, age, unused email), fills in
 * defaults, creates the user and then the medications the form listed, and answers with the
 * user record without its password.
 */
module SignupApi {
  import opened Wrappers

  /** One medication as the form lists it; a missing name is refused by the store. */
  datatype MedicationInput = MedicationInput(
    name: Option<string>, dosage: Option<string>, frequency: Option<string>, notes: Option<string>)

  /**
   * The request body. `age` is the JSON number the form sends (`None` for null or missing); the
   * model takes it to be an integer.
   */
  datatype SignupBody = SignupBody(
    firstName: Option<string>, lastName: Option<string>, email: Option<string>,
    password: Option<string>, age: Option<int>, emergencyContact: Option<string>,
    medications: Option<seq<MedicationInput>>)

  /** A stored user; `password` holds the hash. */
  datatype User = User(
    id: string, firstName: string, lastName: string, email: string, password: string,
    age: int, emergencyContact: Option<string>, isActive: bool)

  /** The user as the response shows it: every field but the password. */
  datatype PublicUser = PublicUser(
    id: string, firstName: string, lastName: string, email: string,
    age: int, emergencyContact: Option<string>, isActive: bool)

  /** A medication row created at signup. */
  datatype SignupMedication = SignupMedication(
    userId: string, name: string, dosage: Option<string>, frequency: Option<string>,
    notes: Option<string>, isActive: bool)

  datatype Reply = Reply(message: string, user: PublicUser)

  datatype Response = Ok(body: Reply) | Error(status: int, message: string)

  /** The answer and the stores after it. */
  datatype Outcome = Outcome(response: Response, users: seq<User>, medications: seq<SignupMedication>)

  const MIN_AGE := 10
  const MAX_AGE := 19
  const DEFAULT_AGE := 18

  /** `value || fallback` on an optional string. */
  function OrDefault(s: Option<string>, fallback: string): (r: string)
    ensures TruthyString(s) ==> r == s.value
    ensures !TruthyString(s) ==> r == fallback
  {
    if TruthyString(s) then s.value else fallback
  }

  /** `age || 18`, read back as a whole number: a missing age and the number 0 both become 18. */
  function AgeOf(age: Option<int>): (r: int)
    ensures age.Some? && age.value != 0 ==> r == age.value
    ensures age.None? || age.value == 0 ==> r == DEFAULT_AGE
  {
    if age.Some? && age.value != 0 then age.value else DEFAULT_AGE
  }

  predicate EmailTaken(users: seq<User>, email: string) {
    exists i :: 0 <= i < |users| && users[i].email == email
  }

  /** `findUnique({ where: { email } })` as a scan of the stored users. */
  function FindByEmail(users: seq<User>, email: string): (r: bool)
    ensures r <==> EmailTaken(users, email)
  {
    if users == [] then false
    else if users[0].email == email then true
    else
      assert EmailTaken(users, email) <==> EmailTaken(users[1..], email) by {
        if EmailTaken(users, email) {
          var i :| 0 <= i < |users| && users[i].email == email;
          assert users[1..][i - 1] == users[i];
        }
        if EmailTaken(users[1..], email) {
          var i :| 0 <= i < |users[1..]| && users[1..][i].email == email;
          assert users[i + 1] == users[1..][i];
        }
      }
      FindByEmail(users[1..], email)
  }

  /** The user record without its password. */
  function Public(u: User): (r: PublicUser)
    ensures r.id == u.id && r.email == u.email && r.age == u.age && r.isActive == u.isActive
    ensures r.firstName == u.firstName && r.lastName == u.lastName && r.emergencyContact == u.emergencyContact
  {
    PublicUser(u.id, u.firstName, u.lastName, u.email, u.age, u.emergencyContact, u.isActive)
  }

  predicate AllNamed(ms: seq<MedicationInput>) {
    forall i :: 0 <= i < |ms| ==> ms[i].name.Some?
  }

  /** The rows `createMany` writes: the user's id, the empty strings read as null, active. */
  function MedicationRows(userId: string, ms: seq<MedicationInput>): (r: seq<SignupMedication>)
    requires AllNamed(ms)
    ensures |r| == |ms|
    ensures forall i :: 0 <= i < |r| ==> r[i] == SignupMedication(userId, ms[i].name.value,
      OrNull(ms[i].dosage), OrNull(ms[i].frequency), OrNull(ms[i].notes), true)
  {
    seq(|ms|, i requires 0 <= i < |ms| =>
      SignupMedication(userId, ms[i].name.value, OrNull(ms[i].dosage), OrNull(ms[i].frequency),
                       OrNull(ms[i].notes), true))
  }

  /** The user the route creates from an accepted body. */
  function NewUser(id: string, body: SignupBody, hashed: string): (r: User)
    requires TruthyString(body.email)
  {
    User(id, OrDefault(body.firstName, "Test"), OrDefault(body.lastName, "User"), body.email.value,
         hashed, AgeOf(body.age), OrNull(body.emergencyContact), true)
  }

  /**
   * The handler over the stored users and medications. `newId` is the id the store gives the
   * user and `hashed` the bcrypt hash of the password.
   */
  function Signup(body: SignupBody, users: seq<User>, meds: seq<SignupMedication>,
                  newId: string, hashed: string): (r: Outcome)
    ensures !TruthyString(body.email) || !TruthyString(body.password) ==>
      r == Outcome(Error(400, "Email and password are required"), users, meds)
    ensures (TruthyString(body.email) && TruthyString(body.password)
      && !(MIN_AGE <= AgeOf(body.age) <= MAX_AGE)) ==>
      r == Outcome(Error(400, "Age must be between 10-19"), users, meds)
    ensures (TruthyString(body.email) && TruthyString(body.password)
      && MIN_AGE <= AgeOf(body.age) <= MAX_AGE && EmailTaken(users, body.email.value)) ==>
      r == Outcome(Error(400, "User with this email already exists"), users, meds)
    ensures r.response.Ok? ==> r.users == users + [NewUser(newId, body, hashed)]
  {
    if !TruthyString(body.email) || !TruthyString(body.password) then
      Outcome(Error(400, "Email and password are required"), users, meds)
    else
      var age := AgeOf(body.age);
      if age < MIN_AGE || age > MAX_AGE then
        Outcome(Error(400, "Age must be between 10-19"), users, meds)
      else if FindByEmail(users, body.email.value) then
        Outcome(Error(400, "User with this email already exists"), users, meds)
      else
        var user := NewUser(newId, body, hashed);
        var users' := users + [user];
        if body.medications.Some? && |body.medications.value| > 0 then
          if AllNamed(body.medications.value) then
            Outcome(Ok(Reply("Account created successfully", Public(user))), users',
                    meds + MedicationRows(newId, body.medications.value))
          else
            Outcome(Error(500, "Failed to create account"), users', meds)
        else
          Outcome(Ok(Reply("Account created successfully", Public(user))), users', meds)
  }

  /**
   * An accepted signup: the user is new, active, aged 10..19, has the defaults for what was not
   * given, and the answer is that user without the password.
   */
  lemma SignupCreatesUser(body: SignupBody, users: seq<User>, meds: seq<SignupMedication>,
                          newId: string, hashed: string)
    requires Signup(body, users, meds, newId, hashed).response.Ok?
    ensures var r := Signup(body, users, meds, newId, hashed);
      var u := r.users[|users|];
      && |r.users| == |users| + 1 && r.users[..|users|] == users
      && !EmailTaken(users, u.email) && u.email == body.email.value && u.password == hashed
      && MIN_AGE <= u.age <= MAX_AGE && u.isActive
      && u.firstName == OrDefault(body.firstName, "Test") && u.lastName == OrDefault(body.lastName, "User")
      && (!TruthyString(body.emergencyContact) ==> u.emergencyContact.None?)
      && r.response.body.user == Public(u)
  {
    var r := Signup(body, users, meds, newId, hashed);
    assert r.users == users + [NewUser(newId, body, hashed)];
    assert r.users[..|users|] == users;
  }

  /** A body without a first name, last name or age gets "Test", "User" and 18, and 18 passes. */
  lemma SignupDefaults(body: SignupBody, users: seq<User>, meds: seq<SignupMedication>,
                       newId: string, hashed: string)
    requires TruthyString(body.email) && TruthyString(body.password)
    requires !EmailTaken(users, body.email.value)
    requires body.firstName.None? && body.lastName.None? && (body.age.None? || body.age == Some(0))
    requires body.medications.None?
    ensures var r := Signup(body, users, meds, newId, hashed);
      && r.response.Ok?
      && r.response.body.user.firstName == "Test" && r.response.body.user.lastName == "User"
      && r.response.body.user.age == DEFAULT_AGE
  {
  }

  /** Medications are written only for a non-empty list, one row per entry, in order, all the user's. */
  lemma SignupMedications(body: SignupBody, users: seq<User>, meds: seq<SignupMedication>,
                          newId: string, hashed: string)
    requires Signup(body, users, meds, newId, hashed).response.Ok?
    ensures var r := Signup(body, users, meds, newId, hashed);
      && r.medications[..|meds|] == meds
      && (body.medications.None? || body.medications.value == [] ==> r.medications == meds)
      && (body.medications.Some? ==>
          |r.medications| == |meds| + |body.medications.value|
          && forall i :: 0 <= i < |body.medications.value| ==>
               var m := r.medications[|meds| + i];
               m.userId == newId && m.isActive && Some(m.name) == body.medications.value[i].name)
  {
    var r := Signup(body, users, meds, newId, hashed);
    if body.medications.Some? && |body.medications.value| > 0 {
      var rows := MedicationRows(newId, body.medications.value);
      assert r.medications == meds + rows;
      assert r.medications[..|meds|] == meds;
      forall i | 0 <= i < |body.medications.value|
        ensures r.medications[|meds| + i] == rows[i]
      {
      }
    } else {
      assert r.medications[..|meds|] == meds;
    }
  }

  /**
   * A medication without a name makes `createMany` fail after the user row was written: the
   * answer is a 500, yet the account exists and no medication was stored.
   */
  lemma UnnamedMedicationLeavesUser(body: SignupBody, users: seq<User>, meds: seq<SignupMedication>,
                                    newId: string, hashed: string)
    requires TruthyString(body.email) && TruthyString(body.password)
    requires MIN_AGE <= AgeOf(body.age) <= MAX_AGE && !EmailTaken(users, body.email.value)
    requires body.medications.Some? && !AllNamed(body.medications.value)
    ensures var r := Signup(body, users, meds, newId, hashed);
      && r.response == Error(500, "Failed to create account")
      && EmailTaken(r.users, body.email.value) && r.medications == meds
  {
    var r := Signup(body, users, meds, newId, hashed);
    assert r.users[|users|].email == body.email.value;
  }

  /** No two stored users share an email address. */
  predicate UniqueEmails(users: seq<User>) {
    forall i, j :: 0 <= i < j < |users| ==> users[i].email != users[j].email
  }

  /** Signing up keeps every email address unique. */
  lemma SignupKeepsEmailsUnique(body: SignupBody, users: seq<User>, meds: seq<SignupMedication>,
                                newId: string, hashed: string)
    requires UniqueEmails(users)
    ensures UniqueEmails(Signup(body, users, meds, newId, hashed).users)
  {
    var r := Signup(body, users, meds, newId, hashed);
    if r.users != users {
      var u := NewUser(newId, body, hashed);
      assert r.users == users + [u];
      assert !EmailTaken(users, u.email);
      forall i, j | 0 <= i < j < |r.users|
        ensures r.users[i].email != r.users[j].email
      {
        if j == |users| {
          assert r.users[i] == users[i];
        }
      }
    }
  }
}
