/** The client's form helpers: the password-repeat check, turning the
    registration form into a request body, translating server errors to
    Dutch, and the adult-age check. */
module ClientFunctions {
  import opened Dates

  /** One input of a form. */
  datatype FormField = FormField(id: string, name: string, value: string)

  /** `passwordIsValid`: the two inputs hold the same text; their ids do not
      matter. */
  function PasswordIsValid(password: FormField, repeat: FormField): (b: bool)
    ensures b <==> password.value == repeat.value
  {
    if password.value == repeat.value then true else false
  }

  lemma PasswordCheckExamples()
    ensures PasswordIsValid(FormField("1", "", "hoi"), FormField("2", "", "hoi"))
    ensures !PasswordIsValid(FormField("1", "", "Hoi"), FormField("2", "", "hoi"))
  {
  }

  /** The gender choices shown in Dutch, as the server names them. */
  function GenderValue(v: string): (r: string)
    ensures v == "Man" ==> r == "male"
    ensures v == "Vrouw" ==> r == "female"
    ensures v == "Anders" ==> r == "other"
    ensures v !in {"Man", "Vrouw", "Anders"} ==> r == v
    ensures v != "" ==> r != ""
  {
    if v == "Man" then "male"
    else if v == "Vrouw" then "female"
    else if v == "Anders" then "other"
    else v
  }

  /** The registration form's fifth input repeats the password and is never
      sent; empty inputs are not sent either. */
  const RepeatIndex := 4

  predicate Sent(form: seq<FormField>, i: int)
    requires 0 <= i < |form|
  {
    i != RepeatIndex && form[i].value != ""
  }

  function Converted(f: FormField): string {
    if f.name == "gender" then GenderValue(f.value) else f.value
  }

  /** The object built from the first `n` inputs: a later input with the
      same name overwrites an earlier one. */
  function ObjectOf(form: seq<FormField>, n: nat): map<string, string>
    requires n <= |form|
  {
    if n == 0 then map[]
    else
      var m := ObjectOf(form, n - 1);
      if Sent(form, n - 1) then m[form[n - 1].name := Converted(form[n - 1])] else m
  }

  /** The keys are the names of the inputs sent. */
  lemma {:induction false} ObjectOfKeys(form: seq<FormField>, n: nat)
    requires n <= |form|
    ensures forall k :: k in ObjectOf(form, n) <==> exists j :: 0 <= j < n && Sent(form, j) && form[j].name == k
  {
    if n > 0 {
      ObjectOfKeys(form, n - 1);
    }
  }

  /** Each key holds the converted value of the last input sent under it;
      no value is empty. */
  lemma {:induction false} ObjectOfLastWins(form: seq<FormField>, n: nat)
    requires n <= |form|
    ensures forall j :: 0 <= j < n && Sent(form, j)
              && (forall j' :: j < j' < n && Sent(form, j') ==> form[j'].name != form[j].name)
              ==> form[j].name in ObjectOf(form, n) && ObjectOf(form, n)[form[j].name] == Converted(form[j])
    ensures forall k :: k in ObjectOf(form, n) ==> ObjectOf(form, n)[k] != ""
  {
    if n > 0 {
      ObjectOfLastWins(form, n - 1);
    }
  }

  /** `formToObject`: the first nine inputs, except the password repeat and
      the empty ones, keyed by input name with gender translated; the last
      input under a name wins. */
  function FormToObject(form: seq<FormField>): (r: map<string, string>)
    requires |form| >= 9
    ensures forall k :: k in r <==> exists j :: 0 <= j < 9 && Sent(form, j) && form[j].name == k
    ensures forall j :: 0 <= j < 9 && Sent(form, j)
              && (forall j' :: j < j' < 9 && Sent(form, j') ==> form[j'].name != form[j].name)
              ==> form[j].name in r && r[form[j].name] == Converted(form[j])
    ensures forall k :: k in r ==> r[k] != ""
  {
    ObjectOfKeys(form, 9);
    ObjectOfLastWins(form, 9);
    ObjectOf(form, 9)
  }

  /** The registration form of the tests, with every input filled. */
  const FullForm: seq<FormField> := [
    FormField("1", "firstName", "Harry"),
    FormField("2", "lastName", "Styles"),
    FormField("3", "email", "harry@gmail.com"),
    FormField("4", "password", "AdoreYou1"),
    FormField("5", "passwordRepeat", "AdoreYou1"),
    FormField("6", "dateOfBirth", "1994-02-01"),
    FormField("7", "gender", "Man"),
    FormField("8", "city", "Leiden"),
    FormField("9", "university", "Technische Universiteit Delft")]

  lemma FullFormExample()
    ensures FormToObject(FullForm) == map[
      "firstName" := "Harry", "lastName" := "Styles", "email" := "harry@gmail.com",
      "password" := "AdoreYou1", "dateOfBirth" := "1994-02-01", "gender" := "male",
      "city" := "Leiden", "university" := "Technische Universiteit Delft"]
  {
    assert ObjectOf(FullForm, 9) == ObjectOf(FullForm, 8)["university" := "Technische Universiteit Delft"];
    assert ObjectOf(FullForm, 8) == ObjectOf(FullForm, 7)["city" := "Leiden"];
    assert ObjectOf(FullForm, 7) == ObjectOf(FullForm, 6)["gender" := "male"];
    assert ObjectOf(FullForm, 6) == ObjectOf(FullForm, 5)["dateOfBirth" := "1994-02-01"];
    assert ObjectOf(FullForm, 5) == ObjectOf(FullForm, 4);
  }

  /** The server messages the client knows, with their Dutch text. */
  const KnownErrors: seq<(string, string)> := [
    ("Email already taken", "E-mailadres is al in gebruik"),
    ("\"email\" must be a valid email", "E-mailadres is ongeldig"),
    ("password must be at least 8 characters", "Wachtwoord moet tenminste 8 tekens bevatten"),
    ("Password must contain at least one letter and one number", "Wachtwoord moet tenminste 1 letter en 1 cijfer bevatten"),
    ("password must contain at least 1 letter and 1 number", "Wachtwoord moet tenminste 1 letter en 1 cijfer bevatten")]

  const UnknownError := "Er is iets misgegaan"

  /** `translateErrors`: a known message gets its entry in the table, any
      other message the generic text. */
  function TranslateErrors(msg: string): (r: string)
    ensures forall i :: 0 <= i < |KnownErrors| && KnownErrors[i].0 == msg ==> r == KnownErrors[i].1
    ensures (forall i :: 0 <= i < |KnownErrors| ==> KnownErrors[i].0 != msg) ==> r == UnknownError
  {
    if msg == "Email already taken" then
      assert KnownErrors[0].0 == msg;
      "E-mailadres is al in gebruik"
    else if msg == "\"email\" must be a valid email" then
      assert KnownErrors[1].0 == msg;
      "E-mailadres is ongeldig"
    else if msg == "password must be at least 8 characters" then
      assert KnownErrors[2].0 == msg;
      "Wachtwoord moet tenminste 8 tekens bevatten"
    else if msg == "Password must contain at least one letter and one number" then
      assert KnownErrors[3].0 == msg;
      "Wachtwoord moet tenminste 1 letter en 1 cijfer bevatten"
    else if msg == "password must contain at least 1 letter and 1 number" then
      assert KnownErrors[4].0 == msg;
      "Wachtwoord moet tenminste 1 letter en 1 cijfer bevatten"
    else "Er is iets misgegaan"
  }

  /** Completed years between a birth date and a date: the year difference,
      one less while the birthday has not come yet that year. */
  function Age(today: Date, birth: Date): int {
    var age := today.year - birth.year;
    var m := today.month - birth.month;
    if m < 0 || (m == 0 && today.day < birth.day) then age - 1 else age
  }

  /** `checkDate`: adult at `today`. */
  function CheckDate(today: Date, birth: Date): (b: bool)
    ensures b <==> Age(today, birth) >= 18
  {
    if Age(today, birth) < 18 then false else true
  }

  /** The day of the eighteenth birthday, written without its month-end
      correction: adulthood is reaching it, in calendar order. */
  lemma {:induction false} CheckDateMeansEighteenthBirthdayReached(today: Date, birth: Date)
    ensures CheckDate(today, birth) <==> !Before(today, Date(birth.year + 18, birth.month, birth.day))
  {
    var b18 := Date(birth.year + 18, birth.month, birth.day);
    if today.year > b18.year {
      assert Age(today, birth) >= today.year - birth.year - 1;
    } else if today.year < b18.year {
      assert Age(today, birth) <= today.year - birth.year;
    }
  }

  /** The test dates: turning eighteen today is adult, tomorrow is not. */
  lemma CheckDateExamples()
    ensures CheckDate(Date(2021, 1, 7), Date(2000, 2, 24))
    ensures CheckDate(Date(2021, 1, 7), Date(2002, 2, 24))
    ensures !CheckDate(Date(2021, 1, 7), Date(2003, 2, 24))
    ensures CheckDate(Date(2021, 1, 7), Date(2003, 1, 7))
    ensures !CheckDate(Date(2021, 1, 7), Date(2003, 1, 8))
  {
  }
}
