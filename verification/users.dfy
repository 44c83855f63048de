/** The user document (its field rules and defaults) and the user service's
    create, update, change-password and delete operations over the user
    collection, modelled as a finite map from id to user. */
module Users {
  import opened Common
  import opened Config

  datatype Gender = Male | Female | Other

  function GenderName(g: Gender): string {
    match g
    case Male => "male"
    case Female => "female"
    case Other => "other"
  }

  datatype User = User(
    id: Id,
    firstName: string,
    lastName: string,
    email: string,
    password: string,
    isCheckedIn: bool,
    dateOfBirth: Option<Time>,
    gender: Option<Gender>,
    university: Option<string>,
    city: Option<string>,
    role: Role)

  type Users = map<Id, User>

  /** The institutions the university field accepts. */
  const Universities: seq<string> := [
    "Erasmus Universiteit Rotterdam", "Protestantse Theologische Universiteit",
    "Theologische Universiteit Apeldoorn", "Theologische Universiteit Kampen",
    "Radboud Universiteit Nijmegen", "Rijksuniversiteit Groningen",
    "Technische Universiteit Delft", "Technische Universiteit Eindhoven",
    "Universiteit Leiden", "Universiteit Maastricht", "Universiteit Twente",
    "Universiteit Utrecht", "Universiteit van Amsterdam", "Tilburg University",
    "Universiteit voor Humanistiek", "Vrije Universiteit Amsterdam",
    "Wageningen Universiteit", "Nyenrode Business Universiteit", "Hogeschool Avans",
    "Hogeschool Windesheim", "Hanzehogeschool", "NHL Stenden Hogeschool",
    "Fontys Hogeschool", "HAN", "Hogeschool Saxion", "Hogeschool Rotterdam",
    "Hogeschool Inholland", "Hogeschool van Amsterdam", "Haagse Hogeschool",
    "Hogeschool Leiden", "Hogeschool Utrecht", "Andere Hogeschool", "Anders"]

  // ---------------------------------------------------------------------
  // String setters: trim and lowercase

  /** The characters `String.prototype.trim` strips that the model knows of. */
  predicate IsSpace(c: char) {
    c == ' ' || c == '\t' || c == '\n' || c == '\r' || c == '\U{000B}' || c == '\U{000C}'
    || c == '\U{00A0}' || c == '\U{FEFF}'
  }

  /** Number of whitespace characters `s` starts with. */
  function LeadingSpace(s: string): (k: nat)
    ensures k <= |s|
    ensures forall i :: 0 <= i < k ==> IsSpace(s[i])
    ensures k < |s| ==> !IsSpace(s[k])
  {
    if |s| == 0 || !IsSpace(s[0]) then 0 else 1 + LeadingSpace(s[1..])
  }

  /** Number of whitespace characters `s` ends with. */
  function TrailingSpace(s: string): (k: nat)
    ensures k <= |s|
    ensures forall i :: |s| - k <= i < |s| ==> IsSpace(s[i])
    ensures k < |s| ==> !IsSpace(s[|s| - k - 1])
  {
    if |s| == 0 || !IsSpace(s[|s| - 1]) then 0 else 1 + TrailingSpace(s[..|s| - 1])
  }

  /** `s.trim()`: the longest slice of `s` that neither starts nor ends with
      whitespace and is surrounded only by whitespace. */
  function Trim(s: string): (r: string)
    ensures exists i, j :: 0 <= i <= j <= |s| && r == s[i..j]
                           && (forall k :: 0 <= k < i ==> IsSpace(s[k]))
                           && (forall k :: j <= k < |s| ==> IsSpace(s[k]))
    ensures |r| > 0 ==> !IsSpace(r[0]) && !IsSpace(r[|r| - 1])
  {
    var i := LeadingSpace(s);
    var rest := s[i..];
    var t := TrailingSpace(rest);
    assert rest[..|rest| - t] == s[i..|s| - t];
    s[i..|s| - t]
  }

  function LowerChar(c: char): char {
    if 'A' <= c <= 'Z' then (c as int - 'A' as int + 'a' as int) as char else c
  }

  /** `s.toLowerCase()` on the ASCII letters. */
  function Lower(s: string): (r: string)
    ensures |r| == |s|
    ensures forall i :: 0 <= i < |s| ==> r[i] == LowerChar(s[i])
    ensures forall i :: 0 <= i < |r| ==> !('A' <= r[i] <= 'Z')
  {
    seq(|s|, i requires 0 <= i < |s| => LowerChar(s[i]))
  }

  /** What the email field stores for a given input: trimmed, then lowercased.
      The result is the input's stretch between its surrounding whitespace,
      character by character lowered; it is no longer than the input, has no
      ASCII capital and neither starts nor ends with whitespace. */
  function NormalizeEmail(e: string): (r: string)
    ensures |r| <= |e|
    ensures forall i :: 0 <= i < |r| ==> !('A' <= r[i] <= 'Z')
    ensures |r| > 0 ==> !IsSpace(r[0]) && !IsSpace(r[|r| - 1])
  {
    Lower(Trim(e))
  }

  /** The stored email starts where the input's leading whitespace ends,
      stops where its trailing whitespace begins, and is that stretch
      lowered character by character. */
  lemma {:induction false} NormalizeEmailIsLoweredStretch(e: string)
    ensures var r := NormalizeEmail(e); var i := LeadingSpace(e);
      && 0 <= i <= |e| - |r|
      && (forall k :: 0 <= k < i ==> IsSpace(e[k]))
      && (forall k :: i + |r| <= k < |e| ==> IsSpace(e[k]))
      && (|r| > 0 ==> !IsSpace(e[i]) && !IsSpace(e[i + |r| - 1]))
      && (forall k :: 0 <= k < |r| ==> r[k] == LowerChar(e[i + k]))
  {
    TrimStretch(e);
    assert NormalizeEmail(e) == Lower(Trim(e));
  }

  /** `Trim` keeps the slice between the leading and the trailing whitespace. */
  lemma {:induction false} TrimStretch(e: string)
    ensures var r := Trim(e); var i := LeadingSpace(e);
      && 0 <= i <= |e| - |r|
      && r == e[i..i + |r|]
      && (forall k :: i + |r| <= k < |e| ==> IsSpace(e[k]))
      && (|r| > 0 ==> !IsSpace(e[i + |r| - 1]))
  {
    var i := LeadingSpace(e);
    var rest := e[i..];
    var t := TrailingSpace(rest);
    assert Trim(e) == e[i..|e| - t];
    forall k | |e| - t <= k < |e|
      ensures IsSpace(e[k])
    {
      assert e[k] == rest[k - i];
    }
    if t < |rest| {
      assert e[|e| - t - 1] == rest[|rest| - t - 1];
    }
  }

  // ---------------------------------------------------------------------
  // Field rules

  predicate IsLetter(c: char) { 'a' <= c <= 'z' || 'A' <= c <= 'Z' }

  function HasDigit(s: string): (b: bool)
    ensures b <==> exists i :: 0 <= i < |s| && IsDigit(s[i])
  {
    if |s| == 0 then false
    else IsDigit(s[0]) || (assert forall i :: 0 <= i < |s| - 1 ==> s[1..][i] == s[i + 1]; HasDigit(s[1..]))
  }

  function HasLetter(s: string): (b: bool)
    ensures b <==> exists i :: 0 <= i < |s| && IsLetter(s[i])
  {
    if |s| == 0 then false
    else IsLetter(s[0]) || (assert forall i :: 0 <= i < |s| - 1 ==> s[1..][i] == s[i + 1]; HasLetter(s[1..]))
  }

  /** The password rule applied to the stored (already trimmed) value: at
      least 8 characters, at least one digit and one ASCII letter. */
  predicate PasswordRule(p: string): (b: bool)
    ensures b <==> && |p| >= 8
                   && (exists i :: 0 <= i < |p| && '0' <= p[i] <= '9')
                   && (exists j :: 0 <= j < |p| && ('a' <= p[j] <= 'z' || 'A' <= p[j] <= 'Z'))
  {
    |p| >= 8 && HasDigit(p) && HasLetter(p)
  }

  /** A required name: non-empty and at least two characters once trimmed. */
  predicate NameRule(n: string) {
    |n| >= 2
  }

  /** Whether a stored document passes every validator of the user schema.
      The email format check is the library predicate `isEmail`. */
  predicate Conforms(u: User, isEmail: string -> bool): (b: bool)
    ensures b ==> |u.firstName| >= 2 && |u.lastName| >= 2 && |u.password| >= 8 && u.email != ""
  {
    && NameRule(u.firstName)
    && NameRule(u.lastName)
    && u.email != "" && isEmail(u.email)
    && PasswordRule(u.password)
    && (u.university.Some? ==> u.university.value in Universities)
    && (u.city.Some? ==> |u.city.value| >= 2)
  }

  /** Fields of a create request; absent optional fields are `None`. */
  datatype NewUserBody = NewUserBody(
    email: string,
    password: string,
    firstName: string,
    lastName: string,
    gender: Option<Gender>,
    university: Option<string>,
    city: Option<string>,
    dateOfBirth: Option<Time>,
    role: Option<Role>)

  function TrimOpt(s: Option<string>): Option<string> {
    if s.Some? then Some(Trim(s.value)) else None
  }

  /** The document the schema builds from a create request: setters applied
      and defaults filled in. */
  function NewUserDoc(id: Id, b: NewUserBody): (u: User)
    ensures u.id == id && !u.isCheckedIn
    ensures u.role == (if b.role.Some? then b.role.value else UserRole)
    ensures u.email == NormalizeEmail(b.email)
    ensures u.firstName == Trim(b.firstName) && u.lastName == Trim(b.lastName)
    ensures u.gender == b.gender && u.dateOfBirth == b.dateOfBirth
    ensures u.password == Trim(b.password) && u.city == TrimOpt(b.city)
    ensures u.university == b.university
  {
    User(id, Trim(b.firstName), Trim(b.lastName), NormalizeEmail(b.email), Trim(b.password),
         false, b.dateOfBirth, b.gender, b.university, TrimOpt(b.city),
         if b.role.Some? then b.role.value else UserRole)
  }

  lemma NewUserDefaults(id: Id, b: NewUserBody)
    requires b.role.None?
    ensures NewUserDoc(id, b).role == UserRole
    ensures !NewUserDoc(id, b).isCheckedIn
  {
  }

  /** Letters alone, digits alone, or fewer than eight characters do not
      make a password; eight or more with both do. */
  lemma PasswordRuleExamples()
    ensures !PasswordRule("abcdefgh")
    ensures !PasswordRule("12345678")
    ensures !PasswordRule("abc1234")
    ensures PasswordRule("password1")
  {
    LettersOnly();
    DigitsOnly();
    LettersAndDigits();
  }

  lemma LettersOnly()
    ensures !HasDigit("abcdefgh")
  {
    var s := "abcdefgh";
    assert forall i :: 0 <= i < |s| ==> 'a' <= s[i] <= 'z';
  }

  lemma DigitsOnly()
    ensures !HasLetter("12345678")
  {
    var s := "12345678";
    assert forall i :: 0 <= i < |s| ==> '0' <= s[i] <= '9';
  }

  lemma LettersAndDigits()
    ensures HasDigit("password1") && HasLetter("password1")
  {
    assert IsDigit("password1"[8]);
    assert IsLetter("password1"[0]);
  }

  // ---------------------------------------------------------------------
  // Validation sees the trimmed values

  /** Any slice surrounded only by whitespace and not itself starting or
      ending with whitespace is what `Trim` keeps: the characterization in
      `Trim`'s contract pins its result down. */
  lemma {:induction false} TrimUnique(s: string, i: nat, j: nat)
    requires i <= j <= |s|
    requires forall k :: 0 <= k < i || j <= k < |s| ==> IsSpace(s[k])
    requires i < j ==> !IsSpace(s[i]) && !IsSpace(s[j - 1])
    ensures Trim(s) == s[i..j]
  {
    var a := LeadingSpace(s);
    var rest := s[a..];
    var t := TrailingSpace(rest);
    assert Trim(s) == s[a..|s| - t];
    if i < j {
      assert a == i;
      assert t == |s| - j;
    } else {
      assert a == |s|;
    }
  }

  /** Spaces around a value do not change what its setter stores. */
  lemma {:induction false} TrimPadded(p: string)
    ensures Trim(" " + p + " ") == Trim(p)
  {
    var x := " " + p + " ";
    var r := Trim(p);
    var i := LeadingSpace(p);
    TrimStretch(p);
    forall k | 0 <= k < i + 1 || i + |r| + 1 <= k < |x|
      ensures IsSpace(x[k])
    {
      if 0 < k < |x| - 1 { assert x[k] == p[k - 1]; }
    }
    assert x[i + 1..i + |r| + 1] == p[i..i + |r|];
    if |r| > 0 {
      assert x[i + 1] == p[i] && x[i + |r|] == p[i + |r| - 1];
    }
    TrimUnique(x, i + 1, i + |r| + 1);
  }

  /** A create body with every text field wrapped in spaces. */
  function Padded(b: NewUserBody): NewUserBody {
    b.(email := " " + b.email + " ", password := " " + b.password + " ",
       firstName := " " + b.firstName + " ", lastName := " " + b.lastName + " ")
  }

  /** The schema validates the values the setters stored: whitespace around
      the names, the email or the password neither rescues a document nor
      spoils it. */
  lemma PaddingNeitherHelpsNorHurts(id: Id, b: NewUserBody, isEmail: string -> bool)
    ensures NewUserDoc(id, Padded(b)) == NewUserDoc(id, b)
    ensures Conforms(NewUserDoc(id, Padded(b)), isEmail) == Conforms(NewUserDoc(id, b), isEmail)
  {
    TrimPadded(b.email);
    TrimPadded(b.password);
    TrimPadded(b.firstName);
    TrimPadded(b.lastName);
  }

  /** What a create body must already hold for its document to pass: names
      of two characters or more, a password of eight or more holding a digit
      and an ASCII letter, and a listed university if one is given. */
  lemma ConformingBodyRules(id: Id, b: NewUserBody, isEmail: string -> bool)
    requires Conforms(NewUserDoc(id, b), isEmail)
    ensures |b.firstName| >= 2 && |b.lastName| >= 2 && |b.password| >= 8
    ensures exists k :: 0 <= k < |b.password| && IsDigit(b.password[k])
    ensures exists k :: 0 <= k < |b.password| && IsLetter(b.password[k])
    ensures b.university.Some? ==> b.university.value in Universities
  {
    var u := NewUserDoc(id, b);
    assert PasswordRule(u.password) && NameRule(u.firstName) && NameRule(u.lastName);
    TrimKeepsRule(b.password);
    TrimStretch(b.firstName);
    TrimStretch(b.lastName);
  }

  /** A value whose trimmed form passes the password rule passes it already. */
  lemma {:induction false} TrimKeepsRule(p: string)
    requires PasswordRule(Trim(p))
    ensures |p| >= 8
    ensures exists k :: 0 <= k < |p| && IsDigit(p[k])
    ensures exists k :: 0 <= k < |p| && IsLetter(p[k])
  {
    var t := Trim(p);
    var i := LeadingSpace(p);
    TrimStretch(p);
    var d :| 0 <= d < |t| && IsDigit(t[d]);
    var l :| 0 <= l < |t| && IsLetter(t[l]);
    assert t[d] == p[i + d] && t[l] == p[i + l];
  }

  // ---------------------------------------------------------------------
  // The collection

  /** Each user is stored under its own id. */
  ghost predicate KeysMatch(users: Users) {
    forall id :: id in users ==> users[id].id == id
  }

  /** The unique index on email. */
  ghost predicate EmailsUnique(users: Users) {
    forall a, b :: a in users && b in users && a != b ==> users[a].email != users[b].email
  }

  ghost predicate WellFormed(users: Users) {
    KeysMatch(users) && EmailsUnique(users)
  }

  /** `User.isEmailTaken(email, excludeUserId)`: the query casts `email`
      through the field's setters and skips the excluded id. */
  predicate IsEmailTaken(users: Users, email: string, exclude: Option<Id>) {
    exists id :: id in users && users[id].email == NormalizeEmail(email) && Some(id) != exclude
  }

  /** With emails unique, an email belonging to a stored user is taken for
      anyone else and free for its owner. */
  lemma EmailTakenOnlyByOthers(users: Users, id: Id, email: string)
    requires EmailsUnique(users) && id in users && NormalizeEmail(email) == users[id].email
    ensures IsEmailTaken(users, email, None)
    ensures !IsEmailTaken(users, email, Some(id))
  {
    assert users[id].email == NormalizeEmail(email) && Some(id) != None;
  }

  const EmailAlreadyTaken := ApiError(BadRequest, "Email already taken")
  const UserNotFound := ApiError(NotFound, "User not found")
  const IncorrectPassword := ApiError(Unauthorized, "Incorrect password")

  function CreateUser(users: Users, b: NewUserBody, newId: Id, isEmail: string -> bool): (r: Result<Users>)
    requires newId !in users
    ensures IsEmailTaken(users, b.email, None) <==> r == Err(EmailAlreadyTaken)
    ensures r.Ok? <==> !IsEmailTaken(users, b.email, None) && Conforms(NewUserDoc(newId, b), isEmail)
    ensures r.Ok? ==> r.value == users[newId := NewUserDoc(newId, b)]
  {
    if IsEmailTaken(users, b.email, None) then Err(EmailAlreadyTaken)
    else
      var u := NewUserDoc(newId, b);
      if !Conforms(u, isEmail) then Err(SchemaViolation)
      else Ok(users[newId := u])
  }

  /** The email check keeps the unique index intact, and the new user is
      stored under its own id. */
  lemma CreateKeepsWellFormed(users: Users, b: NewUserBody, newId: Id)
    requires newId !in users && WellFormed(users)
    requires !IsEmailTaken(users, b.email, None)
    ensures WellFormed(users[newId := NewUserDoc(newId, b)])
  {
    var u := NewUserDoc(newId, b);
    assert forall id :: id in users ==> users[id].email != u.email;
  }

  /** Fields of an update request (the eight profile keys); absent keys are `None`. */
  datatype UserUpdate = UserUpdate(
    email: Option<string>,
    password: Option<string>,
    firstName: Option<string>,
    lastName: Option<string>,
    gender: Option<Gender>,
    university: Option<string>,
    city: Option<string>,
    dateOfBirth: Option<Time>)

  /** A key present in the update replaces the stored value. */
  function Or<T>(given: Option<T>, stored: Option<T>): Option<T> {
    if given.Some? then given else stored
  }

  /** A string key present in the update replaces the stored value, trimmed. */
  function TrimmedOr(given: Option<string>, stored: string): string {
    if given.Some? then Trim(given.value) else stored
  }

  /** `Object.assign(user, updateBody)` followed by the field setters. */
  function Assign(u: User, b: UserUpdate): (v: User)
    ensures v.id == u.id && v.isCheckedIn == u.isCheckedIn && v.role == u.role
    ensures b.email.None? ==> v.email == u.email
    ensures b.email.Some? ==> v.email == NormalizeEmail(b.email.value)
  {
    var email := if b.email.Some? then NormalizeEmail(b.email.value) else u.email;
    u.(firstName := TrimmedOr(b.firstName, u.firstName), lastName := TrimmedOr(b.lastName, u.lastName),
       email := email, password := TrimmedOr(b.password, u.password),
       dateOfBirth := Or(b.dateOfBirth, u.dateOfBirth), gender := Or(b.gender, u.gender),
       university := Or(b.university, u.university), city := Or(TrimOpt(b.city), u.city))
  }

  /** Every profile key given in the update replaces the stored value (text
      keys trimmed), and every key left out keeps it. */
  lemma AssignTakesGivenKeys(u: User, b: UserUpdate)
    ensures var v := Assign(u, b);
      && (b.firstName.Some? ==> v.firstName == Trim(b.firstName.value))
      && (b.firstName.None? ==> v.firstName == u.firstName)
      && (b.lastName.Some? ==> v.lastName == Trim(b.lastName.value))
      && (b.lastName.None? ==> v.lastName == u.lastName)
      && (b.password.Some? ==> v.password == Trim(b.password.value))
      && (b.password.None? ==> v.password == u.password)
      && (b.city.Some? ==> v.city == Some(Trim(b.city.value)))
      && (b.city.None? ==> v.city == u.city)
      && v.gender == (if b.gender.Some? then b.gender else u.gender)
      && v.university == (if b.university.Some? then b.university else u.university)
      && v.dateOfBirth == (if b.dateOfBirth.Some? then b.dateOfBirth else u.dateOfBirth)
  {
  }

  function UpdateUserById(users: Users, userId: Id, b: UserUpdate, isEmail: string -> bool): (r: Result<Users>)
    ensures userId !in users <==> r == Err(UserNotFound)
    ensures (userId in users && b.email.Some? && b.email.value != ""
             && IsEmailTaken(users, b.email.value, Some(userId))) ==> r == Err(EmailAlreadyTaken)
    // keeping one's own email never counts as taken
    ensures (userId in users && b.email.Some? && KeysMatch(users)
             && NormalizeEmail(b.email.value) == users[userId].email && EmailsUnique(users))
            ==> r != Err(EmailAlreadyTaken)
    ensures r.Ok? <==> && userId in users
                       && !(b.email.Some? && b.email.value != "" && IsEmailTaken(users, b.email.value, Some(userId)))
                       && Conforms(Assign(users[userId], b), isEmail)
    ensures r.Ok? ==> r.value == users[userId := Assign(users[userId], b)]
    ensures r.Ok? && WellFormed(users) ==> WellFormed(r.value)
  {
    if userId !in users then Err(UserNotFound)
    else if b.email.Some? && b.email.value != "" && IsEmailTaken(users, b.email.value, Some(userId)) then
      Err(EmailAlreadyTaken)
    else
      var u := Assign(users[userId], b);
      if !Conforms(u, isEmail) then Err(SchemaViolation)
      else Ok(users[userId := u])
  }

  function ChangePassword(users: Users, userId: Id, oldPassword: string, newPassword: string,
                          isEmail: string -> bool): (r: Result<Users>)
    ensures userId !in users <==> r == Err(UserNotFound)
    ensures (userId in users && oldPassword != users[userId].password) <==> r == Err(IncorrectPassword)
    ensures r.Ok? <==> && userId in users && oldPassword == users[userId].password
                       && Conforms(users[userId].(password := Trim(newPassword)), isEmail)
    ensures r.Ok? ==> r.value.Keys == users.Keys
    ensures r.Ok? && WellFormed(users) ==> WellFormed(r.value)
    // only the password changes
    ensures r.Ok? ==> r.value[userId] == users[userId].(password := Trim(newPassword))
    ensures r.Ok? ==> forall id :: id in users && id != userId ==> r.value[id] == users[id]
  {
    if userId !in users then Err(UserNotFound)
    else if oldPassword != users[userId].password then Err(IncorrectPassword)
    else
      var u := users[userId].(password := Trim(newPassword));
      if !Conforms(u, isEmail) then Err(SchemaViolation)
      else Ok(users[userId := u])
  }

  function DeleteUserById(users: Users, userId: Id): (r: Result<Users>)
    ensures userId !in users <==> r == Err(UserNotFound)
    ensures r.Ok? ==> r.value.Keys == users.Keys - {userId}
    ensures r.Ok? ==> forall id :: id in r.value ==> r.value[id] == users[id]
    ensures r.Ok? && WellFormed(users) ==> WellFormed(r.value)
  {
    if userId !in users then Err(UserNotFound) else Ok(users - {userId})
  }

  /** Setting the check-in flag of one user, as the check-in service does. */
  function SetCheckedIn(users: Users, userId: Id, flag: bool): (r: Users)
    requires userId in users
    ensures r.Keys == users.Keys
    ensures r[userId].isCheckedIn == flag
    ensures forall id :: id in users && id != userId ==> r[id] == users[id]
  {
    users[userId := users[userId].(isCheckedIn := flag)]
  }
}
