/** The User record and its Mongoose schema (models/User.ts): the email
    setters (lowercase, then trim), the validators of the three paths, the
    unique index on email, and the password's exclusion from default reads. */
module UserModel {
  import opened Wrappers
  import opened Text
  import EmailPattern

  type UserId = nat

  /** A stored user. */
  datatype User = User(
    id: UserId,
    name: string,
    email: string,
    password: string,
    createdAt: nat,
    updatedAt: nat)

  /** The object passed to `User.create`: absent fields are `None`. */
  datatype UserFields = UserFields(
    name: Option<string>,
    email: Option<string>,
    password: Option<string>)

  /** One validator failure, reported against its schema path. */
  datatype FieldError = FieldError(path: string, message: string)

  /** Why storing a user failed: the schema validators, or the unique index
      on `email` (MongoDB's duplicate-key error). */
  datatype CreateError = Invalid(errors: seq<FieldError>) | DuplicateEmail(email: string)

  /** A user as a query returns it; `password` is `None` unless the query
      asked for it explicitly. */
  datatype UserView = UserView(id: UserId, name: string, email: string, password: Option<string>)

  const MaxNameLength: nat := 60
  const MinPasswordLength: nat := 6

  const NameRequired := "Please provide a name"
  const NameTooLong := "Name cannot be more than 60 characters"
  const EmailRequired := "Please provide an email"
  const EmailInvalid := "Please provide a valid email"
  const PasswordRequired := "Please provide a password"
  const PasswordTooShort := "Password should be at least 6 characters long"

  /** The email setters `lowercase: true` and `trim: true`. The two
      commute, so the order in which Mongoose applies them does not
      matter. */
  function NormaliseEmail(email: string): (e: string)
    ensures IsTrimmed(e)
    ensures IsLower(e)
    ensures e == Lower(Trim(email))
  {
    var lowered := Lower(email);
    LowerFixedIff(email);
    TrimKeepsLower(lowered);
    LowerTrimCommute(email);
    Trim(lowered)
  }

  /** Normalising an already-normalised email changes nothing. */
  lemma NormaliseEmailIdempotent(email: string)
    ensures NormaliseEmail(NormaliseEmail(email)) == NormaliseEmail(email)
  {
    var e := NormaliseEmail(email);
    LowerFixedIff(e);
    TrimFixedIff(e);
  }

  /** A string is a required value when it is present and non-empty
      (Mongoose's `required` check for strings). */
  predicate Present(v: Option<string>) {
    v.Some? && v.value != []
  }

  /** The first failing validator of each path, in schema order. */
  function ValidationErrors(f: UserFields): (errs: seq<FieldError>)
    ensures errs == [] <==> UserFieldsValid(f)
  {
    NameErrors(f.name) + EmailErrors(f.email) + PasswordErrors(f.password)
  }

  /** `name`: required, at most 60 characters. */
  function NameErrors(name: Option<string>): (errs: seq<FieldError>)
    ensures errs == [] <==> name.Some? && 1 <= |name.value| <= MaxNameLength
    ensures !Present(name) ==> errs == [FieldError("name", NameRequired)]
    ensures name.Some? && |name.value| > MaxNameLength ==> errs == [FieldError("name", NameTooLong)]
  {
    if !Present(name) then [FieldError("name", NameRequired)]
    else if |name.value| > MaxNameLength then [FieldError("name", NameTooLong)]
    else []
  }

  /** `email`: required and matching the pattern, both checked on the value
      the setters produced. */
  function EmailErrors(email: Option<string>): (errs: seq<FieldError>)
    ensures errs == [] <==> email.Some? && EmailPattern.MatchesEmail(NormaliseEmail(email.value))
    ensures email.None? || NormaliseEmail(email.value) == [] ==> errs == [FieldError("email", EmailRequired)]
    ensures email.Some? && NormaliseEmail(email.value) != [] && !EmailPattern.MatchesEmail(NormaliseEmail(email.value)) ==>
      errs == [FieldError("email", EmailInvalid)]
  {
    if email.None? then [FieldError("email", EmailRequired)]
    else
      var e := NormaliseEmail(email.value);
      if e == [] then [FieldError("email", EmailRequired)]
      else if !EmailPattern.MatchesEmail(e) then [FieldError("email", EmailInvalid)]
      else []
  }

  /** `password`: required, at least 6 characters. */
  function PasswordErrors(password: Option<string>): (errs: seq<FieldError>)
    ensures errs == [] <==> password.Some? && |password.value| >= MinPasswordLength
    ensures !Present(password) ==> errs == [FieldError("password", PasswordRequired)]
    ensures password.Some? && password.value != [] && |password.value| < MinPasswordLength ==>
      errs == [FieldError("password", PasswordTooShort)]
  {
    if !Present(password) then [FieldError("password", PasswordRequired)]
    else if |password.value| < MinPasswordLength then [FieldError("password", PasswordTooShort)]
    else []
  }

  /** The schema's constraints, stated directly on the fields. */
  predicate UserFieldsValid(f: UserFields) {
    && f.name.Some? && 1 <= |f.name.value| <= MaxNameLength
    && f.email.Some? && EmailPattern.MatchesEmail(NormaliseEmail(f.email.value))
    && f.password.Some? && |f.password.value| >= MinPasswordLength
  }

  /** No two stored users share an email. */
  predicate EmailsUnique(users: seq<User>) {
    forall i, j :: 0 <= i < j < |users| ==> users[i].email != users[j].email
  }

  /** Some stored user already has `email`. */
  predicate EmailTaken(users: seq<User>, email: string) {
    exists u :: u in users && u.email == email
  }

  /** `User.create(f)` against the stored `users`: validation runs first,
      then the unique index rejects an email that is already taken. */
  function Create(users: seq<User>, f: UserFields, id: UserId, now: nat): (r: Result<seq<User>, CreateError>)
    ensures r.Failure? && r.error.Invalid? <==> !UserFieldsValid(f)
    ensures r.Failure? && r.error.DuplicateEmail? <==>
      UserFieldsValid(f) && EmailTaken(users, NormaliseEmail(f.email.value))
    ensures r.Success? ==>
      UserFieldsValid(f) && r.value == users + [User(id, f.name.value, NormaliseEmail(f.email.value), f.password.value, now, now)]
    ensures r.Success? && EmailsUnique(users) ==> EmailsUnique(r.value)
  {
    var errs := ValidationErrors(f);
    if errs != [] then Failure(Invalid(errs))
    else
      var email := NormaliseEmail(f.email.value);
      if EmailTaken(users, email) then Failure(DuplicateEmail(email))
      else Success(Store(users, User(id, f.name.value, email, f.password.value, now, now)))
  }

  /** Storing a user whose email is free keeps the index unique. */
  function Store(users: seq<User>, created: User): (r: seq<User>)
    requires !EmailTaken(users, created.email)
    ensures r == users + [created]
    ensures EmailsUnique(users) ==> EmailsUnique(r)
  {
    var r := users + [created];
    assert forall i :: 0 <= i < |users| ==> r[i] in users;
    r
  }

  /** A stored email is always the normalised form of a valid address. */
  lemma StoredEmailNormalised(users: seq<User>, f: UserFields, id: UserId, now: nat)
    requires Create(users, f, id, now).Success?
    ensures var u := Create(users, f, id, now).value[|users|];
      NormaliseEmail(u.email) == u.email && EmailPattern.MatchesEmail(u.email)
  {
    NormaliseEmailIdempotent(f.email.value);
  }

  /** A query's view of a stored user: the password only when the query
      selects it (`select: false`). */
  function Read(u: User, selectPassword: bool): (v: UserView)
    ensures v.id == u.id && v.name == u.name && v.email == u.email
    ensures v.password.Some? <==> selectPassword
    ensures selectPassword ==> v.password.value == u.password
  {
    UserView(u.id, u.name, u.email, if selectPassword then Some(u.password) else None)
  }
}
