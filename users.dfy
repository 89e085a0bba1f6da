/** User registration (POST /api/users): field validation, rejection of an
    email already in use, and insertion of one user record whose password is
    the hash of the one given. The user collection is a sequence of records;
    the email test, the avatar URL derivation and the password hash are
    library calls and are kept uninterpreted as function-valued constants of
    the registry, and the random salt is an input. */
module Users {
  import opened Seqs

  datatype UserDoc = UserDoc(name: string, email: string, avatar: string, password: string)

  /** One failed field rule, as listed in the 400 response. */
  datatype FieldError = FieldError(param: string, msg: string)

  datatype Error =
    | ValidationFailed(errors: seq<FieldError>)  // 400, every failing rule
    | EmailTaken                                 // 400, 'This email is already taken.'

  datatype Outcome = Registered | Rejected(error: Error)

  const MinPasswordLength := 6

  const NameRequired := FieldError("name", "Name is required")
  const InvalidEmail := FieldError("email", "Please include a valid email")
  const ShortPassword := FieldError("password", " Please insert a valid password with 6 or more characters")

  function UserEmail(u: UserDoc): string { u.email }

  /** The position of a rule in the declared rule list. */
  function Rank(e: FieldError): nat
  {
    if e == NameRequired then 0 else if e == InvalidEmail then 1 else 2
  }

  /** The rule failures for a request body, in the order the rules are declared. */
  function Validate(name: string, email: string, password: string, isEmail: string -> bool): (errs: seq<FieldError>)
    ensures NameRequired in errs <==> name == ""
    ensures InvalidEmail in errs <==> !isEmail(email)
    ensures ShortPassword in errs <==> |password| < MinPasswordLength
    ensures forall e :: e in errs ==> e in [NameRequired, InvalidEmail, ShortPassword]
    ensures forall i, j :: 0 <= i < j < |errs| ==> Rank(errs[i]) < Rank(errs[j])
  {
    (if name == "" then [NameRequired] else []) +
    (if !isEmail(email) then [InvalidEmail] else []) +
    (if |password| < MinPasswordLength then [ShortPassword] else [])
  }

  /** A body passes validation exactly when all three rules hold. */
  lemma ValidateAccepts(name: string, email: string, password: string, isEmail: string -> bool)
    ensures Validate(name, email, password, isEmail) == [] <==>
      name != "" && isEmail(email) && |password| >= MinPasswordLength
  {
    var errs := Validate(name, email, password, isEmail);
    if name == "" { assert NameRequired in errs; }
    if !isEmail(email) { assert InvalidEmail in errs; }
    if |password| < MinPasswordLength { assert ShortPassword in errs; }
  }

  class Registry {
    const isEmail: string -> bool
    const avatarUrl: string -> string
    const hash: (string, string) -> string
    var users: seq<UserDoc>

    constructor (isEmail: string -> bool, avatarUrl: string -> string, hash: (string, string) -> string)
      ensures this.isEmail == isEmail && this.avatarUrl == avatarUrl && this.hash == hash
      ensures users == []
    {
      this.isEmail := isEmail;
      this.avatarUrl := avatarUrl;
      this.hash := hash;
      users := [];
    }

    /** POST /api/users with body {name, email, password}; `salt` stands for
        the value the salt generator returns. */
    method Register(name: string, email: string, password: string, salt: string) returns (r: Outcome)
      modifies this`users
      ensures var errs := Validate(name, email, password, isEmail);
        errs != [] ==> r == Rejected(ValidationFailed(errs)) && users == old(users)
      ensures Validate(name, email, password, isEmail) == [] && Occurs(old(users), UserEmail, email) ==>
        r == Rejected(EmailTaken) && users == old(users)
      ensures Validate(name, email, password, isEmail) == [] && !Occurs(old(users), UserEmail, email) ==>
        r == Registered &&
        users == old(users) + [UserDoc(name, email, avatarUrl(email), hash(password, salt))]
      ensures KeysDistinct(old(users), UserEmail) ==> KeysDistinct(users, UserEmail)
    {
      var errs := Validate(name, email, password, isEmail);
      if errs != [] {
        return Rejected(ValidationFailed(errs));
      }
      var existing := Find(users, UserEmail, email);
      if existing.Some? {
        return Rejected(EmailTaken);
      }
      var avatar := avatarUrl(email);
      var user := UserDoc(name, email, avatar, password);
      user := user.(password := hash(password, salt));
      if KeysDistinct(users, UserEmail) {
        AppendFreshKeepsDistinct(users, user, UserEmail);
      }
      users := users + [user];
      r := Registered;
    }
  }

  /** Once an email is registered, it is in use: a second registration with
      the same email is rejected as taken, whatever else it carries. */
  lemma {:induction false} RegisteredEmailIsTaken(users: seq<UserDoc>, u: UserDoc)
    ensures Occurs(users + [u], UserEmail, u.email)
    ensures Find(users + [u], UserEmail, u.email).Some?
  {
    assert UserEmail((users + [u])[|users|]) == u.email;
  }

  /** Registering twice with the same email: when the first registration
      succeeds, the second is rejected as taken and adds nothing. */
  method RegisterTwice(reg: Registry, name: string, email: string, password: string, salt: string,
                       name2: string, password2: string, salt2: string)
    returns (first: Outcome, second: Outcome)
    modifies reg
    ensures first == Registered ==> second.Rejected? && reg.users == old(reg.users) + [UserDoc(name, email, reg.avatarUrl(email), reg.hash(password, salt))]
    ensures first == Registered && Validate(name2, email, password2, reg.isEmail) == [] ==> second == Rejected(EmailTaken)
  {
    first := reg.Register(name, email, password, salt);
    if first == Registered {
      RegisteredEmailIsTaken(old(reg.users), UserDoc(name, email, reg.avatarUrl(email), reg.hash(password, salt)));
    }
    second := reg.Register(name2, email, password2, salt2);
  }
}
