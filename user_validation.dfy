/**
 * The three user schemas, `REGISTER`, `LOGIN` and `UPDATE`, each as a
 * predicate over the raw JSON payload and as the validation step that
 * either yields the typed request or fails with a `ZodError` naming every
 * offending field.
 */
module UserValidation {
  import opened Wrappers
  import opened Exceptions
  import opened Schema

  const MaxLength: nat := 100

  /** A request body as received: any field may be missing. */
  datatype RegisterPayload = RegisterPayload(username: Option<string>, password: Option<string>, name: Option<string>)
  datatype LoginPayload = LoginPayload(username: Option<string>, password: Option<string>)

  /** The typed requests the services work with once validation passed. */
  datatype RegisterUserRequest = RegisterUserRequest(username: string, password: string, name: string)
  datatype LoginUserRequest = LoginUserRequest(username: string, password: string)
  /** Every field of an update is optional, before and after validation. */
  datatype UpdateUserRequest = UpdateUserRequest(name: Option<string>, password: Option<string>)

  predicate RegisterValid(p: RegisterPayload) {
    Required(p.username, MaxLength) && Required(p.password, MaxLength) && Required(p.name, MaxLength)
  }

  predicate LoginValid(p: LoginPayload) {
    Required(p.username, MaxLength) && Required(p.password, MaxLength)
  }

  predicate UpdateValid(p: UpdateUserRequest) {
    Optional(p.name, MaxLength) && Optional(p.password, MaxLength)
  }

  /** `validate(UserValidation.REGISTER, request)`. */
  function ValidateRegister(p: RegisterPayload): (r: Result<RegisterUserRequest, Failure>)
    ensures r.Success? <==> RegisterValid(p)
    ensures r.Success? ==>
      r.value == RegisterUserRequest(p.username.value, p.password.value, p.name.value)
    ensures r.Failure? ==> r.error.ZodError? && r.error.issues != []
    ensures r.Failure? ==>
      && ("username" in r.error.issues <==> !Required(p.username, MaxLength))
      && ("password" in r.error.issues <==> !Required(p.password, MaxLength))
      && ("name" in r.error.issues <==> !Required(p.name, MaxLength))
      && forall f :: f in r.error.issues ==> f in ["username", "password", "name"]
  {
    var issues :=
      Issue(Required(p.username, MaxLength), "username") +
      Issue(Required(p.password, MaxLength), "password") +
      Issue(Required(p.name, MaxLength), "name");
    if issues == [] then
      Success(RegisterUserRequest(p.username.value, p.password.value, p.name.value))
    else
      Failure(ZodError(issues))
  }

  /** `validate(UserValidation.LOGIN, request)`. */
  function ValidateLogin(p: LoginPayload): (r: Result<LoginUserRequest, Failure>)
    ensures r.Success? <==> LoginValid(p)
    ensures r.Success? ==> r.value == LoginUserRequest(p.username.value, p.password.value)
    ensures r.Failure? ==> r.error.ZodError? && r.error.issues != []
    ensures r.Failure? ==>
      && ("username" in r.error.issues <==> !Required(p.username, MaxLength))
      && ("password" in r.error.issues <==> !Required(p.password, MaxLength))
      && forall f :: f in r.error.issues ==> f in ["username", "password"]
  {
    var issues :=
      Issue(Required(p.username, MaxLength), "username") +
      Issue(Required(p.password, MaxLength), "password");
    if issues == [] then
      Success(LoginUserRequest(p.username.value, p.password.value))
    else
      Failure(ZodError(issues))
  }

  /** `validate(UserValidation.UPDATE, request)`: passes the payload through when valid. */
  function ValidateUpdate(p: UpdateUserRequest): (r: Result<UpdateUserRequest, Failure>)
    ensures r.Success? <==> UpdateValid(p)
    ensures r.Success? ==> r.value == p
    ensures r.Failure? ==> r.error.ZodError? && r.error.issues != []
    ensures r.Failure? ==>
      && ("name" in r.error.issues <==> !Optional(p.name, MaxLength))
      && ("password" in r.error.issues <==> !Optional(p.password, MaxLength))
      && forall f :: f in r.error.issues ==> f in ["name", "password"]
  {
    var issues :=
      Issue(Optional(p.name, MaxLength), "name") +
      Issue(Optional(p.password, MaxLength), "password");
    if issues == [] then Success(p) else Failure(ZodError(issues))
  }

  /** An empty string is rejected wherever it appears, by all three schemas. */
  lemma EmptyStringsRejected(p: RegisterPayload, q: LoginPayload, u: UpdateUserRequest)
    ensures Some("") in [p.username, p.password, p.name] ==> !RegisterValid(p)
    ensures Some("") in [q.username, q.password] ==> !LoginValid(q)
    ensures Some("") in [u.name, u.password] ==> !UpdateValid(u)
  {
  }

  /** Lengths 1 and 100 are accepted, 0 and 101 are not, counted in UTF-16 code units. */
  lemma BoundsInclusive(s: string)
    ensures Utf16Length(s) == 1 || Utf16Length(s) == MaxLength ==>
      Required(Some(s), MaxLength) && Optional(Some(s), MaxLength)
    ensures Utf16Length(s) == 0 || Utf16Length(s) == MaxLength + 1 ==>
      !Required(Some(s), MaxLength) && !Optional(Some(s), MaxLength)
  {
  }

  /**
   * A character above U+FFFF counts twice: a name of 50 emoji registers,
   * one of 51 does not.
   */
  lemma AstralCharactersCountTwice()
    ensures RegisterValid(RegisterPayload(Some("test"), Some("test"), Some(seq(50, _ => '\U{1F600}'))))
    ensures !RegisterValid(RegisterPayload(Some("test"), Some("test"), Some(seq(51, _ => '\U{1F600}'))))
  {
    AstralLength(seq(50, _ => '\U{1F600}'));
    AstralLength(seq(51, _ => '\U{1F600}'));
    BmpLength("test");
  }

  /** The empty update payload is valid: an update may change nothing. */
  lemma EmptyUpdateAccepted()
    ensures ValidateUpdate(UpdateUserRequest(None, None)) == Success(UpdateUserRequest(None, None))
  {
  }

  /** The credentials of any valid registration form a valid login. */
  lemma RegisteredCredentialsLogIn(p: RegisterPayload)
    requires RegisterValid(p)
    ensures LoginValid(LoginPayload(p.username, p.password))
  {
  }

  /** The payloads of the end-to-end tests for registration. */
  lemma RegisterExamples()
    ensures ValidateRegister(RegisterPayload(Some(""), Some(""), Some(""))) ==
      Failure(ZodError(["username", "password", "name"]))
    ensures ValidateRegister(RegisterPayload(Some("test"), Some("test"), Some("test"))) ==
      Success(RegisterUserRequest("test", "test", "test"))
  {
    var empty := Some("");
    assert !Required(empty, MaxLength);
    assert Issue(Required(empty, MaxLength), "username") + Issue(Required(empty, MaxLength), "password")
      + Issue(Required(empty, MaxLength), "name") == ["username", "password", "name"];
  }
}
