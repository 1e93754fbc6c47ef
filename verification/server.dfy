/**
  The gRPC handlers (`serverAPI.Login`, `Register`, `IsAdmin`): validate the
  request, call the service, and map its error to a status code and message.

  A reply is the response message (nil on every error) and a status. The
  handlers as written compare against two sentinels the service never
  returns; the `...Intended` handlers are the corrected mapping the tests
  expect, with field-naming validation messages.
 */
module AuthServer {
  import opened Errors
  import opened Models
  import opened Jwt
  import opened Validators
  import AuthService

  /** The gRPC codes the handlers use. */
  datatype Code = InvalidArgument | AlreadyExists | NotFound | Internal

  datatype Status = Ok | Failed(code: Code, msg: string)

  /** The response message (`None` is nil) and the status, with the store calls the service made. */
  datatype Reply<T> = Reply(resp: Option<T>, status: Status, calls: seq<AuthService.Call>)

  /** What a proto getter returns: the field of a non-nil response, else the zero value. */
  function Get<T>(resp: Option<T>, zero: T): T {
    if resp.Some? then resp.value else zero
  }

  function Reject<T>(code: Code, msg: string, calls: seq<AuthService.Call>): (r: Reply<T>)
    ensures r.resp.None? && r.status.Failed?
  {
    Reply(None, Failed(code, msg), calls)
  }

  /** `serverAPI.Login` as written: only invalid credentials are a client error; every other failure is internal. */
  function Login(a: AuthService.Auth, isEmail: string -> bool, now: int, email: string, password: string, appID: int)
    : (r: Reply<string>)
    // Validation comes first; a rejected request never reaches the service.
    ensures LoginValidator(email, password, appID).Validate(isEmail).Some? ==>
      r == Reject(InvalidArgument, DetailedError(LoginValidator(email, password, appID).Validate(isEmail).value), [])
    ensures var run := AuthService.Login(a, now, email, password, appID);
      LoginValidator(email, password, appID).Validate(isEmail).None? ==>
        && r.calls == run.calls
        && (run.out.err.None? ==> r.resp == Some(run.out.value) && r.status == Ok)
        && (FailsWith(run.out.err, InvalidCredentials) ==> r.status == Failed(InvalidArgument, "Invalid credentials"))
        && (run.out.err.Some? && !FailsWith(run.out.err, InvalidCredentials) ==>
              r.status == Failed(Internal, "Internal error"))
    // On any error the response is nil and the client reads an empty token.
    ensures r.status.Failed? <==> r.resp.None?
  {
    var checked := LoginValidator(email, password, appID).Validate(isEmail);
    if checked.Some? then Reject(InvalidArgument, DetailedError(checked.value), [])
    else
      var run := AuthService.Login(a, now, email, password, appID);
      if run.out.err.Some? then
        if ErrorsIs(run.out.err.value, InvalidCredentials) then Reject(InvalidArgument, "Invalid credentials", run.calls)
        else Reject(Internal, "Internal error", run.calls)
      else Reply(Some(run.out.value), Ok, run.calls)
  }

  /** `serverAPI.Register` as written: it compares against `auth.ErrUserExists`. */
  function Register(a: AuthService.Auth, isEmail: string -> bool, email: string, password: string): (r: Reply<int>)
    ensures RegisterValidator(email, password).Validate(isEmail).Some? ==>
      r == Reject(InvalidArgument, DetailedError(RegisterValidator(email, password).Validate(isEmail).value), [])
    ensures var run := AuthService.Register(a, email, password);
      RegisterValidator(email, password).Validate(isEmail).None? ==>
        && r.calls == run.calls
        && (run.out.err.None? ==> r.resp == Some(run.out.value) && r.status == Ok)
        && (FailsWith(run.out.err, AuthUserExists) ==> r.status == Failed(AlreadyExists, "User already exists"))
        && (run.out.err.Some? && !FailsWith(run.out.err, AuthUserExists) ==>
              r.status == Failed(Internal, "Internal error"))
    ensures r.status.Failed? <==> r.resp.None?
  {
    var checked := RegisterValidator(email, password).Validate(isEmail);
    if checked.Some? then Reject(InvalidArgument, DetailedError(checked.value), [])
    else
      var run := AuthService.Register(a, email, password);
      if run.out.err.Some? then
        if ErrorsIs(run.out.err.value, AuthUserExists) then Reject(AlreadyExists, "User already exists", run.calls)
        else Reject(Internal, "Internal error", run.calls)
      else Reply(Some(run.out.value), Ok, run.calls)
  }

  /** `serverAPI.IsAdmin` as written: it compares against `auth.ErrInvalidAppID`. */
  function IsAdmin(a: AuthService.Auth, isEmail: string -> bool, userID: int): (r: Reply<bool>)
    ensures IsAdminValidator(userID).Validate(isEmail).Some? ==>
      r == Reject(InvalidArgument, DetailedError(IsAdminValidator(userID).Validate(isEmail).value), [])
    ensures var run := AuthService.IsAdmin(a, userID);
      IsAdminValidator(userID).Validate(isEmail).None? ==>
        && r.calls == run.calls
        && (run.out.err.None? ==> r.resp == Some(run.out.value) && r.status == Ok)
        && (FailsWith(run.out.err, AuthInvalidAppID) ==> r.status == Failed(NotFound, "User not found"))
        && (run.out.err.Some? && !FailsWith(run.out.err, AuthInvalidAppID) ==>
              r.status == Failed(Internal, "Internal error"))
    ensures r.status.Failed? <==> r.resp.None?
  {
    var checked := IsAdminValidator(userID).Validate(isEmail);
    if checked.Some? then Reject(InvalidArgument, DetailedError(checked.value), [])
    else
      var run := AuthService.IsAdmin(a, userID);
      if run.out.err.Some? then
        if ErrorsIs(run.out.err.value, AuthInvalidAppID) then Reject(NotFound, "User not found", run.calls)
        else Reject(Internal, "Internal error", run.calls)
      else Reply(Some(run.out.value), Ok, run.calls)
  }

  /** The errors the collaborators of a service produce are external: none carries an auth sentinel. */
  ghost predicate ExternalErrors(a: AuthService.Auth) {
    && (forall p :: a.bcrypt.generate(p).err.Some? ==> External(a.bcrypt.generate(p).err.value))
    && (forall e, h :: a.store.saveUser(e, h).err.Some? ==> External(a.store.saveUser(e, h).err.value))
    && (forall id :: a.store.isAdmin(id).err.Some? ==> External(a.store.isAdmin(id).err.value))
  }

  /**
    As written, Register never answers AlreadyExists: the service wraps the
    storage sentinel, never `auth.ErrUserExists`, so a duplicate email is an
    internal error.
   */
  lemma RegisterNeverAlreadyExists(a: AuthService.Auth, isEmail: string -> bool, email: string, password: string)
    requires ExternalErrors(a)
    ensures Register(a, isEmail, email, password).status.Failed? ==>
      Register(a, isEmail, email, password).status.code != AlreadyExists
  {
    var run := AuthService.Register(a, email, password);
    if RegisterValidator(email, password).Validate(isEmail).None? && run.out.err.Some? {
      var hashed := a.bcrypt.generate(password);
      if hashed.err.Some? {
        ExternalIsNoAuthSentinel(hashed.err.value, AuthUserExists);
      } else {
        var saved := a.store.saveUser(email, hashed.value);
        if !ErrorsIs(saved.err.value, StorageUserExists) {
          ExternalIsNoAuthSentinel(saved.err.value, AuthUserExists);
        }
      }
    }
  }

  /**
    As written, IsAdmin never answers NotFound: the service passes the store's
    error on, and no store error carries `auth.ErrInvalidAppID`.
   */
  lemma IsAdminNeverNotFound(a: AuthService.Auth, isEmail: string -> bool, userID: int)
    requires ExternalErrors(a)
    ensures IsAdmin(a, isEmail, userID).status.Failed? ==>
      IsAdmin(a, isEmail, userID).status.code != NotFound
  {
    if IsAdminValidator(userID).Validate(isEmail).None? && a.store.isAdmin(userID).err.Some? {
      ExternalIsNoAuthSentinel(a.store.isAdmin(userID).err.value, AuthInvalidAppID);
    }
  }

  /** A second registration of a taken email, as written: the client is told "Internal error". */
  lemma DuplicateRegistrationAsWritten(a: AuthService.Auth, isEmail: string -> bool, email: string, password: string)
    requires EmailOk(email, isEmail) && PasswordOk(password)
    requires a.bcrypt.generate(password).err.None?
    requires FailsWith(a.store.saveUser(email, a.bcrypt.generate(password).value).err, StorageUserExists)
    ensures Register(a, isEmail, email, password).status == Failed(Internal, "Internal error")
    ensures Get(Register(a, isEmail, email, password).resp, 0) == 0
  {
  }

  /** Login to an account that does not exist answers "Invalid credentials" and an empty token, whatever the app ID. */
  lemma UnknownAccountIsInvalidCredentials(a: AuthService.Auth, isEmail: string -> bool, now: int, email: string,
                                           password: string, appID: int)
    requires LoginValidator(email, password, appID).Validate(isEmail).None?
    requires FailsWith(a.store.user(email).err, StorageUserNotFound)
    ensures Login(a, isEmail, now, email, password, appID).status == Failed(InvalidArgument, "Invalid credentials")
    ensures Get(Login(a, isEmail, now, email, password, appID).resp, "") == ""
    ensures Login(a, isEmail, now, email, password, appID).calls == [AuthService.FetchUser(email)]
  {
  }

  /** With matching credentials and an unknown app ID, Login answers Internal, not a client error. */
  lemma UnknownAppIsInternal(a: AuthService.Auth, isEmail: string -> bool, now: int, email: string, password: string, appID: int)
    requires LoginValidator(email, password, appID).Validate(isEmail).None?
    requires AuthService.CredentialsMatch(a, email, password)
    requires FailsWith(a.store.app(appID).err, StorageAppNotFound)
    ensures Login(a, isEmail, now, email, password, appID).status == Failed(Internal, "Internal error")
    ensures Get(Login(a, isEmail, now, email, password, appID).resp, "") == ""
  {
  }

  /** The corrected Login handler: field-naming validation messages, the same error mapping. */
  function LoginIntended(a: AuthService.Auth, isEmail: string -> bool, now: int, email: string, password: string, appID: int)
    : (r: Reply<string>)
    ensures LoginValidator(email, password, appID).Validate(isEmail).Some? ==>
      r == Reject(InvalidArgument, DetailedErrorIntended(LoginValidator(email, password, appID).Validate(isEmail).value), [])
    ensures LoginValidator(email, password, appID).Validate(isEmail).None? ==>
      r == Login(a, isEmail, now, email, password, appID)
  {
    var checked := LoginValidator(email, password, appID).Validate(isEmail);
    if checked.Some? then Reject(InvalidArgument, DetailedErrorIntended(checked.value), [])
    else Login(a, isEmail, now, email, password, appID)
  }

  /** The corrected Register handler: a duplicate email, as the store reports it, is AlreadyExists. */
  function RegisterIntended(a: AuthService.Auth, isEmail: string -> bool, email: string, password: string): (r: Reply<int>)
    ensures RegisterValidator(email, password).Validate(isEmail).Some? ==>
      r == Reject(InvalidArgument, DetailedErrorIntended(RegisterValidator(email, password).Validate(isEmail).value), [])
    ensures var run := AuthService.Register(a, email, password);
      RegisterValidator(email, password).Validate(isEmail).None? ==>
        && r.calls == run.calls
        && (run.out.err.None? ==> r.resp == Some(run.out.value) && r.status == Ok)
        && (FailsWith(run.out.err, StorageUserExists) ==> r.status == Failed(AlreadyExists, "User already exists"))
        && (run.out.err.Some? && !FailsWith(run.out.err, StorageUserExists) ==>
              r.status == Failed(Internal, "Internal error"))
    ensures r.status.Failed? <==> r.resp.None?
  {
    var checked := RegisterValidator(email, password).Validate(isEmail);
    if checked.Some? then Reject(InvalidArgument, DetailedErrorIntended(checked.value), [])
    else
      var run := AuthService.Register(a, email, password);
      if run.out.err.Some? then
        if ErrorsIs(run.out.err.value, StorageUserExists) then Reject(AlreadyExists, "User already exists", run.calls)
        else Reject(Internal, "Internal error", run.calls)
      else Reply(Some(run.out.value), Ok, run.calls)
  }

  /** The corrected IsAdmin handler: an unknown user, as the store reports it, is NotFound. */
  function IsAdminIntended(a: AuthService.Auth, isEmail: string -> bool, userID: int): (r: Reply<bool>)
    ensures IsAdminValidator(userID).Validate(isEmail).Some? ==>
      r == Reject(InvalidArgument, DetailedErrorIntended(IsAdminValidator(userID).Validate(isEmail).value), [])
    ensures var run := AuthService.IsAdmin(a, userID);
      IsAdminValidator(userID).Validate(isEmail).None? ==>
        && r.calls == run.calls
        && (run.out.err.None? ==> r.resp == Some(run.out.value) && r.status == Ok)
        && (FailsWith(run.out.err, StorageUserNotFound) ==> r.status == Failed(NotFound, "User not found"))
        && (run.out.err.Some? && !FailsWith(run.out.err, StorageUserNotFound) ==>
              r.status == Failed(Internal, "Internal error"))
    ensures r.status.Failed? <==> r.resp.None?
  {
    var checked := IsAdminValidator(userID).Validate(isEmail);
    if checked.Some? then Reject(InvalidArgument, DetailedErrorIntended(checked.value), [])
    else
      var run := AuthService.IsAdmin(a, userID);
      if run.out.err.Some? then
        if ErrorsIs(run.out.err.value, StorageUserNotFound) then Reject(NotFound, "User not found", run.calls)
        else Reject(Internal, "Internal error", run.calls)
      else Reply(Some(run.out.value), Ok, run.calls)
  }

  /** A second registration of a taken email, corrected: the client is told "User already exists". */
  lemma DuplicateRegistrationIntended(a: AuthService.Auth, isEmail: string -> bool, email: string, password: string)
    requires EmailOk(email, isEmail) && PasswordOk(password)
    requires a.bcrypt.generate(password).err.None?
    requires FailsWith(a.store.saveUser(email, a.bcrypt.generate(password).value).err, StorageUserExists)
    ensures RegisterIntended(a, isEmail, email, password).status == Failed(AlreadyExists, "User already exists")
    ensures Get(RegisterIntended(a, isEmail, email, password).resp, 0) == 0
  {
  }

  /** IsAdmin for a user the store does not know, as written (Internal) and corrected (NotFound). */
  lemma UnknownUserIsAdmin(a: AuthService.Auth, isEmail: string -> bool, userID: int)
    requires userID > 0
    requires FailsWith(a.store.isAdmin(userID).err, StorageUserNotFound)
    ensures IsAdmin(a, isEmail, userID).status == Failed(Internal, "Internal error")
    ensures IsAdminIntended(a, isEmail, userID).status == Failed(NotFound, "User not found")
  {
    ErrorsIsAtMostOne(a.store.isAdmin(userID).err.value, StorageUserNotFound, AuthInvalidAppID);
  }

  /**
    The register-then-login round trip through the handlers: a valid request
    registers, and logging in with the same credentials at a known app answers
    Ok with a token that verifies to the registered user's ID, the email, the
    app's ID and an expiry `tokenTTL` after `now`.
   */
  lemma RegisterThenLoginHandlers(before: AuthService.Auth, after: AuthService.Auth, isEmail: string -> bool,
                                  now: int, email: string, password: string, app: App)
    requires EmailOk(email, isEmail) && PasswordOk(password) && app.id > 0
    requires AuthService.BcryptSound(after.bcrypt) && before.bcrypt == after.bcrypt
    requires Sound(after.signer) && AuthService.SigningTotal(after.signer)
    requires Register(before, isEmail, email, password).status == Ok
    requires AuthService.RemembersRegistration(before, after, email, password)
    requires after.store.app(app.id) == Ret(app, None)
    ensures var userID := Get(Register(before, isEmail, email, password).resp, 0);
      var login := Login(after, isEmail, now, email, password, app.id);
      && login.status == Ok
      && after.signer.verify(Get(login.resp, ""), app.secret).Some?
      && FromMap(after.signer.verify(Get(login.resp, ""), app.secret).value) ==
         Some(Claims(userID, app.id, email, UnixSeconds(now + after.tokenTTL)))
  {
    AuthService.RegisterThenLogin(before, after, now, email, password, app);
  }
}
