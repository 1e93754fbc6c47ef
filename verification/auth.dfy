/**
  The authentication service (`auth.Auth`): Login, Register and IsAdmin over
  abstract collaborators.

  The user store, app store, bcrypt and the token signer are function-valued
  fields; each answers a Go `(value, error)` pair. Every operation also reports
  the store calls it made, in order, so that which collaborator is consulted
  when (and with what) can be stated. Logging has no effect on results and is
  left out.
 */
module AuthService {
  import opened Errors
  import opened Models
  import opened Jwt

  /** `UserSaver`, `UserProvider` and `AppProvider`. */
  datatype Store = Store(
    saveUser: (string, Bytes) -> Ret<int>,
    user: string -> Ret<User>,
    isAdmin: int -> Ret<bool>,
    app: int -> Ret<App>)

  /**
    bcrypt: `GenerateFromPassword` (its random salt is fixed by whoever supplies
    the function) and `CompareHashAndPassword`, true when it returns nil.
   */
  datatype Bcrypt = Bcrypt(generate: string -> Ret<Bytes>, compare: (Bytes, string) -> bool)

  /** A hash bcrypt generated for a password matches that password. */
  ghost predicate BcryptSound(b: Bcrypt) {
    forall p :: b.generate(p).err.None? ==> b.compare(b.generate(p).value, p)
  }

  /** The service with its collaborators and the token TTL (a `time.Duration`, in nanoseconds). */
  datatype Auth = Auth(store: Store, bcrypt: Bcrypt, signer: Signer, tokenTTL: int)

  /** A call the service makes on the store. */
  datatype Call =
    | FetchUser(email: string)
    | FetchApp(appID: int)
    | SaveUser(email: string, hash: Bytes)
    | FetchAdmin(userID: int)

  /** What an operation returns, with the store calls it made. */
  datatype Run<T> = Run(out: Ret<T>, calls: seq<Call>)

  const LoginOp := "auth.Login"
  const RegisterOp := "auth.Register"
  const IsAdminOp := "auth.IsAdmin"

  /** An error carries exactly the sentinels `e` carries. */
  ghost predicate SameIdentity(err: Option<Error>, e: Error) {
    err.Some? && forall s :: ErrorsIs(err.value, s) <==> ErrorsIs(e, s)
  }

  /** The user is on file and the password matches the stored hash. */
  predicate CredentialsMatch(a: Auth, email: string, password: string) {
    a.store.user(email).err.None? && a.bcrypt.compare(a.store.user(email).value.passHash, password)
  }

  /**
    `Auth.Login`: look the user up, check the password, look the app up, mint
    the token, in that order and stopping at the first failure.
   */
  function Login(a: Auth, now: int, email: string, password: string, appID: int): (r: Run<string>)
    // The user store is asked first; the app store only once the credentials match.
    ensures r.calls == if CredentialsMatch(a, email, password) then [FetchUser(email), FetchApp(appID)] else [FetchUser(email)]
    // Every failure returns the empty token.
    ensures r.out.err.Some? ==> r.out.value == ""
    // An unknown email and a wrong password both read as invalid credentials.
    ensures FailsWith(a.store.user(email).err, StorageUserNotFound) ==> FailsWith(r.out.err, InvalidCredentials)
    ensures a.store.user(email).err.None? && !CredentialsMatch(a, email, password) ==>
      FailsWith(r.out.err, InvalidCredentials)
    // Any other user-store failure is passed on as it is.
    ensures a.store.user(email).err.Some? && !FailsWith(a.store.user(email).err, StorageUserNotFound) ==>
      SameIdentity(r.out.err, a.store.user(email).err.value)
    // With matching credentials, an unknown app is reported as such and other app-store failures are passed on.
    ensures CredentialsMatch(a, email, password) && FailsWith(a.store.app(appID).err, StorageAppNotFound) ==>
      SameIdentity(r.out.err, Base(StorageAppNotFound))
    ensures (CredentialsMatch(a, email, password) && a.store.app(appID).err.Some?
             && !FailsWith(a.store.app(appID).err, StorageAppNotFound)) ==>
      SameIdentity(r.out.err, a.store.app(appID).err.value)
    // Success is exactly the token minted for that user and app; a signing failure carries no sentinel.
    ensures r.out.err.None? <==>
      CredentialsMatch(a, email, password) && a.store.app(appID).err.None?
      && NewToken(a.store.user(email).value, a.store.app(appID).value, a.tokenTTL, now, a.signer).err.None?
    ensures r.out.err.None? ==>
      r.out.value == NewToken(a.store.user(email).value, a.store.app(appID).value, a.tokenTTL, now, a.signer).value
    ensures CredentialsMatch(a, email, password) && a.store.app(appID).err.None? && r.out.err.Some? ==>
      forall s :: !FailsWith(r.out.err, s)
  {
    var found := a.store.user(email);
    if found.err.Some? then
      if ErrorsIs(found.err.value, StorageUserNotFound) then
        Run(Ret("", Some(Wrapped(LoginOp, Base(InvalidCredentials)))), [FetchUser(email)])
      else
        Run(Ret("", Some(Wrapped(LoginOp, found.err.value))), [FetchUser(email)])
    else if !a.bcrypt.compare(found.value.passHash, password) then
      Run(Ret("", Some(Wrapped(LoginOp, Base(InvalidCredentials)))), [FetchUser(email)])
    else
      var calls := [FetchUser(email), FetchApp(appID)];
      var app := a.store.app(appID);
      if app.err.Some? then
        if ErrorsIs(app.err.value, StorageAppNotFound) then
          Run(Ret("", Some(Wrapped(LoginOp, Base(StorageAppNotFound)))), calls)
        else
          Run(Ret("", Some(Wrapped(LoginOp, app.err.value))), calls)
      else
        var token := NewToken(found.value, app.value, a.tokenTTL, now, a.signer);
        if token.err.Some? then
          // `%w` applied to the TTL, which is not an error: the result wraps nothing.
          Run(Ret("", Some(Opaque(LoginOp + ": %!w(time.Duration)"))), calls)
        else
          Run(Ret(token.value, None), calls)
  }

  /**
    An unknown email and a wrong password are indistinguishable to the caller:
    same token, same error value, same store calls.
   */
  lemma CredentialFailuresIndistinguishable(
    unknown: Auth, wrong: Auth, now: int, email: string, password: string, appID: int)
    requires FailsWith(unknown.store.user(email).err, StorageUserNotFound)
    requires wrong.store.user(email).err.None? && !CredentialsMatch(wrong, email, password)
    ensures Login(unknown, now, email, password, appID) == Login(wrong, now, email, password, appID)
  {
  }

  /**
    `Auth.Register`: hash the password, then save the user with the hash.
    Saving is never attempted when hashing fails.
   */
  function Register(a: Auth, email: string, password: string): (r: Run<int>)
    // The only store call is SaveUser, with the bcrypt hash of the password, and only when hashing succeeded.
    ensures r.calls == if a.bcrypt.generate(password).err.None?
      then [SaveUser(email, a.bcrypt.generate(password).value)] else []
    ensures r.out.err.Some? ==> r.out.value == 0
    ensures a.bcrypt.generate(password).err.Some? ==>
      SameIdentity(r.out.err, a.bcrypt.generate(password).err.value)
    // A duplicate email is reported as such; other store failures are passed on as they are.
    ensures var saved := a.store.saveUser(email, a.bcrypt.generate(password).value);
      a.bcrypt.generate(password).err.None? && FailsWith(saved.err, StorageUserExists) ==>
        SameIdentity(r.out.err, Base(StorageUserExists))
    ensures var saved := a.store.saveUser(email, a.bcrypt.generate(password).value);
      a.bcrypt.generate(password).err.None? && saved.err.Some? && !FailsWith(saved.err, StorageUserExists) ==>
        SameIdentity(r.out.err, saved.err.value)
    // Success returns the ID the store assigned, unchanged.
    ensures var saved := a.store.saveUser(email, a.bcrypt.generate(password).value);
      r.out.err.None? <==> a.bcrypt.generate(password).err.None? && saved.err.None?
    ensures r.out.err.None? ==> r.out.value == a.store.saveUser(email, a.bcrypt.generate(password).value).value
  {
    var hashed := a.bcrypt.generate(password);
    if hashed.err.Some? then
      Run(Ret(0, Some(Wrapped(RegisterOp, hashed.err.value))), [])
    else
      var calls := [SaveUser(email, hashed.value)];
      var saved := a.store.saveUser(email, hashed.value);
      if saved.err.Some? then
        if ErrorsIs(saved.err.value, StorageUserExists) then
          Run(Ret(0, Some(Wrapped(RegisterOp, Base(StorageUserExists)))), calls)
        else
          Run(Ret(0, Some(Wrapped(RegisterOp, saved.err.value))), calls)
      else
        Run(Ret(saved.value, None), calls)
  }

  /** `Auth.IsAdmin`: the store's flag, or `false` and the store's error passed on. */
  function IsAdmin(a: Auth, userID: int): (r: Run<bool>)
    ensures r.calls == [FetchAdmin(userID)]
    ensures r.out.err.None? <==> a.store.isAdmin(userID).err.None?
    ensures r.out.err.None? ==> r.out.value == a.store.isAdmin(userID).value
    ensures r.out.err.Some? ==> !r.out.value && SameIdentity(r.out.err, a.store.isAdmin(userID).err.value)
  {
    var flag := a.store.isAdmin(userID);
    if flag.err.Some? then Run(Ret(false, Some(Wrapped(IsAdminOp, flag.err.value))), [FetchAdmin(userID)])
    else Run(Ret(flag.value, None), [FetchAdmin(userID)])
  }

  /**
    The store after a registration remembers it: asked for the registered
    email, the user provider returns the user with the ID and hash that were saved.
   */
  ghost predicate RemembersRegistration(before: Auth, after: Auth, email: string, password: string) {
    var reg := Register(before, email, password);
    forall hash :: SaveUser(email, hash) in reg.calls ==>
      after.store.user(email) == Ret(User(reg.out.value, email, hash), None)
  }

  /** Signing never fails (HS256 with a byte-slice key). */
  ghost predicate SigningTotal(signer: Signer) {
    forall claims, key :: signer.sign(claims, key).err.None?
  }

  /**
    Register then Login: after a successful registration, logging in with the
    same email and password at a known app succeeds, and the token verifies
    under the app's secret to the registered user's ID, the email, the app's
    ID and an expiry `tokenTTL` after `now`.
   */
  lemma RegisterThenLogin(before: Auth, after: Auth, now: int, email: string, password: string, app: App)
    requires BcryptSound(after.bcrypt) && before.bcrypt == after.bcrypt
    requires Sound(after.signer) && SigningTotal(after.signer)
    requires Register(before, email, password).out.err.None?
    requires RemembersRegistration(before, after, email, password)
    requires after.store.app(app.id) == Ret(app, None)
    ensures var token := Login(after, now, email, password, app.id).out;
      && token.err.None?
      && after.signer.verify(token.value, app.secret).Some?
      && FromMap(after.signer.verify(token.value, app.secret).value) ==
         Some(Claims(Register(before, email, password).out.value, app.id, email, UnixSeconds(now + after.tokenTTL)))
  {
  }
}
