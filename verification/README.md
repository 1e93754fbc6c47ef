# sso authentication core in Dafny

This project models the core of the `sso` single-sign-on service. That core is four pieces of Go code:

- the authentication service (`Auth.Login`, `Auth.Register`, `Auth.IsAdmin`);
- the JWT minter (`jwt.NewToken`);
- the request validators (the `LoginValidator`, `RegisterValidator` and `IsAdminValidator` structs, their constructors and `GetDetailedError`);
- the gRPC handlers, which validate a request, call the service and turn its error into a status code and message.

The model is pure functions over immutable data. Every collaborator the Go code reaches through an interface or a library is a function-valued field: the user store, the app store, bcrypt and the HS256 signer. A fact the model relies on about a collaborator is a named predicate that a lemma takes as a premise:

- `BcryptSound`: a generated hash matches its password.
- `Jwt.Sound`: a signed token verifies to the claims it was signed with.
- `SigningTotal`: signing never fails.
- `RemembersRegistration`: the store returns a saved user.
- `AuthServer.ExternalErrors`: the errors bcrypt and the store return carry only storage-package sentinels, never one of the auth package's.

Modules:

| file | module | what it holds |
|---|---|---|
| errors.dfy | `Errors` | Go errors: sentinels, `%w` wrapping, `errors.Is`, `(value, error)` pairs |
| models.dfy | `Models` | `models.User`, `models.App`, bytes |
| strings.dfy | `Strings` | substring containment, character classes, decimal rendering |
| jwt.dfy | `Jwt` | the claim map, `Unix()` seconds, `NewToken` |
| validators.dfy | `Validators` | go-playground `required`/`email`/`min`/`gt` rules, the three validators, `GetDetailedError` |
| auth.dfy | `AuthService` | `Auth.Login`, `Auth.Register`, `Auth.IsAdmin`, with the trace of store calls each makes |
| server.dfy | `AuthServer` | the three gRPC handlers as written, and corrected |

Each service function returns its Go result together with the sequence of store calls it made. This lets contracts state the call order, for example that the app store is asked only after the password matched, and that a rejected request never reaches the store. Time is a parameter: `now` is nanoseconds since the epoch, and `exp` is `now + tokenTTL` rounded down to whole seconds, as `Time.Unix()` does.

The validators follow the go-playground rules for the four tags the structs use, as `Validators.Passes` states them:

- `required` rejects the zero value: the empty string, or the integer 0.
- `email` accepts a string that the library's email check accepts. That check is the parameter `isEmail`.
- `min=n` accepts a string of at least `n` characters, or an integer of at least `n`.
- `gt=n` accepts a string of more than `n` characters, or an integer greater than `n`.

A field's rules are tried in tag order and the first failure is the field's error (`Validators.Check`). Fields are visited in declaration order (`Validators.FieldErrors`).

## Model

| member | source | states |
|---|---|---|
| Errors.ExternalIsNoAuthSentinel | internal/grpc/auth/server.go:74 | an error made only from storage sentinels and opaque errors never satisfies `errors.Is` against an auth-package sentinel, however deeply wrapped |
| Errors.ErrorsIsAtMostOne | internal/grpc/auth/server.go:93 | an error whose unwrap chain matches one sentinel matches no other, so a wrapped `storage.ErrUserNotFound` never passes the handler's `errors.Is(err, auth.ErrInvalidAppID)` |
| Jwt.ToMap | internal/lib/jwt/jwt.go:13-17 | the claim map holds exactly the keys `userID`, `appID`, `email`, `exp` |
| Jwt.FromMapToMap | internal/lib/jwt/jwt.go:13-17 | every claims record survives being written to the map and read back |
| Jwt.ToMapFromMap | internal/lib/jwt/jwt.go:13-17 | a map that reads back as claims is exactly that record's map: no extra claim, no retyped value |
| Jwt.UnixSeconds | internal/lib/jwt/jwt.go:17 | the seconds value is the floor of the nanosecond instant: `secs*1e9 <= nanos < (secs+1)*1e9` |
| Jwt.NewToken | internal/lib/jwt/jwt.go:10-25 | on a signing error the token is empty and the error is the signer's; on success, with a sound signer, the token verifies under the app secret to a map with exactly the four claims, which reads back as the user's ID and email, the app's ID and the expiry |
| Jwt.TokenClaimsFaithful | internal/lib/jwt/jwt.go:14-17 | each claim carries the value given to the issuer, and `exp` is `now + duration` rounded down to whole seconds: at most one second before it |
| Jwt.ExpIsNowPlusTTL | internal/lib/jwt/jwt.go:17 | with a whole-second clock and TTL, `exp` is exactly `now + ttl` in seconds |
| Strings.NatToString | internal/lib/validators/validators.go:66 | the decimal rendering of a rule parameter is non-empty and all digits |
| Validators.Tag | internal/lib/validators/validators.go:10-12 | a rule's tag is lower-case letters |
| Validators.FirstWhere | internal/lib/validators/validators.go:17 | the index of the first element meeting a predicate: everything before it fails, the element there (if any) meets it |
| Validators.Check | internal/lib/validators/validators.go:10-12 | a field yields no error exactly when every rule on it passes; an error names the field and carries a lower-case tag and a digit parameter |
| Validators.CheckReportsFirstFailingRule | internal/lib/validators/validators.go:10-12 | a field's error carries the tag and parameter of the first rule in tag order that the value fails; every rule before it passes |
| Validators.FieldErrors | internal/lib/validators/validators.go:15-18 | there are no more errors than fields, none exactly when every field passes, and the first error is the first failing field's |
| Validators.FieldErrorsInFieldOrder | internal/lib/validators/validators.go:15-18 | after the first failing field's error come exactly the errors of the fields after it, so each failing field is reported once, in field order |
| Validators.FieldErrorsComeFromFields | internal/lib/validators/validators.go:15-18 | every reported error is the error of one of the struct's fields |
| Validators.ValidateStruct | internal/lib/validators/validators.go:15-18 | `validate.Struct` returns nil exactly when every field passes; otherwise a non-empty list of validation errors whose first is the first failing field's error |
| Validators.EmailFieldChecks | internal/lib/validators/validators.go:10 | the `Email` field passes exactly when the email is non-empty and well-formed |
| Validators.PasswordFieldChecks | internal/lib/validators/validators.go:11 | the `Password` field passes exactly when the password has at least 8 characters |
| Validators.IdFieldChecks | internal/lib/validators/validators.go:12 | a `required,gt=0` field passes exactly when the ID is positive |
| Validators.LoginValidator.Validate | internal/lib/validators/validators.go:9-26 | a Login request passes exactly when email and password pass and the app ID is positive; otherwise the error is a non-empty list of validation errors |
| Validators.RegisterValidator.Validate | internal/lib/validators/validators.go:28-43 | a Register request passes exactly when email and password pass; otherwise the error is a non-empty list of validation errors |
| Validators.IsAdminValidator.Validate | internal/lib/validators/validators.go:45-58 | an IsAdmin request passes exactly when the user ID is positive; otherwise the error is a non-empty list of validation errors |
| Validators.EmailFieldError | internal/lib/validators/validators.go:10 | the email field's outcome: an empty email fails `required`, a malformed one fails `email` |
| Validators.PasswordFieldError | internal/lib/validators/validators.go:11 | the password field's outcome: an empty password fails `required`, 1 to 7 characters fail `min` with parameter `8` |
| Validators.IdFieldError | internal/lib/validators/validators.go:12 | an ID field's outcome: zero fails `required`, a negative ID fails `gt` with parameter `0` |
| Validators.LoginFirstError | internal/lib/validators/validators.go:9-13 | the reported error of a Login request matches the decision table: email first, then password, then app ID |
| Validators.RegisterFirstError | internal/lib/validators/validators.go:28-31 | the reported error of a Register request matches the decision table: email first, then password |
| Validators.IsAdminFirstError | internal/lib/validators/validators.go:45-47 | the reported error of an IsAdmin request is `required` for zero and `gt=0` for a negative ID |
| Validators.PasswordLengthBoundary | internal/lib/validators/validators.go:11 | with a valid email, a 7-character password is rejected and an 8-character one accepted |
| Validators.EmptyEmailReportedFirst | tests/auth_register_login_test.go:107-111 | with email and password both empty, the reported error is the email's `required` |
| Validators.DetailedError | internal/lib/validators/validators.go:60-72 | as written: a non-validation error reads "Internal error"; for a validation error the message is `Field '<tag>' require minimum <param> characters\n` when the first error's tag is `min` and `Field '<tag>' is invalid\n` otherwise, quoting the tag where the field was meant |
| Validators.TagMessage | internal/lib/validators/validators.go:64-69 | the as-written message is the corrected message with the tag quoted in place of the field name, except that a `required` failure reads "is invalid" instead of "is required" |
| Validators.EmptyPasswordAsWritten | internal/lib/validators/validators.go:60-72 | for Register with a valid email and an empty password, the as-written message is exactly "Field 'required' is invalid\n" |
| Validators.DetailedErrorIntended | tests/auth_register_login_test.go:95-122 | corrected: a non-validation error reads "Internal error"; a validation error's message begins `Field '<field>' ` |
| Validators.TagMessageOmitsField | internal/lib/validators/validators.go:64-69 | a message built from a lower-case tag and a digit parameter never contains `Field '<F>'` for a field name that starts with a capital letter other than `F` (`Capitalised`) |
| Validators.DetailedErrorOmitsField | internal/lib/validators/validators.go:60-72 | for any struct whose field names all start with a capital letter other than `F` (`Capitalised`), the as-written message for a failed validation never names the failing field |
| Validators.EmptyPasswordMessage | tests/auth_register_login_test.go:94-99 | "Field 'Password' is required" is missing from the as-written message for an empty password and present in the corrected one |
| Validators.EmptyEmailMessage | tests/auth_register_login_test.go:100-111 | "Field 'Email' is required" is missing as written and present corrected, whatever the password |
| Validators.ShortPasswordMessage | tests/auth_register_login_test.go:112-117 | "Field 'Password' require minimum 8 characters" is missing as written and present corrected for a 7-character password |
| Validators.InvalidEmailMessage | tests/auth_register_login_test.go:118-123 | "Field 'Email' is invalid" is missing as written and present corrected for a malformed email |
| Validators.ZeroAppIDMessage | tests/auth_register_login_test.go:167-173 | "Field 'AppID' is required" is missing as written and present corrected for app ID 0 |
| Validators.NegativeAppIDMessage | tests/auth_register_login_test.go:174-180 | "Field 'AppID' is invalid" is missing as written and present corrected for a negative app ID |
| Validators.TestExpectation | internal/lib/validators/validators.go:60-72 | for any failed validation, an expectation that quotes the first failing field, whose name starts with a capital letter other than `F` (`Capitalised`), and spells the corrected message without its newline is missed as written and met as corrected |
| AuthService.Login | internal/services/auth/auth.go:63-121 | call order (user, then app only if the password matched); empty token on error; unknown email and wrong password give invalid credentials; other store errors keep their identity; app-not-found is kept; success exactly when the credentials match, the app exists and signing succeeds, returning `NewToken`'s token; a signing failure wraps no sentinel |
| AuthService.CredentialFailuresIndistinguishable | internal/services/auth/auth.go:81-96 | an unknown email (a lookup error that matches `storage.ErrUserNotFound`, however wrapped) and a wrong password give identical results: same token, error and store calls |
| AuthService.Register | internal/services/auth/auth.go:124-160 | SaveUser is called once, with the bcrypt hash, and only if hashing succeeded; the ID is 0 on error; hash and store errors keep their identity, user-exists included; success exactly when both steps succeed, returning the store's ID |
| AuthService.IsAdmin | internal/services/auth/auth.go:162-180 | exactly one store call; success exactly when the store succeeds, passing its flag through; on error `false` and the store's error identity |
| AuthService.RegisterThenLogin | tests/auth_register_login_test.go:25-62 | after a successful registration, Login with the same credentials at a known app succeeds, and the token verifies to the registered ID, the email, the app ID and the expiry `now + tokenTTL` |
| AuthServer.Login | internal/grpc/auth/server.go:42-61 | an invalid request is rejected with InvalidArgument and the detailed message, with no store call; invalid credentials give InvalidArgument "Invalid credentials"; every other error gives Internal "Internal error"; success returns the token; the response is nil exactly on failure |
| AuthServer.Register | internal/grpc/auth/server.go:63-81 | as written: an invalid request gives InvalidArgument with no store call; only `auth.ErrUserExists` gives AlreadyExists; any other error gives Internal; success returns the user ID |
| AuthServer.IsAdmin | internal/grpc/auth/server.go:83-100 | as written: an invalid request gives InvalidArgument with no store call; only `auth.ErrInvalidAppID` gives NotFound; any other error gives Internal; success returns the flag |
| AuthServer.RegisterNeverAlreadyExists | internal/grpc/auth/server.go:72-77 | when the collaborators' errors are external, the as-written Register handler never answers AlreadyExists |
| AuthServer.IsAdminNeverNotFound | internal/grpc/auth/server.go:91-96 | when the store's errors are external, the as-written IsAdmin handler never answers NotFound |
| AuthServer.DuplicateRegistrationAsWritten | tests/auth_register_login_test.go:64-83 | a registration whose save fails with an error matching `storage.ErrUserExists` answers Internal "Internal error" and user ID 0 |
| AuthServer.DuplicateRegistrationIntended | tests/auth_register_login_test.go:64-83 | with the corrected handler, the same request answers AlreadyExists "User already exists" and user ID 0 |
| AuthServer.UnknownAccountIsInvalidCredentials | tests/auth_register_login_test.go:181-187 | a valid Login request for an email the store does not know answers InvalidArgument "Invalid credentials" with an empty token, after one user lookup and no app lookup |
| AuthServer.UnknownAppIsInternal | internal/services/auth/auth.go:98-105 | matching credentials with an unknown app ID reach the client as Internal "Internal error" and an empty token |
| AuthServer.LoginIntended | tests/auth_register_login_test.go:153-180 | the corrected Login handler rejects invalid requests with the field-naming message and otherwise answers as the as-written handler |
| AuthServer.RegisterIntended | tests/auth_register_login_test.go:64-83 | the corrected Register handler maps a storage user-exists error to AlreadyExists "User already exists", anything else to Internal |
| AuthServer.IsAdminIntended | internal/grpc/auth/server.go:91-96 | the corrected IsAdmin handler maps a storage user-not-found error to NotFound "User not found", anything else to Internal |
| AuthServer.UnknownUserIsAdmin | internal/grpc/auth/server.go:91-96 | for a positive user ID whose lookup fails with an error matching `storage.ErrUserNotFound`, the as-written handler answers Internal and the corrected one NotFound |
| AuthServer.RegisterThenLoginHandlers | tests/auth_register_login_test.go:25-62 | through the handlers: a registration answered Ok followed by Login at a known app answers Ok, with a token that verifies to the registered ID, the email, the app ID and the expiry |

## Left out

- Logging (`slog` attributes, `prettylogger`) and `context.Context`: they affect no result.
- bcrypt internals: hashing and comparison are the collaborator `Bcrypt`. `BcryptSound` assumes a generated hash matches its password.
- HS256 signing and the JWT wire format: the collaborator `Signer`. `Jwt.Sound` assumes a signed token verifies to its claims under the same key.
- `Jwt.Sound`: `jwt.Parse` also rejects a token whose `exp` has passed, and the model has no parse-time clock. `AuthService.RegisterThenLogin` and `AuthServer.RegisterThenLoginHandlers` therefore promise that the token verifies, but in Go that holds only while the token is unexpired, which at login time needs a positive `tokenTTL`.
- The email syntax check of go-playground's `email` rule: it is the parameter `isEmail`, not a regular expression.
- Integer widths: user IDs and `exp` are `int64`, app IDs `int32`/`int` in Go, and the claims travel as JSON numbers (float64). The model uses unbounded integers, so overflow and float rounding are not modelled.
- `Jwt.UnixSeconds`: the model takes `time.Now()` as a parameter instead of reading a clock. The tests' tolerance of five seconds (`expDeltaSeconds` in `InDelta`) is not modelled: the model's `exp` is exact.
- `AuthService.Login`: the signing-failure error is `fmt.Errorf("%s: %w", op, a.tokenTTL)`, which formats a `%!w` marker and wraps nothing. It is modelled as an opaque error, not as a wrap of the signer's error.
- `Validators.DetailedError`: the `%s` formatting of go-playground's `Tag()` and `Param()` is modelled only for the rules in use here. These are `required`, `email`, `min` and `gt`, with natural-number parameters.
- `validator.New()` per call and the `InvalidValidationError` path are not modelled beyond the "Internal error" branch. That path happens only when the validator is given a nil or non-struct value, which the constructors never do.
- `ToLoginValidator`, `ToRegisterValidator` and `ToIsAdminValidator` are the datatype constructors, since each only copies its arguments.
- The storage package and the gRPC server wiring (`internal/app`, `cmd/sso/main.go`) are not part of this model. `models.User` and `models.App` are modelled in `models.dfy` with only the fields the core reads: ID, email and password hash for a user, and ID and secret for an app. Any other field they declare is left out. `ErrUserExists`, `ErrUserNotFound` and `ErrAppNotFound` are modelled as distinct sentinels.
- `auth.ErrUserExists` and `auth.ErrInvalidAppID`: the handlers compare against them, but `auth.go` does not declare them. They are modelled as two further distinct sentinels that nothing in the core returns.
- `AuthServer.Login`: an unknown app ID reaches the client as Internal rather than a client error. That is what the code does, and no test states otherwise, so it is modelled as written (`UnknownAppIsInternal`) and not listed as a finding.

## Findings

| source | as written | input that shows it | evidently intended | confidence | as-written member | corrected member |
|---|---|---|---|---|---|---|
| internal/lib/validators/validators.go:66-68 | the message formats `firstError.Tag()` where the field name belongs, and has no `required` case | Register with email `a@b.c` and password `""` gives "Field 'required' is invalid" | "Field 'Password' is required", as the Register and Login failure tests expect | not executed; high | Validators.EmptyPasswordAsWritten | Validators.DetailedErrorIntended |
| internal/grpc/auth/server.go:74 | Register checks `errors.Is(err, auth.ErrUserExists)`, but the service wraps `storage.ErrUserExists` | registering the same email twice gives Internal "Internal error" | AlreadyExists "User already exists", as the duplicated-registration test expects | not executed; high | AuthServer.DuplicateRegistrationAsWritten | AuthServer.DuplicateRegistrationIntended |
| internal/grpc/auth/server.go:93 | IsAdmin checks `errors.Is(err, auth.ErrInvalidAppID)`, which no store error carries | IsAdmin for user ID 7 when the store reports `storage.ErrUserNotFound` gives Internal | NotFound "User not found" | not executed; medium | AuthServer.IsAdminNeverNotFound | AuthServer.IsAdminIntended |
