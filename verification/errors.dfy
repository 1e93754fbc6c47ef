/**
  Go error values as the authentication core produces and inspects them.

  - `Base(s)` is one of the package-level sentinels created with `errors.New`.
  - `Wrapped(op, cause)` is `fmt.Errorf("%s: %w", op, cause)`.
  - `Opaque(msg)` is any error that wraps nothing: a bcrypt or signing failure,
    a driver error from the store, or a format verb applied to a non-error.

  `ErrorsIs` follows the `Unwrap` chain the way `errors.Is` does.
 */
module Errors {

  datatype Option<+T> = None | Some(value: T)

  /** The sentinels the core declares, returns or compares against. */
  datatype Sentinel =
    | StorageUserExists    // storage.ErrUserExists
    | StorageUserNotFound  // storage.ErrUserNotFound
    | StorageAppNotFound   // storage.ErrAppNotFound
    | InvalidCredentials   // auth.ErrInvalidCredentials
    | AuthUserExists       // auth.ErrUserExists: compared against by the transport, not declared in auth.go
    | AuthInvalidAppID     // auth.ErrInvalidAppID: likewise

  datatype Error =
    | Base(sentinel: Sentinel)
    | Wrapped(op: string, cause: Error)
    | Opaque(msg: string)

  /** `errors.Is(e, target)`: some error on the unwrap chain of `e` is `target`. */
  predicate ErrorsIs(e: Error, target: Sentinel) {
    match e
    case Base(s) => s == target
    case Wrapped(_, cause) => ErrorsIs(cause, target)
    case Opaque(_) => false
  }

  /** The same test on the error half of a Go `(value, error)` pair; a nil error is nothing. */
  predicate FailsWith(err: Option<Error>, target: Sentinel) {
    err.Some? && ErrorsIs(err.value, target)
  }

  /** A sentinel declared by the storage package. */
  predicate IsStorageSentinel(s: Sentinel) {
    s == StorageUserExists || s == StorageUserNotFound || s == StorageAppNotFound
  }

  /**
    An error produced outside the auth package (by the store, bcrypt or the
    JWT library): the only sentinels on its chain are the storage package's.
   */
  predicate External(e: Error) {
    match e
    case Base(s) => IsStorageSentinel(s)
    case Wrapped(_, cause) => External(cause)
    case Opaque(_) => true
  }

  /** An external error never matches a sentinel of the auth package, however deeply it is wrapped. */
  lemma {:induction false} ExternalIsNoAuthSentinel(e: Error, target: Sentinel)
    requires External(e)
    requires !IsStorageSentinel(target)
    ensures !ErrorsIs(e, target)
  {
    match e
    case Base(s) =>
    case Wrapped(_, cause) => ExternalIsNoAuthSentinel(cause, target);
    case Opaque(_) =>
  }

  /** An unwrap chain ends in at most one sentinel, so an error matching one sentinel matches no other. */
  lemma {:induction false} ErrorsIsAtMostOne(e: Error, s: Sentinel, t: Sentinel)
    requires ErrorsIs(e, s) && s != t
    ensures !ErrorsIs(e, t)
  {
    match e
    case Base(_) =>
    case Wrapped(_, cause) => ErrorsIsAtMostOne(cause, s, t);
  }

  /** A Go `(value, error)` pair. */
  datatype Ret<+T> = Ret(value: T, err: Option<Error>)
}
