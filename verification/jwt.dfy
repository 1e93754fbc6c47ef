/**
  Token construction (`jwt.NewToken`): an HS256-signed JWT (RFC 7519) whose
  claim set is exactly `userID`, `appID`, `email` and `exp`, signed with the
  app's secret.

  HMAC-SHA256 and the base64url serialisation stay abstract behind a `Signer`;
  the one fact the model relies on is `Sound`: verifying a signed claim set
  with the key that signed it gives the claim set back.
 */
module Jwt {
  import opened Errors
  import opened Models

  /** `time.Second`, in the nanoseconds `time.Duration` counts. */
  const NanosPerSecond: int := 1_000_000_000

  /** A JSON value of a `jwt.MapClaims` entry. */
  datatype ClaimValue = ClaimNumber(n: int) | ClaimText(s: string)

  type MapClaims = map<string, ClaimValue>

  /** The claims `NewToken` writes, as a record. */
  datatype Claims = Claims(userID: int, appID: int, email: string, exp: int)

  /** The keys of every claim set `NewToken` writes. */
  const ClaimKeys: set<string> := {"userID", "appID", "email", "exp"}

  /** HS256 signing (`SignedString`) and its inverse (`jwt.Parse`), keyed by an app secret. */
  datatype Signer = Signer(
    sign: (MapClaims, string) -> Ret<string>,
    verify: (string, string) -> Option<MapClaims>)

  /** A signed token verifies, under the key that signed it, to the claims that were signed. */
  ghost predicate Sound(signer: Signer) {
    forall claims, key :: signer.sign(claims, key).err.None? ==>
      signer.verify(signer.sign(claims, key).value, key) == Some(claims)
  }

  /** The claim map `NewToken` fills in for a claims record. */
  function ToMap(c: Claims): (m: MapClaims)
    ensures m.Keys == ClaimKeys
  {
    map["userID" := ClaimNumber(c.userID), "appID" := ClaimNumber(c.appID),
        "email" := ClaimText(c.email), "exp" := ClaimNumber(c.exp)]
  }

  /** Reads a claim map back as a record; only a map with exactly the four claims, correctly typed, is one. */
  function FromMap(m: MapClaims): Option<Claims> {
    if && m.Keys == ClaimKeys
       && m["userID"].ClaimNumber? && m["appID"].ClaimNumber?
       && m["email"].ClaimText? && m["exp"].ClaimNumber?
    then Some(Claims(m["userID"].n, m["appID"].n, m["email"].s, m["exp"].n))
    else None
  }

  /** Every claims record survives the trip through its map. */
  lemma FromMapToMap(c: Claims)
    ensures FromMap(ToMap(c)) == Some(c)
  {
  }

  /** A map that reads back as a record is exactly that record's map: no fifth claim, nothing retyped. */
  lemma ToMapFromMap(m: MapClaims)
    requires FromMap(m).Some?
    ensures ToMap(FromMap(m).value) == m
  {
  }

  /** `t.Unix()`: whole seconds since the epoch of an instant given in nanoseconds, rounded down. */
  function UnixSeconds(nanos: int): (secs: int)
    ensures secs * NanosPerSecond <= nanos < (secs + 1) * NanosPerSecond
  {
    nanos / NanosPerSecond
  }

  /** The claims of a token for `user` at `app`, issued at `now` (nanoseconds since the epoch) and valid for `duration` nanoseconds. */
  function TokenClaims(user: User, app: App, duration: int, now: int): Claims {
    Claims(user.id, app.id, user.email, UnixSeconds(now + duration))
  }

  /**
    `jwt.NewToken(user, app, duration)` with `time.Now()` passed in as `now`.
    On success the token carries exactly the four claims and verifies under
    `app.secret`; when signing fails the token is empty and the signer's error
    is returned unchanged.
   */
  function NewToken(user: User, app: App, duration: int, now: int, signer: Signer): (r: Ret<string>)
    ensures r.err.Some? ==> r.value == ""
    ensures r.err.Some? ==> r.err == signer.sign(ToMap(TokenClaims(user, app, duration, now)), app.secret).err
    ensures r.err.None? && Sound(signer) ==>
      && signer.verify(r.value, app.secret).Some?
      && signer.verify(r.value, app.secret).value.Keys == ClaimKeys
      && FromMap(signer.verify(r.value, app.secret).value) == Some(TokenClaims(user, app, duration, now))
  {
    var signed := signer.sign(ToMap(TokenClaims(user, app, duration, now)), app.secret);
    if signed.err.Some? then Ret("", signed.err) else Ret(signed.value, None)
  }

  /** Each claim of an issued token carries the value the issuer was given, and `exp` is `now + duration` rounded down to whole seconds: at most one second before it. */
  lemma TokenClaimsFaithful(user: User, app: App, duration: int, now: int)
    ensures TokenClaims(user, app, duration, now).userID == user.id
    ensures TokenClaims(user, app, duration, now).appID == app.id
    ensures TokenClaims(user, app, duration, now).email == user.email
    ensures var exp := TokenClaims(user, app, duration, now).exp;
      exp * NanosPerSecond <= now + duration < exp * NanosPerSecond + NanosPerSecond
  {
  }

  /** With a whole-second clock and TTL, `exp` is exactly `now + ttl` in seconds. */
  lemma ExpIsNowPlusTTL(user: User, app: App, nowSecs: int, ttlSecs: int)
    ensures TokenClaims(user, app, ttlSecs * NanosPerSecond, nowSecs * NanosPerSecond).exp == nowSecs + ttlSecs
  {
  }
}
