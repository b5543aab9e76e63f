/** The request gates of src/middleware/auth.ts: `authenticate` turns a
    bearer header into the caller's claims, `authorize` admits only the
    listed roles. Token verification and the account lookup are parameters:
    a verifier that refuses (throws) gives None, and so does a lookup that
    finds nobody. */
module Auth {
  import opened Common

  /** What a gate does with the request: pass it on to the next handler
      with the caller's claims, or answer it with an error status. */
  datatype Gate = Next(user: Claims) | Refuse(status: int)

  const BEARER: string := "Bearer "

  /** The token of an Authorization header, when the header starts with
      "Bearer ": the header without its first seven characters. */
  function BearerToken(header: Option<string>): (t: Option<string>)
    ensures t.Some? <==> header.Some? && |BEARER| <= |header.value| && header.value[..|BEARER|] == BEARER
    ensures t.Some? ==> header.value == BEARER + t.value
  {
    if header.Some? && |BEARER| <= |header.value| && header.value[..|BEARER|] == BEARER
    then Some(header.value[|BEARER|..])
    else None
  }

  /** Prefixing "Bearer " and parsing give back the token. */
  lemma BearerRoundTrip(token: string)
    ensures BearerToken(Some(BEARER + token)) == Some(token)
  {
    assert (BEARER + token)[..|BEARER|] == BEARER;
    assert (BEARER + token)[|BEARER|..] == token;
  }

  /** The authenticate middleware. */
  function Authenticate(header: Option<string>, verify: string -> Option<Claims>,
                        lookup: UserId -> Option<Account>): (g: Gate)
    ensures g.Refuse? ==> g.status == UNAUTHORIZED
    ensures g.Next? <==>
      var t := BearerToken(header);
      && t.Some?
      && verify(t.value).Some?
      && lookup(verify(t.value).value.userId) == Some(Account(true))
    ensures g.Next? ==> g.user == verify(BearerToken(header).value).value
  {
    match BearerToken(header)
    case None => Refuse(UNAUTHORIZED)
    case Some(token) =>
      match verify(token)
      case None => Refuse(UNAUTHORIZED)
      case Some(decoded) =>
        if lookup(decoded.userId) == Some(Account(true)) then Next(decoded) else Refuse(UNAUTHORIZED)
  }

  /** Without a bearer header the request is refused before the token is
      verified or any account looked up: the outcome depends on neither. */
  lemma NoBearerNoLookup(header: Option<string>, verify1: string -> Option<Claims>, lookup1: UserId -> Option<Account>,
                         verify2: string -> Option<Claims>, lookup2: UserId -> Option<Account>)
    requires BearerToken(header).None?
    ensures Authenticate(header, verify1, lookup1) == Authenticate(header, verify2, lookup2) == Refuse(UNAUTHORIZED)
  {
  }

  /** The outcome depends only on the account of the user the token names:
      lookups that agree there give the same outcome. */
  lemma OnlyTheTokenUserIsLookedUp(header: Option<string>, verify: string -> Option<Claims>,
                                   lookup1: UserId -> Option<Account>, lookup2: UserId -> Option<Account>)
    requires var t := BearerToken(header);
      t.Some? && verify(t.value).Some? ==>
        lookup1(verify(t.value).value.userId) == lookup2(verify(t.value).value.userId)
    ensures Authenticate(header, verify, lookup1) == Authenticate(header, verify, lookup2)
  {
  }

  /** The role gate `authorize(...roles)`. */
  function Authorize(user: Option<Claims>, roles: seq<UserRole>): (g: Gate)
    ensures g == Refuse(UNAUTHORIZED) <==> user.None?
    ensures g == Refuse(FORBIDDEN) <==> user.Some? && user.value.role !in roles
    ensures g.Next? <==> user.Some? && user.value.role in roles
    ensures g.Next? ==> g.user == user.value
  {
    if user.None? then Refuse(UNAUTHORIZED)
    else if user.value.role !in roles then Refuse(FORBIDDEN)
    else Next(user.value)
  }

  /** Both gates in a row: a request passes iff it carries a bearer token
      the verifier accepts, naming an active account, whose role is
      listed; a refusal is 401 unless authentication passed, and then 403. */
  lemma GatesInSequence(header: Option<string>, verify: string -> Option<Claims>,
                        lookup: UserId -> Option<Account>, roles: seq<UserRole>)
    ensures var a := Authenticate(header, verify, lookup);
      var g := if a.Next? then Authorize(Some(a.user), roles) else a;
      && (g.Next? <==> a.Next? && a.user.role in roles)
      && (g == Refuse(FORBIDDEN) <==> a.Next? && a.user.role !in roles)
      && (g == Refuse(UNAUTHORIZED) <==> a.Refuse?)
  {
  }
}
