/** The authorization middleware: reading a bearer token into the request's
    locals, and the three gates that let a request through to the next
    handler or throw. */
module Auth {
  import opened Js
  import opened Errors

  /** The fields of a verified token's payload the gates read; None is a
      missing field. */
  datatype Payload = Payload(username: Option<Value>, isAdmin: Option<Value>)

  /** What a middleware does: call `next()`, or throw. */
  datatype Outcome = Next | Raise(error: Error)

  /** ensureLoggedIn: through exactly when a user is stored in the locals. */
  function EnsureLoggedIn(user: Option<Payload>): (g: Outcome)
    ensures g == Next <==> user.Some?
    ensures g != Next ==> g == Raise(Unauthorized)
  {
    if user.None? then Raise(Unauthorized) else Next
  }

  /** ensureAdminUser: through exactly when the user's `isAdmin` is the
      boolean true; with no user, reading `isAdmin` crashes. */
  function EnsureAdminUser(user: Option<Payload>): (g: Outcome)
    ensures user.None? ==> g == Raise(TypeError)
    ensures g == Next <==> user.Some? && user.value.isAdmin == Some(VBool(true))
    ensures user.Some? && g != Next ==> g == Raise(Unauthorized)
  {
    match user
    case None => Raise(TypeError)
    case Some(u) => if u.isAdmin == Some(VBool(true)) then Next else Raise(Unauthorized)
  }

  /** `a === b` between the user's username and the route parameter. */
  predicate StrictEquals(a: Option<Value>, b: Option<string>)
  {
    match (a, b)
    case (None, None) => true
    case (Some(VStr(s)), Some(t)) => s == t
    case _ => false
  }

  /** ensureCurrentOrAdmin: through exactly when the user's username is the
      route's username, or the user is an admin; with no user, reading its
      fields crashes. */
  function EnsureCurrentOrAdmin(user: Option<Payload>, paramUsername: Option<string>): (g: Outcome)
    ensures user.None? ==> g == Raise(TypeError)
    ensures g == Next <==>
      user.Some? && (StrictEquals(user.value.username, paramUsername) || user.value.isAdmin == Some(VBool(true)))
    ensures user.Some? && g != Next ==> g == Raise(Unauthorized)
  {
    match user
    case None => Raise(TypeError)
    case Some(u) =>
      if StrictEquals(u.username, paramUsername) || u.isAdmin == Some(VBool(true)) then Next
      else Raise(Unauthorized)
  }

  /** An admin passes the current-user-or-admin gate for every route
      parameter, and whoever passes either gate passes the login gate. */
  lemma GatesOrdered(user: Option<Payload>, paramUsername: Option<string>)
    ensures EnsureAdminUser(user) == Next ==> EnsureCurrentOrAdmin(user, paramUsername) == Next
    ensures EnsureCurrentOrAdmin(user, paramUsername) == Next ==> EnsureLoggedIn(user) == Next
    ensures EnsureAdminUser(user) == Next ==> EnsureLoggedIn(user) == Next
  {
  }

  /** The admin gates crash exactly where the login gate refuses, so behind
      ensureLoggedIn they only ever throw Unauthorized. */
  lemma CrashOnlyWithoutUser(user: Option<Payload>, paramUsername: Option<string>)
    ensures EnsureAdminUser(user) == Raise(TypeError) <==> EnsureLoggedIn(user) != Next
    ensures EnsureCurrentOrAdmin(user, paramUsername) == Raise(TypeError) <==> EnsureLoggedIn(user) != Next
  {
  }

  /** A user named in the route passes even when not an admin; an undefined
      route parameter matches a user with no username. */
  lemma CurrentUserExamples()
    ensures EnsureCurrentOrAdmin(Some(Payload(Some(VStr("u1")), Some(VBool(false)))), Some("u1")) == Next
    ensures EnsureCurrentOrAdmin(Some(Payload(None, Some(VBool(true)))), Some("u1")) == Next
    ensures EnsureCurrentOrAdmin(Some(Payload(Some(VStr("u2")), Some(VBool(false)))), Some("u1")) == Raise(Unauthorized)
    ensures EnsureCurrentOrAdmin(Some(Payload(None, None)), None) == Next
    ensures EnsureAdminUser(Some(Payload(None, Some(VStr("true"))))) == Raise(Unauthorized)
  {
  }

  // ---- The authorization header ----

  const BearerWord := "earer "

  /** `header.replace(/^[Bb]earer /, "")`: removes one leading "Bearer " or
      "bearer " and leaves anything else alone. */
  function StripBearerPrefix(header: string): string
  {
    if |header| >= 7 && (header[0] == 'B' || header[0] == 'b') && header[1..7] == BearerWord
    then header[7..]
    else header
  }

  /** The token handed to verification. */
  function BearerToken(header: string): string
  {
    Trim(StripBearerPrefix(header))
  }

  /** The prefix goes exactly once, in either capitalisation, whatever follows. */
  lemma StripRemovesOnce(token: string)
    ensures StripBearerPrefix("Bearer " + token) == token
    ensures StripBearerPrefix("bearer " + token) == token
  {
  }

  /** A header that does not start with the prefix is passed on as it is,
      and a stripped header is a suffix of the original. */
  lemma StripKeepsOthers(header: string)
    ensures (|header| < 7 || (header[0] != 'B' && header[0] != 'b') || header[1..7] != BearerWord)
      ==> StripBearerPrefix(header) == header
    ensures var r := StripBearerPrefix(header); |r| <= |header| && r == header[|header| - |r|..]
  {
  }

  /** The token of "Bearer <t>" is t trimmed: it carries no outer whitespace
      and trimming it again changes nothing. */
  lemma BearerTokenOf(t: string)
    ensures BearerToken("Bearer " + t) == Trim(t)
    ensures var r := BearerToken("Bearer " + t);
      (r == [] || (!IsJsWhitespace(r[0]) && !IsJsWhitespace(r[|r| - 1]))) && Trim(r) == r
  {
    StripRemovesOnce(t);
    TrimNoOuterWhitespace(t);
    TrimIdempotent(t);
  }

  /** res.locals: what the middleware chain shares about the request. */
  class Locals {
    var user: Option<Payload>

    constructor (user: Option<Payload>)
      ensures this.user == user
    {
      this.user := user;
    }
  }

  /** authenticateJWT: given a non-empty authorization header, stores the
      payload of its bearer token when verification succeeds; a missing or
      empty header, or a token that fails verification, leaves the locals
      as they were. It always lets the request through. `verify` stands for
      verification against the server's secret, None for a thrown error. */
  method AuthenticateJwt(locals: Locals, authorization: Option<string>, verify: string -> Option<Payload>)
    returns (g: Outcome)
    modifies locals
    ensures g == Next
    ensures authorization.Some? && authorization.value != [] && verify(BearerToken(authorization.value)).Some? ==>
      && locals.user == verify(BearerToken(authorization.value))
      && EnsureLoggedIn(locals.user) == Next
    ensures !(authorization.Some? && authorization.value != [] && verify(BearerToken(authorization.value)).Some?) ==>
      locals.user == old(locals.user)
  {
    if authorization.Some? && authorization.value != [] {
      var token := BearerToken(authorization.value);
      var payload := verify(token);
      if payload.Some? {
        locals.user := payload;
      }
    }
    g := Next;
  }
}
