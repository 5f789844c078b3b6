/** `verifyJwt`: takes the access token from the `accessToken` cookie or the
    `Authorization` header, verifies it, looks the user up by the token's
    `_id` claim and attaches the user to the request before calling `next`.
    `jwt.verify` with the server's secret is a parameter. */
module AuthMiddleware {
  import opened Common
  import opened JsStrings
  import opened ApiErrors
  import opened AsyncHandler
  import opened UserModel

  /** `req.cookies.accessToken || req.headers.authorization?.split(" ")[1]`. */
  function ExtractToken(cookie: Option<string>, authorization: Option<string>): (r: Option<string>)
    ensures Truthy(cookie) ==> r == cookie
    ensures !Truthy(cookie) ==> (r.Some? <==> authorization.Some? && ' ' in authorization.value)
  {
    if Truthy(cookie) then cookie
    else if authorization.None? then None
    else SecondWord(authorization.value)
  }

  /** Without a usable cookie, a `Bearer <token>` header yields the token. */
  lemma BearerHeaderToken(cookie: Option<string>, scheme: string, token: string)
    requires !Truthy(cookie) && ' ' !in scheme && ' ' !in token
    ensures ExtractToken(cookie, Some(scheme + " " + token)) == Some(token)
  {
    BearerSecondWord(scheme, token);
  }

  /** Without a usable cookie the token is the header's second word: the
      text after its first space, up to the next space or the end. */
  lemma HeaderTokenIsSecondWord(cookie: Option<string>, a: string, w: string, b: string)
    requires !Truthy(cookie) && ' ' !in a && ' ' !in w && (b == [] || b[0] == ' ')
    ensures ExtractToken(cookie, Some(a + " " + w + b)) == Some(w)
  {
    SecondWordBetweenSpaces(a, w, b);
  }

  /** A non-empty cookie wins over any header. */
  lemma CookieWins(token: string, authorization: Option<string>)
    requires token != ""
    ensures ExtractToken(Some(token), authorization) == Some(token)
  {
  }

  /** The index of the user the decoded claims name by `_id`, if any. A claim
      that is not an id (or is missing) finds nobody. */
  function ClaimedUser(users: seq<Doc<User>>, claims: Claims): (r: Option<nat>)
    ensures r.Some? ==> r.value < |users| && "_id" in claims && claims["_id"] == IdClaim(users[r.value].id)
    ensures r.None? ==> !("_id" in claims && claims["_id"].IdClaim? && HasId(users, claims["_id"].id))
  {
    if "_id" in claims && claims["_id"].IdClaim? then
      FindByIdPresent(users, claims["_id"].id);
      FindById(users, claims["_id"].id)
    else None
  }

  /** How the middleware ends: the user is attached and `next` is called;
      the caught error is returned and nothing happens; or it throws. */
  datatype Outcome = Proceed(user: Doc<PublicUser>) | Stall | Reject(error: JsError)

  const NoToken: JsError := Api(401, "Access token is required")

  /** The outcome of `verifyJwt` for a request with these cookie and header
      values. */
  function Authenticate(users: seq<Doc<User>>, cookie: Option<string>, authorization: Option<string>,
                        verify: string -> Option<Claims>): (r: Outcome)
    ensures r.Reject? <==> !Truthy(ExtractToken(cookie, authorization))
    ensures r.Reject? ==> r.error == NoToken
    ensures r.Proceed? ==>
      var claims := verify(ExtractToken(cookie, authorization).value);
      && claims.Some?
      && "_id" in claims.value
      && exists i :: 0 <= i < |users| && claims.value["_id"] == IdClaim(users[i].id) && r.user == PublicDoc(users[i])
    ensures Truthy(ExtractToken(cookie, authorization)) ==>
      var claims := verify(ExtractToken(cookie, authorization).value);
      (r.Proceed? <==> claims.Some? && ClaimedUser(users, claims.value).Some?)
  {
    var token := ExtractToken(cookie, authorization);
    if !Truthy(token) then Reject(NoToken)
    else
      match verify(token.value)
      case None => Stall
      case Some(claims) =>
        match ClaimedUser(users, claims)
        case None => Stall
        case Some(i) => Proceed(PublicDoc(users[i]))
  }

  /** With no token the thrown 401 reaches the client as a 500 whose message
      is "401". */
  lemma NoTokenReply(users: seq<Doc<User>>, cookie: Option<string>, authorization: Option<string>,
                     verify: string -> Option<Claims>)
    requires !Truthy(ExtractToken(cookie, authorization))
    ensures Authenticate(users, cookie, authorization, verify) == Reject(NoToken)
    ensures Wrap<()>(Threw(NoToken)) == Sent(500, Failure(false, "401"))
  {
    ApiErrorAlways500<()>(401, "Access token is required");
    assert DecimalString(401) == "401";
  }

  /** A token whose payload is what `generateAccessToken` signs (its claims,
      plus at most the `iat` and `exp` that signing adds) names nobody by
      `_id`: the request stalls, whoever the token was issued to. */
  lemma AccessTokenStalls(users: seq<Doc<User>>, cookie: Option<string>, authorization: Option<string>,
                          verify: string -> Option<Claims>, d: Doc<User>)
    requires Truthy(ExtractToken(cookie, authorization))
    requires var claims := verify(ExtractToken(cookie, authorization).value);
      claims.Some? && claims.value.Keys <= AccessClaims(d).Keys + {"iat", "exp"}
    ensures Authenticate(users, cookie, authorization, verify) == Stall
  {
    AccessClaimKeys(d);
    var claims := verify(ExtractToken(cookie, authorization).value).value;
    assert "_id" !in claims;
  }

  /** A verified token whose `_id` claim is the id of a stored user lets the
      request through with that user, password and refresh token left out. */
  lemma KnownIdProceeds(users: seq<Doc<User>>, cookie: Option<string>, authorization: Option<string>,
                        verify: string -> Option<Claims>, i: nat, next: Id)
    requires WellKeyed(users, next) && i < |users|
    requires Truthy(ExtractToken(cookie, authorization))
    requires var claims := verify(ExtractToken(cookie, authorization).value);
      claims.Some? && "_id" in claims.value && claims.value["_id"] == IdClaim(users[i].id)
    ensures Authenticate(users, cookie, authorization, verify) == Proceed(PublicDoc(users[i]))
  {
    var claims := verify(ExtractToken(cookie, authorization).value).value;
    var k := ClaimedUser(users, claims).value;
    assert users[k].id == users[i].id;
  }

  /** The parts of an Express request the middleware reads and writes, and
      what happened to it: the user attached, how often `next` was called,
      and the reply sent. */
  class Request {
    const cookie: Option<string>
    const authorization: Option<string>
    var user: Option<Doc<PublicUser>>
    var nextCalls: nat
    var reply: Reply<()>

    constructor(cookie: Option<string>, authorization: Option<string>)
      ensures this.cookie == cookie && this.authorization == authorization
      ensures user == None && nextCalls == 0 && reply == NoReply
    {
      this.cookie := cookie;
      this.authorization := authorization;
      user := None;
      nextCalls := 0;
      reply := NoReply;
    }
  }

  /** `verifyJwt` wrapped by `asyncHandler`. On success `req.user` is set and
      `next` is called once; a thrown error is answered; a caught one leaves
      the request untouched, unanswered and not passed on. */
  method VerifyJwt(req: Request, users: seq<Doc<User>>, verify: string -> Option<Claims>)
    modifies req
    ensures match Authenticate(users, req.cookie, req.authorization, verify)
      case Proceed(u) =>
        req.user == Some(u) && req.nextCalls == old(req.nextCalls) + 1 && req.reply == old(req.reply)
      case Stall =>
        req.user == old(req.user) && req.nextCalls == old(req.nextCalls) && req.reply == old(req.reply)
      case Reject(e) =>
        req.user == old(req.user) && req.nextCalls == old(req.nextCalls) && req.reply == Wrap(Threw(e))
  {
    var token := ExtractToken(req.cookie, req.authorization);
    if !Truthy(token) {
      req.reply := Wrap(Threw(NoToken));
      return;
    }
    var claims := verify(token.value);
    if claims.None? {
      return;
    }
    var found := ClaimedUser(users, claims.value);
    if found.None? {
      return;
    }
    req.user := Some(PublicDoc(users[found.value]));
    req.nextCalls := req.nextCalls + 1;
  }
}
