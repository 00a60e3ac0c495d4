/** The request-identity middleware: `userIdentity` turns the request's
    `Authorization` header into a user id stored in the context (or aborts the
    request with 401), and `getUserId` reads that id back for a handler (or
    aborts with 500). Token validation itself is a parameter: the service's
    `ParseToken`, a total function from the token text to a user id or an
    error. */
module Handler {
  import opened Gin
  import Strings

  const AuthorizationHeader := "Authorization"
  const UserCtx := "userId"
  const Scheme := "Bearer"

  const StatusUnauthorized := 401
  const StatusInternalServerError := 500

  const MsgNoHeader := "No authorization header"
  const MsgInvalidHeader := "Invalid authorization header"
  const MsgUserIdNotFound := "User id not found"

  /** What `ParseToken` answers: the token's user id, or an error. */
  datatype TokenResult = TokenOk(userId: int) | TokenErr(reason: string)

  /** The decision `userIdentity` takes for one request: exactly one of
      "abort with this response" and "proceed as this user". */
  datatype Outcome = Rejected(response: Abort) | Authenticated(userId: int)

  /** The decision of `userIdentity` for a header value, step by step as
      the middleware takes it: empty header, then the split at the first
      space and the scheme check, then the token. */
  function Decide(header: string, parseToken: string -> TokenResult): (o: Outcome)
    ensures header == "" ==> o.Rejected?
    ensures o.Rejected? ==> o.response.status == StatusUnauthorized
    ensures o.Rejected? ==>
      o.response.message == if header == "" then MsgNoHeader else MsgInvalidHeader
  {
    if header == "" then Rejected(Abort(StatusUnauthorized, MsgNoHeader))
    else
      var parts := Strings.SplitN2(header);
      if |parts| != 2 || parts[0] != Scheme then Rejected(Abort(StatusUnauthorized, MsgInvalidHeader))
      else
        match parseToken(parts[1])
        case TokenErr(_) => Rejected(Abort(StatusUnauthorized, MsgInvalidHeader))
        case TokenOk(u) => Authenticated(u)
  }

  /** The header starts with the scheme and one space. */
  predicate HasBearerPrefix(header: string)
  {
    |header| >= |Scheme| + 1 && header[..|Scheme| + 1] == Scheme + " "
  }

  /** The token text of a header with the bearer prefix: everything after
      the first space. */
  function BearerToken(header: string): (token: string)
    requires HasBearerPrefix(header)
  {
    header[|Scheme| + 1..]
  }

  /** A first split part equal to the scheme means the header starts with
      "Bearer ", and the second part is the rest of the header. */
  lemma SchemePartIsPrefix(header: string)
    requires |Strings.SplitN2(header)| == 2 && Strings.SplitN2(header)[0] == Scheme
    ensures HasBearerPrefix(header)
    ensures Strings.SplitN2(header)[1] == BearerToken(header)
  {
    var parts := Strings.SplitN2(header);
    assert header == Scheme + [Strings.Space] + parts[1];
    assert header[..|Scheme| + 1] == Scheme + " ";
  }

  /** A second, split-free description of the middleware's decision: an
      empty header is "No authorization header"; a header that does not
      start with exactly "Bearer " is "Invalid authorization header";
      otherwise ParseToken sees the whole rest of the header, and its error
      becomes "Invalid authorization header" too. */
  lemma DecideByPrefix(header: string, parseToken: string -> TokenResult)
    ensures Decide(header, parseToken) ==
      if header == "" then Rejected(Abort(StatusUnauthorized, MsgNoHeader))
      else if !HasBearerPrefix(header) then Rejected(Abort(StatusUnauthorized, MsgInvalidHeader))
      else match parseToken(BearerToken(header))
        case TokenErr(_) => Rejected(Abort(StatusUnauthorized, MsgInvalidHeader))
        case TokenOk(u) => Authenticated(u)
  {
    if header != "" {
      var parts := Strings.SplitN2(header);
      if HasBearerPrefix(header) {
        assert header == Scheme + [Strings.Space] + BearerToken(header);
        Strings.SplitN2Unique(header, Scheme, BearerToken(header));
      }
      if |parts| == 2 && parts[0] == Scheme {
        SchemePartIsPrefix(header);
      }
    }
  }

  /** The scheme is matched case-sensitively: "bearer " is not "Bearer ". */
  lemma SchemeIsCaseSensitive(token: string, parseToken: string -> TokenResult)
    ensures Decide("bearer " + token, parseToken) == Rejected(Abort(StatusUnauthorized, MsgInvalidHeader))
  {
    DecideByPrefix("bearer " + token, parseToken);
    assert ("bearer " + token)[0] == 'b';
  }

  /** A header without any space has a single split part and is rejected as
      invalid. */
  lemma HeaderWithoutSpaceRejected(header: string, parseToken: string -> TokenResult)
    requires header != "" && Strings.Space !in header
    ensures Decide(header, parseToken) == Rejected(Abort(StatusUnauthorized, MsgInvalidHeader))
  {
  }

  /** Whatever follows "Bearer " is the token, unchanged: it may be empty or
      hold further spaces, and the outcome is exactly ParseToken's answer. */
  lemma TokenIsRemainder(token: string, parseToken: string -> TokenResult)
    ensures Decide("Bearer " + token, parseToken) ==
      match parseToken(token)
      case TokenErr(_) => Rejected(Abort(StatusUnauthorized, MsgInvalidHeader))
      case TokenOk(u) => Authenticated(u)
  {
    DecideByPrefix("Bearer " + token, parseToken);
    assert ("Bearer " + token)[..|Scheme| + 1] == Scheme + " ";
    assert BearerToken("Bearer " + token) == token;
  }

  /** A rejected token and a malformed header produce the same response: the
      caller cannot tell the two failures apart. */
  lemma TokenErrorLooksMalformed(token: string, other: string, parseToken: string -> TokenResult)
    requires parseToken(token).TokenErr?
    requires other != "" && !HasBearerPrefix(other)
    ensures Decide("Bearer " + token, parseToken) == Decide(other, parseToken)
  {
    TokenIsRemainder(token, parseToken);
    DecideByPrefix(other, parseToken);
  }

  /** ParseToken is consulted on the token text only: two token parsers that
      agree on it give the same outcome, and without the bearer prefix
      (empty or malformed header) the parser is not consulted at all. */
  lemma ParserSeesOnlyToken(header: string, p1: string -> TokenResult, p2: string -> TokenResult)
    requires HasBearerPrefix(header) ==> p1(BearerToken(header)) == p2(BearerToken(header))
    ensures Decide(header, p1) == Decide(header, p2)
  {
    DecideByPrefix(header, p1);
    DecideByPrefix(header, p2);
  }

  /** The user id `getUserId` finds in a context store, if any: the entry
      must exist and hold an `int`. */
  function UserIdOf(keys: map<string, Value>): (id: Option<int>)
  {
    if UserCtx in keys && keys[UserCtx].IntVal? then Some(keys[UserCtx].n) else None
  }

  /** The context store after `userIdentity` took decision `o`. */
  function KeysAfter(keys: map<string, Value>, o: Outcome): (after: map<string, Value>)
  {
    match o
    case Rejected(_) => keys
    case Authenticated(u) => keys[UserCtx := IntVal(u)]
  }

  /** Round trip: for a header "Bearer " + token whose token ParseToken
      accepts as `u`, the store `userIdentity` leaves makes `getUserId` find
      exactly `u`, and every other entry is as it was. */
  lemma IdentityRoundTrip(keys: map<string, Value>, token: string, parseToken: string -> TokenResult, u: int)
    requires parseToken(token) == TokenOk(u)
    ensures Decide("Bearer " + token, parseToken) == Authenticated(u)
    ensures UserIdOf(KeysAfter(keys, Decide("Bearer " + token, parseToken))) == Some(u)
    ensures forall k :: k in keys && k != UserCtx ==>
      k in KeysAfter(keys, Decide("Bearer " + token, parseToken))
      && KeysAfter(keys, Decide("Bearer " + token, parseToken))[k] == keys[k]
  {
    TokenIsRemainder(token, parseToken);
  }

  /** `newErrorResponse`: aborts the request with a `{"message": …}` body.
      The log line it writes is not modelled. */
  method NewErrorResponse(c: Context, status: int, message: string)
    modifies c`aborted
    ensures c.aborted == Some(Abort(status, message))
    ensures c.keys == old(c.keys)
  {
    c.AbortWithStatusJSON(status, message);
  }

  /** `userIdentity`: on a rejected header or token the request is aborted
      (401) and the store is untouched; on success the store gains
      `"userId"` mapped to the token's id and the request is not aborted. */
  method UserIdentity(c: Context, parseToken: string -> TokenResult)
    modifies c`keys, c`aborted
    ensures match Decide(c.GetHeader(AuthorizationHeader), parseToken)
      case Rejected(response) => c.aborted == Some(response) && c.keys == old(c.keys)
      case Authenticated(u) => c.keys == old(c.keys)[UserCtx := IntVal(u)] && c.aborted == old(c.aborted)
  {
    var header := c.GetHeader(AuthorizationHeader);
    if header == "" {
      NewErrorResponse(c, StatusUnauthorized, MsgNoHeader);
      return;
    }

    var headerParts := Strings.SplitN2(header);
    if |headerParts| != 2 || headerParts[0] != Scheme {
      NewErrorResponse(c, StatusUnauthorized, MsgInvalidHeader);
      return;
    }

    var parsed := parseToken(headerParts[1]);
    if parsed.TokenErr? {
      NewErrorResponse(c, StatusUnauthorized, MsgInvalidHeader);
      return;
    }

    c.Set(UserCtx, IntVal(parsed.userId));
  }

  /** `getUserId`: the stored `int` id with no error; when the entry is
      missing or holds another type, 0 and the error "User id not found",
      and the request is aborted with 500. The store is never changed. */
  method GetUserId(c: Context) returns (id: int, err: Option<string>)
    modifies c`aborted
    ensures c.keys == old(c.keys)
    ensures match UserIdOf(c.keys)
      case Some(u) => id == u && err == None && c.aborted == old(c.aborted)
      case None => (id == 0 && err == Some(MsgUserIdNotFound)
        && c.aborted == Some(Abort(StatusInternalServerError, MsgUserIdNotFound)))
  {
    var value, ok := c.Get(UserCtx);
    if !ok {
      NewErrorResponse(c, StatusInternalServerError, MsgUserIdNotFound);
      return 0, Some(MsgUserIdNotFound);
    }

    if !value.IntVal? {
      NewErrorResponse(c, StatusInternalServerError, MsgUserIdNotFound);
      return 0, Some(MsgUserIdNotFound);
    }

    return value.n, None;
  }

  /** A protected route: the middleware runs on a fresh, unaborted request,
      and the handler behind it runs only if the middleware did not abort
      the request (gin stops the chain at an abort). When the handler runs
      it asks for the user id and gets exactly the id ParseToken returned,
      with no error and no abort. When it does not run, the middleware's 401
      response stands, the store is untouched and `id`, `err` keep their
      zero values. */
  method IdentityThenUserId(c: Context, parseToken: string -> TokenResult)
    returns (handled: bool, id: int, err: Option<string>)
    requires c.aborted == None
    modifies c`keys, c`aborted
    ensures var o := Decide(c.GetHeader(AuthorizationHeader), parseToken);
      && c.keys == KeysAfter(old(c.keys), o)
      && (handled <==> o.Authenticated?)
      && (o.Authenticated? ==> id == o.userId && err == None && c.aborted == None)
      && (o.Rejected? ==> c.aborted == Some(o.response) && id == 0 && err == None)
  {
    UserIdentity(c, parseToken);
    handled := c.aborted == None;
    if handled {
      id, err := GetUserId(c);
    } else {
      id, err := 0, None;
    }
  }
}
