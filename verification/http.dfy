/** The request-level parsing of http/http.go: integer query parameters
    and the Authorization-header middleware. The token store enters the
    middleware as a function from the token text to Go's `(userID, err)`. */
module Http {
  import opened Wrappers
  import opened Errors
  import opened GoStrings
  import opened Decimal

  /** `url.Values`: each parameter name with the values it was given. */
  type Query = map<string, seq<string>>

  /** `url.Values.Get`: the first value, or "" when there is none. */
  function QueryGet(q: Query, name: string): (v: string)
    ensures name in q && |q[name]| > 0 ==> v == q[name][0]
    ensures name !in q ==> v == ""
    ensures name in q && |q[name]| == 0 ==> v == ""
  {
    if name in q && |q[name]| > 0 then q[name][0] else ""
  }

  /** `ParseIntQuery`: an absent parameter reads as 0; a present one must be
      decimal text that `strconv.Atoi` accepts. */
  function ParseIntQuery(q: Query, name: string): (r: Result<int, NumError>)
    ensures name !in q ==> r == Success(0)
    ensures name in q ==> r == Atoi(QueryGet(q, name))
    ensures name in q && QueryGet(q, name) == "" ==> r.Failure? && r.error.kind == ErrSyntax
    ensures r.Success? ==> IsInt64(r.value)
  {
    if name !in q then Success(0) else Atoi(QueryGet(q, name))
  }

  /** A parameter holding the decimal text of a Go `int` reads back as that
      number. */
  lemma ParseIntQueryRoundTrip(q: Query, name: string, n: int)
    requires IsInt64(n)
    ensures ParseIntQuery(q[name := [Dec(n)]], name) == Success(n)
  {
    AtoiDec(n);
  }

  const ErrMalformedAuthHeader: Error := Sentinel("ErrMalformedAuthHeader", "malformed authorization header")
  /** `domain.ErrInvalidToken`, which the token store reports for an unknown
      or expired token. */
  const ErrInvalidToken: Error := Sentinel("ErrInvalidToken", "invalid user token")

  const StatusBadRequest: int := 400
  const StatusInternalServerError: int := 500

  const BearerPrefix: string := "Bearer "

  /** What the middleware does with the header before any lookup. */
  datatype Decision = PassThrough | Malformed | LookUp(token: string)

  /** The header checks of `authentication`: no header passes the request
      on, a header without the word "Bearer" anywhere is malformed, and any
      other header is looked up after dropping one leading "Bearer ". */
  function AuthDecision(auth: string): (d: Decision)
    ensures d.PassThrough? <==> auth == ""
    ensures d.Malformed? <==> auth != "" && !Contains(auth, "Bearer")
    ensures d.LookUp? && HasPrefix(auth, BearerPrefix) ==> BearerPrefix + d.token == auth
    ensures d.LookUp? && !HasPrefix(auth, BearerPrefix) ==> d.token == auth
  {
    if |auth| == 0 then PassThrough
    else if !Contains(auth, "Bearer") then Malformed
    else LookUp(TrimPrefix(auth, BearerPrefix))
  }

  /** Every header of the form "Bearer <token>" is looked up with exactly
      <token>, even when the token itself starts with "Bearer ". */
  lemma BearerHeaderLooksUpToken(token: string)
    ensures AuthDecision(BearerPrefix + token) == LookUp(token)
  {
    var auth := BearerPrefix + token;
    assert auth[..|BearerPrefix|] == BearerPrefix;
    PrefixContains(auth, "Bearer");
    assert auth[|BearerPrefix|..] == token;
  }

  /** The word is searched anywhere, not as a scheme: "xBearer" is looked up
      whole. */
  lemma EmbeddedBearerUsedWhole()
    ensures AuthDecision("xBearer") == LookUp("xBearer")
  {
    assert OccursAt("xBearer", "Bearer", 1);
  }

  /** What the middleware finally does with the request. */
  datatype Response =
    | Next(user: Option<int>)            // hand on, with the user id in the context if there is one
    | Reject(status: int, message: string)

  /** `authentication`: the header decision, then the token store's answer.
      An invalid token is the client's fault; any other failure is the
      server's and its text is reported. */
  function Authenticate(auth: string, getUserID: string -> (int, Error)): (r: Response)
    ensures auth == "" ==> r == Next(None)
    ensures auth != "" && !Contains(auth, "Bearer") ==> r == Reject(StatusBadRequest, Text(ErrMalformedAuthHeader))
    ensures r.Next? && r.user.Some? ==>
      AuthDecision(auth).LookUp? && getUserID(AuthDecision(auth).token) == (r.user.value, Nil)
    ensures r == Reject(StatusBadRequest, Text(ErrInvalidToken)) ==>
      auth != "" && Contains(auth, "Bearer") && Is(getUserID(AuthDecision(auth).token).1, ErrInvalidToken)
  {
    match AuthDecision(auth)
    case PassThrough => Next(None)
    case Malformed => Reject(StatusBadRequest, Text(ErrMalformedAuthHeader))
    case LookUp(token) =>
      var (userID, err) := getUserID(token);
      if err != Nil then
        if Is(err, ErrInvalidToken) then Reject(StatusBadRequest, Text(ErrInvalidToken))
        else Reject(StatusInternalServerError, Text(err))
      else Next(Some(userID))
  }

  /** For a looked-up header the store's answer alone decides: success hands
      on the user id, an invalid token (however wrapped) is a 400, and
      every other error a 500. */
  lemma LookupOutcome(auth: string, getUserID: string -> (int, Error))
    requires AuthDecision(auth).LookUp?
    ensures var (userID, err) := getUserID(AuthDecision(auth).token);
      && (err == Nil ==> Authenticate(auth, getUserID) == Next(Some(userID)))
      && (err != Nil && Is(err, ErrInvalidToken) ==> Authenticate(auth, getUserID).status == StatusBadRequest)
      && (err != Nil && !Is(err, ErrInvalidToken) ==>
            Authenticate(auth, getUserID) == Reject(StatusInternalServerError, Text(err)))
  {
  }

  /** A wrapped invalid-token error is still recognised. */
  lemma WrappedInvalidTokenIsClientError(auth: string, prefix: string)
    requires AuthDecision(auth).LookUp?
    ensures Authenticate(auth, (t: string) => (0, Wrapped(prefix, ErrInvalidToken)))
      == Reject(StatusBadRequest, Text(ErrInvalidToken))
  {
    var e := Wrapped(prefix, ErrInvalidToken);
    assert Is(e.inner, ErrInvalidToken);
    assert Is(e, ErrInvalidToken);
  }
}
