/**
 * src/middleware.ts: the bearer-token gate and the catch-all error handler
 * of the Hono API. The configured API_TOKEN is the parameter `apiToken`
 * (None when the variable is unset); the downstream handler is `next`, whose
 * result is either what it answers or the message of what it throws.
 */
module HonoMiddleware {
  import opened Common

  const BEARER: string := "Bearer "
  const UNAUTHORIZED: string := "Unauthorized - Invalid or missing API token"
  const INTERNAL_ERROR: string := "Internal server error"

  /** What a request ends with: the downstream answer, or a JSON error `{error}` with a status. */
  datatype Outcome<T> = Handled(value: T) | ErrorJson(status: nat, error: string)

  /**
   * `authHeader?.split('Bearer ')[1]`: the text between the first "Bearer "
   * and the next one (or the end); None without a header or without a
   * "Bearer " in it.
   */
  function BearerToken(authHeader: Option<string>): (token: Option<string>)
    ensures authHeader.None? ==> token.None?
    ensures authHeader.Some? && !Contains(authHeader.value, BEARER) ==> token.None?
    ensures token.Some? ==> !Contains(token.value, BEARER)
  {
    match authHeader
    case None => None
    case Some(h) =>
      var parts := Split(h, BEARER);
      if |parts| < 2 then None
      else
        SplitPieceFree(h, BEARER, 1);
        Some(parts[1])
  }

  /** Every piece of a split is free of the separator. */
  lemma SplitPieceFree(s: string, sep: string, k: nat)
    requires |sep| > 0 && k < |Split(s, sep)|
    ensures !Contains(Split(s, sep)[k], sep)
    decreases |s|
  {
    if k > 0 {
      var i := IndexOf(s, sep).value;
      SplitPieceFree(s[i + |sep|..], sep, k - 1);
    }
  }

  /** `!token || token !== process.env.API_TOKEN` fails: a non-empty token equal to the configured one. */
  predicate TokenAccepted(authHeader: Option<string>, apiToken: Option<string>)
  {
    var token := BearerToken(authHeader);
    token.Some? && token.value != "" && apiToken == Some(token.value)
  }

  /**
   * `authMiddleware`: 401 without calling `next` unless the token matches;
   * otherwise whatever `next` answers or throws.
   */
  function Authenticate<T>(authHeader: Option<string>, apiToken: Option<string>, next: () -> Result<T, string>)
    : (r: Result<Outcome<T>, string>)
    ensures !TokenAccepted(authHeader, apiToken) ==> r == Ok(ErrorJson(401, UNAUTHORIZED))
    ensures TokenAccepted(authHeader, apiToken) ==> (r.Ok? <==> next().Ok?)
    ensures TokenAccepted(authHeader, apiToken) && r.Ok? ==> r.value == Handled(next().value)
    ensures TokenAccepted(authHeader, apiToken) && r.Err? ==> r.error == next().error
  {
    if !TokenAccepted(authHeader, apiToken) then Ok(ErrorJson(401, UNAUTHORIZED))
    else match next()
      case Ok(v) => Ok(Handled(v))
      case Err(e) => Err(e)
  }

  /** `errorHandler`: anything thrown downstream becomes 500 `{error: 'Internal server error'}`. */
  function HandleErrors<T>(downstream: Result<Outcome<T>, string>): (r: Outcome<T>)
    ensures downstream.Err? ==> r == ErrorJson(500, INTERNAL_ERROR)
    ensures downstream.Ok? ==> r == downstream.value
  {
    match downstream
    case Ok(o) => o
    case Err(_) => ErrorJson(500, INTERNAL_ERROR)
  }

  /** "Bearer <t>" yields the token t when t holds no further "Bearer ". */
  lemma BearerTokenOfHeader(t: string)
    requires !Contains(t, BEARER)
    ensures BearerToken(Some(BEARER + t)) == Some(t)
  {
    var h := BEARER + t;
    assert h[0..|BEARER|] == BEARER;
    assert IndexOf(h, BEARER) == Some(0);
    assert h[|BEARER|..] == t;
    assert Split(t, BEARER) == [t];
  }

  /** The exact configured token is accepted and the downstream answer is passed through. */
  lemma ExactTokenPasses<T>(apiToken: string, next: () -> Result<T, string>)
    requires apiToken != "" && !Contains(apiToken, BEARER)
    ensures TokenAccepted(Some(BEARER + apiToken), Some(apiToken))
    ensures next().Ok? ==> Authenticate(Some(BEARER + apiToken), Some(apiToken), next) == Ok(Handled(next().value))
  {
    BearerTokenOfHeader(apiToken);
  }

  /** A rejected request never depends on the downstream handler: `next` is not called. */
  lemma RejectionIgnoresNext<T>(authHeader: Option<string>, apiToken: Option<string>,
                                next1: () -> Result<T, string>, next2: () -> Result<T, string>)
    requires !TokenAccepted(authHeader, apiToken)
    ensures Authenticate(authHeader, apiToken, next1) == Authenticate(authHeader, apiToken, next2)
  {
  }

  /**
   * Behind both middlewares, a request ends in 500 exactly when it was
   * authenticated and the handler threw (a handler never answers 500 itself
   * here: `next` yields values of its own type).
   */
  lemma InternalErrorOnlyAfterAuthentication<T>(authHeader: Option<string>, apiToken: Option<string>,
                                                 next: () -> Result<T, string>)
    ensures HandleErrors(Authenticate(authHeader, apiToken, next)) == ErrorJson(500, INTERNAL_ERROR)
            <==> TokenAccepted(authHeader, apiToken) && next().Err?
  {
  }

  /** With API_TOKEN unset every request is refused, whatever its header. */
  lemma UnsetTokenRefusesAll<T>(authHeader: Option<string>, next: () -> Result<T, string>)
    ensures HandleErrors(Authenticate(authHeader, None, next)) == ErrorJson(401, UNAUTHORIZED)
  {
  }
}
