/**
 * cdn/src/auth/middleware.rs: `require_api_key`, the gate in front of the
 * CDN service's API routes. The x-api-key header must be readable text; the
 * key must belong to exactly one user; that user's id is then put into the
 * request's extensions and the downstream handler runs. Every other request
 * is turned away with a 401 and the handler never runs. The handler is a
 * parameter: a function from the request it receives to its response.
 */
module CdnMiddleware {
  import opened Common
  import opened Http
  import opened CdnDb

  const API_KEY_HEADER := "x-api-key"

  datatype Reply = Reply(status: nat, text: string)

  /**
   * The user the key belongs to, or the 401 the gate answers. A request
   * passes only when the header is readable text, the query succeeds and
   * the key matches a user; that user is then the one let through, and the
   * key is theirs.
   */
  function Authenticate(headers: Headers, users: seq<UserRow>, queryFails: bool): (r: Result<int, Reply>)
    ensures r.Ok? ==>
              && !queryFails && API_KEY_HEADER in headers && HeaderToStr(headers[API_KEY_HEADER]).Some?
              && exists u :: u in users && u.id == r.value && u.apiKey == headers[API_KEY_HEADER]
    ensures r.Err? ==> r.error.status == 401
  {
    match Header(headers, API_KEY_HEADER)
    case None => Err(Reply(401, "API key required"))
    case Some(value) =>
      match HeaderToStr(value)
      case None => Err(Reply(401, "API key required"))
      case Some(key) =>
        var found := if queryFails then None else QueryOpt(users, (u: UserRow) => u.apiKey == key);
        match found
        case None => Err(Reply(401, "Invalid API key"))
        case Some(user) => Ok(user.id)
  }

  /** A request as the middleware sees it: its headers, and the user id extension it may add. */
  class ApiRequest {
    const headers: Headers
    var userId: Option<int>

    constructor (headers: Headers)
      ensures this.headers == headers && userId == None
    {
      this.headers := headers;
      userId := None;
    }
  }

  /** `require_api_key`: the handler's response for a known key, else the 401. */
  method RequireApiKey<R>(request: ApiRequest, users: seq<UserRow>, queryFails: bool, next: int -> R)
    returns (r: Result<R, Reply>)
    modifies request
    ensures var gate := Authenticate(request.headers, users, queryFails);
            && (gate.Ok? ==> request.userId == Some(gate.value) && r == Ok(next(gate.value)))
            && (gate.Err? ==> request.userId == old(request.userId) && r == Err(gate.error))
  {
    var value := Header(request.headers, API_KEY_HEADER);
    if value.None? || HeaderToStr(value.value).None? {
      return Err(Reply(401, "API key required"));
    }
    var key := value.value;
    var found := if queryFails then None else QueryOpt(users, (u: UserRow) => u.apiKey == key);
    if found.None? {
      return Err(Reply(401, "Invalid API key"));
    }
    request.userId := Some(found.value.id);
    r := Ok(next(found.value.id));
  }

  // ---------------------------------------------------------------------
  // Properties of `Authenticate`

  /** Without a readable header the reply is "API key required"; with one, a failed query reads as an unknown key. */
  lemma RejectionReasons(headers: Headers, users: seq<UserRow>)
    ensures (API_KEY_HEADER !in headers || HeaderToStr(headers[API_KEY_HEADER]).None?) ==>
              Authenticate(headers, users, false) == Err(Reply(401, "API key required"))
    ensures (API_KEY_HEADER in headers && HeaderToStr(headers[API_KEY_HEADER]).Some?) ==>
              Authenticate(headers, users, true) == Err(Reply(401, "Invalid API key"))
  {
  }

  /** The one user holding a readable key is let through. */
  lemma KnownKeyPasses(headers: Headers, users: seq<UserRow>, i: nat)
    requires i < |users| && API_KEY_HEADER in headers && headers[API_KEY_HEADER] == users[i].apiKey
    requires HeaderToStr(users[i].apiKey).Some?
    requires forall j :: 0 <= j < |users| && j != i ==> users[j].apiKey != users[i].apiKey
    ensures Authenticate(headers, users, false) == Ok(users[i].id)
  {
    QueryOptFinds(users, (u: UserRow) => u.apiKey == users[i].apiKey, i);
  }
}
