/**
 * src/api/index.js, src/api/utils.js and src/api/upload.js: the Express
 * API of the Slack-relay generation. Every route is behind the same token
 * check; the bulk routes fetch every URL, store it in Backblaze under its
 * SHA-1 and answer in one of three legacy shapes; /upload does one URL.
 *
 * AWS_CDN_URL and API_TOKEN are the parameters `cdnUrl` and `apiToken`;
 * `fetch` is node-fetch, `sha1` the hex SHA-1 digest, `store` the boolean
 * verdict of `uploadToBackblaze(dir, name, bytes)` and `now` the clock
 * (`Date.now()`) in milliseconds.
 */
module LegacyApi {
  import opened Common
  import opened Http
  import SW = StorageWriter
  import MW = HonoMiddleware

  /** The directory every file is stored in and published under. */
  const STORE_DIR: string := "s/v3"

  const UNAUTHORIZED: string := "Unauthorized - Invalid or missing API token"
  const CLEARANCE: string := "YIPPE YAY. YOU HAVE CLEARANCE TO PROCEED."
  const METHOD_NOT_ALLOWED: string := "Method not allowed, use POST"
  const INVALID_ARRAY: string := "Empty/invalid file array"
  const INTERNAL_ERROR: string := "Internal server error"
  const STORAGE_FAILED: string := "Storage upload failed"

  // ---------------------------------------------------------------------
  // utils.js

  /** The JSON body of a check: none, `{error}` or `{status}`. */
  datatype CheckBody = NoBody | ErrorBody(error: string) | StatusBody(status: string)

  datatype Check = Check(status: nat, body: CheckBody)

  /** `generateUrl`: the CDN base, the version directory and the file name, joined by '/'. */
  function GenerateUrl(cdnUrl: string, version: string, fileName: string): (url: string)
    ensures StartsWith(url, cdnUrl + "/" + version + "/")
    ensures '/' !in fileName ==> AfterLast(url, '/') == fileName
  {
    var url := cdnUrl + "/" + version + "/" + fileName;
    assert url[..|cdnUrl + "/" + version + "/"|] == cdnUrl + "/" + version + "/";
    if '/' in fileName then url
    else
      AfterLastOfPath(cdnUrl + "/" + version, fileName);
      url
  }

  /**
   * `validateToken`: the token is `split('Bearer ')[1]` of the Authorization
   * header, the text between its first "Bearer " and the next one (or the
   * end); 401 unless it is non-empty and equal to API_TOKEN.
   */
  function ValidateToken(authHeader: Option<string>, apiToken: Option<string>): (c: Check)
    ensures c.status == 200 <==> MW.TokenAccepted(authHeader, apiToken)
    ensures c.status == 200 ==> c.body == NoBody
    ensures c.status != 200 ==> c == Check(401, ErrorBody(UNAUTHORIZED))
  {
    if !MW.TokenAccepted(authHeader, apiToken) then Check(401, ErrorBody(UNAUTHORIZED)) else Check(200, NoBody)
  }

  /**
   * `validateRequest`: the token first, then the method: 204 for OPTIONS,
   * 405 for anything else but POST, 200 for POST.
   */
  function ValidateRequest(authHeader: Option<string>, apiToken: Option<string>, httpMethod: string): (c: Check)
    ensures !MW.TokenAccepted(authHeader, apiToken) ==> c == Check(401, ErrorBody(UNAUTHORIZED))
    ensures MW.TokenAccepted(authHeader, apiToken) ==>
              c.status == (if httpMethod == "OPTIONS" then 204 else if httpMethod != "POST" then 405 else 200)
    ensures c.status == 405 ==> c.body == ErrorBody(METHOD_NOT_ALLOWED)
  {
    var token := ValidateToken(authHeader, apiToken);
    if token.status != 200 then token
    else if httpMethod == "OPTIONS" then Check(204, StatusBody(CLEARANCE))
    else if httpMethod != "POST" then Check(405, ErrorBody(METHOD_NOT_ALLOWED))
    else Check(200, NoBody)
  }

  /** The token is checked before the method: a pre-flight request with a bad token is refused. */
  lemma BadTokenBeatsMethod(authHeader: Option<string>, apiToken: Option<string>, httpMethod: string)
    requires !MW.TokenAccepted(authHeader, apiToken)
    ensures ValidateRequest(authHeader, apiToken, httpMethod).status == 401
  {
  }

  /** A request carrying exactly "Bearer <API_TOKEN>" passes the check. */
  lemma ConfiguredTokenValidates(apiToken: string)
    requires apiToken != "" && !Contains(apiToken, MW.BEARER)
    ensures ValidateToken(Some(MW.BEARER + apiToken), Some(apiToken)).status == 200
    ensures ValidateRequest(Some(MW.BEARER + apiToken), Some(apiToken), "POST") == Check(200, NoBody)
  {
    MW.BearerTokenOfHeader(apiToken);
  }

  // ---------------------------------------------------------------------
  // upload.js

  /** What `uploadEndpoint` resolves to. */
  datatype Uploaded = Uploaded(url: string, sha: string, size: nat)

  /** The download request: the Authorization header verbatim when the caller sent a non-empty one. */
  function DownloadRequest(url: string, authorization: Option<string>): (req: Request)
    ensures req.url == url
    ensures req.headers.Keys <= {"Authorization"}
    ensures "Authorization" in req.headers <==> authorization.Some? && authorization.value != ""
    ensures "Authorization" in req.headers ==> req.headers["Authorization"] == authorization.value
  {
    Request(url, if authorization.Some? && authorization.value != "" then map["Authorization" := authorization.value]
                 else map[])
  }

  /**
   * "<sha1 hex>_<sanitised last segment>". The last segment is taken as is,
   * so a URL ending in '/' gives the sanitiser's "upload_<now>" fallback.
   */
  function StoredFileName(url: string, sha: string, now: nat): (name: string)
    ensures StartsWith(name, sha + "_") && |name| > |sha| + 1
    ensures forall i :: |sha| <= i < |name| ==> SW.IsSanitizedChar(name[i])
  {
    sha + "_" + SW.SanitizeFileName(AfterLast(url, '/'), now)
  }

  /** A URL ending in '/' is stored under the timestamped fallback name. */
  lemma TrailingSlashGetsFallbackName(url: string, sha: string, now: nat)
    requires |url| > 0 && url[|url| - 1] == '/'
    ensures StoredFileName(url, sha, now) == sha + "_upload_" + NatToString(now)
  {
    assert AfterLast(url, '/') == "";
    assert SW.ReplaceUnsafe("") == "";
  }

  /**
   * `uploadEndpoint`: download (a thrown fetch or a non-2xx answer fails),
   * hash, name, store (a false verdict fails), then the public URL, digest
   * and byte count.
   */
  function UploadEndpoint(url: string, authorization: Option<string>, cdnUrl: string, now: nat, fetch: Fetcher,
                          sha1: seq<byte> -> string, store: (string, string, seq<byte>) -> bool)
    : (r: Result<Uploaded, string>)
    ensures fetch(DownloadRequest(url, authorization)).Err? ==> r == Err(fetch(DownloadRequest(url, authorization)).error)
    ensures var response := fetch(DownloadRequest(url, authorization));
            response.Ok? && !IsSuccess(response.value) ==> r == Err("Download failed: " + response.value.statusText)
    ensures var response := fetch(DownloadRequest(url, authorization));
            response.Ok? && IsSuccess(response.value) ==>
              var body := response.value.body;
              var name := StoredFileName(url, sha1(body), now);
              if store(STORE_DIR, name, body) then r == Ok(Uploaded(GenerateUrl(cdnUrl, STORE_DIR, name), sha1(body), |body|))
              else r == Err(STORAGE_FAILED)
  {
    match fetch(DownloadRequest(url, authorization))
    case Err(e) => Err(e)
    case Ok(response) =>
      if !IsSuccess(response) then Err("Download failed: " + response.statusText)
      else
        var sha := sha1(response.body);
        var name := StoredFileName(url, sha, now);
        if !store(STORE_DIR, name, response.body) then Err(STORAGE_FAILED)
        else Ok(Uploaded(GenerateUrl(cdnUrl, STORE_DIR, name), sha, |response.body|))
  }

  /** A failed download never reaches storage: the answer is the same whatever the store would do. */
  lemma FailedDownloadNeverStores(url: string, authorization: Option<string>, cdnUrl: string, now: nat,
                                  fetch: Fetcher, sha1: seq<byte> -> string,
                                  store1: (string, string, seq<byte>) -> bool, store2: (string, string, seq<byte>) -> bool)
    requires var response := fetch(DownloadRequest(url, authorization));
             response.Err? || !IsSuccess(response.value)
    ensures UploadEndpoint(url, authorization, cdnUrl, now, fetch, sha1, store1)
            == UploadEndpoint(url, authorization, cdnUrl, now, fetch, sha1, store2)
    ensures UploadEndpoint(url, authorization, cdnUrl, now, fetch, sha1, store1).Err?
  {
  }

  /** The last segment of an uploaded file's URL is "<digest>_<sanitised name>" and carries no '/'. */
  lemma UploadedUrlEndsInName(url: string, authorization: Option<string>, cdnUrl: string, now: nat,
                              fetch: Fetcher, sha1: seq<byte> -> string, store: (string, string, seq<byte>) -> bool)
    requires UploadEndpoint(url, authorization, cdnUrl, now, fetch, sha1, store).Ok?
    requires forall b :: '/' !in sha1(b)
    ensures var u := UploadEndpoint(url, authorization, cdnUrl, now, fetch, sha1, store).value;
            && AfterLast(u.url, '/') == u.sha + "_" + SW.SanitizeFileName(AfterLast(url, '/'), now)
            && '/' !in SW.SanitizeFileName(AfterLast(url, '/'), now)
  {
    var response := fetch(DownloadRequest(url, authorization));
    assert response.Ok? && IsSuccess(response.value);
    var body := response.value.body;
    var sha := sha1(body);
    var n := SW.SanitizeFileName(AfterLast(url, '/'), now);
    SanitizedHasNoSlash(n);
    SlashFreeName(sha, n);
    var name := StoredFileName(url, sha, now);
    assert name == sha + "_" + n;
    assert UploadEndpoint(url, authorization, cdnUrl, now, fetch, sha1, store).value
        == Uploaded(GenerateUrl(cdnUrl, STORE_DIR, name), sha, |body|);
  }

  lemma SanitizedHasNoSlash(n: string)
    requires forall k :: 0 <= k < |n| ==> SW.IsSanitizedChar(n[k])
    ensures '/' !in n
  {
    assert forall k :: 0 <= k < |n| ==> n[k] != '/';
  }

  lemma SlashFreeName(sha: string, n: string)
    requires '/' !in sha && '/' !in n
    ensures '/' !in sha + "_" + n
  {
    var name := sha + "_" + n;
    assert forall k :: 0 <= k < |name| ==> name[k] != '/';
  }

  // ---------------------------------------------------------------------
  // index.js

  /** A file of the default (v3) answer. */
  datatype DeployedFile = DeployedFile(deployedUrl: string, file: string, sha: string, size: nat)

  /** The JSON a route answers with. */
  datatype ReplyBody =
    | ErrorJson(error: string)
    | StatusOk
    | Urls(urls: seq<string>)
    | Keyed(entries: map<string, string>)
    | Files(files: seq<DeployedFile>, cdnBase: string)
    | UploadedJson(file: Uploaded)

  datatype Reply = Reply(status: nat, body: ReplyBody)

  /** The result URLs in order. */
  function UrlsOf(results: seq<Uploaded>): seq<string>
  {
    Mapped(results, (r: Uploaded) => r.url)
  }

  function DeployedFileOf(i: nat, r: Uploaded): DeployedFile
  {
    DeployedFile(r.url, NatToString(i) + "_" + AfterLast(r.url, '/'), r.sha, r.size)
  }

  /** `formatResponse`: version 1 the URLs, 2 the keyed reduce, anything else the file list and CDN base. */
  function FormatResponse(results: seq<Uploaded>, version: nat, cdnUrl: string): (b: ReplyBody)
    ensures version == 1 ==> b == Urls(UrlsOf(results))
    ensures version == 2 ==> b == Keyed(KeyedFold(V2Keys(UrlsOf(results)), UrlsOf(results), |results|))
    ensures version != 1 && version != 2 ==>
              b.Files? && b.cdnBase == cdnUrl && |b.files| == |results|
              && forall i :: 0 <= i < |results| ==> b.files[i] == DeployedFileOf(i, results[i])
  {
    if version == 1 then Urls(UrlsOf(results))
    else if version == 2 then Keyed(KeyedFold(V2Keys(UrlsOf(results)), UrlsOf(results), |results|))
    else Files(seq(|results|, i requires 0 <= i < |results| => DeployedFileOf(i, results[i])), cdnUrl)
  }

  /**
   * With every result named "<SHA-1 hex>_<name>", the v2 answer has one
   * entry per result, under its own key and with its own URL.
   */
  lemma V2ListsEveryFile(results: seq<Uploaded>, names: seq<string>, cdnUrl: string)
    requires |names| == |results|
    requires forall i :: 0 <= i < |results| ==> IsSha1Hex(results[i].sha) && '/' !in names[i]
                                                && AfterLast(results[i].url, '/') == results[i].sha + "_" + names[i]
    ensures var entries := FormatResponse(results, 2, cdnUrl).entries;
            && |entries.Keys| == |results|
            && forall i :: 0 <= i < |results| ==>
                 V2Key(i, results[i].url) in entries && entries[V2Key(i, results[i].url)] == results[i].url
  {
    var keys := V2Keys(UrlsOf(results));
    forall i, j | 0 <= i < j < |results|
      ensures keys[i] != keys[j]
    {
      V2KeysDiffer(i, results[i], names[i], j, results[j], names[j]);
    }
    KeyedFoldLookup(keys, UrlsOf(results), |results|);
  }

  /** Two results named "<SHA-1 hex>_<name>" at different indexes have different v2 keys. */
  lemma V2KeysDiffer(i: nat, ri: Uploaded, ni: string, j: nat, rj: Uploaded, nj: string)
    requires i != j && IsSha1Hex(ri.sha) && IsSha1Hex(rj.sha)
    requires AfterLast(ri.url, '/') == ri.sha + "_" + ni && AfterLast(rj.url, '/') == rj.sha + "_" + nj
    ensures V2Key(i, ri.url) != V2Key(j, rj.url)
  {
    var di, dj := NatToString(i), NatToString(j);
    if di == dj {
      NatToStringInjective(i, j);
    }
    DigestKeysDiffer(di, ri.sha, ni, dj, rj.sha, nj);
  }

  /** The JSON body of a bulk route: not an array, or an array of URLs. */
  datatype BulkBody = NotArray | UrlArray(urls: seq<string>)

  function UploadAll(urls: seq<string>, authorization: Option<string>, cdnUrl: string, now: nat, fetch: Fetcher,
                     sha1: seq<byte> -> string, store: (string, string, seq<byte>) -> bool)
    : (results: seq<Result<Uploaded, string>>)
    ensures |results| == |urls|
    ensures forall i :: 0 <= i < |urls| ==> results[i] == UploadEndpoint(urls[i], authorization, cdnUrl, now, fetch, sha1, store)
  {
    seq(|urls|, i requires 0 <= i < |urls| => UploadEndpoint(urls[i], authorization, cdnUrl, now, fetch, sha1, store))
  }

  function Values(results: seq<Result<Uploaded, string>>): (vs: seq<Uploaded>)
    requires forall i :: 0 <= i < |results| ==> results[i].Ok?
    ensures |vs| == |results| && forall i :: 0 <= i < |results| ==> vs[i] == results[i].value
  {
    seq(|results|, i requires 0 <= i < |results| => results[i].value)
  }

  /**
   * `handleBulkUpload`: 422 for a non-array or empty body; otherwise every URL
   * is uploaded and one failure makes the whole answer 500 with no results.
   */
  function HandleBulkUpload(body: BulkBody, version: nat, authorization: Option<string>, cdnUrl: string, now: nat,
                            fetch: Fetcher, sha1: seq<byte> -> string, store: (string, string, seq<byte>) -> bool)
    : (reply: Reply)
    ensures body.NotArray? || |body.urls| == 0 <==> reply == Reply(422, ErrorJson(INVALID_ARRAY))
    ensures reply.status == 500 <==>
              && body.UrlArray?
              && exists i :: 0 <= i < |body.urls| && UploadEndpoint(body.urls[i], authorization, cdnUrl, now, fetch, sha1, store).Err?
    ensures reply.status == 500 ==> reply.body == ErrorJson(INTERNAL_ERROR)
    ensures reply.status == 200 ==>
              var results := UploadAll(body.urls, authorization, cdnUrl, now, fetch, sha1, store);
              (forall i :: 0 <= i < |results| ==> results[i].Ok?)
              && reply.body == FormatResponse(Values(results), version, cdnUrl)
    ensures reply.status in {200, 422, 500}
  {
    if body.NotArray? || |body.urls| == 0 then Reply(422, ErrorJson(INVALID_ARRAY))
    else
      var results := UploadAll(body.urls, authorization, cdnUrl, now, fetch, sha1, store);
      if exists i :: 0 <= i < |results| && results[i].Err? then Reply(500, ErrorJson(INTERNAL_ERROR))
      else Reply(200, FormatResponse(Values(results), version, cdnUrl))
  }

  /** A v1 answer lists one URL per input URL, in the input's order. */
  lemma V1KeepsOrder(urls: seq<string>, authorization: Option<string>, cdnUrl: string, now: nat, fetch: Fetcher,
                     sha1: seq<byte> -> string, store: (string, string, seq<byte>) -> bool)
    requires HandleBulkUpload(UrlArray(urls), 1, authorization, cdnUrl, now, fetch, sha1, store).status == 200
    ensures var b := HandleBulkUpload(UrlArray(urls), 1, authorization, cdnUrl, now, fetch, sha1, store).body;
            b.Urls? && |b.urls| == |urls|
            && forall i :: 0 <= i < |urls| ==>
                 b.urls[i] == UploadEndpoint(urls[i], authorization, cdnUrl, now, fetch, sha1, store).value.url
  {
  }

  /** The routes of the router. */
  datatype Route =
    | Health
    | BulkNew(version: nat, bulk: BulkBody)
    | UploadOne(body: Option<string>, text: Result<string, string>)

  /** The bulk routes and the version each answers in: /new is /v3/new. */
  function BulkVersion(path: string): (v: Option<nat>)
    ensures v.Some? <==> path in {"/v1/new", "/v2/new", "/v3/new", "/new"}
    ensures path == "/new" || path == "/v3/new" ==> v == Some(3)
  {
    if path == "/v1/new" then Some(1)
    else if path == "/v2/new" then Some(2)
    else if path == "/v3/new" || path == "/new" then Some(3)
    else None
  }

  /**
   * `handleUpload` behind its route: the URL is the body when it is a
   * non-empty string, else the request text (None stands for any falsy
   * body); any failure becomes 500 "Storage upload failed".
   */
  function UploadRoute(body: Option<string>, text: Result<string, string>, authorization: Option<string>,
                       cdnUrl: string, now: nat, fetch: Fetcher, sha1: seq<byte> -> string,
                       store: (string, string, seq<byte>) -> bool)
    : (reply: Reply)
    ensures reply.status == 200 || reply == Reply(500, ErrorJson(STORAGE_FAILED))
    ensures body.Some? && body.value != "" ==>
              var u := UploadEndpoint(body.value, authorization, cdnUrl, now, fetch, sha1, store);
              reply == if u.Ok? then Reply(200, UploadedJson(u.value)) else Reply(500, ErrorJson(STORAGE_FAILED))
    ensures (body.None? || body.value == "") && text.Err? ==> reply.status == 500
  {
    var url: Result<string, string> := if body.Some? && body.value != "" then Ok(body.value) else text;
    if url.Err? then Reply(500, ErrorJson(STORAGE_FAILED))
    else match UploadEndpoint(url.value, authorization, cdnUrl, now, fetch, sha1, store)
      case Ok(u) => Reply(200, UploadedJson(u))
      case Err(_) => Reply(500, ErrorJson(STORAGE_FAILED))
  }

  /** The router: the token gate, then the route's handler. */
  function Serve(authHeader: Option<string>, apiToken: Option<string>, route: Route, cdnUrl: string, now: nat,
                 fetch: Fetcher, sha1: seq<byte> -> string, store: (string, string, seq<byte>) -> bool)
    : (reply: Reply)
    ensures !MW.TokenAccepted(authHeader, apiToken) ==> reply == Reply(401, ErrorJson(UNAUTHORIZED))
    ensures MW.TokenAccepted(authHeader, apiToken) ==> reply.status != 401
    ensures MW.TokenAccepted(authHeader, apiToken) && route.Health? ==> reply == Reply(200, StatusOk)
  {
    var check := ValidateToken(authHeader, apiToken);
    if check.status != 200 then Reply(check.status, ErrorJson(UNAUTHORIZED))
    else match route
      case Health => Reply(200, StatusOk)
      case BulkNew(version, bulk) => HandleBulkUpload(bulk, version, authHeader, cdnUrl, now, fetch, sha1, store)
      case UploadOne(body, text) => UploadRoute(body, text, authHeader, cdnUrl, now, fetch, sha1, store)
  }

  /** A refused token never reaches a download: the answer does not depend on the fetcher or the store. */
  lemma RefusedTokenFetchesNothing(authHeader: Option<string>, apiToken: Option<string>, route: Route, cdnUrl: string,
                                   now: nat, fetch1: Fetcher, fetch2: Fetcher, sha1: seq<byte> -> string,
                                   store1: (string, string, seq<byte>) -> bool, store2: (string, string, seq<byte>) -> bool)
    requires !MW.TokenAccepted(authHeader, apiToken)
    ensures Serve(authHeader, apiToken, route, cdnUrl, now, fetch1, sha1, store1)
            == Serve(authHeader, apiToken, route, cdnUrl, now, fetch2, sha1, store2)
  {
  }

  /**
   * The Authorization header that passed the gate is the one every download
   * is sent with: the API's own "Bearer <API_TOKEN>" goes to each URL's host.
   */
  lemma GateCredentialIsForwarded(authHeader: Option<string>, apiToken: Option<string>, url: string)
    requires MW.TokenAccepted(authHeader, apiToken)
    ensures authHeader.Some?
    ensures DownloadRequest(url, authHeader).headers == map["Authorization" := authHeader.value]
  {
    var h := authHeader.value;
    assert h != "" by {
      ContainsIff(h, MW.BEARER);
    }
  }
}
