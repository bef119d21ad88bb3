/**
 * src/routes/upload.ts: the HTTP routes of the storage service. The bulk
 * routes (/v1/new, /v2/new, /v3/new, /new) and /upload fetch files from
 * URLs and store them under a content-addressed name; /file and /files
 * store files sent as multipart form data. The network is the `fetch`
 * parameter, SHA-1 rendered as hex is `sha1`, the clock is `now` and the
 * secure random generator's 8 bytes per file are `random`/`randoms`.
 * JSON bodies are modelled by the datatype `Body`, one constructor per shape.
 */
module UploadRoutes {
  import opened Common
  import opened Http
  import ObjectStore
  import SW = StorageWriter
  import HM = HonoMiddleware

  /** Every file these routes store lives under this directory of the bucket. */
  const USER_DIR: string := "s/v3"

  const MAX_BULK_URLS: nat := 100

  const MAX_FORM_FILES: nat := 10

  const OCTET_STREAM: string := "application/octet-stream"

  // ---------------------------------------------------------------------
  // Request validation

  /** `urlArraySchema`: an array of 1 to 100 strings. */
  predicate BulkValid(urls: seq<string>)
  {
    0 < |urls| <= MAX_BULK_URLS
  }

  /** `singleUrlSchema`: a string starting with "http://" or "https://". */
  predicate IsHttpUrl(url: string)
  {
    StartsWith(url, "http://") || StartsWith(url, "https://")
  }

  /** What `JSON.parse` makes of the /upload body, as far as the handler looks at it. */
  datatype Parsed =
    | NotJson
    | JsonNull
    | JsonString(s: string)
      /** An object; `url` is its "url" member when that member is a string. */
    | JsonObject(url: Option<string>)
      /** A number, boolean or array: `parsed.url` is undefined. */
    | JsonOther

  /**
   * The value handed to the URL schema: the JSON string, the object's `url`,
   * or the raw body when it is not JSON or is `null` (reading `null.url`
   * throws inside the same try). None stands for a value that is not a string.
   */
  function RawUrl(body: string, parsed: Parsed): (raw: Option<string>)
    ensures parsed.NotJson? || parsed.JsonNull? ==> raw == Some(body)
    ensures parsed.JsonOther? ==> raw.None?
  {
    match parsed
    case NotJson => Some(body)
    case JsonNull => Some(body)
    case JsonString(s) => Some(s)
    case JsonObject(url) => url
    case JsonOther => None
  }

  /** A download credential is only sent when the header is present and not empty. */
  predicate HasCredential(downloadAuth: Option<string>)
  {
    downloadAuth.Some? && downloadAuth.value != ""
  }

  // ---------------------------------------------------------------------
  // Responses

  datatype FetchedFile = FetchedFile(url: string, sha: string, size: nat, contentType: string)

  datatype DeployedFile = DeployedFile(deployedUrl: string, file: string, sha: string, size: nat)

  datatype DirectFile = DirectFile(url: string, size: nat, contentType: string)

  /** The `error` object of a failure body. */
  datatype ErrorDetail = ErrorDetail(message: string, code: string, url: Option<string>, details: Option<string>)

  datatype Body =
    | Urls(urls: seq<string>)
    | KeyedUrls(entries: map<string, string>)
    | Deployed(files: seq<DeployedFile>, cdnBase: string)
    | Fetched(file: FetchedFile)
    | Direct(direct: DirectFile)
    | DirectFiles(directs: seq<DirectFile>, cdnBase: string)
      /** `{ error: { ... }, success: false }`. */
    | Failure(detail: ErrorDetail)
      /** `{ error: <schema summary>, code: 'VALIDATION_ERROR' }` of the bulk routes. */
    | BulkValidationError
      /** `{ error: { message: <schema summary>, code: 'VALIDATION_ERROR' }, success: false }` of /upload. */
    | UrlValidationError
    | PlainError(error: string)
      /** The plain-text answer of the framework to an uncaught exception. */
    | InternalServerErrorText

  datatype Reply = Reply(status: nat, body: Body)

  const INTERNAL_ERROR: ErrorDetail := ErrorDetail("Internal server error", "INTERNAL_ERROR", None, None)

  const AUTH_REQUIRED: ErrorDetail :=
    ErrorDetail("X-Download-Authorization required for Slack files", "AUTH_REQUIRED", None,
                Some("Slack files require authentication"))

  // ---------------------------------------------------------------------
  // Fetching a URL into the bucket

  /** What `uploadFromUrl` can throw: its own error object, or an `Error` instance. */
  datatype Thrown = Rejected(detail: ErrorDetail) | ErrorInstance

  /** The error object thrown for a non-2xx download: 401 and 403 are told apart. */
  function DownloadFailure(url: string, status: int, statusText: string): (d: ErrorDetail)
    ensures d.code == "AUTH_FAILED" <==> status == 401 || status == 403
    ensures d.code != "AUTH_FAILED" ==> d.code == "DOWNLOAD_FAILED" && d.message == "Download failed: " + statusText
    ensures d.url == Some(url) && d.details.None?
  {
    if status == 401 || status == 403 then
      ErrorDetail("Authentication failed for protected resource", "AUTH_FAILED", Some(url), None)
    else ErrorDetail("Download failed: " + statusText, "DOWNLOAD_FAILED", Some(url), None)
  }

  /**
   * `url.split('/').pop() || 'file'`: the last piece is empty exactly when
   * the URL is empty or ends in '/'.
   */
  function NameFromUrl(url: string): (name: string)
    ensures name != "" && '/' !in name
  {
    if |url| == 0 || url[|url| - 1] == '/' then "file" else AfterLast(url, '/')
  }

  /**
   * "<sha1 hex>_<sanitised last path segment>". The name is never empty, so
   * the sanitiser's timestamp fallback (its second argument) is never used.
   */
  function StoredName(url: string, sha: string): (name: string)
    ensures name == sha + "_" + SanitizedName(url)
    ensures '/' !in sha ==> '/' !in name
  {
    sha + "_" + SanitizedName(url)
  }

  /** The sanitised last segment of `url`: never empty and free of '/'. */
  function SanitizedName(url: string): (name: string)
    ensures name != "" && '/' !in name
    ensures forall i :: 0 <= i < |name| ==> SW.IsSanitizedChar(name[i])
  {
    SW.SanitizeFileName(NameFromUrl(url), 0)
  }

  /** `response.headers.get('content-type') || 'application/octet-stream'`. */
  function ContentTypeOf(headers: Headers): (ct: string)
    ensures ct != ""
    ensures ct == OCTET_STREAM || ("content-type" in headers && ct == headers["content-type"])
  {
    if "content-type" in headers && headers["content-type"] != "" then headers["content-type"] else OCTET_STREAM
  }

  /** The result `uploadFromUrl` returns for a successful download of `url`. */
  function FetchedFileOf(cdnBase: string, url: string, response: Response, sha1: seq<byte> -> string): (f: FetchedFile)
    ensures f.sha == sha1(response.body) && f.size == |response.body|
    ensures f.url == SW.FileUrl(cdnBase, USER_DIR, StoredName(url, f.sha))
  {
    var sha := sha1(response.body);
    FetchedFile(SW.FileUrl(cdnBase, USER_DIR, StoredName(url, sha)), sha, |response.body|, ContentTypeOf(response.headers))
  }

  /** The request `uploadFromUrl` sends. */
  function DownloadOf(url: string, downloadAuth: Option<string>, fetch: Fetcher): Result<Response, string>
  {
    fetch(SW.DownloadRequest(url, downloadAuth))
  }

  /**
   * How the outcome of `uploadFromUrl` relates to the download: a transport
   * failure rejects with the fetch error, a non-2xx status with the error
   * object, and a successful download either yields its file or rejects with
   * the storage error.
   */
  predicate UrlOutcome(r: Result<FetchedFile, Thrown>, cdnBase: string, url: string, downloadAuth: Option<string>,
                       fetch: Fetcher, sha1: seq<byte> -> string)
  {
    match DownloadOf(url, downloadAuth, fetch)
    case Err(_) => r == Err(ErrorInstance)
    case Ok(response) =>
      if !IsSuccess(response) then r == Err(Rejected(DownloadFailure(url, response.status, response.statusText)))
      else r == Err(ErrorInstance) || r == Ok(FetchedFileOf(cdnBase, url, response, sha1))
  }

  /** An upload resolves only after a 2xx download, and a rejection it raises names its own URL. */
  lemma UrlOutcomeMeans(r: Result<FetchedFile, Thrown>, cdnBase: string, url: string, downloadAuth: Option<string>,
                        fetch: Fetcher, sha1: seq<byte> -> string)
    requires UrlOutcome(r, cdnBase, url, downloadAuth, fetch, sha1)
    ensures r.Ok? ==> DownloadOf(url, downloadAuth, fetch).Ok? && IsSuccess(DownloadOf(url, downloadAuth, fetch).value)
    ensures r.Err? && r.error.Rejected? ==> r.error.detail.url == Some(url)
  {
  }

  /** The bucket key of a fetched file. */
  function FetchedKey(url: string, f: FetchedFile): string
  {
    SW.ObjectKey(USER_DIR, StoredName(url, f.sha))
  }

  /**
   * `uploadFromUrl`: downloads `url` (with a Bearer credential when one is
   * given) and writes the body under "s/v3/<sha1>_<name>".
   */
  method UploadFromUrl(bucket: ObjectStore.Bucket, cdnBase: string, url: string, downloadAuth: Option<string>,
                       fetch: Fetcher, sha1: seq<byte> -> string)
    returns (r: Result<FetchedFile, Thrown>)
    requires bucket.Valid()
    modifies bucket
    ensures bucket.Valid()
    ensures UrlOutcome(r, cdnBase, url, downloadAuth, fetch, sha1)
    ensures r.Ok? ==> bucket.objects == old(bucket.objects)[FetchedKey(url, r.value) := DownloadOf(url, downloadAuth, fetch).value.body]
    ensures r.Err? ==> bucket.objects == old(bucket.objects)
    ensures !(DownloadOf(url, downloadAuth, fetch).Ok? && IsSuccess(DownloadOf(url, downloadAuth, fetch).value))
            ==> unchanged(bucket)
  {
    var reply := fetch(SW.DownloadRequest(url, downloadAuth));
    if reply.Err? {
      return Err(ErrorInstance);
    }
    var response := reply.value;
    if !IsSuccess(response) {
      return Err(Rejected(DownloadFailure(url, response.status, response.statusText)));
    }
    var sha := sha1(response.body);
    var fileName := StoredName(url, sha);
    var contentType := ContentTypeOf(response.headers);
    var stored := SW.UploadToStorage(bucket, USER_DIR, fileName, response.body, Some(contentType), |response.body|);
    if stored.Failed? {
      return Err(ErrorInstance);
    }
    r := Ok(FetchedFile(SW.FileUrl(cdnBase, USER_DIR, fileName), sha, |response.body|, contentType));
  }

  /** The file name a fetched file is published under is the last segment of its URL. */
  lemma FetchedUrlEndsInStoredName(cdnBase: string, url: string, response: Response, sha1: seq<byte> -> string)
    requires '/' !in sha1(response.body)
    ensures var f := FetchedFileOf(cdnBase, url, response, sha1);
            AfterLast(f.url, '/') == StoredName(url, f.sha)
  {
    var f := FetchedFileOf(cdnBase, url, response, sha1);
    AfterLastOfPath(cdnBase + "/" + USER_DIR, StoredName(url, f.sha));
  }

  // ---------------------------------------------------------------------
  // Bulk routes

  datatype ApiVersion = V1 | V2 | V3

  /** The result URLs in order. */
  function UrlsOf(results: seq<FetchedFile>): seq<string>
  {
    Mapped(results, (f: FetchedFile) => f.url)
  }

  function V3File(i: nat, f: FetchedFile): DeployedFile
  {
    DeployedFile(f.url, NatToString(i) + "_" + AfterLast(f.url, '/'), f.sha, f.size)
  }

  /** `formatResponse`: the URLs (v1), a map keyed by index and name (v2), or the file list with the CDN base. */
  function FormatResponse(results: seq<FetchedFile>, version: ApiVersion, cdnBase: string): (b: Body)
    ensures version == V1 ==> b == Urls(UrlsOf(results))
    ensures version == V2 ==> b == KeyedUrls(KeyedFold(V2Keys(UrlsOf(results)), UrlsOf(results), |results|))
    ensures version == V3 ==> b.Deployed? && b.cdnBase == cdnBase && |b.files| == |results|
                              && forall i :: 0 <= i < |results| ==> b.files[i] == V3File(i, results[i])
  {
    match version
    case V1 => Urls(UrlsOf(results))
    case V2 => KeyedUrls(KeyedFold(V2Keys(UrlsOf(results)), UrlsOf(results), |results|))
    case V3 => Deployed(seq(|results|, i requires 0 <= i < |results| => V3File(i, results[i])), cdnBase)
  }

  /**
   * The v2 keys of two different results never collide: the index digits,
   * then 40 hex digits, then the first '_' fix where the index ends.
   */
  lemma V2KeysDistinct(i: nat, j: nat, fi: FetchedFile, fj: FetchedFile, ni: string, nj: string)
    requires IsSha1Hex(fi.sha) && IsSha1Hex(fj.sha)
    requires AfterLast(fi.url, '/') == fi.sha + "_" + ni && AfterLast(fj.url, '/') == fj.sha + "_" + nj
    requires i != j
    ensures V2Key(i, fi.url) != V2Key(j, fj.url)
  {
    if NatToString(i) == NatToString(j) {
      NatToStringInjective(i, j);
    }
    DigestKeysDiffer(NatToString(i), fi.sha, ni, NatToString(j), fj.sha, nj);
  }

  /** The last segment of a fetched file's URL: its digest, '_', then the sanitised name. */
  lemma FetchedFileSegment(cdnBase: string, url: string, response: Response, sha1: seq<byte> -> string)
    requires IsSha1Hex(sha1(response.body))
    ensures var f := FetchedFileOf(cdnBase, url, response, sha1);
            AfterLast(f.url, '/') == f.sha + "_" + SanitizedName(url)
  {
    var sha := sha1(response.body);
    assert forall k :: 0 <= k < |sha| ==> sha[k] != '/';
    FetchedUrlEndsInStoredName(cdnBase, url, response, sha1);
  }

  /**
   * Every file a bulk request fetched appears in the v2 answer, under its own
   * key and with its own URL, and nothing else does, provided SHA-1 is
   * rendered as 40 hex digits.
   */
  lemma V2ListsEveryFile(cdnBase: string, urls: seq<string>, responses: seq<Response>, sha1: seq<byte> -> string,
                         results: seq<FetchedFile>)
    requires |responses| == |urls| == |results|
    requires forall i :: 0 <= i < |results| ==> results[i] == FetchedFileOf(cdnBase, urls[i], responses[i], sha1)
    requires forall i :: 0 <= i < |responses| ==> IsSha1Hex(sha1(responses[i].body))
    ensures var entries := FormatResponse(results, V2, cdnBase).entries;
            && |entries.Keys| == |results|
            && forall i :: 0 <= i < |results| ==>
                 V2Key(i, results[i].url) in entries && entries[V2Key(i, results[i].url)] == results[i].url
  {
    var keys := V2Keys(UrlsOf(results));
    forall i, j | 0 <= i < j < |results|
      ensures keys[i] != keys[j]
    {
      FetchedKeysDiffer(cdnBase, urls[i], responses[i], urls[j], responses[j], sha1, i, j);
    }
    KeyedFoldLookup(keys, UrlsOf(results), |results|);
  }

  /** The v2 keys of two fetched files at different positions differ. */
  lemma FetchedKeysDiffer(cdnBase: string, ui: string, ri: Response, uj: string, rj: Response,
                          sha1: seq<byte> -> string, i: nat, j: nat)
    requires i != j && IsSha1Hex(sha1(ri.body)) && IsSha1Hex(sha1(rj.body))
    ensures V2Key(i, FetchedFileOf(cdnBase, ui, ri, sha1).url) != V2Key(j, FetchedFileOf(cdnBase, uj, rj, sha1).url)
  {
    FetchedFileSegment(cdnBase, ui, ri, sha1);
    FetchedFileSegment(cdnBase, uj, rj, sha1);
    V2KeysDistinct(i, j, FetchedFileOf(cdnBase, ui, ri, sha1), FetchedFileOf(cdnBase, uj, rj, sha1),
                   SanitizedName(ui), SanitizedName(uj));
  }

  /**
   * The 500 a rejected download ends in. An `Error` instance thrown by the
   * handler is caught by the framework's own error handler, which answers
   * "Internal Server Error" as text; the plain object `uploadFromUrl` throws
   * for a failed download is no `Error`, passes through to the error
   * middleware, and is answered there as JSON.
   */
  function RejectionReply(t: Thrown): (reply: Reply)
    ensures reply.status == 500
    ensures t.Rejected? <==> reply.body.PlainError?
    ensures t.Rejected? ==> HM.HandleErrors<Reply>(Err(t.detail.message)) == HM.ErrorJson(500, reply.body.error)
    ensures t.ErrorInstance? ==> reply.body == InternalServerErrorText
  {
    match t
    case Rejected(_) => Reply(500, PlainError(HM.INTERNAL_ERROR))
    case ErrorInstance => Reply(500, InternalServerErrorText)
  }

  /** The bulk body: not JSON at all, JSON that is not an array of strings, or the URLs. */
  datatype BulkBody = InvalidJson | NotStringArray | UrlArray(urls: seq<string>)

  /** The index of the first rejected upload, if any. */
  function FirstRejected(results: seq<Result<FetchedFile, Thrown>>): (r: Option<nat>)
    ensures r.None? <==> forall i :: 0 <= i < |results| ==> results[i].Ok?
    ensures r.Some? ==> r.value < |results| && results[r.value].Err?
  {
    FirstIndex(results, (x: Result<FetchedFile, Thrown>) => x.Err?)
  }

  function Values(results: seq<Result<FetchedFile, Thrown>>): (files: seq<FetchedFile>)
    requires forall i :: 0 <= i < |results| ==> results[i].Ok?
    ensures |files| == |results| && forall i :: 0 <= i < |results| ==> results[i] == Ok(files[i])
  {
    seq(|results|, i requires 0 <= i < |results| => results[i].value)
  }

  /**
   * `Promise.all(parsed.map(url => uploadFromUrl(url, downloadAuth)))`: every
   * URL is fetched and stored, in order, whatever happens to the others; each
   * result is the one `uploadFromUrl` gives, and every file fetched is in the
   * bucket afterwards.
   */
  method UploadEach(bucket: ObjectStore.Bucket, cdnBase: string, urls: seq<string>, downloadAuth: Option<string>,
                    fetch: Fetcher, sha1: seq<byte> -> string)
    returns (results: seq<Result<FetchedFile, Thrown>>)
    requires bucket.Valid()
    modifies bucket
    ensures bucket.Valid()
    ensures |results| == |urls|
    ensures forall i :: 0 <= i < |results| ==>
              UrlOutcome(results[i], cdnBase, urls[i], downloadAuth, fetch, sha1)
              && (results[i].Ok? ==> FetchedKey(urls[i], results[i].value) in bucket.objects)
    ensures old(bucket.objects).Keys <= bucket.objects.Keys
  {
    ghost var outcome := (r: Result<FetchedFile, Thrown>, url: string) =>
      UrlOutcome(r, cdnBase, url, downloadAuth, fetch, sha1);
    results := [];
    var i := 0;
    while i < |urls|
      invariant 0 <= i <= |urls| && |results| == i
      invariant bucket.Valid()
      invariant old(bucket.objects).Keys <= bucket.objects.Keys
      invariant Recorded(results, urls, bucket.objects.Keys, outcome, FetchedKey)
    {
      ghost var before := bucket.objects.Keys;
      var r := UploadFromUrl(bucket, cdnBase, urls[i], downloadAuth, fetch, sha1);
      RecordedStep(results, r, urls, before, bucket.objects.Keys, outcome, FetchedKey);
      results := results + [r];
      i := i + 1;
    }
  }

  /**
   * Each result so far is an `outcome` allowed for its URL, and each
   * resolved one is in `keys` under its `key`.
   */
  ghost predicate Recorded(results: seq<Result<FetchedFile, Thrown>>, urls: seq<string>, keys: set<string>,
                           outcome: (Result<FetchedFile, Thrown>, string) -> bool, key: (string, FetchedFile) -> string)
  {
    && |results| <= |urls|
    && forall i :: 0 <= i < |results| ==>
         outcome(results[i], urls[i]) && (results[i].Ok? ==> key(urls[i], results[i].value) in keys)
  }

  lemma RecordedStep(results: seq<Result<FetchedFile, Thrown>>, r: Result<FetchedFile, Thrown>, urls: seq<string>,
                     before: set<string>, after: set<string>,
                     outcome: (Result<FetchedFile, Thrown>, string) -> bool, key: (string, FetchedFile) -> string)
    requires Recorded(results, urls, before, outcome, key) && |results| < |urls|
    requires before <= after
    requires outcome(r, urls[|results|]) && (r.Ok? ==> key(urls[|results|], r.value) in after)
    ensures Recorded(results + [r], urls, after, outcome, key)
  {
    var next := results + [r];
    forall i | 0 <= i < |results|
      ensures next[i] == results[i]
    {
    }
    assert next[|results|] == r;
  }

  /**
   * `handleBulkUpload`: validates the URL list, then starts every download at
   * once (`Promise.all`); the reply is the formatted results when all of them
   * succeed; otherwise the handler does not catch the first rejection, and
   * the reply is the 500 that rejection ends in.
   * Every URL is attempted even when an earlier one fails.
   */
  method BulkUpload(bucket: ObjectStore.Bucket, cdnBase: string, body: BulkBody, version: ApiVersion,
                    downloadAuth: Option<string>, fetch: Fetcher, sha1: seq<byte> -> string)
    returns (reply: Reply, results: seq<Result<FetchedFile, Thrown>>)
    requires bucket.Valid()
    modifies bucket
    ensures bucket.Valid()
    ensures body.InvalidJson? ==> reply == Reply(500, InternalServerErrorText) && unchanged(bucket)
    ensures body.NotStringArray? || (body.UrlArray? && !BulkValid(body.urls)) ==>
              reply == Reply(422, BulkValidationError) && unchanged(bucket)
    ensures body.UrlArray? && BulkValid(body.urls) ==>
              && |results| == |body.urls|
              && (forall i :: 0 <= i < |results| ==>
                    UrlOutcome(results[i], cdnBase, body.urls[i], downloadAuth, fetch, sha1)
                    && (results[i].Ok? ==> FetchedKey(body.urls[i], results[i].value) in bucket.objects))
              && match FirstRejected(results)
                 case None => reply == Reply(200, FormatResponse(Values(results), version, cdnBase))
                 case Some(k) => reply == RejectionReply(results[k].error)
    ensures old(bucket.objects).Keys <= bucket.objects.Keys
  {
    results := [];
    match body
    case InvalidJson =>
      return Reply(500, InternalServerErrorText), results;
    case NotStringArray =>
      return Reply(422, BulkValidationError), results;
    case UrlArray(urls) =>
      if !BulkValid(urls) {
        return Reply(422, BulkValidationError), results;
      }
      results := UploadEach(bucket, cdnBase, urls, downloadAuth, fetch, sha1);
      match FirstRejected(results)
      case Some(k) =>
        reply := RejectionReply(results[k].error);
      case None =>
        reply := Reply(200, FormatResponse(Values(results), version, cdnBase));
  }

  /** A download refused by the remote server fails the whole bulk request. */
  lemma FailedDownloadFailsBatch(cdnBase: string, urls: seq<string>, downloadAuth: Option<string>, fetch: Fetcher,
                                 sha1: seq<byte> -> string, results: seq<Result<FetchedFile, Thrown>>, k: nat)
    requires |results| == |urls| && k < |urls|
    requires forall i :: 0 <= i < |results| ==> UrlOutcome(results[i], cdnBase, urls[i], downloadAuth, fetch, sha1)
    requires !(DownloadOf(urls[k], downloadAuth, fetch).Ok? && IsSuccess(DownloadOf(urls[k], downloadAuth, fetch).value))
    ensures FirstRejected(results).Some?
  {
    assert results[k].Err?;
  }

  // ---------------------------------------------------------------------
  // /upload

  /**
   * The URL /upload goes on to fetch, or its 400: the value must be an
   * HTTP(S) URL, and a file on files.slack.com needs a download credential.
   */
  function SingleUrl(body: string, parsed: Parsed, downloadAuth: Option<string>): (r: Result<string, Reply>)
    ensures r.Ok? <==> RawUrl(body, parsed).Some? && IsHttpUrl(RawUrl(body, parsed).value)
                       && !(Contains(RawUrl(body, parsed).value, "files.slack.com") && !HasCredential(downloadAuth))
    ensures r.Ok? ==> r.value == RawUrl(body, parsed).value
    ensures r.Err? ==> r.error.status == 400 && (r.error.body == UrlValidationError || r.error.body == Failure(AUTH_REQUIRED))
  {
    var raw := RawUrl(body, parsed);
    if raw.None? || !IsHttpUrl(raw.value) then Err(Reply(400, UrlValidationError))
    else if Contains(raw.value, "files.slack.com") && !HasCredential(downloadAuth) then Err(Reply(400, Failure(AUTH_REQUIRED)))
    else Ok(raw.value)
  }

  /** The /upload reply for an outcome of `uploadFromUrl`: a thrown error object is passed through with 500. */
  function SingleReply(r: Result<FetchedFile, Thrown>): (reply: Reply)
    ensures reply.status == 200 <==> r.Ok?
    ensures reply.status != 200 ==> reply.status == 500 && reply.body.Failure?
  {
    match r
    case Ok(f) => Reply(200, Fetched(f))
    case Err(Rejected(d)) => Reply(500, Failure(d))
    case Err(ErrorInstance) => Reply(500, Failure(INTERNAL_ERROR))
  }

  /** POST /upload. */
  method UploadSingle(bucket: ObjectStore.Bucket, cdnBase: string, body: string, parsed: Parsed,
                      downloadAuth: Option<string>, fetch: Fetcher, sha1: seq<byte> -> string)
    returns (reply: Reply)
    requires bucket.Valid()
    modifies bucket
    ensures bucket.Valid()
    ensures SingleUrl(body, parsed, downloadAuth).Err? ==> reply == SingleUrl(body, parsed, downloadAuth).error && unchanged(bucket)
    ensures SingleUrl(body, parsed, downloadAuth).Ok? ==>
              exists r :: UrlOutcome(r, cdnBase, SingleUrl(body, parsed, downloadAuth).value, downloadAuth, fetch, sha1)
                          && reply == SingleReply(r)
    ensures reply.status == 200 ==>
              reply.body.Fetched? && FetchedKey(SingleUrl(body, parsed, downloadAuth).value, reply.body.file) in bucket.objects
  {
    var admitted := SingleUrl(body, parsed, downloadAuth);
    if admitted.Err? {
      return admitted.error;
    }
    var r := UploadFromUrl(bucket, cdnBase, admitted.value, downloadAuth, fetch, sha1);
    reply := SingleReply(r);
  }

  /** The /upload replies of a refused download: 401 and 403 are an authentication failure, anything else a download failure. */
  lemma RefusedDownloadReply(cdnBase: string, url: string, downloadAuth: Option<string>, fetch: Fetcher,
                             sha1: seq<byte> -> string, r: Result<FetchedFile, Thrown>)
    requires UrlOutcome(r, cdnBase, url, downloadAuth, fetch, sha1)
    requires DownloadOf(url, downloadAuth, fetch).Ok? && !IsSuccess(DownloadOf(url, downloadAuth, fetch).value)
    ensures var status := DownloadOf(url, downloadAuth, fetch).value.status;
            var reply := SingleReply(r);
            && reply.status == 500 && reply.body.Failure? && reply.body.detail.url == Some(url)
            && (reply.body.detail.code == "AUTH_FAILED" <==> status == 401 || status == 403)
  {
  }

  // ---------------------------------------------------------------------
  // /file and /files

  /** A multipart form value: a file, or a plain text field. */
  datatype FormEntry = FileEntry(name: string, mimeType: string, data: seq<byte>) | TextEntry(text: string)

  /** `file.type || 'application/octet-stream'`. */
  function MimeOrDefault(mimeType: string): (ct: string)
    ensures ct != ""
  {
    if mimeType == "" then OCTET_STREAM else mimeType
  }

  /** A form file the handlers send to the bucket: a file, no larger than the limit. */
  predicate Accepted(e: FormEntry)
  {
    e.FileEntry? && |e.data| <= SW.MAX_FILE_SIZE
  }

  /** The unique name a form file is stored under. */
  function DirectName(e: FormEntry, now: nat, random: seq<byte>): string
    requires e.FileEntry? && |random| == 8
  {
    SW.UniqueFileName(e.name, now, random)
  }

  /** The names drawn for a batch, one per entry (none for a text field). */
  function FormNames(entries: seq<FormEntry>, now: nat, randoms: seq<seq<byte>>): (names: seq<string>)
    requires |randoms| == |entries| && forall i :: 0 <= i < |randoms| ==> |randoms[i]| == 8
    ensures |names| == |entries|
    ensures forall i :: 0 <= i < |entries| && entries[i].FileEntry? ==> names[i] == DirectName(entries[i], now, randoms[i])
  {
    seq(|entries|, i requires 0 <= i < |entries| =>
          if entries[i].FileEntry? then DirectName(entries[i], now, randoms[i]) else "")
  }

  /** What the handlers answer for a form file stored under `name`. */
  function DirectFileOf(cdnBase: string, e: FormEntry, name: string): (f: DirectFile)
    requires e.FileEntry?
    ensures f.size == |e.data| && f.contentType != ""
    ensures f.url == SW.FileUrl(cdnBase, USER_DIR, name)
  {
    DirectFile(SW.FileUrl(cdnBase, USER_DIR, name), |e.data|, MimeOrDefault(e.mimeType))
  }

  /** The streamed upload of a form file stored under `name`. */
  function StreamCall(e: FormEntry, name: string): ObjectStore.Call
    requires e.FileEntry?
  {
    ObjectStore.Call.ManagedUpload(SW.ObjectKey(USER_DIR, name), e.data, MimeOrDefault(e.mimeType), SW.CACHE_CONTROL)
  }

  /**
   * The part /file and /files share: an acceptable form file is streamed to
   * "s/v3/<name>"; anything else is not sent.
   */
  method StoreFormFile(bucket: ObjectStore.Bucket, cdnBase: string, e: FormEntry, name: string)
    returns (stored: Option<DirectFile>)
    requires bucket.Valid()
    modifies bucket
    ensures bucket.Valid()
    ensures !Accepted(e) ==> stored.None? && unchanged(bucket)
    ensures Accepted(e) ==>
              && bucket.log == old(bucket.log) + [StreamCall(e, name)]
              && (stored.Some? <==> |old(bucket.log)| !in bucket.faults)
              && (stored.Some? ==> stored.value == DirectFileOf(cdnBase, e, name)
                                   && bucket.objects == old(bucket.objects)[SW.ObjectKey(USER_DIR, name) := e.data])
              && (stored.None? ==> bucket.objects == old(bucket.objects))
  {
    if !Accepted(e) {
      return None;
    }
    var contentType := MimeOrDefault(e.mimeType);
    var result := SW.UploadStream(bucket, SW.ObjectKey(USER_DIR, name), e.data, contentType);
    if result.Failed? {
      return None;
    }
    stored := Some(DirectFile(SW.FileUrl(cdnBase, USER_DIR, name), |e.data|, contentType));
  }

  /**
   * POST /file: a missing or non-file `file` field is 400, a file over the
   * size limit 413, a failed upload 500; otherwise the stored file's URL.
   */
  method UploadFile(bucket: ObjectStore.Bucket, cdnBase: string, entry: Option<FormEntry>, now: nat, random: seq<byte>)
    returns (reply: Reply)
    requires bucket.Valid() && |random| == 8
    modifies bucket
    ensures bucket.Valid()
    ensures entry.None? || entry.value.TextEntry? ==> reply == Reply(400, PlainError("No file uploaded")) && unchanged(bucket)
    ensures entry.Some? && entry.value.FileEntry? && !Accepted(entry.value) ==>
              reply == Reply(413, PlainError("File too large")) && unchanged(bucket)
    ensures entry.Some? && Accepted(entry.value) ==>
              var name := DirectName(entry.value, now, random);
              && bucket.log == old(bucket.log) + [StreamCall(entry.value, name)]
              && (reply.status == 200 <==> |old(bucket.log)| !in bucket.faults)
              && (reply.status == 200 ==>
                    && reply == Reply(200, Direct(DirectFileOf(cdnBase, entry.value, name)))
                    && bucket.objects == old(bucket.objects)[SW.ObjectKey(USER_DIR, name) := entry.value.data])
              && (reply.status != 200 ==> reply == Reply(500, PlainError("Upload failed"))
                                          && bucket.objects == old(bucket.objects))
  {
    if entry.None? || entry.value.TextEntry? {
      return Reply(400, PlainError("No file uploaded"));
    }
    if |entry.value.data| > SW.MAX_FILE_SIZE {
      return Reply(413, PlainError("File too large"));
    }
    var uniqueName := SW.UniqueFileName(entry.value.name, now, random);
    var stored := StoreFormFile(bucket, cdnBase, entry.value, uniqueName);
    if stored.None? {
      return Reply(500, PlainError("Upload failed"));
    }
    reply := Reply(200, Direct(stored.value));
  }

  /** The uploads the first `n` form files cause, in order: one per accepted file. */
  function StreamCalls(entries: seq<FormEntry>, names: seq<string>, n: nat): (calls: seq<ObjectStore.Call>)
    requires n <= |entries| == |names|
    ensures |calls| <= n
  {
    if n == 0 then []
    else StreamCalls(entries, names, n - 1)
         + if Accepted(entries[n - 1]) then [StreamCall(entries[n - 1], names[n - 1])] else []
  }

  /** The answer of a batch in which every file was stored. */
  function DirectFilesOf(cdnBase: string, entries: seq<FormEntry>, names: seq<string>): (files: seq<DirectFile>)
    requires |names| == |entries| && forall i :: 0 <= i < |entries| ==> entries[i].FileEntry?
    ensures |files| == |entries|
    ensures forall i :: 0 <= i < |entries| ==> files[i] == DirectFileOf(cdnBase, entries[i], names[i])
  {
    seq(|entries|, i requires 0 <= i < |entries| => DirectFileOf(cdnBase, entries[i], names[i]))
  }

  /**
   * The `Promise.all` of /files over entries whose names are already drawn:
   * every acceptable file is streamed, and the batch succeeds only when every
   * entry was acceptable and stored.
   */
  method StoreBatch(bucket: ObjectStore.Bucket, cdnBase: string, entries: seq<FormEntry>, names: seq<string>)
    returns (files: Option<seq<DirectFile>>)
    requires bucket.Valid() && |names| == |entries|
    modifies bucket
    ensures bucket.Valid()
    ensures bucket.log == old(bucket.log) + StreamCalls(entries, names, |entries|)
    ensures (exists i :: 0 <= i < |entries| && !Accepted(entries[i])) ==> files.None?
    ensures files.Some? ==>
              && (forall i :: 0 <= i < |entries| ==> Accepted(entries[i]) && SW.ObjectKey(USER_DIR, names[i]) in bucket.objects)
              && files.value == DirectFilesOf(cdnBase, entries, names)
    ensures old(bucket.objects).Keys <= bucket.objects.Keys
  {
    var failed := false;
    var i := 0;
    while i < |entries|
      invariant 0 <= i <= |entries|
      invariant bucket.Valid()
      invariant bucket.log == old(bucket.log) + StreamCalls(entries, names, i)
      invariant old(bucket.objects).Keys <= bucket.objects.Keys
      invariant !failed ==> AllStored(bucket.objects, entries, names, i)
    {
      failed := StoreNext(bucket, cdnBase, entries, names, i, failed, old(bucket.log), old(bucket.objects).Keys);
      i := i + 1;
    }
    if failed {
      return None;
    }
    files := Some(DirectFilesOf(cdnBase, entries, names));
  }

  /** One turn of the /files batch: the `i`-th entry is stored when acceptable, and the batch fails otherwise. */
  method StoreNext(bucket: ObjectStore.Bucket, cdnBase: string, entries: seq<FormEntry>, names: seq<string>, i: nat,
                   failed: bool, ghost log0: seq<ObjectStore.Call>, ghost keys0: set<string>)
    returns (failedAfter: bool)
    requires i < |entries| == |names|
    requires bucket.Valid() && bucket.log == log0 + StreamCalls(entries, names, i) && keys0 <= bucket.objects.Keys
    requires !failed ==> AllStored(bucket.objects, entries, names, i)
    modifies bucket
    ensures bucket.Valid() && bucket.log == log0 + StreamCalls(entries, names, i + 1) && keys0 <= bucket.objects.Keys
    ensures !failedAfter ==> AllStored(bucket.objects, entries, names, i + 1)
  {
    var file := StoreFormFile(bucket, cdnBase, entries[i], names[i]);
    failedAfter := failed || file.None?;
  }

  /** The first `n` entries were all acceptable and each is in the bucket under its name. */
  ghost predicate AllStored(objects: map<string, seq<byte>>, entries: seq<FormEntry>, names: seq<string>, n: nat)
    requires n <= |entries| == |names|
  {
    forall j :: 0 <= j < n ==> Accepted(entries[j]) && SW.ObjectKey(USER_DIR, names[j]) in objects
  }

  /**
   * POST /files: 1 to 10 form files. Every file is checked and, when
   * acceptable, streamed to the bucket; one missing, oversized or failed file
   * answers 500 for the whole batch, even though the other files were stored.
   * `randoms[i]` stands for the random bytes drawn for the i-th file.
   */
  method UploadFiles(bucket: ObjectStore.Bucket, cdnBase: string, entries: seq<FormEntry>, now: nat,
                     randoms: seq<seq<byte>>)
    returns (reply: Reply)
    requires bucket.Valid()
    requires |randoms| == |entries| && forall i :: 0 <= i < |randoms| ==> |randoms[i]| == 8
    modifies bucket
    ensures bucket.Valid()
    ensures |entries| == 0 ==> reply == Reply(400, PlainError("No files uploaded")) && unchanged(bucket)
    ensures |entries| > MAX_FORM_FILES ==> reply == Reply(400, PlainError("Maximum 10 files allowed")) && unchanged(bucket)
    ensures 0 < |entries| <= MAX_FORM_FILES ==>
              && bucket.log == old(bucket.log) + StreamCalls(entries, FormNames(entries, now, randoms), |entries|)
              && (reply.status == 200 || reply == Reply(500, PlainError("Upload failed")))
              && ((exists i :: 0 <= i < |entries| && !Accepted(entries[i])) ==> reply.status == 500)
    ensures reply.status == 200 ==>
              var names := FormNames(entries, now, randoms);
              && (forall i :: 0 <= i < |entries| ==> Accepted(entries[i]) && SW.ObjectKey(USER_DIR, names[i]) in bucket.objects)
              && reply == Reply(200, DirectFiles(DirectFilesOf(cdnBase, entries, names), cdnBase))
    ensures old(bucket.objects).Keys <= bucket.objects.Keys
  {
    if |entries| == 0 {
      return Reply(400, PlainError("No files uploaded"));
    }
    if |entries| > MAX_FORM_FILES {
      return Reply(400, PlainError("Maximum 10 files allowed"));
    }
    var files := StoreBatch(bucket, cdnBase, entries, FormNames(entries, now, randoms));
    if files.None? {
      return Reply(500, PlainError("Upload failed"));
    }
    reply := Reply(200, DirectFiles(files.value, cdnBase));
  }

  /**
   * A batch whose second entry is a text field is refused with 500, yet its
   * first file is still streamed to the bucket.
   */
  lemma RefusedBatchStillStoresFiles(entries: seq<FormEntry>, now: nat, randoms: seq<seq<byte>>)
    requires |randoms| == |entries| && forall i :: 0 <= i < |randoms| ==> |randoms[i]| == 8
    requires |entries| == 2 && Accepted(entries[0]) && entries[1].TextEntry?
    ensures var names := FormNames(entries, now, randoms);
            StreamCalls(entries, names, |entries|) == [StreamCall(entries[0], DirectName(entries[0], now, randoms[0]))]
  {
    var names := FormNames(entries, now, randoms);
    assert StreamCalls(entries, names, 1) == [StreamCall(entries[0], names[0])];
  }
}
