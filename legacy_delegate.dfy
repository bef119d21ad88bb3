/**
 * src/delegate/mod.rs: `multiplexed_uploader` of the legacy Rust service.
 * It is the CDN service's uploader (see `CdnDelegate`) with one key: the
 * object is stored under a fresh UUID, published at CDN + "/" + that UUID,
 * and the result is then written to the sled tree by `store_file`, whose
 * own failures are logged and never reach the caller. There is no database
 * row and no user. The Slack gate, the streamed body and the SHA-1 are the
 * same as in the CDN service and are shared with it; the error type, in
 * src/delegate/error.rs, is not part of this model and is taken to be the
 * CDN service's `DelegateError`.
 */
module LegacyDelegate {
  import opened Common
  import opened Http
  import opened DelegateError
  import CD = CdnDelegate
  import SS = SledStore

  const LEGACY_USER_AGENT := "Hackclub/CDN"

  /** Whether the bucket put fails, and how the sled calls of `store_file` go. */
  datatype Faults = Faults(put: bool, store: SS.StoreFaults)

  /** What one call does to the bucket, and its result. */
  datatype Effects = Effects(sent: Option<Request>, stored: Option<seq<byte>>, result: Result<CD.UploadResult, ApiError>)

  /** The specification of `multiplexed_uploader` up to `store_file`. */
  function Upload(url: string, hash: bool, slack: Option<string>, key: string, env: CD.Env, put: bool): (e: Effects)
    ensures e.sent.None? <==> CD.RequestHeaders(LEGACY_USER_AGENT, url, slack).Err?
    ensures e.sent.None? ==> e.stored.None? && e.result.Err?
    ensures e.sent.Some? ==> e.sent.value.url == url
  {
    match CD.RequestHeaders(LEGACY_USER_AGENT, url, slack)
    case Err(e) => Effects(None, None, Err(e))
    case Ok(headers) => Transfer(Request(url, headers), hash, key, env, put)
  }

  /** From the request sent on: the body streamed into the bucket, and the result describing it. */
  function Transfer(request: Request, hash: bool, key: string, env: CD.Env, put: bool): (e: Effects)
    ensures e.sent == Some(request)
  {
    match env.fetch(request)
    case Err(_) => Effects(Some(request), None, Err(INTERNAL_SERVER_ERROR))
    case Ok(d) =>
      if d.broken || put then Effects(Some(request), None, Err(INTERNAL_SERVER_ERROR))
      else
        var bytes := CD.Concat(d.chunks);
        Effects(Some(request), Some(bytes),
                Ok(CD.UploadResult(env.cdnBase + "/" + key, |bytes|, key, CD.Sha(hash, env.sha1, bytes))))
  }

  /** The bucket: its objects by key, and the requests sent to fetch them. */
  class Bucket {
    var objects: map<string, seq<byte>>
    var sent: seq<Request>

    constructor ()
      ensures objects == map[] && sent == []
    {
      objects := map[];
      sent := [];
    }
  }

  /** `multiplexed_uploader`, with its UUID drawn by the caller. */
  method MultiplexedUploader(bucket: Bucket, sled: SS.Sled, url: string, hash: bool, slack: Option<string>,
                             key: string, env: CD.Env, faults: Faults)
    returns (r: Result<CD.UploadResult, ApiError>)
    requires sled.Valid()
    requires SS.Stores(faults.store) ==> sled.Initialised()
    modifies bucket, sled
    ensures var e := Upload(url, hash, slack, key, env, faults.put);
            && r == e.result
            && bucket.sent == old(bucket.sent) + (if e.sent.Some? then [e.sent.value] else [])
            && bucket.objects == (if e.stored.Some? then old(bucket.objects)[key := e.stored.value] else old(bucket.objects))
    ensures sled.Valid()
    ensures var counted := r.Ok? && SS.Stores(faults.store);
            && sled.records == (if counted then old(sled.records)[key := r.value] else old(sled.records))
            && sled.numFiles == (if counted then Some(old(sled.numFiles).value + 1) else old(sled.numFiles))
            && sled.sizeFiles == (if counted then Some(old(sled.sizeFiles).value + r.value.size) else old(sled.sizeFiles))
  {
    var headers := map["User-Agent" := LEGACY_USER_AGENT];
    if Contains(url, CD.SLACK_FILES_HOST) {
      match slack {
        case None =>
          return Err(ApiError(400, Some(CD.SLACK_TOKEN_REQUIRED)));
        case Some(token) =>
          if HeaderToStr(token).None? {
            return Err(FromError(token));
          }
          headers := headers["Authorization" := "Bearer " + token];
      }
    }
    r := SendAndPut(bucket, Request(url, headers), hash, key, env, faults.put);
    if r.Ok? {
      sled.StoreFile(r.value, faults.store);
    }
  }

  /** Send the request and stream the body into the bucket under `key`. */
  method SendAndPut(bucket: Bucket, request: Request, hash: bool, key: string, env: CD.Env, put: bool)
    returns (r: Result<CD.UploadResult, ApiError>)
    modifies bucket
    ensures var e := Transfer(request, hash, key, env, put);
            && r == e.result
            && bucket.sent == old(bucket.sent) + [request]
            && bucket.objects == (if e.stored.Some? then old(bucket.objects)[key := e.stored.value] else old(bucket.objects))
    ensures r.Ok? ==> r.value.file == key
  {
    bucket.sent := bucket.sent + [request];
    var response := env.fetch(request);
    if response.Err? {
      return Err(INTERNAL_SERVER_ERROR);
    }
    var read, hashed := CD.StreamBody(response.value.chunks, hash);
    if response.value.broken || put {
      return Err(INTERNAL_SERVER_ERROR);
    }
    bucket.objects := bucket.objects[key := read];
    var sha := CD.Sha(hash, env.sha1, hashed);
    r := Ok(CD.UploadResult(env.cdnBase + "/" + key, |read|, key, sha));
  }

  // ---------------------------------------------------------------------
  // Properties of `Upload`

  /** A files.slack.com URL without a token is refused with a 400 before any request is sent. */
  lemma SlackUrlNeedsToken(url: string, hash: bool, key: string, env: CD.Env, put: bool)
    requires Contains(url, CD.SLACK_FILES_HOST)
    ensures Upload(url, hash, None, key, env, put) == Effects(None, None, Err(ApiError(400, Some(CD.SLACK_TOKEN_REQUIRED))))
  {
  }

  /** The request sent carries the caller's token as a Bearer credential exactly when the URL is on files.slack.com. */
  lemma AuthorizationOnlyForSlack(url: string, hash: bool, slack: Option<string>, key: string, env: CD.Env, put: bool)
    ensures var e := Upload(url, hash, slack, key, env, put);
            e.sent.Some? ==>
              && e.sent.value.url == url
              && e.sent.value.headers["User-Agent"] == LEGACY_USER_AGENT
              && ("Authorization" in e.sent.value.headers <==> Contains(url, CD.SLACK_FILES_HOST))
              && ("Authorization" in e.sent.value.headers ==>
                    slack.Some? && e.sent.value.headers["Authorization"] == "Bearer " + slack.value)
  {
  }

  /**
   * A result is given exactly when the body was stored, and it describes
   * the stored object: its key is the file name and the last segment of the
   * deployed URL, its size is the stored size, and it carries the SHA-1 of
   * exactly the stored bytes when, and only when, hashing was asked for.
   */
  lemma ResultDescribesStoredObject(url: string, hash: bool, slack: Option<string>, key: string, env: CD.Env, put: bool)
    ensures var e := Upload(url, hash, slack, key, env, put);
            && (e.result.Ok? <==> e.stored.Some?)
            && (e.stored.Some? ==> e.sent.Some?)
            && (e.result.Ok? ==>
                  var bytes, res := e.stored.value, e.result.value;
                  && res.file == key && res.size == |bytes|
                  && res.deployedUrl == env.cdnBase + "/" + key
                  && (res.sha.Some? <==> hash)
                  && (hash ==> res.sha.value == HexEncode(env.sha1(bytes))))
  {
  }

  /** A failed put, or a stream that breaks, stores nothing and answers the 500 of a standard error. */
  lemma FailedPutStoresNothing(url: string, hash: bool, slack: Option<string>, key: string, env: CD.Env)
    ensures var e := Upload(url, hash, slack, key, env, true);
            e.stored.None? && (e.sent.Some? ==> e.result == Err(INTERNAL_SERVER_ERROR))
  {
  }
}
