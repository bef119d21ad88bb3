/**
 * cdn/src/delegate/mod.rs: `multiplexed_uploader`, the one path by which
 * the CDN service takes in a file from a URL. It builds a GET request (with
 * the caller's Slack token as a Bearer credential when the URL is on
 * files.slack.com, and refusing a Slack URL without one), streams the
 * response body into the bucket under a fresh storage UUID while feeding
 * each chunk to a SHA-1 context when hashing was asked for, names the file
 * after the URL's last path segment, and records a row that publishes it
 * under a second, public UUID.
 *
 * The HTTP client, the bucket and the database are opaque steps: the fetch
 * is a function from the request to the streamed body or a transport error,
 * and the bucket and database calls fail exactly when their flag in
 * `Faults` says so. SHA-1 (FIPS 180-4) is the uninterpreted `sha1`.
 */
module CdnDelegate {
  import opened Common
  import opened Http
  import opened DelegateError
  import opened CdnDb

  const SLACK_FILES_HOST := "files.slack.com"
  const USER_AGENT := "HackclubCDN/1.0"
  const SLACK_TOKEN_REQUIRED := "x-download-authorization is required to download Slack files!"
  const METADATA_FAILED := "Failed to store file metadata"

  datatype UploadResult = UploadResult(deployedUrl: string, size: nat, file: string, sha: Option<string>)

  /** A response body as it is streamed: its chunks, and whether the stream broke after them. */
  datatype Download = Download(chunks: seq<seq<byte>>, broken: bool)

  /** `request.send()`: the streamed body, or a transport error. The status code is not looked at. */
  type StreamFetcher = Request -> Result<Download, string>

  datatype Env = Env(cdnBase: string, fetch: StreamFetcher, sha1: seq<byte> -> seq<byte>, now: nat)

  datatype Faults = Faults(put: bool, insert: bool)

  /** The bytes of the chunks, in order. */
  function Concat(chunks: seq<seq<byte>>): (bytes: seq<byte>)
  {
    if |chunks| == 0 then [] else Concat(chunks[..|chunks| - 1]) + chunks[|chunks| - 1]
  }

  /** The byte count is the sum of the chunk sizes. */
  lemma {:induction false} ConcatLength(chunks: seq<seq<byte>>, sizes: seq<nat>)
    requires |sizes| == |chunks| && forall i :: 0 <= i < |chunks| ==> sizes[i] == |chunks[i]|
    ensures |Concat(chunks)| == Sum(sizes)
  {
    if |chunks| > 0 {
      var n := |chunks| - 1;
      ConcatLength(chunks[..n], sizes[..n]);
      SumAppend(sizes[..n], [sizes[n]]);
      assert sizes[..n] + [sizes[n]] == sizes;
    }
  }

  /**
   * The headers of the GET request, or the error returned before anything
   * is sent: a Slack URL needs the token, as a Bearer credential (section
   * 2.1 of RFC 6750), and a token that is not visible ASCII fails to convert.
   */
  function RequestHeaders(userAgent: string, url: string, slack: Option<string>): (r: Result<Headers, ApiError>)
    ensures r.Err? <==> Contains(url, SLACK_FILES_HOST) && (slack.None? || HeaderToStr(slack.value).None?)
    ensures r.Ok? ==> "User-Agent" in r.value && r.value["User-Agent"] == userAgent
    ensures r.Ok? ==> ("Authorization" in r.value <==> Contains(url, SLACK_FILES_HOST))
    ensures r.Ok? && "Authorization" in r.value ==> r.value["Authorization"] == "Bearer " + slack.value
  {
    var base := map["User-Agent" := userAgent];
    if !Contains(url, SLACK_FILES_HOST) then Ok(base)
    else
      match slack
      case None => Err(ApiError(400, Some(SLACK_TOKEN_REQUIRED)))
      case Some(token) =>
        if HeaderToStr(token).None? then Err(FromError(token))
        else Ok(base["Authorization" := "Bearer " + token])
  }

  /** `url.split('/').last()`, then `.split('?').next()`: the last path segment without its query. */
  function FileName(url: string): (name: string)
    ensures '/' !in name && '?' !in name
  {
    TakeUntil(AfterLast(url, '/'), (c: char) => c == '?')
  }

  /** What one call does: the request sent, the object stored, the row inserted, and the result. */
  datatype Effects = Effects(sent: Option<Request>, stored: Option<seq<byte>>, row: Option<FileRow>,
                             result: Result<UploadResult, ApiError>)

  /** The SHA-1 of what was hashed, in lower-case hex, when hashing was asked for. */
  function Sha(hash: bool, sha1: seq<byte> -> seq<byte>, hashed: seq<byte>): Option<string>
  {
    if hash then Some(HexEncode(sha1(hashed))) else None
  }

  /** The specification of `multiplexed_uploader`. */
  function Upload(url: string, hash: bool, slack: Option<string>, userId: int, storageUuid: string, publicUuid: string,
                  env: Env, faults: Faults): (e: Effects)
    ensures e.sent.None? <==> RequestHeaders(USER_AGENT, url, slack).Err?
    ensures e.sent.None? ==> e.stored.None? && e.row.None? && e.result.Err?
    ensures e.sent.Some? ==> e.sent.value.url == url
  {
    match RequestHeaders(USER_AGENT, url, slack)
    case Err(e) => Effects(None, None, None, Err(e))
    case Ok(headers) => Transfer(Request(url, headers), hash, userId, storageUuid, publicUuid, env, faults)
  }

  /** From the request sent on: the body streamed into the bucket, then recorded. */
  function Transfer(request: Request, hash: bool, userId: int, storageUuid: string, publicUuid: string,
                    env: Env, faults: Faults): (e: Effects)
    ensures e.sent == Some(request)
  {
    match env.fetch(request)
    case Err(_) => Effects(Some(request), None, None, Err(INTERNAL_SERVER_ERROR))
    case Ok(d) =>
      if d.broken || faults.put then Effects(Some(request), None, None, Err(INTERNAL_SERVER_ERROR))
      else Record(request, Concat(d.chunks), hash, userId, storageUuid, publicUuid, env, faults)
  }

  /** From the object stored on: the row inserted, and the result. */
  function Record(request: Request, bytes: seq<byte>, hash: bool, userId: int, storageUuid: string, publicUuid: string,
                  env: Env, faults: Faults): (e: Effects)
    ensures e.sent == Some(request) && e.stored == Some(bytes)
  {
    var sha := Sha(hash, env.sha1, bytes);
    var deployedUrl := env.cdnBase + "/" + publicUuid;
    if faults.insert then Effects(Some(request), Some(bytes), None, Err(ApiError(500, Some(METADATA_FAILED))))
    else
      var row := FileRow(userId, storageUuid, publicUuid, FileName(request.url), |bytes|, deployedUrl, sha, env.now);
      Effects(Some(request), Some(bytes), Some(row), Ok(UploadResult(deployedUrl, |bytes|, publicUuid, sha)))
  }

  /**
   * The stream the bucket reads: every chunk is passed on, and fed to the
   * SHA-1 context first when hashing was asked for.
   */
  method StreamBody(chunks: seq<seq<byte>>, hash: bool) returns (read: seq<byte>, hashed: seq<byte>)
    ensures read == Concat(chunks)
    ensures hashed == if hash then Concat(chunks) else []
  {
    read, hashed := [], [];
    var i := 0;
    while i < |chunks|
      invariant i <= |chunks|
      invariant read == Concat(chunks[..i])
      invariant hashed == if hash then read else []
    {
      var chunk := chunks[i];
      if hash {
        hashed := hashed + chunk;
      }
      read := read + chunk;
      assert chunks[..i + 1][..i] == chunks[..i];
      i := i + 1;
    }
    assert chunks[..i] == chunks;
  }

  /** `multiplexed_uploader`, with its two UUIDs drawn by the caller. */
  method MultiplexedUploader(cdn: Cdn, url: string, hash: bool, slack: Option<string>, userId: int,
                             storageUuid: string, publicUuid: string, env: Env, faults: Faults)
    returns (r: Result<UploadResult, ApiError>)
    modifies cdn
    ensures var e := Upload(url, hash, slack, userId, storageUuid, publicUuid, env, faults);
            && r == e.result
            && cdn.sent == old(cdn.sent) + (if e.sent.Some? then [e.sent.value] else [])
            && cdn.objects == (if e.stored.Some? then old(cdn.objects)[storageUuid := e.stored.value] else old(cdn.objects))
            && cdn.files == old(cdn.files) + (if e.row.Some? then [e.row.value] else [])
    ensures cdn.users == old(cdn.users)
  {
    var headers := map["User-Agent" := USER_AGENT];
    if Contains(url, SLACK_FILES_HOST) {
      match slack {
        case None =>
          return Err(ApiError(400, Some(SLACK_TOKEN_REQUIRED)));
        case Some(token) =>
          if HeaderToStr(token).None? {
            return Err(FromError(token));
          }
          headers := headers["Authorization" := "Bearer " + token];
      }
    }
    r := SendAndStore(cdn, Request(url, headers), hash, userId, storageUuid, publicUuid, env, faults);
  }

  /** Send the request, stream the body into the bucket, and record the file. */
  method SendAndStore(cdn: Cdn, request: Request, hash: bool, userId: int, storageUuid: string, publicUuid: string,
                      env: Env, faults: Faults)
    returns (r: Result<UploadResult, ApiError>)
    modifies cdn
    ensures var e := Transfer(request, hash, userId, storageUuid, publicUuid, env, faults);
            && r == e.result
            && cdn.sent == old(cdn.sent) + [request]
            && cdn.objects == (if e.stored.Some? then old(cdn.objects)[storageUuid := e.stored.value] else old(cdn.objects))
            && cdn.files == old(cdn.files) + (if e.row.Some? then [e.row.value] else [])
    ensures cdn.users == old(cdn.users)
  {
    cdn.sent := cdn.sent + [request];
    var response := env.fetch(request);
    if response.Err? {
      return Err(INTERNAL_SERVER_ERROR);
    }
    var read, hashed := StreamBody(response.value.chunks, hash);
    if response.value.broken || faults.put {
      return Err(INTERNAL_SERVER_ERROR);
    }
    r := Store(cdn, request, read, hashed, hash, userId, storageUuid, publicUuid, env, faults);
  }

  /** The body read in full: put it under the storage UUID, then insert the row. */
  method Store(cdn: Cdn, request: Request, read: seq<byte>, hashed: seq<byte>, hash: bool, userId: int,
               storageUuid: string, publicUuid: string, env: Env, faults: Faults)
    returns (r: Result<UploadResult, ApiError>)
    requires hashed == if hash then read else []
    modifies cdn
    ensures var e := Record(request, read, hash, userId, storageUuid, publicUuid, env, faults);
            && r == e.result
            && cdn.objects == old(cdn.objects)[storageUuid := read]
            && cdn.files == old(cdn.files) + (if e.row.Some? then [e.row.value] else [])
    ensures cdn.users == old(cdn.users) && cdn.sent == old(cdn.sent)
  {
    cdn.objects := cdn.objects[storageUuid := read];
    var sha := Sha(hash, env.sha1, hashed);
    var filename := FileName(request.url);
    var deployedUrl := env.cdnBase + "/" + publicUuid;
    if faults.insert {
      return Err(ApiError(500, Some(METADATA_FAILED)));
    }
    cdn.files := cdn.files + [FileRow(userId, storageUuid, publicUuid, filename, |read|, deployedUrl, sha, env.now)];
    r := Ok(UploadResult(deployedUrl, |read|, publicUuid, sha));
  }

  // ---------------------------------------------------------------------
  // Properties of `Upload`

  /** A files.slack.com URL without a token is refused with a 400 before any request is sent. */
  lemma SlackUrlNeedsToken(url: string, hash: bool, userId: int, storageUuid: string, publicUuid: string,
                           env: Env, faults: Faults)
    requires Contains(url, SLACK_FILES_HOST)
    ensures var e := Upload(url, hash, None, userId, storageUuid, publicUuid, env, faults);
            e == Effects(None, None, None, Err(ApiError(400, Some(SLACK_TOKEN_REQUIRED))))
  {
  }

  /**
   * The request sent carries an Authorization header exactly when the URL
   * is on files.slack.com, and then it is the caller's token as a Bearer
   * credential: a token given for any other URL is never sent.
   */
  lemma AuthorizationOnlyForSlack(url: string, hash: bool, slack: Option<string>, userId: int, storageUuid: string,
                                  publicUuid: string, env: Env, faults: Faults)
    ensures var e := Upload(url, hash, slack, userId, storageUuid, publicUuid, env, faults);
            e.sent.Some? ==>
              && e.sent.value.url == url
              && e.sent.value.headers["User-Agent"] == USER_AGENT
              && ("Authorization" in e.sent.value.headers <==> Contains(url, SLACK_FILES_HOST))
              && ("Authorization" in e.sent.value.headers ==>
                    slack.Some? && e.sent.value.headers["Authorization"] == "Bearer " + slack.value)
  {
  }

  /**
   * Only a stored object gets a row, and only a recorded row gives a result:
   * the result is published under the public UUID with the stored size, and
   * carries the SHA-1 of exactly the stored bytes when, and only when,
   * hashing was asked for. The row keeps the storage UUID, which is never
   * the published name when the two UUIDs differ.
   */
  lemma ResultMatchesStoredObject(url: string, hash: bool, slack: Option<string>, userId: int, storageUuid: string,
                                  publicUuid: string, env: Env, faults: Faults)
    ensures var e := Upload(url, hash, slack, userId, storageUuid, publicUuid, env, faults);
            && (e.row.Some? ==> e.stored.Some?)
            && (e.stored.Some? ==> e.sent.Some?)
            && (e.result.Ok? <==> e.row.Some?)
            && (e.result.Ok? ==>
                  var bytes, res, row := e.stored.value, e.result.value, e.row.value;
                  && res.file == publicUuid && res.size == |bytes|
                  && res.deployedUrl == env.cdnBase + "/" + publicUuid
                  && (res.sha.Some? <==> hash)
                  && (hash ==> res.sha.value == HexEncode(env.sha1(bytes)))
                  && row.storageUuid == storageUuid && row.publicUuid == publicUuid && row.userId == userId
                  && row.size == |bytes| && row.url == res.deployedUrl && row.sha == res.sha
                  && row.filename == FileName(url)
                  && (storageUuid != publicUuid ==> res.file != row.storageUuid))
  {
  }

  /** A failed insert answers 500 "Failed to store file metadata" and leaves the stored object in place. */
  lemma MetadataFailureKeepsObject(url: string, hash: bool, slack: Option<string>, userId: int, storageUuid: string,
                                   publicUuid: string, env: Env, faults: Faults)
    requires faults.insert
    ensures var e := Upload(url, hash, slack, userId, storageUuid, publicUuid, env, faults);
            e.stored.Some? ==> e.row.None? && e.result == Err(ApiError(500, Some(METADATA_FAILED)))
  {
  }

  /** Up to the first '?': a name without '?' followed by "?..." or by nothing. */
  lemma TakeUntilQuery(name: string, rest: string)
    requires '?' !in name && (|rest| == 0 || rest[0] == '?')
    ensures TakeUntil(name + rest, (c: char) => c == '?') == name
  {
    assert (name + rest)[..|name|] == name;
  }

  /** The file name of "<prefix>/<name>?<query>" is the name. */
  lemma FileNameWithQuery(prefix: string, name: string, query: string)
    requires '/' !in name && '?' !in name && '/' !in query
    ensures FileName(prefix + "/" + name + "?" + query) == name
  {
    var last := name + "?" + query;
    assert '/' !in last by {
      assert forall i :: 0 <= i < |last| ==> last[i] == (if i < |name| then name[i] else ("?" + query)[i - |name|]);
    }
    AfterLastOfPath(prefix, last);
    assert prefix + "/" + name + "?" + query == prefix + "/" + last;
    TakeUntilQuery(name, "?" + query);
    assert last == name + ("?" + query);
  }

  /** The file name of "<prefix>/<name>" is the name. */
  lemma FileNameWithoutQuery(prefix: string, name: string)
    requires '/' !in name && '?' !in name
    ensures FileName(prefix + "/" + name) == name
  {
    AfterLastOfPath(prefix, name);
    TakeUntilQuery(name, "");
    assert name + "" == name;
  }
}
