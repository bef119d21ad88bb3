/**
 * The JSON API, version 4: app/controllers/api/v4/application_controller.rb
 * (bearer-token authentication against the API keys, and the handlers for
 * RecordNotFound and RecordInvalid) and app/controllers/api/v4/uploads_controller.rb
 * (`create` from a multipart file, `create_from_url`). The token Rails
 * extracts from the Authorization header, the blob key, whether the
 * object-store write succeeds, the public URL of an upload and the ISO 8601
 * rendering of a timestamp are parameters.
 */
module ApiV4 {
  import opened Common
  import opened Http
  import opened Records
  import ApiKeys
  import UploadRecord

  /** The JSON bodies these controllers render. */
  datatype Body =
    | ErrorJson(error: string)
    | ValidationJson(error: string, details: seq<string>)
    | UploadJson(id: nat, filename: string, size: nat, contentType: string, url: string, createdAt: string)

  datatype Reply = Reply(status: nat, body: Body)

  const INVALID_AUTH := Reply(401, ErrorJson("invalid_auth"))

  /**
   * `authenticate!`: the key found by the presented token must exist and be
   * active; the request then runs as the key's owner (the user id returned).
   */
  function Authenticate(keys: seq<ApiKey>, token: Option<string>): (r: Result<nat, Reply>)
    ensures r.Err? ==> r.error == INVALID_AUTH
    ensures r.Ok? <==> token.Some? && ApiKeys.FindByToken(keys, token.value).Some?
                       && ApiKeys.Active(keys[ApiKeys.FindByToken(keys, token.value).value])
    ensures r.Ok? ==> exists i :: 0 <= i < |keys| && keys[i].token == token.value && !keys[i].revoked
                                  && keys[i].userId == r.value
  {
    if token.None? then Err(INVALID_AUTH)
    else match ApiKeys.FindByToken(keys, token.value)
      case None => Err(INVALID_AUTH)
      case Some(i) => if ApiKeys.Active(keys[i]) then Ok(keys[i].userId) else Err(INVALID_AUTH)
  }

  /** Tokens are unique across the key table (the generator draws 32 random bytes for each). */
  predicate UniqueTokens(keys: seq<ApiKey>)
  {
    forall a, b :: 0 <= a < b < |keys| ==> keys[a].token != keys[b].token
  }

  /** Once revoked, a key's token is refused. */
  lemma RevokedTokenRefused(keys: seq<ApiKey>, i: nat, now: nat)
    requires i < |keys| && UniqueTokens(keys)
    ensures Authenticate(keys[i := keys[i].(revoked := true, revokedAt := Some(now))], Some(keys[i].token))
            == Err(INVALID_AUTH)
  {
    var after := keys[i := keys[i].(revoked := true, revokedAt := Some(now))];
    var found := ApiKeys.FindByToken(after, keys[i].token);
    assert after[i].token == keys[i].token;
    assert found.Some? && found.value == i;
  }

  /** A key just created with a fresh token authenticates as its owner. */
  lemma CreatedKeyAuthenticates(keys: seq<ApiKey>, k: ApiKey)
    requires !k.revoked
    requires forall j :: 0 <= j < |keys| ==> keys[j].token != k.token
    ensures Authenticate(keys + [k], Some(k.token)) == Ok(k.userId)
  {
    var after := keys + [k];
    assert after[|keys|] == k;
    assert forall j :: 0 <= j < |keys| ==> after[j] == keys[j];
  }

  /** The errors `rescue_from` handles, and every other exception. */
  datatype Raised = RecordNotFound | RecordInvalid(messages: seq<string>) | OtherError(message: string)

  /** `not_found` and `unprocessable_entity`; any other exception is not handled here. */
  function RescueReply(e: Raised): (r: Option<Reply>)
    ensures r.Some? <==> !e.OtherError?
    ensures e.RecordNotFound? ==> r == Some(Reply(404, ErrorJson("Not found")))
    ensures e.RecordInvalid? ==> r == Some(Reply(422, ValidationJson("Validation failed", e.messages)))
  {
    match e
    case RecordNotFound => Some(Reply(404, ErrorJson("Not found")))
    case RecordInvalid(m) => Some(Reply(422, ValidationJson("Validation failed", m)))
    case OtherError(_) => None
  }

  /** `upload_json`. */
  function UploadJsonOf(u: Upload, cdnUrl: Upload -> string, iso8601: nat -> string): (b: Body)
    ensures b.UploadJson? && b.id == u.id && b.filename == u.blob.filename && b.size == u.blob.byteSize
    ensures b.contentType == u.blob.contentType && b.url == cdnUrl(u) && b.createdAt == iso8601(u.createdAt)
  {
    UploadJson(u.id, u.blob.filename, u.blob.byteSize, u.blob.contentType, cdnUrl(u), iso8601(u.createdAt))
  }

  /**
   * POST /api/v4/upload. Authentication first; then a missing file is a
   * 400; then the blob is written and the row created with provenance api.
   * There is no quota check on this path. A failure of either write is a
   * 422 "Upload failed: …"; a blob written before the row was refused
   * stays in the store.
   */
  method Create(db: Db, token: Option<string>, file: Option<UploadedFile>, blobKey: string, storeOk: bool,
                now: nat, cdnUrl: Upload -> string, iso8601: nat -> string)
    returns (reply: Reply)
    requires db.Valid()
    modifies db
    ensures db.Valid()
    ensures db.users == old(db.users) && db.apiKeys == old(db.apiKeys)
    ensures match Authenticate(old(db.apiKeys), token)
            case Err(e) =>
              reply == e && db.uploads == old(db.uploads) && db.storedBlobs == old(db.storedBlobs)
            case Ok(userId) =>
              match file
              case None =>
                reply == Reply(400, ErrorJson("Missing file parameter"))
                && db.uploads == old(db.uploads) && db.storedBlobs == old(db.storedBlobs)
              case Some(f) =>
                var row := Upload(old(db.nextId), userId, Blob(blobKey, f.originalFilename, f.contentType, f.size),
                                  Api, None, now);
                (reply.status == 201 <==> storeOk && UserIndex(old(db.users), userId).Some?)
                && db.storedBlobs == (if storeOk then old(db.storedBlobs) + {blobKey} else old(db.storedBlobs))
                && db.uploads == (if reply.status == 201 then old(db.uploads) + [row] else old(db.uploads))
                && (reply.status == 201 ==> reply.body == UploadJsonOf(row, cdnUrl, iso8601))
                && (reply.status != 201 ==> reply.status == 422 && reply.body.ErrorJson?
                                            && StartsWith(reply.body.error, "Upload failed: "))
  {
    var auth := Authenticate(db.apiKeys, token);
    if auth.Err? {
      return auth.error;
    }
    var userId := auth.value;
    if file.None? {
      return Reply(400, ErrorJson("Missing file parameter"));
    }
    var f := file.value;
    if !storeOk {
      return UploadFailed("Failed to upload blob " + blobKey);
    }
    db.StoreBlob(blobKey);
    if UserIndex(db.users, userId).None? {
      return UploadFailed("Validation failed: User must exist");
    }
    var row := Upload(0, userId, Blob(blobKey, f.originalFilename, f.contentType, f.size), Api, None, now);
    var id := db.InsertUpload(row);
    reply := Reply(201, UploadJsonOf(row.(id := id), cdnUrl, iso8601));
  }

  /** The actions' own `rescue => e`. */
  function UploadFailed(message: string): (r: Reply)
    ensures r.status == 422 && r.body.ErrorJson? && StartsWith(r.body.error, "Upload failed: ")
    ensures r.body.error[|"Upload failed: "|..] == message
  {
    Reply(422, ErrorJson("Upload failed: " + message))
  }

  /**
   * POST /api/v4/upload_from_url: authentication, then a blank url is a
   * 400, then `Upload.create_from_url` with provenance api, the url as
   * original_url and the X-Download-Authorization header forwarded as the
   * download's Authorization.
   */
  method CreateFromUrl(db: Db, token: Option<string>, url: Option<string>, downloadAuth: Option<string>,
                       fetch: Fetcher, sniffed: Option<string>, blobKey: string, storeOk: bool, now: nat,
                       cdnUrl: Upload -> string, iso8601: nat -> string)
    returns (reply: Reply)
    requires db.Valid()
    modifies db
    ensures db.Valid()
    ensures db.users == old(db.users) && db.apiKeys == old(db.apiKeys)
    ensures match Authenticate(old(db.apiKeys), token)
            case Err(e) =>
              reply == e && db.uploads == old(db.uploads) && db.storedBlobs == old(db.storedBlobs)
            case Ok(userId) =>
              if !IsPresent(url) then
                reply == Reply(400, ErrorJson("Missing url parameter"))
                && db.uploads == old(db.uploads) && db.storedBlobs == old(db.storedBlobs)
              else
                var downloaded := UploadRecord.Download(fetch(UploadRecord.DownloadRequest(url.value, downloadAuth)));
                (reply.status == 201 <==> downloaded.Ok? && storeOk && UserIndex(old(db.users), userId).Some?)
                && (reply.status == 201 ==>
                      |db.uploads| == |old(db.uploads)| + 1 && db.uploads[..|old(db.uploads)|] == old(db.uploads)
                      && var row := db.uploads[|old(db.uploads)|];
                         row.id == old(db.nextId) && row.userId == userId && row.provenance == Api
                         && row.originalUrl == Some(url.value) && row.blob.byteSize == |downloaded.value.body|
                         && reply.body == UploadJsonOf(row, cdnUrl, iso8601))
                && (reply.status != 201 ==> db.uploads == old(db.uploads) && reply.status == 422
                                            && reply.body.ErrorJson? && StartsWith(reply.body.error, "Upload failed: "))
                && (downloaded.Err? ==> db.storedBlobs == old(db.storedBlobs)
                                        && reply == UploadFailed(downloaded.error))
  {
    var auth := Authenticate(db.apiKeys, token);
    if auth.Err? {
      return auth.error;
    }
    if !IsPresent(url) {
      return Reply(400, ErrorJson("Missing url parameter"));
    }
    var created := UploadRecord.CreateFromUrl(db, fetch, url.value, auth.value, Api, url, downloadAuth, None,
                                              sniffed, blobKey, storeOk, now);
    match created
    case Ok(u) =>
      reply := Reply(201, UploadJsonOf(u, cdnUrl, iso8601));
    case Err(e) =>
      reply := UploadFailed(e);
  }
}
