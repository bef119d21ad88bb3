/**
 * app/models/upload.rb: creating an upload from a URL (download, then blob,
 * then record), destroying one (the row, then its blob), and the direct
 * assets URL. The HTTP client is a `Fetcher`; the MIME sniffer's verdict,
 * the blob key Active Storage draws and whether the object-store write
 * succeeds are parameters.
 */
module UploadRecord {
  import opened Common
  import opened Http
  import opened Records
  import Users

  /** The GET `create_from_url` sends: an Authorization header only when one is present. */
  function DownloadRequest(url: string, authorization: Option<string>): (req: Request)
    ensures "Authorization" in req.headers <==> IsPresent(authorization)
    ensures "Authorization" in req.headers ==> req.headers["Authorization"] == authorization.value
    ensures req.headers.Keys <= {"Authorization"} && req.url == url
  {
    Request(url, if IsPresent(authorization) then map["Authorization" := authorization.value] else map[])
  }

  /** The download step: the response when it is a 2xx, otherwise the message raised. */
  function Download(reply: Result<Response, string>): (r: Result<Response, string>)
    ensures r.Ok? <==> reply.Ok? && IsSuccess(reply.value)
    ensures r.Ok? ==> r == reply
    ensures reply.Ok? && IsRedirect(reply.value) ==>
              StartsWith(r.error, "Failed to download: " + IntToString(reply.value.status) + " redirect to ")
    ensures reply.Ok? && !IsRedirect(reply.value) && !IsSuccess(reply.value) ==>
              r.error == "Failed to download: " + IntToString(reply.value.status)
  {
    match reply
    case Err(e) => Err(e)
    case Ok(resp) =>
      if IsRedirect(resp) then
        Err("Failed to download: " + IntToString(resp.status) + " redirect to "
            + (match Header(resp.headers, "location") case Some(l) => l case None => ""))
      else if !IsSuccess(resp) then Err("Failed to download: " + IntToString(resp.status))
      else Ok(resp)
  }

  /** The stored name: the given one, or the basename of the URL's path. */
  function DownloadedName(url: string, filename: Option<string>): (name: string)
    ensures filename.Some? ==> name == filename.value
    ensures filename.None? ==> name == "/" || '/' !in name
  {
    match filename
    case Some(f) => f
    case None => RubyBasename(UrlPath(url))
  }

  /** The content type: the sniffed one, else the response's header, else the generic binary type. */
  function DownloadedType(sniffed: Option<string>, headers: Headers): (t: string)
    ensures sniffed.Some? ==> t == sniffed.value
    ensures sniffed.None? && "content-type" in headers ==> t == headers["content-type"]
    ensures sniffed.None? && "content-type" !in headers ==> t == "application/octet-stream"
  {
    match sniffed
    case Some(t) => t
    case None =>
      match Header(headers, "content-type")
      case Some(t) => t
      case None => "application/octet-stream"
  }

  /**
   * `Upload.create_from_url`. Nothing is written unless the download
   * answered 2xx; the blob is written before the record, and the record
   * (whose owner must exist) refers to that blob.
   */
  method CreateFromUrl(db: Db, fetch: Fetcher, url: string, userId: nat, provenance: Provenance,
                       originalUrl: Option<string>, authorization: Option<string>, filename: Option<string>,
                       sniffed: Option<string>, blobKey: string, storeOk: bool, now: nat)
    returns (r: Result<Upload, string>)
    requires db.Valid()
    modifies db
    ensures db.Valid()
    ensures var reply := fetch(DownloadRequest(url, authorization));
            match Download(reply)
            case Err(e) =>
              r == Err(e) && db.storedBlobs == old(db.storedBlobs) && db.uploads == old(db.uploads)
            case Ok(resp) =>
              var blob := Blob(blobKey, DownloadedName(url, filename), DownloadedType(sniffed, resp.headers), |resp.body|);
              var row := Upload(old(db.nextId), userId, blob, provenance, originalUrl, now);
              (r.Ok? <==> storeOk && UserIndex(old(db.users), userId).Some?)
              && db.storedBlobs == (if storeOk then old(db.storedBlobs) + {blobKey} else old(db.storedBlobs))
              && db.uploads == (if r.Ok? then old(db.uploads) + [row] else old(db.uploads))
              && (r.Ok? ==> r.value == row)
    ensures db.users == old(db.users) && db.apiKeys == old(db.apiKeys)
  {
    var request := DownloadRequest(url, authorization);
    var downloaded := Download(fetch(request));
    if downloaded.Err? {
      return Err(downloaded.error);
    }
    var resp := downloaded.value;
    var name := DownloadedName(url, filename);
    var contentType := DownloadedType(sniffed, resp.headers);
    if !storeOk {
      return Err("Failed to upload blob " + blobKey);
    }
    db.StoreBlob(blobKey);
    if UserIndex(db.users, userId).None? {
      return Err("Validation failed: User must exist");
    }
    var row := Upload(0, userId, Blob(blobKey, name, contentType, |resp.body|), provenance, originalUrl, now);
    var id := db.InsertUpload(row);
    r := Ok(row.(id := id));
  }

  /**
   * `upload.destroy!` with its `purge_blob` callback: the row goes, then the
   * blob; a blob already missing from the store (NoSuchKey) is not an error.
   * The owner's total shrinks by exactly the upload's size.
   */
  method Destroy(db: Db, i: nat) returns (purged: bool)
    requires db.Valid() && i < |db.uploads|
    modifies db
    ensures db.Valid()
    ensures db.uploads == old(db.uploads[..i] + db.uploads[i + 1..])
    ensures db.storedBlobs == old(db.storedBlobs) - {old(db.uploads[i].blob.key)}
    ensures purged == (old(db.uploads[i].blob.key) in old(db.storedBlobs))
    ensures forall userId: nat ::
              Users.TotalStorageBytes(db.uploads, userId) + Users.Share(old(db.uploads[i]), userId)
              == Users.TotalStorageBytes(old(db.uploads), userId)
    ensures db.users == old(db.users) && db.apiKeys == old(db.apiKeys) && db.nextId == old(db.nextId)
  {
    var upload := db.uploads[i];
    db.DeleteUpload(i);
    forall userId: nat
      ensures Users.TotalStorageBytes(db.uploads, userId) + Users.Share(upload, userId)
              == Users.TotalStorageBytes(old(db.uploads), userId)
    {
      Users.StorageAfterDelete(old(db.uploads), i, userId);
    }
    purged := db.PurgeBlob(upload.blob.key);
  }

  /** `assets_url`: the public R2 address "https://<host>/<id>/<sanitized filename>". */
  function AssetsUrl(hostEnv: Option<string>, id: nat, sanitizedName: string): (url: string)
    ensures StartsWith(url, "https://") && EndsWith(url, "/" + sanitizedName)
  {
    var host := match hostEnv case Some(h) => h case None => "cdn.hackclub-assets.com";
    "https://" + host + "/" + NatToString(id) + "/" + sanitizedName
  }

  /** Under one host, an assets URL names exactly one upload and file name. */
  lemma AssetsUrlInjective(hostEnv: Option<string>, id1: nat, n1: string, id2: nat, n2: string)
    requires AssetsUrl(hostEnv, id1, n1) == AssetsUrl(hostEnv, id2, n2)
    ensures id1 == id2 && n1 == n2
  {
    var host := match hostEnv case Some(h) => h case None => "cdn.hackclub-assets.com";
    var prefix := "https://" + host + "/";
    var u1, u2 := AssetsUrl(hostEnv, id1, n1), AssetsUrl(hostEnv, id2, n2);
    assert u1 == prefix + (NatToString(id1) + ['/'] + n1);
    assert u2 == prefix + (NatToString(id2) + ['/'] + n2);
    assert NatToString(id1) + ['/'] + n1 == u1[|prefix|..];
    assert NatToString(id2) + ['/'] + n2 == u2[|prefix|..];
    DigitsThenSeparator(NatToString(id1), NatToString(id2), '/', n1, n2);
    NatToStringInjective(id1, id2);
  }
}
