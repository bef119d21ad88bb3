/**
 * src/gateways/legacy.rs: the four upload endpoints of the legacy Rust
 * service. Each reads the caller's Slack token from the
 * x-download-authorization header, runs the uploader on every URL it was
 * given, and shapes the results: v1 lists the deployed URLs, v2 maps each
 * file key to its deployed URL, v3 returns the results with the CDN base,
 * and /api/upload returns its single result. When any upload fails the
 * whole request answers with that error.
 *
 * The uploader (`LegacyDelegate.MultiplexedUploader`) is a parameter here:
 * a function from the call made to its result. A handler returns the calls
 * it made along with the body it answers, so what it forwards can be stated.
 * `try_join_all` runs the uploads concurrently and fails with the first
 * error to arrive; here the uploads run in input order and the error is that
 * of the first failing URL.
 */
module LegacyGateways {
  import opened Common
  import opened Http
  import opened DelegateError
  import CD = CdnDelegate

  const DOWNLOAD_AUTHORIZATION := "x-download-authorization"

  /** The header's value as text; None when it is absent or not visible ASCII. */
  function SlackToken(headers: Headers): (token: Option<string>)
    ensures token.Some? <==> DOWNLOAD_AUTHORIZATION in headers && HeaderToStr(headers[DOWNLOAD_AUTHORIZATION]).Some?
    ensures token.Some? ==> token.value == headers[DOWNLOAD_AUTHORIZATION]
  {
    match Header(headers, DOWNLOAD_AUTHORIZATION)
    case None => None
    case Some(value) => HeaderToStr(value)
  }

  /** One call of the uploader: the URL, whether to hash, and the Slack token. */
  datatype Call = Call(url: string, hash: bool, slack: Option<string>)

  type Uploader = Call -> Result<CD.UploadResult, ApiError>

  /** What a handler answers. */
  datatype Body =
    | DeployedUrls(urls: seq<string>)
    | FileUrls(byFile: map<string, string>)
    | FilesWithBase(uploads: seq<CD.UploadResult>, cdnBase: string)
    | Single(result: CD.UploadResult)
    | Failure(response: JsonResponse)

  datatype Handled = Handled(calls: seq<Call>, body: Body)

  /** One call per URL, in order, each with the same hashing flag and token. */
  function Calls(urls: seq<string>, hash: bool, slack: Option<string>): (calls: seq<Call>)
    ensures |calls| == |urls|
    ensures forall i :: 0 <= i < |urls| ==> calls[i] == Call(urls[i], hash, slack)
  {
    if |urls| == 0 then [] else [Call(urls[0], hash, slack)] + Calls(urls[1..], hash, slack)
  }

  /** The uploader's result for each call. */
  function Run(calls: seq<Call>, upload: Uploader): (results: seq<Result<CD.UploadResult, ApiError>>)
    ensures |results| == |calls|
    ensures forall i :: 0 <= i < |calls| ==> results[i] == upload(calls[i])
  {
    if |calls| == 0 then [] else [upload(calls[0])] + Run(calls[1..], upload)
  }

  /** `try_join_all`: every result when all succeed, else the first error. */
  function TryJoinAll(results: seq<Result<CD.UploadResult, ApiError>>): (r: Result<seq<CD.UploadResult>, ApiError>)
    ensures r.Ok? <==> forall i :: 0 <= i < |results| ==> results[i].Ok?
    ensures r.Ok? ==> |r.value| == |results| && forall i :: 0 <= i < |results| ==> r.value[i] == results[i].value
    ensures r.Err? ==> exists k :: 0 <= k < |results| && results[k] == Err(r.error)
                                   && forall j :: 0 <= j < k ==> results[j].Ok?
  {
    if |results| == 0 then Ok([])
    else if results[0].Err? then Err(results[0].error)
    else
      match TryJoinAll(results[1..])
      case Err(e) =>
        assert exists k :: 1 <= k < |results| && results[k] == Err(e) && forall j :: 1 <= j < k ==> results[j].Ok? by {
          var k' :| 0 <= k' < |results[1..]| && results[1..][k'] == Err(e) && forall j :: 0 <= j < k' ==> results[1..][j].Ok?;
          assert results[k' + 1] == Err(e);
        }
        Err(e)
      case Ok(rest) => Ok([results[0].value] + rest)
  }

  /** The results collected into a map from file key to deployed URL, one insert per result in order. */
  function FileMap(results: seq<CD.UploadResult>): (m: map<string, string>)
    ensures |results| > 0 ==> results[|results| - 1].file in m && m[results[|results| - 1].file] == results[|results| - 1].deployedUrl
  {
    if |results| == 0 then map[]
    else
      var last := results[|results| - 1];
      FileMap(results[..|results| - 1])[last.file := last.deployedUrl]
  }

  /**
   * A handler that joins its uploads fails exactly when one of its calls
   * fails, and then answers the error of a failing call.
   */
  predicate FailsWithACallsError(calls: seq<Call>, upload: Uploader, b: Body)
  {
    && (b.Failure? <==> exists i :: 0 <= i < |calls| && upload(calls[i]).Err?)
    && (b.Failure? ==> exists i :: 0 <= i < |calls| && upload(calls[i]).Err?
                                   && b.response == IntoResponse(upload(calls[i]).error))
  }

  /** `v1_new`: the deployed URLs, without hashing. */
  function V1New(headers: Headers, body: seq<string>, upload: Uploader): (h: Handled)
    ensures h.calls == Calls(body, false, SlackToken(headers))
    ensures FailsWithACallsError(h.calls, upload, h.body)
    ensures !h.body.Failure? ==> h.body.DeployedUrls?
  {
    var calls := Calls(body, false, SlackToken(headers));
    match TryJoinAll(Run(calls, upload))
    case Err(e) => Handled(calls, Failure(IntoResponse(e)))
    case Ok(results) => Handled(calls, DeployedUrls(DeployedUrlsOf(results)))
  }

  function DeployedUrlsOf(results: seq<CD.UploadResult>): (urls: seq<string>)
    ensures |urls| == |results| && forall i :: 0 <= i < |results| ==> urls[i] == results[i].deployedUrl
  {
    if |results| == 0 then [] else [results[0].deployedUrl] + DeployedUrlsOf(results[1..])
  }

  /** `v2_new`: file key to deployed URL, without hashing. */
  function V2New(headers: Headers, body: seq<string>, upload: Uploader): (h: Handled)
    ensures h.calls == Calls(body, false, SlackToken(headers))
    ensures FailsWithACallsError(h.calls, upload, h.body)
    ensures !h.body.Failure? ==> h.body.FileUrls?
  {
    var calls := Calls(body, false, SlackToken(headers));
    match TryJoinAll(Run(calls, upload))
    case Err(e) => Handled(calls, Failure(IntoResponse(e)))
    case Ok(results) => Handled(calls, FileUrls(FileMap(results)))
  }

  /** `v3_new`: the results, hashed, with the CDN base. */
  function V3New(headers: Headers, body: seq<string>, upload: Uploader, cdnBase: string): (h: Handled)
    ensures h.calls == Calls(body, true, SlackToken(headers))
    ensures FailsWithACallsError(h.calls, upload, h.body)
    ensures !h.body.Failure? ==> h.body.FilesWithBase?
  {
    var calls := Calls(body, true, SlackToken(headers));
    match TryJoinAll(Run(calls, upload))
    case Err(e) => Handled(calls, Failure(IntoResponse(e)))
    case Ok(results) => Handled(calls, FilesWithBase(results, cdnBase))
  }

  /** `singleton_upload`: one URL, without hashing. */
  function SingletonUpload(headers: Headers, body: string, upload: Uploader): (h: Handled)
    ensures h.calls == [Call(body, false, SlackToken(headers))]
    ensures FailsWithACallsError(h.calls, upload, h.body)
    ensures !h.body.Failure? ==> h.body == Single(upload(h.calls[0]).value)
  {
    var call := Call(body, false, SlackToken(headers));
    match upload(call)
    case Err(e) =>
      assert [call][0] == call;
      Handled([call], Failure(IntoResponse(e)))
    case Ok(result) => Handled([call], Single(result))
  }

  // ---------------------------------------------------------------------
  // Properties

  /**
   * Only v3 asks for hashing, and every call of every endpoint forwards the
   * caller's token, one call per URL in the order given.
   */
  lemma HashOnlyForV3(headers: Headers, body: seq<string>, single: string, upload: Uploader, cdnBase: string)
    ensures var token := SlackToken(headers);
            && (forall c :: c in V1New(headers, body, upload).calls ==> !c.hash && c.slack == token)
            && (forall c :: c in V2New(headers, body, upload).calls ==> !c.hash && c.slack == token)
            && (forall c :: c in SingletonUpload(headers, single, upload).calls ==> !c.hash && c.slack == token)
            && (forall c :: c in V3New(headers, body, upload, cdnBase).calls ==> c.hash && c.slack == token)
            && |V3New(headers, body, upload, cdnBase).calls| == |body|
  {
  }

  /** v1 answers the deployed URLs in the order of the URLs given. */
  lemma V1InInputOrder(headers: Headers, body: seq<string>, upload: Uploader)
    requires forall i :: 0 <= i < |body| ==> upload(Call(body[i], false, SlackToken(headers))).Ok?
    ensures var b := V1New(headers, body, upload).body;
            && b.DeployedUrls? && |b.urls| == |body|
            && forall i :: 0 <= i < |body| ==>
                 b.urls[i] == upload(Call(body[i], false, SlackToken(headers))).value.deployedUrl
  {
    var calls := Calls(body, false, SlackToken(headers));
    assert forall i :: 0 <= i < |body| ==> Run(calls, upload)[i] == upload(Call(body[i], false, SlackToken(headers)));
  }

  /** A single failing URL fails the whole v1 request with the error of the first one that fails. */
  lemma V1AnyFailureFailsAll(headers: Headers, body: seq<string>, upload: Uploader, k: nat)
    requires k < |body| && upload(Call(body[k], false, SlackToken(headers))).Err?
    ensures var b := V1New(headers, body, upload).body;
            && b.Failure?
            && exists i :: 0 <= i <= k && upload(Call(body[i], false, SlackToken(headers))).Err?
                           && b.response == IntoResponse(upload(Call(body[i], false, SlackToken(headers))).error)
  {
    var calls := Calls(body, false, SlackToken(headers));
    var results := Run(calls, upload);
    assert results[k].Err?;
    var r := TryJoinAll(results);
    var i :| 0 <= i < |results| && results[i] == Err(r.error) && forall j :: 0 <= j < i ==> results[j].Ok?;
    assert i <= k;
  }

  /** A single failing URL fails the whole v2 request with the error of the first one that fails. */
  lemma V2AnyFailureFailsAll(headers: Headers, body: seq<string>, upload: Uploader, k: nat)
    requires k < |body| && upload(Call(body[k], false, SlackToken(headers))).Err?
    ensures var b := V2New(headers, body, upload).body;
            && b.Failure?
            && exists i :: 0 <= i <= k && upload(Call(body[i], false, SlackToken(headers))).Err?
                           && b.response == IntoResponse(upload(Call(body[i], false, SlackToken(headers))).error)
  {
    var calls := Calls(body, false, SlackToken(headers));
    var results := Run(calls, upload);
    assert results[k].Err?;
    var r := TryJoinAll(results);
    var i :| 0 <= i < |results| && results[i] == Err(r.error) && forall j :: 0 <= j < i ==> results[j].Ok?;
    assert i <= k;
  }

  /** A single failing URL fails the whole v3 request with the error of the first one that fails. */
  lemma V3AnyFailureFailsAll(headers: Headers, body: seq<string>, upload: Uploader, cdnBase: string, k: nat)
    requires k < |body| && upload(Call(body[k], true, SlackToken(headers))).Err?
    ensures var b := V3New(headers, body, upload, cdnBase).body;
            && b.Failure?
            && exists i :: 0 <= i <= k && upload(Call(body[i], true, SlackToken(headers))).Err?
                           && b.response == IntoResponse(upload(Call(body[i], true, SlackToken(headers))).error)
  {
    var calls := Calls(body, true, SlackToken(headers));
    var results := Run(calls, upload);
    assert results[k].Err?;
    var r := TryJoinAll(results);
    var i :| 0 <= i < |results| && results[i] == Err(r.error) && forall j :: 0 <= j < i ==> results[j].Ok?;
    assert i <= k;
  }

  /** A successful v3 answers every result, in order, with the CDN base. */
  lemma V3Results(headers: Headers, body: seq<string>, upload: Uploader, cdnBase: string)
    requires forall i :: 0 <= i < |body| ==> upload(Call(body[i], true, SlackToken(headers))).Ok?
    ensures var b := V3New(headers, body, upload, cdnBase).body;
            && b.FilesWithBase? && b.cdnBase == cdnBase && |b.uploads| == |body|
            && forall i :: 0 <= i < |body| ==> b.uploads[i] == upload(Call(body[i], true, SlackToken(headers))).value
  {
    var calls := Calls(body, true, SlackToken(headers));
    assert forall i :: 0 <= i < |body| ==> Run(calls, upload)[i] == upload(Call(body[i], true, SlackToken(headers)));
  }

  /**
   * A successful v2 maps the file key of every upload, and no other key, to
   * a deployed URL; when several URLs give the same key, the last one's URL
   * is kept.
   */
  lemma {:induction false} V2Results(headers: Headers, body: seq<string>, upload: Uploader)
    requires forall i :: 0 <= i < |body| ==> upload(Call(body[i], false, SlackToken(headers))).Ok?
    ensures var h := V2New(headers, body, upload);
            && h.body.FileUrls?
            && (forall key :: key in h.body.byFile <==>
                  exists i :: 0 <= i < |body| && upload(h.calls[i]).value.file == key)
            && (forall i ::
                  (0 <= i < |body| && forall j :: i < j < |body| ==> upload(h.calls[j]).value.file != upload(h.calls[i]).value.file)
                  ==> h.body.byFile[upload(h.calls[i]).value.file] == upload(h.calls[i]).value.deployedUrl)
  {
    var h := V2New(headers, body, upload);
    var results := V2Uploads(headers, body, upload);
    forall key
      ensures key in FileMap(results) <==> exists i :: 0 <= i < |results| && results[i].file == key
    {
      FileMapKeys(results, key);
    }
    forall i | 0 <= i < |results| && (forall j :: i < j < |results| ==> results[j].file != results[i].file)
      ensures FileMap(results)[results[i].file] == results[i].deployedUrl
    {
      FileMapLastWins(results, i);
    }
  }

  /** The results a successful v2 collects into its map, one per call. */
  lemma V2Uploads(headers: Headers, body: seq<string>, upload: Uploader) returns (results: seq<CD.UploadResult>)
    requires forall i :: 0 <= i < |body| ==> upload(Call(body[i], false, SlackToken(headers))).Ok?
    ensures var h := V2New(headers, body, upload);
            && h.body == FileUrls(FileMap(results)) && |results| == |body|
            && forall i :: 0 <= i < |body| ==> results[i] == upload(h.calls[i]).value
  {
    var calls := Calls(body, false, SlackToken(headers));
    results := TryJoinAll(Run(calls, upload)).value;
  }

  /** The v2 map has a key for each result's file, and no other. */
  lemma {:induction false} FileMapKeys(results: seq<CD.UploadResult>, key: string)
    ensures key in FileMap(results) <==> exists i :: 0 <= i < |results| && results[i].file == key
  {
    if |results| > 0 {
      var n := |results| - 1;
      FileMapKeys(results[..n], key);
      if key in FileMap(results[..n]) {
        var i :| 0 <= i < n && results[..n][i].file == key;
        assert results[i].file == key;
      }
      if exists i :: 0 <= i < |results| && results[i].file == key {
        var i :| 0 <= i < |results| && results[i].file == key;
        if i < n {
          assert results[..n][i].file == key;
        }
      }
    }
  }

  /** When two results share a file key, the later one's URL is the one kept. */
  lemma {:induction false} FileMapLastWins(results: seq<CD.UploadResult>, i: nat)
    requires i < |results| && forall j :: i < j < |results| ==> results[j].file != results[i].file
    ensures results[i].file in FileMap(results) && FileMap(results)[results[i].file] == results[i].deployedUrl
  {
    var n := |results| - 1;
    if i < n {
      FileMapLastWins(results[..n], i);
    }
  }
}
