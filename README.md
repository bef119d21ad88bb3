# Hack Club CDN, modelled in Dafny

This project models the decision logic of the Hack Club CDN, a file-hosting
service that has been rewritten several times and whose generations live side
by side in one repository:

- the Slack relays (Node): `src/storage.js` and `src/fileUpload.js` fetch the files
  posted in a channel, store them in a bucket and answer in the thread,
  with the message texts of `src/config/messages.js`;
- the legacy Express API (`src/api/*.js`) and the Hono API
  (`src/routes/upload.ts`, `src/middleware.ts`), over the S3 writer
  `src/storage.ts` with its multipart path;
- the Rails application: quota policies and the quota service, users,
  uploads, API keys, public ids, the documentation pages, the Pundit
  policies, the web, admin, external and v4 API controllers, the Slack
  events endpoint and the Slack upload job;
- the legacy Rust service (`src/*.rs`): the multiplexed uploader, the v1/v2/v3
  and single-URL endpoints, and the sled counters;
- the Rust CDN service (`cdn/src`): its uploader, error mapping, file
  deletion, API-key middleware, sessions, dashboard and metrics.

Every entity that the source updates in place is a class whose methods say,
under `modifies`, what they change. Examples are the bucket, the
processed-message maps, the Rails tables, the session store and the sled tree.
Values are datatypes, and pure code is functions with lemmas beside them. The
outside world comes in as parameters: network responses, the clock, random
bytes, SHA-1, HMAC-SHA256 and UUIDs. Failures of S3 and the database are explicit
fault sets. Each operation is proved against a specification function or an
invariant, and the properties the code promises are lemmas about those.

## Model

| member | source | states |
|---|---|---|
| StorageWriter.ReplaceUnsafe | src/storage.ts:42 | the pattern has no `u` flag, so it replaces UTF-16 code units: the result has as many characters as the input has code units and uses only `[A-Za-z0-9._-]`; for input within the Basic Multilingual Plane each character outside `[A-Za-z0-9.-]` becomes `_` in place and every other character is kept |
| StorageWriter.ReplaceUnsafeAppend | src/storage.ts:42 | the replacement works character by character: replacing a concatenation concatenates the replacements |
| StorageWriter.ReplaceUnsafeSurrogatePair | src/storage.ts:42 | `a😀b` becomes `a__b`: both halves of the surrogate pair are replaced |
| StorageWriter.SanitizeFileName | src/storage.ts:41-44 | the name is never empty and uses only `[A-Za-z0-9._-]`; a non-empty input gives one character per UTF-16 code unit, so a character above U+FFFF becomes `__`; for input within the Basic Multilingual Plane its safe characters stay where they are and the others become `_`; an empty input gives `upload_<now>` |
| StorageWriter.ReplaceUnsafeKeepsSanitized | src/storage.ts:42 | text that is already sanitized passes through the replacement unchanged |
| StorageWriter.SanitizeIdempotent | src/storage.ts:41-44 | sanitizing a sanitized name changes nothing, whatever the clock reads the second time |
| StorageWriter.UniqueFileName | src/storage.ts:46-49 | the unique name starts with `<now>-`, ends with `-` and the sanitized name, and uses only `[A-Za-z0-9._-]` |
| StorageWriter.NamePartsInjective | src/storage.ts:46-49 | `<now>-<hex>-<name>` with a fixed-width hex part splits back into its three parts in only one way |
| StorageWriter.UniqueFileNameInjective | src/storage.ts:46-49 | two equal unique names come from the same timestamp, the same 8 random bytes and the same sanitized name |
| StorageWriter.FileUrlNamesObjectKey | src/storage.ts:51-53 | the public URL is the CDN base, a slash and the object key `<userDir>/<fileName>`, and it ends in `/<fileName>` |
| StorageWriter.ObjectKey | src/storage.ts:86 | the key starts with `<userDir>/` and ends with `/<fileName>` |
| StorageWriter.FileUrl | src/storage.ts:51-53 | the public URL starts with the CDN base and a slash |
| StorageWriter.CeilDiv | src/storage.ts:164 | the part count is zero exactly when the buffer is empty |
| StorageWriter.CeilDivBounds | src/storage.ts:164 | `Math.ceil(a / b)`: `q * b >= a` and `(q - 1) * b < a` |
| StorageWriter.CeilDivMonotone | src/storage.ts:164 | a larger buffer never needs fewer parts of the same size |
| StorageWriter.CalculatePartSize | src/storage.ts:55-71 | the part size always lies in [5 MiB, 100 MiB] |
| StorageWriter.PartSizeTiers | src/storage.ts:60-70 | 5 MiB up to and including 100 MiB (strict `>` tests), 10 MiB on (100, 500] MiB, 25 MiB on (500, 1024] MiB, 50 MiB above 1 GiB up to 1000 parts of 50 MiB |
| StorageWriter.PartSizeMonotone | src/storage.ts:55-71 | the part size never decreases as the file grows |
| StorageWriter.PartCountWithinMaxParts | src/storage.ts:58-70 | any file of at most 1000 × 100 MiB is cut into at most 1000 parts |
| StorageWriter.PartCountForAcceptedFiles | src/storage.ts:15 | a file within `MAX_FILE_SIZE` (2 GiB) is cut into at most 50 parts |
| StorageWriter.PartSizeExamples | src/storage.ts:66-70 | 50 MiB gives 5 MiB parts, 101 MiB gives 10 MiB, 2 GiB gives 50 MiB |
| StorageWriter.PartOffsets | src/storage.ts:164-170 | the start offset of part n lies inside the buffer exactly for n in 1..ceil(len / partSize) |
| StorageWriter.PartOffsetIsProduct | src/storage.ts:169 | part n starts at byte (n - 1) · partSize |
| StorageWriter.Chunk | src/storage.ts:169-171 | each part is non-empty and at most partSize long, and every part but the last is exactly partSize long |
| StorageWriter.ChunksConcatenate | src/storage.ts:168-171 | appending part k to the bytes before it gives the buffer up to min(k · partSize, len): the parts are disjoint, contiguous and rebuild the buffer |
| StorageWriter.PartCalls | src/storage.ts:168-189 | k UploadPart calls are issued, the i-th with part number i + 1, the upload id and the i-th chunk |
| StorageWriter.CompletedList | src/storage.ts:191-192 | the completed-part list of k parts has k entries in strictly ascending part-number order |
| StorageWriter.SortByPartNumber | src/storage.ts:192 | sorting keeps the number of parts |
| StorageWriter.InsertPermutes | src/storage.ts:192 | inserting one part adds exactly that part to the multiset |
| StorageWriter.InsertByPartNumber | src/storage.ts:192 | inserting one part into a sorted list gives a list one longer |
| StorageWriter.InsertKeepsSorted | src/storage.ts:192 | inserting into a sorted list keeps it sorted by part number |
| StorageWriter.SortPermutes | src/storage.ts:192 | the sorted list is a permutation of the awaited parts |
| StorageWriter.SortSorts | src/storage.ts:192 | the sorted list is ascending by part number |
| StorageWriter.SortKeepsAscending | src/storage.ts:191-192 | `Promise.all` already yields parts in launch order, so the sort leaves the list unchanged |
| StorageWriter.AllPartsStored | src/storage.ts:168-199 | when no UploadPart failed, every part number sent to Complete names a stored part |
| StorageWriter.AssembleChunks | src/storage.ts:168-199 | when no UploadPart failed, joining the stored parts 1..k in list order gives the buffer up to min(k · partSize, len) |
| StorageWriter.SendParts | src/storage.ts:168-189 | one UploadPart call per part, in part order; part i yields an ETag exactly when its call does not fail; the open upload records exactly the parts that arrived |
| StorageWriter.AwaitAll | src/storage.ts:191 | succeeds exactly when every part has an ETag, with the list `(i + 1, etag_i)`; otherwise it reports a failed part, all parts before which succeeded |
| StorageWriter.MultipartPartFailed | src/storage.ts:191-219 | when a part fails, the calls after Create are the parts and then one Abort, and the upload reports that part's failure |
| StorageWriter.FirstFault | src/storage.ts:191-219 | the first failing part, if any: it lies in the range and fails, and every part before it succeeds; none means every part in the range succeeds |
| StorageWriter.MultipartCompleteFailed | src/storage.ts:194-219 | when every part succeeded but Complete fails (always so with zero parts), the calls are the parts, Complete and one Abort |
| StorageWriter.MultipartCompleted | src/storage.ts:194-203 | when every part and Complete succeed, the calls are the parts and Complete, no Abort, and the upload is stored |
| StorageWriter.AfterAllParts | src/storage.ts:191-219 | once every part succeeded, Complete is sent with parts 1..n, and Abort follows exactly when Complete fails |
| StorageWriter.CompletionReady | src/storage.ts:191-199 | the list built from all-successful part results is exactly parts 1..n, and each names a part the open upload holds |
| StorageWriter.CompletionAccepted | src/storage.ts:194-201 | with at least one part, the store accepts the Complete request, and the object it assembles equals the uploaded buffer |
| StorageWriter.ReadyToComplete | src/storage.ts:192-201 | sorting the list changes nothing; Complete is accepted exactly when there is at least one part, and the assembled object is the buffer |
| StorageWriter.FinishMultipart | src/storage.ts:163-220 | after Create, the result, the call log and the stored objects are those of the after-create specification; the key is written only on success |
| StorageWriter.CompleteAllParts | src/storage.ts:191-220 | with every part uploaded, Complete is sent with the sorted list; on success the object holds the buffer, otherwise one Abort closes the upload |
| StorageWriter.CompleteAfterParts | src/storage.ts:192-219 | Complete, then Abort only when Complete fails; the log, result and objects match the specification |
| StorageWriter.AbortAfterPartFailure | src/storage.ts:191-219 | when a part failed, no Complete is sent, one Abort for the upload id is sent, and the part's failure is reported |
| StorageWriter.CompleteOrAbort | src/storage.ts:194-219 | the object is stored only if Complete succeeds; otherwise exactly one Abort follows and the upload stays open only if that Abort fails |
| StorageWriter.UploadMultipart | src/storage.ts:144-221 | Create, all parts, sort, Complete; any failure after Create sends exactly one Abort; the result, log, objects and open uploads follow the multipart specification |
| StorageWriter.AfterCreate | src/storage.ts:153-163 | once Create succeeds, the outcome and the remaining calls are fixed by the part size computed from the buffer length |
| StorageWriter.PartCallsHaveNoAbort | src/storage.ts:168-189 | the UploadPart phase itself never sends Abort |
| StorageWriter.AbortedExactlyOnceAfterFailure | src/storage.ts:204-219 | the log holds exactly one Abort when Create succeeded and the upload failed, and none otherwise |
| StorageWriter.AbortsAfterCreate | src/storage.ts:204-219 | after Create, the calls hold one Abort on failure and none on success |
| StorageWriter.AbortsAfterPartFailure | src/storage.ts:191-219 | a failed part means failure and exactly one Abort |
| StorageWriter.AbortsAfterAllParts | src/storage.ts:194-219 | when all parts succeeded, Abort appears once exactly when Complete failed |
| StorageWriter.CompletionOnlyAfterAllParts | src/storage.ts:191-201 | a Complete call occurs only if Create and every UploadPart succeeded, and it carries parts 1..n |
| StorageWriter.ReportedErrorIsTheCause | src/storage.ts:204-219 | the reported failure is that of a call in the log that is not the Abort, so a failing Abort never replaces the original error |
| StorageWriter.FailureCauseAfterCreate | src/storage.ts:204-219 | after Create, the failure reported is the failed part or Complete call, never the Abort |
| StorageWriter.UploadToStorage | src/storage.ts:78-110 | a declared size of at least 10 MiB takes the multipart path; otherwise exactly one PutObject under `<userDir>/<name>` with the immutable cache directive; failures are returned as results, never raised |
| StorageWriter.UploadStream | src/storage.ts:112-142 | one managed upload of the stream under the key; the object is written exactly when it succeeds |
| StorageWriter.BearerAuthorizationNormalises | src/storage.ts:225-227 | the header always starts with `Bearer `, is left alone when it already does, is otherwise `Bearer ` plus the credential, and normalising twice changes nothing |
| StorageWriter.DownloadRequest | src/storage.ts:223-229 | the request goes to the URL, and carries an Authorization header, normalised to Bearer, exactly when a non-empty credential is given |
| StorageWriter.DownloadFileOutcome | src/storage.ts:223-236 | the download succeeds exactly on a 2xx reply and returns its body; any other status is an error `Download failed: <status> <text>` |
| StorageWriter.DownloadFile | src/storage.ts:223-236 | the download succeeds exactly when the fetch answers a 2xx reply; a transport error is passed on unchanged |
| ObjectStore.Bucket.constructor | src/storage.ts:19-39 | a fresh bucket holds no objects, no open uploads and an empty request log, with its failure oracle fixed |
| ObjectStore.Bucket.PutObject | src/storage.ts:93-102 | the request is logged; it succeeds unless the transport fails, and on success the key holds the body |
| ObjectStore.Bucket.ManagedUpload | src/storage.ts:121-135 | the managed upload is logged and writes the key exactly when it does not fail |
| ObjectStore.Bucket.CreateMultipartUpload | src/storage.ts:153-161 | on success a fresh upload id is opened for the key with no parts; on failure nothing but the log changes |
| ObjectStore.Bucket.UploadPart | src/storage.ts:174-187 | a part is recorded under its number, with an ETag, only for an open upload of the same key |
| ObjectStore.Bucket.CompleteMultipartUpload | src/storage.ts:194-201 | completion is accepted only for an open upload whose list is non-empty, ascending, names uploaded parts with their ETags and keeps every part but the last at least 5 MiB; the object is then the listed parts joined in order and the upload is closed |
| ObjectStore.Bucket.AbortMultipartUpload | src/storage.ts:207-213 | an abort of an open upload of that key closes it, unless the request fails |
| Quota.PolicyOf | app/models/quota.rb:4-8 | each table entry is keyed by its own slug |
| Quota.PolicyLookup | app/models/quota.rb:12 | a name resolves exactly when it is one of the three slugs, to that slug's entry; any other name has no policy (the `KeyError` of `fetch`) |
| Quota.PolicyTable | app/models/quota.rb:4-8 | unverified 10 MB / 50 MB, verified 100 MB / 50 GB, functionally_unlimited 500 MB / 300 GB |
| Quota.PoliciesOrdered | app/models/quota.rb:4-8 | every policy's per-file limit is at most its total, and both limits strictly increase along the table |
| Quota.AdminAssignableTiers | app/models/quota.rb:10 | the admin-assignable slugs are exactly the known slugs other than unverified |
| UploadRoutes.RawUrl | src/routes/upload.ts:145-150 | a body that is not JSON (or is `null`) is validated as raw text; a JSON value that is neither a string nor an object gives no URL string |
| UploadRoutes.DownloadFailure | src/routes/upload.ts:63-75 | a non-2xx download is `AUTH_FAILED` exactly for 401 and 403, otherwise `DOWNLOAD_FAILED` with the status text; the error carries the URL |
| UploadRoutes.NameFromUrl | src/routes/upload.ts:79 | the last URL segment, or `file` when that is empty; never empty and never holds `/` |
| UploadRoutes.StoredName | src/routes/upload.ts:78-81 | the stored name is `<sha>_<sanitised name>` and holds no `/` when the digest holds none |
| UploadRoutes.SanitizedName | src/routes/upload.ts:79-80 | the sanitised last segment is non-empty, free of `/` and uses only safe characters |
| UploadRoutes.ContentTypeOf | src/routes/upload.ts:82 | the content type is the response's `content-type` header, or `application/octet-stream` when it is missing or empty |
| UploadRoutes.FetchedFileOf | src/routes/upload.ts:77-94 | a fetched file reports the SHA-1 of the body, the body's length and the public URL of `s/v3/<sha>_<name>` |
| UploadRoutes.UploadFromUrl | src/routes/upload.ts:55-95 | a transport failure or non-2xx download stores nothing and rejects; a stored download writes exactly the body under its content-addressed key, and a failed write leaves the objects as they were |
| UploadRoutes.UrlOutcomeMeans | src/routes/upload.ts:55-95 | an upload resolves only after a 2xx download, and a rejection it raises names its own URL |
| UploadRoutes.FetchedUrlEndsInStoredName | src/routes/upload.ts:89-103 | the last URL segment of a fetched file is its stored name |
| Common.V2Keys | src/routes/upload.ts:102-106 | one v2 key per URL, the i-th being the index followed directly by the URL's last path segment; src/api/index.js:28-32 builds the same keys, and both route modules use this definition |
| Common.Mapped | src/routes/upload.ts:100 | `.map` keeps the length and order, the i-th output being f of the i-th input; both route modules list result URLs with it |
| UploadRoutes.FormatResponse | src/routes/upload.ts:97-118 | v1 is the URL list, v2 the index-keyed map of URLs, v3 one deployed entry per result in order with the CDN base |
| UploadRoutes.V2KeysDistinct | src/routes/upload.ts:102-106 | two different positions never share a v2 key when names start with a 40-digit SHA-1 |
| UploadRoutes.FetchedFileSegment | src/routes/upload.ts:81-90 | a fetched file's last URL segment is its digest, `_` and its sanitised name |
| UploadRoutes.V2ListsEveryFile | src/routes/upload.ts:102-106 | the v2 map has exactly one entry per fetched file and maps each file's key to its URL; no entry is overwritten |
| UploadRoutes.FirstRejected | src/routes/upload.ts:131 | `Promise.all` rejects exactly when some upload rejected, and then names a rejected position |
| UploadRoutes.Values | src/routes/upload.ts:131 | when every upload resolved, the values in order |
| UploadRoutes.BulkUpload | src/routes/upload.ts:120-138 | malformed JSON is a 500; a body that is not 1 to 100 strings is a 422 with nothing stored; otherwise every URL is fetched in order and the reply is the formatted results; when an upload rejected, the first rejection decides the 500: a plain rejection object gets the JSON `Internal server error` of the error middleware, a thrown `Error` the text `Internal Server Error` |
| UploadRoutes.UploadEach | src/routes/upload.ts:131 | every URL is fetched and stored in order, whatever happens to the others; each result is the outcome `uploadFromUrl` allows for its URL, and every fetched file is in the bucket afterwards, with no key lost |
| UploadRoutes.FailedDownloadFailsBatch | src/routes/upload.ts:63-131 | one refused download makes the whole bulk request fail |
| UploadRoutes.RejectionReply | src/middleware.ts:15-27 | every rejection is a 500; a plain rejection object is exactly what reaches the error middleware, whose JSON error is the reply; an `Error` instance gets the text `Internal Server Error` |
| UploadRoutes.SingleUrl | src/routes/upload.ts:145-175 | /upload goes ahead exactly for an http(s) URL that is not a Slack file without a credential; otherwise a 400 with the validation or `AUTH_REQUIRED` error |
| UploadRoutes.SingleReply | src/routes/upload.ts:177-185 | a resolved upload is a 200 with the file; any rejection is a 500 failure body |
| UploadRoutes.UploadSingle | src/routes/upload.ts:140-186 | a refused URL answers its 400 and stores nothing; an admitted one answers according to its fetch, and a 200 means the file is in the bucket |
| UploadRoutes.RefusedDownloadReply | src/routes/upload.ts:63-75 | a refused download answers 500 with the URL, as `AUTH_FAILED` exactly for 401 and 403 |
| UploadRoutes.MimeOrDefault | src/routes/upload.ts:202 | the content type of a form file is never empty |
| UploadRoutes.FormNames | src/routes/upload.ts:247 | one unique name per form entry, each from the file's name, the clock and its own random bytes |
| UploadRoutes.DirectFileOf | src/routes/upload.ts:213-217 | the reply for a stored form file gives its size, a non-empty type and the public URL of its key |
| UploadRoutes.StoreFormFile | src/routes/upload.ts:197-211 | a file over the size limit or a text field stores nothing; an accepted file is streamed once and, unless that write fails, stored under `s/v3/<name>` |
| UploadRoutes.UploadFile | src/routes/upload.ts:188-222 | no file is a 400, an oversized file a 413, both storing nothing; an accepted file is a 200 with its entry exactly when its write succeeds, otherwise a 500 |
| UploadRoutes.StreamCalls | src/routes/upload.ts:237-265 | the writes of a batch are one per accepted entry, in order |
| UploadRoutes.DirectFilesOf | src/routes/upload.ts:259-263 | one reply entry per form file, in order |
| UploadRoutes.StoreBatch | src/routes/upload.ts:237-265 | every accepted file is written; a text field or oversized file fails the batch; a successful batch has every file stored |
| UploadRoutes.StoreNext | src/routes/upload.ts:238-264 | one entry of the batch: it is written when acceptable, and the write log grows by exactly its call |
| UploadRoutes.UploadFiles | src/routes/upload.ts:224-272 | no files or more than 10 is a 400 storing nothing; otherwise every accepted file is written and the reply is 200 with all files stored, or a 500 when any entry failed |
| UploadRoutes.RefusedBatchStillStoresFiles | src/routes/upload.ts:237-265 | a batch refused because of a later text field has still written its earlier file |
| LegacyApi.GenerateUrl | src/api/utils.js:5-7 | the URL starts with `<cdn>/<version>/` and its last segment is the file name when that name holds no `/` |
| LegacyApi.ValidateToken | src/api/utils.js:9-18 | 200 with no body exactly when `split('Bearer ')[1]`, the text between the first `Bearer ` and the next one or the end, equals the configured token; otherwise 401 with the unauthorized error |
| LegacyApi.ValidateRequest | src/api/utils.js:20-38 | a bad token is 401 whatever the method; with a good token OPTIONS is 204, another non-POST method 405 with its error, and POST 200 |
| LegacyApi.BadTokenBeatsMethod | src/api/utils.js:21-25 | the token is checked before the method, so OPTIONS with a bad token is 401 |
| LegacyApi.ConfiguredTokenValidates | src/api/utils.js:9-37 | the configured token sent as `Bearer <token>` passes, and a POST with it is 200 |
| LegacyApi.DownloadRequest | src/api/upload.js:20-22 | the download carries the caller's Authorization header verbatim exactly when it is non-empty, and no other header |
| LegacyApi.TrailingSlashGetsFallbackName | src/api/upload.js:8-31 | a URL ending in `/` is stored as `<sha>_upload_<now>` |
| LegacyApi.StoredFileName | src/api/upload.js:26-30 | the stored name is the SHA-1, `_` and a sanitized name that is never empty |
| LegacyApi.UploadEndpoint | src/api/upload.js:17-47 | a thrown fetch rejects with its error, a non-2xx answer with `Download failed: <status text>`, a refused store with `Storage upload failed`; otherwise the public URL of `s/v3/<sha>_<name>`, the digest and the byte count |
| LegacyApi.FailedDownloadNeverStores | src/api/upload.js:24 | a failed download rejects whatever storage would do |
| LegacyApi.UploadedUrlEndsInName | src/api/upload.js:29-39 | an uploaded file's last URL segment is `<sha>_<sanitised last segment>`, free of `/` |
| LegacyApi.SlashFreeName | src/api/upload.js:31 | joining two slash-free parts with `_` gives a slash-free name |
| LegacyApi.FormatResponse | src/api/index.js:23-44 | version 1 is the URL list, 2 the index-keyed map, anything else the `{files, cdnBase}` shape with one `<i>_<basename>` entry per result |
| LegacyApi.V2ListsEveryFile | src/api/index.js:28-32 | with SHA-1 prefixed names the v2 map has one entry per result, each key mapped to its URL |
| LegacyApi.V2KeysDiffer | src/api/index.js:28-32 | two positions never produce the same v2 key |
| LegacyApi.UploadAll | src/api/index.js:57-59 | one upload per URL, in order, each with the caller's credential |
| LegacyApi.Values | src/api/index.js:57-59 | the resolved values, in order |
| LegacyApi.HandleBulkUpload | src/api/index.js:47-66 | 422 exactly for a non-array or empty body; 500 exactly when some URL fails, with no partial results; otherwise 200 with the formatted results |
| LegacyApi.V1KeepsOrder | src/api/index.js:26-61 | a v1 answer has one URL per input URL, in the input's order |
| LegacyApi.BulkVersion | src/api/index.js:69-72 | exactly the four bulk paths are routes, and /new answers like /v3/new |
| LegacyApi.UploadRoute | src/api/index.js:75-83 | the answer is 200 with the uploaded file or 500 `Storage upload failed`; a non-empty body is the URL |
| LegacyApi.Serve | src/api/index.js:9-20 | a refused token answers 401 before any route; an accepted one never does, and /health answers `{status: ok}` |
| LegacyApi.RefusedTokenFetchesNothing | src/api/index.js:9-15 | a refused request answers the same whatever the network and storage would do |
| LegacyApi.GateCredentialIsForwarded | src/api/upload.js:17-22 | the credential that passed the gate is forwarded verbatim to the download |
| HonoMiddleware.BearerToken | src/middleware.ts:5-6 | no token without a header or without `Bearer ` in it; a token never holds `Bearer ` itself |
| HonoMiddleware.SplitPieceFree | src/middleware.ts:6 | no piece of a split holds the separator |
| HonoMiddleware.Authenticate | src/middleware.ts:4-13 | a missing or wrong token answers 401 without running the handler; an accepted one answers with, or fails with, exactly what the handler does |
| HonoMiddleware.HandleErrors | src/middleware.ts:15-27 | a thrown error becomes a 500 `Internal server error`; any answer passes through unchanged |
| HonoMiddleware.BearerTokenOfHeader | src/middleware.ts:6 | `Bearer <t>` yields the token `t` |
| HonoMiddleware.ExactTokenPasses | src/middleware.ts:4-13 | the configured token, sent as a bearer credential, is accepted and the handler's answer comes back |
| HonoMiddleware.RejectionIgnoresNext | src/middleware.ts:8-10 | a refused request answers the same whatever the handler would do |
| HonoMiddleware.InternalErrorOnlyAfterAuthentication | src/middleware.ts:8-26 | the 500 appears exactly when the token was accepted and the handler threw |
| HonoMiddleware.UnsetTokenRefusesAll | src/middleware.ts:8-10 | with no API token configured every request is refused with 401 |
| StorageRelay.TooOldStaysTooOld | src/storage.js:21-27 | a message too old now stays too old later; a missing or future timestamp is never too old |
| StorageRelay.UniqueFileNameInjective | src/storage.js:61-65 | two equal unique names come from the same clock reading, the same 16 random bytes and the same sanitised name |
| StorageRelay.UniqueFileName | src/storage.js:60-64 | the unique name starts with `<now>-` and ends with `-` and the sanitized name |
| StorageRelay.ContentType | src/storage.js:111 | the content type is never empty and is the file's MIME type when Slack gave a non-empty one |
| StorageRelay.Names | src/storage.js:112 | one unique name per file, each from its own random draw |
| StorageRelay.DistinctDrawsDistinctNames | src/storage.js:61-65 | distinct random draws give distinct names for every file of a message |
| StorageRelay.UploadedUrlIsKey | src/storage.js:113-128 | an uploaded file's link is the CDN base followed by its bucket key `s/<user>/<name>` |
| StorageRelay.StorageFailureReportedAsUploaded | src/storage.js:115-121 | as written, a downloaded file the bucket refused is reported as uploaded; the corrected step reports it as failed |
| StorageRelay.StepAsWritten | src/storage.js:115-121 | as written, a file is reported uploaded exactly when it was downloaded, whether or not the bucket stored it |
| StorageRelay.Step | src/storage.js:102-128 | corrected: a file is uploaded exactly when it was downloaded and stored, under its unique name; a failure names the file |
| StorageRelay.StepAgreesWhenStored | src/storage.js:115-128 | when the bucket stores the file, the step as written and the corrected step agree |
| StorageRelay.UploadToStorage | src/storage.js:284-304 | one put of the body under `<dir>/<name>` with the immutable cache header; it answers true exactly when the bucket stored it, and only then do the objects change |
| StorageRelay.ProcessFile | src/storage.js:86-138 | the file's outcome is the corrected step: an oversized file or a failed download is a failure with nothing written; otherwise one put, and an upload exactly when it is stored |
| StorageRelay.Next | src/storage.js:78-139 | handling one more file appends exactly its outcome |
| StorageRelay.Run | src/storage.js:77-146 | one outcome per file, in order |
| StorageRelay.OutcomesAppend | src/storage.js:124-137 | one more outcome adds to the uploaded list or to the failed names, according to its kind |
| StorageRelay.UploadsAndFailuresPartition | src/storage.js:78-146 | every file ends up in exactly one of the two lists, and there are no failures exactly when every file was uploaded |
| StorageRelay.RunOutcome | src/storage.js:86-138 | a failure names its file; an upload is a downloaded file with its link; an oversized file or a failed download is always a failure |
| StorageRelay.ObjectKeyInjective | src/storage.js:288 | in one directory, different names give different keys |
| StorageRelay.UploadedFilesAreStored | src/storage.js:102-128 | with distinct names, every file reported uploaded is in the bucket with exactly its downloaded bytes |
| StorageRelay.ProcessNext | src/storage.js:78-139 | one turn of the loop extends the uploaded and failed lists and the bucket exactly as the next step says |
| StorageRelay.NextState | src/storage.js:102-121 | the bucket after one file is the bucket the step specification describes |
| StorageRelay.LinkLines | src/storage.js:211 | one `• <name>: <url>` line per uploaded file, in order |
| StorageRelay.LinksTextIsLines | src/storage.js:208-212 | without failures the reply is the greeting followed by the link lines |
| StorageRelay.FailuresAppended | src/storage.js:213-215 | failures add a blank line and `Failed to process:` with the names joined by commas |
| StorageRelay.ResultsTextIsLines | src/storage.js:207-215 | the reply is its lines joined by line feeds |
| StorageRelay.SingleLinesConcat | src/storage.js:207-215 | lines free of line feeds stay so when concatenated |
| StorageRelay.GreetingSingle | src/storage.js:208-210 | the greeting is one line for a user id without line feeds |
| StorageRelay.LinkLinesSingle | src/storage.js:211 | each link line is one line when names and URLs hold no line feed |
| StorageRelay.FailureLineSingle | src/storage.js:214 | the failure block is one blank line and one line of names |
| StorageRelay.ResultsTextReadBack | src/storage.js:207-215 | splitting the reply at line feeds gives back exactly its greeting, link and failure lines |
| StorageRelay.CheckMarkIffAllUploaded | src/storage.js:150-161 | the final reaction is the check mark exactly when no file failed, otherwise the cross |
| StorageRelay.ConversationSteps | src/storage.js:249-266 | the Slack calls of a message are the beachball, the threaded reply, the beachball's removal and the final reaction, in that order |
| StorageRelay.Relay.constructor | src/storage.js:10-11 | a new relay has processed no message and made no Slack call |
| StorageRelay.Relay.MarkMessageAsProcessing | src/storage.js:30-36 | the timestamp is recorded as processed, and nothing is sent |
| StorageRelay.Relay.ProcessFiles | src/storage.js:68-147 | the uploaded and failed lists and the bucket are those of running every file in order (with the corrected step, see Findings) |
| StorageRelay.Relay.TakeOn | src/storage.js:257-266 | the message is marked, its files processed and the four Slack calls made with the results (with the corrected step, see Findings) |
| StorageRelay.Relay.HandleFileUpload | src/storage.js:249-273 | a message too old, not found or already processed changes nothing; any other is taken on exactly once (with the corrected step, see Findings) |
| FileUploadRelay.Evicted | src/fileUpload.js:38-46 | eviction only removes marks and keeps the time of every mark it leaves |
| FileUploadRelay.LiveIffRecent | src/fileUpload.js:38-46 | after eviction a message counts as processed exactly when it was marked at most 24 hours ago |
| FileUploadRelay.LiveTwice | src/fileUpload.js:38-46 | evicting at an earlier and then a later time is the same as evicting once at the later time |
| FileUploadRelay.MarkSurvives | src/fileUpload.js:38-50 | a mark at most 24 hours old survives eviction and marking another message |
| FileUploadRelay.TooBigNeverDownloaded | src/fileUpload.js:73-76 | a file over 50 MiB is a size failure whatever the network and the bucket would do |
| FileUploadRelay.Step | src/fileUpload.js:72-109 | a size failure exactly for a file over 50 MiB; an upload exactly for a file within the limit that was downloaded and stored, under its unique name; any other outcome names the file |
| FileUploadRelay.ProcessFile | src/fileUpload.js:72-109 | an oversized file or a failed download writes nothing; otherwise one put, and an upload exactly when the bucket stored it |
| FileUploadRelay.Next | src/fileUpload.js:71-110 | handling one more file appends exactly its outcome |
| FileUploadRelay.Run | src/fileUpload.js:71-110 | one outcome per file, in order |
| FileUploadRelay.OutcomesAppend | src/fileUpload.js:74-108 | one more outcome adds to the uploaded, failed or size-failed list according to its kind |
| FileUploadRelay.OutcomesPartition | src/fileUpload.js:71-117 | every file lands in exactly one of the three lists |
| FileUploadRelay.NoUploads | src/fileUpload.js:99-104 | the uploaded list is empty exactly when no file was uploaded |
| FileUploadRelay.NoFailures | src/fileUpload.js:74-108 | both failure lists are empty exactly when every file was uploaded |
| FileUploadRelay.RunOutcome | src/fileUpload.js:72-109 | a size failure is exactly a file over 50 MiB; failures name their file; an upload is a downloaded file with its link |
| FileUploadRelay.ProcessNext | src/fileUpload.js:71-110 | one turn of the loop extends the three lists and the bucket exactly as the next step says |
| FileUploadRelay.NextState | src/fileUpload.js:83-97 | the bucket after one file is the bucket the step specification describes |
| FileUploadRelay.ProcessFiles | src/fileUpload.js:63-118 | the three lists and the bucket are those of running every file in order |
| FileUploadRelay.ReactionCases | src/fileUpload.js:133-159 | the final reaction is a cross exactly when nothing was uploaded, a check mark exactly when all were, a warning exactly when some were |
| FileUploadRelay.SuccessDraws | src/fileUpload.js:215-220 | the success message draws one quip per uploaded file |
| FileUploadRelay.SplitAttachments | src/fileUpload.js:223-242 | the text is the trimmed buffer of non-image lines and the attachments are the image lines' URLs, in order |
| FileUploadRelay.ImageLineRoundTrip | src/fileUpload.js:228-229 | an image line built from a one-line URL is recognised and gives back that URL |
| FileUploadRelay.PlainLines | src/fileUpload.js:227-237 | lines without images are all kept, each followed by a line feed, and give no attachment |
| FileUploadRelay.PlainMessagePostedWhole | src/fileUpload.js:223-243 | a message without image lines is posted whole, trimmed, with no attachment |
| FileUploadRelay.ErrorLinesAttachment | src/fileUpload.js:227-237 | the error message's image becomes the one attachment and its text and failed files stay in the text |
| FileUploadRelay.AllFailedAnswer | src/fileUpload.js:207-212 | when nothing was uploaded the answer is the error message over all failed names, with the size wording only when every failure was a size failure, and its image is the one attachment |
| FileUploadRelay.BuildResultsMessage | src/fileUpload.js:206-221 | the error message exactly when nothing was uploaded and something failed, otherwise the success message |
| FileUploadRelay.SendResultsMessage | src/fileUpload.js:204-249 | one threaded post of the chosen message |
| FileUploadRelay.UpdateReactions | src/fileUpload.js:133-159 | the beachball is removed and then the reaction for the counts added |
| FileUploadRelay.AnswerOfLists | src/fileUpload.js:290-310 | the post and reaction made from the three lists are those the outcomes determine |
| FileUploadRelay.ConversationSteps | src/fileUpload.js:286-310 | the Slack calls of a message are the beachball, the answer, the beachball's removal and the final reaction |
| FileUploadRelay.HandledAtMostOncePerDay | src/fileUpload.js:38-50 | a message handled once is skipped for the next 24 hours |
| FileUploadRelay.Relay.constructor | src/fileUpload.js:17 | a new relay has no marks and made no Slack call |
| FileUploadRelay.Relay.IsMessageProcessed | src/fileUpload.js:38-46 | marks older than 24 hours are evicted, and the answer is whether the message was marked within them |
| FileUploadRelay.Relay.MarkMessageAsProcessing | src/fileUpload.js:48-50 | the message is marked with the current time, and nothing is sent |
| FileUploadRelay.Relay.Begin | src/fileUpload.js:286-290 | the message is marked, the beachball added and every file processed |
| FileUploadRelay.Relay.Finish | src/fileUpload.js:292-310 | the answer is posted and the reactions updated from the counts |
| FileUploadRelay.Relay.TakeOn | src/fileUpload.js:286-310 | marking, the beachball, the files, the answer and the final reaction, in that order |
| FileUploadRelay.Relay.HandleFileUpload | src/fileUpload.js:276-317 | a message older than five minutes or not found changes nothing; one already processed within a day only evicts old marks; any other is handled once |
| SlackMessages.FileTypeMessages | src/config/messages.js:12-33 | exactly `gif`, `heic`, `mov`, `html` and `rar` have quips, and each of their lists is non-empty |
| SlackMessages.RandomItem | src/config/messages.js:65-67 | the pick is an element of the list |
| SlackMessages.RandomItemReachesAll | src/config/messages.js:65-67 | every element can be picked |
| SlackMessages.FileTypeMessage | src/config/messages.js:69-72 | a quip exactly for a known extension, in any case, and then one of that extension's quips |
| SlackMessages.FileTypeMessageIgnoresCase | src/config/messages.js:70 | the extension is lower-cased before the lookup |
| SlackMessages.QuipIsNeverNoType | src/config/messages.js:99 | no quip equals the `noType` key, so quip groups never merge with the group without a quip |
| SlackMessages.ErrorTexts | src/config/messages.js:34-55 | both error tables have texts to pick from |
| SlackMessages.ErrorImages | src/config/messages.js:42-60 | both error tables have images to pick from |
| SlackMessages.ErrorLinesJoinedBreak | src/config/messages.js:79-84 | the error message spans several lines |
| SlackMessages.ErrorLinesReadBack | src/config/messages.js:79-84 | splitting the joined error message gives back its four lines |
| SlackMessages.FormatErrorMessage | src/config/messages.js:74-85 | the error message always holds a line feed |
| SlackMessages.FormatErrorMessageLines | src/config/messages.js:74-85 | its lines are the picked text, `Failed files:` with the names joined by commas, a blank line and the picked image as an image line |
| SlackMessages.Keys | src/config/messages.js:96-100 | one group key per file: its quip or `noType` |
| SlackMessages.Bullets | src/config/messages.js:112-114 | one bullet line per file, in order |
| SlackMessages.Header | src/config/messages.js:3-4 | the header is the user mention followed by `here's your link:` for exactly one file and `here are your links:` otherwise |
| SlackMessages.SuccessHeader | src/config/messages.js:90-93 | the success message starts with the header and a blank line |
| SlackMessages.GroupLinesListMember | src/config/messages.js:107-115 | every member of a listed group gets its bullet line |
| SlackMessages.GroupLinesListEveryFile | src/config/messages.js:95-115 | every file gets its bullet line in the grouped listing |
| SlackMessages.EveryFileListed | src/config/messages.js:87-129 | every uploaded file appears in the success message |
| SlackMessages.ClosingLineEnd | src/config/messages.js:125 | the closing line ends in `_` |
| SlackMessages.HeaderEnd | src/config/messages.js:3-4 | the header ends in `:` |
| SlackMessages.ErrorMessageEnd | src/config/messages.js:83 | the error message ends in `>` |
| SlackMessages.ClosingLineIffUploads | src/config/messages.js:124-126 | the message ends with a blank line and the closing quip exactly when some file was uploaded; without uploads no closing line appears |
| SlackMessages.PushGroup | src/config/messages.js:107-115 | a quip group adds a blank line, the quip and its bullets; the `noType` group adds only its bullets |
| SlackMessages.GroupFiles | src/config/messages.js:95-105 | the groups are keyed in first-appearance order, and each holds exactly the files with its key, in order |
| SlackMessages.GroupLinesStep | src/config/messages.js:107-115 | walking one more group appends exactly that group's block |
| SlackMessages.PushGroupAt | src/config/messages.js:107-115 | one turn of the walk over the groups appends the next group's block |
| SlackMessages.PushGroups | src/config/messages.js:107-115 | walking the groups appends every group's block in key order |
| SlackMessages.FormatSuccessMessage | src/config/messages.js:87-129 | the message is the header, the grouped bullets, the size and generic error blocks and the closing line, joined by line feeds |
| SlackMessages.SuccessLines | src/config/messages.js:87-129 | the lines start with the header for the number of files, then a blank line |
| Grouping.DedupeElements | src/config/messages.js:95-105 | the keys of the map are distinct and are exactly the keys met |
| Grouping.FirstIndex | src/config/messages.js:101-103 | the position where a key is first met |
| Grouping.DedupeKeepsFirstAppearanceOrder | src/config/messages.js:101-107 | the map is walked in the order its keys were first met |
| Grouping.MembersContainFile | src/config/messages.js:104 | every file is in the group of its own key |
| Grouping.ListedNothing | src/config/messages.js:107 | walking no group lists no file |
| Grouping.ListedExtend | src/config/messages.js:107-115 | walking one more key adds exactly its group's files |
| Grouping.ListedAll | src/config/messages.js:95-115 | when every key is walked, every file is listed in its original order |
| Grouping.FlattenListed | src/config/messages.js:107-115 | walking distinct keys lists the same files as filtering by them |
| Grouping.GroupsArePermutation | src/config/messages.js:95-115 | grouping and then walking the groups lists every file exactly once |
| QuotaService.HcaVerified | app/services/quota_service.rb:100-110 | a user counts as verified only if the HCA service is actually asked |
| QuotaService.BlankCredentialsNeverVerify | app/services/quota_service.rb:100-102 | a blank access token or blank `hca_id` gives false without any HCA call |
| QuotaService.VerdictFromAnswer | app/services/quota_service.rb:104-110 | with both credentials present, verified exactly when the service answers `verified_eligible`; Faraday and argument errors give false |
| QuotaService.ExplicitPolicyWins | app/services/quota_service.rb:12-15 | an explicit slug decides the policy whatever HCA would say, never triggers an upgrade, and an unknown slug falls back to unverified |
| QuotaService.HcaDecidesWithoutSlug | app/services/quota_service.rb:16-25 | with no slug, the policy is verified exactly when HCA confirms, and only then is the user upgraded |
| QuotaService.UpgradeIsPermanent | app/services/quota_service.rb:19-21 | once upgraded, the user keeps the verified policy whatever HCA says later, and is never upgraded again |
| QuotaService.AdmitsBounds | app/services/quota_service.rb:50-61 | `can_upload?` holds exactly when size ≤ the per-file limit and used + size ≤ the total limit (both inclusive); an oversized file is refused at any usage; admission is downward closed |
| QuotaService.Admits | app/services/quota_service.rb:50-61 | admitted exactly when the file is within the per-file limit and the total after it within the storage limit |
| QuotaService.OverQuota | app/services/quota_service.rb:64-66 | a user over quota is admitted no file of positive size |
| QuotaService.AtLimitBoundary | app/services/quota_service.rb:57-66 | a user exactly at the total limit is over quota while a zero-byte upload is still admitted; not over quota implies a zero-byte upload is admitted |
| QuotaService.PercentageHundredths | app/services/quota_service.rb:74-79 | the percentage, in hundredths, is `used / max · 100` rounded half up to two decimals |
| QuotaService.WarningThreshold | app/services/quota_service.rb:69-79 | a zero limit gives 0 % and no warning; otherwise the warning holds exactly when the rounded percentage reaches 80, so from 79.995 % on; at or above the limit always warns; within the limit the percentage is at most 100 |
| QuotaService.QuotaService.constructor | app/services/quota_service.rb:6-8 | the service wraps one user of the database, with no HCA call made yet |
| QuotaService.QuotaService.IsHcaVerified | app/services/quota_service.rb:100-110 | returns the HCA verdict and makes one HCA call exactly when both credentials are present |
| QuotaService.QuotaService.CurrentPolicy | app/services/quota_service.rb:12-30 | returns the resolved policy; writes `quota_policy = "verified"` exactly when no slug was set and HCA confirmed; no other table changes |
| QuotaService.QuotaService.CanUpload | app/services/quota_service.rb:50-61 | the answer is admission under the resolved policy and the usage before the call, with the same upgrade side effect |
| QuotaService.QuotaService.IsOverQuota | app/services/quota_service.rb:64-66 | over quota exactly when usage ≥ the resolved total limit |
| QuotaService.QuotaService.PercentageUsed | app/services/quota_service.rb:74-79 | the rounded percentage of the resolved total limit, 0 for a zero limit |
| QuotaService.QuotaService.IsAtWarning | app/services/quota_service.rb:69-71 | warns exactly when the rounded percentage is at least 80; the user row changes only by the HCA upgrade that resolving the policy may write |
| QuotaService.QuotaService.CheckAndUpgradeVerification | app/services/quota_service.rb:83-95 | with a policy already set, true with no HCA call and no write; otherwise the HCA verdict, writing `verified` exactly when it is true |
| Records.ParseProvenance | app/models/upload.rb:40-47 | only the four declared provenance values are accepted, each mapping back to its own name |
| Records.ProvenanceRoundTrip | app/models/upload.rb:40-47 | every provenance parses back from its name, and a string parses exactly when it is `slack`, `web`, `api` or `rescued` |
| Records.UniqueIdentitiesIgnoreId | db/migrate/20260127174404_create_users.rb:12 | the unique indexes on `hca_id` and `slack_id` do not depend on the primary key a row receives |
| Records.Db.constructor | db/migrate/20260129051531_create_uploads.rb:3-18 | an empty database satisfies the table invariant |
| Records.Db.InsertUser | db/migrate/20260127174404_create_users.rb:3-12 | a user row is appended under the next primary key; the unique indexes and the other tables are kept |
| Records.Db.UpdateUser | db/migrate/20260127_add_slack_id_to_users.rb:3-4 | a user row is replaced in place, keeping its id, the unique indexes and the other tables |
| Records.Db.InsertUpload | db/migrate/20260129051531_create_uploads.rb:3-18 | an upload row is appended under the next primary key and nothing else changes |
| Records.Db.DeleteUpload | db/migrate/20260129051531_create_uploads.rb:3-18 | exactly the given upload row is removed, the others keep their order |
| Records.Db.InsertApiKey | db/migrate/20260129201832_create_api_keys.rb:3-14 | an API key row is appended under the next primary key and nothing else changes |
| Records.Db.UpdateApiKey | db/migrate/20260129201832_create_api_keys.rb:3-14 | an API key row is replaced in place under its own id |
| Records.Db.StoreBlob | app/models/upload.rb:102-107 | the blob's key joins the stored blobs and no table changes |
| Records.Db.PurgeBlob | app/models/upload.rb:119-123 | the blob's key leaves the store; the result says whether it was there, so a missing key (NoSuchKey) is not an error |
| Users.SignInLookup | app/models/user.rb:27-28 | a user with the HCA id is found first; only without one, and only for a present Slack id, a user with that Slack id; none means neither exists |
| Users.RefreshKeepsIdentitiesUnique | app/models/user.rb:30-37 | refreshing the found row keeps the unique indexes when no other row holds the new ids |
| Users.FindOrCreateFromOmniauth | app/models/user.rb:22-49 | a blank uid raises before any lookup; a found user is refreshed, otherwise one is created; a Slack id held by another row is refused; nothing else changes |
| Users.SignInPassesValidation | app/models/user.rb:15-16 | the refreshed or created user passes the model's validations (present, unique `hca_id`; policy nil or admin-assignable) |
| Users.StorageAfterInsert | app/models/user.rb:57-59 | a new upload adds its size to its owner's total and nothing to anyone else's |
| Users.StorageAfterDelete | app/models/user.rb:57-59 | deleting an upload takes exactly its size off its owner's total |
| Users.TotalStorageBytes | app/models/user.rb:57-59 | the total is at least the size of each of the user's uploads |
| Users.NoFilesNoStorage | app/models/user.rb:53-59 | a user with no files uses no storage |
| UploadRecord.DownloadRequest | app/models/upload.rb:83-86 | the GET carries an Authorization header exactly when one is present, with the given value unchanged |
| UploadRecord.Download | app/models/upload.rb:86-91 | only a 2xx reply passes; a 3xx raises `Failed to download: <status> redirect to <location>` with no redirect followed, any other status `Failed to download: <status>` |
| UploadRecord.DownloadedType | app/models/upload.rb:95 | the sniffed type, else the response's content type, else `application/octet-stream` |
| UploadRecord.CreateFromUrl | app/models/upload.rb:74-115 | nothing is written unless the download is 2xx; the blob is stored before the record, which refers to that blob with the given provenance and original URL, under the URL path's basename by default |
| UploadRecord.Destroy | app/models/upload.rb:119-123 | the row goes, then its blob, a missing blob being no error; the owner's total shrinks by exactly the upload's size |
| UploadRecord.AssetsUrlInjective | app/models/upload.rb:60-63 | under one host, an assets URL names exactly one upload id and file name |
| UploadRecord.AssetsUrl | app/models/upload.rb:60-63 | the URL starts with `https://` and ends with `/` and the sanitized file name |
| UploadRecord.DownloadedName | app/models/upload.rb:93 | a given file name is kept; otherwise the name is the last path segment, which holds no `/` unless the path is `/` |
| Http.UrlPath | app/models/upload.rb:93 | the path of a URL holds no query and no fragment |
| Http.RubyBasename | app/models/upload.rb:93 | `File.basename` is `/` or holds no `/`, and is non-empty for a non-empty path |
| Base64.CharOf | cdn/src/auth/session.rs:14 | every 6-bit value maps to a character of the standard alphabet |
| Base64.ValueOf | cdn/src/auth/session.rs:14 | every alphabet character reads back as a 6-bit value |
| Base64.ValueOfCharOf | cdn/src/auth/session.rs:14 | reading a character back gives the value it encodes |
| Base64.EncodeGroup | cdn/src/auth/session.rs:14 | each group of one to three bytes becomes four characters |
| Base64.Encode | cdn/src/auth/session.rs:14 | a non-empty input gives at least one four-character group |
| Base64.DecodeGroup | cdn/src/auth/session.rs:14 | a decoded group is one to three bytes |
| Base64.Decode | cdn/src/auth/session.rs:14 | a text whose length is not a multiple of four does not decode, and a decoding has at most three bytes per four characters |
| Base64.Regroup | cdn/src/auth/session.rs:14 | three bytes cut into four 6-bit values are put back together exactly |
| Base64.DecodeFull | cdn/src/auth/session.rs:14 | a full three-byte group decodes back to itself |
| Base64.DecodeOnePad | cdn/src/auth/session.rs:14 | a two-byte group with one `=` decodes back to itself |
| Base64.DecodeTwoPads | cdn/src/auth/session.rs:14 | a one-byte group with two `=` decodes back to itself |
| Base64.DecodeEncodeGroup | cdn/src/auth/session.rs:14 | every encoded group decodes back to its bytes |
| Base64.EncodeLength | cdn/src/auth/session.rs:14 | the encoding is four characters per started three bytes |
| Base64.DecodeCons | cdn/src/auth/session.rs:14 | decoding a full group followed by the rest is the group followed by the rest's bytes |
| Base64.DecodeEncode | cdn/src/auth/session.rs:14 | decoding an encoding gives back the bytes |
| Base64.EncodeInjective | cdn/src/auth/session.rs:14 | different bytes never share an encoding |
| Base64.EncodeAlphabet | cdn/src/auth/session.rs:14 | an encoding uses only the alphabet with `=` padding at the end |
| CdnSession.GenerateToken | cdn/src/auth/session.rs:9-15 | a session token is the 44-character encoding of 32 random bytes |
| CdnSession.TokenDecodes | cdn/src/auth/session.rs:9-15 | a token decodes back to the random bytes it came from |
| CdnSession.DistinctDrawsDistinctTokens | cdn/src/auth/session.rs:9-15 | different random draws give different tokens |
| CdnSession.FoldFindsLastInsert | cdn/src/auth/mod.rs:100-101 | a token is in the store exactly when it was inserted, and maps to the user of its last insert |
| CdnSession.SessionStore.constructor | cdn/src/auth/session.rs:6-7 | the store starts empty |
| CdnSession.SessionStore.Put | cdn/src/auth/mod.rs:101 | the token now maps to the user and nothing else changes |
| CdnSession.SessionStore.GetUserFromSession | cdn/src/auth/session.rs:17-19 | a token's user exactly when it was inserted, the one of its last insert |
| CdnSession.SessionStore.StartSession | cdn/src/auth/mod.rs:100-101 | login stores a fresh 44-character token for the user |
| CdnCookie.TrimStartMatches | cdn/src/dashboard/mod.rs:30 | the input is some number of copies of the prefix followed by the result, and a non-empty prefix no longer starts the result |
| CdnCookie.SessionToken | cdn/src/dashboard/mod.rs:23-31 | a session token is only found in a readable Cookie header |
| CdnCookie.TrimUnspaced | cdn/src/dashboard/mod.rs:29-30 | text without surrounding white space is unchanged by trimming |
| CdnCookie.SessionPieceRead | cdn/src/dashboard/mod.rs:26-31 | the first `session=` piece is read, with its prefix stripped, whatever follows the next `;` |
| CdnCookie.Prefixed | cdn/src/dashboard/mod.rs:29-30 | `session=<token>` starts with the prefix, and stripping leaves what stripping the token leaves |
| CdnCookie.SessionCookieRoundTrip | cdn/src/dashboard/mod.rs:23-31 | the cookie the login sets reads back as its token, alone or followed by other cookies |
| CdnCookie.RepeatedPrefixStripped | cdn/src/dashboard/mod.rs:30 | every leading `session=` is stripped, so `session=session=<t>` reads as `<t>` |
| CdnCookie.IssuedTokenReadBack | cdn/src/auth/mod.rs:100-106 | every token the login issues is read back from the cookie it sets |
| CdnCookie.EmptySessionCookie | cdn/src/auth/mod.rs:122-131 | the cookie logout sets reads as the empty token, which no login issues |
| CdnCookie.EmptyHeaderNoSession | cdn/src/dashboard/mod.rs:26-31 | an empty Cookie header has no session |
| CdnMiddleware.ApiRequest.constructor | cdn/src/auth/middleware.rs:10-14 | a new request carries its headers and no user id |
| CdnMiddleware.RequireApiKey | cdn/src/auth/middleware.rs:10-40 | a known key stores its user's id on the request and runs the handler; anything else is the 401 reply, with the request untouched |
| CdnMiddleware.Authenticate | cdn/src/auth/middleware.rs:15-40 | the gate passes only a readable key that some user holds, with that user's id, and otherwise answers 401 |
| CdnMiddleware.RejectionReasons | cdn/src/auth/middleware.rs:19-38 | a missing or unreadable key is `API key required`; a failed query is `Invalid API key` |
| CdnMiddleware.KnownKeyPasses | cdn/src/auth/middleware.rs:26-36 | a readable key held by exactly one user passes with that user's id |
| ApiKeys.GenerateToken | app/models/api_key.rb:42-44 | a token already set is kept; otherwise `sk_cdn_` and 64 lower-case hex digits that decode back to the 32 random bytes |
| ApiKeys.GeneratedTokensDiffer | app/models/api_key.rb:42-44 | different random bytes give different tokens |
| ApiKeys.MaskedToken | app/models/api_key.rb:32-38 | the first 13 characters, then `....`, then the last 6 (Ruby's `full[-6..]` is nil on shorter tokens, giving nothing) |
| ApiKeys.MaskedGeneratedToken | app/models/api_key.rb:32-44 | the mask of a generated token is 23 characters: `sk_cdn_`, 6 hex digits, `....`, 6 hex digits |
| ApiKeys.ActiveScope | app/models/api_key.rb:16 | the `active` scope holds exactly the keys that are not revoked |
| ApiKeys.NameValid | app/models/api_key.rb:14 | a valid name has 1 to 255 characters |
| ApiKeys.FindByToken | app/models/api_key.rb:20-22 | finds a key with exactly that token, and none exactly when no key has it |
| ApiKeys.Create | app/models/api_key.rb:12-14 | the key is saved, with a generated token and not revoked, exactly when the name is present and at most 255 characters and the owner exists |
| ApiKeys.Revoke | app/models/api_key.rb:24-30 | `revoke!` marks the key revoked at the current time, after which it is not active; it fails only if the row no longer validates |
| ApiKeys.RevokeLeavesActiveScope | app/models/api_key.rb:16-26 | revoking a key removes exactly that key from the active scope |
| PublicId.SetPublicIdPrefix | app/models/concerns/public_identifiable.rb:17-19 | the stored prefix is the given one lower-cased, character for character |
| PublicId.GetPublicIdPrefix | app/models/concerns/public_identifiable.rb:38-42 | succeeds exactly when a prefix is configured, giving it lower-cased; otherwise `NotImplementedError` |
| PublicId.FindByHashid | app/models/concerns/public_identifiable.rb:28 | a user is found only if the hashid decodes to that user's id |
| PublicId.FindByPublicId | app/models/concerns/public_identifiable.rb:21-29 | a non-string gives nil; a missing prefix raises; a prefix (first `_` field, lower-cased) that differs gives nil; otherwise the user whose id the last field decodes to |
| PublicId.FindByPublicIdStrict | app/models/concerns/public_identifiable.rb:31-36 | the bang form returns what the plain form finds and raises RecordNotFound where it finds nothing |
| PublicId.PublicIdRoundTrip | app/models/concerns/public_identifiable.rb:14-29 | `find_by_public_id(user.public_id)` finds that user |
| PublicId.PublicIdOf | app/models/concerns/public_identifiable.rb:14 | the public id is the prefix, the separator `_` and the hashid, each at its own position |
| PublicId.SplitPublicId | app/models/concerns/public_identifiable.rb:14-25 | splitting `<prefix>_<hashid>` on `_` gives back the prefix and the hashid |
| PublicId.PrefixCaseInsensitive | app/models/concerns/public_identifiable.rb:24-26 | the prefix of a public id is compared without regard to case |
| DocPages.ExtractFrontmatter | app/models/doc_page.rb:51-60 | content not starting with `---`, or with no second `---`, has no frontmatter and is returned unchanged |
| DocPages.FrontmatterBlock | app/models/doc_page.rb:51-57 | for `---a---b` the YAML of `a` (empty on nil) is the frontmatter and the stripped `b` the content |
| DocPages.ClosingDelimiter | app/models/doc_page.rb:53 | `split("---", 3)` finds the closing delimiter right after the block, so the parts are `a` and `b` |
| DocPages.ParseDocFile | app/models/doc_page.rb:37-49 | the page's id is the file's basename; title, icon and order come from the frontmatter, defaulting to the titleized id, `file` and 999 |
| DocPages.LoadAll | app/models/doc_page.rb:31-35 | one page per file, in directory order |
| DocPages.SortByOrder | app/models/doc_page.rb:18 | the pages are sorted by `order` and are a permutation of the loaded ones |
| DocPages.Catalog.constructor | app/models/doc_page.rb:16-18 | the page cache starts empty |
| DocPages.Catalog.All | app/models/doc_page.rb:17-19 | the cached list if there is one; otherwise all files parsed and sorted, which is then cached |
| DocPages.Catalog.Find | app/models/doc_page.rb:21-23 | a page with that id from the cached list, or `Doc '<id>' not found` exactly when none has it |
| DocPages.Catalog.Reload | app/models/doc_page.rb:25-27 | clears the cache |
| DocPages.EveryFileListed | app/models/doc_page.rb:17-35 | every document file appears among the listed pages |
| Policies.DefaultRefusesEverything | app/policies/application_policy.rb:11-17 | the default policy refuses every action, and `new?`/`edit?` follow `create?`/`update?` |
| Policies.DefaultResolve | app/policies/application_policy.rb:25 | the default scope raises NotImplementedError |
| Policies.UploadPolicy | app/policies/upload_policy.rb:4-7 | only destroy is granted, to admins and to the upload's owner |
| Policies.UploadScope | app/policies/upload_policy.rb:10-16 | admins see every upload, others exactly their own |
| Policies.UploadScopeMatchesDestroy | app/policies/upload_policy.rb:4-16 | an upload is in the user's scope exactly when the user may destroy it |
| Policies.ApiKeyPolicy | app/policies/api_key_policy.rb:4-9 | index, create and new are always granted, show and update never, destroy to admins and the key's owner |
| Policies.ApiKeyScope | app/policies/api_key_policy.rb:12-14 | admins see every key, others exactly their own |
| Policies.ApiKeyScopeMatchesDestroy | app/policies/api_key_policy.rb:7-14 | a key is in the user's scope exactly when the user may destroy it |
| UploadsController.FlashOf | app/controllers/uploads_controller.rb:21-70 | the notice flash appears exactly for a stored upload, and every refusal and failure is an alert; the size alerts show both sizes through `number_to_human_size`, and a failure shows its message followed by ` (Error ID: <id>)` |
| UploadsController.QuotaCheck | app/controllers/uploads_controller.rb:61-72 | no refusal exactly when the quota service admits the file; a file over the per-file limit is refused as too large |
| UploadsController.QuotaCheckOrder | app/controllers/uploads_controller.rb:61-72 | the per-file test comes first; a file within it that would overflow the total is refused as exceeding storage; an admitted file keeps the total within the limit |
| UploadsController.CheckQuota | app/controllers/uploads_controller.rb:53-73 | the filter's refusal is the quota check under the resolved policy and current usage; only the user row may change, by the HCA upgrade |
| UploadsController.Create | app/controllers/uploads_controller.rb:17-73 | a missing file changes nothing; a refused file leaves no blob and no upload; an admitted one adds exactly one web upload, after which the user's total is within the limit; a failed store is reported as an alert |
| UploadsController.Destroy | app/controllers/uploads_controller.rb:42-77 | an unknown id is not found; the owner or an admin deletes the row and its blob; anyone else is refused and nothing changes |
| Common.Page | app/controllers/uploads_controller.rb:14 | `.page(p).per(size)` is the window of at most `size` elements from position (p − 1) · size, with a page below 1 read as 1, and empty past the end |
| Common.PagesArePrefix | app/controllers/uploads_controller.rb:14 | pages 1 to n read in turn are the first n · size elements, none skipped or repeated |
| UploadsController.Listing | app/controllers/uploads_controller.rb:8 | the user's uploads, each exactly once, newest first |
| UploadsController.Index | app/controllers/uploads_controller.rb:7-15 | page `p` is the window of the listing that starts at position (p − 1) · 50, with a page below 1 read as 1: at most 50 uploads, all the current user's, newest first |
| UploadsController.PagesListEveryUpload | app/controllers/uploads_controller.rb:14 | pages 1 to n read in turn are the newest n · 50 uploads in order; once they cover the user's file count they hold each of the user's uploads exactly once |
| UploadsController.FirstPageIsEverything | app/controllers/uploads_controller.rb:7-15 | a user with at most 50 uploads sees all of them on the first page |
| ApiV4.Authenticate | app/controllers/api/v4/application_controller.rb:15-25 | the bearer token is accepted exactly when it names an active key, and identifies the key's owner; otherwise 401 `invalid_auth` |
| ApiV4.RevokedTokenRefused | app/controllers/api/v4/application_controller.rb:20-22 | a revoked key's token is refused |
| ApiV4.CreatedKeyAuthenticates | app/controllers/api/v4/application_controller.rb:15-24 | a freshly created key authenticates its owner |
| ApiV4.RescueReply | app/controllers/api/v4/application_controller.rb:10-36 | RecordNotFound gives 404 `Not found`, RecordInvalid 422 `Validation failed` with the messages, and nothing else is rescued here |
| ApiV4.UploadJsonOf | app/controllers/api/v4/uploads_controller.rb:47-55 | the JSON carries the upload's id, file name, size, content type, CDN URL and ISO 8601 creation time |
| ApiV4.Create | app/controllers/api/v4/uploads_controller.rb:7-26 | unauthenticated requests change nothing; a missing file is 400; otherwise 201 with the new upload's JSON exactly when the blob and the row are written, else 422 `Upload failed: …` |
| ApiV4.UploadFailed | app/controllers/api/v4/uploads_controller.rb:24-25 | a 422 whose error is `Upload failed: ` followed by the message |
| ApiV4.CreateFromUrl | app/controllers/api/v4/uploads_controller.rb:29-43 | a blank url is 400; otherwise the download runs with the forwarded X-Download-Authorization, and 201 comes exactly when the download, the blob and the row succeed, recording the url as original_url with provenance api |
| ApiKeysController.Index | app/controllers/api_keys_controller.rb:6-8 | exactly the user's active keys, newest first |
| ApiKeysController.Create | app/controllers/api_keys_controller.rb:10-17 | a key is created exactly when the name is valid; its token is shown once with the notice; otherwise the validation alert and no new row |
| ApiKeysController.DestroyFlash | app/controllers/api_keys_controller.rb:19-25 | revoking gives a notice, a refusal an alert |
| ApiKeysController.Destroy | app/controllers/api_keys_controller.rb:19-31 | an unknown key is not found; a non-owner non-admin is refused; otherwise the key is revoked, and nothing else changes |
| AdminUsers.Humanize | app/controllers/admin/users_controller.rb:31 | `humanize` keeps the length, turns each later `_` into a space and lower-cases every later letter, and makes a leading letter upper case |
| AdminUsers.HumanizeRoundTrip | app/controllers/admin/users_controller.rb:31 | on a snake_case slug `humanize` loses nothing: lower-casing the text and turning spaces back into `_` gives the slug again, so different slugs give different flashes |
| AdminUsers.FlashOf | app/controllers/admin/users_controller.rb:15-32 | each outcome has its flash; setting a policy says `Quota policy set to <Humanized>.` |
| AdminUsers.QuotaChangeKeepsIdentities | app/controllers/admin/users_controller.rb:20-30 | changing a user's quota policy keeps the unique indexes |
| AdminUsers.SetQuota | app/controllers/admin/users_controller.rb:15-38 | an unknown public id changes nothing; a blank policy clears the override; a policy other than verified or functionally_unlimited is refused unchanged; otherwise it is stored |
| AdminUsers.OverrideDecidesPolicy | app/controllers/admin/users_controller.rb:15-32 | after a set, the stored slug decides the policy and no HCA upgrade happens; after a clear, HCA decides again |
| ExternalUploads.Show | app/controllers/external_uploads_controller.rb:6-12 | an unknown id is 404; otherwise a redirect to the blob's URL |
| ExternalUploads.NotFoundResponse | app/controllers/external_uploads_controller.rb:34-40 | the error image exactly for a path ending in `.png`, `.jpg` or `.jpeg` in any case, otherwise 404 |
| ExternalUploads.Rescue | app/controllers/external_uploads_controller.rb:14-30 | a blank url is 400; when some upload has that original URL the answer is a redirect, to the CDN URL of the first such upload; when none has it, the not-found response |
| ExternalUploads.RescuedUploadRedirects | app/controllers/external_uploads_controller.rb:22-26 | once an upload records the original URL, rescuing that URL redirects to it |
| ExternalUploads.ImageUrlOnOneLine | app/controllers/external_uploads_controller.rb:35 | on a single line the test is a case-insensitive `.png`, `.jpg` or `.jpeg` suffix |
| ExternalUploads.ImageExtensionBeforeLineFeed | app/controllers/external_uploads_controller.rb:35 | Ruby's `$` also matches before a line feed, so an image extension before `\n` counts |
| SlackService.LeadingDigits | app/services/slack_service.rb:43 | the leading run of digits `to_i` reads, a prefix of the string made of digits only |
| SlackService.RubyToIOfNat | app/services/slack_service.rb:43 | `to_i` reads a rendered timestamp back exactly |
| SlackService.RubyToI | app/services/slack_service.rb:43 | text that starts with a digit reads as its leading digits; text whose first non-space run of digits is non-empty never reads negative |
| SlackService.ExpectedSignature | app/services/slack_service.rb:46-47 | the expected signature is `v0=` followed by the HMAC-SHA256 hex of `v0:<timestamp>:<body>` |
| SlackService.VerifySignature | app/services/slack_service.rb:38-51 | refused without a signing secret or when the timestamp is more than 300 seconds away; accepted only for the expected signature |
| SlackService.SignedRequestAccepted | app/services/slack_service.rb:38-51 | a request signed with the secret within five minutes is accepted |
| SlackService.ReplayRefused | app/services/slack_service.rb:43 | a request more than 300 seconds old is refused whatever its signature |
| SlackEvents.CdnChannels | config/initializers/slack.rb:4 | the monitored channels are the comma-separated pieces of `CDN_CHANNELS`, each stripped |
| SlackEvents.Handle | app/controllers/slack/events_controller.rb:5-35 | a bad signature is 401 and enqueues nothing; `url_verification` echoes the challenge; an `event_callback` enqueues exactly one job for a message with files in a monitored channel, and every other request enqueues nothing |
| SlackEvents.UnsetChannelsEnqueueNothing | config/initializers/slack.rb:4 | with `CDN_CHANNELS` unset no job is ever enqueued |
| SlackEvents.EnqueuedJobsHaveFiles | app/controllers/slack/events_controller.rb:18-20 | every enqueued job has files and comes from a monitored channel |
| SlackJobText.Extension | app/jobs/process_slack_file_upload_job.rb:202 | the extension has no dot: leading dots of the basename do not start one, and it is lower-cased |
| SlackJobText.ExtensionIgnoresCase | app/jobs/process_slack_file_upload_job.rb:202 | `name.EXT` gives `ext` lower-cased |
| SlackJobText.FlavorMessages | app/jobs/process_slack_file_upload_job.rb:197-218 | the candidates always start with the generic fallback |
| SlackJobText.FlavorsFor | app/jobs/process_slack_file_upload_job.rb:199-215 | the generic line first, then each file's extras in file order |
| SlackJobText.PickFlavor | app/jobs/process_slack_file_upload_job.rb:217 | the message picked is one of the candidates |
| SlackJobText.FlavorsOfEachFile | app/jobs/process_slack_file_upload_job.rb:201-215 | every file contributes all of its extension's messages |
| SlackJobText.FlavorsOnlyFromFiles | app/jobs/process_slack_file_upload_job.rb:199-215 | every candidate is the generic line or comes from one of the files |
| SlackJobText.CallSite | app/jobs/process_slack_file_upload_job.rb:224 | a match of `:(\d+):in\s+'(.+)'$` at the start of the text, with its line number and method |
| SlackJobText.CallSiteComplete | app/jobs/process_slack_file_upload_job.rb:224 | every text of that shape is recognised, with the same fields |
| SlackJobText.ParseCallFrame | app/jobs/process_slack_file_upload_job.rb:224-227 | a call frame's file is a non-empty prefix of the line followed by the call site, and the greedy `(.+)` takes the last call site |
| SlackJobText.ParseNoCallFrame | app/jobs/process_slack_file_upload_job.rb:224 | a line that is not a call frame has no call site after its first character |
| SlackJobText.ParseLineFrame | app/jobs/process_slack_file_upload_job.rb:228-231 | a `file:line` frame has a non-empty file, a maximal digit run after the last usable colon, and the line starts with `file:line` |
| SlackJobText.ParseOpaque | app/jobs/process_slack_file_upload_job.rb:232-233 | a line passed through verbatim has no colon-and-digit after its first character |
| SlackJobText.FormatFrame | app/jobs/process_slack_file_upload_job.rb:223-234 | a line matching neither pattern is passed through verbatim |
| SlackJobText.FormatBacktrace | app/jobs/process_slack_file_upload_job.rb:220-221 | a missing or empty backtrace gives the empty string |
| SlackJobText.BacktraceExcerptLines | app/jobs/process_slack_file_upload_job.rb:223-235 | a backtrace gives one line per cleaned frame, at most three, each the formatted frame |
| SlackJobText.CanonicalCallFrame | app/jobs/process_slack_file_upload_job.rb:224-227 | `file:n:in 'm'` becomes a GitHub link to `file#Ln` followed by `` in `m` `` |
| SlackJobText.CanonicalLineFrame | app/jobs/process_slack_file_upload_job.rb:228-231 | `file:n` becomes a GitHub link to `file#Ln` |
| SlackUploadJob.SlackUser | app/jobs/process_slack_file_upload_job.rb:52-56 | the row created for an unknown poster has the Slack id, no HCA id, no policy and is not an admin |
| SlackUploadJob.FindOrCreateUserAsWritten | app/jobs/process_slack_file_upload_job.rb:46-60 | as written: a known poster is found; for an unknown one `create!` always raises and nothing is written |
| SlackUploadJob.UnknownPosterIsNeverCreated | app/models/user.rb:15 | the row built for an unknown poster always fails the `hca_id` presence validation |
| SlackUploadJob.FindOrCreateUser | app/jobs/process_slack_file_upload_job.rb:46-60 | a known poster is found; an unknown one is created once from the Slack profile (email `slack-<id>@temp.hackclub.com` and name real_name, name, `Slack User` as fallbacks); a failed profile lookup writes nothing |
| SlackUploadJob.SlackUserCreatedOnce | app/jobs/process_slack_file_upload_job.rb:47-57 | after the poster is created, the next lookup finds that row, so it is not created twice |
| SlackUploadJob.PostCheckMatchesPreCheck | app/jobs/process_slack_file_upload_job.rb:85-99 | the post-check keeps exactly what `can_upload?` would admit; a total exactly at the limit is kept; the per-file test comes first |
| SlackUploadJob.PolicyStable | app/jobs/process_slack_file_upload_job.rb:82-83 | resolving the policy again after an upgrade gives the same policy and no new upgrade |
| SlackUploadJob.EnforceQuota | app/jobs/process_slack_file_upload_job.rb:81-100 | an upload over the per-file limit, else one that takes the total (already including it) over the limit, is destroyed with its reason; otherwise nothing changes |
| SlackUploadJob.ProcessFile | app/jobs/process_slack_file_upload_job.rb:65-75 | one file is fetched with `Bearer <bot token>`, stored with provenance slack, then kept only within the policy; a failure leaves the uploads as they were |
| SlackUploadJob.KeepWithinQuota | app/jobs/process_slack_file_upload_job.rb:74-100 | the new row stays exactly when within the policy, and is destroyed otherwise |
| SlackUploadJob.ProcessNext | app/jobs/process_slack_file_upload_job.rb:65-76 | one more file extends the progress by its row; on failure the rows kept are those of earlier files |
| SlackUploadJob.ProcessFiles | app/jobs/process_slack_file_upload_job.rb:62-79 | files are processed in event order; on success each file has its row, in order, within the policy; the first failure stops, and the rows of earlier files remain |
| SlackUploadJob.Notification | app/jobs/process_slack_file_upload_job.rb:102-170 | the spinner is removed, then a tick on success or a cross on any failure, then one reply |
| SlackUploadJob.Perform | app/jobs/process_slack_file_upload_job.rb:18-42 | a message without files does nothing; otherwise spinner, flavor reply, the files, then the outcome, with each file's row on success (with the corrected step, see Findings) |
| CdnFiles.Lookup | cdn/src/gateways/files.rs:17-25 | a file found is in the table under the requested public UUID |
| CdnFiles.WithoutFile | cdn/src/gateways/files.rs:41-42 | the delete keeps exactly the rows under other public UUIDs |
| CdnFiles.DeleteFile | cdn/src/gateways/files.rs:11-48 | the reply, the object removed and the row removed are those the deletion specification gives; users and sent requests are untouched |
| CdnFiles.Delete | cdn/src/gateways/files.rs:11-48 | a removed row comes with a removed object and the 200 `File deleted`; a removed object is the storage UUID of a row with the requested public UUID owned by the requester |
| CdnFiles.OnlyOwnerDeletes | cdn/src/gateways/files.rs:27-42 | only the owner's request removes anything, the row only after the object, and the object removed is the file's storage UUID |
| CdnFiles.DeleteReplies | cdn/src/gateways/files.rs:27-47 | 404 exactly for an unknown file, 403 exactly for another user's, 200 exactly when the row is removed, 500 exactly when a bucket or database step fails |
| CdnFiles.DeletedFileIsGone | cdn/src/gateways/files.rs:41-42 | after the delete no row has that public UUID and every other row is kept |
| CdnFiles.OwnFileDeleted | cdn/src/gateways/files.rs:11-48 | the owner deleting a file with no failures removes its object and its row and answers `File deleted` |
| CdnDelegate.ConcatLength | cdn/src/delegate/mod.rs:61-76 | the uploaded byte count is the sum of the chunk sizes |
| CdnDelegate.FileName | cdn/src/delegate/mod.rs:80-87 | the recorded file name holds no `/` and no `?` |
| CdnDelegate.Transfer | cdn/src/delegate/mod.rs:61-76 | once the request is built it is sent exactly once |
| CdnDelegate.Record | cdn/src/delegate/mod.rs:76-118 | once the body is stored the object holds exactly the streamed bytes |
| CdnDelegate.StreamBody | cdn/src/delegate/mod.rs:61-73 | the bucket reads every chunk in order, and the hash sees exactly those bytes when hashing was asked for and nothing otherwise |
| CdnDelegate.MultiplexedUploader | cdn/src/delegate/mod.rs:31-119 | the result, the request sent, the object stored and the row inserted are those of the upload specification |
| CdnDelegate.SendAndStore | cdn/src/delegate/mod.rs:61-76 | the request is sent and the body stored under the storage UUID, as the transfer specification gives |
| CdnDelegate.Store | cdn/src/delegate/mod.rs:76-118 | the object is stored under the storage UUID and the row inserted unless the insert fails |
| CdnDelegate.SlackUrlNeedsToken | cdn/src/delegate/mod.rs:47-58 | a Slack URL without a token is refused with 400 before anything is sent, stored or recorded |
| CdnDelegate.AuthorizationOnlyForSlack | cdn/src/delegate/mod.rs:41-59 | the request goes to the URL with the service's user agent, and carries `Bearer <token>` exactly for Slack URLs |
| CdnDelegate.RequestHeaders | cdn/src/delegate/mod.rs:41-59 | the headers fail exactly for a Slack URL without a token that is valid header text; otherwise they carry the user agent, and an Authorization header exactly for a Slack URL, which is `Bearer ` and the token |
| CdnDelegate.Upload | cdn/src/delegate/mod.rs:31-119 | no request is sent exactly when the headers fail, and then nothing is stored or recorded and the answer is an error; a request sent goes to the URL given |
| CdnDelegate.ResultMatchesStoredObject | cdn/src/delegate/mod.rs:75-118 | a result exactly when a row was recorded; it is published under the public UUID with the stored size, and has the SHA-1 of the stored bytes exactly when hashing was asked for; the row keeps the storage UUID |
| CdnDelegate.MetadataFailureKeepsObject | cdn/src/delegate/mod.rs:92-109 | a failed insert answers 500 `Failed to store file metadata` and records no row, leaving the object stored |
| CdnDelegate.TakeUntilQuery | cdn/src/delegate/mod.rs:84-86 | the query string is cut off at the first `?` |
| CdnDelegate.FileNameWithQuery | cdn/src/delegate/mod.rs:80-87 | the file name of `<prefix>/<name>?<query>` is `<name>` |
| CdnDelegate.FileNameWithoutQuery | cdn/src/delegate/mod.rs:80-87 | the file name of `<prefix>/<name>` is `<name>` |
| DelegateError.IntoResponse | cdn/src/delegate/error.rs:19-34 | the response has the error's status and a JSON body whose error is the message, else the status's reason phrase, else `Unknown error` |
| DelegateError.FromError | cdn/src/delegate/error.rs:36-47 | every standard error becomes a 500 `Internal server error` |
| DelegateError.StdErrorsLookAlike | cdn/src/delegate/error.rs:36-47 | every standard error gives the same response |
| DelegateError.ToIoError | cdn/src/delegate/error.rs:49-53 | the I/O error is of kind Other, with the message or `Unknown error` |
| DelegateError.IoErrorReason | cdn/src/delegate/error.rs:19-53 | the I/O error and the response agree on the reason exactly when there is a message or no reason phrase |
| DelegateError.MessagelessNotFound | cdn/src/delegate/error.rs:19-53 | a 404 without a message answers `Not Found` but becomes the I/O error `Unknown error` |
| CdnDb.QueryOpt | cdn/src/auth/middleware.rs:26-31 | a row is returned only when it matches and is in the table |
| CdnDb.QueryOptUnique | cdn/src/auth/middleware.rs:26-31 | a returned row is the only matching one, since more than one match is an error read as none |
| CdnDb.QueryOptFinds | cdn/src/auth/middleware.rs:26-31 | the single matching row is found |
| CdnDb.FilterOnly | cdn/src/auth/middleware.rs:26-27 | filtering a table with a single match gives exactly that row |
| CdnDb.FilterNone | cdn/src/auth/middleware.rs:26-27 | filtering a table with no match gives nothing |
| CdnDb.Cdn.constructor | cdn/src/db/mod.rs:17-61 | the service starts with an empty bucket, no files, the given users and nothing sent |
| CdnDashboard.UserFiles | cdn/src/dashboard/mod.rs:61-84 | the list is a permutation of the user's own files, newest first; a failed query is the empty list |
| CdnDashboard.UserFilesOwnNewestFirst | cdn/src/dashboard/mod.rs:61-84 | every listed file is the user's own, and creation times never increase down the list |
| CdnDashboard.SetApiKey | cdn/src/dashboard/mod.rs:284-288 | exactly the rows with the user's id get the new key; every other row is unchanged |
| CdnDashboard.RegenerateApiKey | cdn/src/dashboard/mod.rs:273-294 | a failed update answers 500 and leaves the users as they were; otherwise the new key is answered and stored for the user |
| CdnDashboard.NeedsSession | cdn/src/dashboard/mod.rs:22-39 | the page redirects to the login exactly when there is no session cookie or its token is unknown |
| CdnDashboard.ShowsOwnFilesNewestFirst | cdn/src/dashboard/mod.rs:22-89 | a dashboard shows the session's own user and only that user's files, newest first |
| CdnDashboard.DashboardPage | cdn/src/dashboard/mod.rs:22-89 | a redirect goes to the login page; any failure is the 500 `Failed to fetch user`; a dashboard's totals are the number and the total size of the files it lists |
| CdnDashboard.QueryFailures | cdn/src/dashboard/mod.rs:43-84 | a failed user query answers 500 `Failed to fetch user`; a failed file query shows no files |
| CdnDashboard.SizeSumAppend | cdn/src/dashboard/mod.rs:87 | the size total of two lists is the sum of their totals |
| CdnDashboard.SizeSumRemove | cdn/src/dashboard/mod.rs:87 | removing one file takes exactly its size off the total |
| CdnDashboard.IndexOf | cdn/src/dashboard/mod.rs:87 | a file in the multiset sits at some position of the list |
| CdnDashboard.MultisetRemove | cdn/src/dashboard/mod.rs:87 | removing one position removes one copy of its file |
| CdnDashboard.MultisetTail | cdn/src/dashboard/mod.rs:87 | dropping the head removes one copy of it |
| CdnDashboard.PermutationRest | cdn/src/dashboard/mod.rs:87 | removing the same file from two permutations leaves permutations |
| CdnDashboard.SizeSumPermutation | cdn/src/dashboard/mod.rs:87 | the size total does not depend on the order of the files |
| CdnDashboard.TotalsOfAllOwnFiles | cdn/src/dashboard/mod.rs:86-87 | the shown totals are the number and the summed size of all the user's files |
| CdnDashboard.TokenIsHeaderText | cdn/src/dashboard/mod.rs:280 | a generated key is valid header text, so it can be sent as x-api-key |
| CdnDashboard.NewKeyPasses | cdn/src/dashboard/mod.rs:273-294 | after regeneration the new key, if no other user holds it, passes the API gate as its user |
| CdnDashboard.OldKeyRevoked | cdn/src/dashboard/mod.rs:284-288 | after regeneration the old key no longer passes as that user |
| CdnMetrics.TryGetI64 | cdn/src/metrics/mod.rs:14 | only a bigint value reads as an i64 |
| CdnMetrics.ReadAggregate | cdn/src/metrics/mod.rs:13-21 | a failed query or a value that does not convert reads as 0 |
| CdnMetrics.AscendingTail | cdn/src/metrics/mod.rs:28-29 | the rest of an ascending series is ascending and comes after its first day |
| CdnMetrics.Bump | cdn/src/metrics/mod.rs:25-29 | counting a file lists its day, and no day is lost |
| CdnMetrics.DaysCons | cdn/src/metrics/mod.rs:25-29 | the days of a series are its first day and the rest's days |
| CdnMetrics.BumpKeepsShape | cdn/src/metrics/mod.rs:28-29 | counting a file keeps the series in ascending day order with positive counts |
| CdnMetrics.PositiveTail | cdn/src/metrics/mod.rs:28 | the rest of a positive series is positive |
| CdnMetrics.PositiveCons | cdn/src/metrics/mod.rs:28 | a positive head on a positive series is positive |
| CdnMetrics.AscendingCons | cdn/src/metrics/mod.rs:29 | a day before all of an ascending series keeps it ascending |
| CdnMetrics.Tally | cdn/src/metrics/mod.rs:23-42 | the series is in ascending day order and every listed day has files |
| CdnMetrics.BumpCounts | cdn/src/metrics/mod.rs:25-28 | counting a file adds one on its day only, and one to the total |
| CdnMetrics.TallyCounts | cdn/src/metrics/mod.rs:25-28 | the count on each day is the number of files of the last 30 days created that day |
| CdnMetrics.TallyTotal | cdn/src/metrics/mod.rs:25-28 | the counts add up to the number of files of the last 30 days |
| CdnMetrics.ListedIffCounted | cdn/src/metrics/mod.rs:28 | a day is listed exactly when it has files |
| CdnMetrics.DailySeries | cdn/src/metrics/mod.rs:23-42 | a failed query gives an empty series; otherwise one ascending point per day with files in the last 30 days, counting them all |
| CdnMetrics.SignedInUser | cdn/src/metrics/mod.rs:44-68 | a user is shown only for a known session whose user row was read, and then it is that user's name and avatar; an unknown session or a failed query shows none |
| CdnMetrics.KnownUserShown | cdn/src/metrics/mod.rs:54-68 | a known session's user is shown |
| CdnMetrics.MetricsPage | cdn/src/metrics/mod.rs:10-68 | each failed query shows its default (0, 0, no series, no user); a working count shows every file and a working sum, with the corrected total size (see Findings), the total size of every file |
| CdnMetrics.TotalSizeAsWritten | cdn/src/metrics/mod.rs:18-21 | as written, the total size reads as 0 whatever the files |
| CdnMetrics.TotalSize | cdn/src/metrics/mod.rs:18-21 | corrected: a failed query gives 0, otherwise the total size of every file |
| CdnMetrics.TotalFiles | cdn/src/metrics/mod.rs:13-16 | a failed count gives 0, otherwise the number of files |
| CdnMetrics.DailyStats | cdn/src/metrics/mod.rs:23-42 | a failed query gives no series; any series is in ascending day order with a positive count per day |
| CdnMetrics.OneByteTableShowsZero | cdn/src/metrics/mod.rs:18-21 | one file of one byte shows a total of 0 as written and 1 as intended |
| CdnMetrics.TotalSizeAddsUp | cdn/src/metrics/mod.rs:18-21 | the intended total grows by exactly a new file's size and is never negative |
| CdnMetrics.SizeSumPartition | cdn/src/metrics/mod.rs:18 | the total over a table is the total of a filter plus that of its complement |
| CdnMetrics.TotalSizeSplits | cdn/src/metrics/mod.rs:18-21 | the intended total is one user's files plus everyone else's |
| LegacyDelegate.Transfer | src/delegate/mod.rs:60-83 | the request is sent; a failed fetch, a broken stream or a failed put stores nothing and answers an error, otherwise the body is stored under the key |
| LegacyDelegate.Bucket.constructor | src/delegate/mod.rs:74 | the bucket starts with no objects and no requests sent |
| LegacyDelegate.MultiplexedUploader | src/delegate/mod.rs:32-88 | the result, the request sent and the bucket's objects are those of the specification `Upload`; a successful upload is recorded in sled under its key and counted (one more file, its size more bytes) unless the record fails to encode or insert; a failed upload leaves sled as it was |
| LegacyDelegate.Upload | src/delegate/mod.rs:32-88 | no request is sent exactly when the headers fail, with the Hackclub/CDN user agent, and then nothing is stored and the answer is an error; a request sent goes to the URL given |
| LegacyDelegate.SendAndPut | src/delegate/mod.rs:60-83 | the request is appended to those sent, the bucket changes only under the key and only when the body was stored, and a result names that key as its file |
| LegacyDelegate.SlackUrlNeedsToken | src/delegate/mod.rs:46-57 | a files.slack.com URL with no token is answered 400 with the token-required message, and no request is sent and nothing stored |
| LegacyDelegate.AuthorizationOnlyForSlack | src/delegate/mod.rs:40-58 | the request sent goes to the URL with the Hackclub/CDN user agent and carries an Authorization header exactly when the URL is on files.slack.com, and then it is Bearer plus the caller's token |
| LegacyDelegate.ResultDescribesStoredObject | src/delegate/mod.rs:74-83 | a result is given exactly when the body was stored; its file is the key, its size the stored size, its URL the CDN base, a slash and the key, and it carries the hex SHA-1 of the stored bytes exactly when hashing was asked for |
| LegacyDelegate.FailedPutStoresNothing | src/delegate/mod.rs:60-74 | when the put fails nothing is stored, and once a request was sent the answer is the internal-server-error response |
| LegacyGateways.SlackToken | src/gateways/legacy.rs:22 | the token is present exactly when the x-download-authorization header is present and visible ASCII, and is then that header's value |
| Http.HeaderToStr | src/gateways/legacy.rs:22 | `to_str` succeeds exactly on visible ASCII, and then gives the header value unchanged |
| LegacyGateways.Calls | src/gateways/legacy.rs:23-29 | one uploader call per URL, in the order given, each with the same hashing flag and token |
| LegacyGateways.Run | src/gateways/legacy.rs:23-29 | one result per call, the i-th being the uploader's answer for the i-th call |
| LegacyGateways.TryJoinAll | src/gateways/legacy.rs:23-31 | succeeds exactly when every result does, and then holds every value in order; otherwise it answers one of the errors |
| LegacyGateways.V1New | src/gateways/legacy.rs:21-41 | uploads every URL without hashing, forwarding the caller's token; fails exactly when some upload fails, answering the error response of a failing upload; otherwise the deployed URLs |
| LegacyGateways.DeployedUrlsOf | src/gateways/legacy.rs:33-36 | one deployed URL per result, in order |
| LegacyGateways.V2New | src/gateways/legacy.rs:50-70 | uploads every URL without hashing, forwarding the caller's token; fails exactly when some upload fails, answering the error response of a failing upload; otherwise the map from file name to URL |
| LegacyGateways.V3New | src/gateways/legacy.rs:79-93 | uploads every URL with hashing, forwarding the caller's token; fails exactly when some upload fails, answering the error response of a failing upload; otherwise the results with the CDN base |
| LegacyGateways.SingletonUpload | src/gateways/legacy.rs:102-110 | one upload of the single URL, without hashing, forwarding the caller's token; it fails exactly when that upload does, with its error response, and otherwise answers its result |
| LegacyGateways.HashOnlyForV3 | src/gateways/legacy.rs:21-110 | only v3 asks the uploader to hash; every endpoint forwards the caller's token on every call, and v3 makes one call per URL |
| LegacyGateways.V1InInputOrder | src/gateways/legacy.rs:31-37 | when every upload succeeds, v1 answers exactly one deployed URL per URL given, in that order |
| LegacyGateways.V1AnyFailureFailsAll | src/gateways/legacy.rs:21-41 | one failing URL fails the whole v1 request, with the error response of a failing URL at or before it |
| LegacyGateways.V3AnyFailureFailsAll | src/gateways/legacy.rs:89-92 | one failing URL fails the whole v3 request, with the error response of a failing URL at or before it |
| LegacyGateways.V3Results | src/gateways/legacy.rs:89-90 | when every upload succeeds, v3 answers every result in order together with the CDN base |
| LegacyGateways.V2AnyFailureFailsAll | src/gateways/legacy.rs:50-70 | one failing URL fails the whole v2 request, with the error response of a failing URL at or before it |
| LegacyGateways.V2Results | src/gateways/legacy.rs:50-70 | when every upload succeeds, v2 answers a map keyed by exactly the uploaded file names, and a name uploaded last at a position maps to that upload's URL |
| LegacyGateways.FileMap | src/gateways/legacy.rs:60-66 | the last result's file name is a key, mapped to its URL |
| LegacyGateways.FileMapKeys | src/gateways/legacy.rs:60-66 | the v2 map has a key for each result's file name and no other key |
| LegacyGateways.FileMapLastWins | src/gateways/legacy.rs:60-66 | where several results share a file name, the URL of the last of them is the one kept |
| SledStore.Sled.constructor | src/metrics/store.rs:1-15 | the tree opens with the records and counters given, with nothing yet counted |
| SledStore.Sled.Preflight | src/main.rs:84-90 | a missing counter is created at zero, an existing one is kept, and the records are untouched; afterwards both counters exist |
| SledStore.Sled.IncrementTotals | src/metrics/store.rs:17-31 | the file counter goes up by one and the size counter by the size given; nothing else changes |
| SledStore.Sled.GetTotals | src/metrics/store.rs:33-45 | answers the two counters, which equal their starting values plus the number and the total size of the results stored since |
| SledStore.Sled.StoreFile | src/metrics/store.rs:47-64 | the result is inserted under its file name and counted, unless encoding or the insert fails, which leaves the tree and the counters as they were; the counters stay equal to their start plus what was stored |

## Left out

- Network, storage and SDK calls are opaque steps that succeed or fail. This covers S3, Backblaze, Postgres, sled, Slack's Web API, HCA, Faraday, reqwest and fetch. A fetch is a `Fetcher` function from the request to the reply; the stores fail as their fault sets or flags say.
- The SDK's managed upload (`@aws-sdk/lib-storage`) in `uploadStream` of src/storage.ts is modelled only by its success or failure; its own part handling is not modelled.
- `put_object_stream` of the Rust services is a put that stores the streamed bytes or fails.
- The clock, random bytes, `Math.random`, `.sample`, UUIDv7 (RFC 9562), SHA-1 (FIPS 180-4), HMAC-SHA256 (RFC 2104) and the hashid codec are parameters. Their own algorithms are not modelled.
- Concurrency is modelled sequentially, in input order. This covers `p-limit`, `Promise.all` in src/storage.ts and src/routes/upload.ts, `try_join_all` in src/gateways/legacy.rs, and the tokio mutex around the session store.
- The quota race between concurrent uploads of one user is not modelled.
- LegacyGateways.TryJoinAll: `try_join_all` fails with whichever error arrives first in time. The model fails with the error of the first failing URL, and its contract only promises one of the errors.
- Floating point is not modelled: `percentage_used` rounding, the MB/KB display of the dashboards and `parseFloat` of Slack timestamps. Integer milliseconds and integer ratios stand in for them.
- Library-backed steps are parameters or are not modelled:
  - Marcel MIME sniffing;
  - `ActiveStorage::Filename#sanitized`;
  - YAML, Redcarpet and `titleize`;
  - pg_search;
  - Lockbox and the blind index.
- Regular expressions are written out as the predicates they decide, with `.` matching any character. In the JavaScript patterns, which have no `m` flag, `^` and `$` are string anchors. Ruby's `$` is an end-of-line anchor, and ExternalUploads.IsImageUrl models it so (app/controllers/external_uploads_controller.rb:35). A backtrace frame is taken to be a single line.
- SlackJobText.BacktraceExcerptLines requires that no formatted frame holds a line feed of its own, because the excerpt is joined with line feeds and such a frame would split.
- UploadsController.FlashOf takes `number_to_human_size` as the parameter `humanSize`; its formatting is not modelled. The Sentry capture is modelled only by the event id `Create` is given. A failed `create_and_upload!` carries a fixed message that stands in for the exception's own.
- UploadsController.Index models `index` without a search query; the `search_by_filename` branch (pg_search) is not modelled.
- AdminUsers.Humanize models ActiveSupport `humanize` for snake_case slugs only: inflection rules, acronyms, the dropped `_id` suffix and leading underscores are not modelled. The two slugs `set_quota` accepts use none of them.
- The quota-exceeded reply of the Slack upload job and its `number_to_human_size` text are not modelled. Neither are the notify texts of the job.
- The Slack API calls of the Slack relays and of the Slack upload job are assumed to succeed. Reactions and messages are recorded in a call log.
- HTML and markup are not modelled: the dashboard and metrics pages (maud), the components and helpers of the Rails app, and the dropzone script. A page is the data it is rendered from.
- The bincode encoding of the sled values is not modelled. A value is kept as what it encodes, and an encoding failure is a flag.
- SledStore.Sled.GetTotals and SledStore.Sled.IncrementTotals require both counters to exist. The source unwraps them and panics otherwise, and the start-up preflight creates them. Integer overflow of the counters is not modelled.
- StorageWriter.CalculatePartSize follows the code: every size up to 100 MiB, 50 MiB included, gets 5 MiB parts, because the tier tests are strict. A 10 MiB part for a 50 MiB file, as it is sometimes described, does not follow from the code.
- The error type of the legacy Rust service (src/delegate/error.rs) is not part of this model. It is taken to be the CDN service's `DelegateError`.
- `getFileTypeMessage` in src/fileUpload.js builds a set it never reads, which the model leaves out; the messages come from src/config/messages.js.
- Routing, configuration and bootstrap are not modelled, except the sled preflight of src/main.rs:84-90. Neither are the thin wrappers around the SDKs, nor the remaining controllers.
- StorageWriter.ReplaceUnsafe and StorageWriter.SanitizeFileName state the place of each kept or replaced character only for input within the Basic Multilingual Plane. Above it, a character is two UTF-16 code units and becomes `__`, which shifts the later positions; for all input they state the length in code units and the character set.
- StorageWriter.UniqueFileName, StorageRelay.UniqueFileName and StorageRelay.Names (which both Slack relays use) use one clock reading for both the `upload_<now>` fallback and the timestamp prefix. The source reads `Date.now()` twice (src/storage.ts:43 and 48, src/storage.js:55 and 63, src/fileUpload.js:55 and 59), and the two readings may differ by a millisecond.
- FileUploadRelay.Relay.HandleFileUpload uses one clock reading for the age test, the eviction and the mark. The source reads `Date.now()` at each of src/fileUpload.js:29, 39 and 49.
- StorageRelay.Relay.ProcessFiles, StorageRelay.Relay.TakeOn, StorageRelay.Relay.HandleFileUpload and SlackUploadJob.Perform are stated over the corrected steps of the Findings table, not the code as written. StorageRelay.StepAsWritten and SlackUploadJob.FindOrCreateUserAsWritten model the code as written, and their lemmas show where the two differ.
- CdnMetrics.MetricsPage states the corrected total size of the Findings table; CdnMetrics.TotalSizeAsWritten is the code as written, which always shows 0.
- UploadRecord.AssetsUrl and UploadRecord.AssetsUrlInjective take record ids as naturals. Rails uses UUIDv7 ids here; injectivity only needs an id to hold no `/`, which a UUID's text does not.
- SlackService.RubyToI does not model the `_` digit separator that Ruby's `to_i` accepts (`"1_000".to_i` is 1000). Slack timestamps hold no `_`.
- PublicId.SetPublicIdPrefix lower-cases ASCII letters only. Ruby's `downcase` also folds other letters; the prefixes the app uses are ASCII.
- Users.FindOrCreateFromOmniauth assumes that `user.update` at app/models/user.rb:31-37 saves. A failed validation there returns false, which the source ignores, and the model does not track.
- ApiKeysController.Create does not model the 400 that `params.require(:api_key)` raises when the form sends no `api_key` at all. A missing name within the form is modelled, as a validation failure.
- SledStore.Sled.IncrementTotals, SledStore.Sled.StoreFile and SledStore.Sled.Preflight do not model a sled I/O error. `fetch_and_update` failures are discarded by the source (src/metrics/store.rs:18 and 25), and an error from `contains_key` reads as "missing" (src/main.rs:85 and 88); the model treats both calls as succeeding.
- LegacyApi.UploadRoute takes the body as an optional string and `req.text()` as a result that may fail, as `handleUpload` reads them (src/api/upload.js:50-54). Behind `express.json()` (index.js:26) the body is a parsed object, never a string, and Express requests have no `text` method. The model does not represent an object body; such a request answers 500 `Storage upload failed`, which the model gives when `text` fails.

## Findings

| source | as written | input that shows it | evidently intended | confidence | as-written member | corrected member |
|---|---|---|---|---|---|---|
| app/jobs/process_slack_file_upload_job.rb:45-59 | `find_or_create_user` creates an unknown Slack poster without an `hca_id`, and the model at app/models/user.rb:15 validates `hca_id` for presence, so `create!` always raises | any message from a Slack user who is not yet in the users table | the poster is created once from their Slack profile, with the fallback e-mail and name, and found again by the next message | not executed | SlackUploadJob.FindOrCreateUserAsWritten, SlackUploadJob.UnknownPosterIsNeverCreated | SlackUploadJob.FindOrCreateUser, SlackUploadJob.SlackUserCreatedOnce |
| src/storage.js:115-121 | `uploadToStorage` returns a boolean, so `uploadResult.success` is undefined and `=== false` never holds; a file the bucket refused is reported as uploaded, with a link to an object that does not exist | a downloaded file whose put to the bucket fails | a file the bucket refused is reported as failed, and every file reported as uploaded is in the bucket | not executed | StorageRelay.StepAsWritten, StorageRelay.StorageFailureReportedAsUploaded | StorageRelay.Step, StorageRelay.UploadedFilesAreStored |
| cdn/src/metrics/mod.rs:18-21 | `SUM(size)` over a bigint column is a numeric in PostgreSQL, so `try_get::<i64>` fails and `unwrap_or(0)` shows a total size of 0 | a files table holding one file of one byte | the total size is the sum of the sizes of all files | not executed | CdnMetrics.TotalSizeAsWritten, CdnMetrics.OneByteTableShowsZero | CdnMetrics.TotalSize, CdnMetrics.TotalSizeAddsUp, CdnMetrics.TotalSizeSplits |
