/**
 * The S3-compatible bucket the storage writer talks to, as far as the writer
 * can observe it: the objects under each key, the multipart uploads that
 * are open, and the log of every request sent. Transport and service
 * failures are an oracle fixed at construction: the request at position `i`
 * of the log fails exactly when `i` is in `faults`. Besides those, the
 * bucket refuses requests the way S3 does: a part or completion for an
 * unknown upload, or a completion whose part list is empty, out of order,
 * names a part that was not uploaded, quotes the wrong ETag, or has a
 * part other than the last under the 5 MiB minimum.
 */
module ObjectStore {
  import opened Common

  /** S3's minimum size of every part but the last of a multipart upload. */
  const S3_MIN_PART_SIZE: nat := 5 * 1024 * 1024

  datatype CompletedPart = CompletedPart(partNumber: nat, etag: nat)

  datatype StoredPart = StoredPart(data: seq<byte>, etag: nat)

  datatype PendingUpload = PendingUpload(key: string, parts: map<nat, StoredPart>)

  datatype Call =
    | PutObject(key: string, body: seq<byte>, contentType: string, cacheControl: string, contentLength: nat)
    | CreateMultipartUpload(key: string, contentType: string, cacheControl: string)
    | UploadPart(key: string, uploadId: nat, partNumber: nat, body: seq<byte>)
    | CompleteMultipartUpload(key: string, uploadId: nat, parts: seq<CompletedPart>)
    | AbortMultipartUpload(key: string, uploadId: nat)
    | ManagedUpload(key: string, body: seq<byte>, contentType: string, cacheControl: string)

  predicate ListsUploadedParts(parts: map<nat, StoredPart>, list: seq<CompletedPart>)
  {
    forall i :: 0 <= i < |list| ==> list[i].partNumber in parts && parts[list[i].partNumber].etag == list[i].etag
  }

  predicate StrictlyAscending(list: seq<CompletedPart>)
  {
    forall i, j :: 0 <= i < j < |list| ==> list[i].partNumber < list[j].partNumber
  }

  /** The conditions under which S3 accepts `CompleteMultipartUpload` for upload `u`. */
  predicate Completable(u: PendingUpload, key: string, list: seq<CompletedPart>)
  {
    u.key == key && |list| > 0 && ListsUploadedParts(u.parts, list) && StrictlyAscending(list)
    && forall i :: 0 <= i < |list| - 1 ==> |u.parts[list[i].partNumber].data| >= S3_MIN_PART_SIZE
  }

  /** The object a completed upload produces: the listed parts, in list order. */
  function Assemble(parts: map<nat, StoredPart>, list: seq<CompletedPart>): (body: seq<byte>)
    requires forall i :: 0 <= i < |list| ==> list[i].partNumber in parts
  {
    if |list| == 0 then []
    else Assemble(parts, list[..|list| - 1]) + parts[list[|list| - 1].partNumber].data
  }

  class Bucket {
    var objects: map<string, seq<byte>>
    var pending: map<nat, PendingUpload>
    var nextUploadId: nat
    var log: seq<Call>
    const faults: set<nat>

    /** Upload ids are handed out once: every open upload's id is below the next one. */
    ghost predicate Valid()
      reads this
    {
      forall id :: id in pending ==> id < nextUploadId
    }

    /** Whether the next request sent will fail in transit. */
    predicate NextFails()
      reads this
    {
      |log| in faults
    }

    constructor (faults: set<nat>)
      ensures Valid()
      ensures objects == map[] && pending == map[] && log == [] && this.faults == faults
    {
      objects := map[];
      pending := map[];
      nextUploadId := 0;
      log := [];
      this.faults := faults;
    }

    method PutObject(key: string, body: seq<byte>, contentType: string, cacheControl: string, contentLength: nat)
      returns (ok: bool)
      modifies this
      ensures ok == !old(NextFails())
      ensures log == old(log) + [Call.PutObject(key, body, contentType, cacheControl, contentLength)]
      ensures objects == if ok then old(objects)[key := body] else old(objects)
      ensures pending == old(pending) && nextUploadId == old(nextUploadId)
    {
      ok := !NextFails();
      log := log + [Call.PutObject(key, body, contentType, cacheControl, contentLength)];
      if ok {
        objects := objects[key := body];
      }
    }

    /** The one-request managed upload of the SDK's upload helper. */
    method ManagedUpload(key: string, body: seq<byte>, contentType: string, cacheControl: string)
      returns (ok: bool)
      modifies this
      ensures ok == !old(NextFails())
      ensures log == old(log) + [Call.ManagedUpload(key, body, contentType, cacheControl)]
      ensures objects == if ok then old(objects)[key := body] else old(objects)
      ensures pending == old(pending) && nextUploadId == old(nextUploadId)
    {
      ok := !NextFails();
      log := log + [Call.ManagedUpload(key, body, contentType, cacheControl)];
      if ok {
        objects := objects[key := body];
      }
    }

    method CreateMultipartUpload(key: string, contentType: string, cacheControl: string)
      returns (uploadId: Option<nat>)
      requires Valid()
      modifies this
      ensures Valid()
      ensures uploadId.Some? == !old(NextFails())
      ensures log == old(log) + [Call.CreateMultipartUpload(key, contentType, cacheControl)]
      ensures objects == old(objects)
      ensures uploadId.Some? ==> uploadId.value == old(nextUploadId) && nextUploadId == old(nextUploadId) + 1
      ensures uploadId.Some? ==> pending == old(pending)[uploadId.value := PendingUpload(key, map[])]
      ensures uploadId.None? ==> pending == old(pending) && nextUploadId == old(nextUploadId)
    {
      if NextFails() {
        uploadId := None;
      } else {
        uploadId := Some(nextUploadId);
        pending := pending[nextUploadId := PendingUpload(key, map[])];
        nextUploadId := nextUploadId + 1;
      }
      log := log + [Call.CreateMultipartUpload(key, contentType, cacheControl)];
    }

    /** Returns the part's ETag, which is the position of this request in the log. */
    method UploadPart(key: string, uploadId: nat, partNumber: nat, body: seq<byte>)
      returns (etag: Option<nat>)
      modifies this
      ensures etag.Some? == (!old(NextFails()) && uploadId in old(pending) && old(pending)[uploadId].key == key)
      ensures etag.Some? ==> etag.value == |old(log)|
      ensures log == old(log) + [Call.UploadPart(key, uploadId, partNumber, body)]
      ensures objects == old(objects) && nextUploadId == old(nextUploadId)
      ensures etag.Some? ==> pending == old(pending)[uploadId := old(pending)[uploadId].(
                parts := old(pending)[uploadId].parts[partNumber := StoredPart(body, |old(log)|)])]
      ensures etag.None? ==> pending == old(pending)
    {
      if !NextFails() && uploadId in pending && pending[uploadId].key == key {
        etag := Some(|log|);
        var u := pending[uploadId];
        pending := pending[uploadId := u.(parts := u.parts[partNumber := StoredPart(body, |log|)])];
      } else {
        etag := None;
      }
      log := log + [Call.UploadPart(key, uploadId, partNumber, body)];
    }

    method CompleteMultipartUpload(key: string, uploadId: nat, list: seq<CompletedPart>)
      returns (ok: bool)
      modifies this
      ensures ok == (!old(NextFails()) && uploadId in old(pending) && Completable(old(pending)[uploadId], key, list))
      ensures log == old(log) + [Call.CompleteMultipartUpload(key, uploadId, list)]
      ensures nextUploadId == old(nextUploadId)
      ensures ok ==> objects == old(objects)[key := Assemble(old(pending)[uploadId].parts, list)]
      ensures ok ==> pending == old(pending) - {uploadId}
      ensures !ok ==> objects == old(objects) && pending == old(pending)
    {
      ok := !NextFails() && uploadId in pending && Completable(pending[uploadId], key, list);
      if ok {
        objects := objects[key := Assemble(pending[uploadId].parts, list)];
        pending := pending - {uploadId};
      }
      log := log + [Call.CompleteMultipartUpload(key, uploadId, list)];
    }

    method AbortMultipartUpload(key: string, uploadId: nat)
      returns (ok: bool)
      modifies this
      ensures ok == (!old(NextFails()) && uploadId in old(pending) && old(pending)[uploadId].key == key)
      ensures log == old(log) + [Call.AbortMultipartUpload(key, uploadId)]
      ensures objects == old(objects) && nextUploadId == old(nextUploadId)
      ensures pending == if ok then old(pending) - {uploadId} else old(pending)
    {
      ok := !NextFails() && uploadId in pending && pending[uploadId].key == key;
      if ok {
        pending := pending - {uploadId};
      }
      log := log + [Call.AbortMultipartUpload(key, uploadId)];
    }
  }
}
