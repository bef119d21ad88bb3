/**
 * cdn/src/gateways/files.rs: `delete_file`, by which an API-key holder
 * removes one of their files. The file is looked up by its public UUID;
 * only its owner may delete it; the object is removed from the bucket
 * first and the row second, and each step that fails stops the deletion
 * there with its own 500.
 */
module CdnFiles {
  import opened Common
  import opened CdnDb

  /** Which of the three calls fail: the lookup, the bucket delete, the row delete. */
  datatype DeleteFaults = DeleteFaults(lookup: bool, bucket: bool, row: bool)

  /** A plain-text response. */
  datatype Reply = Reply(status: nat, text: string)

  /** `SELECT storage_uuid, user_id FROM files WHERE public_uuid = $1`, with a failed query read as no row. */
  function Lookup(files: seq<FileRow>, publicUuid: string, fails: bool): (row: Option<FileRow>)
    ensures row.Some? ==> row.value in files && row.value.publicUuid == publicUuid
  {
    if fails then None else QueryOpt(files, (r: FileRow) => r.publicUuid == publicUuid)
  }

  /** `DELETE FROM files WHERE public_uuid = $1`. */
  function WithoutFile(files: seq<FileRow>, publicUuid: string): (rest: seq<FileRow>)
    ensures forall r :: r in rest <==> r in files && r.publicUuid != publicUuid
  {
    Filter(files, (r: FileRow) => r.publicUuid != publicUuid)
  }

  /** What a deletion does: the object removed, whether the row was removed, and the reply. */
  datatype Deletion = Deletion(removedObject: Option<string>, rowRemoved: bool, reply: Reply)

  /** The specification of `delete_file`. */
  function Delete(files: seq<FileRow>, publicUuid: string, userId: int, faults: DeleteFaults): (d: Deletion)
    ensures d.rowRemoved ==> d.removedObject.Some? && d.reply == Reply(200, "File deleted")
    ensures d.removedObject.Some? ==>
              exists row :: row in files && row.publicUuid == publicUuid && row.userId == userId
                            && d.removedObject.value == row.storageUuid
  {
    match Lookup(files, publicUuid, faults.lookup)
    case None => Deletion(None, false, Reply(404, "File not found"))
    case Some(row) =>
      if row.userId != userId then Deletion(None, false, Reply(403, "You don't own this file"))
      else if faults.bucket then Deletion(None, false, Reply(500, "Failed to delete from storage"))
      else if faults.row then Deletion(Some(row.storageUuid), false, Reply(500, "Failed to delete from database"))
      else Deletion(Some(row.storageUuid), true, Reply(200, "File deleted"))
  }

  /** `delete_file` for the user the API-key middleware let through. */
  method DeleteFile(cdn: Cdn, publicUuid: string, userId: int, faults: DeleteFaults) returns (reply: Reply)
    modifies cdn
    ensures var d := Delete(old(cdn.files), publicUuid, userId, faults);
            && reply == d.reply
            && cdn.objects == (if d.removedObject.Some? then old(cdn.objects) - {d.removedObject.value} else old(cdn.objects))
            && cdn.files == (if d.rowRemoved then WithoutFile(old(cdn.files), publicUuid) else old(cdn.files))
    ensures cdn.users == old(cdn.users) && cdn.sent == old(cdn.sent)
  {
    var found := Lookup(cdn.files, publicUuid, faults.lookup);
    if found.None? {
      return Reply(404, "File not found");
    }
    var row := found.value;
    if row.userId != userId {
      return Reply(403, "You don't own this file");
    }
    if faults.bucket {
      return Reply(500, "Failed to delete from storage");
    }
    cdn.objects := cdn.objects - {row.storageUuid};
    if faults.row {
      return Reply(500, "Failed to delete from database");
    }
    cdn.files := WithoutFile(cdn.files, publicUuid);
    reply := Reply(200, "File deleted");
  }

  // ---------------------------------------------------------------------
  // Properties of `Delete`

  /**
   * Only the owner's request deletes anything, and the row goes only after
   * the object: whatever is removed belongs to the file found under the
   * public UUID, whose owner is the caller.
   */
  lemma OnlyOwnerDeletes(files: seq<FileRow>, publicUuid: string, userId: int, faults: DeleteFaults)
    ensures var d := Delete(files, publicUuid, userId, faults);
            && (d.rowRemoved ==> d.removedObject.Some?)
            && (d.removedObject.Some? ==>
                  var row := Lookup(files, publicUuid, faults.lookup);
                  row.Some? && row.value.userId == userId && d.removedObject.value == row.value.storageUuid)
  {
  }

  /** The replies: 404 when no file is found, 403 for another user's file, 200 exactly when both deletes happened. */
  lemma DeleteReplies(files: seq<FileRow>, publicUuid: string, userId: int, faults: DeleteFaults)
    ensures var d := Delete(files, publicUuid, userId, faults);
            var row := Lookup(files, publicUuid, faults.lookup);
            && (d.reply.status == 404 <==> row.None?)
            && (d.reply.status == 403 <==> row.Some? && row.value.userId != userId)
            && (d.reply.status == 200 <==> d.rowRemoved)
            && (d.reply.status == 500 <==> row.Some? && row.value.userId == userId && (faults.bucket || faults.row))
            && (d.reply.status == 500 && d.removedObject.Some? ==> d.reply.text == "Failed to delete from database")
  {
  }

  /** Once the rows are deleted, no row is found under the public UUID, and every other row is kept. */
  lemma DeletedFileIsGone(files: seq<FileRow>, publicUuid: string, lookupFails: bool)
    ensures Lookup(WithoutFile(files, publicUuid), publicUuid, lookupFails).None?
    ensures forall r :: r in files && r.publicUuid != publicUuid ==> r in WithoutFile(files, publicUuid)
  {
  }

  /** The one row under a public UUID, owned by the caller, is deleted along with its object when nothing fails. */
  lemma OwnFileDeleted(files: seq<FileRow>, i: nat, userId: int)
    requires i < |files| && files[i].userId == userId
    requires forall j :: 0 <= j < |files| && j != i ==> files[j].publicUuid != files[i].publicUuid
    ensures Delete(files, files[i].publicUuid, userId, DeleteFaults(false, false, false))
            == Deletion(Some(files[i].storageUuid), true, Reply(200, "File deleted"))
  {
    QueryOptFinds(files, (r: FileRow) => r.publicUuid == files[i].publicUuid, i);
  }
}
