/**
 * app/controllers/uploads_controller.rb: the signed-in user's upload page.
 * `create` runs behind the `check_quota` filter, which refuses a file over
 * the per-file limit or one that would take the user past the storage
 * limit before anything is stored; `destroy` is authorized by the upload
 * policy; `index` lists the user's uploads newest first, 50 per page.
 */
module UploadsController {
  import opened Common
  import opened Records
  import Quota
  import Users
  import QS = QuotaService
  import UploadRecord
  import Policies

  const PER_PAGE: nat := 50

  /** Where `create` ends up; each outcome redirects to the uploads page with its flash. */
  datatype CreateOutcome =
    | NoFile
    | FileTooLarge(size: nat, limit: nat)
    | WouldExceedStorage(used: nat, limit: nat)
    | UploadFailed(message: string, eventId: string)
    | Uploaded(upload: Upload)

  datatype Flash = Notice(text: string) | Alert(text: string)

  /**
   * The flash each outcome sets. `humanSize` is `number_to_human_size`; a
   * failure names the message and the id Sentry gave the exception.
   */
  function FlashOf(r: CreateOutcome, humanSize: nat -> string): (f: Flash)
    ensures f.Notice? <==> r.Uploaded?
    ensures r.FileTooLarge? ==>
              StartsWith(f.text, "File size (" + humanSize(r.size) + ")")
              && EndsWith(f.text, " exceeds your limit of " + humanSize(r.limit) + " per file.")
    ensures r.WouldExceedStorage? ==>
              EndsWith(f.text, " You're using " + humanSize(r.used) + " of " + humanSize(r.limit) + ".")
    ensures r.UploadFailed? ==>
              StartsWith(f.text, "Upload failed: " + r.message) && EndsWith(f.text, " (Error ID: " + r.eventId + ")")
  {
    match r
    case NoFile => Alert("Please select a file to upload.")
    case FileTooLarge(size, limit) =>
      var head, tail := "File size (" + humanSize(size) + ")", " exceeds your limit of " + humanSize(limit) + " per file.";
      ConcatEnds(head, tail);
      Alert(head + tail)
    case WouldExceedStorage(used, limit) =>
      var tail := " You're using " + humanSize(used) + " of " + humanSize(limit) + ".";
      ConcatEnds("Uploading this file would exceed your storage quota.", tail);
      Alert("Uploading this file would exceed your storage quota." + tail)
    case UploadFailed(m, eventId) =>
      var head, tail := "Upload failed: " + m, " (Error ID: " + eventId + ")";
      ConcatEnds(head, tail);
      Alert(head + tail)
    case Uploaded(_) => Notice("File uploaded successfully!")
  }

  /** The decision `check_quota` takes for a present file, given the policy and the usage. */
  function QuotaCheck(p: Quota.Policy, used: nat, size: nat): (r: Option<CreateOutcome>)
    ensures r.None? <==> QS.Admits(p, used, size)
    ensures size > p.maxFileSize ==> r == Some(FileTooLarge(size, p.maxFileSize))
  {
    if size > p.maxFileSize then Some(FileTooLarge(size, p.maxFileSize))
    else if !QS.Admits(p, used, size) then Some(WouldExceedStorage(used, p.maxTotalStorage))
    else None
  }

  /** The two refusals are told apart: the per-file limit is checked first, then the total. */
  lemma QuotaCheckOrder(p: Quota.Policy, used: nat, size: nat)
    ensures size <= p.maxFileSize && used + size > p.maxTotalStorage ==>
              QuotaCheck(p, used, size) == Some(WouldExceedStorage(used, p.maxTotalStorage))
    ensures QuotaCheck(p, used, size).None? ==> used + size <= p.maxTotalStorage
  {
    QS.AdmitsBounds(p, used, size);
  }

  /**
   * `check_quota` then `create`. The quota service may upgrade the user to
   * "verified" on the way; a refused file leaves no blob and no upload; an
   * accepted one adds exactly one upload with provenance web, and the
   * user's total then stays within the limit.
   */
  method Create(db: Db, userIndex: nat, hca: QS.HcaCheck, file: Option<UploadedFile>,
                blobKey: string, storeOk: bool, eventId: string, now: nat) returns (r: CreateOutcome)
    requires db.Valid() && userIndex < |db.users|
    modifies db
    ensures db.Valid() && userIndex < |db.users|
    ensures var u := old(db.users[userIndex]);
            var verified := QS.HcaVerified(u, hca);
            var p := QS.ResolvedPolicy(u, verified);
            var used := Users.TotalStorageBytes(old(db.uploads), u.id);
            match file
            case None =>
              r == NoFile && db.users == old(db.users) && db.uploads == old(db.uploads)
              && db.storedBlobs == old(db.storedBlobs)
            case Some(f) =>
              db.users == (if QS.Upgrades(u, verified) then old(db.users)[userIndex := QS.Upgraded(u)] else old(db.users))
              && (QuotaCheck(p, used, f.size).Some? ==>
                    r == QuotaCheck(p, used, f.size).value
                    && db.uploads == old(db.uploads) && db.storedBlobs == old(db.storedBlobs))
              && (QuotaCheck(p, used, f.size).None? && !storeOk ==>
                    r.UploadFailed? && r.eventId == eventId && db.uploads == old(db.uploads) && db.storedBlobs == old(db.storedBlobs))
              && (QuotaCheck(p, used, f.size).None? && storeOk ==>
                    var row := Upload(old(db.nextId), u.id, Blob(blobKey, f.originalFilename, f.contentType, f.size),
                                      Web, None, now);
                    r == Uploaded(row) && db.uploads == old(db.uploads) + [row]
                    && db.storedBlobs == old(db.storedBlobs) + {blobKey}
                    && Users.TotalStorageBytes(db.uploads, u.id) <= p.maxTotalStorage)
    ensures db.apiKeys == old(db.apiKeys)
  {
    if file.None? {
      return NoFile;
    }
    var f := file.value;
    ghost var u := db.users[userIndex];
    ghost var p := QS.ResolvedPolicy(u, QS.HcaVerified(u, hca));
    ghost var used := Users.TotalStorageBytes(db.uploads, u.id);
    var refusal := CheckQuota(db, userIndex, hca, f.size);
    if refusal.Some? {
      return refusal.value;
    }
    if !storeOk {
      return UploadFailed("Failed to upload blob " + blobKey, eventId);
    }
    db.StoreBlob(blobKey);
    var row := Upload(0, db.users[userIndex].id, Blob(blobKey, f.originalFilename, f.contentType, f.size), Web, None, now);
    var id := db.InsertUpload(row);
    r := Uploaded(row.(id := id));
    QS.AdmitsBounds(p, used, f.size);
    Users.StorageAfterInsert(old(db.uploads), row.(id := id), u.id);
  }

  /** The `check_quota` filter for a present file: the refusal, if any; only the user row may change. */
  method CheckQuota(db: Db, userIndex: nat, hca: QS.HcaCheck, size: nat) returns (refusal: Option<CreateOutcome>)
    requires db.Valid() && userIndex < |db.users|
    modifies db
    ensures db.Valid() && userIndex < |db.users|
    ensures var u := old(db.users[userIndex]);
            var verified := QS.HcaVerified(u, hca);
            refusal == QuotaCheck(QS.ResolvedPolicy(u, verified), Users.TotalStorageBytes(old(db.uploads), u.id), size)
            && db.users == (if QS.Upgrades(u, verified) then old(db.users)[userIndex := QS.Upgraded(u)] else old(db.users))
            && db.users[userIndex].id == u.id
    ensures db.uploads == old(db.uploads) && db.storedBlobs == old(db.storedBlobs)
    ensures db.apiKeys == old(db.apiKeys) && db.nextId == old(db.nextId)
  {
    ghost var u := db.users[userIndex];
    ghost var verified := QS.HcaVerified(u, hca);
    var svc := new QS.QuotaService(db, userIndex, hca);
    var policy := svc.CurrentPolicy();
    if size > policy.maxFileSize {
      return Some(FileTooLarge(size, policy.maxFileSize));
    }
    QS.UpgradeIsPermanent(u, verified);
    var ok := svc.CanUpload(size);
    if !ok {
      var usedNow := Users.TotalStorageBytes(db.uploads, db.users[userIndex].id);
      return Some(WouldExceedStorage(usedNow, policy.maxTotalStorage));
    }
    refusal := None;
  }

  datatype DestroyOutcome = NotFound | NotAuthorized | Deleted

  function DestroyFlash(r: DestroyOutcome): Option<Flash>
  {
    match r
    case NotFound => None
    case NotAuthorized => Some(Alert("You are not authorized to delete this upload."))
    case Deleted => Some(Notice("Upload deleted successfully."))
  }

  /**
   * `set_upload` then `destroy`: an unknown id is a 404; a user the policy
   * refuses leaves the upload in place; otherwise the row and its blob go.
   */
  method Destroy(db: Db, user: User, uploadId: nat) returns (r: DestroyOutcome)
    requires db.Valid()
    modifies db
    ensures db.Valid()
    ensures match UploadIndex(old(db.uploads), uploadId)
            case None => r == NotFound && db.uploads == old(db.uploads) && db.storedBlobs == old(db.storedBlobs)
            case Some(i) =>
              var up := old(db.uploads[i]);
              if Policies.Permits(Policies.UploadPolicy(user, up), Policies.Destroy) then
                r == Deleted && db.uploads == old(db.uploads[..i] + db.uploads[i + 1..])
                && db.storedBlobs == old(db.storedBlobs) - {up.blob.key}
              else
                r == NotAuthorized && db.uploads == old(db.uploads) && db.storedBlobs == old(db.storedBlobs)
    ensures db.users == old(db.users) && db.apiKeys == old(db.apiKeys)
  {
    var found := UploadIndex(db.uploads, uploadId);
    if found.None? {
      return NotFound;
    }
    var i := found.value;
    if !Policies.Permits(Policies.UploadPolicy(user, db.uploads[i]), Policies.Destroy) {
      return NotAuthorized;
    }
    var _ := UploadRecord.Destroy(db, i);
    r := Deleted;
  }

  /** The `recent` scope's key: newer rows first. */
  function NewestFirst(u: Upload): int
  {
    -(u.createdAt as int)
  }

  /** `current_user.uploads.recent`: the user's uploads, newest first. */
  function Listing(uploads: seq<Upload>, userId: nat): (r: seq<Upload>)
    ensures multiset(r) == multiset(Filter(uploads, Users.OwnedBy(userId)))
    ensures SortedBy(r, NewestFirst)
    ensures forall u :: u in r ==> u in uploads && u.userId == userId
    ensures |r| == Users.TotalFiles(uploads, userId)
  {
    var owned := Filter(uploads, Users.OwnedBy(userId));
    var mine := SortBy(owned, NewestFirst);
    forall u | u in mine
      ensures u in uploads && u.userId == userId
    {
      assert u in multiset(mine);
      assert u in owned;
    }
    assert |mine| == |multiset(mine)| == |multiset(owned)| == |owned|;
    mine
  }

  /**
   * `index` without a search query: `.page(page).per(50)` of the listing,
   * the 50 uploads from position (page - 1) * 50 on, with a page below 1
   * read as 1.
   */
  function Index(uploads: seq<Upload>, userId: nat, page: int): (r: seq<Upload>)
    ensures |r| <= PER_PAGE
    ensures forall u :: u in r ==> u in uploads && u.userId == userId
    ensures SortedBy(r, NewestFirst)
    ensures var all := Listing(uploads, userId);
            var offset := PageOffset(page, PER_PAGE);
            && |r| == (if offset >= |all| then 0 else Min(PER_PAGE, |all| - offset))
            && forall k :: 0 <= k < |r| ==> r[k] == all[offset + k]
  {
    var mine := Listing(uploads, userId);
    PageSorted(mine, NewestFirst, page, PER_PAGE);
    Page(mine, page, PER_PAGE)
  }

  /** Pages 1 to `n` of `index`, one after the other. */
  function IndexPages(uploads: seq<Upload>, userId: nat, n: nat): seq<Upload>
  {
    Pages(Listing(uploads, userId), n, PER_PAGE)
  }

  /** Page `page` of `index` is that page of the listing. */
  lemma IndexIsPage(uploads: seq<Upload>, userId: nat, page: int)
    ensures Index(uploads, userId, page) == Page(Listing(uploads, userId), page, PER_PAGE)
  {
  }

  /**
   * Paging neither skips nor repeats: page n follows pages 1 to n - 1, the
   * pages 1 to n list the newest `n * 50` uploads in order, and once they
   * reach the user's file count they hold each of the user's uploads
   * exactly once.
   */
  lemma PagesListEveryUpload(uploads: seq<Upload>, userId: nat, n: nat)
    ensures n > 0 ==> IndexPages(uploads, userId, n) == IndexPages(uploads, userId, n - 1) + Index(uploads, userId, n)
    ensures IndexPages(uploads, userId, n) == Listing(uploads, userId)[..Min(n * PER_PAGE, Users.TotalFiles(uploads, userId))]
    ensures n * PER_PAGE >= Users.TotalFiles(uploads, userId) ==>
              multiset(IndexPages(uploads, userId, n)) == multiset(Filter(uploads, Users.OwnedBy(userId)))
  {
    var all := Listing(uploads, userId);
    IndexIsPage(uploads, userId, n);
    PagesArePrefix(all, n, PER_PAGE);
    if n * PER_PAGE >= |all| {
      assert all[..|all|] == all;
    }
  }

  /** The first page holds every upload of a user who has at most 50. */
  lemma FirstPageIsEverything(uploads: seq<Upload>, userId: nat)
    requires Users.TotalFiles(uploads, userId) <= PER_PAGE
    ensures multiset(Index(uploads, userId, 1)) == multiset(Filter(uploads, Users.OwnedBy(userId)))
  {
    PagesListEveryUpload(uploads, userId, 1);
  }
}
