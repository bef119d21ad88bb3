/**
 * app/jobs/process_slack_file_upload_job.rb: a Slack message with files is
 * turned into uploads for the Slack user who posted it. The user is found
 * (or created) by Slack id, every file is fetched with the bot token and
 * stored with provenance slack, and each stored upload is checked against
 * the quota afterwards, the offending one destroyed. The Slack Web API's
 * answers (the poster's profile) and each file's blob parameters are
 * inputs; the reactions and messages the job posts are recorded in order.
 */
module SlackUploadJob {
  import opened Common
  import opened Http
  import opened Records
  import Quota
  import Users
  import QuotaService
  import UploadRecord
  import SlackJobText

  datatype SlackFile = SlackFile(name: string, urlPrivate: string)

  datatype Event = Event(channel: string, ts: string, user: Option<string>, files: Option<seq<SlackFile>>)

  /** What `users.info` returns about the poster. */
  datatype SlackProfile = SlackProfile(email: Option<string>, realName: Option<string>, name: Option<string>)

  /** What Active Storage and the MIME sniffer do for one file. */
  datatype FileEnv = FileEnv(sniffed: Option<string>, blobKey: string, storeOk: bool)

  datatype QuotaReason = FileTooLarge | StorageExceeded

  datatype JobError = QuotaExceeded(reason: QuotaReason) | Failed(message: string)

  /** The messages and reactions the job sends to the thread. */
  datatype SlackAction =
    | AddReaction(emoji: string)
    | RemoveReaction(emoji: string)
    | Reply(text: string)
    | PostSuccess(uploads: seq<Upload>)
    | PostQuotaExceeded(reason: QuotaReason)
    | PostError(message: string)

  // ---------------------------------------------------------------------
  // Finding or creating the poster

  function SlackEmail(slackUserId: Option<string>, profile: SlackProfile): string
  {
    match profile.email
    case Some(e) => e
    case None => "slack-" + (match slackUserId case Some(id) => id case None => "") + "@temp.hackclub.com"
  }

  function SlackName(profile: SlackProfile): string
  {
    match profile.realName
    case Some(n) => n
    case None => match profile.name case Some(n) => n case None => "Slack User"
  }

  /** The row the job means to create for an unknown poster: no HCA id, no policy, not an admin. */
  function SlackUser(slackUserId: Option<string>, profile: SlackProfile): (u: User)
    ensures u.hcaId.None? && u.quotaPolicy.None? && !u.isAdmin && u.slackId == slackUserId
  {
    User(0, None, slackUserId, Some(SlackEmail(slackUserId, profile)), Some(SlackName(profile)), false, None, None)
  }

  /** `User.find_by(slack_id:)`. */
  function SlackLookup(users: seq<User>, slackUserId: Option<string>): Option<nat>
  {
    FirstIndex(users, HasSlackId(slackUserId))
  }

  function HasSlackId(slackUserId: Option<string>): User -> bool
  {
    (u: User) => u.slackId == slackUserId
  }

  /**
   * `find_or_create_user` as written: the new row has no `hca_id`, which
   * the model's presence validation refuses, so `create!` raises for every
   * poster not already in the table.
   */
  method FindOrCreateUserAsWritten(db: Db, slackUserId: Option<string>, profile: Result<SlackProfile, string>)
    returns (r: Result<nat, string>)
    requires db.Valid()
    modifies db
    ensures db.Valid()
    ensures match SlackLookup(old(db.users), slackUserId)
            case Some(i) => r == Ok(old(db.users)[i].id)
            case None => r.Err?
    ensures db.users == old(db.users) && db.uploads == old(db.uploads) && db.storedBlobs == old(db.storedBlobs)
  {
    var found := SlackLookup(db.users, slackUserId);
    if found.Some? {
      return Ok(db.users[found.value].id);
    }
    if profile.Err? {
      return Err(profile.error);
    }
    var candidate := SlackUser(slackUserId, profile.value);
    if !Users.UserValid(candidate, db.users) {
      return Err("Validation failed: Hca can't be blank");
    }
    assert false;
  }

  /** Whatever Slack says about the poster, a poster not in the table is never created. */
  lemma UnknownPosterIsNeverCreated(users: seq<User>, slackUserId: Option<string>, profile: SlackProfile)
    ensures !Users.UserValid(SlackUser(slackUserId, profile), users)
  {
  }

  /** The validation the job evidently relies on: a unique HCA id when there is one, none required. */
  predicate SlackUserValid(u: User, users: seq<User>)
  {
    (u.hcaId.Some? ==> forall j :: 0 <= j < |users| && users[j].id != u.id ==> users[j].hcaId != u.hcaId)
    && (u.quotaPolicy.None? || u.quotaPolicy.value in Quota.ADMIN_ASSIGNABLE)
  }

  /**
   * `find_or_create_user` as intended: an unknown poster is created once,
   * from the profile, with the fallback e-mail and name.
   */
  method FindOrCreateUser(db: Db, slackUserId: Option<string>, profile: Result<SlackProfile, string>)
    returns (r: Result<nat, string>)
    requires db.Valid()
    modifies db
    ensures db.Valid()
    ensures match SlackLookup(old(db.users), slackUserId)
            case Some(i) => r == Ok(old(db.users)[i].id) && db.users == old(db.users)
            case None =>
              match profile
              case Err(e) => r == Err(e) && db.users == old(db.users)
              case Ok(p) =>
                r == Ok(old(db.nextId))
                && db.users == old(db.users) + [SlackUser(slackUserId, p).(id := old(db.nextId))]
    ensures r.Ok? ==> UserIndex(db.users, r.value).Some?
    ensures db.uploads == old(db.uploads) && db.storedBlobs == old(db.storedBlobs) && db.apiKeys == old(db.apiKeys)
  {
    var found := SlackLookup(db.users, slackUserId);
    if found.Some? {
      r := Ok(db.users[found.value].id);
      assert db.users[found.value].id == r.value;
      return;
    }
    if profile.Err? {
      return Err(profile.error);
    }
    var candidate := SlackUser(slackUserId, profile.value);
    assert SlackUserValid(candidate, db.users);
    assert forall j :: 0 <= j < |db.users| ==> db.users[j].slackId != slackUserId;
    var id := db.InsertUser(candidate);
    assert db.users[|db.users| - 1].id == id;
    r := Ok(id);
  }

  /** Once created, the poster is found by the next message: the creation happens once. */
  lemma SlackUserCreatedOnce(users: seq<User>, slackUserId: Option<string>, p: SlackProfile, id: nat)
    requires SlackLookup(users, slackUserId).None?
    ensures SlackLookup(users + [SlackUser(slackUserId, p).(id := id)], slackUserId) == Some(|users|)
  {
    var extended := users + [SlackUser(slackUserId, p).(id := id)];
    assert HasSlackId(slackUserId)(extended[|users|]);
    assert forall j :: 0 <= j < |users| ==> extended[j] == users[j] && !HasSlackId(slackUserId)(extended[j]);
  }

  // ---------------------------------------------------------------------
  // The quota post-check

  /** `enforce_quota!`'s decision, on the total that already includes the new upload. */
  function QuotaVerdict(p: Quota.Policy, size: nat, totalAfter: nat): Option<QuotaReason>
  {
    if size > p.maxFileSize then Some(FileTooLarge)
    else if totalAfter > p.maxTotalStorage then Some(StorageExceeded)
    else None
  }

  /** The post-check keeps exactly the uploads the pre-check `can_upload?` would have admitted. */
  lemma PostCheckMatchesPreCheck(p: Quota.Policy, used: nat, size: nat)
    ensures QuotaVerdict(p, size, used + size).None? <==> QuotaService.Admits(p, used, size)
    ensures size > p.maxFileSize ==> QuotaVerdict(p, size, used + size) == Some(FileTooLarge)
    ensures size <= p.maxFileSize && used + size == p.maxTotalStorage ==> QuotaVerdict(p, size, used + size).None?
  {
  }

  /** The policy the job's user resolves to; the HCA answer is a function, so it is the same every time. */
  function JobPolicy(u: User, hca: QuotaService.HcaCheck): Quota.Policy
  {
    QuotaService.ResolvedPolicy(u, QuotaService.HcaVerified(u, hca))
  }

  function AfterPolicyCheck(u: User, hca: QuotaService.HcaCheck): User
  {
    if QuotaService.Upgrades(u, QuotaService.HcaVerified(u, hca)) then QuotaService.Upgraded(u) else u
  }

  /** Resolving the policy twice gives the same answer: after an upgrade the slug itself says "verified". */
  lemma PolicyStable(u: User, hca: QuotaService.HcaCheck)
    ensures JobPolicy(AfterPolicyCheck(u, hca), hca) == JobPolicy(u, hca)
    ensures AfterPolicyCheck(AfterPolicyCheck(u, hca), hca) == AfterPolicyCheck(u, hca)
  {
    if QuotaService.Upgrades(u, QuotaService.HcaVerified(u, hca)) {
      QuotaService.UpgradeIsPermanent(u, QuotaService.HcaVerified(QuotaService.Upgraded(u), hca));
    }
  }

  /** `enforce_quota!` for the upload in row `i`: destroyed, with the reason, when it breaks the policy. */
  method EnforceQuota(db: Db, userIndex: nat, hca: QuotaService.HcaCheck, i: nat) returns (verdict: Option<QuotaReason>)
    requires db.Valid() && userIndex < |db.users| && i < |db.uploads|
    modifies db
    ensures db.Valid()
    ensures var u := old(db.users[userIndex]);
            verdict == QuotaVerdict(JobPolicy(u, hca), old(db.uploads[i].blob.byteSize),
                                    Users.TotalStorageBytes(old(db.uploads), u.id))
    ensures db.users == old(db.users)[userIndex := AfterPolicyCheck(old(db.users[userIndex]), hca)]
    ensures verdict.None? ==> db.uploads == old(db.uploads) && db.storedBlobs == old(db.storedBlobs)
    ensures verdict.Some? ==> db.uploads == old(db.uploads[..i] + db.uploads[i + 1..])
                              && db.storedBlobs == old(db.storedBlobs) - {old(db.uploads[i].blob.key)}
    ensures db.apiKeys == old(db.apiKeys)
  {
    var service := new QuotaService.QuotaService(db, userIndex, hca);
    var policy := service.CurrentPolicy();
    var upload := db.uploads[i];
    if upload.blob.byteSize > policy.maxFileSize {
      var _ := UploadRecord.Destroy(db, i);
      return Some(FileTooLarge);
    }
    if Users.TotalStorageBytes(db.uploads, db.users[userIndex].id) > policy.maxTotalStorage {
      var _ := UploadRecord.Destroy(db, i);
      return Some(StorageExceeded);
    }
    return None;
  }

  // ---------------------------------------------------------------------
  // The files of one message

  /** The request header every file is fetched with. */
  function BotAuthorization(botToken: string): string
  {
    "Bearer " + botToken
  }

  /** The upload row stored for file `k`, as `create_from_url` builds it. */
  predicate RowForFile(row: Upload, f: SlackFile, env: FileEnv, userId: nat)
  {
    row.userId == userId && row.provenance == Slack && row.originalUrl.None?
    && row.blob.key == env.blobKey && row.blob.filename == UploadRecord.DownloadedName(f.urlPrivate, None)
  }

  /** The rows stored for the first `|rows|` files, in order. */
  predicate RowsForFiles(rows: seq<Upload>, files: seq<SlackFile>, envs: seq<FileEnv>, userId: nat)
    requires |envs| == |files|
  {
    |rows| <= |files| && forall k :: 0 <= k < |rows| ==> RowForFile(rows[k], files[k], envs[k], userId)
  }

  /** No stored file is over the policy's per-file limit. */
  predicate WithinFileLimit(rows: seq<Upload>, p: Quota.Policy)
  {
    forall k :: 0 <= k < |rows| ==> rows[k].blob.byteSize <= p.maxFileSize
  }

  lemma RowsExtend(base: seq<Upload>, rows: seq<Upload>, row: Upload, files: seq<SlackFile>, envs: seq<FileEnv>,
                   userId: nat, p: Quota.Policy)
    requires |envs| == |files| && |rows| < |files|
    requires RowsForFiles(rows, files, envs, userId) && RowForFile(row, files[|rows|], envs[|rows|], userId)
    requires WithinFileLimit(rows, p) && row.blob.byteSize <= p.maxFileSize
    ensures RowsForFiles(rows + [row], files, envs, userId) && WithinFileLimit(rows + [row], p)
    ensures (base + rows) + [row] == base + (rows + [row])
  {
    var ext := rows + [row];
    forall k | 0 <= k < |ext|
      ensures RowForFile(ext[k], files[k], envs[k], userId) && ext[k].blob.byteSize <= p.maxFileSize
    {
      if k < |rows| {
        assert ext[k] == rows[k];
      } else {
        assert ext[k] == row;
      }
    }
  }

  /** A second policy check of the same user changes nothing more than the first. */
  lemma CheckTwice(users: seq<User>, i: nat, cur: User, u0: User, hca: QuotaService.HcaCheck)
    requires i < |users| && (cur == u0 || cur == AfterPolicyCheck(u0, hca))
    ensures users[i := cur][i := AfterPolicyCheck(cur, hca)] == users[i := AfterPolicyCheck(cur, hca)]
    ensures AfterPolicyCheck(cur, hca) == AfterPolicyCheck(u0, hca)
    ensures JobPolicy(AfterPolicyCheck(cur, hca), hca) == JobPolicy(u0, hca)
  {
    PolicyStable(u0, hca);
  }

  /** The table after a failure: the old rows, then the rows of the files before the failing one. */
  lemma KeptRows(base: seq<Upload>, kept: seq<Upload>, files: seq<SlackFile>, envs: seq<FileEnv>, userId: nat)
    requires |envs| == |files| && RowsForFiles(kept, files, envs, userId) && |kept| < |files|
    ensures var table := base + kept;
            |base| <= |table| < |base| + |files| && table[..|base|] == base
            && RowsForFiles(table[|base|..], files, envs, userId)
  {
    assert (base + kept)[|base|..] == kept;
  }

  /**
   * One file of `process_files`: fetched with the bot token, stored with
   * provenance slack, then checked against the quota. When it is kept the
   * owner is within the policy; when it fails the uploads table is as before.
   */
  method ProcessFile(db: Db, userIndex: nat, file: SlackFile, env: FileEnv, fetch: Fetcher,
                     botToken: string, hca: QuotaService.HcaCheck, now: nat,
                     ghost users0: seq<User>, ghost u0: User, ghost cur: User)
    returns (r: Result<Upload, JobError>, ghost next: User)
    requires db.Valid() && userIndex < |users0| && db.users == users0[userIndex := cur]
    requires cur == u0 || cur == AfterPolicyCheck(u0, hca)
    modifies db
    ensures db.Valid() && db.users == users0[userIndex := next]
    ensures next == cur || next == AfterPolicyCheck(u0, hca)
    ensures r.Ok? ==>
              var p := JobPolicy(u0, hca);
              db.uploads == old(db.uploads) + [r.value] && RowForFile(r.value, file, env, u0.id)
              && r.value.blob.byteSize <= p.maxFileSize
              && Users.TotalStorageBytes(db.uploads, u0.id) <= p.maxTotalStorage
    ensures r.Ok? ==>
              var fetched := UploadRecord.Download(fetch(UploadRecord.DownloadRequest(file.urlPrivate,
                                                                                      Some(BotAuthorization(botToken)))));
              fetched.Ok? && r.value.blob.byteSize == |fetched.value.body|
    ensures r.Err? ==> db.uploads == old(db.uploads)
    ensures db.apiKeys == old(db.apiKeys)
  {
    next := cur;
    var userId := db.users[userIndex].id;
    var created := UploadRecord.CreateFromUrl(db, fetch, file.urlPrivate, userId, Slack, None,
                                              Some(BotAuthorization(botToken)), None, env.sniffed,
                                              env.blobKey, env.storeOk, now);
    if created.Err? {
      return Err(Failed(created.error)), next;
    }
    var upload := created.value;
    ghost var stored := db.uploads;
    r, next := KeepWithinQuota(db, userIndex, upload, hca, users0, u0, cur);
    if r.Err? {
      assert stored[..|stored| - 1] == old(db.uploads);
    }
  }

  /**
   * The quota check after the row of a file was added: the row stays when
   * the owner is within the policy, and is destroyed otherwise.
   */
  method KeepWithinQuota(db: Db, userIndex: nat, upload: Upload, hca: QuotaService.HcaCheck,
                         ghost users0: seq<User>, ghost u0: User, ghost cur: User)
    returns (r: Result<Upload, JobError>, ghost next: User)
    requires db.Valid() && userIndex < |users0| && db.users == users0[userIndex := cur]
    requires cur == u0 || cur == AfterPolicyCheck(u0, hca)
    requires 0 < |db.uploads| && db.uploads[|db.uploads| - 1] == upload && upload.userId == cur.id
    modifies db
    ensures db.Valid() && db.users == users0[userIndex := next] && next == AfterPolicyCheck(u0, hca)
    ensures r.Ok? ==>
              var p := JobPolicy(u0, hca);
              r.value == upload && db.uploads == old(db.uploads)
              && upload.blob.byteSize <= p.maxFileSize
              && Users.TotalStorageBytes(db.uploads, u0.id) <= p.maxTotalStorage
    ensures r.Err? ==> db.uploads == old(db.uploads[..|db.uploads| - 1])
    ensures db.apiKeys == old(db.apiKeys)
  {
    CheckTwice(users0, userIndex, cur, u0, hca);
    next := AfterPolicyCheck(cur, hca);
    var verdict := EnforceQuota(db, userIndex, hca, |db.uploads| - 1);
    if verdict.Some? {
      return Err(QuotaExceeded(verdict.value)), next;
    }
    r := Ok(upload);
  }

  /** What `process_files` keeps true between files: the rows of the files done so far, within the policy. */
  ghost predicate Progress(db: Db, userIndex: nat, users0: seq<User>, u0: User, cur: User, hca: QuotaService.HcaCheck,
                           base: seq<Upload>, uploads: seq<Upload>, files: seq<SlackFile>, envs: seq<FileEnv>,
                           keys0: seq<ApiKey>)
    reads db
  {
    var p := JobPolicy(u0, hca);
    && |envs| == |files| && userIndex < |users0| && users0[userIndex] == u0
    && db.Valid() && db.users == users0[userIndex := cur]
    && (cur == u0 || cur == AfterPolicyCheck(u0, hca))
    && db.uploads == base + uploads
    && RowsForFiles(uploads, files, envs, u0.id)
    && (|uploads| > 0 ==> Users.TotalStorageBytes(db.uploads, u0.id) <= p.maxTotalStorage)
    && WithinFileLimit(uploads, p)
    && db.apiKeys == keys0
  }

  /** The next file of `process_files`: on success the progress extends by its row, on failure the kept rows are those of the earlier files. */
  method ProcessNext(db: Db, userIndex: nat, files: seq<SlackFile>, envs: seq<FileEnv>, k: nat, fetch: Fetcher,
                     botToken: string, hca: QuotaService.HcaCheck, now: nat, ghost users0: seq<User>, ghost u0: User,
                     ghost cur: User, ghost base: seq<Upload>, ghost uploads: seq<Upload>, ghost keys0: seq<ApiKey>)
    returns (r: Result<Upload, JobError>, ghost next: User)
    requires k == |uploads| < |files|
    requires Progress(db, userIndex, users0, u0, cur, hca, base, uploads, files, envs, keys0)
    modifies db
    ensures r.Ok? ==> Progress(db, userIndex, users0, u0, next, hca, base, uploads + [r.value], files, envs, keys0)
    ensures r.Err? ==> |envs| == |files| && db.Valid() && db.apiKeys == keys0
                       && (db.users == users0[userIndex := AfterPolicyCheck(u0, hca)] || db.users == users0)
                       && |base| <= |db.uploads| < |base| + |files| && db.uploads[..|base|] == base
                       && RowsForFiles(db.uploads[|base|..], files, envs, u0.id)
  {
    ghost var p := JobPolicy(u0, hca);
    r, next := ProcessFile(db, userIndex, files[k], envs[k], fetch, botToken, hca, now, users0, u0, cur);
    if r.Err? {
      KeptRows(base, uploads, files, envs, u0.id);
      return;
    }
    RowsExtend(base, uploads, r.value, files, envs, u0.id, p);
  }

  /**
   * `process_files`: the event's files in order. On success every file has
   * its row, in order, and the owner is within the policy; the first
   * failure stops the loop, and the rows of the earlier files stay.
   */
  method ProcessFiles(db: Db, userIndex: nat, files: seq<SlackFile>, envs: seq<FileEnv>, fetch: Fetcher,
                      botToken: string, hca: QuotaService.HcaCheck, now: nat)
    returns (r: Result<seq<Upload>, JobError>)
    requires db.Valid() && userIndex < |db.users| && |envs| == |files|
    modifies db
    ensures db.Valid()
    ensures var u := old(db.users[userIndex]);
            db.users == old(db.users)[userIndex := AfterPolicyCheck(u, hca)] || db.users == old(db.users)
    ensures r.Ok? ==> |r.value| == |files| && db.uploads == old(db.uploads) + r.value
    ensures r.Ok? ==> RowsForFiles(r.value, files, envs, old(db.users[userIndex]).id)
    ensures r.Ok? && |files| > 0 ==>
              var p := JobPolicy(old(db.users[userIndex]), hca);
              Users.TotalStorageBytes(db.uploads, old(db.users[userIndex]).id) <= p.maxTotalStorage
              && WithinFileLimit(r.value, p)
    ensures r.Err? ==> |old(db.uploads)| <= |db.uploads| < |old(db.uploads)| + |files|
                       && db.uploads[..|old(db.uploads)|] == old(db.uploads)
                       && RowsForFiles(db.uploads[|old(db.uploads)|..], files, envs, old(db.users[userIndex]).id)
    ensures db.apiKeys == old(db.apiKeys)
  {
    ghost var u0 := db.users[userIndex];
    ghost var base := db.uploads;
    ghost var p := JobPolicy(u0, hca);
    ghost var cur := u0;
    ghost var users0 := db.users;
    ghost var keys0 := db.apiKeys;
    var uploads: seq<Upload> := [];
    var k := 0;
    PolicyStable(u0, hca);
    assert db.users == users0[userIndex := cur];
    while k < |files|
      invariant 0 <= k <= |files| && |uploads| == k
      invariant Progress(db, userIndex, users0, u0, cur, hca, base, uploads, files, envs, keys0)
    {
      var one;
      one, cur := ProcessNext(db, userIndex, files, envs, k, fetch, botToken, hca, now, users0, u0, cur, base, uploads, keys0);
      if one.Err? {
        return Err(one.error);
      }
      uploads := uploads + [one.value];
      k := k + 1;
    }
    r := Ok(uploads);
  }

  // ---------------------------------------------------------------------
  // The job

  function FileNames(files: seq<SlackFile>): seq<string>
  {
    seq(|files|, i requires 0 <= i < |files| => files[i].name)
  }

  /** How the thread is told the outcome: the spinner goes, then a tick or a cross, then a reply. */
  function Notification(outcome: Result<seq<Upload>, JobError>): (actions: seq<SlackAction>)
    ensures |actions| == 3 && actions[0] == RemoveReaction("beachball")
    ensures actions[1] == AddReaction("white_check_mark") <==> outcome.Ok?
    ensures actions[1] == AddReaction("x") <==> outcome.Err?
  {
    match outcome
    case Ok(uploads) => [RemoveReaction("beachball"), AddReaction("white_check_mark"), PostSuccess(uploads)]
    case Err(QuotaExceeded(reason)) => [RemoveReaction("beachball"), AddReaction("x"), PostQuotaExceeded(reason)]
    case Err(Failed(message)) => [RemoveReaction("beachball"), AddReaction("x"), PostError(message)]
  }

  /**
   * `perform`: nothing happens for a message without files. Otherwise the
   * poster is found or created, the message gets a spinner and a flavor
   * reply, the files are processed, and the outcome is reported. The
   * Slack calls are recorded in `actions`; `outcome` is what was reported.
   */
  method Perform(db: Db, event: Event, profile: Result<SlackProfile, string>, envs: seq<FileEnv>, fetch: Fetcher,
                 botToken: string, hca: QuotaService.HcaCheck, now: nat, draw: nat)
    returns (actions: seq<SlackAction>, outcome: Option<Result<seq<Upload>, JobError>>)
    requires db.Valid()
    requires event.files.Some? ==> |envs| == |event.files.value|
    modifies db
    ensures db.Valid()
    ensures outcome.None? <==> event.files.None? || |event.files.value| == 0
    ensures outcome.None? ==> actions == [] && db.users == old(db.users) && db.uploads == old(db.uploads)
    ensures outcome.Some? ==>
              var lookupFailed := SlackLookup(old(db.users), event.user).None? && profile.Err?;
              actions == (if lookupFailed then [] else [AddReaction("beachball"),
                            Reply(SlackJobText.PickFlavor(FileNames(event.files.value), draw))])
                         + Notification(outcome.value)
    ensures outcome.Some? && outcome.value.Ok? ==>
              |outcome.value.value| == |event.files.value| && db.uploads == old(db.uploads) + outcome.value.value
    ensures outcome.Some? && outcome.value.Err? ==> |db.uploads| < |old(db.uploads)| + |event.files.value|
    ensures db.apiKeys == old(db.apiKeys)
  {
    if event.files.None? || |event.files.value| == 0 {
      return [], None;
    }
    var files := event.files.value;
    var found := FindOrCreateUser(db, event.user, profile);
    if found.Err? {
      var failure: Result<seq<Upload>, JobError> := Err(Failed(found.error));
      return Notification(failure), Some(failure);
    }
    var userIndex := UserIndex(db.users, found.value).value;
    actions := [AddReaction("beachball"), Reply(SlackJobText.PickFlavor(FileNames(files), draw))];
    var result := ProcessFiles(db, userIndex, files, envs, fetch, botToken, hca, now);
    actions := actions + Notification(result);
    outcome := Some(result);
  }
}
