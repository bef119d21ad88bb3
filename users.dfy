/**
 * app/models/user.rb: the model's validations, the sign-in lookup that
 * refreshes or creates a user from the Hack Club Auth callback, and the
 * aggregate reads over the user's uploads.
 */
module Users {
  import opened Common
  import opened Records
  import Quota

  /** The model validations of row `u` against the table it is saved into. */
  predicate UserValid(u: User, users: seq<User>)
  {
    IsPresent(u.hcaId)
    && (forall j :: 0 <= j < |users| && users[j].id != u.id ==> users[j].hcaId != u.hcaId)
    && (u.quotaPolicy.None? || u.quotaPolicy.value in Quota.ADMIN_ASSIGNABLE)
  }

  /** What the OmniAuth callback supplies. */
  datatype Auth = Auth(
    uid: Option<string>,
    slackId: Option<string>,
    email: Option<string>,
    name: Option<string>,
    token: Option<string>)

  /** `find_by(hca_id:)`, then `find_by(slack_id:)` only when the Slack id is present. */
  function SignInLookup(users: seq<User>, hcaId: string, slackId: Option<string>): (r: Option<nat>)
    ensures r.Some? ==> r.value < |users|
    ensures r.Some? && users[r.value].hcaId != Some(hcaId) ==>
              IsPresent(slackId) && users[r.value].slackId == slackId
              && forall j :: 0 <= j < |users| ==> users[j].hcaId != Some(hcaId)
    ensures r.None? ==> forall j :: 0 <= j < |users| ==>
              users[j].hcaId != Some(hcaId) && (IsPresent(slackId) ==> users[j].slackId != slackId)
  {
    match FirstIndex(users, (u: User) => u.hcaId == Some(hcaId))
    case Some(i) => Some(i)
    case None =>
      if IsPresent(slackId) then FirstIndex(users, (u: User) => u.slackId == slackId) else None
  }

  /** The attributes a sign-in overwrites. */
  function Refreshed(u: User, auth: Auth): User
  {
    u.(hcaId := auth.uid, slackId := auth.slackId, email := auth.email, name := auth.name,
       hcaAccessToken := auth.token)
  }

  function NewUser(auth: Auth): User
  {
    User(0, auth.uid, auth.slackId, auth.email, auth.name, false, None, auth.token)
  }

  /** Whether a row other than `except` already holds this Slack id (the unique index would refuse it). */
  predicate SlackIdTaken(users: seq<User>, except: int, slackId: Option<string>)
  {
    slackId.Some? && exists j :: 0 <= j < |users| && j != except && users[j].slackId == slackId
  }

  lemma RefreshKeepsIdentitiesUnique(users: seq<User>, i: nat, auth: Auth)
    requires UniqueIdentities(users) && i < |users| && auth.uid.Some?
    requires forall j :: 0 <= j < |users| && j != i ==> users[j].hcaId != auth.uid
    requires !SlackIdTaken(users, i, auth.slackId)
    ensures UniqueIdentities(users[i := Refreshed(users[i], auth)])
  {
  }

  /**
   * `User.find_or_create_from_omniauth`: returns the id of the refreshed or
   * created user, or the error Rails raises. A blank uid raises before any
   * lookup; a Slack id already held by another row is refused by the unique
   * index.
   */
  method FindOrCreateFromOmniauth(db: Db, auth: Auth) returns (r: Result<nat, string>)
    requires db.Valid()
    modifies db
    ensures db.Valid()
    ensures !IsPresent(auth.uid) ==> r == Err("Missing HCA user ID from authentication")
    ensures IsPresent(auth.uid) ==>
              match SignInLookup(old(db.users), auth.uid.value, auth.slackId)
              case Some(i) =>
                (r.Ok? <==> !SlackIdTaken(old(db.users), i, auth.slackId))
                && (r.Ok? ==> r.value == old(db.users)[i].id
                              && db.users == old(db.users)[i := Refreshed(old(db.users)[i], auth)])
              case None =>
                (r.Ok? <==> !SlackIdTaken(old(db.users), -1, auth.slackId))
                && (r.Ok? ==> r.value == old(db.nextId)
                              && db.users == old(db.users) + [NewUser(auth).(id := old(db.nextId))])
    ensures r.Err? ==> db.users == old(db.users)
    ensures db.uploads == old(db.uploads) && db.apiKeys == old(db.apiKeys) && db.storedBlobs == old(db.storedBlobs)
  {
    if !IsPresent(auth.uid) {
      return Err("Missing HCA user ID from authentication");
    }
    var hcaId := auth.uid.value;
    var found := SignInLookup(db.users, hcaId, auth.slackId);
    if found.Some? {
      var i := found.value;
      if SlackIdTaken(db.users, i, auth.slackId) {
        return Err("RecordNotUnique: index_users_on_slack_id");
      }
      if db.users[i].hcaId == Some(hcaId) {
        assert forall j :: 0 <= j < |db.users| && j != i ==> db.users[j].hcaId != auth.uid;
      }
      RefreshKeepsIdentitiesUnique(db.users, i, auth);
      db.UpdateUser(i, Refreshed(db.users[i], auth));
      r := Ok(db.users[i].id);
    } else {
      if SlackIdTaken(db.users, -1, auth.slackId) {
        return Err("RecordNotUnique: index_users_on_slack_id");
      }
      var id := db.InsertUser(NewUser(auth));
      r := Ok(id);
    }
  }

  /** A signed-in user passes the model validations whenever the row it refreshes did. */
  lemma SignInPassesValidation(users: seq<User>, auth: Auth)
    requires UniqueIdentities(users) && IsPresent(auth.uid)
    ensures match SignInLookup(users, auth.uid.value, auth.slackId)
            case Some(i) =>
              (users[i].quotaPolicy.None? || users[i].quotaPolicy.value in Quota.ADMIN_ASSIGNABLE)
              ==> UserValid(Refreshed(users[i], auth), users)
            case None => UserValid(NewUser(auth), users)
  {
    match SignInLookup(users, auth.uid.value, auth.slackId)
    case Some(i) =>
      if users[i].hcaId == auth.uid {
        assert forall j :: 0 <= j < |users| && j != i ==> users[j].hcaId != auth.uid;
      }
      if users[i].quotaPolicy.None? || users[i].quotaPolicy.value in Quota.ADMIN_ASSIGNABLE {
        forall j | 0 <= j < |users| && users[j].id != users[i].id
          ensures users[j].hcaId != auth.uid
        {
          assert j != i;
        }
      }
    case None =>
  }

  // ---------------------------------------------------------------------
  // Aggregates over the user's uploads

  /** `total_storage_bytes`: the sum of `byte_size` over the user's uploads, each counted in full. */
  function TotalStorageBytes(uploads: seq<Upload>, userId: nat): (total: nat)
    ensures forall i :: 0 <= i < |uploads| && uploads[i].userId == userId ==> uploads[i].blob.byteSize <= total
  {
    if |uploads| == 0 then 0
    else (if uploads[0].userId == userId then uploads[0].blob.byteSize else 0)
         + TotalStorageBytes(uploads[1..], userId)
  }

  /** `total_files`: the number of the user's uploads. */
  function TotalFiles(uploads: seq<Upload>, userId: nat): nat
  {
    |Filter(uploads, OwnedBy(userId))|
  }

  /** The `uploads.where(user:)` condition. */
  function OwnedBy(userId: nat): Upload -> bool
  {
    (u: Upload) => u.userId == userId
  }

  function Share(u: Upload, userId: nat): nat
  {
    if u.userId == userId then u.blob.byteSize else 0
  }

  /** A new row adds its size to its owner's total and leaves every other user's total alone. */
  lemma {:induction false} StorageAfterInsert(uploads: seq<Upload>, u: Upload, userId: nat)
    ensures TotalStorageBytes(uploads + [u], userId) == TotalStorageBytes(uploads, userId) + Share(u, userId)
  {
    if |uploads| > 0 {
      assert (uploads + [u])[1..] == uploads[1..] + [u];
      StorageAfterInsert(uploads[1..], u, userId);
    }
  }

  /** Deleting row `i` takes exactly its size off its owner's total. */
  lemma {:induction false} StorageAfterDelete(uploads: seq<Upload>, i: nat, userId: nat)
    requires i < |uploads|
    ensures TotalStorageBytes(uploads[..i] + uploads[i + 1..], userId) + Share(uploads[i], userId)
            == TotalStorageBytes(uploads, userId)
  {
    if i > 0 {
      assert (uploads[..i] + uploads[i + 1..])[1..] == uploads[1..][..i - 1] + uploads[1..][i..];
      StorageAfterDelete(uploads[1..], i - 1, userId);
    } else {
      assert uploads[..i] + uploads[i + 1..] == uploads[1..];
    }
  }

  /** A user with no uploads uses nothing. */
  lemma {:induction false} NoFilesNoStorage(uploads: seq<Upload>, userId: nat)
    requires TotalFiles(uploads, userId) == 0
    ensures TotalStorageBytes(uploads, userId) == 0
  {
    if |uploads| > 0 {
      assert uploads[0] in uploads;
      assert !OwnedBy(userId)(uploads[0]);
      assert Filter(uploads, OwnedBy(userId)) == Filter(uploads[1..], OwnedBy(userId));
      NoFilesNoStorage(uploads[1..], userId);
    }
  }
}
