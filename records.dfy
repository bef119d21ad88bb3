/**
 * The Rails application's tables as the models, controllers and the Slack
 * job see them: users, uploads (each with its Active Storage blob inline),
 * API keys, and the set of blob keys present in the object store. Rows keep
 * their insertion order, which is also primary-key order, so `find_by`
 * returns the first matching row. The database's unique indexes on
 * `users.hca_id` and `users.slack_id` are part of the table invariant.
 */
module Records {
  import opened Common

  /** The `provenance` enum of app/models/upload.rb. */
  datatype Provenance = Slack | Web | Api | Rescued

  function ProvenanceName(p: Provenance): string
  {
    match p
    case Slack => "slack"
    case Web => "web"
    case Api => "api"
    case Rescued => "rescued"
  }

  /** The enum's validation: only the four declared values are accepted. */
  function ParseProvenance(s: string): (r: Option<Provenance>)
    ensures r.Some? ==> ProvenanceName(r.value) == s
  {
    if s == "slack" then Some(Slack)
    else if s == "web" then Some(Web)
    else if s == "api" then Some(Api)
    else if s == "rescued" then Some(Rescued)
    else None
  }

  lemma ProvenanceRoundTrip(p: Provenance, s: string)
    ensures ParseProvenance(ProvenanceName(p)) == Some(p)
    ensures ParseProvenance(s).Some? <==> s in ["slack", "web", "api", "rescued"]
  {
  }

  datatype Blob = Blob(key: string, filename: string, contentType: string, byteSize: nat)

  datatype User = User(
    id: nat,
    hcaId: Option<string>,
    slackId: Option<string>,
    email: Option<string>,
    name: Option<string>,
    isAdmin: bool,
    quotaPolicy: Option<string>,
    hcaAccessToken: Option<string>)

  datatype Upload = Upload(
    id: nat,
    userId: nat,
    blob: Blob,
    provenance: Provenance,
    originalUrl: Option<string>,
    createdAt: nat)

  datatype ApiKey = ApiKey(
    id: nat,
    userId: nat,
    name: string,
    token: string,
    revoked: bool,
    revokedAt: Option<nat>,
    createdAt: nat)

  /** A multipart file field as a controller receives it: the browser's name and type, and its size. */
  datatype UploadedFile = UploadedFile(originalFilename: string, contentType: string, size: nat)

  /** The unique indexes on `users.hca_id` and `users.slack_id` (NULLs may repeat). */
  predicate UniqueIdentities(users: seq<User>)
  {
    forall i, j :: 0 <= i < j < |users| ==>
      (users[i].hcaId.Some? ==> users[i].hcaId != users[j].hcaId)
      && (users[i].slackId.Some? ==> users[i].slackId != users[j].slackId)
  }

  /** The unique indexes do not look at the primary key. */
  lemma UniqueIdentitiesIgnoreId(users: seq<User>, u: User, id: nat)
    requires UniqueIdentities(users + [u])
    ensures UniqueIdentities(users + [u.(id := id)])
  {
    var a, b := users + [u], users + [u.(id := id)];
    assert forall i :: 0 <= i < |b| ==> b[i].hcaId == a[i].hcaId && b[i].slackId == a[i].slackId;
  }

  function UserIndex(users: seq<User>, id: nat): Option<nat>
  {
    FirstIndex(users, (u: User) => u.id == id)
  }

  function UploadIndex(uploads: seq<Upload>, id: nat): Option<nat>
  {
    FirstIndex(uploads, (u: Upload) => u.id == id)
  }

  function ApiKeyIndex(keys: seq<ApiKey>, id: nat): Option<nat>
  {
    FirstIndex(keys, (k: ApiKey) => k.id == id)
  }

  class Db {
    var users: seq<User>
    var uploads: seq<Upload>
    var apiKeys: seq<ApiKey>
    /** Keys of the blobs whose bytes are in the object store. */
    var storedBlobs: set<string>
    var nextId: nat

    /** Primary keys are handed out in ascending order and never reused; the unique indexes hold. */
    ghost predicate Valid()
      reads this
    {
      (forall i, j :: 0 <= i < j < |users| ==> users[i].id < users[j].id)
      && (forall i :: 0 <= i < |users| ==> users[i].id < nextId)
      && (forall i, j :: 0 <= i < j < |uploads| ==> uploads[i].id < uploads[j].id)
      && (forall i :: 0 <= i < |uploads| ==> uploads[i].id < nextId)
      && (forall i, j :: 0 <= i < j < |apiKeys| ==> apiKeys[i].id < apiKeys[j].id)
      && (forall i :: 0 <= i < |apiKeys| ==> apiKeys[i].id < nextId)
      && UniqueIdentities(users)
    }

    constructor ()
      ensures Valid()
      ensures users == [] && uploads == [] && apiKeys == [] && storedBlobs == {}
    {
      users := [];
      uploads := [];
      apiKeys := [];
      storedBlobs := {};
      nextId := 0;
    }

    /** INSERT into users; the caller has checked the unique indexes. */
    method InsertUser(u: User) returns (id: nat)
      requires Valid()
      requires UniqueIdentities(users + [u])
      modifies this
      ensures Valid()
      ensures id == old(nextId) && nextId == old(nextId) + 1
      ensures users == old(users) + [u.(id := id)]
      ensures uploads == old(uploads) && apiKeys == old(apiKeys) && storedBlobs == old(storedBlobs)
    {
      id := nextId;
      UniqueIdentitiesIgnoreId(users, u, id);
      users := users + [u.(id := id)];
      nextId := nextId + 1;
    }

    /** UPDATE of row `i`, keeping its primary key. */
    method UpdateUser(i: nat, u: User)
      requires Valid()
      requires i < |users| && u.id == users[i].id
      requires UniqueIdentities(users[i := u])
      modifies this
      ensures Valid()
      ensures users == old(users)[i := u]
      ensures uploads == old(uploads) && apiKeys == old(apiKeys)
      ensures storedBlobs == old(storedBlobs) && nextId == old(nextId)
    {
      users := users[i := u];
    }

    method InsertUpload(u: Upload) returns (id: nat)
      requires Valid()
      modifies this
      ensures Valid()
      ensures id == old(nextId) && nextId == old(nextId) + 1
      ensures uploads == old(uploads) + [u.(id := id)]
      ensures users == old(users) && apiKeys == old(apiKeys) && storedBlobs == old(storedBlobs)
    {
      id := nextId;
      uploads := uploads + [u.(id := id)];
      nextId := nextId + 1;
    }

    /** DELETE of upload row `i`; the blob is purged separately. */
    method DeleteUpload(i: nat)
      requires Valid()
      requires i < |uploads|
      modifies this
      ensures Valid()
      ensures uploads == old(uploads[..i] + uploads[i + 1..])
      ensures users == old(users) && apiKeys == old(apiKeys)
      ensures storedBlobs == old(storedBlobs) && nextId == old(nextId)
    {
      uploads := uploads[..i] + uploads[i + 1..];
    }

    method InsertApiKey(k: ApiKey) returns (id: nat)
      requires Valid()
      modifies this
      ensures Valid()
      ensures id == old(nextId) && nextId == old(nextId) + 1
      ensures apiKeys == old(apiKeys) + [k.(id := id)]
      ensures users == old(users) && uploads == old(uploads) && storedBlobs == old(storedBlobs)
    {
      id := nextId;
      apiKeys := apiKeys + [k.(id := id)];
      nextId := nextId + 1;
    }

    method UpdateApiKey(i: nat, k: ApiKey)
      requires Valid()
      requires i < |apiKeys| && k.id == apiKeys[i].id
      modifies this
      ensures Valid()
      ensures apiKeys == old(apiKeys)[i := k]
      ensures users == old(users) && uploads == old(uploads)
      ensures storedBlobs == old(storedBlobs) && nextId == old(nextId)
    {
      apiKeys := apiKeys[i := k];
    }

    /** The object-store write of `Blob.create_and_upload!`. */
    method StoreBlob(key: string)
      modifies this
      ensures storedBlobs == old(storedBlobs) + {key}
      ensures users == old(users) && uploads == old(uploads) && apiKeys == old(apiKeys) && nextId == old(nextId)
    {
      storedBlobs := storedBlobs + {key};
    }

    /** The object-store delete of `blob.purge`; `existed` is false where the store answers NoSuchKey. */
    method PurgeBlob(key: string) returns (existed: bool)
      modifies this
      ensures existed == (key in old(storedBlobs))
      ensures storedBlobs == old(storedBlobs) - {key}
      ensures users == old(users) && uploads == old(uploads) && apiKeys == old(apiKeys) && nextId == old(nextId)
    {
      existed := key in storedBlobs;
      storedBlobs := storedBlobs - {key};
    }
  }
}
