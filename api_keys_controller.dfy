/**
 * app/controllers/api_keys_controller.rb: the signed-in user's API keys
 * page. `index` lists the user's active keys, newest first; `create` shows
 * the new token once, in the flash; `destroy` revokes a key the policy lets
 * the user revoke.
 */
module ApiKeysController {
  import opened Common
  import opened Records
  import ApiKeys
  import Policies

  /** The `recent` scope's key: newer rows first. */
  function NewestKeyFirst(k: ApiKey): int
  {
    -(k.createdAt as int)
  }

  function ActiveKeyOf(userId: nat): ApiKey -> bool
  {
    (k: ApiKey) => k.userId == userId && ApiKeys.Active(k)
  }

  /** `current_user.api_keys.active.recent`. */
  function Index(keys: seq<ApiKey>, userId: nat): (r: seq<ApiKey>)
    ensures forall k :: k in r <==> k in keys && k.userId == userId && !k.revoked
    ensures SortedBy(r, NewestKeyFirst)
    ensures multiset(r) == multiset(Filter(keys, ActiveKeyOf(userId)))
  {
    var mine := Filter(keys, ActiveKeyOf(userId));
    var r := SortBy(mine, NewestKeyFirst);
    assert forall k :: ActiveKeyOf(userId)(k) <==> k.userId == userId && !k.revoked;
    assert forall k :: k in r <==> k in multiset(mine);
    r
  }

  datatype Flash = Notice(text: string) | Alert(text: string)

  /** What `create` leaves for the next page: the notice and the token to copy, or the alert. */
  datatype CreateOutcome = KeyCreated(notice: Flash, token: string) | NotCreated(alert: Flash)

  /**
   * `create`: `current_user.api_keys.create!(name:)`; a validation failure
   * is caught and shown as an alert. `name` is None when the form sent no
   * name at all.
   */
  method Create(db: Db, userId: nat, name: Option<string>, random: seq<byte>, now: nat) returns (r: CreateOutcome)
    requires db.Valid() && |random| == 32
    requires UserIndex(db.users, userId).Some?
    modifies db
    ensures db.Valid()
    ensures var given := match name case Some(n) => n case None => "";
            (r.KeyCreated? <==> ApiKeys.NameValid(given))
            && (r.KeyCreated? ==>
                  r.token == ApiKeys.GenerateToken(None, random) && StartsWith(r.token, ApiKeys.TOKEN_PREFIX)
                  && r.notice == Notice("API key created. Copy it now - you won't see it again!")
                  && db.apiKeys == old(db.apiKeys) + [ApiKey(old(db.nextId), userId, given, r.token, false, None, now)])
            && (r.NotCreated? ==>
                  r.alert.Alert? && StartsWith(r.alert.text, "Failed to create API key: ")
                  && db.apiKeys == old(db.apiKeys))
    ensures db.users == old(db.users) && db.uploads == old(db.uploads) && db.storedBlobs == old(db.storedBlobs)
  {
    var given := match name case Some(n) => n case None => "";
    var created := ApiKeys.Create(db, userId, given, random, now);
    match created
    case Ok(k) =>
      r := KeyCreated(Notice("API key created. Copy it now - you won't see it again!"), k.token);
    case Err(e) =>
      r := NotCreated(Alert("Failed to create API key: Validation failed: " + e));
  }

  /** Where `destroy` ends up: a 404 from `APIKey.find`, the policy's refusal, a failed `revoke!`, or the revocation. */
  datatype DestroyOutcome = KeyNotFound | NotAuthorized | RevokeInvalid | Revoked

  function DestroyFlash(r: DestroyOutcome): (f: Option<Flash>)
    ensures f.Some? <==> r.NotAuthorized? || r.Revoked?
    ensures r.Revoked? ==> f.value.Notice?
  {
    match r
    case KeyNotFound => None
    case RevokeInvalid => None
    case NotAuthorized => Some(Alert("You are not authorized to revoke this API key."))
    case Revoked => Some(Notice("API key revoked successfully."))
  }

  /**
   * `set_api_key` then `destroy`: any key may be looked up, but only its
   * owner or an admin may revoke it; a refused request leaves it active.
   */
  method Destroy(db: Db, user: User, keyId: nat, now: nat) returns (r: DestroyOutcome)
    requires db.Valid()
    modifies db
    ensures db.Valid()
    ensures match ApiKeyIndex(old(db.apiKeys), keyId)
            case None => r == KeyNotFound && db.apiKeys == old(db.apiKeys)
            case Some(i) =>
              var k := old(db.apiKeys[i]);
              if !Policies.Permits(Policies.ApiKeyPolicy(user, k), Policies.Destroy) then
                r == NotAuthorized && db.apiKeys == old(db.apiKeys)
              else if !ApiKeys.NameValid(k.name) then
                r == RevokeInvalid && db.apiKeys == old(db.apiKeys)
              else
                r == Revoked && db.apiKeys == old(db.apiKeys)[i := k.(revoked := true, revokedAt := Some(now))]
    ensures db.users == old(db.users) && db.uploads == old(db.uploads) && db.storedBlobs == old(db.storedBlobs)
  {
    var found := ApiKeyIndex(db.apiKeys, keyId);
    if found.None? {
      return KeyNotFound;
    }
    var i := found.value;
    if !Policies.Permits(Policies.ApiKeyPolicy(user, db.apiKeys[i]), Policies.Destroy) {
      return NotAuthorized;
    }
    var revoked := ApiKeys.Revoke(db, i, now);
    r := if revoked.Ok? then Revoked else RevokeInvalid;
  }
}
