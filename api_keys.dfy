/**
 * app/models/api_key.rb: token generation, masking, revocation, the
 * `active` scope and lookup by token. The 32 random bytes of
 * `SecureRandom.hex(32)` are a parameter; Lockbox encryption and the blind
 * index are storage details and do not change which row a token finds.
 */
module ApiKeys {
  import opened Common
  import opened Records

  const TOKEN_PREFIX := "sk_cdn_"

  /** `generate_token`: keeps a token already set, otherwise "sk_cdn_" and 64 hex digits. */
  function GenerateToken(token: Option<string>, random: seq<byte>): (t: string)
    requires |random| == 32
    ensures token.Some? ==> t == token.value
    ensures token.None? ==> StartsWith(t, TOKEN_PREFIX) && |t| == 71
                            && forall i :: 7 <= i < 71 ==> IsLowerHex(t[i])
    ensures token.None? ==> HexDecode(t[7..]) == random
  {
    match token
    case Some(t) => t
    case None =>
      var t := TOKEN_PREFIX + HexEncode(random);
      assert t[7..] == HexEncode(random);
      HexDecodeEncode(random);
      t
  }

  /** Two generated tokens are equal only when they were drawn from the same bytes. */
  lemma GeneratedTokensDiffer(r1: seq<byte>, r2: seq<byte>)
    requires |r1| == 32 && |r2| == 32 && r1 != r2
    ensures GenerateToken(None, r1) != GenerateToken(None, r2)
  {
  }

  /**
   * `masked_token`: `full[0...13]`, "....", then `full[-6..]`; Ruby answers
   * nil (interpolated as "") for the suffix of a token shorter than 6.
   */
  function MaskedToken(full: string): (m: string)
    ensures |m| == Min(13, |full|) + 4 + (if |full| >= 6 then 6 else 0)
    ensures StartsWith(m, full[..Min(13, |full|)])
    ensures m[Min(13, |full|)..Min(13, |full|) + 4] == "...."
    ensures |full| >= 6 ==> EndsWith(m, full[|full| - 6..])
  {
    full[..Min(13, |full|)] + "...." + (if |full| >= 6 then full[|full| - 6..] else "")
  }

  /** A generated token masks to 23 characters: the prefix, six hex digits, "....", six hex digits. */
  lemma MaskedGeneratedToken(random: seq<byte>)
    requires |random| == 32
    ensures var m := MaskedToken(GenerateToken(None, random));
            |m| == 23 && StartsWith(m, TOKEN_PREFIX) && m[13..17] == "...."
            && (forall i :: 7 <= i < 13 || 17 <= i < 23 ==> IsLowerHex(m[i]))
  {
    var t := GenerateToken(None, random);
    var m := MaskedToken(t);
    assert m[..7] == t[..7];
    assert forall i :: 7 <= i < 13 ==> m[i] == t[i];
    assert forall i :: 17 <= i < 23 ==> m[i] == t[i + 48];
  }

  /** `active?`. */
  predicate Active(k: ApiKey)
  {
    !k.revoked
  }

  /** The `active` scope: the keys with `revoked = false`, in table order. */
  function ActiveScope(keys: seq<ApiKey>): (r: seq<ApiKey>)
    ensures forall k :: k in r <==> k in keys && !k.revoked
  {
    Filter(keys, Active)
  }

  /** The name validation: present and at most 255 characters. */
  predicate NameValid(name: string)
    ensures NameValid(name) ==> 0 < |name| <= 255
  {
    !IsBlank(name) && |name| <= 255
  }

  /** `find_by_token`: the first key with exactly this token, revoked or not. */
  function FindByToken(keys: seq<ApiKey>, token: string): (r: Option<nat>)
    ensures r.Some? ==> r.value < |keys| && keys[r.value].token == token
    ensures r.None? <==> forall j :: 0 <= j < |keys| ==> keys[j].token != token
  {
    FirstIndex(keys, (k: ApiKey) => k.token == token)
  }

  /**
   * `user.api_keys.create(name:)`: the token is generated before the
   * validations run; a name that fails them, or an owner that does not
   * exist, saves nothing.
   */
  method Create(db: Db, userId: nat, name: string, random: seq<byte>, now: nat) returns (r: Result<ApiKey, string>)
    requires db.Valid() && |random| == 32
    modifies db
    ensures db.Valid()
    ensures r.Ok? <==> NameValid(name) && UserIndex(old(db.users), userId).Some?
    ensures r.Ok? ==> r.value == ApiKey(old(db.nextId), userId, name, GenerateToken(None, random), false, None, now)
                      && db.apiKeys == old(db.apiKeys) + [r.value]
    ensures r.Err? ==> db.apiKeys == old(db.apiKeys) && db.nextId == old(db.nextId)
    ensures db.users == old(db.users) && db.uploads == old(db.uploads) && db.storedBlobs == old(db.storedBlobs)
  {
    var token := GenerateToken(None, random);
    if IsBlank(name) {
      return Err("Name can't be blank");
    }
    if |name| > 255 {
      return Err("Name is too long (maximum is 255 characters)");
    }
    if UserIndex(db.users, userId).None? {
      return Err("User must exist");
    }
    var id := db.InsertApiKey(ApiKey(0, userId, name, token, false, None, now));
    r := Ok(ApiKey(id, userId, name, token, false, None, now));
  }

  /**
   * `revoke!`: `update!(revoked: true, revoked_at: now)` on row `i`. The
   * update re-runs the validations, so a row whose name no longer passes
   * them raises and stays as it was.
   */
  method Revoke(db: Db, i: nat, now: nat) returns (r: Result<ApiKey, string>)
    requires db.Valid() && i < |db.apiKeys|
    modifies db
    ensures db.Valid()
    ensures r.Ok? <==> NameValid(old(db.apiKeys[i].name))
    ensures r.Ok? ==> r.value == old(db.apiKeys[i]).(revoked := true, revokedAt := Some(now))
                      && db.apiKeys == old(db.apiKeys)[i := r.value] && !Active(r.value)
    ensures r.Err? ==> db.apiKeys == old(db.apiKeys)
    ensures db.users == old(db.users) && db.uploads == old(db.uploads)
    ensures db.storedBlobs == old(db.storedBlobs) && db.nextId == old(db.nextId)
  {
    var k := db.apiKeys[i];
    if !NameValid(k.name) {
      return Err("Validation failed");
    }
    var revoked := k.(revoked := true, revokedAt := Some(now));
    db.UpdateApiKey(i, revoked);
    r := Ok(revoked);
  }

  /** After a revocation the key drops out of the active scope, and nothing else changes in it. */
  lemma {:induction false} RevokeLeavesActiveScope(keys: seq<ApiKey>, i: nat, now: nat)
    requires i < |keys| && Active(keys[i])
    requires forall a, b :: 0 <= a < b < |keys| ==> keys[a].id < keys[b].id
    ensures var after := keys[i := keys[i].(revoked := true, revokedAt := Some(now))];
            forall k :: k in ActiveScope(after) <==> k in ActiveScope(keys) && k != keys[i]
  {
    var after := keys[i := keys[i].(revoked := true, revokedAt := Some(now))];
    forall k ensures k in ActiveScope(after) <==> k in ActiveScope(keys) && k != keys[i]
    {
      if k in ActiveScope(keys) && k != keys[i] {
        var j :| 0 <= j < |keys| && keys[j] == k;
        assert j != i;
        assert after[j] == k;
      }
      if k in ActiveScope(after) {
        var j :| 0 <= j < |after| && after[j] == k;
        assert j != i;
        assert keys[j] == k;
      }
    }
  }
}
