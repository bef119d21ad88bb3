/**
 * app/controllers/admin/users_controller.rb: the admin's quota override.
 * `set_user` finds the user by public id; `set_quota` clears the override
 * for a blank value, refuses anything but the two assignable slugs, and
 * otherwise stores the slug as given. `update!` re-runs the user
 * validations; a row that fails them raises and is not changed.
 */
module AdminUsers {
  import opened Common
  import opened Records
  import Users
  import Quota
  import QS = QuotaService
  import PublicId

  /** The controller's own list of slugs an admin may set. */
  const SETTABLE: seq<string> := ["verified", "functionally_unlimited"]

  /** Where `set_quota` ends up. */
  datatype Outcome =
    | UserNotFound(error: string)
    | Cleared
    | InvalidPolicy
    | PolicySet(slug: string)
    | UpdateInvalid

  datatype Flash = Notice(text: string) | Alert(text: string)

  /** ActiveSupport `humanize` on a snake_case slug: underscores become spaces, only the first letter is capital. */
  function Humanize(s: string): (r: string)
    ensures |r| == |s|
    ensures forall i :: 0 < i < |r| ==> !('A' <= r[i] <= 'Z') && r[i] != '_'
    ensures forall i :: 0 < i < |s| ==> r[i] == (if s[i] == '_' then ' ' else ToLowerAscii(s[i]))
    ensures |s| > 0 && ('a' <= s[0] <= 'z' || 'A' <= s[0] <= 'Z') ==>
              'A' <= r[0] <= 'Z' && ToLowerAscii(r[0]) == ToLowerAscii(s[0])
  {
    var spaced := seq(|s|, i requires 0 <= i < |s| => if s[i] == '_' then ' ' else ToLowerAscii(s[i]));
    if |spaced| == 0 then ""
    else [if 'a' <= spaced[0] <= 'z' then (spaced[0] as int - 32) as char else spaced[0]] + spaced[1..]
  }

  /** A snake_case slug: lower-case ASCII letters and underscores. */
  predicate IsSnakeSlug(s: string)
  {
    forall i :: 0 <= i < |s| ==> 'a' <= s[i] <= 'z' || s[i] == '_'
  }

  /** Reads a humanized text back as a slug: spaces become `_`, letters lower case. */
  function SlugOf(t: string): string
  {
    seq(|t|, i requires 0 <= i < |t| => if t[i] == ' ' then '_' else ToLowerAscii(t[i]))
  }

  /**
   * `humanize` loses nothing on a snake_case slug: the slug can be read back
   * from the flash text, so different slugs give different flashes.
   */
  lemma HumanizeRoundTrip(s: string)
    requires IsSnakeSlug(s)
    ensures SlugOf(Humanize(s)) == s
  {
    var r := Humanize(s);
    forall i | 0 <= i < |s|
      ensures SlugOf(r)[i] == s[i]
    {
      if i > 0 && s[i] != '_' {
        assert r[i] == s[i];
      }
    }
  }

  function FlashOf(r: Outcome): (f: Option<Flash>)
    ensures f.Some? <==> r.Cleared? || r.InvalidPolicy? || r.PolicySet?
    ensures r.PolicySet? ==> f == Some(Notice("Quota policy set to " + Humanize(r.slug) + "."))
  {
    match r
    case Cleared => Some(Notice("Quota policy cleared. Will auto-detect via HCA."))
    case InvalidPolicy => Some(Alert("Invalid quota policy."))
    case PolicySet(slug) => Some(Notice("Quota policy set to " + Humanize(slug) + "."))
    case UserNotFound(_) => None
    case UpdateInvalid => None
  }

  /** Changing the quota field of one row leaves the unique identities as they were. */
  lemma QuotaChangeKeepsIdentities(users: seq<User>, i: nat, q: Option<string>)
    requires i < |users| && UniqueIdentities(users)
    ensures UniqueIdentities(users[i := users[i].(quotaPolicy := q)])
  {
    var after := users[i := users[i].(quotaPolicy := q)];
    forall a | 0 <= a < |users|
      ensures after[a].hcaId == users[a].hcaId && after[a].slackId == users[a].slackId
    {
    }
  }

  /**
   * `set_user` then `set_quota`, with the request's `id` and `quota_policy`
   * parameters; `configured` and `decode` are the public-id prefix and
   * hashid decoder of the users table.
   */
  method SetQuota(db: Db, configured: Option<string>, decode: string -> Option<nat>, id: string,
                  quotaPolicy: Option<string>)
    returns (r: Outcome)
    requires db.Valid()
    modifies db
    ensures db.Valid()
    ensures match PublicId.FindByPublicIdStrict(old(db.users), configured, decode, PublicId.StringArg(id))
            case Err(e) => r == UserNotFound(e) && db.users == old(db.users)
            case Ok(i) =>
              var wanted := if !IsPresent(quotaPolicy) then None else quotaPolicy;
              var updated := old(db.users[i]).(quotaPolicy := wanted);
              if IsPresent(quotaPolicy) && quotaPolicy.value !in SETTABLE then
                r == InvalidPolicy && db.users == old(db.users)
              else if !Users.UserValid(updated, old(db.users)) then
                r == UpdateInvalid && db.users == old(db.users)
              else
                db.users == old(db.users)[i := updated]
                && r == (if wanted.None? then Cleared else PolicySet(wanted.value))
    ensures db.uploads == old(db.uploads) && db.apiKeys == old(db.apiKeys) && db.storedBlobs == old(db.storedBlobs)
  {
    var found := PublicId.FindByPublicIdStrict(db.users, configured, decode, PublicId.StringArg(id));
    if found.Err? {
      return UserNotFound(found.error);
    }
    var i := found.value;
    var wanted: Option<string>;
    if !IsPresent(quotaPolicy) {
      wanted := None;
    } else {
      if quotaPolicy.value !in SETTABLE {
        return InvalidPolicy;
      }
      wanted := quotaPolicy;
    }
    var updated := db.users[i].(quotaPolicy := wanted);
    if !Users.UserValid(updated, db.users) {
      return UpdateInvalid;
    }
    QuotaChangeKeepsIdentities(db.users, i, wanted);
    db.UpdateUser(i, updated);
    r := if wanted.None? then Cleared else PolicySet(wanted.value);
  }

  /**
   * An override the admin sets is the policy the quota service applies from
   * then on, whatever the HCA check says; a cleared override hands the
   * decision back to the HCA check.
   */
  lemma OverrideDecidesPolicy(u: User, slug: string, verified: bool)
    requires slug in SETTABLE
    ensures QS.ResolvedPolicy(u.(quotaPolicy := Some(slug)), verified) == Quota.PolicyNamed(slug).value
    ensures !QS.Upgrades(u.(quotaPolicy := Some(slug)), verified)
    ensures QS.ResolvedPolicy(u.(quotaPolicy := None), verified)
            == Quota.PolicyOf(if verified then Quota.Verified else Quota.Unverified)
  {
    assert !IsBlank(slug) by {
      assert !IsUnicodeSpace(slug[0]);
    }
  }
}
