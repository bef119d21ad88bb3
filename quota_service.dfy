/**
 * app/services/quota_service.rb: which policy applies to a user, and the
 * admission checks built on it. A user without an explicit policy is asked
 * about at Hack Club Auth (HCA); a "verified_eligible" answer upgrades the
 * user to "verified" for good, by writing the column. The HCA endpoint is a
 * parameter of the service; every request to it is counted.
 */
module QuotaService {
  import opened Common
  import opened Records
  import Quota
  import Users

  const WARNING_THRESHOLD_PERCENTAGE: nat := 80

  /** What the HCA verification endpoint answers: a body's `result`, or the error Faraday raises. */
  datatype HcaAnswer = Answered(result: Option<string>) | FaradayError | ArgumentError

  /** The HCA check, from the user's access token and HCA id to the answer. */
  type HcaCheck = (string, string) -> HcaAnswer

  /** `hca_verified?` sends a request only when both the access token and the HCA id are present. */
  predicate CallsHca(u: User)
  {
    IsPresent(u.hcaAccessToken) && IsPresent(u.hcaId)
  }

  /** `hca_verified?`. */
  function HcaVerified(u: User, hca: HcaCheck): (verified: bool)
    ensures verified ==> CallsHca(u)
  {
    if !CallsHca(u) then false
    else
      match hca(u.hcaAccessToken.value, u.hcaId.value)
      case Answered(result) => result == Some("verified_eligible")
      case FaradayError => false
      case ArgumentError => false
  }

  /** The policy `current_policy` settles on, given what the HCA check would answer. */
  function ResolvedPolicy(u: User, verified: bool): (p: Quota.Policy)
  {
    if IsPresent(u.quotaPolicy) then
      match Quota.PolicyNamed(u.quotaPolicy.value)
      case Some(named) => named
      case None => Quota.PolicyOf(Quota.Unverified)
    else if verified then Quota.PolicyOf(Quota.Verified)
    else Quota.PolicyOf(Quota.Unverified)
  }

  /** Whether `current_policy` writes `quota_policy = "verified"`. */
  predicate Upgrades(u: User, verified: bool)
  {
    !IsPresent(u.quotaPolicy) && verified
  }

  function Upgraded(u: User): User
  {
    u.(quotaPolicy := Some("verified"))
  }

  /** `can_upload?` for a policy and the storage already used. */
  function Admits(p: Quota.Policy, used: nat, fileSize: nat): (ok: bool)
    ensures ok <==> fileSize <= p.maxFileSize && used + fileSize <= p.maxTotalStorage
  {
    if fileSize > p.maxFileSize then false
    else if used + fileSize > p.maxTotalStorage then false
    else true
  }

  /** `over_quota?`. */
  predicate OverQuota(p: Quota.Policy, used: nat)
    ensures OverQuota(p, used) ==> forall size: nat :: size > 0 ==> !Admits(p, used, size)
  {
    used >= p.maxTotalStorage
  }

  /**
   * `percentage_used` in hundredths of a percent: 100 * used / max rounded
   * to two decimals, half up; 0 when the limit is 0.
   */
  function PercentageHundredths(used: nat, max: nat): (h: nat)
    ensures max > 0 ==> 2 * max * h <= 20000 * used + max < 2 * max * (h + 1)
  {
    if max == 0 then 0 else (20000 * used + max) / (2 * max)
  }

  /** `at_warning?`. */
  predicate AtWarning(used: nat, max: nat)
  {
    PercentageHundredths(used, max) >= WARNING_THRESHOLD_PERCENTAGE * 100
  }

  // ---------------------------------------------------------------------
  // Properties of the decisions

  /** An explicit, known slug wins whatever HCA says; an unknown one falls back to unverified. */
  lemma ExplicitPolicyWins(u: User, v1: bool, v2: bool)
    requires IsPresent(u.quotaPolicy)
    ensures ResolvedPolicy(u, v1) == ResolvedPolicy(u, v2)
    ensures !Upgrades(u, v1)
    ensures Quota.PolicyNamed(u.quotaPolicy.value).None? ==> ResolvedPolicy(u, v1) == Quota.PolicyOf(Quota.Unverified)
    ensures Quota.PolicyNamed(u.quotaPolicy.value).Some? ==> ResolvedPolicy(u, v1).slug != Quota.Unverified || u.quotaPolicy.value == "unverified"
  {
    Quota.PolicyLookup(u.quotaPolicy.value);
  }

  /** Without a slug, the verdict decides, and only a positive one writes the column. */
  lemma HcaDecidesWithoutSlug(u: User, verified: bool)
    requires !IsPresent(u.quotaPolicy)
    ensures ResolvedPolicy(u, verified).slug == (if verified then Quota.Verified else Quota.Unverified)
    ensures Upgrades(u, verified) == verified
  {
  }

  /** The upgrade is one-way: once written, every later resolution is "verified" and asks HCA nothing. */
  lemma UpgradeIsPermanent(u: User, later: bool)
    ensures IsPresent(Upgraded(u).quotaPolicy)
    ensures ResolvedPolicy(Upgraded(u), later) == Quota.PolicyOf(Quota.Verified)
    ensures !Upgrades(Upgraded(u), later)
  {
    assert "verified"[0] == 'v';
  }

  /** Without both credentials no request is made and the answer is no, whatever HCA would say. */
  lemma BlankCredentialsNeverVerify(u: User, h: HcaCheck)
    requires !IsPresent(u.hcaAccessToken) || !IsPresent(u.hcaId)
    ensures !HcaVerified(u, h)
  {
  }

  /** Only "verified_eligible" verifies; errors and every other result do not. */
  lemma VerdictFromAnswer(u: User, h: HcaCheck)
    requires CallsHca(u)
    ensures HcaVerified(u, h) <==> h(u.hcaAccessToken.value, u.hcaId.value) == Answered(Some("verified_eligible"))
  {
  }

  /** Both bounds of `can_upload?` are inclusive, and an oversized file is refused at any usage. */
  lemma AdmitsBounds(p: Quota.Policy, used: nat, fileSize: nat)
    ensures Admits(p, used, fileSize) <==> fileSize <= p.maxFileSize && used + fileSize <= p.maxTotalStorage
    ensures fileSize > p.maxFileSize ==> forall u: nat :: !Admits(p, u, fileSize)
    ensures Admits(p, used, fileSize) ==> forall u: nat, s: nat :: u <= used && s <= fileSize ==> Admits(p, u, s)
  {
  }

  /** A user exactly at the limit is over quota, yet an empty file is still admitted. */
  lemma AtLimitBoundary(p: Quota.Policy)
    ensures OverQuota(p, p.maxTotalStorage) && Admits(p, p.maxTotalStorage, 0)
    ensures forall used: nat :: !OverQuota(p, used) ==> Admits(p, used, 0)
  {
  }

  /** The warning fires from 79.995% on (the rounding), in particular at 80% and when over quota. */
  lemma WarningThreshold(used: nat, max: nat)
    ensures max == 0 ==> PercentageHundredths(used, max) == 0 && !AtWarning(used, max)
    ensures max > 0 ==> (AtWarning(used, max) <==> 20000 * used >= 15999 * max)
    ensures max > 0 && 5 * used >= 4 * max ==> AtWarning(used, max)
    ensures max > 0 && used >= max ==> AtWarning(used, max)
    ensures used <= max ==> PercentageHundredths(used, max) <= 10000
  {
    if max > 0 {
      var h := PercentageHundredths(used, max);
      var m := 2 * max;
      assert m * 8000 == 16000 * max;
      if 20000 * used >= 15999 * max {
        MulLessCancel(m, 8000, h + 1);
      } else {
        MulLessCancel(m, h, 8000);
      }
      if used <= max {
        assert m * 10001 == 20002 * max;
        MulLessCancel(m, h, 10001);
      }
    }
  }

  lemma MulLessCancel(m: int, a: int, b: int)
    requires m > 0 && m * a < m * b
    ensures a < b
  {
  }

  // ---------------------------------------------------------------------
  // The service object

  class QuotaService {
    const db: Db
    const userIndex: nat
    const hca: HcaCheck
    /** Requests sent to the HCA endpoint so far. */
    var hcaCalls: nat

    constructor (db: Db, userIndex: nat, hca: HcaCheck)
      ensures this.db == db && this.userIndex == userIndex && this.hca == hca && hcaCalls == 0
    {
      this.db := db;
      this.userIndex := userIndex;
      this.hca := hca;
      hcaCalls := 0;
    }

    /** The user the service was built for is a row of the table. */
    ghost predicate Ready()
      reads this, db
    {
      db.Valid() && userIndex < |db.users|
    }

    function User(): User
      reads this, db
      requires userIndex < |db.users|
    {
      db.users[userIndex]
    }

    /** The storage the user's uploads take up now. */
    function Used(): nat
      reads this, db
      requires userIndex < |db.users|
    {
      Users.TotalStorageBytes(db.uploads, User().id)
    }

    /** `hca_verified?`, counting the request when one is sent. */
    method IsHcaVerified() returns (verified: bool)
      requires Ready()
      modifies this
      ensures verified == HcaVerified(User(), hca)
      ensures hcaCalls == old(hcaCalls) + (if CallsHca(User()) then 1 else 0)
    {
      var u := db.users[userIndex];
      if !CallsHca(u) {
        return false;
      }
      hcaCalls := hcaCalls + 1;
      var answer := hca(u.hcaAccessToken.value, u.hcaId.value);
      verified := answer == Answered(Some("verified_eligible"));
    }

    /** `current_policy`, with the one-way upgrade written through to the row. */
    method CurrentPolicy() returns (p: Quota.Policy)
      requires Ready()
      modifies this, db
      ensures Ready()
      ensures var verified := HcaVerified(old(User()), hca);
              p == ResolvedPolicy(old(User()), verified)
              && db.users == (if Upgrades(old(User()), verified)
                              then old(db.users)[userIndex := Upgraded(old(User()))]
                              else old(db.users))
      ensures hcaCalls == old(hcaCalls) + (if !IsPresent(old(User()).quotaPolicy) && CallsHca(old(User())) then 1 else 0)
      ensures db.uploads == old(db.uploads) && db.apiKeys == old(db.apiKeys)
      ensures db.storedBlobs == old(db.storedBlobs) && db.nextId == old(db.nextId)
    {
      var u := db.users[userIndex];
      if IsPresent(u.quotaPolicy) {
        var named := Quota.PolicyNamed(u.quotaPolicy.value);
        p := if named.Some? then named.value else Quota.PolicyOf(Quota.Unverified);
      } else {
        var verified := IsHcaVerified();
        if verified {
          db.UpdateUser(userIndex, Upgraded(u));
          p := Quota.PolicyOf(Quota.Verified);
        } else {
          p := Quota.PolicyOf(Quota.Unverified);
        }
      }
    }

    /** `can_upload?`. */
    method CanUpload(fileSize: nat) returns (ok: bool)
      requires Ready()
      modifies this, db
      ensures Ready()
      ensures var verified := HcaVerified(old(User()), hca);
              ok == Admits(ResolvedPolicy(old(User()), verified), old(Used()), fileSize)
              && db.users == (if Upgrades(old(User()), verified)
                              then old(db.users)[userIndex := Upgraded(old(User()))]
                              else old(db.users))
      ensures db.uploads == old(db.uploads) && db.apiKeys == old(db.apiKeys)
      ensures db.storedBlobs == old(db.storedBlobs) && db.nextId == old(db.nextId)
    {
      var policy := CurrentPolicy();
      if fileSize > policy.maxFileSize {
        return false;
      }
      var totalAfter := Users.TotalStorageBytes(db.uploads, db.users[userIndex].id) + fileSize;
      if totalAfter > policy.maxTotalStorage {
        return false;
      }
      return true;
    }

    /** `over_quota?`. */
    method IsOverQuota() returns (over: bool)
      requires Ready()
      modifies this, db
      ensures Ready()
      ensures var verified := HcaVerified(old(User()), hca);
              over == OverQuota(ResolvedPolicy(old(User()), verified), old(Used()))
              && db.users == (if Upgrades(old(User()), verified)
                              then old(db.users)[userIndex := Upgraded(old(User()))]
                              else old(db.users))
      ensures db.uploads == old(db.uploads) && db.apiKeys == old(db.apiKeys)
      ensures db.storedBlobs == old(db.storedBlobs) && db.nextId == old(db.nextId)
    {
      var used := Users.TotalStorageBytes(db.uploads, db.users[userIndex].id);
      var policy := CurrentPolicy();
      over := used >= policy.maxTotalStorage;
    }

    /** `percentage_used`, in hundredths of a percent. */
    method PercentageUsed() returns (h: nat)
      requires Ready()
      modifies this, db
      ensures Ready()
      ensures var verified := HcaVerified(old(User()), hca);
              h == PercentageHundredths(old(Used()), ResolvedPolicy(old(User()), verified).maxTotalStorage)
              && db.users == (if Upgrades(old(User()), verified)
                              then old(db.users)[userIndex := Upgraded(old(User()))]
                              else old(db.users))
      ensures db.uploads == old(db.uploads) && db.apiKeys == old(db.apiKeys)
      ensures db.storedBlobs == old(db.storedBlobs) && db.nextId == old(db.nextId)
    {
      var policy := CurrentPolicy();
      var max := policy.maxTotalStorage;
      if max == 0 {
        return 0;
      }
      var used := Users.TotalStorageBytes(db.uploads, db.users[userIndex].id);
      h := (20000 * used + max) / (2 * max);
    }

    /** `at_warning?`. */
    method IsAtWarning() returns (warn: bool)
      requires Ready()
      modifies this, db
      ensures Ready()
      ensures var verified := HcaVerified(old(User()), hca);
              warn == AtWarning(old(Used()), ResolvedPolicy(old(User()), verified).maxTotalStorage)
              && db.users == (if Upgrades(old(User()), verified)
                              then old(db.users)[userIndex := Upgraded(old(User()))]
                              else old(db.users))
      ensures db.uploads == old(db.uploads) && db.apiKeys == old(db.apiKeys)
      ensures db.storedBlobs == old(db.storedBlobs) && db.nextId == old(db.nextId)
    {
      var h := PercentageUsed();
      warn := h >= WARNING_THRESHOLD_PERCENTAGE * 100;
    }

    /** `check_and_upgrade_verification!`. */
    method CheckAndUpgradeVerification() returns (ok: bool)
      requires Ready()
      modifies this, db
      ensures Ready()
      ensures IsPresent(old(User()).quotaPolicy) ==> ok && hcaCalls == old(hcaCalls) && db.users == old(db.users)
      ensures !IsPresent(old(User()).quotaPolicy) ==>
                ok == HcaVerified(old(User()), hca)
                && db.users == (if ok then old(db.users)[userIndex := Upgraded(old(User()))] else old(db.users))
      ensures db.uploads == old(db.uploads) && db.apiKeys == old(db.apiKeys)
      ensures db.storedBlobs == old(db.storedBlobs) && db.nextId == old(db.nextId)
    {
      var u := db.users[userIndex];
      if IsPresent(u.quotaPolicy) {
        return true;
      }
      var verified := IsHcaVerified();
      if verified {
        db.UpdateUser(userIndex, Upgraded(u));
        ok := true;
      } else {
        ok := false;
      }
    }
  }
}
