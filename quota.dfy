/**
 * The storage quota policies of the Rails application (app/models/quota.rb):
 * a fixed table of three tiers keyed by slug, and the two tiers an admin
 * may assign by hand. Sizes use Rails' binary units (1 MB = 1024^2 bytes).
 */
module Quota {
  import opened Common

  const MB: nat := 1024 * 1024
  const GB: nat := 1024 * MB

  datatype Slug = Unverified | Verified | FunctionallyUnlimited

  datatype Policy = Policy(slug: Slug, maxFileSize: nat, maxTotalStorage: nat)

  /** The slug's symbol name as stored in `users.quota_policy`. */
  function SlugName(s: Slug): string
  {
    match s
    case Unverified => "unverified"
    case Verified => "verified"
    case FunctionallyUnlimited => "functionally_unlimited"
  }

  /** The table, in declaration order. */
  const ALL_POLICIES: seq<Policy> := [
    Policy(Unverified, 10 * MB, 50 * MB),
    Policy(Verified, 100 * MB, 50 * GB),
    Policy(FunctionallyUnlimited, 500 * MB, 300 * GB)
  ]

  const ADMIN_ASSIGNABLE: seq<string> := ["verified", "functionally_unlimited"]

  /** `Quota.policy(slug)`: the table entry whose slug has this name, or None where Ruby raises KeyError. */
  function PolicyNamed(name: string): (r: Option<Policy>)
  {
    if name == "unverified" then Some(ALL_POLICIES[0])
    else if name == "verified" then Some(ALL_POLICIES[1])
    else if name == "functionally_unlimited" then Some(ALL_POLICIES[2])
    else None
  }

  function PolicyOf(s: Slug): (p: Policy)
    ensures p.slug == s
  {
    match s
    case Unverified => ALL_POLICIES[0]
    case Verified => ALL_POLICIES[1]
    case FunctionallyUnlimited => ALL_POLICIES[2]
  }

  /** Every entry is filed under its own slug, and only the three slug names are known. */
  lemma PolicyLookup(name: string)
    ensures PolicyNamed(name).Some? <==> exists s: Slug :: SlugName(s) == name
    ensures forall s: Slug :: PolicyNamed(SlugName(s)) == Some(PolicyOf(s))
    ensures PolicyNamed(name).Some? ==> SlugName(PolicyNamed(name).value.slug) == name
  {
    if name == "unverified" {
      assert SlugName(Unverified) == name;
    } else if name == "verified" {
      assert SlugName(Verified) == name;
    } else if name == "functionally_unlimited" {
      assert SlugName(FunctionallyUnlimited) == name;
    }
  }

  /** The limits of each tier. */
  lemma PolicyTable()
    ensures PolicyOf(Unverified) == Policy(Unverified, 10 * 1048576, 50 * 1048576)
    ensures PolicyOf(Verified) == Policy(Verified, 100 * 1048576, 50 * 1073741824)
    ensures PolicyOf(FunctionallyUnlimited) == Policy(FunctionallyUnlimited, 500 * 1048576, 300 * 1073741824)
  {
  }

  /** A single file never exceeds a tier's total, and both limits grow strictly from tier to tier. */
  lemma PoliciesOrdered()
    ensures forall p :: p in ALL_POLICIES ==> p.maxFileSize <= p.maxTotalStorage
    ensures forall i, j :: 0 <= i < j < |ALL_POLICIES| ==>
              ALL_POLICIES[i].maxFileSize < ALL_POLICIES[j].maxFileSize
              && ALL_POLICIES[i].maxTotalStorage < ALL_POLICIES[j].maxTotalStorage
  {
  }

  /** The hand-assignable tiers are real tiers, and "unverified" is not one of them. */
  lemma AdminAssignableTiers()
    ensures forall name :: name in ADMIN_ASSIGNABLE ==> PolicyNamed(name).Some?
    ensures "unverified" !in ADMIN_ASSIGNABLE
    ensures forall name :: name in ADMIN_ASSIGNABLE <==> PolicyNamed(name).Some? && name != "unverified"
  {
  }
}
