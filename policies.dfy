/**
 * The Pundit policies: app/policies/application_policy.rb (every action
 * refused, `new?`/`edit?` following `create?`/`update?`, no default scope),
 * app/policies/upload_policy.rb and app/policies/api_key_policy.rb (owners
 * and admins may destroy; admins see every row, others their own).
 */
module Policies {
  import opened Common
  import opened Records

  datatype Action = Index | Show | Create | New | Update | Edit | Destroy

  /** The five primary verdicts of a policy; `new?` and `edit?` are derived. */
  datatype Verdicts = Verdicts(index: bool, show: bool, create: bool, update: bool, destroy: bool)

  /** Asking a policy about an action: `new?` is `create?` and `edit?` is `update?`. */
  function Permits(v: Verdicts, a: Action): bool
  {
    match a
    case Index => v.index
    case Show => v.show
    case Create | New => v.create
    case Update | Edit => v.update
    case Destroy => v.destroy
  }

  /** ApplicationPolicy: everything refused. */
  const DEFAULT_VERDICTS := Verdicts(false, false, false, false, false)

  lemma DefaultRefusesEverything(a: Action)
    ensures !Permits(DEFAULT_VERDICTS, a)
    ensures Permits(DEFAULT_VERDICTS, New) == Permits(DEFAULT_VERDICTS, Create)
    ensures Permits(DEFAULT_VERDICTS, Edit) == Permits(DEFAULT_VERDICTS, Update)
  {
  }

  /** `ApplicationPolicy::Scope#resolve`: a subclass must override it. */
  function DefaultResolve<T>(rows: seq<T>): (r: Result<seq<T>, string>)
    ensures r.Err?
  {
    Err("NotImplementedError: You must define #resolve")
  }

  /** UploadPolicy: only `destroy?` is overridden, for admins and the owner. */
  function UploadPolicy(user: User, record: Upload): (v: Verdicts)
    ensures forall a :: Permits(v, a) <==> a == Destroy && (user.isAdmin || record.userId == user.id)
  {
    DEFAULT_VERDICTS.(destroy := user.isAdmin || record.userId == user.id)
  }

  /** `UploadPolicy::Scope#resolve`: all uploads for an admin, otherwise the user's own, in table order. */
  function UploadScope(user: User, uploads: seq<Upload>): (r: seq<Upload>)
    ensures user.isAdmin ==> r == uploads
    ensures forall u :: u in r <==> u in uploads && (user.isAdmin || u.userId == user.id)
  {
    if user.isAdmin then uploads else Filter(uploads, (u: Upload) => u.userId == user.id)
  }

  /** A user sees exactly the uploads they may destroy. */
  lemma UploadScopeMatchesDestroy(user: User, uploads: seq<Upload>, u: Upload)
    requires u in uploads
    ensures u in UploadScope(user, uploads) <==> Permits(UploadPolicy(user, u), Destroy)
  {
  }

  /** APIKeyPolicy: listing and creating are open; destroying is for admins and the owner. */
  function ApiKeyPolicy(user: User, record: ApiKey): (v: Verdicts)
    ensures Permits(v, Index) && Permits(v, Create) && Permits(v, New)
    ensures !Permits(v, Show) && !Permits(v, Update) && !Permits(v, Edit)
    ensures Permits(v, Destroy) <==> user.isAdmin || record.userId == user.id
  {
    Verdicts(true, false, true, false, user.isAdmin || record.userId == user.id)
  }

  /** `APIKeyPolicy::Scope#resolve`: all keys for an admin, otherwise the user's own. */
  function ApiKeyScope(user: User, keys: seq<ApiKey>): (r: seq<ApiKey>)
    ensures user.isAdmin ==> r == keys
    ensures forall k :: k in r <==> k in keys && (user.isAdmin || k.userId == user.id)
  {
    if user.isAdmin then keys else Filter(keys, (k: ApiKey) => k.userId == user.id)
  }

  lemma ApiKeyScopeMatchesDestroy(user: User, keys: seq<ApiKey>, k: ApiKey)
    requires k in keys
    ensures k in ApiKeyScope(user, keys) <==> Permits(ApiKeyPolicy(user, k), Destroy)
  {
  }
}
