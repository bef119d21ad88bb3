/**
 * What the CDN service (cdn/src) keeps: the bucket's objects under their
 * storage keys, the `files` and `users` tables of its Postgres database,
 * and the requests it has sent out to fetch files. A database or bucket
 * call that fails is an input to the operation that makes it; so are the
 * clock and the UUIDs it draws. The row types follow cdn/src/db/schema.rs,
 * which is not part of this model.
 */
module CdnDb {
  import opened Common
  import opened Http

  datatype FileRow = FileRow(userId: int, storageUuid: string, publicUuid: string, filename: string, size: nat,
                             url: string, sha: Option<string>, createdAt: nat)

  datatype UserRow = UserRow(id: int, slackId: string, slackUsername: string, slackAvatar: Option<string>,
                             apiKey: string, createdAt: nat)

  /** `query_opt`: the one matching row; none, or an error for more than one (which `.ok()` turns into none). */
  function QueryOpt<T(!new)>(rows: seq<T>, matches: T -> bool): (r: Option<T>)
    ensures r.Some? ==> matches(r.value) && r.value in rows
  {
    var found := Filter(rows, matches);
    if |found| == 1 then Some(found[0]) else None
  }

  /** A row `QueryOpt` returns is the only matching row. */
  lemma QueryOptUnique<T(!new)>(rows: seq<T>, matches: T -> bool, i: nat)
    requires QueryOpt(rows, matches).Some? && i < |rows| && matches(rows[i])
    ensures rows[i] == QueryOpt(rows, matches).value
  {
    assert rows[i] in Filter(rows, matches);
  }

  /** A row that is the only one matching is what `QueryOpt` returns. */
  lemma {:induction false} QueryOptFinds<T(!new)>(rows: seq<T>, matches: T -> bool, i: nat)
    requires i < |rows| && matches(rows[i])
    requires forall j :: 0 <= j < |rows| && j != i ==> !matches(rows[j])
    ensures QueryOpt(rows, matches) == Some(rows[i])
  {
    FilterOnly(rows, matches, i);
  }

  lemma {:induction false} FilterOnly<T(!new)>(rows: seq<T>, matches: T -> bool, i: nat)
    requires i < |rows| && matches(rows[i])
    requires forall j :: 0 <= j < |rows| && j != i ==> !matches(rows[j])
    ensures Filter(rows, matches) == [rows[i]]
  {
    if i == 0 {
      FilterNone(rows[1..], matches);
    } else {
      FilterOnly(rows[1..], matches, i - 1);
    }
  }

  lemma {:induction false} FilterNone<T(!new)>(rows: seq<T>, matches: T -> bool)
    requires forall j :: 0 <= j < |rows| ==> !matches(rows[j])
    ensures Filter(rows, matches) == []
  {
    if |rows| > 0 {
      FilterNone(rows[1..], matches);
    }
  }

  class Cdn {
    var objects: map<string, seq<byte>>
    var files: seq<FileRow>
    var users: seq<UserRow>
    var sent: seq<Request>

    constructor (users: seq<UserRow>)
      ensures objects == map[] && files == [] && this.users == users && sent == []
    {
      objects := map[];
      files := [];
      this.users := users;
      sent := [];
    }
  }
}
