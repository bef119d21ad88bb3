/**
 * cdn/src/dashboard/mod.rs: the CDN service's dashboard and API-key
 * regeneration. The dashboard finds the user from the session cookie (a
 * missing or unknown session goes back to the login page), reads the
 * user's row (a failure is a 500) and the user's files newest first (a
 * failure is an empty list), and totals them. The HTML it renders is not
 * part of this model: the page is the data it is rendered from. The
 * session store is read as the map it holds.
 *
 * `regenerate_api_key` replaces the user's key with the base64 encoding of
 * 32 fresh random bytes, drawn by the caller, and answers the new key.
 */
module CdnDashboard {
  import opened Common
  import opened Http
  import opened CdnDb
  import CdnCookie
  import CdnSession
  import CdnMiddleware
  import Base64

  const LOGIN_PAGE := "/auth/login"

  datatype DashboardData = DashboardData(user: UserRow, totalFiles: nat, totalSize: nat, files: seq<FileRow>)

  datatype Page =
    | Redirect(location: string)
    | Failure(status: nat, text: string)
    | Dashboard(data: DashboardData)

  /** Which of the two queries fail. */
  datatype PageFaults = PageFaults(user: bool, files: bool)

  /** The total size of some files. */
  function SizeSum(files: seq<FileRow>): nat
  {
    if |files| == 0 then 0 else files[0].size + SizeSum(files[1..])
  }

  /** `ORDER BY created_at DESC` as an ascending sort on the negated time. */
  function NewestFirst(f: FileRow): int
  {
    -(f.createdAt as int)
  }

  /** `SELECT … FROM files WHERE user_id = $1 ORDER BY created_at DESC`, with a failed query read as no files. */
  function UserFiles(files: seq<FileRow>, userId: int, fails: bool): (list: seq<FileRow>)
    ensures fails ==> list == []
    ensures !fails ==> multiset(list) == multiset(Filter(files, (f: FileRow) => f.userId == userId))
    ensures SortedBy(list, NewestFirst)
  {
    if fails then [] else SortBy(Filter(files, (f: FileRow) => f.userId == userId), NewestFirst)
  }

  /** The files listed are the user's, newest first. */
  lemma UserFilesOwnNewestFirst(files: seq<FileRow>, userId: int, fails: bool)
    ensures var list := UserFiles(files, userId, fails);
            && (forall f :: f in list ==> f in files && f.userId == userId)
            && (forall i, j :: 0 <= i < j < |list| ==> list[i].createdAt >= list[j].createdAt)
  {
    var list := UserFiles(files, userId, fails);
    if !fails {
      var own := Filter(files, (f: FileRow) => f.userId == userId);
      forall f | f in list
        ensures f in files && f.userId == userId
      {
        assert f in multiset(list);
        assert f in multiset(own);
      }
    }
    forall i, j | 0 <= i < j < |list|
      ensures list[i].createdAt >= list[j].createdAt
    {
      SortedByPairs(list, NewestFirst, i, j);
    }
  }

  /** The specification of `dashboard`. */
  function DashboardPage(headers: Headers, sessions: map<string, int>, users: seq<UserRow>, files: seq<FileRow>,
                         faults: PageFaults): (page: Page)
    ensures page.Redirect? ==> page.location == LOGIN_PAGE
    ensures page.Failure? ==> page == Failure(500, "Failed to fetch user")
    ensures page.Dashboard? ==> page.data.totalFiles == |page.data.files| && page.data.totalSize == SizeSum(page.data.files)
  {
    match CdnCookie.SessionToken(headers)
    case None => Redirect(LOGIN_PAGE)
    case Some(token) =>
      if token !in sessions then Redirect(LOGIN_PAGE)
      else
        var userId := sessions[token];
        var user := if faults.user then None else QueryOpt(users, (u: UserRow) => u.id == userId);
        match user
        case None => Failure(500, "Failed to fetch user")
        case Some(u) =>
          var list := UserFiles(files, userId, faults.files);
          Dashboard(DashboardData(u, |list|, SizeSum(list), list))
  }

  /** `UPDATE users SET api_key = $1 WHERE id = $2`. */
  function SetApiKey(users: seq<UserRow>, userId: int, key: string): (r: seq<UserRow>)
    ensures |r| == |users|
    ensures forall i :: 0 <= i < |users| ==> r[i] == if users[i].id == userId then users[i].(apiKey := key) else users[i]
  {
    if |users| == 0 then []
    else [if users[0].id == userId then users[0].(apiKey := key) else users[0]] + SetApiKey(users[1..], userId, key)
  }

  /** The JSON body `{"api_key": key}`. */
  datatype ApiKeyBody = ApiKeyBody(apiKey: string)

  /** `regenerate_api_key` for the user the API-key middleware let through. */
  method RegenerateApiKey(cdn: Cdn, userId: int, random: seq<byte>, updateFails: bool)
    returns (r: Result<ApiKeyBody, CdnMiddleware.Reply>)
    requires |random| == 32
    modifies cdn
    ensures var key := CdnSession.GenerateToken(random);
            && (updateFails ==> r == Err(CdnMiddleware.Reply(500, "Failed to regenerate API key")) && cdn.users == old(cdn.users))
            && (!updateFails ==> r == Ok(ApiKeyBody(key)) && cdn.users == SetApiKey(old(cdn.users), userId, key))
    ensures cdn.objects == old(cdn.objects) && cdn.files == old(cdn.files) && cdn.sent == old(cdn.sent)
  {
    var key := CdnSession.GenerateToken(random);
    if updateFails {
      return Err(CdnMiddleware.Reply(500, "Failed to regenerate API key"));
    }
    cdn.users := SetApiKey(cdn.users, userId, key);
    r := Ok(ApiKeyBody(key));
  }

  // ---------------------------------------------------------------------
  // Properties of `DashboardPage`

  /** The dashboard is shown, or fails, only for a known session; otherwise the browser goes to the login page. */
  lemma NeedsSession(headers: Headers, sessions: map<string, int>, users: seq<UserRow>, files: seq<FileRow>,
                     faults: PageFaults)
    ensures var token := CdnCookie.SessionToken(headers);
            (DashboardPage(headers, sessions, users, files, faults) == Redirect(LOGIN_PAGE))
              <==> (token.None? || token.value !in sessions)
  {
  }

  /**
   * A page shows the session's user, only that user's files, newest first,
   * and totals that are the count and the size of exactly the files shown;
   * when the files query succeeds, those are all the user's files.
   */
  lemma ShowsOwnFilesNewestFirst(headers: Headers, sessions: map<string, int>, users: seq<UserRow>,
                                 files: seq<FileRow>, faults: PageFaults)
    ensures var page := DashboardPage(headers, sessions, users, files, faults);
            page.Dashboard? ==>
              var d, token := page.data, CdnCookie.SessionToken(headers);
              && token.Some? && token.value in sessions && d.user.id == sessions[token.value] && d.user in users
              && (forall f :: f in d.files ==> f in files && f.userId == d.user.id)
              && (forall i, j :: 0 <= i < j < |d.files| ==> d.files[i].createdAt >= d.files[j].createdAt)
              && d.totalFiles == |d.files| && d.totalSize == SizeSum(d.files)
              && (!faults.files ==> multiset(d.files) == multiset(Filter(files, (f: FileRow) => f.userId == d.user.id)))
  {
    var page := DashboardPage(headers, sessions, users, files, faults);
    if page.Dashboard? {
      UserFilesOwnNewestFirst(files, page.data.user.id, faults.files);
    }
  }

  /** A failed user query is a 500; a failed files query still shows the page, empty and with zero totals. */
  lemma QueryFailures(headers: Headers, sessions: map<string, int>, users: seq<UserRow>, files: seq<FileRow>)
    requires var token := CdnCookie.SessionToken(headers); token.Some? && token.value in sessions
    ensures DashboardPage(headers, sessions, users, files, PageFaults(true, false)) == Failure(500, "Failed to fetch user")
    ensures var page := DashboardPage(headers, sessions, users, files, PageFaults(false, true));
            page.Dashboard? ==> page.data.files == [] && page.data.totalFiles == 0 && page.data.totalSize == 0
  {
  }

  // ---------------------------------------------------------------------
  // Properties of the totals

  lemma {:induction false} SizeSumAppend(a: seq<FileRow>, b: seq<FileRow>)
    ensures SizeSum(a + b) == SizeSum(a) + SizeSum(b)
  {
    if |a| == 0 {
      assert a + b == b;
    } else {
      assert (a + b)[1..] == a[1..] + b;
      SizeSumAppend(a[1..], b);
    }
  }

  /** Taking one file out takes its size out of the total. */
  lemma SizeSumRemove(b: seq<FileRow>, j: nat)
    requires j < |b|
    ensures SizeSum(b) == b[j].size + SizeSum(b[..j] + b[j + 1..])
  {
    assert b[..j] + b[j..] == b;
    SizeSumAppend(b[..j], b[j..]);
    assert b[j..][0] == b[j] && b[j..][1..] == b[j + 1..];
    SizeSumAppend(b[..j], b[j + 1..]);
  }

  /** Where a file held by `b` sits in it. */
  lemma IndexOf(b: seq<FileRow>, x: FileRow) returns (j: nat)
    requires x in multiset(b)
    ensures j < |b| && b[j] == x
  {
    assert x in b;
    j :| 0 <= j < |b| && b[j] == x;
  }

  /** Taking out the element at `j` takes one copy of it out of the multiset. */
  lemma MultisetRemove(b: seq<FileRow>, j: nat)
    requires j < |b|
    ensures multiset(b[..j] + b[j + 1..]) == multiset(b) - multiset{b[j]}
  {
    assert b == b[..j] + [b[j]] + b[j + 1..];
  }

  /** Dropping the first file drops one copy of it. */
  lemma MultisetTail(a: seq<FileRow>)
    requires 0 < |a|
    ensures multiset(a[1..]) == multiset(a) - multiset{a[0]}
  {
    assert a == [a[0]] + a[1..];
  }

  /** Two lists holding the same files still do once the first file of one is taken out of both. */
  lemma PermutationRest(a: seq<FileRow>, b: seq<FileRow>, j: nat)
    requires multiset(a) == multiset(b) && 0 < |a| && j < |b| && b[j] == a[0]
    ensures multiset(a[1..]) == multiset(b[..j] + b[j + 1..])
  {
    MultisetTail(a);
    MultisetRemove(b, j);
  }

  /** The total size does not depend on the order of the files. */
  lemma {:induction false} SizeSumPermutation(a: seq<FileRow>, b: seq<FileRow>)
    requires multiset(a) == multiset(b)
    ensures SizeSum(a) == SizeSum(b)
    decreases |a|
  {
    if |a| == 0 {
      assert b == [] by {
        assert |b| == |multiset(b)|;
      }
    } else {
      var j := IndexOf(b, a[0]);
      var rest := b[..j] + b[j + 1..];
      PermutationRest(a, b, j);
      SizeSumPermutation(a[1..], rest);
      SizeSumRemove(b, j);
    }
  }

  /** With both queries succeeding, the totals are those of all the user's files. */
  lemma TotalsOfAllOwnFiles(headers: Headers, sessions: map<string, int>, users: seq<UserRow>, files: seq<FileRow>)
    ensures var page := DashboardPage(headers, sessions, users, files, PageFaults(false, false));
            page.Dashboard? ==>
              var own := Filter(files, (f: FileRow) => f.userId == page.data.user.id);
              page.data.totalFiles == |own| && page.data.totalSize == SizeSum(own)
  {
    var page := DashboardPage(headers, sessions, users, files, PageFaults(false, false));
    if page.Dashboard? {
      var own := Filter(files, (f: FileRow) => f.userId == page.data.user.id);
      assert multiset(page.data.files) == multiset(own);
      assert |page.data.files| == |multiset(page.data.files)|;
      assert |own| == |multiset(own)|;
      SizeSumPermutation(page.data.files, own);
    }
  }

  // ---------------------------------------------------------------------
  // Properties of the key regeneration

  /** Base64 text is readable as an HTTP header value. */
  lemma TokenIsHeaderText(random: seq<byte>)
    requires |random| == 32
    ensures HeaderToStr(CdnSession.GenerateToken(random)).Some?
  {
    var key := CdnSession.GenerateToken(random);
    Base64.EncodeAlphabet(random);
    assert forall i :: 0 <= i < |key| ==> IsVisibleAscii(key[i]) by {
      forall i | 0 <= i < |key|
        ensures IsVisibleAscii(key[i])
      {
        assert Base64.IsAlphabet(key[i]) || key[i] == '=';
      }
    }
  }

  /**
   * After a regeneration, the new key lets its user through the API-key
   * gate, provided no other user holds the same key.
   */
  lemma NewKeyPasses(users: seq<UserRow>, i: nat, random: seq<byte>)
    requires |random| == 32 && i < |users|
    requires forall j :: 0 <= j < |users| && j != i ==> users[j].id != users[i].id
    requires forall j :: 0 <= j < |users| && j != i ==> users[j].apiKey != CdnSession.GenerateToken(random)
    ensures var key := CdnSession.GenerateToken(random);
            CdnMiddleware.Authenticate(map[CdnMiddleware.API_KEY_HEADER := key], SetApiKey(users, users[i].id, key), false)
              == Ok(users[i].id)
  {
    var key := CdnSession.GenerateToken(random);
    var updated := SetApiKey(users, users[i].id, key);
    TokenIsHeaderText(random);
    assert updated[i].apiKey == key && updated[i].id == users[i].id;
    CdnMiddleware.KnownKeyPasses(map[CdnMiddleware.API_KEY_HEADER := key], updated, i);
  }

  /** After a regeneration that changed the key, the old key no longer lets that user through. */
  lemma OldKeyRevoked(users: seq<UserRow>, userId: int, oldKey: string, key: string, queryFails: bool)
    requires oldKey != key
    ensures CdnMiddleware.Authenticate(map[CdnMiddleware.API_KEY_HEADER := oldKey], SetApiKey(users, userId, key), queryFails)
            != Ok(userId)
  {
  }
}
