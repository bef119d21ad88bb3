/**
 * cdn/src/metrics/mod.rs: the data behind the CDN service's public
 * metrics page. Every query that fails falls back to a default instead of
 * failing the page: the totals to 0, the daily series to empty, the
 * signed-in user to none. The HTML and the chart it draws are not part of
 * this model; the page is the data it is rendered from.
 *
 * Time is in seconds since the epoch and a date is a day number since the
 * epoch (the database session is taken to run in UTC). The daily series is
 * `GROUP BY DATE(created_at) ORDER BY date` over the files of the last 30
 * days, built here by counting each file into an ascending list of days.
 *
 * The column types follow PostgreSQL: COUNT(*) is a bigint, and SUM over
 * the bigint `size` column is a numeric. `try_get::<i64>` reads only a
 * bigint, so the total size as written always reads as 0 (see
 * `TotalSizeAsWritten`); `TotalSize` is the sum the page means to show.
 */
module CdnMetrics {
  import opened Common
  import opened Http
  import opened CdnDb
  import CdnCookie
  import CdnDashboard

  const SECONDS_PER_DAY := 86400
  /** `INTERVAL '30 days'`. */
  const WINDOW := 30 * SECONDS_PER_DAY

  /** A value in a result row, with the SQL type it comes back as. */
  datatype SqlValue = BigInt(n: int) | Numeric(x: int)

  /** `row.try_get::<_, i64>(0)`: only a bigint converts to i64. */
  function TryGetI64(v: SqlValue): (r: Option<int>)
    ensures r.Some? <==> v.BigInt?
  {
    match v
    case BigInt(n) => Some(n)
    case Numeric(_) => None
  }

  /** `SELECT COUNT(*) FROM files`. */
  function CountColumn(files: seq<FileRow>): SqlValue
  {
    BigInt(|files|)
  }

  /** `SELECT COALESCE(SUM(size), 0) FROM files`: SUM of a bigint column is a numeric, and so is the COALESCE. */
  function SumColumn(files: seq<FileRow>): SqlValue
  {
    Numeric(CdnDashboard.SizeSum(files))
  }

  /** An aggregate as the page reads it: 0 when the query fails or the value does not convert. */
  function ReadAggregate(v: SqlValue, fails: bool): (n: int)
    ensures fails || v.Numeric? ==> n == 0
  {
    if fails then 0
    else match TryGetI64(v)
      case None => 0
      case Some(n) => n
  }

  /** `total_files`. */
  function TotalFiles(files: seq<FileRow>, fails: bool): (n: int)
    ensures fails ==> n == 0
    ensures !fails ==> n == |files|
  {
    ReadAggregate(CountColumn(files), fails)
  }

  /**
   * `total_size` as the code reads it: 0 whatever the table holds, because
   * the sum comes back as a numeric.
   */
  function TotalSizeAsWritten(files: seq<FileRow>, fails: bool): (n: int)
    ensures n == 0
  {
    ReadAggregate(SumColumn(files), fails)
  }

  /** `total_size` as the page means it: the sum of all sizes, read as a bigint. */
  function TotalSize(files: seq<FileRow>, fails: bool): (n: int)
    ensures fails ==> n == 0
    ensures !fails ==> n == CdnDashboard.SizeSum(files)
  {
    ReadAggregate(BigInt(CdnDashboard.SizeSum(files)), fails)
  }

  // ---------------------------------------------------------------------
  // The daily series

  /** One point of the series: a day, and the files uploaded on it. */
  datatype DayCount = DayCount(day: int, count: nat)

  /** `created_at >= NOW() - INTERVAL '30 days'`. */
  predicate InWindow(f: FileRow, now: int)
  {
    f.createdAt as int >= now - WINDOW
  }

  /** `DATE(created_at)`. */
  function Day(f: FileRow): int
  {
    f.createdAt as int / SECONDS_PER_DAY
  }

  /** The days a series lists. */
  function Days(stats: seq<DayCount>): set<int>
  {
    set x | x in stats :: x.day
  }

  /** `ORDER BY date`, with each day once. */
  predicate Ascending(stats: seq<DayCount>)
  {
    forall i, j :: 0 <= i < j < |stats| ==> stats[i].day < stats[j].day
  }

  /** A group exists only for a day that has files. */
  predicate Positive(stats: seq<DayCount>)
  {
    forall i :: 0 <= i < |stats| ==> stats[i].count > 0
  }

  /** The files a series counts on day `d`. */
  function CountOn(stats: seq<DayCount>, d: int): nat
  {
    if |stats| == 0 then 0
    else (if stats[0].day == d then stats[0].count else 0) + CountOn(stats[1..], d)
  }

  /** The files a series counts in all. */
  function Total(stats: seq<DayCount>): nat
  {
    if |stats| == 0 then 0 else stats[0].count + Total(stats[1..])
  }

  lemma AscendingTail(stats: seq<DayCount>)
    requires Ascending(stats) && 0 < |stats|
    ensures Ascending(stats[1..])
    ensures forall y :: y in Days(stats[1..]) ==> stats[0].day < y
  {
    forall y | y in Days(stats[1..])
      ensures stats[0].day < y
    {
      var x :| x in stats[1..] && x.day == y;
      var k :| 0 <= k < |stats[1..]| && stats[1..][k] == x;
      assert stats[k + 1] == x;
    }
  }

  /** One more file on day `d`, counted into the series. */
  function Bump(stats: seq<DayCount>, d: int): (r: seq<DayCount>)
    ensures Days(r) == Days(stats) + {d}
  {
    if |stats| == 0 then [DayCount(d, 1)]
    else
      DaysCons(stats[0], stats[1..]);
      assert stats == [stats[0]] + stats[1..];
      if stats[0].day == d then
        DaysCons(DayCount(d, stats[0].count + 1), stats[1..]);
        [DayCount(d, stats[0].count + 1)] + stats[1..]
      else if d < stats[0].day then
        DaysCons(DayCount(d, 1), stats);
        [DayCount(d, 1)] + stats
      else
        var rest := Bump(stats[1..], d);
        DaysCons(stats[0], rest);
        [stats[0]] + rest
  }

  lemma DaysCons(x: DayCount, rest: seq<DayCount>)
    ensures Days([x] + rest) == {x.day} + Days(rest)
  {
    assert forall y :: y in [x] + rest <==> y == x || y in rest;
  }

  /** Counting a file in keeps the series ascending, each day once, and every count positive. */
  lemma {:induction false} BumpKeepsShape(stats: seq<DayCount>, d: int)
    ensures Ascending(stats) ==> Ascending(Bump(stats, d))
    ensures Positive(stats) ==> Positive(Bump(stats, d))
  {
    if |stats| > 0 {
      var tail := stats[1..];
      assert stats == [stats[0]] + tail;
      PositiveTail(stats);
      if stats[0].day == d {
        var x := DayCount(d, stats[0].count + 1);
        if Ascending(stats) {
          AscendingTail(stats);
          AscendingCons(x, tail);
        }
        PositiveCons(x, tail);
      } else if d < stats[0].day {
        var x := DayCount(d, 1);
        if Ascending(stats) {
          AscendingTail(stats);
          DaysCons(stats[0], tail);
          AscendingCons(x, stats);
        }
        PositiveCons(x, stats);
      } else {
        var rest := Bump(tail, d);
        BumpKeepsShape(tail, d);
        if Ascending(stats) {
          AscendingTail(stats);
          AscendingCons(stats[0], rest);
        }
        PositiveCons(stats[0], rest);
      }
    }
  }

  lemma PositiveTail(stats: seq<DayCount>)
    requires 0 < |stats|
    ensures Positive(stats) ==> Positive(stats[1..])
  {
    assert forall i :: 0 <= i < |stats[1..]| ==> stats[1..][i] == stats[i + 1];
  }

  lemma PositiveCons(x: DayCount, rest: seq<DayCount>)
    ensures x.count > 0 && Positive(rest) ==> Positive([x] + rest)
  {
    assert forall i :: 0 < i < |[x] + rest| ==> ([x] + rest)[i] == rest[i - 1];
  }

  lemma AscendingCons(x: DayCount, rest: seq<DayCount>)
    requires Ascending(rest) && forall y :: y in Days(rest) ==> x.day < y
    ensures Ascending([x] + rest)
  {
    var s := [x] + rest;
    forall i, j | 0 <= i < j < |s|
      ensures s[i].day < s[j].day
    {
      assert s[j] == rest[j - 1] && rest[j - 1] in rest;
      assert rest[j - 1].day in Days(rest);
      if 0 < i {
        assert s[i] == rest[i - 1];
      }
    }
  }

  /** Counting the files of the window into a series, one at a time. */
  function Tally(files: seq<FileRow>, now: int): (r: seq<DayCount>)
    ensures Ascending(r) && Positive(r)
  {
    if |files| == 0 then []
    else
      var rest := Tally(files[1..], now);
      if InWindow(files[0], now) then
        BumpKeepsShape(rest, Day(files[0]));
        Bump(rest, Day(files[0]))
      else rest
  }

  /** `daily_stats`: the series, or nothing when the query fails. */
  function DailyStats(files: seq<FileRow>, now: int, fails: bool): (stats: seq<DayCount>)
    ensures fails ==> stats == []
    ensures Ascending(stats) && Positive(stats)
  {
    if fails then [] else Tally(files, now)
  }

  lemma {:induction false} BumpCounts(stats: seq<DayCount>, d: int, e: int)
    ensures CountOn(Bump(stats, d), e) == CountOn(stats, e) + (if e == d then 1 else 0)
    ensures Total(Bump(stats, d)) == Total(stats) + 1
  {
    if |stats| == 0 {
    } else if stats[0].day == d {
      assert ([DayCount(d, stats[0].count + 1)] + stats[1..])[1..] == stats[1..];
    } else if d < stats[0].day {
      assert ([DayCount(d, 1)] + stats)[1..] == stats;
    } else {
      BumpCounts(stats[1..], d, e);
      assert ([stats[0]] + Bump(stats[1..], d))[1..] == Bump(stats[1..], d);
    }
  }

  /** Each day's count is the number of the window's files uploaded that day. */
  lemma {:induction false} TallyCounts(files: seq<FileRow>, now: int, d: int)
    ensures CountOn(Tally(files, now), d) == |Filter(files, (f: FileRow) => InWindow(f, now) && Day(f) == d)|
  {
    if |files| > 0 {
      TallyCounts(files[1..], now, d);
      if InWindow(files[0], now) {
        BumpCounts(Tally(files[1..], now), Day(files[0]), d);
      }
    }
  }

  /** The counts add up to the number of files in the window. */
  lemma {:induction false} TallyTotal(files: seq<FileRow>, now: int)
    ensures Total(Tally(files, now)) == |Filter(files, (f: FileRow) => InWindow(f, now))|
  {
    if |files| > 0 {
      TallyTotal(files[1..], now);
      if InWindow(files[0], now) {
        BumpCounts(Tally(files[1..], now), Day(files[0]), 0);
      }
    }
  }

  /** In a series of positive counts, a day is listed exactly when something is counted on it. */
  lemma {:induction false} ListedIffCounted(stats: seq<DayCount>, d: int)
    requires Positive(stats)
    ensures d in Days(stats) <==> CountOn(stats, d) > 0
  {
    if |stats| > 0 {
      assert Positive(stats[1..]) by {
        assert forall i :: 0 <= i < |stats[1..]| ==> stats[1..][i] == stats[i + 1];
      }
      ListedIffCounted(stats[1..], d);
      assert Days(stats) == {stats[0].day} + Days(stats[1..]) by {
        assert forall x :: x in stats <==> x == stats[0] || x in stats[1..];
      }
    }
  }

  /**
   * The series of a working query lists the days of the last 30 days that
   * have uploads, in ascending order, each once, with the number of files
   * uploaded that day; the counts add up to the window's files. A failed
   * query shows no series.
   */
  lemma DailySeries(files: seq<FileRow>, now: int, fails: bool, d: int)
    ensures var stats := DailyStats(files, now, fails);
            && (fails ==> stats == [])
            && Ascending(stats) && Positive(stats)
            && (!fails ==>
                  && CountOn(stats, d) == |Filter(files, (f: FileRow) => InWindow(f, now) && Day(f) == d)|
                  && (d in Days(stats) <==> exists f :: f in files && InWindow(f, now) && Day(f) == d)
                  && Total(stats) == |Filter(files, (f: FileRow) => InWindow(f, now))|)
  {
    if !fails {
      var stats := Tally(files, now);
      TallyCounts(files, now, d);
      TallyTotal(files, now);
      ListedIffCounted(stats, d);
      var onDay := Filter(files, (f: FileRow) => InWindow(f, now) && Day(f) == d);
      if exists f :: f in files && InWindow(f, now) && Day(f) == d {
        var f :| f in files && InWindow(f, now) && Day(f) == d;
        assert f in onDay;
      }
      if |onDay| > 0 {
        assert onDay[0] in onDay;
      }
    }
  }

  // ---------------------------------------------------------------------
  // The signed-in user

  /** The name and avatar shown for the signed-in user. */
  datatype UserInfo = UserInfo(slackUsername: string, slackAvatar: Option<string>)

  /**
   * `user_info`: a user is shown only when the cookie names a known session
   * and the query works, and what is shown is the name and avatar of a row
   * of the session's user.
   */
  function SignedInUser(headers: Headers, sessions: map<string, int>, users: seq<UserRow>, queryFails: bool)
    : (r: Option<UserInfo>)
    ensures var token := CdnCookie.SessionToken(headers);
            && (r.Some? ==>
                  && token.Some? && token.value in sessions && !queryFails
                  && exists u :: u in users && u.id == sessions[token.value]
                                 && r.value == UserInfo(u.slackUsername, u.slackAvatar))
            && (token.None? || token.value !in sessions || queryFails ==> r.None?)
  {
    match CdnCookie.SessionToken(headers)
    case None => None
    case Some(token) =>
      if token !in sessions || queryFails then None
      else
        var userId := sessions[token];
        match QueryOpt(users, (u: UserRow) => u.id == userId)
        case None => None
        case Some(u) => Some(UserInfo(u.slackUsername, u.slackAvatar))
  }

  /** The one row of a signed-in user is found and shown. */
  lemma KnownUserShown(headers: Headers, sessions: map<string, int>, users: seq<UserRow>, i: nat)
    requires var token := CdnCookie.SessionToken(headers); token.Some? && token.value in sessions
    requires i < |users| && users[i].id == sessions[CdnCookie.SessionToken(headers).value]
    requires forall j :: 0 <= j < |users| && j != i ==> users[j].id != users[i].id
    ensures SignedInUser(headers, sessions, users, false) == Some(UserInfo(users[i].slackUsername, users[i].slackAvatar))
  {
    QueryOptFinds(users, (u: UserRow) => u.id == users[i].id, i);
  }

  // ---------------------------------------------------------------------
  // The page

  /** Which of the four queries fail. */
  datatype MetricsFaults = MetricsFaults(count: bool, sum: bool, daily: bool, user: bool)

  datatype MetricsData = MetricsData(totalFiles: int, totalSize: int, daily: seq<DayCount>, user: Option<UserInfo>)

  /**
   * The specification of `metrics`, with the total size as the page means
   * it. No failure fails the page: each failed query shows its default and
   * leaves the others alone.
   */
  function MetricsPage(headers: Headers, sessions: map<string, int>, users: seq<UserRow>, files: seq<FileRow>,
                       now: int, faults: MetricsFaults): (page: MetricsData)
    ensures faults.count ==> page.totalFiles == 0
    ensures faults.sum ==> page.totalSize == 0
    ensures faults.daily ==> page.daily == []
    ensures faults.user ==> page.user.None?
    ensures !faults.count ==> page.totalFiles == |files|
    ensures !faults.sum ==> page.totalSize == CdnDashboard.SizeSum(files)
    ensures page.daily == DailyStats(files, now, faults.daily)
  {
    MetricsData(TotalFiles(files, faults.count), TotalSize(files, faults.sum), DailyStats(files, now, faults.daily),
                SignedInUser(headers, sessions, users, faults.user))
  }

  // ---------------------------------------------------------------------
  // The total size

  /** A table holding one byte shows a total size of 0 as written, and of 1 as intended. */
  lemma OneByteTableShowsZero(f: FileRow)
    requires f.size == 1
    ensures TotalSizeAsWritten([f], false) == 0
    ensures TotalSize([f], false) == 1
  {
    assert [f][1..] == [];
    assert CdnDashboard.SizeSum([f]) == 1;
  }

  /** The total size adds up: one more file adds its size, whatever the order of the rows. */
  lemma TotalSizeAddsUp(files: seq<FileRow>, f: FileRow, other: seq<FileRow>)
    requires multiset(other) == multiset(files + [f])
    ensures TotalSize(other, false) == TotalSize(files, false) + f.size
    ensures TotalSize(files, false) >= 0
  {
    CdnDashboard.SizeSumPermutation(other, files + [f]);
    CdnDashboard.SizeSumAppend(files, [f]);
    assert [f][1..] == [];
  }

  /** Files split by any test into those passing and those failing it: the two totals add up to the whole. */
  lemma {:induction false} SizeSumPartition(files: seq<FileRow>, p: FileRow -> bool, q: FileRow -> bool)
    requires forall f :: q(f) == !p(f)
    ensures CdnDashboard.SizeSum(files) == CdnDashboard.SizeSum(Filter(files, p)) + CdnDashboard.SizeSum(Filter(files, q))
  {
    if |files| > 0 {
      var x := files[0];
      SizeSumPartition(files[1..], p, q);
      var passing := Filter(files[1..], p);
      var failing := Filter(files[1..], q);
      if p(x) {
        assert ([x] + passing)[1..] == passing;
        assert Filter(files, q) == failing;
      } else {
        assert ([x] + failing)[1..] == failing;
        assert Filter(files, p) == passing;
      }
    }
  }

  /** The total size is one user's dashboard total plus the sizes of everyone else's files. */
  lemma TotalSizeSplits(files: seq<FileRow>, userId: int)
    ensures TotalSize(files, false)
            == CdnDashboard.SizeSum(Filter(files, (f: FileRow) => f.userId == userId))
               + CdnDashboard.SizeSum(Filter(files, (f: FileRow) => f.userId != userId))
  {
    SizeSumPartition(files, (f: FileRow) => f.userId == userId, (f: FileRow) => f.userId != userId);
  }
}
