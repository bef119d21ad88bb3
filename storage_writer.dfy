/**
 * The single writer to object storage used by the current Node service
 * (src/storage.ts): file-name sanitising, unique object names, public URLs,
 * the part-size policy for multipart uploads, the single-shot and
 * multipart upload paths with their clean-up on failure, and the
 * authenticated download used before re-hosting a remote file.
 */
module StorageWriter {
  import opened Common
  import opened Http
  import opened ObjectStore

  const MiB: nat := 1024 * 1024

  /** The largest body the upload routes accept. */
  const MAX_FILE_SIZE: nat := 2 * 1024 * MiB

  /** Declared sizes at or above this go through the multipart path. */
  const MULTIPART_THRESHOLD: nat := 10 * MiB

  const MIN_PART_SIZE: nat := 5242880
  const MAX_PART_SIZE: nat := 100 * MiB
  const MAX_PARTS: nat := 1000

  /** Every object is written as publicly cacheable for a year and never revalidated. */
  const CACHE_CONTROL: string := "public, immutable, max-age=31536000"

  // ---------------------------------------------------------------------
  // Names and URLs

  /** The characters a sanitised name keeps: ASCII letters, digits, '.' and '-'. */
  predicate IsSafeNameChar(c: char)
  {
    IsAsciiLetter(c) || IsDigit(c) || c == '.' || c == '-'
  }

  predicate IsSanitizedChar(c: char)
  {
    IsSafeNameChar(c) || c == '_'
  }

  /**
   * JavaScript strings are sequences of UTF-16 code units: a character above
   * U+FFFF is two of them (a surrogate pair), any other character one.
   */
  function Utf16Units(c: char): (n: nat)
    ensures n == 1 || n == 2
  {
    if c as int > 0xFFFF then 2 else 1
  }

  /** The length of a string as JavaScript counts it. */
  function Utf16Length(s: string): (n: nat)
    ensures |s| <= n <= 2 * |s|
    ensures n == 0 <==> s == ""
  {
    if |s| == 0 then 0 else Utf16Units(s[0]) + Utf16Length(s[1..])
  }

  /** Every character of `s` is one UTF-16 code unit. */
  predicate Bmp(s: string)
  {
    forall i :: 0 <= i < |s| ==> s[i] as int <= 0xFFFF
  }

  /**
   * What `/[^a-zA-Z0-9.-]/g` puts in place of one character. The pattern has
   * no `u` flag, so it matches code units: each half of a surrogate pair is
   * replaced on its own, and a character above U+FFFF becomes two '_'.
   */
  function Replacement(c: char): (r: string)
    ensures |r| == Utf16Units(c)
    ensures IsSafeNameChar(c) ==> r == [c]
    ensures !IsSafeNameChar(c) ==> forall i :: 0 <= i < |r| ==> r[i] == '_'
  {
    if IsSafeNameChar(c) then [c] else if c as int > 0xFFFF then "__" else "_"
  }

  function ReplaceUnsafe(name: string): (r: string)
    ensures |r| == Utf16Length(name)
    ensures forall i :: 0 <= i < |r| ==> IsSanitizedChar(r[i])
    ensures Bmp(name) ==> forall i :: 0 <= i < |name| ==> r[i] == if IsSafeNameChar(name[i]) then name[i] else '_'
  {
    if |name| == 0 then ""
    else
      var r := Replacement(name[0]) + ReplaceUnsafe(name[1..]);
      assert Bmp(name) ==> Bmp(name[1..]) && |Replacement(name[0])| == 1;
      r
  }

  /** The replacement is done character by character: it distributes over concatenation. */
  lemma {:induction false} ReplaceUnsafeAppend(a: string, b: string)
    ensures ReplaceUnsafe(a + b) == ReplaceUnsafe(a) + ReplaceUnsafe(b)
  {
    if |a| == 0 {
      assert a + b == b;
    } else {
      assert (a + b)[0] == a[0] && (a + b)[1..] == a[1..] + b;
      ReplaceUnsafeAppend(a[1..], b);
      calc {
        ReplaceUnsafe(a + b);
        Replacement(a[0]) + ReplaceUnsafe(a[1..] + b);
        Replacement(a[0]) + (ReplaceUnsafe(a[1..]) + ReplaceUnsafe(b));
        (Replacement(a[0]) + ReplaceUnsafe(a[1..])) + ReplaceUnsafe(b);
      }
    }
  }

  /** A name with an emoji between two letters keeps the letters and gets two '_' for the emoji. */
  lemma ReplaceUnsafeSurrogatePair()
    ensures ReplaceUnsafe("a\U{1F600}b") == "a__b"
  {
    assert "a\U{1F600}b"[1..][1..] == "b";
  }

  /**
   * Every character outside [a-zA-Z0-9.-] becomes '_' (two for a character
   * above U+FFFF); an empty name becomes "upload_" followed by the current
   * time in milliseconds (`now`).
   */
  function SanitizeFileName(name: string, now: nat): (r: string)
    ensures |r| > 0
    ensures forall i :: 0 <= i < |r| ==> IsSanitizedChar(r[i])
    ensures name != "" ==> |r| == Utf16Length(name)
    ensures Bmp(name) ==> forall i :: 0 <= i < |name| ==> IsSafeNameChar(name[i]) ==> r[i] == name[i]
    ensures Bmp(name) ==> forall i :: 0 <= i < |name| ==> !IsSafeNameChar(name[i]) ==> r[i] == '_'
    ensures name == "" ==> r == "upload_" + NatToString(now)
  {
    var s := ReplaceUnsafe(name);
    if s == "" then "upload_" + NatToString(now) else s
  }

  lemma {:induction false} ReplaceUnsafeKeepsSanitized(s: string)
    requires forall i :: 0 <= i < |s| ==> IsSanitizedChar(s[i])
    ensures ReplaceUnsafe(s) == s
  {
    if |s| > 0 {
      ReplaceUnsafeKeepsSanitized(s[1..]);
    }
  }

  /** Sanitising an already sanitised name changes nothing, whatever the clock says. */
  lemma SanitizeIdempotent(name: string, now: nat, later: nat)
    ensures SanitizeFileName(SanitizeFileName(name, now), later) == SanitizeFileName(name, now)
  {
    ReplaceUnsafeKeepsSanitized(SanitizeFileName(name, now));
  }

  /**
   * The object name "<now>-<16 hex digits of 8 random bytes>-<sanitised name>".
   * `random` stands for the 8 bytes drawn from the system's secure generator.
   */
  function UniqueFileName(name: string, now: nat, random: seq<byte>): (r: string)
    requires |random| == 8
    ensures StartsWith(r, NatToString(now) + "-")
    ensures EndsWith(r, "-" + SanitizeFileName(name, now))
    ensures forall i :: 0 <= i < |r| ==> IsSanitizedChar(r[i])
  {
    NatToString(now) + "-" + HexEncode(random) + "-" + SanitizeFileName(name, now)
  }

  /** The decimal timestamp in front of the first '-' is read back unambiguously. */
  lemma TimestampSplit(t1: nat, t2: nat, rest1: string, rest2: string)
    requires NatToString(t1) + "-" + rest1 == NatToString(t2) + "-" + rest2
    ensures t1 == t2 && rest1 == rest2
  {
    assert NatToString(t1) + ['-'] + rest1 == NatToString(t2) + ['-'] + rest2;
    DigitsThenSeparator(NatToString(t1), NatToString(t2), '-', rest1, rest2);
    NatToStringInjective(t1, t2);
  }

  lemma SplitAtSeparator(h1: string, s1: string, h2: string, s2: string)
    requires |h1| == |h2|
    requires h1 + "-" + s1 == h2 + "-" + s2
    ensures h1 == h2 && s1 == s2
  {
    var x := h1 + "-" + s1;
    assert h1 == x[..|h1|] && h2 == x[..|h1|];
    assert s1 == x[|h1| + 1..] && s2 == x[|h1| + 1..];
  }

  /** "<time>-<hex>-<name>" splits back into its parts when the hex part has a known length. */
  lemma NamePartsInjective(t1: nat, h1: string, s1: string, t2: nat, h2: string, s2: string)
    requires |h1| == |h2|
    requires NatToString(t1) + "-" + h1 + "-" + s1 == NatToString(t2) + "-" + h2 + "-" + s2
    ensures t1 == t2 && h1 == h2 && s1 == s2
  {
    assert NatToString(t1) + "-" + h1 + "-" + s1 == NatToString(t1) + "-" + (h1 + "-" + s1);
    assert NatToString(t2) + "-" + h2 + "-" + s2 == NatToString(t2) + "-" + (h2 + "-" + s2);
    TimestampSplit(t1, t2, h1 + "-" + s1, h2 + "-" + s2);
    SplitAtSeparator(h1, s1, h2, s2);
  }

  /**
   * The name determines the time, the random bytes and the sanitised name it
   * was built from: two draws of different random bytes never collide.
   */
  lemma UniqueFileNameInjective(n1: string, t1: nat, r1: seq<byte>, n2: string, t2: nat, r2: seq<byte>)
    requires |r1| == 8 && |r2| == 8
    requires UniqueFileName(n1, t1, r1) == UniqueFileName(n2, t2, r2)
    ensures t1 == t2 && r1 == r2 && SanitizeFileName(n1, t1) == SanitizeFileName(n2, t2)
  {
    NamePartsInjective(t1, HexEncode(r1), SanitizeFileName(n1, t1), t2, HexEncode(r2), SanitizeFileName(n2, t2));
    HexEncodeInjective(r1, r2);
  }

  /** The object key of a file: "<userDir>/<fileName>". */
  function ObjectKey(userDir: string, fileName: string): (key: string)
    ensures StartsWith(key, userDir + "/") && EndsWith(key, "/" + fileName)
  {
    userDir + "/" + fileName
  }

  /** "<cdnBase>/<userDir>/<fileName>". */
  function FileUrl(cdnBase: string, userDir: string, fileName: string): (url: string)
    ensures StartsWith(url, cdnBase + "/")
  {
    cdnBase + "/" + userDir + "/" + fileName
  }

  /** The public URL handed out is the CDN base followed by exactly the key that was written. */
  lemma FileUrlNamesObjectKey(cdnBase: string, userDir: string, fileName: string)
    ensures FileUrl(cdnBase, userDir, fileName) == cdnBase + "/" + ObjectKey(userDir, fileName)
    ensures StartsWith(FileUrl(cdnBase, userDir, fileName), cdnBase + "/")
    ensures EndsWith(FileUrl(cdnBase, userDir, fileName), "/" + fileName)
  {
    var url := FileUrl(cdnBase, userDir, fileName);
    assert url == (cdnBase + "/") + (userDir + "/" + fileName);
    assert url == (cdnBase + "/" + userDir) + ("/" + fileName);
  }

  // ---------------------------------------------------------------------
  // Part sizes

  /** `Math.ceil(a / b)` for a natural `a` and positive `b`. */
  function CeilDiv(a: nat, b: nat): (q: nat)
    requires b > 0
    ensures q == 0 <==> a == 0
  {
    var q := (a + b - 1) / b;
    assert q * b <= a + b - 1 < q * b + b;
    q
  }

  /** The ceiling's defining bounds: q pieces of b cover a, and q - 1 pieces do not. */
  lemma CeilDivBounds(a: nat, b: nat)
    requires b > 0
    ensures CeilDiv(a, b) * b >= a
    ensures CeilDiv(a, b) > 0 ==> (CeilDiv(a, b) - 1) * b < a
  {
    var q := (a + b - 1) / b;
    assert q * b <= a + b - 1 < q * b + b;
  }

  lemma CeilDivMonotone(a: nat, b: nat, d: nat)
    requires d > 0 && a <= b
    ensures CeilDiv(a, d) <= CeilDiv(b, d)
  {
    var qa, qb := CeilDiv(a, d), CeilDiv(b, d);
    CeilDivBounds(a, d);
    CeilDivBounds(b, d);
  }

  lemma MulMonotone(x: nat, y: nat, d: nat)
    requires x <= y
    ensures x * d <= y * d
  {
  }

  /**
   * The part size for a body of `fileSize` bytes: 5 MiB, or enough to stay
   * within 1000 parts; at least 10, 25 and 50 MiB once the size is strictly
   * above 100 MiB, 500 MiB and 1 GiB; always within [5 MiB, 100 MiB].
   */
  function CalculatePartSize(fileSize: nat): (partSize: nat)
    ensures MIN_PART_SIZE <= partSize <= MAX_PART_SIZE
  {
    var p0 := if fileSize > MIN_PART_SIZE * MAX_PARTS then CeilDiv(fileSize, MAX_PARTS) else MIN_PART_SIZE;
    var p1 := if fileSize > 100 * MiB then Max(p0, 10 * MiB) else p0;
    var p2 := if fileSize > 500 * MiB then Max(p1, 25 * MiB) else p1;
    var p3 := if fileSize > 1024 * MiB then Max(p2, 50 * MiB) else p2;
    Min(Max(p3, MIN_PART_SIZE), MAX_PART_SIZE)
  }

  /** The tiers: the size a body gets in each band up to about 48.8 GiB. */
  lemma PartSizeTiers(fileSize: nat)
    ensures fileSize <= 100 * MiB ==> CalculatePartSize(fileSize) == 5 * MiB
    ensures 100 * MiB < fileSize <= 500 * MiB ==> CalculatePartSize(fileSize) == 10 * MiB
    ensures 500 * MiB < fileSize <= 1024 * MiB ==> CalculatePartSize(fileSize) == 25 * MiB
    ensures 1024 * MiB < fileSize <= 1000 * 50 * MiB ==> CalculatePartSize(fileSize) == 50 * MiB
  {
    if fileSize > MIN_PART_SIZE * MAX_PARTS && fileSize <= 1000 * 50 * MiB {
      CeilDivBounds(fileSize, MAX_PARTS);
    }
  }

  /** A larger body never gets a smaller part size. */
  lemma PartSizeMonotone(a: nat, b: nat)
    requires a <= b
    ensures CalculatePartSize(a) <= CalculatePartSize(b)
  {
    if a > MIN_PART_SIZE * MAX_PARTS {
      CeilDivMonotone(a, b, MAX_PARTS);
    } else if b > MIN_PART_SIZE * MAX_PARTS {
      CeilDivBounds(b, MAX_PARTS);
    }
  }

  /** Bodies up to 1000 maximum-size parts are split into at most 1000 parts. */
  lemma PartCountWithinMaxParts(fileSize: nat)
    requires fileSize <= MAX_PARTS * MAX_PART_SIZE
    ensures CeilDiv(fileSize, CalculatePartSize(fileSize)) <= MAX_PARTS
  {
    var ps := CalculatePartSize(fileSize);
    var n := CeilDiv(fileSize, ps);
    CeilDivBounds(fileSize, ps);
    if n > MAX_PARTS {
      MulMonotone(MAX_PARTS, n - 1, ps);
      if fileSize > MIN_PART_SIZE * MAX_PARTS {
        CeilDivBounds(fileSize, MAX_PARTS);
      } else {
        MulMonotone(MIN_PART_SIZE, ps, MAX_PARTS);
      }
    }
  }

  /** Anything the routes accept (at most 2 GiB) is uploaded in at most 50 parts. */
  lemma PartCountForAcceptedFiles(fileSize: nat)
    requires fileSize <= MAX_FILE_SIZE
    ensures CeilDiv(fileSize, CalculatePartSize(fileSize)) <= 50
  {
    PartSizeTiers(fileSize);
    var ps := CalculatePartSize(fileSize);
    var n := CeilDiv(fileSize, ps);
    CeilDivBounds(fileSize, ps);
    if n > 50 {
      MulMonotone(50, n - 1, ps);
    }
  }

  lemma PartSizeExamples()
    ensures CalculatePartSize(50 * MiB) == 5 * MiB
    ensures CalculatePartSize(101 * MiB) == 10 * MiB
    ensures CalculatePartSize(2 * 1024 * MiB) == 50 * MiB
  {
    PartSizeTiers(50 * MiB);
    PartSizeTiers(101 * MiB);
    PartSizeTiers(2 * 1024 * MiB);
  }

  // ---------------------------------------------------------------------
  // Multipart layout

  /** Where part k + 1 begins: k whole parts in. */
  function PartOffset(partSize: nat, k: nat): (offset: nat)
  {
    if k == 0 then 0 else PartOffset(partSize, k - 1) + partSize
  }

  /** Every part's offset lies inside the body, and the offset after the last part lies at or past its end. */
  lemma PartOffsets(size: nat, partSize: nat, k: nat)
    requires partSize > 0
    ensures k < CeilDiv(size, partSize) ==> PartOffset(partSize, k) < size
    ensures k >= CeilDiv(size, partSize) ==> PartOffset(partSize, k) >= size
  {
    var n := CeilDiv(size, partSize);
    PartOffsetIsProduct(partSize, k);
    CeilDivBounds(size, partSize);
    if k < n {
      MulMonotone(k, n - 1, partSize);
    } else {
      MulMonotone(n, k, partSize);
    }
  }

  /** The offsets are the products: part k + 1 starts at byte k * partSize. */
  lemma {:induction false} PartOffsetIsProduct(partSize: nat, k: nat)
    ensures PartOffset(partSize, k) == k * partSize
  {
    if k > 0 {
      PartOffsetIsProduct(partSize, k - 1);
    }
  }

  /**
   * Part `k` (numbered from 1) of `body` cut into pieces of `partSize`
   * bytes: from (k - 1) * partSize up to partSize bytes further or the end.
   * Every part but the last is exactly `partSize` long.
   */
  function Chunk(body: seq<byte>, partSize: nat, k: nat): (data: seq<byte>)
    requires partSize > 0 && 1 <= k <= CeilDiv(|body|, partSize)
    ensures 0 < |data| <= partSize
    ensures k < CeilDiv(|body|, partSize) ==> |data| == partSize
  {
    PartOffsets(|body|, partSize, k - 1);
    PartOffsets(|body|, partSize, k);
    var start := PartOffset(partSize, k - 1);
    body[start..Min(start + partSize, |body|)]
  }

  /** Part `k` covers the bytes right after the first k - 1 parts. */
  lemma ChunksConcatenate(body: seq<byte>, partSize: nat, k: nat)
    requires partSize > 0 && 1 <= k <= CeilDiv(|body|, partSize)
    ensures PartOffset(partSize, k - 1) < |body|
    ensures body[..PartOffset(partSize, k - 1)] + Chunk(body, partSize, k) == body[..Min(PartOffset(partSize, k), |body|)]
  {
    PartOffsets(|body|, partSize, k - 1);
    var lo := PartOffset(partSize, k - 1);
    SliceJoin(body, lo, Min(lo + partSize, |body|));
  }

  lemma SliceJoin<T>(s: seq<T>, i: nat, j: nat)
    requires i <= j <= |s|
    ensures s[..i] + s[i..j] == s[..j]
  {
  }

  /** The `UploadPart` requests for parts 1..k, in order. */
  function PartCalls(key: string, uploadId: nat, body: seq<byte>, partSize: nat, k: nat): (calls: seq<Call>)
    requires partSize > 0 && k <= CeilDiv(|body|, partSize)
    ensures |calls| == k
    ensures forall i :: 0 <= i < k ==> calls[i] == Call.UploadPart(key, uploadId, i + 1, Chunk(body, partSize, i + 1))
  {
    if k == 0 then []
    else PartCalls(key, uploadId, body, partSize, k - 1) + [Call.UploadPart(key, uploadId, k, Chunk(body, partSize, k))]
  }

  /** The parts the bucket holds after parts 1..k were sent at log positions start+1..start+k. */
  function StoredParts(body: seq<byte>, partSize: nat, start: nat, k: nat, faults: set<nat>): map<nat, StoredPart>
    requires partSize > 0 && k <= CeilDiv(|body|, partSize)
  {
    map j: nat | 1 <= j <= k && start + j !in faults :: StoredPart(Chunk(body, partSize, j), start + j)
  }

  lemma StoredPartsStep(body: seq<byte>, partSize: nat, start: nat, k: nat, faults: set<nat>)
    requires partSize > 0 && 1 <= k <= CeilDiv(|body|, partSize)
    ensures StoredParts(body, partSize, start, k, faults)
         == if start + k in faults then StoredParts(body, partSize, start, k - 1, faults)
            else StoredParts(body, partSize, start, k - 1, faults)[k := StoredPart(Chunk(body, partSize, k), start + k)]
  {
  }

  /** The part list sent on completion: part i + 1 with the ETag of request start + 1 + i. */
  function CompletedList(start: nat, k: nat): (list: seq<CompletedPart>)
    ensures |list| == k
    ensures StrictlyAscending(list)
  {
    seq(k, i requires 0 <= i < k => CompletedPart(i + 1, start + 1 + i))
  }

  /** The first position in [lo, hi] whose request fails, if any. */
  function FirstFault(lo: nat, hi: nat, faults: set<nat>): (r: Option<nat>)
    ensures r.Some? ==> lo <= r.value <= hi && r.value in faults
    ensures r.Some? ==> forall i :: lo <= i < r.value ==> i !in faults
    ensures r.None? ==> forall i :: lo <= i <= hi ==> i !in faults
    decreases hi + 1 - lo
  {
    if lo > hi then None
    else if lo in faults then Some(lo)
    else FirstFault(lo + 1, hi, faults)
  }

  lemma FirstFaultIs(lo: nat, hi: nat, faults: set<nat>, i: nat)
    requires lo <= i <= hi && i in faults
    requires forall j :: lo <= j < i ==> j !in faults
    ensures FirstFault(lo, hi, faults) == Some(i)
  {
  }

  predicate SortedByPartNumber(list: seq<CompletedPart>)
  {
    forall i, j :: 0 <= i < j < |list| ==> list[i].partNumber <= list[j].partNumber
  }

  /** Puts `p` in front of the first element with a part number at least its own. */
  function InsertByPartNumber(p: CompletedPart, sorted: seq<CompletedPart>): (r: seq<CompletedPart>)
    ensures |r| == |sorted| + 1
  {
    if |sorted| == 0 then [p]
    else if p.partNumber <= sorted[0].partNumber then [p] + sorted
    else [sorted[0]] + InsertByPartNumber(p, sorted[1..])
  }

  lemma {:induction false} InsertPermutes(p: CompletedPart, sorted: seq<CompletedPart>)
    ensures multiset(InsertByPartNumber(p, sorted)) == multiset(sorted) + multiset{p}
  {
    if |sorted| > 0 && p.partNumber > sorted[0].partNumber {
      InsertPermutes(p, sorted[1..]);
      assert sorted == [sorted[0]] + sorted[1..];
    }
  }

  lemma {:induction false} InsertKeepsSorted(p: CompletedPart, sorted: seq<CompletedPart>)
    requires SortedByPartNumber(sorted)
    ensures SortedByPartNumber(InsertByPartNumber(p, sorted))
  {
    if |sorted| > 0 && p.partNumber > sorted[0].partNumber {
      SortedTail(sorted);
      InsertKeepsSorted(p, sorted[1..]);
      InsertLowerBound(p, sorted[1..], sorted[0].partNumber);
      SortedCons(sorted[0], InsertByPartNumber(p, sorted[1..]));
    }
  }

  /** A sorted list without its head is sorted, and its head bounds the rest from below. */
  lemma SortedTail(sorted: seq<CompletedPart>)
    requires SortedByPartNumber(sorted) && 0 < |sorted|
    ensures SortedByPartNumber(sorted[1..])
    ensures forall q :: q in sorted[1..] ==> sorted[0].partNumber <= q.partNumber
  {
    forall q | q in sorted[1..]
      ensures sorted[0].partNumber <= q.partNumber
    {
      var j :| 0 <= j < |sorted[1..]| && sorted[1..][j] == q;
      assert sorted[j + 1] == q;
    }
  }

  /** Inserting keeps a lower bound that the part and the list both respect. */
  lemma {:induction false} InsertLowerBound(p: CompletedPart, sorted: seq<CompletedPart>, b: int)
    requires b <= p.partNumber && forall q :: q in sorted ==> b <= q.partNumber
    ensures forall q :: q in InsertByPartNumber(p, sorted) ==> b <= q.partNumber
  {
    if |sorted| > 0 && p.partNumber > sorted[0].partNumber {
      assert forall q :: q in sorted[1..] ==> q in sorted;
      InsertLowerBound(p, sorted[1..], b);
    }
  }

  /** A head no larger than anything in a sorted list keeps it sorted. */
  lemma SortedCons(x: CompletedPart, rest: seq<CompletedPart>)
    requires SortedByPartNumber(rest) && forall q :: q in rest ==> x.partNumber <= q.partNumber
    ensures SortedByPartNumber([x] + rest)
  {
    var r := [x] + rest;
    forall i, j | 0 <= i < j < |r|
      ensures r[i].partNumber <= r[j].partNumber
    {
      if i > 0 {
        assert r[i] == rest[i - 1] && r[j] == rest[j - 1];
      } else {
        assert r[j] in rest;
      }
    }
  }

  /** `parts.sort((a, b) => a.PartNumber - b.PartNumber)`, as an insertion sort. */
  function SortByPartNumber(parts: seq<CompletedPart>): (r: seq<CompletedPart>)
    ensures |r| == |parts|
  {
    if |parts| == 0 then []
    else InsertByPartNumber(parts[0], SortByPartNumber(parts[1..]))
  }

  /** The sort returns a permutation of its input. */
  lemma {:induction false} SortPermutes(parts: seq<CompletedPart>)
    ensures multiset(SortByPartNumber(parts)) == multiset(parts)
  {
    if |parts| > 0 {
      SortPermutes(parts[1..]);
      InsertPermutes(parts[0], SortByPartNumber(parts[1..]));
      assert parts == [parts[0]] + parts[1..];
    }
  }

  /** The sort returns the parts ordered by part number. */
  lemma {:induction false} SortSorts(parts: seq<CompletedPart>)
    ensures SortedByPartNumber(SortByPartNumber(parts))
  {
    if |parts| > 0 {
      SortSorts(parts[1..]);
      InsertKeepsSorted(parts[0], SortByPartNumber(parts[1..]));
    }
  }

  /** The parts arrive in part-number order already, so the sort leaves them as they are. */
  lemma {:induction false} SortKeepsAscending(parts: seq<CompletedPart>)
    requires StrictlyAscending(parts)
    ensures SortByPartNumber(parts) == parts
  {
    if |parts| > 0 {
      SortKeepsAscending(parts[1..]);
      assert parts == [parts[0]] + parts[1..];
    }
  }

  // ---------------------------------------------------------------------
  // Upload paths

  /** The outcome of an upload: stored, or failed with the error of the request at log position `failedCall`. */
  datatype UploadResult = Stored | Failed(failedCall: nat)

  /**
   * The requests of a multipart upload of `body` whose first request lands
   * at log position `start` and which would receive id `uploadId`.
   * After a successful create, every part is sent; the completion follows
   * only if every part succeeded; after any failure past the create, one
   * abort is sent.
   */
  function MultipartLog(key: string, contentType: string, body: seq<byte>, start: nat, uploadId: nat, faults: set<nat>)
    : seq<Call>
  {
    [Call.CreateMultipartUpload(key, contentType, CACHE_CONTROL)]
      + if start in faults then [] else AfterCreateLog(key, body, CalculatePartSize(|body|), start, uploadId, faults)
  }

  /** The requests that follow a successful create at log position `start`, for parts of `partSize` bytes. */
  function AfterCreateLog(key: string, body: seq<byte>, partSize: nat, start: nat, uploadId: nat, faults: set<nat>)
    : seq<Call>
    requires partSize > 0
  {
    var n := CeilDiv(|body|, partSize);
    var parts := PartCalls(key, uploadId, body, partSize, n);
    var abort := Call.AbortMultipartUpload(key, uploadId);
    if FirstFault(start + 1, start + n, faults).Some? then parts + [abort]
    else
      var complete := Call.CompleteMultipartUpload(key, uploadId, CompletedList(start, n));
      if n == 0 || start + n + 1 in faults then parts + [complete, abort]
      else parts + [complete]
  }

  /** The error reported is the create's, else the first failed part's, else the completion's; never the abort's. */
  function MultipartOutcome(size: nat, start: nat, faults: set<nat>): UploadResult
  {
    if start in faults then Failed(start) else AfterCreateOutcome(size, CalculatePartSize(size), start, faults)
  }

  function AfterCreateOutcome(size: nat, partSize: nat, start: nat, faults: set<nat>): UploadResult
    requires partSize > 0
  {
    var n := CeilDiv(size, partSize);
    match FirstFault(start + 1, start + n, faults)
    case Some(i) => Failed(i)
    case None => if n == 0 || start + n + 1 in faults then Failed(start + n + 1) else Stored
  }

  /** The upload was created but neither completed nor aborted: the abort itself failed. */
  predicate LeavesUploadOpen(size: nat, start: nat, faults: set<nat>)
  {
    start !in faults && AbortFails(size, CalculatePartSize(size), start, faults)
  }

  predicate AbortFails(size: nat, partSize: nat, start: nat, faults: set<nat>)
    requires partSize > 0
  {
    var n := CeilDiv(size, partSize);
    match FirstFault(start + 1, start + n, faults)
    case Some(_) => start + n + 1 in faults
    case None => (n == 0 || start + n + 1 in faults) && start + n + 2 in faults
  }

  /** With no part failing, every part 1..n is held under its number. */
  lemma AllPartsStored(body: seq<byte>, partSize: nat, start: nat, k: nat, faults: set<nat>)
    requires partSize > 0
    requires k <= CeilDiv(|body|, partSize)
    requires FirstFault(start + 1, start + CeilDiv(|body|, partSize), faults).None?
    ensures forall i :: 0 <= i < k ==> CompletedList(start, k)[i].partNumber in StoredParts(body, partSize, start, CeilDiv(|body|, partSize), faults)
  {
    var n := CeilDiv(|body|, partSize);
    forall i | 0 <= i < k
      ensures CompletedList(start, k)[i].partNumber in StoredParts(body, partSize, start, n, faults)
    {
      assert start + (i + 1) !in faults;
    }
  }

  lemma {:induction false} AssembleChunks(body: seq<byte>, partSize: nat, start: nat, k: nat, faults: set<nat>)
    requires partSize > 0
    requires k <= CeilDiv(|body|, partSize)
    requires FirstFault(start + 1, start + CeilDiv(|body|, partSize), faults).None?
    ensures forall i :: 0 <= i < k ==> CompletedList(start, k)[i].partNumber in StoredParts(body, partSize, start, CeilDiv(|body|, partSize), faults)
    ensures Assemble(StoredParts(body, partSize, start, CeilDiv(|body|, partSize), faults), CompletedList(start, k))
         == body[..Min(PartOffset(partSize, k), |body|)]
  {
    AllPartsStored(body, partSize, start, k, faults);
    if k > 0 {
      AssembleChunks(body, partSize, start, k - 1, faults);
      assert CompletedList(start, k)[..k - 1] == CompletedList(start, k - 1);
      AssembleStep(body, partSize, start, k, faults);
    }
  }

  /** One step of the assembly: the list of parts 1..k reads as that of 1..k-1 followed by part k. */
  lemma AssembleStep(body: seq<byte>, partSize: nat, start: nat, k: nat, faults: set<nat>)
    requires partSize > 0
    requires 1 <= k <= CeilDiv(|body|, partSize)
    requires FirstFault(start + 1, start + CeilDiv(|body|, partSize), faults).None?
    requires forall i :: 0 <= i < k ==> CompletedList(start, k)[i].partNumber in StoredParts(body, partSize, start, CeilDiv(|body|, partSize), faults)
    requires Assemble(StoredParts(body, partSize, start, CeilDiv(|body|, partSize), faults), CompletedList(start, k)[..k - 1])
          == body[..Min(PartOffset(partSize, k - 1), |body|)]
    ensures Assemble(StoredParts(body, partSize, start, CeilDiv(|body|, partSize), faults), CompletedList(start, k))
         == body[..Min(PartOffset(partSize, k), |body|)]
  {
    var parts := StoredParts(body, partSize, start, CeilDiv(|body|, partSize), faults);
    assert start + k !in faults;
    assert parts[k].data == Chunk(body, partSize, k);
    ChunksConcatenate(body, partSize, k);
  }

  /**
   * Sends `UploadPart` for parts 1..n of `body`, one after another; every
   * part is sent whatever became of the earlier ones. Returns each part's
   * ETag, or None where the part failed.
   */
  method SendParts(bucket: Bucket, key: string, uploadId: nat, body: seq<byte>, partSize: nat)
    returns (etags: seq<Option<nat>>)
    requires partSize > 0 && |bucket.log| > 0
    requires uploadId in bucket.pending && bucket.pending[uploadId] == PendingUpload(key, map[])
    modifies bucket
    ensures |etags| == CeilDiv(|body|, partSize)
    ensures forall i :: 0 <= i < |etags| ==>
              etags[i] == if |old(bucket.log)| + i in bucket.faults then None else Some(|old(bucket.log)| + i)
    ensures bucket.log == old(bucket.log) + PartCalls(key, uploadId, body, partSize, |etags|)
    ensures bucket.pending == old(bucket.pending)[uploadId :=
              PendingUpload(key, StoredParts(body, partSize, |old(bucket.log)| - 1, |etags|, bucket.faults))]
    ensures bucket.pending.Keys == old(bucket.pending.Keys)
    ensures bucket.objects == old(bucket.objects) && bucket.nextUploadId == old(bucket.nextUploadId)
  {
    var start := |bucket.log| - 1;
    var totalParts := CeilDiv(|body|, partSize);
    etags := [];
    var partNumber := 1;
    assert StoredParts(body, partSize, start, 0, bucket.faults) == map[];
    while partNumber <= totalParts
      invariant 1 <= partNumber <= totalParts + 1
      invariant |etags| == partNumber - 1
      invariant forall i :: 0 <= i < |etags| ==>
                  etags[i] == if start + 1 + i in bucket.faults then None else Some(start + 1 + i)
      invariant bucket.log == old(bucket.log) + PartCalls(key, uploadId, body, partSize, partNumber - 1)
      invariant bucket.pending == old(bucket.pending)[uploadId :=
                  PendingUpload(key, StoredParts(body, partSize, start, partNumber - 1, bucket.faults))]
      invariant bucket.objects == old(bucket.objects) && bucket.nextUploadId == old(bucket.nextUploadId)
    {
      var etag := bucket.UploadPart(key, uploadId, partNumber, Chunk(body, partSize, partNumber));
      StoredPartsStep(body, partSize, start, partNumber, bucket.faults);
      etags := etags + [etag];
      partNumber := partNumber + 1;
    }
    assert bucket.pending.Keys == old(bucket.pending.Keys);
  }

  /**
   * `Promise.all` over the part results: the completed-part list, in part
   * order, when every part succeeded; otherwise the index of the first
   * failed part.
   */
  method AwaitAll(etags: seq<Option<nat>>) returns (r: Result<seq<CompletedPart>, nat>)
    ensures r.Ok? <==> forall i :: 0 <= i < |etags| ==> etags[i].Some?
    ensures r.Ok? ==> |r.value| == |etags|
    ensures r.Ok? ==> forall i :: 0 <= i < |etags| ==> r.value[i] == CompletedPart(i + 1, etags[i].value)
    ensures r.Err? ==> r.error < |etags| && etags[r.error].None?
    ensures r.Err? ==> forall i :: 0 <= i < r.error ==> etags[i].Some?
  {
    var parts: seq<CompletedPart> := [];
    var i := 0;
    while i < |etags| && etags[i].Some?
      invariant 0 <= i <= |etags|
      invariant |parts| == i
      invariant forall j :: 0 <= j < i ==> etags[j].Some? && parts[j] == CompletedPart(j + 1, etags[j].value)
    {
      parts := parts + [CompletedPart(i + 1, etags[i].value)];
      i := i + 1;
    }
    if i < |etags| {
      return Err(i);
    }
    return Ok(parts);
  }

  lemma MultipartPartFailed(key: string, body: seq<byte>, start: nat, uploadId: nat, faults: set<nat>,
                            partSize: nat, n: nat, i: nat)
    requires partSize > 0 && n == CeilDiv(|body|, partSize)
    requires FirstFault(start + 1, start + n, faults) == Some(i)
    ensures AfterCreateLog(key, body, partSize, start, uploadId, faults)
         == PartCalls(key, uploadId, body, partSize, n) + [Call.AbortMultipartUpload(key, uploadId)]
    ensures AfterCreateOutcome(|body|, partSize, start, faults) == Failed(i)
    ensures AbortFails(|body|, partSize, start, faults) <==> start + n + 1 in faults
  {
  }

  lemma MultipartCompleteFailed(key: string, body: seq<byte>, start: nat, uploadId: nat, faults: set<nat>,
                                partSize: nat, n: nat)
    requires partSize > 0 && n == CeilDiv(|body|, partSize)
    requires FirstFault(start + 1, start + n, faults).None?
    requires n == 0 || start + n + 1 in faults
    ensures AfterCreateLog(key, body, partSize, start, uploadId, faults)
         == PartCalls(key, uploadId, body, partSize, n)
            + [Call.CompleteMultipartUpload(key, uploadId, CompletedList(start, n)), Call.AbortMultipartUpload(key, uploadId)]
    ensures AfterCreateOutcome(|body|, partSize, start, faults) == Failed(start + n + 1)
    ensures AbortFails(|body|, partSize, start, faults) <==> start + n + 2 in faults
  {
  }

  lemma MultipartCompleted(key: string, body: seq<byte>, start: nat, uploadId: nat, faults: set<nat>,
                           partSize: nat, n: nat)
    requires partSize > 0 && n == CeilDiv(|body|, partSize)
    requires FirstFault(start + 1, start + n, faults).None?
    requires n > 0 && start + n + 1 !in faults
    ensures AfterCreateLog(key, body, partSize, start, uploadId, faults)
         == PartCalls(key, uploadId, body, partSize, n) + [Call.CompleteMultipartUpload(key, uploadId, CompletedList(start, n))]
    ensures AfterCreateOutcome(|body|, partSize, start, faults) == Stored
    ensures !AbortFails(|body|, partSize, start, faults)
  {
  }

  /**
   * Everything after a successful create whose request sat at log position
   * `start`: the parts, then the completion or the abort.
   */
  method FinishMultipart(bucket: Bucket, key: string, uploadId: nat, body: seq<byte>, partSize: nat, start: nat)
    returns (r: UploadResult)
    requires partSize >= MIN_PART_SIZE && |bucket.log| == start + 1
    requires uploadId in bucket.pending && bucket.pending[uploadId] == PendingUpload(key, map[])
    modifies bucket
    ensures r == AfterCreateOutcome(|body|, partSize, start, bucket.faults)
    ensures bucket.log == old(bucket.log) + AfterCreateLog(key, body, partSize, start, uploadId, bucket.faults)
    ensures bucket.objects == if r.Stored? then old(bucket.objects)[key := body] else old(bucket.objects)
    ensures bucket.pending.Keys == old(bucket.pending.Keys)
              - if AbortFails(|body|, partSize, start, bucket.faults) then {} else {uploadId}
    ensures bucket.nextUploadId == old(bucket.nextUploadId)
  {
    ghost var log0 := bucket.log;
    ghost var keys0 := bucket.pending.Keys;
    var etags := SendParts(bucket, key, uploadId, body, partSize);
    var all := AwaitAll(etags);
    if all.Err? {
      r := AbortAfterPartFailure(bucket, key, uploadId, body, partSize, start, etags, all.error, log0, keys0);
    } else {
      CompletionReady(key, body, partSize, start, bucket.faults, etags, all.value, bucket.pending[uploadId]);
      r := CompleteAllParts(bucket, key, uploadId, body, partSize, start, all.value, log0, keys0);
    }
  }

  /** Every part succeeded: the completion is sent, and the abort if the completion fails. */
  method CompleteAllParts(bucket: Bucket, key: string, uploadId: nat, body: seq<byte>, partSize: nat, start: nat,
                          parts: seq<CompletedPart>, ghost log0: seq<Call>, ghost keys0: set<nat>)
    returns (r: UploadResult)
    requires partSize > 0
    requires |parts| == CeilDiv(|body|, partSize) && parts == CompletedList(start, |parts|)
    requires FirstFault(start + 1, start + CeilDiv(|body|, partSize), bucket.faults).None?
    requires |log0| == start + 1 && bucket.log == log0 + PartCalls(key, uploadId, body, partSize, |parts|)
    requires uploadId in bucket.pending && bucket.pending[uploadId].key == key && bucket.pending.Keys == keys0
    requires SortByPartNumber(parts) == parts
    requires Completable(bucket.pending[uploadId], key, parts) <==> |parts| > 0
    requires |parts| > 0 ==> Assemble(bucket.pending[uploadId].parts, parts) == body
    modifies bucket
    ensures r == AfterCreateOutcome(|body|, partSize, start, bucket.faults)
    ensures bucket.log == log0 + AfterCreateLog(key, body, partSize, start, uploadId, bucket.faults)
    ensures bucket.objects == if r.Stored? then old(bucket.objects)[key := body] else old(bucket.objects)
    ensures bucket.pending.Keys == keys0 - if AbortFails(|body|, partSize, start, bucket.faults) then {} else {uploadId}
    ensures bucket.nextUploadId == old(bucket.nextUploadId)
  {
    ghost var n := |parts|;
    ghost var partCalls := PartCalls(key, uploadId, body, partSize, n);
    ghost var outcome := AfterCreateOutcome(|body|, partSize, start, bucket.faults);
    ghost var after := AfterCreateLog(key, body, partSize, start, uploadId, bucket.faults);
    ghost var abortFails := AbortFails(|body|, partSize, start, bucket.faults);
    AfterAllParts(key, body, partSize, start, uploadId, bucket.faults, n);
    r := CompleteAfterParts(bucket, key, uploadId, body, start, parts, log0, keys0,
                            partCalls, outcome, after, abortFails);
  }

  /**
   * Every part succeeded: the completion is sent, and the abort if the
   * completion fails. The ghost parameters name what the caller expects:
   * the outcome, the requests after the create, and whether the abort fails.
   */
  method CompleteAfterParts(bucket: Bucket, key: string, uploadId: nat, body: seq<byte>, start: nat,
                            parts: seq<CompletedPart>, ghost log0: seq<Call>, ghost keys0: set<nat>,
                            ghost partCalls: seq<Call>, ghost outcome: UploadResult, ghost after: seq<Call>,
                            ghost abortFails: bool)
    returns (r: UploadResult)
    requires |log0| == start + 1 && |partCalls| == |parts| && bucket.log == log0 + partCalls
    requires uploadId in bucket.pending && bucket.pending[uploadId].key == key && bucket.pending.Keys == keys0
    requires SortByPartNumber(parts) == parts
    requires Completable(bucket.pending[uploadId], key, parts) <==> |parts| > 0
    requires |parts| > 0 ==> Assemble(bucket.pending[uploadId].parts, parts) == body
    requires parts == CompletedList(start, |parts|)
    requires outcome == if |parts| == 0 || start + |parts| + 1 in bucket.faults then Failed(start + |parts| + 1) else Stored
    requires after == partCalls + [Call.CompleteMultipartUpload(key, uploadId, CompletedList(start, |parts|))]
                      + (if |parts| == 0 || start + |parts| + 1 in bucket.faults then [Call.AbortMultipartUpload(key, uploadId)] else [])
    requires abortFails <==> (|parts| == 0 || start + |parts| + 1 in bucket.faults) && start + |parts| + 2 in bucket.faults
    modifies bucket
    ensures r == outcome
    ensures bucket.log == log0 + after
    ensures bucket.objects == if r.Stored? then old(bucket.objects)[key := body] else old(bucket.objects)
    ensures bucket.pending.Keys == keys0 - if abortFails then {} else {uploadId}
    ensures bucket.nextUploadId == old(bucket.nextUploadId)
  {
    r := CompleteOrAbort(bucket, key, uploadId, body, start, parts);
  }

  /** What the part requests leave behind: one ETag or failure per part, in order, after the create at `start`. */
  predicate PartsSent(etags: seq<Option<nat>>, body: seq<byte>, partSize: nat, start: nat, faults: set<nat>)
    requires partSize > 0
  {
    && |etags| == CeilDiv(|body|, partSize)
    && forall i :: 0 <= i < |etags| ==> etags[i] == if start + 1 + i in faults then None else Some(start + 1 + i)
  }

  /** Part `i` failed, the first to: the abort is sent and the part's error reported. */
  method AbortAfterPartFailure(bucket: Bucket, key: string, uploadId: nat, body: seq<byte>, partSize: nat, start: nat,
                               etags: seq<Option<nat>>, i: nat, ghost log0: seq<Call>, ghost keys0: set<nat>)
    returns (r: UploadResult)
    requires partSize > 0
    requires PartsSent(etags, body, partSize, start, bucket.faults)
    requires i < |etags| && etags[i].None? && forall j :: 0 <= j < i ==> etags[j].Some?
    requires |log0| == start + 1 && bucket.log == log0 + PartCalls(key, uploadId, body, partSize, |etags|)
    requires uploadId in bucket.pending && bucket.pending[uploadId].key == key && bucket.pending.Keys == keys0
    modifies bucket
    ensures r == AfterCreateOutcome(|body|, partSize, start, bucket.faults)
    ensures bucket.log == log0 + AfterCreateLog(key, body, partSize, start, uploadId, bucket.faults)
    ensures bucket.objects == old(bucket.objects)
    ensures bucket.pending.Keys == keys0 - if AbortFails(|body|, partSize, start, bucket.faults) then {} else {uploadId}
    ensures bucket.nextUploadId == old(bucket.nextUploadId)
  {
    var faults := bucket.faults;
    var totalParts := |etags|;
    forall j | start + 1 <= j < start + 1 + i
      ensures j !in faults
    {
      assert etags[j - start - 1].Some?;
    }
    FirstFaultIs(start + 1, start + totalParts, faults, start + 1 + i);
    MultipartPartFailed(key, body, start, uploadId, faults, partSize, totalParts, start + 1 + i);
    var aborted := bucket.AbortMultipartUpload(key, uploadId);
    return Failed(start + 1 + i);
  }

  /**
   * Every part succeeded: the completion list is the parts in order, the
   * bucket accepts it exactly when it is not empty, and it then assembles
   * the body.
   */
  lemma CompletionReady(key: string, body: seq<byte>, partSize: nat, start: nat, faults: set<nat>,
                        etags: seq<Option<nat>>, parts: seq<CompletedPart>, u: PendingUpload)
    requires partSize >= MIN_PART_SIZE
    requires PartsSent(etags, body, partSize, start, faults)
    requires |parts| == |etags| && forall j :: 0 <= j < |etags| ==> etags[j].Some? && parts[j] == CompletedPart(j + 1, etags[j].value)
    requires u == PendingUpload(key, StoredParts(body, partSize, start, |etags|, faults))
    ensures |parts| == CeilDiv(|body|, partSize) && parts == CompletedList(start, |parts|)
    ensures u.key == key
    ensures FirstFault(start + 1, start + CeilDiv(|body|, partSize), faults).None?
    ensures SortByPartNumber(parts) == parts
    ensures Completable(u, key, parts) <==> |parts| > 0
    ensures |parts| > 0 ==> Assemble(u.parts, parts) == body
  {
    var n := |etags|;
    assert parts == CompletedList(start, n);
    forall j | start + 1 <= j <= start + n
      ensures j !in faults
    {
      assert etags[j - start - 1].Some?;
    }
    ReadyToComplete(key, body, partSize, start, faults, parts, u);
  }

  /** After parts that all succeeded comes the completion, and the abort after it if the completion fails. */
  lemma AfterAllParts(key: string, body: seq<byte>, partSize: nat, start: nat, uploadId: nat, faults: set<nat>, n: nat)
    requires partSize > 0
    requires n == CeilDiv(|body|, partSize)
    requires FirstFault(start + 1, start + n, faults).None?
    ensures AfterCreateOutcome(|body|, partSize, start, faults) == if n == 0 || start + n + 1 in faults then Failed(start + n + 1) else Stored
    ensures AfterCreateLog(key, body, partSize, start, uploadId, faults)
         == PartCalls(key, uploadId, body, partSize, n)
            + [Call.CompleteMultipartUpload(key, uploadId, CompletedList(start, n))]
            + (if n == 0 || start + n + 1 in faults then [Call.AbortMultipartUpload(key, uploadId)] else [])
    ensures AbortFails(|body|, partSize, start, faults) <==> (n == 0 || start + n + 1 in faults) && start + n + 2 in faults
  {
    if n == 0 || start + n + 1 in faults {
      MultipartCompleteFailed(key, body, start, uploadId, faults, partSize, n);
    } else {
      MultipartCompleted(key, body, start, uploadId, faults, partSize, n);
    }
  }

  /**
   * Once every part succeeded, the bucket holds exactly the parts of the
   * completion list, each but the last at least S3's minimum part size, and
   * together they make up the body.
   */
  lemma CompletionAccepted(key: string, body: seq<byte>, partSize: nat, start: nat, faults: set<nat>)
    requires partSize >= MIN_PART_SIZE
    requires FirstFault(start + 1, start + CeilDiv(|body|, partSize), faults).None?
    ensures var n := CeilDiv(|body|, partSize);
            var stored := StoredParts(body, partSize, start, n, faults);
            && (n > 0 ==> Completable(PendingUpload(key, stored), key, CompletedList(start, n)))
            && (forall i :: 0 <= i < n ==> CompletedList(start, n)[i].partNumber in stored)
            && Assemble(stored, CompletedList(start, n)) == body
  {
    var n := CeilDiv(|body|, partSize);
    var stored := StoredParts(body, partSize, start, n, faults);
    var list := CompletedList(start, n);
    AssembleChunks(body, partSize, start, n, faults);
    PartOffsets(|body|, partSize, n);
    assert body[..Min(PartOffset(partSize, n), |body|)] == body;
    if n > 0 {
      forall j | 0 <= j < |list| - 1
        ensures |stored[list[j].partNumber].data| >= S3_MIN_PART_SIZE
      {
        assert list[j].partNumber == j + 1;
      }
    }
  }

  /** The completion list the service sends is accepted exactly when it is not empty, and assembles the body. */
  lemma ReadyToComplete(key: string, body: seq<byte>, partSize: nat, start: nat, faults: set<nat>,
                        parts: seq<CompletedPart>, u: PendingUpload)
    requires partSize >= MIN_PART_SIZE
    requires FirstFault(start + 1, start + CeilDiv(|body|, partSize), faults).None?
    requires parts == CompletedList(start, CeilDiv(|body|, partSize))
    requires u == PendingUpload(key, StoredParts(body, partSize, start, |parts|, faults))
    ensures SortByPartNumber(parts) == parts
    ensures Completable(u, key, parts) <==> |parts| > 0
    ensures |parts| > 0 ==> Assemble(u.parts, parts) == body
  {
    SortKeepsAscending(parts);
    CompletionAccepted(key, body, partSize, start, faults);
  }

  /**
   * Sorts the completed parts and sends the completion; if it fails, sends
   * the abort and reports the completion's error.
   */
  method CompleteOrAbort(bucket: Bucket, key: string, uploadId: nat, body: seq<byte>, start: nat, parts: seq<CompletedPart>)
    returns (r: UploadResult)
    requires |bucket.log| == start + 1 + |parts|
    requires uploadId in bucket.pending && bucket.pending[uploadId].key == key
    requires SortByPartNumber(parts) == parts
    requires Completable(bucket.pending[uploadId], key, parts) <==> |parts| > 0
    requires |parts| > 0 ==> Assemble(bucket.pending[uploadId].parts, parts) == body
    modifies bucket
    ensures var failed := |parts| == 0 || start + |parts| + 1 in bucket.faults;
            && r == (if failed then Failed(start + |parts| + 1) else Stored)
            && bucket.log == old(bucket.log) + [Call.CompleteMultipartUpload(key, uploadId, parts)]
                             + (if failed then [Call.AbortMultipartUpload(key, uploadId)] else [])
            && bucket.objects == (if failed then old(bucket.objects) else old(bucket.objects)[key := body])
            && bucket.pending.Keys == old(bucket.pending.Keys)
                 - (if failed && start + |parts| + 2 in bucket.faults then {} else {uploadId})
    ensures bucket.nextUploadId == old(bucket.nextUploadId)
  {
    var faults := bucket.faults;
    var sorted := SortByPartNumber(parts);
    assert bucket.NextFails() <==> start + 1 + |parts| in faults;
    var completed := bucket.CompleteMultipartUpload(key, uploadId, sorted);
    if !completed {
      assert |bucket.log| == start + |parts| + 2;
      var aborted := bucket.AbortMultipartUpload(key, uploadId);
      return Failed(start + 1 + |parts|);
    }
    return Stored;
  }

  /** The multipart upload in the order the service issues its requests (parts issued one after another). */
  method UploadMultipart(bucket: Bucket, key: string, body: seq<byte>, contentType: string) returns (r: UploadResult)
    requires bucket.Valid()
    modifies bucket
    ensures bucket.Valid()
    ensures r == MultipartOutcome(|body|, |old(bucket.log)|, bucket.faults)
    ensures bucket.log == old(bucket.log)
              + MultipartLog(key, contentType, body, |old(bucket.log)|, old(bucket.nextUploadId), bucket.faults)
    ensures bucket.objects == if r.Stored? then old(bucket.objects)[key := body] else old(bucket.objects)
    ensures bucket.pending.Keys == old(bucket.pending.Keys)
              + if LeavesUploadOpen(|body|, |old(bucket.log)|, bucket.faults) then {old(bucket.nextUploadId)} else {}
  {
    var start := |bucket.log|;
    var created := bucket.CreateMultipartUpload(key, contentType, CACHE_CONTROL);
    if created.None? {
      return Failed(start);
    }
    var partSize := CalculatePartSize(|body|);
    AfterCreate(key, contentType, body, partSize, start, created.value, bucket.faults);
    r := FinishMultipart(bucket, key, created.value, body, partSize, start);
  }

  /** Once the create succeeded, the upload's requests and outcome are those of what follows it. */
  lemma AfterCreate(key: string, contentType: string, body: seq<byte>, partSize: nat, start: nat, uploadId: nat,
                    faults: set<nat>)
    requires start !in faults && partSize == CalculatePartSize(|body|)
    ensures MultipartOutcome(|body|, start, faults) == AfterCreateOutcome(|body|, partSize, start, faults)
    ensures MultipartLog(key, contentType, body, start, uploadId, faults)
         == [Call.CreateMultipartUpload(key, contentType, CACHE_CONTROL)] + AfterCreateLog(key, body, partSize, start, uploadId, faults)
    ensures LeavesUploadOpen(|body|, start, faults) == AbortFails(|body|, partSize, start, faults)
  {
  }

  // ---------------------------------------------------------------------
  // What the multipart trace guarantees

  function CountAborts(calls: seq<Call>): nat
  {
    if |calls| == 0 then 0
    else CountAborts(calls[..|calls| - 1]) + if calls[|calls| - 1].AbortMultipartUpload? then 1 else 0
  }

  lemma {:induction false} CountAbortsAppend(a: seq<Call>, b: seq<Call>)
    ensures CountAborts(a + b) == CountAborts(a) + CountAborts(b)
    decreases |b|
  {
    if |b| > 0 {
      assert (a + b)[..|a + b| - 1] == a + b[..|b| - 1];
      CountAbortsAppend(a, b[..|b| - 1]);
    } else {
      assert a + b == a;
    }
  }

  lemma {:induction false} PartCallsHaveNoAbort(key: string, uploadId: nat, body: seq<byte>, partSize: nat, k: nat)
    requires partSize > 0 && k <= CeilDiv(|body|, partSize)
    ensures CountAborts(PartCalls(key, uploadId, body, partSize, k)) == 0
  {
    if k > 0 {
      PartCallsHaveNoAbort(key, uploadId, body, partSize, k - 1);
      CountAbortsAppend(PartCalls(key, uploadId, body, partSize, k - 1),
                        [Call.UploadPart(key, uploadId, k, Chunk(body, partSize, k))]);
      assert CountAborts([Call.UploadPart(key, uploadId, k, Chunk(body, partSize, k))]) == 0;
    }
  }

  /**
   * An upload that was created and then failed is aborted exactly once; one
   * that was never created, or that succeeded, is never aborted.
   */
  lemma AbortedExactlyOnceAfterFailure(key: string, contentType: string, body: seq<byte>, start: nat, uploadId: nat,
                                       faults: set<nat>)
    ensures CountAborts(MultipartLog(key, contentType, body, start, uploadId, faults))
         == if start !in faults && MultipartOutcome(|body|, start, faults).Failed? then 1 else 0
  {
    var create := [Call.CreateMultipartUpload(key, contentType, CACHE_CONTROL)];
    assert CountAborts(create) == 0;
    if start in faults {
      assert MultipartLog(key, contentType, body, start, uploadId, faults) == create + [];
      CountAbortsAppend(create, []);
    } else {
      var partSize := CalculatePartSize(|body|);
      AbortsAfterCreate(key, body, partSize, start, uploadId, faults);
      CountAbortsAppend(create, AfterCreateLog(key, body, partSize, start, uploadId, faults));
    }
  }

  /** After the create, the abort is sent once if the upload fails and never if it succeeds. */
  lemma AbortsAfterCreate(key: string, body: seq<byte>, partSize: nat, start: nat, uploadId: nat, faults: set<nat>)
    requires partSize > 0
    ensures CountAborts(AfterCreateLog(key, body, partSize, start, uploadId, faults))
         == if AfterCreateOutcome(|body|, partSize, start, faults).Failed? then 1 else 0
  {
    var n := CeilDiv(|body|, partSize);
    match FirstFault(start + 1, start + n, faults)
    case Some(i) => AbortsAfterPartFailure(key, body, partSize, start, uploadId, faults, i);
    case None => AbortsAfterAllParts(key, body, partSize, start, uploadId, faults);
  }

  lemma AbortsAfterPartFailure(key: string, body: seq<byte>, partSize: nat, start: nat, uploadId: nat, faults: set<nat>,
                               i: nat)
    requires partSize > 0
    requires FirstFault(start + 1, start + CeilDiv(|body|, partSize), faults) == Some(i)
    ensures CountAborts(AfterCreateLog(key, body, partSize, start, uploadId, faults)) == 1
    ensures AfterCreateOutcome(|body|, partSize, start, faults).Failed?
  {
    var n := CeilDiv(|body|, partSize);
    PartCallsHaveNoAbort(key, uploadId, body, partSize, n);
    MultipartPartFailed(key, body, start, uploadId, faults, partSize, n, i);
    AbortsAfterParts(PartCalls(key, uploadId, body, partSize, n), [Call.AbortMultipartUpload(key, uploadId)], 1);
  }

  lemma AbortsAfterAllParts(key: string, body: seq<byte>, partSize: nat, start: nat, uploadId: nat, faults: set<nat>)
    requires partSize > 0
    requires FirstFault(start + 1, start + CeilDiv(|body|, partSize), faults).None?
    ensures CountAborts(AfterCreateLog(key, body, partSize, start, uploadId, faults))
         == if AfterCreateOutcome(|body|, partSize, start, faults).Failed? then 1 else 0
  {
    var n := CeilDiv(|body|, partSize);
    var parts := PartCalls(key, uploadId, body, partSize, n);
    var complete := Call.CompleteMultipartUpload(key, uploadId, CompletedList(start, n));
    PartCallsHaveNoAbort(key, uploadId, body, partSize, n);
    if n == 0 || start + n + 1 in faults {
      MultipartCompleteFailed(key, body, start, uploadId, faults, partSize, n);
      AbortsAfterParts(parts, [complete, Call.AbortMultipartUpload(key, uploadId)], 1);
    } else {
      MultipartCompleted(key, body, start, uploadId, faults, partSize, n);
      AbortsAfterParts(parts, [complete], 0);
    }
  }

  /** Requests with no abort among them followed by a tail of at most a completion and an abort. */
  lemma AbortsAfterParts(parts: seq<Call>, tail: seq<Call>, aborts: nat)
    requires CountAborts(parts) == 0
    requires 1 <= |tail| <= 2 && (|tail| == 2 ==> !tail[0].AbortMultipartUpload?)
    requires aborts == if tail[|tail| - 1].AbortMultipartUpload? then 1 else 0
    ensures CountAborts(parts + tail) == aborts
  {
    CountAbortsAppend(parts, tail);
    var init := tail[..|tail| - 1];
    if |init| == 1 {
      assert init[..0] == [];
      assert CountAborts(init) == 0;
    } else {
      assert init == [];
    }
  }

  /**
   * A completion is only ever sent when every part succeeded, and it lists
   * parts 1..n in order, each with the ETag its upload returned.
   */
  lemma CompletionOnlyAfterAllParts(key: string, contentType: string, body: seq<byte>, start: nat, uploadId: nat,
                                    faults: set<nat>, c: Call)
    requires c in MultipartLog(key, contentType, body, start, uploadId, faults) && c.CompleteMultipartUpload?
    ensures var n := CeilDiv(|body|, CalculatePartSize(|body|));
            && start !in faults
            && (forall i :: start + 1 <= i <= start + n ==> i !in faults)
            && c == Call.CompleteMultipartUpload(key, uploadId, CompletedList(start, n))
  {
    var partSize := CalculatePartSize(|body|);
    var n := CeilDiv(|body|, partSize);
    if start !in faults {
      assert c in AfterCreateLog(key, body, partSize, start, uploadId, faults);
    }
  }

  /**
   * A failed upload reports the error of a request that did fail (or, for
   * an empty body, of the completion S3 refuses for listing no parts), and
   * that request is never the abort: a failing clean-up cannot mask the cause.
   */
  lemma ReportedErrorIsTheCause(key: string, contentType: string, body: seq<byte>, start: nat, uploadId: nat,
                                faults: set<nat>)
    requires MultipartOutcome(|body|, start, faults).Failed?
    ensures var i := MultipartOutcome(|body|, start, faults).failedCall;
            var log := MultipartLog(key, contentType, body, start, uploadId, faults);
            && (i in faults || |body| == 0) && start <= i < start + |log|
            && !log[i - start].AbortMultipartUpload?
  {
    if start !in faults {
      var partSize := CalculatePartSize(|body|);
      var create := [Call.CreateMultipartUpload(key, contentType, CACHE_CONTROL)];
      var tail := AfterCreateLog(key, body, partSize, start, uploadId, faults);
      var i := AfterCreateOutcome(|body|, partSize, start, faults).failedCall;
      FailureCauseAfterCreate(key, body, partSize, start, uploadId, faults);
      assert (create + tail)[i - start] == tail[i - start - 1];
    }
  }

  /** The same, once the upload exists, for any part size. */
  lemma FailureCauseAfterCreate(key: string, body: seq<byte>, partSize: nat, start: nat, uploadId: nat,
                                faults: set<nat>)
    requires partSize > 0 && AfterCreateOutcome(|body|, partSize, start, faults).Failed?
    ensures var i := AfterCreateOutcome(|body|, partSize, start, faults).failedCall;
            var tail := AfterCreateLog(key, body, partSize, start, uploadId, faults);
            && (i in faults || |body| == 0) && start + 1 <= i < start + 1 + |tail|
            && !tail[i - start - 1].AbortMultipartUpload?
  {
    var n := CeilDiv(|body|, partSize);
    var parts := PartCalls(key, uploadId, body, partSize, n);
    var tail := AfterCreateLog(key, body, partSize, start, uploadId, faults);
    match FirstFault(start + 1, start + n, faults)
    case Some(i) =>
      assert tail == parts + [Call.AbortMultipartUpload(key, uploadId)];
      assert tail[i - start - 1] == parts[i - start - 1];
    case None =>
      var complete := Call.CompleteMultipartUpload(key, uploadId, CompletedList(start, n));
      assert tail == parts + [complete, Call.AbortMultipartUpload(key, uploadId)];
      assert tail[n] == complete;
  }

  // ---------------------------------------------------------------------
  // Entry points

  function ContentTypeOrDefault(contentType: Option<string>): string
  {
    if contentType.Some? then contentType.value else "application/octet-stream"
  }

  /**
   * Writes `body` under "<userDir>/<uniqueFileName>". A declared `fileSize`
   * of at least 10 MiB takes the multipart path; anything smaller is one
   * `PutObject` carrying `fileSize` as its content length. Failures come
   * back as a result, never as an exception.
   */
  method UploadToStorage(bucket: Bucket, userDir: string, uniqueFileName: string, body: seq<byte>,
                         contentType: Option<string>, fileSize: nat) returns (r: UploadResult)
    requires bucket.Valid()
    modifies bucket
    ensures bucket.Valid()
    ensures var key := ObjectKey(userDir, uniqueFileName);
            var ct := ContentTypeOrDefault(contentType);
            var start := |old(bucket.log)|;
            if fileSize >= MULTIPART_THRESHOLD then
              && r == MultipartOutcome(|body|, start, bucket.faults)
              && bucket.log == old(bucket.log) + MultipartLog(key, ct, body, start, old(bucket.nextUploadId), bucket.faults)
              && bucket.pending.Keys == old(bucket.pending.Keys)
                   + if LeavesUploadOpen(|body|, start, bucket.faults) then {old(bucket.nextUploadId)} else {}
            else
              && r == (if start in bucket.faults then Failed(start) else Stored)
              && bucket.log == old(bucket.log) + [Call.PutObject(key, body, ct, CACHE_CONTROL, fileSize)]
              && bucket.pending == old(bucket.pending)
    ensures bucket.objects
         == if r.Stored? then old(bucket.objects)[ObjectKey(userDir, uniqueFileName) := body] else old(bucket.objects)
  {
    var key := ObjectKey(userDir, uniqueFileName);
    var ct := ContentTypeOrDefault(contentType);
    if fileSize >= MULTIPART_THRESHOLD {
      r := UploadMultipart(bucket, key, body, ct);
      return;
    }
    var start := |bucket.log|;
    var ok := bucket.PutObject(key, body, ct, CACHE_CONTROL, fileSize);
    r := if ok then Stored else Failed(start);
  }

  /** Streams `body` to `key` through the SDK's managed upload (its own part handling is not modelled). */
  method UploadStream(bucket: Bucket, key: string, body: seq<byte>, contentType: string) returns (r: UploadResult)
    modifies bucket
    ensures var start := |old(bucket.log)|;
            && r == (if start in bucket.faults then Failed(start) else Stored)
            && bucket.log == old(bucket.log) + [Call.ManagedUpload(key, body, contentType, CACHE_CONTROL)]
    ensures bucket.objects == if r.Stored? then old(bucket.objects)[key := body] else old(bucket.objects)
    ensures bucket.pending == old(bucket.pending) && bucket.nextUploadId == old(bucket.nextUploadId)
  {
    var start := |bucket.log|;
    var ok := bucket.ManagedUpload(key, body, contentType, CACHE_CONTROL);
    r := if ok then Stored else Failed(start);
  }

  // ---------------------------------------------------------------------
  // Download

  /** A credential is sent as "Bearer <token>", whether or not the caller already wrote the scheme. */
  function BearerAuthorization(auth: string): (h: string)
  {
    if StartsWith(auth, "Bearer ") then auth else "Bearer " + auth
  }

  lemma BearerAuthorizationNormalises(auth: string)
    ensures StartsWith(BearerAuthorization(auth), "Bearer ")
    ensures BearerAuthorization(BearerAuthorization(auth)) == BearerAuthorization(auth)
    ensures StartsWith(auth, "Bearer ") ==> BearerAuthorization(auth) == auth
    ensures BearerAuthorization(auth) == auth || BearerAuthorization(auth) == "Bearer " + auth
  {
    var h := BearerAuthorization(auth);
    assert ("Bearer " + auth)[..7] == "Bearer ";
  }

  /** The request sent: an Authorization header only for a non-empty credential. */
  function DownloadRequest(url: string, authHeader: Option<string>): (req: Request)
    ensures req.url == url
    ensures "Authorization" in req.headers <==> authHeader.Some? && authHeader.value != ""
    ensures "Authorization" in req.headers ==> req.headers["Authorization"] == BearerAuthorization(authHeader.value)
    ensures req.headers.Keys <= {"Authorization"}
  {
    var headers: Headers := if authHeader.Some? && authHeader.value != ""
      then map["Authorization" := BearerAuthorization(authHeader.value)] else map[];
    Request(url, headers)
  }

  /** Fetches `url`; a non-2xx response becomes "Download failed: <status> <statusText>". */
  function DownloadFile(url: string, authHeader: Option<string>, fetch: Fetcher): (r: Result<seq<byte>, string>)
    ensures var reply := fetch(DownloadRequest(url, authHeader));
            && (r.Ok? <==> reply.Ok? && IsSuccess(reply.value))
            && (reply.Err? ==> r == Err(reply.error))
  {
    match fetch(DownloadRequest(url, authHeader))
    case Err(e) => Err(e)
    case Ok(response) =>
      if IsSuccess(response) then Ok(response.body)
      else Err("Download failed: " + IntToString(response.status) + " " + response.statusText)
  }

  lemma DownloadFileOutcome(url: string, authHeader: Option<string>, fetch: Fetcher)
    ensures var reply := fetch(DownloadRequest(url, authHeader));
            var r := DownloadFile(url, authHeader, fetch);
            && (r.Ok? <==> reply.Ok? && IsSuccess(reply.value))
            && (r.Ok? ==> r.value == reply.value.body)
            && (reply.Ok? && !IsSuccess(reply.value) ==>
                  StartsWith(r.error, "Download failed: ") && EndsWith(r.error, " " + reply.value.statusText))
  {
    var reply := fetch(DownloadRequest(url, authHeader));
    if reply.Ok? && !IsSuccess(reply.value) {
      var e := DownloadFile(url, authHeader, fetch).error;
      var status := IntToString(reply.value.status);
      assert e == "Download failed: " + (status + " " + reply.value.statusText);
      assert e == ("Download failed: " + status) + (" " + reply.value.statusText);
    }
  }
}
