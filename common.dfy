/**
 * Shared vocabulary of the model: optional values and results, bytes, and
 * the handful of string operations the JavaScript, Ruby and Rust sources
 * rely on (`split`, `trim`/`strip`, `startsWith`, `includes`, decimal and
 * hexadecimal rendering), each written out with the semantics of the
 * language it comes from.
 */
module Common {

  datatype Option<T> = None | Some(value: T)

  datatype Result<T, E> = Ok(value: T) | Err(error: E)

  newtype byte = b: int | 0 <= b < 256

  // ---------------------------------------------------------------------
  // Substrings

  predicate StartsWith(s: string, prefix: string)
  {
    |prefix| <= |s| && s[..|prefix|] == prefix
  }

  predicate EndsWith(s: string, suffix: string)
  {
    |suffix| <= |s| && s[|s| - |suffix|..] == suffix
  }

  /** A concatenation starts with its first part and ends with its second. */
  lemma ConcatEnds(a: string, b: string)
    ensures StartsWith(a + b, a) && EndsWith(a + b, b)
  {
    assert (a + b)[..|a|] == a;
    assert (a + b)[|a + b| - |b|..] == b;
  }

  predicate OccursAt(s: string, sub: string, j: int)
  {
    0 <= j && j + |sub| <= |s| && s[j..j + |sub|] == sub
  }

  /** First index at or after `from` where `sub` occurs in `s`. */
  function IndexFrom(s: string, sub: string, from: nat): (r: Option<nat>)
    ensures r.Some? ==> from <= r.value && OccursAt(s, sub, r.value)
    ensures r.Some? ==> forall j :: from <= j < r.value ==> !OccursAt(s, sub, j)
    ensures r.None? ==> forall j :: from <= j ==> !OccursAt(s, sub, j)
    decreases |s| - from
  {
    if from + |sub| > |s| then None
    else if s[from..from + |sub|] == sub then Some(from)
    else IndexFrom(s, sub, from + 1)
  }

  /** JavaScript `s.indexOf(sub)`, Rust `s.find(sub)`. */
  function IndexOf(s: string, sub: string): Option<nat>
  {
    IndexFrom(s, sub, 0)
  }

  /** JavaScript `s.includes(sub)`, Rust `s.contains(sub)`. */
  predicate Contains(s: string, sub: string)
  {
    IndexOf(s, sub).Some?
  }

  lemma ContainsIff(s: string, sub: string)
    ensures Contains(s, sub) <==> exists j :: OccursAt(s, sub, j)
  {
    var r := IndexOf(s, sub);
    if r.Some? {
      assert OccursAt(s, sub, r.value);
    }
  }

  function Join(parts: seq<string>, sep: string): (r: string)
  {
    if |parts| == 0 then ""
    else if |parts| == 1 then parts[0]
    else parts[0] + sep + Join(parts[1..], sep)
  }

  /**
   * JavaScript `s.split(sep)` for a non-empty separator string (also Rust
   * `s.split(sep)`): the pieces between non-overlapping occurrences, found
   * left to right; empty pieces are kept.
   */
  function Split(s: string, sep: string): (parts: seq<string>)
    requires |sep| > 0
    ensures |parts| >= 1
    ensures Join(parts, sep) == s
    ensures !Contains(parts[0], sep)
    decreases |s|
  {
    match IndexOf(s, sep)
    case None => [s]
    case Some(i) =>
      var rest := Split(s[i + |sep|..], sep);
      assert s == s[..i] + sep + s[i + |sep|..];
      assert !Contains(s[..i], sep) by {
        if Contains(s[..i], sep) {
          ContainsIff(s[..i], sep);
          var j :| OccursAt(s[..i], sep, j);
          assert s[j..j + |sep|] == s[..i][j..j + |sep|];
          assert OccursAt(s, sep, j);
        }
      }
      [s[..i]] + rest
  }

  /** A string free of the (one-character) separator splits into itself alone. */
  lemma SplitWithoutSeparator(s: string, c: char)
    requires c !in s
    ensures Split(s, [c]) == [s]
  {
  }

  /** The first piece ends at the first separator. */
  lemma SplitAtFirstSeparator(a: string, c: char, b: string)
    requires c !in a
    ensures Split(a + [c] + b, [c]) == [a] + Split(b, [c])
  {
    var s := a + [c] + b;
    assert OccursAt(s, [c], |a|);
    forall j | 0 <= j < |a|
      ensures !OccursAt(s, [c], j)
    {
      assert s[j] == a[j];
    }
    assert s[..|a|] == a && s[|a| + 1..] == b;
  }

  /** Where a character does not occur, `IndexOf` finds nothing. */
  lemma CharNotFound(a: string, c: char)
    requires IndexOf(a, [c]).None?
    ensures c !in a
  {
    forall j | 0 <= j < |a|
      ensures a[j] != c
    {
      assert a[j..j + 1] == [a[j]];
      assert !OccursAt(a, [c], j);
    }
  }

  /** The first occurrence of a character cuts a string into a separator-free head and the rest. */
  lemma CharFound(a: string, c: char)
    requires IndexOf(a, [c]).Some?
    ensures var i := IndexOf(a, [c]).value;
            i < |a| && c !in a[..i] && a == a[..i] + [c] + a[i + 1..]
  {
    var i := IndexOf(a, [c]).value;
    assert a[i..i + 1] == [c];
    forall j | 0 <= j < i
      ensures a[..i][j] != c
    {
      assert a[j..j + 1] == [a[j]];
      assert !OccursAt(a, [c], j);
    }
  }

  /** Splitting on a character distributes over a concatenation joined by that character. */
  lemma {:induction false} SplitAround(a: string, c: char, b: string)
    ensures Split(a + [c] + b, [c]) == Split(a, [c]) + Split(b, [c])
    decreases |a|
  {
    if IndexOf(a, [c]).None? {
      CharNotFound(a, c);
      SplitAtFirstSeparator(a, c, b);
      SplitWithoutSeparator(a, c);
    } else {
      CharFound(a, c);
      var i := IndexOf(a, [c]).value;
      var head, tail := a[..i], a[i + 1..];
      var sep: string := [c];
      var whole := a + sep + b;
      var rest := tail + sep + b;
      assert whole == head + sep + rest;
      calc {
        Split(whole, sep);
        { SplitAtFirstSeparator(head, c, rest); }
        [head] + Split(rest, sep);
        { SplitAround(tail, c, b); }
        [head] + (Split(tail, sep) + Split(b, sep));
        ([head] + Split(tail, sep)) + Split(b, sep);
        { SplitAtFirstSeparator(head, c, tail); }
        Split(a, sep) + Split(b, sep);
      }
    }
  }

  /** Joining pieces free of a character and splitting on it gives the pieces back. */
  lemma {:induction false} SplitJoin(parts: seq<string>, c: char)
    requires |parts| > 0
    requires forall i :: 0 <= i < |parts| ==> c !in parts[i]
    ensures Split(Join(parts, [c]), [c]) == parts
  {
    SplitWithoutSeparator(parts[0], c);
    if |parts| > 1 {
      SplitAround(parts[0], c, Join(parts[1..], [c]));
      SplitJoin(parts[1..], c);
      assert parts == [parts[0]] + parts[1..];
    }
  }

  /** A character in neither the pieces nor the separator is not in their join. */
  lemma {:induction false} JoinFree(parts: seq<string>, sep: string, c: char)
    requires forall i :: 0 <= i < |parts| ==> c !in parts[i]
    requires c !in sep
    ensures c !in Join(parts, sep)
  {
    if |parts| > 1 {
      JoinFree(parts[1..], sep, c);
    }
  }

  /** Joining two non-empty lists puts one separator between their joins. */
  lemma {:induction false} JoinConcat(a: seq<string>, b: seq<string>, sep: string)
    requires |a| > 0 && |b| > 0
    ensures Join(a + b, sep) == Join(a, sep) + sep + Join(b, sep)
  {
    if |a| > 1 {
      JoinConcat(a[1..], b, sep);
      assert (a + b)[1..] == a[1..] + b;
    } else {
      assert (a + b)[1..] == b;
    }
  }

  /** Piece `k` of `Split`, or None (JavaScript's `undefined`) past the end. */
  function SplitAt(s: string, sep: string, k: nat): Option<string>
    requires |sep| > 0
  {
    var parts := Split(s, sep);
    if k < |parts| then Some(parts[k]) else None
  }

  /** JavaScript `s.split(sep).pop()`, Rust `s.split(sep).last()`. */
  function LastPiece(s: string, sep: string): string
    requires |sep| > 0
  {
    var parts := Split(s, sep);
    parts[|parts| - 1]
  }

  /** Ruby `s.split(sep)` (limit 0): like JavaScript, then trailing empty pieces dropped. */
  function RubySplit(s: string, sep: string): (parts: seq<string>)
    requires |sep| > 0
    ensures |parts| == 0 || parts[|parts| - 1] != ""
  {
    DropTrailingEmpty(Split(s, sep))
  }

  function DropTrailingEmpty(parts: seq<string>): (r: seq<string>)
    ensures |r| <= |parts| && r == parts[..|r|]
    ensures |r| == 0 || r[|r| - 1] != ""
    ensures forall k :: |r| <= k < |parts| ==> parts[k] == ""
  {
    if |parts| == 0 then []
    else if parts[|parts| - 1] == "" then DropTrailingEmpty(parts[..|parts| - 1])
    else parts
  }

  // ---------------------------------------------------------------------
  // Characters and whitespace

  predicate IsAsciiLetter(c: char) { 'a' <= c <= 'z' || 'A' <= c <= 'Z' }

  predicate IsDigit(c: char) { '0' <= c <= '9' }

  predicate IsLowerHex(c: char) { IsDigit(c) || 'a' <= c <= 'f' }

  function ToLowerAscii(c: char): (r: char)
    ensures !('A' <= r <= 'Z')
  {
    if 'A' <= c <= 'Z' then (c as int - 'A' as int + 'a' as int) as char else c
  }

  /** ASCII-only `downcase` / `toLowerCase`. */
  function LowerAscii(s: string): (r: string)
    ensures |r| == |s|
    ensures forall i :: 0 <= i < |s| ==> r[i] == ToLowerAscii(s[i])
  {
    if |s| == 0 then [] else [ToLowerAscii(s[0])] + LowerAscii(s[1..])
  }

  /** Lower-casing twice is lower-casing once. */
  lemma LowerAsciiIdempotent(s: string)
    ensures LowerAscii(LowerAscii(s)) == LowerAscii(s)
  {
    var once := LowerAscii(s);
    forall i | 0 <= i < |s|
      ensures LowerAscii(once)[i] == once[i]
    {
      assert !('A' <= once[i] <= 'Z');
    }
  }

  /** The Unicode White_Space property (Ruby `[[:space:]]`, Rust `char::is_whitespace`). */
  predicate IsUnicodeSpace(c: char)
  {
    c == ' ' || c == '\t' || c == '\n' || c == '\r' || c == '\U{000B}' || c == '\U{000C}'
    || c == '\U{0085}' || c == '\U{00A0}' || c == '\U{1680}' || ('\U{2000}' <= c <= '\U{200A}')
    || c == '\U{2028}' || c == '\U{2029}' || c == '\U{202F}' || c == '\U{205F}' || c == '\U{3000}'
  }

  /** The characters JavaScript's `String.prototype.trim` removes. */
  predicate IsJsSpace(c: char)
  {
    (IsUnicodeSpace(c) && c != '\U{0085}') || c == '\U{FEFF}'
  }

  /** The characters Ruby's `String#strip` removes. */
  predicate IsRubyStripSpace(c: char)
  {
    c == '\0' || c == ' ' || c == '\t' || c == '\n' || c == '\r' || c == '\U{000B}' || c == '\U{000C}'
  }

  /** Rails `blank?` on a string: empty or whitespace only. */
  predicate IsBlank(s: string)
  {
    forall i :: 0 <= i < |s| ==> IsUnicodeSpace(s[i])
  }

  /** Rails `present?` on an optional string (nil is blank). */
  predicate IsPresent(s: Option<string>)
  {
    s.Some? && !IsBlank(s.value)
  }

  /** Number of leading characters of `s` satisfying `ws`. */
  function LeadingCount(s: string, ws: char -> bool): (n: nat)
    ensures n <= |s|
    ensures forall i :: 0 <= i < n ==> ws(s[i])
    ensures n == |s| || !ws(s[n])
  {
    if |s| > 0 && ws(s[0]) then
      var m := LeadingCount(s[1..], ws);
      assert forall i :: 1 <= i < m + 1 ==> s[i] == s[1..][i - 1];
      m + 1
    else 0
  }

  /** Number of trailing characters of `s` satisfying `ws`. */
  function TrailingCount(s: string, ws: char -> bool): (n: nat)
    ensures n <= |s|
    ensures forall i :: |s| - n <= i < |s| ==> ws(s[i])
    ensures n == |s| || !ws(s[|s| - n - 1])
  {
    if |s| > 0 && ws(s[|s| - 1]) then
      var m := TrailingCount(s[..|s| - 1], ws);
      assert forall i :: |s| - 1 - m <= i < |s| - 1 ==> s[i] == s[..|s| - 1][i];
      m + 1
    else 0
  }

  function TrimStartBy(s: string, ws: char -> bool): (r: string)
    ensures |r| <= |s|
  {
    s[LeadingCount(s, ws)..]
  }

  function TrimEndBy(s: string, ws: char -> bool): (r: string)
    ensures |r| <= |s|
  {
    s[..|s| - TrailingCount(s, ws)]
  }

  function TrimBy(s: string, ws: char -> bool): string
  {
    TrimEndBy(TrimStartBy(s, ws), ws)
  }

  /** The three properties of `LeadingCount` pin it down. */
  lemma LeadingCountUnique(s: string, ws: char -> bool, n: nat)
    requires n <= |s| && (forall i :: 0 <= i < n ==> ws(s[i])) && (n == |s| || !ws(s[n]))
    ensures LeadingCount(s, ws) == n
  {
  }

  /** The three properties of `TrailingCount` pin it down. */
  lemma TrailingCountUnique(s: string, ws: char -> bool, n: nat)
    requires n <= |s| && (forall i :: |s| - n <= i < |s| ==> ws(s[i])) && (n == |s| || !ws(s[|s| - n - 1]))
    ensures TrailingCount(s, ws) == n
  {
  }

  /** Trimming ignores one more trimmed character at the end. */
  lemma TrimIgnoresTrailingSpace(s: string, c: char, ws: char -> bool)
    requires ws(c)
    ensures TrimBy(s + [c], ws) == TrimBy(s, ws)
  {
    var t := s + [c];
    var a := LeadingCount(s, ws);
    assert forall i :: 0 <= i < |s| ==> t[i] == s[i];
    if a < |s| {
      LeadingCountUnique(t, ws, a);
      var u := s[a..];
      assert TrimStartBy(t, ws) == u + [c] by {
        assert t[a..] == u + [c];
      }
      EndTrimIgnoresTrailingSpace(u, c, ws);
    } else {
      LeadingCountUnique(t, ws, |s| + 1);
      assert TrimStartBy(t, ws) == [];
      assert TrimStartBy(s, ws) == [];
    }
  }

  /** Trimming the end ignores one more trimmed character. */
  lemma EndTrimIgnoresTrailingSpace(u: string, c: char, ws: char -> bool)
    requires ws(c)
    ensures TrimEndBy(u + [c], ws) == TrimEndBy(u, ws)
  {
    var m := TrailingCount(u, ws);
    assert forall i :: |u| - m <= i < |u| ==> (u + [c])[i] == u[i];
    assert m == |u| || (u + [c])[|u| - m - 1] == u[|u| - m - 1];
    TrailingCountUnique(u + [c], ws, m + 1);
    assert (u + [c])[..|u| - m] == u[..|u| - m];
  }

  /** The text after the last `c` (all of `s` when there is none): JavaScript `s.split(c).pop()`. */
  function AfterLast(s: string, c: char): (r: string)
    ensures c !in r
    ensures |r| <= |s| && r == s[|s| - |r|..]
    ensures |r| < |s| ==> s[|s| - |r| - 1] == c
  {
    if |s| == 0 then ""
    else if s[|s| - 1] == c then ""
    else AfterLast(s[..|s| - 1], c) + [s[|s| - 1]]
  }

  /** The last segment of a path that ends in "/<name>" is that name. */
  lemma {:induction false} AfterLastOfPath(prefix: string, name: string)
    requires '/' !in name
    ensures AfterLast(prefix + "/" + name, '/') == name
    decreases |name|
  {
    var s := prefix + "/" + name;
    if |name| == 0 {
      assert s[|s| - 1] == '/';
    } else {
      var init := name[..|name| - 1];
      assert s[..|s| - 1] == prefix + "/" + init;
      assert name[|name| - 1] in name;
      AfterLastOfPath(prefix, init);
      assert name == init + [name[|name| - 1]];
    }
  }

  /** JavaScript `s.replace(pat, rep)` with a string pattern: only the first occurrence is replaced. */
  function ReplaceFirst(s: string, pat: string, rep: string): (r: string)
    requires |pat| > 0
    ensures IndexOf(s, pat).None? ==> r == s
    ensures IndexOf(s, pat).Some? ==>
              var i := IndexOf(s, pat).value; r == s[..i] + rep + s[i + |pat|..]
  {
    match IndexOf(s, pat)
    case None => s
    case Some(i) => s[..i] + rep + s[i + |pat|..]
  }

  /** When the pattern's first character does not occur before it, the replacement lands exactly there. */
  lemma ReplaceFirstAt(a: string, pat: string, b: string, rep: string)
    requires |pat| > 0 && pat[0] !in a
    ensures ReplaceFirst(a + pat + b, pat, rep) == a + rep + b
  {
    var s := a + pat + b;
    assert s[|a|..|a| + |pat|] == pat;
    assert OccursAt(s, pat, |a|);
    forall j | 0 <= j < |a|
      ensures !OccursAt(s, pat, j)
    {
      assert s[j] == a[j];
    }
    assert s[..|a|] == a && s[|a| + |pat|..] == b;
  }

  /** The longest prefix of `s` free of characters satisfying `stop`. */
  function TakeUntil(s: string, stop: char -> bool): (r: string)
    ensures |r| <= |s| && r == s[..|r|]
    ensures forall i :: 0 <= i < |r| ==> !stop(r[i])
    ensures |r| < |s| ==> stop(s[|r|])
  {
    s[..LeadingCount(s, (c: char) => !stop(c))]
  }

  /** JavaScript `s.trim()`. */
  function JsTrim(s: string): string { TrimBy(s, IsJsSpace) }

  /** Ruby `s.strip`. */
  function RubyStrip(s: string): string { TrimBy(s, IsRubyStripSpace) }

  /** Rust `s.trim()`. */
  function RustTrim(s: string): string { TrimBy(s, IsUnicodeSpace) }

  // ---------------------------------------------------------------------
  // Number rendering

  function DigitChar(d: nat): (c: char)
    requires d < 10
    ensures IsDigit(c)
  {
    ['0', '1', '2', '3', '4', '5', '6', '7', '8', '9'][d]
  }

  /** Decimal rendering of a natural number, as `${n}` in JavaScript. */
  function NatToString(n: nat): (s: string)
    ensures |s| >= 1
    ensures forall i :: 0 <= i < |s| ==> IsDigit(s[i])
  {
    if n < 10 then [DigitChar(n)] else NatToString(n / 10) + [DigitChar(n % 10)]
  }

  /** Decimal rendering of an integer, with a leading '-' when negative. */
  function IntToString(n: int): string
  {
    if n < 0 then "-" + NatToString(-n) else NatToString(n)
  }

  function DigitValue(c: char): nat
    requires IsDigit(c)
  {
    c as int - '0' as int
  }

  /** Reads a string of decimal digits back as a number (the inverse of `NatToString`). */
  function ParseNat(s: string): nat
    requires forall i :: 0 <= i < |s| ==> IsDigit(s[i])
  {
    if |s| == 0 then 0 else ParseNat(s[..|s| - 1]) * 10 + DigitValue(s[|s| - 1])
  }

  lemma {:induction false} ParseNatToString(n: nat)
    ensures ParseNat(NatToString(n)) == n
  {
    var s := NatToString(n);
    if n >= 10 {
      ParseNatToString(n / 10);
      assert s[..|s| - 1] == NatToString(n / 10);
    }
  }

  lemma NatToStringInjective(m: nat, n: nat)
    requires NatToString(m) == NatToString(n)
    ensures m == n
  {
    ParseNatToString(m);
    ParseNatToString(n);
  }

  function HexDigit(d: nat): (c: char)
    requires d < 16
    ensures IsLowerHex(c)
  {
    ['0', '1', '2', '3', '4', '5', '6', '7', '8', '9', 'a', 'b', 'c', 'd', 'e', 'f'][d]
  }

  /**
   * Lower-case hexadecimal encoding, two characters per byte: Node's
   * `buf.toString('hex')`, Ruby's `SecureRandom.hex`, Rust's `hex::encode`.
   */
  function HexEncode(bytes: seq<byte>): (s: string)
    ensures |s| == 2 * |bytes|
    ensures forall i :: 0 <= i < |s| ==> IsLowerHex(s[i])
  {
    if |bytes| == 0 then ""
    else [HexDigit(bytes[0] as nat / 16), HexDigit(bytes[0] as nat % 16)] + HexEncode(bytes[1..])
  }

  function HexValue(c: char): (d: nat)
    requires IsLowerHex(c)
    ensures d < 16
  {
    if IsDigit(c) then c as int - '0' as int else c as int - 'a' as int + 10
  }

  /** Decodes lower-case hexadecimal, two characters per byte. */
  function HexDecode(s: string): (bytes: seq<byte>)
    requires |s| % 2 == 0
    requires forall i :: 0 <= i < |s| ==> IsLowerHex(s[i])
    ensures 2 * |bytes| == |s|
  {
    if |s| == 0 then [] else [(HexValue(s[0]) * 16 + HexValue(s[1])) as byte] + HexDecode(s[2..])
  }

  lemma {:induction false} HexDecodeEncode(bytes: seq<byte>)
    ensures HexDecode(HexEncode(bytes)) == bytes
  {
    if |bytes| > 0 {
      var s := HexEncode(bytes);
      assert s[2..] == HexEncode(bytes[1..]);
      HexDecodeEncode(bytes[1..]);
      HexByteRoundTrip(bytes[0]);
      assert [bytes[0]] + bytes[1..] == bytes;
    }
  }

  lemma HexByteRoundTrip(b: byte)
    ensures (HexValue(HexDigit(b as nat / 16)) * 16 + HexValue(HexDigit(b as nat % 16))) as byte == b
  {
    var n := b as nat;
    assert HexValue(HexDigit(n / 16)) == n / 16;
    assert HexValue(HexDigit(n % 16)) == n % 16;
  }

  lemma HexEncodeInjective(a: seq<byte>, b: seq<byte>)
    requires HexEncode(a) == HexEncode(b)
    ensures a == b
  {
    HexDecodeEncode(a);
    HexDecodeEncode(b);
  }

  /** A run of digits followed by a non-digit separator is told apart from what follows. */
  lemma DigitsThenSeparator(a: string, b: string, sep: char, x: string, y: string)
    requires forall i :: 0 <= i < |a| ==> IsDigit(a[i])
    requires forall i :: 0 <= i < |b| ==> IsDigit(b[i])
    requires !IsDigit(sep)
    requires a + [sep] + x == b + [sep] + y
    ensures a == b && x == y
  {
    var s := a + [sep] + x;
    assert s[|a|] == sep;
    assert (b + [sep] + y)[|b|] == sep;
    if |a| < |b| {
      assert false;
    }
    if |b| < |a| {
      assert false;
    }
    assert a == s[..|a|] && b == s[..|b|];
    assert x == s[|a| + 1..];
  }

  // ---------------------------------------------------------------------
  // Arithmetic and sequences

  function Min(a: int, b: int): int { if a <= b then a else b }

  function Max(a: int, b: int): int { if a >= b then a else b }

  function Sum(xs: seq<nat>): nat
  {
    if |xs| == 0 then 0 else xs[0] + Sum(xs[1..])
  }

  lemma {:induction false} SumAppend(xs: seq<nat>, ys: seq<nat>)
    ensures Sum(xs + ys) == Sum(xs) + Sum(ys)
  {
    if |xs| == 0 {
      assert xs + ys == ys;
    } else {
      assert (xs + ys)[1..] == xs[1..] + ys;
      SumAppend(xs[1..], ys);
    }
  }

  /** The position of the first element satisfying `p` (Ruby `find_by`/`find`, Rust `position`). */
  function FirstIndex<T>(s: seq<T>, p: T -> bool): (r: Option<nat>)
    ensures r.Some? ==> r.value < |s| && p(s[r.value]) && forall j :: 0 <= j < r.value ==> !p(s[j])
    ensures r.None? ==> forall j :: 0 <= j < |s| ==> !p(s[j])
  {
    if |s| == 0 then None
    else if p(s[0]) then Some(0)
    else
      match FirstIndex(s[1..], p)
      case None => None
      case Some(k) => Some(k + 1)
  }

  /** The elements satisfying `p`, in order (Ruby `where`/`select`, JavaScript `filter`). */
  function Filter<T(!new)>(s: seq<T>, p: T -> bool): (r: seq<T>)
    ensures |r| <= |s|
    ensures forall x :: x in r <==> x in s && p(x)
  {
    if |s| == 0 then []
    else
      var rest := Filter(s[1..], p);
      assert forall x :: x in s <==> x == s[0] || x in s[1..];
      (if p(s[0]) then [s[0]] else []) + rest
  }

  lemma {:induction false} FilterAppend<T(!new)>(a: seq<T>, b: seq<T>, p: T -> bool)
    ensures Filter(a + b, p) == Filter(a, p) + Filter(b, p)
  {
    if |a| == 0 {
      assert a + b == b;
    } else {
      var ab := a + b;
      assert ab[0] == a[0] && ab[1..] == a[1..] + b;
      FilterAppend(a[1..], b, p);
    }
  }

  /** Each element's key is at least its predecessor's. */
  predicate SortedBy<T>(s: seq<T>, key: T -> int)
  {
    forall i :: 0 < i < |s| ==> key(s[i - 1]) <= key(s[i])
  }

  /** Puts `x` before the first element whose key is not smaller. */
  function InsertBy<T(==)>(x: T, sorted: seq<T>, key: T -> int): (r: seq<T>)
    requires SortedBy(sorted, key)
    ensures SortedBy(r, key)
    ensures multiset(r) == multiset(sorted) + multiset{x}
    ensures |r| == |sorted| + 1 && (r[0] == x || (|sorted| > 0 && r[0] == sorted[0]))
  {
    if |sorted| == 0 || key(x) <= key(sorted[0]) then [x] + sorted
    else
      var rest := InsertBy(x, sorted[1..], key);
      assert sorted == [sorted[0]] + sorted[1..];
      [sorted[0]] + rest
  }

  /**
   * Ruby `sort_by` / SQL `ORDER BY` on one key: the same elements, keys
   * ascending. Ties keep their input order here; neither Ruby nor SQL
   * promises one.
   */
  function SortBy<T(==)>(s: seq<T>, key: T -> int): (r: seq<T>)
    ensures SortedBy(r, key)
    ensures multiset(r) == multiset(s)
  {
    if |s| == 0 then []
    else
      assert s == [s[0]] + s[1..];
      InsertBy(s[0], SortBy(s[1..], key), key)
  }

  /** Sortedness between neighbours extends to every pair. */
  lemma {:induction false} SortedByPairs<T>(s: seq<T>, key: T -> int, i: nat, j: nat)
    requires SortedBy(s, key) && i <= j < |s|
    ensures key(s[i]) <= key(s[j])
    decreases j - i
  {
    if i < j {
      SortedByPairs(s, key, i, j - 1);
    }
  }

  /** Kaminari's `page(n).per(size)`: the n-th window of `size` elements; pages below 1 read as 1. */
  /** Where page `page` of `size` elements starts; a page below 1 is read as 1. */
  function PageOffset(page: int, size: nat): nat
  {
    (Max(page, 1) - 1) * size
  }

  function Page<T>(s: seq<T>, page: int, size: nat): (r: seq<T>)
    ensures |r| <= size
    ensures forall x :: x in r ==> x in s
    ensures |r| == (if PageOffset(page, size) >= |s| then 0 else Min(size, |s| - PageOffset(page, size)))
    ensures forall k :: 0 <= k < |r| ==> r[k] == s[PageOffset(page, size) + k]
  {
    var offset := PageOffset(page, size);
    if offset >= |s| then [] else s[offset..Min(offset + size, |s|)]
  }

  /** Pages 1 to `n`, one after the other. */
  function Pages<T>(s: seq<T>, n: nat, size: nat): seq<T>
  {
    if n == 0 then [] else Pages(s, n - 1, size) + Page(s, n, size)
  }

  /** Reading pages 1 to `n` in turn gives the first `n * size` elements, each once. */
  lemma {:induction false} PagesArePrefix<T>(s: seq<T>, n: nat, size: nat)
    ensures Pages(s, n, size) == s[..Min(n * size, |s|)]
  {
    if n > 0 {
      PagesArePrefix(s, n - 1, size);
      var offset := PageOffset(n, size);
      assert Max(n, 1) == n;
      MulSucc(n - 1, size);
      if offset < |s| {
        var hi := Min(offset + size, |s|);
        assert Page(s, n, size) == s[offset..hi];
        assert s[..offset] + s[offset..hi] == s[..hi];
      } else {
        assert Page(s, n, size) == [];
      }
    }
  }

  lemma MulSucc(m: nat, size: nat)
    ensures (m + 1) * size == m * size + size
  {
  }

  /** A sequence no longer than a page is the whole first page. */
  lemma FirstPageWhole<T>(s: seq<T>, size: nat)
    requires |s| <= size
    ensures Page(s, 1, size) == s
  {
    assert s[0..|s|] == s;
  }

  /** A remainder by a larger divisor is the number itself. */
  lemma SmallMod(i: nat, n: nat)
    requires i < n
    ensures i % n == i
  {
    assert i == 0 * n + i;
  }

  /** A page of a sorted sequence is sorted. */
  lemma PageSorted<T>(s: seq<T>, key: T -> int, page: int, size: nat)
    requires SortedBy(s, key)
    ensures SortedBy(Page(s, page, size), key)
  {
    var offset := (Max(page, 1) - 1) * size;
    if offset < |s| {
      SliceSorted(s, key, offset, Min(offset + size, |s|));
    }
  }

  lemma SliceSorted<T>(s: seq<T>, key: T -> int, lo: nat, hi: nat)
    requires SortedBy(s, key) && lo <= hi <= |s|
    ensures SortedBy(s[lo..hi], key)
  {
    var r := s[lo..hi];
    forall i | 0 < i < |r|
      ensures key(r[i - 1]) <= key(r[i])
    {
      assert r[i - 1] == s[lo + i - 1] && r[i] == s[lo + i];
    }
  }

  // ---------------------------------------------------------------------
  // Keyed folds and digest-named keys

  /**
   * A `reduce` into an object or map over the first `n` (key, value) pairs:
   * a later key overwrites an earlier one.
   */
  function KeyedFold(keys: seq<string>, values: seq<string>, n: nat): map<string, string>
    requires n <= |keys| == |values|
  {
    if n == 0 then map[] else KeyedFold(keys, values, n - 1)[keys[n - 1] := values[n - 1]]
  }

  /** The folded map has a key for each entry and no other. */
  lemma {:induction false} KeyedFoldKeys(keys: seq<string>, values: seq<string>, n: nat)
    requires n <= |keys| == |values|
    ensures KeyedFold(keys, values, n).Keys == set i | 0 <= i < n :: keys[i]
  {
    if n > 0 {
      KeyedFoldKeys(keys, values, n - 1);
    }
  }

  /** With distinct keys, each key maps to its own value and there are as many keys as entries. */
  lemma {:induction false} KeyedFoldLookup(keys: seq<string>, values: seq<string>, n: nat)
    requires n <= |keys| == |values|
    requires forall i, j :: 0 <= i < j < n ==> keys[i] != keys[j]
    ensures forall i :: 0 <= i < n ==> keys[i] in KeyedFold(keys, values, n) && KeyedFold(keys, values, n)[keys[i]] == values[i]
    ensures |KeyedFold(keys, values, n).Keys| == n
  {
    if n > 0 {
      KeyedFoldLookup(keys, values, n - 1);
      KeyedFoldKeys(keys, values, n - 1);
      var prev := KeyedFold(keys, values, n - 1);
      var m := KeyedFold(keys, values, n);
      assert m == prev[keys[n - 1] := values[n - 1]];
      assert keys[n - 1] !in prev;
      assert m.Keys == prev.Keys + {keys[n - 1]};
      forall i | 0 <= i < n
        ensures keys[i] in m && m[keys[i]] == values[i]
      {
        if i < n - 1 {
          assert keys[i] != keys[n - 1] && keys[i] in prev;
        }
      }
    }
  }

  /**
   * The key a v2 bulk reply files a URL under: its position, then its last
   * path segment, with no separator.
   */
  function V2Key(i: nat, url: string): string
  {
    NatToString(i) + AfterLast(url, '/')
  }

  /** The v2 keys of a list of URLs, one per position. */
  function V2Keys(urls: seq<string>): (keys: seq<string>)
    ensures |keys| == |urls| && forall i :: 0 <= i < |urls| ==> keys[i] == V2Key(i, urls[i])
  {
    seq(|urls|, i requires 0 <= i < |urls| => V2Key(i, urls[i]))
  }

  /** `xs.map(f)`. */
  function Mapped<T, U>(xs: seq<T>, f: T -> U): (r: seq<U>)
    ensures |r| == |xs| && forall i :: 0 <= i < |xs| ==> r[i] == f(xs[i])
  {
    seq(|xs|, i requires 0 <= i < |xs| => f(xs[i]))
  }

  /** A SHA-1 digest rendered as hex: 40 lower-case hex digits. */
  predicate IsSha1Hex(sha: string)
  {
    |sha| == 40 && forall i :: 0 <= i < |sha| ==> IsLowerHex(sha[i])
  }

  /** Two keys whose hex runs end at different places differ at the shorter run's '_'. */
  lemma HexRunsOfDifferentLength(a1: string, n1: string, a2: string, n2: string)
    requires forall k :: 0 <= k < |a2| ==> IsLowerHex(a2[k])
    requires |a1| < |a2|
    ensures a1 + "_" + n1 != a2 + "_" + n2
  {
    var k1, k2 := a1 + "_" + n1, a2 + "_" + n2;
    assert k1[|a1|] == '_';
    assert k2[|a1|] == a2[|a1|];
  }

  /** Keys that start with different prefixes of the same length differ. */
  lemma PrefixesOfSameLength(d1: string, r1: string, d2: string, r2: string)
    requires |d1| == |d2| && d1 != d2
    ensures d1 + r1 != d2 + r2
  {
    assert (d1 + r1)[..|d1|] == d1;
    assert (d2 + r2)[..|d2|] == d2;
  }

  predicate AllDigits(d: string)
  {
    forall k :: 0 <= k < |d| ==> IsDigit(d[k])
  }

  /** "<digits><digest>_<name>" keys with different digit runs differ. */
  lemma DigestKeysDiffer(d1: string, h1: string, n1: string, d2: string, h2: string, n2: string)
    requires AllDigits(d1) && AllDigits(d2) && IsSha1Hex(h1) && IsSha1Hex(h2)
    requires d1 != d2
    ensures d1 + h1 + "_" + n1 != d2 + h2 + "_" + n2
    ensures d1 + (h1 + "_" + n1) != d2 + (h2 + "_" + n2)
  {
    assert d1 + h1 + "_" + n1 == (d1 + h1) + "_" + n1 == d1 + (h1 + "_" + n1);
    assert d2 + h2 + "_" + n2 == (d2 + h2) + "_" + n2 == d2 + (h2 + "_" + n2);
    if |d1| == |d2| {
      PrefixesOfSameLength(d1, h1 + "_" + n1, d2, h2 + "_" + n2);
    } else if |d1| < |d2| {
      assert forall k :: 0 <= k < |d2 + h2| ==> IsLowerHex((d2 + h2)[k]);
      HexRunsOfDifferentLength(d1 + h1, n1, d2 + h2, n2);
    } else {
      assert forall k :: 0 <= k < |d1 + h1| ==> IsLowerHex((d1 + h1)[k]);
      HexRunsOfDifferentLength(d2 + h2, n2, d1 + h1, n1);
    }
  }
}
