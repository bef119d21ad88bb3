/**
 * The text the Slack upload job computes for its thread replies
 * (app/jobs/process_slack_file_upload_job.rb): the candidate flavor
 * messages for the files posted, and the backtrace excerpt of an error
 * report, whose frames become links into the repository on GitHub.
 */
module SlackJobText {
  import opened Common
  import opened Http

  // ---------------------------------------------------------------------
  // Flavor messages

  const GENERIC_FLAVOR := "thanks, i'm gonna sell these to adfly!"

  /** `File.extname(name).delete_prefix(".").downcase`: leading dots of the basename do not start an extension. */
  function Extension(name: string): (ext: string)
    ensures '.' !in ext
  {
    var base := RubyBasename(name);
    var stem := base[LeadingCount(base, (c: char) => c == '.')..];
    if '.' in stem then LowerAscii(AfterLast(stem, '.')) else ""
  }

  /** The extra messages one file's extension brings. */
  function ExtensionFlavors(ext: string): seq<string>
  {
    if ext == "gif" then ["_gif_ that file to me and i'll upload it", "_gif_ me all all your files!"]
    else if ext == "heic" then ["What the heic???"]
    else if ext == "mov" then ["I'll _mov_ that to a permanent link for you"]
    else if ext == "html" then ["Oh, launching a new website?", "uwu, what's this site?",
                                "WooOOAAah hey! Are you serving a site?", "h-t-m-ello :wave:"]
    else if ext == "rar" then [".rawr xD", "i also go \"rar\" sometimes!"]
    else []
  }

  /** The list `pick_flavor_message` samples from: the generic line, then each file's extras in order. */
  function FlavorMessages(names: seq<string>): (r: seq<string>)
    ensures |r| >= 1 && r[0] == GENERIC_FLAVOR
  {
    FlavorsFor(seq(|names|, i requires 0 <= i < |names| => Extension(names[i])))
  }

  function FlavorsFor(exts: seq<string>): (r: seq<string>)
    ensures |r| >= 1 && r[0] == GENERIC_FLAVOR
  {
    if |exts| == 0 then [GENERIC_FLAVOR]
    else FlavorsFor(exts[..|exts| - 1]) + ExtensionFlavors(exts[|exts| - 1])
  }

  /** `.sample`, with the random draw as a parameter. */
  function PickFlavor(names: seq<string>, draw: nat): (m: string)
    ensures m in FlavorMessages(names)
  {
    var candidates := FlavorMessages(names);
    candidates[draw % |candidates|]
  }

  /** Every file contributes all of its extension's messages. */
  lemma {:induction false} FlavorsOfEachFile(exts: seq<string>)
    ensures forall k, m :: 0 <= k < |exts| && m in ExtensionFlavors(exts[k]) ==> m in FlavorsFor(exts)
  {
    if |exts| > 0 {
      var init := exts[..|exts| - 1];
      FlavorsOfEachFile(init);
      forall k, m | 0 <= k < |exts| && m in ExtensionFlavors(exts[k])
        ensures m in FlavorsFor(exts)
      {
        if k < |init| {
          assert exts[k] == init[k];
        }
      }
    }
  }

  /** Nothing but the generic line and the files' extras is offered. */
  lemma {:induction false} FlavorsOnlyFromFiles(exts: seq<string>)
    ensures forall m :: m in FlavorsFor(exts) ==>
              m == GENERIC_FLAVOR || exists k :: 0 <= k < |exts| && m in ExtensionFlavors(exts[k])
  {
    if |exts| > 0 {
      var init := exts[..|exts| - 1];
      FlavorsOnlyFromFiles(init);
      forall m | m in FlavorsFor(exts) && m != GENERIC_FLAVOR
        ensures exists k :: 0 <= k < |exts| && m in ExtensionFlavors(exts[k])
      {
        if m in FlavorsFor(init) {
          var k :| 0 <= k < |init| && m in ExtensionFlavors(init[k]);
          assert exts[k] == init[k];
        } else {
          assert m in ExtensionFlavors(exts[|exts| - 1]);
        }
      }
    }
  }

  /** The extension is matched without regard to case: "photo.GIF" counts as a gif. */
  lemma ExtensionIgnoresCase(stem: string, ext: string)
    requires |stem| > 0 && stem[0] != '.' && '/' !in stem && '/' !in ext && '.' !in ext
    ensures Extension(stem + "." + ext) == LowerAscii(ext)
  {
    var name := stem + "." + ext;
    assert name == (stem + ".") + ext;
    NoSlash(stem + ".", ext);
    BasenameOfPlainName(name);
    assert LeadingCount(name, (c: char) => c == '.') == 0;
    assert name[|stem|] == '.';
    AfterLastOfSuffix(stem + ".", ext, '.');
  }

  lemma NoSlash(a: string, b: string)
    requires '/' !in a && '/' !in b
    ensures '/' !in a + b
  {
  }

  /** A name with no '/' is its own basename. */
  lemma BasenameOfPlainName(name: string)
    requires |name| > 0 && '/' !in name
    ensures RubyBasename(name) == name
  {
    assert TrailingCount(name, (c: char) => c == '/') == 0;
    assert TrimEndBy(name, (c: char) => c == '/') == name;
    AfterLastAbsent(name, '/');
  }

  lemma {:induction false} AfterLastAbsent(s: string, c: char)
    requires c !in s
    ensures AfterLast(s, c) == s
  {
    if |s| > 0 {
      AfterLastAbsent(s[..|s| - 1], c);
    }
  }

  /** A string ending in `c` then a `c`-free tail: the text after the last `c` is the tail. */
  lemma {:induction false} AfterLastOfSuffix(head: string, tail: string, c: char)
    requires |head| > 0 && head[|head| - 1] == c && c !in tail
    ensures AfterLast(head + tail, c) == tail
  {
    if |tail| > 0 {
      var s := head + tail;
      assert s[..|s| - 1] == head + tail[..|tail| - 1];
      assert s[|s| - 1] == tail[|tail| - 1];
      AfterLastOfSuffix(head, tail[..|tail| - 1], c);
    } else {
      assert head + tail == head;
    }
  }

  // ---------------------------------------------------------------------
  // Backtrace excerpts

  const REPO_BLOB := "https://github.com/hackclub/cdn/blob/main/"

  /** Ruby's `\s`: space, tab, line feed, carriage return, form feed, vertical tab. */
  predicate IsRegexSpace(c: char)
  {
    c == ' ' || c == '\t' || c == '\n' || c == '\r' || c == '\U{0C}' || c == '\U{0B}'
  }

  /** The end of the run of characters satisfying `p` that starts at `i`. */
  function RunEnd(t: string, i: nat, p: char -> bool): (e: nat)
    requires i <= |t|
    ensures i <= e <= |t| && (e == |t| || !p(t[e]))
    ensures forall j :: i <= j < e ==> p(t[j])
    decreases |t| - i
  {
    if i == |t| || !p(t[i]) then i else RunEnd(t, i + 1, p)
  }

  /**
   * `t` is what the pattern `:(\d+):in\s+'(.+)'$` matches after the file
   * name, with `line` and `meth` as its two groups.
   */
  predicate CallSiteOf(t: string, line: string, meth: string)
  {
    var q := |t| - |meth| - 2;
    |line| > 0 && |meth| > 0 && q > |line| + 4
    && t[0] == ':' && t[|line| + 1] == ':' && t[|line| + 2] == 'i' && t[|line| + 3] == 'n'
    && (forall j :: 0 <= j < |line| ==> t[j + 1] == line[j] && IsDigit(line[j]))
    && (forall j :: |line| + 4 <= j < q ==> IsRegexSpace(t[j]))
    && t[q] == '\'' && t[|t| - 1] == '\''
    && (forall j :: 0 <= j < |meth| ==> t[q + 1 + j] == meth[j])
  }

  /** Matching the tail of the first pattern. */
  function CallSite(t: string): (r: Option<(string, string)>)
    ensures r.Some? ==> CallSiteOf(t, r.value.0, r.value.1)
  {
    if |t| < 2 || t[0] != ':' then None
    else
      var e := RunEnd(t, 1, IsDigit);
      if e == 1 || e + 3 > |t| || t[e] != ':' || t[e + 1] != 'i' || t[e + 2] != 'n' then None
      else
        var q := RunEnd(t, e + 3, IsRegexSpace);
        if q == e + 3 || q + 3 > |t| || t[q] != '\'' || t[|t| - 1] != '\'' then None
        else Some((t[1..e], t[q + 1..|t| - 1]))
  }

  /** Every match is found, with its groups: the digits stop at ':', the spaces at the quote. */
  lemma CallSiteComplete(t: string, line: string, meth: string)
    requires CallSiteOf(t, line, meth)
    ensures CallSite(t) == Some((line, meth))
  {
    var e := RunEnd(t, 1, IsDigit);
    forall j | 1 <= j < |line| + 1
      ensures IsDigit(t[j])
    {
      assert t[j] == line[j - 1];
    }
    assert e == |line| + 1;
    assert t[1..e] == line;
    assert t[e] == ':' && t[e + 1] == 'i' && t[e + 2] == 'n';
    var q := RunEnd(t, e + 3, IsRegexSpace);
    assert q == |t| - |meth| - 2;
    assert t[q + 1..|t| - 1] == meth;
  }

  /** What any call-site match starts and ends with. */
  lemma CallSiteShape(t: string)
    requires CallSite(t).Some?
    ensures |t| >= 2 && t[0] == ':' && IsDigit(t[1]) && t[|t| - 1] == '\''
  {
  }

  /** The greatest `k` in [1, hi) with `marks[k]`: a greedy `(.+)` before the rest of a pattern. */
  function LastMarked(marks: seq<bool>, hi: nat): (r: Option<nat>)
    requires hi <= |marks|
    ensures r.Some? ==> 1 <= r.value < hi && marks[r.value] && forall k :: r.value < k < hi ==> !marks[k]
    ensures r.None? ==> forall k :: 1 <= k < hi ==> !marks[k]
  {
    if hi <= 1 then None
    else if marks[hi - 1] then Some(hi - 1)
    else LastMarked(marks, hi - 1)
  }

  /** The split points after which the call-site pattern matches. */
  function CallSiteMarks(line: string): (marks: seq<bool>)
    ensures |marks| == |line|
    ensures forall k :: 0 <= k < |line| ==> marks[k] == CallSite(line[k..]).Some?
  {
    seq(|line|, k requires 0 <= k < |line| => CallSite(line[k..]).Some?)
  }

  predicate ColonDigitAt(line: string, k: nat)
  {
    k + 1 < |line| && line[k] == ':' && IsDigit(line[k + 1])
  }

  function ColonDigitMarks(line: string): (marks: seq<bool>)
    ensures |marks| == |line|
    ensures forall k :: 0 <= k < |line| ==> marks[k] == ColonDigitAt(line, k)
  {
    seq(|line|, k requires 0 <= k < |line| => ColonDigitAt(line, k))
  }

  /** How a backtrace line is read. */
  datatype Frame =
    | CallFrame(file: string, lineNumber: string, meth: string)
    | LineFrame(file: string, lineNumber: string)
    | Opaque

  /**
   * The two patterns of `format_backtrace`, tried in order. `(.+)` is
   * greedy, so the file is the longest prefix after which the rest of the
   * pattern still matches.
   */
  function ParseFrame(line: string): (f: Frame)
  {
    match LastMarked(CallSiteMarks(line), |line|)
    case Some(k) =>
      var site := CallSite(line[k..]).value;
      CallFrame(line[..k], site.0, site.1)
    case None => LineNumberFrame(line)
  }

  /** The second pattern, `(.+):(\d+)`, tried once the first has failed. */
  function LineNumberFrame(line: string): (f: Frame)
    ensures !f.CallFrame?
  {
    match LastMarked(ColonDigitMarks(line), |line|)
    case Some(k) =>
      var n := LeadingCount(line[k + 1..], IsDigit);
      LineFrame(line[..k], line[k + 1..k + 1 + n])
    case None => Opaque
  }

  /** A call frame: the file is the longest prefix after which the first pattern matches. */
  lemma ParseCallFrame(line: string)
    requires ParseFrame(line).CallFrame?
    ensures var f := ParseFrame(line);
            |f.file| > 0 && line[..|f.file|] == f.file && CallSiteOf(line[|f.file|..], f.lineNumber, f.meth)
            && forall k :: |f.file| < k < |line| ==> CallSite(line[k..]).None?
  {
    var calls := CallSiteMarks(line);
    var k := LastMarked(calls, |line|).value;
    assert calls[k];
  }

  /** Otherwise the first pattern matches nowhere. */
  lemma ParseNoCallFrame(line: string)
    requires !ParseFrame(line).CallFrame?
    ensures forall k :: 1 <= k < |line| ==> CallSite(line[k..]).None?
  {
    var calls := CallSiteMarks(line);
    assert LastMarked(calls, |line|).None?;
  }

  /**
   * A line frame: the file is the longest prefix followed by ':' and a
   * digit, and the line number is the whole run of digits there.
   */
  lemma ParseLineFrame(line: string)
    requires ParseFrame(line).LineFrame?
    ensures var f := ParseFrame(line);
            |f.file| > 0 && |f.lineNumber| > 0 && AllDigits(f.lineNumber)
            && StartsWith(line, f.file + ":" + f.lineNumber)
            && (|f.file| + 1 + |f.lineNumber| == |line| || !IsDigit(line[|f.file| + 1 + |f.lineNumber|]))
            && forall k :: |f.file| < k < |line| ==> !ColonDigitAt(line, k)
  {
    assert ParseFrame(line) == LineNumberFrame(line);
    LineFrameFields(line);
  }

  /** The same for the second pattern alone. */
  lemma LineFrameFields(line: string)
    requires LineNumberFrame(line).LineFrame?
    ensures var f := LineNumberFrame(line);
            |f.file| > 0 && |f.lineNumber| > 0 && AllDigits(f.lineNumber)
            && StartsWith(line, f.file + ":" + f.lineNumber)
            && (|f.file| + 1 + |f.lineNumber| == |line| || !IsDigit(line[|f.file| + 1 + |f.lineNumber|]))
            && forall k :: |f.file| < k < |line| ==> !ColonDigitAt(line, k)
  {
    var colons := ColonDigitMarks(line);
    var k := LastMarked(colons, |line|).value;
    assert colons[k];
    var n := LeadingCount(line[k + 1..], IsDigit);
    assert line[k + 1..][0] == line[k + 1];
    FieldsOfPrefix(line, k, n, line[k + 1..]);
  }

  /** The text before position `k`, the ':' there and the `n` characters after it start the line. */
  lemma FieldsOfPrefix(line: string, k: nat, n: nat, rest: string)
    requires k + 1 + n <= |line| && line[k] == ':' && rest == line[k + 1..]
    requires forall i :: 0 <= i < n ==> IsDigit(rest[i])
    ensures StartsWith(line, line[..k] + ":" + line[k + 1..k + 1 + n])
    ensures AllDigits(line[k + 1..k + 1 + n])
  {
    var p := line[..k] + ":" + line[k + 1..k + 1 + n];
    assert forall i :: 0 <= i < |p| ==> p[i] == line[i];
    var digits := line[k + 1..k + 1 + n];
    assert forall i :: 0 <= i < n ==> digits[i] == rest[i];
  }

  /** Lines that match neither pattern have no ':' followed by a digit after their first character. */
  lemma ParseOpaque(line: string)
    requires ParseFrame(line).Opaque?
    ensures forall k :: 1 <= k < |line| ==> !ColonDigitAt(line, k)
  {
    var colons := ColonDigitMarks(line);
    assert LastMarked(colons, |line|).None?;
  }

  function Link(file: string, lineNumber: string): string
  {
    "<" + REPO_BLOB + file + "#L" + lineNumber + "|" + file + ":" + lineNumber + ">"
  }

  /** One line of the excerpt: a link for a recognised frame, the line itself otherwise. */
  function FormatFrame(line: string): (r: string)
    ensures ParseFrame(line).Opaque? ==> r == line
  {
    match ParseFrame(line)
    case CallFrame(file, n, m) => Link(file, n) + " in `" + m + "`"
    case LineFrame(file, n) => Link(file, n)
    case Opaque => line
  }

  /** `format_backtrace`: empty for a missing or empty backtrace, else the first three cleaned frames. */
  function FormatBacktrace(backtrace: Option<seq<string>>, cleaner: seq<string> -> seq<string>): (r: string)
    ensures backtrace.None? || |backtrace.value| == 0 ==> r == ""
  {
    if backtrace.None? || |backtrace.value| == 0 then ""
    else
      var frames := cleaner(backtrace.value);
      Join(seq(Min(3, |frames|), i requires 0 <= i < Min(3, |frames|) => FormatFrame(frames[i])), "\n")
  }

  /**
   * A non-empty backtrace gives one excerpt line per cleaned frame, at most
   * three, each the formatted frame (as long as no formatted frame holds a
   * line feed of its own).
   */
  lemma BacktraceExcerptLines(backtrace: Option<seq<string>>, cleaner: seq<string> -> seq<string>)
    requires backtrace.Some? && |backtrace.value| > 0 && |cleaner(backtrace.value)| > 0
    requires var frames := cleaner(backtrace.value);
             forall i :: 0 <= i < Min(3, |frames|) ==> '\n' !in FormatFrame(frames[i])
    ensures var frames := cleaner(backtrace.value);
            var lines := Split(FormatBacktrace(backtrace, cleaner), "\n");
            |lines| == Min(3, |frames|) <= 3 && forall i :: 0 <= i < |lines| ==> lines[i] == FormatFrame(frames[i])
  {
    var frames := cleaner(backtrace.value);
    var parts := seq(Min(3, |frames|), i requires 0 <= i < Min(3, |frames|) => FormatFrame(frames[i]));
    assert FormatBacktrace(backtrace, cleaner) == Join(parts, "\n");
    SplitJoin(parts, '\n');
  }

  /** The usual Ruby frame "file:line:in 'meth'" links to that file and line. */
  lemma CanonicalCallFrame(file: string, n: string, m: string)
    requires |file| > 0 && |n| > 0 && AllDigits(n) && |m| > 0 && ':' !in m
    ensures ParseFrame(file + ":" + n + ":in '" + m + "'") == CallFrame(file, n, m)
    ensures FormatFrame(file + ":" + n + ":in '" + m + "'") == Link(file, n) + " in `" + m + "`"
  {
    var line := file + ":" + n + ":in '" + m + "'";
    var tail := ":" + n + ":in '" + m + "'";
    assert line == file + tail;
    assert line[|file|..] == tail;
    assert line[..|file|] == file;
    CanonicalTail(n, m);
    CallSiteComplete(tail, n, m);
    forall k | |file| < k < |line|
      ensures CallSite(line[k..]).None?
    {
      NoCallSiteInside(line, tail, file, n, m, k);
    }
    LastCallSite(line, |file|);
  }

  /** The file of a call frame ends where the last call-site match begins. */
  lemma LastCallSite(line: string, k: nat)
    requires 1 <= k < |line| && CallSite(line[k..]).Some?
    requires forall j :: k < j < |line| ==> CallSite(line[j..]).None?
    ensures ParseFrame(line) == CallFrame(line[..k], CallSite(line[k..]).value.0, CallSite(line[k..]).value.1)
  {
    LastMarkedIs(CallSiteMarks(line), |line|, k);
  }

  /** The last marked position is the one after which nothing is marked. */
  lemma LastMarkedIs(marks: seq<bool>, hi: nat, k: nat)
    requires 1 <= k < hi <= |marks| && marks[k] && forall j :: k < j < hi ==> !marks[j]
    ensures LastMarked(marks, hi) == Some(k)
  {
    var r := LastMarked(marks, hi);
    assert r.Some?;
  }

  lemma CanonicalTail(n: string, m: string)
    requires |n| > 0 && AllDigits(n) && |m| > 0
    ensures CallSiteOf(":" + n + ":in '" + m + "'", n, m)
  {
    var tail := ":" + n + ":in '" + m + "'";
    assert |tail| == |n| + |m| + 7;
    assert forall j :: 0 <= j < |n| ==> tail[j + 1] == n[j];
    assert tail[|n| + 1] == ':' && tail[|n| + 2] == 'i' && tail[|n| + 3] == 'n' && tail[|n| + 4] == ' ';
    assert tail[|n| + 5] == '\'' && tail[|tail| - 1] == '\'';
    assert forall j :: 0 <= j < |m| ==> tail[|n| + 6 + j] == m[j];
  }

  lemma NoCallSiteInside(line: string, tail: string, file: string, n: string, m: string, k: nat)
    requires |n| > 0 && AllDigits(n) && ':' !in m
    requires tail == ":" + n + ":in '" + m + "'" && line == file + tail && |file| < k < |line|
    ensures CallSite(line[k..]).None?
  {
    var t := line[k..];
    assert t[0] == line[k];
    if k + 1 < |line| {
      assert t[1] == line[k + 1];
    }
  }

  /** A bare "file:line" frame links to that file and line. */
  lemma CanonicalLineFrame(file: string, n: string)
    requires |file| > 0 && |n| > 0 && AllDigits(n)
    ensures ParseFrame(file + ":" + n) == LineFrame(file, n)
    ensures FormatFrame(file + ":" + n) == Link(file, n)
  {
    var line := file + ":" + n;
    var k := |file|;
    assert line[..k] == file && line[k + 1..] == n;
    assert line[k] == ':' && line[|line| - 1] == n[|n| - 1];
    assert forall j :: k < j < |line| ==> line[j] == n[j - k - 1];
    EndsInDigitNoCallSite(line);
    DigitsAfterLastColon(line, k);
  }

  /** A line ending in a digit has no call site: every match ends with a quote. */
  lemma EndsInDigitNoCallSite(line: string)
    requires |line| > 0 && IsDigit(line[|line| - 1])
    ensures ParseFrame(line) == LineNumberFrame(line)
  {
    forall k | 1 <= k < |line|
      ensures CallSite(line[k..]).None?
    {
      assert line[k..][|line| - k - 1] == line[|line| - 1];
    }
    assert LastMarked(CallSiteMarks(line), |line|).None?;
  }

  /** A line that ends in ':' then digits, with something before the ':', is read as that file and number. */
  lemma DigitsAfterLastColon(line: string, k: nat)
    requires 1 <= k && k + 1 < |line| && line[k] == ':'
    requires forall j :: k < j < |line| ==> IsDigit(line[j])
    ensures LineNumberFrame(line) == LineFrame(line[..k], line[k + 1..])
  {
    assert ColonDigitAt(line, k);
    LastMarkedIs(ColonDigitMarks(line), |line|, k);
    var digits := line[k + 1..];
    assert forall j :: 0 <= j < |digits| ==> IsDigit(digits[j]);
    LeadingCountUnique(digits, IsDigit, |digits|);
    assert line[k + 1..k + 1 + |digits|] == digits;
  }
}
