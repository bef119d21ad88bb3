/**
 * src/fileUpload.js: the second Slack relay. For a Slack message that
 * shares files it skips files over 50 MiB, downloads the others with the
 * bot token, writes them to the bucket under "s/<user>/<unique name>",
 * answers in the message's thread with `formatSuccessMessage` or
 * `formatErrorMessage` (image lines become attachments) and swaps the
 * "beachball" reaction for a check mark, a warning or a cross.
 *
 * As for src/storage.js, the Slack Web API is a log of the calls the relay
 * makes (all of them succeed), the message lookup is a parameter, `fetch`
 * is the environment's `Fetcher`, the clock is one reading `nowMs` per
 * event, and every random pick is a draw parameter.
 */
module FileUploadRelay {
  import opened Common
  import opened Http
  import opened ObjectStore
  import SW = StorageWriter
  import SR = StorageRelay
  import SM = SlackMessages

  /** 50 MiB: larger files are refused without being downloaded. */
  const MAX_FILE_SIZE: nat := 50 * 1024 * 1024

  /** 5 minutes: older events are replays. */
  const MAX_AGE_MS: nat := 5 * 60 * 1000

  /** 24 hours: how long a message stays marked as processed. */
  const RETENTION_MS: nat := 24 * 60 * 60 * 1000

  /** One entry of `uploadedFiles`, as `formatSuccessMessage` reads it. */
  type UploadedFile = SM.UploadedFile

  datatype FileOutcome =
    | Uploaded(file: UploadedFile)
    | Failed(name: string)     // `failedFiles`: the download or the upload failed
    | TooBig(name: string)     // `sizeFailedFiles`: over the limit, never downloaded

  /** A Slack attachment `{image_url, fallback}`. */
  datatype Attachment = Attachment(imageUrl: string, fallback: string)

  /** The fallback text of every attachment. */
  const FALLBACK: string := "Error image"

  /** `attachments: []` is sent as `undefined`, which Slack reads as no attachments. */
  datatype SlackCall =
    | AddReaction(name: string, ts: string, channel: string)
    | RemoveReaction(name: string, ts: string, channel: string)
    | PostMessage(channel: string, threadTs: string, text: string, attachments: seq<Attachment>)

  // ---------------------------------------------------------------------
  // The map of processed messages

  /** A mark set at `markedMs` has expired at `nowMs`. */
  predicate Expired(markedMs: nat, nowMs: nat)
  {
    nowMs - markedMs > RETENTION_MS
  }

  /**
   * The marks left once the eviction loop has looked at every key outside
   * `pending`: the expired ones among those are gone, the rest keep their time.
   */
  function Evicted(marks: map<string, nat>, nowMs: nat, pending: set<string>): (m: map<string, nat>)
    ensures m.Keys <= marks.Keys
    ensures forall ts :: ts in m ==> m[ts] == marks[ts]
  {
    map ts | ts in marks && (ts in pending || !Expired(marks[ts], nowMs)) :: marks[ts]
  }

  /** The marks after `isMessageProcessed` has swept the whole map at `nowMs`. */
  function Live(marks: map<string, nat>, nowMs: nat): map<string, nat>
  {
    Evicted(marks, nowMs, {})
  }

  /** A message counts as processed exactly while its mark is at most 24 hours old. */
  lemma LiveIffRecent(marks: map<string, nat>, nowMs: nat, ts: string)
    ensures ts in Live(marks, nowMs) <==> ts in marks && nowMs - marks[ts] <= RETENTION_MS
    ensures ts in Live(marks, nowMs) ==> Live(marks, nowMs)[ts] == marks[ts]
  {
  }

  /** Sweeping twice, the second time no earlier than the first, is sweeping once. */
  lemma LiveTwice(marks: map<string, nat>, t0: nat, t1: nat)
    requires t0 <= t1
    ensures Live(Live(marks, t0), t1) == Live(marks, t1)
  {
    var once, twice := Live(marks, t1), Live(Live(marks, t0), t1);
    forall ts
      ensures ts in twice <==> ts in once
    {
      LiveIffRecent(marks, t0, ts);
      LiveIffRecent(marks, t1, ts);
      LiveIffRecent(Live(marks, t0), t1, ts);
    }
    assert twice.Keys == once.Keys;
  }

  /**
   * A mark set at `markedMs` survives every later sweep and every later mark
   * of another message for 24 hours.
   */
  lemma MarkSurvives(marks: map<string, nat>, ts: string, markedMs: nat, nowMs: nat, other: string)
    requires ts in marks && marks[ts] == markedMs && markedMs <= nowMs <= markedMs + RETENTION_MS
    ensures ts in Live(marks, nowMs) && Live(marks, nowMs)[ts] == markedMs
    ensures other != ts ==> ts in marks[other := nowMs] && marks[other := nowMs][ts] == markedMs
  {
    LiveIffRecent(marks, nowMs, ts);
  }

  // ---------------------------------------------------------------------
  // One file

  /** The bytes of a file within the limit: None when the download throws or is not `ok`. */
  function Download(f: SR.SlackFile, env: SR.Env): Option<seq<byte>>
  {
    match env.fetch(SR.SlackDownload(f.urlPrivate, env.botToken))
    case Err(_) => None
    case Ok(response) => if IsSuccess(response) then Some(response.body) else None
  }

  /** The entry a stored file gets: unique name, original name, CDN URL and the type as Slack gave it. */
  function UploadedAs(f: SR.SlackFile, user: string, env: SR.Env, name: string): UploadedFile
  {
    SM.UploadedFile(name, f.name, SW.FileUrl(env.cdnBase, SR.UserDir(user), name), f.mimetype)
  }

  /** The outcome of one file: `stored` is whether the bucket kept the object. */
  function Step(f: SR.SlackFile, user: string, env: SR.Env, name: string, stored: bool): (o: FileOutcome)
    ensures o.TooBig? <==> f.size > MAX_FILE_SIZE
    ensures o.Uploaded? <==> f.size <= MAX_FILE_SIZE && Download(f, env).Some? && stored
    ensures o.Uploaded? ==> o.file == UploadedAs(f, user, env, name)
    ensures !o.Uploaded? ==> o.name == f.name
  {
    if f.size > MAX_FILE_SIZE then TooBig(f.name)
    else
      match Download(f, env)
      case None => Failed(f.name)
      case Some(_) => if stored then Uploaded(UploadedAs(f, user, env, name)) else Failed(f.name)
  }

  /**
   * A file over the limit is a size failure whatever the network would have
   * answered: it is never downloaded.
   */
  lemma TooBigNeverDownloaded(f: SR.SlackFile, user: string, env1: SR.Env, env2: SR.Env, name: string,
                              stored1: bool, stored2: bool)
    requires f.size > MAX_FILE_SIZE
    ensures Step(f, user, env1, name, stored1) == Step(f, user, env2, name, stored2) == TooBig(f.name)
  {
  }

  /** The `PutObject` request for a downloaded file: an undefined type becomes the octet-stream default. */
  function PutOf(f: SR.SlackFile, user: string, name: string, body: seq<byte>): Call
  {
    Call.PutObject(SW.ObjectKey(SR.UserDir(user), name), body, SW.ContentTypeOrDefault(f.mimetype),
                   SW.CACHE_CONTROL, |body|)
  }

  /** One pass of the loop of `processFiles`. */
  method ProcessFile(bucket: Bucket, f: SR.SlackFile, user: string, env: SR.Env, now: nat, random: seq<byte>,
                     ghost name: string)
    returns (o: FileOutcome)
    requires |random| == 16 && name == SR.UniqueFileName(f.name, now, random)
    modifies bucket
    ensures bucket.pending == old(bucket.pending) && bucket.nextUploadId == old(bucket.nextUploadId)
    ensures o == Step(f, user, env, name, |old(bucket.log)| !in bucket.faults)
    ensures f.size > MAX_FILE_SIZE || Download(f, env).None? ==>
              bucket.log == old(bucket.log) && bucket.objects == old(bucket.objects)
    ensures f.size <= MAX_FILE_SIZE && Download(f, env).Some? ==>
              var body := Download(f, env).value;
              && bucket.log == old(bucket.log) + [PutOf(f, user, name, body)]
              && bucket.objects == if |old(bucket.log)| !in bucket.faults
                                   then old(bucket.objects)[SW.ObjectKey(SR.UserDir(user), name) := body]
                                   else old(bucket.objects)
  {
    if f.size > MAX_FILE_SIZE {
      return TooBig(f.name);
    }
    var reply := env.fetch(SR.SlackDownload(f.urlPrivate, env.botToken));
    if reply.Err? || !IsSuccess(reply.value) {
      return Failed(f.name);
    }
    var buffer := reply.value.body;
    var uniqueFileName := SR.UniqueFileName(f.name, now, random);
    var userDir := SR.UserDir(user);
    var success := SR.UploadToStorage(bucket, userDir, uniqueFileName, buffer, f.mimetype);
    if !success {
      return Failed(f.name);
    }
    o := Uploaded(SM.UploadedFile(uniqueFileName, f.name, SW.FileUrl(env.cdnBase, userDir, uniqueFileName),
                                  f.mimetype));
  }

  // ---------------------------------------------------------------------
  // All files of a message

  /** What the loop has produced so far: outcomes, requests sent, and the bucket's objects. */
  datatype Progress = Progress(outcomes: seq<FileOutcome>, log: seq<Call>, objects: map<string, seq<byte>>)

  /** The loop after one more file, named `name`; request number `start + |p.log|` fails when in `faults`. */
  function Next(p: Progress, f: SR.SlackFile, user: string, env: SR.Env, name: string, faults: set<nat>,
                start: nat): (q: Progress)
    ensures q.outcomes == p.outcomes + [Step(f, user, env, name, start + |p.log| !in faults)]
  {
    if f.size > MAX_FILE_SIZE then p.(outcomes := p.outcomes + [TooBig(f.name)])
    else
      match Download(f, env)
      case None => p.(outcomes := p.outcomes + [Failed(f.name)])
      case Some(body) =>
        var stored := start + |p.log| !in faults;
        Progress(p.outcomes + [Step(f, user, env, name, stored)],
                 p.log + [PutOf(f, user, name, body)],
                 if stored then p.objects[SW.ObjectKey(SR.UserDir(user), name) := body] else p.objects)
  }

  /** The first `n` files of `msg` processed in order under the names `names`. */
  function Run(msg: SR.FileMessage, env: SR.Env, names: seq<string>, faults: set<nat>, start: nat,
               objects: map<string, seq<byte>>, n: nat): (p: Progress)
    requires n <= |msg.files| == |names|
    ensures |p.outcomes| == n
  {
    if n == 0 then Progress([], [], objects)
    else Next(Run(msg, env, names, faults, start, objects, n - 1), msg.files[n - 1], msg.user, env, names[n - 1],
              faults, start)
  }

  /** `uploadedFiles`, in file order. */
  function Uploads(outcomes: seq<FileOutcome>): seq<UploadedFile>
  {
    if |outcomes| == 0 then []
    else
      var n := |outcomes| - 1;
      Uploads(outcomes[..n]) + (if outcomes[n].Uploaded? then [outcomes[n].file] else [])
  }

  /** `failedFiles`, in file order. */
  function Failures(outcomes: seq<FileOutcome>): seq<string>
  {
    if |outcomes| == 0 then []
    else
      var n := |outcomes| - 1;
      Failures(outcomes[..n]) + (if outcomes[n].Failed? then [outcomes[n].name] else [])
  }

  /** `sizeFailedFiles`, in file order. */
  function SizeFailures(outcomes: seq<FileOutcome>): seq<string>
  {
    if |outcomes| == 0 then []
    else
      var n := |outcomes| - 1;
      SizeFailures(outcomes[..n]) + (if outcomes[n].TooBig? then [outcomes[n].name] else [])
  }

  /** One more outcome extends exactly one of the three lists. */
  lemma OutcomesAppend(outcomes: seq<FileOutcome>, o: FileOutcome)
    ensures Uploads(outcomes + [o]) == Uploads(outcomes) + (if o.Uploaded? then [o.file] else [])
    ensures Failures(outcomes + [o]) == Failures(outcomes) + (if o.Failed? then [o.name] else [])
    ensures SizeFailures(outcomes + [o]) == SizeFailures(outcomes) + (if o.TooBig? then [o.name] else [])
  {
    assert (outcomes + [o])[..|outcomes|] == outcomes;
  }

  /** Every file lands in exactly one of the three lists. */
  lemma {:induction false} OutcomesPartition(outcomes: seq<FileOutcome>)
    ensures |Uploads(outcomes)| + |Failures(outcomes)| + |SizeFailures(outcomes)| == |outcomes|
  {
    if |outcomes| > 0 {
      OutcomesPartition(outcomes[..|outcomes| - 1]);
    }
  }

  /** The uploaded list is empty exactly when no outcome is an upload. */
  lemma {:induction false} NoUploads(outcomes: seq<FileOutcome>)
    ensures |Uploads(outcomes)| == 0 <==> forall i :: 0 <= i < |outcomes| ==> !outcomes[i].Uploaded?
  {
    if |outcomes| > 0 {
      var n := |outcomes| - 1;
      NoUploads(outcomes[..n]);
      assert forall i :: 0 <= i < n ==> outcomes[..n][i] == outcomes[i];
    }
  }

  /** Both failure lists are empty exactly when every outcome is an upload. */
  lemma {:induction false} NoFailures(outcomes: seq<FileOutcome>)
    ensures |Failures(outcomes)| + |SizeFailures(outcomes)| == 0 <==>
              forall i :: 0 <= i < |outcomes| ==> outcomes[i].Uploaded?
  {
    if |outcomes| > 0 {
      var n := |outcomes| - 1;
      NoFailures(outcomes[..n]);
      assert forall i :: 0 <= i < n ==> outcomes[..n][i] == outcomes[i];
    }
  }

  /**
   * File `i` is a size failure exactly when it is over the limit, and
   * otherwise failed under its own name or was uploaded under the entry its
   * name, URL and type determine.
   */
  lemma {:induction false} RunOutcome(msg: SR.FileMessage, env: SR.Env, names: seq<string>, faults: set<nat>,
                                      start: nat, objects: map<string, seq<byte>>, n: nat, i: nat)
    requires n <= |msg.files| == |names| && i < n
    ensures var o := Run(msg, env, names, faults, start, objects, n).outcomes[i];
            var f := msg.files[i];
            && (o.TooBig? <==> f.size > MAX_FILE_SIZE)
            && (o.TooBig? || o.Failed? ==> o.name == f.name)
            && (o.Uploaded? ==> Download(f, env).Some? && o.file == UploadedAs(f, msg.user, env, names[i]))
  {
    var prior := Run(msg, env, names, faults, start, objects, n - 1);
    if i < n - 1 {
      RunOutcome(msg, env, names, faults, start, objects, n - 1, i);
      assert Run(msg, env, names, faults, start, objects, n).outcomes[i] == prior.outcomes[i];
    }
  }

  /** The loop body of `processFiles`: one file processed as `Next` says, its outcome pushed to its list. */
  method ProcessNext(bucket: Bucket, f: SR.SlackFile, user: string, env: SR.Env, now: nat, random: seq<byte>,
                     ghost name: string, ghost p: Progress, ghost log0: seq<Call>,
                     uploaded: seq<UploadedFile>, failed: seq<string>, sizeFailed: seq<string>)
    returns (uploaded': seq<UploadedFile>, failed': seq<string>, sizeFailed': seq<string>)
    requires |random| == 16 && name == SR.UniqueFileName(f.name, now, random)
    requires bucket.log == log0 + p.log && bucket.objects == p.objects
    requires uploaded == Uploads(p.outcomes) && failed == Failures(p.outcomes)
    requires sizeFailed == SizeFailures(p.outcomes)
    modifies bucket
    ensures var q := Next(p, f, user, env, name, bucket.faults, |log0|);
            && uploaded' == Uploads(q.outcomes) && failed' == Failures(q.outcomes)
            && sizeFailed' == SizeFailures(q.outcomes)
            && bucket.log == log0 + q.log && bucket.objects == q.objects
    ensures bucket.pending == old(bucket.pending) && bucket.nextUploadId == old(bucket.nextUploadId)
  {
    var o := ProcessFile(bucket, f, user, env, now, random, name);
    NextState(p, f, user, env, name, bucket.faults, log0, bucket.log, bucket.objects);
    ghost var q := Next(p, f, user, env, name, bucket.faults, |log0|);
    assert q.outcomes == p.outcomes + [o];
    OutcomesAppend(p.outcomes, o);
    uploaded', failed', sizeFailed' := uploaded, failed, sizeFailed;
    match o
    case Uploaded(file) => uploaded' := uploaded + [file];
    case Failed(name) => failed' := failed + [name];
    case TooBig(name) => sizeFailed' := sizeFailed + [name];
  }

  /** The requests and objects `ProcessFile` leaves after `p` are those of `Next`. */
  lemma NextState(p: Progress, f: SR.SlackFile, user: string, env: SR.Env, name: string, faults: set<nat>,
                  log0: seq<Call>, log: seq<Call>, objects: map<string, seq<byte>>)
    requires f.size > MAX_FILE_SIZE || Download(f, env).None? ==> log == log0 + p.log && objects == p.objects
    requires f.size <= MAX_FILE_SIZE && Download(f, env).Some? ==>
               var body := Download(f, env).value;
               && log == (log0 + p.log) + [PutOf(f, user, name, body)]
               && objects == if |log0 + p.log| !in faults then p.objects[SW.ObjectKey(SR.UserDir(user), name) := body]
                             else p.objects
    ensures var q := Next(p, f, user, env, name, faults, |log0|);
            log == log0 + q.log && objects == q.objects
  {
    if f.size <= MAX_FILE_SIZE && Download(f, env).Some? {
      var put := PutOf(f, user, name, Download(f, env).value);
      assert (log0 + p.log) + [put] == log0 + (p.log + [put]);
    }
  }

  /** `processFiles`: the files in order, each sorted into one of the three lists as `Run` says. */
  method ProcessFiles(bucket: Bucket, msg: SR.FileMessage, env: SR.Env, now: nat, randoms: seq<seq<byte>>)
    returns (uploaded: seq<UploadedFile>, failed: seq<string>, sizeFailed: seq<string>)
    requires SR.Draws(msg.files, randoms)
    modifies bucket
    ensures var p := Run(msg, env, SR.Names(msg.files, now, randoms), bucket.faults, |old(bucket.log)|,
                         old(bucket.objects), |msg.files|);
            && uploaded == Uploads(p.outcomes) && failed == Failures(p.outcomes)
            && sizeFailed == SizeFailures(p.outcomes)
            && bucket.log == old(bucket.log) + p.log && bucket.objects == p.objects
    ensures bucket.pending == old(bucket.pending) && bucket.nextUploadId == old(bucket.nextUploadId)
  {
    ghost var log0, objects0 := bucket.log, bucket.objects;
    ghost var names := SR.Names(msg.files, now, randoms);
    ghost var p := Run(msg, env, names, bucket.faults, |log0|, objects0, 0);
    uploaded, failed, sizeFailed := [], [], [];
    var i := 0;
    while i < |msg.files|
      invariant i <= |msg.files|
      invariant p == Run(msg, env, names, bucket.faults, |log0|, objects0, i)
      invariant uploaded == Uploads(p.outcomes) && failed == Failures(p.outcomes)
      invariant sizeFailed == SizeFailures(p.outcomes)
      invariant bucket.log == log0 + p.log && bucket.objects == p.objects
      invariant bucket.pending == old(bucket.pending) && bucket.nextUploadId == old(bucket.nextUploadId)
    {
      assert |randoms[i]| == 16 && names[i] == SR.UniqueFileName(msg.files[i].name, now, randoms[i]);
      uploaded, failed, sizeFailed :=
        ProcessNext(bucket, msg.files[i], msg.user, env, now, randoms[i], names[i], p, log0,
                    uploaded, failed, sizeFailed);
      p := Next(p, msg.files[i], msg.user, env, names[i], bucket.faults, |log0|);
      i := i + 1;
    }
  }

  // ---------------------------------------------------------------------
  // The final reaction

  /** `updateReactions`' choice: 'x' when every file failed (also for no files), 'warning' when some did. */
  function FinalReaction(totalFiles: nat, failedCount: nat): string
  {
    if failedCount == totalFiles then "x"
    else if failedCount > 0 then "warning"
    else "white_check_mark"
  }

  /**
   * Counted over the three lists, the cross means nothing was uploaded, the
   * check mark means nothing failed, and the warning means both happened.
   */
  lemma ReactionCases(outcomes: seq<FileOutcome>)
    ensures var u, f, s := Uploads(outcomes), Failures(outcomes), SizeFailures(outcomes);
            var r := FinalReaction(|u| + |f| + |s|, |f| + |s|);
            && (r == "x" <==> |u| == 0)
            && (r == "white_check_mark" <==> |u| > 0 && |f| + |s| == 0)
            && (r == "warning" <==> |u| > 0 && |f| + |s| > 0)
  {
  }

  // ---------------------------------------------------------------------
  // The answer in the thread

  /** The draws of `sendResultsMessage`: those of `formatSuccessMessage`, one quip per file, and those of `formatErrorMessage`. */
  datatype MessageDraws = MessageDraws(quips: seq<nat>, sizeError: SM.ErrorDraws, genericError: SM.ErrorDraws,
                                       closing: nat, error: SM.ErrorDraws)

  /** The draws `formatSuccessMessage` uses for `n` uploaded files. */
  function SuccessDraws(d: MessageDraws, n: nat): (s: SM.Draws)
    requires n <= |d.quips|
    ensures |s.quips| == n
  {
    SM.Draws(d.quips[..n], d.sizeError, d.genericError, d.closing)
  }

  /** Nothing was uploaded and something failed: the answer is the error message. */
  predicate AllFailed(uploaded: seq<UploadedFile>, failed: seq<string>, sizeFailed: seq<string>)
  {
    |uploaded| == 0 && (|failed| > 0 || |sizeFailed| > 0)
  }

  /**
   * The message `sendResultsMessage` builds: the error message over all
   * failed names, in the size wording only when every failure was a size
   * failure; otherwise the success message.
   */
  function ResultsMessage(user: string, uploaded: seq<UploadedFile>, failed: seq<string>, sizeFailed: seq<string>,
                          d: MessageDraws): string
    requires |uploaded| <= |d.quips|
  {
    if AllFailed(uploaded, failed, sizeFailed) then
      SM.FormatErrorMessage(failed + sizeFailed, |sizeFailed| > 0 && |failed| == 0, d.error)
    else
      Join(SM.SuccessLines(user, uploaded, failed, sizeFailed, SuccessDraws(d, |uploaded|)), "\n")
  }

  /** The characters JavaScript's `.` does not match. */
  predicate IsLineTerminator(c: char)
  {
    c == '\n' || c == '\r' || c == '\U{2028}' || c == '\U{2029}'
  }

  /** `line.match(/^<.*\|image>$/)`: '<', anything on one line, then "|image>" at the end. */
  predicate IsImageLine(line: string)
  {
    |line| >= 8 && line[0] == '<' && line[|line| - 7..] == "|image>"
    && forall i :: 1 <= i < |line| - 7 ==> !IsLineTerminator(line[i])
  }

  /** `line.replace(/^<|>$/g, '').replace('|image', '')`: the first "|image" left is removed. */
  function ImageUrl(line: string): string
    requires IsImageLine(line)
  {
    ReplaceFirst(line[1..|line| - 1], "|image", "")
  }

  /** What `textBuffer` holds after the lines: each line that is not an image, followed by a line break. */
  function Buffer(lines: seq<string>): string
  {
    if |lines| == 0 then ""
    else
      var n := |lines| - 1;
      Buffer(lines[..n]) + (if IsImageLine(lines[n]) then "" else lines[n] + "\n")
  }

  /** The attachments after the lines: one per image line, in order. */
  function Attachments(lines: seq<string>): seq<Attachment>
  {
    if |lines| == 0 then []
    else
      var n := |lines| - 1;
      Attachments(lines[..n]) + (if IsImageLine(lines[n]) then [Attachment(ImageUrl(lines[n]), FALLBACK)] else [])
  }

  /** The lines of `message` sorted into the text buffer and the attachments. */
  method SplitAttachments(message: string) returns (text: string, attachments: seq<Attachment>)
    ensures var lines := Split(message, "\n");
            text == JsTrim(Buffer(lines)) && attachments == Attachments(lines)
  {
    var lines := Split(message, "\n");
    var textBuffer := "";
    attachments := [];
    var i := 0;
    while i < |lines|
      invariant i <= |lines|
      invariant textBuffer == Buffer(lines[..i]) && attachments == Attachments(lines[..i])
    {
      var line := lines[i];
      assert lines[..i + 1][..i] == lines[..i];
      if IsImageLine(line) {
        var imageUrl := ReplaceFirst(line[1..|line| - 1], "|image", "");
        attachments := attachments + [Attachment(imageUrl, FALLBACK)];
      } else {
        textBuffer := textBuffer + line + "\n";
      }
      i := i + 1;
    }
    assert lines[..i] == lines;
    text := JsTrim(textBuffer);
  }

  /** The image markup of a URL on one line without '|' is an image line that gives back the URL. */
  lemma ImageLineRoundTrip(url: string)
    requires forall i :: 0 <= i < |url| ==> !IsLineTerminator(url[i]) && url[i] != '|'
    ensures IsImageLine(SM.ImageLine(url)) && ImageUrl(SM.ImageLine(url)) == url
  {
    var line := SM.ImageLine(url);
    var head, tail := "<" + url, "|image>";
    assert line == head + tail;
    assert line[|line| - 7..] == tail;
    assert forall i :: 1 <= i < |line| - 7 ==> line[i] == url[i - 1];
    assert line[1..|line| - 1] == url + "|image" + "";
    ReplaceFirstAt(url, "|image", "", "");
  }

  predicate NoImageLines(lines: seq<string>)
  {
    forall i :: 0 <= i < |lines| ==> !IsImageLine(lines[i])
  }

  /** Without image lines, the buffer is the lines joined with line breaks, plus one. */
  lemma {:induction false} PlainLines(lines: seq<string>)
    requires |lines| > 0 && NoImageLines(lines)
    ensures Buffer(lines) == Join(lines, "\n") + "\n" && Attachments(lines) == []
  {
    var n := |lines| - 1;
    if n == 0 {
      assert Buffer(lines[..0]) == "" && Attachments(lines[..0]) == [];
    } else {
      PlainLines(lines[..n]);
      JoinConcat(lines[..n], [lines[n]], "\n");
      assert lines[..n] + [lines[n]] == lines;
    }
  }

  /** A message without image lines is posted as it is, trimmed, with no attachments. */
  lemma PlainMessagePostedWhole(message: string)
    requires NoImageLines(Split(message, "\n"))
    ensures var lines := Split(message, "\n");
            JsTrim(Buffer(lines)) == JsTrim(message) && Attachments(lines) == []
  {
    var lines := Split(message, "\n");
    assert |lines| > 0;
    PlainLines(lines);
    TrimIgnoresTrailingSpace(message, '\n', IsJsSpace);
  }

  /**
   * The error message's image becomes the one attachment and leaves the text,
   * which keeps the drawn text, the failed names and the empty line.
   */
  lemma ErrorLinesAttachment(text: string, failedFiles: seq<string>, image: string)
    requires !IsImageLine(text)
    requires forall i :: 0 <= i < |image| ==> !IsLineTerminator(image[i]) && image[i] != '|'
    ensures var lines := SM.ErrorLines(text, failedFiles, image);
            && Attachments(lines) == [Attachment(image, FALLBACK)]
            && Buffer(lines) == text + "\n" + ("Failed files: " + Join(failedFiles, ", ")) + "\n" + "\n"
  {
    var lines := SM.ErrorLines(text, failedFiles, image);
    var names := "Failed files: " + Join(failedFiles, ", ");
    ImageLineRoundTrip(image);
    assert !IsImageLine(lines[1]) by {
      assert lines[1][0] == 'F';
    }
    assert !IsImageLine(lines[2]);
    assert lines[..1][..0] == [] && lines[..2][..1] == lines[..1] && lines[..3][..2] == lines[..2];
    assert lines[..4] == lines && lines[..4][..3] == lines[..3];
    assert Buffer(lines[..1]) == text + "\n" && Attachments(lines[..1]) == [];
    assert Buffer(lines[..2]) == text + "\n" + names + "\n" && Attachments(lines[..2]) == [];
    assert Buffer(lines[..3]) == text + "\n" + names + "\n" + "\n" && Attachments(lines[..3]) == [];
  }

  /**
   * When nothing was uploaded, the answer is the error message over all
   * failures: its text from the size table exactly when no file failed for
   * another reason, and its image sent as the only attachment.
   */
  lemma AllFailedAnswer(user: string, failed: seq<string>, sizeFailed: seq<string>, d: MessageDraws)
    requires |failed| > 0 || |sizeFailed| > 0
    requires SM.NoNewlines(failed + sizeFailed)
    requires var isSize := |sizeFailed| > 0 && |failed| == 0;
             var text := SM.RandomItem(SM.ErrorTexts(isSize), d.error.message);
             var image := SM.RandomItem(SM.ErrorImages(isSize), d.error.image);
             SM.NoNewline(text) && !IsImageLine(text)
             && forall i :: 0 <= i < |image| ==> !IsLineTerminator(image[i]) && image[i] != '|'
    ensures var isSize := |sizeFailed| > 0 && |failed| == 0;
            var text := SM.RandomItem(SM.ErrorTexts(isSize), d.error.message);
            var image := SM.RandomItem(SM.ErrorImages(isSize), d.error.image);
            var lines := Split(ResultsMessage(user, [], failed, sizeFailed, d), "\n");
            && lines == SM.ErrorLines(text, failed + sizeFailed, image)
            && Attachments(lines) == [Attachment(image, FALLBACK)]
  {
    var isSize := |sizeFailed| > 0 && |failed| == 0;
    var text := SM.RandomItem(SM.ErrorTexts(isSize), d.error.message);
    var image := SM.RandomItem(SM.ErrorImages(isSize), d.error.image);
    assert SM.NoNewline(image) by {
      assert forall i :: 0 <= i < |image| ==> image[i] != '\n';
    }
    SM.ErrorLinesReadBack(text, failed + sizeFailed, image);
    ErrorLinesAttachment(text, failed + sizeFailed, image);
  }

  /** The choice of message at the head of `sendResultsMessage`. */
  method BuildResultsMessage(user: string, uploaded: seq<UploadedFile>, failed: seq<string>, sizeFailed: seq<string>,
                             d: MessageDraws) returns (message: string)
    requires |uploaded| <= |d.quips|
    ensures message == ResultsMessage(user, uploaded, failed, sizeFailed, d)
  {
    if |uploaded| == 0 && (|failed| > 0 || |sizeFailed| > 0) {
      message := SM.FormatErrorMessage(failed + sizeFailed, |sizeFailed| > 0 && |failed| == 0, d.error);
    } else {
      message := SM.FormatSuccessMessage(user, uploaded, failed, sizeFailed, SuccessDraws(d, |uploaded|));
    }
  }

  /** The `chat.postMessage` call for `message` in the thread of `ts`. */
  function Post(channel: string, ts: string, message: string): SlackCall
  {
    var lines := Split(message, "\n");
    PostMessage(channel, ts, JsTrim(Buffer(lines)), Attachments(lines))
  }

  /**
   * `sendResultsMessage`: build the message, move its image lines to
   * attachments, and make the post of the rest, trimmed.
   */
  method SendResultsMessage(channel: string, m: SR.FileMessage, uploaded: seq<UploadedFile>, failed: seq<string>,
                            sizeFailed: seq<string>, d: MessageDraws) returns (call: SlackCall)
    requires |uploaded| <= |d.quips|
    ensures call == Post(channel, m.ts, ResultsMessage(m.user, uploaded, failed, sizeFailed, d))
  {
    var message := BuildResultsMessage(m.user, uploaded, failed, sizeFailed, d);
    var text, attachments := SplitAttachments(message);
    call := PostMessage(channel, m.ts, text, attachments);
  }

  /** `updateReactions`: the calls that take the hourglass off and put the final reaction on. */
  method UpdateReactions(channel: string, m: SR.FileMessage, totalFiles: nat, failedCount: nat)
    returns (calls: seq<SlackCall>)
    ensures calls == [RemoveReaction("beachball", m.ts, channel),
                      AddReaction(FinalReaction(totalFiles, failedCount), m.ts, channel)]
  {
    var reactionName;
    if failedCount == totalFiles {
      reactionName := "x";
    } else if failedCount > 0 {
      reactionName := "warning";
    } else {
      reactionName := "white_check_mark";
    }
    calls := [RemoveReaction("beachball", m.ts, channel), AddReaction(reactionName, m.ts, channel)];
  }

  /**
   * The calls `handleFileUpload` makes for a message it takes on: the
   * hourglass, the answer `post`, then the hourglass swapped for `reaction`.
   */
  function Conversation(channel: string, ts: string, post: SlackCall, reaction: string): seq<SlackCall>
  {
    [AddReaction("beachball", ts, channel)] + [post]
    + [RemoveReaction("beachball", ts, channel), AddReaction(reaction, ts, channel)]
  }

  /** The answer to a message whose files came out as `outcomes`. */
  function Answer(channel: string, m: SR.FileMessage, outcomes: seq<FileOutcome>, d: MessageDraws): SlackCall
    requires |Uploads(outcomes)| <= |d.quips|
  {
    Post(channel, m.ts, ResultsMessage(m.user, Uploads(outcomes), Failures(outcomes), SizeFailures(outcomes), d))
  }

  /** The final reaction for `outcomes`. */
  function Reaction(outcomes: seq<FileOutcome>): string
  {
    var failedCount := |Failures(outcomes)| + |SizeFailures(outcomes)|;
    FinalReaction(|Uploads(outcomes)| + failedCount, failedCount)
  }

  /** The answer and the reaction computed from the three lists are those of the outcomes. */
  lemma AnswerOfLists(channel: string, m: SR.FileMessage, outcomes: seq<FileOutcome>, d: MessageDraws,
                      uploaded: seq<UploadedFile>, failed: seq<string>, sizeFailed: seq<string>)
    requires uploaded == Uploads(outcomes) && failed == Failures(outcomes) && sizeFailed == SizeFailures(outcomes)
    requires |uploaded| <= |d.quips|
    ensures Post(channel, m.ts, ResultsMessage(m.user, uploaded, failed, sizeFailed, d)) == Answer(channel, m, outcomes, d)
    ensures FinalReaction(|uploaded| + |failed| + |sizeFailed|, |failed| + |sizeFailed|) == Reaction(outcomes)
  {
  }

  /** The hourglass, then the post and the two reaction calls, are the conversation. */
  lemma ConversationSteps(s0: seq<SlackCall>, channel: string, ts: string, post: SlackCall, reaction: string)
    ensures s0 + [AddReaction("beachball", ts, channel)]
            + ([post] + [RemoveReaction("beachball", ts, channel), AddReaction(reaction, ts, channel)])
            == s0 + Conversation(channel, ts, post, reaction)
  {
  }

  /** The cases in which `handleFileUpload` returns before marking the message. */
  predicate Skips(eventMs: Option<real>, nowMs: nat, found: Option<SR.FileMessage>, marks: map<string, nat>)
  {
    SR.TooOld(eventMs, nowMs, MAX_AGE_MS) || found.None? || found.value.ts in Live(marks, nowMs)
  }

  /**
   * A message taken on at `t0` is skipped by every later delivery within 24
   * hours, whatever else was marked or swept in between (`MarkSurvives`).
   */
  lemma HandledAtMostOncePerDay(marks: map<string, nat>, m: SR.FileMessage, t0: nat, t1: nat, eventMs: Option<real>)
    requires t0 <= t1 <= t0 + RETENTION_MS
    ensures Skips(eventMs, t1, Some(m), Live(marks, t0)[m.ts := t0])
  {
    MarkSurvives(Live(marks, t0)[m.ts := t0], m.ts, t0, t1, m.ts);
  }

  /** The relay process: the marked messages with the time of their mark, and what it has said on Slack. */
  class Relay {
    /** `processedMessages`: message ts to the `Date.now()` of its mark. */
    var marks: map<string, nat>
    var slack: seq<SlackCall>
    const bucket: Bucket
    const env: SR.Env

    constructor (bucket: Bucket, env: SR.Env)
      ensures marks == map[] && slack == [] && this.bucket == bucket && this.env == env
    {
      marks := map[];
      slack := [];
      this.bucket := bucket;
      this.env := env;
    }

    /** `isMessageProcessed`: sweep out the marks older than 24 hours, then look `ts` up. */
    method IsMessageProcessed(ts: string, nowMs: nat) returns (processed: bool)
      modifies this
      ensures marks == Live(old(marks), nowMs) && slack == old(slack)
      ensures processed <==> ts in old(marks) && nowMs - old(marks)[ts] <= RETENTION_MS
    {
      var pending := marks.Keys;
      while pending != {}
        invariant pending <= old(marks).Keys
        invariant marks == Evicted(old(marks), nowMs, pending)
        invariant slack == old(slack)
        decreases pending
      {
        var key :| key in pending;
        if nowMs - marks[key] > RETENTION_MS {
          marks := marks - {key};
        }
        pending := pending - {key};
      }
      LiveIffRecent(old(marks), nowMs, ts);
      processed := ts in marks;
    }

    /** `markMessageAsProcessing`: the mark of `ts` is now. */
    method MarkMessageAsProcessing(ts: string, nowMs: nat)
      modifies this
      ensures marks == old(marks)[ts := nowMs] && slack == old(slack)
    {
      marks := marks[ts := nowMs];
    }

    /** The first half of taking a message on: mark it, put the hourglass on it and process its files. */
    method Begin(channel: string, m: SR.FileMessage, nowMs: nat, randoms: seq<seq<byte>>)
      returns (uploaded: seq<UploadedFile>, failed: seq<string>, sizeFailed: seq<string>)
      requires SR.Draws(m.files, randoms)
      modifies this, bucket
      ensures bucket.pending == old(bucket.pending) && bucket.nextUploadId == old(bucket.nextUploadId)
      ensures var p := Run(m, env, SR.Names(m.files, nowMs, randoms), bucket.faults, |old(bucket.log)|,
                           old(bucket.objects), |m.files|);
              && marks == old(marks)[m.ts := nowMs]
              && slack == old(slack) + [AddReaction("beachball", m.ts, channel)]
              && bucket.log == old(bucket.log) + p.log && bucket.objects == p.objects
              && uploaded == Uploads(p.outcomes) && failed == Failures(p.outcomes)
              && sizeFailed == SizeFailures(p.outcomes)
    {
      MarkMessageAsProcessing(m.ts, nowMs);
      slack := slack + [AddReaction("beachball", m.ts, channel)];
      uploaded, failed, sizeFailed := ProcessFiles(bucket, m, env, nowMs, randoms);
    }

    /** The second half: answer in the thread, then swap the hourglass for the final reaction. */
    method Finish(channel: string, m: SR.FileMessage, uploaded: seq<UploadedFile>, failed: seq<string>,
                  sizeFailed: seq<string>, d: MessageDraws)
      requires |uploaded| <= |d.quips|
      modifies this
      ensures marks == old(marks)
      ensures slack == old(slack)
                       + ([Post(channel, m.ts, ResultsMessage(m.user, uploaded, failed, sizeFailed, d))]
                          + [RemoveReaction("beachball", m.ts, channel),
                             AddReaction(FinalReaction(|uploaded| + |failed| + |sizeFailed|, |failed| + |sizeFailed|),
                                         m.ts, channel)])
    {
      var post := SendResultsMessage(channel, m, uploaded, failed, sizeFailed, d);
      var reactions := UpdateReactions(channel, m, |uploaded| + |failed| + |sizeFailed|, |failed| + |sizeFailed|);
      slack := slack + ([post] + reactions);
    }

    /**
     * The part of `handleFileUpload` after its guards: mark the message, put
     * the hourglass on it, process its files, answer and set the reaction.
     */
    method TakeOn(channel: string, m: SR.FileMessage, nowMs: nat, randoms: seq<seq<byte>>, d: MessageDraws)
      requires SR.Draws(m.files, randoms) && |m.files| <= |d.quips|
      modifies this, bucket
      ensures bucket.pending == old(bucket.pending) && bucket.nextUploadId == old(bucket.nextUploadId)
      ensures var p := Run(m, env, SR.Names(m.files, nowMs, randoms), bucket.faults, |old(bucket.log)|,
                           old(bucket.objects), |m.files|);
              && marks == old(marks)[m.ts := nowMs]
              && bucket.log == old(bucket.log) + p.log && bucket.objects == p.objects
              && |Uploads(p.outcomes)| <= |d.quips|
              && slack == old(slack) + Conversation(channel, m.ts, Answer(channel, m, p.outcomes, d), Reaction(p.outcomes))
    {
      ghost var slack0, log0, objects0 := slack, bucket.log, bucket.objects;
      var uploaded, failed, sizeFailed := Begin(channel, m, nowMs, randoms);
      ghost var p := Run(m, env, SR.Names(m.files, nowMs, randoms), bucket.faults, |log0|, objects0, |m.files|);
      OutcomesPartition(p.outcomes);
      Finish(channel, m, uploaded, failed, sizeFailed, d);
      AnswerOfLists(channel, m, p.outcomes, d, uploaded, failed, sizeFailed);
      ConversationSteps(slack0, channel, m.ts, Answer(channel, m, p.outcomes, d), Reaction(p.outcomes));
    }

    /**
     * `handleFileUpload` for the event of one shared file. `found` is what
     * `findFileMessage` returns (None for null); `randoms` and `d` are the
     * draws for that message.
     */
    method HandleFileUpload(channel: string, eventMs: Option<real>, nowMs: nat, found: Option<SR.FileMessage>,
                            randoms: seq<seq<byte>>, d: MessageDraws)
      requires found.Some? ==> SR.Draws(found.value.files, randoms) && |found.value.files| <= |d.quips|
      modifies this, bucket
      ensures bucket.pending == old(bucket.pending) && bucket.nextUploadId == old(bucket.nextUploadId)
      ensures SR.TooOld(eventMs, nowMs, MAX_AGE_MS) || found.None? ==>
                marks == old(marks) && slack == old(slack)
                && bucket.log == old(bucket.log) && bucket.objects == old(bucket.objects)
      ensures !SR.TooOld(eventMs, nowMs, MAX_AGE_MS) && found.Some? && Skips(eventMs, nowMs, found, old(marks)) ==>
                marks == Live(old(marks), nowMs) && slack == old(slack)
                && bucket.log == old(bucket.log) && bucket.objects == old(bucket.objects)
      ensures !Skips(eventMs, nowMs, found, old(marks)) ==>
                var m := found.value;
                var p := Run(m, env, SR.Names(m.files, nowMs, randoms), bucket.faults, |old(bucket.log)|,
                             old(bucket.objects), |m.files|);
                && marks == Live(old(marks), nowMs)[m.ts := nowMs]
                && bucket.log == old(bucket.log) + p.log && bucket.objects == p.objects
                && |Uploads(p.outcomes)| <= |d.quips|
                && slack == old(slack) + Conversation(channel, m.ts, Answer(channel, m, p.outcomes, d), Reaction(p.outcomes))
    {
      if SR.TooOld(eventMs, nowMs, MAX_AGE_MS) {
        return;
      }
      if found.None? {
        return;
      }
      var processed := IsMessageProcessed(found.value.ts, nowMs);
      LiveIffRecent(old(marks), nowMs, found.value.ts);
      if processed {
        return;
      }
      TakeOn(channel, found.value, nowMs, randoms, d);
    }
  }
}
