/**
 * src/storage.js: the first Slack relay. For a Slack message that shares
 * files it downloads each file with the bot token, writes it to the bucket
 * under "s/<user>/<unique name>", answers in the message's thread with the
 * links, and swaps the "beachball" reaction for a check mark or a cross.
 *
 * The Slack Web API is a log of the calls the relay makes (all of them
 * succeed); the message lookup is a parameter; `fetch` is the `Fetcher` of
 * the environment; the clock is one reading `nowMs`; the random bytes of
 * each name are a draw parameter, one draw per file.
 */
module StorageRelay {
  import opened Common
  import opened Http
  import opened ObjectStore
  import SW = StorageWriter

  /** 2 GiB: larger files are refused without being downloaded. */
  const MAX_FILE_SIZE: nat := 2 * 1024 * 1024 * 1024

  /** 24 hours: older events were queued while the relay was offline. */
  const MAX_AGE_MS: nat := 24 * 60 * 60 * 1000

  const OCTET_STREAM: string := "application/octet-stream"

  /** A file of a Slack message; `mimetype` None is JavaScript's `undefined`. */
  datatype SlackFile = SlackFile(name: string, size: nat, mimetype: Option<string>, urlPrivate: string)

  /** The message that shared the files, as `conversations.history` returns it. */
  datatype FileMessage = FileMessage(ts: string, user: string, files: seq<SlackFile>)

  /** The environment: `AWS_CDN_URL`, `SLACK_BOT_TOKEN` and the network. */
  datatype Env = Env(cdnBase: string, botToken: string, fetch: Fetcher)

  /** One entry of `uploadedFiles`. */
  datatype Uploaded = Uploaded(name: string, url: string, contentType: string)

  datatype FileOutcome = Done(file: Uploaded) | Failed(name: string)

  datatype SlackCall =
    | AddReaction(name: string, ts: string, channel: string)
    | RemoveReaction(name: string, ts: string, channel: string)
    | PostMessage(channel: string, threadTs: string, text: string)

  // ---------------------------------------------------------------------
  // Age of an event

  /**
   * `Date.now() - parseFloat(ts) * 1000 > maxAge`. The parsed time is
   * None when `parseFloat` gives NaN, and every comparison with NaN is false.
   */
  predicate TooOld(eventMs: Option<real>, nowMs: nat, maxAgeMs: nat)
  {
    eventMs.Some? && nowMs as real - eventMs.value > maxAgeMs as real
  }

  /** An event that is too old stays too old; an unreadable time is never too old. */
  lemma TooOldStaysTooOld(eventMs: Option<real>, nowMs: nat, laterMs: nat, maxAgeMs: nat)
    requires nowMs <= laterMs
    ensures TooOld(eventMs, nowMs, maxAgeMs) ==> TooOld(eventMs, laterMs, maxAgeMs)
    ensures eventMs.None? ==> !TooOld(eventMs, nowMs, maxAgeMs)
    ensures eventMs.Some? && eventMs.value >= nowMs as real ==> !TooOld(eventMs, nowMs, maxAgeMs)
  {
  }

  // ---------------------------------------------------------------------
  // Names, keys, downloads

  /**
   * "<now>-<32 hex digits of 16 random bytes>-<sanitised name>". The
   * sanitising is the storage writer's: characters outside [a-zA-Z0-9.-]
   * become '_', and an empty name becomes "upload_<now>".
   */
  function UniqueFileName(name: string, now: nat, random: seq<byte>): (r: string)
    requires |random| == 16
    ensures StartsWith(r, NatToString(now) + "-")
    ensures EndsWith(r, "-" + SW.SanitizeFileName(name, now))
  {
    NatToString(now) + "-" + HexEncode(random) + "-" + SW.SanitizeFileName(name, now)
  }

  /** Two names that agree were drawn at the same time from the same bytes. */
  lemma UniqueFileNameInjective(n1: string, t1: nat, r1: seq<byte>, n2: string, t2: nat, r2: seq<byte>)
    requires |r1| == 16 && |r2| == 16
    requires UniqueFileName(n1, t1, r1) == UniqueFileName(n2, t2, r2)
    ensures t1 == t2 && r1 == r2 && SW.SanitizeFileName(n1, t1) == SW.SanitizeFileName(n2, t2)
  {
    SW.NamePartsInjective(t1, HexEncode(r1), SW.SanitizeFileName(n1, t1), t2, HexEncode(r2), SW.SanitizeFileName(n2, t2));
    HexEncodeInjective(r1, r2);
  }

  function UserDir(user: string): string
  {
    "s/" + user
  }

  /** The GET of `url_private` with the bot token. */
  function SlackDownload(url: string, botToken: string): Request
  {
    Request(url, map["Authorization" := "Bearer " + botToken])
  }

  /** The bytes of `f`: None when it is over the limit (it is then not fetched), unreachable or not 2xx. */
  function Fetched(f: SlackFile, env: Env): Option<seq<byte>>
  {
    if f.size > MAX_FILE_SIZE then None
    else
      match env.fetch(SlackDownload(f.urlPrivate, env.botToken))
      case Err(_) => None
      case Ok(response) => if IsSuccess(response) then Some(response.body) else None
  }

  /** `file.mimetype || 'application/octet-stream'`: an empty type counts as none. */
  function ContentType(f: SlackFile): (ct: string)
    ensures ct != ""
    ensures f.mimetype.Some? && f.mimetype.value != "" ==> ct == f.mimetype.value
  {
    match f.mimetype
    case Some(t) => if t != "" then t else OCTET_STREAM
    case None => OCTET_STREAM
  }

  /** One 16-byte draw per file. */
  predicate Draws(files: seq<SlackFile>, randoms: seq<seq<byte>>)
  {
    |randoms| == |files| && forall i :: 0 <= i < |randoms| ==> |randoms[i]| == 16
  }

  /** The name of each file, drawn from its random bytes. */
  function Names(files: seq<SlackFile>, now: nat, randoms: seq<seq<byte>>): (names: seq<string>)
    requires Draws(files, randoms)
    ensures |names| == |files|
    ensures forall i :: 0 <= i < |files| ==> names[i] == UniqueFileName(files[i].name, now, randoms[i])
  {
    seq(|files|, i requires 0 <= i < |files| => UniqueFileName(files[i].name, now, randoms[i]))
  }

  /** Pairwise different draws. */
  predicate DistinctDraws(randoms: seq<seq<byte>>)
  {
    forall i, j :: 0 <= i < j < |randoms| ==> randoms[i] != randoms[j]
  }

  predicate Distinct(names: seq<string>)
  {
    forall i, j :: 0 <= i < j < |names| ==> names[i] != names[j]
  }

  /** Different draws give different names, whatever the file names. */
  lemma DistinctDrawsDistinctNames(files: seq<SlackFile>, now: nat, randoms: seq<seq<byte>>)
    requires Draws(files, randoms) && DistinctDraws(randoms)
    ensures Distinct(Names(files, now, randoms))
  {
    var names := Names(files, now, randoms);
    forall i, j | 0 <= i < j < |names|
      ensures names[i] != names[j]
    {
      if names[i] == names[j] {
        UniqueFileNameInjective(files[i].name, now, randoms[i], files[j].name, now, randoms[j]);
      }
    }
  }

  /** The entry a stored file gets: its unique name, its CDN URL and its type. */
  function UploadedAs(f: SlackFile, user: string, env: Env, name: string): Uploaded
  {
    Uploaded(name, SW.FileUrl(env.cdnBase, UserDir(user), name), ContentType(f))
  }

  /** The URL handed out names exactly the key written. */
  lemma UploadedUrlIsKey(f: SlackFile, user: string, env: Env, name: string)
    ensures UploadedAs(f, user, env, name).url == env.cdnBase + "/" + SW.ObjectKey(UserDir(user), name)
  {
  }

  // ---------------------------------------------------------------------
  // One file

  /**
   * The outcome of one file, as intended: a file is uploaded when it was
   * downloaded and the bucket stored it (`stored`).
   */
  function Step(f: SlackFile, user: string, env: Env, name: string, stored: bool): (o: FileOutcome)
    ensures o.Done? <==> Fetched(f, env).Some? && stored
    ensures o.Done? ==> o.file == UploadedAs(f, user, env, name)
    ensures o.Failed? ==> o.name == f.name
  {
    match Fetched(f, env)
    case None => Failed(f.name)
    case Some(_) => if stored then Done(UploadedAs(f, user, env, name)) else Failed(f.name)
  }

  /**
   * The outcome of one file as src/storage.js:119 decides it: `uploadToStorage`
   * returns a boolean, `uploadResult.success` is therefore `undefined`, the
   * test `=== false` never holds, and the file counts as uploaded whether or
   * not the bucket stored it.
   */
  function StepAsWritten(f: SlackFile, user: string, env: Env, name: string, stored: bool): (o: FileOutcome)
    ensures o.Done? <==> Fetched(f, env).Some?
    ensures o.Done? ==> o.file == UploadedAs(f, user, env, name)
  {
    match Fetched(f, env)
    case None => Failed(f.name)
    case Some(_) => Done(UploadedAs(f, user, env, name))
  }

  /**
   * A downloaded file the bucket refused is reported as uploaded, with a
   * link to an object that does not exist, where the intended step reports
   * it as failed.
   */
  lemma StorageFailureReportedAsUploaded(f: SlackFile, user: string, env: Env, name: string)
    requires Fetched(f, env).Some?
    ensures StepAsWritten(f, user, env, name, false) == Done(UploadedAs(f, user, env, name))
    ensures Step(f, user, env, name, false) == Failed(f.name)
  {
  }

  /** With a working bucket the two agree. */
  lemma StepAgreesWhenStored(f: SlackFile, user: string, env: Env, name: string)
    ensures StepAsWritten(f, user, env, name, true) == Step(f, user, env, name, true)
  {
  }

  /** `uploadToStorage`: one `PutObject` with the immutable cache policy; true exactly when it was stored. */
  method UploadToStorage(bucket: Bucket, userDir: string, uniqueFileName: string, body: seq<byte>,
                         contentType: Option<string>) returns (ok: bool)
    modifies bucket
    ensures ok == !old(bucket.NextFails())
    ensures bucket.log == old(bucket.log) + [Call.PutObject(SW.ObjectKey(userDir, uniqueFileName), body,
                                                           SW.ContentTypeOrDefault(contentType), SW.CACHE_CONTROL, |body|)]
    ensures bucket.objects == if ok then old(bucket.objects)[SW.ObjectKey(userDir, uniqueFileName) := body]
                              else old(bucket.objects)
    ensures bucket.pending == old(bucket.pending) && bucket.nextUploadId == old(bucket.nextUploadId)
  {
    ok := bucket.PutObject(SW.ObjectKey(userDir, uniqueFileName), body, SW.ContentTypeOrDefault(contentType),
                           SW.CACHE_CONTROL, |body|);
  }

  /** The `PutObject` request for a downloaded file. */
  function PutOf(f: SlackFile, user: string, name: string, body: seq<byte>): Call
  {
    Call.PutObject(SW.ObjectKey(UserDir(user), name), body, ContentType(f), SW.CACHE_CONTROL, |body|)
  }

  /** One pass of the loop of `processFiles`, with the intended check of the storage result. */
  method ProcessFile(bucket: Bucket, f: SlackFile, user: string, env: Env, now: nat, random: seq<byte>,
                     ghost name: string)
    returns (o: FileOutcome)
    requires |random| == 16 && name == UniqueFileName(f.name, now, random)
    modifies bucket
    ensures bucket.pending == old(bucket.pending) && bucket.nextUploadId == old(bucket.nextUploadId)
    ensures o == Step(f, user, env, name, |old(bucket.log)| !in bucket.faults)
    ensures Fetched(f, env).None? ==> bucket.log == old(bucket.log) && bucket.objects == old(bucket.objects)
    ensures Fetched(f, env).Some? ==>
              var body := Fetched(f, env).value;
              && bucket.log == old(bucket.log) + [PutOf(f, user, name, body)]
              && bucket.objects == if |old(bucket.log)| !in bucket.faults
                                   then old(bucket.objects)[SW.ObjectKey(UserDir(user), name) := body]
                                   else old(bucket.objects)
  {
    if f.size > MAX_FILE_SIZE {
      return Failed(f.name);
    }
    var reply := env.fetch(SlackDownload(f.urlPrivate, env.botToken));
    if reply.Err? || !IsSuccess(reply.value) {
      return Failed(f.name);
    }
    var body := reply.value.body;
    var contentType := ContentType(f);
    var uniqueFileName := UniqueFileName(f.name, now, random);
    var userDir := UserDir(user);
    var ok := UploadToStorage(bucket, userDir, uniqueFileName, body, Some(contentType));
    if !ok {
      return Failed(f.name);
    }
    o := Done(Uploaded(uniqueFileName, SW.FileUrl(env.cdnBase, userDir, uniqueFileName), contentType));
  }

  // ---------------------------------------------------------------------
  // All files of a message

  /** What the loop has produced so far: outcomes, requests sent, and the bucket's objects. */
  datatype Progress = Progress(outcomes: seq<FileOutcome>, log: seq<Call>, objects: map<string, seq<byte>>)

  /**
   * One more file processed after `p`: its request, if it gets that far,
   * goes out at log position `start + |p.log|` and fails exactly when that
   * position is in `faults`.
   */
  function Next(p: Progress, f: SlackFile, user: string, env: Env, name: string, faults: set<nat>, start: nat)
    : (q: Progress)
    ensures q.outcomes == p.outcomes + [Step(f, user, env, name, start + |p.log| !in faults)]
  {
    match Fetched(f, env)
    case None => p.(outcomes := p.outcomes + [Failed(f.name)])
    case Some(body) =>
      var stored := start + |p.log| !in faults;
      Progress(p.outcomes + [Step(f, user, env, name, stored)],
               p.log + [PutOf(f, user, name, body)],
               if stored then p.objects[SW.ObjectKey(UserDir(user), name) := body] else p.objects)
  }

  /**
   * The first `n` files of `msg` processed in order under the names `names`,
   * starting at log position `start` with the objects `objects`.
   */
  function Run(msg: FileMessage, env: Env, names: seq<string>, faults: set<nat>, start: nat,
               objects: map<string, seq<byte>>, n: nat): (p: Progress)
    requires n <= |msg.files| == |names|
    ensures |p.outcomes| == n
  {
    if n == 0 then Progress([], [], objects)
    else Next(Run(msg, env, names, faults, start, objects, n - 1), msg.files[n - 1], msg.user, env, names[n - 1],
              faults, start)
  }

  /** The entries of `uploadedFiles`, in file order. */
  function Uploads(outcomes: seq<FileOutcome>): seq<Uploaded>
  {
    if |outcomes| == 0 then []
    else
      var n := |outcomes| - 1;
      Uploads(outcomes[..n]) + (if outcomes[n].Done? then [outcomes[n].file] else [])
  }

  /** The names in `failedFiles`, in file order. */
  function Failures(outcomes: seq<FileOutcome>): seq<string>
  {
    if |outcomes| == 0 then []
    else
      var n := |outcomes| - 1;
      Failures(outcomes[..n]) + (if outcomes[n].Failed? then [outcomes[n].name] else [])
  }

  /** One more outcome extends exactly one of the two lists. */
  lemma OutcomesAppend(outcomes: seq<FileOutcome>, o: FileOutcome)
    ensures Uploads(outcomes + [o]) == Uploads(outcomes) + (if o.Done? then [o.file] else [])
    ensures Failures(outcomes + [o]) == Failures(outcomes) + (if o.Failed? then [o.name] else [])
  {
    assert (outcomes + [o])[..|outcomes|] == outcomes;
  }

  /** Every file ends up in exactly one of the two lists. */
  lemma {:induction false} UploadsAndFailuresPartition(outcomes: seq<FileOutcome>)
    ensures |Uploads(outcomes)| + |Failures(outcomes)| == |outcomes|
    ensures |Failures(outcomes)| == 0 <==> forall i :: 0 <= i < |outcomes| ==> outcomes[i].Done?
  {
    if |outcomes| > 0 {
      var n := |outcomes| - 1;
      UploadsAndFailuresPartition(outcomes[..n]);
      assert forall i :: 0 <= i < n ==> outcomes[..n][i] == outcomes[i];
    }
  }

  /**
   * File `i` failed under its own name, or was uploaded under the entry its
   * download, name, URL and type determine; a file over the limit always fails.
   */
  lemma {:induction false} RunOutcome(msg: FileMessage, env: Env, names: seq<string>, faults: set<nat>, start: nat,
                                      objects: map<string, seq<byte>>, n: nat, i: nat)
    requires n <= |msg.files| == |names| && i < n
    ensures var o := Run(msg, env, names, faults, start, objects, n).outcomes[i];
            var f := msg.files[i];
            && (o.Failed? ==> o.name == f.name)
            && (o.Done? ==> Fetched(f, env).Some? && o.file == UploadedAs(f, msg.user, env, names[i]))
            && (Fetched(f, env).None? ==> o == Failed(f.name))
            && (f.size > MAX_FILE_SIZE ==> o == Failed(f.name))
  {
    var prior := Run(msg, env, names, faults, start, objects, n - 1);
    if i < n - 1 {
      RunOutcome(msg, env, names, faults, start, objects, n - 1, i);
      assert Run(msg, env, names, faults, start, objects, n).outcomes[i] == prior.outcomes[i];
    }
  }

  /** Within one directory, different names give different keys. */
  lemma ObjectKeyInjective(dir: string, a: string, b: string)
    ensures SW.ObjectKey(dir, a) == SW.ObjectKey(dir, b) ==> a == b
  {
    assert a == SW.ObjectKey(dir, a)[|dir| + 1..];
    assert b == SW.ObjectKey(dir, b)[|dir| + 1..];
  }

  /**
   * With the intended check, every file reported as uploaded is in the bucket
   * under its key with the bytes Slack served, provided no two files share a
   * name.
   */
  lemma {:induction false} UploadedFilesAreStored(msg: FileMessage, env: Env, names: seq<string>, faults: set<nat>,
                                                  start: nat, objects: map<string, seq<byte>>, n: nat, i: nat)
    requires n <= |msg.files| == |names| && Distinct(names) && i < n
    requires Run(msg, env, names, faults, start, objects, n).outcomes[i].Done?
    ensures Fetched(msg.files[i], env).Some?
    ensures var key := SW.ObjectKey(UserDir(msg.user), names[i]);
            var p := Run(msg, env, names, faults, start, objects, n);
            key in p.objects && p.objects[key] == Fetched(msg.files[i], env).value
  {
    var prior := Run(msg, env, names, faults, start, objects, n - 1);
    if i < n - 1 {
      assert prior.outcomes[i].Done?;
      UploadedFilesAreStored(msg, env, names, faults, start, objects, n - 1, i);
      ObjectKeyInjective(UserDir(msg.user), names[i], names[n - 1]);
    }
  }

  /**
   * The loop body of `processFiles`: one file processed as `Next` says, its
   * outcome appended to the list of uploads or of failures.
   */
  method ProcessNext(bucket: Bucket, f: SlackFile, user: string, env: Env, now: nat, random: seq<byte>,
                     ghost name: string, ghost p: Progress, ghost log0: seq<Call>,
                     uploaded: seq<Uploaded>, failed: seq<string>)
    returns (uploaded': seq<Uploaded>, failed': seq<string>)
    requires |random| == 16 && name == UniqueFileName(f.name, now, random)
    requires bucket.log == log0 + p.log && bucket.objects == p.objects
    requires uploaded == Uploads(p.outcomes) && failed == Failures(p.outcomes)
    modifies bucket
    ensures var q := Next(p, f, user, env, name, bucket.faults, |log0|);
            && uploaded' == Uploads(q.outcomes) && failed' == Failures(q.outcomes)
            && bucket.log == log0 + q.log && bucket.objects == q.objects
    ensures bucket.pending == old(bucket.pending) && bucket.nextUploadId == old(bucket.nextUploadId)
  {
    var o := ProcessFile(bucket, f, user, env, now, random, name);
    NextState(p, f, user, env, name, bucket.faults, log0, bucket.log, bucket.objects);
    ghost var q := Next(p, f, user, env, name, bucket.faults, |log0|);
    assert q.outcomes == p.outcomes + [o];
    OutcomesAppend(p.outcomes, o);
    if o.Done? {
      uploaded', failed' := uploaded + [o.file], failed;
    } else {
      uploaded', failed' := uploaded, failed + [o.name];
    }
  }

  /** The requests and objects `ProcessFile` leaves after `p` are those of `Next`. */
  lemma NextState(p: Progress, f: SlackFile, user: string, env: Env, name: string, faults: set<nat>,
                  log0: seq<Call>, log: seq<Call>, objects: map<string, seq<byte>>)
    requires Fetched(f, env).None? ==> log == log0 + p.log && objects == p.objects
    requires Fetched(f, env).Some? ==>
               var body := Fetched(f, env).value;
               && log == (log0 + p.log) + [PutOf(f, user, name, body)]
               && objects == if |log0 + p.log| !in faults then p.objects[SW.ObjectKey(UserDir(user), name) := body]
                             else p.objects
    ensures var q := Next(p, f, user, env, name, faults, |log0|);
            log == log0 + q.log && objects == q.objects
  {
    if Fetched(f, env).Some? {
      var put := PutOf(f, user, name, Fetched(f, env).value);
      assert (log0 + p.log) + [put] == log0 + (p.log + [put]);
    }
  }

  // ---------------------------------------------------------------------
  // The answer in the thread and the final reaction

  /** "• name: url" with a real U+2022 bullet. */
  function LinkLine(u: Uploaded): string
  {
    "\U{2022} " + u.name + ": " + u.url
  }

  function LinkLines(uploaded: seq<Uploaded>): (lines: seq<string>)
    ensures |lines| == |uploaded|
    ensures forall i :: 0 <= i < |uploaded| ==> lines[i] == LinkLine(uploaded[i])
  {
    seq(|uploaded|, i requires 0 <= i < |uploaded| => LinkLine(uploaded[i]))
  }

  /** "here is your link:" or "here are your links:". */
  function Announcement(linkCount: nat): string
  {
    "here " + (if linkCount == 1 then "is your link" else "are your links") + ":"
  }

  /** The first line: the greeting, and the announcement of the links when there are any. */
  function Greeting(user: string, linkCount: nat): string
  {
    "Hey <@" + user + ">, " + if linkCount > 0 then Announcement(linkCount) else ""
  }

  function FailureLine(failed: seq<string>): string
  {
    "Failed to process: " + Join(failed, ", ")
  }

  /** `sendResultsMessage`'s text, built by appending as the source does. */
  function ResultsText(user: string, uploaded: seq<Uploaded>, failed: seq<string>): string
  {
    var text := "Hey <@" + user + ">, ";
    var text := if |uploaded| > 0
                then text + Announcement(|uploaded|) + "\n" + Join(LinkLines(uploaded), "\n")
                else text;
    if |failed| > 0 then text + "\n\n" + FailureLine(failed) else text
  }

  /** The lines of the answer: greeting, one link per upload, then a blank line and the failures. */
  function ResultsLines(user: string, uploaded: seq<Uploaded>, failed: seq<string>): seq<string>
  {
    [Greeting(user, |uploaded|)] + LinkLines(uploaded)
    + if |failed| > 0 then ["", FailureLine(failed)] else []
  }

  /** Without failures, the text is the greeting and the link lines joined with line breaks. */
  lemma LinksTextIsLines(user: string, uploaded: seq<Uploaded>)
    ensures ResultsText(user, uploaded, []) == Join([Greeting(user, |uploaded|)] + LinkLines(uploaded), "\n")
  {
    var g := Greeting(user, |uploaded|);
    var links := LinkLines(uploaded);
    assert Join([g], "\n") == g;
    if |uploaded| > 0 {
      JoinConcat([g], links, "\n");
    } else {
      assert [g] + links == [g];
    }
  }

  /** With failures, the text and the lines both end in a blank line and the failure line. */
  lemma FailuresAppended(user: string, uploaded: seq<Uploaded>, failed: seq<string>)
    requires |failed| > 0
    ensures ResultsText(user, uploaded, failed) == ResultsText(user, uploaded, []) + "\n" + ("\n" + FailureLine(failed))
    ensures ResultsLines(user, uploaded, failed) == ResultsLines(user, uploaded, []) + ["", FailureLine(failed)]
  {
  }

  /** The appended text is the lines joined with line breaks. */
  lemma ResultsTextIsLines(user: string, uploaded: seq<Uploaded>, failed: seq<string>)
    ensures ResultsText(user, uploaded, failed) == Join(ResultsLines(user, uploaded, failed), "\n")
  {
    var head := [Greeting(user, |uploaded|)] + LinkLines(uploaded);
    LinksTextIsLines(user, uploaded);
    if |failed| > 0 {
      var f := FailureLine(failed);
      FailuresAppended(user, uploaded, failed);
      assert Join(["", f], "\n") == "\n" + f by {
        assert ["", f][1..] == [f];
      }
      JoinConcat(head, ["", f], "\n");
    } else {
      assert ResultsLines(user, uploaded, failed) == head;
    }
  }

  predicate SingleLines(lines: seq<string>)
  {
    forall i :: 0 <= i < |lines| ==> '\n' !in lines[i]
  }

  lemma SingleLinesConcat(a: seq<string>, b: seq<string>)
    requires SingleLines(a) && SingleLines(b)
    ensures SingleLines(a + b)
  {
    forall i | 0 <= i < |a + b|
      ensures '\n' !in (a + b)[i]
    {
      if i >= |a| {
        assert (a + b)[i] == b[i - |a|];
      }
    }
  }

  lemma GreetingSingle(user: string, linkCount: nat)
    requires '\n' !in user
    ensures SingleLines([Greeting(user, linkCount)])
  {
    assert '\n' !in Announcement(linkCount);
  }

  lemma LinkLinesSingle(uploaded: seq<Uploaded>)
    requires forall i :: 0 <= i < |uploaded| ==> '\n' !in uploaded[i].name && '\n' !in uploaded[i].url
    ensures SingleLines(LinkLines(uploaded))
  {
    var links := LinkLines(uploaded);
    forall i | 0 <= i < |links|
      ensures '\n' !in links[i]
    {
      assert links[i] == "\U{2022} " + uploaded[i].name + ": " + uploaded[i].url;
    }
  }

  lemma FailureLineSingle(failed: seq<string>)
    requires SingleLines(failed)
    ensures SingleLines(["", FailureLine(failed)])
  {
    JoinFree(failed, ", ", '\n');
  }

  /**
   * When no user id, name, URL or failed name holds a line break, the
   * answer splits back into its lines: one link line per upload, in order.
   */
  lemma ResultsTextReadBack(user: string, uploaded: seq<Uploaded>, failed: seq<string>)
    requires '\n' !in user
    requires forall i :: 0 <= i < |uploaded| ==> '\n' !in uploaded[i].name && '\n' !in uploaded[i].url
    requires SingleLines(failed)
    ensures Split(ResultsText(user, uploaded, failed), "\n") == ResultsLines(user, uploaded, failed)
  {
    ResultsTextIsLines(user, uploaded, failed);
    var links := LinkLines(uploaded);
    GreetingSingle(user, |uploaded|);
    LinkLinesSingle(uploaded);
    SingleLinesConcat([Greeting(user, |uploaded|)], links);
    if |failed| > 0 {
      FailureLineSingle(failed);
      SingleLinesConcat([Greeting(user, |uploaded|)] + links, ["", FailureLine(failed)]);
    } else {
      assert ResultsLines(user, uploaded, failed) == [Greeting(user, |uploaded|)] + links;
    }
    SplitJoin(ResultsLines(user, uploaded, failed), '\n');
  }

  /** `success ? 'white_check_mark' : 'x'`, with success meaning that no file failed. */
  function Reaction(failed: seq<string>): string
  {
    if |failed| == 0 then "white_check_mark" else "x"
  }

  /** The check mark is given exactly when every file was uploaded. */
  lemma CheckMarkIffAllUploaded(outcomes: seq<FileOutcome>)
    ensures Reaction(Failures(outcomes)) == "white_check_mark" <==> forall i :: 0 <= i < |outcomes| ==> outcomes[i].Done?
    ensures Reaction(Failures(outcomes)) != "white_check_mark" ==> Reaction(Failures(outcomes)) == "x"
  {
    UploadsAndFailuresPartition(outcomes);
  }

  /** The Slack calls for a message that is processed. */
  function Conversation(channel: string, m: FileMessage, uploaded: seq<Uploaded>, failed: seq<string>): seq<SlackCall>
  {
    [AddReaction("beachball", m.ts, channel)]
    + [PostMessage(channel, m.ts, ResultsText(m.user, uploaded, failed))]
    + [RemoveReaction("beachball", m.ts, channel), AddReaction(Reaction(failed), m.ts, channel)]
  }

  /** The calls `handleFileUpload` makes one after another add up to `Conversation`. */
  lemma ConversationSteps(s0: seq<SlackCall>, channel: string, m: FileMessage, uploaded: seq<Uploaded>, failed: seq<string>)
    ensures s0 + [AddReaction("beachball", m.ts, channel)] + [PostMessage(channel, m.ts, ResultsText(m.user, uploaded, failed))]
            + [RemoveReaction("beachball", m.ts, channel), AddReaction(Reaction(failed), m.ts, channel)]
            == s0 + Conversation(channel, m, uploaded, failed)
  {
  }

  /** The cases in which `handleFileUpload` returns without doing anything. */
  predicate Skips(eventMs: Option<real>, nowMs: nat, found: Option<FileMessage>, processed: set<string>)
  {
    TooOld(eventMs, nowMs, MAX_AGE_MS) || found.None? || found.value.ts in processed
  }

  /** The relay process: the messages it has taken on, and what it has said on Slack. */
  class Relay {
    /** `processedMessages`: never emptied, so a message is taken on at most once. */
    var processed: set<string>
    var slack: seq<SlackCall>
    const bucket: Bucket
    const env: Env

    constructor (bucket: Bucket, env: Env)
      ensures processed == {} && slack == [] && this.bucket == bucket && this.env == env
    {
      processed := {};
      slack := [];
      this.bucket := bucket;
      this.env := env;
    }

    predicate IsMessageProcessed(ts: string)
      reads this
    {
      ts in processed
    }

    method MarkMessageAsProcessing(ts: string)
      modifies this
      ensures processed == old(processed) + {ts} && IsMessageProcessed(ts)
      ensures slack == old(slack)
    {
      processed := processed + {ts};
    }

    /**
     * `processFiles` with the intended check of the storage result: the
     * files in order, each failed or uploaded as `Run` says.
     */
    method ProcessFiles(msg: FileMessage, now: nat, randoms: seq<seq<byte>>)
      returns (uploaded: seq<Uploaded>, failed: seq<string>)
      requires Draws(msg.files, randoms)
      modifies bucket
      ensures var p := Run(msg, env, Names(msg.files, now, randoms), bucket.faults, |old(bucket.log)|,
                           old(bucket.objects), |msg.files|);
              && uploaded == Uploads(p.outcomes) && failed == Failures(p.outcomes)
              && bucket.log == old(bucket.log) + p.log && bucket.objects == p.objects
      ensures bucket.pending == old(bucket.pending) && bucket.nextUploadId == old(bucket.nextUploadId)
    {
      ghost var log0, objects0 := bucket.log, bucket.objects;
      ghost var names := Names(msg.files, now, randoms);
      ghost var p := Run(msg, env, names, bucket.faults, |log0|, objects0, 0);
      assert forall j :: 0 <= j < |msg.files| ==> |randoms[j]| == 16 && names[j] == UniqueFileName(msg.files[j].name, now, randoms[j]);
      uploaded, failed := [], [];
      var i := 0;
      while i < |msg.files|
        invariant i <= |msg.files|
        invariant p == Run(msg, env, names, bucket.faults, |log0|, objects0, i)
        invariant uploaded == Uploads(p.outcomes) && failed == Failures(p.outcomes)
        invariant bucket.log == log0 + p.log && bucket.objects == p.objects
        invariant forall j :: 0 <= j < |msg.files| ==> |randoms[j]| == 16 && names[j] == UniqueFileName(msg.files[j].name, now, randoms[j])
        invariant bucket.pending == old(bucket.pending) && bucket.nextUploadId == old(bucket.nextUploadId)
      {
        uploaded, failed := ProcessNext(bucket, msg.files[i], msg.user, env, now, randoms[i], names[i], p, log0,
                                        uploaded, failed);
        p := Next(p, msg.files[i], msg.user, env, names[i], bucket.faults, |log0|);
        i := i + 1;
      }
    }

    /**
     * The part of `handleFileUpload` after its guards: mark the message, put
     * the hourglass on it, upload its files, answer in its thread and set the
     * final reaction.
     */
    method TakeOn(channel: string, m: FileMessage, nowMs: nat, randoms: seq<seq<byte>>)
      requires Draws(m.files, randoms)
      modifies this, bucket
      ensures bucket.pending == old(bucket.pending) && bucket.nextUploadId == old(bucket.nextUploadId)
      ensures var p := Run(m, env, Names(m.files, nowMs, randoms), bucket.faults, |old(bucket.log)|,
                           old(bucket.objects), |m.files|);
              && processed == old(processed) + {m.ts}
              && bucket.log == old(bucket.log) + p.log && bucket.objects == p.objects
              && slack == old(slack) + Conversation(channel, m, Uploads(p.outcomes), Failures(p.outcomes))
    {
      MarkMessageAsProcessing(m.ts);
      ghost var s0 := slack;
      slack := slack + [AddReaction("beachball", m.ts, channel)];
      var uploaded, failed := ProcessFiles(m, nowMs, randoms);
      slack := slack + [PostMessage(channel, m.ts, ResultsText(m.user, uploaded, failed))];
      slack := slack + [RemoveReaction("beachball", m.ts, channel), AddReaction(Reaction(failed), m.ts, channel)];
      ConversationSteps(s0, channel, m, uploaded, failed);
    }

    /**
     * `handleFileUpload` for the event of one shared file. `found` is what
     * `findFileMessage` returns (None for null); `randoms` are the draws for
     * the files of that message.
     */
    method HandleFileUpload(channel: string, eventMs: Option<real>, nowMs: nat, found: Option<FileMessage>,
                            randoms: seq<seq<byte>>)
      requires found.Some? ==> Draws(found.value.files, randoms)
      modifies this, bucket
      ensures bucket.pending == old(bucket.pending) && bucket.nextUploadId == old(bucket.nextUploadId)
      ensures Skips(eventMs, nowMs, found, old(processed)) ==>
                && processed == old(processed) && slack == old(slack)
                && bucket.log == old(bucket.log) && bucket.objects == old(bucket.objects)
      ensures !Skips(eventMs, nowMs, found, old(processed)) ==>
                var m := found.value;
                var p := Run(m, env, Names(m.files, nowMs, randoms), bucket.faults, |old(bucket.log)|,
                             old(bucket.objects), |m.files|);
                && processed == old(processed) + {m.ts}
                && bucket.log == old(bucket.log) + p.log && bucket.objects == p.objects
                && slack == old(slack) + Conversation(channel, m, Uploads(p.outcomes), Failures(p.outcomes))
    {
      if TooOld(eventMs, nowMs, MAX_AGE_MS) {
        return;
      }
      if found.None? || IsMessageProcessed(found.value.ts) {
        return;
      }
      TakeOn(channel, found.value, nowMs, randoms);
    }
  }
}
