/**
 * src/config/messages.js: the texts the Slack relay answers with. The
 * constant tables are copied as written; every `Math.random()` pick is a
 * draw parameter (an index, taken modulo the table's length). The success
 * message is built by a method that fills the ordered map of groups and the
 * list of lines the way the source's loops do, and is proved against the
 * specification function `SuccessLines`.
 */
module SlackMessages {
  import opened Common
  import opened Grouping

  // ---------------------------------------------------------------------
  // Tables

  /** The headers "Hey <@{userId}>, here's your link:" and "Hey <@{userId}>, here are your links:". */
  const HEADER_START: string := "Hey <@"
  const USER_ID_SLOT: string := "{userId}"
  const SINGLE_FILE: string := HEADER_START + USER_ID_SLOT + ">, here's your link:"
  const MULTIPLE_FILES: string := HEADER_START + USER_ID_SLOT + ">, here are your links:"

  const ALTERNATE_SUCCESS: seq<string> := [
    "thanks!",
    "thanks, i'm gonna sell these to adfly!",
    "tysm!",
    "file away!"
  ]

  const TOO_BIG_MESSAGES: seq<string> := [
    "File too big!",
    "That's a chonky file!",
    "_orpheus struggles to lift the massive file_",
    "Sorry, that file's too thicc for me to handle!"
  ]

  const TOO_BIG_IMAGES: seq<string> := [
    "https://cloud-3tq9t10za-hack-club-bot.vercel.app/2too_big_4.png",
    "https://cloud-3tq9t10za-hack-club-bot.vercel.app/3too_big_2.png",
    "https://cloud-3tq9t10za-hack-club-bot.vercel.app/4too_big_1.png",
    "https://cloud-3tq9t10za-hack-club-bot.vercel.app/6too_big_5.png",
    "https://cloud-3tq9t10za-hack-club-bot.vercel.app/7too_big_3.png"
  ]

  const GENERIC_MESSAGES: seq<string> := [
    "_orpheus sneezes and drops the files on the ground before blowing her nose on a blank jpeg._",
    "_orpheus trips and your files slip out of her hands and into an inconveniently placed sewer grate._",
    "_orpheus accidentally slips the files into a folder in her briefcase labeled \"homework\". she starts sweating profusely._"
  ]

  const GENERIC_IMAGES: seq<string> := [
    "https://cloud-3tq9t10za-hack-club-bot.vercel.app/0generic_3.png",
    "https://cloud-3tq9t10za-hack-club-bot.vercel.app/1generic_2.png",
    "https://cloud-3tq9t10za-hack-club-bot.vercel.app/5generic_1.png"
  ]

  /** The group key of files whose extension has no message. */
  const NO_TYPE: string := "noType"

  /**
   * The bullet in front of each link as the source spells it: the UTF-8
   * bytes of U+2022 read back as Windows-1252 ("â€¢").
   */
  const BULLET: string := "\U{00E2}\U{20AC}\U{00A2}"

  /** `messages.fileTypes[ext]`: the quips for the five known extensions. */
  function FileTypeMessages(ext: string): (quips: Option<seq<string>>)
    ensures quips.Some? ==> |quips.value| > 0
    ensures quips.Some? <==> ext in {"gif", "heic", "mov", "html", "rar"}
  {
    if ext == "gif" then Some([
      "_gif_ that file to me and i'll upload it",
      "_gif_ me all all your files!"])
    else if ext == "heic" then Some(["What the heic???"])
    else if ext == "mov" then Some(["I'll _mov_ that to a permanent link for you"])
    else if ext == "html" then Some([
      "Oh, launching a new website?",
      "uwu, what's this site?",
      "WooOOAAah hey! Are you serving a site?",
      "h-t-m-ello :wave:"])
    else if ext == "rar" then Some([
      ".rawr xD",
      "i also go \"rar\" sometimes!"])
    else None
  }

  // ---------------------------------------------------------------------
  // Random picks

  /** `getRandomItem`: the element the draw `r` selects. */
  function RandomItem<T>(items: seq<T>, r: nat): (x: T)
    requires |items| > 0
    ensures x in items
  {
    items[r % |items|]
  }

  /** Every element can be drawn. */
  lemma RandomItemReachesAll<T>(items: seq<T>, i: nat)
    requires i < |items|
    ensures RandomItem(items, i) == items[i]
  {
    SmallMod(i, |items|);
  }

  /** `getFileTypeMessage`: a quip for a known extension, compared case-insensitively; null otherwise. */
  function FileTypeMessage(ext: string, r: nat): (m: Option<string>)
    ensures m.Some? <==> FileTypeMessages(LowerAscii(ext)).Some?
    ensures m.Some? ==> m.value in FileTypeMessages(LowerAscii(ext)).value
  {
    match FileTypeMessages(LowerAscii(ext))
    case None => None
    case Some(quips) => Some(RandomItem(quips, r))
  }

  /** Upper- and lower-case spellings of an extension get the same answer. */
  lemma FileTypeMessageIgnoresCase(ext: string, r: nat)
    ensures FileTypeMessage(ext, r) == FileTypeMessage(LowerAscii(ext), r)
  {
    LowerAsciiIdempotent(ext);
  }

  /** No quip is the literal "noType", so that group holds exactly the files without a quip. */
  lemma QuipIsNeverNoType(ext: string, r: nat)
    ensures FileTypeMessage(ext, r) != Some(NO_TYPE)
  {
  }

  // ---------------------------------------------------------------------
  // The error message

  /** The two draws `formatErrorMessage` makes: the message, then the image. */
  datatype ErrorDraws = ErrorDraws(message: nat, image: nat)

  function ErrorTexts(isSizeError: bool): (texts: seq<string>)
    ensures |texts| > 0
  {
    if isSizeError then TOO_BIG_MESSAGES else GENERIC_MESSAGES
  }

  function ErrorImages(isSizeError: bool): (images: seq<string>)
    ensures |images| > 0
  {
    if isSizeError then TOO_BIG_IMAGES else GENERIC_IMAGES
  }

  /** The Slack link markup `<url|image>` the relay turns into an attachment. */
  function ImageLine(url: string): string
  {
    "<" + url + "|image>"
  }

  predicate NoNewline(s: string)
  {
    '\n' !in s
  }

  predicate NoNewlines(names: seq<string>)
  {
    forall i :: 0 <= i < |names| ==> NoNewline(names[i])
  }

  /** The four lines of `formatErrorMessage` once the text and the image are drawn. */
  function ErrorLines(text: string, failedFiles: seq<string>, image: string): seq<string>
  {
    [text, "Failed files: " + Join(failedFiles, ", "), "", ImageLine(image)]
  }

  /** The joined error lines always span several lines. */
  lemma ErrorLinesJoinedBreak(text: string, failedFiles: seq<string>, image: string)
    ensures '\n' in Join(ErrorLines(text, failedFiles, image), "\n")
  {
    var lines := ErrorLines(text, failedFiles, image);
    assert Join(lines, "\n") == text + "\n" + Join(lines[1..], "\n");
    assert Join(lines, "\n")[|text|] == '\n';
  }

  /** Split back at line breaks, the joined error lines are the four lines again. */
  lemma ErrorLinesReadBack(text: string, failedFiles: seq<string>, image: string)
    requires NoNewline(text) && NoNewline(image) && NoNewlines(failedFiles)
    ensures Split(Join(ErrorLines(text, failedFiles, image), "\n"), "\n") == ErrorLines(text, failedFiles, image)
  {
    var lines := ErrorLines(text, failedFiles, image);
    JoinFree(failedFiles, ", ", '\n');
    assert '\n' !in "Failed files: ";
    assert '\n' !in lines[3] by {
      assert lines[3] == "<" + image + "|image>";
    }
    forall i | 0 <= i < 4
      ensures '\n' !in lines[i]
    {
    }
    SplitJoin(lines, '\n');
  }

  /** `formatErrorMessage`: the drawn text, the failed names, an empty line and the drawn image, joined. */
  function FormatErrorMessage(failedFiles: seq<string>, isSizeError: bool, d: ErrorDraws): (m: string)
    ensures '\n' in m
  {
    var text := RandomItem(ErrorTexts(isSizeError), d.message);
    var image := RandomItem(ErrorImages(isSizeError), d.image);
    ErrorLinesJoinedBreak(text, failedFiles, image);
    Join(ErrorLines(text, failedFiles, image), "\n")
  }

  /**
   * Read back line by line, the error message is exactly the drawn text,
   * "Failed files: a, b", an empty line and the drawn image, both from the
   * size table when `isSizeError` and from the generic one otherwise, for
   * file names and table entries without line breaks.
   */
  lemma FormatErrorMessageLines(failedFiles: seq<string>, isSizeError: bool, d: ErrorDraws)
    requires NoNewlines(failedFiles)
    requires NoNewlines(ErrorTexts(isSizeError)) && NoNewlines(ErrorImages(isSizeError))
    ensures var lines := Split(FormatErrorMessage(failedFiles, isSizeError, d), "\n");
            |lines| == 4
            && lines[0] == RandomItem(ErrorTexts(isSizeError), d.message)
            && lines[1] == "Failed files: " + Join(failedFiles, ", ")
            && lines[2] == ""
            && lines[3] == ImageLine(RandomItem(ErrorImages(isSizeError), d.image))
  {
    var text := RandomItem(ErrorTexts(isSizeError), d.message);
    var image := RandomItem(ErrorImages(isSizeError), d.image);
    ErrorLinesReadBack(text, failedFiles, image);
  }

  // ---------------------------------------------------------------------
  // The success message: specification

  /** An uploaded file as the relay records it. */
  datatype UploadedFile = UploadedFile(name: string, originalName: string, url: string, contentType: Option<string>)

  /** The draws `formatSuccessMessage` makes: one quip per file, the two error blocks, the closing line. */
  datatype Draws = Draws(quips: seq<nat>, sizeError: ErrorDraws, genericError: ErrorDraws, closing: nat)

  /** `originalName.split('.').pop()`: the text after the last dot, or the whole name. */
  function Extension(originalName: string): string
  {
    AfterLast(originalName, '.')
  }

  /** `typeMessage || 'noType'`. */
  function GroupKey(f: UploadedFile, r: nat): string
  {
    match FileTypeMessage(Extension(f.originalName), r)
    case Some(quip) => quip
    case None => NO_TYPE
  }

  /** The group key of every file. */
  function Keys(files: seq<UploadedFile>, quips: seq<nat>): (keys: seq<string>)
    requires |quips| == |files|
    ensures |keys| == |files|
    ensures forall i :: 0 <= i < |files| ==> keys[i] == GroupKey(files[i], quips[i])
  {
    seq(|files|, i requires 0 <= i < |files| => GroupKey(files[i], quips[i]))
  }

  /** "• originalName: url", with the bullet as the source spells it. */
  function BulletLine(f: UploadedFile): string
  {
    BULLET + " " + f.originalName + ": " + f.url
  }

  function Bullets(files: seq<UploadedFile>): (lines: seq<string>)
    ensures |lines| == |files|
    ensures forall i :: 0 <= i < |files| ==> lines[i] == BulletLine(files[i])
  {
    seq(|files|, i requires 0 <= i < |files| => BulletLine(files[i]))
  }

  /** One group: an empty line and the quip unless it is the "noType" group, then its bullets. */
  function GroupBlock(k: string, members: seq<UploadedFile>): seq<string>
  {
    (if k != NO_TYPE then ["", k] else []) + Bullets(members)
  }

  /** The blocks of the groups listed in `order`, one after the other. */
  function GroupLines(order: seq<string>, files: seq<UploadedFile>, keys: seq<string>): seq<string>
    requires |files| == |keys|
  {
    if |order| == 0 then []
    else
      var n := |order| - 1;
      GroupLines(order[..n], files, keys) + GroupBlock(order[n], Members(files, keys, order[n]))
  }

  /** The header with `{userId}` filled in: the singular form for exactly one file. */
  function Header(userId: string, fileCount: nat): (h: string)
    ensures h == HEADER_START + userId + (if fileCount == 1 then ">, here's your link:" else ">, here are your links:")
  {
    ReplaceFirstAt(HEADER_START, USER_ID_SLOT, ">, here's your link:", userId);
    ReplaceFirstAt(HEADER_START, USER_ID_SLOT, ">, here are your links:", userId);
    ReplaceFirst(if fileCount == 1 then SINGLE_FILE else MULTIPLE_FILES, USER_ID_SLOT, userId)
  }

  function ErrorBlock(names: seq<string>, isSizeError: bool, d: ErrorDraws): seq<string>
  {
    if |names| > 0 then [FormatErrorMessage(names, isSizeError, d)] else []
  }

  function ClosingLine(r: nat): string
  {
    "_" + RandomItem(ALTERNATE_SUCCESS, r) + "_"
  }

  function Closing(fileCount: nat, r: nat): seq<string>
  {
    if fileCount > 0 then ["", ClosingLine(r)] else []
  }

  /** The entries of `messageLines` that `formatSuccessMessage` joins with line breaks. */
  function SuccessLines(userId: string, files: seq<UploadedFile>, failedFiles: seq<string>,
                        sizeFailedFiles: seq<string>, d: Draws): (lines: seq<string>)
    requires |d.quips| == |files|
    ensures |lines| >= 2 && lines[0] == Header(userId, |files|) && lines[1] == ""
  {
    var keys := Keys(files, d.quips);
    [Header(userId, |files|), ""]
    + GroupLines(Dedupe(keys), files, keys)
    + ErrorBlock(sizeFailedFiles, true, d.sizeError)
    + ErrorBlock(failedFiles, false, d.genericError)
    + Closing(|files|, d.closing)
  }

  // ---------------------------------------------------------------------
  // The success message: properties

  /** The header names the user and is singular exactly for one file; an empty line follows it. */
  lemma SuccessHeader(userId: string, files: seq<UploadedFile>, failedFiles: seq<string>,
                      sizeFailedFiles: seq<string>, d: Draws)
    requires |d.quips| == |files|
    ensures var lines := SuccessLines(userId, files, failedFiles, sizeFailedFiles, d);
            |lines| >= 2 && lines[1] == ""
            && lines[0] == HEADER_START + userId + (if |files| == 1 then ">, here's your link:" else ">, here are your links:")
  {
  }

  /** A member of a listed group gets its bullet line. */
  lemma {:induction false} GroupLinesListMember(order: seq<string>, files: seq<UploadedFile>, keys: seq<string>,
                                                p: nat, f: UploadedFile)
    requires |files| == |keys| && p < |order|
    requires f in Members(files, keys, order[p])
    ensures BulletLine(f) in GroupLines(order, files, keys)
  {
    var n := |order| - 1;
    if p < n {
      GroupLinesListMember(order[..n], files, keys, p, f);
    } else {
      var members := Members(files, keys, order[n]);
      var i :| 0 <= i < |members| && members[i] == f;
      assert Bullets(members)[i] == BulletLine(f);
    }
  }

  /** Whatever the keys, the group lines hold a bullet line for every file. */
  lemma GroupLinesListEveryFile(files: seq<UploadedFile>, keys: seq<string>, i: nat)
    requires |files| == |keys| && i < |files|
    ensures BulletLine(files[i]) in GroupLines(Dedupe(keys), files, keys)
  {
    var order := Dedupe(keys);
    DedupeElements(keys);
    assert keys[i] in keys;
    assert keys[i] in order;
    var p :| 0 <= p < |order| && order[p] == keys[i];
    MembersContainFile(files, keys, i);
    GroupLinesListMember(order, files, keys, p, files[i]);
  }

  /** Every uploaded file appears as a bullet line with its original name and URL. */
  lemma EveryFileListed(userId: string, files: seq<UploadedFile>, failedFiles: seq<string>,
                        sizeFailedFiles: seq<string>, d: Draws, i: nat)
    requires |d.quips| == |files| && i < |files|
    ensures BulletLine(files[i]) in SuccessLines(userId, files, failedFiles, sizeFailedFiles, d)
  {
    var keys := Keys(files, d.quips);
    GroupLinesListEveryFile(files, keys, i);
  }

  /** The last character of a join is that of its last part, when that part is not empty. */
  lemma {:induction false} JoinEndsLikeLastPart(parts: seq<string>, sep: string)
    requires |parts| > 0 && |parts[|parts| - 1]| > 0
    ensures var j := Join(parts, sep);
            |j| > 0 && j[|j| - 1] == parts[|parts| - 1][|parts[|parts| - 1]| - 1]
  {
    if |parts| > 1 {
      JoinEndsLikeLastPart(parts[1..], sep);
    }
  }

  /** The closing flavour line ends with the closing underscore of its italics. */
  lemma ClosingLineEnd(r: nat)
    ensures var c := ClosingLine(r); |c| > 0 && c[|c| - 1] == '_'
  {
  }

  /** Both forms of the header end with a colon. */
  lemma HeaderEnd(userId: string, n: nat)
    ensures var h := Header(userId, n); |h| > 0 && h[|h| - 1] == ':'
  {
  }

  /** An error message ends with the `>` of its image line. */
  lemma ErrorMessageEnd(failedFiles: seq<string>, isSizeError: bool, d: ErrorDraws)
    ensures var m := FormatErrorMessage(failedFiles, isSizeError, d); |m| > 0 && m[|m| - 1] == '>'
  {
    var text := RandomItem(ErrorTexts(isSizeError), d.message);
    var image := RandomItem(ErrorImages(isSizeError), d.image);
    JoinEndsLikeLastPart(ErrorLines(text, failedFiles, image), "\n");
  }

  /**
   * The closing flavour line closes the message when a file was uploaded and
   * appears nowhere otherwise.
   */
  lemma ClosingLineIffUploads(userId: string, files: seq<UploadedFile>, failedFiles: seq<string>,
                              sizeFailedFiles: seq<string>, d: Draws)
    requires |d.quips| == |files|
    ensures var lines := SuccessLines(userId, files, failedFiles, sizeFailedFiles, d);
            |files| > 0 ==> |lines| >= 2 && lines[|lines| - 2..] == ["", ClosingLine(d.closing)]
    ensures |files| == 0 ==>
              forall r :: ClosingLine(r) !in SuccessLines(userId, files, failedFiles, sizeFailedFiles, d)
  {
    if |files| == 0 {
      var lines := SuccessLines(userId, files, failedFiles, sizeFailedFiles, d);
      var sizeBlock := ErrorBlock(sizeFailedFiles, true, d.sizeError);
      var genericBlock := ErrorBlock(failedFiles, false, d.genericError);
      assert Keys(files, d.quips) == [];
      assert lines == [Header(userId, 0), ""] + sizeBlock + genericBlock;
      HeaderEnd(userId, 0);
      ErrorMessageEnd(sizeFailedFiles, true, d.sizeError);
      ErrorMessageEnd(failedFiles, false, d.genericError);
      forall r | true
        ensures ClosingLine(r) !in lines
      {
        ClosingLineEnd(r);
      }
    }
  }

  // ---------------------------------------------------------------------
  // The success message: the method

  /** `groupFiles.forEach(...)` after the optional group header. */
  method PushGroup(lines: seq<string>, k: string, members: seq<UploadedFile>) returns (out: seq<string>)
    ensures out == lines + GroupBlock(k, members)
  {
    out := lines;
    if k != NO_TYPE {
      out := out + ["", k];
    }
    ghost var start := out;
    var m := 0;
    while m < |members|
      invariant 0 <= m <= |members|
      invariant out == start + Bullets(members[..m])
    {
      out := out + [BulletLine(members[m])];
      m := m + 1;
      assert Bullets(members[..m]) == Bullets(members[..m - 1]) + [BulletLine(members[m - 1])];
    }
    assert members[..m] == members;
  }

  /**
   * The `files.forEach` that fills `fileGroups`: a map from key to files
   * that remembers its insertion order (`order`).
   */
  method GroupFiles(files: seq<UploadedFile>, keys: seq<string>)
    returns (order: seq<string>, groups: map<string, seq<UploadedFile>>)
    requires |files| == |keys|
    ensures order == Dedupe(keys)
    ensures forall k :: k in groups <==> k in order
    ensures forall k :: k in groups ==> groups[k] == Members(files, keys, k)
  {
    order, groups := [], map[];
    var i := 0;
    while i < |files|
      invariant 0 <= i <= |files|
      invariant order == Dedupe(keys[..i])
      invariant forall k :: k in groups <==> k in order
      invariant forall k :: k in groups ==> groups[k] == Members(files[..i], keys[..i], k)
      invariant forall k :: k !in groups ==> Members(files[..i], keys[..i], k) == []
    {
      var key := keys[i];
      assert keys[..i + 1][..i] == keys[..i] && files[..i + 1][..i] == files[..i];
      if key !in groups {
        order := order + [key];
        groups := groups[key := []];
      }
      groups := groups[key := groups[key] + [files[i]]];
      i := i + 1;
    }
    assert files[..i] == files && keys[..i] == keys;
  }

  /** One more group in the order adds its block at the end. */
  lemma GroupLinesStep(order: seq<string>, j: nat, files: seq<UploadedFile>, keys: seq<string>)
    requires |files| == |keys| && j < |order|
    ensures GroupLines(order[..j + 1], files, keys)
            == GroupLines(order[..j], files, keys) + GroupBlock(order[j], Members(files, keys, order[j]))
  {
    assert order[..j + 1][..j] == order[..j];
  }

  /** The group at position `j` of the order, pushed after the groups before it. */
  method PushGroupAt(out: seq<string>, ghost lines: seq<string>, order: seq<string>, j: nat,
                     groups: map<string, seq<UploadedFile>>, ghost files: seq<UploadedFile>, ghost keys: seq<string>)
    returns (next: seq<string>)
    requires |files| == |keys| && j < |order|
    requires order[j] in groups && groups[order[j]] == Members(files, keys, order[j])
    requires out == lines + GroupLines(order[..j], files, keys)
    ensures next == lines + GroupLines(order[..j + 1], files, keys)
  {
    GroupLinesStep(order, j, files, keys);
    next := PushGroup(out, order[j], groups[order[j]]);
  }

  /** `fileGroups.forEach(...)`: every group in insertion order. */
  method PushGroups(lines: seq<string>, order: seq<string>, groups: map<string, seq<UploadedFile>>,
                    ghost files: seq<UploadedFile>, ghost keys: seq<string>) returns (out: seq<string>)
    requires |files| == |keys|
    requires forall j :: 0 <= j < |order| ==> order[j] in groups && groups[order[j]] == Members(files, keys, order[j])
    ensures out == lines + GroupLines(order, files, keys)
  {
    out := lines;
    var j := 0;
    while j < |order|
      invariant 0 <= j <= |order|
      invariant out == lines + GroupLines(order[..j], files, keys)
    {
      out := PushGroupAt(out, lines, order, j, groups, files, keys);
      j := j + 1;
    }
    assert order[..j] == order;
  }

  /**
   * `formatSuccessMessage`: groups the files by quip in a map that remembers
   * insertion order (`groups` with `order`), pushes each group, the error
   * blocks and the closing line, and joins the lines.
   */
  method FormatSuccessMessage(userId: string, files: seq<UploadedFile>, failedFiles: seq<string>,
                              sizeFailedFiles: seq<string>, d: Draws) returns (message: string)
    requires |d.quips| == |files|
    ensures message == Join(SuccessLines(userId, files, failedFiles, sizeFailedFiles, d), "\n")
  {
    var lines := [Header(userId, |files|), ""];
    var keys := Keys(files, d.quips);

    var order, groups := GroupFiles(files, keys);

    lines := PushGroups(lines, order, groups, files, keys);
    ghost var groupPart := lines;
    if |sizeFailedFiles| > 0 {
      lines := lines + [FormatErrorMessage(sizeFailedFiles, true, d.sizeError)];
    }
    assert lines == groupPart + ErrorBlock(sizeFailedFiles, true, d.sizeError);
    ghost var sizePart := lines;
    if |failedFiles| > 0 {
      lines := lines + [FormatErrorMessage(failedFiles, false, d.genericError)];
    }
    assert lines == sizePart + ErrorBlock(failedFiles, false, d.genericError);
    ghost var errorPart := lines;
    if |files| > 0 {
      lines := lines + ["", ClosingLine(d.closing)];
    }
    assert lines == errorPart + Closing(|files|, d.closing);
    message := Join(lines, "\n");
  }
}
