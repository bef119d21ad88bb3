/**
 * The session cookie as the CDN service's dashboard and metrics pages read
 * it (cdn/src/dashboard/mod.rs:23-31 and cdn/src/metrics/mod.rs:44-52, the
 * same code twice). The Cookie header (section 4.2 of RFC 6265) is split on
 * ';', the first piece whose trimmed text starts with "session=" is taken,
 * and every leading "session=" is stripped from it. Pieces are not split at
 * '=' and names are not compared whole, so "session=session=x" yields "x".
 */
module CdnCookie {
  import opened Common
  import opened Http
  import Base64
  import CdnSession

  const SESSION_PREFIX := "session="

  /** `k` copies of `p`, one after the other. */
  function Repeat(p: string, k: nat): string
  {
    if k == 0 then "" else p + Repeat(p, k - 1)
  }

  /** Rust `trim_start_matches` with a string pattern: every leading copy of `prefix` removed. */
  function TrimStartMatches(s: string, prefix: string): (r: string)
    ensures |r| <= |s| && r == s[|s| - |r|..]
    ensures exists k: nat :: s == Repeat(prefix, k) + r
    ensures |prefix| > 0 ==> !StartsWith(r, prefix)
    decreases |s|
  {
    if |prefix| > 0 && StartsWith(s, prefix) then
      var rest := s[|prefix|..];
      var r := TrimStartMatches(rest, prefix);
      var k: nat :| rest == Repeat(prefix, k) + r;
      PeelPrefix(s, prefix, k, r);
      r
    else
      assert s == Repeat(prefix, 0) + s;
      s
  }

  /** One more leading copy of the prefix: `s` is the prefix followed by `k` copies and `r`. */
  lemma PeelPrefix(s: string, prefix: string, k: nat, r: string)
    requires StartsWith(s, prefix) && s[|prefix|..] == Repeat(prefix, k) + r
    ensures s == Repeat(prefix, k + 1) + r
    ensures |r| <= |s| && r == s[|s| - |r|..]
  {
    calc {
      s;
      s[..|prefix|] + s[|prefix|..];
      prefix + (Repeat(prefix, k) + r);
      (prefix + Repeat(prefix, k)) + r;
    }
  }

  predicate IsSessionPiece(piece: string)
  {
    StartsWith(RustTrim(piece), SESSION_PREFIX)
  }

  /** The session token in a Cookie header's text, if a piece names one. */
  function CookieToken(cookies: string): (token: Option<string>)
  {
    var pieces := Split(cookies, ";");
    match FirstIndex(pieces, IsSessionPiece)
    case None => None
    case Some(k) => Some(TrimStartMatches(RustTrim(pieces[k]), SESSION_PREFIX))
  }

  /** The session token of a request: from its Cookie header, when that is readable text. */
  function SessionToken(headers: Headers): (token: Option<string>)
    ensures token.Some? ==> "cookie" in headers && HeaderToStr(headers["cookie"]).Some?
  {
    match Header(headers, "cookie")
    case None => None
    case Some(value) =>
      match HeaderToStr(value)
      case None => None
      case Some(cookies) => CookieToken(cookies)
  }

  // ---------------------------------------------------------------------
  // Properties

  /** Text that starts and ends with a non-space is its own trim. */
  lemma TrimUnspaced(s: string)
    requires |s| == 0 || (!IsUnicodeSpace(s[0]) && !IsUnicodeSpace(s[|s| - 1]))
    ensures RustTrim(s) == s
  {
    LeadingCountUnique(s, IsUnicodeSpace, 0);
    TrailingCountUnique(s, IsUnicodeSpace, 0);
  }

  /** A cookie piece with no ';' and no space at its ends that starts with "session=" gives its token, whatever follows. */
  lemma {:induction false} SessionPieceRead(piece: string, rest: string)
    requires ';' !in piece && StartsWith(piece, SESSION_PREFIX) && !IsUnicodeSpace(piece[|piece| - 1])
    ensures CookieToken(piece) == Some(TrimStartMatches(piece, SESSION_PREFIX))
    ensures CookieToken(piece + ";" + rest) == Some(TrimStartMatches(piece, SESSION_PREFIX))
  {
    TrimUnspaced(piece);
    SplitWithoutSeparator(piece, ';');
    SplitAtFirstSeparator(piece, ';', rest);
    assert piece + ";" + rest == piece + [';'] + rest;
    assert IsSessionPiece(piece);
  }

  /** "session=" followed by text free of ';' is free of ';', and strips back to that text's own stripping. */
  lemma Prefixed(token: string)
    requires ';' !in token
    ensures var piece := SESSION_PREFIX + token;
            && ';' !in piece && StartsWith(piece, SESSION_PREFIX)
            && TrimStartMatches(piece, SESSION_PREFIX) == TrimStartMatches(token, SESSION_PREFIX)
  {
    var piece := SESSION_PREFIX + token;
    assert forall i :: 0 <= i < |piece| ==> piece[i] == if i < 8 then SESSION_PREFIX[i] else token[i - 8];
    assert piece[..8] == SESSION_PREFIX && piece[8..] == token;
  }

  /** A token the browser sends back as "session=<token>" is read whole, if it has no ';' and no space at its end. */
  lemma SessionCookieRoundTrip(token: string, rest: string)
    requires ';' !in token && |token| > 0 && !IsUnicodeSpace(token[|token| - 1])
    requires !StartsWith(token, SESSION_PREFIX)
    ensures CookieToken(SESSION_PREFIX + token) == Some(token)
    ensures CookieToken(SESSION_PREFIX + token + ";" + rest) == Some(token)
  {
    var piece := SESSION_PREFIX + token;
    Prefixed(token);
    assert piece[|piece| - 1] == token[|token| - 1];
    SessionPieceRead(piece, rest);
  }

  /** A piece that merely repeats the prefix loses every copy: "session=session=x" reads as "x". */
  lemma RepeatedPrefixStripped(token: string)
    requires ';' !in token && |token| > 0 && !IsUnicodeSpace(token[|token| - 1])
    requires !StartsWith(token, SESSION_PREFIX)
    ensures CookieToken(SESSION_PREFIX + SESSION_PREFIX + token) == Some(token)
  {
    var once := SESSION_PREFIX + token;
    var twice := SESSION_PREFIX + once;
    Prefixed(token);
    Prefixed(once);
    assert twice[|twice| - 1] == token[|token| - 1];
    SessionPieceRead(twice, "");
    assert SESSION_PREFIX + SESSION_PREFIX + token == twice;
  }

  /** Every session token the service issues survives the cookie: it has no ';', no space, and no "session=" prefix. */
  lemma IssuedTokenReadBack(random: seq<byte>, rest: string)
    requires |random| == 32
    ensures var token := CdnSession.GenerateToken(random);
            && CookieToken(SESSION_PREFIX + token) == Some(token)
            && CookieToken(SESSION_PREFIX + token + ";" + rest) == Some(token)
  {
    var token := CdnSession.GenerateToken(random);
    Base64.EncodeAlphabet(random);
    assert Base64.Padded(token);
    assert token[43] == '=' || Base64.IsAlphabet(token[43]);
    assert ';' !in token by {
      assert forall i :: 0 <= i < |token| ==> token[i] != ';';
    }
    assert !StartsWith(token, SESSION_PREFIX) by {
      assert Base64.IsAlphabet(token[7]);
    }
    SessionCookieRoundTrip(token, rest);
  }

  /** The cookie logout leaves behind, "session=", reads as the empty token, which no issued token equals. */
  lemma EmptySessionCookie(random: seq<byte>)
    requires |random| == 32
    ensures CookieToken(SESSION_PREFIX) == Some("")
    ensures CdnSession.GenerateToken(random) != ""
  {
    SessionPieceRead(SESSION_PREFIX, "");
    assert SESSION_PREFIX[8..] == "";
  }

  /** An empty Cookie header names no session. */
  lemma EmptyHeaderNoSession()
    ensures CookieToken("") == None
  {
    SplitWithoutSeparator("", ';');
    TrimUnspaced("");
  }
}
