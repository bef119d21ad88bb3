/**
 * app/services/slack_service.rb, `verify_signature`: Slack's request-signing
 * check. The signing secret comes from configuration, the clock is the
 * parameter `now` (seconds), and HMAC-SHA256 (RFC 2104) rendered as lower-case
 * hex is the parameter `hmacHex(key, message)`. The Web API wrappers of
 * the same class are calls into the Slack client and are not modelled here.
 */
module SlackService {
  import opened Common

  /** The characters Ruby's `String#to_i` skips before the number. */
  predicate IsCSpace(c: char)
  {
    c == ' ' || c == '\t' || c == '\n' || c == '\U{000B}' || c == '\U{000C}' || c == '\r'
  }

  function Abs(n: int): nat
  {
    if n < 0 then -n else n
  }

  /** The decimal digits at the start of `s`. */
  function LeadingDigits(s: string): (d: string)
    ensures forall i :: 0 <= i < |d| ==> IsDigit(d[i])
    ensures |d| <= |s| && d == s[..|d|]
  {
    TakeUntil(s, (c: char) => !IsDigit(c))
  }

  /**
   * Ruby `String#to_i`: leading white space, an optional sign, then the
   * longest run of decimal digits; 0 when there are none.
   */
  function RubyToI(s: string): (n: int)
    ensures |s| > 0 && IsDigit(s[0]) ==> n == ParseNat(LeadingDigits(s))
    ensures LeadingDigits(s[LeadingCount(s, IsCSpace)..]) != "" ==> n >= 0
  {
    var t := s[LeadingCount(s, IsCSpace)..];
    if |t| > 0 && t[0] == '-' then -(ParseNat(LeadingDigits(t[1..])) as int)
    else if |t| > 0 && t[0] == '+' then ParseNat(LeadingDigits(t[1..]))
    else ParseNat(LeadingDigits(t))
  }

  /** `to_i` reads back a rendered timestamp. */
  lemma RubyToIOfNat(n: nat)
    ensures RubyToI(NatToString(n)) == n
  {
    var s := NatToString(n);
    assert !IsCSpace(s[0]);
    assert s[LeadingCount(s, IsCSpace)..] == s;
    var d := LeadingDigits(s);
    assert |d| == |s|;
    assert d == s;
    ParseNatToString(n);
  }

  /** The value Slack sends in X-Slack-Signature for this request. */
  function ExpectedSignature(secret: string, timestamp: string, body: string, hmacHex: (string, string) -> string)
    : (sig: string)
    ensures StartsWith(sig, "v0=")
  {
    "v0=" + hmacHex(secret, "v0:" + timestamp + ":" + body)
  }

  /**
   * `verify_signature`: false without a signing secret, false when the
   * timestamp is more than five minutes from now in either direction,
   * otherwise whether the signature is the expected one.
   */
  function VerifySignature(secret: Option<string>, now: int, timestamp: string, body: string, signature: string,
                           hmacHex: (string, string) -> string): (ok: bool)
    ensures !IsPresent(secret) ==> !ok
    ensures Abs(now - RubyToI(timestamp)) > 300 ==> !ok
    ensures ok ==> signature == ExpectedSignature(secret.value, timestamp, body, hmacHex)
  {
    if !IsPresent(secret) then false
    else if Abs(now - RubyToI(timestamp)) > 300 then false
    else ExpectedSignature(secret.value, timestamp, body, hmacHex) == signature
  }

  /** A request Slack signed with the shared secret within the last five minutes is accepted. */
  lemma SignedRequestAccepted(secret: string, sentAt: nat, now: int, body: string,
                              hmacHex: (string, string) -> string)
    requires !IsBlank(secret) && Abs(now - sentAt) <= 300
    ensures var ts := NatToString(sentAt);
            VerifySignature(Some(secret), now, ts, body, ExpectedSignature(secret, ts, body, hmacHex), hmacHex)
  {
    RubyToIOfNat(sentAt);
  }

  /** The same signed request replayed more than five minutes later is refused. */
  lemma ReplayRefused(secret: Option<string>, sentAt: nat, now: int, body: string, signature: string,
                      hmacHex: (string, string) -> string)
    requires now > sentAt + 300
    ensures !VerifySignature(secret, now, NatToString(sentAt), body, signature, hmacHex)
  {
    RubyToIOfNat(sentAt);
  }
}
