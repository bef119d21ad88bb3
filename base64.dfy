/**
 * The "base64" encoding of section 4 of RFC 4648 (the standard alphabet,
 * with '=' padding), as the Rust `base64` crate's STANDARD engine writes it.
 * The CDN service uses it for session tokens and API keys of 32 random
 * bytes. The decoder is the encoder's partner: it reads every encoding back
 * to the bytes it came from, so distinct random draws give distinct tokens.
 */
module Base64 {
  import opened Common

  /** The character for the 6-bit value `v`: A-Z, a-z, 0-9, '+', '/'. */
  function CharOf(v: nat): (c: char)
    requires v < 64
    ensures IsAlphabet(c)
  {
    if v < 26 then ('A' as int + v) as char
    else if v < 52 then ('a' as int + (v - 26)) as char
    else if v < 62 then ('0' as int + (v - 52)) as char
    else if v == 62 then '+'
    else '/'
  }

  predicate IsAlphabet(c: char)
  {
    'A' <= c <= 'Z' || 'a' <= c <= 'z' || '0' <= c <= '9' || c == '+' || c == '/'
  }

  /** The 6-bit value of an alphabet character. */
  function ValueOf(c: char): (v: nat)
    requires IsAlphabet(c)
    ensures v < 64
  {
    if 'A' <= c <= 'Z' then c as int - 'A' as int
    else if 'a' <= c <= 'z' then c as int - 'a' as int + 26
    else if '0' <= c <= '9' then c as int - '0' as int + 52
    else if c == '+' then 62
    else 63
  }

  lemma ValueOfCharOf(v: nat)
    requires v < 64
    ensures IsAlphabet(CharOf(v)) && ValueOf(CharOf(v)) == v
  {
  }

  /** The four characters of one, two or three bytes; a short group is padded with '='. */
  function EncodeGroup(g: seq<byte>): (s: string)
    requires 1 <= |g| <= 3
    ensures |s| == 4
  {
    var b0 := g[0] as nat;
    var b1 := if |g| > 1 then g[1] as nat else 0;
    var b2 := if |g| > 2 then g[2] as nat else 0;
    [CharOf(b0 / 4), CharOf(b0 % 4 * 16 + b1 / 16),
     if |g| > 1 then CharOf(b1 % 16 * 4 + b2 / 64) else '=',
     if |g| > 2 then CharOf(b2 % 64) else '=']
  }

  /** `STANDARD.encode(bytes)`: the groups of three bytes, front to back. */
  function Encode(bytes: seq<byte>): (s: string)
    ensures |bytes| > 0 ==> |s| >= 4
  {
    if |bytes| == 0 then ""
    else if |bytes| <= 3 then EncodeGroup(bytes)
    else EncodeGroup(bytes[..3]) + Encode(bytes[3..])
  }

  /** The bytes of one group of four characters, None when it is not a well-formed group. */
  function DecodeGroup(s: string): (r: Option<seq<byte>>)
    requires |s| == 4
    ensures r.Some? ==> 1 <= |r.value| <= 3
  {
    if !IsAlphabet(s[0]) || !IsAlphabet(s[1]) then None
    else
      var v0, v1 := ValueOf(s[0]), ValueOf(s[1]);
      var b0 := (v0 * 4 + v1 / 16) as byte;
      if s[2] == '=' && s[3] == '=' then Some([b0])
      else if !IsAlphabet(s[2]) then None
      else
        var v2 := ValueOf(s[2]);
        var b1 := (v1 % 16 * 16 + v2 / 4) as byte;
        if s[3] == '=' then Some([b0, b1])
        else if !IsAlphabet(s[3]) then None
        else Some([b0, b1, (v2 % 4 * 64 + ValueOf(s[3])) as byte])
  }

  /** Reads an encoding back; None for a length that is not a multiple of four or a malformed group. */
  function Decode(s: string): (r: Option<seq<byte>>)
    ensures |s| % 4 != 0 ==> r.None?
    ensures r.Some? ==> |r.value| <= |s| / 4 * 3
  {
    if |s| == 0 then Some([])
    else if |s| < 4 then None
    else
      match DecodeGroup(s[..4])
      case None => None
      case Some(g) =>
        if |s| == 4 then Some(g)
        else if |g| < 3 then None
        else
          match Decode(s[4..])
          case None => None
          case Some(rest) => Some(g + rest)
  }

  /** The 6-bit values of three bytes put back together give the bytes. */
  lemma Regroup(b0: nat, b1: nat, b2: nat, v0: nat, v1: nat, v2: nat, v3: nat)
    requires b0 < 256 && b1 < 256 && b2 < 256
    requires v0 == b0 / 4 && v1 == b0 % 4 * 16 + b1 / 16 && v2 == b1 % 16 * 4 + b2 / 64 && v3 == b2 % 64
    ensures v0 < 64 && v1 < 64 && v2 < 64 && v3 < 64
    ensures v0 * 4 + v1 / 16 == b0 && v1 % 16 * 16 + v2 / 4 == b1 && v2 % 4 * 64 + v3 == b2
  {
  }

  /** Three bytes come back from their four characters. */
  lemma DecodeFull(g: seq<byte>)
    requires |g| == 3
    ensures DecodeGroup(EncodeGroup(g)) == Some(g)
  {
    var b0, b1, b2 := g[0] as nat, g[1] as nat, g[2] as nat;
    var v0, v1, v2, v3 := b0 / 4, b0 % 4 * 16 + b1 / 16, b1 % 16 * 4 + b2 / 64, b2 % 64;
    Regroup(b0, b1, b2, v0, v1, v2, v3);
    var s := EncodeGroup(g);
    assert s == [CharOf(v0), CharOf(v1), CharOf(v2), CharOf(v3)];
    ValueOfCharOf(v0);
    ValueOfCharOf(v1);
    ValueOfCharOf(v2);
    ValueOfCharOf(v3);
    assert DecodeGroup(s) == Some([b0 as byte, b1 as byte, b2 as byte]);
    assert [b0 as byte, b1 as byte, b2 as byte] == g;
  }

  /** Two bytes come back from their three characters and one '='. */
  lemma DecodeOnePad(g: seq<byte>)
    requires |g| == 2
    ensures DecodeGroup(EncodeGroup(g)) == Some(g)
  {
    var b0, b1 := g[0] as nat, g[1] as nat;
    var v0, v1, v2 := b0 / 4, b0 % 4 * 16 + b1 / 16, b1 % 16 * 4;
    Regroup(b0, b1, 0, v0, v1, v2, 0);
    var s := EncodeGroup(g);
    assert s == [CharOf(v0), CharOf(v1), CharOf(v2), '='];
    ValueOfCharOf(v0);
    ValueOfCharOf(v1);
    ValueOfCharOf(v2);
    assert DecodeGroup(s) == Some([b0 as byte, b1 as byte]);
    assert [b0 as byte, b1 as byte] == g;
  }

  /** One byte comes back from its two characters and two '='. */
  lemma DecodeTwoPads(g: seq<byte>)
    requires |g| == 1
    ensures DecodeGroup(EncodeGroup(g)) == Some(g)
  {
    var b0 := g[0] as nat;
    var v0, v1 := b0 / 4, b0 % 4 * 16;
    Regroup(b0, 0, 0, v0, v1, 0, 0);
    var s := EncodeGroup(g);
    assert s == [CharOf(v0), CharOf(v1), '=', '='];
    ValueOfCharOf(v0);
    ValueOfCharOf(v1);
    assert DecodeGroup(s) == Some([b0 as byte]);
    assert [b0 as byte] == g;
  }

  lemma DecodeEncodeGroup(g: seq<byte>)
    requires 1 <= |g| <= 3
    ensures DecodeGroup(EncodeGroup(g)) == Some(g)
  {
    if |g| == 1 {
      DecodeTwoPads(g);
    } else if |g| == 2 {
      DecodeOnePad(g);
    } else {
      DecodeFull(g);
    }
  }

  /** Four characters for every three bytes or part of three. */
  lemma {:induction false} EncodeLength(bytes: seq<byte>)
    ensures |Encode(bytes)| == 4 * ((|bytes| + 2) / 3)
  {
    if |bytes| > 3 {
      EncodeLength(bytes[3..]);
      assert (|bytes| + 2) / 3 == (|bytes| - 3 + 2) / 3 + 1;
    }
  }

  /** A full group followed by more text decodes to the group's bytes, then the rest's. */
  lemma DecodeCons(s: string, g: seq<byte>, rest: seq<byte>)
    requires |s| > 4 && |g| == 3
    requires DecodeGroup(s[..4]) == Some(g) && Decode(s[4..]) == Some(rest)
    ensures Decode(s) == Some(g + rest)
  {
  }

  /** Decoding gives back the encoded bytes. */
  lemma {:induction false} DecodeEncode(bytes: seq<byte>)
    ensures Decode(Encode(bytes)) == Some(bytes)
  {
    if |bytes| == 0 {
    } else if |bytes| <= 3 {
      var s := EncodeGroup(bytes);
      assert s[..4] == s;
      DecodeEncodeGroup(bytes);
    } else {
      var s := Encode(bytes);
      var head, tail := EncodeGroup(bytes[..3]), Encode(bytes[3..]);
      assert s == head + tail;
      assert s[..4] == head && s[4..] == tail;
      DecodeEncodeGroup(bytes[..3]);
      DecodeEncode(bytes[3..]);
      DecodeCons(s, bytes[..3], bytes[3..]);
      assert bytes[..3] + bytes[3..] == bytes;
    }
  }

  /** Two byte strings with the same encoding are equal. */
  lemma EncodeInjective(a: seq<byte>, b: seq<byte>)
    requires Encode(a) == Encode(b)
    ensures a == b
  {
    DecodeEncode(a);
    DecodeEncode(b);
  }

  /** Alphabet characters, then at most two '=' of padding at the end. */
  predicate Padded(s: string)
  {
    forall i :: 0 <= i < |s| ==> IsAlphabet(s[i]) || (s[i] == '=' && i >= |s| - 2)
  }

  /** Every character of an encoding is from the alphabet, except the padding at the end. */
  lemma {:induction false} EncodeAlphabet(bytes: seq<byte>)
    ensures Padded(Encode(bytes))
  {
    if |bytes| > 3 {
      var head, tail := EncodeGroup(bytes[..3]), Encode(bytes[3..]);
      var s := Encode(bytes);
      EncodeAlphabet(bytes[3..]);
      assert s == head + tail;
      forall i | 0 <= i < |s|
        ensures IsAlphabet(s[i]) || (s[i] == '=' && i >= |s| - 2)
      {
        if i >= 4 {
          assert s[i] == tail[i - 4];
        } else {
          assert s[i] == head[i];
        }
      }
    }
  }
}
