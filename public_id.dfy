/**
 * app/models/concerns/public_identifiable.rb: Stripe-style public ids
 * "<prefix>_<hashid>" for the users table (prefix "usr"). The hashid codec
 * is a parameter: `decode` is what `find_by_hashid` applies before looking
 * the id up; `HashidCodec` states the round trip the codec is assumed to
 * satisfy.
 */
module PublicId {
  import opened Common
  import opened Records

  const SEPARATOR := '_'

  /** The argument of `find_by_public_id`, which may be anything; only strings are looked up. */
  datatype Arg = StringArg(s: string) | OtherArg

  /** `public_id`: prefix, separator, hashid. */
  function PublicIdOf(prefix: string, hashid: string): (id: string)
    ensures |id| == |prefix| + 1 + |hashid|
    ensures id[..|prefix|] == prefix && id[|prefix|] == SEPARATOR && id[|prefix| + 1..] == hashid
  {
    prefix + [SEPARATOR] + hashid
  }

  /** `set_public_id_prefix`: the prefix is stored lower-cased. */
  function SetPublicIdPrefix(prefix: string): (stored: string)
    ensures |stored| == |prefix|
    ensures forall i :: 0 <= i < |stored| ==> !('A' <= stored[i] <= 'Z')
    ensures forall i :: 0 <= i < |prefix| && !('A' <= prefix[i] <= 'Z') ==> stored[i] == prefix[i]
  {
    LowerAscii(prefix)
  }

  /** `get_public_id_prefix`: the configured prefix, or NotImplementedError when none is set. */
  function GetPublicIdPrefix(configured: Option<string>): (r: Result<string, string>)
    ensures r.Ok? <==> IsPresent(configured)
    ensures r.Ok? ==> r.value == LowerAscii(configured.value) && |r.value| > 0
  {
    if IsPresent(configured) then Ok(LowerAscii(configured.value))
    else Err("NotImplementedError: set_public_id_prefix hasn't been called")
  }

  /** `find_by_hashid`: decode, then look the id up; nil decodes to nothing. */
  function FindByHashid(users: seq<User>, decode: string -> Option<nat>, hash: Option<string>): (r: Option<nat>)
    ensures r.Some? ==> r.value < |users| && hash.Some? && decode(hash.value) == Some(users[r.value].id)
  {
    if hash.None? then None
    else match decode(hash.value)
      case None => None
      case Some(id) => UserIndex(users, id)
  }

  /**
   * `find_by_public_id`: nil for a non-string; otherwise the first and last
   * '_'-pieces are the prefix (compared lower-cased) and the hashid. A
   * wrong prefix answers nil without decoding anything; an unset prefix
   * raises.
   */
  function FindByPublicId(users: seq<User>, configured: Option<string>, decode: string -> Option<nat>, arg: Arg)
    : (r: Result<Option<nat>, string>)
    ensures arg.OtherArg? ==> r == Ok(None)
    ensures r.Err? <==> arg.StringArg? && !IsPresent(configured)
    ensures arg.StringArg? && IsPresent(configured) ==>
              var parts := RubySplit(arg.s, [SEPARATOR]);
              (|parts| == 0 || LowerAscii(parts[0]) != LowerAscii(configured.value) ==> r == Ok(None))
              && (r.Ok? && r.value.Some? ==>
                    r.value.value < |users|
                    && LowerAscii(parts[0]) == LowerAscii(configured.value)
                    && decode(parts[|parts| - 1]) == Some(users[r.value.value].id))
  {
    match arg
    case OtherArg => Ok(None)
    case StringArg(s) =>
      var parts := RubySplit(s, [SEPARATOR]);
      var prefix := LowerAscii(if |parts| > 0 then parts[0] else "");
      var hash := if |parts| > 0 then Some(parts[|parts| - 1]) else None;
      match GetPublicIdPrefix(configured)
      case Err(e) => Err(e)
      case Ok(p) => if prefix != p then Ok(None) else Ok(FindByHashid(users, decode, hash))
  }

  /** `find_by_public_id!`: RecordNotFound exactly where `find_by_public_id` answers nil. */
  function FindByPublicIdStrict(users: seq<User>, configured: Option<string>, decode: string -> Option<nat>, arg: Arg)
    : (r: Result<nat, string>)
    ensures r.Ok? <==> FindByPublicId(users, configured, decode, arg).Ok?
                       && FindByPublicId(users, configured, decode, arg).value.Some?
    ensures r.Ok? ==> r.value == FindByPublicId(users, configured, decode, arg).value.value
    ensures FindByPublicId(users, configured, decode, arg) == Ok(None) ==> r == Err("RecordNotFound")
  {
    match FindByPublicId(users, configured, decode, arg)
    case Err(e) => Err(e)
    case Ok(None) => Err("RecordNotFound")
    case Ok(Some(i)) => Ok(i)
  }

  /** The hashid codec: encoding never yields '_' or "", and decoding inverts encoding. */
  ghost predicate HashidCodec(encode: nat -> string, decode: string -> Option<nat>)
  {
    forall id: nat :: SEPARATOR !in encode(id) && encode(id) != "" && decode(encode(id)) == Some(id)
  }

  /**
   * Round trip: with the prefix set through `set_public_id_prefix` (and free
   * of '_'), looking up a user's public id finds that user.
   */
  lemma PublicIdRoundTrip(users: seq<User>, rawPrefix: string, encode: nat -> string, decode: string -> Option<nat>,
                          i: nat)
    requires HashidCodec(encode, decode)
    requires !IsBlank(rawPrefix) && SEPARATOR !in rawPrefix
    requires i < |users| && forall a, b :: 0 <= a < b < |users| ==> users[a].id < users[b].id
    ensures var stored := SetPublicIdPrefix(rawPrefix);
            FindByPublicId(users, Some(stored), decode, StringArg(PublicIdOf(stored, encode(users[i].id)))) == Ok(Some(i))
  {
    var stored := SetPublicIdPrefix(rawPrefix);
    var h := encode(users[i].id);
    StoredPrefix(rawPrefix);
    SplitPublicId(stored, h);
    UserIndexOfOwnId(users, i);
  }

  /** A stored prefix keeps the raw one's freedom from '_' and its presence. */
  lemma StoredPrefix(rawPrefix: string)
    requires !IsBlank(rawPrefix) && SEPARATOR !in rawPrefix
    ensures SEPARATOR !in SetPublicIdPrefix(rawPrefix) && !IsBlank(SetPublicIdPrefix(rawPrefix))
  {
    var stored := SetPublicIdPrefix(rawPrefix);
    forall k | 0 <= k < |stored| ensures stored[k] != SEPARATOR {
      assert rawPrefix[k] != SEPARATOR;
    }
    var k :| 0 <= k < |rawPrefix| && !IsUnicodeSpace(rawPrefix[k]);
    assert !IsUnicodeSpace(stored[k]);
  }

  /** A public id splits back into its prefix and hashid. */
  lemma SplitPublicId(prefix: string, hashid: string)
    requires SEPARATOR !in prefix && SEPARATOR !in hashid && hashid != ""
    ensures RubySplit(PublicIdOf(prefix, hashid), [SEPARATOR]) == [prefix, hashid]
  {
    SplitAtFirstSeparator(prefix, SEPARATOR, hashid);
    SplitWithoutSeparator(hashid, SEPARATOR);
  }

  lemma UserIndexOfOwnId(users: seq<User>, i: nat)
    requires i < |users| && forall a, b :: 0 <= a < b < |users| ==> users[a].id < users[b].id
    ensures UserIndex(users, users[i].id) == Some(i)
  {
  }

  /** The prefix test ignores case: upper-casing letters of the prefix part changes nothing. */
  lemma PrefixCaseInsensitive(users: seq<User>, configured: Option<string>, decode: string -> Option<nat>,
                              p1: string, p2: string, hash: string)
    requires SEPARATOR !in p1 && SEPARATOR !in p2 && SEPARATOR !in hash && hash != ""
    requires LowerAscii(p1) == LowerAscii(p2)
    ensures FindByPublicId(users, configured, decode, StringArg(p1 + [SEPARATOR] + hash))
            == FindByPublicId(users, configured, decode, StringArg(p2 + [SEPARATOR] + hash))
  {
    SplitPublicId(p1, hash);
    SplitPublicId(p2, hash);
  }
}
