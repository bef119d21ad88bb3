/**
 * cdn/src/auth/session.rs: the CDN service's login sessions. A session
 * token is the base64 encoding (section 4 of RFC 4648) of 32 random bytes,
 * which the caller draws; the store maps tokens to user ids in memory,
 * behind a lock this model leaves out. Sessions are added at login
 * (cdn/src/auth/mod.rs:100-101) and never removed: logging out only clears
 * the browser's cookie.
 *
 * The ghost `inserts` lists every insert made, in order; the map is always
 * their fold, so a lookup finds the id of the last insert under that token.
 */
module CdnSession {
  import opened Common
  import Base64

  /** `generate_session_token`, and the API-key generator, over the 32 bytes drawn. */
  function GenerateToken(random: seq<byte>): (token: string)
    requires |random| == 32
    ensures |token| == 44
  {
    Base64.EncodeLength(random);
    Base64.Encode(random)
  }

  /** The token reads back as the bytes drawn. */
  lemma TokenDecodes(random: seq<byte>)
    requires |random| == 32
    ensures Base64.Decode(GenerateToken(random)) == Some(random)
  {
    Base64.DecodeEncode(random);
  }

  /** Different draws give different tokens. */
  lemma DistinctDrawsDistinctTokens(a: seq<byte>, b: seq<byte>)
    requires |a| == 32 && |b| == 32 && a != b
    ensures GenerateToken(a) != GenerateToken(b)
  {
    if GenerateToken(a) == GenerateToken(b) {
      Base64.EncodeInjective(a, b);
    }
  }

  /** One insert: the token and the user id. */
  datatype Insert = Insert(token: string, userId: int)

  /** The map made by the inserts, in order. */
  function Fold(inserts: seq<Insert>): map<string, int>
  {
    if |inserts| == 0 then map[]
    else
      var last := inserts[|inserts| - 1];
      Fold(inserts[..|inserts| - 1])[last.token := last.userId]
  }

  /** A token is in the map exactly when it was inserted, and it maps to the id of its last insert. */
  lemma {:induction false} FoldFindsLastInsert(inserts: seq<Insert>, token: string)
    ensures token in Fold(inserts) <==> exists i :: 0 <= i < |inserts| && inserts[i].token == token
    ensures forall i :: 0 <= i < |inserts| && inserts[i].token == token
                        && (forall j :: i < j < |inserts| ==> inserts[j].token != token)
                        ==> Fold(inserts)[token] == inserts[i].userId
  {
    if |inserts| > 0 {
      var n := |inserts| - 1;
      FoldFindsLastInsert(inserts[..n], token);
      if token in Fold(inserts[..n]) {
        var i :| 0 <= i < n && inserts[..n][i].token == token;
        assert inserts[i].token == token;
      }
      if exists i :: 0 <= i < |inserts| && inserts[i].token == token {
        var i :| 0 <= i < |inserts| && inserts[i].token == token;
        if i < n {
          assert inserts[..n][i].token == token;
        }
      }
      forall i | 0 <= i < n && inserts[i].token == token && (forall j :: i < j < |inserts| ==> inserts[j].token != token)
        ensures Fold(inserts)[token] == inserts[i].userId
      {
        assert inserts[..n][i].token == token;
      }
    }
  }

  class SessionStore {
    var sessions: map<string, int>
    ghost var inserts: seq<Insert>

    ghost predicate Valid()
      reads this
    {
      sessions == Fold(inserts)
    }

    /** The empty store the service starts with. */
    constructor ()
      ensures Valid() && sessions == map[] && inserts == []
    {
      sessions := map[];
      inserts := [];
    }

    /** `insert`: the token now maps to the user, replacing what it mapped to before. */
    method Put(token: string, userId: int)
      requires Valid()
      modifies this
      ensures Valid()
      ensures sessions == old(sessions)[token := userId]
      ensures inserts == old(inserts) + [Insert(token, userId)]
    {
      sessions := sessions[token := userId];
      inserts := inserts + [Insert(token, userId)];
      assert inserts[..|inserts| - 1] == old(inserts);
    }

    /** `get_user_from_session`. */
    method GetUserFromSession(token: string) returns (userId: Option<int>)
      requires Valid()
      ensures userId.Some? <==> exists i :: 0 <= i < |inserts| && inserts[i].token == token
      ensures userId == if token in sessions then Some(sessions[token]) else None
    {
      FoldFindsLastInsert(inserts, token);
      userId := if token in sessions then Some(sessions[token]) else None;
    }

    /** The login's last step: a fresh token for the user, remembered, and returned for the cookie. */
    method StartSession(userId: int, random: seq<byte>) returns (token: string)
      requires Valid() && |random| == 32
      modifies this
      ensures Valid()
      ensures token == GenerateToken(random) && |token| == 44
      ensures sessions == old(sessions)[token := userId]
      ensures inserts == old(inserts) + [Insert(token, userId)]
    {
      token := GenerateToken(random);
      Put(token, userId);
    }
  }
}
