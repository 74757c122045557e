/**
  The revocation store: a table with a unique `jti` column, written by insert-or-ignore and
  purged of expired rows. Times are milliseconds; an identifier is a string, and the service
  treats an absent and an empty identifier alike.
*/
module RevokedTokens {
  import opened Common

  type Id = string

  datatype TokenType = Access | Refresh | Session

  // A row of the table, without its `jti`, which is the key.
  datatype Row = Row(sid: Option<Id>, tokenType: TokenType, expiresAt: int)

  type Table = map<Id, Row>

  datatype Revocation = Revocation(jti: Id, sid: Option<Id>, expiresAt: int, tokenType: TokenType)

  predicate Truthy(id: Option<Id>) {
    id.Some? && id.value != ""
  }

  function InsertOrIgnore(table: Table, r: Revocation): Table {
    if r.jti in table then table else table[r.jti := Row(r.sid, r.tokenType, r.expiresAt)]
  }

  function InsertAll(table: Table, rs: seq<Revocation>): Table {
    if rs == [] then table
    else InsertOrIgnore(InsertAll(table, rs[..|rs| - 1]), rs[|rs| - 1])
  }

  // The rows written for a logout: the token itself and, if it belongs to a session, a row that
  // stands for the whole session and outlives every refresh token issued up to now.
  function SessionRevocation(token: Revocation, refreshTtl: int, now: int): seq<Revocation> {
    if Truthy(token.sid) then
      [token, Revocation(token.sid.value, token.sid, now + refreshTtl, Session)]
    else
      [token]
  }

  predicate SessionRow(table: Table, sid: Id) {
    exists jti | jti in table :: table[jti].sid == Some(sid) && table[jti].tokenType == Session
  }

  predicate IsRevoked(table: Table, jti: Id, sid: Option<Id>) {
    jti in table || (Truthy(sid) && SessionRow(table, sid.value))
  }

  function Cleanup(table: Table, now: int): Table {
    map jti | jti in table && table[jti].expiresAt >= now :: table[jti]
  }

  // ----- What the operations mean to a caller of IsRevoked -----

  // Insert-or-ignore never loses or rewrites a row.
  lemma {:induction false} InsertAllKeeps(table: Table, rs: seq<Revocation>, jti: Id)
    ensures jti in InsertAll(table, rs) <==> jti in table || exists i | 0 <= i < |rs| :: rs[i].jti == jti
    ensures jti in table ==> InsertAll(table, rs)[jti] == table[jti]
  {
    if rs != [] {
      var init, last := rs[..|rs| - 1], rs[|rs| - 1];
      InsertAllKeeps(table, init, jti);
      assert forall i | 0 <= i < |init| :: init[i] == rs[i];
    }
  }

  // Of several revocations of one jti, the first one is stored.
  lemma {:induction false} InsertAllFirstWins(table: Table, rs: seq<Revocation>, i: nat)
    requires i < |rs| && rs[i].jti !in table
    requires forall h | 0 <= h < i :: rs[h].jti != rs[i].jti
    ensures rs[i].jti in InsertAll(table, rs)
    ensures InsertAll(table, rs)[rs[i].jti] == Row(rs[i].sid, rs[i].tokenType, rs[i].expiresAt)
  {
    var init := rs[..|rs| - 1];
    InsertAllKeeps(table, init, rs[i].jti);
    if i < |init| {
      InsertAllFirstWins(table, init, i);
    }
  }

  lemma InsertAllSnoc(table: Table, rs: seq<Revocation>, r: Revocation)
    ensures InsertAll(table, rs + [r]) == InsertOrIgnore(InsertAll(table, rs), r)
  {
    assert (rs + [r])[..|rs|] == rs;
  }

  lemma SessionRevocationRows(table: Table, token: Revocation, refreshTtl: int, now: int)
    ensures var rows := SessionRevocation(token, refreshTtl, now);
            InsertAll(table, rows) ==
            if Truthy(token.sid) then InsertOrIgnore(InsertOrIgnore(table, rows[0]), rows[1])
            else InsertOrIgnore(table, rows[0])
  {
    var rows := SessionRevocation(token, refreshTtl, now);
    InsertAllSnoc(table, [], token);
    assert [] + [token] == [token];
    if Truthy(token.sid) {
      InsertAllSnoc(table, [token], rows[1]);
      assert [token] + [rows[1]] == rows;
    }
  }

  // Revoking a token with a session revokes exactly that token, the session's own row, and every
  // token checked with that session identifier. The condition is what unique identifiers give:
  // the session's key is free or already holds the session's row.
  lemma RevocationMeaning(table: Table, token: Revocation, refreshTtl: int, now: int, jti: Id, sid: Option<Id>)
    requires Truthy(token.sid) ==>
               token.sid.value != token.jti &&
               (token.sid.value in table ==>
                  table[token.sid.value].sid == token.sid && table[token.sid.value].tokenType == Session)
    requires token.tokenType != Session
    ensures IsRevoked(InsertAll(table, SessionRevocation(token, refreshTtl, now)), jti, sid) <==>
              IsRevoked(table, jti, sid) || jti == token.jti ||
              (Truthy(token.sid) && (jti == token.sid.value || sid == token.sid))
  {
    var rs := SessionRevocation(token, refreshTtl, now);
    var after := InsertAll(table, rs);
    SessionRevocationRows(table, token, refreshTtl, now);
    if Truthy(token.sid) {
      assert after[token.sid.value].sid == token.sid && after[token.sid.value].tokenType == Session;
    }
    if Truthy(sid) && SessionRow(table, sid.value) {
      var k :| k in table && table[k].sid == sid && table[k].tokenType == Session;
      assert after[k] == table[k];
    }
  }

  class RevokedTokensService {
    var table: Table

    constructor ()
      ensures table == map[]
    {
      table := map[];
    }

    method RevokeTokens(tokens: seq<Revocation>)
      modifies this
      ensures table == InsertAll(old(table), tokens)
    {
      for i := 0 to |tokens|
        invariant table == InsertAll(old(table), tokens[..i])
      {
        assert tokens[..i + 1][..i] == tokens[..i];
        if tokens[i].jti !in table {
          table := table[tokens[i].jti := Row(tokens[i].sid, tokens[i].tokenType, tokens[i].expiresAt)];
        }
      }
      assert tokens[..|tokens|] == tokens;
    }

    method RevokeToken(token: Revocation, refreshTtl: int, now: int)
      modifies this
      ensures table == InsertAll(old(table), SessionRevocation(token, refreshTtl, now))
    {
      var tokens := [token];
      if token.sid.Some? && token.sid.value != "" {
        tokens := tokens + [Revocation(token.sid.value, token.sid, now + refreshTtl, Session)];
      }
      RevokeTokens(tokens);
    }

    method RevokeRefreshToken(token: Revocation)
      modifies this
      ensures table == InsertOrIgnore(old(table), token)
    {
      RevokeTokens([token]);
      assert InsertAll(old(table), [token][..0]) == old(table);
    }

    // Counts the rows the two alternatives of the query select, as the service does.
    method IsTokenRevoked(jti: Id, sid: Option<Id>) returns (revoked: bool)
      ensures revoked == IsRevoked(table, jti, sid)
    {
      var selected := set k | k in table && (k == jti ||
          (Truthy(sid) && table[k].sid == sid && table[k].tokenType == Session));
      if Truthy(sid) && SessionRow(table, sid.value) {
        ghost var k :| k in table && table[k].sid == Some(sid.value) && table[k].tokenType == Session;
        assert k in selected;
      } else if jti in table {
        assert jti in selected;
      }
      if selected != {} {
        ghost var k :| k in selected;
      }
      revoked := |selected| > 0;
    }

    method CleanupExpiredTokens(now: int)
      modifies this
      ensures table == Cleanup(old(table), now)
    {
      table := map jti | jti in table && table[jti].expiresAt >= now :: table[jti];
    }
  }
}
