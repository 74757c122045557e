/**
  Signing, the two passport strategies, login and logout. A signed token is the record of its
  claims; a presented token has a good signature exactly when it was signed here. Clocks are
  milliseconds and are passed in; fresh identifiers are passed in too.
*/
module JwtAuth {
  import opened Common
  import opened RevokedTokens

  // Token lifetimes in milliseconds.
  datatype Config = Config(accessTtl: int, refreshTtl: int)

  datatype Claims = Claims(
    sub: Id, email: Option<string>, tokenType: Option<TokenType>, jti: Option<Id>, sid: Option<Id>, exp: Option<int>)

  datatype AuthError = InvalidType | InvalidPayload | TokenRevoked | UnknownUser

  function Ttl(config: Config, tokenType: TokenType): int {
    if tokenType == Access then config.accessTtl else config.refreshTtl
  }

  // ----- Expiration (section 4.1.4 of RFC 7519: seconds, refused once the clock reaches it) -----

  // What the signing library writes: the issue time in whole seconds plus the lifetime.
  function SignedExp(now: int, ttl: int): int {
    now / 1000 + ttl / 1000
  }

  // What `sign` reports next to the token.
  function ReportedExp(now: int, ttl: int): int {
    (ttl + now) / 1000
  }

  predicate Unexpired(claims: Claims, now: int) {
    claims.exp.Some? ==> now / 1000 < claims.exp.value
  }

  // The reported expiration is the signed one or one second more, and never less.
  lemma ReportedExpIsClose(now: int, ttl: int)
    ensures SignedExp(now, ttl) <= ReportedExp(now, ttl) <= SignedExp(now, ttl) + 1
    ensures ReportedExp(now, ttl) == SignedExp(now, ttl) <==> now % 1000 + ttl % 1000 < 1000
    ensures 1000 * SignedExp(now, ttl) <= now + ttl
  {
    assert now + ttl == 1000 * (now / 1000 + ttl / 1000) + (now % 1000 + ttl % 1000);
  }

  // The two expirations agree at every instant exactly when the lifetime is a whole number of seconds.
  lemma ReportedExpIsExactIff(ttl: int)
    ensures (forall now :: ReportedExp(now, ttl) == SignedExp(now, ttl)) <==> ttl % 1000 == 0
  {
    forall now ensures ReportedExp(now, ttl) == SignedExp(now, ttl) <==> now % 1000 + ttl % 1000 < 1000 {
      ReportedExpIsClose(now, ttl);
    }
    if ttl % 1000 != 0 {
      assert 999 % 1000 == 999;
      assert ReportedExp(999, ttl) != SignedExp(999, ttl);
    }
  }

  // A token signed at `now` for `ttl` is accepted until a whole second before the one in which its
  // lifetime ends, at the earliest two seconds before; one without expiration is accepted for ever.
  lemma UnexpiredIff(claims: Claims, now: int, ttl: int, at: int)
    requires claims.exp in {None, Some(SignedExp(now, ttl))}
    ensures Unexpired(claims, at) <==>
              (claims.exp.Some? ==> at < 1000 * (now / 1000) + 1000 * (ttl / 1000))
    ensures at + 2000 <= now + ttl ==> Unexpired(claims, at)
    ensures claims.exp.Some? && at >= now + ttl ==> !Unexpired(claims, at)
  {
  }

  // ----- Decisions of the two strategies -----

  function CheckAccess(table: Table, payload: Claims, users: set<Id>): Result<Id, AuthError> {
    if payload.tokenType != Some(Access) then Err(InvalidType)
    else if Truthy(payload.jti) && IsRevoked(table, payload.jti.value, payload.sid) then Err(TokenRevoked)
    else if payload.sub !in users then Err(UnknownUser)
    else Ok(payload.sub)
  }

  // The part of the refresh strategy up to and including the revocation query.
  function CheckRefresh(table: Table, payload: Claims): Result<Id, AuthError> {
    if payload.tokenType != Some(Refresh) then Err(InvalidType)
    else if !Truthy(payload.jti) then Err(InvalidPayload)
    else if IsRevoked(table, payload.jti.value, payload.sid) then Err(TokenRevoked)
    else Ok(payload.jti.value)
  }

  // The token's own row, or a row of its session; empty identifiers never match.
  predicate Banned(table: Table, jti: Option<Id>, sid: Option<Id>) {
    && jti.Some? && jti.value != ""
    && (|| jti.value in table
        || (sid.Some? && sid.value != "" &&
            exists k | k in table :: table[k].sid == sid && table[k].tokenType == Session))
  }

  // An access token stands for its subject, if that is a known user; otherwise the answer says why not.
  lemma AccessAnswers(table: Table, payload: Claims, users: set<Id>)
    ensures var answer, banned := CheckAccess(table, payload, users), Banned(table, payload.jti, payload.sid);
            && (answer == Ok(payload.sub) <==>
                  payload.tokenType == Some(Access) && !banned && payload.sub in users)
            && (answer == Err(InvalidType) <==> payload.tokenType != Some(Access))
            && (answer == Err(TokenRevoked) <==> payload.tokenType == Some(Access) && banned)
            && (answer == Err(UnknownUser) <==>
                  payload.tokenType == Some(Access) && !banned && payload.sub !in users)
  {
  }

  lemma RefreshAnswers(table: Table, payload: Claims)
    ensures var answer, banned := CheckRefresh(table, payload), Banned(table, payload.jti, payload.sid);
            var anonymous := payload.jti == None || payload.jti == Some("");
            && (answer.Ok? <==> payload.tokenType == Some(Refresh) && !anonymous && !banned)
            && (answer == Err(InvalidType) <==> payload.tokenType != Some(Refresh))
            && (answer == Err(InvalidPayload) <==> payload.tokenType == Some(Refresh) && anonymous)
            && (answer == Err(TokenRevoked) <==> payload.tokenType == Some(Refresh) && !anonymous && banned)
  {
  }

  function NormalSid(sid: Option<Id>): Option<Id> {
    if Truthy(sid) then sid else None
  }

  // The row by which the refresh strategy spends a token.
  function RefreshRevocation(payload: Claims, config: Config, now: int): Revocation
    requires Truthy(payload.jti)
  {
    var expiresAt := if payload.exp.Some? && payload.exp.value != 0 then payload.exp.value * 1000
        else now + config.refreshTtl;
    Revocation(payload.jti.value, NormalSid(payload.sid), expiresAt, Refresh)
  }

  // The row by which logout revokes an access token; a token without jti or expiration is let go.
  function LogoutRevocation(payload: Claims): Option<Revocation> {
    if !Truthy(payload.jti) || payload.exp.None? || payload.exp.value == 0 then None
    else Some(Revocation(payload.jti.value, NormalSid(payload.sid), payload.exp.value * 1000, Access))
  }

  // The one row that an accepted refresh token leaves.
  lemma SpendWrites(table: Table, payload: Claims, config: Config, now: int)
    requires CheckRefresh(table, payload).Ok?
    ensures InsertOrIgnore(table, RefreshRevocation(payload, config, now)) ==
            table[payload.jti.value := Row(
                if payload.sid.Some? && payload.sid.value == "" then None else payload.sid, Refresh,
                if payload.exp.None? || payload.exp.value == 0 then now + config.refreshTtl
                else 1000 * payload.exp.value)]
  {
    var row := RefreshRevocation(payload, config, now);
    assert row.jti !in table;
    assert row.sid == if payload.sid.Some? && payload.sid.value == "" then None else payload.sid;
  }

  // What a logout writes, key by key: for a token with jti and expiration a row of its own, that lasts
  // as long as the token, and for one with a session a row that lasts one refresh lifetime from now.
  lemma LogoutWrites(table: Table, payload: Claims, config: Config, now: int, k: Id)
    ensures var known := payload.jti.Some? && payload.jti.value != "" && payload.exp.Some? && payload.exp.value != 0;
            var sid := if payload.sid.Some? && payload.sid.value == "" then None else payload.sid;
            var next := AfterLogout(table, payload, config, now);
            && (k in next <==> k in table || (known && (payload.jti == Some(k) || sid == Some(k))))
            && (k in table ==> next[k] == table[k])
            && (known && k !in table && payload.jti == Some(k) ==>
                  next[k] == Row(sid, Access, 1000 * payload.exp.value))
            && (known && k !in table && payload.jti != Some(k) && sid == Some(k) ==>
                  next[k] == Row(sid, Session, now + config.refreshTtl))
  {
    var row := LogoutRevocation(payload);
    if row.Some? {
      SessionRevocationRows(table, row.value, config.refreshTtl, now);
    }
  }

  function AfterLogout(table: Table, payload: Claims, config: Config, now: int): Table {
    match LogoutRevocation(payload)
    case None => table
    case Some(row) => InsertAll(table, SessionRevocation(row, config.refreshTtl, now))
  }

  // A refresh token that was accepted is rejected as long as its row survives, whatever else is revoked.
  lemma SpentRefreshTokenIsRejected(table: Table, payload: Claims, config: Config, now: int, others: seq<Revocation>,
      purge: int)
    requires CheckRefresh(table, payload).Ok?
    requires payload.exp.Some? && payload.exp.value != 0
    ensures var spent := InsertAll(InsertOrIgnore(table, RefreshRevocation(payload, config, now)), others);
            CheckRefresh(Cleanup(spent, purge), payload) == Err(TokenRevoked) || payload.exp.value * 1000 < purge
  {
    var row := RefreshRevocation(payload, config, now);
    InsertAllKeeps(InsertOrIgnore(table, row), others, row.jti);
  }

  // ----- The services -----

  // What the two tokens of a login carry.
  function AccessClaims(config: Config, sub: Id, email: string, sid: Id, jti: Id, now: int): Claims {
    Claims(sub, Some(email), Some(Access), Some(jti), Some(sid), Some(SignedExp(now, config.accessTtl)))
  }

  function RefreshClaims(config: Config, sub: Id, sid: Id, jti: Id, now: int): Claims {
    Claims(sub, None, Some(Refresh), Some(jti), Some(sid), Some(SignedExp(now, config.refreshTtl)))
  }

  datatype Signed = Signed(token: Claims, reported: Claims)

  class JWTAuthService {
    const config: Config
    const revokedTokens: RevokedTokensService

    constructor (config: Config, revokedTokens: RevokedTokensService)
      ensures this.config == config && this.revokedTokens == revokedTokens
    {
      this.config := config;
      this.revokedTokens := revokedTokens;
    }

    // The token carries the requested claims, the type and a jti; the report differs from it in `exp` only.
    method Sign(sub: Id, email: Option<string>, sid: Option<Id>, tokenType: TokenType, jti: Id, now: int)
      returns (signed: Signed)
      ensures signed.token ==
              Claims(sub, email, Some(tokenType), Some(jti), sid, Some(SignedExp(now, Ttl(config, tokenType))))
      ensures signed.reported == signed.token.(exp := Some(ReportedExp(now, Ttl(config, tokenType))))
    {
      var expiresIn := if tokenType == Access then config.accessTtl else config.refreshTtl;
      var token := Claims(sub, email, Some(tokenType), Some(jti), sid, Some(SignedExp(now, expiresIn)));
      signed := Signed(token, token.(exp := Some((expiresIn + now) / 1000)));
    }

    method RevokeToken(token: Revocation, now: int)
      modifies revokedTokens
      ensures revokedTokens.table == InsertAll(old(revokedTokens.table),
          SessionRevocation(token, config.refreshTtl, now))
    {
      revokedTokens.RevokeToken(token, config.refreshTtl, now);
    }
  }

  class JwtAuthStrategy {
    const revokedTokens: RevokedTokensService

    constructor (revokedTokens: RevokedTokensService)
      ensures this.revokedTokens == revokedTokens
    {
      this.revokedTokens := revokedTokens;
    }

    // `jwt` is what the strategy attaches to the request for logout to find.
    method Validate(payload: Claims, users: set<Id>) returns (result: Result<Id, AuthError>, jwt: Option<Claims>)
      ensures result == CheckAccess(revokedTokens.table, payload, users)
      ensures result.Ok? ==> result.value == payload.sub && payload.sub in users
      ensures result == Err(InvalidType) <==> payload.tokenType != Some(Access)
      ensures result == Err(TokenRevoked) <==>
                payload.tokenType == Some(Access) && Banned(revokedTokens.table, payload.jti, payload.sid)
      ensures result == Err(UnknownUser) <==>
                && payload.tokenType == Some(Access) && !Banned(revokedTokens.table, payload.jti, payload.sid)
                && payload.sub !in users
      ensures jwt == if result.Ok? then Some(payload) else None
    {
      if payload.tokenType != Some(Access) {
        return Err(InvalidType), None;
      }
      if Truthy(payload.jti) {
        var isRevoked := revokedTokens.IsTokenRevoked(payload.jti.value, payload.sid);
        if isRevoked {
          return Err(TokenRevoked), None;
        }
      }
      if payload.sub !in users {
        return Err(UnknownUser), None;
      }
      return Ok(payload.sub), Some(payload);
    }
  }

  class JwtAuthRefreshStrategy {
    const config: Config
    const revokedTokens: RevokedTokensService

    constructor (config: Config, revokedTokens: RevokedTokensService)
      ensures this.config == config && this.revokedTokens == revokedTokens
    {
      this.config := config;
      this.revokedTokens := revokedTokens;
    }

    // With no other request in between, the query and the insertion are one step. The token is
    // spent even when its user no longer exists.
    method Validate(payload: Claims, users: set<Id>, now: int) returns (result: Result<Id, AuthError>)
      modifies revokedTokens
      ensures result.Ok? ==> result.value == payload.sub && payload.sub in users
      ensures var checked := CheckRefresh(old(revokedTokens.table), payload);
              && revokedTokens.table == (if checked.Ok? then
                  InsertOrIgnore(old(revokedTokens.table), RefreshRevocation(payload, config, now))
                                         else old(revokedTokens.table))
              && result == (if checked.Err? then Err(checked.error) else if payload.sub in users then
                  Ok(payload.sub) else Err(UnknownUser))
    {
      if payload.tokenType != Some(Refresh) {
        return Err(InvalidType);
      }
      if !Truthy(payload.jti) {
        return Err(InvalidPayload);
      }
      var isRevoked := revokedTokens.IsTokenRevoked(payload.jti.value, payload.sid);
      if isRevoked {
        return Err(TokenRevoked);
      } else {
        var expiresAt := if payload.exp.Some? && payload.exp.value != 0 then payload.exp.value * 1000
            else now + config.refreshTtl;
        revokedTokens.RevokeRefreshToken(Revocation(payload.jti.value, NormalSid(payload.sid), expiresAt, Refresh));
      }
      if payload.sub !in users {
        return Err(UnknownUser);
      }
      return Ok(payload.sub);
    }
  }

  class AuthService {
    const jwt: JWTAuthService

    constructor (jwt: JWTAuthService)
      ensures this.jwt == jwt
    {
      this.jwt := jwt;
    }

    // One access and one refresh token under one session identifier; only the access token names
    // the user's email. Each comes with the payload reported for its cookie.
    method Login(sub: Id, email: string, sid: Id, accessJti: Id, refreshJti: Id, now: int)
      returns (access: Signed, refresh: Signed)
      ensures access.token.email == Some(email) && refresh.token.email == None
      ensures access.token.sub == refresh.token.sub == sub && access.token.sid == refresh.token.sid == Some(sid)
      ensures access.token == AccessClaims(jwt.config, sub, email, sid, accessJti, now)
      ensures refresh.token == RefreshClaims(jwt.config, sub, sid, refreshJti, now)
      ensures access.reported == access.token.(exp := Some(ReportedExp(now, jwt.config.accessTtl)))
      ensures refresh.reported == refresh.token.(exp := Some(ReportedExp(now, jwt.config.refreshTtl)))
    {
      access := jwt.Sign(sub, Some(email), Some(sid), Access, accessJti, now);
      refresh := jwt.Sign(sub, None, Some(sid), Refresh, refreshJti, now);
    }

    method Logout(payload: Claims, now: int)
      modifies jwt.revokedTokens
      ensures jwt.revokedTokens.table == AfterLogout(old(jwt.revokedTokens.table), payload, jwt.config, now)
    {
      if !Truthy(payload.jti) || payload.exp.None? || payload.exp.value == 0 {
        return;
      }
      jwt.RevokeToken(Revocation(payload.jti.value, NormalSid(payload.sid), payload.exp.value * 1000, Access), now);
    }
  }
}
