/**
  The token session protocol as a transition system, and what holds over all its runs.

  A run is a sequence of events: the clock moves, users log in, refresh requests are checked,
  spend their token and are answered (as separate steps, or as one), sessions are logged out, and
  expired rows are purged. A token's expiry is verified no later than the table is queried for it,
  and logout and the purge read the clock no later than they write. Identifiers are fresh when a
  pair of tokens is issued.
*/
module Sessions {
  import opened Common
  import opened RevokedTokens
  import opened JwtAuth

  datatype Token = Token(sub: Id, kind: TokenType, jti: Id, sid: Id, issuedAt: nat)

  // A refresh request after its revocation query, and after its insertion.
  datatype Progress = Checked(token: Token) | Spent(token: Token)

  datatype Pair = Pair(access: Token, refresh: Token)

  datatype State = State(
    now: nat,
    table: Table,
    tokens: map<Id, Token>,       // every token issued so far, by jti
    pairs: map<Id, Pair>,         // the pair issued together, by sid
    used: set<Id>,                // every identifier generated so far
    inFlight: map<nat, Progress>, // refresh requests under way
    directLogins: nat,
    purgedAt: nat)                // the latest clock reading of a purge

  datatype Ids = Ids(sid: Id, accessJti: Id, refreshJti: Id)

  datatype Event =
    | Tick(to: nat)
    | Login(sub: Id, ids: Ids)
    | RefreshCheck(req: nat, token: Token, verifiedAt: nat)
    | RefreshRevoke(req: nat)
    | RefreshIssue(req: nat, ids: Ids)
    | RefreshAbort(req: nat)
    | Rotate(token: Token, verifiedAt: nat, issue: Option<Ids>) // query and insertion in one step
    | Logout(token: Token, verifiedAt: nat, readAt: nat)
    | Purge(readAt: nat)

  const INITIAL := State(0, map[], map[], map[], {}, map[], 0, 0)

  // The email an access token names plays no part in any decision, and is left out here.
  function ClaimsOf(config: Config, t: Token): Claims {
    Claims(t.sub, None, Some(t.kind), Some(t.jti), Some(t.sid), Some(SignedExp(t.issuedAt, Ttl(config, t.kind))))
  }

  function ExpiresAt(config: Config, t: Token): int {
    1000 * SignedExp(t.issuedAt, Ttl(config, t.kind))
  }

  predicate Alive(config: Config, t: Token, now: int) {
    Unexpired(ClaimsOf(config, t), now)
  }

  // In milliseconds: the whole seconds of its lifetime, from the whole second it was issued in.
  lemma AliveIff(config: Config, t: Token, at: int)
    ensures var ttl := if t.kind == Access then config.accessTtl else config.refreshTtl;
            Alive(config, t, at) <==> at < 1000 * (t.issuedAt / 1000) + 1000 * (ttl / 1000)
  {
    UnexpiredIff(ClaimsOf(config, t), t.issuedAt, Ttl(config, t.kind), at);
  }

  predicate Revoked(st: State, t: Token) {
    IsRevoked(st.table, t.jti, Some(t.sid))
  }

  // A request whose token was verified at `verifiedAt` and is looked up now.
  predicate RefreshPasses(config: Config, st: State, t: Token, verifiedAt: nat) {
    Alive(config, t, verifiedAt) && CheckRefresh(st.table, ClaimsOf(config, t)).Ok?
  }

  predicate AccessPasses(config: Config, st: State, t: Token, users: set<Id>, verifiedAt: nat) {
    Alive(config, t, verifiedAt) && CheckAccess(st.table, ClaimsOf(config, t), users).Ok?
  }

  predicate Fresh(st: State, ids: Ids) {
    && ids.sid != "" && ids.accessJti != "" && ids.refreshJti != ""
    && ids.sid != ids.accessJti && ids.sid != ids.refreshJti && ids.accessJti != ids.refreshJti
    && {ids.sid, ids.accessJti, ids.refreshJti} !! st.used
  }

  predicate Issued(st: State, t: Token) {
    t.jti in st.tokens && st.tokens[t.jti] == t
  }

  predicate Enabled(config: Config, st: State, e: Event) {
    match e
    case Tick(to) => st.now <= to
    case Login(_, ids) => Fresh(st, ids)
    case RefreshCheck(req, t, verifiedAt) =>
      req !in st.inFlight && Issued(st, t) && t.issuedAt <= verifiedAt <= st.now
    case RefreshRevoke(req) => req in st.inFlight && st.inFlight[req].Checked?
    case RefreshIssue(req, ids) => req in st.inFlight && st.inFlight[req].Spent? && Fresh(st, ids)
    case RefreshAbort(req) => req in st.inFlight && st.inFlight[req].Spent?
    case Rotate(t, verifiedAt, issue) =>
      Issued(st, t) && t.issuedAt <= verifiedAt <= st.now && (issue.Some? ==> Fresh(st, issue.value))
    case Logout(t, verifiedAt, readAt) =>
      && Issued(st, t) && t.kind == Access
      && t.issuedAt <= verifiedAt <= readAt <= st.now
      && Alive(config, t, verifiedAt)
    case Purge(readAt) => readAt <= st.now
  }

  function Issue(st: State, sub: Id, ids: Ids): State {
    var access := Token(sub, Access, ids.accessJti, ids.sid, st.now);
    var refresh := Token(sub, Refresh, ids.refreshJti, ids.sid, st.now);
    st.(tokens := st.tokens[ids.accessJti := access][ids.refreshJti := refresh],
        pairs := st.pairs[ids.sid := Pair(access, refresh)],
        used := st.used + {ids.sid, ids.accessJti, ids.refreshJti})
  }

  // The pair recorded stands for the two tokens a login signs now: they have the same claims up to
  // the email, which no decision depends on.
  lemma IssueIsLogin(config: Config, st: State, sub: Id, email: string, ids: Ids, table: Table, users: set<Id>, at: int)
    requires ids.accessJti != ids.refreshJti
    ensures var next, pair := Issue(st, sub, ids), Issue(st, sub, ids).pairs[ids.sid];
            var access := AccessClaims(config, sub, email, ids.sid, ids.accessJti, st.now);
            && Issued(next, pair.access) && Issued(next, pair.refresh)
            && ClaimsOf(config, pair.refresh) == RefreshClaims(config, sub, ids.sid, ids.refreshJti, st.now)
            && ClaimsOf(config, pair.access) == access.(email := None)
            && Unexpired(ClaimsOf(config, pair.access), at) == Unexpired(access, at)
            && CheckAccess(table, ClaimsOf(config, pair.access), users) == CheckAccess(table, access, users)
            && CheckRefresh(table, ClaimsOf(config, pair.access)) == CheckRefresh(table, access)
            && LogoutRevocation(ClaimsOf(config, pair.access)) == LogoutRevocation(access)
  {
  }

  function Spend(config: Config, st: State, t: Token): State
    requires t.jti != ""
  {
    st.(table := InsertOrIgnore(st.table, RefreshRevocation(ClaimsOf(config, t), config, st.now)))
  }

  // Whether the event is a refresh request that gets through.
  predicate Passes(config: Config, st: State, e: Event) {
    match e
    case RefreshCheck(_, t, verifiedAt) => RefreshPasses(config, st, t, verifiedAt)
    case Rotate(t, verifiedAt, _) => RefreshPasses(config, st, t, verifiedAt)
    case _ => false
  }

  // With `purging` off, a purge deletes nothing. `passes` is the decision on a refresh request.
  function Step(config: Config, purging: bool, passes: bool, st: State, e: Event): State {
    match e
    case Tick(to) => st.(now := to)
    case Login(sub, ids) => Issue(st, sub, ids).(directLogins := st.directLogins + 1)
    case RefreshCheck(req, t, _) => if passes then st.(inFlight := st.inFlight[req := Checked(t)]) else st
    case RefreshRevoke(req) =>
      if req in st.inFlight && st.inFlight[req].token.jti != "" then
        Spend(config, st, st.inFlight[req].token).(inFlight := st.inFlight[req := Spent(st.inFlight[req].token)])
      else st
    case RefreshIssue(req, ids) =>
      if req in st.inFlight then Issue(st, st.inFlight[req].token.sub, ids).(inFlight := st.inFlight - {req}) else st
    case RefreshAbort(req) => st.(inFlight := st.inFlight - {req})
    case Rotate(t, _, issue) =>
      if passes && t.jti != "" then
        var spent := Spend(config, st, t);
        if issue.Some? then Issue(spent, t.sub, issue.value) else spent
      else st
    case Logout(t, _, readAt) =>
      (match LogoutRevocation(ClaimsOf(config, t))
       case None => st
       case Some(row) => st.(table := InsertAll(st.table, SessionRevocation(row, config.refreshTtl, readAt))))
    case Purge(readAt) =>
      st.(table := if purging then Cleanup(st.table, readAt) else st.table,
          purgedAt := if readAt > st.purgedAt then readAt else st.purgedAt)
  }

  // A service that decides by its own table.
  function Run(config: Config, purging: bool, es: seq<Event>): State {
    if es == [] then INITIAL
    else
      var st, e := Run(config, purging, es[..|es| - 1]), es[|es| - 1];
      Step(config, purging, Passes(config, st, e), st, e)
  }

  // The state the deployed service is in after `es`.
  function After(config: Config, es: seq<Event>): State {
    Run(config, true, es)
  }

  // The same run, with the same decisions, but for the purges: its table is a set that only grows.
  function Unpurged(config: Config, es: seq<Event>): State {
    if es == [] then INITIAL
    else
      var init, e := es[..|es| - 1], es[|es| - 1];
      Step(config, false, Passes(config, After(config, init), e), Unpurged(config, init), e)
  }

  predicate Legal(config: Config, es: seq<Event>) {
    es != [] ==> Legal(config, es[..|es| - 1]) && Enabled(config, After(config, es[..|es| - 1]), es[|es| - 1])
  }

  // ----- Invariants -----

  function OwnRow(config: Config, t: Token): Row {
    Row(Some(t.sid), t.kind, ExpiresAt(config, t))
  }

  // Tokens come in pairs: a token is the access or the refresh token of its session's pair.
  predicate TokenInv(st: State, t: Token) {
    && t.sid in st.pairs
    && (t == st.pairs[t.sid].access || t == st.pairs[t.sid].refresh)
    && t.jti in st.used && t.jti != ""
  }

  predicate PairInv(st: State, sid: Id) {
    sid in st.pairs ==>
      var Pair(access, refresh) := st.pairs[sid];
      && access.kind == Access && refresh.kind == Refresh
      && access.sid == refresh.sid == sid && access.sub == refresh.sub
      && access.issuedAt == refresh.issuedAt <= st.now
      && Issued(st, access) && Issued(st, refresh)
      && sid in st.used && sid != "" && sid !in st.tokens
  }

  predicate TokensInv(st: State) {
    && (forall j | j in st.tokens :: st.tokens[j].jti == j && TokenInv(st, st.tokens[j]))
    && (forall sid | sid in st.pairs :: PairInv(st, sid))
  }

  predicate InFlightInv(config: Config, st: State) {
    forall req | req in st.inFlight ::
      var t := st.inFlight[req].token;
      Issued(st, t) && t.kind == Refresh && ExpiresAt(config, t) > 0
  }

  // A row belongs to an issued token and expires with it, or stands for a session and outlives its refresh token.
  predicate RowInv(config: Config, st: State, k: Id, row: Row) {
    && k in st.used
    && if k in st.tokens then row == OwnRow(config, st.tokens[k])
       else && row.tokenType == Session && row.sid == Some(k)
            && k in st.pairs && ExpiresAt(config, st.pairs[k].refresh) <= row.expiresAt
  }

  predicate TableInv(config: Config, st: State, table: Table) {
    forall k | k in table :: RowInv(config, st, k, table[k])
  }

  predicate Inv(config: Config, st: State) {
    TokensInv(st) && InFlightInv(config, st) && TableInv(config, st, st.table) && st.purgedAt <= st.now
  }

  // On a well-formed table the two alternatives of the query are two key lookups.
  lemma RevokedByKeys(config: Config, st: State, t: Token)
    requires Inv(config, st) && Issued(st, t)
    ensures Revoked(st, t) <==> t.jti in st.table || t.sid in st.table
  {
    if t.sid in st.table {
      assert st.table[t.sid].sid == Some(t.sid) && st.table[t.sid].tokenType == Session;
    }
  }

  lemma ExpiresWithinTtl(config: Config, t: Token)
    ensures ExpiresAt(config, t) <= t.issuedAt + Ttl(config, t.kind)
  {
    ReportedExpIsClose(t.issuedAt, Ttl(config, t.kind));
  }

  lemma IssueKeepsInv(config: Config, st: State, sub: Id, ids: Ids)
    requires Inv(config, st) && Fresh(st, ids)
    ensures Inv(config, Issue(st, sub, ids))
  {
    IssueKeepsTokens(st, sub, ids);
    var next := Issue(st, sub, ids);
    forall k | k in st.table ensures RowInv(config, next, k, st.table[k]) {
      IssueKeepsRow(config, st, sub, ids, k, st.table[k]);
    }
    FreshAreNew(st, ids);
  }

  lemma FreshAreNew(st: State, ids: Ids)
    requires Fresh(st, ids)
    ensures ids.sid !in st.used && ids.accessJti !in st.used && ids.refreshJti !in st.used
    ensures TokensInv(st) ==> ids.accessJti !in st.tokens && ids.refreshJti !in st.tokens && ids.sid !in st.pairs
  {
    var new3 := {ids.sid, ids.accessJti, ids.refreshJti};
    assert ids.sid in new3 && ids.accessJti in new3 && ids.refreshJti in new3;
    if TokensInv(st) {
      assert ids.accessJti in st.tokens ==> TokenInv(st, st.tokens[ids.accessJti]);
      assert ids.refreshJti in st.tokens ==> TokenInv(st, st.tokens[ids.refreshJti]);
      assert ids.sid in st.pairs ==> PairInv(st, ids.sid);
    }
  }

  lemma IssueKeepsRow(config: Config, st: State, sub: Id, ids: Ids, k: Id, row: Row)
    requires Fresh(st, ids) && RowInv(config, st, k, row)
    ensures RowInv(config, Issue(st, sub, ids), k, row)
  {
    FreshAreNew(st, ids);
  }

  lemma IssueKeepsTokens(st: State, sub: Id, ids: Ids)
    requires TokensInv(st) && Fresh(st, ids)
    ensures TokensInv(Issue(st, sub, ids))
  {
    var next := Issue(st, sub, ids);
    FreshAreNew(st, ids);
    forall j | j in next.tokens ensures next.tokens[j].jti == j && TokenInv(next, next.tokens[j]) {
      if j in st.tokens {
        assert TokenInv(st, st.tokens[j]);
      }
    }
    forall sid | sid in next.pairs ensures PairInv(next, sid) {
      if sid in st.pairs {
        assert PairInv(st, sid);
      }
    }
  }

  // The invariant on tokens looks at neither the table, the requests under way nor the login count.
  lemma TokensInvIgnoresWork(st: State, next: State)
    requires TokensInv(st)
    requires next == st.(table := next.table, inFlight := next.inFlight, directLogins := next.directLogins,
                         purgedAt := next.purgedAt)
    ensures TokensInv(next)
  {
    forall j | j in st.tokens ensures TokenInv(next, st.tokens[j]) {
      assert TokenInv(st, st.tokens[j]);
    }
    forall sid | sid in st.pairs ensures PairInv(next, sid) {
      assert PairInv(st, sid);
    }
  }

  function AddRow(table: Table, k: Id, row: Row): Table {
    if k in table then table else table[k := row]
  }

  lemma SpendAddsRow(config: Config, st: State, t: Token)
    requires t.jti != "" && t.sid != "" && t.kind == Refresh && ExpiresAt(config, t) > 0
    ensures Spend(config, st, t) == st.(table := AddRow(st.table, t.jti, OwnRow(config, t)))
  {
  }

  // The two rows a logout writes, and the keys under which they go.
  lemma LogoutAddsRows(config: Config, st: State, t: Token, verifiedAt: nat, readAt: nat, purging: bool)
    requires t.jti != "" && t.sid != "" && Enabled(config, st, Logout(t, verifiedAt, readAt))
    ensures Step(config, purging, false, st, Logout(t, verifiedAt, readAt)) ==
              st.(table := AddRow(AddRow(st.table, t.jti, OwnRow(config, t)), t.sid,
                  Row(Some(t.sid), Session, readAt + config.refreshTtl)))
  {
    var claims := ClaimsOf(config, t);
    assert claims.exp.value > 0;
    SessionRevocationRows(st.table, LogoutRevocation(claims).value, config.refreshTtl, readAt);
  }

  // ----- The purged table simulates the ever-growing one -----

  // The owner of a deleted key can no longer use it.
  predicate Forgotten(config: Config, st: State, k: Id) {
    if k in st.tokens then ExpiresAt(config, st.tokens[k]) < st.purgedAt
    else k in st.pairs && ExpiresAt(config, st.pairs[k].refresh) < st.purgedAt
  }

  // A logged-out session's access token has a row of its own.
  predicate LoggedOut(st: State, table: Table, k: Id) {
    k in st.tokens || (k in st.pairs && st.pairs[k].access.jti in table)
  }

  predicate TableSim(config: Config, live: State, table: Table) {
    && TableInv(config, live, table)
    && live.table.Keys <= table.Keys
    && (forall k | k in table && k !in live.table :: Forgotten(config, live, k))
    && (forall k | k in table :: LoggedOut(live, table, k))
  }

  // `ideal` is the state of the run in which nothing is purged.
  predicate Simulates(config: Config, live: State, ideal: State) {
    live == ideal.(table := live.table) && Inv(config, live) && TableSim(config, live, ideal.table)
  }

  lemma IdealInv(config: Config, live: State, ideal: State)
    requires Simulates(config, live, ideal)
    ensures Inv(config, ideal)
  {
    TokensInvIgnoresWork(live, ideal);
    forall k | k in ideal.table ensures RowInv(config, ideal, k, ideal.table[k]) {
      assert RowInv(config, live, k, ideal.table[k]);
    }
  }

  lemma SimulationAgrees(config: Config, live: State, ideal: State, t: Token)
    requires Simulates(config, live, ideal) && Issued(live, t) && live.purgedAt <= ExpiresAt(config, t)
    ensures Revoked(live, t) == Revoked(ideal, t)
  {
    IdealInv(config, live, ideal);
    RevokedByKeys(config, live, t);
    RevokedByKeys(config, ideal, t);
    assert TokenInv(live, t);
    assert PairInv(live, t.sid);
  }

  lemma AliveBeforeExpiry(config: Config, t: Token, now: nat)
    requires Alive(config, t, now)
    ensures now < ExpiresAt(config, t)
  {
  }

  lemma IssueSimulates(config: Config, live: State, ideal: State, sub: Id, ids: Ids)
    requires Simulates(config, live, ideal) && Fresh(live, ids)
    ensures Simulates(config, Issue(live, sub, ids), Issue(ideal, sub, ids))
  {
    IssueKeepsInv(config, live, sub, ids);
    var next := Issue(live, sub, ids);
    FreshAreNew(live, ids);
    forall k | k in ideal.table
      ensures RowInv(config, next, k, ideal.table[k]) && LoggedOut(next, ideal.table, k)
      ensures k !in live.table ==> Forgotten(config, next, k)
    {
      assert RowInv(config, live, k, ideal.table[k]) && LoggedOut(live, ideal.table, k);
      IssueKeepsRow(config, live, sub, ids, k, ideal.table[k]);
    }
  }

  // Adding one well-formed row to both tables keeps the simulation.
  lemma AddRowSimulates(config: Config, live: State, ideal: State, k: Id, row: Row)
    requires Simulates(config, live, ideal)
    requires RowInv(config, live, k, row) && LoggedOut(live, ideal.table, k)
    ensures Simulates(config, live.(table := AddRow(live.table, k, row)), ideal.(table := AddRow(ideal.table, k, row)))
  {
    var next, table := live.(table := AddRow(live.table, k, row)), AddRow(ideal.table, k, row);
    TokensInvIgnoresWork(live, next);
    AddRowKeepsRows(config, live, live.table, next.table, k, row);
    AddRowKeepsRows(config, live, ideal.table, next.table, k, row);
    forall h | h in table
      ensures LoggedOut(next, table, h)
      ensures h !in next.table ==> Forgotten(config, next, h)
    {
      if h in ideal.table {
        assert LoggedOut(live, ideal.table, h);
      }
    }
  }

  lemma AddRowKeepsRows(config: Config, st: State, table: Table, stored: Table, k: Id, row: Row)
    requires TableInv(config, st, table) && RowInv(config, st, k, row)
    ensures TableInv(config, st.(table := stored), AddRow(table, k, row))
  {
    forall h | h in AddRow(table, k, row) ensures RowInv(config, st.(table := stored), h, AddRow(table, k, row)[h]) {
      if h in table {
        assert RowInv(config, st, h, table[h]);
      }
    }
  }

  lemma SpendSimulates(config: Config, live: State, ideal: State, t: Token)
    requires Simulates(config, live, ideal)
    requires Issued(live, t) && t.kind == Refresh && ExpiresAt(config, t) > 0
    ensures t.jti != "" && Simulates(config, Spend(config, live, t), Spend(config, ideal, t))
  {
    assert TokenInv(live, t) && PairInv(live, t.sid);
    SpendAddsRow(config, live, t);
    SpendAddsRow(config, ideal, t);
    AddRowSimulates(config, live, ideal, t.jti, OwnRow(config, t));
  }

  lemma LogoutSimulates(config: Config, live: State, ideal: State, t: Token, verifiedAt: nat, readAt: nat)
    requires Simulates(config, live, ideal) && Enabled(config, live, Logout(t, verifiedAt, readAt))
    ensures var e := Logout(t, verifiedAt, readAt);
            Simulates(config, Step(config, true, false, live, e), Step(config, false, false, ideal, e))
  {
    assert TokenInv(live, t) && PairInv(live, t.sid);
    LogoutAddsRows(config, live, t, verifiedAt, readAt, true);
    LogoutAddsRows(config, ideal, t, verifiedAt, readAt, false);
    var own, session := OwnRow(config, t), Row(Some(t.sid), Session, readAt + config.refreshTtl);
    AddRowSimulates(config, live, ideal, t.jti, own);
    ExpiresWithinTtl(config, live.pairs[t.sid].refresh);
    var live1 := live.(table := AddRow(live.table, t.jti, own));
    var ideal1 := ideal.(table := AddRow(ideal.table, t.jti, own));
    assert RowInv(config, live1, t.sid, session);
    assert LoggedOut(live1, ideal1.table, t.sid);
    AddRowSimulates(config, live1, ideal1, t.sid, session);
  }

  lemma TickSimulates(config: Config, live: State, ideal: State, to: nat)
    requires Simulates(config, live, ideal) && live.now <= to
    ensures Simulates(config, live.(now := to), ideal.(now := to))
  {
    var next := live.(now := to);
    forall j | j in live.tokens ensures TokenInv(next, live.tokens[j]) {
      assert TokenInv(live, live.tokens[j]);
    }
    forall sid | sid in live.pairs ensures PairInv(next, sid) {
      assert PairInv(live, sid);
    }
    forall k | k in ideal.table
      ensures RowInv(config, next, k, ideal.table[k]) && LoggedOut(next, ideal.table, k)
      ensures k in live.table ==> RowInv(config, next, k, live.table[k])
      ensures k !in live.table ==> Forgotten(config, next, k)
    {
      assert RowInv(config, live, k, ideal.table[k]) && LoggedOut(live, ideal.table, k);
    }
  }

  lemma PurgeSimulates(config: Config, live: State, ideal: State, readAt: nat)
    requires Simulates(config, live, ideal) && readAt <= live.now
    ensures var e := Purge(readAt);
            Simulates(config, Step(config, true, false, live, e), Step(config, false, false, ideal, e))
  {
    var next := Step(config, true, false, live, Purge(readAt));
    TokensInvIgnoresWork(live, next);
    forall k | k in next.table ensures RowInv(config, next, k, next.table[k]) {
      assert RowInv(config, live, k, live.table[k]);
    }
    forall k | k in ideal.table
      ensures RowInv(config, next, k, ideal.table[k]) && LoggedOut(next, ideal.table, k)
      ensures k !in next.table ==> Forgotten(config, next, k)
    {
      assert RowInv(config, live, k, ideal.table[k]) && LoggedOut(live, ideal.table, k);
    }
  }

  // What is known of the tables does not depend on the requests under way or the login count.
  lemma TableSimIgnoresWork(config: Config, live: State, next: State, table: Table)
    requires TableSim(config, live, table) && TableInv(config, live, live.table)
    requires next == live.(inFlight := next.inFlight, directLogins := next.directLogins)
    ensures TableSim(config, next, table) && TableInv(config, next, next.table)
  {
    forall k | k in table
      ensures RowInv(config, next, k, table[k]) && LoggedOut(next, table, k)
      ensures k !in live.table ==> Forgotten(config, next, k)
    {
      assert RowInv(config, live, k, table[k]) && LoggedOut(live, table, k);
    }
    forall k | k in next.table ensures RowInv(config, next, k, next.table[k]) {
      assert RowInv(config, live, k, live.table[k]);
    }
  }

  // Changing only the requests under way, or the login count, keeps the simulation.
  lemma WorkSimulates(config: Config, live: State, ideal: State, inFlight: map<nat, Progress>, directLogins: nat)
    requires Simulates(config, live, ideal) && InFlightInv(config, live.(inFlight := inFlight))
    ensures Simulates(config, live.(inFlight := inFlight, directLogins := directLogins),
                      ideal.(inFlight := inFlight, directLogins := directLogins))
  {
    var next := live.(inFlight := inFlight, directLogins := directLogins);
    TokensInvIgnoresWork(live, next);
    TableSimIgnoresWork(config, live, next, ideal.table);
    assert InFlightInv(config, next) by {
      forall req | req in inFlight ensures Issued(next, inFlight[req].token) {
        assert Issued(live.(inFlight := inFlight), inFlight[req].token);
      }
    }
  }

  lemma LoginSimulates(config: Config, live: State, ideal: State, sub: Id, ids: Ids)
    requires Simulates(config, live, ideal) && Fresh(live, ids)
    ensures var e := Login(sub, ids);
            Simulates(config, Step(config, true, false, live, e), Step(config, false, false, ideal, e))
  {
    CountedIssueSimulates(config, live, ideal, sub, ids);
  }

  lemma CountedIssueSimulates(config: Config, live: State, ideal: State, sub: Id, ids: Ids)
    requires Simulates(config, live, ideal) && Fresh(live, ids)
    ensures Simulates(config, Issue(live, sub, ids).(directLogins := live.directLogins + 1),
                      Issue(ideal, sub, ids).(directLogins := live.directLogins + 1))
  {
    IssueSimulates(config, live, ideal, sub, ids);
    var next := Issue(live, sub, ids);
    assert next.(inFlight := next.inFlight) == next;
    WorkSimulates(config, next, Issue(ideal, sub, ids), next.inFlight, live.directLogins + 1);
  }

  lemma RevokeSimulates(config: Config, live: State, ideal: State, req: nat)
    requires Simulates(config, live, ideal) && Enabled(config, live, RefreshRevoke(req))
    ensures var e := RefreshRevoke(req);
            Simulates(config, Step(config, true, false, live, e), Step(config, false, false, ideal, e))
  {
    var t := live.inFlight[req].token;
    SpendSimulates(config, live, ideal, t);
    WorkSimulates(config, Spend(config, live, t), Spend(config, ideal, t), live.inFlight[req := Spent(t)],
        live.directLogins);
  }

  lemma AnswerSimulates(config: Config, live: State, ideal: State, req: nat, ids: Ids)
    requires Simulates(config, live, ideal) && Enabled(config, live, RefreshIssue(req, ids))
    ensures var e := RefreshIssue(req, ids);
            Simulates(config, Step(config, true, false, live, e), Step(config, false, false, ideal, e))
  {
    var sub := live.inFlight[req].token.sub;
    IssueSimulates(config, live, ideal, sub, ids);
    WorkSimulates(config, Issue(live, sub, ids), Issue(ideal, sub, ids), live.inFlight - {req}, live.directLogins);
  }

  // A request that gets through carries a refresh token that has not expired from the start.
  lemma PassingIsRefresh(config: Config, st: State, t: Token, verifiedAt: nat)
    requires RefreshPasses(config, st, t, verifiedAt)
    ensures t.kind == Refresh && ExpiresAt(config, t) > verifiedAt
  {
    AliveBeforeExpiry(config, t, verifiedAt);
  }

  lemma CheckSimulates(config: Config, live: State, ideal: State, e: Event)
    requires Simulates(config, live, ideal) && Enabled(config, live, e) && e.RefreshCheck?
    ensures var passes := Passes(config, live, e);
            Simulates(config, Step(config, true, passes, live, e), Step(config, false, passes, ideal, e))
  {
    if Passes(config, live, e) {
      PassingIsRefresh(config, live, e.token, e.verifiedAt);
      WorkSimulates(config, live, ideal, live.inFlight[e.req := Checked(e.token)], live.directLogins);
    }
  }

  lemma RotateSimulates(config: Config, live: State, ideal: State, e: Event)
    requires Simulates(config, live, ideal) && Enabled(config, live, e) && e.Rotate?
    ensures var passes := Passes(config, live, e);
            Simulates(config, Step(config, true, passes, live, e), Step(config, false, passes, ideal, e))
  {
    if Passes(config, live, e) {
      var t := e.token;
      PassingIsRefresh(config, live, t, e.verifiedAt);
      SpendSimulates(config, live, ideal, t);
      if e.issue.Some? {
        IssueSimulates(config, Spend(config, live, t), Spend(config, ideal, t), t.sub, e.issue.value);
      }
    }
  }

  // Every step keeps the simulation when both runs take the decision of the purged one.
  lemma StepSimulates(config: Config, live: State, ideal: State, e: Event)
    requires Simulates(config, live, ideal) && Enabled(config, live, e)
    ensures var passes := Passes(config, live, e);
            Simulates(config, Step(config, true, passes, live, e), Step(config, false, passes, ideal, e))
  {
    match e
    case Tick(to) => TickSimulates(config, live, ideal, to);
    case Login(sub, ids) => LoginSimulates(config, live, ideal, sub, ids);
    case RefreshCheck(_, _, _) => CheckSimulates(config, live, ideal, e);
    case RefreshRevoke(req) => RevokeSimulates(config, live, ideal, req);
    case RefreshIssue(req, ids) => AnswerSimulates(config, live, ideal, req, ids);
    case RefreshAbort(req) => WorkSimulates(config, live, ideal, live.inFlight - {req}, live.directLogins);
    case Rotate(_, _, _) => RotateSimulates(config, live, ideal, e);
    case Logout(t, verifiedAt, readAt) => LogoutSimulates(config, live, ideal, t, verifiedAt, readAt);
    case Purge(readAt) => PurgeSimulates(config, live, ideal, readAt);
  }

  lemma {:induction false} RunSimulates(config: Config, es: seq<Event>)
    requires Legal(config, es)
    ensures Simulates(config, After(config, es), Unpurged(config, es))
  {
    if es != [] {
      var init := es[..|es| - 1];
      RunSimulates(config, init);
      StepSimulates(config, After(config, init), Unpurged(config, init), es[|es| - 1]);
    }
  }
}
