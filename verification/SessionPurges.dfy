/**
  Which rows a run has left in the table, purges included: with it, exactly which requests pass at
  every instant, also when a purge past the expiry came between verification and query.
*/
module SessionPurges {
  import opened Common
  import opened RevokedTokens
  import opened JwtAuth
  import opened Sessions
  import opened SessionHistory

  predicate WritesOwnRow(config: Config, st: State, e: Event, t: Token) {
    Spends(config, st, e, t) || (e.Logout? && e.token == t)
  }

  // The token's own row: written by what spends the token or by the logout with it, and gone with
  // the first purge past its expiry.
  predicate OwnRowKept(config: Config, es: seq<Event>, t: Token) {
    es != [] &&
    var init, e := es[..|es| - 1], es[|es| - 1];
    || WritesOwnRow(config, After(config, init), e, t)
    || (OwnRowKept(config, init, t) && !(e.Purge? && ExpiresAt(config, t) < e.readAt))
  }

  // Until when a session's row lasts, if there is one: the first logout decides, and once a purge
  // has passed that time the next logout does.
  function SessionRowAfter(config: Config, e: Event, until: Option<int>, sid: Id): Option<int> {
    match e
    case Logout(u, _, readAt) => if u.sid == sid && until.None? then Some(readAt + config.refreshTtl) else until
    case Purge(readAt) => if until.Some? && until.value < readAt then None else until
    case _ => until
  }

  function SessionRowUntil(config: Config, es: seq<Event>, sid: Id): Option<int> {
    if es == [] then None
    else SessionRowAfter(config, es[|es| - 1], SessionRowUntil(config, es[..|es| - 1], sid), sid)
  }

  function StoredUntil(table: Table, k: Id): Option<int> {
    if k in table then Some(table[k].expiresAt) else None
  }

  predicate RowsFollow(config: Config, live: State, e: Event, t: Token) {
    var next := Step(config, true, Passes(config, live, e), live, e);
    && (t.jti in next.table <==>
          || WritesOwnRow(config, live, e, t)
          || (t.jti in live.table && !(e.Purge? && ExpiresAt(config, t) < e.readAt)))
    && StoredUntil(next.table, t.sid) == SessionRowAfter(config, e, StoredUntil(live.table, t.sid), t.sid)
  }

  lemma SpendRows(config: Config, live: State, e: Event, t: Token)
    requires Inv(config, live) && Enabled(config, live, e) && Issued(live, t)
    requires e.RefreshRevoke? || (e.Rotate? && Passes(config, live, e))
    ensures RowsFollow(config, live, e, t)
  {
    if e.Rotate? {
      PassingIsRefresh(config, live, e.token, e.verifiedAt);
    }
    OwnRowAdded(config, live, if e.RefreshRevoke? then live.inFlight[e.req].token else e.token, t);
  }

  lemma OwnRowAdded(config: Config, live: State, u: Token, t: Token)
    requires TokensInv(live) && Issued(live, t) && Issued(live, u) && u.kind == Refresh && ExpiresAt(config, u) > 0
    ensures u.jti != ""
    ensures var next := Spend(config, live, u).table;
            && (t.jti in next <==> t == u || t.jti in live.table)
            && StoredUntil(next, t.sid) == StoredUntil(live.table, t.sid)
  {
    OtherKeys(live, t, u);
    assert TokenInv(live, u) && PairInv(live, u.sid);
    SpendAddsRow(config, live, u);
  }

  lemma TwoRowsAdded(table: Table, u: Token, own: Row, session: Row, t: Token)
    requires (t.jti == u.jti <==> t == u) && t.sid != u.jti && t.jti != u.sid
    ensures var next := AddRow(AddRow(table, u.jti, own), u.sid, session);
            && (t.jti in next <==> t == u || t.jti in table)
            && StoredUntil(next, t.sid) ==
               if u.sid == t.sid && t.sid !in table then Some(session.expiresAt) else StoredUntil(table, t.sid)
  {
  }

  lemma LogoutRows(config: Config, live: State, e: Event, t: Token)
    requires Inv(config, live) && Enabled(config, live, e) && Issued(live, t) && e.Logout?
    ensures RowsFollow(config, live, e, t)
  {
    LogoutTable(config, live, e);
    OtherKeys(live, t, e.token);
    TwoRowsAdded(live.table, e.token, OwnRow(config, e.token),
                 Row(Some(e.token.sid), Session, e.readAt + config.refreshTtl), t);
  }

  lemma LogoutTable(config: Config, live: State, e: Event)
    requires TokensInv(live) && Enabled(config, live, e) && e.Logout?
    ensures var u := e.token;
            Step(config, true, Passes(config, live, e), live, e).table ==
            AddRow(AddRow(live.table, u.jti, OwnRow(config, u)), u.sid,
                   Row(Some(u.sid), Session, e.readAt + config.refreshTtl))
  {
    assert TokenInv(live, e.token) && PairInv(live, e.token.sid);
    LogoutAddsRows(config, live, e.token, e.verifiedAt, e.readAt, true);
  }

  lemma PurgeRows(config: Config, live: State, e: Event, t: Token)
    requires Inv(config, live) && Issued(live, t) && e.Purge?
    ensures RowsFollow(config, live, e, t)
  {
    assert t.jti in live.table ==> RowInv(config, live, t.jti, live.table[t.jti]);
  }

  lemma StepRows(config: Config, live: State, e: Event, t: Token)
    requires Inv(config, live) && Enabled(config, live, e) && Issued(live, t)
    ensures RowsFollow(config, live, e, t)
  {
    if e.RefreshRevoke? || (e.Rotate? && Passes(config, live, e)) {
      SpendRows(config, live, e, t);
    } else if e.Logout? {
      LogoutRows(config, live, e, t);
    } else if e.Purge? {
      PurgeRows(config, live, e, t);
    }
  }

  lemma {:induction false} KeptIsHistory(config: Config, es: seq<Event>, t: Token)
    ensures OwnRowKept(config, es, t) || SessionRowUntil(config, es, t.sid).Some? ==> RevokedByHistory(config, es, t)
  {
    if es != [] {
      KeptIsHistory(config, es[..|es| - 1], t);
    }
  }

  // The rows of an issued token are those its history has written and no purge has deleted.
  lemma {:induction false} RowsAreKept(config: Config, es: seq<Event>, t: Token)
    requires Legal(config, es) && Issued(After(config, es), t)
    ensures t.jti in After(config, es).table <==> OwnRowKept(config, es, t)
    ensures StoredUntil(After(config, es).table, t.sid) == SessionRowUntil(config, es, t.sid)
  {
    if es != [] {
      var init, e := es[..|es| - 1], es[|es| - 1];
      RunSimulates(config, init);
      if Issued(After(config, init), t) {
        RowsAreKept(config, init, t);
        StepRows(config, After(config, init), e, t);
      } else {
        NotYetIssuedNotRevoked(config, es, t);
        KeptIsHistory(config, es, t);
        RunSimulates(config, es);
        UnpurgedMeansHistory(config, es, t);
      }
    }
  }

  // In every run and for every instant of verification: a refresh token passes if and only if it
  // was unexpired then and neither its own row nor its session's is left.
  lemma RefreshPassesExactly(config: Config, es: seq<Event>, t: Token, verifiedAt: nat)
    requires Legal(config, es) && Issued(After(config, es), t)
    ensures RefreshPasses(config, After(config, es), t, verifiedAt) <==>
              && t.kind == Refresh && verifiedAt < 1000 * (t.issuedAt / 1000) + 1000 * (config.refreshTtl / 1000)
              && !OwnRowKept(config, es, t) && SessionRowUntil(config, es, t.sid).None?
  {
    AliveIff(config, t, verifiedAt);
    RunSimulates(config, es);
    RowsAreKept(config, es, t);
    RefreshPassesByKeys(config, After(config, es), t, verifiedAt);
  }

  lemma AccessPassesExactly(config: Config, es: seq<Event>, t: Token, users: set<Id>, verifiedAt: nat)
    requires Legal(config, es) && Issued(After(config, es), t)
    ensures AccessPasses(config, After(config, es), t, users, verifiedAt) <==>
              && t.kind == Access && verifiedAt < 1000 * (t.issuedAt / 1000) + 1000 * (config.accessTtl / 1000)
              && t.sub in users && !OwnRowKept(config, es, t) && SessionRowUntil(config, es, t.sid).None?
  {
    var st := After(config, es);
    AliveIff(config, t, verifiedAt);
    RunSimulates(config, es);
    RowsAreKept(config, es, t);
    RevokedByKeys(config, st, t);
    assert TokenInv(st, t);
  }

  // ----- A request that is overtaken by its token's expiry and a purge -----

  const STALE_CONFIG := Config(1000, 2000)

  const STALE_TOKEN := Token("u", Refresh, "r", "s", 0)

  // The token is exchanged, then expires, the purge deletes its row, and a second request that
  // verified it before the expiry is looked up.
  const STALE_RUN: seq<Event> := [
    Login("u", Ids("s", "a", "r")), Rotate(STALE_TOKEN, 0, None), Tick(2001), Purge(2001), Rotate(STALE_TOKEN, 0, None)]

  lemma StaleStep(n: nat)
    requires n < |STALE_RUN|
    ensures var st, e := After(STALE_CONFIG, STALE_RUN[..n]), STALE_RUN[n];
            && After(STALE_CONFIG, STALE_RUN[..n + 1]) == Step(STALE_CONFIG, true, Passes(STALE_CONFIG, st, e), st, e)
            && (Legal(STALE_CONFIG, STALE_RUN[..n + 1]) <==>
                  Legal(STALE_CONFIG, STALE_RUN[..n]) && Enabled(STALE_CONFIG, st, e))
  {
    RunPrefix(STALE_CONFIG, STALE_RUN, n);
  }

  lemma StaleExchanged()
    ensures Legal(STALE_CONFIG, STALE_RUN[..2])
    ensures var st := After(STALE_CONFIG, STALE_RUN[..2]);
            st.now == 0 && Issued(st, STALE_TOKEN) && st.table == map["r" := Row(Some("s"), Refresh, 2000)]
    ensures Passes(STALE_CONFIG, After(STALE_CONFIG, STALE_RUN[..1]), STALE_RUN[1])
  {
    StaleStep(0);
    assert After(STALE_CONFIG, STALE_RUN[..1]).table == map[];
    StaleStep(1);
  }

  // The second request passes as well: with this timing a spent token is accepted again.
  lemma StaleRequestPasses()
    ensures Legal(STALE_CONFIG, STALE_RUN)
    ensures Spends(STALE_CONFIG, After(STALE_CONFIG, STALE_RUN[..1]), STALE_RUN[1], STALE_TOKEN)
    ensures Stale(STALE_CONFIG, STALE_RUN[..4], STALE_RUN[4])
  {
    StalePurged();
    StaleIsRevoked();
    StaleStep(4);
    assert STALE_RUN[..5] == STALE_RUN;
  }

  lemma StalePurged()
    ensures Legal(STALE_CONFIG, STALE_RUN[..4])
    ensures var st := After(STALE_CONFIG, STALE_RUN[..4]);
            st.now == 2001 && Issued(st, STALE_TOKEN) && st.table == map[]
  {
    StaleExchanged();
    StaleStep(2);
    StaleStep(3);
  }

  lemma StaleIsRevoked()
    ensures Spends(STALE_CONFIG, After(STALE_CONFIG, STALE_RUN[..1]), STALE_RUN[1], STALE_TOKEN)
    ensures RevokedByHistory(STALE_CONFIG, STALE_RUN[..4], STALE_TOKEN)
  {
    StaleExchanged();
    assert STALE_RUN[..2][..1] == STALE_RUN[..1];
    assert RevokedByHistory(STALE_CONFIG, STALE_RUN[..2], STALE_TOKEN);
    HistoryIsMonotone(STALE_CONFIG, STALE_RUN[..2], STALE_RUN[2..4], STALE_TOKEN);
    assert STALE_RUN[..2] + STALE_RUN[2..4] == STALE_RUN[..4];
  }
}
