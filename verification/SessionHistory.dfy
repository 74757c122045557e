/**
  What the revocation table means: an unexpired token is reported revoked exactly when the run so
  far spent it or logged its session out. The purge can be noticed only by a request that verified
  its token before the expiry and is looked up after a purge past it; what happens then is exact too.
*/
module SessionHistory {
  import opened Common
  import opened RevokedTokens
  import opened JwtAuth
  import opened Sessions

  // One event more of a run.
  lemma RunPrefix(config: Config, es: seq<Event>, n: nat)
    requires n < |es|
    ensures var st, e := After(config, es[..n]), es[n];
            && After(config, es[..n + 1]) == Step(config, true, Passes(config, st, e), st, e)
            && (Legal(config, es[..n + 1]) <==> Legal(config, es[..n]) && Enabled(config, st, e))
  {
    assert es[..n + 1][..n] == es[..n];
  }

  // ----- Which events revoke which token -----

  // The event spends the token.
  predicate Spends(config: Config, st: State, e: Event, t: Token) {
    match e
    case RefreshRevoke(req) => req in st.inFlight && st.inFlight[req].token == t
    case Rotate(u, verifiedAt, _) => u == t && RefreshPasses(config, st, t, verifiedAt)
    case _ => false
  }

  predicate Revokes(config: Config, st: State, e: Event, t: Token) {
    Spends(config, st, e, t) || (e.Logout? && e.token.sid == t.sid)
  }

  // Some event so far spent the token or logged its session out.
  predicate RevokedByHistory(config: Config, es: seq<Event>, t: Token) {
    es != [] &&
    (|| RevokedByHistory(config, es[..|es| - 1], t)
     || Revokes(config, After(config, es[..|es| - 1]), es[|es| - 1], t))
  }

  // ----- The unpurged table means the history -----

  predicate Keyed(table: Table, t: Token) {
    t.jti in table || t.sid in table
  }

  // Identifiers in use are not reused, so a pair just issued has no row.
  lemma IssueIsUnkeyed(config: Config, live: State, ideal: State, sub: Id, ids: Ids, t: Token)
    requires Simulates(config, live, ideal) && Fresh(live, ids) && Issued(Issue(live, sub, ids), t)
    ensures Keyed(ideal.table, t) ==> Issued(live, t)
  {
    var new3 := {ids.sid, ids.accessJti, ids.refreshJti};
    assert ids.sid in new3 && ids.accessJti in new3 && ids.refreshJti in new3;
    forall k | k in ideal.table ensures k in live.used {
      assert RowInv(config, live, k, ideal.table[k]);
    }
  }

  lemma OtherKeys(live: State, t: Token, u: Token)
    requires TokensInv(live) && Issued(live, t) && Issued(live, u)
    ensures t.jti == u.jti <==> t == u
    ensures t.sid != u.jti && t.jti != u.sid
  {
    assert TokenInv(live, t) && TokenInv(live, u);
    assert PairInv(live, t.sid) && PairInv(live, u.sid);
  }

  lemma SpendKeys(config: Config, live: State, ideal: State, u: Token, t: Token)
    requires TokensInv(live) && Issued(live, t)
    requires Issued(live, u) && u.kind == Refresh && ExpiresAt(config, u) > 0
    ensures u.jti != "" && (Keyed(Spend(config, ideal, u).table, t) <==> Keyed(ideal.table, t) || t == u)
  {
    OtherKeys(live, t, u);
    assert TokenInv(live, u) && PairInv(live, u.sid);
    SpendAddsRow(config, ideal, u);
  }

  lemma LogoutKeys(config: Config, live: State, ideal: State, e: Event, t: Token)
    requires TokensInv(live) && live == ideal.(table := live.table) && e.Logout? && Enabled(config, live, e)
    requires Issued(Step(config, false, false, ideal, e), t)
    ensures Issued(live, t)
    ensures Keyed(Step(config, false, false, ideal, e).table, t) <==> Keyed(ideal.table, t) || t.sid == e.token.sid
  {
    var u := e.token;
    assert TokenInv(live, u) && PairInv(live, u.sid);
    LogoutAddsRows(config, ideal, u, e.verifiedAt, e.readAt, false);
    OtherKeys(live, t, u);
  }

  // The unpurged run after one more event, with the decision of the purged one.
  function IdealStep(config: Config, live: State, ideal: State, e: Event): State {
    Step(config, false, Passes(config, live, e), ideal, e)
  }

  predicate KeysFollow(config: Config, live: State, ideal: State, e: Event, t: Token) {
    Keyed(IdealStep(config, live, ideal, e).table, t) <==>
      Issued(live, t) && (Keyed(ideal.table, t) || Revokes(config, live, e, t))
  }

  lemma RotateKeys(config: Config, live: State, ideal: State, e: Event, t: Token)
    requires Simulates(config, live, ideal) && Enabled(config, live, e) && e.Rotate?
    requires Issued(IdealStep(config, live, ideal, e), t)
    ensures KeysFollow(config, live, ideal, e, t)
  {
    if Passes(config, live, e) {
      var u := e.token;
      PassingIsRefresh(config, live, u, e.verifiedAt);
      SpendSimulates(config, live, ideal, u);
      if e.issue.Some? {
        IssueIsUnkeyed(config, Spend(config, live, u), Spend(config, ideal, u), u.sub, e.issue.value, t);
      }
      if Issued(live, t) {
        SpendKeys(config, live, ideal, u, t);
      }
    }
  }

  lemma AnswerKeys(config: Config, live: State, ideal: State, e: Event, t: Token)
    requires Simulates(config, live, ideal) && Enabled(config, live, e) && (e.Login? || e.RefreshIssue?)
    requires Issued(IdealStep(config, live, ideal, e), t)
    ensures KeysFollow(config, live, ideal, e, t)
  {
    IssueIsUnkeyed(config, live, ideal, if e.Login? then e.sub else live.inFlight[e.req].token.sub, e.ids, t);
  }

  lemma RevokingKeys(config: Config, live: State, ideal: State, e: Event, t: Token)
    requires Simulates(config, live, ideal) && Enabled(config, live, e) && (e.RefreshRevoke? || e.Logout?)
    requires Issued(IdealStep(config, live, ideal, e), t)
    ensures KeysFollow(config, live, ideal, e, t)
  {
    if e.Logout? {
      LogoutKeys(config, live, ideal, e, t);
    } else {
      SpendKeys(config, live, ideal, live.inFlight[e.req].token, t);
    }
  }

  // A step adds to the rows of a token exactly when it revokes the token.
  lemma StepKeys(config: Config, live: State, ideal: State, e: Event, t: Token)
    requires Simulates(config, live, ideal) && Enabled(config, live, e)
    requires Issued(IdealStep(config, live, ideal, e), t)
    ensures KeysFollow(config, live, ideal, e, t)
  {
    if e.Login? || e.RefreshIssue? {
      AnswerKeys(config, live, ideal, e, t);
    } else if e.RefreshRevoke? || e.Logout? {
      RevokingKeys(config, live, ideal, e, t);
    } else if e.Rotate? {
      RotateKeys(config, live, ideal, e, t);
    }
  }

  lemma {:induction false} UnpurgedMeansHistory(config: Config, es: seq<Event>, t: Token)
    requires Legal(config, es) && Issued(After(config, es), t)
    ensures Keyed(Unpurged(config, es).table, t) <==> RevokedByHistory(config, es, t)
  {
    RunSimulates(config, es);
    if es != [] {
      var init, e := es[..|es| - 1], es[|es| - 1];
      var live, ideal := After(config, init), Unpurged(config, init);
      RunSimulates(config, init);
      StepKeys(config, live, ideal, e, t);
      if Issued(live, t) {
        UnpurgedMeansHistory(config, init, t);
      } else {
        NotYetIssuedNotRevoked(config, es, t);
      }
    }
  }

  // If `t` appears with the last event, nothing up to then revoked it.
  lemma NotYetIssuedNotRevoked(config: Config, es: seq<Event>, t: Token)
    requires Legal(config, es) && es != []
    requires !Issued(After(config, es[..|es| - 1]), t) && Issued(After(config, es), t)
    ensures !RevokedByHistory(config, es, t)
  {
    var init, e := es[..|es| - 1], es[|es| - 1];
    var live := After(config, init);
    RunSimulates(config, init);
    FreshlyIssued(config, live, e, t);
    if Revokes(config, live, e, t) {
      RevokedIsInUse(config, live, e, t);
    }
    if RevokedByHistory(config, init, t) {
      HistoryUsesIdentifiers(config, init, t);
    }
  }

  // A pair is only ever issued under identifiers that were not in use.
  lemma FreshlyIssued(config: Config, live: State, e: Event, t: Token)
    requires Inv(config, live) && Enabled(config, live, e)
    requires !Issued(live, t) && Issued(Step(config, true, Passes(config, live, e), live, e), t)
    ensures t.sid !in live.used
  {
    match e
    case Login(_, ids) => FreshAreNew(live, ids);
    case RefreshIssue(_, ids) => FreshAreNew(live, ids);
    case Rotate(_, _, issue) => if issue.Some? { FreshAreNew(live, issue.value); }
    case Logout(_, _, _) => LogoutKeepsTokens(config, live, e);
    case _ =>
  }

  lemma LogoutKeepsTokens(config: Config, live: State, e: Event)
    requires Inv(config, live) && e.Logout? && Enabled(config, live, e)
    ensures var next := Step(config, true, false, live, e);
            next == live.(table := next.table)
  {
    assert TokenInv(live, e.token) && PairInv(live, e.token.sid);
    LogoutAddsRows(config, live, e.token, e.verifiedAt, e.readAt, true);
  }

  // Whatever an event revokes carries a session identifier in use.
  lemma RevokedIsInUse(config: Config, live: State, e: Event, t: Token)
    requires Inv(config, live) && Enabled(config, live, e) && Revokes(config, live, e, t)
    ensures t.sid in live.used
  {
    var u := if e.RefreshRevoke? then live.inFlight[e.req].token else e.token;
    assert TokenInv(live, u) && PairInv(live, u.sid);
  }

  lemma {:induction false} HistoryUsesIdentifiers(config: Config, es: seq<Event>, t: Token)
    requires Legal(config, es) && RevokedByHistory(config, es, t)
    ensures t.sid in After(config, es).used
  {
    var init, e := es[..|es| - 1], es[|es| - 1];
    var live := After(config, init);
    RunSimulates(config, init);
    UsedOnlyGrows(config, live, e);
    if RevokedByHistory(config, init, t) {
      HistoryUsesIdentifiers(config, init, t);
    } else {
      RevokedIsInUse(config, live, e, t);
    }
  }

  lemma UsedOnlyGrows(config: Config, live: State, e: Event)
    requires Inv(config, live) && Enabled(config, live, e)
    ensures live.used <= Step(config, true, Passes(config, live, e), live, e).used
  {
    if e.Logout? {
      LogoutKeepsTokens(config, live, e);
    }
  }

  // ----- While no purge has read a clock past the token's expiry -----

  // The guard of the main results: no purge so far can have deleted a row the token relies on.
  predicate Unforgotten(config: Config, es: seq<Event>, t: Token) {
    After(config, es).purgedAt <= ExpiresAt(config, t)
  }

  // Every token that is unexpired now is such a token.
  lemma UnexpiredIsUnforgotten(config: Config, es: seq<Event>, t: Token)
    requires Legal(config, es) && Alive(config, t, After(config, es).now)
    ensures Unforgotten(config, es, t)
  {
    RunSimulates(config, es);
    AliveBeforeExpiry(config, t, After(config, es).now);
  }

  // Purging is unobservable: after any run, and so after any continuation of it, both strategies
  // answer as if no row had ever been deleted, and everything else about the two runs is equal. The
  // lifetimes of the two kinds of token may be in any order.
  lemma PurgeIsUnobservable(config: Config, es: seq<Event>, t: Token, users: set<Id>)
    requires Legal(config, es) && Issued(After(config, es), t) && Unforgotten(config, es, t)
    ensures var live, ideal := After(config, es), Unpurged(config, es);
            && live == ideal.(table := live.table)
            && CheckAccess(live.table, ClaimsOf(config, t), users) ==
                CheckAccess(ideal.table, ClaimsOf(config, t), users)
            && CheckRefresh(live.table, ClaimsOf(config, t)) == CheckRefresh(ideal.table, ClaimsOf(config, t))
  {
    RunSimulates(config, es);
    SimulationAgrees(config, After(config, es), Unpurged(config, es), t);
  }

  // A token is reported revoked if and only if some earlier event spent it or logged its session out.
  lemma RevokedIffHistory(config: Config, es: seq<Event>, t: Token)
    requires Legal(config, es) && Issued(After(config, es), t) && Unforgotten(config, es, t)
    ensures Revoked(After(config, es), t) <==> RevokedByHistory(config, es, t)
  {
    var live, ideal := After(config, es), Unpurged(config, es);
    RunSimulates(config, es);
    SimulationAgrees(config, live, ideal, t);
    IdealInv(config, live, ideal);
    RevokedByKeys(config, ideal, t);
    UnpurgedMeansHistory(config, es, t);
  }

  // Exactly which refresh requests pass the revocation query, wherever between verification and
  // query other requests interleave.
  lemma RefreshPassesIff(config: Config, es: seq<Event>, t: Token, verifiedAt: nat)
    requires Legal(config, es) && Issued(After(config, es), t) && Unforgotten(config, es, t)
    ensures RefreshPasses(config, After(config, es), t, verifiedAt) <==>
              && t.kind == Refresh && verifiedAt < 1000 * (t.issuedAt / 1000) + 1000 * (config.refreshTtl / 1000)
              && !RevokedByHistory(config, es, t)
  {
    AliveIff(config, t, verifiedAt);
    RevokedIffHistory(config, es, t);
    RunSimulates(config, es);
    assert TokenInv(After(config, es), t);
  }

  lemma AccessPassesIff(config: Config, es: seq<Event>, t: Token, users: set<Id>, verifiedAt: nat)
    requires Legal(config, es) && Issued(After(config, es), t) && Unforgotten(config, es, t)
    ensures AccessPasses(config, After(config, es), t, users, verifiedAt) <==>
              && t.kind == Access && verifiedAt < 1000 * (t.issuedAt / 1000) + 1000 * (config.accessTtl / 1000)
              && t.sub in users && !RevokedByHistory(config, es, t)
    ensures AccessPasses(config, After(config, es), t, users, verifiedAt) ==>
              CheckAccess(After(config, es).table, ClaimsOf(config, t), users) == Ok(t.sub)
  {
    AliveIff(config, t, verifiedAt);
    RevokedIffHistory(config, es, t);
    RunSimulates(config, es);
    assert TokenInv(After(config, es), t);
  }

  lemma {:induction false} HistoryIsMonotone(config: Config, es: seq<Event>, more: seq<Event>, t: Token)
    requires RevokedByHistory(config, es, t)
    ensures RevokedByHistory(config, es + more, t)
    decreases |more|
  {
    if more == [] {
      assert es + more == es;
    } else {
      var init := more[..|more| - 1];
      HistoryIsMonotone(config, es, init, t);
      assert (es + more)[..|es + more| - 1] == es + init;
    }
  }

  // After a logout, in every continuation, no token of that session passes either strategy, until a
  // purge reads a clock past the token's expiry.
  lemma LogoutIsFinal(config: Config, es: seq<Event>, logout: Event, more: seq<Event>, t: Token, users: set<Id>,
                      verifiedAt: nat)
    requires Legal(config, es + [logout] + more) && logout.Logout? && t.sid == logout.token.sid
    requires Issued(After(config, es + [logout] + more), t)
    ensures var st := After(config, es + [logout] + more);
            AccessPasses(config, st, t, users, verifiedAt) || RefreshPasses(config, st, t, verifiedAt) ==>
              st.purgedAt > ExpiresAt(config, t) > verifiedAt
  {
    var start := es + [logout];
    assert start[..|start| - 1] == es;
    assert RevokedByHistory(config, start, t);
    HistoryIsMonotone(config, start, more, t);
    if Unforgotten(config, start + more, t) {
      AccessPassesIff(config, start + more, t, users, verifiedAt);
      RefreshPassesIff(config, start + more, t, verifiedAt);
    }
  }

  // A request whose query comes after an insertion for the same token is rejected, whatever
  // happened in between, until a purge reads a clock past the token's expiry.
  lemma SpentIsFinal(config: Config, es: seq<Event>, spend: Event, more: seq<Event>, t: Token, verifiedAt: nat)
    requires Legal(config, es + [spend] + more) && Spends(config, After(config, es), spend, t)
    requires Issued(After(config, es + [spend] + more), t)
    ensures var st := After(config, es + [spend] + more);
            RefreshPasses(config, st, t, verifiedAt) ==> st.purgedAt > ExpiresAt(config, t) > verifiedAt
  {
    var start := es + [spend];
    assert start[..|start| - 1] == es;
    assert RevokedByHistory(config, start, t);
    HistoryIsMonotone(config, start, more, t);
    if Unforgotten(config, start + more, t) {
      RefreshPassesIff(config, start + more, t, verifiedAt);
    }
  }

  // ----- When purging changes a decision -----

  // The request passes although its token was revoked before.
  predicate Stale(config: Config, init: seq<Event>, e: Event) {
    (e.RefreshCheck? || e.Rotate?) && Passes(config, After(config, init), e) && RevokedByHistory(config, init, e.token)
  }

  predicate NothingStale(config: Config, es: seq<Event>) {
    es != [] ==> NothingStale(config, es[..|es| - 1]) && !Stale(config, es[..|es| - 1], es[|es| - 1])
  }

  // A service that never purges, presented with the same requests, decides each of them alike.
  predicate DecidesAlike(config: Config, es: seq<Event>) {
    es != [] ==>
      var init, e := es[..|es| - 1], es[|es| - 1];
      DecidesAlike(config, init) && (Passes(config, Run(config, false, init), e) <==>
          Passes(config, After(config, init), e))
  }

  // The run of such a service is the purging one but for the purges, if and only if no request of
  // the run passes stale.
  lemma {:induction false} DecidesAlikeIff(config: Config, es: seq<Event>)
    requires Legal(config, es)
    ensures DecidesAlike(config, es) <==> NothingStale(config, es)
    ensures DecidesAlike(config, es) ==> Run(config, false, es) == Unpurged(config, es)
  {
    if es != [] {
      var init, e := es[..|es| - 1], es[|es| - 1];
      DecidesAlikeIff(config, init);
      if DecidesAlike(config, init) && (e.RefreshCheck? || e.Rotate?) {
        UnpurgedDecision(config, init, e);
      }
    }
  }

  // A refresh request passes when its token is unexpired and has no row.
  lemma RefreshPassesByKeys(config: Config, st: State, t: Token, verifiedAt: nat)
    requires Inv(config, st) && Issued(st, t)
    ensures RefreshPasses(config, st, t, verifiedAt) <==>
              t.kind == Refresh && Alive(config, t, verifiedAt) && !Keyed(st.table, t)
  {
    RevokedByKeys(config, st, t);
    assert TokenInv(st, t);
  }

  lemma UnpurgedDecision(config: Config, es: seq<Event>, e: Event)
    requires Legal(config, es) && Enabled(config, After(config, es), e) && (e.RefreshCheck? || e.Rotate?)
    ensures Passes(config, Unpurged(config, es), e) <==>
              Passes(config, After(config, es), e) && !RevokedByHistory(config, es, e.token)
  {
    var live, ideal := After(config, es), Unpurged(config, es);
    RunSimulates(config, es);
    IdealInv(config, live, ideal);
    RefreshPassesByKeys(config, live, e.token, e.verifiedAt);
    RefreshPassesByKeys(config, ideal, e.token, e.verifiedAt);
    UnpurgedMeansHistory(config, es, e.token);
  }

  // No purge past the expiry of a presented token comes between its verification and its query.
  predicate Prompt(config: Config, es: seq<Event>) {
    es != [] ==>
      var init, e := es[..|es| - 1], es[|es| - 1];
      && Prompt(config, init)
      && (e.RefreshCheck? || e.Rotate? ==> Alive(config, e.token, e.verifiedAt) ==> Unforgotten(config, init, e.token))
  }

  lemma {:induction false} PromptIsNeverStale(config: Config, es: seq<Event>)
    requires Legal(config, es) && Prompt(config, es)
    ensures NothingStale(config, es)
  {
    if es != [] {
      var init, e := es[..|es| - 1], es[|es| - 1];
      PromptIsNeverStale(config, init);
      if (e.RefreshCheck? || e.Rotate?) && Passes(config, After(config, init), e) {
        RefreshPassesIff(config, init, e.token, e.verifiedAt);
      }
    }
  }
}
