/**
  What a logout ends. A refresh issues its new pair under a session identifier of its own, so the
  family of a login is the set of session identifiers that descend from it by refreshes, and a
  logout reaches one of them. A pair issued for an access token is a login of its own.
*/
module SessionFamilies {
  import opened Common
  import opened RevokedTokens
  import opened JwtAuth
  import opened Sessions
  import opened SessionHistory
  import opened SessionCounts

  // The token the event answers with a new pair, and the session identifier of that pair.
  function Exchanged(config: Config, st: State, e: Event): Option<(Token, Id)> {
    match e
    case RefreshIssue(req, ids) => if req in st.inFlight then Some((st.inFlight[req].token, ids.sid)) else None
    case Rotate(t, _, issue) =>
      if Passes(config, st, e) && issue.Some? then Some((t, issue.value.sid)) else None
    case _ => None
  }

  function Family(config: Config, es: seq<Event>, root: Id): set<Id> {
    if es == [] then {root}
    else
      var init, e := es[..|es| - 1], es[|es| - 1];
      Family(config, init, root) + Child(config, After(config, init), e, Family(config, init, root))
  }

  function Child(config: Config, st: State, e: Event, family: set<Id>): set<Id> {
    match Exchanged(config, st, e)
    case Some((t, sid)) => if t.sid in family then {sid} else {}
    case None => {}
  }

  // No refresh request of the family is under way.
  predicate Idle(inFlight: map<nat, Progress>, family: set<Id>) {
    forall req | req in inFlight :: inFlight[req].token.sid !in family
  }

  // Every refresh token of the family has been spent or logged out, and no request with one is under way.
  predicate Ended(config: Config, es: seq<Event>, root: Id) {
    var st, family := After(config, es), Family(config, es, root);
    && Idle(st.inFlight, family)
    && forall sid | sid in family && sid in st.pairs :: RevokedByHistory(config, es, st.pairs[sid].refresh)
  }

  // ----- Pairs and families over a step -----

  lemma PairsStep(config: Config, st: State, e: Event, sid: Id)
    requires Inv(config, st) && Enabled(config, st, e) && sid in st.pairs
    ensures var next := Step(config, true, Passes(config, st, e), st, e);
            sid in next.pairs && next.pairs[sid] == st.pairs[sid]
  {
    assert PairInv(st, sid);
    match e
    case Login(_, ids) => FreshAreNew(st, ids);
    case RefreshIssue(_, ids) => FreshAreNew(st, ids);
    case Rotate(_, _, issue) => if issue.Some? { FreshAreNew(st, issue.value); }
    case Logout(_, _, _) => LogoutKeepsTokens(config, st, e);
    case _ =>
  }

  // What is exchanged is the refresh token of an issued pair.
  lemma ExchangedIsRefresh(config: Config, st: State, e: Event)
    requires Inv(config, st) && Enabled(config, st, e) && Exchanged(config, st, e).Some?
    ensures var (t, sid) := Exchanged(config, st, e).value;
            && t.sid in st.pairs && t == st.pairs[t.sid].refresh && sid !in st.used
            && sid in Step(config, true, Passes(config, st, e), st, e).pairs
  {
    var (t, sid) := Exchanged(config, st, e).value;
    if e.Rotate? {
      PassingIsRefresh(config, st, t, e.verifiedAt);
      FreshAreNew(st, e.issue.value);
    } else {
      FreshAreNew(st, e.ids);
    }
    assert TokenInv(st, t) && PairInv(st, t.sid);
  }

  lemma {:induction false} FamilyIsPaired(config: Config, es: seq<Event>, root: Id)
    requires Legal(config, es)
    ensures forall sid | sid in Family(config, es, root) :: sid == root || sid in After(config, es).pairs
  {
    if es != [] {
      var init, e := es[..|es| - 1], es[|es| - 1];
      var st := After(config, init);
      FamilyIsPaired(config, init, root);
      RunSimulates(config, init);
      forall sid | sid in Family(config, es, root) ensures sid == root || sid in After(config, es).pairs {
        if sid in st.pairs {
          PairsStep(config, st, e, sid);
        } else if sid != root {
          ExchangedIsRefresh(config, st, e);
        }
      }
    }
  }

  lemma ExchangeKeepsUser(config: Config, st: State, e: Event)
    requires Inv(config, st) && Enabled(config, st, e) && Exchanged(config, st, e).Some?
    ensures var (t, sid) := Exchanged(config, st, e).value;
            var next := Step(config, true, Passes(config, st, e), st, e);
            t.sid in st.pairs && sid in next.pairs && next.pairs[sid].access.sub == st.pairs[t.sid].access.sub
  {
    ExchangedIsRefresh(config, st, e);
    assert PairInv(st, Exchanged(config, st, e).value.0.sid);
  }

  lemma {:induction false} FamilyPairsHaveOneUser(config: Config, es: seq<Event>, root: Id, sid: Id)
    requires Legal(config, es) && root in After(config, es).pairs
    requires sid in Family(config, es, root) && sid in After(config, es).pairs
    ensures After(config, es).pairs[sid].access.sub == After(config, es).pairs[root].access.sub
  {
    if es != [] && sid != root {
      var init, e := es[..|es| - 1], es[|es| - 1];
      var st := After(config, init);
      RunSimulates(config, init);
      FamilyIsPaired(config, init, root);
      if root !in st.pairs {
        RootFirst(config, es, root);
      } else {
        PairsStep(config, st, e, root);
        if sid in Family(config, init, root) {
          PairsStep(config, st, e, sid);
          FamilyPairsHaveOneUser(config, init, root, sid);
        } else {
          ExchangeKeepsUser(config, st, e);
          FamilyPairsHaveOneUser(config, init, root, Exchanged(config, st, e).value.0.sid);
        }
      }
    }
  }

  // Every token of a family is for the user who logged in.
  lemma FamilyHasOneUser(config: Config, es: seq<Event>, root: Id, t: Token)
    requires Legal(config, es) && root in After(config, es).pairs
    requires Issued(After(config, es), t) && t.sid in Family(config, es, root)
    ensures t.sub == After(config, es).pairs[root].access.sub
  {
    RunSimulates(config, es);
    assert TokenInv(After(config, es), t) && PairInv(After(config, es), t.sid);
    FamilyPairsHaveOneUser(config, es, root, t.sid);
  }

  // ----- An ended family stays ended -----

  lemma EndedExchangesNothing(config: Config, es: seq<Event>, root: Id, e: Event)
    requires Legal(config, es) && Enabled(config, After(config, es), e)
    requires Ended(config, es, root) && !Stale(config, es, e)
    ensures Child(config, After(config, es), e, Family(config, es, root)) == {}
    ensures e.RefreshCheck? && Passes(config, After(config, es), e) ==> e.token.sid !in Family(config, es, root)
  {
    var st := After(config, es);
    RunSimulates(config, es);
    if (e.RefreshCheck? || e.Rotate?) && Passes(config, st, e) {
      PassingIsRefresh(config, st, e.token, e.verifiedAt);
      assert TokenInv(st, e.token) && PairInv(st, e.token.sid);
    }
  }

  lemma IdlePut(inFlight: map<nat, Progress>, req: nat, progress: Progress, family: set<Id>)
    requires Idle(inFlight, family) && progress.token.sid !in family
    ensures Idle(inFlight[req := progress], family)
  {
  }

  lemma IdleStep(config: Config, st: State, e: Event, family: set<Id>)
    requires Inv(config, st) && Enabled(config, st, e) && Idle(st.inFlight, family)
    requires e.RefreshCheck? && Passes(config, st, e) ==> e.token.sid !in family
    ensures Idle(Step(config, true, Passes(config, st, e), st, e).inFlight, family)
  {
    match e
    case Logout(_, _, _) => LogoutKeepsTokens(config, st, e);
    case RefreshCheck(req, t, _) => if Passes(config, st, e) { IdlePut(st.inFlight, req, Checked(t), family); }
    case RefreshRevoke(req) => IdlePut(st.inFlight, req, Spent(st.inFlight[req].token), family);
    case _ =>
  }

  lemma EndedStep(config: Config, es: seq<Event>, root: Id, e: Event)
    requires Legal(config, es) && Enabled(config, After(config, es), e) && root in After(config, es).pairs
    requires Ended(config, es, root) && !Stale(config, es, e)
    ensures Family(config, es + [e], root) == Family(config, es, root) && Ended(config, es + [e], root)
    ensures root in After(config, es + [e]).pairs
  {
    var st := After(config, es);
    AppendEvent(config, es, e);
    assert (es + [e])[..|es|] == es;
    RunSimulates(config, es);
    FamilyIsPaired(config, es, root);
    EndedExchangesNothing(config, es, root, e);
    IdleStep(config, st, e, Family(config, es, root));
    PairsStep(config, st, e, root);
    forall sid | sid in Family(config, es, root)
      ensures sid in st.pairs && After(config, es + [e]).pairs[sid] == st.pairs[sid]
    {
      PairsStep(config, st, e, sid);
    }
  }

  // Once a family has ended it never grows again, in any continuation in which no request passes
  // stale, and none of its refresh tokens passes before a purge past the token's expiry.
  lemma {:induction false} EndedStays(config: Config, es: seq<Event>, more: seq<Event>, root: Id)
    requires Legal(config, es + more) && NothingStale(config, es + more)
    requires root in After(config, es).pairs && Ended(config, es, root)
    ensures Family(config, es + more, root) == Family(config, es, root) && Ended(config, es + more, root)
    ensures root in After(config, es + more).pairs
    decreases |more|
  {
    if more == [] {
      assert es + more == es;
    } else {
      var init, e := more[..|more| - 1], more[|more| - 1];
      assert (es + more)[..|es + more| - 1] == es + init;
      assert es + more == es + init + [e];
      EndedStays(config, es, init, root);
      EndedStep(config, es + init, root, e);
    }
  }

  lemma EndedIsRejected(config: Config, es: seq<Event>, root: Id, t: Token, verifiedAt: nat)
    requires Legal(config, es) && Ended(config, es, root)
    requires Issued(After(config, es), t) && t.sid in Family(config, es, root)
    ensures RefreshPasses(config, After(config, es), t, verifiedAt) ==>
              After(config, es).purgedAt > ExpiresAt(config, t)
  {
    var st := After(config, es);
    RunSimulates(config, es);
    assert TokenInv(st, t) && PairInv(st, t.sid);
    if Unforgotten(config, es, t) {
      RefreshPassesIff(config, es, t, verifiedAt);
    }
  }

  // ----- What a logout ends -----

  // A logout changes the fate of exactly the tokens under its own session identifier.
  lemma LogoutSparesIff(config: Config, es: seq<Event>, logout: Event, t: Token, users: set<Id>, verifiedAt: nat)
    requires Legal(config, es + [logout]) && logout.Logout?
    requires Issued(After(config, es), t) && Unforgotten(config, es, t)
    ensures var before, next := After(config, es), After(config, es + [logout]);
            && (RefreshPasses(config, next, t, verifiedAt) <==>
                  RefreshPasses(config, before, t, verifiedAt) && t.sid != logout.token.sid)
            && (AccessPasses(config, next, t, users, verifiedAt) <==>
                  AccessPasses(config, before, t, users, verifiedAt) && t.sid != logout.token.sid)
  {
    AppendEvent(config, es, logout);
    assert (es + [logout])[..|es|] == es;
    RunSimulates(config, es);
    LogoutKeepsTokens(config, After(config, es), logout);
    RefreshPassesIff(config, es, t, verifiedAt);
    RefreshPassesIff(config, es + [logout], t, verifiedAt);
    AccessPassesIff(config, es, t, users, verifiedAt);
    AccessPassesIff(config, es + [logout], t, users, verifiedAt);
  }

  // A logout ends a family if and only if nothing of it is under way and every refresh token of it
  // under another session identifier was spent or logged out before.
  lemma LogoutEndsIff(config: Config, es: seq<Event>, logout: Event, root: Id)
    requires Legal(config, es + [logout]) && logout.Logout?
    ensures var st, family := After(config, es), Family(config, es, root);
            Ended(config, es + [logout], root) <==>
              && Idle(st.inFlight, family)
              && forall sid | sid in family && sid in st.pairs && sid != logout.token.sid ::
                   RevokedByHistory(config, es, st.pairs[sid].refresh)
  {
    var st := After(config, es);
    AppendEvent(config, es, logout);
    assert (es + [logout])[..|es|] == es;
    RunSimulates(config, es);
    LogoutKeepsTokens(config, st, logout);
    assert Family(config, es + [logout], root) == Family(config, es, root);
    forall sid | sid in st.pairs
      ensures RevokedByHistory(config, es + [logout], st.pairs[sid].refresh) <==>
                RevokedByHistory(config, es, st.pairs[sid].refresh) || sid == logout.token.sid
    {
      assert PairInv(st, sid);
    }
  }

  // ----- With one-step refreshes -----

  // The session identifier the family was last refreshed under.
  function Head(config: Config, es: seq<Event>, root: Id): Id {
    if es == [] then root
    else
      var init, e := es[..|es| - 1], es[|es| - 1];
      match Exchanged(config, After(config, init), e)
      case Some((t, sid)) => if t.sid in Family(config, init, root) then sid else Head(config, init, root)
      case None => Head(config, init, root)
  }

  // Of a family only the head's refresh token can be unspent.
  predicate OnlyHeadLives(config: Config, es: seq<Event>, root: Id) {
    forall sid | sid in Family(config, es, root) && sid != Head(config, es, root) && sid in After(config, es).pairs ::
      RevokedByHistory(config, es, After(config, es).pairs[sid].refresh)
  }

  lemma {:induction false} HeadIsOfFamily(config: Config, es: seq<Event>, root: Id)
    ensures Head(config, es, root) in Family(config, es, root)
  {
    if es != [] {
      HeadIsOfFamily(config, es[..|es| - 1], root);
    }
  }

  lemma PairStays(config: Config, es: seq<Event>, sid: Id)
    requires Legal(config, es) && es != []
    ensures sid in After(config, es[..|es| - 1]).pairs ==> sid in After(config, es).pairs
  {
    var init := es[..|es| - 1];
    RunSimulates(config, init);
    if sid in After(config, init).pairs {
      PairsStep(config, After(config, init), es[|es| - 1], sid);
    }
  }

  // Up to its login nothing of a family is exchanged.
  lemma {:induction false} RootFirst(config: Config, es: seq<Event>, root: Id)
    requires Legal(config, es) && es != [] && root !in After(config, es[..|es| - 1]).pairs
    ensures Family(config, es, root) == {root} && Head(config, es, root) == root
  {
    var init, e := es[..|es| - 1], es[|es| - 1];
    RunSimulates(config, init);
    if init != [] {
      PairStays(config, init, root);
      RootFirst(config, init, root);
    }
    if Exchanged(config, After(config, init), e).Some? {
      ExchangedIsRefresh(config, After(config, init), e);
    }
  }

  lemma HeadStep(config: Config, es: seq<Event>, root: Id, e: Event, sid: Id)
    requires Legal(config, es) && Enabled(config, After(config, es), e) && !Stale(config, es, e)
    requires root in After(config, es).pairs && After(config, es).inFlight == map[]
    requires OnlyHeadLives(config, es, root)
    requires sid in Family(config, es + [e], root) && sid != Head(config, es + [e], root)
    ensures sid in After(config, es).pairs
    ensures RevokedByHistory(config, es + [e], After(config, es).pairs[sid].refresh)
  {
    var st := After(config, es);
    assert (es + [e])[..|es|] == es;
    RunSimulates(config, es);
    FamilyIsPaired(config, es, root);
    if Exchanged(config, st, e).Some? {
      ExchangedIsRefresh(config, st, e);
    }
  }

  lemma {:induction false} OneHead(config: Config, es: seq<Event>, root: Id)
    requires Legal(config, es) && Atomic(es) && NothingStale(config, es)
    ensures OnlyHeadLives(config, es, root)
  {
    if es != [] {
      var init, e := es[..|es| - 1], es[|es| - 1];
      AtomicPrefix(es);
      OneHead(config, init, root);
      AtomicHasNoneInFlight(config, init);
      RunSimulates(config, init);
      assert init + [e] == es;
      if root in After(config, init).pairs {
        forall sid | sid in Family(config, es, root) && sid != Head(config, es, root)
          ensures sid in After(config, init).pairs
          ensures RevokedByHistory(config, es, After(config, init).pairs[sid].refresh)
          ensures sid in After(config, es).pairs && After(config, es).pairs[sid] == After(config, init).pairs[sid]
        {
          HeadStep(config, init, root, e, sid);
          PairsStep(config, After(config, init), e, sid);
        }
      } else {
        RootFirst(config, es, root);
      }
    }
  }

  // With one-step refreshes, a logout ends a login if and only if it comes with the access token of
  // the latest pair, or the latest refresh token was spent or logged out before.
  lemma LogoutEndsLoginIff(config: Config, es: seq<Event>, logout: Event, root: Id)
    requires Legal(config, es + [logout]) && logout.Logout? && Atomic(es) && NothingStale(config, es)
    requires root in After(config, es).pairs
    ensures var head := Head(config, es, root);
            && head in After(config, es).pairs
            && (Ended(config, es + [logout], root) <==>
                  logout.token.sid == head || RevokedByHistory(config, es, After(config, es).pairs[head].refresh))
  {
    assert (es + [logout])[..|es|] == es;
    AtomicHasNoneInFlight(config, es);
    FamilyIsPaired(config, es, root);
    HeadIsOfFamily(config, es, root);
    OneHead(config, es, root);
    LogoutEndsIff(config, es, logout, root);
  }

  // ----- A login that is refreshed once -----

  const FAMILY_CONFIG := Config(1000, 2000)

  const FIRST := Pair(Token("u", Access, "a", "s", 0), Token("u", Refresh, "r", "s", 0))

  const SECOND := Pair(Token("u", Access, "a2", "s2", 0), Token("u", Refresh, "r2", "s2", 0))

  const REFRESHED_RUN: seq<Event> := [
    Login("u", Ids("s", "a", "r")), Rotate(FIRST.refresh, 0, Some(Ids("s2", "a2", "r2")))]

  lemma FirstLoggedIn()
    ensures Legal(FAMILY_CONFIG, REFRESHED_RUN[..1])
    ensures var st := After(FAMILY_CONFIG, REFRESHED_RUN[..1]);
            && st.now == 0 && st.table == map[] && st.tokens == map["a" := FIRST.access, "r" := FIRST.refresh]
            && st.used == {"s", "a", "r"}
  {
    RunPrefix(FAMILY_CONFIG, REFRESHED_RUN, 0);
    assert REFRESHED_RUN[..0] == [];
  }

  lemma OnceRefreshed()
    ensures Legal(FAMILY_CONFIG, REFRESHED_RUN)
    ensures var st := After(FAMILY_CONFIG, REFRESHED_RUN);
            && st.now == 0 && st.table == map["r" := Row(Some("s"), Refresh, 2000)]
            && Issued(st, FIRST.access) && Issued(st, SECOND.access) && Issued(st, SECOND.refresh)
  {
    FirstLoggedIn();
    var st := After(FAMILY_CONFIG, REFRESHED_RUN[..1]);
    RunPrefix(FAMILY_CONFIG, REFRESHED_RUN, 1);
    assert REFRESHED_RUN[..2] == REFRESHED_RUN;
    assert RefreshPasses(FAMILY_CONFIG, st, FIRST.refresh, 0);
    assert {"s2", "a2", "r2"} !! {"s", "a", "r"};
  }

  // The pair the refresh issued outlives a logout with the login's access token.
  lemma OldLogoutSparesNewPair()
    ensures var es := REFRESHED_RUN + [Logout(FIRST.access, 0, 0)];
            && Legal(FAMILY_CONFIG, es)
            && RefreshPasses(FAMILY_CONFIG, After(FAMILY_CONFIG, es), SECOND.refresh, 0)
            && AccessPasses(FAMILY_CONFIG, After(FAMILY_CONFIG, es), SECOND.access, {"u"}, 0)
  {
    OnceRefreshed();
    var logout := Logout(FIRST.access, 0, 0);
    AppendEvent(FAMILY_CONFIG, REFRESHED_RUN, logout);
    LogoutSparesIff(FAMILY_CONFIG, REFRESHED_RUN, logout, SECOND.refresh, {"u"}, 0);
    LogoutSparesIff(FAMILY_CONFIG, REFRESHED_RUN, logout, SECOND.access, {"u"}, 0);
  }

  // The login's access token outlives a logout with the access token the refresh issued.
  lemma NewLogoutSparesOldAccess()
    ensures var es := REFRESHED_RUN + [Logout(SECOND.access, 0, 0)];
            && Legal(FAMILY_CONFIG, es)
            && AccessPasses(FAMILY_CONFIG, After(FAMILY_CONFIG, es), FIRST.access, {"u"}, 0)
  {
    OnceRefreshed();
    var logout := Logout(SECOND.access, 0, 0);
    AppendEvent(FAMILY_CONFIG, REFRESHED_RUN, logout);
    LogoutSparesIff(FAMILY_CONFIG, REFRESHED_RUN, logout, FIRST.access, {"u"}, 0);
  }
}
