/**
  Counting over runs of the session protocol: how often a refresh token is accepted, how many
  refresh tokens are live, and which tokens share a session identifier.
*/
module SessionCounts {
  import opened Common
  import opened RevokedTokens
  import opened JwtAuth
  import opened Sessions
  import opened SessionHistory

  lemma AppendEvent(config: Config, es: seq<Event>, e: Event)
    ensures var st := After(config, es);
            && After(config, es + [e]) == Step(config, true, Passes(config, st, e), st, e)
            && (Legal(config, es + [e]) <==> Legal(config, es) && Enabled(config, st, e))
  {
    assert (es + [e])[..|es|] == es;
  }

  // ----- How often a refresh token is accepted -----

  // The event presents `t` and gets through.
  predicate Accepts(config: Config, st: State, e: Event, t: Token) {
    (e.RefreshCheck? || e.Rotate?) && e.token == t && Passes(config, st, e)
  }

  function Acceptances(config: Config, es: seq<Event>, t: Token): nat {
    if es == [] then 0
    else
      var init, e := es[..|es| - 1], es[|es| - 1];
      Acceptances(config, init, t) + if Accepts(config, After(config, init), e, t) then 1 else 0
  }

  // A request for `t` has passed its query and not yet inserted its row.
  predicate Waiting(st: State, t: Token) {
    WaitingIn(st.inFlight, t)
  }

  predicate WaitingIn(inFlight: map<nat, Progress>, t: Token) {
    exists req | req in inFlight :: inFlight[req] == Checked(t)
  }

  lemma WaitingPut(inFlight: map<nat, Progress>, req: nat, u: Token, t: Token)
    requires req !in inFlight
    ensures WaitingIn(inFlight[req := Checked(u)], t) <==> WaitingIn(inFlight, t) || u == t
  {
    var next := inFlight[req := Checked(u)];
    assert next[req] == Checked(u);
    assert forall other | other in inFlight :: next[other] == inFlight[other];
  }

  lemma WaitingAdvance(inFlight: map<nat, Progress>, req: nat, u: Token, t: Token)
    requires req in inFlight && inFlight[req] == Checked(u)
    ensures WaitingIn(inFlight[req := Spent(u)], t) || u == t <==> WaitingIn(inFlight, t)
  {
    var next := inFlight[req := Spent(u)];
    assert next[req] == Spent(u);
    assert forall other | other in inFlight && other != req :: next[other] == inFlight[other];
  }

  lemma WaitingDrop(inFlight: map<nat, Progress>, req: nat, t: Token)
    requires req in inFlight && inFlight[req].Spent?
    ensures WaitingIn(inFlight - {req}, t) <==> WaitingIn(inFlight, t)
  {
    var next := inFlight - {req};
    assert forall other | other in inFlight && other != req :: other in next && next[other] == inFlight[other];
  }

  predicate SpentByHistory(config: Config, es: seq<Event>, t: Token) {
    es != [] &&
    (|| SpentByHistory(config, es[..|es| - 1], t)
     || Spends(config, After(config, es[..|es| - 1]), es[|es| - 1], t))
  }

  lemma {:induction false} SpentIsRevoked(config: Config, es: seq<Event>, t: Token)
    ensures SpentByHistory(config, es, t) ==> RevokedByHistory(config, es, t)
  {
    if es != [] {
      SpentIsRevoked(config, es[..|es| - 1], t);
    }
  }

  lemma WaitingStep(config: Config, st: State, e: Event, t: Token)
    requires Inv(config, st) && Enabled(config, st, e)
    ensures var next := Step(config, true, Passes(config, st, e), st, e);
            Waiting(next, t) || Spends(config, st, e, t) <==> Waiting(st, t) || Accepts(config, st, e, t)
  {
    match e
    case Logout(_, _, _) => LogoutKeepsTokens(config, st, e);
    case RefreshRevoke(req) =>
      assert TokenInv(st, st.inFlight[req].token);
      WaitingAdvance(st.inFlight, req, st.inFlight[req].token, t);
    case RefreshCheck(req, u, _) => WaitingPut(st.inFlight, req, u, t);
    case RefreshIssue(req, _) => WaitingDrop(st.inFlight, req, t);
    case RefreshAbort(req) => WaitingDrop(st.inFlight, req, t);
    case _ =>
  }

  // A token has been accepted exactly when a request with it is waiting or has spent it.
  lemma {:induction false} AcceptedIff(config: Config, es: seq<Event>, t: Token)
    requires Legal(config, es)
    ensures Acceptances(config, es, t) > 0 <==> Waiting(After(config, es), t) || SpentByHistory(config, es, t)
  {
    if es != [] {
      var init := es[..|es| - 1];
      AcceptedIff(config, init, t);
      RunSimulates(config, init);
      WaitingStep(config, After(config, init), es[|es| - 1], t);
    }
  }

  // No request with `t` passes while another one waits, or after one has spent it.
  predicate Exclusive(config: Config, es: seq<Event>, t: Token) {
    es != [] ==>
      var init, e := es[..|es| - 1], es[|es| - 1];
      && Exclusive(config, init, t)
      && (Accepts(config, After(config, init), e, t) ==>
            !Waiting(After(config, init), t) && !SpentByHistory(config, init, t))
  }

  // Over every run a refresh token is accepted at most once if and only if its requests are exclusive.
  lemma {:induction false} AcceptedOnceIff(config: Config, es: seq<Event>, t: Token)
    requires Legal(config, es)
    ensures Acceptances(config, es, t) <= 1 <==> Exclusive(config, es, t)
  {
    if es != [] {
      var init := es[..|es| - 1];
      AcceptedOnceIff(config, init, t);
      AcceptedIff(config, init, t);
    }
  }

  // No request with `t` passes while another one waits: what a lock held per token ensures.
  predicate NeverTwoAtOnce(config: Config, es: seq<Event>, t: Token) {
    es != [] ==>
      var init, e := es[..|es| - 1], es[|es| - 1];
      && NeverTwoAtOnce(config, init, t)
      && (Accepts(config, After(config, init), e, t) ==> !Waiting(After(config, init), t))
  }

  // When no purge past the expiry comes between verification and query, that is all it takes.
  lemma PromptlyAcceptedOnceIff(config: Config, es: seq<Event>, t: Token)
    requires Legal(config, es) && Prompt(config, es)
    ensures Acceptances(config, es, t) <= 1 <==> NeverTwoAtOnce(config, es, t)
  {
    AcceptedOnceIff(config, es, t);
    ExclusiveIff(config, es, t);
  }

  lemma {:induction false} ExclusiveIff(config: Config, es: seq<Event>, t: Token)
    requires Legal(config, es) && Prompt(config, es)
    ensures Exclusive(config, es, t) <==> NeverTwoAtOnce(config, es, t)
  {
    if es != [] {
      var init, e := es[..|es| - 1], es[|es| - 1];
      ExclusiveIff(config, init, t);
      if Accepts(config, After(config, init), e, t) {
        RefreshPassesIff(config, init, t, e.verifiedAt);
        SpentIsRevoked(config, init, t);
      }
    }
  }

  // Every refresh is one step.
  predicate Atomic(es: seq<Event>) {
    forall i | 0 <= i < |es| :: !es[i].RefreshCheck?
  }

  lemma {:induction false} AtomicHasNoneInFlight(config: Config, es: seq<Event>)
    requires Legal(config, es) && Atomic(es)
    ensures After(config, es).inFlight == map[]
  {
    if es != [] {
      var init, e := es[..|es| - 1], es[|es| - 1];
      AtomicPrefix(es);
      AtomicHasNoneInFlight(config, init);
      if e.Logout? {
        RunSimulates(config, init);
        LogoutKeepsTokens(config, After(config, init), e);
      }
    }
  }

  lemma AtomicPrefix(es: seq<Event>)
    requires es != [] && Atomic(es)
    ensures Atomic(es[..|es| - 1])
  {
    assert forall i | 0 <= i < |es| - 1 :: es[..|es| - 1][i] == es[i];
  }

  lemma {:induction false} AtomicNeverWaits(config: Config, es: seq<Event>, t: Token)
    requires Legal(config, es) && Atomic(es)
    ensures NeverTwoAtOnce(config, es, t)
  {
    if es != [] {
      AtomicPrefix(es);
      AtomicNeverWaits(config, es[..|es| - 1], t);
      AtomicHasNoneInFlight(config, es[..|es| - 1]);
    }
  }

  // How often the run exchanged `t` in one step.
  function Exchanges(config: Config, es: seq<Event>, t: Token): nat {
    if es == [] then 0
    else
      var init, e := es[..|es| - 1], es[|es| - 1];
      Exchanges(config, init, t) + if e.Rotate? && Accepts(config, After(config, init), e, t) then 1 else 0
  }

  // Whatever else happens around them, at most one of all one-step exchanges of a token succeeds.
  lemma {:induction false} ExchangedAtMostOnce(config: Config, es: seq<Event>, t: Token)
    requires Legal(config, es) && Prompt(config, es)
    ensures Exchanges(config, es, t) <= 1
    ensures Exchanges(config, es, t) == 1 ==> RevokedByHistory(config, es, t)
  {
    if es != [] {
      var init, e := es[..|es| - 1], es[|es| - 1];
      ExchangedAtMostOnce(config, init, t);
      if e.Rotate? && Accepts(config, After(config, init), e, t) {
        RefreshPassesIff(config, init, t, e.verifiedAt);
      }
    }
  }

  // With every refresh in one step, a refresh token is accepted at most once.
  lemma AtomicallyAcceptedOnce(config: Config, es: seq<Event>, t: Token)
    requires Legal(config, es) && Prompt(config, es) && Atomic(es)
    ensures Acceptances(config, es, t) <= 1
  {
    AtomicNeverWaits(config, es, t);
    PromptlyAcceptedOnceIff(config, es, t);
  }

  // ----- A session identifier labels one pair -----

  // Every session identifier of an issued token labels exactly two tokens: one of each kind.
  lemma SidLabelsOnePair(config: Config, es: seq<Event>, t: Token)
    requires Legal(config, es) && Issued(After(config, es), t)
    ensures var st := After(config, es);
            exists access, refresh ::
              && access != refresh
              && (set j | j in st.tokens && st.tokens[j].sid == t.sid) == {access, refresh}
              && st.tokens[access].kind == Access && st.tokens[refresh].kind == Refresh
  {
    var st := After(config, es);
    RunSimulates(config, es);
    assert TokenInv(st, t) && PairInv(st, t.sid);
    var pair := st.pairs[t.sid];
    var labelled := set j | j in st.tokens && st.tokens[j].sid == t.sid;
    forall j | j in labelled ensures j in {pair.access.jti, pair.refresh.jti} {
      assert TokenInv(st, st.tokens[j]);
    }
    assert labelled == {pair.access.jti, pair.refresh.jti};
  }

  // ----- The balance of refresh tokens -----

  // Refresh tokens that would be accepted now.
  function LiveRefresh(config: Config, st: State): set<Id> {
    set j | j in st.tokens && RefreshPasses(config, st, st.tokens[j], st.now)
  }

  // Refresh tokens that nothing has revoked, expired or not.
  function Unrevoked(config: Config, es: seq<Event>): set<Id> {
    UnrevokedOf(config, After(config, es).tokens, es)
  }

  function UnrevokedOf(config: Config, tokens: map<Id, Token>, es: seq<Event>): set<Id> {
    set j | j in tokens && tokens[j].kind == Refresh && !RevokedByHistory(config, es, tokens[j])
  }

  function ExpiredUnrevoked(config: Config, es: seq<Event>): set<Id> {
    var st := After(config, es);
    set j | j in Unrevoked(config, es) && j in st.tokens && !Alive(config, st.tokens[j], st.now)
  }

  // Requests that have spent their token and not been answered yet.
  function Owed(st: State): set<nat> {
    set req | req in st.inFlight && st.inFlight[req].Spent?
  }

  // The token the event spends, if it spends one.
  function SpentToken(config: Config, st: State, e: Event): Option<Token> {
    match e
    case RefreshRevoke(req) => if req in st.inFlight then Some(st.inFlight[req].token) else None
    case Rotate(t, _, _) => if Passes(config, st, e) then Some(t) else None
    case _ => None
  }

  // Tokens spent although they had been revoked before: by another request since their query, by a
  // logout since their query, or before a purge that came in between.
  function Overtaken(config: Config, es: seq<Event>): nat {
    if es == [] then 0
    else
      var init, e := es[..|es| - 1], es[|es| - 1];
      var spent := SpentToken(config, After(config, init), e);
      Overtaken(config, init) + if spent.Some? && RevokedByHistory(config, init, spent.value) then 1 else 0
  }

  // What a login or a spent token came to nothing for: a refresh left without an answer, or a
  // session logged out with its refresh token unrevoked.
  function Loses(config: Config, init: seq<Event>, e: Event): nat {
    var st := After(config, init);
    match e
    case RefreshAbort(_) => 1
    case Rotate(_, _, issue) => if Passes(config, st, e) && issue.None? then 1 else 0
    case Logout(u, _, _) =>
      if u.sid in st.pairs && !RevokedByHistory(config, init, st.pairs[u.sid].refresh) then 1 else 0
    case _ => 0
  }

  function Lost(config: Config, es: seq<Event>): nat {
    if es == [] then 0
    else Lost(config, es[..|es| - 1]) + Loses(config, es[..|es| - 1], es[|es| - 1])
  }

  // Without an issue, exactly the tokens the event revokes leave the unrevoked ones.
  lemma UnrevokedWithoutIssue(config: Config, init: seq<Event>, e: Event, gone: set<Id>)
    requires Legal(config, init + [e])
    requires After(config, init + [e]).tokens == After(config, init).tokens
    requires var st := After(config, init);
             forall j | j in st.tokens && st.tokens[j].kind == Refresh :: j in gone <==>
                 Revokes(config, st, e, st.tokens[j])
    ensures Unrevoked(config, init + [e]) == Unrevoked(config, init) - gone
  {
    assert (init + [e])[..|init|] == init;
  }

  // With an issue, one new token joins them.
  lemma UnrevokedWithIssue(config: Config, init: seq<Event>, e: Event, sub: Id, ids: Ids, gone: set<Id>)
    requires Legal(config, init + [e]) && Fresh(After(config, init), ids)
    requires After(config, init + [e]).tokens == Issue(After(config, init), sub, ids).tokens
    requires var st := After(config, init);
             forall j | j in st.tokens && st.tokens[j].kind == Refresh :: j in gone <==>
                 Revokes(config, st, e, st.tokens[j])
    ensures Unrevoked(config, init + [e]) == Unrevoked(config, init) - gone + {ids.refreshJti}
    ensures ids.refreshJti !in Unrevoked(config, init)
  {
    var all, st := init + [e], After(config, init);
    assert all[..|init|] == init;
    RunSimulates(config, init);
    IssuedTokens(st, sub, ids);
    NotYetIssuedNotRevoked(config, all, Token(sub, Refresh, ids.refreshJti, ids.sid, st.now));
    UnrevokedGrows(config, init, all, st.tokens, After(config, all).tokens, ids, gone);
  }

  lemma UnrevokedGrows(config: Config, init: seq<Event>, all: seq<Event>, before: map<Id, Token>, after: map<Id, Token>,
                       ids: Ids, gone: set<Id>)
    requires after.Keys == before.Keys + {ids.accessJti, ids.refreshJti}
    requires ids.accessJti !in before && ids.refreshJti !in before
    requires after[ids.accessJti].kind == Access && after[ids.refreshJti].kind == Refresh
    requires !RevokedByHistory(config, all, after[ids.refreshJti])
    requires forall j | j in before :: after[j] == before[j]
    requires forall j | j in before && before[j].kind == Refresh ::
               RevokedByHistory(config, all, before[j]) <==> j in gone || RevokedByHistory(config, init, before[j])
    ensures UnrevokedOf(config, after, all) == UnrevokedOf(config, before, init) - gone + {ids.refreshJti}
    ensures ids.refreshJti !in UnrevokedOf(config, before, init)
  {
  }

  // What an issue adds, and that it touches no token issued before.
  lemma IssuedTokens(st: State, sub: Id, ids: Ids)
    requires TokensInv(st) && Fresh(st, ids)
    ensures var next := Issue(st, sub, ids);
            && next.tokens.Keys == st.tokens.Keys + {ids.accessJti, ids.refreshJti}
            && ids.accessJti !in st.tokens && ids.refreshJti !in st.tokens
            && (forall j | j in st.tokens :: next.tokens[j] == st.tokens[j])
            && next.tokens[ids.accessJti].kind == Access
            && next.tokens[ids.refreshJti] == Token(sub, Refresh, ids.refreshJti, ids.sid, st.now)
  {
    FreshAreNew(st, ids);
  }

  lemma RemoveCard<T>(s: set<T>, x: T)
    ensures |s - {x}| == |s| - if x in s then 1 else 0
  {
    if x !in s {
      assert s - {x} == s;
    }
  }

  // The account of a run.
  function Account(config: Config, es: seq<Event>): int {
    var st := After(config, es);
    |Unrevoked(config, es)| + |Owed(st)| + Lost(config, es) - st.directLogins - Overtaken(config, es)
  }

  predicate Conserves(config: Config, init: seq<Event>, e: Event) {
    Account(config, init + [e]) == Account(config, init)
  }

  lemma AppendCounts(config: Config, init: seq<Event>, e: Event)
    ensures var spent := SpentToken(config, After(config, init), e);
            Overtaken(config, init + [e]) ==
            Overtaken(config, init) + if spent.Some? && RevokedByHistory(config, init, spent.value) then 1 else 0
    ensures Lost(config, init + [e]) == Lost(config, init) + Loses(config, init, e)
  {
    assert (init + [e])[..|init|] == init;
  }

  lemma NothingGone(config: Config, init: seq<Event>, e: Event)
    requires Legal(config, init + [e])
    requires After(config, init + [e]).tokens == After(config, init).tokens
    requires forall t :: !Revokes(config, After(config, init), e, t)
    ensures Unrevoked(config, init + [e]) == Unrevoked(config, init)
  {
    UnrevokedWithoutIssue(config, init, e, {});
  }

  // Events that neither issue nor revoke nor answer.
  lemma QuietConserves(config: Config, init: seq<Event>, e: Event)
    requires Legal(config, init + [e]) && (e.Tick? || e.RefreshCheck? || e.Purge?)
    ensures Conserves(config, init, e)
  {
    AppendEvent(config, init, e);
    AppendCounts(config, init, e);
    NothingGone(config, init, e);
    assert Owed(After(config, init + [e])) == Owed(After(config, init));
  }

  lemma AbortConserves(config: Config, init: seq<Event>, e: Event)
    requires Legal(config, init + [e]) && e.RefreshAbort?
    ensures Conserves(config, init, e)
  {
    AppendEvent(config, init, e);
    AppendCounts(config, init, e);
    NothingGone(config, init, e);
    var owed := Owed(After(config, init));
    assert Owed(After(config, init + [e])) == owed - {e.req};
    RemoveCard(owed, e.req);
  }

  lemma LogoutConserves(config: Config, init: seq<Event>, e: Event)
    requires Legal(config, init + [e]) && e.Logout?
    ensures Conserves(config, init, e)
  {
    AppendEvent(config, init, e);
    AppendCounts(config, init, e);
    RunSimulates(config, init);
    var st := After(config, init);
    LogoutKeepsTokens(config, st, e);
    assert TokenInv(st, e.token) && PairInv(st, e.token.sid);
    var refresh := st.pairs[e.token.sid].refresh;
    forall j | j in st.tokens && st.tokens[j].kind == Refresh
      ensures j in {refresh.jti} <==> Revokes(config, st, e, st.tokens[j])
    {
      assert TokenInv(st, st.tokens[j]) && PairInv(st, st.tokens[j].sid);
    }
    UnrevokedWithoutIssue(config, init, e, {refresh.jti});
    RemoveCard(Unrevoked(config, init), refresh.jti);
  }

  lemma LoginConserves(config: Config, init: seq<Event>, e: Event)
    requires Legal(config, init + [e]) && e.Login?
    ensures Conserves(config, init, e)
  {
    AppendEvent(config, init, e);
    AppendCounts(config, init, e);
    UnrevokedWithIssue(config, init, e, e.sub, e.ids, {});
    assert Unrevoked(config, init) - {} == Unrevoked(config, init);
    assert Owed(After(config, init + [e])) == Owed(After(config, init));
  }

  // Which tokens an event that spends `u` revokes, and whether `u` was unrevoked.
  lemma SpendingRevokes(config: Config, init: seq<Event>, e: Event, u: Token)
    requires Legal(config, init + [e]) && SpentToken(config, After(config, init), e) == Some(u)
    ensures var st := After(config, init);
            && u.jti != "" && Issued(st, u) && u.kind == Refresh
            && (forall j | j in st.tokens && st.tokens[j].kind == Refresh ::
                  j in {u.jti} <==> Revokes(config, st, e, st.tokens[j]))
            && (u.jti in Unrevoked(config, init) <==> !RevokedByHistory(config, init, u))
  {
    var st := After(config, init);
    AppendEvent(config, init, e);
    RunSimulates(config, init);
    if e.Rotate? {
      PassingIsRefresh(config, st, u, e.verifiedAt);
    }
    assert TokenInv(st, u);
  }

  lemma RevokeStep(config: Config, st: State, req: nat)
    requires req in st.inFlight && st.inFlight[req].token.jti != ""
    ensures var next := Step(config, true, false, st, RefreshRevoke(req));
            next == st.(table := next.table, inFlight := st.inFlight[req := Spent(st.inFlight[req].token)])
  {
  }

  lemma RevokeConserves(config: Config, init: seq<Event>, e: Event)
    requires Legal(config, init + [e]) && e.RefreshRevoke?
    ensures Conserves(config, init, e)
  {
    AppendEvent(config, init, e);
    AppendCounts(config, init, e);
    var st, next := After(config, init), After(config, init + [e]);
    var u := st.inFlight[e.req].token;
    SpendingRevokes(config, init, e, u);
    RevokeStep(config, st, e.req);
    UnrevokedWithoutIssue(config, init, e, {u.jti});
    RemoveCard(Unrevoked(config, init), u.jti);
    assert Owed(next) == Owed(st) + {e.req};
  }

  lemma AnswerStep(config: Config, st: State, req: nat, ids: Ids)
    requires req in st.inFlight && st.inFlight[req].Spent?
    ensures var next := Step(config, true, false, st, RefreshIssue(req, ids));
            && next == Issue(st, st.inFlight[req].token.sub, ids).(inFlight := st.inFlight - {req})
            && Owed(next) == Owed(st) - {req}
  {
  }

  lemma AnswerConserves(config: Config, init: seq<Event>, e: Event)
    requires Legal(config, init + [e]) && e.RefreshIssue?
    ensures Conserves(config, init, e)
  {
    AppendEvent(config, init, e);
    AppendCounts(config, init, e);
    var st := After(config, init);
    AnswerStep(config, st, e.req, e.ids);
    UnrevokedWithIssue(config, init, e, st.inFlight[e.req].token.sub, e.ids, {});
    assert Unrevoked(config, init) - {} == Unrevoked(config, init);
    RemoveCard(Owed(st), e.req);
  }

  lemma RotateStep(config: Config, st: State, e: Event, passes: bool)
    requires e.Rotate? && e.token.jti != ""
    ensures var next := Step(config, true, passes, st, e);
            && next.inFlight == st.inFlight && next.directLogins == st.directLogins
            && next.tokens == if passes && e.issue.Some? then Issue(st, e.token.sub, e.issue.value).tokens
                else st.tokens
  {
  }

  lemma RotateConserves(config: Config, init: seq<Event>, e: Event)
    requires Legal(config, init + [e]) && e.Rotate?
    ensures Conserves(config, init, e)
  {
    AppendEvent(config, init, e);
    AppendCounts(config, init, e);
    var st, u := After(config, init), e.token;
    IssuedIsNamed(config, init, u);
    RotateStep(config, st, e, Passes(config, st, e));
    assert Owed(After(config, init + [e])) == Owed(st);
    if Passes(config, st, e) {
      RotateSpends(config, init, e);
    } else {
      NothingGone(config, init, e);
    }
  }

  lemma IssuedIsNamed(config: Config, es: seq<Event>, u: Token)
    requires Legal(config, es) && Issued(After(config, es), u)
    ensures u.jti != ""
  {
    RunSimulates(config, es);
    assert TokenInv(After(config, es), u);
  }

  lemma RotateSpends(config: Config, init: seq<Event>, e: Event)
    requires Legal(config, init + [e]) && e.Rotate? && Passes(config, After(config, init), e)
    ensures |Unrevoked(config, init + [e])| ==
              |Unrevoked(config, init)| - (if RevokedByHistory(config, init, e.token) then 0 else 1)
              + if e.issue.Some? then 1 else 0
  {
    AppendEvent(config, init, e);
    var u := e.token;
    SpendingRevokes(config, init, e, u);
    RotateStep(config, After(config, init), e, true);
    RemoveCard(Unrevoked(config, init), u.jti);
    if e.issue.Some? {
      UnrevokedWithIssue(config, init, e, u.sub, e.issue.value, {u.jti});
    } else {
      UnrevokedWithoutIssue(config, init, e, {u.jti});
    }
  }

  lemma StepConserves(config: Config, init: seq<Event>, e: Event)
    requires Legal(config, init + [e])
    ensures Conserves(config, init, e)
  {
    match e
    case Login(_, _) => LoginConserves(config, init, e);
    case RefreshRevoke(_) => RevokeConserves(config, init, e);
    case RefreshIssue(_, _) => AnswerConserves(config, init, e);
    case Rotate(_, _, _) => RotateConserves(config, init, e);
    case Logout(_, _, _) => LogoutConserves(config, init, e);
    case RefreshAbort(_) => AbortConserves(config, init, e);
    case _ => QuietConserves(config, init, e);
  }

  lemma {:induction false} UnrevokedBalance(config: Config, es: seq<Event>)
    requires Legal(config, es)
    ensures Account(config, es) == 0
  {
    if es != [] {
      var init := es[..|es| - 1];
      assert init + [es[|es| - 1]] == es;
      UnrevokedBalance(config, init);
      StepConserves(config, init, es[|es| - 1]);
    }
  }

  lemma LiveAreUnrevoked(config: Config, es: seq<Event>)
    requires Legal(config, es)
    ensures LiveRefresh(config, After(config, es)) == Unrevoked(config, es) - ExpiredUnrevoked(config, es)
  {
    var st := After(config, es);
    RunSimulates(config, es);
    forall j | j in st.tokens
      ensures j in LiveRefresh(config, st) <==> j in Unrevoked(config, es) && Alive(config, st.tokens[j], st.now)
    {
      assert TokenInv(st, st.tokens[j]);
      if Alive(config, st.tokens[j], st.now) {
        UnexpiredIsUnforgotten(config, es, st.tokens[j]);
        RefreshPassesIff(config, es, st.tokens[j], st.now);
      }
    }
  }

  lemma DifferenceCard<T>(a: set<T>, b: set<T>)
    requires b <= a
    ensures |a - b| + |b| == |a|
  {
    assert a == (a - b) + b;
  }

  // For every run: the refresh tokens that are live, expired unrevoked, owed to a request or lost
  // are exactly the direct logins and the tokens spent after they had been revoked.
  lemma RotationBalance(config: Config, es: seq<Event>)
    requires Legal(config, es)
    ensures var st := After(config, es);
            |LiveRefresh(config, st)| + |ExpiredUnrevoked(config, es)| + |Owed(st)| + Lost(config, es) ==
            st.directLogins + Overtaken(config, es)
  {
    UnrevokedBalance(config, es);
    LiveAreUnrevoked(config, es);
    DifferenceCard(Unrevoked(config, es), ExpiredUnrevoked(config, es));
  }

  // Live refresh tokens never exceed the direct logins by more than the tokens spent too late.
  lemma RotationConserves(config: Config, es: seq<Event>)
    requires Legal(config, es)
    ensures |LiveRefresh(config, After(config, es))| <= After(config, es).directLogins + Overtaken(config, es)
  {
    RotationBalance(config, es);
  }

  lemma {:induction false} AtomicIsNeverOvertaken(config: Config, es: seq<Event>)
    requires Legal(config, es) && Prompt(config, es) && Atomic(es)
    ensures Overtaken(config, es) == 0
  {
    if es != [] {
      var init, e := es[..|es| - 1], es[|es| - 1];
      AtomicPrefix(es);
      AtomicIsNeverOvertaken(config, init);
      AtomicHasNoneInFlight(config, init);
      if e.Rotate? && Passes(config, After(config, init), e) {
        RefreshPassesIff(config, init, e.token, e.verifiedAt);
      }
    }
  }

  // When every refresh is one step, refreshing never multiplies sessions.
  lemma AtomicRotationConserves(config: Config, es: seq<Event>)
    requires Legal(config, es) && Prompt(config, es) && Atomic(es)
    ensures |LiveRefresh(config, After(config, es))| <= After(config, es).directLogins
  {
    AtomicIsNeverOvertaken(config, es);
    RotationConserves(config, es);
  }

  // ----- Two requests between query and insertion -----

  const FORK_CONFIG := Config(3600000, 604800000)

  const FORK_TOKEN := Token("u", Refresh, "r", "s", 0)

  // Two requests query the token before either inserts its row.
  const FORK_RUN: seq<Event> := [
    Login("u", Ids("s", "a", "r")),
    RefreshCheck(1, FORK_TOKEN, 0), RefreshCheck(2, FORK_TOKEN, 0),
    RefreshRevoke(1), RefreshRevoke(2),
    RefreshIssue(1, Ids("s1", "a1", "r1")), RefreshIssue(2, Ids("s2", "a2", "r2"))]

  // The run after its first n events.
  lemma ForkStep(n: nat)
    requires n < |FORK_RUN|
    ensures var st, e := After(FORK_CONFIG, FORK_RUN[..n]), FORK_RUN[n];
            && After(FORK_CONFIG, FORK_RUN[..n + 1]) == Step(FORK_CONFIG, true, Passes(FORK_CONFIG, st, e), st, e)
            && (Legal(FORK_CONFIG, FORK_RUN[..n + 1]) <==>
                  Legal(FORK_CONFIG, FORK_RUN[..n]) && Enabled(FORK_CONFIG, st, e))
  {
    RunPrefix(FORK_CONFIG, FORK_RUN, n);
  }

  const FORK_ISSUED := Issue(INITIAL, "u", Ids("s", "a", "r")).(directLogins := 1)

  const FORK_TABLE: Table := map["r" := Row(Some("s"), Refresh, 604800000)]

  lemma ForkChecked()
    ensures Legal(FORK_CONFIG, FORK_RUN[..3])
    ensures After(FORK_CONFIG, FORK_RUN[..3]) ==
        FORK_ISSUED.(inFlight := map[1 := Checked(FORK_TOKEN), 2 := Checked(FORK_TOKEN)])
  {
    ForkStep(0);
    assert After(FORK_CONFIG, FORK_RUN[..1]) == FORK_ISSUED;
    ForkStep(1);
    assert After(FORK_CONFIG, FORK_RUN[..2]) == FORK_ISSUED.(inFlight := map[1 := Checked(FORK_TOKEN)]);
    ForkStep(2);
  }

  // Inserting the row of the token, for either request.
  lemma ForkSpend(st: State, req: nat)
    requires req in st.inFlight && st.inFlight[req] == Checked(FORK_TOKEN)
    requires st.table == map[] || st.table == FORK_TABLE
    ensures Step(FORK_CONFIG, true, false, st, RefreshRevoke(req)) ==
            st.(table := FORK_TABLE, inFlight := st.inFlight[req := Spent(FORK_TOKEN)])
  {
    assert RefreshRevocation(ClaimsOf(FORK_CONFIG, FORK_TOKEN), FORK_CONFIG, st.now) ==
           Revocation("r", Some("s"), 604800000, Refresh);
  }

  lemma ForkFirstSpent()
    ensures Legal(FORK_CONFIG, FORK_RUN[..4])
    ensures After(FORK_CONFIG, FORK_RUN[..4]) ==
              FORK_ISSUED.(table := FORK_TABLE, inFlight := map[1 := Spent(FORK_TOKEN), 2 := Checked(FORK_TOKEN)])
  {
    ForkChecked();
    ForkStep(3);
    ForkSpend(After(FORK_CONFIG, FORK_RUN[..3]), 1);
  }

  lemma ForkSpent()
    ensures Legal(FORK_CONFIG, FORK_RUN[..5])
    ensures After(FORK_CONFIG, FORK_RUN[..5]) == FORK_SPENT
  {
    ForkFirstSpent();
    ForkStep(4);
    ForkSpend(After(FORK_CONFIG, FORK_RUN[..4]), 2);
  }

  const FORK_SPENT :=
    FORK_ISSUED.(table := FORK_TABLE, inFlight := map[1 := Spent(FORK_TOKEN), 2 := Spent(FORK_TOKEN)])

  lemma ForkIdsAreFresh(st: State)
    requires st.used == {"s", "a", "r"}
    ensures Fresh(st, Ids("s1", "a1", "r1"))
  {
    assert |"s1"| != |"s"|;
    assert forall id | id in st.used :: |id| == 1;
  }

  lemma ForkFirstAnswer()
    ensures Legal(FORK_CONFIG, FORK_RUN[..6])
    ensures After(FORK_CONFIG, FORK_RUN[..6]) ==
              Issue(FORK_SPENT, "u", Ids("s1", "a1", "r1")).(inFlight := map[2 := Spent(FORK_TOKEN)])
  {
    ForkSpent();
    ForkStep(5);
    var st := After(FORK_CONFIG, FORK_RUN[..5]);
    ForkIdsAreFresh(st);
    AnswerStep(FORK_CONFIG, st, 1, Ids("s1", "a1", "r1"));
    assert st.inFlight - {1} == map[2 := Spent(FORK_TOKEN)];
  }

  lemma ForkOtherIdsAreFresh(st: State)
    requires st.used == {"s", "a", "r"} + {"s1", "a1", "r1"}
    ensures Fresh(st, Ids("s2", "a2", "r2"))
  {
    assert forall id | id in st.used :: |id| == 1 || id[1] == '1';
    assert "s2"[1] == "a2"[1] == "r2"[1] == '2';
  }

  lemma ForkIsLive(st: State)
    requires st.now == 0 && st.table == FORK_TABLE
    requires {"r1", "r2"} <= st.tokens.Keys
    requires st.tokens["r1"] == Token("u", Refresh, "r1", "s1", 0)
    requires st.tokens["r2"] == Token("u", Refresh, "r2", "s2", 0)
    ensures {"r1", "r2"} <= LiveRefresh(FORK_CONFIG, st)
  {
    assert !SessionRow(FORK_TABLE, "s1") && !SessionRow(FORK_TABLE, "s2");
  }

  // With the query and the insertion apart, the bound without `Overtaken` fails: one login, one
  // refresh token presented twice at once, and two live refresh tokens.
  lemma ConcurrentRefreshForks()
    ensures Legal(FORK_CONFIG, FORK_RUN)
    ensures After(FORK_CONFIG, FORK_RUN).directLogins == 1
    ensures {"r1", "r2"} <= LiveRefresh(FORK_CONFIG, After(FORK_CONFIG, FORK_RUN))
  {
    ForkFirstAnswer();
    ForkStep(6);
    var st := After(FORK_CONFIG, FORK_RUN[..6]);
    ForkOtherIdsAreFresh(st);
    AnswerStep(FORK_CONFIG, st, 2, Ids("s2", "a2", "r2"));
    assert FORK_RUN[..7] == FORK_RUN;
    ForkIsLive(After(FORK_CONFIG, FORK_RUN));
  }
}
