# Verified models of the boar-pack services

A Dafny model of the stateful parts of the repository and proofs of what they promise over all
inputs and all runs. Each service is a class whose methods are proved against functions of its
state; events fold those functions into runs, and the main results are about every run. Where
runs interleave at an await, the await is where an operation is split into two events.

- `RevokedTokens`, `JwtAuth`, `Sessions`, `SessionHistory`, `SessionPurges`, `SessionCounts`,
  `SessionFamilies`: the token sessions. Login, refresh (as one step, or as query, insertion and answer), logout,
  the hourly purge and the clock are the steps of a transition system over the revocation table; a
  token's expiry is verified some time before the query. The central result is that the purged
  table answers like a set that only grows, and that its answers are exactly what the history of
  the run says. Expiry follows section 4.1.4 of RFC 7519 and the token identifier section 4.1.7.
- `Cluster`, `ClusterRuns`, `ClusterPlans`: the worker supervisor, with the worker maps, armed
  restart timers, and starts and launches that wait for their settings.
- `OrderedMap`, `QuotesStatistic`, `UsersConnections`, `EventLogs`: the in-memory accumulators and
  their flushes.
- `Timeline`: the bucket width, the generated series and the sums, shared by the three services
  that draw timelines. All three choose the width and cut the range in the same way.
- `Monitoring`, `Notifications`, `ProblematicPeriods`, `ConcurrentChecks`: the staleness test, the
  notification backoff, the recorder of problematic periods, and checks that overlap.
- `WebsocketClient`: the reconnecting client and its queue.
- `TableSearch`, `TableQuery`: filters and keyword to a search condition, with a meaning of
  conditions over rows, and the search of a whole table request under a column set.
- `ColumnsSets`, `NumberTools`: column visibility and decimal trimming.
- `WsAuth`: the ping and pong heartbeat (sections 5.5.2 and 5.5.3 of RFC 6455).

Assumptions of the token model: identifiers are fresh when generated, the clock does not go back,
and a token with a good signature was signed here. No order of the two token lifetimes is assumed:
logout writes the access token's own row next to the session's row, and this is enough.

Places where the code does not do what its documentation or its names suggest, and what is proved
instead:

- The documentation says that using a refresh token revokes it at once to prevent reuse
  (docs/auth-refresh-token.md:52). The query and the insertion are separate, so two requests can
  both pass (`ConcurrentRefreshForks`). A token is accepted at most once exactly when its requests
  exclude one another (`AcceptedOnceIff`, `PromptlyAcceptedOnceIff`), and the balance of all refresh
  tokens is an equation (`RotationBalance`).
- A token verified just before its expiry and looked up after a purge past it passes although it
  was revoked (`StaleRequestPasses`). Purging changes a decision in this case only
  (`DecidesAlikeIff`, `PromptIsNeverStale`), and who passes is exact in it too
  (`RefreshPassesExactly`).
- A list filter that names null beside other values loses the null (`NullInListIsLost`); the exact
  condition is in `RewriteKeepsMeaningIff`, and the loss is part of `FiltersMeaning`.
- Timelines by week count nothing unless the client library and the database begin weeks on the
  same day (`PartitionIff`, `SundayWeeksAreEmpty`).
- An explicit start of a worker whose restart or whose cluster's launch is under way starts a second
  one (`ExplicitStartRunsTwice`, `StartDuringLaunchRunsTwice`). Over every run workers stay single if
  and only if no such start, and no launch over workers that are live or under way, is requested
  (`SingleIff`).
- A stop request for a worker that is not live but waits for its restart does nothing, and the worker
  comes up (`StopDuringRestartIsIgnored`, `StopIsEffectiveIff`).
- The documentation says that the session row lets the entire session be invalidated
  (docs/auth-refresh-token.md:46). A refresh issues its pair under a new session identifier, so a
  logout with an access token from before a refresh spares the new pair, and one from after it spares
  the old access token (`OldLogoutSparesNewPair`, `NewLogoutSparesOldAccess`). What a logout ends is
  exact (`LogoutSparesIff`, `LogoutEndsLoginIff`).
- A reconnect that overlaps a connecting socket can lose the queue (`OverlappingReconnectDrops`), and
  so can an open handler that closes (`ClosingHandlerDrops`); exactly when is in `DropsIff` and
  `NothingDropped`. An open handler that sends can overtake the queue (`HandlerOvertakesQueue`,
  `DeliveredInOrderIff`).
- Monitoring checks that overlap can open two periods (`OverlappingChecksOpenTwice`, `SingleIff`), and
  the recorder and the notifier disagree for half a second (`RoundingGap`).
- A column group without an index cuts off its shown columns from their ancestors
  (`VisibleMeansSubtreeShownIff`).
- Trimming a string with two dots can leave something to trim (`TwoDotsTakeTwoPasses`,
  `SecondPassIff`), and trimming a number with an exponent trims the exponent: "1.5e+30" becomes
  "1.5e+3" (`ExponentLosesZero`, `ExponentKeepsValueIff`).
- A numeric column filtered by a list of several values that is no range, and a uuid column filtered
  by any list, is not filtered at all, not even by its base filter (`SetFilterIsIgnoredIff`, `TwoNumbersAreIgnored`).

## Model

| member | source | states |
|---|---|---|
| RevokedTokens.RevokedTokensService.RevokeTokens | packages/users-backend/src/revoked-tokens/revoked-tokens.service.ts:42-55 | the rows go into the table one after another by insert-or-ignore on the unique `jti` |
| RevokedTokens.RevokedTokensService.RevokeToken | packages/users-backend/src/revoked-tokens/revoked-tokens.service.ts:20-36 | writes the token's row and, for a token with a session, a row keyed by the session that lasts one refresh lifetime from now |
| RevokedTokens.RevokedTokensService.RevokeRefreshToken | packages/users-backend/src/revoked-tokens/revoked-tokens.service.ts:38-40 | writes the one row of a spent refresh token |
| RevokedTokens.RevokedTokensService.IsTokenRevoked | packages/users-backend/src/revoked-tokens/revoked-tokens.service.ts:63-74 | true exactly when some row has the `jti`, or the session is given and has a session row |
| RevokedTokens.RevokedTokensService.CleanupExpiredTokens | packages/users-backend/src/revoked-tokens/revoked-tokens.service.ts:76-93 | exactly the rows whose expiry lies strictly before the time read are deleted |
| RevokedTokens.InsertAllKeeps | packages/users-backend/src/revoked-tokens/revoked-tokens.service.ts:42-55 | insertion adds exactly the given keys and never loses or rewrites an existing row |
| RevokedTokens.InsertAllFirstWins | packages/users-backend/src/revoked-tokens/revoked-tokens.service.ts:42-55 | of several revocations of one `jti`, the first is the one stored |
| RevokedTokens.RevocationMeaning | packages/users-backend/src/revoked-tokens/revoked-tokens.service.ts:20-74 | revoking a token makes exactly that token, its session's key and every token checked with its session revoked, and nothing else |
| JwtAuth.JWTAuthService.Sign | packages/users-backend/src/jwt-auth/jwt-auth.service.ts:26-50 | the signed token carries type, fresh `jti`, session and the expiry of its kind; the returned payload differs from it in `exp` only |
| JwtAuth.ReportedExpIsClose | packages/users-backend/src/jwt-auth/jwt-auth.service.ts:41-49 | the reported `exp` is the signed one or one second more, and which of the two is decided by the milliseconds |
| JwtAuth.ReportedExpIsExactIff | packages/users-backend/src/jwt-auth/jwt-auth.service.ts:41-49 | the reported and the signed `exp` agree at every instant if and only if the lifetime is a whole number of seconds |
| JwtAuth.UnexpiredIff | packages/users-backend/src/jwt-auth/jwt-auth.srtategy.ts:55 | in milliseconds: a token is accepted for the whole seconds of its lifetime from the whole second it was signed in; never from the end of its lifetime on, and always up to two seconds before |
| JwtAuth.JWTAuthService.RevokeToken | packages/users-backend/src/jwt-auth/jwt-auth.service.ts:60-62 | revokes with the configured refresh lifetime |
| JwtAuth.AccessAnswers | packages/users-backend/src/jwt-auth/jwt-auth.srtategy.ts:61-92 | an access token stands for its subject if that is a known user, and which of the three errors is answered when it does not, in terms of payload and table |
| JwtAuth.JwtAuthStrategy.Validate | packages/users-backend/src/jwt-auth/jwt-auth.srtategy.ts:61-92 | the answer is the payload's subject, a known user; each of the three errors exactly when it applies, in the code's order; the payload is attached to the request only on success |
| JwtAuth.RefreshAnswers | packages/users-backend/src/jwt-auth/jwt-auth.refresh.srtategy.ts:45-67 | the same for the three checks a refresh token passes before it is spent |
| JwtAuth.SpendWrites | packages/users-backend/src/jwt-auth/jwt-auth.refresh.srtategy.ts:70-78 | accepting a refresh token adds one row with its own expiry, or one lifetime from now if it has none |
| JwtAuth.JwtAuthRefreshStrategy.Validate | packages/users-backend/src/jwt-auth/jwt-auth.refresh.srtategy.ts:45-91 | rejections in the code's order; an accepted token is spent, with the expiry of the token, before the user is looked up, even if there is no such user |
| JwtAuth.SpentRefreshTokenIsRejected | packages/users-backend/src/jwt-auth/jwt-auth.refresh.srtategy.ts:61-78 | an accepted refresh token is rejected afterwards, whatever else is inserted and purged, until its own expiry has passed |
| JwtAuth.AuthService.Login | packages/users-backend/src/auth/auth.service.ts:60-75 | one access and one refresh token for the user, under one session; the email in the access token only; the payload reported with each |
| JwtAuth.AuthService.Logout | packages/users-backend/src/auth/auth.service.ts:77-90 | nothing without `jti` or `exp`; otherwise the access row and the session row |
| JwtAuth.LogoutWrites | packages/users-backend/src/auth/auth.service.ts:77-90 | which keys a logout adds, with which contents, and that it changes no existing row |
| Sessions.IssueIsLogin | packages/users-backend/src/auth/auth.service.ts:60-75 | the pair a run records has the claims of the two tokens a login signs, up to the email, and no decision depends on the email |
| Sessions.AliveIff | packages/users-backend/src/jwt-auth/jwt-auth.service.ts:26-50 | the span in which an issued token is unexpired, in milliseconds |
| Sessions.StepSimulates | packages/users-backend/src/revoked-tokens/revoked-tokens.service.ts:42-93 | each of the nine protocol steps keeps a simulation between the purged table and one that never deletes, whatever instant a refresh token was verified at |
| Sessions.RunSimulates | packages/users-backend/src/revoked-tokens/revoked-tokens.service.ts:42-93 | the simulation holds after every run |
| SessionHistory.PurgeIsUnobservable | packages/users-backend/src/revoked-tokens/revoked-tokens.service.ts:42-93 | after every run both strategies answer as if no row had ever been deleted, for every token no purge has read a clock past; the order of the two lifetimes does not matter |
| SessionHistory.UnexpiredIsUnforgotten | packages/users-backend/src/revoked-tokens/revoked-tokens.service.ts:76-93 | every token unexpired now is such a token |
| SessionHistory.RevokedIffHistory | packages/users-backend/src/revoked-tokens/revoked-tokens.service.ts:20-93 | such a token is reported revoked if and only if an earlier event of the run spent it or logged out its session |
| SessionHistory.RefreshPassesIff | packages/users-backend/src/jwt-auth/jwt-auth.refresh.srtategy.ts:45-78 | a request whose token was verified at any earlier instant passes the query if and only if it is a refresh token, that instant lies before the whole second in which its lifetime ends, and no earlier event revoked it, with queries and insertions of concurrent requests interleaved freely |
| SessionHistory.AccessPassesIff | packages/users-backend/src/jwt-auth/jwt-auth.srtategy.ts:61-92 | the same for access tokens and known users; a token that passes is answered with its user |
| SessionHistory.HistoryIsMonotone | packages/users-backend/src/revoked-tokens/revoked-tokens.service.ts:42-55 | once revoked, revoked in every continuation |
| SessionHistory.LogoutIsFinal | packages/users-backend/src/auth/auth.service.ts:77-90 | after a logout no token of that session passes either strategy in any continuation, unless it was verified before its expiry and a purge past the expiry came before the query |
| SessionHistory.SpentIsFinal | packages/users-backend/src/jwt-auth/jwt-auth.refresh.srtategy.ts:61-78 | a request whose query comes after an insertion for the same token is rejected, with the same single exception |
| SessionHistory.DecidesAlikeIff | packages/users-backend/src/revoked-tokens/revoked-tokens.service.ts:76-93 | a service that never purges decides every request of a run alike if and only if no request of the run passes after its token was revoked |
| SessionHistory.PromptIsNeverStale | packages/users-backend/src/revoked-tokens/revoked-tokens.service.ts:76-93 | no request does when no purge past the expiry comes between verification and query |
| SessionPurges.RowsAreKept | packages/users-backend/src/revoked-tokens/revoked-tokens.service.ts:20-93 | the rows a run leaves for a token are exactly those its history has written and no purge has deleted |
| SessionPurges.RefreshPassesExactly | packages/users-backend/src/jwt-auth/jwt-auth.refresh.srtategy.ts:45-78 | in every run, without exception: a refresh token passes if and only if it was unexpired when verified and neither its own row nor its session's is left |
| SessionPurges.AccessPassesExactly | packages/users-backend/src/jwt-auth/jwt-auth.srtategy.ts:61-92 | the same for access tokens and known users |
| SessionPurges.StaleRequestPasses | packages/users-backend/src/jwt-auth/jwt-auth.refresh.srtategy.ts:61-78 | a run in which a spent token passes again: verified before its expiry, looked up after a purge past it |
| SessionCounts.AcceptedIff | packages/users-backend/src/jwt-auth/jwt-auth.refresh.srtategy.ts:45-78 | a token has been accepted exactly when a request with it waits between query and insertion, or has spent it |
| SessionCounts.AcceptedOnceIff | docs/auth-refresh-token.md:52 | over every run a refresh token is accepted at most once if and only if no request with it passes while another one waits or after one has spent it |
| SessionCounts.PromptlyAcceptedOnceIff | docs/auth-refresh-token.md:52 | when no purge past the expiry comes between verification and query: at most once if and only if no request passes while another one waits |
| SessionCounts.AtomicallyAcceptedOnce | packages/users-backend/src/jwt-auth/jwt-auth.refresh.srtategy.ts:61-78 | with query and insertion in one step, at most once |
| SessionCounts.ExchangedAtMostOnce | packages/users-backend/src/jwt-auth/jwt-auth.refresh.srtategy.ts:45-78 | at most one of all one-step exchanges of a token succeeds, whatever other requests do |
| SessionCounts.SidLabelsOnePair | packages/users-backend/src/auth/auth.service.ts:60-75 | every session identifier of an issued token labels exactly two tokens, one of each kind |
| SessionCounts.RotationBalance | packages/users-backend/src/jwt-auth/jwt-auth.refresh.srtategy.ts:45-91 | for every run: live, expired unrevoked, owed and lost refresh tokens are together exactly the direct logins and the tokens spent after they had been revoked |
| SessionCounts.RotationConserves | packages/users-backend/src/jwt-auth/jwt-auth.refresh.srtategy.ts:45-91 | so live refresh tokens are bounded by direct logins plus tokens spent after they had been revoked |
| SessionCounts.AtomicIsNeverOvertaken | packages/users-backend/src/jwt-auth/jwt-auth.refresh.srtategy.ts:61-78 | with query and insertion in one step no token is spent after it was revoked |
| SessionCounts.AtomicRotationConserves | packages/users-backend/src/jwt-auth/jwt-auth.refresh.srtategy.ts:45-91 | then refreshing never multiplies sessions: live refresh tokens never exceed direct logins |
| SessionCounts.ConcurrentRefreshForks | packages/users-backend/src/jwt-auth/jwt-auth.refresh.srtategy.ts:61-78 | a run in which the query and the insertion are apart: one login, one token presented twice, two live refresh tokens |
| SessionFamilies.LogoutSparesIff | packages/users-backend/src/auth/auth.service.ts:77-90 | after a logout a token that no purge has forgotten passes if and only if it passed before and is under another session identifier |
| SessionFamilies.LogoutEndsIff | docs/auth-refresh-token.md:46 | a logout ends all that a login became by refreshes if and only if no refresh of it is under way and every other refresh token of it was spent or logged out before |
| SessionFamilies.LogoutEndsLoginIff | docs/auth-refresh-token.md:46 | with one-step refreshes: if and only if it presents the access token of the latest pair, or the latest refresh token was spent or logged out before |
| SessionFamilies.EndedStays | packages/users-backend/src/auth/auth.controller.ts:34-44 | what has ended never issues another pair, in any continuation in which no request passes stale |
| SessionFamilies.EndedIsRejected | packages/users-backend/src/jwt-auth/jwt-auth.refresh.srtategy.ts:45-78 | and none of its refresh tokens passes before a purge past the token's expiry |
| SessionFamilies.FamilyHasOneUser | packages/users-backend/src/auth/auth.controller.ts:34-44 | every token that a login becomes by refreshes is for the user who logged in |
| SessionFamilies.OldLogoutSparesNewPair | packages/users-backend/src/auth/auth.controller.ts:34-44 | a run: login, refresh, logout with the login's access token; the refreshed pair still passes |
| SessionFamilies.NewLogoutSparesOldAccess | packages/users-backend/src/auth/auth.controller.ts:34-44 | a run: login, refresh, logout with the refreshed access token; the login's access token still passes |
| Cluster.ClusterService.AddCluster | packages/common-backend/src/modules/cluster/cluster.service.ts:37-52 | a cluster is added empty, once |
| Cluster.EntryByKey | packages/common-backend/src/modules/cluster/cluster.service.ts:88-110 | key by key what the hook is handed: the explicit port if given and not zero, else the base port plus the increment; the id, the name or else the id, and the role, unless `extraEnv` sets them; every other key as in `extraEnv` |
| Cluster.ClusterService.RunWorker | packages/common-backend/src/modules/cluster/cluster.service.ts:71-146 | such an environment, rewritten by the hook, is appended to the cluster's map with the id and the delay; an unknown cluster is an error |
| Cluster.ClusterService.RunClusters | packages/common-backend/src/modules/cluster/cluster.service.ts:54-61 | requests a launch of every cluster, up to the await of its settings |
| Cluster.ClusterService.RunCluster | packages/common-backend/src/modules/cluster/cluster.service.ts:59-69 | once the settings requests have ended: forks one worker per settings entry, in order, or nothing if a request failed |
| Cluster.ClusterService.OnExit | packages/common-backend/src/modules/cluster/cluster.service.ts:112-139 | removes the worker; then nothing after SIGKILL, a start at once without a delay, a timer with one |
| Cluster.ClusterService.OnTimer | packages/common-backend/src/modules/cluster/cluster.service.ts:132-137 | a timer turns into a start under way |
| Cluster.ClusterService.FinishStart | packages/common-backend/src/modules/cluster/cluster.service.ts:172-186 | once the settings requests have ended: forks the first entry with that id, or fails, because there is none or a request failed, and leaves the map alone |
| Cluster.ClusterService.SetWorkerState | packages/common-backend/src/modules/cluster/cluster.service.ts:148-170 | starts, updates, stops or does nothing, by whether the worker is found through its WORKER variable |
| ClusterRuns.FindSettingsFirst | packages/common-backend/src/modules/cluster/cluster.service.ts:176-178 | a start takes the first settings with the id |
| ClusterRuns.FindWorkerFirst | packages/common-backend/src/modules/cluster/cluster.service.ts:154-156 | the lookup finds the first worker whose WORKER variable is the id, if there is one |
| ClusterRuns.OnlyAddAdds | packages/common-backend/src/modules/cluster/cluster.service.ts:37-52 | an event touches its own cluster only, and only adding creates one, empty and once |
| ClusterRuns.LaunchEnds | packages/common-backend/src/modules/cluster/cluster.service.ts:59-69 | an answer ends one launch and appends one worker per settings entry, in order, or none |
| ClusterRuns.ExitMoves | packages/common-backend/src/modules/cluster/cluster.service.ts:112-139 | an exit removes its worker and adds one start without a delay, one timer with a delay, or nothing after SIGKILL |
| ClusterRuns.StepTotal | packages/common-backend/src/modules/cluster/cluster.service.ts:71-186 | each event changes live plus delayed plus starting workers of an id by exactly what it launches, starts, kills or fails |
| ClusterRuns.Conservation | packages/common-backend/src/modules/cluster/cluster.service.ts:71-186 | for every run and worker id: live processes, armed timers and starts under way are launches plus explicit starts less SIGKILL exits less failed starts, all counted from the events of the run |
| ClusterRuns.MapIsForkedNotExited | packages/common-backend/src/modules/cluster/cluster.service.ts:106-113 | a cluster's map holds exactly its forked and not yet exited processes |
| ClusterPlans.FindWorkerFinds | packages/common-backend/src/modules/cluster/cluster.service.ts:154-156 | the lookup by variable finds a worker exactly when one runs under that id, if settings and hook do not redefine WORKER |
| ClusterPlans.StepSingleIff | packages/common-backend/src/modules/cluster/cluster.service.ts:59-186 | with each worker id claimed at most once by a live worker, a timer, a start or a launch under way: an event leaves one claimed twice if and only if it requests a launch over a claimed worker, or starts a worker that is claimed but not live |
| ClusterPlans.ExplicitStartIsSafeIff | packages/common-backend/src/modules/cluster/cluster.service.ts:148-160 | an explicit start keeps every worker single if and only if the worker is live, or no restart, start or launch of it is under way |
| ClusterPlans.SingleIff | packages/common-backend/src/modules/cluster/cluster.service.ts:59-186 | over every run under fixed settings with distinct workers, every id is claimed at most once at every point if and only if no event is such a request |
| ClusterPlans.ExplicitStartRunsTwice | packages/common-backend/src/modules/cluster/cluster.service.ts:148-160 | a run with an explicit start during a pending restart, after which the worker runs twice |
| ClusterPlans.StartDuringLaunchRunsTwice | packages/common-backend/src/modules/cluster/cluster.service.ts:59-69 | a run with an explicit start while a launch waits for its settings, after which the worker runs twice; no restart is involved |
| ClusterPlans.LiveWorkersAreDistinct | packages/common-backend/src/modules/cluster/cluster.service.ts:88-139 | in every state of a run without such requests no two live workers share an id in a cluster, or a PORT anywhere |
| ClusterPlans.StoppedWorkerIsDown | packages/common-backend/src/modules/cluster/cluster.service.ts:118-121 | in such a run, after SIGKILL the worker is neither live nor pending |
| ClusterPlans.StopIsEffectiveIff | packages/common-backend/src/modules/cluster/cluster.service.ts:148-170 | in every run: after a stop request and the exit it asks for, nothing of the worker is live or under way if and only if before it at most one was live and nothing was under way |
| ClusterPlans.StopDuringRestartIsIgnored | packages/common-backend/src/modules/cluster/cluster.service.ts:148-170 | a run with a stop request during a pending restart, after which the worker runs |
| ClusterPlans.DownStaysDown | packages/common-backend/src/modules/cluster/cluster.service.ts:112-186 | a worker that is down stays down, whatever else happens, until it is started or a launch of its cluster forks it |
| OrderedMap.SetOrder | packages/liquidity-monitor-backend/src/quotes-statistic/quotes-statistic.service.ts:61-64 | a key that is written again keeps its place, a new one goes last |
| QuotesStatistic.QuotesStatisticService.IncrementQuotesNumber | packages/liquidity-monitor-backend/src/quotes-statistic/quotes-statistic.service.ts:61-64 | adds to the provider's count in the buffer |
| QuotesStatistic.QuotesStatisticService.BeginSave | packages/liquidity-monitor-backend/src/quotes-statistic/quotes-statistic.service.ts:31-44 | hands one row per provider to the repository and empties the buffer, or does nothing when it is empty |
| QuotesStatistic.RowsSum | packages/liquidity-monitor-backend/src/quotes-statistic/quotes-statistic.service.ts:33-38 | the rows of a flush hold, per provider, what the buffer held |
| QuotesStatistic.QuotesConserved | packages/liquidity-monitor-backend/src/quotes-statistic/quotes-statistic.service.ts:31-64 | per provider and under every interleaving: saved, buffered, being saved and lost in failed saves add up to the increments |
| QuotesStatistic.SavedPlusBuffered | packages/liquidity-monitor-backend/src/quotes-statistic/quotes-statistic.service.ts:31-64 | with successful saves and none under way, table and buffer hold every increment |
| QuotesStatistic.FlushTakesAll | packages/liquidity-monitor-backend/src/quotes-statistic/quotes-statistic.service.ts:31-44 | a flush leaves the buffer empty and begins one save of what it held, unless it was empty |
| QuotesStatistic.SaveEnds | packages/liquidity-monitor-backend/src/quotes-statistic/quotes-statistic.service.ts:43 | a save that ends well puts its rows in the table, one that fails loses them, and other saves go on |
| UsersConnections.UsersConnectionsStatisticService.IncrementQuotesNumber | packages/liquidity-monitor-backend/src/users-connections-statistic/users-connections-statistic.service.ts:98-106 | adds to one of the user's two counts |
| UsersConnections.UsersConnectionsStatisticService.IncrementQuotesNumberByTarget | packages/liquidity-monitor-backend/src/users-connections-statistic/users-connections-statistic.service.ts:108-121 | adds to the count of an id under a target |
| UsersConnections.UsersConnectionsStatisticService.TakeUserStats | packages/liquidity-monitor-backend/src/users-connections-statistic/users-connections-statistic.service.ts:33-58 | the first half of the flush: up to two rows per user, zero counts skipped |
| UsersConnections.UsersConnectionsStatisticService.TakeTargetStats | packages/liquidity-monitor-backend/src/users-connections-statistic/users-connections-statistic.service.ts:61-79 | the second half: one row per target and id |
| UsersConnections.UsersConnectionsStatisticService.PushUserRows | packages/liquidity-monitor-backend/src/users-connections-statistic/users-connections-statistic.service.ts:35-53 | the rows of one user are appended |
| UsersConnections.UsersConnectionsStatisticService.PushTargetRows | packages/liquidity-monitor-backend/src/users-connections-statistic/users-connections-statistic.service.ts:64-71 | the rows of one target are appended in the order of its ids |
| UsersConnections.RowsOfUser | packages/liquidity-monitor-backend/src/users-connections-statistic/users-connections-statistic.service.ts:35-53 | one row for each server whose count is not zero, FIX first |
| UsersConnections.RowsOfTarget | packages/liquidity-monitor-backend/src/users-connections-statistic/users-connections-statistic.service.ts:64-71 | one row for each id, in order |
| UsersConnections.UserRowsSum | packages/liquidity-monitor-backend/src/users-connections-statistic/users-connections-statistic.service.ts:35-53 | skipping zero counts loses nothing |
| UsersConnections.TargetRowsSum | packages/liquidity-monitor-backend/src/users-connections-statistic/users-connections-statistic.service.ts:63-73 | the rows hold what the nested buffer held |
| UsersConnections.ConnectionsConserved | packages/liquidity-monitor-backend/src/users-connections-statistic/users-connections-statistic.service.ts:32-121 | per key of both buffers and under every interleaving with the two awaits of the flush: nothing is dropped or counted twice |
| UsersConnections.SavedPlusBuffered | packages/liquidity-monitor-backend/src/users-connections-statistic/users-connections-statistic.service.ts:32-121 | with successful saves and none under way, table and buffers hold every increment |
| UsersConnections.FlushTakes | packages/liquidity-monitor-backend/src/users-connections-statistic/users-connections-statistic.service.ts:32-80 | a flush takes the user counts at once, and the target counts too if there were no user counts |
| UsersConnections.SaveEnds | packages/liquidity-monitor-backend/src/users-connections-statistic/users-connections-statistic.service.ts:58-80 | the second half of a flush follows exactly when the save of its first half ended well |
| EventLogs.EventLogsService.MaskBody | packages/users-backend/src/event-logs/event-logs.service.ts:83-88 | exactly the named fields that are present in the body are set to the mask, inherited names counting as present |
| EventLogs.EventLogsService.Audit | packages/users-backend/src/event-logs/event-logs.service.ts:64-110 | nothing for a request already handled; otherwise one entry, and the request is marked |
| EventLogs.AuditKeepsEvent | packages/users-backend/src/event-logs/event-logs.service.ts:104-109 | an audit entry holds its type, then every field of the event; the rest is the request's |
| EventLogs.AuditNamesUser | packages/users-backend/src/event-logs/event-logs.service.ts:71-96 | the user's id and name, or null, and the role, or guest, unless the event says otherwise |
| EventLogs.AuditMasksBody | packages/users-backend/src/event-logs/event-logs.service.ts:76-96 | every hidden body field that is present holds the mask, every other one its value |
| EventLogs.AuditNamesRequest | packages/users-backend/src/event-logs/event-logs.service.ts:93-100 | method, address, entity and agent of the request, or null, unless the event says otherwise |
| EventLogs.OtherEntries | packages/users-backend/src/event-logs/event-logs.service.ts:104-134 | what entries without a request hold: the event and its type, and for system entries two defaults |
| EventLogs.EventLogsService.OperationalLog | packages/users-backend/src/event-logs/event-logs.service.ts:118-125 | appends one operational entry |
| EventLogs.EventLogsService.ApplicationLog | packages/users-backend/src/event-logs/event-logs.service.ts:127-134 | appends one application entry |
| EventLogs.EventLogsService.TakeLogs | packages/users-backend/src/event-logs/event-logs.service.ts:35-41 | the flush takes the whole store |
| EventLogs.AppendsItsEntry | packages/users-backend/src/event-logs/event-logs.service.ts:64-134 | in a run each event appends one entry of its own type, and a repeated audit none |
| EventLogs.LogsConserved | packages/users-backend/src/event-logs/event-logs.service.ts:35-134 | batches in flush order followed by the store are exactly what was appended, in order |
| EventLogs.FlushTakesAll | packages/users-backend/src/event-logs/event-logs.service.ts:35-41 | a flush leaves nothing in the store |
| EventLogs.OutcomeIff | packages/users-backend/src/event-logs/event-logs.service.ts:41-45 | over every run a batch is saved if and only if the first end of its save was good, and given up if and only if it was a failure |
| EventLogs.SavedThenStored | packages/users-backend/src/event-logs/event-logs.service.ts:35-134 | with every save successful, saved logs followed by the store are exactly what was appended |
| EventLogs.AuditedOnce | packages/users-backend/src/event-logs/event-logs.service.ts:64-110 | over every run a request is audited exactly once if it is audited at all |
| Timeline.UnitWidth | packages/liquidity-monitor-backend/src/quotes-statistic/quotes-statistic.service.ts:138-163 | the five widths and the four thresholds in microseconds |
| Timeline.FinestUnit | packages/liquidity-monitor-backend/src/quotes-statistic/quotes-statistic.service.ts:138-163 | up to 75 weeks the unit is the finest that shows the range in at most 75 units; beyond, the week |
| Timeline.TickCount | packages/liquidity-monitor-backend/src/quotes-statistic/quotes-statistic.service.ts:85-97 | whatever the alignment there are at most 76 buckets, and at least two when the unit is coarser than a second |
| Timeline.InvertedRange | packages/liquidity-monitor-backend/src/users-connections-statistic/users-connections-statistic.service.ts:142-154 | an inverted range is shown in seconds, and is empty exactly when its ends fall into different seconds |
| Timeline.BucketOf | packages/users-backend/src/event-logs/event-logs.service.ts:165-193 | a record in the range is in one bucket, whose bounds contain it, and in no other |
| Timeline.TimelineCell | packages/liquidity-monitor-backend/src/quotes-statistic/quotes-statistic.service.ts:79-123 | one cell per bucket and key, bucket by bucket: it ends one unit after its start, the buckets follow one another from the one the range starts in, and its count is the sum of exactly the records with that key, in the range, from its start up to its end |
| Timeline.OneCell | packages/liquidity-monitor-backend/src/quotes-statistic/quotes-statistic.service.ts:79-123 | no two cells have the same key and start |
| Timeline.TimelinePartition | packages/liquidity-monitor-backend/src/quotes-statistic/quotes-statistic.service.ts:79-123 | the cells add up to the sum over the range, for all records and keys, when both sides cut time alike |
| Timeline.MisalignedIsEmpty | packages/liquidity-monitor-backend/src/quotes-statistic/quotes-statistic.service.ts:85-110 | when the two week origins differ, no cell counts anything |
| Timeline.PartitionIff | packages/liquidity-monitor-backend/src/quotes-statistic/quotes-statistic.service.ts:79-123 | the cells add up for every table if and only if the unit is not the week or the week origins agree |
| Timeline.SundayWeeksAreEmpty | packages/liquidity-monitor-backend/src/quotes-statistic/quotes-statistic.service.ts:85-110 | weeks that begin on Sunday in the series and on Monday in the database give an all-zero timeline |
| Monitoring.RoundingGap | packages/liquidity-monitor-backend/src/provider-monitoring/provider-monitoring.service.ts:146-149 | the recorder's exact test and the notifier's rounded one differ exactly within half a second after the threshold |
| Notifications.Notifier.SendNotifications | packages/liquidity-monitor-backend/src/provider-monitoring/provider-monitoring.service.ts:180-248 | one round over the providers: the journal and the messages sent, nothing when disabled |
| Notifications.MessagesAreEpisodic | packages/liquidity-monitor-backend/src/provider-monitoring/provider-monitoring.service.ts:180-248 | over every run a provider's messages are closed episodes of one to five warnings and a recovery, then at most five warnings, on the backoff schedule |
| Notifications.CheckMessages | packages/liquidity-monitor-backend/src/provider-monitoring/provider-monitoring.service.ts:180-248 | what a check of a run sends about a provider, whatever it sends about others: exactly what is due by the provider's outstanding warnings, and nothing when disabled or not listed |
| Notifications.WarningIff | packages/liquidity-monitor-backend/src/provider-monitoring/provider-monitoring.service.ts:201-233 | an enabled check warns of a listed provider exactly when its data are at least half a second more than the threshold old, or absent, and its outstanding warnings are none, or one to four with the last at least 299, 599, 1799 or 3599 seconds ago |
| Notifications.RecoveryIff | packages/liquidity-monitor-backend/src/provider-monitoring/provider-monitoring.service.ts:234-247 | it announces a recovery exactly when the provider is healthy and its last message was a warning |
| Notifications.FiveInARowTakeTime | packages/liquidity-monitor-backend/src/provider-monitoring/provider-monitoring.service.ts:25-32 | over every run a provider never gets six warnings in a row, and the fifth in a row comes at least 6296 seconds after the first |
| ProblematicPeriods.PeriodRecorder.GetOpenProblematicPeriods | packages/liquidity-monitor-backend/src/provider-monitoring/provider-monitoring.service.ts:91-115 | for each listed provider, the open period the query finds, the last of several |
| ProblematicPeriods.PeriodRecorder.DecideChanges | packages/liquidity-monitor-backend/src/provider-monitoring/provider-monitoring.service.ts:143-168 | between the two awaits: one decision per provider, on the open periods as read |
| ProblematicPeriods.PeriodRecorder.SaveChanges | packages/liquidity-monitor-backend/src/provider-monitoring/provider-monitoring.service.ts:170-177 | all changes are applied to the table as it is by then |
| ProblematicPeriods.PeriodRecorder.UpdateProblematicPeriods | packages/liquidity-monitor-backend/src/provider-monitoring/provider-monitoring.service.ts:136-178 | a check that no other one overlaps |
| ProblematicPeriods.WrittenIsDecisions | packages/liquidity-monitor-backend/src/provider-monitoring/provider-monitoring.service.ts:136-178 | writing the decisions taken on one table to a later one |
| ProblematicPeriods.WrittenKeeps | packages/liquidity-monitor-backend/src/provider-monitoring/provider-monitoring.service.ts:136-178 | one check keeps the periods well-formed, ordered and disjoint, and opens or closes exactly as the providers' state asks |
| ProblematicPeriods.WrittenIsDated | packages/liquidity-monitor-backend/src/provider-monitoring/provider-monitoring.service.ts:108-178 | a check only closes open periods, at its own time, and adds open ones, each for one of its providers from when that one was decided; nothing else is rewritten |
| ProblematicPeriods.RunIsSound | packages/liquidity-monitor-backend/src/provider-monitoring/provider-monitoring.service.ts:91-178 | after every run of non-overlapping checks |
| ProblematicPeriods.PeriodsFollowChecks | packages/liquidity-monitor-backend/src/provider-monitoring/provider-monitoring.service.ts:91-178 | after every check a listed provider has an open period if and only if it was problematic; others are untouched; at most one is open; periods are ordered and disjoint |
| ConcurrentChecks.ReadThenWrite | packages/liquidity-monitor-backend/src/provider-monitoring/provider-monitoring.service.ts:91-178 | a check that nothing overlaps writes what `UpdateProblematicPeriods` writes |
| ConcurrentChecks.WriteDoublesIff | packages/liquidity-monitor-backend/src/provider-monitoring/provider-monitoring.service.ts:136-178 | on a table with at most one open period of a provider, a write leaves more than one if and only if its check saw the provider problematic, read no open period, and there is one by now |
| ConcurrentChecks.SingleIff | packages/liquidity-monitor-backend/src/provider-monitoring/provider-monitoring.service.ts:136-178 | over every run of overlapping checks a provider never has two open periods if and only if no check writes an opening after another one has |
| ConcurrentChecks.SerialIsSingle | packages/liquidity-monitor-backend/src/provider-monitoring/provider-monitoring.service.ts:136-178 | which holds when nothing is written between a check's read and its write |
| ConcurrentChecks.OverlappingChecksOpenTwice | packages/liquidity-monitor-backend/src/provider-monitoring/provider-monitoring.service.ts:136-178 | a run of two checks that both read before either writes, with two open periods |
| WebsocketClient.Client.Connect | packages/common-frontend/src/tools/WebsocketClient.ts:56-66 | a new connecting socket becomes the current one and its events are heard |
| WebsocketClient.Client.SendPayload | packages/common-frontend/src/tools/WebsocketClient.ts:154-161 | onto the current socket if it is open, and nowhere otherwise |
| WebsocketClient.Client.Send | packages/common-frontend/src/tools/WebsocketClient.ts:133-146 | queued unless the current socket is open |
| WebsocketClient.Client.FlushPendingPayloads | packages/common-frontend/src/tools/WebsocketClient.ts:148-152 | empties the queue in order |
| WebsocketClient.Client.Close | packages/common-frontend/src/tools/WebsocketClient.ts:115-125 | asks the current socket to close, unless there is none or it is closed |
| WebsocketClient.Client.OnOpen | packages/common-frontend/src/tools/WebsocketClient.ts:84-87 | the application's handler first, whatever it sends and closes, then the queue |
| WebsocketClient.Client.OnClose | packages/common-frontend/src/tools/WebsocketClient.ts:74-82 | detaches from the current socket, whichever socket closed |
| WebsocketClient.OpenedMeaning | packages/common-frontend/src/tools/WebsocketClient.ts:84-87 | an open event empties the queue: the handler's payloads and then the queue arrive if the current socket is open and left open; if the handler closes, only what it sent before; otherwise nothing; the rest is dropped |
| WebsocketClient.ClosedMeaning | packages/common-frontend/src/tools/WebsocketClient.ts:74-82 | a close event that is heard leaves no current socket and stops listening to the one there was; one that is not heard changes only its own socket |
| WebsocketClient.UnheardOpen | packages/common-frontend/src/tools/WebsocketClient.ts:74-87 | an open event that is not heard changes only its own socket |
| WebsocketClient.ClosingQueues | packages/common-frontend/src/tools/WebsocketClient.ts:133-146 | once the current socket closes, what is sent waits |
| WebsocketClient.EveryPayloadAccounted | packages/common-frontend/src/tools/WebsocketClient.ts:56-161 | in every run, however sockets overlap, each payload sent is delivered once, waiting or dropped |
| WebsocketClient.DropsIff | packages/common-frontend/src/tools/WebsocketClient.ts:84-161 | a step drops payloads if and only if an attached socket opens while the current one is not open and something waits or is sent, or its handler closes while something waits or is yet to be sent |
| WebsocketClient.NothingDroppedIff | packages/common-frontend/src/tools/WebsocketClient.ts:84-161 | over every run, however sockets overlap, nothing is dropped if and only if no event is such an opening |
| WebsocketClient.NothingDropped | packages/common-frontend/src/tools/WebsocketClient.ts:127-161 | when a reconnect only fires without a socket: delivered and waiting payloads are together those sent if and only if no open handler closes over a queue or before its own last payload |
| WebsocketClient.OpenKeepsOrderIff | packages/common-frontend/src/tools/WebsocketClient.ts:84-87 | an open event of the current socket keeps the order of what was sent if and only if the handler's payloads and the queue commute or, when the handler closes, nothing waits or is sent after that |
| WebsocketClient.DeliveredInOrderIff | packages/common-frontend/src/tools/WebsocketClient.ts:127-161 | over every run with one socket at a time, deliveries followed by the queue are exactly the calls of `send`, in order, if and only if every open event is of that kind |
| WebsocketClient.DeliveredInOrder | packages/common-frontend/src/tools/WebsocketClient.ts:127-161 | in particular with a handler that neither sends nor closes: nothing is lost and order is kept |
| WebsocketClient.HandlerOvertakesQueue | packages/common-frontend/src/tools/WebsocketClient.ts:84-87 | a run in which a handler that sends overtakes the queue |
| WebsocketClient.ClosingHandlerDrops | packages/common-frontend/src/tools/WebsocketClient.ts:84-87 | a run with one socket and no reconnect in which a handler that closes loses the queue |
| WebsocketClient.OverlappingReconnectDrops | packages/common-frontend/src/tools/WebsocketClient.ts:127-152 | a reconnect while a socket is still connecting can lose the queue |
| TableSearch.GetFiltersSearch | packages/common-frontend/src/components/Table/tableTools.ts:17-114 | fails exactly when some filter key belongs to no column and then names all such keys; otherwise one condition per column with a usable effective filter |
| TableSearch.Translate | packages/common-frontend/src/components/Table/tableTools.ts:53-104 | the switch over the operator yields the rewritten operator and value |
| TableSearch.RewriteMeaning | packages/common-frontend/src/components/Table/tableTools.ts:53-104 | what is sent accepts a cell exactly when the filter means it to, except that a null beside other values of a list is lost |
| TableSearch.RewriteKeepsMeaningIff | packages/common-frontend/src/components/Table/tableTools.ts:88-94 | a rewrite keeps the filter's meaning for every cell if and only if it is not a list with null beside other values |
| TableSearch.FiltersMeaning | packages/common-frontend/src/components/Table/tableTools.ts:17-114 | a row is found exactly when the cell of the filter field, or else of the column's own field, meets every effective usable filter by the filter operator, or else the column's; user value over base value; and no list loses it to a null |
| TableSearch.FiltersOverrideBase | packages/common-frontend/src/components/Table/tableTools.ts:13-34 | the result is that of the base filters overridden by exactly the values the user set; null, empty and absent values override nothing |
| TableSearch.SetFilterIsIgnoredIff | packages/common-frontend/src/components/Table/tableTools.ts:37-51 | a value the user set sends nothing, whatever the base filter, if and only if the column is numeric and the value is a text that is no number, a range with such a bound, a list of several values that is no range, or a list of one boolean or such text, or the column is for uuids and the value is no uuid text |
| TableSearch.TwoNumbersAreIgnored | packages/common-frontend/src/components/Table/tableTools.ts:37-51 | a list filter with two numbers on a numeric column sends nothing |
| TableSearch.SentValuesAreChecked | packages/common-frontend/src/components/Table/tableTools.ts:37-51 | a numeric column sends only finite numbers, bound by bound for a range, and a uuid column only uuids |
| TableSearch.NullInListIsLost | packages/common-frontend/src/components/Table/tableTools.ts:88-94 | the filter "null or a" does not find rows with null |
| TableSearch.SplitMeaning | packages/common-frontend/src/components/Table/tableTools.ts:141 | the words joined by spaces give the keyword back, and no word contains a space |
| TableSearch.ApplyKeywordToSearch | packages/common-frontend/src/components/Table/tableTools.ts:130-174 | an absent or empty keyword changes nothing; otherwise one disjunction per word is appended, or an error if the search is no conjunction |
| TableSearch.WordMeaning | packages/common-frontend/src/components/Table/tableTools.ts:142-162 | the disjunction of a word holds exactly when the word itself, compared by the column's operator, matches the cell of the search field, or else of the column's own field, of some column that shows, is not excluded and may hold the word |
| TableSearch.SearchMeaning | packages/common-frontend/src/components/Table/tableTools.ts:17-174 | filters and keyword together: all usable filters are met, no row is lost to a null, and every word is in a visible column that accepts it |
| TableQuery.GetTableDataSearch | packages/common-frontend/src/components/Table/getTableDataQueryParams.ts:54-63 | the search is refused for unknown filter keys and when the search columns or the column state are absent, and for nothing else; search form values override table filters |
| TableQuery.SearchFinds | packages/common-frontend/src/components/Table/getTableDataQueryParams.ts:54-63 | which rows a request finds, with and without a keyword |
| TableQuery.SearchFollowsColumnsSet | packages/common-frontend/src/components/Table/getTableDataQueryParams.ts:62 | under a chosen column set a searchable column is looked at exactly when something in its subtree is shown, it is not excluded and it accepts the word |
| ColumnsSets.GetColumnsStates | packages/common-frontend/src/components/Table/useColumnsSets.tsx:30-56 | the shared state gains exactly the hidden indices, each as not shown; the flag says whether a top-level column is visible |
| ColumnsSets.VisitColumn | packages/common-frontend/src/components/Table/useColumnsSets.tsx:36-53 | the same for one column of the loop |
| ColumnsSets.HiddenMeaning | packages/common-frontend/src/components/Table/useColumnsSets.tsx:47-53 | an index is recorded exactly when a column with it is not visible |
| ColumnsSets.HiddenIffNothingShown | packages/common-frontend/src/components/Table/useColumnsSets.tsx:30-56 | for distinct non-empty indices at any depth: a column is recorded exactly when nothing in its subtree is shown |
| ColumnsSets.FlagIffAnythingShown | packages/common-frontend/src/components/Table/useColumnsSets.tsx:35-56 | then the flag is true exactly when something anywhere is shown |
| ColumnsSets.VisibleMeansSubtreeShownIff | packages/common-frontend/src/components/Table/useColumnsSets.tsx:37-53 | visibility means "something in the subtree is shown" for every choice if and only if every index is reached through indexed columns |
| ColumnsSets.UnindexedGroupHidesAncestor | packages/common-frontend/src/components/Table/useColumnsSets.tsx:37-53 | a shown column below a group without an index does not keep the group's parent visible |
| NumberTools.DropIsTrim | packages/common-frontend/src/tools/numberTools.ts:1-6 | on a decimal numeral the result is the numeral with trailing fractional zeroes and then a dangling dot removed |
| NumberTools.DropKeepsValue | packages/common-frontend/src/tools/numberTools.ts:1-6 | on a numeral without exponent the value is kept and the result is the shortest form with the same sign and whole digits |
| NumberTools.ExponentKeepsValueIff | packages/common-frontend/src/tools/numberTools.ts:1-6 | on a numeral with an exponent the exponent loses its trailing zeroes, so the result is a numeral of the same value if and only if it has none, or the mantissa is zero and the exponent is not |
| NumberTools.ExponentLosesZero | packages/common-frontend/src/tools/numberTools.ts:1-6 | "1.5e+30" becomes "1.5e+3" |
| NumberTools.DropIsIdempotent | packages/common-frontend/src/tools/numberTools.ts:1-6 | a second pass changes nothing |
| NumberTools.DropIsCanonical | packages/common-frontend/src/tools/numberTools.ts:1-6 | for equal sign and whole digits, results coincide exactly when values do |
| NumberTools.UndottedIsUnchanged | packages/common-frontend/src/tools/numberTools.ts:1-6 | a string without a dot, or none at all, is returned as it is |
| NumberTools.SecondPassIff | packages/common-frontend/src/tools/numberTools.ts:1-6 | on any string a second pass changes the result if and only if that still has a dot and ends in a zero or a dot |
| NumberTools.SecondPassInputIff | packages/common-frontend/src/tools/numberTools.ts:1-6 | the same in terms of the string: a dot with only zeroes behind it and, before it, a dot and finally a zero or a dot |
| NumberTools.TwoDotsTakeTwoPasses | packages/common-frontend/src/tools/numberTools.ts:1-6 | a string with two dots for which one pass is not enough |
| WsAuth.WsAuthService.AddClient | packages/users-backend/src/ws-auth/ws-auth.service.ts:84-94 | adds a client once and listens to its pongs |
| WsAuth.WsAuthService.OnPong | packages/users-backend/src/ws-auth/ws-auth.service.ts:91-93 | a pong ends the waiting |
| WsAuth.WsAuthService.HandleDisconnect | packages/users-backend/src/ws-auth/ws-auth.service.ts:69-71 | removes the client from the broadcast and leaves the waiting as it is |
| WsAuth.WsAuthService.CheckClients | packages/users-backend/src/ws-auth/ws-auth.service.ts:96-107 | terminates and removes exactly the awaited clients, pings exactly the others and awaits them |
| WsAuth.WsAuthService.Broadcast | packages/users-backend/src/ws-auth/ws-auth.service.ts:73-82 | sends to every client exactly once |
| WsAuth.ConnectedIff | packages/users-backend/src/ws-auth/ws-auth.service.ts:69-107 | over every run a client gets broadcasts if and only if it has been added and has since neither disconnected nor been terminated by a check |
| WsAuth.AwaitedIffUnanswered | packages/users-backend/src/ws-auth/ws-auth.service.ts:84-107 | over every run the awaited clients are exactly those with a ping and no pong since |
| WsAuth.TerminatedIff | packages/users-backend/src/ws-auth/ws-auth.service.ts:96-107 | a check terminates a client if and only if it is connected, an earlier check pinged it and no pong arrived since |
| WsAuth.AnsweringClientIsNeverTerminated | packages/users-backend/src/ws-auth/ws-auth.service.ts:84-107 | a client that answers each ping before the next check is never terminated |
| WsAuth.SilentClientIsDropped | packages/users-backend/src/ws-auth/ws-auth.service.ts:69-107 | a client silent from some point on gets no broadcast after the second check from there, even if it was added after its disconnect |
| WsAuth.OneCheckIsNotEnough | packages/users-backend/src/ws-auth/ws-auth.service.ts:84-107 | one check does not suffice for such a client |

## Left out

- Extraction of tokens from headers and cookies, `setCookie`, `clearCookies`, password hashing and the social login strategies: calls into libraries, with no state of their own.
- The event in which the hourly purge fails and is only logged: the table is unchanged then, as between two purges.
- The worker hooks `onWorkerExit`, `onWorkerListening` and `onClusterMessage`, and the `listening` event: they do not change the maps. A hook that throws is not modelled; `onWorkerRun` may rewrite the variables in any way.
- How a signal ends a process: a kill request is returned, and the exit that follows is an event of its own.
- Daily and weekly deletion of old statistics and logs, and the default start of a timeline read from the oldest record.
- Timeline.TimelinePartition: units of fixed length in UTC only; time zones with daylight saving, labels made by `to_char`, casts of sums to 32-bit integers and the order of result rows are not modelled. Keys are parameters, since the three queries take them from different tables.
- Telegram delivery: a message counts as sent when it is handed over.
- The Postgres text of a closed period, which holds a stray quote: the model stores the two instants.
- Server status messages, invalid JSON and error events of the websocket client: they only ask the socket to close, as `close` does; outside the open handler that is the event `StartClosing`.
- WebsocketClient.OpenedMeaning: the open handler is taken to return; were it to throw, the queue would stay until the next open event.
- SessionFamilies.LogoutEndsIff: descent is by refreshes; a pair that the token endpoint issues for an access token counts as a login of its own.
- TableSearch.FiltersMeaning: the backend's comparisons are parameters, save for null, lists, ranges and bounds, whose SQL meaning is written out; an undefined operand is taken to restrict nothing, an empty disjunction to hold for no row, and of a range only the first two bounds to be read. Which strings are finite numbers, and which are uuids, are parameters as well; numbers are taken to be finite.
- EventLogs.EventLogsService.MaskBody: body values other than strings are opaque.
- TableSearch.GetFiltersSearch: the order in which the error names unknown keys is not modelled, and neither are property names that every object inherits.
- `buildFieldsFromColumns`, `collectFieldsFromColumns`, `buildJoinFields` and `withNumericId`: collections of names without an invariant of their own.
- `checkParentVisibility` and the choice among column sets: component state.
- WsAuth.WsAuthService.AddClient: authentication happens before it and is not modelled; a connection that fails it is closed and never becomes a client.
- NestJS wiring, controllers, CRUD base services, policies, settings, imports from spreadsheets, the generated API clients and React components.
