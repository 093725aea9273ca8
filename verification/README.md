# Gateway verification

A Dafny model of the gateway's stateful core, with proofs about every run of it. The gateway
lets many users reach many upstream MCP servers through one endpoint. Its hard parts are
protocols over shared tables, text formats that must survive a round trip, and merges whose
result must not depend on the order in which goroutines finish.

Each module follows one component:

| module | component |
|---|---|
| `Sse` | parser and printer of Server-Sent Events (sections 9.2.5 and 9.2.6 of the WHATWG HTML Living Standard) |
| `SseWire` | what the parser reads from text that somebody else wrote |
| `Correlation` | requests and responses over one unordered stream, shared by the STDIO process and the SSE client |
| `GatewaySession`, `SessionManagement` | a session's identity and tables; the table in memory, the rows in the database, and the handlers that drive both |
| `SessionRaces` | the same below the level of whole requests: split look-ups and deletions, and checked requests that are still to be routed |
| `Authorization` | first-match policies, and the cache of policy lists |
| `Initialization`, `Proxy` | one goroutine per target merging capabilities and tools; names, routing and dispatch |
| `Hub` | broadcast of messages to WebSocket clients over bounded channels |
| `Aggregator` | statistics over a rolling window, from a log pruned in place |
| `Pool`, `SubjectKey` | the pool of STDIO processes and the keys under which callers share one |
| `EnvConfig` | layered merge of environment entries, and legacy token lookup |
| `CrName`, `Reconciler` | names of custom resources, and the operator that drives one to a Pod and a Service |
| `ComputedKeys` | the computed subject keys as those names and the labels of the Pods see them |
| `Wrappers`, `Text`, `Iteration` | `Option` and `Result`; joining, splitting and printing numbers; range loops over maps and sets in arbitrary order |

An object that the source updates in place is a class. Its methods have the source's branches
and loops, and each is proved equal to a function on values. The properties are then proved
about those functions, over all inputs or over all runs, in terms of the source's own words,
fields and limits. What one step of a run is differs:

- In `Correlation`, `Authorization` (loads and changes) and `Initialization` a step is one lock-protected region, one statement to the database, or one channel operation.
- In `Hub` a step is one round of the loop, so a broadcast is one step over many channel operations. `Hub.BroadcastIsOneStep` proves that the clients' reads in between make no difference to that.
- In `SessionManagement` a step is one whole request, cleanup or recycling. `SessionRaces` takes apart what matters there: a look-up that misses reads the row in one step and stores it in another, a deletion clears memory and row in two, and a request looks up, checks and is routed in three.
- In `Pool`, `Aggregator` and `Reconciler` a step is one call, collection, snapshot or reconcile.

A range loop over a Go map takes the keys in an arbitrary order, and its result is proved not
to depend on that order.

`dafny verify dfyconfig.toml` checks everything.

## Where a promise fails, and exactly when it holds

- An event with an LF in its name or identifier, or with a CR at the end of a line, does not survive the wire. `Sse.EventRoundTrip` and `Sse.StreamRoundTrip` give the exact condition.
- A forwarded request keeps the client's ID, which may equal one in flight (`Correlation.ForwardedIdClash`). Every such clash opens a run that loses a response (`Correlation.ClashLosesResponse`); without clashes none is lost (`Correlation.Delivery`).
- A token that repeats a group can hide the loss of another group from the identity check (`GatewaySession.RepetitionsHideLoss`).
- The website's session page says identity is compared on every request, but `initialize` on a live session does not compare it, and neither do `GET` and `DELETE` (backend/internal/gateway/handler.go:296-304 and 383-392). `SessionManagement.StaleIdentityReused` is a run in which a former administrator keeps an administrator's session; `SessionManagement.InitializeIdentity` says exactly when the session's identity passes for the token's.
- Deleting a session whose row cannot be deleted does not kill it unless the row has expired (`SessionManagement.DeletionKills`). Nor does a deletion, or even its expiry, while a look-up holds a copy of the row: that look-up returns the session, and an unexpired copy comes back for good (`SessionRaces.DeletedSessionReturns`). `SessionRaces.ReturnsAgainExactly`, `SessionRaces.ExpiryIsFinal` and `SessionRaces.DeletionIsFinal` are exact.
- A request that has passed the identity check runs under another role when a second request recycles the same session object first, even one that has been deleted meanwhile (`SessionRaces.RoutedUnderAnotherRole`); `SessionRaces.StepKeepsPassing` names exactly the steps that do this.
- The query leaves the order of equal priorities open. The verdict is well defined exactly when the top matches agree (`Authorization.OrderIrrelevant`).
- No code calls the cache invalidations, so policy changes do not reach cached lists. `Authorization.StepKeepsCurrent` says exactly which changes are harmless, and two races are lost even by full invalidations: `Authorization.LateStoreUndoesInvalidation` brings an old list back, and `Authorization.TornLoad` caches a list that allows what no state of the policies ever allowed.
- When two targets list tools that meet under one display name, the routing table depends on which goroutine merges last, and calls go astray: exactly then (`Proxy.TablesAgreeExactly`, `Proxy.ListedCallsArrive`). `Proxy.SchedulesDisagree` is an example; target names without `_` rule it out (`Proxy.NoDelimiterIsPrefixFree`, `Proxy.PrefixFreeNeverClashes`).
- A comma inside a group name merges isolation classes (`SubjectKey.CommaInNameMergesClasses`, `SubjectKey.UnmistakableExactly`).
- The website's credential page puts groups before the role for both kinds of credential. Legacy tokens ask the role first; `EnvConfig.DocumentedOrderExact` says when that shows.
- A target whose name's first letter or digit is a digit gives its custom resources names that are no labels of RFC 1035, which Kubernetes asks of a Service's name (`CrName.Rfc1035Exactly`, `CrName.DigitFirst`).
- The cut at 63 characters can lose what tells two subject keys, or two targets, apart, and then their callers share one Pod (`CrName.TargetsCollideExactly`, `ComputedKeys.ResourcesShared`). When a target's name is clean and has 57 to 63 characters, all users of a per-user target share it (`ComputedKeys.LongNamesMergeUsers`), and so do those of two targets whose names are the same when cleaned (`ComputedKeys.LookalikeTargetsMerge`). Target names may have 100 characters, but from 64 on the name is no label value, and the resource is refused.
- A target's name becomes a label without being cleaned, so a name with a space makes the API refuse every Pod (`Reconciler.SpaceIsIllegal`); `Reconciler.LabelsLegalExactly` says which names and keys are accepted.
- An edit of an instance's target, subject key or port can leave its Service pointing past its Pod; no other edit can (`Reconciler.EditsSafeExactly`). An instance re-created before its former Pod is gone adopts that Pod (`Reconciler.LeftoversAdopted`).
- With a limit under a second, a second reconcile may delete what the first has just reported ready (`Reconciler.ReadyThenRemoved`; `Reconciler.RepeatedReconcile` is exact).

## Model

| member | source | states |
|---|---|---|
| Sse.SseReader.ReadEvent | backend/internal/mcp/transport.go:36-92 | the line loop returns and consumes what the recursive reader does; what that is for every input, the members of `SseWire` say |
| Sse.SseWriter.WriteEvent | backend/internal/mcp/transport.go:195-228 | appends exactly the printed event; a failed write leaves a prefix of it and is reported |
| Sse.ScanPrinted | backend/internal/mcp/transport.go:209-213 | the reader's number scanner recovers every positive 64-bit retry the printer writes |
| Sse.ReadsField | backend/internal/mcp/transport.go:64-90 | a printed field line sets that field, less one CR at its end, whatever follows on the wire |
| Sse.ReadPrinted | backend/internal/mcp/transport.go:36-92 | any event without LF in name and identifier arrives with one CR trimmed from each line, consuming exactly its own text, whatever follows |
| Sse.NoLineFeedInFields | backend/internal/mcp/transport.go:46-90 | on any input at all, no event read has an LF in its name or identifier |
| Sse.ReceivedIsNormal | backend/internal/mcp/transport.go:46-90 | what arrives equals what was sent, up to a non-positive retry, exactly when the event is clean |
| Sse.EventRoundTrip | backend/internal/mcp/transport.go:195-228 | printing then reading gives the event back if and only if it is clean, and then consumes nothing else |
| Sse.StreamRoundTrip | backend/internal/mcp/transport.go:195-228 | every sequence of events reads back as itself if and only if each event is clean, followed by the end of the stream |
| SseWire.LineApplies | backend/internal/mcp/transport.go:64-90 | a field sets its value whether or not a space follows the colon, of two spaces only one is dropped, a line without a colon sets the empty value, a comment changes nothing |
| SseWire.LinesRead | backend/internal/mcp/transport.go:50-90 | such lines, each ended with or without CR and in any number, leave just what they say in the event, whatever follows |
| SseWire.BlockReads | backend/internal/mcp/transport.go:50-62 | a blank line hands out the event if it has data or a name, the data being all its values joined by LF, the others the last value of each field; else reading goes on with what was set |
| SseWire.EndReached | backend/internal/mcp/transport.go:39-49 | at a clean end pending data is handed out with its last LF, a name alone is not; at a read error nothing is; an unfinished line is lost |
| SseWire.ForeignStream | backend/internal/mcp/transport.go:36-92 | a whole stream of fields, comments and blank lines, however written, reads as exactly the events it tells |
| SseWire.EveryInputIsStream | backend/internal/mcp/transport.go:36-92 | every input is such a stream, so the last theorem leaves none out |
| SseWire.NumberScanned | backend/internal/mcp/transport.go:83-88 | a retry value gives the number it starts with after white space, with its sign, whatever follows |
| SseWire.NoNumber | backend/internal/mcp/transport.go:83-88 | a value with neither digit nor sign there leaves the retry time as it was |
| Correlation.Process.AllocId | backend/internal/stdio/process.go:147-151 | the wrapping counter gives the decimal of the k-th 64-bit value at the k-th call |
| Correlation.Process.Register | backend/internal/stdio/process.go:163-167 | a fresh empty channel replaces whatever the ID was registered with |
| Correlation.Process.Unregister | backend/internal/stdio/process.go:168-172 | the ID is gone, whichever call's channel it held |
| Correlation.Process.ReadLoop | backend/internal/stdio/process.go:98-133 | to the end of the stream, whatever blank, malformed and ID-less lines lie between: an ID registered before is gone if and only if some response bears it, its channel then holds exactly the first that does, and every other entry and channel stays as it was |
| Correlation.AllocatedIdsClash | backend/internal/stdio/process.go:147-151 | two allocations give one ID if and only if they are a multiple of 2^64 apart |
| Correlation.RouteAllServes | backend/internal/stdio/process.go:98-133 | that statement by positions in the lines, for every table in which no registered channel is full or shared |
| Correlation.RouteAllKeepsOthers | backend/internal/stdio/process.go:98-133 | reading registers nothing, and leaves alone the channels of no registered ID |
| Correlation.RouteKeepsReady | backend/internal/stdio/process.go:119-131 | routing one response leaves every registered channel free and registered once |
| Correlation.StepKeepsInv | backend/internal/stdio/process.go:119-190 | every step by reader or caller, with duplicate IDs or not, keeps each registered channel unused and owned by a call in flight, so the reader's send never blocks |
| Correlation.Safety | backend/internal/stdio/process.go:98-190 | in every state of every run the reader is not stuck, nothing stays registered when no call is in flight, and an answered call got the only response ever sent to it, bearing its own ID |
| Correlation.FailedWriteReturns | backend/internal/stdio/process.go:174-179 | a call whose request cannot be written returns that error and leaves no entry under its ID |
| Correlation.AllocatedCallsClash | backend/internal/mcp/client.go:100-107 | in every run two calls with allocated IDs clash if and only if their allocations are a multiple of 2^64 apart |
| Correlation.StepKeepsTidy | backend/internal/stdio/process.go:154-190 | a step that registers no ID in use keeps IDs in flight distinct and every unanswered call reachable under its ID |
| Correlation.Delivery | backend/internal/mcp/client.go:337-353 | in a run without clashes a response goes to the one unanswered call that sent its ID and changes no other; a late or unknown one changes nothing |
| Correlation.AllocatedIdsNeverClash | backend/internal/mcp/client.go:100-107 | a run without forwarded requests and with at most 2^64 allocations has no clash |
| Correlation.AllocatedDelivery | backend/internal/stdio/process.go:119-190 | in such a run every response reaches the one unanswered call that sent its ID |
| Correlation.ClashLosesResponse | backend/internal/stdio/process.go:163-172 | from every state, registering an ID in use can be continued to a state in which an unanswered call is unreachable |
| Correlation.ForwardedIdClash | backend/internal/gateway/proxy.go:553-564 | a run in which a forwarded ID equals an allocated one in flight |
| GatewaySession.Session.CheckIdentity | backend/internal/gateway/session.go:427-459 | the set built in a loop decides: roles differ, lengths differ, or some token group is not stored |
| GatewaySession.Session.Recycle | backend/internal/gateway/session.go:395-424 | all clients and mapping tables are emptied, the identity replaced, and exactly the HTTP clients closed |
| GatewaySession.Pigeonhole | backend/internal/gateway/session.go:441-457 | as many distinct token groups as stored ones, all of them stored, are the stored ones with their multiplicities |
| GatewaySession.RecycleExact | backend/internal/gateway/session.go:427-459 | for a token without repeated groups: no recycle if and only if the roles and the multisets of groups agree |
| GatewaySession.PermutationNeverRecycles | backend/internal/gateway/session.go:427-459 | reordering groups never triggers a recycle, repeated or not |
| GatewaySession.RepetitionsHideLoss | backend/internal/gateway/session.go:441-457 | passing the check means equal sets of groups for every stored list if and only if the token repeats none |
| SessionManagement.SessionManager.CreateSession | backend/internal/gateway/session.go:82-125 | memory and row get the same identity and expiry, or, when the insert fails, nothing changes |
| SessionManagement.SessionManager.GetCached | backend/internal/gateway/session.go:128-151 | an expired session is deleted and not found, a live one expires one timeout from now |
| SessionManagement.SessionManager.LoadSession | backend/internal/gateway/session.go:153-190 | a miss reloads an unexpired row with its stored expiry and the user's current identity, or the default one when the user cannot be read |
| SessionManagement.SessionManager.GetSession | backend/internal/gateway/session.go:128-190 | the look-up's effect on both tables and the session object returned, for every fate of the database |
| SessionManagement.SessionManager.DeleteSession | backend/internal/gateway/session.go:193-212 | memory is cleared in any case, the row when the database allows, and the session's HTTP clients are closed |
| SessionManagement.SessionManager.EvictExpired | backend/internal/gateway/session.go:358-380 | the loop over the map in arbitrary order leaves exactly the unexpired sessions and closes exactly the HTTP clients of the others |
| SessionManagement.SessionManager.CleanupExpired | backend/internal/gateway/session.go:358-391 | exactly the expired sessions leave memory, with their HTTP clients closed, and exactly the expired rows when the database allows |
| SessionManagement.SessionManager.RecycleUserSessions | backend/internal/gateway/session.go:462-489 | recycles all and only the user's sessions to the stored identity, and returns their number |
| SessionManagement.RecycleAnyOrder | backend/internal/gateway/session.go:474-486 | the recycling loop's result and count do not depend on the order of the map |
| SessionManagement.EvictAnyOrder | backend/internal/gateway/session.go:361-380 | the eviction loop's result does not depend on the order of the map |
| SessionManagement.Handler.HandlePost | backend/internal/gateway/handler.go:128-168 | a request on a session: absent, foreign, recycled and refused, accepted, or routed with the session's contents |
| SessionManagement.Handler.HandleInitialize | backend/internal/gateway/handler.go:188-231 | reuses the caller's own live session, else creates one from the token |
| SessionManagement.Handler.HandleDelete | backend/internal/gateway/handler.go:365-409 | deletes only the caller's own session and reports a failed deletion |
| SessionManagement.StepKeepsInv | backend/internal/gateway/session.go:82-391 | every operation of the manager, the handlers, the clock and the database keeps each row's expiry at or before its session's |
| SessionManagement.DeadStaysDead | backend/internal/gateway/session.go:128-190 | in any run of whole operations a session that is in no table, or only in an expired row, is never returned again, whatever the database does |
| SessionManagement.EvictionKills | backend/internal/gateway/session.go:133-146 | a session evicted as expired, by look-up or cleanup, is dead even if its row could not be deleted |
| SessionManagement.DeletionKills | backend/internal/gateway/handler.go:381-405 | a deleted session is dead if and only if its row was deleted, absent or expired |
| SessionManagement.OnlyExpiryEvicts | backend/internal/gateway/session.go:128-151 | short of deletion or restart no step of any user ends an unexpired session, and each use renews it in full |
| SessionManagement.StepKeepsOwner | backend/internal/gateway/session.go:82-190 | no step of any user, no restart, reload or clean-up moves a session to another owner |
| SessionManagement.OnlyOwnerPasses | backend/internal/gateway/handler.go:128-142 | a request, a deletion and a reuse get past the ownership check if and only if the session is found and its owner asks |
| SessionManagement.RestartKeepsOwner | backend/internal/gateway/session.go:153-190 | after a restart an unexpired row answers its owner, and refuses everybody else |
| SessionManagement.StepKeepsBirth | backend/internal/gateway/session.go:82-190 | no step moves a session's time of creation or its row's expiry, which stays one timeout after it |
| SessionManagement.CreatedNow | backend/internal/gateway/session.go:82-125 | that time is the moment in which the ID was handed out |
| SessionManagement.ReloadedExactly | backend/internal/gateway/session.go:153-190 | a session that is only in the database comes back if and only if one timeout from its creation has not passed, and then with just the rest of it |
| SessionManagement.ForgetsExpired | backend/internal/gateway/session.go:133-172 | a look-up that meets an expired session removes it from memory, its row when the database allows, and nothing else |
| SessionManagement.CleansExactly | backend/internal/gateway/session.go:358-391 | a clean-up takes a session, and a row when the database allows, if and only if it has expired |
| SessionManagement.RepliesExactly | backend/internal/gateway/handler.go:128-168 | which of the five answers a request gets, by the stored owner, role, groups and expiry and by the token |
| SessionManagement.DeletesExactly | backend/internal/gateway/handler.go:365-409 | which of the four answers a deletion gets, and what it leaves in both tables |
| SessionManagement.RoutedRequest | backend/internal/gateway/handler.go:128-163 | in any state, a request taken as one step reaches the proxy only in an unexpired session of the caller with the token's role and, unless the token repeats a group, the token's groups |
| SessionManagement.RecycleSettles | backend/internal/gateway/handler.go:144-158 | a refused stale request leaves empty tables and the token's identity, so the same token then passes |
| SessionManagement.InitializeIdentity | backend/internal/gateway/handler.go:196-231 | a reused session is the caller's own and keeps the identity stored in memory, else the user's current one, else the default; the result passes for the token's identity if and only if no session is reused or that stored one passes |
| SessionManagement.StaleIdentityReused | backend/internal/gateway/handler.go:205-213 | a run in which `initialize` returns a session with a role the token no longer has |
| SessionRaces.StepKeepsGood | backend/internal/gateway/session.go:128-212 | every step, split or whole, keeps copies of a row expiring with the row and no later than the session in memory, and held objects either the table's own or ones that left it |
| SessionRaces.RunKeepsGood | backend/internal/gateway/session.go:128-212 | so does every run |
| SessionRaces.ReturnsAgainExactly | backend/internal/gateway/session.go:128-190 | from every reachable state, some continuation has a look-up return an id handed out before if and only if a table holds it unexpired or a copy of its row, expired or not, is on its way; a look-up started later, if and only if a table holds it unexpired or an unexpired copy is on its way |
| SessionRaces.ExpiryIsFinal | backend/internal/gateway/session.go:133-190 | a session expired in memory is never returned by a look-up started later, and by none at all if and only if no copy of its row is on its way |
| SessionRaces.DeletionIsFinal | backend/internal/gateway/session.go:153-212 | a deleted session is never returned again if and only if its row was deleted, absent or expired and no copy of it is on its way; for look-ups started later only an unexpired copy counts |
| SessionRaces.OwnerNeverChanges | backend/internal/gateway/session.go:82-190 | in every run with restarts, clean-ups, reloads and split look-ups, the row, the session in memory, copies on their way and every object a request holds name the user to whom the ID was handed out |
| SessionRaces.DeletedSessionReturns | backend/internal/gateway/session.go:153-190 | for every session that is only in the database: a look-up reads its row, the owner deletes it from both tables, the look-up stores its copy, and the next look-up returns it |
| SessionRaces.RestartLeavesRows | backend/internal/gateway/session.go:153-190 | a restart leads to such a session |
| SessionRaces.StepKeepsPassing | backend/internal/gateway/handler.go:128-163 | a request past the identity check stops passing it if and only if the step, a request or a recycling of the user's sessions or the check of another request that holds the same object, in the table or not, recycles that object to an identity that does not pass for its token |
| SessionRaces.RoutedUnderOwnIdentity | backend/internal/gateway/handler.go:144-163 | in every run without such a step the request is routed under an identity that passes for its token |
| SessionRaces.RoutedUnderAnotherRole | backend/internal/gateway/handler.go:128-163 | a run in which a request with a user's token is about to be routed as an administrator, on an object that a deletion had taken out of the table |
| Authorization.Authorizer.MatchesAnySubject | backend/internal/gateway/authorizer.go:149-173 | the nested loops decide whether some subject of the policy names the caller or everyone |
| Authorization.Authorizer.Decide | backend/internal/gateway/authorizer.go:60-116 | the scan returns the verdict and name of the first match in list order, else deny |
| Authorization.Authorizer.LoadPolicies | backend/internal/gateway/authorizer.go:120-146 | a cached list wins over the database, a fresh answer is stored under the target's key, an error stores nothing |
| Authorization.Authorizer.CanAccess | backend/internal/gateway/authorizer.go:38-117 | the decision over the cached or queried list, and the cache afterwards |
| Authorization.Authorizer.InvalidateCache | backend/internal/gateway/authorizer.go:176-180 | nothing stays cached |
| Authorization.Authorizer.InvalidateCacheForTarget | backend/internal/gateway/authorizer.go:183-192 | the target's list and the global one go, every other stays |
| Authorization.FirstMatchIsTop | backend/internal/gateway/authorizer.go:60-116 | on a list sorted by priority the first match is a match of the highest priority, and exists whenever any policy matches |
| Authorization.DecisionRule | backend/internal/gateway/authorizer.go:53-116 | if top matches agree: access if and only if some highest-priority match allows |
| Authorization.VerdictByFields | backend/internal/gateway/authorizer.go:53-116 | access if and only if the first policy that applies says allow, that policy is named, and nothing applies means deny; to apply, some subject is everyone or equals the caller's ID, role or one of the groups, the type is the resource's or all, and the pattern is absent, empty, not asked or found in the name |
| Authorization.SubjectsDecide | backend/internal/gateway/authorizer.go:149-173 | what a policy with a single subject of each kind, or with none, allows |
| Authorization.TableDecides | backend/internal/database/repository.go:1023-1068 | the verdict over the table itself: of the enabled policies for this target or all that apply, some one of the highest priority allows, if the top ones agree |
| Authorization.SameVerdict | backend/internal/database/repository.go:1023-1068 | two sorted lists of the same policies give one verdict when top matches agree |
| Authorization.OrderIrrelevant | backend/internal/database/repository.go:1031-1032 | the verdict is the same for every order of equal priorities if and only if the top matches agree on their effect |
| Authorization.KeyInjective | backend/internal/gateway/authorizer.go:121-124 | two targets, or a target and the global list, never share a cache key |
| Authorization.DropsExactly | backend/internal/gateway/authorizer.go:183-192 | a target's invalidation loses its own list and the global one, and keeps each other as it is |
| Authorization.StepKeepsCurrent | backend/internal/database/repository.go:1027-1065 | a step keeps cached lists and loads on course to what a direct query gives if and only if a change leaves alone every list that survives its invalidation, the rows that each load has read, and the subjects it has read so far |
| Authorization.InvalidationSuffices | backend/internal/gateway/authorizer.go:176-192 | with no load under way, a full invalidation is always enough, and a target's is for changes scoped to that target |
| Authorization.CachedDecision | backend/internal/gateway/authorizer.go:38-146 | in every run of such changes, with loads reading rows and subjects in separate statements, a cached verdict is that of a direct query |
| Authorization.AllTargetChangeGoesStale | backend/internal/gateway/authorizer.go:183-192 | for any two targets, removing an all-target policy and invalidating one leaves the other's cached list allowing what a query denies |
| Authorization.LateStoreUndoesInvalidation | backend/internal/gateway/authorizer.go:133-145 | a load that asks before and stores after a full invalidation brings the old list back |
| Authorization.TornLoad | backend/internal/database/repository.go:1047-1065 | for any user and any other caller: a load that reads a policy's row before and its subjects after two changes, each with a full invalidation, caches a list that allows the caller, whom every state of the policies denies |
| Initialization.InitializeSession | backend/internal/gateway/proxy.go:52-209 | the session and reply after any interleaving of the targets' critical sections, on success, when targets fail or refuse, and when the query for the targets fails |
| Initialization.RunSchedule | backend/internal/gateway/proxy.go:67-184 | the critical sections store clients and IDs, count, report and merge one after the other as scheduled |
| Initialization.MergeOffers | backend/internal/gateway/proxy.go:147-172 | merging makes each of the eight capability flags the OR of both sides |
| Initialization.OffersDetermine | backend/internal/gateway/proxy.go:147-172 | the eight flags determine the capabilities |
| Initialization.AfterSchedule | backend/internal/gateway/proxy.go:67-184 | after any interleaving exactly the ready targets are connected and counted, each failed one is reported once, and a flag is set if and only if some ready target offers it |
| Initialization.RepliesExactly | backend/internal/gateway/proxy.go:186-209 | for every interleaving: one ready target is enough to initialise, errors are reported if and only if none is ready and some failed, each failed one named, and refusal if and only if all refused |
| Initialization.InitializedExactly | backend/internal/gateway/proxy.go:186-209 | the session is marked as initialised, with the merged capabilities, in that case only |
| Initialization.SchedulesAgree | backend/internal/gateway/proxy.go:67-209 | any two interleavings give equal sessions and equal replies up to the order of error messages |
| Proxy.ListTools | backend/internal/gateway/proxy.go:213-276 | the routing table is rebuilt, and the list returned, as the goroutines' order of entry dictates |
| Proxy.MergeTarget | backend/internal/gateway/proxy.go:240-269 | one goroutine adds the tools the caller may use, prefixed when there are several targets, and one table entry for each |
| Proxy.CallTool | backend/internal/gateway/proxy.go:279-346 | one of the answers that `CallsExactly` spells out, from the table, else by parsing with several clients, else with the only client |
| Proxy.ParsePrefixed | backend/internal/gateway/proxy.go:678-684 | parsing inverts prefixing if and only if the target's name has no delimiter |
| Proxy.DisplayNames | backend/internal/gateway/proxy.go:249-262 | display names are injective on pairs of target and tool if and only if no target name followed by the delimiter begins another |
| Proxy.NoDelimiterIsPrefixFree | backend/internal/gateway/proxy.go:249-262 | target names without the delimiter meet that condition |
| Proxy.ScheduleTable | backend/internal/gateway/proxy.go:219-275 | after every schedule the table holds only authorised pairs of answering targets, each under its display name, and every such display name |
| Proxy.SchedulesAgree | backend/internal/gateway/proxy.go:219-275 | every two schedules list the same names with the same multiplicities |
| Proxy.TablesAgreeExactly | backend/internal/gateway/proxy.go:219-275 | all schedules build the same routing table if and only if no two targets list authorised tools under one display name |
| Proxy.PrefixFreeNeverClashes | backend/internal/gateway/proxy.go:249-262 | target names of which none, followed by the delimiter, begins another rule that out for all tools |
| Proxy.SchedulesDisagree | backend/internal/gateway/proxy.go:243-268 | two targets whose tools meet under one name, and the two tables that the two schedules build |
| Proxy.ListedCallsArrive | backend/internal/gateway/proxy.go:279-346 | after every schedule a call by a listed name reaches exactly the pair it was listed for, if and only if no other target lists a tool under that name |
| Proxy.FallbackExact | backend/internal/gateway/proxy.go:286-318 | without a table entry parsing finds the pair if and only if the target's name is non-empty and has no delimiter |
| Proxy.ClearedCallsArrive | backend/internal/gateway/proxy.go:286-346 | with such names a listed call reaches its pair even after the table was cleared |
| Proxy.CallsExactly | backend/internal/gateway/proxy.go:279-346 | for every session, stale table and name: a tool is called only on a connected target and only if the caller may use it there, under the target ID of the entry or else the session; the other answers come only for their reasons |
| Proxy.PairGives | backend/internal/gateway/proxy.go:286-334 | a name that stands for a pair, by table, prefix or single client, is refused if the pair is not allowed, else reports a missing connection, else is called |
| Proxy.PolicyChangeTakesEffect | backend/internal/gateway/proxy.go:323-329 | a tool listed under an old policy is called under a new one if and only if the new one allows it, through the old table entry or not |
| Hub.BroadcastHub.Publish | backend/internal/observability/hub.go:143-153 | never waits: a full queue drops the new message and keeps the old ones |
| Hub.BroadcastHub.Register | backend/internal/observability/hub.go:100-103 | the client joins with an open, empty channel |
| Hub.BroadcastHub.Unregister | backend/internal/observability/hub.go:104-110 | a registered client leaves and its channel is closed, any other call does nothing |
| Hub.BroadcastHub.OfferTo | backend/internal/observability/hub.go:112-121 | a client with room gets the message at the end of its channel, one without is closed and removed |
| Hub.BroadcastHub.Broadcast | backend/internal/observability/hub.go:111-122 | the oldest queued message is offered to every client; the loop's order does not show |
| Hub.OfferAnyOrder | backend/internal/observability/hub.go:112-121 | the range loop serves every client once, whatever its order and although it deletes on the way |
| Hub.StepKeepsInv | backend/internal/observability/hub.go:97-124 | every step keeps each client's channel a block of the taken messages, bounded, and closed if and only if unregistered |
| Hub.Delivery | backend/internal/observability/hub.go:97-172 | in every run a client was sent a contiguous block, in order, of the messages taken since it joined, up to the latest while registered; channels are closed at most once and never used after |
| Hub.BroadcastIsOneStep | backend/internal/observability/hub.go:111-122 | however clients' reads fall between the offers of a broadcast, the outcome is that of the reads before their own client's offer, the whole broadcast, and the remaining reads |
| Hub.ClosedIsFinal | backend/internal/observability/hub.go:104-121 | once closed, nothing is ever sent on a channel again and it is not closed again |
| Hub.DroppedWhenFull | backend/internal/observability/hub.go:113-120 | a broadcast drops a client if and only if 64 messages wait in its channel |
| Hub.LostWhenQueueFull | backend/internal/observability/hub.go:143-153 | in every run a published message is lost if and only if 256 others wait, else it waits behind them |
| Aggregator.Prune | backend/internal/observability/aggregator.go:106-117 | in-place compaction keeps, in order, exactly the entries after the cutoff |
| Aggregator.ComputeStats | backend/internal/observability/aggregator.go:119-137 | the accumulating loop computes count, errors, sum, average, error rate and rate per second |
| Aggregator.Aggregator.Record | backend/internal/observability/aggregator.go:57-77 | an activity is appended to its target's log, or to the gateway's when it names none |
| Aggregator.Aggregator.VisitTargets | backend/internal/observability/aggregator.go:104-141 | the loop over targets, in arbitrary order, prunes every log and yields the sums and per-target statistics of the complete history's window |
| Aggregator.Aggregator.TakeSnapshot | backend/internal/observability/aggregator.go:94-149 | with a non-decreasing clock every snapshot equals the statistics of the complete, unpruned history over the window |
| Aggregator.FoldAnyOrder | backend/internal/observability/aggregator.go:104-141 | in whatever order the loop meets the targets, it prunes every log and yields the complete history's sums and statistics over the window |
| Aggregator.AfterTwice | backend/internal/observability/aggregator.go:106-117 | pruning at an earlier cutoff first makes no difference to a later one |
| Aggregator.PruningLosesNothing | backend/internal/observability/aggregator.go:94-149 | in every run of records and snapshots, each target's pruned log has the complete history's entries in every window ending now or later |
| Aggregator.WindowAdds | backend/internal/observability/aggregator.go:119-141 | the window's totals are the sums over targets, added in any order |
| Aggregator.ConcludeAll | backend/internal/observability/aggregator.go:139-149 | averages and rates concluded from those sums are those of the window as a whole |
| Aggregator.TotalsMean | backend/internal/observability/aggregator.go:94-149 | the totals of a snapshot count the activities of the last five minutes and those with the status "error" among them; average and error rate, times that number, give the latencies' sum and the errors |
| Aggregator.TargetsMean | backend/internal/observability/aggregator.go:104-141 | a target has a line if and only if it has such activities, and the line has their number, errors, latency, average and rates; activities without a target count for the gateway |
| Pool.Manager.GetOrCreateProcess | backend/internal/stdio/manager.go:79-114 | a live process is reused, a dead one replaced, a full pool refuses, a failed start leaves no entry |
| Pool.Manager.Gc | backend/internal/stdio/manager.go:143-171 | the loop in arbitrary order removes all and only dead and idle processes, and closes exactly the live ones it removes |
| Pool.Manager.Shutdown | backend/internal/stdio/manager.go:174-189 | every process in the pool is closed and the pool is empty |
| Pool.GcAnyOrder | backend/internal/stdio/manager.go:147-170 | a collection's result does not depend on the order of the map |
| Pool.StepKeepsInv | backend/internal/stdio/manager.go:79-189 | every step keeps the bound, distinct open processes, and freshness since the last collection |
| Pool.Capacity | backend/internal/stdio/manager.go:79-171 | in every run at most the configured number of processes, none closed, none idle for more than the limit plus one interval |
| Pool.LeavesOnlyDeadOrClosed | backend/internal/stdio/manager.go:79-189 | in every run a process leaves its key only if it was dead or is now closed |
| Pool.IdleCollection | backend/internal/stdio/manager.go:143-171 | a collection takes a live process if and only if its idle time from the start of the second of last use exceeds the limit, hence never a second before the limit; its age plays no part |
| Pool.RequestOutcome | backend/internal/stdio/manager.go:79-114 | a full pool never refuses a key whose process is alive or just died, and a new key is refused if and only if it is full, else started |
| Pool.RequestServes | backend/internal/stdio/manager.go:79-114 | a request leaves under its key the live process it returned, or after a failure none, and nothing else changed |
| Pool.SameProcessAgain | backend/internal/stdio/manager.go:79-114 | a further request for the key gets the same process and starts nothing |
| SubjectKey.ComputeSubjectKey | backend/internal/stdio/manager.go:217-238 | the key of each isolation boundary, unknown words counting as shared |
| SubjectKey.SortSorts | backend/internal/stdio/manager.go:229-231 | the groups are hashed in sorted order, none lost or added |
| SubjectKey.SortedUnique | backend/internal/stdio/manager.go:229-231 | a multiset has one sorted arrangement, so the sorting algorithm does not matter |
| SubjectKey.GroupPartExact | backend/internal/stdio/manager.go:227-233 | comma-free group lists have equal group parts if and only if they are equal as multisets, no group counting as the empty name |
| SubjectKey.SharedKeys | backend/internal/stdio/manager.go:217-238 | unless the hash collides, two callers share a key if and only if they share target, boundary and isolation class |
| SubjectKey.SharedKeysByWord | backend/internal/stdio/manager.go:217-238 | the same in the configured words: per_user isolates by user ID, per_role by role, per_group by the groups in any order, and every other word shares one process |
| SubjectKey.KeysByWord | backend/internal/stdio/manager.go:217-238 | the key for each word: its prefix, and the hash of the caller's part, a colon and the target ID; groups are sorted and joined with commas |
| SubjectKey.CommaInNameMergesClasses | backend/internal/stdio/manager.go:227-233 | two different group lists with one key under every hash |
| SubjectKey.UnmistakableExactly | backend/internal/stdio/manager.go:227-233 | for all names: a list shares its group part with no other list if and only if it has at most one name and no comma splits that name into two sorted parts |
| EnvConfig.Overlay | backend/internal/database/repository.go:1354-1365 | a layer's rows replace the entries of their keys, the last row winning, and leave all others |
| EnvConfig.OverlayGroup | backend/internal/database/repository.go:1395-1410 | a group's rows do the same except where a user's entry stands |
| EnvConfig.MergeGroups | backend/internal/database/repository.go:1389-1411 | later groups override earlier ones and everything below, and the guard for user entries never holds a row back |
| EnvConfig.ResolveEnvConfigsForTarget | backend/internal/database/repository.go:1346-1433 | the first failed query is the result; else for every key the map has the user's entry, else that of the last listed group holding the key, else the role's if there is a role, else the default |
| EnvConfig.LastGroupRule | backend/internal/database/repository.go:1389-1411 | the groups' entry is the one of a group after which no listed group holds the key |
| EnvConfig.LookupNamesItsLayer | backend/internal/database/repository.go:1358-1430 | source and scope of an entry name the layer it was stored in, and no layer above holds the key |
| EnvConfig.LookupGivesTheRow | backend/internal/database/repository.go:1354-1430 | value and description of an entry are those of the last row with its key in the scope that the entry names |
| EnvConfig.LookupMissesExactly | backend/internal/database/repository.go:1346-1433 | a key has no entry if and only if no scope that applies to the caller holds it |
| EnvConfig.ResolveTokenForTarget | backend/internal/database/repository.go:735-779 | the result is the first deciding candidate of user, role, groups in order, default |
| EnvConfig.FirstAnswerRule | backend/internal/database/repository.go:735-779 | an answer is given if and only if some candidate gives it and all before it are missing |
| EnvConfig.DefaultAnswersExactly | backend/internal/database/repository.go:735-779 | the default token is the answer if and only if user, role and all groups have none, the target exists and its token is not empty |
| EnvConfig.TokensInOrder | backend/internal/database/repository.go:735-779 | the user's token wins, then the role's, then that of the first listed group with one; a failed query for the user is the answer |
| EnvConfig.DocumentedOrderExact | backend/internal/database/repository.go:735-779 | the documented order gives the same result if and only if the user decides, there is no role token, no group token, or both fail alike |
| CrName.CollapseHyphens | backend/internal/k8s/manager.go:446-449 | the loop terminates with every run of hyphens reduced to one and nothing else changed |
| CrName.PassShrinks | backend/internal/k8s/manager.go:447-449 | each pass of the loop shortens the string |
| CrName.PassKeepsSqueeze | backend/internal/k8s/manager.go:448 | a pass keeps what remains when every run is a single hyphen |
| CrName.BuildCrName | backend/internal/k8s/manager.go:440-455 | the name is the normalised target name and subject key |
| CrName.NamesAreLabels | backend/internal/k8s/manager.go:438-455 | every name is a label of RFC 1123 without doubled hyphens, or empty if and only if no character of the input lower-cases to a letter or digit |
| CrName.NameStartsWithFirstKept | backend/internal/k8s/manager.go:443-445 | a name starts with the first letter or digit of its input |
| CrName.Rfc1035Exactly | backend/internal/k8s/manager.go:438-455 | a name is a label of RFC 1035 if and only if the first letter or digit of its input is a letter |
| CrName.DigitFirst | backend/internal/k8s/manager.go:438-455 | no name of a target called 1password is such a label |
| CrName.NamesCollideExactly | backend/internal/k8s/manager.go:440-455 | two subject keys of one target share a name if and only if the target leaves no room for the key below 63 characters, or the cut leaves equal parts of both cleaned keys |
| CrName.TargetsCollideExactly | backend/internal/k8s/manager.go:440-455 | any two targets and keys share a name if and only if their cleaned texts agree in the first 63 characters but for a hyphen at the end |
| CrName.LongTargetsMerge | backend/internal/k8s/manager.go:450-453 | keys that agree on a prefix as long as that room share one name, also across targets whose names are the same when cleaned |
| CrName.NormalizeIdempotent | backend/internal/k8s/manager.go:440-455 | normalising twice is normalising once |
| CrName.LabelIsFixed | backend/internal/k8s/manager.go:440-455 | normalisation leaves a string alone if and only if it is such a label |
| ComputedKeys.KeysAreShaped | backend/internal/stdio/manager.go:217-238 | every computed key, with eight bytes of digest in hexadecimal or a UUID, has the form that labels keep apart |
| ComputedKeys.ServicesSeparateCallers | operator/internal/controller/mcpinstance_controller.go:259-263 | the Service of one caller's instance reaches the Pod of another's if and only if they share the key |
| ComputedKeys.ResourcesShared | backend/internal/k8s/manager.go:440-455 | two callers of a target share a custom resource if and only if the cut loses the difference of their keys |
| ComputedKeys.LongNamesMergeUsers | backend/internal/k8s/manager.go:450-453 | all users of a per-user target with a clean name of 57 or more characters share one custom resource |
| ComputedKeys.LookalikeTargetsMerge | backend/internal/k8s/manager.go:440-455 | two per-user targets whose names are the same when cleaned, and then have 57 characters or more, share one custom resource for all their users |
| ComputedKeys.ComputedKeysEndLegally | operator/internal/controller/mcpinstance_controller.go:370-383 | every computed key makes a legal label value |
| Reconciler.SanitizeLabel | operator/internal/controller/mcpinstance_controller.go:370-383 | the loop replaces every other character by a hyphen and keeps at most 63 |
| Reconciler.Controller.GarbageCollectable | operator/internal/controller/mcpinstance_controller.go:103-129 | decides that the lifetime or the idle limit is exceeded, with the defaults for durations that do not parse |
| Reconciler.Controller.EnsurePod | operator/internal/controller/mcpinstance_controller.go:131-230 | an existing Pod is returned as it is, a missing one created with the instance's labels and port, any failed call creates nothing |
| Reconciler.Controller.EnsureService | operator/internal/controller/mcpinstance_controller.go:232-280 | the same for the Service and its selector |
| Reconciler.Controller.SyncStatus | operator/internal/controller/mcpinstance_controller.go:282-344 | the status for each state of the Pod; a failed update loses it and retries |
| Reconciler.Controller.UpdateStatus | operator/internal/controller/mcpinstance_controller.go:346-358 | phase and message are written, all else is kept, and the delay depends on the phase |
| Reconciler.Controller.Reconcile | operator/internal/controller/mcpinstance_controller.go:42-101 | the whole reconcile, for every combination of failing calls |
| Reconciler.Converges | operator/internal/controller/mcpinstance_controller.go:42-101 | one fault-free reconcile of an unexpired instance with its secret yields Pod and Service, those it creates matching the spec, and reports Ready if and only if the Pod is |
| Reconciler.RemovesExactly | operator/internal/controller/mcpinstance_controller.go:55-62 | one reconcile removes the instance if and only if the calls succeed and it is more than maxLifetime, 24 h when absent, past its stored start, or more than idleTTL, 30 min when absent, past its last use |
| Reconciler.ReportsPod | operator/internal/controller/mcpinstance_controller.go:282-344 | phase and message for every phase and readiness of an existing Pod, the other fields kept unless it is ready, and another visit after 30 s |
| Reconciler.ReportsTimes | operator/internal/controller/mcpinstance_controller.go:311-320 | when the Pod is ready, start and use times are set to the whole second where none is stored, and kept where one is |
| Reconciler.ReportsUrl | operator/internal/controller/mcpinstance_controller.go:299-310 | the URL of a ready instance has the address of its Service, or the name in the cluster when it has none, and the port, 8080 when absent |
| Reconciler.MakesObjects | operator/internal/controller/mcpinstance_controller.go:131-280 | the Pod and Service it creates carry the spec's port and the same three labels |
| Reconciler.ReportsFailure | operator/internal/controller/mcpinstance_controller.go:64-101 | past the first calls, failure is reported and tried again after a minute if and only if the secret is missing or a call for Pod or Service fails; the message says which |
| Reconciler.RetriesExactly | operator/internal/controller/mcpinstance_controller.go:42-101 | an error goes back to the queue if and only if the fetch, the removal, the look-up of the secret or the status update fails where it is needed, and nothing remains to do if and only if no instance is left |
| Reconciler.RepeatedReconcile | operator/internal/controller/mcpinstance_controller.go:42-358 | repeating a fault-free reconcile changes something if and only if the instance was unexpired, its secret present, its Pod ready, and a start or use time not yet stored would be rounded down by more than its limit |
| Reconciler.ReadyThenRemoved | operator/internal/controller/mcpinstance_controller.go:311-320 | an instance with a lifetime of 500 ms that one reconcile reports ready and the next removes |
| Reconciler.FixpointOnceReconciled | operator/internal/controller/mcpinstance_controller.go:103-129 | limits of a second or more always make it a fixpoint |
| Reconciler.ServiceReaches | operator/internal/controller/mcpinstance_controller.go:259-263 | one instance's Service selects another's Pod if and only if they share the target and their cleaned keys agree up to 63 characters |
| Reconciler.ComputedKeysSeparate | operator/internal/controller/mcpinstance_controller.go:370-383 | keys of the form the gateway computes stay apart as labels |
| Reconciler.LabelsLegalExactly | operator/internal/controller/mcpinstance_controller.go:147-151 | all labels of a Pod are legal values if and only if the target's name is one as it stands and the key's first and last kept characters are letters or digits |
| Reconciler.CleaningChanges | operator/internal/controller/mcpinstance_controller.go:370-383 | cleaning leaves a key alone if and only if it has at most 63 characters and only such as labels allow, and replaces just the others |
| Reconciler.SpaceIsIllegal | operator/internal/controller/mcpinstance_controller.go:147-151 | a target named "my tool" gets an illegal label |
| Reconciler.LeftoversAdopted | operator/internal/controller/mcpinstance_controller.go:131-241 | after adopting leftovers the Service selects the Pod, and points at its port, if and only if the leftovers match in labels, and in port |
| Reconciler.StepKeepsInv | operator/internal/controller/mcpinstance_controller.go:42-358 | every event but an edit of target, label or port, and every faulty reconcile, keeps labels and ports equal to the spec's and the URL of a ready instance on its port |
| Reconciler.Safety | operator/internal/controller/mcpinstance_controller.go:282-344 | in every run, with any faults and any edits, Ready implies a service URL and a start time |
| Reconciler.EditsSafeExactly | operator/internal/controller/mcpinstance_controller.go:131-280 | the Service selects the Pod on its port in every run, with any faults, if and only if the edits that may occur keep the instance's target, label and port |
| Reconciler.StartedAtIsFinal | operator/internal/controller/mcpinstance_controller.go:311-320 | in every run the start time, once stored, never changes while the instance exists |
| Reconciler.ObjectsKept | operator/internal/controller/mcpinstance_controller.go:131-280 | in every run in which the cluster loses neither, a Pod keeps its labels and port and a Service everything |
| Reconciler.RemovalHasReason | operator/internal/controller/mcpinstance_controller.go:55-62 | in every run an instance that is not removed from outside disappears only after it was past maxLifetime or idleTTL, or 24 h or 30 min where they are absent |
| Reconciler.CollectedInTime | operator/internal/controller/mcpinstance_controller.go:103-129 | in every fault-free run with punctual reconciles no instance outlives start plus lifetime, nor last use plus idle limit (taken as a second at least), by more than a minute, counted from the last edit of the spec if that is later |

## Left out

- HTTP, WebSocket, `exec`, the Kubernetes API and PostgreSQL: their outcomes are parameters, and tables are finite maps with the meaning of the queries.
- Hashing, regular expressions and lower-casing are function parameters; encryption, JWT and password hashing do not appear.
- Strings are sequences of characters without UTF-8 encoding, except in `Reconciler`, where a character stands for a byte. Resource names hold only ASCII characters when they are cut, so the cut is the same.
- JSON and the contents of MCP payloads: a message keeps only its ID, method, target and tool names.
- Data races and reads of a shared variable outside its lock: each operation reads the clock once.
- The transport fallback, the answer in the body of a POST, and reconnection in `mcp/client.go`; its SSE path is the protocol of `Correlation`.
- `ListResources` and `ListPrompts` run the loop of `ListTools` on other tables, and `FilterTools`, `FilterResources` and `FilterPrompts` append the allowed names: easy members.
- Aggregator.Aggregator.VisitTargets: keeps each log as a sequence; the in-place compaction of one log is proved separately in `Aggregator.Prune`.
- Aggregator.ComputeStats: latencies and rates are reals, so rounding is not modelled.
- Pool.Manager.Gc: closing a process, which can take up to five seconds, is one step of the collection. The pool's `maxLifetime` is stored by the source and used nowhere, and so has no field here.
- SessionManagement.DeadStaysDead: takes each look-up and each request as one step; `SessionRaces.ReturnsAgainExactly` is the exact result for split ones.
- SessionManagement.RoutedRequest: takes a request as one step from look-up to routing; `SessionRaces.RoutedUnderOwnIdentity` is the result for a request that is routed later.
- SessionRaces.StepKeepsGood: the check of expiry and its renewal, and the identity check and the recycling it causes, stay one step each.
- Authorization.StepKeepsCurrent: the subjects of a policy come in the order in which they are stored; a match does not depend on it.
- SubjectKey.SharedKeys: assumes comma-free group names; what happens without is in `UnmistakableExactly`.
- Reconciler.Controller.Reconcile: reads are current, not from a cache, and the clock is read once. A create or update that reports failure has had no effect.
- Reconciler.EditsSafeExactly: a name is used again only once its former Pod and Service are gone; `LeftoversAdopted` says what happens otherwise. Container details such as image, environment, probes and resources are not modelled.
- The gateway's cache of service URLs and its own polling of custom resources in `k8s/manager.go`.
- Rows of a query that ends early on a connection error: the source does not check for that and returns the rows read so far.
- `gateway/sse.go`, telemetry, logging, REST handlers, configuration, migrations, the charts, the frontend and the website.
