# A verified model of the VPN panel's synchronisation, expiry, telemetry and subscriptions

The panel keeps users, nodes and assignments in PostgreSQL and pushes each node's full list
of users to a node agent under a version number.  Nothing locks a node: HTTP handlers,
"sync all" and the expiry reconciler may run syncs of one node at the same time, and every
database statement and agent call is a point where others may act.  This project models that
protocol as a transition system and proves what holds over **every** interleaving, every
failure and every edit.  On top of it stand the expiry reconciler, whose mark "synced" is meant
to say that a user's credentials are gone, the telemetry collector and the subscription builder.

`dafny verify dfyconfig.toml` checks the whole project.

## How it is put together

| file | what it holds |
|---|---|
| `Database.dfy` | the tables, each SQL statement as one atomic step, triggers and constraints |
| `SyncProtocol.dfy` | the world (database, agents, wire, runs with program counters) and its steps |
| `SyncSafety.dfy`, `SyncVersions.dfy` | what every interleaving keeps: version bounds, versions as unique names |
| `SyncFreshness.dfy`, `SyncRuns.dfy`, `SyncReplies.dfy` | what a payload reflects; version recovery; one event per payload; what every reply leads to |
| `AccessLaws.dfy` | how each edit moves the list of a node, when it reaches the agent, and how the reconciler's lookup relates to the lists |
| `SyncSolo.dfy`, `SyncQuiet.dfy`, `SyncOverlap.dfy` | an undisturbed sync succeeds; a sync nothing overlaps ends with exact contents; when syncs lower the applied version |
| `Revocation.dfy`, `RevocationExact.dfy`, `RevocationTiming.dfy` | when an expired user is gone from an agent for good, that the condition is exact, and what it asks of the runs in flight |
| `NodeManager.dfy` | `Panel`, the manager and its repository as sequential code, run among others |
| `ReconcileAccounts.dfy`, `TraceFacts.dfy`, `ExpiryReconciler.dfy`, `ReconcilerLock.dfy` | the books of a reconcile run, what a stretch of a trace says, the three loops over `Panel`, the running flag |
| `KnownGaps.dfy` | constructed runs in which a marked user keeps or regains access, or an expired one is skipped |
| `Telemetry.dfy`, `TelemetryRows.dfy`, `TelemetrySort.dfy`, `TelemetryQuery.dfy`, `TelemetryPool.dfy`, `TelemetryPages.dfy`, `TelemetrySummary.dfy` | session matching and scopes, whom a row shows, sorting and filtering, what a query selects, the worker pool, the two pages, the issues and counters |
| `OutboundTag.dfy`, `MieruQuery.dfy`, `SingboxConfig.dfy`, `SubscriptionClient.dfy` | the slug, the `mierus://` query and its reader, the sing-box config, where it sends a client and with which credentials |
| `Prelude.dfy`, `Text.dfy` | options, Go's order on strings, trimming and lower-casing |

**Environment.** The node agent is not part of the repository.  It may refuse any payload with any
status.  It is assumed to accept a payload it does not refuse exactly when the payload's version
exceeds its own, to replace its whole user set on accepting, never to lower its version, and to
report an applied version at most its current one.  A payload that was sent may arrive late, several
times or never.  A statement may commit, be rolled back, or commit with its acknowledgement lost.
Time is one integer that never goes back; the panel's clock may be ahead of the database's or behind
it (`skew`).

**Imperative code.** `Panel` and `Reconciler` are classes whose methods follow the Go statements.
Between any two statements `Panel.Yield` performs whatever a *plan* schedules, and the plan also
says how the next statement or call ends, so a theorem for every plan is a theorem for every
interleaving and failure.  The class invariant says that the state is exactly the one the recorded
actions of the transition system lead to, which carries the lemmas about the transition system
over to the code.

## Where the code differs from what one would expect

* A user whose node lookup **failed** is still marked as synced: the user enters `userIDs` before
  the lookup (`internal/users/expiry_reconciler.go:110-117`), finds an empty list and is marked
  (`internal/users/expiry_reconciler.go:139-145`).  `MarkMeansSyncedExactly` gives the exact
  condition over all runs, `FailedLookupKeepsAccess` a concrete run after which the user is not
  pending while its agent still holds it; the revocation theorems ask for a successful lookup.
* `MarkSyncSuccess` stores the applied version without `greatest`
  (`internal/nodes/repository.go:109-112`), so it may step down.  `MarkLowersExactly` says when, for
  every version a mark may store and over every stretch that leads up to it: exactly if a newer
  version, recorded in the stretch or there at its start, still stands.  It may have been recorded
  by another run, or by the same run when its stale reply made it realign.  An undisturbed run lowers
  it exactly if the agent, on accepting, reports an older positive applied version
  (`SoloLowersExactly`); `AppliedCanStepDown` builds two overlapping runs that do it from every world
  with a live node.
* A retry sends the list read before the stale reply, under a fresh version
  (`internal/nodes/manager.go:362`).  `PayloadFreshness` states what each payload reflects,
  `CleanIsExact` says when such a list can still bring an expired user back, and
  `RetryBringsUserBack` is a run in which it does, after the reconciler's own sync of the node has
  succeeded and the user was marked.
* An agent that took a payload over but answered with another code than 2xx counts as unreachable, and
  an agent that answers /status without being ok leaves its node connected and in error
  (`internal/nodes/manager.go:283-295`, `internal/nodes/manager.go:239-256`); `EveryReply` and
  `EveryStatusReply` list every case.
* Pending users are filtered twice, by the database's clock and by the panel's
  (`internal/users/expiry_reconciler.go:95-108`).  With the panel's clock behind, a listed user is
  skipped without an error; `FoundExactly` and `Reconcile` say exactly which, and
  `ClockBehindSkipsUser` shows it with a clock one tick behind.
* The user's session page is not the global page restricted to the user: an agent of a node the user
  is not assigned to may report a session under the user's id (`internal/telemetry/service.go:344-352`).
  `UserPageExactly` gives the exact condition, `StrangerShows` an input where the pages differ.

## Model

| member | source | states |
|---|---|---|
| Database.EditKeepsProtocols | internal/db/migrations.go:85-110 | the two protocol triggers, the check and unique constraints and the cascades keep every assignment's protocol equal to its live node's and in {naive, mieru}, whatever is inserted, upserted, updated or deleted |
| Database.ProtocolGuardIsExact | internal/db/migrations.go:101-110 | the guard on node updates refuses exactly the protocol changes that would break that invariant |
| Database.UpdateAndBack | internal/nodes/repository.go:64-76 | a stored update of a node and its undoing restore the tables, except that a node switched off in between, or marked disabled, comes back as planned |
| Database.SqlFilterAgreesWithGo | internal/users/repository.go:181-190 | the SQL filter and needsExpirySync pick the same live users at equal clocks |
| AccessLaws.TakenOff | internal/users/repository.go:145-150 | a user that is switched off or deleted is on no node's list, and one that is unassigned, or whose assignment is switched off, is not on that node's |
| AccessLaws.TickTakesOff | internal/users/repository.go:145-150 | the passing of time takes off the lists exactly the users whose expiry it passes, and alters no entry |
| AccessLaws.EmptyLists | internal/users/repository.go:145-150 | without assignments every list is empty, and so is that of a node that is deleted |
| AccessLaws.Assigned | internal/users/repository.go:258-262 | an assignment the constraints let through puts the user on the list exactly if it is enabled and not expired, with exactly the given credentials and the user's expiry and quota |
| AccessLaws.RefusedAssignment | internal/db/migrations.go:85-110 | an assignment the constraints refuse changes no list |
| AccessLaws.CreatedThenAssigned | internal/users/repository.go:31-53 | a created user is on no list until it is assigned, and then with the expiry and quota it was created with |
| AccessLaws.Updated | internal/users/repository.go:93-101 | updating a listed user keeps its credentials and replaces expiry and quota, and keeps it listed exactly if it is enabled and not expired |
| AccessLaws.AlterThenAssign | internal/users/repository.go:93-106 | altering a user before or after an assignment leaves the same tables |
| AccessLaws.AssignedIsOn | internal/users/repository.go:258-262 | an assignment just made is on, and making it again brings one that was switched off back |
| AccessLaws.OffAndOn | internal/users/repository.go:103-106 | switching a listed user, or its assignment, off and on again restores the tables |
| AccessLaws.OtherEntriesKept | internal/users/repository.go:145-150 | no edit that concerns another user, or the same user on another node, changes an entry of a list |
| AccessLaws.EditReachesAgent | internal/nodes/manager.go:150-171 | after any edit, a sync that begins then and is not overlapped at the node leaves the agent with exactly the list the edit left, whatever happens elsewhere |
| AccessLaws.TakenOffReachesAgent | internal/nodes/manager.go:150-171 | so after such a sync the agent does not hold a user that was switched off, deleted or unassigned |
| AccessLaws.AssignedReachesAgent | internal/nodes/manager.go:150-171 | and it holds an enabled, unexpired user that was assigned, with exactly the credentials, expiry and quota given |
| AccessLaws.EditThenSolo | internal/nodes/manager.go:150-171 | an undisturbed sync after the edit succeeds, in every world, and the edit has reached the agent |
| AccessLaws.LookupCoversLists | internal/users/repository.go:16-22 | for a live, enabled user the reconciler's lookup names exactly the reachable nodes whose list the user is on at some moment before its expiry, and so at every such moment |
| AccessLaws.PendingHasDropped | internal/users/repository.go:181-190 | a pending user is on no list any more, and until it expired was on exactly those of the reachable nodes the lookup names |
| AccessLaws.NewUserComesDue | internal/users/repository.go:181-190 | a new user is pending exactly if it is enabled and its expiry has come |
| AccessLaws.RenewedComesDue | internal/users/repository.go:209-212 | a marked user whose row is updated is pending again exactly if it is enabled and its expiry was moved beyond the mark and has come |
| AccessLaws.FirstVersionIsOne | internal/nodes/manager.go:150-171 | the first undisturbed sync of a new node with a new agent sends, and ends with, version 1 |
| AccessLaws.EventsGoWithNode | internal/nodes/repository.go:93-96 | a deleted node takes exactly its own events with it |
| SyncSafety.PlayGrows | internal/nodes/repository.go:78-102 | over every interleaving, from any world, desired versions, agent versions and the clock never go back, deleted rows stay deleted and the wire log only grows |
| SyncSafety.ExecKeepsBounded | internal/nodes/manager.go:320-330 | every step of anyone keeps: applied at most desired, applied at most the agent's version, every payload's version at most desired |
| SyncVersions.PlayKeepsReachable | internal/nodes/manager.go:150-171 | the joint invariant (bounds, unique versions, accepted payloads, protocol agreement) holds over every interleaving of any number of runs with edits and agents |
| SyncVersions.VersionSafety | internal/nodes/repository.go:98-102 | versions are handed out in increasing order; no two payloads and no two events of a node share one; each payload's version was handed out; an agent's accepted payloads have strictly increasing versions |
| SyncVersions.AppliedFallsExactly | internal/nodes/repository.go:109-112 | of all steps of anyone only a stored MarkSyncSuccess with a smaller version lowers the applied version |
| SyncSolo.SoloLowersExactly | internal/nodes/manager.go:320-330 | an undisturbed run lowers the applied version if and only if the agent, on accepting, reports a positive applied version below the stored one, whatever it reported in /status |
| SyncOverlap.MarkLowersExactly | internal/nodes/manager.go:320-330 | for every version a run is about to mark, and over every stretch that leads up to the mark: it lowers the applied version if and only if a newer version was recorded in the stretch, by any mark or realigning, the run's own included, or was there at its start, and no mark since took that back |
| SyncOverlap.ConfirmedLowersExactly | internal/nodes/manager.go:320-330 | seen from a bump of the run: a mark of the version handed out there lowers the applied version if and only if a newer one was recorded since and stands |
| SyncSolo.AppliedCanStepDown | internal/nodes/repository.go:109-112 | a constructed run from every world with a live node: two syncs begin one after the other, the second is done before the first, and the first, which then succeeds too, lowers the applied version |
| SyncSolo.SoloSyncSucceeds | internal/nodes/manager.go:150-171 | an undisturbed sync succeeds from any pair of row and agent versions, a restored row included, and leaves the agent with exactly the active access under a version above both |
| SyncFreshness.PayloadFreshness | internal/nodes/manager.go:345-364 | each payload's list is the active access at its read; in a first attempt the read follows the bump, in a retry it precedes it and the list is one a first attempt carried under a smaller version |
| SyncRuns.VersionRecovery | internal/nodes/manager.go:239-256 | the version a run sends exceeds what the agent last told it, in /status for the first attempt and in the stale reply for the retry, so it is accepted unless the agent moves |
| SyncRuns.OneEventPerSend | internal/nodes/manager.go:258-364 | a run sends at most twice; every sent version is on the wire; unless the event insert failed each has one event, and exactly one while the node exists |
| SyncReplies.EveryReply | internal/nodes/manager.go:282-343 | for every way a call may end, every HTTP code and every agent: which status the event and the row get, how the setup state changes, whether the agent holds the list, and whether the run is done, failed or holds its list for one more attempt; a stale reply to a first attempt leads to the retry whatever its HTTP code |
| SyncReplies.EveryStatusReply | internal/nodes/manager.go:239-256 | the same for /status: what the row shows, which counters move and whether the run goes on |
| SyncReplies.StaleRecovers | internal/nodes/manager.go:334-364 | a first attempt answered with stale_version, rightly or not and under any HTTP code, records a stale event and, undisturbed, ends done after one more payload with the same list under a version above the agent's, which then holds it, and an ok event |
| SyncReplies.RetriedNeverSendsAgain | internal/nodes/manager.go:258-364 | over every interleaving and for every reply, a run whose second attempt is on the wire sends no more |
| SyncReplies.DoneIsAcknowledged | internal/nodes/manager.go:150-171 | over every interleaving, one rollback or lost acknowledgement among the statements whose error the code returns fails the run for good, so a run that is done has had them all acknowledged |
| SyncReplies.IgnoredStatements | internal/nodes/manager.go:239-349 | the outcome of every other statement, such as the updates of the status, changes nothing about where the run goes |
| SyncQuiet.QuietSyncConverges | internal/nodes/manager.go:150-171 | without other syncs of the node or edits of its access, a successful sync ends with the agent holding exactly the active access, whatever happens elsewhere and however slow the wire |
| Revocation.SyncRevokes | internal/nodes/manager.go:150-171 | if the expiry has passed and nothing in flight can carry an old list above the versions handed out, a sync that starts now and succeeds leaves the user off the agent for good |
| Revocation.CleanForever | internal/users/repository.go:145-150 | a node from which the user is gone stays so over every interleaving and every edit that leaves the expiry in the past |
| RevocationExact.CleanIsExact | internal/nodes/manager.go:345-364 | an expired user is gone for good if and only if the world is clean: otherwise some run without any edit puts the user back |
| RevocationTiming.LateReadsSettle | internal/users/repository.go:145-150 | the premise of revocation as a condition on time: if no run in flight at the node read its list before the user's expiry had passed, nothing in flight can carry the user above the versions handed out |
| RevocationTiming.LateReadsAreRevocable | internal/users/expiry_reconciler.go:94-169 | the same condition on `Panel` gives the premise of the end-to-end theorem of Reconcile, at any moment before the first sync, for all that happens until the run ends without moving the expiry on |
| NodeManager.OrderByExpiry | internal/users/repository.go:181-190 | lists each pending user once with its row, earliest expiry first |
| NodeManager.Panel.SyncRemoteState | internal/nodes/repository.go:78-91 | raises both counters to at least the remote ones, a missing applied version taken as the current one |
| NodeManager.Panel.BumpVersion | internal/nodes/repository.go:98-102 | adds one and returns the new version exactly when the statement is acknowledged for a live row |
| NodeManager.Panel.MarkStatus | internal/nodes/repository.go:104-107 | stores the status; ok also connects the node |
| NodeManager.Panel.MarkSyncSuccess | internal/nodes/repository.go:109-112 | overwrites the applied version |
| NodeManager.Panel.MarkSyncFailure | internal/nodes/repository.go:114-117 | stores the status; http_error also marks the node unreachable |
| NodeManager.Panel.InsertSyncEvent | internal/nodes/repository.go:119-122 | appends the event, failing on a deleted node |
| NodeManager.Panel.UsersPendingExpiryReconcile | internal/users/repository.go:181-194 | returns the pending users of the moment it is served, or an error |
| NodeManager.Panel.ActiveNodeIDsForExpiredUser | internal/users/repository.go:196-207 | returns in ascending order exactly the reachable nodes with enabled access, which are those LookupCoversLists speaks of, or an error |
| NodeManager.Panel.FetchAndReconcileStatus | internal/nodes/manager.go:239-256 | ok exactly as a run that has realigned its row with the agent's report, under every plan |
| NodeManager.Panel.SyncNodeAttempt | internal/nodes/manager.go:258-332 | sends the given list under the given version, and only on a stale reply to a first attempt once more under a higher version; success means the run is done and every payload it sent has been recorded, in order |
| NodeManager.Panel.RetryFromAgentResponse | internal/nodes/manager.go:345-364 | sends at most one more payload, with the same list, under a version above the stale one; success means the stale payload and the new one have both been recorded |
| NodeManager.Panel.SyncNode | internal/nodes/manager.go:150-171 | under every plan the method is one run of the transition system and only accounted steps happen; the run sends nothing, or one list under one or two rising versions; success means it is done with the returned version and has recorded all it sent |
| ReconcileAccounts.DedupeKeepsTheSet | internal/users/expiry_reconciler.go:184-198 | deduplication keeps exactly the non-empty values, each once |
| ReconcileAccounts.DedupeIsIdentity | internal/users/expiry_reconciler.go:184-198 | distinct non-empty ids come back unchanged and in order |
| ReconcileAccounts.CallsBalance | internal/users/expiry_reconciler.go:124-137 | successes plus failed nodes are the nodes affected |
| ReconcileAccounts.NoErrorMarksEveryone | internal/users/expiry_reconciler.go:94-169 | a run without errors has UsersSynced equal to UsersFound |
| ReconcileAccounts.UnmarkedAreBlocked | internal/users/expiry_reconciler.go:147-158 | no mark is attempted for a found user exactly when one of the user's looked-up nodes failed |
| ReconcileAccounts.UnstoredExactly | internal/users/expiry_reconciler.go:147-163 | a found user has no stored mark if and only if one of its looked-up nodes failed or the mark was attempted and not stored |
| ReconcileAccounts.MarkMeansSyncedExactly | internal/users/expiry_reconciler.go:110-158 | over all runs with the same lookups, being marked implies that each of the user's nodes was called and synced, if and only if the lookup succeeded or there is no such node |
| KnownGaps.FailedLookupKeepsAccess | internal/users/expiry_reconciler.go:110-145 | a concrete run from a start: the user's lookup fails, no node is called, the user is marked and no longer pending, and the agent of a reachable node it is assigned to still holds it |
| KnownGaps.MarkHidesForever | internal/users/repository.go:181-212 | a user so marked is not pending again, whatever happens, until its expiry is moved beyond the mark |
| KnownGaps.RetryBringsUserBack | internal/nodes/manager.go:345-364 | a concrete run from a start: the reconciler lists the expired user, looks up its node, syncs it successfully and marks the live, enabled user, whose agent no longer holds it; yet the old list of a waiting retry brings it back by steps of runs alone, and it is not pending |
| KnownGaps.ClockBehindSkipsUser | internal/users/expiry_reconciler.go:95-108 | a concrete run: with the panel's clock one tick behind, a reconcile over the listed, expired user finds nobody, reports no error and leaves it pending |
| ExpiryReconciler.DedupeStrings | internal/users/expiry_reconciler.go:184-198 | the loop with its seen map computes the deduplication |
| ExpiryReconciler.Reconciler.Collect | internal/users/expiry_reconciler.go:106-122 | the first loop's lists, maps and errors for every pattern of lookup failures; each successful lookup saw the database of some moment of the run |
| ExpiryReconciler.Reconciler.SyncAll | internal/users/expiry_reconciler.go:127-135 | the second loop calls each node once in order, counts successes and failures, and each successful call is a sync that began and succeeded during the loop |
| ExpiryReconciler.Reconciler.MarkAll | internal/users/expiry_reconciler.go:137-163 | the third loop attempts marks for exactly the users due; of every row that nothing scheduled writes, a stored mark changes the one column and nothing else changes any |
| ExpiryReconciler.FoundExactly | internal/users/expiry_reconciler.go:95-108 | a listed user is taken up if and only if it has expired by the panel's clock too |
| ExpiryReconciler.TakenUpInOrder | internal/users/expiry_reconciler.go:95-117 | users are taken up in the order in which they expired |
| ExpiryReconciler.Reconciler.Reconcile | internal/users/expiry_reconciler.go:94-169 | the books balance for every pattern of failures; end-to-end revocation for all users and nodes at once: a mark on top of a successful lookup that named a node means the user is gone from that agent for good, if at some moment before the first sync nothing in flight could undo it and nothing moved the expiry on since; and not only from the nodes named: at some moment of the run the lookup covered every reachable node that was to be sent the user before it expired; every user pending before, whose row nothing scheduled during the run writes, is taken up exactly if expired by the panel's clock, and if taken up is left pending exactly if one of its nodes failed or its mark was not stored |
| ExpiryReconciler.Reconciler.RunOnce | internal/users/expiry_reconciler.go:71-77 | refused without touching anything while the flag is up, otherwise one run with the flag restored and all that Reconcile promises, the listing and every lookup being those of moments of the run; after an error-free run a user that was pending, and whose row nothing scheduled writes, is pending exactly if the panel's clock had not reached its expiry |
| ExpiryReconciler.Reconciler.RunTwice | internal/users/expiry_reconciler.go:53-69 | after an error-free run the next one lists, of rows nothing scheduled writes, only users whose expiry has come since and users the first skipped by its clock; without either, and with no scheduled write of users, it finds none |
| TraceFacts.MarkOutlastsItsExpiry | internal/users/expiry_reconciler.go:171-182 | over every later interleaving a marked user is pending again only once the expiry was moved beyond the mark and that time has come |
| TraceFacts.SyncedIsClean | internal/nodes/manager.go:150-171 | a sync that began and succeeded within a stretch of a trace leaves the user gone from the agent at its end and for good |
| ReconcilerLock.FlagMeansOneInside | internal/users/expiry_reconciler.go:71-92 | over every interleaving of callers the flag is up exactly while one is between swap and release, acquires and releases match, and refused callers never reach the repository |
| ReconcilerLock.SwapDecides | internal/users/expiry_reconciler.go:71-92 | over every interleaving nobody waits: a caller that swaps is refused at once if another is inside and let in at once if not, and who is inside can leave, which lowers the flag |
| ReconcilerLock.RefusedCallerErased | internal/users/expiry_reconciler.go:71-92 | over every interleaving, erasing all that a refused caller still does leaves flag, counters, repository calls and all other callers exactly as they are |
| Telemetry.BuildFallbackIndex | internal/telemetry/service.go:563-581 | the nested map answers every node and protocol username with the list a plain scan of the lookups gives |
| Telemetry.ScanIsTheAssignedUsers | internal/telemetry/service.go:563-581 | that list is exactly the assigned users, without duplicates |
| TelemetryRows.ResolvedExactly | internal/telemetry/service.go:343-377 | a session is matched to a user exactly if it names the id of a user in the map, or names none and that user is the only one assigned to the node under the protocol username and is in the map; otherwise it is unknown, or excluded under strict scope |
| Telemetry.CollectRows | internal/telemetry/service.go:242-280 | the loop over a response keeps, in order, the rows of every session that is not excluded; what they are, GlobalRows and StrictRows say |
| TelemetryRows.GlobalRows | internal/telemetry/service.go:311-341 | the global page has one row for each session, in order, that shows what the agent reported and the user the session belongs to, or nobody |
| TelemetryRows.StrictRows | internal/telemetry/service.go:343-377 | strict scope keeps, in order, exactly the rows whose user is known |
| TelemetryRows.NodeViewShows | internal/telemetry/service.go:242-262 | a node view shows its node, and either why the node was not asked, or the error of the call, or the warnings of the answer |
| TelemetryRows.MaskHides | internal/security/security.go:23-29 | two masked usernames are equal exactly if both have at most eight characters, or they agree in length and in the four characters at either end |
| Telemetry.TargetNodes | internal/telemetry/service.go:108-120 | exactly the known nodes of the user's lookups, each once, in the order of their first lookup |
| Telemetry.ScopedRows | internal/telemetry/service.go:343-377 | on one response, strict scope with a one-user map keeps exactly, in order, the non-strict rows of that user |
| Telemetry.UserPageIsFilter | internal/telemetry/service.go:89-146 | on the user's own nodes, the user page's rows are in order those the global page has of that user, with each page's own index |
| TelemetryPages.AppendRows | internal/telemetry/service.go:134-137 | the loop appends the rows of all node views in order |
| TelemetryPages.PoolYieldsPage | internal/telemetry/service.go:183-240 | whatever the schedule, an uncancelled pool yields exactly the rows of the page |
| TelemetryPages.LookedUpAreTargets | internal/telemetry/service.go:104-120 | the nodes the user page asks are those of the list the user is assigned to |
| TelemetryPages.UserPageExactly | internal/telemetry/service.go:89-181 | over the whole node list, the user page holds the same rows as the global page has of the user if and only if no agent of a node the user is not assigned to names the user |
| TelemetryPages.ShownPagesExactly | internal/telemetry/service.go:138-172 | the same for the pages as sorted, and under that condition for the global page under every query |
| TelemetryPages.StrangerShows | internal/telemetry/service.go:343-352 | an input on which the two pages differ |
| TelemetrySort.BeforeTransitive | internal/telemetry/service.go:512-537 | the four-key comparison with missing times is transitive |
| TelemetrySort.BeforeIsWeakOrder | internal/telemetry/service.go:512-537 | rows neither of which comes first are exactly those with equal keys, so the order is a strict weak one |
| TelemetrySort.SortedAndStable | internal/telemetry/service.go:512-537 | the result is sorted, a permutation, and keeps rows with equal keys in order |
| TelemetrySort.StableSortUnique | internal/telemetry/service.go:512-537 | there is only one such result, so any stable sort computes it |
| TelemetrySort.ActiveFirst | internal/telemetry/service.go:512-537 | active rows come first |
| TelemetrySort.PageOrder | internal/telemetry/service.go:512-537 | of two rows of a sorted page: active before not; then with a time before without, latest first; then ascending node names; then ascending names of users, or masked protocol usernames for rows without one |
| Prelude.LessExactly | internal/telemetry/service.go:530-536 | the order on names is the lexicographic one: at the first position where two strings differ, the lesser ends or has the lesser character |
| TelemetrySort.SortSessions | internal/telemetry/service.go:512-537 | sorting the array in place computes that result |
| TelemetrySort.FilterSessions | internal/telemetry/service.go:379-413 | the loop with its continues keeps exactly the rows that pass |
| TelemetrySort.SortCommutesWithFilter | internal/telemetry/service.go:379-413 | filtering then sorting is sorting then filtering |
| TelemetryQuery.SelectedExactly | internal/telemetry/service.go:379-429 | which rows a query selects: by status, by protocol whatever the case, and by a text that stands anywhere in one of five texts of the row whatever the case |
| TelemetryQuery.StatusesPartition | internal/telemetry/service.go:379-413 | the rows under `all` are those under `active` and those under `recent`, none in both |
| TelemetryPool.RunKeepsOrder | internal/telemetry/service.go:183-240 | over every schedule each slot is written at most once, is written or in work once dispatched, and describes its own node |
| TelemetryPool.EverySlotOnce | internal/telemetry/service.go:183-240 | when the pool returns each slot was written exactly once; without cancellation the results are fetchNodeView over the nodes in order |
| TelemetryPool.FetchesInFlight | internal/telemetry/service.go:201-221 | at most min(concurrency, number of nodes) fetches are in flight |
| TelemetryPool.PoolFills | internal/telemetry/service.go:201-221 | and that many can be in flight at once, six of them when no concurrency is set |
| TelemetryPool.EveryStepCounts | internal/telemetry/service.go:201-239 | every effective step lowers a measure over undispatched jobs, busy and live workers |
| TelemetryPool.EveryScheduleEnds | internal/telemetry/service.go:201-239 | no schedule has more than three effective steps a node and three for the pool |
| TelemetryPool.NeverStuck | internal/telemetry/service.go:201-239 | until the pool returns, some step other than a cancellation is possible |
| TelemetrySummary.ViewsFallInOneClass | internal/telemetry/service.go:459-485 | every view the pool can produce is exactly one of healthy, issue and planned skip |
| TelemetrySummary.IssueExactly | internal/telemetry/service.go:459-510 | the issue shown for a node, from how it is set up and what its agent answers: missing settings, a failed or cancelled call, a warning that is not blank, or a status other than ok |
| TelemetrySummary.ActiveAreShown | internal/telemetry/service.go:431-453 | the active sessions counted are the rows shown to a query that asks for nothing in particular |
| TelemetrySummary.BuildSummary | internal/telemetry/service.go:431-453 | the counters are those numbers, and UniqueActiveIPs is the size of the set of non-empty addresses of active rows |
| TelemetrySummary.SummaryConservation | internal/telemetry/service.go:431-453 | whatever the schedule, cancellation and replies, healthy collectors, issues and planned skips add up to the nodes asked |
| OutboundTag.BuildSlug | internal/subscriptions/subscriptions.go:470-486 | the loop with its prevDash flag writes the slug |
| OutboundTag.SlugIsJoinedWords | internal/subscriptions/subscriptions.go:461-487 | the slug is the maximal runs of a-z and 0-9 of the lower-cased source joined by single dashes, or "node" |
| OutboundTag.SlugIsCanonical | internal/subscriptions/subscriptions.go:461-487 | no dash at either end and no two in a row |
| OutboundTag.SlugIsIdentityOnCanonical | internal/subscriptions/subscriptions.go:461-487 | strings already in that form are kept |
| OutboundTag.SlugIsIdempotent | internal/subscriptions/subscriptions.go:461-487 | slugging twice is slugging once |
| OutboundTag.TagsCollideExactly | internal/subscriptions/subscriptions.go:461-487 | two nodes get one tag if and only if they share protocol and slug |
| MieruQuery.EscapesAs | internal/subscriptions/subscriptions.go:160-165 | escaping keeps letters, digits and - _ . ~, writes a space as a plus, and every other byte as a percent sign and two capital hex digits |
| MieruQuery.UnescapeUndoesEscape | internal/subscriptions/subscriptions.go:160-165 | percent-decoding undoes url.QueryEscape on every byte string |
| MieruQuery.ReadUndoesPrint | internal/subscriptions/subscriptions.go:160-177 | splitting on & and = and unescaping recovers the same pairs in the same order, repeated keys included |
| MieruQuery.BuildLinkTail | internal/subscriptions/subscriptions.go:144-177 | the code writes exactly the pairs it means to carry and the fragment |
| MieruQuery.MieruLinkRoundTrip | internal/subscriptions/subscriptions.go:144-177 | the part of a link after the question mark decodes to the settings and the profile name, for all values and any number of port ranges |
| MieruQuery.LinkCarriesSettings | internal/subscriptions/subscriptions.go:144-177 | the reader of a link finds under each name, spelt out, exactly the value of that setting or its default, and a port and a protocol for every range |
| MieruQuery.PortPairsAlternate | internal/subscriptions/subscriptions.go:169-174 | one port pair and one protocol pair per configured range, in order |
| SingboxConfig.BuildSingbox | internal/subscriptions/subscriptions.go:228-291 | the code builds the config the lemmas below speak of |
| SingboxConfig.OneOutboundEach | internal/subscriptions/subscriptions.go:230-265 | with known protocols, outbound i is that of assignment i |
| SingboxConfig.ConfigResolvesExactly | internal/subscriptions/subscriptions.go:228-291 | for every list of assignments, the config resolves if and only if each assignment's tag is that of some assignment of a known protocol |
| SingboxConfig.LoneConfigResolvesExactly | internal/subscriptions/subscriptions.go:230-265 | the config of a lone assignment resolves if and only if its protocol is known, as the switch has no default case |
| SingboxConfig.ReachableConfigResolves | internal/subscriptions/subscriptions.go:228-291 | from every database reached by syncs and edits, every tag in selector, DNS detours, DNS rules and routes is defined, with one outbound per assignment |
| SingboxConfig.TagsUniqueExactly | internal/subscriptions/subscriptions.go:228-289 | outbound tags are unique if and only if no two assignments share protocol and slug; node tags never equal proxy, direct or dns-out |
| SingboxConfig.CanonicalIdsGiveUniqueTags | internal/subscriptions/subscriptions.go:461-487 | with agent ids in canonical form, no two outbounds of a config from a reachable database share a tag |
| SubscriptionClient.ChoicesConnect | internal/subscriptions/subscriptions.go:230-265 | with known protocols, the outbound behind each choice of the selector connects to the server and port of its assignment with that assignment's credentials |
| SubscriptionClient.Routes | internal/subscriptions/subscriptions.go:266-289 | for every list, traffic and remote DNS go through the selector over the assignments in order, or direct without any, the lookup of node addresses goes direct, and DNS traffic to the DNS outbound |
| SubscriptionClient.ClientLogsIn | internal/users/repository.go:145-168 | at every enabled node whose payload grants the user access the config has an outbound, and it logs in with exactly the credentials the payload gives the agent |
| SubscriptionClient.ConfiguredIsGranted | internal/users/repository.go:145-168 | a node in the config grants a live user access exactly if the user is enabled and has not expired |
| SubscriptionClient.Unlisted | internal/users/repository.go:162-168 | after the user is unassigned, its assignment switched off, or the node deleted or switched off, no config of the user has the node |
| SubscriptionClient.TagKeepsItsSource | internal/subscriptions/subscriptions.go:461-469 | a tag is made from the agent id, without one from the node's id, without both from its name |
| Text.TrimExactly | internal/telemetry/service.go:380-382 | trimming removes exactly the spaces before the first and after the last other character |
| Text.LowerExactly | internal/subscriptions/subscriptions.go:469-469 | lower-casing replaces the 26 capitals and nothing else |

## Left out

- HTTP, JSON, timeouts, TLS and `AgentClient`: a call ends answered, refused, garbled or unanswered; what remains of it is that a non-2xx reply still returns its body (`internal/nodes/agent_client.go:125-127`), which the stale retry needs.
- PostgreSQL itself: each statement is one atomic step; isolation anomalies and the 64-bit width of the version columns are not modelled.
- Agents are keyed by node row: an edit of `api_url` that points a row at another agent is an edit of the text only.
- The order of users inside a payload (`order by u.username`) is not modelled; an agent holds a set.
- `last_error`, `last_seen_at`, `updated_at` and the texts of error messages.
- Adopting and validating a node (`internal/nodes/manager.go:24-124`) and CheckNodeHealth enter as status-only runs and node edits; SyncAllNodes enters as any number of SyncNode runs.
- CreateWithAssignments enters as its separate inserts: more interleavings than the one transaction allows.
- The timer loop of the reconciler (`internal/users/expiry_reconciler.go:53-69`) and its log lines; its iterations are callers in `ReconcilerLock`.
- Lower-casing and trimming cover ASCII, with the six ASCII spaces; letters outside ASCII whose lower case is ASCII are not modelled, and MaskSecret counts characters, not bytes.
- Fields that are only copied (session quotas, capabilities, the time of the last collection).
- `sort.SliceStable` is replaced by insertion in place; StableSortUnique shows the result is the same.
- The JSON text of the sing-box config, the Hiddify JSON and the plain link lists (`internal/subscriptions/subscriptions.go:298-427`): easy members or string layout.
- The part of a `mierus://` link before the question mark, host sanitising and base64: library behaviour on opaque strings; `mtu` is kept as its decimal text.
- `order by n.name` of a subscription: the config lemmas hold for every order of the assignments.
- Handlers, templates, sessions, tokens, migrations as a mechanism, backup and restore scripts.
