# Identity service: model and proofs

A Dafny model of the hard parts of the Karlo identity service: how a revoked access token stops working everywhere,
how sessions rotate and evict each other, how duplicate companies are merged and placeholders claimed, how the legacy
export becomes companies, accounts and roles, what a company's entitlement lets a person do, and three smaller
algorithms (archiving, the Postgres array text form, the login limiter).

The database, Redis and the clock are explicit state. A statement of SQL is one update of that state, a transaction is
all of its writes or none, and a protocol is a step relation whose runs are arbitrary interleavings. Objects the
service updates in place are classes whose methods are proved against specification functions; the laws are then
proved about those functions and about every run.

`dafny verify dfyconfig.toml` checks the whole project.

| file | what it holds |
|---|---|
| `RevocationList`, `RevocationStore`, `RevocationProtocol`, `RevocationLimits` | the list every service keeps, the durable store, every interleaving of the two, and where the guarantees stop |
| `Sessions`, `SessionProtocol`, `Middleware` | the session table, logins, refreshes and housekeeping interleaved, and the decision on one request |
| `Companies`, `MergeService`, `ShipperService`, `CompanyRuns`, `ClaimRuns`, `MergePointers`, `ClaimParts` | company rows and their unique indexes, merging, recording and claiming shippers, every run of all of these, the pointers they leave, and what falls between the parts of a claim |
| `Seats` | registrations that join a company under its seat limit |
| `ImportWalk`, `ImportIdentifiers`, `ImportPlan`, `ImportRoles`, `Import` | the legacy import, planned and applied |
| `Entitlement`, `Permissions` | what a company holds, what a person may do with it, and what an administrator may save |
| `Archive`, `PgArray`, `LoginLimiter`, `Strings`, `Prelude` | the audit archiver, the array text form, the login limiter, sorting, shared types |

Times are integers in nanoseconds. Token times are whole seconds, rounded down, as sections 4.1.6 and 4.1.4 of
RFC 7519 allow and the JWT library does.

## Main results

- **Revocation.** In every interleaving of publishing, lost or repeated announcements, resyncs, prunes and key expiry a
  refused token stays refused until it expires (`RevocationProtocol.RefusalIsPermanent`), every refusal is justified
  (`RefusalIsJustified`), and what is published is enforced two scan periods later even if every announcement is lost
  (`StaleForTwoPeriods`). These runs are runs of the watch loop (`RunIsWatched`, `WatchRun`), whose every turn does
  what `RevocationStore.Handled` says. End to end: `Middleware.RevokeAllEndsEveryEarlierToken`, and one whole decision,
  `DecisionIff`.
- **Sessions.** With the parts of refreshes and logins interleaved freely, a refresh token is exchanged once exactly as
  long as no two refreshes of its session overlap (`SessionProtocol.EachRefreshTokenWinsOnce`, `ContendedReadWinsTwice`,
  `ContendedRefreshWinsTwice`), and one-device logins leave a person one finished session exactly as long as no step
  doubles for that person, whatever anybody else does: no second refresh reads a one-device session of theirs (a whole
  refresh matters only once the session has finished evicting), and no eviction of theirs crosses the refresh of another
  finished session of theirs (`AtMostOneFinishedSession`, `DoublingLeavesTwo`). Which step ends or opens which session,
  and that nobody else is signed out: `StepEndsIff`, `StepOpensIff`, `OthersStaySignedIn`.
- **Merging and claiming.** With claims in parts under row locks: one success per link (`ClaimRuns.EachLinkClaimsOnce`),
  the unique indexes hold (`CompanyRuns.RunKeepsInv`), every claim that commits makes its company a tenant with one
  administrator (`ClaimRuns.EveryClaimMakesATenant`) that holds exactly the starting modules where nothing was stated
  (`EveryClaimHoldsExactly`), and the exact conditions for acyclic pointers (`MergePointers.StepKeepsAcyclicIff`,
  `RunStaysAcyclicIff`, `PointersNeverCycle`), for a pointer to be final (`StepMovesPointerIff`) and for one hop to be
  enough (`OneHopIsEnoughIff`). Where every transporter of both companies ends, whatever falls between a claim's
  statements (`ClaimParts.EveryClaimMovesLinks`), and exactly which are lost or stranded (`LostIff`) and which people are
  left in the folded company (`LeftBehindIff`).
- **Seats.** `Seats.SeatsNeverExceeded`, and `CountingUnlockedOverfills` without the lock.
- **Import.** `Import.Run`: nobody is widened or narrowed, and every email, username and phone somebody held is signed in
  with by exactly one of them (`ImportPlan.EverybodySignsIn`); `ImportPlan.SameCompanyAsParent`, `OneAdministratorEach`.
- **Permissions.** `Entitlement.PermissionIff`, `RowWorksBetween`, `Permissions.OfferAndSaveAgree`, `SavedKeysWork`.
- **Algorithms.** `Archive.Archiver.Run` with `DeletesOnlyArchivedIff` and `DeletedRowsAreStored`;
  `PgArray.ParsingUndoesPrinting`; `LoginLimiter.AtMostTwiceTheLimit` and `SlidingWindowHolds`.

## Where the code and its documentation differ

The model follows the code in each case.

- `auth_service.go:293-294` says a refresh token is usable at most once. For each token that holds exactly as long as no
  refresh reads its session while another has read it and not finished: `SessionProtocol.EachRefreshTokenWinsOnce` for
  every other run, and `ContendedReadWinsTwice` and `ContendedRefreshWinsTwice` from every state in which one does.
- `auth_service.go:219-225` evicts so that one session is left. For each person it does, except after a step that doubles
  (`SessionProtocol.Doubles`): a refresh reads a one-device session of theirs that another has read, a whole refresh of a
  finished one falls inside another, or an eviction of theirs falls while another finished session of theirs is being
  refreshed. `AtMostOneFinishedSession` covers every run without one; after any such step, from any state, two finished
  sessions can be open (`DoublingLeavesTwo`). Overlapping refreshes of ordinary sessions, and whatever other people do, are
  harmless here.
- `repositories.go:205-207` says a changed password invalidates the sessions issued under the old one. A refresh that has
  already read its session opens an accepted one afterwards (`SessionProtocol.RefreshOutlivesRevokeAll`); with none under
  way, every session stays ended until the person signs in again (`RevokeAllEndsAll`).
- `shipper_service.go:415-417` reads the duplicate of a claim without a lock. A merge of that duplicate can commit before
  the claim writes: the claim then takes its pointer over from the survivor, or the index refuses the claim because the
  survivor took the number (`MergePointers.MergeInsideClaim`, `ClaimTakesThePointerOver`). A claim writes over a pointer
  exactly when its duplicate was merged already and live again at the look-up, or some transaction folded it away since
  (`CommitsOverAPointerIff`).
- `shipper_service.go:426-427` says the duplicate's relationships move across, so that its transporters keep reaching their
  customer. They are copied by one statement and deleted by another (lines 550-560), and nothing is locked there until
  line 564. A transporter that links to the duplicate in between, as recording the number does (lines 136-142), and that
  the claimed company lacks, ends at neither: from any state with a claim past its copy, `ClaimParts.LinkAfterCopyIsLost`.
  One that links after the delete stays with the deleted company. `LostIff` says that these two are exactly those who miss
  out. A merge of the duplicate in between leaves its transporters at both survivors (`MergeAfterCopyKeepsBoth`).
- `shipper_service.go:532-536` says the company folded in never has users. It is counted before anything is locked:
  exactly those who come in afterwards and stay are left in a deleted company (`ClaimParts.LeftBehindIff`,
  `JoinerIsLeftBehind`). Another claim's administrator is one of them: from any state at rest, two claims with one number,
  where the first one's company holds it, both succeed, and the first claimant administers a company that is deleted and
  folded into the second's (`TwoClaimsOfOneNumber`).
- `merge_service.go:236-239` says one hop is enough because merges never chain. They do: nothing asks whether the
  duplicate is itself a survivor. `MergePointers.ChainsForm` builds a chain from any three companies without people, and
  `OneHopIsEnoughIff` says exactly when one hop is enough.
- `cmd/import/plan.go:505-509` writes `deleted_at` from the export, so a second import makes a merged company live again
  with its pointer still set: exactly then a merged company is not deleted (`MergePointers.StepKeepsMergedGoneIff`). Such a
  company, once its people are gone, can be given a link and claimed, and a claim folds in the holder of the number
  whoever that is. If the company leads to it, a cycle closes, and nothing else closes one: `MergePointers.StepKeepsAcyclicIff`
  for every step, `RunStaysAcyclicIff` for runs, and from any state at rest `RevivedClaimClosesACycle`. Claiming a merged
  company that leads elsewhere does no harm.
- `merge_service.go:159-163` says clearing first keeps the unique index satisfied. It does while the duplicate is
  live. A duplicate that was already soft-deleted may carry a number a third live company has taken since, and the
  index then rejects the merge: `MergeService.RejectedIff` is the exact condition.
- `redis.go:91-93` takes every failed read for an expired key. From any state, a read of the one covering entry that
  fails for another reason lets a refused token in again: `RevocationLimits.FailedReadUnrevokes`.
- `redis.go:64` overwrites the key whatever it holds. From any state, an event recorded over the one covering entry that
  does not cover the token lets it in at the next resync: `RevocationLimits.LatePublishUnrevokes`.
- `revocation.go:109-111` says signing in again works at once. Because token times are rounded down, a token minted
  after the cutoff but in the same second is refused too: `RevocationLimits.CutoffRefusesUntilItsSecondEnds`.
- `archive.go:116-121` says a delete removes exactly what was written. It does exactly when no older id of the same
  day was left out of the batch: `Archive.DeletesOnlyArchivedIff`; rows created at one instant on both sides of the
  batch limit lose one (`Archive.TiesCanLoseARow`).
- `module_repository.go:136-185` withdraws a feature in either mode. In revoke mode a row outside its dates is
  filtered out before it is read, so withdrawing it changes nothing: `Permissions.WithdrawalWorksIff`.
- `cmd/import/plan.go:122-124` treats an account on a parent cycle as its own root so that it still imports. It does
  import, but joins no company: `ImportPlan.CompanyIffChainReachesATop`.
- `cmd/import/plan.go:613-615` says distinct sets get distinct roles so that nobody is widened. An existing role of the
  same name keeps its grants-all flag when the import writes over it (lines 647-651), so a person is widened exactly
  where such a role already granted everything: the last clause of `Import.KeyHoldsExactly`.

## Model

| member | source | states |
|---|---|---|
| RevocationList.ApplyAddsCovered | internal/platform/revocation/revocation.go:125-144 | an announcement adds exactly the tokens it covers; a later-arriving earlier cutoff never narrows the list |
| RevocationList.ApplyAllAddsCovered | internal/platform/revocation/revocation.go:146-157 | replaying any announcements refuses what was refused and what any of them covers, in any order and with repeats |
| RevocationList.ReplaceIsTheSpecification | internal/platform/revocation/revocation.go:146-157 | a replaced list refuses a token if and only if one of its events covers it |
| RevocationList.RefusesIffRemembered | internal/platform/revocation/revocation.go:99-123 | every refusal is explained by a remembered announcement that covers the token, and every such announcement refuses it |
| RevocationList.PruneForgetsOnlyOld | internal/platform/revocation/revocation.go:159-181 | pruning forgets an announcement if and only if it is older than the cutoff |
| RevocationList.List.Revoked | internal/platform/revocation/revocation.go:99-123 | the answer is refused if and only if a remembered announcement covers the token |
| RevocationList.List.Apply | internal/platform/revocation/revocation.go:125-144 | in place: afterwards exactly the earlier refusals and the covered tokens are refused |
| RevocationList.List.Replace | internal/platform/revocation/revocation.go:146-157 | in place: the old content is gone and the new list is the specification of its events |
| RevocationList.List.Prune | internal/platform/revocation/revocation.go:159-181 | in place: exactly the announcements older than the longest token life are forgotten |
| RevocationStore.Store.Publish | internal/platform/revocation/redis.go:49-76 | durable write first: a failed write announces nothing and a failed announcement is still recorded; a missing time is stamped |
| RevocationStore.Store.All | internal/platform/revocation/redis.go:78-109 | the cursor loop returns nothing exactly if some page failed, and otherwise exactly the events its reads found |
| RevocationStore.ScanCollectsReads | internal/platform/revocation/redis.go:79-109 | a scan that never fails returns an event if and only if some read of some page found it |
| RevocationStore.Store.Resync | internal/platform/revocation/redis.go:166-173 | after a scan in which a page failed every answer is as it was and the list says it is behind; after any other it refuses exactly what some event read covers |
| RevocationStore.Store.Watch | internal/platform/revocation/redis.go:111-164 | the loop resyncs first; then, turn by turn and for any turns: a message adds exactly what it covers, an unreadable one nothing, a dropped subscription or the timer refuses exactly what a good scan read or changes no answer, a prune forgets exactly what is older than the longest life |
| RevocationStore.TurnIsHandled | internal/platform/revocation/redis.go:132-163 | every turn does to the answers what its kind says, whatever the list held |
| RevocationStore.FirstResyncDecides | internal/platform/revocation/redis.go:111-120 | whatever the list held, after the first good resync it refuses exactly what the store's events cover |
| RevocationProtocol.StepKeepsInv | internal/platform/revocation/redis.go:54-173 | each step keeps: the store holds the latest event of every key for its full life, the list holds only published events, and a scan in progress has answered or will read every event published before it |
| RevocationProtocol.RunKeepsInv | internal/platform/revocation/redis.go:54-173 | the invariant holds in every reachable state |
| RevocationProtocol.RunIsWatched | internal/platform/revocation/redis.go:111-173 | in every run, orderly or not, the list is what the watch loop makes of the turns of that run: deliveries are messages, completed and failed scans its resyncs, prunes its prunes |
| RevocationProtocol.WatchRun | internal/platform/revocation/redis.go:111-164 | so a new list watched through the turns of a run ends as the run does, and what is proved of runs is proved of the loop |
| RevocationProtocol.KeyLivesExactly | internal/platform/revocation/redis.go:54-66 | what is recorded answers reads of its own key for exactly the life of the entry |
| RevocationProtocol.PublishedCanArrive | internal/platform/revocation/redis.go:54-76 | what is recorded can be announced, what is announced delivered, and then exactly what it covers is refused besides |
| RevocationProtocol.AnyScanMayFail | internal/platform/revocation/redis.go:166-173 | any scan under way may fail, and then decides nothing |
| RevocationProtocol.RestartForgets | internal/platform/revocation/redis.go:111-120 | a restarted watcher refuses nothing until its first resync |
| RevocationProtocol.RefusalIsJustified | internal/platform/revocation/redis.go:111-173 | in any run, orderly or not, a refused token is covered by a published event |
| RevocationProtocol.ScanCoversKnown | internal/platform/revocation/redis.go:79-109 | a completed scan refuses every live token covered by what was published when it started; expiry of a key never un-revokes one |
| RevocationProtocol.PruneKeepsLive | internal/platform/revocation/redis.go:160-161 | pruning never lets a live token in again |
| RevocationProtocol.StepKeepsRefusal | internal/platform/revocation/redis.go:132-163 | no step but a restart un-refuses a live token |
| RevocationProtocol.RefusalIsPermanent | internal/platform/revocation/redis.go:54-173 | once refused, refused until the token expires, through losses, repeats, resyncs, prunes and key expiry |
| RevocationProtocol.ResyncCatchesUp | internal/platform/revocation/redis.go:157-173 | everything published before a resync starts is enforced once it completes and stays so, even if every announcement was lost |
| RevocationProtocol.DeliveryIsEnforced | internal/platform/revocation/redis.go:147-155 | a delivered announcement is enforced at once and stays enforced |
| RevocationProtocol.ResyncedListIsExact | internal/platform/revocation/redis.go:166-173 | after a resync with nothing published meanwhile, a live token is refused if and only if a published event covers it |
| RevocationProtocol.StaleForTwoPeriods | internal/platform/revocation/redis.go:111-173 | with a scan started in every period and complete within another, what is published by one instant is enforced two periods later, even if every announcement is lost |
| RevocationLimits.MintedFitsIffRoundedLifeFits | internal/services/auth_service.go:244-291 | no token outlives an entry if and only if the configured life rounded up to a second is at most the entry's |
| RevocationLimits.FloorIs | internal/services/auth_service.go:244-291 | a token time is the last whole second not after the instant |
| RevocationLimits.CutoffRefusesUntilItsSecondEnds | internal/platform/revocation/revocation.go:48-61 | a cutoff refuses a token if and only if its rounded mint time is before it: all earlier ones, and those later in the same second |
| RevocationLimits.LatePublishUnrevokes | internal/platform/revocation/redis.go:54-66 | from any state: an event that does not cover a token, recorded over the only entry that does, lets it in at the next resync |
| RevocationLimits.FailedReadUnrevokes | internal/platform/revocation/redis.go:89-94 | from any state: a failed read of the only covering entry lets the token in at that resync |
| RevocationLimits.PrunedBeforeExpiryIff | internal/platform/revocation/redis.go:160-161 | a prune at the last instant of a token's life keeps refusing it if and only if a remembered covering event is recent enough; a longer token, or one minted after its session event, is let in again |
| Sessions.SessionRepository.Revoke | internal/repository/repositories.go:194-203 | ends that one session, keeps an earlier revocation's time, announces nothing |
| Sessions.SessionRepository.RevokeAllForUser | internal/repository/repositories.go:205-230 | the ids are the same before and after; every open row of the person differs only by when it was revoked, every other row, and every row of anybody else, not at all; counts exactly those, announces one cutoff; a failed publish undoes nothing |
| Sessions.SessionRepository.RevokeOtherSingleDeviceSessions | internal/repository/repositories.go:232-288 | ends exactly the person's other open one-device sessions, records each by its own id and announces each once and nothing else; failing writes and announcements undo nothing |
| Sessions.AuthService.IssueSession | internal/services/auth_service.go:179-242 | succeeds exactly when id and hash are unused; with a limit of one, own or the company's, every other one-device session is ended unless the eviction fails, which is tolerated |
| Sessions.AuthService.Refresh | internal/services/auth_service.go:293-352 | succeeds exactly for an active session of an account in good standing and unused new names; each error has its one condition; only a failure between the two writes has an effect, and ends that session |
| Sessions.AuthService.ValidateToken | internal/services/auth_service.go:354-403 | an opaque key passes exactly if it is listed; a genuine token in its life passes exactly if its one-device session, if it is one, is open and its account is there and in good standing; each error has its one condition |
| SessionProtocol.StepKeepsOver | internal/repository/repositories.go:194-263 | no step reopens a revoked or deleted session |
| SessionProtocol.StepEndsIff | internal/repository/repositories.go:194-288 | a step ends an accepted session if and only if it names it, names its person, evicts it as a rival, refreshes it, or lets it expire; one that stays is unchanged |
| SessionProtocol.StepOpensIff | internal/services/auth_service.go:179-352 | a step opens a session if and only if it is a login or a refresh, which passes on whose it is and of what kind for a whole life |
| SessionProtocol.OthersStaySignedIn | internal/repository/repositories.go:205-288 | ending all of one person's sessions, or their one-device eviction, changes no row and no decision of anybody else's |
| SessionProtocol.SignInWorks | internal/services/auth_service.go:179-242 | a one-device login with unused names goes through, and after its eviction its session is the only one of the person's one-device sessions accepted |
| SessionProtocol.RefreshesOverlap | internal/services/auth_service.go:295-338 | any number of refreshes may read one open session |
| SessionProtocol.SweepDeletesIff | internal/archive/archive.go:155-172 | a sweep deletes exactly what expired, and the second one what was revoked, before its cutoff |
| SessionProtocol.StepKeepsSpent | internal/services/auth_service.go:295-352 | every step but a contended read of its own session keeps a token exchanged at most once, carried by one refresh, and closed once exchanged, refreshes in parts included |
| SessionProtocol.StepKeepsOneLineage | internal/services/auth_service.go:215-225 | every step that does not double for the person keeps one finished one-device session of theirs, counting those refreshes under way will create, and no two refreshes on one of them |
| SessionProtocol.RevocationIsPermanent | internal/repository/repositories.go:194-230 | in every run, refreshes in parts included, a revoked session never opens again |
| SessionProtocol.AtMostOneFinishedSession | internal/services/auth_service.go:215-225 | with refreshes in parts, logins in parts and revocations of everybody interleaved freely, at most one open one-device session of a person has finished evicting, in every run without a step that doubles for that person |
| SessionProtocol.FromTheFirstLogin | internal/services/auth_service.go:215-225 | and so from the empty table on, with nothing assumed of the start |
| SessionProtocol.RunKeepsSpent | internal/services/auth_service.go:295-352 | in every run in which no two refreshes of its session overlap an exchanged token stays spent, whatever overlaps elsewhere |
| SessionProtocol.EachRefreshTokenWinsOnce | internal/services/auth_service.go:293-352 | from the first login on, a refresh token is exchanged at most once in every run in which no two refreshes of its session overlap |
| SessionProtocol.LateRefreshLoses | internal/services/auth_service.go:298-338 | a refresh that reads after another has revoked always loses, whatever interleaves |
| SessionProtocol.ContendedReadWinsTwice | internal/services/auth_service.go:298-338 | from any state: once a refresh reads a session another has read, finishing both exchanges its one token twice |
| SessionProtocol.ContendedRefreshWinsTwice | internal/services/auth_service.go:298-338 | and so does a whole refresh inside another |
| SessionProtocol.DoublingLeavesTwo | internal/services/auth_service.go:215-225 | from any state: after any step that doubles for a person some run leaves two open finished one-device sessions of theirs |
| SessionProtocol.ContendedReadLeavesTwo | internal/services/auth_service.go:298-338 | a one-device session read by two refreshes and then finished by its own eviction goes on in both |
| SessionProtocol.ContendedRefreshLeavesTwo | internal/services/auth_service.go:298-338 | a finished session refreshed as a whole inside another refresh goes on in both |
| SessionProtocol.CrossedEvictionLeavesTwo | internal/services/auth_service.go:215-225 | an eviction that crosses the refresh of another finished session leaves both once the refreshes finish |
| SessionProtocol.RefreshOutlivesRevokeAll | internal/repository/repositories.go:205-230 | from any state: a refresh under way when all sessions are ended still opens an accepted one |
| SessionProtocol.RevokeAllEndsAll | internal/repository/repositories.go:205-230 | with no refresh under way, every session of the person stays ended until they sign in again |
| SessionProtocol.SweptStep | internal/repository/repositories.go:310-317 | a table with inactive rows deleted simulates the full one step by step |
| SessionProtocol.SweptRun | internal/repository/repositories.go:310-317 | and run by run |
| SessionProtocol.HousekeepingChangesNoDecision | internal/repository/repositories.go:310-317 | striking every deletion from a run leaves the same sessions accepted and the same tokens exchanged |
| Middleware.OneDeviceNeedsItsSession | internal/platform/authctx/middleware.go:63-82 | a one-device token is let in if and only if it is valid, its session is active and its account in good standing; the list is not asked |
| Middleware.DecisionIff | internal/platform/authctx/middleware.go:42-84 | the whole decision: nothing passes without a credential or with a token that is forged, nobody's or outside its life; an ordinary token then passes exactly if no remembered event covers it, a one-device token exactly if its session is open and its account in good standing, an opaque key exactly if it is listed |
| Middleware.ReachedIsEnforced | internal/platform/authctx/middleware.go:51-61 | an event that was delivered, or published before a completed resync, refuses every live token it covers |
| Middleware.EndedStaysEnded | internal/repository/repositories.go:205-230 | after ending all of a person's sessions none issued before, swept since or not, is ever open again |
| Middleware.OneDeviceTokenEndsAtOnce | internal/platform/authctx/middleware.go:63-82 | a one-device token issued before is refused from the statement that ends its session on, whatever any list says |
| Middleware.RevokeAllEndsEveryEarlierToken | internal/platform/authctx/middleware.go:42-84 | end to end: once the very event the step announces has reached a service, no token minted earlier for the person passes; a one-device token needs no event |
| Middleware.SigningInAgainWorks | internal/platform/authctx/middleware.go:51-61 | an ordinary token minted in a strictly later second passes |
| Companies.DigitsTwice | internal/services/shipper_service.go:89-96 | normalising a tax number twice changes nothing more |
| Companies.DigitsOfParts | internal/services/shipper_service.go:89-96 | normalising keeps the digits, in their order, and drops everything else |
| Companies.CopyUnites | internal/services/merge_service.go:143-149 | copying links gives the survivor the union and adds exactly the set difference; existing links keep who made them |
| Companies.ClearRemoves | internal/services/merge_service.go:153-155 | clearing removes that shipper's links and no other |
| Companies.FoldAwayKeepsIndexes | internal/services/merge_service.go:178-188 | releasing and deleting in one statement cannot violate the indexes |
| Companies.WriteKeepsTaxUnique | migrations/000014_shipper_identity.up.sql:61-71 | writing one row satisfies the index if and only if the row is deleted or no other live row holds one of its numbers |
| MergeService.StatementsBeforeLastKeepIndexes | internal/services/merge_service.go:132-188 | the indexes hold after each of the first four statements |
| MergeService.RejectedIff | internal/services/merge_service.go:190-206 | the index rejects a merge if and only if the survivor is live, the duplicate already deleted, and a third live company holds a number that would be taken over |
| MergeService.LiveDuplicateNeverRejected | internal/services/merge_service.go:157-206 | with a live duplicate every statement keeps the indexes |
| MergeService.CopyingFirstIsRejected | internal/services/merge_service.go:159-163 | copying the numbers before clearing them is always refused |
| MergeService.DeletedDuplicateCanBeRejected | internal/services/merge_service.go:190-206 | a database where a merge that passes every check is rejected |
| MergeService.TransportersConserved | internal/services/merge_service.go:140-155 | the survivor ends with exactly both companies' transporters, the duplicate with none, everyone else unchanged |
| MergeService.LinksMovedIsTheDifference | internal/services/merge_service.go:140-152 | the reported count is the size of the set difference |
| MergeService.PeopleConserved | internal/services/merge_service.go:132-138 | exactly the duplicate's people change company, and only their company |
| MergeService.DetailsConserved | internal/services/merge_service.go:157-206 | a detail either row knew is known afterwards, the survivor's own winning; other companies are untouched |
| MergeService.MergeFoldsInto | internal/services/merge_service.go:132-206 | what an accepted merge leaves of every table, row by row: the survivor's own details win, the duplicate is released, pointed and deleted, its people and links moved, and nothing else changes |
| MergeService.Merger.Merge | internal/services/merge_service.go:64-234 | refuses for exactly the listed reasons, is all or nothing, and reports how many people and links moved |
| ShipperService.FoldInKeepsIndexes | internal/services/shipper_service.go:550-571 | every statement of folding in keeps the indexes, whatever has become of the duplicate |
| ShipperService.NumberFreeAtLookUp | internal/services/shipper_service.go:413-436 | what the look-up finds is enough at that moment: no third live company holds the number |
| ShipperService.ClaimKeepsIndexesIff | internal/services/shipper_service.go:438-509 | from the statement that records the number on, the indexes hold if and only if no third live company holds it by then |
| ShipperService.InsertRefusedIff | internal/services/shipper_service.go:161-170 | with no live holder of its tax number a new row is refused exactly for its registration |
| ShipperService.ClaimMakesATenant | internal/services/shipper_service.go:438-491 | whatever became of the duplicate, with the row held and nobody in it the company keeps its id, gains the number, spends its link and has exactly one active person, holding a grants-all role; nobody else changes |
| ShipperService.ClaimEntitles | internal/services/shipper_service.go:493-509 | every starting module is stated, enabled unless already stated otherwise, and nothing stated is overwritten; what that entitles to is ClaimedHoldsIff |
| ShipperService.ClaimedLeaves | internal/services/shipper_service.go:438-509 | what a claim leaves of every table but the links: its own row numbered and its link spent, the duplicate folded in, one new person, one role, the starting modules nothing was stated about, grant mode if no mode was stated; no other row appears or changes |
| ShipperService.ClaimedHoldsIff | internal/services/shipper_service.go:493-509 | read as entitlement: the company holds a feature afterwards if and only if it held it before or it is a starting module nothing was stated about and the company is not in revoke mode |
| ShipperService.ClaimedHoldsExactly | internal/services/shipper_service.go:493-509 | with nothing stated before, exactly the starting modules |
| ShipperService.ClaimedTouchesNobodyElse | internal/services/shipper_service.go:493-509 | and every other company holds what it held |
| ShipperService.ClaimConservesTransporters | internal/services/shipper_service.go:550-560 | with no more than the row held, the claimed company ends with both companies' transporters, the other with none, everyone else unchanged |
| ShipperService.Shippers.CreateShipper | internal/services/shipper_service.go:98-197 | succeeds exactly when the input is good and the tax number has a live holder, who is linked to, or the registration has none; each error has its one condition and no effect |
| ShipperService.Shippers.IssueClaimLink | internal/services/shipper_service.go:232-291 | succeeds, for a new token, exactly for a live company without active people; overwrites the earlier link; lasts fourteen days |
| ShipperService.LinkLivesTwoWeeks | internal/services/shipper_service.go:255-291 | a link issued at one instant works for exactly fourteen days |
| ShipperService.Shippers.Claim | internal/services/shipper_service.go:355-529 | a claim with nothing beside it: succeeds exactly when the link is live and in time, neither company has people and the account is free, and each error has its one condition and no effect; what it leaves is spelled out as in ClaimedLeaves |
| CompanyRuns.StepKeepsInv | internal/services/shipper_service.go:366-573 | each merge, statement of a claim, issue, insert, edit, link or re-import keeps the indexes, the locks apart, the rows claims hold and nobody in them from the look-up on, the links a claim has written and not committed its own, and links issued and unspent |
| CompanyRuns.RunKeepsInv | internal/services/shipper_service.go:243-573 | and so does every run, claims in parts and row locks included |
| MergePointers.UnmergedIsAStart | internal/services/shipper_service.go:366-573 | any database whose indexes hold, with nothing merged and no link issued, is a start |
| MergePointers.StepKeepsAcyclicIff | internal/services/shipper_service.go:562-571 | from acyclic pointers, a step of any transaction leaves them acyclic if and only if it is not a claim committing over a duplicate its own company leads to |
| MergePointers.RunStaysAcyclicIff | internal/services/merge_service.go:106-111 | pointers are acyclic throughout a run if and only if no step of it is such a claim |
| MergePointers.PointersNeverCycle | internal/services/merge_service.go:106-111 | in every run without such a claim, re-imports and claims of merged companies included, no pointers return to their start and following them ends at an unmerged company |
| MergePointers.UnmergedNeverCloses | internal/services/shipper_service.go:384-395 | a run in which no merged company is claimed has no such claim |
| MergePointers.UnrevivedRunsAreSound | internal/services/merge_service.go:106-111 | where no import revives a merged company nothing need be asked, and every merged company is deleted |
| MergePointers.StepKeepsMergedGoneIff | cmd/import/plan.go:499-523 | a merged company stops being deleted if and only if an import writes over it undeleted |
| MergePointers.CommitClosesACycleIff | internal/services/shipper_service.go:562-571 | the folded row lies on a cycle after a claim if and only if the claimed company led to it |
| MergePointers.RevivedClaimClosesACycle | cmd/import/plan.go:499-523 | from any state at rest: a merged company imported again and claimed with the number of the company it was merged into points at it and is pointed at by it |
| CompanyRuns.LockedRowKept | internal/services/shipper_service.go:384-389 | nobody but its own transaction changes a row a claim holds |
| CompanyRuns.RowIsWritten | cmd/import/plan.go:499-523 | an insert, an edit or an import writes its one company row as given and nothing else |
| MergePointers.StepMovesPointerIff | internal/services/shipper_service.go:562-571 | a pointer is never cleared and moves if and only if a claim commits over it |
| MergePointers.StaysMerged | internal/services/merge_service.go:106-111 | a merged company stays merged, and its pointer is final in every run in which no claim commits over it |
| MergePointers.CommitsOverAPointerIff | internal/services/shipper_service.go:413-436 | a claim commits over a pointer if and only if its duplicate was merged already at the look-up or some transaction folded it away since |
| MergePointers.MergeInsideClaim | internal/services/shipper_service.go:413-436 | at any part of a claim before it writes, as long as the claim has deleted none of its links, the duplicate can still be merged, and the claim may then go on if and only if the survivor had a number of its own |
| MergePointers.ClaimTakesThePointerOver | internal/services/shipper_service.go:562-571 | and then it takes the pointer over from the survivor |
| MergePointers.MergedIffFolded | internal/services/merge_service.go:178-188 | a company becomes merged in a run if and only if some step folded it away |
| MergePointers.OneHopIsEnoughIff | internal/services/merge_service.go:236-258 | as long as no claim moved the pointer, one hop reaches an unmerged company if and only if the target was not itself folded away later |
| MergePointers.ChainsForm | internal/services/merge_service.go:106-130 | any three live companies, two without people, can be chained by two accepted merges |
| ClaimRuns.EachLinkClaimsOnce | internal/services/shipper_service.go:384-447 | in every run, claims in parts included, a link succeeds at most once |
| ClaimRuns.OnlyTheLastLinkClaims | internal/services/shipper_service.go:240-291 | a claim that may commit still holds the last link issued for its company, however issuing interleaves |
| ClaimRuns.EveryClaimMakesATenant | internal/services/shipper_service.go:384-509 | in every run, whatever fell between its parts, a claim that commits leaves its company live with its id, the number, a spent link, exactly one active person with a grants-all role and every starting module stated; nobody else changes, and every table but the links is left as ClaimedLeaves says |
| ClaimRuns.EveryClaimHoldsExactly | internal/services/shipper_service.go:384-509 | and a company nothing was stated about then holds exactly the starting modules |
| MergePointers.NoFoldedCompanyIsClaimed | internal/services/shipper_service.go:384-395 | where no import revives a merged company, no claim is ever of a company folded away |
| ClaimRuns.ClaimAloneIsSerial | internal/services/shipper_service.go:417-509 | a claim with nothing between its parts writes exactly what the serial claim does |
| ClaimParts.EveryClaimHasParts | internal/services/shipper_service.go:530-573 | in every run, a claim that has written over a duplicate counted its people, copied its links and cleared them, in this order and within one transaction |
| ClaimParts.AddsLinkIff | internal/services/shipper_service.go:183-197 | a step makes a link that was not there if and only if it records it, merges a company with it, or commits a claim that copied it |
| ClaimParts.EveryClaimMovesLinks | internal/services/shipper_service.go:550-560 | whatever falls between: the claimed company ends with its own transporters and those the duplicate had at the copy, the duplicate with those linked since the clear, everyone else with their own |
| ClaimParts.NoDuplicateMovesNone | internal/services/shipper_service.go:430-436 | a claim without a duplicate changes no link |
| ClaimParts.EveryClaimKeepsAuthors | internal/services/shipper_service.go:550-555 | a link that stays keeps who made it |
| ClaimParts.LostIff | internal/services/shipper_service.go:550-560 | a transporter ends at neither company if and only if it linked to the duplicate between copy and clear and was at neither company at the copy; it ends at the deleted duplicate alone if and only if it linked between clear and commit |
| ClaimParts.LinkWasMade | internal/services/shipper_service.go:183-197 | behind every such link there is a step in between that made it: a recording, a merge into the duplicate, or another claim of it |
| ClaimParts.LinkAfterCopyIsLost | internal/services/shipper_service.go:550-560 | from any state with a claim past its copy, a link to the duplicate made now is lost once the claim goes on |
| ClaimParts.MergeAfterCopyKeepsBoth | internal/services/merge_service.go:140-155 | from any state with a claim past its copy, a merge of the duplicate leaves what both copied at both survivors |
| ClaimParts.EntersIff | internal/services/shipper_service.go:537-549 | a step puts somebody into a company if and only if they join it, are merged into it, or claim it |
| ClaimParts.LeftBehindIff | internal/services/shipper_service.go:537-571 | in every run, somebody is left in the folded company if and only if they came in after the count and stayed |
| ClaimParts.JoinerIsLeftBehind | internal/services/shipper_service.go:537-571 | from any state with a claim past its count, whoever joins the duplicate now is left in a deleted company |
| ClaimParts.ClaimSwallowsATenant | internal/services/shipper_service.go:562-571 | a claim that has found a company another claim is taking folds the new tenant away with its administrator in it |
| ClaimParts.TwoClaimsOfOneNumber | internal/services/shipper_service.go:384-571 | from any state at rest, two claims with one number, held by the company of the first, both succeed and leave the first administrator in a deleted company |
| Seats.Registrar.Join | internal/services/user_service.go:134-276 | succeeds exactly with a free seat, free identifiers and a role of that company; each refusal has its one condition and leaves no row; afterwards the limit holds |
| Seats.StepKeepsInv | internal/services/user_service.go:157-185 | each step of any transaction keeps counted-plus-inserted within the limit behind the lock |
| Seats.SeatsNeverExceeded | internal/services/user_service.go:157-185 | in every interleaving a positive limit respected at the start is respected ever after |
| Seats.ASeatIsTakenAndGivenBack | internal/services/user_service.go:134-276 | with a seat left a registration goes through and takes it, one that aborts takes none, and a member who leaves gives theirs back |
| Seats.CountingUnlockedOverfills | internal/services/user_service.go:157-162 | without the lock, from any state with one seat left, a run of two registrations overfills the company |
| ImportWalk.BuildCompanies | cmd/import/plan.go:89-108 | one company per row without a parent, in order; an id names the last company made for it |
| ImportWalk.TopsOfParts | cmd/import/plan.go:89-108 | the rows without a parent, and no others, in their order |
| ImportWalk.WalkUp | cmd/import/plan.go:116-139 | the walk ends on every graph, at the node the walk function names, and reports a cycle or a missing parent exactly when there is one |
| ImportWalk.RootOfStops | cmd/import/plan.go:120-138 | it stops at the top of the chain or at the first node seen twice, and nowhere else |
| ImportWalk.RootOfParent | cmd/import/plan.go:110-140 | the walk from an account and from its parent stop at the same node, unless the account is on a cycle, and then each stops where it began |
| ImportWalk.RootHasNoParentIff | cmd/import/plan.go:128-131 | the walk ends at somebody without a parent if and only if the chain of parents reaches one |
| ImportIdentifiers.ResolveDuplicates | cmd/import/plan.go:225-263 | one winner per contested value, an oldest holder of it; empty values and placeholders have none |
| ImportIdentifiers.OneAccountKeepsEachValue | cmd/import/plan.go:225-263 | with distinct ids a value is kept by at most one account, no younger than any other holder |
| ImportIdentifiers.SomebodyKeepsIt | cmd/import/plan.go:253-261 | every contested value is kept by one of its holders |
| ImportPlan.LegacyKeysOf | cmd/import/plan.go:352-362 | a sorted list without repeats of exactly the keys whose columns are true, in whatever order the table is walked |
| ImportPlan.NobodyIsNamedAdministrator | cmd/import/mapping.go:24-70 | no legacy role value maps to a name like the grants-all role's |
| ImportPlan.Build | cmd/import/plan.go:86-223 | companies, accounts with their company by the walk, their role and staff flag, identifiers by the winners, access rows with exactly the keys held, administrators with none; what the roles and identifiers come to is in the four rows below |
| ImportPlan.PlannedRoleIs | cmd/import/mapping.go:24-70 | a recognised role is kept, a compound gives its second half, anything else is a shipper |
| ImportPlan.StaffIff | cmd/import/mapping.go:24-70 | staff are the two plain values and the compounds that begin with admin, and nobody else |
| ImportPlan.EverybodySignsIn | cmd/import/plan.go:178-188 | whatever email, username or phone an account has is its own row's; every contested value is carried by exactly one of those who hold it, none of them older |
| ImportPlan.SoleHolderKeepsIt | cmd/import/plan.go:225-263 | whoever alone holds a value keeps it |
| ImportPlan.SameCompanyAsParent | cmd/import/plan.go:110-140 | with distinct ids an account and its parent get the same company, or neither gets one |
| ImportPlan.CompanyIffChainReachesATop | cmd/import/plan.go:172-176 | an account gets a company if and only if its chain of parents reaches somebody without one: never on a cycle or under a missing parent |
| ImportPlan.OneAdministratorEach | cmd/import/plan.go:101-108 | each company has exactly one administrator, the person it was made from |
| ImportPlan.RepeatedIdSplitsAFamily | cmd/import/plan.go:95-108 | with a repeated id a child can miss the company its parent keeps |
| ImportPlan.IdentifiersAreUnique | cmd/import/plan.go:178-188 | with distinct ids no two planned accounts share an email, a username or a phone |
| ImportRoles.FreeName | cmd/import/plan.go:636-640 | the numbering loop ends at the first name of the base, two, three and so on that is free in that company |
| ImportRoles.DecimalReads | cmd/import/plan.go:636-640 | the number in a name is written in digits that read as it, without a leading zero |
| ImportRoles.WithAdministratorsIs | cmd/import/plan.go:598-611 | each imported company's administrator role grants everything and is the system's, keeping what it listed; no other role is touched |
| ImportRoles.JoinInjective | cmd/import/plan.go:628-628 | lists of non-empty keys without the separator join alike only if they are one list |
| ImportRoles.CreateRoles | cmd/import/plan.go:613-655 | one role per company and list: named for the job of the first person who needed it, names distinct per company and never the administrator's, each role lists its keys, every other role untouched |
| ImportRoles.AssignRoles | cmd/import/plan.go:657-677 | each person's last row decides: administrators get the grants-all role, others the role of their list, people without a company nothing |
| ImportRoles.Apply | cmd/import/plan.go:598-677 | the two loops together, from any roles that were there before |
| Import.KeyHoldsExactly | cmd/import/plan.go:613-655 | the role behind a key holds exactly the keys held, and grants everything only if a role of that name already did |
| Import.RolesAreShared | cmd/import/plan.go:590-597 | the same, for any two rows of the export |
| Import.EveryoneKeepsWhatTheyHeld | cmd/import/plan.go:657-677 | the same, for any row of the export |
| Import.OnlyCompanylessKeep | cmd/import/plan.go:657-677 | whoever gets no company, or is not in the export, keeps the role they had |
| Import.RolesDoSurvive | cmd/import/plan.go:590-655 | no role is removed, an administrator's role keeps what it lists, and any other is changed only if somebody the import employs ends with it |
| Import.Run | cmd/import/plan.go:86-681 | end to end: companies and identifiers as planned and everybody left with what they sign in with, nobody widened or narrowed, roles shared by equal sets, each company run by its root account, and roles nobody is given left alone |
| Entitlement.FeaturesFor | internal/repository/access_repository.go:368-393 | exactly what the company holds of one product: in revoke mode every sellable, built feature no row in its dates withdraws, otherwise what an enabled row in its dates states, both dates included and an absent one open |
| Entitlement.EntitlementFor | internal/repository/access_repository.go:312-396 | for every product exactly that, and no product with nothing |
| Entitlement.HoldsIff | internal/repository/access_repository.go:312-396 | holding a feature, said from the rows, the two dates and the mode alone |
| Entitlement.RowWorksBetween | internal/repository/access_repository.go:318-327 | in grant mode an enabled row is held from its first day to its last and on no other; in revoke mode a disabled row takes a sellable, built feature away on exactly those days |
| Entitlement.UndatedRowAlwaysWorks | internal/repository/access_repository.go:318-327 | a row without dates counts on every day, and without its row nothing is held in grant mode |
| Entitlement.CutIsQualified | internal/repository/access_repository.go:146-160 | a key is placed under a product if and only if it is that product, a colon and the rest |
| Entitlement.DedupeKeepsMembers | internal/repository/access_repository.go:200-215 | removing repeats keeps every member, once |
| Entitlement.DedupeKeepsFirsts | internal/repository/access_repository.go:200-215 | each once, in the order they first appear |
| Entitlement.Assemble | internal/repository/access_repository.go:135-198 | the access map, equal to the function the permission laws are about |
| Entitlement.RoleKeysAre | internal/repository/access_repository.go:146-160 | a role grants a key in a product if and only if it lists it qualified |
| Entitlement.ExtraKeysAre | internal/repository/access_repository.go:161-163 | extras grant a key if and only if some row of that product lists it |
| Entitlement.PermissionIff | internal/platform/authctx/principal.go:50-82 | platform staff pass; anybody else passes if and only if the product is reached, the key catalogued, granted by role, extras or a grants-all role, and its gate empty or held under the product or shared |
| Entitlement.ReachedIff | internal/repository/access_repository.go:165-181 | a product has an entry if and only if the company holds something of it, or a role key or extras row names it |
| Entitlement.ExtrasOnlyAdd | internal/repository/access_repository.go:217-223 | more extras never take a permission away |
| Entitlement.SharedAloneReachesNothing | internal/repository/access_repository.go:169-181 | a grants-all role in a company holding only shared features reaches nothing |
| Permissions.ActiveForCompany | internal/repository/module_repository.go:34-59 | sorted, exactly what is held under the product or shared |
| Permissions.GrantableFrom | internal/platform/authctx/principal.go:144-154 | offers exactly the catalogued keys that are ungated or whose gate is held, each once |
| Permissions.AssertGrantable | internal/services/user_service.go:590-619 | accepts a list if and only if every key may be assigned; otherwise the first that may not decides the error |
| Permissions.OfferAndSaveAgree | internal/services/user_service.go:590-634 | a list can be saved if and only if every key in it is offered |
| Permissions.UserService.SetPermission | internal/services/user_service.go:388-432 | saves exactly when both are of one company, the other is no administrator and every key may be assigned, and then ends their sessions; each error has its one condition and no effect |
| Permissions.SavedKeysWork | internal/repository/access_repository.go:135-198 | every saved key passes in the next access map, in either mode, while the company holds what it held |
| Permissions.ExtrasAre | internal/repository/access_repository.go:217-223 | a person's extras grant exactly what an enabled row of theirs lists |
| Permissions.ModuleRepository.Revoke | internal/repository/module_repository.go:136-179 | disables the row where it stands, writes one in revoke mode, and otherwise finds nothing and changes nothing |
| Permissions.WithdrawalTouchesOneFeature | internal/repository/module_repository.go:136-179 | a withdrawal changes nothing but the feature it names |
| Permissions.GrantTouchesOneFeature | internal/repository/module_repository.go:99-134 | so does a grant |
| Permissions.WithdrawalWorksIff | internal/repository/access_repository.go:318-327 | it takes effect if and only if not hidden by the date filter in revoke mode |
| Permissions.GrantWorksIff | internal/repository/module_repository.go:99-134 | a grant in force is held if and only if the mode is not revoke or the feature is sellable and built |
| Archive.Archiver.Run | internal/archive/archive.go:72-148 | goes through exactly when the flush of every day does and stops at the first that does not; the files' concatenation is the batch, or the whole days before the stop; one day per file, days strictly increasing; what is gone is what the deletes matched |
| Archive.DayIsItsStart | internal/archive/archive.go:93-148 | a file is filed under the midnight its rows' day began |
| Archive.DeletesOnlyArchivedIff | internal/archive/archive.go:116-121 | a run deletes only what it wrote if and only if no row left out has a lower id on a day it wrote |
| Archive.DeletedRowsAreStored | internal/archive/archive.go:109-124 | at whichever write it stops, a deleted row is in a file already stored |
| Archive.ArchivedRowsAreDeleted | internal/archive/archive.go:109-124 | a row in a file of a run that goes through is matched by its deletes |
| Archive.AlignedIdsLeaveNoStraggler | internal/archive/archive.go:79-85 | with creation times strictly increasing with ids nothing is lost, wherever the limit cuts and whatever arrives |
| Archive.TiesCanLoseARow | internal/archive/archive.go:79-85 | two rows of one instant with the limit between them lose one |
| PgArray.EscapeArrayElem | internal/models/models.go:571-583 | the escaping loop, equal to the function read back below |
| PgArray.Value | internal/models/models.go:535-547 | the printing loop; nil and empty print alike |
| PgArray.ParsePGArray | internal/models/models.go:584-616 | the parsing loop, equal to the reader read back below |
| PgArray.EscapedReadsBack | internal/models/models.go:571-616 | inside quotes an escaped string is read as itself, whatever it holds |
| PgArray.ElementsReadBack | internal/models/models.go:535-616 | elements joined by commas are read back one by one |
| PgArray.ParsingUndoesPrinting | internal/models/models.go:535-616 | parsing undoes printing for every list of strings |
| PgArray.DatabaseFormReadsBack | internal/models/models.go:584-616 | and parsing undoes what the database prints, whichever simple elements it leaves unquoted |
| PgArray.PrintingIsInjective | internal/models/models.go:535-547 | two lists are stored alike only if they are one list |
| LoginLimiter.Limiter.Increment | internal/platform/cache/redis.go:176-198 | counts within a window whose end only its first attempt sets; an expired counter starts again |
| LoginLimiter.Limiter.IsRateLimited | internal/services/auth_service.go:598-622 | the counter decides while the cache is up, the audit log otherwise, and with neither there is no answer |
| LoginLimiter.RecentCounts | internal/repository/repositories.go:517-534 | the log's count is of this identifier's failures strictly within the window |
| LoginLimiter.BudgetHolds | internal/platform/cache/redis.go:185-198 | how many attempts any stretch has admitted, given where the current window started |
| LoginLimiter.AtMostTwiceTheLimit | internal/services/auth_service.go:605-611 | without a success, any stretch one window long admits at most twice the limit |
| LoginLimiter.TwiceTheLimitIsReached | internal/services/auth_service.go:605-611 | and twice the limit is reached |
| LoginLimiter.WindowEndIsFixed | internal/platform/cache/redis.go:176-198 | attempts inside a window never move its end |
| LoginLimiter.LockoutEnds | internal/platform/cache/redis.go:176-198 | the first attempt from the end on is admitted, however many were made before |
| LoginLimiter.SlidingWindowHolds | internal/repository/repositories.go:517-534 | the audit-log fallback, attempts one after another, admits at most the limit in any sliding window |
| Strings.SortedListIsUnique | cmd/import/plan.go:361-361 | one set of strings has one sorted list |

## Left out

- RevokeOtherSingleDeviceSessions: the ids are read and the sessions ended in one step; in between, the source can end a session it has not read and then does not announce it, which changes no decision, because one-device tokens ask the store.
- MintedFitsIffRoundedLifeFits: counts in nanoseconds and models the JWT library's default granularity of one second only.
- RefusalIsPermanent: assumes times published for one key never go back, live keys answer their reads and the watcher does not restart; RevocationLimits shows from any state what the first two prevent, and a restarted service begins with an empty list until its first resync.
- SweptStep: housekeeping cutoffs are never in the future, as the callers' are.
- RunKeepsInv: in the revocation protocol one watcher beside arbitrary store activity stands for all, since watchers never read each other; in the company runs a waiting step is one that is not enabled, so deadlock is not modelled.
- Merge: one step, because it locks both rows before it reads them; the count of people is part of that step, and the audit line written after the commit is not modelled.
- Claim: the serial method is one claim with nothing beside it, and the parts are in CompanyRuns and ClaimParts; there, what falls between a claim's writes and its commit is kept off the rows and numbers it has written. A uniqueness failure on the new account's identifiers is one error, and the claim preview is not modelled.
- EveryClaimMovesLinks: a copy that would wait for a transporter's own row held by another claim is let through, so some runs covered cannot happen; deadlocks, which abort a transaction, are steps that stay disabled.
- EveryClaimMakesATenant: an account put into a company a claim holds waits, because it refers to the row, and no deleted account is brought back, as nothing in the service or the import does.
- Join: only joining a company or none; registering a new tenant, its default entitlement and the extra permissions of an invitation are not modelled, and Adopt and Merge bypass the seat check as in the code.
- CreateShipper: the name arrives trimmed; phone, profile and settings columns are not modelled.
- Build: reading and cleaning the CSV, lower-casing and role cleaning are functions passed in; names, addresses, settings, bank details and the warning counts are not modelled.
- IdentifiersAreUnique: phones are compared before they are cut to 32 bytes, as the planner does, so two longer numbers that agree on 32 bytes are not covered.
- OneAdministratorEach: distinct legacy ids, which the export is meant to have; RepeatedIdSplitsAFamily shows what repeats do.
- Apply: company ids returned by the upsert are stood for by the unique legacy ids they were derived from; accounts whose company was derived from a row with an empty id get no role, as in the code; the array literal the import prints is not modelled (its keys hold neither quotes nor backslashes).
- Run: the archiver's byte count, its key names and Parquet encoding, and the dry run's counts of sessions, are not modelled.
- SetPermission: a revocation that fails after the save, which the service reports, is not modelled.
- WithdrawalWorksIff: one company and one day; who granted and why are not modelled.
- PermissionIff: staffAccess and the join in BuildAccess are not modelled.
- EverybodySignsIn: lower-casing is a parameter; what is asked of it is that it makes nothing out of nothing.
- ClaimedHoldsIff: the rows a claim meets carry no dates, which nothing but a module grant writes.
- The permission catalogue, the feature registry, the legacy permission table and a claim's list of starting modules are parameters, so no law rests on a fixed table.
- HTTP, gRPC, SQL text, S3, logging, RSA signing, bcrypt, SHA-256 and random generation: tokens are unforgeable records, hashes are injective, and new ids and hashes never repeat.
- API-key internals, product access for other products, device tokens and documents: separate features with no protocol of their own.
- Strings are sequences of characters: no Unicode normalisation and no byte lengths.
