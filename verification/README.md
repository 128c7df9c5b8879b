# goauth, verified

A Dafny model of the parts of goauth where correctness depends on more than one
function: refresh-token families under concurrency, the transactional outbox and its
leased delivery, the rank and permission hierarchy, backoff and fixed-window
arithmetic, the consumer-side key cache, and two transformations (the password-hash
text format and the rewriting of duration strings in configuration).

`dafny verify dfyconfig.toml` checks everything.

## How it is built

Each component is modelled in the form its source has.

- What the source does by changing state step by step is a class with methods
  (`SessionTable.Store`, `UserRepo.Repo`, `AdminUsecases.AdminStore`,
  `Limiter.RedisLimiter`, `AuthClient.Verifier`, `WebhookDispatcher.Dispatcher`,
  `OutboxCleaner.Cleaner`), each method tied by its contract to a function of the old
  state.
- What interleaves is a state machine with one step per SQL statement or transaction
  (`RefreshProtocol`, `OutboxOrder`, `OutboxLeases`) and theorems about every run.
  `DispatchSystem` runs any number of dispatchers, each at its own place in its loop,
  and shows their interleavings to be runs of `OutboxLeases`.
- What only computes is a function with lemmas.

Each function that a method or a step is tied to has lemmas that say what it means in the
stored values themselves: which answer exactly when, which column, which row, which time.

The files, by component:

| component | files |
|---|---|
| refresh tokens | `SessionTable`, `RefreshProtocol`, `RefreshTheorems`, `RefreshSteps`, `SessionCleaner` |
| users and their events | `UserRepo`, `UserUpdates`, `OutboxOrder` |
| delivery | `OutboxLeases`, `OutboxTheorems`, `WebhookDispatcher`, `DispatchRefinement`, `DispatchSystem`, `OutboxCleaner` |
| hierarchy | `Hierarchy`, `Directory`, `HierarchyTheorems`, `AdminUsecases`, `AdminAcceptance`, `AdminEffects` |
| timing | `Backoff`, `FixedWindow`, `Limiter` |
| key cache | `AuthClient` |
| transformations | `Decimal`, `Base64`, `Splitting`, `PasswordHash`, `AppConfig`, `DurationKeys` |
| shared | `Common`, `Identity` |

Assumptions throughout: fresh hashes, family ids and uuids; one shared clock that does
not go back; exact times to live; one SQL statement or one transaction is one step,
except in `OutboxOrder`, where a transaction is split and its row lock modelled; an
admin `Execute` is one step.

## Where the code and its comments part

The model follows the code. Each of these has a lemma with a concrete input and one
with the exact condition.

- A comment says the auth time of a rotation is carried from the original login
  (`internal/usecases/auth/auth_token/usecase.go:204-207`). It is the creation time of
  the row just spent (`RefreshTheorems.RotatedAuthTime`): the clock at the login plus
  all the time passed until that row was inserted, so the login's own exactly when the
  clock has not moved between (`RefreshTheorems.AuthTimeIsLoginPlusWaiting`), and where
  rotations take time exactly at a family's first (`RefreshTheorems.FirstRotationIff`).
  `RefreshTheorems.AuthTimeIsNotTheLoginTime` is a run where they differ.
- The session cleaner's comment says a refresh looks at expiry before anything else
  (`internal/usecases/session_cleaner/usecase.go:29-30`). The code looks at reuse first:
  `SessionCleaner.CleaningChangesAnswersOfExpiredRowsOnly` says exactly which answers
  cleaning changes, `SessionCleaner.CleaningSilencesTheAlarm` shows one.
- The lease is said to outlast a delivery attempt
  (`internal/usecases/webhook_dispatcher/usecase.go:53-55`). It outlasts one attempt, not
  a batch: `WebhookDispatcher.LeaseCoversBatchIff` gives the condition and
  `WebhookDispatcher.DefaultLeaseCoversFourEvents` the shipped numbers. When the condition
  fails, "given up" is not final: `OutboxTheorems.LateMarkReopensGivenUp`
  is such a run and `OutboxTheorems.ReopenedIff` says which mark does it.
- The event name of an update is said to spare a consumer from comparing payloads
  (`internal/usecases/admin/admin_user_update/usecase.go:155-157`). It does unless the role
  changes in the same request: `UserUpdates.BlockIsNamedIff`, with such a request in
  `UserUpdates.BlockBehindARoleChange`.
- The ten attempts are said to span several hours
  (`internal/usecases/webhook_dispatcher/config.go:18-20`). The waits between them add up
  to 5110 seconds as shipped, and the hour's ceiling is never reached:
  `WebhookDispatcher.DefaultAttemptsSpan`, and `WebhookDispatcher.DelaysAreGeometric` for
  every setting below its ceiling.
- A repeated forged token is said to cost nothing after the first
  (`pkg/authclient/authclient.go:105-107`). The fetch that proves a kid unknown forgets
  all others, so calls made one after the other remember one kid at most
  (`AuthClient.MemoHoldsOneKid`): a kid stays remembered exactly while calls about others
  bring nothing in (`AuthClient.MemoSurvivesIff`), and two forged kids presented in turn
  ask every time (`AuthClient.ForgeriesTakeTurns`).
- The backoff is described as doubling up to a ceiling
  (`internal/usecases/webhook_dispatcher/usecase.go:92-94`). In 64-bit arithmetic that
  holds for the shipped settings, not for every setting: `Backoff.DelayIsIdealIff` is
  the condition for every setting and exponent, `Backoff.DelayCanCollapse` and
  `Backoff.SaturationCanCollapse` are settings that fail it.

## Model

| member | source | states |
|---|---|---|
| SessionTable.RefreshGranted | internal/usecases/auth/auth_token/usecase.go:176-223 | a refresh is granted exactly for an unspent row before its expiry of an active user; it then spends that row now, adds one unspent row of the same family and user with a full life, touches nothing else and signs the spent row's creation time |
| SessionTable.RefusalsOfRefresh | internal/usecases/auth/auth_token/usecase.go:173-200 | each refusal exactly: unknown iff absent, reused iff spent, expired iff unspent and past its expiry, and a user's absence, block or deletion iff the row could still be exchanged |
| SessionTable.ReplayTakesTheFamily | internal/usecases/auth/auth_token/usecase.go:181-188 | a replayed token takes exactly its family's rows, expired or not; every other refusal changes nothing |
| SessionTable.Store.RefreshGrant | internal/usecases/auth/auth_token/usecase.go:170-223 | refreshGrant run statement by statement with nothing in between is the whole-step function, errors and table included |
| SessionTable.Store.Exchange | internal/usecases/auth/auth_token/usecase.go:202-217 | from any table: exchanges a spendable row, or destroys the family the session belonged to, or on a failed insert leaves the table as it was |
| SessionTable.Store.CreateSession | internal/adapter/postgres/session_repo.go:28-50 | inserts exactly one unspent row, or refuses a taken hash or a missing user and changes nothing |
| SessionTable.Store.GetSessionByRefreshHash | internal/adapter/postgres/session_repo.go:65-71 | finds the row under a hash or reports that there is none |
| SessionTable.Store.SpendSession | internal/adapter/postgres/generated/sessions.sql.go:180-205 | spends exactly a row that is present, unused and unexpired, at this time, and changes nothing else |
| SessionTable.Store.RotateSession | internal/adapter/postgres/session_repo.go:81-119 | spend and insert happen together or not at all; a row that cannot be spent answers reuse |
| SessionTable.Store.DeleteSessionFamily | internal/adapter/postgres/session_repo.go:121-133 | removes exactly the family's rows and counts them |
| SessionTable.Store.DeleteUserSessions | internal/adapter/postgres/session_repo.go:147-157 | removes exactly the user's rows and counts them |
| SessionTable.Store.DeleteExpiredSessions | internal/adapter/postgres/session_repo.go:177-183 | removes exactly the rows past their expiry and counts them |
| SessionTable.Store.Issue | internal/service/tokens/issuer.go:67-88 | a login starts a new family with one unspent row and signs the time of the login; a taken hash or a missing user changes nothing |
| SessionTable.Store.PasswordChange | internal/usecases/auth/auth_password_change/usecase.go:54-101 | accepted, the user's old sessions are gone and the row handed back, of the new family, unspent and signed with now, is the only one, or none if it cannot be inserted; everyone else's are untouched; each refusal is named and changes nothing |
| SessionTable.Store.Revoke | internal/usecases/auth/auth_revoke/usecase.go:39-68 | an unknown session is no error, someone else's is refused, one's own takes its whole family along |
| RefreshProtocol.AppendKeepsHistory | internal/adapter/postgres/session_repo.go:100-110 | a row inserted by a rotation or a login extends its family's chain and breaks no other |
| RefreshProtocol.SpendKeepsRows | internal/adapter/postgres/generated/sessions.sql.go:180-185 | after a rotation only the newest row of the family can be unspent |
| RefreshProtocol.StepKeepsInv | internal/adapter/postgres/session_repo.go:81-157 | every step of every request, admin action and cleaner keeps the invariant: rows match their births, families are chains, and a request past the user check finds its row gone once the user is not active |
| RefreshProtocol.RunKeepsInv | internal/usecases/auth/auth_token/usecase.go:170-223 | so does every run |
| RefreshTheorems.RotationNeedsActiveUser | internal/usecases/auth/auth_token/usecase.go:194-217 | in every interleaving a rotation commits only for a user who is active at that commit, although status was read earlier |
| RefreshTheorems.OneUserPerFamily | schema/schema.sql:71-81 | every row ever created in a family is its first row's user's, and no older than the first |
| RefreshTheorems.FamilyIsOneLinearChain | internal/adapter/postgres/session_repo.go:73-119 | in every reachable state the rows ever created in a family form one chain, each made by spending the one before; one user, at most one unspent row |
| RefreshTheorems.BirthsPersist | internal/adapter/postgres/session_repo.go:81-119 | the record of what was created is never rewritten, so chains only grow |
| RefreshTheorems.DeadFamiliesStayDead | internal/adapter/postgres/session_repo.go:121-133 | a family without rows never has one again, whatever was in flight |
| RefreshTheorems.RevokedForGood | internal/adapter/postgres/user_repo.go:148-254 | after logout-all, a block, a password change or a deletion every later row of the user belongs to a family issued afterwards |
| RefreshTheorems.SucceededIsNotSpendable | internal/adapter/postgres/generated/sessions.sql.go:180-185 | a row that has a successor can never be spent again |
| RefreshTheorems.ExchangedAtMostOnce | internal/adapter/postgres/session_repo.go:73-80 | over a whole run each refresh token is exchanged at most once, however many requests race with it |
| RefreshTheorems.ReuseAnswerIsFinal | internal/usecases/auth/auth_token/usecase.go:181-216 | once a refresh has answered reuse its family is empty for ever |
| RefreshTheorems.ChainInTime | schema/schema.sql:80 | along a chain rows are created in order of time, none before its login |
| RefreshTheorems.RotatedAuthTime | internal/usecases/auth/auth_token/usecase.go:202-208 | a rotated token's auth time is the creation time of the row it spent, in the chain of one login and no earlier than it |
| RefreshTheorems.FirstRotationIff | internal/usecases/auth/auth_token/usecase.go:202-208 | where every rotation takes time, the auth time is the login row's creation time exactly for the first rotation of a family |
| RefreshTheorems.AuthTimeIsLoginPlusWaiting | internal/usecases/auth/auth_token/usecase.go:202-208 | for every run in which a login is accepted, the row spent later inserted and then rotated, the auth time is the login's plus the ticks from the acceptance to that insertion; equal exactly when there were none |
| RefreshTheorems.AuthTimeIsNotTheLoginTime | internal/usecases/auth/auth_token/usecase.go:204-207 | a run in which the second rotation's auth time is five units after the only password check |
| RefreshTheorems.RefreshRunGrants | internal/usecases/auth/auth_token/usecase.go:170-223 | four undisturbed steps from a live row of an active user are a granted refresh |
| RefreshTheorems.AloneIsRefresh | internal/usecases/auth/auth_token/usecase.go:170-223 | with nothing interleaved the protocol's steps add up to the sequential use case, for every presented hash |
| RefreshSteps.ReadingDecides | internal/usecases/auth/auth_token/usecase.go:173-192 | what reading the session decides, in the row's own columns: unknown, reuse, expired, or on to the user |
| RefreshSteps.UserCheckDecides | internal/usecases/auth/auth_token/usecase.go:194-200 | what reading the user decides, status by status |
| RefreshSteps.RotationDecides | internal/adapter/postgres/session_repo.go:81-119 | the rotation commits exactly for a row still present, unspent and unexpired; otherwise the request turns on the family |
| RefreshSteps.ReplayEndsItsFamily | internal/usecases/auth/auth_token/usecase.go:181-188 | a request that reads a spent row can only destroy the family or die; when it does, whatever ran in between, it has answered reuse and the family is gone for good |
| RefreshSteps.LosingTheRaceEndsTheFamily | internal/usecases/auth/auth_token/usecase.go:209-216 | the same for a request whose row was good when read and is spent, expired or gone at the rotation |
| RefreshSteps.NothingWaits | internal/usecases/auth/auth_token/usecase.go:170-223 | no request ever waits for another: each in flight can take its next step in any state |
| RefreshSteps.OldRowAfter | internal/adapter/postgres/session_repo.go:81-183 | over all steps: a stored row is taken exactly by a cleaning past its expiry, its user's revocation, block, deletion or password change, or its family's end, and changes only by being spent |
| RefreshSteps.NewRowAfter | internal/adapter/postgres/session_repo.go:28-119 | a row is added exactly by an accepted login or password change and by a rotation that commits, unspent, made now, with a life counted from the request's start |
| RefreshSteps.StatusAfter | internal/adapter/postgres/user_repo.go:113-254 | statuses change as admins ask and in no other way |
| RefreshSteps.UsersAreIsolated | internal/adapter/postgres/session_repo.go:121-157 | while nothing is done by or against a user, no interleaving of everyone else's requests, reuse alarms included, adds, spends or removes a session of theirs; only expired ones are cleaned away |
| SessionCleaner.StepKeepsSimulation | internal/usecases/session_cleaner/usecase.go:31-37 | each operation keeps the cleaned and the uncleaned table in step: only expired rows are missing, only dead families are extra |
| SessionCleaner.TableAfter | internal/adapter/postgres/session_repo.go:121-183 | what stands in the table after each operation: exactly what it did not take, as it was, and what it added |
| SessionCleaner.RunsSimulate | internal/usecases/session_cleaner/usecase.go:31-37 | over every history |
| SessionCleaner.CleanerIsSafe | internal/adapter/postgres/generated/sessions.sql.go:54-64 | the cleaner takes no live session, and any refresh granted without it is granted with it, with the same result |
| SessionCleaner.CleaningChangesAnswersOfExpiredRowsOnly | internal/usecases/session_cleaner/usecase.go:27-37 | cleaning changes the answer to a refresh exactly when the row is past its expiry; for a spent one the reuse alarm is lost |
| SessionCleaner.CleaningSilencesTheAlarm | internal/usecases/session_cleaner/usecase.go:29-37 | a spent, expired token whose replay takes down a live sibling before the cleaning and is merely unknown after it |
| UserRepo.RowErrorIsExact | schema/schema.sql:44-66 | a user row is refused exactly when writing it would break uniqueness, the identifier check or the role's foreign key |
| UserRepo.RowErrorNames | schema/schema.sql:44-66 | a taken username or email is named first, then a missing identifier or unknown role |
| UserRepo.UpdateWritesColumns | internal/adapter/postgres/user_repo.go:113-143 | column by column: username, email, status and role each become what was given, texts if not empty, and else stay |
| UserRepo.DeleteAndPasswordWriteColumns | internal/adapter/postgres/user_repo.go:223-254 | a soft delete leaves no identifiers, the deleted status and the plain role; a new password changes no announced column |
| UserRepo.Repo.InsertEvent | internal/adapter/postgres/outbox_repo.go:22-36 | an event is written under the next number exactly when there is one and a webhook is configured |
| UserRepo.Repo.CreateUser | internal/adapter/postgres/user_repo.go:26-67 | user and event are written together, empty texts as NULL and with the documented defaults, or neither is; the refusal is the table's |
| UserRepo.Repo.ChangeUser | internal/adapter/postgres/user_repo.go:113-254 | the row as changed, exactly the user's sessions if asked for, and the event carrying the new row are written together, or nothing is and the refusal is named; covers update, update with revocation, password and soft delete |
| UserUpdates.NameAgainstTheRows | internal/usecases/admin/admin_user_update/usecase.go:158-169 | what each event name says about the row before and after, both ways |
| UserUpdates.BlockIsNamedIff | internal/usecases/admin/admin_user_update/usecase.go:155-169 | a block is announced as a block exactly when the role stays the same |
| UserUpdates.BlockBehindARoleChange | internal/usecases/admin/admin_user_update/usecase.go:155-169 | such a request: blocked and made a plain user at once, announced as a role assignment |
| UserUpdates.Write | internal/usecases/admin/admin_user_update/usecase.go:117-141 | each column is what was asked for or as before; leaving the active status removes all of the user's sessions and nobody else's in the same write; any other update leaves sessions alone; one event with the new row |
| OutboxOrder.InsertIsLast | schema/schema.sql:119-122 | an event numbered above its user's others goes to the end of that user's announcements |
| OutboxOrder.RunKeepsInv | internal/adapter/postgres/postgres.go:69-84 | user transactions with row locks, numbers taken before commit and rollbacks keep events and committed states in step |
| OutboxOrder.OutboxTellsTheWholeStory | internal/adapter/postgres/outbox_repo.go:15-36 | in every reachable state a user's events in number order are that user's committed states in order, and replaying the outbox rebuilds the user table |
| OutboxOrder.NoUpdateIsLost | internal/adapter/postgres/postgres.go:69-84 | whatever runs while a change is open, it commits against the very row it was computed from, writes that row changed as asked and no other, and announces exactly it, once, after the user's earlier events |
| OutboxOrder.NoUserIsLost | internal/adapter/postgres/user_repo.go:26-67 | the same for a new user |
| OutboxOrder.OnlyTheLockWaits | internal/adapter/postgres/postgres.go:69-84 | a transaction waits only for the one that has locked its user, and can always go on or roll back |
| OutboxOrder.RollbackLeavesNoTrace | internal/adapter/postgres/postgres.go:69-84 | a rollback frees the lock and leaves users, events and history alone |
| OutboxOrder.ReplayKeepsTheLast | internal/domain/event.go:38-44 | replay leaves a user with their last announced state |
| OutboxOrder.SilentWithoutWebhook | internal/adapter/postgres/outbox_repo.go:22-25 | without a webhook the outbox stays empty |
| OutboxOrder.NumbersDoNotFollowCommits | schema/schema.sql:119-122 | across users the numbers need not follow commit order |
| OutboxTheorems.OldRowAfter | internal/adapter/postgres/generated/outbox.sql.go:15-148 | column by column what each step does to a stored row: the claim's lease, either mark, either cleaner, and nothing else |
| OutboxTheorems.NewRowAfter | internal/adapter/postgres/outbox_repo.go:22-36 | only an insert adds a row, due at once and not tried yet |
| OutboxTheorems.ClaimAfter | internal/adapter/postgres/generated/outbox.sql.go:15-60 | only a claim statement makes claims, one for each row of its batch as it stood; only the claim's own send, mark or crash changes or ends it |
| OutboxTheorems.SendsAfter | internal/usecases/webhook_dispatcher/usecase.go:63-66 | a send adds its attempt number to its own event's record and to no other |
| OutboxTheorems.StepKeepsInv | internal/adapter/postgres/generated/outbox.sql.go:15-148 | claim, send, both marks, insert, clock and both cleaners keep the invariant of disciplined runs |
| OutboxTheorems.RunKeepsInv | internal/adapter/postgres/generated/outbox.sql.go:15-148 | so does every disciplined run |
| OutboxTheorems.DeliveryIsOrderly | internal/adapter/postgres/outbox_repo.go:38-70 | if marks beat their leases, at most one worker holds a row and the attempts sent for an event are 1, 2, 3, … never above the maximum |
| OutboxTheorems.SettledIsFinal | internal/usecases/webhook_dispatcher/usecase.go:68-86 | under that discipline delivered and given up are final: the row stays as it is until cleaned and is never sent again |
| OutboxTheorems.RemovedIsFinal | internal/usecases/outbox_cleaner/usecase.go:37-57 | a removed, unclaimed event stays removed and is never sent again |
| OutboxTheorems.DeliveredIsAlwaysFinal | internal/adapter/postgres/generated/outbox.sql.go:130-148 | delivered is final even if workers die or overrun their leases, and is not claimed again |
| OutboxTheorems.ReopenedIff | internal/adapter/postgres/generated/outbox.sql.go:141-148 | in any state a given-up event is reopened exactly by a failed mark whose claim was not the last attempt |
| OutboxTheorems.LateMarkReopensGivenUp | internal/adapter/postgres/generated/outbox.sql.go:141-148 | a run from the empty outbox in which a worker overruns its lease and its late mark reopens an event already given up |
| OutboxTheorems.EveryEventHasOneFate | internal/usecases/outbox_cleaner/usecase.go:31-57 | every event ever inserted is in exactly one of delivered, given up, pending, removed after settling, removed as stuck |
| OutboxTheorems.BudgetSplits | internal/usecases/webhook_dispatcher/usecase.go:75-80 | the attempts left over all rows are a sum that does not depend on order |
| OutboxTheorems.FailedMarkSpendsBudget | internal/usecases/webhook_dispatcher/usecase.go:75-80 | each failed mark lowers that sum, uses one attempt within the maximum, and gives up exactly at the last |
| OutboxTheorems.FailedMarksAreBounded | internal/usecases/webhook_dispatcher/usecase.go:75-86 | without new events the failed marks of a run number at most the attempts left at its start |
| OutboxTheorems.MarksAreSends | internal/usecases/webhook_dispatcher/usecase.go:68-86 | over any disciplined run the marks of an event are its sends, less the answer still out |
| OutboxTheorems.EventIsMarkedAtMostCapTimes | internal/usecases/webhook_dispatcher/usecase.go:68-86 | over whole runs, new events included, an event is marked at most as often as the maximum of attempts |
| WebhookDispatcher.Dispatcher.First | internal/adapter/postgres/generated/outbox.sql.go:19-26 | finds the due row with the smallest number |
| WebhookDispatcher.Dispatcher.Select | internal/adapter/postgres/generated/outbox.sql.go:19-26 | the batch is the least-numbered due rows, as many as fit, none left out while there is room |
| WebhookDispatcher.BatchIsDue | internal/adapter/postgres/generated/outbox.sql.go:15-27 | a batch in the rows' own columns: undelivered, not given up on, due; one left out only when the batch is full of others numbered no higher |
| WebhookDispatcher.Dispatcher.Claim | internal/adapter/postgres/outbox_repo.go:43-70 | exactly the batch is pushed out by the lease, no other column and no other row changes |
| WebhookDispatcher.Dispatcher.Deliver | internal/usecases/webhook_dispatcher/usecase.go:63-87 | one event is marked once, at the end of its own send, and counted under one heading |
| WebhookDispatcher.Dispatcher.DeliverAll | internal/usecases/webhook_dispatcher/usecase.go:62-89 | the loop's table, clock and counters are those of the recursive description up to the first mark the database refuses, which ends it after its send |
| WebhookDispatcher.Dispatcher.Dispatch | internal/usecases/webhook_dispatcher/usecase.go:56-89 | a batch is claimed and dealt with in order, all of it unless a mark is refused |
| WebhookDispatcher.Dispatcher.Execute | internal/usecases/webhook_dispatcher/usecase.go:48-90 | skipped exactly without a webhook, and then nothing happens; otherwise a claimed batch is marked in order up to a refused mark and the counters are those of what was marked |
| WebhookDispatcher.BatchIsDispatched | internal/usecases/webhook_dispatcher/usecase.go:53-89 | what that leaves, row by row: the batch pushed out by the lease; of its answered events one attempt more, and delivered, or due again at the time of its own answer plus its attempt's delay and given up exactly at the maximum; nothing else changed |
| WebhookDispatcher.PolicyDoublesIff | internal/usecases/webhook_dispatcher/usecase.go:75-76 | for every setting the dispatcher's own limit, and a delay after attempt a of base times 2^(a-1) up to the ceiling exactly where the doubling is harmless |
| WebhookDispatcher.Tally | internal/usecases/webhook_dispatcher/usecase.go:62-89 | delivered, failed and given up add up to the number of events |
| WebhookDispatcher.TallyCounts | internal/usecases/webhook_dispatcher/usecase.go:68-86 | each counter is the number of events that were delivered, failed for good at the maximum, or failed before it |
| WebhookDispatcher.MarkedRow | internal/usecases/webhook_dispatcher/usecase.go:63-80 | each event of a batch is marked exactly once from the row it was claimed with, and later events do not touch it |
| WebhookDispatcher.MarkedInTime | internal/usecases/webhook_dispatcher/usecase.go:53-80 | with sends of at most T, event i is marked by (i+1)T after the claim |
| WebhookDispatcher.LeaseCoversBatchIff | internal/usecases/webhook_dispatcher/usecase.go:53-57 | every mark of an n-event batch beats the lease, whatever the receiver does within the timeout, exactly when n timeouts fit into the lease |
| WebhookDispatcher.LeaseOutlastsOneAttempt | internal/usecases/webhook_dispatcher/usecase.go:53-55 | the lease is two timeouts and thirty seconds cut to whole seconds, and so exceeds two timeouts, for every setting |
| WebhookDispatcher.DefaultLeaseCoversFourEvents | internal/usecases/webhook_dispatcher/config.go:30-38 | as shipped it covers batches of up to four events, and batches hold fifty |
| WebhookDispatcher.DefaultRetryDelays | internal/usecases/webhook_dispatcher/usecase.go:95-101 | as shipped the delay after attempt a is 10 * 2^(a-1) seconds, at most an hour, ten seconds after the first; delays never shrink and ten attempts are the maximum |
| WebhookDispatcher.DelaysAreGeometric | internal/usecases/webhook_dispatcher/usecase.go:95-101 | below the ceiling the delays after the first n attempts add up to one base less than the next |
| WebhookDispatcher.DefaultAttemptsSpan | internal/usecases/webhook_dispatcher/config.go:18-38 | as shipped the waits between the ten attempts add up to 5110 seconds, and none is longer than 2560 |
| DispatchRefinement.EndOfRun | internal/usecases/webhook_dispatcher/usecase.go:48-90 | the ending computed for a list of steps is that of the lease protocol's own run |
| DispatchRefinement.LoopIsARun | internal/usecases/webhook_dispatcher/usecase.go:63-87 | from any event on, with nobody else taking a step and whatever claims others hold, the loop is a protocol run that ends in the loop's table, disciplined exactly when the last answer beats its own lease and everyone else's |
| DispatchRefinement.DispatchIsAProtocolRun | internal/usecases/webhook_dispatcher/usecase.go:48-90 | the same for a whole dispatch, claim included: nobody else takes a step, others may hold any claims, in or past their lease |
| DispatchRefinement.BatchesStayOld | internal/adapter/postgres/outbox_repo.go:38-70 | in every run there can be, disciplined or not, claims bear numbers of claim statements already made |
| DispatchSystem.ActIsAStep | internal/usecases/webhook_dispatcher/usecase.go:48-90 | whatever one of n dispatchers, a writer, the clock or a cleaner does next (claim, send, mark, give an event up, wait, insert, clean) is one protocol step from the same table to the same table |
| DispatchSystem.SystemIsAProtocolRun | internal/usecases/webhook_dispatcher/usecase.go:48-90 | every interleaving of n dispatchers is a protocol run with the same table, clock and history, the protocol's claims being what the workers remember |
| DispatchSystem.WorkersDoNotWait | internal/usecases/webhook_dispatcher/usecase.go:62-89 | no dispatcher ever waits for another |
| DispatchSystem.DisciplinedIff | internal/usecases/webhook_dispatcher/usecase.go:53-57 | such a run keeps the lease discipline exactly when each batch is answered within its own lease and none is abandoned |
| DispatchSystem.PromptIsInTime | internal/usecases/webhook_dispatcher/usecase.go:53-57 | with sends answered within the timeout and batch size times timeout below the lease, every interleaving answers each batch in time |
| DispatchSystem.SystemIsOrderly | internal/adapter/postgres/outbox_repo.go:38-70 | for any number of dispatchers whose batches are answered within their own leases: no event is at two workers, and the attempts sent for an event are 1, 2, 3, … up to the maximum |
| DispatchSystem.SystemLosesNothing | internal/usecases/outbox_cleaner/usecase.go:31-57 | in the same system every event ever written has exactly one fate |
| DispatchSystem.PromptSystemIsOrderly | internal/usecases/webhook_dispatcher/usecase.go:53-57 | the same order and exclusion from the settings alone, however many dispatchers interleave however |
| OutboxCleaner.Cleaner.DeleteOutboxEventsBefore | internal/adapter/postgres/generated/outbox.sql.go:87-98 | a row survives exactly when it is pending or not before the cutoff, survivors are as they were, and the count is of all others |
| OutboxCleaner.Cleaner.DeleteStuckOutboxEvents | internal/adapter/postgres/generated/outbox.sql.go:100-114 | a row survives exactly when it is settled or not before the cutoff, survivors are as they were, and the count is of all others |
| OutboxCleaner.Cleaner.Execute | internal/usecases/outbox_cleaner/usecase.go:37-57 | an event goes exactly when it is settled past the retention or pending past the ceiling, each switched off by a setting that is not positive; the rest is untouched and the counters account for all that went |
| OutboxCleaner.CleaningInTheProtocol | internal/usecases/outbox_cleaner/usecase.go:31-57 | the two deletes are the protocol's two cleaning steps |
| Hierarchy.ValidatePermissions | internal/domain/role.go:72-79 | accepts exactly lists within the vocabulary |
| Hierarchy.HoldsAll | internal/domain/role.go:161-175 | true exactly when everything granted is held |
| Hierarchy.MayPlaceInRole | internal/service/roleguard/guard.go:71-79 | allowed exactly when every permission is known and the actor's own |
| Hierarchy.VocabularyIsAllKnown | internal/domain/role.go:40-79 | the vocabulary is every permission with a name |
| Hierarchy.PlacementRefusal | internal/service/roleguard/guard.go:71-79 | an unknown permission is the reason named before one not held |
| Hierarchy.ManagingHasNoCycles | internal/domain/role.go:130-135 | along any chain of those who may act on the next, below the top, ranks only fall and nobody reaches themselves or an equal again |
| AdminUsecases.AdminStore.ResolveActor | internal/service/roleguard/guard.go:33-44 | the machine counts as a superadmin; a member as the role stored now, if active |
| AdminUsecases.AdminStore.CountActiveSuperAdmins | internal/adapter/postgres/generated/users.sql.go:15-29 | counts exactly the active holders of the superadmin role |
| AdminUsecases.AdminStore.UserUpdateExecute | internal/usecases/admin/admin_user_update/usecase.go:46-141 | the sequence of reads, guards and one write is the use case's step function, every refusal in its order |
| AdminUsecases.AdminStore.UserDeleteExecute | internal/usecases/admin/admin_user_delete/usecase.go:45-94 | likewise for deletion, where an already deleted user is no error |
| AdminUsecases.AdminStore.UserCreateExecute | internal/usecases/admin/admin_user_create/usecase.go:89-143 | likewise for creation and the role it assigns |
| AdminUsecases.AdminStore.SetPasswordExecute | internal/usecases/admin/admin_user_set_password/usecase.go:74-108 | likewise for someone else's password |
| AdminUsecases.AdminStore.RoleCreateExecute | internal/usecases/admin/admin_role_create/usecase.go:49-86 | likewise for a new role, never a system role |
| AdminUsecases.AdminStore.AddPermissions | internal/adapter/postgres/role_repo.go:191-204 | deleting and re-inserting one by one leaves exactly the given set |
| AdminUsecases.AdminStore.RoleUpdateExecute | internal/usecases/admin/admin_role_update/usecase.go:42-90 | likewise for a role, with the rank check before and after |
| AdminUsecases.AdminStore.RoleDeleteExecute | internal/usecases/admin/admin_role_delete/usecase.go:40-67 | likewise for removing a role nobody holds |
| AdminUsecases.AdminStore.SeedRole | internal/adapter/postgres/role_repo.go:167-189 | inserts an absent role, leaves a present one alone, fails on a taken rank |
| AdminUsecases.AdminStore.SeedExecute | internal/usecases/seed_roles/usecase.go:43-77 | both loops together are seeding the built-in roles and then the file's, stopping at the first error |
| AdminUsecases.SeedAllConcat | internal/usecases/seed_roles/usecase.go:43-77 | seeding two lists in turn is seeding their concatenation, errors and counts included |
| AdminAcceptance.UserUpdateAcceptedIff | internal/usecases/admin/admin_user_update/usecase.go:46-141 | an update is accepted exactly when the target exists, the caller is an active member or the machine standing above it and above the role it moves to, does not reassign itself, the identifiers are good and free, and an installation with an active superadmin still has one |
| AdminAcceptance.UserDeleteAcceptedIff | internal/usecases/admin/admin_user_delete/usecase.go:45-94 | a deletion is accepted exactly when the user is deleted already, or the caller is someone else, above them, and an active superadmin remains |
| AdminAcceptance.UserCreateAcceptedIff | internal/usecases/admin/admin_user_create/usecase.go:89-143 | a creation is accepted exactly when its input is good and free and the caller stands above the role it assigns |
| AdminAcceptance.RoleCreateAcceptedIff | internal/usecases/admin/admin_role_create/usecase.go:49-86 | a role is created exactly under a new, well-formed name that is no built-in one, a free custom rank below the caller and permissions known and held by the caller |
| AdminAcceptance.RoleUpdateAcceptedIff | internal/usecases/admin/admin_role_update/usecase.go:42-90 | a role is changed exactly when it is a custom one below the caller and stays so, under a free rank, with permissions the caller may grant |
| AdminAcceptance.RoleDeleteAcceptedIff | internal/usecases/admin/admin_role_delete/usecase.go:40-67 | a role is removed exactly when it is a custom one below the caller that no user row has |
| AdminAcceptance.UserUpdateRefusal | internal/usecases/admin/admin_user_update/usecase.go:46-141 | and which reason is given when several apply |
| AdminAcceptance.UserDeleteRefusal | internal/usecases/admin/admin_user_delete/usecase.go:45-94 | likewise for a deletion |
| AdminAcceptance.UserCreateRefusal | internal/usecases/admin/admin_user_create/usecase.go:89-143 | likewise for a creation |
| AdminAcceptance.SetPasswordRefusal | internal/usecases/admin/admin_user_set_password/usecase.go:74-98 | when a password may be set, and the reason when not |
| AdminAcceptance.RoleCreateRefusal | internal/usecases/admin/admin_role_create/usecase.go:49-86 | likewise for a new role |
| AdminAcceptance.RoleUpdateRefusal | internal/usecases/admin/admin_role_update/usecase.go:42-90 | likewise for a changed role |
| AdminAcceptance.RoleDeleteRefusal | internal/usecases/admin/admin_role_delete/usecase.go:40-67 | likewise for a removed role |
| AdminAcceptance.UnknownTargets | internal/usecases/admin/admin_user_update/usecase.go:47-50 | an unknown user or role is named as such, whoever asks |
| AdminEffects.AcceptedUserUpdate | internal/usecases/admin/admin_user_update/usecase.go:119-138 | an accepted update gives the user exactly the role and status asked for, or those before, keeps the password, and changes nobody else and no role |
| AdminEffects.AcceptedUserDelete | internal/usecases/admin/admin_user_delete/usecase.go:51-88 | an accepted deletion leaves that user deleted and in the plain role, and all else as it was |
| AdminEffects.AcceptedUserCreate | internal/usecases/admin/admin_user_create/usecase.go:105-133 | an accepted creation adds that user with what was asked for and the defaults for the rest |
| AdminEffects.AcceptedSetPassword | internal/usecases/admin/admin_user_set_password/usecase.go:99-108 | an accepted password is set, with role and status as before |
| AdminEffects.AcceptedRoleCreate | internal/usecases/admin/admin_role_create/usecase.go:67-75 | an accepted role has that rank, exactly those permissions and is never a system role |
| AdminEffects.AcceptedRoleUpdate | internal/usecases/admin/admin_role_update/usecase.go:61-81 | an accepted change sets the rank and replaces the permissions where they are given |
| AdminEffects.AcceptedRoleDelete | internal/usecases/admin/admin_role_delete/usecase.go:58-60 | an accepted removal takes that role and no other |
| AdminEffects.SelfService | internal/adapter/postgres/user_repo.go:26-67 | a registration makes a plain active user; the first superadmin is made only while there is none |
| AdminEffects.RefusedDoesNothing | internal/usecases/admin/admin_user_update/usecase.go:46-117 | a refused operation of any kind changes nothing |
| AdminEffects.SeedingLeaves | internal/adapter/postgres/role_repo.go:167-189 | a successful seeding leaves each name with what it was before, else with its first entry, and no other names |
| AdminEffects.SeedingFailsIff | internal/adapter/postgres/role_repo.go:167-189 | seeding fails exactly at an entry whose name is new and whose rank another role has |
| AdminEffects.BuiltInsAfterStartUp | internal/domain/role.go:181-231 | the four built-in roles with their ranks and permissions, where they were not there before |
| AdminEffects.FileRolesAfterStartUp | internal/usecases/seed_roles/usecase.go:55-77 | every role of the file is there after a start-up that succeeds |
| HierarchyTheorems.SeedingNeverOverwrites | internal/adapter/postgres/generated/roles.sql.go:209-235 | seeding changes nothing present and counts exactly what it adds |
| HierarchyTheorems.SeedingTwiceIsSeedingOnce | internal/usecases/seed_roles/usecase.go:40-77 | a second start-up with the same file creates and changes nothing |
| HierarchyTheorems.FirstSeedingLaysTheFloor | internal/domain/role.go:181-231 | on an empty installation seeding establishes the facts the hierarchy rests on, whatever the file adds |
| HierarchyTheorems.StepKeepsFloor | internal/adapter/postgres/role_repo.go:81-189 | every operation keeps distinct ranks, rank 100 and 0 with their owners, existing roles for all users, and never changes a system role |
| HierarchyTheorems.StepKeepsSuperAdmin | internal/usecases/admin/admin_user_update/usecase.go:106-117 | no operation by anyone removes the last active superadmin |
| HierarchyTheorems.TheLastSuperAdminStays | internal/usecases/admin/admin_user_delete/usecase.go:74-88 | over every run, the machine caller included, an active superadmin remains |
| HierarchyTheorems.ActorsStayLow | internal/service/roleguard/guard.go:33-44 | a member of a coalition of rank r never acts with more |
| HierarchyTheorems.UserOpTouchesOneLowUser | internal/service/roleguard/guard.go:60-65 | a user operation by the coalition changes one user, below r before and after |
| HierarchyTheorems.RoleOpTouchesOneLowRole | internal/service/roleguard/guard.go:50-79 | a role operation by the coalition changes one role, below r before and after, and only with permissions of the coalition's own |
| HierarchyTheorems.NoEscalation | internal/domain/role.go:130-175 | what one step keeps contained every run keeps contained |
| HierarchyTheorems.NoCoalitionEscalates | internal/domain/role.go:130-175 | for any r below the top, whatever users of rank at most r do together: nobody and nothing newly reaches r, what was at r or above is unchanged, and roles up to r gain no permission they did not carry between them |
| Backoff.WrapOfMultiple | pkg/ratelimit/ratelimit.go:113-117 | what wrapping leaves of a multiple of 2^j is not positive or at least 2^j |
| Backoff.WrappedExtremes | pkg/ratelimit/ratelimit.go:114 | what wrapping leaves of the two int64 extremes times any base |
| Backoff.DelayIsIdealFrom | internal/usecases/webhook_dispatcher/usecase.go:95-101 | wrapping and clamping equal the unbounded doubling for every exponent when the ceiling is small against the base's factor of two, the first wrapping exponents looked at apart |
| Backoff.DelayIsIdeal | internal/usecases/webhook_dispatcher/usecase.go:95-101 | the same from sizes alone: 2^v divides the base, the base is below 2^b, the ceiling below 2^(64-b+v) |
| Backoff.DelayIsIdealIff | internal/usecases/webhook_dispatcher/usecase.go:95-101 | for every positive base, every ceiling and every exponent, in range of the conversion or not, on either platform: exactly when the code meets the ideal |
| Backoff.DelayOutOfRange | internal/usecases/webhook_dispatcher/usecase.go:96-99 | exponents past the conversion end at the ceiling exactly unless the conversion saturates, the base is odd and base and ceiling do not fit together |
| Backoff.IdealIsMonotone | internal/usecases/webhook_dispatcher/usecase.go:92-101 | ideal delays never shrink and stay between min(base, max) and max |
| Backoff.LimiterDefaults | pkg/ratelimit/config.go:31-42 | the login limiter's shipped settings meet the ideal for every exponent |
| Backoff.DispatcherDefaults | internal/usecases/webhook_dispatcher/config.go:30-38 | so do the dispatcher's |
| Backoff.DelayCanCollapse | internal/usecases/webhook_dispatcher/usecase.go:95-101 | a seventeen-second base whose thirtieth doubling is about one second |
| Backoff.SaturationCanCollapse | internal/usecases/webhook_dispatcher/usecase.go:95-101 | where the conversion saturates, the largest odd base and ceiling end in one nanosecond |
| FixedWindow.AdmitsTheFirstOfEachWindow | pkg/ratelimit/ratelimit.go:47-76 | for every trace exactly the first Limit requests of each window pass |
| FixedWindow.WindowsAreApart | pkg/ratelimit/ratelimit.go:59-65 | windows are fixed: a later one opens no sooner than the earlier one ends |
| FixedWindow.FewerThanTwiceTheLimit | pkg/ratelimit/ratelimit.go:47-76 | at most 2·Limit−1 pass in any half-open interval of one window length |
| FixedWindow.TheBoundIsReached | pkg/ratelimit/ratelimit.go:47-76 | and for every limit that many can |
| Limiter.KeysAreDistinct | pkg/ratelimit/ratelimit.go:136-137 | counters of different kinds or different keys never share an entry |
| Limiter.WaitDoublesIff | pkg/ratelimit/ratelimit.go:108-117 | no delay before the configured failure; from then on the base doubled at each failure up to the ceiling, exactly where the doubling is harmless |
| Limiter.ExpiryIsInvisible | pkg/ratelimit/ratelimit.go:59-65 | whether an expired counter is still stored makes no difference to the next request |
| Limiter.RedisLimiter.Allow | pkg/ratelimit/ratelimit.go:47-76 | the stored counter follows the trace's window and the verdict is the trace's; a key without expiry only counts up; nothing else changes |
| Limiter.RedisLimiter.BackoffLeft | pkg/ratelimit/ratelimit.go:80-92 | left alone, the key opens exactly when the wait handed back is over, neither before nor after |
| Limiter.RedisLimiter.RegisterFailure | pkg/ratelimit/ratelimit.go:98-124 | one more failure on the streak, its life renewed, and from the configured failure on the clamped delay; a store that records a streak at all times records it failed once more; no other key changes |
| Limiter.RedisLimiter.Reset | pkg/ratelimit/ratelimit.go:127-132 | the key starts over as if it had never failed, at all times; every other key's streak and delay and every request counter are as before |
| Limiter.RedisLimiter.PasswordGrant | internal/usecases/auth/auth_token/usecase.go:100-163 | a running delay, and only that, answers before the password is looked at and leaves no trace; unknown account and wrong password count alike; only a login resets; over time the store follows the streak of attempts, login by login |
| Limiter.StreakCounts | pkg/ratelimit/ratelimit.go:94-124 | serial failures within the window count up by one each |
| Limiter.GuessingIsSlow | pkg/ratelimit/ratelimit.go:94-124 | the n-th failed attempt starts no sooner than all delays in between after the first |
| Limiter.RefusalsLeaveNoTrace | internal/usecases/auth/auth_token/usecase.go:100-163 | after any sequence of failing logins the streak is that of those let through alone |
| Limiter.FailingLoginsAreSerial | internal/usecases/auth/auth_token/usecase.go:100-163 | failing logins made one after another, refused ones included, are a serial streak of attempts on the password |
| Limiter.FailingLoginsAreSlow | pkg/ratelimit/ratelimit.go:94-124 | so over any such run of logins the n-th attempt on the password starts no sooner than all the delays in between after the first |
| Limiter.TotalWaitIsIdealSum | pkg/ratelimit/ratelimit.go:108-117 | for every setting that meets the doubling condition those delays add up to the sum of the unbounded doubling ones |
| Limiter.DefaultWaits | pkg/ratelimit/config.go:31-42 | as shipped those delays add up to 1 + 2 + 4 + … seconds, each at most sixty, from the third failure on |
| Limiter.AGuessAMinute | pkg/ratelimit/config.go:31-42 | as shipped every guess past the ninth costs a minute |
| AuthClient.VerifyDecides | pkg/authclient/authclient.go:127-158 | each decision exactly, for every cache and every behaviour of the server: the signature is checked iff the kid is in the keys left after the stale fetch or in the second answer; a failed fetch is reported iff there are no keys at all or a granted second fetch fails; unknown otherwise |
| AuthClient.VerifyLeavesKeys | pkg/authclient/authclient.go:127-158 | the cache afterwards is what the call brought in last, at its time, or as it was |
| AuthClient.VerifyLeavesMemo | pkg/authclient/authclient.go:282-332 | whatever is brought in forgets the memo, and at most the call's own kid is in the new one |
| AuthClient.VerifyLeavesBudget | pkg/authclient/authclient.go:261-280 | the minute's budget is charged exactly when an unknown kid is let through |
| AuthClient.StaleKeysServeOn | pkg/authclient/authclient.go:137-142 | a server that is down takes nobody's keys away: a cached kid is decided as before however old the cache |
| AuthClient.VerifyKeepsInv | pkg/authclient/authclient.go:127-158 | whatever the server answers: memoised kids are not cached keys, the memo stays bounded, a signature is checked only with the cached key of that kid |
| AuthClient.DecisionIsFreshMembership | pkg/authclient/authclient.go:127-158 | with successful fetches the decision is membership in a key set younger than the refresh interval, also from the memo or a spent budget |
| AuthClient.CacheIsTheLastFetch | pkg/authclient/authclient.go:295-332 | over every run, whatever fails, the cache is what the last successful fetch brought, at its time |
| AuthClient.EveryDecisionIsALookup | pkg/authclient/authclient.go:127-158 | over every sequence of calls and failures each call that reports no failed fetch decides as a lookup in what the last successful fetch brought, less than a refresh interval ago unless this call tried to renew it and failed |
| AuthClient.CacheRefinesLookup | pkg/authclient/authclient.go:127-158 | with a server that answers no call fails, and each decides as a lookup in a set fetched less than a refresh interval ago |
| AuthClient.MemoHoldsOneKid | pkg/authclient/authclient.go:282-332 | over every run the memo holds one kid at most, whatever its configured size |
| AuthClient.MemoSurvivesIff | pkg/authclient/authclient.go:282-332 | after a call about another kid, a forged one is remembered exactly when it was before and the call brought nothing in |
| AuthClient.RememberedIsFree | pkg/authclient/authclient.go:261-268 | while it is remembered and the keys are not stale, a forged kid is refused for nothing |
| AuthClient.ForgeriesTakeTurns | pkg/authclient/authclient.go:261-332 | two forged kids presented in turn ask every time |
| AuthClient.BudgetFollowsAsks | pkg/authclient/authclient.go:261-280 | whatever the server does, the budget depends only on when unknown kids were asked about |
| AuthClient.BudgetIsFixedWindow | pkg/authclient/authclient.go:261-280 | and is a fixed-window counter of one minute |
| AuthClient.GrantIsAdmission | pkg/authclient/authclient.go:261-280 | a grant is an admission of that counter |
| AuthClient.GrantOfCall | pkg/authclient/authclient.go:127-158 | a call is granted a fetch exactly when the trace of asks says so |
| AuthClient.RunIsThrottled | pkg/authclient/authclient.go:261-280 | over any run fewer than twice the configured refreshes are granted in any minute |
| AuthClient.Verifier.constructor | pkg/authclient/authclient.go:67-80 | starts empty; zero settings take their defaults |
| AuthClient.Verifier.Refresh | pkg/authclient/authclient.go:295-332 | a successful fetch replaces keys, time and memo together, a failed one nothing |
| AuthClient.Verifier.MayRefreshFor | pkg/authclient/authclient.go:261-280 | a memoised kid costs nothing; otherwise the budget decides and is charged |
| AuthClient.Verifier.RememberUnknown | pkg/authclient/authclient.go:282-293 | a full memo is dropped before the new kid is kept |
| AuthClient.Verifier.VerifyToken | pkg/authclient/authclient.go:127-158 | the statements run in order are the decision function, state included |
| Splitting.SplitJoinIff | pkg/appconfig/appconfig.go:99 | joined pieces come apart again exactly when none holds the separator |
| Splitting.JoinSplit | pkg/passwordhash/passwordhash.go:127 | splitting loses nothing |
| Decimal.ScanPrinted | pkg/passwordhash/passwordhash.go:132-143 | a printed number within range scans back to itself, up to the first non-digit |
| Decimal.TooLargeIsRefused | pkg/passwordhash/passwordhash.go:140-143 | a number too large for its field is refused |
| Decimal.SignedScan | pkg/passwordhash/passwordhash.go:132-135 | the version field takes a sign |
| Decimal.NoDigitsNoNumber | pkg/passwordhash/passwordhash.go:140-143 | a cost that begins with no digit, a sign included, is no number |
| Decimal.BlanksAreSkipped | pkg/passwordhash/passwordhash.go:132-143 | blanks before a number do not matter |
| Base64.RoundTrip | pkg/passwordhash/passwordhash.go:85-86 | every byte string survives unpadded base64 |
| Base64.StandardAlphabet | pkg/passwordhash/passwordhash.go:85-86 | the letters of the standard alphabet, in order |
| Base64.BitsInOrder | pkg/passwordhash/passwordhash.go:85-86 | the bits of three, two and one bytes in the bits of their letters, highest first, padded with zeros |
| Base64.EncodeInThrees | pkg/passwordhash/passwordhash.go:85-86 | longer strings are encoded three bytes at a time |
| Base64.DropsNewlinesOnly | pkg/passwordhash/passwordhash.go:145-152 | decoding skips line breaks and nothing else |
| Base64.AcceptsExactlyEncodings | pkg/passwordhash/passwordhash.go:145-152 | strict decoding accepts exactly the encodings, line breaks aside |
| PasswordHash.CostsRoundTrip | pkg/passwordhash/passwordhash.go:140-143 | the three cost parameters scan back for all their values |
| PasswordHash.FormatIsPhc | pkg/passwordhash/passwordhash.go:82-87 | what is stored, character by character: algorithm, version 19, the three costs, salt and key |
| PasswordHash.ShippedParams | pkg/passwordhash/passwordhash.go:40-48 | as shipped 64 MiB, three passes, two lanes, sixteen bytes of salt and thirty-two of key, and all of it read back from a hash |
| PasswordHash.DecodeCases | pkg/passwordhash/passwordhash.go:126-158 | any text at all: which are hashes, and which refusal the others get |
| PasswordHash.MalformedIsAnError | pkg/passwordhash/passwordhash.go:93-124 | a text that is no hash is an error to verify and due for replacement |
| PasswordHash.OtherVersionsAreIncompatible | pkg/passwordhash/passwordhash.go:136-138 | a hash of another version is told from a malformed one |
| PasswordHash.HashRoundTrip | pkg/passwordhash/passwordhash.go:82-158 | for all parameters, salts and keys, parsing a printed hash gives them back |
| PasswordHash.VerifyOwnHash | pkg/passwordhash/passwordhash.go:93-105 | a hash accepts the password it was made from, and another exactly when the derived key is the same |
| PasswordHash.RehashExactlyWhenWeaker | pkg/passwordhash/passwordhash.go:116-124 | a hash needs replacing exactly when one of its costs is below today's, so never under the settings that made it |
| PasswordHash.FormatIsInjective | pkg/passwordhash/passwordhash.go:82-87 | two hashes print alike only if salt, key and costs are alike |
| AppConfig.OnePath | pkg/appconfig/appconfig.go:112-134 | walking one path is rewriting the tree at that path, or failing exactly when a string there is no duration |
| AppConfig.RewriteTwice | pkg/appconfig/appconfig.go:97-107 | rewriting in two rounds is rewriting at the union of the paths |
| AppConfig.WhatBecomesOf | pkg/appconfig/appconfig.go:109-152 | what stands at every path afterwards: a string is replaced exactly when its path is named and it parses; all else keeps its place |
| AppConfig.OffThePaths | pkg/appconfig/appconfig.go:109-134 | a subtree no named path runs into is unchanged |
| AppConfig.OrderDoesNotMatter | pkg/appconfig/appconfig.go:97-107 | any visiting order, repeats included, has the outcome of all paths at once |
| AppConfig.Confluent | pkg/appconfig/appconfig.go:97-107 | two orders of the same paths agree on success and on the tree |
| AppConfig.TheNameReportedDependsOnTheOrder | pkg/appconfig/appconfig.go:101-103 | which of two faults is reported does depend on the order |
| AppConfig.Idempotent | pkg/appconfig/appconfig.go:91-107 | normalising twice is normalising once |
| AppConfig.NoStringLeft | pkg/appconfig/appconfig.go:91-96 | after success no string stands where a duration is wanted |
| AppConfig.NormalizeDurations | pkg/appconfig/appconfig.go:97-107 | the loop over Go's unordered map: succeeds with the rewritten tree, or names the last segment of a path at fault |
| DurationKeys.DurationKeys | pkg/appconfig/appconfig.go:160-201 | the keys are exactly the paths that lead to a duration field, joined by dots |
| DurationKeys.FieldKeys | pkg/appconfig/appconfig.go:168-199 | the same for one field: unexported, embedded, renamed, hidden, duration, nested |
| DurationKeys.NamesOfFields | pkg/appconfig/appconfig.go:170-187 | a field is called by its tag up to the comma, else by its own name; unexported and dashed ones are not there |
| DurationKeys.KeysOfStructs | pkg/appconfig/appconfig.go:176-199 | an embedded struct lends its keys, a nested one puts its name and a dot before them |
| DurationKeys.PointersToDurations | pkg/appconfig/appconfig.go:188-192 | one pointer to a duration is looked through, not two |
| DurationKeys.SegmentsAreThePaths | pkg/appconfig/appconfig.go:98-99 | splitting the keys gives every path back exactly when no name holds a dot |
| DurationKeys.Section | pkg/appconfig/appconfig.go:76-89 | with dot-free names the section fails exactly when a duration field holds a string that is none; otherwise every such field is rewritten and the rest untouched |

## Left out

- HTTP handlers, routing, middleware, cookies, CORS, logging and wiring: transport only. The hierarchy theorems are about each `Execute` with the acting user as an input; the role handlers do not fill it in (`internal/usecases/admin/admin_role_create/http_v1.go:20-39`), so nothing is claimed for roles end to end over HTTP.
- List, get, settings and health use cases, audit trimming, the cron loop, client addresses, key-set rendering: one query or one rendering each, with no state or property across calls beyond what is modelled.
- Database, network and uuid-parsing errors: every statement succeeds or fails for the reason modelled. Other columns (address, user agent, last login) are not modelled.
- Isolation below one statement or transaction, and the row order of `UPDATE … RETURNING`: a claimed batch is the least-numbered due rows in some order.
- Interleaving inside one admin `Execute`: the superadmin count and the write after it are one step.
- Cryptography: argon2 is a function parameter; Ed25519, JWT parsing, SHA-256 and random tokens appear only as freshness and equality of hashes.
- Delivery order at the receiver: retries reorder events, so only the stored order is claimed.
- `seed_super_admin` and registration: steps of the hierarchy's state machine, without a method of their own.
- SessionTable.Store.Revoke: a session is addressed by its hash here and by its uuid in the source; both are unique.
- SessionTable.Store.PasswordChange: takes the verdicts on the old and the new password as inputs, the first from argon2 and the second from a length check.
- AdminUsecases.AdminStore.UserUpdateExecute: whether the given identifiers are well formed and free is an input, because their patterns depend on libraries outside the model; the write itself is `UserUpdates.Write`.
- AdminUsecases.AdminStore.UserCreateExecute: identifier and password checks are one input, for the same reason.
- AdminUsecases.AdminStore.RoleCreateExecute: role names are taken as already trimmed and lower-cased.
- Limiter.RedisLimiter.Allow: does not model Redis failures, nor the rounding of times to live below a second.
- Limiter.RedisLimiter.PasswordGrant: the branch taken when Redis cannot be reached is not modelled.
- WebhookDispatcher.Dispatcher.Execute: a lease of more than 2^31 seconds is not modelled.
- DispatchSystem.PromptSystemIsOrderly: a worker's own statements take no time; only the wait for an answer does.
- WebhookDispatcher.LeaseCoversBatchIff: marks take no time of their own.
- AuthClient.Verifier.VerifyToken: calls run one after the other; two at once may each keep a kid in the memo. Parsing the token and checking its signature and claims are the library's.
- PasswordHash.HashRoundTrip: of the white space scanning skips only the ASCII blanks are modelled, which concerns hashes this package did not print.
- AppConfig.NormalizeDurations: works on parsed trees; key order and spacing of the re-encoded text are not modelled, and parsing a duration is a function parameter.
- DurationKeys.DurationKeys: types are finite trees, so a struct that contains a pointer to itself is outside the model.
