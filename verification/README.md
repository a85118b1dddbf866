# Second-hand market: a verified model

A Dafny model of the second-hand market backend in `secure-coding/app` and of the packet printer in
`pcap_programming`, with proofs about every interleaving of its requests and about whole runs.

The backend is a set of request handlers over one SQLite file, an upload directory, a session store
and two in-memory tables. A handler reads without a transaction, decides, and then writes, either
with one autocommit statement or inside `BEGIN IMMEDIATE` ... `COMMIT`. What it decided on may be out
of date by the time it writes; most of the theorems say what holds nevertheless.

Verify everything with `dafny verify dfyconfig.toml`.

## How the model is built

| file | what it models |
|---|---|
| `Schema.dfy` | the tables of `schema.sql`, every writing SQL statement as a function that yields new tables or raises, and the units of work the handlers compose from them |
| `Engine.dfy` | requests as processes advancing one statement at a time under SQLite's single writer lock; serializability |
| `Checks.dfy` | the check phases, condition by condition over the columns; where every unit of work comes from |
| `Ledger.dfy`, `DoubleSpend.dfy` | balances, conservation, overflow, and how many of N simultaneous transfers go through |
| `Sanctions.dfy` | reports, counters, automatic blocking and dormancy, admin resets |
| `Admins.dfy` | the last active admin, statement by statement |
| `Images.dfy`, `Orphans.dfy` | product rows and image files, with each read, save, write and unlink a separate step; exactly which files are left behind |
| `Joint.dfy` | the two concurrent models in one run over the same tables |
| `Handlers.dfy` | the handlers themselves as methods of a class, tied to the functions the two concurrent models use |
| `Chat.dfy`, `LoginLock.dfy` | the two time-window throttles, as classes and as runs of calls |
| `Sessions.dfy` | login, logout, password change, session epochs and session id rotation, requests served whole |
| `Inbox.dfy` | the inbox query against the conversation filter |
| `Packets.dfy` | header and payload arithmetic of `got_packet`, and frames as the RFCs lay them out |

Conventions:

- Identifiers (UUIDs, random file names, session ids) are numbers compared for equality; a new one has
  never been drawn before. Clocks are real numbers that do not run backwards.
- A single SQL statement is atomic, `BEGIN IMMEDIATE` gives one writer, and `ROLLBACK` returns to the state
  before `BEGIN`. Waiting for the lock in vain raises outside the `try`, so nothing is rolled back.
- `History` in `Schema.dfy` is bookkeeping no statement reads: opening balances, sellers of deleted
  products, counts wiped by resets, automatic sanctions. The theorems are stated with it.
- Password verification, image decoding, form parsing and the session store's choice to keep an old entry
  are parameters, so every theorem holds whatever they answer.
- `REPORT_THRESHOLD` and `REGISTER_BONUS` are parameters too (`Config`).

Places where the code does less than one might expect, each with a run that shows it and the exact condition
under which it does it all:

- Image files can be left behind when two edits of one product overlap (`Orphans.OrphanReachable`). A file that
  an edit or deletion supersedes, and that no other request has read, goes if and only if the request had read
  that very file (`Orphans.SupersededFileGoes`); a saved one stays for ever if and only if its INSERT or UPDATE
  does not reach a row (`Orphans.SavedFileStays`). A whole run leaves exactly the files without an unlink that was
  carried out, and there is an unlink, carried out or failed, for exactly the files that an edit or deletion that
  went through had read (`Orphans.LeftBehindExactly`). Requests served one at a time, every write committing and
  every unlink succeeding, leave none (`Orphans.SerialDirectoryExact`).
- Two admins who suspend each other at the same time leave no active admin (`Admins.NoAdminLeft`). One remains if
  and only if no suspension hits, when it is written, the only one there is (`Admins.LastAdminExactly`,
  `Admins.AdminRemains`), and one that does was asked for by an admin who has been suspended himself since he was
  admitted (`Admins.StrikerWasStruck`); requests served whole never do that (`Sessions.AdminStaysActive`).
- A password change written after others that it had not read can bring the epoch back: a session's sv is above it
  and a dead session authenticates again (`Sessions.StaleChangeRun`). What such a write keeps, each with its own
  exact condition: sv within the epoch, if and only if no session of the user that stays has a higher one than is
  written (`Sessions.LateChangeSound`); a dead session dead, if and only if it is not one of those with an sv at
  or above it (`Sessions.LateChangeDead`); the re-issued session alone, if and only if no other of those carries
  exactly it (`Sessions.OneSessionExactly`). Changes served whole keep all three (`Sessions.EpochsBounded`,
  `Sessions.DeadForGood`, `Sessions.OneSessionAfterChange`).
- The login lock does not last the whole `LOCK_WINDOW`: `int()` rounds the last second down to no wait
  (`LoginLock.FinalSecondOpen`); it is on exactly up to `LOCK_WINDOW - 1` (`LoginLock.LockedExactly`). While it is
  on, the password is not looked at (`LoginLock.LockedBeforeVerification`).
- The chat limit counts acceptances, so by created_at one message more can fall into a stretch of windows
  (`Chat.OneStampMore`); exactly as many more as were in flight at its start, less those in flight at its end
  (`Chat.StampsConserved`).
- A threshold below 1 breaks the block-at-threshold equivalence (`Sanctions.ThresholdMustBePositive`), which
  holds for all thresholds from 1 on (`Sanctions.MarkedAtThreshold`). The other results on reports hold for any.

## Model

| member | source | states |
|---|---|---|
| Schema.PayMeaning | secure-coding/app/blueprints/transfer.py:48-62 | A payment moves exactly the amount from sender to receiver and records one row, or is refused as insufficient exactly when the balance does not cover it and changes nothing |
| Schema.PayFrame | secure-coding/app/blueprints/transfer.py:50-62 | However a payment ends, it touches nothing but balances and the transfers table |
| Schema.ReportMeaning | secure-coding/app/blueprints/reports.py:67-80 | A report is stored, counted and sanctioned together, or a second report or a vanished target leaves every table unchanged, each with its own error |
| Engine.Serializable | secure-coding/app/db.py:51-61 | For every interleaving of any number of requests: the committed tables are those of running the logged units of work one after the other, each alone, with the outcome its request was given and the facts its check phase had established |
| Engine.LogComplete | secure-coding/app/db.py:55-61 | That serial order holds each request that committed or rolled itself back exactly once, and no request that is under way, gave up on the lock or was interrupted |
| Engine.StepKeeps | secure-coding/app/db.py:51-61 | Every step of every request keeps the invariant that ties open transactions to the committed tables and the log |
| Engine.DecisionAdmissible | secure-coding/app/blueprints/reports.py:46-59 | What the check phase lets through is a payment to somebody else within the limits or a report on somebody else's target, facts no later write can undo |
| Checks.PaymentDecided | secure-coding/app/blueprints/transfer.py:23-45 | A transfer form comes to a payment of this amount to this receiver if and only if the amount is between 1 and 1000000000 and the receiver is the active account of the name given, other than the sender |
| Checks.ReportDecided | secure-coding/app/blueprints/reports.py:36-65 | A report form comes to a report on exactly the target named if and only if there is a reason, the target exists and is neither the reporter nor his product |
| Checks.ToggleDecided | secure-coding/app/blueprints/admin.py:54-65 | Toggling another existing account restores it if it is dormant and makes it dormant if not; oneself, never |
| Checks.PaymentWasChecked | secure-coding/app/blueprints/transfer.py:17-45 | In any run every payment on its way was admitted for its sender, active and with the account's epoch at that moment, and then checked at a state in which its receiver was the active account of the name in the form |
| Checks.ReportWasChecked | secure-coding/app/blueprints/reports.py:30-59 | In any run every report on its way was admitted for its reporter, logged in at that moment, and then checked at a state in which its target existed and was somebody else's |
| Checks.AdminActWasAdmitted | secure-coding/app/blueprints/admin.py:41-66 | In any run every reset and every suspension on its way was admitted as the request of somebody who was an active admin at that moment, and is the one his form asked for |
| Checks.ServedIsARun | secure-coding/app/db.py:44-61 | From any state with the lock free a request's own steps lead to its end: it is turned away, or its unit of work has the effect and outcome it has alone |
| Engine.AloneGrows | secure-coding/app/schema.sql:7-32 | No unit of work removes an account, changes a username, an admin flag or a product's seller, or lets two accounts share a username |
| Ledger.LedgerHolds | secure-coding/app/blueprints/transfer.py:47-62 | At every step of every interleaving each balance is the opening balance plus receipts less payments, no prefix of the transfers overdraws anybody, and the committed total is the total handed out |
| Ledger.PaymentsAllOrNothing | secure-coding/app/blueprints/transfer.py:48-62 | At its place in the serial order of any run a payment moves exactly its amount and is recorded if the sender's balance there covers it, and otherwise is refused and changes nothing, whatever amounts and receipts there are besides |
| Ledger.PaymentUnderWay | secure-coding/app/blueprints/transfer.py:50-57 | The transaction's own view is short by the amount exactly between debit and credit, and every balance it sees lies between zero and the total handed out |
| Ledger.BalancesFit | secure-coding/app/schema.sql:7-17 | In every state of every run each balance is between zero and the largest signed 64-bit integer while accounts times sign-up bonus is |
| Ledger.CreditFits | secure-coding/app/blueprints/transfer.py:56-57 | In every transaction that stands before its credit the sum the credit computes is in the signed 64-bit range while accounts times sign-up bonus is |
| Ledger.AloneKeepsBalanced | secure-coding/app/schema.sql:46-53 | Every unit of work of any handler keeps the four ledger facts |
| DoubleSpend.NoDoubleSpend | secure-coding/app/blueprints/transfer.py:50-55 | From any reachable state, while u sends a points at a time and receives none, requests already under way included, and with anything else going on in any interleaving: at every point of the run the payments made are min(payments made plus refusals, starting balance div a) and the balance is down by exactly those; once none of u's transfers is under way they are min(transfers that passed the checks less those that gave up on the lock or failed from outside, starting balance div a) |
| DoubleSpend.UnitTally | secure-coding/app/blueprints/transfer.py:54-55 | One unit of work changes the sender's balance by the amount if it is his committed payment and not at all otherwise, and his payment commits exactly when the balance covers it |
| Sanctions.MarkedAtThreshold | secure-coding/app/blueprints/admin.py:41-66 | In every committed state of every interleaving a product is blocked exactly when its counter has reached the threshold, and an ordinary account whose counter has is dormant, although admins decide on stale reads |
| Sanctions.ThresholdMustBePositive | secure-coding/app/blueprints/reports.py:20-21 | For any threshold below 1 a concrete run breaks that equivalence |
| Sanctions.CountsReconcile | secure-coding/app/blueprints/reports.py:67-80 | The counter plus everything resets wiped from it is the number of stored report rows of the target, whatever the threshold |
| Sanctions.ReportsAllOrNothing | secure-coding/app/blueprints/reports.py:68-83 | At its place in the serial order of any run a report takes full effect, or, being a duplicate or its product having been deleted since the check, none |
| Sanctions.SanctionsAmortised | secure-coding/app/blueprints/reports.py:15-27 | Automatic sanctions of a target times the threshold never exceed its report rows, and these are fewer than the accounts, however often admins reset it and whatever the threshold |
| Sanctions.AdminsExempt | secure-coding/app/blueprints/reports.py:25-27 | No run ever makes an admin dormant automatically, whatever the threshold |
| Sanctions.ReportFace | secure-coding/app/blueprints/reports.py:15-27 | A report raises one target's counter and rows by one, marks it from the threshold on, counts a sanction only on a 0-to-1 change, and leaves all other targets alone |
| Sanctions.ResetFace | secure-coding/app/blueprints/admin.py:43-62 | A reset zeroes one target's counter and mark, keeps its report rows, and leaves all other targets alone |
| Sanctions.RowsBelowUsers | secure-coding/app/schema.sql:35-43 | Unique reporters other than the target's owner make fewer rows than accounts |
| Images.NoDanglingImage | secure-coding/app/blueprints/products.py:73-122 | In every state of every interleaving of creates, edits, deletes and admin deletes, every image a row names exists and no two rows share one |
| Images.UnlinkedAfterSuperseded | secure-coding/app/uploads.py:75-85 | A file disappears only by an unlink, and only after the write that installed it has been superseded |
| Images.NeverReinstalled | secure-coding/app/uploads.py:64-72 | A superseded name, or a saved one nobody can install any more, is in no row in any continuation |
| Images.MoveKeeps | secure-coding/app/blueprints/products.py:87-120 | Every single step keeps the ownership invariant of image names |
| Images.OwnersOnly | secure-coding/app/blueprints/products.py:73-119 | In every state of every interleaving an edit past its checks, like a deletion that is not an admin's, is the work of the product's seller |
| Images.EffectIsARun | secure-coding/app/blueprints/products.py:34-122 | What a create, edit or deletion served alone makes of tables and directory is what its own moves of the interleaved model come to, from any state of the other requests |
| Images.EffectStrays | secure-coding/app/blueprints/products.py:40-107 | Served alone a request keeps every named file in place and unshared, and adds no file without a row except its own saved one when its write then fails |
| Orphans.SupersededFileGoes | secure-coding/app/blueprints/products.py:95-120 | If no other request has read the image a write supersedes, its file goes if and only if the writing request had read that image; otherwise it stays in every continuation |
| Orphans.SavedFileStays | secure-coding/app/blueprints/products.py:40-53 | A saved image is installed if and only if its INSERT or UPDATE is carried out and finds what it needs; otherwise its file stays without a row in every continuation |
| Orphans.LeftBehindExactly | secure-coding/app/blueprints/products.py:34-122 | For any run: the files on disk are those ever saved less those an unlink was carried out for; once no request is under way, the unlinks carried out or failed are for exactly the names an edit or deletion that went through had read; the directory is exact if and only if every saved name without a row has had its unlink |
| Orphans.LeftBehindUnclaimed | secure-coding/app/blueprints/products.py:34-122 | If no unlink failed and all requests are over, the files on disk are those ever saved less those an edit or deletion that went through had read |
| Orphans.SerialDirectoryExact | secure-coding/app/uploads.py:64-85 | Requests served one at a time, every write committing and every unlink succeeding, leave exactly the named files in the directory, rejected uploads included |
| Orphans.OrphanReachable | secure-coding/app/blueprints/products.py:73-107 | A concrete failure-free run with two overlapping edits ends with a file no row names |
| Orphans.TwoEditsOrphan | secure-coding/app/blueprints/products.py:95-100 | Whenever two edits have read the same image and saved their own, there is a continuation that orphans the first one's file |
| Joint.RunsProject | secure-coding/app/db.py:44-61 | Every run of both models over the same tables, catalogue statements being the writes of product requests, is a run of each of them, ending in the same tables |
| Joint.BothModelsHold | secure-coding/app/blueprints/products.py:73-122 | In every joint run the tables are at once those of a serial run of the units of work and tables whose rows name existing files, each its own |
| Handlers.App.Execute | secure-coding/app/db.py:55-61 | A statement inside the transaction changes its view as the statement says, or raises and leaves it |
| Handlers.App.ExecuteDb | secure-coding/app/db.py:44-48 | An autocommit statement is a unit of work of its own, or without the lock nothing |
| Handlers.App.Send | secure-coding/app/blueprints/transfer.py:47-66 | The transaction block as executed has the effect and outcome of the unit of work Pay run alone |
| Handlers.App.Transfer | secure-coding/app/blueprints/transfer.py:19-69 | A unit of work takes place exactly for a logged-in sender, an amount between 1 and 1000000000 and another active receiver of that name; it is refused as insufficient exactly below the amount, and otherwise moves it between these two accounts and adds one row; all else stays |
| Handlers.App.StoreReport | secure-coding/app/blueprints/reports.py:68-83 | The transaction block with its threshold step has the effect and outcome of the unit of work FileReport run alone |
| Handlers.App.ApplyThreshold | secure-coding/app/blueprints/reports.py:15-27 | Bump, fetch and sanction run in this order on the transaction's view, stopping at a missing row |
| Handlers.App.SubmitReport | secure-coding/app/blueprints/reports.py:32-83 | A unit of work takes place exactly for a logged-in reporter, a reason and an existing target that is not his own; unless it is his second one it adds the row, raises the counter of that very target by one and marks it from the threshold on, admins excepted; all else stays |
| Handlers.App.UnblockProduct | secure-coding/app/blueprints/admin.py:41-48 | Exactly an active admin with the account's epoch clears mark and counter of an existing product; all else stays |
| Handlers.App.ToggleDormancy | secure-coding/app/blueprints/admin.py:51-66 | Exactly an active admin with the account's epoch toggles another existing account: mark and counter cleared if dormant, mark set if not; all else stays |
| Handlers.App.NewProduct | secure-coding/app/blueprints/products.py:34-56 | Exactly for a logged-in seller, a valid form and no unacceptable image the row is inserted as submitted, if the lock is free; tables and directory become what the moves of the interleaved model make of them; files without a row stay the same, or grow by the new name exactly when an image was saved and the INSERT failed |
| Handlers.App.EditProduct | secure-coding/app/blueprints/products.py:75-107 | Exactly the logged-in owner, with a valid form and no unacceptable image, changes listing and image, and the replaced file goes; tables and directory become what the moves of the interleaved model make of them; files without a row stay the same, or grow by the new name exactly when an image was saved and the UPDATE failed |
| Handlers.App.RemoveProduct | secure-coding/app/blueprints/products.py:113-122 | Exactly the logged-in owner, or a logged-in admin, removes the row, and its file goes with it; tables and directory become what the moves of the interleaved model make of them; files without a row stay the same |
| Handlers.App.Register | secure-coding/app/blueprints/auth.py:60-106 | Exactly a visitor who is not logged in, with a valid form and a name not taken, opens an account holding the bonus and nothing else, and no admin |
| Handlers.App.EditBio | secure-coding/app/blueprints/users.py:37-44 | Exactly a logged-in user with a valid text changes his own bio and nothing else |
| Chat.PrunedDecidesLikeFull | secure-coding/app/blueprints/chat.py:21-29 | In every series of calls by any senders the pruned lists take the decisions the full acceptance logs would |
| Chat.AllowedMeaning | secure-coding/app/blueprints/chat.py:21-26 | A call is let through if and only if fewer than five of the sender's acceptances are less than five seconds old |
| Chat.RateBound | secure-coding/app/blueprints/chat.py:21-29 | Any half-open interval of k times 5 seconds holds at most k times 5 acceptances of one sender |
| Chat.Room.MessagesBounded | secure-coding/app/blueprints/chat.py:97-141 | The same bound for the stored messages of one sender, global and private together, by the time the limiter accepted them |
| Chat.Room.StampsBounded | secure-coding/app/blueprints/chat.py:109-114 | By created_at, read from the clock after the limiter, k times 5 seconds hold at most k times 5 plus one messages of handlers that run one after the other |
| Chat.StampsConserved | secure-coding/app/blueprints/chat.py:109-114 | In whatever order handlers read the clock again: acceptances in an interval plus messages in flight at its start are the messages stamped in it plus those in flight at its end |
| Chat.OneStampMore | secure-coding/app/blueprints/chat.py:21-29 | A run of six messages reaches that bound: six carry stamps within five seconds |
| Chat.RejectionLeavesNoTrace | secure-coding/app/blueprints/chat.py:24-26 | After a rejected attempt all later decisions are as if it had not been made |
| Chat.Room.AskRate | secure-coding/app/blueprints/chat.py:21-29 | The call accepts exactly when fewer than RATE_MAX acceptances of the full log lie within the window, and logs exactly the accepted ones |
| Chat.Room.Prune | secure-coding/app/blueprints/chat.py:23 | The list comprehension keeps exactly the entries within the window, in order |
| Chat.Room.Post | secure-coding/app/blueprints/chat.py:97-141 | A message is stored exactly when the sender is there and active, the content has 1 to 500 characters, a private receiver is a known other account, and limit and INSERT agree; the attempt is logged as accepted exactly when all but the INSERT do |
| Chat.OnePrivate | secure-coding/app/blueprints/chat.py:118-141 | A first private message to a known other account is stored |
| LoginLock.PrunedAnswersLikeFull | secure-coding/app/blueprints/auth.py:29-57 | For every series of attempts the table with its single and bulk evictions answers each one as the full history of failures and successes would |
| LoginLock.FailAgrees | secure-coding/app/blueprints/auth.py:42-53 | Recording a failure, with or without the bulk eviction, keeps table and history in agreement on every unexpired window of every key |
| LoginLock.WindowCounts | secure-coding/app/blueprints/auth.py:42-53 | A window's pair is its opening failure's time and the number of the key's failures since, all within 300 seconds, none followed by a success, and no window of 300 seconds was open when it opened |
| LoginLock.WindowsAreShort | secure-coding/app/blueprints/auth.py:42-53 | Every failure counts into its key's window if that was opened at most 300 seconds ago, and otherwise opens a new one with itself alone |
| LoginLock.NoWindowNoFailure | secure-coding/app/blueprints/auth.py:56-57 | Without a window every failure of the key has been followed by a success |
| LoginLock.LockedExactly | secure-coding/app/blueprints/auth.py:37-38 | The lock is on exactly for windows of at least five failures and up to 299 seconds old |
| LoginLock.WaitValue | secure-coding/app/blueprints/auth.py:37-38 | The wait announced is what is left of the 300 seconds, rounded down |
| LoginLock.AttemptOutcome | secure-coding/app/blueprints/auth.py:117-142 | Attempt by attempt: locked and nothing recorded; or a failure recorded for a wrong name or password, none for a dormant account, and a success for a good login |
| LoginLock.NextWindowLocks | secure-coding/app/blueprints/auth.py:29-53 | A concrete run: five guesses, five more at 310 seconds, and the attempt at 311 is told to wait 299 seconds |
| LoginLock.AtMostMaxFailedEarly | secure-coding/app/blueprints/auth.py:29-53 | In every run a failure takes its window beyond five only later than 299 seconds after it opened |
| LoginLock.FinalSecondOpen | secure-coding/app/blueprints/auth.py:38 | A concrete run: five guesses, and a sixth half a second before the window ends is verified and counted |
| LoginLock.Throttle.AskLock | secure-coding/app/blueprints/auth.py:29-39 | A pair older than 300 seconds is dropped, and only that; the answer is what is left of the 300 seconds, rounded towards zero, for five failures, and zero otherwise |
| LoginLock.Throttle.NoteFailure | secure-coding/app/blueprints/auth.py:42-53 | The pruning loop over a table of more than 1000 removes exactly the pairs older than 300 seconds; the failure counts into a pair at most that old or starts a new one |
| LoginLock.Throttle.Login | secure-coding/app/blueprints/auth.py:113-142 | One attempt answers as the full history would and keeps table and history in agreement |
| Sessions.EpochsBounded | secure-coding/app/security.py:54-68 | In every run each stored session's sv is at most its user's session_epoch |
| Sessions.EverySessionEarned | secure-coding/app/blueprints/auth.py:123-146 | In any run every stored session was bound by a verified login under the name of its account, active then, or by an accepted password change through a session that spoke for that account |
| Sessions.LoginOutcome | secure-coding/app/blueprints/auth.py:113-154 | A login binds the new id to the account of that name at its epoch exactly if nobody is logged in through the session, the password is verified and the account is active; otherwise nothing changes |
| Sessions.ChangeOutcome | secure-coding/app/blueprints/users.py:46-68 | A password change writes hash and next epoch and re-issues the session exactly if the session speaks for somebody and the form is accepted |
| Sessions.ActOutcome | secure-coding/app/security.py:72-95 | A request has an effect only through a session that speaks for an active account, and an admin's request only for an admin |
| Sessions.LogoutEnds | secure-coding/app/blueprints/auth.py:160-164 | Logging out ends this session in every continuation and leaves every other |
| Sessions.LateChangeSound | secure-coding/app/blueprints/users.py:57-67 | Writing an epoch from an old read keeps every stored sv within its user's epoch if and only if no session of the user that stays has a higher sv than is written |
| Sessions.LateChangeDead | secure-coding/app/blueprints/users.py:57-67 | After a write of an epoch from an old read a session dead before is dead still if and only if it is not one of that user's that stays with an sv at or above the epoch written |
| Sessions.LateChangeCurrent | secure-coding/app/security.py:54-68 | After such a write exactly the re-issued session and the user's staying ones that carry the epoch written authenticate as him, if he is active |
| Sessions.OneSessionExactly | secure-coding/app/blueprints/users.py:57-67 | Such a write leaves the re-issued session alone if and only if no other session of the user that stays carries the epoch written |
| Sessions.StaleChangeRevives | secure-coding/app/blueprints/users.py:57-67 | From any state: if a change is written with the epoch it had read before two others, a session ended by the second of them authenticates again and the last one's sv exceeds its user's epoch |
| Sessions.StaleChangeRun | secure-coding/app/blueprints/users.py:46-68 | A concrete run: one registration, two logins, two changes and a third written last, after which a dead session authenticates and one's sv is above the epoch |
| Sessions.OneSessionAfterChange | secure-coding/app/blueprints/users.py:57-67 | After a password change exactly the re-issued session authenticates as the user, even if the old entry stayed in the store |
| Sessions.DeadForGood | secure-coding/app/security.py:64-67 | A session invalidated by its epoch authenticates nobody in any continuation of the run |
| Sessions.ChangeEndsOthers | secure-coding/app/blueprints/users.py:57-67 | Every session the user had before the change is dead in every continuation |
| Sessions.AdminStaysActive | secure-coding/app/blueprints/admin.py:51-66 | Once a non-dormant admin exists, one exists after every further request |
| Admins.AloneKeepsAdmin | secure-coding/app/blueprints/reports.py:25-27 | Only a suspension aimed at an admin makes that admin dormant |
| Admins.LastAdminExactly | secure-coding/app/blueprints/admin.py:51-66 | A unit of work leaves an active admin if and only if it is not the suspension of the only one |
| Admins.AdminRemains | secure-coding/app/blueprints/admin.py:51-66 | In any run of interleaved requests there is an active admin at every place of the serial order from k on if and only if no unit of work from k on suspends, at its place, the only one |
| Admins.StrikerWasStruck | secure-coding/app/blueprints/admin.py:51-66 | In any run, if a suspension is ready that would hit the only active admin, it was admitted as the request of another admin active at that time, whose own suspension has been written since |
| Admins.MutualSuspension | secure-coding/app/blueprints/admin.py:51-66 | Wherever two admins are active and the lock is free, both may pass their checks before either writes, after which exactly these two are active no more |
| Admins.NoAdminLeft | secure-coding/app/blueprints/admin.py:51-66 | A concrete run in which two registered admins suspend each other leaves none active |
| Sessions.Site.SignIn | secure-coding/app/blueprints/auth.py:113-154 | Session id and epoch are bound, and the hash rewritten if due, exactly for a verified password, an active account and a session that spoke for nobody; otherwise tables and store stay |
| Sessions.Site.MyPagePassword | secure-coding/app/blueprints/users.py:46-68 | The password form writes hash and next epoch and re-issues the session, or drops a session that authenticates nobody |
| Inbox.InboxIsConversations | secure-coding/app/blueprints/chat.py:44-77 | A partner is in the inbox, and then once, exactly when the conversation filter selects a message, dated by the latest of exactly those messages, the latest dates first |
| Inbox.InboxSymmetric | secure-coding/app/blueprints/chat.py:49-58 | Two users are in each other's inboxes or in neither's, with the same date |
| Inbox.PairsPartition | secure-coding/app/blueprints/chat.py:71-77 | Every private message is on the page of exactly one pair of users |
| Inbox.GlobalStaysOut | secure-coding/app/blueprints/chat.py:71-77 | A global message is on no conversation page |
| Inbox.RoomIsWellFormed | secure-coding/app/blueprints/chat.py:132-141 | The messages the socket handlers store, senders and receivers being accounts, are what the inbox theorems ask for |
| Inbox.NotOneself | secure-coding/app/blueprints/chat.py:133-134 | Nobody is in his own inbox |
| Inbox.UnionIsConversation | secure-coding/app/blueprints/chat.py:49-58 | The rows left by UNION ALL and JOIN for a partner are the times of the conversation with that partner |
| Inbox.ListingExists | secure-coding/app/blueprints/chat.py:57 | The groups can always be listed once each in the required order |
| Packets.PrintsTheData | pcap_programming/pcap_prog.c:36-77 | For every unfragmented well-formed frame with any options, data and padding, any capture covering both headers, and anything in memory behind it: addresses, ports and lengths come out as sent and the payload is the sanitised captured part of the TCP data, without padding |
| Packets.PrintsOnlyTcp | pcap_programming/pcap_prog.c:36-42 | A report is printed if and only if the packet is IPv4 and carries TCP |
| Packets.FieldsPrinted | pcap_programming/pcap_prog.c:44-70 | Whatever the headers say, addresses, ports and header lengths printed are the bytes at their offsets |
| Packets.PayloadPrinted | pcap_programming/pcap_prog.c:47-77 | Whatever the headers say, the payload printed has the claimed length cut down to the captured bytes, or none, and byte by byte shows what is there, dots for the unprintable |
| Packets.PayloadInside | pcap_programming/pcap_prog.c:44-54 | For any header contents and any capture length every byte of the printed payload lies inside the capture, and a capture that ends within the headers prints none |
| Packets.HeadersRead | pcap_programming/myheader.h:20-53 | The header fields the program reads are the ones laid out in the frame |
| Packets.GotPacket | pcap_programming/pcap_prog.c:31-82 | The program's arithmetic and clamping compute the dissected report for any capture length, every access being inside the bytes that are there |
| Packets.PrintPayload | pcap_programming/pcap_prog.c:19-29 | The loop prints exactly the sanitised bytes of its range |
| Packets.SanitisedMeaning | pcap_programming/pcap_prog.c:22-26 | Sanitising keeps length, printable bytes and line ends, and turns every other byte into a dot |

## Left out

- Routing, templates, CSRF tokens, headers, Flask-Limiter, SocketIO delivery, command line and scripts: no effect on the modelled state.
- argon2 hashing and re-hashing, timing equalisation, Pillow decoding: foreign code, represented by its verdict; a save that fails half-way is taken to leave no file.
- Form validators other than the amount's (text lengths, the upper price bound), LIKE search, dashboard and profile listings: would only add easy members.
- The order by time and the LIMIT of the conversation and global pages: only their filters are modelled, so a page may show fewer messages than its filter selects.
- Interleavings are modelled on values, one step function per statement, because a class cannot express several requests in the middle of their bodies; the classes in `Handlers.dfy` are the bodies of single requests.
- Failures from outside the tables are modelled inside transactions and as lock timeouts; an autocommit statement that fails for another reason is the same as one that never ran.
- Engine.DecisionAdmissible: says nothing about the receiver being active when the payment commits, because the code checks that only before the transaction.
- Engine.Serializable: the check-phase reads are not part of the serial order, because the code makes them outside the transaction.
- Chat.PrunedDecidesLikeFull: each call of the limiter is one step, because the code takes no lock around the list it rewrites.
- Chat.Room.StampsBounded: takes the handlers one after the other, because two of them may read the clock for created_at in any order after the limiter.
- LoginLock.PrunedAnswersLikeFull: each attempt from lock check to recorded failure is one step, for the same reason.
- Sessions.EpochsBounded: requests are single steps, because the epoch is written from an earlier read: a change that had read e and is written after two later ones (e + 1, then e + 2) leaves a session above its user's epoch (Sessions.StaleChangeRun). Two overlapping changes that write the same value are still within it, but leave two sessions (Sessions.OneSessionExactly).
- Sessions.AdminStaysActive: requests are single steps, because of the mutual suspension of Admins.NoAdminLeft.
- Packets.PrintsTheData: fragments are outside it, because got_packet does not look at the fragment offset.
- Packets.GotPacket: takes the header bytes that the program reads to be there behind the packet pointer, because it does not compare the header offsets with the capture length; lengths are unbounded integers, the capture length staying far below the int range with the snapshot length in use.
