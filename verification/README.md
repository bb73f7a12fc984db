# Recall claims service: a verified model

A Dafny 4.11 model of the parts of the recall-claims back end where a mistake is hard to see by
reading one function: permissions to dispose of a recalled product, evidence against deletion,
claim submission with replays, the e-mail outbox, paged export, canonical request hashing, error
classification, rate limiting and the gates in front of closing a case.

Verify everything with `dafny verify dfyconfig.toml`.

## How the system is modelled

- Each whole `handle.transaction` body, and each SQL statement outside one, is one atomic step;
  where a body reads without a lock what it then writes, `ReviewRaces` lets transactions overlap.
  A unique index or a check is a reason for a step to roll back (`Prelude.Tx`). Time is an
  integer. Hashes are injective.
- Functions that the service computes by loops and updates are methods and classes, proved
  against functions on the tables; what the system promises is proved about those functions,
  over all runs and all interleavings.
- A query with `limit` and no total order returns any admissible row: such rows are parameters
  constrained by predicates (`Reads`, `LimitedRead`, `LatestAuthorizationRow`), so every answer
  the database may give is covered.

| file | part of the system |
|---|---|
| `Prelude.dfy` | result types, finite sets |
| `DisposalPolicy.dfy`, `Coverage.dfy` | the disposal policy, its hard gate, the coverage fold |
| `DisposalTables.dfy`, `DisposalInvariants.dfy`, `DisposalRuns.dfy` | the disposal tables as a state machine, its invariants, theorems over runs |
| `DisposalProgress.dfy`, `DisposalDecisions.dfy` | what each disposal operation lets through and leaves behind, and what a task then shows, spelled out on the rows |
| `HiddenPermission.dfy` | a run from empty tables whose live permission escapes revocation |
| `DisposalService.dfy`, `DisposalQueue.dfy` | the disposal service as a class; the bulk queue against the single-task loader |
| `DocumentLifecycle.dfy`, `DocumentServices.dfy`, `DocumentRuns.dfy`, `CleanupRuns.dfy` | uploads, callbacks, deletion and cleanup workers as an interleaving protocol, as classes, and the classes' operations as runs of the protocol |
| `CleanupProgress.dfy` | what the cleanup deletes and what it spares |
| `UploadRecovery.dfy` | what can become of an upload whose callback crashed |
| `EvidenceRules.dfy`, `ClaimSubmission.dfy`, `ClaimService.dfy`, `ClaimProgress.dfy` | document rules; submissions with locks, records, losers and replays; the service as a class; which submissions are let through |
| `Outbox.dfy`, `OutboxRuns.dfy`, `OutboxProgress.dfy` | the outbox with concurrent workers and delivery webhooks; a batch as a run; lost acknowledgements; retries, giving up and delivery reports |
| `CaseClosure.dfy`, `CaseProgress.dfy`, `HiddenEscalations.dfy` | closure gates; what each case operation lets through; runs from empty tables to cases whose rows the gates miss |
| `ReviewRaces.dfy` | opening escalations and deciding reviews as overlapping transactions |
| `CaseExport.dfy` | keyset paging and export |
| `CanonicalJson.dfy`, `CanonicalForm.dfy`, `ErrorSearch.dfy`, `RateLimiter.dfy` | canonical JSON, the error-graph search, the fixed-window limiter |

## What turned out not to hold as written

- Closing a case reads at most twenty escalation rows in no order, so rows that should stop it
  can be missed. `CaseClosure.ClosureGateIsExact` says for every case when a closure can go
  through. With an open escalation it can exactly when at least twenty others are closed and owe
  no undecided review (`CaseClosure.EscalationGateIsExact`). Without a decided review, although
  some escalation requires one, it can exactly when the case has no incident and at least twenty
  closed escalations of other categories (`CaseClosure.OwedReviewGateIsExact`).
  Both conditions are reached from empty tables, for any number of rows:
  `HiddenEscalations.TwentyClosedHideAnOpenOne` for every category and every state of the owed
  review, `HiddenEscalations.TwentyOthersHideAnOwedReview` with the owed review still pending.
- That only a pending review is decided is checked before the update, not by it
  (`src/modules/admin/drizzle-admin-service.ts:580-582`, 608-626). A decision already taken can
  still change exactly when somebody who read the review while it was pending has yet to commit a
  different one (`ReviewRaces.DecisionCanChangeExactly`); `ReviewRaces.DecisionIsReplaced` is the run. No race reopens a review or closes an incident case
  without a decided one (`ReviewRaces.NeverReopened`,
  `ReviewRaces.ClosedCasesAreReviewedUnderRaces`).
- A permission's issue time is the start of its transaction. `DisposalRuns.RevocationIsExact`
  shows that revoking is sure to retire the live permission exactly when that permission has the
  strictly latest issue time of its task. `HiddenPermission.RevocationCanMiss` is a whole run from
  empty tables at whose end revoking reports no change. Over every run whose issue times follow
  commit order the live permission is the one that is read (`DisposalRuns.LivePermissionIsRead`).
- The comment at `src/modules/documents/drizzle-document-service.ts:405-408` says that a
  redelivered event finalises a row left in `uploaded`. The code handles only `authorized` and
  `deletion_pending` rows. `UploadRecovery.UploadIsDecidedExactly`: an uploaded row can still be
  verified or rejected exactly while a callback that read it as `authorized` is under way;
  `UploadRecovery.CrashLeavesUploadStuck` is the run that loses it.
- A repeated evidence submission does not get its batch back: the policy check comes first.
  `DisposalRuns.RepeatedSubmissionIsRefused` shows that the repeat is refused in every later state,
  `DisposalRuns.ReplayNeverReturnsOwnBatch` that the replay branch only ever returns a batch of
  another task that used the same key.
- The outbox worker's catch also catches a commit whose acknowledgement was lost, and then reports
  a delivered row as failed. `OutboxRuns.PromisesAreExact`: over a run the promises of the outbox
  hold throughout exactly when no worker makes such a late report;
  `OutboxRuns.LateReportBreaksThePromises` is the run that breaks them. What survives any number
  of late reports is `OutboxRuns.LateReportsStayBounded`: a message is sent five times at most.
- The gate's fallback refusal, meant to be unreachable, is reached exactly when an approval
  starts to apply between its two clock readings (`DisposalPolicy.FallbackRefusalIsExact`, with
  the failing states in `DisposalPolicy.FallbackIsReached`), and never on a loaded state
  (`DisposalRuns.LoadedRefusalsAreExplained`).
- The limiter keeps its quota exactly for limits of at least one (`RateLimiter.QuotaIsExact`): the
  request that opens a window is always let through (`RateLimiter.OpenerIsAllowed`). For such
  limits the bound on any window-long interval is 2·limit − 1, one better than 2·limit, and it is
  met for every limit, if a window has at least two instants (`RateLimiter.BoundIsTight`).

## Model

| member | source | states |
|---|---|---|
| DisposalPolicy.EvaluateDisposal | src/modules/disposal/policy.ts:172-304 | the reasons are exactly the unmet preconditions and the actions exactly the offered ones, each in its fixed order |
| DisposalPolicy.CheckTask | src/modules/disposal/policy.ts:179-193 | after the task and eligibility checks the list is the refusal order filtered up to there |
| DisposalPolicy.CheckInstruction | src/modules/disposal/policy.ts:195-214 | the same after the instruction and approval checks |
| DisposalPolicy.CheckEvidence | src/modules/disposal/policy.ts:216-231 | the same after the evidence and hold checks |
| DisposalPolicy.OfferEvidence | src/modules/disposal/policy.ts:233-249 | the evidence actions are the action order filtered up to there |
| DisposalPolicy.OfferDecisions | src/modules/disposal/policy.ts:250-287 | the declaration, hold, issue and revoke actions likewise |
| DisposalPolicy.NothingUnmetIsTheGate | src/modules/disposal/policy.ts:306-316 | no reason is unmet if and only if the task is open, eligible, instructed by an approved version with an approval in force, its evidence accepted and no hold in force |
| DisposalPolicy.ReasonsAreExact | src/modules/disposal/policy.ts:167-231 | a reason is listed if and only if its precondition is unmet; the list is empty if and only if the gate holds |
| DisposalPolicy.ActionsAreExact | src/modules/disposal/policy.ts:233-287 | an action is listed if and only if it is offered |
| DisposalPolicy.OneDeclarationBranch | src/modules/disposal/policy.ts:250-264 | on an open task exactly one of completion and exception is offered, on a closed one neither |
| DisposalProgress.ReasonsOnTheRows | src/modules/disposal/policy.ts:167-231 | whichever rows the loader read, a reason is shown if and only if the one fact of the tables it stands for holds |
| DisposalProgress.ActionsOnTheRows | src/modules/disposal/policy.ts:233-287 | an action is offered if and only if its facts of the tables, and of the permission row that was read, hold |
| DisposalDecisions.WindowsTile | src/modules/disposal/policy.ts:130-141 | at every instant exactly one of two adjoining approval windows includes it |
| DisposalPolicy.AssertCanIssueAuthorization | src/modules/disposal/policy.ts:336-356 | passes if and only if the gate holds; otherwise names the first unmet reason |
| DisposalPolicy.FallbackRefusalIsExact | src/modules/disposal/policy.ts:336-356 | the fallback refusal is reached if and only if the approval window opens between the two clock readings; never for a window that already included an earlier instant |
| DisposalPolicy.FallbackIsReached | src/modules/disposal/policy.ts:336-356 | for any two different clock readings there is a state that fails the first, passes the second, and is told that evidence is missing although it is accepted |
| DisposalRuns.LoadedRefusalsAreExplained | src/modules/disposal/drizzle-disposal-service.ts:1604-1617 | when the gate fails on a loaded state, whatever its queries returned, a reason is still unmet at any later reading of the clock |
| Coverage.CoverageFor | src/modules/disposal/drizzle-disposal-service.ts:838-892 | the overwriting fold computes the closed form |
| Coverage.CoverageIsExact | src/modules/disposal/drizzle-disposal-service.ts:828-892 | covered are exactly the confirmed products some document concerns, between one and the confirmed quantity: all of it under a document for everything, else the largest request up to it |
| Coverage.OrderDoesNotMatter | src/modules/disposal/drizzle-disposal-service.ts:865-892 | the coverage depends on the set of documents only |
| Coverage.MoreDocumentsCoverMore | src/modules/disposal/drizzle-disposal-service.ts:865-892 | adding documents never shrinks what is covered |
| DisposalInvariants.StepKeepsBatches | src/db/schema/disposal.ts:380-381 | every transaction keeps batch numbers 1..n, all but the last batch superseded, and keys unique: the two batch indexes never fire |
| DisposalInvariants.SubmissionKeepsBatches | src/modules/disposal/drizzle-disposal-service.ts:682-721 | a new batch takes the next number and replaces everything before it |
| DisposalInvariants.StepKeepsActiveRests | src/modules/disposal/drizzle-disposal-service.ts:901-935 | every live permission rests on an accepted batch of its task and on the approved version the task is pinned to, through every transaction |
| DisposalInvariants.StepKeepsActiveIndex | src/db/schema/disposal.ts:477-480 | the partial index on live permissions is respected by every transaction |
| DisposalInvariants.StepKeepsCompletion | src/modules/disposal/drizzle-disposal-service.ts:1098-1119 | a task is open or completed, and completed exactly when it has a declaration |
| DisposalInvariants.StepKeepsDeclarations | src/db/schema/disposal.ts:550-561 | a declaration has exactly one basis, and an authorization it cites is one of its own task |
| DisposalInvariants.StepKeepsOneHold | src/modules/disposal/drizzle-disposal-service.ts:791-826 | a task has at most one unreleased hold |
| DisposalInvariants.StepKeepsEligible | src/modules/disposal/drizzle-disposal-service.ts:605-613 | an eligible task always has a product that a person confirmed; nothing is ever un-confirmed |
| DisposalInvariants.StepKeepsQuantities | src/db/schema/disposal.ts:352-352 | confirmed and shown quantities stay positive |
| DisposalInvariants.StepKeepsApprovals | src/modules/disposal/drizzle-disposal-service.ts:1230-1265 | whether a stored approval authorises is always what its material, scope and measure say, so the check on it never fires |
| DisposalInvariants.StepKeepsReviews | src/modules/disposal/drizzle-disposal-service.ts:741-789 | a reviewed batch is never pending, so the one-review index cannot fire |
| DisposalInvariants.StepKeepsInv | src/modules/disposal/drizzle-disposal-service.ts:192-1298 | all of the above together, through each of fourteen transactions |
| DisposalRuns.OnePermission | src/modules/disposal/drizzle-disposal-service.ts:1060-1066 | in every reachable state a task has at most one live permission; it rests on the latest batch, that batch is accepted, and the pinned version is approved |
| DisposalRuns.AcceptedIsLatest | src/modules/disposal/drizzle-disposal-service.ts:1619-1627 | an accepted batch is the only answer to the query for the latest batch |
| DisposalRuns.BatchesOfATask | src/modules/disposal/drizzle-disposal-service.ts:682-721 | in every reachable state numbers have no gaps or repeats and every batch but the last is superseded |
| DisposalRuns.KeyCreatesOneBatch | src/modules/disposal/drizzle-disposal-service.ts:664-679 | one idempotency key creates at most one batch in any run |
| DisposalRuns.AcceptanceIsAbsorbing | src/modules/disposal/drizzle-disposal-service.ts:651-735 | an accepted batch stays accepted and last for ever |
| DisposalRuns.SubmissionSuspendsNothing | src/modules/disposal/drizzle-disposal-service.ts:722-735 | the suspension inside a submission never fires |
| DisposalProgress.SubmissionIsExact | src/modules/disposal/drizzle-disposal-service.ts:651-735 | a submission makes a batch if and only if the live token is given, all but evidence is in place, evidence is wanted, the key is unused, and every photo is a verified disposal photo of the task in no batch yet |
| DisposalProgress.SubmissionLeaves | src/modules/disposal/drizzle-disposal-service.ts:682-721 | the new batch is pending with the highest number of its task, whose other batches are all superseded; no batch of another task moves |
| DisposalProgress.SubmissionStores | src/modules/disposal/drizzle-disposal-service.ts:697-711 | each photo is stored with the new batch, and no other document moves |
| DisposalProgress.FirstMisfitDecides | src/modules/disposal/drizzle-disposal-service.ts:1507-1547 | the first photo that is not the task's own verified one decides the refusal |
| DisposalProgress.SubmissionRefusals | src/modules/disposal/drizzle-disposal-service.ts:651-735 | under a live token each refusal of a submission has its condition on the rows |
| DisposalProgress.KnownKeyIsAnswered | src/modules/disposal/drizzle-disposal-service.ts:657-679 | a known key is answered only where evidence is wanted: with its batch while that is pending, else with a conflict |
| DisposalProgress.TokensGuard | src/modules/disposal/drizzle-disposal-service.ts:1467-1486 | without the live token submitting and declaring answer as for a task that does not exist |
| DisposalDecisions.ReviewIsExact | src/modules/disposal/drizzle-disposal-service.ts:741-767 | a review goes through if and only if the batch is pending, the rationale is there, and a rejection has its reason |
| DisposalDecisions.ReviewIsRecorded | src/modules/disposal/drizzle-disposal-service.ts:768-779 | the verdict that was given, and no other, is stored with the batch and with the review; nothing else moves |
| DisposalDecisions.ReviewShows | src/modules/disposal/drizzle-disposal-service.ts:768-779 | a reviewed batch is its task's last, accepted or to be resubmitted as the verdict said |
| DisposalDecisions.EvidenceShows | src/modules/disposal/policy.ts:216-231 | the evidence reason a task shows is the one of its last batch's status, however it is read |
| DisposalDecisions.EvidenceOpens | src/modules/disposal/policy.ts:233-287 | after a rejection resubmitting is open wherever instructions may be shown, and issuing and completing only after an acceptance |
| DisposalDecisions.AcceptedByReview | src/modules/disposal/drizzle-disposal-service.ts:741-789 | over every run, a batch that became accepted was accepted by a review whose verdict accepted it |
| DisposalDecisions.HoldIsExact | src/modules/disposal/drizzle-disposal-service.ts:791-807 | placing a hold leaves exactly that task on hold; a second one changes nothing |
| DisposalDecisions.ReleaseIsExact | src/modules/disposal/drizzle-disposal-service.ts:809-826 | releasing needs a hold and leaves exactly that task without one |
| DisposalRuns.ReplayNeverReturnsOwnBatch | src/modules/disposal/drizzle-disposal-service.ts:657-679 | when the replay branch answers, the pending batch it returns belongs to another task with the same key |
| DisposalRuns.RepeatedSubmissionIsRefused | src/modules/disposal/drizzle-disposal-service.ts:651-679 | after a submission that created a batch, the same submission is refused in every later state, however the tables are read |
| DisposalRuns.NewTaskPermitsNothing | src/modules/disposal/drizzle-disposal-service.ts:192-267 | a new task permits and shows nothing however it is read, pins an approved version, and starts on hold when an incident was reported |
| DisposalProgress.OpeningIsExact | src/modules/disposal/drizzle-disposal-service.ts:192-267 | a task is opened if and only if the campaign has an approved version with an approval that applies, the newest of which it is pinned to, the draft has no open task on that version, and no product repeats |
| DisposalProgress.OpeningLeaves | src/modules/disposal/drizzle-disposal-service.ts:227-266 | a new task has a token for exactly ninety days, unconfirmed products, and a hold exactly when there was an incident; nothing else moves |
| DisposalProgress.EligibilityIsExact | src/modules/disposal/drizzle-disposal-service.ts:597-625 | eligibility is decided if and only if the page shows the current revision and an eligible task has a confirmed product |
| DisposalProgress.EligibilityLeaves | src/modules/disposal/drizzle-disposal-service.ts:597-625 | the task gets the eligibility that was asked for and the next revision; nothing else moves |
| DisposalProgress.ProductConfirmationIsExact | src/modules/disposal/drizzle-disposal-service.ts:628-649 | a product of the task is confirmed with its quantity if and only if that is at least one |
| DisposalRuns.StalePageIsRefused | src/modules/disposal/drizzle-disposal-service.ts:597-604 | once eligibility was decided, the revision a page showed before is refused in every later state |
| DisposalRuns.IssuingNeedsTheWholeGate | src/modules/disposal/drizzle-disposal-service.ts:901-936 | a permission is issued only on an open eligible task with a confirmed product, no hold, an approval in force from authorising material for consumer disposal, its latest batch accepted, and no other live permission |
| DisposalDecisions.IssuingIsExact | src/modules/disposal/drizzle-disposal-service.ts:901-956 | a permission is issued if and only if everything is in place, no permission of the task is live, and the accepted batch shows a confirmed product |
| DisposalDecisions.IssuingRefusals | src/modules/disposal/drizzle-disposal-service.ts:880-956 | each refusal of an issue has its condition, the gate before the coverage |
| DisposalDecisions.IssuingLeaves | src/modules/disposal/drizzle-disposal-service.ts:927-945 | the new row is the task's, on its last batch and pinned version, live; no other permission or item moves |
| DisposalDecisions.RevokingLeaves | src/modules/disposal/drizzle-disposal-service.ts:966-1003 | revoking retires exactly the row that was read and reports whether that changed it |
| DisposalRuns.SecondPermissionIsRefused | src/modules/disposal/drizzle-disposal-service.ts:901-936 | a task with a live permission gets no second one, whatever was read |
| DisposalRuns.IssuedCoverage | src/modules/disposal/drizzle-disposal-service.ts:917-945 | a new permission covers exactly the confirmed products its batch concerns, each between one and the confirmed quantity |
| DisposalRuns.CoverageIsFrozen | src/modules/disposal/drizzle-disposal-service.ts:936-945 | the items of a permission never change afterwards, in any run |
| DisposalRuns.RevocationIsExact | src/modules/disposal/drizzle-disposal-service.ts:966-1003 | revoking is sure to retire the live permission if and only if it has the strictly latest issue time |
| HiddenPermission.RevocationCanMiss | src/modules/disposal/drizzle-disposal-service.ts:966-1003 | a run from empty tables ends in a consistent state whose live permission started first and committed last; revoking it commits, changes nothing and reports a permission revoked before |
| DisposalRuns.StepKeepsActiveLatest | src/modules/disposal/drizzle-disposal-service.ts:901-945 | an issue whose time is later than all of its task, and every other transaction, keeps the live permission strictly latest |
| DisposalRuns.LivePermissionIsRead | src/modules/disposal/drizzle-disposal-service.ts:1650-1658 | over every run whose issue times follow commit order, whatever row the loader reads is the live permission |
| DisposalRuns.WithdrawalStopsEverything | src/modules/disposal/drizzle-disposal-service.ts:1127-1182 | a withdrawal leaves no live permission and no pending batch under the version, and touches nothing else |
| DisposalRuns.WithdrawnForEver | src/modules/disposal/drizzle-disposal-service.ts:1127-1182 | under a withdrawn version no permission is live, then or in any later state |
| DisposalDecisions.WithdrawalIsExact | src/modules/disposal/drizzle-disposal-service.ts:1127-1182 | a withdrawal suspends exactly the live permissions under the version, counts them, and supersedes exactly the pending batches of its tasks; repeating it changes nothing |
| DisposalDecisions.WithdrawnShows | src/modules/disposal/policy.ts:195-214 | a task under a withdrawn version shows it and offers neither evidence, completion, issuing nor revoking |
| DisposalDecisions.PublishingIsExact | src/modules/disposal/drizzle-disposal-service.ts:1267-1298 | publishing turns exactly a draft into an approved version |
| DisposalDecisions.ApprovalIsExact | src/modules/disposal/drizzle-disposal-service.ts:1230-1265 | an approval authorises if and only if it is a recall letter or an agreed plan, for consumer-held products and consumer disposal |
| DisposalDecisions.VersionsAreNumbered | src/modules/disposal/drizzle-disposal-service.ts:1191-1221 | over every run the versions of a campaign version are numbered from one without gaps or repeats |
| DisposalRuns.DeclaredExactlyWhenCompleted | src/modules/disposal/drizzle-disposal-service.ts:1017-1120 | in every reachable state a task is completed if and only if it has a declaration |
| DisposalRuns.CompletionNeedsTheWholeGate | src/modules/disposal/drizzle-disposal-service.ts:1060-1085 | a declaration resting on a permission is recorded only while the permission is live, on the latest and accepted batch, with eligibility confirmed, an approval in force from authorising material, and no hold |
| DisposalDecisions.CompletionIsExact | src/modules/disposal/drizzle-disposal-service.ts:1017-1119 | a completion on a permission is recorded if and only if the token opens, the task is open and undeclared, the text is the version's own, no exception is claimed, the permission is the live row that is read and the one named if any, and everything is in place; the task is then completed |
| DisposalDecisions.ExceptionIsExact | src/modules/disposal/drizzle-disposal-service.ts:1017-1119 | an exception is recorded if and only if it is explained, names no permission, and completing is not open |
| DisposalDecisions.DeclarationRefusals | src/modules/disposal/drizzle-disposal-service.ts:1017-1119 | under a live token a new declaration conflicts if and only if the task is closed |
| DisposalDecisions.ConstraintsAreExact | src/db/schema/disposal.ts:522-580 | a declaration is stored if and only if it has one basis, an explanation for an exception, and neither its task nor its permission has one yet |
| DisposalDecisions.RepeatIsExact | src/modules/disposal/drizzle-disposal-service.ts:1030-1052 | after a declaration the same words succeed without effect and every other statement conflicts |
| DisposalDecisions.DeclaredShows | src/modules/disposal/policy.ts:179-287 | a declared task shows that it is closed and offers nothing but revoking |
| DisposalRuns.RepeatingChangesNothing | src/modules/disposal/drizzle-disposal-service.ts:1030-1052 | repeating a recorded statement later succeeds and changes nothing, whatever happened since |
| DisposalRuns.DeclarationsMeetTheirConstraints | src/db/schema/disposal.ts:550-565 | the declaration's checks and unique indexes never fire |
| DisposalService.Service.LoadTaskRecord | src/modules/disposal/drizzle-disposal-service.ts:1569-1693 | the loaded rows are legitimate answers of the queries and the policy state is the one they determine |
| DisposalService.Service.LatestBatch | src/modules/disposal/drizzle-disposal-service.ts:1619-1627 | a row with the highest number of the task, none exactly when the task has none |
| DisposalService.Service.LatestAuthorization | src/modules/disposal/drizzle-disposal-service.ts:1650-1658 | a row with the latest issue time of the task |
| DisposalService.Service.FindApproval | src/modules/disposal/drizzle-disposal-service.ts:1604-1617 | an authorising approval in force, none exactly when there is none |
| DisposalService.Service.PinVersion | src/modules/disposal/drizzle-disposal-service.ts:203-225 | the highest numbered approved version with an approval in force |
| DisposalService.Service.CreateTaskForSubmission | src/modules/disposal/drizzle-disposal-service.ts:192-267 | the new task, its unconfirmed products and the automatic hold, or nothing, or a rollback by a unique index |
| DisposalService.Service.ConfirmEligibilityOf | src/modules/disposal/drizzle-disposal-service.ts:597-625 | the whole new state, and each refusal |
| DisposalService.Service.ConfirmProductAffected | src/modules/disposal/drizzle-disposal-service.ts:628-649 | the whole new state, and each refusal |
| DisposalService.Service.AssertUsableEvidence | src/modules/disposal/drizzle-disposal-service.ts:1507-1547 | accepts if and only if every document is a verified disposal photo of the task; otherwise the first misfit decides the refusal |
| DisposalService.Service.SubmitEvidenceBatch | src/modules/disposal/drizzle-disposal-service.ts:651-739 | the whole new state: batch, documents, replaced batches, suspended permissions; and each refusal |
| DisposalService.Service.ReviewEvidenceBatch | src/modules/disposal/drizzle-disposal-service.ts:741-789 | the whole new state, and each refusal |
| DisposalService.Service.PlaceTaskHold | src/modules/disposal/drizzle-disposal-service.ts:791-807 | one live hold at a time, with the reason given; a second one changes nothing |
| DisposalService.Service.ReleaseTaskHold | src/modules/disposal/drizzle-disposal-service.ts:809-826 | releases every unreleased hold of the task, refuses without one |
| DisposalService.Service.IssueAuthorization | src/modules/disposal/drizzle-disposal-service.ts:901-956 | issues if and only if the gate holds on freshly read state, something is covered and the index allows it; states the whole new state |
| DisposalService.Service.RevokeAuthorization | src/modules/disposal/drizzle-disposal-service.ts:966-1015 | retires the permission that was read; unchanged when it was revoked already |
| DisposalService.Service.RecordDeclaration | src/modules/disposal/drizzle-disposal-service.ts:1017-1120 | the whole new state, the no-op repeat, and each refusal |
| DisposalService.Service.CheckBasis | src/modules/disposal/drizzle-disposal-service.ts:1060-1096 | accepts exactly an explained exception, or the live permission the server found, when the policy offers that branch |
| DisposalService.Service.WithdrawInstruction | src/modules/disposal/drizzle-disposal-service.ts:1127-1182 | the version, every live permission under it and every pending batch of its tasks change together |
| DisposalQueue.ListQueue | src/modules/disposal/drizzle-disposal-service.ts:1351-1457 | for every task the bulk scans report the blocking reasons, evidence status, hold reason and latest authorization status that the single-task loader reports, and the columns of the task, its version and its declaration |
| DisposalQueue.LastBatches | src/modules/disposal/drizzle-disposal-service.ts:1421-1422 | overwriting one entry a task in ascending scan order leaves the latest batch |
| DisposalQueue.LiveHolds | src/modules/disposal/drizzle-disposal-service.ts:1423-1423 | the entry of a task is an unreleased hold, present exactly when there is one |
| DisposalQueue.SameReasons | src/modules/disposal/drizzle-disposal-service.ts:1427-1440 | the queue's state without a window gives the same reasons at one instant |
| DocumentLifecycle.EvidenceIsNeverDeleted | src/jobs/draft-cleanup-worker.ts:47-138 | in every interleaving a document under evidence retention exists and is neither deletion_pending nor deleted |
| DocumentLifecycle.EvidenceBytesAreKept | src/jobs/draft-cleanup-worker.ts:114-138 | bytes of a retained document are never removed, over any run |
| DocumentLifecycle.RetainedBytesStay | src/jobs/draft-cleanup-worker.ts:98-138 | no single step removes an object of a retained document |
| DocumentLifecycle.LostStaysLost | src/jobs/draft-cleanup-worker.ts:50-56 | a document on a delete list never returns to a usable status |
| DocumentLifecycle.StepKeepsHarmless | src/jobs/draft-cleanup-worker.ts:47-138 | what a worker is about to remove or mark is lost already, through every step of anyone |
| DocumentLifecycle.StepKeepsEvidence | src/modules/disposal/retention.ts:20-42 | the retention predicate in each guarded update keeps evidence alive |
| DocumentLifecycle.LinkedForever | src/modules/cases/drizzle-case-service.ts:577-587 | a linked document keeps its case, status and pathname over any run |
| DocumentLifecycle.StepKeepsSlots | src/db/schema/documents.ts:63-67 | held slots stay distinct per draft and category and within the rule's maximum |
| DocumentLifecycle.SlotsAreLimited | src/modules/documents/drizzle-document-service.ts:134-164 | in every interleaving at most the allowed number of documents hold slots |
| DocumentLifecycle.Pigeonhole | src/db/schema/documents.ts:63-67 | distinct documents in distinct slots below a bound are no more than the bound |
| DocumentServices.DocumentStore.AuthorizeUpload | src/modules/documents/drizzle-document-service.ts:80-201 | which refusal is answered, in the order of draft, category, size and type; each insert being a statement of its own, takes the lowest slot free at the instant it is tried, and reports the category full if and only if every slot was taken at its instant; a failed authorization takes the row back or leaves it |
| DocumentRuns.UploadIsARun | src/modules/documents/drizzle-document-service.ts:134-201 | an authorised upload is the insert step of the interleaving protocol; taken back, it leaves the table as it found it |
| DocumentRuns.FittingIsExact | src/modules/documents/drizzle-document-service.ts:134-201 | an upload fits a slot if and only if its id and pathname are new and nobody of its draft and category holds the slot |
| DocumentRuns.RuleOfCategory | src/modules/documents/drizzle-document-service.ts:56-109 | a category's own rule decides, and for disposal photos without one ten files of ten megabytes |
| DocumentServices.DocumentStore.ScheduleDraftDocumentDeletion | src/modules/documents/drizzle-document-service.ts:203-268 | needs the live draft and its token; schedules exactly a deletable own document outside retention; a repeat is harmless; evidence in review is refused |
| DocumentRuns.DeletionIsAStep | src/modules/documents/drizzle-document-service.ts:232-268 | the protocol's guarded deletion is possible exactly where the method schedules one, and does the same |
| DocumentRuns.EvidenceRemovalIsExact | src/modules/disposal/drizzle-disposal-service.ts:554-596 | a photo can be removed by its owner if and only if it is unused and not retained; exactly its row waits for deletion, its slot free |
| DocumentServices.DocumentStore.ReconcileRow | src/modules/documents/drizzle-document-service.ts:365-428 | whatever others make of the table between the read, the first update and the verdict, each update applies under its own guard to the row as it is then; fails exactly when the faulty statement is reached |
| DocumentServices.DocumentStore.ReconcileCompletedUpload | src/modules/documents/drizzle-document-service.ts:332-458 | a processed event changes nothing; any other is claimed, the row reconciled among the steps of others, and the event completed; after a fault it can be claimed again |
| DocumentServices.UndisturbedCallback | src/modules/documents/drizzle-document-service.ts:365-428 | undisturbed, an authorised row is verified or rejected by its media type, a row waiting for deletion only gets its pathname, and every other row is left alone |
| DocumentRuns.CallbackIsARun | src/modules/documents/drizzle-document-service.ts:365-428 | with any steps of others before the first update and before the verdict, faults included, a callback is a run of the interleaving protocol that leaves the same table |
| UploadRecovery.UploadIsDecidedExactly | src/modules/documents/drizzle-document-service.ts:377-428 | an uploaded row can still be verified or rejected by some run if and only if a callback that read it as authorised is under way |
| UploadRecovery.CrashedUploadIsNeverDecided | src/modules/documents/drizzle-document-service.ts:377-428 | a row left in uploaded by a lost second update is never verified, rejected or linked, over any run |
| UploadRecovery.CrashLeavesUploadStuck | src/modules/documents/drizzle-document-service.ts:385-428 | the failing run from an empty store, for every draft, category and media type: inserted, read, landed, crashed, and undecidable since |
| DocumentServices.CleanupWorker.Claim | src/jobs/draft-cleanup-worker.ts:98-111 | claims exactly a deletable document outside retention |
| DocumentServices.CleanupWorker.RemoveBlob | src/jobs/draft-cleanup-worker.ts:114-138 | the row is marked deleted if and only if the object is gone |
| DocumentServices.CleanupWorker.RunBatch | src/jobs/draft-cleanup-worker.ts:47-90 | both scans are limited scans of the table as it was; the loops then do the two folds to the table as others left it, a row whose claim is lost being passed over |
| DocumentServices.CountersAddUp | src/jobs/draft-cleanup-worker.ts:74-86 | every row of the first loop is counted once, and of the second at most once |
| DocumentServices.RetainedIsPassedOver | src/jobs/draft-cleanup-worker.ts:82-111 | a document retained by the time the second loop runs keeps its row and its bytes, whenever it was scanned |
| CleanupProgress.DeletedOnlyWhenDueOrAsked | src/jobs/draft-cleanup-worker.ts:60-90 | in every interleaving a document waits for deletion or is deleted only after its deadline passed or because its consumer asked |
| CleanupProgress.UnexpiredIsSpared | src/jobs/draft-cleanup-worker.ts:60-74 | a batch leaves row and bytes of every document whose deadline is ahead and that was not waiting for deletion |
| CleanupProgress.DueIsTaken | src/jobs/draft-cleanup-worker.ts:60-90 | a batch whose scan is not full takes every undecided or unused, unretained document past its deadline: deleted with its object, or waiting when removal fails |
| CleanupProgress.WaitingIsRetried | src/jobs/draft-cleanup-worker.ts:50-80 | a document waiting for deletion is retried, and deleted exactly when its object goes |
| CleanupProgress.SettledIsSpared | src/jobs/draft-cleanup-worker.ts:60-111 | a batch leaves linked, rejected and retained documents, however long ago they expired |
| CleanupRuns.ScansAreSteps | src/jobs/draft-cleanup-worker.ts:53-74 | the scans of a batch are steps of the interleaving protocol |
| CleanupRuns.BatchIsARun | src/jobs/draft-cleanup-worker.ts:74-138 | from any state in which the scans were made, whatever others did since, both loops are a run of the protocol with the very effect of the method |
| EvidenceRules.AssertDocumentsSubmittable | src/modules/cases/evidence-requirements.ts:27-61 | the failing ids are exactly those of unfit documents and of submitted ids that were not found |
| EvidenceRules.NothingFails | src/modules/cases/evidence-requirements.ts:22-61 | on a real selection nothing fails if and only if every submitted id is a verified row of the draft past the malware policy |
| EvidenceRules.AssertEvidenceRequirements | src/modules/cases/evidence-requirements.ts:79-97 | accepts if and only if every rule's count is within its maximum and meets its minimum unless waived |
| EvidenceRules.TallyCountsDocuments | src/modules/cases/evidence-requirements.ts:86-86 | the filtered length counts distinct submitted documents of the category |
| ClaimSubmission.OneCasePerDraft | src/modules/cases/drizzle-case-service.ts:253-262 | over every run with concurrent submissions, retries and losers a draft yields at most one case |
| ClaimSubmission.LinkedDocumentsStay | src/modules/cases/drizzle-case-service.ts:577-587 | a case's documents are exactly the submitted ones for ever |
| ClaimSubmission.CommitLinksExactly | src/modules/cases/drizzle-case-service.ts:577-587 | a commit links exactly the submitted documents, all verified, owned by the draft and free until then |
| ClaimSubmission.LinkedAsChecked | src/modules/cases/drizzle-case-service.ts:378-409 | however long a submission stays open, the rows it links are the rows it checked, and the new case meets every rule of the pinned version |
| ClaimSubmission.RetryGetsTheSameResponse | src/modules/cases/drizzle-case-service.ts:253-283 | for as long as its record lives, a repeat gets the identical response and opens nothing even if draft or campaign ended; another request under the key is refused |
| ClaimSubmission.LoserWritesNothing | src/modules/cases/drizzle-case-service.ts:657-684 | an open transaction that lost its key writes nothing and gets the winner's response or a conflict |
| ClaimSubmission.StepKeepsInv | src/modules/cases/drizzle-case-service.ts:222-636 | cases, drafts, documents, records and open transactions stay consistent through every step |
| ClaimSubmission.FirstFree | src/modules/cases/drizzle-case-service.ts:417-441 | a candidate no case has, none exactly when all are taken |
| ClaimProgress.ReadyIsExact | src/modules/cases/drizzle-case-service.ts:222-409 | a submission is let through if and only if the request is complete, the draft is live and the caller's, its campaign active under the requested slug, the key free, and consents, documents and counts are fit |
| ClaimProgress.RefusalsAreExact | src/modules/cases/drizzle-case-service.ts:253-409 | what the owner of a draft is told otherwise, each answer with its exact condition |
| ClaimProgress.TokensGuard | src/modules/cases/drizzle-case-service.ts:243-252 | without the draft's token the answer is the one for a draft that does not exist |
| ClaimProgress.SubmissionOpensACase | src/modules/cases/drizzle-case-service.ts:222-636 | whoever is let through, unhindered and with a free reference, gets a case from start to end: the draft submitted, its documents linked, the answer on record for 24 hours |
| ClaimProgress.RecordsTellTheTruth | src/modules/cases/drizzle-case-service.ts:600-636 | in every reachable world a stored answer is the one of the case it opened, kept for a day |
| ClaimProgress.AnswersDoNotWait | src/modules/cases/drizzle-case-service.ts:222-252 | a call that is answered from what is there waits for its own draft only |
| ClaimProgress.FirstFreeIsFirst | src/modules/cases/drizzle-case-service.ts:417-441 | the reference is the first candidate nobody has |
| ClaimService.CaseService.Submit | src/modules/cases/drizzle-case-service.ts:199-684 | the whole outcome: the answer of the first check that fails or replays, or all rows at once on top of what others committed, or a rollback with the recovered answer |
| ClaimService.CaseService.Check | src/modules/cases/drizzle-case-service.ts:222-409 | the first check that decides, in the order they are made |
| ClaimService.CaseService.CheckDocuments | src/modules/cases/drizzle-case-service.ts:378-409 | accepts if and only if every id is a fit row and every rule is met by the number of distinct documents |
| ClaimService.CaseService.ValidateConsents | src/modules/cases/drizzle-case-service.ts:719-745 | accepts exactly the two required consents, once each, the privacy one for the version's own notice |
| ClaimService.CaseService.HasDuplicates | src/modules/cases/drizzle-case-service.ts:286-288 | finds a repeated id if and only if there is one |
| ClaimService.CaseService.AllocateReference | src/modules/cases/drizzle-case-service.ts:417-441 | the first of three candidates that no case has |
| Outbox.MessageTables.Queue | src/modules/communications/queue-service.ts:41-63 | both rows or neither, and neither exactly when the message key exists |
| Outbox.MessageTables.Claim | src/jobs/drizzle-outbox-worker.ts:42-63 | claims due rows only, each once, each charged one attempt, and misses none below the limit |
| Outbox.MessageTables.ProcessEvent | src/jobs/drizzle-outbox-worker.ts:87-183 | the row and its message move together, or the row is retried or given up |
| Outbox.MessageTables.RunBatch | src/jobs/drizzle-outbox-worker.ts:39-85 | claimed equals succeeded plus failed, every claimed row and its message end as the attempt decides, and nothing else changes |
| Outbox.MessageTables.RecordDeliveryEvent | src/modules/communications/drizzle-communication-service.ts:23-81 | a provider event is applied once, and only to the message with that provider id |
| Outbox.StepKeepsInv | src/jobs/drizzle-outbox-worker.ts:39-195 | pairing, exclusive holding, bounded attempts and the joint sent state are kept by every step of any worker or webhook |
| Outbox.QueueNeverConflicts | src/modules/communications/queue-service.ts:54-63 | the conflict clause of the outbox insert is never taken |
| Outbox.KeysAgree | src/modules/communications/queue-service.ts:41-63 | a key is free among messages if and only if it is free among outbox rows |
| Outbox.SucceededMeansSent | src/jobs/drizzle-outbox-worker.ts:168-181 | in every interleaving a row is succeeded if and only if its message has a provider id and is no longer queued |
| Outbox.OneHolder | src/jobs/drizzle-outbox-worker.ts:42-63 | in every interleaving an event is held by one worker at most, a pending row has attempts left, sends never exceed attempts and attempts never exceed five |
| Outbox.FinalStaysFinal | src/jobs/drizzle-outbox-worker.ts:160-195 | succeeded and dead-lettered rows never change and are never sent again |
| Outbox.BatchAddsUp | src/jobs/drizzle-outbox-worker.ts:67-84 | in every interleaving a finished batch reports as many outcomes as it claimed |
| Outbox.ClaimsAreBudgeted | src/jobs/drizzle-outbox-worker.ts:185-195 | all future claims are paid for by the attempts left on unfinished rows plus five for each message queued later |
| OutboxProgress.FiveClaimsARow | src/jobs/drizzle-outbox-worker.ts:42-63 | over every run of any number of workers all claims are at most five for each row |
| OutboxProgress.GivenUpAfterFive | src/jobs/drizzle-outbox-worker.ts:185-195 | in every interleaving a dead-lettered row has used exactly five attempts and its message was not sent |
| OutboxProgress.FailureIsRetried | src/jobs/drizzle-outbox-worker.ts:185-195 | a failed attempt below the fifth is pending again and due exactly from its delay on; the fifth is the last |
| OutboxProgress.DelaysDouble | src/jobs/drizzle-outbox-worker.ts:191-191 | the delay starts at a second and doubles up to a minute |
| OutboxProgress.AttemptDecides | src/jobs/drizzle-outbox-worker.ts:87-195 | a due row after one attempt: succeeded if and only if the provider accepted, dead-lettered if and only if it refused the fifth time, else pending for its delay |
| OutboxProgress.DueIsAttempted | src/jobs/drizzle-outbox-worker.ts:42-183 | in every state an idle worker can claim and attempt a due row, with the effect the provider's answer has |
| OutboxProgress.UnsendableFails | src/jobs/drizzle-outbox-worker.ts:87-135 | a row that cannot be sent fails its attempt without a call to the provider |
| OutboxProgress.ReportIsApplied | src/modules/communications/drizzle-communication-service.ts:23-81 | whatever happens between a webhook's arrival and its update, its message reads as arrived exactly after a delivery, bounced exactly after a bounce, failed after a complaint or failure |
| OutboxProgress.LookupsFind | src/modules/communications/drizzle-communication-service.ts:47-63 | a webhook finds a message if and only if one carries the provider's id |
| OutboxRuns.BatchIsARun | src/jobs/drizzle-outbox-worker.ts:39-85 | what the batch method leaves of both tables is what one claim and its attempts, as steps of the interleaving protocol, lead to |
| OutboxRuns.PromisesAreExact | src/jobs/drizzle-outbox-worker.ts:67-83 | with lost acknowledgements, the invariants of the outbox hold throughout a run if and only if no worker reports a delivered row as failed |
| OutboxRuns.FinalRowsChangeOnlyLate | src/jobs/drizzle-outbox-worker.ts:75-81 | a succeeded or dead-lettered row changes in a step if and only if the step is the late report of its own commit |
| OutboxRuns.LateReportBreaksThePromises | src/jobs/drizzle-outbox-worker.ts:67-83 | the failing run from empty tables: queued, claimed, sent, committed without acknowledgement, reported as failed |
| OutboxRuns.LateReportsStayBounded | src/jobs/drizzle-outbox-worker.ts:67-83 | over every run with lost acknowledgements and late reports an event has one holder at most, a pending row has attempts left, sends stay within attempts within five, a delivered row's message has left, and every worker's counters add up |
| CaseClosure.ClosedCasesAreReviewed | src/modules/admin/drizzle-admin-service.ts:1384-1436 | in every reachable state a closed case with an incident has a decided review, and every review an escalation owes exists |
| CaseClosure.StepKeepsInv | src/modules/admin/drizzle-admin-service.ts:1299-1496 | forced and ordinary transitions alike keep it |
| CaseClosure.DecisionsAreFinal | src/modules/admin/drizzle-admin-service.ts:568-627 | among operations that run one at a time a decided review is never changed |
| CaseClosure.ClosingSeesEveryEscalation | src/modules/admin/drizzle-admin-service.ts:1384-1404 | with at most twenty escalations no step into closed leaves one open |
| CaseClosure.ClosureGateIsExact | src/modules/admin/drizzle-admin-service.ts:1384-1436 | for every case and every transition that may ask: closing can go through if and only if its incident, if any, has a decided review, and the limited query can fill up with escalations that are closed and owe nothing undecided, because there are no others or twenty of them |
| CaseClosure.EscalationGateIsExact | src/modules/admin/drizzle-admin-service.ts:1384-1404 | closing can leave an escalation open if and only if the case has twenty closed ones that owe nothing undecided |
| CaseClosure.OwedReviewGateIsExact | src/modules/admin/drizzle-admin-service.ts:1397-1436 | closing can go through without the decided review an escalation requires if and only if there is no incident and there are twenty closed escalations that require none |
| CaseClosure.ReadCanMiss | src/modules/admin/drizzle-admin-service.ts:1386-1390 | a limited read can miss all rows of a kind if and only if there is none or there are twenty others |
| CaseClosure.OnlyWhoMayAskCloses | src/modules/admin/drizzle-admin-service.ts:1299-1383 | whatever is read, a case is closed only by a permitted or forced move whose note is in bounds and reason given |
| CaseProgress.TransitionIsExact | src/modules/admin/drizzle-admin-service.ts:1299-1496 | short of closing a transition goes through if and only if its note is in bounds, a reason is there where one is owed, and the workflow allows it or force stands in |
| CaseProgress.TransitionLeaves | src/modules/admin/drizzle-admin-service.ts:1438-1496 | exactly the case gets exactly the status that was asked for |
| CaseProgress.ClosureRefusalsAreExact | src/modules/admin/drizzle-admin-service.ts:1384-1436 | each refusal of a closure has its exact condition on the rows that were read; force helps against none of them |
| CaseProgress.DecisionIsExact | src/modules/admin/drizzle-admin-service.ts:568-627 | a pending review is decided if and only if the filing is complete and not dated more than 26 hours ahead, or the decision not to file carries neither date nor evidence; only its status changes |
| CaseProgress.EscalationIsExact | src/modules/admin/drizzle-admin-service.ts:1101-1165 | an escalation opens if and only if reason, case and any named review are there and the incident is not reviewed elsewhere |
| CaseProgress.EscalationLeaves | src/modules/admin/drizzle-admin-service.ts:1101-1165 | one open escalation, and for the five grave categories the pending review the case owes; nothing else moves |
| CaseProgress.EscalationClosingIsExact | src/modules/admin/drizzle-admin-service.ts:1167-1190 | exactly an open escalation is closed, with evidence |
| HiddenEscalations.TwentyClosedHideAnOpenOne | src/modules/admin/drizzle-admin-service.ts:1384-1404 | reached from empty tables: a case with one open and n closed escalations of one category, the owed review in any state; some read closes it if and only if n is at least twenty and no owed review is pending |
| HiddenEscalations.TwentyOthersHideAnOwedReview | src/modules/admin/drizzle-admin-service.ts:1397-1436 | reached from empty tables: a closed escalation owes a review that is pending, beside n closed ones that owe none; some read closes the case if and only if n is at least twenty |
| ReviewRaces.OpeningIsAtomic | src/modules/admin/drizzle-admin-service.ts:1101-1165 | whatever an opener read, its commit does what the whole operation would do at that instant, so concurrent openers of a case agree on one review |
| ReviewRaces.ClosedCasesAreReviewedUnderRaces | src/modules/admin/drizzle-admin-service.ts:568-627 | in every reachable state of overlapping openers and deciders a closed case with an incident has a decided review, and every owed review exists |
| ReviewRaces.NeverReopened | src/modules/admin/drizzle-admin-service.ts:568-627 | a decided review never goes back to pending, over any run of overlapping transactions |
| ReviewRaces.DecisionCanChangeExactly | src/modules/admin/drizzle-admin-service.ts:574-626 | a decision already taken can still change if and only if a decider that read the review as pending has yet to commit a different one |
| ReviewRaces.DecisionIsReplaced | src/modules/admin/drizzle-admin-service.ts:574-626 | the failing run from empty tables, for every case, category and pair of different decisions |
| CaseClosure.AdminService.TransitionCaseStatus | src/modules/admin/drizzle-admin-service.ts:1299-1496 | the whole new state and every refusal, in order, for every admissible read |
| CaseClosure.AdminService.CloseReportabilityReview | src/modules/admin/drizzle-admin-service.ts:568-627 | the whole new state and every refusal |
| CaseClosure.AdminService.OpenCaseEscalation | src/modules/admin/drizzle-admin-service.ts:1101-1165 | the escalation with the review it names or owes, and the pending review when the case has none; every refusal |
| CaseClosure.AdminService.CloseCaseEscalation | src/modules/admin/drizzle-admin-service.ts:1167-1190 | closes exactly an open escalation |
| CaseExport.ExportCases | src/modules/admin/drizzle-admin-service.ts:283-299 | keys strictly descend, every case present throughout is exported once, the loop ends, and on a fixed table the export is the whole sorted table for any page size |
| CaseExport.ListCases | src/modules/admin/drizzle-admin-service.ts:166-281 | a page is the newest rows past the cursor, and a next cursor is given exactly when the page is full and more lie behind it |
| CaseExport.DescendingIsUnique | src/modules/admin/drizzle-admin-service.ts:193-226 | two strictly descending listings of the same cases are equal |
| CaseExport.PageCovers | src/modules/admin/drizzle-admin-service.ts:283-299 | after a page an old case is on it or still ahead, whatever was inserted |
| CanonicalJson.CanonicalTextIdentifies | src/modules/cases/normalization.ts:17-50 | two values have the same canonical text if and only if they are equal up to key order at every depth |
| CanonicalJson.CanonicalIffEquivalent | src/modules/cases/normalization.ts:17-42 | canonical forms agree exactly on equivalent values |
| CanonicalJson.CanonicalizeIsIdempotent | src/modules/cases/normalization.ts:17-42 | canonicalising twice equals once |
| CanonicalJson.WriteIsInjective | src/modules/cases/normalization.ts:48-50 | distinct values have distinct serialisations, escapes of section 7 of RFC 8259 included |
| CanonicalJson.QuoteIsInjective | src/modules/cases/normalization.ts:48-50 | quoted strings can be told apart and end where they end |
| CanonicalJson.ArrangeIsCanonical | src/modules/cases/normalization.ts:34-39 | the order of an object's entries depends on the entries alone |
| CanonicalJson.CanonicalIsAccepted | src/modules/cases/normalization.ts:17-42 | canonicalising throws on a canonical form exactly when it threw before |
| CanonicalJson.RequestHashIdentifies | src/modules/cases/normalization.ts:75-77 | with an injective hash, requests hash alike if and only if they are equivalent |
| CanonicalForm.AcceptingIsExact | src/modules/cases/normalization.ts:17-42 | canonicalising throws if and only if a number that is not finite, or a value that is not JSON, stands somewhere inside |
| CanonicalForm.IndexKeyIsExact | src/modules/cases/normalization.ts:34-39 | the keys an object lists before all others are exactly the decimal texts of the numbers up to 2^32 - 2 |
| CanonicalForm.IndexKeysByNumber | src/modules/cases/normalization.ts:34-39 | among them the smaller number comes first |
| CanonicalForm.CanonicalTextIsPaired | src/modules/cases/normalization.ts:48-50 | a canonical text never has a lone surrogate, whatever strings it carries, so encoding it for the hash loses nothing |
| ErrorSearch.ErrorHasCode | src/shared/errors.ts:246-267 | true only if a reachable object matches, and whenever one does and at most 64 objects are reachable; terminates on cycles |
| ErrorSearch.IsUniqueViolationWithConstraint | src/shared/errors.ts:218-244 | the same for a unique violation of the named constraint |
| ErrorSearch.Search | src/shared/errors.ts:246-267 | the shared walk: sound, and complete up to 64 reachable objects |
| ErrorSearch.Exhausted | src/shared/errors.ts:246-267 | when the walk stops without a match, nothing reachable matches |
| ErrorSearch.ReachSetIsLeast | src/shared/errors.ts:246-267 | what is reachable is the least set with the root that is closed under causes and nested errors |
| RateLimiter.InMemoryRateLimiter.Check | src/middleware/rate-limit.ts:101-124 | the new table and the whole decision, with the smallest sufficient number of retry seconds |
| RateLimiter.QuotaOfKey | src/middleware/rate-limit.ts:101-104 | a key's quota is that of the category in front of its first colon, sixty without one |
| RateLimiter.WindowsStartApart | src/middleware/rate-limit.ts:108-112 | two different windows of a key start at least one window length apart |
| RateLimiter.QuotaPerWindow | src/middleware/rate-limit.ts:114-122 | one window lets at most the limit through, or one request when the limit is smaller |
| RateLimiter.OpenerIsAllowed | src/middleware/rate-limit.ts:106-112 | the request that opens a window is let through, whatever the limit |
| RateLimiter.QuotaIsExact | src/middleware/rate-limit.ts:101-124 | no window of any trace lets more than the limit through if and only if the limit is at least one |
| RateLimiter.AnyInterval | src/middleware/rate-limit.ts:101-124 | any half-open interval of one window length lets at most twice the limit minus one through |
| RateLimiter.BoundIsTight | src/middleware/rate-limit.ts:101-124 | some trace meets that bound if and only if the limit is one or a window has at least two instants |
| RateLimiter.KeysAreIndependent | src/middleware/rate-limit.ts:106-112 | what is stored for a key depends on its own requests only |
| RateLimiter.RetryAfterIsEnough | src/middleware/rate-limit.ts:115-121 | a refused caller that waits the reported seconds is let in |

## Left out

- Races between statements inside one transaction, except those of `ReviewRaces`: a transaction
  body is atomic, at read-committed isolation too. `submitEvidenceBatch` takes no task lock, so for
  it this is an assumption.
- One reading of the clock serves the loading and the deciding of a disposal operation, except in
  the hard gate, where both readings are modelled.
- The campaign and version rows a submission reads are not locked between its checks and its
  writes; documents and the draft are, and are modelled so.
- Authoring instruction versions, recording approvals and publishing are steps of the disposal
  machine but have no method in the service class.
- DisposalQueue.ListQueue: which tasks are listed, their order, and the case reference and creation time of a row are not modelled; the listed tasks are a parameter.
- DocumentLifecycle.EvidenceIsNeverDeleted: token, draft and policy guards of the consumer routes are left out of the steps, since they only forbid more.
- DocumentLifecycle.EvidenceBytesAreKept: says nothing about a deleted row having no bytes, because a late callback can store a new pathname.
- DocumentServices.DocumentStore.ReconcileCompletedUpload: a second delivery of the same event comes before or after, not during; size, scan status and the stored payload are not columns of the model.
- DocumentServices.CleanupWorker.RunBatch: others act between the scans and the loops only; what they do during the loops is covered by the protocol, through CleanupRuns.
- ClaimSubmission.RetryGetsTheSameResponse: product, remedy, snapshot and identification checks are one parameter, since a replay never reaches them.
- ClaimService.CaseService.Submit: consumer, product, consent, snapshot, incident and event rows, encryption and the disposal task's own rows are not written; the response carries the task id.
- ClaimService.CaseService.Check: whether the product, remedy, snapshot and identification data are valid is one parameter, tested where the code tests it.
- CaseExport.ExportCases: restricted to the key (submittedAt, id); the incident listing, whose cursor loses precision, is left out.
- CaseExport.ListCases: filters, search, totals and malformed cursors are left out; the table stands for the rows that match.
- CanonicalJson.CanonicalTextIdentifies: a number is its shortest round-trip text, so minus zero equals zero; two-way equality of such texts and numbers is taken from the language.
- Outbox.OneHolder: a worker that crashes leaves its rows in processing, and nothing retries them.
- OutboxRuns.PromisesAreExact: a fault of the catch's own read is a worker that stops; a worker reports one lost acknowledgement at a time, as the loop does.
- CaseClosure.AdminService.TransitionCaseStatus: whether the workflow matrix allows a move is a parameter; the dispatched e-mail and events are left out.
- CaseClosure.AdminService.OpenCaseEscalation: one step here; that overlapping openers come to the same is ReviewRaces.OpeningIsAtomic.
- The resolution service, product identification, staff access, encryption, HTTP routes, e-mail
  templates and clients of other services.
