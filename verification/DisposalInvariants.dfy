/**
 * What every transaction of the disposal service keeps, and what follows over whole runs:
 * one live permission a task, dense batch numbers, absorbing acceptance, one declaration
 * exactly on completion, frozen coverage, one hold at a time.
 */
module DisposalInvariants {
  import opened Prelude
  import opened DisposalPolicy
  import opened Coverage
  import opened DisposalTables

  // ---- batches --------------------------------------------------------------

  predicate HasNumber(batches: map<BatchId, Batch>, t: TaskId, n: nat) {
    exists b :: b in batches && batches[b].task == t && batches[b].number == n
  }

  /** The batch numbers of a task are 1..n without gaps or repetition. */
  ghost predicate NumbersDense(batches: map<BatchId, Batch>) {
    (forall b, k: nat :: b in batches && 1 <= k <= batches[b].number ==> HasNumber(batches, batches[b].task, k)) &&
    (forall b :: b in batches ==> batches[b].number >= 1) &&
    (forall b, c ::
      b in batches && c in batches && batches[b].task == batches[c].task && batches[b].number == batches[c].number ==>
        b == c)
  }

  /** Every batch that a later one replaced is superseded. */
  ghost predicate OnlyLastLive(batches: map<BatchId, Batch>) {
    forall b, c ::
      b in batches && c in batches && batches[b].task == batches[c].task && batches[b].number < batches[c].number ==>
      batches[b].status == Superseded
  }

  ghost predicate KeysUnique(batches: map<BatchId, Batch>) {
    forall b, c :: b in batches && c in batches && batches[b].key == batches[c].key ==> b == c
  }

  ghost predicate BatchesOk(batches: map<BatchId, Batch>) {
    NumbersDense(batches) && OnlyLastLive(batches) && KeysUnique(batches)
  }

  /** Same batches up to their statuses, and nothing superseded comes back. */
  ghost predicate OnlyStatuses(before: map<BatchId, Batch>, after: map<BatchId, Batch>) {
    before.Keys == after.Keys &&
    forall b ::
      b in before ==>
        after[b] == before[b].(status := after[b].status) &&
        (before[b].status == Superseded ==> after[b].status == Superseded)
  }

  lemma StatusesKeepBatches(before: map<BatchId, Batch>, after: map<BatchId, Batch>)
    requires BatchesOk(before) && OnlyStatuses(before, after)
    ensures BatchesOk(after)
  {
    forall b, k: nat | b in after && 1 <= k <= after[b].number ensures HasNumber(after, after[b].task, k) {
      assert HasNumber(before, before[b].task, k);
    }
    hide HasNumber;
  }

  function Appended(
      batches: map<BatchId, Batch>, t: TaskId, last: Option<BatchId>, b: BatchId, key: Key): map<BatchId, Batch>
  {
    batches[b := Batch(t, NextNumber(batches, last), Pending, key)]
  }

  /** Once the last batch may be replaced, replacing leaves nothing of the task but superseded batches. */
  lemma EverythingIsReplaced(batches: map<BatchId, Batch>, t: TaskId, last: Option<BatchId>, c: BatchId)
    requires BatchesOk(batches) && LatestBatchRow(batches, t, last) && c in batches && batches[c].task == t
    requires last.Some? ==> Replaceable(Some(batches[last.value].status))
    ensures Supersede(batches, OpenBatches(batches, t))[c].status == Superseded
  {
    assert batches[c].number < batches[last.value].number || c == last.value;
  }

  lemma AppendKeepsLast(batches: map<BatchId, Batch>, t: TaskId, last: Option<BatchId>, b: BatchId, key: Key)
    requires OnlyLastLive(batches) && KeysUnique(batches) && LatestBatchRow(batches, t, last) && b !in batches
    requires forall c ::
      c in batches ==> batches[c].key != key && (batches[c].task == t ==> batches[c].status == Superseded)
    ensures OnlyLastLive(Appended(batches, t, last, b, key)) && KeysUnique(Appended(batches, t, last, b, key))
  {
  }

  /** A status change is invisible to the queries for numbers and keys. */
  lemma StatusesKeepReads(
      before: map<BatchId, Batch>, after: map<BatchId, Batch>, t: TaskId, last: Option<BatchId>, key: Key)
    requires OnlyStatuses(before, after) && LatestBatchRow(before, t, last) && KeyRow(before, key, None)
    ensures LatestBatchRow(after, t, last) && KeyRow(after, key, None) &&
      NextNumber(after, last) == NextNumber(before, last)
  {
  }

  /** A new batch takes the next number; the one it replaces was not accepted. */
  lemma SubmissionKeepsBatches(batches: map<BatchId, Batch>, t: TaskId, last: Option<BatchId>, b: BatchId, key: Key)
    requires BatchesOk(batches) && LatestBatchRow(batches, t, last) && b !in batches && KeyRow(batches, key, None)
    requires last.Some? ==> Replaceable(Some(batches[last.value].status))
    ensures BatchesOk(Supersede(batches,
      OpenBatches(batches, t))[b := Batch(t, NextNumber(batches, last), Pending, key)])
  {
    var replaced := Supersede(batches, OpenBatches(batches, t));
    forall c | c in replaced && replaced[c].task == t ensures replaced[c].status == Superseded {
      EverythingIsReplaced(batches, t, last, c);
    }
    hide OnlyLastLive, NumbersDense, KeysUnique;
    StatusesKeepBatches(batches, replaced);
    StatusesKeepReads(batches, replaced, t, last, key);
    hide OnlyStatuses, LatestBatchRow, Supersede;
    SubmissionKeepsNumbers(replaced, t, last, b, key);
    AppendKeepsLast(replaced, t, last, b, key);
  }

  lemma SubmissionKeepsNumbers(batches: map<BatchId, Batch>, t: TaskId, last: Option<BatchId>, b: BatchId, key: Key)
    requires NumbersDense(batches) && LatestBatchRow(batches, t, last) && b !in batches
    ensures NumbersDense(Appended(batches, t, last, b, key))
  {
    var after := Appended(batches, t, last, b, key);
    forall c, k: nat | c in after && 1 <= k <= after[c].number ensures HasNumber(after, after[c].task, k) {
      if c == b && k == after[b].number {
        assert after[b].task == t && after[b].number == k;
      } else {
        var from := if c == b then last.value else c;
        assert HasNumber(batches, batches[from].task, k);
        var d :| d in batches && batches[d].task == batches[from].task && batches[d].number == k;
        assert after[d] == batches[d];
      }
    }
  }

  // ---- which transaction touches what -----------------------------------------

  /** Every transaction changes a few tables only. */
  lemma Frames(db: Db, op: Op)
    requires Possible(db, op)
    ensures var after := After(db, op);
      match op
      case OpCreateTask(_, _, _, _, _) =>
        after == db.(tasks := after.tasks, products := after.products, holds := after.holds)
      case OpConfirmEligibility(_, _, _) => after == db.(tasks := after.tasks)
      case OpConfirmProduct(_, _, _) => after == db.(products := after.products)
      case OpSubmit(_, _, _, _, _, _) =>
        after == db.(batches := after.batches, documents := after.documents, authorizations := after.authorizations)
      case OpReview(_, _) => after == db.(reviews := after.reviews, batches := after.batches)
      case OpPlaceHold(_, _, _) => after == db.(holds := after.holds)
      case OpReleaseHold(_) => after == db.(holds := after.holds)
      case OpIssue(_, _, _, _, _, _) => after == db.(authorizations := after.authorizations, items := after.items)
      case OpRevoke(_, _) => after == db.(authorizations := after.authorizations)
      case OpDeclare(_, _, _, _, _) => after == db.(declarations := after.declarations, tasks := after.tasks)
      case OpWithdraw(_) =>
        after == db.(versions := after.versions, authorizations := after.authorizations, batches := after.batches)
      case OpCreateVersion(_, _, _, _) => after == db.(versions := after.versions)
      case OpRecordApproval(_, _, _, _, _, _) => after == db.(approvals := after.approvals)
      case OpPublish(_) => after == db.(versions := after.versions)
  {
    hide CreateTask, ConfirmEligibility, ConfirmProduct, SubmitBatch, DecideBatch, PutHold, LiftHold, Issue, Revoke,
      Declare;
    hide Withdraw, CreateVersion, RecordApproval, Publish, Possible;
  }

  /** Every table is changed by a few transactions only. */
  lemma Untouched(db: Db, op: Op)
    requires Possible(db, op)
    ensures !op.OpSubmit? && !op.OpReview? && !op.OpWithdraw? ==> After(db, op).batches == db.batches
    ensures !op.OpSubmit? && !op.OpIssue? && !op.OpRevoke? && !op.OpWithdraw? ==>
      After(db, op).authorizations == db.authorizations
    ensures !op.OpWithdraw? && !op.OpCreateVersion? && !op.OpPublish? ==> After(db, op).versions == db.versions
    ensures !op.OpCreateTask? && !op.OpConfirmEligibility? && !op.OpDeclare? ==> After(db, op).tasks == db.tasks
    ensures !op.OpCreateTask? && !op.OpConfirmProduct? ==> After(db, op).products == db.products
    ensures !op.OpDeclare? ==> After(db, op).declarations == db.declarations
    ensures !op.OpReview? ==> After(db, op).reviews == db.reviews
    ensures !op.OpCreateTask? && !op.OpPlaceHold? && !op.OpReleaseHold? ==> After(db, op).holds == db.holds
    ensures !op.OpIssue? ==> After(db, op).items == db.items
    ensures !op.OpRecordApproval? ==> After(db, op).approvals == db.approvals
  {
    hide After, Possible;
    Frames(db, op);
  }

  /** A submission that goes through found the latest batch absent or replaceable. */
  lemma SubmissionEffect(db: Db, op: Op)
    requires op.OpSubmit? && Possible(db, op)
    ensures var s, after := op.submission, After(db, op);
      after == db ||
      (s.task in db.tasks && Reads(db, s.task, op.now, op.view) && op.existing.None? && op.batch !in db.batches &&
       MaySubmitEvidence(StateOf(db, s.task, op.view), op.now) &&
       (op.view.batch.Some? ==> Replaceable(Some(db.batches[op.view.batch.value].status))) &&
       after.batches ==
         Supersede(db.batches, OpenBatches(db.batches, s.task))[op.batch := Batch(s.task,
           NextNumber(db.batches, op.view.batch), Pending, s.key)] &&
       after.authorizations == Suspend(db.authorizations, ActiveOf(db.authorizations, s.task)))
  {
    hide CreateTask, ConfirmEligibility, ConfirmProduct, DecideBatch, PutHold, LiftHold, Issue, Revoke, Declare,
      Withdraw, CreateVersion, RecordApproval, Publish;
  }

  lemma StepKeepsBatches(db: Db, op: Op)
    requires BatchesOk(db.batches) && Possible(db, op)
    ensures BatchesOk(After(db, op).batches)
  {
    Untouched(db, op);
    if op.OpSubmit? {
      SubmissionEffect(db, op);
      var after := After(db, op);
      hide After, Apply, BatchesOk;
      if after != db {
        SubmissionKeepsBatches(db.batches, op.submission.task, op.view.batch, op.batch, op.submission.key);
      }
    } else if op.OpReview? || op.OpWithdraw? {
      StatusesChange(db, op);
      hide After, Apply, BatchesOk, OnlyStatuses;
      StatusesKeepBatches(db.batches, After(db, op).batches);
    }
  }

  lemma StatusesChange(db: Db, op: Op)
    requires (op.OpReview? || op.OpWithdraw?) && Possible(db, op)
    ensures OnlyStatuses(db.batches, After(db, op).batches)
  {
    hide CreateTask, ConfirmEligibility, ConfirmProduct, SubmitBatch, PutHold, LiftHold, Issue, Revoke, Declare,
      CreateVersion, RecordApproval, Publish;
  }

  // ---- permissions ----------------------------------------------------------

  /** What a live permission rests on: an accepted batch of its task, and the approved version the task is pinned to. */
  predicate Rests(db: Db, a: Authorization) {
    a.batch in db.batches && db.batches[a.batch].task == a.task && db.batches[a.batch].status == Accepted &&
    a.task in db.tasks && db.tasks[a.task].version == a.version && a.version in db.versions &&
    db.versions[a.version].status == Approved
  }

  ghost predicate ActiveRests(db: Db) {
    forall a :: a in db.authorizations && db.authorizations[a].status == Active ==> Rests(db, db.authorizations[a])
  }

  predicate SameBasis(a: Authorization, b: Authorization) { a.task == b.task && a.batch == b.batch }

  ghost predicate ActiveIndex(authorizations: map<AuthorizationId, Authorization>) {
    forall a, b ::
      a in ActiveSet(authorizations) && b in ActiveSet(authorizations) &&
      SameBasis(authorizations[a], authorizations[b]) ==>
        a == b
  }

  function ActiveSet(authorizations: map<AuthorizationId, Authorization>): set<AuthorizationId> {
    set a | a in authorizations && authorizations[a].status == Active
  }

  ghost predicate NoNewActive(before: map<AuthorizationId, Authorization>, after: map<AuthorizationId, Authorization>) {
    forall a :: a in after && after[a].status == Active ==> a in before && before[a] == after[a]
  }

  lemma BatchSupport(db: Db, op: Op)
    requires Possible(db, op)
    ensures forall b ::
      b in db.batches && db.batches[b].status == Accepted ==>
        b in After(db, op).batches && After(db, op).batches[b] == db.batches[b]
  {
  }

  lemma TaskSupport(db: Db, op: Op)
    requires Possible(db, op)
    ensures forall t ::
      t in db.tasks ==> t in After(db, op).tasks && After(db, op).tasks[t].version == db.tasks[t].version
  {
  }

  lemma VersionSupport(db: Db, op: Op)
    requires Possible(db, op) && !op.OpWithdraw?
    ensures forall v ::
      v in db.versions && db.versions[v].status == Approved ==>
        v in After(db, op).versions && After(db, op).versions[v].status == Approved
  {
  }

  lemma OnlyIssueActivates(db: Db, op: Op)
    requires Possible(db, op) && !op.OpIssue?
    ensures NoNewActive(db.authorizations, After(db, op).authorizations)
  {
  }

  /** A permission that was issued: the gate held, on the latest batch. */
  lemma IssueEffect(db: Db, op: Op)
    requires op.OpIssue? && Possible(db, op)
    ensures var after := After(db, op);
      after.authorizations == db.authorizations ||
      (op.task in db.tasks && Reads(db, op.task, op.now, op.view) && op.view.batch.Some? &&
        PermissionGate(StateOf(db, op.task, op.view), op.now) &&
       !ActiveTaken(db.authorizations, op.task, op.view.batch.value) &&
       after == db.(authorizations := after.authorizations, items := after.items) &&
       after.authorizations ==
         db.authorizations[op.authorization := Authorization(op.task, op.view.batch.value, db.tasks[op.task].version,
           Active, op.issuedAt)])
  {
    hide CreateTask, ConfirmEligibility, ConfirmProduct, SubmitBatch, DecideBatch, PutHold, LiftHold, Revoke, Declare,
      Withdraw, CreateVersion, RecordApproval, Publish;
  }

  lemma StepKeepsActiveIndex(db: Db, op: Op)
    requires ActiveIndex(db.authorizations) && Possible(db, op)
    ensures ActiveIndex(After(db, op).authorizations)
  {
    hide After, Apply, Possible, PermissionGate;
    if op.OpIssue? {
      IssueEffect(db, op);
    } else {
      OnlyIssueActivates(db, op);
    }
  }

  lemma StepKeepsActiveRests(db: Db, op: Op)
    requires ActiveRests(db) && Possible(db, op)
    ensures ActiveRests(After(db, op))
  {
    if op.OpWithdraw? {
      Untouched(db, op);
      BatchSupport(db, op);
      hide CreateTask, ConfirmEligibility, ConfirmProduct, SubmitBatch, DecideBatch, PutHold, LiftHold, Issue, Revoke,
        Declare, CreateVersion, RecordApproval, Publish;
    } else {
      hide After, Apply, Possible;
      if op.OpIssue? {
        IssueEffect(db, op);
        Untouched(db, op);
      } else {
        OnlyIssueActivates(db, op);
        BatchSupport(db, op);
        TaskSupport(db, op);
        VersionSupport(db, op);
      }
    }
  }

  // ---- tasks, declarations, holds, reviews, items -----------------------------

  /** A task is open or completed, and completed exactly when it has its declaration. */
  ghost predicate CompletedIffDeclared(tasks: map<TaskId, Task>, declarations: map<TaskId, Declaration>) {
    (forall t :: t in tasks ==>
      (tasks[t].status == Open || tasks[t].status == Completed) &&
      (tasks[t].status == Completed <==> t in declarations)) &&
    forall t :: t in declarations ==> t in tasks
  }

  ghost predicate VersionsKnown(tasks: map<TaskId, Task>, versions: map<VersionId, Version>) {
    forall t :: t in tasks ==> tasks[t].version in versions
  }

  ghost predicate TasksKnown(batches: map<BatchId, Batch>, tasks: map<TaskId, Task>) {
    forall b :: b in batches ==> batches[b].task in tasks
  }

  /** A declaration has exactly one basis; an authorization it cites is one of its own task. */
  ghost predicate DeclarationsOk(
      declarations: map<TaskId, Declaration>, authorizations: map<AuthorizationId, Authorization>)
  {
    forall t :: t in declarations ==>
      declarations[t].authorization.Some? != declarations[t].exception.Some? &&
      (declarations[t].authorization.Some? ==>
        declarations[t].authorization.value in authorizations &&
        authorizations[declarations[t].authorization.value].task == t)
  }

  ghost predicate OneHold(holds: map<HoldId, Hold>) {
    forall h, k ::
      h in holds && k in holds && holds[h].task == holds[k].task && !holds[h].released && !holds[k].released ==> h == k
  }

  ghost predicate HoldTasksKnown(holds: map<HoldId, Hold>, tasks: map<TaskId, Task>) {
    forall h :: h in holds ==> holds[h].task in tasks
  }

  ghost predicate ReviewsOk(batches: map<BatchId, Batch>, reviews: map<BatchId, Review>) {
    forall b :: b in reviews ==> b in batches && batches[b].status != Pending
  }

  ghost predicate ItemsOk(
      items: map<(AuthorizationId, ProductId), nat>, authorizations: map<AuthorizationId, Authorization>)
  {
    forall a, p :: (a, p) in items ==> a in authorizations && items[(a, p)] >= 1
  }

  lemma VersionsStay(db: Db, op: Op)
    requires Possible(db, op)
    ensures db.versions.Keys <= After(db, op).versions.Keys
  {
  }

  lemma BatchesStay(db: Db, op: Op)
    requires Possible(db, op)
    ensures forall b ::
      b in db.batches ==> b in After(db, op).batches && After(db, op).batches[b].task == db.batches[b].task
  {
    Untouched(db, op);
    if op.OpSubmit? {
      SubmissionEffect(db, op);
      hide After, Apply;
    }
  }

  lemma AuthorizationsStay(db: Db, op: Op)
    requires Possible(db, op)
    ensures forall a ::
      a in db.authorizations ==>
        a in After(db, op).authorizations && After(db, op).authorizations[a].task == db.authorizations[a].task
  {
    Untouched(db, op);
    if op.OpSubmit? {
      SubmissionEffect(db, op);
      hide After, Apply;
    } else if op.OpIssue? {
      IssueEffect(db, op);
      hide After, Apply;
    } else {
      hide CreateTask, ConfirmEligibility, ConfirmProduct, SubmitBatch, DecideBatch, PutHold, LiftHold, Issue, Declare,
        CreateVersion, RecordApproval, Publish;
    }
  }

  lemma StepKeepsHoldTasks(db: Db, op: Op)
    requires HoldTasksKnown(db.holds, db.tasks) && Possible(db, op)
    ensures HoldTasksKnown(After(db, op).holds, After(db, op).tasks)
  {
    TaskSupport(db, op);
    if !op.OpCreateTask? && !op.OpPlaceHold? && !op.OpReleaseHold? {
      Untouched(db, op);
      hide After, Apply, Possible;
    }
  }

  lemma StepKeepsOneHold(db: Db, op: Op)
    requires OneHold(db.holds) && HoldTasksKnown(db.holds, db.tasks) && Possible(db, op)
    ensures OneHold(After(db, op).holds)
  {
    if !op.OpCreateTask? && !op.OpPlaceHold? && !op.OpReleaseHold? {
      Untouched(db, op);
      hide After, Apply, Possible;
    }
  }

  lemma StepKeepsReviews(db: Db, op: Op)
    requires ReviewsOk(db.batches, db.reviews) && Possible(db, op)
    ensures ReviewsOk(After(db, op).batches, After(db, op).reviews)
  {
    Untouched(db, op);
    if op.OpSubmit? {
      SubmissionEffect(db, op);
      hide After, Apply;
    } else if !op.OpReview? && !op.OpWithdraw? {
      hide After, Apply;
    }
  }

  lemma StepKeepsItems(db: Db, op: Op)
    requires ItemsOk(db.items, db.authorizations) && Possible(db, op)
    ensures ItemsOk(After(db, op).items, After(db, op).authorizations)
  {
    AuthorizationsStay(db, op);
    if op.OpIssue? {
      hide PermissionGate, PhotosOf, Confirmed, ActiveTaken, StateOf;
    } else {
      Untouched(db, op);
      hide After, Apply, Possible;
    }
  }

  /** A statement without an exception rests on the permission the task was loaded with, and completing is offered. */
  ghost predicate RestsOnSeen(db: Db, t: TaskId, op: Op)
    requires op.OpDeclare? && t in db.tasks && Reads(db, t, op.now, op.view)
  {
    op.view.authorization.Some? && Cited(op.statement, op.view.authorization) == op.view.authorization &&
    Offered(StateOf(db, t, op.view), op.now, DeclareCompletion)
  }

  /** A declaration that is recorded: the checks that let it through. */
  lemma DeclareEffect(db: Db, op: Op)
    requires op.OpDeclare? && Possible(db, op)
    ensures var after, t, s := After(db, op), op.task, op.statement;
      after == db ||
      (t in db.tasks && db.tasks[t].status == Open && t !in db.declarations && Reads(db, t, op.now, op.view) &&
       after.declarations ==
         db.declarations[t := Declaration(Cited(s, op.view.authorization), s.exception, s.note, s.text)] &&
       after.tasks == db.tasks[t := db.tasks[t].(status := Completed, revision := db.tasks[t].revision + 1)] &&
       after == db.(declarations := after.declarations, tasks := after.tasks) &&
       (s.exception.Some? ==> s.authorization.None?) &&
       (s.exception.None? ==> RestsOnSeen(db, t, op)))
  {
    hide CreateTask, ConfirmEligibility, ConfirmProduct, SubmitBatch, DecideBatch, PutHold, LiftHold, Issue, Revoke,
      Withdraw, CreateVersion, RecordApproval, Publish;
  }

  /** How opening a task and deciding its eligibility change the tasks. */
  lemma TasksEffect(db: Db, op: Op)
    requires (op.OpCreateTask? || op.OpConfirmEligibility?) && Possible(db, op)
    ensures var before, after := db.tasks, After(db, op).tasks;
      after == before ||
      (op.OpCreateTask? && op.task !in before && op.pinned.Some? && op.pinned.value in db.versions &&
       after == before[op.task := Task(op.pinned.value, op.opening.draft, op.opening.caseId, op.opening.token,
         op.now + TOKEN_TTL_MS, PendingConfirmation, Open, 1)]) ||
      (op.OpConfirmEligibility? && op.task in before &&
        (op.eligibility == ConfirmedEligible ==> ProductsOf(db.products, op.task) != {}) &&
       after == before[op.task := before[op.task].(eligibility := op.eligibility,
         revision := before[op.task].revision + 1)])
  {
    hide ConfirmProduct, SubmitBatch, DecideBatch, PutHold, LiftHold, Issue, Revoke, Declare, Withdraw, CreateVersion,
      RecordApproval, Publish;
  }

  /** The tasks change in three transactions only, and by one row each. */
  lemma StepKeepsCompletion(db: Db, op: Op)
    requires CompletedIffDeclared(db.tasks, db.declarations) && Possible(db, op)
    ensures CompletedIffDeclared(After(db, op).tasks, After(db, op).declarations)
  {
    hide After, Apply, Possible;
    Untouched(db, op);
    if op.OpDeclare? {
      DeclareEffect(db, op);
    } else if op.OpCreateTask? || op.OpConfirmEligibility? {
      TasksEffect(db, op);
    }
  }

  lemma StepKeepsReferences(db: Db, op: Op)
    requires VersionsKnown(db.tasks, db.versions) && TasksKnown(db.batches, db.tasks) && Possible(db, op)
    ensures VersionsKnown(After(db, op).tasks, After(db, op).versions) &&
      TasksKnown(After(db, op).batches, After(db, op).tasks)
  {
    hide After, Apply, Possible;
    Untouched(db, op);
    VersionsStay(db, op);
    BatchesStay(db, op);
    if op.OpDeclare? {
      DeclareEffect(db, op);
    } else if op.OpCreateTask? || op.OpConfirmEligibility? {
      TasksEffect(db, op);
    } else if op.OpSubmit? {
      SubmissionEffect(db, op);
    } else if op.OpReview? || op.OpWithdraw? {
      StatusesChange(db, op);
    }
  }

  lemma StepKeepsDeclarations(db: Db, op: Op)
    requires DeclarationsOk(db.declarations, db.authorizations) && Possible(db, op)
    ensures DeclarationsOk(After(db, op).declarations, After(db, op).authorizations)
  {
    hide After, Apply, Possible;
    AuthorizationsStay(db, op);
    Untouched(db, op);
    if op.OpDeclare? {
      DeclareEffect(db, op);
    }
  }

  ghost predicate AuthorizationTasksKnown(authorizations: map<AuthorizationId, Authorization>, tasks: map<TaskId, Task>)
  {
    forall a :: a in authorizations ==> authorizations[a].task in tasks
  }

  lemma StepKeepsAuthorizationTasks(db: Db, op: Op)
    requires AuthorizationTasksKnown(db.authorizations, db.tasks) && Possible(db, op)
    ensures AuthorizationTasksKnown(After(db, op).authorizations, After(db, op).tasks)
  {
    Untouched(db, op);
    TaskSupport(db, op);
    if op.OpIssue? {
      IssueEffect(db, op);
      hide After, Apply, Possible;
    } else if op.OpSubmit? {
      SubmissionEffect(db, op);
      hide After, Apply, Possible;
    } else if !op.OpRevoke? && !op.OpWithdraw? {
      hide After, Apply, Possible;
    }
  }

  /** The quantity checks: what a person confirms and what a photo stands for is at least one. */
  ghost predicate QuantitiesPositive(db: Db) {
    (forall k :: k in db.products ==> db.products[k].quantity > 0) && PhotosPositive(db.documents)
  }

  ghost predicate PhotosPositive(documents: map<DocumentId, BatchDocument>) {
    forall d :: d in documents && documents[d].photo.quantity.Some? ==> documents[d].photo.quantity.value > 0
  }

  lemma {:induction false} AddedPhotosArePositive(
      documents: map<DocumentId, BatchDocument>, b: BatchId, evidence: seq<Evidence>)
    requires PhotosPositive(documents)
    requires forall e :: e in evidence && e.photo.quantity.Some? ==> e.photo.quantity.value > 0
    ensures PhotosPositive(AddDocuments(documents, b, evidence))
  {
    if evidence != [] {
      AddedPhotosArePositive(documents, b, evidence[..|evidence| - 1]);
    }
  }

  lemma ProductsStayPositive(db: Db, op: Op)
    requires (forall k :: k in db.products ==> db.products[k].quantity > 0) && Possible(db, op)
    ensures forall k :: k in After(db, op).products ==> After(db, op).products[k].quantity > 0
  {
  }

  lemma StepKeepsQuantities(db: Db, op: Op)
    requires QuantitiesPositive(db) && Possible(db, op)
    ensures QuantitiesPositive(After(db, op))
  {
    ProductsStayPositive(db, op);
    if op.OpSubmit? && After(db, op) != db {
      assert Insertable(db.documents, op.submission.evidence);
      AddedPhotosArePositive(db.documents, op.batch, op.submission.evidence);
    }
  }

  /** A task found eligible has a product that a person confirmed; nothing is ever un-confirmed. */
  ghost predicate EligibleConfirmed(tasks: map<TaskId, Task>, products: map<(TaskId, ProductId), Product>) {
    forall t :: t in tasks && tasks[t].eligibility == ConfirmedEligible ==> ProductsOf(products, t) != {}
  }

  /** How opening a task and confirming a product change the products. */
  lemma ProductsEffect(db: Db, op: Op)
    requires (op.OpCreateTask? || op.OpConfirmProduct?) && Possible(db, op)
    ensures var before, after := db.products, After(db, op).products;
      after == before ||
      (op.OpCreateTask? && op.task !in db.tasks && after == before + Unconfirmed(op.task, op.opening.products)) ||
      (op.OpConfirmProduct? && (op.task, op.product) in before &&
        after == before[(op.task, op.product) := Product(op.quantity, true)])
  {
    hide ConfirmEligibility, SubmitBatch, DecideBatch, PutHold, LiftHold, Issue, Revoke, Declare, Withdraw,
      CreateVersion, RecordApproval, Publish;
  }

  lemma ProductsStayConfirmed(db: Db, op: Op, k: (TaskId, ProductId))
    requires Possible(db, op) && k in db.products && db.products[k].confirmed && k.0 in db.tasks
    ensures k in After(db, op).products && After(db, op).products[k].confirmed
  {
    hide After, Apply, Possible;
    Untouched(db, op);
    if op.OpCreateTask? || op.OpConfirmProduct? {
      ProductsEffect(db, op);
    }
  }

  lemma ConfirmedProductsStay(db: Db, op: Op, t: TaskId, p: ProductId)
    requires Possible(db, op) && t in db.tasks && p in ProductsOf(db.products, t)
    ensures p in ProductsOf(After(db, op).products, t)
  {
    var k :| k in db.products && k.0 == t && db.products[k].confirmed && k.1 == p;
    ProductsStayConfirmed(db, op, k);
    hide After, Apply, Possible;
  }

  /** Who becomes eligible in a step had a confirmed product before it. */
  lemma EligibilityEffect(db: Db, op: Op, t: TaskId)
    requires Possible(db, op) && t in After(db, op).tasks && After(db, op).tasks[t].eligibility == ConfirmedEligible
    ensures t in db.tasks && (db.tasks[t].eligibility == ConfirmedEligible || ProductsOf(db.products, t) != {})
  {
    hide After, Apply, Possible;
    Untouched(db, op);
    if op.OpDeclare? {
      DeclareEffect(db, op);
    } else if op.OpCreateTask? || op.OpConfirmEligibility? {
      TasksEffect(db, op);
    }
  }

  lemma StepKeepsEligible(db: Db, op: Op)
    requires EligibleConfirmed(db.tasks, db.products) && Possible(db, op)
    ensures EligibleConfirmed(After(db, op).tasks, After(db, op).products)
  {
    forall t | t in After(db, op).tasks && After(db, op).tasks[t].eligibility == ConfirmedEligible
      ensures ProductsOf(After(db, op).products, t) != {}
    {
      EligibilityEffect(db, op, t);
      var p :| p in ProductsOf(db.products, t);
      ConfirmedProductsStay(db, op, t, p);
    }
  }

  /** The stored answer whether an approval authorises is the computed one, so the check on it never fires. */
  ghost predicate ApprovalsComputed(approvals: map<ApprovalId, Approval>) {
    forall a :: a in approvals ==>
      (approvals[a].authorizes <==>
        AuthorizesConsumerDisposal(approvals[a].material, approvals[a].scope, approvals[a].measure))
  }

  lemma StepKeepsApprovals(db: Db, op: Op)
    requires ApprovalsComputed(db.approvals) && Possible(db, op)
    ensures ApprovalsComputed(After(db, op).approvals)
  {
    if op.OpRecordApproval? {
      hide CreateTask, ConfirmEligibility, ConfirmProduct, SubmitBatch, DecideBatch, PutHold, LiftHold, Issue, Revoke,
        Declare, Withdraw, CreateVersion, Publish;
    } else {
      hide After, Apply, Possible;
      Untouched(db, op);
    }
  }

  // ---- runs -------------------------------------------------------------------

  ghost predicate Inv(db: Db) {
    BatchesOk(db.batches) && ActiveRests(db) && ActiveIndex(db.authorizations) &&
    CompletedIffDeclared(db.tasks, db.declarations) && VersionsKnown(db.tasks, db.versions) &&
    TasksKnown(db.batches, db.tasks) &&
    DeclarationsOk(db.declarations, db.authorizations) && OneHold(db.holds) && HoldTasksKnown(db.holds, db.tasks) &&
    ReviewsOk(db.batches, db.reviews) &&
    AuthorizationTasksKnown(db.authorizations, db.tasks) && ItemsOk(db.items, db.authorizations) &&
    QuantitiesPositive(db) && EligibleConfirmed(db.tasks, db.products) &&
    ApprovalsComputed(db.approvals)
  }

  lemma StepKeepsInv(db: Db, op: Op)
    requires Inv(db) && Possible(db, op)
    ensures Inv(After(db, op))
  {
    StepKeepsBatches(db, op);
    StepKeepsActiveRests(db, op);
    StepKeepsActiveIndex(db, op);
    StepKeepsCompletion(db, op);
    StepKeepsReferences(db, op);
    StepKeepsDeclarations(db, op);
    StepKeepsHoldTasks(db, op);
    StepKeepsOneHold(db, op);
    StepKeepsReviews(db, op);
    StepKeepsAuthorizationTasks(db, op);
    StepKeepsItems(db, op);
    StepKeepsQuantities(db, op);
    StepKeepsEligible(db, op);
    StepKeepsApprovals(db, op);
    hide After, BatchesOk, ActiveRests, ActiveIndex, CompletedIffDeclared, VersionsKnown, TasksKnown, DeclarationsOk,
      OneHold, HoldTasksKnown, ReviewsOk, AuthorizationTasksKnown, ItemsOk, QuantitiesPositive, EligibleConfirmed,
      ApprovalsComputed;
  }
}
