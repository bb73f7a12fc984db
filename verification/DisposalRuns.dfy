/** What follows from the invariants over whole runs of the disposal service. */
module DisposalRuns {
  import opened Prelude
  import opened DisposalPolicy
  import opened Coverage
  import opened DisposalTables
  import opened DisposalInvariants

  ghost predicate Runs(db: Db, ops: seq<Op>)
    decreases |ops|
  {
    ops != [] ==> Possible(db, ops[0]) && Runs(After(db, ops[0]), ops[1..])
  }

  ghost function Final(db: Db, ops: seq<Op>): Db
    requires Runs(db, ops)
    decreases |ops|
  {
    if ops == [] then db else Final(After(db, ops[0]), ops[1..])
  }

  predicate Empty(db: Db) {
    db == Db(map[], map[], map[], map[], map[], map[], map[], map[], map[], map[], map[])
  }

  lemma {:induction false} RunKeepsInv(db: Db, ops: seq<Op>)
    requires Inv(db) && Runs(db, ops)
    ensures Inv(Final(db, ops))
    decreases |ops|
  {
    if ops != [] {
      StepKeepsInv(db, ops[0]);
      hide After, Possible, Inv;
      RunKeepsInv(After(db, ops[0]), ops[1..]);
    }
  }

  /** An approval in force that comes from material which can authorise a consumer at all. */
  predicate Authorising(a: Approval, v: VersionId, now: int) {
    InForce(a, v, now) && (a.material == RecallExpectationLetter || a.material == CapOrWrittenCoordination) &&
    a.scope == ConsumerHeldProduct && a.measure == ConsumerDisposal
  }

  // ---- one live permission a task ---------------------------------------------

  /** An accepted batch is its task's last: no query for the latest batch can return another. */
  lemma AcceptedIsLatest(batches: map<BatchId, Batch>, b: BatchId)
    requires BatchesOk(batches) && b in batches && batches[b].status == Accepted
    ensures LatestBatchRow(batches, batches[b].task, Some(b))
    ensures forall row :: LatestBatchRow(batches, batches[b].task, row) ==> row == Some(b)
  {
  }

  /**
   * In every reachable state a task has at most one live permission, although the index only
   * covers a task and a batch; it rests on the task's latest batch, which is accepted, and the
   * version the task is pinned to is approved.
   */
  lemma OnePermission(empty: Db, ops: seq<Op>, a: AuthorizationId, b: AuthorizationId)
    requires Empty(empty) && Runs(empty, ops)
    requires var auths := Final(empty, ops).authorizations;
      a in auths && b in auths && auths[a].status == Active && auths[b].status == Active &&
      auths[a].task == auths[b].task
    ensures a == b
    ensures var db := Final(empty, ops); var permission := db.authorizations[a];
      LatestBatchRow(db.batches, permission.task, Some(permission.batch)) &&
      db.batches[permission.batch].status == Accepted &&
      permission.task in db.tasks && permission.version == db.tasks[permission.task].version &&
      permission.version in db.versions && db.versions[permission.version].status == Approved
  {
    RunKeepsInv(empty, ops);
    PermissionsOfATask(Final(empty, ops), a, b);
  }

  lemma PermissionsOfATask(db: Db, a: AuthorizationId, b: AuthorizationId)
    requires Inv(db) && a in db.authorizations && b in db.authorizations
    requires db.authorizations[a].status == Active && db.authorizations[b].status == Active &&
      db.authorizations[a].task == db.authorizations[b].task
    ensures a == b && Rests(db, db.authorizations[a])
    ensures LatestBatchRow(db.batches, db.authorizations[a].task, Some(db.authorizations[a].batch))
  {
    assert Rests(db, db.authorizations[a]) && Rests(db, db.authorizations[b]);
    AcceptedIsLatest(db.batches, db.authorizations[a].batch);
    AcceptedIsLatest(db.batches, db.authorizations[b].batch);
    assert SameBasis(db.authorizations[a], db.authorizations[b]);
  }

  // ---- evidence batches -------------------------------------------------------

  /** Only the last batch of a task can be anything but superseded; at most one is ever accepted. */
  lemma BatchesOfATask(empty: Db, ops: seq<Op>, b: BatchId, c: BatchId)
    requires Empty(empty) && Runs(empty, ops)
    requires var batches := Final(empty, ops).batches;
      b in batches && c in batches && batches[b].task == batches[c].task && batches[b].number <= batches[c].number
    ensures var batches := Final(empty, ops).batches;
      (batches[b].number == batches[c].number ==> b == c) && (b != c ==> batches[b].status == Superseded) &&
      (forall k: nat :: 1 <= k <= batches[c].number ==> HasNumber(batches, batches[c].task, k))
  {
    RunKeepsInv(empty, ops);
  }

  lemma KeyCreatesOneBatch(empty: Db, ops: seq<Op>, b: BatchId, c: BatchId)
    requires Empty(empty) && Runs(empty, ops)
    requires var batches := Final(empty, ops).batches; b in batches && c in batches && batches[b].key == batches[c].key
    ensures b == c
  {
    RunKeepsInv(empty, ops);
  }

  /** Acceptance is absorbing: the batch stays accepted and stays the last one, whatever happens next. */
  lemma {:induction false} AcceptanceIsAbsorbing(db: Db, ops: seq<Op>, b: BatchId)
    requires Inv(db) && Runs(db, ops) && b in db.batches && db.batches[b].status == Accepted
    ensures var end := Final(db, ops).batches;
      b in end && end[b] == db.batches[b] &&
      forall c :: c in end && end[c].task == end[b].task ==> end[c].number <= end[b].number
    decreases |ops|
  {
    if ops == [] {
      AcceptedIsLatest(db.batches, b);
    } else {
      StepKeepsInv(db, ops[0]);
      BatchSupport(db, ops[0]);
      hide After, Possible, Inv;
      AcceptanceIsAbsorbing(After(db, ops[0]), ops[1..], b);
    }
  }

  lemma NoneLiveWithoutAccepted(db: Db, t: TaskId, latest: Option<BatchId>)
    requires Inv(db) && LatestBatchRow(db.batches, t, latest) &&
      (latest.Some? ==> db.batches[latest.value].status != Accepted)
    ensures ActiveOf(db.authorizations, t) == {}
  {
    forall a | a in db.authorizations && db.authorizations[a].task == t ensures db.authorizations[a].status != Active {
      if db.authorizations[a].status == Active {
        PermissionsOfATask(db, a, a);
        AcceptedIsLatest(db.batches, db.authorizations[a].batch);
      }
    }
  }

  /** The suspension inside a submission never fires: a task with a live permission takes no new evidence. */
  lemma SubmissionSuspendsNothing(db: Db, op: Op)
    requires Inv(db) && op.OpSubmit? && Possible(db, op) && After(db, op) != db
    ensures ActiveOf(db.authorizations, op.submission.task) == {}
    ensures After(db, op).authorizations == db.authorizations
  {
    hide After, Apply, Possible;
    SubmissionEffect(db, op);
    NoneLiveWithoutAccepted(db, op.submission.task, op.view.batch);
    hide Inv;
  }

  /**
   * A repeated submission never gets its own batch back: whenever the replay branch answers,
   * the batch belongs to another task that used the same key.
   */
  lemma ReplayNeverReturnsOwnBatch(db: Db, op: Op, b: BatchId)
    requires Inv(db) && op.OpSubmit? && Possible(db, op) && Apply(db, op) == Commit(db, Submitted(b)) && b in db.batches
    ensures db.batches[b].task != op.submission.task && db.batches[b].key == op.submission.key &&
      db.batches[b].status == Pending
  {
    var t := op.submission.task;
    hide CreateTask, ConfirmEligibility, ConfirmProduct, DecideBatch, PutHold, LiftHold, Issue, Revoke, Declare,
      Withdraw, CreateVersion, RecordApproval, Publish;
    assert op.existing == Some(b) && db.batches[b].status == Pending;
    assert MaySubmitEvidence(StateOf(db, t, op.view), op.now);
  }

  /** A batch keeps its task and its key for ever. */
  lemma BatchKeepsItsKey(db: Db, op: Op, b: BatchId)
    requires Possible(db, op) && b in db.batches
    ensures b in After(db, op).batches
    ensures After(db, op).batches[b].task == db.batches[b].task && After(db, op).batches[b].key == db.batches[b].key
  {
    hide After, Apply, Possible;
    Untouched(db, op);
    if op.OpSubmit? {
      SubmissionEffect(db, op);
    } else if op.OpReview? || op.OpWithdraw? {
      StatusesChange(db, op);
    }
  }

  lemma {:induction false} BatchStays(db: Db, ops: seq<Op>, b: BatchId)
    requires Runs(db, ops) && b in db.batches
    ensures b in Final(db, ops).batches
    ensures Final(db, ops).batches[b].task == db.batches[b].task && Final(db, ops).batches[b].key == db.batches[b].key
    decreases |ops|
  {
    if ops != [] {
      BatchKeepsItsKey(db, ops[0], b);
      hide After, Possible;
      BatchStays(After(db, ops[0]), ops[1..], b);
    }
  }

  /** Once a task has a batch under a key, every submission of the task under that key is refused. */
  lemma SubmissionIsRefused(db: Db, again: Op, b: BatchId)
    requires Inv(db) && again.OpSubmit? && Possible(db, again)
    requires b in db.batches && db.batches[b].task == again.submission.task && db.batches[b].key == again.submission.key
    ensures Apply(db, again).Abort?
  {
    if Apply(db, again).Commit? {
      assert again.existing == Some(b);
      ReplayNeverReturnsOwnBatch(db, again, b);
    }
  }

  /**
   * A repeated evidence submission never gets its batch back: after a submission that created a
   * batch, the same submission is refused in every later state, whatever happened in between
   * and however the tables are read.
   */
  lemma RepeatedSubmissionIsRefused(db: Db, op: Op, ops: seq<Op>, again: Op)
    requires Inv(db) && op.OpSubmit? && Runs(db, [op] + ops) && After(db, op) != db
    requires again.OpSubmit? && again.submission == op.submission && Possible(Final(db, [op] + ops), again)
    ensures Apply(Final(db, [op] + ops), again).Abort?
  {
    assert ([op] + ops)[1..] == ops;
    assert op.batch in After(db, op).batches && After(db, op).batches[op.batch].task == op.submission.task &&
           After(db, op).batches[op.batch].key == op.submission.key by {
      hide After, Apply, Possible;
      SubmissionEffect(db, op);
    }
    hide After, Apply, Possible, Inv;
    RunKeepsInv(db, [op] + ops);
    BatchStays(After(db, op), ops, op.batch);
    SubmissionIsRefused(Final(db, [op] + ops), again, op.batch);
  }

  // ---- opening and deciding a task ----------------------------------------------

  /** A new task permits nothing yet, however it is read, and starts on hold when an incident was reported. */
  lemma NewTaskPermitsNothing(db: Db, op: Op, now: int, view: View)
    requires Inv(db) && op.OpCreateTask? && Possible(db, op) && Apply(db, op).Commit? &&
      Apply(db, op).answer == Opened(op.task)
    requires Reads(After(db, op), op.task, now, view)
    ensures var state := StateOf(After(db, op), op.task, view);
      !Instructed(state, now) && !PermissionGate(state, now) && state.batch == None && state.authorization == None &&
      state.instruction == Some(Approved) && (op.opening.hasIncident ==> state.hold)
  {
    hide ConfirmEligibility, ConfirmProduct, SubmitBatch, DecideBatch, PutHold, LiftHold, Issue, Revoke, Declare,
      Withdraw, CreateVersion, RecordApproval, Publish;
    var after := After(db, op);
    forall b | b in after.batches ensures after.batches[b].task != op.task {
    }
    forall a | a in after.authorizations ensures after.authorizations[a].task != op.task {
    }
    if op.opening.hasIncident {
      assert op.hold in after.holds && after.holds[op.hold] == Hold(op.task, IncidentEvidenceRetention, false);
    }
  }

  lemma RevisionNeverDecreases(db: Db, op: Op, t: TaskId)
    requires Possible(db, op) && t in db.tasks
    ensures t in After(db, op).tasks && After(db, op).tasks[t].revision >= db.tasks[t].revision
  {
    hide After, Apply, Possible;
    Untouched(db, op);
    if op.OpDeclare? {
      DeclareEffect(db, op);
    } else if op.OpCreateTask? || op.OpConfirmEligibility? {
      TasksEffect(db, op);
    }
  }

  lemma {:induction false} RevisionsGrow(db: Db, ops: seq<Op>, t: TaskId)
    requires Runs(db, ops) && t in db.tasks
    ensures t in Final(db, ops).tasks && Final(db, ops).tasks[t].revision >= db.tasks[t].revision
    decreases |ops|
  {
    if ops != [] {
      RevisionNeverDecreases(db, ops[0], t);
      hide After, Possible;
      RevisionsGrow(After(db, ops[0]), ops[1..], t);
    }
  }

  /**
   * Once somebody decided a task's eligibility, a page that still shows the earlier revision can
   * never decide it again.
   */
  lemma StalePageIsRefused(db: Db, op: Op, ops: seq<Op>, eligibility: Eligibility)
    requires op.OpConfirmEligibility? && Runs(db, [op] + ops) && Apply(db, op).Commit?
    ensures Apply(Final(db, [op] + ops), OpConfirmEligibility(op.task, op.expected, eligibility)) == Abort(Stale)
  {
    assert ([op] + ops)[1..] == ops;
    RevisionsGrow(After(db, op), ops, op.task);
  }

  // ---- issuing, revoking, withdrawing -----------------------------------------

  lemma IssuedAloneForItsTask(db: Db, op: Op)
    requires Inv(db) && op.OpIssue? && Possible(db, op) && Apply(db, op).Commit?
    ensures ActiveOf(db.authorizations, op.task) == {}
  {
    hide After, Possible, Inv;
    forall a | a in db.authorizations && db.authorizations[a].task == op.task
      ensures db.authorizations[a].status != Active
    {
      if db.authorizations[a].status == Active {
        SecondPermissionIsRefused(db, op, a);
      }
    }
  }

  /**
   * A loaded state never reaches the gate's fallback refusal: whatever its queries returned, when
   * the gate fails something is still unmet at any later reading of the clock.
   */
  lemma LoadedRefusalsAreExplained(db: Db, t: TaskId, loadedAt: int, view: View, checkedAt: int, explainedAt: int)
    requires Reads(db, t, loadedAt, view) && loadedAt <= checkedAt <= explainedAt
    requires !PermissionGate(StateOf(db, t, view), checkedAt)
    ensures exists r :: Unmet(StateOf(db, t, view), explainedAt, r)
  {
    var s := StateOf(db, t, view);
    FallbackRefusalIsExact(s, checkedAt, explainedAt);
    if s.authorizes {
      assert ApprovalWindowIncludes(s.window, loadedAt);
    }
    assert !PermissionGate(s, explainedAt);
    NothingUnmetIsTheGate(s, explainedAt);
  }

  /**
   * A permission is issued only while everything holds at that moment, on the latest batch, and to
   * a task without one.
   */
  lemma IssuingNeedsTheWholeGate(db: Db, op: Op)
    requires Inv(db) && op.OpIssue? && Possible(db, op) && Apply(db, op).Commit?
    ensures var t, a := op.task, op.authorization;
      t in db.tasks && db.tasks[t].status == Open && db.tasks[t].eligibility == ConfirmedEligible &&
      ProductsOf(db.products, t) != {} &&
      !HoldActive(db.holds, t) && ActiveOf(db.authorizations, t) == {} && a in After(db, op).authorizations &&
      Rests(db, After(db, op).authorizations[a]) &&
      LatestBatchRow(db.batches, t, Some(After(db, op).authorizations[a].batch)) &&
      exists approval :: approval in db.approvals && Authorising(db.approvals[approval], db.tasks[t].version, op.now)
  {
    hide After, Apply, Possible;
    assert EligibleConfirmed(db.tasks, db.products) && ApprovalsComputed(db.approvals);
    IssuedAloneForItsTask(db, op);
    hide Inv;
    IssueEffect(db, op);
    IssueChanges(db, op);
    assert Authorising(db.approvals[op.view.approval.value], db.tasks[op.task].version, op.now);
  }

  lemma IssueChanges(db: Db, op: Op)
    requires op.OpIssue? && Possible(db, op) && Apply(db, op).Commit?
    ensures After(db, op).authorizations != db.authorizations && op.authorization in After(db, op).authorizations
  {
    hide CreateTask, ConfirmEligibility, ConfirmProduct, SubmitBatch, DecideBatch, PutHold, LiftHold, Revoke, Declare,
      Withdraw, CreateVersion, RecordApproval, Publish;
  }

  /** A withdrawal stops everything under the version at once and nothing else: permissions and pending reviews. */
  lemma WithdrawalStopsEverything(db: Db, v: VersionId)
    requires Inv(db) && v in db.versions && Withdraw(db, v).Commit?
    ensures var after := Withdraw(db, v).state;
      v in after.versions && after.versions[v].status == Withdrawn && ActiveUnder(after.authorizations, v) == {} &&
      (db.versions[v].status != Withdrawn ==> PendingUnder(db.tasks, after.batches, v) == {}) &&
      (forall a :: a in db.authorizations && a !in ActiveUnder(db.authorizations, v) ==>
        a in after.authorizations && after.authorizations[a] == db.authorizations[a]) &&
      (forall b :: b in db.batches && b !in PendingUnder(db.tasks, db.batches, v) ==>
        b in after.batches && after.batches[b] == db.batches[b])
  {
    hide Inv;
    if db.versions[v].status == Withdrawn {
      NoneLiveUnderWithdrawn(db, v);
    }
  }

  lemma NoneLiveUnderWithdrawn(db: Db, v: VersionId)
    requires Inv(db) && v in db.versions && db.versions[v].status == Withdrawn
    ensures ActiveUnder(db.authorizations, v) == {}
  {
    forall a | a in db.authorizations && db.authorizations[a].status == Active
      ensures db.authorizations[a].version != v
    {
      assert Rests(db, db.authorizations[a]);
    }
  }

  /** A task that already has a live permission gets no second one, whatever was read. */
  lemma SecondPermissionIsRefused(db: Db, op: Op, a: AuthorizationId)
    requires Inv(db) && op.OpIssue? && Possible(db, op)
    requires a in db.authorizations && db.authorizations[a].status == Active && db.authorizations[a].task == op.task
    ensures After(db, op) == db && Apply(db, op).Abort?
  {
    hide CreateTask, ConfirmEligibility, ConfirmProduct, SubmitBatch, DecideBatch, PutHold, LiftHold, Revoke, Declare,
      Withdraw, CreateVersion, RecordApproval, Publish;
    PermissionsOfATask(db, a, a);
    if op.task in db.tasks && op.view.batch.Some? {
      AcceptedIsLatest(db.batches, db.authorizations[a].batch);
      assert op.view.batch == Some(db.authorizations[a].batch);
      assert ActiveTaken(db.authorizations, op.task, op.view.batch.value);
    }
  }

  lemma IssueItems(db: Db, op: Op, p: ProductId)
    requires op.OpIssue? && Possible(db, op) && Apply(db, op).Commit?
    ensures var covered := Covered(Confirmed(db.products, op.task), op.photos); var k := (op.authorization, p);
      op.view.batch.Some? && PhotosOf(db.documents, op.view.batch.value, op.photos) &&
      (k in After(db, op).items <==> p in covered) && (p in covered ==> After(db, op).items[k] == covered[p])
  {
    hide PhotosOf, Covered, Confirmed, PermissionGate;
    hide CreateTask, ConfirmEligibility, ConfirmProduct, SubmitBatch, DecideBatch, PutHold, LiftHold, Revoke, Declare,
      Withdraw, CreateVersion, RecordApproval, Publish;
  }

  lemma ConfirmedProducts(products: map<(TaskId, ProductId), Product>, t: TaskId, p: ProductId)
    ensures p in Confirmed(products, t) <==> (t, p) in products && products[(t, p)].confirmed
    ensures p in Confirmed(products, t) ==> Confirmed(products, t)[p] == products[(t, p)].quantity
  {
    if (t, p) in products && products[(t, p)].confirmed {
      assert p in ProductsOf(products, t);
    }
  }

  /**
   * What a new permission covers: confirmed products the accepted batch concerns, each between one
   * and its confirmed quantity.
   */
  lemma IssuedCoverage(db: Db, op: Op, p: ProductId)
    requires op.OpIssue? && Possible(db, op) && Apply(db, op).Commit? && QuantitiesPositive(db)
    ensures op.view.batch.Some?
    ensures (op.authorization, p) in After(db, op).items <==>
      (op.task, p) in db.products && db.products[(op.task, p)].confirmed &&
      exists d ::
        d in db.documents && db.documents[d].batch == op.view.batch.value && Concerns(db.documents[d].photo, p)
    ensures (op.authorization, p) in After(db, op).items ==>
      1 <= After(db, op).items[(op.authorization, p)] <= db.products[(op.task, p)].quantity
  {
    IssueItems(db, op, p);
    hide After, Apply, Possible, Covered;
    var confirmed := Confirmed(db.products, op.task);
    forall q | q in confirmed ensures confirmed[q] > 0 {
      ConfirmedProducts(db.products, op.task, q);
    }
    ConfirmedProducts(db.products, op.task, p);
    hide Confirmed;
    CoverageIsExact(confirmed, op.photos, p);
  }

  /** The coverage of a permission never changes after it was issued. */
  lemma StepKeepsCoverage(db: Db, op: Op, a: AuthorizationId, p: ProductId)
    requires Possible(db, op) && a in db.authorizations
    ensures (a, p) in After(db, op).items <==> (a, p) in db.items
    ensures (a, p) in db.items ==> After(db, op).items[(a, p)] == db.items[(a, p)]
  {
    if op.OpIssue? {
      hide CreateTask, ConfirmEligibility, ConfirmProduct, SubmitBatch, DecideBatch, PutHold, LiftHold, Revoke,
        Declare, Withdraw, CreateVersion, RecordApproval, Publish;
    } else {
      Untouched(db, op);
      hide After, Apply, Possible;
    }
  }

  lemma {:induction false} CoverageIsFrozen(db: Db, ops: seq<Op>, a: AuthorizationId, p: ProductId)
    requires Runs(db, ops) && a in db.authorizations
    ensures (a, p) in Final(db, ops).items <==> (a, p) in db.items
    ensures (a, p) in db.items ==> Final(db, ops).items[(a, p)] == db.items[(a, p)]
    decreases |ops|
  {
    if ops != [] {
      AuthorizationsStay(db, ops[0]);
      StepKeepsCoverage(db, ops[0], a, p);
      hide After, Possible;
      CoverageIsFrozen(After(db, ops[0]), ops[1..], a, p);
    }
  }

  /** The newest issue time of its task, shared with no other permission. */
  ghost predicate StrictlyLatest(authorizations: map<AuthorizationId, Authorization>, a: AuthorizationId) {
    a in authorizations &&
    forall b :: b in authorizations && b != a && authorizations[b].task == authorizations[a].task ==>
      authorizations[b].issuedAt < authorizations[a].issuedAt
  }

  lemma {:induction false} SomeRowIsLatest(
      authorizations: map<AuthorizationId, Authorization>, ids: set<AuthorizationId>, t: TaskId)
    returns (row: AuthorizationId)
    requires ids != {} && forall a :: a in ids ==> a in authorizations && authorizations[a].task == t
    ensures row in ids && forall b :: b in ids ==> authorizations[b].issuedAt <= authorizations[row].issuedAt
    decreases ids
  {
    var a :| a in ids;
    row := a;
    if ids != {a} {
      var other := SomeRowIsLatest(authorizations, ids - {a}, t);
      if authorizations[other].issuedAt >= authorizations[a].issuedAt { row := other; }
    }
  }

  /** A permission that is not strictly latest can be hidden: the query may return another row. */
  lemma AnotherRowIsSeen(authorizations: map<AuthorizationId, Authorization>, a: AuthorizationId)
    returns (b: AuthorizationId)
    requires a in authorizations && !StrictlyLatest(authorizations, a)
    ensures b != a && LatestAuthorizationRow(authorizations, authorizations[a].task, Some(b))
  {
    var t := authorizations[a].task;
    var others := set c | c in authorizations && c != a && authorizations[c].task == t;
    var c :| c in authorizations && c != a && authorizations[c].task == t &&
      authorizations[c].issuedAt >= authorizations[a].issuedAt;
    assert c in others;
    b := SomeRowIsLatest(authorizations, others, t);
    assert authorizations[c].issuedAt <= authorizations[b].issuedAt;
  }

  lemma RevokesWhatIsSeen(db: Db, t: TaskId, seen: AuthorizationId, a: AuthorizationId)
    requires t in db.tasks && a in db.authorizations && LatestAuthorizationRow(db.authorizations, t, Some(seen))
    requires db.authorizations[a].status == Active
    ensures After(db, OpRevoke(t, Some(seen))).authorizations[a].status == (if seen == a then Revoked else Active)
  {
    hide CreateTask, ConfirmEligibility, ConfirmProduct, SubmitBatch, DecideBatch, PutHold, LiftHold, Issue, Declare,
      Withdraw, CreateVersion, RecordApproval, Publish;
  }

  /** A revocation of the task, read either way, retires the given permission. */
  ghost predicate AlwaysRetired(db: Db, a: AuthorizationId)
    requires a in db.authorizations
  {
    forall seen: AuthorizationId :: LatestAuthorizationRow(db.authorizations, db.authorizations[a].task, Some(seen)) ==>
      After(db, OpRevoke(db.authorizations[a].task, Some(seen))).authorizations[a].status == Revoked
  }

  /**
   * When a revocation is sure to retire the task's live permission: exactly when that permission
   * was issued strictly last. The issue time is the start of its transaction, not its commit, so
   * a permission that waited for the task lock can carry an older time than a revoked one.
   */
  lemma RevocationIsExact(db: Db, a: AuthorizationId)
    requires Inv(db) && a in db.authorizations && db.authorizations[a].status == Active
    ensures AlwaysRetired(db, a) <==> StrictlyLatest(db.authorizations, a)
  {
    var t := db.authorizations[a].task;
    assert Rests(db, db.authorizations[a]);
    hide Inv, After;
    if StrictlyLatest(db.authorizations, a) {
      forall seen: AuthorizationId | LatestAuthorizationRow(db.authorizations, t, Some(seen))
        ensures After(db, OpRevoke(t, Some(seen))).authorizations[a].status == Revoked
      {
        RevokesWhatIsSeen(db, t, seen, a);
      }
    } else {
      var b := AnotherRowIsSeen(db.authorizations, a);
      RevokesWhatIsSeen(db, t, b, a);
    }
  }

  /** The issue times of a run's steps are in the order of their commits. */
  ghost predicate InIssueOrder(db: Db, op: Op) {
    op.OpIssue? ==>
      forall b ::
        b in db.authorizations && db.authorizations[b].task == op.task ==> db.authorizations[b].issuedAt < op.issuedAt
  }

  ghost predicate ActiveIsLatest(db: Db) {
    forall a :: a in db.authorizations && db.authorizations[a].status == Active ==> StrictlyLatest(db.authorizations, a)
  }

  /** Then the live permission is always the one that is seen, revoked and declared against. */
  lemma StepKeepsActiveLatest(db: Db, op: Op)
    requires Inv(db) && Possible(db, op) && ActiveIsLatest(db) && InIssueOrder(db, op)
    ensures ActiveIsLatest(After(db, op))
  {
    hide After, Apply, Possible, Inv, PermissionGate;
    if op.OpIssue? {
      IssueEffect(db, op);
      forall a | a in db.authorizations && db.authorizations[a].status == Active && db.authorizations[a].task == op.task
        ensures After(db, op).authorizations == db.authorizations
      {
        SecondPermissionIsRefused(db, op, a);
      }
    } else {
      OnlyIssueActivates(db, op);
      IssueTimesStay(db, op);
    }
  }

  ghost predicate IssuesInOrder(db: Db, ops: seq<Op>)
    requires Runs(db, ops)
    decreases |ops|
  {
    ops != [] ==> InIssueOrder(db, ops[0]) && IssuesInOrder(After(db, ops[0]), ops[1..])
  }

  /**
   * Over every run whose issue times follow the order of their commits, a live permission is the
   * one row the loader can read.
   */
  lemma {:induction false} LivePermissionIsRead(db: Db, ops: seq<Op>, a: AuthorizationId, seen: Option<AuthorizationId>)
    requires Inv(db) && ActiveIsLatest(db) && Runs(db, ops) && IssuesInOrder(db, ops)
    requires a in Final(db, ops).authorizations && Final(db, ops).authorizations[a].status == Active
    requires LatestAuthorizationRow(Final(db, ops).authorizations, Final(db, ops).authorizations[a].task, seen)
    ensures seen == Some(a)
    decreases |ops|
  {
    if ops != [] {
      StepKeepsInv(db, ops[0]);
      StepKeepsActiveLatest(db, ops[0]);
      hide After, Possible, Inv, ActiveIsLatest;
      LivePermissionIsRead(After(db, ops[0]), ops[1..], a, seen);
    }
  }

  lemma IssueTimesStay(db: Db, op: Op)
    requires Possible(db, op) && !op.OpIssue?
    ensures After(db, op).authorizations.Keys == db.authorizations.Keys
    ensures forall a :: a in db.authorizations ==>
      After(db, op).authorizations[a] == db.authorizations[a].(status := After(db, op).authorizations[a].status)
  {
    Untouched(db, op);
    if op.OpSubmit? {
      SubmissionEffect(db, op);
      hide After, Apply;
    }
  }

  lemma WithdrawKeepsWithdrawn(db: Db, v: VersionId, w: VersionId)
    requires v in db.versions && db.versions[v].status == Withdrawn
    ensures Withdraw(db, w).Commit? ==>
      v in Withdraw(db, w).state.versions && Withdraw(db, w).state.versions[v].status == Withdrawn
  {
    hide Supersede, Suspend, ActiveUnder, PendingUnder;
  }

  lemma PublishKeepsWithdrawn(db: Db, v: VersionId, w: VersionId)
    requires v in db.versions && db.versions[v].status == Withdrawn
    ensures Publish(db, w).Commit? ==>
      v in Publish(db, w).state.versions && Publish(db, w).state.versions[v].status == Withdrawn
  {
  }

  lemma WithdrawalIsFinal(db: Db, op: Op, v: VersionId)
    requires Possible(db, op) && v in db.versions && db.versions[v].status == Withdrawn
    ensures v in After(db, op).versions && After(db, op).versions[v].status == Withdrawn
  {
    VersionsStay(db, op);
    Untouched(db, op);
    if op.OpWithdraw? {
      WithdrawKeepsWithdrawn(db, v, op.version);
      hide Withdraw;
    } else if op.OpPublish? {
      PublishKeepsWithdrawn(db, v, op.version);
      hide Publish;
    } else if !op.OpCreateVersion? {
      hide After, Apply, Possible;
    }
  }

  /** After a withdrawal no permission under that version is live, then or ever. */
  lemma {:induction false} WithdrawnForEver(db: Db, ops: seq<Op>, v: VersionId)
    requires Inv(db) && Runs(db, ops) && v in db.versions && db.versions[v].status == Withdrawn
    ensures ActiveUnder(Final(db, ops).authorizations, v) == {}
    decreases |ops|
  {
    if ops == [] {
      NoneLiveUnderWithdrawn(db, v);
    } else {
      StepKeepsInv(db, ops[0]);
      WithdrawalIsFinal(db, ops[0], v);
      hide After, Possible, Inv;
      WithdrawnForEver(After(db, ops[0]), ops[1..], v);
    }
  }

  // ---- declarations -----------------------------------------------------------

  /** In every reachable state a task is completed exactly when it has a declaration. */
  lemma DeclaredExactlyWhenCompleted(empty: Db, ops: seq<Op>, t: TaskId)
    requires Empty(empty) && Runs(empty, ops) && t in Final(empty, ops).tasks
    ensures Final(empty, ops).tasks[t].status == Completed <==> t in Final(empty, ops).declarations
  {
    RunKeepsInv(empty, ops);
  }

  /**
   * A declaration that rests on a permission is recorded only while everything holds: the
   * permission is live and the task's own, its batch is the latest and accepted, eligibility is
   * confirmed, an approval of the approved version is in force, and no hold is.
   */
  lemma CompletionNeedsTheWholeGate(db: Db, op: Op)
    requires Inv(db) && op.OpDeclare? && Possible(db, op) && op.task !in db.declarations
    requires op.task in After(db, op).declarations && After(db, op).declarations[op.task].authorization.Some?
    ensures var t, a := op.task, After(db, op).declarations[op.task].authorization.value;
      a in db.authorizations && db.authorizations[a].status == Active && db.authorizations[a].task == t &&
      Rests(db, db.authorizations[a]) &&
      LatestBatchRow(db.batches, t, Some(db.authorizations[a].batch)) && db.tasks[t].status == Open &&
      db.tasks[t].eligibility == ConfirmedEligible && !HoldActive(db.holds, t) &&
      exists approval :: approval in db.approvals && Authorising(db.approvals[approval], db.tasks[t].version, op.now)
  {
    hide After, Apply, Possible;
    assert ApprovalsComputed(db.approvals);
    DeclareEffect(db, op);
    var a := op.view.authorization.value;
    PermissionsOfATask(db, a, a);
    hide Inv;
    assert Authorising(db.approvals[op.view.approval.value], db.tasks[op.task].version, op.now);
  }

  lemma DeclarationsAreFinal(db: Db, op: Op, t: TaskId)
    requires Possible(db, op) && t in db.declarations
    ensures t in After(db, op).declarations && After(db, op).declarations[t] == db.declarations[t]
  {
    Untouched(db, op);
    if op.OpDeclare? {
      DeclareEffect(db, op);
    }
    hide After, Apply, Possible;
  }

  lemma {:induction false} DeclaredForEver(db: Db, ops: seq<Op>, t: TaskId)
    requires Runs(db, ops) && t in db.declarations
    ensures t in Final(db, ops).declarations && Final(db, ops).declarations[t] == db.declarations[t]
    decreases |ops|
  {
    if ops != [] {
      DeclarationsAreFinal(db, ops[0], t);
      hide After, Possible;
      DeclaredForEver(After(db, ops[0]), ops[1..], t);
    }
  }

  /**
   * Once a statement is recorded, repeating it succeeds and changes nothing, however much later and
   * whatever happened since.
   */
  lemma RepeatingChangesNothing(db: Db, op: Op, ops: seq<Op>, again: Op)
    requires op.OpDeclare? && Runs(db, [op] + ops) && op.task !in db.declarations &&
      op.task in After(db, op).declarations
    requires again.OpDeclare? && again.task == op.task && again.statement == op.statement &&
      Possible(Final(db, [op] + ops), again)
    requires TokenOpens(Final(db, [op] + ops), again.task, again.token, again.now)
    ensures Apply(Final(db, [op] + ops), again) == Commit(Final(db, [op] + ops), Done)
  {
    DeclareEffect(db, op);
    assert SameStatement(After(db, op).declarations[op.task], op.statement);
    assert ([op] + ops)[1..] == ops;
    DeclaredForEver(After(db, op), ops, op.task);
  }

  /** The basis check and the unique indexes behind a declaration never fire. */
  lemma DeclarationsMeetTheirConstraints(db: Db, op: Op)
    requires Inv(db) && op.OpDeclare? && Possible(db, op)
    ensures Apply(db, op) != Abort(ConstraintViolation)
  {
    hide CreateTask, ConfirmEligibility, ConfirmProduct, SubmitBatch, DecideBatch, PutHold, LiftHold, Issue, Revoke,
      Withdraw, CreateVersion, RecordApproval, Publish;
  }
}
