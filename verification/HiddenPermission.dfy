/**
 * A whole run, from empty tables, at whose end the task's live permission is hidden from
 * revocation: its transaction started first and committed last, after another permission was
 * issued and revoked.
 */
module HiddenPermission {
  import opened Prelude
  import opened DisposalPolicy
  import opened Coverage
  import opened DisposalTables
  import opened DisposalInvariants
  import opened DisposalRuns
  import DocumentLifecycle

  const PHOTO := Photo(None, None)
  const UPLOAD := DocumentLifecycle.Doc(
    Some(0), None, DocumentLifecycle.DisposalEvidence, Some(1), DocumentLifecycle.Verified,
    DocumentLifecycle.Path(0, 0), 0, 100)

  /** The authorization that starts at 5 and the one that starts at 3 but commits later. */
  const FIRST := Authorization(0, 0, 0, Active, 5)
  const SECOND := Authorization(0, 0, 0, Active, 3)

  const CREATE_VERSION := OpCreateVersion(0, 0, None, 0)
  const APPROVE :=
    OpRecordApproval(0, 0, RecallExpectationLetter, ConsumerHeldProduct, ConsumerDisposal, Window(None, None))
  const PUBLISH := OpPublish(0)
  const CREATE_TASK := OpCreateTask(0, 0, Opening(0, None, 0, [0], false, 0), Some(0), 0)
  const CONFIRM_PRODUCT := OpConfirmProduct(0, 0, 1)
  const CONFIRM := OpConfirmEligibility(0, 1, ConfirmedEligible)
  const SUBMIT :=
    OpSubmit(Submission(0, 0, 0, [Evidence(0, PHOTO)]), map[0 := UPLOAD], 1, View(None, Some(0), None), None, 0)
  const ACCEPT := OpReview(0, Verdict(true, None, RATIONALE_MINIMUM))
  const ISSUE_FIRST := OpIssue(0, 5, View(Some(0), Some(0), None), [PHOTO], 0, 5)
  const REVOKE_FIRST := OpRevoke(0, Some(0))
  const ISSUE_SECOND := OpIssue(0, 7, View(Some(0), Some(0), Some(0)), [PHOTO], 1, 3)

  const EMPTY := Db(map[], map[], map[], map[], map[], map[], map[], map[], map[], map[], map[])
  const DRAFTED := EMPTY.(versions := map[0 := Version(0, 1, Draft, 0)])
  const APPROVED := DRAFTED.(
    approvals := map[0 := Approval(0, RecallExpectationLetter, ConsumerHeldProduct, ConsumerDisposal, true,
      Window(None, None), false)])
  const PUBLISHED := APPROVED.(versions := map[0 := Version(0, 1, Approved, 0)])
  const OPENED := PUBLISHED.(
    tasks := map[0 := Task(0, 0, None, 0, TOKEN_TTL_MS, PendingConfirmation, Open, 1)],
    products := map[(0, 0) := Product(1, false)])
  const AFFECTED := OPENED.(products := map[(0, 0) := Product(1, true)])
  const ELIGIBLE := AFFECTED.(tasks := map[0 := Task(0, 0, None, 0, TOKEN_TTL_MS, ConfirmedEligible, Open, 2)])
  const SUBMITTED :=
    ELIGIBLE.(batches := map[0 := Batch(0, 1, Pending, 0)], documents := map[0 := BatchDocument(0, PHOTO)])
  const ACCEPTED :=
    SUBMITTED.(batches := map[0 := Batch(0, 1, Accepted, 0)], reviews := map[0 := Review(Accepted, None)])
  const ISSUED := ACCEPTED.(authorizations := map[0 := FIRST], items := map[(0, 0) := 1])
  const REVOKED := ISSUED.(authorizations := map[0 := FIRST.(status := Revoked)])
  const HIDDEN := REVOKED.(
    authorizations := map[0 := FIRST.(status := Revoked), 1 := SECOND], items := map[(0, 0) := 1, (1, 0) := 1])

  lemma VersionIsDrafted()
    ensures Possible(EMPTY, CREATE_VERSION) && After(EMPTY, CREATE_VERSION) == DRAFTED
  {
    hide CreateTask, ConfirmEligibility, ConfirmProduct, SubmitBatch, DecideBatch, PutHold, LiftHold, Issue, Revoke,
      Declare, Withdraw, RecordApproval, Publish;
  }

  lemma VersionIsApproved()
    ensures Possible(DRAFTED, APPROVE) && After(DRAFTED, APPROVE) == APPROVED
  {
    hide CreateTask, ConfirmEligibility, ConfirmProduct, SubmitBatch, DecideBatch, PutHold, LiftHold, Issue, Revoke,
      Declare, Withdraw, CreateVersion, Publish;
  }

  lemma VersionIsPublished()
    ensures Possible(APPROVED, PUBLISH) && After(APPROVED, PUBLISH) == PUBLISHED
  {
    hide CreateTask, ConfirmEligibility, ConfirmProduct, SubmitBatch, DecideBatch, PutHold, LiftHold, Issue, Revoke,
      Declare, Withdraw, CreateVersion, RecordApproval;
  }

  lemma TaskIsOpened()
    ensures Possible(PUBLISHED, CREATE_TASK) && After(PUBLISHED, CREATE_TASK) == OPENED
  {
    assert InForce(PUBLISHED.approvals[0], 0, 0);
    assert Usable(PUBLISHED, 0, 0, 0);
    assert Unconfirmed(0, [0]) == map[(0, 0) := Product(1, false)];
  }

  lemma TaskBecomesEligible()
    ensures Possible(OPENED, CONFIRM_PRODUCT) && After(OPENED, CONFIRM_PRODUCT) == AFFECTED
    ensures Possible(AFFECTED, CONFIRM) && After(AFFECTED, CONFIRM) == ELIGIBLE
  {
    assert (0, 0) in AFFECTED.products && 0 in ProductsOf(AFFECTED.products, 0);
  }

  lemma EvidenceIsSubmitted()
    ensures Possible(ELIGIBLE, SUBMIT) && After(ELIGIBLE, SUBMIT) == SUBMITTED
  {
    assert InForce(ELIGIBLE.approvals[0], 0, 1);
    assert Reads(ELIGIBLE, 0, 1, SUBMIT.view);
    assert EvidenceProblem(ELIGIBLE.tasks[0], SUBMIT.uploads, SUBMIT.submission.evidence).None?;
    assert AddDocuments(map[], 0, []) == map[];
    assert SUBMIT.submission.evidence[..0] == [];
    assert AddDocuments(ELIGIBLE.documents, 0, SUBMIT.submission.evidence) == SUBMITTED.documents;
  }

  lemma EvidenceIsAccepted()
    ensures Possible(SUBMITTED, ACCEPT) && After(SUBMITTED, ACCEPT) == ACCEPTED
  {
  }

  lemma OneProductIsConfirmed(products: map<(TaskId, ProductId), Product>)
    requires products == map[(0, 0) := Product(1, true)]
    ensures Confirmed(products, 0) == map[0 := 1]
  {
    assert (0, 0) in products;
    assert ProductsOf(products, 0) == {0};
  }

  lemma OneProductIsCovered()
    ensures Covered(map[0 := 1], [PHOTO]) == map[0 := 1]
  {
    assert [PHOTO][..0] == [];
    assert Best([PHOTO], 0, 1) == 1;
  }

  /** What an issue does once its gate, its coverage and its index let it through. */
  lemma IssueCommits(db: Db, op: Op, covered: map<ProductId, nat>)
    requires op.OpIssue? && Possible(db, op) && op.task in db.tasks && op.view.batch.Some? &&
      PermissionGate(StateOf(db, op.task, op.view), op.now)
    requires covered == Covered(Confirmed(db.products, op.task), op.photos) && covered != map[]
    requires !ActiveTaken(db.authorizations, op.task, op.view.batch.value)
    ensures After(db, op) == db.(
      authorizations := db.authorizations[op.authorization := Authorization(op.task, op.view.batch.value,
        db.tasks[op.task].version, Active, op.issuedAt)],
      items := db.items + ItemsOf(op.authorization, covered))
  {
    hide CreateTask, ConfirmEligibility, ConfirmProduct, SubmitBatch, DecideBatch, PutHold, LiftHold, Revoke, Declare,
      Withdraw, CreateVersion, RecordApproval, Publish;
    hide PermissionGate, Covered, Confirmed, ActiveTaken, ItemsOf, PhotosOf;
  }

  lemma FirstIsPossible()
    ensures Possible(ACCEPTED, ISSUE_FIRST) && PermissionGate(StateOf(ACCEPTED, 0, ISSUE_FIRST.view), 5) &&
      !ActiveTaken(ACCEPTED.authorizations, 0, 0)
  {
    assert InForce(ACCEPTED.approvals[0], 0, 5);
    assert Reads(ACCEPTED, 0, 5, ISSUE_FIRST.view);
    assert PhotosOf(ACCEPTED.documents, 0, [PHOTO]) by {
      assert ACCEPTED.documents[0] == BatchDocument(0, PHOTO);
    }
  }

  lemma FirstIsIssued()
    ensures Possible(ACCEPTED, ISSUE_FIRST) && After(ACCEPTED, ISSUE_FIRST) == ISSUED
  {
    FirstIsPossible();
    OneProductIsConfirmed(ACCEPTED.products);
    OneProductIsCovered();
    hide After, Possible, Covered, Confirmed, PermissionGate, StateOf, ActiveTaken, Reads;
    IssueCommits(ACCEPTED, ISSUE_FIRST, map[0 := 1]);
    assert ItemsOf(0, map[0 := 1]) == map[(0, 0) := 1];
  }

  lemma FirstIsRevoked()
    ensures Possible(ISSUED, REVOKE_FIRST) && After(ISSUED, REVOKE_FIRST) == REVOKED
  {
    hide CreateTask, ConfirmEligibility, ConfirmProduct, SubmitBatch, DecideBatch, PutHold, LiftHold, Issue, Declare,
      Withdraw, CreateVersion, RecordApproval, Publish;
  }

  lemma SecondIsPossible()
    ensures Possible(REVOKED, ISSUE_SECOND) && PermissionGate(StateOf(REVOKED, 0, ISSUE_SECOND.view), 7) &&
      !ActiveTaken(REVOKED.authorizations, 0, 0)
  {
    assert InForce(REVOKED.approvals[0], 0, 7);
    assert Reads(REVOKED, 0, 7, ISSUE_SECOND.view);
    assert PhotosOf(REVOKED.documents, 0, [PHOTO]) by {
      assert REVOKED.documents[0] == BatchDocument(0, PHOTO);
    }
  }

  lemma SecondItems(first: (AuthorizationId, ProductId), second: (AuthorizationId, ProductId))
    requires first.0 == 0 && second == (1, 0)
    ensures map[first := 1] + ItemsOf(1, map[0 := 1]) == map[first := 1, second := 1]
  {
    var items := ItemsOf(1, map[0 := 1]);
    assert second in items && items[second] == 1 && forall k :: k in items ==> k == second;
  }

  lemma SecondIsIssued()
    ensures Possible(REVOKED, ISSUE_SECOND) && After(REVOKED, ISSUE_SECOND) == HIDDEN
  {
    SecondIsPossible();
    OneProductIsConfirmed(REVOKED.products);
    OneProductIsCovered();
    hide After, Possible, Covered, Confirmed, PermissionGate, StateOf, ActiveTaken, Reads;
    hide ItemsOf;
    IssueCommits(REVOKED, ISSUE_SECOND, map[0 := 1]);
    SecondItems((0, 0), (1, 0));
  }

  const PREPARATION := [CREATE_VERSION, APPROVE, PUBLISH, CREATE_TASK, CONFIRM_PRODUCT, CONFIRM, SUBMIT, ACCEPT]
  const RUN := PREPARATION + [ISSUE_FIRST, REVOKE_FIRST, ISSUE_SECOND]

  lemma OneMoreStep(db: Db, op: Op, next: Db, ops: seq<Op>, end: Db)
    requires Possible(db, op) && After(db, op) == next && Runs(next, ops) && Final(next, ops) == end
    ensures Runs(db, [op] + ops) && Final(db, [op] + ops) == end
  {
    hide Possible, After;
    assert ([op] + ops)[1..] == ops;
  }

  lemma NoMoreSteps(db: Db)
    ensures Runs(db, []) && Final(db, []) == db
  {
  }

  lemma TailRuns() returns (tail: seq<Op>)
    ensures tail == [ISSUE_FIRST, REVOKE_FIRST, ISSUE_SECOND] && Runs(ACCEPTED, tail) && Final(ACCEPTED, tail) == HIDDEN
  {
    hide Possible, After, Runs, Final;
    NoMoreSteps(HIDDEN);
    SecondIsIssued();
    OneMoreStep(REVOKED, ISSUE_SECOND, HIDDEN, [], HIDDEN);
    FirstIsRevoked();
    OneMoreStep(ISSUED, REVOKE_FIRST, REVOKED, [ISSUE_SECOND] + [], HIDDEN);
    FirstIsIssued();
    OneMoreStep(ACCEPTED, ISSUE_FIRST, ISSUED, [REVOKE_FIRST] + ([ISSUE_SECOND] + []), HIDDEN);
    tail := [ISSUE_FIRST] + ([REVOKE_FIRST] + ([ISSUE_SECOND] + []));
  }

  lemma RunReachesHidden()
    ensures Runs(EMPTY, RUN) && Final(EMPTY, RUN) == HIDDEN
  {
    hide Possible, After, Runs, Final;
    var ops := TailRuns();
    EvidenceIsAccepted();
    OneMoreStep(SUBMITTED, ACCEPT, ACCEPTED, ops, HIDDEN);
    EvidenceIsSubmitted();
    OneMoreStep(ELIGIBLE, SUBMIT, SUBMITTED, [ACCEPT] + ops, HIDDEN);
    TaskBecomesEligible();
    OneMoreStep(AFFECTED, CONFIRM, ELIGIBLE, [SUBMIT] + ([ACCEPT] + ops), HIDDEN);
    OneMoreStep(OPENED, CONFIRM_PRODUCT, AFFECTED, [CONFIRM] + ([SUBMIT] + ([ACCEPT] + ops)), HIDDEN);
    ops := [CONFIRM_PRODUCT] + ([CONFIRM] + ([SUBMIT] + ([ACCEPT] + ops)));
    TaskIsOpened();
    OneMoreStep(PUBLISHED, CREATE_TASK, OPENED, ops, HIDDEN);
    VersionIsPublished();
    OneMoreStep(APPROVED, PUBLISH, PUBLISHED, [CREATE_TASK] + ops, HIDDEN);
    VersionIsApproved();
    OneMoreStep(DRAFTED, APPROVE, APPROVED, [PUBLISH] + ([CREATE_TASK] + ops), HIDDEN);
    VersionIsDrafted();
    OneMoreStep(EMPTY, CREATE_VERSION, DRAFTED, [APPROVE] + ([PUBLISH] + ([CREATE_TASK] + ops)), HIDDEN);
    assert RUN == [CREATE_VERSION] + ([APPROVE] + ([PUBLISH] + ([CREATE_TASK] + ops)));
  }

  lemma HiddenIsMissed()
    ensures Possible(HIDDEN, OpRevoke(0, Some(0))) &&
      Apply(HIDDEN, OpRevoke(0, Some(0))) == Commit(HIDDEN, Revocation(0, false))
  {
    hide CreateTask, ConfirmEligibility, ConfirmProduct, SubmitBatch, DecideBatch, PutHold, LiftHold, Issue, Declare,
      Withdraw, CreateVersion, RecordApproval, Publish;
  }

  lemma NothingIsConsistent()
    ensures Inv(EMPTY)
  {
  }

  /**
   * The run is possible, and at its end revoking the task reports that nothing changed and
   * leaves the second permission live.
   */
  lemma RevocationCanMiss()
    ensures Runs(EMPTY, RUN) && Inv(Final(EMPTY, RUN)) && 1 in Final(EMPTY, RUN).authorizations
    ensures Final(EMPTY, RUN).authorizations[1] == SECOND && SECOND.status == Active
    ensures Possible(Final(EMPTY, RUN), OpRevoke(0, Some(0)))
    ensures Apply(Final(EMPTY, RUN), OpRevoke(0, Some(0))) == Commit(Final(EMPTY, RUN), Revocation(0, false))
  {
    hide Inv, Runs, Final, Possible, Apply;
    RunReachesHidden();
    NothingIsConsistent();
    RunKeepsInv(EMPTY, RUN);
    HiddenIsMissed();
  }
}
