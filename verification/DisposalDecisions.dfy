/**
 * What people decide about a disposal task, spelled out on the rows: reviews, holds, permissions,
 * declarations, withdrawals and the instructions themselves.
 */
module DisposalDecisions {
  import opened Prelude
  import opened DisposalPolicy
  import opened Coverage
  import opened DisposalTables
  import opened DisposalInvariants
  import opened DisposalRuns
  import opened DisposalProgress

  // ---- reviews ------------------------------------------------------------------

  /** A review goes through exactly for a pending batch with a rationale, and a reason when it rejects. */
  lemma ReviewIsExact(db: Db, b: BatchId, v: Verdict)
    requires Inv(db)
    ensures var r := DecideBatch(db, b, v);
      (r.Commit? <==>
        b in db.batches && db.batches[b].status == Pending && (v.accepted || v.reason != None) &&
        v.rationaleLength >= 10) &&
      (r == Abort(NotFound) <==> b !in db.batches) &&
      (r == Abort(ConstraintViolation) <==>
        b in db.batches && db.batches[b].status == Pending && (v.accepted || v.reason != None) &&
        v.rationaleLength < 10) &&
      (r.Abort? ==> r.error in {NotFound, ConstraintViolation, Refused})
  {
  }

  /** It stores the verdict that was given, with the batch and with the review, and moves nothing else. */
  lemma ReviewIsRecorded(db: Db, b: BatchId, v: Verdict)
    requires DecideBatch(db, b, v).Commit?
    ensures var after := DecideBatch(db, b, v).state;
      b in after.batches && b in after.reviews &&
      (v.accepted <==> after.batches[b].status == Accepted) &&
      (!v.accepted <==> after.batches[b].status == NeedsResubmission) &&
      after.reviews[b].decision == after.batches[b].status && after.reviews[b].reason == v.reason &&
      after.batches[b] == db.batches[b].(status := after.batches[b].status) &&
      after.batches.Keys == db.batches.Keys && after.reviews.Keys == db.reviews.Keys + {b} &&
      (forall c :: c in db.batches && c != b ==> after.batches[c] == db.batches[c]) &&
      (forall c :: c in db.reviews && c != b ==> after.reviews[c] == db.reviews[c]) &&
      DecideBatch(db, b, v) == Commit(db.(batches := after.batches, reviews := after.reviews), Done)
  {
  }

  lemma PendingIsLast(batches: map<BatchId, Batch>, b: BatchId)
    requires BatchesOk(batches) && b in batches && batches[b].status != Superseded
    ensures forall c :: c in batches && batches[c].task == batches[b].task && c != b ==>
      batches[c].number < batches[b].number
  {
  }

  lemma OneLastBatch(db: Db, t: TaskId)
    ensures forall one, other :: LastBatchIs(db, t, one) && LastBatchIs(db, t, other) ==> one == other
    ensures forall status :: LastBatchIs(db, t, status) ==> HasBatch(db, t)
  {
  }

  /** What the status of its last batch means for what a task shows, whichever rows are read. */
  lemma EvidenceShows(db: Db, t: TaskId, now: int, view: View, status: BatchStatus)
    requires BatchesOk(db.batches) && Reads(db, t, now, view) && LastBatchIs(db, t, status)
    ensures var reasons := Reasons(StateOf(db, t, view), now);
      (EvidencePendingReview in reasons <==> status == Pending) && EvidenceNotSubmitted !in reasons &&
      (EvidenceNeedsResubmission in reasons <==> status in {NeedsResubmission, Superseded})
  {
    hide Reasons, StateOf, Reads, BatchesOk, LastBatchIs, HasBatch;
    OneLastBatch(db, t);
    ReasonsOnTheRows(db, t, now, view, EvidencePendingReview);
    ReasonsOnTheRows(db, t, now, view, EvidenceNotSubmitted);
    ReasonsOnTheRows(db, t, now, view, EvidenceNeedsResubmission);
  }

  /** What it means for what can be done next. */
  lemma EvidenceOpens(db: Db, t: TaskId, now: int, view: View, status: BatchStatus)
    requires BatchesOk(db.batches) && Reads(db, t, now, view) && LastBatchIs(db, t, status)
    ensures var actions := Actions(StateOf(db, t, view), now);
      (ReviewBatch in actions <==> status == Pending && db.tasks[t].status == Open) &&
      (ResubmitEvidence in actions <==> status in {NeedsResubmission, Superseded} && InPlace(db, t, now)) &&
      (IssueAuthorization in actions || DeclareCompletion in actions <==> status == Accepted && InPlace(db, t, now))
  {
    hide Actions, StateOf, Reads, InPlace, LastBatchIs, HasBatch, BatchesOk, LiveIsRead;
    OneLastBatch(db, t);
    ActionsOnTheRows(db, t, now, view, ReviewBatch);
    ActionsOnTheRows(db, t, now, view, ResubmitEvidence);
    ActionsOnTheRows(db, t, now, view, IssueAuthorization);
    ActionsOnTheRows(db, t, now, view, DeclareCompletion);
  }

  /** A reviewed batch was its task's last, so what the task shows next is the verdict. */
  lemma ReviewShows(db: Db, b: BatchId, v: Verdict)
    requires BatchesOk(db.batches) && DecideBatch(db, b, v).Commit?
    ensures var after := DecideBatch(db, b, v).state;
      BatchesOk(after.batches) &&
      LastBatchIs(after, after.batches[b].task, if v.accepted then Accepted else NeedsResubmission)
  {
    var after := DecideBatch(db, b, v).state;
    assert db.batches[b].status == Pending;
    ReviewIsRecorded(db, b, v);
    PendingIsLast(db.batches, b);
    hide DecideBatch, BatchesOk;
    StatusesKeepBatches(db.batches, after.batches);
  }

  /** Over every run from empty tables, whatever is accepted was accepted by a review. */
  lemma {:induction false} AcceptedByReview(db: Db, ops: seq<Op>, b: BatchId)
    requires Runs(db, ops) && b in Final(db, ops).batches && Final(db, ops).batches[b].status == Accepted
    requires b in db.batches ==> db.batches[b].status != Accepted
    ensures exists i :: 0 <= i < |ops| && ops[i].OpReview? && ops[i].batch == b && ops[i].verdict.accepted
    decreases |ops|
  {
    assert ops != [];
    var after := After(db, ops[0]);
    if b in after.batches && after.batches[b].status == Accepted {
      OnlyReviewsAccept(db, ops[0], b);
    } else {
      hide After, Possible;
      AcceptedByReview(after, ops[1..], b);
      var i :| 0 <= i < |ops[1..]| && ops[1..][i].OpReview? && ops[1..][i].batch == b && ops[1..][i].verdict.accepted;
      assert ops[i + 1] == ops[1..][i];
    }
  }

  lemma OnlyReviewsAccept(db: Db, op: Op, b: BatchId)
    requires Possible(db, op) && b in After(db, op).batches && After(db, op).batches[b].status == Accepted
    requires b in db.batches ==> db.batches[b].status != Accepted
    ensures op.OpReview? && op.batch == b && op.verdict.accepted
  {
    Untouched(db, op);
    if op.OpSubmit? {
      SubmissionEffect(db, op);
      hide After, Apply;
    } else if op.OpReview? {
      assert After(db, op) == db || DecideBatch(db, op.batch, op.verdict).Commit?;
      if DecideBatch(db, op.batch, op.verdict).Commit? { ReviewIsRecorded(db, op.batch, op.verdict); }
    }
  }

  // ---- holds --------------------------------------------------------------------

  /** Reviews, releases and holds under a fresh id can always be asked for. */
  lemma AnyoneMayAsk(db: Db, t: TaskId, h: HoldId, reason: HoldReason, b: BatchId, v: Verdict)
    ensures Possible(db, OpPlaceHold(t, h, reason)) <==> h !in db.holds
    ensures Possible(db, OpReleaseHold(t)) && Possible(db, OpReview(b, v))
    ensures h !in db.holds ==> Apply(db, OpPlaceHold(t, h, reason)) == PutHold(db, t, h, reason)
    ensures Apply(db, OpReleaseHold(t)) == LiftHold(db, t) && Apply(db, OpReview(b, v)) == DecideBatch(db, b, v)
  {
  }

  /** Placing a hold leaves the task on hold and no other task's holds changed; a second one changes nothing. */
  lemma HoldIsExact(db: Db, t: TaskId, h: HoldId, reason: HoldReason)
    requires h !in db.holds
    ensures var r := PutHold(db, t, h, reason);
      (r.Commit? <==> t in db.tasks) && (r.Abort? ==> r == Abort(NotFound)) &&
      (r.Commit? ==>
        r.answer == Done && r.state == db.(holds := r.state.holds) && OnHold(r.state, t) &&
        (OnHold(db, t) ==> r.state.holds == db.holds) &&
        (!OnHold(db, t) ==>
          r.state.holds.Keys == db.holds.Keys + {h} && r.state.holds[h] == Hold(t, reason, false)) &&
        (forall k :: k in db.holds ==> k in r.state.holds && r.state.holds[k] == db.holds[k]) &&
        forall u :: u != t ==> (OnHold(r.state, u) <==> OnHold(db, u)))
  {
    var r := PutHold(db, t, h, reason);
    if t in db.tasks && !OnHold(db, t) {
      assert r.state.holds[h].task == t && r.state.holds[h].released == false;
    }
    assert HoldActive(db.holds, t) <==> OnHold(db, t);
    forall u | t in db.tasks && u != t ensures OnHold(r.state, u) <==> OnHold(db, u) {
      if OnHold(db, u) {
        var k :| k in db.holds && db.holds[k].task == u && db.holds[k].released == false;
        assert r.state.holds[k] == db.holds[k];
      }
    }
  }

  /** Releasing needs a hold, ends every hold of the task and none of another. */
  lemma ReleaseIsExact(db: Db, t: TaskId)
    ensures var r := LiftHold(db, t);
      (r.Commit? <==> t in db.tasks && OnHold(db, t)) && (r == Abort(NotFound) <==> t !in db.tasks) &&
      (r.Abort? ==> r.error in {NotFound, Refused}) &&
      (r.Commit? ==>
        r.answer == Done && r.state == db.(holds := r.state.holds) && !OnHold(r.state, t) &&
        r.state.holds.Keys == db.holds.Keys &&
        (forall k :: k in db.holds ==>
          r.state.holds[k] == db.holds[k].(released := r.state.holds[k].released) &&
          (db.holds[k].task != t ==> r.state.holds[k] == db.holds[k])) &&
        forall u :: u != t ==> (OnHold(r.state, u) <==> OnHold(db, u)))
  {
    var r := LiftHold(db, t);
    assert HoldActive(db.holds, t) <==> OnHold(db, t);
    forall u | r.Commit? && u != t ensures OnHold(r.state, u) <==> OnHold(db, u) {
      if OnHold(db, u) {
        var k :| k in db.holds && db.holds[k].task == u && db.holds[k].released == false;
        assert r.state.holds[k] == db.holds[k];
      }
    }
  }

  // ---- permissions --------------------------------------------------------------

  ghost predicate HasLive(db: Db, t: TaskId) {
    exists a :: a in db.authorizations && db.authorizations[a].task == t && db.authorizations[a].status == Active
  }

  /** A confirmed product of the task that the batch shows something of. */
  ghost predicate ShowsConfirmed(db: Db, t: TaskId, b: BatchId) {
    exists d, p ::
      d in db.documents && db.documents[d].batch == b && (t, p) in db.products && db.products[(t, p)].confirmed &&
      (db.documents[d].photo.product == None || db.documents[d].photo.product == Some(p))
  }

  lemma GateOnTheRows(db: Db, t: TaskId, now: int, view: View)
    requires BatchesOk(db.batches) && Reads(db, t, now, view)
    ensures PermissionGate(StateOf(db, t, view), now) <==> AllInPlace(db, t, now)
  {
    LoadedState(db, t, now, view);
    LoadedBatch(db, t, now, view);
    hide StateOf, Reads, VersionHas, SomeApprovalApplies, OnHold, LastBatchIs, HasBatch, BatchesOk;
    hide ApprovalWindowIncludes;
  }

  lemma CoveredProduct(db: Db, t: TaskId, photos: seq<Photo>, p: ProductId)
    requires QuantitiesPositive(db) && forall d :: d in photos && d.quantity.Some? ==> d.quantity.value > 0
    ensures p in Covered(Confirmed(db.products, t), photos) <==>
      (t, p) in db.products && db.products[(t, p)].confirmed && exists d :: d in photos && Concerns(d, p)
  {
    var confirmed := Confirmed(db.products, t);
    forall q | q in confirmed ensures confirmed[q] > 0 { ConfirmedProducts(db.products, t, q); }
    ConfirmedProducts(db.products, t, p);
    hide Confirmed, Covered;
    CoverageIsExact(confirmed, photos, p);
  }

  lemma PhotosArePositive(db: Db, b: BatchId, photos: seq<Photo>)
    requires QuantitiesPositive(db) && PhotosOf(db.documents, b, photos)
    ensures forall d :: d in photos && d.quantity.Some? ==> d.quantity.value > 0
  {
    forall photo | photo in photos && photo.quantity.Some? ensures photo.quantity.value > 0 {
      var d :| d in db.documents && db.documents[d] == BatchDocument(b, photo);
    }
  }

  lemma ShownIsCovered(db: Db, t: TaskId, b: BatchId, photos: seq<Photo>)
    requires QuantitiesPositive(db) && PhotosOf(db.documents, b, photos) && ShowsConfirmed(db, t, b)
    ensures Covered(Confirmed(db.products, t), photos) != map[]
  {
    var d, p :| d in db.documents && db.documents[d].batch == b && (t, p) in db.products &&
      db.products[(t, p)].confirmed &&
      (db.documents[d].photo.product == None || db.documents[d].photo.product == Some(p));
    PhotosArePositive(db, b, photos);
    assert db.documents[d].photo in photos && Concerns(db.documents[d].photo, p);
    hide Covered, Confirmed, PhotosOf;
    CoveredProduct(db, t, photos, p);
  }

  lemma CoverageOnTheRows(db: Db, t: TaskId, b: BatchId, photos: seq<Photo>)
    requires QuantitiesPositive(db) && PhotosOf(db.documents, b, photos)
    ensures Covered(Confirmed(db.products, t), photos) != map[] <==> ShowsConfirmed(db, t, b)
  {
    if ShowsConfirmed(db, t, b) {
      ShownIsCovered(db, t, b, photos);
    } else {
      PhotosArePositive(db, b, photos);
      forall p ensures p !in Covered(Confirmed(db.products, t), photos) {
        CoveredProduct(db, t, photos, p);
      }
    }
  }

  /** A permission is issued exactly when all is in place, the batch shows something confirmed, and none is live. */
  lemma IssuingIsExact(
      db: Db, t: TaskId, now: int, view: View, photos: seq<Photo>, a: AuthorizationId, issuedAt: int)
    requires Inv(db) && Possible(db, OpIssue(t, now, view, photos, a, issuedAt))
    ensures Issue(db, t, now, view, photos, a, issuedAt).Commit? <==>
      t in db.tasks && AllInPlace(db, t, now) && !HasLive(db, t) && view.batch.Some? &&
      ShowsConfirmed(db, t, view.batch.value)
  {
    if t in db.tasks {
      GateOnTheRows(db, t, now, view);
      if view.batch.Some? { CoverageOnTheRows(db, t, view.batch.value, photos); }
      LiveIsOnLast(db, t, view.batch);
    }
    hide PermissionGate, StateOf, AllInPlace, ShowsConfirmed, Covered, Confirmed, Inv;
  }

  /** Why issuing is refused: a gate that does not hold comes first, then a batch that shows nothing confirmed. */
  lemma IssuingRefusals(
      db: Db, t: TaskId, now: int, view: View, photos: seq<Photo>, a: AuthorizationId, issuedAt: int)
    requires BatchesOk(db.batches) && QuantitiesPositive(db)
    requires Possible(db, OpIssue(t, now, view, photos, a, issuedAt))
    ensures var r := Issue(db, t, now, view, photos, a, issuedAt);
      (t !in db.tasks ==> r == Abort(NotFound)) &&
      (t in db.tasks && !AllInPlace(db, t, now) ==> r == Abort(Gate)) &&
      (t in db.tasks && AllInPlace(db, t, now) && view.batch.Some? && !ShowsConfirmed(db, t, view.batch.value) ==>
        r == Abort(NothingCovered)) &&
      (t in db.tasks && AllInPlace(db, t, now) && view.batch.Some? && ShowsConfirmed(db, t, view.batch.value) ==>
        r.Commit? || r == Abort(ConstraintViolation))
  {
    if t in db.tasks {
      GateOnTheRows(db, t, now, view);
      if view.batch.Some? { CoverageOnTheRows(db, t, view.batch.value, photos); }
    }
    hide PermissionGate, StateOf, AllInPlace, ShowsConfirmed, Covered, Confirmed, BatchesOk, QuantitiesPositive;
  }

  /** A live permission of a task can only be on the batch that is read as its last. */
  lemma LiveIsOnLast(db: Db, t: TaskId, last: Option<BatchId>)
    requires Inv(db) && LatestBatchRow(db.batches, t, last)
    ensures HasLive(db, t) <==> last.Some? && ActiveTaken(db.authorizations, t, last.value)
  {
    if HasLive(db, t) {
      var a :| a in db.authorizations && db.authorizations[a].task == t && db.authorizations[a].status == Active;
      PermissionsOfATask(db, a, a);
      AcceptedIsLatest(db.batches, db.authorizations[a].batch);
      assert last == Some(db.authorizations[a].batch);
    }
  }

  lemma IssuingLeaves(
      db: Db, t: TaskId, now: int, view: View, photos: seq<Photo>, a: AuthorizationId, issuedAt: int)
    requires Possible(db, OpIssue(t, now, view, photos, a, issuedAt))
    requires Issue(db, t, now, view, photos, a, issuedAt).Commit?
    ensures var r := Issue(db, t, now, view, photos, a, issuedAt);
      view.batch.Some? && r.answer == Issued(a) &&
      r.state == db.(authorizations := r.state.authorizations, items := r.state.items) &&
      r.state.authorizations.Keys == db.authorizations.Keys + {a} &&
      r.state.authorizations[a].task == t && r.state.authorizations[a].batch == view.batch.value &&
      r.state.authorizations[a].version == db.tasks[t].version && r.state.authorizations[a].status == Active &&
      r.state.authorizations[a].issuedAt == issuedAt &&
      (forall c :: c in db.authorizations ==> r.state.authorizations[c] == db.authorizations[c]) &&
      forall k :: k in db.items ==> k in r.state.items && r.state.items[k] == db.items[k]
  {
    hide PermissionGate, StateOf, Covered, Confirmed;
  }

  /** Revoking retires exactly the row that was read, whatever it was, and says whether that changed anything. */
  lemma RevokingLeaves(db: Db, t: TaskId, seen: Option<AuthorizationId>)
    requires LatestAuthorizationRow(db.authorizations, t, seen)
    ensures var r := Revoke(db, t, seen);
      (r.Commit? <==> t in db.tasks && seen.Some?) && (r == Abort(NotFound) <==> t !in db.tasks) &&
      (r.Abort? ==> r.error in {NotFound, Refused}) &&
      (r.Commit? ==>
        r.state == db.(authorizations := r.state.authorizations) &&
        r.state.authorizations.Keys == db.authorizations.Keys &&
        r.state.authorizations[seen.value] == db.authorizations[seen.value].(status := Revoked) &&
        (forall c :: c in db.authorizations && c != seen.value ==>
          r.state.authorizations[c] == db.authorizations[c]) &&
        r.answer == Revocation(seen.value, db.authorizations[seen.value].status != Revoked))
  {
    if seen.Some? && db.authorizations[seen.value].status == Revoked {
      assert db.authorizations[seen.value] == db.authorizations[seen.value].(status := Revoked);
    }
  }

  // ---- declarations -------------------------------------------------------------

  /** What every new declaration needs: the token, an open task without one, and the version's own text. */
  ghost predicate MayDeclare(db: Db, t: TaskId, token: Token, text: nat, now: int) {
    IsOpenFor(db, t, token, now) && db.tasks[t].status == Open && t !in db.declarations &&
    db.tasks[t].version in db.versions && text == db.versions[db.tasks[t].version].declarationText
  }

  /** What is recorded: a new declaration with its basis and the statement's own words, and a completed task. */
  ghost predicate Records(db: Db, op: Op, basis: Option<AuthorizationId>)
    requires op.OpDeclare? && Possible(db, op)
  {
    var r := Declare(db, op.task, op.token, op.statement, op.now, op.view);
    op.task in db.tasks && r.Commit? && r.answer == Done && op.task !in db.declarations &&
    r.state == db.(declarations := r.state.declarations, tasks := r.state.tasks) &&
    r.state.declarations == db.declarations[op.task :=
      Declaration(basis, op.statement.exception, op.statement.note, op.statement.text)] &&
    r.state.tasks == db.tasks[op.task :=
      db.tasks[op.task].(status := Completed, revision := db.tasks[op.task].revision + 1)]
  }

  ghost predicate LiveRow(db: Db, a: AuthorizationId) {
    a in db.authorizations && db.authorizations[a].status == Active
  }

  /** No declaration of another task cites a permission of this one. */
  lemma CitedOnce(db: Db, t: TaskId, a: AuthorizationId)
    requires Inv(db) && t !in db.declarations && a in db.authorizations && db.authorizations[a].task == t
    ensures forall u :: u in db.declarations ==> db.declarations[u].authorization != Some(a)
  {
  }

  /** The basis of a statement on the rows: the live permission that is read, or an explained exception. */
  lemma BasisOnTheRows(db: Db, op: Op)
    requires Inv(db) && op.OpDeclare? && Possible(db, op) && op.task in db.tasks
    requires op.statement.exception == None || op.statement.authorization == None
    ensures var s, seen := op.statement, op.view.authorization;
      BasisHolds(StateOf(db, op.task, op.view), s, seen, op.now) <==>
        if s.exception != None then
          db.tasks[op.task].status == Open && s.note != None && s.note != Some("") &&
          !(AllInPlace(db, op.task, op.now) && LiveIsRead(db, op.view))
        else
          LiveIsRead(db, op.view) && (s.authorization == None || s.authorization == seen) &&
          AllInPlace(db, op.task, op.now)
  {
    GateOnTheRows(db, op.task, op.now, op.view);
    LoadedState(db, op.task, op.now, op.view);
    hide PermissionGate, AllInPlace, Inv, StateOf, Reads, LiveIsRead;
  }

  /** Whether a statement about an undeclared task meets every check. */
  ghost predicate Passes(db: Db, op: Op)
    requires op.OpDeclare? && Possible(db, op)
  {
    MayDeclare(db, op.task, op.token, op.statement.text, op.now) &&
    (op.statement.exception == None || op.statement.authorization == None) &&
    BasisHolds(StateOf(db, op.task, op.view), op.statement, op.view.authorization, op.now)
  }

  function BasisOf(op: Op): Option<AuthorizationId>
    requires op.OpDeclare?
  {
    if op.statement.exception != None then None else op.view.authorization
  }

  /** The constraints on a declaration with one basis that nobody cites let it in. */
  lemma CompletingLeaves(db: Db, t: TaskId, d: Declaration)
    requires t in db.tasks && t !in db.declarations
    requires d.exception != None ==> d.note != None && d.authorization == None
    requires d.exception == None ==> d.authorization != None
    requires d.authorization != None ==>
      forall u :: u in db.declarations ==> db.declarations[u].authorization != d.authorization
    ensures Complete(db, t, d) == Commit(
      db.(declarations := db.declarations[t := d],
          tasks := db.tasks[t := db.tasks[t].(status := Completed, revision := db.tasks[t].revision + 1)]), Done)
  {
  }

  /** The table's own constraints: one basis, an explained exception, one declaration a task and a permission. */
  lemma ConstraintsAreExact(db: Db, t: TaskId, d: Declaration)
    requires t in db.tasks
    ensures var r := Complete(db, t, d);
      (r.Commit? <==>
        (d.authorization == None) != (d.exception == None) && (d.exception != None ==> d.note != None) &&
        t !in db.declarations &&
        (d.authorization != None ==>
          forall u :: u in db.declarations ==> db.declarations[u].authorization != d.authorization)) &&
      (r.Abort? ==> r == Abort(ConstraintViolation))
  {
  }

  lemma BasisGives(state: PolicyState, s: Statement, seen: Option<AuthorizationId>, now: int)
    requires BasisHolds(state, s, seen, now)
    ensures if s.exception != None then s.note != None else seen != None && Cited(s, seen) == seen
  {
  }

  /** What passes reaches the insert, with its basis. */
  lemma PassingReachesInsert(db: Db, op: Op)
    requires op.OpDeclare? && Possible(db, op) && Passes(db, op)
    ensures var t, s := op.task, op.statement;
      MayDeclare(db, t, op.token, s.text, op.now) &&
      (if s.exception != None then s.note != None && BasisOf(op) == None else BasisOf(op) != None) &&
      Declare(db, t, op.token, s, op.now, op.view) ==
        Complete(db, t, Declaration(BasisOf(op), s.exception, s.note, s.text))
  {
    BasisGives(StateOf(db, op.task, op.view), op.statement, op.view.authorization, op.now);
    hide StateOf, BasisHolds, Reads, Complete;
  }

  lemma PassingCompletes(db: Db, op: Op)
    requires op.OpDeclare? && Possible(db, op) && Passes(db, op)
    requires op.view.authorization.Some? ==>
      forall u :: u in db.declarations ==> db.declarations[u].authorization != op.view.authorization
    ensures Records(db, op, BasisOf(op))
  {
    var t, s := op.task, op.statement;
    PassingReachesInsert(db, op);
    hide StateOf, BasisHolds, Reads, Declare, Passes;
    CompletingLeaves(db, t, Declaration(BasisOf(op), s.exception, s.note, s.text));
    hide Complete;
  }

  lemma PassingIsRecorded(db: Db, op: Op)
    requires Inv(db) && op.OpDeclare? && Possible(db, op) && Passes(db, op)
    ensures Records(db, op, BasisOf(op))
  {
    if op.view.authorization.Some? {
      CitedOnce(db, op.task, op.view.authorization.value);
    }
    hide Inv, BasisHolds, StateOf, Declare;
    PassingCompletes(db, op);
  }

  lemma OthersAreRefused(db: Db, op: Op)
    requires op.OpDeclare? && Possible(db, op) && op.task !in db.declarations && !Passes(db, op)
    ensures Declare(db, op.task, op.token, op.statement, op.now, op.view).Abort?
  {
    hide StateOf, BasisHolds;
  }

  lemma RecordsOnce(db: Db, op: Op, one: Option<AuthorizationId>, other: Option<AuthorizationId>)
    requires op.OpDeclare? && Possible(db, op) && Records(db, op, one) && Records(db, op, other)
    ensures one == other
  {
    var after := Declare(db, op.task, op.token, op.statement, op.now, op.view).state.declarations;
    hide Declare;
    assert after[op.task].authorization == one && after[op.task].authorization == other;
  }

  /**
   * A completion is recorded on a permission exactly when the permission is the row that is read,
   * it is live, the statement names it or nothing, no exception is claimed, and all is in place.
   */
  lemma CompletionIsExact(db: Db, op: Op, a: AuthorizationId)
    requires Inv(db) && op.OpDeclare? && Possible(db, op)
    ensures Records(db, op, Some(a)) <==>
      MayDeclare(db, op.task, op.token, op.statement.text, op.now) && op.statement.exception == None &&
      (op.statement.authorization == None || op.statement.authorization == Some(a)) &&
      op.view.authorization == Some(a) && LiveRow(db, a) && AllInPlace(db, op.task, op.now)
  {
    var s := op.statement;
    hide AllInPlace, Inv, BasisHolds, StateOf, Declare, Possible, LiveIsRead;
    if op.task in db.tasks && (s.exception == None || s.authorization == None) { BasisOnTheRows(db, op); }
    if op.task in db.tasks && op.task !in db.declarations {
      if Passes(db, op) {
        PassingIsRecorded(db, op);
        if Records(db, op, Some(a)) { RecordsOnce(db, op, Some(a), BasisOf(op)); }
      } else {
        OthersAreRefused(db, op);
      }
    }
  }

  /**
   * A declaration without a permission is recorded exactly for an explained exception that names
   * none, and only while completing is not open.
   */
  lemma ExceptionIsExact(db: Db, op: Op)
    requires Inv(db) && op.OpDeclare? && Possible(db, op)
    ensures Records(db, op, None) <==>
      MayDeclare(db, op.task, op.token, op.statement.text, op.now) && op.statement.exception != None &&
      op.statement.authorization == None && op.statement.note != None && op.statement.note != Some("") &&
      !(AllInPlace(db, op.task, op.now) && LiveIsRead(db, op.view))
  {
    var s := op.statement;
    hide AllInPlace, Inv, BasisHolds, StateOf, Declare, Possible, LiveIsRead;
    if op.task in db.tasks && (s.exception == None || s.authorization == None) { BasisOnTheRows(db, op); }
    if op.task in db.tasks && op.task !in db.declarations {
      if Passes(db, op) {
        PassingIsRecorded(db, op);
        if Records(db, op, None) { RecordsOnce(db, op, None, BasisOf(op)); }
      } else {
        OthersAreRefused(db, op);
      }
    }
  }

  /** Why a new declaration under a live token is refused: a closed task conflicts, everything else is refused. */
  lemma DeclarationRefusals(db: Db, op: Op)
    requires op.OpDeclare? && Possible(db, op) && IsOpenFor(db, op.task, op.token, op.now)
    ensures var r := Declare(db, op.task, op.token, op.statement, op.now, op.view);
      (op.statement.exception != None && op.statement.authorization != None ==> r == Abort(Refused)) &&
      (op.task !in db.declarations && (op.statement.exception == None || op.statement.authorization == None) ==>
        (r == Abort(Conflict) <==> db.tasks[op.task].status != Open) &&
        (r.Abort? ==> r.error in {Conflict, Refused, ConstraintViolation}))
  {
    hide StateOf, BasisHolds;
  }

  /** After a declaration nothing changes it: the same words again succeed, any other statement conflicts. */
  lemma RepeatIsExact(db: Db, op: Op)
    requires op.OpDeclare? && Possible(db, op) && op.task in db.declarations
    requires IsOpenFor(db, op.task, op.token, op.now)
    requires op.statement.exception == None || op.statement.authorization == None
    ensures var d, s := db.declarations[op.task], op.statement;
      Declare(db, op.task, op.token, s, op.now, op.view) ==
        if s.text == d.text && s.exception == d.exception && s.note == d.note &&
           (s.authorization == None || s.authorization == d.authorization) then Commit(db, Done)
        else Abort(Conflict)
  {
  }

  /** A declared task is closed: no action is left but retiring its permission. */
  lemma DeclaredShows(db: Db, t: TaskId, now: int, view: View, a: Action)
    requires Inv(db) && t in db.declarations && Reads(db, t, now, view)
    ensures TaskClosed in Reasons(StateOf(db, t, view), now)
    ensures a in Actions(StateOf(db, t, view), now) ==> a == RevokeAuthorization
  {
    assert t in db.tasks && db.tasks[t].status == Completed && BatchesOk(db.batches);
    hide Inv;
    ReasonsOnTheRows(db, t, now, view, TaskClosed);
    ActionsOnTheRows(db, t, now, view, a);
    hide Reasons, Actions, StateOf, Reads, BatchesOk;
  }

  // ---- instructions ---------------------------------------------------------------

  function Stopped(a: Authorization, v: VersionId): Authorization {
    if a.version == v && a.status == Active then a.(status := Suspended) else a
  }

  function Replaced(db: Db, b: Batch, v: VersionId): Batch {
    if b.status == Pending && b.task in db.tasks && db.tasks[b.task].version == v then b.(status := Superseded) else b
  }

  /** A withdrawal stops what it says it stopped, counts it, and can be repeated. */
  lemma WithdrawalIsExact(db: Db, v: VersionId)
    ensures var r := Withdraw(db, v);
      (r.Commit? <==> v in db.versions) && (r.Abort? ==> r == Abort(NotFound)) &&
      (r.Commit? && db.versions[v].status == Withdrawn ==> r == Commit(db, Withdrew(0))) &&
      (r.Commit? && db.versions[v].status != Withdrawn ==>
        r.answer == Withdrew(|set a | a in db.authorizations && db.authorizations[a].version == v &&
          db.authorizations[a].status == Active|) &&
        r.state == db.(versions := r.state.versions, authorizations := r.state.authorizations,
          batches := r.state.batches) &&
        r.state.versions == db.versions[v := db.versions[v].(status := Withdrawn)] &&
        r.state.authorizations.Keys == db.authorizations.Keys && r.state.batches.Keys == db.batches.Keys &&
        (forall a :: a in db.authorizations ==> r.state.authorizations[a] == Stopped(db.authorizations[a], v)) &&
        forall b :: b in db.batches ==> r.state.batches[b] == Replaced(db, db.batches[b], v))
  {
    assert ActiveUnder(db.authorizations, v) ==
      set a | a in db.authorizations && db.authorizations[a].version == v && db.authorizations[a].status == Active;
  }

  lemma LiveMeansApproved(db: Db, t: TaskId, now: int, view: View)
    requires Inv(db) && Reads(db, t, now, view)
    ensures LiveIsRead(db, view) ==> VersionHas(db, t, Approved)
  {
    if LiveIsRead(db, view) {
      assert Rests(db, db.authorizations[view.authorization.value]);
    }
  }

  /** A task under a withdrawn version says so, and permits nothing. */
  lemma WithdrawnShows(db: Db, t: TaskId, now: int, view: View)
    requires Inv(db) && Reads(db, t, now, view) && VersionHas(db, t, Withdrawn)
    ensures InstructionWithdrawn in Reasons(StateOf(db, t, view), now)
    ensures var actions := Actions(StateOf(db, t, view), now);
      SubmitEvidence !in actions && ResubmitEvidence !in actions && DeclareCompletion !in actions &&
      IssueAuthorization !in actions && RevokeAuthorization !in actions
  {
    LiveMeansApproved(db, t, now, view);
    assert BatchesOk(db.batches);
    hide Inv, LiveIsRead;
    ReasonsOnTheRows(db, t, now, view, InstructionWithdrawn);
    ActionsOnTheRows(db, t, now, view, SubmitEvidence);
    ActionsOnTheRows(db, t, now, view, ResubmitEvidence);
    ActionsOnTheRows(db, t, now, view, DeclareCompletion);
    ActionsOnTheRows(db, t, now, view, IssueAuthorization);
    ActionsOnTheRows(db, t, now, view, RevokeAuthorization);
    hide Reasons, Actions, StateOf, Reads, BatchesOk;
  }

  /** Publishing turns exactly a draft into an approved version. */
  lemma PublishingIsExact(db: Db, v: VersionId)
    ensures var r := Publish(db, v);
      (r.Commit? <==> v in db.versions && db.versions[v].status == Draft) &&
      (r == Abort(NotFound) <==> v !in db.versions) && (r.Abort? ==> r.error in {NotFound, Refused}) &&
      (r.Commit? ==>
        r.answer == Done && r.state == db.(versions := r.state.versions) &&
        r.state.versions.Keys == db.versions.Keys &&
        r.state.versions[v] == db.versions[v].(status := Approved) &&
        forall u :: u in db.versions && u != v ==> r.state.versions[u] == db.versions[u])
  {
  }

  /** An approval authorises exactly when it is a recall letter or an agreed plan, for consumers and their disposal. */
  lemma ApprovalIsExact(
      db: Db, a: ApprovalId, v: VersionId, material: Material, scope: Scope, measure: Measure, w: Window)
    requires a !in db.approvals
    ensures var r := RecordApproval(db, a, v, material, scope, measure, w);
      (r.Commit? <==> v in db.versions && (w.from == None || w.until == None || w.from.value < w.until.value)) &&
      (r == Abort(NotFound) <==> v !in db.versions) &&
      (r.Abort? ==> r.error in {NotFound, ConstraintViolation}) &&
      (r.Commit? ==>
        r.state == db.(approvals := r.state.approvals) && r.state.approvals.Keys == db.approvals.Keys + {a} &&
        (forall u :: u in db.approvals ==> r.state.approvals[u] == db.approvals[u]) &&
        var row := r.state.approvals[a];
        row == Approval(v, material, scope, measure, row.authorizes, w, false) &&
        r.answer == Recorded(row.authorizes) &&
        (row.authorizes <==>
          (material == RecallExpectationLetter || material == CapOrWrittenCoordination) &&
          scope == ConsumerHeldProduct && measure == ConsumerDisposal))
  {
  }

  /** Approvals whose windows meet hand over to each other: at every instant exactly one of the two includes it. */
  lemma WindowsTile(from: Option<int>, meet: int, until: Option<int>, now: int)
    requires from.Some? ==> from.value < meet
    requires until.Some? ==> meet < until.value
    ensures ApprovalWindowIncludes(Window(from, until), now) <==>
      ApprovalWindowIncludes(Window(from, Some(meet)), now) != ApprovalWindowIncludes(Window(Some(meet), until), now)
    ensures ApprovalWindowIncludes(Window(Some(meet), until), meet)
  {
  }

  /** The versions of a campaign version are numbered from one without gaps or repeats. */
  ghost predicate Numbered(versions: map<VersionId, Version>) {
    (forall u, v ::
      u in versions && v in versions && versions[u].campaignVersion == versions[v].campaignVersion &&
      versions[u].number == versions[v].number ==>
        u == v) &&
    (forall v :: v in versions ==> versions[v].number >= 1) &&
    forall v, k: nat :: v in versions && 1 <= k <= versions[v].number ==>
      VersionNumbered(versions, versions[v].campaignVersion, k)
  }

  ghost predicate VersionNumbered(versions: map<VersionId, Version>, campaignVersion: nat, k: nat) {
    exists u :: u in versions && versions[u].campaignVersion == campaignVersion && versions[u].number == k
  }

  lemma {:induction false} HighestNumber(versions: map<VersionId, Version>, among: set<VersionId>)
    returns (row: VersionId)
    requires among != {} && among <= versions.Keys
    ensures row in among && forall v :: v in among ==> versions[v].number <= versions[row].number
    decreases among
  {
    row :| row in among;
    if among != {row} {
      var rest := HighestNumber(versions, among - {row});
      row := if versions[rest].number >= versions[row].number then rest else row;
    }
  }

  /** Whatever versions there are, the query for the last one can return a row. */
  lemma SomeVersionIsLast(versions: map<VersionId, Version>, campaignVersion: nat) returns (row: Option<VersionId>)
    ensures LatestVersionRow(versions, campaignVersion, row)
  {
    var among := set v | v in versions && versions[v].campaignVersion == campaignVersion;
    row := None;
    if v :| v in versions && versions[v].campaignVersion == campaignVersion {
      assert v in among;
      var highest := HighestNumber(versions, among);
      row := Some(highest);
    }
  }

  lemma CreationKeepsNumbers(db: Db, v: VersionId, campaignVersion: nat, last: Option<VersionId>, text: nat)
    requires Numbered(db.versions) && Possible(db, OpCreateVersion(v, campaignVersion, last, text))
    ensures var r := CreateVersion(db, v, campaignVersion, last, text);
      r.Commit? && r.answer == Done && r.state == db.(versions := r.state.versions) && Numbered(r.state.versions) &&
      r.state.versions.Keys == db.versions.Keys + {v} &&
      r.state.versions[v] == Version(campaignVersion, r.state.versions[v].number, Draft, text) &&
      forall u :: u in db.versions ==> r.state.versions[u] == db.versions[u]
  {
    var after := CreateVersion(db, v, campaignVersion, last, text).state.versions;
    forall u, k: nat | u in after && 1 <= k <= after[u].number
      ensures VersionNumbered(after, after[u].campaignVersion, k)
    {
      if u == v && k == after[v].number {
        assert after[v].number == k;
      } else {
        NumberedBefore(db, v, campaignVersion, last, text, u, k);
      }
    }
  }

  /** A number below the new one was given before. */
  lemma NumberedBefore(
      db: Db, v: VersionId, campaignVersion: nat, last: Option<VersionId>, text: nat, u: VersionId, k: nat)
    requires Numbered(db.versions) && Possible(db, OpCreateVersion(v, campaignVersion, last, text))
    requires var after := CreateVersion(db, v, campaignVersion, last, text).state.versions;
      u in after && 1 <= k <= after[u].number && (u == v ==> k < after[v].number)
    ensures var after := CreateVersion(db, v, campaignVersion, last, text).state.versions;
      VersionNumbered(after, after[u].campaignVersion, k)
  {
    var after := CreateVersion(db, v, campaignVersion, last, text).state.versions;
    var c := after[u].campaignVersion;
    assert VersionNumbered(db.versions, c, k);
    var w :| w in db.versions && db.versions[w].campaignVersion == c && db.versions[w].number == k;
    assert after[w] == db.versions[w];
  }

  lemma StepKeepsNumbers(db: Db, op: Op)
    requires Numbered(db.versions) && Possible(db, op)
    ensures Numbered(After(db, op).versions)
  {
    Untouched(db, op);
    match op
    case OpCreateVersion(v, campaignVersion, last, text) => CreationKeepsNumbers(db, v, campaignVersion, last, text);
    case OpWithdraw(v) =>
      WithdrawalIsExact(db, v);
      StatusKeepsNumbers(db.versions, After(db, op).versions);
    case OpPublish(v) =>
      PublishingIsExact(db, v);
      StatusKeepsNumbers(db.versions, After(db, op).versions);
    case _ => hide After, Apply, Possible;
  }

  lemma StatusKeepsNumbers(before: map<VersionId, Version>, after: map<VersionId, Version>)
    requires Numbered(before) && before.Keys == after.Keys
    requires forall v :: v in before ==> after[v] == before[v].(status := after[v].status)
    ensures Numbered(after)
  {
    forall u, k: nat | u in after && 1 <= k <= after[u].number
      ensures VersionNumbered(after, after[u].campaignVersion, k)
    {
      assert VersionNumbered(before, before[u].campaignVersion, k);
      var w :| w in before && before[w].campaignVersion == before[u].campaignVersion && before[w].number == k;
      assert after[w].number == k;
    }
  }

  lemma {:induction false} VersionsAreNumbered(db: Db, ops: seq<Op>)
    requires Numbered(db.versions) && Runs(db, ops)
    ensures Numbered(Final(db, ops).versions)
    decreases |ops|
  {
    if ops != [] {
      StepKeepsNumbers(db, ops[0]);
      hide After, Possible, Numbered;
      VersionsAreNumbered(After(db, ops[0]), ops[1..]);
    }
  }
}
