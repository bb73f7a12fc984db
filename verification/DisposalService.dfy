/**
 * The disposal service as imperative code over its tables: queries as loops over rows, each
 * public operation one transaction with the effect `DisposalTables` gives it.
 */
module DisposalService {
  import opened Prelude
  import opened DisposalPolicy
  import opened Coverage
  import opened DisposalTables
  import DocumentLifecycle

  class Service {
    var versions: map<VersionId, Version>
    var approvals: map<ApprovalId, Approval>
    var tasks: map<TaskId, Task>
    var products: map<(TaskId, ProductId), Product>
    var batches: map<BatchId, Batch>
    var documents: map<DocumentId, BatchDocument>
    var reviews: map<BatchId, Review>
    var authorizations: map<AuthorizationId, Authorization>
    var items: map<(AuthorizationId, ProductId), nat>
    var declarations: map<TaskId, Declaration>
    var holds: map<HoldId, Hold>

    ghost function State(): Db
      reads this
    {
      Db(versions, approvals, tasks, products, batches, documents, reviews, authorizations, items, declarations, holds)
    }

    // ---- queries ------------------------------------------------------------

    method LatestBatch(t: TaskId) returns (row: Option<BatchId>)
      ensures LatestBatchRow(batches, t, row)
    {
      row := None;
      var rest := batches.Keys;
      while rest != {}
        invariant rest <= batches.Keys
        invariant row.Some? ==> row.value in batches && batches[row.value].task == t
        invariant forall b ::
          b in batches && b !in rest && batches[b].task == t ==>
            row.Some? && batches[b].number <= batches[row.value].number
        decreases rest
      {
        var b :| b in rest;
        rest := rest - {b};
        if batches[b].task == t && (row.None? || batches[b].number > batches[row.value].number) { row := Some(b); }
      }
    }

    method LatestAuthorization(t: TaskId) returns (row: Option<AuthorizationId>)
      ensures LatestAuthorizationRow(authorizations, t, row)
    {
      row := None;
      var rest := authorizations.Keys;
      while rest != {}
        invariant rest <= authorizations.Keys
        invariant row.Some? ==> row.value in authorizations && authorizations[row.value].task == t
        invariant forall a :: a in authorizations && a !in rest && authorizations[a].task == t ==>
          row.Some? && authorizations[a].issuedAt <= authorizations[row.value].issuedAt
        decreases rest
      {
        var a :| a in rest;
        rest := rest - {a};
        if authorizations[a].task == t && (row.None? || authorizations[a].issuedAt > authorizations[row.value].issuedAt)
        {
          row := Some(a);
        }
      }
    }

    method FindApproval(v: VersionId, now: int) returns (row: Option<ApprovalId>)
      ensures ApprovalRow(approvals, v, now, row)
    {
      row := None;
      var rest := approvals.Keys;
      while rest != {} && row.None?
        invariant rest <= approvals.Keys
        invariant match row case Some(a) => a in approvals && InForce(approvals[a], v, now)
                            case None => forall a :: a in approvals && a !in rest ==> !InForce(approvals[a], v, now)
        decreases rest
      {
        var a :| a in rest;
        rest := rest - {a};
        if InForce(approvals[a], v, now) { row := Some(a); }
      }
    }

    method HasHold(t: TaskId) returns (live: bool)
      ensures live <==> HoldActive(holds, t)
    {
      live := exists h :: h in holds && holds[h].task == t && !holds[h].released;
    }

    method FindKey(key: Key) returns (row: Option<BatchId>)
      ensures KeyRow(batches, key, row)
    {
      if exists b :: b in batches && batches[b].key == key {
        var b :| b in batches && batches[b].key == key;
        return Some(b);
      }
      return None;
    }

    method LoadPhotos(b: BatchId) returns (photos: seq<Photo>)
      ensures PhotosOf(documents, b, photos)
    {
      photos := [];
      var rest := set d | d in documents && documents[d].batch == b;
      while rest != {}
        invariant forall d :: d in rest ==> d in documents && documents[d].batch == b
        invariant forall photo ::
          photo in photos ==> exists d :: d in documents && documents[d] == BatchDocument(b, photo)
        invariant forall d :: d in documents && documents[d].batch == b && d !in rest ==> documents[d].photo in photos
        decreases rest
      {
        var d :| d in rest;
        rest := rest - {d};
        assert documents[d] == BatchDocument(b, documents[d].photo);
        photos := photos + [documents[d].photo];
      }
    }

    /** Everything the policy needs about one task. */
    method LoadTaskRecord(t: TaskId, now: int) returns (view: View, state: PolicyState)
      requires t in tasks
      ensures Reads(State(), t, now, view) && state == StateOf(State(), t, view)
    {
      var task := tasks[t];
      var approval := FindApproval(task.version, now);
      var batch := LatestBatch(t);
      var hold := HasHold(t);
      var authorization := LatestAuthorization(t);
      view := View(batch, approval, authorization);
      state := PolicyState(
        task.status, task.eligibility,
        if task.version in versions then Some(versions[task.version].status) else None,
        approval.Some?,
        if approval.Some? then approvals[approval.value].window else Window(None, None),
        if batch.Some? then Some(batches[batch.value].status) else None,
        hold,
        if authorization.Some? then Some(authorizations[authorization.value].status) else None);
    }

    // ---- tasks --------------------------------------------------------------

    /** The newest version, of those with an approval in force, that a new task is pinned to. */
    method PinVersion(campaignVersion: nat, now: int) returns (row: Option<VersionId>)
      ensures PinnedRow(State(), campaignVersion, now, row)
    {
      row := None;
      var rest := versions.Keys;
      while rest != {}
        invariant rest <= versions.Keys
        invariant row.Some? ==> Usable(State(), row.value, campaignVersion, now)
        invariant forall v ::
          v !in rest && Usable(State(), v, campaignVersion, now) ==>
            row.Some? && versions[v].number <= versions[row.value].number
        decreases rest
      {
        var v :| v in rest;
        rest := rest - {v};
        var approval := FindApproval(v, now);
        if versions[v].campaignVersion == campaignVersion && versions[v].status == Approved && approval.Some? &&
           (row.None? || versions[v].number > versions[row.value].number) {
          assert Usable(State(), v, campaignVersion, now);
          row := Some(v);
        }
      }
    }

    method CreateTaskForSubmission(t: TaskId, h: HoldId, o: Opening, now: int)
      returns (result: Result<Answer, Problem>, ghost pinned: Option<VersionId>)
      modifies this`tasks, this`products, this`holds
      ensures PinnedRow(old(State()), o.campaignVersion, now, pinned)
      ensures match CreateTask(old(State()), t, h, o, pinned, now)
              case Commit(after, answer) => State() == after && result == Ok(answer)
              case Abort(p) => State() == old(State()) && result == Err(p)
    {
      var version := PinVersion(o.campaignVersion, now);
      pinned := version;
      if version.None? { return Ok(NoTask), pinned; }
      if exists u ::
        u in tasks && tasks[u].draft == o.draft && tasks[u].version == version.value && tasks[u].status == Open
      {
        return Err(ConstraintViolation), pinned;
      }
      if !Distinct(o.products) { return Err(ConstraintViolation), pinned; }
      tasks :=
        tasks[t := Task(version.value, o.draft, o.caseId, o.token, now + TOKEN_TTL_MS, PendingConfirmation, Open, 1)];
      products := products + Unconfirmed(t, o.products);
      if o.hasIncident { holds := holds[h := Hold(t, IncidentEvidenceRetention, false)]; }
      return Ok(Opened(t)), pinned;
    }

    method ConfirmEligibilityOf(t: TaskId, expected: nat, eligibility: Eligibility)
      returns (result: Result<Answer, Problem>)
      modifies this`tasks
      ensures match ConfirmEligibility(old(State()), t, expected, eligibility)
              case Commit(after, answer) => State() == after && result == Ok(answer)
              case Abort(p) => State() == old(State()) && result == Err(p)
    {
      if t !in tasks { return Err(NotFound); }
      if tasks[t].revision != expected { return Err(Stale); }
      if eligibility == ConfirmedEligible && !exists k :: k in products && k.0 == t && products[k].confirmed {
        assert ProductsOf(products, t) == {};
        return Err(Refused);
      }
      assert eligibility == ConfirmedEligible ==> ProductsOf(products, t) != {} by {
        if k :| k in products && k.0 == t && products[k].confirmed { assert k.1 in ProductsOf(products, t); }
      }
      tasks := tasks[t := tasks[t].(eligibility := eligibility, revision := tasks[t].revision + 1)];
      return Ok(Done);
    }

    method ConfirmProductAffected(t: TaskId, p: ProductId, quantity: nat) returns (result: Result<Answer, Problem>)
      modifies this`products
      ensures match ConfirmProduct(old(State()), t, p, quantity)
              case Commit(after, answer) => State() == after && result == Ok(answer)
              case Abort(e) => State() == old(State()) && result == Err(e)
    {
      if t !in tasks { return Err(NotFound); }
      if (t, p) !in products { return Err(NotFound); }
      if quantity == 0 { return Err(ConstraintViolation); }
      products := products[(t, p) := products[(t, p)].(confirmed := true, quantity := quantity)];
      return Ok(Done);
    }

    // ---- evidence -----------------------------------------------------------

    /**
     * Evidence must be the task's own, technically verified, and of the disposal category; the
     * first misfit decides.
     */
    method AssertUsableEvidence(task: Task, uploads: Uploads, evidence: seq<Evidence>)
      returns (problem: Option<Problem>)
      ensures problem == EvidenceProblem(task, uploads, evidence)
    {
      for i := 0 to |evidence|
        invariant EvidenceProblem(task, uploads, evidence) == EvidenceProblem(task, uploads, evidence[i..])
      {
        var d := evidence[i].id;
        assert evidence[i..][1..] == evidence[i + 1..];
        if d !in uploads { return Some(NotFound); }
        var row := uploads[d];
        if row.category != DocumentLifecycle.DisposalEvidence { return Some(Refused); }
        if row.status != DocumentLifecycle.Verified { return Some(Refused); }
        if !OwnedBy(task, row) { return Some(Refused); }
      }
      return None;
    }

    method InsertDocuments(b: BatchId, evidence: seq<Evidence>) returns (stored: map<DocumentId, BatchDocument>)
      ensures stored == AddDocuments(documents, b, evidence)
    {
      stored := documents;
      for i := 0 to |evidence|
        invariant stored == AddDocuments(documents, b, evidence[..i])
      {
        assert evidence[..i + 1][..i] == evidence[..i];
        stored := stored[evidence[i].id := BatchDocument(b, evidence[i].photo)];
      }
      assert evidence[..|evidence|] == evidence;
    }

    /** The three writes of a submission: the batch and its documents, what it replaces, what it suspends. */
    method WriteBatch(s: Submission, b: BatchId, last: Option<BatchId>)
      requires last.Some? ==> last.value in batches
      modifies this`batches, this`documents, this`authorizations
      ensures documents == AddDocuments(old(documents), b, s.evidence)
      ensures batches ==
        Supersede(old(batches),
          OpenBatches(old(batches), s.task))[b := Batch(s.task, NextNumber(old(batches), last), Pending, s.key)]
      ensures authorizations == Suspend(old(authorizations), ActiveOf(old(authorizations), s.task))
    {
      var stored := InsertDocuments(b, s.evidence);
      documents := stored;
      var number := (if last.Some? then batches[last.value].number else 0) + 1;
      var replaced := map c | c in batches ::
        if batches[c].task == s.task && (batches[c].status == Pending || batches[c].status == NeedsResubmission)
        then batches[c].(status := Superseded) else batches[c];
      assert replaced == Supersede(batches, OpenBatches(batches, s.task));
      batches := replaced[b := Batch(s.task, number, Pending, s.key)];
      authorizations := map a | a in authorizations ::
        if authorizations[a].task == s.task && authorizations[a].status == Active then
          authorizations[a].(status := Suspended)
        else authorizations[a];
      assert authorizations == Suspend(old(authorizations), ActiveOf(old(authorizations), s.task));
    }

    method SubmitEvidenceBatch(s: Submission, uploads: Uploads, b: BatchId, now: int)
      returns (result: Result<Answer, Problem>, ghost view: View, ghost existing: Option<BatchId>)
      modifies this`batches, this`documents, this`authorizations
      ensures s.task in old(tasks) ==> Reads(old(State()), s.task, now, view)
      ensures KeyRow(old(batches), s.key, existing)
      ensures match SubmitBatch(old(State()), s, uploads, now, view, existing, b)
              case Commit(after, answer) => State() == after && result == Ok(answer)
              case Abort(p) => State() == old(State()) && result == Err(p)
    {
      view := View(None, None, None);
      var row := FindKey(s.key);
      existing := row;
      if s.task !in tasks { return Err(NotFound), view, existing; }
      var record, state := LoadTaskRecord(s.task, now);
      view := record;
      if tasks[s.task].token != s.token || tasks[s.task].tokenExpiresAt <= now { return Err(NotFound), view, existing; }
      var snapshot := EvaluateDisposal(state, now);
      assert record.batch.Some? ==> record.batch.value in batches;
      hide MaySubmitEvidence, StateOf, ApprovalRow, LatestBatchRow, LatestAuthorizationRow, EvidenceProblem, Insertable;
      hide Supersede, Suspend, AddDocuments, OpenBatches, ActiveOf;
      if !snapshot.maySubmitEvidence { return Err(Refused), view, existing; }
      if row.Some? {
        if batches[row.value].status == Pending { return Ok(Submitted(row.value)), view, existing; }
        return Err(Conflict), view, existing;
      }
      var problem := AssertUsableEvidence(tasks[s.task], uploads, s.evidence);
      if problem.Some? { return Err(problem.value), view, existing; }
      if s.evidence == [] || !Insertable(documents, s.evidence) { return Err(ConstraintViolation), view, existing; }
      WriteBatch(s, b, record.batch);
      return Ok(Submitted(b)), view, existing;
    }

    method ReviewEvidenceBatch(b: BatchId, v: Verdict) returns (result: Result<Answer, Problem>)
      modifies this`reviews, this`batches
      ensures match DecideBatch(old(State()), b, v)
              case Commit(after, answer) => State() == after && result == Ok(answer)
              case Abort(p) => State() == old(State()) && result == Err(p)
    {
      if b !in batches { return Err(NotFound); }
      if batches[b].status != Pending { return Err(Refused); }
      if batches[b].task !in tasks { return Err(NotFound); }
      if !v.accepted && v.reason.None? { return Err(Refused); }
      if b in reviews || v.rationaleLength < RATIONALE_MINIMUM { return Err(ConstraintViolation); }
      reviews := reviews[b := Review(DecisionOf(v), v.reason)];
      batches := batches[b := batches[b].(status := DecisionOf(v))];
      return Ok(Done);
    }

    // ---- holds --------------------------------------------------------------

    method PlaceTaskHold(t: TaskId, h: HoldId, reason: HoldReason) returns (result: Result<Answer, Problem>)
      modifies this`holds
      ensures match PutHold(old(State()), t, h, reason)
              case Commit(after, answer) => State() == after && result == Ok(answer)
              case Abort(p) => State() == old(State()) && result == Err(p)
    {
      if t !in tasks { return Err(NotFound); }
      var live := HasHold(t);
      if live { return Ok(Done); }
      holds := holds[h := Hold(t, reason, false)];
      return Ok(Done);
    }

    method ReleaseTaskHold(t: TaskId) returns (result: Result<Answer, Problem>)
      modifies this`holds
      ensures match LiftHold(old(State()), t)
              case Commit(after, answer) => State() == after && result == Ok(answer)
              case Abort(p) => State() == old(State()) && result == Err(p)
    {
      if t !in tasks { return Err(NotFound); }
      var live := HasHold(t);
      if !live { return Err(Refused); }
      holds := map h | h in holds ::
        if holds[h].task == t && !holds[h].released then holds[h].(released := true) else holds[h];
      assert holds == ReleaseAll(old(holds), t);
      return Ok(Done);
    }

    // ---- permissions ----------------------------------------------------------

    method WritePermission(a: AuthorizationId, permission: Authorization, coverage: map<ProductId, nat>)
      modifies this`authorizations, this`items
      ensures authorizations == old(authorizations)[a := permission]
      ensures items == old(items) + ItemsOf(a, coverage)
    {
      authorizations := authorizations[a := permission];
      items := items + ItemsOf(a, coverage);
    }

    /** What the accepted batch covers of the confirmed products. */
    method CoverageOf(t: TaskId, b: BatchId) returns (coverage: map<ProductId, nat>, photos: seq<Photo>)
      requires forall k :: k in products ==> products[k].quantity > 0
      requires forall d :: d in documents && documents[d].photo.quantity.Some? ==> documents[d].photo.quantity.value > 0
      ensures PhotosOf(documents, b, photos) && coverage == Covered(Confirmed(products, t), photos)
    {
      photos := LoadPhotos(b);
      coverage := CoverageFor(Confirmed(products, t), photos);
    }

    method HasActive(t: TaskId, b: BatchId) returns (taken: bool)
      ensures taken <==> ActiveTaken(authorizations, t, b)
    {
      taken := exists a ::
        a in authorizations && authorizations[a].task == t && authorizations[a].batch == b &&
        authorizations[a].status == Active;
    }

    /** The hard gate on freshly loaded state. */
    method CheckGate(t: TaskId, now: int) returns (refusal: Option<Reason>, view: View)
      requires t in tasks
      ensures Reads(State(), t, now, view)
      ensures refusal.None? <==> PermissionGate(StateOf(State(), t, view), now)
    {
      var record, state := LoadTaskRecord(t, now);
      view := record;
      refusal := AssertCanIssueAuthorization(state, now, now);
    }

    method IssueAuthorization(t: TaskId, a: AuthorizationId, now: int, issuedAt: int)
      returns (result: Result<Answer, Problem>, ghost view: View, ghost photos: seq<Photo>)
      requires forall k :: k in products ==> products[k].quantity > 0
      requires forall d :: d in documents && documents[d].photo.quantity.Some? ==> documents[d].photo.quantity.value > 0
      modifies this`authorizations, this`items
      ensures t in old(tasks) ==> Reads(old(State()), t, now, view)
      ensures result != Err(NotFound) && result != Err(Gate) ==>
        view.batch.Some? && PhotosOf(old(documents), view.batch.value, photos)
      ensures match Issue(old(State()), t, now, view, photos, a, issuedAt)
              case Commit(after, answer) => State() == after && result == Ok(answer)
              case Abort(p) => State() == old(State()) && result == Err(p)
    {
      view, photos := View(None, None, None), [];
      if t !in tasks { return Err(NotFound), view, photos; }
      var refusal, record := CheckGate(t, now);
      view := record;
      hide PermissionGate, StateOf, Covered, Confirmed, PhotosOf, ActiveTaken;
      if refusal.Some? { return Err(Gate), view, photos; }
      if record.batch.None? { return Err(Gate), view, photos; }
      var coverage, shown := CoverageOf(t, record.batch.value);
      photos := shown;
      if coverage == map[] { return Err(NothingCovered), view, photos; }
      var taken := HasActive(t, record.batch.value);
      if taken { return Err(ConstraintViolation), view, photos; }
      WritePermission(a, Authorization(t, record.batch.value, tasks[t].version, Active, issuedAt), coverage);
      return Ok(Issued(a)), view, photos;
    }

    method RevokeAuthorization(t: TaskId) returns (result: Result<Answer, Problem>, ghost seen: Option<AuthorizationId>)
      modifies this`authorizations
      ensures LatestAuthorizationRow(old(authorizations), t, seen)
      ensures match Revoke(old(State()), t, seen)
              case Commit(after, answer) => State() == after && result == Ok(answer)
              case Abort(p) => State() == old(State()) && result == Err(p)
    {
      var row := LatestAuthorization(t);
      seen := row;
      if t !in tasks { return Err(NotFound), seen; }
      if row.None? { return Err(Refused), seen; }
      if authorizations[row.value].status == Revoked { return Ok(Revocation(row.value, false)), seen; }
      authorizations := authorizations[row.value := authorizations[row.value].(status := Revoked)];
      return Ok(Revocation(row.value, true)), seen;
    }

    method CheckBasis(state: PolicyState, s: Statement, seen: Option<AuthorizationId>, now: int) returns (ok: bool)
      requires s.exception.None? || s.authorization.None?
      ensures ok <==> BasisHolds(state, s, seen, now)
    {
      var cited := if s.exception.Some? then None else if s.authorization.Some? then s.authorization else seen;
      if s.exception.None? && cited.None? { return false; }
      var snapshot := EvaluateDisposal(state, now);
      ActionsAreExact(state, now, DeclareCompletion);
      ActionsAreExact(state, now, DeclareException);
      hide Offered, Actions, Reasons;
      if cited.Some? {
        return cited == seen && state.authorization == Some(Active) && DeclareCompletion in snapshot.allowedActions;
      }
      if s.exception.None? || DeclareException !in snapshot.allowedActions { return false; }
      return s.note.Some? && s.note.value != "";
    }

    method RecordDeclaration(t: TaskId, token: Token, s: Statement, now: int)
      returns (result: Result<Answer, Problem>, ghost view: View)
      modifies this`declarations, this`tasks
      ensures t in old(tasks) ==> Reads(old(State()), t, now, view)
      ensures match Declare(old(State()), t, token, s, now, view)
              case Commit(after, answer) => State() == after && result == Ok(answer)
              case Abort(p) => State() == old(State()) && result == Err(p)
    {
      view := View(None, None, None);
      if t !in tasks { return Err(NotFound), view; }
      var record, state := LoadTaskRecord(t, now);
      view := record;
      if tasks[t].token != token || tasks[t].tokenExpiresAt <= now { return Err(NotFound), view; }
      hide BasisHolds, StateOf, ApprovalRow, LatestBatchRow;
      if s.exception.Some? && s.authorization.Some? { return Err(Refused), view; }
      if t in declarations {
        if SameStatement(declarations[t], s) { return Ok(Done), view; }
        return Err(Conflict), view;
      }
      if tasks[t].status != Open { return Err(Conflict), view; }
      if tasks[t].version !in versions || s.text != versions[tasks[t].version].declarationText {
        return Err(Refused), view;
      }
      var cited := Cited(s, record.authorization);
      var ok := CheckBasis(state, s, record.authorization, now);
      if !ok { return Err(Refused), view; }
      if cited.Some? && exists u :: u in declarations && declarations[u].authorization == cited {
        return Err(ConstraintViolation), view;
      }
      declarations := declarations[t := Declaration(cited, s.exception, s.note, s.text)];
      tasks := tasks[t := tasks[t].(status := Completed, revision := tasks[t].revision + 1)];
      return Ok(Done), view;
    }

    method WithdrawInstruction(v: VersionId) returns (result: Result<Answer, Problem>)
      modifies this`versions, this`authorizations, this`batches
      ensures match Withdraw(old(State()), v)
              case Commit(after, answer) => State() == after && result == Ok(answer)
              case Abort(p) => State() == old(State()) && result == Err(p)
    {
      if v !in versions { return Err(NotFound); }
      if versions[v].status == Withdrawn { return Ok(Withdrew(0)); }
      versions := versions[v := versions[v].(status := Withdrawn)];
      var suspended := set a | a in authorizations && authorizations[a].version == v &&
        authorizations[a].status == Active;
      assert suspended == ActiveUnder(authorizations, v);
      authorizations := map a | a in authorizations ::
        if a in suspended then authorizations[a].(status := Suspended) else authorizations[a];
      batches := map b | b in batches ::
        if batches[b].status == Pending && batches[b].task in tasks && tasks[batches[b].task].version == v
        then batches[b].(status := Superseded) else batches[b];
      assert batches == Supersede(old(batches), PendingUnder(tasks, old(batches), v));
      return Ok(Withdrew(|suspended|));
    }
  }
}
