/**
 * What the disposal service lets happen, spelled out on the rows of its tables: which reasons and
 * actions a task shows, when each operation goes through, and what it then leaves behind.
 */
module DisposalProgress {
  import opened Prelude
  import opened DisposalPolicy
  import opened Coverage
  import opened DisposalTables
  import opened DisposalInvariants
  import opened DisposalRuns
  import DocumentLifecycle

  // ---- what a loaded task shows -------------------------------------------------

  predicate Applies(a: Approval, v: VersionId, now: int) {
    a.version == v && a.authorizes && !a.withdrawn && (a.window.from.Some? ==> a.window.from.value <= now) &&
    (a.window.until.Some? ==> now < a.window.until.value)
  }

  ghost predicate SomeApprovalApplies(db: Db, v: VersionId, now: int) {
    exists a :: a in db.approvals && Applies(db.approvals[a], v, now)
  }

  ghost predicate OnHold(db: Db, t: TaskId) {
    exists h :: h in db.holds && db.holds[h].task == t && db.holds[h].released == false
  }

  predicate VersionHas(db: Db, t: TaskId, status: InstructionStatus)
    requires t in db.tasks
  {
    db.tasks[t].version in db.versions && db.versions[db.tasks[t].version].status == status
  }

  /** The task's batch with the highest number has the given status. */
  ghost predicate LastBatchIs(db: Db, t: TaskId, status: BatchStatus) {
    exists b ::
      b in db.batches && db.batches[b].task == t && db.batches[b].status == status &&
      forall c :: c in db.batches && db.batches[c].task == t && c != b ==> db.batches[c].number < db.batches[b].number
  }

  ghost predicate HasBatch(db: Db, t: TaskId) {
    exists b :: b in db.batches && db.batches[b].task == t
  }

  /** Everything but the evidence is in place. */
  ghost predicate InPlace(db: Db, t: TaskId, now: int)
    requires t in db.tasks
  {
    db.tasks[t].status == Open && db.tasks[t].eligibility == ConfirmedEligible && VersionHas(db, t, Approved) &&
    SomeApprovalApplies(db, db.tasks[t].version, now) && !OnHold(db, t)
  }

  ghost predicate EvidenceWanted(db: Db, t: TaskId) {
    !HasBatch(db, t) || LastBatchIs(db, t, NeedsResubmission) || LastBatchIs(db, t, Superseded)
  }

  ghost predicate LiveIsRead(db: Db, view: View) {
    view.authorization.Some? && view.authorization.value in db.authorizations &&
    db.authorizations[view.authorization.value].status == Active
  }

  lemma LastBatchIsRead(db: Db, t: TaskId, view: View, status: BatchStatus)
    requires BatchesOk(db.batches) && LatestBatchRow(db.batches, t, view.batch)
    ensures LastBatchIs(db, t, status) <==> view.batch.Some? && db.batches[view.batch.value].status == status
    ensures HasBatch(db, t) <==> view.batch.Some?
  {
    if view.batch.Some? {
      var b := view.batch.value;
      forall c | c in db.batches && db.batches[c].task == t && c != b
        ensures db.batches[c].number < db.batches[b].number
      {
        assert db.batches[c].number != db.batches[b].number;
      }
    }
  }

  lemma LoadedState(db: Db, t: TaskId, now: int, view: View)
    requires BatchesOk(db.batches) && Reads(db, t, now, view)
    ensures var s := StateOf(db, t, view);
      s.task == db.tasks[t].status && s.eligibility == db.tasks[t].eligibility && (s.hold <==> OnHold(db, t)) &&
      (s.instruction == None <==> db.tasks[t].version !in db.versions) &&
      (forall status :: s.instruction == Some(status) <==> VersionHas(db, t, status)) &&
      (s.authorizes && ApprovalWindowIncludes(s.window, now) <==>
        SomeApprovalApplies(db, db.tasks[t].version, now)) &&
      (s.authorization == Some(Active) <==> LiveIsRead(db, view))
  {
    if view.approval.Some? {
      assert Applies(db.approvals[view.approval.value], db.tasks[t].version, now);
    }
    assert forall a :: a in db.approvals ==>
      (Applies(db.approvals[a], db.tasks[t].version, now) <==> InForce(db.approvals[a], db.tasks[t].version, now));
  }

  lemma LoadedBatch(db: Db, t: TaskId, now: int, view: View)
    requires BatchesOk(db.batches) && Reads(db, t, now, view)
    ensures var s := StateOf(db, t, view);
      (s.batch == None <==> !HasBatch(db, t)) &&
      forall status :: s.batch == Some(status) <==> LastBatchIs(db, t, status)
  {
    forall status ensures StateOf(db, t, view).batch == Some(status) <==> LastBatchIs(db, t, status) {
      LastBatchIsRead(db, t, view, status);
    }
    LastBatchIsRead(db, t, view, Pending);
  }

  /** The fact of the tables that a reason stands for. */
  ghost predicate StandsFor(db: Db, t: TaskId, now: int, r: Reason)
    requires t in db.tasks
  {
    match r
    case TaskClosed => db.tasks[t].status in {Completed, Cancelled, Expired}
    case EligibilityNotConfirmed => db.tasks[t].eligibility == PendingConfirmation
    case DisposalNotApplicable => db.tasks[t].eligibility == NotApplicable
    case ProductRuledIneligible => db.tasks[t].eligibility == Ineligible
    case InstructionNotApproved => db.tasks[t].version !in db.versions || VersionHas(db, t, Draft)
    case InstructionWithdrawn => VersionHas(db, t, Withdrawn)
    case ApprovalNotAuthorizing => VersionHas(db, t, Approved) && !SomeApprovalApplies(db, db.tasks[t].version, now)
    case EvidenceNotSubmitted => !HasBatch(db, t)
    case EvidencePendingReview => LastBatchIs(db, t, Pending)
    case EvidenceNeedsResubmission => LastBatchIs(db, t, NeedsResubmission) || LastBatchIs(db, t, Superseded)
    case DisposalOnHold => OnHold(db, t)
  }

  /** A reason is shown exactly for its fact, whichever rows the queries returned. */
  lemma ReasonsOnTheRows(db: Db, t: TaskId, now: int, view: View, r: Reason)
    requires BatchesOk(db.batches) && Reads(db, t, now, view)
    ensures r in Reasons(StateOf(db, t, view), now) <==> StandsFor(db, t, now, r)
  {
    LoadedState(db, t, now, view);
    LoadedBatch(db, t, now, view);
    ReasonsAreExact(StateOf(db, t, view), now);
    hide Reasons, StateOf, Reads, VersionHas, SomeApprovalApplies, OnHold, LastBatchIs, HasBatch, BatchesOk;
    hide ApprovalWindowIncludes;
    assert Unmet(StateOf(db, t, view), now, r) <==> StandsFor(db, t, now, r);
  }

  /** Everything a permission needs, evidence included. */
  ghost predicate AllInPlace(db: Db, t: TaskId, now: int)
    requires t in db.tasks
  {
    InPlace(db, t, now) && LastBatchIs(db, t, Accepted)
  }

  /** The facts of the tables, and of the permission row that was read, that an action is offered for. */
  ghost predicate OfferedFor(db: Db, t: TaskId, now: int, view: View, a: Action)
    requires t in db.tasks
  {
    match a
    case ReviewBatch => db.tasks[t].status == Open && LastBatchIs(db, t, Pending)
    case SubmitEvidence => InPlace(db, t, now) && !HasBatch(db, t)
    case ResubmitEvidence =>
      InPlace(db, t, now) && (LastBatchIs(db, t, NeedsResubmission) || LastBatchIs(db, t, Superseded))
    case DeclareCompletion => AllInPlace(db, t, now) && LiveIsRead(db, view)
    case DeclareException => db.tasks[t].status == Open && (AllInPlace(db, t, now) ==> !LiveIsRead(db, view))
    case PlaceHold => db.tasks[t].status == Open
    case ReleaseHold => db.tasks[t].status == Open && OnHold(db, t)
    case IssueAuthorization => AllInPlace(db, t, now) && !LiveIsRead(db, view)
    case RevokeAuthorization => LiveIsRead(db, view)
  }

  lemma ActionsOnTheRows(db: Db, t: TaskId, now: int, view: View, a: Action)
    requires BatchesOk(db.batches) && Reads(db, t, now, view)
    ensures a in Actions(StateOf(db, t, view), now) <==> OfferedFor(db, t, now, view, a)
  {
    LoadedState(db, t, now, view);
    LoadedBatch(db, t, now, view);
    ActionsAreExact(StateOf(db, t, view), now, a);
    hide Actions, StateOf, Reads, VersionHas, SomeApprovalApplies, OnHold, LastBatchIs, HasBatch, BatchesOk;
    hide ApprovalWindowIncludes, LiveIsRead;
    assert Offered(StateOf(db, t, view), now, a) <==> OfferedFor(db, t, now, view, a);
  }

  // ---- opening a task and finding out what it is about ---------------------------

  /** An approved version of the campaign with an approval that applies. */
  ghost predicate Candidate(db: Db, campaignVersion: nat, v: VersionId, now: int) {
    v in db.versions && db.versions[v].campaignVersion == campaignVersion && db.versions[v].status == Approved &&
    SomeApprovalApplies(db, v, now)
  }

  lemma CandidatesAreUsable(db: Db, campaignVersion: nat, now: int)
    ensures forall v :: Candidate(db, campaignVersion, v, now) <==> Usable(db, v, campaignVersion, now)
  {
    forall v | Candidate(db, campaignVersion, v, now) ensures Usable(db, v, campaignVersion, now) {
      var a :| a in db.approvals && Applies(db.approvals[a], v, now);
      assert InForce(db.approvals[a], v, now);
    }
    forall v | Usable(db, v, campaignVersion, now) ensures Candidate(db, campaignVersion, v, now) {
      var a :| a in db.approvals && InForce(db.approvals[a], v, now);
      assert Applies(db.approvals[a], v, now);
    }
  }

  /** The newest candidate. */
  ghost predicate Newest(db: Db, campaignVersion: nat, v: VersionId, now: int) {
    Candidate(db, campaignVersion, v, now) &&
    forall u :: Candidate(db, campaignVersion, u, now) ==> db.versions[u].number <= db.versions[v].number
  }

  predicate NoRepeats<T(==)>(s: seq<T>) {
    forall i, j :: 0 <= i < |s| && 0 <= j < |s| && s[i] == s[j] ==> i == j
  }

  /** A task is opened exactly for a campaign with a candidate, and once for a draft while it is open. */
  lemma OpeningIsExact(db: Db, t: TaskId, h: HoldId, o: Opening, pinned: Option<VersionId>, now: int)
    requires Possible(db, OpCreateTask(t, h, o, pinned, now))
    ensures var r := CreateTask(db, t, h, o, pinned, now);
      (pinned.Some? ==> Newest(db, o.campaignVersion, pinned.value, now)) &&
      (r == Commit(db, NoTask) <==> forall v :: !Candidate(db, o.campaignVersion, v, now)) &&
      (r.Abort? ==> r == Abort(ConstraintViolation)) &&
      (r.Commit? && r.answer == Opened(t) <==>
        pinned.Some? && NoRepeats(o.products) && forall u :: u in db.tasks && db.tasks[u].status == Open ==>
          db.tasks[u].draft != o.draft || db.tasks[u].version != pinned.value)
  {
    CandidatesAreUsable(db, o.campaignVersion, now);
    hide Candidate;
  }

  /** What an opened task consists of: 90 days of token, products to confirm, a hold when there was an incident. */
  lemma OpeningLeaves(db: Db, t: TaskId, h: HoldId, o: Opening, v: VersionId, now: int, p: ProductId)
    requires Possible(db, OpCreateTask(t, h, o, Some(v), now)) && CreateTask(db, t, h, o, Some(v), now).Commit?
    ensures var after := CreateTask(db, t, h, o, Some(v), now).state;
      after.tasks.Keys == db.tasks.Keys + {t} && (forall u :: u in db.tasks ==> after.tasks[u] == db.tasks[u]) &&
      after.tasks[t] ==
        Task(v, o.draft, o.caseId, o.token, after.tasks[t].tokenExpiresAt, PendingConfirmation, Open, 1) &&
      (forall token, at :: TokenOpens(after, t, token, at) <==> token == o.token && at < now + 7776000000) &&
      ((t, p) in after.products <==> p in o.products) &&
      (p in o.products ==> after.products[(t, p)] == Product(1, false)) &&
      (forall k :: k in db.products ==> k in after.products && after.products[k] == db.products[k]) &&
      (OnHold(after, t) ==> o.hasIncident || OnHold(db, t)) &&
      after.holds == if o.hasIncident then db.holds[h := Hold(t, IncidentEvidenceRetention, false)] else db.holds
  {
    assert forall q :: q in o.products <==> (t, q) in Unconfirmed(t, o.products);
  }

  /** A decision on eligibility needs the revision that was shown, and a confirmed product to find one eligible. */
  lemma EligibilityIsExact(db: Db, t: TaskId, expected: nat, e: Eligibility)
    ensures var r := ConfirmEligibility(db, t, expected, e);
      (r.Commit? <==>
        t in db.tasks && db.tasks[t].revision == expected &&
        (e == ConfirmedEligible ==> exists p :: (t, p) in db.products && db.products[(t, p)].confirmed)) &&
      (r == Abort(Stale) <==> t in db.tasks && db.tasks[t].revision != expected) &&
      (r == Abort(NotFound) <==> t !in db.tasks) &&
      (r.Abort? ==> r.error in {Stale, NotFound, Refused})
  {
    if p: ProductId :| (t, p) in db.products && db.products[(t, p)].confirmed {
      assert p in ProductsOf(db.products, t);
    }
  }

  /** It moves that task alone, and its page is stale from then on. */
  lemma EligibilityLeaves(db: Db, t: TaskId, expected: nat, e: Eligibility)
    requires ConfirmEligibility(db, t, expected, e).Commit?
    ensures var r := ConfirmEligibility(db, t, expected, e);
      r == Commit(db.(tasks := r.state.tasks), Done) && r.state.tasks.Keys == db.tasks.Keys &&
      r.state.tasks[t] == db.tasks[t].(eligibility := e, revision := expected + 1) &&
      forall u :: u in db.tasks && u != t ==> r.state.tasks[u] == db.tasks[u]
  {
  }

  lemma ProductConfirmationIsExact(db: Db, t: TaskId, p: ProductId, quantity: nat)
    ensures var r := ConfirmProduct(db, t, p, quantity);
      (r.Commit? <==> t in db.tasks && (t, p) in db.products && quantity >= 1) &&
      (r == Abort(ConstraintViolation) <==> t in db.tasks && (t, p) in db.products && quantity == 0) &&
      (r.Abort? && r != Abort(ConstraintViolation) ==> r == Abort(NotFound)) &&
      (r.Commit? ==>
        r == Commit(db.(products := r.state.products), Done) && r.state.products.Keys == db.products.Keys &&
        r.state.products[(t, p)].confirmed && r.state.products[(t, p)].quantity == quantity &&
        forall k :: k in db.products && k != (t, p) ==> r.state.products[k] == db.products[k])
  {
  }

  // ---- evidence and its review ----------------------------------------------------

  predicate IsOpenFor(db: Db, t: TaskId, token: Token, now: int) {
    t in db.tasks && db.tasks[t].token == token && now < db.tasks[t].tokenExpiresAt
  }

  /** A photo a task can submit: a verified disposal photo of its draft or case, in no batch yet. */
  predicate FitToSubmit(db: Db, task: Task, uploads: Uploads, e: Evidence) {
    e.id in uploads && e.id !in db.documents &&
    uploads[e.id].category == DocumentLifecycle.DisposalEvidence &&
    uploads[e.id].status == DocumentLifecycle.Verified &&
    (uploads[e.id].draft == Some(task.draft) || (task.caseId != None && uploads[e.id].caseId == task.caseId)) &&
    (e.photo.quantity == None || e.photo.quantity.value >= 1)
  }

  lemma WantedIsReplaceable(db: Db, t: TaskId, now: int, view: View)
    requires BatchesOk(db.batches) && Reads(db, t, now, view)
    ensures MaySubmitEvidence(StateOf(db, t, view), now) <==> InPlace(db, t, now) && EvidenceWanted(db, t)
  {
    LoadedState(db, t, now, view);
    LoadedBatch(db, t, now, view);
    hide StateOf, Reads, VersionHas, SomeApprovalApplies, OnHold, LastBatchIs, HasBatch, BatchesOk;
    hide ApprovalWindowIncludes;
  }

  lemma DocumentsApart(evidence: seq<Evidence>)
    ensures DisposalTables.Distinct(Documents(evidence)) <==>
      forall i, j :: 0 <= i < |evidence| && 0 <= j < |evidence| && evidence[i].id == evidence[j].id ==> i == j
  {
    var ids := Documents(evidence);
    assert |ids| == |evidence| && forall i :: 0 <= i < |ids| ==> ids[i] == evidence[i].id;
  }

  /** When a submission makes a batch, on the rows: whoever has the token, for evidence that is wanted and fit. */
  lemma SubmissionIsExact(
      db: Db, s: Submission, uploads: Uploads, now: int, view: View, existing: Option<BatchId>, b: BatchId)
    requires BatchesOk(db.batches) && Possible(db, OpSubmit(s, uploads, now, view, existing, b))
    ensures var r := SubmitBatch(db, s, uploads, now, view, existing, b);
      r.Commit? && r.answer == Submitted(b) <==>
        IsOpenFor(db, s.task, s.token, now) && InPlace(db, s.task, now) && EvidenceWanted(db, s.task) &&
        (forall c :: c in db.batches ==> db.batches[c].key != s.key) && s.evidence != [] &&
        (forall i, j :: 0 <= i < |s.evidence| && 0 <= j < |s.evidence| && s.evidence[i].id == s.evidence[j].id ==>
          i == j) &&
        forall e :: e in s.evidence ==> FitToSubmit(db, db.tasks[s.task], uploads, e)
  {
    if s.task in db.tasks {
      WantedIsReplaceable(db, s.task, now, view);
    }
    DocumentsApart(s.evidence);
    hide MaySubmitEvidence, StateOf, Reads, InPlace, EvidenceWanted, BatchesOk, AddDocuments, Supersede, Suspend;
    assert forall e :: e in s.evidence && s.task in db.tasks ==>
      (FitToSubmit(db, db.tasks[s.task], uploads, e) <==>
        UsableEvidence(db.tasks[s.task], uploads, e.id) && e.id !in db.documents &&
        (e.photo.quantity.Some? ==> e.photo.quantity.value > 0));
  }

  lemma {:induction false} StoredDocuments(
      documents: map<DocumentId, BatchDocument>, b: BatchId, evidence: seq<Evidence>, i: nat)
    requires NoRepeats(Documents(evidence)) && i < |evidence|
    ensures var after := AddDocuments(documents, b, evidence);
      evidence[i].id in after && after[evidence[i].id] == BatchDocument(b, evidence[i].photo)
    decreases |evidence|
  {
    var last := |evidence| - 1;
    assert Documents(evidence)[i] == evidence[i].id && Documents(evidence)[last] == evidence[last].id;
    if i < last {
      var before := evidence[..last];
      assert forall j :: 0 <= j < |before| ==> Documents(before)[j] == Documents(evidence)[j];
      StoredDocuments(documents, b, before, i);
    }
  }

  lemma {:induction false} OnlyTheseStored(
      documents: map<DocumentId, BatchDocument>, b: BatchId, evidence: seq<Evidence>, d: DocumentId)
    requires forall e :: e in evidence ==> e.id != d
    ensures d in AddDocuments(documents, b, evidence) <==> d in documents
    ensures d in documents ==> AddDocuments(documents, b, evidence)[d] == documents[d]
    decreases |evidence|
  {
    if evidence != [] {
      assert evidence[|evidence| - 1] in evidence;
      OnlyTheseStored(documents, b, evidence[..|evidence| - 1], d);
    }
  }

  /** The batch a submission makes is the only one of its task that is not replaced, and has the highest number. */
  lemma SubmissionLeaves(
      db: Db, s: Submission, uploads: Uploads, now: int, view: View, existing: Option<BatchId>, b: BatchId, c: BatchId)
    requires BatchesOk(db.batches) && Possible(db, OpSubmit(s, uploads, now, view, existing, b))
    requires var r := SubmitBatch(db, s, uploads, now, view, existing, b); r.Commit? && r.answer == Submitted(b)
    ensures var after := SubmitBatch(db, s, uploads, now, view, existing, b).state.batches;
      after.Keys == db.batches.Keys + {b} && after[b].task == s.task && after[b].key == s.key &&
      after[b].status == Pending &&
      (c in db.batches && db.batches[c].task == s.task ==>
        after[c] == db.batches[c].(status := Superseded) && after[c].number < after[b].number) &&
      (c in db.batches && db.batches[c].task != s.task ==> after[c] == db.batches[c])
  {
    hide AddDocuments, Suspend, MaySubmitEvidence, StateOf;
    assert existing.None? && (view.batch.Some? ==> Replaceable(Some(db.batches[view.batch.value].status))) by {
      SubmissionFound(db, s, uploads, now, view, existing, b);
    }
    if c in db.batches && db.batches[c].task == s.task {
      EverythingIsReplaced(db.batches, s.task, view.batch, c);
    }
  }

  lemma SubmissionFound(
      db: Db, s: Submission, uploads: Uploads, now: int, view: View, existing: Option<BatchId>, b: BatchId)
    requires Possible(db, OpSubmit(s, uploads, now, view, existing, b))
    requires var r := SubmitBatch(db, s, uploads, now, view, existing, b); r.Commit? && r.answer == Submitted(b)
    ensures existing.None? && (view.batch.Some? ==> Replaceable(Some(db.batches[view.batch.value].status)))
    ensures NoRepeats(Documents(s.evidence))
  {
  }

  /** Its documents are stored with it, each with its photo, and no other document moves. */
  lemma SubmissionStores(
      db: Db, s: Submission, uploads: Uploads, now: int, view: View, existing: Option<BatchId>, b: BatchId,
      d: DocumentId, photo: Photo)
    requires Possible(db, OpSubmit(s, uploads, now, view, existing, b))
    requires var r := SubmitBatch(db, s, uploads, now, view, existing, b); r.Commit? && r.answer == Submitted(b)
    ensures var after := SubmitBatch(db, s, uploads, now, view, existing, b).state.documents;
      (Evidence(d, photo) in s.evidence ==> d in after && after[d] == BatchDocument(b, photo)) &&
      (d in db.documents ==> d in after && after[d] == db.documents[d]) &&
      (d in after && d !in db.documents ==> exists e :: e in s.evidence && e.id == d)
  {
    SubmissionFound(db, s, uploads, now, view, existing, b);
    hide Supersede, Suspend, MaySubmitEvidence, StateOf, AddDocuments;
    if Evidence(d, photo) in s.evidence {
      var i :| 0 <= i < |s.evidence| && s.evidence[i] == Evidence(d, photo);
      StoredDocuments(db.documents, b, s.evidence, i);
    } else if forall e :: e in s.evidence ==> e.id != d {
      OnlyTheseStored(db.documents, b, s.evidence, d);
    }
  }

  /**
   * Without the live token nothing is said about a task: submitting and declaring answer as for a
   * task that does not exist.
   */
  lemma TokensGuard(
      db: Db, t: TaskId, token: Token, s: Submission, uploads: Uploads, statement: Statement, now: int, view: View,
      existing: Option<BatchId>, b: BatchId)
    requires s.task == t && s.token == token && Possible(db, OpSubmit(s, uploads, now, view, existing, b))
    requires !IsOpenFor(db, t, token, now)
    ensures SubmitBatch(db, s, uploads, now, view, existing, b) == Abort(NotFound)
    ensures Declare(db, t, token, statement, now, view) == Abort(NotFound)
  {
  }

  /** A known key is answered only where new evidence is wanted: with its batch while that is pending. */
  lemma KnownKeyIsAnswered(
      db: Db, s: Submission, uploads: Uploads, now: int, view: View, known: BatchId, b: BatchId)
    requires BatchesOk(db.batches) && Possible(db, OpSubmit(s, uploads, now, view, Some(known), b))
    requires IsOpenFor(db, s.task, s.token, now)
    ensures SubmitBatch(db, s, uploads, now, view, Some(known), b) ==
      if !(InPlace(db, s.task, now) && EvidenceWanted(db, s.task)) then Abort(Refused)
      else if db.batches[known].status == Pending then Commit(db, Submitted(known))
      else Abort(Conflict)
  {
    WantedIsReplaceable(db, s.task, now, view);
    hide MaySubmitEvidence, StateOf, InPlace, EvidenceWanted, BatchesOk;
  }

  predicate OwnPhoto(task: Task, uploads: Uploads, d: DocumentId) {
    d in uploads && uploads[d].category == DocumentLifecycle.DisposalEvidence &&
    uploads[d].status == DocumentLifecycle.Verified &&
    (uploads[d].draft == Some(task.draft) || (task.caseId != None && uploads[d].caseId == task.caseId))
  }

  /** The first photo that is not the task's own verified one decides the refusal; an unknown one is told apart. */
  lemma {:induction false} FirstMisfitDecides(task: Task, uploads: Uploads, evidence: seq<Evidence>, k: nat)
    requires k < |evidence| && !OwnPhoto(task, uploads, evidence[k].id)
    requires forall j :: 0 <= j < k ==> OwnPhoto(task, uploads, evidence[j].id)
    ensures EvidenceProblem(task, uploads, evidence) ==
      Some(if evidence[k].id !in uploads then NotFound else Refused)
    decreases k
  {
    if k > 0 {
      assert OwnPhoto(task, uploads, evidence[0].id);
      FirstMisfitDecides(task, uploads, evidence[1..], k - 1);
    }
  }

  /** Why a new submission under a live token is refused. */
  lemma SubmissionRefusals(db: Db, s: Submission, uploads: Uploads, now: int, view: View, b: BatchId)
    requires BatchesOk(db.batches) && Possible(db, OpSubmit(s, uploads, now, view, None, b))
    requires IsOpenFor(db, s.task, s.token, now)
    ensures var r, task := SubmitBatch(db, s, uploads, now, view, None, b), db.tasks[s.task];
      var mayDo := InPlace(db, s.task, now) && EvidenceWanted(db, s.task);
      (!mayDo ==> r == Abort(Refused)) &&
      (mayDo && (exists e :: e in s.evidence && !OwnPhoto(task, uploads, e.id)) ==>
        r == Abort(EvidenceProblem(task, uploads, s.evidence).value)) &&
      (mayDo && (forall e :: e in s.evidence ==> OwnPhoto(task, uploads, e.id)) && r.Abort? ==>
        r == Abort(ConstraintViolation))
  {
    WantedIsReplaceable(db, s.task, now, view);
    assert forall e :: e in s.evidence ==>
      (UsableEvidence(db.tasks[s.task], uploads, e.id) <==> OwnPhoto(db.tasks[s.task], uploads, e.id));
    hide MaySubmitEvidence, StateOf, Reads, InPlace, EvidenceWanted, BatchesOk, AddDocuments, Supersede, Suspend;
    hide UsableEvidence, OwnPhoto;
  }
}
