/**
 * The disposal tables, what the service reads from them, and the effect of each of its
 * transactions: a new state, or a rollback by a refusal, a unique index or a check.
 */
module DisposalTables {
  import opened Prelude
  import opened DisposalPolicy
  import opened Coverage
  import DocumentLifecycle

  type VersionId = nat
  type ApprovalId = nat
  type TaskId = nat
  type BatchId = nat
  type DocumentId = nat
  type AuthorizationId = nat
  type HoldId = nat
  type DraftId = nat
  type Token = nat
  type Key = nat

  datatype Version = Version(campaignVersion: nat, number: nat, status: InstructionStatus, declarationText: nat)
  datatype Approval = Approval(
    version: VersionId, material: Material, scope: Scope, measure: Measure, authorizes: bool, window: Window,
    withdrawn: bool)
  datatype Task = Task(
    version: VersionId, draft: DraftId, caseId: Option<nat>, token: Token, tokenExpiresAt: int,
    eligibility: Eligibility, status: TaskStatus, revision: nat)
  datatype Product = Product(quantity: nat, confirmed: bool)
  datatype Batch = Batch(task: TaskId, number: nat, status: BatchStatus, key: Key)
  datatype BatchDocument = BatchDocument(batch: BatchId, photo: Photo)
  datatype Review = Review(decision: BatchStatus, reason: Option<nat>)
  datatype Authorization = Authorization(task: TaskId, batch: BatchId, version: VersionId, status: AuthorizationStatus,
    issuedAt: int)
  datatype Declaration = Declaration(authorization: Option<AuthorizationId>, exception: Option<nat>,
    note: Option<string>, text: nat)
  datatype HoldReason = IncidentEvidenceRetention | ComplianceInvestigation | OtherHold
  datatype Hold = Hold(task: TaskId, reason: HoldReason, released: bool)

  /** Keys that are unique by an index alone are map keys: one review a batch, one declaration a task. */
  datatype Db = Db(
    versions: map<VersionId, Version>, approvals: map<ApprovalId, Approval>, tasks: map<TaskId, Task>,
    products: map<(TaskId, ProductId), Product>, batches: map<BatchId, Batch>,
    documents: map<DocumentId, BatchDocument>,
    reviews: map<BatchId, Review>, authorizations: map<AuthorizationId, Authorization>,
    items: map<(AuthorizationId, ProductId), nat>, declarations: map<TaskId, Declaration>, holds: map<HoldId, Hold>)

  /** A unique index, a check or an empty insert fails as a constraint violation. */
  datatype Problem =
    | NotFound | Refused | Stale | Conflict | Gate | NothingCovered | ConstraintViolation

  datatype Answer =
    | Done | NoTask | Opened(task: TaskId) | Submitted(batch: BatchId) | Issued(authorization: AuthorizationId)
    | Revocation(authorization: AuthorizationId, changed: bool) | Withdrew(suspended: nat) | Recorded(authorizes: bool)

  type Outcome = Tx<Db, Answer, Problem>

  const TOKEN_TTL_MS := 90 * 24 * 60 * 60 * 1000
  const RATIONALE_MINIMUM: nat := 10

  // ---- reads ----------------------------------------------------------------

  /** A row that `order by batch_number desc limit 1` can return for a task. */
  ghost predicate LatestBatchRow(batches: map<BatchId, Batch>, t: TaskId, row: Option<BatchId>) {
    match row
    case None => forall b :: b in batches ==> batches[b].task != t
    case Some(b) =>
      b in batches && batches[b].task == t &&
      forall c :: c in batches && batches[c].task == t ==> batches[c].number <= batches[b].number
  }

  /** An approval in force: authorising, not withdrawn, and inside its window. */
  predicate InForce(a: Approval, v: VersionId, now: int) {
    a.version == v && a.authorizes && !a.withdrawn && ApprovalWindowIncludes(a.window, now)
  }

  /** The approval the loader may find first. */
  ghost predicate ApprovalRow(approvals: map<ApprovalId, Approval>, v: VersionId, now: int, row: Option<ApprovalId>) {
    match row
    case None => forall a :: a in approvals ==> !InForce(approvals[a], v, now)
    case Some(a) => a in approvals && InForce(approvals[a], v, now)
  }

  /** A row that `order by issued_at desc limit 1` can return for a task. */
  ghost predicate LatestAuthorizationRow(
      authorizations: map<AuthorizationId, Authorization>, t: TaskId, row: Option<AuthorizationId>)
  {
    match row
    case None => forall a :: a in authorizations ==> authorizations[a].task != t
    case Some(a) =>
      a in authorizations && authorizations[a].task == t &&
      forall c ::
        c in authorizations && authorizations[c].task == t ==> authorizations[c].issuedAt <= authorizations[a].issuedAt
  }

  ghost predicate HoldActive(holds: map<HoldId, Hold>, t: TaskId) {
    exists h :: h in holds && holds[h].task == t && !holds[h].released
  }

  /** The rows a task was loaded with. */
  datatype View = View(batch: Option<BatchId>, approval: Option<ApprovalId>, authorization: Option<AuthorizationId>)

  ghost predicate Reads(db: Db, t: TaskId, now: int, view: View) {
    t in db.tasks && LatestBatchRow(db.batches, t, view.batch) &&
    ApprovalRow(db.approvals, db.tasks[t].version, now, view.approval) &&
    LatestAuthorizationRow(db.authorizations, t, view.authorization)
  }

  ghost function StateOf(db: Db, t: TaskId, view: View): PolicyState
    requires t in db.tasks
    requires view.batch.Some? ==> view.batch.value in db.batches
    requires view.approval.Some? ==> view.approval.value in db.approvals
    requires view.authorization.Some? ==> view.authorization.value in db.authorizations
  {
    var task := db.tasks[t];
    PolicyState(
      task.status, task.eligibility,
      if task.version in db.versions then Some(db.versions[task.version].status) else None,
      view.approval.Some?,
      if view.approval.Some? then db.approvals[view.approval.value].window else Window(None, None),
      if view.batch.Some? then Some(db.batches[view.batch.value].status) else None,
      HoldActive(db.holds, t),
      if view.authorization.Some? then Some(db.authorizations[view.authorization.value].status) else None)
  }

  /** Whether a version can take a task of a campaign version now. */
  ghost predicate Usable(db: Db, v: VersionId, campaignVersion: nat, now: int) {
    v in db.versions && db.versions[v].campaignVersion == campaignVersion && db.versions[v].status == Approved &&
    exists a :: a in db.approvals && InForce(db.approvals[a], v, now)
  }

  /** The first candidate whose approval is in its window, newest version number first. */
  ghost predicate PinnedRow(db: Db, campaignVersion: nat, now: int, row: Option<VersionId>) {
    match row
    case None => forall v :: !Usable(db, v, campaignVersion, now)
    case Some(v) =>
      Usable(db, v, campaignVersion, now) &&
      forall u :: Usable(db, u, campaignVersion, now) ==> db.versions[u].number <= db.versions[v].number
  }

  /** The row of an idempotency key; there is one at most. */
  ghost predicate KeyRow(batches: map<BatchId, Batch>, key: Key, row: Option<BatchId>) {
    match row
    case None => forall b :: b in batches ==> batches[b].key != key
    case Some(b) => b in batches && batches[b].key == key
  }

  ghost predicate LatestVersionRow(versions: map<VersionId, Version>, campaignVersion: nat, row: Option<VersionId>) {
    match row
    case None => forall v :: v in versions ==> versions[v].campaignVersion != campaignVersion
    case Some(v) =>
      v in versions && versions[v].campaignVersion == campaignVersion &&
      forall u ::
        u in versions && versions[u].campaignVersion == campaignVersion ==> versions[u].number <= versions[v].number
  }

  function ProductsOf(products: map<(TaskId, ProductId), Product>, t: TaskId): set<ProductId> {
    set k | k in products && k.0 == t && products[k].confirmed :: k.1
  }

  /** The confirmed products of a task with their quantities. */
  function Confirmed(products: map<(TaskId, ProductId), Product>, t: TaskId): map<ProductId, nat> {
    map p | p in ProductsOf(products, t) && (t, p) in products :: products[(t, p)].quantity
  }

  ghost predicate PhotosOf(documents: map<DocumentId, BatchDocument>, b: BatchId, photos: seq<Photo>) {
    (forall photo :: photo in photos ==> exists d :: d in documents && documents[d] == BatchDocument(b, photo)) &&
    (forall d :: d in documents && documents[d].batch == b ==> documents[d].photo in photos)
  }

  // ---- effects --------------------------------------------------------------

  function Supersede(batches: map<BatchId, Batch>, affected: set<BatchId>): map<BatchId, Batch> {
    map b | b in batches :: if b in affected then batches[b].(status := Superseded) else batches[b]
  }

  function Suspend(
      authorizations: map<AuthorizationId, Authorization>, affected: set<AuthorizationId>):
        map<AuthorizationId, Authorization>
  {
    map a | a in authorizations :: if a in affected then authorizations[a].(status := Suspended) else authorizations[a]
  }

  function OpenBatches(batches: map<BatchId, Batch>, t: TaskId): set<BatchId> {
    set b | b in batches && batches[b].task == t &&
      (batches[b].status == Pending || batches[b].status == NeedsResubmission)
  }

  function ActiveOf(authorizations: map<AuthorizationId, Authorization>, t: TaskId): set<AuthorizationId> {
    set a | a in authorizations && authorizations[a].task == t && authorizations[a].status == Active
  }

  function ActiveUnder(authorizations: map<AuthorizationId, Authorization>, v: VersionId): set<AuthorizationId> {
    set a | a in authorizations && authorizations[a].version == v && authorizations[a].status == Active
  }

  function PendingUnder(tasks: map<TaskId, Task>, batches: map<BatchId, Batch>, v: VersionId): set<BatchId> {
    set b | b in batches && batches[b].status == Pending && batches[b].task in tasks &&
      tasks[batches[b].task].version == v
  }

  predicate Distinct<T(==)>(s: seq<T>) {
    forall i, j :: 0 <= i < j < |s| ==> s[i] != s[j]
  }

  /** The open-task index: one open task for a draft and a version. */
  ghost predicate OpenTaskTaken(tasks: map<TaskId, Task>, draft: DraftId, v: VersionId) {
    exists t :: t in tasks && tasks[t].draft == draft && tasks[t].version == v && tasks[t].status == Open
  }

  /** The active-authorization index: one active permission for a task and a batch. */
  ghost predicate ActiveTaken(authorizations: map<AuthorizationId, Authorization>, t: TaskId, b: BatchId) {
    exists a ::
      a in authorizations && authorizations[a].task == t && authorizations[a].batch == b &&
      authorizations[a].status == Active
  }

  /** The snapshot of what a permission covers. */
  function ItemsOf(a: AuthorizationId, covered: map<ProductId, nat>): map<(AuthorizationId, ProductId), nat> {
    map p | p in covered :: (a, p) := covered[p]
  }

  function Unconfirmed(t: TaskId, products: seq<ProductId>): map<(TaskId, ProductId), Product> {
    map p | p in products :: (t, p) := Product(1, false)
  }

  datatype Opening = Opening(draft: DraftId, caseId: Option<nat>, campaignVersion: nat, products: seq<ProductId>,
    hasIncident: bool, token: Token)

  ghost function CreateTask(db: Db, t: TaskId, h: HoldId, o: Opening, pinned: Option<VersionId>, now: int): (r: Outcome)
    ensures r.Commit? ==> r.state == db.(tasks := r.state.tasks, products := r.state.products, holds := r.state.holds)
  {
    if pinned.None? then Commit(db, NoTask)
    else if OpenTaskTaken(db.tasks, o.draft, pinned.value) || !Distinct(o.products) then Abort(ConstraintViolation)
    else Commit(db.(
      tasks := db.tasks[t := Task(pinned.value, o.draft, o.caseId, o.token, now + TOKEN_TTL_MS, PendingConfirmation,
        Open, 1)],
      products := db.products + Unconfirmed(t, o.products),
      holds := if o.hasIncident then db.holds[h := Hold(t, IncidentEvidenceRetention, false)] else db.holds), Opened(t))
  }

  function ConfirmEligibility(db: Db, t: TaskId, expected: nat, eligibility: Eligibility): (r: Outcome)
    ensures r.Commit? ==> r.state == db.(tasks := r.state.tasks)
  {
    if t !in db.tasks then Abort(NotFound)
    else if db.tasks[t].revision != expected then Abort(Stale)
    else if eligibility == ConfirmedEligible && ProductsOf(db.products, t) == {} then Abort(Refused)
    else
      Commit(
        db.(tasks := db.tasks[t := db.tasks[t].(eligibility := eligibility, revision := db.tasks[t].revision + 1)]),
        Done)
  }

  function ConfirmProduct(db: Db, t: TaskId, p: ProductId, quantity: nat): (r: Outcome)
    ensures r.Commit? ==> r.state == db.(products := r.state.products)
  {
    if t !in db.tasks || (t, p) !in db.products then Abort(NotFound)
    else if quantity == 0 then Abort(ConstraintViolation)
    else Commit(db.(products := db.products[(t, p) := Product(quantity, true)]), Done)
  }

  datatype Evidence = Evidence(id: DocumentId, photo: Photo)

  function Documents(evidence: seq<Evidence>): seq<DocumentId> {
    seq(|evidence|, i requires 0 <= i < |evidence| => evidence[i].id)
  }

  function AddDocuments(
      documents: map<DocumentId, BatchDocument>, b: BatchId, evidence: seq<Evidence>): map<DocumentId, BatchDocument>
  {
    if evidence == [] then documents
    else
      var last := evidence[|evidence| - 1];
      AddDocuments(documents, b, evidence[..|evidence| - 1])[last.id := BatchDocument(b, last.photo)]
  }

  /** The insert of the batch's documents meets the unique document index and the quantity check. */
  predicate Insertable(documents: map<DocumentId, BatchDocument>, evidence: seq<Evidence>) {
    Distinct(Documents(evidence)) &&
    forall e :: e in evidence ==> e.id !in documents && (e.photo.quantity.Some? ==> e.photo.quantity.value > 0)
  }

  datatype Submission = Submission(task: TaskId, token: Token, key: Key, evidence: seq<Evidence>)

  /** The rows of the documents table, as `DocumentLifecycle` keeps them. */
  type Uploads = map<DocumentId, DocumentLifecycle.Doc>

  predicate OwnedBy(task: Task, row: DocumentLifecycle.Doc) {
    row.draft == Some(task.draft) || (task.caseId.Some? && row.caseId == task.caseId)
  }

  /** A document this task can submit: its own, verified, and disposal evidence. */
  predicate UsableEvidence(task: Task, uploads: Uploads, d: DocumentId) {
    d in uploads && uploads[d].category == DocumentLifecycle.DisposalEvidence &&
    uploads[d].status == DocumentLifecycle.Verified &&
    OwnedBy(task, uploads[d])
  }

  /** The refusal for the first document that cannot be submitted; an unknown one is told apart. */
  function EvidenceProblem(task: Task, uploads: Uploads, evidence: seq<Evidence>): (p: Option<Problem>)
    ensures p.None? <==> forall e :: e in evidence ==> UsableEvidence(task, uploads, e.id)
    ensures p.Some? ==> p.value == NotFound || p.value == Refused
    ensures p == Some(NotFound) ==> exists e :: e in evidence && e.id !in uploads
  {
    if evidence == [] then None
    else if evidence[0].id !in uploads then Some(NotFound)
    else if !UsableEvidence(task, uploads, evidence[0].id) then Some(Refused)
    else EvidenceProblem(task, uploads, evidence[1..])
  }

  predicate TokenOpens(db: Db, t: TaskId, token: Token, now: int) {
    t in db.tasks && db.tasks[t].token == token && db.tasks[t].tokenExpiresAt > now
  }

  function NextNumber(batches: map<BatchId, Batch>, last: Option<BatchId>): nat {
    if last.Some? && last.value in batches then batches[last.value].number + 1 else 1
  }

  ghost function SubmitBatch(
      db: Db, s: Submission, uploads: Uploads, now: int, view: View, existing: Option<BatchId>, b: BatchId):
        (r: Outcome)
    requires s.task in db.tasks ==> Reads(db, s.task, now, view)
    requires KeyRow(db.batches, s.key, existing)
    ensures r.Commit? ==>
      r.state == db.(batches := r.state.batches, documents := r.state.documents,
        authorizations := r.state.authorizations)
  {
    if !TokenOpens(db, s.task, s.token, now) then Abort(NotFound)
    else if !MaySubmitEvidence(StateOf(db, s.task, view), now) then Abort(Refused)
    else if existing.Some? then
      if db.batches[existing.value].status == Pending then Commit(db, Submitted(existing.value)) else Abort(Conflict)
    else if EvidenceProblem(db.tasks[s.task], uploads, s.evidence).Some? then
      Abort(EvidenceProblem(db.tasks[s.task], uploads, s.evidence).value)
    else if s.evidence == [] then Abort(ConstraintViolation)
    else if !Insertable(db.documents, s.evidence) then Abort(ConstraintViolation)
    else Commit(db.(
      batches := Supersede(db.batches,
        OpenBatches(db.batches, s.task))[b := Batch(s.task, NextNumber(db.batches, view.batch), Pending, s.key)],
      documents := AddDocuments(db.documents, b, s.evidence),
      authorizations := Suspend(db.authorizations, ActiveOf(db.authorizations, s.task))), Submitted(b))
  }

  datatype Verdict = Verdict(accepted: bool, reason: Option<nat>, rationaleLength: nat)

  function DecisionOf(v: Verdict): BatchStatus { if v.accepted then Accepted else NeedsResubmission }

  function DecideBatch(db: Db, b: BatchId, v: Verdict): (r: Outcome)
    ensures r.Commit? ==> r.state == db.(reviews := r.state.reviews, batches := r.state.batches)
  {
    if b !in db.batches then Abort(NotFound)
    else if db.batches[b].status != Pending then Abort(Refused)
    else if db.batches[b].task !in db.tasks then Abort(NotFound)
    else if !v.accepted && v.reason.None? then Abort(Refused)
    else if b in db.reviews then Abort(ConstraintViolation)
    else if v.rationaleLength < RATIONALE_MINIMUM then Abort(ConstraintViolation)
    else Commit(db.(
      reviews := db.reviews[b := Review(DecisionOf(v), v.reason)],
      batches := db.batches[b := db.batches[b].(status := DecisionOf(v))]), Done)
  }

  ghost function PutHold(db: Db, t: TaskId, h: HoldId, reason: HoldReason): (r: Outcome)
    ensures r.Commit? ==> r.state == db.(holds := r.state.holds)
  {
    if t !in db.tasks then Abort(NotFound)
    else if HoldActive(db.holds, t) then Commit(db, Done)
    else Commit(db.(holds := db.holds[h := Hold(t, reason, false)]), Done)
  }

  function ReleaseAll(holds: map<HoldId, Hold>, t: TaskId): map<HoldId, Hold> {
    map h | h in holds :: if holds[h].task == t then holds[h].(released := true) else holds[h]
  }

  ghost function LiftHold(db: Db, t: TaskId): (r: Outcome)
    ensures r.Commit? ==> r.state == db.(holds := r.state.holds)
  {
    if t !in db.tasks then Abort(NotFound)
    else if !HoldActive(db.holds, t) then Abort(Refused)
    else Commit(db.(holds := ReleaseAll(db.holds, t)), Done)
  }

  /** `photos` are the documents of the view's batch in whatever order the query returned them. */
  ghost function Issue(
      db: Db, t: TaskId, now: int, view: View, photos: seq<Photo>, a: AuthorizationId, issuedAt: int): (r: Outcome)
    requires t in db.tasks ==> Reads(db, t, now, view)
    ensures r.Commit? ==> r.state == db.(authorizations := r.state.authorizations, items := r.state.items)
  {
    if t !in db.tasks then Abort(NotFound)
    else if !PermissionGate(StateOf(db, t, view), now) || view.batch.None? then Abort(Gate)
    else
      var covered := Covered(Confirmed(db.products, t), photos);
      if covered == map[] then Abort(NothingCovered)
      else if ActiveTaken(db.authorizations, t, view.batch.value) then Abort(ConstraintViolation)
      else Commit(db.(
        authorizations :=
          db.authorizations[a := Authorization(t, view.batch.value, db.tasks[t].version, Active, issuedAt)],
        items := db.items + ItemsOf(a, covered)), Issued(a))
  }

  function Revoke(db: Db, t: TaskId, seen: Option<AuthorizationId>): (r: Outcome)
    requires seen.Some? ==> seen.value in db.authorizations
    ensures r.Commit? ==> r.state == db.(authorizations := r.state.authorizations)
  {
    if t !in db.tasks then Abort(NotFound)
    else if seen.None? then Abort(Refused)
    else if db.authorizations[seen.value].status == Revoked then Commit(db, Revocation(seen.value, false))
    else
      Commit(db.(authorizations := db.authorizations[seen.value := db.authorizations[seen.value].(status := Revoked)]),
        Revocation(seen.value, true))
  }

  datatype Statement = Statement(authorization: Option<AuthorizationId>, exception: Option<nat>, note: Option<string>,
    text: nat)

  /** A repeat may leave the authorization out: the server found it the first time. */
  predicate SameStatement(d: Declaration, s: Statement) {
    d.text == s.text && d.exception == s.exception && d.note == s.note &&
    (s.authorization.None? || s.authorization == d.authorization)
  }

  predicate Explained(note: Option<string>) { note.Some? && note.value != "" }

  function Complete(db: Db, t: TaskId, d: Declaration): (r: Outcome)
    requires t in db.tasks
    ensures r.Commit? ==> r.state == db.(declarations := r.state.declarations, tasks := r.state.tasks)
  {
    if d.authorization.Some? == d.exception.Some? || (d.exception.Some? && d.note.None?) then Abort(ConstraintViolation)
    else if t in db.declarations then Abort(ConstraintViolation)
    else if d.authorization.Some? &&
            exists u :: u in db.declarations && db.declarations[u].authorization == d.authorization then
      Abort(ConstraintViolation)
    else Commit(db.(
      declarations := db.declarations[t := d],
      tasks := db.tasks[t := db.tasks[t].(status := Completed, revision := db.tasks[t].revision + 1)]), Done)
  }

  /** The authorization a statement rests on: the named one, else the one the task was loaded with. */
  function Cited(s: Statement, seen: Option<AuthorizationId>): Option<AuthorizationId> {
    if s.exception.Some? then None else if s.authorization.Some? then s.authorization else seen
  }

  /** The basis of a statement: an explained exception, or the live permission the server finds itself. */
  predicate BasisHolds(state: PolicyState, s: Statement, seen: Option<AuthorizationId>, now: int) {
    if s.exception.Some? then Offered(state, now, DeclareException) && Explained(s.note)
    else
      seen.Some? && Cited(s, seen) == seen && state.authorization == Some(Active) &&
      Offered(state, now, DeclareCompletion)
  }

  ghost function Declare(db: Db, t: TaskId, token: Token, s: Statement, now: int, view: View): (r: Outcome)
    requires t in db.tasks ==> Reads(db, t, now, view)
    ensures r.Commit? ==> r.state == db.(declarations := r.state.declarations, tasks := r.state.tasks)
  {
    if !TokenOpens(db, t, token, now) then Abort(NotFound)
    else if s.exception.Some? && s.authorization.Some? then Abort(Refused)
    else if t in db.declarations then
      if SameStatement(db.declarations[t], s) then Commit(db, Done) else Abort(Conflict)
    else if db.tasks[t].status != Open then Abort(Conflict)
    else if db.tasks[t].version !in db.versions || s.text != db.versions[db.tasks[t].version].declarationText then
      Abort(Refused)
    else if !BasisHolds(StateOf(db, t, view), s, view.authorization, now) then Abort(Refused)
    else Complete(db, t, Declaration(Cited(s, view.authorization), s.exception, s.note, s.text))
  }

  function Withdraw(db: Db, v: VersionId): (r: Outcome)
    ensures r.Commit? ==>
      r.state == db.(versions := r.state.versions, authorizations := r.state.authorizations, batches := r.state.batches)
  {
    if v !in db.versions then Abort(NotFound)
    else if db.versions[v].status == Withdrawn then Commit(db, Withdrew(0))
    else Commit(db.(
      versions := db.versions[v := db.versions[v].(status := Withdrawn)],
      authorizations := Suspend(db.authorizations, ActiveUnder(db.authorizations, v)),
      batches :=
        Supersede(db.batches, PendingUnder(db.tasks, db.batches, v))), Withdrew(|ActiveUnder(db.authorizations, v)|))
  }

  function CreateVersion(db: Db, v: VersionId, campaignVersion: nat, last: Option<VersionId>, text: nat): (r: Outcome)
    ensures r.Commit? ==> r.state == db.(versions := r.state.versions)
  {
    var number := if last.Some? && last.value in db.versions then db.versions[last.value].number + 1 else 1;
    Commit(db.(versions := db.versions[v := Version(campaignVersion, number, Draft, text)]), Done)
  }

  /** Whether an approval authorises is computed from its material, scope and measure. */
  function RecordApproval(
      db: Db, a: ApprovalId, v: VersionId, material: Material, scope: Scope, measure: Measure, w: Window): (r: Outcome)
    ensures r.Commit? ==> r.state == db.(approvals := r.state.approvals)
  {
    var authorizes := AuthorizesConsumerDisposal(material, scope, measure);
    if v !in db.versions then Abort(NotFound)
    else if w.from.Some? && w.until.Some? && w.until.value <= w.from.value then Abort(ConstraintViolation)
    else
      Commit(db.(approvals := db.approvals[a := Approval(v, material, scope, measure, authorizes, w, false)]),
        Recorded(authorizes))
  }

  function Publish(db: Db, v: VersionId): (r: Outcome)
    ensures r.Commit? ==> r.state == db.(versions := r.state.versions)
  {
    if v !in db.versions then Abort(NotFound)
    else if db.versions[v].status != Draft then Abort(Refused)
    else Commit(db.(versions := db.versions[v := db.versions[v].(status := Approved)]), Done)
  }

  // ---- one step -------------------------------------------------------------

  datatype Op =
    | OpCreateTask(task: TaskId, hold: HoldId, opening: Opening, pinned: Option<VersionId>, now: int)
    | OpConfirmEligibility(task: TaskId, expected: nat, eligibility: Eligibility)
    | OpConfirmProduct(task: TaskId, product: ProductId, quantity: nat)
    | OpSubmit(submission: Submission, uploads: Uploads, now: int, view: View, existing: Option<BatchId>,
      batch: BatchId)
    | OpReview(batch: BatchId, verdict: Verdict)
    | OpPlaceHold(task: TaskId, hold: HoldId, reason: HoldReason)
    | OpReleaseHold(task: TaskId)
    | OpIssue(task: TaskId, now: int, view: View, photos: seq<Photo>, authorization: AuthorizationId, issuedAt: int)
    | OpRevoke(task: TaskId, seen: Option<AuthorizationId>)
    | OpDeclare(task: TaskId, token: Token, statement: Statement, now: int, view: View)
    | OpWithdraw(version: VersionId)
    | OpCreateVersion(version: VersionId, campaignVersion: nat, last: Option<VersionId>, text: nat)
    | OpRecordApproval(approval: ApprovalId, version: VersionId, material: Material, scope: Scope, measure: Measure,
      window: Window)
    | OpPublish(version: VersionId)

  /** New ids are fresh, and every read is an answer its query can give. */
  ghost predicate Possible(db: Db, op: Op) {
    match op
    case OpCreateTask(t, h, o, pinned, now) =>
      t !in db.tasks && (forall p: ProductId :: (t, p) !in db.products) && h !in db.holds &&
      PinnedRow(db, o.campaignVersion, now, pinned)
    case OpSubmit(s, _, now, view, existing, b) =>
      b !in db.batches && b !in db.reviews && (s.task in db.tasks ==> Reads(db, s.task, now, view)) &&
      KeyRow(db.batches, s.key, existing)
    case OpPlaceHold(_, h, _) => h !in db.holds
    case OpIssue(t, now, view, photos, a, _) =>
      a !in db.authorizations && (forall p: ProductId :: (a, p) !in db.items) &&
      (t in db.tasks ==> Reads(db, t, now, view)) &&
      (view.batch.Some? ==> PhotosOf(db.documents, view.batch.value, photos))
    case OpRevoke(t, seen) => LatestAuthorizationRow(db.authorizations, t, seen)
    case OpDeclare(t, _, _, now, view) => t in db.tasks ==> Reads(db, t, now, view)
    case OpCreateVersion(v, campaignVersion, last, _) =>
      v !in db.versions && LatestVersionRow(db.versions, campaignVersion, last)
    case OpRecordApproval(a, _, _, _, _, _) => a !in db.approvals
    case _ => true
  }

  ghost function Apply(db: Db, op: Op): Outcome
    requires Possible(db, op)
  {
    match op
    case OpCreateTask(t, h, o, pinned, now) => CreateTask(db, t, h, o, pinned, now)
    case OpConfirmEligibility(t, expected, eligibility) => ConfirmEligibility(db, t, expected, eligibility)
    case OpConfirmProduct(t, p, quantity) => ConfirmProduct(db, t, p, quantity)
    case OpSubmit(s, uploads, now, view, existing, b) => SubmitBatch(db, s, uploads, now, view, existing, b)
    case OpReview(b, v) => DecideBatch(db, b, v)
    case OpPlaceHold(t, h, reason) => PutHold(db, t, h, reason)
    case OpReleaseHold(t) => LiftHold(db, t)
    case OpIssue(t, now, view, photos, a, issuedAt) => Issue(db, t, now, view, photos, a, issuedAt)
    case OpRevoke(t, seen) => Revoke(db, t, seen)
    case OpDeclare(t, token, s, now, view) => Declare(db, t, token, s, now, view)
    case OpWithdraw(v) => Withdraw(db, v)
    case OpCreateVersion(v, campaignVersion, last, text) => CreateVersion(db, v, campaignVersion, last, text)
    case OpRecordApproval(a, v, material, scope, measure, w) => RecordApproval(db, a, v, material, scope, measure, w)
    case OpPublish(v) => Publish(db, v)
  }

  /** The state after a transaction; a rollback leaves it as it was. */
  ghost function After(db: Db, op: Op): Db
    requires Possible(db, op)
  {
    match Apply(db, op)
    case Commit(after, _) => after
    case Abort(_) => db
  }
}
