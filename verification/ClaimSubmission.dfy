/**
 * Claim submission: the draft lock, idempotency records with a time limit, replays, document
 * linking, and losers of the race for a key. A request hash is taken to be injective, so a
 * record holds the request itself.
 */
module ClaimSubmission {
  import opened Prelude
  import opened EvidenceRules
  import DocumentLifecycle

  type CampaignId = nat
  type VersionId = nat
  type Slug = nat
  type IdempotencyKey = nat
  type Token = nat
  type CaseId = nat
  type Reference = nat

  datatype Campaign = Campaign(slug: Slug, active: bool)

  /** `privacyNotice` is absent when the column is null or empty. */
  datatype Version = Version(campaign: CampaignId, privacyNotice: Option<nat>, rules: seq<Rule>)

  datatype DraftStatus = Active | Submitted | Expired | Abandoned
  datatype Draft = Draft(
    campaign: CampaignId, version: VersionId, token: Token, status: DraftStatus, expiresAt: int,
    submittedCase: Option<CaseId>)

  datatype ConsentType = PrivacyNotice | InformationAccuracy | OtherConsent
  datatype Consent = Consent(kind: ConsentType, textVersion: nat)

  /** `complete` is whether the incident details are complete; `content` is everything else in the request. */
  datatype Body = Body(draft: DraftId, token: Token, consents: seq<Consent>, documents: seq<DocumentId>, complete: bool,
    content: nat)
  datatype Command = Command(slug: Slug, key: IdempotencyKey, body: Body)

  datatype Response = Response(reference: Reference, submittedAt: int, disposalTask: Option<nat>)

  /** `draft` and `documents` record what the case was made from; no other operation rewrites them. */
  datatype Case = Case(reference: Reference, draft: DraftId, documents: set<DocumentId>, submittedAt: int)

  datatype Record = Record(request: Body, response: Response, caseId: CaseId, expiresAt: int)

  datatype Tables = Tables(
    campaigns: map<CampaignId, Campaign>, versions: map<VersionId, Version>, drafts: map<DraftId, Draft>,
    cases: map<CaseId, Case>, records: map<(Slug, IdempotencyKey), Record>, documents: map<DocumentId, Row>)

  datatype Problem =
    | Invalid | DraftExpiredOrInvalid | CampaignNotFound | Conflict | ReferencesExhausted | UniqueViolation

  /** What a submission learns outside this model: the product, remedy and snapshot checks, and its random ids. */
  datatype Facts = Facts(campaignDataValid: bool, waivesPurchaseProof: bool, caseId: CaseId, candidates: seq<Reference>,
    disposalTask: Option<nat>)

  const IDEMPOTENCY_TTL_MS := 24 * 60 * 60 * 1000
  const CASE_REFERENCE_ATTEMPTS: nat := 3

  function KeyOf(c: Command): (Slug, IdempotencyKey) { (c.slug, c.key) }

  function FindIdempotency(db: Tables, c: Command, at: int): Option<Record> {
    if KeyOf(c) in db.records && db.records[KeyOf(c)].expiresAt > at then Some(db.records[KeyOf(c)]) else None
  }

  function Replay(record: Record, body: Body): Result<Response, Problem> {
    if record.request == body then Ok(record.response) else Err(Conflict)
  }

  /** Exactly the two required consents, the privacy one for the version's own notice. */
  predicate ConsentsAccepted(consents: seq<Consent>, privacyNotice: Option<nat>) {
    |consents| == 2 && privacyNotice.Some? &&
    ((consents[0] == Consent(PrivacyNotice, privacyNotice.value) && consents[1].kind == InformationAccuracy) ||
     (consents[1] == Consent(PrivacyNotice, privacyNotice.value) && consents[0].kind == InformationAccuracy))
  }

  predicate Distinct(ids: seq<DocumentId>) {
    forall i, j :: 0 <= i < j < |ids| ==> ids[i] != ids[j]
  }

  function Ids(ids: seq<DocumentId>): set<DocumentId> { set d | d in ids }

  predicate DocumentsFit(table: map<DocumentId, Row>, ids: seq<DocumentId>, draft: DraftId, scanRequired: bool) {
    forall d :: d in ids ==> d in table && Submittable(Selected(d, table[d]), draft, scanRequired)
  }

  predicate RulesMet(table: map<DocumentId, Row>, ids: seq<DocumentId>, rules: seq<Rule>, waives: bool) {
    forall r :: r in rules ==> Meets(r, |InCategory(table, Ids(ids), r.category)|, waives)
  }

  /** A transaction that passed its checks and holds its locks, but has not committed. */
  datatype Pending = Pending(command: Command, submittedAt: int, facts: Facts, deletes: bool)

  datatype Prepared = Answered(answer: Result<Response, Problem>) | Ready(pending: Pending)

  /** The draft with its campaign and version, as the locking query joins them. */
  predicate DraftJoins(db: Tables, d: DraftId) {
    d in db.drafts && db.drafts[d].campaign in db.campaigns && db.drafts[d].version in db.versions
  }

  /** The checking half of a submission, in the order the checks are made. */
  function Prepare(db: Tables, scanRequired: bool, c: Command, at: int, facts: Facts): Prepared {
    var b := c.body;
    if !b.complete then Answered(Err(Invalid))
    else if !DraftJoins(db, b.draft) then Answered(Err(DraftExpiredOrInvalid))
    else
      var draft := db.drafts[b.draft];
      var campaign, version := db.campaigns[draft.campaign], db.versions[draft.version];
      var existing := FindIdempotency(db, c, at);
      if draft.token != b.token then Answered(Err(DraftExpiredOrInvalid))
      else if draft.status == Submitted then
        Answered(if existing.Some? then Replay(existing.value, b) else Err(Conflict))
      else if draft.status != Active || draft.expiresAt <= at then Answered(Err(DraftExpiredOrInvalid))
      else if campaign.slug != c.slug || !campaign.active || version.campaign != draft.campaign then
        Answered(Err(CampaignNotFound))
      else if existing.Some? then Answered(Replay(existing.value, b))
      else if !ConsentsAccepted(b.consents, version.privacyNotice) || !Distinct(b.documents) ||
        !facts.campaignDataValid ||
              !DocumentsFit(db.documents, b.documents, b.draft, scanRequired) ||
              !RulesMet(db.documents, b.documents, version.rules, facts.waivesPurchaseProof) then Answered(Err(Invalid))
      else Ready(Pending(c, at, facts, KeyOf(c) in db.records))
  }

  function References(cases: map<CaseId, Case>): set<Reference> {
    set c | c in cases :: cases[c].reference
  }

  function FirstFree(candidates: seq<Reference>, taken: set<Reference>): (r: Option<Reference>)
    ensures r.Some? ==> r.value in candidates && r.value !in taken
    ensures r.None? ==> forall x :: x in candidates ==> x in taken
  {
    if candidates == [] then None
    else if candidates[0] !in taken then Some(candidates[0])
    else FirstFree(candidates[1..], taken)
  }

  function LinkedTo(row: Row, c: CaseId): Row {
    row.(caseId := Some(c), draft := None, slot := None, status := DocumentLifecycle.Linked)
  }

  function LinkDocuments(table: map<DocumentId, Row>, ids: set<DocumentId>, c: CaseId): map<DocumentId, Row> {
    map d | d in table :: if d in ids then LinkedTo(table[d], c) else table[d]
  }

  function MarkSubmitted(drafts: map<DraftId, Draft>, d: DraftId, c: CaseId): map<DraftId, Draft> {
    if d in drafts then drafts[d := drafts[d].(status := Submitted, submittedCase := Some(c))] else drafts
  }

  /** The writing half: every row at once, or a rollback when no reference is free or the key is taken. */
  function Finish(db: Tables, p: Pending): Tx<Tables, Response, Problem> {
    var b, c, k := p.command.body, p.facts.caseId, KeyOf(p.command);
    var reference := FirstFree(p.facts.candidates, References(db.cases));
    if reference.None? then Abort(ReferencesExhausted)
    else if k in db.records && !p.deletes then Abort(UniqueViolation)
    else
      var response := Response(reference.value, p.submittedAt, p.facts.disposalTask);
      Commit(db.(
        cases := db.cases[c := Case(reference.value, b.draft, Ids(b.documents), p.submittedAt)],
        documents := LinkDocuments(db.documents, Ids(b.documents), c),
        drafts := MarkSubmitted(db.drafts, b.draft, c),
        records := db.records[k := Record(b, response, c, p.submittedAt + IDEMPOTENCY_TTL_MS)]), response)
  }

  /** What the caller gets after a rollback: the winner's response when the key was lost to the same request. */
  function Recover(db: Tables, p: Pending, e: Problem): Result<Response, Problem> {
    var winner := FindIdempotency(db, p.command, p.submittedAt);
    if e != UniqueViolation || winner.None? then Err(e) else Replay(winner.value, p.command.body)
  }

  // ---- runs ---------------------------------------------------------------

  type TxId = nat

  datatype World = World(db: Tables, open: map<TxId, Pending>)

  datatype Step =
    | Begin(id: TxId, command: Command, at: int, facts: Facts)
    | End(id: TxId)
    | Drop(id: TxId)
    | Others(after: Tables)

  /** Rows a submission has locked: its draft and its documents. */
  predicate DraftLocked(open: map<TxId, Pending>, d: DraftId) {
    exists t :: t in open && open[t].command.body.draft == d
  }

  predicate DocumentLocked(open: map<TxId, Pending>, d: DocumentId) {
    exists t :: t in open && d in open[t].command.body.documents
  }

  /**
   * Everything else that writes these tables: it never submits a draft, leaves linked or locked
   * rows alone, and keeps the campaigns and versions that drafts refer to.
   */
  ghost predicate OtherWork(open: map<TxId, Pending>, before: Tables, after: Tables) {
    after.cases == before.cases && after.records == before.records &&
    before.campaigns.Keys <= after.campaigns.Keys && before.versions.Keys <= after.versions.Keys &&
    (forall d :: d in before.drafts && (before.drafts[d].status == Submitted || DraftLocked(open, d)) ==>
      d in after.drafts && after.drafts[d] == before.drafts[d]) &&
    (forall d :: d in after.drafts && after.drafts[d].status == Submitted ==>
      d in before.drafts && before.drafts[d] == after.drafts[d]) &&
    (forall d :: d in before.documents && (before.documents[d].caseId.Some? || DocumentLocked(open, d)) ==>
      d in after.documents && after.documents[d] == before.documents[d]) &&
    (forall d :: d in after.documents && after.documents[d].caseId.Some? ==>
      d in before.documents && before.documents[d] == after.documents[d])
  }

  /** A second transaction waits for a locked draft, and for a record that another one is deleting. */
  ghost predicate Enabled(w: World, scanRequired: bool, step: Step) {
    match step
    case Begin(t, c, at, facts) =>
      t !in w.open && !DraftLocked(w.open, c.body.draft) &&
      (Prepare(w.db, scanRequired, c, at, facts).Ready? && KeyOf(c) in w.db.records ==>
        forall u :: u in w.open && w.open[u].deletes ==> KeyOf(w.open[u].command) != KeyOf(c))
    case End(t) => t in w.open && w.open[t].facts.caseId !in w.db.cases
    case Drop(t) => t in w.open
    case Others(after) => OtherWork(w.open, w.db, after)
  }

  ghost function Next(w: World, scanRequired: bool, step: Step): World
    requires Enabled(w, scanRequired, step)
  {
    match step
    case Begin(t, c, at, facts) =>
      (match Prepare(w.db, scanRequired, c, at, facts)
       case Ready(p) => w.(open := w.open[t := p])
       case Answered(_) => w)
    case End(t) =>
      (match Finish(w.db, w.open[t])
       case Commit(db, _) => World(db, w.open - {t})
       case Abort(_) => w.(open := w.open - {t}))
    case Drop(t) => w.(open := w.open - {t})
    case Others(after) => w.(db := after)
  }

  ghost predicate Runs(w: World, scanRequired: bool, steps: seq<Step>)
    decreases |steps|
  {
    steps != [] ==>
      Enabled(w, scanRequired, steps[0]) && Runs(Next(w, scanRequired, steps[0]), scanRequired, steps[1..])
  }

  ghost function Final(w: World, scanRequired: bool, steps: seq<Step>): World
    requires Runs(w, scanRequired, steps)
    decreases |steps|
  {
    if steps == [] then w else Final(Next(w, scanRequired, steps[0]), scanRequired, steps[1..])
  }

  /** Each case is the case of its draft: no draft has two. */
  ghost predicate CasesMatchDrafts(cases: map<CaseId, Case>, drafts: map<DraftId, Draft>) {
    forall c :: c in cases ==>
      cases[c].draft in drafts && drafts[cases[c].draft].status == Submitted &&
      drafts[cases[c].draft].submittedCase == Some(c)
  }

  predicate IsLinked(documents: map<DocumentId, Row>, d: DocumentId, c: CaseId) {
    d in documents && documents[d].caseId == Some(c) && documents[d].status == DocumentLifecycle.Linked &&
    documents[d].draft == None
  }

  /** The documents of a case are exactly the ones it was submitted with. */
  ghost predicate DocumentsMatchCases(documents: map<DocumentId, Row>, cases: map<CaseId, Case>) {
    (forall c, d :: c in cases && d in cases[c].documents ==> IsLinked(documents, d, c)) &&
    (forall d :: d in documents && documents[d].caseId.Some? ==>
      documents[d].caseId.value in cases && d in cases[documents[d].caseId.value].documents)
  }

  ghost predicate RecordsMatchCases(records: map<(Slug, IdempotencyKey), Record>, cases: map<CaseId, Case>) {
    forall k :: k in records ==>
      var r := records[k];
      r.caseId in cases && cases[r.caseId].draft == r.request.draft &&
      cases[r.caseId].reference == r.response.reference &&
      cases[r.caseId].submittedAt == r.response.submittedAt &&
      r.expiresAt == r.response.submittedAt + IDEMPOTENCY_TTL_MS
  }

  ghost predicate ReferencesUnique(cases: map<CaseId, Case>) {
    forall c, d :: c in cases && d in cases && cases[c].reference == cases[d].reference ==> c == d
  }

  /** What the locks keep true for an open transaction. */
  ghost predicate StillReady(db: Tables, scanRequired: bool, p: Pending) {
    DraftJoins(db, p.command.body.draft) && db.drafts[p.command.body.draft].status == Active &&
    db.drafts[p.command.body.draft].token == p.command.body.token &&
    Distinct(p.command.body.documents) &&
    DocumentsFit(db.documents, p.command.body.documents, p.command.body.draft, scanRequired) &&
    (p.deletes ==> KeyOf(p.command) in db.records && db.records[KeyOf(p.command)].expiresAt <= p.submittedAt)
  }

  ghost predicate OpenReady(w: World, scanRequired: bool) {
    forall t :: t in w.open ==> StillReady(w.db, scanRequired, w.open[t])
  }

  ghost predicate OpenApart(open: map<TxId, Pending>) {
    forall t, u :: t in open && u in open && t != u ==>
      open[t].command.body.draft != open[u].command.body.draft &&
      (open[t].deletes && open[u].deletes ==> KeyOf(open[t].command) != KeyOf(open[u].command))
  }

  ghost predicate Inv(w: World, scanRequired: bool) {
    CasesMatchDrafts(w.db.cases, w.db.drafts) && DocumentsMatchCases(w.db.documents, w.db.cases) &&
    RecordsMatchCases(w.db.records, w.db.cases) && ReferencesUnique(w.db.cases) && OpenReady(w, scanRequired) &&
    OpenApart(w.open)
  }

  // ---- one commit keeps the tables consistent ------------------------------

  lemma CommitKeepsCases(db: Tables, scanRequired: bool, p: Pending)
    requires CasesMatchDrafts(db.cases, db.drafts) && ReferencesUnique(db.cases) && StillReady(db, scanRequired, p)
    requires p.facts.caseId !in db.cases && Finish(db, p).Commit?
    ensures var after := Finish(db, p).state;
      CasesMatchDrafts(after.cases, after.drafts) && ReferencesUnique(after.cases)
  {
    var after := Finish(db, p).state;
    forall c | c in db.cases
      ensures after.cases[c] == db.cases[c] && db.cases[c].reference != after.cases[p.facts.caseId].reference
    {
      assert db.cases[c].reference in References(db.cases);
    }
  }

  /** The new case gets exactly the submitted documents, all free until then; no other document moves. */
  lemma CommitLinksExactly(db: Tables, scanRequired: bool, p: Pending)
    requires DocumentsMatchCases(db.documents, db.cases) && StillReady(db, scanRequired, p)
    requires p.facts.caseId !in db.cases && Finish(db, p).Commit?
    ensures forall d :: d in p.command.body.documents ==>
      d in db.documents && db.documents[d].draft == Some(p.command.body.draft) &&
      db.documents[d].status == DocumentLifecycle.Verified && db.documents[d].caseId == None
    ensures forall d :: IsLinked(Finish(db, p).state.documents, d, p.facts.caseId) <==> d in p.command.body.documents
    ensures forall d ::
      d in db.documents && d !in p.command.body.documents ==>
        d in Finish(db, p).state.documents && Finish(db, p).state.documents[d] == db.documents[d]
    ensures DocumentsMatchCases(Finish(db, p).state.documents, Finish(db, p).state.cases)
  {
    forall d | d in p.command.body.documents ensures d in db.documents && db.documents[d].caseId == None {
      if db.documents[d].caseId.Some? {
        assert IsLinked(db.documents, d, db.documents[d].caseId.value);
      }
    }
  }

  lemma CommitKeepsRecords(db: Tables, p: Pending)
    requires RecordsMatchCases(db.records, db.cases) && p.facts.caseId !in db.cases && Finish(db, p).Commit?
    ensures RecordsMatchCases(Finish(db, p).state.records, Finish(db, p).state.cases)
  {
  }

  lemma NotOwned(db: Tables, scanRequired: bool, p: Pending, d: DocumentId)
    requires StillReady(db, scanRequired, p) && d in db.documents && db.documents[d].draft != Some(p.command.body.draft)
    ensures d !in p.command.body.documents
  {
  }

  /** A commit does not disturb another open transaction. */
  lemma CommitKeepsOther(db: Tables, scanRequired: bool, p: Pending, q: Pending)
    requires StillReady(db, scanRequired, p) && StillReady(db, scanRequired, q) && Finish(db, p).Commit?
    requires p.command.body.draft != q.command.body.draft
    requires p.deletes && q.deletes ==> KeyOf(p.command) != KeyOf(q.command)
    ensures StillReady(Finish(db, p).state, scanRequired, q)
  {
    var after := Finish(db, p).state;
    forall d | d in q.command.body.documents ensures d in after.documents && after.documents[d] == db.documents[d] {
      assert db.documents[d].draft == Some(q.command.body.draft);
      NotOwned(db, scanRequired, p, d);
    }
  }

  lemma OtherWorkKeeps(open: map<TxId, Pending>, scanRequired: bool, before: Tables, after: Tables, t: TxId)
    requires OtherWork(open, before, after) && t in open && StillReady(before, scanRequired, open[t])
    ensures StillReady(after, scanRequired, open[t])
  {
    assert DraftLocked(open, open[t].command.body.draft);
    forall d | d in open[t].command.body.documents
      ensures d in after.documents && after.documents[d] == before.documents[d]
    {
      assert DocumentLocked(open, d);
    }
  }

  lemma OtherWorkKeepsTables(open: map<TxId, Pending>, before: Tables, after: Tables)
    requires OtherWork(open, before, after)
    requires CasesMatchDrafts(before.cases, before.drafts) && DocumentsMatchCases(before.documents, before.cases)
    ensures CasesMatchDrafts(after.cases, after.drafts) && DocumentsMatchCases(after.documents, after.cases)
  {
    forall c, d | c in after.cases && d in after.cases[c].documents ensures IsLinked(after.documents, d, c) {
      assert IsLinked(before.documents, d, c);
    }
  }

  lemma ReadyIsStillReady(db: Tables, scanRequired: bool, c: Command, at: int, facts: Facts)
    requires Prepare(db, scanRequired, c, at, facts).Ready?
    ensures StillReady(db, scanRequired, Prepare(db, scanRequired, c, at, facts).pending)
  {
  }

  lemma BeginKeepsOpen(w: World, scanRequired: bool, t: TxId, c: Command, at: int, facts: Facts)
    requires OpenReady(w, scanRequired) && OpenApart(w.open) && Enabled(w, scanRequired, Begin(t, c, at, facts))
    ensures OpenReady(Next(w, scanRequired, Begin(t, c, at, facts)), scanRequired)
    ensures OpenApart(Next(w, scanRequired, Begin(t, c, at, facts)).open)
  {
    if Prepare(w.db, scanRequired, c, at, facts).Ready? {
      ReadyIsStillReady(w.db, scanRequired, c, at, facts);
      assert Prepare(w.db, scanRequired, c, at, facts).pending.deletes == (KeyOf(c) in w.db.records);
      hide StillReady, Prepare;
      forall u | u in w.open ensures w.open[u].command.body.draft != c.body.draft {
        assert DraftLocked(w.open, w.open[u].command.body.draft);
      }
    }
  }

  lemma EndKeepsOpen(w: World, scanRequired: bool, t: TxId)
    requires OpenReady(w, scanRequired) && OpenApart(w.open) && Enabled(w, scanRequired, End(t))
    ensures OpenReady(Next(w, scanRequired, End(t)), scanRequired) && OpenApart(Next(w, scanRequired, End(t)).open)
  {
    if Finish(w.db, w.open[t]).Commit? {
      forall u | u in w.open && u != t ensures StillReady(Finish(w.db, w.open[t]).state, scanRequired, w.open[u]) {
        CommitKeepsOther(w.db, scanRequired, w.open[t], w.open[u]);
      }
    }
    hide StillReady, Finish;
  }

  lemma StepKeepsOpen(w: World, scanRequired: bool, step: Step)
    requires OpenReady(w, scanRequired) && OpenApart(w.open) && Enabled(w, scanRequired, step)
    ensures OpenReady(Next(w, scanRequired, step), scanRequired) && OpenApart(Next(w, scanRequired, step).open)
  {
    hide StillReady, Prepare, Finish;
    match step
    case Begin(t, c, at, facts) => BeginKeepsOpen(w, scanRequired, t, c, at, facts);
    case End(t) => EndKeepsOpen(w, scanRequired, t);
    case Drop(_) =>
    case Others(after) =>
      forall u | u in w.open ensures StillReady(after, scanRequired, w.open[u]) {
        OtherWorkKeeps(w.open, scanRequired, w.db, after, u);
      }
  }

  lemma StepKeepsInv(w: World, scanRequired: bool, step: Step)
    requires Inv(w, scanRequired) && Enabled(w, scanRequired, step)
    ensures Inv(Next(w, scanRequired, step), scanRequired)
  {
    StepKeepsOpen(w, scanRequired, step);
    if step.Others? {
      OtherWorkKeepsTables(w.open, w.db, step.after);
    } else if step.End? && Finish(w.db, w.open[step.id]).Commit? {
      CommitKeepsCases(w.db, scanRequired, w.open[step.id]);
      CommitLinksExactly(w.db, scanRequired, w.open[step.id]);
      CommitKeepsRecords(w.db, w.open[step.id]);
    }
  }

  /** Cases never change, so neither does what they are made from. */
  lemma StepKeepsCases(w: World, scanRequired: bool, step: Step, c: CaseId)
    requires Enabled(w, scanRequired, step) && c in w.db.cases
    ensures c in Next(w, scanRequired, step).db.cases && Next(w, scanRequired, step).db.cases[c] == w.db.cases[c]
  {
  }

  lemma {:induction false} RunKeepsInv(w: World, scanRequired: bool, steps: seq<Step>)
    requires Inv(w, scanRequired) && Runs(w, scanRequired, steps)
    ensures Inv(Final(w, scanRequired, steps), scanRequired)
    decreases |steps|
  {
    if steps != [] {
      StepKeepsInv(w, scanRequired, steps[0]);
      hide Next, Enabled;
      RunKeepsInv(Next(w, scanRequired, steps[0]), scanRequired, steps[1..]);
    }
  }

  /** A system where nothing was submitted yet. */
  predicate Fresh(w: World) {
    w.open == map[] && w.db.cases == map[] && w.db.records == map[] &&
    forall d :: d in w.db.documents ==> w.db.documents[d].caseId.None?
  }

  /** Over every run, with any number of concurrent submissions, retries and losers, a draft yields at most one case. */
  lemma OneCasePerDraft(w: World, scanRequired: bool, steps: seq<Step>, c: CaseId, d: CaseId)
    requires Fresh(w) && Runs(w, scanRequired, steps)
    requires c in Final(w, scanRequired, steps).db.cases && d in Final(w, scanRequired, steps).db.cases
    requires Final(w, scanRequired, steps).db.cases[c].draft == Final(w, scanRequired, steps).db.cases[d].draft
    ensures c == d
  {
    RunKeepsInv(w, scanRequired, steps);
  }

  /** A linked document stays with its case for ever, and no other document joins that case. */
  lemma {:induction false} LinkedDocumentsStay(w: World, scanRequired: bool, steps: seq<Step>, c: CaseId)
    requires Inv(w, scanRequired) && Runs(w, scanRequired, steps) && c in w.db.cases
    ensures var end := Final(w, scanRequired, steps).db;
      c in end.cases && end.cases[c] == w.db.cases[c] &&
      forall d :: IsLinked(end.documents, d, c) <==> d in w.db.cases[c].documents
    decreases |steps|
  {
    if steps != [] {
      StepKeepsInv(w, scanRequired, steps[0]);
      StepKeepsCases(w, scanRequired, steps[0], c);
      hide Next, Enabled, Inv;
      LinkedDocumentsStay(Next(w, scanRequired, steps[0]), scanRequired, steps[1..], c);
    }
  }

  // ---- what was checked is what is linked ---------------------------------

  /** Steps that do not end the given transaction. */
  predicate LeavesOpen(steps: seq<Step>, t: TxId) {
    forall i :: 0 <= i < |steps| ==> steps[i] != End(t) && steps[i] != Drop(t)
  }

  lemma StepKeepsLocked(w: World, scanRequired: bool, step: Step, t: TxId, d: DocumentId)
    requires OpenReady(w, scanRequired) && OpenApart(w.open) && Enabled(w, scanRequired, step)
    requires t in w.open && step != End(t) && step != Drop(t) && d in w.open[t].command.body.documents
    ensures var after := Next(w, scanRequired, step);
      t in after.open && after.open[t] == w.open[t] && d in w.db.documents && d in after.db.documents &&
      after.db.documents[d] == w.db.documents[d]
  {
    assert StillReady(w.db, scanRequired, w.open[t]);
    assert DocumentLocked(w.open, d);
    if step.End? {
      assert StillReady(w.db, scanRequired, w.open[step.id]);
      NotOwned(w.db, scanRequired, w.open[step.id], d);
    }
  }

  lemma {:induction false} RunKeepsLocked(w: World, scanRequired: bool, steps: seq<Step>, t: TxId, d: DocumentId)
    requires Inv(w, scanRequired) && Runs(w, scanRequired, steps) && LeavesOpen(steps, t)
    requires t in w.open && d in w.open[t].command.body.documents
    ensures var end := Final(w, scanRequired, steps);
      t in end.open && end.open[t] == w.open[t] && d in w.db.documents && d in end.db.documents &&
      end.db.documents[d] == w.db.documents[d]
    decreases |steps|
  {
    if steps == [] {
      assert StillReady(w.db, scanRequired, w.open[t]);
    } else {
      StepKeepsInv(w, scanRequired, steps[0]);
      StepKeepsLocked(w, scanRequired, steps[0], t, d);
      hide Next, Enabled, Inv;
      RunKeepsLocked(Next(w, scanRequired, steps[0]), scanRequired, steps[1..], t, d);
    }
  }

  /**
   * However long a submission stays open and whatever commits meanwhile, the documents it links
   * are the rows it checked, so the new case meets every rule of the pinned version.
   */
  lemma LinkedAsChecked(w: World, scanRequired: bool, t: TxId, c: Command, at: int, facts: Facts, steps: seq<Step>)
    requires Inv(w, scanRequired) && Enabled(w, scanRequired, Begin(t, c, at, facts)) &&
      Prepare(w.db, scanRequired, c, at, facts).Ready?
    requires var begun := Next(w, scanRequired, Begin(t, c, at, facts));
      Runs(begun, scanRequired, steps) && LeavesOpen(steps, t)
    requires var before := Final(Next(w, scanRequired, Begin(t, c, at, facts)), scanRequired, steps);
      t in before.open && Finish(before.db, before.open[t]).Commit?
    ensures var before := Final(Next(w, scanRequired, Begin(t, c, at, facts)), scanRequired, steps);
      var after := Finish(before.db, before.open[t]).state;
      (forall d :: d in c.body.documents ==>
        d in w.db.documents && d in after.documents &&
        after.documents[d] == LinkedTo(w.db.documents[d], facts.caseId)) &&
      RulesMet(after.documents, c.body.documents, w.db.versions[w.db.drafts[c.body.draft].version].rules,
        facts.waivesPurchaseProof)
  {
    var begun := Next(w, scanRequired, Begin(t, c, at, facts));
    var before := Final(begun, scanRequired, steps);
    var after := Finish(before.db, before.open[t]).state;
    var rules := w.db.versions[w.db.drafts[c.body.draft].version].rules;
    StepKeepsInv(w, scanRequired, Begin(t, c, at, facts));
    assert RulesMet(w.db.documents, c.body.documents, rules, facts.waivesPurchaseProof);
    forall d | d in c.body.documents
      ensures d in w.db.documents && d in after.documents &&
        after.documents[d] == LinkedTo(w.db.documents[d], facts.caseId)
    {
      RunKeepsLocked(begun, scanRequired, steps, t, d);
    }
    hide Prepare, Finish, Inv, Enabled;
    forall category: Category
      ensures InCategory(after.documents, Ids(c.body.documents), category) ==
        InCategory(w.db.documents, Ids(c.body.documents), category)
    {
    }
  }

  // ---- replays ------------------------------------------------------------

  /** A record nobody is about to delete, of a submitted draft. */
  ghost predicate Holds(w: World, k: (Slug, IdempotencyKey), r: Record) {
    k in w.db.records && w.db.records[k] == r &&
    DraftJoins(w.db, r.request.draft) && w.db.drafts[r.request.draft].status == Submitted &&
    w.db.drafts[r.request.draft].token == r.request.token &&
    forall t :: t in w.open && w.open[t].deletes ==> KeyOf(w.open[t].command) != k
  }

  /** Every submission in these steps is timed before `limit`. */
  predicate TimedBefore(steps: seq<Step>, limit: int) {
    forall s :: s in steps && s.Begin? ==> s.at < limit
  }

  lemma StepKeepsHeld(w: World, scanRequired: bool, step: Step, k: (Slug, IdempotencyKey), r: Record)
    requires Inv(w, scanRequired) && Enabled(w, scanRequired, step) && Holds(w, k, r)
    requires step.Begin? ==> step.at < r.expiresAt
    ensures Holds(Next(w, scanRequired, step), k, r)
  {
    if step.End? {
      assert StillReady(w.db, scanRequired, w.open[step.id]);
    }
  }

  lemma {:induction false} RunKeepsHeld(
      w: World, scanRequired: bool, steps: seq<Step>, k: (Slug, IdempotencyKey), r: Record)
    requires Inv(w, scanRequired) && Runs(w, scanRequired, steps) && Holds(w, k, r) && TimedBefore(steps, r.expiresAt)
    ensures Holds(Final(w, scanRequired, steps), k, r)
    decreases |steps|
  {
    if steps != [] {
      assert steps == [steps[0]] + steps[1..];
      StepKeepsInv(w, scanRequired, steps[0]);
      StepKeepsHeld(w, scanRequired, steps[0], k, r);
      hide Next, Enabled, Inv, Holds;
      RunKeepsHeld(Next(w, scanRequired, steps[0]), scanRequired, steps[1..], k, r);
    }
  }

  lemma CommitIsHeld(w: World, scanRequired: bool, t: TxId)
    requires Inv(w, scanRequired) && Enabled(w, scanRequired, End(t)) && Finish(w.db, w.open[t]).Commit?
    ensures var p := w.open[t]; var answer := Finish(w.db, p).answer;
      Holds(Next(w, scanRequired, End(t)), KeyOf(p.command),
        Record(p.command.body, answer, p.facts.caseId, p.submittedAt + IDEMPOTENCY_TTL_MS))
  {
    var p := w.open[t];
    assert StillReady(w.db, scanRequired, p);
    forall u | u in w.open && u != t && w.open[u].deletes ensures KeyOf(w.open[u].command) != KeyOf(p.command) {
      assert StillReady(w.db, scanRequired, w.open[u]);
    }
  }

  lemma HeldAnswers(w: World, scanRequired: bool, r: Record, retry: Command, at: int, facts: Facts)
    requires Holds(w, KeyOf(retry), r) && at < r.expiresAt
    ensures var answered := Prepare(w.db, scanRequired, retry, at, facts);
      if retry.body == r.request && retry.body.complete then answered == Answered(Ok(r.response))
      else answered.Answered? && answered.answer.Err?
  {
  }

  /**
   * Once a submission has committed, for as long as its record lives and whatever else happens,
   * a repeat of the same request gets the identical response and opens nothing, even when the
   * draft has expired or the campaign closed since; under that key no other request is let through.
   */
  lemma RetryGetsTheSameResponse(
      w: World, scanRequired: bool, t: TxId, steps: seq<Step>, retry: Command, at: int, facts: Facts)
    requires Inv(w, scanRequired) && Runs(w, scanRequired, [End(t)] + steps) && Finish(w.db, w.open[t]).Commit?
    requires TimedBefore(steps, w.open[t].submittedAt + IDEMPOTENCY_TTL_MS) &&
      at < w.open[t].submittedAt + IDEMPOTENCY_TTL_MS
    requires KeyOf(retry) == KeyOf(w.open[t].command)
    ensures var first := w.open[t]; var db := Final(w, scanRequired, [End(t)] + steps).db;
      if retry.body == first.command.body && retry.body.complete then
        Prepare(db, scanRequired, retry, at, facts) == Answered(Ok(Finish(w.db, first).answer))
      else
        Prepare(db, scanRequired, retry, at, facts).Answered? && Prepare(db, scanRequired, retry, at, facts).answer.Err?
  {
    var first := w.open[t];
    var r := Record(first.command.body, Finish(w.db, first).answer, first.facts.caseId,
      first.submittedAt + IDEMPOTENCY_TTL_MS);
    assert ([End(t)] + steps)[1..] == steps;
    CommitIsHeld(w, scanRequired, t);
    StepKeepsInv(w, scanRequired, End(t));
    RunKeepsHeld(Next(w, scanRequired, End(t)), scanRequired, steps, KeyOf(retry), r);
    hide Next, Enabled, Finish, Inv, Holds, Prepare;
    HeldAnswers(Final(w, scanRequired, [End(t)] + steps), scanRequired, r, retry, at, facts);
  }

  /**
   * A transaction that was already open loses the key: it writes nothing and gets the winner's
   * response or a conflict.
   */
  lemma LoserWritesNothing(w: World, scanRequired: bool, t: TxId, r: Record)
    requires Inv(w, scanRequired) && Enabled(w, scanRequired, End(t)) && Holds(w, KeyOf(w.open[t].command), r)
    ensures Next(w, scanRequired, End(t)) == World(w.db, w.open - {t}) && Finish(w.db, w.open[t]).Abort?
    ensures var e := Finish(w.db, w.open[t]).error;
      e == UniqueViolation && r.expiresAt > w.open[t].submittedAt ==>
        Recover(w.db, w.open[t], e) == Replay(r, w.open[t].command.body)
  {
  }
}
