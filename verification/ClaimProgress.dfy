/**
 * Which submissions are let through, spelled out on the rows, and what a caller who is let through
 * gets.
 */
module ClaimProgress {
  import opened Prelude
  import opened EvidenceRules
  import opened ClaimSubmission
  import DocumentLifecycle

  /** A live record holds the key of the request. */
  predicate KeyIsHeld(db: Tables, c: Command, at: int) {
    (c.slug, c.key) in db.records && at < db.records[(c.slug, c.key)].expiresAt
  }

  /** The two required consents in either order, the privacy one for the version's own notice. */
  predicate GivesConsents(consents: seq<Consent>, notice: Option<nat>) {
    |consents| == 2 && notice != None &&
    (exists i :: 0 <= i < 2 && consents[i] == Consent(PrivacyNotice, notice.value) &&
      consents[1 - i].kind == InformationAccuracy)
  }

  predicate NoneTwice(ids: seq<DocumentId>) {
    forall i, j :: 0 <= i < |ids| && 0 <= j < |ids| && ids[i] == ids[j] ==> i == j
  }

  /** A verified document of the draft that the malware policy lets pass. */
  predicate FitToLink(row: Row, draft: DraftId, scanRequired: bool) {
    row.draft == Some(draft) && row.status == DocumentLifecycle.Verified &&
    (if scanRequired then row.scan == Clean else row.scan in {Clean, NotRun})
  }

  predicate AllFit(table: map<DocumentId, Row>, ids: seq<DocumentId>, draft: DraftId, scanRequired: bool) {
    forall d :: d in ids ==> d in table && FitToLink(table[d], draft, scanRequired)
  }

  function OfCategory(table: map<DocumentId, Row>, ids: seq<DocumentId>, category: Category): set<DocumentId> {
    set d | d in ids && d in table && table[d].category == category
  }

  /** A category has enough documents and not too many; a waiver excuses missing proofs of purchase only. */
  predicate Enough(rule: Rule, count: nat, waives: bool) {
    count <= rule.maximumFiles &&
    ((waives && rule.category == ProofOfPurchase) ||
      (count >= rule.minimumFiles && !(rule.required && count == 0)))
  }

  predicate AllEnough(table: map<DocumentId, Row>, ids: seq<DocumentId>, rules: seq<Rule>, waives: bool) {
    forall r :: r in rules ==> Enough(r, |OfCategory(table, ids, r.category)|, waives)
  }

  predicate Joined(db: Tables, d: DraftId) {
    d in db.drafts && db.drafts[d].campaign in db.campaigns && db.drafts[d].version in db.versions
  }

  /** The draft is the caller's, live, and of an active campaign under the slug that was asked for. */
  predicate LiveDraft(db: Tables, c: Command, at: int) {
    Joined(db, c.body.draft) &&
    var draft := db.drafts[c.body.draft];
    draft.token == c.body.token && draft.status == Active && at < draft.expiresAt &&
    db.campaigns[draft.campaign].slug == c.slug && db.campaigns[draft.campaign].active &&
    db.versions[draft.version].campaign == draft.campaign
  }

  predicate FitRequest(db: Tables, scanRequired: bool, c: Command, facts: Facts)
    requires Joined(db, c.body.draft)
  {
    var version := db.versions[db.drafts[c.body.draft].version];
    GivesConsents(c.body.consents, version.privacyNotice) && NoneTwice(c.body.documents) && facts.campaignDataValid &&
    AllFit(db.documents, c.body.documents, c.body.draft, scanRequired) &&
    AllEnough(db.documents, c.body.documents, version.rules, facts.waivesPurchaseProof)
  }

  lemma SameCounts(table: map<DocumentId, Row>, ids: seq<DocumentId>, category: Category)
    ensures InCategory(table, Ids(ids), category) == OfCategory(table, ids, category)
  {
  }

  lemma FitIsSubmittable(d: DocumentId, row: Row, draft: DraftId, scanRequired: bool)
    ensures Submittable(Selected(d, row), draft, scanRequired) <==> FitToLink(row, draft, scanRequired)
  {
  }

  lemma FitOnTheRows(db: Tables, scanRequired: bool, c: Command, rules: seq<Rule>, waives: bool)
    ensures DocumentsFit(db.documents, c.body.documents, c.body.draft, scanRequired) <==>
      AllFit(db.documents, c.body.documents, c.body.draft, scanRequired)
    ensures RulesMet(db.documents, c.body.documents, rules, waives) <==>
      AllEnough(db.documents, c.body.documents, rules, waives)
  {
    forall d | d in db.documents
      ensures Submittable(Selected(d, db.documents[d]), c.body.draft, scanRequired) <==>
        FitToLink(db.documents[d], c.body.draft, scanRequired)
    {
      FitIsSubmittable(d, db.documents[d], c.body.draft, scanRequired);
    }
    forall category ensures
      InCategory(db.documents, Ids(c.body.documents), category) == OfCategory(db.documents, c.body.documents, category)
    {
      SameCounts(db.documents, c.body.documents, category);
    }
  }

  lemma ConsentsOnTheRows(consents: seq<Consent>, notice: Option<nat>)
    ensures ConsentsAccepted(consents, notice) <==> GivesConsents(consents, notice)
  {
    if |consents| == 2 && notice != None {
      assert consents[1 - 1] == consents[0] && consents[1 - 0] == consents[1];
    }
  }

  /** A submission is let through exactly for a complete and fit request on a live draft under a free key. */
  lemma ReadyIsExact(db: Tables, scanRequired: bool, c: Command, at: int, facts: Facts)
    ensures Prepare(db, scanRequired, c, at, facts).Ready? <==>
      c.body.complete && LiveDraft(db, c, at) && !KeyIsHeld(db, c, at) && FitRequest(db, scanRequired, c, facts)
    ensures !c.body.complete ==> Prepare(db, scanRequired, c, at, facts) == Answered(Err(Invalid))
    ensures Prepare(db, scanRequired, c, at, facts).Ready? ==>
      Prepare(db, scanRequired, c, at, facts) == Ready(Pending(c, at, facts, (c.slug, c.key) in db.records))
  {
    if Joined(db, c.body.draft) {
      var version := db.versions[db.drafts[c.body.draft].version];
      ConsentsOnTheRows(c.body.consents, version.privacyNotice);
      FitOnTheRows(db, scanRequired, c, version.rules, facts.waivesPurchaseProof);
    }
    hide DocumentsFit, RulesMet, AllFit, AllEnough, ConsentsAccepted, GivesConsents;
  }

  /** Without the draft's token a caller learns nothing: the answer is the one for a draft that does not exist. */
  lemma TokensGuard(db: Tables, scanRequired: bool, c: Command, at: int, facts: Facts)
    requires c.body.complete && (Joined(db, c.body.draft) ==> db.drafts[c.body.draft].token != c.body.token)
    ensures Prepare(db, scanRequired, c, at, facts) == Answered(Err(DraftExpiredOrInvalid))
  {
  }

  /** What a caller with the token is told when the submission is not let through. */
  lemma RefusalsAreExact(db: Tables, scanRequired: bool, c: Command, at: int, facts: Facts)
    requires c.body.complete && Joined(db, c.body.draft) && db.drafts[c.body.draft].token == c.body.token
    ensures var draft := db.drafts[c.body.draft];
      var outcome := Prepare(db, scanRequired, c, at, facts);
      (outcome == Answered(Err(DraftExpiredOrInvalid)) <==>
        draft.status in {Expired, Abandoned} || (draft.status == Active && at >= draft.expiresAt)) &&
      (outcome == Answered(Err(CampaignNotFound)) <==>
        draft.status == Active && at < draft.expiresAt && !LiveDraft(db, c, at)) &&
      (outcome == Answered(Err(Conflict)) <==>
        (draft.status == Submitted || LiveDraft(db, c, at)) &&
        (draft.status == Submitted || KeyIsHeld(db, c, at)) &&
        (KeyIsHeld(db, c, at) ==> db.records[(c.slug, c.key)].request != c.body)) &&
      (outcome == Answered(Err(Invalid)) <==>
        LiveDraft(db, c, at) && !KeyIsHeld(db, c, at) && !FitRequest(db, scanRequired, c, facts))
  {
    ReadyIsExact(db, scanRequired, c, at, facts);
    hide FitRequest, DocumentsFit, RulesMet, ConsentsAccepted, Distinct;
  }

  // ---- a submission from start to end ---------------------------------------------

  /** Nothing in the way of a new submission: no other one holds its draft or its key. */
  ghost predicate Unhindered(w: World, t: TxId, c: Command) {
    t !in w.open && forall u :: u in w.open ==>
      w.open[u].command.body.draft != c.body.draft &&
      (w.open[u].command.slug, w.open[u].command.key) != (c.slug, c.key)
  }

  /** Somebody else's reference is not among the candidates, one of them at least. */
  ghost predicate FreeCandidate(db: Tables, candidates: seq<Reference>) {
    exists r :: r in candidates && forall c :: c in db.cases ==> db.cases[c].reference != r
  }

  /**
   * Whoever is let through and is not hindered gets a case: submitting from start to end commits,
   * with a free reference, the draft submitted for the case, exactly its documents linked, and the
   * answer on record for 24 hours.
   */
  lemma SubmissionOpensACase(w: World, scanRequired: bool, t: TxId, c: Command, at: int, facts: Facts)
    requires c.body.complete && LiveDraft(w.db, c, at) && !KeyIsHeld(w.db, c, at)
    requires FitRequest(w.db, scanRequired, c, facts) && Unhindered(w, t, c)
    requires facts.caseId !in w.db.cases && FreeCandidate(w.db, facts.candidates)
    ensures var steps := [Begin(t, c, at, facts), End(t)];
      Runs(w, scanRequired, steps) &&
      var end := Final(w, scanRequired, steps);
      end.open == w.open && facts.caseId in end.db.cases && c.body.draft in end.db.drafts &&
      (c.slug, c.key) in end.db.records &&
      var made, record := end.db.cases[facts.caseId], end.db.records[(c.slug, c.key)];
      made == Case(made.reference, c.body.draft, (set d | d in c.body.documents), at) &&
      made.reference in facts.candidates &&
      (forall other :: other in w.db.cases ==>
        other in end.db.cases && end.db.cases[other] == w.db.cases[other] &&
        w.db.cases[other].reference != made.reference) &&
      end.db.drafts[c.body.draft] ==
        w.db.drafts[c.body.draft].(status := Submitted, submittedCase := Some(facts.caseId)) &&
      record == Record(c.body, Response(made.reference, at, facts.disposalTask), facts.caseId, at + 86400000)
  {
    var steps := [Begin(t, c, at, facts), End(t)];
    ReadyIsExact(w.db, scanRequired, c, at, facts);
    var p := Pending(c, at, facts, (c.slug, c.key) in w.db.records);
    assert !DraftLocked(w.open, c.body.draft);
    hide Prepare, LiveDraft, FitRequest;
    var begun := World(w.db, w.open[t := p]);
    assert Enabled(w, scanRequired, steps[0]) && Next(w, scanRequired, steps[0]) == begun;
    FreeIsFound(w.db, facts.candidates);
    assert Finish(w.db, p).Commit?;
    var end := World(Finish(w.db, p).state, begun.open - {t});
    assert begun.open - {t} == w.open;
    assert Enabled(begun, scanRequired, steps[1]) && Next(begun, scanRequired, steps[1]) == end;
    assert steps[1..] == [End(t)] && steps[1..][1..] == [];
    assert Runs(end, scanRequired, []) && Final(end, scanRequired, []) == end;
    assert Runs(begun, scanRequired, steps[1..]) && Final(begun, scanRequired, steps[1..]) == end;
    forall other | other in w.db.cases ensures w.db.cases[other].reference in References(w.db.cases) {
    }
  }

  lemma {:induction false} FreeIsFound(db: Tables, candidates: seq<Reference>)
    requires FreeCandidate(db, candidates)
    ensures FirstFree(candidates, References(db.cases)).Some?
  {
    var r :| r in candidates && forall c :: c in db.cases ==> db.cases[c].reference != r;
    assert r !in References(db.cases);
  }

  /** The first candidate in order that nobody has. */
  lemma {:induction false} FirstFreeIsFirst(candidates: seq<Reference>, taken: set<Reference>, k: nat)
    requires k < |candidates| && candidates[k] !in taken && forall j :: 0 <= j < k ==> candidates[j] in taken
    ensures FirstFree(candidates, taken) == Some(candidates[k])
    decreases k
  {
    if k > 0 {
      FirstFreeIsFirst(candidates[1..], taken, k - 1);
    }
  }

  /** A stored answer tells the truth: in every reachable world it is the one of the case it opened. */
  lemma RecordsTellTheTruth(w: World, scanRequired: bool, steps: seq<Step>, k: (Slug, IdempotencyKey))
    requires Fresh(w) && Runs(w, scanRequired, steps) && k in Final(w, scanRequired, steps).db.records
    ensures var db := Final(w, scanRequired, steps).db; var r := db.records[k];
      r.caseId in db.cases && db.cases[r.caseId].draft == r.request.draft &&
      db.cases[r.caseId].reference == r.response.reference &&
      db.cases[r.caseId].submittedAt == r.response.submittedAt &&
      r.expiresAt == r.response.submittedAt + 86400000
  {
    RunKeepsInv(w, scanRequired, steps);
  }

  // ---- what others may do, and when a submission waits ------------------------------

  /** A call that is answered from what is there waits for its draft only, never for somebody else's key. */
  lemma AnswersDoNotWait(w: World, scanRequired: bool, t: TxId, c: Command, at: int, facts: Facts)
    requires t !in w.open && forall u :: u in w.open ==> w.open[u].command.body.draft != c.body.draft
    requires Prepare(w.db, scanRequired, c, at, facts).Answered? || (c.slug, c.key) !in w.db.records
    ensures Enabled(w, scanRequired, Begin(t, c, at, facts))
  {
    hide Prepare;
  }

  /** An open submission can always roll back, and leaves no trace. */
  lemma RollbackLeavesNothing(w: World, scanRequired: bool, t: TxId)
    requires t in w.open
    ensures Enabled(w, scanRequired, Drop(t)) && Next(w, scanRequired, Drop(t)).db == w.db &&
      t !in Next(w, scanRequired, Drop(t)).open
  {
  }

  /** Meanwhile others may start drafts, end unlocked ones, and upload documents. */
  lemma OthersMayWork(
      open: map<TxId, Pending>, db: Tables, d: DraftId, draft: Draft, id: DocumentId, row: Row)
    requires draft.status != Submitted && (d in db.drafts ==> db.drafts[d].status != Submitted && !DraftLocked(open, d))
    requires row.caseId == None && (id in db.documents ==>
      db.documents[id].caseId == None && !DocumentLocked(open, id))
    ensures OtherWork(open, db, db)
    ensures OtherWork(open, db, db.(drafts := db.drafts[d := draft], documents := db.documents[id := row]))
  {
  }

  /** They may not touch what is submitted, linked or locked, nor submit or link anything themselves. */
  lemma OthersKeepAway(open: map<TxId, Pending>, before: Tables, after: Tables, d: DraftId, id: DocumentId)
    requires OtherWork(open, before, after)
    ensures after.cases == before.cases && after.records == before.records
    ensures d in before.drafts && (before.drafts[d].status == Submitted || DraftLocked(open, d)) ==>
      d in after.drafts && after.drafts[d] == before.drafts[d]
    ensures d in after.drafts && after.drafts[d].status == Submitted ==>
      d in before.drafts && before.drafts[d].status == Submitted
    ensures id in before.documents && (before.documents[id].caseId != None || DocumentLocked(open, id)) ==>
      id in after.documents && after.documents[id] == before.documents[id]
    ensures id in after.documents && after.documents[id].caseId != None ==>
      id in before.documents && before.documents[id].caseId == after.documents[id].caseId
  {
  }
}
