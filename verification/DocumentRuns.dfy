/**
 * The document service's operations are runs of the interleaving protocol, whatever others do
 * between their statements: what the protocol keeps, the service keeps.
 */
module DocumentRuns {
  import opened Prelude
  import opened DocumentLifecycle
  import opened DocumentServices

  // ---- uploads and deletions -------------------------------------------------

  function Insertion(u: DocumentServices.Upload, slot: nat): Step {
    Insert(u.doc, u.draft, u.category, slot, u.path, u.declared, u.expiresAt)
  }

  /** A fresh document id, in the pathname as well. */
  predicate Fresh(s: State, u: DocumentServices.Upload) {
    u.doc !in s.known && u.doc !in s.evidence && u.path.doc == u.doc
  }

  /**
   * An authorised upload is one insert at the instant its slot was free, and a failed one that is
   * taken back leaves the table as it found it.
   */
  lemma UploadIsARun(s: State, u: DocumentServices.Upload, slot: nat)
    requires Fresh(s, u) && Fits(s.docs, u, slot) && 1 <= slot <= MaximumFiles(s.limits, u.draft, u.category)
    ensures Runs(s, [Insertion(u, slot)])
    ensures Final(s, [Insertion(u, slot)]).docs == s.docs[u.doc := Authorised(u, slot)]
    ensures var both := [Insertion(u, slot), DropRow(u.doc)]; Runs(s, both) && Final(s, both).docs == s.docs
  {
    var placed := Next(s, Insertion(u, slot));
    OneStep(s, Insertion(u, slot));
    OneStep(placed, DropRow(u.doc));
    RunsAppend(s, [Insertion(u, slot)], [DropRow(u.doc)]);
    assert [Insertion(u, slot)] + [DropRow(u.doc)] == [Insertion(u, slot), DropRow(u.doc)];
    assert s.docs[u.doc := Authorised(u, slot)] - {u.doc} == s.docs;
  }

  /** A deletion is scheduled exactly when the protocol's guarded update is possible, and does the same. */
  lemma DeletionIsAStep(s: State, draft: DraftId, d: DocId, now: int)
    requires now <= s.clock
    ensures Enabled(s, DraftDelete(d, draft, now)) <==>
      d in s.docs && s.docs[d].draft == Some(draft) && s.docs[d].caseId.None? && Deletable(s.docs[d].status) &&
      !Retained(s.evidence, d, now)
    ensures Enabled(s, DraftDelete(d, draft, now)) ==>
      Next(s, DraftDelete(d, draft, now)).docs == s.docs[d := Discarded(s.docs[d])] &&
      Discarded(s.docs[d]).status == DeletionPending && Discarded(s.docs[d]).slot == None &&
      Discarded(s.docs[d]).path == s.docs[d].path
  {
  }

  /** The rule of a category: the campaign's own, else for disposal photos ten of up to ten megabytes, else none. */
  lemma RuleOfCategory(
      rules: map<(nat, Category), EvidenceRule>, version: nat, category: Category, imageTypes: set<Mime>)
    ensures var rule := EffectiveRule(rules, version, category, imageTypes);
      if (version, category) in rules then rule == Some(rules[(version, category)])
      else if category == DisposalEvidence then
        rule.Some? && rule.value.maximumFiles == 10 && rule.value.maximumBytes == 10 * 1024 * 1024 &&
        rule.value.allowed == imageTypes
      else rule == None
  {
  }

  /** The slots of the protocol are those of the rules. */
  lemma SlotsAreTheRules(
      limits: map<(DraftId, Category), nat>, rules: map<(nat, Category), EvidenceRule>, draft: DraftId, version: nat,
      category: Category, imageTypes: set<Mime>)
    requires (draft, category) in limits <==> (version, category) in rules
    requires (draft, category) in limits ==> limits[(draft, category)] == rules[(version, category)].maximumFiles
    ensures var rule := EffectiveRule(rules, version, category, imageTypes);
      MaximumFiles(limits, draft, category) == if rule.Some? then rule.value.maximumFiles else 0
  {
  }

  /** An upload fits a slot exactly when its id and pathname are new and nobody of the draft holds the slot. */
  lemma FittingIsExact(docs: map<DocId, Doc>, u: DocumentServices.Upload, slot: nat)
    ensures Fits(docs, u, slot) <==>
      u.doc !in docs && forall e :: e in docs ==>
        docs[e].path != u.path &&
        (docs[e].draft == Some(u.draft) && docs[e].category == u.category ==> docs[e].slot != Some(slot))
  {
  }

  /** A photo is removed by its owner while it is neither used nor under review, and its slot is free again. */
  lemma EvidenceRemovalIsExact(s: State, d: DocId, draft: DraftId, asOf: int)
    requires asOf <= s.clock
    ensures Enabled(s, EvidenceDelete(d, draft, asOf)) <==>
      d in s.docs && s.docs[d].draft == Some(draft) && s.docs[d].category == DisposalEvidence &&
      s.docs[d].status in {Authorized, Uploaded, Verified, Rejected} &&
      (d in s.evidence ==> s.evidence[d] != None && s.evidence[d].value <= asOf)
    ensures Enabled(s, EvidenceDelete(d, draft, asOf)) ==>
      var t := Next(s, EvidenceDelete(d, draft, asOf));
      t.docs.Keys == s.docs.Keys && t.docs[d].status == DeletionPending && t.docs[d].slot == None &&
      t.bytes == s.bytes && forall e :: e in s.docs && e != d ==> t.docs[e] == s.docs[e]
  {
  }

  /** Evidence is submitted only while it is verified, of its category and in no batch; it is then retained. */
  lemma SubmittingIsExact(s: State, ds: set<DocId>, retentionUntil: Option<int>)
    ensures Enabled(s, SubmitEvidence(ds, retentionUntil)) <==>
      forall d :: d in ds ==>
        d in s.docs && s.docs[d].status == Verified && s.docs[d].category == DisposalEvidence && d !in s.evidence
    ensures Enabled(s, SubmitEvidence(ds, retentionUntil)) ==>
      var t := Next(s, SubmitEvidence(ds, retentionUntil));
      t.docs == s.docs && t.evidence.Keys == s.evidence.Keys + ds &&
      forall d :: d in t.evidence ==> t.evidence[d] == if d in ds then retentionUntil else s.evidence[d]
  {
  }

  /** A claim links documents only while they are verified and its draft's own. */
  lemma LinkingIsExact(s: State, ds: set<DocId>, draft: DraftId, c: CaseId)
    ensures Enabled(s, LinkClaim(ds, draft, c)) <==>
      forall d :: d in ds ==> d in s.docs && s.docs[d].status == Verified && s.docs[d].draft == Some(draft)
    ensures Enabled(s, LinkClaim(ds, draft, c)) ==>
      var t := Next(s, LinkClaim(ds, draft, c));
      t.docs.Keys == s.docs.Keys &&
      forall d :: d in s.docs ==>
        if d in ds then t.docs[d].status == Linked && t.docs[d].caseId == Some(c) && t.docs[d].slot == None
        else t.docs[d] == s.docs[d]
  {
  }

  /** Bytes can arrive late for any document that was ever known, workers stop anywhere, and time may stand still. */
  lemma AnythingCanHappen(s: State, p: Path, w: WorkerId, now: int)
    ensures p.doc in s.known ==> Enabled(s, Step.Upload(p)) && Next(s, Step.Upload(p)).bytes == s.bytes + {p}
    ensures w in s.workers ==> Enabled(s, Stop(w)) && Next(s, Stop(w)) == s.(workers := s.workers - {w})
    ensures now >= s.clock ==> Enabled(s, Tick(now)) && Next(s, Tick(now)) == s.(clock := now)
  {
  }

  // ---- callbacks --------------------------------------------------------------

  /** A step of somebody else than callback `id`. */
  predicate Others(step: Step, id: nat) {
    match step
    case CallbackReads(i, _, _, _) => i != id
    case CallbackLands(i) => i != id
    case CallbackDecides(i) => i != id
    case CallbackStops(i) => i != id
    case _ => true
  }

  lemma {:induction false} OthersKeepCallback(s: State, steps: seq<Step>, id: nat)
    requires Runs(s, steps) && id in s.callbacks && forall step :: step in steps ==> Others(step, id)
    ensures id in Final(s, steps).callbacks && Final(s, steps).callbacks[id] == s.callbacks[id]
    decreases |steps|
  {
    if steps != [] {
      assert Others(steps[0], id);
      OthersKeepCallback(Next(s, steps[0]), steps[1..], id);
    }
  }

  /** Reading, and whatever others do before the first update. */
  lemma CallbackReadsFirst(s: State, id: nat, d: DocId, path: Path, detected: Mime, first: seq<Step>)
    requires d in s.docs && path.doc == d && s.docs[d].status in {Authorized, DeletionPending}
    requires forall step :: step in first ==> Others(step, id)
    requires Runs(Next(s, CallbackReads(id, d, path, detected)), first)
    ensures var steps := [CallbackReads(id, d, path, detected)] + first;
      Runs(s, steps) && id in Final(s, steps).callbacks &&
      Final(s, steps).callbacks[id] == Saw(d, s.docs[d].status, path, detected) &&
      Final(s, steps) == Final(Next(s, CallbackReads(id, d, path, detected)), first)
  {
    var look := CallbackReads(id, d, path, detected);
    OneStep(s, look);
    OthersKeepCallback(Next(s, look), first, id);
    RunsAppend(s, [look], first);
  }

  /** The first update, and whatever others do before the verdict. */
  lemma CallbackLandsNext(s: State, id: nat, second: seq<Step>)
    requires id in s.callbacks && s.callbacks[id].Saw?
    requires s.callbacks[id].status != DeletionPending && forall step :: step in second ==> Others(step, id)
    requires Runs(Next(s, CallbackLands(id)), second)
    ensures var steps, c := [CallbackLands(id)] + second, s.callbacks[id];
      Runs(s, steps) && id in Final(s, steps).callbacks &&
      Final(s, steps).callbacks[id] == Landed(c.doc, c.detected) &&
      Final(s, steps) == Final(Next(s, CallbackLands(id)), second)
  {
    OneStep(s, CallbackLands(id));
    OthersKeepCallback(Next(s, CallbackLands(id)), second, id);
    RunsAppend(s, [CallbackLands(id)], second);
  }

  /** The callback's own last step, if it has one after the others acted. */
  function LastStep(id: nat, fault: Fault): Step {
    if fault in {AtFirstUpdate, AtVerdict} then CallbackStops(id) else CallbackDecides(id)
  }

  /**
   * A callback that reads a row to work on is a run of the protocol in which others take the
   * steps `first` before its first update and `second` before its verdict, and both leave the
   * same table. `second` counts only where the method gets as far.
   */
  lemma CallbackIsARun(
      s: State, id: nat, d: DocId, path: Path, detected: Mime, fault: Fault, first: seq<Step>, second: seq<Step>)
    returns (steps: seq<Step>)
    requires d in s.docs && path.doc == d && s.docs[d].status in {Authorized, DeletionPending}
    requires forall step :: step in first + second ==> Others(step, id)
    requires Runs(Next(s, CallbackReads(id, d, path, detected)), first)
    requires var t := Final(Next(s, CallbackReads(id, d, path, detected)), first);
      Enabled(t, CallbackLands(id)) ==> Runs(Next(t, CallbackLands(id)), second)
    ensures Runs(s, steps)
    ensures var t := Final(Next(s, CallbackReads(id, d, path, detected)), first);
      Enabled(t, CallbackLands(id)) &&
      Final(s, steps).docs == AfterCallback(
        s.docs, d, path, detected, fault, Some(t.docs), Some(Final(Next(t, CallbackLands(id)), second).docs))
  {
    assert forall step :: step in first || step in second ==> step in first + second;
    CallbackReadsFirst(s, id, d, path, detected, first);
    var before := [CallbackReads(id, d, path, detected)] + first;
    var t := Final(s, before);
    if fault == AtFirstUpdate {
      OneStep(t, CallbackStops(id));
      RunsAppend(s, before, [CallbackStops(id)]);
      steps := before + [CallbackStops(id)];
    } else if s.docs[d].status == DeletionPending {
      OneStep(t, CallbackLands(id));
      RunsAppend(s, before, [CallbackLands(id)]);
      steps := before + [CallbackLands(id)];
    } else {
      CallbackLandsNext(t, id, second);
      var u := Final(t, [CallbackLands(id)] + second);
      OneStep(u, LastStep(id, fault));
      RunsAppend(t, [CallbackLands(id)] + second, [LastStep(id, fault)]);
      RunsAppend(s, before, [CallbackLands(id)] + second + [LastStep(id, fault)]);
      steps := before + ([CallbackLands(id)] + second + [LastStep(id, fault)]);
    }
  }
}
