/**
 * The life of uploaded documents under every interleaving of uploads, provider callbacks, both
 * consumer delete routes, evidence submission, claim submission and any number of cleanup
 * workers. Removing bytes is irreversible, so what matters is who may still do it.
 */
module DocumentLifecycle {
  import opened Prelude

  type DocId = nat
  type DraftId = nat
  type CaseId = nat
  type WorkerId = nat
  type Mime = nat

  datatype Category = DisposalEvidence | Intake(kind: nat)

  datatype Status = Authorized | Uploaded | Verified | Linked | Rejected | DeletionPending | Deleted

  /** A storage pathname; the upload token puts the document id into it. */
  datatype Path = Path(doc: DocId, suffix: nat)

  datatype Doc = Doc(
    draft: Option<DraftId>, caseId: Option<CaseId>, category: Category, slot: Option<nat>,
    status: Status, path: Path, declared: Mime, expiresAt: int)

  /** A row of a worker's scan: the document and the pathname it had then. */
  datatype Row = Row(id: DocId, path: Path)

  /** `doomed` is the row whose bytes come next, `gone` the document whose bytes were just removed. */
  datatype Worker = Worker(sweep: seq<Row>, expired: seq<Row>, doomed: Option<Row>, gone: Option<DocId>)

  datatype Callback = Saw(doc: DocId, status: Status, path: Path, detected: Mime) | Landed(landedDoc: DocId,
    landedMime: Mime)

  /**
   * `evidence` maps a document in a disposal batch to that batch's retention deadline (a
   * document belongs to one batch at most); `known` holds every document id ever used.
   */
  datatype State = State(
    docs: map<DocId, Doc>, known: set<DocId>, evidence: map<DocId, Option<int>>, limits: map<(DraftId, Category), nat>,
    bytes: set<Path>, workers: map<WorkerId, Worker>, callbacks: map<nat, Callback>, clock: int)

  const CLEANUP_BATCH: nat := 100
  const DISPOSAL_EVIDENCE_FALLBACK: nat := 10

  predicate Deletable(st: Status) { st in {Authorized, Uploaded, Verified} }

  /** Statuses no document comes back from. */
  predicate Dead(st: Status) { st in {DeletionPending, Deleted} }

  /** Under evidence retention at an instant: in a batch without a deadline, or with one still ahead. */
  predicate Retained(evidence: map<DocId, Option<int>>, d: DocId, at: int) {
    d in evidence && (evidence[d].None? || evidence[d].value > at)
  }

  function MaximumFiles(limits: map<(DraftId, Category), nat>, draft: DraftId, category: Category): nat {
    if (draft, category) in limits then limits[(draft, category)]
    else if category == DisposalEvidence then DISPOSAL_EVIDENCE_FALLBACK else 0
  }

  predicate Holds(d: Doc, draft: DraftId, category: Category, slot: nat) {
    d.draft == Some(draft) && d.category == category && d.slot == Some(slot)
  }

  /** Whether the row insert of one upload attempt violates no unique index. */
  predicate Insertable(docs: map<DocId, Doc>, d: DocId, path: Path, draft: DraftId, category: Category, slot: nat) {
    d !in docs && forall e :: e in docs ==> docs[e].path != path && !Holds(docs[e], draft, category, slot)
  }

  datatype Step =
    | Insert(doc: DocId, draft: DraftId, category: Category, slot: nat, path: Path, declared: Mime, expiresAt: int)
    | DropRow(doc: DocId)
    | Upload(path: Path)
    | CallbackReads(id: nat, doc: DocId, path: Path, detected: Mime)
    | CallbackLands(id: nat)
    | CallbackDecides(id: nat)
    | CallbackStops(id: nat)
    | DraftDelete(doc: DocId, draft: DraftId, asOf: int)
    | EvidenceDelete(doc: DocId, draft: DraftId, asOf: int)
    | SubmitEvidence(docs: set<DocId>, retentionUntil: Option<int>)
    | LinkClaim(docs: set<DocId>, draft: DraftId, caseId: CaseId)
    | ScanPending(worker: WorkerId, rows: seq<Row>)
    | ScanExpired(worker: WorkerId, rows: seq<Row>, asOf: int)
    | Pick(worker: WorkerId)
    | Claim(worker: WorkerId, asOf: int)
    | Remove(worker: WorkerId, removed: bool)
    | Mark(worker: WorkerId)
    | Stop(worker: WorkerId)
    | Tick(now: int)

  predicate Idle(w: Worker) { w.doomed.None? && w.gone.None? }

  /**
   * When a step can happen. Token, draft and policy guards of the consumer routes are left
   * out: they only forbid more.
   */
  ghost predicate Enabled(s: State, step: Step) {
    match step
    case Insert(d, draft, category, slot, path, _, _) =>
      d !in s.known && path.doc == d && 1 <= slot <= MaximumFiles(s.limits, draft, category) &&
      Insertable(s.docs, d, path, draft, category, slot)
    case DropRow(d) => d in s.docs && d !in s.evidence && (s.docs[d].status == Authorized || Dead(s.docs[d].status))
    case Upload(path) => path.doc in s.known
    case CallbackReads(_, d, path, _) =>
      d in s.docs && path.doc == d && s.docs[d].status in {Authorized, DeletionPending}
    case CallbackLands(id) => id in s.callbacks && s.callbacks[id].Saw?
    case CallbackDecides(id) => id in s.callbacks && s.callbacks[id].Landed?
    case CallbackStops(id) => id in s.callbacks
    case DraftDelete(d, draft, asOf) =>
      d in s.docs && s.docs[d].draft == Some(draft) && s.docs[d].caseId.None? && Deletable(s.docs[d].status) &&
      asOf <= s.clock && !Retained(s.evidence, d, asOf)
    case EvidenceDelete(d, draft, asOf) =>
      d in s.docs && s.docs[d].draft == Some(draft) && s.docs[d].category == DisposalEvidence &&
      (Deletable(s.docs[d].status) || s.docs[d].status == Rejected) && asOf <= s.clock && !Retained(s.evidence, d, asOf)
    case SubmitEvidence(ds, _) =>
      forall d ::
        d in ds ==>
          d in s.docs && s.docs[d].status == Verified && s.docs[d].category == DisposalEvidence && d !in s.evidence
    case LinkClaim(ds, draft, _) =>
      forall d :: d in ds ==> d in s.docs && s.docs[d].status == Verified && s.docs[d].draft == Some(draft)
    case ScanPending(_, rows) =>
      |rows| <= CLEANUP_BATCH &&
      forall r :: r in rows ==> r.id in s.docs && r.path == s.docs[r.id].path && s.docs[r.id].status == DeletionPending
    case ScanExpired(w, rows, asOf) =>
      w in s.workers && |rows| <= CLEANUP_BATCH && asOf <= s.clock &&
      forall r :: r in rows ==>
        r.id in s.docs && r.path == s.docs[r.id].path && s.docs[r.id].expiresAt <= asOf && Claimable(s, r.id, asOf)
    case Pick(w) => w in s.workers && Idle(s.workers[w]) && s.workers[w].sweep != []
    case Claim(w, asOf) => w in s.workers && Idle(s.workers[w]) && s.workers[w].expired != [] && asOf <= s.clock
    case Remove(w, _) => w in s.workers && s.workers[w].doomed.Some?
    case Mark(w) => w in s.workers && s.workers[w].gone.Some?
    case Stop(w) => w in s.workers
    case Tick(now) => now >= s.clock
  }

  /** The claiming update succeeds only on a document that can be deleted and is not retained. */
  predicate Claimable(s: State, d: DocId, asOf: int) {
    d in s.docs && Deletable(s.docs[d].status) && !Retained(s.evidence, d, asOf)
  }

  function SetStatus(docs: map<DocId, Doc>, d: DocId, st: Status): map<DocId, Doc> {
    if d in docs then docs[d := docs[d].(status := st)] else docs
  }

  function Discarded(doc: Doc): Doc {
    doc.(status := DeletionPending, slot := None)
  }

  /** The first callback update, guarded by the status that was read before. */
  function Land(docs: map<DocId, Doc>, c: Callback): map<DocId, Doc>
    requires c.Saw?
  {
    if c.doc in docs && docs[c.doc].status == c.status then
      docs[c.doc := docs[c.doc].(
        path := c.path, status := if c.status == DeletionPending then DeletionPending else Uploaded)]
    else docs
  }

  /** The verdict of the second callback update. */
  function Decide(docs: map<DocId, Doc>, d: DocId, detected: Mime): map<DocId, Doc> {
    if d in docs && docs[d].status == Uploaded then
      if docs[d].declared != detected then docs[d := docs[d].(status := Rejected, slot := None)]
      else docs[d := docs[d].(status := Verified)]
    else docs
  }

  function LinkedTo(doc: Doc, c: CaseId): Doc {
    doc.(caseId := Some(c), draft := None, slot := None, status := Linked)
  }

  function Picked(me: Worker): Worker
    requires me.sweep != []
  {
    me.(doomed := Some(me.sweep[0]), sweep := me.sweep[1..])
  }

  /** The worker after trying to remove its doomed object. */
  function Emptied(me: Worker, removed: bool): Worker
    requires me.doomed.Some?
  {
    me.(doomed := None, gone := if removed then Some(me.doomed.value.id) else me.gone)
  }

  ghost function Next(s: State, step: Step): State
    requires Enabled(s, step)
  {
    match step
    case Insert(d, draft, category, slot, path, declared, expiresAt) =>
      s.(docs := s.docs[d := Doc(Some(draft), None, category, Some(slot), Authorized, path, declared, expiresAt)],
        known := s.known + {d})
    case DropRow(d) => s.(docs := s.docs - {d})
    case Upload(path) => s.(bytes := s.bytes + {path})
    case CallbackReads(id, d, path, detected) =>
      s.(callbacks := s.callbacks[id := Saw(d, s.docs[d].status, path, detected)])
    case CallbackLands(id) =>
      var c := s.callbacks[id];
      s.(docs := Land(s.docs, c),
         callbacks :=
           if c.status == DeletionPending then s.callbacks - {id} else s.callbacks[id := Landed(c.doc, c.detected)])
    case CallbackDecides(id) =>
      s.(docs := Decide(s.docs, s.callbacks[id].landedDoc, s.callbacks[id].landedMime), callbacks := s.callbacks - {id})
    case CallbackStops(id) => s.(callbacks := s.callbacks - {id})
    case DraftDelete(d, _, _) => s.(docs := s.docs[d := Discarded(s.docs[d])])
    case EvidenceDelete(d, _, _) => s.(docs := s.docs[d := Discarded(s.docs[d])])
    case SubmitEvidence(ds, retentionUntil) => s.(evidence := s.evidence + map d | d in ds :: retentionUntil)
    case LinkClaim(ds, _, c) => s.(docs := map d | d in s.docs :: if d in ds then LinkedTo(s.docs[d], c) else s.docs[d])
    case ScanPending(w, rows) => s.(workers := s.workers[w := Worker(rows, [], None, None)])
    case ScanExpired(w, rows, _) => s.(workers := s.workers[w := s.workers[w].(expired := rows)])
    case Pick(w) => s.(workers := s.workers[w := Picked(s.workers[w])])
    case Claim(w, asOf) =>
      var me := s.workers[w];
      var row := me.expired[0];
      if Claimable(s, row.id, asOf) then
        s.(docs := SetStatus(s.docs, row.id, DeletionPending),
          workers := s.workers[w := me.(doomed := Some(row), expired := me.expired[1..])])
      else s.(workers := s.workers[w := me.(expired := me.expired[1..])])
    case Remove(w, removed) =>
      s.(bytes := if removed then s.bytes - {s.workers[w].doomed.value.path} else s.bytes,
         workers := s.workers[w := Emptied(s.workers[w], removed)])
    case Mark(w) =>
      s.(docs := SetStatus(s.docs, s.workers[w].gone.value, Deleted),
        workers := s.workers[w := s.workers[w].(gone := None)])
    case Stop(w) => s.(workers := s.workers - {w})
    case Tick(now) => s.(clock := now)
  }

  // ---- deletion safety ----------------------------------------------------

  /** A document nobody can use any more: its row is dead, or dropped for good. */
  predicate Lost(docs: map<DocId, Doc>, known: set<DocId>, d: DocId) {
    d in known && (d in docs ==> Dead(docs[d].status))
  }

  /** A worker only ever removes, or marks, documents that are lost already. */
  ghost predicate Harmless(docs: map<DocId, Doc>, known: set<DocId>, w: Worker) {
    (forall r :: r in w.sweep || w.doomed == Some(r) ==> r.path.doc == r.id && Lost(docs, known, r.id)) &&
    (forall r :: r in w.expired ==> r.path.doc == r.id && r.id in known) &&
    (w.gone.Some? ==> Lost(docs, known, w.gone.value))
  }

  ghost predicate Sound(docs: map<DocId, Doc>, known: set<DocId>) {
    forall d :: d in docs ==> d in known && docs[d].path.doc == d
  }

  ghost predicate CallbacksSound(callbacks: map<nat, Callback>) {
    forall id :: id in callbacks && callbacks[id].Saw? ==>
      callbacks[id].path.doc == callbacks[id].doc && callbacks[id].status in {Authorized, DeletionPending}
  }

  /** No retained document is dead or dropped. */
  ghost predicate EvidenceKept(docs: map<DocId, Doc>, evidence: map<DocId, Option<int>>, clock: int) {
    forall d :: Retained(evidence, d, clock) ==> d in docs && !Dead(docs[d].status)
  }

  ghost predicate Inv(s: State) {
    Sound(s.docs, s.known) && CallbacksSound(s.callbacks) && EvidenceKept(s.docs, s.evidence, s.clock) &&
    forall w :: w in s.workers ==> Harmless(s.docs, s.known, s.workers[w])
  }

  /** No lost document is ever usable again. */
  lemma LostStaysLost(s: State, step: Step, d: DocId)
    requires CallbacksSound(s.callbacks) && Enabled(s, step) && Lost(s.docs, s.known, d)
    ensures Lost(Next(s, step).docs, Next(s, step).known, d)
  {
  }

  lemma StepKeepsSound(s: State, step: Step)
    requires Sound(s.docs, s.known) && CallbacksSound(s.callbacks) && Enabled(s, step)
    ensures Sound(Next(s, step).docs, Next(s, step).known) && CallbacksSound(Next(s, step).callbacks)
  {
  }

  /** A worker's lists stay harmless as long as nothing lost comes back. */
  lemma StaysHarmless(s: State, t: State, w: Worker)
    requires Harmless(s.docs, s.known, w) && s.known <= t.known
    requires forall d :: Lost(s.docs, s.known, d) ==> Lost(t.docs, t.known, d)
    ensures Harmless(t.docs, t.known, w)
  {
  }

  lemma WorkerStaysHarmless(docs: map<DocId, Doc>, known: set<DocId>, me: Worker, removed: bool)
    requires Harmless(docs, known, me)
    ensures me.sweep != [] ==> Harmless(docs, known, Picked(me))
    ensures me.doomed.Some? ==> Harmless(docs, known, Emptied(me, removed))
    ensures Harmless(docs, known, me.(gone := None))
  {
    if me.sweep != [] {
      assert me.sweep == [me.sweep[0]] + me.sweep[1..];
    }
  }

  lemma ScansAreHarmless(s: State, rows: seq<Row>, me: Worker)
    requires Sound(s.docs, s.known)
    ensures (forall r :: r in rows ==>
      r.id in s.docs && r.path == s.docs[r.id].path && s.docs[r.id].status == DeletionPending)
      ==> Harmless(s.docs, s.known, Worker(rows, [], None, None))
    ensures Harmless(s.docs, s.known, me) && (forall r :: r in rows ==> r.id in s.docs && r.path == s.docs[r.id].path)
      ==> Harmless(s.docs, s.known, me.(expired := rows))
  {
  }

  /** What one step makes of a worker's own record, on unchanged lists. */
  lemma NextWorkerIsHarmless(s: State, step: Step, w: WorkerId)
    requires Sound(s.docs, s.known) && (w in s.workers ==> Harmless(s.docs, s.known, s.workers[w]))
    requires Enabled(s, step) && w in Next(s, step).workers && !(step.Claim? && step.worker == w)
    ensures Harmless(s.docs, s.known, Next(s, step).workers[w])
  {
    if w in s.workers {
      WorkerStaysHarmless(s.docs, s.known, s.workers[w], step.Remove? && step.removed);
    }
    if step.ScanPending? || step.ScanExpired? {
      ScansAreHarmless(s, step.rows, if w in s.workers then s.workers[w] else Worker([], [], None, None));
    }
  }

  lemma StepKeepsHarmless(s: State, step: Step, w: WorkerId)
    requires Inv(s) && Enabled(s, step) && w in Next(s, step).workers
    ensures Harmless(Next(s, step).docs, Next(s, step).known, Next(s, step).workers[w])
  {
    var t := Next(s, step);
    forall d | Lost(s.docs, s.known, d) ensures Lost(t.docs, t.known, d) {
      LostStaysLost(s, step, d);
    }
    if step.Claim? && step.worker == w {
      ClaimIsHarmless(s, w, step.asOf);
    } else {
      assert w in s.workers ==> Harmless(s.docs, s.known, s.workers[w]);
      NextWorkerIsHarmless(s, step, w);
      StaysHarmless(s, t, t.workers[w]);
    }
  }

  lemma ClaimIsHarmless(s: State, w: WorkerId, asOf: int)
    requires Inv(s) && Enabled(s, Claim(w, asOf))
    ensures var t := Next(s, Claim(w, asOf)); Harmless(t.docs, t.known, t.workers[w])
  {
    assert Harmless(s.docs, s.known, s.workers[w]);
    assert s.workers[w].expired[0] in s.workers[w].expired;
  }

  /** What was under retention before a step and is after it stays alive through it. */
  lemma StepKeepsEvidence(s: State, step: Step)
    requires Inv(s) && Enabled(s, step)
    ensures EvidenceKept(Next(s, step).docs, Next(s, step).evidence, Next(s, step).clock)
  {
    var t := Next(s, step);
    if step.Mark? {
      assert Harmless(s.docs, s.known, s.workers[step.worker]);
    }
    forall d | Retained(t.evidence, d, t.clock) ensures d in t.docs && !Dead(t.docs[d].status) {
      assert d in s.evidence ==> Retained(s.evidence, d, s.clock);
    }
  }

  lemma StepKeepsInv(s: State, step: Step)
    requires Inv(s) && Enabled(s, step)
    ensures Inv(Next(s, step))
  {
    StepKeepsSound(s, step);
    StepKeepsEvidence(s, step);
    forall w | w in Next(s, step).workers
      ensures Harmless(Next(s, step).docs, Next(s, step).known, Next(s, step).workers[w])
    {
      StepKeepsHarmless(s, step, w);
    }
  }

  /** No step removes an object of a document that is under retention. */
  lemma RetainedBytesStay(s: State, step: Step, p: Path)
    requires Inv(s) && Enabled(s, step) && p in s.bytes && Retained(s.evidence, p.doc, s.clock)
    ensures p in Next(s, step).bytes
  {
    if step.Remove? {
      assert Harmless(s.docs, s.known, s.workers[step.worker]);
    }
  }

  /** A linked document stays exactly as it is. */
  lemma LinkedIsFrozen(s: State, step: Step, d: DocId)
    requires Inv(s) && Enabled(s, step) && d in s.docs && s.docs[d].status == Linked
    ensures d in Next(s, step).docs && Next(s, step).docs[d] == s.docs[d]
  {
    if step.Mark? {
      assert Harmless(s.docs, s.known, s.workers[step.worker]);
    }
  }

  // ---- whole runs ---------------------------------------------------------

  ghost predicate Runs(s: State, steps: seq<Step>)
    decreases |steps|
  {
    steps == [] || (Enabled(s, steps[0]) && Runs(Next(s, steps[0]), steps[1..]))
  }

  ghost function Final(s: State, steps: seq<Step>): State
    requires Runs(s, steps)
    decreases |steps|
  {
    if steps == [] then s else Final(Next(s, steps[0]), steps[1..])
  }

  function Start(limits: map<(DraftId, Category), nat>, clock: int): State {
    State(map[], {}, map[], limits, {}, map[], map[], clock)
  }

  lemma {:induction false} RunsAppend(s: State, a: seq<Step>, b: seq<Step>)
    requires Runs(s, a) && Runs(Final(s, a), b)
    ensures Runs(s, a + b) && Final(s, a + b) == Final(Final(s, a), b)
    decreases |a|
  {
    hide Enabled, Next;
    if a == [] {
      assert a + b == b;
    } else {
      assert (a + b)[1..] == a[1..] + b;
      RunsAppend(Next(s, a[0]), a[1..], b);
    }
  }

  lemma OneStep(s: State, step: Step)
    requires Enabled(s, step)
    ensures Runs(s, [step]) && Final(s, [step]) == Next(s, step)
  {
    hide Enabled, Next;
    assert [step][1..] == [];
    assert Runs(Next(s, step), []);
  }

  lemma {:induction false} RunKeepsInv(s: State, steps: seq<Step>)
    requires Inv(s) && Runs(s, steps)
    ensures Inv(Final(s, steps))
    decreases |steps|
  {
    if steps != [] {
      StepKeepsInv(s, steps[0]);
      RunKeepsInv(Next(s, steps[0]), steps[1..]);
    }
  }

  /** In every interleaving a document under retention is neither deleted nor waiting to be. */
  lemma EvidenceIsNeverDeleted(limits: map<(DraftId, Category), nat>, clock: int, steps: seq<Step>, d: DocId)
    requires Runs(Start(limits, clock), steps)
    ensures var s := Final(Start(limits, clock), steps);
      Retained(s.evidence, d, s.clock) ==> d in s.docs && s.docs[d].status !in {DeletionPending, Deleted}
  {
    RunKeepsInv(Start(limits, clock), steps);
  }

  /** Retention is never granted back: what is retained at the end was retained all along. */
  lemma {:induction false} RetainedThroughout(s: State, steps: seq<Step>, d: DocId)
    requires Runs(s, steps) && d in s.evidence
    ensures d in Final(s, steps).evidence && Final(s, steps).evidence[d] == s.evidence[d] &&
      s.clock <= Final(s, steps).clock
    decreases |steps|
  {
    if steps != [] {
      RetainedThroughout(Next(s, steps[0]), steps[1..], d);
    }
  }

  /** Bytes of submitted evidence are there for as long as its retention lasts. */
  lemma {:induction false} EvidenceBytesAreKept(s: State, steps: seq<Step>, p: Path)
    requires Inv(s) && Runs(s, steps) && p in s.bytes && p.doc in s.evidence
    requires Retained(Final(s, steps).evidence, p.doc, Final(s, steps).clock)
    ensures p in Final(s, steps).bytes
    decreases |steps|
  {
    if steps != [] {
      RetainedThroughout(s, steps, p.doc);
      RetainedBytesStay(s, steps[0], p);
      StepKeepsInv(s, steps[0]);
      hide Next, Enabled, Inv;
      EvidenceBytesAreKept(Next(s, steps[0]), steps[1..], p);
    }
  }

  /** Over any run a linked document keeps its case, its status and its bytes' pathname. */
  lemma {:induction false} LinkedForever(s: State, steps: seq<Step>, d: DocId)
    requires Inv(s) && Runs(s, steps) && d in s.docs && s.docs[d].status == Linked
    ensures d in Final(s, steps).docs && Final(s, steps).docs[d] == s.docs[d]
    decreases |steps|
  {
    if steps != [] {
      LinkedIsFrozen(s, steps[0], d);
      StepKeepsInv(s, steps[0]);
      LinkedForever(Next(s, steps[0]), steps[1..], d);
    }
  }

  // ---- slots --------------------------------------------------------------

  predicate SameSlot(a: Doc, b: Doc) {
    a.slot.Some? && a.slot == b.slot && a.draft == b.draft && a.category == b.category
  }

  /** Held slots lie within the rule's maximum and are distinct per draft and category. */
  ghost predicate SlotsHeld(docs: map<DocId, Doc>, limits: map<(DraftId, Category), nat>) {
    (forall d :: d in docs && docs[d].slot.Some? ==>
      docs[d].draft.Some? && 1 <= docs[d].slot.value <= MaximumFiles(limits, docs[d].draft.value, docs[d].category)) &&
    (forall d, e :: d in docs && e in docs && SameSlot(docs[d], docs[e]) ==> d == e)
  }

  /** Every row kept its slot or gave it up. */
  ghost predicate OnlyFreed(docs: map<DocId, Doc>, docs': map<DocId, Doc>) {
    forall d :: d in docs' ==> d in docs && (docs'[d].slot.None? || SameSlot(docs'[d], docs[d]))
  }

  lemma FreeingKeepsSlots(docs: map<DocId, Doc>, docs': map<DocId, Doc>, limits: map<(DraftId, Category), nat>)
    requires SlotsHeld(docs, limits) && OnlyFreed(docs, docs')
    ensures SlotsHeld(docs', limits)
  {
    forall d, e | d in docs' && e in docs' && SameSlot(docs'[d], docs'[e]) ensures d == e {
      assert SameSlot(docs[d], docs[e]);
    }
  }

  lemma InsertKeepsSlots(
      docs: map<DocId, Doc>, limits: map<(DraftId, Category), nat>, d: DocId, row: Doc, draft: DraftId,
      slot: nat)
    requires SlotsHeld(docs, limits) && row.draft == Some(draft) && row.slot == Some(slot)
    requires 1 <= slot <= MaximumFiles(limits, draft, row.category) &&
      Insertable(docs, d, row.path, draft, row.category, slot)
    ensures SlotsHeld(docs[d := row], limits)
  {
    forall e | e in docs ensures !SameSlot(row, docs[e]) {
      assert !Holds(docs[e], draft, row.category, slot);
    }
  }

  lemma StepKeepsSlots(s: State, step: Step)
    requires SlotsHeld(s.docs, s.limits) && Enabled(s, step)
    ensures SlotsHeld(Next(s, step).docs, s.limits) && Next(s, step).limits == s.limits
  {
    if step.Insert? {
      InsertKeepsSlots(s.docs, s.limits, step.doc, Next(s, step).docs[step.doc], step.draft, step.slot);
    } else {
      StepOnlyFrees(s, step);
      FreeingKeepsSlots(s.docs, Next(s, step).docs, s.limits);
    }
  }

  lemma StepOnlyFrees(s: State, step: Step)
    requires Enabled(s, step) && !step.Insert?
    ensures OnlyFreed(s.docs, Next(s, step).docs)
  {
  }

  lemma {:induction false} RunKeepsSlots(s: State, steps: seq<Step>)
    requires SlotsHeld(s.docs, s.limits) && Runs(s, steps)
    ensures SlotsHeld(Final(s, steps).docs, s.limits)
    decreases |steps|
  {
    if steps != [] {
      hide Next, Enabled;
      StepKeepsSlots(s, steps[0]);
      RunKeepsSlots(Next(s, steps[0]), steps[1..]);
    }
  }

  ghost function Holders(docs: map<DocId, Doc>, draft: DraftId, category: Category): set<DocId> {
    set d | d in docs && docs[d].draft == Some(draft) && docs[d].category == category && docs[d].slot.Some?
  }

  /** Distinct documents in distinct slots below `n` are at most `n`. */
  lemma {:induction false} Pigeonhole(docs: map<DocId, Doc>, holders: set<DocId>, n: nat)
    requires forall d :: d in holders ==> d in docs && docs[d].slot.Some? && 1 <= docs[d].slot.value <= n
    requires forall d, e :: d in holders && e in holders && docs[d].slot == docs[e].slot ==> d == e
    ensures |holders| <= n
    decreases n
  {
    if d :| d in holders && docs[d].slot.value == n {
      Pigeonhole(docs, holders - {d}, n - 1);
    } else if n > 0 {
      Pigeonhole(docs, holders, n - 1);
    } else {
      assert holders == {};
    }
  }

  /** In every interleaving a draft holds at most as many slots of a category as its rule allows. */
  lemma SlotsAreLimited(
      limits: map<(DraftId, Category), nat>, clock: int, steps: seq<Step>, draft: DraftId,
      category: Category)
    requires Runs(Start(limits, clock), steps)
    ensures |Holders(Final(Start(limits, clock), steps).docs, draft, category)| <= MaximumFiles(limits, draft, category)
  {
    RunKeepsSlots(Start(limits, clock), steps);
    var docs := Final(Start(limits, clock), steps).docs;
    Pigeonhole(docs, Holders(docs, draft, category), MaximumFiles(limits, draft, category));
  }
}
