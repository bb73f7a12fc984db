/**
 * The document service and the cleanup worker as imperative code over the document table.
 * Where several statements make up one operation, what other statements did in between is a
 * parameter; `CleanupRuns` shows that the worker's loops are runs of the interleaving protocol.
 */
module DocumentServices {
  import opened Prelude
  import opened DocumentLifecycle

  datatype EvidenceRule = EvidenceRule(allowed: set<Mime>, maximumBytes: nat, maximumFiles: nat)

  datatype UploadAnswer =
    | Placed(slot: nat) | DraftNotFound | CategoryRefused | TooLarge | WrongType | CategoryFull | StorageFailed

  datatype DeletionAnswer = Scheduled | AlreadyGone | DraftInvalid | NotFound | UnderReview

  datatype DraftRow = DraftRow(version: nat, token: nat, active: bool, expiresAt: int)

  datatype EventStatus = Received | Processing | Processed | Failed

  /** Where a callback's statements fail, if they do. */
  datatype Fault = NoFault | AtFirstUpdate | AtVerdict | AtCompletion

  datatype Upload = Upload(
    doc: DocId, draft: DraftId, category: Category, path: Path, declared: Mime, sizeBytes: nat, expiresAt: int)

  /** The rule in force: the campaign's row, or the structural default of disposal evidence. */
  function EffectiveRule(
      rules: map<(nat, Category), EvidenceRule>, version: nat, category: Category, imageTypes: set<Mime>):
        Option<EvidenceRule>
  {
    if (version, category) in rules then Some(rules[(version, category)])
    else if category == Category.DisposalEvidence then
      Some(EvidenceRule(imageTypes, 10485760, DISPOSAL_EVIDENCE_FALLBACK))
    else None
  }

  function Authorised(u: Upload, slot: nat): Doc {
    Doc(Some(u.draft), None, u.category, Some(slot), Authorized, u.path, u.declared, u.expiresAt)
  }

  /** Whether inserting the upload into a slot violates no unique index of the table. */
  predicate Fits(docs: map<DocId, Doc>, u: Upload, slot: nat) {
    Insertable(docs, u.doc, u.path, u.draft, u.category, slot)
  }

  /** An authorised row after its callback: verified, or rejected and without a slot when the media type differs. */
  function Reconciled(doc: Doc, path: Path, detected: Mime): Doc {
    if doc.declared == detected then doc.(path := path, status := Verified)
    else doc.(path := path, status := Rejected, slot := None)
  }

  /** What a callback makes of the row it reads, up to the statement that fails. */
  function CalledBack(doc: Doc, path: Path, detected: Mime, fault: Fault): Doc {
    match doc.status
    case Authorized =>
      (match fault
       case AtFirstUpdate => doc
       case AtVerdict => doc.(path := path, status := Uploaded)
       case _ => Reconciled(doc, path, detected))
    case DeletionPending => if fault == AtFirstUpdate then doc else doc.(path := path)
    case _ => doc
  }

  /** What others made of the table between two statements. */
  function Meanwhile(docs: map<DocId, Doc>, others: Option<map<DocId, Doc>>): map<DocId, Doc> {
    if others.Some? then others.value else docs
  }

  /** What a callback leaves of the table when others act before its first update and before its verdict. */
  function AfterCallback(
      docs: map<DocId, Doc>, d: DocId, path: Path, detected: Mime, fault: Fault,
      beforeLanding: Option<map<DocId, Doc>>, beforeVerdict: Option<map<DocId, Doc>>): map<DocId, Doc>
  {
    if d !in docs || docs[d].status !in {Authorized, DeletionPending} then docs
    else if fault == AtFirstUpdate then Meanwhile(docs, beforeLanding)
    else
      var landed := Land(Meanwhile(docs, beforeLanding), Saw(d, docs[d].status, path, detected));
      if docs[d].status == DeletionPending then landed
      else if fault == AtVerdict then Meanwhile(landed, beforeVerdict)
      else Decide(Meanwhile(landed, beforeVerdict), d, detected)
  }

  /** Undisturbed, a callback changes its own row only, as the status it reads and the media types decide. */
  lemma UndisturbedCallback(docs: map<DocId, Doc>, d: DocId, path: Path, detected: Mime, fault: Fault)
    ensures AfterCallback(docs, d, path, detected, fault, None, None) ==
      if d in docs then docs[d := CalledBack(docs[d], path, detected, fault)] else docs
  {
    if d in docs && CalledBack(docs[d], path, detected, fault) == docs[d] {
      assert docs[d := docs[d]] == docs;
    }
  }

  /** Whether the failing statement is reached at all for a row in this status. */
  predicate Strikes(fault: Fault, status: Option<Status>) {
    match fault
    case NoFault => false
    case AtFirstUpdate => status in {Some(Authorized), Some(DeletionPending)}
    case AtVerdict => status == Some(Authorized)
    case AtCompletion => true
  }

  class DocumentStore {
    var docs: map<DocId, Doc>
    var events: map<nat, EventStatus>
    const drafts: map<DraftId, DraftRow>
    const rules: map<(nat, Category), EvidenceRule>
    const evidence: map<DocId, Option<int>>
    const imageTypes: set<Mime>

    constructor (
      docs: map<DocId, Doc>, drafts: map<DraftId, DraftRow>, rules: map<(nat, Category), EvidenceRule>,
      evidence: map<DocId, Option<int>>, imageTypes: set<Mime>)
      ensures this.docs == docs && this.events == map[] && this.drafts == drafts && this.rules == rules
      ensures this.evidence == evidence && this.imageTypes == imageTypes
    {
      this.docs, this.events, this.drafts, this.rules := docs, map[], drafts, rules;
      this.evidence, this.imageTypes := evidence, imageTypes;
    }

    function RuleFor(u: Upload): Option<EvidenceRule>
      requires u.draft in drafts
    {
      EffectiveRule(rules, drafts[u.draft].version, u.category, imageTypes)
    }

    predicate Admitted(u: Upload) {
      u.draft in drafts && RuleFor(u).Some? &&
      u.sizeBytes <= RuleFor(u).value.maximumBytes && u.declared in RuleFor(u).value.allowed
    }

    function Slots(u: Upload): nat
      requires Admitted(u)
    {
      RuleFor(u).value.maximumFiles
    }

    /**
     * One upload authorisation. Each attempt is a statement of its own: `world(slot)` is the table
     * as the others have left it when that slot is tried. The loop takes the first slot whose
     * insert violates no unique index at its instant, and gives up exactly when every slot was
     * taken at the instant it was tried. A failed authorisation takes the row back, if it can.
     */
    method AuthorizeUpload(u: Upload, world: nat -> map<DocId, Doc>, storageAuthorizes: bool, takesBack: bool)
      returns (answer: UploadAnswer)
      modifies this`docs
      ensures answer.DraftNotFound? <==> u.draft !in drafts
      ensures answer.CategoryRefused? <==> u.draft in drafts && RuleFor(u).None?
      ensures answer.TooLarge? <==>
        u.draft in drafts && RuleFor(u).Some? && u.sizeBytes > RuleFor(u).value.maximumBytes
      ensures answer.WrongType? <==>
        u.draft in drafts && RuleFor(u).Some? && u.sizeBytes <= RuleFor(u).value.maximumBytes &&
        u.declared !in RuleFor(u).value.allowed
      ensures answer in {CategoryFull, StorageFailed} || answer.Placed? <==> Admitted(u)
      ensures !Admitted(u) ==> docs == old(docs)
      ensures answer.CategoryFull? <==>
        Admitted(u) && forall slot :: 1 <= slot <= Slots(u) ==> !Fits(world(slot), u, slot)
      ensures answer.Placed? || answer.StorageFailed? ==>
        exists slot ::
          1 <= slot <= Slots(u) && Fits(world(slot), u, slot) &&
          (forall lower :: 1 <= lower < slot ==> !Fits(world(lower), u, lower)) &&
          (answer.Placed? ==> answer.slot == slot && storageAuthorizes) &&
          docs == if answer.StorageFailed? && takesBack then world(slot) else world(slot)[u.doc := Authorised(u, slot)]
    {
      if u.draft !in drafts { return DraftNotFound; }
      var found := RuleFor(u);
      if found.None? { return CategoryRefused; }
      var rule := found.value;
      if u.sizeBytes > rule.maximumBytes { return TooLarge; }
      if u.declared !in rule.allowed { return WrongType; }
      var inserted := false;
      var categorySlot := 1;
      while categorySlot <= rule.maximumFiles && !inserted
        invariant 1 <= categorySlot <= rule.maximumFiles + 1
        invariant forall lower :: 1 <= lower < categorySlot ==> !Fits(world(lower), u, lower)
        invariant inserted ==> categorySlot <= rule.maximumFiles && Fits(world(categorySlot), u, categorySlot)
        invariant inserted ==> docs == world(categorySlot)[u.doc := Authorised(u, categorySlot)]
        decreases rule.maximumFiles + 1 - categorySlot, !inserted
      {
        docs := world(categorySlot);
        if Fits(docs, u, categorySlot) {
          docs := docs[u.doc := Authorised(u, categorySlot)];
          inserted := true;
        } else {
          categorySlot := categorySlot + 1;
        }
      }
      if !inserted { return CategoryFull; }
      if !storageAuthorizes {
        if takesBack {
          docs := docs - {u.doc};
          assert docs == world(categorySlot);
        }
        return StorageFailed;
      }
      return Placed(categorySlot);
    }

    predicate DraftOpens(draft: DraftId, token: nat, now: int) {
      draft in drafts && drafts[draft].token == token && drafts[draft].active && drafts[draft].expiresAt > now
    }

    /** The consumer's delete on a draft; repeating it is harmless, evidence in review is refused. */
    method ScheduleDraftDocumentDeletion(draft: DraftId, token: nat, d: DocId, now: int)
      returns (answer: DeletionAnswer)
      modifies this`docs
      ensures answer.DraftInvalid? <==> !DraftOpens(draft, token, now)
      ensures !answer.DraftInvalid? ==>
        draft in drafts && token == drafts[draft].token && drafts[draft].active && now < drafts[draft].expiresAt
      ensures answer.DraftInvalid? && draft in drafts ==>
        token != drafts[draft].token || !drafts[draft].active || now >= drafts[draft].expiresAt
      ensures answer.Scheduled? <==>
        !answer.DraftInvalid? && !answer.NotFound? && d in old(docs) &&
        old(docs)[d].status in {Authorized, Uploaded, Verified} &&
        (d in evidence ==> evidence[d] != None && evidence[d].value <= now)
      ensures answer.NotFound? <==>
        DraftOpens(draft, token, now) &&
        (d !in old(docs) || old(docs)[d].draft != Some(draft) || old(docs)[d].caseId.Some?)
      ensures answer.Scheduled? <==>
        DraftOpens(draft, token, now) && d in old(docs) && old(docs)[d].draft == Some(draft) &&
        old(docs)[d].caseId.None? &&
        Deletable(old(docs)[d].status) && !Retained(evidence, d, now)
      ensures docs == if answer.Scheduled? then old(docs)[d := Discarded(old(docs)[d])] else old(docs)
      ensures answer.UnderReview? ==> d in docs && Deletable(docs[d].status) && Retained(evidence, d, now)
    {
      if draft !in drafts || drafts[draft].token != token || !drafts[draft].active || drafts[draft].expiresAt <= now {
        return DraftInvalid;
      }
      if d !in docs || docs[d].draft != Some(draft) || docs[d].caseId.Some? { return NotFound; }
      if !Deletable(docs[d].status) { return AlreadyGone; }
      if Retained(evidence, d, now) { return UnderReview; }
      docs := docs[d := Discarded(docs[d])];
      return Scheduled;
    }

    /** The updates of a callback: the payload facts land, then the verdict. `failed` when a statement throws. */
    method ReconcileRow(
        d: DocId, path: Path, detected: Mime, fault: Fault,
        beforeLanding: Option<map<DocId, Doc>>, beforeVerdict: Option<map<DocId, Doc>>)
      returns (failed: bool)
      modifies this`docs
      ensures docs == AfterCallback(old(docs), d, path, detected, fault, beforeLanding, beforeVerdict)
      ensures failed <==> Strikes(fault, if d in old(docs) then Some(old(docs)[d].status) else None)
    {
      hide Land, Decide, CalledBack;
      if d in docs && (docs[d].status == Authorized || docs[d].status == DeletionPending) {
        var status := docs[d].status;
        docs := Meanwhile(docs, beforeLanding);
        if fault == AtFirstUpdate { return true; }
        docs := Land(docs, Saw(d, status, path, detected));
        if status != DeletionPending {
          docs := Meanwhile(docs, beforeVerdict);
          if fault == AtVerdict { return true; }
          docs := Decide(docs, d, detected);
        }
      }
      return fault == AtCompletion;
    }

    /**
     * A storage callback: the event is claimed unless it was processed before, the row is
     * reconciled, and the event is completed. Each is a statement of its own; `beforeLanding` and
     * `beforeVerdict` are the table as others have left it by then. Recording a fault can fail
     * too. A redelivery finds the row as the fault left it, and an `uploaded` row is acknowledged
     * without a verdict.
     */
    method ReconcileCompletedUpload(
        event: nat, d: DocId, path: Path, detected: Mime, fault: Fault, recordsFault: bool,
        beforeLanding: Option<map<DocId, Doc>>, beforeVerdict: Option<map<DocId, Doc>>)
      returns (handled: bool)
      modifies this`docs, this`events
      ensures event in old(events) && old(events)[event] == Processed ==>
        !handled && docs == old(docs) && events == old(events)
      ensures !(event in old(events) && old(events)[event] == Processed) ==>
        events == old(events)[event := if handled then Processed else if recordsFault then Failed else Processing] &&
        docs == AfterCallback(old(docs), d, path, detected, fault, beforeLanding, beforeVerdict)
      ensures handled <==>
        !(event in old(events) && old(events)[event] == Processed) &&
        !Strikes(fault, if d in old(docs) then Some(old(docs)[d].status) else None)
      ensures handled ==> fault != AtCompletion
      ensures fault == NoFault && !(event in old(events) && old(events)[event] == Processed) ==> handled
      ensures fault == AtVerdict && d in old(docs) && old(docs)[d].status == Authorized ==> !handled
      ensures fault == AtVerdict && handled ==> d !in old(docs) || old(docs)[d].status != Authorized
      ensures fault == AtFirstUpdate && handled ==>
        d !in old(docs) || old(docs)[d].status !in {Authorized, DeletionPending}
      ensures !handled && !(event in old(events) && old(events)[event] == Processed) ==>
        fault == AtCompletion || (d in old(docs) && old(docs)[d].status in {Authorized, DeletionPending})
      ensures !handled && fault == AtVerdict && !(event in old(events) && old(events)[event] == Processed) ==>
        d in old(docs) && old(docs)[d].status == Authorized
    {
      hide AfterCallback;
      if event in events && events[event] == Processed { return false; }
      events := events[event := Processing];
      var failed := ReconcileRow(d, path, detected, fault, beforeLanding, beforeVerdict);
      if failed {
        if recordsFault { events := events[event := Failed]; }
        return false;
      }
      events := events[event := Processed];
      return true;
    }
  }

  // ---- the cleanup worker -----------------------------------------------------

  /** A batch so far: the table, the stored objects and the two counters. */
  datatype Batch = Batch(docs: map<DocId, Doc>, bytes: set<Path>, deleted: nat, pending: nat)

  /** Removing one object: the row advances only when the object is gone. */
  function AfterRemoval(b: Batch, row: Row, removable: set<Path>): Batch {
    if row.path in removable then
      b.(docs := SetStatus(b.docs, row.id, Deleted), bytes := b.bytes - {row.path}, deleted := b.deleted + 1)
    else b.(pending := b.pending + 1)
  }

  /** The first loop: rows that were claimed before. */
  function Sweep(b: Batch, rows: seq<Row>, removable: set<Path>): Batch {
    if rows == [] then b else AfterRemoval(Sweep(b, rows[..|rows| - 1], removable), rows[|rows| - 1], removable)
  }

  predicate Takeable(docs: map<DocId, Doc>, evidence: map<DocId, Option<int>>, d: DocId, now: int) {
    d in docs && Deletable(docs[d].status) && !Retained(evidence, d, now)
  }

  function AfterReap(b: Batch, evidence: map<DocId, Option<int>>, row: Row, now: int, removable: set<Path>): Batch {
    if Takeable(b.docs, evidence, row.id, now) then
      AfterRemoval(b.(docs := SetStatus(b.docs, row.id, DeletionPending)), row, removable)
    else b
  }

  /** The second loop: expired rows, each claimed first; a lost claim is passed over. */
  function Reap(b: Batch, evidence: map<DocId, Option<int>>, rows: seq<Row>, now: int, removable: set<Path>): Batch {
    if rows == [] then b
    else AfterReap(Reap(b, evidence, rows[..|rows| - 1], now, removable), evidence, rows[|rows| - 1], now, removable)
  }

  /** A scan: distinct matching rows as they are now, at most a hundred, all of them when there are fewer. */
  predicate IsScan(docs: map<DocId, Doc>, matching: set<DocId>, rows: seq<Row>) {
    |rows| <= CLEANUP_BATCH &&
    (forall r :: r in rows ==> r.id in matching && r.id in docs && r.path == docs[r.id].path) &&
    (forall i, j :: 0 <= i < j < |rows| ==> rows[i].id != rows[j].id) &&
    (|rows| < CLEANUP_BATCH ==> forall d :: d in matching && d in docs ==> Row(d, docs[d].path) in rows)
  }

  function Waiting(docs: map<DocId, Doc>): set<DocId> {
    set d | d in docs && docs[d].status == DeletionPending
  }

  function Expired(docs: map<DocId, Doc>, evidence: map<DocId, Option<int>>, now: int): set<DocId> {
    set d | d in docs && docs[d].expiresAt <= now && Takeable(docs, evidence, d, now)
  }

  class CleanupWorker {
    var docs: map<DocId, Doc>
    var bytes: set<Path>
    var evidence: map<DocId, Option<int>>

    constructor (docs: map<DocId, Doc>, bytes: set<Path>, evidence: map<DocId, Option<int>>)
      ensures this.docs == docs && this.bytes == bytes && this.evidence == evidence
    {
      this.docs, this.bytes, this.evidence := docs, bytes, evidence;
    }

    /** A limited scan: up to a hundred of the given rows, all of them when there are fewer. */
    method Scan(matching: set<DocId>) returns (rows: seq<Row>)
      requires matching <= docs.Keys
      ensures IsScan(docs, matching, rows)
    {
      rows := [];
      var rest := matching;
      while rest != {} && |rows| < CLEANUP_BATCH
        invariant rest <= matching && |rows| <= CLEANUP_BATCH
        invariant forall r :: r in rows ==> r.id in matching && r.id !in rest && r.path == docs[r.id].path
        invariant forall d :: d in matching && d !in rest ==> Row(d, docs[d].path) in rows
        invariant forall i, j :: 0 <= i < j < |rows| ==> rows[i].id != rows[j].id
        decreases rest
      {
        var d :| d in rest;
        rows, rest := rows + [Row(d, docs[d].path)], rest - {d};
      }
    }

    /** The irreversible step, on the pathname that was scanned. */
    method RemoveBlob(row: Row, removable: set<Path>) returns (removed: bool)
      modifies this`docs, this`bytes
      ensures removed <==> row.path in removable
      ensures bytes == if removed then old(bytes) - {row.path} else old(bytes)
      ensures docs == if removed then SetStatus(old(docs), row.id, Deleted) else old(docs)
    {
      if row.path !in removable { return false; }
      bytes := bytes - {row.path};
      docs := SetStatus(docs, row.id, Deleted);
      return true;
    }

    /** The guarded claim; a row that no longer qualifies is left to whoever has it. */
    method Claim(d: DocId, now: int) returns (claimed: bool)
      modifies this`docs
      ensures claimed <==> d in old(docs) && Deletable(old(docs)[d].status) && !Retained(evidence, d, now)
      ensures docs == if claimed then old(docs)[d := old(docs)[d].(status := DeletionPending)] else old(docs)
    {
      claimed := d in docs && Deletable(docs[d].status) && !Retained(evidence, d, now);
      if claimed {
        docs := docs[d := docs[d].(status := DeletionPending)];
      }
    }

    /** The two loops over the scanned rows. */
    method TakeAll(alreadyClaimed: seq<Row>, expired: seq<Row>, now: int, removable: set<Path>)
      returns (deleted: nat, pending: nat)
      modifies this`docs, this`bytes
      ensures Batch(docs, bytes, deleted, pending) ==
        Reap(Sweep(Batch(old(docs), old(bytes), 0, 0), alreadyClaimed, removable), evidence, expired, now, removable)
    {
      ghost var start := Batch(docs, bytes, 0, 0);
      deleted, pending := 0, 0;
      for i := 0 to |alreadyClaimed|
        invariant Batch(docs, bytes, deleted, pending) == Sweep(start, alreadyClaimed[..i], removable)
      {
        assert alreadyClaimed[..i + 1][..i] == alreadyClaimed[..i];
        var removed := RemoveBlob(alreadyClaimed[i], removable);
        if removed { deleted := deleted + 1; } else { pending := pending + 1; }
      }
      assert alreadyClaimed[..|alreadyClaimed|] == alreadyClaimed;
      ghost var swept := Batch(docs, bytes, deleted, pending);
      for i := 0 to |expired|
        invariant Batch(docs, bytes, deleted, pending) == Reap(swept, evidence, expired[..i], now, removable)
      {
        assert expired[..i + 1][..i] == expired[..i];
        var claimed := Claim(expired[i].id, now);
        if !claimed { continue; }
        var removed := RemoveBlob(expired[i], removable);
        if removed { deleted := deleted + 1; } else { pending := pending + 1; }
      }
      assert expired[..|expired|] == expired;
    }

    /**
     * One batch. `meanwhile` is what others made of the table and of the retained evidence between
     * the scans and the loops, `removable` the objects whose removal succeeds.
     */
    method RunBatch(now: int, removable: set<Path>, meanwhile: Option<(map<DocId, Doc>, map<DocId, Option<int>>)>)
      returns (deleted: nat, pending: nat, ghost alreadyClaimed: seq<Row>, ghost expired: seq<Row>)
      modifies this
      ensures IsScan(old(docs), Waiting(old(docs)), alreadyClaimed) &&
        IsScan(old(docs), Expired(old(docs), old(evidence), now), expired)
      ensures evidence == if meanwhile.Some? then meanwhile.value.1 else old(evidence)
      ensures var start := if meanwhile.Some? then meanwhile.value.0 else old(docs);
        Batch(docs, bytes, deleted, pending) ==
        Reap(Sweep(Batch(start, old(bytes), 0, 0), alreadyClaimed, removable), evidence, expired, now, removable)
    {
      var claimedRows := Scan(Waiting(docs));
      var expiredRows := Scan(Expired(docs, evidence, now));
      alreadyClaimed, expired := claimedRows, expiredRows;
      if meanwhile.Some? { docs, evidence := meanwhile.value.0, meanwhile.value.1; }
      deleted, pending := TakeAll(claimedRows, expiredRows, now, removable);
    }
  }

  /** Every row of the first loop is counted once, every row of the second loop at most once. */
  lemma {:induction false} CountersAddUp(
      b: Batch, evidence: map<DocId, Option<int>>, rows: seq<Row>, now: int, removable: set<Path>)
    ensures var s := Sweep(b, rows, removable); s.deleted + s.pending == b.deleted + b.pending + |rows|
    ensures var r := Reap(b, evidence, rows, now, removable);
      b.deleted + b.pending <= r.deleted + r.pending <= b.deleted + b.pending + |rows|
  {
    if rows != [] {
      CountersAddUp(b, evidence, rows[..|rows| - 1], now, removable);
    }
  }

  /**
   * A document retained when the loops run is left as it is, with its bytes, unless its row was
   * claimed before the scan.
   */
  lemma {:induction false} RetainedIsPassedOver(
      b: Batch, evidence: map<DocId, Option<int>>, rows: seq<Row>, now: int, removable: set<Path>,
      d: DocId)
    requires Retained(evidence, d, now) && forall r :: r in rows ==> r.path.doc == r.id
    ensures var after := Reap(b, evidence, rows, now, removable);
      (d in after.docs <==> d in b.docs) && (d in b.docs ==> after.docs[d] == b.docs[d]) &&
      forall p :: p in b.bytes && p.doc == d ==> p in after.bytes
  {
    if rows != [] {
      RetainedIsPassedOver(b, evidence, rows[..|rows| - 1], now, removable, d);
      assert rows[|rows| - 1] in rows;
    }
  }
}
