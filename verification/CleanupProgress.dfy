/**
 * What the cleanup deletes and what it spares: over every interleaving a document dies only after
 * it expired or because its consumer asked, and a batch takes what is due and nothing else.
 */
module CleanupProgress {
  import opened Prelude
  import opened DocumentLifecycle
  import opened DocumentServices

  // ---- every interleaving -----------------------------------------------------

  /** Whatever is on a worker's expired list had expired, and a document never gets another deadline. */
  ghost predicate OnlyDueListed(s: State) {
    forall w, r :: w in s.workers && r in s.workers[w].expired ==>
      r.id in s.known && (r.id in s.docs ==> s.docs[r.id].expiresAt <= s.clock)
  }

  lemma DeadlinesStay(s: State, step: Step, d: DocId)
    requires Enabled(s, step) && d in s.known && d in Next(s, step).docs
    ensures d in s.docs && Next(s, step).docs[d].expiresAt == s.docs[d].expiresAt
    ensures s.clock <= Next(s, step).clock
  {
  }

  lemma ListedBefore(s: State, step: Step, w: WorkerId, r: Row)
    requires Enabled(s, step) && w in Next(s, step).workers && r in Next(s, step).workers[w].expired
    ensures (step.ScanExpired? && step.worker == w && r in step.rows) ||
      (w in s.workers && r in s.workers[w].expired)
  {
  }

  lemma StepKeepsDueLists(s: State, step: Step)
    requires Inv(s) && OnlyDueListed(s) && Enabled(s, step)
    ensures OnlyDueListed(Next(s, step))
  {
    var t := Next(s, step);
    forall w, r | w in t.workers && r in t.workers[w].expired
      ensures r.id in t.known && (r.id in t.docs ==> t.docs[r.id].expiresAt <= t.clock)
    {
      ListedBefore(s, step, w, r);
      assert r.id in s.known && (r.id in s.docs ==> s.docs[r.id].expiresAt <= s.clock);
      if r.id in t.docs { DeadlinesStay(s, step, r.id); }
    }
  }

  /** The consumer's own wish to delete a document, by either route. */
  predicate Asks(step: Step, d: DocId) {
    match step
    case DraftDelete(e, _, _) => e == d
    case EvidenceDelete(e, _, _) => e == d
    case _ => false
  }

  lemma DeathHasACause(s: State, step: Step, d: DocId)
    requires Inv(s) && OnlyDueListed(s) && Enabled(s, step) && d in s.docs && !Dead(s.docs[d].status)
    requires d in Next(s, step).docs && Dead(Next(s, step).docs[d].status)
    ensures Asks(step, d) || s.docs[d].expiresAt <= s.clock
  {
    assert forall w :: w in s.workers && s.workers[w].gone.Some? ==> Lost(s.docs, s.known, s.workers[w].gone.value) by {
      forall w | w in s.workers ensures Harmless(s.docs, s.known, s.workers[w]) {
      }
    }
    if step.Claim? {
      assert s.workers[step.worker].expired[0] in s.workers[step.worker].expired;
    }
  }

  lemma NewbornIsAlive(s: State, step: Step, d: DocId)
    requires Inv(s) && Enabled(s, step) && d !in s.docs && d in Next(s, step).docs
    ensures !Dead(Next(s, step).docs[d].status)
  {
  }

  lemma {:induction false} DeathsHaveCauses(s: State, steps: seq<Step>, d: DocId)
    requires Inv(s) && OnlyDueListed(s) && Runs(s, steps) && d in Final(s, steps).docs
    requires Dead(Final(s, steps).docs[d].status) && (d in s.docs ==> !Dead(s.docs[d].status))
    ensures Final(s, steps).docs[d].expiresAt <= Final(s, steps).clock ||
      exists i :: 0 <= i < |steps| && Asks(steps[i], d)
    decreases |steps|
  {
    assert steps != [];
    var t := Next(s, steps[0]);
    StepKeepsInv(s, steps[0]);
    StepKeepsDueLists(s, steps[0]);
    if d in t.docs && Dead(t.docs[d].status) {
      if d !in s.docs {
        NewbornIsAlive(s, steps[0], d);
      }
      DeathHasACause(s, steps[0], d);
      DeadlinesStay(s, steps[0], d);
      hide Next, Enabled, Inv, OnlyDueListed;
      if !Asks(steps[0], d) {
        DeadlineOverRun(t, steps[1..], d);
      }
    } else {
      hide Next, Enabled, Inv, OnlyDueListed;
      DeathsHaveCauses(t, steps[1..], d);
      if i :| 0 <= i < |steps[1..]| && Asks(steps[1..][i], d) {
        assert Asks(steps[i + 1], d);
      }
    }
  }

  lemma {:induction false} DeadlineOverRun(s: State, steps: seq<Step>, d: DocId)
    requires Inv(s) && Runs(s, steps) && d in s.docs && d in Final(s, steps).docs
    ensures Final(s, steps).docs[d].expiresAt == s.docs[d].expiresAt && s.clock <= Final(s, steps).clock
    decreases |steps|
  {
    if steps != [] {
      var t := Next(s, steps[0]);
      StepKeepsInv(s, steps[0]);
      StaysKnown(s, steps[0], d);
      if d in t.docs {
        DeadlinesStay(s, steps[0], d);
        hide Next, Enabled, Inv;
        DeadlineOverRun(t, steps[1..], d);
      } else {
        hide Next, Enabled, Inv;
        GoneForGood(t, steps[1..], d);
      }
    }
  }

  lemma StaysKnown(s: State, step: Step, d: DocId)
    requires Inv(s) && Enabled(s, step) && (d in s.docs || d in s.known)
    ensures d in Next(s, step).known
  {
  }

  lemma {:induction false} GoneForGood(s: State, steps: seq<Step>, d: DocId)
    requires Inv(s) && Runs(s, steps) && d in s.known && d !in s.docs
    ensures d !in Final(s, steps).docs
    decreases |steps|
  {
    if steps != [] {
      StepKeepsInv(s, steps[0]);
      StaysKnown(s, steps[0], d);
      assert d !in Next(s, steps[0]).docs;
      hide Next, Enabled, Inv;
      GoneForGood(Next(s, steps[0]), steps[1..], d);
    }
  }

  /**
   * In every interleaving from an empty store, a document is waiting for deletion or deleted only
   * if its deadline has passed or its consumer asked for it.
   */
  lemma DeletedOnlyWhenDueOrAsked(limits: map<(DraftId, Category), nat>, clock: int, steps: seq<Step>, d: DocId)
    requires Runs(Start(limits, clock), steps) && d in Final(Start(limits, clock), steps).docs
    requires Final(Start(limits, clock), steps).docs[d].status in {DeletionPending, Deleted}
    ensures Final(Start(limits, clock), steps).docs[d].expiresAt <= Final(Start(limits, clock), steps).clock ||
      exists i :: 0 <= i < |steps| && Asks(steps[i], d)
  {
    DeathsHaveCauses(Start(limits, clock), steps, d);
  }

  // ---- one batch ----------------------------------------------------------------

  ghost predicate OwnPaths(rows: seq<Row>) {
    forall r :: r in rows ==> r.path.doc == r.id
  }

  /** Nothing of a document that no row is about is touched. */
  lemma {:induction false} SweepLeaves(b: Batch, rows: seq<Row>, removable: set<Path>, d: DocId)
    requires OwnPaths(rows) && forall r :: r in rows ==> r.id != d
    ensures var after := Sweep(b, rows, removable);
      (d in after.docs <==> d in b.docs) && (d in b.docs ==> after.docs[d] == b.docs[d]) &&
      forall p: Path :: p.doc == d ==> (p in after.bytes <==> p in b.bytes)
    decreases |rows|
  {
    if rows != [] {
      assert rows[|rows| - 1] in rows;
      SweepLeaves(b, rows[..|rows| - 1], removable, d);
    }
  }

  lemma {:induction false} ReapLeaves(
      b: Batch, evidence: map<DocId, Option<int>>, rows: seq<Row>, now: int, removable: set<Path>, d: DocId)
    requires OwnPaths(rows) && forall r :: r in rows ==> r.id != d
    ensures var after := Reap(b, evidence, rows, now, removable);
      (d in after.docs <==> d in b.docs) && (d in b.docs ==> after.docs[d] == b.docs[d]) &&
      forall p: Path :: p.doc == d ==> (p in after.bytes <==> p in b.bytes)
    decreases |rows|
  {
    if rows != [] {
      assert rows[|rows| - 1] in rows;
      ReapLeaves(b, evidence, rows[..|rows| - 1], now, removable, d);
    }
  }

  ghost predicate IdsApart(rows: seq<Row>) {
    forall i, j :: 0 <= i < j < |rows| ==> rows[i].id != rows[j].id
  }

  /** How a document ends whose row a loop takes. */
  ghost predicate Ends(before: Doc, b: Batch, d: DocId, p: Path, removed: bool) {
    d in b.docs && b.docs[d] == before.(status := if removed then Deleted else DeletionPending) &&
    (removed ==> p !in b.bytes)
  }

  lemma {:induction false} SweepTakes(b: Batch, rows: seq<Row>, removable: set<Path>, k: nat)
    requires OwnPaths(rows) && IdsApart(rows) && k < |rows|
    requires rows[k].id in b.docs && b.docs[rows[k].id].status == DeletionPending
    ensures Ends(b.docs[rows[k].id], Sweep(b, rows, removable), rows[k].id, rows[k].path, rows[k].path in removable)
    decreases |rows|
  {
    var last := |rows| - 1;
    assert forall r :: r in rows[..last] ==> r in rows;
    if k == last {
      SweepLeaves(b, rows[..last], removable, rows[k].id);
    } else {
      SweepTakes(b, rows[..last], removable, k);
    }
  }

  lemma {:induction false} ReapTakes(
      b: Batch, evidence: map<DocId, Option<int>>, rows: seq<Row>, now: int, removable: set<Path>, k: nat)
    requires OwnPaths(rows) && IdsApart(rows) && k < |rows|
    requires rows[k].id in b.docs && b.docs[rows[k].id].status in {Authorized, Uploaded, Verified}
    requires rows[k].id in evidence ==> evidence[rows[k].id] != None && evidence[rows[k].id].value <= now
    ensures Ends(b.docs[rows[k].id], Reap(b, evidence, rows, now, removable), rows[k].id, rows[k].path,
      rows[k].path in removable)
    decreases |rows|
  {
    var last := |rows| - 1;
    assert forall r :: r in rows[..last] ==> r in rows;
    if k == last {
      ReapLeaves(b, evidence, rows[..last], now, removable, rows[k].id);
    } else {
      ReapTakes(b, evidence, rows[..last], now, removable, k);
    }
  }

  /** One batch on a table nobody else touches, as `RunBatch` leaves it. */
  function WholeBatch(
      docs: map<DocId, Doc>, bytes: set<Path>, evidence: map<DocId, Option<int>>, alreadyClaimed: seq<Row>,
      expired: seq<Row>, now: int, removable: set<Path>): Batch
  {
    Reap(Sweep(Batch(docs, bytes, 0, 0), alreadyClaimed, removable), evidence, expired, now, removable)
  }

  ghost predicate Scanned(
      docs: map<DocId, Doc>, evidence: map<DocId, Option<int>>, alreadyClaimed: seq<Row>, expired: seq<Row>, now: int)
  {
    IsScan(docs, Waiting(docs), alreadyClaimed) && IsScan(docs, Expired(docs, evidence, now), expired) &&
    forall d :: d in docs ==> docs[d].path.doc == d
  }

  /** A document whose deadline is ahead and that is not waiting for deletion keeps its row and its bytes. */
  lemma UnexpiredIsSpared(
      docs: map<DocId, Doc>, bytes: set<Path>, evidence: map<DocId, Option<int>>, alreadyClaimed: seq<Row>,
      expired: seq<Row>, now: int, removable: set<Path>, d: DocId)
    requires Scanned(docs, evidence, alreadyClaimed, expired, now)
    requires d in docs && docs[d].expiresAt > now && docs[d].status != DeletionPending
    ensures var after := WholeBatch(docs, bytes, evidence, alreadyClaimed, expired, now, removable);
      d in after.docs && after.docs[d] == docs[d] && forall p :: p in bytes && p.doc == d ==> p in after.bytes
    ensures |alreadyClaimed| <= 100 && |expired| <= 100
  {
    SweepLeaves(Batch(docs, bytes, 0, 0), alreadyClaimed, removable, d);
    ReapLeaves(Sweep(Batch(docs, bytes, 0, 0), alreadyClaimed, removable), evidence, expired, now, removable, d);
  }

  /**
   * A document whose deadline has passed, that is still undecided or unused and not retained, is
   * taken when the scan is not full: deleted with its object, or waiting when that fails.
   */
  lemma DueIsTaken(
      docs: map<DocId, Doc>, bytes: set<Path>, evidence: map<DocId, Option<int>>, alreadyClaimed: seq<Row>,
      expired: seq<Row>, now: int, removable: set<Path>, d: DocId)
    requires Scanned(docs, evidence, alreadyClaimed, expired, now) && |expired| < 100
    requires d in docs && docs[d].expiresAt <= now && docs[d].status in {Authorized, Uploaded, Verified}
    requires d in evidence ==> evidence[d] != None && evidence[d].value <= now
    ensures Ends(docs[d], WholeBatch(docs, bytes, evidence, alreadyClaimed, expired, now, removable), d, docs[d].path,
      docs[d].path in removable)
  {
    assert d in Expired(docs, evidence, now);
    assert Row(d, docs[d].path) in expired;
    var k :| 0 <= k < |expired| && expired[k] == Row(d, docs[d].path);
    SweepLeaves(Batch(docs, bytes, 0, 0), alreadyClaimed, removable, d);
    ReapTakes(Sweep(Batch(docs, bytes, 0, 0), alreadyClaimed, removable), evidence, expired, now, removable, k);
  }

  /** A document that waits for deletion is retried when the scan is not full. */
  lemma WaitingIsRetried(
      docs: map<DocId, Doc>, bytes: set<Path>, evidence: map<DocId, Option<int>>, alreadyClaimed: seq<Row>,
      expired: seq<Row>, now: int, removable: set<Path>, d: DocId)
    requires Scanned(docs, evidence, alreadyClaimed, expired, now) && |alreadyClaimed| < 100
    requires d in docs && docs[d].status == DeletionPending
    ensures Ends(docs[d], WholeBatch(docs, bytes, evidence, alreadyClaimed, expired, now, removable), d, docs[d].path,
      docs[d].path in removable)
  {
    assert Row(d, docs[d].path) in alreadyClaimed;
    var k :| 0 <= k < |alreadyClaimed| && alreadyClaimed[k] == Row(d, docs[d].path);
    SweepTakes(Batch(docs, bytes, 0, 0), alreadyClaimed, removable, k);
    ReapLeaves(Sweep(Batch(docs, bytes, 0, 0), alreadyClaimed, removable), evidence, expired, now, removable, d);
  }

  /** A worker's lists are never longer than a hundred rows. */
  lemma ScansAreBounded(s: State, w: WorkerId, rows: seq<Row>, asOf: int)
    ensures Enabled(s, ScanPending(w, rows)) || Enabled(s, ScanExpired(w, rows, asOf)) ==> |rows| <= 100
  {
  }

  /** What cleanup never takes: linked, rejected and retained documents, however long ago they expired. */
  lemma SettledIsSpared(
      docs: map<DocId, Doc>, bytes: set<Path>, evidence: map<DocId, Option<int>>, alreadyClaimed: seq<Row>,
      expired: seq<Row>, now: int, removable: set<Path>, d: DocId)
    requires Scanned(docs, evidence, alreadyClaimed, expired, now) && d in docs && docs[d].status != DeletionPending
    requires docs[d].status in {Linked, Rejected, Deleted} ||
      (d in evidence && (evidence[d] == None || evidence[d].value > now))
    ensures var after := WholeBatch(docs, bytes, evidence, alreadyClaimed, expired, now, removable);
      d in after.docs && after.docs[d] == docs[d] && forall p :: p in bytes && p.doc == d ==> p in after.bytes
  {
    SweepLeaves(Batch(docs, bytes, 0, 0), alreadyClaimed, removable, d);
    ReapLeaves(Sweep(Batch(docs, bytes, 0, 0), alreadyClaimed, removable), evidence, expired, now, removable, d);
  }
}
