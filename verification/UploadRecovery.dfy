/**
 * What becomes of an upload whose callback crashed between its two updates, over every run of
 * the document protocol.
 */
module UploadRecovery {
  import opened Prelude
  import opened DocumentLifecycle

  /** A callback that is going to decide the document. */
  predicate Deciding(c: Callback, d: DocId) {
    match c
    case Saw(doc, status, _, _) => doc == d && status == Authorized
    case Landed(doc, _) => doc == d
  }

  /** A row past its first callback update whose second one was lost in a crash. */
  ghost predicate Stuck(s: State, d: DocId) {
    d in s.known && (d in s.docs ==> s.docs[d].status == Uploaded || Dead(s.docs[d].status)) &&
    forall id :: id in s.callbacks ==> !Deciding(s.callbacks[id], d)
  }

  lemma StepKeepsStuck(s: State, step: Step, d: DocId)
    requires CallbacksSound(s.callbacks) && Enabled(s, step) && Stuck(s, d)
    ensures Stuck(Next(s, step), d)
  {
  }

  /**
   * The handler decides only rows it reads as `authorized`, so no redelivery ever finalises a
   * row that a crash left in `uploaded`, although the comment beside it says so: whatever
   * happens, it is never verified, rejected or linked.
   */
  lemma {:induction false} CrashedUploadIsNeverDecided(s: State, steps: seq<Step>, d: DocId)
    requires Inv(s) && Stuck(s, d) && Runs(s, steps)
    ensures d in Final(s, steps).docs ==>
      Final(s, steps).docs[d].status == Uploaded || Dead(Final(s, steps).docs[d].status)
    decreases |steps|
  {
    if steps != [] {
      StepKeepsStuck(s, steps[0], d);
      StepKeepsInv(s, steps[0]);
      hide Next, Enabled, Inv, Stuck;
      CrashedUploadIsNeverDecided(Next(s, steps[0]), steps[1..], d);
    }
  }

  predicate IsDecided(s: State, d: DocId) {
    d in s.docs && (s.docs[d].status == Verified || s.docs[d].status == Rejected)
  }

  ghost predicate CanBeDecided(s: State, d: DocId) {
    exists steps :: Runs(s, steps) && IsDecided(Final(s, steps), d)
  }

  /** A callback under way can finish its work. */
  lemma CallbackDecidesIt(s: State, d: DocId, id: nat)
    requires d in s.docs && s.docs[d].status == Uploaded && id in s.callbacks && Deciding(s.callbacks[id], d)
    ensures CanBeDecided(s, d)
  {
    var finish := [CallbackDecides(id)];
    assert finish[1..] == [];
    if s.callbacks[id].Landed? {
      var after := Next(s, finish[0]);
      assert Runs(after, []) && Final(after, []) == after;
      assert Runs(s, finish) && Final(s, finish) == after;
      assert IsDecided(Final(s, finish), d);
    } else {
      var steps := [CallbackLands(id), CallbackDecides(id)];
      assert steps[1..] == finish;
      var landed := Next(s, steps[0]);
      assert landed.docs == s.docs;
      var after := Next(landed, finish[0]);
      assert Runs(after, []) && Final(after, []) == after;
      assert Runs(landed, finish) && Final(landed, finish) == after;
      assert Runs(s, steps) && Final(s, steps) == Final(landed, finish);
      assert IsDecided(Final(s, steps), d);
    }
  }

  /**
   * An `uploaded` row can still be verified or rejected exactly when a callback that read it as
   * `authorized` is under way. A redelivery that starts afterwards never does it, although the
   * comment beside the handler says so.
   */
  lemma UploadIsDecidedExactly(s: State, d: DocId)
    requires Inv(s) && d in s.docs && s.docs[d].status == Uploaded
    ensures CanBeDecided(s, d) <==> exists id :: id in s.callbacks && Deciding(s.callbacks[id], d)
  {
    if id :| id in s.callbacks && Deciding(s.callbacks[id], d) {
      CallbackDecidesIt(s, d, id);
    } else {
      assert Stuck(s, d);
      forall steps | Runs(s, steps) ensures !IsDecided(Final(s, steps), d) {
        CrashedUploadIsNeverDecided(s, steps, d);
      }
    }
  }

  /** A callback that stops between its two updates. */
  function CrashingRun(
      d: DocId, draft: DraftId, category: Category, path: Path, declared: Mime, detected: Mime,
      expiresAt: int): seq<Step>
  {
    [Insert(d, draft, category, 1, path, declared, expiresAt), CallbackReads(0, d, path, detected), CallbackLands(0),
      CallbackStops(0)]
  }

  /** The failing input: from an empty store, one upload whose callback crashes is stuck in `uploaded` for good. */
  lemma CrashLeavesUploadStuck(
    limits: map<(DraftId, Category), nat>, clock: int, d: DocId, draft: DraftId, category: Category, path: Path,
    declared: Mime, detected: Mime, expiresAt: int)
    requires MaximumFiles(limits, draft, category) >= 1 && path.doc == d
    ensures var steps := CrashingRun(d, draft, category, path, declared, detected, expiresAt);
      Runs(Start(limits, clock), steps) &&
      var end := Final(Start(limits, clock), steps);
      d in end.docs && end.docs[d].status == Uploaded && Stuck(end, d) && !CanBeDecided(end, d)
  {
    var steps := CrashingRun(d, draft, category, path, declared, detected, expiresAt);
    var s0 := Start(limits, clock);
    assert steps[1..][1..] == steps[2..] && steps[2..][1..] == steps[3..] && steps[3..][1..] == [];
    var s1 := Next(s0, steps[0]);
    var s2 := Next(s1, steps[1]);
    var s3 := Next(s2, steps[2]);
    var s4 := Next(s3, steps[3]);
    assert Runs(s4, []) && Final(s4, []) == s4;
    assert Runs(s3, steps[3..]) && Final(s3, steps[3..]) == s4;
    assert Runs(s2, steps[2..]) && Final(s2, steps[2..]) == s4;
    assert Runs(s1, steps[1..]) && Final(s1, steps[1..]) == s4;
    assert Runs(s0, steps) && Final(s0, steps) == s4;
    RunKeepsInv(s0, steps);
    assert forall id :: id !in s4.callbacks;
    UploadIsDecidedExactly(s4, d);
  }
}
