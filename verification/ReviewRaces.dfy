/**
 * Opening an escalation and deciding a review as transactions that overlap: their reads come
 * first, at read-committed isolation, and their writes become visible together when they commit.
 * Everything else is one step of `CaseClosure`.
 */
module ReviewRaces {
  import opened Prelude
  import opened CaseClosure

  type TxId = nat

  /** `found` is the case's review that the opener read, when it looked for one. */
  datatype Opening = Opening(caseId: CaseId, category: Category, given: Option<CaseId>, found: Option<CaseId>)

  datatype Deciding = Deciding(caseId: CaseId, outcome: ReviewStatus)

  datatype State = State(db: Tables, opening: map<TxId, Opening>, deciding: map<TxId, Deciding>)

  datatype Step =
    | OpenReads(tx: TxId, caseId: CaseId, category: Category, given: Option<CaseId>)
    | OpenCommits(tx: TxId, id: EscalationId)
    | DecideReads(tx: TxId, caseId: CaseId, decision: Decision, now: int)
    | DecideCommits(tx: TxId)
    | GivesUp(tx: TxId)
    | Whole(op: Op)

  ghost predicate Enabled(s: State, step: Step) {
    match step
    case OpenReads(_, c, _, _) => c in s.db.cases
    case OpenCommits(tx, _) => tx in s.opening
    case DecideReads(_, c, d, now) =>
      c in s.db.reviews && s.db.reviews[c].status == Pending && ValidDecision(d, now)
    case DecideCommits(tx) => tx in s.deciding
    case GivesUp(_) => true
    case Whole(op) => Possible(s.db, op)
  }

  function Found(db: Tables, c: CaseId, category: Category, given: Option<CaseId>): Option<CaseId> {
    if given.None? && ReviewRequired(category) && c in db.reviews then Some(c) else None
  }

  function InsertRow(
      db: Tables, e: EscalationId, c: CaseId, category: Category, review: Option<CaseId>): Tx<Tables, (), Problem>
  {
    if e in db.escalations then Abort(UniqueViolation)
    else if review.Some? && review.value !in db.reviews then Abort(ReviewUnknown)
    else Commit(db.(escalations := db.escalations[e := Escalation(c, category, false, review)]), ())
  }

  /** The insert does nothing when the case got a review meanwhile; the row is then read again. */
  function OpeningCommit(db: Tables, o: Opening, e: EscalationId): Tx<Tables, (), Problem> {
    if o.given.Some? || !ReviewRequired(o.category) then InsertRow(db, e, o.caseId, o.category, o.given)
    else if o.found.Some? then InsertRow(db, e, o.caseId, o.category, o.found)
    else if o.caseId in db.reviews then InsertRow(db, e, o.caseId, o.category, Some(o.caseId))
    else if IncidentTaken(db, IncidentOf(db, o.caseId)) then Abort(UniqueViolation)
    else
      var inserted := db.(reviews := db.reviews[o.caseId := Review(IncidentOf(db, o.caseId), Pending)]);
      InsertRow(inserted, e, o.caseId, o.category, Some(o.caseId))
  }

  /** The update of a decision asks for the review only, not for the status that was read. */
  function DecidingCommit(db: Tables, d: Deciding): Tables {
    if d.caseId in db.reviews then db.(reviews := db.reviews[d.caseId := db.reviews[d.caseId].(status := d.outcome)])
    else db
  }

  function StateAfter(db: Tables, tx: Tx<Tables, (), Problem>): Tables {
    if tx.Commit? then tx.state else db
  }

  ghost function Next(s: State, step: Step): State
    requires Enabled(s, step)
  {
    match step
    case OpenReads(tx, c, category, given) =>
      s.(opening := s.opening[tx := Opening(c, category, given, Found(s.db, c, category, given))])
    case OpenCommits(tx, e) =>
      s.(db := StateAfter(s.db, OpeningCommit(s.db, s.opening[tx], e)), opening := s.opening - {tx})
    case DecideReads(tx, c, d, _) => s.(deciding := s.deciding[tx := Deciding(c, d.outcome)])
    case DecideCommits(tx) => s.(db := DecidingCommit(s.db, s.deciding[tx]), deciding := s.deciding - {tx})
    case GivesUp(tx) => s.(opening := s.opening - {tx}, deciding := s.deciding - {tx})
    case Whole(op) => s.(db := After(s.db, op))
  }

  /** What was read before is still there: cases and reviews never disappear. */
  ghost predicate ReadsHold(s: State) {
    (forall tx :: tx in s.opening ==>
      s.opening[tx].caseId in s.db.cases &&
      (s.opening[tx].found.Some? ==>
        s.opening[tx].found == Some(s.opening[tx].caseId) && s.opening[tx].caseId in s.db.reviews)) &&
    forall tx :: tx in s.deciding ==> s.deciding[tx].outcome != Pending && s.deciding[tx].caseId in s.db.reviews
  }

  ghost predicate RaceInv(s: State) {
    Inv(s.db) && ReadsHold(s)
  }

  /**
   * Openers do not disturb each other: whatever was read, the commit does what the whole
   * operation would do at that instant, so concurrent openers of a case agree on one review.
   */
  lemma OpeningIsAtomic(s: State, tx: TxId, e: EscalationId)
    requires ReadsHold(s) && tx in s.opening
    ensures var o := s.opening[tx];
      OpeningCommit(s.db, o, e) == OpenEscalationStep(s.db, o.caseId, e, o.category, 10, o.given)
  {
  }

  lemma TablesGrow(s: State, step: Step)
    requires Enabled(s, step)
    ensures s.db.cases.Keys <= Next(s, step).db.cases.Keys && s.db.reviews.Keys <= Next(s, step).db.reviews.Keys
  {
  }

  lemma StepKeepsReads(s: State, step: Step)
    requires ReadsHold(s) && Enabled(s, step)
    ensures ReadsHold(Next(s, step))
  {
    TablesGrow(s, step);
    hide After, OpeningCommit, DecidingCommit;
  }

  lemma DecidingKeepsInv(db: Tables, d: Deciding)
    requires Inv(db) && d.outcome != Pending
    ensures Inv(DecidingCommit(db, d))
  {
    var after := DecidingCommit(db, d);
    forall c | c in after.cases && after.cases[c] == Closed && c in after.incidents
      ensures Decided(after, after.incidents[c])
    {
      var r :| ReviewsIncident(db, r, db.incidents[c]) && db.reviews[r].status != Pending;
      assert ReviewsIncident(after, r, after.incidents[c]);
    }
  }

  lemma StepKeepsRaceInv(s: State, step: Step)
    requires RaceInv(s) && Enabled(s, step)
    ensures RaceInv(Next(s, step))
  {
    StepKeepsReads(s, step);
    hide Inv, ReadsHold, OpeningCommit, DecidingCommit, OpenEscalationStep;
    match step
    case OpenCommits(tx, e) =>
      var o := s.opening[tx];
      OpeningIsAtomic(s, tx, e);
      CaseClosure.StepKeepsInv(s.db, OpenEscalation(o.caseId, e, o.category, 10, o.given));
    case DecideCommits(tx) =>
      assert ReadsHold(s);
      OutcomeIsDecided(s, tx);
      DecidingKeepsInv(s.db, s.deciding[tx]);
    case Whole(op) => CaseClosure.StepKeepsInv(s.db, op);
    case _ =>
  }

  lemma OutcomeIsDecided(s: State, tx: TxId)
    requires ReadsHold(s) && tx in s.deciding
    ensures s.deciding[tx].outcome != Pending
  {
  }

  // ---- runs -------------------------------------------------------------------

  ghost predicate Runs(s: State, steps: seq<Step>)
    decreases |steps|
  {
    steps != [] ==> Enabled(s, steps[0]) && Runs(Next(s, steps[0]), steps[1..])
  }

  ghost function Final(s: State, steps: seq<Step>): State
    requires Runs(s, steps)
    decreases |steps|
  {
    if steps == [] then s else Final(Next(s, steps[0]), steps[1..])
  }

  const START := State(Tables(map[], map[], map[], map[]), map[], map[])

  lemma {:induction false} RunKeepsRaceInv(s: State, steps: seq<Step>)
    requires RaceInv(s) && Runs(s, steps)
    ensures RaceInv(Final(s, steps))
    decreases |steps|
  {
    if steps != [] {
      StepKeepsRaceInv(s, steps[0]);
      hide RaceInv, Enabled, Next;
      RunKeepsRaceInv(Next(s, steps[0]), steps[1..]);
    }
  }

  /**
   * Races included, in every reachable state a closed case with an incident has a decided
   * review, and every escalation that owes a review has one.
   */
  lemma ClosedCasesAreReviewedUnderRaces(steps: seq<Step>)
    requires Runs(START, steps)
    ensures Inv(Final(START, steps).db)
  {
    RunKeepsRaceInv(START, steps);
  }

  ghost predicate IsDecided(db: Tables, c: CaseId) {
    c in db.reviews && db.reviews[c].status != Pending
  }

  lemma StepKeepsDecided(s: State, step: Step, c: CaseId)
    requires ReadsHold(s) && Enabled(s, step) && IsDecided(s.db, c)
    ensures IsDecided(Next(s, step).db, c)
  {
    match step
    case OpenCommits(tx, e) => OpeningIsAtomic(s, tx, e);
    case Whole(op) => DecisionsAreFinal(s.db, op, c);
    case _ =>
  }

  /** A decided review never goes back to pending, over any run. */
  lemma {:induction false} NeverReopened(s: State, steps: seq<Step>, c: CaseId)
    requires RaceInv(s) && Runs(s, steps) && IsDecided(s.db, c)
    ensures IsDecided(Final(s, steps).db, c)
    decreases |steps|
  {
    if steps != [] {
      StepKeepsRaceInv(s, steps[0]);
      StepKeepsDecided(s, steps[0], c);
      hide RaceInv, Enabled, Next, IsDecided;
      NeverReopened(Next(s, steps[0]), steps[1..], c);
    }
  }

  // ---- a decision taken twice ---------------------------------------------------

  ghost predicate CanChange(s: State, c: CaseId)
    requires c in s.db.reviews
  {
    exists steps :: Runs(s, steps) && c in Final(s, steps).db.reviews &&
      Final(s, steps).db.reviews[c].status != s.db.reviews[c].status
  }

  /** Somebody who read the review while it was pending is about to decide it otherwise. */
  predicate Contested(s: State, c: CaseId)
    requires c in s.db.reviews
  {
    exists tx :: tx in s.deciding && s.deciding[tx].caseId == c && s.deciding[tx].outcome != s.db.reviews[c].status
  }

  lemma StepKeepsUncontested(s: State, step: Step, c: CaseId)
    requires ReadsHold(s) && Enabled(s, step) && IsDecided(s.db, c) && !Contested(s, c)
    ensures c in Next(s, step).db.reviews && Next(s, step).db.reviews[c].status == s.db.reviews[c].status
    ensures !Contested(Next(s, step), c)
  {
    match step
    case OpenCommits(tx, e) => OpeningIsAtomic(s, tx, e);
    case Whole(op) => DecisionsAreFinal(s.db, op, c);
    case _ =>
  }

  lemma {:induction false} UncontestedStays(s: State, steps: seq<Step>, c: CaseId)
    requires RaceInv(s) && Runs(s, steps) && IsDecided(s.db, c) && !Contested(s, c)
    ensures c in Final(s, steps).db.reviews && Final(s, steps).db.reviews[c].status == s.db.reviews[c].status
    decreases |steps|
  {
    if steps != [] {
      StepKeepsRaceInv(s, steps[0]);
      StepKeepsUncontested(s, steps[0], c);
      hide RaceInv, Enabled, Next, Contested;
      UncontestedStays(Next(s, steps[0]), steps[1..], c);
    }
  }

  lemma OneStep(s: State, step: Step)
    requires Enabled(s, step)
    ensures Runs(s, [step]) && Final(s, [step]) == Next(s, step)
  {
    hide Enabled, Next;
    assert [step][1..] == [];
    assert Runs(Next(s, step), []);
  }

  /**
   * The check that a review is pending and the update that decides it are not tied together: a
   * decision already taken can still change exactly when somebody else, who read the review
   * while it was pending, has yet to commit a different one.
   */
  lemma DecisionCanChangeExactly(s: State, c: CaseId)
    requires RaceInv(s) && IsDecided(s.db, c)
    ensures CanChange(s, c) <==> Contested(s, c)
  {
    if Contested(s, c) {
      var tx :| tx in s.deciding && s.deciding[tx].caseId == c && s.deciding[tx].outcome != s.db.reviews[c].status;
      OneStep(s, DecideCommits(tx));
      assert Final(s, [DecideCommits(tx)]).db.reviews[c].status != s.db.reviews[c].status;
    } else {
      forall steps | Runs(s, steps)
        ensures c in Final(s, steps).db.reviews && Final(s, steps).db.reviews[c].status == s.db.reviews[c].status
      {
        UncontestedStays(s, steps, c);
      }
    }
  }

  /** Two people read the same pending review, and both decide it. */
  function TwiceDecided(
      c: CaseId, e: EscalationId, category: Category, first: Decision, second: Decision, now: int): seq<Step>
  {
    [Whole(Submit(c, Submitted, None)), Whole(OpenEscalation(c, e, category, 10, None)),
      DecideReads(0, c, first, now), DecideReads(1, c, second, now), DecideCommits(0)]
  }

  function Reviewed(c: CaseId, e: EscalationId, category: Category, status: ReviewStatus): Tables {
    Tables(
      map[c := Submitted], map[], map[c := Review(None, status)],
      map[e := Escalation(c, category, false, Some(c))])
  }

  lemma ReviewIsOwed(c: CaseId, e: EscalationId, category: Category)
    requires ReviewRequired(category)
    ensures After(After(START.db, Submit(c, Submitted, None)), OpenEscalation(c, e, category, 10, None)) ==
      Reviewed(c, e, category, Pending)
  {
  }

  lemma OneMoreStep(s: State, step: Step, t: State, rest: seq<Step>, end: State)
    requires Enabled(s, step) && Next(s, step) == t && Runs(t, rest) && Final(t, rest) == end
    ensures Runs(s, [step] + rest) && Final(s, [step] + rest) == end
  {
    hide Enabled, Next;
    assert ([step] + rest)[1..] == rest;
  }

  function OneWaits(c: CaseId, e: EscalationId, category: Category, status: ReviewStatus, d: Decision): State {
    State(Reviewed(c, e, category, status), map[], map[1 := Deciding(c, d.outcome)])
  }

  /** Both read the pending review, and the first one commits. */
  lemma BothDecide(
      c: CaseId, e: EscalationId, category: Category, first: Decision, second: Decision, now: int)
    requires ValidDecision(first, now) && ValidDecision(second, now)
    ensures var s := State(Reviewed(c, e, category, Pending), map[], map[]);
      var steps := [DecideReads(0, c, first, now), DecideReads(1, c, second, now), DecideCommits(0)];
      Runs(s, steps) && Final(s, steps) == OneWaits(c, e, category, first.outcome, second)
  {
    var s := State(Reviewed(c, e, category, Pending), map[], map[]);
    var one := s.(deciding := map[0 := Deciding(c, first.outcome)]);
    var both := s.(deciding := map[0 := Deciding(c, first.outcome), 1 := Deciding(c, second.outcome)]);
    var end := OneWaits(c, e, category, first.outcome, second);
    assert Next(s, DecideReads(0, c, first, now)) == one;
    assert Next(one, DecideReads(1, c, second, now)) == both;
    assert Next(both, DecideCommits(0)) == end;
    OneStep(both, DecideCommits(0));
    OneMoreStep(one, DecideReads(1, c, second, now), both, [DecideCommits(0)], end);
    var rest := [DecideReads(1, c, second, now)] + [DecideCommits(0)];
    OneMoreStep(s, DecideReads(0, c, first, now), one, rest, end);
    assert [DecideReads(0, c, first, now)] + rest ==
      [DecideReads(0, c, first, now), DecideReads(1, c, second, now), DecideCommits(0)];
  }

  lemma OwedFromStart(c: CaseId, e: EscalationId, category: Category, rest: seq<Step>, end: State)
    requires ReviewRequired(category)
    requires var s := State(Reviewed(c, e, category, Pending), map[], map[]); Runs(s, rest) && Final(s, rest) == end
    ensures var steps := [Whole(Submit(c, Submitted, None)), Whole(OpenEscalation(c, e, category, 10, None))] + rest;
      Runs(START, steps) && Final(START, steps) == end
  {
    ReviewIsOwed(c, e, category);
    hide After, Runs, Final;
    var submitted := START.(db := After(START.db, Submit(c, Submitted, None)));
    var opens := Whole(OpenEscalation(c, e, category, 10, None));
    var s := State(Reviewed(c, e, category, Pending), map[], map[]);
    OneMoreStep(submitted, opens, s, rest, end);
    OneMoreStep(START, Whole(Submit(c, Submitted, None)), submitted, [opens] + rest, end);
    assert [Whole(Submit(c, Submitted, None))] + ([opens] + rest) ==
      [Whole(Submit(c, Submitted, None)), opens] + rest;
  }

  /**
   * The failing input, from empty tables, for every case, category and pair of different
   * decisions: the first one commits, and the second one still replaces it.
   */
  lemma DecisionIsReplaced(
      c: CaseId, e: EscalationId, category: Category, first: Decision, second: Decision, now: int)
    requires ReviewRequired(category) && ValidDecision(first, now) && ValidDecision(second, now)
    requires first.outcome != second.outcome
    ensures var steps := TwiceDecided(c, e, category, first, second, now);
      Runs(START, steps) &&
      var s := Final(START, steps);
      s.db == Reviewed(c, e, category, first.outcome) && CanChange(s, c) &&
      Enabled(s, DecideCommits(1)) && Next(s, DecideCommits(1)).db == Reviewed(c, e, category, second.outcome)
  {
    var steps := TwiceDecided(c, e, category, first, second, now);
    var s := OneWaits(c, e, category, first.outcome, second);
    var rest := [DecideReads(0, c, first, now), DecideReads(1, c, second, now), DecideCommits(0)];
    BothDecide(c, e, category, first, second, now);
    OwedFromStart(c, e, category, rest, s);
    assert steps == [Whole(Submit(c, Submitted, None)), Whole(OpenEscalation(c, e, category, 10, None))] + rest;
    RunKeepsRaceInv(START, steps);
    hide RaceInv, Runs, Final, CanChange;
    assert s.deciding[1].caseId == c && s.deciding[1].outcome != s.db.reviews[c].status;
    DecisionCanChangeExactly(s, c);
  }
}
