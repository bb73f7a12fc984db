/**
 * Runs from empty tables to cases whose escalation rows the closure's limited query can miss: an
 * open escalation behind closed ones, and an owed review behind escalations that owe none.
 */
module HiddenEscalations {
  import opened Prelude
  import opened CaseClosure

  const EMPTY := Tables(map[], map[], map[], map[])

  lemma RunOneMore(ops: seq<Op>, op: Op)
    ensures Run(EMPTY, ops + [op]) == After(Run(EMPTY, ops), op)
  {
    assert (ops + [op])[..|ops|] == ops;
  }

  /** The review an escalation of case 0 gets: the case's own when its category requires one. */
  function Owed(category: Category): Option<CaseId> {
    if ReviewRequired(category) then Some(0) else None
  }

  function ClosedRows(n: nat, category: Category): map<EscalationId, Escalation> {
    map e | e in Below(n) :: Escalation(0, category, true, Owed(category))
  }

  function PendingReview(required: bool): map<CaseId, Review> {
    if required then map[0 := Review(None, Pending)] else map[]
  }

  function Opens(e: EscalationId, category: Category): Op {
    OpenEscalation(0, e, category, 10, None)
  }

  /** Case 0 without an incident, and `n` escalations of one category opened and closed again. */
  function ManyClosed(n: nat, category: Category): seq<Op> {
    if n == 0 then [Submit(0, Submitted, None)]
    else ManyClosed(n - 1, category) + [Opens(n - 1, category)] + [CloseEscalation(n - 1, 10)]
  }

  function AfterMany(n: nat, category: Category): Tables {
    Tables(map[0 := Submitted], map[], PendingReview(n > 0 && ReviewRequired(category)), ClosedRows(n, category))
  }

  lemma OpenOne(db: Tables, e: EscalationId, category: Category)
    requires db.cases == map[0 := Submitted] && db.incidents == map[] && e !in db.escalations
    requires db.reviews == PendingReview(0 in db.reviews)
    ensures After(db, Opens(e, category)) == db.(
      reviews := PendingReview(0 in db.reviews || ReviewRequired(category)),
      escalations := db.escalations[e := Escalation(0, category, false, Owed(category))])
  {
  }

  lemma CloseOne(db: Tables, e: EscalationId)
    requires e in db.escalations && !db.escalations[e].closed
    ensures After(db, CloseEscalation(e, 10)) ==
      db.(escalations := db.escalations[e := db.escalations[e].(closed := true)])
  {
  }

  lemma RowsGrow(n: nat, category: Category)
    ensures n !in ClosedRows(n, category)
    ensures ClosedRows(n + 1, category) == ClosedRows(n, category)[n := Escalation(0, category, true, Owed(category))]
  {
  }

  lemma OneMoreIsClosed(n: nat, category: Category)
    ensures After(After(AfterMany(n, category), Opens(n, category)), CloseEscalation(n, 10)) ==
      AfterMany(n + 1, category)
  {
    hide After;
    RowsGrow(n, category);
    hide ClosedRows;
    var db := AfterMany(n, category);
    OpenOne(db, n, category);
    var mid := After(db, Opens(n, category));
    CloseOne(mid, n);
    assert mid.escalations[n := mid.escalations[n].(closed := true)] == ClosedRows(n + 1, category);
  }

  lemma CaseIsSubmitted(category: Category)
    ensures After(EMPTY, Submit(0, Submitted, None)) == AfterMany(0, category)
  {
    assert ClosedRows(0, category) == map[];
  }

  lemma {:induction false} ManyAreClosed(n: nat, category: Category)
    ensures Run(EMPTY, ManyClosed(n, category)) == AfterMany(n, category)
  {
    hide After, AfterMany;
    if n == 0 {
      RunOneMore([], Submit(0, Submitted, None));
      assert [] + [Submit(0, Submitted, None)] == ManyClosed(0, category);
      CaseIsSubmitted(category);
    } else {
      var before := ManyClosed(n - 1, category);
      ManyAreClosed(n - 1, category);
      OneMoreIsClosed(n - 1, category);
      RunOneMore(before, Opens(n - 1, category));
      RunOneMore(before + [Opens(n - 1, category)], CloseEscalation(n - 1, 10));
      hide Run;
    }
  }

  // ---- an open escalation behind closed ones ------------------------------

  /** A well-formed closing decision with the given outcome. */
  function DecisionFor(status: ReviewStatus): Decision {
    if status == Filed then Decision(Filed, true, 10, 10, At(0)) else Decision(status, false, 10, 0, Absent)
  }

  /** One more escalation of the category stays open; the review that is owed, if any, ends in `status`. */
  function HidingRun(n: nat, category: Category, status: ReviewStatus): seq<Op> {
    ManyClosed(n, category) + [Opens(n, category)] + [Decide(0, DecisionFor(status), 0)]
  }

  function HiddenEscalation(n: nat, category: Category, status: ReviewStatus): Tables {
    Tables(
      map[0 := Submitted], map[],
      if ReviewRequired(category) then map[0 := Review(None, status)] else map[],
      ClosedRows(n, category)[n := Escalation(0, category, false, Owed(category))])
  }

  lemma HidingRunHides(n: nat, category: Category, status: ReviewStatus)
    ensures Run(EMPTY, HidingRun(n, category, status)) == HiddenEscalation(n, category, status)
  {
    ManyAreClosed(n, category);
    RunOneMore(ManyClosed(n, category), Opens(n, category));
    RunOneMore(ManyClosed(n, category) + [Opens(n, category)], Decide(0, DecisionFor(status), 0));
    OpenOne(AfterMany(n, category), n, category);
  }

  /** The rows of the case are its only rows: the first `n` are closed, and row `n` is open. */
  lemma RowsOfHidden(n: nat, category: Category, status: ReviewStatus)
    ensures var db := HiddenEscalation(n, category, status);
      n in OpenEscalations(db, 0) &&
      forall e :: e in EscalationsOf(db, 0) && db.escalations[e].closed <==> e in Below(n)
    ensures forall e :: e in HiddenEscalation(n, category, status).escalations ==>
      HiddenEscalation(n, category, status).escalations[e].category == category
  {
  }

  lemma SettledBesideHidden(n: nat, category: Category, status: ReviewStatus)
    ensures ReviewSettled(HiddenEscalation(n, category, status), 0) <==> ReviewRequired(category) && status != Pending
    ensures 0 !in HiddenEscalation(n, category, status).incidents
  {
  }

  lemma HarmlessBesideHidden(n: nat, category: Category, status: ReviewStatus)
    ensures var db := HiddenEscalation(n, category, status);
      n in OpenEscalations(db, 0) &&
      Harmless(db, 0) == if ReviewRequired(category) && status == Pending then {} else Below(n)
  {
    RowsOfHidden(n, category, status);
    SettledBesideHidden(n, category, status);
    hide HiddenEscalation, ReviewSettled;
  }

  /**
   * For every number of closed rows, every category and every state of the owed review: the case
   * is reached from empty tables, one escalation is open, and a closure goes through for some
   * read exactly when twenty rows or more are closed and no review that is owed is pending.
   */
  lemma TwentyClosedHideAnOpenOne(n: nat, category: Category, status: ReviewStatus, t: Transition)
    requires t.caseId == 0 && MayAskToClose(HiddenEscalation(n, category, status), t)
    ensures var db := HiddenEscalation(n, category, status);
      Run(EMPTY, HidingRun(n, category, status)) == db && Inv(db) && n in OpenEscalations(db, 0) &&
      (SomeReadCloses(db, t) <==> n >= 20 && (ReviewRequired(category) ==> status != Pending))
  {
    var db := HiddenEscalation(n, category, status);
    HidingRunHides(n, category, status);
    ClosedCasesAreReviewed(HidingRun(n, category, status));
    HarmlessBesideHidden(n, category, status);
    hide Inv, Run, Harmless, HiddenEscalation;
    EscalationGateIsExact(db, t);
  }

  // ---- an owed review behind escalations that owe none ---------------------

  /** `n` closed escalations without a review, and one of a category that requires one, closed too. */
  function OwingRun(n: nat): seq<Op> {
    ManyClosed(n, Other) + [Opens(n, Legal)] + [CloseEscalation(n, 10)]
  }

  function HiddenOwing(n: nat): Tables {
    Tables(
      map[0 := Submitted], map[], map[0 := Review(None, Pending)],
      ClosedRows(n, Other)[n := Escalation(0, Legal, true, Some(0))])
  }

  lemma OwingRunHides(n: nat)
    ensures Run(EMPTY, OwingRun(n)) == HiddenOwing(n)
  {
    ManyAreClosed(n, Other);
    RunOneMore(ManyClosed(n, Other), Opens(n, Legal));
    RunOneMore(ManyClosed(n, Other) + [Opens(n, Legal)], CloseEscalation(n, 10));
    hide After, Run;
    OpenOne(AfterMany(n, Other), n, Legal);
    CloseOne(After(AfterMany(n, Other), Opens(n, Legal)), n);
  }

  /**
   * The review a closed escalation still owes is pending, and the case closes for some read
   * exactly when twenty other rows or more are closed.
   */
  lemma TwentyOthersHideAnOwedReview(n: nat, t: Transition)
    requires t.caseId == 0 && MayAskToClose(HiddenOwing(n), t)
    ensures var db := HiddenOwing(n);
      Run(EMPTY, OwingRun(n)) == db && Inv(db) && n in EscalationsOf(db, 0) &&
      ReviewRequired(db.escalations[n].category) && db.reviews[0].status == Pending && !ReviewSettled(db, 0) &&
      (SomeReadCloses(db, t) <==> n >= 20)
  {
    var db := HiddenOwing(n);
    OwingRunHides(n);
    ClosedCasesAreReviewed(OwingRun(n));
    OwedReviewGateIsExact(db, t, n);
    assert OweNothing(db, 0) == Below(n);
  }
}
