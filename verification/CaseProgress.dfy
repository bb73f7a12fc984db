/**
 * What the operations on a case let through and leave behind, spelled out on the rows: status
 * transitions, escalations and reportability reviews.
 */
module CaseProgress {
  import opened Prelude
  import opened CaseClosure

  // ---- transitions ------------------------------------------------------------

  /** A consumer must be told why: information is needed, the claim failed, or it closes without a remedy. */
  predicate OwesReason(next: CaseStatus, remedyCompleted: bool) {
    next == NeedInfo || next == Rejected || next == Duplicate || next == Withdrawn ||
    (next == Closed && !remedyCompleted)
  }

  /** What every transition needs, whatever its target. */
  predicate WellFounded(db: Tables, t: Transition) {
    t.caseId in db.cases && t.noteLength <= 2000 && (OwesReason(t.next, t.remedyCompleted) ==> t.noteLength >= 10)
  }

  /** A transition that goes through gives exactly its case exactly the status that was asked for. */
  lemma TransitionLeaves(db: Tables, t: Transition, rows: set<EscalationId>)
    requires TransitionStep(db, t, rows).Commit?
    ensures var after := TransitionStep(db, t, rows).state;
      after == db.(cases := after.cases) && after.cases.Keys == db.cases.Keys && after.cases[t.caseId] == t.next &&
      forall c :: c in db.cases && c != t.caseId ==> after.cases[c] == db.cases[c]
  {
  }

  /** Short of closing, the note and the workflow decide, and force stands in for the workflow only. */
  lemma TransitionIsExact(db: Tables, t: Transition, rows: set<EscalationId>)
    requires t.next != Closed
    ensures TransitionStep(db, t, rows).Commit? <==> WellFounded(db, t) && (t.bypass || t.workflowAllows)
    ensures TransitionStep(db, t, rows) == Abort(TransitionNotAllowed) <==>
      WellFounded(db, t) && !t.bypass && !t.workflowAllows
    ensures TransitionStep(db, t, rows) == Abort(NotFound) <==> t.caseId !in db.cases
    ensures TransitionStep(db, t, rows) == Abort(NoteTooLong) <==> t.caseId in db.cases && t.noteLength > 2000
  {
  }

  /** The incident's review while there is an incident, else the case's own. */
  ghost predicate ReviewStands(db: Tables, c: CaseId, status: ReviewStatus) {
    if c in db.incidents then
      exists r :: r in db.reviews && db.reviews[r] == Review(Some(db.incidents[c]), status)
    else c in db.reviews && db.reviews[c].status == status
  }

  /** Whether the rows that were read, or an incident, make the case owe a review. */
  ghost predicate OwesReview(db: Tables, c: CaseId, rows: set<EscalationId>) {
    c in db.incidents ||
    exists e ::
      e in rows && e in db.escalations &&
      db.escalations[e].category in {Injury, BatteryIngestion, Legal, Regulator, Media}
  }

  ghost predicate SeesOpen(db: Tables, rows: set<EscalationId>) {
    exists e :: e in rows && e in db.escalations && db.escalations[e].closed == false
  }

  lemma IncidentReviewStands(db: Tables, i: IncidentId, status: ReviewStatus)
    requires UniqueIncidents(db)
    ensures IncidentReview(db, i) == Some(status) <==>
      exists r :: r in db.reviews && db.reviews[r] == Review(Some(i), status)
  {
    forall r | r in db.reviews && db.reviews[r] == Review(Some(i), status)
      ensures IncidentReview(db, i) == Some(status)
    {
      assert ReviewsIncident(db, r, i);
    }
    if IncidentReview(db, i) == Some(status) {
      var r :| ReviewsIncident(db, r, i) && db.reviews[r].status == status;
      assert db.reviews[r] == Review(Some(i), status);
    }
  }

  /** Why a closure is refused, on the rows that were read: force helps against none of it. */
  lemma ClosureRefusalsAreExact(db: Tables, t: Transition, rows: set<EscalationId>)
    requires UniqueIncidents(db) && t.next == Closed && WellFounded(db, t)
    ensures var r, c := TransitionStep(db, t, rows), t.caseId;
      (r == Abort(EscalationOpen) <==> SeesOpen(db, rows)) &&
      (r == Abort(ReviewPending) <==>
        !SeesOpen(db, rows) && OwesReview(db, c, rows) && ReviewStands(db, c, Pending)) &&
      (r == Abort(ReviewMissing) <==>
        !SeesOpen(db, rows) && OwesReview(db, c, rows) && forall status :: !ReviewStands(db, c, status)) &&
      (r == Abort(TransitionNotAllowed) <==>
        !SeesOpen(db, rows) && !t.bypass && !t.workflowAllows &&
        (OwesReview(db, c, rows) ==> ReviewStands(db, c, Filed) || ReviewStands(db, c, DocumentedNonReportable)))
  {
    var c := t.caseId;
    var review := if c in db.incidents then IncidentReview(db, db.incidents[c])
      else if c in db.reviews then Some(db.reviews[c].status) else None;
    forall status ensures review == Some(status) <==> ReviewStands(db, c, status) {
      if c in db.incidents { IncidentReviewStands(db, db.incidents[c], status); }
    }
    hide ReviewStands, IncidentReview, UniqueIncidents;
    if review.Some? {
      assert ReviewStands(db, c, review.value);
      match review.value { case Pending => case Filed => case DocumentedNonReportable => }
    }
    assert OwesReview(db, c, rows) <==>
      c in db.incidents || exists e :: e in rows && e in db.escalations && ReviewRequired(db.escalations[e].category);
  }

  // ---- reviews ------------------------------------------------------------------

  /** A filing names its reference, its evidence and a date at most 26 hours ahead. */
  predicate SoundFiling(d: Decision, now: int) {
    d.outcome == Filed && d.hasReference && d.evidenceLength >= 10 && d.rationaleLength >= 10 &&
    match d.filedAt case At(time) => time - now <= 93600000 case _ => false
  }

  /** A decision not to file carries neither date nor evidence. */
  predicate SoundWaiver(d: Decision) {
    d.outcome == DocumentedNonReportable && d.rationaleLength >= 10 && d.evidenceLength == 0 && d.filedAt == Absent
  }

  lemma DecisionIsExact(db: Tables, c: CaseId, d: Decision, now: int)
    ensures var r := CloseReviewStep(db, c, d, now);
      (r.Commit? <==>
        c in db.reviews && db.reviews[c].status == Pending && (SoundFiling(d, now) || SoundWaiver(d))) &&
      (r == Abort(NotFound) <==> c !in db.reviews) &&
      (r == Abort(ReviewNotPending) <==> c in db.reviews && db.reviews[c].status in {Filed, DocumentedNonReportable}) &&
      (r.Commit? ==>
        r.state == db.(reviews := r.state.reviews) && r.state.reviews.Keys == db.reviews.Keys &&
        r.state.reviews[c] == Review(db.reviews[c].incident, d.outcome) &&
        forall o :: o in db.reviews && o != c ==> r.state.reviews[o] == db.reviews[o])
  {
  }

  // ---- escalations ----------------------------------------------------------------

  /** The five categories a case must not leave without a decided review. */
  predicate Grave(category: Category) {
    category != SuspectedFraud && category != DataPrivacy && category != Other
  }

  /** The incident of the case is reviewed under another case. */
  ghost predicate ReviewedElsewhere(db: Tables, c: CaseId) {
    c in db.incidents && exists o :: o in db.reviews && db.reviews[o].incident == Some(db.incidents[c])
  }

  /** Opening an escalation needs a reason and a case, and a review that is named must exist. */
  lemma EscalationIsExact(
      db: Tables, c: CaseId, e: EscalationId, category: Category, reasonLength: nat, given: Option<CaseId>)
    requires e !in db.escalations
    ensures var r := OpenEscalationStep(db, c, e, category, reasonLength, given);
      (r.Commit? <==>
        reasonLength >= 10 && c in db.cases && (given != None ==> given.value in db.reviews) &&
        (given == None && Grave(category) && c !in db.reviews ==> !ReviewedElsewhere(db, c))) &&
      (r == Abort(ReasonTooShort) <==> reasonLength < 10) &&
      (r == Abort(NotFound) <==> reasonLength >= 10 && c !in db.cases)
  {
  }

  /** It leaves one open escalation and, for a grave category, the review the case owes. */
  lemma EscalationLeaves(
      db: Tables, c: CaseId, e: EscalationId, category: Category, reasonLength: nat, given: Option<CaseId>)
    requires OpenEscalationStep(db, c, e, category, reasonLength, given).Commit?
    ensures var after := OpenEscalationStep(db, c, e, category, reasonLength, given).state;
      after == db.(reviews := after.reviews, escalations := after.escalations) &&
      after.escalations == db.escalations[e := after.escalations[e]] && e !in db.escalations &&
      var row := after.escalations[e];
      row.caseId == c && row.category == category && row.closed == false &&
      (given != None ==> row.review == given) &&
      (given == None ==> row.review == if Grave(category) then Some(c) else None) &&
      (row.review != None ==> row.review.value in after.reviews) &&
      (forall o :: o in db.reviews ==> o in after.reviews && after.reviews[o] == db.reviews[o]) &&
      (forall o :: o in after.reviews && o !in db.reviews ==>
        o == c && given == None && Grave(category) && after.reviews[o].status == Pending &&
        after.reviews[o].incident == if c in db.incidents then Some(db.incidents[c]) else None)
  {
  }

  /** Closing an escalation is for open ones, once, with evidence, and moves nothing else. */
  lemma EscalationClosingIsExact(db: Tables, e: EscalationId, evidenceLength: nat)
    ensures var r := CloseEscalationStep(db, e, evidenceLength);
      (r.Commit? <==> evidenceLength >= 10 && e in db.escalations && !db.escalations[e].closed) &&
      (r == Abort(ReasonTooShort) <==> evidenceLength < 10) &&
      (r.Abort? && r != Abort(ReasonTooShort) ==> r == Abort(NotFound)) &&
      (r.Commit? ==>
        r.state == db.(escalations := r.state.escalations) && r.state.escalations.Keys == db.escalations.Keys &&
        r.state.escalations[e] == Escalation(db.escalations[e].caseId, db.escalations[e].category, true,
          db.escalations[e].review) &&
        forall o :: o in db.escalations && o != e ==> r.state.escalations[o] == db.escalations[o])
  {
  }

  /** A submission makes its case, and with an incident the pending review of that incident. */
  lemma SubmissionIsExact(db: Tables, c: CaseId, status: CaseStatus, incident: Option<IncidentId>)
    requires status in {Submitted, Triage, Escalated}
    ensures var r := SubmitStep(db, c, status, incident);
      (r.Commit? <==>
        c !in db.cases && c !in db.incidents && c !in db.reviews &&
        (incident != None ==> forall o :: o in db.reviews ==> db.reviews[o].incident != incident)) &&
      (r.Commit? ==>
        r.state.cases == db.cases[c := status] && r.state.escalations == db.escalations &&
        (incident == None ==> r.state.incidents == db.incidents && r.state.reviews == db.reviews) &&
        (incident != None ==>
          r.state.incidents == db.incidents[c := incident.value] &&
          r.state.reviews == db.reviews[c := Review(incident, Pending)]))
  {
  }
}
