/**
 * Case status transitions and the two gates in front of `closed`: a decided reportability
 * review and no open escalation. Forced transitions skip the workflow matrix, not the gates.
 */
module CaseClosure {
  import opened Prelude

  type CaseId = nat
  type IncidentId = nat
  type EscalationId = nat

  datatype CaseStatus =
    | Submitted | Escalated | Triage | UnderReview | NeedInfo | Approved
    | Rejected | Duplicate | Withdrawn | ClosureReview | Closed

  datatype ReviewStatus = Pending | Filed | DocumentedNonReportable

  datatype Category = Injury | BatteryIngestion | Legal | Regulator | Media | SuspectedFraud | DataPrivacy | Other

  datatype Review = Review(incident: Option<IncidentId>, status: ReviewStatus)
  /** `review` is the review the escalation refers to, addressed by its case. */
  datatype Escalation = Escalation(caseId: CaseId, category: Category, closed: bool, review: Option<CaseId>)

  /** `incidents` and `reviews` are unique per case. */
  datatype Tables = Tables(
    cases: map<CaseId, CaseStatus>,
    incidents: map<CaseId, IncidentId>,
    reviews: map<CaseId, Review>,
    escalations: map<EscalationId, Escalation>)

  datatype Problem =
    | NotFound | NoteTooLong | ReasonRequired | EscalationOpen | ReviewMissing | ReviewPending
    | TransitionNotAllowed | ReviewNotPending | InvalidClosure | ReasonTooShort | UniqueViolation | ReviewUnknown

  const ESCALATION_ROWS_READ: nat := 20

  predicate ReviewRequired(c: Category) {
    c in {Injury, BatteryIngestion, Legal, Regulator, Media}
  }

  predicate RequiresReason(next: CaseStatus, remedyCompleted: bool) {
    if next == Closed then !remedyCompleted else next in {NeedInfo, Rejected, Duplicate, Withdrawn}
  }

  ghost function EscalationsOf(db: Tables, c: CaseId): set<EscalationId> {
    set e | e in db.escalations && db.escalations[e].caseId == c
  }

  /** What the escalation query may return: any twenty rows of the case, all of them when there are fewer. */
  ghost predicate LimitedRead(all: set<EscalationId>, rows: set<EscalationId>) {
    rows <= all && |rows| == if |all| <= ESCALATION_ROWS_READ then |all| else ESCALATION_ROWS_READ
  }

  /** The review that carries a given incident; at most one by its unique index. */
  predicate ReviewsIncident(db: Tables, c: CaseId, i: IncidentId) {
    c in db.reviews && db.reviews[c].incident == Some(i)
  }

  ghost predicate UniqueIncidents(db: Tables) {
    forall c, d ::
      c in db.reviews && d in db.reviews && db.reviews[c].incident.Some? &&
      db.reviews[c].incident == db.reviews[d].incident ==>
        c == d
  }

  ghost function IncidentReview(db: Tables, i: IncidentId): Option<ReviewStatus> {
    if exists c :: ReviewsIncident(db, c, i) then
      var c :| ReviewsIncident(db, c, i); Some(db.reviews[c].status)
    else None
  }

  ghost function ClosureRefusal(db: Tables, c: CaseId, rows: set<EscalationId>): Option<Problem> {
    var required := c in db.incidents ||
      exists e :: e in rows && e in db.escalations && ReviewRequired(db.escalations[e].category);
    var review :=
      if c in db.incidents then IncidentReview(db, db.incidents[c])
      else if c in db.reviews then Some(db.reviews[c].status) else None;
    if exists e :: e in rows && e in db.escalations && !db.escalations[e].closed then Some(EscalationOpen)
    else if required && review.None? then Some(ReviewMissing)
    else if required && review == Some(Pending) then Some(ReviewPending)
    else None
  }

  /** `noteLength` is the length of the trimmed note, zero without one. */
  datatype Transition = Transition(
    caseId: CaseId, next: CaseStatus, noteLength: nat, remedyCompleted: bool, bypass: bool, workflowAllows: bool)

  ghost function TransitionStep(db: Tables, t: Transition, rows: set<EscalationId>): Tx<Tables, (), Problem> {
    if t.caseId !in db.cases then Abort(NotFound)
    else if t.noteLength > 2000 then Abort(NoteTooLong)
    else if RequiresReason(t.next, t.remedyCompleted) && t.noteLength < 10 then Abort(ReasonRequired)
    else if t.next == Closed && ClosureRefusal(db, t.caseId, rows).Some? then
      Abort(ClosureRefusal(db, t.caseId, rows).value)
    else if !t.bypass && !t.workflowAllows then Abort(TransitionNotAllowed)
    else Commit(db.(cases := db.cases[t.caseId := t.next]), ())
  }

  /** The filing date of a closing decision, as `parseFiledAt` sees it. */
  datatype FilingDate = Absent | Malformed | At(time: int)

  const FILED_AT_FUTURE_TOLERANCE_MS := 26 * 60 * 60 * 1000

  datatype Decision = Decision(
    outcome: ReviewStatus, hasReference: bool, rationaleLength: nat, evidenceLength: nat, filedAt: FilingDate)

  predicate ValidDecision(d: Decision, now: int) {
    d.outcome != Pending && d.rationaleLength >= 10 &&
    if d.outcome == Filed then
      d.hasReference && d.evidenceLength >= 10 && d.filedAt.At? && d.filedAt.time <= now + FILED_AT_FUTURE_TOLERANCE_MS
    else d.filedAt.Absent? && d.evidenceLength == 0
  }

  /** A review is addressed by the case it belongs to. */
  function CloseReviewStep(db: Tables, c: CaseId, d: Decision, now: int): Tx<Tables, (), Problem> {
    if c !in db.reviews then Abort(NotFound)
    else if db.reviews[c].status != Pending then Abort(ReviewNotPending)
    else if !ValidDecision(d, now) then Abort(InvalidClosure)
    else Commit(db.(reviews := db.reviews[c := db.reviews[c].(status := d.outcome)]), ())
  }

  function IncidentOf(db: Tables, c: CaseId): Option<IncidentId> {
    if c in db.incidents then Some(db.incidents[c]) else None
  }

  predicate IncidentTaken(db: Tables, i: Option<IncidentId>) {
    i.Some? && exists d :: d in db.reviews && db.reviews[d].incident == i
  }

  /** `given` is the review the caller named, if any; a category that owes one otherwise gets the case's own. */
  function OpenEscalationStep(
    db: Tables, c: CaseId, e: EscalationId, category: Category, reasonLength: nat,
    given: Option<CaseId>): Tx<Tables, (), Problem> {
    if reasonLength < 10 then Abort(ReasonTooShort)
    else if c !in db.cases then Abort(NotFound)
    else if e in db.escalations then Abort(UniqueViolation)
    else if given.Some? && given.value !in db.reviews then Abort(ReviewUnknown)
    else
      var review := if given.None? && ReviewRequired(category) then Some(c) else given;
      var owes := given.None? && ReviewRequired(category) && c !in db.reviews;
      if owes && IncidentTaken(db, IncidentOf(db, c)) then Abort(UniqueViolation)
      else
        var reviews := if owes then db.reviews[c := Review(IncidentOf(db, c), Pending)] else db.reviews;
        Commit(db.(reviews := reviews, escalations := db.escalations[e := Escalation(c, category, false, review)]), ())
  }

  function CloseEscalationStep(db: Tables, e: EscalationId, evidenceLength: nat): Tx<Tables, (), Problem> {
    if evidenceLength < 10 then Abort(ReasonTooShort)
    else if e !in db.escalations || db.escalations[e].closed then Abort(NotFound)
    else Commit(db.(escalations := db.escalations[e := db.escalations[e].(closed := true)]), ())
  }

  /** A claim submission: the new case, and its incident with a pending review when one was reported. */
  function SubmitStep(db: Tables, c: CaseId, status: CaseStatus, incident: Option<IncidentId>): Tx<Tables, (), Problem>
    requires status in {Submitted, Triage, Escalated}
  {
    if c in db.cases || c in db.incidents || c in db.reviews || IncidentTaken(db, incident) then Abort(UniqueViolation)
    else if incident.None? then Commit(db.(cases := db.cases[c := status]), ())
    else Commit(db.(cases := db.cases[c := status], incidents := db.incidents[c := incident.value],
                    reviews := db.reviews[c := Review(incident, Pending)]), ())
  }

  // ---- the service --------------------------------------------------------

  class AdminService {
    var cases: map<CaseId, CaseStatus>
    var incidents: map<CaseId, IncidentId>
    var reviews: map<CaseId, Review>
    var escalations: map<EscalationId, Escalation>

    ghost function State(): Tables
      reads this
    {
      Tables(cases, incidents, reviews, escalations)
    }

    /** Twenty rows of the case at most, in no particular order. */
    method ReadEscalations(c: CaseId) returns (rows: set<EscalationId>)
      ensures LimitedRead(EscalationsOf(State(), c), rows)
    {
      rows := {};
      var rest := set e | e in escalations && escalations[e].caseId == c;
      ghost var all := rest;
      assert all == EscalationsOf(State(), c);
      while rest != {} && |rows| < ESCALATION_ROWS_READ
        invariant rows !! rest && rows + rest == all && |rows| <= ESCALATION_ROWS_READ
        decreases rest
      {
        var e :| e in rest;
        rows, rest := rows + {e}, rest - {e};
      }
      assert |all| == |rows| + |rest|;
      assert rest != {} ==> |rest| > 0;
    }

    method TransitionCaseStatus(t: Transition) returns (refusal: Option<Problem>, ghost rows: set<EscalationId>)
      requires UniqueIncidents(State())
      modifies this`cases
      ensures t.next == Closed && t.caseId in old(cases) ==> LimitedRead(EscalationsOf(old(State()), t.caseId), rows)
      ensures match TransitionStep(old(State()), t, rows)
              case Commit(after, _) => State() == after && refusal == None
              case Abort(p) => State() == old(State()) && refusal == Some(p)
    {
      rows := {};
      if t.caseId !in cases { return Some(NotFound), rows; }
      var escalationRows := ReadEscalations(t.caseId);
      rows := escalationRows;
      if t.noteLength > 2000 { return Some(NoteTooLong), rows; }
      var incidentReview: Option<ReviewStatus> := None;
      if t.caseId in incidents && exists c :: c in reviews && reviews[c].incident == Some(incidents[t.caseId]) {
        var c :| c in reviews && reviews[c].incident == Some(incidents[t.caseId]);
        assert ReviewsIncident(State(), c, incidents[t.caseId]);
        incidentReview := Some(reviews[c].status);
      }
      assert t.caseId in incidents ==> incidentReview == IncidentReview(State(), incidents[t.caseId]);
      if RequiresReason(t.next, t.remedyCompleted) && t.noteLength < 10 { return Some(ReasonRequired), rows; }
      var reviewRequired := t.caseId in incidents;
      if t.next == Closed {
        assert rows <= EscalationsOf(State(), t.caseId);
        if exists e :: e in escalationRows && !escalations[e].closed { return Some(EscalationOpen), rows; }
        reviewRequired := reviewRequired || exists e :: e in escalationRows && ReviewRequired(escalations[e].category);
      }
      if t.next == Closed && reviewRequired {
        if t.caseId in incidents {
          if incidentReview.None? { return Some(ReviewMissing), rows; }
          if incidentReview.value == Pending { return Some(ReviewPending), rows; }
        } else {
          if t.caseId !in reviews { return Some(ReviewMissing), rows; }
          if reviews[t.caseId].status == Pending { return Some(ReviewPending), rows; }
        }
      }
      if t.bypass {
        cases := cases[t.caseId := t.next];
        return None, rows;
      }
      if !t.workflowAllows { return Some(TransitionNotAllowed), rows; }
      cases := cases[t.caseId := t.next];
      return None, rows;
    }

    method CloseReportabilityReview(c: CaseId, d: Decision, now: int) returns (refusal: Option<Problem>)
      requires d.outcome != Pending
      modifies this`reviews
      ensures match CloseReviewStep(old(State()), c, d, now)
              case Commit(after, _) => State() == after && refusal == None
              case Abort(p) => State() == old(State()) && refusal == Some(p)
    {
      if c !in reviews { return Some(NotFound); }
      if reviews[c].status != Pending { return Some(ReviewNotPending); }
      if d.outcome == Filed && !d.hasReference { return Some(InvalidClosure); }
      if d.rationaleLength < 10 { return Some(InvalidClosure); }
      if d.outcome == Filed && d.evidenceLength < 10 { return Some(InvalidClosure); }
      if d.outcome != Filed && (!d.filedAt.Absent? || d.evidenceLength > 0) { return Some(InvalidClosure); }
      if d.outcome == Filed && (!d.filedAt.At? || d.filedAt.time > now + FILED_AT_FUTURE_TOLERANCE_MS) {
        return Some(InvalidClosure);
      }
      reviews := reviews[c := reviews[c].(status := d.outcome)];
      return None;
    }

    method OpenCaseEscalation(c: CaseId, e: EscalationId, category: Category, reasonLength: nat, given: Option<CaseId>)
      returns (refusal: Option<Problem>)
      modifies this`reviews, this`escalations
      ensures match OpenEscalationStep(old(State()), c, e, category, reasonLength, given)
              case Commit(after, _) => State() == after && refusal == None
              case Abort(p) => State() == old(State()) && refusal == Some(p)
    {
      if reasonLength < 10 { return Some(ReasonTooShort); }
      if c !in cases { return Some(NotFound); }
      if e in escalations { return Some(UniqueViolation); }
      if given.Some? && given.value !in reviews { return Some(ReviewUnknown); }
      var review := given;
      if review.None? && ReviewRequired(category) {
        review := Some(c);
      }
      if given.None? && ReviewRequired(category) && c !in reviews {
        var incident := if c in incidents then Some(incidents[c]) else None;
        if incident.Some? && exists d :: d in reviews && reviews[d].incident == incident {
          return Some(UniqueViolation);
        }
        reviews := reviews[c := Review(incident, Pending)];
      }
      escalations := escalations[e := Escalation(c, category, false, review)];
      return None;
    }

    method CloseCaseEscalation(e: EscalationId, evidenceLength: nat) returns (refusal: Option<Problem>)
      modifies this`escalations
      ensures match CloseEscalationStep(old(State()), e, evidenceLength)
              case Commit(after, _) => State() == after && refusal == None
              case Abort(p) => State() == old(State()) && refusal == Some(p)
    {
      if evidenceLength < 10 { return Some(ReasonTooShort); }
      if e !in escalations || escalations[e].closed { return Some(NotFound); }
      escalations := escalations[e := escalations[e].(closed := true)];
      return None;
    }
  }

  // ---- runs ---------------------------------------------------------------

  datatype Op =
    | Submit(newCase: CaseId, status: CaseStatus, incident: Option<IncidentId>)
    | Move(transition: Transition, rows: set<EscalationId>)
    | Decide(reviewed: CaseId, decision: Decision, now: int)
    | OpenEscalation(caseId: CaseId, id: EscalationId, category: Category, reasonLength: nat, given: Option<CaseId>)
    | CloseEscalation(closedId: EscalationId, evidenceLength: nat)

  /** Submissions start in one of three statuses; a transition reads escalations as the query allows. */
  ghost predicate Possible(db: Tables, op: Op) {
    match op
    case Submit(_, status, _) => status in {Submitted, Triage, Escalated}
    case Move(t, rows) => LimitedRead(EscalationsOf(db, t.caseId), rows)
    case _ => true
  }

  ghost function Outcome(db: Tables, op: Op): Tx<Tables, (), Problem>
    requires Possible(db, op)
  {
    match op
    case Submit(c, status, incident) => SubmitStep(db, c, status, incident)
    case Move(t, rows) => TransitionStep(db, t, rows)
    case Decide(c, d, now) => CloseReviewStep(db, c, d, now)
    case OpenEscalation(c, e, category, reasonLength, given) =>
      OpenEscalationStep(db, c, e, category, reasonLength, given)
    case CloseEscalation(e, evidenceLength) => CloseEscalationStep(db, e, evidenceLength)
  }

  ghost function After(db: Tables, op: Op): Tables {
    if Possible(db, op) && Outcome(db, op).Commit? then Outcome(db, op).state else db
  }

  ghost function Run(db: Tables, ops: seq<Op>): Tables {
    if ops == [] then db else After(Run(db, ops[..|ops| - 1]), ops[|ops| - 1])
  }

  ghost predicate Decided(db: Tables, i: IncidentId) {
    exists c :: ReviewsIncident(db, c, i) && db.reviews[c].status != Pending
  }

  /** Every closed case with an incident has a decided review of that incident. */
  ghost predicate ClosedIsReviewed(db: Tables) {
    forall c :: c in db.cases && db.cases[c] == Closed && c in db.incidents ==> Decided(db, db.incidents[c])
  }

  /** An escalation of a category that owes a review refers to one, and what is referred to exists. */
  ghost predicate OwedReviewsExist(db: Tables) {
    forall e :: e in db.escalations ==>
      (ReviewRequired(db.escalations[e].category) ==> db.escalations[e].review.Some?) &&
      (db.escalations[e].review.Some? ==> db.escalations[e].review.value in db.reviews)
  }

  ghost predicate Inv(db: Tables) {
    ClosedIsReviewed(db) && UniqueIncidents(db) && OwedReviewsExist(db)
  }

  /** A decision is final: no operation takes a decided review back or away. */
  lemma DecisionsAreFinal(db: Tables, op: Op, c: CaseId)
    requires c in db.reviews && db.reviews[c].status != Pending
    ensures c in After(db, op).reviews && After(db, op).reviews[c] == db.reviews[c]
  {
  }

  lemma DecidedStays(db: Tables, op: Op, i: IncidentId)
    requires Decided(db, i)
    ensures Decided(After(db, op), i)
  {
    var c :| ReviewsIncident(db, c, i) && db.reviews[c].status != Pending;
    DecisionsAreFinal(db, op, c);
    assert ReviewsIncident(After(db, op), c, i);
  }

  lemma StepKeepsOwedReviews(db: Tables, op: Op)
    requires OwedReviewsExist(db)
    ensures OwedReviewsExist(After(db, op))
  {
  }

  lemma StepKeepsUniqueIncidents(db: Tables, op: Op)
    requires UniqueIncidents(db)
    ensures UniqueIncidents(After(db, op))
  {
  }

  lemma StepKeepsClosedReviewed(db: Tables, op: Op)
    requires ClosedIsReviewed(db)
    ensures ClosedIsReviewed(After(db, op))
  {
    var after := After(db, op);
    forall c | c in after.cases && after.cases[c] == Closed && c in after.incidents
      ensures Decided(after, after.incidents[c])
    {
      if c in db.cases && db.cases[c] == Closed {
        DecidedStays(db, op, db.incidents[c]);
      } else {
        assert op.Move? && op.transition.caseId == c && op.transition.next == Closed;
        assert ClosureRefusal(db, c, op.rows).None?;
        var d :| ReviewsIncident(db, d, db.incidents[c]) &&
          IncidentReview(db, db.incidents[c]) == Some(db.reviews[d].status);
        assert ReviewsIncident(after, d, after.incidents[c]);
      }
    }
  }

  lemma StepKeepsInv(db: Tables, op: Op)
    requires Inv(db)
    ensures Inv(After(db, op))
  {
    hide After, ClosedIsReviewed, UniqueIncidents, OwedReviewsExist;
    StepKeepsClosedReviewed(db, op);
    StepKeepsUniqueIncidents(db, op);
    StepKeepsOwedReviews(db, op);
  }

  /**
   * In every reachable state a closed case with an incident has a decided review, and every review
   * an escalation owes exists.
   */
  lemma {:induction false} ClosedCasesAreReviewed(ops: seq<Op>)
    ensures Inv(Run(Tables(map[], map[], map[], map[]), ops))
  {
    if ops != [] {
      ClosedCasesAreReviewed(ops[..|ops| - 1]);
      StepKeepsInv(Run(Tables(map[], map[], map[], map[]), ops[..|ops| - 1]), ops[|ops| - 1]);
    }
  }

  // ---- the escalation gate and its limited read ---------------------------

  ghost function OpenEscalations(db: Tables, c: CaseId): set<EscalationId> {
    set e | e in EscalationsOf(db, c) && !db.escalations[e].closed
  }

  lemma {:induction false} SubsetOfSize(all: set<EscalationId>, n: nat) returns (some: set<EscalationId>)
    requires n <= |all|
    ensures some <= all && |some| == n
  {
    some := {};
    if n > 0 {
      var e :| e in all;
      var rest := SubsetOfSize(all - {e}, n - 1);
      some := rest + {e};
    }
  }

  /** A limited read can miss every row of a kind exactly when there is none, or twenty others. */
  lemma ReadCanMiss(all: set<EscalationId>, wanted: set<EscalationId>)
    requires wanted <= all
    ensures (exists rows :: LimitedRead(all, rows) && rows !! wanted)
      <==> wanted == {} || |all - wanted| >= ESCALATION_ROWS_READ
  {
    if exists rows :: LimitedRead(all, rows) && rows !! wanted {
      var rows :| LimitedRead(all, rows) && rows !! wanted;
      SubsetsAreNoLarger(rows, all - wanted);
      SubsetsAreNoLarger(rows, all);
    }
    if wanted == {} {
      var rows := SubsetOfSize(all, if |all| <= ESCALATION_ROWS_READ then |all| else ESCALATION_ROWS_READ);
      assert LimitedRead(all, rows) && rows !! wanted;
    } else if |all - wanted| >= ESCALATION_ROWS_READ {
      SubsetsAreNoLarger(all - wanted, all);
      var rows := SubsetOfSize(all - wanted, ESCALATION_ROWS_READ);
      assert LimitedRead(all, rows) && rows !! wanted;
    }
  }

  /** The review a closure would look for is decided. */
  ghost predicate ReviewSettled(db: Tables, c: CaseId) {
    if c in db.incidents then IncidentReview(db, db.incidents[c]) !in {None, Some(Pending)}
    else c in db.reviews && db.reviews[c].status != Pending
  }

  /** Escalations that do not stand in the way: closed, and owing no review that is still undecided. */
  ghost function Harmless(db: Tables, c: CaseId): set<EscalationId> {
    set e | e in EscalationsOf(db, c) && db.escalations[e].closed &&
      (ReviewSettled(db, c) || (c !in db.incidents && !ReviewRequired(db.escalations[e].category)))
  }

  /** Everything a closure must satisfy besides the two gates. */
  predicate MayAskToClose(db: Tables, t: Transition) {
    t.caseId in db.cases && t.next == Closed && t.noteLength <= 2000 &&
    (RequiresReason(t.next, t.remedyCompleted) ==> t.noteLength >= 10) && (t.bypass || t.workflowAllows)
  }

  ghost predicate SomeReadCloses(db: Tables, t: Transition) {
    exists rows :: LimitedRead(EscalationsOf(db, t.caseId), rows) && TransitionStep(db, t, rows).Commit?
  }

  /** Nothing closes a case short of these, whatever is read. */
  lemma OnlyWhoMayAskCloses(db: Tables, t: Transition)
    requires t.next == Closed && SomeReadCloses(db, t)
    ensures MayAskToClose(db, t)
  {
  }

  lemma ClosesOnHarmlessRows(db: Tables, t: Transition, rows: set<EscalationId>)
    requires MayAskToClose(db, t) && LimitedRead(EscalationsOf(db, t.caseId), rows)
    ensures TransitionStep(db, t, rows).Commit?
      <==> rows <= Harmless(db, t.caseId) && (t.caseId in db.incidents ==> ReviewSettled(db, t.caseId))
  {
    var c := t.caseId;
    assert rows <= EscalationsOf(db, c);
    if rows <= Harmless(db, c) {
      assert forall e :: e in rows ==> db.escalations[e].closed;
      assert ReviewSettled(db, c) || c in db.incidents ||
        forall e :: e in rows ==> !ReviewRequired(db.escalations[e].category);
    } else {
      var e :| e in rows && e !in Harmless(db, c);
      assert e in db.escalations;
    }
  }

  /**
   * When a step into `closed` can happen, whatever the case looks like: its incident, if any,
   * has a decided review, and the query can fill up with escalations that do not stand in the
   * way, because there are no others or because there are twenty of them.
   */
  lemma ClosureGateIsExact(db: Tables, t: Transition)
    requires MayAskToClose(db, t)
    ensures SomeReadCloses(db, t) <==>
      (t.caseId in db.incidents ==> ReviewSettled(db, t.caseId)) &&
      (EscalationsOf(db, t.caseId) == Harmless(db, t.caseId) || |Harmless(db, t.caseId)| >= ESCALATION_ROWS_READ)
  {
    var all, harmless := EscalationsOf(db, t.caseId), Harmless(db, t.caseId);
    assert all - (all - harmless) == harmless;
    assert all - harmless == {} <==> all == harmless;
    ReadCanMiss(all, all - harmless);
    if SomeReadCloses(db, t) {
      var rows :| LimitedRead(all, rows) && TransitionStep(db, t, rows).Commit?;
      ClosesOnHarmlessRows(db, t, rows);
      assert LimitedRead(all, rows) && rows !! (all - harmless);
    }
    if rows: set<EscalationId> :| LimitedRead(all, rows) && rows !! (all - harmless) {
      assert rows <= harmless;
      ClosesOnHarmlessRows(db, t, rows);
    }
  }

  /**
   * A closure can leave an escalation open exactly when twenty others of the case are closed
   * and owe nothing: then the query can fill up without seeing the open one.
   */
  lemma EscalationGateIsExact(db: Tables, t: Transition)
    requires MayAskToClose(db, t) && OpenEscalations(db, t.caseId) != {}
    ensures SomeReadCloses(db, t) <==> |Harmless(db, t.caseId)| >= ESCALATION_ROWS_READ
  {
    ClosureGateIsExact(db, t);
    var open :| open in OpenEscalations(db, t.caseId);
    assert open in EscalationsOf(db, t.caseId) && open !in Harmless(db, t.caseId);
    if |Harmless(db, t.caseId)| >= ESCALATION_ROWS_READ {
      var e :| e in Harmless(db, t.caseId);
    }
  }

  ghost function OweNothing(db: Tables, c: CaseId): set<EscalationId> {
    set e | e in EscalationsOf(db, c) && db.escalations[e].closed && !ReviewRequired(db.escalations[e].category)
  }

  /**
   * The same limited read can miss an escalation that keeps the review owed: a closure without
   * a decided review then commits exactly when there is no incident and twenty closed
   * escalations of other categories.
   */
  lemma OwedReviewGateIsExact(db: Tables, t: Transition, owing: EscalationId)
    requires MayAskToClose(db, t) && !ReviewSettled(db, t.caseId)
    requires owing in EscalationsOf(db, t.caseId) && ReviewRequired(db.escalations[owing].category)
    ensures SomeReadCloses(db, t) <==>
      t.caseId !in db.incidents && |OweNothing(db, t.caseId)| >= ESCALATION_ROWS_READ
  {
    ClosureGateIsExact(db, t);
    assert owing !in Harmless(db, t.caseId);
    if t.caseId !in db.incidents {
      assert Harmless(db, t.caseId) == OweNothing(db, t.caseId);
    }
  }

  /** With at most twenty escalations, no step into `closed`, forced or not, leaves one open. */
  lemma ClosingSeesEveryEscalation(db: Tables, t: Transition, rows: set<EscalationId>)
    requires |EscalationsOf(db, t.caseId)| <= ESCALATION_ROWS_READ && LimitedRead(EscalationsOf(db, t.caseId), rows)
    requires t.next == Closed && TransitionStep(db, t, rows).Commit?
    ensures OpenEscalations(db, t.caseId) == {}
  {
    SubsetsAreNoLarger(rows, EscalationsOf(db, t.caseId));
    forall e | e in EscalationsOf(db, t.caseId) ensures db.escalations[e].closed {
      assert e in rows;
    }
  }
}
