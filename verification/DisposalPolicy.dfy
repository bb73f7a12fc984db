/**
 * The disposal policy: what blocks a permission, which actions a state offers, and the hard
 * gate in front of issuing.
 */
module DisposalPolicy {
  import opened Prelude

  datatype Material =
    | RecallExpectationLetter | CapOrWrittenCoordination | Nov | LaboratoryReport
    | Form332InventoryProcedure | CbpSeizureRecord | OtherMaterial
  datatype Scope = ConsumerHeldProduct | EnterpriseInventory | PortInvolvedGoods | UndeterminedScope
  datatype Measure = ConsumerDisposal | ConsumerReturn | ProfessionalRecycling | OtherCompensation | UndeterminedMeasure

  datatype InstructionStatus = Draft | Approved | Withdrawn
  datatype Eligibility = PendingConfirmation | ConfirmedEligible | NotApplicable | Ineligible
  datatype TaskStatus = Open | Completed | Cancelled | Expired
  datatype BatchStatus = Pending | Accepted | NeedsResubmission | Superseded
  datatype AuthorizationStatus = Active | Suspended | Revoked

  /** An absent endpoint is unbounded. */
  datatype Window = Window(from: Option<int>, until: Option<int>)

  datatype PolicyState = PolicyState(
    task: TaskStatus, eligibility: Eligibility, instruction: Option<InstructionStatus>, authorizes: bool,
    window: Window,
    batch: Option<BatchStatus>, hold: bool, authorization: Option<AuthorizationStatus>)

  datatype Reason =
    | TaskClosed | EligibilityNotConfirmed | DisposalNotApplicable | ProductRuledIneligible | InstructionNotApproved
    | InstructionWithdrawn | ApprovalNotAuthorizing | EvidenceNotSubmitted | EvidencePendingReview
    | EvidenceNeedsResubmission | DisposalOnHold

  datatype Action =
    | ReviewBatch | SubmitEvidence | ResubmitEvidence | DeclareCompletion | DeclareException | PlaceHold | ReleaseHold
    | IssueAuthorization | RevokeAuthorization

  datatype Snapshot = Snapshot(
    allowedActions: seq<Action>, blockingReasons: seq<Reason>, mayReviewEvidence: bool, maySubmitEvidence: bool,
    maySeeInstructions: bool)

  const REFUSAL_ORDER: seq<Reason> := [
    TaskClosed, EligibilityNotConfirmed, DisposalNotApplicable, ProductRuledIneligible, InstructionNotApproved,
    InstructionWithdrawn, ApprovalNotAuthorizing, EvidenceNotSubmitted, EvidencePendingReview,
    EvidenceNeedsResubmission, DisposalOnHold]

  const ACTION_ORDER: seq<Action> := [
    ReviewBatch, SubmitEvidence, ResubmitEvidence, DeclareCompletion, DeclareException, PlaceHold, ReleaseHold,
    IssueAuthorization, RevokeAuthorization]

  predicate AuthorizesConsumerDisposal(material: Material, scope: Scope, measure: Measure) {
    measure == ConsumerDisposal && scope == ConsumerHeldProduct &&
    material in [RecallExpectationLetter, CapOrWrittenCoordination]
  }

  /** The start is included in the window, the end is not. */
  predicate ApprovalWindowIncludes(w: Window, now: int) {
    (w.from.None? || w.from.value <= now) && (w.until.None? || now < w.until.value)
  }

  predicate Replaceable(batch: Option<BatchStatus>) {
    batch == Some(NeedsResubmission) || batch == Some(Superseded)
  }

  lemma BatchCases(batch: Option<BatchStatus>)
    ensures batch == None || batch == Some(Pending) || batch == Some(Accepted) || Replaceable(batch)
  {
    match batch
    case None =>
    case Some(status) => match status { case Pending => case Accepted => case NeedsResubmission => case Superseded => }
  }

  /** What each reason means. */
  predicate Unmet(s: PolicyState, now: int, r: Reason) {
    match r
    case TaskClosed => s.task != Open
    case EligibilityNotConfirmed => s.eligibility == PendingConfirmation
    case DisposalNotApplicable => s.eligibility == NotApplicable
    case ProductRuledIneligible => s.eligibility == Ineligible
    case InstructionNotApproved => (s.instruction == None || s.instruction == Some(Draft))
    case InstructionWithdrawn => s.instruction == Some(Withdrawn)
    case ApprovalNotAuthorizing =>
      s.instruction == Some(Approved) && !(s.authorizes && ApprovalWindowIncludes(s.window, now))
    case EvidenceNotSubmitted => s.batch == None
    case EvidencePendingReview => s.batch == Some(Pending)
    case EvidenceNeedsResubmission => Replaceable(s.batch)
    case DisposalOnHold => s.hold
  }

  /** The five facts a permission rests on, and an open task. */
  predicate PermissionGate(s: PolicyState, now: int) {
    s.task == Open && s.eligibility == ConfirmedEligible && s.instruction == Some(Approved) &&
    s.authorizes && ApprovalWindowIncludes(s.window, now) && s.batch == Some(Accepted) && !s.hold
  }

  /** Instructions may be shown: everything but the evidence. */
  predicate Instructed(s: PolicyState, now: int) {
    s.task == Open && s.eligibility == ConfirmedEligible && s.instruction == Some(Approved) &&
    s.authorizes && ApprovalWindowIncludes(s.window, now) && !s.hold
  }

  predicate MaySubmitEvidence(s: PolicyState, now: int) {
    Instructed(s, now) && (s.batch == None || Replaceable(s.batch))
  }

  /** What each action is offered for. */
  predicate Offered(s: PolicyState, now: int, a: Action) {
    match a
    case ReviewBatch => s.task == Open && s.batch == Some(Pending)
    case SubmitEvidence => Instructed(s, now) && s.batch == None
    case ResubmitEvidence => Instructed(s, now) && Replaceable(s.batch)
    case DeclareCompletion => s.authorization == Some(Active) && PermissionGate(s, now)
    case DeclareException => s.task == Open && !(s.authorization == Some(Active) && PermissionGate(s, now))
    case PlaceHold => s.task == Open
    case ReleaseHold => s.task == Open && s.hold
    case IssueAuthorization => s.authorization != Some(Active) && PermissionGate(s, now)
    case RevokeAuthorization => s.authorization == Some(Active)
  }

  /** The members of a list that apply, in the list's order. */
  function Pick<T>(order: seq<T>, applies: T -> bool): seq<T> {
    if order == [] then []
    else Pick(order[..|order| - 1], applies) + if applies(order[|order| - 1]) then [order[|order| - 1]] else []
  }

  lemma PickOneMore<T>(order: seq<T>, applies: T -> bool, k: nat)
    requires k < |order|
    ensures Pick(order[..k + 1], applies) == Pick(order[..k], applies) + if applies(order[k]) then [order[k]] else []
  {
    assert order[..k + 1][..k] == order[..k];
  }

  lemma {:induction false} PickedApply<T>(order: seq<T>, applies: T -> bool)
    ensures forall x :: x in Pick(order, applies) <==> x in order && applies(x)
  {
    if order != [] {
      PickedApply(order[..|order| - 1], applies);
      assert order == order[..|order| - 1] + [order[|order| - 1]];
    }
  }

  /** No reason is unmet exactly when the whole gate holds. */
  lemma NothingUnmetIsTheGate(s: PolicyState, now: int)
    ensures (forall r :: !Unmet(s, now, r)) <==> PermissionGate(s, now)
  {
    match s.eligibility
    case PendingConfirmation => assert Unmet(s, now, EligibilityNotConfirmed);
    case NotApplicable => assert Unmet(s, now, DisposalNotApplicable);
    case Ineligible => assert Unmet(s, now, ProductRuledIneligible);
    case ConfirmedEligible =>
      match s.instruction
      case None => assert Unmet(s, now, InstructionNotApproved);
      case Some(Draft) => assert Unmet(s, now, InstructionNotApproved);
      case Some(Withdrawn) => assert Unmet(s, now, InstructionWithdrawn);
      case Some(Approved) =>
        match s.batch
        case None => assert Unmet(s, now, EvidenceNotSubmitted);
        case Some(Pending) => assert Unmet(s, now, EvidencePendingReview);
        case Some(NeedsResubmission) => assert Unmet(s, now, EvidenceNeedsResubmission);
        case Some(Superseded) => assert Unmet(s, now, EvidenceNeedsResubmission);
        case Some(Accepted) =>
          assert Unmet(s, now, TaskClosed) == (s.task != Open);
          assert Unmet(s, now, DisposalOnHold) == s.hold;
          assert Unmet(s, now, ApprovalNotAuthorizing) == !(s.authorizes && ApprovalWindowIncludes(s.window, now));
  }

  function Reasons(s: PolicyState, now: int): seq<Reason> {
    Pick(REFUSAL_ORDER, r => Unmet(s, now, r))
  }

  function Actions(s: PolicyState, now: int): seq<Action> {
    Pick(ACTION_ORDER, a => Offered(s, now, a))
  }

  function Rank(r: Reason): nat {
    match r
    case TaskClosed => 0
    case EligibilityNotConfirmed => 1
    case DisposalNotApplicable => 2
    case ProductRuledIneligible => 3
    case InstructionNotApproved => 4
    case InstructionWithdrawn => 5
    case ApprovalNotAuthorizing => 6
    case EvidenceNotSubmitted => 7
    case EvidencePendingReview => 8
    case EvidenceNeedsResubmission => 9
    case DisposalOnHold => 10
  }

  function Position(a: Action): nat {
    match a
    case ReviewBatch => 0
    case SubmitEvidence => 1
    case ResubmitEvidence => 2
    case DeclareCompletion => 3
    case DeclareException => 4
    case PlaceHold => 5
    case ReleaseHold => 6
    case IssueAuthorization => 7
    case RevokeAuthorization => 8
  }

  lemma ReasonsAreExact(s: PolicyState, now: int)
    ensures forall r :: r in Reasons(s, now) <==> Unmet(s, now, r)
    ensures Reasons(s, now) == [] <==> PermissionGate(s, now)
  {
    PickedApply(REFUSAL_ORDER, r => Unmet(s, now, r));
    forall r ensures r in REFUSAL_ORDER {
      assert REFUSAL_ORDER[Rank(r)] == r;
    }
    NothingUnmetIsTheGate(s, now);
    if Reasons(s, now) != [] { assert Reasons(s, now)[0] in Reasons(s, now); }
  }

  lemma ActionsAreExact(s: PolicyState, now: int, a: Action)
    ensures a in Actions(s, now) <==> Offered(s, now, a)
  {
    PickedApply(ACTION_ORDER, b => Offered(s, now, b));
    assert ACTION_ORDER[Position(a)] == a;
  }

  function Pushed<T>(list: seq<T>, applies: bool, x: T): seq<T> {
    if applies then list + [x] else list
  }

  /** The list after the first `k` reasons have been gone through. */
  ghost predicate ReasonsThrough(s: PolicyState, now: int, list: seq<Reason>, k: nat) {
    k <= |REFUSAL_ORDER| && list == Pick(REFUSAL_ORDER[..k], r => Unmet(s, now, r))
  }

  ghost predicate ActionsThrough(s: PolicyState, now: int, list: seq<Action>, k: nat) {
    k <= |ACTION_ORDER| && list == Pick(ACTION_ORDER[..k], a => Offered(s, now, a))
  }

  lemma PushReason(s: PolicyState, now: int, list: seq<Reason>, r: Reason)
    requires ReasonsThrough(s, now, list, Rank(r))
    ensures ReasonsThrough(s, now, Pushed(list, Unmet(s, now, r), r), Rank(r) + 1)
  {
    assert REFUSAL_ORDER[Rank(r)] == r;
    PickOneMore(REFUSAL_ORDER, q => Unmet(s, now, q), Rank(r));
  }

  lemma PushAction(s: PolicyState, now: int, list: seq<Action>, a: Action)
    requires ActionsThrough(s, now, list, Position(a))
    ensures ActionsThrough(s, now, Pushed(list, Offered(s, now, a), a), Position(a) + 1)
  {
    assert ACTION_ORDER[Position(a)] == a;
    PickOneMore(ACTION_ORDER, b => Offered(s, now, b), Position(a));
  }

  lemma AllReasonsThrough(s: PolicyState, now: int, list: seq<Reason>)
    ensures ReasonsThrough(s, now, [], 0) && (ReasonsThrough(s, now, list, |REFUSAL_ORDER|) ==> list == Reasons(s, now))
  {
    assert REFUSAL_ORDER[..|REFUSAL_ORDER|] == REFUSAL_ORDER;
  }

  lemma AllActionsThrough(s: PolicyState, now: int, list: seq<Action>)
    ensures ActionsThrough(s, now, [], 0) && (ActionsThrough(s, now, list, |ACTION_ORDER|) ==> list == Actions(s, now))
  {
    assert ACTION_ORDER[..|ACTION_ORDER|] == ACTION_ORDER;
  }

  /** An open task, and its product confirmed affected. */
  method CheckTask(s: PolicyState, now: int, before: seq<Reason>) returns (blockingReasons: seq<Reason>)
    requires ReasonsThrough(s, now, before, 0)
    ensures ReasonsThrough(s, now, blockingReasons, 4)
  {
    hide ReasonsThrough;
    blockingReasons := before;
    if s.task != Open { blockingReasons := blockingReasons + [TaskClosed]; }
    PushReason(s, now, before, TaskClosed);
    ghost var done := blockingReasons;
    if s.eligibility == PendingConfirmation {
      blockingReasons := blockingReasons + [EligibilityNotConfirmed];
    } else if s.eligibility == NotApplicable {
      blockingReasons := blockingReasons + [DisposalNotApplicable];
    } else if s.eligibility == Ineligible {
      blockingReasons := blockingReasons + [ProductRuledIneligible];
    }
    ghost var one := Pushed(done, Unmet(s, now, EligibilityNotConfirmed), EligibilityNotConfirmed);
    ghost var two := Pushed(one, Unmet(s, now, DisposalNotApplicable), DisposalNotApplicable);
    PushReason(s, now, done, EligibilityNotConfirmed);
    PushReason(s, now, one, DisposalNotApplicable);
    PushReason(s, now, two, ProductRuledIneligible);
  }

  /** An approved instruction version, and an approval that authorises disposal now. */
  method CheckInstruction(s: PolicyState, now: int, before: seq<Reason>) returns (blockingReasons: seq<Reason>)
    requires ReasonsThrough(s, now, before, 4)
    ensures ReasonsThrough(s, now, blockingReasons, 7)
  {
    hide ReasonsThrough;
    blockingReasons := before;
    if s.instruction == None || s.instruction == Some(Draft) {
      blockingReasons := blockingReasons + [InstructionNotApproved];
    } else if s.instruction == Some(Withdrawn) {
      blockingReasons := blockingReasons + [InstructionWithdrawn];
    }
    ghost var one := Pushed(before, Unmet(s, now, InstructionNotApproved), InstructionNotApproved);
    PushReason(s, now, before, InstructionNotApproved);
    PushReason(s, now, one, InstructionWithdrawn);
    ghost var done := blockingReasons;
    var approvalInWindow := ApprovalWindowIncludes(s.window, now);
    if s.instruction == Some(Approved) && (!s.authorizes || !approvalInWindow) {
      blockingReasons := blockingReasons + [ApprovalNotAuthorizing];
    }
    PushReason(s, now, done, ApprovalNotAuthorizing);
  }

  /** Accepted evidence, and no hold. */
  method CheckEvidence(s: PolicyState, now: int, before: seq<Reason>) returns (blockingReasons: seq<Reason>)
    requires ReasonsThrough(s, now, before, 7)
    ensures ReasonsThrough(s, now, blockingReasons, |REFUSAL_ORDER|)
  {
    hide ReasonsThrough;
    BatchCases(s.batch);
    blockingReasons := before;
    if s.batch == None {
      blockingReasons := blockingReasons + [EvidenceNotSubmitted];
    } else if s.batch == Some(Pending) {
      blockingReasons := blockingReasons + [EvidencePendingReview];
    } else if s.batch != Some(Accepted) {
      blockingReasons := blockingReasons + [EvidenceNeedsResubmission];
    }
    ghost var one := Pushed(before, Unmet(s, now, EvidenceNotSubmitted), EvidenceNotSubmitted);
    ghost var two := Pushed(one, Unmet(s, now, EvidencePendingReview), EvidencePendingReview);
    PushReason(s, now, before, EvidenceNotSubmitted);
    PushReason(s, now, one, EvidencePendingReview);
    PushReason(s, now, two, EvidenceNeedsResubmission);
    ghost var done := blockingReasons;
    if s.hold { blockingReasons := blockingReasons + [DisposalOnHold]; }
    PushReason(s, now, done, DisposalOnHold);
  }

  /** Reviewing and submitting evidence. */
  method OfferEvidence(s: PolicyState, now: int, before: seq<Action>) returns (allowedActions: seq<Action>)
    requires ActionsThrough(s, now, before, 0)
    ensures ActionsThrough(s, now, allowedActions, 3)
  {
    hide ActionsThrough;
    allowedActions := before;
    if s.task == Open && s.batch == Some(Pending) { allowedActions := allowedActions + [ReviewBatch]; }
    PushAction(s, now, before, ReviewBatch);
    ghost var done := allowedActions;
    if s.task == Open && s.eligibility == ConfirmedEligible && s.instruction == Some(Approved) && s.authorizes &&
       ApprovalWindowIncludes(s.window, now) && !s.hold {
      if s.batch == None {
        allowedActions := allowedActions + [SubmitEvidence];
      } else if s.batch == Some(NeedsResubmission) || s.batch == Some(Superseded) {
        allowedActions := allowedActions + [ResubmitEvidence];
      }
    }
    PushAction(s, now, done, SubmitEvidence);
    PushAction(s, now, Pushed(done, Offered(s, now, SubmitEvidence), SubmitEvidence), ResubmitEvidence);
  }

  /** Declaring, holding, issuing and revoking. */
  method OfferDecisions(s: PolicyState, now: int, unblocked: bool, before: seq<Action>)
    returns (allowedActions: seq<Action>)
    requires unblocked <==> PermissionGate(s, now)
    requires ActionsThrough(s, now, before, 3)
    ensures ActionsThrough(s, now, allowedActions, |ACTION_ORDER|)
  {
    hide ActionsThrough, PermissionGate;
    allowedActions := before;
    ghost var done := allowedActions;
    var completionCurrentlyPermitted := s.task == Open && s.authorization == Some(Active) && unblocked;
    assert unblocked ==> s.task == Open by { GateNeedsOpenTask(s, now); }
    if completionCurrentlyPermitted { allowedActions := allowedActions + [DeclareCompletion]; }
    PushAction(s, now, done, DeclareCompletion);
    done := allowedActions;
    if s.task == Open && !completionCurrentlyPermitted { allowedActions := allowedActions + [DeclareException]; }
    PushAction(s, now, done, DeclareException);
    done := allowedActions;
    if s.task == Open { allowedActions := allowedActions + [PlaceHold]; }
    PushAction(s, now, done, PlaceHold);
    done := allowedActions;
    if s.task == Open && s.hold { allowedActions := allowedActions + [ReleaseHold]; }
    PushAction(s, now, done, ReleaseHold);
    done := allowedActions;
    if s.authorization != Some(Active) && unblocked { allowedActions := allowedActions + [IssueAuthorization]; }
    PushAction(s, now, done, IssueAuthorization);
    done := allowedActions;
    if s.authorization == Some(Active) { allowedActions := allowedActions + [RevokeAuthorization]; }
    PushAction(s, now, done, RevokeAuthorization);
  }

  lemma GateNeedsOpenTask(s: PolicyState, now: int)
    ensures PermissionGate(s, now) ==> s.task == Open
  {
  }

  /** The evaluation: the reasons are the unmet preconditions, the actions the offered ones, each in its order. */
  method EvaluateDisposal(s: PolicyState, now: int) returns (snapshot: Snapshot)
    ensures snapshot.blockingReasons == Reasons(s, now)
    ensures snapshot.allowedActions == Actions(s, now)
    ensures snapshot.maySeeInstructions <==> Instructed(s, now)
    ensures snapshot.maySubmitEvidence <==> MaySubmitEvidence(s, now)
    ensures snapshot.mayReviewEvidence <==> Offered(s, now, ReviewBatch)
  {
    AllReasonsThrough(s, now, []);
    var blockingReasons := CheckTask(s, now, []);
    blockingReasons := CheckInstruction(s, now, blockingReasons);
    blockingReasons := CheckEvidence(s, now, blockingReasons);
    AllReasonsThrough(s, now, blockingReasons);
    ReasonsAreExact(s, now);

    AllActionsThrough(s, now, []);
    var allowedActions := OfferEvidence(s, now, []);
    allowedActions := OfferDecisions(s, now, |blockingReasons| == 0, allowedActions);
    AllActionsThrough(s, now, allowedActions);

    hide ReasonsThrough, ActionsThrough, Reasons, Actions;
    var taskOpen := s.task == Open;
    var eligibilityConfirmed := s.eligibility == ConfirmedEligible;
    var approvalAuthorizes := s.instruction == Some(Approved) && s.authorizes && ApprovalWindowIncludes(s.window, now);
    snapshot := Snapshot(
      allowedActions, blockingReasons, taskOpen && s.batch == Some(Pending),
      taskOpen && eligibilityConfirmed && approvalAuthorizes && !s.hold &&
        (s.batch == None || s.batch == Some(NeedsResubmission) || s.batch == Some(Superseded)),
      taskOpen && eligibilityConfirmed && approvalAuthorizes && !s.hold);
  }

  /** Exactly one declaration branch is open on an open task, none on any other. */
  lemma OneDeclarationBranch(s: PolicyState, now: int)
    ensures s.task == Open <==> (Offered(s, now, DeclareCompletion) != Offered(s, now, DeclareException))
    ensures s.task != Open ==> !Offered(s, now, DeclareCompletion) && !Offered(s, now, DeclareException)
  {
  }

  /** The gate reads the clock twice; the second reading only words the refusal: the first unmet reason. */
  method AssertCanIssueAuthorization(s: PolicyState, checkedAt: int, explainedAt: int) returns (refusal: Option<Reason>)
    requires checkedAt <= explainedAt
    ensures refusal == None <==> PermissionGate(s, checkedAt)
    ensures refusal.Some? && !PermissionGate(s, explainedAt) ==>
      Unmet(s, explainedAt, refusal.value) && forall r :: Unmet(s, explainedAt, r) ==> Rank(refusal.value) <= Rank(r)
    ensures refusal.Some? && PermissionGate(s, explainedAt) ==> refusal == Some(EvidenceNotSubmitted)
  {
    ReasonsAreExact(s, checkedAt);
    ReasonsAreExact(s, explainedAt);
    var snapshot := EvaluateDisposal(s, checkedAt);
    if |snapshot.blockingReasons| == 0 { return None; }
    snapshot := EvaluateDisposal(s, explainedAt);
    var unmet := snapshot.blockingReasons;
    hide Reasons;
    for i := 0 to |REFUSAL_ORDER|
      invariant forall j :: 0 <= j < i ==> REFUSAL_ORDER[j] !in unmet
    {
      if REFUSAL_ORDER[i] in unmet {
        forall r | Unmet(s, explainedAt, r) ensures Rank(REFUSAL_ORDER[i]) <= Rank(r) {
          assert REFUSAL_ORDER[Rank(r)] == r;
        }
        return Some(REFUSAL_ORDER[i]);
      }
    }
    forall r ensures !Unmet(s, explainedAt, r) {
      assert REFUSAL_ORDER[Rank(r)] == r;
    }
    NothingUnmetIsTheGate(s, explainedAt);
    return Some(EvidenceNotSubmitted);
  }

  /**
   * The fallback refusal, which names the wrong cause, is reached exactly when an approval that
   * is otherwise enough starts to apply between the two readings of the clock; never for a
   * window that already included an earlier instant, as a loaded state's does.
   */
  lemma FallbackRefusalIsExact(s: PolicyState, checkedAt: int, explainedAt: int)
    requires checkedAt <= explainedAt
    ensures !PermissionGate(s, checkedAt) && PermissionGate(s, explainedAt)
      <==> PermissionGate(s, explainedAt) && s.window.from.Some? && s.window.from.value > checkedAt
    ensures forall loadedAt :: loadedAt <= checkedAt && ApprovalWindowIncludes(s.window, loadedAt) ==>
      PermissionGate(s, checkedAt) || !PermissionGate(s, explainedAt)
  {
  }

  /** A state for which everything is in place except that its approval starts at `from`. */
  function StartsAt(from: int): PolicyState {
    PolicyState(
      Open, ConfirmedEligible, Some(Approved), true, Window(Some(from), None), Some(Accepted), false, None)
  }

  /**
   * The failing input: for any two instants an approval can start after the first, and then the
   * missing evidence is blamed although it is accepted.
   */
  lemma FallbackIsReached(checkedAt: int, explainedAt: int)
    requires checkedAt < explainedAt
    ensures var s := StartsAt(explainedAt);
      !PermissionGate(s, checkedAt) && PermissionGate(s, explainedAt) && !Unmet(s, checkedAt, EvidenceNotSubmitted)
  {
    FallbackRefusalIsExact(StartsAt(explainedAt), checkedAt, explainedAt);
  }
}
