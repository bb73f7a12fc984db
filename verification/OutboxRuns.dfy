/**
 * The outbox worker's batch as a run of the interleaving protocol, and what a commit whose
 * acknowledgement is lost does to its promises.
 */
module OutboxRuns {
  import opened Prelude
  import opened Outbox

  // ---- a batch is a run -------------------------------------------------------

  lemma {:induction false} RunsAppend(s: State, a: seq<Step>, b: seq<Step>)
    requires Runs(s, a) && Runs(Final(s, a), b)
    ensures Runs(s, a + b) && Final(s, a + b) == Final(Final(s, a), b)
    decreases |a|
  {
    hide Enabled, Next;
    if a == [] {
      assert a + b == b;
    } else {
      assert (a + b)[1..] == a[1..] + b;
      RunsAppend(Next(s, a[0]), a[1..], b);
    }
  }

  lemma OneStep(s: State, step: Step)
    requires Enabled(s, step)
    ensures Runs(s, [step]) && Final(s, [step]) == Next(s, step)
  {
    hide Enabled, Next;
    assert [step][1..] == [];
    assert Runs(Next(s, step), []);
  }

  /** The steps of one attempt: the provider accepts and the commit goes through, or it refuses. */
  function AttemptSteps(w: WorkerId, answer: Answer, now: int): seq<Step> {
    match answer
    case Accepted(providerId) => [Send(w, providerId), Step.Commit(w)]
    case Refused => [SendFails(w), Fail(w, now)]
  }

  /** One attempt does to the tables what the method for one event does. */
  lemma AttemptRun(s: State, w: WorkerId, answer: Answer, now: int)
    requires Loaded(s, w) && s.workers[w].phase == Ready
    ensures Runs(s, AttemptSteps(w, answer, now))
    ensures var e, t := Head(s, w), Final(s, AttemptSteps(w, answer, now));
      t.events == s.events[e := if answer.Accepted? then Delivered(s.events[e]) else FailedOnce(s.events[e], now)] &&
      t.comms == MessagesAfter(s.comms, s.events[e].comm, answer) &&
      w in t.workers && t.workers[w].todo == s.workers[w].todo[1..] && t.workers[w].phase == Ready
  {
    var steps := AttemptSteps(w, answer, now);
    var t := Next(s, steps[0]);
    assert steps == [steps[0]] + [steps[1]];
    OneStep(s, steps[0]);
    OneStep(t, steps[1]);
    RunsAppend(s, [steps[0]], [steps[1]]);
    assert s.comms[s.events[Head(s, w)].comm := s.comms[s.events[Head(s, w)].comm]] == s.comms;
  }

  function BatchSteps(w: WorkerId, ids: seq<EventId>, answers: map<EventId, Answer>, now: int): seq<Step>
    requires forall e :: e in ids ==> e in answers
  {
    if ids == [] then [] else AttemptSteps(w, answers[ids[0]], now) + BatchSteps(w, ids[1..], answers, now)
  }

  lemma {:induction false} AttemptsRun(
    s: State, w: WorkerId, events0: map<EventId, Event>, comms0: map<CommId, Comm>, claimed: set<EventId>,
    done: set<EventId>,
    answers: map<EventId, Answer>, now: int)
    requires w in s.workers && s.workers[w].phase == Ready && Distinct(s.workers[w].todo)
    requires Progress(events0, comms0, s.events, s.comms, claimed, done, answers, now)
    requires done + Members(s.workers[w].todo) == claimed && done !! Members(s.workers[w].todo)
    requires forall e :: e in s.workers[w].todo ==> e in answers
    ensures var steps := BatchSteps(w, s.workers[w].todo, answers, now);
      Runs(s, steps) &&
      var t := Final(s, steps);
      Progress(events0, comms0, t.events, t.comms, claimed, claimed, answers, now) && w in t.workers &&
      t.workers[w].todo == []
    decreases |s.workers[w].todo|
  {
    var todo := s.workers[w].todo;
    if todo == [] {
      assert Members(todo) == {} && done == claimed;
    } else {
      var e := todo[0];
      TailOf(todo);
      assert e in Members(todo) && Members(todo[1..]) == Members(todo) - {e};
      OneMoreAttempt(events0, comms0, s.events, s.comms, claimed, done, answers, now, e);
      var attempt := AttemptSteps(w, answers[e], now);
      AttemptRun(s, w, answers[e], now);
      hide Progress, AttemptSteps, Enabled, Next, Runs, Final, MessagesAfter;
      var t := Final(s, attempt);
      assert done + {e} + Members(todo[1..]) == claimed;
      AttemptsRun(t, w, events0, comms0, claimed, done + {e}, answers, now);
      RunsAppend(s, attempt, BatchSteps(w, todo[1..], answers, now));
    }
  }

  /** What a batch leaves of both tables is determined by what it claimed and was answered. */
  lemma ProgressIsDetermined(
    events0: map<EventId, Event>, comms0: map<CommId, Comm>, claimed: set<EventId>, answers: map<EventId, Answer>,
    now: int,
    events: map<EventId, Event>, comms: map<CommId, Comm>, events': map<EventId, Event>, comms': map<CommId, Comm>)
    requires Progress(events0, comms0, events, comms, claimed, claimed, answers, now)
    requires Progress(events0, comms0, events', comms', claimed, claimed, answers, now)
    ensures events == events' && comms == comms'
  {
    forall c | c in comms ensures comms[c] == comms'[c] {
      if e :| e in claimed && events0[e].comm == c {
        assert comms[events0[e].comm] == comms'[events0[e].comm];
      }
    }
  }

  /**
   * Whatever a batch on its own returns, a run of the protocol with one claim and one attempt per
   * claimed event ends in the same two tables, so every promise about runs holds of the method.
   */
  lemma BatchIsARun(
    s: State, w: WorkerId, ids: seq<EventId>, answers: map<EventId, Answer>, now: int, events: map<EventId, Event>,
    comms: map<CommId, Comm>)
    requires CanClaim(s, w, ids, now) && OneMessageEach(s.events, s.comms) && forall e :: e in ids ==> e in answers
    requires Progress(s.events, s.comms, events, comms, Members(ids), Members(ids), answers, now)
    ensures var steps := [Step.Claim(w, ids, now)] + BatchSteps(w, ids, answers, now);
      Runs(s, steps) && Final(s, steps).events == events && Final(s, steps).comms == comms
  {
    var claim := Step.Claim(w, ids, now);
    var t := Next(s, claim);
    OneStep(s, claim);
    assert t.events == ClaimAll(s.events, Members(ids)) && t.comms == s.comms &&
      t.workers[w] == Worker(|ids|, ids, Ready, 0, 0);
    ClaimStartsProgress(s.events, s.comms, Members(ids), answers, now);
    hide Progress, Enabled, Next, Runs, Final;
    AttemptsRun(t, w, s.events, s.comms, Members(ids), {}, answers, now);
    RunsAppend(s, [claim], BatchSteps(w, ids, answers, now));
    var end := Final(t, BatchSteps(w, ids, answers, now));
    ProgressIsDetermined(s.events, s.comms, Members(ids), answers, now, events, comms, end.events, end.comms);
  }

  // ---- lost acknowledgements --------------------------------------------------

  /**
   * The protocol with one more fault: a commit can take effect although the worker sees it fail.
   * `lost` holds the workers in that position with the event they are about to report as failed.
   */
  datatype Wide = Wide(state: State, lost: map<WorkerId, EventId>)

  datatype WideStep = Plain(step: Step) | LoseAck(worker: WorkerId) | LateFail(worker: WorkerId, now: int)

  function WorkerOf(step: Step): Option<WorkerId> {
    match step
    case Claim(w, _, _) => Some(w)
    case Refuse(w) => Some(w)
    case Send(w, _) => Some(w)
    case SendFails(w) => Some(w)
    case Commit(w) => Some(w)
    case CommitFails(w) => Some(w)
    case Fail(w, _) => Some(w)
    case Finish(w) => Some(w)
    case Stop(w) => Some(w)
    case _ => None
  }

  /** A worker that lost an acknowledgement can only stop, or go on to report the failure. */
  ghost predicate WideEnabled(x: Wide, step: WideStep) {
    match step
    case Plain(p) => Enabled(x.state, p) && (WorkerOf(p).Some? && WorkerOf(p).value in x.lost ==> p.Stop?)
    case LoseAck(w) => w !in x.lost && Enabled(x.state, Step.Commit(w))
    case LateFail(w, _) =>
      w in x.lost && x.lost[w] in x.state.events && w in x.state.workers && x.state.workers[w].succeeded > 0
  }

  /** The catch reads the attempts again and writes the row without asking what became of it. */
  function ReportLate(s: State, w: WorkerId, e: EventId, now: int): State
    requires e in s.events && w in s.workers && s.workers[w].succeeded > 0
  {
    var me := s.workers[w];
    s.(events := s.events[e := FailedOnce(s.events[e], now)],
       workers := s.workers[w := me.(succeeded := me.succeeded - 1, failed := me.failed + 1)])
  }

  ghost function WideNext(x: Wide, step: WideStep): Wide
    requires WideEnabled(x, step)
  {
    match step
    case Plain(p) => Wide(Next(x.state, p), if p.Stop? then x.lost - {p.worker} else x.lost)
    case LoseAck(w) => Wide(Next(x.state, Step.Commit(w)), x.lost[w := Head(x.state, w)])
    case LateFail(w, now) => Wide(ReportLate(x.state, w, x.lost[w], now), x.lost - {w})
  }

  ghost predicate LostOk(s: State, lost: map<WorkerId, EventId>) {
    forall w :: w in lost ==> Reporting(s, w, lost[w])
  }

  ghost predicate WideInv(x: Wide) {
    Inv(x.state) && LostOk(x.state, x.lost)
  }

  lemma OtherWorkersStay(s: State, step: Step, w: WorkerId)
    requires Enabled(s, step) && w in s.workers && WorkerOf(step) != Some(w)
    ensures w in Next(s, step).workers && Next(s, step).workers[w] == s.workers[w]
  {
  }

  lemma CommitEffect(s: State, w: WorkerId)
    requires Enabled(s, Step.Commit(w))
    ensures var t, e := Next(s, Step.Commit(w)), Head(s, w);
      e in t.events && t.events[e].status == Succeeded && w in t.workers && t.workers[w].succeeded > 0
  {
  }

  /** The protocol step inside a wide step that is no late report. */
  function Inner(step: WideStep): Step
    requires !step.LateFail?
  {
    if step.Plain? then step.step else Step.Commit(step.worker)
  }

  predicate Reporting(s: State, w: WorkerId, e: EventId) {
    w in s.workers && s.workers[w].succeeded > 0 && e in s.events && s.events[e].status == Succeeded
  }

  /** What is lost stays lost and delivered while other workers go on. */
  lemma LostStays(s: State, step: Step, w: WorkerId, e: EventId)
    requires Orderly(s) && Enabled(s, step) && Reporting(s, w, e) && WorkerOf(step) != Some(w)
    ensures Reporting(Next(s, step), w, e)
  {
    OtherWorkersStay(s, step, w);
    FinalStaysFinal(s, step, e);
  }

  lemma WideStepKeepsInv(x: Wide, step: WideStep)
    requires WideInv(x) && WideEnabled(x, step) && !step.LateFail?
    ensures WideInv(WideNext(x, step))
  {
    var y := WideNext(x, step);
    assert Enabled(x.state, Inner(step)) && y.state == Next(x.state, Inner(step));
    hide Inv, Enabled, Next;
    StepKeepsInv(x.state, Inner(step));
    if step.LoseAck? {
      CommitEffect(x.state, step.worker);
    }
    forall w | w in y.lost ensures Reporting(y.state, w, y.lost[w]) {
      if !(step.LoseAck? && step.worker == w) {
        LostStays(x.state, Inner(step), w, x.lost[w]);
      }
    }
  }

  /** The late report takes a delivered row back although its message has left. */
  lemma LateFailBreaks(x: Wide, w: WorkerId, now: int)
    requires WideInv(x) && WideEnabled(x, LateFail(w, now))
    ensures var y, e := WideNext(x, LateFail(w, now)), x.lost[w];
      y.state.events[e].status != Succeeded && y.state.comms[y.state.events[e].comm].providerId.Some? && !Inv(y.state)
  {
    var e := x.lost[w];
    assert Keyed(x.state.events, x.state.comms);
    assert x.state.comms[x.state.events[e].comm].providerId.Some?;
  }

  /** A final row changes in a step exactly when the step is the late report of that row's own failure. */
  lemma FinalRowsChangeOnlyLate(x: Wide, step: WideStep, e: EventId)
    requires WideInv(x) && WideEnabled(x, step) && e in x.state.events &&
      x.state.events[e].status in {Succeeded, DeadLetter}
    ensures e in WideNext(x, step).state.events
    ensures WideNext(x, step).state.events[e] == x.state.events[e] <==> !(step.LateFail? && x.lost[step.worker] == e)
  {
    if !step.LateFail? {
      FinalStaysFinal(x.state, if step.Plain? then step.step else Step.Commit(step.worker), e);
    }
  }

  ghost predicate WideRuns(x: Wide, steps: seq<WideStep>)
    decreases |steps|
  {
    steps != [] ==> WideEnabled(x, steps[0]) && WideRuns(WideNext(x, steps[0]), steps[1..])
  }

  /** The promises hold in every state of a run. */
  ghost predicate KeptThroughout(x: Wide, steps: seq<WideStep>)
    requires WideRuns(x, steps)
    decreases |steps|
  {
    Inv(x.state) && (steps != [] ==> KeptThroughout(WideNext(x, steps[0]), steps[1..]))
  }

  /**
   * When the promises of the outbox survive lost acknowledgements: over a run, exactly when no
   * worker lives to report the failure of a commit that went through.
   */
  lemma {:induction false} PromisesAreExact(x: Wide, steps: seq<WideStep>)
    requires WideInv(x) && WideRuns(x, steps)
    ensures KeptThroughout(x, steps) <==> forall i :: 0 <= i < |steps| ==> !steps[i].LateFail?
    decreases |steps|
  {
    if steps != [] {
      if steps[0].LateFail? {
        LateFailBreaks(x, steps[0].worker, steps[0].now);
        assert !KeptThroughout(WideNext(x, steps[0]), steps[1..]);
      } else {
        WideStepKeepsInv(x, steps[0]);
        hide WideInv, WideEnabled, WideNext, Inv;
        PromisesAreExact(WideNext(x, steps[0]), steps[1..]);
        assert forall i :: 0 < i < |steps| ==> steps[i] == steps[1..][i - 1];
        assert forall i :: 0 <= i < |steps[1..]| ==> steps[1..][i] == steps[i + 1];
      }
    }
  }

  // ---- what survives a late report --------------------------------------------

  /** A delivered row's message has left; the converse is what a late report destroys. */
  ghost predicate DeliveredMeansSent(s: State) {
    forall e :: e in s.events && s.events[e].status == Succeeded && s.events[e].comm in s.comms ==>
      s.comms[s.events[e].comm].providerId.Some?
  }

  /** No two workers are about to report the same row. */
  ghost predicate LostApart(lost: map<WorkerId, EventId>) {
    forall v, w :: v in lost && w in lost && lost[v] == lost[w] ==> v == w
  }

  ghost predicate WideOrderly(x: Wide) {
    Orderly(x.state) && DeliveredMeansSent(x.state) && LostOk(x.state, x.lost) && LostApart(x.lost)
  }

  predicate Quiet(step: Step) {
    !step.Queue? && !step.Claim? && !step.Commit? && !step.Fail? && !step.HookUpdates?
  }

  lemma QuietStepsLeaveTables(s: State, step: Step)
    requires Enabled(s, step) && Quiet(step)
    ensures Next(s, step).events == s.events && Next(s, step).comms == s.comms
  {
  }

  lemma WritesKeepDelivered(s: State, step: Step)
    requires DeliveredMeansSent(s) && Enabled(s, step) && (step.Claim? || step.Commit? || step.Fail?)
    ensures DeliveredMeansSent(Next(s, step))
  {
  }

  lemma MessagesKeepDelivered(s: State, step: Step)
    requires Keyed(s.events, s.comms) && DeliveredMeansSent(s) && Enabled(s, step)
    requires step.Queue? || step.HookUpdates?
    ensures DeliveredMeansSent(Next(s, step))
  {
  }

  lemma StepKeepsDelivered(s: State, step: Step)
    requires Orderly(s) && DeliveredMeansSent(s) && Enabled(s, step)
    ensures DeliveredMeansSent(Next(s, step))
  {
    assert Keyed(s.events, s.comms);
    hide Orderly, Keyed, Enabled, Next;
    if Quiet(step) {
      QuietStepsLeaveTables(s, step);
    } else if step.Queue? || step.HookUpdates? {
      MessagesKeepDelivered(s, step);
    } else {
      WritesKeepDelivered(s, step);
    }
  }

  /** The row whose acknowledgement is lost was held until now, so nobody else is to report it. */
  lemma LosingIsApart(x: Wide, w: WorkerId)
    requires Orderly(x.state) && LostOk(x.state, x.lost) && LostApart(x.lost) && WideEnabled(x, LoseAck(w))
    ensures LostApart(x.lost[w := Head(x.state, w)])
    ensures Reporting(Next(x.state, Step.Commit(w)), w, Head(x.state, w))
  {
    HeldIsProcessing(x.state, w);
    CommitEffect(x.state, w);
    hide Orderly, Next;
    assert forall v :: v in x.lost ==> Reporting(x.state, v, x.lost[v]);
  }

  lemma InnerKeepsLost(x: Wide, step: WideStep)
    requires WideOrderly(x) && WideEnabled(x, step) && !step.LateFail?
    ensures LostOk(WideNext(x, step).state, WideNext(x, step).lost) && LostApart(WideNext(x, step).lost)
  {
    var y := WideNext(x, step);
    assert Enabled(x.state, Inner(step)) && y.state == Next(x.state, Inner(step));
    if step.LoseAck? {
      LosingIsApart(x, step.worker);
    }
    hide Orderly, Enabled, Next, DeliveredMeansSent, Reporting;
    forall w | w in y.lost ensures Reporting(y.state, w, y.lost[w]) {
      if !(step.LoseAck? && step.worker == w) {
        LostStays(x.state, Inner(step), w, x.lost[w]);
      }
    }
  }

  /** Nobody holds the row that is reported late, so nobody's list or bound is touched. */
  lemma LateReportKeepsHolding(s: State, w: WorkerId, e: EventId, now: int)
    requires Exclusive(s.events, s.workers) && Reporting(s, w, e)
    ensures var t := ReportLate(s, w, e, now); Exclusive(t.events, t.workers)
  {
    var t := ReportLate(s, w, e, now);
    assert forall v :: v in t.workers ==> t.workers[v].todo == s.workers[v].todo;
  }

  lemma LateReportKeepsBounds(s: State, w: WorkerId, e: EventId, now: int)
    requires Bounded(s.events, s.sends) && Reporting(s, w, e)
    requires forall v :: v in s.workers ==> Unsent(s.events, s.sends, s.workers[v]) && Counted(s.workers[v])
    ensures var t := ReportLate(s, w, e, now);
      Bounded(t.events, t.sends) &&
      forall v :: v in t.workers ==> Unsent(t.events, t.sends, t.workers[v]) && Counted(t.workers[v])
  {
    var t := ReportLate(s, w, e, now);
    forall v | v in t.workers ensures Unsent(t.events, t.sends, t.workers[v]) && Counted(t.workers[v]) {
      assert Unsent(s.events, s.sends, s.workers[v]) && Counted(s.workers[v]);
    }
  }

  lemma LateReportKeepsLost(x: Wide, w: WorkerId, now: int)
    requires LostOk(x.state, x.lost) && LostApart(x.lost) && WideEnabled(x, LateFail(w, now))
    ensures LostOk(ReportLate(x.state, w, x.lost[w], now), x.lost - {w}) && LostApart(x.lost - {w})
  {
    forall v | v in x.lost - {w} ensures Reporting(ReportLate(x.state, w, x.lost[w], now), v, x.lost[v]) {
      assert Reporting(x.state, v, x.lost[v]) && x.lost[v] != x.lost[w];
    }
  }

  lemma LateReportKeepsOrder(s: State, w: WorkerId, e: EventId, now: int)
    requires Orderly(s) && Reporting(s, w, e)
    ensures Orderly(ReportLate(s, w, e, now))
  {
    hide Exclusive, Bounded, Unsent, Counted, Paired;
    LateReportKeepsHolding(s, w, e, now);
    LateReportKeepsBounds(s, w, e, now);
    RowStaysPaired(s.events, s.comms, e, FailedOnce(s.events[e], now));
  }

  lemma LateReportKeepsDelivered(s: State, w: WorkerId, e: EventId, now: int)
    requires DeliveredMeansSent(s) && Reporting(s, w, e)
    ensures DeliveredMeansSent(ReportLate(s, w, e, now))
  {
  }

  lemma LateFailKeepsOrder(x: Wide, w: WorkerId, now: int)
    requires WideOrderly(x) && WideEnabled(x, LateFail(w, now))
    ensures WideOrderly(WideNext(x, LateFail(w, now)))
  {
    LateReportKeepsLost(x, w, now);
    assert Reporting(x.state, w, x.lost[w]);
    hide Orderly, DeliveredMeansSent, LostOk, LostApart, Reporting, Enabled, Next;
    LateReportKeepsOrder(x.state, w, x.lost[w], now);
    LateReportKeepsDelivered(x.state, w, x.lost[w], now);
  }

  lemma WideStepKeepsOrder(x: Wide, step: WideStep)
    requires WideOrderly(x) && WideEnabled(x, step)
    ensures WideOrderly(WideNext(x, step))
  {
    if step.LateFail? {
      LateFailKeepsOrder(x, step.worker, step.now);
    } else {
      assert Enabled(x.state, Inner(step)) && WideNext(x, step).state == Next(x.state, Inner(step));
      InnerKeepsLost(x, step);
      StepKeepsDelivered(x.state, Inner(step));
      StepKeepsOrder(x.state, Inner(step));
      hide Orderly, DeliveredMeansSent, LostOk, LostApart, WideNext;
    }
  }

  ghost function WideFinal(x: Wide, steps: seq<WideStep>): Wide
    requires WideRuns(x, steps)
    decreases |steps|
  {
    if steps == [] then x else WideFinal(WideNext(x, steps[0]), steps[1..])
  }

  lemma {:induction false} WideRunKeepsOrder(x: Wide, steps: seq<WideStep>)
    requires WideOrderly(x) && WideRuns(x, steps)
    ensures WideOrderly(WideFinal(x, steps))
    decreases |steps|
  {
    if steps != [] {
      WideStepKeepsOrder(x, steps[0]);
      hide WideOrderly, WideEnabled, WideNext;
      WideRunKeepsOrder(WideNext(x, steps[0]), steps[1..]);
    }
  }

  /**
   * However many acknowledgements are lost and reported late: one worker at most holds a row, a
   * waiting row has attempts left, a message is sent five times at most, a delivered row's
   * message has left, and a finished batch adds up.
   */
  lemma LateReportsStayBounded(steps: seq<WideStep>, v: WorkerId, w: WorkerId, e: EventId)
    requires WideRuns(Wide(EMPTY, map[]), steps)
    ensures var s := WideFinal(Wide(EMPTY, map[]), steps).state;
      (v in s.workers && w in s.workers && e in s.workers[v].todo && e in s.workers[w].todo ==>
        v == w && e in s.events && s.events[e].status == Outbox.Processing) &&
      (e in s.events ==>
        SendsOf(s.sends, e) <= s.events[e].attempts <= MAX_ATTEMPTS && s.events[e].comm in s.comms &&
        (s.events[e].status == Pending ==> s.events[e].attempts < MAX_ATTEMPTS) &&
        (s.events[e].status == Succeeded ==> s.comms[s.events[e].comm].providerId.Some?)) &&
      (v in s.workers ==> s.workers[v].claimed == s.workers[v].succeeded + s.workers[v].failed + |s.workers[v].todo|)
  {
    NothingIsOrderly();
    hide WideRuns, WideFinal;
    WideRunKeepsOrder(Wide(EMPTY, map[]), steps);
  }

  lemma NothingIsOrderly()
    ensures WideOrderly(Wide(EMPTY, map[]))
  {
  }

  // ---- the failing run --------------------------------------------------------

  /** One message, sent at the first attempt, whose commit is acknowledged too late. */
  const LATE_RUN: seq<WideStep> := [
    Plain(Queue(0, 0, 0, 0)), Plain(Step.Claim(0, [0], 0)), Plain(Send(0, 7)), LoseAck(0), LateFail(0, 1)]

  lemma OneWideStep(x: Wide, step: WideStep, rest: seq<WideStep>)
    requires WideEnabled(x, step) && WideRuns(WideNext(x, step), rest)
    ensures WideRuns(x, [step] + rest)
  {
    hide WideEnabled, WideNext;
    assert ([step] + rest)[1..] == rest;
  }

  const QUEUED := EMPTY.(events := map[0 := Event(0, 0, Pending, 0, 0)], comms := map[0 := Comm(0, Queued, None)])
  const CLAIMED := QUEUED.(events := map[0 := Event(0, 0, Outbox.Processing, 1, 0)],
    workers := map[0 := Worker(1, [0], Ready, 0, 0)])
  const HANDED := CLAIMED.(workers := map[0 := Worker(1, [0], Handed(7), 0, 0)], sends := map[0 := 1])
  const DELIVERED := HANDED.(
    events := map[0 := Event(0, 0, Succeeded, 1, 0)], comms := map[0 := Comm(0, Sent, Some(7))],
    workers := map[0 := Worker(1, [], Ready, 1, 0)])

  lemma MessageIsQueued()
    ensures WideEnabled(Wide(EMPTY, map[]), LATE_RUN[0]) &&
      WideNext(Wide(EMPTY, map[]), LATE_RUN[0]) == Wide(QUEUED, map[])
  {
  }

  lemma MessageIsClaimed()
    ensures WideEnabled(Wide(QUEUED, map[]), LATE_RUN[1]) &&
      WideNext(Wide(QUEUED, map[]), LATE_RUN[1]) == Wide(CLAIMED, map[])
  {
  }

  lemma MessageIsSent()
    ensures WideEnabled(Wide(CLAIMED, map[]), LATE_RUN[2]) &&
      WideNext(Wide(CLAIMED, map[]), LATE_RUN[2]) == Wide(HANDED, map[])
  {
  }

  lemma AcknowledgementIsLost()
    ensures WideEnabled(Wide(HANDED, map[]), LATE_RUN[3]) &&
      WideNext(Wide(HANDED, map[]), LATE_RUN[3]) == Wide(DELIVERED, map[0 := 0])
    ensures WideEnabled(Wide(DELIVERED, map[0 := 0]), LATE_RUN[4])
  {
    assert HANDED.workers[0].todo[1..] == [];
  }

  lemma NothingIsConsistent()
    ensures WideInv(Wide(EMPTY, map[]))
  {
  }

  /** The failing input: the run is possible from empty tables, and the promises do not survive it. */
  lemma LateReportBreaksThePromises()
    ensures WideRuns(Wide(EMPTY, map[]), LATE_RUN) && !KeptThroughout(Wide(EMPTY, map[]), LATE_RUN)
  {
    MessageIsQueued();
    MessageIsClaimed();
    MessageIsSent();
    AcknowledgementIsLost();
    NothingIsConsistent();
    hide WideEnabled, WideNext, WideInv;
    var fail := [LATE_RUN[4]] + [];
    assert WideRuns(WideNext(Wide(DELIVERED, map[0 := 0]), LATE_RUN[4]), []);
    OneWideStep(Wide(DELIVERED, map[0 := 0]), LATE_RUN[4], []);
    OneWideStep(Wide(HANDED, map[]), LATE_RUN[3], fail);
    OneWideStep(Wide(CLAIMED, map[]), LATE_RUN[2], [LATE_RUN[3]] + fail);
    OneWideStep(Wide(QUEUED, map[]), LATE_RUN[1], [LATE_RUN[2]] + ([LATE_RUN[3]] + fail));
    OneWideStep(Wide(EMPTY, map[]), LATE_RUN[0], [LATE_RUN[1]] + ([LATE_RUN[2]] + ([LATE_RUN[3]] + fail)));
    assert LATE_RUN == [LATE_RUN[0]] + ([LATE_RUN[1]] + ([LATE_RUN[2]] + ([LATE_RUN[3]] + fail)));
    PromisesAreExact(Wide(EMPTY, map[]), LATE_RUN);
    assert LATE_RUN[4].LateFail?;
  }
}
