/**
 * What the outbox does for a message: how often and how late it is tried again, when it is given
 * up, and what its delivery status says.
 */
module OutboxProgress {
  import opened Prelude
  import opened Outbox
  import OutboxRuns

  // ---- retries --------------------------------------------------------------------

  /** The delay starts at a second and doubles with each attempt until it reaches a minute. */
  lemma DelaysDouble(attempts: nat)
    ensures RetryDelay(0) == 1000
    ensures RetryDelay(attempts + 1) == if 2 * RetryDelay(attempts) < 60000 then 2 * RetryDelay(attempts) else 60000
  {
  }

  /** The delays that attempts one to five lead to. */
  function DelayAfter(attempts: nat): int
    requires 1 <= attempts <= 5
  {
    if attempts == 1 then 2000 else if attempts == 2 then 4000 else if attempts == 3 then 8000
    else if attempts == 4 then 16000 else 32000
  }

  lemma DelaysOfAttempts(attempts: nat)
    requires 1 <= attempts <= 5
    ensures RetryDelay(attempts) == DelayAfter(attempts)
  {
    DelaysDouble(0);
    DelaysDouble(1);
    DelaysDouble(2);
    DelaysDouble(3);
    DelaysDouble(4);
  }

  /** A row waits for its delay, and is due from then on and not before. */
  ghost predicate DueFrom(e: Event, from: int) {
    forall now :: Due(e, now) <==> from <= now
  }

  /**
   * A failed attempt with attempts left is retried, after its delay and not before; the fifth is
   * the last. The row keeps its key, its message and its attempts.
   */
  lemma FailureIsRetried(e: Event, now: int)
    requires 1 <= e.attempts <= 5
    ensures var row := FailedOnce(e, now);
      row.key == e.key && row.comm == e.comm && row.attempts == e.attempts &&
      (e.attempts < 5 ==> row.status == Pending && DueFrom(row, now + DelayAfter(e.attempts))) &&
      (e.attempts == 5 ==> row.status == DeadLetter && forall at :: !Due(row, at))
  {
    DelaysOfAttempts(e.attempts);
  }

  /** What a batch makes of a due row: one attempt charged, then sent, retried later, or given up. */
  lemma AttemptDecides(e: Event, a: Answer, now: int)
    requires e.status == Pending && e.attempts < 5
    ensures var row := Attempted(e, a, now);
      row.attempts == e.attempts + 1 && row.key == e.key && row.comm == e.comm &&
      (row.status == Succeeded <==> a.Accepted?) &&
      (row.status == DeadLetter <==> a == Refused && e.attempts == 4) &&
      (row.status == Pending <==> a == Refused && e.attempts < 4) &&
      (row.status == Pending ==> DueFrom(row, now + DelayAfter(e.attempts + 1)))
  {
    FailureIsRetried(Claimed(e), now);
  }

  /** What a message learns from an attempt: sent under the provider's id, or nothing at all. */
  lemma AttemptReaches(c: Comm, a: Answer)
    ensures var after := Reached(c, a);
      after.key == c.key && (a == Refused ==> after == c) &&
      (a.Accepted? ==> after.status == Sent && after.providerId == Some(a.providerId))
  {
  }

  /** A claim charges one attempt and takes the row out of the queue. */
  lemma ClaimCharges(e: Event)
    ensures Claimed(e) == e.(status := Outbox.Processing, attempts := e.attempts + 1)
    ensures forall now :: !Due(Claimed(e), now)
  {
  }

  // ---- giving up --------------------------------------------------------------------

  ghost predicate GivenUpLate(events: map<EventId, Event>) {
    forall e :: e in events && events[e].status == DeadLetter ==> events[e].attempts >= 5
  }

  lemma StepKeepsGivenUp(s: State, step: Step)
    requires GivenUpLate(s.events) && Enabled(s, step)
    ensures GivenUpLate(Next(s, step).events)
  {
  }

  lemma {:induction false} RunKeepsGivenUp(s: State, steps: seq<Step>)
    requires GivenUpLate(s.events) && Runs(s, steps)
    ensures GivenUpLate(Final(s, steps).events)
    decreases |steps|
  {
    if steps != [] {
      StepKeepsGivenUp(s, steps[0]);
      hide Enabled, Next;
      RunKeepsGivenUp(Next(s, steps[0]), steps[1..]);
    }
  }

  /** In every interleaving a message is given up only after exactly five attempts, and never while it was sent. */
  lemma GivenUpAfterFive(steps: seq<Step>, e: EventId)
    requires Runs(EMPTY, steps) && e in Final(EMPTY, steps).events
    requires Final(EMPTY, steps).events[e].status == DeadLetter
    ensures var s := Final(EMPTY, steps);
      s.events[e].attempts == 5 && s.events[e].comm in s.comms && s.comms[s.events[e].comm].providerId == None
  {
    RunKeepsGivenUp(EMPTY, steps);
    OneHolder(steps, 0, 0, e);
    SucceededMeansSent(steps, e);
    RunKeepsInv(EMPTY, steps);
  }

  // ---- a message from queue to provider ----------------------------------------------

  lemma ClaimingAlone(s: State, w: WorkerId, e: EventId, now: int)
    requires e in s.events && s.events[e].status == Pending && s.events[e].availableAt <= now
    requires w in s.workers ==> s.workers[w] == IDLE
    ensures var claim := Step.Claim(w, [e], now);
      Enabled(s, claim) &&
      Next(s, claim) == s.(
        events := s.events[e := Claimed(s.events[e])], workers := s.workers[w := Worker(1, [e], Ready, 0, 0)])
  {
    assert ClaimAll(s.events, set f | f in [e]) == s.events[e := Claimed(s.events[e])];
  }

  lemma AttemptingAlone(s: State, w: WorkerId, e: EventId, now: int, answer: Answer)
    requires e in s.events && s.events[e].status == Pending && s.events[e].availableAt <= now
    requires s.events[e].comm in s.comms && (w in s.workers ==> s.workers[w] == IDLE)
    ensures var steps := [Step.Claim(w, [e], now)] + OutboxRuns.AttemptSteps(w, answer, now);
      Runs(s, steps) && Final(s, steps).events == s.events[e := Attempted(s.events[e], answer, now)] &&
      Final(s, steps).comms == MessagesAfter(s.comms, s.events[e].comm, answer)
  {
    var claim, attempt := Step.Claim(w, [e], now), OutboxRuns.AttemptSteps(w, answer, now);
    ClaimingAlone(s, w, e, now);
    hide Enabled, Next, OutboxRuns.AttemptSteps, MessagesAfter;
    var t := Next(s, claim);
    OutboxRuns.OneStep(s, claim);
    OutboxRuns.AttemptRun(t, w, answer, now);
    hide Runs, Final;
    OutboxRuns.RunsAppend(s, [claim], attempt);
    assert t.events[e := Attempted(s.events[e], answer, now)] == s.events[e := Attempted(s.events[e], answer, now)];
  }

  /**
   * A waiting row that is due can always be claimed by an idle worker and attempted, whatever
   * happened before, and the provider's answer decides what becomes of the row and its message.
   */
  lemma DueIsAttempted(s: State, w: WorkerId, e: EventId, now: int, answer: Answer)
    requires Inv(s) && e in s.events && s.events[e].status == Pending && s.events[e].availableAt <= now
    requires w in s.workers ==> s.workers[w] == IDLE
    ensures s.events[e].comm in s.comms
    ensures var steps := [Step.Claim(w, [e], now)] + OutboxRuns.AttemptSteps(w, answer, now);
      Runs(s, steps) && Final(s, steps).events == s.events[e := Attempted(s.events[e], answer, now)] &&
      Final(s, steps).comms == MessagesAfter(s.comms, s.events[e].comm, answer)
  {
    assert Keyed(s.events, s.comms);
    hide Inv, Runs, Final, Enabled, Next;
    AttemptingAlone(s, w, e, now, answer);
  }

  /** Queueing under a key nobody used makes a waiting message and a row that is due at once. */
  lemma QueueingIsExact(s: State, key: Key, comm: CommId, event: EventId, now: int)
    requires Inv(s) && event !in s.events
    ensures var t := Enqueue(s, key, comm, event, now);
      if comm !in s.comms && (forall c :: c in s.comms ==> s.comms[c].key != key) then
        t.comms == s.comms[comm := Comm(key, Queued, None)] &&
        t.events == s.events[event := Event(key, comm, Pending, 0, now)] && DueFrom(t.events[event], now)
      else t == s
  {
    if comm !in s.comms && KeyFree(s, key) {
      QueueNeverConflicts(s, key, comm, event, now);
    }
  }

  // ---- delivery ---------------------------------------------------------------------

  /** What a provider event of each kind makes of its message. */
  predicate Says(d: Delivery, status: CommStatus) {
    match status
    case Arrived => d == EmailDelivered
    case Bounced => d == EmailBounced
    case Failed => d == EmailComplained || d == EmailFailed
    case _ => false
  }

  lemma DeliverySays(d: Delivery)
    ensures forall status :: DeliveryStatus(d) == status <==> Says(d, status)
  {
  }

  /** Where a webhook stands that arrived with the given report. */
  ghost predicate Carries(s: State, id: Key, reported: Key, d: Delivery) {
    id in s.hooks &&
    match s.hooks[id]
    case Received(r, delivery) => r == reported && delivery == d
    case Matched(comm, status) => Says(d, status)
    case Handled => true
  }

  lemma StepKeepsReport(s: State, step: Step, id: Key, reported: Key, d: Delivery)
    requires Carries(s, id, reported, d) && Enabled(s, step)
    ensures Carries(Next(s, step), id, reported, d)
  {
    DeliverySays(d);
  }

  lemma {:induction false} ReportIsCarried(s: State, steps: seq<Step>, id: Key, reported: Key, d: Delivery)
    requires Carries(s, id, reported, d) && Runs(s, steps)
    ensures Carries(Final(s, steps), id, reported, d)
    decreases |steps|
  {
    if steps != [] {
      StepKeepsReport(s, steps[0], id, reported, d);
      hide Enabled, Next, Carries;
      ReportIsCarried(Next(s, steps[0]), steps[1..], id, reported, d);
    }
  }

  /**
   * A webhook's report reaches its message unchanged, whatever happens between its arrival and
   * its update: the message then reads as arrived exactly after a delivery, as bounced exactly
   * after a bounce, and as failed after a complaint or a failure.
   */
  lemma ReportIsApplied(s: State, id: Key, reported: Key, d: Delivery, between: seq<Step>)
    requires id !in s.hooks && Runs(Next(s, HookArrives(id, reported, d)), between)
    requires Enabled(Final(Next(s, HookArrives(id, reported, d)), between), HookUpdates(id))
    ensures var t := Final(Next(s, HookArrives(id, reported, d)), between);
      var c := t.hooks[id].comm;
      c in Next(t, HookUpdates(id)).comms && Says(d, Next(t, HookUpdates(id)).comms[c].status) &&
      Next(t, HookUpdates(id)).comms[c] == t.comms[c].(status := Next(t, HookUpdates(id)).comms[c].status)
  {
    ReportIsCarried(Next(s, HookArrives(id, reported, d)), between, id, reported, d);
  }

  /** Only an update of a webhook or a commit touches the status of a message. */
  lemma StatusChangesBy(s: State, step: Step, c: CommId)
    requires Enabled(s, step) && c in s.comms
    ensures c in Next(s, step).comms && (Next(s, step).comms[c] != s.comms[c] ==> step.HookUpdates? || step.Commit?)
    ensures step.Commit? && Next(s, step).comms[c] != s.comms[c] ==> Next(s, step).comms[c].status == Sent
  {
  }

  // ---- batches -----------------------------------------------------------------------

  function AcceptedOf(ids: seq<EventId>, answers: map<EventId, Answer>): set<EventId> {
    set e | e in ids && e in answers && answers[e] != Refused
  }

  lemma OneMoreAccepted(rest: seq<EventId>, last: EventId, answers: map<EventId, Answer>)
    requires last in answers && last !in rest
    ensures |AcceptedOf(rest + [last], answers)| ==
      |AcceptedOf(rest, answers)| + if answers[last] != Refused then 1 else 0
  {
    var before := AcceptedOf(rest, answers);
    assert AcceptedOf(rest + [last], answers) == if answers[last] != Refused then before + {last} else before;
  }

  /** What a batch counts as succeeded are the claimed rows that were accepted, each once. */
  lemma {:induction false} AcceptedAreCounted(ids: seq<EventId>, answers: map<EventId, Answer>)
    requires Distinct(ids) && forall e :: e in ids ==> e in answers
    ensures CountAccepted(ids, answers) == |AcceptedOf(ids, answers)|
    decreases |ids|
  {
    if ids == [] {
      assert AcceptedOf(ids, answers) == {};
    } else {
      var rest, last := ids[..|ids| - 1], ids[|ids| - 1];
      assert ids == rest + [last];
      AcceptedAreCounted(rest, answers);
      hide AcceptedOf;
      OneMoreAccepted(rest, last, answers);
    }
  }

  /** What the batch method asks of the tables holds in every reachable state. */
  lemma ReachableIsPaired(steps: seq<Step>)
    requires Runs(EMPTY, steps)
    ensures OneMessageEach(Final(EMPTY, steps).events, Final(EMPTY, steps).comms)
  {
    RunKeepsInv(EMPTY, steps);
    var s := Final(EMPTY, steps);
    assert Keyed(s.events, s.comms);
    forall e, f | e in s.events && f in s.events && s.events[e].comm == s.events[f].comm ensures e == f {
      assert s.events[e].key == s.events[f].key;
    }
  }

  /** A lookup finds a message exactly when one carries the provider's id. */
  lemma LookupsFind(s: State, id: Key, found: Option<CommId>)
    requires Enabled(s, HookLooksUp(id, found))
    ensures s.hooks[id].Received?
    ensures found != None <==> exists c :: c in s.comms && s.comms[c].providerId == Some(s.hooks[id].providerId)
    ensures found != None ==>
      found.value in s.comms && s.comms[found.value].providerId == Some(s.hooks[id].providerId)
  {
  }

  /** A row that cannot be sent fails its attempt without a call to the provider. */
  lemma UnsendableFails(s: State, w: WorkerId, now: int)
    requires Loaded(s, w) && s.workers[w].phase == Ready
    ensures var steps, e := [Refuse(w), Fail(w, now)], Head(s, w);
      Runs(s, steps) && Final(s, steps).events == s.events[e := FailedOnce(s.events[e], now)] &&
      Final(s, steps).comms == s.comms && Final(s, steps).sends == s.sends &&
      w in Final(s, steps).workers && Final(s, steps).workers[w].failed == s.workers[w].failed + 1
  {
    var t := Next(s, Refuse(w));
    OutboxRuns.OneStep(s, Refuse(w));
    OutboxRuns.OneStep(t, Fail(w, now));
    OutboxRuns.RunsAppend(s, [Refuse(w)], [Fail(w, now)]);
    assert [Refuse(w)] + [Fail(w, now)] == [Refuse(w), Fail(w, now)];
  }

  lemma StepSpendsOfRows(s: State, step: Step)
    requires Exclusive(s.events, s.workers) && Bounded(s.events, s.sends) && Enabled(s, step)
    ensures |Next(s, step).events| >= |s.events|
    ensures ClaimsOf(step) + Budget(Next(s, step).events) <=
      Budget(s.events) + 5 * (|Next(s, step).events| - |s.events|)
  {
    if step.Queue? {
      BudgetOfUpdate(s.events, step.newEvent, Event(step.key, step.newComm, Pending, 0, step.now));
    } else {
      StepSpendsBudget(s, step);
      assert Next(s, step).events.Keys == s.events.Keys by {
        RowsStay(s, step);
      }
      assert |Next(s, step).events.Keys| == |s.events.Keys|;
    }
  }

  lemma RowsStay(s: State, step: Step)
    requires Exclusive(s.events, s.workers) && Enabled(s, step) && !step.Queue?
    ensures Next(s, step).events.Keys == s.events.Keys
  {
    match step
    case Commit(w) => HeldIsProcessing(s, w);
    case Fail(w, _) => HeldIsProcessing(s, w);
    case _ =>
  }

  lemma {:induction false} SpendingOfRows(s: State, steps: seq<Step>)
    requires Inv(s) && Runs(s, steps)
    ensures Claims(steps) + Budget(Final(s, steps).events) <=
      Budget(s.events) + 5 * (|Final(s, steps).events| - |s.events|)
    decreases |steps|
  {
    if steps != [] {
      StepSpendsOfRows(s, steps[0]);
      StepKeepsInv(s, steps[0]);
      hide Enabled, Next, Inv, Budget;
      SpendingOfRows(Next(s, steps[0]), steps[1..]);
    }
  }

  /** However many workers there are, all the claims of a run are at most five for each row there is at its end. */
  lemma FiveClaimsARow(steps: seq<Step>)
    requires Runs(EMPTY, steps)
    ensures Claims(steps) <= 5 * |Final(EMPTY, steps).events|
  {
    SpendingOfRows(EMPTY, steps);
  }
}
