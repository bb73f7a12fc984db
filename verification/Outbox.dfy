/**
 * The transactional outbox: paired inserts by the queue, concurrent workers that claim, send
 * and retry, and delivery webhooks that race with them. Every SQL statement outside a
 * transaction and every transaction body is one step; steps of different parties interleave
 * freely, and a worker may stop between any two of its steps.
 */
module Outbox {
  import opened Prelude

  type EventId = nat
  /** A deduplication key, and a provider's message or event id; only equality matters. */
  type Key = nat
  type CommId = nat
  type WorkerId = nat

  const MAX_ATTEMPTS: nat := 5

  datatype EventStatus = Pending | Processing | Succeeded | DeadLetter
  datatype Event = Event(key: Key, comm: CommId, status: EventStatus, attempts: nat, availableAt: int)

  datatype CommStatus = Queued | Sent | Arrived | Bounced | Failed
  datatype Comm = Comm(key: Key, status: CommStatus, providerId: Option<Key>)

  datatype Delivery = EmailDelivered | EmailBounced | EmailComplained | EmailFailed

  function DeliveryStatus(d: Delivery): CommStatus {
    match d
    case EmailDelivered => Arrived
    case EmailBounced => Bounced
    case EmailComplained => Failed
    case EmailFailed => Failed
  }

  // ---- rows ---------------------------------------------------------------

  predicate Due(e: Event, now: int) {
    e.status == Pending && e.availableAt <= now
  }

  function Claimed(e: Event): Event {
    e.(status := Processing, attempts := e.attempts + 1)
  }

  function Pow2(n: nat): nat {
    if n == 0 then 1 else 2 * Pow2(n - 1)
  }

  function RetryDelay(attempts: nat): int {
    if 1000 * Pow2(attempts) < 60000 then 1000 * Pow2(attempts) else 60000
  }

  function FailedOnce(e: Event, now: int): Event {
    e.(
      status := if e.attempts >= MAX_ATTEMPTS then DeadLetter else Pending,
      availableAt := now + RetryDelay(e.attempts))
  }

  function Delivered(e: Event): Event {
    e.(status := Succeeded)
  }

  function SentOk(c: Comm, providerId: Key): Comm {
    c.(status := Sent, providerId := Some(providerId))
  }

  function ClaimAll(events: map<EventId, Event>, ids: set<EventId>): map<EventId, Event> {
    map e | e in events :: if e in ids then Claimed(events[e]) else events[e]
  }

  predicate Distinct(ids: seq<EventId>) {
    forall i, j :: 0 <= i < j < |ids| ==> ids[i] != ids[j]
  }

  lemma TailOf(ids: seq<EventId>)
    requires ids != [] && Distinct(ids)
    ensures Distinct(ids[1..]) && ids[0] !in ids[1..]
    ensures forall e :: e in ids <==> e == ids[0] || e in ids[1..]
  {
    assert ids == [ids[0]] + ids[1..];
  }

  // ---- the tables and their sequential use --------------------------------

  /** What happens to one attempt, decided outside the database. */
  datatype Answer = Refused | Accepted(providerId: Key)

  /** A due row after one attempt. */
  function Attempted(e: Event, a: Answer, now: int): Event {
    if a.Accepted? then Delivered(Claimed(e)) else FailedOnce(Claimed(e), now)
  }

  /** A message after one attempt to send it. */
  function Reached(c: Comm, a: Answer): Comm {
    if a.Accepted? then SentOk(c, a.providerId) else c
  }

  function MessagesAfter(comms: map<CommId, Comm>, c: CommId, a: Answer): map<CommId, Comm>
    requires c in comms
  {
    comms[c := Reached(comms[c], a)]
  }

  function CountAccepted(ids: seq<EventId>, answers: map<EventId, Answer>): nat
    requires forall e :: e in ids ==> e in answers
  {
    if ids == [] then 0
    else CountAccepted(ids[..|ids| - 1], answers) + (if answers[ids[|ids| - 1]].Accepted? then 1 else 0)
  }

  /** Every row has its message, and no two rows share one. */
  ghost predicate OneMessageEach(events: map<EventId, Event>, comms: map<CommId, Comm>) {
    (forall e :: e in events ==> events[e].comm in comms) &&
    forall e, f :: e in events && f in events && events[e].comm == events[f].comm ==> e == f
  }

  function Members(ids: seq<EventId>): set<EventId> { set e | e in ids }

  /**
   * Both tables in the middle of a batch: `done` of the claimed rows were attempted, and everything
   * else is untouched.
   */
  ghost predicate Progress(
    events0: map<EventId, Event>, comms0: map<CommId, Comm>, events: map<EventId, Event>, comms: map<CommId, Comm>,
    claimed: set<EventId>, done: set<EventId>, answers: map<EventId, Answer>, now: int)
  {
    events.Keys == events0.Keys && comms.Keys == comms0.Keys && done <= claimed <= events0.Keys &&
    done <= answers.Keys &&
    OneMessageEach(events0, comms0) &&
    (forall e :: e in events0 ==>
      events[e] ==
        if e in done then Attempted(events0[e], answers[e], now) else if e in claimed then Claimed(events0[e])
        else events0[e]) &&
    (forall e :: e in events0 ==>
      comms[events0[e].comm] ==
        if e in done then Reached(comms0[events0[e].comm], answers[e]) else comms0[events0[e].comm]) &&
    forall c :: c in comms0 && (forall e :: e in done ==> events0[e].comm != c) ==> comms[c] == comms0[c]
  }

  lemma ClaimStartsProgress(
      events: map<EventId, Event>, comms: map<CommId, Comm>, claimed: set<EventId>,
      answers: map<EventId, Answer>, now: int)
    requires OneMessageEach(events, comms) && claimed <= events.Keys
    ensures Progress(events, comms, ClaimAll(events, claimed), comms, claimed, {}, answers, now)
  {
  }

  lemma OneMoreAttempt(
    events0: map<EventId, Event>, comms0: map<CommId, Comm>, events: map<EventId, Event>, comms: map<CommId, Comm>,
    claimed: set<EventId>, done: set<EventId>, answers: map<EventId, Answer>, now: int, e: EventId)
    requires Progress(events0, comms0, events, comms, claimed, done, answers, now) && e in claimed && e !in done &&
      e in answers
    ensures e in events && events[e].comm in comms
    ensures var row := if answers[e].Accepted? then Delivered(events[e]) else FailedOnce(events[e], now);
      Progress(events0, comms0, events[e := row], MessagesAfter(comms, events[e].comm, answers[e]), claimed, done + {e},
        answers, now)
  {
  }

  class MessageTables {
    var events: map<EventId, Event>
    var comms: map<CommId, Comm>
    var webhooks: set<Key>

    /** The queue: the communication first, its outbox row second, in the caller's transaction. */
    method Queue(key: Key, comm: CommId, event: EventId, now: int) returns (queued: bool)
      modifies this`events, this`comms
      ensures queued <==> comm !in old(comms) && (forall c :: c in old(comms) ==> old(comms)[c].key != key)
      ensures !queued ==> events == old(events) && comms == old(comms)
      ensures queued ==> comms == old(comms)[comm := Comm(key, Queued, None)]
      ensures queued ==> (events ==
        if event in old(events) || (exists e :: e in old(events) && old(events)[e].key == key) then old(events)
        else old(events)[event := Event(key, comm, Pending, 0, now)])
    {
      if comm in comms || exists c :: c in comms && comms[c].key == key {
        return false;
      }
      comms := comms[comm := Comm(key, Queued, None)];
      if event !in events && !exists e :: e in events && events[e].key == key {
        events := events[event := Event(key, comm, Pending, 0, now)];
      }
      return true;
    }

    /** The claiming transaction: up to `limit` due rows, each charged one attempt. */
    method Claim(limit: nat, now: int) returns (ids: seq<EventId>)
      modifies this`events
      ensures Distinct(ids)
      ensures forall e :: e in ids ==> e in old(events) && Due(old(events)[e], now)
      ensures events == ClaimAll(old(events), Members(ids))
      ensures |ids| <= limit
      ensures |ids| < limit ==> forall e :: e in old(events) && Due(old(events)[e], now) ==> e in ids
    {
      ids := [];
      var rest := set e | e in events && Due(events[e], now);
      while rest != {} && |ids| < limit
        invariant rest <= events.Keys && |ids| <= limit
        invariant Distinct(ids)
        invariant forall e :: e in events && Due(events[e], now) <==> e in rest || e in ids
        invariant forall e :: e in ids ==> e !in rest
        decreases rest
      {
        var e :| e in rest;
        ids, rest := ids + [e], rest - {e};
      }
      events := map e | e in events :: if e in ids then Claimed(events[e]) else events[e];
    }

    /** One attempt on a claimed row: the row and its message move together, or the row is retried or given up. */
    method ProcessEvent(e: EventId, now: int, answer: Answer) returns (succeeded: bool)
      requires e in events && events[e].comm in comms
      modifies this`events, this`comms
      ensures succeeded == answer.Accepted?
      ensures events ==
        old(events)[e := if succeeded then Delivered(old(events)[e]) else FailedOnce(old(events)[e], now)]
      ensures comms == MessagesAfter(old(comms), old(events)[e].comm, answer)
    {
      match answer
      case Accepted(providerId) =>
        comms := comms[events[e].comm := SentOk(comms[events[e].comm], providerId)];
        events := events[e := Delivered(events[e])];
        return true;
      case Refused =>
        events := events[e := FailedOnce(events[e], now)];
        return false;
    }

    /** One batch run alone: every claimed event is attempted once, with its message, and leaves `processing`. */
    method RunBatch(limit: nat, now: int, answers: map<EventId, Answer>)
      returns (claimed: nat, succeeded: nat, failed: nat, ghost ids: seq<EventId>)
      requires OneMessageEach(events, comms) && forall e :: e in events ==> e in answers
      modifies this`events, this`comms
      ensures claimed == |ids| == succeeded + failed && claimed <= limit
      ensures forall e :: e in ids ==> e in old(events) && e in answers && Due(old(events)[e], now)
      ensures succeeded == CountAccepted(ids, answers)
      ensures Progress(old(events), old(comms), events, comms, Members(ids), Members(ids), answers, now)
    {
      hide Progress;
      var claimedIds := Claim(limit, now);
      ids := claimedIds;
      assert Members(ids[..0]) == {};
      ClaimStartsProgress(old(events), comms, Members(ids), answers, now);
      succeeded, failed := 0, 0;
      for i := 0 to |claimedIds|
        invariant succeeded + failed == i && succeeded == CountAccepted(ids[..i], answers)
        invariant Progress(old(events), old(comms), events, comms, Members(ids), Members(ids[..i]), answers, now)
      {
        var e := claimedIds[i];
        assert ids[..i + 1] == ids[..i] + [e] && ids[..i + 1][..i] == ids[..i];
        assert Members(ids[..i + 1]) == Members(ids[..i]) + {e} && e !in Members(ids[..i]);
        OneMoreAttempt(old(events), old(comms), events, comms, Members(ids), Members(ids[..i]), answers, now, e);
        var ok := ProcessEvent(e, now, answers[e]);
        if ok { succeeded := succeeded + 1; } else { failed := failed + 1; }
      }
      assert ids[..|ids|] == ids;
      return |claimedIds|, succeeded, failed, claimedIds;
    }

    /** A provider webhook: handled once per provider event id, and only for a message that was sent. */
    method RecordDeliveryEvent(providerEventId: Key, providerId: Key, delivery: Delivery)
      returns (matched: Option<CommId>)
      modifies this`webhooks, this`comms
      ensures webhooks == old(webhooks) + {providerEventId}
      ensures matched.None? ==> comms == old(comms)
      ensures matched.None? <==>
        providerEventId in old(webhooks) || forall c :: c in old(comms) ==> old(comms)[c].providerId != Some(providerId)
      ensures matched.Some? ==> matched.value in old(comms) && old(comms)[matched.value].providerId == Some(providerId)
      ensures matched.Some? ==>
        comms == old(comms)[matched.value := old(comms)[matched.value].(status := DeliveryStatus(delivery))]
    {
      if providerEventId in webhooks { return None; }
      webhooks := webhooks + {providerEventId};
      if exists c :: c in comms && comms[c].providerId == Some(providerId) {
        var c :| c in comms && comms[c].providerId == Some(providerId);
        comms := comms[c := comms[c].(status := DeliveryStatus(delivery))];
        return Some(c);
      }
      return None;
    }
  }

  // ---- interleavings ------------------------------------------------------

  /** Where a worker stands with the first event of its list. */
  datatype Phase = Ready | Handed(providerId: Key) | Failing

  datatype Worker = Worker(claimed: nat, todo: seq<EventId>, phase: Phase, succeeded: nat, failed: nat)

  datatype Hook = Received(providerId: Key, delivery: Delivery) | Matched(comm: CommId, status: CommStatus) | Handled

  /** `sends` counts the calls to the email provider for each event. */
  datatype State = State(
    events: map<EventId, Event>, comms: map<CommId, Comm>, workers: map<WorkerId, Worker>,
    hooks: map<Key, Hook>, sends: map<EventId, nat>)

  datatype Step =
    | Queue(key: Key, newComm: CommId, newEvent: EventId, now: int)
    | Claim(worker: WorkerId, ids: seq<EventId>, now: int)
    | Refuse(worker: WorkerId)
    | Send(worker: WorkerId, providerId: Key)
    | SendFails(worker: WorkerId)
    | Commit(worker: WorkerId)
    | CommitFails(worker: WorkerId)
    | Fail(worker: WorkerId, now: int)
    | Finish(worker: WorkerId)
    | Stop(worker: WorkerId)
    | HookArrives(id: Key, reported: Key, delivery: Delivery)
    | HookLooksUp(id: Key, found: Option<CommId>)
    | HookUpdates(id: Key)

  const IDLE := Worker(0, [], Ready, 0, 0)

  predicate Busy(s: State, w: WorkerId) {
    w in s.workers && s.workers[w].todo != []
  }

  function Head(s: State, w: WorkerId): EventId
    requires Busy(s, w)
  {
    s.workers[w].todo[0]
  }

  /** The row a busy worker works on, with its communication, is there. */
  predicate Loaded(s: State, w: WorkerId) {
    Busy(s, w) && Head(s, w) in s.events && s.events[Head(s, w)].comm in s.comms
  }

  predicate CanClaim(s: State, w: WorkerId, ids: seq<EventId>, now: int) {
    (w in s.workers ==> s.workers[w] == IDLE) && ids != [] && Distinct(ids) &&
    forall e :: e in ids ==> e in s.events && Due(s.events[e], now)
  }

  /** The row a webhook's lookup by provider message id may return. */
  predicate MayFind(s: State, providerId: Key, found: Option<CommId>) {
    match found
    case Some(c) => c in s.comms && s.comms[c].providerId == Some(providerId)
    case None => forall c :: c in s.comms ==> s.comms[c].providerId != Some(providerId)
  }

  ghost predicate Enabled(s: State, step: Step) {
    match step
    case Queue(_, _, newEvent, _) => newEvent !in s.events
    case Claim(w, ids, now) => CanClaim(s, w, ids, now)
    case Refuse(w) => Busy(s, w) && s.workers[w].phase == Ready
    case Send(w, _) => Loaded(s, w) && s.workers[w].phase == Ready
    case SendFails(w) => Loaded(s, w) && s.workers[w].phase == Ready
    case Commit(w) => Loaded(s, w) && s.workers[w].phase.Handed?
    case CommitFails(w) => Busy(s, w) && s.workers[w].phase.Handed?
    case Fail(w, _) => Loaded(s, w) && s.workers[w].phase == Failing
    case Finish(w) => w in s.workers && s.workers[w].todo == []
    case Stop(w) => w in s.workers
    case HookArrives(id, _, _) => id !in s.hooks
    case HookLooksUp(id, found) => id in s.hooks && s.hooks[id].Received? && MayFind(s, s.hooks[id].providerId, found)
    case HookUpdates(id) => id in s.hooks && s.hooks[id].Matched? && s.hooks[id].comm in s.comms
  }

  function SendsOf(sends: map<EventId, nat>, e: EventId): nat {
    if e in sends then sends[e] else 0
  }

  predicate KeyFree(s: State, key: Key) {
    forall c :: c in s.comms ==> s.comms[c].key != key
  }

  function Enqueue(s: State, key: Key, comm: CommId, event: EventId, now: int): State {
    if comm in s.comms || !KeyFree(s, key) then s
    else
      var comms := s.comms[comm := Comm(key, Queued, None)];
      if exists e :: e in s.events && s.events[e].key == key then s.(comms := comms)
      else s.(comms := comms, events := s.events[event := Event(key, comm, Pending, 0, now)])
  }

  /** The worker enters `phase` with its first event, having called the provider `calls` times more. */
  function EnterPhase(s: State, w: WorkerId, phase: Phase, calls: nat): State
    requires Busy(s, w)
  {
    var e := Head(s, w);
    s.(workers := s.workers[w := s.workers[w].(phase := phase)],
       sends := if calls == 0 then s.sends else s.sends[e := SendsOf(s.sends, e) + calls])
  }

  /** The worker settles its first event with the given row and turns to the next one. */
  function Settle(s: State, w: WorkerId, row: Event, won: bool): State
    requires Busy(s, w)
  {
    var me := s.workers[w];
    var done := if won then me.(succeeded := me.succeeded + 1) else me.(failed := me.failed + 1);
    s.(events := s.events[me.todo[0] := row], workers := s.workers[w := done.(todo := me.todo[1..], phase := Ready)])
  }

  function MarkSent(s: State, c: CommId, providerId: Key): State
    requires c in s.comms
  {
    s.(comms := s.comms[c := SentOk(s.comms[c], providerId)])
  }

  ghost function Next(s: State, step: Step): State
    requires Enabled(s, step)
  {
    match step
    case Queue(key, comm, event, now) => Enqueue(s, key, comm, event, now)
    case Claim(w, ids, now) =>
      s.(events := ClaimAll(s.events, set e | e in ids), workers := s.workers[w := Worker(|ids|, ids, Ready, 0, 0)])
    case Refuse(w) => EnterPhase(s, w, Failing, 0)
    case Send(w, providerId) => EnterPhase(s, w, Handed(providerId), 1)
    case SendFails(w) => EnterPhase(s, w, Failing, 1)
    case Commit(w) =>
      var row := s.events[Head(s, w)];
      MarkSent(Settle(s, w, Delivered(row), true), row.comm, s.workers[w].phase.providerId)
    case CommitFails(w) => EnterPhase(s, w, Failing, 0)
    case Fail(w, now) => Settle(s, w, FailedOnce(s.events[Head(s, w)], now), false)
    case Finish(w) => s.(workers := s.workers[w := IDLE])
    case Stop(w) => s.(workers := s.workers[w := IDLE])
    case HookArrives(id, reported, delivery) => s.(hooks := s.hooks[id := Received(reported, delivery)])
    case HookLooksUp(id, found) =>
      s.(hooks := s.hooks[id := if found.Some? then Matched(found.value, DeliveryStatus(s.hooks[id].delivery))
        else Handled])
    case HookUpdates(id) =>
      var h := s.hooks[id];
      s.(comms := s.comms[h.comm := s.comms[h.comm].(status := h.status)], hooks := s.hooks[id := Handled])
  }

  // ---- invariants ---------------------------------------------------------

  /** Whatever a worker has on its list is `processing`, and on no other list. */
  ghost predicate Exclusive(events: map<EventId, Event>, workers: map<WorkerId, Worker>) {
    (forall w :: w in workers ==> Distinct(workers[w].todo)) &&
    (forall w, e :: w in workers && e in workers[w].todo ==> e in events && events[e].status == Processing) &&
    (forall v, w, e :: v in workers && w in workers && e in workers[v].todo && e in workers[w].todo ==> v == w)
  }

  /** Attempts stay within the limit, rows that wait have some left, and attempts cover the sends. */
  ghost predicate Bounded(events: map<EventId, Event>, sends: map<EventId, nat>) {
    (forall e :: e in sends ==> e in events) &&
    (forall e :: e in events ==> events[e].attempts <= MAX_ATTEMPTS && SendsOf(sends, e) <= events[e].attempts) &&
    (forall e :: e in events && events[e].status == Pending ==> events[e].attempts < MAX_ATTEMPTS)
  }

  /** The attempt an event is held for has not been sent yet, unless it is the one in hand. */
  ghost predicate Unsent(events: map<EventId, Event>, sends: map<EventId, nat>, worker: Worker) {
    forall e :: e in worker.todo && e in events && (e != worker.todo[0] || worker.phase == Ready) ==>
      SendsOf(sends, e) < events[e].attempts
  }

  /** A communication and its outbox row carry the same deduplication key, and no key occurs twice. */
  ghost predicate Keyed(events: map<EventId, Event>, comms: map<CommId, Comm>) {
    (forall e :: e in events ==> events[e].comm in comms && comms[events[e].comm].key == events[e].key) &&
    (forall e, f :: e in events && f in events && events[e].key == events[f].key ==> e == f) &&
    (forall c, d :: c in comms && d in comms && comms[c].key == comms[d].key ==> c == d)
  }

  predicate Serves(events: map<EventId, Event>, e: EventId, c: CommId) {
    e in events && events[e].comm == c
  }

  ghost predicate Served(events: map<EventId, Event>, c: CommId) {
    exists e :: Serves(events, e, c)
  }

  /** Communications and outbox rows correspond one to one. */
  ghost predicate Paired(events: map<EventId, Event>, comms: map<CommId, Comm>) {
    Keyed(events, comms) && forall c :: c in comms ==> Served(events, c)
  }

  ghost predicate SentTogether(events: map<EventId, Event>, comms: map<CommId, Comm>) {
    (forall e :: e in events && events[e].comm in comms ==>
      (events[e].status == Succeeded <==> comms[events[e].comm].providerId.Some?)) &&
    (forall c :: c in comms ==> (comms[c].providerId.Some? <==> comms[c].status != Queued))
  }

  ghost predicate HooksMatch(comms: map<CommId, Comm>, hooks: map<Key, Hook>) {
    forall id :: id in hooks && hooks[id].Matched? ==>
      hooks[id].status != Queued && hooks[id].comm in comms && comms[hooks[id].comm].providerId.Some?
  }

  predicate Counted(worker: Worker) {
    worker.claimed == worker.succeeded + worker.failed + |worker.todo|
  }

  /** Who holds what, how often it was tried, and which row belongs to which message. */
  ghost predicate Orderly(s: State) {
    Exclusive(s.events, s.workers) && Bounded(s.events, s.sends) &&
    (forall w :: w in s.workers ==> Unsent(s.events, s.sends, s.workers[w]) && Counted(s.workers[w])) &&
    Paired(s.events, s.comms)
  }

  ghost predicate Inv(s: State) {
    Orderly(s) && SentTogether(s.events, s.comms) && HooksMatch(s.comms, s.hooks)
  }

  /** Rows that keep their key and communication keep the pairing. */
  lemma SameKeysStayPaired(events: map<EventId, Event>, events': map<EventId, Event>, comms: map<CommId, Comm>)
    requires Paired(events, comms) && events.Keys == events'.Keys
    requires forall e :: e in events ==> events'[e].key == events[e].key && events'[e].comm == events[e].comm
    ensures Paired(events', comms)
  {
    forall c | c in comms ensures Served(events', c) {
      assert Served(events, c);
      var e :| Serves(events, e, c);
      assert Serves(events', e, c);
    }
  }

  /** Changing a communication without its key keeps the pairing. */
  lemma MarkingKeepsPairs(events: map<EventId, Event>, comms: map<CommId, Comm>, c: CommId, marked: Comm)
    requires Paired(events, comms) && c in comms && marked.key == comms[c].key
    ensures Paired(events, comms[c := marked])
  {
  }

  lemma ClaimKeepsHolding(s: State, w: WorkerId, ids: seq<EventId>, now: int)
    requires Exclusive(s.events, s.workers) && CanClaim(s, w, ids, now)
    ensures var t := Next(s, Claim(w, ids, now)); Exclusive(t.events, t.workers)
  {
    var t := Next(s, Claim(w, ids, now));
    forall v, e | v in s.workers && e in s.workers[v].todo ensures e !in ids {
      assert s.events[e].status == Processing;
    }
    assert forall v :: v in t.workers && v != w ==> t.workers[v] == s.workers[v];
  }

  lemma ClaimKeepsBounds(s: State, w: WorkerId, ids: seq<EventId>, now: int)
    requires Exclusive(s.events, s.workers) && Bounded(s.events, s.sends) && CanClaim(s, w, ids, now)
    requires forall v :: v in s.workers ==> Unsent(s.events, s.sends, s.workers[v]) && Counted(s.workers[v])
    ensures var t := Next(s, Claim(w, ids, now));
      Bounded(t.events, t.sends) &&
      forall v :: v in t.workers ==> Unsent(t.events, t.sends, t.workers[v]) && Counted(t.workers[v])
  {
    var t := Next(s, Claim(w, ids, now));
    forall v | v in t.workers ensures Unsent(t.events, t.sends, t.workers[v]) && Counted(t.workers[v]) {
      if v != w {
        assert Unsent(s.events, s.sends, s.workers[v]) && Counted(s.workers[v]);
      }
    }
  }

  lemma ClaimKeepsOrder(s: State, w: WorkerId, ids: seq<EventId>, now: int)
    requires Orderly(s) && CanClaim(s, w, ids, now)
    ensures Orderly(Next(s, Claim(w, ids, now)))
  {
    hide Exclusive, Bounded, Unsent, Counted, Paired;
    ClaimKeepsHolding(s, w, ids, now);
    ClaimKeepsBounds(s, w, ids, now);
    SameKeysStayPaired(s.events, Next(s, Claim(w, ids, now)).events, s.comms);
  }

  lemma PhaseKeepsOrder(s: State, w: WorkerId, phase: Phase, calls: nat)
    requires Orderly(s) && Busy(s, w) && phase != Ready && calls <= 1
    requires calls == 1 ==> s.workers[w].phase == Ready
    ensures Orderly(EnterPhase(s, w, phase, calls))
  {
    PhaseKeepsHolding(s, w, phase, calls);
    PhaseKeepsBounds(s, w, phase, calls);
  }

  lemma PhaseKeepsBounds(s: State, w: WorkerId, phase: Phase, calls: nat)
    requires Exclusive(s.events, s.workers) && Bounded(s.events, s.sends)
    requires forall v :: v in s.workers ==> Unsent(s.events, s.sends, s.workers[v]) && Counted(s.workers[v])
    requires Busy(s, w) && phase != Ready && calls <= 1 && (calls == 1 ==> s.workers[w].phase == Ready)
    ensures var t := EnterPhase(s, w, phase, calls);
      Bounded(t.events, t.sends) &&
      forall v :: v in t.workers ==> Unsent(t.events, t.sends, t.workers[v]) && Counted(t.workers[v])
  {
    var t := EnterPhase(s, w, phase, calls);
    var e := Head(s, w);
    assert e in s.workers[w].todo && Unsent(s.events, s.sends, s.workers[w]);
    assert calls == 1 ==> SendsOf(s.sends, e) < s.events[e].attempts;
    forall v | v in t.workers ensures Unsent(t.events, t.sends, t.workers[v]) && Counted(t.workers[v]) {
      assert Unsent(s.events, s.sends, s.workers[v]) && Counted(s.workers[v]);
      assert v != w ==> e !in s.workers[v].todo;
    }
  }

  lemma PhaseKeepsHolding(s: State, w: WorkerId, phase: Phase, calls: nat)
    requires Exclusive(s.events, s.workers) && Busy(s, w)
    ensures Exclusive(s.events, EnterPhase(s, w, phase, calls).workers)
  {
    var t := EnterPhase(s, w, phase, calls);
    assert forall v :: v in t.workers ==> v in s.workers && t.workers[v].todo == s.workers[v].todo;
  }

  /** Settling a held event leaves every other worker's list alone. */
  lemma SettleKeepsHolding(s: State, w: WorkerId, row: Event, won: bool)
    requires Exclusive(s.events, s.workers) && Busy(s, w)
    ensures Exclusive(Settle(s, w, row, won).events, Settle(s, w, row, won).workers)
  {
    var t := Settle(s, w, row, won);
    TailOf(s.workers[w].todo);
    assert t.workers[w].todo == s.workers[w].todo[1..];
    forall v, e | v in t.workers && e in t.workers[v].todo
      ensures e != Head(s, w) && e in s.workers[v].todo
    {
      assert v != w ==> t.workers[v] == s.workers[v];
    }
  }

  lemma SettleKeepsBounds(s: State, w: WorkerId, row: Event, won: bool)
    requires Exclusive(s.events, s.workers) && Bounded(s.events, s.sends) && Loaded(s, w)
    requires forall v :: v in s.workers ==> Unsent(s.events, s.sends, s.workers[v]) && Counted(s.workers[v])
    requires row.attempts == s.events[Head(s, w)].attempts && (row.status == Pending ==> row.attempts < MAX_ATTEMPTS)
    ensures var t := Settle(s, w, row, won);
      Bounded(t.events, t.sends) &&
      forall v :: v in t.workers ==> Unsent(t.events, t.sends, t.workers[v]) && Counted(t.workers[v])
  {
    var t := Settle(s, w, row, won);
    TailOf(s.workers[w].todo);
    forall v | v in t.workers ensures Unsent(t.events, t.sends, t.workers[v]) && Counted(t.workers[v]) {
      assert Unsent(s.events, s.sends, s.workers[v]) && Counted(s.workers[v]);
    }
  }

  lemma FailKeepsOrder(s: State, w: WorkerId, now: int)
    requires Orderly(s) && Loaded(s, w)
    ensures Orderly(Settle(s, w, FailedOnce(s.events[Head(s, w)], now), false))
  {
    var row := FailedOnce(s.events[Head(s, w)], now);
    hide Exclusive, Bounded, Unsent, Counted, Paired;
    SettleKeepsHolding(s, w, row, false);
    SettleKeepsBounds(s, w, row, false);
    RowStaysPaired(s.events, s.comms, Head(s, w), row);
  }

  /** Settling one row keeps the pairing. */
  lemma RowStaysPaired(events: map<EventId, Event>, comms: map<CommId, Comm>, e: EventId, row: Event)
    requires Paired(events, comms) && e in events && row.key == events[e].key && row.comm == events[e].comm
    ensures Paired(events[e := row], comms)
  {
    hide Paired;
    SameKeysStayPaired(events, events[e := row], comms);
  }

  lemma CommitKeepsOrder(s: State, w: WorkerId, providerId: Key)
    requires Orderly(s) && Loaded(s, w)
    ensures var row := s.events[Head(s, w)];
      Orderly(MarkSent(Settle(s, w, Delivered(row), true), row.comm, providerId))
  {
    var row := s.events[Head(s, w)];
    hide Exclusive, Bounded, Unsent, Counted, Keyed, Served;
    RowStaysPaired(s.events, s.comms, Head(s, w), Delivered(row));
    MarkingKeepsPairs(s.events[Head(s, w) := Delivered(row)], s.comms, row.comm, SentOk(s.comms[row.comm], providerId));
    SettleKeepsHolding(s, w, Delivered(row), true);
    SettleKeepsBounds(s, w, Delivered(row), true);
  }

  /** The row and its communication move in one transaction, and no other row refers to that communication. */
  lemma SendingKeepsTogether(s: State, e: EventId, marked: Comm)
    requires Keyed(s.events, s.comms) && SentTogether(s.events, s.comms) && HooksMatch(s.comms, s.hooks) &&
      e in s.events
    requires marked.providerId.Some? && marked.status != Queued
    ensures var comms := s.comms[s.events[e].comm := marked];
      SentTogether(s.events[e := Delivered(s.events[e])], comms) && HooksMatch(comms, s.hooks)
  {
    forall f | f in s.events && f != e ensures s.events[f].comm != s.events[e].comm {
      assert s.events[f].key != s.events[e].key;
    }
  }

  /** A key is free among communications exactly when it is free among outbox rows. */
  lemma KeysAgree(s: State, key: Key)
    requires Paired(s.events, s.comms)
    ensures KeyFree(s, key) <==> forall e :: e in s.events ==> s.events[e].key != key
  {
    forall c | c in s.comms && s.comms[c].key == key ensures exists e :: e in s.events && s.events[e].key == key {
      assert Served(s.events, c);
      var e :| Serves(s.events, e, c);
      assert s.events[e].key == key;
    }
  }

  /** A freshly inserted communication always gets its outbox row: the conflict clause is never taken. */
  lemma QueueNeverConflicts(s: State, key: Key, comm: CommId, event: EventId, now: int)
    requires Paired(s.events, s.comms) && event !in s.events && comm !in s.comms && KeyFree(s, key)
    ensures Enqueue(s, key, comm, event, now).events == s.events[event := Event(key, comm, Pending, 0, now)]
  {
    KeysAgree(s, key);
  }

  lemma QueueKeepsPaired(s: State, key: Key, comm: CommId, event: EventId, now: int)
    requires Paired(s.events, s.comms) && event !in s.events && comm !in s.comms && KeyFree(s, key)
    ensures Paired(s.events[event := Event(key, comm, Pending, 0, now)], s.comms[comm := Comm(key, Queued, None)])
  {
    var events := s.events[event := Event(key, comm, Pending, 0, now)];
    KeysAgree(s, key);
    assert Serves(events, event, comm);
    forall c | c in s.comms ensures Served(events, c) {
      assert Served(s.events, c);
      var e :| Serves(s.events, e, c);
      assert Serves(events, e, c);
    }
  }

  lemma QueueKeepsBounds(s: State, event: EventId, row: Event)
    requires Exclusive(s.events, s.workers) && Bounded(s.events, s.sends)
    requires forall w :: w in s.workers ==> Unsent(s.events, s.sends, s.workers[w])
    requires event !in s.events && row.status == Pending && row.attempts == 0
    ensures var events := s.events[event := row];
      Exclusive(events, s.workers) && Bounded(events, s.sends) &&
      forall w :: w in s.workers ==> Unsent(events, s.sends, s.workers[w])
  {
    var events := s.events[event := row];
    forall w | w in s.workers ensures Unsent(events, s.sends, s.workers[w]) {
      assert Unsent(s.events, s.sends, s.workers[w]);
    }
  }

  lemma QueueKeepsOrder(s: State, key: Key, comm: CommId, event: EventId, now: int)
    requires Orderly(s) && event !in s.events
    ensures Orderly(Enqueue(s, key, comm, event, now))
  {
    if comm !in s.comms && KeyFree(s, key) {
      QueueNeverConflicts(s, key, comm, event, now);
      QueueKeepsPaired(s, key, comm, event, now);
      QueueKeepsBounds(s, event, Event(key, comm, Pending, 0, now));
    }
  }

  lemma HookKeepsOrder(s: State, id: Key)
    requires Orderly(s) && Enabled(s, HookUpdates(id))
    ensures Orderly(Next(s, HookUpdates(id)))
  {
    var h := s.hooks[id];
    hide Exclusive, Bounded, Unsent, Counted, Paired;
    MarkingKeepsPairs(s.events, s.comms, h.comm, s.comms[h.comm].(status := h.status));
  }

  lemma RestKeepsOrder(s: State, w: WorkerId)
    requires Orderly(s) && w in s.workers
    ensures Orderly(s.(workers := s.workers[w := IDLE]))
  {
  }

  lemma StepKeepsOrder(s: State, step: Step)
    requires Orderly(s) && Enabled(s, step)
    ensures Orderly(Next(s, step))
  {
    match step
    case Queue(key, comm, event, now) => QueueKeepsOrder(s, key, comm, event, now);
    case Claim(w, ids, now) => ClaimKeepsOrder(s, w, ids, now);
    case Refuse(w) => PhaseKeepsOrder(s, w, Failing, 0);
    case Send(w, providerId) => PhaseKeepsOrder(s, w, Handed(providerId), 1);
    case SendFails(w) => PhaseKeepsOrder(s, w, Failing, 1);
    case Commit(w) => CommitKeepsOrder(s, w, s.workers[w].phase.providerId);
    case CommitFails(w) => PhaseKeepsOrder(s, w, Failing, 0);
    case Fail(w, now) => FailKeepsOrder(s, w, now);
    case Finish(w) => RestKeepsOrder(s, w);
    case Stop(w) => RestKeepsOrder(s, w);
    case _ =>
  }

  lemma QueueKeepsTogether(s: State, comm: CommId, event: EventId, key: Key, now: int)
    requires Keyed(s.events, s.comms) && SentTogether(s.events, s.comms) && HooksMatch(s.comms, s.hooks) &&
      comm !in s.comms
    ensures var comms := s.comms[comm := Comm(key, Queued, None)];
      SentTogether(s.events[event := Event(key, comm, Pending, 0, now)], comms) && HooksMatch(comms, s.hooks)
  {
  }

  lemma StatusKeepsTogether(events: map<EventId, Event>, comms: map<CommId, Comm>, hooks: map<Key, Hook>, id: Key)
    requires SentTogether(events, comms) && HooksMatch(comms, hooks) && id in hooks && hooks[id].Matched? &&
      hooks[id].comm in comms
    ensures var moved := comms[hooks[id].comm := comms[hooks[id].comm].(status := hooks[id].status)];
      SentTogether(events, moved) && HooksMatch(moved, hooks[id := Handled])
  {
  }

  /** A row that was not sent and is not final stays unsent when its attempt fails. */
  lemma FailingKeepsTogether(s: State, e: EventId, now: int)
    requires SentTogether(s.events, s.comms) && e in s.events && s.events[e].status == Processing
    ensures SentTogether(s.events[e := FailedOnce(s.events[e], now)], s.comms)
  {
  }

  lemma ClaimingKeepsTogether(s: State, w: WorkerId, ids: seq<EventId>, now: int)
    requires SentTogether(s.events, s.comms) && CanClaim(s, w, ids, now)
    ensures SentTogether(Next(s, Claim(w, ids, now)).events, s.comms)
  {
  }

  /** Queueing, claiming and failing leave what is sent as it is; a commit moves both rows together. */
  lemma StepKeepsTogether(s: State, step: Step)
    requires Inv(s) && Enabled(s, step)
    ensures SentTogether(Next(s, step).events, Next(s, step).comms)
    ensures HooksMatch(Next(s, step).comms, Next(s, step).hooks)
  {
    hide Bounded, Unsent, Counted, Served, SentTogether, Keyed, Exclusive;
    match step
    case Queue(key, comm, event, now) =>
      if comm !in s.comms && KeyFree(s, key) {
        QueueNeverConflicts(s, key, comm, event, now);
        QueueKeepsTogether(s, comm, event, key, now);
      }
    case Claim(w, ids, now) => ClaimingKeepsTogether(s, w, ids, now);
    case Commit(w) =>
      SendingKeepsTogether(s, Head(s, w), SentOk(s.comms[s.events[Head(s, w)].comm], s.workers[w].phase.providerId));
    case Fail(w, now) =>
      HeldIsProcessing(s, w);
      FailingKeepsTogether(s, Head(s, w), now);
    case HookUpdates(id) => StatusKeepsTogether(s.events, s.comms, s.hooks, id);
    case _ =>
  }

  lemma StepKeepsInv(s: State, step: Step)
    requires Inv(s) && Enabled(s, step)
    ensures Inv(Next(s, step))
  {
    StepKeepsTogether(s, step);
    StepKeepsOrder(s, step);
  }

  lemma HeldIsProcessing(s: State, w: WorkerId)
    requires Exclusive(s.events, s.workers) && Busy(s, w)
    ensures Head(s, w) in s.events && s.events[Head(s, w)].status == Processing
  {
    assert Head(s, w) in s.workers[w].todo;
  }

  /** Once `succeeded` or dead-lettered, an outbox row never changes again, nor is it sent again. */
  lemma FinalStaysFinal(s: State, step: Step, e: EventId)
    requires Exclusive(s.events, s.workers) && Enabled(s, step)
    requires e in s.events && s.events[e].status in {Succeeded, DeadLetter}
    ensures e in Next(s, step).events && Next(s, step).events[e] == s.events[e]
    ensures SendsOf(Next(s, step).sends, e) == SendsOf(s.sends, e)
  {
    match step
    case Commit(w) => HeldIsProcessing(s, w);
    case Fail(w, _) => HeldIsProcessing(s, w);
    case Send(w, _) => HeldIsProcessing(s, w);
    case SendFails(w) => HeldIsProcessing(s, w);
    case _ =>
  }

  /** A batch that runs to its end reports as many outcomes as it claimed. */
  lemma BatchAddsUp(s: State, w: WorkerId)
    requires Inv(s) && Enabled(s, Finish(w))
    ensures s.workers[w].claimed == s.workers[w].succeeded + s.workers[w].failed
  {
    assert Counted(s.workers[w]);
  }

  // ---- whole runs ---------------------------------------------------------

  ghost predicate Runs(s: State, steps: seq<Step>)
    decreases |steps|
  {
    steps == [] || (Enabled(s, steps[0]) && Runs(Next(s, steps[0]), steps[1..]))
  }

  ghost function Final(s: State, steps: seq<Step>): State
    requires Runs(s, steps)
    decreases |steps|
  {
    if steps == [] then s else Final(Next(s, steps[0]), steps[1..])
  }

  const EMPTY := State(map[], map[], map[], map[], map[])

  lemma {:induction false} RunKeepsInv(s: State, steps: seq<Step>)
    requires Inv(s) && Runs(s, steps)
    ensures Inv(Final(s, steps))
    decreases |steps|
  {
    if steps != [] {
      StepKeepsInv(s, steps[0]);
      RunKeepsInv(Next(s, steps[0]), steps[1..]);
    }
  }

  /** In every interleaving an outbox row is `succeeded` exactly when its message has left. */
  lemma SucceededMeansSent(steps: seq<Step>, e: EventId)
    requires Runs(EMPTY, steps) && e in Final(EMPTY, steps).events
    ensures var s := Final(EMPTY, steps); var row := s.events[e];
      row.comm in s.comms && row.attempts <= MAX_ATTEMPTS && SendsOf(s.sends, e) <= row.attempts &&
      (row.status == Succeeded <==> s.comms[row.comm].providerId.Some? && s.comms[row.comm].status != Queued)
  {
    RunKeepsInv(EMPTY, steps);
  }

  /**
   * In every interleaving one worker at most holds a row, a waiting row has attempts left, and
   * sends stay within attempts.
   */
  lemma OneHolder(steps: seq<Step>, v: WorkerId, w: WorkerId, e: EventId)
    requires Runs(EMPTY, steps)
    ensures var s := Final(EMPTY, steps);
      (v in s.workers && w in s.workers && e in s.workers[v].todo && e in s.workers[w].todo ==>
        v == w && e in s.events && s.events[e].status == Processing) &&
      (e in s.events && s.events[e].status == Pending ==> s.events[e].attempts < MAX_ATTEMPTS) &&
      (e in s.events ==> SendsOf(s.sends, e) <= s.events[e].attempts <= MAX_ATTEMPTS)
  {
    RunKeepsInv(EMPTY, steps);
  }

  // ---- the claim budget ---------------------------------------------------

  /** Attempts a row can still be charged. */
  function Weight(e: Event): nat {
    if e.status in {Succeeded, DeadLetter} || e.attempts > MAX_ATTEMPTS then 0 else MAX_ATTEMPTS - e.attempts
  }

  ghost function Budget(events: map<EventId, Event>): nat {
    if events == map[] then 0
    else
      var e :| e in events;
      Weight(events[e]) + Budget(events - {e})
  }

  lemma {:induction false} BudgetSplits(events: map<EventId, Event>, e: EventId)
    requires e in events
    ensures Budget(events) == Weight(events[e]) + Budget(events - {e})
    decreases |events|
  {
    var f :| f in events && Budget(events) == Weight(events[f]) + Budget(events - {f});
    if f != e {
      BudgetSplits(events - {f}, e);
      BudgetSplits(events - {e}, f);
      assert events - {f} - {e} == events - {e} - {f};
    }
  }

  lemma BudgetOfUpdate(events: map<EventId, Event>, e: EventId, row: Event)
    ensures Budget(events[e := row]) + (if e in events then Weight(events[e]) else 0) == Budget(events) + Weight(row)
  {
    BudgetSplits(events[e := row], e);
    if e in events {
      BudgetSplits(events, e);
      assert events[e := row] - {e} == events - {e};
    } else {
      assert events[e := row] - {e} == events;
    }
  }

  lemma {:induction false} BudgetOfClaim(events: map<EventId, Event>, ids: seq<EventId>)
    requires Distinct(ids)
    requires forall e :: e in ids ==> e in events && events[e].status == Pending && events[e].attempts < MAX_ATTEMPTS
    ensures Budget(ClaimAll(events, set e | e in ids)) + |ids| == Budget(events)
    decreases |ids|
  {
    if ids == [] {
      assert ClaimAll(events, set e | e in ids) == events;
    } else {
      TailOf(ids);
      var rest := ClaimAll(events, set e | e in ids[1..]);
      BudgetOfClaim(events, ids[1..]);
      BudgetOfUpdate(rest, ids[0], Claimed(events[ids[0]]));
      assert ClaimAll(events, set e | e in ids) == rest[ids[0] := Claimed(events[ids[0]])];
    }
  }

  function ClaimsOf(step: Step): nat { if step.Claim? then |step.ids| else 0 }

  function QueuedBy(step: Step): nat { if step.Queue? then 1 else 0 }

  lemma StepSpendsBudget(s: State, step: Step)
    requires Exclusive(s.events, s.workers) && Bounded(s.events, s.sends) && Enabled(s, step)
    ensures ClaimsOf(step) + Budget(Next(s, step).events) <= Budget(s.events) + MAX_ATTEMPTS * QueuedBy(step)
  {
    match step
    case Queue(key, comm, event, now) => BudgetOfUpdate(s.events, event, Event(key, comm, Pending, 0, now));
    case Claim(_, ids, _) => BudgetOfClaim(s.events, ids);
    case Commit(w) =>
      HeldIsProcessing(s, w);
      BudgetOfUpdate(s.events, Head(s, w), Delivered(s.events[Head(s, w)]));
    case Fail(w, now) =>
      HeldIsProcessing(s, w);
      BudgetOfUpdate(s.events, Head(s, w), FailedOnce(s.events[Head(s, w)], now));
    case _ =>
  }

  function Claims(steps: seq<Step>): nat {
    if steps == [] then 0 else ClaimsOf(steps[0]) + Claims(steps[1..])
  }

  function Queues(steps: seq<Step>): nat {
    if steps == [] then 0 else QueuedBy(steps[0]) + Queues(steps[1..])
  }

  /**
   * All the claims that can still happen, by any number of workers in any interleaving, are
   * paid for by the attempts left on unfinished rows and five for each message queued later.
   */
  lemma {:induction false} ClaimsAreBudgeted(s: State, steps: seq<Step>)
    requires Inv(s) && Runs(s, steps)
    ensures Claims(steps) + Budget(Final(s, steps).events) <= Budget(s.events) + MAX_ATTEMPTS * Queues(steps)
    decreases |steps|
  {
    if steps != [] {
      StepSpendsBudget(s, steps[0]);
      StepKeepsInv(s, steps[0]);
      ClaimsAreBudgeted(Next(s, steps[0]), steps[1..]);
    }
  }
}
