/**
 * The bulk read of the work queue: ordered scans over whole tables, overwriting one map entry
 * a task. It must report what the loader of a single task reports.
 */
module DisposalQueue {
  import opened Prelude
  import opened DisposalPolicy
  import opened Coverage
  import opened DisposalTables
  import opened DisposalInvariants

  datatype Scans = Scans(batches: seq<BatchId>, holds: seq<HoldId>, authorizations: seq<AuthorizationId>)

  datatype QueueRow = QueueRow(
    task: TaskId, eligibility: Eligibility, versionNumber: Option<nat>, evidence: Option<BatchStatus>,
    authorization: Option<AuthorizationStatus>, holdReason: Option<HoldReason>, blockingReasons: seq<Reason>,
    productCount: nat, exception: Option<nat>, note: Option<string>)

  /** All batches of the listed tasks, by ascending number. */
  ghost predicate BatchScan(batches: map<BatchId, Batch>, listed: set<TaskId>, rows: seq<BatchId>) {
    (forall b :: b in rows <==> b in batches && batches[b].task in listed) &&
    forall i, j :: 0 <= i < j < |rows| ==> batches[rows[i]].number <= batches[rows[j]].number
  }

  /** All unreleased holds of the listed tasks, in any order. */
  ghost predicate HoldScan(holds: map<HoldId, Hold>, listed: set<TaskId>, rows: seq<HoldId>) {
    forall h :: h in rows <==> h in holds && holds[h].task in listed && !holds[h].released
  }

  /** All authorizations of the listed tasks, by ascending issue time. */
  ghost predicate AuthorizationScan(
      authorizations: map<AuthorizationId, Authorization>, listed: set<TaskId>, rows: seq<AuthorizationId>)
  {
    (forall a :: a in rows <==> a in authorizations && authorizations[a].task in listed) &&
    forall i, j :: 0 <= i < j < |rows| ==> authorizations[rows[i]].issuedAt <= authorizations[rows[j]].issuedAt
  }

  /** What an entry written by a scan in order ends up with: a row none of the rows of its task exceeds. */
  method LastBatches(batches: map<BatchId, Batch>, listed: set<TaskId>, rows: seq<BatchId>)
    returns (latest: map<TaskId, BatchId>)
    requires BatchScan(batches, listed, rows)
    ensures forall t :: t in listed ==> LatestBatchRow(batches, t, if t in latest then Some(latest[t]) else None)
  {
    latest := map[];
    for i := 0 to |rows|
      invariant forall t ::
        t in latest ==> latest[t] in batches && batches[latest[t]].task == t && latest[t] in rows[..i]
      invariant forall j ::
        0 <= j < i ==>
          batches[rows[j]].task in latest && batches[rows[j]].number <= batches[latest[batches[rows[j]].task]].number
    {
      latest := latest[batches[rows[i]].task := rows[i]];
    }
    forall t | t in listed ensures LatestBatchRow(batches, t, if t in latest then Some(latest[t]) else None) {
      forall b | b in batches && batches[b].task == t
        ensures t in latest && batches[b].number <= batches[latest[t]].number
      {
        var j :| 0 <= j < |rows| && rows[j] == b;
      }
    }
  }

  method LastAuthorizations(
      authorizations: map<AuthorizationId, Authorization>, listed: set<TaskId>, rows: seq<AuthorizationId>)
    returns (latest: map<TaskId, AuthorizationId>)
    requires AuthorizationScan(authorizations, listed, rows)
    ensures forall t ::
      t in listed ==> LatestAuthorizationRow(authorizations, t, if t in latest then Some(latest[t]) else None)
  {
    latest := map[];
    for i := 0 to |rows|
      invariant forall t ::
        t in latest ==> latest[t] in authorizations && authorizations[latest[t]].task == t && latest[t] in rows[..i]
      invariant forall j :: 0 <= j < i ==>
        authorizations[rows[j]].task in latest &&
        authorizations[rows[j]].issuedAt <= authorizations[latest[authorizations[rows[j]].task]].issuedAt
    {
      latest := latest[authorizations[rows[i]].task := rows[i]];
    }
    forall t | t in listed
      ensures LatestAuthorizationRow(authorizations, t, if t in latest then Some(latest[t]) else None)
    {
      forall a | a in authorizations && authorizations[a].task == t
        ensures t in latest && authorizations[a].issuedAt <= authorizations[latest[t]].issuedAt
      {
        var j :| 0 <= j < |rows| && rows[j] == a;
      }
    }
  }

  method LiveHolds(holds: map<HoldId, Hold>, listed: set<TaskId>, rows: seq<HoldId>) returns (live: map<TaskId, HoldId>)
    requires HoldScan(holds, listed, rows)
    ensures forall t :: t in live ==> live[t] in holds && holds[live[t]].task == t && !holds[live[t]].released
    ensures forall t :: t in listed ==> (t in live <==> HoldActive(holds, t))
  {
    live := map[];
    for i := 0 to |rows|
      invariant forall t :: t in live ==> live[t] in holds && holds[live[t]].task == t && !holds[live[t]].released
      invariant forall j :: 0 <= j < i ==> holds[rows[j]].task in live
    {
      live := live[holds[rows[i]].task := rows[i]];
    }
    forall t | t in listed ensures t in live <==> HoldActive(holds, t) {
      if HoldActive(holds, t) {
        var h :| h in holds && holds[h].task == t && !holds[h].released;
        var j :| 0 <= j < |rows| && rows[j] == h;
      }
    }
  }

  /** Whichever rows the loader's queries return, it reports the same reasons and evidence status. */
  ghost predicate SameStanding(db: Db, now: int, row: QueueRow)
    requires row.task in db.tasks
  {
    forall view :: Reads(db, row.task, now, view) ==>
      row.blockingReasons == Reasons(StateOf(db, row.task, view), now) &&
      row.evidence == StateOf(db, row.task, view).batch
  }

  /** The reason shown is the reason of the task's one live hold. */
  ghost predicate SameHold(holds: map<HoldId, Hold>, row: QueueRow) {
    (row.holdReason.Some? <==> HoldActive(holds, row.task)) &&
    forall h ::
      h in holds && holds[h].task == row.task && !holds[h].released ==> row.holdReason == Some(holds[h].reason)
  }

  ghost predicate SameAuthorization(authorizations: map<AuthorizationId, Authorization>, row: QueueRow) {
    exists seen ::
      LatestAuthorizationRow(authorizations, row.task, seen) && row.authorization == StatusOf(authorizations, seen)
  }

  /** The columns that are joined rather than derived. */
  predicate SameColumns(db: Db, row: QueueRow)
    requires row.task in db.tasks
  {
    var task := db.tasks[row.task];
    row.eligibility == task.eligibility && row.productCount == |ProductRows(db.products, row.task)| &&
    row.versionNumber == (if task.version in db.versions then Some(db.versions[task.version].number) else None) &&
    row.exception == (if row.task in db.declarations then db.declarations[row.task].exception else None) &&
    row.note == (if row.task in db.declarations then db.declarations[row.task].note else None)
  }

  /** A queue row says what the loader of that one task says. */
  ghost predicate AgreesWithLoader(db: Db, now: int, row: QueueRow) {
    row.task in db.tasks && SameStanding(db, now, row) && SameHold(db.holds, row) &&
    SameAuthorization(db.authorizations, row) &&
    SameColumns(db, row)
  }

  function ProductRows(products: map<(TaskId, ProductId), Product>, t: TaskId): set<(TaskId, ProductId)> {
    set k | k in products && k.0 == t
  }

  function StatusOf(
      authorizations: map<AuthorizationId, Authorization>, seen: Option<AuthorizationId>): Option<AuthorizationStatus>
  {
    if seen.Some? && seen.value in authorizations then Some(authorizations[seen.value].status) else None
  }

  /** One latest batch: whatever the query returns for a task, it is the same row. */
  lemma LatestBatchIsUnique(batches: map<BatchId, Batch>, t: TaskId, one: Option<BatchId>, other: Option<BatchId>)
    requires NumbersDense(batches) && LatestBatchRow(batches, t, one) && LatestBatchRow(batches, t, other)
    ensures one == other
  {
  }

  /** The queue's state carries no window, only whether an approval is in force: at one instant that is the same. */
  lemma SameReasons(bulk: PolicyState, single: PolicyState, now: int)
    requires bulk == single.(window := Window(None, None), authorization := bulk.authorization)
    requires single.authorizes ==> ApprovalWindowIncludes(single.window, now)
    ensures Reasons(bulk, now) == Reasons(single, now)
  {
    var one, other := r => Unmet(bulk, now, r), r => Unmet(single, now, r);
    forall r ensures one(r) == other(r) {
      match r case _ => assert Unmet(bulk, now, r) == Unmet(single, now, r);
    }
    SamePick(REFUSAL_ORDER, one, other);
  }

  lemma {:induction false} SamePick(order: seq<Reason>, one: Reason -> bool, other: Reason -> bool)
    requires forall r :: one(r) == other(r)
    ensures Pick(order, one) == Pick(order, other)
  {
    if order != [] {
      SamePick(order[..|order| - 1], one, other);
    }
  }

  lemma LoadedWindow(db: Db, t: TaskId, now: int, view: View)
    requires Reads(db, t, now, view)
    ensures var single := StateOf(db, t, view);
      (single.authorizes <==> exists a :: a in db.approvals && InForce(db.approvals[a], db.tasks[t].version, now)) &&
      (single.authorizes ==> ApprovalWindowIncludes(single.window, now))
  {
  }

  /** The policy state the queue puts together for one task. */
  ghost predicate BulkState(db: Db, t: TaskId, now: int, batch: Option<BatchId>, state: PolicyState)
    requires t in db.tasks && (batch.Some? ==> batch.value in db.batches)
  {
    (state.authorizes <==> exists a :: a in db.approvals && InForce(db.approvals[a], db.tasks[t].version, now)) &&
    (state.hold <==> HoldActive(db.holds, t)) &&
    state == PolicyState(
      db.tasks[t].status, db.tasks[t].eligibility,
      if db.tasks[t].version in db.versions then Some(db.versions[db.tasks[t].version].status) else None,
      state.authorizes, Window(None, None),
      if batch.Some? then Some(db.batches[batch.value].status) else None, state.hold, state.authorization)
  }

  lemma BulkMatchesSingle(db: Db, t: TaskId, now: int, batch: Option<BatchId>, view: View, state: PolicyState)
    requires t in db.tasks && NumbersDense(db.batches) && LatestBatchRow(db.batches, t, batch) &&
      Reads(db, t, now, view)
    requires BulkState(db, t, now, batch, state)
    ensures Reasons(state, now) == Reasons(StateOf(db, t, view), now) && state.batch == StateOf(db, t, view).batch
  {
    LatestBatchIsUnique(db.batches, t, batch, view.batch);
    LoadedWindow(db, t, now, view);
    hide NumbersDense, HoldActive, Reasons;
    SameReasons(state, StateOf(db, t, view), now);
  }

  lemma StandingAgrees(db: Db, now: int, batch: Option<BatchId>, state: PolicyState, row: QueueRow)
    requires row.task in db.tasks && NumbersDense(db.batches) && LatestBatchRow(db.batches, row.task, batch)
    requires BulkState(db, row.task, now, batch, state)
    requires row.evidence == state.batch && row.blockingReasons == Reasons(state, now)
    ensures SameStanding(db, now, row)
  {
    hide Reasons, NumbersDense, BulkState;
    forall view | Reads(db, row.task, now, view)
      ensures row.blockingReasons == Reasons(StateOf(db, row.task, view), now) &&
        row.evidence == StateOf(db, row.task, view).batch
    {
      BulkMatchesSingle(db, row.task, now, batch, view, state);
    }
  }

  /** The whole queue: one row a listed task, in order, each agreeing with the single-task loader. */
  method ListQueue(db: Db, tasks: seq<TaskId>, scans: Scans, now: int) returns (rows: seq<QueueRow>)
    requires Inv(db) && forall t :: t in tasks ==> t in db.tasks
    requires BatchScan(db.batches, (set t | t in tasks), scans.batches)
    requires HoldScan(db.holds, (set t | t in tasks), scans.holds)
    requires AuthorizationScan(db.authorizations, (set t | t in tasks), scans.authorizations)
    ensures |rows| == |tasks|
    ensures forall i :: 0 <= i < |tasks| ==> rows[i].task == tasks[i] && AgreesWithLoader(db, now, rows[i])
  {
    var listed := set t | t in tasks;
    var latestBatch := LastBatches(db.batches, listed, scans.batches);
    var liveHold := LiveHolds(db.holds, listed, scans.holds);
    var latestAuthorization := LastAuthorizations(db.authorizations, listed, scans.authorizations);
    assert NumbersDense(db.batches) && OneHold(db.holds);
    hide Inv, NumbersDense, OneHold, AgreesWithLoader, LatestBatchRow, LatestAuthorizationRow, HoldActive;
    rows := [];
    for i := 0 to |tasks|
      invariant |rows| == i
      invariant forall j :: 0 <= j < i ==> rows[j].task == tasks[j] && AgreesWithLoader(db, now, rows[j])
    {
      var t := tasks[i];
      var row := OneRow(
        db, t, now,
        if t in latestBatch then Some(latestBatch[t]) else None,
        if t in liveHold then Some(liveHold[t]) else None,
        if t in latestAuthorization then Some(latestAuthorization[t]) else None);
      rows := rows + [row];
    }
  }

  method AssembleState(
      db: Db, t: TaskId, now: int, batch: Option<BatchId>, hold: bool,
      authorization: Option<AuthorizationId>)
    returns (state: PolicyState)
    requires t in db.tasks && (batch.Some? ==> batch.value in db.batches) && (hold <==> HoldActive(db.holds, t))
    requires authorization.Some? ==> authorization.value in db.authorizations
    ensures BulkState(db, t, now, batch, state) && state.authorization == StatusOf(db.authorizations, authorization)
  {
    var task := db.tasks[t];
    var authorizing := exists a :: a in db.approvals && InForce(db.approvals[a], task.version, now);
    state := PolicyState(
      task.status, task.eligibility,
      if task.version in db.versions then Some(db.versions[task.version].status) else None,
      authorizing, Window(None, None),
      if batch.Some? then Some(db.batches[batch.value].status) else None,
      hold,
      if authorization.Some? then Some(db.authorizations[authorization.value].status) else None);
  }

  method OneRow(
      db: Db, t: TaskId, now: int, batch: Option<BatchId>, hold: Option<HoldId>,
      authorization: Option<AuthorizationId>)
    returns (row: QueueRow)
    requires NumbersDense(db.batches) && OneHold(db.holds) && t in db.tasks
    requires LatestBatchRow(db.batches, t, batch) && LatestAuthorizationRow(db.authorizations, t, authorization)
    requires hold.Some? <==> HoldActive(db.holds, t)
    requires hold.Some? ==> hold.value in db.holds && db.holds[hold.value].task == t && !db.holds[hold.value].released
    ensures row.task == t && AgreesWithLoader(db, now, row)
  {
    var state := AssembleState(db, t, now, batch, hold.Some?, authorization);
    var snapshot := EvaluateDisposal(state, now);
    var task := db.tasks[t];
    row := QueueRow(
      t, task.eligibility, if task.version in db.versions then Some(db.versions[task.version].number) else None,
      state.batch, state.authorization,
      if hold.Some? then Some(db.holds[hold.value].reason) else None, snapshot.blockingReasons,
      |ProductRows(db.products, t)|,
      if t in db.declarations then db.declarations[t].exception else None,
      if t in db.declarations then db.declarations[t].note else None);
    assert SameHold(db.holds, row);
    assert SameAuthorization(db.authorizations, row);
    assert SameColumns(db, row);
    hide Reasons, NumbersDense, OneHold, BulkState;
    StandingAgrees(db, now, batch, state, row);
  }
}
