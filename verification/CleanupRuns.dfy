/** The cleanup worker's loops are runs of the interleaving protocol: what the protocol keeps, the worker keeps. */
module CleanupRuns {
  import opened Prelude
  import opened DocumentLifecycle
  import opened DocumentServices

  /** The scans a batch makes are scans of the protocol. */
  lemma ScansAreSteps(s: State, w: WorkerId, alreadyClaimed: seq<Row>, expired: seq<Row>, now: int)
    requires IsScan(s.docs, Waiting(s.docs), alreadyClaimed) &&
      IsScan(s.docs, Expired(s.docs, s.evidence, now), expired) && now <= s.clock
    ensures var scans := [ScanPending(w, alreadyClaimed), ScanExpired(w, expired, now)];
      Runs(s, scans) && Final(s, scans) == s.(workers := s.workers[w := Worker(alreadyClaimed, expired, None, None)])
  {
    var first := ScanPending(w, alreadyClaimed);
    var scanned := Next(s, first);
    OneStep(s, first);
    OneStep(scanned, ScanExpired(w, expired, now));
    RunsAppend(s, [first], [ScanExpired(w, expired, now)]);
    assert [first] + [ScanExpired(w, expired, now)] == [first, ScanExpired(w, expired, now)];
    assert s.workers[w := Worker(alreadyClaimed, [], None, None)][w := Worker(alreadyClaimed, expired, None, None)]
        == s.workers[w := Worker(alreadyClaimed, expired, None, None)];
  }

  function With(s: State, b: Batch, w: WorkerId, me: Worker): State {
    s.(docs := b.docs, bytes := b.bytes, workers := s.workers[w := me])
  }

  /** Removing the object a worker has in hand. */
  lemma RemovalRun(s: State, w: WorkerId, removable: set<Path>) returns (steps: seq<Step>)
    requires w in s.workers && s.workers[w].doomed.Some? && s.workers[w].gone.None?
    ensures Runs(s, steps)
    ensures Final(s, steps) ==
      With(s, AfterRemoval(Batch(s.docs, s.bytes, 0, 0), s.workers[w].doomed.value, removable), w,
        s.workers[w].(doomed := None))
  {
    var me := s.workers[w];
    var row := me.doomed.value;
    var remove := Remove(w, row.path in removable);
    var removed := Next(s, remove);
    OneStep(s, remove);
    steps := [remove];
    if row.path in removable {
      OneStep(removed, Mark(w));
      RunsAppend(s, [remove], [Mark(w)]);
      steps := [remove] + [Mark(w)];
      assert removed.workers[w := removed.workers[w].(gone := None)] == s.workers[w := me.(doomed := None)];
    } else {
      assert removed.workers == s.workers[w := me.(doomed := None)];
      assert removed.bytes == s.bytes && removed.docs == s.docs;
    }
  }

  /** Counters do not influence the tables. */
  lemma RemovalIgnoresCounters(a: Batch, b: Batch, row: Row, removable: set<Path>)
    requires a.docs == b.docs && a.bytes == b.bytes
    ensures AfterRemoval(a, row, removable).docs == AfterRemoval(b, row, removable).docs
    ensures AfterRemoval(a, row, removable).bytes == AfterRemoval(b, row, removable).bytes
  {
  }

  lemma SweepOne(s: State, w: WorkerId, removable: set<Path>) returns (steps: seq<Step>)
    requires w in s.workers && Idle(s.workers[w]) && s.workers[w].sweep != []
    ensures Runs(s, steps)
    ensures Final(s, steps) ==
      With(s, AfterRemoval(Batch(s.docs, s.bytes, 0, 0), s.workers[w].sweep[0], removable), w,
           s.workers[w].(sweep := s.workers[w].sweep[1..]))
  {
    var me := s.workers[w];
    var picked := Next(s, Pick(w));
    OneStep(s, Pick(w));
    var rest := RemovalRun(picked, w, removable);
    RunsAppend(s, [Pick(w)], rest);
    steps := [Pick(w)] + rest;
    assert picked.workers[w := picked.workers[w].(doomed := None)] == s.workers[w := me.(sweep := me.sweep[1..])];
  }

  /** The first `k` rounds of the first loop. */
  lemma {:induction false} SweepRun(s: State, w: WorkerId, removable: set<Path>, k: nat) returns (steps: seq<Step>)
    requires w in s.workers && Idle(s.workers[w]) && k <= |s.workers[w].sweep|
    ensures Runs(s, steps)
    ensures Final(s, steps) ==
      With(s, Sweep(Batch(s.docs, s.bytes, 0, 0), s.workers[w].sweep[..k], removable), w,
        s.workers[w].(sweep := s.workers[w].sweep[k..]))
    decreases k
  {
    var me := s.workers[w];
    if k == 0 {
      steps := [];
      assert me.sweep[..0] == [] && me.sweep[0..] == me.sweep;
      assert s.workers[w := me] == s.workers;
    } else {
      var before := SweepRun(s, w, removable, k - 1);
      var b := Sweep(Batch(s.docs, s.bytes, 0, 0), me.sweep[..k - 1], removable);
      var t := Final(s, before);
      assert me.sweep[..k][..k - 1] == me.sweep[..k - 1];
      assert t.workers[w].sweep == me.sweep[k - 1..] && me.sweep[k - 1..][1..] == me.sweep[k..];
      var rest := SweepOne(t, w, removable);
      RunsAppend(s, before, rest);
      RemovalIgnoresCounters(Batch(t.docs, t.bytes, 0, 0), b, me.sweep[k - 1], removable);
      steps := before + rest;
      hide Runs, Final, Enabled, Next, AfterRemoval;
      assert t.workers[w := t.workers[w].(sweep := me.sweep[k..])] == s.workers[w := me.(sweep := me.sweep[k..])];
    }
  }

  /** The first `k` rounds of the second loop, lost claims included. */
  lemma {:induction false} ReapRun(s: State, w: WorkerId, now: int, removable: set<Path>, k: nat)
    returns (steps: seq<Step>)
    requires w in s.workers && Idle(s.workers[w]) && k <= |s.workers[w].expired| && now <= s.clock
    ensures Runs(s, steps)
    ensures Final(s, steps) ==
      With(s, Reap(Batch(s.docs, s.bytes, 0, 0), s.evidence, s.workers[w].expired[..k], now, removable), w,
           s.workers[w].(expired := s.workers[w].expired[k..]))
    decreases k
  {
    var me := s.workers[w];
    if k == 0 {
      steps := [];
      assert me.expired[..0] == [] && me.expired[0..] == me.expired;
      assert s.workers[w := me] == s.workers;
    } else {
      var before := ReapRun(s, w, now, removable, k - 1);
      var t := Final(s, before);
      var b := Reap(Batch(s.docs, s.bytes, 0, 0), s.evidence, me.expired[..k - 1], now, removable);
      assert me.expired[..k][..k - 1] == me.expired[..k - 1];
      assert t.workers[w].expired == me.expired[k - 1..] && me.expired[k - 1..][1..] == me.expired[k..];
      var rest := ReapOne(t, w, now, removable);
      RunsAppend(s, before, rest);
      ReapIgnoresCounters(Batch(t.docs, t.bytes, 0, 0), b, s.evidence, me.expired[k - 1], now, removable);
      steps := before + rest;
      hide Runs, Final, Enabled, Next, AfterReap;
      assert t.workers[w := t.workers[w].(expired := me.expired[k..])] ==
        s.workers[w := me.(expired := me.expired[k..])];
    }
  }

  lemma ReapIgnoresCounters(
      a: Batch, b: Batch, evidence: map<DocId, Option<int>>, row: Row, now: int, removable: set<Path>)
    requires a.docs == b.docs && a.bytes == b.bytes
    ensures AfterReap(a, evidence, row, now, removable).docs == AfterReap(b, evidence, row, now, removable).docs
    ensures AfterReap(a, evidence, row, now, removable).bytes == AfterReap(b, evidence, row, now, removable).bytes
  {
  }

  lemma ReapOne(s: State, w: WorkerId, now: int, removable: set<Path>) returns (steps: seq<Step>)
    requires w in s.workers && Idle(s.workers[w]) && s.workers[w].expired != [] && now <= s.clock
    ensures Runs(s, steps)
    ensures Final(s, steps) ==
      With(s, AfterReap(Batch(s.docs, s.bytes, 0, 0), s.evidence, s.workers[w].expired[0], now, removable), w,
           s.workers[w].(expired := s.workers[w].expired[1..]))
  {
    var me := s.workers[w];
    var claim := Claim(w, now);
    var claimed := Next(s, claim);
    OneStep(s, claim);
    steps := [claim];
    if Claimable(s, me.expired[0].id, now) {
      var rest := RemovalRun(claimed, w, removable);
      RunsAppend(s, [claim], rest);
      steps := [claim] + rest;
      assert claimed.workers[w := claimed.workers[w].(doomed := None)] ==
        s.workers[w := me.(expired := me.expired[1..])];
    }
  }

  /**
   * From any state in which a worker has made its scans, and so whatever others did since, both
   * loops of the batch are a run of the protocol with the very effect the worker's method has.
   */
  lemma BatchIsARun(s: State, w: WorkerId, now: int, removable: set<Path>) returns (steps: seq<Step>)
    requires w in s.workers && Idle(s.workers[w]) && now <= s.clock
    ensures Runs(s, steps)
    ensures var b := Reap(Sweep(Batch(s.docs, s.bytes, 0, 0), s.workers[w].sweep, removable), s.evidence,
      s.workers[w].expired, now, removable);
      Final(s, steps) == With(s, b, w, Worker([], [], None, None))
  {
    hide Runs, Final, Reap, Sweep;
    var me := s.workers[w];
    assert me.sweep[..|me.sweep|] == me.sweep && me.expired[..|me.expired|] == me.expired;
    assert me.sweep[|me.sweep|..] == [] && me.expired[|me.expired|..] == [];
    var sweeps := SweepRun(s, w, removable, |me.sweep|);
    var t := Final(s, sweeps);
    assert t.workers[w] == Worker([], me.expired, None, None);
    var reaps := ReapRun(t, w, now, removable, |me.expired|);
    RunsAppend(s, sweeps, reaps);
    steps := sweeps + reaps;
    var b := Sweep(Batch(s.docs, s.bytes, 0, 0), me.sweep, removable);
    FoldIgnoresCounters(Batch(t.docs, t.bytes, 0, 0), b, s.evidence, me.expired, now, removable);
    assert t.workers[w := Worker([], [], None, None)] == s.workers[w := Worker([], [], None, None)];
  }

  lemma {:induction false} FoldIgnoresCounters(
      a: Batch, b: Batch, evidence: map<DocId, Option<int>>, rows: seq<Row>, now: int,
      removable: set<Path>)
    requires a.docs == b.docs && a.bytes == b.bytes
    ensures Reap(a, evidence, rows, now, removable).docs == Reap(b, evidence, rows, now, removable).docs
    ensures Reap(a, evidence, rows, now, removable).bytes == Reap(b, evidence, rows, now, removable).bytes
  {
    if rows != [] {
      FoldIgnoresCounters(a, b, evidence, rows[..|rows| - 1], now, removable);
      hide AfterReap;
      ReapIgnoresCounters(
        Reap(a, evidence, rows[..|rows| - 1], now, removable), Reap(b, evidence, rows[..|rows| - 1], now, removable),
        evidence, rows[|rows| - 1], now, removable);
    }
  }
}
