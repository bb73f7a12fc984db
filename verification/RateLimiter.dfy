/** The fixed-window in-memory rate limiter, and what any request trace can get through it. */
module RateLimiter {
  import opened Prelude

  datatype Window = Window(count: int, resetAt: int)

  datatype Decision = Decision(allowed: bool, limit: int, remaining: int, retryAfterSeconds: Option<int>)

  const OTHER_QUOTA := 60

  function Max(a: int, b: int): int { if a < b then b else a }

  /** The part of a key in front of its first colon. */
  function Category(key: string): string {
    if key == "" || key[0] == ':' then "" else [key[0]] + Category(key[1..])
  }

  function LimitFor(quotas: map<string, int>, key: string): int {
    if Category(key) in quotas then quotas[Category(key)] else OTHER_QUOTA
  }

  predicate NoColon(s: string) {
    forall i :: 0 <= i < |s| ==> s[i] != ':'
  }

  /** The quota of a key is its category's, everything in front of its first colon; other keys get sixty. */
  lemma {:induction false} QuotaOfKey(quotas: map<string, int>, category: string, rest: string)
    requires NoColon(category)
    ensures Category(category) == category && Category(category + ":" + rest) == category
    ensures LimitFor(quotas, category + ":" + rest) == if category in quotas then quotas[category] else 60
    decreases |category|
  {
    var key := category + ":" + rest;
    if category != "" {
      QuotaOfKey(quotas, category[1..], rest);
      assert key[1..] == category[1..] + ":" + rest;
    }
  }

  /** Whether a request at `now` opens a new window instead of joining the stored one. */
  predicate Opens(w: Option<Window>, now: int) {
    w.None? || w.value.resetAt <= now
  }

  /** The stored window after one more request at `now`. */
  function NextWindow(w: Option<Window>, windowMs: int, now: int): Window {
    if Opens(w, now) then Window(1, now + windowMs) else Window(w.value.count + 1, w.value.resetAt)
  }

  predicate Admits(w: Option<Window>, limit: int, now: int) {
    Opens(w, now) || w.value.count + 1 <= limit
  }

  function Lookup(windows: map<string, Window>, key: string): Option<Window> {
    if key in windows then Some(windows[key]) else None
  }

  class InMemoryRateLimiter {
    var windows: map<string, Window>
    const quotas: map<string, int>
    const windowMs: int

    constructor (quotas: map<string, int>, windowMs: int)
      ensures windows == map[] && this.quotas == quotas && this.windowMs == windowMs
    {
      windows := map[];
      this.quotas := quotas;
      this.windowMs := windowMs;
    }

    method Check(key: string, now: int) returns (d: Decision)
      modifies this`windows
      ensures windows == old(windows)[key := NextWindow(Lookup(old(windows), key), windowMs, now)]
      ensures d.limit == LimitFor(quotas, key)
      ensures d.allowed <==> Admits(Lookup(old(windows), key), d.limit, now)
      ensures d.remaining ==
        if !d.allowed then 0
        else if Opens(Lookup(old(windows), key), now) then d.limit - 1
        else Max(d.limit - windows[key].count, 0)
      ensures d.allowed <==> d.retryAfterSeconds.None?
      ensures d.retryAfterSeconds.Some? ==>
        1000 * (d.retryAfterSeconds.value - 1) < windows[key].resetAt - now <= 1000 * d.retryAfterSeconds.value
    {
      var limit := LimitFor(quotas, key);
      var state := Lookup(windows, key);
      if state.None? || state.value.resetAt <= now {
        windows := windows[key := Window(1, now + windowMs)];
        return Decision(true, limit, limit - 1, None);
      }
      var count := state.value.count + 1;
      windows := windows[key := Window(count, state.value.resetAt)];
      if count > limit {
        return Decision(false, limit, 0, Some((state.value.resetAt - now + 999) / 1000));
      }
      return Decision(true, limit, if limit - count < 0 then 0 else limit - count, None);
    }
  }

  // ---- one key's trace ----------------------------------------------------

  /** The window one key holds after its requests at the given times. */
  function After(times: seq<int>, windowMs: int): Option<Window> {
    if times == [] then None
    else Some(NextWindow(After(times[..|times| - 1], windowMs), windowMs, times[|times| - 1]))
  }

  predicate Nondecreasing(times: seq<int>) {
    forall i, j :: 0 <= i < j < |times| ==> times[i] <= times[j]
  }

  function WindowOf(times: seq<int>, windowMs: int, i: nat): Window
    requires i < |times|
  {
    After(times[..i + 1], windowMs).value
  }

  /** When the window that request `i` was counted in began. */
  function StartOf(times: seq<int>, windowMs: int, i: nat): int
    requires i < |times|
  {
    WindowOf(times, windowMs, i).resetAt - windowMs
  }

  predicate Allowed(times: seq<int>, limit: int, windowMs: int, i: nat)
    requires i < |times|
  {
    Admits(After(times[..i], windowMs), limit, times[i])
  }

  function CountAllowed(times: seq<int>, limit: int, windowMs: int, lo: nat, hi: nat): nat
    requires lo <= hi <= |times|
    decreases hi
  {
    if lo == hi then 0
    else CountAllowed(times, limit, windowMs, lo, hi - 1) + (if Allowed(times, limit, windowMs, hi - 1) then 1 else 0)
  }

  lemma WindowUnfolds(times: seq<int>, windowMs: int, i: nat)
    requires i < |times|
    ensures WindowOf(times, windowMs, i) == NextWindow(After(times[..i], windowMs), windowMs, times[i])
    ensures i > 0 ==> After(times[..i], windowMs) == Some(WindowOf(times, windowMs, i - 1))
    ensures WindowOf(times, windowMs, i).count >= 1
    decreases i
  {
    assert times[..i + 1][..i] == times[..i];
    if i > 0 {
      WindowUnfolds(times, windowMs, i - 1);
    }
  }

  lemma {:induction false} InsideItsWindow(times: seq<int>, windowMs: int, i: nat)
    requires i < |times| && Nondecreasing(times) && windowMs > 0
    ensures StartOf(times, windowMs, i) <= times[i] < StartOf(times, windowMs, i) + windowMs
    decreases i
  {
    WindowUnfolds(times, windowMs, i);
    if i > 0 {
      InsideItsWindow(times, windowMs, i - 1);
    }
  }

  /** Windows of one key never overlap: two different ones start at least `windowMs` apart. */
  lemma {:induction false} WindowsStartApart(times: seq<int>, windowMs: int, i: nat, j: nat)
    requires i <= j < |times|
    ensures StartOf(times, windowMs, i) == StartOf(times, windowMs, j)
         || StartOf(times, windowMs, i) + windowMs <= StartOf(times, windowMs, j)
    requires Nondecreasing(times) && windowMs > 0
    decreases j - i
  {
    if i < j {
      WindowsStartApart(times, windowMs, i, j - 1);
      WindowUnfolds(times, windowMs, j);
      InsideItsWindow(times, windowMs, j - 1);
    }
  }

  /** Requests `lo..hi` of one window let through at most the part of the quota that was left at `lo`. */
  lemma {:induction false} OneWindow(times: seq<int>, limit: int, windowMs: int, lo: nat, hi: nat)
    requires lo < hi <= |times| && Nondecreasing(times) && windowMs > 0
    requires StartOf(times, windowMs, lo) == StartOf(times, windowMs, hi - 1)
    ensures CountAllowed(times, limit, windowMs, lo, hi) <=
      Max(0, Max(1, limit) - (WindowOf(times, windowMs, lo).count - 1))
    ensures CountAllowed(times, limit, windowMs, lo, hi) <= hi - lo
    ensures WindowOf(times, windowMs, hi - 1).count == WindowOf(times, windowMs, lo).count + (hi - 1 - lo)
    decreases hi
  {
    WindowUnfolds(times, windowMs, hi - 1);
    if hi - 1 > lo {
      WindowsStartApart(times, windowMs, lo, hi - 2);
      WindowsStartApart(times, windowMs, hi - 2, hi - 1);
      OneWindow(times, limit, windowMs, lo, hi - 1);
      InsideItsWindow(times, windowMs, hi - 2);
    } else {
      assert CountAllowed(times, limit, windowMs, lo, lo) == 0;
    }
  }

  /** All the requests counted in one window: at most `limit` get through (one, if the limit is below one). */
  lemma QuotaPerWindow(times: seq<int>, limit: int, windowMs: int, lo: nat, hi: nat)
    requires lo < hi <= |times| && Nondecreasing(times) && windowMs > 0
    requires StartOf(times, windowMs, lo) == StartOf(times, windowMs, hi - 1)
    ensures CountAllowed(times, limit, windowMs, lo, hi) <= Max(1, limit)
  {
    OneWindow(times, limit, windowMs, lo, hi);
    WindowUnfolds(times, windowMs, lo);
  }

  /** The request that opens a window is let through whatever the limit is. */
  lemma OpenerIsAllowed(times: seq<int>, limit: int, windowMs: int, i: nat)
    requires i < |times| && WindowOf(times, windowMs, i).count == 1
    ensures CountAllowed(times, limit, windowMs, i, i + 1) == 1
  {
    WindowUnfolds(times, windowMs, i);
    if i > 0 {
      WindowUnfolds(times, windowMs, i - 1);
    }
  }

  /** No window of any trace lets more than `limit` requests through. */
  ghost predicate QuotaHolds(limit: int, windowMs: int) {
    forall times: seq<int>, lo: nat, hi: nat ::
      lo < hi <= |times| && Nondecreasing(times) && StartOf(times, windowMs, lo) == StartOf(times, windowMs, hi - 1) ==>
      CountAllowed(times, limit, windowMs, lo, hi) <= limit
  }

  /** The quota holds exactly for limits of at least one: a smaller limit is passed by the first request already. */
  lemma QuotaIsExact(limit: int, windowMs: int)
    requires windowMs > 0
    ensures QuotaHolds(limit, windowMs) <==> limit >= 1
  {
    if limit >= 1 {
      forall times: seq<int>, lo: nat, hi: nat |
        lo < hi <= |times| && Nondecreasing(times) && StartOf(times, windowMs, lo) == StartOf(times, windowMs, hi - 1)
        ensures CountAllowed(times, limit, windowMs, lo, hi) <= limit
      {
        QuotaPerWindow(times, limit, windowMs, lo, hi);
      }
    } else {
      var first: seq<int> := [0];
      assert first[..0] == [] && first[..1] == first;
      WindowUnfolds(first, windowMs, 0);
      OpenerIsAllowed(first, limit, windowMs, 0);
      assert StartOf(first, windowMs, 0) == StartOf(first, windowMs, 1 - 1);
    }
  }

  lemma {:induction false} CountSplits(times: seq<int>, limit: int, windowMs: int, lo: nat, mid: nat, hi: nat)
    requires lo <= mid <= hi <= |times|
    ensures CountAllowed(times, limit, windowMs, lo, hi) ==
      CountAllowed(times, limit, windowMs, lo, mid) + CountAllowed(times, limit, windowMs, mid, hi)
    decreases hi
  {
    if mid < hi {
      CountSplits(times, limit, windowMs, lo, mid, hi - 1);
    }
  }

  /** The first request at or after `lo` that is counted in another window than `lo` is. */
  function Boundary(times: seq<int>, windowMs: int, lo: nat, hi: nat): (mid: nat)
    requires lo < hi <= |times|
    ensures lo < mid <= hi
    ensures forall k :: lo <= k < mid ==> StartOf(times, windowMs, k) == StartOf(times, windowMs, lo)
    ensures mid < hi ==> StartOf(times, windowMs, mid) != StartOf(times, windowMs, lo)
    decreases hi
  {
    if hi == lo + 1 then hi
    else
      var mid := Boundary(times, windowMs, lo, hi - 1);
      if mid < hi - 1 || StartOf(times, windowMs, hi - 1) != StartOf(times, windowMs, lo) then mid else hi
  }

  /**
   * Any half-open interval as long as a window meets at most two windows of a key, and the
   * request that opened the earlier one lies outside it: at most `2 * limit - 1` get through.
   */
  lemma AnyInterval(times: seq<int>, limit: int, windowMs: int, t: int, lo: nat, hi: nat)
    requires lo <= hi <= |times| && Nondecreasing(times)
    requires forall k :: lo <= k < hi ==> t <= times[k] < t + windowMs
    ensures CountAllowed(times, limit, windowMs, lo, hi) <= 2 * Max(1, limit) - 1
  {
    if lo < hi {
      assert t <= times[lo] < t + windowMs;
      var mid := Boundary(times, windowMs, lo, hi);
      CountSplits(times, limit, windowMs, lo, mid, hi);
      QuotaPerWindow(times, limit, windowMs, lo, mid);
      if mid < hi {
        TwoWindowsAtMost(times, windowMs, t, lo, mid, hi);
        QuotaPerWindow(times, limit, windowMs, mid, hi);
        OpenerIsOutside(times, windowMs, lo, mid);
        OneWindow(times, limit, windowMs, lo, mid);
        assert WindowOf(times, windowMs, lo).count >= 2;
      }
    }
  }

  lemma TwoWindowsAtMost(times: seq<int>, windowMs: int, t: int, lo: nat, mid: nat, hi: nat)
    requires lo < mid < hi <= |times| && Nondecreasing(times) && windowMs > 0
    requires t <= times[lo] && times[hi - 1] < t + windowMs
    requires StartOf(times, windowMs, mid) != StartOf(times, windowMs, lo)
    ensures StartOf(times, windowMs, mid) == StartOf(times, windowMs, hi - 1)
  {
    WindowsStartApart(times, windowMs, lo, mid);
    WindowsStartApart(times, windowMs, mid, hi - 1);
    InsideItsWindow(times, windowMs, lo);
    InsideItsWindow(times, windowMs, hi - 1);
  }

  /** If a later request within one window length falls into the next window, `lo` did not open its own. */
  lemma OpenerIsOutside(times: seq<int>, windowMs: int, lo: nat, mid: nat)
    requires lo < mid < |times| && Nondecreasing(times) && windowMs > 0
    requires times[mid] < times[lo] + windowMs
    requires StartOf(times, windowMs, mid) != StartOf(times, windowMs, lo)
    ensures WindowOf(times, windowMs, lo).count >= 2
  {
    WindowsStartApart(times, windowMs, lo, mid);
    InsideItsWindow(times, windowMs, mid);
    WindowUnfolds(times, windowMs, lo);
    if lo > 0 {
      WindowUnfolds(times, windowMs, lo - 1);
    }
  }

  /**
   * An opener, the rest of its quota at the last instant of its window, and a whole quota at the
   * next instant.
   */
  function Burst(limit: nat, windowMs: int): seq<int>
    requires limit >= 1
  {
    seq(2 * limit, k => if k == 0 then 0 else if k < limit then windowMs - 1 else windowMs)
  }

  /** What the limiter holds in the middle of the burst, and that each request of it is let through. */
  lemma {:induction false} BurstIsAllowed(limit: nat, windowMs: int, k: nat)
    requires limit >= 1 && windowMs >= 1 && k < 2 * limit
    ensures WindowOf(Burst(limit, windowMs), windowMs, k) ==
      if k < limit then Window(k + 1, windowMs) else Window(k - limit + 1, 2 * windowMs)
    ensures Allowed(Burst(limit, windowMs), limit, windowMs, k)
    decreases k
  {
    WindowUnfolds(Burst(limit, windowMs), windowMs, k);
    if k > 0 {
      BurstIsAllowed(limit, windowMs, k - 1);
    }
  }

  lemma {:induction false} BurstCounts(limit: nat, windowMs: int, lo: nat, hi: nat)
    requires limit >= 1 && windowMs >= 1 && lo <= hi <= 2 * limit
    ensures CountAllowed(Burst(limit, windowMs), limit, windowMs, lo, hi) == hi - lo
    decreases hi
  {
    if lo < hi {
      BurstCounts(limit, windowMs, lo, hi - 1);
      BurstIsAllowed(limit, windowMs, hi - 1);
    }
  }

  /** Some trace lets `2 * limit - 1` requests through in an interval of one window length. */
  ghost predicate BoundIsMet(limit: int, windowMs: int) {
    exists times: seq<int>, t: int, lo: nat, hi: nat :: MeetsBound(times, limit, windowMs, t, lo, hi)
  }

  ghost predicate MeetsBound(times: seq<int>, limit: int, windowMs: int, t: int, lo: nat, hi: nat) {
    lo <= hi <= |times| && Nondecreasing(times) && (forall k :: lo <= k < hi ==> t <= times[k] < t + windowMs) &&
    CountAllowed(times, limit, windowMs, lo, hi) == 2 * limit - 1
  }

  /** In a window of one instant, an interval as long lies within one window. */
  lemma OneInstant(times: seq<int>, limit: int, t: int, lo: nat, hi: nat)
    requires lo < hi <= |times| && Nondecreasing(times) && limit >= 1
    requires forall k :: lo <= k < hi ==> t <= times[k] < t + 1
    ensures CountAllowed(times, limit, 1, lo, hi) <= limit
  {
    InsideItsWindow(times, 1, lo);
    InsideItsWindow(times, 1, hi - 1);
    assert t <= times[lo] < t + 1 && t <= times[hi - 1] < t + 1;
    QuotaPerWindow(times, limit, 1, lo, hi);
  }

  /**
   * When the bound is met: for every limit of one, and for every larger limit exactly when a
   * window has at least two instants.
   */
  lemma BoundIsTight(limit: int, windowMs: int)
    requires limit >= 1 && windowMs >= 1
    ensures BoundIsMet(limit, windowMs) <==> limit == 1 || windowMs >= 2
  {
    var times := Burst(limit, windowMs);
    if windowMs >= 2 {
      BurstCounts(limit, windowMs, 1, 2 * limit);
      assert MeetsBound(times, limit, windowMs, windowMs - 1, 1, 2 * limit);
    } else if limit == 1 {
      BurstCounts(limit, windowMs, 0, 1);
      assert MeetsBound(times, limit, windowMs, 0, 0, 1);
    } else if BoundIsMet(limit, windowMs) {
      var other, t, lo: nat, hi: nat :| MeetsBound(other, limit, windowMs, t, lo, hi);
      if lo < hi {
        OneInstant(other, limit, t, lo, hi);
      }
    }
  }

  // ---- many keys ----------------------------------------------------------

  datatype Request = Request(key: string, now: int)

  /** The limiter's table after a whole trace. */
  function Table(trace: seq<Request>, windowMs: int): map<string, Window> {
    if trace == [] then map[]
    else
      var before := Table(trace[..|trace| - 1], windowMs);
      var r := trace[|trace| - 1];
      before[r.key := NextWindow(Lookup(before, r.key), windowMs, r.now)]
  }

  function TimesOf(trace: seq<Request>, key: string): seq<int> {
    if trace == [] then []
    else
      var r := trace[|trace| - 1];
      TimesOf(trace[..|trace| - 1], key) + (if r.key == key then [r.now] else [])
  }

  /** Keys do not disturb each other: what the table holds for a key is what its own requests put there. */
  lemma {:induction false} KeysAreIndependent(trace: seq<Request>, windowMs: int, key: string)
    ensures Lookup(Table(trace, windowMs), key) == After(TimesOf(trace, key), windowMs)
  {
    if trace != [] {
      var r := trace[|trace| - 1];
      var earlier := trace[..|trace| - 1];
      KeysAreIndependent(earlier, windowMs, key);
      if r.key == key {
        var times := TimesOf(trace, key);
        assert times[..|times| - 1] == TimesOf(earlier, key) && times[|times| - 1] == r.now;
      } else {
        assert TimesOf(trace, key) == TimesOf(earlier, key);
      }
    }
  }

  lemma {:induction false} OthersLeaveAlone(trace: seq<Request>, others: seq<Request>, windowMs: int, key: string)
    requires forall r :: r in others ==> r.key != key
    ensures Lookup(Table(trace + others, windowMs), key) == Lookup(Table(trace, windowMs), key)
  {
    if others == [] {
      assert trace + others == trace;
    } else {
      var last := |others| - 1;
      assert (trace + others)[..|trace + others| - 1] == trace + others[..last];
      OthersLeaveAlone(trace, others[..last], windowMs, key);
    }
  }

  /**
   * A refused caller that stays away for the reported number of seconds is let in, whatever
   * the other keys did meanwhile.
   */
  lemma RetryAfterIsEnough(
    trace: seq<Request>, others: seq<Request>, windowMs: int, limit: int, key: string, now: int,
    retryAfterSeconds: int, later: int)
    requires var w := Lookup(Table(trace, windowMs), key);
      !Admits(w, limit, now) && w.value.resetAt - now <= 1000 * retryAfterSeconds
    requires forall r :: r in others ==> r.key != key
    requires later >= now + 1000 * retryAfterSeconds
    ensures Admits(Lookup(Table(trace + [Request(key, now)] + others, windowMs), key), limit, later)
  {
    var refused := trace + [Request(key, now)];
    OthersLeaveAlone(refused, others, windowMs, key);
    assert refused[..|refused| - 1] == trace;
  }
}
