/** The sliding-window call budget: a queue of recent grant times, pruned from the front
    before each decision. Times are nanoseconds on a monotonic clock. */
module DeezerWindow {
  import opened Ordering

  const WINDOW: nat := 5_000_000_000
  const WINDOW_MAX_CALLS: nat := 40

  /** The grants still inside the window at `now`, oldest first. */
  function Recent(history: seq<int>, now: int): seq<int> {
    if history == [] then []
    else
      var n := |history| - 1;
      Recent(history[..n], now) + (if now - history[n] < WINDOW then [history[n]] else [])
  }

  lemma {:induction false} RecentAre(history: seq<int>, now: int)
    ensures |Recent(history, now)| == |Where(history, t => t > now - 5_000_000_000)|
  {
    if history != [] {
      var n := |history| - 1;
      RecentAre(history[..n], now);
      WhereSnoc(history[..n], history[n], t => t > now - 5_000_000_000);
      assert history == history[..n] + [history[n]];
    }
  }

  ghost predicate Ordered(times: seq<int>) {
    forall i, j | 0 <= i < j < |times| :: times[i] <= times[j]
  }

  /** The specification keeps every grant ever made and looks back over the window. */
  predicate MayCall(history: seq<int>, now: int) {
    |Recent(history, now)| < WINDOW_MAX_CALLS
  }

  function Granted(history: seq<int>, now: int): seq<int> {
    if MayCall(history, now) then history + [now] else history
  }

  /** All grants of a run of requests. */
  function Grants(requests: seq<int>): seq<int> {
    if requests == [] then []
    else Granted(Grants(requests[..|requests| - 1]), requests[|requests| - 1])
  }

  /** A queue that dropped only expired grants answers like the whole history. */
  lemma {:induction false} RecentOfSuffix(history: seq<int>, k: nat, now: int)
    requires k <= |history|
    requires forall i | 0 <= i < k :: now - history[i] >= WINDOW
    ensures Recent(history, now) == Recent(history[k..], now)
  {
    if history != [] {
      var n := |history| - 1;
      if k == n + 1 {
        RecentOfSuffix(history[..n], n, now);
        assert history[..n][n..] == [] && history[k..] == [];
      } else {
        RecentOfSuffix(history[..n], k, now);
        assert history[k..][..n - k] == history[..n][k..];
      }
    }
  }

  ghost predicate AllWithin(times: seq<int>, now: int) {
    forall i | 0 <= i < |times| :: now - times[i] < WINDOW
  }

  lemma {:induction false} AllRecent(times: seq<int>, now: int)
    requires AllWithin(times, now)
    ensures Recent(times, now) == times
  {
    if times != [] {
      AllRecent(times[..|times| - 1], now);
    }
  }

  /** When the oldest entry is recent, all are. */
  lemma OldestDecides(history: seq<int>, k: nat, now: int)
    requires Ordered(history) && k <= |history| && (k < |history| ==> now - history[k] < WINDOW)
    ensures AllWithin(history[k..], now)
  {
    forall i | k <= i < |history| ensures now - history[i] < WINDOW {
      assert i == k || history[k] <= history[i];
    }
  }

  ghost predicate UpTo(times: seq<int>, now: int) {
    forall i | 0 <= i < |times| :: times[i] <= now
  }

  /** A grant keeps the history in order and is the last of the recent ones. */
  lemma GrantIsRecent(history: seq<int>, now: int)
    requires Ordered(history) && UpTo(history, now)
    ensures Ordered(history + [now]) && UpTo(history + [now], now)
    ensures Recent(history + [now], now) == Recent(history, now) + [now]
  {
    assert (history + [now])[..|history|] == history;
  }

  lemma {:induction false} RecentAgain(history: seq<int>, earlier: int, now: int)
    requires earlier <= now
    ensures Recent(Recent(history, earlier), now) == Recent(history, now)
  {
    if history != [] {
      var n := |history| - 1;
      var kept := Recent(history[..n], earlier);
      RecentAgain(history[..n], earlier, now);
      if earlier - history[n] < WINDOW {
        assert (kept + [history[n]])[..|kept|] == kept;
      } else {
        assert Recent(history, earlier) == kept;
      }
    }
  }

  lemma {:induction false} RecentUpTo(history: seq<int>, now: int, bound: int)
    requires UpTo(history, bound)
    ensures UpTo(Recent(history, now), bound)
  {
    if history != [] {
      RecentUpTo(history[..|history| - 1], now, bound);
    }
  }

  lemma {:induction false} RecentOrdered(history: seq<int>, now: int)
    requires Ordered(history)
    ensures Ordered(Recent(history, now))
  {
    if history != [] {
      var n := |history| - 1;
      RecentOrdered(history[..n], now);
      assert UpTo(history[..n], history[n]);
      RecentUpTo(history[..n], now, history[n]);
    }
  }

  class CallWindow {
    var calls: seq<int>
    ghost var history: seq<int>
    ghost var clock: int

    /** The queue is the history filtered to the window, as of the last request. */
    ghost predicate Valid()
      reads this
    {
      Ordered(history) && UpTo(history, clock) && calls == Recent(history, clock)
    }

    constructor ()
      ensures Valid() && history == []
    {
      calls, history, clock := [], [], 0;
    }

    /** Drops expired entries off the front. */
    method Prune(now: int)
      requires Ordered(calls)
      modifies this`calls
      ensures calls == Recent(old(calls), now)
    {
      while calls != [] && now - calls[0] >= WINDOW
        invariant Ordered(calls) && Recent(calls, now) == Recent(old(calls), now)
        decreases |calls|
      {
        RecentOfSuffix(calls, 1, now);
        calls := calls[1..];
      }
      OldestDecides(calls, 0, now);
      assert calls[0..] == calls;
      AllRecent(calls, now);
    }

    /** Grants a call exactly when fewer than 40 were granted in the last five seconds,
        judged on everything ever granted. */
    method TakeSlot(now: int) returns (granted: bool)
      requires Valid() && clock <= now
      modifies this
      ensures Valid() && clock == now
      ensures granted <==> MayCall(old(history), now)
      ensures granted <==> |Where(old(history), t => t > now - 5_000_000_000)| < 40
      ensures history == if granted then old(history) + [now] else old(history)
    {
      RecentAre(history, now);
      RecentOrdered(history, clock);
      RecentAgain(history, clock, now);
      Prune(now);
      clock := now;
      if |calls| >= WINDOW_MAX_CALLS {
        return false;
      }
      GrantIsRecent(history, now);
      calls, history := calls + [now], history + [now];
      granted := true;
    }
  }

  // ── no window overflows ───────────────────────────────────────────────────

  /** How many of the grants fall in the half-open window [start, start + 5 s). */
  function InWindow(grants: seq<int>, start: int): nat {
    if grants == [] then 0
    else
      var n := |grants| - 1;
      InWindow(grants[..n], start) + (if start <= grants[n] < start + WINDOW then 1 else 0)
  }

  lemma {:induction false} WindowSeenFromInside(grants: seq<int>, start: int, now: int)
    requires UpTo(grants, now)
    requires start <= now < start + WINDOW
    ensures InWindow(grants, start) <= |Recent(grants, now)|
  {
    if grants != [] {
      WindowSeenFromInside(grants[..|grants| - 1], start, now);
    }
  }

  lemma {:induction false} GrantsUpTo(requests: seq<int>, now: int)
    requires UpTo(requests, now)
    ensures UpTo(Grants(requests), now)
  {
    if requests != [] {
      GrantsUpTo(requests[..|requests| - 1], now);
    }
  }

  /** Whatever the requests, no five-second window, wherever it starts, holds more than
      40 grants. */
  lemma {:induction false} NoWindowOverflows(requests: seq<int>, start: int)
    requires Ordered(requests)
    ensures InWindow(Grants(requests), start) <= WINDOW_MAX_CALLS
  {
    if requests != [] {
      var n := |requests| - 1;
      var before, now := Grants(requests[..n]), requests[n];
      NoWindowOverflows(requests[..n], start);
      if MayCall(before, now) {
        assert Grants(requests)[..|before|] == before;
        if start <= now < start + WINDOW {
          assert UpTo(requests[..n], now);
          GrantsUpTo(requests[..n], now);
          WindowSeenFromInside(before, start, now);
        }
      }
    }
  }

  /** The limit is not stricter than it says: a request is refused only when 40 grants
      really lie in the five seconds up to it. */
  lemma RefusedOnlyWhenFull(history: seq<int>, now: int)
    requires !MayCall(history, now) && UpTo(history, now)
    ensures InWindow(history, now - WINDOW + 1) >= WINDOW_MAX_CALLS
  {
    RecentIsCounted(history, now);
  }

  lemma {:induction false} RecentIsCounted(history: seq<int>, now: int)
    requires UpTo(history, now)
    ensures InWindow(history, now - WINDOW + 1) == |Recent(history, now)|
  {
    if history != [] {
      RecentIsCounted(history[..|history| - 1], now);
    }
  }
}
