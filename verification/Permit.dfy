/** The one-permit gate in front of MusicBrainz: blend lookups queue for it, counted
    while they wait; low-priority calls take it only after seeing the counter at zero;
    whoever holds it paces itself before calling out.

    Counting, joining the semaphore's queue, taking the permit and giving it up are
    steps of their own, so a run is any interleaving of any number of callers, and a
    caller can be cancelled in any phase; what a cancelled caller held is dropped in one
    step. The semaphore is fair: a lookup that finds no permit queues, and a permit given
    up goes straight to the head of the queue, so that no attempt can take it in between.
    The counter, the permit and the queue are kept apart from the callers' phases: that
    they agree is proved. Times are milliseconds. */
module Permit {
  import opened Ordering

  const MB_MIN_INTERVAL: nat := 1050

  type Id = nat

  datatype Phase =
    | Announced                // blend: counted, not yet at the semaphore
    | Queued                   // blend: counted, in the semaphore's queue
    | Granted                  // blend: has the permit, not yet uncounted
    | Polling(deadline: int)   // low priority: about to read the counter
    | Checked(deadline: int)   // low priority: has read a zero counter
    | Refused(deadline: int)   // low priority: turned away, about to look at the clock
    | Holding(low: bool)       // has the permit, pacer not entered
    | Pacing(low: bool, wake: int)
    | Calling(low: bool)

  predicate IsCounted(p: Phase) {
    p.Announced? || p.Queued? || p.Granted?
  }

  predicate HasPermit(p: Phase) {
    p.Granted? || p.Holding? || p.Pacing? || p.Calling?
  }

  /** `exits` records when the pacer let each call out. */
  datatype State = State(
    callers: map<Id, Phase>,
    waiting: int,
    permits: int,
    queue: seq<Id>,
    last: Option<int>,
    now: int,
    exits: seq<int>)

  const START := State(map[], 0, 1, [], None, 0, [])

  datatype Event =
    | Tick(ms: nat)
    | Register(id: Id)                 // fetch_add
    | Join(id: Id)                     // acquire: takes a free permit or queues
    | Uncount(id: Id)                  // resumed with the permit, the guard drops: fetch_sub
    | LowStart(id: Id, maxWait: nat)
    | LowCheck(id: Id)                 // reads the counter
    | LowTry(id: Id)                   // try_acquire
    | LowStarve(id: Id)                // gives up at or after its deadline
    | LowAgain(id: Id)                 // before it, polls again
    | EnterPacer(id: Id)
    | LeavePacer(id: Id)
    | Finish(id: Id)                   // the call returned: the permit drops
    | Cancel(id: Id)                   // the future is dropped where it stands

  predicate Enabled(s: State, e: Event) {
    match e
    case Tick(_) => true
    case Register(id) => id !in s.callers
    case LowStart(id, _) => id !in s.callers
    case Join(id) => id in s.callers && s.callers[id].Announced?
    case Uncount(id) => id in s.callers && s.callers[id].Granted?
    case LowCheck(id) => id in s.callers && s.callers[id].Polling?
    case LowTry(id) => id in s.callers && s.callers[id].Checked?
    case LowStarve(id) => id in s.callers && s.callers[id].Refused? && s.now >= s.callers[id].deadline
    case LowAgain(id) => id in s.callers && s.callers[id].Refused? && s.now < s.callers[id].deadline
    case EnterPacer(id) => id in s.callers && s.callers[id].Holding?
    case LeavePacer(id) => id in s.callers && s.callers[id].Pacing? && s.now >= s.callers[id].wake
    case Finish(id) => id in s.callers && s.callers[id].Calling?
    case Cancel(id) => id in s.callers
  }

  /** When a caller entering the pacer at `now` may leave it. */
  function WakeAt(last: Option<int>, now: int): int {
    match last
    case None => now
    case Some(t) => if now - t < MB_MIN_INTERVAL then now + (MB_MIN_INTERVAL - (now - t)) else now
  }

  function Move(s: State, id: Id, p: Phase): State {
    s.(callers := s.callers[id := p])
  }

  function Drop(s: State, id: Id): State {
    s.(callers := s.callers - {id})
  }

  /** A permit given up: the head of the queue has it, or it is free again. */
  function Released(s: State): State {
    if s.queue == [] then s.(permits := s.permits + 1)
    else Move(s, s.queue[0], Granted).(queue := s.queue[1..])
  }

  function Without(queue: seq<Id>, id: Id): seq<Id> {
    if queue == [] then []
    else if queue[0] == id then queue[1..]
    else [queue[0]] + Without(queue[1..], id)
  }

  function Next(s: State, e: Event): State
    requires Enabled(s, e)
  {
    match e
    case Tick(ms) => s.(now := s.now + ms)
    case Register(id) => Move(s, id, Announced).(waiting := s.waiting + 1)
    case Join(id) =>
      if s.permits > 0 then Move(s, id, Granted).(permits := s.permits - 1)
      else Move(s, id, Queued).(queue := s.queue + [id])
    case Uncount(id) => Move(s, id, Holding(false)).(waiting := s.waiting - 1)
    case LowStart(id, maxWait) => Move(s, id, Polling(s.now + maxWait))
    case LowCheck(id) =>
      Move(s, id, if s.waiting == 0 then Checked(s.callers[id].deadline) else Refused(s.callers[id].deadline))
    case LowTry(id) =>
      if s.permits > 0 then Move(s, id, Holding(true)).(permits := s.permits - 1)
      else Move(s, id, Refused(s.callers[id].deadline))
    case LowStarve(id) => Drop(s, id)
    case LowAgain(id) => Move(s, id, Polling(s.callers[id].deadline))
    case EnterPacer(id) => Move(s, id, Pacing(s.callers[id].low, WakeAt(s.last, s.now)))
    case LeavePacer(id) => Move(s, id, Calling(s.callers[id].low)).(last := Some(s.now), exits := s.exits + [s.now])
    case Finish(id) => Released(Drop(s, id))
    case Cancel(id) =>
      var p := s.callers[id];
      var left := Drop(s, id).(waiting := s.waiting - (if IsCounted(p) then 1 else 0), queue := Without(s.queue, id));
      if HasPermit(p) then Released(left) else left
  }

  ghost predicate Legal(s: State, run: seq<Event>)
    decreases |run|
  {
    run == [] || (Enabled(s, run[0]) && Legal(Next(s, run[0]), run[1..]))
  }

  ghost function After(s: State, run: seq<Event>): State
    requires Legal(s, run)
    decreases |run|
  {
    if run == [] then s else After(Next(s, run[0]), run[1..])
  }

  // ── the invariant ─────────────────────────────────────────────────────────

  ghost function Counted(s: State): set<Id> {
    set id | id in s.callers && IsCounted(s.callers[id])
  }

  ghost function Holders(s: State): set<Id> {
    set id | id in s.callers && HasPermit(s.callers[id])
  }

  ghost function CheckedCallers(s: State): set<Id> {
    set id | id in s.callers && s.callers[id].Checked?
  }

  /** The counter counts the queued blend lookups; one permit exists, free or held. */
  ghost predicate Accounted(s: State) {
    && s.waiting == |Counted(s)|
    && s.permits >= 0
    && s.permits + |Holders(s)| == 1
  }

  /** The queue holds each lookup that waits in it once, and only while no permit is free. */
  ghost predicate QueueSound(s: State) {
    && Distinct(s.queue)
    && (forall id :: id in s.queue <==> id in s.callers && s.callers[id].Queued?)
    && (s.queue != [] ==> s.permits == 0)
  }

  ghost predicate Spaced(exits: seq<int>) {
    forall i, j | 0 <= i < j < |exits| :: exits[j] - exits[i] >= MB_MIN_INTERVAL
  }

  /** Releases are far enough apart, and whoever is pacing will keep it so, sleeping no longer
      than that takes. */
  ghost predicate Paced(s: State) {
    && Spaced(s.exits)
    && s.last == (if s.exits == [] then None else Some(s.exits[|s.exits| - 1]))
    && (s.last.Some? ==> s.last.value <= s.now)
    && (forall id | id in s.callers && s.callers[id].Pacing? ::
          (s.last.Some? ==> s.callers[id].wake >= s.last.value + MB_MIN_INTERVAL)
          && (s.callers[id].wake <= s.now
              || (s.last.Some? && s.callers[id].wake <= s.last.value + MB_MIN_INTERVAL)))
  }

  ghost predicate Inv(s: State) {
    Accounted(s) && QueueSound(s) && Paced(s)
  }

  lemma CountAfterMove(s: State, id: Id, p: Phase)
    ensures Counted(Move(s, id, p)) == (if IsCounted(p) then Counted(s) + {id} else Counted(s) - {id})
    ensures Holders(Move(s, id, p)) == (if HasPermit(p) then Holders(s) + {id} else Holders(s) - {id})
    ensures CheckedCallers(Move(s, id, p))
         == (if p.Checked? then CheckedCallers(s) + {id} else CheckedCallers(s) - {id})
  {}

  lemma CountAfterDrop(s: State, id: Id)
    ensures Counted(Drop(s, id)) == Counted(s) - {id}
    ensures Holders(Drop(s, id)) == Holders(s) - {id}
    ensures CheckedCallers(Drop(s, id)) == CheckedCallers(s) - {id}
  {}

  lemma AtMostOne<T>(s: set<T>, x: T, y: T)
    requires |s| <= 1 && x in s && y in s
    ensures x == y
  {
    Smaller({x, y}, s);
  }

  function One(b: bool): int {
    if b then 1 else 0
  }

  /** How a caller's move or departure changes the head counts. */
  lemma Recount(s: State, n: State, id: Id)
    requires n.callers == s.callers - {id} || (id in n.callers && n.callers == s.callers[id := n.callers[id]])
    ensures |Counted(n)| == |Counted(s)|
              - One(id in s.callers && IsCounted(s.callers[id])) + One(id in n.callers && IsCounted(n.callers[id]))
    ensures |Holders(n)| == |Holders(s)|
              - One(id in s.callers && HasPermit(s.callers[id])) + One(id in n.callers && HasPermit(n.callers[id]))
  {
    ResizeBy(Counted(s), id);
    ResizeBy(Holders(s), id);
    if id in n.callers {
      CountAfterMove(s, id, n.callers[id]);
      assert Counted(n) == Counted(Move(s, id, n.callers[id]));
      assert Holders(n) == Holders(Move(s, id, n.callers[id]));
    } else {
      CountAfterDrop(s, id);
      assert Counted(n) == Counted(Drop(s, id));
      assert Holders(n) == Holders(Drop(s, id));
    }
  }

  lemma {:induction false} WithoutOne(queue: seq<Id>, id: Id)
    requires Distinct(queue)
    ensures Distinct(Without(queue, id))
    ensures forall x :: x in Without(queue, id) <==> x in queue && x != id
  {
    if queue != [] {
      assert queue == [queue[0]] + queue[1..];
      WithoutOne(queue[1..], id);
      if queue[0] != id {
        DistinctCons(queue[0], Without(queue[1..], id));
      }
    }
  }

  lemma DistinctCons(x: Id, rest: seq<Id>)
    requires Distinct(rest) && x !in rest
    ensures Distinct([x] + rest)
  {}

  /** Handing over the one permit that is neither free nor held. */
  lemma ReleaseKeepsAccounts(s: State)
    requires s.waiting == |Counted(s)| && s.permits == 0 && Holders(s) == {} && QueueSound(s)
    ensures Accounted(Released(s)) && QueueSound(Released(s))
    ensures CheckedCallers(Released(s)) == CheckedCallers(s)
  {
    var n := Released(s);
    if s.queue == [] {
      assert Counted(n) == Counted(s) && Holders(n) == Holders(s);
    } else {
      var head := s.queue[0];
      assert head in s.queue && s.queue == [head] + s.queue[1..];
      Recount(s, n, head);
      CountAfterMove(s, head, Granted);
      assert CheckedCallers(n) == CheckedCallers(Move(s, head, Granted));
    }
  }

  /** The state left behind by a caller that goes, before its permit is handed over. */
  function Departed(s: State, id: Id): State
    requires id in s.callers
  {
    Drop(s, id).(waiting := s.waiting - One(IsCounted(s.callers[id])), queue := Without(s.queue, id))
  }

  lemma DepartureKeepsAccounts(s: State, id: Id)
    requires Accounted(s) && QueueSound(s) && id in s.callers
    ensures var d := Departed(s, id);
            && d.waiting == |Counted(d)| && QueueSound(d)
            && (if HasPermit(s.callers[id]) then d.permits == 0 && Holders(d) == {} else Accounted(d))
            && CheckedCallers(d) == CheckedCallers(s) - {id}
  {
    var d := Departed(s, id);
    WithoutOne(s.queue, id);
    Recount(s, d, id);
    CountAfterDrop(s, id);
    assert CheckedCallers(d) == CheckedCallers(Drop(s, id));
    if HasPermit(s.callers[id]) {
      assert id in Holders(s) && |Holders(d)| == 0;
    }
  }

  /** A caller that finishes or is cancelled departs, handing over the permit if it had it. */
  lemma EndingIsDeparture(s: State, e: Event)
    requires QueueSound(s) && Enabled(s, e) && (e.Finish? || e.Cancel?)
    ensures Next(s, e) == if HasPermit(s.callers[e.id]) then Released(Departed(s, e.id)) else Departed(s, e.id)
  {
    if e.Finish? {
      assert e.id !in s.queue;
      WithoutNone(s.queue, e.id);
    }
  }

  lemma {:induction false} WithoutNone(queue: seq<Id>, id: Id)
    requires id !in queue
    ensures Without(queue, id) == queue
  {
    if queue != [] {
      WithoutNone(queue[1..], id);
    }
  }

  lemma EndingKeepsAccounts(s: State, e: Event)
    requires Accounted(s) && QueueSound(s) && Enabled(s, e) && (e.Finish? || e.Cancel?)
    ensures Accounted(Next(s, e)) && QueueSound(Next(s, e))
  {
    EndingIsDeparture(s, e);
    DepartureKeepsAccounts(s, e.id);
    if HasPermit(s.callers[e.id]) {
      ReleaseKeepsAccounts(Departed(s, e.id));
    }
  }

  lemma StepKeepsAccounts(s: State, e: Event)
    requires Accounted(s) && QueueSound(s) && Enabled(s, e)
    ensures Accounted(Next(s, e)) && QueueSound(Next(s, e))
  {
    var n := Next(s, e);
    if e.Finish? || e.Cancel? {
      EndingKeepsAccounts(s, e);
    } else if n.callers == s.callers {
      assert Counted(n) == Counted(s) && Holders(n) == Holders(s);
    } else {
      Recount(s, n, e.id);
    }
  }

  lemma EndingKeepsPace(s: State, e: Event)
    requires Inv(s) && Enabled(s, e) && (e.Finish? || e.Cancel?)
    ensures Paced(Next(s, e))
  {
    var n := Next(s, e);
    forall id | id in n.callers && n.callers[id].Pacing?
      ensures id in s.callers && s.callers[id] == n.callers[id]
    {
      EndingIsDeparture(s, e);
    }
  }

  lemma LeavingKeepsPace(s: State, id: Id)
    requires Inv(s) && Enabled(s, LeavePacer(id))
    ensures Paced(Next(s, LeavePacer(id)))
  {
    forall other | other in s.callers && s.callers[other].Pacing? ensures other == id {
      AtMostOne(Holders(s), id, other);
    }
  }

  lemma StepKeepsPace(s: State, e: Event)
    requires Inv(s) && Enabled(s, e)
    ensures Paced(Next(s, e))
  {
    match e
    case Finish(_) => EndingKeepsPace(s, e);
    case Cancel(_) => EndingKeepsPace(s, e);
    case LeavePacer(id) => LeavingKeepsPace(s, id);
    case _ =>
  }

  /** Whatever happens, in whatever order, from the start on: the counter is exact, one
      permit exists, and releases from the pacer are at least 1050 ms apart. */
  lemma {:induction false} RunKeepsInvariant(s: State, run: seq<Event>)
    requires Inv(s) && Legal(s, run)
    ensures Inv(After(s, run))
    decreases |run|
  {
    if run != [] {
      StepKeepsAccounts(s, run[0]);
      StepKeepsPace(s, run[0]);
      RunKeepsInvariant(Next(s, run[0]), run[1..]);
    }
  }

  lemma StartIsGood()
    ensures Inv(START)
  {
    assert Counted(START) == {} && Holders(START) == {};
  }

  /** What the gate promises of every reachable state. */
  lemma GateIsSafe(run: seq<Event>)
    requires Legal(START, run)
    ensures var s := After(START, run);
            && s.waiting == |Counted(s)|
            && (forall a, b | a in s.callers && b in s.callers && HasPermit(s.callers[a]) && HasPermit(s.callers[b]) ::
                  a == b)
            && (s.permits > 0 <==> forall a | a in s.callers :: !HasPermit(s.callers[a]))
            && Spaced(s.exits)
  {
    StartIsGood();
    RunKeepsInvariant(START, run);
    var s := After(START, run);
    forall a, b | a in s.callers && b in s.callers && HasPermit(s.callers[a]) && HasPermit(s.callers[b])
      ensures a == b
    {
      AtMostOne(Holders(s), a, b);
    }
    if s.permits > 0 {
      forall a | a in s.callers ensures !HasPermit(s.callers[a]) {
        assert a !in Holders(s);
      }
    } else {
      var a :| a in Holders(s);
    }
  }

  /** And it wastes no time: a caller in the pacer may leave exactly when no call was let out
      yet or the last one was 1050 ms ago. */
  lemma LeavesPacerIff(run: seq<Event>, id: Id)
    requires Legal(START, run) && id in After(START, run).callers && After(START, run).callers[id].Pacing?
    ensures var s := After(START, run);
            Enabled(s, LeavePacer(id)) <==> s.exits == [] || s.now >= s.exits[|s.exits| - 1] + 1050
  {
    StartIsGood();
    RunKeepsInvariant(START, run);
  }

  // ── giving up ─────────────────────────────────────────────────────────────

  predicate SeeksPermit(p: Phase) {
    p.Polling? || p.Checked? || p.Refused?
  }

  /** The low-priority caller is still after the permit in every state of the run. */
  ghost predicate SeeksThroughout(s: State, run: seq<Event>, id: Id)
    requires Legal(s, run)
    decreases |run|
  {
    && id in s.callers && SeeksPermit(s.callers[id])
    && (run != [] ==> SeeksThroughout(Next(s, run[0]), run[1..], id))
  }

  lemma {:induction false} DeadlineStays(s: State, run: seq<Event>, id: Id)
    requires QueueSound(s) && Accounted(s) && Legal(s, run) && SeeksThroughout(s, run, id)
    ensures var n := After(s, run);
            id in n.callers && SeeksPermit(n.callers[id]) && n.callers[id].deadline == s.callers[id].deadline
    decreases |run|
  {
    if run != [] {
      StepKeepsAccounts(s, run[0]);
      SeekerKeepsDeadline(s, run[0], id);
      DeadlineStays(Next(s, run[0]), run[1..], id);
    }
  }

  lemma SeekerKeepsDeadline(s: State, e: Event, id: Id)
    requires QueueSound(s) && Enabled(s, e) && id in s.callers && SeeksPermit(s.callers[id])
    requires id in Next(s, e).callers && SeeksPermit(Next(s, e).callers[id])
    ensures Next(s, e).callers[id].deadline == s.callers[id].deadline
  {
    if e.Finish? || e.Cancel? {
      EndingIsDeparture(s, e);
    }
  }

  /** An attempt that does not get the permit is followed by giving up or by another one. */
  lemma FailedAttemptDecides(s: State, e: Event)
    requires Enabled(s, e) && (e.LowTry? || (e.LowCheck? && s.waiting != 0))
    requires !HasPermit(Next(s, e).callers[e.id])
    ensures Enabled(Next(s, e), LowStarve(e.id)) <==> !Enabled(Next(s, e), LowAgain(e.id))
  {}

  /** A low-priority caller gives up exactly when it has just been turned away and its
      whole wait is over, counted from its start; turned away before, it tries again. */
  lemma GivesUpIff(before: seq<Event>, id: Id, maxWait: nat, run: seq<Event>)
    requires Legal(START, before) && Enabled(After(START, before), LowStart(id, maxWait))
    requires var s := Next(After(START, before), LowStart(id, maxWait)); Legal(s, run) && SeeksThroughout(s, run, id)
    ensures var s := After(START, before);
            var n := After(Next(s, LowStart(id, maxWait)), run);
            && id in n.callers
            && (Enabled(n, LowStarve(id)) <==> n.callers[id].Refused? && n.now >= s.now + maxWait)
            && (Enabled(n, LowAgain(id)) <==> n.callers[id].Refused? && n.now < s.now + maxWait)
  {
    StartIsGood();
    RunKeepsInvariant(START, before);
    StepKeepsAccounts(After(START, before), LowStart(id, maxWait));
    DeadlineStays(Next(After(START, before), LowStart(id, maxWait)), run, id);
  }

  // ── priority ──────────────────────────────────────────────────────────────

  /** Low-priority attempts that got the permit during a run. */
  ghost function LowGrants(s: State, run: seq<Event>): nat
    requires Legal(s, run)
    decreases |run|
  {
    if run == [] then 0
    else (if run[0].LowTry? && s.permits > 0 then 1 else 0) + LowGrants(Next(s, run[0]), run[1..])
  }

  /** The blend lookup `b` is registered and still waiting in every state of the run. */
  ghost predicate WaitsThroughout(s: State, run: seq<Event>, b: Id)
    requires Legal(s, run)
    decreases |run|
  {
    b in Counted(s) && (run != [] ==> WaitsThroughout(Next(s, run[0]), run[1..], b))
  }

  lemma CheckedOnlyShrinks(s: State, e: Event)
    requires Accounted(s) && QueueSound(s) && Enabled(s, e) && Counted(s) != {}
    ensures |CheckedCallers(Next(s, e))| + (if e.LowTry? && s.permits > 0 then 1 else 0) <= |CheckedCallers(s)|
  {
    var n := Next(s, e);
    if n.callers == s.callers {
      assert CheckedCallers(n) == CheckedCallers(s);
    } else if e.Finish? || e.Cancel? {
      EndingIsDeparture(s, e);
      DepartureKeepsAccounts(s, e.id);
      if HasPermit(s.callers[e.id]) {
        ReleaseKeepsAccounts(Departed(s, e.id));
      }
      Smaller(CheckedCallers(s) - {e.id}, CheckedCallers(s));
    } else if e.LowStarve? {
      CountAfterDrop(s, e.id);
      assert CheckedCallers(n) == CheckedCallers(Drop(s, e.id));
      Smaller(CheckedCallers(s) - {e.id}, CheckedCallers(s));
    } else {
      var p := n.callers[e.id];
      CountAfterMove(s, e.id, p);
      assert CheckedCallers(n) == CheckedCallers(Move(s, e.id, p));
      assert !p.Checked?;
      Smaller(CheckedCallers(s) - {e.id}, CheckedCallers(s));
    }
  }

  /** While a blend lookup waits, the only low-priority calls that can still slip in are
      those that had read a zero counter before it registered: one each. */
  lemma {:induction false} LowCallsYield(s: State, run: seq<Event>, b: Id)
    requires Inv(s) && Legal(s, run) && WaitsThroughout(s, run, b)
    ensures LowGrants(s, run) <= |CheckedCallers(s)|
    decreases |run|
  {
    if run != [] {
      CheckedOnlyShrinks(s, run[0]);
      StepKeepsAccounts(s, run[0]);
      StepKeepsPace(s, run[0]);
      LowCallsYield(Next(s, run[0]), run[1..], b);
    }
  }

  predicate IsLow(p: Phase) {
    match p
    case Polling(_) => true
    case Checked(_) => true
    case Refused(_) => true
    case Holding(low) => low
    case Pacing(low, _) => low
    case Calling(low) => low
    case _ => false
  }

  /** Nobody changes between blend and low priority. */
  lemma KindIsKept(s: State, e: Event, id: Id)
    requires QueueSound(s) && Enabled(s, e) && id in s.callers && id in Next(s, e).callers
    ensures IsLow(Next(s, e).callers[id]) <==> IsLow(s.callers[id])
  {
    if e.Finish? || e.Cancel? {
      EndingIsDeparture(s, e);
      WithoutOne(s.queue, e.id);
      assert forall x | x in Without(s.queue, e.id) :: s.callers[x].Queued?;
    }
  }

  ghost function LowCallers(s: State): set<Id> {
    set id | id in s.callers && IsLow(s.callers[id])
  }

  lemma RegisterKeepsChecked(s: State, b: Id)
    requires Enabled(s, Register(b))
    ensures CheckedCallers(Next(s, Register(b))) == CheckedCallers(s)
  {
    CountAfterMove(s, b, Announced);
    assert CheckedCallers(Next(s, Register(b))) == CheckedCallers(Move(s, b, Announced));
  }

  /** With one low-priority caller, as the resolver has one worker, at most one
      low-priority call is granted between a blend lookup registering and acquiring. */
  lemma OneLowCallAtMost(before: seq<Event>, b: Id, wait: seq<Event>)
    requires Legal(START, before) && Enabled(After(START, before), Register(b))
    requires |LowCallers(After(START, before))| <= 1
    requires var s := Next(After(START, before), Register(b));
             Legal(s, wait) && WaitsThroughout(s, wait, b)
    ensures LowGrants(Next(After(START, before), Register(b)), wait) <= 1
  {
    StartIsGood();
    RunKeepsInvariant(START, before);
    var s := After(START, before);
    StepKeepsAccounts(s, Register(b));
    StepKeepsPace(s, Register(b));
    RegisterKeepsChecked(s, b);
    Smaller(CheckedCallers(s), LowCallers(s));
    LowCallsYield(Next(s, Register(b)), wait, b);
  }

  /** That one is real: reading the counter and trying the semaphore are two steps, so a
      lookup that registers between them watches a low-priority call go first. */
  lemma OneLowCallCanSlipIn()
    ensures exists before, b, wait ::
              && Legal(START, before) && Enabled(After(START, before), Register(b))
              && var s := Next(After(START, before), Register(b));
                 Legal(s, wait) && WaitsThroughout(s, wait, b) && LowGrants(s, wait) == 1
  {
    var s1 := Next(START, LowStart(0, 60000));
    var s2 := Next(s1, LowCheck(0));
    var before, wait := [LowStart(0, 60000), LowCheck(0)], [LowTry(0)];
    assert before[1..] == [LowCheck(0)] && [LowCheck(0)][1..] == [] && wait[1..] == [];
    assert Legal(s1, [LowCheck(0)]) && After(s1, [LowCheck(0)]) == s2;
    assert Legal(START, before) && After(START, before) == s2;
    var s3 := Next(s2, Register(1));
    assert Legal(s3, wait) && WaitsThroughout(Next(s3, LowTry(0)), [], 1);
    assert WaitsThroughout(s3, wait, 1) && LowGrants(s3, wait) == 1;
  }

  /** Once `b` has joined the semaphore's queue or been granted the permit, no low-priority
      call gets ahead of it in any run. */
  lemma {:induction false} QueuedGoesFirst(s: State, run: seq<Event>, b: Id)
    requires Inv(s) && Legal(s, run) && WaitsThroughout(s, run, b) && !s.callers[b].Announced?
    ensures LowGrants(s, run) == 0
    decreases |run|
  {
    if s.callers[b].Queued? {
      assert b in s.queue;
    } else {
      assert b in Holders(s) && |Holders(s)| > 0;
    }
    if run != [] {
      StepKeepsAccounts(s, run[0]);
      StepKeepsPace(s, run[0]);
      StaysPastAnnounced(s, run[0], b);
      QueuedGoesFirst(Next(s, run[0]), run[1..], b);
    }
  }

  lemma StaysPastAnnounced(s: State, e: Event, b: Id)
    requires QueueSound(s) && Enabled(s, e) && b in Counted(s) && !s.callers[b].Announced?
    requires b in Counted(Next(s, e))
    ensures !Next(s, e).callers[b].Announced?
  {}

  /** Before `b` joins the queue a low-priority call can get ahead of it exactly when some
      caller has read a zero counter and not yet tried the semaphore. */
  lemma NobodySlipsInIff(s: State, b: Id)
    requires Inv(s) && b in s.callers && s.callers[b].Announced?
    ensures (forall wait | Legal(s, wait) && WaitsThroughout(s, wait, b) :: LowGrants(s, wait) == 0)
       <==> CheckedCallers(s) == {}
  {
    if CheckedCallers(s) == {} {
      forall wait | Legal(s, wait) && WaitsThroughout(s, wait, b) ensures LowGrants(s, wait) == 0 {
        LowCallsYield(s, wait, b);
      }
    } else {
      var c :| c in CheckedCallers(s);
      var wait := CheckedCallerSlipsIn(s, b, c);
      assert SlipsIn(s, wait, b);
      assert LowGrants(s, wait) != 0;
    }
  }

  ghost predicate SlipsIn(s: State, wait: seq<Event>, b: Id) {
    Legal(s, wait) && WaitsThroughout(s, wait, b) && LowGrants(s, wait) == 1
  }

  /** Should every queued lookup and then the holder give up, the checked caller gets in. */
  lemma {:induction false} CheckedCallerSlipsIn(s: State, b: Id, c: Id) returns (wait: seq<Event>)
    requires Accounted(s) && QueueSound(s)
    requires b in s.callers && s.callers[b].Announced? && c in CheckedCallers(s)
    ensures SlipsIn(s, wait, b)
    ensures Legal(s, wait) && WaitsThroughout(s, wait, b) && LowGrants(s, wait) == 1
    decreases |s.queue|, 1 - s.permits
  {
    if s.permits > 0 {
      wait := [LowTry(c)];
      TryAlone(s, b, c);
    } else {
      var x;
      if s.queue != [] {
        x := s.queue[0];
        assert x in s.queue;
      } else {
        x :| x in Holders(s);
      }
      StepKeepsAccounts(s, Cancel(x));
      var rest := CheckedCallerSlipsIn(Next(s, Cancel(x)), b, c);
      wait := [Cancel(x)] + rest;
      CancelFirst(s, x, rest, b);
    }
  }

  lemma CancelFirst(s: State, x: Id, rest: seq<Event>, b: Id)
    requires Enabled(s, Cancel(x)) && b in Counted(s) && SlipsIn(Next(s, Cancel(x)), rest, b)
    ensures SlipsIn(s, [Cancel(x)] + rest, b)
  {
    assert ([Cancel(x)] + rest)[1..] == rest;
  }

  lemma TryAlone(s: State, b: Id, c: Id)
    requires b in s.callers && s.callers[b].Announced? && c in CheckedCallers(s) && s.permits > 0
    ensures SlipsIn(s, [LowTry(c)], b)
  {
    var n := Next(s, LowTry(c));
    assert [LowTry(c)][1..] == [];
    assert WaitsThroughout(n, [], b) && LowGrants(n, []) == 0;
  }

  /** So once `b` registers, blend work goes first in every run exactly when nobody stood
      between reading the counter and trying the semaphore. */
  lemma BlendGoesFirstIff(before: seq<Event>, b: Id)
    requires Legal(START, before) && Enabled(After(START, before), Register(b))
    ensures var s := Next(After(START, before), Register(b));
            (forall wait | Legal(s, wait) && WaitsThroughout(s, wait, b) :: LowGrants(s, wait) == 0)
            <==> CheckedCallers(After(START, before)) == {}
  {
    StartIsGood();
    RunKeepsInvariant(START, before);
    var s := After(START, before);
    StepKeepsAccounts(s, Register(b));
    StepKeepsPace(s, Register(b));
    RegisterKeepsChecked(s, b);
    NobodySlipsInIff(Next(s, Register(b)), b);
  }

  // ── how long a queued lookup waits ────────────────────────────────────────

  /** How many lookups stand before `b` in the queue. */
  function Ahead(queue: seq<Id>, b: Id): nat
    requires b in queue
  {
    if queue[0] == b then 0 else 1 + Ahead(queue[1..], b)
  }

  /** The event makes its caller give up the permit. */
  predicate Releases(s: State, e: Event) {
    (e.Finish? || e.Cancel?) && e.id in s.callers && HasPermit(s.callers[e.id])
  }

  ghost function ReleaseCount(s: State, run: seq<Event>): nat
    requires Legal(s, run)
    decreases |run|
  {
    if run == [] then 0 else One(Releases(s, run[0])) + ReleaseCount(Next(s, run[0]), run[1..])
  }

  lemma {:induction false} AheadOfJoined(queue: seq<Id>, id: Id, b: Id)
    requires b in queue
    ensures Ahead(queue + [id], b) == Ahead(queue, b)
  {
    if queue[0] != b {
      assert (queue + [id])[1..] == queue[1..] + [id];
      AheadOfJoined(queue[1..], id, b);
    }
  }

  lemma {:induction false} AheadWithout(queue: seq<Id>, id: Id, b: Id)
    requires Distinct(queue) && b in queue && b != id
    ensures b in Without(queue, id) && Ahead(Without(queue, id), b) <= Ahead(queue, b)
  {
    WithoutOne(queue, id);
    if queue[0] != b && queue[0] != id {
      AheadWithout(queue[1..], id, b);
    }
  }

  lemma NextInLine(queue: seq<Id>, b: Id)
    requires Distinct(queue) && queue != [] && b in queue[1..]
    ensures b in queue && Ahead(queue, b) == Ahead(queue[1..], b) + 1
  {
    var i :| 0 <= i < |queue[1..]| && queue[1..][i] == b;
    assert queue[i + 1] == b;
  }

  lemma EndingAdvances(s: State, e: Event, b: Id)
    requires QueueSound(s) && Enabled(s, e) && (e.Finish? || e.Cancel?)
    requires b in s.queue && b in Next(s, e).queue && b != e.id
    ensures Ahead(Next(s, e).queue, b) + One(Releases(s, e)) <= Ahead(s.queue, b)
  {
    EndingIsDeparture(s, e);
    WithoutOne(s.queue, e.id);
    AheadWithout(s.queue, e.id, b);
    if Releases(s, e) {
      NextInLine(Without(s.queue, e.id), b);
    }
  }

  /** Every release moves `b` one place up, and nothing moves it back. */
  lemma StepAdvances(s: State, e: Event, b: Id)
    requires QueueSound(s) && Enabled(s, e) && b in s.queue && b in Next(s, e).queue && e != Cancel(b)
    ensures Ahead(Next(s, e).queue, b) + One(Releases(s, e)) <= Ahead(s.queue, b)
  {
    if e.Finish? || e.Cancel? {
      EndingAdvances(s, e, b);
    } else if e.Join? && s.permits <= 0 {
      AheadOfJoined(s.queue, e.id, b);
    } else {
      assert Next(s, e).queue == s.queue;
    }
  }

  /** A queued lookup waits for as many releases as lookups stand before it, and one more:
      while it is still queued at most that many permits have been given up, and until it
      is served somebody holds the permit. */
  lemma {:induction false} WaitIsBounded(s: State, run: seq<Event>, b: Id)
    requires Inv(s) && Legal(s, run) && WaitsThroughout(s, run, b) && b in s.queue && b in After(s, run).queue
    ensures ReleaseCount(s, run) + Ahead(After(s, run).queue, b) <= Ahead(s.queue, b)
    ensures exists h :: h in Holders(After(s, run))
    decreases |run|
  {
    if run == [] {
      assert |Holders(s)| == 1;
      var h :| h in Holders(s);
    } else {
      StepKeepsAccounts(s, run[0]);
      StepKeepsPace(s, run[0]);
      StillQueued(Next(s, run[0]), run[1..], b);
      StepAdvances(s, run[0], b);
      WaitIsBounded(Next(s, run[0]), run[1..], b);
    }
  }

  /** Who is queued at the end was queued all along, having been past announcing. */
  lemma {:induction false} StillQueued(s: State, run: seq<Event>, b: Id)
    requires Inv(s) && Legal(s, run) && WaitsThroughout(s, run, b) && !s.callers[b].Announced?
    requires b in After(s, run).queue
    ensures b in s.queue
    decreases |run|
  {
    if run != [] {
      StepKeepsAccounts(s, run[0]);
      StepKeepsPace(s, run[0]);
      StaysPastAnnounced(s, run[0], b);
      StillQueued(Next(s, run[0]), run[1..], b);
    }
  }

  // ── the pacer on its own ──────────────────────────────────────────────────

  /** The minimum-interval pacer as one caller at a time uses it. A sleep may overrun
      but never ends early. */
  class Pacer {
    var last: Option<int>

    constructor ()
      ensures last == None
    {
      last := None;
    }

    method Wait(now: int, overrun: nat) returns (exit: int)
      modifies this
      ensures if old(last).Some? && now < old(last).value + 1050 then exit == old(last).value + 1050 + overrun
              else exit == now
      ensures last == Some(exit)
    {
      exit := now;
      if last.Some? {
        var elapsed := now - last.value;
        if elapsed < MB_MIN_INTERVAL {
          exit := now + (MB_MIN_INTERVAL - elapsed) + overrun;
        }
      }
      last := Some(exit);
    }
  }
}
