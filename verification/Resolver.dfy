/** The background name resolver: requesters claim a name, then queue it; a worker task,
    respawned when the last one has ended, takes names off the queue and resolves them.

    Claiming and sending are separate steps, because other threads run in between, and
    so are releasing after a failed send, reading the store and writing it. A worker
    can be aborted wherever it is. Names map to storage keys by a parameter. */
module Resolver {
  import opened Ordering

  const QUEUE_CAP: nat := 256

  type Id = nat
  type Key = string

  /** A requester between its claim and its send, or between a failed send and the
      release that follows. */
  datatype Request = Claimed(name: string) | SendFailed(name: string)

  /** Where a worker task is. Busy phases hold the claim guard of the name they resolve. */
  datatype Worker =
    | Dead
    | Waiting
    | Fetching(name: string)
    | Missed(name: string)                         // a miss: about to read the store
    | Writing(name: string, mbid: Option<string>)  // about to write a row
    | Done(name: string)                           // the guard is about to drop

  datatype State = State(
    inFlight: set<Key>,
    queue: seq<string>,
    requests: map<Id, Request>,
    tasks: seq<Worker>,   // every task ever spawned; the handle kept is the last one's
    db: map<Key, Option<string>>,
    cache: map<Key, Option<string>>)

  datatype Config = Config(key: string -> Key, hasDb: bool)

  datatype Outcome = Found(mbid: string) | Miss | Transient

  datatype Event =
    | Claim(id: Id, name: string)     // insert into the in-flight set
    | Send(id: Id)                    // try_send
    | Release(id: Id)                 // give the claim back after a full queue
    | EnsureWorker                    // every poll with a pending name
    | Receive(t: nat)
    | Resolve(t: nat, outcome: Outcome)
    | ReadStore(t: nat, ok: bool, cacheOk: bool)    // whether the database and the cache answer
    | WriteStore(t: nat, ok: bool, cacheOk: bool)
    | Finish(t: nat)
    | Abort(t: nat)

  function Start(): State {
    State({}, [], map[], [], map[], map[])
  }

  predicate Busy(w: Worker) {
    !w.Dead? && !w.Waiting?
  }

  /** The task whose handle the service keeps; before the first spawn, a dead one. */
  function Current(s: State): Worker {
    if s.tasks == [] then Dead else s.tasks[|s.tasks| - 1]
  }

  predicate Enabled(s: State, e: Event) {
    match e
    case Claim(id, _) => id !in s.requests
    case Send(id) => id in s.requests && s.requests[id].Claimed?
    case Release(id) => id in s.requests && s.requests[id].SendFailed?
    case EnsureWorker => true
    case Receive(t) => t < |s.tasks| && s.tasks[t].Waiting? && s.queue != []
    case Resolve(t, _) => t < |s.tasks| && s.tasks[t].Fetching?
    case ReadStore(t, _, _) => t < |s.tasks| && s.tasks[t].Missed?
    case WriteStore(t, _, _) => t < |s.tasks| && s.tasks[t].Writing?
    case Finish(t) => t < |s.tasks| && s.tasks[t].Done?
    case Abort(t) => t < |s.tasks| && !s.tasks[t].Dead?
  }

  function Put(s: State, t: nat, w: Worker): State
    requires t < |s.tasks|
  {
    s.(tasks := s.tasks[t := w])
  }

  /** A row is read from the database, or from the cache when there is no database or
      the read failed; a cache that fails reads as having no row. */
  function ReadRow(s: State, k: Key, ok: bool, cacheOk: bool, cfg: Config): Option<Option<string>> {
    if cfg.hasDb && ok then Lookup(s.db, k)
    else if cacheOk then Lookup(s.cache, k)
    else None
  }

  function Lookup(rows: map<Key, Option<string>>, k: Key): Option<Option<string>> {
    if k in rows then Some(rows[k]) else None
  }

  /** A row is written to the same place; a cache that fails drops it. */
  function WriteRow(s: State, k: Key, mbid: Option<string>, ok: bool, cacheOk: bool, cfg: Config): State {
    if cfg.hasDb && ok then s.(db := s.db[k := mbid])
    else if cacheOk then s.(cache := s.cache[k := mbid])
    else s
  }

  function Next(s: State, e: Event, cfg: Config): State
    requires Enabled(s, e)
  {
    match e
    case Claim(id, name) =>
      if cfg.key(name) in s.inFlight then s
      else s.(inFlight := s.inFlight + {cfg.key(name)}, requests := s.requests[id := Claimed(name)])
    case Send(id) =>
      if |s.queue| < QUEUE_CAP then s.(queue := s.queue + [s.requests[id].name], requests := s.requests - {id})
      else s.(requests := s.requests[id := SendFailed(s.requests[id].name)])
    case Release(id) =>
      s.(inFlight := s.inFlight - {cfg.key(s.requests[id].name)}, requests := s.requests - {id})
    case EnsureWorker => if Current(s).Dead? then s.(tasks := s.tasks + [Waiting]) else s
    case Receive(t) => Put(s, t, Fetching(s.queue[0])).(queue := s.queue[1..])
    case Resolve(t, outcome) =>
      var name := s.tasks[t].name;
      (match outcome
       case Found(mbid) => Put(s, t, Writing(name, Some(mbid)))
       case Miss => Put(s, t, Missed(name))
       case Transient => Put(s, t, Done(name)))
    case ReadStore(t, ok, cacheOk) =>
      var name := s.tasks[t].name;
      var row := ReadRow(s, cfg.key(name), ok, cacheOk, cfg);
      Put(s, t, if row.Some? && row.value.Some? then Done(name) else Writing(name, None))
    case WriteStore(t, ok, cacheOk) =>
      var w := s.tasks[t];
      Put(WriteRow(s, cfg.key(w.name), w.mbid, ok, cacheOk, cfg), t, Done(w.name))
    case Finish(t) => Put(s, t, Waiting).(inFlight := s.inFlight - {cfg.key(s.tasks[t].name)})
    case Abort(t) =>
      var w := s.tasks[t];
      Put(s, t, Dead).(inFlight := if Busy(w) then s.inFlight - {cfg.key(w.name)} else s.inFlight)
  }

  ghost predicate Legal(s: State, run: seq<Event>, cfg: Config)
    decreases |run|
  {
    run == [] || (Enabled(s, run[0]) && Legal(Next(s, run[0], cfg), run[1..], cfg))
  }

  ghost function After(s: State, run: seq<Event>, cfg: Config): State
    requires Legal(s, run, cfg)
    decreases |run|
  {
    if run == [] then s else After(Next(s, run[0], cfg), run[1..], cfg)
  }

  // ── safety ────────────────────────────────────────────────────────────────

  ghost function RequestKeys(s: State, cfg: Config): set<Key> {
    set id | id in s.requests :: cfg.key(s.requests[id].name)
  }

  ghost function QueueKeys(s: State, cfg: Config): set<Key> {
    set i | 0 <= i < |s.queue| :: cfg.key(s.queue[i])
  }

  function WorkerKeys(s: State, cfg: Config): set<Key> {
    if Busy(Current(s)) then {cfg.key(Current(s).name)} else {}
  }

  ghost predicate QueueDistinct(s: State, cfg: Config) {
    forall i, j | 0 <= i < j < |s.queue| :: cfg.key(s.queue[i]) != cfg.key(s.queue[j])
  }

  ghost predicate RequestsDistinct(s: State, cfg: Config) {
    forall a, b | a in s.requests && b in s.requests && a != b ::
      cfg.key(s.requests[a].name) != cfg.key(s.requests[b].name)
  }

  /** At most one worker runs, and it is the one whose handle is kept. */
  ghost predicate OneAlive(s: State) {
    forall t | 0 <= t < |s.tasks| && !s.tasks[t].Dead? :: t == |s.tasks| - 1
  }

  lemma StepKeepsOneAlive(s: State, e: Event, cfg: Config)
    requires OneAlive(s) && Enabled(s, e)
    ensures OneAlive(Next(s, e, cfg))
  {}

  /** One worker at most, and every claim has exactly one holder: a requester, a place
      in the queue, or the worker; and the queue stays within its capacity. */
  ghost predicate Inv(s: State, cfg: Config) {
    && OneAlive(s)
    && s.inFlight == RequestKeys(s, cfg) + QueueKeys(s, cfg) + WorkerKeys(s, cfg)
    && RequestKeys(s, cfg) !! QueueKeys(s, cfg) !! WorkerKeys(s, cfg)
    && QueueDistinct(s, cfg) && RequestsDistinct(s, cfg)
    && |s.queue| <= QUEUE_CAP
  }

  lemma ClaimKeepsInv(s: State, id: Id, name: string, cfg: Config)
    requires Inv(s, cfg) && Enabled(s, Claim(id, name))
    ensures Inv(Next(s, Claim(id, name), cfg), cfg)
  {
    if cfg.key(name) !in s.inFlight {
      RequestAdded(s, Next(s, Claim(id, name), cfg), id, cfg);
    }
  }

  lemma SendKeepsInv(s: State, id: Id, cfg: Config)
    requires Inv(s, cfg) && Enabled(s, Send(id))
    ensures Inv(Next(s, Send(id), cfg), cfg)
  {
    var n := Next(s, Send(id), cfg);
    if |s.queue| < QUEUE_CAP {
      RequestRemoved(s, n, id, cfg);
      QueueKeysGrow(s, n, cfg);
      assert cfg.key(s.requests[id].name) in RequestKeys(s, cfg);
      forall i | 0 <= i < |s.queue| ensures cfg.key(s.queue[i]) in QueueKeys(s, cfg) {}
    } else {
      RequestRenamed(s, n, id, cfg);
      assert QueueKeys(n, cfg) == QueueKeys(s, cfg);
    }
  }

  lemma ReleaseKeepsInv(s: State, id: Id, cfg: Config)
    requires Inv(s, cfg) && Enabled(s, Release(id))
    ensures Inv(Next(s, Release(id), cfg), cfg)
  {
    var n := Next(s, Release(id), cfg);
    RequestRemoved(s, n, id, cfg);
    assert QueueKeys(n, cfg) == QueueKeys(s, cfg);
    assert cfg.key(s.requests[id].name) in RequestKeys(s, cfg);
  }

  lemma ReceiveKeepsInv(s: State, t: nat, cfg: Config)
    requires Inv(s, cfg) && Enabled(s, Receive(t))
    ensures Inv(Next(s, Receive(t), cfg), cfg)
  {
    var n := Next(s, Receive(t), cfg);
    assert RequestKeys(n, cfg) == RequestKeys(s, cfg);
    assert cfg.key(s.queue[0]) in QueueKeys(s, cfg);
    assert Current(n) == Fetching(s.queue[0]);
  }

  /** A step that moves no name between holders. */
  lemma SameHoldersKeepInv(s: State, n: State, cfg: Config)
    requires Inv(s, cfg) && OneAlive(n)
    requires n.inFlight == s.inFlight && n.queue == s.queue && n.requests == s.requests
    requires WorkerKeys(n, cfg) == WorkerKeys(s, cfg)
    ensures Inv(n, cfg)
  {
    assert RequestKeys(n, cfg) == RequestKeys(s, cfg) && QueueKeys(n, cfg) == QueueKeys(s, cfg);
  }

  lemma WorkerKeepsInv(s: State, e: Event, cfg: Config)
    requires Inv(s, cfg) && Enabled(s, e)
    requires e.Resolve? || e.ReadStore? || e.WriteStore?
    ensures Inv(Next(s, e, cfg), cfg)
  {
    StepKeepsOneAlive(s, e, cfg);
    WorkerKeepsName(s, e, cfg);
    SameHoldersKeepInv(s, Next(s, e, cfg), cfg);
  }

  lemma WorkerKeepsName(s: State, e: Event, cfg: Config)
    requires OneAlive(s) && Enabled(s, e) && (e.Resolve? || e.ReadStore? || e.WriteStore?)
    ensures var n := Next(s, e, cfg);
            && n.inFlight == s.inFlight && n.queue == s.queue && n.requests == s.requests
            && WorkerKeys(n, cfg) == WorkerKeys(s, cfg)
  {
    assert s.tasks[e.t] == Current(s) && Next(s, e, cfg).tasks[e.t] == Current(Next(s, e, cfg));
  }

  lemma RespawnKeepsInv(s: State, cfg: Config)
    requires Inv(s, cfg)
    ensures Inv(Next(s, EnsureWorker, cfg), cfg)
  {
    var n := Next(s, EnsureWorker, cfg);
    StepKeepsOneAlive(s, EnsureWorker, cfg);
    assert RequestKeys(n, cfg) == RequestKeys(s, cfg) && QueueKeys(n, cfg) == QueueKeys(s, cfg);
  }

  lemma EndingKeepsInv(s: State, e: Event, cfg: Config)
    requires Inv(s, cfg) && Enabled(s, e) && (e.Finish? || e.Abort?)
    ensures Inv(Next(s, e, cfg), cfg)
  {
    var n := Next(s, e, cfg);
    StepKeepsOneAlive(s, e, cfg);
    assert RequestKeys(n, cfg) == RequestKeys(s, cfg) && QueueKeys(n, cfg) == QueueKeys(s, cfg);
    assert s.tasks[e.t] == Current(s) && WorkerKeys(n, cfg) == {};
  }

  lemma StepKeepsInv(s: State, e: Event, cfg: Config)
    requires Inv(s, cfg) && Enabled(s, e)
    ensures Inv(Next(s, e, cfg), cfg)
  {
    match e
    case Claim(id, name) => ClaimKeepsInv(s, id, name, cfg);
    case Send(id) => SendKeepsInv(s, id, cfg);
    case Release(id) => ReleaseKeepsInv(s, id, cfg);
    case Receive(t) => ReceiveKeepsInv(s, t, cfg);
    case EnsureWorker => RespawnKeepsInv(s, cfg);
    case Finish(_) => EndingKeepsInv(s, e, cfg);
    case Abort(_) => EndingKeepsInv(s, e, cfg);
    case _ => WorkerKeepsInv(s, e, cfg);
  }

  lemma RequestAdded(s: State, n: State, id: Id, cfg: Config)
    requires id !in s.requests && id in n.requests && n.requests == s.requests[id := n.requests[id]]
    requires n.queue == s.queue
    ensures RequestKeys(n, cfg) == RequestKeys(s, cfg) + {cfg.key(n.requests[id].name)}
    ensures QueueKeys(n, cfg) == QueueKeys(s, cfg)
  {
    forall k | k in RequestKeys(s, cfg) ensures k in RequestKeys(n, cfg) {
      var a :| a in s.requests && cfg.key(s.requests[a].name) == k;
      assert a in n.requests && n.requests[a] == s.requests[a];
    }
  }

  lemma RequestRemoved(s: State, n: State, id: Id, cfg: Config)
    requires RequestsDistinct(s, cfg) && id in s.requests && n.requests == s.requests - {id}
    ensures RequestKeys(n, cfg) == RequestKeys(s, cfg) - {cfg.key(s.requests[id].name)}
    ensures RequestsDistinct(n, cfg)
  {
    forall k | k in RequestKeys(s, cfg) && k != cfg.key(s.requests[id].name) ensures k in RequestKeys(n, cfg) {
      var a :| a in s.requests && cfg.key(s.requests[a].name) == k;
      assert a in n.requests;
    }
  }

  lemma RequestRenamed(s: State, n: State, id: Id, cfg: Config)
    requires id in s.requests && id in n.requests && n.requests == s.requests[id := n.requests[id]]
    requires n.requests[id].name == s.requests[id].name
    ensures RequestKeys(n, cfg) == RequestKeys(s, cfg)
  {
    forall k ensures k in RequestKeys(s, cfg) <==> k in RequestKeys(n, cfg) {
      if k in RequestKeys(s, cfg) {
        var a :| a in s.requests && cfg.key(s.requests[a].name) == k;
        assert a in n.requests && n.requests[a].name == s.requests[a].name;
      }
      if k in RequestKeys(n, cfg) {
        var a :| a in n.requests && cfg.key(n.requests[a].name) == k;
        assert a in s.requests && n.requests[a].name == s.requests[a].name;
      }
    }
  }

  lemma QueueKeysGrow(s: State, n: State, cfg: Config)
    requires |n.queue| == |s.queue| + 1 && n.queue == s.queue + [n.queue[|s.queue|]]
    ensures QueueKeys(n, cfg) == QueueKeys(s, cfg) + {cfg.key(n.queue[|s.queue|])}
  {
    forall k | k in QueueKeys(s, cfg) ensures k in QueueKeys(n, cfg) {
      var i :| 0 <= i < |s.queue| && cfg.key(s.queue[i]) == k;
      assert n.queue[i] == s.queue[i];
    }
  }

  /** Over every interleaving of requesters, worker steps, aborts and respawns. */
  lemma {:induction false} RunKeepsInv(s: State, run: seq<Event>, cfg: Config)
    requires Inv(s, cfg) && Legal(s, run, cfg)
    ensures Inv(After(s, run, cfg), cfg)
    decreases |run|
  {
    if run != [] {
      StepKeepsInv(s, run[0], cfg);
      RunKeepsInv(Next(s, run[0], cfg), run[1..], cfg);
    }
  }

  /** No name is ever queued twice or queued while being resolved, the queue never
      exceeds its capacity, and a key is in flight exactly while someone holds it. */
  lemma ResolverIsSafe(run: seq<Event>, cfg: Config)
    requires Legal(Start(), run, cfg)
    ensures Inv(After(Start(), run, cfg), cfg)
  {
    assert Inv(Start(), cfg);
    RunKeepsInv(Start(), run, cfg);
  }

  // ── progress ──────────────────────────────────────────────────────────────

  function WorkerDebt(w: Worker): nat {
    match w
    case Dead => 0
    case Waiting => 0
    case Fetching(_) => 4
    case Missed(_) => 3
    case Writing(_, _) => 2
    case Done(_) => 1
  }

  ghost function Claimers(s: State): set<Id> {
    set id | id in s.requests && s.requests[id].Claimed?
  }

  ghost function Quitters(s: State): set<Id> {
    set id | id in s.requests && s.requests[id].SendFailed?
  }

  /** Steps still owed before every present claim is released. */
  ghost function Debt(s: State): nat {
    6 * |Claimers(s)| + |Quitters(s)| + 5 * |s.queue| + WorkerDebt(Current(s))
  }

  /** A step that neither brings in work nor merely restarts, idles or repeats. */
  predicate Productive(s: State, e: Event, cfg: Config)
    requires Enabled(s, e)
  {
    !e.Claim? && !e.EnsureWorker? && !(e.Abort? && !Busy(s.tasks[e.t]))
  }

  lemma DebtAfterRequest(s: State, n: State, id: Id)
    requires id in s.requests
    requires n.requests == s.requests - {id} || n.requests == s.requests[id := SendFailed(s.requests[id].name)]
    ensures Claimers(n) == Claimers(s) - {id}
    ensures Quitters(n) == if id in n.requests then Quitters(s) + {id} else Quitters(s) - {id}
  {}

  lemma SendDebtFalls(s: State, id: Id, cfg: Config)
    requires Enabled(s, Send(id))
    ensures Debt(Next(s, Send(id), cfg)) < Debt(s)
  {
    var n := Next(s, Send(id), cfg);
    DebtAfterRequest(s, n, id);
    ResizeBy(Claimers(s), id);
    ResizeBy(Quitters(s), id);
    assert id in Claimers(s) && id !in Quitters(s);
    assert |Claimers(n)| == |Claimers(s)| - 1;
    assert |Quitters(n)| + |n.queue| <= |Quitters(s)| + |s.queue| + 1;
  }

  lemma ReleaseDebtFalls(s: State, id: Id, cfg: Config)
    requires Enabled(s, Release(id))
    ensures Debt(Next(s, Release(id), cfg)) < Debt(s)
  {
    var n := Next(s, Release(id), cfg);
    DebtAfterRequest(s, n, id);
    ResizeBy(Claimers(s), id);
    ResizeBy(Quitters(s), id);
    assert id !in Claimers(s) && id in Quitters(s);
    assert |Claimers(n)| == |Claimers(s)| && |Quitters(n)| == |Quitters(s)| - 1;
  }

  /** Every productive step pays at least one unit of the debt; without new claims no
      step adds any. */
  lemma DebtFalls(s: State, e: Event, cfg: Config)
    requires OneAlive(s) && Enabled(s, e) && !e.Claim?
    ensures Debt(Next(s, e, cfg)) <= Debt(s)
    ensures Productive(s, e, cfg) ==> Debt(Next(s, e, cfg)) < Debt(s)
  {
    if e.Send? {
      SendDebtFalls(s, e.id, cfg);
    } else if e.Release? {
      ReleaseDebtFalls(s, e.id, cfg);
    } else {
      var n := Next(s, e, cfg);
      assert n.requests == s.requests;
      assert !e.EnsureWorker? ==> s.tasks[e.t] == Current(s) && n.tasks[e.t] == Current(n);
      assert Claimers(n) == Claimers(s) && Quitters(n) == Quitters(s);
    }
  }

  ghost function ProductiveSteps(s: State, run: seq<Event>, cfg: Config): nat
    requires Legal(s, run, cfg)
    decreases |run|
  {
    if run == [] then 0
    else (if Productive(s, run[0], cfg) then 1 else 0) + ProductiveSteps(Next(s, run[0], cfg), run[1..], cfg)
  }

  /** Once requesters stop claiming, any run, aborts and respawns included, has room for
      only so many productive steps. */
  lemma {:induction false} WorkRunsOut(s: State, run: seq<Event>, cfg: Config)
    requires OneAlive(s) && Legal(s, run, cfg) && forall e | e in run :: !e.Claim?
    ensures ProductiveSteps(s, run, cfg) + Debt(After(s, run, cfg)) <= Debt(s)
    decreases |run|
  {
    if run != [] {
      DebtFalls(s, run[0], cfg);
      StepKeepsOneAlive(s, run[0], cfg);
      WorkRunsOut(Next(s, run[0], cfg), run[1..], cfg);
    }
  }

  /** Some productive step other than an abort can be taken, at once or after a poll has
      revived a dead worker. */
  ghost predicate CanProgress(s: State, cfg: Config) {
    exists e :: Enabled(Next(s, EnsureWorker, cfg), e) && Productive(Next(s, EnsureWorker, cfg), e, cfg) && !e.Abort?
  }

  lemma RequesterCanMove(s: State, id: Id, cfg: Config)
    requires Inv(s, cfg) && id in s.requests
    ensures s.inFlight != {} && Debt(s) > 0 && CanProgress(s, cfg)
  {
    assert cfg.key(s.requests[id].name) in RequestKeys(s, cfg);
    var e := if s.requests[id].Claimed? then Send(id) else Release(id);
    assert Enabled(Next(s, EnsureWorker, cfg), e) && Productive(Next(s, EnsureWorker, cfg), e, cfg);
    assert id in Claimers(s) || id in Quitters(s);
  }

  lemma WorkerCanMove(s: State, cfg: Config)
    requires Inv(s, cfg) && s.requests == map[]
    ensures s.inFlight == {} <==> s.queue == [] && !Busy(Current(s))
    ensures s.inFlight != {} ==> CanProgress(s, cfg)
  {
    var revived := Next(s, EnsureWorker, cfg);
    if s.queue != [] {
      assert cfg.key(s.queue[0]) in QueueKeys(s, cfg);
    } else {
      assert QueueKeys(s, cfg) == {};
    }
    var last := |revived.tasks| - 1;
    var e := match Current(revived)
      case Fetching(_) => Resolve(last, Transient)
      case Missed(_) => ReadStore(last, true, true)
      case Writing(_, _) => WriteStore(last, true, true)
      case Done(_) => Finish(last)
      case _ => Receive(last);
    if s.inFlight != {} {
      assert Enabled(revived, e) && Productive(revived, e, cfg);
    }
  }

  /** As long as any claim is held some progress can be made, and no debt is left exactly
      when nothing is in flight. */
  lemma ClaimsNeverStick(s: State, cfg: Config)
    requires Inv(s, cfg)
    ensures s.inFlight == {} <==> Debt(s) == 0
    ensures s.inFlight != {} ==> CanProgress(s, cfg)
  {
    if s.requests != map[] {
      var id :| id in s.requests;
      RequesterCanMove(s, id, cfg);
    } else {
      assert Claimers(s) == {} && Quitters(s) == {};
      WorkerCanMove(s, cfg);
    }
  }

  /** Rounds in which nobody claims and, while anything is in flight, some productive step
      is taken; aborts and respawns may come with it. */
  ghost predicate Diligent(s: State, rounds: seq<seq<Event>>, cfg: Config)
    decreases |rounds|
  {
    rounds == [] || (
      && Legal(s, rounds[0], cfg) && (forall e | e in rounds[0] :: !e.Claim?)
      && (s.inFlight != {} ==> ProductiveSteps(s, rounds[0], cfg) > 0)
      && Diligent(After(s, rounds[0], cfg), rounds[1..], cfg))
  }

  ghost function AfterRounds(s: State, rounds: seq<seq<Event>>, cfg: Config): State
    requires Diligent(s, rounds, cfg)
    decreases |rounds|
  {
    if rounds == [] then s else AfterRounds(After(s, rounds[0], cfg), rounds[1..], cfg)
  }

  lemma {:induction false} RoundsRelease(s: State, rounds: seq<seq<Event>>, cfg: Config)
    requires Inv(s, cfg) && Diligent(s, rounds, cfg) && |rounds| >= Debt(s)
    ensures AfterRounds(s, rounds, cfg).inFlight == {}
    decreases |rounds|
  {
    ClaimsNeverStick(s, cfg);
    if rounds != [] {
      RunKeepsInv(s, rounds[0], cfg);
      WorkRunsOut(s, rounds[0], cfg);
      RoundsRelease(After(s, rounds[0], cfg), rounds[1..], cfg);
    }
  }

  /** So from any reachable state, once requesters stop claiming, every claim is released
      after at most as many rounds as steps are owed, whatever the lookups answer, however
      often the worker is aborted and whether or not the queue is full. */
  lemma EveryClaimIsReleased(before: seq<Event>, rounds: seq<seq<Event>>, cfg: Config)
    requires Legal(Start(), before, cfg) && Diligent(After(Start(), before, cfg), rounds, cfg)
    requires |rounds| >= Debt(After(Start(), before, cfg))
    ensures AfterRounds(After(Start(), before, cfg), rounds, cfg).inFlight == {}
  {
    ResolverIsSafe(before, cfg);
    RoundsRelease(After(Start(), before, cfg), rounds, cfg);
  }

  lemma RunSteps(s: State, e: Event, rest: seq<Event>, cfg: Config)
    requires Enabled(s, e) && Legal(Next(s, e, cfg), rest, cfg)
    ensures Legal(s, [e] + rest, cfg) && After(s, [e] + rest, cfg) == After(Next(s, e, cfg), rest, cfg)
  {
    assert ([e] + rest)[1..] == rest;
  }

  /** And such rounds can always be had: from every good state some run without claims or
      aborts releases everything. */
  lemma {:induction false} CanFinish(s: State, cfg: Config) returns (run: seq<Event>)
    requires Inv(s, cfg)
    ensures Legal(s, run, cfg) && After(s, run, cfg).inFlight == {}
    ensures forall e | e in run :: !e.Claim? && !e.Abort?
    decreases Debt(s)
  {
    ClaimsNeverStick(s, cfg);
    if s.inFlight == {} {
      run := [];
    } else {
      var revived := Next(s, EnsureWorker, cfg);
      var e :| Enabled(revived, e) && Productive(revived, e, cfg) && !e.Abort?;
      StepKeepsInv(s, EnsureWorker, cfg);
      StepKeepsInv(revived, e, cfg);
      DebtFalls(s, EnsureWorker, cfg);
      DebtFalls(revived, e, cfg);
      var rest := CanFinish(Next(revived, e, cfg), cfg);
      RunSteps(revived, e, rest, cfg);
      RunSteps(s, EnsureWorker, [e] + rest, cfg);
      run := [EnsureWorker] + ([e] + rest);
    }
  }

  /** Counts only whole resolutions: how many are queued or under way. */
  function Backlog(s: State): nat {
    |s.queue| + (if Busy(Current(s)) then 1 else 0)
  }

  /** A resolution that ends, by finishing or by an abort, leaves one less to do; nothing
      else but a send changes the backlog. */
  lemma BacklogFalls(s: State, e: Event, cfg: Config)
    requires OneAlive(s) && Enabled(s, e) && !e.Send?
    ensures Backlog(Next(s, e, cfg))
         == Backlog(s) - (if e.Finish? || (e.Abort? && Busy(s.tasks[e.t])) then 1 else 0)
  {
    assert e.Receive? || e.Resolve? || e.ReadStore? || e.WriteStore? || e.Finish? || e.Abort? ==>
        s.tasks[e.t] == Current(s) && Next(s, e, cfg).tasks[e.t] == Current(Next(s, e, cfg));
  }

  // ── stored rows ───────────────────────────────────────────────────────────

  ghost predicate KnowsMbid(rows: map<Key, Option<string>>, k: Key) {
    k in rows && rows[k].Some?
  }

  /** The store the resolver trusts: the database if there is one, else the cache. */
  function Rows(s: State, cfg: Config): map<Key, Option<string>> {
    if cfg.hasDb then s.db else s.cache
  }

  /** Handling a miss overwrites a known mbid exactly when the store the resolver trusts
      cannot be read but can be written, and, where that is the database, the cache does
      not know better either. */
  lemma MissLosesMbidIff(s: State, t: nat, read: (bool, bool), write: (bool, bool), cfg: Config)
    requires t < |s.tasks| && s.tasks[t].Missed? && KnowsMbid(Rows(s, cfg), cfg.key(s.tasks[t].name))
    ensures var k, checked := cfg.key(s.tasks[t].name), Next(s, ReadStore(t, read.0, read.1), cfg);
            var written := if checked.tasks[t].Writing? then Next(checked, WriteStore(t, write.0, write.1), cfg)
                           else checked;
            !KnowsMbid(Rows(written, cfg), k) <==>
              if cfg.hasDb then !read.0 && write.0 && !(read.1 && KnowsMbid(s.cache, k))
              else !read.1 && write.1
  {}

  /** With a database the cache may hold an mbid of its own, from a time the database could
      not be written. A miss blanks that one exactly when the write falls back to the cache
      again and the read found the mbid in neither place it asked. */
  lemma MissLosesCacheRowIff(s: State, t: nat, read: (bool, bool), write: (bool, bool), cfg: Config)
    requires cfg.hasDb && t < |s.tasks| && s.tasks[t].Missed? && KnowsMbid(s.cache, cfg.key(s.tasks[t].name))
    ensures var k, checked := cfg.key(s.tasks[t].name), Next(s, ReadStore(t, read.0, read.1), cfg);
            var written := if checked.tasks[t].Writing? then Next(checked, WriteStore(t, write.0, write.1), cfg)
                           else checked;
            !KnowsMbid(written.cache, k) <==>
              !write.0 && write.1 && if read.0 then !KnowsMbid(s.db, k) else !read.1
  {}

  /** A name claimed, queued and received by a waiting worker with nothing else to do. */
  lemma NameIsFetched(s: State, t: nat, name: string, cfg: Config) returns (run: seq<Event>)
    requires s.inFlight == {} && s.queue == [] && s.requests == map[] && t < |s.tasks| && s.tasks[t].Waiting?
    ensures Legal(s, run, cfg)
    ensures After(s, run, cfg) == Put(s, t, Fetching(name)).(inFlight := {cfg.key(name)})
  {
    var s1 := Next(s, Claim(0, name), cfg);
    var s2 := Next(s1, Send(0), cfg);
    assert s2.requests == map[] && s2.queue == [name];
    var s3 := Next(s2, Receive(t), cfg);
    assert After(s3, [], cfg) == s3;
    RunSteps(s2, Receive(t), [], cfg);
    RunSteps(s1, Send(0), [Receive(t)] + [], cfg);
    RunSteps(s, Claim(0, name), [Send(0)] + ([Receive(t)] + []), cfg);
    run := [Claim(0, name)] + ([Send(0)] + ([Receive(t)] + []));
  }

  /** The trusted store with one more row. */
  function WithRow(s: State, k: Key, mbid: Option<string>, cfg: Config): State {
    WriteRow(s, k, mbid, true, true, cfg)
  }

  /** A fetch that finds an mbid and stores it. */
  lemma FetchStores(s: State, t: nat, name: string, mbid: string, cfg: Config) returns (run: seq<Event>)
    requires t < |s.tasks| && s.tasks[t] == Fetching(name)
    ensures Legal(s, run, cfg)
    ensures After(s, run, cfg)
         == Put(WithRow(s, cfg.key(name), Some(mbid), cfg), t, Waiting).(inFlight := s.inFlight - {cfg.key(name)})
  {
    var s1 := Next(s, Resolve(t, Found(mbid)), cfg);
    var s2 := Next(s1, WriteStore(t, true, true), cfg);
    var s3 := Next(s2, Finish(t), cfg);
    assert After(s3, [], cfg) == s3;
    RunSteps(s2, Finish(t), [], cfg);
    RunSteps(s1, WriteStore(t, true, true), [Finish(t)] + [], cfg);
    RunSteps(s, Resolve(t, Found(mbid)), [WriteStore(t, true, true)] + ([Finish(t)] + []), cfg);
    run := [Resolve(t, Found(mbid))] + ([WriteStore(t, true, true)] + ([Finish(t)] + []));
  }

  /** A fetch that misses, can read neither store, and writes the trusted one. */
  lemma FetchBlanks(s: State, t: nat, name: string, cfg: Config) returns (run: seq<Event>)
    requires t < |s.tasks| && s.tasks[t] == Fetching(name)
    ensures Legal(s, run, cfg) && After(s, run, cfg) == Put(WithRow(s, cfg.key(name), None, cfg), t, Done(name))
  {
    var s1 := Next(s, Resolve(t, Miss), cfg);
    var s2 := Next(s1, ReadStore(t, false, false), cfg);
    var s3 := Next(s2, WriteStore(t, true, true), cfg);
    assert After(s3, [], cfg) == s3;
    RunSteps(s2, WriteStore(t, true, true), [], cfg);
    RunSteps(s1, ReadStore(t, false, false), [WriteStore(t, true, true)] + [], cfg);
    RunSteps(s, Resolve(t, Miss), [ReadStore(t, false, false)] + ([WriteStore(t, true, true)] + []), cfg);
    run := [Resolve(t, Miss)] + ([ReadStore(t, false, false)] + ([WriteStore(t, true, true)] + []));
  }

  lemma {:induction false} RunsJoin(s: State, a: seq<Event>, b: seq<Event>, cfg: Config)
    requires Legal(s, a, cfg) && Legal(After(s, a, cfg), b, cfg)
    ensures Legal(s, a + b, cfg) && After(s, a + b, cfg) == After(After(s, a, cfg), b, cfg)
    decreases |a|
  {
    if a == [] {
      assert a + b == b;
    } else {
      RunsJoin(Next(s, a[0], cfg), a[1..], b, cfg);
      assert (a + b)[1..] == a[1..] + b;
    }
  }

  /** The loss is real, with a database or without: from start-up, any name's stored mbid is
      blanked by a later miss whose read fails and whose write does not. */
  lemma KnownMbidCanBeLost(name: string, mbid: string, cfg: Config) returns (stored: seq<Event>, missed: seq<Event>)
    ensures Legal(Start(), stored, cfg) && Legal(After(Start(), stored, cfg), missed, cfg)
    ensures KnowsMbid(Rows(After(Start(), stored, cfg), cfg), cfg.key(name))
    ensures !KnowsMbid(Rows(After(After(Start(), stored, cfg), missed, cfg), cfg), cfg.key(name))
  {
    var s0 := Next(Start(), EnsureWorker, cfg);
    var fetch := NameIsFetched(s0, 0, name, cfg);
    var s1 := After(s0, fetch, cfg);
    var store := FetchStores(s1, 0, name, mbid, cfg);
    RunsJoin(s0, fetch, store, cfg);
    RunSteps(Start(), EnsureWorker, fetch + store, cfg);
    stored := [EnsureWorker] + (fetch + store);
    var s2 := After(Start(), stored, cfg);
    assert s2.inFlight == {} && s2.tasks[0] == Waiting;
    var again := NameIsFetched(s2, 0, name, cfg);
    var blank := FetchBlanks(After(s2, again, cfg), 0, name, cfg);
    RunsJoin(s2, again, blank, cfg);
    missed := again + blank;
  }

  /** The check of a miss, if this is one, can read the store the resolver trusts. */
  predicate ReadSucceeds(e: Event, cfg: Config) {
    e.ReadStore? ==> if cfg.hasDb then e.ok else e.cacheOk
  }

  ghost predicate ReadsSucceed(run: seq<Event>, cfg: Config) {
    forall e | e in run :: ReadSucceeds(e, cfg)
  }

  /** A row about to be blanked is one the store does not know. */
  ghost predicate BlankOnlyUnknown(s: State, cfg: Config) {
    forall t | 0 <= t < |s.tasks| && s.tasks[t].Writing? && s.tasks[t].mbid.None? ::
      !KnowsMbid(Rows(s, cfg), cfg.key(s.tasks[t].name))
  }

  lemma StepBlanksOnlyUnknown(s: State, e: Event, cfg: Config)
    requires OneAlive(s) && Enabled(s, e) && BlankOnlyUnknown(s, cfg) && ReadSucceeds(e, cfg)
    ensures BlankOnlyUnknown(Next(s, e, cfg), cfg)
    ensures forall k | KnowsMbid(Rows(s, cfg), k) :: KnowsMbid(Rows(Next(s, e, cfg), cfg), k)
  {}

  /** While reads succeed, a stored mbid survives every miss, in every run. */
  lemma {:induction false} MbidSurvives(s: State, run: seq<Event>, k: Key, cfg: Config)
    requires OneAlive(s) && Legal(s, run, cfg) && ReadsSucceed(run, cfg) && BlankOnlyUnknown(s, cfg)
    requires KnowsMbid(Rows(s, cfg), k)
    ensures KnowsMbid(Rows(After(s, run, cfg), cfg), k)
    decreases |run|
  {
    if run != [] {
      var e := run[0];
      assert e in run;
      StepKeepsOneAlive(s, e, cfg);
      StepBlanksOnlyUnknown(s, e, cfg);
      MbidSurvives(Next(s, e, cfg), run[1..], k, cfg);
    }
  }

  /** So from start-up: whatever mbid is known at some point is still known after any
      further run, as long as the reads in both succeed. */
  lemma KnownStaysKnown(before: seq<Event>, run: seq<Event>, k: Key, cfg: Config)
    requires Legal(Start(), before, cfg) && Legal(After(Start(), before, cfg), run, cfg)
    requires ReadsSucceed(before, cfg) && ReadsSucceed(run, cfg)
    requires KnowsMbid(Rows(After(Start(), before, cfg), cfg), k)
    ensures KnowsMbid(Rows(After(After(Start(), before, cfg), run, cfg), cfg), k)
  {
    RunBlanksOnlyUnknown(Start(), before, cfg);
    MbidSurvives(After(Start(), before, cfg), run, k, cfg);
  }

  lemma {:induction false} RunBlanksOnlyUnknown(s: State, run: seq<Event>, cfg: Config)
    requires OneAlive(s) && Legal(s, run, cfg) && ReadsSucceed(run, cfg) && BlankOnlyUnknown(s, cfg)
    ensures OneAlive(After(s, run, cfg)) && BlankOnlyUnknown(After(s, run, cfg), cfg)
    decreases |run|
  {
    if run != [] {
      assert run[0] in run;
      StepKeepsOneAlive(s, run[0], cfg);
      StepBlanksOnlyUnknown(s, run[0], cfg);
      RunBlanksOnlyUnknown(Next(s, run[0], cfg), run[1..], cfg);
    }
  }

  // ── every row has its lookup ──────────────────────────────────────────────

  /** What the lookups of a run answered, key by key. */
  ghost function Answers(s: State, run: seq<Event>, cfg: Config): set<(Key, Outcome)>
    requires Legal(s, run, cfg)
    decreases |run|
  {
    if run == [] then {}
    else
      (if run[0].Resolve? then {(cfg.key(s.tasks[run[0].t].name), run[0].outcome)} else {})
      + Answers(Next(s, run[0], cfg), run[1..], cfg)
  }

  /** The lookup that a stored value comes from. */
  function Behind(mbid: Option<string>): Outcome {
    match mbid
    case Some(m) => Found(m)
    case None => Miss
  }

  /** Every row, and every row about to be written, comes from one of the answers. */
  ghost predicate Explained(s: State, answers: set<(Key, Outcome)>, cfg: Config) {
    && RowsExplained(s.db, answers) && RowsExplained(s.cache, answers)
    && forall t | 0 <= t < |s.tasks| :: TaskExplained(s.tasks[t], answers, cfg)
  }

  ghost predicate RowsExplained(rows: map<Key, Option<string>>, answers: set<(Key, Outcome)>) {
    forall k | k in rows :: (k, Behind(rows[k])) in answers
  }

  ghost predicate TaskExplained(w: Worker, answers: set<(Key, Outcome)>, cfg: Config) {
    match w
    case Missed(name) => (cfg.key(name), Miss) in answers
    case Writing(name, mbid) => (cfg.key(name), Behind(mbid)) in answers
    case _ => true
  }

  lemma StepExplainsRows(s: State, e: Event, answers: set<(Key, Outcome)>, cfg: Config)
    requires Enabled(s, e) && Explained(s, answers, cfg)
    ensures RowsExplained(Next(s, e, cfg).db, answers) && RowsExplained(Next(s, e, cfg).cache, answers)
  {
    if e.WriteStore? {
      assert TaskExplained(s.tasks[e.t], answers, cfg);
    }
  }

  lemma StepExplainsTask(s: State, e: Event, answers: set<(Key, Outcome)>, t: nat, cfg: Config)
    requires Enabled(s, e) && Explained(s, answers, cfg) && t < |Next(s, e, cfg).tasks|
    ensures TaskExplained(Next(s, e, cfg).tasks[t],
                          answers + if e.Resolve? then {(cfg.key(s.tasks[e.t].name), e.outcome)} else {}, cfg)
  {
    var w := Next(s, e, cfg).tasks[t];
    if t < |s.tasks| && w == s.tasks[t] {
      assert TaskExplained(w, answers, cfg);
    } else if e.ReadStore? {
      assert TaskExplained(s.tasks[t], answers, cfg);
    } else {
      assert e.Resolve? || (!w.Missed? && !w.Writing?);
    }
  }

  lemma StepExplains(s: State, e: Event, answers: set<(Key, Outcome)>, cfg: Config)
    requires Enabled(s, e) && Explained(s, answers, cfg)
    ensures Explained(Next(s, e, cfg),
                      answers + if e.Resolve? then {(cfg.key(s.tasks[e.t].name), e.outcome)} else {}, cfg)
  {
    StepExplainsRows(s, e, answers, cfg);
    var more := answers + if e.Resolve? then {(cfg.key(s.tasks[e.t].name), e.outcome)} else {};
    forall t | 0 <= t < |Next(s, e, cfg).tasks| ensures TaskExplained(Next(s, e, cfg).tasks[t], more, cfg) {
      StepExplainsTask(s, e, answers, t, cfg);
    }
  }

  lemma {:induction false} RunExplains(s: State, run: seq<Event>, answers: set<(Key, Outcome)>, cfg: Config)
    requires Legal(s, run, cfg) && Explained(s, answers, cfg)
    ensures Explained(After(s, run, cfg), answers + Answers(s, run, cfg), cfg)
    decreases |run|
  {
    if run != [] {
      var e := run[0];
      var more := answers + if e.Resolve? then {(cfg.key(s.tasks[e.t].name), e.outcome)} else {};
      StepExplains(s, e, answers, cfg);
      RunExplains(Next(s, e, cfg), run[1..], more, cfg);
      assert answers + Answers(s, run, cfg) == more + Answers(Next(s, e, cfg), run[1..], cfg);
    } else {
      assert answers + Answers(s, run, cfg) == answers;
    }
  }

  /** From start-up, a row holds an mbid only if a lookup of its key found just that one,
      and is blank only if a lookup of its key missed; a lookup that failed for now leaves
      no row. */
  lemma RowsAreExplained(run: seq<Event>, k: Key, cfg: Config)
    requires Legal(Start(), run, cfg)
    ensures forall rows, m | rows in {After(Start(), run, cfg).db, After(Start(), run, cfg).cache} ::
              k in rows && rows[k] == Some(m) ==> (k, Found(m)) in Answers(Start(), run, cfg)
    ensures forall rows | rows in {After(Start(), run, cfg).db, After(Start(), run, cfg).cache} ::
              k in rows && rows[k] == None ==> (k, Miss) in Answers(Start(), run, cfg)
  {
    RunExplains(Start(), run, {}, cfg);
    assert {} + Answers(Start(), run, cfg) == Answers(Start(), run, cfg);
  }

  lemma {:induction false} DoneStoresNothing(s: State, t: nat, run: seq<Event>, cfg: Config)
    requires OneAlive(s) && Legal(s, run, cfg) && t < |s.tasks| && s.tasks[t].Done?
    requires Finish(t) !in run && Abort(t) !in run
    ensures After(s, run, cfg).db == s.db && After(s, run, cfg).cache == s.cache
    ensures t < |After(s, run, cfg).tasks| && After(s, run, cfg).tasks[t] == s.tasks[t]
    decreases |run|
  {
    if run != [] {
      assert run[0] in run && forall e | e in run[1..] :: e in run;
      StepKeepsOneAlive(s, run[0], cfg);
      DoneStoresNothing(Next(s, run[0], cfg), t, run[1..], cfg);
    }
  }

  /** After a lookup that failed for now, nothing is stored until its task finishes or is
      aborted, whatever else runs in between. */
  lemma TransientStoresNothing(before: seq<Event>, t: nat, run: seq<Event>, cfg: Config)
    requires Legal(Start(), before, cfg) && Enabled(After(Start(), before, cfg), Resolve(t, Transient))
    requires Legal(Next(After(Start(), before, cfg), Resolve(t, Transient), cfg), run, cfg)
    requires Finish(t) !in run && Abort(t) !in run
    ensures var s := After(Start(), before, cfg);
            var n := After(Next(s, Resolve(t, Transient), cfg), run, cfg);
            n.db == s.db && n.cache == s.cache
  {
    var s := After(Start(), before, cfg);
    ResolverIsSafe(before, cfg);
    StepKeepsOneAlive(s, Resolve(t, Transient), cfg);
    DoneStoresNothing(Next(s, Resolve(t, Transient), cfg), t, run, cfg);
  }

  // ── first come, first resolved ────────────────────────────────────────────

  /** The names that enter the queue in a run, in order. */
  ghost function Entered(s: State, run: seq<Event>, cfg: Config): seq<string>
    requires Legal(s, run, cfg)
    decreases |run|
  {
    if run == [] then []
    else
      (if run[0].Send? && |s.queue| < QUEUE_CAP then [s.requests[run[0].id].name] else [])
      + Entered(Next(s, run[0], cfg), run[1..], cfg)
  }

  /** The names that a worker begins to resolve in a run, in order. */
  ghost function Begun(s: State, run: seq<Event>, cfg: Config): seq<string>
    requires Legal(s, run, cfg)
    decreases |run|
  {
    if run == [] then []
    else
      var n := Next(s, run[0], cfg);
      (if run[0].Receive? && n.tasks[run[0].t].Fetching? then [n.tasks[run[0].t].name] else [])
      + Begun(n, run[1..], cfg)
  }

  /** Names are resolved in the order they were queued and none is lost on the way,
      however often the worker is replaced. */
  lemma {:induction false} QueueIsFifo(s: State, run: seq<Event>, cfg: Config)
    requires Legal(s, run, cfg)
    ensures Begun(s, run, cfg) + After(s, run, cfg).queue == s.queue + Entered(s, run, cfg)
    decreases |run|
  {
    if run != [] {
      var n := Next(s, run[0], cfg);
      QueueIsFifo(n, run[1..], cfg);
      EventKeepsOrder(s, run[0], Begun(n, run[1..], cfg) + After(s, run, cfg).queue, Entered(n, run[1..], cfg), cfg);
      if run[0].Receive? {
        assert n.tasks[run[0].t] == Fetching(s.queue[0]);
        assert Begun(s, run, cfg) + After(s, run, cfg).queue
            == [s.queue[0]] + (Begun(n, run[1..], cfg) + After(s, run, cfg).queue);
      }
    }
  }

  lemma EventKeepsOrder(s: State, e: Event, outcome: seq<string>, entered: seq<string>, cfg: Config)
    requires Enabled(s, e) && outcome == Next(s, e, cfg).queue + entered
    ensures var first := if e.Send? && |s.queue| < QUEUE_CAP then [s.requests[e.id].name] else [];
            s.queue + (first + entered) == if e.Receive? then [s.queue[0]] + outcome else outcome
  {}

  // ── one request, uninterrupted ────────────────────────────────────────────

  /** Ensure a worker, claim, send, and give the claim back if the queue was full. */
  function Enqueued(s: State, name: string, cfg: Config): State
    requires s.requests == map[]
  {
    var s1 := Next(s, EnsureWorker, cfg);
    var s2 := Next(s1, Claim(0, name), cfg);
    if s2.requests == map[] then s2
    else
      var s3 := Next(s2, Send(0), cfg);
      if s3.requests == map[] then s3 else Next(s3, Release(0), cfg)
  }

  lemma EnqueuedKeepsInv(s: State, name: string, cfg: Config)
    requires Inv(s, cfg) && s.requests == map[]
    ensures Inv(Enqueued(s, name, cfg), cfg)
  {
    var s1 := Next(s, EnsureWorker, cfg);
    var s2 := Next(s1, Claim(0, name), cfg);
    StepKeepsInv(s, EnsureWorker, cfg);
    StepKeepsInv(s1, Claim(0, name), cfg);
    if s2.requests != map[] {
      var s3 := Next(s2, Send(0), cfg);
      StepKeepsInv(s2, Send(0), cfg);
      if s3.requests != map[] {
        StepKeepsInv(s3, Release(0), cfg);
      }
    }
  }

  lemma EnqueuedIs(s: State, name: string, cfg: Config)
    requires s.requests == map[]
    ensures var k, n := cfg.key(name), Enqueued(s, name, cfg);
            var queued := k !in s.inFlight && |s.queue| < QUEUE_CAP;
            && n.inFlight == (if queued then s.inFlight + {k} else s.inFlight)
            && n.queue == (if queued then s.queue + [name] else s.queue)
            && n == s.(inFlight := n.inFlight, queue := n.queue, tasks := Next(s, EnsureWorker, cfg).tasks)
  {
    var s2 := Next(Next(s, EnsureWorker, cfg), Claim(0, name), cfg);
    if s2.requests != map[] {
      assert s2.requests - {0} == map[];
      assert s2.requests[0 := SendFailed(name)] - {0} == map[];
    }
  }

  /** Between the two states nothing but names among `pending` was claimed and queued, the
      same ones, and a task was spawned only if there are any. */
  ghost predicate OnlyQueues(s: State, n: State, pending: seq<string>, cfg: Config) {
    && s.queue <= n.queue && (forall name | name in n.queue[|s.queue|..] :: name in pending)
    && n.inFlight == s.inFlight + KeysOf(n.queue[|s.queue|..], cfg)
    && (pending == [] ==> n.tasks == s.tasks)
  }

  /** Each of the names is in flight, or the queue is full. */
  ghost predicate AllOffered(names: seq<string>, s: State, cfg: Config) {
    forall name | name in names :: cfg.key(name) in s.inFlight || |s.queue| == 256
  }

  function KeysOf(names: seq<string>, cfg: Config): set<Key> {
    set name | name in names :: cfg.key(name)
  }

  lemma QueuesOneMore(s: State, m: State, n: State, pending: seq<string>, name: string, cfg: Config)
    requires pending != [] && pending[|pending| - 1] == name
    requires OnlyQueues(s, m, pending[..|pending| - 1], cfg)
    requires || (n.queue == m.queue && n.inFlight == m.inFlight)
             || (n.queue == m.queue + [name] && n.inFlight == m.inFlight + {cfg.key(name)})
    ensures OnlyQueues(s, n, pending, cfg)
  {
    assert pending == pending[..|pending| - 1] + [name];
    var added := m.queue[|s.queue|..];
    if n.queue != m.queue {
      assert n.queue[|s.queue|..] == added + [name];
      KeysOneMore(added, name, cfg);
    }
  }

  lemma KeysOneMore(names: seq<string>, name: string, cfg: Config)
    ensures KeysOf(names + [name], cfg) == KeysOf(names, cfg) + {cfg.key(name)}
  {
    assert name in names + [name] && forall x | x in names :: x in names + [name];
  }

  /** The service as one requester sees it when nobody runs in between. */
  class ArtistMetaService {
    const cfg: Config
    var inFlight: set<Key>
    var queue: seq<string>
    var tasks: seq<Worker>

    constructor (cfg: Config)
      ensures this.cfg == cfg && View() == Start()
    {
      this.cfg := cfg;
      inFlight, queue, tasks := {}, [], [];
    }

    /** The shared state, with no other request pending. */
    function View(): State
      reads this
    {
      State(inFlight, queue, map[], tasks, map[], map[])
    }

    method ClaimKey(key: Key) returns (claimed: bool)
      modifies this`inFlight
      ensures claimed <==> key !in old(inFlight)
      ensures inFlight == old(inFlight) + {key}
    {
      claimed := key !in inFlight;
      inFlight := inFlight + {key};
    }

    method ReleaseKey(key: Key)
      modifies this`inFlight
      ensures inFlight == old(inFlight) - {key}
    {
      inFlight := inFlight - {key};
    }

    method TrySend(name: string) returns (sent: bool)
      modifies this`queue
      ensures sent <==> |old(queue)| < QUEUE_CAP
      ensures queue == if sent then old(queue) + [name] else old(queue)
    {
      sent := |queue| < QUEUE_CAP;
      if sent { queue := queue + [name]; }
    }

    method StartWorker()
      modifies this`tasks
      ensures tasks == Next(old(View()), EnsureWorker, cfg).tasks
    {
      if tasks == [] || tasks[|tasks| - 1].Dead? {
        tasks := tasks + [Waiting];
      }
    }

    /** Queues a name unless its key is in flight or the queue is full, and in either of
        those cases leaves no claim behind. */
    method EnqueueBackground(name: string) returns (queued: bool)
      requires Inv(View(), cfg)
      modifies this
      ensures Inv(View(), cfg)
      ensures !Current(View()).Dead?
      ensures queued <==> cfg.key(name) !in old(inFlight) && |old(queue)| < 256
      ensures queue == if queued then old(queue) + [name] else old(queue)
      ensures inFlight == if queued then old(inFlight) + {cfg.key(name)} else old(inFlight)
    {
      ghost var after := Enqueued(View(), name, cfg);
      EnqueuedKeepsInv(View(), name, cfg);
      EnqueuedIs(View(), name, cfg);
      StartWorker();
      var claimed := ClaimKey(cfg.key(name));
      if claimed {
        queued := TrySend(name);
        if !queued {
          ReleaseKey(cfg.key(name));
        }
      } else {
        queued := false;
      }
      assert inFlight == after.inFlight && queue == after.queue && tasks == after.tasks;
      assert View() == after;
    }

    /** Offers one more pending name. */
    method OfferPending(name: string, ghost start: State, ghost pending: seq<string>)
      requires Inv(View(), cfg) && pending != [] && pending[|pending| - 1] == name
      requires AllOffered(pending[..|pending| - 1], View(), cfg)
      requires OnlyQueues(start, View(), pending[..|pending| - 1], cfg)
      modifies this
      ensures Inv(View(), cfg) && !Current(View()).Dead?
      ensures AllOffered(pending, View(), cfg) && OnlyQueues(start, View(), pending, cfg)
    {
      ghost var before := View();
      var _ := EnqueueBackground(name);
      QueuesOneMore(start, before, View(), pending, name, cfg);
    }

    /** Answers a poll from the stored rows and offers every other name for resolution. A
        name left pending is in flight afterwards, or the queue is full, and a worker is
        there to drain it. */
    method Snapshot(names: seq<string>, stored: map<Key, Stored>, now: int)
      returns (meta: map<string, Option<string>>, pending: seq<string>)
      requires Inv(View(), cfg)
      modifies this
      ensures Inv(View(), cfg)
      ensures meta == MetaOf(names, stored, now, cfg)
      ensures pending == Unanswered(names, stored, now, cfg)
      ensures PollAnswer(meta, pending, names, stored, now, cfg)
      ensures pending != [] ==> !Current(View()).Dead?
      ensures AllOffered(pending, View(), cfg)
      ensures OnlyQueues(old(View()), View(), pending, cfg)
    {
      meta, pending := map[], [];
      for i := 0 to |names|
        invariant Inv(View(), cfg)
        invariant meta == MetaOf(names[..i], stored, now, cfg)
        invariant pending == Unanswered(names[..i], stored, now, cfg)
        invariant pending != [] ==> !Current(View()).Dead?
        invariant AllOffered(pending, View(), cfg)
        invariant OnlyQueues(old(View()), View(), pending, cfg)
      {
        PollOneMore(names, i, stored, now, cfg);
        meta := meta[names[i] := Answer(stored, cfg.key(names[i]), now)];
        if !Answered(stored, cfg.key(names[i]), now) {
          pending := pending + [names[i]];
          OfferPending(names[i], old(View()), pending);
        }
      }
      assert names[..|names|] == names;
      PollAnswersAll(names, stored, now, cfg);
    }
  }

  /** A stored row: its entry, None when all its fields are null, and its age. */
  datatype Stored = Stored(entry: Option<string>, fetchedAt: int)

  /** Thirty days, in seconds. */
  const MISS_RETRY: nat := 30 * 24 * 3600

  predicate IsStaleMiss(row: Stored, now: int) {
    row.entry.None? && now - row.fetchedAt >= MISS_RETRY
  }

  /** A row answers unless it is a miss old enough to be looked up again. */
  predicate Answered(stored: map<Key, Stored>, key: Key, now: int) {
    key in stored && !IsStaleMiss(stored[key], now)
  }

  function Answer(stored: map<Key, Stored>, key: Key, now: int): Option<string> {
    if Answered(stored, key, now) then stored[key].entry else None
  }

  /** The names a poll cannot answer from storage. */
  function Unanswered(names: seq<string>, stored: map<Key, Stored>, now: int, cfg: Config): seq<string> {
    if names == [] then []
    else
      var last := names[|names| - 1];
      Unanswered(names[..|names| - 1], stored, now, cfg)
      + (if Answered(stored, cfg.key(last), now) then [] else [last])
  }

  /** What a poll answers, a later name overwriting an equal earlier one. */
  function MetaOf(names: seq<string>, stored: map<Key, Stored>, now: int, cfg: Config): map<string, Option<string>> {
    if names == [] then map[]
    else
      var last := names[|names| - 1];
      MetaOf(names[..|names| - 1], stored, now, cfg)[last := Answer(stored, cfg.key(last), now)]
  }

  lemma PollOneMore(names: seq<string>, i: nat, stored: map<Key, Stored>, now: int, cfg: Config)
    requires i < |names|
    ensures MetaOf(names[..i + 1], stored, now, cfg)
         == MetaOf(names[..i], stored, now, cfg)[names[i] := Answer(stored, cfg.key(names[i]), now)]
    ensures Unanswered(names[..i + 1], stored, now, cfg)
         == Unanswered(names[..i], stored, now, cfg)
            + if Answered(stored, cfg.key(names[i]), now) then [] else [names[i]]
  {
    assert names[..i + 1][..i] == names[..i];
  }

  /** There is no row, or one without any data that is at least thirty days old. */
  ghost predicate WantsLookup(stored: map<Key, Stored>, key: Key, now: int) {
    key !in stored || (stored[key].entry == None && now >= stored[key].fetchedAt + 2_592_000)
  }

  /** Every name asked for is answered from its own row, and `pending` are those that want
      a lookup, as asked for. */
  ghost predicate PollAnswer(meta: map<string, Option<string>>, pending: seq<string>, names: seq<string>,
                             stored: map<Key, Stored>, now: int, cfg: Config)
  {
    && (forall name :: name in meta <==> name in names)
    && (forall name | name in meta :: meta[name]
          == if WantsLookup(stored, cfg.key(name), now) then None else stored[cfg.key(name)].entry)
    && exists idx :: Picks(idx, names, pending)
         && forall i: nat | i < |names| :: i in idx <==> WantsLookup(stored, cfg.key(names[i]), now)
  }

  lemma AnsweredIff(stored: map<Key, Stored>, key: Key, now: int)
    ensures Answered(stored, key, now) <==> !WantsLookup(stored, key, now)
  {}

  lemma {:induction false} UnansweredPicks(names: seq<string>, stored: map<Key, Stored>, now: int, cfg: Config)
    returns (idx: seq<nat>)
    ensures Picks(idx, names, Unanswered(names, stored, now, cfg))
    ensures forall i: nat | i < |names| :: i in idx <==> WantsLookup(stored, cfg.key(names[i]), now)
  {
    if names == [] {
      idx := [];
    } else {
      var n := |names| - 1;
      idx := UnansweredPicks(names[..n], stored, now, cfg);
      PicksSnoc(idx, names[..n], Unanswered(names[..n], stored, now, cfg), names[n]);
      assert names == names[..n] + [names[n]];
      if WantsLookup(stored, cfg.key(names[n]), now) {
        idx := idx + [n];
      }
    }
  }

  lemma {:induction false} MetaAnswers(names: seq<string>, stored: map<Key, Stored>, now: int, cfg: Config)
    ensures var meta := MetaOf(names, stored, now, cfg);
            && (forall name :: name in meta <==> name in names)
            && forall name | name in meta :: meta[name]
                 == if WantsLookup(stored, cfg.key(name), now) then None else stored[cfg.key(name)].entry
  {
    if names != [] {
      var n := |names| - 1;
      MetaAnswers(names[..n], stored, now, cfg);
      AnsweredIff(stored, cfg.key(names[n]), now);
      assert names == names[..n] + [names[n]];
    }
  }

  lemma PollAnswersAll(names: seq<string>, stored: map<Key, Stored>, now: int, cfg: Config)
    ensures PollAnswer(MetaOf(names, stored, now, cfg), Unanswered(names, stored, now, cfg), names, stored, now, cfg)
  {
    MetaAnswers(names, stored, now, cfg);
    var _ := UnansweredPicks(names, stored, now, cfg);
  }
}
