/** Candidate generation from two sources: every seed's similar artists from Last.fm,
    fail-closed, and from ListenBrainz, fail-open within a budget, merged by
    normalized name with the seeds that recommended each.

    Answers arrive in any order, each at its time; what each seed's lookup answers is
    fixed. Names normalize by a parameter. */
module Candidates {
  import opened Ordering

  datatype SourceSet = SourceSet(lastfm: bool, listenbrainz: bool)
  datatype Prov = Prov(display: string, recs: map<string, SourceSet>)
  type ProvMap = map<string, Prov>

  /** How one spawned lookup ended. */
  datatype Lookup =
    | Similar(seed: string, names: seq<string>)
    | Permanent(seed: string)
    | Transient(seed: string)
    | TaskFailed

  datatype Result<T> = Ok(value: T) | Err(message: string)

  predicate Fatal(l: Lookup) {
    l.Transient? || l.TaskFailed?
  }

  const NO_SOURCE := SourceSet(false, false)

  function Mark(s: SourceSet, lastfm: bool): SourceSet {
    if lastfm then s.(lastfm := true) else s.(listenbrainz := true)
  }

  /** Credit `seed` for the candidate `name`; the first spelling seen is displayed. */
  function Credit(prov: ProvMap, seed: string, name: string, lastfm: bool, norm: string -> string): ProvMap {
    var entry := if norm(name) in prov then prov[norm(name)] else Prov(name, map[]);
    var cur := if seed in entry.recs then entry.recs[seed] else NO_SOURCE;
    prov[norm(name) := entry.(recs := entry.recs[seed := Mark(cur, lastfm)])]
  }

  function CreditAll(prov: ProvMap, seed: string, names: seq<string>, lastfm: bool, norm: string -> string): ProvMap {
    if names == [] then prov
    else
      var n := |names| - 1;
      Credit(CreditAll(prov, seed, names[..n], lastfm, norm), seed, names[n], lastfm, norm)
  }

  /** The provenance map after a list of lookups, in arrival order. */
  function Gather(done: seq<Lookup>, lastfm: bool, norm: string -> string): ProvMap {
    if done == [] then map[]
    else
      var n := |done| - 1;
      var prov := Gather(done[..n], lastfm, norm);
      if done[n].Similar? then CreditAll(prov, done[n].seed, done[n].names, lastfm, norm) else prov
  }

  lemma GatherOneMore(done: seq<Lookup>, l: Lookup, lastfm: bool, norm: string -> string)
    ensures Gather(done + [l], lastfm, norm)
         == if l.Similar? then CreditAll(Gather(done, lastfm, norm), l.seed, l.names, lastfm, norm)
            else Gather(done, lastfm, norm)
  {
    assert (done + [l])[..|done|] == done;
  }

  /** The loop over one answer's names. */
  method CreditNames(prov: ProvMap, seed: string, names: seq<string>, lastfm: bool, norm: string -> string)
    returns (next: ProvMap)
    ensures next == CreditAll(prov, seed, names, lastfm, norm)
  {
    next := prov;
    for j := 0 to |names|
      invariant next == CreditAll(prov, seed, names[..j], lastfm, norm)
    {
      assert names[..j + 1][..j] == names[..j];
      next := Credit(next, seed, names[j], lastfm, norm);
    }
    assert names[..|names|] == names;
  }

  // ── what each arm comes to ────────────────────────────────────────────────

  function ErrorOf(l: Lookup): string {
    if l.Transient? then "similar-artist fetch failed for seed '" + l.seed + "'" else "similar-artist task failed"
  }

  /** Fail-closed: the first fatal answer ends the build, whatever was gathered. */
  function LastfmOutcome(arrivals: seq<Lookup>, norm: string -> string): Result<ProvMap> {
    if arrivals == [] then Ok(map[])
    else
      var n := |arrivals| - 1;
      var before := LastfmOutcome(arrivals[..n], norm);
      if before.Err? then before
      else if Fatal(arrivals[n]) then Err(ErrorOf(arrivals[n]))
      else Ok(Gather(arrivals, true, norm))
  }

  lemma {:induction false} LastfmOutcomeIs(arrivals: seq<Lookup>, norm: string -> string)
    ensures LastfmOutcome(arrivals, norm).Err? <==> exists l | l in arrivals :: Fatal(l)
    ensures LastfmOutcome(arrivals, norm).Ok? ==> LastfmOutcome(arrivals, norm).value == Gather(arrivals, true, norm)
  {
    if arrivals != [] {
      var n := |arrivals| - 1;
      LastfmOutcomeIs(arrivals[..n], norm);
      assert arrivals == arrivals[..n] + [arrivals[n]];
    }
  }

  /** The first fatal answer is reported, however the run goes on. */
  lemma {:induction false} FirstFatalDecides(a: seq<Lookup>, b: seq<Lookup>, norm: string -> string)
    requires LastfmOutcome(a, norm).Err?
    ensures LastfmOutcome(a + b, norm) == LastfmOutcome(a, norm)
  {
    if b == [] {
      assert a + b == a;
    } else {
      var n := |b| - 1;
      assert (a + b)[..|a| + n] == a + b[..n];
      FirstFatalDecides(a, b[..n], norm);
    }
  }

  /** A ListenBrainz lookup and when it completes. */
  datatype Timed = Timed(lookup: Lookup, at: int)

  /** The lookups completed by the deadline. */
  function InTime(lookups: seq<Timed>, deadline: int): seq<Lookup> {
    if lookups == [] then []
    else
      var n := |lookups| - 1;
      InTime(lookups[..n], deadline) + (if lookups[n].at <= deadline then [lookups[n].lookup] else [])
  }

  ghost predicate AllBy(lookups: seq<Timed>, deadline: int) {
    forall t | t in lookups :: t.at <= deadline
  }

  ghost predicate AllAfter(lookups: seq<Timed>, deadline: int) {
    forall t | t in lookups :: t.at > deadline
  }

  lemma {:induction false} InTimeSplit(a: seq<Timed>, b: seq<Timed>, deadline: int)
    ensures InTime(a + b, deadline) == InTime(a, deadline) + InTime(b, deadline)
  {
    if b == [] {
      assert a + b == a;
    } else {
      var n := |b| - 1;
      assert (a + b)[..|a| + n] == a + b[..n];
      InTimeSplit(a, b[..n], deadline);
    }
  }

  lemma {:induction false} NoneInTime(lookups: seq<Timed>, deadline: int)
    requires AllAfter(lookups, deadline)
    ensures InTime(lookups, deadline) == []
  {
    if lookups != [] {
      assert lookups[|lookups| - 1] in lookups;
      NoneInTime(lookups[..|lookups| - 1], deadline);
    }
  }

  // ── the arms ──────────────────────────────────────────────────────────────

  method BuildLastfmProv(arrivals: seq<Lookup>, norm: string -> string) returns (r: Result<ProvMap>)
    ensures r == LastfmOutcome(arrivals, norm)
  {
    var prov: ProvMap := map[];
    for i := 0 to |arrivals|
      invariant LastfmOutcome(arrivals[..i], norm) == Ok(prov) && prov == Gather(arrivals[..i], true, norm)
    {
      var l := arrivals[i];
      assert arrivals[..i + 1] == arrivals[..i] + [l];
      GatherOneMore(arrivals[..i], l, true, norm);
      if Fatal(l) {
        assert arrivals == arrivals[..i + 1] + arrivals[i + 1..];
        FirstFatalDecides(arrivals[..i + 1], arrivals[i + 1..], norm);
        return Err(ErrorOf(l));
      }
      if l.Similar? {
        prov := CreditNames(prov, l.seed, l.names, true, norm);
      }
    }
    assert arrivals[..|arrivals|] == arrivals;
    r := Ok(prov);
  }

  ghost predicate InOrder(lookups: seq<Timed>) {
    forall i, j | 0 <= i < j < |lookups| :: lookups[i].at <= lookups[j].at
  }

  /** Fail-open: lookups are taken as they complete until the deadline passes with one
      still out. Failed lookups answer with no neighbours. */
  method BuildListenbrainzProv(lookups: seq<Timed>, deadline: int, norm: string -> string)
    returns (prov: ProvMap, degraded: bool)
    requires InOrder(lookups)
    ensures prov == Gather(InTime(lookups, deadline), false, norm)
    ensures degraded <==> !AllBy(lookups, deadline)
  {
    prov, degraded := map[], false;
    for i := 0 to |lookups|
      invariant AllBy(lookups[..i], deadline)
      invariant prov == Gather(InTime(lookups[..i], deadline), false, norm)
    {
      var t := lookups[i];
      if t.at > deadline {
        LateFromHere(lookups, i, deadline);
        return prov, true;
      }
      InTimeOneMore(lookups, i, deadline, norm);
      if t.lookup.Similar? {
        prov := CreditNames(prov, t.lookup.seed, t.lookup.names, false, norm);
      }
    }
    assert lookups[..|lookups|] == lookups;
  }

  /** A lookup in time joins what is gathered. */
  lemma InTimeOneMore(lookups: seq<Timed>, i: nat, deadline: int, norm: string -> string)
    requires i < |lookups| && lookups[i].at <= deadline && AllBy(lookups[..i], deadline)
    ensures AllBy(lookups[..i + 1], deadline)
    ensures var l, before := lookups[i].lookup, Gather(InTime(lookups[..i], deadline), false, norm);
            Gather(InTime(lookups[..i + 1], deadline), false, norm)
              == if l.Similar? then CreditAll(before, l.seed, l.names, false, norm) else before
  {
    assert lookups[..i + 1] == lookups[..i] + [lookups[i]];
    assert lookups[..i + 1][..i] == lookups[..i];
    GatherOneMore(InTime(lookups[..i], deadline), lookups[i].lookup, false, norm);
  }

  /** Once one lookup is late, so is the rest, and nothing in time is missed. */
  lemma LateFromHere(lookups: seq<Timed>, i: nat, deadline: int)
    requires InOrder(lookups) && i < |lookups| && lookups[i].at > deadline
    ensures InTime(lookups, deadline) == InTime(lookups[..i], deadline) && !AllBy(lookups, deadline)
  {
    assert lookups[i] in lookups;
    assert lookups == lookups[..i] + lookups[i..];
    InTimeSplit(lookups[..i], lookups[i..], deadline);
    NoneInTime(lookups[i..], deadline);
  }

  // ── the race ──────────────────────────────────────────────────────────────

  /** One completed lookup of either arm, as the race sees them interleaved. */
  datatype Arrival = Lastfm(lookup: Lookup, at: int) | Listenbrainz(lookup: Lookup, at: int)

  function LastfmPart(run: seq<Arrival>): seq<Lookup> {
    if run == [] then []
    else
      var last := run[|run| - 1];
      LastfmPart(run[..|run| - 1]) + (if last.Lastfm? then [last.lookup] else [])
  }

  function ListenbrainzPart(run: seq<Arrival>): seq<Timed> {
    if run == [] then []
    else
      var last := run[|run| - 1];
      ListenbrainzPart(run[..|run| - 1]) + (if last.Listenbrainz? then [Timed(last.lookup, last.at)] else [])
  }

  ghost predicate Chronological(run: seq<Arrival>) {
    forall i, j | 0 <= i < j < |run| :: run[i].at <= run[j].at
  }

  lemma {:induction false} LastfmSplit(a: seq<Arrival>, b: seq<Arrival>)
    ensures LastfmPart(a + b) == LastfmPart(a) + LastfmPart(b)
  {
    if b == [] {
      assert a + b == a;
    } else {
      var n := |b| - 1;
      assert (a + b)[..|a| + n] == a + b[..n];
      LastfmSplit(a, b[..n]);
    }
  }

  lemma {:induction false} ListenbrainzSplit(a: seq<Arrival>, b: seq<Arrival>)
    ensures ListenbrainzPart(a + b) == ListenbrainzPart(a) + ListenbrainzPart(b)
  {
    if b == [] {
      assert a + b == a;
    } else {
      var n := |b| - 1;
      assert (a + b)[..|a| + n] == a + b[..n];
      ListenbrainzSplit(a, b[..n]);
    }
  }

  lemma PartsSplit(a: seq<Arrival>, b: seq<Arrival>)
    ensures LastfmPart(a + b) == LastfmPart(a) + LastfmPart(b)
    ensures ListenbrainzPart(a + b) == ListenbrainzPart(a) + ListenbrainzPart(b)
  {
    LastfmSplit(a, b);
    ListenbrainzSplit(a, b);
  }

  lemma {:induction false} PartIsDrawn(run: seq<Arrival>, t: Timed) returns (j: nat)
    requires t in ListenbrainzPart(run)
    ensures j < |run| && run[j] == Listenbrainz(t.lookup, t.at)
  {
    var n := |run| - 1;
    if t in ListenbrainzPart(run[..n]) {
      j := PartIsDrawn(run[..n], t);
    } else {
      j := n;
    }
  }

  /** The ListenBrainz arm once it has resolved. */
  ghost predicate LbOutcome(prov: ProvMap, degraded: bool, lookups: seq<Timed>, deadline: int, norm: string -> string) {
    && prov == Gather(InTime(lookups, deadline), false, norm)
    && (degraded <==> !AllBy(lookups, deadline))
  }

  lemma RestIsLate(run: seq<Arrival>, i: nat, deadline: int)
    requires Chronological(run) && i < |run| && run[i].at > deadline
    ensures AllAfter(ListenbrainzPart(run[i..]), deadline)
  {
    forall t | t in ListenbrainzPart(run[i..]) ensures t.at > deadline {
      var j := PartIsDrawn(run[i..], t);
      assert run[i..][j] == run[i + j];
    }
  }

  /** The first late arrival with a lookup still out settles the ListenBrainz arm. */
  lemma DeadlineSettles(run: seq<Arrival>, i: nat, deadline: int, prov: ProvMap, norm: string -> string)
    requires Chronological(run) && i < |run| && run[i].at > deadline
    requires prov == Gather(InTime(ListenbrainzPart(run[..i]), deadline), false, norm)
    requires |ListenbrainzPart(run[..i])| < |ListenbrainzPart(run)|
    ensures LbOutcome(prov, true, ListenbrainzPart(run), deadline, norm)
  {
    RestIsLate(run, i, deadline);
    assert run == run[..i] + run[i..];
    PartsSplit(run[..i], run[i..]);
    LateTail(ListenbrainzPart(run[..i]), ListenbrainzPart(run[i..]), deadline);
  }

  lemma LateTail(early: seq<Timed>, late: seq<Timed>, deadline: int)
    requires late != [] && AllAfter(late, deadline)
    ensures InTime(early + late, deadline) == InTime(early, deadline) && !AllBy(early + late, deadline)
  {
    InTimeSplit(early, late, deadline);
    NoneInTime(late, deadline);
    assert late[0] in late && late[0] in early + late;
  }

  /** One more arrival, on either side. */
  lemma PartsOneMore(run: seq<Arrival>, i: nat)
    requires i < |run|
    ensures LastfmPart(run[..i + 1]) == LastfmPart(run[..i]) + (if run[i].Lastfm? then [run[i].lookup] else [])
    ensures ListenbrainzPart(run[..i + 1])
         == ListenbrainzPart(run[..i]) + (if run[i].Listenbrainz? then [Timed(run[i].lookup, run[i].at)] else [])
    ensures |LastfmPart(run[..i + 1])| <= |LastfmPart(run)|
    ensures |ListenbrainzPart(run[..i + 1])| <= |ListenbrainzPart(run)|
  {
    assert run[..i + 1][..i] == run[..i];
    assert run == run[..i + 1] + run[i + 1..];
    PartsSplit(run[..i + 1], run[i + 1..]);
  }

  /** A whole part has arrived when nothing more is to come. */
  lemma PartIsWhole(run: seq<Arrival>, i: nat)
    requires i <= |run|
    ensures |LastfmPart(run[..i])| == |LastfmPart(run)| ==> LastfmPart(run[..i]) == LastfmPart(run)
    ensures |ListenbrainzPart(run[..i])| == |ListenbrainzPart(run)| ==>
              ListenbrainzPart(run[..i]) == ListenbrainzPart(run)
    ensures |LastfmPart(run[..i])| <= |LastfmPart(run)|
    ensures i == |run| ==> run[..i] == run
  {
    assert run == run[..i] + run[i..];
    PartsSplit(run[..i], run[i..]);
  }

  /** The Last.fm side of the race after some of its lookups arrived. */
  ghost predicate LastfmSide(prov: ProvMap, arrived: seq<Lookup>, norm: string -> string) {
    LastfmOutcome(arrived, norm) == Ok(prov) && prov == Gather(arrived, true, norm)
  }

  /** The ListenBrainz side: still open with everything so far in time, or resolved. */
  ghost predicate LbSide(prov: ProvMap, resolved: Option<bool>, arrived: seq<Timed>, all: seq<Timed>, deadline: int,
                         norm: string -> string)
  {
    if resolved.Some? then LbOutcome(prov, resolved.value, all, deadline, norm)
    else AllBy(arrived, deadline) && |arrived| < |all| && prov == Gather(InTime(arrived, deadline), false, norm)
  }

  /** The ListenBrainz side takes one more lookup in time, the last one closing it. */
  lemma LbTakes(prov: ProvMap, t: Timed, arrived: seq<Timed>, all: seq<Timed>, deadline: int, norm: string -> string)
    requires LbSide(prov, None, arrived, all, deadline, norm) && t.at <= deadline
    requires |arrived + [t]| == |all| ==> arrived + [t] == all
    ensures var next := if t.lookup.Similar? then CreditAll(prov, t.lookup.seed, t.lookup.names, false, norm) else prov;
            LbSide(next, if |arrived| + 1 == |all| then Some(false) else None, arrived + [t], all, deadline, norm)
  {
    InTimeSplit(arrived, [t], deadline);
    assert InTime([t], deadline) == [t.lookup] by { assert [t][..0] == []; }
    GatherOneMore(InTime(arrived, deadline), t.lookup, false, norm);
  }

  method TakeLastfm(prov: ProvMap, l: Lookup, ghost arrived: seq<Lookup>, norm: string -> string)
    returns (r: Result<ProvMap>)
    requires LastfmSide(prov, arrived, norm)
    ensures r == LastfmOutcome(arrived + [l], norm)
    ensures r.Ok? ==> LastfmSide(r.value, arrived + [l], norm)
  {
    assert (arrived + [l])[..|arrived|] == arrived;
    GatherOneMore(arrived, l, true, norm);
    if Fatal(l) { return Err(ErrorOf(l)); }
    if l.Similar? {
      var next := CreditNames(prov, l.seed, l.names, true, norm);
      return Ok(next);
    }
    r := Ok(prov);
  }

  method TakeListenbrainz(prov: ProvMap, t: Timed, left: nat, ghost arrived: seq<Timed>, ghost all: seq<Timed>,
                          deadline: int, norm: string -> string)
    returns (next: ProvMap, done: Option<bool>)
    requires LbSide(prov, None, arrived, all, deadline, norm) && t.at <= deadline
    requires left == |all| - |arrived|
    requires |arrived + [t]| == |all| ==> arrived + [t] == all
    ensures done == if left == 1 then Some(false) else None
    ensures LbSide(next, done, arrived + [t], all, deadline, norm)
  {
    LbTakes(prov, t, arrived, all, deadline, norm);
    next := prov;
    if t.lookup.Similar? {
      next := CreditNames(prov, t.lookup.seed, t.lookup.names, false, norm);
    }
    done := if left == 1 then Some(false) else None;
  }

  lemma FatalEndsTheRace(run: seq<Arrival>, i: nat, norm: string -> string)
    requires i <= |run| && LastfmOutcome(LastfmPart(run[..i]), norm).Err?
    ensures LastfmOutcome(LastfmPart(run), norm) == LastfmOutcome(LastfmPart(run[..i]), norm)
  {
    assert run == run[..i] + run[i..];
    PartsSplit(run[..i], run[i..]);
    FirstFatalDecides(LastfmPart(run[..i]), LastfmPart(run[i..]), norm);
  }

  /** Where the race stands: what each arm has gathered and how much it still waits for. */
  datatype Race = Race(lastfm: ProvMap, lastfmLeft: int, lb: ProvMap, lbLeft: int, lbDone: Option<bool>)

  /** The race after the first arrivals, `lfIn` and `lbIn`, of all that is to come. */
  ghost predicate Racing(race: Race, lfIn: seq<Lookup>, lbIn: seq<Timed>, lf: seq<Lookup>, lb: seq<Timed>,
                         deadline: int, norm: string -> string)
  {
    && race.lastfmLeft == |lf| - |lfIn|
    && LastfmSide(race.lastfm, lfIn, norm)
    && (race.lbDone.None? ==> race.lbLeft == |lb| - |lbIn|)
    && LbSide(race.lb, race.lbDone, lbIn, lb, deadline, norm)
  }

  /** The deadline, seen before an arrival is taken. */
  method CheckDeadline(race: Race, run: seq<Arrival>, i: nat, ghost lfIn: seq<Lookup>, ghost lbIn: seq<Timed>,
                       ghost lf: seq<Lookup>, ghost lb: seq<Timed>, deadline: int, norm: string -> string)
    returns (next: Race)
    requires Chronological(run) && i < |run| && lbIn == ListenbrainzPart(run[..i]) && lb == ListenbrainzPart(run)
    requires Racing(race, lfIn, lbIn, lf, lb, deadline, norm)
    ensures Racing(next, lfIn, lbIn, lf, lb, deadline, norm)
    ensures next.lbDone.None? ==> run[i].at <= deadline
  {
    next := race;
    if race.lbDone.None? && run[i].at > deadline {
      DeadlineSettles(run, i, deadline, race.lb, norm);
      next := race.(lbDone := Some(true));
    }
  }

  /** One arrival; a fatal one of Last.fm's gives its error. */
  method TakeArrival(race: Race, arrival: Arrival, ghost lfIn: seq<Lookup>, ghost lbIn: seq<Timed>,
                     ghost lf: seq<Lookup>, ghost lb: seq<Timed>, deadline: int, norm: string -> string)
    returns (r: Result<Race>, ghost lfIn': seq<Lookup>, ghost lbIn': seq<Timed>)
    requires Racing(race, lfIn, lbIn, lf, lb, deadline, norm)
    requires race.lbDone.None? ==> arrival.at <= deadline
    requires arrival.Listenbrainz? && |lbIn| + 1 == |lb| ==> lbIn + [Timed(arrival.lookup, arrival.at)] == lb
    ensures lfIn' == lfIn + (if arrival.Lastfm? then [arrival.lookup] else [])
    ensures lbIn' == lbIn + (if arrival.Listenbrainz? then [Timed(arrival.lookup, arrival.at)] else [])
    ensures r.Ok? ==> Racing(r.value, lfIn', lbIn', lf, lb, deadline, norm)
    ensures r.Err? ==> LastfmOutcome(lfIn', norm) == Err(r.message)
  {
    lfIn', lbIn' := lfIn, lbIn;
    match arrival
    case Lastfm(l, _) =>
      lfIn' := lfIn + [l];
      var next := TakeLastfm(race.lastfm, l, lfIn, norm);
      if next.Err? { return Err(next.message), lfIn', lbIn'; }
      r := Ok(race.(lastfm := next.value, lastfmLeft := race.lastfmLeft - 1));
    case Listenbrainz(l, at) =>
      lbIn' := lbIn + [Timed(l, at)];
      if race.lbDone.Some? { return Ok(race), lfIn', lbIn'; }
      var prov, done := TakeListenbrainz(race.lb, Timed(l, at), race.lbLeft, lbIn, lb, deadline, norm);
      r := Ok(race.(lb := prov, lbLeft := race.lbLeft - 1, lbDone := done));
  }

  /** One turn of the race: the deadline first, then the next arrival. */
  method RaceStep(race: Race, run: seq<Arrival>, i: nat, ghost lfIn: seq<Lookup>, ghost lbIn: seq<Timed>,
                  ghost lf: seq<Lookup>, ghost lb: seq<Timed>, deadline: int, norm: string -> string)
    returns (r: Result<Race>, ghost lfIn': seq<Lookup>, ghost lbIn': seq<Timed>)
    requires Chronological(run) && i < |run| && lf == LastfmPart(run) && lb == ListenbrainzPart(run)
    requires lfIn == LastfmPart(run[..i]) && lbIn == ListenbrainzPart(run[..i])
    requires Racing(race, lfIn, lbIn, lf, lb, deadline, norm)
    ensures lfIn' == LastfmPart(run[..i + 1]) && lbIn' == ListenbrainzPart(run[..i + 1])
    ensures r.Ok? ==> Racing(r.value, lfIn', lbIn', lf, lb, deadline, norm)
    ensures r.Err? ==> LastfmOutcome(lf, norm) == Err(r.message)
  {
    var checked := CheckDeadline(race, run, i, lfIn, lbIn, lf, lb, deadline, norm);
    PartsOneMore(run, i);
    PartIsWhole(run, i + 1);
    r, lfIn', lbIn' := TakeArrival(checked, run[i], lfIn, lbIn, lf, lb, deadline, norm);
    if r.Err? {
      FatalEndsTheRace(run, i + 1, norm);
    }
  }

  /** The two arms side by side, for any interleaving of their lookups. A fatal Last.fm
      answer returns at once and drops the other arm; the ListenBrainz arm resolves when
      its last lookup is in, or when the deadline passes with one still out. The
      outcome is that of running the arms one after the other. */
  method RaceArms(blend: bool, run: seq<Arrival>, deadline: int, norm: string -> string)
    returns (r: Result<(Option<ProvMap>, ProvMap, bool)>)
    requires Chronological(run)
    requires !blend ==> LastfmPart(run) == []
    ensures r.Err? <==> LastfmOutcome(LastfmPart(run), norm).Err?
    ensures r.Err? ==> r.message == LastfmOutcome(LastfmPart(run), norm).message
    ensures r.Ok? ==> r.value.0 == if blend then Some(LastfmOutcome(LastfmPart(run), norm).value) else None
    ensures r.Ok? ==> LbOutcome(r.value.1, r.value.2, ListenbrainzPart(run), deadline, norm)
  {
    ghost var lf, lb := LastfmPart(run), ListenbrainzPart(run);
    var lbLeft := |ListenbrainzPart(run)|;
    var race := Race(map[], |LastfmPart(run)|, map[], lbLeft, if lbLeft == 0 then Some(false) else None);
    ghost var lfIn: seq<Lookup>, lbIn: seq<Timed> := [], [];
    var i := 0;
    while i < |run| && (race.lastfmLeft > 0 || race.lbDone.None?)
      invariant i <= |run| && lfIn == LastfmPart(run[..i]) && lbIn == ListenbrainzPart(run[..i])
      invariant Racing(race, lfIn, lbIn, lf, lb, deadline, norm)
    {
      var next: Result<Race>;
      next, lfIn, lbIn := RaceStep(race, run, i, lfIn, lbIn, lf, lb, deadline, norm);
      if next.Err? { return Err(next.message); }
      race := next.value;
      i := i + 1;
    }
    PartIsWhole(run, i);
    r := RaceResult(blend, race, lfIn, lbIn, lf, lb, deadline, norm);
  }

  /** Both arms are done once everything of Last.fm's is in and ListenBrainz has resolved. */
  method RaceResult(blend: bool, race: Race, ghost lfIn: seq<Lookup>, ghost lbIn: seq<Timed>, ghost lf: seq<Lookup>,
                    ghost lb: seq<Timed>, deadline: int, norm: string -> string)
    returns (r: Result<(Option<ProvMap>, ProvMap, bool)>)
    requires Racing(race, lfIn, lbIn, lf, lb, deadline, norm) && lfIn == lf && race.lbDone.Some?
    ensures r.Ok? && r.value.0 == if blend then Some(LastfmOutcome(lf, norm).value) else None
    ensures LastfmOutcome(lf, norm).Ok? && LbOutcome(r.value.1, r.value.2, lb, deadline, norm)
  {
    r := Ok((if blend then Some(race.lastfm) else None, race.lb, race.lbDone.value));
  }

  // ── the merge ─────────────────────────────────────────────────────────────

  function Or(a: SourceSet, b: SourceSet): SourceSet {
    SourceSet(a.lastfm || b.lastfm, a.listenbrainz || b.listenbrainz)
  }

  function RecsOf(prov: ProvMap, key: string): map<string, SourceSet> {
    if key in prov then prov[key].recs else map[]
  }

  function FlagsOf(recs: map<string, SourceSet>, seed: string): SourceSet {
    if seed in recs then recs[seed] else NO_SOURCE
  }

  function MergedRecs(a: map<string, SourceSet>, b: map<string, SourceSet>): map<string, SourceSet> {
    map seed | seed in a.Keys + b.Keys :: Or(FlagsOf(a, seed), FlagsOf(b, seed))
  }

  /** Union of two maps: the base's display wins, per-seed flags are or-ed. */
  function Merged(base: ProvMap, other: ProvMap): ProvMap {
    map key | key in base.Keys + other.Keys ::
      Prov(if key in base then base[key].display else other[key].display,
           MergedRecs(RecsOf(base, key), RecsOf(other, key)))
  }

  /** `recs` is the merge so far, with the seeds in `done` taken over. */
  ghost predicate MergingRecs(recs: map<string, SourceSet>, base: map<string, SourceSet>,
                              other: map<string, SourceSet>, done: set<string>)
  {
    && (forall seed :: seed in recs <==> seed in base || (seed in other && seed in done))
    && (forall seed | seed in recs :: recs[seed]
          == Or(FlagsOf(base, seed), if seed in done then FlagsOf(other, seed) else NO_SOURCE))
  }

  lemma MergingRecsEnds(recs: map<string, SourceSet>, base: map<string, SourceSet>,
                        other: map<string, SourceSet>, done: set<string>)
    requires MergingRecs(recs, base, other, done) && forall seed | seed in other :: seed in done
    ensures recs == MergedRecs(base, other)
  {
    assert recs.Keys == MergedRecs(base, other).Keys;
  }

  method MergeRecs(base: map<string, SourceSet>, other: map<string, SourceSet>)
    returns (recs: map<string, SourceSet>)
    ensures recs == MergedRecs(base, other)
  {
    recs := base;
    var todo := other.Keys;
    ghost var done: set<string> := {};
    while todo != {}
      invariant forall seed :: seed in other <==> seed in todo || seed in done
      invariant todo !! done
      invariant MergingRecs(recs, base, other, done)
      decreases |todo|
    {
      var seed :| seed in todo;
      var cur := if seed in recs then recs[seed] else NO_SOURCE;
      cur := cur.(lastfm := cur.lastfm || other[seed].lastfm);
      cur := cur.(listenbrainz := cur.listenbrainz || other[seed].listenbrainz);
      recs := recs[seed := cur];
      todo, done := todo - {seed}, done + {seed};
    }
    MergingRecsEnds(recs, base, other, done);
  }

  ghost predicate Merging(prov: ProvMap, base: ProvMap, other: ProvMap, done: set<string>) {
    && (forall key :: key in prov <==> key in base || (key in other && key in done))
    && (forall key | key in prov :: prov[key] == if key in done then Merged(base, other)[key] else base[key])
  }

  lemma MergingOneKey(prov: ProvMap, base: ProvMap, other: ProvMap, done: set<string>, key: string)
    requires Merging(prov, base, other, done) && key in other && key !in done
    requires forall k | k in done :: k in other
    ensures var entry := if key in prov then prov[key] else Prov(other[key].display, map[]);
            Merging(prov[key := entry.(recs := MergedRecs(entry.recs, other[key].recs))], base, other, done + {key})
  {
    assert key in Merged(base, other);
  }

  /** The in-place merge, walking the other map and its seeds in any order. */
  method MergeProv(base: ProvMap, other: ProvMap) returns (merged: ProvMap)
    ensures merged == Merged(base, other)
  {
    merged := base;
    var todo := other.Keys;
    ghost var done: set<string> := {};
    while todo != {}
      invariant forall key :: key in other <==> key in todo || key in done
      invariant todo !! done
      invariant Merging(merged, base, other, done)
      decreases |todo|
    {
      var key :| key in todo;
      MergingOneKey(merged, base, other, done, key);
      var entry := if key in merged then merged[key] else Prov(other[key].display, map[]);
      var recs := MergeRecs(entry.recs, other[key].recs);
      merged := merged[key := entry.(recs := recs)];
      todo, done := todo - {key}, done + {key};
    }
    MergingEnds(merged, base, other, done);
  }

  lemma MergingEnds(prov: ProvMap, base: ProvMap, other: ProvMap, done: set<string>)
    requires Merging(prov, base, other, done) && forall key :: key in other <==> key in done
    ensures prov == Merged(base, other)
  {
    assert prov.Keys == Merged(base, other).Keys;
    forall key | key in prov && key !in done ensures prov[key] == Merged(base, other)[key] {
      assert MergedRecs(base[key].recs, map[]) == base[key].recs;
    }
  }

  // ── what the outcome is ───────────────────────────────────────────────────

  ghost predicate Listed(names: seq<string>, key: string, norm: string -> string) {
    exists name | name in names :: norm(name) == key
  }

  /** Some lookup off `seed` listed a name that normalizes to `key`. Nothing here
      depends on the order of the lookups. */
  ghost predicate Recommends(done: seq<Lookup>, seed: string, key: string, norm: string -> string) {
    exists l | l in done :: l.Similar? && l.seed == seed && Listed(l.names, key, norm)
  }

  ghost predicate Credited(prov: ProvMap, seed: string, key: string) {
    key in prov && seed in prov[key].recs
  }

  /** Every candidate has a recommender, and every credit names the one source. */
  ghost predicate OneSource(prov: ProvMap, lastfm: bool) {
    && (forall key | key in prov :: prov[key].recs != map[])
    && (forall key, seed | Credited(prov, seed, key) :: prov[key].recs[seed] == SourceSet(lastfm, !lastfm))
  }

  lemma {:induction false} CreditAllCredits(prov: ProvMap, seed: string, names: seq<string>, lastfm: bool,
                                            norm: string -> string)
    requires OneSource(prov, lastfm)
    ensures var p := CreditAll(prov, seed, names, lastfm, norm);
            && OneSource(p, lastfm)
            && forall k, s :: Credited(p, s, k) <==> Credited(prov, s, k) || (s == seed && Listed(names, k, norm))
  {
    if names != [] {
      var n := |names| - 1;
      var q := CreditAll(prov, seed, names[..n], lastfm, norm);
      CreditAllCredits(prov, seed, names[..n], lastfm, norm);
      CreditCredits(q, seed, names[n], lastfm, norm);
      assert names == names[..n] + [names[n]];
      forall k ensures Listed(names, k, norm) <==> Listed(names[..n], k, norm) || norm(names[n]) == k {}
    }
  }

  lemma CreditCredits(prov: ProvMap, seed: string, name: string, lastfm: bool, norm: string -> string)
    requires OneSource(prov, lastfm)
    ensures var p := Credit(prov, seed, name, lastfm, norm);
            && OneSource(p, lastfm)
            && forall k, s :: Credited(p, s, k) <==> Credited(prov, s, k) || (s == seed && k == norm(name))
  {
    var p := Credit(prov, seed, name, lastfm, norm);
    assert seed in p[norm(name)].recs;
  }

  /** What is gathered is what was recommended. */
  lemma {:induction false} GatherCredits(done: seq<Lookup>, lastfm: bool, norm: string -> string)
    ensures var p := Gather(done, lastfm, norm);
            && OneSource(p, lastfm)
            && forall k, s :: Credited(p, s, k) <==> Recommends(done, s, k, norm)
  {
    if done != [] {
      var n := |done| - 1;
      GatherCredits(done[..n], lastfm, norm);
      assert done == done[..n] + [done[n]];
      if done[n].Similar? {
        CreditAllCredits(Gather(done[..n], lastfm, norm), done[n].seed, done[n].names, lastfm, norm);
      }
      forall k, s ensures Recommends(done, s, k, norm) <==>
          Recommends(done[..n], s, k, norm)
          || (done[n].Similar? && s == done[n].seed && Listed(done[n].names, k, norm)) {}
    }
  }

  lemma MergedCredits(a: ProvMap, b: ProvMap, key: string)
    requires OneSource(a, true) && OneSource(b, false)
    ensures var p := Merged(a, b);
            && (key in p <==> exists seed :: Credited(a, seed, key) || Credited(b, seed, key))
            && (forall seed :: Credited(p, seed, key) <==> Credited(a, seed, key) || Credited(b, seed, key))
            && (forall seed | Credited(p, seed, key) ::
                  p[key].recs[seed] == SourceSet(Credited(a, seed, key), Credited(b, seed, key)))
  {
    if key in a || key in b {
      var recs := if key in a then a[key].recs else b[key].recs;
      var seed :| seed in recs;
      assert Credited(a, seed, key) || Credited(b, seed, key);
    }
  }

  /** The merged map holds exactly the recommendations of both sources: a candidate is
      there when somebody recommends it, each recommending seed appears once, and its
      flags say which sources agreed. No arrival order appears on the right. */
  lemma BlendIsWhatWasRecommended(lastfm: seq<Lookup>, lb: seq<Lookup>, norm: string -> string, key: string)
    ensures var p := Merged(Gather(lastfm, true, norm), Gather(lb, false, norm));
            && (key in p <==> exists seed :: Recommends(lastfm, seed, key, norm) || Recommends(lb, seed, key, norm))
            && (forall seed :: Credited(p, seed, key) <==>
                  Recommends(lastfm, seed, key, norm) || Recommends(lb, seed, key, norm))
            && (forall seed | Credited(p, seed, key) :: p[key].recs[seed]
                  == SourceSet(Recommends(lastfm, seed, key, norm), Recommends(lb, seed, key, norm)))
  {
    GatherCredits(lastfm, true, norm);
    GatherCredits(lb, false, norm);
    MergedCredits(Gather(lastfm, true, norm), Gather(lb, false, norm), key);
  }

  lemma RecommendsInAnyOrder(a: seq<Lookup>, b: seq<Lookup>, seed: string, key: string, norm: string -> string)
    requires multiset(a) == multiset(b)
    ensures Recommends(a, seed, key, norm) <==> Recommends(b, seed, key, norm)
  {
    SameElements(a, b);
  }

  /** Maps that credit a candidate alike, with the same flags, hold the same entry. */
  lemma CreditsDecideRecs(p: ProvMap, q: ProvMap, key: string)
    requires key in p <==> key in q
    requires forall seed :: Credited(p, seed, key) <==> Credited(q, seed, key)
    requires forall seed | Credited(p, seed, key) && Credited(q, seed, key) :: p[key].recs[seed] == q[key].recs[seed]
    ensures RecsOf(p, key) == RecsOf(q, key)
  {
    forall seed ensures seed in RecsOf(p, key) <==> seed in RecsOf(q, key) {
      assert Credited(p, seed, key) <==> Credited(q, seed, key);
    }
  }

  /** Two orders of the same lookups, on either side, credit every candidate alike. */
  lemma CreditsIgnoreOrder(lf1: seq<Lookup>, lf2: seq<Lookup>, lb1: seq<Lookup>, lb2: seq<Lookup>,
                           norm: string -> string, key: string)
    requires multiset(lf1) == multiset(lf2) && multiset(lb1) == multiset(lb2)
    ensures var p1, p2 := Merged(Gather(lf1, true, norm), Gather(lb1, false, norm)),
                          Merged(Gather(lf2, true, norm), Gather(lb2, false, norm));
            (key in p1 <==> key in p2) && RecsOf(p1, key) == RecsOf(p2, key)
  {
    forall seed ensures Recommends(lf1, seed, key, norm) == Recommends(lf2, seed, key, norm)
                     && Recommends(lb1, seed, key, norm) == Recommends(lb2, seed, key, norm)
    {
      RecommendsInAnyOrder(lf1, lf2, seed, key, norm);
      RecommendsInAnyOrder(lb1, lb2, seed, key, norm);
    }
    BlendIsWhatWasRecommended(lf1, lb1, norm, key);
    BlendIsWhatWasRecommended(lf2, lb2, norm, key);
    CreditsDecideRecs(Merged(Gather(lf1, true, norm), Gather(lb1, false, norm)),
                      Merged(Gather(lf2, true, norm), Gather(lb2, false, norm)), key);
  }

  // ── the displayed spelling ────────────────────────────────────────────────

  /** The first spelling a lookup offers for a key. */
  function Spelling(names: seq<string>, key: string, norm: string -> string): Option<string> {
    if names == [] then None
    else if norm(names[0]) == key then Some(names[0])
    else Spelling(names[1..], key, norm)
  }

  function Offer(l: Lookup, key: string, norm: string -> string): Option<string> {
    if l.Similar? then Spelling(l.names, key, norm) else None
  }

  function FirstOffer(done: seq<Lookup>, key: string, norm: string -> string): Option<string> {
    if done == [] then None
    else if Offer(done[0], key, norm).Some? then Offer(done[0], key, norm)
    else FirstOffer(done[1..], key, norm)
  }

  function Display(prov: ProvMap, key: string): Option<string> {
    if key in prov then Some(prov[key].display) else None
  }

  function OrElse(a: Option<string>, b: Option<string>): Option<string> {
    if a.Some? then a else b
  }

  lemma {:induction false} SpellingSnoc(names: seq<string>, last: string, key: string, norm: string -> string)
    ensures Spelling(names + [last], key, norm) == OrElse(Spelling(names, key, norm), Spelling([last], key, norm))
  {
    if names != [] {
      assert (names + [last])[1..] == names[1..] + [last];
      SpellingSnoc(names[1..], last, key, norm);
    }
  }

  lemma {:induction false} CreditAllDisplay(prov: ProvMap, seed: string, names: seq<string>, lastfm: bool,
                                            norm: string -> string, key: string)
    ensures Display(CreditAll(prov, seed, names, lastfm, norm), key)
         == OrElse(Display(prov, key), Spelling(names, key, norm))
  {
    if names != [] {
      var n := |names| - 1;
      CreditAllDisplay(prov, seed, names[..n], lastfm, norm, key);
      SpellingSnoc(names[..n], names[n], key, norm);
      assert names == names[..n] + [names[n]];
      assert [names[n]][1..] == [];
    }
  }

  lemma {:induction false} FirstOfferSnoc(done: seq<Lookup>, last: Lookup, key: string, norm: string -> string)
    ensures FirstOffer(done + [last], key, norm) == OrElse(FirstOffer(done, key, norm), Offer(last, key, norm))
  {
    if done != [] {
      assert (done + [last])[1..] == done[1..] + [last];
      FirstOfferSnoc(done[1..], last, key, norm);
    }
  }

  lemma {:induction false} GatherDisplaysFirstOffer(done: seq<Lookup>, lastfm: bool, norm: string -> string,
                                                    key: string)
    ensures Display(Gather(done, lastfm, norm), key) == FirstOffer(done, key, norm)
  {
    if done != [] {
      var n := |done| - 1;
      GatherDisplaysFirstOffer(done[..n], lastfm, norm, key);
      FirstOfferSnoc(done[..n], done[n], key, norm);
      assert done == done[..n] + [done[n]];
      if done[n].Similar? {
        CreditAllDisplay(Gather(done[..n], lastfm, norm), done[n].seed, done[n].names, lastfm, norm, key);
      }
    }
  }

  /** Every lookup that offers the key at all offers the same spelling first. */
  ghost predicate OneSpelling(done: seq<Lookup>, key: string, norm: string -> string) {
    forall l, m | l in done && m in done && Offer(l, key, norm).Some? && Offer(m, key, norm).Some? ::
      Offer(l, key, norm) == Offer(m, key, norm)
  }

  ghost predicate DisplaySettled(done: seq<Lookup>, lastfm: bool, key: string, norm: string -> string) {
    forall p: seq<Lookup> | multiset(p) == multiset(done) ::
      Display(Gather(p, lastfm, norm), key) == Display(Gather(done, lastfm, norm), key)
  }

  lemma {:induction false} FirstOfferIsOffered(done: seq<Lookup>, key: string, norm: string -> string)
    ensures FirstOffer(done, key, norm).Some? <==> exists l | l in done :: Offer(l, key, norm).Some?
    ensures FirstOffer(done, key, norm).Some? ==>
              exists l | l in done :: Offer(l, key, norm) == FirstOffer(done, key, norm)
  {
    if done != [] {
      FirstOfferIsOffered(done[1..], key, norm);
      assert done == [done[0]] + done[1..];
    }
  }

  lemma OfferCanBeShown(done: seq<Lookup>, l: Lookup, lastfm: bool, key: string, norm: string -> string)
    requires l in done && Offer(l, key, norm).Some? && DisplaySettled(done, lastfm, key, norm)
    ensures Display(Gather(done, lastfm, norm), key) == Offer(l, key, norm)
  {
    var before, after := SplitAround(done, l);
    var p := [l] + (before + after);
    assert multiset(p) == multiset(done);
    GatherDisplaysFirstOffer(p, lastfm, norm, key);
    assert Display(Gather(p, lastfm, norm), key) == Display(Gather(done, lastfm, norm), key);
  }

  /** First arrival wins the display name, so it is the same in every order exactly when
      all lookups spell the candidate alike. */
  lemma DisplaySettledIffOneSpelling(done: seq<Lookup>, lastfm: bool, key: string, norm: string -> string)
    ensures DisplaySettled(done, lastfm, key, norm) <==> OneSpelling(done, key, norm)
  {
    if DisplaySettled(done, lastfm, key, norm) {
      forall l, m | l in done && m in done && Offer(l, key, norm).Some? && Offer(m, key, norm).Some?
        ensures Offer(l, key, norm) == Offer(m, key, norm)
      {
        OfferCanBeShown(done, l, lastfm, key, norm);
        OfferCanBeShown(done, m, lastfm, key, norm);
      }
    }
    if OneSpelling(done, key, norm) {
      forall p: seq<Lookup> | multiset(p) == multiset(done)
        ensures Display(Gather(p, lastfm, norm), key) == Display(Gather(done, lastfm, norm), key)
      {
        SameElements(p, done);
        GatherDisplaysFirstOffer(p, lastfm, norm, key);
        GatherDisplaysFirstOffer(done, lastfm, norm, key);
        FirstOfferIsOffered(p, key, norm);
        FirstOfferIsOffered(done, key, norm);
      }
    }
  }

  lemma MergedDisplay(lastfm: seq<Lookup>, lb: seq<Lookup>, norm: string -> string, key: string)
    ensures Display(Merged(Gather(lastfm, true, norm), Gather(lb, false, norm)), key)
         == OrElse(FirstOffer(lastfm, key, norm), FirstOffer(lb, key, norm))
  {
    GatherDisplaysFirstOffer(lastfm, true, norm, key);
    GatherDisplaysFirstOffer(lb, false, norm, key);
  }

  /** Every completion order of both arms displays the candidate alike. */
  ghost predicate BlendDisplaySettled(lastfm: seq<Lookup>, lb: seq<Lookup>, key: string, norm: string -> string) {
    forall p: seq<Lookup>, q: seq<Lookup> | multiset(p) == multiset(lastfm) && multiset(q) == multiset(lb) ::
      Display(Merged(Gather(p, true, norm), Gather(q, false, norm)), key)
      == Display(Merged(Gather(lastfm, true, norm), Gather(lb, false, norm)), key)
  }

  ghost predicate Offered(done: seq<Lookup>, key: string, norm: string -> string) {
    exists l | l in done :: Offer(l, key, norm).Some?
  }

  lemma OfferedInAnyOrder(p: seq<Lookup>, done: seq<Lookup>, key: string, norm: string -> string)
    requires multiset(p) == multiset(done)
    ensures FirstOffer(p, key, norm).Some? <==> Offered(done, key, norm)
  {
    SameElements(p, done);
    FirstOfferIsOffered(p, key, norm);
  }

  /** The blend's display is settled by Last.fm when any of its lookups offers the
      candidate, and otherwise by ListenBrainz: by whether the arm's lookups agree. */
  lemma BlendDisplaySettledIff(lastfm: seq<Lookup>, lb: seq<Lookup>, key: string, norm: string -> string)
    ensures BlendDisplaySettled(lastfm, lb, key, norm)
       <==> if Offered(lastfm, key, norm) then OneSpelling(lastfm, key, norm) else OneSpelling(lb, key, norm)
  {
    DisplaySettledIffOneSpelling(lastfm, true, key, norm);
    DisplaySettledIffOneSpelling(lb, false, key, norm);
    if BlendDisplaySettled(lastfm, lb, key, norm) {
      BlendSettlesArm(lastfm, lb, key, norm);
    }
    if DecidingArmSettled(lastfm, lb, key, norm) {
      forall p: seq<Lookup>, q: seq<Lookup> | multiset(p) == multiset(lastfm) && multiset(q) == multiset(lb)
        ensures Display(Merged(Gather(p, true, norm), Gather(q, false, norm)), key)
             == Display(Merged(Gather(lastfm, true, norm), Gather(lb, false, norm)), key)
      {
        BlendShows(p, q, lastfm, lb, key, norm);
        BlendShows(lastfm, lb, lastfm, lb, key, norm);
      }
    }
  }

  /** Whichever arm decides, the blend shows what that arm would. */
  lemma BlendShows(p: seq<Lookup>, q: seq<Lookup>, lastfm: seq<Lookup>, lb: seq<Lookup>, key: string,
                   norm: string -> string)
    requires multiset(p) == multiset(lastfm) && multiset(q) == multiset(lb)
    ensures Display(Merged(Gather(p, true, norm), Gather(q, false, norm)), key)
         == if Offered(lastfm, key, norm) then Display(Gather(p, true, norm), key)
            else Display(Gather(q, false, norm), key)
  {
    MergedDisplay(p, q, norm, key);
    GatherDisplaysFirstOffer(p, true, norm, key);
    GatherDisplaysFirstOffer(q, false, norm, key);
    OfferedInAnyOrder(p, lastfm, key, norm);
  }

  ghost predicate DecidingArmSettled(lastfm: seq<Lookup>, lb: seq<Lookup>, key: string, norm: string -> string) {
    if Offered(lastfm, key, norm) then DisplaySettled(lastfm, true, key, norm) else DisplaySettled(lb, false, key, norm)
  }

  lemma BlendSettlesArm(lastfm: seq<Lookup>, lb: seq<Lookup>, key: string, norm: string -> string)
    requires BlendDisplaySettled(lastfm, lb, key, norm)
    ensures DecidingArmSettled(lastfm, lb, key, norm)
  {
    BlendShows(lastfm, lb, lastfm, lb, key, norm);
    if Offered(lastfm, key, norm) {
      forall p: seq<Lookup> | multiset(p) == multiset(lastfm)
        ensures Display(Gather(p, true, norm), key) == Display(Gather(lastfm, true, norm), key)
      {
        BlendShows(p, lb, lastfm, lb, key, norm);
      }
    } else {
      forall q: seq<Lookup> | multiset(q) == multiset(lb)
        ensures Display(Gather(q, false, norm), key) == Display(Gather(lb, false, norm), key)
      {
        BlendShows(lastfm, q, lastfm, lb, key, norm);
      }
    }
  }

  // ── the run itself ────────────────────────────────────────────────────────

  /** The arrival is a lookup of that arm, ListenBrainz's within the deadline. */
  predicate OfArm(a: Arrival, lastfm: bool, deadline: int) {
    if lastfm then a.Lastfm? else a.Listenbrainz? && a.at <= deadline
  }

  function Arm(run: seq<Arrival>, lastfm: bool, deadline: int): seq<Lookup> {
    if lastfm then LastfmPart(run) else InTime(ListenbrainzPart(run), deadline)
  }

  lemma ArmSnoc(run: seq<Arrival>, a: Arrival, lastfm: bool, deadline: int)
    ensures Arm(run + [a], lastfm, deadline)
         == Arm(run, lastfm, deadline) + (if OfArm(a, lastfm, deadline) then [a.lookup] else [])
  {
    assert (run + [a])[..|run|] == run;
    if a.Listenbrainz? {
      var before, t := ListenbrainzPart(run), Timed(a.lookup, a.at);
      assert ListenbrainzPart(run + [a]) == before + [t];
      assert (before + [t])[..|before|] == before;
    } else {
      assert ListenbrainzPart(run + [a]) == ListenbrainzPart(run);
    }
  }

  lemma {:induction false} ArmHas(run: seq<Arrival>, l: Lookup, lastfm: bool, deadline: int)
    ensures l in Arm(run, lastfm, deadline) <==> exists a | a in run :: OfArm(a, lastfm, deadline) && a.lookup == l
  {
    if run != [] {
      var n := |run| - 1;
      ArmHas(run[..n], l, lastfm, deadline);
      ArmSnoc(run[..n], run[n], lastfm, deadline);
      assert run == run[..n] + [run[n]];
    }
  }

  /** An arrival of either arm, in time, in which `seed`'s lookup lists the candidate. */
  ghost predicate Backed(run: seq<Arrival>, deadline: int, seed: string, key: string, norm: string -> string) {
    exists a | a in run :: (a.Lastfm? || a.at <= deadline) && a.lookup.Similar? && a.lookup.seed == seed
      && exists name | name in a.lookup.names :: norm(name) == key
  }

  lemma BackedIff(run: seq<Arrival>, deadline: int, seed: string, key: string, norm: string -> string)
    ensures Backed(run, deadline, seed, key, norm)
       <==> || Recommends(LastfmPart(run), seed, key, norm)
            || Recommends(InTime(ListenbrainzPart(run), deadline), seed, key, norm)
  {
    forall l, lastfm ensures l in Arm(run, lastfm, deadline)
        <==> exists a | a in run :: OfArm(a, lastfm, deadline) && a.lookup == l
    {
      ArmHas(run, l, lastfm, deadline);
    }
    assert LastfmPart(run) == Arm(run, true, deadline);
    assert InTime(ListenbrainzPart(run), deadline) == Arm(run, false, deadline);
    if Backed(run, deadline, seed, key, norm) {
      var a :| a in run && (a.Lastfm? || a.at <= deadline) && a.lookup.Similar? && a.lookup.seed == seed
        && exists name | name in a.lookup.names :: norm(name) == key;
      assert Listed(a.lookup.names, key, norm);
      assert a.lookup in Arm(run, a.Lastfm?, deadline);
    }
  }

  ghost predicate FirstOfKey(display: string, names: seq<string>, key: string, norm: string -> string) {
    exists j :: 0 <= j < |names| && names[j] == display && norm(display) == key
      && forall i | 0 <= i < j :: norm(names[i]) != key
  }

  /** An arrival of the arm, in time, that lists the candidate. */
  ghost predicate Tells(a: Arrival, lastfm: bool, deadline: int, key: string, norm: string -> string) {
    OfArm(a, lastfm, deadline) && a.lookup.Similar? && Listed(a.lookup.names, key, norm)
  }

  /** `display` is the first spelling in the arm's first arrival that lists the candidate. */
  ghost predicate FirstTold(display: string, i: nat, run: seq<Arrival>, lastfm: bool, deadline: int, key: string,
                            norm: string -> string)
  {
    && i < |run| && Tells(run[i], lastfm, deadline, key, norm) && FirstOfKey(display, run[i].lookup.names, key, norm)
    && forall h | 0 <= h < i :: !Tells(run[h], lastfm, deadline, key, norm)
  }

  /** Last.fm's first spelling if it lists the candidate at all, and else ListenBrainz's. */
  ghost predicate ShownAs(display: string, run: seq<Arrival>, deadline: int, key: string, norm: string -> string) {
    if exists a | a in run :: Tells(a, true, deadline, key, norm)
    then exists i: nat :: FirstTold(display, i, run, true, deadline, key, norm)
    else exists i: nat :: FirstTold(display, i, run, false, deadline, key, norm)
  }

  lemma {:induction false} SpellingIs(names: seq<string>, key: string, norm: string -> string)
    ensures Spelling(names, key, norm).Some? <==> Listed(names, key, norm)
    ensures Spelling(names, key, norm).Some? ==> FirstOfKey(Spelling(names, key, norm).value, names, key, norm)
  {
    if names != [] {
      var rest := names[1..];
      assert names == [names[0]] + rest;
      SpellingIs(rest, key, norm);
      if norm(names[0]) != key && Spelling(names, key, norm).Some? {
        var display := Spelling(names, key, norm).value;
        var j :| 0 <= j < |rest| && rest[j] == display && norm(display) == key
          && forall i | 0 <= i < j :: norm(rest[i]) != key;
        assert names[j + 1] == display;
        forall i | 0 <= i < j + 1 ensures norm(names[i]) != key {
          assert i > 0 ==> names[i] == rest[i - 1];
        }
      }
    }
  }

  lemma OfferIs(a: Arrival, lastfm: bool, deadline: int, key: string, norm: string -> string)
    requires OfArm(a, lastfm, deadline)
    ensures Offer(a.lookup, key, norm).Some? <==> Tells(a, lastfm, deadline, key, norm)
    ensures Offer(a.lookup, key, norm).Some? ==>
              FirstOfKey(Offer(a.lookup, key, norm).value, a.lookup.names, key, norm)
  {
    if a.lookup.Similar? {
      SpellingIs(a.lookup.names, key, norm);
    }
  }

  lemma {:induction false} FirstOfferIsTold(run: seq<Arrival>, lastfm: bool, deadline: int, key: string,
                                            norm: string -> string)
    ensures var f := FirstOffer(Arm(run, lastfm, deadline), key, norm);
            if f.None? then forall a | a in run :: !Tells(a, lastfm, deadline, key, norm)
            else exists i: nat :: FirstTold(f.value, i, run, lastfm, deadline, key, norm)
  {
    if run != [] {
      var n := |run| - 1;
      var front, a := run[..n], run[n];
      assert run == front + [a];
      FirstOfferIsTold(front, lastfm, deadline, key, norm);
      ArmSnoc(front, a, lastfm, deadline);
      FirstOfferOneMore(front, a, lastfm, deadline, key, norm);
      var f := FirstOffer(Arm(front, lastfm, deadline), key, norm);
      if f.Some? {
        var i: nat :| FirstTold(f.value, i, front, lastfm, deadline, key, norm);
        assert FirstTold(f.value, i, run, lastfm, deadline, key, norm);
      } else if Tells(a, lastfm, deadline, key, norm) {
        OfferIs(a, lastfm, deadline, key, norm);
        assert FirstTold(Offer(a.lookup, key, norm).value, n, run, lastfm, deadline, key, norm);
      }
    }
  }

  lemma FirstOfferOneMore(front: seq<Arrival>, a: Arrival, lastfm: bool, deadline: int, key: string,
                          norm: string -> string)
    ensures FirstOffer(Arm(front + [a], lastfm, deadline), key, norm)
         == OrElse(FirstOffer(Arm(front, lastfm, deadline), key, norm),
                   if Tells(a, lastfm, deadline, key, norm) then Offer(a.lookup, key, norm) else None)
  {
    ArmSnoc(front, a, lastfm, deadline);
    if OfArm(a, lastfm, deadline) {
      FirstOfferSnoc(Arm(front, lastfm, deadline), a.lookup, key, norm);
      OfferIs(a, lastfm, deadline, key, norm);
    } else {
      assert Arm(front + [a], lastfm, deadline) == Arm(front, lastfm, deadline);
    }
  }

  lemma FirstSpellingIsShown(run: seq<Arrival>, deadline: int, key: string, norm: string -> string)
    ensures var f := FirstSpelling(LastfmPart(run), InTime(ListenbrainzPart(run), deadline), key, norm);
            f.Some? ==> ShownAs(f.value, run, deadline, key, norm)
  {
    FirstOfferIsTold(run, true, deadline, key, norm);
    FirstOfferIsTold(run, false, deadline, key, norm);
  }

  /** Last.fm's lookup failed for now, or its task died. */
  ghost predicate Fails(a: Arrival) {
    a.Lastfm? && (a.lookup.Transient? || a.lookup.TaskFailed?)
  }

  ghost predicate FirstFailure(i: nat, run: seq<Arrival>) {
    i < |run| && Fails(run[i]) && forall h | 0 <= h < i :: !Fails(run[h])
  }

  /** The message names the first failed lookup of the run. */
  ghost predicate ReportsFirst(message: string, run: seq<Arrival>) {
    exists i: nat :: FirstFailure(i, run)
      && message == match run[i].lookup
                    case Transient(seed) => "similar-artist fetch failed for seed '" + seed + "'"
                    case _ => "similar-artist task failed"
  }

  lemma OutcomeOneMore(front: seq<Arrival>, a: Arrival, norm: string -> string)
    ensures var before, after := LastfmOutcome(LastfmPart(front), norm), LastfmOutcome(LastfmPart(front + [a]), norm);
            && (before.Err? ==> after == before)
            && (before.Ok? ==> if Fails(a) then after == Err(ErrorOf(a.lookup)) else after.Ok?)
  {
    assert (front + [a])[..|front|] == front;
    var lookups := LastfmPart(front);
    assert (lookups + [a.lookup])[..|lookups|] == lookups;
    if !a.Lastfm? {
      assert LastfmPart(front + [a]) == lookups;
    }
  }

  /** What happens later does not change which failure was the first. */
  lemma ReportStays(message: string, front: seq<Arrival>, a: Arrival)
    requires ReportsFirst(message, front)
    ensures ReportsFirst(message, front + [a])
  {
    var i: nat :| FirstFailure(i, front)
      && message == match front[i].lookup
                    case Transient(seed) => "similar-artist fetch failed for seed '" + seed + "'"
                    case _ => "similar-artist task failed";
    assert FirstFailure(i, front + [a]);
  }

  lemma NewReport(front: seq<Arrival>, a: Arrival)
    requires Fails(a) && forall b | b in front :: !Fails(b)
    ensures ReportsFirst(ErrorOf(a.lookup), front + [a])
  {
    assert FirstFailure(|front|, front + [a]);
  }

  lemma {:induction false} OutcomeReports(run: seq<Arrival>, norm: string -> string)
    ensures var r := LastfmOutcome(LastfmPart(run), norm);
            if r.Ok? then forall a | a in run :: !Fails(a) else ReportsFirst(r.message, run)
  {
    if run != [] {
      var n := |run| - 1;
      var front, last := run[..n], run[n];
      assert run == front + [last];
      var before := LastfmOutcome(LastfmPart(front), norm);
      OutcomeReports(front, norm);
      OutcomeOneMore(front, last, norm);
      if before.Err? {
        ReportStays(before.message, front, last);
      } else if Fails(last) {
        NewReport(front, last);
      }
    }
  }

  // ── the whole candidate phase ─────────────────────────────────────────────

  datatype Source = ListenBrainzOnly | Blend

  type CandidateMap = map<string, (string, seq<string>)>

  /** The keys of a map in whatever order it yields them. */
  method KeysInSomeOrder(recs: map<string, SourceSet>) returns (seeds: seq<string>)
    ensures Distinct(seeds) && forall seed :: seed in seeds <==> seed in recs
  {
    seeds := [];
    var todo := recs.Keys;
    while todo != {}
      invariant todo <= recs.Keys
      invariant Distinct(seeds) && forall seed :: seed in seeds <==> seed in recs && seed !in todo
      decreases |todo|
    {
      var seed :| seed in todo;
      seeds := seeds + [seed];
      todo := todo - {seed};
    }
  }

  method ProvToMap(prov: ProvMap) returns (m: CandidateMap)
    ensures m.Keys == prov.Keys
    ensures forall key | key in prov :: m[key].0 == prov[key].display
              && Distinct(m[key].1) && forall seed :: seed in m[key].1 <==> seed in prov[key].recs
  {
    m := map[];
    var todo := prov.Keys;
    while todo != {}
      invariant todo <= prov.Keys && m.Keys == prov.Keys - todo
      invariant forall key | key in m :: m[key].0 == prov[key].display
                  && Distinct(m[key].1) && forall seed :: seed in m[key].1 <==> seed in prov[key].recs
      decreases |todo|
    {
      var key :| key in todo;
      var seeds := KeysInSomeOrder(prov[key].recs);
      m := m[key := (prov[key].display, seeds)];
      todo := todo - {key};
    }
  }

  /** Both arms, the race and the merge. However the lookups interleave, the request fails
      exactly when a Last.fm lookup failed for now, and otherwise lists for every
      candidate exactly the seeds that recommended it, ListenBrainz's within the
      deadline, each once, under Last.fm's first spelling if there is one. */
  method BuildBlended(source: Source, run: seq<Arrival>, deadline: int, norm: string -> string)
    returns (r: Result<CandidateMap>)
    requires Chronological(run)
    requires source.ListenBrainzOnly? ==> LastfmPart(run) == []
    ensures if r.Err? then ReportsFirst(r.message, run) else forall a | a in run :: !Fails(a)
    ensures r.Ok? ==> forall key :: key in r.value <==>
              exists seed :: Backed(run, deadline, seed, key, norm)
    ensures r.Ok? ==> forall key | key in r.value :: (Distinct(r.value[key].1)
              && forall seed :: seed in r.value[key].1 <==> Backed(run, deadline, seed, key, norm))
    ensures r.Ok? ==> forall key | key in r.value :: ShownAs(r.value[key].0, run, deadline, key, norm)
  {
    var raced := RaceArms(source.Blend?, run, deadline, norm);
    ghost var lf, lb := LastfmPart(run), InTime(ListenbrainzPart(run), deadline);
    OutcomeReports(run, norm);
    if raced.Err? { return Err(raced.message); }
    var merged := raced.value.1;
    if raced.value.0.Some? {
      merged := MergeProv(raced.value.0.value, raced.value.1);
    } else {
      MergedIntoNothing(Gather(lb, false, norm));
    }
    var m := ProvToMap(merged);
    forall key
      ensures key in merged <==> exists seed :: Backed(run, deadline, seed, key, norm)
      ensures key in merged ==> forall seed :: seed in merged[key].recs <==> Backed(run, deadline, seed, key, norm)
      ensures key in merged ==> ShownAs(merged[key].display, run, deadline, key, norm)
    {
      MergedListsBacked(merged, run, deadline, key, norm);
    }
    r := Ok(m);
  }

  lemma MergedListsBacked(merged: ProvMap, run: seq<Arrival>, deadline: int, key: string, norm: string -> string)
    requires merged == Merged(Gather(LastfmPart(run), true, norm),
                              Gather(InTime(ListenbrainzPart(run), deadline), false, norm))
    ensures key in merged <==> exists seed :: Backed(run, deadline, seed, key, norm)
    ensures key in merged ==> forall seed :: seed in merged[key].recs <==> Backed(run, deadline, seed, key, norm)
    ensures key in merged ==> ShownAs(merged[key].display, run, deadline, key, norm)
  {
    FirstSpellingIsShown(run, deadline, key, norm);
    var lf, lb := LastfmPart(run), InTime(ListenbrainzPart(run), deadline);
    BlendIsWhatWasRecommended(lf, lb, norm, key);
    MergedDisplay(lf, lb, norm, key);
    forall seed ensures Backed(run, deadline, seed, key, norm)
        <==> Recommends(lf, seed, key, norm) || Recommends(lb, seed, key, norm)
    {
      BackedIff(run, deadline, seed, key, norm);
    }
  }

  /** Last.fm's first spelling if it offers the candidate, otherwise ListenBrainz's. */
  function FirstSpelling(lastfm: seq<Lookup>, lb: seq<Lookup>, key: string, norm: string -> string): Option<string> {
    OrElse(FirstOffer(lastfm, key, norm), FirstOffer(lb, key, norm))
  }

  /** Two runs of the same lookups, the same of them in time, credit every candidate alike
      however they interleave. */
  lemma InterleavingIsInvisible(run1: seq<Arrival>, run2: seq<Arrival>, deadline: int, norm: string -> string)
    requires multiset(LastfmPart(run1)) == multiset(LastfmPart(run2))
    requires multiset(InTime(ListenbrainzPart(run1), deadline)) == multiset(InTime(ListenbrainzPart(run2), deadline))
    ensures LastfmOutcome(LastfmPart(run1), norm).Err? <==> LastfmOutcome(LastfmPart(run2), norm).Err?
    ensures forall seed, key :: Backed(run1, deadline, seed, key, norm) <==> Backed(run2, deadline, seed, key, norm)
  {
    SameElements(LastfmPart(run1), LastfmPart(run2));
    LastfmOutcomeIs(LastfmPart(run1), norm);
    LastfmOutcomeIs(LastfmPart(run2), norm);
    forall seed, key ensures Backed(run1, deadline, seed, key, norm) <==> Backed(run2, deadline, seed, key, norm) {
      SameBacking(run1, run2, deadline, seed, key, norm);
    }
  }

  lemma SameBacking(run1: seq<Arrival>, run2: seq<Arrival>, deadline: int, seed: string, key: string,
                    norm: string -> string)
    requires multiset(LastfmPart(run1)) == multiset(LastfmPart(run2))
    requires multiset(InTime(ListenbrainzPart(run1), deadline)) == multiset(InTime(ListenbrainzPart(run2), deadline))
    ensures Backed(run1, deadline, seed, key, norm) <==> Backed(run2, deadline, seed, key, norm)
  {
    BackedIff(run1, deadline, seed, key, norm);
    BackedIff(run2, deadline, seed, key, norm);
    RecommendsInAnyOrder(LastfmPart(run1), LastfmPart(run2), seed, key, norm);
    RecommendsInAnyOrder(InTime(ListenbrainzPart(run1), deadline), InTime(ListenbrainzPart(run2), deadline),
                         seed, key, norm);
  }

  lemma MergedIntoNothing(other: ProvMap)
    ensures Merged(map[], other) == other
  {
    forall key | key in other ensures MergedRecs(map[], other[key].recs) == other[key].recs {}
  }
}
