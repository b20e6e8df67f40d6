/** Scoring one candidate, ranking all of them, and the cap on how many are looked up.

    Candidates arrive in whatever order the network answers, so the question here is
    what the ranked list depends on. Normalization, lower-casing, the collaboration
    splitter and the non-music test are parameters. */
module Scoring {
  import opened Ordering
  import opened Ranking

  const MAX_LISTENER_CEILING: nat := 25000
  const CONVICTION_CAP: real := 3.0
  const CROSS_VALIDATION_BONUS: real := 0.5
  const XVAL_OVERLAP_MIN_TAGS: nat := 3
  const XVAL_OVERLAP_MIN_WEIGHT: real := 0.15
  const TOP_TAGS: nat := 5
  const MAX_CANDIDATES_FOR_INFO_FETCH: nat := 600

  /** `userPlays` is None when the service sent no parsable count. */
  datatype Artist = Artist(name: string, listeners: nat, playcount: nat, userPlays: Option<nat>, tags: seq<string>)

  datatype Candidate = Candidate(artist: Artist, recommenders: seq<string>)

  datatype Context = Context(
    seedWeights: map<string, real>,
    tagCandidates: set<string>,
    profile: map<string, real>,
    underThreshold: Option<nat>,
    seedNorms: set<string>,
    norm: string -> string,
    lower: string -> string,
    components: string -> seq<string>,
    nonMusic: (string, seq<string>) -> bool)

  // ── one candidate ─────────────────────────────────────────────────────────

  /** Removes repeats that stand next to each other. */
  function DropRepeats(s: seq<string>): seq<string> {
    if |s| < 2 then s
    else if s[0] == s[1] then DropRepeats(s[1..])
    else [s[0]] + DropRepeats(s[1..])
  }

  function DistinctSorted(s: seq<string>): seq<string> {
    DropRepeats(Sort(s, StrLe))
  }

  function CreditedSeeds(recommenders: seq<string>, weights: map<string, real>): seq<SourceSeed> {
    if recommenders == [] then []
    else
      var name := recommenders[0];
      var rest := CreditedSeeds(recommenders[1..], weights);
      if name in weights
      then [SourceSeed(name, if weights[name] < CONVICTION_CAP then weights[name] else CONVICTION_CAP)] + rest
      else rest
  }

  function SumPercentiles(seeds: seq<SourceSeed>): real {
    if seeds == [] then 0.0 else seeds[0].percentile + SumPercentiles(seeds[1..])
  }

  predicate HigherPercentile(a: SourceSeed, b: SourceSeed) {
    a.percentile >= b.percentile
  }

  function CountOverlap(tags: seq<string>, ctx: Context): nat {
    if tags == [] then 0
    else
      var n := |tags| - 1;
      CountOverlap(tags[..n], ctx)
      + (if Weight(tags[n], ctx.profile, ctx.lower) >= XVAL_OVERLAP_MIN_WEIGHT then 1 else 0)
  }

  /** A cast to an unsigned integer: truncates, and negative values become zero. */
  function Truncate(x: real): nat {
    if x < 0.0 then 0 else x.Floor
  }

  function Stickiness(artist: Artist): real {
    if artist.listeners > 0 then artist.playcount as real / artist.listeners as real else 0.0
  }

  /** Too big alone, by the listener counts known for the other candidates. */
  predicate OverCeiling(norm: string, listeners: map<string, nat>) {
    norm in listeners && listeners[norm] > MAX_LISTENER_CEILING
  }

  function Plays(artist: Artist): nat {
    if artist.userPlays.Some? then artist.userPlays.value else 0
  }

  predicate CollaboratorTooBig(artist: Artist, listeners: map<string, nat>, ctx: Context) {
    exists c | c in ctx.components(artist.name) :: OverCeiling(ctx.norm(c), listeners)
  }

  predicate Excluded(artist: Artist, listeners: map<string, nat>, ctx: Context) {
    || (if ctx.underThreshold.Some? then Plays(artist) >= ctx.underThreshold.value else Plays(artist) > 0)
    || ctx.norm(artist.name) in ctx.seedNorms
    || artist.listeners > MAX_LISTENER_CEILING
    || CollaboratorTooBig(artist, listeners, ctx)
  }

  /** The scored item, from the artist and its distinct recommenders. */
  function ScoredItem(artist: Artist, recommenders: seq<string>, ctx: Context): (item: Item)
    ensures item.composite >= 0.0
  {
    var credited := CreditedSeeds(recommenders, ctx.seedWeights);
    var topTags := Take(TOP_TAGS, artist.tags);
    var crossValidated := ctx.norm(artist.name) in ctx.tagCandidates
                          || CountOverlap(topTags, ctx) >= XVAL_OVERLAP_MIN_TAGS;
    var bonus := if crossValidated then CROSS_VALIDATION_BONUS else 0.0;
    var conviction := Truncate((SumPercentiles(credited) + bonus) * 100.0);
    var stickiness := Stickiness(artist);
    ScaledNonNegative(conviction as real, stickiness);
    Item(artist.name, stickiness, conviction, conviction as real * stickiness, artist.listeners, topTags,
         Sort(credited, HigherPercentile), crossValidated, 0.0, Plays(artist),
         ctx.underThreshold.Some? && Plays(artist) > 0)
  }

  function ScoreCandidate(c: Candidate, listeners: map<string, nat>, ctx: Context): Option<Item> {
    if Excluded(c.artist, listeners, ctx) then None
    else Some(ScoredItem(c.artist, DistinctSorted(c.recommenders), ctx))
  }

  // ── recommenders count as a set ───────────────────────────────────────────

  ghost predicate StrictlyIncreasing(s: seq<string>) {
    forall i, j | 0 <= i < j < |s| :: StrLe(s[i], s[j]) && s[i] != s[j]
  }

  lemma {:induction false} DropRepeatsStrict(s: seq<string>)
    requires Sorted(s, StrLe)
    ensures StrictlyIncreasing(DropRepeats(s))
    ensures forall x :: x in DropRepeats(s) <==> x in s
    ensures s != [] ==> DropRepeats(s) != [] && DropRepeats(s)[0] == s[0]
  {
    if |s| >= 2 {
      var rest := DropRepeats(s[1..]);
      DropRepeatsStrict(s[1..]);
      assert s == [s[0]] + s[1..];
      if s[0] != s[1] {
        forall j | 0 <= j < |rest| ensures StrLe(s[0], rest[j]) && s[0] != rest[j] {
          assert rest[j] in s[1..];
          StrLeTotal(s[0], s[1]);
          if j > 0 {
            assert StrLe(s[1], rest[j]) && s[1] != rest[j];
            StrLeTotal(s[1], rest[j]);
          }
        }
      }
    }
  }

  lemma StrictIsUnique(a: seq<string>, b: seq<string>)
    requires StrictlyIncreasing(a) && StrictlyIncreasing(b)
    requires forall x :: x in a <==> x in b
    ensures a == b
  {
    StrLeIsTotalOrder();
    DistinctSortedUnique(a, b, StrLe);
  }

  /** Neither the order of a candidate's recommenders nor how often one is listed
      reaches its score. */
  lemma RecommendersAreASet(a: seq<string>, b: seq<string>, artist: Artist, listeners: map<string, nat>, ctx: Context)
    requires forall x :: x in a <==> x in b
    ensures ScoreCandidate(Candidate(artist, a), listeners, ctx) == ScoreCandidate(Candidate(artist, b), listeners, ctx)
  {
    DistinctSortedIs(a);
    DistinctSortedIs(b);
    StrictIsUnique(DistinctSorted(a), DistinctSorted(b));
    assert DistinctSorted(a) == DistinctSorted(b);
  }

  // ── what a score is, told without its computation ─────────────────────────

  /** The weights of a set of seeds, three at most each, added up in any order. */
  ghost function CappedSum(seeds: set<string>, weights: map<string, real>): real
    requires seeds <= weights.Keys
  {
    if seeds == {} then 0.0
    else
      var s :| s in seeds;
      (if weights[s] < 3.0 then weights[s] else 3.0) + CappedSum(seeds - {s}, weights)
  }

  /** Whichever seed is taken first. */
  lemma {:induction false} CappedSumWithout(seeds: set<string>, s: string, weights: map<string, real>)
    requires s in seeds && seeds <= weights.Keys
    ensures CappedSum(seeds, weights)
         == (if weights[s] < 3.0 then weights[s] else 3.0) + CappedSum(seeds - {s}, weights)
    decreases |seeds|
  {
    var first :| first in seeds && CappedSum(seeds, weights)
        == (if weights[first] < 3.0 then weights[first] else 3.0) + CappedSum(seeds - {first}, weights);
    if first != s {
      CappedSumWithout(seeds - {first}, s, weights);
      CappedSumWithout(seeds - {s}, first, weights);
      assert seeds - {first} - {s} == seeds - {s} - {first};
    }
  }

  /** The recommenders that have a weight. */
  function WeightedSeeds(recommenders: seq<string>, weights: map<string, real>): set<string> {
    set s | s in recommenders && s in weights
  }

  /** The greatest whole number up to a hundred times the total, or zero for a negative total. */
  ghost predicate IsConviction(conviction: nat, total: real) {
    if total < 0.0 then conviction == 0
    else conviction as real <= 100.0 * total < conviction as real + 1.0
  }

  predicate BeforeSeed(a: SourceSeed, b: SourceSeed) {
    || a.percentile > b.percentile
    || (a.percentile == b.percentile && StrLe(a.name, b.name) && a.name != b.name)
  }

  /** Just these seeds, each with its weight, three at most. */
  ghost predicate Credits(list: seq<SourceSeed>, seeds: set<string>, weights: map<string, real>)
    requires seeds <= weights.Keys
  {
    && (forall s | s in seeds :: exists e | e in list :: e.name == s)
    && forall e | e in list :: e.name in seeds
         && e.percentile == if weights[e.name] < 3.0 then weights[e.name] else 3.0
  }

  /** Each once, heaviest first, names breaking ties. */
  ghost predicate ListsSeeds(list: seq<SourceSeed>, seeds: set<string>, weights: map<string, real>)
    requires seeds <= weights.Keys
  {
    Sorted(list, BeforeSeed) && Credits(list, seeds, weights)
  }

  /** Three of the first five tags weigh enough in the seeds' profile. */
  ghost predicate Overlaps(tags: seq<string>, ctx: Context) {
    |Where(if |tags| < 5 then tags else tags[..5],
           tag => ctx.lower(tag) in ctx.profile && ctx.profile[ctx.lower(tag)] >= 0.15)| >= 3
  }

  /** Plays per listener, and conviction times that, without dividing. */
  ghost predicate ScoredByPlays(x: Item, a: Artist) {
    if a.listeners == 0 then x.stickiness == 0.0 && x.composite == 0.0
    else
      && x.stickiness * a.listeners as real == a.playcount as real
      && x.composite * a.listeners as real == x.conviction as real * a.playcount as real
  }

  /** What the item tells of the artist beyond its score. */
  ghost predicate Describes(x: Item, a: Artist, ctx: Context) {
    && x.name == a.name && x.listeners == a.listeners && x.tasteAlignment == 0.0
    && x.tags == (if |a.tags| < 5 then a.tags else a.tags[..5])
    && x.userPlaycount == (if a.userPlays.Some? then a.userPlays.value else 0)
    && (x.reengagement <==> ctx.underThreshold.Some? && x.userPlaycount > 0)
    && (x.crossValidated <==> ctx.norm(a.name) in ctx.tagCandidates || Overlaps(a.tags, ctx))
  }

  /** `x` is the score of candidate `c`. */
  ghost predicate IsScoreOf(x: Item, c: Candidate, ctx: Context) {
    var seeds := WeightedSeeds(c.recommenders, ctx.seedWeights);
    && Describes(x, c.artist, ctx)
    && ListsSeeds(x.sourceSeeds, seeds, ctx.seedWeights)
    && IsConviction(x.conviction, CappedSum(seeds, ctx.seedWeights) + if x.crossValidated then 0.5 else 0.0)
    && ScoredByPlays(x, c.artist)
  }

  lemma {:induction false} CreditedAddUp(recommenders: seq<string>, weights: map<string, real>)
    requires StrictlyIncreasing(recommenders)
    ensures SumPercentiles(CreditedSeeds(recommenders, weights))
         == CappedSum(WeightedSeeds(recommenders, weights), weights)
  {
    if recommenders != [] {
      var name, rest := recommenders[0], recommenders[1..];
      CreditedAddUp(rest, weights);
      OneSeedLess(recommenders, weights);
      if name in weights {
        CappedSumWithout(WeightedSeeds(recommenders, weights), name, weights);
      } else {
        assert WeightedSeeds(rest, weights) == WeightedSeeds(recommenders, weights);
      }
    }
  }

  lemma OneSeedLess(recommenders: seq<string>, weights: map<string, real>)
    requires recommenders != [] && StrictlyIncreasing(recommenders)
    ensures WeightedSeeds(recommenders[1..], weights) == WeightedSeeds(recommenders, weights) - {recommenders[0]}
    ensures recommenders[0] in weights <==> recommenders[0] in WeightedSeeds(recommenders, weights)
  {
    assert recommenders == [recommenders[0]] + recommenders[1..];
    assert recommenders[0] !in recommenders[1..];
  }

  ghost predicate ByName(list: seq<SourceSeed>) {
    forall i, j | 0 <= i < j < |list| :: StrLe(list[i].name, list[j].name) && list[i].name != list[j].name
  }

  lemma CreditsOneMore(name: string, rest: seq<SourceSeed>, seeds: set<string>, weights: map<string, real>)
    requires seeds <= weights.Keys && name in seeds && Credits(rest, seeds - {name}, weights)
    ensures Credits([SourceSeed(name, if weights[name] < 3.0 then weights[name] else 3.0)] + rest, seeds, weights)
  {
    var list := [SourceSeed(name, if weights[name] < 3.0 then weights[name] else 3.0)] + rest;
    forall s | s in seeds ensures exists e | e in list :: e.name == s {
      if s == name {
        assert list[0] in list;
      } else {
        assert s in seeds - {name};
        var e :| e in rest && e.name == s;
        assert e in list;
      }
    }
  }

  lemma {:induction false} CreditedOnce(recommenders: seq<string>, weights: map<string, real>)
    requires StrictlyIncreasing(recommenders)
    ensures Credits(CreditedSeeds(recommenders, weights), WeightedSeeds(recommenders, weights), weights)
  {
    if recommenders != [] {
      CreditedOnce(recommenders[1..], weights);
      OneSeedLess(recommenders, weights);
      var seeds, rest := WeightedSeeds(recommenders, weights), CreditedSeeds(recommenders[1..], weights);
      if recommenders[0] in weights {
        CreditsOneMore(recommenders[0], rest, seeds, weights);
      } else {
        assert WeightedSeeds(recommenders[1..], weights) == seeds;
      }
    }
  }

  lemma {:induction false} CreditedByName(recommenders: seq<string>, weights: map<string, real>)
    requires StrictlyIncreasing(recommenders)
    ensures ByName(CreditedSeeds(recommenders, weights))
    ensures forall e | e in CreditedSeeds(recommenders, weights) :: e.name in recommenders
  {
    if recommenders != [] {
      CreditedByName(recommenders[1..], weights);
      forall e | e in CreditedSeeds(recommenders[1..], weights)
        ensures e.name in recommenders && StrLe(recommenders[0], e.name) && recommenders[0] != e.name
      {
        assert e.name in recommenders[1..];
      }
    }
  }

  lemma {:induction false} InsertSeed(x: SourceSeed, list: seq<SourceSeed>)
    requires Sorted(list, BeforeSeed)
    requires forall e | e in list :: StrLe(x.name, e.name) && x.name != e.name
    ensures Sorted(Insert(x, list, HigherPercentile), BeforeSeed)
  {
    if list != [] && !HigherPercentile(x, list[0]) {
      var rest := Insert(x, list[1..], HigherPercentile);
      InsertSeed(x, list[1..]);
      InsertKeeps(x, list[1..], HigherPercentile);
      forall e | e in rest ensures BeforeSeed(list[0], e) {
        assert e in multiset(rest);
        assert e == x || e in list[1..];
      }
    }
  }

  lemma OneMoreSeedRanks(x: SourceSeed, rest: seq<SourceSeed>)
    requires ByName([x] + rest) && Sorted(Sort(rest, HigherPercentile), BeforeSeed)
    requires multiset(Sort(rest, HigherPercentile)) == multiset(rest)
    ensures Sorted(Insert(x, Sort(rest, HigherPercentile), HigherPercentile), BeforeSeed)
  {
    SameElements(Sort(rest, HigherPercentile), rest);
    forall e | e in rest ensures StrLe(x.name, e.name) && x.name != e.name {
      var k :| 0 <= k < |rest| && rest[k] == e;
      assert ([x] + rest)[0] == x && ([x] + rest)[k + 1] == e;
    }
    InsertSeed(x, Sort(rest, HigherPercentile));
  }

  /** The stable sort leaves equal weights in name order. */
  lemma {:induction false} SeedsRank(list: seq<SourceSeed>)
    requires ByName(list)
    ensures Sorted(Sort(list, HigherPercentile), BeforeSeed)
    ensures multiset(Sort(list, HigherPercentile)) == multiset(list)
  {
    if list != [] {
      SeedsRank(list[1..]);
      assert list == [list[0]] + list[1..];
      OneMoreSeedRanks(list[0], list[1..]);
      InsertKeeps(list[0], Sort(list[1..], HigherPercentile), HigherPercentile);
    }
  }

  lemma {:induction false} OverlapCounts(tags: seq<string>, ctx: Context)
    ensures CountOverlap(tags, ctx)
         == |Where(tags, tag => ctx.lower(tag) in ctx.profile && ctx.profile[ctx.lower(tag)] >= 0.15)|
  {
    if tags != [] {
      var n := |tags| - 1;
      OverlapCounts(tags[..n], ctx);
      WhereSnoc(tags[..n], tags[n], tag => ctx.lower(tag) in ctx.profile && ctx.profile[ctx.lower(tag)] >= 0.15);
      assert tags == tags[..n] + [tags[n]];
    }
  }

  lemma DistinctSortedIs(s: seq<string>)
    ensures StrictlyIncreasing(DistinctSorted(s)) && forall x :: x in DistinctSorted(s) <==> x in s
  {
    StrLeIsTotalOrder();
    SortSorts(s, StrLe);
    SameElements(Sort(s, StrLe), s);
    DropRepeatsStrict(Sort(s, StrLe));
  }

  lemma DivisionUndone(plays: real, listeners: real, conviction: real)
    requires listeners > 0.0
    ensures plays / listeners * listeners == plays
    ensures conviction * (plays / listeners) * listeners == conviction * plays
  {
    assert conviction * (plays / listeners) * listeners == conviction * (plays / listeners * listeners);
  }

  lemma SourceSeedsListed(c: Candidate, ctx: Context)
    ensures var list := CreditedSeeds(DistinctSorted(c.recommenders), ctx.seedWeights);
            var seeds := WeightedSeeds(c.recommenders, ctx.seedWeights);
            && SumPercentiles(list) == CappedSum(seeds, ctx.seedWeights)
            && ListsSeeds(Sort(list, HigherPercentile), seeds, ctx.seedWeights)
  {
    var distinct := DistinctSorted(c.recommenders);
    DistinctSortedIs(c.recommenders);
    assert WeightedSeeds(distinct, ctx.seedWeights) == WeightedSeeds(c.recommenders, ctx.seedWeights);
    CreditedAddUp(distinct, ctx.seedWeights);
    CreditedOnce(distinct, ctx.seedWeights);
    CreditedByName(distinct, ctx.seedWeights);
    var list := CreditedSeeds(distinct, ctx.seedWeights);
    SeedsRank(list);
    SameElements(Sort(list, HigherPercentile), list);
  }

  lemma TruncatedIsConviction(total: real)
    ensures IsConviction(Truncate(total * 100.0), total)
  {}

  lemma ItemDescribes(a: Artist, recommenders: seq<string>, ctx: Context)
    ensures Describes(ScoredItem(a, recommenders, ctx), a, ctx)
  {
    OverlapCounts(Take(TOP_TAGS, a.tags), ctx);
  }

  lemma ItemConviction(a: Artist, recommenders: seq<string>, total: real, ctx: Context)
    requires total == SumPercentiles(CreditedSeeds(recommenders, ctx.seedWeights))
    ensures var x := ScoredItem(a, recommenders, ctx);
            IsConviction(x.conviction, total + if x.crossValidated then 0.5 else 0.0)
  {
    TruncatedIsConviction(total + 0.5);
    TruncatedIsConviction(total + 0.0);
  }

  lemma ItemPlays(a: Artist, recommenders: seq<string>, ctx: Context)
    ensures ScoredByPlays(ScoredItem(a, recommenders, ctx), a)
  {
    if a.listeners > 0 {
      var conviction := ScoredItem(a, recommenders, ctx).conviction;
      DivisionUndone(a.playcount as real, a.listeners as real, conviction as real);
    }
  }

  predicate HigherOrSame(a: SourceSeed, b: SourceSeed) {
    a == b || BeforeSeed(a, b)
  }

  lemma SeedListIsUnique(a: seq<SourceSeed>, b: seq<SourceSeed>, seeds: set<string>, weights: map<string, real>)
    requires seeds <= weights.Keys && ListsSeeds(a, seeds, weights) && ListsSeeds(b, seeds, weights)
    ensures a == b
  {
    SameSeeds(a, b, seeds, weights);
    StrLeIsTotalOrder();
    DistinctSortedUnique(a, b, HigherOrSame);
  }

  lemma SameSeeds(a: seq<SourceSeed>, b: seq<SourceSeed>, seeds: set<string>, weights: map<string, real>)
    requires seeds <= weights.Keys && Credits(a, seeds, weights) && Credits(b, seeds, weights)
    ensures forall x :: x in a <==> x in b
  {
    forall x ensures x in a <==> x in b {
      if x in a {
        var y :| y in b && y.name == x.name;
      }
      if x in b {
        var y :| y in a && y.name == x.name;
      }
    }
  }

  lemma SameQuotient(x: real, y: real, n: real)
    requires n > 0.0 && x * n == y * n
    ensures x == y
  {
    assert x == x * n / n && y == y * n / n;
  }

  lemma OneConviction(m: nat, n: nat, total: real)
    requires IsConviction(m, total) && IsConviction(n, total)
    ensures m == n
  {}

  lemma OneComposite(x: Item, y: Item, a: Artist)
    requires ScoredByPlays(x, a) && ScoredByPlays(y, a) && x.conviction == y.conviction
    ensures x.stickiness == y.stickiness && x.composite == y.composite
  {
    if a.listeners > 0 {
      SameQuotient(x.stickiness, y.stickiness, a.listeners as real);
      SameQuotient(x.composite, y.composite, a.listeners as real);
    }
  }

  /** A candidate has one score: the conditions above leave nothing open. */
  lemma ScoreIsUnique(x: Item, y: Item, c: Candidate, ctx: Context)
    requires IsScoreOf(x, c, ctx) && IsScoreOf(y, c, ctx)
    ensures x == y
  {
    var seeds := WeightedSeeds(c.recommenders, ctx.seedWeights);
    SeedListIsUnique(x.sourceSeeds, y.sourceSeeds, seeds, ctx.seedWeights);
    OneConviction(x.conviction, y.conviction,
                  CappedSum(seeds, ctx.seedWeights) + if x.crossValidated then 0.5 else 0.0);
    OneComposite(x, y, c.artist);
  }

  lemma ItemIsScore(c: Candidate, ctx: Context)
    ensures IsScoreOf(ScoredItem(c.artist, DistinctSorted(c.recommenders), ctx), c, ctx)
  {
    var distinct := DistinctSorted(c.recommenders);
    SourceSeedsListed(c, ctx);
    ItemDescribes(c.artist, distinct, ctx);
    ItemConviction(c.artist, distinct, SumPercentiles(CreditedSeeds(distinct, ctx.seedWeights)), ctx);
    ItemPlays(c.artist, distinct, ctx);
  }

  /** What the scorer returns is the candidate's score, and it returns none exactly for a
      candidate played too much, a seed, one over the listener ceiling or one with a
      collaborator over it. */
  lemma ScoreIsExact(c: Candidate, listeners: map<string, nat>, ctx: Context)
    ensures var a, plays := c.artist, if c.artist.userPlays.Some? then c.artist.userPlays.value else 0;
            ScoreCandidate(c, listeners, ctx).None? <==>
              || plays >= (if ctx.underThreshold.Some? then ctx.underThreshold.value else 1)
              || ctx.norm(a.name) in ctx.seedNorms || a.listeners > 25000
              || exists p | p in ctx.components(a.name) ::
                   ctx.norm(p) in listeners && listeners[ctx.norm(p)] > 25000
    ensures ScoreCandidate(c, listeners, ctx).Some? ==> IsScoreOf(ScoreCandidate(c, listeners, ctx).value, c, ctx)
  {
    ItemIsScore(c, ctx);
  }

  // ── all candidates ────────────────────────────────────────────────────────

  /** Listener count per normalized name; a later entry overwrites an earlier one. */
  function ListenerMap(raw: seq<Candidate>, norm: string -> string): map<string, nat> {
    if raw == [] then map[]
    else
      var last := raw[|raw| - 1].artist;
      ListenerMap(raw[..|raw| - 1], norm)[norm(last.name) := last.listeners]
  }

  function ScoreOne(c: Candidate, listeners: map<string, nat>, ctx: Context): seq<Item> {
    if ctx.nonMusic(c.artist.name, c.artist.tags) then []
    else match ScoreCandidate(c, listeners, ctx)
      case None => []
      case Some(item) => [item]
  }

  function Scored(raw: seq<Candidate>, listeners: map<string, nat>, ctx: Context): seq<Item> {
    if raw == [] then [] else ScoreOne(raw[0], listeners, ctx) + Scored(raw[1..], listeners, ctx)
  }

  function AllScored(raw: seq<Candidate>, ctx: Context): seq<Item> {
    Scored(raw, ListenerMap(raw, ctx.norm), ctx)
  }

  /** The normalized names of a list. */
  function Names(items: seq<Item>, norm: string -> string): set<string> {
    if items == [] then {} else Names(items[..|items| - 1], norm) + {norm(items[|items| - 1].name)}
  }

  predicate NameSeen(items: seq<Item>, name: string, norm: string -> string) {
    norm(name) in Names(items, norm)
  }

  lemma {:induction false} NamedBy(items: seq<Item>, name: string, norm: string -> string)
    ensures NameSeen(items, name, norm) <==> exists x | x in items :: norm(x.name) == norm(name)
  {
    if items != [] {
      var n := |items| - 1;
      NamedBy(items[..n], name, norm);
      assert items == items[..n] + [items[n]];
    }
  }

  /** Keeps the first item of each normalized name. */
  function Dedup(items: seq<Item>, norm: string -> string): seq<Item> {
    if items == [] then []
    else
      var n := |items| - 1;
      Dedup(items[..n], norm) + (if NameSeen(items[..n], items[n].name, norm) then [] else [items[n]])
  }

  /** The ranked list as a function of the candidates in arrival order. */
  function RankedList(raw: seq<Candidate>, ctx: Context): seq<Item> {
    Dedup(Sort(AllScored(raw, ctx), ItemLe), ctx.norm)
  }

  method DedupScoredByName(scored: seq<Item>, norm: string -> string) returns (kept: seq<Item>)
    ensures kept == Dedup(scored, norm)
  {
    var seen: set<string> := {};
    kept := [];
    for i := 0 to |scored|
      invariant kept == Dedup(scored[..i], norm)
      invariant seen == Names(scored[..i], norm)
    {
      assert scored[..i + 1][..i] == scored[..i];
      if norm(scored[i].name) !in seen {
        kept := kept + [scored[i]];
      }
      seen := seen + {norm(scored[i].name)};
    }
    assert scored[..|scored|] == scored;
  }

  method ScoreAll(raw: seq<Candidate>, ctx: Context) returns (ranked: seq<Item>)
    ensures ranked == RankedList(raw, ctx)
    ensures Ranks(ranked, raw, ctx)
  {
    RankedListRanks(raw, ctx);
    var listeners: map<string, nat> := map[];
    for i := 0 to |raw|
      invariant listeners == ListenerMap(raw[..i], ctx.norm)
    {
      assert raw[..i + 1][..i] == raw[..i];
      listeners := listeners[ctx.norm(raw[i].artist.name) := raw[i].artist.listeners];
    }
    assert raw[..|raw|] == raw;
    ranked := DedupScoredByName(Sort(Scored(raw, listeners, ctx), ItemLe), ctx.norm);
  }

  // ── what the list depends on ──────────────────────────────────────────────

  /** Ahead of every item of its normalized name, or tied with it. */
  ghost predicate Leads(x: Item, items: seq<Item>, norm: string -> string) {
    x in items && forall z | z in items && norm(z.name) == norm(x.name) :: ItemLe(x, z)
  }

  ghost predicate DistinctNames(items: seq<Item>, norm: string -> string) {
    forall i, j | 0 <= i < j < |items| :: norm(items[i].name) != norm(items[j].name)
  }

  lemma {:induction false} DedupIsDrawn(items: seq<Item>, norm: string -> string)
    ensures forall x | x in Dedup(items, norm) :: x in items
    ensures Names(Dedup(items, norm), norm) == Names(items, norm)
  {
    if items != [] {
      var n := |items| - 1;
      var shorter := Dedup(items[..n], norm);
      DedupIsDrawn(items[..n], norm);
      if NameSeen(items[..n], items[n].name, norm) {
        assert Dedup(items, norm) == shorter;
      } else {
        assert (shorter + [items[n]])[..|shorter|] == shorter;
      }
    }
  }

  lemma {:induction false} DedupDistinct(items: seq<Item>, norm: string -> string)
    ensures DistinctNames(Dedup(items, norm), norm)
  {
    if items != [] {
      var n := |items| - 1;
      var shorter := Dedup(items[..n], norm);
      DedupDistinct(items[..n], norm);
      DedupIsDrawn(items[..n], norm);
      NamedBy(shorter, items[n].name, norm);
    }
  }

  lemma {:induction false} DedupSorted(items: seq<Item>, norm: string -> string)
    requires Sorted(items, ItemLe)
    ensures Sorted(Dedup(items, norm), ItemLe)
  {
    if items != [] {
      var n := |items| - 1;
      DedupSorted(items[..n], norm);
      DedupIsDrawn(items[..n], norm);
      forall x | x in items[..n] ensures ItemLe(x, items[n]) {}
    }
  }

  lemma {:induction false} DedupLeads(items: seq<Item>, x: Item, norm: string -> string)
    requires Sorted(items, ItemLe) && x in Dedup(items, norm)
    ensures Leads(x, items, norm)
  {
    var n := |items| - 1;
    var init, last := items[..n], items[n];
    assert items == init + [last];
    if x in Dedup(init, norm) {
      DedupLeads(init, x, norm);
      var i :| 0 <= i < |init| && init[i] == x;
      assert ItemLe(items[i], items[n]);
    } else {
      NamedBy(init, last.name, norm);
      StrLeTotal(x.name, x.name);
    }
  }

  /** Of a sorted list, deduplication keeps one leader of every name, in order. */
  lemma DedupKeepsLeaders(items: seq<Item>, norm: string -> string)
    requires Sorted(items, ItemLe)
    ensures var d := Dedup(items, norm);
            && (forall x | x in d :: Leads(x, items, norm))
            && (forall y | y in items :: exists x | x in d :: norm(x.name) == norm(y.name))
            && DistinctNames(d, norm) && Sorted(d, ItemLe)
  {
    var d := Dedup(items, norm);
    DedupIsDrawn(items, norm);
    DedupDistinct(items, norm);
    DedupSorted(items, norm);
    forall x | x in d ensures Leads(x, items, norm) {
      DedupLeads(items, x, norm);
    }
    forall y | y in items ensures exists x | x in d :: norm(x.name) == norm(y.name) {
      NamedBy(items, y.name, norm);
      NamedBy(d, y.name, norm);
    }
  }

  /** Two different items may tie, but only behind a third of the same name. */
  ghost predicate HarmlessTies(items: seq<Item>, norm: string -> string) {
    forall x, y | x in items && y in items && ItemLe(x, y) && ItemLe(y, x) && x != y ::
      !Leads(x, items, norm)
  }

  lemma TiesShareNames(x: Item, y: Item)
    requires ItemLe(x, y) && ItemLe(y, x)
    ensures x.name == y.name
  {
    StrLeTotal(x.name, y.name);
  }

  lemma DistinctNamesAreTieFree(items: seq<Item>, norm: string -> string)
    requires DistinctNames(items, norm)
    ensures TieFree(items, ItemLe)
  {
    forall x, y | x in items && y in items && ItemLe(x, y) && ItemLe(y, x) ensures x == y {
      TiesShareNames(x, y);
    }
  }

  // ── the listener map under reordering ─────────────────────────────────────

  predicate Over(c: Candidate) {
    c.artist.listeners > MAX_LISTENER_CEILING
  }

  ghost predicate Namesake(c: Candidate, raw: seq<Candidate>, k: string, norm: string -> string) {
    c in raw && norm(c.artist.name) == k
  }

  /** Some candidate of normalized name `k` is over the ceiling. */
  ghost predicate AnyOver(raw: seq<Candidate>, k: string, norm: string -> string) {
    exists c | Namesake(c, raw, k, norm) :: Over(c)
  }

  /** There is a candidate of normalized name `k`, and all of them are over the ceiling. */
  ghost predicate AllOver(raw: seq<Candidate>, k: string, norm: string -> string) {
    (exists c :: Namesake(c, raw, k, norm)) && forall c | Namesake(c, raw, k, norm) :: Over(c)
  }

  lemma {:induction false} ListenerMapIsDrawn(raw: seq<Candidate>, k: string, norm: string -> string)
    ensures k in ListenerMap(raw, norm) <==> exists c :: Namesake(c, raw, k, norm)
    ensures k in ListenerMap(raw, norm) ==>
              exists c :: Namesake(c, raw, k, norm) && c.artist.listeners == ListenerMap(raw, norm)[k]
  {
    if raw != [] {
      var n := |raw| - 1;
      ListenerMapIsDrawn(raw[..n], k, norm);
      assert raw == raw[..n] + [raw[n]];
      forall c ensures Namesake(c, raw, k, norm) <==>
          Namesake(c, raw[..n], k, norm) || (c == raw[n] && norm(raw[n].artist.name) == k) {}
      if norm(raw[n].artist.name) == k {
        assert Namesake(raw[n], raw, k, norm);
      }
    }
  }

  /** Whatever the order, the ceiling test lies between these two verdicts. */
  lemma VerdictBounds(p: seq<Candidate>, k: string, norm: string -> string)
    ensures AllOver(p, k, norm) ==> OverCeiling(k, ListenerMap(p, norm))
    ensures OverCeiling(k, ListenerMap(p, norm)) ==> AnyOver(p, k, norm)
  {
    ListenerMapIsDrawn(p, k, norm);
  }

  /** The later half decides for the names it has. */
  lemma {:induction false} ListenerMapOfConcat(a: seq<Candidate>, b: seq<Candidate>, k: string, norm: string -> string)
    ensures OverCeiling(k, ListenerMap(a + b, norm))
         == if k in ListenerMap(b, norm) then OverCeiling(k, ListenerMap(b, norm))
            else OverCeiling(k, ListenerMap(a, norm))
  {
    if b == [] {
      assert a + b == a;
    } else {
      var n := |b| - 1;
      assert (a + b)[..|a| + n] == a + b[..n];
      ListenerMapOfConcat(a, b[..n], k, norm);
    }
  }

  /** Ceiling tests as a listener map: `k` reads as over the ceiling when `over` holds of it. */
  ghost function VerdictMap(keys: set<string>): map<string, nat> {
    map k | k in keys :: MAX_LISTENER_CEILING + 1
  }

  ghost function NamesOf(raw: seq<Candidate>, norm: string -> string): set<string> {
    set c | c in raw :: norm(c.artist.name)
  }

  /** Only names all of whose candidates are over the ceiling read as over it. */
  ghost function Lenient(raw: seq<Candidate>, norm: string -> string): map<string, nat> {
    VerdictMap(set k | k in NamesOf(raw, norm) && AllOver(raw, k, norm))
  }

  /** Every name with a candidate over the ceiling reads as over it. */
  ghost function Strict(raw: seq<Candidate>, norm: string -> string): map<string, nat> {
    VerdictMap(set k | k in NamesOf(raw, norm) && AnyOver(raw, k, norm))
  }

  lemma LenientAndStrict(raw: seq<Candidate>, k: string, norm: string -> string)
    ensures OverCeiling(k, Lenient(raw, norm)) <==> AllOver(raw, k, norm)
    ensures OverCeiling(k, Strict(raw, norm)) <==> AnyOver(raw, k, norm)
  {
    if AnyOver(raw, k, norm) {
      var c :| Namesake(c, raw, k, norm) && Over(c);
      assert k in NamesOf(raw, norm);
    }
    if AllOver(raw, k, norm) {
      var c :| Namesake(c, raw, k, norm);
      assert k in NamesOf(raw, norm);
    }
  }

  ghost predicate SameVerdicts(m1: map<string, nat>, m2: map<string, nat>, r: Candidate, ctx: Context) {
    forall c | c in ctx.components(r.artist.name) :: OverCeiling(ctx.norm(c), m1) <==> OverCeiling(ctx.norm(c), m2)
  }

  lemma SameVerdictsScoreAlike(m1: map<string, nat>, m2: map<string, nat>, r: Candidate, ctx: Context)
    requires SameVerdicts(m1, m2, r, ctx)
    ensures ScoreOne(r, m1, ctx) == ScoreOne(r, m2, ctx)
  {
    assert CollaboratorTooBig(r.artist, m1, ctx) <==> CollaboratorTooBig(r.artist, m2, ctx);
  }

  /** A stricter listener map can only lose a candidate's item. */
  lemma StricterLoses(m1: map<string, nat>, m2: map<string, nat>, r: Candidate, ctx: Context)
    requires forall k | OverCeiling(k, m1) :: OverCeiling(k, m2)
    ensures ScoreOne(r, m2, ctx) == [] || ScoreOne(r, m2, ctx) == ScoreOne(r, m1, ctx)
  {
    assert CollaboratorTooBig(r.artist, m1, ctx) ==> CollaboratorTooBig(r.artist, m2, ctx);
  }

  lemma {:induction false} ScoredIn(x: Item, s: seq<Candidate>, m: map<string, nat>, ctx: Context)
    ensures x in Scored(s, m, ctx) <==> exists r :: r in s && ScoreOne(r, m, ctx) == [x]
  {
    if s != [] {
      ScoredIn(x, s[1..], m, ctx);
      assert s == [s[0]] + s[1..];
      assert |ScoreOne(s[0], m, ctx)| <= 1;
      if x in ScoreOne(s[0], m, ctx) {
        assert s[0] in s && ScoreOne(s[0], m, ctx) == [x];
      }
    }
  }

  lemma StricterScores(s: seq<Candidate>, t: seq<Candidate>, m1: map<string, nat>, m2: map<string, nat>, ctx: Context)
    requires (forall r | r in s :: r in t) && forall k | OverCeiling(k, m1) :: OverCeiling(k, m2)
    ensures forall x | x in Scored(s, m2, ctx) :: x in Scored(t, m1, ctx)
  {
    forall x | x in Scored(s, m2, ctx) ensures x in Scored(t, m1, ctx) {
      ScoredIn(x, s, m2, ctx);
      ScoredIn(x, t, m1, ctx);
      var r :| r in s && ScoreOne(r, m2, ctx) == [x];
      StricterLoses(m1, m2, r, ctx);
    }
  }

  lemma {:induction false} ScoredAgrees(s: seq<Candidate>, m1: map<string, nat>, m2: map<string, nat>, ctx: Context)
    requires forall r | r in s :: ScoreOne(r, m1, ctx) == ScoreOne(r, m2, ctx)
    ensures Scored(s, m1, ctx) == Scored(s, m2, ctx)
  {
    if s != [] {
      ScoredAgrees(s[1..], m1, m2, ctx);
    }
  }

  lemma {:induction false} ScoredSplit(a: seq<Candidate>, b: seq<Candidate>, m: map<string, nat>, ctx: Context)
    ensures Scored(a + b, m, ctx) == Scored(a, m, ctx) + Scored(b, m, ctx)
  {
    if a == [] {
      assert a + b == b;
    } else {
      assert (a + b)[1..] == a[1..] + b;
      ScoredSplit(a[1..], b, m, ctx);
    }
  }

  lemma {:induction false} ScoredIgnoresOrder(a: seq<Candidate>, b: seq<Candidate>, m: map<string, nat>, ctx: Context)
    requires multiset(a) == multiset(b)
    ensures multiset(Scored(a, m, ctx)) == multiset(Scored(b, m, ctx))
  {
    SameElements(a, b);
    if a != [] {
      var x := a[0];
      var before, after := SplitAround(b, x);
      TailElements(a);
      ScoredIgnoresOrder(a[1..], before + after, m, ctx);
      ScoredAround(before, x, after, m, ctx);
    }
  }

  lemma ScoredAround(before: seq<Candidate>, x: Candidate, after: seq<Candidate>, m: map<string, nat>, ctx: Context)
    ensures multiset(Scored(before + [x] + after, m, ctx))
         == multiset(ScoreOne(x, m, ctx)) + multiset(Scored(before + after, m, ctx))
  {
    ScoredSplit(before + [x], after, m, ctx);
    ScoredSplit(before, [x], m, ctx);
    ScoredSplit(before, after, m, ctx);
    assert Scored([x], m, ctx) == ScoreOne(x, m, ctx);
  }

  // ── the exact condition ───────────────────────────────────────────────────

  /** Every arrival order of the candidates gives the same ranked list. */
  ghost predicate OrderIndependent(raw: seq<Candidate>, ctx: Context) {
    forall p: seq<Candidate> :: multiset(p) == multiset(raw) ==> RankedList(p, ctx) == RankedList(raw, ctx)
  }

  /** The items some arrival order scores. */
  ghost function Possible(raw: seq<Candidate>, ctx: Context): seq<Item> {
    Scored(raw, Lenient(raw, ctx.norm), ctx)
  }

  /** The items every arrival order scores. */
  ghost function Certain(raw: seq<Candidate>, ctx: Context): seq<Item> {
    Scored(raw, Strict(raw, ctx.norm), ctx)
  }

  /** Ties at the head of a name are harmless, and whatever heads a name is scored in
      every order. */
  ghost predicate LeadersSettled(raw: seq<Candidate>, ctx: Context) {
    && HarmlessTies(Possible(raw, ctx), ctx.norm)
    && forall x | Leads(x, Possible(raw, ctx), ctx.norm) :: x in Certain(raw, ctx)
  }

  /** What any order scores lies between the certain and the possible items. */
  lemma ScoredBetween(p: seq<Candidate>, raw: seq<Candidate>, ctx: Context)
    requires multiset(p) == multiset(raw)
    ensures forall x | x in Certain(raw, ctx) :: x in AllScored(p, ctx)
    ensures forall x | x in AllScored(p, ctx) :: x in Possible(raw, ctx)
  {
    SameElements(p, raw);
    var lenient, m, strict := Lenient(raw, ctx.norm), ListenerMap(p, ctx.norm), Strict(raw, ctx.norm);
    forall k
      ensures OverCeiling(k, lenient) ==> OverCeiling(k, m)
      ensures OverCeiling(k, m) ==> OverCeiling(k, strict)
    {
      LenientAndStrict(raw, k, ctx.norm);
      VerdictBounds(p, k, ctx.norm);
      assert forall c :: Namesake(c, p, k, ctx.norm) <==> Namesake(c, raw, k, ctx.norm);
    }
    StricterScores(raw, p, m, strict, ctx);
    StricterScores(p, raw, lenient, m, ctx);
  }

  lemma SortedScores(s: seq<Item>)
    ensures Sorted(Sort(s, ItemLe), ItemLe) && forall x :: x in Sort(s, ItemLe) <==> x in s
  {
    ItemLeIsTotalPreorder();
    SortSorts(s, ItemLe);
    SameElements(Sort(s, ItemLe), s);
  }

  lemma LeadsInSort(x: Item, s: seq<Item>, norm: string -> string)
    ensures Leads(x, Sort(s, ItemLe), norm) <==> Leads(x, s, norm)
  {
    SortedScores(s);
  }

  lemma KeptLeader(s: seq<Item>, y: Item, norm: string -> string) returns (x: Item)
    requires Sorted(s, ItemLe) && y in s
    ensures x in Dedup(s, norm) && norm(x.name) == norm(y.name)
    ensures Leads(x, s, norm) && ItemLe(x, y)
  {
    NamedBy(s, y.name, norm);
    DedupIsDrawn(s, norm);
    NamedBy(Dedup(s, norm), y.name, norm);
    x :| x in Dedup(s, norm) && norm(x.name) == norm(y.name);
    DedupLeads(s, x, norm);
  }

  /** Every name that occurs has a leader. */
  lemma NameHasLeader(s: seq<Item>, y: Item, norm: string -> string) returns (x: Item)
    requires y in s
    ensures Leads(x, s, norm) && norm(x.name) == norm(y.name)
  {
    SortedScores(s);
    x := KeptLeader(Sort(s, ItemLe), y, norm);
    LeadsInSort(x, s, norm);
  }

  /** Between the certain and the possible items, the leaders are always the same. */
  lemma SameLeaders(scored: seq<Item>, possible: seq<Item>, certain: seq<Item>, norm: string -> string, x: Item)
    requires (forall y | y in certain :: y in scored) && forall y | y in scored :: y in possible
    requires HarmlessTies(possible, norm) && forall y | Leads(y, possible, norm) :: y in certain
    ensures Leads(x, scored, norm) <==> Leads(x, possible, norm)
  {
    if Leads(x, scored, norm) {
      var y := NameHasLeader(possible, x, norm);
      assert ItemLe(x, y) && ItemLe(y, x);
    }
  }

  lemma DedupIffLeads(s: seq<Item>, x: Item, norm: string -> string)
    requires Sorted(s, ItemLe)
    requires forall y, z | Leads(y, s, norm) && Leads(z, s, norm) && norm(y.name) == norm(z.name) :: y == z
    ensures x in Dedup(s, norm) <==> Leads(x, s, norm)
  {
    DedupKeepsLeaders(s, norm);
    if Leads(x, s, norm) {
      var y :| y in Dedup(s, norm) && norm(y.name) == norm(x.name);
      assert Leads(y, s, norm);
    }
  }

  /** Two lists with the same leaders, one to a name, are deduplicated alike. */
  lemma SameDedup(a: seq<Item>, b: seq<Item>, norm: string -> string)
    requires Sorted(a, ItemLe) && Sorted(b, ItemLe)
    requires forall x :: Leads(x, a, norm) <==> Leads(x, b, norm)
    requires forall y, z | Leads(y, a, norm) && Leads(z, a, norm) && norm(y.name) == norm(z.name) :: y == z
    ensures Dedup(a, norm) == Dedup(b, norm)
  {
    var da, db := Dedup(a, norm), Dedup(b, norm);
    DedupDistinct(a, norm);
    DedupDistinct(b, norm);
    forall x ensures x in da <==> x in db {
      DedupIffLeads(a, x, norm);
      DedupIffLeads(b, x, norm);
    }
    DistinctNamesAreTieFree(da, norm);
    DedupSorted(a, norm);
    DedupSorted(b, norm);
    assert Reflexive(ItemLe) by { StrLeIsTotalOrder(); }
    DistinctSortedUnique(da, db, ItemLe);
  }

  /** In any order the ranked list is that of the possible items. */
  lemma SettledRanking(p: seq<Candidate>, raw: seq<Candidate>, ctx: Context)
    requires multiset(p) == multiset(raw) && LeadersSettled(raw, ctx)
    ensures RankedList(p, ctx) == Dedup(Sort(Possible(raw, ctx), ItemLe), ctx.norm)
  {
    var possible, scored := Possible(raw, ctx), AllScored(p, ctx);
    ScoredBetween(p, raw, ctx);
    SortedScores(possible);
    SortedScores(scored);
    var a, b := Sort(possible, ItemLe), Sort(scored, ItemLe);
    forall x ensures Leads(x, a, ctx.norm) <==> Leads(x, b, ctx.norm) {
      SameLeaders(scored, possible, Certain(raw, ctx), ctx.norm, x);
      LeadsInSort(x, possible, ctx.norm);
      LeadsInSort(x, scored, ctx.norm);
    }
    forall y, z | Leads(y, a, ctx.norm) && Leads(z, a, ctx.norm) && ctx.norm(y.name) == ctx.norm(z.name)
      ensures y == z
    {
      LeadsInSort(y, possible, ctx.norm);
      LeadsInSort(z, possible, ctx.norm);
    }
    SameDedup(a, b, ctx.norm);
  }

  lemma SettledLeadersSuffice(raw: seq<Candidate>, ctx: Context)
    requires LeadersSettled(raw, ctx)
    ensures OrderIndependent(raw, ctx)
  {
    forall p: seq<Candidate> | multiset(p) == multiset(raw)
      ensures RankedList(p, ctx) == RankedList(raw, ctx)
    {
      SettledRanking(p, raw, ctx);
      SettledRanking(raw, raw, ctx);
    }
  }

  lemma {:induction false} FirstOfNameIsKept(items: seq<Item>, i: nat, norm: string -> string)
    requires i < |items| && !NameSeen(items[..i], items[i].name, norm)
    ensures items[i] in Dedup(items, norm)
  {
    var n := |items| - 1;
    if i < n {
      assert items[..n][..i] == items[..i];
      FirstOfNameIsKept(items[..n], i, norm);
    }
  }

  lemma {:induction false} InsertAheadOfTies(x: Item, s: seq<Item>) returns (i: nat)
    ensures i <= |s| && Insert(x, s, ItemLe) == s[..i] + [x] + s[i..]
    ensures forall k | 0 <= k < i :: !ItemLe(x, s[k])
  {
    if s == [] || ItemLe(x, s[0]) {
      i := 0;
      assert s[..0] + [x] + s[0..] == [x] + s;
    } else {
      var j := InsertAheadOfTies(x, s[1..]);
      i := j + 1;
      assert [s[0]] + (s[1..][..j] + [x] + s[1..][j..]) == s[..i] + [x] + s[i..];
    }
  }

  /** A leading item that arrives first is the one its name is listed under. */
  lemma LeaderArrivingFirst(x: Item, rest: seq<Item>, norm: string -> string)
    requires Leads(x, [x] + rest, norm)
    ensures x in Dedup(Sort([x] + rest, ItemLe), norm)
  {
    var t := Sort(rest, ItemLe);
    assert ([x] + rest)[1..] == rest;
    ItemLeIsTotalPreorder();
    SortSorts(rest, ItemLe);
    SameElements(t, rest);
    var i := InsertAheadOfTies(x, t);
    var s := Insert(x, t, ItemLe);
    assert s[i] == x && s[..i] == t[..i];
    forall z | z in s[..i] ensures norm(z.name) != norm(x.name) {
      assert !ItemLe(x, z) && z in t && z in [x] + rest;
    }
    NamedBy(s[..i], x.name, norm);
    FirstOfNameIsKept(s, i, norm);
  }

  // ── the two extreme orders ────────────────────────────────────────────────

  function Filter(raw: seq<Candidate>, over: bool): seq<Candidate> {
    if raw == [] then []
    else (if Over(raw[0]) == over then [raw[0]] else []) + Filter(raw[1..], over)
  }

  lemma {:induction false} FilterParts(raw: seq<Candidate>)
    ensures forall c | c in Filter(raw, true) :: Over(c)
    ensures forall c | c in Filter(raw, false) :: !Over(c)
    ensures multiset(Filter(raw, true)) + multiset(Filter(raw, false)) == multiset(raw)
  {
    if raw != [] {
      FilterParts(raw[1..]);
      assert raw == [raw[0]] + raw[1..];
    }
  }

  /** Candidates over the ceiling score nothing themselves. */
  lemma {:induction false} OversScoreNothing(overs: seq<Candidate>, m: map<string, nat>, ctx: Context)
    requires forall c | c in overs :: Over(c)
    ensures Scored(overs, m, ctx) == []
  {
    if overs != [] {
      OversScoreNothing(overs[1..], m, ctx);
      assert Over(overs[0]) && ScoreOne(overs[0], m, ctx) == [];
    }
  }

  /** With the big ones first, the last word on each name is lenient; with them last, strict. */
  lemma ExtremeVerdicts(overs: seq<Candidate>, lows: seq<Candidate>, raw: seq<Candidate>, k: string,
                        norm: string -> string)
    requires (forall c | c in overs :: Over(c)) && forall c | c in lows :: !Over(c)
    requires multiset(overs) + multiset(lows) == multiset(raw)
    ensures OverCeiling(k, ListenerMap(overs + lows, norm)) <==> OverCeiling(k, Lenient(raw, norm))
    ensures OverCeiling(k, ListenerMap(lows + overs, norm)) <==> OverCeiling(k, Strict(raw, norm))
  {
    SameElements(overs + lows, raw);
    forall c ensures Namesake(c, raw, k, norm) <==> Namesake(c, overs, k, norm) || Namesake(c, lows, k, norm) {
      assert c in raw <==> c in overs + lows;
    }
    LenientAndStrict(raw, k, norm);
    ListenerMapOfConcat(overs, lows, k, norm);
    ListenerMapOfConcat(lows, overs, k, norm);
    ListenerMapIsDrawn(overs, k, norm);
    ListenerMapIsDrawn(lows, k, norm);
  }

  /** The order of arrival that lets `x`, a leader of the possible items, win its name. */
  lemma LeaderCanWin(x: Item, raw: seq<Candidate>, ctx: Context) returns (p: seq<Candidate>)
    requires Leads(x, Possible(raw, ctx), ctx.norm)
    ensures multiset(p) == multiset(raw) && x in RankedList(p, ctx)
  {
    var m := Lenient(raw, ctx.norm);
    ScoredIn(x, raw, m, ctx);
    var r :| r in raw && ScoreOne(r, m, ctx) == [x];
    var overs, rest := LeadWith(r, raw);
    p := overs + ([r] + rest);
    ScoredWithBigFirst(overs, [r] + rest, raw, ctx);
    assert ([r] + rest)[1..] == rest;
    SameElements([x] + Scored(rest, m, ctx), Possible(raw, ctx));
    LeaderArrivingFirst(x, Scored(rest, m, ctx), ctx.norm);
  }

  /** The candidates over the ceiling, then `r`, then the others. */
  lemma LeadWith(r: Candidate, raw: seq<Candidate>) returns (overs: seq<Candidate>, rest: seq<Candidate>)
    requires r in raw && !Over(r)
    ensures multiset(overs) + multiset([r] + rest) == multiset(raw)
    ensures (forall c | c in overs :: Over(c)) && forall c | c in [r] + rest :: !Over(c)
  {
    FilterParts(raw);
    overs := Filter(raw, true);
    var lows := Filter(raw, false);
    assert r in multiset(raw);
    assert r in overs || r in lows;
    rest := PutFirst(lows, r);
  }

  lemma PutFirst(lows: seq<Candidate>, r: Candidate) returns (rest: seq<Candidate>)
    requires r in lows
    ensures multiset([r] + rest) == multiset(lows) && forall c | c in [r] + rest :: c in lows
  {
    var before, after := SplitAround(lows, r);
    rest := before + after;
    SameElements([r] + rest, lows);
  }

  lemma ScoredWithBigFirst(overs: seq<Candidate>, lows: seq<Candidate>, raw: seq<Candidate>, ctx: Context)
    requires (forall c | c in overs :: Over(c)) && forall c | c in lows :: !Over(c)
    requires multiset(overs) + multiset(lows) == multiset(raw)
    ensures AllScored(overs + lows, ctx) == Scored(lows, Lenient(raw, ctx.norm), ctx)
    ensures multiset(Scored(lows, Lenient(raw, ctx.norm), ctx)) == multiset(Possible(raw, ctx))
  {
    var p, m := overs + lows, Lenient(raw, ctx.norm);
    forall r | r in p ensures ScoreOne(r, ListenerMap(p, ctx.norm), ctx) == ScoreOne(r, m, ctx) {
      forall k ensures OverCeiling(k, ListenerMap(p, ctx.norm)) <==> OverCeiling(k, m) {
        ExtremeVerdicts(overs, lows, raw, k, ctx.norm);
      }
      SameVerdictsScoreAlike(ListenerMap(p, ctx.norm), m, r, ctx);
    }
    ScoredAgrees(p, ListenerMap(p, ctx.norm), m, ctx);
    ScoredSplit(overs, lows, m, ctx);
    OversScoreNothing(overs, m, ctx);
    ScoredIgnoresOrder(p, raw, m, ctx);
  }

  /** With the big ones last only the certain items are scored. */
  lemma ScoredWithBigLast(raw: seq<Candidate>, ctx: Context) returns (p: seq<Candidate>)
    ensures multiset(p) == multiset(raw) && forall x :: x in AllScored(p, ctx) <==> x in Certain(raw, ctx)
  {
    FilterParts(raw);
    var overs, lows := Filter(raw, true), Filter(raw, false);
    p := lows + overs;
    var m := Strict(raw, ctx.norm);
    forall r | r in p ensures ScoreOne(r, ListenerMap(p, ctx.norm), ctx) == ScoreOne(r, m, ctx) {
      forall k ensures OverCeiling(k, ListenerMap(p, ctx.norm)) <==> OverCeiling(k, m) {
        ExtremeVerdicts(overs, lows, raw, k, ctx.norm);
      }
      SameVerdictsScoreAlike(ListenerMap(p, ctx.norm), m, r, ctx);
    }
    ScoredAgrees(p, ListenerMap(p, ctx.norm), m, ctx);
    ScoredIgnoresOrder(p, raw, m, ctx);
    SameElements(Scored(p, m, ctx), Certain(raw, ctx));
  }

  lemma TieAtTheHeadBreaks(x: Item, y: Item, raw: seq<Candidate>, ctx: Context)
    requires Leads(x, Possible(raw, ctx), ctx.norm) && Leads(y, Possible(raw, ctx), ctx.norm)
    requires x != y && x.name == y.name
    ensures !OrderIndependent(raw, ctx)
  {
    var px := LeaderCanWin(x, raw, ctx);
    var py := LeaderCanWin(y, raw, ctx);
    var d := RankedList(raw, ctx);
    if OrderIndependent(raw, ctx) {
      assert RankedList(px, ctx) == d && RankedList(py, ctx) == d;
      DedupDistinct(Sort(AllScored(raw, ctx), ItemLe), ctx.norm);
    }
  }

  /** A leader that some order does not score is listed in one order and lost in another. */
  lemma UncertainLeaderBreaks(x: Item, raw: seq<Candidate>, ctx: Context)
    requires Leads(x, Possible(raw, ctx), ctx.norm) && x !in Certain(raw, ctx)
    ensures !OrderIndependent(raw, ctx)
  {
    var won := LeaderCanWin(x, raw, ctx);
    var lost := ScoredWithBigLast(raw, ctx);
    SortedScores(AllScored(lost, ctx));
    DedupIsDrawn(Sort(AllScored(lost, ctx), ItemLe), ctx.norm);
    assert RankedList(won, ctx) != RankedList(lost, ctx);
  }

  /** Exactly when the ranked list ignores the arrival order: no two different items tie
      at the head of a name, and no head depends on which namesake of a collaborator
      arrived last. */
  lemma OrderIndependentIff(raw: seq<Candidate>, ctx: Context)
    ensures OrderIndependent(raw, ctx) <==> LeadersSettled(raw, ctx)
  {
    var s := Possible(raw, ctx);
    if LeadersSettled(raw, ctx) {
      SettledLeadersSuffice(raw, ctx);
    } else if x :| Leads(x, s, ctx.norm) && x !in Certain(raw, ctx) {
      UncertainLeaderBreaks(x, raw, ctx);
    } else {
      var x, y :| x in s && y in s && ItemLe(x, y) && ItemLe(y, x) && x != y && Leads(x, s, ctx.norm);
      TiesShareNames(x, y);
      TiedLeads(x, y, s, ctx.norm);
      TieAtTheHeadBreaks(x, y, raw, ctx);
    }
  }

  lemma TiedLeads(x: Item, y: Item, s: seq<Item>, norm: string -> string)
    requires Leads(x, s, norm) && y in s && ItemLe(x, y) && ItemLe(y, x) && x.name == y.name
    ensures Leads(y, s, norm)
  {
    forall z | z in s && norm(z.name) == norm(y.name) ensures ItemLe(y, z) {
      assert ItemLe(x, z);
    }
  }

  /** Namesakes of each collaborator that is looked up agree about the ceiling. */
  ghost predicate ComponentsAgree(raw: seq<Candidate>, ctx: Context) {
    forall r, c | r in raw && c in ctx.components(r.artist.name) ::
      AnyOver(raw, ctx.norm(c), ctx.norm) ==> AllOver(raw, ctx.norm(c), ctx.norm)
  }

  /** Then every order scores the same items, and only ties can matter. */
  lemma OrderIndependentIffTiesHarmless(raw: seq<Candidate>, ctx: Context)
    requires ComponentsAgree(raw, ctx)
    ensures Possible(raw, ctx) == AllScored(raw, ctx) == Certain(raw, ctx)
    ensures OrderIndependent(raw, ctx) <==> HarmlessTies(AllScored(raw, ctx), ctx.norm)
  {
    var lenient, m, strict := Lenient(raw, ctx.norm), ListenerMap(raw, ctx.norm), Strict(raw, ctx.norm);
    forall r | r in raw
      ensures ScoreOne(r, lenient, ctx) == ScoreOne(r, m, ctx) && ScoreOne(r, strict, ctx) == ScoreOne(r, m, ctx)
    {
      forall c | c in ctx.components(r.artist.name)
        ensures OverCeiling(ctx.norm(c), m) <==> OverCeiling(ctx.norm(c), lenient)
        ensures OverCeiling(ctx.norm(c), m) <==> OverCeiling(ctx.norm(c), strict)
      {
        LenientAndStrict(raw, ctx.norm(c), ctx.norm);
        VerdictBounds(raw, ctx.norm(c), ctx.norm);
      }
      SameVerdictsScoreAlike(lenient, m, r, ctx);
      SameVerdictsScoreAlike(strict, m, r, ctx);
    }
    ScoredAgrees(raw, lenient, m, ctx);
    ScoredAgrees(raw, strict, m, ctx);
    OrderIndependentIff(raw, ctx);
  }

  lemma {:induction false} ScoredNonNegative(raw: seq<Candidate>, m: map<string, nat>, ctx: Context)
    ensures NonNegative(Scored(raw, m, ctx))
  {
    if raw != [] {
      ScoredNonNegative(raw[1..], m, ctx);
    }
  }

  /** The ranked list that reaches the final pass: sorted, one entry per name, no
      negative score, so the final ranking's promises apply to it. */
  lemma RankedListIsReady(raw: seq<Candidate>, ctx: Context)
    ensures Sorted(RankedList(raw, ctx), ItemLe)
    ensures DistinctNames(RankedList(raw, ctx), ctx.norm)
    ensures NonNegative(RankedList(raw, ctx))
  {
    var s := AllScored(raw, ctx);
    ItemLeIsTotalPreorder();
    SortSorts(s, ItemLe);
    SameElements(Sort(s, ItemLe), s);
    DedupSorted(Sort(s, ItemLe), ctx.norm);
    DedupDistinct(Sort(s, ItemLe), ctx.norm);
    DedupIsDrawn(Sort(s, ItemLe), ctx.norm);
    ScoredNonNegative(raw, ListenerMap(raw, ctx.norm), ctx);
  }

  // ── the list, told without the functions that compute it ──────────────────

  /** The last candidate of normalized name `k` has more than 25000 listeners. */
  ghost predicate LastIsTooBig(k: string, raw: seq<Candidate>, norm: string -> string) {
    exists i: nat :: LastAt(i, k, raw, norm) && raw[i].artist.listeners > 25000
  }

  ghost predicate LastAt(i: nat, k: string, raw: seq<Candidate>, norm: string -> string) {
    && i < |raw| && norm(raw[i].artist.name) == k
    && forall j | i < j < |raw| :: norm(raw[j].artist.name) != k
  }

  ghost predicate Eligible(c: Candidate, raw: seq<Candidate>, ctx: Context) {
    var a, plays := c.artist, if c.artist.userPlays.Some? then c.artist.userPlays.value else 0;
    && !ctx.nonMusic(a.name, a.tags)
    && plays < (if ctx.underThreshold.Some? then ctx.underThreshold.value else 1)
    && ctx.norm(a.name) !in ctx.seedNorms && a.listeners <= 25000
    && forall p | p in ctx.components(a.name) :: !LastIsTooBig(ctx.norm(p), raw, ctx.norm)
  }

  ghost predicate IsScore(x: Item, raw: seq<Candidate>, ctx: Context) {
    exists c | c in raw :: Eligible(c, raw, ctx) && IsScoreOf(x, c, ctx)
  }

  /** Higher composite, or the same and a name no later. */
  ghost predicate RanksBefore(x: Item, y: Item) {
    x.composite > y.composite || (x.composite == y.composite && StrLe(x.name, y.name))
  }

  /** The list holds scores of eligible candidates only, ranked, one for each normalized
      name of theirs and none of that name's before it. */
  ghost predicate Ranks(list: seq<Item>, raw: seq<Candidate>, ctx: Context) {
    && (forall i, j | 0 <= i < j < |list| ::
          RanksBefore(list[i], list[j]) && ctx.norm(list[i].name) != ctx.norm(list[j].name))
    && (forall x | x in list :: IsScore(x, raw, ctx))
    && forall y | IsScore(y, raw, ctx) ::
         exists x | x in list :: ctx.norm(x.name) == ctx.norm(y.name) && RanksBefore(x, y)
  }

  lemma LastOneMore(front: seq<Candidate>, c: Candidate, k: string, norm: string -> string)
    ensures LastIsTooBig(k, front + [c], norm)
       <==> if norm(c.artist.name) == k then c.artist.listeners > 25000 else LastIsTooBig(k, front, norm)
  {
    var raw := front + [c];
    assert raw[|front|] == c && forall j | 0 <= j < |front| :: raw[j] == front[j];
    if norm(c.artist.name) == k {
      assert forall i: nat :: LastAt(i, k, raw, norm) <==> i == |front|;
    } else {
      forall i: nat ensures LastAt(i, k, raw, norm) <==> LastAt(i, k, front, norm) {}
    }
  }

  lemma {:induction false} OverCeilingIsLast(k: string, raw: seq<Candidate>, norm: string -> string)
    ensures OverCeiling(k, ListenerMap(raw, norm)) <==> LastIsTooBig(k, raw, norm)
  {
    if raw != [] {
      var n := |raw| - 1;
      OverCeilingIsLast(k, raw[..n], norm);
      LastOneMore(raw[..n], raw[n], k, norm);
      assert raw == raw[..n] + [raw[n]];
    }
  }

  lemma ScoreOneIs(c: Candidate, raw: seq<Candidate>, ctx: Context)
    ensures var s := ScoreOne(c, ListenerMap(raw, ctx.norm), ctx);
            if Eligible(c, raw, ctx) then |s| == 1 && IsScoreOf(s[0], c, ctx) else s == []
  {
    var m := ListenerMap(raw, ctx.norm);
    ScoreIsExact(c, m, ctx);
    forall p ensures OverCeiling(ctx.norm(p), m) <==> LastIsTooBig(ctx.norm(p), raw, ctx.norm) {
      OverCeilingIsLast(ctx.norm(p), raw, ctx.norm);
    }
  }

  lemma ScoredAreScores(x: Item, raw: seq<Candidate>, ctx: Context)
    ensures x in AllScored(raw, ctx) <==> IsScore(x, raw, ctx)
  {
    var m := ListenerMap(raw, ctx.norm);
    ScoredIn(x, raw, m, ctx);
    if x in AllScored(raw, ctx) {
      var c :| c in raw && ScoreOne(c, m, ctx) == [x];
      ScoreOneIs(c, raw, ctx);
    }
    if c :| c in raw && Eligible(c, raw, ctx) && IsScoreOf(x, c, ctx) {
      ScoreOneIs(c, raw, ctx);
      ScoreIsUnique(ScoreOne(c, m, ctx)[0], x, c, ctx);
      assert ScoreOne(c, m, ctx) == [x];
    }
  }

  /** Every score has an entry of its name ranked before it or equal to it. */
  lemma ScoreIsMatched(y: Item, raw: seq<Candidate>, ctx: Context) returns (x: Item)
    requires IsScore(y, raw, ctx)
    ensures x in RankedList(raw, ctx) && ctx.norm(x.name) == ctx.norm(y.name) && RanksBefore(x, y)
  {
    ScoredAreScores(y, raw, ctx);
    SortedScores(AllScored(raw, ctx));
    x := KeptLeader(Sort(AllScored(raw, ctx), ItemLe), y, ctx.norm);
  }

  lemma ListedIsScore(x: Item, raw: seq<Candidate>, ctx: Context)
    requires x in RankedList(raw, ctx)
    ensures IsScore(x, raw, ctx)
  {
    SortedScores(AllScored(raw, ctx));
    DedupIsDrawn(Sort(AllScored(raw, ctx), ItemLe), ctx.norm);
    ScoredAreScores(x, raw, ctx);
  }

  /** The ranked list is the ranking of the eligible candidates' scores. */
  lemma RankedListRanks(raw: seq<Candidate>, ctx: Context)
    ensures Ranks(RankedList(raw, ctx), raw, ctx)
  {
    RankedListIsReady(raw, ctx);
    var list := RankedList(raw, ctx);
    forall x | x in list ensures IsScore(x, raw, ctx) {
      ListedIsScore(x, raw, ctx);
    }
    forall y | IsScore(y, raw, ctx)
      ensures exists x | x in list :: ctx.norm(x.name) == ctx.norm(y.name) && RanksBefore(x, y)
    {
      var x := ScoreIsMatched(y, raw, ctx);
    }
  }

  // ── where order does show ─────────────────────────────────────────────────

  function PlainContext(weights: map<string, real>): Context {
    Context(weights, {}, map[], None, {}, s => s, s => s, s => [], (s, t) => false)
  }

  lemma TieBreaksOrder(raw: seq<Candidate>, x: Item, y: Item, ctx: Context)
    requires ComponentsAgree(raw, ctx) && AllScored(raw, ctx) == [x, y]
    requires x != y && x.name == y.name && x.composite == y.composite
    ensures !OrderIndependent(raw, ctx)
  {
    OrderIndependentIffTiesHarmless(raw, ctx);
    StrLeTotal(x.name, x.name);
    assert Leads(x, [x, y], ctx.norm) && Leads(y, [x, y], ctx.norm);
    TieAtTheHeadBreaks(x, y, raw, ctx);
  }

  lemma ScoredAlone(artist: Artist, seed: string, listeners: map<string, nat>, ctx: Context)
    requires seed in ctx.seedWeights && ctx.seedWeights[seed] == 1.0
    requires !Excluded(artist, listeners, ctx) && !ctx.nonMusic(artist.name, artist.tags)
    ensures ScoreOne(Candidate(artist, [seed]), listeners, ctx) == [ScoredItem(artist, [seed], ctx)]
    ensures ScoredItem(artist, [seed], ctx).sourceSeeds == [SourceSeed(seed, 1.0)]
    ensures SumPercentiles(CreditedSeeds([seed], ctx.seedWeights)) == 1.0
  {
    assert [seed][1..] == [];
    SortOne(seed, StrLe);
    SortOne(SourceSeed(seed, 1.0), HigherPercentile);
    assert CreditedSeeds([seed], ctx.seedWeights) == [SourceSeed(seed, 1.0)];
  }

  /** The unlucky case, concretely: the same artist found under two keys, by seeds of
      equal weight, is credited to whichever lookup came back first. */
  lemma TieCanShow()
    ensures exists raw, ctx :: ComponentsAgree(raw, ctx) && !OrderIndependent(raw, ctx)
  {
    var artist := Artist("x", 1, 1, None, []);
    var ctx := PlainContext(map["p" := 1.0, "q" := 1.0]);
    var p, q := Candidate(artist, ["p"]), Candidate(artist, ["q"]);
    var raw := [p, q];
    var m := ListenerMap(raw, ctx.norm);
    ScoredAlone(artist, "p", m, ctx);
    ScoredAlone(artist, "q", m, ctx);
    var x, y := ScoredItem(artist, ["p"], ctx), ScoredItem(artist, ["q"], ctx);
    assert raw[1..] == [q] && [q][1..] == [];
    assert Scored([q], m, ctx) == [y];
    assert x.sourceSeeds != y.sourceSeeds;
    TieBreaksOrder(raw, x, y, ctx);
  }

  lemma RankedNames(raw: seq<Candidate>, name: string, ctx: Context)
    ensures NameSeen(RankedList(raw, ctx), name, ctx.norm) <==> NameSeen(AllScored(raw, ctx), name, ctx.norm)
  {
    var s := AllScored(raw, ctx);
    RankedIsBestFirst(s);
    SameElements(Sort(s, ItemLe), s);
    DedupIsDrawn(Sort(s, ItemLe), ctx.norm);
    NamedBy(s, name, ctx.norm);
    NamedBy(Sort(s, ItemLe), name, ctx.norm);
  }

  lemma ListenerMapOfThree(a: Candidate, b: Candidate, c: Candidate, norm: string -> string)
    ensures ListenerMap([a, b, c], norm)
         == map[][norm(a.artist.name) := a.artist.listeners]
                 [norm(b.artist.name) := b.artist.listeners]
                 [norm(c.artist.name) := c.artist.listeners]
  {
    assert [a, b, c][..2] == [a, b] && [a, b][..1] == [a] && [a][..0] == [];
    assert ListenerMap([a], norm) == map[][norm(a.artist.name) := a.artist.listeners];
    assert ListenerMap([a, b], norm) == ListenerMap([a], norm)[norm(b.artist.name) := b.artist.listeners];
  }

  lemma ScoredOfThree(a: Candidate, b: Candidate, c: Candidate, m: map<string, nat>, ctx: Context)
    ensures Scored([a, b, c], m, ctx) == ScoreOne(a, m, ctx) + (ScoreOne(b, m, ctx) + ScoreOne(c, m, ctx))
  {
    assert [a, b, c][1..] == [b, c] && [b, c][1..] == [c] && [c][1..] == [];
    assert Scored([c], m, ctx) == ScoreOne(c, m, ctx);
    assert Scored([b, c], m, ctx) == ScoreOne(b, m, ctx) + Scored([c], m, ctx);
  }

  const DUO := Candidate(Artist("duo & big", 1, 1, None, ["s"]), ["s"])
  const BIG := Candidate(Artist("big", 30000, 1, None, ["s"]), ["s"])
  const SMALL := Candidate(Artist("Big", 20000, 1, Some(1), ["s"]), ["s"])

  function DuoContext(): Context {
    PlainContext(map["s" := 1.0]).(
      norm := (s: string) => if s == "Big" then "big" else s,
      components := (s: string) => if s == "duo & big" then ["duo", "big"] else [])
  }

  lemma DuoComponents(listeners: map<string, nat>)
    requires "duo" !in listeners && "big" in listeners
    ensures CollaboratorTooBig(DUO.artist, listeners, DuoContext()) <==> listeners["big"] > MAX_LISTENER_CEILING
    ensures ScoreOne(BIG, listeners, DuoContext()) == [] && ScoreOne(SMALL, listeners, DuoContext()) == []
  {
    var ctx := DuoContext();
    assert ctx.components("duo & big") == ["duo", "big"] && ["duo", "big"][1] == "big";
    assert "duo"[0] == 'd' && "big"[0] == 'b' && "Big"[0] == 'B';
    assert ctx.norm("duo") == "duo" && ctx.norm("big") == "big";
    assert forall c | c in ctx.components("duo & big") :: c == "duo" || c == "big";
  }

  lemma DuoKept()
    ensures AllScored([DUO, BIG, SMALL], DuoContext()) == [ScoredItem(DUO.artist, DistinctSorted(["s"]), DuoContext())]
  {
    var ctx := DuoContext();
    ListenerMapOfThree(DUO, BIG, SMALL, ctx.norm);
    var m := ListenerMap([DUO, BIG, SMALL], ctx.norm);
    assert m["big"] == 20000 && "duo" !in m;
    DuoComponents(m);
    ScoredOfThree(DUO, BIG, SMALL, m, ctx);
  }

  lemma DuoDropped()
    ensures AllScored([DUO, SMALL, BIG], DuoContext()) == []
  {
    var ctx := DuoContext();
    ListenerMapOfThree(DUO, SMALL, BIG, ctx.norm);
    var m := ListenerMap([DUO, SMALL, BIG], ctx.norm);
    assert m["big"] == 30000 && "duo" !in m;
    DuoComponents(m);
    ScoredOfThree(DUO, SMALL, BIG, m, ctx);
  }

  lemma LostItemBreaksOrder(raw: seq<Candidate>, p: seq<Candidate>, x: Item, ctx: Context)
    requires multiset(p) == multiset(raw)
    requires AllScored(raw, ctx) == [x] && AllScored(p, ctx) == []
    ensures !OrderIndependent(raw, ctx)
  {
    RankedNames(raw, x.name, ctx);
    RankedNames(p, x.name, ctx);
    NamedBy([x], x.name, ctx.norm);
    assert x in [x];
    assert RankedList(p, ctx) != RankedList(raw, ctx);
  }

  /** The other unlucky case: when two artists share a collaborator's normalized name,
      one over the ceiling and one not, the later arrival decides the collaboration. */
  lemma CeilingCanFlip()
    ensures !OrderIndependent([DUO, BIG, SMALL], DuoContext())
  {
    DuoKept();
    DuoDropped();
    var raw, p := [DUO, BIG, SMALL], [DUO, SMALL, BIG];
    LostItemBreaksOrder(raw, p, ScoredItem(DUO.artist, DistinctSorted(["s"]), DuoContext()), DuoContext());
  }

  // ── the candidate cap ─────────────────────────────────────────────────────

  datatype Entry = Entry(key: string, display: string, recommenders: seq<string>)

  /** More recommenders first, keys breaking ties. */
  predicate EntryLe(a: Entry, b: Entry) {
    |a.recommenders| > |b.recommenders| || (|a.recommenders| == |b.recommenders| && StrLe(a.key, b.key))
  }

  /** The entries a hash map hands out, in whatever order. */
  function Cap(entries: seq<Entry>): seq<Entry> {
    if |entries| > MAX_CANDIDATES_FOR_INFO_FETCH
    then Take(MAX_CANDIDATES_FOR_INFO_FETCH, Sort(entries, EntryLe))
    else entries
  }

  ghost predicate DistinctKeys(entries: seq<Entry>) {
    forall i, j | 0 <= i < j < |entries| :: entries[i].key != entries[j].key
  }

  lemma EntryLeIsTotalPreorder()
    ensures TotalPreorder(EntryLe)
  {
    StrLeIsTotalOrder();
  }

  lemma DistinctKeysAreTieFree(entries: seq<Entry>)
    requires DistinctKeys(entries)
    ensures TieFree(entries, EntryLe)
  {
    forall x, y | x in entries && y in entries && EntryLe(x, y) && EntryLe(y, x) ensures x == y {
      StrLeTotal(x.key, y.key);
    }
  }

  lemma BestOfSorted(s: seq<Entry>, n: nat)
    requires Sorted(s, EntryLe) && n <= |s|
    ensures multiset(s[..n]) <= multiset(s)
    ensures forall x, y | x in s[..n] && y in multiset(s) - multiset(s[..n]) :: EntryLe(x, y)
  {
    assert s == s[..n] + s[n..];
    assert multiset(s) - multiset(s[..n]) == multiset(s[n..]);
    forall x, y | x in s[..n] && y in multiset(s[n..]) ensures EntryLe(x, y) {
      assert y in s[n..];
    }
  }

  /** Which candidates survive the cap depends on the candidate map alone, not on the
      order it is walked in; exactly 600 or all of them survive, and each survivor comes
      before everything dropped. */
  lemma CapIsAFunctionOfTheMap(a: seq<Entry>, b: seq<Entry>)
    requires multiset(a) == multiset(b) && DistinctKeys(a)
    ensures multiset(Cap(a)) == multiset(Cap(b))
    ensures |Cap(a)| == if |a| > 600 then 600 else |a|
    ensures multiset(Cap(a)) <= multiset(a)
    ensures forall x, y | x in Cap(a) && y in multiset(a) - multiset(Cap(a)) ::
              || |x.recommenders| > |y.recommenders|
              || (|x.recommenders| == |y.recommenders| && StrLe(x.key, y.key))
  {
    SameElements(a, b);
    if |a| > MAX_CANDIDATES_FOR_INFO_FETCH {
      EntryLeIsTotalPreorder();
      DistinctKeysAreTieFree(a);
      SortIgnoresOrder(a, b, EntryLe);
      SortSorts(a, EntryLe);
      SameElements(Sort(a, EntryLe), a);
      BestOfSorted(Sort(a, EntryLe), MAX_CANDIDATES_FOR_INFO_FETCH);
    }
  }
}
