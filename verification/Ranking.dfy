/** The tail of the ranking: genre-fit uplift, re-sort, at most three artists per
    primary genre, the cut at 25 with its reserve, and the dismissal backfill.

    Scores are reals. Lower-casing and name normalization are parameters, and so is
    the genre-weight map: every result below holds for any choice of them. */
module Ranking {
  import opened Ordering

  const DIVERSITY_SLOTS_PER_GENRE: nat := 3
  const MAX_RECOMMENDATIONS: nat := 25

  datatype SourceSeed = SourceSeed(name: string, percentile: real)

  datatype Item = Item(
    name: string,
    stickiness: real,
    conviction: nat,
    composite: real,
    listeners: nat,
    tags: seq<string>,
    sourceSeeds: seq<SourceSeed>,
    crossValidated: bool,
    tasteAlignment: real,
    userPlaycount: nat,
    reengagement: bool)

  /** Best composite first, names breaking ties. */
  predicate ItemLe(a: Item, b: Item) {
    a.composite > b.composite || (a.composite == b.composite && StrLe(a.name, b.name))
  }

  lemma ItemLeIsTotalPreorder()
    ensures TotalPreorder(ItemLe)
  {
    StrLeIsTotalOrder();
  }

  /** Composites never increase along the list. */
  ghost predicate BestFirst(items: seq<Item>) {
    forall i, j | 0 <= i < j < |items| :: items[i].composite >= items[j].composite
  }

  // ── primary genre ─────────────────────────────────────────────────────────

  function Weight(tag: string, weights: map<string, real>, lower: string -> string): real {
    if lower(tag) in weights then weights[lower(tag)] else 0.0
  }

  /** Index of the tag `max_by` returns: of the heaviest tags, the last. */
  function HeaviestTag(tags: seq<string>, weights: map<string, real>, lower: string -> string): (r: nat)
    requires tags != []
    ensures r < |tags|
    ensures forall j | 0 <= j < |tags| :: Weight(tags[j], weights, lower) <= Weight(tags[r], weights, lower)
    ensures forall j | r < j < |tags| :: Weight(tags[j], weights, lower) < Weight(tags[r], weights, lower)
  {
    var last := |tags| - 1;
    if last == 0 then 0
    else
      var best := HeaviestTag(tags[..last], weights, lower);
      if Weight(tags[best], weights, lower) > Weight(tags[last], weights, lower) then best else last
  }

  function PrimaryGenre(item: Item, weights: map<string, real>, lower: string -> string): string {
    if item.tags == [] then "untagged"
    else lower(item.tags[HeaviestTag(item.tags, weights, lower)])
  }

  function GenreOf(weights: map<string, real>, lower: string -> string): Item -> string {
    a => PrimaryGenre(a, weights, lower)
  }

  ghost predicate NoHeavier(a: string, b: string, weights: map<string, real>, lower: string -> string) {
    (if lower(a) in weights then weights[lower(a)] else 0.0)
    <= (if lower(b) in weights then weights[lower(b)] else 0.0)
  }

  /** `g` is the last of the heaviest tags, or "untagged": told from tags and weights alone. */
  ghost predicate PrimaryIs(item: Item, g: string, weights: map<string, real>, lower: string -> string) {
    if item.tags == [] then g == "untagged"
    else exists t :: 0 <= t < |item.tags| && lower(item.tags[t]) == g && LastHeaviest(item.tags, t, weights, lower)
  }

  ghost predicate LastHeaviest(tags: seq<string>, t: nat, weights: map<string, real>, lower: string -> string)
    requires t < |tags|
  {
    && (forall u | 0 <= u < |tags| :: NoHeavier(tags[u], tags[t], weights, lower))
    && forall u | t < u < |tags| :: !NoHeavier(tags[t], tags[u], weights, lower)
  }

  /** Every artist has one primary genre. */
  lemma PrimaryIsGenre(item: Item, g: string, weights: map<string, real>, lower: string -> string)
    ensures PrimaryIs(item, g, weights, lower) <==> g == PrimaryGenre(item, weights, lower)
  {
    if item.tags != [] {
      var r := HeaviestTag(item.tags, weights, lower);
      assert LastHeaviest(item.tags, r, weights, lower);
      if PrimaryIs(item, g, weights, lower) {
        var t :| 0 <= t < |item.tags| && lower(item.tags[t]) == g && LastHeaviest(item.tags, t, weights, lower);
        assert t == r;
      }
    }
  }

  // ── selections and genre quotas ───────────────────────────────────────────

  function Genres(items: seq<Item>, genre: Item -> string): (r: seq<string>)
    ensures |r| == |items|
  {
    if items == [] then [] else Genres(items[..|items| - 1], genre) + [genre(items[|items| - 1])]
  }

  function CountOf(g: string, items: seq<Item>, genre: Item -> string): nat {
    multiset(Genres(items, genre))[g]
  }

  /** No genre fills more than its slots. */
  ghost predicate WithinQuota(items: seq<Item>, genre: Item -> string) {
    forall g :: CountOf(g, items, genre) <= DIVERSITY_SLOTS_PER_GENRE
  }

  /** What the greedy filter keeps, read off the list from its end. */
  function Diverse(items: seq<Item>, genre: Item -> string): seq<Item> {
    if items == [] then []
    else
      var kept := Diverse(items[..|items| - 1], genre);
      var last := items[|items| - 1];
      if CountOf(genre(last), kept, genre) < DIVERSITY_SLOTS_PER_GENRE then kept + [last] else kept
  }

  /** The items whose mark is set, in list order. */
  function Select(items: seq<Item>, marks: seq<bool>): seq<Item>
    requires |marks| == |items|
  {
    if items == [] then []
    else
      var n := |items| - 1;
      Select(items[..n], marks[..n]) + (if marks[n] then [items[n]] else [])
  }

  lemma GenresSnoc(items: seq<Item>, x: Item, genre: Item -> string)
    ensures Genres(items + [x], genre) == Genres(items, genre) + [genre(x)]
  {
    assert (items + [x])[..|items|] == items;
  }

  lemma {:induction false} DiverseFillsSlots(items: seq<Item>, genre: Item -> string, g: string)
    ensures CountOf(g, Diverse(items, genre), genre)
         == if CountOf(g, items, genre) < DIVERSITY_SLOTS_PER_GENRE then CountOf(g, items, genre)
            else DIVERSITY_SLOTS_PER_GENRE
  {
    if items != [] {
      var n := |items| - 1;
      DiverseFillsSlots(items[..n], genre, g);
      GenresSnoc(Diverse(items[..n], genre), items[n], genre);
    }
  }

  lemma {:induction false} SelectCounts(items: seq<Item>, marks: seq<bool>, genre: Item -> string, g: string)
    requires |marks| == |items|
    ensures CountOf(g, Select(items, marks), genre) <= CountOf(g, items, genre)
  {
    if items != [] {
      var n := |items| - 1;
      SelectCounts(items[..n], marks[..n], genre, g);
      if marks[n] {
        GenresSnoc(Select(items[..n], marks[..n]), items[n], genre);
      } else {
        assert Select(items, marks) == Select(items[..n], marks[..n]);
      }
    }
  }

  /** No selection within the quota is longer than the greedy one. */
  lemma GreedyIsLongest(items: seq<Item>, marks: seq<bool>, genre: Item -> string)
    requires |marks| == |items| && WithinQuota(Select(items, marks), genre)
    ensures |Select(items, marks)| <= |Diverse(items, genre)|
  {
    var a := multiset(Genres(Select(items, marks), genre));
    var b := multiset(Genres(Diverse(items, genre), genre));
    forall g ensures a[g] <= b[g] {
      DiverseFillsSlots(items, genre, g);
      SelectCounts(items, marks, genre, g);
      assert CountOf(g, Select(items, marks), genre) <= DIVERSITY_SLOTS_PER_GENRE;
    }
    assert b == a + (b - a);
  }

  lemma {:induction false} DiverseIsDrawn(items: seq<Item>, genre: Item -> string)
    ensures forall x | x in Diverse(items, genre) :: x in items
  {
    if items != [] {
      DiverseIsDrawn(items[..|items| - 1], genre);
    }
  }

  lemma QuotaOfPrefix(items: seq<Item>, marks: seq<bool>, genre: Item -> string)
    requires |marks| == |items| && items != []
    requires WithinQuota(Select(items, marks), genre)
    ensures var n := |items| - 1; WithinQuota(Select(items[..n], marks[..n]), genre)
  {
    var n := |items| - 1;
    var shorter := Select(items[..n], marks[..n]);
    forall g ensures CountOf(g, shorter, genre) <= DIVERSITY_SLOTS_PER_GENRE {
      assert CountOf(g, Select(items, marks), genre) <= DIVERSITY_SLOTS_PER_GENRE;
      if marks[n] {
        GenresSnoc(shorter, items[n], genre);
      } else {
        assert Select(items, marks) == shorter;
      }
    }
  }

  lemma LastIsLeast(items: seq<Item>, x: Item)
    requires BestFirst(items) && x in items
    ensures x.composite >= items[|items| - 1].composite
  {
    var k :| 0 <= k < |items| && items[k] == x;
  }

  lemma OneMoreDominated(kept: seq<Item>, before: seq<Item>, sel: seq<Item>, shorter: seq<Item>, last: Item)
    requires before <= kept && (sel == shorter || sel == shorter + [last]) && |sel| <= |kept|
    requires |shorter| <= |before| && forall i | 0 <= i < |shorter| :: before[i].composite >= shorter[i].composite
    requires forall x | x in kept :: x.composite >= last.composite
    ensures forall i | 0 <= i < |sel| :: kept[i].composite >= sel[i].composite
  {
    forall i | 0 <= i < |sel| ensures kept[i].composite >= sel[i].composite {
      if i >= |shorter| {
        assert kept[i] in kept;
      }
    }
  }

  /** On a best-first list the i-th item the greedy filter keeps scores at least as
      much as the i-th item of any other selection within the quota. */
  lemma {:induction false} GreedyDominates(items: seq<Item>, marks: seq<bool>, genre: Item -> string)
    requires |marks| == |items| && BestFirst(items)
    requires WithinQuota(Select(items, marks), genre)
    ensures |Select(items, marks)| <= |Diverse(items, genre)|
    ensures forall i | 0 <= i < |Select(items, marks)| ::
              Diverse(items, genre)[i].composite >= Select(items, marks)[i].composite
  {
    GreedyIsLongest(items, marks, genre);
    if items != [] {
      var n := |items| - 1;
      QuotaOfPrefix(items, marks, genre);
      GreedyDominates(items[..n], marks[..n], genre);
      DiverseIsDrawn(items, genre);
      forall x | x in Diverse(items, genre) ensures x.composite >= items[n].composite {
        LastIsLeast(items, x);
      }
      OneMoreDominated(Diverse(items, genre), Diverse(items[..n], genre), Select(items, marks),
                       Select(items[..n], marks[..n]), items[n]);
    }
  }

  // ── total score of the cut ────────────────────────────────────────────────

  function Total(items: seq<Item>): real {
    if items == [] then 0.0 else Total(items[..|items| - 1]) + items[|items| - 1].composite
  }

  ghost predicate NonNegative(items: seq<Item>) {
    forall x | x in items :: x.composite >= 0.0
  }

  lemma {:induction false} TotalOfPrefix(b: seq<Item>, m: nat)
    requires NonNegative(b) && m <= |b|
    ensures Total(b[..m]) <= Total(b)
  {
    var n := |b| - 1;
    if m <= n {
      assert b == b[..n] + [b[n]] && b[..n][..m] == b[..m];
      TotalOfPrefix(b[..n], m);
    } else {
      assert b[..m] == b;
    }
  }

  lemma {:induction false} TotalPointwise(a: seq<Item>, b: seq<Item>)
    requires |a| == |b| && forall i | 0 <= i < |a| :: b[i].composite >= a[i].composite
    ensures Total(a) <= Total(b)
  {
    if b != [] {
      TotalPointwise(a[..|a| - 1], b[..|b| - 1]);
    }
  }

  lemma TotalDominated(a: seq<Item>, b: seq<Item>)
    requires |a| <= |b| && NonNegative(b)
    requires forall i | 0 <= i < |a| :: b[i].composite >= a[i].composite
    ensures Total(a) <= Total(b)
  {
    TotalPointwise(a, b[..|a|]);
    TotalOfPrefix(b, |a|);
  }

  lemma {:induction false} TotalSplit(a: seq<Item>, b: seq<Item>)
    ensures Total(a + b) == Total(a) + Total(b)
  {
    if b == [] {
      assert a + b == a;
    } else {
      var n := |b| - 1;
      assert (a + b)[..|a| + n] == a + b[..n];
      TotalSplit(a, b[..n]);
    }
  }

  lemma TotalHead(a: seq<Item>)
    requires a != []
    ensures Total(a) == Total(a[1..]) + a[0].composite
  {
    TotalAround([], a[0], a[1..]);
    assert a == [] + [a[0]] + a[1..] && [] + a[1..] == a[1..];
  }

  lemma {:induction false} TotalIgnoresOrder(a: seq<Item>, b: seq<Item>)
    requires multiset(a) == multiset(b)
    ensures Total(a) == Total(b)
  {
    SameElements(a, b);
    if a != [] {
      var before, after := SplitAround(b, a[0]);
      TailElements(a);
      TotalIgnoresOrder(a[1..], before + after);
      TotalHead(a);
      TotalAround(before, a[0], after);
    }
  }

  lemma TotalAround(before: seq<Item>, x: Item, after: seq<Item>)
    ensures Total(before + [x] + after) == Total(before + after) + x.composite
  {
    TotalSplit(before + [x], after);
    TotalSplit(before, after);
    assert (before + [x])[..|before|] == before;
  }

  /** Marks picking the wanted elements out of a list that has them. */
  function MarksFor(items: seq<Item>, wanted: multiset<Item>): (marks: seq<bool>)
    ensures |marks| == |items|
  {
    if items == [] then []
    else
      var last := items[|items| - 1];
      MarksFor(items[..|items| - 1], wanted - multiset{last}) + [last in wanted]
  }

  lemma {:induction false} MarksPickWanted(items: seq<Item>, wanted: multiset<Item>)
    requires wanted <= multiset(items)
    ensures multiset(Select(items, MarksFor(items, wanted))) == wanted
  {
    if items != [] {
      var n := |items| - 1;
      assert items == items[..n] + [items[n]];
      MarksPickWanted(items[..n], wanted - multiset{items[n]});
      var marks := MarksFor(items, wanted);
      assert marks[..n] == MarksFor(items[..n], wanted - multiset{items[n]});
    }
  }

  lemma GenresHead(a: seq<Item>, genre: Item -> string)
    requires a != []
    ensures multiset(Genres(a, genre)) == multiset(Genres(a[1..], genre)) + multiset{genre(a[0])}
  {
    GenresAround([], a[0], a[1..], genre);
    assert a == [] + [a[0]] + a[1..] && [] + a[1..] == a[1..];
  }

  lemma {:induction false} CountsIgnoreOrder(a: seq<Item>, b: seq<Item>, genre: Item -> string)
    requires multiset(a) == multiset(b)
    ensures multiset(Genres(a, genre)) == multiset(Genres(b, genre))
  {
    SameElements(a, b);
    if a != [] {
      var before, after := SplitAround(b, a[0]);
      TailElements(a);
      CountsIgnoreOrder(a[1..], before + after, genre);
      GenresHead(a, genre);
      GenresAround(before, a[0], after, genre);
    }
  }

  lemma GenresAround(before: seq<Item>, x: Item, after: seq<Item>, genre: Item -> string)
    ensures multiset(Genres(before + [x] + after, genre))
         == multiset(Genres(before + after, genre)) + multiset{genre(x)}
  {
    GenresSplit(before + [x], after, genre);
    GenresSplit(before, after, genre);
    GenresSnoc(before, x, genre);
  }

  lemma {:induction false} GenresSplit(a: seq<Item>, b: seq<Item>, genre: Item -> string)
    ensures Genres(a + b, genre) == Genres(a, genre) + Genres(b, genre)
  {
    if b == [] {
      assert a + b == a;
    } else {
      var n := |b| - 1;
      assert (a + b)[..|a| + n] == a + b[..n];
      GenresSplit(a, b[..n], genre);
    }
  }

  function Take<T>(n: nat, s: seq<T>): seq<T> {
    if n < |s| then s[..n] else s
  }

  /** The greedy filter followed by the cut is optimal: whichever items one picks out
      of a best-first list, in whatever order, at most `cap` of them and no genre over
      quota, they score no more in total than the filter's first `cap`. */
  lemma GreedyCutIsOptimal(items: seq<Item>, pick: seq<Item>, genre: Item -> string, cap: nat)
    requires BestFirst(items) && NonNegative(items)
    requires multiset(pick) <= multiset(items) && |pick| <= cap && WithinQuota(pick, genre)
    ensures Total(pick) <= Total(Take(cap, Diverse(items, genre)))
  {
    var marks := MarksFor(items, multiset(pick));
    MarksPickWanted(items, multiset(pick));
    var sel := Select(items, marks);
    assert |sel| == |pick| by { SameElements(sel, pick); }
    TotalIgnoresOrder(sel, pick);
    CountsIgnoreOrder(sel, pick, genre);
    assert WithinQuota(sel, genre) by {
      forall g ensures CountOf(g, sel, genre) <= DIVERSITY_SLOTS_PER_GENRE {
        assert CountOf(g, pick, genre) <= DIVERSITY_SLOTS_PER_GENRE;
      }
    }
    GreedyDominates(items, marks, genre);
    DiverseIsDrawn(items, genre);
    var top := Take(cap, Diverse(items, genre));
    assert NonNegative(top) by {
      forall x | x in top ensures x.composite >= 0.0 {
        assert x in Diverse(items, genre) && x in items;
      }
    }
    TotalDominated(sel, top);
  }

  /** The greedy result is itself one of those picks: drawn from the list in list
      order and within the quota. */
  lemma {:induction false} DiverseIsASelection(items: seq<Item>, genre: Item -> string) returns (marks: seq<bool>)
    ensures |marks| == |items| && Select(items, marks) == Diverse(items, genre)
    ensures WithinQuota(Diverse(items, genre), genre)
  {
    forall g ensures CountOf(g, Diverse(items, genre), genre) <= DIVERSITY_SLOTS_PER_GENRE {
      DiverseFillsSlots(items, genre, g);
    }
    if items == [] {
      marks := [];
    } else {
      var n := |items| - 1;
      var shorter := DiverseIsASelection(items[..n], genre);
      marks := shorter + [|Diverse(items, genre)| > |Diverse(items[..n], genre)|];
      assert marks[..n] == shorter;
    }
  }

  /** The greedy filter keeps a best-first list best first. */
  lemma {:induction false} DiverseBestFirst(items: seq<Item>, genre: Item -> string)
    requires BestFirst(items)
    ensures BestFirst(Diverse(items, genre))
  {
    if items != [] {
      var n := |items| - 1;
      DiverseBestFirst(items[..n], genre);
      DiverseIsDrawn(items[..n], genre);
      forall x | x in Diverse(items[..n], genre) ensures x.composite >= items[n].composite {
        assert x in items[..n];
      }
    }
  }

  // ── the pass itself ───────────────────────────────────────────────────────

  function Slots(slotCount: map<string, nat>, g: string): nat {
    if g in slotCount then slotCount[g] else 0
  }

  /** The counters say how many of each genre are kept. */
  ghost predicate Counted(slotCount: map<string, nat>, kept: seq<Item>, genre: Item -> string) {
    forall g :: CountOf(g, kept, genre) == Slots(slotCount, g)
  }

  lemma FillSlot(slotCount: map<string, nat>, kept: seq<Item>, x: Item, genre: Item -> string)
    requires Counted(slotCount, kept, genre)
    ensures Counted(slotCount[genre(x) := Slots(slotCount, genre(x)) + 1], kept + [x], genre)
  {
    var next := slotCount[genre(x) := Slots(slotCount, genre(x)) + 1];
    GenresSnoc(kept, x, genre);
    forall g ensures CountOf(g, kept + [x], genre) == Slots(next, g) {
      assert CountOf(g, kept, genre) == Slots(slotCount, g);
    }
  }

  lemma OpenSlot(slotCount: map<string, nat>, kept: seq<Item>, g: string, genre: Item -> string)
    requires Counted(slotCount, kept, genre) && g !in slotCount
    ensures Counted(slotCount[g := 0], kept, genre)
  {
    forall h ensures CountOf(h, kept, genre) == Slots(slotCount[g := 0], h) {
      assert CountOf(h, kept, genre) == Slots(slotCount, h);
    }
  }

  lemma DiverseOneMore(items: seq<Item>, i: nat, genre: Item -> string)
    requires i < |items|
    ensures var kept := Diverse(items[..i], genre);
            Diverse(items[..i + 1], genre)
              == if CountOf(genre(items[i]), kept, genre) < DIVERSITY_SLOTS_PER_GENRE then kept + [items[i]] else kept
  {
    assert items[..i + 1][..i] == items[..i];
  }

  // ── the filter's outcome, told without it ─────────────────────────────────

  /** The places of the artists whose primary genre is `g`. */
  ghost function OfGenre(items: seq<Item>, g: string, weights: map<string, real>, lower: string -> string): set<nat> {
    Where(items, item => PrimaryIs(item, g, weights, lower))
  }

  lemma OfGenreSnoc(items: seq<Item>, x: Item, g: string, weights: map<string, real>, lower: string -> string)
    ensures |OfGenre(items + [x], g, weights, lower)|
         == |OfGenre(items, g, weights, lower)| + (if PrimaryGenre(x, weights, lower) == g then 1 else 0)
  {
    PrimaryIsGenre(x, g, weights, lower);
    WhereSnoc(items, x, item => PrimaryIs(item, g, weights, lower));
  }

  lemma {:induction false} OfGenreCounts(items: seq<Item>, g: string, weights: map<string, real>,
                                         lower: string -> string)
    ensures |OfGenre(items, g, weights, lower)| == CountOf(g, items, GenreOf(weights, lower))
  {
    if items != [] {
      var n := |items| - 1;
      OfGenreCounts(items[..n], g, weights, lower);
      OfGenreSnoc(items[..n], items[n], g, weights, lower);
      assert items == items[..n] + [items[n]];
    }
  }

  /** The first `n` kept artists stand before place `i` and fill the slots of its genre. */
  ghost predicate CrowdedBy(i: nat, g: string, n: nat, idx: seq<nat>, kept: seq<Item>, artists: seq<Item>,
                            weights: map<string, real>, lower: string -> string)
  {
    && i < |artists| && PrimaryIs(artists[i], g, weights, lower)
    && n <= |idx| && n <= |kept| && (forall k | 0 <= k < n :: idx[k] < i)
    && |OfGenre(kept[..n], g, weights, lower)| == 3
  }

  /** Three kept artists of its own primary genre stand before place `i`. */
  ghost predicate CrowdedOut(i: nat, idx: seq<nat>, kept: seq<Item>, artists: seq<Item>, weights: map<string, real>,
                             lower: string -> string)
  {
    exists g, n: nat :: CrowdedBy(i, g, n, idx, kept, artists, weights, lower)
  }

  ghost predicate DroppedAreCrowdedOut(idx: seq<nat>, kept: seq<Item>, artists: seq<Item>, weights: map<string, real>,
                                       lower: string -> string)
  {
    forall i: nat | i < |artists| && i !in idx :: CrowdedOut(i, idx, kept, artists, weights, lower)
  }

  /** `kept` are the artists at the places `idx`: at most three of any primary genre, and
      whoever is missing has three of its own before it. */
  ghost predicate Diversified(idx: seq<nat>, kept: seq<Item>, artists: seq<Item>, weights: map<string, real>,
                              lower: string -> string)
  {
    && Picks(idx, artists, kept)
    && (forall g :: |OfGenre(kept, g, weights, lower)| <= 3)
    && DroppedAreCrowdedOut(idx, kept, artists, weights, lower)
  }

  lemma StillCrowdedOut(i: nat, idx: seq<nat>, kept: seq<Item>, artists: seq<Item>, more: seq<nat>,
                        kept': seq<Item>, x: Item, weights: map<string, real>, lower: string -> string)
    requires CrowdedOut(i, idx, kept, artists, weights, lower) && idx <= more && kept <= kept'
    ensures CrowdedOut(i, more, kept', artists + [x], weights, lower)
  {
    var g, n: nat :| CrowdedBy(i, g, n, idx, kept, artists, weights, lower);
    assert kept'[..n] == kept[..n];
    assert CrowdedBy(i, g, n, more, kept', artists + [x], weights, lower);
  }

  lemma NewlyCrowdedOut(idx: seq<nat>, kept: seq<Item>, artists: seq<Item>, x: Item, weights: map<string, real>,
                        lower: string -> string)
    requires Picks(idx, artists, kept)
    requires CountOf(PrimaryGenre(x, weights, lower), kept, GenreOf(weights, lower)) == 3
    ensures CrowdedOut(|artists|, idx, kept, artists + [x], weights, lower)
  {
    var g := PrimaryGenre(x, weights, lower);
    PrimaryIsGenre(x, g, weights, lower);
    OfGenreCounts(kept, g, weights, lower);
    assert kept[..|idx|] == kept;
    assert CrowdedBy(|artists|, g, |idx|, idx, kept, artists + [x], weights, lower);
  }

  /** One more artist, kept or not. */
  lemma DroppedOneMore(idx: seq<nat>, kept: seq<Item>, artists: seq<Item>, x: Item, weights: map<string, real>,
                       lower: string -> string)
    requires Picks(idx, artists, kept) && DroppedAreCrowdedOut(idx, kept, artists, weights, lower)
    ensures DroppedAreCrowdedOut(idx + [|artists|], kept + [x], artists + [x], weights, lower)
    ensures CountOf(PrimaryGenre(x, weights, lower), kept, GenreOf(weights, lower)) == 3 ==>
              DroppedAreCrowdedOut(idx, kept, artists + [x], weights, lower)
  {
    var places := idx + [|artists|];
    forall i: nat | i < |artists| && i !in idx
      ensures CrowdedOut(i, places, kept + [x], artists + [x], weights, lower)
      ensures CrowdedOut(i, idx, kept, artists + [x], weights, lower)
    {
      StillCrowdedOut(i, idx, kept, artists, places, kept + [x], x, weights, lower);
      StillCrowdedOut(i, idx, kept, artists, idx, kept, x, weights, lower);
    }
    assert |artists| == places[|idx|];
    forall i: nat | i < |artists + [x]| && i !in places
      ensures i < |artists| && i !in idx
    {
      assert i in idx ==> i in places;
    }
    if CountOf(PrimaryGenre(x, weights, lower), kept, GenreOf(weights, lower)) == 3 {
      NewlyCrowdedOut(idx, kept, artists, x, weights, lower);
    }
  }

  /** The places of what the filter keeps. */
  ghost predicate KeptAt(idx: seq<nat>, artists: seq<Item>, weights: map<string, real>, lower: string -> string) {
    var kept := Diverse(artists, GenreOf(weights, lower));
    Picks(idx, artists, kept) && DroppedAreCrowdedOut(idx, kept, artists, weights, lower)
  }

  lemma PickOneMore(idx: seq<nat>, front: seq<Item>, x: Item, weights: map<string, real>, lower: string -> string)
    returns (places: seq<nat>)
    requires KeptAt(idx, front, weights, lower)
    ensures KeptAt(places, front + [x], weights, lower)
  {
    var genre := GenreOf(weights, lower);
    var before := Diverse(front, genre);
    PicksSnoc(idx, front, before, x);
    DroppedOneMore(idx, before, front, x, weights, lower);
    SlotsDecide(front, x, weights, lower);
    if CountOf(PrimaryGenre(x, weights, lower), before, genre) == 3 {
      places := idx;
    } else {
      places := idx + [|front|];
    }
  }

  lemma SlotsDecide(front: seq<Item>, x: Item, weights: map<string, real>, lower: string -> string)
    ensures var genre := GenreOf(weights, lower);
            var before := Diverse(front, genre);
            Diverse(front + [x], genre)
              == if CountOf(PrimaryGenre(x, weights, lower), before, genre) == 3 then before else before + [x]
  {
    assert (front + [x])[..|front|] == front;
    DiverseFillsSlots(front, GenreOf(weights, lower), PrimaryGenre(x, weights, lower));
  }

  lemma {:induction false} DiversePicks(artists: seq<Item>, weights: map<string, real>, lower: string -> string)
    returns (idx: seq<nat>)
    ensures KeptAt(idx, artists, weights, lower)
  {
    if artists == [] {
      idx := [];
    } else {
      var n := |artists| - 1;
      assert artists == artists[..n] + [artists[n]];
      idx := DiversePicks(artists[..n], weights, lower);
      idx := PickOneMore(idx, artists[..n], artists[n], weights, lower);
    }
  }

  /** The greedy filter's outcome, for the genre the program gives each artist. */
  lemma DiverseDiversifies(artists: seq<Item>, weights: map<string, real>, lower: string -> string)
    returns (idx: seq<nat>)
    ensures Diversified(idx, Diverse(artists, GenreOf(weights, lower)), artists, weights, lower)
  {
    var kept := Diverse(artists, GenreOf(weights, lower));
    idx := DiversePicks(artists, weights, lower);
    forall g ensures |OfGenre(kept, g, weights, lower)| <= 3 {
      OfGenreCounts(kept, g, weights, lower);
      DiverseFillsSlots(artists, GenreOf(weights, lower), g);
    }
  }

  /** One pass with a slot counter per genre. */
  method EnforceDiversity(artists: seq<Item>, weights: map<string, real>, lower: string -> string)
    returns (kept: seq<Item>)
    ensures kept == Diverse(artists, GenreOf(weights, lower))
    ensures exists idx :: Diversified(idx, kept, artists, weights, lower)
  {
    ghost var genre := GenreOf(weights, lower);
    var slotCount: map<string, nat> := map[];
    kept := [];
    for i := 0 to |artists|
      invariant kept == Diverse(artists[..i], genre)
      invariant Counted(slotCount, kept, genre)
    {
      var primary := PrimaryGenre(artists[i], weights, lower);
      assert genre(artists[i]) == primary;
      DiverseOneMore(artists, i, genre);
      if primary !in slotCount {
        OpenSlot(slotCount, kept, primary, genre);
        slotCount := slotCount[primary := 0];
      }
      assert CountOf(primary, kept, genre) == Slots(slotCount, primary);
      if slotCount[primary] < DIVERSITY_SLOTS_PER_GENRE {
        FillSlot(slotCount, kept, artists[i], genre);
        slotCount := slotCount[primary := slotCount[primary] + 1];
        kept := kept + [artists[i]];
      }
    }
    assert artists[..|artists|] == artists;
    ghost var idx := DiverseDiversifies(artists, weights, lower);
  }

  function Alignment(tags: seq<string>, profile: map<string, real>, lower: string -> string): real {
    if tags == [] then 0.0
    else Alignment(tags[..|tags| - 1], profile, lower) + Weight(tags[|tags| - 1], profile, lower)
  }

  /** Genre fit, capped at one, lifts the composite by up to half. */
  function Uplift(item: Item, profile: map<string, real>, lower: string -> string): Item {
    var alignment := Alignment(item.tags, profile, lower);
    var fit := if alignment < 1.0 then alignment else 1.0;
    item.(tasteAlignment := fit, composite := item.composite * (1.0 + 0.5 * fit))
  }

  function UpliftAll(items: seq<Item>, profile: map<string, real>, lower: string -> string): (r: seq<Item>)
    ensures |r| == |items|
    ensures forall i | 0 <= i < |items| :: r[i] == Uplift(items[i], profile, lower)
  {
    seq(|items|, i requires 0 <= i < |items| => Uplift(items[i], profile, lower))
  }

  lemma {:induction false} AlignmentNonNegative(tags: seq<string>, profile: map<string, real>, lower: string -> string)
    requires forall t | t in profile :: profile[t] >= 0.0
    ensures Alignment(tags, profile, lower) >= 0.0
  {
    if tags != [] {
      AlignmentNonNegative(tags[..|tags| - 1], profile, lower);
    }
  }

  lemma ScaledNonNegative(x: real, y: real)
    requires x >= 0.0 && y >= 0.0
    ensures x * y >= 0.0
  {}

  lemma UpliftOneKeepsSign(item: Item, profile: map<string, real>, lower: string -> string)
    requires item.composite >= 0.0 && forall t | t in profile :: profile[t] >= 0.0
    ensures Uplift(item, profile, lower).composite >= 0.0
  {
    AlignmentNonNegative(item.tags, profile, lower);
    ScaledNonNegative(item.composite, 1.0 + 0.5 * Uplift(item, profile, lower).tasteAlignment);
  }

  lemma UpliftKeepsSign(items: seq<Item>, profile: map<string, real>, lower: string -> string)
    requires NonNegative(items) && forall t | t in profile :: profile[t] >= 0.0
    ensures NonNegative(UpliftAll(items, profile, lower))
  {
    forall i | 0 <= i < |items| ensures Uplift(items[i], profile, lower).composite >= 0.0 {
      UpliftOneKeepsSign(items[i], profile, lower);
    }
  }

  /** The list after uplift, re-sort and diversity, before the cut. */
  function DiverseRanking(artists: seq<Item>, profile: map<string, real>, weights: map<string, real>,
                          lower: string -> string): seq<Item> {
    Diverse(Sort(UpliftAll(artists, profile, lower), ItemLe), GenreOf(weights, lower))
  }

  /** What the final ranking promises whatever scores, tags and weights come in: best
      first, no genre over its slots, and its first 25 score at least as much in total
      as any 25 or fewer artists within the genre quota could. */
  lemma RankingPromises(artists: seq<Item>, profile: map<string, real>, weights: map<string, real>,
                        lower: string -> string)
    requires NonNegative(artists) && forall t | t in profile :: profile[t] >= 0.0
    ensures var ranking := DiverseRanking(artists, profile, weights, lower);
            && BestFirst(ranking)
            && WithinQuota(ranking, GenreOf(weights, lower))
            && forall pick: seq<Item> ::
                 multiset(pick) <= multiset(UpliftAll(artists, profile, lower))
                 && |pick| <= MAX_RECOMMENDATIONS
                 && WithinQuota(pick, GenreOf(weights, lower))
                 ==> Total(pick) <= Total(Take(MAX_RECOMMENDATIONS, ranking))
  {
    var genre := GenreOf(weights, lower);
    var lifted := UpliftAll(artists, profile, lower);
    var ranked := Sort(lifted, ItemLe);
    RankedIsBestFirst(lifted);
    UpliftKeepsSign(artists, profile, lower);
    assert NonNegative(ranked) by { SameElements(ranked, lifted); }
    var marks := DiverseIsASelection(ranked, genre);
    DiverseBestFirst(ranked, genre);
    forall pick: seq<Item> |
      multiset(pick) <= multiset(lifted) && |pick| <= MAX_RECOMMENDATIONS && WithinQuota(pick, genre)
      ensures Total(pick) <= Total(Take(MAX_RECOMMENDATIONS, Diverse(ranked, genre)))
    {
      GreedyCutIsOptimal(ranked, pick, genre, MAX_RECOMMENDATIONS);
    }
  }

  /** `p` adds the tags' profile weights up, one tag at a time. */
  ghost predicate AddsUp(p: seq<real>, tags: seq<string>, profile: map<string, real>, lower: string -> string) {
    && |p| == |tags| + 1 && p[0] == 0.0
    && forall i | 0 <= i < |tags| ::
         p[i + 1] == p[i] + if lower(tags[i]) in profile then profile[lower(tags[i])] else 0.0
  }

  /** Genre fit `fit`: the profile weights of all tags together, one at most. */
  ghost predicate Fits(fit: real, tags: seq<string>, profile: map<string, real>, lower: string -> string) {
    exists p :: AddsUp(p, tags, profile, lower) && fit == if p[|tags|] < 1.0 then p[|tags|] else 1.0
  }

  /** `y` is `x` with its genre fit, and a composite raised by half of that. */
  ghost predicate LiftedTo(x: Item, y: Item, profile: map<string, real>, lower: string -> string) {
    && Fits(y.tasteAlignment, x.tags, profile, lower)
    && y.composite == x.composite + x.composite * y.tasteAlignment / 2.0
    && y == x.(tasteAlignment := y.tasteAlignment, composite := y.composite)
  }

  lemma {:induction false} AlignmentAddsUp(tags: seq<string>, profile: map<string, real>, lower: string -> string)
    returns (p: seq<real>)
    ensures AddsUp(p, tags, profile, lower) && p[|tags|] == Alignment(tags, profile, lower)
  {
    if tags == [] {
      p := [0.0];
    } else {
      p := AlignmentAddsUp(tags[..|tags| - 1], profile, lower);
      p := p + [Alignment(tags, profile, lower)];
    }
  }

  lemma UpliftLifts(item: Item, profile: map<string, real>, lower: string -> string)
    ensures LiftedTo(item, Uplift(item, profile, lower), profile, lower)
  {
    var p := AlignmentAddsUp(item.tags, profile, lower);
    var fit := Uplift(item, profile, lower).tasteAlignment;
    assert Fits(fit, item.tags, profile, lower);
    assert item.composite * (1.0 + 0.5 * fit) == item.composite + item.composite * fit / 2.0;
  }

  /** Every artist lifted, and the list sorted: composites fall, names rise where they tie. */
  ghost predicate Reranked(artists: seq<Item>, lifted: seq<Item>, ranked: seq<Item>, profile: map<string, real>,
                           lower: string -> string)
  {
    && |lifted| == |artists| && (forall i | 0 <= i < |artists| :: LiftedTo(artists[i], lifted[i], profile, lower))
    && multiset(ranked) == multiset(lifted)
    && forall i, j | 0 <= i < j < |ranked| ::
         || ranked[i].composite > ranked[j].composite
         || (ranked[i].composite == ranked[j].composite && StrLe(ranked[i].name, ranked[j].name))
  }

  /** The final list, told without the functions that compute it. */
  ghost predicate FinallyRanked(artists: seq<Item>, result: seq<Item>, lifted: seq<Item>, ranked: seq<Item>,
                                idx: seq<nat>, profile: map<string, real>, weights: map<string, real>,
                                lower: string -> string)
  {
    Reranked(artists, lifted, ranked, profile, lower) && Diversified(idx, result, ranked, weights, lower)
  }

  lemma DiverseRankingIs(artists: seq<Item>, profile: map<string, real>, weights: map<string, real>,
                         lower: string -> string) returns (lifted: seq<Item>, ranked: seq<Item>, idx: seq<nat>)
    ensures FinallyRanked(artists, DiverseRanking(artists, profile, weights, lower), lifted, ranked, idx,
                          profile, weights, lower)
  {
    lifted := UpliftAll(artists, profile, lower);
    ranked := Sort(lifted, ItemLe);
    idx := DiverseDiversifies(ranked, weights, lower);
    forall i | 0 <= i < |artists| ensures LiftedTo(artists[i], lifted[i], profile, lower) {
      UpliftLifts(artists[i], profile, lower);
    }
    ItemLeIsTotalPreorder();
    SortSorts(lifted, ItemLe);
  }

  /** The in-place pass over the scores. */
  method LiftScores(artists: seq<Item>, profile: map<string, real>, lower: string -> string)
    returns (lifted: seq<Item>)
    ensures lifted == UpliftAll(artists, profile, lower)
  {
    lifted := artists;
    for i := 0 to |artists|
      invariant |lifted| == |artists|
      invariant forall k | 0 <= k < i :: lifted[k] == Uplift(artists[k], profile, lower)
      invariant forall k | i <= k < |artists| :: lifted[k] == artists[k]
    {
      lifted := lifted[i := Uplift(lifted[i], profile, lower)];
    }
  }

  /** Uplift every score in place, sort again, diversify, and split at 25: the strongest
      are shown, the rest is the reserve. */
  method PostProcess(artists: seq<Item>, profile: map<string, real>, weights: map<string, real>,
                     lower: string -> string)
    returns (visible: seq<Item>, reserve: seq<Item>)
    ensures visible == Take(MAX_RECOMMENDATIONS, DiverseRanking(artists, profile, weights, lower))
    ensures visible + reserve == DiverseRanking(artists, profile, weights, lower)
    ensures |visible| == if |visible + reserve| < 25 then |visible + reserve| else 25
    ensures exists lifted, ranked, idx ::
              FinallyRanked(artists, visible + reserve, lifted, ranked, idx, profile, weights, lower)
  {
    ghost var _, _, _ := DiverseRankingIs(artists, profile, weights, lower);
    var lifted := LiftScores(artists, profile, lower);
    var ranked := Sort(lifted, ItemLe);
    var diverse := EnforceDiversity(ranked, weights, lower);
    if |diverse| > MAX_RECOMMENDATIONS {
      visible, reserve := diverse[..MAX_RECOMMENDATIONS], diverse[MAX_RECOMMENDATIONS..];
    } else {
      visible, reserve := diverse, [];
      assert diverse + [] == diverse;
    }
  }

  lemma RankedIsBestFirst(items: seq<Item>)
    ensures multiset(Sort(items, ItemLe)) == multiset(items)
    ensures BestFirst(Sort(items, ItemLe))
  {
    ItemLeIsTotalPreorder();
    SortSorts(items, ItemLe);
  }

  // ── dismissals ────────────────────────────────────────────────────────────

  function Kept(items: seq<Item>, dismissed: set<string>, norm: string -> string): seq<Item> {
    if items == [] then []
    else
      var last := items[|items| - 1];
      Kept(items[..|items| - 1], dismissed, norm) + (if norm(last.name) in dismissed then [] else [last])
  }

  lemma {:induction false} KeptSplit(a: seq<Item>, b: seq<Item>, dismissed: set<string>, norm: string -> string)
    ensures Kept(a + b, dismissed, norm) == Kept(a, dismissed, norm) + Kept(b, dismissed, norm)
  {
    if b == [] {
      assert a + b == a;
    } else {
      var n := |b| - 1;
      assert (a + b)[..|a| + n] == a + b[..n];
      KeptSplit(a, b[..n], dismissed, norm);
    }
  }

  lemma {:induction false} KeptIsShorter(items: seq<Item>, dismissed: set<string>, norm: string -> string)
    ensures |Kept(items, dismissed, norm)| <= |items|
    ensures dismissed == {} ==> Kept(items, dismissed, norm) == items
  {
    if items != [] {
      KeptIsShorter(items[..|items| - 1], dismissed, norm);
    }
  }

  /** The places of the undismissed artists. */
  lemma {:induction false} KeptPicks(items: seq<Item>, dismissed: set<string>, norm: string -> string)
    returns (idx: seq<nat>)
    ensures Picks(idx, items, Kept(items, dismissed, norm))
    ensures forall i: nat | i < |items| :: i in idx <==> norm(items[i].name) !in dismissed
  {
    if items == [] {
      idx := [];
    } else {
      var n := |items| - 1;
      idx := KeptPicks(items[..n], dismissed, norm);
      PicksSnoc(idx, items[..n], Kept(items[..n], dismissed, norm), items[n]);
      assert items == items[..n] + [items[n]];
      if norm(items[n].name) !in dismissed {
        idx := idx + [n];
      }
    }
  }

  /** `shown` are undismissed artists in ranking order, `limit` at most; whoever is missing
      is dismissed, or `limit` artists before it are shown. */
  ghost predicate Backfill(shown: seq<Item>, all: seq<Item>, limit: nat, dismissed: set<string>,
                           norm: string -> string)
  {
    exists idx :: Backfilled(idx, shown, all, limit, dismissed, norm)
  }

  ghost predicate Backfilled(idx: seq<nat>, shown: seq<Item>, all: seq<Item>, limit: nat, dismissed: set<string>,
                             norm: string -> string)
  {
    && Picks(idx, all, shown) && |shown| <= limit
    && (forall x | x in shown :: norm(x.name) !in dismissed)
    && forall i: nat | i < |all| && i !in idx ::
         norm(all[i].name) in dismissed || (|shown| == limit && forall k | k in idx :: k < i)
  }

  lemma KeptBackfills(all: seq<Item>, limit: nat, dismissed: set<string>, norm: string -> string)
    ensures Backfill(Take(limit, Kept(all, dismissed, norm)), all, limit, dismissed, norm)
  {
    var kept := Kept(all, dismissed, norm);
    var places := KeptPicks(all, dismissed, norm);
    KeptKeepsOrder(all, dismissed, norm);
    var idx := Take(limit, places);
    forall i: nat | i < |all| && i !in idx && norm(all[i].name) !in dismissed
      ensures |kept| >= limit && forall k | k in idx :: k < i
    {
      var m :| 0 <= m < |places| && places[m] == i;
      assert m >= |idx|;
    }
    assert Backfilled(idx, Take(limit, kept), all, limit, dismissed, norm);
  }

  /** Drop the dismissed artists, then refill from the reserve up to the old length:
      what results is the undismissed part of the whole ranking, cut at that length. */
  method ApplyDismissals(visible: seq<Item>, reserve: seq<Item>, dismissed: set<string>, norm: string -> string)
    returns (shown: seq<Item>)
    ensures shown == Take(|visible|, Kept(visible + reserve, dismissed, norm))
    ensures Backfill(shown, visible + reserve, |visible|, dismissed, norm)
  {
    KeptIsShorter(visible, dismissed, norm);
    if dismissed == {} {
      NobodyDismissed(visible, reserve, norm);
      shown := visible;
    } else {
      var target := |visible|;
      shown := Kept(visible, dismissed, norm);
      var i := 0;
      while i < |reserve| && |shown| < target
        invariant i <= |reserve|
        invariant |shown| <= target
        invariant shown == Kept(visible, dismissed, norm) + Kept(reserve[..i], dismissed, norm)
      {
        KeptOneMore(reserve, i, dismissed, norm);
        if norm(reserve[i].name) !in dismissed {
          shown := shown + [reserve[i]];
        }
        i := i + 1;
      }
      BackfillEnds(visible, reserve, i, dismissed, norm);
    }
  }

  lemma KeptOneMore(items: seq<Item>, i: nat, dismissed: set<string>, norm: string -> string)
    requires i < |items|
    ensures Kept(items[..i + 1], dismissed, norm)
         == Kept(items[..i], dismissed, norm) + (if norm(items[i].name) in dismissed then [] else [items[i]])
  {
    assert items[..i + 1][..i] == items[..i];
  }

  lemma NobodyDismissed(visible: seq<Item>, reserve: seq<Item>, norm: string -> string)
    ensures visible == Take(|visible|, Kept(visible + reserve, {}, norm))
    ensures Backfill(visible, visible + reserve, |visible|, {}, norm)
  {
    KeptIsShorter(visible + reserve, {}, norm);
    KeptBackfills(visible + reserve, |visible|, {}, norm);
  }

  /** Once the length is reached or the reserve used up, what follows does not matter. */
  lemma BackfillEnds(visible: seq<Item>, reserve: seq<Item>, i: nat, dismissed: set<string>, norm: string -> string)
    requires i <= |reserve|
    ensures var shown := Kept(visible, dismissed, norm) + Kept(reserve[..i], dismissed, norm);
            (|shown| == |visible| || (i == |reserve| && |shown| <= |visible|)) ==>
              && shown == Take(|visible|, Kept(visible + reserve, dismissed, norm))
              && Backfill(shown, visible + reserve, |visible|, dismissed, norm)
  {
    KeptBackfills(visible + reserve, |visible|, dismissed, norm);
    assert reserve == reserve[..i] + reserve[i..];
    KeptSplit(visible, reserve, dismissed, norm);
    KeptSplit(reserve[..i], reserve[i..], dismissed, norm);
    if i == |reserve| {
      assert reserve[i..] == [];
    }
  }

  function KeptMarks(items: seq<Item>, dismissed: set<string>, norm: string -> string): (marks: seq<bool>)
    ensures |marks| == |items|
    ensures Select(items, marks) == Kept(items, dismissed, norm)
  {
    if items == [] then []
    else
      var n := |items| - 1;
      var shorter := KeptMarks(items[..n], dismissed, norm);
      var marks := shorter + [norm(items[n].name) !in dismissed];
      assert marks[..n] == shorter;
      marks
  }

  /** Dismissing never disturbs the ranking's promises: what is shown is still best
      first and within the quota, holds no dismissed artist, and falls short of the old
      length only when the whole ranking has too few undismissed artists left. */
  lemma DismissalKeepsRanking(visible: seq<Item>, reserve: seq<Item>, dismissed: set<string>,
                              norm: string -> string, genre: Item -> string)
    requires BestFirst(visible + reserve) && WithinQuota(visible + reserve, genre)
    ensures var shown := Take(|visible|, Kept(visible + reserve, dismissed, norm));
            && BestFirst(shown) && WithinQuota(shown, genre)
            && (forall x | x in shown :: norm(x.name) !in dismissed)
            && (|shown| < |visible| ==> shown == Kept(visible + reserve, dismissed, norm))
  {
    var all := visible + reserve;
    var kept := Kept(all, dismissed, norm);
    var shown := Take(|visible|, kept);
    KeptKeepsOrder(all, dismissed, norm);
    forall g ensures CountOf(g, shown, genre) <= DIVERSITY_SLOTS_PER_GENRE {
      assert kept == shown + kept[|shown|..];
      GenresSplit(shown, kept[|shown|..], genre);
      SelectCounts(all, KeptMarks(all, dismissed, norm), genre, g);
      assert CountOf(g, all, genre) <= DIVERSITY_SLOTS_PER_GENRE;
    }
  }

  lemma {:induction false} KeptKeepsOrder(items: seq<Item>, dismissed: set<string>, norm: string -> string)
    ensures forall x | x in Kept(items, dismissed, norm) :: x in items && norm(x.name) !in dismissed
    ensures BestFirst(items) ==> BestFirst(Kept(items, dismissed, norm))
  {
    if items != [] {
      var n := |items| - 1;
      KeptKeepsOrder(items[..n], dismissed, norm);
      if BestFirst(items) {
        forall x | x in Kept(items[..n], dismissed, norm) ensures x.composite >= items[n].composite {
          assert x in items[..n];
        }
      }
    }
  }
}
