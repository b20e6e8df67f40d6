/** Tier variety: after ranking, every obscurity tier that has a candidate gets a place in
    the top k, at the expense of the weakest member of the most crowded tier. */
module TierVariety {
  import opened Ordering

  datatype Tier = Abyss | Deep | Emerging | Cusp

  datatype Item = Item(norm: string, composite: real, tier: Tier)

  const TIERS: seq<Tier> := [Abyss, Deep, Emerging, Cusp]

  predicate BestFirst(a: Item, b: Item) {
    a.composite >= b.composite
  }

  // ── counting ──────────────────────────────────────────────────────────────

  function CountTier(items: seq<Item>, tier: Tier): nat {
    if items == [] then 0
    else CountTier(items[..|items| - 1], tier) + (if items[|items| - 1].tier == tier then 1 else 0)
  }

  lemma {:induction false} CountsAddUp(items: seq<Item>)
    ensures |items| == CountTier(items, Abyss) + CountTier(items, Deep)
                       + CountTier(items, Emerging) + CountTier(items, Cusp)
  {
    if items != [] {
      CountsAddUp(items[..|items| - 1]);
    }
  }

  ghost predicate Represented(items: seq<Item>, tier: Tier) {
    exists x | x in items :: x.tier == tier
  }

  lemma {:induction false} CountedIffPresent(items: seq<Item>, tier: Tier)
    ensures CountTier(items, tier) > 0 <==> Represented(items, tier)
  {
    if items != [] {
      var n := |items| - 1;
      CountedIffPresent(items[..n], tier);
      assert items == items[..n] + [items[n]];
    }
  }

  /** A tier counted twice has a member elsewhere than any given place. */
  lemma {:induction false} AnotherPlace(items: seq<Item>, tier: Tier, place: nat) returns (j: nat)
    requires CountTier(items, tier) >= 2
    ensures j < |items| && j != place && items[j].tier == tier
  {
    var n := |items| - 1;
    if items[n].tier == tier && place != n {
      j := n;
    } else if items[n].tier == tier {
      CountedIffPresent(items[..n], tier);
      var x :| x in items[..n] && x.tier == tier;
      j :| 0 <= j < n && items[..n][j] == x;
    } else {
      j := AnotherPlace(items[..n], tier, place);
    }
  }

  /** Of at least four places with one tier missing, some tier holds two. */
  lemma Pigeonhole(items: seq<Item>, missing: Tier, crowded: Tier)
    requires |items| >= 4 && CountTier(items, missing) == 0
    requires forall t :: CountTier(items, t) <= CountTier(items, crowded)
    ensures CountTier(items, crowded) >= 2
  {
    CountsAddUp(items);
    assert CountTier(items, Abyss) <= CountTier(items, crowded) && CountTier(items, Deep) <= CountTier(items, crowded)
        && CountTier(items, Emerging) <= CountTier(items, crowded)
        && CountTier(items, Cusp) <= CountTier(items, crowded);
  }

  // ── the pieces of the pass ────────────────────────────────────────────────

  /** The tiers in order of first appearance. */
  function Firsts(items: seq<Item>): seq<Tier> {
    if items == [] then []
    else
      var n := |items| - 1;
      var order := Firsts(items[..n]);
      if items[n].tier in order then order else order + [items[n].tier]
  }

  lemma {:induction false} FirstsCover(items: seq<Item>)
    ensures forall x | x in items :: x.tier in Firsts(items)
  {
    if items != [] {
      var n := |items| - 1;
      FirstsCover(items[..n]);
      assert items == items[..n] + [items[n]];
    }
  }

  /** Where the `k`-th tier first appears, only the tiers before it have been seen. */
  lemma {:induction false} FirstsAppear(items: seq<Item>, k: nat) returns (f: nat)
    requires k < |Firsts(items)|
    ensures f < |items| && items[f].tier == Firsts(items)[k]
    ensures forall j | 0 <= j < f :: items[j].tier in Firsts(items)[..k]
  {
    var n := |items| - 1;
    var order := Firsts(items[..n]);
    if k < |order| {
      f := FirstsAppear(items[..n], k);
      assert Firsts(items)[..k] == order[..k];
    } else {
      f := n;
      FirstsCover(items[..n]);
      assert Firsts(items)[..k] == order;
      assert forall j | 0 <= j < n :: items[j] in items[..n];
    }
  }

  /** Counts per tier, and the tiers in order of first appearance. */
  method CountTiers(items: seq<Item>) returns (counts: map<Tier, nat>, order: seq<Tier>)
    ensures order == Firsts(items) && forall t :: t in counts <==> t in order
    ensures forall t :: CountTier(items, t) == if t in counts then counts[t] else 0
    ensures forall t | t in counts :: counts[t] > 0
  {
    counts, order := map[], [];
    for i := 0 to |items|
      invariant order == Firsts(items[..i]) && forall t :: t in counts <==> t in order
      invariant forall t :: CountTier(items[..i], t) == if t in counts then counts[t] else 0
      invariant forall t | t in counts :: counts[t] > 0
    {
      assert items[..i + 1][..i] == items[..i];
      var tier := items[i].tier;
      if tier !in counts { order := order + [tier]; }
      counts := counts[tier := (if tier in counts then counts[tier] else 0) + 1];
    }
    assert items[..|items|] == items;
  }

  /** Every tier before `most` counts less. */
  ghost predicate FirstOfMost(counts: map<Tier, nat>, order: seq<Tier>, most: Tier)
    requires most in counts && forall t | t in order :: t in counts
  {
    exists k :: 0 <= k < |order| && order[k] == most && forall j | 0 <= j < k :: counts[order[j]] < counts[most]
  }

  /** The first tier in order with the highest count. */
  method MostRepresented(counts: map<Tier, nat>, order: seq<Tier>) returns (most: Tier)
    requires order != [] && forall t :: t in counts <==> t in order
    ensures most in counts && forall t | t in counts :: counts[t] <= counts[most]
    ensures FirstOfMost(counts, order, most)
  {
    var best := 0;
    for i := 1 to |order|
      invariant 0 <= best < i
      invariant forall j | 0 <= j < i :: order[j] in counts && counts[order[j]] <= counts[order[best]]
      invariant forall j | 0 <= j < best :: counts[order[j]] < counts[order[best]]
    {
      assert order[i] in counts;
      if counts[order[i]] > counts[order[best]] { best := i; }
    }
    most := order[best];
  }

  /** The first of the lowest-scoring members of a tier. */
  method LowestOf(items: seq<Item>, tier: Tier) returns (lowest: nat)
    requires Represented(items, tier)
    ensures lowest < |items| && items[lowest].tier == tier
    ensures forall j | 0 <= j < |items| && items[j].tier == tier :: items[lowest].composite <= items[j].composite
    ensures forall j | 0 <= j < lowest && items[j].tier == tier :: items[lowest].composite < items[j].composite
  {
    var found: Option<nat> := None;
    for i := 0 to |items|
      invariant found.None? ==> forall j | 0 <= j < i :: items[j].tier != tier
      invariant found.Some? ==> found.value < i && items[found.value].tier == tier
      invariant found.Some? ==> forall j | 0 <= j < i && items[j].tier == tier ::
                  items[found.value].composite <= items[j].composite
      invariant found.Some? ==> forall j | 0 <= j < found.value && items[j].tier == tier ::
                  items[found.value].composite < items[j].composite
    {
      if items[i].tier == tier && (found.None? || items[i].composite < items[found.value].composite) {
        found := Some(i);
      }
    }
    assert found.Some?;
    lowest := found.value;
  }

  predicate Available(x: Item, tier: Tier, taken: set<string>) {
    x.tier == tier && x.norm !in taken
  }

  /** The first available item of a list. */
  function FirstAvailable(items: seq<Item>, tier: Tier, taken: set<string>): Option<Item> {
    if items == [] then None
    else if Available(items[0], tier, taken) then Some(items[0])
    else FirstAvailable(items[1..], tier, taken)
  }

  lemma {:induction false} FirstAvailableAt(items: seq<Item>, i: nat, tier: Tier, taken: set<string>)
    requires i <= |items| && forall j | 0 <= j < i :: !Available(items[j], tier, taken)
    ensures FirstAvailable(items, tier, taken) == FirstAvailable(items[i..], tier, taken)
  {
    if i > 0 {
      FirstAvailableAt(items[1..], i - 1, tier, taken);
      assert items[1..][i - 1..] == items[i..];
    } else {
      assert items[0..] == items;
    }
  }

  lemma {:induction false} FirstAvailableIn(items: seq<Item>, tier: Tier, taken: set<string>)
    requires FirstAvailable(items, tier, taken).Some?
    ensures FirstAvailable(items, tier, taken).value in items
  {
    if !Available(items[0], tier, taken) {
      FirstAvailableIn(items[1..], tier, taken);
    }
  }

  lemma PoolSorts(pool: seq<Item>)
    ensures Sorted(Sort(pool, BestFirst), BestFirst) && multiset(Sort(pool, BestFirst)) == multiset(pool)
  {
    assert TotalPreorder(BestFirst);
    SortSorts(pool, BestFirst);
  }

  /** An item put into a ranked list goes before those it ties with. */
  lemma {:induction false} InsertAvailable(x: Item, ranked: seq<Item>, tier: Tier, taken: set<string>)
    requires Sorted(ranked, BestFirst)
    ensures var f := FirstAvailable(ranked, tier, taken);
            FirstAvailable(Insert(x, ranked, BestFirst), tier, taken)
              == if Available(x, tier, taken) && (f.None? || x.composite >= f.value.composite) then Some(x) else f
  {
    if ranked == [] || BestFirst(x, ranked[0]) {
      assert ([x] + ranked)[1..] == ranked;
      if FirstAvailable(ranked, tier, taken).Some? {
        FirstAvailableIn(ranked, tier, taken);
      }
    } else {
      InsertAvailable(x, ranked[1..], tier, taken);
    }
  }

  /** Of the pool's available items, one at place `p` that scores highest, the first such. */
  ghost predicate BestAt(p: nat, pool: seq<Item>, tier: Tier, taken: set<string>) {
    && p < |pool| && Available(pool[p], tier, taken)
    && forall q | 0 <= q < |pool| && Available(pool[q], tier, taken) ::
         if q < p then pool[q].composite < pool[p].composite else pool[q].composite <= pool[p].composite
  }

  ghost predicate IsBestAvailable(best: Option<Item>, pool: seq<Item>, tier: Tier, taken: set<string>) {
    match best
    case None => forall q | 0 <= q < |pool| :: !Available(pool[q], tier, taken)
    case Some(x) => exists p: nat :: BestAt(p, pool, tier, taken) && pool[p] == x
  }

  lemma BestOneEarlier(x: Item, rest: seq<Item>, best: Option<Item>, tier: Tier, taken: set<string>)
    requires IsBestAvailable(best, rest, tier, taken)
    ensures var takes := Available(x, tier, taken) && (best.None? || x.composite >= best.value.composite);
            IsBestAvailable(if takes then Some(x) else best, [x] + rest, tier, taken)
  {
    var pool := [x] + rest;
    if best.Some? {
      var p: nat :| BestAt(p, rest, tier, taken) && rest[p] == best.value;
      assert pool[p + 1] == best.value;
      if Available(x, tier, taken) && x.composite >= best.value.composite {
        assert BestAt(0, pool, tier, taken);
      } else {
        assert BestAt(p + 1, pool, tier, taken);
      }
    } else if Available(x, tier, taken) {
      assert BestAt(0, pool, tier, taken);
    }
  }

  /** Sorting by score keeps the pool's order among equals, so the first available item is
      the first of the best. */
  lemma {:induction false} FirstIsBest(pool: seq<Item>, tier: Tier, taken: set<string>)
    ensures IsBestAvailable(FirstAvailable(Sort(pool, BestFirst), tier, taken), pool, tier, taken)
  {
    if pool != [] {
      var rest := Sort(pool[1..], BestFirst);
      FirstIsBest(pool[1..], tier, taken);
      PoolSorts(pool[1..]);
      InsertAvailable(pool[0], rest, tier, taken);
      BestOneEarlier(pool[0], pool[1..], FirstAvailable(rest, tier, taken), tier, taken);
      assert pool == [pool[0]] + pool[1..];
    }
  }

  /** Best-scoring pool member of a tier whose name is not taken, the first of equals. */
  method BestAvailable(pool: seq<Item>, tier: Tier, taken: set<string>) returns (best: Option<Item>)
    ensures IsBestAvailable(best, pool, tier, taken)
  {
    var ranked := Sort(pool, BestFirst);
    FirstIsBest(pool, tier, taken);
    for i := 0 to |ranked|
      invariant forall j | 0 <= j < i :: !Available(ranked[j], tier, taken)
    {
      if ranked[i].tier == tier && ranked[i].norm !in taken {
        FirstAvailableAt(ranked, i, tier, taken);
        return Some(ranked[i]);
      }
    }
    FirstAvailableAt(ranked, |ranked|, tier, taken);
    best := None;
  }

  // ── what must survive ─────────────────────────────────────────────────────

  ghost predicate DistinctNorms(items: seq<Item>) {
    forall i, j | 0 <= i < j < |items| :: items[i].norm != items[j].norm
  }

  ghost predicate DrawnFrom(items: seq<Item>, pool: seq<Item>) {
    forall x | x in items :: x in pool
  }

  /** Equal names mean the same item. */
  ghost predicate NamesIdentify(pool: seq<Item>) {
    forall x, y | x in pool && y in pool && x.norm == y.norm :: x == y
  }

  ghost predicate AtLeast(x: Item, base: seq<Item>, tier: Tier) {
    x.tier == tier && forall y | y in base && y.tier == tier :: y.composite <= x.composite
  }

  /** Some member of the tier scores no less than any member in `base`. */
  ghost predicate HoldsBest(items: seq<Item>, base: seq<Item>, tier: Tier) {
    exists i :: 0 <= i < |items| && AtLeast(items[i], base, tier)
  }

  /** Replacing the weakest of a tier with two members never loses a tier's best. */
  lemma EvictionKeepsBest(items: seq<Item>, e: nat, x: Item, base: seq<Item>, tier: Tier)
    requires e < |items| && CountTier(items, items[e].tier) >= 2
    requires forall j | 0 <= j < |items| && items[j].tier == items[e].tier :: items[e].composite <= items[j].composite
    requires HoldsBest(items, base, tier)
    ensures HoldsBest(items[e := x], base, tier)
  {
    var i :| 0 <= i < |items| && AtLeast(items[i], base, tier);
    var k := i;
    if i == e {
      k := AnotherPlace(items, items[e].tier, e);
    }
    assert items[e := x][k] == items[k] && AtLeast(items[k], base, tier);
  }

  lemma SwapKeepsDistinct(items: seq<Item>, e: nat, x: Item, pool: seq<Item>)
    requires e < |items| && DistinctNorms(items) && DrawnFrom(items, pool) && x in pool
    requires forall y | y in items :: y.norm != x.norm
    ensures DistinctNorms(items[e := x]) && DrawnFrom(items[e := x], pool)
    ensures Norms(items[e := x]) == Norms(items) - {items[e].norm} + {x.norm}
  {
    var next := items[e := x];
    forall n ensures n in Norms(next) <==> n in Norms(items) - {items[e].norm} + {x.norm} {
      if n in Norms(next) {
        var j :| 0 <= j < |next| && next[j].norm == n;
        assert j != e ==> items[j] in items && items[j].norm != items[e].norm;
      }
      if n in Norms(items) && n != items[e].norm {
        var j :| 0 <= j < |items| && items[j].norm == n;
        assert next[j] in next;
      }
      if n == x.norm {
        assert next[e] in next;
      }
    }
  }

  function Norms(items: seq<Item>): set<string> {
    set x | x in items :: x.norm
  }

  /** What the pass is for: the first `k` of the result are `k` different pool members;
      every tier with any pool member is among them; the best of each tier that was in
      the top before is still matched, and a tier that was missing enters with its best. */
  ghost predicate Varied(result: seq<Item>, top: seq<Item>, pool: seq<Item>) {
    && |result| >= |top|
    && var first := result[..|top|];
       && DistinctNorms(first) && DrawnFrom(first, pool)
       && forall tier | Represented(pool, tier) ::
            if Represented(top, tier) then HoldsBest(first, top, tier) else HoldsBest(first, pool, tier)
  }

  /** State after the tiers in `done`: they hold their best, the others are untouched. */
  ghost predicate Progress(topk: seq<Item>, top: seq<Item>, pool: seq<Item>, done: seq<Tier>) {
    && |topk| == |top| && DistinctNorms(topk) && DrawnFrom(topk, pool)
    && (forall tier | Represented(top, tier) :: HoldsBest(topk, top, tier))
    && (forall tier | !Represented(top, tier) && tier in done && Represented(pool, tier) :: HoldsBest(topk, pool, tier))
    && (forall tier | !Represented(top, tier) && tier !in done :: !Represented(topk, tier))
  }

  lemma {:induction false} StartsWithBest(top: seq<Item>, tier: Tier)
    requires Represented(top, tier)
    ensures HoldsBest(top, top, tier)
  {
    var n := |top| - 1;
    assert top == top[..n] + [top[n]];
    if Represented(top[..n], tier) {
      StartsWithBest(top[..n], tier);
      var i :| 0 <= i < n && AtLeast(top[..n][i], top[..n], tier);
      if top[n].tier == tier && top[n].composite > top[i].composite {
        assert AtLeast(top[n], top, tier);
      } else {
        assert AtLeast(top[i], top, tier);
      }
    } else {
      assert AtLeast(top[n], top, tier);
    }
  }

  lemma StartsInProgress(top: seq<Item>, pool: seq<Item>)
    requires DistinctNorms(top) && DrawnFrom(top, pool)
    ensures Progress(top, top, pool, [])
  {
    forall tier | Represented(top, tier) ensures HoldsBest(top, top, tier) {
      StartsWithBest(top, tier);
    }
  }

  lemma AlreadyThere(topk: seq<Item>, top: seq<Item>, pool: seq<Item>, done: seq<Tier>, tier: Tier)
    requires Progress(topk, top, pool, done) && (Represented(topk, tier) || !Represented(pool, tier))
    ensures Progress(topk, top, pool, done + [tier])
  {}

  /** One promotion moves the pass one tier on. */
  lemma PromotionProgresses(topk: seq<Item>, top: seq<Item>, pool: seq<Item>, done: seq<Tier>, e: nat, x: Item)
    requires Progress(topk, top, pool, done) && |topk| >= 4 && NamesIdentify(pool)
    requires !Represented(topk, x.tier) && x in pool && AtLeast(x, pool, x.tier)
    requires e < |topk|
    requires forall t :: CountTier(topk, t) <= CountTier(topk, topk[e].tier)
    requires forall j | 0 <= j < |topk| && topk[j].tier == topk[e].tier :: topk[e].composite <= topk[j].composite
    ensures Progress(topk[e := x], top, pool, done + [x.tier])
  {
    var next := topk[e := x];
    CountedIffPresent(topk, x.tier);
    Pigeonhole(topk, x.tier, topk[e].tier);
    assert forall y | y in topk :: y.norm != x.norm;
    SwapKeepsDistinct(topk, e, x, pool);
    forall tier | Represented(top, tier) ensures HoldsBest(next, top, tier) {
      EvictionKeepsBest(topk, e, x, top, tier);
    }
    forall tier | !Represented(top, tier) && tier in done + [x.tier] && Represented(pool, tier)
      ensures HoldsBest(next, pool, tier)
    {
      if tier == x.tier {
        assert AtLeast(next[e], pool, tier);
      } else {
        EvictionKeepsBest(topk, e, x, pool, tier);
      }
    }
    forall y | y in next ensures y == x || y in topk {}
  }

  lemma ProgressEnds(topk: seq<Item>, top: seq<Item>, pool: seq<Item>, tail: seq<Item>)
    requires Progress(topk, top, pool, TIERS)
    ensures Varied(topk + tail, top, pool)
  {
    assert (topk + tail)[..|top|] == topk;
    forall tier: Tier ensures tier in TIERS {
      match tier
      case Abyss => assert TIERS[0] == tier;
      case Deep => assert TIERS[1] == tier;
      case Emerging => assert TIERS[2] == tier;
      case Cusp => assert TIERS[3] == tier;
    }
  }

  /** Place `e` holds the lowest member, the first of equals, of the tier with most members,
      the first seen of equals. */
  ghost predicate Evicts(e: nat, topk: seq<Item>) {
    && e < |topk|
    && (forall t :: CountTier(topk, t) <= CountTier(topk, topk[e].tier))
    && (exists f :: 0 <= f < |topk| && topk[f].tier == topk[e].tier
          && forall j | 0 <= j < f :: CountTier(topk, topk[j].tier) < CountTier(topk, topk[e].tier))
    && forall j | 0 <= j < |topk| && topk[j].tier == topk[e].tier ::
         if j < e then topk[e].composite < topk[j].composite else topk[e].composite <= topk[j].composite
  }

  /** Which place, if any, the tier's promotion takes, and who takes it. */
  ghost predicate Chosen(change: Option<(nat, Item)>, topk: seq<Item>, pool: seq<Item>, tier: Tier,
                         taken: set<string>) {
    match change
    case None => Represented(topk, tier) || IsBestAvailable(None, pool, tier, taken)
    case Some((e, x)) =>
      !Represented(topk, tier) && IsBestAvailable(Some(x), pool, tier, taken) && Evicts(e, topk)
  }

  /** A turn has one outcome. */
  lemma ChoiceIsUnique(a: Option<(nat, Item)>, b: Option<(nat, Item)>, topk: seq<Item>, pool: seq<Item>, tier: Tier,
                       taken: set<string>)
    requires Chosen(a, topk, pool, tier, taken) && Chosen(b, topk, pool, tier, taken)
    ensures a == b
  {
    if a.Some? && b.Some? {
      var p: nat :| BestAt(p, pool, tier, taken) && pool[p] == a.value.1;
      var q: nat :| BestAt(q, pool, tier, taken) && pool[q] == b.value.1;
      assert p == q;
      EvictionIsUnique(a.value.0, b.value.0, topk);
    }
  }

  lemma EvictionIsUnique(d: nat, e: nat, topk: seq<Item>)
    requires Evicts(d, topk) && Evicts(e, topk)
    ensures d == e
  {
    var f :| 0 <= f < |topk| && topk[f].tier == topk[d].tier
      && forall j | 0 <= j < f :: CountTier(topk, topk[j].tier) < CountTier(topk, topk[d].tier);
    var g :| 0 <= g < |topk| && topk[g].tier == topk[e].tier
      && forall j | 0 <= j < g :: CountTier(topk, topk[j].tier) < CountTier(topk, topk[e].tier);
    assert CountTier(topk, topk[d].tier) == CountTier(topk, topk[e].tier);
    assert f == g;
  }

  method ChoosePromotion(topk: seq<Item>, pool: seq<Item>, tier: Tier, taken: set<string>)
    returns (change: Option<(nat, Item)>)
    requires topk != []
    ensures Chosen(change, topk, pool, tier, taken)
  {
    var counts, order := CountTiers(topk);
    CountedIffPresent(topk, tier);
    if tier in counts { return None; }
    var promote := BestAvailable(pool, tier, taken);
    if promote.None? { return None; }
    FirstsCover(topk);
    var most := MostRepresented(counts, order);
    CountedIffPresent(topk, most);
    var e := LowestOf(topk, most);
    MostIsFirstSeen(counts, topk, most);
    change := Some((e, promote.value));
  }

  lemma {:induction false} MostIsFirstSeen(counts: map<Tier, nat>, topk: seq<Item>, most: Tier)
    requires forall t :: CountTier(topk, t) == if t in counts then counts[t] else 0
    requires forall t :: t in counts <==> t in Firsts(topk)
    requires most in counts && FirstOfMost(counts, Firsts(topk), most)
    ensures exists f :: 0 <= f < |topk| && topk[f].tier == most
              && forall j | 0 <= j < f :: CountTier(topk, topk[j].tier) < CountTier(topk, most)
  {
    var order := Firsts(topk);
    var k :| 0 <= k < |order| && order[k] == most && forall j | 0 <= j < k :: counts[order[j]] < counts[most];
    var f := FirstsAppear(topk, k);
    forall j | 0 <= j < f ensures CountTier(topk, topk[j].tier) < CountTier(topk, most) {
      var earlier := order[..k];
      assert topk[j].tier in earlier;
      var l :| 0 <= l < |earlier| && earlier[l] == topk[j].tier;
      assert counts[order[l]] < counts[most];
    }
  }

  lemma ChoiceProgresses(change: Option<(nat, Item)>, topk: seq<Item>, top: seq<Item>, pool: seq<Item>,
                         done: seq<Tier>, tier: Tier, taken: set<string>)
    requires Progress(topk, top, pool, done) && |topk| >= 4 && NamesIdentify(pool)
    requires taken == Norms(topk) && Chosen(change, topk, pool, tier, taken)
    ensures change.None? ==> Progress(topk, top, pool, done + [tier])
    ensures change.Some? ==> var (e, x) := change.value;
              && Progress(topk[e := x], top, pool, done + [tier])
              && Norms(topk[e := x]) == taken - {topk[e].norm} + {x.norm}
  {
    match change
    case None =>
      if !Represented(topk, tier) { NothingLeftMeansThere(topk, pool, tier); }
      AlreadyThere(topk, top, pool, done, tier);
    case Some((e, x)) =>
      BestIsInPool(x, pool, tier, taken);
      FreshestIsBest(topk, pool, x);
      PromotionProgresses(topk, top, pool, done, e, x);
      SwapKeepsDistinct(topk, e, x, pool);
  }

  lemma BestIsInPool(x: Item, pool: seq<Item>, tier: Tier, taken: set<string>)
    requires IsBestAvailable(Some(x), pool, tier, taken)
    ensures x in pool && x.tier == tier && x.norm !in taken
    ensures forall y | y in pool && y.tier == tier && y.norm !in taken :: y.composite <= x.composite
  {
    var p: nat :| BestAt(p, pool, tier, taken) && pool[p] == x;
    forall y | y in pool && y.tier == tier && y.norm !in taken ensures y.composite <= x.composite {
      var q :| 0 <= q < |pool| && pool[q] == y;
    }
  }

  /** The promise holds of a top of at least four different pool members, when names
      identify the pool's items. */
  ghost predicate Promised(top: seq<Item>, pool: seq<Item>) {
    |top| >= 4 && DistinctNorms(top) && DrawnFrom(top, pool) && NamesIdentify(pool)
  }

  /** The top places, the names taken in them, and what follows. */
  datatype Standing = Standing(topk: seq<Item>, taken: set<string>, tail: seq<Item>)

  /** The item at place `e` makes room for `x` and goes to the front of the tail. */
  function Promoted(s: Standing, change: Option<(nat, Item)>): Standing {
    match change
    case None => s
    case Some((e, x)) =>
      if e >= |s.topk| then s
      else Standing(s.topk[e := x], s.taken - {s.topk[e].norm} + {x.norm}, [s.topk[e]] + s.tail)
  }

  /** One tier's turn: nothing, or its best available item takes the place of the lowest
      member of a most-represented tier. */
  ghost predicate Turn(before: Standing, after: Standing, pool: seq<Item>, tier: Tier) {
    exists change :: Chosen(change, before.topk, pool, tier, before.taken) && after == Promoted(before, change)
  }

  /** The standings after each turn, tier by tier in the fixed order. */
  ghost predicate Turns(run: seq<Standing>, start: Standing, pool: seq<Item>) {
    && 0 < |run| <= |TIERS| + 1 && run[0] == start
    && forall t: nat | t < |run| - 1 :: TurnAt(t, run, pool)
  }

  ghost predicate TurnAt(t: nat, run: seq<Standing>, pool: seq<Item>) {
    t + 1 < |run| && t < |TIERS| && Turn(run[t], run[t + 1], pool, TIERS[t])
  }

  lemma FirstTurns(run: seq<Standing>, n: nat, start: Standing, pool: seq<Item>)
    requires Turns(run, start, pool) && 0 < n <= |run|
    ensures Turns(run[..n], start, pool)
  {
    forall t: nat | t < n - 1 ensures TurnAt(t, run[..n], pool) {
      assert TurnAt(t, run, pool);
    }
  }

  /** The turns from one start are the same in every run. */
  lemma {:induction false} TurnsAreDetermined(a: seq<Standing>, b: seq<Standing>, start: Standing, pool: seq<Item>)
    requires Turns(a, start, pool) && Turns(b, start, pool) && |a| == |b|
    ensures a == b
  {
    var n := |a| - 1;
    if n > 0 {
      FirstTurns(a, n, start, pool);
      FirstTurns(b, n, start, pool);
      TurnsAreDetermined(a[..n], b[..n], start, pool);
      assert a[n - 1] == a[..n][n - 1] && b[n - 1] == b[..n][n - 1];
      assert TurnAt(n - 1, a, pool) && TurnAt(n - 1, b, pool);
      OneTurn(a[n - 1], a[n], b[n], pool, TIERS[n - 1]);
      assert a == a[..n] + [a[n]] && b == b[..n] + [b[n]];
    }
  }

  lemma OneTurn(s: Standing, a: Standing, b: Standing, pool: seq<Item>, tier: Tier)
    requires Turn(s, a, pool, tier) && Turn(s, b, pool, tier)
    ensures a == b
  {
    var x :| Chosen(x, s.topk, pool, tier, s.taken) && a == Promoted(s, x);
    var y :| Chosen(y, s.topk, pool, tier, s.taken) && b == Promoted(s, y);
    ChoiceIsUnique(x, y, s.topk, pool, tier, s.taken);
  }

  lemma TurnProgresses(last: Standing, next: Standing, top: seq<Item>, pool: seq<Item>, done: seq<Tier>, tier: Tier)
    requires Turn(last, next, pool, tier) && last.taken == Norms(last.topk)
    requires Progress(last.topk, top, pool, done) && |top| >= 4 && NamesIdentify(pool)
    ensures next.taken == Norms(next.topk) && Progress(next.topk, top, pool, done + [tier])
  {
    var change :| Chosen(change, last.topk, pool, tier, last.taken) && next == Promoted(last, change);
    ChoiceProgresses(change, last.topk, top, pool, done, tier, last.taken);
  }

  /** The tiers that had their turn hold their best, and `taken` tells the names. */
  ghost predicate KeepsPromise(run: seq<Standing>, top: seq<Item>, pool: seq<Item>)
    requires 0 < |run| <= |TIERS| + 1
  {
    var last := run[|run| - 1];
    last.taken == Norms(last.topk) && Progress(last.topk, top, pool, TIERS[..|run| - 1])
  }

  lemma OneMoreTurn(front: seq<Standing>, next: Standing, top: seq<Item>, pool: seq<Item>)
    requires 0 < |front| <= |TIERS| && KeepsPromise(front, top, pool) && |top| >= 4 && NamesIdentify(pool)
    requires Turn(front[|front| - 1], next, pool, TIERS[|front| - 1])
    ensures KeepsPromise(front + [next], top, pool)
  {
    var n := |front|;
    TurnProgresses(front[n - 1], next, top, pool, TIERS[..n - 1], TIERS[n - 1]);
    assert TIERS[..n] == TIERS[..n - 1] + [TIERS[n - 1]];
  }

  /** Turns keep the promise tier by tier. */
  lemma {:induction false} TurnsProgress(run: seq<Standing>, start: Standing, pool: seq<Item>)
    requires Turns(run, start, pool) && Promised(start.topk, pool) && start.taken == Norms(start.topk)
    ensures KeepsPromise(run, start.topk, pool)
  {
    var n := |run| - 1;
    if n == 0 {
      StartsInProgress(start.topk, pool);
    } else {
      FirstTurns(run, n, start, pool);
      TurnsProgress(run[..n], start, pool);
      assert TurnAt(n - 1, run, pool);
      OneMoreTurn(run[..n], run[n], start.topk, pool);
      assert run == run[..n] + [run[n]];
    }
  }

  lemma NextTurn(run: seq<Standing>, start: Standing, pool: seq<Item>, change: Option<(nat, Item)>)
    requires Turns(run, start, pool) && |run| <= |TIERS|
    requires var last := run[|run| - 1]; Chosen(change, last.topk, pool, TIERS[|run| - 1], last.taken)
    ensures Turns(run + [Promoted(run[|run| - 1], change)], start, pool)
  {
    var last, next := run[|run| - 1], Promoted(run[|run| - 1], change);
    assert Turn(last, next, pool, TIERS[|run| - 1]);
    forall t: nat | t < |run| ensures TurnAt(t, run + [next], pool) {
      assert t < |run| - 1 ==> TurnAt(t, run, pool);
    }
  }

  /** After all turns the promise is kept, whatever the tail. */
  lemma TurnsKeepPromise(run: seq<Standing>, start: Standing, pool: seq<Item>)
    requires Turns(run, start, pool) && |run| == 5 && start.taken == Norms(start.topk)
    ensures Promised(start.topk, pool) ==> Varied(run[4].topk + run[4].tail, start.topk, pool)
  {
    if Promised(start.topk, pool) {
      TurnsProgress(run, start, pool);
      assert TIERS[..4] == TIERS;
      ProgressEnds(run[4].topk, start.topk, pool, run[4].tail);
    }
  }

  /** The whole pass: a turn for each tier, from the most obscure on. What it evicts goes to
      the front of the tail; a promoted item may still stand in the tail as well. */
  method EnforceTierVariety(ranked: seq<Item>, pool: seq<Item>, k: nat)
    returns (result: seq<Item>, ghost run: seq<Standing>)
    requires k > 0
    ensures |ranked| < k ==> result == ranked
    ensures |ranked| >= k ==> Turns(run, Standing(ranked[..k], Norms(ranked[..k]), ranked[k..]), pool)
    ensures |ranked| >= k ==> |run| == 5 && result == run[4].topk + run[4].tail
    ensures |ranked| >= k && Promised(ranked[..k], pool) ==> Varied(result, ranked[..k], pool)
  {
    if |ranked| < k { return ranked, []; }
    var topk, tail := ranked[..k], ranked[k..];
    var taken := Norms(topk);
    ghost var start := Standing(topk, taken, tail);
    run := [start];
    for t := 0 to |TIERS|
      invariant |topk| == k && |run| == t + 1 && run[t] == Standing(topk, taken, tail)
      invariant Turns(run, start, pool)
    {
      var change := ChoosePromotion(topk, pool, TIERS[t], taken);
      NextTurn(run, start, pool, change);
      run := run + [Promoted(run[t], change)];
      if change.Some? {
        var (e, promote) := change.value;
        var evicted := topk[e];
        topk := topk[e := promote];
        taken := taken - {evicted.norm} + {promote.norm};
        tail := [evicted] + tail;
      }
    }
    TurnsKeepPromise(run, start, pool);
    result := topk + tail;
  }

  /** Four is the least top for which the promise can be kept: fewer places always leave
      some tier out. */
  lemma ThreePlacesMissATier(first: seq<Item>)
    requires |first| < 4
    ensures exists tier :: !Represented(first, tier)
  {
    CountsAddUp(first);
    CountedIffPresent(first, Abyss);
    CountedIffPresent(first, Deep);
    CountedIffPresent(first, Emerging);
    CountedIffPresent(first, Cusp);
  }

  lemma NothingLeftMeansThere(topk: seq<Item>, pool: seq<Item>, tier: Tier)
    requires DrawnFrom(topk, pool) && NamesIdentify(pool)
    requires IsBestAvailable(None, pool, tier, Norms(topk))
    ensures Represented(topk, tier) || !Represented(pool, tier)
  {
    if x :| x in pool && x.tier == tier {
      var y :| y in topk && y.norm == x.norm;
      assert y == x;
    }
  }

  lemma FreshestIsBest(topk: seq<Item>, pool: seq<Item>, x: Item)
    requires DrawnFrom(topk, pool) && NamesIdentify(pool) && x in pool && !Represented(topk, x.tier)
    requires forall y | y in pool && y.tier == x.tier && y.norm !in Norms(topk) :: y.composite <= x.composite
    ensures AtLeast(x, pool, x.tier) && forall y | y in topk :: y.norm != x.norm
  {
    forall y, z | y in pool && y.tier == x.tier && z in topk ensures z.norm != y.norm {}
  }
}
