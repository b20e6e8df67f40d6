/** Candidate expansion by similar artists: one hop from every seed, and, when enabled, a
    second hop from selected one-hop candidates, with match strengths multiplied along
    the path and discounted.

    Lookups, the choice of what to expand, names and normalization are inputs; match
    strengths are reals. */
module TwoHop {
  datatype Similar = Similar(name: string, strength: real)

  datatype Entry = Entry(display: string, recs: map<string, real>, hop: nat)

  type CandidateMap = map<string, Entry>

  /** What the lookup of one seed, or of one expanded candidate, came back with. */
  datatype Lookup = Lookup(of: string, sims: seq<Similar>)

  /** One offer of a strength, by a seed, for a candidate. */
  datatype Offer = Offer(key: string, seed: string, strength: real)

  function Best(recs: map<string, real>, seed: string): real {
    if seed in recs then recs[seed] else 0.0
  }

  function Max(a: real, b: real): real {
    if a >= b then a else b
  }

  /** Raise the seed's strength for the candidate, adding it when new. */
  function Raise(cmap: CandidateMap, o: Offer, display: string, hop: nat): CandidateMap {
    var entry := if o.key in cmap then cmap[o.key] else Entry(display, map[], hop);
    cmap[o.key := entry.(recs := entry.recs[o.seed := Max(Best(entry.recs, o.seed), o.strength)])]
  }

  // ── what a strength should be ─────────────────────────────────────────────

  ghost predicate Offered(offers: set<Offer>, key: string, seed: string) {
    exists o | o in offers :: o.key == key && o.seed == seed
  }

  /** The largest strength offered, or zero if none is positive. */
  ghost predicate IsBest(value: real, offers: set<Offer>, key: string, seed: string) {
    && value >= 0.0
    && (forall o | o in offers && o.key == key && o.seed == seed :: o.strength <= value)
    && (value == 0.0 || Offer(key, seed, value) in offers)
  }

  ghost predicate Told(recs: map<string, real>, seed: string, offers: set<Offer>, key: string) {
    && (seed in recs <==> Offered(offers, key, seed))
    && (seed in recs ==> IsBest(recs[seed], offers, key, seed))
  }

  /** The strengths of one candidate say the best of what is offered for it. */
  ghost predicate Tells(recs: map<string, real>, offers: set<Offer>, key: string) {
    forall seed :: Told(recs, seed, offers, key)
  }

  function RecsAt(cmap: CandidateMap, key: string): map<string, real> {
    if key in cmap then cmap[key].recs else map[]
  }

  ghost predicate SumsAt(cmap: CandidateMap, base: CandidateMap, offers: set<Offer>, key: string) {
    if key in base then key in cmap && cmap[key] == base[key]
    else Tells(RecsAt(cmap, key), offers, key) && (key in cmap ==> cmap[key].recs != map[])
  }

  /** Outside `base`, which stands as it is, the map says the best of the offers. */
  ghost predicate Sums(cmap: CandidateMap, base: CandidateMap, offers: set<Offer>) {
    forall key :: SumsAt(cmap, base, offers, key)
  }

  lemma RaiseTells(recs: map<string, real>, offers: set<Offer>, o: Offer)
    requires Tells(recs, offers, o.key)
    ensures Tells(recs[o.seed := Max(Best(recs, o.seed), o.strength)], offers + {o}, o.key)
  {
    var next := recs[o.seed := Max(Best(recs, o.seed), o.strength)];
    forall seed ensures Told(next, seed, offers + {o}, o.key) {
      assert Told(recs, seed, offers, o.key);
      assert Offered(offers + {o}, o.key, seed) <==> Offered(offers, o.key, seed) || o.seed == seed;
    }
  }

  /** An offer for one candidate says nothing about another. */
  lemma OtherTells(recs: map<string, real>, offers: set<Offer>, o: Offer, key: string)
    requires Tells(recs, offers, key) && o.key != key
    ensures Tells(recs, offers + {o}, key)
  {
    forall seed ensures Told(recs, seed, offers + {o}, key) {
      assert Told(recs, seed, offers, key);
      assert Offered(offers + {o}, key, seed) <==> Offered(offers, key, seed);
    }
  }

  lemma RaiseSums(cmap: CandidateMap, base: CandidateMap, offers: set<Offer>, o: Offer, display: string, hop: nat)
    requires Sums(cmap, base, offers) && o.key !in base
    ensures Sums(Raise(cmap, o, display, hop), base, offers + {o})
  {
    var next := Raise(cmap, o, display, hop);
    forall key ensures SumsAt(next, base, offers + {o}, key) {
      assert SumsAt(cmap, base, offers, key);
      if key == o.key {
        RaiseTells(RecsAt(cmap, key), offers, o);
        assert o.seed in next[key].recs;
      } else if key !in base {
        OtherTells(RecsAt(cmap, key), offers, o, key);
      }
    }
  }

  lemma TellsUnique(x: map<string, real>, y: map<string, real>, offers: set<Offer>, key: string)
    requires Tells(x, offers, key) && Tells(y, offers, key)
    ensures x == y
  {
    forall seed
      ensures seed in x <==> seed in y
      ensures seed in x && seed in y ==> x[seed] == y[seed]
    {
      assert Told(x, seed, offers, key) && Told(y, seed, offers, key);
    }
  }

  /** Two maps that sum the same offers for a candidate agree on it: whether it is there,
      on its seeds and on their strengths. */
  lemma SumsAgree(a: CandidateMap, b: CandidateMap, base: CandidateMap, offers: set<Offer>, key: string)
    requires SumsAt(a, base, offers, key) && SumsAt(b, base, offers, key)
    ensures key in a <==> key in b
    ensures key in a ==> a[key].recs == b[key].recs
  {
    if key !in base {
      TellsUnique(RecsAt(a, key), RecsAt(b, key), offers, key);
    }
  }

  // ── what a candidate is called ────────────────────────────────────────────

  /** `display` is the first of the names that normalizes to the key. */
  ghost predicate FirstNamed(display: string, names: seq<string>, key: string, norm: string -> string) {
    exists j :: 0 <= j < |names| && names[j] == display && norm(display) == key
      && forall i | 0 <= i < j :: norm(names[i]) != key
  }

  ghost predicate ShownAt(cmap: CandidateMap, base: CandidateMap, names: seq<string>, key: string,
                          norm: string -> string)
  {
    key !in base ==>
      if key in cmap then FirstNamed(cmap[key].display, names, key, norm)
      else forall i | 0 <= i < |names| :: norm(names[i]) != key
  }

  /** Outside `base`, exactly the named candidates are there, under their first names. */
  ghost predicate Shown(cmap: CandidateMap, base: CandidateMap, names: seq<string>, norm: string -> string) {
    forall key :: ShownAt(cmap, base, names, key, norm)
  }

  lemma FirstNameStays(display: string, names: seq<string>, name: string, key: string, norm: string -> string)
    requires FirstNamed(display, names, key, norm)
    ensures FirstNamed(display, names + [name], key, norm)
  {
    var j :| 0 <= j < |names| && names[j] == display && norm(display) == key
      && forall i | 0 <= i < j :: norm(names[i]) != key;
    assert (names + [name])[j] == display;
  }

  lemma RaiseShows(cmap: CandidateMap, base: CandidateMap, names: seq<string>, o: Offer, name: string, hop: nat,
                   norm: string -> string)
    requires Shown(cmap, base, names, norm) && o.key == norm(name)
    ensures Shown(Raise(cmap, o, name, hop), base, names + [name], norm)
  {
    var next, more := Raise(cmap, o, name, hop), names + [name];
    assert more[|names|] == name;
    forall key ensures ShownAt(next, base, more, key, norm) {
      assert ShownAt(cmap, base, names, key, norm);
      if key !in base && key in cmap {
        FirstNameStays(cmap[key].display, names, name, key, norm);
      }
    }
  }

  /** A name of a candidate in `base` changes nothing. */
  lemma SkipShows(cmap: CandidateMap, base: CandidateMap, names: seq<string>, name: string, norm: string -> string)
    requires Shown(cmap, base, names, norm) && norm(name) in base
    ensures Shown(cmap, base, names + [name], norm)
  {
    forall key ensures ShownAt(cmap, base, names + [name], key, norm) {
      assert ShownAt(cmap, base, names, key, norm);
      if key !in base && key in cmap {
        FirstNameStays(cmap[key].display, names, name, key, norm);
      }
    }
  }

  /** Raising a candidate that is already there changes nobody's name. */
  lemma RaiseAgainShows(cmap: CandidateMap, base: CandidateMap, names: seq<string>, o: Offer, name: string, hop: nat,
                        norm: string -> string)
    requires Shown(cmap, base, names, norm) && o.key in cmap
    ensures Shown(Raise(cmap, o, name, hop), base, names, norm)
  {
    forall key ensures ShownAt(Raise(cmap, o, name, hop), base, names, key, norm) {
      assert ShownAt(cmap, base, names, key, norm);
    }
  }

  function NamesOf(sims: seq<Similar>): (names: seq<string>)
    ensures |names| == |sims| && forall i | 0 <= i < |sims| :: names[i] == sims[i].name
  {
    seq(|sims|, i requires 0 <= i < |sims| => sims[i].name)
  }

  /** The names of all the lists, one list after the other. */
  function AllNames(lookups: seq<Lookup>): seq<string> {
    if lookups == [] then []
    else AllNames(lookups[..|lookups| - 1]) + NamesOf(lookups[|lookups| - 1].sims)
  }

  lemma OneMoreName(names: seq<string>, sims: seq<Similar>, j: nat)
    requires j < |sims|
    ensures names + NamesOf(sims[..j + 1]) == names + NamesOf(sims[..j]) + [sims[j].name]
  {}

  // ── one hop ───────────────────────────────────────────────────────────────

  function OffersOf(l: Lookup, norm: string -> string): set<Offer> {
    set s | s in l.sims :: Offer(norm(s.name), l.of, s.strength)
  }

  /** Everything the seeds' lists offer; no order is left in it. */
  function DirectOffers(lookups: seq<Lookup>, norm: string -> string): set<Offer> {
    set l, o | l in lookups && o in OffersOf(l, norm) :: o
  }

  lemma OneMoreLookup(lookups: seq<Lookup>, i: nat, norm: string -> string)
    requires i < |lookups|
    ensures DirectOffers(lookups[..i + 1], norm) == DirectOffers(lookups[..i], norm) + OffersOf(lookups[i], norm)
  {
    assert lookups[..i + 1] == lookups[..i] + [lookups[i]];
    forall o | o in OffersOf(lookups[i], norm) ensures o in DirectOffers(lookups[..i + 1], norm) {
      assert lookups[i] in lookups[..i + 1];
    }
    forall o | o in DirectOffers(lookups[..i], norm) ensures o in DirectOffers(lookups[..i + 1], norm) {
      var l :| l in lookups[..i] && o in OffersOf(l, norm);
      assert l in lookups[..i + 1];
    }
  }

  lemma OneMoreOffer(l: Lookup, j: nat, norm: string -> string)
    requires j < |l.sims|
    ensures OffersOf(l.(sims := l.sims[..j + 1]), norm)
         == OffersOf(l.(sims := l.sims[..j]), norm) + {Offer(norm(l.sims[j].name), l.of, l.sims[j].strength)}
  {
    assert l.sims[..j + 1] == l.sims[..j] + [l.sims[j]];
    var before, after := OffersOf(l.(sims := l.sims[..j]), norm), OffersOf(l.(sims := l.sims[..j + 1]), norm);
    forall o | o in before ensures o in after {
      var s :| s in l.sims[..j] && o == Offer(norm(s.name), l.of, s.strength);
      assert s in l.sims[..j + 1];
    }
  }

  /** One seed's list, in the order it came. */
  method CreditSeed(cmap: CandidateMap, ghost offers: set<Offer>, ghost names: seq<string>, l: Lookup,
                    norm: string -> string)
    returns (next: CandidateMap)
    requires Sums(cmap, map[], offers) && forall key | key in cmap :: cmap[key].hop == 1
    requires Shown(cmap, map[], names, norm)
    ensures Sums(next, map[], offers + OffersOf(l, norm)) && forall key | key in next :: next[key].hop == 1
    ensures Shown(next, map[], names + NamesOf(l.sims), norm)
  {
    next := cmap;
    ghost var more := offers;
    assert names + NamesOf(l.sims[..0]) == names;
    for j := 0 to |l.sims|
      invariant Sums(next, map[], more) && forall key | key in next :: next[key].hop == 1
      invariant more == offers + OffersOf(l.(sims := l.sims[..j]), norm)
      invariant Shown(next, map[], names + NamesOf(l.sims[..j]), norm)
    {
      OneMoreName(names, l.sims, j);
      OneMoreOffer(l, j, norm);
      var o := Offer(norm(l.sims[j].name), l.of, l.sims[j].strength);
      RaiseSums(next, map[], more, o, l.sims[j].name, 1);
      RaiseShows(next, map[], names + NamesOf(l.sims[..j]), o, l.sims[j].name, 1, norm);
      next, more := Raise(next, o, l.sims[j].name, 1), more + {o};
    }
    assert l.sims[..|l.sims|] == l.sims;
  }

  /** One-hop candidates: for every candidate and seed, the best match any of the seed's
      lists gives under any spelling. Each is called what it is first called. */
  method OneHop(lookups: seq<Lookup>, norm: string -> string) returns (cmap: CandidateMap)
    ensures Sums(cmap, map[], DirectOffers(lookups, norm))
    ensures forall key | key in cmap :: cmap[key].hop == 1 && cmap[key].recs != map[]
    ensures Shown(cmap, map[], AllNames(lookups), norm)
  {
    cmap := map[];
    for i := 0 to |lookups|
      invariant Sums(cmap, map[], DirectOffers(lookups[..i], norm))
      invariant forall key | key in cmap :: cmap[key].hop == 1
      invariant Shown(cmap, map[], AllNames(lookups[..i]), norm)
    {
      OneMoreLookup(lookups, i, norm);
      assert lookups[..i + 1][..i] == lookups[..i];
      cmap := CreditSeed(cmap, DirectOffers(lookups[..i], norm), AllNames(lookups[..i]), lookups[i], norm);
    }
    assert lookups[..|lookups|] == lookups;
    forall key | key in cmap ensures cmap[key].recs != map[] {
      assert SumsAt(cmap, map[], DirectOffers(lookups, norm), key);
    }
  }

  // ── two hops ──────────────────────────────────────────────────────────────

  /** What a seed of the intermediary becomes one hop further on. */
  function Passed(base: CandidateMap, of: string, seed: string, s: Similar, discount: real,
                  norm: string -> string): Offer
    requires of in base && seed in base[of].recs
  {
    Offer(norm(s.name), seed, base[of].recs[seed] * s.strength * discount)
  }

  /** The offers an expanded candidate passes on: its own seeds, at its own strength for
      them times the second hop's, discounted. One-hop candidates are not offered. */
  ghost predicate PassedOn(o: Offer, base: CandidateMap, l: Lookup, discount: real, norm: string -> string) {
    && l.of in base && o.seed in base[l.of].recs && o.key !in base
    && exists s | s in l.sims :: o == Passed(base, l.of, o.seed, s, discount, norm)
  }

  ghost predicate Path(o: Offer, base: CandidateMap, expanded: seq<Lookup>, discount: real, norm: string -> string) {
    exists l | l in expanded :: PassedOn(o, base, l, discount, norm)
  }

  ghost function Through(base: CandidateMap, of: string, s: Similar, seeds: set<string>, discount: real,
                         norm: string -> string): set<Offer>
    requires of in base && seeds <= base[of].recs.Keys
  {
    set seed | seed in seeds :: Passed(base, of, seed, s, discount, norm)
  }

  ghost predicate Exactly(offers: set<Offer>, base: CandidateMap, expanded: seq<Lookup>, discount: real,
                          norm: string -> string)
  {
    forall o :: o in offers <==> Path(o, base, expanded, discount, norm)
  }

  /** Everything passed on through the expanded candidates; no order is left in it. */
  ghost function SecondHopOffers(base: CandidateMap, expanded: seq<Lookup>, discount: real, norm: string -> string):
    (offers: set<Offer>)
    ensures Exactly(offers, base, expanded, discount, norm)
  {
    set l, s, seed | l in expanded && s in l.sims && l.of in base && seed in base[l.of].recs && norm(s.name) !in base ::
      Passed(base, l.of, seed, s, discount, norm)
  }

  /** The hop mark tells the one-hop candidates from the rest. */
  ghost predicate HopsTell(cmap: CandidateMap, base: CandidateMap) {
    forall key | key in cmap :: cmap[key].hop == 1 <==> key in base
  }

  /** One expanded candidate's list. */
  method ExpandOne(cmap: CandidateMap, ghost base: CandidateMap, ghost offers: set<Offer>, ghost names: seq<string>,
                   l: Lookup, discount: real, norm: string -> string)
    returns (next: CandidateMap, ghost more: set<Offer>)
    requires l.of in base && base[l.of].recs != map[] && Sums(cmap, base, offers) && HopsTell(cmap, base)
    requires Shown(cmap, base, names, norm)
    ensures Sums(next, base, more) && HopsTell(next, base) && Shown(next, base, names + NamesOf(l.sims), norm)
    ensures forall o :: o in more <==> o in offers || PassedOn(o, base, l, discount, norm)
  {
    next, more := cmap, offers;
    assert names + NamesOf(l.sims[..0]) == names;
    for j := 0 to |l.sims|
      invariant Sums(next, base, more) && HopsTell(next, base)
      invariant Shown(next, base, names + NamesOf(l.sims[..j]), norm)
      invariant forall o :: o in more <==> o in offers || PassedOn(o, base, l.(sims := l.sims[..j]), discount, norm)
    {
      var key := norm(l.sims[j].name);
      OneMoreName(names, l.sims, j);
      if key in next && next[key].hop == 1 {
        SkipShows(next, base, names + NamesOf(l.sims[..j]), l.sims[j].name, norm);
        continue;
      }
      assert SumsAt(next, base, more, key);
      next, more := PassOn(next, base, more, names + NamesOf(l.sims[..j]), l.of, l.sims[j], discount, norm);
    }
    assert l.sims[..|l.sims|] == l.sims;
  }

  /** The second hop. One-hop entries come out exactly as they went in, and every other
      candidate holds, for each seed, the best strength over all the ways the expanded
      candidates reach it; the order of expansion cannot be told from the result. */
  method ExpandSecondHop(base: CandidateMap, expanded: seq<Lookup>, discount: real, norm: string -> string)
    returns (cmap: CandidateMap)
    requires forall key | key in base :: base[key].hop == 1 && base[key].recs != map[]
    requires forall l | l in expanded :: l.of in base
    ensures Sums(cmap, base, SecondHopOffers(base, expanded, discount, norm)) && HopsTell(cmap, base)
    ensures Shown(cmap, base, AllNames(expanded), norm)
  {
    ghost var offers := {};
    cmap := base;
    for i := 0 to |expanded|
      invariant Sums(cmap, base, offers) && HopsTell(cmap, base)
      invariant Exactly(offers, base, expanded[..i], discount, norm)
      invariant Shown(cmap, base, AllNames(expanded[..i]), norm)
    {
      ghost var before := offers;
      assert expanded[..i + 1][..i] == expanded[..i];
      cmap, offers := ExpandOne(cmap, base, offers, AllNames(expanded[..i]), expanded[i], discount, norm);
    }
    assert expanded[..|expanded|] == expanded;
    ExactlyOneSet(offers, SecondHopOffers(base, expanded, discount, norm), base, expanded, discount, norm);
  }

  lemma ExactlyOneSet(a: set<Offer>, b: set<Offer>, base: CandidateMap, expanded: seq<Lookup>, discount: real,
                      norm: string -> string)
    requires Exactly(a, base, expanded, discount, norm) && Exactly(b, base, expanded, discount, norm)
    ensures a == b
  {}

  /** The intermediary's entry is read as it stands, which is as the first hop left it. */
  lemma LiveEntry(cmap: CandidateMap, base: CandidateMap, offers: set<Offer>, of: string, seed: string, s: Similar,
                  discount: real, norm: string -> string)
    requires Sums(cmap, base, offers) && of in base && seed in base[of].recs
    ensures of in cmap && cmap[of] == base[of]
    ensures Passed(cmap, of, seed, s, discount, norm) == Passed(base, of, seed, s, discount, norm)
  {
    assert SumsAt(cmap, base, offers, of);
  }

  /** The map while one name's seeds are taken over: once any is, the name is there. */
  ghost predicate Passing(cmap: CandidateMap, base: CandidateMap, offers: set<Offer>, names: seq<string>, name: string,
                          started: bool, norm: string -> string)
  {
    && Sums(cmap, base, offers) && HopsTell(cmap, base) && (started ==> norm(name) in cmap)
    && Shown(cmap, base, if started then names + [name] else names, norm)
  }

  /** One seed of the intermediary. */
  method PassSeed(cmap: CandidateMap, ghost base: CandidateMap, ghost offers: set<Offer>, ghost names: seq<string>,
                  of: string, seed: string, s: Similar, ghost started: bool, discount: real, norm: string -> string)
    returns (next: CandidateMap)
    requires of in base && seed in base[of].recs && norm(s.name) !in base && of in cmap && cmap[of] == base[of]
    requires Passing(cmap, base, offers, names, s.name, started, norm)
    ensures Passing(next, base, offers + {Passed(base, of, seed, s, discount, norm)}, names, s.name, true, norm)
    ensures of in next && next[of] == base[of]
  {
    var o := Passed(cmap, of, seed, s, discount, norm);
    LiveEntry(cmap, base, offers, of, seed, s, discount, norm);
    RaiseSums(cmap, base, offers, o, s.name, 2);
    if started {
      RaiseAgainShows(cmap, base, names + [s.name], o, s.name, 2, norm);
    } else {
      RaiseShows(cmap, base, names, o, s.name, 2, norm);
    }
    next := Raise(cmap, o, s.name, 2);
  }

  /** The innermost loop, over the intermediary's seeds in any order. */
  method PassOn(cmap: CandidateMap, ghost base: CandidateMap, ghost offers: set<Offer>, ghost names: seq<string>,
                of: string, s: Similar, discount: real, norm: string -> string)
    returns (next: CandidateMap, ghost more: set<Offer>)
    requires of in base && base[of].recs != map[] && norm(s.name) !in base
    requires Passing(cmap, base, offers, names, s.name, false, norm)
    ensures more == offers + Through(base, of, s, base[of].recs.Keys, discount, norm)
    ensures Passing(next, base, more, names, s.name, true, norm)
  {
    next, more := cmap, offers;
    assert SumsAt(cmap, base, offers, of);
    var todo := cmap[of].recs.Keys;
    ghost var done: set<string>, started := {}, false;
    assert more == offers + Through(base, of, s, done, discount, norm);
    while todo != {}
      invariant todo + done == base[of].recs.Keys && todo !! done && (todo == {} ==> started)
      invariant of in next && next[of] == base[of]
      invariant more == offers + Through(base, of, s, done, discount, norm)
      invariant Passing(next, base, more, names, s.name, started, norm)
      decreases |todo|
    {
      var seed :| seed in todo;
      ThroughOneMore(base, of, s, done, seed, discount, norm);
      next := PassSeed(next, base, more, names, of, seed, s, started, discount, norm);
      more := more + {Passed(base, of, seed, s, discount, norm)};
      todo, done, started := todo - {seed}, done + {seed}, true;
    }
  }

  lemma ThroughOneMore(base: CandidateMap, of: string, s: Similar, done: set<string>, seed: string, discount: real,
                       norm: string -> string)
    requires of in base && done + {seed} <= base[of].recs.Keys
    ensures Through(base, of, s, done + {seed}, discount, norm)
         == Through(base, of, s, done, discount, norm) + {Passed(base, of, seed, s, discount, norm)}
  {}

  /** Read off the result: no way of reaching a candidate beats the strength it holds, and
      that strength is one of them unless none is positive. */
  lemma StrengthIsTheBestPath(cmap: CandidateMap, base: CandidateMap, expanded: seq<Lookup>, discount: real,
                              norm: string -> string, key: string, seed: string)
    requires SumsAt(cmap, base, SecondHopOffers(base, expanded, discount, norm), key)
    requires key !in base && key in cmap && seed in cmap[key].recs
    ensures forall l, s | l in expanded && s in l.sims && l.of in base && seed in base[l.of].recs
              && norm(s.name) == key ::
              base[l.of].recs[seed] * s.strength * discount <= cmap[key].recs[seed]
    ensures cmap[key].recs[seed] == 0.0 || exists l, s ::
              (l in expanded && s in l.sims && l.of in base && seed in base[l.of].recs && norm(s.name) == key
               && cmap[key].recs[seed] == base[l.of].recs[seed] * s.strength * discount)
  {
    var value := cmap[key].recs[seed];
    assert Told(cmap[key].recs, seed, SecondHopOffers(base, expanded, discount, norm), key);
    assert IsBest(value, SecondHopOffers(base, expanded, discount, norm), key, seed);
    forall l, s | l in expanded && s in l.sims && l.of in base && seed in base[l.of].recs && norm(s.name) == key
      ensures base[l.of].recs[seed] * s.strength * discount <= value
    {
      var o := Passed(base, l.of, seed, s, discount, norm);
      assert PassedOn(o, base, l, discount, norm) && Path(o, base, expanded, discount, norm);
    }
    if value != 0.0 {
      var o := Offer(key, seed, value);
      assert Path(o, base, expanded, discount, norm);
      var l :| l in expanded && PassedOn(o, base, l, discount, norm);
      var s :| s in l.sims && o == Passed(base, l.of, o.seed, s, discount, norm);
    }
  }

  /** Two runs over the same expanded lookups, in any two orders, agree everywhere. */
  lemma ExpansionOrderIsInvisible(a: CandidateMap, b: CandidateMap, base: CandidateMap, first: seq<Lookup>,
                                  second: seq<Lookup>, discount: real, norm: string -> string, key: string)
    requires forall l :: l in first <==> l in second
    requires SumsAt(a, base, SecondHopOffers(base, first, discount, norm), key)
    requires SumsAt(b, base, SecondHopOffers(base, second, discount, norm), key)
    ensures key in a <==> key in b
    ensures key in a ==> a[key].recs == b[key].recs
  {
    var offers := SecondHopOffers(base, first, discount, norm);
    forall o ensures Path(o, base, first, discount, norm) <==> Path(o, base, second, discount, norm) {}
    ExactlyOneSet(offers, SecondHopOffers(base, second, discount, norm), base, second, discount, norm);
    SumsAgree(a, b, base, offers, key);
  }
}
