/** The cohort snowball: breadth-first from each root over the friend graph, in batches,
    keeping the users that pass vetting, each user claimed by at most one root.

    Vetting and friend lists are functions of the user. */
module Snowball {
  import opened Ordering

  datatype Config = Config(
    concurrency: nat,
    maxPerRoot: int,
    target: int,
    maxExamine: int,
    ok: string -> bool,
    friends: string -> seq<string>)

  // ── the graph a root explores ─────────────────────────────────────────────

  /** A walk along friend lists that never enters a blocked user. */
  ghost predicate Walk(p: seq<string>, root: string, blocked: set<string>, cfg: Config) {
    && p != [] && p[0] == root
    && forall i | 0 < i < |p| :: p[i] in cfg.friends(p[i - 1]) && p[i] !in blocked
  }

  ghost predicate WalkTo(p: seq<string>, user: string, root: string, blocked: set<string>, cfg: Config) {
    Walk(p, root, blocked, cfg) && p[|p| - 1] == user
  }

  /** Some walk of `d` steps leads to `user`. */
  ghost predicate Within(user: string, d: nat, root: string, blocked: set<string>, cfg: Config) {
    exists p :: WalkTo(p, user, root, blocked, cfg) && |p| == d + 1
  }

  /** `d` is the length of the shortest walk to `user`. */
  ghost predicate Distance(user: string, d: nat, root: string, blocked: set<string>, cfg: Config) {
    && Within(user, d, root, blocked, cfg)
    && forall p | WalkTo(p, user, root, blocked, cfg) :: |p| > d
  }

  /** Whoever is strictly nearer to the root than `log[i]` comes before it. */
  ghost predicate NearestFirst(log: seq<string>, root: string, blocked: set<string>, cfg: Config) {
    forall i, p, q | 0 <= i < |log| && WalkTo(p, log[i], root, blocked, cfg) && Walk(q, root, blocked, cfg)
      && (forall r | WalkTo(r, log[i], root, blocked, cfg) :: |q| < |r|) ::
      q[|q| - 1] in log[..i]
  }

  // ── the queue and its levels ──────────────────────────────────────────────

  /** Breadth-first bookkeeping: `order` is every user in the order first seen, the first
      `expanded` of which have had their friends added; `level` is a seen user's depth. */
  ghost predicate Frontier(order: seq<string>, expanded: nat, level: map<string, nat>, root: string,
                           blocked: set<string>, cfg: Config)
  {
    && Layers(order, expanded, level, root)
    && (forall u | u in level :: Within(u, level[u], root, blocked, cfg))
    && (forall u | u in level && u != root :: u !in blocked)
    && (forall i | 0 <= i < expanded :: Opened(order[i], order, root, blocked, cfg, level))
  }

  ghost predicate Layers(order: seq<string>, expanded: nat, level: map<string, nat>, root: string) {
    && expanded <= |order| && order != [] && order[0] == root
    && Distinct(order)
    && (forall u :: u in level <==> u in order)
    && level[root] == 0
    && (forall i, j | 0 <= i < j < |order| :: level[order[i]] <= level[order[j]])
    && (forall i, j | expanded <= i < |order| && expanded <= j < |order| :: level[order[j]] <= level[order[i]] + 1)
  }

  /** Every friend the root may visit through `user` has been seen, one level down at most. */
  ghost predicate Opened(user: string, order: seq<string>, root: string, blocked: set<string>, cfg: Config,
                         level: map<string, nat>)
  {
    && user in level
    && forall f | f in cfg.friends(user) && f !in blocked :: f in level && level[f] <= level[user] + 1
  }

  lemma StillQueued(order: seq<string>, e: nat, i: nat)
    requires Distinct(order) && e <= |order| && i < |order|
    ensures order[i] in order[e..] <==> i >= e
  {
    if i >= e {
      assert order[e..][i - e] == order[i];
    }
  }

  lemma OneStepFurther(u: string, f: string, d: nat, root: string, blocked: set<string>, cfg: Config)
    requires Within(u, d, root, blocked, cfg) && f in cfg.friends(u) && f !in blocked
    ensures Within(f, d + 1, root, blocked, cfg)
  {
    var p :| WalkTo(p, u, root, blocked, cfg) && |p| == d + 1;
    assert WalkTo(p + [f], f, root, blocked, cfg);
  }

  lemma StartsAtRoot(root: string, blocked: set<string>, cfg: Config)
    ensures Frontier([root], 0, map[root := 0], root, blocked, cfg)
  {
    assert WalkTo([root], root, root, blocked, cfg);
  }

  /** A new friend goes to the back, one level below the user being expanded. */
  lemma LayersGrow(order: seq<string>, e: nat, level: map<string, nat>, f: string, root: string)
    requires Layers(order, e, level, root) && e < |order| && f !in level
    ensures Layers(order + [f], e, level[f := level[order[e]] + 1], root)
  {
    forall i | 0 <= i < |order| ensures order[i] in level && level[order[i]] <= level[order[e]] + 1 {
      assert order[i] in order;
    }
  }

  /** Seeing a new friend of the user being expanded. */
  lemma SeeFriend(order: seq<string>, e: nat, level: map<string, nat>, f: string, root: string,
                  blocked: set<string>, cfg: Config)
    requires Frontier(order, e, level, root, blocked, cfg) && e < |order|
    requires f in cfg.friends(order[e]) && f !in blocked && f !in level
    ensures Frontier(order + [f], e, level[f := level[order[e]] + 1], root, blocked, cfg)
  {
    var d := level[order[e]];
    LayersGrow(order, e, level, f, root);
    OneStepFurther(order[e], f, d, root, blocked, cfg);
    var next, deeper := order + [f], level[f := d + 1];
    forall i | 0 <= i < e
      ensures Opened(next[i], next, root, blocked, cfg, deeper)
    {
      assert Opened(order[i], order, root, blocked, cfg, level);
    }
  }

  /** Once all friends of the next user are seen, that user counts as expanded. */
  lemma CloseUser(order: seq<string>, e: nat, level: map<string, nat>, root: string, blocked: set<string>, cfg: Config)
    requires Frontier(order, e, level, root, blocked, cfg) && e < |order|
    requires forall f | f in cfg.friends(order[e]) && f !in blocked :: f in level
    ensures Frontier(order, e + 1, level, root, blocked, cfg)
  {
    forall f | f in cfg.friends(order[e]) && f !in blocked
      ensures level[f] <= level[order[e]] + 1
    {
      var j :| 0 <= j < |order| && order[j] == f;
    }
  }

  /** Any walk either ends at a seen user no deeper than its length, or leaves through a
      user still in the queue. */
  lemma {:induction false} WalkMeetsFrontier(order: seq<string>, e: nat, level: map<string, nat>, p: seq<string>,
                                             root: string, blocked: set<string>, cfg: Config) returns (k: nat)
    requires Frontier(order, e, level, root, blocked, cfg) && Walk(p, root, blocked, cfg)
    ensures k < |p| && p[k] in level && level[p[k]] <= k
    ensures k == |p| - 1 || p[k] in order[e..]
  {
    if |p| == 1 {
      k := 0;
    } else {
      var q := p[..|p| - 1];
      k := WalkMeetsFrontier(order, e, level, q, root, blocked, cfg);
      if k == |q| - 1 && q[k] !in order[e..] {
        var i :| 0 <= i < |order| && order[i] == q[k];
        StillQueued(order, e, i);
        assert Opened(order[i], order, root, blocked, cfg, level);
        assert p[k + 1] in cfg.friends(p[k]);
        k := k + 1;
      }
    }
  }

  /** A seen user's level is its true distance, whether expanded yet or not. */
  lemma LevelIsDistance(order: seq<string>, e: nat, level: map<string, nat>, u: string, root: string,
                        blocked: set<string>, cfg: Config)
    requires Frontier(order, e, level, root, blocked, cfg) && u in level
    ensures Distance(u, level[u], root, blocked, cfg)
  {
    forall p | WalkTo(p, u, root, blocked, cfg)
      ensures |p| > level[u]
    {
      var k := WalkMeetsFrontier(order, e, level, p, root, blocked, cfg);
      if k < |p| - 1 {
        QueueIsShallow(order, e, level, p[k], u, root);
      }
    }
  }

  /** Nobody seen lies more than one level below a queued user. */
  lemma QueueIsShallow(order: seq<string>, e: nat, level: map<string, nat>, queued: string, u: string, root: string)
    requires Layers(order, e, level, root) && queued in order[e..] && u in level
    ensures queued in level && level[u] <= level[queued] + 1
  {
    var i :| e <= i < |order| && order[i] == queued;
    var j :| 0 <= j < |order| && order[j] == u;
  }

  /** A walk shorter than every walk to `order[i]` ends at a user seen before it. */
  lemma NearerIsEarlier(order: seq<string>, e: nat, level: map<string, nat>, i: nat, q: seq<string>, root: string,
                        blocked: set<string>, cfg: Config)
    requires Frontier(order, e, level, root, blocked, cfg) && i < e && Walk(q, root, blocked, cfg)
    requires forall r | WalkTo(r, order[i], root, blocked, cfg) :: |q| < |r|
    ensures q[|q| - 1] in order[..i]
  {
    var u := order[i];
    assert u in level && Within(u, level[u], root, blocked, cfg);
    var k := WalkMeetsFrontier(order, e, level, q, root, blocked, cfg);
    var j :| 0 <= j < |order| && order[j] == q[k];
    assert level[order[j]] < level[order[i]];
    assert j < i;
    assert order[..i][j] == q[k];
    StillQueued(order, e, j);
  }

  /** The order in which users were first seen puts nearer users first. */
  lemma OrderIsNearestFirst(order: seq<string>, e: nat, level: map<string, nat>, n: nat, root: string,
                            blocked: set<string>, cfg: Config)
    requires Frontier(order, e, level, root, blocked, cfg) && n <= e
    ensures NearestFirst(order[..n], root, blocked, cfg)
  {
    forall i, p, q | 0 <= i < n && WalkTo(p, order[i], root, blocked, cfg) && Walk(q, root, blocked, cfg)
      && (forall r | WalkTo(r, order[i], root, blocked, cfg) :: |q| < |r|)
      ensures q[|q| - 1] in order[..n][..i]
    {
      NearerIsEarlier(order, e, level, i, q, root, blocked, cfg);
      assert order[..n][..i] == order[..i];
    }
  }

  /** With an empty queue, everyone the root can reach has been seen. */
  lemma EmptyQueueReachedAll(order: seq<string>, level: map<string, nat>, root: string, blocked: set<string>,
                             cfg: Config)
    requires Frontier(order, |order|, level, root, blocked, cfg)
    ensures forall p | Walk(p, root, blocked, cfg) :: p[|p| - 1] in order
  {
    forall p | Walk(p, root, blocked, cfg)
      ensures p[|p| - 1] in order
    {
      var k := WalkMeetsFrontier(order, |order|, level, p, root, blocked, cfg);
      assert order[|order|..] == [];
    }
  }

  // ── the search as a function of how many users were expanded ──────────────

  /** The users seen so far, in the order first seen, and their depths. */
  datatype Search = Search(order: seq<string>, level: map<string, nat>)

  function Depth(t: Search, u: string): nat {
    if u in t.level then t.level[u] else 0
  }

  /** `friends` met one after the other, new ones put at depth `d`. */
  function Meet(t: Search, friends: seq<string>, d: nat, blocked: set<string>): Search {
    if friends == [] then t
    else
      var n := |friends| - 1;
      var m := Meet(t, friends[..n], d, blocked);
      if friends[n] in blocked || friends[n] in m.level then m
      else Search(m.order + [friends[n]], m.level[friends[n] := d])
  }

  function Expand(t: Search, u: string, blocked: set<string>, cfg: Config): Search {
    Meet(t, cfg.friends(u), Depth(t, u) + 1, blocked)
  }

  function Grown(root: string, e: nat, blocked: set<string>, cfg: Config): Search {
    if e == 0 then Search([root], map[root := 0])
    else
      var t := Grown(root, e - 1, blocked, cfg);
      if e - 1 < |t.order| then Expand(t, t.order[e - 1], blocked, cfg) else t
  }

  /** While the friends of `u`, at place `e` and depth `d`, are being met. */
  ghost predicate Meeting(t: Search, e: nat, u: string, d: nat, root: string, blocked: set<string>, cfg: Config) {
    Frontier(t.order, e, t.level, root, blocked, cfg) && e < |t.order| && t.order[e] == u && t.level[u] == d
  }

  lemma MeetOne(t: Search, e: nat, u: string, d: nat, f: string, root: string, blocked: set<string>, cfg: Config)
    requires Meeting(t, e, u, d, root, blocked, cfg)
    requires f in cfg.friends(u) && f !in blocked && f !in t.level
    ensures Meeting(Search(t.order + [f], t.level[f := d + 1]), e, u, d, root, blocked, cfg)
  {
    SeeFriend(t.order, e, t.level, f, root, blocked, cfg);
    assert t.order[e] in t.level;
  }

  lemma {:induction false} MeetAll(t: Search, e: nat, u: string, d: nat, friends: seq<string>, root: string,
                                   blocked: set<string>, cfg: Config)
    requires Meeting(t, e, u, d, root, blocked, cfg) && forall f | f in friends :: f in cfg.friends(u)
    ensures Meeting(Meet(t, friends, d + 1, blocked), e, u, d, root, blocked, cfg)
  {
    if friends != [] {
      var n := |friends| - 1;
      MeetAll(t, e, u, d, friends[..n], root, blocked, cfg);
      var m := Meet(t, friends[..n], d + 1, blocked);
      if friends[n] !in blocked && friends[n] !in m.level {
        MeetOne(m, e, u, d, friends[n], root, blocked, cfg);
      }
    }
  }

  lemma {:induction false} MeetSees(t: Search, friends: seq<string>, d: nat, blocked: set<string>)
    ensures forall f | f in friends && f !in blocked :: f in Meet(t, friends, d, blocked).level
  {
    if friends != [] {
      var n := |friends| - 1;
      MeetSees(t, friends[..n], d, blocked);
      assert friends == friends[..n] + [friends[n]];
    }
  }

  lemma ExpandFrontier(t: Search, e: nat, root: string, blocked: set<string>, cfg: Config)
    requires Frontier(t.order, e, t.level, root, blocked, cfg) && e < |t.order|
    ensures var m := Expand(t, t.order[e], blocked, cfg); Frontier(m.order, e + 1, m.level, root, blocked, cfg)
  {
    var u := t.order[e];
    assert u in t.level;
    MeetAll(t, e, u, t.level[u], cfg.friends(u), root, blocked, cfg);
    MeetSees(t, cfg.friends(u), t.level[u] + 1, blocked);
    CloseMet(Expand(t, u, blocked, cfg), e, u, t.level[u], root, blocked, cfg);
  }

  lemma CloseMet(t: Search, e: nat, u: string, d: nat, root: string, blocked: set<string>, cfg: Config)
    requires Meeting(t, e, u, d, root, blocked, cfg)
    requires forall f | f in cfg.friends(u) && f !in blocked :: f in t.level
    ensures Frontier(t.order, e + 1, t.level, root, blocked, cfg)
  {
    CloseUser(t.order, e, t.level, root, blocked, cfg);
  }

  lemma {:induction false} GrownFrontier(root: string, e: nat, blocked: set<string>, cfg: Config)
    requires e <= |Grown(root, e, blocked, cfg).order|
    ensures var t := Grown(root, e, blocked, cfg); Frontier(t.order, e, t.level, root, blocked, cfg)
  {
    if e == 0 {
      StartsAtRoot(root, blocked, cfg);
    } else {
      var t := Grown(root, e - 1, blocked, cfg);
      if e - 1 < |t.order| {
        GrownFrontier(root, e - 1, blocked, cfg);
        ExpandFrontier(t, e - 1, root, blocked, cfg);
      }
    }
  }

  // ── who is found when ─────────────────────────────────────────────────────

  /** `log[i]` is friend number `q` of `log[p]`, and whoever is listed earlier, in the list
      of an earlier user or earlier in the same list, stands before it, unless blocked. */
  ghost predicate FoundAt(p: nat, q: nat, i: nat, log: seq<string>, blocked: set<string>, cfg: Config) {
    && p < i < |log| && q < |cfg.friends(log[p])| && cfg.friends(log[p])[q] == log[i] && log[i] !in blocked
    && (forall p', f | 0 <= p' < p && f in cfg.friends(log[p']) && f !in blocked :: f in log[..i])
    && forall q' | 0 <= q' < q && cfg.friends(log[p])[q'] !in blocked :: cfg.friends(log[p])[q'] in log[..i]
  }

  /** Users stand in the order in which a search in full would first come across them. */
  ghost predicate InOrderFound(log: seq<string>, root: string, blocked: set<string>, cfg: Config) {
    && (log != [] ==> log[0] == root)
    && forall i: nat | 0 < i < |log| :: Found(i, log, blocked, cfg)
  }

  ghost predicate Found(i: nat, log: seq<string>, blocked: set<string>, cfg: Config) {
    exists p: nat, q: nat :: FoundAt(p, q, i, log, blocked, cfg)
  }

  lemma FoundAtInPrefix(p: nat, q: nat, i: nat, log: seq<string>, more: seq<string>, blocked: set<string>, cfg: Config)
    requires i < |log| && log <= more
    ensures FoundAt(p, q, i, log, blocked, cfg) <==> FoundAt(p, q, i, more, blocked, cfg)
  {
    assert log[..i] == more[..i];
    assert forall k | 0 <= k <= i :: log[k] == more[k];
  }

  lemma FoundInPrefix(i: nat, log: seq<string>, more: seq<string>, blocked: set<string>, cfg: Config)
    requires i < |log| && log <= more
    ensures Found(i, log, blocked, cfg) <==> Found(i, more, blocked, cfg)
  {
    forall p: nat, q: nat ensures FoundAt(p, q, i, log, blocked, cfg) <==> FoundAt(p, q, i, more, blocked, cfg) {
      FoundAtInPrefix(p, q, i, log, more, blocked, cfg);
    }
  }

  lemma OneMoreFound(log: seq<string>, f: string, p: nat, q: nat, root: string, blocked: set<string>, cfg: Config)
    requires log != [] && InOrderFound(log, root, blocked, cfg) && FoundAt(p, q, |log|, log + [f], blocked, cfg)
    ensures InOrderFound(log + [f], root, blocked, cfg)
  {
    forall i: nat | 0 < i < |log| ensures Found(i, log + [f], blocked, cfg) {
      FoundInPrefix(i, log, log + [f], blocked, cfg);
    }
  }

  lemma PrefixInOrderFound(log: seq<string>, n: nat, root: string, blocked: set<string>, cfg: Config)
    requires n <= |log| && InOrderFound(log, root, blocked, cfg)
    ensures InOrderFound(log[..n], root, blocked, cfg)
  {
    forall i: nat | 0 < i < n ensures Found(i, log[..n], blocked, cfg) {
      FoundInPrefix(i, log[..n], log, blocked, cfg);
    }
  }

  /** That settles the order: of two such lists without repeats one begins the other. */
  lemma {:induction false} OrderIsSettled(a: seq<string>, b: seq<string>, root: string, blocked: set<string>,
                                          cfg: Config)
    requires InOrderFound(a, root, blocked, cfg) && InOrderFound(b, root, blocked, cfg)
    requires Distinct(a) && Distinct(b) && |a| <= |b|
    ensures a <= b
  {
    var n := |a| - 1;
    if n > 0 {
      PrefixInOrderFound(a, n, root, blocked, cfg);
      OrderIsSettled(a[..n], b, root, blocked, cfg);
      assert Found(n, a, blocked, cfg) && Found(n, b, blocked, cfg);
      var p: nat, q: nat :| FoundAt(p, q, n, a, blocked, cfg);
      var r: nat, s: nat :| FoundAt(r, s, n, b, blocked, cfg);
      assert a[..n] == b[..n];
      SameFind(p, q, r, s, n, a, b, blocked, cfg);
      assert a == a[..n] + [a[n]];
    }
  }

  lemma SameFind(p: nat, q: nat, r: nat, s: nat, n: nat, a: seq<string>, b: seq<string>, blocked: set<string>,
                 cfg: Config)
    requires FoundAt(p, q, n, a, blocked, cfg) && FoundAt(r, s, n, b, blocked, cfg) && a[..n] == b[..n]
    requires a[n] !in a[..n] && b[n] !in b[..n]
    ensures a[n] == b[n]
  {
    assert a[p] == a[..n][p] && b[r] == b[..n][r] && a[r] == a[..n][r] && b[p] == b[..n][p];
  }

  /** The next new friend of the user being expanded is found in order. */
  lemma FriendIsFound(m: Search, e: nat, u: string, d: nat, q: nat, root: string, blocked: set<string>, cfg: Config)
    requires Meeting(m, e, u, d, root, blocked, cfg) && q < |cfg.friends(u)| && cfg.friends(u)[q] !in blocked
    requires forall q' | 0 <= q' < q && cfg.friends(u)[q'] !in blocked :: cfg.friends(u)[q'] in m.level
    ensures FoundAt(e, q, |m.order|, m.order + [cfg.friends(u)[q]], blocked, cfg)
  {
    var log := m.order + [cfg.friends(u)[q]];
    assert log[..|m.order|] == m.order && log[e] == u;
    forall p', f | 0 <= p' < e && f in cfg.friends(log[p']) && f !in blocked ensures f in m.order {
      assert Opened(m.order[p'], m.order, root, blocked, cfg, m.level);
    }
  }

  lemma {:induction false} MeetFinds(t: Search, e: nat, u: string, d: nat, n: nat, root: string, blocked: set<string>,
                                     cfg: Config)
    requires Meeting(t, e, u, d, root, blocked, cfg) && n <= |cfg.friends(u)|
    requires InOrderFound(t.order, root, blocked, cfg)
    ensures InOrderFound(Meet(t, cfg.friends(u)[..n], d + 1, blocked).order, root, blocked, cfg)
  {
    if n > 0 {
      var q, friends := n - 1, cfg.friends(u)[..n];
      assert friends[..q] == cfg.friends(u)[..q];
      MeetFinds(t, e, u, d, q, root, blocked, cfg);
      var m := Meet(t, friends[..q], d + 1, blocked);
      MeetAll(t, e, u, d, friends[..q], root, blocked, cfg);
      MeetSees(t, friends[..q], d + 1, blocked);
      if friends[q] !in blocked && friends[q] !in m.level {
        MetIsFound(m, e, u, d, q, root, blocked, cfg);
      }
    }
  }

  lemma MetIsFound(m: Search, e: nat, u: string, d: nat, q: nat, root: string, blocked: set<string>, cfg: Config)
    requires Meeting(m, e, u, d, root, blocked, cfg) && q < |cfg.friends(u)| && cfg.friends(u)[q] !in blocked
    requires forall f | f in cfg.friends(u)[..q] && f !in blocked :: f in m.level
    requires InOrderFound(m.order, root, blocked, cfg)
    ensures InOrderFound(m.order + [cfg.friends(u)[q]], root, blocked, cfg)
  {
    forall q' | 0 <= q' < q && cfg.friends(u)[q'] !in blocked ensures cfg.friends(u)[q'] in m.level {
      assert cfg.friends(u)[..q][q'] == cfg.friends(u)[q'];
    }
    FriendIsFound(m, e, u, d, q, root, blocked, cfg);
    OneMoreFound(m.order, cfg.friends(u)[q], e, q, root, blocked, cfg);
  }

  lemma ExpandIsFound(t: Search, e: nat, root: string, blocked: set<string>, cfg: Config)
    requires Frontier(t.order, e, t.level, root, blocked, cfg) && e < |t.order|
    requires InOrderFound(t.order, root, blocked, cfg)
    ensures InOrderFound(Expand(t, t.order[e], blocked, cfg).order, root, blocked, cfg)
  {
    var u := t.order[e];
    assert u in t.level && cfg.friends(u)[..|cfg.friends(u)|] == cfg.friends(u);
    MeetFinds(t, e, u, t.level[u], |cfg.friends(u)|, root, blocked, cfg);
  }

  lemma {:induction false} GrownIsFound(root: string, e: nat, blocked: set<string>, cfg: Config)
    requires e <= |Grown(root, e, blocked, cfg).order|
    ensures InOrderFound(Grown(root, e, blocked, cfg).order, root, blocked, cfg)
  {
    if e > 0 {
      var t := Grown(root, e - 1, blocked, cfg);
      if e - 1 < |t.order| {
        GrownIsFound(root, e - 1, blocked, cfg);
        GrownFrontier(root, e - 1, blocked, cfg);
        ExpandIsFound(t, e - 1, root, blocked, cfg);
      }
    }
  }

  // ── one root ──────────────────────────────────────────────────────────────

  /** The examined users a root keeps: those that pass vetting and nobody had claimed. */
  function Kept(log: seq<string>, claimed: set<string>, cfg: Config): seq<string> {
    if log == [] then []
    else
      var n := |log| - 1;
      Kept(log[..n], claimed, cfg) + if cfg.ok(log[n]) && log[n] !in claimed then [log[n]] else []
  }

  function Elements(s: seq<string>): set<string> {
    set u | u in s
  }

  function Quota(cfg: Config): int {
    if cfg.target < cfg.maxPerRoot then cfg.target else cfg.maxPerRoot
  }

  /** What one root's snowball comes to: `log` are the users it examined, in order. */
  ghost predicate Snowballed(root: string, claimed: set<string>, vetted: seq<string>, log: seq<string>, cfg: Config) {
    && Distinct(log) && InOrderFound(log, root, claimed, cfg) && NearestFirst(log, root, claimed, cfg)
    && (forall u | u in log :: exists d :: Distance(u, d, root, claimed, cfg))
    && vetted == Kept(log, claimed, cfg)
    && (vetted == [] || |vetted| <= cfg.maxPerRoot)
    && (vetted == [] || 0 < Quota(cfg))
    && (vetted == [] || |vetted| < Quota(cfg) + cfg.concurrency)
    && (log == [] || |log| < cfg.maxExamine + cfg.concurrency)
    && (|vetted| >= Quota(cfg) || |log| >= cfg.maxExamine || ReachedAll(log, root, claimed, cfg))
  }

  ghost predicate ReachedAll(log: seq<string>, root: string, claimed: set<string>, cfg: Config) {
    forall p | Walk(p, root, claimed, cfg) :: p[|p| - 1] in log
  }

  lemma {:induction false} KeptIff(log: seq<string>, claimed: set<string>, cfg: Config)
    requires Distinct(log)
    ensures forall u :: u in Kept(log, claimed, cfg) <==> u in log && cfg.ok(u) && u !in claimed
    ensures Distinct(Kept(log, claimed, cfg))
  {
    if log != [] {
      var n := |log| - 1;
      KeptIff(log[..n], claimed, cfg);
      assert log == log[..n] + [log[n]];
      assert log[n] !in log[..n];
    }
  }

  /** The kept stand at the places `idx` of the log: where a user passes and is unclaimed. */
  ghost predicate KeptAt(idx: seq<nat>, kept: seq<string>, log: seq<string>, claimed: set<string>, cfg: Config) {
    && Picks(idx, log, kept)
    && forall i: nat | i < |log| :: i in idx <==> cfg.ok(log[i]) && log[i] !in claimed
  }

  lemma {:induction false} KeptInOrder(log: seq<string>, claimed: set<string>, cfg: Config) returns (idx: seq<nat>)
    ensures KeptAt(idx, Kept(log, claimed, cfg), log, claimed, cfg)
  {
    if log == [] {
      idx := [];
    } else {
      var n := |log| - 1;
      idx := KeptInOrder(log[..n], claimed, cfg);
      PicksSnoc(idx, log[..n], Kept(log[..n], claimed, cfg), log[n]);
      assert log == log[..n] + [log[n]];
      if cfg.ok(log[n]) && log[n] !in claimed {
        idx := idx + [n];
      }
    }
  }

  /** Vets one batch. The users of `vetted` are the ones claimed so far, so the source's
      test against its shared set comes down to `claimed`. */
  method VetBatch(batch: seq<string>, vetted: seq<string>, alreadySeen: set<string>, ghost claimed: set<string>,
                  ghost log: seq<string>, cfg: Config)
      returns (vetted': seq<string>, alreadySeen': set<string>, examined: nat)
    requires Distinct(log + batch)
    requires vetted == Kept(log, claimed, cfg) && alreadySeen == claimed + Elements(vetted)
    requires |vetted| < cfg.maxPerRoot
    ensures examined <= |batch| && (batch != [] ==> examined > 0)
    ensures vetted' == Kept(log + batch[..examined], claimed, cfg)
    ensures alreadySeen' == claimed + Elements(vetted')
    ensures |vetted'| <= cfg.maxPerRoot && |vetted| <= |vetted'| <= |vetted| + |batch|
    ensures examined == |batch| || |vetted'| == cfg.maxPerRoot
  {
    vetted', alreadySeen', examined := vetted, alreadySeen, 0;
    assert log + batch[..0] == log;
    while examined < |batch|
      invariant 0 <= examined <= |batch|
      invariant vetted' == Kept(log + batch[..examined], claimed, cfg)
      invariant alreadySeen' == claimed + Elements(vetted')
      invariant |vetted'| < cfg.maxPerRoot && |vetted| <= |vetted'| <= |vetted| + examined
    {
      var user := batch[examined];
      KeptOneMore(log, batch, examined, claimed, cfg);
      examined := examined + 1;
      if cfg.ok(user) && user !in alreadySeen' {
        vetted', alreadySeen' := vetted' + [user], alreadySeen' + {user};
        if |vetted'| >= cfg.maxPerRoot {
          break;
        }
      }
    }
  }

  lemma KeptOneMore(log: seq<string>, batch: seq<string>, i: nat, claimed: set<string>, cfg: Config)
    requires Distinct(log + batch) && i < |batch|
    ensures batch[i] !in Kept(log + batch[..i], claimed, cfg)
    ensures Kept(log + batch[..i + 1], claimed, cfg) == Kept(log + batch[..i], claimed, cfg)
              + if cfg.ok(batch[i]) && batch[i] !in claimed then [batch[i]] else []
  {
    var done := log + batch[..i];
    assert log + batch[..i + 1] == done + [batch[i]];
    assert (done + [batch[i]])[..|done|] == done;
    assert done == (log + batch)[..|done|] && (log + batch)[|done|] == batch[i];
    PrefixDistinct(log + batch, |done|);
    KeptIff(done, claimed, cfg);
  }

  /** Queues the unseen among `friends`. */
  method SeeFriends(friends: seq<string>, seen: set<string>, queue: seq<string>, ghost t: Search, ghost d: nat,
                    ghost blocked: set<string>)
      returns (seen': set<string>, queue': seq<string>)
    requires seen == blocked + t.level.Keys
    ensures var m := Meet(t, friends, d, blocked);
            && t.order <= m.order && queue' == queue + m.order[|t.order|..] && seen' == blocked + m.level.Keys
  {
    seen', queue' := seen, queue;
    ghost var m := t;
    for j := 0 to |friends|
      invariant m == Meet(t, friends[..j], d, blocked)
      invariant t.order <= m.order && queue' == queue + m.order[|t.order|..] && seen' == blocked + m.level.Keys
    {
      assert friends[..j + 1][..j] == friends[..j];
      var f := friends[j];
      if f !in seen' {
        seen', queue' := seen' + {f}, queue' + [f];
      }
      m := Meet(t, friends[..j + 1], d, blocked);
    }
    assert friends[..|friends|] == friends;
  }

  /** The program's `seen` and `queue` once `e` users are expanded, `n` having left the queue. */
  ghost predicate Tracks(seen: set<string>, queue: seq<string>, t: Search, n: nat, blocked: set<string>) {
    n <= |t.order| && queue == t.order[n..] && seen == blocked + t.level.Keys
  }

  method ExpandUser(u: string, seen: set<string>, queue: seq<string>, ghost t: Search, ghost n: nat,
                    ghost blocked: set<string>, cfg: Config)
      returns (seen': set<string>, queue': seq<string>)
    requires Tracks(seen, queue, t, n, blocked)
    ensures Tracks(seen', queue', Expand(t, u, blocked, cfg), n, blocked)
    ensures t.order <= Expand(t, u, blocked, cfg).order
  {
    seen', queue' := SeeFriends(cfg.friends(u), seen, queue, t, Depth(t, u) + 1, blocked);
    TailGrows(t.order, Expand(t, u, blocked, cfg).order, n);
  }

  lemma TailGrows(order: seq<string>, next: seq<string>, n: nat)
    requires order <= next && n <= |order|
    ensures order[n..] + next[|order|..] == next[n..]
  {
    assert next == order + next[|order|..];
  }

  function ExpandAll(t: Search, users: seq<string>, blocked: set<string>, cfg: Config): Search {
    if users == [] then t
    else
      var n := |users| - 1;
      Expand(ExpandAll(t, users[..n], blocked, cfg), users[n], blocked, cfg)
  }

  /** Expands a whole batch. */
  method ExpandBatch(batch: seq<string>, seen: set<string>, queue: seq<string>, ghost t: Search, ghost n: nat,
                     ghost blocked: set<string>, cfg: Config)
      returns (seen': set<string>, queue': seq<string>)
    requires Tracks(seen, queue, t, n, blocked)
    ensures Tracks(seen', queue', ExpandAll(t, batch, blocked, cfg), n, blocked)
  {
    seen', queue' := seen, queue;
    ghost var t' := t;
    for k := 0 to |batch|
      invariant t' == ExpandAll(t, batch[..k], blocked, cfg)
      invariant Tracks(seen', queue', t', n, blocked)
    {
      seen', queue' := ExpandUser(batch[k], seen', queue', t', n, blocked, cfg);
      t' := Expand(t', batch[k], blocked, cfg);
      assert batch[..k + 1][..k] == batch[..k];
    }
    assert batch[..|batch|] == batch;
  }

  lemma SliceFront(order: seq<string>, e: nat, n: nat)
    requires 0 < n && e + n <= |order|
    ensures order[e..e + n] == order[e..e + n - 1] + [order[e + n - 1]]
  {}

  lemma GrownNext(t: Search, e: nat, u: string, root: string, blocked: set<string>, cfg: Config)
    requires t == Grown(root, e, blocked, cfg) && e < |t.order| && t.order[e] == u
    ensures Grown(root, e + 1, blocked, cfg) == Expand(t, u, blocked, cfg)
  {}

  lemma ExpandAllSnoc(t: Search, users: seq<string>, u: string, blocked: set<string>, cfg: Config)
    ensures ExpandAll(t, users + [u], blocked, cfg) == Expand(ExpandAll(t, users, blocked, cfg), u, blocked, cfg)
  {
    assert (users + [u])[..|users|] == users;
  }

  /** Expanding what comes next in first-seen order advances the search. */
  lemma {:induction false} BatchAdvances(t: Search, e: nat, n: nat, root: string, blocked: set<string>, cfg: Config)
    requires t == Grown(root, e, blocked, cfg) && e + n <= |t.order|
    ensures ExpandAll(t, t.order[e..e + n], blocked, cfg) == Grown(root, e + n, blocked, cfg)
    ensures t.order <= ExpandAll(t, t.order[e..e + n], blocked, cfg).order
  {
    if n > 0 {
      var users, u := t.order[e..e + n - 1], t.order[e + n - 1];
      BatchAdvances(t, e, n - 1, root, blocked, cfg);
      SliceFront(t.order, e, n);
      ExpandAllSnoc(t, users, u, blocked, cfg);
      OneUserAdvances(t, ExpandAll(t, users, blocked, cfg), e + n - 1, u, root, blocked, cfg);
    }
  }

  lemma OneUserAdvances(t: Search, m: Search, e: nat, u: string, root: string, blocked: set<string>, cfg: Config)
    requires m == Grown(root, e, blocked, cfg) && t.order <= m.order && e < |t.order| && t.order[e] == u
    ensures Expand(m, u, blocked, cfg) == Grown(root, e + 1, blocked, cfg)
    ensures t.order <= Expand(m, u, blocked, cfg).order
  {
    GrownNext(m, e, u, root, blocked, cfg);
    MeetExtends(m, cfg.friends(u), Depth(m, u) + 1, blocked);
  }

  lemma {:induction false} MeetExtends(t: Search, friends: seq<string>, d: nat, blocked: set<string>)
    ensures t.order <= Meet(t, friends, d, blocked).order
  {
    if friends != [] {
      MeetExtends(t, friends[..|friends| - 1], d, blocked);
    }
  }

  /** Taking a batch off the queue. */
  lemma TakeBatch(seen: set<string>, batch: seq<string>, rest: seq<string>, t: Search, e: nat, root: string,
                  blocked: set<string>, cfg: Config)
    requires t == Grown(root, e, blocked, cfg) && Tracks(seen, batch + rest, t, e, blocked)
    ensures Tracks(seen, rest, t, e + |batch|, blocked)
    ensures t.order[e..e + |batch|] == batch && Distinct(t.order[..e] + batch)
  {
    GrownFrontier(root, e, blocked, cfg);
    assert t.order[e..][..|batch|] == batch && t.order[e..][|batch|..] == rest;
    PrefixDistinct(t.order, e + |batch|);
    assert t.order[..e] + batch == t.order[..e + |batch|];
  }

  lemma LogGrows(order: seq<string>, grown: seq<string>, e: nat, batch: seq<string>, now: nat)
    requires order <= grown && e + |batch| <= |order| && order[e..e + |batch|] == batch && now <= |batch|
    ensures order[..e] + batch[..now] == grown[..e + now]
  {
    assert forall k | 0 <= k < now :: batch[k] == order[e + k];
  }

  /** The state of a root's search with `examined` users vetted out of the `e` expanded. */
  ghost predicate Running(vetted: seq<string>, alreadySeen: set<string>, seen: set<string>, queue: seq<string>,
                          examined: nat, e: nat, t: Search, claimed: set<string>, cfg: Config)
  {
    && Tracks(seen, queue, t, e, claimed)
    && examined <= e && (examined == e || |vetted| >= cfg.maxPerRoot)
    && vetted == Kept(t.order[..examined], claimed, cfg)
    && alreadySeen == claimed + Elements(vetted)
    && (vetted == [] || |vetted| <= cfg.maxPerRoot)
  }

  method TakeFront(queue: seq<string>, width: nat) returns (batch: seq<string>, rest: seq<string>)
    requires width > 0 && queue != []
    ensures queue == batch + rest && 0 < |batch| <= width
    ensures |batch| == width || rest == []
  {
    var n := if width < |queue| then width else |queue|;
    batch, rest := queue[..n], queue[n..];
  }

  /** One turn of the loop. */
  method RunBatch(vetted: seq<string>, alreadySeen: set<string>, seen: set<string>, queue: seq<string>, ghost e: nat,
                  ghost t: Search, root: string, ghost claimed: set<string>, cfg: Config)
      returns (vetted': seq<string>, alreadySeen': set<string>, seen': set<string>, queue': seq<string>,
               now: nat, ghost e': nat, ghost t': Search)
    requires cfg.concurrency > 0 && queue != [] && |vetted| < cfg.maxPerRoot
    requires t == Grown(root, e, claimed, cfg) && Running(vetted, alreadySeen, seen, queue, e, e, t, claimed, cfg)
    ensures t' == Grown(root, e', claimed, cfg)
    ensures Running(vetted', alreadySeen', seen', queue', e + now, e', t', claimed, cfg)
    ensures 0 < now <= cfg.concurrency && |vetted'| <= |vetted| + cfg.concurrency
  {
    var batch, rest := TakeFront(queue, cfg.concurrency);
    TakeBatch(seen, batch, rest, t, e, root, claimed, cfg);
    vetted', alreadySeen', now := VetBatch(batch, vetted, alreadySeen, claimed, t.order[..e], cfg);
    e' := e + |batch|;
    seen', queue' := ExpandBatch(batch, seen, rest, t, e', claimed, cfg);
    t' := ExpandAll(t, batch, claimed, cfg);
    Resume(vetted', alreadySeen', seen', queue', batch, now, e, t, root, claimed, cfg);
  }

  lemma Resume(vetted: seq<string>, alreadySeen: set<string>, seen: set<string>, queue: seq<string>, batch: seq<string>,
               now: nat, e: nat, t: Search, root: string, claimed: set<string>, cfg: Config)
    requires e + |batch| <= |t.order| && t.order[e..e + |batch|] == batch && now <= |batch|
    requires t == Grown(root, e, claimed, cfg)
    requires Tracks(seen, queue, ExpandAll(t, batch, claimed, cfg), e + |batch|, claimed)
    requires vetted == Kept(t.order[..e] + batch[..now], claimed, cfg)
    requires alreadySeen == claimed + Elements(vetted) && |vetted| <= cfg.maxPerRoot
    requires now == |batch| || |vetted| == cfg.maxPerRoot
    ensures ExpandAll(t, batch, claimed, cfg) == Grown(root, e + |batch|, claimed, cfg)
    ensures Running(vetted, alreadySeen, seen, queue, e + now, e + |batch|,
                    ExpandAll(t, batch, claimed, cfg), claimed, cfg)
  {
    BatchAdvances(t, e, |batch|, root, claimed, cfg);
    LogGrows(t.order, ExpandAll(t, batch, claimed, cfg).order, e, batch, now);
  }

  lemma StartsRunning(root: string, claimed: set<string>, cfg: Config)
    ensures Grown(root, 0, claimed, cfg) == Search([root], map[root := 0])
    ensures Running([], claimed, claimed + {root}, [root], 0, 0, Search([root], map[root := 0]), claimed, cfg)
  {}

  /** A root's search has ended: its share is full, its budget spent or its queue empty. */
  ghost predicate Ended(vetted: seq<string>, queue: seq<string>, examined: nat, cfg: Config) {
    && (vetted == [] || (0 < Quota(cfg) && |vetted| < Quota(cfg) + cfg.concurrency))
    && (examined == 0 || examined < cfg.maxExamine + cfg.concurrency)
    && (queue == [] || |vetted| >= Quota(cfg) || examined >= cfg.maxExamine)
  }

  method SearchFrom(root: string, alreadySeen: set<string>, cfg: Config)
      returns (vetted: seq<string>, alreadySeen': set<string>, seen: set<string>, queue: seq<string>, examined: nat,
               ghost e: nat, ghost t: Search)
    requires cfg.concurrency > 0
    ensures t == Grown(root, e, alreadySeen, cfg)
    ensures Running(vetted, alreadySeen', seen, queue, examined, e, t, alreadySeen, cfg)
    ensures Ended(vetted, queue, examined, cfg)
  {
    seen, queue, examined := alreadySeen + {root}, [root], 0;
    var target := if cfg.target < cfg.maxPerRoot then cfg.target else cfg.maxPerRoot;
    vetted, alreadySeen' := [], alreadySeen;
    e, t := 0, Search([root], map[root := 0]);
    StartsRunning(root, alreadySeen, cfg);
    while queue != [] && |vetted| < target && examined < cfg.maxExamine
      invariant t == Grown(root, e, alreadySeen, cfg)
      invariant Running(vetted, alreadySeen', seen, queue, examined, e, t, alreadySeen, cfg)
      invariant vetted == [] || (0 < target && |vetted| < target + cfg.concurrency)
      invariant examined == 0 || examined < cfg.maxExamine + cfg.concurrency
      decreases cfg.maxExamine - examined
    {
      var now: nat;
      assert examined == e;
      vetted, alreadySeen', seen, queue, now, e, t :=
        RunBatch(vetted, alreadySeen', seen, queue, e, t, root, alreadySeen, cfg);
      examined := examined + now;
    }
  }

  method SnowballRoot(root: string, alreadySeen: set<string>, cfg: Config)
      returns (vetted: seq<string>, alreadySeen': set<string>, ghost log: seq<string>)
    requires cfg.concurrency > 0
    ensures Snowballed(root, alreadySeen, vetted, log, cfg)
    ensures alreadySeen' == alreadySeen + Elements(vetted)
    ensures exists idx :: KeptAt(idx, vetted, log, alreadySeen, cfg)
  {
    var seen, queue, examined;
    ghost var e, t;
    vetted, alreadySeen', seen, queue, examined, e, t := SearchFrom(root, alreadySeen, cfg);
    log := Conclude(vetted, alreadySeen', seen, queue, examined, e, t, root, alreadySeen, cfg);
    ghost var _ := KeptInOrder(log, alreadySeen, cfg);
  }

  lemma Conclude(vetted: seq<string>, alreadySeen: set<string>, seen: set<string>, queue: seq<string>, examined: nat,
                 e: nat, t: Search, root: string, claimed: set<string>, cfg: Config) returns (log: seq<string>)
    requires t == Grown(root, e, claimed, cfg)
    requires Running(vetted, alreadySeen, seen, queue, examined, e, t, claimed, cfg)
    requires Ended(vetted, queue, examined, cfg)
    ensures Snowballed(root, claimed, vetted, log, cfg) && alreadySeen == claimed + Elements(vetted)
  {
    log := t.order[..examined];
    assert queue == [] ==> e == |t.order|;
    ConcludeRun(t, e, examined, root, claimed, cfg);
  }

  lemma ConcludeRun(t: Search, e: nat, n: nat, root: string, blocked: set<string>, cfg: Config)
    requires t == Grown(root, e, blocked, cfg) && n <= e <= |t.order|
    ensures Distinct(t.order[..n]) && NearestFirst(t.order[..n], root, blocked, cfg)
    ensures InOrderFound(t.order[..n], root, blocked, cfg)
    ensures forall u | u in t.order[..n] :: exists d :: Distance(u, d, root, blocked, cfg)
    ensures n == |t.order| ==> ReachedAll(t.order[..n], root, blocked, cfg)
  {
    GrownFrontier(root, e, blocked, cfg);
    GrownIsFound(root, e, blocked, cfg);
    PrefixInOrderFound(t.order, n, root, blocked, cfg);
    FrontierConcludes(t.order, e, t.level, n, root, blocked, cfg);
  }

  lemma PrefixDistinct(s: seq<string>, n: nat)
    requires Distinct(s) && n <= |s|
    ensures Distinct(s[..n])
  {
  }

  lemma FrontierConcludes(order: seq<string>, e: nat, level: map<string, nat>, n: nat, root: string,
                    blocked: set<string>, cfg: Config)
    requires Frontier(order, e, level, root, blocked, cfg) && n <= e
    ensures Distinct(order[..n]) && NearestFirst(order[..n], root, blocked, cfg)
    ensures forall u | u in order[..n] :: exists d :: Distance(u, d, root, blocked, cfg)
    ensures n == |order| ==> ReachedAll(order[..n], root, blocked, cfg)
  {
    OrderIsNearestFirst(order, e, level, n, root, blocked, cfg);
    forall u | u in order[..n]
      ensures exists d :: Distance(u, d, root, blocked, cfg)
    {
      LevelIsDistance(order, e, level, u, root, blocked, cfg);
    }
    if n == |order| {
      EmptyQueueReachedAll(order, level, root, blocked, cfg);
      assert order[..n] == order;
    }
  }

  /** Users are examined in nondecreasing distance from the root. */
  lemma DistancesNeverFall(root: string, claimed: set<string>, vetted: seq<string>, log: seq<string>, cfg: Config,
                           i: nat, j: nat, a: nat, b: nat)
    requires Snowballed(root, claimed, vetted, log, cfg) && i < j < |log|
    requires Distance(log[i], a, root, claimed, cfg) && Distance(log[j], b, root, claimed, cfg)
    ensures a <= b
  {
    var q :| WalkTo(q, log[j], root, claimed, cfg) && |q| == b + 1;
    var p :| WalkTo(p, log[i], root, claimed, cfg) && |p| == a + 1;
    assert log[j] !in log[..i];
  }

  // ── all roots ─────────────────────────────────────────────────────────────

  function Concat(shares: seq<seq<string>>): seq<string> {
    if shares == [] then [] else Concat(shares[..|shares| - 1]) + shares[|shares| - 1]
  }

  /** Who is already claimed when the next root starts: every seed and every earlier share. */
  function Claimed(seeds: seq<string>, shares: seq<seq<string>>): set<string> {
    Elements(seeds) + Elements(Concat(shares))
  }

  ghost predicate Campaign(seeds: seq<string>, shares: seq<seq<string>>, logs: seq<seq<string>>, cfg: Config) {
    && |logs| == |shares| <= |seeds|
    && forall i | 0 <= i < |shares| :: Snowballed(seeds[i], Claimed(seeds, shares[..i]), shares[i], logs[i], cfg)
  }

  /** No root starts once the target is met. */
  ghost predicate StopsAtTarget(shares: seq<seq<string>>, cfg: Config) {
    forall i | 0 < i < |shares| :: |Concat(shares[..i])| < cfg.target
  }

  lemma OneMoreRoot(seeds: seq<string>, shares: seq<seq<string>>, logs: seq<seq<string>>, share: seq<string>,
                    log: seq<string>, cfg: Config)
    requires Campaign(seeds, shares, logs, cfg) && StopsAtTarget(shares, cfg) && |shares| < |seeds|
    requires Snowballed(seeds[|shares|], Claimed(seeds, shares), share, log, cfg)
    requires shares == [] || |Concat(shares)| < cfg.target
    ensures Campaign(seeds, shares + [share], logs + [log], cfg) && StopsAtTarget(shares + [share], cfg)
    ensures Concat(shares + [share]) == Concat(shares) + share
  {
    var more, all, n := shares + [share], logs + [log], |shares|;
    assert more[..n] == shares;
    forall i | 0 <= i < |more|
      ensures Snowballed(seeds[i], Claimed(seeds, more[..i]), more[i], all[i], cfg)
      ensures i > 0 ==> |Concat(more[..i])| < cfg.target
    {
      if i < n {
        assert more[..i] == shares[..i] && more[i] == shares[i] && all[i] == logs[i];
      }
    }
  }

  /** The next root's share, and the campaign with it. */
  method RunRoot(root: string, claimed: set<string>, ghost seeds: seq<string>, ghost shares: seq<seq<string>>,
                 ghost logs: seq<seq<string>>, cfg: Config)
      returns (share: seq<string>, claimed': set<string>, ghost shares': seq<seq<string>>,
               ghost logs': seq<seq<string>>)
    requires cfg.concurrency > 0 && |shares| < |seeds| && root == seeds[|shares|]
    requires Campaign(seeds, shares, logs, cfg) && StopsAtTarget(shares, cfg) && claimed == Claimed(seeds, shares)
    requires shares == [] || |Concat(shares)| < cfg.target
    ensures Campaign(seeds, shares', logs', cfg) && StopsAtTarget(shares', cfg) && claimed' == Claimed(seeds, shares')
    ensures |shares'| == |shares| + 1 && Concat(shares') == Concat(shares) + share
  {
    ghost var log: seq<string>;
    share, claimed', log := SnowballRoot(root, claimed, cfg);
    OneMoreRoot(seeds, shares, logs, share, log, cfg);
    shares', logs' := shares + [share], logs + [log];
  }

  method MultiRoot(seeds: seq<string>, cfg: Config)
      returns (allVetted: seq<string>, ghost shares: seq<seq<string>>, ghost logs: seq<seq<string>>)
    requires cfg.concurrency > 0
    ensures Campaign(seeds, shares, logs, cfg) && allVetted == Concat(shares)
    ensures StopsAtTarget(shares, cfg) && (|shares| == |seeds| || |allVetted| >= cfg.target)
    ensures Distinct(allVetted) && forall u | u in allVetted :: cfg.ok(u) && u !in seeds
    ensures allVetted == [] || |allVetted| < cfg.target + cfg.maxPerRoot
  {
    allVetted, shares, logs := [], [], [];
    var claimed := Elements(seeds);
    for i := 0 to |seeds|
      invariant |shares| == i && Campaign(seeds, shares, logs, cfg) && StopsAtTarget(shares, cfg)
      invariant allVetted == Concat(shares) && claimed == Claimed(seeds, shares)
      invariant shares == [] || |allVetted| < cfg.target
    {
      var rootVetted: seq<string>;
      rootVetted, claimed, shares, logs := RunRoot(seeds[i], claimed, seeds, shares, logs, cfg);
      allVetted := allVetted + rootVetted;
      if |allVetted| >= cfg.target {
        break;
      }
    }
    CohortIsSound(seeds, shares, logs, cfg);
    CohortIsBounded(seeds, shares, logs, cfg);
  }

  /** What a root adds is suitable and was unclaimed. */
  lemma ShareIsNew(root: string, claimed: set<string>, share: seq<string>, log: seq<string>, cfg: Config)
    requires Snowballed(root, claimed, share, log, cfg)
    ensures Distinct(share) && forall u | u in share :: cfg.ok(u) && u !in claimed
  {
    KeptIff(log, claimed, cfg);
  }

  lemma DistinctConcat(a: seq<string>, b: seq<string>)
    requires Distinct(a) && Distinct(b) && forall u | u in b :: u !in a
    ensures Distinct(a + b)
  {
    forall i, j | 0 <= i < j < |a + b|
      ensures (a + b)[i] != (a + b)[j]
    {
      if i < |a| <= j {
        assert (a + b)[i] == a[i] && (a + b)[j] == b[j - |a|];
        assert a[i] in a && b[j - |a|] in b;
      }
    }
  }

  lemma EarlierRoots(seeds: seq<string>, shares: seq<seq<string>>, logs: seq<seq<string>>, n: nat, cfg: Config)
    requires Campaign(seeds, shares, logs, cfg) && n <= |shares|
    ensures Campaign(seeds, shares[..n], logs[..n], cfg)
  {
    assert forall i | 0 <= i < n :: shares[..n][..i] == shares[..i];
  }

  /** Each cohort member is suitable, is no seed and is listed once. */
  lemma {:induction false} CohortIsSound(seeds: seq<string>, shares: seq<seq<string>>, logs: seq<seq<string>>,
                                         cfg: Config)
    requires Campaign(seeds, shares, logs, cfg)
    ensures Distinct(Concat(shares))
    ensures forall u | u in Concat(shares) :: cfg.ok(u) && u !in seeds
  {
    if shares != [] {
      var n := |shares| - 1;
      EarlierRoots(seeds, shares, logs, n, cfg);
      CohortIsSound(seeds, shares[..n], logs[..n], cfg);
      ShareIsNew(seeds[n], Claimed(seeds, shares[..n]), shares[n], logs[n], cfg);
      DistinctConcat(Concat(shares[..n]), shares[n]);
    }
  }

  /** A user is attributed to one root only. */
  lemma SharesAreDisjoint(seeds: seq<string>, shares: seq<seq<string>>, logs: seq<seq<string>>, cfg: Config,
                          i: nat, j: nat, u: string)
    requires Campaign(seeds, shares, logs, cfg) && i < j < |shares| && u in shares[i]
    ensures u !in shares[j]
  {
    ShareIsIncluded(shares[..j], i, u);
    ShareIsNew(seeds[j], Claimed(seeds, shares[..j]), shares[j], logs[j], cfg);
  }

  lemma {:induction false} ShareIsIncluded(shares: seq<seq<string>>, i: nat, u: string)
    requires i < |shares| && u in shares[i]
    ensures u in Concat(shares)
  {
    var n := |shares| - 1;
    if i < n {
      ShareIsIncluded(shares[..n], i, u);
    }
  }

  lemma {:induction false} NobodyWithoutQuota(seeds: seq<string>, shares: seq<seq<string>>, logs: seq<seq<string>>,
                                              cfg: Config)
    requires Campaign(seeds, shares, logs, cfg) && Concat(shares) != []
    ensures 0 < Quota(cfg)
  {
    var n := |shares| - 1;
    EarlierRoots(seeds, shares, logs, n, cfg);
    assert Snowballed(seeds[n], Claimed(seeds, shares[..n]), shares[n], logs[n], cfg);
    if shares[n] == [] {
      NobodyWithoutQuota(seeds, shares[..n], logs[..n], cfg);
    }
  }

  /** The whole cohort stays under the target plus one root's share, each share within its cap. */
  lemma CohortIsBounded(seeds: seq<string>, shares: seq<seq<string>>, logs: seq<seq<string>>, cfg: Config)
    requires Campaign(seeds, shares, logs, cfg) && StopsAtTarget(shares, cfg)
    ensures Concat(shares) == [] || |Concat(shares)| < cfg.target + cfg.maxPerRoot
    ensures forall i | 0 <= i < |shares| :: shares[i] == [] || |shares[i]| <= cfg.maxPerRoot
  {
    if Concat(shares) != [] {
      NobodyWithoutQuota(seeds, shares, logs, cfg);
      ShareFits(seeds, shares, logs, |shares| - 1, cfg);
    }
    forall i | 0 <= i < |shares|
      ensures shares[i] == [] || |shares[i]| <= cfg.maxPerRoot
    {
      ShareFits(seeds, shares, logs, i, cfg);
    }
  }

  lemma ShareFits(seeds: seq<string>, shares: seq<seq<string>>, logs: seq<seq<string>>, i: nat, cfg: Config)
    requires Campaign(seeds, shares, logs, cfg) && i < |shares|
    ensures shares[i] == [] || |shares[i]| <= cfg.maxPerRoot
  {
    assert Snowballed(seeds[i], Claimed(seeds, shares[..i]), shares[i], logs[i], cfg);
  }
}
