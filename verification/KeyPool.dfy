/** The pool of API keys: round-robin picks that skip benched keys, and the request loop
    that retries on them with growing pauses.

    What the network answers, when each attempt starts and ends and the random part of
    each pause are inputs; the cursor counts picks without wrapping. Times are seconds,
    pauses milliseconds. */
module KeyPool {
  import opened Ordering

  const KEY_BENCH_SECS: nat := 20
  const MAX_REQUEST_ATTEMPTS: nat := 4
  const RATE_LIMITED: nat := 29

  datatype PooledKey = PooledKey(key: string, benchedUntil: Option<int>)

  /** What one attempt got back; `code` is the error number of an error-shaped body. */
  datatype Response =
    | NetworkError
    | Body(clientError: bool, code: Option<nat>, text: string)
    | BodyLost(clientError: bool)
    | ServerError

  datatype Reply = Success(text: string) | Permanent | Transient

  predicate RetryableCode(code: nat) {
    code == 8 || code == 11 || code == 16 || code == RATE_LIMITED
  }

  predicate Retryable(r: Response) {
    match r
    case NetworkError => true
    case ServerError => true
    case BodyLost(clientError) => !clientError
    case Body(_, code, _) => code.Some? && RetryableCode(code.value)
  }

  predicate TripsLimit(r: Response) {
    r.Body? && r.code == Some(RATE_LIMITED)
  }

  /** The answer a response gives once it is not retried. */
  function Settle(r: Response): Reply {
    match r
    case Body(clientError, code, text) => if clientError && code.None? then Permanent else Success(text)
    case _ => Permanent
  }

  predicate Benched(k: PooledKey, now: int) {
    k.benchedUntil.Some? && k.benchedUntil.value > now
  }

  // ── building the pool ─────────────────────────────────────────────────────

  /** Trims, drops blanks and comments, and keeps the first of equal keys. */
  function Admit(pool: seq<string>, raw: seq<string>, comments: bool, trim: string -> string): seq<string> {
    if raw == [] then pool
    else
      var n := |raw| - 1;
      var sofar := Admit(pool, raw[..n], comments, trim);
      if Refused(sofar, trim(raw[n]), comments) then sofar else sofar + [trim(raw[n])]
  }

  predicate Refused(pool: seq<string>, key: string, comments: bool) {
    key == "" || (comments && key[0] == '#') || key in pool
  }

  /** No blank key and no key twice. */
  ghost predicate UsableKeys(s: seq<string>) {
    "" !in s && Distinct(s)
  }

  lemma {:induction false} AdmitKeepsDistinct(pool: seq<string>, raw: seq<string>, comments: bool,
                                              trim: string -> string)
    requires UsableKeys(pool)
    ensures UsableKeys(Admit(pool, raw, comments, trim))
    ensures pool <= Admit(pool, raw, comments, trim)
  {
    if raw != [] {
      AdmitKeepsDistinct(pool, raw[..|raw| - 1], comments, trim);
    }
  }

  /** Line `i` names a usable key: not blank, no comment where those are allowed, not known
      before and not on an earlier line. */
  ghost predicate NamesNewKey(i: nat, raw: seq<string>, known: seq<string>, comments: bool, trim: string -> string)
    requires i < |raw|
  {
    var key := trim(raw[i]);
    && key != "" && (comments ==> key[0] != '#') && key !in known
    && forall j | 0 <= j < i :: trim(raw[j]) != key
  }

  /** `keys` are the usable keys that the lines name, in the order they first appear. */
  ghost predicate NewKeys(keys: seq<string>, raw: seq<string>, known: seq<string>, comments: bool,
                          trim: string -> string)
  {
    exists idx :: NewKeysAt(idx, keys, raw, known, comments, trim)
  }

  ghost predicate NewKeysAt(idx: seq<nat>, keys: seq<string>, raw: seq<string>, known: seq<string>, comments: bool,
                            trim: string -> string)
  {
    && |idx| == |keys| && (forall k | 0 <= k < |idx| :: idx[k] < |raw| && keys[k] == trim(raw[idx[k]]))
    && (forall k, l | 0 <= k < l < |idx| :: idx[k] < idx[l])
    && forall i: nat | i < |raw| :: i in idx <==> NamesNewKey(i, raw, known, comments, trim)
  }

  lemma OneMoreLine(idx: seq<nat>, keys: seq<string>, raw: seq<string>, line: string, known: seq<string>,
                    comments: bool, trim: string -> string)
    requires NewKeysAt(idx, keys, raw, known, comments, trim)
    ensures if Refused(known + keys, trim(line), comments)
            then NewKeysAt(idx, keys, raw + [line], known, comments, trim)
            else NewKeysAt(idx + [|raw|], keys + [trim(line)], raw + [line], known, comments, trim)
  {
    var more := raw + [line];
    forall i: nat | i < |raw|
      ensures NamesNewKey(i, more, known, comments, trim) <==> NamesNewKey(i, raw, known, comments, trim)
    {
      assert forall j | 0 <= j <= i :: more[j] == raw[j];
    }
    LastLineIsNew(idx, keys, raw, line, known, comments, trim);
  }

  /** The last line names a new key exactly when that is admitted. */
  lemma LastLineIsNew(idx: seq<nat>, keys: seq<string>, raw: seq<string>, line: string, known: seq<string>,
                      comments: bool, trim: string -> string)
    requires NewKeysAt(idx, keys, raw, known, comments, trim)
    ensures NamesNewKey(|raw|, raw + [line], known, comments, trim) <==> !Refused(known + keys, trim(line), comments)
  {
    var key := trim(line);
    if key in keys {
      var k :| 0 <= k < |keys| && keys[k] == key;
      assert (raw + [line])[idx[k]] == raw[idx[k]];
    }
    if key != "" && (comments ==> key[0] != '#') && key !in known {
      if j :| 0 <= j < |raw| && trim(raw[j]) == key {
        FirstLineIsListed(j, idx, keys, raw, known, comments, trim);
      }
    }
  }

  lemma {:induction false} FirstLineIsListed(j: nat, idx: seq<nat>, keys: seq<string>, raw: seq<string>,
                                             known: seq<string>, comments: bool, trim: string -> string)
    requires NewKeysAt(idx, keys, raw, known, comments, trim) && j < |raw|
    requires var key := trim(raw[j]); key != "" && (comments ==> key[0] != '#') && key !in known
    ensures trim(raw[j]) in keys
  {
    if i :| 0 <= i < j && trim(raw[i]) == trim(raw[j]) {
      FirstLineIsListed(i, idx, keys, raw, known, comments, trim);
    } else {
      assert NamesNewKey(j, raw, known, comments, trim);
      var k :| 0 <= k < |idx| && idx[k] == j;
    }
  }

  /** What is admitted are the new keys, behind the pool. */
  ghost predicate AdmitsAt(idx: seq<nat>, keys: seq<string>, pool: seq<string>, raw: seq<string>, comments: bool,
                           trim: string -> string)
  {
    Admit(pool, raw, comments, trim) == pool + keys && NewKeysAt(idx, keys, raw, pool, comments, trim)
  }

  lemma AdmitOneMore(idx: seq<nat>, keys: seq<string>, pool: seq<string>, raw: seq<string>, line: string,
                     comments: bool, trim: string -> string) returns (idx': seq<nat>, keys': seq<string>)
    requires AdmitsAt(idx, keys, pool, raw, comments, trim)
    ensures AdmitsAt(idx', keys', pool, raw + [line], comments, trim)
  {
    assert (raw + [line])[..|raw|] == raw;
    OneMoreLine(idx, keys, raw, line, pool, comments, trim);
    if Refused(pool + keys, trim(line), comments) {
      idx', keys' := idx, keys;
    } else {
      idx', keys' := idx + [|raw|], keys + [trim(line)];
      assert pool + keys + [trim(line)] == pool + (keys + [trim(line)]);
    }
  }

  lemma {:induction false} AdmitAddsNewKeys(pool: seq<string>, raw: seq<string>, comments: bool, trim: string -> string)
    returns (idx: seq<nat>, keys: seq<string>)
    ensures AdmitsAt(idx, keys, pool, raw, comments, trim)
  {
    if raw == [] {
      idx, keys := [], [];
      assert pool + [] == pool;
    } else {
      var n := |raw| - 1;
      assert raw == raw[..n] + [raw[n]];
      idx, keys := AdmitAddsNewKeys(pool, raw[..n], comments, trim);
      idx, keys := AdmitOneMore(idx, keys, pool, raw[..n], raw[n], comments, trim);
    }
  }

  /** What is admitted from the owner's lines, and then from the stored ones. */
  lemma PoolIs(owned: seq<string>, stored: seq<string>, first: seq<string>, extra: seq<string>, trim: string -> string)
    requires first == Admit([], owned, false, trim) && first + extra == Admit(first, stored, true, trim)
    ensures NewKeys(first, owned, [], false, trim) && NewKeys(extra, stored, first, true, trim)
  {
    var _, own := AdmitAddsNewKeys([], owned, false, trim);
    assert [] + own == own;
    var _, more := AdmitAddsNewKeys(first, stored, true, trim);
    assert (first + extra)[|first|..] == extra && (first + more)[|first|..] == more;
  }

  function Names(keys: seq<PooledKey>): (names: seq<string>)
    ensures |names| == |keys| && forall i | 0 <= i < |keys| :: names[i] == keys[i].key
  {
    seq(|keys|, i requires 0 <= i < |keys| => keys[i].key)
  }

  // ── picking ───────────────────────────────────────────────────────────────

  /** The key the `j`-th probe from `cursor` looks at. */
  function At(cursor: nat, j: nat, n: nat): (i: nat)
    requires n > 0
    ensures i < n
  {
    (cursor + j) % n
  }

  /** How many probes from `cursor` find only benched keys, up to one full round. */
  function SkippedFrom(keys: seq<PooledKey>, cursor: nat, probed: nat, now: int): (skipped: nat)
    requires keys != [] && probed <= |keys|
    ensures probed <= skipped <= |keys|
    ensures forall j: nat | probed <= j < skipped :: Benched(keys[At(cursor, j, |keys|)], now)
    ensures skipped < |keys| ==> !Benched(keys[At(cursor, skipped, |keys|)], now)
    decreases |keys| - probed
  {
    if probed == |keys| || !Benched(keys[At(cursor, probed, |keys|)], now) then probed
    else SkippedFrom(keys, cursor, probed + 1, now)
  }

  function Skipped(keys: seq<PooledKey>, cursor: nat, now: int): nat
    requires keys != []
  {
    SkippedFrom(keys, cursor, 0, now)
  }

  lemma AtLeastOnce(k: int, n: nat)
    requires k >= 1
    ensures k * n >= n
  {
    assert k * n == (k - 1) * n + n && (k - 1) * n >= 0;
  }

  lemma RemainderUnique(q1: int, r1: nat, q2: int, r2: nat, n: nat)
    requires r1 < n && r2 < n && q1 * n + r1 == q2 * n + r2
    ensures r1 == r2
  {
    assert (q1 - q2) * n == r2 - r1 && (q2 - q1) * n == r1 - r2;
    if q1 > q2 { AtLeastOnce(q1 - q2, n); }
    if q2 > q1 { AtLeastOnce(q2 - q1, n); }
  }

  /** Every key is met within a round. */
  lemma ProbeReaches(cursor: nat, n: nat, i: nat) returns (j: nat)
    requires i < n
    ensures j < n && At(cursor, j, n) == i
  {
    var q, r := cursor / n, cursor % n;
    j := if i >= r then i - r else i + n - r;
    var x := cursor + j;
    var q' := if i >= r then q else q + 1;
    assert q' * n == q * n + (if i >= r then 0 else n);
    assert x == q' * n + i && x == (x / n) * n + x % n;
    RemainderUnique(x / n, x % n, q', i, n);
  }

  /** A round of probes reaches every key, so one is found unless all are benched. */
  lemma RoundFindsUnbenched(keys: seq<PooledKey>, cursor: nat, now: int)
    requires keys != []
    ensures Skipped(keys, cursor, now) < |keys| <==> exists k | k in keys :: !Benched(k, now)
  {
    var s := Skipped(keys, cursor, now);
    if s < |keys| {
      assert keys[At(cursor, s, |keys|)] in keys;
    }
    if k :| k in keys && !Benched(k, now) {
      var i :| 0 <= i < |keys| && keys[i] == k;
      var j := ProbeReaches(cursor, |keys|, i);
      assert !Benched(keys[At(cursor, j, |keys|)], now);
    }
  }

  /** The keys returned by successive picks at the given times, none benched in between. */
  function Picked(keys: seq<PooledKey>, cursor: nat, times: seq<int>): (picked: seq<PooledKey>)
    requires keys != []
    ensures |picked| == |times|
    decreases |times|
  {
    if times == [] then []
    else
      var skipped := Skipped(keys, cursor, times[0]);
      [keys[At(cursor, skipped, |keys|)]] + Picked(keys, cursor + skipped + 1, times[1..])
  }

  ghost predicate NobodyBenched(keys: seq<PooledKey>, times: seq<int>) {
    forall t, k | t in times && k in keys :: !Benched(k, t)
  }

  lemma {:induction false} PickedAt(keys: seq<PooledKey>, cursor: nat, times: seq<int>, j: nat)
    requires keys != [] && NobodyBenched(keys, times) && j < |times|
    ensures Picked(keys, cursor, times)[j] == keys[At(cursor, j, |keys|)]
    decreases |times|
  {
    assert times[0] in times;
    assert keys[At(cursor, 0, |keys|)] in keys;
    assert Skipped(keys, cursor, times[0]) == 0;
    if j > 0 {
      assert forall t | t in times[1..] :: t in times;
      PickedAt(keys, cursor + 1, times[1..], j - 1);
    }
  }

  lemma AtWraps(cursor: nat, j: nat, n: nat)
    requires 0 < n && j < n
    ensures var m := cursor % n; At(cursor, j, n) == if m + j < n then m + j else m + j - n
  {
    var q, m, x := cursor / n, cursor % n, cursor + j;
    assert cursor == q * n + m && x == (x / n) * n + x % n;
    if m + j < n {
      RemainderUnique(x / n, x % n, q, m + j, n);
    } else {
      assert (q + 1) * n == q * n + n;
      RemainderUnique(x / n, x % n, q + 1, m + j - n, n);
    }
  }

  /** With nobody benched, as many picks in a row as there are keys return the pool rotated
      to the cursor: every key exactly once. */
  lemma RoundVisitsEachOnce(keys: seq<PooledKey>, cursor: nat, times: seq<int>)
    requires keys != [] && |times| == |keys| && NobodyBenched(keys, times)
    ensures var m := cursor % |keys|; Picked(keys, cursor, times) == keys[m..] + keys[..m]
    ensures multiset(Picked(keys, cursor, times)) == multiset(keys)
  {
    var m := cursor % |keys|;
    forall j | 0 <= j < |keys|
      ensures Picked(keys, cursor, times)[j] == (keys[m..] + keys[..m])[j]
    {
      PickedAt(keys, cursor, times, j);
      AtWraps(cursor, j, |keys|);
    }
    assert keys == keys[..m] + keys[m..];
  }

  // ── retrying ──────────────────────────────────────────────────────────────

  /** Pause after an attempt: one, two, then four seconds, plus the random part. */
  function Pause(attempt: nat, jitter: nat): nat {
    1000 * Power2(attempt) + jitter
  }

  function Power2(n: nat): nat {
    if n == 0 then 1 else 2 * Power2(n - 1)
  }

  /** The first `n` pauses together. */
  function Pauses(jitters: seq<nat>, n: nat): nat
    requires n <= |jitters|
  {
    if n == 0 then 0 else Pauses(jitters, n - 1) + Pause(n - 1, jitters[n - 1])
  }

  /** The first attempt from `i` on whose answer is final, or the number of attempts. */
  function FinalFrom(responses: seq<Response>, i: nat): (a: nat)
    requires i <= |responses|
    ensures i <= a <= |responses|
    ensures forall j | i <= j < a :: Retryable(responses[j])
    ensures a < |responses| ==> !Retryable(responses[a])
    decreases |responses| - i
  {
    if i == |responses| || !Retryable(responses[i]) then i else FinalFrom(responses, i + 1)
  }

  /** The first attempt whose answer is final, or the number of attempts. */
  function FirstFinal(responses: seq<Response>): nat {
    FinalFrom(responses, 0)
  }

  /** Not worth another attempt. */
  ghost predicate IsFinal(r: Response) {
    match r
    case NetworkError => false
    case ServerError => false
    case BodyLost(clientError) => clientError
    case Body(_, code, _) => code.None? || code.value !in {8, 11, 16, 29}
  }

  ghost predicate FinalAt(a: nat, responses: seq<Response>) {
    a < |responses| && IsFinal(responses[a]) && forall b | 0 <= b < a :: !IsFinal(responses[b])
  }

  /** The reply to these responses: the text of the first final one, if that came without a
      4xx or carries an error code, a permanent failure for any other final one, and a
      transient failure if none is final. */
  ghost predicate Answers(reply: Reply, responses: seq<Response>) {
    match reply
    case Success(text) =>
      exists a: nat :: FinalAt(a, responses) && responses[a].Body? && responses[a].text == text
        && (!responses[a].clientError || responses[a].code.Some?)
    case Permanent =>
      exists a: nat :: FinalAt(a, responses) && responses[a].clientError
        && (responses[a].BodyLost? || (responses[a].Body? && responses[a].code.None?))
    case Transient => forall r | r in responses :: !IsFinal(r)
  }

  /** No responses admit two replies. */
  lemma AnswerIsUnique(x: Reply, y: Reply, responses: seq<Response>)
    requires Answers(x, responses) && Answers(y, responses)
    ensures x == y
  {
    forall a: nat, b: nat | FinalAt(a, responses) && FinalAt(b, responses) ensures a == b {}
  }

  /** `n` attempts were made: four, or up to the first final response. */
  ghost predicate Attempted(n: nat, responses: seq<Response>) {
    && 0 < n <= |responses| && (forall b | 0 <= b < n - 1 :: !IsFinal(responses[b]))
    && (n == 4 || IsFinal(responses[n - 1]))
  }

  /** The pauses between `n` attempts: one second, two, four, each with its random part. */
  ghost function PausedFor(n: nat, jitters: seq<nat>): nat
    requires |jitters| == 3
  {
    match n
    case 2 => 1000 + jitters[0]
    case 3 => 3000 + jitters[0] + jitters[1]
    case 4 => 7000 + jitters[0] + jitters[1] + jitters[2]
    case _ => 0
  }

  lemma FinalIff(r: Response)
    ensures IsFinal(r) <==> !Retryable(r)
  {}

  lemma FinalAttempt(responses: seq<Response>, jitters: seq<nat>, a: nat)
    requires |responses| == 4 && |jitters| == 3
    requires a < |responses| && FirstFinal(responses) == a && !Retryable(responses[a])
    ensures Answers(Settle(responses[a]), responses) && !Settle(responses[a]).Transient?
    ensures Attempted(a + 1, responses) && Pauses(jitters, a) == PausedFor(a + 1, jitters)
  {
    PausesAre(jitters, a);
    forall b | 0 <= b <= a ensures IsFinal(responses[b]) <==> b == a {
      FinalIff(responses[b]);
    }
    assert FinalAt(a, responses);
  }

  lemma NoFinalAttempt(responses: seq<Response>, jitters: seq<nat>)
    requires |responses| == 4 && FirstFinal(responses) == 4
    requires |jitters| == 3 && forall j | j in jitters :: j < 500
    ensures Answers(Transient, responses) && Attempted(4, responses)
    ensures 7000 <= Pauses(jitters, 3) == PausedFor(4, jitters) < 8500
  {
    PausesAre(jitters, 3);
    BackoffBounds(jitters);
    forall b | 0 <= b < 4 ensures !IsFinal(responses[b]) {
      FinalIff(responses[b]);
    }
  }

  lemma {:induction false} PausesAre(jitters: seq<nat>, n: nat)
    requires |jitters| == 3 && n <= 3
    ensures Pauses(jitters, n) == PausedFor(n + 1, jitters)
  {
    assert Power2(0) == 1 && Power2(1) == 2 && Power2(2) == 4;
    if n > 0 {
      PausesAre(jitters, n - 1);
    }
  }

  class Client {
    var keys: seq<PooledKey>
    var cursor: nat
    var contributed: seq<string>
    const trim: string -> string

    ghost predicate Valid()
      reads this
    {
      UsableKeys(Names(keys))
    }

    /** Owner keys first, then the stored contributions not already among them. */
    constructor WithKeys(owned: seq<string>, stored: seq<string>, trim: string -> string)
      ensures Valid() && this.trim == trim && cursor == 0
      ensures Names(keys) == Admit(Admit([], owned, false, trim), stored, true, trim)
      ensures exists first :: Names(keys) == first + contributed
                && NewKeys(first, owned, [], false, trim) && NewKeys(contributed, stored, first, true, trim)
      ensures forall k | k in keys :: k.benchedUntil.None?
    {
      var names: seq<string> := [];
      for i := 0 to |owned|
        invariant names == Admit([], owned[..i], false, trim)
      {
        assert owned[..i + 1][..i] == owned[..i];
        if !Refused(names, trim(owned[i]), false) { names := names + [trim(owned[i])]; }
      }
      assert owned[..|owned|] == owned;
      ghost var first := names;
      var extra: seq<string> := [];
      for i := 0 to |stored|
        invariant names == Admit(first, stored[..i], true, trim) && first + extra == names
      {
        assert stored[..i + 1][..i] == stored[..i];
        if !Refused(names, trim(stored[i]), true) {
          names := names + [trim(stored[i])];
          extra := extra + [trim(stored[i])];
        }
      }
      assert stored[..|stored|] == stored;
      PoolIs(owned, stored, first, extra, trim);
      AdmitKeepsDistinct([], owned, false, trim);
      AdmitKeepsDistinct(first, stored, true, trim);
      this.keys := seq(|names|, i requires 0 <= i < |names| => PooledKey(names[i], None));
      this.cursor, this.contributed, this.trim := 0, extra, trim;
      new;
      assert Names(keys) == names;
    }

    /** A new key joins the end of the pool; a blank or known one changes nothing. */
    method AddKey(raw: string) returns (size: Option<nat>)
      requires Valid()
      modifies this`keys, this`contributed
      ensures Valid()
      ensures size == if trim(raw) == "" || trim(raw) in Names(old(keys)) then None else Some(|old(keys)| + 1)
      ensures size.None? ==> keys == old(keys) && contributed == old(contributed)
      ensures size.Some? ==> keys == old(keys) + [PooledKey(trim(raw), None)]
      ensures size.Some? ==> contributed == old(contributed) + [trim(raw)]
    {
      var key := trim(raw);
      if key == "" || exists k | k in keys :: k.key == key {
        assert key == "" || key in Names(keys);
        return None;
      }
      assert key !in Names(keys);
      keys := keys + [PooledKey(key, None)];
      contributed := contributed + [key];
      size := Some(|keys|);
    }

    /** The next key that is not benched, or, when all are, the next one anyway. */
    method PickKey(now: int) returns (picked: Option<nat>)
      modifies this`cursor
      ensures picked.None? <==> keys == []
      ensures keys == [] ==> cursor == old(cursor)
      ensures keys != [] ==> picked == Some(At(old(cursor), Skipped(keys, old(cursor), now), |keys|))
      ensures keys != [] ==> cursor == old(cursor) + Skipped(keys, old(cursor), now) + 1
      ensures picked.Some? && Benched(keys[picked.value], now) ==> forall k | k in keys :: Benched(k, now)
    {
      var n := |keys|;
      if n == 0 { return None; }
      RoundFindsUnbenched(keys, cursor, now);
      for i := 0 to n
        invariant cursor == old(cursor) + i
        invariant Skipped(keys, old(cursor), now) == SkippedFrom(keys, old(cursor), i, now)
      {
        var idx := cursor % n;
        assert idx == At(old(cursor), i, n);
        cursor := cursor + 1;
        if !Benched(keys[idx], now) {
          return Some(idx);
        }
      }
      picked := Some(cursor % n);
      cursor := cursor + 1;
    }

    method Bench(i: nat, now: int)
      requires i < |keys|
      modifies this`keys
      ensures keys == old(keys)[i := old(keys)[i].(benchedUntil := Some(now + 20))]
      ensures forall later :: Benched(keys[i], later) <==> later < now + 20
    {
      keys := keys[i := keys[i].(benchedUntil := Some(now + KEY_BENCH_SECS))];
    }

    /** One attempt: pick a key, and bench it if the answer trips the rate limit. */
    method TryOnce(response: Response, start: int, end: int, ghost used: seq<nat>) returns (picked: Option<nat>)
      modifies this`keys, this`cursor
      ensures picked.None? <==> old(keys) == []
      ensures picked.None? ==> keys == old(keys) && cursor == old(cursor)
      ensures picked.Some? ==>
                Rotation(keys, cursor, used + [picked.value])
                == Attempt(Rotation(old(keys), old(cursor), used), response, start, end)
    {
      picked := PickKey(start);
      if picked.Some? && TripsLimit(response) {
        Bench(picked.value, end);
      }
    }

    /** Up to four attempts, each on a freshly picked key. The reply is transient exactly
        when there is no key or all four answers were retryable, and otherwise it settles
        the first answer that was not; the pauses before giving up add to at least 7 and
        less than 8.5 seconds. */
    method GetWithRetry(responses: seq<Response>, starts: seq<int>, ends: seq<int>, jitters: seq<nat>)
      returns (reply: Reply, paused: nat, used: seq<nat>)
      requires |responses| == |starts| == |ends| == MAX_REQUEST_ATTEMPTS && |jitters| == MAX_REQUEST_ATTEMPTS - 1
      requires forall j | j in jitters :: j < 500
      modifies this`keys, this`cursor
      ensures if old(keys) == [] then reply == Transient else Answers(reply, responses)
      ensures paused == PausedFor(|used|, jitters)
      ensures old(keys) != [] && reply.Transient? ==> 7000 <= paused < 8500
      ensures if old(keys) == [] then used == [] else Attempted(|used|, responses)
      ensures old(keys) == [] ==> keys == [] && cursor == old(cursor)
      ensures old(keys) != [] ==>
                Rotation(keys, cursor, used) == Attempts(old(keys), old(cursor), responses, starts, ends, |used|)
    {
      paused, used := 0, [];
      ghost var pool := Rotation(keys, cursor, []);
      for attempt := 0 to MAX_REQUEST_ATTEMPTS
        invariant |used| == attempt && FirstFinal(responses) == FinalFrom(responses, attempt)
        invariant paused == Pauses(jitters, if attempt < MAX_REQUEST_ATTEMPTS then attempt else attempt - 1)
        invariant pool == Rotation(keys, cursor, used)
        invariant if old(keys) == [] then attempt == 0 && keys == [] && cursor == old(cursor)
                  else keys != [] && pool == Attempts(old(keys), old(cursor), responses, starts, ends, attempt)
      {
        var response := responses[attempt];
        var picked := TryOnce(response, starts[attempt], ends[attempt], used);
        if picked.None? {
          return Transient, paused, used;
        }
        used := used + [picked.value];
        pool := Attempt(pool, response, starts[attempt], ends[attempt]);
        if !Retryable(response) {
          FinalAttempt(responses, jitters, attempt);
          return Settle(response), paused, used;
        }
        if attempt + 1 < MAX_REQUEST_ATTEMPTS {
          paused := paused + Pause(attempt, jitters[attempt]);
        }
      }
      NoFinalAttempt(responses, jitters);
      reply := Transient;
    }
  }

  /** The pool after a series of attempts: each that tripped the limit benches its key. */
  function BenchedAfter(keys: seq<PooledKey>, used: seq<nat>, responses: seq<Response>, ends: seq<int>):
    (r: seq<PooledKey>)
    requires |used| <= |responses| == |ends| && forall a | 0 <= a < |used| :: used[a] < |keys|
    ensures |r| == |keys|
  {
    if used == [] then keys
    else
      var n := |used| - 1;
      var before := BenchedAfter(keys, used[..n], responses, ends);
      if TripsLimit(responses[n])
      then before[used[n] := before[used[n]].(benchedUntil := Some(ends[n] + KEY_BENCH_SECS))]
      else before
  }

  /** The pool, the cursor, and the keys used so far. */
  datatype Rotation = Rotation(keys: seq<PooledKey>, cursor: nat, used: seq<nat>)

  /** One attempt: the next key past the benched ones, benched in turn if it trips the limit. */
  function Attempt(r: Rotation, response: Response, start: int, end: int): (next: Rotation)
    requires r.keys != []
    ensures |next.keys| == |r.keys| && |next.used| == |r.used| + 1
  {
    var skipped := Skipped(r.keys, r.cursor, start);
    var i := At(r.cursor, skipped, |r.keys|);
    Rotation(if TripsLimit(response) then r.keys[i := r.keys[i].(benchedUntil := Some(end + KEY_BENCH_SECS))]
             else r.keys,
             r.cursor + skipped + 1,
             r.used + [i])
  }

  function Attempts(keys: seq<PooledKey>, cursor: nat, responses: seq<Response>, starts: seq<int>, ends: seq<int>,
                    n: nat):
    (r: Rotation)
    requires keys != [] && n <= |responses| == |starts| == |ends|
    ensures |r.keys| == |keys| && |r.used| == n
  {
    if n == 0 then Rotation(keys, cursor, [])
    else Attempt(Attempts(keys, cursor, responses, starts, ends, n - 1), responses[n - 1], starts[n - 1], ends[n - 1])
  }

  /** What the attempts do to the pool, told from the keys they used. */
  lemma {:induction false} AttemptsBench(keys: seq<PooledKey>, cursor: nat, responses: seq<Response>, starts: seq<int>,
                                         ends: seq<int>, n: nat)
    requires keys != [] && n <= |responses| == |starts| == |ends|
    ensures var r := Attempts(keys, cursor, responses, starts, ends, n);
            && (forall a | 0 <= a < n :: r.used[a] < |keys|)
            && r.keys == BenchedAfter(keys, r.used, responses, ends)
  {
    if n > 0 {
      AttemptsBench(keys, cursor, responses, starts, ends, n - 1);
      var before := Attempts(keys, cursor, responses, starts, ends, n - 1);
      assert Attempts(keys, cursor, responses, starts, ends, n).used[..n - 1] == before.used;
    }
  }

  /** Attempt `a` used key `i` and tripped the rate limit. */
  predicate Tripped(used: seq<nat>, responses: seq<Response>, i: nat, a: nat) {
    a < |used| && a < |responses| && used[a] == i && responses[a].Body? && responses[a].code == Some(29)
  }

  /** Exactly the keys that tripped the limit are benched, each until twenty seconds after
      its last trip; no other key, and no key's name, is touched. */
  lemma {:induction false} OnlyTrippedKeysAreBenched(keys: seq<PooledKey>, used: seq<nat>, responses: seq<Response>,
                                                     ends: seq<int>, i: nat)
    requires |used| <= |responses| == |ends| && forall a | 0 <= a < |used| :: used[a] < |keys|
    requires i < |keys|
    ensures BenchedAfter(keys, used, responses, ends)[i].key == keys[i].key
    ensures (forall a: nat :: !Tripped(used, responses, i, a)) ==>
              BenchedAfter(keys, used, responses, ends)[i] == keys[i]
    ensures forall a: nat | Tripped(used, responses, i, a)
              && (forall b: nat | Tripped(used, responses, i, b) :: b <= a) ::
              BenchedAfter(keys, used, responses, ends)[i].benchedUntil == Some(ends[a] + 20)
  {
    if used != [] {
      var n := |used| - 1;
      OnlyTrippedKeysAreBenched(keys, used[..n], responses, ends, i);
      forall a: nat ensures Tripped(used, responses, i, a)
          <==> Tripped(used[..n], responses, i, a) || (a == n && used[n] == i && TripsLimit(responses[n])) {}
    }
  }

  lemma BackoffBounds(jitters: seq<nat>)
    requires |jitters| == MAX_REQUEST_ATTEMPTS - 1 && forall j | j in jitters :: j < 500
    ensures 7000 <= Pauses(jitters, MAX_REQUEST_ATTEMPTS - 1) < 8500
  {
    PausesAre(jitters, 3);
    assert jitters[0] in jitters && jitters[1] in jitters && jitters[2] in jitters;
  }
}
