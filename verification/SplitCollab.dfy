/** Splitting a credited name into its artists: one left-to-right scan for separators that
    ignores ASCII case.

    The lemmas take the separator table as a parameter; `SEPARATORS` is the program's. */
module SplitCollab {
  import opened Ordering

  const SEPARATORS: seq<string> := [", ", " & ", " feat. ", " feat ", " ft. ", " featuring "]

  function LowerChar(c: char): char {
    if 'A' <= c <= 'Z' then (c - 'A') + 'a' else c
  }

  function Lower(s: string): (r: string)
    ensures |r| == |s|
  {
    seq(|s|, i requires 0 <= i < |s| => LowerChar(s[i]))
  }

  lemma LowerSplit(s: string, k: nat)
    requires k <= |s|
    ensures Lower(s)[..k] == Lower(s[..k]) && Lower(s)[k..] == Lower(s[k..])
    ensures Lower(s) == Lower(s[..k]) + Lower(s[k..])
  {}

  /** The first entry of the table that `text` starts with. */
  function Find(table: seq<string>, text: string): Option<string> {
    if table == [] then None
    else if table[0] <= text then Some(table[0])
    else Find(table[1..], text)
  }

  /** The separator standing at the head of `s`, in whatever case. */
  function Opening(s: string, table: seq<string>): Option<string> {
    Find(table, Lower(s))
  }

  ghost predicate NoneEmpty(table: seq<string>) {
    forall sep | sep in table :: sep != []
  }

  ghost predicate PrefixFree(table: seq<string>) {
    forall a, b | a in table && b in table && a != b :: !(a <= b)
  }

  lemma {:induction false} Found(table: seq<string>, text: string)
    ensures Find(table, text).Some? ==> Find(table, text).value in table && Find(table, text).value <= text
    ensures Find(table, text).None? ==> forall sep | sep in table :: !(sep <= text)
  {
    if table != [] {
      assert table == [table[0]] + table[1..];
      Found(table[1..], text);
    }
  }

  // ── the cut, as a function ────────────────────────────────────────────────

  /** The text up to the first separator, that separator as written, and the rest. */
  datatype First = Whole | Next(piece: string, sep: string, rest: string)

  function Prepend(s: string, f: First): First {
    match f
    case Whole => Whole
    case Next(piece, sep, rest) => Next(s + piece, sep, rest)
  }

  function FirstCut(s: string, table: seq<string>): (f: First)
    requires NoneEmpty(table)
    ensures f.Next? ==> |f.rest| < |s|
  {
    if s == [] then Whole
    else
      match Opening(s, table)
      case Some(sep) =>
        Found(table, Lower(s));
        Next([], s[..|sep|], s[|sep|..])
      case None => Prepend([s[0]], FirstCut(s[1..], table))
  }

  datatype Cut = Cut(pieces: seq<string>, seps: seq<string>)

  function Split(s: string, table: seq<string>): Cut
    requires NoneEmpty(table)
    decreases |s|
  {
    match FirstCut(s, table)
    case Whole => Cut([s], [])
    case Next(piece, sep, rest) =>
      var c := Split(rest, table);
      Cut([piece] + c.pieces, [sep] + c.seps)
  }

  function Trim(s: string, ws: char -> bool): string {
    if s != [] && ws(s[0]) then Trim(s[1..], ws)
    else if s != [] && ws(s[|s| - 1]) then Trim(s[..|s| - 1], ws)
    else s
  }

  function TrimmedNonEmpty(pieces: seq<string>, ws: char -> bool): seq<string> {
    if pieces == [] then []
    else
      var n := |pieces| - 1;
      TrimmedNonEmpty(pieces[..n], ws) + if Trim(pieces[n], ws) != [] then [Trim(pieces[n], ws)] else []
  }

  function Members(name: string, table: seq<string>, ws: char -> bool): seq<string>
    requires NoneEmpty(table)
  {
    var kept := TrimmedNonEmpty(Split(name, table).pieces, ws);
    if |kept| >= 2 then kept else []
  }

  /** The scan's state: `pieces` are cut off, `piece` is being read, `rest` is ahead. */
  ghost predicate Scanning(name: string, pieces: seq<string>, piece: string, rest: string, table: seq<string>)
    requires NoneEmpty(table)
  {
    && Split(name, table).pieces == pieces + Split(piece + rest, table).pieces
    && FirstCut(piece + rest, table) == Prepend(piece, FirstCut(rest, table))
  }

  lemma PrependNothing(f: First)
    ensures Prepend([], f) == f
  {}

  lemma ScanFrom(name: string, pieces: seq<string>, rest: string, table: seq<string>)
    requires NoneEmpty(table) && Split(name, table).pieces == pieces + Split(rest, table).pieces
    ensures Scanning(name, pieces, [], rest, table)
  {
    assert [] + rest == rest;
    PrependNothing(FirstCut(rest, table));
  }

  /** A separator at the head of `t` ends the piece `p` read so far. */
  lemma CutHere(s: string, p: string, t: string, table: seq<string>)
    requires NoneEmpty(table) && t != [] && Opening(t, table).Some?
    requires FirstCut(s, table) == Prepend(p, FirstCut(t, table))
    ensures var n := |Opening(t, table).value|;
            0 < n <= |t| && Split(s, table).pieces == [p] + Split(t[n..], table).pieces
  {
    Found(table, Lower(t));
    var sep := Opening(t, table).value;
    assert FirstCut(t, table) == Next([], t[..|sep|], t[|sep|..]);
    assert p + [] == p;
  }

  lemma ScanCuts(name: string, pieces: seq<string>, piece: string, rest: string, table: seq<string>)
    requires NoneEmpty(table) && Scanning(name, pieces, piece, rest, table)
    requires rest != [] && Opening(rest, table).Some?
    ensures var n := |Opening(rest, table).value|;
            0 < n <= |rest| && Scanning(name, pieces + [piece], [], rest[n..], table)
  {
    CutHere(piece + rest, piece, rest, table);
    var n := |Opening(rest, table).value|;
    ScanFrom(name, pieces + [piece], rest[n..], table);
  }

  lemma ScanSkips(name: string, pieces: seq<string>, piece: string, rest: string, table: seq<string>)
    requires NoneEmpty(table) && Scanning(name, pieces, piece, rest, table)
    requires rest != [] && Opening(rest, table).None?
    ensures Scanning(name, pieces, piece + [rest[0]], rest[1..], table)
  {
    assert piece + [rest[0]] + rest[1..] == piece + rest;
    var f := FirstCut(rest[1..], table);
    if f.Next? {
      assert piece + ([rest[0]] + f.piece) == piece + [rest[0]] + f.piece;
    }
  }

  lemma ScanEnds(name: string, pieces: seq<string>, piece: string, table: seq<string>)
    requires NoneEmpty(table) && Scanning(name, pieces, piece, [], table)
    ensures Split(name, table).pieces == pieces + [piece]
  {
    assert piece + [] == piece;
  }

  lemma DropTwice(s: string, i: nat, n: nat)
    requires i + n <= |s|
    ensures s[i..][n..] == s[i + n..]
  {}

  /** The scan: cuts at each separator met from left to right. */
  method CutPieces(name: string, table: seq<string>) returns (pieces: seq<string>)
    requires NoneEmpty(table)
    ensures pieces == Split(name, table).pieces
  {
    var lower := Lower(name);
    pieces := [];
    var start: nat, i: nat := 0, 0;
    ghost var piece, rest := [], name;
    ScanFrom(name, [], name, table);
    while i < |lower|
      invariant start <= i <= |name| && piece == name[start..i] && rest == name[i..]
      invariant Scanning(name, pieces, piece, rest, table)
    {
      LowerSplit(name, i);
      match Find(table, lower[i..]) {
        case Some(sep) =>
          ScanCuts(name, pieces, piece, rest, table);
          DropTwice(name, i, |sep|);
          pieces := pieces + [name[start..i]];
          i := i + |sep|;
          start := i;
          piece, rest := [], rest[|sep|..];
        case None =>
          ScanSkips(name, pieces, piece, rest, table);
          DropTwice(name, i, 1);
          i := i + 1;
          piece, rest := piece + [rest[0]], rest[1..];
      }
    }
    assert rest == [] && piece == name[start..];
    ScanEnds(name, pieces, piece, table);
    pieces := pieces + [name[start..]];
  }

  /** The pieces trimmed, blank ones left out. */
  method KeepFilled(pieces: seq<string>, ws: char -> bool) returns (kept: seq<string>)
    ensures kept == TrimmedNonEmpty(pieces, ws)
  {
    kept := [];
    for j := 0 to |pieces|
      invariant kept == TrimmedNonEmpty(pieces[..j], ws)
    {
      assert pieces[..j + 1][..j] == pieces[..j];
      var m := Trim(pieces[j], ws);
      if m != [] {
        kept := kept + [m];
      }
    }
    assert pieces[..|pieces|] == pieces;
  }

  method SplitCollab(name: string, ws: char -> bool) returns (members: seq<string>)
    ensures NoneEmpty(SEPARATORS) && members == Members(name, SEPARATORS, ws)
    ensures exists c :: Parse(name, c, SEPARATORS)
    ensures forall c | Parse(name, c, SEPARATORS) :: Lists(members, c.pieces, ws)
  {
    SeparatorsAreSound();
    var pieces := CutPieces(name, SEPARATORS);
    members := KeepFilled(pieces, ws);
    if |members| < 2 {
      members := [];
    }
    MembersAreListed(name, SEPARATORS, ws);
  }

  /** No separator of the program's table is empty or begins another one, and all are in
      lower case. */
  lemma SeparatorsAreSound()
    ensures NoneEmpty(SEPARATORS) && PrefixFree(SEPARATORS)
    ensures forall sep | sep in SEPARATORS :: Lower(sep) == sep
  {
    assert SEPARATORS[0][0] == ',';
    assert SEPARATORS[1][0] == ' ' && SEPARATORS[1][1] == '&';
    assert SEPARATORS[2][0] == ' ' && SEPARATORS[2][1] == 'f' && SEPARATORS[2][2] == 'e' && SEPARATORS[2][5] == '.';
    assert SEPARATORS[3][0] == ' ' && SEPARATORS[3][1] == 'f' && SEPARATORS[3][2] == 'e' && SEPARATORS[3][5] == ' ';
    assert SEPARATORS[4][0] == ' ' && SEPARATORS[4][1] == 'f' && SEPARATORS[4][2] == 't';
    assert SEPARATORS[5][0] == ' ' && SEPARATORS[5][1] == 'f' && SEPARATORS[5][2] == 'e' && SEPARATORS[5][5] == 'u';
  }

  // ── what the cut is, whatever scan produced it ────────────────────────────

  /** Some separator, in some case, stands at the head of `s`. */
  ghost predicate Starts(s: string, table: seq<string>) {
    exists sep :: sep in table && sep <= Lower(s)
  }

  ghost predicate NothingStartsBefore(s: string, n: nat, table: seq<string>) {
    forall i | 0 <= i < n && i <= |s| :: !Starts(s[i..], table)
  }

  function Rest(c: Cut): Cut
    requires c.pieces != [] && c.seps != []
  {
    Cut(c.pieces[1..], c.seps[1..])
  }

  /** `s` opens with `piece` and then its first separator, `sep`. */
  ghost predicate Head(s: string, piece: string, sep: string, table: seq<string>) {
    var g, after := |piece|, |piece| + |sep|;
    && after <= |s| && s[..g] == piece && s[g..after] == sep
    && Lower(sep) in table && NothingStartsBefore(s, g, table)
  }

  /** `c` cuts `s` at separators only, and at the leftmost one each time. */
  ghost predicate Parse(s: string, c: Cut, table: seq<string>)
    decreases |c.seps|
  {
    && |c.pieces| == |c.seps| + 1
    && if c.seps == [] then c.pieces[0] == s && NothingStartsBefore(s, |s|, table)
       else
         && Head(s, c.pieces[0], c.seps[0], table)
         && Parse(s[|c.pieces[0]| + |c.seps[0]|..], Rest(c), table)
  }

  /** Pieces and separators put back together. */
  function Weave(c: Cut): string
    requires |c.pieces| == |c.seps| + 1
    decreases |c.seps|
  {
    if c.seps == [] then c.pieces[0] else c.pieces[0] + c.seps[0] + Weave(Rest(c))
  }

  lemma OpeningIffStarts(s: string, table: seq<string>)
    ensures Opening(s, table).Some? <==> Starts(s, table)
  {
    Found(table, Lower(s));
  }

  /** What the first cut is: the name's head, or proof that it has no separator. */
  lemma {:induction false} FirstCutIsHead(s: string, table: seq<string>)
    requires NoneEmpty(table)
    ensures FirstCut(s, table).Whole? ==> NothingStartsBefore(s, |s|, table)
    ensures var f := FirstCut(s, table);
            f.Next? ==> Head(s, f.piece, f.sep, table) && f.rest == s[|f.piece| + |f.sep|..]
  {
    if s != [] {
      OpeningIffStarts(s, table);
      match Opening(s, table) {
        case Some(sep) =>
          Found(table, Lower(s));
          LowerPrefix(s, sep);
        case None =>
          FirstCutIsHead(s[1..], table);
          var f := FirstCut(s[1..], table);
          OneMoreBefore(s, if f.Whole? then |s| - 1 else |f.piece|, table);
          if f.Next? {
            HeadOneEarlier(s, f.piece, f.sep, table);
          }
      }
    }
  }

  lemma OneMoreBefore(s: string, n: nat, table: seq<string>)
    requires s != [] && n < |s| && !Starts(s, table) && NothingStartsBefore(s[1..], n, table)
    ensures NothingStartsBefore(s, n + 1, table)
  {
    forall i | 0 <= i < n + 1
      ensures !Starts(s[i..], table)
    {
      if i > 0 {
        assert s[i..] == s[1..][i - 1..];
      } else {
        assert s[i..] == s;
      }
    }
  }

  lemma SliceOfTail(s: string, a: nat, b: nat)
    requires s != [] && a <= b < |s|
    ensures s[1..][a..b] == s[a + 1..b + 1]
  {}

  lemma HeadOneEarlier(s: string, piece: string, sep: string, table: seq<string>)
    requires s != [] && Head(s[1..], piece, sep, table) && NothingStartsBefore(s, |piece| + 1, table)
    ensures Head(s, [s[0]] + piece, sep, table)
    ensures s[1..][|piece| + |sep|..] == s[1 + |piece| + |sep|..]
  {
    var t, g := s[1..], |piece|;
    SliceOfTail(s, 0, g);
    assert s[..g + 1] == [s[0]] + s[1..g + 1];
    SliceOfTail(s, g, g + |sep|);
    DropTwice(s, 1, g + |sep|);
  }

  lemma LowerPrefix(t: string, sep: string)
    requires sep <= Lower(t)
    ensures Lower(t[..|sep|]) == sep
  {
    LowerSplit(t, |sep|);
  }

  lemma {:induction false} SplitParses(s: string, table: seq<string>)
    requires NoneEmpty(table)
    ensures Parse(s, Split(s, table), table)
    decreases |s|
  {
    FirstCutIsHead(s, table);
    match FirstCut(s, table) {
      case Whole =>
      case Next(piece, sep, rest) =>
        SplitParses(rest, table);
        ConsParses(s, piece, sep, Split(rest, table), table);
    }
  }

  lemma ConsParses(s: string, piece: string, sep: string, c: Cut, table: seq<string>)
    requires Head(s, piece, sep, table) && Parse(s[|piece| + |sep|..], c, table)
    ensures Parse(s, Cut([piece] + c.pieces, [sep] + c.seps), table)
  {
    assert Rest(Cut([piece] + c.pieces, [sep] + c.seps)) == c;
  }

  /** The pieces and the separators rebuild the name. */
  lemma {:induction false} ParseRebuilds(s: string, c: Cut, table: seq<string>)
    requires Parse(s, c, table)
    ensures Weave(c) == s && forall sep | sep in c.seps :: Lower(sep) in table
    decreases |c.seps|
  {
    if c.seps != [] {
      var g := |c.pieces[0]|;
      var after := g + |c.seps[0]|;
      ParseRebuilds(s[after..], Rest(c), table);
      assert s == s[..g] + s[g..after] + s[after..];
      assert c.seps == [c.seps[0]] + Rest(c).seps;
    }
  }

  lemma SplitRebuilds(name: string, table: seq<string>)
    requires NoneEmpty(table)
    ensures var c := Split(name, table);
            && |c.pieces| == |c.seps| + 1 && Weave(c) == name
            && forall sep | sep in c.seps :: Lower(sep) in table
  {
    SplitParses(name, table);
    ParseRebuilds(name, Split(name, table), table);
  }

  lemma CutStarts(s: string, g: nat, after: nat, table: seq<string>)
    requires g <= after <= |s| && Lower(s[g..after]) in table
    ensures Starts(s[g..], table) && Lower(s[g..after]) <= Lower(s[g..])
  {
    LowerSplit(s[g..], after - g);
    assert s[g..after] == s[g..][..after - g];
  }

  lemma SamePrefix(a: string, b: string, s: string)
    requires a <= s && b <= s
    ensures a <= b || b <= a
  {
  }

  lemma HeadReach(s: string, p: string, sep: string, n: nat, table: seq<string>)
    requires NoneEmpty(table) && Head(s, p, sep, table) && NothingStartsBefore(s, n, table)
    ensures n <= |p| && |p| < |s|
  {
    CutStarts(s, |p|, |p| + |sep|, table);
    assert Lower(sep) != [];
  }

  /** There is only one first piece and one first separator. */
  lemma HeadIsUnique(s: string, p: string, sep: string, p': string, sep': string, table: seq<string>)
    requires NoneEmpty(table) && PrefixFree(table) && Head(s, p, sep, table) && Head(s, p', sep', table)
    ensures p == p' && sep == sep'
  {
    HeadReach(s, p, sep, |p'|, table);
    HeadReach(s, p', sep', |p|, table);
    var g := |p|;
    CutStarts(s, g, g + |sep|, table);
    CutStarts(s, g, g + |sep'|, table);
    SamePrefix(Lower(sep), Lower(sep'), Lower(s[g..]));
  }

  lemma HeadsAgree(s: string, c: Cut, d: Cut, table: seq<string>)
    requires NoneEmpty(table) && PrefixFree(table) && Parse(s, c, table) && Parse(s, d, table) && c.seps != []
    ensures d.seps != [] && c.pieces[0] == d.pieces[0] && c.seps[0] == d.seps[0]
  {
    if d.seps == [] {
      HeadReach(s, c.pieces[0], c.seps[0], |s|, table);
    } else {
      HeadIsUnique(s, c.pieces[0], c.seps[0], d.pieces[0], d.seps[0], table);
    }
  }

  lemma SameCuts(c: Cut, d: Cut)
    requires c.pieces != [] && c.seps != [] && d.pieces != [] && d.seps != []
    requires c.pieces[0] == d.pieces[0] && c.seps[0] == d.seps[0] && Rest(c) == Rest(d)
    ensures c == d
  {
    assert c.pieces == [c.pieces[0]] + c.pieces[1..] && d.pieces == [d.pieces[0]] + d.pieces[1..];
    assert c.seps == [c.seps[0]] + c.seps[1..] && d.seps == [d.seps[0]] + d.seps[1..];
  }

  lemma ParseRest(s: string, c: Cut, n: nat, table: seq<string>)
    requires Parse(s, c, table) && c.pieces != [] && c.seps != [] && n == |c.pieces[0]| + |c.seps[0]|
    ensures n <= |s| && Parse(s[n..], Rest(c), table)
  {}

  /** Both cuts take off the same piece and separator and go on with the same text. */
  lemma CutsAgree(s: string, c: Cut, d: Cut, table: seq<string>) returns (n: nat)
    requires NoneEmpty(table) && PrefixFree(table) && Parse(s, c, table) && Parse(s, d, table) && c.seps != []
    ensures c.pieces != [] && d.pieces != [] && d.seps != [] && n <= |s|
    ensures c.pieces[0] == d.pieces[0] && c.seps[0] == d.seps[0]
    ensures Parse(s[n..], Rest(c), table) && Parse(s[n..], Rest(d), table)
  {
    HeadsAgree(s, c, d, table);
    n := |c.pieces[0]| + |c.seps[0]|;
    ParseRest(s, c, n, table);
    ParseRest(s, d, n, table);
  }

  lemma WholeCut(s: string, c: Cut, table: seq<string>)
    requires Parse(s, c, table) && c.seps == []
    ensures c == Cut([s], [])
  {}

  /** There is only one leftmost cut. */
  lemma {:induction false} ParseIsUnique(s: string, c: Cut, d: Cut, table: seq<string>)
    requires NoneEmpty(table) && PrefixFree(table) && Parse(s, c, table) && Parse(s, d, table)
    ensures c == d
    decreases |c.seps|
  {
    if c.seps != [] {
      var n := CutsAgree(s, c, d, table);
      ParseIsUnique(s[n..], Rest(c), Rest(d), table);
      SameCuts(c, d);
    } else if d.seps != [] {
      var _ := CutsAgree(s, d, c, table);
    } else {
      WholeCut(s, c, table);
      WholeCut(s, d, table);
    }
  }

  lemma {:induction false} ParseOfSet(s: string, c: Cut, table: seq<string>, other: seq<string>)
    requires Parse(s, c, table) && forall sep :: sep in table <==> sep in other
    ensures Parse(s, c, other)
    decreases |c.seps|
  {
    assert forall t :: Starts(t, table) <==> Starts(t, other);
    if c.seps != [] {
      ParseOfSet(s[|c.pieces[0]| + |c.seps[0]|..], Rest(c), table, other);
    }
  }

  /** The order of the table decides nothing. */
  lemma TableOrderIsInvisible(name: string, table: seq<string>, other: seq<string>, ws: char -> bool)
    requires NoneEmpty(table) && PrefixFree(table) && forall sep :: sep in table <==> sep in other
    ensures NoneEmpty(other) && Members(name, table, ws) == Members(name, other, ws)
  {
    SplitParses(name, table);
    SplitParses(name, other);
    ParseOfSet(name, Split(name, other), other, table);
    ParseIsUnique(name, Split(name, table), Split(name, other), table);
  }

  // ── the members ───────────────────────────────────────────────────────────

  /** No separator occurs anywhere in `s`, in any ASCII case. */
  ghost predicate Clean(s: string, table: seq<string>) {
    forall i | 0 <= i <= |s| :: !Starts(s[i..], table)
  }

  lemma CleanPart(s: string, n: nat, a: nat, b: nat, table: seq<string>)
    requires NoneEmpty(table) && a <= b <= n <= |s| && NothingStartsBefore(s, n, table)
    ensures Clean(s[a..b], table)
  {
    var part := s[a..b];
    forall i | 0 <= i <= |part|
      ensures !Starts(part[i..], table)
    {
      if i < |part| {
        assert part[i..] == s[a + i..][..|part| - i];
        LowerSplit(s[a + i..], |part| - i);
        assert !Starts(s[a + i..], table);
        forall sep | sep in table
          ensures !(sep <= Lower(part[i..]))
        {
          assert !(sep <= Lower(s[a + i..]));
          assert Lower(part[i..]) <= Lower(s[a + i..]);
        }
      }
    }
  }

  lemma {:induction false} PiecesAreClean(s: string, c: Cut, table: seq<string>)
    requires NoneEmpty(table) && Parse(s, c, table)
    ensures forall p | p in c.pieces :: Clean(p, table)
    decreases |c.seps|
  {
    var g := |c.pieces[0]|;
    assert c.pieces[0] == s[0..g];
    CleanPart(s, g, 0, g, table);
    if c.seps != [] {
      PiecesAreClean(s[g + |c.seps[0]|..], Rest(c), table);
      assert c.pieces == [c.pieces[0]] + Rest(c).pieces;
    }
  }

  /** Trimming takes a middle part, stripped at both ends, and loses only blanks. */
  lemma {:induction false} TrimIsPart(s: string, ws: char -> bool) returns (a: nat, b: nat)
    ensures a <= b <= |s| && Trim(s, ws) == s[a..b] && TrimmedTo(s, a, b, ws)
    decreases |s|
  {
    if s != [] && ws(s[0]) {
      a, b := TrimIsPart(s[1..], ws);
      SliceOfTail(s, a, b);
      TrimmedTail(s, a, b, ws);
      a, b := a + 1, b + 1;
    } else if s != [] && ws(s[|s| - 1]) {
      a, b := TrimIsPart(s[..|s| - 1], ws);
      TrimmedInit(s, a, b, ws);
    } else {
      a, b := 0, |s|;
      assert s[0..|s|] == s;
    }
  }

  ghost predicate TrimmedTo(s: string, a: nat, b: nat, ws: char -> bool)
    requires a <= b <= |s|
  {
    && (forall i | 0 <= i < |s| && !(a <= i < b) :: ws(s[i]))
    && (a < b ==> !ws(s[a]) && !ws(s[b - 1]))
  }

  lemma TrimmedTail(s: string, a: nat, b: nat, ws: char -> bool)
    requires s != [] && ws(s[0]) && a <= b < |s| && TrimmedTo(s[1..], a, b, ws)
    ensures TrimmedTo(s, a + 1, b + 1, ws)
  {
    forall i | 0 <= i < |s| && !(a + 1 <= i < b + 1)
      ensures ws(s[i])
    {
      if i > 0 {
        assert s[i] == s[1..][i - 1];
      }
    }
  }

  lemma TrimmedInit(s: string, a: nat, b: nat, ws: char -> bool)
    requires s != [] && ws(s[|s| - 1]) && a <= b < |s| && TrimmedTo(s[..|s| - 1], a, b, ws)
    ensures TrimmedTo(s, a, b, ws) && s[..|s| - 1][a..b] == s[a..b]
  {
    assert forall i | 0 <= i < |s| - 1 :: s[..|s| - 1][i] == s[i];
  }

  ghost predicate Blank(s: string, ws: char -> bool) {
    forall c | c in s :: ws(c)
  }

  lemma {:induction false} KeptAreTrimmed(pieces: seq<string>, m: string, ws: char -> bool) returns (p: string)
    requires m in TrimmedNonEmpty(pieces, ws)
    ensures p in pieces && m == Trim(p, ws) && m != []
  {
    var n := |pieces| - 1;
    if m in TrimmedNonEmpty(pieces[..n], ws) {
      p := KeptAreTrimmed(pieces[..n], m, ws);
    } else {
      p := pieces[n];
    }
  }

  lemma {:induction false} CleanIsWhole(m: string, table: seq<string>)
    requires NoneEmpty(table) && Clean(m, table)
    ensures FirstCut(m, table).Whole? && Split(m, table) == Cut([m], [])
  {
    if m != [] {
      assert m[0..] == m;
      OpeningIffStarts(m, table);
      CleanPart(m, |m|, 1, |m|, table);
      assert m[1..|m|] == m[1..];
      CleanIsWhole(m[1..], table);
    }
  }

  lemma CleanTrim(p: string, table: seq<string>, ws: char -> bool)
    requires NoneEmpty(table) && Clean(p, table)
    ensures Clean(Trim(p, ws), table)
  {
    var a, b := TrimIsPart(p, ws);
    CleanPart(p, |p|, a, b, table);
  }

  /** A returned member is a single artist: nonempty, free of separators, not split again. */
  lemma MembersSplitNoFurther(name: string, m: string, table: seq<string>, ws: char -> bool)
    requires NoneEmpty(table) && m in Members(name, table, ws)
    ensures m != [] && !ws(m[0]) && !ws(m[|m| - 1])
    ensures Clean(m, table) && Members(m, table, ws) == []
  {
    var p := KeptAreTrimmed(Split(name, table).pieces, m, ws);
    PieceOfName(name, p, table);
    CleanTrim(p, table, ws);
    CleanIsNoCollab(m, table, ws);
    TrimmedEnds(p, ws);
  }

  lemma PieceOfName(name: string, p: string, table: seq<string>)
    requires NoneEmpty(table) && p in Split(name, table).pieces
    ensures Clean(p, table)
  {
    SplitParses(name, table);
    PiecesAreClean(name, Split(name, table), table);
  }

  lemma CleanIsNoCollab(m: string, table: seq<string>, ws: char -> bool)
    requires NoneEmpty(table) && Clean(m, table)
    ensures Members(m, table, ws) == []
  {
    CleanIsWhole(m, table);
    KeptAreFewer([m], ws);
  }

  lemma {:induction false} KeptAreFewer(pieces: seq<string>, ws: char -> bool)
    ensures |TrimmedNonEmpty(pieces, ws)| <= |pieces|
  {
    if pieces != [] {
      KeptAreFewer(pieces[..|pieces| - 1], ws);
    }
  }

  lemma TrimmedEnds(p: string, ws: char -> bool)
    requires Trim(p, ws) != []
    ensures var m := Trim(p, ws); !ws(m[0]) && !ws(m[|m| - 1])
  {
    var a, b := TrimIsPart(p, ws);
  }

  ghost predicate TwoFilled(pieces: seq<string>, ws: char -> bool) {
    exists i, j :: 0 <= i < j < |pieces| && !Blank(pieces[i], ws) && !Blank(pieces[j], ws)
  }

  lemma BlankIffTrimmedAway(p: string, ws: char -> bool)
    ensures Blank(p, ws) <==> Trim(p, ws) == []
  {
    var a, b := TrimIsPart(p, ws);
    if a < b {
      assert p[a] in p;
    }
  }

  function Filled(pieces: seq<string>, ws: char -> bool): nat {
    |TrimmedNonEmpty(pieces, ws)|
  }

  lemma {:induction false} FilledCounts(pieces: seq<string>, ws: char -> bool)
    ensures Filled(pieces, ws) >= 1 <==> exists i :: 0 <= i < |pieces| && !Blank(pieces[i], ws)
    ensures Filled(pieces, ws) >= 2 <==> TwoFilled(pieces, ws)
  {
    if pieces != [] {
      var n := |pieces| - 1;
      var front := pieces[..n];
      FilledCounts(front, ws);
      BlankIffTrimmedAway(pieces[n], ws);
      assert forall i | 0 <= i < n :: front[i] == pieces[i];
      if TwoFilled(front, ws) {
        var i, j :| 0 <= i < j < n && !Blank(front[i], ws) && !Blank(front[j], ws);
        assert pieces[i] == front[i] && pieces[j] == front[j];
      }
    }
  }

  /** A name is treated as several artists exactly when two of its pieces are not blank. */
  lemma CollabIff(name: string, table: seq<string>, ws: char -> bool)
    requires NoneEmpty(table)
    ensures Members(name, table, ws) != [] <==> TwoFilled(Split(name, table).pieces, ws)
  {
    FilledCounts(Split(name, table).pieces, ws);
  }

  /** `m` is `p` stripped of white space at both ends. */
  ghost predicate Strips(m: string, p: string, ws: char -> bool) {
    exists a: nat, b: nat :: a <= b <= |p| && m == p[a..b] && TrimmedTo(p, a, b, ws)
  }

  /** `kept` are all the pieces that are not blank, in order, each stripped. */
  ghost predicate StripsAll(idx: seq<nat>, kept: seq<string>, pieces: seq<string>, ws: char -> bool) {
    && |idx| == |kept| && (forall k, l | 0 <= k < l < |idx| :: idx[k] < idx[l])
    && (forall k | 0 <= k < |idx| :: idx[k] < |pieces| && Strips(kept[k], pieces[idx[k]], ws))
    && forall i: nat | i < |pieces| :: i in idx <==> !Blank(pieces[i], ws)
  }

  /** The members of a name with these pieces: if two or more are not blank, all of those,
      and otherwise none. */
  ghost predicate Lists(members: seq<string>, pieces: seq<string>, ws: char -> bool) {
    if TwoFilled(pieces, ws) then exists idx :: StripsAll(idx, members, pieces, ws) else members == []
  }

  lemma StripsOneMore(idx: seq<nat>, kept: seq<string>, pieces: seq<string>, p: string, m: string, ws: char -> bool)
    requires StripsAll(idx, kept, pieces, ws) && Strips(m, p, ws) && !Blank(p, ws)
    ensures StripsAll(idx + [|pieces|], kept + [m], pieces + [p], ws)
  {
    var more := pieces + [p];
    assert more[|pieces|] == p && forall i | 0 <= i < |pieces| :: more[i] == pieces[i];
    forall i: nat | i < |more| ensures i in idx + [|pieces|] <==> !Blank(more[i], ws) {
      assert i in idx + [|pieces|] <==> i in idx || i == |pieces|;
    }
  }

  lemma StripsNoMore(idx: seq<nat>, kept: seq<string>, pieces: seq<string>, p: string, ws: char -> bool)
    requires StripsAll(idx, kept, pieces, ws) && Blank(p, ws)
    ensures StripsAll(idx, kept, pieces + [p], ws)
  {
    var more := pieces + [p];
    assert more[|pieces|] == p && forall i | 0 <= i < |pieces| :: more[i] == pieces[i];
  }

  lemma TrimStrips(p: string, ws: char -> bool)
    ensures Strips(Trim(p, ws), p, ws)
  {
    var a, b := TrimIsPart(p, ws);
  }

  lemma KeptOneMore(idx: seq<nat>, front: seq<string>, p: string, ws: char -> bool) returns (places: seq<nat>)
    requires StripsAll(idx, TrimmedNonEmpty(front, ws), front, ws)
    ensures StripsAll(places, TrimmedNonEmpty(front + [p], ws), front + [p], ws)
  {
    assert (front + [p])[..|front|] == front;
    BlankIffTrimmedAway(p, ws);
    if Blank(p, ws) {
      StripsNoMore(idx, TrimmedNonEmpty(front, ws), front, p, ws);
      places := idx;
    } else {
      TrimStrips(p, ws);
      StripsOneMore(idx, TrimmedNonEmpty(front, ws), front, p, Trim(p, ws), ws);
      places := idx + [|front|];
    }
  }

  lemma {:induction false} KeptAreAll(pieces: seq<string>, ws: char -> bool) returns (idx: seq<nat>)
    ensures StripsAll(idx, TrimmedNonEmpty(pieces, ws), pieces, ws)
  {
    if pieces == [] {
      idx := [];
    } else {
      var n := |pieces| - 1;
      assert pieces == pieces[..n] + [pieces[n]];
      idx := KeptAreAll(pieces[..n], ws);
      idx := KeptOneMore(idx, pieces[..n], pieces[n], ws);
    }
  }

  /** Whatever cut meets the definition, the members are its pieces that are not blank. */
  lemma MembersAreListed(name: string, table: seq<string>, ws: char -> bool)
    requires NoneEmpty(table) && PrefixFree(table)
    ensures exists c :: Parse(name, c, table)
    ensures forall c | Parse(name, c, table) :: Lists(Members(name, table, ws), c.pieces, ws)
  {
    var cut := Split(name, table);
    SplitParses(name, table);
    FilledCounts(cut.pieces, ws);
    var idx := KeptAreAll(cut.pieces, ws);
    forall c | Parse(name, c, table) ensures Lists(Members(name, table, ws), c.pieces, ws) {
      ParseIsUnique(name, c, cut, table);
    }
  }

  /** The same character, or an ASCII letter in the other case. */
  ghost predicate SameLetter(c: char, d: char) {
    || c == d
    || ('A' <= c <= 'Z' && d as int == c as int + 32)
    || ('A' <= d <= 'Z' && c as int == d as int + 32)
  }

  ghost predicate SameUpToCase(s: string, t: string) {
    |s| == |t| && forall i | 0 <= i < |s| :: SameLetter(s[i], t[i])
  }

  lemma SameUpToCaseIff(s: string, t: string)
    ensures SameUpToCase(s, t) <==> Lower(s) == Lower(t)
  {
    if Lower(s) == Lower(t) {
      forall i | 0 <= i < |s| ensures SameLetter(s[i], t[i]) {
        assert Lower(s)[i] == Lower(t)[i];
      }
    }
  }

  /** Where the table is in lower case, a separator stands wherever its letters do. */
  lemma StartsInAnyCase(s: string, table: seq<string>)
    requires forall sep | sep in table :: Lower(sep) == sep
    ensures Starts(s, table) <==> exists sep, n: nat :: sep in table && n <= |s| && SameUpToCase(sep, s[..n])
  {
    if sep :| sep in table && sep <= Lower(s) {
      LowerPrefix(s, sep);
      SameUpToCaseIff(sep, s[..|sep|]);
    }
    if sep, n: nat :| sep in table && n <= |s| && SameUpToCase(sep, s[..n]) {
      SameUpToCaseIff(sep, s[..n]);
      LowerSplit(s, n);
    }
  }

  /** Two spellings of a name that differ in ASCII case are cut at the same places. */
  lemma CaseIsInvisible(s: string, t: string, table: seq<string>)
    requires NoneEmpty(table) && SameUpToCase(s, t)
    ensures var c, d := Split(s, table), Split(t, table);
            && |c.pieces| == |d.pieces|
            && forall k | 0 <= k < |c.pieces| :: SameUpToCase(c.pieces[k], d.pieces[k])
  {
    SameUpToCaseIff(s, t);
    LoweredIsSameCut(s, t, table);
    var c, d := Split(s, table), Split(t, table);
    forall k | 0 <= k < |c.pieces| ensures SameUpToCase(c.pieces[k], d.pieces[k]) {
      SameUpToCaseIff(c.pieces[k], d.pieces[k]);
    }
  }

  lemma {:induction false} LoweredIsSameCut(s: string, t: string, table: seq<string>)
    requires NoneEmpty(table) && Lower(s) == Lower(t)
    ensures SameCut(Split(s, table), Split(t, table))
    decreases |s|
  {
    SameFirst(s, t, table);
    var f, g := FirstCut(s, table), FirstCut(t, table);
    if f.Next? {
      LoweredIsSameCut(f.rest, g.rest, table);
      SameCutOneMore(f.piece, Split(f.rest, table), g.piece, Split(g.rest, table));
    }
  }

  ghost predicate SameCut(c: Cut, d: Cut) {
    |c.pieces| == |d.pieces| && forall k | 0 <= k < |c.pieces| :: Lower(c.pieces[k]) == Lower(d.pieces[k])
  }

  lemma SameCutOneMore(p: string, c: Cut, q: string, d: Cut)
    requires Lower(p) == Lower(q) && SameCut(c, d)
    ensures |[p] + c.pieces| == |[q] + d.pieces|
    ensures forall k | 0 <= k <= |c.pieces| :: Lower(([p] + c.pieces)[k]) == Lower(([q] + d.pieces)[k])
  {}

  lemma LowerHead(s: string)
    requires s != []
    ensures Lower(s) == [LowerChar(s[0])] + Lower(s[1..])
  {
    LowerSplit(s, 1);
    assert s[..1] == [s[0]];
  }

  lemma LowerCons(x: char, s: string)
    ensures Lower([x] + s) == [LowerChar(x)] + Lower(s)
  {
    LowerHead([x] + s);
    assert ([x] + s)[1..] == s;
  }

  lemma {:induction false} SameFirst(s: string, t: string, table: seq<string>)
    requires NoneEmpty(table) && Lower(s) == Lower(t)
    ensures var f, g := FirstCut(s, table), FirstCut(t, table);
            && f.Next? == g.Next?
            && (f.Next? ==> Lower(f.piece) == Lower(g.piece) && Lower(f.rest) == Lower(g.rest))
  {
    if s != [] {
      match Opening(s, table) {
        case Some(sep) =>
          Found(table, Lower(s));
          LowerSplit(s, |sep|);
          LowerSplit(t, |sep|);
        case None =>
          LowerHead(s);
          LowerHead(t);
          assert Lower(s)[1..] == Lower(s[1..]) && Lower(t)[1..] == Lower(t[1..]);
          SameFirst(s[1..], t[1..], table);
          var f, g := FirstCut(s[1..], table), FirstCut(t[1..], table);
          if f.Next? {
            LowerCons(s[0], f.piece);
            LowerCons(t[0], g.piece);
          }
      }
    }
  }
}
