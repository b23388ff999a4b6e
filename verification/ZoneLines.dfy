/** A zone line written from two names parses back to those names. */
module ZoneLines {
  import opened Text
  import opened Regex
  import opened Parsers

  /** Owner, white space, keyword, white space, target, dot, and a tail without dots. */
  function ZoneLine(d: string, ws: string, keyword: string, wt: string, a: string, tail: string): string {
    d + ws + keyword + wt + a + "." + tail
  }

  ghost predicate Runs(ws: string) {
    ws != "" && AllSpace(ws)
  }

  /** The characters of a zone line: owner up to `d`, space up to `x`, keyword of five letters,
      space up to `y`, target up to `z`, the closing dot at `z`, no dot afterwards. Both
      names have their last dot (at `dk` and `ak`) followed by two to six letters. */
  ghost predicate Laid(s: string, dk: nat, d: nat, x: nat, y: nat, ak: nat, z: nat) {
    && DomainAt(s, 0, dk, d)
    && DomainAt(s, y, ak, z)
    && d < x && x + 5 < y && z < |s|
    && (forall i :: 0 <= i < d ==> !IsSpace(s[i]))
    && (forall i :: d <= i < x ==> IsSpace(s[i]))
    && (s[x..x + 5] == "CNAME" || s[x..x + 5] == "cname")
    && (forall i :: x + 5 <= i < y ==> IsSpace(s[i]))
    && (forall i :: y <= i < z ==> !IsSpace(s[i]))
    && s[z] == '.'
    && (forall i :: z < i < |s| ==> s[i] != '.')
  }

  lemma {:induction false} ZoneAtoms()
    ensures |ZONE| == 10 && Balanced(ZONE)
    ensures ZONE[0] == ZONE[6] == DOMAIN[0] && ZONE[1] == ZONE[7] == DOMAIN[1] && ZONE[2] == ZONE[8] == DOMAIN[2]
    ensures ZONE[3] == ZONE[5] == SPACES && ZONE[4] == CNAME_KEYWORD && ZONE[9] == DOT
  {
  }

  /** A zone match in plain terms. */
  ghost predicate ZoneMatch(s: string, b: nat, m: seq<nat>) {
    && |m| == 10
    && m[1] == m[0] + 1 && DomainAt(s, b, m[0], m[2])
    && m[2] < m[3] < m[4] < m[5] < |s|
    && (forall i :: m[2] <= i < m[3] ==> IsSpace(s[i]))
    && (s[m[3]..m[4]] == "CNAME" || s[m[3]..m[4]] == "cname")
    && (forall i :: m[4] <= i < m[5] ==> IsSpace(s[i]))
    && m[7] == m[6] + 1 && DomainAt(s, m[5], m[6], m[8])
    && m[8] < |s| && s[m[8]] == '.' && m[9] == m[8] + 1
  }

  lemma {:induction false} ZoneFitsThenMatch(digit: char -> bool, s: string, b: nat, m: seq<nat>)
    requires FitsEach(digit, ZONE, s, b, m)
    ensures ZoneMatch(s, b, m)
  {
    ZoneAtoms();
    var first, second := [m[0], m[1], m[2]], [m[6], m[7], m[8]];
    forall j | 0 <= j < 3
      ensures AtomFits(digit, DOMAIN[j], s, StartOf(b, first, j), first[j])
      ensures AtomFits(digit, DOMAIN[j], s, StartOf(m[5], second, j), second[j])
    {
      assert AtomFits(digit, ZONE[j], s, StartOf(b, m, j), m[j]);
      assert AtomFits(digit, ZONE[6 + j], s, StartOf(b, m, 6 + j), m[6 + j]);
    }
    FitsIsEach(digit, DOMAIN, s, b, first);
    DomainFits(digit, s, b, first);
    FitsIsEach(digit, DOMAIN, s, m[5], second);
    DomainFits(digit, s, m[5], second);
    assert AtomFits(digit, ZONE[3], s, StartOf(b, m, 3), m[3]);
    assert AtomFits(digit, ZONE[4], s, StartOf(b, m, 4), m[4]);
    assert AtomFits(digit, ZONE[5], s, StartOf(b, m, 5), m[5]);
    assert AtomFits(digit, ZONE[9], s, StartOf(b, m, 9), m[9]);
  }

  lemma {:induction false} ZoneMatchThenFits(digit: char -> bool, s: string, b: nat, m: seq<nat>)
    requires ZoneMatch(s, b, m)
    ensures FitsEach(digit, ZONE, s, b, m)
  {
    ZoneAtoms();
    var first, second := [m[0], m[1], m[2]], [m[6], m[7], m[8]];
    DomainFits(digit, s, b, first);
    FitsIsEach(digit, DOMAIN, s, b, first);
    DomainFits(digit, s, m[5], second);
    FitsIsEach(digit, DOMAIN, s, m[5], second);
    forall j | 0 <= j < 10
      ensures AtomFits(digit, ZONE[j], s, StartOf(b, m, j), m[j])
    {
      if j < 3 {
        assert AtomFits(digit, DOMAIN[j], s, StartOf(b, first, j), first[j]);
      } else if 6 <= j < 9 {
        assert AtomFits(digit, DOMAIN[j - 6], s, StartOf(m[5], second, j - 6), second[j - 6]);
      }
    }
  }

  lemma {:induction false} ZoneFits(digit: char -> bool, s: string, b: nat, m: seq<nat>)
    ensures Fits(digit, ZONE, s, b, m) <==> ZoneMatch(s, b, m)
  {
    FitsIsEach(digit, ZONE, s, b, m);
    if FitsEach(digit, ZONE, s, b, m) {
      ZoneFitsThenMatch(digit, s, b, m);
    }
    if ZoneMatch(s, b, m) {
      ZoneMatchThenFits(digit, s, b, m);
    }
  }

  /** However the greedy groups stretch, the owner ends before the first white space. */
  lemma {:induction false} OwnerIsForced(s: string, dk: nat, d: nat, x: nat, y: nat, ak: nat, z: nat, m: seq<nat>)
    requires Laid(s, dk, d, x, y, ak, z) && ZoneMatch(s, 0, m)
    ensures m[0] == dk && m[2] == d
  {
    var e := m[2];
    var keyword := s[x..x + 5];
    assert keyword[0] == s[x] && keyword[1] == s[x + 1] && keyword[2] == s[x + 2];
    assert keyword[3] == s[x + 3] && keyword[4] == s[x + 4];
    assert IsSpace(s[x - 1]) && IsSpace(s[e]) && IsLower(s[e - 1]);
    assert m[8] <= z;
    assert e == d || e == x + 5;
    assert e != x + 5;
  }

  lemma {:induction false} ZoneStep(s: string, dk: nat, d: nat, x: nat, y: nat, ak: nat, z: nat, m: seq<nat>, i: nat)
    requires Laid(s, dk, d, x, y, ak, z) && ZoneMatch(s, 0, m)
    requires i < 10 && [dk, dk + 1, d, x, x + 5, y, ak, ak + 1, z, z + 1][..i] == m[..i]
    ensures [dk, dk + 1, d, x, x + 5, y, ak, ak + 1, z, z + 1][i] >= m[i]
  {
    var best := [dk, dk + 1, d, x, x + 5, y, ak, ak + 1, z, z + 1];
    OwnerIsForced(s, dk, d, x, y, ak, z, m);
    forall j | 0 <= j < i
      ensures best[j] == m[j]
    {
      assert best[..i][j] == m[..i][j];
    }
    assert s[x..x + 5][0] == s[x];
    assert |s[m[3]..m[4]]| == 5;
    assert !IsSpace(s[y]);
    assert m[8] <= z;
  }

  lemma {:induction false} ZoneCapture(digit: char -> bool, s: string, dk: nat, d: nat, x: nat, y: nat, ak: nat, z: nat)
    requires Laid(s, dk, d, x, y, ak, z)
    ensures Find(digit, ZONE, s) == Some((0, [dk, dk + 1, d, x, x + 5, y, ak, ak + 1, z, z + 1]))
  {
    var best := [dk, dk + 1, d, x, x + 5, y, ak, ak + 1, z, z + 1];
    ZoneAtoms();
    ZoneFits(digit, s, 0, best);
    forall other | Fits(digit, ZONE, s, 0, other)
      ensures Greedier(best, other)
    {
      ZoneFits(digit, s, 0, other);
      forall i | 0 <= i < |best| && best[..i] == other[..i]
        ensures best[i] >= other[i]
      {
        ZoneStep(s, dk, d, x, y, ak, z, other, i);
      }
      GreedierByPrefix(best, other);
    }
    FindIsCapture(digit, ZONE, s);
  }

  lemma {:induction false} WholeShift(s: string, from: nat, name: string, k: nat)
    requires WholeAt(name, k) && NoSpace(name)
    requires from + |name| <= |s| && s[from..from + |name|] == name
    ensures DomainAt(s, from, from + k, from + |name|)
    ensures forall i :: from <= i < from + |name| ==> !IsSpace(s[i])
  {
    assert forall i :: 0 <= i < |name| ==> name[i] == s[from + i];
    assert forall i :: k < i < |name| ==> name[i] == name[k + 1..][i - k - 1];
  }

  lemma {:induction false} SpaceShift(s: string, from: nat, ws: string)
    requires AllSpace(ws) && from + |ws| <= |s| && s[from..from + |ws|] == ws
    ensures forall i :: from <= i < from + |ws| ==> IsSpace(s[i])
  {
    assert forall i :: from <= i < from + |ws| ==> s[i] == ws[i - from];
  }

  lemma {:induction false} Pieces(d: string, ws: string, keyword: string, wt: string, a: string, tail: string)
    requires |keyword| == 5
    ensures var s := ZoneLine(d, ws, keyword, wt, a, tail);
            var x := |d| + |ws|; var y := x + 5 + |wt|; var z := y + |a|;
            && |s| == z + 1 + |tail|
            && s[0..|d|] == d && s[|d|..x] == ws && s[x..x + 5] == keyword && s[x + 5..y] == wt && s[y..z] == a
            && s[z] == '.' && s[z + 1..] == tail
  {
  }

  lemma {:induction false} LineLaid(d: string, ws: string, keyword: string, wt: string, a: string, tail: string, dk: nat, ak: nat)
    requires WholeAt(d, dk) && WholeAt(a, ak) && NoSpace(d) && NoSpace(a)
    requires Runs(ws) && Runs(wt) && (keyword == "CNAME" || keyword == "cname") && '.' !in tail
    ensures var x := |d| + |ws|; var y := x + 5 + |wt|;
            var s := ZoneLine(d, ws, keyword, wt, a, tail);
            Laid(s, dk, |d|, x, y, y + ak, y + |a|) && s[0..|d|] == d && s[y..y + |a|] == a
  {
    Pieces(d, ws, keyword, wt, a, tail);
    var s := ZoneLine(d, ws, keyword, wt, a, tail);
    var x := |d| + |ws|;
    var y := x + 5 + |wt|;
    WholeShift(s, 0, d, dk);
    WholeShift(s, y, a, ak);
    SpaceShift(s, |d|, ws);
    SpaceShift(s, x + 5, wt);
    assert forall i :: y + |a| < i < |s| ==> s[i] in s[y + |a| + 1..];
  }

  function Both(domain: Option<string>, alias: Option<string>): Option<CName> {
    match (domain, alias)
    case (Some(d), Some(a)) => Some(CName(d, a))
    case _ => None
  }

  lemma {:induction false} ZoneGives(lib: Lib, s: string, dk: nat, d: nat, x: nat, y: nat, ak: nat, z: nat)
    requires Laid(s, dk, d, x, y, ak, z)
    ensures ParseCName(lib, s) == Both(ParseDomain(lib, Trim(s[0..d])), ParseDomain(lib, Trim(s[y..z])))
  {
    ZoneCapture(lib.isDigit, s, dk, d, x, y, ak, z);
    var m := [dk, dk + 1, d, x, x + 5, y, ak, ak + 1, z, z + 1];
    assert m[2] == d && m[5] == y && m[8] == z;
  }

  lemma {:induction false} LaidMeansNames(lib: Lib, s: string, d: string, dk: nat, x: nat, y: nat, a: string, ak: nat)
    requires WholeAt(d, dk) && WholeAt(a, ak) && NoSpace(d) && NoSpace(a)
    requires Laid(s, dk, |d|, x, y, y + ak, y + |a|) && s[0..|d|] == d && s[y..y + |a|] == a
    ensures ParseCName(lib, s) == Both(ParseDomain(lib, d), ParseDomain(lib, a))
  {
    ZoneGives(lib, s, dk, |d|, x, y, y + ak, y + |a|);
    TrimNothing(d);
    TrimNothing(a);
  }

  /** Parsing gives exactly what the two names give on their own. */
  lemma {:induction false} ZoneLineMeansNames(lib: Lib, d: string, ws: string, keyword: string, wt: string, a: string, tail: string)
    requires WholeName(d) && WholeName(a) && NoSpace(d) && NoSpace(a)
    requires Runs(ws) && Runs(wt) && (keyword == "CNAME" || keyword == "cname") && '.' !in tail
    ensures ParseCName(lib, ZoneLine(d, ws, keyword, wt, a, tail))
         == match (ParseDomain(lib, d), ParseDomain(lib, a))
            case (Some(domain), Some(alias)) => Some(CName(domain, alias))
            case _ => None
  {
    var dk: nat :| WholeAt(d, dk);
    var ak: nat :| WholeAt(a, ak);
    ZoneLineMeans(lib, d, dk, ws, keyword, wt, a, ak, tail);
  }

  lemma {:induction false} ZoneLineMeans(lib: Lib, d: string, dk: nat, ws: string, keyword: string, wt: string, a: string, ak: nat, tail: string)
    requires WholeAt(d, dk) && WholeAt(a, ak) && NoSpace(d) && NoSpace(a)
    requires Runs(ws) && Runs(wt) && (keyword == "CNAME" || keyword == "cname") && '.' !in tail
    ensures ParseCName(lib, ZoneLine(d, ws, keyword, wt, a, tail)) == Both(ParseDomain(lib, d), ParseDomain(lib, a))
  {
    LineLaid(d, ws, keyword, wt, a, tail, dk, ak);
    var x := |d| + |ws|;
    LaidMeansNames(lib, ZoneLine(d, ws, keyword, wt, a, tail), d, dk, x, x + 5 + |wt|, a, ak);
  }

  /** Round trip: a line written from two names that the libraries leave alone, with either
      spelling of the keyword and any white space, parses back to exactly those names. */
  lemma {:induction false} ZoneRoundTrip(lib: Lib, d: string, ws: string, keyword: string, wt: string, a: string, tail: string)
    requires WholeName(d) && WholeName(a) && Stable(lib, d) && Stable(lib, a)
    requires Runs(ws) && Runs(wt) && (keyword == "CNAME" || keyword == "cname") && '.' !in tail
    ensures ParseCName(lib, ZoneLine(d, ws, keyword, wt, a, tail)) == Some(CName(d, a))
  {
    ZoneLineMeansNames(lib, d, ws, keyword, wt, a, tail);
    ParseStable(lib, d);
    ParseStable(lib, a);
  }

  /** The leftmost match, and from there the greediest. */
  ghost predicate FirstZone(s: string, b: nat, m: seq<nat>) {
    && ZoneMatch(s, b, m)
    && (forall other :: ZoneMatch(s, b, other) ==> Greedier(m, other))
    && (forall c: nat, other :: c < b ==> !ZoneMatch(s, c, other))
  }

  /** Exactly what a line gives: nothing if the pattern fits nowhere; else the parsed owner and
      target of its leftmost and then greediest match, if both parse. */
  lemma {:induction false} ParseCNameExact(lib: Lib, s: string)
    ensures (forall b: nat, m :: !ZoneMatch(s, b, m)) ==> ParseCName(lib, s) == None
    ensures forall b: nat, m :: FirstZone(s, b, m) ==>
              ParseCName(lib, s) == Both(ParseDomain(lib, Trim(s[b..m[2]])), ParseDomain(lib, Trim(s[m[5]..m[8]])))
  {
    ZoneAtoms();
    FindIsCapture(lib.isDigit, ZONE, s);
    forall b: nat, m
      ensures Fits(lib.isDigit, ZONE, s, b, m) <==> ZoneMatch(s, b, m)
    {
      ZoneFits(lib.isDigit, s, b, m);
    }
    forall b: nat, m | FirstZone(s, b, m)
      ensures ParseCName(lib, s) == Both(ParseDomain(lib, Trim(s[b..m[2]])), ParseDomain(lib, Trim(s[m[5]..m[8]])))
    {
      assert IsCapture(lib.isDigit, ZONE, s, b, m);
    }
  }

  predicate KeywordAt(s: string, i: nat) {
    i + 5 <= |s| && (s[i..i + 5] == "CNAME" || s[i..i + 5] == "cname")
  }

  /** In particular a line without the keyword gives nothing. */
  lemma {:induction false} NoKeywordNoRule(lib: Lib, s: string)
    requires forall i: nat :: !KeywordAt(s, i)
    ensures ParseCName(lib, s) == None
  {
    forall b: nat, m
      ensures ZoneMatch(s, b, m) ==> KeywordAt(s, m[3])
    {
      assert ZoneMatch(s, b, m) ==> |s[m[3]..m[4]]| == 5;
    }
    ParseCNameExact(lib, s);
  }
}
