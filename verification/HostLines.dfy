/** A hosts line names the same domain as the name written on it. */
module HostLines {
  import opened Text
  import opened Regex
  import opened Parsers

  function HostDomain(lib: Lib, line: string): Option<string> {
    match ParseHost(lib, line)
    case Some(h) => Some(h.domain)
    case None => None
  }

  /** Four groups of one to three digits. */
  ghost predicate DottedQuad(digit: char -> bool, g: seq<string>) {
    && |g| == 4
    && (forall j :: 0 <= j < 4 ==> 1 <= |g[j]| <= 3)
    && (forall j, i :: 0 <= j < 4 && 0 <= i < |g[j]| ==> digit(g[j][i]))
  }

  /** The digits of `\d` are neither white space nor dots. */
  ghost predicate SaneDigits(digit: char -> bool) {
    forall c :: digit(c) ==> !IsSpace(c) && c != '.'
  }

  /** The domain pattern fits at the very start of the name: a dot with 2 to 200 characters
      before it is followed by two lower case letters. */
  ghost predicate FitsAtStart(name: string) {
    exists k: nat, e: nat :: DomainAt(name, 0, k, e)
  }

  /** The first eight atoms of the hosts pattern end at `o`, each as far as it can go. */
  ghost predicate HostShape(digit: char -> bool, line: string, o: seq<nat>) {
    && |o| == 8
    && FitsEach(digit, HOST[..8], line, 0, o)
    && (forall j :: 0 <= j < 8 && HOST[j] != DOT && o[j] < |line| ==> !In(digit, HOST[j].cls, line[o[j]]))
  }

  lemma {:induction false} HostAtoms()
    ensures |HOST| == 11 && Balanced(HOST)
    ensures HOST[0] == HOST[2] == HOST[4] == HOST[6] == DIGITS
    ensures HOST[1] == HOST[3] == HOST[5] == DOT
    ensures HOST[7] == SPACES
    ensures HOST[8] == DOMAIN[0] && HOST[9] == DOMAIN[1] && HOST[10] == DOMAIN[2]
  {
  }

  /** The last three atoms of a hosts match are a domain match. */
  lemma {:induction false} HostMatchEndsInDomain(digit: char -> bool, line: string, b: nat, ends: seq<nat>)
    requires Fits(digit, HOST, line, b, ends)
    ensures |ends| == 11 && ends[9] == ends[8] + 1 && DomainAt(line, ends[7], ends[8], ends[10])
  {
    HostAtoms();
    FitsIsEach(digit, HOST, line, b, ends);
    var d := [ends[8], ends[9], ends[10]];
    forall j | 0 <= j < 3
      ensures AtomFits(digit, DOMAIN[j], line, StartOf(ends[7], d, j), d[j])
    {
      assert AtomFits(digit, HOST[8 + j], line, StartOf(b, ends, 8 + j), ends[8 + j]);
    }
    FitsIsEach(digit, DOMAIN, line, ends[7], d);
    DomainFits(digit, line, ends[7], d);
  }

  lemma {:induction false} HostMatchFromShape(digit: char -> bool, line: string, o: seq<nat>, k: nat, e: nat)
    requires HostShape(digit, line, o) && DomainAt(line, o[7], k, e)
    ensures Fits(digit, HOST, line, 0, o + [k, k + 1, e])
  {
    HostAtoms();
    var ends := o + [k, k + 1, e];
    var d := [k, k + 1, e];
    DomainFits(digit, line, o[7], d);
    FitsIsEach(digit, DOMAIN, line, o[7], d);
    forall j | 0 <= j < 11
      ensures AtomFits(digit, HOST[j], line, StartOf(0, ends, j), ends[j])
    {
      if j < 8 {
        assert AtomFits(digit, HOST[..8][j], line, StartOf(0, o, j), o[j]);
      } else {
        assert AtomFits(digit, DOMAIN[j - 8], line, StartOf(o[7], d, j - 8), d[j - 8]);
      }
    }
    FitsIsEach(digit, HOST, line, 0, ends);
  }

  lemma {:induction false} AtomIsTight(digit: char -> bool, a: Atom, s: string, at: nat, end: nat, other: nat)
    requires a == DOT || (a.Run? && end < |s| ==> !In(digit, a.cls, s[end]))
    requires a.Run? && AtomFits(digit, a, s, at, end) && AtomFits(digit, a, s, at, other)
    ensures other <= end
  {
  }

  /** Atom by atom, no other match from the start gets further at the first difference. */
  lemma {:induction false} HostStep(digit: char -> bool, line: string, o: seq<nat>, k: nat, e: nat, other: seq<nat>, i: nat)
    requires HostShape(digit, line, o) && DomainAt(line, o[7], k, e)
    requires forall k0: nat, e0: nat :: DomainAt(line, o[7], k0, e0) ==> k0 < k || (k0 == k && e0 <= e)
    requires Fits(digit, HOST, line, 0, other) && |other| == 11
    requires i < 11 && (o + [k, k + 1, e])[..i] == other[..i]
    ensures (o + [k, k + 1, e])[i] >= other[i]
  {
    var ends := o + [k, k + 1, e];
    SamePrefix(ends, other, i);
    if i < 8 {
      QuadStep(digit, line, o, other, i);
    } else {
      HostMatchEndsInDomain(digit, line, 0, other);
    }
  }

  lemma {:induction false} SamePrefix(a: seq<nat>, b: seq<nat>, i: nat)
    requires i <= |a| && i <= |b| && a[..i] == b[..i]
    ensures forall j :: 0 <= j < i ==> a[j] == b[j]
  {
    assert forall j :: 0 <= j < i ==> a[..i][j] == a[j] && b[..i][j] == b[j];
  }

  lemma {:induction false} QuadStep(digit: char -> bool, line: string, o: seq<nat>, other: seq<nat>, i: nat)
    requires HostShape(digit, line, o) && Fits(digit, HOST, line, 0, other) && |other| == 11
    requires i < 8 && forall j :: 0 <= j < i ==> o[j] == other[j]
    ensures o[i] >= other[i]
  {
    HostAtoms();
    FitsIsEach(digit, HOST, line, 0, other);
    assert StartOf(0, other, i) == StartOf(0, o, i);
    assert AtomFits(digit, HOST[i], line, StartOf(0, o, i), other[i]);
    assert AtomFits(digit, HOST[..8][i], line, StartOf(0, o, i), o[i]);
    AtomIsTight(digit, HOST[i], line, StartOf(0, o, i), o[i], other[i]);
  }

  /** With a domain right after the white space, backtracking never happens. */
  lemma {:induction false} HostCapture(digit: char -> bool, line: string, o: seq<nat>, k: nat, e: nat)
    requires HostShape(digit, line, o) && DomainAt(line, o[7], k, e)
    requires forall k0: nat, e0: nat :: DomainAt(line, o[7], k0, e0) ==> k0 < k || (k0 == k && e0 <= e)
    ensures Find(digit, HOST, line) == Some((0, o + [k, k + 1, e]))
  {
    var ends := o + [k, k + 1, e];
    HostMatchFromShape(digit, line, o, k, e);
    forall other | Fits(digit, HOST, line, 0, other)
      ensures Greedier(ends, other)
    {
      HostMatchEndsInDomain(digit, line, 0, other);
      forall i | 0 <= i < |ends| && ends[..i] == other[..i]
        ensures ends[i] >= other[i]
      {
        HostStep(digit, line, o, k, e, other, i);
      }
      GreedierByPrefix(ends, other);
    }
    HostAtoms();
    FindIsCapture(digit, HOST, line);
  }

  function Quad(g: seq<string>): string
    requires |g| == 4
  {
    g[0] + "." + g[1] + "." + g[2] + "." + g[3]
  }

  function Offsets(g: seq<string>, ws: string): seq<nat>
    requires |g| == 4
  {
    var a, b, c := |g[0]|, |g[0]| + 1 + |g[1]|, |g[0]| + 1 + |g[1]| + 1 + |g[2]|;
    var d := c + 1 + |g[3]|;
    [a, a + 1, b, b + 1, c, c + 1, d, d + |ws|]
  }

  /** Address and white space of a hosts line, up to the first character of the rest. */
  ghost predicate HostLine(digit: char -> bool, g: seq<string>, ws: string, rest: string) {
    && DottedQuad(digit, g)
    && SaneDigits(digit)
    && ws != "" && AllSpace(ws)
    && (rest != "" ==> !IsSpace(rest[0]))
  }

  /** Characters of a line whose address ends at `q` and whose name starts at `w`. */
  ghost predicate Laid(line: string, q: nat, w: nat, rest: string) {
    && 0 < q < w
    && |line| == w + |rest|
    && (forall i :: 0 <= i < q ==> !IsSpace(line[i]))
    && (forall i :: q <= i < w ==> IsSpace(line[i]))
    && (forall i :: w <= i < |line| ==> line[i] == rest[i - w])
  }

  lemma {:induction false} QuadChars(digit: char -> bool, g: seq<string>)
    requires DottedQuad(digit, g)
    ensures var q, o := Quad(g), Offsets(g, "");
            && |q| == o[6]
            && q[o[0]] == '.' && q[o[2]] == '.' && q[o[4]] == '.'
            && (forall i :: 0 <= i < o[0] ==> digit(q[i]))
            && (forall i :: o[1] <= i < o[2] ==> digit(q[i]))
            && (forall i :: o[3] <= i < o[4] ==> digit(q[i]))
            && (forall i :: o[5] <= i < o[6] ==> digit(q[i]))
  {
    var q, o := Quad(g), Offsets(g, "");
    assert forall i :: 0 <= i < o[0] ==> q[i] == g[0][i];
    assert forall i :: o[1] <= i < o[2] ==> q[i] == g[1][i - o[1]];
    assert forall i :: o[3] <= i < o[4] ==> q[i] == g[2][i - o[3]];
    assert forall i :: o[5] <= i < o[6] ==> q[i] == g[3][i - o[5]];
  }

  lemma {:induction false} HostLineLaid(digit: char -> bool, g: seq<string>, ws: string, rest: string)
    requires HostLine(digit, g, ws, rest)
    ensures Laid(Quad(g) + ws + rest, Offsets(g, ws)[6], Offsets(g, ws)[7], rest)
  {
    QuadChars(digit, g);
    var line := Quad(g) + ws + rest;
    assert forall i :: 0 <= i < |Quad(g)| ==> line[i] == Quad(g)[i];
  }

  lemma {:induction false} DigitRun(digit: char -> bool, s: string, at: nat, end: nat)
    requires at < end <= at + 3 && end <= |s|
    requires forall i :: at <= i < end ==> digit(s[i])
    ensures AtomFits(digit, DIGITS, s, at, end)
  {
  }

  lemma {:induction false} HostLineShape(digit: char -> bool, g: seq<string>, ws: string, rest: string)
    requires HostLine(digit, g, ws, rest)
    ensures HostShape(digit, Quad(g) + ws + rest, Offsets(g, ws))
  {
    var line, o := Quad(g) + ws + rest, Offsets(g, ws);
    QuadChars(digit, g);
    assert forall i :: 0 <= i < o[6] ==> line[i] == Quad(g)[i];
    assert forall i :: o[6] <= i < o[7] ==> line[i] == ws[i - o[6]];
    assert rest != "" ==> line[o[7]] == rest[0];
    DigitRun(digit, line, 0, o[0]);
    DigitRun(digit, line, o[1], o[2]);
    DigitRun(digit, line, o[3], o[4]);
    DigitRun(digit, line, o[5], o[6]);
    ShapeFromRuns(digit, line, o);
  }

  lemma {:induction false} ShapeFromRuns(digit: char -> bool, line: string, o: seq<nat>)
    requires SaneDigits(digit) && |o| == 8 && o[7] <= |line|
    requires AtomFits(digit, DIGITS, line, 0, o[0]) && AtomFits(digit, DIGITS, line, o[1], o[2])
    requires AtomFits(digit, DIGITS, line, o[3], o[4]) && AtomFits(digit, DIGITS, line, o[5], o[6])
    requires o[1] == o[0] + 1 && o[3] == o[2] + 1 && o[5] == o[4] + 1 && o[6] < o[7]
    requires line[o[0]] == '.' && line[o[2]] == '.' && line[o[4]] == '.'
    requires forall i :: o[6] <= i < o[7] ==> IsSpace(line[i])
    requires o[7] < |line| ==> !IsSpace(line[o[7]])
    ensures HostShape(digit, line, o)
  {
    HostAtoms();
    var h := HOST[..8];
    assert h == [DIGITS, DOT, DIGITS, DOT, DIGITS, DOT, DIGITS, SPACES];
    DotFits(digit, line, o[0]);
    DotFits(digit, line, o[2]);
    DotFits(digit, line, o[4]);
    SpacesFit(digit, line, o[6], o[7]);
  }

  lemma {:induction false} DotFits(digit: char -> bool, s: string, at: nat)
    requires SaneDigits(digit) && at < |s| && s[at] == '.'
    ensures AtomFits(digit, DOT, s, at, at + 1) && !In(digit, DIGITS.cls, s[at])
  {
  }

  lemma {:induction false} SpacesFit(digit: char -> bool, s: string, at: nat, end: nat)
    requires SaneDigits(digit) && at < end <= |s| && forall i :: at <= i < end ==> IsSpace(s[i])
    ensures AtomFits(digit, SPACES, s, at, end) && !In(digit, DIGITS.cls, s[at])
    ensures end < |s| && !IsSpace(s[end]) ==> !In(digit, SPACES.cls, s[end])
  {
  }

  /** Matches of the domain pattern that start where the rest starts. */
  lemma {:induction false} DomainInRest(line: string, q: nat, w: nat, rest: string)
    requires Laid(line, q, w, rest)
    ensures forall k: nat, e: nat :: DomainAt(rest, 0, k, e) ==> DomainAt(line, w, k + w, e + w)
    ensures forall k: nat, e: nat :: DomainAt(line, w, k, e) ==> DomainAt(rest, 0, k - w, e - w)
  {
    assert forall i :: 0 <= i < |rest| ==> rest[i] == line[i + w];
  }

  lemma {:induction false} SpanFromStart(lib: Lib, rest: string) returns (k: nat, e: nat)
    requires FitsAtStart(rest)
    ensures DomainSpan(lib, rest) == Some((0, k, e)) && DomainAt(rest, 0, k, e)
    ensures forall k0: nat, e0: nat :: DomainAt(rest, 0, k0, e0) ==> k0 < k || (k0 == k && e0 <= e)
  {
    DomainSpanExact(lib, rest);
    var (_, k0, e0) := DomainSpan(lib, rest).value;
    k, e := k0, e0;
  }

  lemma {:induction false} HostGives(lib: Lib, line: string, o: seq<nat>, k: nat, e: nat)
    requires |o| == 8 && Find(lib.isDigit, HOST, line) == Some((0, o + [k, k + 1, e]))
    requires o[7] <= e <= |line|
    ensures HostDomain(lib, line) == ParseDomain(lib, Trim(line[o[7]..e]))
  {
    var ends := o + [k, k + 1, e];
    assert ends[7] == o[7] && ends[10] == e;
  }

  /** A span that starts where the rest starts is captured in the line. */
  lemma {:induction false} HostSpan(lib: Lib, g: seq<string>, ws: string, rest: string, e: nat, k: nat)
    requires HostLine(lib.isDigit, g, ws, rest) && DomainAt(rest, 0, k, e)
    requires forall k0: nat, e0: nat :: DomainAt(rest, 0, k0, e0) ==> k0 < k || (k0 == k && e0 <= e)
    ensures e <= |rest| && HostDomain(lib, Quad(g) + ws + rest) == ParseDomain(lib, Trim(rest[0..e]))
  {
    var line, o := Quad(g) + ws + rest, Offsets(g, ws);
    HostLineShape(lib.isDigit, g, ws, rest);
    HostLineLaid(lib.isDigit, g, ws, rest);
    DomainInRest(line, o[6], o[7], rest);
    HostCapture(lib.isDigit, line, o, k + o[7], e + o[7]);
    HostGives(lib, line, o, k + o[7], e + o[7]);
    assert line[o[7]..e + o[7]] == rest[0..e];
  }

  /** Rest matched from its start: the hosts line gives what the rest alone gives. */
  lemma {:induction false} HostFromStart(lib: Lib, g: seq<string>, ws: string, rest: string)
    requires HostLine(lib.isDigit, g, ws, rest) && FitsAtStart(rest)
    ensures HostDomain(lib, Quad(g) + ws + rest) == ParseDomain(lib, rest)
  {
    var k, e := SpanFromStart(lib, rest);
    HostSpan(lib, g, ws, rest, e, k);
    TrimCaptured(rest, k, e);
    Recapture(lib, rest);
  }

  lemma {:induction false} TrimCaptured(rest: string, k: nat, e: nat)
    requires DomainAt(rest, 0, k, e) && !IsSpace(rest[0])
    ensures Trim(rest[0..e]) == rest[0..e]
  {
    var captured := rest[0..e];
    assert captured[|captured| - 1] == rest[e - 1];
    TrimPrefixed("", captured);
    assert "" + captured == captured;
  }

  /** Where any match on a hosts line has its white space and its domain. */
  lemma {:induction false} HostMatchPlace(digit: char -> bool, line: string, q: nat, w: nat, rest: string, b: nat, ends: seq<nat>)
    requires Laid(line, q, w, rest) && NoSpace(rest) && SaneDigits(digit)
    requires Fits(digit, HOST, line, b, ends)
    ensures |ends| == 11
    ensures ends[6] == q && q < ends[7] <= w <= ends[8]
  {
    HostAtoms();
    HostMatchEndsInDomain(digit, line, b, ends);
    FitsIsEach(digit, HOST, line, b, ends);
    var x, y := ends[6], ends[7];
    assert AtomFits(digit, DIGITS, line, StartOf(b, ends, 6), x) by {
      assert AtomFits(digit, HOST[6], line, StartOf(b, ends, 6), ends[6]);
    }
    assert AtomFits(digit, SPACES, line, x, y) by {
      assert AtomFits(digit, HOST[7], line, StartOf(b, ends, 7), ends[7]);
    }
    assert digit(line[x - 1]) && IsSpace(line[x]);
    assert x == q;
    assert w < |line| ==> line[w] == rest[0];
    assert !IsSpace(line[ends[8]]);
  }

  /** Name not matched from its start: backtracking into the white space may still find
      something, but never anything that survives the second parse. */
  lemma {:induction false} HostNotFromStart(lib: Lib, line: string, q: nat, w: nat, name: string)
    requires Laid(line, q, w, name) && NoSpace(name) && SaneDigits(lib.isDigit)
    requires !FitsAtStart(name)
    ensures HostDomain(lib, line) == None
  {
    HostAtoms();
    FindIsCapture(lib.isDigit, HOST, line);
    match Find(lib.isDigit, HOST, line)
    case None =>
    case Some((b, ends)) =>
      HostMatchPlace(lib.isDigit, line, q, w, name, b, ends);
      HostMatchEndsInDomain(lib.isDigit, line, b, ends);
      ShiftedCapture(lib, line, q, w, name, ends[7], ends[8], ends[10]);
  }

  lemma {:induction false} ShiftedCapture(lib: Lib, line: string, q: nat, w: nat, name: string, x: nat, k: nat, e: nat)
    requires Laid(line, q, w, name) && NoSpace(name) && !FitsAtStart(name)
    requires q < x <= w <= k && DomainAt(line, x, k, e)
    ensures ParseDomain(lib, Trim(line[x..e])) == None
  {
    if k - w >= 2 {
      assert forall i :: 0 <= i < |name| ==> name[i] == line[i + w];
      assert DomainAt(name, 0, k - w, e - w);
    }
    assert k - w < 2;
    var kept := name[..e - w];
    assert line[x..e] == line[x..w] + kept;
    assert kept[|kept| - 1] == line[e - 1];
    TrimPrefixed(line[x..w], kept);
    assert forall i :: 2 <= i < |kept| ==> kept[i] == line[i + w];
    ShortNameIsSkipped(lib, kept);
  }

  /** The domain of a hosts line in terms of the name alone, for every name without spaces. */
  lemma {:induction false} HostLineMeansName(lib: Lib, g: seq<string>, ws: string, name: string)
    requires HostLine(lib.isDigit, g, ws, name) && NoSpace(name)
    ensures HostDomain(lib, Quad(g) + ws + name) == if FitsAtStart(name) then ParseDomain(lib, name) else None
  {
    if FitsAtStart(name) {
      HostFromStart(lib, g, ws, name);
    } else {
      HostLineLaid(lib.isDigit, g, ws, name);
      HostNotFromStart(lib, Quad(g) + ws + name, Offsets(g, ws)[6], Offsets(g, ws)[7], name);
    }
  }

  /** Hosts and domain lists agree on a name exactly when the name is matched from its start
      or not matched at all. */
  lemma {:induction false} HostAgreesIff(lib: Lib, g: seq<string>, ws: string, name: string)
    requires HostLine(lib.isDigit, g, ws, name) && NoSpace(name)
    ensures HostDomain(lib, Quad(g) + ws + name) == ParseDomain(lib, name)
       <==> FitsAtStart(name) || ParseDomain(lib, name) == None
  {
    HostLineMeansName(lib, g, ws, name);
  }

  lemma {:induction false} WholeFitsAtStart(name: string, k: nat)
    requires WholeAt(name, k) && '\n' !in name
    ensures FitsAtStart(name)
  {
    assert forall i :: k < i < |name| ==> name[i] == name[k + 1..][i - k - 1];
    assert DomainAt(name, 0, k, |name|);
  }

  /** In particular they agree on every whole name, and keep a stable one as it is. */
  lemma {:induction false} HostWholeName(lib: Lib, g: seq<string>, ws: string, name: string)
    requires HostLine(lib.isDigit, g, ws, name) && NoSpace(name) && WholeName(name)
    ensures HostDomain(lib, Quad(g) + ws + name) == ParseDomain(lib, name)
    ensures !StartsWith(name, "*.") ==>
      HostDomain(lib, Quad(g) + ws + name) == if lib.accepts(name) then lib.toAscii(name) else None
    ensures Stable(lib, name) ==> HostDomain(lib, Quad(g) + ws + name) == Some(name)
  {
    var k: nat :| WholeAt(name, k);
    WholeFitsAtStart(name, k);
    HostFromStart(lib, g, ws, name);
    ParseWholeName(lib, name);
    if Stable(lib, name) {
      ParseStable(lib, name);
    }
  }

  // ---------- every line ----------

  /** One to three digits. */
  ghost predicate Group(digit: char -> bool, s: string, at: nat, end: nat) {
    at + 1 <= end <= at + 3 && end <= |s| && forall i :: at <= i < end ==> digit(s[i])
  }

  /** A hosts match in plain terms: four groups with dots between them, white space, a domain. */
  ghost predicate HostMatch(digit: char -> bool, s: string, b: nat, m: seq<nat>) {
    && |m| == 11
    && Group(digit, s, b, m[0]) && m[0] < |s| && s[m[0]] == '.' && m[1] == m[0] + 1
    && Group(digit, s, m[1], m[2]) && m[2] < |s| && s[m[2]] == '.' && m[3] == m[2] + 1
    && Group(digit, s, m[3], m[4]) && m[4] < |s| && s[m[4]] == '.' && m[5] == m[4] + 1
    && Group(digit, s, m[5], m[6])
    && m[6] < m[7] <= |s| && (forall i :: m[6] <= i < m[7] ==> IsSpace(s[i]))
    && m[9] == m[8] + 1 && DomainAt(s, m[7], m[8], m[10])
  }

  lemma {:induction false} DigitsFit(digit: char -> bool, s: string, at: nat, end: nat)
    ensures AtomFits(digit, DIGITS, s, at, end) <==> Group(digit, s, at, end)
  {
  }

  lemma {:induction false} DotIs(digit: char -> bool, s: string, at: nat, end: nat)
    ensures AtomFits(digit, DOT, s, at, end) <==> at < |s| && s[at] == '.' && end == at + 1
  {
  }

  lemma {:induction false} SpacesAre(digit: char -> bool, s: string, at: nat, end: nat)
    ensures AtomFits(digit, SPACES, s, at, end) <==> at < end <= |s| && forall i :: at <= i < end ==> IsSpace(s[i])
  {
  }

  lemma {:induction false} HostFitsThenMatch(digit: char -> bool, s: string, b: nat, m: seq<nat>)
    requires Fits(digit, HOST, s, b, m)
    ensures HostMatch(digit, s, b, m)
  {
    HostAtoms();
    HostMatchEndsInDomain(digit, s, b, m);
    FitsIsEach(digit, HOST, s, b, m);
    assert AtomFits(digit, HOST[0], s, StartOf(b, m, 0), m[0]) && AtomFits(digit, HOST[1], s, StartOf(b, m, 1), m[1]);
    assert AtomFits(digit, HOST[2], s, StartOf(b, m, 2), m[2]) && AtomFits(digit, HOST[3], s, StartOf(b, m, 3), m[3]);
    assert AtomFits(digit, HOST[4], s, StartOf(b, m, 4), m[4]) && AtomFits(digit, HOST[5], s, StartOf(b, m, 5), m[5]);
    assert AtomFits(digit, HOST[6], s, StartOf(b, m, 6), m[6]) && AtomFits(digit, HOST[7], s, StartOf(b, m, 7), m[7]);
    DigitsFit(digit, s, b, m[0]);
    DigitsFit(digit, s, m[1], m[2]);
    DigitsFit(digit, s, m[3], m[4]);
    DigitsFit(digit, s, m[5], m[6]);
    DotIs(digit, s, m[0], m[1]);
    DotIs(digit, s, m[2], m[3]);
    DotIs(digit, s, m[4], m[5]);
    SpacesAre(digit, s, m[6], m[7]);
  }

  lemma {:induction false} HostMatchThenFits(digit: char -> bool, s: string, b: nat, m: seq<nat>)
    requires HostMatch(digit, s, b, m)
    ensures Fits(digit, HOST, s, b, m)
  {
    HostAtoms();
    DigitsFit(digit, s, b, m[0]);
    DigitsFit(digit, s, m[1], m[2]);
    DigitsFit(digit, s, m[3], m[4]);
    DigitsFit(digit, s, m[5], m[6]);
    DotIs(digit, s, m[0], m[1]);
    DotIs(digit, s, m[2], m[3]);
    DotIs(digit, s, m[4], m[5]);
    SpacesAre(digit, s, m[6], m[7]);
    DomainPartFits(digit, s, b, m);
    FitsIsEach(digit, HOST, s, b, m);
  }

  lemma {:induction false} DomainPartFits(digit: char -> bool, s: string, b: nat, m: seq<nat>)
    requires |m| == 11 && m[9] == m[8] + 1 && DomainAt(s, m[7], m[8], m[10])
    ensures forall j :: 8 <= j < 11 ==> AtomFits(digit, HOST[j], s, StartOf(b, m, j), m[j])
  {
    HostAtoms();
    var d := [m[8], m[9], m[10]];
    DomainFits(digit, s, m[7], d);
    FitsIsEach(digit, DOMAIN, s, m[7], d);
    forall j | 8 <= j < 11
      ensures AtomFits(digit, HOST[j], s, StartOf(b, m, j), m[j])
    {
      assert AtomFits(digit, DOMAIN[j - 8], s, StartOf(m[7], d, j - 8), d[j - 8]);
    }
  }

  /** The leftmost match, and from there the greediest. */
  ghost predicate FirstHost(digit: char -> bool, s: string, b: nat, m: seq<nat>) {
    && HostMatch(digit, s, b, m)
    && (forall other :: HostMatch(digit, s, b, other) ==> Greedier(m, other))
    && (forall c: nat, other :: c < b ==> !HostMatch(digit, s, c, other))
  }

  /** Exactly what a line gives: nothing if the pattern fits nowhere; else the address and the
      parsed domain of its leftmost and then greediest match, if the domain parses. */
  lemma {:induction false} ParseHostExact(lib: Lib, s: string)
    ensures (forall b: nat, m :: !HostMatch(lib.isDigit, s, b, m)) ==> ParseHost(lib, s) == None
    ensures forall b: nat, m :: FirstHost(lib.isDigit, s, b, m) ==>
              ParseHost(lib, s) == match ParseDomain(lib, Trim(s[m[7]..m[10]]))
                                   case Some(domain) => Some(Host(Trim(s[b..m[6]]), domain))
                                   case None => None
  {
    HostAtoms();
    FindIsCapture(lib.isDigit, HOST, s);
    forall b: nat, m
      ensures Fits(lib.isDigit, HOST, s, b, m) <==> HostMatch(lib.isDigit, s, b, m)
    {
      if Fits(lib.isDigit, HOST, s, b, m) {
        HostFitsThenMatch(lib.isDigit, s, b, m);
      }
      if HostMatch(lib.isDigit, s, b, m) {
        HostMatchThenFits(lib.isDigit, s, b, m);
      }
    }
    forall b: nat, m | FirstHost(lib.isDigit, s, b, m)
      ensures Find(lib.isDigit, HOST, s) == Some((b, m))
    {
      assert IsCapture(lib.isDigit, HOST, s, b, m);
    }
  }

  /** In particular a line without a digit right before white space gives nothing. */
  lemma {:induction false} NoAddressNoRule(lib: Lib, s: string)
    requires forall i :: 0 < i < |s| && IsSpace(s[i]) ==> !lib.isDigit(s[i - 1])
    ensures ParseHost(lib, s) == None && HostDomain(lib, s) == None
  {
    forall b: nat, m
      ensures HostMatch(lib.isDigit, s, b, m) ==> IsSpace(s[m[6]]) && lib.isDigit(s[m[6] - 1])
    {
    }
    ParseHostExact(lib, s);
  }

  // ---------- trailing comments ----------

  /** Taking the wildcard labels out of a text leaves its white space in. */
  lemma {:induction false} SpaceStays(s: string)
    requires !NoSpace(s)
    ensures !NoSpace(ReplaceAll(s, "*.", ""))
  {
    if StartsWith(s, "*.") {
      assert s[..2][0] == s[0] && s[..2][1] == s[1];
      assert !NoSpace(s[2..]) by {
        var i :| 0 <= i < |s| && IsSpace(s[i]);
        assert s[2..][i - 2] == s[i];
      }
      SpaceStays(s[2..]);
      DropFirst(s, "*.");
    } else {
      var kept := ReplaceAll(s[1..], "*.", "");
      assert ReplaceAll(s, "*.", "") == [s[0]] + kept;
      if IsSpace(s[0]) {
        assert ([s[0]] + kept)[0] == s[0];
      } else {
        assert !NoSpace(s[1..]) by {
          var i :| 0 <= i < |s| && IsSpace(s[i]);
          assert s[1..][i - 1] == s[i];
        }
        SpaceStays(s[1..]);
        var i :| 0 <= i < |kept| && IsSpace(kept[i]);
        assert ([s[0]] + kept)[i + 1] == kept[i];
      }
    }
  }

  lemma {:induction false} SpacedNameIsRejected(lib: Lib, text: string)
    requires !NoSpace(text) && RejectsSpaces(lib)
    ensures Clean(lib, text) == None
  {
    SpaceStays(text);
  }

  ghost predicate RejectsSpaces(lib: Lib) {
    forall n :: !NoSpace(n) ==> !lib.accepts(n)
  }

  /** From the `from`-th character on, and among the first 201, there is a dot followed by two
      lower case letters. */
  ghost predicate DottedLater(rest: string, from: nat) {
    exists k: nat :: from <= k <= 200 && k + 2 < |rest| && DottedAt(rest, k)
  }

  predicate DottedAt(s: string, k: nat)
    requires k + 2 < |s|
  {
    s[k] == '.' && IsLower(s[k + 1]) && IsLower(s[k + 2])
  }

  /** A tail without such a dot is not captured. */
  lemma {:induction false} SpanStays(name: string, tail: string, k: nat, e: nat)
    requires tail != "" && IsSpace(tail[0]) && !DottedLater(name + tail, |name|)
    requires DomainAt(name + tail, 0, k, e)
    ensures DomainAt(name, 0, k, e)
  {
    var rest := name + tail;
    assert rest[|name|] == tail[0];
    assert DottedAt(rest, k);
    assert k < |name|;
    assert e <= |name|;
    assert forall i :: 0 <= i < |name| ==> rest[i] == name[i];
  }

  lemma {:induction false} SpanGrows(name: string, tail: string, k: nat, e: nat)
    requires DomainAt(name, 0, k, e)
    ensures DomainAt(name + tail, 0, k, e)
  {
    assert forall i :: 0 <= i < |name| ==> (name + tail)[i] == name[i];
  }

  /** With such a dot the greedy capture goes on into the tail. */
  lemma {:induction false} TailIsCaptured(lib: Lib, name: string, tail: string)
    requires NoSpace(name) && name != "" && RejectsSpaces(lib)
    requires tail != "" && IsSpace(tail[0]) && '\n' !in tail && DottedLater(name + tail, |name|)
    ensures FitsAtStart(name + tail) && ParseDomain(lib, name + tail) == None
  {
    var rest := name + tail;
    var k0: nat :| |name| <= k0 <= 200 && k0 + 2 < |rest| && DottedAt(rest, k0);
    assert DomainAt(rest, 0, k0, k0 + 3) by {
      assert forall i :: 0 <= i < |name| ==> !IsSpace(name[i]);
      assert '\n' !in rest;
    }
    var k, e := SpanFromStart(lib, rest);
    assert k >= k0;
    assert rest[0..e][|name|] == tail[0];
    SpacedNameIsRejected(lib, rest[0..e]);
  }

  lemma {:induction false} TailIsIgnored(lib: Lib, name: string, tail: string)
    requires FitsAtStart(name) && tail != "" && IsSpace(tail[0]) && !DottedLater(name + tail, |name|)
    ensures FitsAtStart(name + tail) && ParseDomain(lib, name + tail) == ParseDomain(lib, name)
  {
    var rest := name + tail;
    var k, e := SpanFromStart(lib, name);
    SpanGrows(name, tail, k, e);
    var k1, e1 := SpanFromStart(lib, rest);
    SpanStays(name, tail, k1, e1);
    assert k1 == k && e1 == e;
    assert rest[0..e] == name[0..e];
  }

  /** A dot followed by two lower case letters after the name, at most 200 characters from
      its start: the greedy capture runs on to that dot and the line gives nothing, if names
      with spaces are rejected. */
  lemma {:induction false} DottedCommentLosesLine(lib: Lib, g: seq<string>, ws: string, name: string, tail: string)
    requires HostLine(lib.isDigit, g, ws, name) && NoSpace(name) && name != "" && RejectsSpaces(lib)
    requires tail != "" && IsSpace(tail[0]) && '\n' !in tail && DottedLater(name + tail, |name|)
    ensures HostDomain(lib, Quad(g) + ws + (name + tail)) == None
  {
    TailIsCaptured(lib, name, tail);
    assert (name + tail)[0] == name[0];
    HostFromStart(lib, g, ws, name + tail);
  }

  /** What follows a name on a hosts line, a comment for instance, leaves the rule of the line
      as it is exactly when there was none or no such dot follows. */
  lemma {:induction false} TrailingTextIff(lib: Lib, g: seq<string>, ws: string, name: string, tail: string)
    requires HostLine(lib.isDigit, g, ws, name) && NoSpace(name) && FitsAtStart(name)
    requires tail != "" && IsSpace(tail[0]) && '\n' !in tail && RejectsSpaces(lib)
    ensures HostDomain(lib, Quad(g) + ws + (name + tail)) == HostDomain(lib, Quad(g) + ws + name)
       <==> ParseDomain(lib, name) == None || !DottedLater(name + tail, |name|)
  {
    HostFromStart(lib, g, ws, name);
    assert name != "" && (name + tail)[0] == name[0];
    if DottedLater(name + tail, |name|) {
      DottedCommentLosesLine(lib, g, ws, name, tail);
    } else {
      TailIsIgnored(lib, name, tail);
      HostFromStart(lib, g, ws, name + tail);
    }
  }
}
