/** The regular expressions of the line parsers, with the leftmost, greedy, backtracking
    meaning of the regex engine: the search below is proved to return the leftmost start
    and, from that start, the lexicographically greatest vector of repetition ends. */
module Regex {
  import opened Text

  /** `.`, `[a-z]`, `\s`, `\d` and a literal character. */
  datatype Class = AnyChar | Lower | Space | Digit | Exactly(c: char)

  /** `Run` is a greedy repetition of a class, `hi == None` meaning no upper bound.
      `Either` is an alternation of two words of one length, so that which of them comes
      first cannot change where it ends. */
  datatype Atom =
    | Run(cls: Class, lo: nat, hi: Option<nat>)
    | Either(left: string, right: string)

  type Pattern = seq<Atom>

  /** A class decides each character; `\d` is Unicode decimal digits, kept abstract. */
  predicate In(digit: char -> bool, cls: Class, c: char) {
    match cls
    case AnyChar => c != '\n'
    case Lower => IsLower(c)
    case Space => IsSpace(c)
    case Digit => digit(c)
    case Exactly(d) => c == d
  }

  predicate Balanced(p: Pattern) {
    forall i :: 0 <= i < |p| && p[i].Either? ==> |p[i].left| == |p[i].right|
  }

  /** Length of the longest run of `cls` that starts at `at`. */
  function RunLength(digit: char -> bool, cls: Class, s: string, at: nat): (n: nat)
    requires at <= |s|
    ensures at + n <= |s|
    ensures forall i :: at <= i < at + n ==> In(digit, cls, s[i])
    ensures at + n < |s| ==> !In(digit, cls, s[at + n])
    decreases |s| - at
  {
    if at < |s| && In(digit, cls, s[at]) then 1 + RunLength(digit, cls, s, at + 1) else 0
  }

  /** The backtracking search: where each atom of `p` ends when matching from `at`. */
  function Search(digit: char -> bool, p: Pattern, s: string, at: nat): Option<seq<nat>>
    requires at <= |s|
    decreases |p|, 0
  {
    if p == [] then Some([])
    else
      match p[0]
      case Run(cls, lo, hi) =>
        var longest := RunLength(digit, cls, s, at);
        Retreat(digit, p, s, at, if hi.Some? && hi.value < longest then hi.value else longest)
      case Either(left, right) =>
        if StartsWith(s[at..], left) || StartsWith(s[at..], right) then
          var end := at + if StartsWith(s[at..], left) then |left| else |right|;
          match Search(digit, p[1..], s, end)
          case Some(ends) => Some([end] + ends)
          case None => None
        else None
  }

  /** Try `n` repetitions of the first atom, then one fewer, down to its lower bound. */
  function Retreat(digit: char -> bool, p: Pattern, s: string, at: nat, n: nat): Option<seq<nat>>
    requires p != [] && p[0].Run? && at + n <= |s|
    decreases |p|, 0, n
  {
    if n < p[0].lo then None
    else
      match Search(digit, p[1..], s, at + n)
      case Some(ends) => Some([at + n] + ends)
      case None => if n == 0 then None else Retreat(digit, p, s, at, n - 1)
  }

  /** First start, from `from` on, at which the search succeeds. */
  function FindFrom(digit: char -> bool, p: Pattern, s: string, from: nat): Option<(nat, seq<nat>)>
    requires from <= |s|
    decreases |s| - from
  {
    match Search(digit, p, s, from)
    case Some(ends) => Some((from, ends))
    case None => if from == |s| then None else FindFrom(digit, p, s, from + 1)
  }

  function Find(digit: char -> bool, p: Pattern, s: string): Option<(nat, seq<nat>)> {
    FindFrom(digit, p, s, 0)
  }

  // ---------- what a match is, without saying how it is found ----------

  predicate AtomFits(digit: char -> bool, a: Atom, s: string, at: nat, end: nat) {
    && at <= end <= |s|
    && match a
       case Run(cls, lo, hi) =>
         && lo <= end - at
         && (hi.Some? ==> end - at <= hi.value)
         && forall i :: at <= i < end ==> In(digit, cls, s[i])
       case Either(left, right) => s[at..end] == left || s[at..end] == right
  }

  predicate Fits(digit: char -> bool, p: Pattern, s: string, at: nat, ends: seq<nat>) {
    if p == [] then ends == []
    else
      && ends != []
      && AtomFits(digit, p[0], s, at, ends[0])
      && Fits(digit, p[1..], s, ends[0], ends[1..])
  }

  /** `a` gives each repetition, first to last, at least as much as `b` does. */
  predicate Greedier(a: seq<nat>, b: seq<nat>) {
    if a == [] || b == [] then a == [] && b == []
    else a[0] > b[0] || (a[0] == b[0] && Greedier(a[1..], b[1..]))
  }

  ghost predicate IsCapture(digit: char -> bool, p: Pattern, s: string, start: nat, ends: seq<nat>) {
    && start <= |s|
    && Fits(digit, p, s, start, ends)
    && (forall other :: Fits(digit, p, s, start, other) ==> Greedier(ends, other))
    && (forall b: nat, other :: b < start ==> !Fits(digit, p, s, b, other))
  }

  lemma {:induction false} SearchFits(digit: char -> bool, p: Pattern, s: string, at: nat)
    requires at <= |s| && Search(digit, p, s, at).Some?
    ensures Fits(digit, p, s, at, Search(digit, p, s, at).value)
    decreases |p|, 0
  {
    if p == [] {
    } else {
      match p[0]
      case Run(cls, lo, hi) =>
        var longest := RunLength(digit, cls, s, at);
        RetreatFits(digit, p, s, at, if hi.Some? && hi.value < longest then hi.value else longest);
      case Either(left, right) =>
        var end := at + if StartsWith(s[at..], left) then |left| else |right|;
        assert s[at..][..end - at] == s[at..end];
        SearchFits(digit, p[1..], s, end);
        var ends := Search(digit, p[1..], s, end).value;
        assert ([end] + ends)[1..] == ends;
    }
  }

  lemma {:induction false} RetreatFits(digit: char -> bool, p: Pattern, s: string, at: nat, n: nat)
    requires p != [] && p[0].Run? && at + n <= |s| && n <= RunLength(digit, p[0].cls, s, at)
    requires p[0].hi.Some? ==> n <= p[0].hi.value
    requires Retreat(digit, p, s, at, n).Some?
    ensures Fits(digit, p, s, at, Retreat(digit, p, s, at, n).value)
    decreases |p|, 0, n
  {
    match Search(digit, p[1..], s, at + n)
    case Some(ends) =>
      SearchFits(digit, p[1..], s, at + n);
      assert ([at + n] + ends)[1..] == ends;
    case None => RetreatFits(digit, p, s, at, n - 1);
  }

  /** Whatever fits, the search finds something, and nothing greedier fits. */
  lemma {:induction false} SearchGreatest(digit: char -> bool, p: Pattern, s: string, at: nat, ends: seq<nat>)
    requires Balanced(p) && at <= |s| && Fits(digit, p, s, at, ends)
    ensures Search(digit, p, s, at).Some?
    ensures Greedier(Search(digit, p, s, at).value, ends)
    decreases |p|, 0
  {
    if p == [] {
    } else {
      match p[0]
      case Run(cls, lo, hi) =>
        var longest := RunLength(digit, cls, s, at);
        assert at + longest < |s| ==> !In(digit, cls, s[at + longest]);
        RetreatGreatest(digit, p, s, at, if hi.Some? && hi.value < longest then hi.value else longest, ends);
      case Either(left, right) =>
        assert |left| == |right|;
        assert s[at..][..ends[0] - at] == s[at..ends[0]];
        var end := at + if StartsWith(s[at..], left) then |left| else |right|;
        SearchGreatest(digit, p[1..], s, end, ends[1..]);
        var rest := Search(digit, p[1..], s, end).value;
        assert ([end] + rest)[1..] == rest;
    }
  }

  lemma {:induction false} RetreatGreatest(digit: char -> bool, p: Pattern, s: string, at: nat, n: nat, ends: seq<nat>)
    requires Balanced(p) && p != [] && p[0].Run? && at + n <= |s|
    requires Fits(digit, p, s, at, ends) && ends[0] <= at + n
    ensures Retreat(digit, p, s, at, n).Some?
    ensures Greedier(Retreat(digit, p, s, at, n).value, ends)
    decreases |p|, 0, n
  {
    if ends[0] == at + n {
      SearchGreatest(digit, p[1..], s, at + n, ends[1..]);
    }
    match Search(digit, p[1..], s, at + n)
    case Some(rest) => assert ([at + n] + rest)[1..] == rest;
    case None => RetreatGreatest(digit, p, s, at, n - 1, ends);
  }

  lemma {:induction false} GreedierAntisymmetric(a: seq<nat>, b: seq<nat>)
    requires Greedier(a, b) && Greedier(b, a)
    ensures a == b
  {
    if a == [] {
    } else {
      GreedierAntisymmetric(a[1..], b[1..]);
      assert a == [a[0]] + a[1..];
      assert b == [b[0]] + b[1..];
    }
  }

  lemma {:induction false} FindFromIsCapture(digit: char -> bool, p: Pattern, s: string, from: nat)
    requires Balanced(p) && from <= |s|
    requires forall b: nat, other :: b < from ==> !Fits(digit, p, s, b, other)
    ensures match FindFrom(digit, p, s, from)
            case Some((start, ends)) => IsCapture(digit, p, s, start, ends)
            case None => forall b: nat, other :: b <= |s| ==> !Fits(digit, p, s, b, other)
    decreases |s| - from
  {
    forall other | Fits(digit, p, s, from, other)
      ensures Search(digit, p, s, from).Some? && Greedier(Search(digit, p, s, from).value, other)
    {
      SearchGreatest(digit, p, s, from, other);
    }
    match Search(digit, p, s, from)
    case Some(_) => SearchFits(digit, p, s, from);
    case None =>
      if from < |s| {
        FindFromIsCapture(digit, p, s, from + 1);
      }
  }

  /** The search and the declarative reading agree: a match is found exactly when it is the
      leftmost and greediest one, and none is found exactly when nothing fits anywhere. */
  lemma {:induction false} FindIsCapture(digit: char -> bool, p: Pattern, s: string)
    requires Balanced(p)
    ensures forall start: nat, ends :: Find(digit, p, s) == Some((start, ends)) <==> IsCapture(digit, p, s, start, ends)
    ensures Find(digit, p, s).Some? <==> exists b: nat, ends: seq<nat> :: b <= |s| && Fits(digit, p, s, b, ends)
  {
    FindFromIsCapture(digit, p, s, 0);
    match Find(digit, p, s)
    case None =>
    case Some((b, e)) =>
      assert b <= |s| && Fits(digit, p, s, b, e);
      assert exists c: nat, ends: seq<nat> :: c <= |s| && Fits(digit, p, s, c, ends);
      forall start: nat, ends | IsCapture(digit, p, s, start, ends)
        ensures start == b && ends == e
      {
        assert start == b;
        GreedierAntisymmetric(ends, e);
      }
  }

  // ---------- unfolding a match atom by atom ----------

  function StartOf(at: nat, ends: seq<nat>, i: nat): nat
    requires i <= |ends|
  {
    if i == 0 then at else ends[i - 1]
  }

  /** Atom `i` of a pattern fits between the end before it and its own end. */
  predicate FitsEach(digit: char -> bool, p: Pattern, s: string, at: nat, ends: seq<nat>) {
    && |ends| == |p|
    && forall i :: 0 <= i < |p| ==> AtomFits(digit, p[i], s, StartOf(at, ends, i), ends[i])
  }

  lemma {:induction false} FitsIsEach(digit: char -> bool, p: Pattern, s: string, at: nat, ends: seq<nat>)
    ensures Fits(digit, p, s, at, ends) <==> FitsEach(digit, p, s, at, ends)
  {
    if p == [] || ends == [] {
    } else {
      FitsIsEach(digit, p[1..], s, ends[0], ends[1..]);
      if FitsEach(digit, p, s, at, ends) {
        forall i | 0 <= i < |p[1..]|
          ensures AtomFits(digit, p[1..][i], s, StartOf(ends[0], ends[1..], i), ends[1..][i])
        {
          assert AtomFits(digit, p[i + 1], s, StartOf(at, ends, i + 1), ends[i + 1]);
        }
        assert AtomFits(digit, p[0], s, StartOf(at, ends, 0), ends[0]);
      } else if Fits(digit, p, s, at, ends) {
        forall i | 0 <= i < |p|
          ensures AtomFits(digit, p[i], s, StartOf(at, ends, i), ends[i])
        {
          if i > 0 {
            assert AtomFits(digit, p[1..][i - 1], s, StartOf(ends[0], ends[1..], i - 1), ends[1..][i - 1]);
          }
        }
      }
    }
  }

  lemma {:induction false} FitsOrdered(digit: char -> bool, p: Pattern, s: string, at: nat, ends: seq<nat>)
    requires Fits(digit, p, s, at, ends)
    ensures |ends| == |p|
    ensures forall i :: 0 <= i < |ends| ==> at <= ends[i] <= |s|
    ensures forall i, j :: 0 <= i < j < |ends| ==> ends[i] <= ends[j]
  {
    if p == [] {
    } else {
      FitsOrdered(digit, p[1..], s, ends[0], ends[1..]);
      assert forall i :: 1 <= i < |ends| ==> ends[i] == ends[1..][i - 1];
    }
  }

  /** To be greedier it is enough never to be behind at the first difference. */
  lemma {:induction false} GreedierByPrefix(a: seq<nat>, b: seq<nat>)
    requires |a| == |b|
    requires forall i :: 0 <= i < |a| && a[..i] == b[..i] ==> a[i] >= b[i]
    ensures Greedier(a, b)
  {
    if a == [] {
    } else {
      assert a[..0] == b[..0];
      if a[0] == b[0] {
        forall i | 0 <= i < |a[1..]| && a[1..][..i] == b[1..][..i]
          ensures a[1..][i] >= b[1..][i]
        {
          assert a[..i + 1] == [a[0]] + a[1..][..i];
          assert b[..i + 1] == [b[0]] + b[1..][..i];
        }
        GreedierByPrefix(a[1..], b[1..]);
      }
    }
  }
}
