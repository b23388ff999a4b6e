/** The three line parsers: plain domain lists, hosts files and zone files. */
module Parsers {
  import opened Text
  import opened Regex

  /** What the parsers need from libraries: Unicode decimal digits (`\d`), the names that
      `parse_domain_name` accepts (it gives an accepted name back unchanged) and the result
      of `domain_to_ascii`. Nothing is assumed about them except where a lemma says so. */
  datatype Lib = Lib(isDigit: char -> bool, accepts: string -> bool, toAscii: string -> Option<string>)

  datatype Host = Host(ip: string, domain: string)

  datatype CName = CName(domain: string, alias: string)

  const DOT: Atom := Run(Exactly('.'), 1, Some(1))
  const DIGITS: Atom := Run(Digit, 1, Some(3))
  const SPACES: Atom := Run(Space, 1, None)
  const CNAME_KEYWORD: Atom := Either("CNAME", "cname")

  /** `.{2,200}\.[a-z]{2,6}` */
  const DOMAIN: Pattern := [Run(AnyChar, 2, Some(200)), DOT, Run(Lower, 2, Some(6))]

  /** Four groups of digits, white space and a domain; the address is atoms 0 to 6. */
  const HOST: Pattern := [DIGITS, DOT, DIGITS, DOT, DIGITS, DOT, DIGITS, SPACES] + DOMAIN

  /** A domain, the keyword between white space, and a domain followed by a dot. */
  const ZONE: Pattern := DOMAIN + [SPACES, CNAME_KEYWORD, SPACES] + DOMAIN + [DOT]

  // ---------- the parsers ----------

  /** What `parse_domain` does with the captured text. */
  function Clean(lib: Lib, raw: string): Option<string> {
    var parsed :=
      if StartsWith(raw, "*.") then
        var bare := ReplaceAll(raw, "*.", "");
        if lib.accepts(bare) then Some("*." + bare) else None
      else if lib.accepts(raw) then Some(Trim(raw)) else None;
    match parsed
    case Some(d) => lib.toAscii(Trim(d))
    case None => None
  }

  /** Start, dot and end of the domain found in a text. */
  function DomainSpan(lib: Lib, s: string): (r: Option<(nat, nat, nat)>)
    ensures r.Some? ==> var (b, k, e) := r.value; b <= k <= e <= |s|
  {
    match Find(lib.isDigit, DOMAIN, s)
    case Some((b, ends)) =>
      FindIsCapture(lib.isDigit, DOMAIN, s);
      DomainFits(lib.isDigit, s, b, ends);
      Some((b, ends[0], ends[2]))
    case None => None
  }

  function ParseDomain(lib: Lib, s: string): Option<string> {
    match DomainSpan(lib, s)
    case Some((b, _, e)) => Clean(lib, s[b..e])
    case None => None
  }

  function ParseHost(lib: Lib, s: string): Option<Host> {
    match Find(lib.isDigit, HOST, s)
    case Some((b, ends)) =>
      FindIsCapture(lib.isDigit, HOST, s);
      FitsOrdered(lib.isDigit, HOST, s, b, ends);
      (match ParseDomain(lib, Trim(s[ends[7]..ends[10]]))
       case Some(domain) => Some(Host(Trim(s[b..ends[6]]), domain))
       case None => None)
    case None => None
  }

  function ParseCName(lib: Lib, s: string): Option<CName> {
    match Find(lib.isDigit, ZONE, s)
    case Some((b, ends)) =>
      FindIsCapture(lib.isDigit, ZONE, s);
      FitsOrdered(lib.isDigit, ZONE, s, b, ends);
      (match (ParseDomain(lib, Trim(s[b..ends[2]])), ParseDomain(lib, Trim(s[ends[5]..ends[8]])))
       case (Some(domain), Some(alias)) => Some(CName(domain, alias))
       case _ => None)
    case None => None
  }

  // ---------- unfolding matches ----------

  /** A domain match with its dot at `k`: 2 to 200 characters, the dot, 2 to 6 letters. */
  ghost predicate DomainAt(s: string, b: nat, k: nat, e: nat) {
    && b + 2 <= k <= b + 200
    && k + 3 <= e <= k + 7
    && e <= |s|
    && s[k] == '.'
    && (forall i :: b <= i < k ==> s[i] != '\n')
    && (forall i :: k < i < e ==> IsLower(s[i]))
  }

  lemma {:induction false} DomainFits(digit: char -> bool, s: string, b: nat, ends: seq<nat>)
    ensures Fits(digit, DOMAIN, s, b, ends)
       <==> |ends| == 3 && ends[1] == ends[0] + 1 && DomainAt(s, b, ends[0], ends[2])
  {
    FitsIsEach(digit, DOMAIN, s, b, ends);
    if |ends| == 3 {
      var d := DOMAIN;
      assert FitsEach(digit, d, s, b, ends)
        <==> && AtomFits(digit, d[0], s, StartOf(b, ends, 0), ends[0])
             && AtomFits(digit, d[1], s, StartOf(b, ends, 1), ends[1])
             && AtomFits(digit, d[2], s, StartOf(b, ends, 2), ends[2]);
    }
  }

  // ---------- what a domain line captures ----------

  /** Leftmost start, then furthest dot within reach that is followed by at least two lower
      case letters, then as many letters as there are, six at most. */
  ghost predicate IsDomainSpan(s: string, b: nat, k: nat, e: nat) {
    && DomainAt(s, b, k, e)
    && (forall b0: nat, k0: nat, e0: nat :: b0 < b ==> !DomainAt(s, b0, k0, e0))
    && (forall k0: nat, e0: nat :: k < k0 ==> !DomainAt(s, b, k0, e0))
    && (e == k + 7 || e == |s| || !IsLower(s[e]))
  }

  lemma {:induction false} DomainSpanExact(lib: Lib, s: string)
    ensures forall b: nat, k: nat, e: nat :: DomainSpan(lib, s) == Some((b, k, e)) <==> IsDomainSpan(s, b, k, e)
    ensures DomainSpan(lib, s).Some? <==> exists b: nat, k: nat, e: nat :: DomainAt(s, b, k, e)
  {
    FindIsCapture(lib.isDigit, DOMAIN, s);
    forall b: nat, ends: seq<nat>
      ensures Fits(lib.isDigit, DOMAIN, s, b, ends)
         <==> |ends| == 3 && ends[1] == ends[0] + 1 && DomainAt(s, b, ends[0], ends[2])
    {
      DomainFits(lib.isDigit, s, b, ends);
    }
    forall b: nat, k: nat, e: nat
      ensures Fits(lib.isDigit, DOMAIN, s, b, [k, k + 1, e]) <==> DomainAt(s, b, k, e)
    {
    }
    match Find(lib.isDigit, DOMAIN, s)
    case None =>
      forall b: nat, k: nat, e: nat
        ensures !DomainAt(s, b, k, e)
      {
        assert !Fits(lib.isDigit, DOMAIN, s, b, [k, k + 1, e]);
      }
    case Some((b, ends)) =>
      CaptureIsSpan(lib.isDigit, s, b, ends);
      forall b0: nat, k0: nat, e0: nat | IsDomainSpan(s, b0, k0, e0)
        ensures b0 == b && k0 == ends[0] && e0 == ends[2]
      {
        SpanUnique(s, b, ends[0], ends[2], b0, k0, e0);
      }
  }

  lemma {:induction false} CaptureIsSpan(digit: char -> bool, s: string, b: nat, ends: seq<nat>)
    requires IsCapture(digit, DOMAIN, s, b, ends)
    ensures |ends| == 3 && IsDomainSpan(s, b, ends[0], ends[2])
  {
    DomainFits(digit, s, b, ends);
    var k, e := ends[0], ends[2];
    forall b0: nat, k0: nat, e0: nat | b0 < b
      ensures !DomainAt(s, b0, k0, e0)
    {
      DomainFits(digit, s, b0, [k0, k0 + 1, e0]);
    }
    forall k0: nat, e0: nat | DomainAt(s, b, k0, e0)
      ensures k0 < k || (k0 == k && e0 <= e)
    {
      DomainFits(digit, s, b, [k0, k0 + 1, e0]);
      assert Greedier(ends, [k0, k0 + 1, e0]);
      assert Greedier(ends[1..], [k0, k0 + 1, e0][1..]) ==> Greedier(ends[1..][1..], [k0, k0 + 1, e0][1..][1..]);
    }
    if e < k + 7 && e < |s| && IsLower(s[e]) {
      assert DomainAt(s, b, k, e + 1);
    }
  }

  lemma {:induction false} SpanUnique(s: string, b: nat, k: nat, e: nat, b0: nat, k0: nat, e0: nat)
    requires IsDomainSpan(s, b, k, e) && IsDomainSpan(s, b0, k0, e0)
    ensures b0 == b && k0 == k && e0 == e
  {
    assert b0 == b;
    assert k0 == k;
  }

  /** 2 to 200 characters, a dot at `k`, and a last label of 2 to 6 lower case letters. */
  ghost predicate WholeAt(s: string, k: nat) {
    && 2 <= k <= 200
    && k + 3 <= |s| <= k + 7
    && s[k] == '.'
    && AllLower(s[k + 1..])
  }

  ghost predicate WholeName(s: string) {
    exists k: nat :: WholeAt(s, k)
  }

  /** Exactly the whole names are captured whole. */
  lemma {:induction false} CapturedWhole(lib: Lib, s: string)
    requires '\n' !in s
    ensures (exists k: nat :: DomainSpan(lib, s) == Some((0, k, |s|))) <==> WholeName(s)
    ensures forall k: nat :: WholeAt(s, k) ==> DomainSpan(lib, s) == Some((0, k, |s|))
  {
    DomainSpanExact(lib, s);
    forall k: nat
      ensures WholeAt(s, k) <==> IsDomainSpan(s, 0, k, |s|)
    {
      if k < |s| {
        assert forall i :: k < i < |s| ==> s[i] == s[k + 1..][i - k - 1];
      }
    }
  }

  lemma {:induction false} CapturedIsWhole(s: string, b: nat, k: nat, e: nat)
    requires DomainAt(s, b, k, e)
    ensures WholeAt(s[b..e], k - b) && '\n' !in s[b..e]
  {
    var t := s[b..e];
    assert forall i :: 0 <= i < |t| ==> t[i] == s[b + i] && t[i] != '\n';
  }

  /** Parsing a captured text again captures all of it. */
  lemma {:induction false} Recapture(lib: Lib, s: string)
    requires DomainSpan(lib, s).Some?
    ensures var (b, k, e) := DomainSpan(lib, s).value;
            DomainSpan(lib, s[b..e]) == Some((0, k - b, e - b)) && ParseDomain(lib, s[b..e]) == ParseDomain(lib, s)
  {
    var (b, k, e) := DomainSpan(lib, s).value;
    assert IsDomainSpan(s, b, k, e) by {
      DomainSpanExact(lib, s);
    }
    CapturedIsWhole(s, b, k, e);
    CapturedWhole(lib, s[b..e]);
    assert s[b..e][0..e - b] == s[b..e];
  }

  /** A last label of more than six letters is cut after the sixth. */
  lemma {:induction false} LongLabelIsCut(lib: Lib, front: string, last: string)
    requires 2 <= |front| <= 200 && '\n' !in front && AllLower(last) && |last| > 6
    ensures DomainSpan(lib, front + "." + last) == Some((0, |front|, |front| + 7))
    ensures ParseDomain(lib, front + "." + last) == ParseDomain(lib, front + "." + last[..6])
  {
    var s := front + "." + last;
    DomainSpanExact(lib, s);
    assert IsDomainSpan(s, 0, |front|, |front| + 7);
    assert s[0..|front| + 7] == front + "." + last[..6];
    Recapture(lib, s);
  }

  /** A name whose dots all come before the third character is never matched. */
  lemma {:induction false} ShortNameIsSkipped(lib: Lib, s: string)
    requires forall i :: 2 <= i < |s| ==> s[i] != '.'
    ensures ParseDomain(lib, s) == None
  {
    DomainSpanExact(lib, s);
  }

  // ---------- names the libraries leave alone ----------

  /** The libraries accept this name, or what follows its `*.`, and leave it as it is. */
  ghost predicate Stable(lib: Lib, name: string) {
    && NoSpace(name) && name != ""
    && lib.toAscii(name) == Some(name)
    && if StartsWith(name, "*.") then '*' !in name[2..] && lib.accepts(name[2..]) else lib.accepts(name)
  }

  lemma {:induction false} StarIsKept(name: string)
    requires StartsWith(name, "*.") && '*' !in name[2..]
    ensures "*." + ReplaceAll(name, "*.", "") == name
  {
    DropFirst(name, "*.");
    ReplaceNothing(name[2..], "*.", "");
    PutBack(name, "*.");
  }

  lemma {:induction false} TrimNothing(name: string)
    requires NoSpace(name) && name != ""
    ensures Trim(name) == name
  {
    TrimPrefixed("", name);
    assert "" + name == name;
  }

  lemma {:induction false} StarIsDropped(name: string)
    requires StartsWith(name, "*.") && '*' !in name[2..]
    ensures ReplaceAll(name, "*.", "") == name[2..]
  {
    DropFirst(name, "*.");
    ReplaceNothing(name[2..], "*.", "");
  }

  /** What the libraries make of a whole name without white space is what a line holding it
      gives: the ASCII form of an accepted name; of a name behind a leading wildcard label,
      acceptance is asked without that label. */
  lemma {:induction false} ParseWholeName(lib: Lib, name: string)
    requires WholeName(name) && NoSpace(name)
    ensures !StartsWith(name, "*.") ==>
      ParseDomain(lib, name) == if lib.accepts(name) then lib.toAscii(name) else None
    ensures StartsWith(name, "*.") && '*' !in name[2..] ==>
      ParseDomain(lib, name) == if lib.accepts(name[2..]) then lib.toAscii(name) else None
  {
    CapturedWhole(lib, name);
    assert name[0..|name|] == name;
    TrimNothing(name);
    if StartsWith(name, "*.") && '*' !in name[2..] {
      StarIsDropped(name);
      StarIsKept(name);
    }
  }

  /** White space in front of the name is trimmed off, if the library accepts it at all. */
  lemma {:induction false} ParsePaddedName(lib: Lib, ws: string, name: string)
    requires WholeName(ws + name) && ws != "" && AllSpace(ws) && '\n' !in ws && NoSpace(name) && name != ""
    ensures ParseDomain(lib, ws + name) == if lib.accepts(ws + name) then lib.toAscii(name) else None
  {
    var text := ws + name;
    assert '\n' !in text;
    CapturedWhole(lib, text);
    assert text[0..|text|] == text;
    TrimPrefixed(ws, name);
    TrimNothing(name);
    assert text[0] == ws[0] && |text| >= 2 && text[..2][0] == text[0];
  }

  lemma {:induction false} CleanStable(lib: Lib, name: string)
    requires Stable(lib, name)
    ensures Clean(lib, name) == Some(name)
  {
    TrimNothing(name);
    if StartsWith(name, "*.") {
      StarIsKept(name);
      StarIsDropped(name);
    }
  }

  lemma {:induction false} ParseStable(lib: Lib, name: string)
    requires WholeName(name) && Stable(lib, name)
    ensures ParseDomain(lib, name) == Some(name)
  {
    assert '\n' !in name;
    CapturedWhole(lib, name);
    CleanStable(lib, name);
    assert name[0..|name|] == name;
  }
}
