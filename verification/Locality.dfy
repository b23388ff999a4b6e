/** How the rules on the source lines influence decisions. */
module Locality {
  import opened Text
  import opened Parsers
  import opened Db
  import opened Rules
  import opened Compiler
  import opened Meaning

  // ---------- which lines contribute what ----------

  lemma {:induction false} FlatMapIff<S, T>(sources: seq<S>, load: S -> seq<T>, v: T)
    ensures v in FlatMap(sources, load) <==> exists i :: 0 <= i < |sources| && v in load(sources[i])
  {
    if sources == [] {
    } else {
      var n := |sources| - 1;
      FlatMapIff(sources[..n], load, v);
      if i :| 0 <= i < |sources| && v in load(sources[i]) {
        assert i < n ==> v in load(sources[..n][i]);
      }
    }
  }

  lemma {:induction false} FilterMapIff<T(!new)>(lines: seq<string>, parse: string -> Option<T>, v: T)
    ensures v in FilterMap(lines, parse) <==> exists j :: 0 <= j < |lines| && parse(lines[j]) == Some(v)
  {
    if lines == [] {
    } else {
      var n := |lines| - 1;
      FilterMapIff(lines[..n], parse, v);
      if j :| 0 <= j < |lines| && parse(lines[j]) == Some(v) {
        assert j < n ==> parse(lines[..n][j]) == Some(v);
      }
    }
  }

  /** A rule is loaded exactly when a line of a source that was fetched parses to it. */
  lemma {:induction false} LoadedIff<T(!new)>(text: Option<string>, parse: string -> Option<T>, v: T)
    ensures v in Load(text, parse) <==> exists j :: 0 <= j < |LinesOf(text)| && parse(LinesOf(text)[j]) == Some(v)
  {
    FilterMapIff(LinesOf(text), parse, v);
  }

  /** A line of this format occurs in some source that was fetched. */
  ghost predicate HasLine<F>(sources: seq<Source<F>>, format: F, line: string) {
    exists i :: 0 <= i < |sources| && sources[i].format == format && line in LinesOf(sources[i].text)
  }

  ghost predicate SameLines<F(!new)>(sources: seq<Source<F>>, others: seq<Source<F>>) {
    forall format: F, line :: HasLine(sources, format, line) <==> HasLine(others, format, line)
  }

  lemma {:induction false} SameLinesSameRules<F(!new)>(sources: seq<Source<F>>, others: seq<Source<F>>,
      parser: F -> string -> Option<string>, load: Source<F> -> seq<string>, d: string)
    requires forall source: Source<F> :: load(source) == Load(source.text, parser(source.format))
    requires SameLines(sources, others) && d in FlatMap(sources, load)
    ensures d in FlatMap(others, load)
  {
    FlatMapIff(sources, load, d);
    FlatMapIff(others, load, d);
    var i :| 0 <= i < |sources| && d in load(sources[i]);
    var source := sources[i];
    LoadedIff(source.text, parser(source.format), d);
    var j :| 0 <= j < |LinesOf(source.text)| && parser(source.format)(LinesOf(source.text)[j]) == Some(d);
    var line := LinesOf(source.text)[j];
    assert HasLine(sources, source.format, line);
    var k :| 0 <= k < |others| && others[k].format == source.format && line in LinesOf(others[k].text);
    LoadedIff(others[k].text, parser(others[k].format), d);
    assert d in load(others[k]);
  }

  /** The blacklist and whitelist stores do not change when sources and lines are permuted,
      repeated or moved between sources of one format. */
  lemma {:induction false} FlagStoresIgnoreOrder(ps: LineParsers, config: Config, other: Config)
    requires SameLines(config.blacklist, other.blacklist) && SameLines(config.whitelist, other.whitelist)
    ensures Apply(EMPTY, Writes(ps, config), {}).blacklist == Apply(EMPTY, Writes(ps, other), {}).blacklist
    ensures Apply(EMPTY, Writes(ps, config), {}).whitelist == Apply(EMPTY, Writes(ps, other), {}).whitelist
  {
    var denies := (format: BlacklistFormat) => BlacklistParser(ps, format);
    var allows := (format: WhitelistFormat) => WhitelistParser(ps, format);
    forall d: string
      ensures d in BlacklistDomains(ps, config.blacklist) <==> d in BlacklistDomains(ps, other.blacklist)
      ensures d in WhitelistDomains(ps, config.whitelist) <==> d in WhitelistDomains(ps, other.whitelist)
    {
      if d in BlacklistDomains(ps, config.blacklist) {
        SameLinesSameRules(config.blacklist, other.blacklist, denies, LoadBlacklist(ps), d);
      }
      if d in BlacklistDomains(ps, other.blacklist) {
        SameLinesSameRules(other.blacklist, config.blacklist, denies, LoadBlacklist(ps), d);
      }
      if d in WhitelistDomains(ps, config.whitelist) {
        SameLinesSameRules(config.whitelist, other.whitelist, allows, LoadWhitelist(ps), d);
      }
      if d in WhitelistDomains(ps, other.whitelist) {
        SameLinesSameRules(other.whitelist, config.whitelist, allows, LoadWhitelist(ps), d);
      }
    }
    CompiledTables(ps, config);
    CompiledTables(ps, other);
    SameRulesSameFlags(BlacklistDomains(ps, config.blacklist), BlacklistDomains(ps, other.blacklist));
    SameRulesSameFlags(WhitelistDomains(ps, config.whitelist), WhitelistDomains(ps, other.whitelist));
  }

  // ---------- one more rule ----------

  lemma {:induction false} AnyInsert(front: seq<Rule>, rule: Rule, back: seq<Rule>, name: seq<string>)
    ensures (exists i :: 0 <= i < |front + [rule] + back| && Covers((front + [rule] + back)[i], name))
       <==> (exists i :: 0 <= i < |front + back| && Covers((front + back)[i], name)) || Covers(rule, name)
  {
    var before, after := front + back, front + [rule] + back;
    if i :| 0 <= i < |before| && Covers(before[i], name) {
      assert after[if i < |front| then i else i + 1] == before[i];
    }
    assert after[|front|] == rule;
    if i :| 0 <= i < |after| && Covers(after[i], name) {
      assert i != |front| ==> before[if i < |front| then i else i - 1] == after[i];
    }
  }

  lemma {:induction false} CoveredByInsert(front: seq<string>, rule: string, back: seq<string>, name: seq<string>)
    ensures CoveredBy(front + [rule] + back, name) <==> CoveredBy(front + back, name) || Covers(RuleOf(rule), name)
  {
    assert DomainRules(front + back) == DomainRules(front) + DomainRules(back);
    assert DomainRules(front + [rule] + back) == DomainRules(front) + [RuleOf(rule)] + DomainRules(back);
    AnyInsert(DomainRules(front), RuleOf(rule), DomainRules(back), name);
  }

  /** One more blacklist rule only ever turns `Forwarded` into `Blocked`, and only for names
      that it covers and that are not whitelisted. */
  lemma {:induction false} MoreDenied(front: seq<string>, rule: string, back: seq<string>, allowed: seq<string>, cnames: seq<CName>, name: seq<string>)
    ensures EvaluateRules(front + [rule] + back, allowed, cnames, name)
         == var before := EvaluateRules(front + back, allowed, cnames, name);
            if before == Forwarded && Covers(RuleOf(rule), name) && !CoveredBy(allowed, name) then Blocked else before
  {
    CoveredByInsert(front, rule, back, name);
  }

  /** One more whitelist rule only ever turns `Blocked` into `Forwarded`, and only for names
      that it covers. */
  lemma {:induction false} MoreAllowed(denied: seq<string>, front: seq<string>, rule: string, back: seq<string>, cnames: seq<CName>, name: seq<string>)
    ensures EvaluateRules(denied, front + [rule] + back, cnames, name)
         == var before := EvaluateRules(denied, front + back, cnames, name);
            if before == Blocked && Covers(RuleOf(rule), name) then Forwarded else before
  {
    CoveredByInsert(front, rule, back, name);
  }

  /** Where the winner stands after a rule was inserted at `at`. */
  lemma {:induction false} WinnerAfterInsert(front: seq<Rule>, rule: Rule, back: seq<Rule>, name: seq<string>, i: nat)
    requires IsWinner(front + back, name, i)
    requires !Covers(rule, name) || Rank(rule) < Rank((front + back)[i]) || (Rank(rule) == Rank((front + back)[i]) && |front| <= i)
    ensures IsWinner(front + [rule] + back, name, if i < |front| then i else i + 1)
  {
    var before, after := front + back, front + [rule] + back;
    var w := if i < |front| then i else i + 1;
    assert after[w] == before[i];
    forall j: nat | j < |after| && Covers(after[j], name)
      ensures Rank(after[j]) <= Rank(after[w]) && (Rank(after[j]) == Rank(after[w]) ==> j <= w)
    {
      if j != |front| {
        var k := if j < |front| then j else j - 1;
        assert before[k] == after[j];
      }
    }
  }

  lemma {:induction false} InsertedWins(front: seq<Rule>, rule: Rule, back: seq<Rule>, name: seq<string>)
    requires Covers(rule, name)
    requires forall i :: 0 <= i < |front + back| && Covers((front + back)[i], name) ==>
               Rank((front + back)[i]) < Rank(rule) || (Rank((front + back)[i]) == Rank(rule) && i < |front|)
    ensures IsWinner(front + [rule] + back, name, |front|)
  {
    var before, after := front + back, front + [rule] + back;
    forall j: nat | j < |after| && Covers(after[j], name)
      ensures Rank(after[j]) <= Rank(rule) && (Rank(after[j]) == Rank(rule) ==> j <= |front|)
    {
      if j != |front| {
        var k := if j < |front| then j else j - 1;
        assert before[k] == after[j];
      }
    }
  }

  /** The best rule after one insertion: the old winner, or the new rule if it covers. */
  lemma {:induction false} BestAfterInsert(front: seq<Rule>, rule: Rule, back: seq<Rule>, name: seq<string>)
    ensures var before, after := Best(front + back, name), Best(front + [rule] + back, name);
            || (Covers(rule, name) && after == Some(|front|))
            || (after.Some? && before.Some? && after.value == if before.value < |front| then before.value else before.value + 1)
            || (!Covers(rule, name) && after == None && before == None)
  {
    BestFound(front + back, name);
    BestIsWinner(front + [rule] + back, name);
    match Best(front + back, name)
    case Some(i) =>
      if !Covers(rule, name) || Rank(rule) < Rank((front + back)[i]) || (Rank(rule) == Rank((front + back)[i]) && |front| <= i) {
        WinnerAfterInsert(front, rule, back, name, i);
      } else {
        InsertedWins(front, rule, back, name);
      }
    case None =>
      if Covers(rule, name) {
        InsertedWins(front, rule, back, name);
      } else {
        AnyInsert(front, rule, back, name);
      }
  }

  lemma {:induction false} AliasAfterInsert(front: seq<CName>, c: CName, back: seq<CName>, before: Option<nat>, after: Option<nat>)
    requires before.Some? ==> before.value < |front + back|
    requires after.Some? ==> after.value < |front + [c] + back|
    ensures after == Some(|front|) ==> AliasAt(front + [c] + back, after) == Some(NormalizeName(c.alias))
    ensures before.Some? && after == Some(if before.value < |front| then before.value else before.value + 1)
        ==> AliasAt(front + [c] + back, after) == AliasAt(front + back, before)
  {
  }

  lemma {:induction false} AliasWithRules(front: seq<CName>, c: CName, back: seq<CName>, name: seq<string>, fr: seq<Rule>, rule: Rule, br: seq<Rule>)
    requires |fr| == |front| && |br| == |back|
    ensures var before, after := AliasAt(front + back, Best(fr + br, name)), AliasAt(front + [c] + back, Best(fr + [rule] + br, name));
            && (!Covers(rule, name) ==> after == before)
            && (Covers(rule, name) ==> after == Some(NormalizeName(c.alias)) || (after == before && after.Some?))
  {
    BestAfterInsert(fr, rule, br, name);
    AliasAfterInsert(front, c, back, Best(fr + br, name), Best(fr + [rule] + br, name));
  }

  /** One more rewrite rule changes nothing for names that it does not cover; for those that
      it does cover the redirect stays or becomes its own alias, and never disappears. */
  lemma {:induction false} MoreAliases(front: seq<CName>, c: CName, back: seq<CName>, name: seq<string>)
    ensures var before, after := RedirectBy(front + back, name), RedirectBy(front + [c] + back, name);
            && (!Covers(RuleOf(c.domain), name) ==> after == before)
            && (Covers(RuleOf(c.domain), name) ==> after == Some(NormalizeName(c.alias)) || (after == before && after.Some?))
  {
    AliasRulesInsert(front, c, back);
    AliasWithRules(front, c, back, name, AliasRules(front), RuleOf(c.domain), AliasRules(back));
  }

  lemma {:induction false} AliasRulesInsert(front: seq<CName>, c: CName, back: seq<CName>)
    ensures AliasRules(front + back) == AliasRules(front) + AliasRules(back)
    ensures AliasRules(front + [c] + back) == AliasRules(front) + [RuleOf(c.domain)] + AliasRules(back)
  {
  }

  // ---------- one more line ----------

  lemma {:induction false} FilterMapConcat<T>(a: seq<string>, b: seq<string>, parse: string -> Option<T>)
    ensures FilterMap(a + b, parse) == FilterMap(a, parse) + FilterMap(b, parse)
  {
    if b == [] {
      assert a + b == a;
    } else {
      var n := |b| - 1;
      assert (a + b)[..|a + b| - 1] == a + b[..n];
      FilterMapConcat(a, b[..n], parse);
    }
  }

  lemma {:induction false} FlatMapConcat<S, T>(a: seq<S>, b: seq<S>, load: S -> seq<T>)
    ensures FlatMap(a + b, load) == FlatMap(a, load) + FlatMap(b, load)
  {
    if b == [] {
      assert a + b == a;
    } else {
      var n := |b| - 1;
      assert (a + b)[..|a + b| - 1] == a + b[..n];
      FlatMapConcat(a, b[..n], load);
    }
  }

  lemma {:induction false} FlatMapAt<S, T>(sources: seq<S>, k: nat, load: S -> seq<T>)
    requires k < |sources|
    ensures FlatMap(sources, load) == FlatMap(sources[..k], load) + load(sources[k]) + FlatMap(sources[k + 1..], load)
  {
    assert sources == sources[..k + 1] + sources[k + 1..];
    FlatMapConcat(sources[..k + 1], sources[k + 1..], load);
    assert sources[..k + 1][..k] == sources[..k];
  }

  /** `text` and `longer` were both fetched and differ by `line` before the `j`-th line. */
  ghost predicate LineInserted(text: Option<string>, longer: Option<string>, j: nat, line: string) {
    && text.Some? && longer.Some?
    && j <= |LinesOf(text)|
    && LinesOf(longer) == LinesOf(text)[..j] + [line] + LinesOf(text)[j..]
  }

  /** The sources differ by one more line in source `k`. */
  ghost predicate OneMoreLine<F>(sources: seq<Source<F>>, longer: seq<Source<F>>, k: nat, j: nat, line: string) {
    && k < |sources| == |longer|
    && sources[..k] == longer[..k] && sources[k + 1..] == longer[k + 1..]
    && sources[k].format == longer[k].format
    && LineInserted(sources[k].text, longer[k].text, j, line)
  }

  function Parsed<T>(v: Option<T>): seq<T> {
    match v
    case Some(x) => [x]
    case None => []
  }

  lemma {:induction false} LineInsertedLoad<T>(text: Option<string>, longer: Option<string>, j: nat, line: string, parse: string -> Option<T>)
    requires LineInserted(text, longer, j, line)
    ensures Load(text, parse) == FilterMap(LinesOf(text)[..j], parse) + FilterMap(LinesOf(text)[j..], parse)
    ensures Load(longer, parse) == FilterMap(LinesOf(text)[..j], parse) + Parsed(parse(line)) + FilterMap(LinesOf(text)[j..], parse)
  {
    var a, b := LinesOf(text)[..j], LinesOf(text)[j..];
    assert LinesOf(text) == a + b;
    FilterMapConcat(a, b, parse);
    FilterMapInsert(a, line, b, parse);
  }

  lemma {:induction false} FilterMapInsert<T>(a: seq<string>, line: string, b: seq<string>, parse: string -> Option<T>)
    ensures FilterMap(a + [line] + b, parse) == FilterMap(a, parse) + Parsed(parse(line)) + FilterMap(b, parse)
  {
    FilterMapConcat(a + [line], b, parse);
    FilterMapLast(a, line, parse);
  }

  lemma {:induction false} FilterMapLast<T>(a: seq<string>, line: string, parse: string -> Option<T>)
    ensures FilterMap(a + [line], parse) == FilterMap(a, parse) + Parsed(parse(line))
  {
    assert (a + [line])[..|a|] == a;
  }

  /** One more line adds what it parses to, at one place, and nothing else. */
  lemma {:induction false} OneMoreLineOneMoreRule<F, T>(sources: seq<Source<F>>, longer: seq<Source<F>>, k: nat, j: nat, line: string,
      parse: string -> Option<T>, load: Source<F> -> seq<T>) returns (front: seq<T>, back: seq<T>)
    requires OneMoreLine(sources, longer, k, j, line)
    requires load(sources[k]) == Load(sources[k].text, parse) && load(longer[k]) == Load(longer[k].text, parse)
    ensures FlatMap(sources, load) == front + back
    ensures FlatMap(longer, load) == front + Parsed(parse(line)) + back
  {
    var lines := LinesOf(sources[k].text);
    var a, b := FlatMap(sources[..k], load), FlatMap(sources[k + 1..], load);
    var c, d := FilterMap(lines[..j], parse), FilterMap(lines[j..], parse);
    FlatMapAt(sources, k, load);
    FlatMapAt(longer, k, load);
    LineInsertedLoad(sources[k].text, longer[k].text, j, line, parse);
    Regroup(FlatMap(sources, load), FlatMap(longer, load), a, c, Parsed(parse(line)), d, b);
    front, back := a + c, d + b;
  }

  lemma {:induction false} Regroup<T>(whole: seq<T>, longer: seq<T>, a: seq<T>, c: seq<T>, x: seq<T>, d: seq<T>, b: seq<T>)
    requires whole == a + (c + d) + b && longer == a + (c + x + d) + b
    ensures whole == (a + c) + (d + b) && longer == (a + c) + x + (d + b)
  {
  }

  /** The line parsed to a rule that covers the name. */
  ghost predicate ParsedCovers(rule: Option<string>, name: seq<string>) {
    rule.Some? && Covers(RuleOf(rule.value), name)
  }

  lemma {:induction false} ParsedDenied(front: seq<string>, rule: Option<string>, back: seq<string>, allowed: seq<string>, cnames: seq<CName>, name: seq<string>)
    ensures EvaluateRules(front + Parsed(rule) + back, allowed, cnames, name)
         == var before := EvaluateRules(front + back, allowed, cnames, name);
            if before == Forwarded && ParsedCovers(rule, name) && !CoveredBy(allowed, name) then Blocked else before
  {
    match rule
    case Some(d) => MoreDenied(front, d, back, allowed, cnames, name);
    case None => assert front + [] + back == front + back;
  }

  lemma {:induction false} ParsedAllowed(denied: seq<string>, front: seq<string>, rule: Option<string>, back: seq<string>, cnames: seq<CName>, name: seq<string>)
    ensures EvaluateRules(denied, front + Parsed(rule) + back, cnames, name)
         == var before := EvaluateRules(denied, front + back, cnames, name);
            if before == Blocked && ParsedCovers(rule, name) then Forwarded else before
  {
    match rule
    case Some(d) => MoreAllowed(denied, front, d, back, cnames, name);
    case None => assert front + [] + back == front + back;
  }

  lemma {:induction false} ParsedAlias(front: seq<CName>, rule: Option<CName>, back: seq<CName>, name: seq<string>)
    ensures var before, after := RedirectBy(front + back, name), RedirectBy(front + Parsed(rule) + back, name);
            after != before ==> rule.Some? && Covers(RuleOf(rule.value.domain), name) && after == Some(NormalizeName(rule.value.alias))
  {
    match rule
    case Some(c) => MoreAliases(front, c, back, name);
    case None => assert front + [] + back == front + back;
  }

  /** Adding a blacklist line never unblocks a name: it only ever turns `Forwarded` into
      `Blocked`, exactly for the names covered by the rule it parses to that no whitelist
      rule covers. */
  lemma {:induction false} BlacklistLineIsLocal(ps: LineParsers, config: Config, longer: Config, k: nat, j: nat, line: string, name: seq<string>)
    requires OneMoreLine(config.blacklist, longer.blacklist, k, j, line)
    requires longer.whitelist == config.whitelist && longer.overrides == config.overrides
    ensures Evaluate(ps, longer, name)
         == var before := Evaluate(ps, config, name);
            var rule := BlacklistParser(ps, config.blacklist[k].format)(line);
            if before == Forwarded && ParsedCovers(rule, name) && !CoveredBy(WhitelistDomains(ps, config.whitelist), name) then Blocked else before
  {
    var parse := BlacklistParser(ps, config.blacklist[k].format);
    var front, back := OneMoreLineOneMoreRule(config.blacklist, longer.blacklist, k, j, line, parse, LoadBlacklist(ps));
    ParsedDenied(front, parse(line), back, WhitelistDomains(ps, config.whitelist), Overrides(ps, config.overrides), name);
  }

  /** Adding a whitelist line never blocks a name: it only ever turns `Blocked` into
      `Forwarded`, exactly for the names covered by the rule it parses to. */
  lemma {:induction false} WhitelistLineIsLocal(ps: LineParsers, config: Config, longer: Config, k: nat, j: nat, line: string, name: seq<string>)
    requires OneMoreLine(config.whitelist, longer.whitelist, k, j, line)
    requires longer.blacklist == config.blacklist && longer.overrides == config.overrides
    ensures Evaluate(ps, longer, name)
         == var before := Evaluate(ps, config, name);
            var rule := WhitelistParser(ps, config.whitelist[k].format)(line);
            if before == Blocked && ParsedCovers(rule, name) then Forwarded else before
  {
    var parse := WhitelistParser(ps, config.whitelist[k].format);
    var front, back := OneMoreLineOneMoreRule(config.whitelist, longer.whitelist, k, j, line, parse, LoadWhitelist(ps));
    ParsedAllowed(BlacklistDomains(ps, config.blacklist), front, parse(line), back, Overrides(ps, config.overrides), name);
  }

  /** Adding an override line changes the decision only for names covered by its rule, and
      then to its own alias. */
  lemma {:induction false} OverrideLineIsLocal(ps: LineParsers, config: Config, longer: Config, k: nat, j: nat, line: string, name: seq<string>)
    requires OneMoreLine(config.overrides, longer.overrides, k, j, line)
    requires longer.blacklist == config.blacklist && longer.whitelist == config.whitelist
    requires Evaluate(ps, longer, name) != Evaluate(ps, config, name)
    ensures var rule := RewriteParser(ps, config.overrides[k].format)(line);
            rule.Some? && Covers(RuleOf(rule.value.domain), name) && Evaluate(ps, longer, name) == Rewritten(NormalizeName(rule.value.alias))
  {
    var parse := RewriteParser(ps, config.overrides[k].format);
    var front, back := OneMoreLineOneMoreRule(config.overrides, longer.overrides, k, j, line, parse, LoadRewrites(ps));
    ParsedAlias(front, parse(line), back, name);
  }

  // ---------- zone texts shared by whitelist and overrides ----------

  /** If every override text is also a whitelist source in zone format, then every name that
      is rewritten is whitelisted too: the two parsers accept the same lines with the same
      domain. */
  lemma {:induction false} SharedZonesAreWhitelisted(ps: LineParsers, config: Config, name: seq<string>)
    requires forall i :: 0 <= i < |config.overrides| ==> Source(Zone, config.overrides[i].text) in config.whitelist
    requires RedirectBy(Overrides(ps, config.overrides), name).Some?
    ensures CoveredBy(WhitelistDomains(ps, config.whitelist), name)
  {
    var cnames := Overrides(ps, config.overrides);
    BestFound(AliasRules(cnames), name);
    var w := Best(AliasRules(cnames), name).value;
    var c := cnames[w];
    FlatMapIff(config.overrides, LoadRewrites(ps), c);
    var i :| 0 <= i < |config.overrides| && c in LoadRewrites(ps)(config.overrides[i]);
    var text := config.overrides[i].text;
    LoadedIff(text, ps.cname, c);
    LoadedIff(text, WhitelistParser(ps, Zone), c.domain);
    var k :| 0 <= k < |config.whitelist| && config.whitelist[k] == Source(Zone, text);
    assert c.domain in LoadWhitelist(ps)(config.whitelist[k]);
    FlatMapIff(config.whitelist, LoadWhitelist(ps), c.domain);
    var domains := WhitelistDomains(ps, config.whitelist);
    var d :| 0 <= d < |domains| && domains[d] == c.domain;
    assert DomainRules(domains)[d] == AliasRules(cnames)[w];
  }
}
