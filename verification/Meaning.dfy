/** What a compiled database means: the decision on a name equals a scan of the rules. */
module Meaning {
  import opened Text
  import opened Parsers
  import opened Db
  import opened Rules
  import opened Compiler

  datatype Decision = Rewritten(alias: string) | Blocked | Forwarded

  /** `is_blocked` on one database: the whitelist is asked first. */
  predicate IsBlocked(t: Tables, query: string) {
    Lookup(t.whitelist, query) == None && Lookup(t.blacklist, query).Some?
  }

  /** The handler's decision when one database answers both questions. */
  function Decide(t: Tables, query: string): Decision {
    match Lookup(t.rewrites, query)
    case Some(alias) => Rewritten(alias)
    case None => if IsBlocked(t, query) then Blocked else Forwarded
  }

  /** The decision when one database is asked for a rewrite and another one for the rest. */
  function Answer(first: Tables, second: Tables, query: string): Decision {
    match Lookup(first.rewrites, query)
    case Some(alias) => Rewritten(alias)
    case None => if IsBlocked(second, query) then Blocked else Forwarded
  }

  // ---------- the declarative evaluator ----------

  function DomainRules(domains: seq<string>): seq<Rule> {
    seq(|domains|, i requires 0 <= i < |domains| => RuleOf(domains[i]))
  }

  ghost predicate CoveredBy(domains: seq<string>, name: seq<string>) {
    exists i :: 0 <= i < |domains| && Covers(DomainRules(domains)[i], name)
  }

  function AliasRules(cnames: seq<CName>): seq<Rule> {
    seq(|cnames|, i requires 0 <= i < |cnames| => RuleOf(cnames[i].domain))
  }

  ghost predicate BlockedBy(denied: seq<string>, allowed: seq<string>, name: seq<string>) {
    CoveredBy(denied, name) && !CoveredBy(allowed, name)
  }

  function AliasAt(cnames: seq<CName>, best: Option<nat>): Option<string>
    requires best.Some? ==> best.value < |cnames|
  {
    match best
    case Some(i) => Some(NormalizeName(cnames[i].alias))
    case None => None
  }

  function RedirectBy(cnames: seq<CName>, name: seq<string>): Option<string> {
    AliasAt(cnames, Best(AliasRules(cnames), name))
  }

  /** The most specific rewrite rule, else blocked when some blacklist rule and no whitelist
      rule covers the name, else forwarded. */
  ghost function EvaluateRules(denied: seq<string>, allowed: seq<string>, cnames: seq<CName>, name: seq<string>): Decision {
    match RedirectBy(cnames, name)
    case Some(alias) => Rewritten(alias)
    case None => if BlockedBy(denied, allowed, name) then Blocked else Forwarded
  }

  ghost function Evaluate(ps: LineParsers, config: Config, name: seq<string>): Decision {
    EvaluateRules(
      BlacklistDomains(ps, config.blacklist),
      WhitelistDomains(ps, config.whitelist),
      Overrides(ps, config.overrides),
      name)
  }

  // ---------- the three stores as tables of rules ----------

  function Flags(domains: seq<string>): seq<Entry> {
    seq(|domains|, i requires 0 <= i < |domains| => Entry(domains[i], "true"))
  }

  function Aliases(cnames: seq<CName>): seq<Entry> {
    seq(|cnames|, i requires 0 <= i < |cnames| => Entry(cnames[i].domain, NormalizeName(cnames[i].alias)))
  }

  function TablesOf(denied: seq<string>, allowed: seq<string>, cnames: seq<CName>): Tables {
    Tables(Table(Flags(denied)), Table(Flags(allowed)), Table(Aliases(cnames)))
  }

  lemma {:induction false} FlagsLookup(domains: seq<string>, name: seq<string>)
    requires IsName(name)
    ensures Lookup(Table(Flags(domains)), Absolute(name)).Some? <==> CoveredBy(domains, name)
  {
    LookupIsBest(Flags(domains), name);
    assert RulesOf(Flags(domains)) == DomainRules(domains);
    BestIsWinner(DomainRules(domains), name);
  }

  lemma {:induction false} AliasesLookup(cnames: seq<CName>, name: seq<string>)
    requires IsName(name)
    ensures Lookup(Table(Aliases(cnames)), Absolute(name)) == RedirectBy(cnames, name)
  {
    LookupIsBest(Aliases(cnames), name);
    assert RulesOf(Aliases(cnames)) == AliasRules(cnames);
  }

  /** The compiled index decides what the scan of the rules decides. */
  lemma {:induction false} IndexMeansRules(denied: seq<string>, allowed: seq<string>, cnames: seq<CName>, name: seq<string>)
    requires IsName(name)
    ensures var t := TablesOf(denied, allowed, cnames);
            && Lookup(t.rewrites, Absolute(name)) == RedirectBy(cnames, name)
            && IsBlocked(t, Absolute(name)) == BlockedBy(denied, allowed, name)
            && Decide(t, Absolute(name)) == EvaluateRules(denied, allowed, cnames, name)
  {
    FlagsLookup(denied, name);
    FlagsLookup(allowed, name);
    AliasesLookup(cnames, name);
  }

  // ---------- which writes reach which store ----------

  /** The writes that were carried out. */
  function Kept(writes: seq<Write>, failed: set<nat>): seq<Write> {
    if writes == [] then []
    else
      var n := |writes| - 1;
      Kept(writes[..n], failed) + if n in failed then [] else [writes[n]]
  }

  function Allowed(writes: seq<Write>): seq<string> {
    if writes == [] then []
    else
      var n := |writes| - 1;
      Allowed(writes[..n]) + if writes[n].Allow? then [writes[n].domain] else []
  }

  function Denied(writes: seq<Write>): seq<string> {
    if writes == [] then []
    else
      var n := |writes| - 1;
      Denied(writes[..n]) + if writes[n].Deny? then [writes[n].domain] else []
  }

  function Aliased(writes: seq<Write>): seq<CName> {
    if writes == [] then []
    else
      var n := |writes| - 1;
      Aliased(writes[..n]) + if writes[n].Rewrite? then [writes[n].cname] else []
  }

  lemma {:induction false} StepIsTables(denied: seq<string>, allowed: seq<string>, cnames: seq<CName>, w: Write)
    ensures Step(TablesOf(denied, allowed, cnames), w)
         == match w
            case Allow(d) => TablesOf(denied, allowed + [d], cnames)
            case Deny(d) => TablesOf(denied + [d], allowed, cnames)
            case Rewrite(c) => TablesOf(denied, allowed, cnames + [c])
  {
    match w
    case Allow(d) => assert Flags(allowed + [d])[..|allowed|] == Flags(allowed);
    case Deny(d) => assert Flags(denied + [d])[..|denied|] == Flags(denied);
    case Rewrite(c) => assert Aliases(cnames + [c])[..|cnames|] == Aliases(cnames);
  }

  lemma {:induction false} ProjectSnoc(writes: seq<Write>, w: Write)
    ensures Allowed(writes + [w]) == Allowed(writes) + if w.Allow? then [w.domain] else []
    ensures Denied(writes + [w]) == Denied(writes) + if w.Deny? then [w.domain] else []
    ensures Aliased(writes + [w]) == Aliased(writes) + if w.Rewrite? then [w.cname] else []
  {
    assert (writes + [w])[..|writes|] == writes;
  }

  lemma {:induction false} KeptSnoc(before: seq<Write>, w: Write)
    ensures TablesOf(Denied(before + [w]), Allowed(before + [w]), Aliased(before + [w]))
         == (match w
             case Allow(d) => TablesOf(Denied(before), Allowed(before) + [d], Aliased(before))
             case Deny(d) => TablesOf(Denied(before) + [d], Allowed(before), Aliased(before))
             case Rewrite(c) => TablesOf(Denied(before), Allowed(before), Aliased(before) + [c]))
  {
    ProjectSnoc(before, w);
    assert Denied(before) + [] == Denied(before);
    assert Allowed(before) + [] == Allowed(before);
    assert Aliased(before) + [] == Aliased(before);
  }

  /** Any writes, any of them failing: the stores hold exactly the rules that were kept. */
  lemma {:induction false} ApplyIsTables(writes: seq<Write>, failed: set<nat>)
    ensures var kept := Kept(writes, failed);
            Apply(EMPTY, writes, failed) == TablesOf(Denied(kept), Allowed(kept), Aliased(kept))
  {
    if writes == [] {
      assert Flags([]) == [] && Aliases([]) == [];
    } else {
      var n := |writes| - 1;
      var before := Kept(writes[..n], failed);
      ApplyIsTables(writes[..n], failed);
      if n !in failed {
        StepIsTables(Denied(before), Allowed(before), Aliased(before), writes[n]);
        KeptSnoc(before, writes[n]);
      } else {
        assert before + [] == before;
      }
    }
  }

  /** With failing writes the database still means the rules that were written. */
  lemma {:induction false} AnyWritesMeanKept(writes: seq<Write>, failed: set<nat>, name: seq<string>)
    requires IsName(name)
    ensures var kept := Kept(writes, failed); var t := Apply(EMPTY, writes, failed);
            && Lookup(t.rewrites, Absolute(name)) == RedirectBy(Aliased(kept), name)
            && IsBlocked(t, Absolute(name)) == BlockedBy(Denied(kept), Allowed(kept), name)
            && Decide(t, Absolute(name)) == EvaluateRules(Denied(kept), Allowed(kept), Aliased(kept), name)
  {
    var kept := Kept(writes, failed);
    ApplyIsTables(writes, failed);
    IndexMeansRules(Denied(kept), Allowed(kept), Aliased(kept), name);
  }

  lemma {:induction false} KeptAll(writes: seq<Write>)
    ensures Kept(writes, {}) == writes
  {
    if writes == [] {
    } else {
      KeptAll(writes[..|writes| - 1]);
    }
  }

  lemma {:induction false} AllowSnoc(before: seq<Write>, domains: seq<string>)
    requires domains != []
    ensures var n := |domains| - 1;
            && before + AllowAll(domains) == before + AllowAll(domains[..n]) + [Allow(domains[n])]
            && domains == domains[..n] + [domains[n]]
  {
  }

  lemma {:induction false} ProjectAllow(before: seq<Write>, domains: seq<string>)
    ensures Allowed(before + AllowAll(domains)) == Allowed(before) + domains
    ensures Denied(before + AllowAll(domains)) == Denied(before)
    ensures Aliased(before + AllowAll(domains)) == Aliased(before)
  {
    if domains == [] {
      assert before + AllowAll(domains) == before;
    } else {
      var n := |domains| - 1;
      var init := before + AllowAll(domains[..n]);
      ProjectAllow(before, domains[..n]);
      ProjectSnoc(init, Allow(domains[n]));
      AllowSnoc(before, domains);
    }
  }

  lemma {:induction false} DenySnoc(before: seq<Write>, domains: seq<string>)
    requires domains != []
    ensures var n := |domains| - 1;
            && before + DenyAll(domains) == before + DenyAll(domains[..n]) + [Deny(domains[n])]
            && domains == domains[..n] + [domains[n]]
  {
  }

  lemma {:induction false} ProjectDeny(before: seq<Write>, domains: seq<string>)
    ensures Allowed(before + DenyAll(domains)) == Allowed(before)
    ensures Denied(before + DenyAll(domains)) == Denied(before) + domains
    ensures Aliased(before + DenyAll(domains)) == Aliased(before)
  {
    if domains == [] {
      assert before + DenyAll(domains) == before;
    } else {
      var n := |domains| - 1;
      var init := before + DenyAll(domains[..n]);
      ProjectDeny(before, domains[..n]);
      ProjectSnoc(init, Deny(domains[n]));
      DenySnoc(before, domains);
    }
  }

  lemma {:induction false} RewriteSnoc(before: seq<Write>, cnames: seq<CName>)
    requires cnames != []
    ensures var n := |cnames| - 1;
            && before + RewriteAll(cnames) == before + RewriteAll(cnames[..n]) + [Rewrite(cnames[n])]
            && cnames == cnames[..n] + [cnames[n]]
  {
  }

  lemma {:induction false} ProjectRewrite(before: seq<Write>, cnames: seq<CName>)
    ensures Allowed(before + RewriteAll(cnames)) == Allowed(before)
    ensures Denied(before + RewriteAll(cnames)) == Denied(before)
    ensures Aliased(before + RewriteAll(cnames)) == Aliased(before) + cnames
  {
    if cnames == [] {
      assert before + RewriteAll(cnames) == before;
    } else {
      var n := |cnames| - 1;
      var init := before + RewriteAll(cnames[..n]);
      ProjectRewrite(before, cnames[..n]);
      ProjectSnoc(init, Rewrite(cnames[n]));
      RewriteSnoc(before, cnames);
    }
  }

  lemma {:induction false} WritesProject(ps: LineParsers, config: Config)
    ensures Allowed(Writes(ps, config)) == WhitelistDomains(ps, config.whitelist)
    ensures Denied(Writes(ps, config)) == BlacklistDomains(ps, config.blacklist)
    ensures Aliased(Writes(ps, config)) == Overrides(ps, config.overrides)
  {
    var a, d, r := WhitelistDomains(ps, config.whitelist), BlacklistDomains(ps, config.blacklist), Overrides(ps, config.overrides);
    ProjectAllow([], a);
    assert [] + AllowAll(a) == AllowAll(a);
    ProjectDeny(AllowAll(a), d);
    ProjectRewrite(AllowAll(a) + DenyAll(d), r);
  }

  /** Without failing writes the stores are the tables of all the rules. */
  lemma {:induction false} CompiledTables(ps: LineParsers, config: Config)
    ensures Apply(EMPTY, Writes(ps, config), {})
         == TablesOf(BlacklistDomains(ps, config.blacklist), WhitelistDomains(ps, config.whitelist), Overrides(ps, config.overrides))
  {
    ApplyIsTables(Writes(ps, config), {});
    KeptAll(Writes(ps, config));
    WritesProject(ps, config);
  }

  /** Compilation preserves meaning: for every configuration, every outcome of fetching its
      sources and every name, the decision over the compiled stores is the decision of a
      scan over the rules on the source lines. */
  lemma {:induction false} CompilationPreservesMeaning(ps: LineParsers, config: Config, name: seq<string>)
    requires IsName(name)
    ensures Decide(Apply(EMPTY, Writes(ps, config), {}), Absolute(name)) == Evaluate(ps, config, name)
  {
    CompiledTables(ps, config);
    IndexMeansRules(
      BlacklistDomains(ps, config.blacklist), WhitelistDomains(ps, config.whitelist), Overrides(ps, config.overrides), name);
  }

  /** The writes that were carried out are exactly those that did not fail, in order. */
  lemma {:induction false} KeptPicks(writes: seq<Write>, failed: set<nat>) returns (at: seq<nat>)
    ensures Picks(writes, at, Kept(writes, failed))
    ensures forall i: nat :: i in at <==> i < |writes| && i !in failed
  {
    if writes == [] {
      at := [];
    } else {
      var n := |writes| - 1;
      at := KeptPicks(writes[..n], failed);
      assert writes == writes[..n] + [writes[n]];
      PicksSnoc(writes[..n], at, Kept(writes[..n], failed), writes[n]);
      at := if n in failed then at else at + [n];
    }
  }

  lemma {:induction false} NothingKept(writes: seq<Write>, failed: set<nat>)
    requires forall i :: 0 <= i < |writes| ==> i in failed
    ensures Kept(writes, failed) == []
  {
    if writes == [] {
    } else {
      NothingKept(writes[..|writes| - 1], failed);
    }
  }

  /** Without any rule carried out, every name is forwarded. */
  lemma {:induction false} AllWritesFail(writes: seq<Write>, failed: set<nat>, name: seq<string>)
    requires IsName(name) && forall i :: 0 <= i < |writes| ==> i in failed
    ensures Decide(Apply(EMPTY, writes, failed), Absolute(name)) == Forwarded
  {
    NothingKept(writes, failed);
    AnyWritesMeanKept(writes, failed, name);
    BestIsWinner([], name);
  }

  /** When writes fail, no store gains a rule that its sources do not have. */
  lemma {:induction false} KeptIsPart(writes: seq<Write>, failed: set<nat>)
    ensures forall d :: d in Allowed(Kept(writes, failed)) ==> d in Allowed(writes)
    ensures forall d :: d in Denied(Kept(writes, failed)) ==> d in Denied(writes)
    ensures forall c :: c in Aliased(Kept(writes, failed)) ==> c in Aliased(writes)
  {
    if writes == [] {
    } else {
      var n := |writes| - 1;
      KeptIsPart(writes[..n], failed);
      ProjectSnoc(Kept(writes[..n], failed), writes[n]);
      assert Kept(writes[..n], failed) + [] == Kept(writes[..n], failed);
    }
  }

  lemma {:induction false} FlagKey(domains: seq<string>, key: string)
    ensures key in Table(Flags(domains)) <==> exists i :: 0 <= i < |domains| && NormalizeName(domains[i]) == key
    ensures key in Table(Flags(domains)) ==> Table(Flags(domains))[key] == "true"
  {
    if key in Table(Flags(domains)) {
      var i := TableSource(Flags(domains), key);
    }
    if i :| 0 <= i < |domains| && NormalizeName(domains[i]) == key {
      FlagIsSet(domains, key, i);
    }
  }

  lemma {:induction false} FlagIsSet(domains: seq<string>, key: string, i: nat)
    requires i < |domains| && NormalizeName(domains[i]) == key
    ensures key in Table(Flags(domains))
  {
    var n := |domains| - 1;
    assert Flags(domains)[..n] == Flags(domains[..n]);
    if i == n {
    } else {
      FlagIsSet(domains[..n], key, i);
    }
  }

  ghost predicate FromOverride(cnames: seq<CName>, key: string, value: string) {
    exists c :: c in cnames && NormalizeName(c.domain) == key && NormalizeName(c.alias) == value
  }

  ghost predicate FromDomain(domains: seq<string>, key: string) {
    exists d :: d in domains && NormalizeName(d) == key
  }

  lemma {:induction false} FlagFromDomain(kept: seq<string>, domains: seq<string>, key: string)
    requires forall d :: d in kept ==> d in domains
    requires key in Table(Flags(kept))
    ensures FromDomain(domains, key)
  {
    FlagKey(kept, key);
    var i :| 0 <= i < |kept| && NormalizeName(kept[i]) == key;
    assert kept[i] in domains;
  }

  lemma {:induction false} AliasFromOverride(kept: seq<CName>, cnames: seq<CName>, key: string)
    requires forall c :: c in kept ==> c in cnames
    requires key in Table(Aliases(kept))
    ensures FromOverride(cnames, key, Table(Aliases(kept))[key])
  {
    var i := TableSource(Aliases(kept), key);
    assert kept[i] in cnames;
  }

  /** Every key of every store comes from a rule of a source, whatever writes fail. */
  lemma {:induction false} KeysComeFromSources(ps: LineParsers, config: Config, failed: set<nat>, key: string)
    ensures var t := Apply(EMPTY, Writes(ps, config), failed);
            && (key in t.whitelist ==> FromDomain(WhitelistDomains(ps, config.whitelist), key))
            && (key in t.blacklist ==> FromDomain(BlacklistDomains(ps, config.blacklist), key))
            && (key in t.rewrites ==> FromOverride(Overrides(ps, config.overrides), key, t.rewrites[key]))
  {
    WritesProject(ps, config);
    KeysComeFromWrites(Writes(ps, config), failed, key);
  }

  lemma {:induction false} KeysComeFromWrites(writes: seq<Write>, failed: set<nat>, key: string)
    ensures var t := Apply(EMPTY, writes, failed);
            && (key in t.whitelist ==> FromDomain(Allowed(writes), key))
            && (key in t.blacklist ==> FromDomain(Denied(writes), key))
            && (key in t.rewrites ==> FromOverride(Aliased(writes), key, t.rewrites[key]))
  {
    var kept := Kept(writes, failed);
    ApplyIsTables(writes, failed);
    KeptIsPart(writes, failed);
    if key in Table(Flags(Allowed(kept))) {
      FlagFromDomain(Allowed(kept), Allowed(writes), key);
    }
    if key in Table(Flags(Denied(kept))) {
      FlagFromDomain(Denied(kept), Denied(writes), key);
    }
    if key in Table(Aliases(Aliased(kept))) {
      AliasFromOverride(Aliased(kept), Aliased(writes), key);
    }
  }

  /** The two flag stores depend only on which rules there are, not on their order or number. */
  lemma {:induction false} SameRulesSameFlags(domains: seq<string>, others: seq<string>)
    requires forall d :: d in domains <==> d in others
    ensures Table(Flags(domains)) == Table(Flags(others))
  {
    forall key: string
      ensures key in Table(Flags(domains)) <==> key in Table(Flags(others))
      ensures key in Table(Flags(domains)) ==> Table(Flags(domains))[key] == "true"
      ensures key in Table(Flags(others)) ==> Table(Flags(others))[key] == "true"
    {
      FlagKey(domains, key);
      FlagKey(others, key);
      if i :| 0 <= i < |domains| && NormalizeName(domains[i]) == key {
        assert domains[i] in others;
      }
      if i :| 0 <= i < |others| && NormalizeName(others[i]) == key {
        assert others[i] in domains;
      }
    }
  }

  /** The rewrite store keeps, per normalised key, the last alias in source and line order. */
  lemma {:induction false} RewritesKeepLast(cnames: seq<CName>, key: string, i: nat)
    requires i < |cnames| && NormalizeName(cnames[i].domain) == key
    requires forall j :: i < j < |cnames| ==> NormalizeName(cnames[j].domain) != key
    ensures key in Table(Aliases(cnames)) && Table(Aliases(cnames))[key] == NormalizeName(cnames[i].alias)
  {
    assert IsLast(Aliases(cnames), key, i);
    TableLast(Aliases(cnames), key, i);
  }
}
