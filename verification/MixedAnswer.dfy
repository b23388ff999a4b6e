/** A request that straddles a publication can get an answer that no published version gives:
    a run from program text to answer, for a configuration of one zone line and one domain. */
module MixedAnswer {
  import opened Text
  import opened Parsers
  import opened ZoneLines
  import opened Db
  import opened Rules
  import opened Compiler
  import opened Meaning
  import opened HotSwap
  import opened HotSwapSafety

  function StraddlingSteps(plan: Plan, config: Config, name: seq<string>): seq<Step> {
    [Arrive(name), LoadForRedirect(0), ReadRewrites(0)]
    + UpdateSteps(plan, config, {})
    + [LoadForBlocked(0), ReadWhitelist(0), ReadBlacklist(0)]
  }

  lemma {:induction false} EmptyAnswersNothing(query: string)
    ensures Lookup(map[], query) == None
  {
    FirstHitNone(map[], Keys(query));
  }

  lemma {:induction false} BeforeUpdate(plan: Plan, name: seq<string>) returns (s: State)
    ensures Run(plan, Start(), [Arrive(name), LoadForRedirect(0), ReadRewrites(0)]) == Some(s)
    ensures Inv(plan, s) && s.updater == Idle
    ensures s.requests == [Request(name, 0, NoRedirect(0))]
    ensures |s.versions| == 1 && s.versions[0].tables == EMPTY
  {
    var steps := [Arrive(name), LoadForRedirect(0), ReadRewrites(0)];
    EmptyAnswersNothing(Absolute(name));
    assert steps[..2][..1][..0] == [] && steps[..2][..1] == [Arrive(name)];
    assert steps[..2] == [Arrive(name), LoadForRedirect(0)];
    var x := Next(plan, Start(), Arrive(name)).value;
    RunOne(plan, Start(), Arrive(name));
    var y := Next(plan, x, LoadForRedirect(0)).value;
    assert Run(plan, Start(), steps[..2]) == Some(y);
    s := Next(plan, y, ReadRewrites(0)).value;
    StartInv(plan);
    RunInv(plan, Start(), steps);
  }

  lemma {:induction false} AfterUpdate(plan: Plan, s: State, name: seq<string>) returns (t: State)
    requires s.requests == [Request(name, 0, NoRedirect(0))] && |s.versions| == 2
    requires IsBlocked(s.versions[1].tables, Absolute(name))
    ensures Run(plan, s, [LoadForBlocked(0), ReadWhitelist(0), ReadBlacklist(0)]) == Some(t)
    ensures t.requests == [Request(name, 0, Answered(0, 1, Blocked))]
    ensures |t.versions| == 2 && t.versions[0].tables == s.versions[0].tables && t.versions[1].tables == s.versions[1].tables
  {
    var steps := [LoadForBlocked(0), ReadWhitelist(0), ReadBlacklist(0)];
    assert steps[..2][..1] == [LoadForBlocked(0)];
    assert steps[..2] == [LoadForBlocked(0), ReadWhitelist(0)];
    var x := Next(plan, s, LoadForBlocked(0)).value;
    RunOne(plan, s, LoadForBlocked(0));
    var y := Next(plan, x, ReadWhitelist(0)).value;
    assert Run(plan, s, steps[..2]) == Some(y);
    t := Next(plan, y, ReadBlacklist(0)).value;
  }

  /** For every configuration that both rewrites and blocks a name, a request that arrives
      before its first publication can be answered `Blocked`, while the empty version
      forwards the name and the new one rewrites it: no version gives the answer. */
  lemma {:induction false} StraddlingRequestIsMixed(plan: Plan, config: Config, name: seq<string>)
    requires Lookup(Apply(EMPTY, plan(config), {}).rewrites, Absolute(name)).Some?
    requires IsBlocked(Apply(EMPTY, plan(config), {}), Absolute(name))
    ensures Run(plan, Start(), StraddlingSteps(plan, config, name)).Some?
    ensures var s := Run(plan, Start(), StraddlingSteps(plan, config, name)).value;
            && |s.versions| == 2 && |s.requests| == 1
            && s.requests[0].phase == Answered(0, 1, Blocked)
            && Decide(s.versions[0].tables, Absolute(name)) == Forwarded
            && Decide(s.versions[1].tables, Absolute(name)).Rewritten?
            && !GivenBetween(s, 0, 1, Absolute(name), Blocked)
  {
    var before := [Arrive(name), LoadForRedirect(0), ReadRewrites(0)];
    var after := [LoadForBlocked(0), ReadWhitelist(0), ReadBlacklist(0)];
    var s := BeforeUpdate(plan, name);
    var t := Updated(plan, s, config);
    RunConcat(plan, Start(), before, UpdateSteps(plan, config, {}));
    var u := AfterUpdate(plan, t, name);
    RunConcat(plan, Start(), before + UpdateSteps(plan, config, {}), after);
    assert u == Run(plan, Start(), StraddlingSteps(plan, config, name)).value;
    NeverBlocked(u, name);
  }

  lemma {:induction false} Updated(plan: Plan, s: State, config: Config) returns (t: State)
    requires Inv(plan, s) && s.updater == Idle && |s.versions| == 1 && s.versions[0].tables == EMPTY
    ensures Run(plan, s, UpdateSteps(plan, config, {})) == Some(t)
    ensures t.requests == s.requests && |t.versions| == 2
    ensures t.versions[0].tables == EMPTY && t.versions[1].tables == Apply(EMPTY, plan(config), {})
  {
    UpdateSucceeds(plan, s, config, {});
    t := Run(plan, s, UpdateSteps(plan, config, {})).value;
    assert t.versions[..1][0].tables == s.versions[0].tables;
  }

  lemma {:induction false} NeverBlocked(s: State, name: seq<string>)
    requires |s.versions| == 2 && s.versions[0].tables == EMPTY
    requires Lookup(s.versions[1].tables.rewrites, Absolute(name)).Some?
    ensures Decide(s.versions[0].tables, Absolute(name)) == Forwarded
    ensures Decide(s.versions[1].tables, Absolute(name)).Rewritten?
    ensures !GivenBetween(s, 0, 1, Absolute(name), Blocked)
  {
    EmptyAnswersNothing(Absolute(name));
  }

  // ---------- the old database outlives the swap ----------

  lemma {:induction false} GuardTaken(plan: Plan, name: seq<string>) returns (s: State)
    ensures Run(plan, Start(), [Arrive(name), LoadForRedirect(0)]) == Some(s)
    ensures Inv(plan, s) && s.updater == Idle
    ensures s.requests == [Request(name, 0, InRedirect(0))] && |s.versions| == 1
    ensures s.versions[0].stores == [0, 1, 2]
  {
    var steps := [Arrive(name), LoadForRedirect(0)];
    assert steps[..1] == [Arrive(name)];
    var x := Next(plan, Start(), Arrive(name)).value;
    RunOne(plan, Start(), Arrive(name));
    s := Next(plan, x, LoadForRedirect(0)).value;
    StartInv(plan);
    RunInv(plan, Start(), steps);
  }

  function GuardedSteps(plan: Plan, config: Config, name: seq<string>): seq<Step> {
    [Arrive(name), LoadForRedirect(0)] + UpdateSteps(plan, config, {})
  }

  /** A request that holds a guard while an update publishes: two versions are there and
      nothing of the old one has been destroyed; its three stores go with the guard. */
  lemma {:induction false} OldVersionOutlivesSwap(plan: Plan, config: Config, name: seq<string>)
    ensures var run := Run(plan, Start(), GuardedSteps(plan, config, name));
            && run.Some? && |run.value.versions| == 2 && |run.value.kills| > 2
            && run.value.kills[..3] == [0, 0, 0]
    ensures var run := Run(plan, Start(), GuardedSteps(plan, config, name) + [ReadRewrites(0)]);
            && run.Some? && |run.value.versions| == 2 && |run.value.kills| > 2
            && run.value.kills[..3] == [1, 1, 1]
  {
    var steps := GuardedSteps(plan, config, name);
    var t := GuardedSwap(plan, config, name);
    OldStores(plan, steps, t);
    var u := GuardDropped(plan, steps, t);
    RunConcat(plan, Start(), steps, [ReadRewrites(0)]);
    OldStores(plan, steps + [ReadRewrites(0)], u);
  }

  lemma {:induction false} GuardedSwap(plan: Plan, config: Config, name: seq<string>) returns (t: State)
    ensures Run(plan, Start(), GuardedSteps(plan, config, name)) == Some(t)
    ensures FirstOfTwo(t) && t.requests[0].phase == InRedirect(0)
  {
    var s := GuardTaken(plan, name);
    UpdateSucceeds(plan, s, config, {});
    RunConcat(plan, Start(), [Arrive(name), LoadForRedirect(0)], UpdateSteps(plan, config, {}));
    t := Run(plan, s, UpdateSteps(plan, config, {})).value;
    assert t.versions[..1][0].stores == [0, 1, 2];
  }

  lemma {:induction false} GuardDropped(plan: Plan, steps: seq<Step>, t: State) returns (u: State)
    requires Run(plan, Start(), steps) == Some(t)
    requires FirstOfTwo(t) && t.requests[0].phase == InRedirect(0)
    ensures Run(plan, t, [ReadRewrites(0)]) == Some(u)
    ensures FirstOfTwo(u) && Guard(u.requests[0].phase) == None
  {
    StartInv(plan);
    RunInv(plan, Start(), steps);
    HeldByGuard(plan, t, 0);
    RunOne(plan, t, ReadRewrites(0));
    u := Next(plan, t, ReadRewrites(0)).value;
  }

  /** The initial version and one more, one request, and no update in progress. */
  ghost predicate FirstOfTwo(t: State) {
    t.updater == Idle && |t.versions| == 2 && |t.requests| == 1 && t.versions[0].stores == [0, 1, 2]
  }

  /** The three stores of the first of two versions are there while its guard is held. */
  lemma {:induction false} OldStores(plan: Plan, steps: seq<Step>, t: State)
    requires Run(plan, Start(), steps) == Some(t) && FirstOfTwo(t)
    ensures var killed := if Guard(t.requests[0].phase) == Some(0) then 0 else 1;
            |t.kills| > 2 && t.kills[..3] == [killed, killed, killed]
  {
    OldStore(plan, steps, t, 0);
    OldStore(plan, steps, t, 1);
    OldStore(plan, steps, t, 2);
  }

  lemma {:induction false} OldStore(plan: Plan, steps: seq<Step>, t: State, k: nat)
    requires Run(plan, Start(), steps) == Some(t) && FirstOfTwo(t) && k < 3
    ensures k < |t.kills| && t.kills[k] == if Guard(t.requests[0].phase) == Some(0) then 0 else 1
  {
    StartInv(plan);
    RunInv(plan, Start(), steps);
    OldStoreIsOwned(plan, t, k);
    LiveByOwner(plan, t, k);
    OneGuard(t);
    OwnedIsLive(t, k);
  }

  lemma {:induction false} OldStoreIsOwned(plan: Plan, t: State, k: nat)
    requires Inv(plan, t) && FirstOfTwo(t) && k < 3
    ensures k < |t.owner| == |t.kills| && k in t.versions[0].stores && k !in t.versions[1].stores
  {
    assert Owns(t.owner, t.versions[0].stores, Of(0));
    assert Owns(t.owner, t.versions[1].stores, Of(1));
    assert t.versions[0].stores[k] == k;
    OwnedOnce(t.owner, t.versions[0].stores, t.versions[1].stores, k);
  }

  lemma {:induction false} OwnedOnce(owner: seq<Owner>, a: seq<nat>, b: seq<nat>, k: nat)
    requires Owns(owner, a, Of(0)) && Owns(owner, b, Of(1)) && k in a
    ensures k < |owner| && k !in b
  {
    assert owner[k] == Of(0);
  }

  lemma {:induction false} OneGuard(t: State)
    requires FirstOfTwo(t)
    ensures Referenced(t, 0) <==> Guard(t.requests[0].phase) == Some(0)
  {
  }

  lemma {:induction false} OwnedIsLive(t: State, k: nat)
    requires FirstOfTwo(t) && k in t.versions[0].stores && k !in t.versions[1].stores
    ensures Live(t, k) <==> Referenced(t, 0)
  {
  }

  lemma {:induction false} LinesOfOne(line: string)
    requires line != "" && '\n' !in line
    ensures Lines(line) == [line]
  {
    SplitWord(line, '\n');
  }

  lemma {:induction false} LoadOneLine<T>(line: string, parse: string -> Option<T>, v: T)
    requires line != "" && '\n' !in line && parse(line) == Some(v)
    ensures Load(Some(line), parse) == [v]
  {
    LinesOfOne(line);
    assert LinesOf(Some(line)) == [line];
    assert [line][..0] == [] && FilterMap([line][..0], parse) == [];
  }

  lemma {:induction false} FlatMapOne<S, T>(source: S, load: S -> seq<T>)
    ensures FlatMap([source], load) == load(source)
  {
    assert [source][..0] == [] && FlatMap([source][..0], load) == [];
  }

  function StraddlingConfig(name: string, alias: string): Config {
    Config([Source(BlacklistFormat.Domains, Some(name))], [],
           [Source(Cname, Some(ZoneLine(name, " ", "CNAME", " ", alias, "")))])
  }

  /** The rules on the lines of that configuration. */
  lemma {:induction false} StraddlingRules(ps: LineParsers, name: string, alias: string)
    requires NoSpace(name) && NoSpace(alias) && name != "" && ps.domains(name) == Some(name)
    requires ps.cname(ZoneLine(name, " ", "CNAME", " ", alias, "")) == Some(CName(name, alias))
    ensures var config := StraddlingConfig(name, alias);
            && BlacklistDomains(ps, config.blacklist) == [name]
            && WhitelistDomains(ps, config.whitelist) == []
            && Overrides(ps, config.overrides) == [CName(name, alias)]
  {
    var line := ZoneLine(name, " ", "CNAME", " ", alias, "");
    ZoneLineIsLine(name, alias);
    LoadOneLine(name, ps.domains, name);
    LoadOneLine(line, ps.cname, CName(name, alias));
    FlatMapOne(Source(BlacklistFormat.Domains, Some(name)), LoadBlacklist(ps));
    FlatMapOne(Source(Cname, Some(line)), LoadRewrites(ps));
  }

  lemma {:induction false} ProgramReadsThem(lib: Lib, name: string, alias: string)
    requires WholeName(name) && WholeName(alias) && Stable(lib, name) && Stable(lib, alias)
    ensures var ps := ProgramParsers(lib);
            && ps.domains(name) == Some(name)
            && ps.cname(ZoneLine(name, " ", "CNAME", " ", alias, "")) == Some(CName(name, alias))
  {
    ParseStable(lib, name);
    ZoneRoundTrip(lib, name, " ", "CNAME", " ", alias, "");
  }

  lemma {:induction false} ZoneLineIsLine(name: string, alias: string)
    requires NoSpace(name) && NoSpace(alias)
    ensures var line := ZoneLine(name, " ", "CNAME", " ", alias, ""); line != "" && '\n' !in line
  {
  }

  /** With the program's own parsers: any two whole names that the libraries leave alone make
      such a configuration. */
  lemma {:induction false} ProgramCanMix(lib: Lib, name: string, alias: string, labels: seq<string>)
    requires WholeName(name) && WholeName(alias) && Stable(lib, name) && Stable(lib, alias)
    requires IsName(labels) && Covers(RuleOf(name), labels)
    ensures var plan := (c: Config) => Writes(ProgramParsers(lib), c);
            var run := Run(plan, Start(), StraddlingSteps(plan, StraddlingConfig(name, alias), labels));
            && run.Some? && |run.value.versions| == 2 && |run.value.requests| == 1
            && run.value.requests[0].phase == Answered(0, 1, Blocked)
            && Decide(run.value.versions[0].tables, Absolute(labels)) == Forwarded
            && Decide(run.value.versions[1].tables, Absolute(labels)).Rewritten?
            && !GivenBetween(run.value, 0, 1, Absolute(labels), Blocked)
  {
    var ps, config := ProgramParsers(lib), StraddlingConfig(name, alias);
    var plan := (c: Config) => Writes(ps, c);
    ProgramReadsThem(lib, name, alias);
    StraddlingRules(ps, name, alias);
    CompiledTables(ps, config);
    IndexMeansRules([name], [], [CName(name, alias)], labels);
    OneRuleCovers(name, alias, labels);
    StraddlingRequestIsMixed(plan, config, labels);
  }

  lemma {:induction false} OneRuleCovers(name: string, alias: string, labels: seq<string>)
    requires Covers(RuleOf(name), labels)
    ensures BlockedBy([name], [], labels)
    ensures RedirectBy([CName(name, alias)], labels).Some?
  {
    assert DomainRules([name])[0] == RuleOf(name);
    var rules := AliasRules([CName(name, alias)]);
    assert rules[0] == RuleOf(name);
    BestIsWinner(rules, labels);
    assert IsWinner(rules, labels, 0);
  }
}
