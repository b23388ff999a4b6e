/** What the hot swap guarantees in every interleaving. */
module HotSwapSafety {
  import opened Text
  import opened Db
  import opened Rules
  import opened Compiler
  import opened Meaning
  import opened HotSwap

  // ---------- answers ----------

  /** Every answer comes from one or two completely compiled published versions, no older
      than the one that was published when the request arrived, and in order. */
  lemma {:induction false} AnsweredByVersions(plan: Plan, steps: seq<Step>, id: nat)
    requires Run(plan, Start(), steps).Some?
    requires id < |Run(plan, Start(), steps).value.requests|
    requires Run(plan, Start(), steps).value.requests[id].phase.Answered?
    ensures var s := Run(plan, Start(), steps).value;
            var Request(name, since, Answered(i, j, decision)) := s.requests[id];
            && since <= i <= j < |s.versions|
            && s.versions[i].tables == Compiled(plan, s.versions[i])
            && s.versions[j].tables == Compiled(plan, s.versions[j])
            && decision == Answer(s.versions[i].tables, s.versions[j].tables, Absolute(name))
            && (i == j ==> decision == Decide(s.versions[i].tables, Absolute(name)))
  {
    StartInv(plan);
    RunInv(plan, Start(), steps);
    var s := Run(plan, Start(), steps).value;
    assert RequestOk(s.versions, s.requests[id]);
  }

  /** The writes behind a published version that were carried out; the first has none. */
  function Carried(ps: LineParsers, v: Version): seq<Write> {
    match v.config
    case Some(c) => Kept(Writes(ps, c), v.failed)
    case None => []
  }

  lemma {:induction false} VersionMeansRules(ps: LineParsers, v: Version, name: seq<string>)
    requires IsName(name) && v.tables == Compiled((c: Config) => Writes(ps, c), v)
    ensures var kept := Carried(ps, v);
            && Lookup(v.tables.rewrites, Absolute(name)) == RedirectBy(Aliased(kept), name)
            && IsBlocked(v.tables, Absolute(name)) == BlockedBy(Denied(kept), Allowed(kept), name)
    ensures v.config.Some? && v.failed == {} ==> Decide(v.tables, Absolute(name)) == Evaluate(ps, v.config.value, name)
  {
    match v.config
    case Some(c) =>
      AnyWritesMeanKept(Writes(ps, c), v.failed, name);
      if v.failed == {} {
        CompilationPreservesMeaning(ps, c, name);
      }
    case None =>
      AnyWritesMeanKept([], {}, name);
  }

  /** End to end: an answer is the evaluation of rules on source lines, the rewrite rules of
      one published configuration and the blocking rules of the same or a later one; only
      rules whose writes failed are missing. */
  lemma {:induction false} AnswersMeanRules(ps: LineParsers, steps: seq<Step>, id: nat)
    requires Run((c: Config) => Writes(ps, c), Start(), steps).Some?
    requires id < |Run((c: Config) => Writes(ps, c), Start(), steps).value.requests|
    requires var s := Run((c: Config) => Writes(ps, c), Start(), steps).value;
             s.requests[id].phase.Answered? && IsName(s.requests[id].name)
    ensures var s := Run((c: Config) => Writes(ps, c), Start(), steps).value;
            var Request(name, since, Answered(i, j, decision)) := s.requests[id];
            && since <= i <= j < |s.versions|
            && var first, second := Carried(ps, s.versions[i]), Carried(ps, s.versions[j]);
               && decision == (match RedirectBy(Aliased(first), name)
                               case Some(alias) => Rewritten(alias)
                               case None => if BlockedBy(Denied(second), Allowed(second), name) then Blocked else Forwarded)
               && (i == j && s.versions[i].config.Some? && s.versions[i].failed == {} ==>
                     decision == Evaluate(ps, s.versions[i].config.value, name))
  {
    var plan := (c: Config) => Writes(ps, c);
    AnsweredByVersions(plan, steps, id);
    var s := Run(plan, Start(), steps).value;
    var r := s.requests[id];
    VersionMeansRules(ps, s.versions[r.phase.i], r.name);
    VersionMeansRules(ps, s.versions[r.phase.j], r.name);
  }

  /** Some version published from the first load to the second gives this decision. */
  ghost predicate GivenBetween(s: State, i: nat, j: nat, query: string, decision: Decision) {
    exists v: nat :: i <= v <= j < |s.versions| && decision == Decide(s.versions[v].tables, query)
  }

  /** Some version published from the first load to the second does not rewrite the name and
      blocks it just when version `j` does. */
  ghost predicate BlocksAlike(s: State, i: nat, j: nat, query: string) {
    exists v: nat :: i <= v <= j < |s.versions| && Agrees(s.versions[v].tables, s.versions[j].tables, query)
  }

  predicate Agrees(t: Tables, last: Tables, query: string) {
    Lookup(t.rewrites, query) == None && IsBlocked(t, query) == IsBlocked(last, query)
  }

  lemma {:induction false} DecidesAlike(t: Tables, first: Tables, last: Tables, query: string)
    requires Lookup(first.rewrites, query) == None
    ensures Answer(first, last, query) == Decide(t, query) <==> Agrees(t, last, query)
  {
  }

  /** Exactly when an answer is the decision of a version published between the two loads of
      its request, both ends included: the first version rewrites the name, or one of them
      does not and blocks it as the last one does. */
  lemma {:induction false} MixedAnswerIff(plan: Plan, steps: seq<Step>, id: nat)
    requires Run(plan, Start(), steps).Some?
    requires id < |Run(plan, Start(), steps).value.requests|
    requires Run(plan, Start(), steps).value.requests[id].phase.Answered?
    ensures var s := Run(plan, Start(), steps).value;
            var Request(name, _, Answered(i, j, decision)) := s.requests[id];
            && i <= j < |s.versions|
            && (GivenBetween(s, i, j, Absolute(name), decision)
                <==> Lookup(s.versions[i].tables.rewrites, Absolute(name)).Some? || BlocksAlike(s, i, j, Absolute(name)))
  {
    AnsweredByVersions(plan, steps, id);
    var s := Run(plan, Start(), steps).value;
    var Request(name, _, Answered(i, j, decision)) := s.requests[id];
    var query := Absolute(name);
    if Lookup(s.versions[i].tables.rewrites, query).Some? {
      assert decision == Decide(s.versions[i].tables, query);
    } else {
      AlikeBetween(s, i, j, query);
    }
  }

  lemma {:induction false} AlikeBetween(s: State, i: nat, j: nat, query: string)
    requires i <= j < |s.versions| && Lookup(s.versions[i].tables.rewrites, query) == None
    ensures GivenBetween(s, i, j, query, Answer(s.versions[i].tables, s.versions[j].tables, query)) <==> BlocksAlike(s, i, j, query)
  {
    forall v: nat | i <= v <= j
      ensures Answer(s.versions[i].tables, s.versions[j].tables, query) == Decide(s.versions[v].tables, query)
         <==> Agrees(s.versions[v].tables, s.versions[j].tables, query)
    {
      DecidesAlike(s.versions[v].tables, s.versions[i].tables, s.versions[j].tables, query);
    }
  }

  // ---------- no publication between the two loads ----------

  predicate Between(s: State, id: nat) {
    id < |s.requests| && (s.requests[id].phase.InRedirect? || s.requests[id].phase.NoRedirect?)
  }

  /** Request `id` has seen, and while it is between its loads can only see, one version. */
  ghost predicate Steady(s: State, id: nat) {
    id < |s.requests| ==>
      match s.requests[id].phase
      case InRedirect(i) => i == Published(s)
      case NoRedirect(i) => i == Published(s)
      case InBlocked(i, j) => i == j
      case NotAllowed(i, j) => i == j
      case Answered(i, j, _) => i == j
      case _ => true
  }

  /** No publication happens while request `id` is between its two loads. */
  ghost predicate QuietFor(plan: Plan, s: State, steps: seq<Step>, id: nat) {
    forall k :: 0 <= k < |steps| && steps[k].Publish? ==>
      match Run(plan, s, steps[..k])
      case Some(t) => !Between(t, id)
      case None => true
  }

  lemma {:induction false} UpdaterStepFrame(plan: Plan, s: State, step: Step)
    requires UpdaterStep(plan, s, step).Some?
    ensures var t := UpdaterStep(plan, s, step).value;
            t.requests == s.requests && |t.versions| == |s.versions| + if step.Publish? then 1 else 0
  {
  }

  lemma {:induction false} RequestStepFrame(s: State, id: nat, step: Step)
    requires id < |s.requests| && RequestStep(s, id, step).Some?
    ensures var t := RequestStep(s, id, step).value;
            && |t.versions| == |s.versions|
            && |t.requests| == |s.requests|
            && (forall other :: 0 <= other < |s.requests| && other != id ==> t.requests[other] == s.requests[other])
            && (Steady(s, id) ==> Steady(t, id))
  {
  }

  lemma {:induction false} SteadyStep(plan: Plan, s: State, step: Step, id: nat)
    requires Steady(s, id) && Next(plan, s, step).Some?
    requires step.Publish? ==> !Between(s, id)
    ensures Steady(Next(plan, s, step).value, id)
  {
    if step.Arrive? {
      return;
    }
    match IdOf(step)
    case Some(other) => RequestStepFrame(s, other, step);
    case None => UpdaterStepFrame(plan, s, step);
  }

  lemma {:induction false} SteadyRun(plan: Plan, s: State, steps: seq<Step>, id: nat)
    requires Steady(s, id) && Run(plan, s, steps).Some? && QuietFor(plan, s, steps, id)
    ensures Steady(Run(plan, s, steps).value, id)
  {
    if steps == [] {
    } else {
      var n := |steps| - 1;
      forall k | 0 <= k < n && steps[..n][k].Publish?
        ensures match Run(plan, s, steps[..n][..k]) case Some(t) => !Between(t, id) case None => true
      {
        assert steps[..n][..k] == steps[..k];
      }
      SteadyRun(plan, s, steps[..n], id);
      SteadyStep(plan, Run(plan, s, steps[..n]).value, steps[n], id);
    }
  }

  /** Then the answer is the decision of a single published version. */
  lemma {:induction false} QuietAnswerIsOneVersion(plan: Plan, steps: seq<Step>, id: nat)
    requires Run(plan, Start(), steps).Some? && QuietFor(plan, Start(), steps, id)
    requires id < |Run(plan, Start(), steps).value.requests|
    requires Run(plan, Start(), steps).value.requests[id].phase.Answered?
    ensures var s := Run(plan, Start(), steps).value;
            var Request(name, since, Answered(i, j, decision)) := s.requests[id];
            since <= i < |s.versions| && decision == Decide(s.versions[i].tables, Absolute(name))
  {
    SteadyRun(plan, Start(), steps, id);
    AnsweredByVersions(plan, steps, id);
  }

  // ---------- lifetime of stores ----------

  /** Version `v` is published or some request holds a guard on it. */
  ghost predicate Referenced(s: State, v: nat) {
    v == |s.versions| - 1 || exists id :: 0 <= id < |s.requests| && Guard(s.requests[id].phase) == Some(v)
  }

  /** Store `k` belongs to the update in progress or to a version somebody refers to. */
  ghost predicate Live(s: State, k: nat) {
    k in Made(s.updater) || exists v: nat :: v < |s.versions| && Referenced(s, v) && k in s.versions[v].stores
  }

  lemma {:induction false} SomeGuard(requests: seq<Request>, v: nat)
    ensures Guards(requests, v) > 0 <==> exists id :: 0 <= id < |requests| && Guard(requests[id].phase) == Some(v)
  {
    if requests == [] {
    } else {
      var n := |requests| - 1;
      SomeGuard(requests[..n], v);
      if id :| 0 <= id < |requests| && Guard(requests[id].phase) == Some(v) {
        assert id < n ==> requests[..n][id] == requests[id];
      }
    }
  }

  lemma {:induction false} HeldIffReferenced(plan: Plan, s: State, v: nat)
    requires Inv(plan, s) && v < |s.versions|
    ensures s.versions[v].refs > 0 <==> Referenced(s, v)
  {
    SomeGuard(s.requests, v);
  }

  /** In every state of every run a store has been destroyed at most once, and exactly when
      nobody refers to it any more. */
  lemma {:induction false} DestroyedIffUnused(plan: Plan, steps: seq<Step>, k: nat)
    requires Run(plan, Start(), steps).Some?
    requires k < |Run(plan, Start(), steps).value.owner|
    ensures var s := Run(plan, Start(), steps).value;
            k < |s.kills| && s.kills[k] == if Live(s, k) then 0 else 1
  {
    StartInv(plan);
    RunInv(plan, Start(), steps);
    var s := Run(plan, Start(), steps).value;
    LiveByOwner(plan, s, k);
  }

  lemma {:induction false} LiveByOwner(plan: Plan, s: State, k: nat)
    requires Inv(plan, s) && k < |s.owner|
    ensures s.kills[k] == if Live(s, k) then 0 else 1
  {
    assert k in Made(s.updater) <==> s.owner[k] == Updating;
    forall v: nat | v < |s.versions|
      ensures k in s.versions[v].stores <==> s.owner[k] == Of(v)
      ensures s.versions[v].refs > 0 <==> Referenced(s, v)
    {
      assert Owns(s.owner, s.versions[v].stores, Of(v));
      HeldIffReferenced(plan, s, v);
    }
    if s.owner[k].Of? {
      var v := s.owner[k].version;
      assert k in s.versions[v].stores;
    }
  }

  function Sum(counts: seq<nat>): nat {
    if counts == [] then 0 else Sum(counts[..|counts| - 1]) + counts[|counts| - 1]
  }

  ghost function LiveStores(s: State): set<nat> {
    set k: nat | k < |s.owner| && Live(s, k)
  }

  lemma {:induction false} SumAndZeros(kills: seq<nat>, zeros: set<nat>)
    requires forall k :: 0 <= k < |kills| ==> kills[k] == if k in zeros then 0 else 1
    requires forall k :: k in zeros ==> k < |kills|
    ensures |kills| == Sum(kills) + |zeros|
  {
    if kills == [] {
      assert zeros == {};
    } else {
      var n := |kills| - 1;
      SumAndZeros(kills[..n], zeros - {n});
      assert n !in zeros ==> zeros - {n} == zeros;
    }
  }

  /** Created stores are the live ones and the destroyed ones. */
  lemma {:induction false} StoreLedger(plan: Plan, steps: seq<Step>)
    requires Run(plan, Start(), steps).Some?
    ensures var s := Run(plan, Start(), steps).value; |s.owner| == Sum(s.kills) + |LiveStores(s)|
  {
    var s := Run(plan, Start(), steps).value;
    StartInv(plan);
    RunInv(plan, Start(), steps);
    forall k: nat | k < |s.kills|
      ensures s.kills[k] == if k in LiveStores(s) then 0 else 1
    {
      LiveByOwner(plan, s, k);
    }
    SumAndZeros(s.kills, LiveStores(s));
  }

  /** When nothing is in flight, only the three stores of the published version are left. */
  lemma {:induction false} QuiescentStores(plan: Plan, steps: seq<Step>)
    requires Run(plan, Start(), steps).Some?
    requires var s := Run(plan, Start(), steps).value;
             s.updater.Idle? && forall id :: 0 <= id < |s.requests| ==> Guard(s.requests[id].phase) == None
    ensures var s := Run(plan, Start(), steps).value;
            && |s.versions| > 0
            && (forall k :: k in LiveStores(s) <==> k in s.versions[|s.versions| - 1].stores)
            && |LiveStores(s)| == 3
  {
    var s := Run(plan, Start(), steps).value;
    StartInv(plan);
    RunInv(plan, Start(), steps);
    var cur := |s.versions| - 1;
    var stores := s.versions[cur].stores;
    assert |stores| == 3 && Owns(s.owner, stores, Of(cur));
    forall k: nat
      ensures k in LiveStores(s) <==> k in stores
    {
      OnlyCurrentLives(s, k);
    }
    ThreeStores(stores, LiveStores(s));
  }

  lemma {:induction false} ThreeStores(stores: seq<nat>, live: set<nat>)
    requires |stores| == 3 && Distinct(stores)
    requires forall k: nat :: k in live <==> k in stores
    ensures |live| == 3
  {
    assert live == {stores[0], stores[1], stores[2]};
  }

  lemma {:induction false} OnlyCurrentLives(s: State, k: nat)
    requires s.updater.Idle? && s.versions != []
    requires forall id :: 0 <= id < |s.requests| ==> Guard(s.requests[id].phase) == None
    ensures Live(s, k) <==> k in s.versions[|s.versions| - 1].stores
  {
    assert Referenced(s, |s.versions| - 1);
  }

  /** A failed update leaves the published versions and the requests alone and destroys
      exactly the stores it has created. */
  lemma {:induction false} FailedUpdate(plan: Plan, steps: seq<Step>, failure: Step)
    requires Run(plan, Start(), steps).Some? && (failure.CreateFails? || failure.ConfigFails?)
    requires Next(plan, Run(plan, Start(), steps).value, failure).Some?
    ensures var s := Run(plan, Start(), steps).value;
            var t := Next(plan, s, failure).value;
            && t.versions == s.versions && t.requests == s.requests && t.updater == Idle
            && |t.kills| == |s.kills|
            && forall k :: 0 <= k < |s.kills| ==>
                 t.kills[k] == s.kills[k] + if k in Made(s.updater) then 1 else 0
  {
    var s := Run(plan, Start(), steps).value;
    StartInv(plan);
    RunInv(plan, Start(), steps);
    forall k: nat | k < |s.kills|
      ensures multiset(Made(s.updater))[k] == if k in Made(s.updater) then 1 else 0
    {
      CountOnce(Made(s.updater), k);
    }
  }

  // ---------- nothing gets stuck ----------

  function NextStep(phase: Phase, id: nat): Step {
    match phase
    case InRedirect(_) => ReadRewrites(id)
    case NoRedirect(_) => LoadForBlocked(id)
    case InBlocked(_, _) => ReadWhitelist(id)
    case NotAllowed(_, _) => ReadBlacklist(id)
    case _ => LoadForRedirect(id)
  }

  lemma {:induction false} NextStepEnabled(plan: Plan, s: State, id: nat)
    requires id < |s.requests| && s.versions != []
    requires Guard(s.requests[id].phase).Some? ==> Holds(s, Guard(s.requests[id].phase).value)
    requires !s.requests[id].phase.Answered? && !s.requests[id].phase.Failed?
    ensures Next(plan, s, NextStep(s.requests[id].phase, id)).Some?
  {
  }

  /** A request that has not finished can always take a step, whatever the updater does. */
  lemma {:induction false} RequestNeverStuck(plan: Plan, steps: seq<Step>, id: nat)
    requires Run(plan, Start(), steps).Some? && id < |Run(plan, Start(), steps).value.requests|
    requires var phase := Run(plan, Start(), steps).value.requests[id].phase; !phase.Answered? && !phase.Failed?
    ensures var s := Run(plan, Start(), steps).value;
            Next(plan, s, NextStep(s.requests[id].phase, id)).Some?
  {
    var s := Run(plan, Start(), steps).value;
    StartInv(plan);
    RunInv(plan, Start(), steps);
    if Guard(s.requests[id].phase).Some? {
      HeldByGuard(plan, s, id);
    }
    NextStepEnabled(plan, s, id);
  }

  /** The steps of an update that succeeds; the writes numbered in `failed` fail. */
  function UpdateSteps(plan: Plan, config: Config, failed: set<nat>): seq<Step> {
    [CreateStore, CreateStore, CreateStore, ConfigLoads(config)] + WriteSteps(|plan(config)|, failed) + [Publish]
  }

  function WriteSteps(m: nat, failed: set<nat>): seq<Step> {
    seq(m, i => WriteNext(i !in failed))
  }

  function FailedBelow(m: nat, failed: set<nat>): set<nat> {
    set i: nat | i < m && i in failed
  }

  lemma {:induction false} RunConcat(plan: Plan, s: State, a: seq<Step>, b: seq<Step>)
    requires Run(plan, s, a).Some?
    ensures Run(plan, s, a + b) == Run(plan, Run(plan, s, a).value, b)
  {
    if b == [] {
      assert a + b == a;
    } else {
      var n := |b| - 1;
      assert (a + b)[..|a + b| - 1] == a + b[..n];
      RunConcat(plan, s, a, b[..n]);
    }
  }

  lemma {:induction false} RunOne(plan: Plan, s: State, step: Step)
    ensures Run(plan, s, [step]) == Next(plan, s, step)
  {
    assert [step][..0] == [];
  }

  /** The updater after its first `m` writes. */
  function Written(plan: Plan, s: State, m: nat, failed: set<nat>): State
    requires s.updater.Writing? && m <= |plan(s.updater.config)|
  {
    s.(updater := s.updater.(
      n := m, failed := FailedBelow(m, failed), tables := Apply(EMPTY, plan(s.updater.config)[..m], failed)))
  }

  lemma {:induction false} WriteStep(plan: Plan, s: State, failed: set<nat>)
    requires s.updater.Writing? && s.updater.n < |plan(s.updater.config)|
    requires s.updater.failed == FailedBelow(s.updater.n, failed)
    requires s.updater.tables == Apply(EMPTY, plan(s.updater.config)[..s.updater.n], failed)
    ensures Next(plan, s, WriteNext(s.updater.n !in failed)) == Some(Written(plan, s, s.updater.n + 1, failed))
  {
    var writes, n := plan(s.updater.config), s.updater.n;
    assert writes[..n + 1] == writes[..n] + [writes[n]];
    ApplySnoc(EMPTY, writes[..n], writes[n], failed);
    assert FailedBelow(n + 1, failed) == if n in failed then FailedBelow(n, failed) + {n} else FailedBelow(n, failed);
  }

  lemma {:induction false} WritesRun(plan: Plan, s: State, m: nat, failed: set<nat>)
    requires s.updater.Writing? && s.updater.n == 0 && m <= |plan(s.updater.config)|
    requires s.updater.failed == {} && s.updater.tables == EMPTY
    ensures Run(plan, s, WriteSteps(m, failed)) == Some(Written(plan, s, m, failed))
  {
    if m == 0 {
      assert plan(s.updater.config)[..0] == [] && WriteSteps(0, failed) == [];
      assert FailedBelow(0, failed) == {};
    } else {
      WritesRun(plan, s, m - 1, failed);
      assert WriteSteps(m, failed)[..m - 1] == WriteSteps(m - 1, failed);
      WriteStep(plan, Run(plan, s, WriteSteps(m - 1, failed)).value, failed);
    }
  }

  /** With the updater idle, these steps can always be taken, whatever requests are in flight
      and whatever writes fail, and publish the completely compiled configuration. */
  lemma {:induction false} UpdateSucceeds(plan: Plan, s: State, config: Config, failed: set<nat>)
    requires Inv(plan, s) && s.updater == Idle
    ensures Run(plan, s, UpdateSteps(plan, config, failed)).Some?
    ensures var t := Run(plan, s, UpdateSteps(plan, config, failed)).value;
            && t.requests == s.requests && t.updater == Idle
            && |t.versions| == |s.versions| + 1
            && SameBut(s.versions, t.versions[..|s.versions|])
            && t.versions[|s.versions|].config == Some(config)
            && t.versions[|s.versions|].tables == Apply(EMPTY, plan(config), failed)
  {
    PublishedIsHeld(plan, s);
    var b := FilledRun(plan, s, config, failed);
    var steps := [CreateStore, CreateStore, CreateStore, ConfigLoads(config)] + WriteSteps(|plan(config)|, failed);
    RunConcat(plan, s, steps, [Publish]);
    RunOne(plan, b, Publish);
    PublishStep(plan, b);
  }

  lemma {:induction false} PublishedIsHeld(plan: Plan, s: State)
    requires Inv(plan, s)
    ensures s.versions != [] && Holds(s, |s.versions| - 1)
  {
  }

  lemma {:induction false} PublishStep(plan: Plan, s: State)
    requires s.updater.Writing? && s.updater.n == |plan(s.updater.config)|
    requires s.versions != [] && Holds(s, |s.versions| - 1)
    ensures Next(plan, s, Publish).Some?
    ensures var t := Next(plan, s, Publish).value;
            && t.requests == s.requests && t.updater == Idle
            && |t.versions| == |s.versions| + 1
            && SameBut(s.versions, t.versions[..|s.versions|])
            && t.versions[|s.versions|] == Version(s.updater.made, Some(s.updater.config), s.updater.failed, s.updater.tables, 1)
  {
  }

  lemma {:induction false} FilledRun(plan: Plan, s: State, config: Config, failed: set<nat>) returns (b: State)
    requires s.updater == Idle
    ensures Run(plan, s, [CreateStore, CreateStore, CreateStore, ConfigLoads(config)] + WriteSteps(|plan(config)|, failed)) == Some(b)
    ensures b.versions == s.versions && b.requests == s.requests
    ensures b.updater.Writing? && b.updater.config == config && b.updater.n == |plan(config)|
    ensures b.updater.tables == Apply(EMPTY, plan(config), failed)
  {
    var create := [CreateStore, CreateStore, CreateStore, ConfigLoads(config)];
    var a := CreateRun(plan, s, config);
    WritesRun(plan, a, |plan(config)|, failed);
    assert plan(config)[..|plan(config)|] == plan(config);
    RunConcat(plan, s, create, WriteSteps(|plan(config)|, failed));
    b := Run(plan, a, WriteSteps(|plan(config)|, failed)).value;
  }

  lemma {:induction false} CreateRun(plan: Plan, s: State, config: Config) returns (t: State)
    requires s.updater == Idle
    ensures Run(plan, s, [CreateStore, CreateStore, CreateStore, ConfigLoads(config)]) == Some(t)
    ensures t.versions == s.versions && t.requests == s.requests
    ensures t.updater.Writing? && t.updater.config == config && t.updater.n == 0
    ensures t.updater.failed == {} && t.updater.tables == EMPTY
  {
    var steps := [CreateStore, CreateStore, CreateStore, ConfigLoads(config)];
    assert steps[..3][..2][..1][..0] == [];
    assert steps[..3][..2][..1] == [CreateStore] && steps[..3][..2] == [CreateStore, CreateStore];
    assert steps[..3] == [CreateStore, CreateStore, CreateStore];
    var x := Next(plan, s, CreateStore).value;
    RunOne(plan, s, CreateStore);
    var y := Next(plan, x, CreateStore).value;
    var z := Next(plan, y, CreateStore).value;
    assert Run(plan, s, steps[..3][..2]) == Some(y);
    assert Run(plan, s, steps[..3]) == Some(z);
    t := Next(plan, z, ConfigLoads(config)).value;
  }
}
