/** The hot swap as a state machine: one updater and any number of requests, interleaved at
    every creation of a store, write, load of the published pointer, read and drop. */
module HotSwap {
  import opened Text
  import opened Db
  import opened Rules
  import opened Compiler
  import opened Meaning

  /** The writes that compiling a configuration makes. */
  type Plan = Config -> seq<Write>

  /** A published database: its three stores, the configuration it was compiled from (none
      for the first, empty one), the writes that failed, its contents, and the number of
      references to it: one while it is published and one per guard. */
  datatype Version = Version(stores: seq<nat>, config: Option<Config>, failed: set<nat>, tables: Tables, refs: nat)

  datatype Owner = Updating | Of(version: nat) | Lost

  datatype Updater =
    | Idle
    | Creating(made: seq<nat>)
    | Writing(made: seq<nat>, config: Config, failed: set<nat>, n: nat, tables: Tables)

  /** A request loads the published version twice. `InRedirect(i)` and `InBlocked(i, j)`,
      `NotAllowed(i, j)` hold a guard on the version loaded last. */
  datatype Phase =
    | Arrived
    | InRedirect(i: nat)
    | NoRedirect(i: nat)
    | InBlocked(i: nat, j: nat)
    | NotAllowed(i: nat, j: nat)
    | Answered(i: nat, j: nat, decision: Decision)
    | Failed

  datatype Request = Request(name: seq<string>, since: nat, phase: Phase)

  /** Stores are numbered in the order of their creation; `owner` says whose they are and
      `kills` how often each has been destroyed. */
  datatype State = State(
    versions: seq<Version>,
    owner: seq<Owner>,
    kills: seq<nat>,
    updater: Updater,
    requests: seq<Request>)

  datatype Step =
    | CreateStore
    | CreateFails
    | ConfigFails
    | ConfigLoads(config: Config)
    | WriteNext(written: bool)
    | Publish
    | Arrive(name: seq<string>)
    | LoadForRedirect(id: nat)
    | ReadRewrites(id: nat)
    | LoadForBlocked(id: nat)
    | ReadWhitelist(id: nat)
    | ReadBlacklist(id: nat)
    | ReadFails(id: nat)

  // ---------- steps ----------

  /** `AdblockEngine::new`: three empty stores are published. */
  function Start(): State {
    State([Version([0, 1, 2], None, {}, EMPTY, 1)], [Of(0), Of(0), Of(0)], [0, 0, 0], Idle, [])
  }

  function Guard(phase: Phase): Option<nat> {
    match phase
    case InRedirect(i) => Some(i)
    case InBlocked(_, j) => Some(j)
    case NotAllowed(_, j) => Some(j)
    case _ => None
  }

  /** Each of these stores is destroyed once more. */
  function Kill(kills: seq<nat>, stores: seq<nat>): seq<nat> {
    seq(|kills|, k requires 0 <= k < |kills| => kills[k] + multiset(stores)[k])
  }

  function Give(owner: seq<Owner>, stores: seq<nat>, to: Owner): seq<Owner> {
    seq(|owner|, k requires 0 <= k < |owner| => if k in stores then to else owner[k])
  }

  function Retain(s: State, v: nat): State
    requires v < |s.versions|
  {
    s.(versions := s.versions[v := s.versions[v].(refs := s.versions[v].refs + 1)])
  }

  /** Dropping a reference; dropping the last one destroys the stores. */
  function Release(s: State, v: nat): State
    requires v < |s.versions| && s.versions[v].refs > 0
  {
    var left := s.versions[v].refs - 1;
    s.(versions := s.versions[v := s.versions[v].(refs := left)],
       kills := if left == 0 then Kill(s.kills, s.versions[v].stores) else s.kills)
  }

  function SetPhase(s: State, id: nat, phase: Phase): State
    requires id < |s.requests|
  {
    s.(requests := s.requests[id := s.requests[id].(phase := phase)])
  }

  function Published(s: State): int {
    |s.versions| - 1
  }

  predicate Holds(s: State, v: nat) {
    v < |s.versions| && s.versions[v].refs > 0
  }

  /** A failed update drops the stores it has created. */
  function Abandon(s: State, made: seq<nat>): State {
    s.(updater := Idle, kills := Kill(s.kills, made), owner := Give(s.owner, made, Lost))
  }

  function UpdaterStep(plan: Plan, s: State, step: Step): Option<State> {
    match (step, s.updater)
    case (CreateStore, Idle) =>
      Some(s.(updater := Creating([|s.owner|]), owner := s.owner + [Updating], kills := s.kills + [0]))
    case (CreateStore, Creating(made)) =>
      if |made| < 3 then
        Some(s.(updater := Creating(made + [|s.owner|]), owner := s.owner + [Updating], kills := s.kills + [0]))
      else None
    case (CreateFails, Idle) => Some(s)
    case (CreateFails, Creating(made)) =>
      if |made| < 3 then Some(Abandon(s, made)) else None
    case (ConfigFails, Creating(made)) =>
      if |made| == 3 then Some(Abandon(s, made)) else None
    case (ConfigLoads(config), Creating(made)) =>
      if |made| == 3 then Some(s.(updater := Writing(made, config, {}, 0, EMPTY))) else None
    case (WriteNext(written), Writing(made, config, failed, n, tables)) =>
      if n < |plan(config)| then
        Some(s.(updater :=
          if written then Writing(made, config, failed, n + 1, Compiler.Step(tables, plan(config)[n]))
          else Writing(made, config, failed + {n}, n + 1, tables)))
      else None
    case (Publish, Writing(made, config, failed, n, tables)) =>
      var last := Published(s);
      if n == |plan(config)| && last >= 0 && Holds(s, last) then
        var swapped := s.(
          versions := s.versions + [Version(made, Some(config), failed, tables, 1)],
          owner := Give(s.owner, made, Of(|s.versions|)),
          updater := Idle);
        Some(Release(swapped, last))
      else None
    case _ => None
  }

  function RequestStep(s: State, id: nat, step: Step): Option<State>
    requires id < |s.requests|
  {
    var r := s.requests[id];
    var query := Absolute(r.name);
    match (step, r.phase)
    case (LoadForRedirect(_), Arrived) =>
      if Published(s) >= 0 then Some(SetPhase(Retain(s, Published(s)), id, InRedirect(Published(s)))) else None
    case (ReadRewrites(_), InRedirect(i)) =>
      if Holds(s, i) then
        var next := match Lookup(s.versions[i].tables.rewrites, query)
                    case Some(alias) => Answered(i, i, Rewritten(alias))
                    case None => NoRedirect(i);
        Some(SetPhase(Release(s, i), id, next))
      else None
    case (LoadForBlocked(_), NoRedirect(i)) =>
      if Published(s) >= 0 then Some(SetPhase(Retain(s, Published(s)), id, InBlocked(i, Published(s)))) else None
    case (ReadWhitelist(_), InBlocked(i, j)) =>
      if !Holds(s, j) then None
      else if Lookup(s.versions[j].tables.whitelist, query).Some? then
        Some(SetPhase(Release(s, j), id, Answered(i, j, Forwarded)))
      else Some(SetPhase(s, id, NotAllowed(i, j)))
    case (ReadBlacklist(_), NotAllowed(i, j)) =>
      if Holds(s, j) then
        var decision := if Lookup(s.versions[j].tables.blacklist, query).Some? then Blocked else Forwarded;
        Some(SetPhase(Release(s, j), id, Answered(i, j, decision)))
      else None
    case (ReadFails(_), phase) =>
      if Guard(phase).Some? && Holds(s, Guard(phase).value)
      then Some(SetPhase(Release(s, Guard(phase).value), id, Failed))
      else None
    case _ => None
  }

  function IdOf(step: Step): Option<nat> {
    match step
    case LoadForRedirect(id) => Some(id)
    case ReadRewrites(id) => Some(id)
    case LoadForBlocked(id) => Some(id)
    case ReadWhitelist(id) => Some(id)
    case ReadBlacklist(id) => Some(id)
    case ReadFails(id) => Some(id)
    case _ => None
  }

  /** The state after a step, or `None` when the step cannot be taken. */
  function Next(plan: Plan, s: State, step: Step): Option<State> {
    if step.Arrive? then
      if Published(s) >= 0 then Some(s.(requests := s.requests + [Request(step.name, Published(s), Arrived)])) else None
    else
      match IdOf(step)
      case Some(id) => if id < |s.requests| then RequestStep(s, id, step) else None
      case None => UpdaterStep(plan, s, step)
  }

  /** A run: the state after all these steps, from `s`. */
  function Run(plan: Plan, s: State, steps: seq<Step>): Option<State> {
    if steps == [] then Some(s)
    else
      match Run(plan, s, steps[..|steps| - 1])
      case Some(t) => Next(plan, t, steps[|steps| - 1])
      case None => None
  }

  // ---------- what every step keeps ----------

  function Guards(requests: seq<Request>, v: nat): nat {
    if requests == [] then 0
    else
      var n := |requests| - 1;
      Guards(requests[..n], v) + if Guard(requests[n].phase) == Some(v) then 1 else 0
  }

  function Compiled(plan: Plan, v: Version): Tables {
    match v.config
    case Some(config) => Apply(EMPTY, plan(config), v.failed)
    case None => EMPTY
  }

  /** Every published version is completely compiled. */
  ghost predicate VersionsOk(plan: Plan, versions: seq<Version>) {
    && |versions| > 0
    && forall v :: 0 <= v < |versions| ==> versions[v].tables == Compiled(plan, versions[v])
  }

  /** References are exactly the published pointer and the guards. */
  ghost predicate RefsOk(versions: seq<Version>, requests: seq<Request>) {
    forall v :: 0 <= v < |versions| ==>
      versions[v].refs == (if v == |versions| - 1 then 1 else 0) + Guards(requests, v)
  }

  function Made(u: Updater): seq<nat> {
    match u
    case Idle => []
    case Creating(made) => made
    case Writing(made, _, _, _, _) => made
  }

  ghost predicate Distinct(stores: seq<nat>) {
    forall a, b :: 0 <= a < b < |stores| ==> stores[a] != stores[b]
  }

  ghost predicate Owns(owner: seq<Owner>, stores: seq<nat>, who: Owner) {
    && Distinct(stores)
    && (forall k :: 0 <= k < |owner| ==> (owner[k] == who <==> k in stores))
    && (forall x :: x in stores ==> x < |owner|)
  }

  /** Owners and their stores agree. */
  ghost predicate StoresOk(versions: seq<Version>, owner: seq<Owner>, updater: Updater) {
    && (forall v :: 0 <= v < |versions| ==> |versions[v].stores| == 3 && Owns(owner, versions[v].stores, Of(v)))
    && Owns(owner, Made(updater), Updating)
    && (forall k :: 0 <= k < |owner| && owner[k].Of? ==> owner[k].version < |versions|)
    && (updater.Creating? ==> |Made(updater)| <= 3)
    && (updater.Writing? ==> |Made(updater)| == 3)
  }

  /** A store has been destroyed once if its owner is gone, and never otherwise. */
  ghost predicate KillsOk(versions: seq<Version>, owner: seq<Owner>, kills: seq<nat>) {
    && |owner| == |kills|
    && forall k :: 0 <= k < |owner| ==>
         match owner[k]
         case Updating => kills[k] == 0
         case Lost => kills[k] == 1
         case Of(v) => v < |versions| && kills[k] == if versions[v].refs == 0 then 1 else 0
  }

  /** The private database of an update holds the writes made so far. */
  ghost predicate UpdaterOk(plan: Plan, u: Updater) {
    u.Writing? ==>
      && u.n <= |plan(u.config)|
      && (forall x :: x in u.failed ==> x < u.n)
      && u.tables == Apply(EMPTY, plan(u.config)[..u.n], u.failed)
  }

  ghost predicate RequestOk(versions: seq<Version>, r: Request) {
    var query := Absolute(r.name);
    && r.since < |versions|
    && match r.phase
       case Arrived => true
       case Failed => true
       case InRedirect(i) => r.since <= i < |versions|
       case NoRedirect(i) => r.since <= i < |versions| && Lookup(versions[i].tables.rewrites, query) == None
       case InBlocked(i, j) => r.since <= i <= j < |versions| && Lookup(versions[i].tables.rewrites, query) == None
       case NotAllowed(i, j) =>
         && r.since <= i <= j < |versions|
         && Lookup(versions[i].tables.rewrites, query) == None
         && Lookup(versions[j].tables.whitelist, query) == None
       case Answered(i, j, decision) =>
         r.since <= i <= j < |versions| && decision == Answer(versions[i].tables, versions[j].tables, query)
  }

  ghost predicate Inv(plan: Plan, s: State) {
    && VersionsOk(plan, s.versions)
    && RefsOk(s.versions, s.requests)
    && StoresOk(s.versions, s.owner, s.updater)
    && KillsOk(s.versions, s.owner, s.kills)
    && UpdaterOk(plan, s.updater)
    && forall id :: 0 <= id < |s.requests| ==> RequestOk(s.versions, s.requests[id])
  }

  // ---------- reference counting ----------

  lemma {:induction false} GuardsUpdate(requests: seq<Request>, id: nat, r: Request, v: nat)
    requires id < |requests|
    ensures Guards(requests[id := r], v) + (if Guard(requests[id].phase) == Some(v) then 1 else 0)
         == Guards(requests, v) + (if Guard(r.phase) == Some(v) then 1 else 0)
  {
    var n := |requests| - 1;
    if id == n {
      assert requests[id := r][..n] == requests[..n];
    } else {
      assert requests[id := r][..n] == requests[..n][id := r];
      GuardsUpdate(requests[..n], id, r, v);
    }
  }

  lemma {:induction false} GuardsPositive(requests: seq<Request>, id: nat, v: nat)
    requires id < |requests| && Guard(requests[id].phase) == Some(v)
    ensures Guards(requests, v) > 0
  {
    if id == |requests| - 1 {
    } else {
      GuardsPositive(requests[..|requests| - 1], id, v);
    }
  }

  /** No request can hold a guard on a version that does not exist. */
  lemma {:induction false} GuardsBeyond(versions: seq<Version>, requests: seq<Request>, v: nat)
    requires forall id :: 0 <= id < |requests| ==> RequestOk(versions, requests[id])
    requires v >= |versions|
    ensures Guards(requests, v) == 0
  {
    if requests == [] {
    } else {
      var n := |requests| - 1;
      assert forall id :: 0 <= id < n ==> requests[..n][id] == requests[id];
      GuardsBeyond(versions, requests[..n], v);
      assert RequestOk(versions, requests[n]);
    }
  }

  lemma {:induction false} HeldByGuard(plan: Plan, s: State, id: nat)
    requires Inv(plan, s) && id < |s.requests| && Guard(s.requests[id].phase).Some?
    ensures Holds(s, Guard(s.requests[id].phase).value)
  {
    assert RequestOk(s.versions, s.requests[id]);
    GuardsPositive(s.requests, id, Guard(s.requests[id].phase).value);
  }

  lemma {:induction false} CountOnce(stores: seq<nat>, k: nat)
    requires Distinct(stores)
    ensures multiset(stores)[k] == if k in stores then 1 else 0
  {
    if stores == [] {
    } else {
      var n := |stores| - 1;
      assert stores == stores[..n] + [stores[n]];
      CountOnce(stores[..n], k);
    }
  }

  /** Two version lists that differ in reference counts only. */
  ghost predicate SameBut(a: seq<Version>, b: seq<Version>) {
    |a| == |b| && forall v :: 0 <= v < |a| ==> a[v] == b[v].(refs := a[v].refs)
  }

  lemma {:induction false} RequestSameBut(a: seq<Version>, b: seq<Version>, r: Request)
    requires SameBut(a, b) && RequestOk(a, r)
    ensures RequestOk(b, r)
  {
  }

  lemma {:induction false} RequestMoreVersions(versions: seq<Version>, v: Version, r: Request)
    requires RequestOk(versions, r)
    ensures RequestOk(versions + [v], r)
  {
  }

  lemma {:induction false} RetainRefs(s: State, id: nat, phase: Phase)
    requires RefsOk(s.versions, s.requests) && s.versions != [] && id < |s.requests|
    requires Guard(s.requests[id].phase) == None && Guard(phase) == Some(|s.versions| - 1)
    ensures var t := SetPhase(Retain(s, |s.versions| - 1), id, phase); RefsOk(t.versions, t.requests)
  {
    var t := SetPhase(Retain(s, |s.versions| - 1), id, phase);
    forall v: nat | v < |t.versions|
      ensures t.versions[v].refs == (if v == |t.versions| - 1 then 1 else 0) + Guards(t.requests, v)
    {
      GuardsUpdate(s.requests, id, s.requests[id].(phase := phase), v);
    }
  }

  lemma {:induction false} CompiledSameBut(plan: Plan, a: seq<Version>, b: seq<Version>)
    requires VersionsOk(plan, a) && SameBut(a, b)
    ensures VersionsOk(plan, b)
  {
    forall v | 0 <= v < |b|
      ensures b[v].tables == Compiled(plan, b[v])
    {
      assert a[v].tables == Compiled(plan, a[v]);
    }
  }

  /** Taking a guard and entering a phase that holds it. */
  lemma {:induction false} RetainInv(plan: Plan, s: State, id: nat, phase: Phase)
    requires Inv(plan, s) && id < |s.requests| && Guard(s.requests[id].phase) == None
    requires Guard(phase) == Some(|s.versions| - 1)
    requires RequestOk(s.versions, s.requests[id].(phase := phase))
    ensures Inv(plan, SetPhase(Retain(s, |s.versions| - 1), id, phase))
  {
    var t := SetPhase(Retain(s, |s.versions| - 1), id, phase);
    assert SameBut(s.versions, t.versions);
    RetainRefs(s, id, phase);
    CompiledSameBut(plan, s.versions, t.versions);
    StoresSameBut(s.versions, t.versions, s.owner, s.updater);
    RetainKills(s, id);
    RequestsSameBut(s, t, id);
  }

  lemma {:induction false} RetainKills(s: State, id: nat)
    requires s.versions != [] && KillsOk(s.versions, s.owner, s.kills) && s.versions[|s.versions| - 1].refs > 0
    ensures KillsOk(Retain(s, |s.versions| - 1).versions, s.owner, s.kills)
  {
  }

  lemma {:induction false} RequestsSameBut(s: State, t: State, id: nat)
    requires SameBut(s.versions, t.versions) && id < |s.requests|
    requires forall k :: 0 <= k < |s.requests| ==> RequestOk(s.versions, s.requests[k])
    requires |t.requests| == |s.requests| && t.requests == s.requests[id := t.requests[id]] && RequestOk(s.versions, t.requests[id])
    ensures forall k :: 0 <= k < |t.requests| ==> RequestOk(t.versions, t.requests[k])
  {
    forall k | 0 <= k < |t.requests|
      ensures RequestOk(t.versions, t.requests[k])
    {
      RequestSameBut(s.versions, t.versions, t.requests[k]);
    }
  }

  /** Destroying the stores of a version whose last reference is dropped. */
  lemma {:induction false} KillVersion(versions: seq<Version>, owner: seq<Owner>, kills: seq<nat>, updater: Updater, v: nat)
    requires StoresOk(versions, owner, updater) && KillsOk(versions, owner, kills)
    requires v < |versions| && versions[v].refs > 0
    ensures KillsOk(versions[v := versions[v].(refs := 0)], owner, Kill(kills, versions[v].stores))
  {
    forall k | 0 <= k < |owner|
      ensures Kill(kills, versions[v].stores)[k] == kills[k] + if owner[k] == Of(v) then 1 else 0
    {
      CountOnce(versions[v].stores, k);
    }
  }

  lemma {:induction false} KillsKept(versions: seq<Version>, owner: seq<Owner>, kills: seq<nat>, v: nat, refs: nat)
    requires KillsOk(versions, owner, kills) && v < |versions| && versions[v].refs > 0 && refs > 0
    ensures KillsOk(versions[v := versions[v].(refs := refs)], owner, kills)
  {
  }

  lemma {:induction false} StoresSameBut(a: seq<Version>, b: seq<Version>, owner: seq<Owner>, updater: Updater)
    requires StoresOk(a, owner, updater) && SameBut(a, b)
    ensures StoresOk(b, owner, updater)
  {
    forall v | 0 <= v < |b|
      ensures |b[v].stores| == 3 && Owns(owner, b[v].stores, Of(v))
    {
      assert a[v].stores == b[v].stores;
    }
  }

  lemma {:induction false} ReleaseRefs(s: State, id: nat, v: nat, phase: Phase)
    requires RefsOk(s.versions, s.requests) && id < |s.requests| && Holds(s, v)
    requires Guard(s.requests[id].phase) == Some(v) && Guard(phase) == None
    ensures var t := SetPhase(Release(s, v), id, phase); RefsOk(t.versions, t.requests)
  {
    var t := SetPhase(Release(s, v), id, phase);
    forall u: nat | u < |t.versions|
      ensures t.versions[u].refs == (if u == |t.versions| - 1 then 1 else 0) + Guards(t.requests, u)
    {
      GuardsUpdate(s.requests, id, s.requests[id].(phase := phase), u);
    }
  }

  /** Dropping a guard and entering a phase without one. */
  lemma {:induction false} ReleaseInv(plan: Plan, s: State, id: nat, v: nat, phase: Phase)
    requires Inv(plan, s) && id < |s.requests| && Guard(s.requests[id].phase) == Some(v)
    requires Guard(phase) == None && Holds(s, v)
    requires RequestOk(s.versions, s.requests[id].(phase := phase))
    ensures Inv(plan, SetPhase(Release(s, v), id, phase))
  {
    var t := SetPhase(Release(s, v), id, phase);
    assert SameBut(s.versions, t.versions);
    ReleaseRefs(s, id, v, phase);
    CompiledSameBut(plan, s.versions, t.versions);
    StoresSameBut(s.versions, t.versions, s.owner, s.updater);
    ReleaseKills(plan, s, v);
    RequestsSameBut(s, t, id);
  }

  lemma {:induction false} ReleaseKills(plan: Plan, s: State, v: nat)
    requires Inv(plan, s) && Holds(s, v)
    ensures KillsOk(Release(s, v).versions, s.owner, Release(s, v).kills)
  {
    var left := s.versions[v].refs - 1;
    if left == 0 {
      KillVersion(s.versions, s.owner, s.kills, s.updater, v);
    } else {
      KillsKept(s.versions, s.owner, s.kills, v, left);
    }
  }

  /** Moving on under the same guard, or without any. */
  lemma {:induction false} PhaseInv(plan: Plan, s: State, id: nat, phase: Phase)
    requires Inv(plan, s) && id < |s.requests| && Guard(s.requests[id].phase) == Guard(phase)
    requires RequestOk(s.versions, s.requests[id].(phase := phase))
    ensures Inv(plan, SetPhase(s, id, phase))
  {
    forall v: nat | v < |s.versions|
      ensures Guards(SetPhase(s, id, phase).requests, v) == Guards(s.requests, v)
    {
      GuardsUpdate(s.requests, id, s.requests[id].(phase := phase), v);
    }
  }

  lemma {:induction false} RedirectStepsInv(plan: Plan, s: State, id: nat, step: Step)
    requires Inv(plan, s) && id < |s.requests| && RequestStep(s, id, step).Some?
    requires step.LoadForRedirect? || step.ReadRewrites?
    ensures Inv(plan, RequestStep(s, id, step).value)
  {
    var r := s.requests[id];
    assert RequestOk(s.versions, r);
    if step.LoadForRedirect? {
      RetainInv(plan, s, id, InRedirect(Published(s)));
    } else {
      var i := r.phase.i;
      var next := match Lookup(s.versions[i].tables.rewrites, Absolute(r.name))
                  case Some(alias) => Answered(i, i, Rewritten(alias))
                  case None => NoRedirect(i);
      ReleaseInv(plan, s, id, i, next);
    }
  }

  lemma {:induction false} BlockedStepsInv(plan: Plan, s: State, id: nat, step: Step)
    requires Inv(plan, s) && id < |s.requests| && RequestStep(s, id, step).Some?
    requires step.LoadForBlocked? || step.ReadWhitelist? || step.ReadBlacklist?
    ensures Inv(plan, RequestStep(s, id, step).value)
  {
    var r := s.requests[id];
    assert RequestOk(s.versions, r);
    var i := r.phase.i;
    if step.LoadForBlocked? {
      RetainInv(plan, s, id, InBlocked(i, Published(s)));
    } else if step.ReadBlacklist? {
      var j := r.phase.j;
      var decision := if Lookup(s.versions[j].tables.blacklist, Absolute(r.name)).Some? then Blocked else Forwarded;
      ReleaseInv(plan, s, id, j, Answered(i, j, decision));
    } else {
      ReadWhitelistInv(plan, s, id);
    }
  }

  lemma {:induction false} ReadWhitelistInv(plan: Plan, s: State, id: nat)
    requires Inv(plan, s) && id < |s.requests| && RequestStep(s, id, ReadWhitelist(id)).Some?
    ensures Inv(plan, RequestStep(s, id, ReadWhitelist(id)).value)
  {
    var r := s.requests[id];
    assert RequestOk(s.versions, r);
    var i, j := r.phase.i, r.phase.j;
    if Lookup(s.versions[j].tables.whitelist, Absolute(r.name)).Some? {
      ReleaseInv(plan, s, id, j, Answered(i, j, Forwarded));
    } else {
      PhaseInv(plan, s, id, NotAllowed(i, j));
    }
  }

  lemma {:induction false} RequestStepInv(plan: Plan, s: State, id: nat, step: Step)
    requires Inv(plan, s) && id < |s.requests| && RequestStep(s, id, step).Some?
    ensures Inv(plan, RequestStep(s, id, step).value)
  {
    if step.LoadForRedirect? || step.ReadRewrites? {
      RedirectStepsInv(plan, s, id, step);
    } else if step.ReadFails? {
      assert RequestOk(s.versions, s.requests[id]);
      ReleaseInv(plan, s, id, Guard(s.requests[id].phase).value, Failed);
    } else {
      BlockedStepsInv(plan, s, id, step);
    }
  }

  lemma {:induction false} ArriveInv(plan: Plan, s: State, name: seq<string>)
    requires Inv(plan, s)
    ensures Inv(plan, s.(requests := s.requests + [Request(name, |s.versions| - 1, Arrived)]))
  {
    var t := s.(requests := s.requests + [Request(name, |s.versions| - 1, Arrived)]);
    assert t.requests[..|s.requests|] == s.requests;
    assert forall v: nat :: Guards(t.requests, v) == Guards(s.requests, v);
  }

  lemma {:induction false} CreateInv(plan: Plan, s: State)
    requires Inv(plan, s) && (s.updater.Idle? || (s.updater.Creating? && |Made(s.updater)| < 3))
    ensures Inv(plan, s.(updater := Creating(Made(s.updater) + [|s.owner|]), owner := s.owner + [Updating], kills := s.kills + [0]))
  {
    var made, owner := Made(s.updater) + [|s.owner|], s.owner + [Updating];
    forall v | 0 <= v < |s.versions|
      ensures Owns(owner, s.versions[v].stores, Of(v))
    {
      assert Owns(s.owner, s.versions[v].stores, Of(v));
    }
    assert forall a :: 0 <= a < |Made(s.updater)| ==> Made(s.updater)[a] in Made(s.updater);
    assert Owns(owner, made, Updating);
  }

  lemma {:induction false} GiveOwns(owner: seq<Owner>, made: seq<nat>, to: Owner, stores: seq<nat>, who: Owner)
    requires Owns(owner, made, Updating) && Owns(owner, stores, who) && who != Updating && who != to
    ensures Owns(Give(owner, made, to), stores, who)
  {
  }

  lemma {:induction false} AbandonInv(plan: Plan, s: State)
    requires Inv(plan, s) && !s.updater.Idle?
    ensures Inv(plan, Abandon(s, Made(s.updater)))
  {
    var made := Made(s.updater);
    var t := Abandon(s, made);
    forall v | 0 <= v < |s.versions|
      ensures Owns(t.owner, s.versions[v].stores, Of(v))
    {
      GiveOwns(s.owner, made, Lost, s.versions[v].stores, Of(v));
    }
    assert Owns(t.owner, [], Updating);
    forall k: nat | k < |s.owner|
      ensures t.kills[k] == s.kills[k] + if s.owner[k] == Updating then 1 else 0
    {
      CountOnce(made, k);
    }
  }

  /** A write that fails is as good as no write. */
  lemma {:induction false} ApplyLaterFailure(t: Tables, writes: seq<Write>, failed: set<nat>, n: nat)
    requires |writes| <= n
    ensures Apply(t, writes, failed + {n}) == Apply(t, writes, failed)
  {
    if writes == [] {
    } else {
      ApplyLaterFailure(t, writes[..|writes| - 1], failed, n);
    }
  }

  lemma {:induction false} WriteInv(plan: Plan, u: Updater, written: bool)
    requires UpdaterOk(plan, u) && u.Writing? && u.n < |plan(u.config)|
    ensures UpdaterOk(plan,
      if written then Writing(u.made, u.config, u.failed, u.n + 1, Compiler.Step(u.tables, plan(u.config)[u.n]))
      else Writing(u.made, u.config, u.failed + {u.n}, u.n + 1, u.tables))
  {
    var writes := plan(u.config);
    assert writes[..u.n + 1] == writes[..u.n] + [writes[u.n]];
    ApplySnoc(EMPTY, writes[..u.n], writes[u.n], if written then u.failed else u.failed + {u.n});
    ApplyLaterFailure(EMPTY, writes[..u.n], u.failed, u.n);
  }

  /** The state between the new pointer being stored and the old reference being dropped. */
  function Swapped(s: State): State
    requires s.updater.Writing?
  {
    s.(versions := s.versions + [Version(s.updater.made, Some(s.updater.config), s.updater.failed, s.updater.tables, 1)],
       owner := Give(s.owner, s.updater.made, Of(|s.versions|)),
       updater := Idle)
  }

  lemma {:induction false} SwappedStores(s: State)
    requires s.updater.Writing? && StoresOk(s.versions, s.owner, s.updater) && KillsOk(s.versions, s.owner, s.kills)
    ensures StoresOk(Swapped(s).versions, Swapped(s).owner, Idle)
    ensures KillsOk(Swapped(s).versions, Swapped(s).owner, s.kills)
  {
    var t := Swapped(s);
    var cur, made := |s.versions|, s.updater.made;
    assert Made(s.updater) == made;
    forall v | 0 <= v < |t.versions|
      ensures |t.versions[v].stores| == 3 && Owns(t.owner, t.versions[v].stores, Of(v))
    {
      if v < cur {
        assert t.versions[v] == s.versions[v];
        GiveOwns(s.owner, made, Of(cur), s.versions[v].stores, Of(v));
      }
    }
    assert Owns(t.owner, [], Updating);
  }

  lemma {:induction false} PublishInv(plan: Plan, s: State)
    requires Inv(plan, s) && s.updater.Writing? && s.updater.n == |plan(s.updater.config)|
    requires Holds(s, Published(s))
    ensures Inv(plan, Release(Swapped(s), Published(s)))
  {
    SwappedStores(s);
    SwappedKills(s);
    SwappedRefs(plan, s);
    SwappedRequests(s);
    PublishedCompiled(plan, s);
  }

  lemma {:induction false} SwappedKills(s: State)
    requires s.updater.Writing? && s.versions != [] && Holds(s, Published(s))
    requires StoresOk(Swapped(s).versions, Swapped(s).owner, Idle) && KillsOk(Swapped(s).versions, Swapped(s).owner, s.kills)
    ensures var u := Release(Swapped(s), Published(s));
            StoresOk(u.versions, u.owner, u.updater) && KillsOk(u.versions, u.owner, u.kills)
  {
    var t := Swapped(s);
    var last := |s.versions| - 1;
    var u := Release(t, last);
    assert SameBut(t.versions, u.versions);
    StoresSameBut(t.versions, u.versions, t.owner, Idle);
    if s.versions[last].refs == 1 {
      KillVersion(t.versions, t.owner, t.kills, Idle, last);
    } else {
      KillsKept(t.versions, t.owner, t.kills, last, s.versions[last].refs - 1);
    }
  }

  lemma {:induction false} SwappedRefs(plan: Plan, s: State)
    requires Inv(plan, s) && s.updater.Writing? && Holds(s, Published(s))
    ensures RefsOk(Release(Swapped(s), Published(s)).versions, s.requests)
  {
    GuardsBeyond(s.versions, s.requests, |s.versions|);
  }

  lemma {:induction false} SwappedRequests(s: State)
    requires s.updater.Writing? && s.versions != [] && Holds(s, Published(s))
    requires forall id :: 0 <= id < |s.requests| ==> RequestOk(s.versions, s.requests[id])
    ensures forall id :: 0 <= id < |s.requests| ==> RequestOk(Release(Swapped(s), Published(s)).versions, s.requests[id])
  {
    var t := Swapped(s);
    var u := Release(t, Published(s));
    assert SameBut(t.versions, u.versions);
    forall id | 0 <= id < |s.requests|
      ensures RequestOk(u.versions, s.requests[id])
    {
      RequestMoreVersions(s.versions, t.versions[|s.versions|], s.requests[id]);
      RequestSameBut(t.versions, u.versions, s.requests[id]);
    }
  }

  lemma {:induction false} PublishedCompiled(plan: Plan, s: State)
    requires Inv(plan, s) && s.updater.Writing? && s.updater.n == |plan(s.updater.config)|
    requires Holds(s, Published(s))
    ensures VersionsOk(plan, Release(Swapped(s), Published(s)).versions)
  {
    assert plan(s.updater.config)[..s.updater.n] == plan(s.updater.config);
  }

  lemma {:induction false} UpdaterStepInv(plan: Plan, s: State, step: Step)
    requires Inv(plan, s) && UpdaterStep(plan, s, step).Some?
    ensures Inv(plan, UpdaterStep(plan, s, step).value)
  {
    match (step, s.updater)
    case (CreateStore, Idle) =>
      CreateInv(plan, s);
      assert [] + [|s.owner|] == [|s.owner|];
    case (CreateStore, Creating(made)) => CreateInv(plan, s);
    case (CreateFails, Creating(made)) => AbandonInv(plan, s);
    case (ConfigFails, Creating(made)) => AbandonInv(plan, s);
    case (ConfigLoads(config), Creating(made)) =>
      assert plan(config)[..0] == [];
    case (WriteNext(written), Writing(made, config, failed, n, tables)) =>
      WriteInv(plan, s.updater, written);
    case (Publish, Writing(made, config, failed, n, tables)) => PublishInv(plan, s);
    case _ =>
  }

  lemma {:induction false} StartInv(plan: Plan)
    ensures Inv(plan, Start())
  {
    assert Owns(Start().owner, [0, 1, 2], Of(0));
    assert Owns(Start().owner, [], Updating);
  }

  /** Every step keeps the invariant. */
  lemma {:induction false} NextInv(plan: Plan, s: State, step: Step)
    requires Inv(plan, s) && Next(plan, s, step).Some?
    ensures Inv(plan, Next(plan, s, step).value)
  {
    if step.Arrive? {
      ArriveInv(plan, s, step.name);
    } else {
      match IdOf(step)
      case Some(id) => RequestStepInv(plan, s, id, step);
      case None => UpdaterStepInv(plan, s, step);
    }
  }

  /** So it holds in every state of every run. */
  lemma {:induction false} RunInv(plan: Plan, s: State, steps: seq<Step>)
    requires Inv(plan, s) && Run(plan, s, steps).Some?
    ensures Inv(plan, Run(plan, s, steps).value)
  {
    if steps == [] {
    } else {
      var n := |steps| - 1;
      RunInv(plan, s, steps[..n]);
      NextInv(plan, Run(plan, s, steps[..n]).value, steps[n]);
    }
  }
}
