/** BuildPlan, reconcileOnce, BuildCleanupPlan and cleanupOwned. */
module App {
  import opened Wrappers
  import opened Prefixes
  import opened Sequences
  import opened Normalization
  import opened Config
  import opened Health
  import opened Gateways
  import opened Rtnl
  import opened Keys
  import opened RouteReconcile
  import opened RouteConvergence
  import opened SharedScopes
  import opened Planner
  import opened PlannerProperties
  import opened Exclusions
  import Source
  import opened Store
  import RuleReconcile

  /** What the outside world answers while one group is planned. */
  datatype Env = Env(
    fetch: Option<seq<Prefix>>, links: map<string, int>, host: Host,
    target4: Pinger, target6: Pinger, default4: Pinger, default6: Pinger)

  function RuleScopeOf(cfg: Config, g: RouteGroup): RuleReconcile.RuleScope {
    RuleReconcile.RuleScope(g.target.table, g.rule.priority, cfg.rulePriorityBase, cfg.rulePriorityStep)
  }

  // ---- listing ----

  method CurrentOwned(k: Kernel, table: int, protocol: int, name: FamilyName) returns (out: Option<seq<Route>>)
    modifies k`failures
    ensures k.failures == old(k.failures) + if out.Some? then 0 else 1
    ensures out.Some? ==>
              NoRepeats(out.value) && SetOf(out.value) == Owned(k.routes, Scope(table, protocol, Families(name)))
  {
    var list: seq<Route> := [];
    if name == Dual || name == Unset || name == IPv4 {
      var rs := k.ListRoutes(table, V4, protocol);
      if rs == None { return None; }
      list := rs.value;
    }
    if name == Dual || name == Unset || name == IPv6 {
      var rs := k.ListRoutes(table, V6, protocol);
      if rs == None { return None; }
      list := list + rs.value;
    }
    return Some(list);
  }

  // ---- one group's input ----

  ghost predicate HopsOf(hops: seq<Hop>, name: FamilyName, cs: seq<Candidate>, links: map<string, int>, ping4: Pinger,
                         ping6: Pinger) {
    exists v4, v6, flags4, flags6 :: hops == v4 + v6 &&
      ResolvedFor(v4, name, V4, cs, links, ping4, flags4) && ResolvedFor(v6, name, V6, cs, links, ping6, flags6)
  }

  /** The planner's input for a group, as the kernel state and the outside answers make it. */
  ghost predicate InputFor(x: InputGroup, cfg: Config, g: RouteGroup, env: Env, raw: seq<Prefix>, routes: set<Route>,
                           rules: set<Rule>) {
    && x.config == g
    && x.prefixes == Normalized(raw, cfg.aggregation)
    && ThrowsOf(x.throws, g.target)
    && LocalsOf(x.locals, g.target, env.host)
    && LinkIndex(g.target.hop.dev, env.links) == Some(x.linkIndex)
    && (g.target.default.Some? ==> LinkIndex(g.target.default.value.dev, env.links) == Some(x.defaultLinkIndex))
    && HopsOf(x.targetHops, g.target.family, Candidates(g.target.hop), env.links, env.target4, env.target6)
    && (if g.target.default.Some?
        then HopsOf(x.defaultHops, g.target.family, Candidates(g.target.default.value), env.links, env.default4,
                    env.default6)
        else x.defaultHops == [])
    && NoRepeats(x.currentRoutes) && SetOf(x.currentRoutes) == Owned(routes, ScopeOf(cfg.routeProtocol, g))
    && (forall r :: r in x.currentRules <==>
          Families(g.target.family) != {} && r in RuleReconcile.OwnedRules(rules, RuleScopeOf(cfg, g)))
  }

  datatype GroupResult = Skip | Abort | Ready(input: InputGroup)

  predicate HopLinksKnown(name: FamilyName, next: NextHop, links: map<string, int>) {
    (Resolves(name, V4) ==> LinksKnown(CandidatesOf(Candidates(next), V4), links)) &&
    (Resolves(name, V6) ==> LinksKnown(CandidatesOf(Candidates(next), V6), links))
  }

  /** The source type is supported, every interface the group needs is known, and its exclusions can be
      computed. */
  predicate Plannable(g: RouteGroup, env: Env) {
    && LinkIndex(g.target.hop.dev, env.links).Some?
    && HopLinksKnown(g.target.family, g.target.hop, env.links)
    && (g.target.default.Some? ==>
          LinkIndex(g.target.default.value.dev, env.links).Some? &&
          HopLinksKnown(g.target.family, g.target.default.value, env.links))
    && ExclusionsOk(g.target, env.host)
    && !g.source.kind.OtherSource?
  }

  method ResolveHops(name: FamilyName, next: NextHop, links: map<string, int>, ping4: Pinger, ping6: Pinger)
    returns (out: Option<seq<Hop>>)
    ensures out.Some? <==> HopLinksKnown(name, next, links)
    ensures out.Some? ==> HopsOf(out.value, name, Candidates(next), links, ping4, ping6)
  {
    ghost var v4, v6, flags4, flags6;
    out, v4, v6, flags4, flags6 := ResolveCandidates(name, Candidates(next), links, ping4, ping6);
  }

  function LinkIndex(dev: string, links: map<string, int>): Option<int> {
    if dev == "" then Some(0) else if dev in links then Some(links[dev]) else None
  }

  /** Fetch, or fall back to the saved state; normalize; save what was fetched. */
  method SourcePrefixes(cfg: Config, g: RouteGroup, fetch: Option<seq<Prefix>>, st: GroupStore)
    returns (out: Option<seq<Prefix>>, ghost raw: seq<Prefix>)
    modifies st
    ensures st.failures >= old(st.failures)
    ensures out == None ==>
              fetch == None && (RecordKey(cfg.stateDir, g.name) !in old(st.saved) || st.failures > old(st.failures))
    ensures st.saves == old(st.saves) +
                        if fetch == None then []
                        else [(RecordKey(cfg.stateDir, g.name), Normalized(fetch.value, cfg.aggregation))]
    ensures out.Some? ==> out.value == Normalized(raw, cfg.aggregation)
    ensures out.Some? ==> RawFor(raw, RecordKey(cfg.stateDir, g.name), fetch, old(st.saved))
    ensures st.saved == if fetch.Some? && st.failures == old(st.failures)
                        then old(st.saved)[RecordKey(cfg.stateDir, g.name) := Normalized(fetch.value, cfg.aggregation)]
                        else old(st.saved)
    ensures out.Some? && fetch == None ==>
              forall f, b :: SavedFrom(old(st.saved), RecordKey(cfg.stateDir, g.name), f, b) ==>
                out.value == Normalized(f, b || cfg.aggregation)
  {
    raw := [];
    var list: seq<Prefix>;
    if fetch == None {
      var loaded := st.LoadGroup(cfg.stateDir, g.name);
      if loaded == None { return None, raw; }
      list := loaded.value;
    } else {
      list := fetch.value;
    }
    raw := list;
    forall f, b | SavedFrom(st.saved, RecordKey(cfg.stateDir, g.name), f, b) && fetch == None
      ensures Normalized(list, cfg.aggregation) == Normalized(f, b || cfg.aggregation)
    {
      FallbackPrefixes(f, b, cfg.aggregation);
    }
    var slice := Source.ToArray(list);
    var normalized := Source.Normalize(slice, cfg.aggregation);
    out := Some(normalized[..]);
    if fetch.Some? {
      var saved := st.SaveGroup(cfg.stateDir, g.name, out.value);
    }
  }

  /** The saved record stems from fetch f, normalized with flag b. */
  ghost predicate SavedFrom(saved: Records, key: RecordKey, f: seq<Prefix>, b: bool) {
    key in saved && saved[key] == Normalized(f, b)
  }

  ghost predicate RawFor(raw: seq<Prefix>, key: RecordKey, fetch: Option<seq<Prefix>>, saved: Records) {
    if fetch.Some? then raw == fetch.value else key in saved && raw == Loaded(saved[key])
  }

  /** The body of BuildPlan's loop. An unsupported source type, an unknown interface, a failed listing
      or a failed exclusion aborts the plan; a failed fetch without a saved state skips the group. */
  method GroupInput(cfg: Config, g: RouteGroup, env: Env, k: Kernel, st: GroupStore)
    returns (res: GroupResult, ghost raw: seq<Prefix>)
    modifies st, k`failures
    ensures k.failures >= old(k.failures) && st.failures >= old(st.failures)
    ensures res.Skip? ==> env.fetch == None
    ensures res.Skip? ==> RecordKey(cfg.stateDir, g.name) !in old(st.saved) || st.failures > old(st.failures)
    ensures res.Abort? ==> !Plannable(g, env) || k.failures > old(k.failures)
    ensures !res.Abort? ==> k.failures == old(k.failures)
    ensures res.Ready? ==> InputFor(res.input, cfg, g, env, raw, k.routes, k.rules)
    ensures res.Ready? ==> RawFor(raw, RecordKey(cfg.stateDir, g.name), env.fetch, old(st.saved))
    ensures g.source.kind.OtherSource? ==> res.Abort? && st.saved == old(st.saved) && st.saves == old(st.saves)
    ensures !g.source.kind.OtherSource? ==>
              st.saved == if env.fetch.Some? && st.failures == old(st.failures)
                          then old(st.saved)[RecordKey(cfg.stateDir, g.name) :=
                                             Normalized(env.fetch.value, cfg.aggregation)]
                          else old(st.saved)
    ensures !g.source.kind.OtherSource? ==>
              st.saves == old(st.saves) +
                          if env.fetch == None then []
                          else [(RecordKey(cfg.stateDir, g.name), Normalized(env.fetch.value, cfg.aggregation))]
  {
    raw := [];
    if g.source.kind.OtherSource? { return Abort, raw; }
    var prefixes;
    prefixes, raw := SourcePrefixes(cfg, g, env.fetch, st);
    if prefixes == None { return Skip, raw; }
    res := PlanInput(cfg, g, env, k, prefixes.value, raw);
  }

  method PlanInput(cfg: Config, g: RouteGroup, env: Env, k: Kernel, prefixes: seq<Prefix>, ghost raw: seq<Prefix>)
    returns (res: GroupResult)
    requires prefixes == Normalized(raw, cfg.aggregation) && !g.source.kind.OtherSource?
    modifies k`failures
    ensures k.failures >= old(k.failures) && !res.Skip?
    ensures res.Abort? <==> !Plannable(g, env) || k.failures > old(k.failures)
    ensures res.Ready? ==> InputFor(res.input, cfg, g, env, raw, k.routes, k.rules)
  {
    var link := LinkIndex(g.target.hop.dev, env.links);
    if link == None { return Abort; }
    var defaultLink := if g.target.default.Some? then LinkIndex(g.target.default.value.dev, env.links) else Some(0);
    if defaultLink == None { return Abort; }
    var targetHops := ResolveHops(g.target.family, g.target.hop, env.links, env.target4, env.target6);
    if targetHops == None { return Abort; }
    var defaultHops: Option<seq<Hop>> := Some([]);
    if g.target.default.Some? {
      defaultHops := ResolveHops(g.target.family, g.target.default.value, env.links, env.default4, env.default6);
      if defaultHops == None { return Abort; }
    }
    var currentRoutes := CurrentOwned(k, g.target.table, cfg.routeProtocol, g.target.family);
    if currentRoutes == None { return Abort; }
    var currentRules := RuleReconcile.CurrentOwned(k, RuleScopeOf(cfg, g), g.target.family);
    if currentRules == None { return Abort; }
    var exclusions := ExclusionInputs(g.target, env.host);
    if exclusions == None { return Abort; }
    res := Ready(InputGroup(g, prefixes, exclusions.value.0, exclusions.value.1, link.value, defaultLink.value,
                            targetHops.value, defaultHops.value, currentRoutes.value, currentRules.value));
  }

  // ---- the store across the groups ----

  /** Some group below n keeps its state there and was fetched; record is what it saves. */
  ghost predicate FetchedBelow(key: RecordKey, record: seq<Prefix>, n: nat, cfg: Config, envs: nat -> Env) {
    exists j: nat :: j < n && j < |Groups(cfg)| && cfg.stateDir == key.dir && Groups(cfg)[j].name == key.group &&
      envs(j).fetch.Some? && record == Normalized(envs(j).fetch.value, cfg.aggregation)
  }

  /** The store once the groups below n had their turn: each record is kept or fetched, none is lost. */
  ghost predicate StoreStep(before: Records, after: Records, n: nat, cfg: Config, envs: nat -> Env) {
    before.Keys <= after.Keys &&
    forall key :: key in after ==>
      (key in before && after[key] == before[key]) || FetchedBelow(key, after[key], n, cfg, envs)
  }

  /** The store when every save succeeds. */
  ghost function Stored(before: Records, n: nat, cfg: Config, envs: nat -> Env): Records
    requires n <= |Groups(cfg)|
  {
    if n == 0 then before else
      var rest := Stored(before, n - 1, cfg, envs);
      if envs(n - 1).fetch == None then rest
      else
        var key := RecordKey(cfg.stateDir, Groups(cfg)[n - 1].name);
        rest[key := Normalized(envs(n - 1).fetch.value, cfg.aggregation)]
  }

  lemma StoreStepGrows(before: Records, mid: Records, after: Records, i: nat, cfg: Config, envs: nat -> Env)
    requires i < |Groups(cfg)| && StoreStep(before, mid, i, cfg, envs)
    requires after == mid ||
             (envs(i).fetch.Some? &&
              after == mid[RecordKey(cfg.stateDir, Groups(cfg)[i].name) :=
                           Normalized(envs(i).fetch.value, cfg.aggregation)])
    ensures StoreStep(before, after, i + 1, cfg, envs)
  {
  }

  lemma {:induction false} StoredSteps(before: Records, n: nat, cfg: Config, envs: nat -> Env)
    requires n <= |Groups(cfg)|
    ensures StoreStep(before, Stored(before, n, cfg, envs), n, cfg, envs)
  {
    if n > 0 {
      StoredSteps(before, n - 1, cfg, envs);
      StoreStepGrows(before, Stored(before, n - 1, cfg, envs), Stored(before, n, cfg, envs), n - 1, cfg, envs);
    }
  }

  lemma {:induction false} StoredKeys(before: Records, n: nat, cfg: Config, envs: nat -> Env)
    requires n <= |Groups(cfg)|
    ensures before.Keys <= Stored(before, n, cfg, envs).Keys
    ensures forall j: nat :: j < n && envs(j).fetch.Some? ==>
              RecordKey(cfg.stateDir, Groups(cfg)[j].name) in Stored(before, n, cfg, envs)
  {
    if n > 0 { StoredKeys(before, n - 1, cfg, envs); }
  }

  // ---- the plan of all groups ----

  /** Group i is planned with its fetch or, when that failed, with its record. */
  ghost predicate RawAt(raw: seq<Prefix>, i: nat, cfg: Config, envs: nat -> Env, saved: Records)
    requires i < |Groups(cfg)|
  {
    if envs(i).fetch.Some? then raw == envs(i).fetch.value
    else exists record :: raw == Loaded(record) && RecordAt(record, i, cfg, envs, saved)
  }

  ghost predicate RecordAt(record: seq<Prefix>, i: nat, cfg: Config, envs: nat -> Env, saved: Records)
    requires i < |Groups(cfg)|
  {
    var key := RecordKey(cfg.stateDir, Groups(cfg)[i].name);
    (key in saved && record == saved[key]) || FetchedBelow(key, record, i, cfg, envs)
  }

  ghost predicate InputAt(x: InputGroup, i: nat, cfg: Config, envs: nat -> Env, saved: Records, routes: set<Route>,
                          rules: set<Rule>) {
    i < |Groups(cfg)| &&
    exists raw :: RawAt(raw, i, cfg, envs, saved) && InputFor(x, cfg, Groups(cfg)[i], envs(i), raw, routes, rules)
  }

  /** Inputs for the groups that were not skipped, in configured order. */
  ghost predicate InputsFor(inputs: seq<InputGroup>, at: seq<nat>, cfg: Config, envs: nat -> Env, saved: Records,
                            routes: set<Route>, rules: set<Rule>) {
    && |at| == |inputs|
    && (forall i, j :: 0 <= i < j < |at| ==> at[i] < at[j])
    && (forall i :: 0 <= i < |at| ==> InputAt(inputs[i], at[i], cfg, envs, saved, routes, rules))
  }

  lemma InputsAppend(inputs: seq<InputGroup>, at: seq<nat>, x: InputGroup, i: nat, cfg: Config,
                     envs: nat -> Env, saved: Records, routes: set<Route>, rules: set<Rule>)
    requires InputsFor(inputs, at, cfg, envs, saved, routes, rules) && forall j :: 0 <= j < |at| ==> at[j] < i
    requires InputAt(x, i, cfg, envs, saved, routes, rules)
    ensures InputsFor(inputs + [x], at + [i], cfg, envs, saved, routes, rules)
  {
  }

  predicate AllPlannable(cfg: Config, envs: nat -> Env) {
    forall i :: 0 <= i < |Groups(cfg)| ==> Plannable(Groups(cfg)[i], envs(i))
  }

  /** Below n only groups with a failed fetch and no usable saved state have been left out. */
  ghost predicate OnlySkipped(at: seq<nat>, n: nat, cfg: Config, envs: nat -> Env, saved: Records, storeFailed: bool)
    requires n <= |Groups(cfg)|
  {
    forall i: nat :: i < n && i !in at ==> envs(i).fetch == None && (storeFailed || NoRecord(i, cfg, envs, saved))
  }

  /** Group i finds no record: none was there, and no earlier group of its name has just been fetched. */
  ghost predicate NoRecord(i: nat, cfg: Config, envs: nat -> Env, saved: Records)
    requires i < |Groups(cfg)|
  {
    RecordKey(cfg.stateDir, Groups(cfg)[i].name) !in saved &&
    forall j: nat :: j < i && Groups(cfg)[j].name == Groups(cfg)[i].name ==> envs(j).fetch == None
  }

  method InputOf(cfg: Config, i: nat, envs: nat -> Env, k: Kernel, st: GroupStore, ghost saved: Records)
    returns (res: GroupResult)
    requires i < |Groups(cfg)| && StoreStep(saved, st.saved, i, cfg, envs)
    modifies st, k`failures
    ensures k.failures >= old(k.failures) && st.failures >= old(st.failures)
    ensures StoreStep(saved, st.saved, i + 1, cfg, envs)
    ensures !res.Abort? && st.failures == old(st.failures) && old(st.saved) == Stored(saved, i, cfg, envs) ==>
              st.saved == Stored(saved, i + 1, cfg, envs)
    ensures res.Skip? ==> envs(i).fetch == None
    ensures res.Skip? && st.failures == old(st.failures) && old(st.saved) == Stored(saved, i, cfg, envs) ==>
              NoRecord(i, cfg, envs, saved)
    ensures res.Abort? ==> !Plannable(Groups(cfg)[i], envs(i)) || k.failures > old(k.failures)
    ensures !res.Abort? ==> k.failures == old(k.failures)
    ensures res.Ready? ==> InputAt(res.input, i, cfg, envs, saved, k.routes, k.rules)
  {
    ghost var raw;
    res, raw := GroupInput(cfg, Groups(cfg)[i], envs(i), k, st);
    StoreStepGrows(saved, old(st.saved), st.saved, i, cfg, envs);
    if res.Skip? && old(st.saved) == Stored(saved, i, cfg, envs) && st.failures == old(st.failures) {
      StoredKeys(saved, i, cfg, envs);
    }
    if res.Ready? && envs(i).fetch == None {
      assert RecordAt(old(st.saved)[RecordKey(cfg.stateDir, Groups(cfg)[i].name)], i, cfg, envs, saved);
    }
  }

  /** What holds once the groups below n have had their turn. */
  ghost predicate Gathered(inputs: seq<InputGroup>, at: seq<nat>, n: nat, cfg: Config, envs: nat -> Env,
                           saved: Records, now: Records, storeFailed: bool, routes: set<Route>, rules: set<Rule>)
  {
    && n <= |Groups(cfg)|
    && InputsFor(inputs, at, cfg, envs, saved, routes, rules)
    && (forall j :: 0 <= j < |at| ==> at[j] < n)
    && OnlySkipped(at, n, cfg, envs, saved, storeFailed)
    && StoreStep(saved, now, n, cfg, envs)
    && (!storeFailed ==> now == Stored(saved, n, cfg, envs))
  }

  lemma StillOnlySkipped(at: seq<nat>, i: nat, cfg: Config, envs: nat -> Env, saved: Records, failed: bool,
                         failedNow: bool)
    requires i < |Groups(cfg)| && OnlySkipped(at, i, cfg, envs, saved, failed) && (failed ==> failedNow)
    ensures OnlySkipped(at + [i], i + 1, cfg, envs, saved, failedNow)
  {
    assert (at + [i])[|at|] == i;
  }

  lemma GatheredReady(inputs: seq<InputGroup>, at: seq<nat>, x: InputGroup, i: nat, cfg: Config, envs: nat -> Env,
                      saved: Records, was: Records, now: Records, failed: bool, failedNow: bool,
                      routes: set<Route>, rules: set<Rule>)
    requires i < |Groups(cfg)| && Gathered(inputs, at, i, cfg, envs, saved, was, failed, routes, rules)
    requires InputAt(x, i, cfg, envs, saved, routes, rules) && (failed ==> failedNow)
    requires StoreStep(saved, now, i + 1, cfg, envs) && (!failedNow ==> now == Stored(saved, i + 1, cfg, envs))
    ensures Gathered(inputs + [x], at + [i], i + 1, cfg, envs, saved, now, failedNow, routes, rules)
  {
    InputsAppend(inputs, at, x, i, cfg, envs, saved, routes, rules);
    StillOnlySkipped(at, i, cfg, envs, saved, failed, failedNow);
  }

  method GatherOne(cfg: Config, i: nat, envs: nat -> Env, k: Kernel, st: GroupStore, inputs: seq<InputGroup>,
                   ghost at: seq<nat>, ghost saved: Records, ghost storeFailed: bool)
    returns (more: Option<seq<InputGroup>>, ghost atMore: seq<nat>)
    requires i < |Groups(cfg)| && Gathered(inputs, at, i, cfg, envs, saved, st.saved, storeFailed, k.routes, k.rules)
    modifies st, k`failures
    ensures k.failures >= old(k.failures) && st.failures >= old(st.failures)
    ensures StoreStep(saved, st.saved, i + 1, cfg, envs)
    ensures more == None ==> !Plannable(Groups(cfg)[i], envs(i)) || k.failures > old(k.failures)
    ensures more.Some? ==> k.failures == old(k.failures)
    ensures more.Some? ==>
              Gathered(more.value, atMore, i + 1, cfg, envs, saved, st.saved,
                       storeFailed || st.failures > old(st.failures), k.routes, k.rules)
  {
    atMore := at;
    var res := InputOf(cfg, i, envs, k, st, saved);
    if res.Abort? { return None, atMore; }
    if res.Skip? { return Some(inputs), atMore; }
    GatheredReady(inputs, at, res.input, i, cfg, envs, saved, old(st.saved), st.saved,
                  storeFailed, storeFailed || st.failures > old(st.failures), k.routes, k.rules);
    return Some(inputs + [res.input]), at + [i];
  }

  method GatherInputs(cfg: Config, envs: nat -> Env, k: Kernel, st: GroupStore)
    returns (out: Option<seq<InputGroup>>, ghost at: seq<nat>)
    modifies st, k`failures
    ensures k.failures >= old(k.failures) && st.failures >= old(st.failures)
    ensures StoreStep(old(st.saved), st.saved, |Groups(cfg)|, cfg, envs)
    ensures out == None ==> !AllPlannable(cfg, envs) || k.failures > old(k.failures)
    ensures out.Some? ==> k.failures == old(k.failures)
    ensures out.Some? ==>
              Gathered(out.value, at, |Groups(cfg)|, cfg, envs, old(st.saved), st.saved,
                       st.failures > old(st.failures), k.routes, k.rules)
  {
    var groups := GroupsOf(cfg);
    var inputs: seq<InputGroup> := [];
    at := [];
    ghost var saved, failed := st.saved, st.failures;
    for i := 0 to |groups|
      invariant k.failures == old(k.failures) && st.failures >= failed
      invariant Gathered(inputs, at, i, cfg, envs, saved, st.saved, st.failures > failed, k.routes, k.rules)
    {
      var more;
      more, at := GatherOne(cfg, i, envs, k, st, inputs, at, saved, st.failures > failed);
      if more == None {
        StoreStepMonotone(saved, st.saved, i + 1, |groups|, cfg, envs);
        return None, at;
      }
      inputs := more.value;
    }
    return Some(inputs), at;
  }

  lemma StoreStepMonotone(before: Records, after: Records, m: nat, n: nat, cfg: Config, envs: nat -> Env)
    requires m <= n && StoreStep(before, after, m, cfg, envs)
    ensures StoreStep(before, after, n, cfg, envs)
  {
  }

  method BuildPlan(pr: Printer, cfg: Config, envs: nat -> Env, k: Kernel, st: GroupStore)
    returns (out: Option<seq<GroupPlan>>, ghost inputs: seq<InputGroup>, ghost at: seq<nat>)
    requires Faithful(pr)
    modifies st, k`failures
    ensures k.failures >= old(k.failures) && st.failures >= old(st.failures)
    ensures StoreStep(old(st.saved), st.saved, |Groups(cfg)|, cfg, envs)
    ensures out == None ==> !AllPlannable(cfg, envs) || k.failures > old(k.failures)
    ensures out.Some? ==> k.failures == old(k.failures)
    ensures out.Some? ==> PlansFor(out.value, inputs, at, cfg, envs, old(st.saved), k.routes, k.rules)
    ensures out.Some? ==> OnlySkipped(at, |Groups(cfg)|, cfg, envs, old(st.saved), st.failures > old(st.failures))
    ensures out.Some? && st.failures == old(st.failures) ==> st.saved == Stored(old(st.saved), |Groups(cfg)|, cfg, envs)
  {
    var ready;
    ready, at := GatherInputs(cfg, envs, k, st);
    inputs := [];
    if ready == None { return None, inputs, at; }
    inputs := ready.value;
    var plans := Build(pr, cfg.routeProtocol, ready.value);
    return Some(plans), inputs, at;
  }

  ghost predicate PlansFor(plans: seq<GroupPlan>, inputs: seq<InputGroup>, at: seq<nat>, cfg: Config, envs: nat -> Env,
                           saved: Records, routes: set<Route>, rules: set<Rule>) {
    && InputsFor(inputs, at, cfg, envs, saved, routes, rules) && |plans| == |inputs|
    && forall i :: 0 <= i < |inputs| ==> PlanFor(plans[i], cfg.routeProtocol, inputs[i])
  }

  // ---- reconcileOnce ----

  function RoutePlans(plans: seq<GroupPlan>): seq<RoutePlan> {
    seq(|plans|, i requires 0 <= i < |plans| => plans[i].routes)
  }

  function RulePlans(plans: seq<GroupPlan>): seq<RuleReconcile.RulePlan> {
    seq(|plans|, i requires 0 <= i < |plans| => RuleReconcile.RulePlan(plans[i].rulesToAdd, plans[i].rulesToRemove))
  }

  /** Rules before routes, each stopping at the first failing call. */
  method ApplyPlan(k: Kernel, plans: seq<GroupPlan>)
    returns (ok: bool, ghost done: seq<Op>, ghost ruleDone: seq<RuleOp>)
    requires k.Valid() && k.RulesValid()
    modifies k
    ensures k.Valid() && k.RulesValid() && k.failures == old(k.failures) + if ok then 0 else 1
    ensures done <= Ops(RoutePlans(plans)) && ruleDone <= RuleReconcile.RuleOps(RulePlans(plans))
    ensures ok ==> done == Ops(RoutePlans(plans)) && ruleDone == RuleReconcile.RuleOps(RulePlans(plans))
    ensures done != [] ==> ruleDone == RuleReconcile.RuleOps(RulePlans(plans))
    ensures k.routes == Run(old(k.routes), done) && k.rules == RuleRun(old(k.rules), ruleDone)
  {
    done := [];
    ok, ruleDone := RuleReconcile.Apply(k, RulePlans(plans));
    if !ok { return; }
    ok, done := RouteReconcile.Apply(k, RoutePlans(plans));
  }

  /** One reconcile: a plan against the kernel as it is, then as much of it as the kernel accepts. It
      fails only when a group cannot be planned or a kernel call failed. */
  method ReconcileOnce(pr: Printer, cfg: Config, envs: nat -> Env, k: Kernel, st: GroupStore, dryRun: bool)
    returns (ok: bool, ghost plans: seq<GroupPlan>, ghost inputs: seq<InputGroup>, ghost at: seq<nat>,
             ghost done: seq<Op>, ghost ruleDone: seq<RuleOp>)
    requires Faithful(pr) && k.Valid() && k.RulesValid()
    modifies k, st
    ensures k.Valid() && k.RulesValid() && k.failures >= old(k.failures) && st.failures >= old(st.failures)
    ensures if ok then k.failures == old(k.failures) else !AllPlannable(cfg, envs) || k.failures > old(k.failures)
    ensures PlansFor(plans, inputs, at, cfg, envs, old(st.saved), old(k.routes), old(k.rules))
    ensures done <= Ops(RoutePlans(plans)) && ruleDone <= RuleReconcile.RuleOps(RulePlans(plans))
    ensures StoreStep(old(st.saved), st.saved, |Groups(cfg)|, cfg, envs)
    ensures ok ==> OnlySkipped(at, |Groups(cfg)|, cfg, envs, old(st.saved), st.failures > old(st.failures))
    ensures ok && st.failures == old(st.failures) ==> st.saved == Stored(old(st.saved), |Groups(cfg)|, cfg, envs)
    ensures done != [] ==> ruleDone == RuleReconcile.RuleOps(RulePlans(plans))
    ensures ok && !dryRun ==> done == Ops(RoutePlans(plans)) && ruleDone == RuleReconcile.RuleOps(RulePlans(plans))
    ensures dryRun ==> done == [] && ruleDone == []
    ensures k.routes == Run(old(k.routes), done) && k.rules == RuleRun(old(k.rules), ruleDone)
  {
    plans, inputs, at, done, ruleDone := [], [], [], [], [];
    var built;
    built, inputs, at := BuildPlan(pr, cfg, envs, k, st);
    if built == None {
      inputs, at := [], [];
      return false, plans, inputs, at, done, ruleDone;
    }
    plans := built.value;
    if dryRun { return true, plans, inputs, at, done, ruleDone; }
    ok, done, ruleDone := ApplyPlan(k, built.value);
  }

  // ---- an error-free reconcile ----

  ghost function GoalsOf(protocol: int, inputs: seq<InputGroup>): seq<Goal> {
    seq(|inputs|, i requires 0 <= i < |inputs| => GoalOf(protocol, inputs[i]))
  }

  /** No two groups share a family of a table. */
  predicate GroupsApart(cfg: Config) {
    forall i, j :: 0 <= i < j < |Groups(cfg)| ==>
      Apart(ScopeOf(cfg.routeProtocol, Groups(cfg)[i]), ScopeOf(cfg.routeProtocol, Groups(cfg)[j]))
  }

  /** No two groups manage rules of one table and priority. */
  predicate RulesApart(cfg: Config) {
    forall i, j :: 0 <= i < j < |Groups(cfg)| ==>
      RuleReconcile.RuleScopesApart(RuleScopeOf(cfg, Groups(cfg)[i]), RuleScopeOf(cfg, Groups(cfg)[j]))
  }

  /** What the code does not enforce: no /0 source beside a default, and no throw prefix on a source
      or default destination that has no hops. */
  ghost predicate Unclashing(x: InputGroup) {
    && (forall p :: Survives(x, p) ==> !Defaulted(x, p))
    && (forall p :: Survives(x, p) && Thrown(x, p) ==> HasHops(x.targetHops, p.fam))
    && (forall p :: Defaulted(x, p) && Thrown(x, p) ==> HasHops(x.defaultHops, p.fam))
  }

  lemma HopsApart(hops: seq<Hop>, name: FamilyName, cs: seq<Candidate>, links: map<string, int>, ping4: Pinger,
                  ping6: Pinger)
    requires HopsOf(hops, name, cs, links, ping4, ping6)
    ensures MetricsApart(hops)
  {
    var v4, v6, flags4, flags6 :| hops == v4 + v6 &&
      ResolvedFor(v4, name, V4, cs, links, ping4, flags4) && ResolvedFor(v6, name, V6, cs, links, ping6, flags6);
    ResolvedMetricsApart(hops, v4, v6, name, cs, links, ping4, flags4, ping6, flags6);
  }

  /** What a planned group wants is in the form the kernel stores. */
  lemma InputInstalled(x: InputGroup, i: nat, cfg: Config, envs: nat -> Env, saved: Records, routes: set<Route>,
                       rules: set<Rule>)
    requires InputAt(x, i, cfg, envs, saved, routes, rules)
    ensures AllInstalled(GoalOf(cfg.routeProtocol, x).desired)
  {
    var raw :| RawAt(raw, i, cfg, envs, saved) && InputFor(x, cfg, Groups(cfg)[i], envs(i), raw, routes, rules);
    NormalizedMeaning(raw, cfg.aggregation);
    assert BlocksOnly(x);
    DesiredInstalled(cfg.routeProtocol, x);
  }

  /** A planned group of a valid configuration has a consistent goal. */
  lemma InputGoal(x: InputGroup, i: nat, cfg: Config, envs: nat -> Env, saved: Records, routes: set<Route>,
                  rules: set<Rule>)
    requires ConfigOk(cfg) && InputAt(x, i, cfg, envs, saved, routes, rules) && Unclashing(x)
    ensures Consistent(GoalOf(cfg.routeProtocol, x))
  {
    var g := Groups(cfg)[i];
    var raw :| RawAt(raw, i, cfg, envs, saved) && InputFor(x, cfg, g, envs(i), raw, routes, rules);
    NormalizedMeaning(raw, cfg.aggregation);
    HopsApart(x.targetHops, g.target.family, Candidates(g.target.hop), envs(i).links, envs(i).target4, envs(i).target6);
    if g.target.default.Some? {
      HopsApart(x.defaultHops, g.target.family, Candidates(g.target.default.value), envs(i).links, envs(i).default4,
                envs(i).default6);
    }
    assert GroupOk(g);
    assert BlocksOnly(x);
    GoalConsistent(cfg.routeProtocol, x);
  }

  /** The plans of a valid configuration meet the premises about each group of the convergence theorems. */
  lemma ReconcilePlannedTogether(plans: seq<GroupPlan>, inputs: seq<InputGroup>, at: seq<nat>, cfg: Config,
                                 envs: nat -> Env, saved: Records, routes: set<Route>, rules: set<Rule>)
    requires ConfigOk(cfg) && KernelState(routes) && PlansFor(plans, inputs, at, cfg, envs, saved, routes, rules)
    requires forall i :: 0 <= i < |inputs| ==>
               Unclashing(inputs[i]) && NoForeign(GoalOf(cfg.routeProtocol, inputs[i]), routes)
    ensures PlannedTogether(RoutePlans(plans), GoalsOf(cfg.routeProtocol, inputs), routes)
  {
    var goals := GoalsOf(cfg.routeProtocol, inputs);
    forall i | 0 <= i < |goals| ensures
        Consistent(goals[i]) && NoForeign(goals[i], routes) && IsPlan(RoutePlans(plans)[i], goals[i], routes)
    {
      assert InputAt(inputs[i], at[i], cfg, envs, saved, routes, rules);
      InputGoal(inputs[i], at[i], cfg, envs, saved, routes, rules);
      ListedPlan(plans[i], cfg.routeProtocol, inputs[i], routes);
    }
  }

  /** When no two groups share a family of a table, they meet the premise about all of them, whatever
      each group's wishes are. */
  lemma ReconcilePlannedApart(plans: seq<GroupPlan>, inputs: seq<InputGroup>, at: seq<nat>, cfg: Config,
                              envs: nat -> Env, saved: Records, routes: set<Route>, rules: set<Rule>)
    requires ConfigOk(cfg) && GroupsApart(cfg) && PlansFor(plans, inputs, at, cfg, envs, saved, routes, rules)
    ensures PlannedApart(RoutePlans(plans), GoalsOf(cfg.routeProtocol, inputs), routes)
  {
    var goals := GoalsOf(cfg.routeProtocol, inputs);
    forall i | 0 <= i < |goals| ensures WishesInScope(goals[i]) && IsPlan(RoutePlans(plans)[i], goals[i], routes) {
      assert InputAt(inputs[i], at[i], cfg, envs, saved, routes, rules) && GroupOk(Groups(cfg)[at[i]]);
      DesiredInScopeExactly(cfg.routeProtocol, inputs[i]);
      ListedPlan(plans[i], cfg.routeProtocol, inputs[i], routes);
    }
    forall i, j | 0 <= i < j < |goals| ensures Apart(goals[i].scope, goals[j].scope) {
      assert InputAt(inputs[i], at[i], cfg, envs, saved, routes, rules) &&
             InputAt(inputs[j], at[j], cfg, envs, saved, routes, rules);
    }
  }

  /** A group with distinct slots that no foreign route holds converges beside any others. */
  lemma ReconcilePlannedBeside(plans: seq<GroupPlan>, inputs: seq<InputGroup>, at: seq<nat>, cfg: Config,
                               envs: nat -> Env, saved: Records, routes: set<Route>, rules: set<Rule>, i: nat)
    requires ConfigOk(cfg) && GroupsApart(cfg) && KernelState(routes)
    requires PlansFor(plans, inputs, at, cfg, envs, saved, routes, rules)
    requires i < |inputs| && Unclashing(inputs[i]) && NoForeign(GoalOf(cfg.routeProtocol, inputs[i]), routes)
    ensures PlannedBeside(RoutePlans(plans), GoalsOf(cfg.routeProtocol, inputs), routes, i)
  {
    ReconcilePlannedApart(plans, inputs, at, cfg, envs, saved, routes, rules);
    assert InputAt(inputs[i], at[i], cfg, envs, saved, routes, rules);
    InputGoal(inputs[i], at[i], cfg, envs, saved, routes, rules);
    assert GoalsOf(cfg.routeProtocol, inputs)[i] == GoalOf(cfg.routeProtocol, inputs[i]);
  }

  /** And when every group is like that, so do all of them. */
  lemma ReconcilePlanned(plans: seq<GroupPlan>, inputs: seq<InputGroup>, at: seq<nat>, cfg: Config, envs: nat -> Env,
                         saved: Records, routes: set<Route>, rules: set<Rule>)
    requires ConfigOk(cfg) && GroupsApart(cfg) && KernelState(routes)
    requires PlansFor(plans, inputs, at, cfg, envs, saved, routes, rules)
    requires forall i :: 0 <= i < |inputs| ==>
               Unclashing(inputs[i]) && NoForeign(GoalOf(cfg.routeProtocol, inputs[i]), routes)
    ensures Planned(RoutePlans(plans), GoalsOf(cfg.routeProtocol, inputs), routes)
  {
    ReconcilePlannedTogether(plans, inputs, at, cfg, envs, saved, routes, rules);
    ReconcilePlannedApart(plans, inputs, at, cfg, envs, saved, routes, rules);
  }

  ghost function RuleGoalOf(cfg: Config, g: RouteGroup): RuleReconcile.RuleGoal {
    RuleReconcile.RuleGoal(RuleScopeOf(cfg, g), set r | r in DesiredRules(g))
  }

  ghost function RuleGoalsOf(cfg: Config, inputs: seq<InputGroup>): seq<RuleReconcile.RuleGoal> {
    seq(|inputs|, i requires 0 <= i < |inputs| => RuleGoalOf(cfg, inputs[i].config))
  }

  /** What the code leaves to the operator about a group's rule. */
  predicate RuleKeepable(cfg: Config, g: RouteGroup) {
    g.rule.enabled ==>
      && cfg.rulePriorityBase <= g.rule.priority < cfg.rulePriorityBase + cfg.rulePriorityStep * 1000
      && (g.rule.mask == 0 ==> g.rule.fwMark == 0)
      && (g.rule.from.PrefixText? && IsValid(g.rule.from.prefix) ==> IsBlock(g.rule.from.prefix))
  }

  lemma InputRuleGoal(gp: GroupPlan, x: InputGroup, i: nat, cfg: Config, envs: nat -> Env,
                      saved: Records, routes: set<Route>, rules: set<Rule>)
    requires ConfigOk(cfg) && InputAt(x, i, cfg, envs, saved, routes, rules) && PlanFor(gp, cfg.routeProtocol, x)
    requires RuleKeepable(cfg, x.config) && forall r :: r in rules ==> InstalledRule(r) == r
    ensures RuleReconcile.RuleGoalOk(RuleGoalOf(cfg, x.config))
    ensures RuleReconcile.IsRulePlan(RuleReconcile.RulePlan(gp.rulesToAdd, gp.rulesToRemove),
                                     RuleGoalOf(cfg, x.config), rules)
  {
    assert GroupOk(Groups(cfg)[i]);
    var goal := RuleReconcile.ConfiguredRuleGoal(x.config, cfg.rulePriorityBase, cfg.rulePriorityStep);
    assert goal.desired == RuleGoalOf(cfg, x.config).desired;
  }

  /** The rule plans of a valid configuration meet the premises of the rule theorems. */
  lemma ReconcileRulesPlanned(plans: seq<GroupPlan>, inputs: seq<InputGroup>, at: seq<nat>, cfg: Config,
                              envs: nat -> Env, saved: Records, routes: set<Route>, rules: set<Rule>)
    requires ConfigOk(cfg) && RulesApart(cfg) && PlansFor(plans, inputs, at, cfg, envs, saved, routes, rules)
    requires forall r :: r in rules ==> InstalledRule(r) == r
    requires forall i :: 0 <= i < |inputs| ==> RuleKeepable(cfg, inputs[i].config)
    ensures RuleReconcile.RulesPlanned(RulePlans(plans), RuleGoalsOf(cfg, inputs), rules)
  {
    var goals := RuleGoalsOf(cfg, inputs);
    forall i | 0 <= i < |goals| ensures
        RuleReconcile.RuleGoalOk(goals[i]) && RuleReconcile.IsRulePlan(RulePlans(plans)[i], goals[i], rules)
    {
      InputRuleGoal(plans[i], inputs[i], at[i], cfg, envs, saved, routes, rules);
    }
    forall i, j | 0 <= i < j < |goals| ensures RuleReconcile.RuleScopesApart(goals[i].scope, goals[j].scope) {
      assert InputAt(inputs[i], at[i], cfg, envs, saved, routes, rules) &&
             InputAt(inputs[j], at[j], cfg, envs, saved, routes, rules);
    }
  }

  /** No other group has the group's table and rule priority. */
  predicate RulePlaceOwn(cfg: Config, g: nat)
    requires g < |Groups(cfg)|
  {
    forall i :: 0 <= i < |Groups(cfg)| && i != g ==>
      Groups(cfg)[i].target.table != Groups(cfg)[g].target.table ||
      Groups(cfg)[i].rule.priority != Groups(cfg)[g].rule.priority
  }

  /** A group with its table and priority to itself meets the premise about one group. */
  lemma ReconcileRulesBeside(plans: seq<GroupPlan>, inputs: seq<InputGroup>, at: seq<nat>, cfg: Config,
                             envs: nat -> Env, saved: Records, routes: set<Route>, rules: set<Rule>, n: nat)
    requires ConfigOk(cfg) && PlansFor(plans, inputs, at, cfg, envs, saved, routes, rules)
    requires forall r :: r in rules ==> InstalledRule(r) == r
    requires n < |inputs| && at[n] < |Groups(cfg)| && RulePlaceOwn(cfg, at[n])
    ensures RuleReconcile.RulesPlannedBeside(RulePlans(plans), RuleGoalsOf(cfg, inputs), rules, n)
  {
    var goals := RuleGoalsOf(cfg, inputs);
    forall i | 0 <= i < |goals|
      ensures RuleReconcile.IsRulePlan(RulePlans(plans)[i], goals[i], rules)
      ensures forall r :: r in goals[i].desired ==> RuleReconcile.AtPlace(r, goals[i].scope)
    {
      InputRules(plans[i], inputs[i], at[i], cfg, envs, saved, routes, rules);
    }
    forall i | 0 <= i < |goals| && i != n
      ensures goals[i].scope.table != goals[n].scope.table || goals[i].scope.priority != goals[n].scope.priority
    {
      OtherPlace(inputs, at, cfg, envs, saved, routes, rules, i, n);
    }
  }

  lemma OtherPlace(inputs: seq<InputGroup>, at: seq<nat>, cfg: Config, envs: nat -> Env,
                   saved: Records, routes: set<Route>, rules: set<Rule>, i: nat, n: nat)
    requires InputsFor(inputs, at, cfg, envs, saved, routes, rules) && i < |inputs| && n < |inputs| && i != n
    requires at[n] < |Groups(cfg)| && RulePlaceOwn(cfg, at[n])
    ensures var s, t := RuleScopeOf(cfg, inputs[i].config), RuleScopeOf(cfg, inputs[n].config);
            s.table != t.table || s.priority != t.priority
  {
    assert InputAt(inputs[i], at[i], cfg, envs, saved, routes, rules);
    assert InputAt(inputs[n], at[n], cfg, envs, saved, routes, rules);
    assert at[i] != at[n];
  }

  lemma InputRules(gp: GroupPlan, x: InputGroup, i: nat, cfg: Config, envs: nat -> Env,
                   saved: Records, routes: set<Route>, rules: set<Rule>)
    requires ConfigOk(cfg) && InputAt(x, i, cfg, envs, saved, routes, rules) && PlanFor(gp, cfg.routeProtocol, x)
    ensures x.config == Groups(cfg)[i]
    ensures forall r :: r in RuleGoalOf(cfg, x.config).desired ==>
              RuleReconcile.AtPlace(r, RuleGoalOf(cfg, x.config).scope)
    ensures RuleReconcile.IsRulePlan(RuleReconcile.RulePlan(gp.rulesToAdd, gp.rulesToRemove),
                                     RuleGoalOf(cfg, x.config), rules)
  {
    assert GroupOk(Groups(cfg)[i]);
  }

  // ---- cleanup ----

  ghost predicate CleanupPlans(plans: seq<GroupPlan>, cfg: Config, routes: set<Route>, rules: set<Rule>) {
    && |plans| == |Groups(cfg)|
    && forall i :: 0 <= i < |plans| ==> CleanupPlan(plans[i], cfg, Groups(cfg)[i], routes, rules)
  }

  ghost predicate CleanupPlan(gp: GroupPlan, cfg: Config, g: RouteGroup, routes: set<Route>, rules: set<Rule>) {
    && gp.routes.add == [] && SetOf(gp.routes.remove) == Owned(routes, ScopeOf(cfg.routeProtocol, g))
    && gp.rulesToAdd == []
    && forall r :: r in gp.rulesToRemove <==>
         g.rule.enabled && Families(g.target.family) != {} && r in RuleReconcile.OwnedRules(rules, RuleScopeOf(cfg, g))
  }

  method BuildCleanupPlan(cfg: Config, k: Kernel) returns (out: Option<seq<GroupPlan>>)
    modifies k`failures
    ensures k.failures == old(k.failures) + if out.Some? then 0 else 1
    ensures out.Some? ==> CleanupPlans(out.value, cfg, k.routes, k.rules)
  {
    var groups := GroupsOf(cfg);
    var plans: seq<GroupPlan> := [];
    for i := 0 to |groups|
      invariant |plans| == i && k.failures == old(k.failures)
      invariant forall j :: 0 <= j < i ==> CleanupPlan(plans[j], cfg, groups[j], k.routes, k.rules)
    {
      var g := groups[i];
      var currentRoutes := CurrentOwned(k, g.target.table, cfg.routeProtocol, g.target.family);
      if currentRoutes == None { return None; }
      var currentRules: Option<seq<Rule>> := Some([]);
      if g.rule.enabled {
        currentRules := RuleReconcile.CurrentOwned(k, RuleScopeOf(cfg, g), g.target.family);
        if currentRules == None { return None; }
      }
      plans := plans + [GroupPlan(0, |currentRoutes.value|, |currentRules.value|,
                                  RoutePlan(g.target.table, [], currentRoutes.value), [], currentRules.value)];
    }
    return Some(plans);
  }

  method CleanupOwned(cfg: Config, k: Kernel, dryRun: bool)
    returns (ok: bool, ghost plans: seq<GroupPlan>, ghost done: seq<Op>, ghost ruleDone: seq<RuleOp>)
    requires k.Valid() && k.RulesValid()
    modifies k
    ensures k.Valid() && k.RulesValid() && k.failures == old(k.failures) + if ok then 0 else 1
    ensures plans == [] || CleanupPlans(plans, cfg, old(k.routes), old(k.rules))
    ensures done <= Ops(RoutePlans(plans)) && ruleDone <= RuleReconcile.RuleOps(RulePlans(plans))
    ensures done != [] ==> ruleDone == RuleReconcile.RuleOps(RulePlans(plans))
    ensures ok && !dryRun ==> CleanupPlans(plans, cfg, old(k.routes), old(k.rules)) &&
                              done == Ops(RoutePlans(plans)) && ruleDone == RuleReconcile.RuleOps(RulePlans(plans))
    ensures dryRun ==> done == [] && ruleDone == []
    ensures k.routes == Run(old(k.routes), done) && k.rules == RuleRun(old(k.rules), ruleDone)
  {
    plans, done, ruleDone := [], [], [];
    var built := BuildCleanupPlan(cfg, k);
    if built == None { return false, plans, done, ruleDone; }
    plans := built.value;
    if dryRun { return true, plans, done, ruleDone; }
    ok, done, ruleDone := ApplyPlan(k, built.value);
  }

  /** A route in the scope of some group of the configuration. */
  ghost predicate InConfig(r: Route, cfg: Config) {
    exists i :: 0 <= i < |Groups(cfg)| && InScope(r, ScopeOf(cfg.routeProtocol, Groups(cfg)[i]))
  }

  lemma CleanupCalls(plans: seq<GroupPlan>, cfg: Config, routes: set<Route>, rules: set<Rule>, op: Op)
    requires CleanupPlans(plans, cfg, routes, rules)
    ensures op in Ops(RoutePlans(plans)) <==> op.Delete? && op.route in routes && InConfig(op.route, cfg)
  {
    var rps := RoutePlans(plans);
    OpsMembers(rps, op);
    forall i | 0 <= i < |rps|
      ensures RouteConvergence.Mentions(rps[i], op) <==>
              op.Delete? && op.route in routes && InScope(op.route, ScopeOf(cfg.routeProtocol, Groups(cfg)[i]))
    {
      assert CleanupPlan(plans[i], cfg, Groups(cfg)[i], routes, rules);
      assert op.route in SetOf(rps[i].remove) <==> op.route in rps[i].remove;
    }
  }

  /** An error-free cleanup removes every owned route of every group, and nothing else, even when
      groups share a table. */
  lemma CleanupComplete(plans: seq<GroupPlan>, cfg: Config, routes: set<Route>, rules: set<Rule>)
    requires CleanupPlans(plans, cfg, routes, rules) && KernelState(routes)
    ensures forall r :: r in Run(routes, Ops(RoutePlans(plans))) <==> r in routes && !InConfig(r, cfg)
  {
    var ops := Ops(RoutePlans(plans));
    forall op ensures op in ops <==> op.Delete? && op.route in routes && InConfig(op.route, cfg) {
      CleanupCalls(plans, cfg, routes, rules, op);
    }
    RunOnlyDeletes(routes, ops);
    forall r | r in routes ensures r in Run(routes, ops) <==> !InConfig(r, cfg) {
      assert Delete(r) in ops <==> InConfig(r, cfg);
    }
  }

  /** A rule that the cleanup of some group with an enabled rule owns. */
  ghost predicate CleanedRule(r: Rule, cfg: Config) {
    exists i :: 0 <= i < |Groups(cfg)| && Groups(cfg)[i].rule.enabled && Families(Groups(cfg)[i].target.family) != {} &&
      RuleReconcile.RuleInScope(r, RuleScopeOf(cfg, Groups(cfg)[i]))
  }

  lemma CleanupRuleCalls(plans: seq<GroupPlan>, cfg: Config, routes: set<Route>, rules: set<Rule>, op: RuleOp)
    requires CleanupPlans(plans, cfg, routes, rules)
    ensures op in RuleReconcile.RuleOps(RulePlans(plans)) <==>
            op.DeleteRule? && op.rule in rules && CleanedRule(op.rule, cfg)
  {
    var rps := RulePlans(plans);
    RuleReconcile.RuleOpsMembers(rps, op);
    forall i | 0 <= i < |rps|
      ensures RuleReconcile.Mentions(rps[i], op) <==>
              && op.DeleteRule? && op.rule in rules && Groups(cfg)[i].rule.enabled
              && Families(Groups(cfg)[i].target.family) != {}
              && RuleReconcile.RuleInScope(op.rule, RuleScopeOf(cfg, Groups(cfg)[i]))
    {
      assert CleanupPlan(plans[i], cfg, Groups(cfg)[i], routes, rules);
    }
  }

  /** It removes the rules that the groups with an enabled rule own, in the band, and no other rule. */
  lemma CleanupRulesComplete(plans: seq<GroupPlan>, cfg: Config, routes: set<Route>, rules: set<Rule>)
    requires CleanupPlans(plans, cfg, routes, rules) && forall r :: r in rules ==> InstalledRule(r) == r
    ensures forall r :: r in RuleRun(rules, RuleReconcile.RuleOps(RulePlans(plans))) <==>
              r in rules && !CleanedRule(r, cfg)
  {
    var ops := RuleReconcile.RuleOps(RulePlans(plans));
    forall op ensures op in ops <==> op.DeleteRule? && op.rule in rules && CleanedRule(op.rule, cfg) {
      CleanupRuleCalls(plans, cfg, routes, rules, op);
    }
    assert RuleReconcile.Added(ops) == {};
    RuleReconcile.RuleRunSets(rules, ops);
    forall r | r in rules ensures r in RuleReconcile.Deleted(ops) <==> CleanedRule(r, cfg) {
      assert RuleOp.DeleteRule(r) in ops <==> CleanedRule(r, cfg);
    }
  }
}
