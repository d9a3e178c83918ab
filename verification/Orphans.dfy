/** A run that shows why the healing theorems speak only of what some goal owns. */
module Orphans {
  import opened Wrappers
  import opened Prefixes
  import opened Sequences
  import opened Normalization
  import opened Config
  import opened Health
  import opened Gateways
  import opened Rtnl
  import opened RouteReconcile
  import opened Planner
  import opened Exclusions
  import opened Store
  import opened App
  import opened Failover
  import opened Daemon
  import RuleReconcile

  const ORPHAN_DST := Prefix(V4, 0, 8)

  function ExampleZone(): RouteGroup {
    var hop := NextHop("wg0", NoText, NoText, NoText, false, HealthCheck([], 0), []);
    RouteGroup("zone", true, SourceConfig(Txt, "", "list"), Target(100, hop, IPv4, None, false, []),
               RuleConfig(false, 0, 0, 0, 0, NoPrefixText))
  }

  /** A configuration with just this zone, or with none. */
  function ExampleConfig(zones: seq<RouteGroup>): Config {
    Config("text", "state", 99, 1000, 1, false, false, Some(false), ExampleZone(), zones)
  }

  function ExampleEnv(): Env {
    var silent: Pinger := (_, _) => false;
    Env(Some([ORPHAN_DST]), map["wg0" := 2], Host(None, _ => false), silent, silent, silent, silent)
  }

  function ExampleRoute(): Route {
    Route(100, 99, Unicast, 2, NoAddr, false, 0, ORPHAN_DST)
  }

  ghost function ExampleInput(): InputGroup {
    InputGroup(ExampleZone(), Normalized([ORPHAN_DST], false), [], [], 2, 0, [], [], [], [])
  }

  lemma ExampleGroups()
    ensures Groups(ExampleConfig([ExampleZone()])) == [ExampleZone()] && Groups(ExampleConfig([])) == []
  {
    FilterOne(ExampleZone(), ZoneEnabled());
  }

  lemma ExampleZoneOk()
    ensures GroupOk(ExampleZone())
  {
  }

  lemma PlainConfigOk(c: Config)
    requires c.logFormat == "text" && 1 <= c.routeProtocol <= 255 && c.rulePriorityBase > 0 && c.rulePriorityStep > 0
    requires !RUEnabled(c) && forall i :: 0 <= i < |Groups(c)| ==> GroupOk(Groups(c)[i])
    ensures ConfigOk(c)
  {
    assert ["text", "json"][0] == c.logFormat;
  }

  lemma ExampleConfigOk(c: Config, zones: seq<RouteGroup>)
    requires c == ExampleConfig(zones) && forall i :: 0 <= i < |Groups(c)| ==> GroupOk(Groups(c)[i])
    ensures ConfigOk(c)
  {
    PlainConfigOk(c);
  }

  lemma ExampleConfigs()
    ensures ConfigOk(ExampleConfig([ExampleZone()])) && ConfigOk(ExampleConfig([]))
  {
    ExampleGroups();
    ExampleZoneOk();
    ExampleConfigOk(ExampleConfig([ExampleZone()]), [ExampleZone()]);
    ExampleConfigOk(ExampleConfig([]), []);
  }

  lemma ExampleDesired()
    ensures ExampleInput().prefixes == [ORPHAN_DST] && DesiredSet(99, ExampleInput()) == {ExampleRoute()}
  {
    assert Masked(ORPHAN_DST) == ORPHAN_DST;
    assert SortedSet([ORPHAN_DST]) == Insert(ORPHAN_DST, SortedSet([ORPHAN_DST][1..])) == [ORPHAN_DST];
    OnlyPlain(99, ExampleInput(), ORPHAN_DST);
  }

  lemma ExampleInputIs()
    ensures InputFor(ExampleInput(), ExampleConfig([ExampleZone()]), ExampleZone(), ExampleEnv(), [ORPHAN_DST], {}, {})
  {
    var x, env := ExampleInput(), ExampleEnv();
    assert Candidates(x.config.target.hop) == [];
    NothingToResolve(IPv4, [], env.links, env.target4, env.target6);
  }

  ghost function ExamplePlan(): GroupPlan {
    GroupPlan(1, 0, 0, RoutePlan(100, [ExampleRoute()], []), [], [])
  }

  lemma ExamplePlanIs()
    ensures PlanFor(ExamplePlan(), 99, ExampleInput())
  {
    var x := ExampleInput();
    ExampleDesired();
    assert SetOf([ExampleRoute()]) == {ExampleRoute()} && SetOf([]) == {};
    assert (set p | p in x.prefixes && Survives(x, p)) == {ORPHAN_DST};
  }

  lemma ExampleCalls()
    ensures Ops(RoutePlans([ExamplePlan()])) == [Add(ExampleRoute())]
    ensures RuleReconcile.RuleOps(RulePlans([ExamplePlan()])) == []
    ensures Ops(RoutePlans([])) == [] && RuleReconcile.RuleOps(RulePlans([])) == []
  {
    var gp, rp := ExamplePlan().routes, RuleReconcile.RulePlan([], []);
    assert RoutePlans([ExamplePlan()]) == [gp] && [gp][..0] == [];
    assert RulePlans([ExamplePlan()]) == [rp] && [rp][..0] == [];
    assert Conflicting(gp) == [] && Remaining(gp) == [];
    assert Adds(gp.add) == [Add(ExampleRoute())] && Deletes([]) == [];
  }

  ghost function Installing(saved: Records): Move {
    Work([Add(ExampleRoute())], [], saved, 0, 0)
  }

  ghost function Idle(saved: Records): Move {
    Work([], [], saved, 0, 0)
  }

  ghost predicate ExampleStart(w: World) {
    w.active == ExampleConfig([ExampleZone()]) && w.saved == map[] && w.routes == {} && w.rules == {}
  }

  lemma OneGroupPlans(cfg: Config, envs: nat -> Env, gp: GroupPlan, x: InputGroup, raw: seq<Prefix>,
                      saved: Records, routes: set<Route>, rules: set<Rule>)
    requires |Groups(cfg)| == 1 && envs(0).fetch == Some(raw) && PlanFor(gp, cfg.routeProtocol, x)
    requires InputFor(x, cfg, Groups(cfg)[0], envs(0), raw, routes, rules)
    ensures PlansFor([gp], [x], [0], cfg, envs, saved, routes, rules)
  {
    assert RawAt(raw, 0, cfg, envs, saved);
    assert InputAt(x, 0, cfg, envs, saved, routes, rules);
  }

  lemma ZonePlans(w: World, envs: nat -> Env)
    requires ExampleStart(w) && envs(0) == ExampleEnv()
    ensures PlansFor([ExamplePlan()], [ExampleInput()], [0], w.active, envs, w.saved, w.routes, w.rules)
  {
    ExampleGroups();
    ExampleInputIs();
    ExamplePlanIs();
    OneGroupPlans(w.active, envs, ExamplePlan(), ExampleInput(), [ORPHAN_DST], w.saved, w.routes, w.rules);
  }

  lemma ZoneStored(w: World, envs: nat -> Env)
    requires ExampleStart(w)
    ensures |Groups(w.active)| == 1 && StoreStep(w.saved, Stored(w.saved, 1, w.active, envs), 1, w.active, envs)
  {
    ExampleGroups();
    StoredSteps(w.saved, 1, w.active, envs);
  }

  lemma ZoneApplied(opts: Options, saved: Records)
    requires !opts.dryRun
    ensures Applied(opts, Installing(saved), [ExamplePlan()]) && Complete(opts, Installing(saved), [ExamplePlan()])
  {
    ExampleCalls();
  }

  lemma NoneSkipped(cfg: Config, envs: nat -> Env, saved: Records, storeFailed: bool)
    requires |Groups(cfg)| == 1
    ensures OnlySkipped([0], 1, cfg, envs, saved, storeFailed)
  {
    assert [0][0] == 0;
  }

  lemma OneGroupReconciles(opts: Options, w: World, envs: nat -> Env, m: Move, gp: GroupPlan, x: InputGroup)
    requires |Groups(w.active)| == 1 && m.Work? && Applied(opts, m, [gp]) && Complete(opts, m, [gp])
    requires PlansFor([gp], [x], [0], w.active, envs, w.saved, w.routes, w.rules)
    requires StoreStep(w.saved, m.saved, 1, w.active, envs) && m.saved == Stored(w.saved, 1, w.active, envs)
    ensures Performs(opts, w, Reconcile(envs), m)
  {
    NoneSkipped(w.active, envs, w.saved, m.storeFailures > 0);
    ReconcileMove(opts, w, envs, true, m, [gp], [x], [0]);
  }

  /** With the zone, the reconcile of an empty kernel installs its route. */
  lemma ZoneReconciles(opts: Options, w: World, envs: nat -> Env)
    requires !opts.dryRun && ExampleStart(w) && envs(0) == ExampleEnv()
    ensures |Groups(w.active)| == 1
    ensures Performs(opts, w, Reconcile(envs), Installing(Stored(w.saved, 1, w.active, envs)))
  {
    ZoneStored(w, envs);
    ZoneInstalls(opts, w, envs, Installing(Stored(w.saved, 1, w.active, envs)), ExamplePlan(), ExampleInput());
  }

  lemma ZoneInstalls(opts: Options, w: World, envs: nat -> Env, m: Move, gp: GroupPlan, x: InputGroup)
    requires !opts.dryRun && ExampleStart(w) && envs(0) == ExampleEnv() && |Groups(w.active)| == 1
    requires gp == ExamplePlan() && x == ExampleInput() && m == Installing(Stored(w.saved, 1, w.active, envs))
    ensures Performs(opts, w, Reconcile(envs), m)
  {
    ZonePlans(w, envs);
    ZoneStored(w, envs);
    ZoneApplied(opts, m.saved);
    OneGroupReconciles(opts, w, envs, m, gp, x);
  }

  lemma NoGroupReconciles(opts: Options, w: World, envs: nat -> Env, m: Move)
    requires |Groups(w.active)| == 0 && m == Idle(w.saved)
    requires Ops(RoutePlans([])) == [] && RuleReconcile.RuleOps(RulePlans([])) == []
    ensures Performs(opts, w, Reconcile(envs), m)
  {
    ReconcileMove(opts, w, envs, true, m, [], [], []);
  }

  /** Without it, a reconcile does nothing. */
  lemma NoZoneReconciles(opts: Options, w: World, envs: nat -> Env)
    requires w.active == ExampleConfig([])
    ensures Performs(opts, w, Reconcile(envs), Idle(w.saved))
  {
    ExampleGroups();
    ExampleCalls();
    NoGroupReconciles(opts, w, envs, Idle(w.saved));
  }

  lemma ThreeMoves(p: (World, Step, Move) -> bool, w: World, a: Step, m: Move, b: Step, n: Move, c: Step, o: Move)
    requires p(w, a, m) && p(Next(w, m), b, n) && p(Next(Next(w, m), n), c, o)
    ensures Follows(p, w, [a, b, c], [m, n, o]) && After(w, [m, n, o]) == Next(Next(Next(w, m), n), o)
  {
    TwoMoves(p, w, a, m, b, n);
    assert [m, n, o][..0] == [] && [m, n, o][..1] == [m] && [m, n, o][..2] == [m, n];
  }

  lemma ReloadBetween(opts: Options, w: World, envs: nat -> Env, next: Config, m: Move, n: Move)
    requires Performs(opts, w, Reconcile(envs), m) && Performs(opts, Next(Next(w, m), Reload(next)), Reconcile(envs), n)
    ensures Performed(opts, w, [Reconcile(envs), Adopt(next), Reconcile(envs)], [m, Reload(next), n])
    ensures After(w, [m, Reload(next), n]) == Next(Next(Next(w, m), Reload(next)), n)
  {
    var p, v := Performer(opts), Next(w, m);
    PerformerIs(opts, w, Reconcile(envs), m);
    PerformerIs(opts, v, Adopt(next), Reload(next));
    PerformerIs(opts, Next(v, Reload(next)), Reconcile(envs), n);
    ThreeMoves(p, w, Reconcile(envs), m, Adopt(next), Reload(next), Reconcile(envs), n);
  }

  lemma PerformerIs(opts: Options, w: World, step: Step, m: Move)
    requires Performs(opts, w, step, m)
    ensures Performer(opts)(w, step, m)
  {
  }

  lemma InstallingThenIdle(w: World, next: Config, saved: Records)
    requires w.routes == {}
    ensures var v := Next(Next(w, Installing(saved)).(active := next), Idle(saved));
            v.routes == {ExampleRoute()} && v.failures == w.failures
    ensures Next(w.(active := next), Idle(w.saved)).routes == {}
  {
    RouteInstalled();
  }

  /** A run in which nothing fails: the zone's route is installed, a reload drops the zone, and the
      reconcile that follows leaves the route behind. The same reconcile without that history ends
      with no routes. */
  lemma ReloadOrphans(opts: Options, w: World, envs: nat -> Env, next: Config) returns (moves: seq<Move>, clean: Move)
    requires !opts.dryRun && ExampleStart(w) && envs(0) == ExampleEnv() && next == ExampleConfig([])
    ensures ConfigOk(w.active) && ConfigOk(next)
    ensures Performed(opts, w, [Reconcile(envs), Adopt(next), Reconcile(envs)], moves)
    ensures After(w, moves).routes == {ExampleRoute()} && After(w, moves).failures == w.failures
    ensures Performs(opts, w.(active := next), Reconcile(envs), clean)
    ensures Next(w.(active := next), clean).routes == {}
  {
    ExampleConfigs();
    ZoneReconciles(opts, w, envs);
    var saved := Stored(w.saved, 1, w.active, envs);
    var v := Next(w, Installing(saved)).(active := next);
    NoZoneReconciles(opts, v, envs);
    NoZoneReconciles(opts, w.(active := next), envs);
    ReloadBetween(opts, w, envs, next, Installing(saved), Idle(v.saved));
    InstallingThenIdle(w, next, saved);
    clean := Idle(w.saved);
    moves := [Installing(saved), Reload(next), Idle(v.saved)];
  }

  lemma RouteInstalled()
    ensures Run({}, [Add(ExampleRoute())]) == {ExampleRoute()}
  {
    var r := ExampleRoute();
    assert [Add(r)][..0] == [];
    assert Masked(ORPHAN_DST) == ORPHAN_DST;
  }
}
