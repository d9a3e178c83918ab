/** runDaemon as a state machine: ticks, reloads, failures at any kernel call, shutdown cleanup. */
module Daemon {
  import opened Wrappers
  import opened Prefixes
  import opened Config
  import opened Rtnl
  import opened Keys
  import opened RouteReconcile
  import opened RouteConvergence
  import opened Planner
  import opened PlannerProperties
  import opened App
  import opened Store
  import RuleReconcile

  datatype Options = Options(disableRUDefault: bool, logFormat: string, cleanupOnShutdown: bool, dryRun: bool)

  /** The command-line overrides loadConfig applies after reading. */
  function Overridden(opts: Options, c: Config): Config {
    var off := c.(ruBuiltin := Some(false), ruDefault := c.ruDefault.(enabled := false));
    var c1 := if opts.disableRUDefault then off else c;
    var c2 := if opts.logFormat != "" then c1.(logFormat := opts.logFormat) else c1;
    if opts.cleanupOnShutdown then c2.(cleanupOnShutdown := true) else c2
  }

  /** Each override does its one thing: cleanup can only be switched on, a log format replaces the read
      one, the built-in group can only be switched off; everything else is as read. */
  lemma OverridesExactly(opts: Options, c: Config, g: RouteGroup)
    ensures var o := Overridden(opts, c);
            && (o.cleanupOnShutdown <==> c.cleanupOnShutdown || opts.cleanupOnShutdown)
            && o.logFormat == (if |opts.logFormat| > 0 then opts.logFormat else c.logFormat)
            && o.stateDir == c.stateDir && o.routeProtocol == c.routeProtocol && o.aggregation == c.aggregation
            && o.rulePriorityBase == c.rulePriorityBase && o.rulePriorityStep == c.rulePriorityStep
            && (g in Groups(o) <==>
                  || (g in c.specialZones && g.enabled)
                  || (!opts.disableRUDefault && c.ruDefault.enabled && c.ruBuiltin == Some(true) &&
                      g == c.ruDefault.(name := "ru_default")))
  {
    GroupsMembers(Overridden(opts, c), g);
  }

  /** A configuration is accepted only if it is valid both as read and as overridden. */
  method LoadConfig(opts: Options, read: Option<Config>) returns (out: Option<Config>)
    ensures out.Some? <==> read.Some? && ConfigOk(read.value) && ConfigOk(Overridden(opts, read.value))
    ensures out.Some? ==> out.value == Overridden(opts, read.value)
  {
    if read == None { return None; }
    var errs := Validate(read.value);
    if errs != [] { return None; }
    var c := Overridden(opts, read.value);
    errs := Validate(c);
    if errs != [] { return None; }
    return Some(c);
  }

  // ---- worlds and moves ----

  /** Everything a run can change, with the number of kernel calls and store accesses that failed. */
  datatype World = World(active: Config, saved: Records, routes: set<Route>, rules: set<Rule>, failures: nat,
                         storeFailures: nat)

  /** Work is what one reconcile or cleanup got done before it ended or failed. */
  datatype Move =
    | Work(ops: seq<Op>, ruleOps: seq<RuleOp>, saved: Records, failures: nat, storeFailures: nat)
    | Reload(next: Config)

  function Next(w: World, m: Move): World {
    match m
    case Work(ops, ruleOps, saved, failures, storeFailures) =>
      World(w.active, saved, Run(w.routes, ops), RuleRun(w.rules, ruleOps), w.failures + failures,
            w.storeFailures + storeFailures)
    case Reload(c) => w.(active := c)
  }

  /** A rule the configuration may delete, or the one it installs. Only the former has to lie in the
      band: a rule with a priority outside it is installed and never looked at again. */
  ghost predicate RuleInConfig(r: Rule, cfg: Config) {
    exists i :: 0 <= i < |Groups(cfg)| && RuleOfGroup(r, cfg, Groups(cfg)[i])
  }

  ghost predicate RuleOfGroup(r: Rule, cfg: Config, g: RouteGroup) {
    RuleReconcile.RuleInScope(r, RuleScopeOf(cfg, g)) || exists d :: d in DesiredRules(g) && InstalledRule(d) == r
  }

  /** Work touches only routes and rules of the active configuration; a reload brings a valid one. */
  ghost predicate Legal(cfg: Config, m: Move) {
    match m
    case Work(ops, ruleOps, _, _, _) =>
      (forall i :: 0 <= i < |ops| ==> InConfig(Installed(ops[i].route), cfg)) &&
      (forall i :: 0 <= i < |ruleOps| ==> RuleInConfig(InstalledRule(ruleOps[i].rule), cfg))
    case Reload(c) => ConfigOk(c)
  }

  function After(w: World, moves: seq<Move>): World {
    if moves == [] then w else Next(After(w, moves[..|moves| - 1]), moves[|moves| - 1])
  }

  ghost predicate LegalRun(w: World, moves: seq<Move>) {
    forall i :: 0 <= i < |moves| ==> Legal(After(w, moves[..i]).active, moves[i])
  }

  // ---- what a run has to perform ----

  datatype Event = Tick(envs: nat -> Env) | Hangup(read: Option<Config>, envs: nat -> Env) | Terminate

  datatype Step = Reconcile(envs: nat -> Env) | Adopt(next: Config) | Cleanup

  ghost predicate Accepted(opts: Options, read: Option<Config>) {
    read.Some? && ConfigOk(read.value) && ConfigOk(Overridden(opts, read.value))
  }

  /** Each tick reconciles, an accepted reload is adopted and reconciles at once, a rejected one does
      nothing, termination may clean up. */
  ghost function Steps(opts: Options, active: Config, event: Event): seq<Step> {
    match event
    case Tick(envs) => [Reconcile(envs)]
    case Hangup(read, envs) =>
      if Accepted(opts, read) then [Adopt(Overridden(opts, read.value)), Reconcile(envs)] else []
    case Terminate => if active.cleanupOnShutdown then [Cleanup] else []
  }

  ghost function ActiveAfter(opts: Options, active: Config, event: Event): Config {
    if event.Hangup? && Accepted(opts, event.read) then Overridden(opts, event.read.value) else active
  }

  /** The steps a whole run calls for; termination ends it. */
  ghost function Script(opts: Options, active: Config, events: seq<Event>): seq<Step>
    decreases |events|
  {
    if events == [] then []
    else if events[0].Terminate? then Steps(opts, active, events[0])
    else Steps(opts, active, events[0]) + Script(opts, ActiveAfter(opts, active, events[0]), events[1..])
  }

  /** One reconcile: plans for the world as it is, applied up to the first failing call. Without a
      failure every group that can be planned is, and its plan is applied in full. */
  ghost predicate Reconciles(opts: Options, w: World, envs: nat -> Env, m: Move,
                             plans: seq<GroupPlan>, inputs: seq<InputGroup>, at: seq<nat>)
    requires m.Work?
  {
    && PlansFor(plans, inputs, at, w.active, envs, w.saved, w.routes, w.rules)
    && StoreStep(w.saved, m.saved, |Groups(w.active)|, w.active, envs)
    && Applied(opts, m, plans)
    && (m.failures == 0 && AllPlannable(w.active, envs) ==>
          && Complete(opts, m, plans)
          && OnlySkipped(at, |Groups(w.active)|, w.active, envs, w.saved, m.storeFailures > 0)
          && (m.storeFailures == 0 ==> m.saved == Stored(w.saved, |Groups(w.active)|, w.active, envs)))
  }

  /** The calls that took effect are a prefix of the plans' calls, rules before routes. */
  ghost predicate Applied(opts: Options, m: Move, plans: seq<GroupPlan>)
    requires m.Work?
  {
    && m.ops <= Ops(RoutePlans(plans)) && m.ruleOps <= RuleReconcile.RuleOps(RulePlans(plans))
    && (m.ops != [] ==> m.ruleOps == RuleReconcile.RuleOps(RulePlans(plans)))
    && (opts.dryRun ==> m.ops == [] && m.ruleOps == [])
  }

  ghost predicate Complete(opts: Options, m: Move, plans: seq<GroupPlan>)
    requires m.Work?
  {
    !opts.dryRun ==> m.ops == Ops(RoutePlans(plans)) && m.ruleOps == RuleReconcile.RuleOps(RulePlans(plans))
  }

  ghost predicate CleansUp(opts: Options, w: World, m: Move, plans: seq<GroupPlan>)
    requires m.Work?
  {
    && m.saved == w.saved && m.storeFailures == 0 && m.failures <= 1
    && (plans == [] || CleanupPlans(plans, w.active, w.routes, w.rules))
    && Applied(opts, m, plans)
    && (m.failures == 0 && !opts.dryRun ==>
          CleanupPlans(plans, w.active, w.routes, w.rules) && Complete(opts, m, plans))
  }

  ghost predicate Performs(opts: Options, w: World, step: Step, m: Move) {
    match step
    case Reconcile(envs) => m.Work? && exists plans, inputs, at :: Reconciles(opts, w, envs, m, plans, inputs, at)
    case Adopt(c) => m == Reload(c)
    case Cleanup => m.Work? && exists plans :: CleansUp(opts, w, m, plans)
  }

  ghost function Performer(opts: Options): (World, Step, Move) -> bool {
    (w, step, m) => Performs(opts, w, step, m)
  }

  /** The moves perform the script, step by step. */
  ghost predicate Performed(opts: Options, w: World, script: seq<Step>, moves: seq<Move>) {
    Follows(Performer(opts), w, script, moves)
  }

  ghost predicate Follows(p: (World, Step, Move) -> bool, w: World, script: seq<Step>, moves: seq<Move>) {
    |moves| == |script| && forall i :: 0 <= i < |moves| ==> p(After(w, moves[..i]), script[i], moves[i])
  }

  lemma OneMove(p: (World, Step, Move) -> bool, w: World, step: Step, m: Move)
    requires p(w, step, m)
    ensures Follows(p, w, [step], [m]) && After(w, [m]) == Next(w, m)
  {
    assert [m][..0] == [];
  }

  lemma TwoMoves(p: (World, Step, Move) -> bool, w: World, first: Step, m: Move, second: Step, n: Move)
    requires p(w, first, m) && p(Next(w, m), second, n)
    ensures Follows(p, w, [first, second], [m, n]) && After(w, [m, n]) == Next(Next(w, m), n)
  {
    OneMove(p, w, first, m);
    assert [m, n][..0] == [] && [m, n][..1] == [m];
  }

  lemma {:induction false} AfterAppend(w: World, moves: seq<Move>, more: seq<Move>)
    ensures After(w, moves + more) == After(After(w, moves), more)
  {
    if more == [] {
      assert moves + more == moves;
    } else {
      var n := |more| - 1;
      AfterAppend(w, moves, more[..n]);
      assert (moves + more)[..|moves + more| - 1] == moves + more[..n];
    }
  }

  lemma FollowsAppend(p: (World, Step, Move) -> bool, w: World, script: seq<Step>, moves: seq<Move>, steps: seq<Step>,
                      more: seq<Move>)
    requires Follows(p, w, script, moves) && Follows(p, After(w, moves), steps, more)
    ensures Follows(p, w, script + steps, moves + more)
  {
    var all := moves + more;
    forall i | 0 <= i < |all| ensures p(After(w, all[..i]), (script + steps)[i], all[i]) {
      AfterSlice(w, moves, more, i);
      if i >= |moves| { assert p(After(After(w, moves), more[..i - |moves|]), steps[i - |moves|], more[i - |moves|]); }
    }
  }

  lemma AfterSlice(w: World, moves: seq<Move>, more: seq<Move>, i: nat)
    requires i < |moves| + |more|
    ensures After(w, (moves + more)[..i]) ==
            if i < |moves| then After(w, moves[..i]) else After(After(w, moves), more[..i - |moves|])
  {
    if i < |moves| {
      assert (moves + more)[..i] == moves[..i];
    } else {
      assert (moves + more)[..i] == moves + more[..i - |moves|];
      AfterAppend(w, moves, more[..i - |moves|]);
    }
  }

  lemma StepPerformed(opts: Options, i: nat, w: World, script: seq<Step>, moves: seq<Move>)
    requires Performed(opts, w, script, moves) && i < |moves|
    ensures Performs(opts, After(w, moves[..i]), script[i], moves[i])
    ensures After(w, moves[..i + 1]) == Next(After(w, moves[..i]), moves[i])
  {
    assert Performer(opts)(After(w, moves[..i]), script[i], moves[i]);
    assert moves[..i + 1][..i] == moves[..i];
  }

  // ---- reconcile and cleanup are legal work ----

  lemma ReconcileIsLegal(plans: seq<GroupPlan>, inputs: seq<InputGroup>, at: seq<nat>, cfg: Config, envs: nat -> Env,
                         saved: Records, routes: set<Route>, rules: set<Rule>, m: Move)
    requires m.Work? && ConfigOk(cfg) && PlansFor(plans, inputs, at, cfg, envs, saved, routes, rules)
    requires m.ops <= Ops(RoutePlans(plans)) && m.ruleOps <= RuleReconcile.RuleOps(RulePlans(plans))
    ensures Legal(cfg, m)
  {
    var done, ruleDone := m.ops, m.ruleOps;
    forall n | 0 <= n < |done| ensures InConfig(Installed(done[n].route), cfg) {
      assert done[n] in Ops(RoutePlans(plans));
      OpsMembers(RoutePlans(plans), done[n]);
      var i :| 0 <= i < |plans| && RouteConvergence.Mentions(RoutePlans(plans)[i], done[n]);
      PlannedRouteInConfig(plans[i], inputs[i], at[i], cfg, envs, saved, routes, rules, done[n].route);
    }
    forall n | 0 <= n < |ruleDone| ensures RuleInConfig(InstalledRule(ruleDone[n].rule), cfg) {
      var op := ruleDone[n];
      assert op in RuleReconcile.RuleOps(RulePlans(plans));
      RuleReconcile.RuleOpsMembers(RulePlans(plans), op);
      var i :| 0 <= i < |plans| && RuleReconcile.Mentions(RulePlans(plans)[i], op);
      PlannedRuleInConfig(plans[i], inputs[i], at[i], cfg, envs, saved, routes, rules, op.rule);
    }
  }

  lemma PlannedRuleInConfig(gp: GroupPlan, x: InputGroup, i: nat, cfg: Config, envs: nat -> Env,
                            saved: Records, routes: set<Route>, rules: set<Rule>, r: Rule)
    requires InputAt(x, i, cfg, envs, saved, routes, rules) && PlanFor(gp, cfg.routeProtocol, x)
    requires r in gp.rulesToAdd || r in gp.rulesToRemove
    ensures RuleInConfig(InstalledRule(r), cfg)
  {
    var g := Groups(cfg)[i];
    assert x.config == g;
    if r in gp.rulesToRemove {
      assert RuleReconcile.RuleInScope(InstalledRule(r), RuleScopeOf(cfg, g));
    }
    assert RuleOfGroup(InstalledRule(r), cfg, g);
  }

  lemma PlannedRouteInConfig(gp: GroupPlan, x: InputGroup, i: nat, cfg: Config, envs: nat -> Env,
                             saved: Records, routes: set<Route>, rules: set<Rule>, r: Route)
    requires ConfigOk(cfg) && InputAt(x, i, cfg, envs, saved, routes, rules) && PlanFor(gp, cfg.routeProtocol, x)
    requires r in gp.routes.add || r in gp.routes.remove
    ensures InConfig(Installed(r), cfg)
  {
    var g := Groups(cfg)[i];
    assert GroupOk(g) && x.config == g;
    assert r in SetOf(gp.routes.add) || r in SetOf(gp.routes.remove);
    if r in DesiredSet(cfg.routeProtocol, x) {
      DesiredInScopeExactly(cfg.routeProtocol, x);
    } else {
      assert r in Owned(routes, ScopeOf(cfg.routeProtocol, g));
    }
    InstalledScope(r, ScopeOf(cfg.routeProtocol, g));
  }

  lemma InstalledScope(r: Route, sc: Scope)
    ensures InScope(Installed(r), sc) <==> InScope(r, sc)
  {
  }

  lemma CleanupIsLegal(plans: seq<GroupPlan>, cfg: Config, routes: set<Route>, rules: set<Rule>, m: Move)
    requires m.Work? && (plans == [] || CleanupPlans(plans, cfg, routes, rules))
    requires m.ops <= Ops(RoutePlans(plans)) && m.ruleOps <= RuleReconcile.RuleOps(RulePlans(plans))
    ensures Legal(cfg, m)
  {
    var done, ruleDone := m.ops, m.ruleOps;
    if plans != [] {
      forall n | 0 <= n < |done| ensures InConfig(Installed(done[n].route), cfg) {
        assert done[n] in Ops(RoutePlans(plans));
        CleanupCalls(plans, cfg, routes, rules, done[n]);
      }
      forall n | 0 <= n < |ruleDone| ensures RuleInConfig(InstalledRule(ruleDone[n].rule), cfg) {
        var op := ruleDone[n];
        assert op in RuleReconcile.RuleOps(RulePlans(plans));
        RuleReconcile.RuleOpsMembers(RulePlans(plans), op);
        var i :| 0 <= i < |plans| && RuleReconcile.Mentions(RulePlans(plans)[i], op);
        assert CleanupPlan(plans[i], cfg, Groups(cfg)[i], routes, rules);
        assert RuleOfGroup(InstalledRule(op.rule), cfg, Groups(cfg)[i]);
      }
    }
  }

  ghost predicate AdoptsValid(script: seq<Step>) {
    forall i :: 0 <= i < |script| && script[i].Adopt? ==> ConfigOk(script[i].next)
  }

  lemma {:induction false} ScriptAdoptsValid(opts: Options, active: Config, events: seq<Event>)
    ensures AdoptsValid(Script(opts, active, events))
    decreases |events|
  {
    if events != [] {
      ScriptAdoptsValid(opts, ActiveAfter(opts, active, events[0]), events[1..]);
    }
  }

  lemma PerformingIsLegal(opts: Options, w: World, step: Step, m: Move)
    requires ConfigOk(w.active) && Performs(opts, w, step, m) && (step.Adopt? ==> ConfigOk(step.next))
    ensures Legal(w.active, m)
  {
    match step
    case Reconcile(envs) =>
      var plans, inputs, at :| Reconciles(opts, w, envs, m, plans, inputs, at);
      ReconcileIsLegal(plans, inputs, at, w.active, envs, w.saved, w.routes, w.rules, m);
    case Adopt(c) =>
    case Cleanup =>
      var plans :| CleansUp(opts, w, m, plans);
      CleanupIsLegal(plans, w.active, w.routes, w.rules, m);
  }

  lemma ActiveStep(opts: Options, w: World, step: Step, m: Move)
    requires ConfigOk(w.active) && Performs(opts, w, step, m) && (step.Adopt? ==> ConfigOk(step.next))
    ensures ConfigOk(Next(w, m).active)
  {
  }

  /** Step i brings a valid configuration if it started on one. */
  ghost predicate StaysValid(i: nat, w: World, moves: seq<Move>)
    requires i < |moves|
  {
    ConfigOk(After(w, moves[..i]).active) ==> ConfigOk(After(w, moves[..i + 1]).active)
  }

  lemma StepStaysValid(opts: Options, i: nat, w: World, script: seq<Step>, moves: seq<Move>)
    requires Performed(opts, w, script, moves) && AdoptsValid(script) && i < |moves|
    ensures StaysValid(i, w, moves)
  {
    StepPerformed(opts, i, w, script, moves);
    if ConfigOk(After(w, moves[..i]).active) { ActiveStep(opts, After(w, moves[..i]), script[i], moves[i]); }
  }

  lemma {:induction false} ValidThroughout(n: nat, w: World, moves: seq<Move>)
    requires n <= |moves| && ConfigOk(w.active) && forall i :: 0 <= i < |moves| ==> StaysValid(i, w, moves)
    ensures ConfigOk(After(w, moves[..n]).active)
  {
    if n > 0 {
      ValidThroughout(n - 1, w, moves);
      assert StaysValid(n - 1, w, moves);
    }
  }

  /** A run that performs a script of valid reloads makes only legal moves. */
  lemma PerformedIsLegal(opts: Options, w: World, script: seq<Step>, moves: seq<Move>)
    requires Performed(opts, w, script, moves) && AdoptsValid(script) && ConfigOk(w.active)
    ensures LegalRun(w, moves)
  {
    forall i | 0 <= i < |moves| ensures StaysValid(i, w, moves) {
      StepStaysValid(opts, i, w, script, moves);
    }
    forall i | 0 <= i < |moves| ensures Legal(After(w, moves[..i]).active, moves[i]) {
      ValidThroughout(i, w, moves);
      StepIsLegal(opts, i, w, script, moves);
    }
  }

  lemma StepIsLegal(opts: Options, i: nat, w: World, script: seq<Step>, moves: seq<Move>)
    requires Performed(opts, w, script, moves) && AdoptsValid(script) && i < |moves|
    requires ConfigOk(After(w, moves[..i]).active)
    ensures Legal(After(w, moves[..i]).active, moves[i])
  {
    StepPerformed(opts, i, w, script, moves);
    PerformingIsLegal(opts, After(w, moves[..i]), script[i], moves[i]);
  }

  // ---- the event loop ----

  ghost function WorldOf(active: Config, k: Kernel, st: GroupStore): World
    reads k, st
  {
    World(active, st.saved, k.routes, k.rules, k.failures, st.failures)
  }

  lemma NextIs(w: World, m: Move, next: World)
    requires m.Work? && next.active == w.active && next.saved == m.saved
    requires next.routes == Run(w.routes, m.ops) && next.rules == RuleRun(w.rules, m.ruleOps)
    requires next.failures == w.failures + m.failures && next.storeFailures == w.storeFailures + m.storeFailures
    ensures next == Next(w, m)
  {
  }

  lemma ReloadIs(w: World, c: Config, next: World)
    requires next.active == c && next.saved == w.saved && next.routes == w.routes && next.rules == w.rules
    requires next.failures == w.failures && next.storeFailures == w.storeFailures
    ensures next == Next(w, Reload(c))
  {
  }

  lemma ReconcileMove(opts: Options, w: World, envs: nat -> Env, ok: bool, m: Move,
                      plans: seq<GroupPlan>, inputs: seq<InputGroup>, at: seq<nat>)
    requires m.Work?
    requires PlansFor(plans, inputs, at, w.active, envs, w.saved, w.routes, w.rules)
    requires StoreStep(w.saved, m.saved, |Groups(w.active)|, w.active, envs) && Applied(opts, m, plans)
    requires !ok ==> !AllPlannable(w.active, envs) || m.failures > 0
    requires ok ==> Complete(opts, m, plans)
    requires ok ==> OnlySkipped(at, |Groups(w.active)|, w.active, envs, w.saved, m.storeFailures > 0)
    requires ok && m.storeFailures == 0 ==> m.saved == Stored(w.saved, |Groups(w.active)|, w.active, envs)
    ensures Performs(opts, w, Reconcile(envs), m)
  {
    assert Reconciles(opts, w, envs, m, plans, inputs, at);
  }

  /** One triggered reconcile; an error is logged and forgotten. */
  method RunReconcile(pr: Printer, opts: Options, active: Config, envs: nat -> Env, k: Kernel, st: GroupStore,
                      ghost w: World)
    returns (ghost m: Move)
    requires Faithful(pr) && k.Valid() && k.RulesValid() && w == WorldOf(active, k, st)
    modifies k, st
    ensures k.Valid() && k.RulesValid()
    ensures Performs(opts, w, Reconcile(envs), m)
    ensures WorldOf(active, k, st) == Next(w, m)
  {
    ghost var plans, inputs, at, done, ruleDone;
    var ok;
    ok, plans, inputs, at, done, ruleDone := ReconcileOnce(pr, active, envs, k, st, opts.dryRun);
    m := Work(done, ruleDone, st.saved, k.failures - w.failures, st.failures - w.storeFailures);
    NextIs(w, m, WorldOf(active, k, st));
    ReconcileMove(opts, w, envs, ok, m, plans, inputs, at);
  }

  method RunCleanup(opts: Options, active: Config, k: Kernel, st: GroupStore, ghost w: World) returns (ghost m: Move)
    requires k.Valid() && k.RulesValid() && w == WorldOf(active, k, st)
    modifies k
    ensures k.Valid() && k.RulesValid()
    ensures Performs(opts, w, Cleanup, m)
    ensures WorldOf(active, k, st) == Next(w, m)
  {
    ghost var plans, done, ruleDone;
    var ok;
    ok, plans, done, ruleDone := CleanupOwned(active, k, opts.dryRun);
    m := Work(done, ruleDone, st.saved, k.failures - w.failures, 0);
    assert CleansUp(opts, w, m, plans);
    NextIs(w, m, WorldOf(active, k, st));
  }

  method RunReload(pr: Printer, opts: Options, next: Config, envs: nat -> Env, k: Kernel, st: GroupStore,
                   ghost w: World)
    returns (ghost m: Move)
    requires Faithful(pr) && k.Valid() && k.RulesValid() && WorldOf(next, k, st) == Next(w, Reload(next))
    modifies k, st
    ensures k.Valid() && k.RulesValid()
    ensures Performed(opts, w, [Adopt(next), Reconcile(envs)], [Reload(next), m])
    ensures WorldOf(next, k, st) == After(w, [Reload(next), m])
  {
    m := RunReconcile(pr, opts, next, envs, k, st, Next(w, Reload(next)));
    TwoMoves(Performer(opts), w, Adopt(next), Reload(next), Reconcile(envs), m);
  }

  /** One turn of the select loop. */
  method HandleEvent(pr: Printer, opts: Options, active: Config, event: Event, k: Kernel, st: GroupStore,
                     ghost w: World)
    returns (next: Config, ghost more: seq<Move>)
    requires Faithful(pr) && k.Valid() && k.RulesValid() && w == WorldOf(active, k, st)
    modifies k, st
    ensures k.Valid() && k.RulesValid()
    ensures next == ActiveAfter(opts, active, event)
    ensures Performed(opts, w, Steps(opts, active, event), more)
    ensures WorldOf(next, k, st) == After(w, more)
  {
    next, more := active, [];
    ghost var m;
    match event {
      case Tick(envs) =>
        m := RunReconcile(pr, opts, active, envs, k, st, w);
        OneMove(Performer(opts), w, Reconcile(envs), m);
        more := [m];
      case Hangup(read, envs) =>
        var loaded := LoadConfig(opts, read);
        if loaded.Some? {
          next := loaded.value;
          ReloadIs(w, next, WorldOf(next, k, st));
          m := RunReload(pr, opts, next, envs, k, st, w);
          more := [Reload(next), m];
        }
      case Terminate =>
        if active.cleanupOnShutdown {
          m := RunCleanup(opts, active, k, st, w);
          OneMove(Performer(opts), w, Cleanup, m);
          more := [m];
        }
    }
  }

  /** Whatever fails on the way, the run performs the steps its events call for, in order. */
  method RunDaemon(pr: Printer, opts: Options, cfg: Config, startup: nat -> Env, events: seq<Event>, k: Kernel,
                   st: GroupStore)
    returns (active: Config, ghost moves: seq<Move>)
    requires Faithful(pr) && k.Valid() && k.RulesValid()
    modifies k, st
    ensures k.Valid() && k.RulesValid()
    ensures Performed(opts, old(WorldOf(cfg, k, st)), [Reconcile(startup)] + Script(opts, cfg, events), moves)
    ensures After(old(WorldOf(cfg, k, st)), moves) == WorldOf(active, k, st)
  {
    ghost var w := WorldOf(cfg, k, st);
    active := cfg;
    ghost var script: seq<Step>;
    ghost var more;
    active, moves := HandleEvent(pr, opts, active, Tick(startup), k, st, w);
    script := Steps(opts, cfg, Tick(startup));
    for i := 0 to |events|
      invariant k.Valid() && k.RulesValid()
      invariant Performed(opts, w, script, moves) && After(w, moves) == WorldOf(active, k, st)
      invariant script + Script(opts, active, events[i..]) == [Reconcile(startup)] + Script(opts, cfg, events)
    {
      ghost var steps := Steps(opts, active, events[i]);
      ScriptUnfolds(opts, active, events, i, script);
      active, more := HandleEvent(pr, opts, active, events[i], k, st, After(w, moves));
      FollowsAppend(Performer(opts), w, script, moves, steps, more);
      AfterAppend(w, moves, more);
      script, moves := script + steps, moves + more;
      if events[i].Terminate? { return; }
    }
  }

  lemma ScriptUnfolds(opts: Options, active: Config, events: seq<Event>, i: nat, script: seq<Step>)
    requires i < |events|
    ensures script + Script(opts, active, events[i..]) ==
            if events[i].Terminate? then script + Steps(opts, active, events[i])
            else script + Steps(opts, active, events[i]) +
                 Script(opts, ActiveAfter(opts, active, events[i]), events[i + 1..])
  {
    assert events[i..][0] == events[i] && events[i..][1..] == events[i + 1..];
    if !events[i].Terminate? {
      assert Script(opts, active, events[i..]) ==
             Steps(opts, active, events[i]) + Script(opts, ActiveAfter(opts, active, events[i]), events[i + 1..]);
    }
  }

  // ---- what holds over every run ----

  /** Started on a valid configuration, the daemon makes only legal moves, whatever happens. */
  lemma DaemonIsLegal(opts: Options, w: World, startup: nat -> Env, events: seq<Event>, moves: seq<Move>)
    requires ConfigOk(w.active) && Performed(opts, w, [Reconcile(startup)] + Script(opts, w.active, events), moves)
    ensures LegalRun(w, moves)
  {
    ScriptAdoptsValid(opts, w.active, events);
    PerformedIsLegal(opts, w, [Reconcile(startup)] + Script(opts, w.active, events), moves);
  }

  lemma FrontIsLegal(w: World, moves: seq<Move>)
    requires LegalRun(w, moves) && moves != []
    ensures LegalRun(w, moves[..|moves| - 1])
  {
    var front := moves[..|moves| - 1];
    forall i | 0 <= i < |front| ensures Legal(After(w, front[..i]).active, front[i]) {
      assert front[..i] == moves[..i];
    }
  }

  /** Every configuration that is ever active has passed validation. */
  lemma {:induction false} ActiveIsValid(w: World, moves: seq<Move>)
    requires LegalRun(w, moves) && ConfigOk(w.active)
    ensures ConfigOk(After(w, moves).active)
  {
    if moves != [] {
      FrontIsLegal(w, moves);
      ActiveIsValid(w, moves[..|moves| - 1]);
    }
  }

  /** So whatever group of whatever active configuration is planned, a route with a gateway of the
      other family comes only from a stray via field, and only beside a gateways list. */
  lemma RunsPlanFittingGateways(w: World, moves: seq<Move>, i: nat, x: InputGroup)
    requires LegalRun(w, moves) && ConfigOk(w.active)
    requires i < |Groups(After(w, moves).active)| && x.config == Groups(After(w, moves).active)[i]
    ensures (forall r :: r in DesiredSet(After(w, moves).active.routeProtocol, x) ==> ViaFits(r.via, r.dst.fam)) <==>
            FieldsFit(x)
    ensures Unmixed(x.config.target.hop) && DefaultUnmixed(x.config.target) ==> FieldsFit(x)
  {
    var protocol := After(w, moves).active.routeProtocol;
    ActiveIsValid(w, moves);
    GatewaysFitExactly(protocol, x);
    if Unmixed(x.config.target.hop) && DefaultUnmixed(x.config.target) {
      GatewaysFit(protocol, x);
    }
  }

  /** From the n-th step on, a route outside the scopes of every active configuration stays as it is:
      what a reload gives up is never cleaned up. */
  lemma {:induction false} UnownedStays(w: World, moves: seq<Move>, n: nat, r: Route)
    requires LegalRun(w, moves) && n <= |moves|
    requires forall l :: n <= l <= |moves| ==> !InConfig(r, After(w, moves[..l]).active)
    ensures r in After(w, moves).routes <==> r in After(w, moves[..n]).routes
  {
    if n == |moves| {
      assert moves[..n] == moves;
    } else {
      var front, m := moves[..|moves| - 1], moves[|moves| - 1];
      FrontIsLegal(w, moves);
      forall l | n <= l <= |front| ensures front[..l] == moves[..l] && !InConfig(r, After(w, front[..l]).active) {
        assert front[..l] == moves[..l];
      }
      UnownedStays(w, front, n, r);
      assert Legal(After(w, moves[..|front|]).active, m);
      if m.Work? { Untouched(After(w, front).routes, m.ops, r); }
    }
  }

  /** So a route that was never in the scope of an active configuration is neither added nor removed. */
  lemma ForeignRoutesKept(w: World, moves: seq<Move>, r: Route)
    requires LegalRun(w, moves)
    requires forall n :: 0 <= n <= |moves| ==> !InConfig(r, After(w, moves[..n]).active)
    ensures r in After(w, moves).routes <==> r in w.routes
  {
    UnownedStays(w, moves, 0, r);
    assert moves[..0] == [];
  }

  lemma {:induction false} RuleUntouched(rules: set<Rule>, ops: seq<RuleOp>, r: Rule)
    requires forall i :: 0 <= i < |ops| ==> InstalledRule(ops[i].rule) != r
    ensures r in RuleRun(rules, ops) <==> r in rules
  {
    if ops != [] { RuleUntouched(rules, ops[..|ops| - 1], r); }
  }

  /** Nor is a rule that no active configuration ever owned or wanted. */
  lemma {:induction false} ForeignRulesKept(w: World, moves: seq<Move>, r: Rule)
    requires LegalRun(w, moves)
    requires forall n :: 0 <= n <= |moves| ==> !RuleInConfig(r, After(w, moves[..n]).active)
    ensures r in After(w, moves).rules <==> r in w.rules
  {
    if moves != [] {
      var front, m := moves[..|moves| - 1], moves[|moves| - 1];
      FrontIsLegal(w, moves);
      assert forall n :: 0 <= n <= |front| ==> front[..n] == moves[..n];
      ForeignRulesKept(w, front, r);
      assert Legal(After(w, moves[..|front|]).active, m);
      if m.Work? { RuleUntouched(After(w, front).rules, m.ruleOps, r); }
    }
  }

  lemma {:induction false} RuleRunInstalled(rules: set<Rule>, ops: seq<RuleOp>)
    requires RulesInstalled(rules)
    ensures RulesInstalled(RuleRun(rules, ops))
  {
    if ops != [] {
      RuleRunInstalled(rules, ops[..|ops| - 1]);
      RuleInstalledTwice(ops[|ops| - 1].rule);
    }
  }

  ghost predicate RulesInstalled(rules: set<Rule>) {
    forall r :: r in rules ==> InstalledRule(r) == r
  }

  lemma RuleInstalledTwice(r: Rule)
    ensures InstalledRule(InstalledRule(r)) == InstalledRule(r)
  {
    if IsValid(r.from) { assert Masked(Masked(r.from)) == Masked(r.from); }
  }

  lemma InstalledTwice(r: Route)
    ensures Installed(Installed(r)) == Installed(r)
  {
    if IsValid(r.dst) { assert Masked(Masked(r.dst)) == Masked(r.dst); }
  }

  lemma {:induction false} RunKeepsKernelState(routes: set<Route>, ops: seq<Op>)
    requires KernelState(routes)
    ensures KernelState(Run(routes, ops))
  {
    RunKeepsSlots(routes, ops);
    if ops != [] {
      RunKeepsKernelState(routes, ops[..|ops| - 1]);
      InstalledTwice(ops[|ops| - 1].route);
    }
  }

  /** Over any run the kernel holds one route to a slot and everything in its stored form. */
  lemma {:induction false} KernelStateKept(w: World, moves: seq<Move>)
    requires KernelState(w.routes) && RulesInstalled(w.rules)
    ensures KernelState(After(w, moves).routes) && RulesInstalled(After(w, moves).rules)
  {
    if moves != [] {
      var front, m := moves[..|moves| - 1], moves[|moves| - 1];
      KernelStateKept(w, front);
      if m.Work? {
        RunKeepsKernelState(After(w, front).routes, m.ops);
        RuleRunInstalled(After(w, front).rules, m.ruleOps);
      }
    }
  }
}
