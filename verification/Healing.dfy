/** What an error-free reconcile achieves after any run, and what it cannot undo. */
module Healing {
  import opened Config
  import opened Rtnl
  import opened RouteReconcile
  import opened RouteConvergence
  import opened SharedScopes
  import opened Planner
  import opened App
  import opened Daemon
  import RuleReconcile

  // ---- one error-free reconcile ----

  /** A valid configuration whose groups share no family of a table, over a kernel state. */
  ghost predicate Placed(w: World) {
    ConfigOk(w.active) && GroupsApart(w.active) && KernelState(w.routes)
  }

  /** The group's wishes have slots of their own, and no foreign route holds one. */
  ghost predicate Grantable(w: World, x: InputGroup) {
    Unclashing(x) && NoForeign(GoalOf(w.active.routeProtocol, x), w.routes)
  }

  /** The hypotheses under which the reconcile of all these inputs converges. */
  ghost predicate Settling(w: World, inputs: seq<InputGroup>) {
    Placed(w) && forall i :: 0 <= i < |inputs| ==> Grantable(w, inputs[i])
  }

  ghost predicate RulesSettling(w: World, inputs: seq<InputGroup>) {
    && ConfigOk(w.active) && RulesApart(w.active) && RulesInstalled(w.rules)
    && forall i :: 0 <= i < |inputs| ==> RuleKeepable(w.active, inputs[i].config)
  }

  /** A reconcile of plannable groups during which no kernel call failed. */
  ghost predicate ErrorFree(opts: Options, w: World, envs: nat -> Env, m: Move,
                            plans: seq<GroupPlan>, inputs: seq<InputGroup>, at: seq<nat>) {
    && m.Work? && !opts.dryRun && m.failures == 0 && AllPlannable(w.active, envs)
    && Reconciles(opts, w, envs, m, plans, inputs, at)
  }

  /** An error-free reconcile leaves every planned group whose wishes can be granted exactly its desired
      routes, whatever the other groups want, leaves routes no planned group owns alone, and plans every
      group whose fetch succeeded. */
  lemma ReconcileSettles(opts: Options, w: World, envs: nat -> Env, m: Move,
                         plans: seq<GroupPlan>, inputs: seq<InputGroup>, at: seq<nat>)
    requires ErrorFree(opts, w, envs, m, plans, inputs, at) && Placed(w)
    ensures forall i :: 0 <= i < |inputs| && Grantable(w, inputs[i]) ==>
              Owned(Next(w, m).routes, ScopeOf(w.active.routeProtocol, inputs[i].config)) ==
              DesiredSet(w.active.routeProtocol, inputs[i])
    ensures forall r :: !OwnedBySome(r, GoalsOf(w.active.routeProtocol, inputs)) ==>
              (r in Next(w, m).routes <==> r in w.routes)
    ensures forall i: nat :: i < |Groups(w.active)| && envs(i).fetch.Some? ==> i in at
  {
    var protocol, goals := w.active.routeProtocol, GoalsOf(w.active.routeProtocol, inputs);
    ReconcilePlannedApart(plans, inputs, at, w.active, envs, w.saved, w.routes, w.rules);
    forall i | 0 <= i < |inputs| && Grantable(w, inputs[i])
      ensures Owned(Next(w, m).routes, ScopeOf(protocol, inputs[i].config)) == DesiredSet(protocol, inputs[i])
    {
      ReconcilePlannedBeside(plans, inputs, at, w.active, envs, w.saved, w.routes, w.rules, i);
      GroupConverges(RoutePlans(plans), goals, w.routes, i);
    }
    forall r | !OwnedBySome(r, goals) ensures r in Next(w, m).routes <==> r in w.routes {
      UnownedUntouched(RoutePlans(plans), goals, w.routes, m.ops, r);
    }
  }

  /** Even a reconcile that fails midway makes before it breaks, for each group it has planned. */
  lemma ReconcileMakesBeforeBreak(opts: Options, w: World, envs: nat -> Env, m: Move,
                                  plans: seq<GroupPlan>, inputs: seq<InputGroup>, at: seq<nat>, i: nat)
    requires m.Work? && Reconciles(opts, w, envs, m, plans, inputs, at) && Placed(w) && i < |inputs|
    ensures var goal, s := GoalOf(w.active.routeProtocol, inputs[i]), Next(w, m).routes;
            && Owned(w.routes, goal.scope) * goal.desired <= s
            && (forall a, c, d :: Replaceable(plans[i].routes, goal, w.routes, a, c, d) ==>
                  CoveredIn(s, RegionOf(goal.scope), a))
  {
    var goals := GoalsOf(w.active.routeProtocol, inputs);
    ReconcilePlannedApart(plans, inputs, at, w.active, envs, w.saved, w.routes, w.rules);
    assert InputAt(inputs[i], at[i], w.active, envs, w.saved, w.routes, w.rules);
    InputInstalled(inputs[i], at[i], w.active, envs, w.saved, w.routes, w.rules);
    assert goals[i] == GoalOf(w.active.routeProtocol, inputs[i]) && RoutePlans(plans)[i] == plans[i].routes;
    MakeBeforeBreak(RoutePlans(plans), goals, w.routes, m.ops, i);
  }

  /** With groups that may share tables, each gets exactly its desired routes exactly when any two
      agree on what both own. */
  lemma ReconcileSettlesExactly(opts: Options, w: World, envs: nat -> Env, m: Move,
                                plans: seq<GroupPlan>, inputs: seq<InputGroup>, at: seq<nat>)
    requires ErrorFree(opts, w, envs, m, plans, inputs, at) && ConfigOk(w.active) && KernelState(w.routes)
    requires forall i :: 0 <= i < |inputs| ==> Grantable(w, inputs[i])
    ensures var goals := GoalsOf(w.active.routeProtocol, inputs);
            (forall i :: 0 <= i < |goals| ==> Owned(Next(w, m).routes, goals[i].scope) == goals[i].desired) <==>
            AllAgree(goals)
  {
    ReconcilePlannedTogether(plans, inputs, at, w.active, envs, w.saved, w.routes, w.rules);
    var goals := GoalsOf(w.active.routeProtocol, inputs);
    EveryGoalMetExactly(RoutePlans(plans), goals, w.routes, w.active.routeProtocol);
  }

  /** The same for rules. */
  lemma RulesSettle(opts: Options, w: World, envs: nat -> Env, m: Move,
                    plans: seq<GroupPlan>, inputs: seq<InputGroup>, at: seq<nat>)
    requires ErrorFree(opts, w, envs, m, plans, inputs, at) && RulesSettling(w, inputs)
    ensures forall i :: 0 <= i < |inputs| ==>
              RuleReconcile.OwnedRules(Next(w, m).rules, RuleScopeOf(w.active, inputs[i].config)) ==
              RuleGoalOf(w.active, inputs[i].config).desired
    ensures forall r :: !RuleReconcile.OwnedRule(r, RuleGoalsOf(w.active, inputs)) ==>
              (r in Next(w, m).rules <==> r in w.rules)
  {
    ReconcileRulesPlanned(plans, inputs, at, w.active, envs, w.saved, w.routes, w.rules);
    var goals := RuleGoalsOf(w.active, inputs);
    RuleReconcile.RulesConverge(RulePlans(plans), goals, w.rules);
    forall r | !RuleReconcile.OwnedRule(r, goals) ensures r in Next(w, m).rules <==> r in w.rules {
      forall i | 0 <= i < |goals| ensures r !in goals[i].desired {
        assert RuleReconcile.RuleGoalOk(goals[i]);
      }
    }
    forall i | 0 <= i < |inputs|
      ensures RuleReconcile.OwnedRules(Next(w, m).rules, RuleScopeOf(w.active, inputs[i].config)) ==
              RuleGoalOf(w.active, inputs[i].config).desired
    {
      assert goals[i] == RuleGoalOf(w.active, inputs[i].config);
    }
  }

  /** One group with its table and priority to itself, whatever the other groups' rules are like. */
  lemma GroupRulesSettle(opts: Options, w: World, envs: nat -> Env, m: Move,
                         plans: seq<GroupPlan>, inputs: seq<InputGroup>, at: seq<nat>, i: nat)
    requires ErrorFree(opts, w, envs, m, plans, inputs, at) && ConfigOk(w.active) && RulesInstalled(w.rules)
    requires i < |inputs| && at[i] < |Groups(w.active)| && RulePlaceOwn(w.active, at[i])
    requires RuleKeepable(w.active, inputs[i].config)
    ensures RuleReconcile.OwnedRules(Next(w, m).rules, RuleScopeOf(w.active, inputs[i].config)) ==
            RuleGoalOf(w.active, inputs[i].config).desired
  {
    ReconcileRulesBeside(plans, inputs, at, w.active, envs, w.saved, w.routes, w.rules, i);
    assert InputAt(inputs[i], at[i], w.active, envs, w.saved, w.routes, w.rules);
    InputRuleGoal(plans[i], inputs[i], at[i], w.active, envs, w.saved, w.routes, w.rules);
    RuleReconcile.GroupRulesConverge(RulePlans(plans), RuleGoalsOf(w.active, inputs), w.rules, i);
  }

  /** So the kernel's rules at the group's table and priority send there exactly the packets its own mark,
      mask and source ask for, and none when the rule is disabled. */
  lemma GroupRulesSelect(opts: Options, w: World, envs: nat -> Env, m: Move, plans: seq<GroupPlan>,
                         inputs: seq<InputGroup>, at: seq<nat>, i: nat, mask: RuleReconcile.Masking,
                         pkt: RuleReconcile.Packet)
    requires ErrorFree(opts, w, envs, m, plans, inputs, at) && ConfigOk(w.active) && RulesInstalled(w.rules)
    requires i < |inputs| && at[i] < |Groups(w.active)| && RulePlaceOwn(w.active, at[i])
    requires RuleKeepable(w.active, inputs[i].config)
    requires var base, p := w.active.rulePriorityBase, inputs[i].config.rule.priority;
             base <= p < base + w.active.rulePriorityStep * 1000
    ensures var c := Groups(w.active)[at[i]];
            RuleReconcile.Sent(Next(w, m).rules, c.target.table, c.rule.priority, mask, pkt) <==>
            RuleReconcile.Asks(c, mask, pkt)
  {
    var c := inputs[i].config;
    assert InputAt(inputs[i], at[i], w.active, envs, w.saved, w.routes, w.rules);
    assert c == Groups(w.active)[at[i]] && GroupOk(c);
    GroupRulesSettle(opts, w, envs, m, plans, inputs, at, i);
    RuleReconcile.SentByOwned(Next(w, m).rules, RuleScopeOf(w.active, c), mask, pkt);
    RuleReconcile.DesiredRuleSends(c, mask, pkt);
    if !c.rule.enabled { assert DesiredRules(c) == []; }
  }

  // ---- after a run, in terms of goals ----

  /** What no goal owns is after the run as it was before. */
  ghost predicate OutsideKept(w: World, moves: seq<Move>, goals: seq<Goal>) {
    forall r :: !OwnedBySome(r, goals) ==> (r in w.routes <==> r in After(w, moves).routes)
  }

  /** Some configuration of the run owned the route. */
  ghost predicate OnceOwned(w: World, moves: seq<Move>, r: Route) {
    exists n :: 0 <= n <= |moves| && InConfig(r, After(w, moves[..n]).active)
  }

  /** After any run of partial reconciles, cleanups and reloads, an error-free reconcile ends in the
      state an uninterrupted one would have reached from the start exactly when the run kept what no
      goal owns. Where the two differ, a configuration of the run owned the route and no goal does. */
  lemma SelfHealingExactly(w: World, moves: seq<Move>, goals: seq<Goal>, first: seq<RoutePlan>, later: seq<RoutePlan>)
    requires LegalRun(w, moves) && Planned(first, goals, w.routes) && Planned(later, goals, After(w, moves).routes)
    ensures Run(After(w, moves).routes, Ops(later)) == Run(w.routes, Ops(first)) <==> OutsideKept(w, moves, goals)
    ensures forall r :: !(r in Run(After(w, moves).routes, Ops(later)) <==> r in Run(w.routes, Ops(first))) ==>
              !OwnedBySome(r, goals) && OnceOwned(w, moves, r)
  {
    var now := After(w, moves).routes;
    ConfluentExactly(first, w.routes, later, now, goals);
    Converges(first, goals, w.routes);
    Converges(later, goals, now);
    forall r | !(r in Run(now, Ops(later)) <==> r in Run(w.routes, Ops(first)))
      ensures !OwnedBySome(r, goals) && OnceOwned(w, moves, r)
    {
      if !OnceOwned(w, moves, r) { ForeignRoutesKept(w, moves, r); }
    }
  }

  /** In particular when every configuration of the run stays inside the goals' scopes. */
  lemma SelfHealing(w: World, moves: seq<Move>, goals: seq<Goal>, first: seq<RoutePlan>, later: seq<RoutePlan>)
    requires LegalRun(w, moves) && RulesInstalled(w.rules) && Planned(first, goals, w.routes)
    requires forall r :: OnceOwned(w, moves, r) ==> OwnedBySome(r, goals)
    requires |later| == |goals|
    requires forall i :: 0 <= i < |goals| ==> IsPlan(later[i], goals[i], After(w, moves).routes)
    ensures Planned(later, goals, After(w, moves).routes)
    ensures Run(After(w, moves).routes, Ops(later)) == Run(w.routes, Ops(first))
  {
    var now := After(w, moves).routes;
    KernelStateKept(w, moves);
    forall r | !OwnedBySome(r, goals) ensures r in w.routes <==> r in now {
      ForeignRoutesKept(w, moves, r);
    }
    forall i | 0 <= i < |goals| ensures Consistent(goals[i]) && NoForeign(goals[i], now) {
      assert Consistent(goals[i]) && NoForeign(goals[i], w.routes);
      StillNoForeign(goals, i, w.routes, now);
    }
    SelfHealingExactly(w, moves, goals, first, later);
  }

  lemma StillNoForeign(goals: seq<Goal>, i: nat, before: set<Route>, now: set<Route>)
    requires i < |goals| && Consistent(goals[i]) && NoForeign(goals[i], before)
    requires forall j, l :: 0 <= j < l < |goals| ==> Apart(goals[j].scope, goals[l].scope)
    requires forall r :: !OwnedBySome(r, goals) ==> (r in before <==> r in now)
    ensures NoForeign(goals[i], now)
  {
    forall r, f | r in goals[i].desired && f in now && SlotOf(f) == SlotOf(r) ensures InScope(f, goals[i].scope) {
      assert InScope(r, goals[i].scope);
      if j :| 0 <= j < |goals| && InScope(f, goals[j].scope) {
        assert !Apart(goals[j].scope, goals[i].scope);
        assert j == i;
      }
    }
  }

  /** No configuration of the run used the scope's table and families under another protocol. */
  ghost predicate StaysInside(w: World, moves: seq<Move>, sc: Scope) {
    forall r :: OnceOwned(w, moves, r) && Within(r, RegionOf(sc)) ==> InScope(r, sc)
  }

  /** A goal kept across the run, whatever the reloads did to other groups: its scope ends exactly as
      desired, and its table's families as an uninterrupted reconcile would leave them, provided that
      no configuration of the run used them with another protocol. */
  lemma GroupHeals(w: World, moves: seq<Move>, goals: seq<Goal>, first: seq<RoutePlan>, i: nat,
                   goals': seq<Goal>, later: seq<RoutePlan>, j: nat)
    requires LegalRun(w, moves) && PlannedBeside(first, goals, w.routes, i)
    requires PlannedBeside(later, goals', After(w, moves).routes, j) && goals[i] == goals'[j]
    ensures Owned(Run(After(w, moves).routes, Ops(later)), goals[i].scope) == goals[i].desired
    ensures StaysInside(w, moves, goals[i].scope) ==>
            At(Run(After(w, moves).routes, Ops(later)), RegionOf(goals[i].scope)) ==
            At(Run(w.routes, Ops(first)), RegionOf(goals[i].scope))
  {
    var now, sc := After(w, moves).routes, goals[i].scope;
    GroupConverges(later, goals', now, j);
    GroupConfluentExactly(first, goals, w.routes, i, later, goals', now, j);
    if StaysInside(w, moves, sc) {
      forall r | Within(r, RegionOf(sc)) && !InScope(r, sc) ensures r in w.routes <==> r in now {
        ForeignRoutesKept(w, moves, r);
      }
    }
  }

  // ---- after a run, in terms of reconciles ----

  /** Error-free reconciles before and after a run, for the same goals, end with the same routes exactly
      when the run kept what no goal owns. */
  lemma RunHealsExactly(opts: Options, w: World, moves: seq<Move>, envs: nat -> Env, m: Move,
                        plans: seq<GroupPlan>, inputs: seq<InputGroup>, at: seq<nat>,
                        envs': nat -> Env, m': Move, plans': seq<GroupPlan>, inputs': seq<InputGroup>, at': seq<nat>)
    requires LegalRun(w, moves) && Settling(w, inputs) && ErrorFree(opts, w, envs, m, plans, inputs, at)
    requires Settling(After(w, moves), inputs') && ErrorFree(opts, After(w, moves), envs', m', plans', inputs', at')
    requires GoalsOf(After(w, moves).active.routeProtocol, inputs') == GoalsOf(w.active.routeProtocol, inputs)
    ensures Next(After(w, moves), m').routes == Next(w, m).routes <==>
            OutsideKept(w, moves, GoalsOf(w.active.routeProtocol, inputs))
  {
    var v := After(w, moves);
    ReconcilePlanned(plans, inputs, at, w.active, envs, w.saved, w.routes, w.rules);
    ReconcilePlanned(plans', inputs', at', v.active, envs', v.saved, v.routes, v.rules);
    SelfHealingExactly(w, moves, GoalsOf(w.active.routeProtocol, inputs), RoutePlans(plans), RoutePlans(plans'));
  }

  /** One group kept across reloads that may have added, dropped or changed any other one. */
  lemma GroupRunHeals(opts: Options, w: World, moves: seq<Move>, envs: nat -> Env, m: Move,
                      plans: seq<GroupPlan>, inputs: seq<InputGroup>, at: seq<nat>, i: nat,
                      envs': nat -> Env, m': Move, plans': seq<GroupPlan>, inputs': seq<InputGroup>,
                      at': seq<nat>, j: nat)
    requires LegalRun(w, moves) && Placed(w) && ErrorFree(opts, w, envs, m, plans, inputs, at)
    requires Placed(After(w, moves)) && ErrorFree(opts, After(w, moves), envs', m', plans', inputs', at')
    requires i < |inputs| && Grantable(w, inputs[i]) && j < |inputs'| && Grantable(After(w, moves), inputs'[j])
    requires GoalOf(w.active.routeProtocol, inputs[i]) == GoalOf(After(w, moves).active.routeProtocol, inputs'[j])
    requires StaysInside(w, moves, ScopeOf(w.active.routeProtocol, inputs[i].config))
    ensures var rg := RegionOf(ScopeOf(w.active.routeProtocol, inputs[i].config));
            At(Next(After(w, moves), m').routes, rg) == At(Next(w, m).routes, rg)
  {
    var v := After(w, moves);
    var goals, goals' := GoalsOf(w.active.routeProtocol, inputs), GoalsOf(v.active.routeProtocol, inputs');
    ReconcilePlannedBeside(plans, inputs, at, w.active, envs, w.saved, w.routes, w.rules, i);
    ReconcilePlannedBeside(plans', inputs', at', v.active, envs', v.saved, v.routes, v.rules, j);
    assert goals[i] == goals'[j];
    GroupHeals(w, moves, goals, RoutePlans(plans), i, goals', RoutePlans(plans'), j);
  }

  /** And the same rules, when the run kept the rules no goal owns. */
  lemma RulesHealExactly(opts: Options, w: World, moves: seq<Move>, envs: nat -> Env, m: Move,
                         plans: seq<GroupPlan>, inputs: seq<InputGroup>, at: seq<nat>,
                         envs': nat -> Env, m': Move, plans': seq<GroupPlan>, inputs': seq<InputGroup>, at': seq<nat>)
    requires LegalRun(w, moves) && RulesSettling(w, inputs) && ErrorFree(opts, w, envs, m, plans, inputs, at)
    requires RulesSettling(After(w, moves), inputs') &&
             ErrorFree(opts, After(w, moves), envs', m', plans', inputs', at')
    requires RuleGoalsOf(After(w, moves).active, inputs') == RuleGoalsOf(w.active, inputs)
    ensures Next(After(w, moves), m').rules == Next(w, m).rules <==>
            forall r :: !RuleReconcile.OwnedRule(r, RuleGoalsOf(w.active, inputs)) ==>
              (r in w.rules <==> r in After(w, moves).rules)
  {
    var v := After(w, moves);
    ReconcileRulesPlanned(plans, inputs, at, w.active, envs, w.saved, w.routes, w.rules);
    ReconcileRulesPlanned(plans', inputs', at', v.active, envs', v.saved, v.routes, v.rules);
    RuleReconcile.RulesConfluentExactly(RulePlans(plans), w.rules, RulePlans(plans'), v.rules,
                                        RuleGoalsOf(w.active, inputs));
  }
}
