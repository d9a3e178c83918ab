/** What routes.Apply leaves when groups own some of the same routes. */
module SharedScopes {
  import opened Rtnl
  import opened RouteReconcile
  import opened RouteConvergence

  /** Plans computed against one kernel state, for groups with any scopes. */
  ghost predicate PlannedTogether(plans: seq<RoutePlan>, goals: seq<Goal>, routes: set<Route>) {
    && |plans| == |goals| && KernelState(routes)
    && forall i :: 0 <= i < |goals| ==>
         Consistent(goals[i]) && NoForeign(goals[i], routes) && IsPlan(plans[i], goals[i], routes)
  }

  /** All that the groups want fits side by side. */
  ghost predicate Compatible(goals: seq<Goal>) {
    forall r, f :: DesiredBySome(r, goals) && DesiredBySome(f, goals) && SlotOf(r) == SlotOf(f) ==> r == f
  }

  /** Whatever of the starting routes holds a slot that is added to has been deleted by then. */
  ghost predicate FreedInTime(ops: seq<Op>, routes: set<Route>) {
    forall k, f :: 0 <= k < |ops| && ops[k].Add? && f in routes && SlotOf(f) == SlotOf(ops[k].route) ==>
      Delete(f) in ops[..k]
  }

  lemma FreedAppend(a: seq<Op>, b: seq<Op>, routes: set<Route>)
    requires FreedInTime(a, routes)
    requires forall k, f :: 0 <= k < |b| && b[k].Add? && f in routes && SlotOf(f) == SlotOf(b[k].route) ==>
               Delete(f) in b[..k]
    ensures FreedInTime(a + b, routes)
  {
    forall k, f | 0 <= k < |a + b| && (a + b)[k].Add? && f in routes && SlotOf(f) == SlotOf((a + b)[k].route)
      ensures Delete(f) in (a + b)[..k]
    {
      if k < |a| {
        assert (a + b)[..k] == a[..k];
      } else {
        assert (a + b)[..k] == a + b[..k - |a|];
      }
    }
  }

  lemma GroupFreed(gp: RoutePlan, goal: Goal, routes: set<Route>)
    requires KernelState(routes) && Consistent(goal) && NoForeign(goal, routes) && IsPlan(gp, goal, routes)
    ensures FreedInTime(Deletes(Conflicting(gp)) + Adds(gp.add), routes)
  {
    var ds, ops := Deletes(Conflicting(gp)), Deletes(Conflicting(gp)) + Adds(gp.add);
    RemovalSplit(gp);
    forall k, f | 0 <= k < |ops| && ops[k].Add? && f in routes && SlotOf(f) == SlotOf(ops[k].route)
      ensures Delete(f) in ops[..k]
    {
      var r := gp.add[k - |ds|];
      assert r in SetOf(gp.add);
      assert f in SetOf(gp.remove);
      assert f in Conflicting(gp);
      ListMembers(Conflicting(gp), Delete(f));
      assert ds <= ops[..k];
    }
  }

  lemma {:induction false} FirstPhaseFreed(plans: seq<RoutePlan>, goals: seq<Goal>, routes: set<Route>)
    requires PlannedTogether(plans, goals, routes)
    ensures FreedInTime(FirstPhase(plans), routes)
  {
    if plans != [] {
      var n := |plans| - 1;
      var gp := plans[n];
      assert IsPlan(gp, goals[n], routes) && Consistent(goals[n]) && NoForeign(goals[n], routes);
      FirstPhaseFreed(plans[..n], goals[..n], routes);
      GroupFreed(gp, goals[n], routes);
      FreedAppend(FirstPhase(plans[..n]), Deletes(Conflicting(gp)) + Adds(gp.add), routes);
      Regroup(FirstPhase(plans[..n]), Deletes(Conflicting(gp)), Adds(gp.add));
    }
  }

  lemma {:induction false} SecondPhaseDeletes(plans: seq<RoutePlan>)
    ensures forall k :: 0 <= k < |SecondPhase(plans)| ==> SecondPhase(plans)[k].Delete?
  {
    if plans != [] { SecondPhaseDeletes(plans[..|plans| - 1]); }
  }

  /** Calls that delete only what is there and add only what is not, each into a slot freed in time. */
  ghost predicate CleanCalls(ops: seq<Op>, routes: set<Route>) {
    && (forall op :: op in ops ==> Installed(op.route) == op.route && (op.Delete? <==> op.route in routes))
    && (forall a, b :: a in ops && b in ops && a.Add? && b.Add? && SlotOf(a.route) == SlotOf(b.route) ==> a == b)
  }

  lemma {:induction false} RunClean(routes: set<Route>, ops: seq<Op>)
    requires FreedInTime(ops, routes) && CleanCalls(ops, routes)
    ensures forall r :: r in Run(routes, ops) <==> (r in routes && Delete(r) !in ops) || Add(r) in ops
  {
    if ops != [] {
      var n := |ops| - 1;
      var front, op := ops[..n], ops[n];
      assert ops == front + [op];
      forall k | 0 <= k < n ensures ops[..k] == front[..k] {
      }
      RunClean(routes, front);
      var s := Run(routes, front);
      assert Run(routes, ops) == Step(s, op);
      if op.Add? {
        forall f | f in routes && SlotOf(f) == SlotOf(op.route) ensures f !in s {
          assert Delete(f) in ops[..n];
        }
      }
    }
  }

  /** An error-free Apply deletes whatever some group owns and does not want, keeps the rest, and adds
      whatever any group wants: each group undoes what only the others want. */
  lemma Outcome(plans: seq<RoutePlan>, goals: seq<Goal>, routes: set<Route>)
    requires PlannedTogether(plans, goals, routes) && Compatible(goals)
    ensures forall r :: r in Run(routes, Ops(plans)) <==>
              if r in routes then !UnwantedBySome(r, goals) else DesiredBySome(r, goals)
  {
    var ops := Ops(plans);
    forall op ensures op in ops <==>
        if op.Add? then op.route !in routes && DesiredBySome(op.route, goals)
        else op.route in routes && UnwantedBySome(op.route, goals)
    {
      CallsAre(plans, goals, routes, op);
    }
    FirstPhaseFreed(plans, goals, routes);
    SecondPhaseDeletes(plans);
    FreedAppend(FirstPhase(plans), SecondPhase(plans), routes);
    forall op | op in ops ensures Installed(op.route) == op.route {
      if i :| 0 <= i < |goals| && op.route in goals[i].desired { assert Consistent(goals[i]); }
    }
    RunClean(routes, ops);
    forall r ensures Add(r) in ops <==> r !in routes && DesiredBySome(r, goals) {
    }
    forall r ensures Delete(r) in ops <==> r in routes && UnwantedBySome(r, goals) {
    }
  }

  lemma CallsAre(plans: seq<RoutePlan>, goals: seq<Goal>, routes: set<Route>, op: Op)
    requires PlannedTogether(plans, goals, routes)
    ensures op in Ops(plans) <==>
            if op.Add? then op.route !in routes && DesiredBySome(op.route, goals)
            else op.route in routes && UnwantedBySome(op.route, goals)
  {
    OpsMembers(plans, op);
    forall i | 0 <= i < |plans|
      ensures Mentions(plans[i], op) <==>
              if op.Add? then op.route !in routes && op.route in goals[i].desired
              else op.route in routes && InScope(op.route, goals[i].scope) && op.route !in goals[i].desired
    {
      var gp := plans[i];
      assert IsPlan(gp, goals[i], routes) && Consistent(goals[i]);
      assert op.route in gp.add <==> op.route in SetOf(gp.add);
      assert op.route in gp.remove <==> op.route in SetOf(gp.remove);
    }
  }

  /** The two want the same of what both own. */
  ghost predicate Agree(one: Goal, two: Goal) {
    forall r :: r in one.desired && InScope(r, two.scope) <==> r in two.desired && InScope(r, one.scope)
  }

  ghost predicate AllAgree(goals: seq<Goal>) {
    forall i, j :: 0 <= i < |goals| && 0 <= j < |goals| ==> Agree(goals[i], goals[j])
  }

  /** Every group gets exactly what it wants, from whatever state, exactly when any two agree on what
      both own. */
  lemma EveryGoalMetExactly(plans: seq<RoutePlan>, goals: seq<Goal>, routes: set<Route>, protocol: int)
    requires PlannedTogether(plans, goals, routes)
    requires forall i :: 0 <= i < |goals| ==> goals[i].scope.protocol == protocol
    ensures (forall i :: 0 <= i < |goals| ==> Owned(Run(routes, Ops(plans)), goals[i].scope) == goals[i].desired) <==>
            AllAgree(goals)
  {
    var s := Run(routes, Ops(plans));
    if AllAgree(goals) {
      AgreeingIsCompatible(goals, protocol);
      Outcome(plans, goals, routes);
      forall i | 0 <= i < |goals| ensures Owned(s, goals[i].scope) == goals[i].desired {
        forall r ensures r in Owned(s, goals[i].scope) <==> r in goals[i].desired {
          assert Consistent(goals[i]);
          if InScope(r, goals[i].scope) { WantedAlike(goals, i, r); }
        }
      }
    }
    if forall i :: 0 <= i < |goals| ==> Owned(s, goals[i].scope) == goals[i].desired {
      MetGoalsAgree(goals, s);
    }
  }

  lemma MetGoalsAgree(goals: seq<Goal>, s: set<Route>)
    requires forall i :: 0 <= i < |goals| ==> Owned(s, goals[i].scope) == goals[i].desired
    ensures AllAgree(goals)
  {
    forall i, j | 0 <= i < |goals| && 0 <= j < |goals| ensures Agree(goals[i], goals[j]) {
      assert Owned(s, goals[i].scope) == goals[i].desired && Owned(s, goals[j].scope) == goals[j].desired;
    }
  }

  lemma AgreeingIsCompatible(goals: seq<Goal>, protocol: int)
    requires AllAgree(goals)
    requires forall i :: 0 <= i < |goals| ==> Consistent(goals[i]) && goals[i].scope.protocol == protocol
    ensures Compatible(goals)
  {
    forall r, f | DesiredBySome(r, goals) && DesiredBySome(f, goals) && SlotOf(r) == SlotOf(f) ensures r == f {
      var i :| 0 <= i < |goals| && r in goals[i].desired;
      var j :| 0 <= j < |goals| && f in goals[j].desired;
      assert Consistent(goals[i]) && Consistent(goals[j]) && Agree(goals[i], goals[j]);
      assert InScope(r, goals[j].scope);
    }
  }

  lemma WantedAlike(goals: seq<Goal>, i: nat, r: Route)
    requires AllAgree(goals) && i < |goals| && InScope(r, goals[i].scope)
    requires forall j :: 0 <= j < |goals| ==> Consistent(goals[j])
    ensures DesiredBySome(r, goals) <==> r in goals[i].desired
    ensures UnwantedBySome(r, goals) <==> r !in goals[i].desired
  {
    forall j | 0 <= j < |goals|
      ensures r in goals[j].desired ==> r in goals[i].desired
      ensures InScope(r, goals[j].scope) && r in goals[i].desired ==> r in goals[j].desired
    {
      assert Agree(goals[i], goals[j]) && Consistent(goals[j]);
    }
  }

  /** Groups that share no family of a table agree, groups with one scope only if they want the same. */
  lemma AgreeMeaning(one: Goal, two: Goal)
    requires Consistent(one) && Consistent(two)
    ensures Apart(one.scope, two.scope) ==> Agree(one, two)
    ensures one.scope == two.scope ==> (Agree(one, two) <==> one.desired == two.desired)
  {
    if one.scope == two.scope && Agree(one, two) {
      assert forall r :: r in one.desired <==> r in two.desired;
    }
  }

  /** Two groups with one scope and different wishes undo each other for ever: from an empty scope the
      first reconcile installs what either wants, the next deletes all that only one wants, the one
      after brings it back. */
  lemma SharedScopeFlaps(plans: seq<RoutePlan>, one: Goal, two: Goal, routes: set<Route>)
    requires PlannedTogether(plans, [one, two], routes) && Compatible([one, two]) && one.scope == two.scope
    ensures var was, now := Owned(routes, one.scope), Owned(Run(routes, Ops(plans)), one.scope);
            && (was == {} ==> now == one.desired + two.desired)
            && (was == one.desired + two.desired ==> now == one.desired * two.desired)
            && (was == one.desired * two.desired ==> now == one.desired + two.desired)
  {
    var goals, s := [one, two], Run(routes, Ops(plans));
    Outcome(plans, goals, routes);
    assert goals[0] == one && goals[1] == two && Consistent(one) && Consistent(two);
    forall r | InScope(r, one.scope)
      ensures r in s <==> if r in routes then r in one.desired * two.desired else r in one.desired + two.desired
    {
      assert DesiredBySome(r, goals) <==> r in goals[0].desired || r in goals[1].desired;
      assert UnwantedBySome(r, goals) <==> r !in goals[0].desired || r !in goals[1].desired;
    }
    forall r ensures r in Owned(s, one.scope) <==>
        InScope(r, one.scope) &&
        if r in Owned(routes, one.scope) then r in one.desired * two.desired else r in one.desired + two.desired
    {
    }
  }

  lemma TwoPlansOps(plans: seq<RoutePlan>)
    requires |plans| == 2
    ensures Ops(plans) == Deletes(Conflicting(plans[0])) + Adds(plans[0].add) +
                          (Deletes(Conflicting(plans[1])) + Adds(plans[1].add) +
                           Deletes(Remaining(plans[0]) + Remaining(plans[1])))
  {
    var front, p, q := plans[..1], plans[0], plans[1];
    assert front[..0] == [] && front[0] == p;
    assert FirstPhase(front) == [] + Deletes(Conflicting(p)) + Adds(p.add);
    assert SecondPhase(front) == [] + Deletes(Remaining(p));
    assert Deletes(Remaining(p) + Remaining(q)) == Deletes(Remaining(p)) + Deletes(Remaining(q));
    Regrouped(Deletes(Conflicting(p)), Adds(p.add), Deletes(Conflicting(q)), Adds(q.add),
              Deletes(Remaining(p)), Deletes(Remaining(q)));
  }

  lemma Regrouped(a: seq<Op>, b: seq<Op>, c: seq<Op>, d: seq<Op>, e: seq<Op>, f: seq<Op>)
    ensures [] + a + b + c + d + ([] + e + f) == a + b + (c + d + (e + f))
  {
  }

  /** An addition to a free slot lands, when nothing else in the list wants the slot. */
  lemma {:induction false} AdditionLands(routes: set<Route>, rs: seq<Route>, d: Route)
    requires d in rs && Installed(d) == d && !Taken(routes, SlotOf(d))
    requires forall r :: r in rs && SlotOf(Installed(r)) == SlotOf(d) ==> r == d
    ensures d in Run(routes, Adds(rs))
  {
    var front, r := rs[..|rs| - 1], rs[|rs| - 1];
    assert rs == front + [r] && Adds(rs)[..|rs| - 1] == Adds(front);
    if d in front {
      AdditionLands(routes, front, d);
    } else {
      SlotStaysFree(routes, front, SlotOf(d));
    }
  }

  lemma {:induction false} SlotStaysFree(routes: set<Route>, rs: seq<Route>, slot: Slot)
    requires !Taken(routes, slot) && forall r :: r in rs ==> SlotOf(Installed(r)) != slot
    ensures !Taken(Run(routes, Adds(rs)), slot)
  {
    if rs != [] {
      assert rs == rs[..|rs| - 1] + [rs[|rs| - 1]] && Adds(rs)[..|rs| - 1] == Adds(rs[..|rs| - 1]);
      SlotStaysFree(routes, rs[..|rs| - 1], slot);
    }
  }

  /** a and b compete for one slot that both groups own. */
  ghost predicate Competing(one: Goal, two: Goal, a: Route, b: Route) {
    && a in one.desired && b in two.desired && a != b && SlotOf(a) == SlotOf(b)
    && InScope(a, two.scope) && InScope(b, one.scope)
  }

  /** Two groups that want different routes in one slot take turns: the addition of the second is
      ignored while the first one's stands, and next time its removal of that route comes first. */
  lemma CompetitorsAlternate(plans: seq<RoutePlan>, one: Goal, two: Goal, routes: set<Route>, a: Route, b: Route)
    requires PlannedTogether(plans, [one, two], routes) && Competing(one, two, a, b)
    ensures var s := Run(routes, Ops(plans)); if a in routes then b in s && a !in s else a in s && b !in s
  {
    var goals, p, q, s := [one, two], plans[0], plans[1], Run(routes, Ops(plans));
    assert goals[0] == one && goals[1] == two && IsPlan(p, one, routes) && IsPlan(q, two, routes);
    var rest := Deletes(Conflicting(q)) + Adds(q.add) + Deletes(Remaining(p) + Remaining(q));
    var mid := Run(routes, Deletes(Conflicting(p)) + Adds(p.add));
    TwoPlansOps(plans);
    RunAppend(routes, Deletes(Conflicting(p)) + Adds(p.add), rest);
    RunKeepsSlots(routes, Ops(plans));
    RunKeepsSlots(routes, Deletes(Conflicting(p)) + Adds(p.add));
    FirstHasIts(p, one, routes, a);
    if a in routes {
      SecondReplaces(plans, one, two, routes, mid, a, b);
    } else {
      forall op | op in rest && op.Delete? ensures Installed(op.route) != a {
        RestDeletesOld(plans, one, two, routes, op);
      }
      UndeletedStays(mid, rest, a);
    }
  }

  lemma FirstHasIts(gp: RoutePlan, goal: Goal, routes: set<Route>, a: Route)
    requires KernelState(routes) && Consistent(goal) && NoForeign(goal, routes) && IsPlan(gp, goal, routes)
    requires a in goal.desired
    ensures a in Run(routes, Deletes(Conflicting(gp)) + Adds(gp.add))
  {
    PlanInstalled(gp, goal, routes);
    SlotsFreed(gp, goal, routes);
    RunThree(routes, Conflicting(gp), gp.add, []);
    AllAdded(gp, goal, routes, []);
    assert Deletes([]) == [] && SetOf([]) == {};
    assert Deletes(Conflicting(gp)) + Adds(gp.add) + [] == Deletes(Conflicting(gp)) + Adds(gp.add);
  }

  lemma RestDeletesOld(plans: seq<RoutePlan>, one: Goal, two: Goal, routes: set<Route>, op: Op)
    requires |plans| == 2 && IsPlan(plans[0], one, routes) && IsPlan(plans[1], two, routes) && AllInstalled(routes)
    requires op in Deletes(Conflicting(plans[1])) + Adds(plans[1].add) +
                   Deletes(Remaining(plans[0]) + Remaining(plans[1])) && op.Delete?
    ensures op.route in routes && Installed(op.route) == op.route
  {
    CallsOf(Conflicting(plans[1]), plans[1].add, Remaining(plans[0]) + Remaining(plans[1]));
    RemovalSplit(plans[0]);
    RemovalSplit(plans[1]);
    assert op.route in plans[0].remove || op.route in plans[1].remove;
    assert op.route in SetOf(plans[0].remove) || op.route in SetOf(plans[1].remove);
  }

  lemma SecondReplaces(plans: seq<RoutePlan>, one: Goal, two: Goal, routes: set<Route>, mid: set<Route>,
                       a: Route, b: Route)
    requires PlannedTogether(plans, [one, two], routes) && Competing(one, two, a, b)
    requires a in routes && a in mid && SlotsDistinct(mid)
    ensures b in Run(mid, Deletes(Conflicting(plans[1])) + Adds(plans[1].add) +
                          Deletes(Remaining(plans[0]) + Remaining(plans[1])))
  {
    var goals, q := [one, two], plans[1];
    assert goals[0] == one && goals[1] == two && Consistent(two);
    assert IsPlan(q, two, routes) && IsPlan(plans[0], one, routes);
    var ds, adds, late := Deletes(Conflicting(q)), Adds(q.add), Deletes(Remaining(plans[0]) + Remaining(q));
    RemovalSplit(q);
    PlanInstalled(q, two, routes);
    assert b !in routes && b in SetOf(q.add) && a in SetOf(q.remove) && a in Conflicting(q);
    RunDeletes(mid, Conflicting(q));
    assert !Taken(Run(mid, ds), SlotOf(b));
    forall r | r in q.add && SlotOf(Installed(r)) == SlotOf(b) ensures r == b {
      assert r in SetOf(q.add);
    }
    AdditionLands(Run(mid, ds), q.add, b);
    RunAppend(mid, ds, adds);
    RunAppend(mid, ds + adds, late);
    forall op | op in late && op.Delete? ensures Installed(op.route) != b {
      assert op in ds + adds + late;
      RestDeletesOld(plans, one, two, routes, op);
    }
    UndeletedStays(Run(mid, ds + adds), late, b);
  }

  /** So with nothing in common, what both have installed is deleted altogether. */
  lemma SharedScopeEmpties(plans: seq<RoutePlan>, one: Goal, two: Goal, routes: set<Route>)
    requires KernelState(routes) && one.scope == two.scope && one.desired !! two.desired
    requires Owned(routes, one.scope) == one.desired + two.desired
    requires |plans| == 2 && IsPlan(plans[0], one, routes) && IsPlan(plans[1], two, routes)
    ensures Owned(Run(routes, Ops(plans)), one.scope) == {}
  {
    forall r | r in one.desired + two.desired ensures r in routes && InScope(r, one.scope) {
      assert r in Owned(routes, one.scope);
    }
    assert forall r :: DesiredBySome(r, [one, two]) ==> r in one.desired + two.desired;
    SharedScopeFlaps(plans, one, two, routes);
  }
}
