/** What routes.Apply achieves on the kernel: every intermediate state, and the final one. */
module RouteConvergence {
  import opened Prefixes
  import opened Sequences
  import opened Rtnl
  import opened RouteReconcile

  /** The routes one group lists as its own: a table, a protocol and the configured families. */
  datatype Scope = Scope(table: int, protocol: int, families: set<Family>)

  predicate InScope(r: Route, sc: Scope) {
    r.table == sc.table && r.protocol == sc.protocol && r.dst.fam in sc.families
  }

  function Owned(routes: set<Route>, sc: Scope): set<Route> {
    set r | r in routes && InScope(r, sc)
  }

  /** What one group wants of its scope. */
  datatype Goal = Goal(scope: Scope, desired: set<Route>)

  ghost predicate AllInstalled(routes: set<Route>) {
    forall r :: r in routes ==> Installed(r) == r
  }

  ghost predicate WishesInScope(goal: Goal) {
    forall r :: r in goal.desired ==> InScope(r, goal.scope)
  }

  /** Desired routes lie in the scope, in the form the kernel stores, one to a slot. */
  ghost predicate Consistent(goal: Goal) {
    AllInstalled(goal.desired) && SlotsDistinct(goal.desired) && WishesInScope(goal)
  }

  /** No route outside the scope sits in a slot the group wants. */
  ghost predicate NoForeign(goal: Goal, routes: set<Route>) {
    forall r, f :: r in goal.desired && f in routes && SlotOf(f) == SlotOf(r) ==> InScope(f, goal.scope)
  }

  /** diffRoutes' result for a goal against a kernel state, in whatever order its maps were walked. */
  ghost predicate IsPlan(gp: RoutePlan, goal: Goal, routes: set<Route>) {
    && gp.table == goal.scope.table && NoRepeats(gp.add) && NoRepeats(gp.remove)
    && SetOf(gp.add) == goal.desired - Owned(routes, goal.scope)
    && SetOf(gp.remove) == Owned(routes, goal.scope) - goal.desired
  }

  ghost predicate KernelState(routes: set<Route>) {
    SlotsDistinct(routes) && AllInstalled(routes)
  }

  // ---- one table and its families at a time ----

  /** The part of the kernel a scope's slots lie in. */
  datatype Region = Region(table: int, families: set<Family>)

  function RegionOf(sc: Scope): Region {
    Region(sc.table, sc.families)
  }

  predicate Within(r: Route, rg: Region) {
    r.table == rg.table && r.dst.fam in rg.families
  }

  predicate Apart(a: Scope, b: Scope) {
    a.table != b.table || a.families !! b.families
  }

  function At(routes: set<Route>, rg: Region): set<Route> {
    set r | r in routes && Within(r, rg)
  }

  function Concerns(rg: Region): Op -> bool {
    (op: Op) => Within(op.route, rg)
  }

  function OpsAt(ops: seq<Op>, rg: Region): seq<Op> {
    Filter(ops, Concerns(rg))
  }

  lemma {:induction false} RunAt(routes: set<Route>, ops: seq<Op>, rg: Region)
    ensures At(Run(routes, ops), rg) == Run(At(routes, rg), OpsAt(ops, rg))
  {
    if ops != [] {
      var front, op := ops[..|ops| - 1], ops[|ops| - 1];
      RunAt(routes, front, rg);
      StepAt(Run(routes, front), op, rg);
      if Within(op.route, rg) {
        assert (OpsAt(front, rg) + [op])[..|OpsAt(front, rg)|] == OpsAt(front, rg);
      } else {
        assert OpsAt(front, rg) + [] == OpsAt(front, rg);
      }
    }
  }

  lemma StepAt(routes: set<Route>, op: Op, rg: Region)
    ensures Within(op.route, rg) ==> At(Step(routes, op), rg) == Step(At(routes, rg), op)
    ensures !Within(op.route, rg) ==> At(Step(routes, op), rg) == At(routes, rg)
  {
    var r := Installed(op.route);
    assert Within(r, rg) <==> Within(op.route, rg);
    if op.Add? && Within(op.route, rg) {
      if r' :| r' in routes && SlotOf(r') == SlotOf(r) {
        assert r' in At(routes, rg);
      }
    }
  }

  lemma OpsAtUniform(ops: seq<Op>, rg: Region, here: bool)
    requires forall i :: 0 <= i < |ops| ==> Within(ops[i].route, rg) == here
    ensures OpsAt(ops, rg) == if here then ops else []
  {
    if here { FilterAll(ops, Concerns(rg)); } else { FilterNone(ops, Concerns(rg)); }
  }

  /** All of a group's calls, were it alone. */
  function GroupOps(gp: RoutePlan): seq<Op> {
    Deletes(Conflicting(gp)) + Adds(gp.add) + Deletes(Remaining(gp))
  }

  /** All of a plan's routes lie in the region, or none does. */
  ghost predicate Lies(gp: RoutePlan, rg: Region, here: bool) {
    forall r :: r in gp.add || r in gp.remove ==> Within(r, rg) == here
  }

  /** A removal goes early exactly when its destination is added again. */
  lemma RemovalSplit(gp: RoutePlan)
    ensures forall r :: r in Conflicting(gp) <==> r in gp.remove && r.dst in Dsts(gp.add)
    ensures forall r :: r in Remaining(gp) <==> r in gp.remove && r.dst !in Dsts(gp.add)
    ensures multiset(Conflicting(gp)) + multiset(Remaining(gp)) == multiset(gp.remove)
  {
    var again, early := DstIn(Dsts(gp.add)), DstNotIn(Dsts(Conflicting(gp)));
    FilterMembers(gp.remove, again);
    FilterMembers(gp.remove, early);
    forall r | r in gp.remove ensures again(r) != early(r) {
      assert again(r) ==> r in Conflicting(gp);
    }
    FilterSplit(gp.remove, again, early);
  }

  lemma PlanAt(gp: RoutePlan, rg: Region, here: bool)
    requires Lies(gp, rg, here)
    ensures OpsAt(Deletes(Conflicting(gp)), rg) == if here then Deletes(Conflicting(gp)) else []
    ensures OpsAt(Adds(gp.add), rg) == if here then Adds(gp.add) else []
    ensures OpsAt(Deletes(Remaining(gp)), rg) == if here then Deletes(Remaining(gp)) else []
  {
    RemovalSplit(gp);
    var a, b, c := Deletes(Conflicting(gp)), Adds(gp.add), Deletes(Remaining(gp));
    assert forall i :: 0 <= i < |a| ==> a[i].route in Conflicting(gp);
    assert forall i :: 0 <= i < |b| ==> b[i].route in gp.add;
    assert forall i :: 0 <= i < |c| ==> c[i].route in Remaining(gp);
    OpsAtUniform(a, rg, here);
    OpsAtUniform(b, rg, here);
    OpsAtUniform(c, rg, here);
  }

  lemma {:induction false} OtherRegion(plans: seq<RoutePlan>, rg: Region)
    requires forall i :: 0 <= i < |plans| ==> Lies(plans[i], rg, false)
    ensures OpsAt(FirstPhase(plans), rg) == [] && OpsAt(SecondPhase(plans), rg) == []
  {
    if plans != [] {
      var front, gp := plans[..|plans| - 1], plans[|plans| - 1];
      OtherRegion(front, rg);
      LastPlanAt(FirstPhase(front), SecondPhase(front), gp, rg, false);
    }
  }

  lemma LastPlanAt(x: seq<Op>, y: seq<Op>, gp: RoutePlan, rg: Region, here: bool)
    requires Lies(gp, rg, here)
    ensures OpsAt(x + Deletes(Conflicting(gp)) + Adds(gp.add), rg) ==
            OpsAt(x, rg) + if here then Deletes(Conflicting(gp)) + Adds(gp.add) else []
    ensures OpsAt(y + Deletes(Remaining(gp)), rg) ==
            OpsAt(y, rg) + if here then Deletes(Remaining(gp)) else []
  {
    PlanAt(gp, rg, here);
    AppendAt(x, Deletes(Conflicting(gp)), Adds(gp.add), rg, here);
    AppendAt(y, Deletes(Remaining(gp)), [], rg, here);
    assert y + Deletes(Remaining(gp)) + [] == y + Deletes(Remaining(gp));
    assert Deletes(Remaining(gp)) + [] == Deletes(Remaining(gp));
  }

  lemma AppendAt(x: seq<Op>, a: seq<Op>, b: seq<Op>, rg: Region, here: bool)
    requires OpsAt(a, rg) == (if here then a else []) && OpsAt(b, rg) == (if here then b else [])
    ensures OpsAt(x + a + b, rg) == OpsAt(x, rg) + if here then a + b else []
  {
    FilterAppend(x + a, b, Concerns(rg));
    FilterAppend(x, a, Concerns(rg));
    if here { Regroup(OpsAt(x, rg), a, b); } else { NothingMore(OpsAt(x, rg), OpsAt(x, rg)); }
  }

  lemma Regroup(a: seq<Op>, b: seq<Op>, c: seq<Op>)
    ensures a + b + c == a + (b + c)
  {
  }

  lemma {:induction false} PhasesAt(plans: seq<RoutePlan>, g: nat, rg: Region)
    requires g < |plans| && forall i :: 0 <= i < |plans| ==> Lies(plans[i], rg, i == g)
    ensures OpsAt(FirstPhase(plans), rg) == Deletes(Conflicting(plans[g])) + Adds(plans[g].add)
    ensures OpsAt(SecondPhase(plans), rg) == Deletes(Remaining(plans[g]))
  {
    var front, gp := plans[..|plans| - 1], plans[|plans| - 1];
    var first, second := FirstPhase(front), SecondPhase(front);
    assert Lies(gp, rg, |plans| - 1 == g);
    LastPlanAt(first, second, gp, rg, |plans| - 1 == g);
    if g < |plans| - 1 {
      PhasesAt(front, g, rg);
      NothingMore(OpsAt(first, rg), OpsAt(second, rg));
    } else {
      OtherRegion(front, rg);
      NothingBefore(Deletes(Conflicting(gp)) + Adds(gp.add), Deletes(Remaining(gp)));
    }
  }

  lemma NothingMore(a: seq<Op>, b: seq<Op>)
    ensures a + [] == a && b + [] == b
  {
  }

  lemma NothingBefore(a: seq<Op>, b: seq<Op>)
    ensures [] + a == a && [] + b == b
  {
  }

  lemma GroupOpsAt(plans: seq<RoutePlan>, g: nat, rg: Region)
    requires g < |plans| && forall i :: 0 <= i < |plans| ==> Lies(plans[i], rg, i == g)
    ensures OpsAt(Ops(plans), rg) == GroupOps(plans[g])
  {
    PhasesAt(plans, g, rg);
    FilterAppend(FirstPhase(plans), SecondPhase(plans), Concerns(rg));
  }

  // ---- closed forms ----

  lemma CallsLast(rs: seq<Route>)
    requires rs != []
    ensures Adds(rs) == Adds(rs[..|rs| - 1]) + [Add(rs[|rs| - 1])]
    ensures Deletes(rs) == Deletes(rs[..|rs| - 1]) + [Delete(rs[|rs| - 1])]
    ensures SetOf(rs) == SetOf(rs[..|rs| - 1]) + {rs[|rs| - 1]}
  {
    assert rs == rs[..|rs| - 1] + [rs[|rs| - 1]];
  }

  lemma {:induction false} RunDeletes(routes: set<Route>, rs: seq<Route>)
    requires AllInstalled(SetOf(rs))
    ensures Run(routes, Deletes(rs)) == routes - SetOf(rs)
  {
    if rs != [] {
      var front, r := rs[..|rs| - 1], rs[|rs| - 1];
      CallsLast(rs);
      RunDeletes(routes, front);
      RunSnoc(routes, Deletes(front), Delete(r));
    }
  }

  lemma AddFits(routes: set<Route>, r: Route)
    requires Installed(r) == r && SlotsDistinct(routes + {r})
    ensures Step(routes, Add(r)) == routes + {r}
  {
    if r' :| r' in routes && SlotOf(r') == SlotOf(r) {
      assert r' in routes + {r} && r in routes + {r};
    }
  }

  /** Adding routes whose slots are free, or already hold just that route. */
  lemma {:induction false} RunAdds(routes: set<Route>, rs: seq<Route>)
    requires AllInstalled(SetOf(rs)) && SlotsDistinct(routes + SetOf(rs))
    ensures Run(routes, Adds(rs)) == routes + SetOf(rs)
  {
    if rs != [] {
      var front, r := rs[..|rs| - 1], rs[|rs| - 1];
      CallsLast(rs);
      assert routes + SetOf(front) + {r} == routes + SetOf(rs);
      RunAdds(routes, front);
      RunSnoc(routes, Adds(front), Add(r));
      AddFits(routes + SetOf(front), r);
    }
  }

  // ---- one group ----

  /** Where a prefix of a group's calls stops: in the early deletions, the additions or the rest. */
  lemma PrefixCases(a: seq<Route>, b: seq<Route>, c: seq<Route>, pre: seq<Op>) returns (i: nat, j: nat, l: nat)
    requires pre <= Deletes(a) + Adds(b) + Deletes(c)
    ensures i <= |a| && j <= |b| && l <= |c|
    ensures pre == Deletes(a[..i]) + Adds(b[..j]) + Deletes(c[..l])
    ensures (j > 0 ==> i == |a|) && (l > 0 ==> i == |a| && j == |b|)
    ensures pre == Deletes(a) + Adds(b) + Deletes(c) ==> i == |a| && j == |b| && l == |c|
  {
    i := if |pre| < |a| then |pre| else |a|;
    j := if |pre| <= |a| then 0 else if |pre| < |a| + |b| then |pre| - |a| else |b|;
    l := if |pre| <= |a| + |b| then 0 else |pre| - |a| - |b|;
    var full := Deletes(a) + Adds(b) + Deletes(c);
    var cut := Deletes(a[..i]) + Adds(b[..j]) + Deletes(c[..l]);
    assert |cut| == |pre|;
    assert forall k :: 0 <= k < |pre| ==> cut[k] == full[k];
  }

  lemma RunThree(routes: set<Route>, a: seq<Route>, b: seq<Route>, c: seq<Route>)
    requires AllInstalled(SetOf(a)) && AllInstalled(SetOf(b)) && AllInstalled(SetOf(c))
    requires SlotsDistinct(routes - SetOf(a) + SetOf(b))
    ensures Run(routes, Deletes(a) + Adds(b) + Deletes(c)) == routes - SetOf(a) + SetOf(b) - SetOf(c)
  {
    RunAppend(routes, Deletes(a) + Adds(b), Deletes(c));
    RunAppend(routes, Deletes(a), Adds(b));
    RunDeletes(routes, a);
    RunAdds(routes - SetOf(a), b);
    RunDeletes(routes - SetOf(a) + SetOf(b), c);
  }

  /** Once the conflicting routes are gone, every slot to be added is free. */
  lemma SlotsFreed(gp: RoutePlan, goal: Goal, routes: set<Route>)
    requires KernelState(routes) && Consistent(goal) && NoForeign(goal, routes) && IsPlan(gp, goal, routes)
    ensures SlotsDistinct(routes - SetOf(Conflicting(gp)) + SetOf(gp.add))
  {
    RemovalSplit(gp);
    forall r, f | r in SetOf(gp.add) && f in routes && SlotOf(r) == SlotOf(f) ensures f in SetOf(Conflicting(gp)) {
      assert r in goal.desired && f in Owned(routes, goal.scope) && r in gp.add;
      assert f !in goal.desired;
      assert f in SetOf(gp.remove);
    }
    forall r, f | r in SetOf(gp.add) && f in SetOf(gp.add) && SlotOf(r) == SlotOf(f) ensures r == f {
      assert r in goal.desired && f in goal.desired;
    }
  }

  // ---- one group, whatever sits in its slots ----

  ghost predicate Taken(routes: set<Route>, slot: Slot) {
    exists r :: r in routes && SlotOf(r) == slot
  }

  /** What is not deleted stays. */
  lemma {:induction false} UndeletedStays(routes: set<Route>, ops: seq<Op>, r: Route)
    requires r in routes && forall op :: op in ops && op.Delete? ==> Installed(op.route) != r
    ensures r in Run(routes, ops)
  {
    if ops != [] {
      assert ops == ops[..|ops| - 1] + [ops[|ops| - 1]];
      UndeletedStays(routes, ops[..|ops| - 1], r);
    }
  }

  /** Nothing appears that was not added. */
  lemma {:induction false} OnlyAddedAppears(routes: set<Route>, ops: seq<Op>, r: Route)
    requires r in Run(routes, ops)
    ensures r in routes || exists op :: op in ops && op.Add? && Installed(op.route) == r
  {
    if ops != [] {
      var front, op := ops[..|ops| - 1], ops[|ops| - 1];
      assert ops == front + [op];
      if r in Run(routes, front) { OnlyAddedAppears(routes, front, r); }
    }
  }

  /** An addition leaves its slot taken, if not by its own route. */
  lemma {:induction false} AdditionTakesSlot(routes: set<Route>, rs: seq<Route>, d: Route)
    requires d in rs
    ensures Taken(Run(routes, Adds(rs)), SlotOf(Installed(d)))
  {
    var front, r := rs[..|rs| - 1], rs[|rs| - 1];
    assert Adds(rs)[..|rs| - 1] == Adds(front);
    var s := Run(routes, Adds(front));
    assert Run(routes, Adds(rs)) == Step(s, Add(r));
    if d in front {
      AdditionTakesSlot(routes, front, d);
      var x :| x in s && SlotOf(x) == SlotOf(Installed(d));
      assert x in Step(s, Add(r));
    } else {
      assert d == r;
      if !Taken(s, SlotOf(Installed(d))) { assert Installed(d) in Step(s, Add(r)); }
    }
  }

  /** The calls of one group, stopped anywhere. A route that is both there and desired is never
      missing, nothing but desired routes appears, and an obsolete route with a destination that is not
      added again goes only when every desired destination has a route in the table. */
  lemma GroupStops(gp: RoutePlan, goal: Goal, routes: set<Route>, pre: seq<Op>)
    requires AllInstalled(routes) && AllInstalled(goal.desired) && IsPlan(gp, goal, routes) && pre <= GroupOps(gp)
    ensures var s := Run(routes, pre);
            && routes - SetOf(gp.remove) <= s <= routes + goal.desired
            && ((forall r :: r in routes && r.dst !in Dsts(gp.add) ==> r in s) ||
                (forall d :: d in goal.desired ==> Taken(s, SlotOf(d))))
  {
    var s := Run(routes, pre);
    var l := StopsAfter(gp, goal, routes, pre);
    forall r | r in routes && r !in SetOf(gp.remove) ensures r in s {
      UndeletedStays(routes, pre, r);
    }
    forall r | r in s ensures r in routes + goal.desired {
      OnlyAddedAppears(routes, pre, r);
    }
    if l == 0 {
      forall r | r in routes && r.dst !in Dsts(gp.add) ensures r in s {
        UndeletedStays(routes, pre, r);
      }
    } else {
      RemovalSplit(gp);
      forall d | d in goal.desired ensures Taken(s, SlotOf(d)) {
        WishStands(gp, goal, routes, Remaining(gp)[..l], d);
      }
    }
  }

  /** How far the late deletions have come, and what the calls so far were about. */
  lemma StopsAfter(gp: RoutePlan, goal: Goal, routes: set<Route>, pre: seq<Op>) returns (l: nat)
    requires AllInstalled(routes) && AllInstalled(goal.desired) && IsPlan(gp, goal, routes) && pre <= GroupOps(gp)
    ensures l <= |Remaining(gp)|
    ensures l > 0 ==> pre == Deletes(Conflicting(gp)) + Adds(gp.add) + Deletes(Remaining(gp)[..l])
    ensures forall op :: op in pre ==> Installed(op.route) == op.route
    ensures forall op :: op in pre ==> if op.Add? then op.route in goal.desired else op.route in SetOf(gp.remove)
    ensures l == 0 ==> forall op :: op in pre && op.Delete? ==> op.route.dst in Dsts(gp.add)
  {
    var a, b, c := Conflicting(gp), gp.add, Remaining(gp);
    var i, j;
    i, j, l := PrefixCases(a, b, c, pre);
    if l > 0 { assert a[..i] == a && b[..j] == b; }
    CallsOf(a[..i], b[..j], c[..l]);
    RemovalSplit(gp);
    PlanInstalled(gp, goal, routes);
    forall op | op in pre
      ensures if op.Add? then op.route in SetOf(gp.add) else op.route in SetOf(a) || op.route in SetOf(c)
      ensures l == 0 && op.Delete? ==> op.route in SetOf(a)
    {
      assert op.route in a[..i] ==> op.route in a;
      assert op.route in c[..l] ==> op.route in c;
    }
  }

  lemma CallsOf(a: seq<Route>, b: seq<Route>, c: seq<Route>)
    ensures forall op :: op in Deletes(a) + Adds(b) + Deletes(c) <==>
              if op.Add? then op.route in b else op.route in a || op.route in c
  {
    forall op ensures op in Deletes(a) + Adds(b) + Deletes(c) <==>
        if op.Add? then op.route in b else op.route in a || op.route in c
    {
      ListMembers(a, op);
      ListMembers(b, op);
      ListMembers(c, op);
    }
  }

  /** Once all additions are made, later deletions leave every desired slot taken. */
  lemma WishStands(gp: RoutePlan, goal: Goal, routes: set<Route>, late: seq<Route>, d: Route)
    requires AllInstalled(routes) && AllInstalled(goal.desired) && IsPlan(gp, goal, routes)
    requires d in goal.desired && forall r :: r in late ==> r in Remaining(gp)
    ensures Taken(Run(routes, Deletes(Conflicting(gp)) + Adds(gp.add) + Deletes(late)), SlotOf(d))
  {
    var a, b := Deletes(Conflicting(gp)), Adds(gp.add);
    RemovalSplit(gp);
    PlanInstalled(gp, goal, routes);
    CallsOf(Conflicting(gp), gp.add, late);
    if d in Owned(routes, goal.scope) {
      assert d !in SetOf(gp.remove);
      UndeletedStays(routes, a + b + Deletes(late), d);
    } else {
      assert d in SetOf(gp.add);
      var mid := Run(Run(routes, a), b);
      AdditionTakesSlot(Run(routes, a), gp.add, d);
      var x :| x in mid && SlotOf(x) == SlotOf(d);
      RunAppend(routes, a, b);
      RunAppend(routes, a + b, Deletes(late));
      forall op | op in Deletes(late) ensures Installed(op.route) != x {
        ListMembers(late, op);
        assert op.route in SetOf(Remaining(gp));
      }
      UndeletedStays(mid, Deletes(late), x);
    }
  }

  // ---- one group with its slots to itself ----

  /** All of a group's calls leave its scope exactly as desired and nothing else changed. */
  lemma GroupDone(gp: RoutePlan, goal: Goal, routes: set<Route>)
    requires KernelState(routes) && Consistent(goal) && NoForeign(goal, routes) && IsPlan(gp, goal, routes)
    ensures Run(routes, GroupOps(gp)) == routes - Owned(routes, goal.scope) + goal.desired
  {
    PlanInstalled(gp, goal, routes);
    SlotsFreed(gp, goal, routes);
    RunThree(routes, Conflicting(gp), gp.add, Remaining(gp));
    FullyApplied(gp, goal, routes);
  }

  lemma PlanInstalled(gp: RoutePlan, goal: Goal, routes: set<Route>)
    requires AllInstalled(routes) && AllInstalled(goal.desired) && IsPlan(gp, goal, routes)
    ensures AllInstalled(SetOf(gp.add)) && AllInstalled(SetOf(Conflicting(gp))) && AllInstalled(SetOf(Remaining(gp)))
  {
    RemovalSplit(gp);
    forall r | r in gp.add || r in gp.remove ensures Installed(r) == r {
      assert r in gp.add ==> r in SetOf(gp.add);
      assert r in gp.remove ==> r in SetOf(gp.remove);
    }
  }

  lemma PlanInScope(gp: RoutePlan, goal: Goal, routes: set<Route>)
    requires WishesInScope(goal) && IsPlan(gp, goal, routes)
    ensures forall r :: r in gp.add || r in gp.remove ==> InScope(r, goal.scope)
  {
    forall r | r in gp.add || r in gp.remove ensures InScope(r, goal.scope) {
      assert r in gp.add ==> r in SetOf(gp.add);
      assert r in gp.remove ==> r in SetOf(gp.remove);
    }
  }

  lemma FullyApplied(gp: RoutePlan, goal: Goal, routes: set<Route>)
    requires IsPlan(gp, goal, routes)
    ensures routes - SetOf(Conflicting(gp)) + SetOf(gp.add) - SetOf(Remaining(gp))
         == routes - Owned(routes, goal.scope) + goal.desired
  {
    RemovalSplit(gp);
    forall r ensures r in routes - SetOf(Conflicting(gp)) + SetOf(gp.add) - SetOf(Remaining(gp))
                <==> r in routes - Owned(routes, goal.scope) + goal.desired {
      assert r in SetOf(gp.remove) <==> r in gp.remove;
      assert r in SetOf(gp.add) <==> r in gp.add;
    }
  }

  /** And until it is complete, every current route with a destination that is not added again stands. */
  lemma GroupStopsOwn(gp: RoutePlan, goal: Goal, routes: set<Route>, pre: seq<Op>)
    requires KernelState(routes) && Consistent(goal) && NoForeign(goal, routes) && IsPlan(gp, goal, routes)
    requires pre <= GroupOps(gp)
    ensures var s := Run(routes, pre);
            (forall r :: r in routes && r.dst !in Dsts(gp.add) ==> r in s) || goal.desired <= s
  {
    var l := StopsAfter(gp, goal, routes, pre);
    if l == 0 {
      forall r | r in routes && r.dst !in Dsts(gp.add) ensures r in Run(routes, pre) {
        UndeletedStays(routes, pre, r);
      }
    } else {
      PlanInstalled(gp, goal, routes);
      SlotsFreed(gp, goal, routes);
      var late := Remaining(gp)[..l];
      assert SetOf(late) <= SetOf(Remaining(gp));
      RunThree(routes, Conflicting(gp), gp.add, late);
      AllAdded(gp, goal, routes, late);
    }
  }

  lemma AllAdded(gp: RoutePlan, goal: Goal, routes: set<Route>, c: seq<Route>)
    requires IsPlan(gp, goal, routes) && SetOf(c) <= SetOf(Remaining(gp))
    ensures goal.desired <= routes - SetOf(Conflicting(gp)) + SetOf(gp.add) - SetOf(c)
  {
    RemovalSplit(gp);
    forall r | r in goal.desired ensures r in routes - SetOf(Conflicting(gp)) + SetOf(gp.add) - SetOf(c) {
      assert r !in SetOf(gp.remove);
      assert r in SetOf(gp.add) || r in Owned(routes, goal.scope);
    }
  }

  // ---- all groups ----

  /** Plans computed against one kernel state, for groups that share no family of a table. */
  ghost predicate PlannedApart(plans: seq<RoutePlan>, goals: seq<Goal>, routes: set<Route>) {
    && |plans| == |goals|
    && (forall i :: 0 <= i < |goals| ==> WishesInScope(goals[i]) && IsPlan(plans[i], goals[i], routes))
    && (forall i, j :: 0 <= i < j < |goals| ==> Apart(goals[i].scope, goals[j].scope))
  }

  /** Group g can have what it wants; nothing is asked of the other groups' wishes and slots. */
  ghost predicate PlannedBeside(plans: seq<RoutePlan>, goals: seq<Goal>, routes: set<Route>, g: nat) {
    && PlannedApart(plans, goals, routes) && KernelState(routes)
    && g < |goals| && Consistent(goals[g]) && NoForeign(goals[g], routes)
  }

  /** Every group can. */
  ghost predicate Planned(plans: seq<RoutePlan>, goals: seq<Goal>, routes: set<Route>) {
    && PlannedApart(plans, goals, routes) && KernelState(routes)
    && (forall i :: 0 <= i < |goals| ==> Consistent(goals[i]) && NoForeign(goals[i], routes))
  }

  lemma PlannedRegions(plans: seq<RoutePlan>, goals: seq<Goal>, routes: set<Route>, g: nat)
    requires PlannedApart(plans, goals, routes) && g < |goals|
    ensures forall i :: 0 <= i < |plans| ==> Lies(plans[i], RegionOf(goals[g].scope), i == g)
  {
    forall i | 0 <= i < |plans| ensures Lies(plans[i], RegionOf(goals[g].scope), i == g) {
      PlanInScope(plans[i], goals[i], routes);
      assert i != g ==> Apart(goals[i].scope, goals[g].scope);
    }
  }

  lemma PlanAtOwnRegion(gp: RoutePlan, goal: Goal, routes: set<Route>)
    requires IsPlan(gp, goal, routes)
    ensures IsPlan(gp, goal, At(routes, RegionOf(goal.scope)))
    ensures KernelState(routes) ==> KernelState(At(routes, RegionOf(goal.scope)))
    ensures NoForeign(goal, routes) ==> NoForeign(goal, At(routes, RegionOf(goal.scope)))
  {
    assert Owned(At(routes, RegionOf(goal.scope)), goal.scope) == Owned(routes, goal.scope);
  }

  /** At any stopping point, a group's region is where some prefix of its own calls left it. */
  lemma GroupRegion(plans: seq<RoutePlan>, goals: seq<Goal>, routes: set<Route>, done: seq<Op>, g: nat)
    requires PlannedApart(plans, goals, routes) && done <= Ops(plans) && g < |goals|
    ensures var rg := RegionOf(goals[g].scope); var pre := OpsAt(done, rg);
            && At(Run(routes, done), rg) == Run(At(routes, rg), pre)
            && pre <= GroupOps(plans[g]) && (done == Ops(plans) ==> pre == GroupOps(plans[g]))
  {
    var rg := RegionOf(goals[g].scope);
    PlannedRegions(plans, goals, routes, g);
    RunAt(routes, done, rg);
    FilterPrefix(done, Ops(plans), Concerns(rg));
    GroupOpsAt(plans, g, rg);
  }

  /** The group's own table and families cover the address. */
  ghost predicate CoveredIn(routes: set<Route>, rg: Region, a: Addr) {
    exists r :: r in routes && Within(r, rg) && Contains(r.dst, a)
  }

  /** Whatever call Apply stops at, and whatever else sits in the tables: a route both current and
      desired is there, and an address that a desired route and a current route not being replaced
      cover is still covered in the group's table; by a route of its own, if no foreign route holds
      one of its slots. */
  lemma MakeBeforeBreak(plans: seq<RoutePlan>, goals: seq<Goal>, routes: set<Route>, done: seq<Op>, g: nat)
    requires PlannedApart(plans, goals, routes) && done <= Ops(plans) && g < |goals|
    requires AllInstalled(routes) && AllInstalled(goals[g].desired)
    ensures Owned(routes, goals[g].scope) * goals[g].desired <= Run(routes, done)
    ensures forall a, c, d :: Replaceable(plans[g], goals[g], routes, a, c, d) ==>
              CoveredIn(Run(routes, done), RegionOf(goals[g].scope), a)
    ensures NoForeign(goals[g], routes) ==>
              forall a, c, d :: Replaceable(plans[g], goals[g], routes, a, c, d) ==>
                exists r :: r in Owned(Run(routes, done), goals[g].scope) && Contains(r.dst, a)
  {
    var goal, gp, s, rg := goals[g], plans[g], Run(routes, done), RegionOf(goals[g].scope);
    GroupRegion(plans, goals, routes, done, g);
    PlanAtOwnRegion(gp, goal, routes);
    GroupStops(gp, goal, At(routes, rg), OpsAt(done, rg));
    forall r | r in Owned(routes, goal.scope) * goal.desired ensures r in s {
      assert r in At(routes, rg) && r !in SetOf(gp.remove);
      assert r in At(s, rg);
    }
    forall a, c, d | Replaceable(gp, goal, routes, a, c, d)
      ensures exists r :: r in At(s, rg) && Contains(r.dst, a) && (NoForeign(goal, routes) ==> InScope(r, goal.scope))
    {
      CoverKept(gp, goal, routes, At(s, rg), a, c, d);
    }
    forall a, c, d | Replaceable(gp, goal, routes, a, c, d) ensures CoveredIn(s, rg, a) {
      var r :| r in At(s, rg) && Contains(r.dst, a);
      assert r in s && Within(r, rg);
    }
    if NoForeign(goal, routes) {
      forall a, c, d | Replaceable(gp, goal, routes, a, c, d)
        ensures exists r :: r in Owned(s, goal.scope) && Contains(r.dst, a)
      {
        var r :| r in At(s, rg) && Contains(r.dst, a) && InScope(r, goal.scope);
        assert r in Owned(s, goal.scope);
      }
    }
  }

  /** c is a current route of the group with a destination that is not added again, d a desired one,
      and both cover the address. */
  ghost predicate Replaceable(gp: RoutePlan, goal: Goal, routes: set<Route>, a: Addr, c: Route, d: Route) {
    && c in Owned(routes, goal.scope) && c.dst !in Dsts(gp.add) && Contains(c.dst, a)
    && d in goal.desired && Contains(d.dst, a)
  }

  lemma CoverKept(gp: RoutePlan, goal: Goal, routes: set<Route>, now: set<Route>, a: Addr, c: Route, d: Route)
    requires WishesInScope(goal) && Replaceable(gp, goal, routes, a, c, d) && now <= routes + goal.desired
    requires (forall r :: r in At(routes, RegionOf(goal.scope)) && r.dst !in Dsts(gp.add) ==> r in now) ||
             (forall w :: w in goal.desired ==> Taken(now, SlotOf(w)))
    ensures exists r :: r in now && Contains(r.dst, a) && (NoForeign(goal, routes) ==> InScope(r, goal.scope))
  {
    if c !in now {
      assert c in At(routes, RegionOf(goal.scope));
      var r :| r in now && SlotOf(r) == SlotOf(d);
      assert Contains(r.dst, a);
    }
  }

  predicate Mentions(gp: RoutePlan, op: Op) {
    if op.Add? then op.route in gp.add else op.route in gp.remove
  }

  lemma PlanOpsMembers(gp: RoutePlan, op: Op)
    ensures op in Deletes(Conflicting(gp)) || op in Adds(gp.add) || op in Deletes(Remaining(gp)) <==> Mentions(gp, op)
  {
    RemovalSplit(gp);
    ListMembers(Conflicting(gp), op);
    ListMembers(gp.add, op);
    ListMembers(Remaining(gp), op);
  }

  lemma ListMembers(rs: seq<Route>, op: Op)
    ensures op in Deletes(rs) <==> op.Delete? && op.route in rs
    ensures op in Adds(rs) <==> op.Add? && op.route in rs
  {
    if op.route in rs {
      var i :| 0 <= i < |rs| && rs[i] == op.route;
      assert Deletes(rs)[i] == Delete(op.route) && Adds(rs)[i] == Add(op.route);
    }
  }

  /** Apply's calls are the additions and the removals of its plans. */
  lemma OpsMembers(plans: seq<RoutePlan>, op: Op)
    ensures op in Ops(plans) <==> exists i :: 0 <= i < |plans| && Mentions(plans[i], op)
  {
    PhaseMembers(plans, op);
  }

  lemma InThree(op: Op, x: seq<Op>, a: seq<Op>, b: seq<Op>)
    ensures op in x + a + b <==> op in x || op in a || op in b
  {
  }

  lemma {:induction false} PhaseMembers(plans: seq<RoutePlan>, op: Op)
    ensures op in FirstPhase(plans) || op in SecondPhase(plans) <==>
              exists i :: 0 <= i < |plans| && Mentions(plans[i], op)
  {
    if plans != [] {
      var front, gp := plans[..|plans| - 1], plans[|plans| - 1];
      PhaseMembers(front, op);
      PlanOpsMembers(gp, op);
      InThree(op, FirstPhase(front), Deletes(Conflicting(gp)), Adds(gp.add));
      InThree(op, SecondPhase(front), Deletes(Remaining(gp)), []);
      assert SecondPhase(plans) + [] == SecondPhase(plans);
      MentionedByLast(plans, op);
    }
  }

  lemma MentionedByLast(plans: seq<RoutePlan>, op: Op)
    requires plans != []
    ensures var front := plans[..|plans| - 1];
            (exists i :: 0 <= i < |plans| && Mentions(plans[i], op)) <==>
            (exists i :: 0 <= i < |front| && Mentions(front[i], op)) || Mentions(plans[|plans| - 1], op)
  {
    var front := plans[..|plans| - 1];
    if i :| 0 <= i < |front| && Mentions(front[i], op) {
      assert Mentions(plans[i], op);
    }
    if i :| 0 <= i < |plans| && Mentions(plans[i], op) {
      assert i < |front| ==> Mentions(front[i], op);
    }
  }

  lemma {:induction false} Untouched(routes: set<Route>, ops: seq<Op>, r: Route)
    requires forall i :: 0 <= i < |ops| ==> Installed(ops[i].route) != r
    ensures r in Run(routes, ops) <==> r in routes
  {
    if ops != [] { Untouched(routes, ops[..|ops| - 1], r); }
  }

  /** A table, or a family of it, that no group names is left alone. */
  lemma OthersKept(plans: seq<RoutePlan>, goals: seq<Goal>, routes: set<Route>, done: seq<Op>, rg: Region)
    requires PlannedApart(plans, goals, routes) && done <= Ops(plans)
    requires forall i :: 0 <= i < |goals| ==> goals[i].scope.table != rg.table || goals[i].scope.families !! rg.families
    ensures At(Run(routes, done), rg) == At(routes, rg)
  {
    forall i | 0 <= i < |plans| ensures Lies(plans[i], rg, false) {
      PlanInScope(plans[i], goals[i], routes);
    }
    OtherRegion(plans, rg);
    FilterAppend(FirstPhase(plans), SecondPhase(plans), Concerns(rg));
    FilterPrefix(done, Ops(plans), Concerns(rg));
    RunAt(routes, done, rg);
  }

  /** Nor is any route outside every group's scope touched, wherever Apply stops. */
  lemma UnownedUntouched(plans: seq<RoutePlan>, goals: seq<Goal>, routes: set<Route>, done: seq<Op>, r: Route)
    requires PlannedApart(plans, goals, routes) && done <= Ops(plans) && !OwnedBySome(r, goals)
    ensures r in Run(routes, done) <==> r in routes
  {
    forall k | 0 <= k < |done| ensures Installed(done[k].route) != r {
      assert done[k] in Ops(plans);
      OpsMembers(plans, done[k]);
      var i :| 0 <= i < |plans| && Mentions(plans[i], done[k]);
      PlanInScope(plans[i], goals[i], routes);
      assert InScope(Installed(done[k].route), goals[i].scope);
    }
    Untouched(routes, done, r);
  }

  ghost predicate DesiredBySome(r: Route, goals: seq<Goal>) {
    exists i :: 0 <= i < |goals| && r in goals[i].desired
  }

  ghost predicate OwnedBySome(r: Route, goals: seq<Goal>) {
    exists i :: 0 <= i < |goals| && InScope(r, goals[i].scope)
  }

  /** An error-free Apply, in any order, ends with each group's scope holding exactly its desired
      routes and everything else as it was. */
  lemma Converges(plans: seq<RoutePlan>, goals: seq<Goal>, routes: set<Route>)
    requires Planned(plans, goals, routes)
    ensures forall r :: r in Run(routes, Ops(plans)) <==>
              DesiredBySome(r, goals) || (r in routes && !OwnedBySome(r, goals))
    ensures forall g :: 0 <= g < |goals| ==> Owned(Run(routes, Ops(plans)), goals[g].scope) == goals[g].desired
  {
    var s := Run(routes, Ops(plans));
    forall r ensures r in s <==> DesiredBySome(r, goals) || (r in routes && !OwnedBySome(r, goals)) {
      MemberAfter(plans, goals, routes, r);
    }
    forall g | 0 <= g < |goals| ensures Owned(s, goals[g].scope) == goals[g].desired {
      GroupConverges(plans, goals, routes, g);
    }
  }

  /** A group that can have what it wants gets exactly that, whatever becomes of the others. */
  lemma GroupConverges(plans: seq<RoutePlan>, goals: seq<Goal>, routes: set<Route>, g: nat)
    requires PlannedBeside(plans, goals, routes, g)
    ensures At(Run(routes, Ops(plans)), RegionOf(goals[g].scope))
         == At(routes, RegionOf(goals[g].scope)) - Owned(routes, goals[g].scope) + goals[g].desired
    ensures Owned(Run(routes, Ops(plans)), goals[g].scope) == goals[g].desired
  {
    var goal, rg, s := goals[g], RegionOf(goals[g].scope), Run(routes, Ops(plans));
    GroupRegion(plans, goals, routes, Ops(plans), g);
    PlanAtOwnRegion(plans[g], goal, routes);
    GroupDone(plans[g], goal, At(routes, rg));
    assert Owned(At(routes, rg), goal.scope) == Owned(routes, goal.scope);
    forall r ensures r in Owned(s, goal.scope) <==> r in goal.desired {
      assert r in Owned(s, goal.scope) <==> r in At(s, rg) && InScope(r, goal.scope);
    }
  }

  lemma MemberAfter(plans: seq<RoutePlan>, goals: seq<Goal>, routes: set<Route>, r: Route)
    requires Planned(plans, goals, routes)
    ensures r in Run(routes, Ops(plans)) <==> DesiredBySome(r, goals) || (r in routes && !OwnedBySome(r, goals))
  {
    var s := Run(routes, Ops(plans));
    if g :| 0 <= g < |goals| && Within(r, RegionOf(goals[g].scope)) {
      assert r in s <==> r in At(s, RegionOf(goals[g].scope));
      GroupConverges(plans, goals, routes, g);
      forall i | 0 <= i < |goals| && i != g ensures r !in goals[i].desired && !InScope(r, goals[i].scope) {
        assert Consistent(goals[i]);
        assert Apart(goals[i].scope, goals[g].scope);
      }
    } else {
      var rg := Region(r.table, {r.dst.fam});
      assert r in s <==> r in At(s, rg);
      assert r in routes <==> r in At(routes, rg);
      forall i | 0 <= i < |goals|
        ensures r !in goals[i].desired && !InScope(r, goals[i].scope)
        ensures goals[i].scope.table != rg.table || goals[i].scope.families !! rg.families
      {
        assert Consistent(goals[i]);
        assert !Within(r, RegionOf(goals[i].scope));
      }
      OthersKept(plans, goals, routes, Ops(plans), rg);
    }
  }

  /** Two orders of the same plan, or a plan made after an interrupted one, end in the same state
      exactly when both start with the same routes outside every group's scope. */
  lemma ConfluentExactly(p1: seq<RoutePlan>, r1: set<Route>, p2: seq<RoutePlan>, r2: set<Route>, goals: seq<Goal>)
    requires Planned(p1, goals, r1) && Planned(p2, goals, r2)
    ensures Run(r1, Ops(p1)) == Run(r2, Ops(p2)) <==>
            forall r :: !OwnedBySome(r, goals) ==> (r in r1 <==> r in r2)
  {
    Converges(p1, goals, r1);
    Converges(p2, goals, r2);
    var s1, s2 := Run(r1, Ops(p1)), Run(r2, Ops(p2));
    forall r | !OwnedBySome(r, goals) ensures (r in s1 <==> r in r1) && (r in s2 <==> r in r2) {
      forall i | 0 <= i < |goals| ensures r !in goals[i].desired {
        assert Consistent(goals[i]);
      }
    }
    if forall r :: !OwnedBySome(r, goals) ==> (r in r1 <==> r in r2) {
      assert forall r :: r in s1 <==> r in s2;
    }
  }

  /** One goal kept from one set of plans to another ends in the same region contents exactly when
      both start with the same routes of the region outside its scope. */
  lemma GroupConfluentExactly(p1: seq<RoutePlan>, g1: seq<Goal>, r1: set<Route>, i: nat,
                              p2: seq<RoutePlan>, g2: seq<Goal>, r2: set<Route>, j: nat)
    requires PlannedBeside(p1, g1, r1, i) && PlannedBeside(p2, g2, r2, j) && g1[i] == g2[j]
    ensures At(Run(r1, Ops(p1)), RegionOf(g1[i].scope)) == At(Run(r2, Ops(p2)), RegionOf(g1[i].scope)) <==>
            forall r :: Within(r, RegionOf(g1[i].scope)) && !InScope(r, g1[i].scope) ==> (r in r1 <==> r in r2)
  {
    var goal, rg := g1[i], RegionOf(g1[i].scope);
    assert Consistent(goal);
    GroupConverges(p1, g1, r1, i);
    GroupConverges(p2, g2, r2, j);
    var s1, s2 := At(Run(r1, Ops(p1)), rg), At(Run(r2, Ops(p2)), rg);
    forall r | Within(r, rg) && !InScope(r, goal.scope) ensures (r in s1 <==> r in r1) && (r in s2 <==> r in r2) {
    }
    if forall r :: Within(r, rg) && !InScope(r, goal.scope) ==> (r in r1 <==> r in r2) {
      assert forall r :: r in s1 <==> r in s2;
    }
  }

  // ---- how often a route is deleted ----

  lemma {:induction false} CountDeletes(rs: seq<Route>, r: Route)
    ensures multiset(Deletes(rs))[Delete(r)] == multiset(rs)[r]
  {
    if rs != [] {
      var front := rs[..|rs| - 1];
      assert rs == front + [rs[|rs| - 1]];
      assert Deletes(rs) == Deletes(front) + [Delete(rs[|rs| - 1])];
      CountDeletes(front, r);
    }
  }

  ghost predicate UnwantedBySome(r: Route, goals: seq<Goal>) {
    exists i :: 0 <= i < |goals| && InScope(r, goals[i].scope) && r !in goals[i].desired
  }

  /** Apply asks the kernel to delete each obsolete route exactly once, and no other route. */
  lemma DeletedOnce(plans: seq<RoutePlan>, goals: seq<Goal>, routes: set<Route>, r: Route)
    requires PlannedApart(plans, goals, routes)
    ensures multiset(Ops(plans))[Delete(r)] == if r in routes && UnwantedBySome(r, goals) then 1 else 0
  {
    if g :| 0 <= g < |goals| && InScope(r, goals[g].scope) {
      GroupDeletes(plans, goals, routes, g, r);
      forall i | 0 <= i < |goals| && InScope(r, goals[i].scope) ensures i == g {
        assert !Apart(goals[i].scope, goals[g].scope);
      }
    } else if Delete(r) in Ops(plans) {
      OpsMembers(plans, Delete(r));
      var i :| 0 <= i < |plans| && Mentions(plans[i], Delete(r));
      PlanInScope(plans[i], goals[i], routes);
      assert false;
    }
  }

  lemma GroupDeletes(plans: seq<RoutePlan>, goals: seq<Goal>, routes: set<Route>, g: nat, r: Route)
    requires PlannedApart(plans, goals, routes) && g < |goals| && InScope(r, goals[g].scope)
    ensures multiset(Ops(plans))[Delete(r)] == if r in routes && r !in goals[g].desired then 1 else 0
  {
    var gp, rg := plans[g], RegionOf(goals[g].scope);
    assert IsPlan(gp, goals[g], routes);
    PlannedRegions(plans, goals, routes, g);
    GroupOpsAt(plans, g, rg);
    FilterCount(Ops(plans), Concerns(rg), Delete(r));
    CountDeletes(Conflicting(gp), r);
    CountDeletes(Remaining(gp), r);
    RemovalSplit(gp);
    CountOnce(gp.remove, r);
    assert forall i :: 0 <= i < |Adds(gp.add)| ==> Adds(gp.add)[i] != Delete(r);
    assert Delete(r) !in Adds(gp.add);
    assert r in gp.remove <==> r in SetOf(gp.remove);
  }

  // ---- why the premises are there ----

  /** A foreign route in a desired slot blocks it: with everything else in place, a group's desired
      routes are all installed exactly when no foreign route occupies one of their slots. */
  lemma ForeignBlocksExactly(gp: RoutePlan, goal: Goal, routes: set<Route>)
    requires KernelState(routes) && Consistent(goal) && IsPlan(gp, goal, routes)
    ensures goal.desired <= Run(routes, Ops([gp])) <==> NoForeign(goal, routes)
  {
    if NoForeign(goal, routes) {
      Converges([gp], [goal], routes);
    } else {
      var r, f :| r in goal.desired && f in routes && SlotOf(f) == SlotOf(r) && !InScope(f, goal.scope);
      forall i | 0 <= i < |Ops([gp])| ensures Installed(Ops([gp])[i].route) != f {
        var op := Ops([gp])[i];
        OpsMembers([gp], op);
        assert Mentions(gp, op);
        assert op.route in SetOf(gp.add) || op.route in SetOf(gp.remove);
      }
      Untouched(routes, Ops([gp]), f);
      RunKeepsSlots(routes, Ops([gp]));
    }
  }

  lemma {:induction false} RunOnlyDeletes(routes: set<Route>, ops: seq<Op>)
    requires forall op :: op in ops ==> op.Delete? && Installed(op.route) == op.route
    ensures Run(routes, ops) == routes - set op | op in ops :: op.route
  {
    if ops != [] {
      assert ops == ops[..|ops| - 1] + [ops[|ops| - 1]];
      RunOnlyDeletes(routes, ops[..|ops| - 1]);
    }
  }
}
