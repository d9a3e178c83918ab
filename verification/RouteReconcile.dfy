/** routes.Apply: which kernel calls it makes, in which order, and what every prefix of them keeps. */
module RouteReconcile {
  import opened Prefixes
  import opened Sequences
  import opened Rtnl

  /** The route part of a planner.GroupPlan. */
  datatype RoutePlan = RoutePlan(table: int, add: seq<Route>, remove: seq<Route>)

  function SetOf(rs: seq<Route>): set<Route> {
    set r | r in rs
  }

  /** routeIdentitySet: a route's identity is its destination alone. */
  function Dsts(rs: seq<Route>): set<Prefix> {
    set r | r in rs :: r.dst
  }

  function DstIn(ds: set<Prefix>): Route -> bool {
    (r: Route) => r.dst in ds
  }

  function DstNotIn(ds: set<Prefix>): Route -> bool {
    (r: Route) => r.dst !in ds
  }

  /** conflictingRouteRemovals: what must go first, because its destination is added again. */
  function Conflicting(gp: RoutePlan): seq<Route> {
    Filter(gp.remove, DstIn(Dsts(gp.add)))
  }

  /** The removals the second loop does not skip. */
  function Remaining(gp: RoutePlan): seq<Route> {
    Filter(gp.remove, DstNotIn(Dsts(Conflicting(gp))))
  }

  function Adds(rs: seq<Route>): seq<Op> {
    seq(|rs|, i requires 0 <= i < |rs| => Add(rs[i]))
  }

  function Deletes(rs: seq<Route>): seq<Op> {
    seq(|rs|, i requires 0 <= i < |rs| => Delete(rs[i]))
  }

  function FirstPhase(plans: seq<RoutePlan>): seq<Op> {
    if plans == [] then []
    else
      var gp := plans[|plans| - 1];
      FirstPhase(plans[..|plans| - 1]) + Deletes(Conflicting(gp)) + Adds(gp.add)
  }

  function SecondPhase(plans: seq<RoutePlan>): seq<Op> {
    if plans == [] then []
    else SecondPhase(plans[..|plans| - 1]) + Deletes(Remaining(plans[|plans| - 1]))
  }

  function Ops(plans: seq<RoutePlan>): seq<Op> {
    FirstPhase(plans) + SecondPhase(plans)
  }

  // ---- the method ----

  /** Every call that took effect is the next one of Ops(plans); a failing call stops the run. */
  method Apply(k: Kernel, plans: seq<RoutePlan>) returns (ok: bool, ghost done: seq<Op>)
    requires k.Valid()
    modifies k`routes, k`routeLog, k`failures
    ensures k.Valid() && k.routeLog == old(k.routeLog) + done && k.failures == old(k.failures) + if ok then 0 else 1
    ensures done <= Ops(plans) && (ok ==> done == Ops(plans))
    ensures k.routes == Run(old(k.routes), done)
  {
    ok, done := ReplaceAndAdd(k, plans);
    if ok {
      ok, done := RemoveObsolete(k, plans, old(k.routeLog));
    } else {
      assert FirstPhase(plans) <= Ops(plans);
    }
    RunAppend(k.boot, old(k.routeLog), done);
  }

  method ReplaceAndAdd(k: Kernel, plans: seq<RoutePlan>) returns (ok: bool, ghost done: seq<Op>)
    requires k.Valid()
    modifies k`routes, k`routeLog, k`failures
    ensures k.Valid() && k.routeLog == old(k.routeLog) + done && k.failures == old(k.failures) + if ok then 0 else 1
    ensures done <= FirstPhase(plans) && (ok ==> done == FirstPhase(plans))
  {
    done := [];
    for i := 0 to |plans|
      invariant k.Valid() && k.routeLog == old(k.routeLog) + done && k.failures == old(k.failures)
      invariant done == FirstPhase(plans[..i])
    {
      FirstPhaseAt(plans, i);
      var preRemove := ConflictingRouteRemovals(plans[i]);
      ok, done := DeleteAll(k, preRemove, old(k.routeLog), done, FirstPhase(plans));
      if !ok { return; }
      ok, done := AddAll(k, plans[i].add, old(k.routeLog), done, FirstPhase(plans));
      if !ok { return; }
    }
    assert plans[..|plans|] == plans;
    ok := true;
  }

  method RemoveObsolete(k: Kernel, plans: seq<RoutePlan>, ghost base: seq<Op>) returns (ok: bool, ghost done: seq<Op>)
    requires k.Valid() && k.routeLog == base + FirstPhase(plans)
    modifies k`routes, k`routeLog, k`failures
    ensures k.Valid() && k.routeLog == base + done && k.failures == old(k.failures) + if ok then 0 else 1
    ensures done <= Ops(plans) && (ok ==> done == Ops(plans))
  {
    done := FirstPhase(plans);
    for i := 0 to |plans|
      invariant k.Valid() && k.routeLog == base + done && k.failures == old(k.failures)
      invariant done == FirstPhase(plans) + SecondPhase(plans[..i])
    {
      SecondPhaseAt(plans, i);
      var rest := NotPreRemoved(plans[i]);
      ok, done := DeleteAll(k, rest, base, done, Ops(plans));
      if !ok { return; }
    }
    assert plans[..|plans|] == plans;
    ok := true;
  }

  /** The second loop's skip of what the first loop already deleted. */
  method NotPreRemoved(gp: RoutePlan) returns (rest: seq<Route>)
    ensures rest == Remaining(gp)
  {
    var conflicting := ConflictingRouteRemovals(gp);
    var preRemoved := RouteIdentitySet(conflicting);
    rest := [];
    for j := 0 to |gp.remove|
      invariant rest == Filter(gp.remove[..j], DstNotIn(preRemoved))
    {
      FilterStep(gp.remove, j, DstNotIn(preRemoved));
      if gp.remove[j].dst !in preRemoved {
        rest := rest + [gp.remove[j]];
      }
    }
    assert gp.remove[..|gp.remove|] == gp.remove;
  }

  method RouteIdentitySet(rs: seq<Route>) returns (out: set<Prefix>)
    ensures out == Dsts(rs)
  {
    out := {};
    for i := 0 to |rs|
      invariant out == Dsts(rs[..i])
    {
      assert rs[..i + 1] == rs[..i] + [rs[i]];
      out := out + {rs[i].dst};
    }
    assert rs[..|rs|] == rs;
  }

  method ConflictingRouteRemovals(gp: RoutePlan) returns (out: seq<Route>)
    ensures out == Conflicting(gp)
  {
    var adds := RouteIdentitySet(gp.add);
    out := [];
    for i := 0 to |gp.remove|
      invariant out == Filter(gp.remove[..i], DstIn(adds))
    {
      FilterStep(gp.remove, i, DstIn(adds));
      if gp.remove[i].dst in adds {
        out := out + [gp.remove[i]];
      }
    }
    assert gp.remove[..|gp.remove|] == gp.remove;
  }

  method DeleteAll(k: Kernel, rs: seq<Route>, ghost base: seq<Op>, ghost before: seq<Op>, ghost all: seq<Op>)
    returns (ok: bool, ghost done: seq<Op>)
    requires k.Valid() && k.routeLog == base + before && before + Deletes(rs) <= all
    modifies k`routes, k`routeLog, k`failures
    ensures k.Valid() && k.routeLog == base + done && k.failures == old(k.failures) + if ok then 0 else 1
    ensures done <= all && (ok ==> done == before + Deletes(rs))
  {
    done := before;
    for i := 0 to |rs|
      invariant k.Valid() && k.routeLog == base + done && k.failures == old(k.failures)
      invariant done == before + Deletes(rs)[..i]
    {
      OneMore(base, before, Deletes(rs), i, all);
      ok := k.DeleteRoute(rs[i]);
      if !ok { return; }
      done := done + [Delete(rs[i])];
    }
    assert Deletes(rs)[..|rs|] == Deletes(rs);
    ok := true;
  }

  method AddAll(k: Kernel, rs: seq<Route>, ghost base: seq<Op>, ghost before: seq<Op>, ghost all: seq<Op>)
    returns (ok: bool, ghost done: seq<Op>)
    requires k.Valid() && k.routeLog == base + before && before + Adds(rs) <= all
    modifies k`routes, k`routeLog, k`failures
    ensures k.Valid() && k.routeLog == base + done && k.failures == old(k.failures) + if ok then 0 else 1
    ensures done <= all && (ok ==> done == before + Adds(rs))
  {
    done := before;
    for i := 0 to |rs|
      invariant k.Valid() && k.routeLog == base + done && k.failures == old(k.failures)
      invariant done == before + Adds(rs)[..i]
    {
      OneMore(base, before, Adds(rs), i, all);
      ok := k.AddRoute(rs[i]);
      if !ok { return; }
      done := done + [Add(rs[i])];
    }
    assert Adds(rs)[..|rs|] == Adds(rs);
    ok := true;
  }

  lemma FirstPhaseAt(plans: seq<RoutePlan>, i: nat)
    requires i < |plans|
    ensures FirstPhase(plans[..i + 1]) == FirstPhase(plans[..i]) + Deletes(Conflicting(plans[i])) + Adds(plans[i].add)
    ensures FirstPhase(plans[..i]) + Deletes(Conflicting(plans[i])) <= FirstPhase(plans)
    ensures FirstPhase(plans[..i + 1]) <= FirstPhase(plans)
  {
    assert plans[..i + 1][..i] == plans[..i];
    FirstPhasePrefix(plans, i + 1);
  }

  lemma {:induction false} FirstPhasePrefix(plans: seq<RoutePlan>, i: nat)
    requires i <= |plans|
    ensures FirstPhase(plans[..i]) <= FirstPhase(plans)
  {
    if i == |plans| {
      assert plans[..i] == plans;
    } else {
      FirstPhasePrefix(plans[..|plans| - 1], i);
      assert plans[..|plans| - 1][..i] == plans[..i];
    }
  }

  lemma SecondPhaseAt(plans: seq<RoutePlan>, i: nat)
    requires i < |plans|
    ensures SecondPhase(plans[..i + 1]) == SecondPhase(plans[..i]) + Deletes(Remaining(plans[i]))
    ensures FirstPhase(plans) + SecondPhase(plans[..i]) + Deletes(Remaining(plans[i])) <= Ops(plans)
    ensures FirstPhase(plans) + SecondPhase(plans[..i + 1]) ==
            FirstPhase(plans) + SecondPhase(plans[..i]) + Deletes(Remaining(plans[i]))
  {
    assert plans[..i + 1][..i] == plans[..i];
    SecondPhasePrefix(plans, i + 1);
    AfterCommonStart(FirstPhase(plans), SecondPhase(plans[..i]), Deletes(Remaining(plans[i])), SecondPhase(plans));
  }

  lemma AfterCommonStart(a: seq<Op>, b: seq<Op>, c: seq<Op>, d: seq<Op>)
    requires b + c <= d
    ensures a + b + c == a + (b + c) <= a + d
  {
  }

  lemma {:induction false} SecondPhasePrefix(plans: seq<RoutePlan>, i: nat)
    requires i <= |plans|
    ensures SecondPhase(plans[..i]) <= SecondPhase(plans)
  {
    if i == |plans| {
      assert plans[..i] == plans;
    } else {
      SecondPhasePrefix(plans[..|plans| - 1], i);
      assert plans[..|plans| - 1][..i] == plans[..i];
    }
  }
}
