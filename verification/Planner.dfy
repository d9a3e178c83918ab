/** planner.Build: the desired routes and rule of a group, and their difference to the kernel. */
module Planner {
  import opened Wrappers
  import opened Prefixes
  import opened Sequences
  import opened Config
  import opened Health
  import opened Rtnl
  import opened Keys
  import opened RouteReconcile
  import opened RouteConvergence

  datatype InputGroup = InputGroup(
    config: RouteGroup, prefixes: seq<Prefix>, throws: seq<Prefix>, locals: seq<Addr>,
    linkIndex: int, defaultLinkIndex: int, targetHops: seq<Hop>, defaultHops: seq<Hop>,
    currentRoutes: seq<Route>, currentRules: seq<Rule>)

  // ---- what a group wants ----

  /** A source prefix of the group's families that contains no excluded local address. */
  ghost predicate Survives(g: InputGroup, p: Prefix) {
    p in g.prefixes && p.fam in Families(g.config.target.family) && forall a :: a in g.locals ==> !Contains(p, a)
  }

  ghost predicate Thrown(g: InputGroup, p: Prefix) {
    p in g.throws && p.fam in Families(g.config.target.family)
  }

  function DefaultFamilies(name: FamilyName): set<Family> {
    match name
    case IPv4 => {V4}
    case IPv6 => {V6}
    case _ => {V4, V6}
  }

  predicate Defaulted(g: InputGroup, p: Prefix) {
    g.config.target.default.Some? && p.fam in DefaultFamilies(g.config.target.family) && p == Prefix(p.fam, 0, 0)
  }

  function AddrOf(t: AddrText): Addr {
    if t.AddrText? then t.addr else NoAddr
  }

  function NextHopVia(h: NextHop, f: Family): Addr {
    if f == V4 && h.via4 != NoText then AddrOf(h.via4)
    else if f == V6 && h.via6 != NoText then AddrOf(h.via6)
    else if h.via == NoText then NoAddr
    else if AddrOf(h.via).IP? && AddrOf(h.via).fam == f then AddrOf(h.via)
    else NoAddr
  }

  predicate HopServes(h: Hop, f: Family) {
    Serves(h.via, f)
  }

  ghost predicate HasHops(hops: seq<Hop>, f: Family) {
    exists h :: h in hops && HopServes(h, f)
  }

  function HopRoute(protocol: int, table: int, h: Hop, p: Prefix): Route {
    Route(table, protocol, Unicast, h.linkIndex, h.via, h.onLink, h.metric, p)
  }

  function PlainRoute(protocol: int, table: int, next: NextHop, link: int, p: Prefix): Route {
    Route(table, protocol, Unicast, link, NextHopVia(next, p.fam), next.onLink, 0, p)
  }

  function ThrowRoute(protocol: int, table: int, p: Prefix): Route {
    Route(table, protocol, Throw, 0, NoAddr, false, 0, p)
  }

  /** One route per hop of the destination's family, or the plain next hop when there is none. */
  ghost predicate Forwards(r: Route, protocol: int, table: int, next: NextHop, link: int, hops: seq<Hop>) {
    if HasHops(hops, r.dst.fam)
    then exists h :: h in hops && HopServes(h, r.dst.fam) && r == HopRoute(protocol, table, h, r.dst)
    else r == PlainRoute(protocol, table, next, link, r.dst)
  }

  ghost predicate ToTarget(protocol: int, g: InputGroup, r: Route) {
    Survives(g, r.dst) &&
    Forwards(r, protocol, g.config.target.table, g.config.target.hop, g.linkIndex, g.targetHops)
  }

  ghost predicate ToThrow(protocol: int, g: InputGroup, r: Route) {
    Thrown(g, r.dst) && r == ThrowRoute(protocol, g.config.target.table, r.dst)
  }

  ghost predicate ToDefault(protocol: int, g: InputGroup, r: Route) {
    Defaulted(g, r.dst) &&
    Forwards(r, protocol, g.config.target.table, g.config.target.default.value, g.defaultLinkIndex, g.defaultHops)
  }

  ghost predicate IsDesired(protocol: int, g: InputGroup, r: Route) {
    ToTarget(protocol, g, r) || ToThrow(protocol, g, r) || ToDefault(protocol, g, r)
  }

  const ROOTS := {Prefix(V4, 0, 0), Prefix(V6, 0, 0)}

  ghost function RoutesThrough(protocol: int, table: int, next: NextHop, link: int, hops: seq<Hop>,
                               ps: set<Prefix>): set<Route> {
    (set p | p in ps && !HasHops(hops, p.fam) :: PlainRoute(protocol, table, next, link, p)) +
    (set p, h | p in ps && h in hops && HopServes(h, p.fam) :: HopRoute(protocol, table, h, p))
  }

  /** All desired routes of a group. */
  ghost function DesiredSet(protocol: int, g: InputGroup): set<Route> {
    var t := g.config.target;
    RoutesThrough(protocol, t.table, t.hop, g.linkIndex, g.targetHops, set p | p in g.prefixes && Survives(g, p)) +
    (set p | p in g.throws && Thrown(g, p) :: ThrowRoute(protocol, t.table, p)) +
    if t.default.None? then {}
    else RoutesThrough(protocol, t.table, t.default.value, g.defaultLinkIndex, g.defaultHops,
                       set p | p in ROOTS && Defaulted(g, p))
  }

  lemma RoutesThroughMembers(protocol: int, table: int, next: NextHop, link: int, hops: seq<Hop>, ps: set<Prefix>)
    ensures forall r :: r in RoutesThrough(protocol, table, next, link, hops, ps) <==>
              r.dst in ps && Forwards(r, protocol, table, next, link, hops)
  {
  }

  lemma DesiredMembers(protocol: int, g: InputGroup)
    ensures forall r :: r in DesiredSet(protocol, g) <==> IsDesired(protocol, g, r)
  {
    var t := g.config.target;
    RoutesThroughMembers(protocol, t.table, t.hop, g.linkIndex, g.targetHops,
                         set p | p in g.prefixes && Survives(g, p));
    if t.default.Some? {
      RoutesThroughMembers(protocol, t.table, t.default.value, g.defaultLinkIndex, g.defaultHops,
                           set p | p in ROOTS && Defaulted(g, p));
      assert forall p :: Defaulted(g, p) ==> p in ROOTS;
    }
  }

  function ScopeOf(protocol: int, c: RouteGroup): Scope {
    Scope(c.target.table, protocol, Families(c.target.family))
  }

  ghost function GoalOf(protocol: int, g: InputGroup): Goal {
    Goal(ScopeOf(protocol, g.config), DesiredSet(protocol, g))
  }

  function DesiredRules(c: RouteGroup): seq<Rule> {
    if !c.rule.enabled then []
    else [Rule(c.rule.priority, c.rule.table, c.rule.mask != 0, c.rule.fwMark, c.rule.mask,
               if c.rule.from.PrefixText? then c.rule.from.prefix else NO_PREFIX)]
  }

  datatype GroupPlan = GroupPlan(
    prefixCount: nat, currentRouteCount: nat, currentRuleCount: nat,
    routes: RoutePlan, rulesToAdd: seq<Rule>, rulesToRemove: seq<Rule>)

  /** What Build promises of one group, whatever order the diffs came out in. */
  ghost predicate PlanFor(gp: GroupPlan, protocol: int, g: InputGroup) {
    && gp.routes.table == g.config.target.table
    && NoRepeats(gp.routes.add) && SetOf(gp.routes.add) == DesiredSet(protocol, g) - SetOf(g.currentRoutes)
    && NoRepeats(gp.routes.remove) && SetOf(gp.routes.remove) == SetOf(g.currentRoutes) - DesiredSet(protocol, g)
    && (forall r :: r in gp.rulesToAdd <==> r in DesiredRules(g.config) && r !in g.currentRules)
    && (forall r :: r in gp.rulesToRemove <==> r in g.currentRules && r !in DesiredRules(g.config))
    && gp.currentRouteCount == |g.currentRoutes| && gp.currentRuleCount == |g.currentRules|
    && (NoRepeats(g.prefixes) ==> gp.prefixCount == |set p | p in g.prefixes && Survives(g, p)|)
  }

  // ---- the loops that compute it ----

  function OfFamilies(name: FamilyName): Prefix -> bool {
    (p: Prefix) => p.fam in Families(name)
  }

  function AddrKept(name: FamilyName): Addr -> bool {
    (a: Addr) => name in {Unset, Dual} || (a.IP? && a.fam in Families(name))
  }

  function Avoids(addrs: seq<Addr>): Prefix -> bool {
    p => forall a :: a in addrs ==> !Contains(p, a)
  }

  function Serving(f: Family): Hop -> bool {
    h => HopServes(h, f)
  }

  method FilterFamily(ps: seq<Prefix>, name: FamilyName) returns (out: seq<Prefix>)
    ensures out == Filter(ps, OfFamilies(name))
  {
    if name == Unset || name == Dual {
      assert forall p: Prefix :: p.fam == V4 || p.fam == V6;
      FilterAll(ps, OfFamilies(name));
      return ps;
    }
    out := [];
    for i := 0 to |ps|
      invariant out == Filter(ps[..i], OfFamilies(name))
    {
      FilterStep(ps, i, OfFamilies(name));
      if name == IPv4 && ps[i].fam == V4 { out := out + [ps[i]]; }
      if name == IPv6 && ps[i].fam == V6 { out := out + [ps[i]]; }
    }
    assert ps[..|ps|] == ps;
  }

  method FilterAddrsByFamily(addrs: seq<Addr>, name: FamilyName) returns (out: seq<Addr>)
    ensures out == Filter(addrs, AddrKept(name))
  {
    if name == Unset || name == Dual {
      FilterAll(addrs, AddrKept(name));
      return addrs;
    }
    out := [];
    for i := 0 to |addrs|
      invariant out == Filter(addrs[..i], AddrKept(name))
    {
      FilterStep(addrs, i, AddrKept(name));
      if name == IPv4 && addrs[i].IP? && addrs[i].fam == V4 { out := out + [addrs[i]]; }
      if name == IPv6 && addrs[i].IP? && addrs[i].fam == V6 { out := out + [addrs[i]]; }
    }
    assert addrs[..|addrs|] == addrs;
  }

  method RemovePrefixesCoveringAddrs(ps: seq<Prefix>, addrs: seq<Addr>) returns (out: seq<Prefix>)
    ensures out == Filter(ps, Avoids(addrs))
  {
    if |ps| == 0 || |addrs| == 0 {
      FilterAll(ps, Avoids(addrs));
      return ps;
    }
    out := [];
    for i := 0 to |ps|
      invariant out == Filter(ps[..i], Avoids(addrs))
    {
      FilterStep(ps, i, Avoids(addrs));
      var covered := false;
      for j := 0 to |addrs|
        invariant !covered && forall k :: 0 <= k < j ==> !Contains(ps[i], addrs[k])
      {
        if Contains(ps[i], addrs[j]) {
          covered := true;
          break;
        }
      }
      if !covered { out := out + [ps[i]]; }
    }
    assert ps[..|ps|] == ps;
  }

  method MatchingHops(hops: seq<Hop>, f: Family) returns (out: seq<Hop>)
    ensures out == Filter(hops, Serving(f))
  {
    out := [];
    for i := 0 to |hops|
      invariant out == Filter(hops[..i], Serving(f))
    {
      FilterStep(hops, i, Serving(f));
      if HopServes(hops[i], f) { out := out + [hops[i]]; }
    }
    assert hops[..|hops|] == hops;
  }

  /** The routes of one destination. */
  method RoutesFor(protocol: int, table: int, next: NextHop, link: int, hops: seq<Hop>, p: Prefix)
    returns (out: seq<Route>)
    ensures forall r :: r in out <==> r.dst == p && Forwards(r, protocol, table, next, link, hops)
  {
    var matching := MatchingHops(hops, p.fam);
    FilterMembers(hops, Serving(p.fam));
    if |matching| == 0 {
      assert !HasHops(hops, p.fam);
      return [PlainRoute(protocol, table, next, link, p)];
    }
    assert matching[0] in matching;
    out := [];
    for i := 0 to |matching|
      invariant forall r :: r in out <==> exists h :: h in matching[..i] && r == HopRoute(protocol, table, h, p)
    {
      assert matching[..i + 1] == matching[..i] + [matching[i]];
      out := out + [HopRoute(protocol, table, matching[i], p)];
    }
    assert matching[..|matching|] == matching;
  }

  method DesiredRoutes(protocol: int, g: InputGroup, prefixes: seq<Prefix>) returns (out: seq<Route>)
    requires forall p :: p in prefixes <==> Survives(g, p)
    ensures forall r :: r in out <==> IsDesired(protocol, g, r)
  {
    var t := g.config.target;
    var sources: seq<Route> := [];
    for i := 0 to |prefixes|
      invariant forall r :: r in sources <==>
                  r.dst in prefixes[..i] && Forwards(r, protocol, t.table, t.hop, g.linkIndex, g.targetHops)
    {
      assert prefixes[..i + 1] == prefixes[..i] + [prefixes[i]];
      var rs := RoutesFor(protocol, t.table, t.hop, g.linkIndex, g.targetHops, prefixes[i]);
      sources := sources + rs;
    }
    assert prefixes[..|prefixes|] == prefixes;
    var excluded := FilterFamily(g.throws, t.family);
    FilterMembers(g.throws, OfFamilies(t.family));
    var throws: seq<Route> := [];
    for i := 0 to |excluded|
      invariant forall r :: r in throws <==> r.dst in excluded[..i] && r == ThrowRoute(protocol, t.table, r.dst)
    {
      assert excluded[..i + 1] == excluded[..i] + [excluded[i]];
      throws := throws + [ThrowRoute(protocol, t.table, excluded[i])];
    }
    assert excluded[..|excluded|] == excluded;
    var defaults := DefaultRoutes(protocol, g);
    out := sources + throws + defaults;
  }

  method DefaultRoutes(protocol: int, g: InputGroup) returns (out: seq<Route>)
    ensures forall r :: r in out <==> ToDefault(protocol, g, r)
  {
    out := [];
    if g.config.target.default == None { return; }
    var next := g.config.target.default.value;
    var ps := match g.config.target.family
      case IPv4 => [Prefix(V4, 0, 0)]
      case IPv6 => [Prefix(V6, 0, 0)]
      case _ => [Prefix(V4, 0, 0), Prefix(V6, 0, 0)];
    assert forall p :: p in ps <==> Defaulted(g, p);
    for i := 0 to |ps|
      invariant forall r :: r in out <==>
                  r.dst in ps[..i] &&
                  Forwards(r, protocol, g.config.target.table, next, g.defaultLinkIndex, g.defaultHops)
    {
      assert ps[..i + 1] == ps[..i] + [ps[i]];
      var rs := RoutesFor(protocol, g.config.target.table, next, g.defaultLinkIndex, g.defaultHops, ps[i]);
      out := out + rs;
    }
    assert ps[..|ps|] == ps;
  }

  // ---- differences ----

  /** The entries of one keyed map that the other lacks, in the arbitrary order of a Go map walk. */
  method Missing<T(==)>(from: map<string, T>, other: map<string, T>) returns (out: seq<T>)
    requires forall k, l :: k in from && l in from && k != l ==> from[k] != from[l]
    ensures NoRepeats(out)
    ensures forall x :: x in out <==> exists k :: k in from && k !in other && from[k] == x
  {
    var rest := set k | k in from && k !in other;
    ghost var all := rest;
    out := [];
    while rest != {}
      invariant rest <= all && NoRepeats(out)
      invariant forall x :: x in out <==> exists k :: k in all && k !in rest && from[k] == x
    {
      var k :| k in rest;
      assert from[k] !in out;
      out := out + [from[k]];
      rest := rest - {k};
      forall x ensures x in out <==> exists l :: l in all && l !in rest && from[l] == x {
      }
    }
  }

  method KeyedRoutes(pr: Printer, rs: seq<Route>) returns (m: map<string, Route>)
    requires Faithful(pr)
    ensures forall r :: RouteKey(pr, r) in m <==> r in rs
    ensures forall k :: k in m ==> RouteKey(pr, m[k]) == k
  {
    m := map[];
    for i := 0 to |rs|
      invariant forall r :: RouteKey(pr, r) in m <==> r in rs[..i]
      invariant forall k :: k in m ==> RouteKey(pr, m[k]) == k
    {
      assert rs[..i + 1] == rs[..i] + [rs[i]];
      forall r ensures RouteKey(pr, r) == RouteKey(pr, rs[i]) <==> r == rs[i] {
        RouteKeyExact(pr, r, rs[i]);
      }
      m := m[RouteKey(pr, rs[i]) := rs[i]];
    }
    assert rs[..|rs|] == rs;
  }

  method DiffRoutes(pr: Printer, desired: seq<Route>, current: seq<Route>) returns (add: seq<Route>, remove: seq<Route>)
    requires Faithful(pr)
    ensures NoRepeats(add) && SetOf(add) == SetOf(desired) - SetOf(current)
    ensures NoRepeats(remove) && SetOf(remove) == SetOf(current) - SetOf(desired)
  {
    var dm := KeyedRoutes(pr, desired);
    var cm := KeyedRoutes(pr, current);
    add := Missing(dm, cm);
    remove := Missing(cm, dm);
    MissingRoutes(pr, dm, desired, cm, current, add);
    MissingRoutes(pr, cm, current, dm, desired, remove);
  }

  lemma MissingRoutes(pr: Printer, dm: map<string, Route>, d: seq<Route>, cm: map<string, Route>, c: seq<Route>,
                      out: seq<Route>)
    requires forall r :: RouteKey(pr, r) in dm <==> r in d
    requires forall r :: RouteKey(pr, r) in cm <==> r in c
    requires forall k :: k in dm ==> RouteKey(pr, dm[k]) == k
    requires Faithful(pr)
    requires forall x :: x in out <==> exists k :: k in dm && k !in cm && dm[k] == x
    ensures SetOf(out) == SetOf(d) - SetOf(c)
  {
    forall r ensures r in out <==> r in d && r !in c {
      if r in d && r !in c {
        var k := RouteKey(pr, r);
        RouteKeyExact(pr, dm[k], r);
        assert k in dm && k !in cm && dm[k] == r;
      }
    }
  }

  method KeyedRules(pr: Printer, rs: seq<Rule>) returns (m: map<string, Rule>)
    requires Faithful(pr)
    ensures forall r :: RuleKey(pr, r) in m <==> r in rs
    ensures forall k :: k in m ==> RuleKey(pr, m[k]) == k
  {
    m := map[];
    for i := 0 to |rs|
      invariant forall r :: RuleKey(pr, r) in m <==> r in rs[..i]
      invariant forall k :: k in m ==> RuleKey(pr, m[k]) == k
    {
      assert rs[..i + 1] == rs[..i] + [rs[i]];
      forall r ensures RuleKey(pr, r) == RuleKey(pr, rs[i]) <==> r == rs[i] {
        RuleKeyExact(pr, r, rs[i]);
      }
      m := m[RuleKey(pr, rs[i]) := rs[i]];
    }
    assert rs[..|rs|] == rs;
  }

  method DiffRules(pr: Printer, desired: seq<Rule>, current: seq<Rule>) returns (add: seq<Rule>, remove: seq<Rule>)
    requires Faithful(pr)
    ensures NoRepeats(add) && forall r :: r in add <==> r in desired && r !in current
    ensures NoRepeats(remove) && forall r :: r in remove <==> r in current && r !in desired
  {
    var dm := KeyedRules(pr, desired);
    var cm := KeyedRules(pr, current);
    add := Missing(dm, cm);
    remove := Missing(cm, dm);
    MissingRules(pr, dm, desired, cm, current, add);
    MissingRules(pr, cm, current, dm, desired, remove);
  }

  lemma MissingRules(pr: Printer, dm: map<string, Rule>, d: seq<Rule>, cm: map<string, Rule>, c: seq<Rule>,
                     out: seq<Rule>)
    requires forall r :: RuleKey(pr, r) in dm <==> r in d
    requires forall r :: RuleKey(pr, r) in cm <==> r in c
    requires forall k :: k in dm ==> RuleKey(pr, dm[k]) == k
    requires Faithful(pr)
    requires forall x :: x in out <==> exists k :: k in dm && k !in cm && dm[k] == x
    ensures forall r :: r in out <==> r in d && r !in c
  {
    forall r ensures r in out <==> r in d && r !in c {
      if r in d && r !in c {
        var k := RuleKey(pr, r);
        RuleKeyExact(pr, dm[k], r);
        assert k in dm && k !in cm && dm[k] == r;
      }
    }
  }

  method Build(pr: Printer, protocol: int, groups: seq<InputGroup>) returns (plans: seq<GroupPlan>)
    requires Faithful(pr)
    ensures |plans| == |groups| && forall i :: 0 <= i < |groups| ==> PlanFor(plans[i], protocol, groups[i])
  {
    plans := [];
    for i := 0 to |groups|
      invariant |plans| == i && forall j :: 0 <= j < i ==> PlanFor(plans[j], protocol, groups[j])
    {
      var gp := BuildGroup(pr, protocol, groups[i]);
      plans := plans + [gp];
    }
  }

  /** The source prefixes that are left after both filters, in their order. */
  method SurvivingPrefixes(g: InputGroup) returns (prefixes: seq<Prefix>)
    ensures forall p :: p in prefixes <==> Survives(g, p)
    ensures NoRepeats(g.prefixes) ==> NoRepeats(prefixes)
  {
    var family := DualIfUnset(g.config.target.family);
    assert Families(family) == Families(g.config.target.family);
    var filtered := FilterFamily(g.prefixes, family);
    var addrs := FilterAddrsByFamily(g.locals, family);
    prefixes := RemovePrefixesCoveringAddrs(filtered, addrs);
    FilterMembers(g.prefixes, OfFamilies(family));
    FilterMembers(g.locals, AddrKept(family));
    FilterMembers(filtered, Avoids(addrs));
  }

  method BuildGroup(pr: Printer, protocol: int, g: InputGroup) returns (gp: GroupPlan)
    requires Faithful(pr)
    ensures PlanFor(gp, protocol, g)
  {
    var prefixes := SurvivingPrefixes(g);
    if NoRepeats(g.prefixes) {
      DistinctCount(prefixes);
      assert (set p | p in prefixes) == set p | p in g.prefixes && Survives(g, p);
    }
    var desired := DesiredRoutes(protocol, g, prefixes);
    DesiredMembers(protocol, g);
    assert SetOf(desired) == DesiredSet(protocol, g);
    var add, remove := DiffRoutes(pr, desired, g.currentRoutes);
    var rulesToAdd, rulesToRemove := DiffRules(pr, DesiredRules(g.config), g.currentRules);
    gp := GroupPlan(|prefixes|, |g.currentRoutes|, |g.currentRules|,
                    RoutePlan(g.config.target.table, add, remove), rulesToAdd, rulesToRemove);
  }
}
