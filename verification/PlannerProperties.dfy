/** What the planned routes of a group are good for. */
module PlannerProperties {
  import opened Wrappers
  import opened Prefixes
  import opened Sequences
  import opened Config
  import opened Health
  import opened Gateways
  import opened Rtnl
  import opened RouteReconcile
  import opened RouteConvergence
  import opened Planner

  // ---- one slot each ----

  /** Hops of one family never share a metric, and none uses the plain route's metric 0. */
  ghost predicate MetricsApart(hops: seq<Hop>) {
    forall h, h' :: h in hops && h' in hops ==>
      && h.metric >= METRIC_BASE
      && (h.metric == h'.metric && h.via.IP? && h'.via.IP? && h.via.fam == h'.via.fam ==> h == h')
  }

  lemma ResolvedMetricsApart(hops: seq<Hop>, v4: seq<Hop>, v6: seq<Hop>, name: FamilyName, cs: seq<Candidate>,
                             links: map<string, int>, ping4: Pinger, flags4: seq<bool>,
                             ping6: Pinger, flags6: seq<bool>)
    requires hops == v4 + v6
    requires ResolvedFor(v4, name, V4, cs, links, ping4, flags4) && ResolvedFor(v6, name, V6, cs, links, ping6, flags6)
    ensures MetricsApart(hops)
  {
    SelectedFamily(v4, name, V4, cs, links, ping4, flags4);
    SelectedFamily(v6, name, V6, cs, links, ping6, flags6);
    PartsApart(v4, v6);
  }

  lemma PartsApart(v4: seq<Hop>, v6: seq<Hop>)
    requires StrictMetrics(v4) && StrictMetrics(v6)
    requires forall a :: 0 <= a < |v4| ==> HopServes(v4[a], V4)
    requires forall a :: 0 <= a < |v6| ==> HopServes(v6[a], V6)
    ensures MetricsApart(v4 + v6)
  {
  }

  lemma ForwardsMetric(r: Route, protocol: int, table: int, next: NextHop, link: int, hops: seq<Hop>)
    requires Forwards(r, protocol, table, next, link, hops) && MetricsApart(hops)
    ensures r.kind == Unicast && r.table == table && r.protocol == protocol
    ensures HasHops(hops, r.dst.fam) ==> r.metric >= METRIC_BASE
    ensures !HasHops(hops, r.dst.fam) ==> r.metric == 0
  {
  }

  lemma ForwardsOnce(r: Route, r': Route, protocol: int, table: int, next: NextHop, link: int, hops: seq<Hop>)
    requires Forwards(r, protocol, table, next, link, hops) && Forwards(r', protocol, table, next, link, hops)
    requires MetricsApart(hops) && SlotOf(r) == SlotOf(r')
    ensures r == r'
  {
  }

  /** With no /0 among the sources of a group with a default, desired routes have slots of their own
      exactly when no throw prefix meets a source or default destination that has no hops. */
  lemma SlotsDistinctExactly(protocol: int, g: InputGroup)
    requires MetricsApart(g.targetHops) && MetricsApart(g.defaultHops)
    requires forall p :: Survives(g, p) ==> !Defaulted(g, p)
    ensures SlotsDistinct(DesiredSet(protocol, g)) <==>
              && (forall p :: Survives(g, p) && Thrown(g, p) ==> HasHops(g.targetHops, p.fam))
              && (forall p :: Defaulted(g, p) && Thrown(g, p) ==> HasHops(g.defaultHops, p.fam))
  {
    DesiredMembers(protocol, g);
    var d, t := DesiredSet(protocol, g), g.config.target;
    if SlotsDistinct(d) {
      forall p | Survives(g, p) && Thrown(g, p) ensures HasHops(g.targetHops, p.fam) {
        var plain, throw := PlainRoute(protocol, t.table, t.hop, g.linkIndex, p), ThrowRoute(protocol, t.table, p);
        assert ToThrow(protocol, g, throw) && SlotOf(plain) == SlotOf(throw);
        assert !HasHops(g.targetHops, p.fam) ==> ToTarget(protocol, g, plain);
      }
      forall p | Defaulted(g, p) && Thrown(g, p) ensures HasHops(g.defaultHops, p.fam) {
        var plain := PlainRoute(protocol, t.table, t.default.value, g.defaultLinkIndex, p);
        var throw := ThrowRoute(protocol, t.table, p);
        assert ToThrow(protocol, g, throw) && SlotOf(plain) == SlotOf(throw);
        assert !HasHops(g.defaultHops, p.fam) ==> ToDefault(protocol, g, plain);
      }
    } else if
      && (forall p :: Survives(g, p) && Thrown(g, p) ==> HasHops(g.targetHops, p.fam))
      && (forall p :: Defaulted(g, p) && Thrown(g, p) ==> HasHops(g.defaultHops, p.fam))
    {
      forall r, r' | r in d && r' in d && SlotOf(r) == SlotOf(r') ensures r == r' {
        SameSlotSameRoute(protocol, g, r, r');
      }
    }
  }

  lemma SameSlotSameRoute(protocol: int, g: InputGroup, r: Route, r': Route)
    requires MetricsApart(g.targetHops) && MetricsApart(g.defaultHops)
    requires forall p :: Survives(g, p) ==> !Defaulted(g, p)
    requires forall p :: Survives(g, p) && Thrown(g, p) ==> HasHops(g.targetHops, p.fam)
    requires forall p :: Defaulted(g, p) && Thrown(g, p) ==> HasHops(g.defaultHops, p.fam)
    requires IsDesired(protocol, g, r) && IsDesired(protocol, g, r') && SlotOf(r) == SlotOf(r')
    ensures r == r'
  {
    var t := g.config.target;
    forall q | q == r || q == r'
      ensures ToTarget(protocol, g, q) || ToDefault(protocol, g, q) ==>
                q.kind == Unicast && (Thrown(g, q.dst) ==> q.metric > 0)
    {
      if ToTarget(protocol, g, q) {
        ForwardsMetric(q, protocol, t.table, t.hop, g.linkIndex, g.targetHops);
      } else if ToDefault(protocol, g, q) {
        ForwardsMetric(q, protocol, t.table, t.default.value, g.defaultLinkIndex, g.defaultHops);
      }
    }
    if ToTarget(protocol, g, r) && ToTarget(protocol, g, r') {
      ForwardsOnce(r, r', protocol, t.table, t.hop, g.linkIndex, g.targetHops);
    } else if ToDefault(protocol, g, r) && ToDefault(protocol, g, r') {
      ForwardsOnce(r, r', protocol, t.table, t.default.value, g.defaultLinkIndex, g.defaultHops);
    }
  }

  // ---- the premises of convergence ----

  /** Desired routes stay inside what CurrentOwned lists, except the defaults of an unknown family. */
  lemma DesiredInScopeExactly(protocol: int, g: InputGroup)
    ensures (forall r :: r in DesiredSet(protocol, g) ==> InScope(r, ScopeOf(protocol, g.config))) <==>
            !(g.config.target.family.OtherFamily? && g.config.target.default.Some?)
  {
    DesiredMembers(protocol, g);
    var t := g.config.target;
    if t.family.OtherFamily? && t.default.Some? {
      var p := Prefix(V4, 0, 0);
      var r := if HasHops(g.defaultHops, V4)
               then var h :| h in g.defaultHops && HopServes(h, V4); HopRoute(protocol, t.table, h, p)
               else PlainRoute(protocol, t.table, t.default.value, g.defaultLinkIndex, p);
      assert ToDefault(protocol, g, r);
      assert r in DesiredSet(protocol, g) && !InScope(r, ScopeOf(protocol, g.config));
    } else {
      forall r | IsDesired(protocol, g, r) ensures InScope(r, ScopeOf(protocol, g.config)) {
        assert t.default.Some? ==> DefaultFamilies(t.family) == Families(t.family);
      }
    }
  }

  ghost predicate BlocksOnly(g: InputGroup) {
    (forall p :: p in g.prefixes ==> IsBlock(p)) && (forall p :: p in g.throws ==> IsBlock(p))
  }

  lemma RootIsBlock(f: Family)
    ensures IsBlock(Prefix(f, 0, 0))
  {
  }

  lemma DesiredInstalled(protocol: int, g: InputGroup)
    requires BlocksOnly(g)
    ensures AllInstalled(DesiredSet(protocol, g))
  {
    DesiredMembers(protocol, g);
    RootIsBlock(V4);
    RootIsBlock(V6);
    forall r | r in DesiredSet(protocol, g) ensures Installed(r) == r {
      DesiredRouteInstalled(protocol, g, r);
    }
  }

  lemma DesiredRouteInstalled(protocol: int, g: InputGroup, r: Route)
    requires BlocksOnly(g) && IsDesired(protocol, g, r)
    requires IsBlock(Prefix(V4, 0, 0)) && IsBlock(Prefix(V6, 0, 0))
    ensures Installed(r) == r
  {
    BlockStaysMasked(r.dst);
    assert r.kind == Throw ==> r == ThrowRoute(r.protocol, r.table, r.dst);
  }

  lemma BlockStaysMasked(p: Prefix)
    ensures IsBlock(p) ==> MaskedOrSame(p) == p
  {
  }

  /** Everything the convergence theorem asks of a group's goal. */
  lemma GoalConsistent(protocol: int, g: InputGroup)
    requires BlocksOnly(g) && !g.config.target.family.OtherFamily?
    requires MetricsApart(g.targetHops) && MetricsApart(g.defaultHops)
    requires forall p :: Survives(g, p) ==> !Defaulted(g, p)
    requires forall p :: Survives(g, p) && Thrown(g, p) ==> HasHops(g.targetHops, p.fam)
    requires forall p :: Defaulted(g, p) && Thrown(g, p) ==> HasHops(g.defaultHops, p.fam)
    ensures Consistent(GoalOf(protocol, g))
  {
    SlotsDistinctExactly(protocol, g);
    DesiredInScopeExactly(protocol, g);
    DesiredInstalled(protocol, g);
  }

  /** Build's plan against a full listing is a plan in the sense of the convergence theorem. */
  lemma ListedPlan(gp: GroupPlan, protocol: int, g: InputGroup, routes: set<Route>)
    requires PlanFor(gp, protocol, g) && SetOf(g.currentRoutes) == Owned(routes, ScopeOf(protocol, g.config))
    ensures IsPlan(gp.routes, GoalOf(protocol, g), routes)
  {
  }

  // ---- fixpoint and gauge ----

  /** Listing the kernel after an error-free reconcile and planning again finds nothing to do. */
  lemma PlanFixpoint(plans: seq<RoutePlan>, goals: seq<Goal>, routes: set<Route>, i: nat,
                     protocol: int, g: InputGroup, again: GroupPlan)
    requires PlannedBeside(plans, goals, routes, i) && goals[i] == GoalOf(protocol, g)
    requires SetOf(g.currentRoutes) == Owned(Run(routes, Ops(plans)), ScopeOf(protocol, g.config))
    requires PlanFor(again, protocol, g)
    ensures again.routes.add == [] && again.routes.remove == []
  {
    GroupConverges(plans, goals, routes, i);
    DistinctCount(again.routes.add);
    DistinctCount(again.routes.remove);
  }

  /** The published managed_routes gauge is the number of distinct desired routes. */
  lemma GaugeIsExact(gp: GroupPlan, protocol: int, g: InputGroup)
    requires PlanFor(gp, protocol, g) && NoRepeats(g.currentRoutes)
    ensures gp.currentRouteCount + |gp.routes.add| - |gp.routes.remove| == |DesiredSet(protocol, g)|
  {
    var d, c := DesiredSet(protocol, g), SetOf(g.currentRoutes);
    DistinctCount(g.currentRoutes);
    DistinctCount(gp.routes.add);
    DistinctCount(gp.routes.remove);
    DifferenceCounts(d, c);
  }

  lemma DifferenceCounts(d: set<Route>, c: set<Route>)
    ensures |c| + |d - c| - |c - d| == |d|
  {
    assert d == (d - c) + (d * c) && c == (c - d) + (d * c);
  }

  // ---- gateways of the right family ----

  predicate ViaFits(via: Addr, f: Family) {
    via.NoAddr? || via.fam == f
  }

  /** The via4 or via6 field of a next hop. */
  function ViaField(h: NextHop, f: Family): Addr {
    AddrOf(if f == V4 then h.via4 else h.via6)
  }

  /** A plain route gets a gateway of the other family only from a via4 or via6 field holding one. */
  lemma NextHopViaFitsExactly(h: NextHop, f: Family)
    ensures ViaFits(NextHopVia(h, f), f) <==> ViaFits(ViaField(h, f), f)
  {
  }

  /** Where a destination has no hops, the field of its family does not hold a stray address. */
  ghost predicate FieldsFit(g: InputGroup) {
    && (forall p :: Survives(g, p) && !HasHops(g.targetHops, p.fam) ==>
          ViaFits(ViaField(g.config.target.hop, p.fam), p.fam))
    && (forall p :: Defaulted(g, p) && !HasHops(g.defaultHops, p.fam) ==>
          ViaFits(ViaField(g.config.target.default.value, p.fam), p.fam))
  }

  /** Every planned gateway has its destination's family exactly when the via4 and via6 fields fit
      wherever they are used: for surviving sources and default destinations without hops. */
  lemma GatewaysFitExactly(protocol: int, g: InputGroup)
    ensures (forall r :: r in DesiredSet(protocol, g) ==> ViaFits(r.via, r.dst.fam)) <==> FieldsFit(g)
  {
    DesiredMembers(protocol, g);
    var t := g.config.target;
    forall h: NextHop, f: Family ensures ViaFits(NextHopVia(h, f), f) <==> ViaFits(ViaField(h, f), f) {
      NextHopViaFitsExactly(h, f);
    }
    if forall r :: r in DesiredSet(protocol, g) ==> ViaFits(r.via, r.dst.fam) {
      forall p | Survives(g, p) && !HasHops(g.targetHops, p.fam) ensures ViaFits(ViaField(t.hop, p.fam), p.fam) {
        assert ToTarget(protocol, g, PlainRoute(protocol, t.table, t.hop, g.linkIndex, p));
      }
      forall p | Defaulted(g, p) && !HasHops(g.defaultHops, p.fam)
        ensures ViaFits(ViaField(t.default.value, p.fam), p.fam)
      {
        assert ToDefault(protocol, g, PlainRoute(protocol, t.table, t.default.value, g.defaultLinkIndex, p));
      }
    }
  }

  /** Fields that validation skips when the hop also lists gateways. */
  predicate Unmixed(h: NextHop) {
    h.gateways == [] || (ViaFits(ViaField(h, V4), V4) && ViaFits(ViaField(h, V6), V6))
  }

  predicate DefaultUnmixed(t: Target) {
    t.default.Some? ==> Unmixed(t.default.value)
  }

  lemma ValidatedFields(name: FamilyName, h: NextHop, requireDev: bool)
    requires NextHopOk(name, h, requireDev) && Unmixed(h)
    ensures forall f: Family :: ViaFits(ViaField(h, f), f)
  {
    forall f: Family ensures ViaFits(ViaField(h, f), f) {
      assert f == V4 || f == V6;
    }
  }

  /** In a validated group only next hops that mix a gateways list with via fields can fail this. */
  lemma GatewaysFit(protocol: int, g: InputGroup)
    requires GroupOk(g.config) && Unmixed(g.config.target.hop) && DefaultUnmixed(g.config.target)
    ensures forall r :: r in DesiredSet(protocol, g) ==> ViaFits(r.via, r.dst.fam)
  {
    var t := g.config.target;
    ValidatedFields(DualIfUnset(t.family), t.hop, false);
    if t.default.Some? { ValidatedFields(DualIfUnset(t.family), t.default.value, true); }
    GatewaysFitExactly(protocol, g);
  }

  /** The exception is real: a validated dual target with one IPv4 gateway and an IPv4 address in
      its unvalidated via6 field routes an IPv6 prefix through that IPv4 address. With only IPv4
      sources the same target plans nothing but fitting gateways. */
  lemma MixedFieldsEscapeValidation(protocol: int) returns (g: InputGroup, r: Route, harmless: InputGroup)
    ensures GroupOk(g.config) && !Unmixed(g.config.target.hop)
    ensures r in DesiredSet(protocol, g) && !ViaFits(r.via, r.dst.fam)
    ensures harmless == g.(prefixes := harmless.prefixes) && DesiredSet(protocol, harmless) != {}
    ensures forall q :: q in DesiredSet(protocol, harmless) ==> ViaFits(q.via, q.dst.fam)
  {
    var hc := HealthCheck([], 0);
    var v4 := AddrText(IP(V4, 0x0A4D_0002));
    var hop := NextHop("wg0", NoText, NoText, v4, false, hc, [Gateway("", "", NoText, v4, NoText, false, hc)]);
    var target := Target(100, hop, Dual, None, false, []);
    var config := RouteGroup("zone", true, SourceConfig(Txt, "", "list"), target,
                             RuleConfig(false, 0, 0, 0, 0, NoPrefixText));
    var p := Prefix(V6, 0, 16);
    g := InputGroup(config, [p], [], [], 2, 0, [Hop(2, false, v4.addr, 100, true)], [], [], []);
    r := PlainRoute(protocol, 100, hop, 2, p);
    DesiredMembers(protocol, g);
    assert Survives(g, p) && !HasHops(g.targetHops, V6);
    assert ToTarget(protocol, g, r);
    harmless := g.(prefixes := [Prefix(V4, 0, 8)]);
    ServedSourcesFit(protocol, harmless, g.targetHops[0], Prefix(V4, 0, 8));
  }

  lemma ServedSourcesFit(protocol: int, g: InputGroup, h: Hop, p: Prefix)
    requires g.prefixes == [p] && g.locals == [] && p.fam in Families(g.config.target.family)
    requires h in g.targetHops && HopServes(h, p.fam) && g.config.target.default.None?
    ensures DesiredSet(protocol, g) != {} && forall q :: q in DesiredSet(protocol, g) ==> ViaFits(q.via, q.dst.fam)
  {
    GatewaysFitExactly(protocol, g);
    DesiredMembers(protocol, g);
    assert HasHops(g.targetHops, p.fam) && Survives(g, p);
    assert ToTarget(protocol, g, HopRoute(protocol, g.config.target.table, h, p));
  }

  // ---- failover ----

  /** Of the routes a next hop with hops gives a destination, the one through the preferred candidate
      has the lowest metric. */
  lemma PreferredHopLeads(protocol: int, table: int, next: NextHop, link: int, hops: seq<Hop>, f: Family,
                          mine: seq<Hop>, cs: seq<Candidate>, links: map<string, int>, ping: Pinger,
                          flags: seq<bool>, p: Prefix)
    returns (lead: Route, i: nat)
    requires forall h :: h in hops && HopServes(h, f) <==> h in mine
    requires Selected(mine, f, cs, links, ping, flags) && cs != [] && p.fam == f
    ensures IsPreferred(i, f, cs, ping) && cs[i].dev in links
    ensures lead == Route(table, protocol, Unicast, links[cs[i].dev], cs[i].via, cs[i].onLink, 100, p)
    ensures Forwards(lead, protocol, table, next, link, hops)
    ensures forall r :: Forwards(r, protocol, table, next, link, hops) && r.dst == p && r != lead ==>
              lead.metric < r.metric
  {
    i := FirstHopIsPreferred(mine, f, cs, links, ping, flags);
    assert mine[0] in mine;
    assert HasHops(hops, f);
    lead := HopRoute(protocol, table, mine[0], p);
    forall r | Forwards(r, protocol, table, next, link, hops) && r.dst == p && r != lead
      ensures lead.metric < r.metric
    {
      var h :| h in hops && HopServes(h, f) && r == HopRoute(protocol, table, h, p);
      var a :| 0 <= a < |mine| && mine[a] == h;
    }
  }

  /** The route is the lowest-metric unicast route of the destination. */
  ghost predicate Leading(routes: set<Route>, p: Prefix, lead: Route) {
    && lead in routes && lead.dst == p && lead.kind == Unicast
    && forall r :: r in routes && r.dst == p && r.kind == Unicast && r != lead ==> lead.metric < r.metric
  }

  /** It is the only one. */
  ghost predicate OnlyUnicast(routes: set<Route>, p: Prefix, only: Route) {
    only in routes && forall r :: r in routes && r.dst == p && r.kind == Unicast ==> r == only
  }

  /** For a surviving source prefix that goes through the preferred candidate of its family. */
  lemma PreferredGatewayLeads(protocol: int, g: InputGroup, f: Family, mine: seq<Hop>, cs: seq<Candidate>,
                              links: map<string, int>, ping: Pinger, flags: seq<bool>, p: Prefix)
    returns (lead: Route, i: nat)
    requires forall h :: h in g.targetHops && HopServes(h, f) <==> h in mine
    requires Selected(mine, f, cs, links, ping, flags) && cs != []
    requires Survives(g, p) && p.fam == f && !Defaulted(g, p)
    ensures IsPreferred(i, f, cs, ping) && cs[i].dev in links && Leading(DesiredSet(protocol, g), p, lead)
    ensures lead == Route(g.config.target.table, protocol, Unicast, links[cs[i].dev], cs[i].via, cs[i].onLink, 100, p)
  {
    var t := g.config.target;
    lead, i := PreferredHopLeads(protocol, t.table, t.hop, g.linkIndex, g.targetHops,
                                 f, mine, cs, links, ping, flags, p);
    DesiredMembers(protocol, g);
    assert ToTarget(protocol, g, lead);
    forall r | r in DesiredSet(protocol, g) && r.dst == p && r.kind == Unicast && r != lead
      ensures lead.metric < r.metric
    {
      assert ToTarget(protocol, g, r);
    }
  }

  /** And so for a default destination that is not also a source. */
  lemma PreferredDefaultLeads(protocol: int, g: InputGroup, f: Family, mine: seq<Hop>, cs: seq<Candidate>,
                              links: map<string, int>, ping: Pinger, flags: seq<bool>, p: Prefix)
    returns (lead: Route, i: nat)
    requires forall h :: h in g.defaultHops && HopServes(h, f) <==> h in mine
    requires Selected(mine, f, cs, links, ping, flags) && cs != []
    requires Defaulted(g, p) && p.fam == f && !Survives(g, p)
    ensures IsPreferred(i, f, cs, ping) && cs[i].dev in links && Leading(DesiredSet(protocol, g), p, lead)
    ensures lead == Route(g.config.target.table, protocol, Unicast, links[cs[i].dev], cs[i].via, cs[i].onLink, 100, p)
  {
    var t := g.config.target;
    lead, i := PreferredHopLeads(protocol, t.table, t.default.value, g.defaultLinkIndex, g.defaultHops,
                                 f, mine, cs, links, ping, flags, p);
    DesiredMembers(protocol, g);
    assert ToDefault(protocol, g, lead);
    forall r | r in DesiredSet(protocol, g) && r.dst == p && r.kind == Unicast && r != lead
      ensures lead.metric < r.metric
    {
      assert ToDefault(protocol, g, r);
    }
  }

  /** Without hops the destination's only unicast route is plain: metric 0, on the next hop's own link. */
  lemma PlainLeads(protocol: int, g: InputGroup, p: Prefix)
    ensures var t := g.config.target;
            Survives(g, p) && !Defaulted(g, p) && !HasHops(g.targetHops, p.fam) ==>
              OnlyUnicast(DesiredSet(protocol, g), p,
                          Route(t.table, protocol, Unicast, g.linkIndex, NextHopVia(t.hop, p.fam), t.hop.onLink, 0, p))
    ensures var t := g.config.target;
            Defaulted(g, p) && !Survives(g, p) && !HasHops(g.defaultHops, p.fam) ==>
              OnlyUnicast(DesiredSet(protocol, g), p,
                          Route(t.table, protocol, Unicast, g.defaultLinkIndex, NextHopVia(t.default.value, p.fam),
                                t.default.value.onLink, 0, p))
  {
    DesiredMembers(protocol, g);
    var t := g.config.target;
    if Survives(g, p) && !Defaulted(g, p) && !HasHops(g.targetHops, p.fam) {
      assert ToTarget(protocol, g, PlainRoute(protocol, t.table, t.hop, g.linkIndex, p));
    }
    if Defaulted(g, p) && !Survives(g, p) && !HasHops(g.defaultHops, p.fam) {
      assert ToDefault(protocol, g, PlainRoute(protocol, t.table, t.default.value, g.defaultLinkIndex, p));
    }
  }

  /** The direct via fields: the one for the family, or via where that is empty and of the family. */
  lemma PlainViaIs(h: NextHop)
    ensures h.via4.AddrText? ==> NextHopVia(h, V4) == h.via4.addr
    ensures h.via6.AddrText? ==> NextHopVia(h, V6) == h.via6.addr
    ensures h.via4 == NoText ==> NextHopVia(h, V4) == if OfFamily(h.via, V4) then h.via.addr else NoAddr
    ensures h.via6 == NoText ==> NextHopVia(h, V6) == if OfFamily(h.via, V6) then h.via.addr else NoAddr
  {
  }

  /** A group owns the routes of its table, with the program's protocol, in its families. */
  lemma ScopeMeaning(protocol: int, c: RouteGroup, r: Route)
    ensures InScope(r, ScopeOf(protocol, c)) <==>
            r.table == c.target.table && r.protocol == protocol && r.dst.fam in Families(c.target.family)
  {
  }
}
