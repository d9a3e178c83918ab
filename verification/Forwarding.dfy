/** Lookup in the desired table: longest match (section 5.1 of RFC 4632), then lowest metric. */
module Forwarding {
  import opened Prefixes
  import opened CanonicalForm
  import opened Normalization
  import opened Config
  import opened Health
  import opened Gateways
  import opened Rtnl
  import opened Planner
  import opened PlannerProperties
  import opened Exclusions

  predicate Better(r: Route, q: Route) {
    r.dst.bits > q.dst.bits || (r.dst.bits == q.dst.bits && r.metric <= q.metric)
  }

  /** r is the route a lookup of address a finds in the table. */
  ghost predicate Finds(routes: set<Route>, a: Addr, r: Route) {
    r in routes && Contains(r.dst, a) && forall q :: q in routes && Contains(q.dst, a) ==> Better(r, q)
  }

  lemma {:induction false} LookupExists(routes: set<Route>, a: Addr, some: Route) returns (r: Route)
    requires some in routes && Contains(some.dst, a)
    ensures Finds(routes, a, r)
    decreases |routes|
  {
    var rest := routes - {some};
    if q :| q in rest && Contains(q.dst, a) {
      r := LookupExists(rest, a, q);
      if !Better(r, some) { r := some; }
    } else {
      r := some;
    }
  }

  /** Blocks of one length that share an address are equal. */
  lemma SameBlock(p: Prefix, q: Prefix, a: Addr)
    requires IsBlock(p) && IsBlock(q) && Contains(p, a) && Contains(q, a) && p.bits == q.bits
    ensures p == q
  {
    Overlap(p, q, a);
    Overlap(q, p, a);
  }

  lemma LookupUnique(routes: set<Route>, a: Addr, r: Route, q: Route)
    requires SlotsDistinct(routes) && forall x :: x in routes ==> IsBlock(x.dst)
    requires Finds(routes, a, r) && Finds(routes, a, q) && r.table == q.table
    ensures r == q
  {
    SameBlock(r.dst, q.dst, a);
  }

  // ---- split routing ----

  /** The premises under which a group's desired table is well formed. */
  ghost predicate Sound(g: InputGroup) {
    && BlocksOnly(g) && MetricsApart(g.targetHops) && MetricsApart(g.defaultHops)
    && (forall p :: Survives(g, p) ==> !Defaulted(g, p))
    && (forall p :: Thrown(g, p) ==> !Defaulted(g, p))
    && (forall p :: Survives(g, p) && Thrown(g, p) ==> HasHops(g.targetHops, p.fam))
  }

  ghost predicate InSources(g: InputGroup, a: Addr, bits: int) {
    exists p :: Survives(g, p) && Contains(p, a) && p.bits >= bits
  }

  ghost predicate InThrows(g: InputGroup, a: Addr, bits: int) {
    exists p :: Thrown(g, p) && Contains(p, a) && p.bits >= bits
  }

  lemma DesiredBlocks(protocol: int, g: InputGroup)
    requires BlocksOnly(g)
    ensures forall r :: r in DesiredSet(protocol, g) ==> IsBlock(r.dst)
  {
    DesiredMembers(protocol, g);
    RootIsBlock(V4);
    RootIsBlock(V6);
  }

  /** Every destination a group names has a desired route. */
  lemma TargetRouteExists(protocol: int, g: InputGroup, p: Prefix) returns (r: Route)
    requires Survives(g, p)
    ensures ToTarget(protocol, g, r) && r.dst == p && r in DesiredSet(protocol, g)
  {
    var t := g.config.target;
    if HasHops(g.targetHops, p.fam) {
      var h :| h in g.targetHops && HopServes(h, p.fam);
      r := HopRoute(protocol, t.table, h, p);
    } else {
      r := PlainRoute(protocol, t.table, t.hop, g.linkIndex, p);
    }
    DesiredMembers(protocol, g);
  }

  lemma DefaultRouteExists(protocol: int, g: InputGroup, p: Prefix) returns (r: Route)
    requires Defaulted(g, p)
    ensures ToDefault(protocol, g, r) && r.dst == p && r in DesiredSet(protocol, g)
  {
    var t := g.config.target;
    if HasHops(g.defaultHops, p.fam) {
      var h :| h in g.defaultHops && HopServes(h, p.fam);
      r := HopRoute(protocol, t.table, h, p);
    } else {
      r := PlainRoute(protocol, t.table, t.default.value, g.defaultLinkIndex, p);
    }
    DesiredMembers(protocol, g);
  }

  /** The longest surviving source prefix decides for the target, a throw prefix at least as long
      decides for throw, and an address in neither takes the default. */
  lemma SplitRouting(protocol: int, g: InputGroup, a: Addr, r: Route)
    requires Sound(g) && Finds(DesiredSet(protocol, g), a, r)
    ensures ToThrow(protocol, g, r) <==>
              exists q :: Thrown(g, q) && Contains(q, a) && !InSources(g, a, q.bits + 1)
    ensures ToTarget(protocol, g, r) <==>
              exists p :: Survives(g, p) && Contains(p, a) && !InThrows(g, a, p.bits)
    ensures ToDefault(protocol, g, r) <==> !InSources(g, a, 0) && !InThrows(g, a, 0)
    ensures ToThrow(protocol, g, r) <==> r.kind == Throw
    ensures ToTarget(protocol, g, r) || ToThrow(protocol, g, r) ==>
              !InSources(g, a, r.dst.bits + 1) && !InThrows(g, a, r.dst.bits + 1)
  {
    DesiredMembers(protocol, g);
    DesiredBlocks(protocol, g);
    forall p | Survives(g, p) && Contains(p, a) ensures p.bits <= r.dst.bits {
      var x := TargetRouteExists(protocol, g, p);
    }
    forall q | Thrown(g, q) && Contains(q, a) ensures q.bits <= r.dst.bits {
      assert ToThrow(protocol, g, ThrowRoute(protocol, g.config.target.table, q));
    }
    if ToTarget(protocol, g, r) {
      TargetBeatsThrows(protocol, g, a, r);
    } else if ToThrow(protocol, g, r) {
      ThrowBeatsRest(protocol, g, a, r);
    } else {
      DefaultIsLast(protocol, g, a, r);
    }
  }

  lemma TargetBeatsThrows(protocol: int, g: InputGroup, a: Addr, r: Route)
    requires Sound(g) && Finds(DesiredSet(protocol, g), a, r) && ToTarget(protocol, g, r)
    requires forall p :: Survives(g, p) && Contains(p, a) ==> p.bits <= r.dst.bits
    requires forall q :: Thrown(g, q) && Contains(q, a) ==> q.bits <= r.dst.bits
    ensures !InThrows(g, a, r.dst.bits) && !ToThrow(protocol, g, r) && !ToDefault(protocol, g, r)
    ensures InSources(g, a, 0)
    ensures forall q :: Thrown(g, q) && Contains(q, a) ==> InSources(g, a, q.bits + 1)
  {
    DesiredMembers(protocol, g);
    DesiredBlocks(protocol, g);
    var t := g.config.target;
    ForwardsMetric(r, protocol, t.table, t.hop, g.linkIndex, g.targetHops);
    forall q | Thrown(g, q) && Contains(q, a) ensures q.bits < r.dst.bits {
      var x := ThrowRoute(protocol, t.table, q);
      assert ToThrow(protocol, g, x) && Better(r, x);
      if q.bits == r.dst.bits { SameBlock(q, r.dst, a); }
    }
    assert r.dst.bits >= 0;
  }

  lemma ThrowBeatsRest(protocol: int, g: InputGroup, a: Addr, r: Route)
    requires Sound(g) && Finds(DesiredSet(protocol, g), a, r) && ToThrow(protocol, g, r)
    requires forall p :: Survives(g, p) && Contains(p, a) ==> p.bits <= r.dst.bits
    requires forall q :: Thrown(g, q) && Contains(q, a) ==> q.bits <= r.dst.bits
    ensures !InSources(g, a, r.dst.bits + 1) && InThrows(g, a, 0) && !ToTarget(protocol, g, r) &&
            !ToDefault(protocol, g, r)
    ensures forall p :: Survives(g, p) && Contains(p, a) ==> InThrows(g, a, p.bits)
  {
    assert r.dst.bits >= 0;
  }

  lemma DefaultIsLast(protocol: int, g: InputGroup, a: Addr, r: Route)
    requires Sound(g) && Finds(DesiredSet(protocol, g), a, r) && ToDefault(protocol, g, r)
    requires !ToTarget(protocol, g, r) && !ToThrow(protocol, g, r)
    requires forall p :: Survives(g, p) && Contains(p, a) ==> p.bits <= r.dst.bits
    requires forall q :: Thrown(g, q) && Contains(q, a) ==> q.bits <= r.dst.bits
    ensures !InSources(g, a, 0) && !InThrows(g, a, 0)
  {
    forall p | (Survives(g, p) || Thrown(g, p)) && Contains(p, a) ensures false {
      assert IsBlock(p) && p.bits == 0;
      RootIsBlock(r.dst.fam);
      SameBlock(p, r.dst, a);
    }
  }

  /** A configured exclusion throws: a lookup of an address in it ends in a throw route unless a longer
      source prefix survives around the address. */
  lemma ExclusionThrows(protocol: int, g: InputGroup, a: Addr, r: Route, q: Prefix)
    requires Sound(g) && ThrowsOf(g.throws, g.config.target) && Finds(DesiredSet(protocol, g), a, r)
    requires PrefixText(q) in g.config.target.excludePrefixes && q.fam in Families(g.config.target.family)
    requires Contains(q, a) && !InSources(g, a, q.bits + 1)
    ensures r.kind == Throw && !r.via.IP? && r.table == g.config.target.table
  {
    var p := Masked(q);
    MaskedContains(q, a);
    assert Excluded(p, g.config.target) && Thrown(g, p) && Contains(p, a);
    SplitRouting(protocol, g, a, r);
  }

  lemma RootContains(a: Addr)
    requires a.IP? && a.val < Limit(a.fam)
    ensures Contains(Prefix(a.fam, 0, 0), a)
  {
    RootIsBlock(a.fam);
    LimitIs(a.fam);
    assert Size(Prefix(a.fam, 0, 0)) == Limit(a.fam);
  }

  /** With a default, every address of the group's families is routed. */
  lemma DefaultRoutesAll(protocol: int, g: InputGroup, a: Addr) returns (r: Route)
    requires g.config.target.default.Some? && a.IP? && a.val < Limit(a.fam)
    requires a.fam in DefaultFamilies(g.config.target.family)
    ensures Finds(DesiredSet(protocol, g), a, r)
  {
    var root := Prefix(a.fam, 0, 0);
    RootContains(a);
    var x := DefaultRouteExists(protocol, g, root);
    r := LookupExists(DesiredSet(protocol, g), a, x);
  }

  /** No source-prefix route holds an address exactly when every source that holds it is skipped for
      some interface; then no lookup of the address takes one. */
  lemma LocalsAvoidTarget(protocol: int, g: InputGroup, host: Host, a: Addr)
    requires ExcludesLocals(g, host)
    ensures (forall r :: r in DesiredSet(protocol, g) && ToTarget(protocol, g, r) ==> !Contains(r.dst, a)) <==>
            AllSkipped(g, host, a)
    ensures forall r :: AllSkipped(g, host, a) && Finds(DesiredSet(protocol, g), a, r) ==> !ToTarget(protocol, g, r)
  {
    AddressExcludedExactly(g, host, a);
    if p :| Survives(g, p) && Contains(p, a) {
      var r := TargetRouteExists(protocol, g, p);
      assert ToTarget(protocol, g, r) && Contains(r.dst, a);
    }
  }

  /** A lookup that ends at a source prefix uses the preferred gateway of the address's family. */
  lemma LookupUsesPreferredGateway(protocol: int, g: InputGroup, mine: seq<Hop>, cs: seq<Candidate>,
                                   links: map<string, int>, ping: Pinger, flags: seq<bool>,
                                   a: Addr, r: Route)
    returns (i: nat)
    requires Sound(g) && Finds(DesiredSet(protocol, g), a, r) && ToTarget(protocol, g, r)
    requires forall h :: h in g.targetHops && HopServes(h, r.dst.fam) <==> h in mine
    requires Selected(mine, r.dst.fam, cs, links, ping, flags) && cs != []
    ensures IsPreferred(i, r.dst.fam, cs, ping) && cs[i].dev in links
    ensures r.via == cs[i].via && r.linkIndex == links[cs[i].dev] && r.onLink == cs[i].onLink
  {
    var lead;
    lead, i := PreferredGatewayLeads(protocol, g, r.dst.fam, mine, cs, links, ping, flags, r.dst);
    assert Better(r, lead);
  }

  // ---- aggregation and forwarding ----

  /** Where a packet goes, apart from the destination block it matched. */
  predicate SameHop(r: Route, q: Route) {
    r.table == q.table && r.protocol == q.protocol && r.kind == q.kind &&
    r.linkIndex == q.linkIndex && r.via == q.via && r.onLink == q.onLink && r.metric == q.metric
  }

  lemma LowestMetricFixed(r: Route, q: Route, protocol: int, table: int, next: NextHop, link: int, hops: seq<Hop>,
                          d1: set<Route>, d2: set<Route>, a: Addr)
    requires MetricsApart(hops) && r.dst.fam == q.dst.fam
    requires Forwards(r, protocol, table, next, link, hops) && Forwards(q, protocol, table, next, link, hops)
    requires Finds(d1, a, r) && Finds(d2, a, q)
    requires forall x: Route :: x.dst == r.dst && Forwards(x, protocol, table, next, link, hops) ==> x in d1
    requires forall x: Route :: x.dst == q.dst && Forwards(x, protocol, table, next, link, hops) ==> x in d2
    ensures SameHop(r, q)
  {
    if HasHops(hops, r.dst.fam) {
      var h :| h in hops && HopServes(h, r.dst.fam) && r == HopRoute(protocol, table, h, r.dst);
      var l :| l in hops && HopServes(l, q.dst.fam) && q == HopRoute(protocol, table, l, q.dst);
      assert Forwards(HopRoute(protocol, table, l, r.dst), protocol, table, next, link, hops);
      assert Forwards(HopRoute(protocol, table, h, q.dst), protocol, table, next, link, hops);
      assert Better(r, HopRoute(protocol, table, l, r.dst));
      assert Better(q, HopRoute(protocol, table, h, q.dst));
    }
  }

  /** The group whose sources are the fetched list, normalized with or without aggregation. */
  function With(g: InputGroup, fetched: seq<Prefix>, aggregate: bool): InputGroup {
    g.(prefixes := Normalized(fetched, aggregate))
  }

  ghost predicate FillsFamily(fetched: seq<Prefix>, f: Family) {
    BlockCovered(Prefix(f, 0, 0), fetched)
  }

  lemma RootSurvivesExactly(g: InputGroup, fetched: seq<Prefix>, f: Family)
    requires g.locals == []
    ensures Survives(With(g, fetched, true), Prefix(f, 0, 0)) <==>
            f in Families(g.config.target.family) && FillsFamily(fetched, f)
  {
    NormalizedMeaning(fetched, true);
    if FillsFamily(fetched, f) { FilledRootIsMaximal(f, fetched); }
  }

  /** That a default clashes with an aggregated source is exactly that the sources fill a family. */
  lemma DefaultClashExactly(g: InputGroup, fetched: seq<Prefix>)
    requires g.config.target.default.Some? && g.locals == []
    ensures (exists p :: Survives(With(g, fetched, true), p) && Defaulted(With(g, fetched, true), p)) <==>
            (exists f: Family :: f in Families(g.config.target.family) && FillsFamily(fetched, f))
  {
    forall f: Family ensures
        Survives(With(g, fetched, true), Prefix(f, 0, 0)) <==>
        f in Families(g.config.target.family) && FillsFamily(fetched, f)
    {
      RootSurvivesExactly(g, fetched, f);
    }
  }

  lemma FilledRootIsMaximal(f: Family, fetched: seq<Prefix>)
    requires FillsFamily(fetched, f)
    ensures Maximal(Prefix(f, 0, 0), fetched)
  {
    RootIsBlock(f);
  }

  /** Without throw prefixes and exclusions, and with no default to clash with a family filled by
      the sources, every address is forwarded alike whether aggregation is on or off. */
  lemma AggregationKeepsForwarding(protocol: int, g: InputGroup, fetched: seq<Prefix>, a: Addr, r: Route, q: Route)
    requires g.throws == [] && g.locals == []
    requires g.config.target.default.Some? ==> !FillsFamily(fetched, V4) && !FillsFamily(fetched, V6)
    requires MetricsApart(g.targetHops) && MetricsApart(g.defaultHops)
    requires Finds(DesiredSet(protocol, With(g, fetched, true)), a, r)
    requires Finds(DesiredSet(protocol, With(g, fetched, false)), a, q)
    ensures SameHop(r, q)
  {
    var g1, g2 := With(g, fetched, true), With(g, fetched, false);
    var t := g.config.target;
    AggregatedGroupSound(g, fetched, true);
    AggregatedGroupSound(g, fetched, false);
    SplitRouting(protocol, g1, a, r);
    SplitRouting(protocol, g2, a, q);
    SourcesAgree(g, fetched, a);
    DesiredMembers(protocol, g1);
    DesiredMembers(protocol, g2);
    if ToTarget(protocol, g1, r) {
      assert ToTarget(protocol, g2, q);
      LowestMetricFixed(r, q, protocol, t.table, t.hop, g.linkIndex, g.targetHops,
                        DesiredSet(protocol, g1), DesiredSet(protocol, g2), a);
    } else {
      assert ToDefault(protocol, g1, r) && ToDefault(protocol, g2, q);
      LowestMetricFixed(r, q, protocol, t.table, t.default.value, g.defaultLinkIndex, g.defaultHops,
                        DesiredSet(protocol, g1), DesiredSet(protocol, g2), a);
    }
  }

  ghost predicate Routed(routes: set<Route>, a: Addr) {
    exists r :: r in routes && Contains(r.dst, a)
  }

  /** And an address is routed at all with aggregation exactly when it is without. */
  lemma AggregationKeepsReach(protocol: int, g: InputGroup, fetched: seq<Prefix>, a: Addr)
    requires g.throws == [] && g.locals == []
    ensures Routed(DesiredSet(protocol, With(g, fetched, true)), a) <==>
              Routed(DesiredSet(protocol, With(g, fetched, false)), a)
  {
    SourcesAgree(g, fetched, a);
    RoutedWhen(protocol, With(g, fetched, true), a);
    RoutedWhen(protocol, With(g, fetched, false), a);
    NormalizedMeaning(fetched, true);
    NormalizedMeaning(fetched, false);
    assert forall p :: Defaulted(With(g, fetched, true), p) <==> Defaulted(With(g, fetched, false), p);
  }

  lemma RoutedWhen(protocol: int, g: InputGroup, a: Addr)
    requires g.throws == []
    ensures Routed(DesiredSet(protocol, g), a) <==> InSources(g, a, 0) || exists p :: Defaulted(g, p) && Contains(p, a)
  {
    DesiredMembers(protocol, g);
    if InSources(g, a, 0) {
      var p :| Survives(g, p) && Contains(p, a);
      var r := TargetRouteExists(protocol, g, p);
    } else if p :| Defaulted(g, p) && Contains(p, a) {
      var r := DefaultRouteExists(protocol, g, p);
    }
    if r :| r in DesiredSet(protocol, g) && Contains(r.dst, a) {
      assert Survives(g, r.dst) ==> r.dst.bits >= 0;
    }
  }

  lemma AggregatedGroupSound(g: InputGroup, fetched: seq<Prefix>, aggregate: bool)
    requires g.throws == [] && MetricsApart(g.targetHops) && MetricsApart(g.defaultHops)
    requires g.config.target.default.Some? ==> !FillsFamily(fetched, V4) && !FillsFamily(fetched, V6)
    ensures Sound(With(g, fetched, aggregate))
  {
    var n := Normalized(fetched, aggregate);
    NormalizedMeaning(fetched, aggregate);
    NormalizedCover(fetched, aggregate);
    forall p | p in n ensures BlockCovered(p, fetched) {
      EntryCovered(p, n, fetched);
    }
  }

  lemma EntryCovered(p: Prefix, n: seq<Prefix>, fetched: seq<Prefix>)
    requires p in n && SameCover(n, fetched)
    ensures BlockCovered(p, fetched)
  {
    forall x | Contains(p, x) ensures Covered(fetched, x) {
      assert Covered(n, x);
    }
  }

  lemma SourcesAgree(g: InputGroup, fetched: seq<Prefix>, a: Addr)
    requires g.locals == []
    ensures InSources(With(g, fetched, true), a, 0) <==> InSources(With(g, fetched, false), a, 0)
  {
    forall aggregate: bool
      ensures InSources(With(g, fetched, aggregate), a, 0) <==>
              Covered(fetched, a) && a.fam in Families(g.config.target.family)
    {
      var n, x := Normalized(fetched, aggregate), With(g, fetched, aggregate);
      NormalizedMeaning(fetched, aggregate);
      NormalizedCover(fetched, aggregate);
      assert Covered(n, a) <==> Covered(fetched, a);
      if Covered(n, a) && a.fam in Families(g.config.target.family) {
        var p :| p in n && Contains(p, a);
        assert Survives(x, p) && p.bits >= 0;
      }
    }
  }
}
