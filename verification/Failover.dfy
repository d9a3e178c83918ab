/** Which gateway the planned routes of a configured next hop use. */
module Failover {
  import opened Wrappers
  import opened Sequences
  import opened Prefixes
  import opened Config
  import opened Health
  import opened Gateways
  import opened Rtnl
  import opened RouteReconcile
  import opened RouteConvergence
  import opened Planner
  import opened PlannerProperties
  import opened Store
  import opened App

  // ---- which families get hops ----

  /** A family gets gateway hops exactly when resolveCandidates looks at it and it has candidates. An
      unset family means both families everywhere else, but here IPv6 candidates are ignored. */
  lemma HopsExactly(hops: seq<Hop>, name: FamilyName, cs: seq<Candidate>, links: map<string, int>, ping4: Pinger,
                    ping6: Pinger, f: Family)
    requires HopsOf(hops, name, cs, links, ping4, ping6)
    ensures HasHops(hops, f) <==> f in Families(name) && !(name == Unset && f == V6) && CandidatesOf(cs, f) != []
  {
    var v4, v6, flags4, flags6 :| hops == v4 + v6 &&
      ResolvedFor(v4, name, V4, cs, links, ping4, flags4) && ResolvedFor(v6, name, V6, cs, links, ping6, flags6);
    SelectedFamily(v4, name, V4, cs, links, ping4, flags4);
    SelectedFamily(v6, name, V6, cs, links, ping6, flags6);
    ServedByOwnPart(v4, v6, f);
    ResolvesExactly(name, f);
    assert (if f == V4 then v4 else v6) != [] <==> Resolves(name, f) && CandidatesOf(cs, f) != [];
  }

  lemma ServedByOwnPart(v4: seq<Hop>, v6: seq<Hop>, f: Family)
    requires forall a :: 0 <= a < |v4| ==> HopServes(v4[a], V4)
    requires forall a :: 0 <= a < |v6| ==> HopServes(v6[a], V6)
    ensures HasHops(v4 + v6, f) <==> (if f == V4 then v4 else v6) != []
    ensures forall h :: h in v4 + v6 && HopServes(h, f) <==> h in if f == V4 then v4 else v6
  {
    if f == V4 && v4 != [] {
      assert v4[0] in v4 + v6;
    } else if f == V6 && v6 != [] {
      assert v6[0] in v4 + v6;
    }
  }

  /** The part of the hops that one family's selection made. */
  lemma FamilyPart(hops: seq<Hop>, name: FamilyName, cs: seq<Candidate>, links: map<string, int>, ping4: Pinger,
                   ping6: Pinger, f: Family) returns (mine: seq<Hop>, flags: seq<bool>)
    requires HopsOf(hops, name, cs, links, ping4, ping6) && Resolves(name, f)
    ensures forall h :: h in hops && HopServes(h, f) <==> h in mine
    ensures Selected(mine, f, CandidatesOf(cs, f), links, if f == V4 then ping4 else ping6, flags)
  {
    var v4, v6, flags4, flags6 :| hops == v4 + v6 &&
      ResolvedFor(v4, name, V4, cs, links, ping4, flags4) && ResolvedFor(v6, name, V6, cs, links, ping6, flags6);
    SelectedFamily(v4, name, V4, cs, links, ping4, flags4);
    SelectedFamily(v6, name, V6, cs, links, ping6, flags6);
    ServedByOwnPart(v4, v6, f);
    mine, flags := if f == V4 then v4 else v6, if f == V4 then flags4 else flags6;
  }

  // ---- the routes a configured next hop gives a destination ----

  /** The leading route is the one through what this gateway offers, at metric 100. */
  ghost predicate LeadsThrough(routes: set<Route>, c: RouteGroup, protocol: int, p: Prefix, offer: Candidate,
                               links: map<string, int>) {
    && offer.dev in links
    && Leading(routes, p, Route(c.target.table, protocol, Unicast, links[offer.dev], offer.via, offer.onLink, 100, p))
  }

  /** The destination's unicast routes are led by the preferred configured gateway or, where no gateway
      is resolved for the family, there is just a plain one on the next hop's own device. */
  ghost predicate AsConfigured(routes: set<Route>, c: RouteGroup, protocol: int, p: Prefix, next: NextHop,
                          links: map<string, int>, ping: Pinger) {
    if OffersSome(next, p.fam) && !(c.target.family == Unset && p.fam == V6)
    then exists g: nat :: Preferred(g, next, Configured(next), p.fam, ping) &&
           LeadsThrough(routes, c, protocol, p, Offered(next, Configured(next)[g], p.fam).value, links)
    else (next.dev == "" || next.dev in links) &&
         OnlyUnicast(routes, p, Route(c.target.table, protocol, Unicast, if next.dev == "" then 0 else links[next.dev],
                                      NextHopVia(next, p.fam), next.onLink, 0, p))
  }

  lemma SourceFollows(protocol: int, x: InputGroup, links: map<string, int>, ping4: Pinger, ping6: Pinger, p: Prefix)
    requires GroupOk(x.config) && LinkIndex(x.config.target.hop.dev, links) == Some(x.linkIndex)
    requires HopsOf(x.targetHops, x.config.target.family, Candidates(x.config.target.hop), links, ping4, ping6)
    requires Survives(x, p) && !Defaulted(x, p)
    ensures AsConfigured(DesiredSet(protocol, x), x.config, protocol, p, x.config.target.hop, links,
                    if p.fam == V4 then ping4 else ping6)
  {
    var t, ping := x.config.target, if p.fam == V4 then ping4 else ping6;
    var name := DualIfUnset(t.family);
    ValidatedVias(name, t.hop, false);
    CandidatesWhenOffered(t.hop, p.fam, name);
    HopsExactly(x.targetHops, t.family, Candidates(t.hop), links, ping4, ping6, p.fam);
    ResolvesExactly(t.family, p.fam);
    if OffersSome(t.hop, p.fam) && !(t.family == Unset && p.fam == V6) {
      var mine, flags := FamilyPart(x.targetHops, t.family, Candidates(t.hop), links, ping4, ping6, p.fam);
      var lead, i := PreferredGatewayLeads(protocol, x, p.fam, mine, CandidatesOf(Candidates(t.hop), p.fam),
                                           links, ping, flags, p);
      var g := PreferredIsConfigured(t.hop, p.fam, name, ping, i);
    } else {
      PlainLeads(protocol, x, p);
    }
  }

  lemma DefaultFollows(protocol: int, x: InputGroup, links: map<string, int>, ping4: Pinger, ping6: Pinger, p: Prefix)
    requires GroupOk(x.config) && Defaulted(x, p) && !Survives(x, p)
    requires LinkIndex(x.config.target.default.value.dev, links) == Some(x.defaultLinkIndex)
    requires HopsOf(x.defaultHops, x.config.target.family, Candidates(x.config.target.default.value),
                    links, ping4, ping6)
    ensures AsConfigured(DesiredSet(protocol, x), x.config, protocol, p, x.config.target.default.value, links,
                    if p.fam == V4 then ping4 else ping6)
  {
    var t, next, ping := x.config.target, x.config.target.default.value, if p.fam == V4 then ping4 else ping6;
    var name := DualIfUnset(t.family);
    ValidatedVias(name, next, true);
    CandidatesWhenOffered(next, p.fam, name);
    HopsExactly(x.defaultHops, t.family, Candidates(next), links, ping4, ping6, p.fam);
    ResolvesExactly(t.family, p.fam);
    if OffersSome(next, p.fam) && !(t.family == Unset && p.fam == V6) {
      var mine, flags := FamilyPart(x.defaultHops, t.family, Candidates(next), links, ping4, ping6, p.fam);
      var lead, i := PreferredDefaultLeads(protocol, x, p.fam, mine, CandidatesOf(Candidates(next), p.fam),
                                           links, ping, flags, p);
      var g := PreferredIsConfigured(next, p.fam, name, ping, i);
    } else {
      PlainLeads(protocol, x, p);
    }
  }

  /** What a group plans for its destinations follows its configuration: sources the target, default
      destinations the default. */
  lemma InputFollows(x: InputGroup, i: nat, cfg: Config, envs: nat -> Env, saved: Records, routes: set<Route>,
                     rules: set<Rule>, p: Prefix)
    requires ConfigOk(cfg) && InputAt(x, i, cfg, envs, saved, routes, rules)
    ensures Survives(x, p) && !Defaulted(x, p) ==>
              AsConfigured(DesiredSet(cfg.routeProtocol, x), Groups(cfg)[i], cfg.routeProtocol, p,
                           Groups(cfg)[i].target.hop, envs(i).links,
                           if p.fam == V4 then envs(i).target4 else envs(i).target6)
    ensures Defaulted(x, p) && !Survives(x, p) ==>
              Groups(cfg)[i].target.default.Some? &&
              AsConfigured(DesiredSet(cfg.routeProtocol, x), Groups(cfg)[i], cfg.routeProtocol, p,
                      Groups(cfg)[i].target.default.value, envs(i).links,
                      if p.fam == V4 then envs(i).default4 else envs(i).default6)
  {
    var env := envs(i);
    assert GroupOk(Groups(cfg)[i]) && x.config == Groups(cfg)[i];
    if Survives(x, p) && !Defaulted(x, p) {
      SourceFollows(cfg.routeProtocol, x, env.links, env.target4, env.target6, p);
    }
    if Defaulted(x, p) && !Survives(x, p) {
      DefaultFollows(cfg.routeProtocol, x, env.links, env.default4, env.default6, p);
    }
  }

  /** And after an error-free reconcile the kernel's routes of a settled group do. */
  lemma FailoverAfterReconcile(plans: seq<GroupPlan>, inputs: seq<InputGroup>, at: seq<nat>, cfg: Config,
                               envs: nat -> Env, saved: Records, routes: set<Route>, rules: set<Rule>,
                               n: nat, p: Prefix)
    requires ConfigOk(cfg) && PlannedBeside(RoutePlans(plans), GoalsOf(cfg.routeProtocol, inputs), routes, n)
    requires PlansFor(plans, inputs, at, cfg, envs, saved, routes, rules)
    ensures var c, env := inputs[n].config, envs(at[n]);
            var now := Owned(Run(routes, Ops(RoutePlans(plans))), ScopeOf(cfg.routeProtocol, c));
            && at[n] < |Groups(cfg)| && c == Groups(cfg)[at[n]]
            && (Survives(inputs[n], p) && !Defaulted(inputs[n], p) ==>
                  AsConfigured(now, c, cfg.routeProtocol, p, c.target.hop, env.links,
                          if p.fam == V4 then env.target4 else env.target6))
            && (Defaulted(inputs[n], p) && !Survives(inputs[n], p) ==>
                  c.target.default.Some? &&
                  AsConfigured(now, c, cfg.routeProtocol, p, c.target.default.value, env.links,
                          if p.fam == V4 then env.default4 else env.default6))
  {
    assert InputAt(inputs[n], at[n], cfg, envs, saved, routes, rules);
    GroupConverges(RoutePlans(plans), GoalsOf(cfg.routeProtocol, inputs), routes, n);
    assert GoalsOf(cfg.routeProtocol, inputs)[n] == GoalOf(cfg.routeProtocol, inputs[n]);
    InputFollows(inputs[n], at[n], cfg, envs, saved, routes, rules, p);
  }

  /** Whatever a validated gateway offers is an address of the family, and pings addresses. */
  lemma ValidOffers(name: FamilyName, next: NextHop, gw: Gateway, f: Family, requireDev: bool)
    requires NextHopOk(name, next, requireDev) && gw in Configured(next) && Offered(next, gw, f).Some?
    ensures var c := Offered(next, gw, f).value;
            && Serves(c.via, f) && (forall t :: t in c.check.targets ==> t.AddrText?)
            && (next.dev != "" || next.gateways != [] ==> c.dev != "")
  {
    var i :| 0 <= i < |Configured(next)| && Configured(next)[i] == gw;
    if next.gateways != [] { assert GatewayOk(name, next, gw); }
    var c := Offered(next, gw, f).value;
    forall t | t in c.check.targets ensures t.AddrText? {
      var j :| 0 <= j < |c.check.targets| && c.check.targets[j] == t;
    }
  }

  /** And in a validated group it has a device. */
  lemma ValidOffersHaveDevices(g: RouteGroup, gw: Gateway, f: Family)
    requires GroupOk(g)
    ensures gw in Configured(g.target.hop) && Offered(g.target.hop, gw, f).Some? ==>
              Offered(g.target.hop, gw, f).value.dev != ""
    ensures g.target.default.Some? && gw in Configured(g.target.default.value) &&
            Offered(g.target.default.value, gw, f).Some? ==>
              Offered(g.target.default.value, gw, f).value.dev != ""
  {
    var name := DualIfUnset(g.target.family);
    if gw in Configured(g.target.hop) && Offered(g.target.hop, gw, f).Some? {
      ValidOffers(name, g.target.hop, gw, f, false);
    }
    if g.target.default.Some? && gw in Configured(g.target.default.value) &&
       Offered(g.target.default.value, gw, f).Some? {
      ValidOffers(name, g.target.default.value, gw, f, true);
    }
  }

  /** A validated gateway of a dual group offers an address only from the field for the family: a bare via
      would leave the family open. */
  lemma DualOffersFields(next: NextHop, gw: Gateway, f: Family)
    requires NextHopOk(Dual, next, false) && gw in Configured(next)
    ensures var field := if f == V4 then gw.via4 else gw.via6;
            Offered(next, gw, f).Some? <==> field.AddrText? && Serves(field.addr, f)
  {
    ValidatedVias(Dual, next, false);
    var i :| 0 <= i < |Configured(next)| && Configured(next)[i] == gw;
  }

  /** What validation means for what is planned: named groups, tables and priorities the kernel takes, a
      rule for the group's own table that keeps its source. */
  lemma ValidPlans(cfg: Config, g: RouteGroup, x: InputGroup, r: Route, d: Rule)
    requires ConfigOk(cfg) && g in Groups(cfg) && x.config == g
    ensures |g.name| > 0 && (cfg.logFormat == "text" || cfg.logFormat == "json")
    ensures cfg.rulePriorityBase > 0 && cfg.rulePriorityStep > 0
    ensures (g.source.kind == RipeCountry && |g.source.country| > 0) || (g.source.kind == Txt && |g.source.url| > 0)
    ensures r in DesiredSet(cfg.routeProtocol, x) ==> r.table > 0 && 0 < r.protocol < 256
    ensures d in DesiredRules(g) ==> d.table == g.target.table && d.table > 0 && d.priority > 0
    ensures d in DesiredRules(g) && g.rule.from != NoPrefixText ==> g.rule.from == PrefixText(d.from)
  {
    var i :| 0 <= i < |Groups(cfg)| && Groups(cfg)[i] == g;
    assert GroupOk(g);
    DesiredInScopeExactly(cfg.routeProtocol, x);
  }

  /** A validated group can be planned as soon as the devices it names exist and, where it excludes local
      addresses, the interfaces can be listed. */
  lemma ValidIsPlannable(g: RouteGroup, env: Env)
    requires GroupOk(g) && (g.target.excludeLocalIPs ==> env.host.interfaces.Some?)
    requires NamesKnown(g.target.hop, env.links)
    requires g.target.default.Some? ==> NamesKnown(g.target.default.value, env.links)
    ensures Plannable(g, env)
  {
    var name := DualIfUnset(g.target.family);
    HopsKnown(name, g.target.family, g.target.hop, env.links, false);
    if g.target.default.Some? { HopsKnown(name, g.target.family, g.target.default.value, env.links, true); }
  }

  /** The next hop's device, if it has one, and the devices of all its gateways exist. */
  predicate NamesKnown(next: NextHop, links: map<string, int>) {
    && (next.dev == "" || next.dev in links)
    && forall i, f: Family :: 0 <= i < |Configured(next)| && Offered(next, Configured(next)[i], f).Some? ==>
         Offered(next, Configured(next)[i], f).value.dev in links
  }

  lemma HopsKnown(name: FamilyName, family: FamilyName, next: NextHop, links: map<string, int>, requireDev: bool)
    requires NextHopOk(name, next, requireDev) && NamesKnown(next, links)
    ensures HopLinksKnown(family, next, links)
  {
    ValidatedVias(name, next, requireDev);
    forall f: Family ensures LinksKnown(CandidatesOf(Candidates(next), f), links) {
      var os, cs := Mapped(Configured(next), OfferOf(next, f)), CandidatesOf(Candidates(next), f);
      CandidatesPresent(next, f, name);
      forall i | 0 <= i < |cs| ensures cs[i].dev in links {
        var j := PresentFrom(os, i);
        assert os[j] == Offered(next, Configured(next)[j], f);
      }
    }
  }

  // ---- when the leading route uses the preferred gateway ----

  ghost predicate PreferredVia(via: Addr, next: NextHop, f: Family, ping: Pinger) {
    exists g: nat :: Preferred(g, next, Configured(next), f, ping) &&
      Offered(next, Configured(next)[g], f).value.via == via
  }

  ghost predicate LeadsBy(routes: set<Route>, p: Prefix, via: Addr) {
    exists lead :: Leading(routes, p, lead) && lead.via == via
  }

  lemma PreferredUnique(g: nat, h: nat, next: NextHop, gws: seq<Gateway>, f: Family, ping: Pinger)
    requires Preferred(g, next, gws, f, ping) && Preferred(h, next, gws, f, ping)
    ensures g == h
  {
  }

  lemma LeaderUnique(routes: set<Route>, p: Prefix, r: Route, q: Route)
    requires Leading(routes, p, r) && Leading(routes, p, q)
    ensures r == q
  {
  }

  /** A source prefix whose family some gateway offers is led by the preferred one exactly when the
      family is resolved, or the next hop's own via fields name it. An unset family has no IPv6 failover,
      and with the addresses in a gateways list alone not even a gateway. */
  lemma FailoverExactly(protocol: int, x: InputGroup, links: map<string, int>, ping4: Pinger, ping6: Pinger, p: Prefix)
    requires GroupOk(x.config) && LinkIndex(x.config.target.hop.dev, links) == Some(x.linkIndex)
    requires HopsOf(x.targetHops, x.config.target.family, Candidates(x.config.target.hop), links, ping4, ping6)
    requires Survives(x, p) && !Defaulted(x, p) && OffersSome(x.config.target.hop, p.fam)
    ensures var t, ping := x.config.target, if p.fam == V4 then ping4 else ping6;
            (exists via :: PreferredVia(via, t.hop, p.fam, ping) && LeadsBy(DesiredSet(protocol, x), p, via)) <==>
            !(t.family == Unset && p.fam == V6) || PreferredVia(NextHopVia(t.hop, p.fam), t.hop, p.fam, ping)
  {
    var t, ping, d := x.config.target, if p.fam == V4 then ping4 else ping6, DesiredSet(protocol, x);
    SourceFollows(protocol, x, links, ping4, ping6, p);
    if !(t.family == Unset && p.fam == V6) {
      var g: nat :| Preferred(g, t.hop, Configured(t.hop), p.fam, ping) &&
        LeadsThrough(d, x.config, protocol, p, Offered(t.hop, Configured(t.hop)[g], p.fam).value, links);
      var via := Offered(t.hop, Configured(t.hop)[g], p.fam).value.via;
      assert PreferredVia(via, t.hop, p.fam, ping) && LeadsBy(d, p, via);
    } else {
      var only := Route(t.table, protocol, Unicast, if t.hop.dev == "" then 0 else links[t.hop.dev],
                        NextHopVia(t.hop, p.fam), t.hop.onLink, 0, p);
      assert OnlyUnicast(d, p, only) && Leading(d, p, only);
      assert LeadsBy(d, p, NextHopVia(t.hop, p.fam));
      forall via | LeadsBy(d, p, via) ensures via == NextHopVia(t.hop, p.fam) {
      }
    }
  }

  /** Next hop and group of the example below. */
  function V6Gateway(): NextHop {
    var hc := HealthCheck([], 0);
    var via := AddrText(IP(V6, 0x2001_0DB8_0000_0000_0000_0000_0000_0001));
    NextHop("", NoText, NoText, NoText, false, hc, [Gateway("", "wg0", NoText, NoText, via, false, hc)])
  }

  function UnsetGroup(): RouteGroup {
    RouteGroup("zone", true, SourceConfig(Txt, "", "list"), Target(100, V6Gateway(), Unset, None, false, []),
               RuleConfig(false, 0, 0, 0, 0, NoPrefixText))
  }

  lemma UnsetGroupCandidates()
    ensures CandidatesOf(Candidates(V6Gateway()), V4) == [] && CandidatesOf(Candidates(V6Gateway()), V6) != []
    ensures OffersSome(V6Gateway(), V6)
  {
    var hop := V6Gateway();
    var gw := hop.gateways[0];
    assert Configured(hop) == [gw] && Offered(hop, gw, V6).Some? && Offered(hop, gw, V4).None?;
    assert !OffersSome(hop, V4);
    CandidatesWhenOffered(hop, V4, Dual);
    CandidatesWhenOffered(hop, V6, Dual);
  }

  lemma NothingToResolve(name: FamilyName, cs: seq<Candidate>, links: map<string, int>, ping4: Pinger, ping6: Pinger)
    requires forall f: Family :: Resolves(name, f) ==> CandidatesOf(cs, f) == []
    ensures HopsOf([], name, cs, links, ping4, ping6)
  {
    var none: seq<Hop> := [];
    assert none == none + none;
    assert ResolvedFor(none, name, V4, cs, links, ping4, []) && ResolvedFor(none, name, V6, cs, links, ping6, []);
  }

  /** An input of a validated group with an unset family and nothing but an IPv6 gateway. */
  ghost predicate UnsetInput(x: InputGroup, p: Prefix) {
    && GroupOk(x.config) && x.config.target.family == Unset && x.config.target.hop == V6Gateway()
    && x.config.target.default == None && x.prefixes == [p] && x.throws == [] && x.locals == []
    && x.targetHops == [] && x.linkIndex == 0
  }

  lemma UnsetGroupInput(p: Prefix) returns (x: InputGroup)
    ensures UnsetInput(x, p)
  {
    x := InputGroup(UnsetGroup(), [p], [], [], 0, 0, [], [], [], []);
    UnsetGroupOk();
  }

  lemma UnsetGroupOk()
    ensures GroupOk(UnsetGroup())
  {
  }

  lemma V6GatewayPlain(f: Family)
    ensures V6Gateway().dev == "" && NextHopVia(V6Gateway(), f) == NoAddr && !V6Gateway().onLink
  {
  }

  /** Given an IPv6 source, the program resolves no hops for it, and its only desired route has no gateway,
      no interface and metric 0, whether or not the gateway answers. */
  lemma UnsetFamilyLosesGateway(protocol: int, links: map<string, int>, ping4: Pinger, ping6: Pinger, p: Prefix)
    returns (x: InputGroup)
    requires p.fam == V6
    ensures GroupOk(x.config) && x.config.target.family == Unset && Survives(x, p)
    ensures OffersSome(x.config.target.hop, V6)
    ensures HopsOf(x.targetHops, Unset, Candidates(x.config.target.hop), links, ping4, ping6)
    ensures LinkIndex(x.config.target.hop.dev, links) == Some(x.linkIndex)
    ensures DesiredSet(protocol, x) == {Route(x.config.target.table, protocol, Unicast, 0, NoAddr, false, 0, p)}
  {
    x := UnsetGroupInput(p);
    V6GatewayPlain(V6);
    UnsetGroupCandidates();
    NothingToResolve(Unset, Candidates(V6Gateway()), links, ping4, ping6);
    OnlyPlain(protocol, x, p);
  }

  lemma OnlyPlain(protocol: int, x: InputGroup, p: Prefix)
    requires x.prefixes == [p] && x.throws == [] && x.locals == [] && x.targetHops == []
    requires p.fam in Families(x.config.target.family) && x.config.target.default.None?
    ensures Survives(x, p)
    ensures DesiredSet(protocol, x) ==
            {PlainRoute(protocol, x.config.target.table, x.config.target.hop, x.linkIndex, p)}
  {
    DesiredMembers(protocol, x);
    assert Survives(x, p) && !HasHops(x.targetHops, p.fam);
    assert ToTarget(protocol, x, PlainRoute(protocol, x.config.target.table, x.config.target.hop, x.linkIndex, p));
  }
}
