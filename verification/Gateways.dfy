/** The candidate builders of internal/app: from configured gateways to metric-ordered hops. */
module Gateways {
  import opened Wrappers
  import opened Prefixes
  import opened Sequences
  import opened Config
  import opened Health

  function CandidatesFromHop(dev: string, onLink: bool, hc: HealthCheck, via: AddrText, via4: AddrText,
                             via6: AddrText): seq<Candidate> {
    var direct :=
      (if via4.AddrText? then [Candidate(dev, onLink, via4.addr, hc)] else []) +
      (if via6.AddrText? then [Candidate(dev, onLink, via6.addr, hc)] else []);
    if direct != [] then direct
    else if via.AddrText? then [Candidate(dev, onLink, via.addr, hc)] else []
  }

  function CandidatesFromGateway(gw: Gateway, next: NextHop): seq<Candidate> {
    CandidatesFromHop(Coalesce(gw.dev, next.dev), gw.onLink || next.onLink, MergeHealthChecks(next.check, gw.check),
                      gw.via, gw.via4, gw.via6)
  }

  function FromGateways(gws: seq<Gateway>, next: NextHop): seq<Candidate> {
    if gws == [] then []
    else FromGateways(gws[..|gws| - 1], next) + CandidatesFromGateway(gws[|gws| - 1], next)
  }

  /** gatewaysFromTarget and gatewaysFromNextHop: the gateways list, or the next hop itself. */
  function Candidates(next: NextHop): seq<Candidate> {
    if next.gateways == [] then CandidatesFromHop(next.dev, next.onLink, next.check, next.via, next.via4, next.via6)
    else FromGateways(next.gateways, next)
  }

  function ServesFamily(f: Family): Addr -> bool {
    a => Serves(a, f)
  }

  function ReachesFamily(f: Family): Candidate -> bool {
    (c: Candidate) => Serves(c.via, f)
  }

  /** The candidates of one family, in configured order. */
  function CandidatesOf(cs: seq<Candidate>, f: Family): seq<Candidate> {
    Filter(cs, ReachesFamily(f))
  }

  function Parsed(t: AddrText): seq<Addr> {
    if t.AddrText? then [t.addr] else []
  }

  /** The addresses a gateway offers: via4 then via6, or via when neither parses. */
  function Addresses(gw: Gateway): seq<Addr> {
    var direct := Parsed(gw.via4) + Parsed(gw.via6);
    if direct == [] then Parsed(gw.via) else direct
  }

  /** The gateway as a candidate through one address, with its own or the inherited settings. */
  function Through(gw: Gateway, next: NextHop): Addr -> Candidate {
    a => Candidate(Coalesce(gw.dev, next.dev), gw.onLink || next.onLink, a, MergeHealthChecks(next.check, gw.check))
  }

  /** One candidate for each of the gateway's addresses of the family. */
  function OwnCandidates(next: NextHop, f: Family): Gateway -> seq<Candidate> {
    (gw: Gateway) => Mapped(Filter(Addresses(gw), ServesFamily(f)), Through(gw, next))
  }

  lemma GatewayCandidates(gw: Gateway, next: NextHop, f: Family)
    ensures CandidatesOf(CandidatesFromGateway(gw, next), f) == OwnCandidates(next, f)(gw)
  {
    assert CandidatesFromGateway(gw, next) == Mapped(Addresses(gw), Through(gw, next));
    FilterMapped(Addresses(gw), Through(gw, next), ReachesFamily(f), ServesFamily(f));
  }

  /** The candidates of a family are the gateways' own ones, gateway after gateway as configured. */
  lemma {:induction false} GatewayOrder(gws: seq<Gateway>, next: NextHop, f: Family)
    ensures CandidatesOf(FromGateways(gws, next), f) == Flattened(Mapped(gws, OwnCandidates(next, f)))
  {
    if gws != [] {
      var front, gw := gws[..|gws| - 1], gws[|gws| - 1];
      GatewayOrder(front, next, f);
      FilterAppend(FromGateways(front, next), CandidatesFromGateway(gw, next), ReachesFamily(f));
      GatewayCandidates(gw, next, f);
      MappedLast(gws, OwnCandidates(next, f));
      FlattenedAppend(Mapped(front, OwnCandidates(next, f)), OwnCandidates(next, f)(gw));
    }
  }

  /** A validated gateway's one address of a family: the field for it, or via when both fields are
      empty. */
  function OfferedAddress(gw: Gateway, f: Family): seq<Addr> {
    var field := if f == V4 then gw.via4 else gw.via6;
    if OfFamily(field, f) then [field.addr]
    else if gw.via4 == NoText && gw.via6 == NoText && OfFamily(gw.via, f) then [gw.via.addr]
    else []
  }

  lemma ParsedOfFamily(t: AddrText, f: Family)
    ensures Filter(Parsed(t), ServesFamily(f)) == if OfFamily(t, f) then [t.addr] else []
  {
    if t.AddrText? { FilterOne(t.addr, ServesFamily(f)); }
  }

  lemma OffersOne(name: FamilyName, gw: Gateway, f: Family)
    requires ViasOk(name, gw.via, gw.via4, gw.via6)
    ensures Filter(Addresses(gw), ServesFamily(f)) == OfferedAddress(gw, f)
  {
    var one, two := Filter(Parsed(gw.via4), ServesFamily(f)), Filter(Parsed(gw.via6), ServesFamily(f));
    ParsedOfFamily(gw.via4, f);
    ParsedOfFamily(gw.via6, f);
    if gw.via4 == NoText && gw.via6 == NoText {
      assert Addresses(gw) == Parsed(gw.via);
      ParsedOfFamily(gw.via, f);
    } else {
      assert Addresses(gw) == Parsed(gw.via4) + Parsed(gw.via6);
      FilterAppend(Parsed(gw.via4), Parsed(gw.via6), ServesFamily(f));
      assert f == V4 ==> two == [];
      assert f == V6 ==> one == [];
    }
  }

  /** A validated gateway gives at most one candidate of a family. */
  lemma ValidGatewayOffersOne(name: FamilyName, next: NextHop, gw: Gateway, f: Family)
    requires GatewayOk(name, next, gw)
    ensures OwnCandidates(next, f)(gw) ==
            if OfferedAddress(gw, f) == [] then [] else [Through(gw, next)(OfferedAddress(gw, f)[0])]
  {
    OffersOne(name, gw, f);
  }

  /** What a next hop's direct fields amount to: one gateway with its own settings. */
  function AsGateway(next: NextHop): Gateway {
    Gateway("", next.dev, next.via, next.via4, next.via6, next.onLink, next.check)
  }

  /** The gateways a next hop configures: its list, or its own fields when that is empty. */
  function Configured(next: NextHop): seq<Gateway> {
    if |next.gateways| == 0 then [AsGateway(next)] else next.gateways
  }

  /** A configured gateway as a candidate of a family. Its own device, health targets and timeout come
      before the next hop's; on-link holds if either says so. */
  function Offered(next: NextHop, gw: Gateway, f: Family): Option<Candidate> {
    if OfferedAddress(gw, f) == [] then None
    else
      var check := HealthCheck(if |gw.check.targets| > 0 then gw.check.targets else next.check.targets,
                               if gw.check.timeout == 0 then next.check.timeout else gw.check.timeout);
      Some(Candidate(if |gw.dev| > 0 then gw.dev else next.dev, gw.onLink || next.onLink, OfferedAddress(gw, f)[0],
                     check))
  }

  lemma DirectCandidates(next: NextHop)
    ensures CandidatesFromHop(next.dev, next.onLink, next.check, next.via, next.via4, next.via6) ==
            CandidatesFromGateway(AsGateway(next), next)
  {
    assert MergeHealthChecks(next.check, next.check) == next.check;
  }

  /** Every configured gateway gives its own candidates of a family, in configured order; without a
      list the next hop's own fields do. */
  lemma CandidatesExactly(next: NextHop, f: Family)
    ensures next.gateways != [] ==>
              CandidatesOf(Candidates(next), f) == Flattened(Mapped(next.gateways, OwnCandidates(next, f)))
    ensures next.gateways == [] ==> CandidatesOf(Candidates(next), f) == OwnCandidates(next, f)(AsGateway(next))
    ensures CandidatesOf(Candidates(next), f) == CandidatesOf(FromGateways(Configured(next), next), f)
  {
    if next.gateways == [] {
      DirectCandidates(next);
      GatewayCandidates(AsGateway(next), next, f);
      assert [AsGateway(next)][..0] == [];
      assert FromGateways([AsGateway(next)], next) == [] + CandidatesFromGateway(AsGateway(next), next);
      assert [] + CandidatesFromGateway(AsGateway(next), next) == CandidatesFromGateway(AsGateway(next), next);
    } else {
      GatewayOrder(next.gateways, next, f);
    }
  }

  lemma OwnIsOffered(next: NextHop, gw: Gateway, f: Family, name: FamilyName)
    requires ViasOk(name, gw.via, gw.via4, gw.via6)
    ensures OwnCandidates(next, f)(gw) == if Offered(next, gw, f).Some? then [Offered(next, gw, f).value] else []
  {
    OffersOne(name, gw, f);
  }

  function OfferOf(next: NextHop, f: Family): Gateway -> Option<Candidate> {
    gw => Offered(next, gw, f)
  }

  /** The candidates of validated gateways are what they offer, in configured order. */
  lemma {:induction false} CandidatesAreOffers(next: NextHop, gws: seq<Gateway>, f: Family, name: FamilyName)
    requires forall i :: 0 <= i < |gws| ==> ViasOk(name, gws[i].via, gws[i].via4, gws[i].via6)
    ensures CandidatesOf(FromGateways(gws, next), f) == Present(Mapped(gws, OfferOf(next, f)))
  {
    if gws != [] {
      var front, gw := gws[..|gws| - 1], gws[|gws| - 1];
      CandidatesAreOffers(next, front, f, name);
      FilterAppend(FromGateways(front, next), CandidatesFromGateway(gw, next), ReachesFamily(f));
      GatewayCandidates(gw, next, f);
      OwnIsOffered(next, gw, f, name);
      MappedLast(gws, OfferOf(next, f));
      assert Mapped(gws, OfferOf(next, f))[..|gws| - 1] == Mapped(front, OfferOf(next, f));
    }
  }

  function HealthyThrough(f: Family, ping: Pinger): Candidate -> bool {
    c => Healthy(f, c, ping)
  }

  /** The gateway's candidate answers. */
  predicate OffersHealthy(next: NextHop, gw: Gateway, f: Family, ping: Pinger) {
    Offered(next, gw, f).Some? && Healthy(f, Offered(next, gw, f).value, ping)
  }

  /** The first gateway in configured order whose candidate answers or, when none does, the first one
      that offers an address of the family. */
  ghost predicate Preferred(g: nat, next: NextHop, gws: seq<Gateway>, f: Family, ping: Pinger) {
    && g < |gws| && Offered(next, gws[g], f).Some?
    && if exists j :: 0 <= j < |gws| && OffersHealthy(next, gws[j], f, ping)
       then OffersHealthy(next, gws[g], f, ping) && forall j :: 0 <= j < g ==> !OffersHealthy(next, gws[j], f, ping)
       else forall j :: 0 <= j < g ==> Offered(next, gws[j], f).None?
  }

  lemma FirstPresentIsPreferred(g: nat, next: NextHop, gws: seq<Gateway>, f: Family, ping: Pinger)
    requires FirstPresent(g, Mapped(gws, OfferOf(next, f)), HealthyThrough(f, ping))
    ensures Preferred(g, next, gws, f, ping)
  {
    var os := Mapped(gws, OfferOf(next, f));
    forall j | 0 <= j < |gws|
      ensures os[j] == Offered(next, gws[j], f)
      ensures Good(os[j], HealthyThrough(f, ping)) <==> OffersHealthy(next, gws[j], f, ping)
    {
    }
  }

  /** The direct fields or every listed gateway passed validation. */
  predicate ViasValid(name: FamilyName, next: NextHop) {
    forall i :: 0 <= i < |Configured(next)| ==>
      ViasOk(name, Configured(next)[i].via, Configured(next)[i].via4, Configured(next)[i].via6)
  }

  lemma ValidatedVias(name: FamilyName, next: NextHop, requireDev: bool)
    requires NextHopOk(name, next, requireDev)
    ensures ViasValid(name, next)
  {
  }

  predicate OffersSome(next: NextHop, f: Family) {
    exists g :: 0 <= g < |Configured(next)| && Offered(next, Configured(next)[g], f).Some?
  }

  lemma CandidatesPresent(next: NextHop, f: Family, name: FamilyName)
    requires ViasValid(name, next)
    ensures CandidatesOf(Candidates(next), f) == Present(Mapped(Configured(next), OfferOf(next, f)))
  {
    CandidatesExactly(next, f);
    CandidatesAreOffers(next, Configured(next), f, name);
  }

  /** A validated next hop has candidates of a family exactly when one of its gateways offers one. */
  lemma CandidatesWhenOffered(next: NextHop, f: Family, name: FamilyName)
    requires ViasValid(name, next)
    ensures CandidatesOf(Candidates(next), f) != [] <==> OffersSome(next, f)
  {
    var gws := Configured(next);
    var os := Mapped(gws, OfferOf(next, f));
    CandidatesPresent(next, f, name);
    PresentEmpty(os);
    forall j | 0 <= j < |gws| ensures os[j] == Offered(next, gws[j], f) {
    }
  }

  /** The preferred candidate of a validated next hop is what its preferred gateway offers. */
  lemma PreferredIsConfigured(next: NextHop, f: Family, name: FamilyName, ping: Pinger, i: nat) returns (g: nat)
    requires ViasValid(name, next) && IsPreferred(i, f, CandidatesOf(Candidates(next), f), ping)
    ensures Preferred(g, next, Configured(next), f, ping)
    ensures Offered(next, Configured(next)[g], f) == Some(CandidatesOf(Candidates(next), f)[i])
  {
    var gws, cs := Configured(next), CandidatesOf(Candidates(next), f);
    var os := Mapped(gws, OfferOf(next, f));
    CandidatesPresent(next, f, name);
    forall j | 0 <= j < |cs| ensures Healthy(f, cs[j], ping) <==> HealthyThrough(f, ping)(cs[j]) {
    }
    assert FirstChoice(i, Present(os), HealthyThrough(f, ping));
    g := FirstChoicePresent(os, HealthyThrough(f, ping), i);
    FirstPresentIsPreferred(g, next, gws, f, ping);
  }

  method FilterCandidatesByFamily(cs: seq<Candidate>, f: Family) returns (out: seq<Candidate>)
    ensures out == CandidatesOf(cs, f)
  {
    out := [];
    for i := 0 to |cs|
      invariant out == CandidatesOf(cs[..i], f)
    {
      FilterStep(cs, i, ReachesFamily(f));
      if cs[i].via == NoAddr { continue; }
      if f == V4 && cs[i].via.fam == V4 { out := out + [cs[i]]; }
      if f == V6 && cs[i].via.fam == V6 { out := out + [cs[i]]; }
    }
    assert cs[..|cs|] == cs;
  }

  /** resolveCandidates reads an unset family as IPv4 only, unlike every other stage. */
  predicate Resolves(name: FamilyName, f: Family) {
    match f
    case V4 => name in {Unset, Dual, IPv4}
    case V6 => name in {Dual, IPv6}
  }

  /** Of the families a name selects, only IPv6 of an unset name is not resolved. */
  lemma ResolvesExactly(name: FamilyName, f: Family)
    ensures Resolves(name, f) <==> f in Families(name) && !(name == Unset && f == V6)
  {
  }

  /** The hops are Select's answer for these candidates, with the verdicts `flags`. */
  ghost predicate Selected(hops: seq<Hop>, f: Family, cs: seq<Candidate>, links: map<string, int>, ping: Pinger,
                           flags: seq<bool>) {
    && |flags| == |cs| == |hops| == |Order(flags)| && StrictMetrics(hops)
    && (forall i :: 0 <= i < |cs| ==> flags[i] == Healthy(f, cs[i], ping))
    && forall a :: 0 <= a < |cs| ==> HopAt(hops[a], cs, links, flags, a)
  }

  ghost predicate ResolvedFor(hops: seq<Hop>, name: FamilyName, f: Family, cs: seq<Candidate>, links: map<string, int>,
                              ping: Pinger, flags: seq<bool>) {
    if Resolves(name, f) then Selected(hops, f, CandidatesOf(cs, f), links, ping, flags) else hops == []
  }

  /** The first healthy candidate in configured order, or the first one when none is healthy. */
  ghost predicate IsPreferred(i: nat, f: Family, cs: seq<Candidate>, ping: Pinger) {
    && i < |cs|
    && if exists j :: 0 <= j < |cs| && Healthy(f, cs[j], ping)
       then Healthy(f, cs[i], ping) && forall j :: 0 <= j < i ==> !Healthy(f, cs[j], ping)
       else i == 0
  }

  lemma FirstHopIsPreferred(hops: seq<Hop>, f: Family, cs: seq<Candidate>, links: map<string, int>, ping: Pinger,
                            flags: seq<bool>)
    returns (i: nat)
    requires Selected(hops, f, cs, links, ping, flags) && cs != []
    ensures IsPreferred(i, f, cs, ping) && cs[i].dev in links
    ensures hops[0].via == cs[i].via && hops[0].linkIndex == links[cs[i].dev] && hops[0].onLink == cs[i].onLink
    ensures hops[0].metric == 100
  {
    FirstInOrder(flags);
    MetricValues(flags, 0, flags[Order(flags)[0]]);
    i := Order(flags)[0];
    assert HopAt(hops[0], cs, links, flags, 0);
    assert true in flags <==> exists j :: 0 <= j < |cs| && Healthy(f, cs[j], ping) by {
      if true in flags {
        var j :| 0 <= j < |flags| && flags[j] == true;
        assert Healthy(f, cs[j], ping);
      }
    }
  }

  predicate LinksKnown(cs: seq<Candidate>, links: map<string, int>) {
    forall i :: 0 <= i < |cs| ==> cs[i].dev in links
  }

  method ResolveFamily(name: FamilyName, f: Family, cs: seq<Candidate>, links: map<string, int>, ping: Pinger)
    returns (out: Option<seq<Hop>>, ghost flags: seq<bool>)
    ensures out.Some? <==> (Resolves(name, f) ==> LinksKnown(CandidatesOf(cs, f), links))
    ensures out.Some? ==> ResolvedFor(out.value, name, f, cs, links, ping, flags)
  {
    if !Resolves(name, f) { return Some([]), []; }
    var mine := FilterCandidatesByFamily(cs, f);
    out, flags := Select(f, mine, links, ping);
  }

  /** An error only for an unknown interface; otherwise the IPv4 hops followed by the IPv6 hops. */
  method ResolveCandidates(name: FamilyName, cs: seq<Candidate>, links: map<string, int>, ping4: Pinger, ping6: Pinger)
    returns (out: Option<seq<Hop>>, ghost v4: seq<Hop>, ghost v6: seq<Hop>, ghost flags4: seq<bool>,
             ghost flags6: seq<bool>)
    ensures out.Some? ==> out.value == v4 + v6
    ensures out.Some? ==>
              ResolvedFor(v4, name, V4, cs, links, ping4, flags4) && ResolvedFor(v6, name, V6, cs, links, ping6, flags6)
    ensures out.Some? <==>
              && (Resolves(name, V4) ==> LinksKnown(CandidatesOf(cs, V4), links))
              && (Resolves(name, V6) ==> LinksKnown(CandidatesOf(cs, V6), links))
  {
    v4, v6, flags4, flags6 := [], [], [], [];
    if |cs| == 0 { return Some([]), v4, v6, flags4, flags6; }
    var found4, found6;
    found4, flags4 := ResolveFamily(name, V4, cs, links, ping4);
    if found4 == None { return None, v4, v6, flags4, flags6; }
    found6, flags6 := ResolveFamily(name, V6, cs, links, ping6);
    if found6 == None { return None, v4, v6, flags4, flags6; }
    return Some(found4.value + found6.value), found4.value, found6.value, flags4, flags6;
  }

  /** A selected hop's gateway has the family it was selected for. */
  lemma SelectedFamily(hops: seq<Hop>, name: FamilyName, f: Family, cs: seq<Candidate>, links: map<string, int>,
                       ping: Pinger, flags: seq<bool>)
    requires ResolvedFor(hops, name, f, cs, links, ping, flags)
    ensures forall a :: 0 <= a < |hops| ==> hops[a].via.IP? && hops[a].via.fam == f
    ensures StrictMetrics(hops)
  {
    FilterMembers(cs, ReachesFamily(f));
    if Resolves(name, f) {
      forall a | 0 <= a < |hops| ensures hops[a].via.IP? && hops[a].via.fam == f {
        assert HopAt(hops[a], CandidatesOf(cs, f), links, flags, a);
        assert CandidatesOf(cs, f)[Order(flags)[a]] in CandidatesOf(cs, f);
      }
    }
  }
}
