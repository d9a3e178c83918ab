/** The configuration values later stages rely on, and Validate. Text fields are kept as what
    netip makes of them: absent, unparsable, or the parsed value. */
module Config {
  import opened Wrappers
  import opened Prefixes
  import opened Sequences

  datatype AddrText = NoText | BadText | AddrText(addr: Addr)

  datatype PrefixText = NoPrefixText | BadPrefixText | PrefixText(prefix: Prefix)

  datatype FamilyName = Unset | Dual | IPv4 | IPv6 | OtherFamily(text: string)

  datatype SourceType = RipeCountry | Txt | OtherSource(text: string)

  datatype SourceConfig = SourceConfig(kind: SourceType, country: string, url: string)

  datatype HealthCheck = HealthCheck(targets: seq<AddrText>, timeout: int)

  datatype Gateway = Gateway(
    name: string, dev: string, via: AddrText, via4: AddrText, via6: AddrText, onLink: bool, check: HealthCheck)

  datatype NextHop = NextHop(
    dev: string, via: AddrText, via4: AddrText, via6: AddrText, onLink: bool, check: HealthCheck,
    gateways: seq<Gateway>)

  /** A target is a next hop (`hop`) with a table, a family, a default and exclusions. */
  datatype Target = Target(
    table: int, hop: NextHop, family: FamilyName, default: Option<NextHop>,
    excludeLocalIPs: bool, excludePrefixes: seq<PrefixText>)

  datatype RuleConfig = RuleConfig(
    enabled: bool, priority: int, fwMark: nat, mask: nat, table: int, from: PrefixText)

  datatype RouteGroup = RouteGroup(
    name: string, enabled: bool, source: SourceConfig, target: Target, rule: RuleConfig)

  datatype Config = Config(
    logFormat: string, stateDir: string, routeProtocol: int, rulePriorityBase: int, rulePriorityStep: int,
    aggregation: bool, cleanupOnShutdown: bool,
    ruBuiltin: Option<bool>, ruDefault: RouteGroup, specialZones: seq<RouteGroup>)

  /** The families a name selects, as FilterFamily and both CurrentOwned functions read it. */
  function Families(name: FamilyName): set<Family> {
    match name
    case Unset => {V4, V6}
    case Dual => {V4, V6}
    case IPv4 => {V4}
    case IPv6 => {V6}
    case OtherFamily(_) => {}
  }

  predicate RUEnabled(c: Config) {
    c.ruDefault.enabled && c.ruBuiltin == Some(true)
  }

  function ZoneEnabled(): RouteGroup -> bool {
    (z: RouteGroup) => z.enabled
  }

  function EnabledZones(zones: seq<RouteGroup>): seq<RouteGroup> {
    Filter(zones, ZoneEnabled())
  }

  function Groups(c: Config): seq<RouteGroup> {
    (if RUEnabled(c) then [c.ruDefault.(name := "ru_default")] else []) + EnabledZones(c.specialZones)
  }

  /** The active groups: the built-in one under its fixed name, when it is enabled and not switched off
      as a source, and the enabled zones. */
  lemma GroupsMembers(c: Config, g: RouteGroup)
    ensures g in Groups(c) <==>
              || (c.ruDefault.enabled && c.ruBuiltin == Some(true) && g == c.ruDefault.(name := "ru_default"))
              || (g in c.specialZones && g.enabled)
  {
    FilterMembers(c.specialZones, ZoneEnabled());
  }

  lemma FamiliesExactly(name: FamilyName, f: Family)
    ensures f in Families(name) <==>
              name == Unset || name == Dual || (name == IPv4 && f == V4) || (name == IPv6 && f == V6)
  {
  }

  function MergeHealthChecks(parent: HealthCheck, child: HealthCheck): HealthCheck {
    HealthCheck(
      if child.targets != [] then child.targets else parent.targets,
      if child.timeout != 0 then child.timeout else parent.timeout)
  }

  function Coalesce(a: string, b: string): string {
    if a != "" then a else b
  }

  // ---- what a valid configuration is ----

  predicate OfFamily(t: AddrText, f: Family) {
    t.AddrText? && t.addr.IP? && t.addr.fam == f
  }

  predicate CheckOk(hc: HealthCheck) {
    (forall i :: 0 <= i < |hc.targets| ==> hc.targets[i].AddrText?) && hc.timeout >= 0
  }

  /** The direct via fields: parsable, of the right family, and unambiguous for a dual target. */
  predicate ViasOk(family: FamilyName, via: AddrText, via4: AddrText, via6: AddrText) {
    && (via == NoText || (via.AddrText? && !(family == Dual && via4 == NoText && via6 == NoText)))
    && (via4 == NoText || OfFamily(via4, V4))
    && (via6 == NoText || OfFamily(via6, V6))
  }

  predicate Blank(s: string) {
    s != "" && forall i :: 0 <= i < |s| ==> s[i] in " \t\r\n"
  }

  predicate GatewayOk(family: FamilyName, h: NextHop, gw: Gateway) {
    && !(gw.via == NoText && gw.via4 == NoText && gw.via6 == NoText)
    && !Blank(gw.name)
    && CheckOk(MergeHealthChecks(h.check, gw.check))
    && Coalesce(gw.dev, h.dev) != ""
    && ViasOk(family, gw.via, gw.via4, gw.via6)
  }

  predicate NextHopOk(family: FamilyName, h: NextHop, requireDev: bool) {
    && CheckOk(h.check)
    && if h.gateways != [] then forall i :: 0 <= i < |h.gateways| ==> GatewayOk(family, h, h.gateways[i])
       else (requireDev ==> h.dev != "") && ViasOk(family, h.via, h.via4, h.via6)
  }

  function DualIfUnset(family: FamilyName): FamilyName {
    if family == Unset then Dual else family
  }

  predicate GroupOk(g: RouteGroup) {
    var family := DualIfUnset(g.target.family);
    && g.name != ""
    && (match g.source.kind
        case RipeCountry => g.source.country != ""
        case Txt => g.source.url != ""
        case OtherSource(_) => false)
    && g.target.table > 0
    && (g.target.hop.dev != "" || g.target.hop.gateways != [])
    && !family.OtherFamily?
    && NextHopOk(family, g.target.hop, false)
    && (g.target.default.Some? ==> NextHopOk(family, g.target.default.value, true))
    && (forall i :: 0 <= i < |g.target.excludePrefixes| ==> g.target.excludePrefixes[i].PrefixText?)
    && (g.rule.enabled ==>
          g.rule.priority > 0 && g.rule.table > 0 && g.rule.table == g.target.table && g.rule.from != BadPrefixText)
  }

  /** With the built-in group's rule on, every enabled zone's rule comes before it. */
  predicate PrioritiesOk(c: Config) {
    RUEnabled(c) && c.ruDefault.rule.enabled ==> ZonesFirst(c, |c.specialZones|)
  }

  predicate ZonesFirst(c: Config, n: nat)
    requires n <= |c.specialZones|
  {
    forall i :: 0 <= i < n && c.specialZones[i].enabled && c.specialZones[i].rule.enabled ==>
      c.specialZones[i].rule.priority < c.ruDefault.rule.priority
  }

  predicate ConfigOk(c: Config) {
    && c.logFormat in ["text", "json"]
    && 1 <= c.routeProtocol <= 255
    && c.rulePriorityBase > 0 && c.rulePriorityStep > 0
    && (forall i :: 0 <= i < |Groups(c)| ==> GroupOk(Groups(c)[i]))
    && PrioritiesOk(c)
  }

  // ---- Validate ----

  datatype Problem = BadGlobal(what: string) | BadGroup(name: string) | BadField(path: string, what: string)

  method GroupsOf(c: Config) returns (out: seq<RouteGroup>)
    ensures out == Groups(c)
  {
    out := [];
    if RUEnabled(c) { out := [c.ruDefault.(name := "ru_default")]; }
    ghost var head := out;
    for i := 0 to |c.specialZones|
      invariant out == head + EnabledZones(c.specialZones[..i])
    {
      FilterStep(c.specialZones, i, ZoneEnabled());
      if c.specialZones[i].enabled { out := out + [c.specialZones[i]]; }
    }
    assert c.specialZones[..|c.specialZones|] == c.specialZones;
  }

  method Validate(c: Config) returns (errs: seq<Problem>)
    ensures errs == [] <==> ConfigOk(c)
  {
    errs := [];
    if c.logFormat != "text" && c.logFormat != "json" { errs := errs + [BadGlobal("log_format")]; }
    if c.routeProtocol < 1 || c.routeProtocol > 255 { errs := errs + [BadGlobal("route_protocol")]; }
    if c.rulePriorityBase <= 0 || c.rulePriorityStep <= 0 { errs := errs + [BadGlobal("rule priority")]; }
    ghost var globalOk := errs == [];
    var groups := GroupsOf(c);
    for i := 0 to |groups|
      invariant errs == [] <==> globalOk && forall j :: 0 <= j < i ==> GroupOk(groups[j])
    {
      var groupErrs := ValidateGroup(groups[i]);
      if groupErrs != [] { errs := errs + [BadGroup(groups[i].name)]; }
    }
    ghost var groupsOk := errs == [];
    if RUEnabled(c) {
      for i := 0 to |c.specialZones|
        invariant errs == [] <==> groupsOk && (c.ruDefault.rule.enabled ==> ZonesFirst(c, i))
      {
        var z := c.specialZones[i];
        if z.enabled && z.rule.enabled && c.ruDefault.rule.enabled && z.rule.priority >= c.ruDefault.rule.priority {
          errs := errs + [BadGroup(z.name)];
        }
      }
    }
  }

  method ValidateGroup(g: RouteGroup) returns (errs: seq<Problem>)
    ensures errs == [] <==> GroupOk(g)
  {
    errs := [];
    if g.name == "" { errs := errs + [BadField("name", "required")]; }
    match g.source.kind {
      case RipeCountry => if g.source.country == "" { errs := errs + [BadField("source", "country")]; }
      case Txt => if g.source.url == "" { errs := errs + [BadField("source", "url")]; }
      case OtherSource(_) => errs := errs + [BadField("source", "type")];
    }
    if g.target.table <= 0 { errs := errs + [BadField("target", "table")]; }
    if g.target.hop.dev == "" && |g.target.hop.gateways| == 0 { errs := errs + [BadField("target", "dev")]; }
    var family := DualIfUnset(g.target.family);
    if family.OtherFamily? { errs := errs + [BadField("target", "family")]; }
    var hopErrs := ValidateNextHop(family, g.target.hop, false);
    errs := errs + hopErrs;
    if g.target.default.Some? {
      hopErrs := ValidateNextHop(family, g.target.default.value, true);
      errs := errs + hopErrs;
    }
    ghost var before := errs;
    for i := 0 to |g.target.excludePrefixes|
      invariant errs == [] <==> before == [] && forall j :: 0 <= j < i ==> g.target.excludePrefixes[j].PrefixText?
    {
      if !g.target.excludePrefixes[i].PrefixText? { errs := errs + [BadField("target", "exclude_prefixes")]; }
    }
    if g.rule.enabled {
      if g.rule.priority <= 0 || g.rule.table <= 0 { errs := errs + [BadField("rule", "priority and table")]; }
      if g.rule.table != g.target.table { errs := errs + [BadField("rule", "table")]; }
      if g.rule.from == BadPrefixText { errs := errs + [BadField("rule", "from")]; }
    }
  }

  method ValidateHealthCheck(hc: HealthCheck) returns (errs: seq<Problem>)
    ensures errs == [] <==> CheckOk(hc)
  {
    errs := [];
    for i := 0 to |hc.targets|
      invariant errs == [] <==> forall j :: 0 <= j < i ==> hc.targets[j].AddrText?
    {
      if !hc.targets[i].AddrText? { errs := errs + [BadField("health_check", "targets")]; }
    }
    if hc.timeout < 0 { errs := errs + [BadField("health_check", "timeout")]; }
  }

  method ValidateNextHop(family: FamilyName, h: NextHop, requireDev: bool) returns (errs: seq<Problem>)
    ensures errs == [] <==> NextHopOk(family, h, requireDev)
    decreases |h.gateways|
  {
    errs := ValidateHealthCheck(h.check);
    if h.gateways != [] {
      ghost var before := errs;
      for i := 0 to |h.gateways|
        invariant errs == [] <==> before == [] && forall j :: 0 <= j < i ==> GatewayOk(family, h, h.gateways[j])
      {
        var gw := h.gateways[i];
        var merged := NextHop(Coalesce(gw.dev, h.dev), gw.via, gw.via4, gw.via6, gw.onLink || h.onLink,
                              MergeHealthChecks(h.check, gw.check), []);
        if merged.via == NoText && merged.via4 == NoText && merged.via6 == NoText {
          errs := errs + [BadField("gateways", "via")];
        }
        if Blank(gw.name) { errs := errs + [BadField("gateways", "name")]; }
        var more := ValidateHealthCheck(merged.check);
        errs := errs + more;
        more := ValidateNextHop(family, merged, true);
        errs := errs + more;
      }
      return;
    }
    if requireDev && h.dev == "" { errs := errs + [BadField("dev", "required")]; }
    if h.via != NoText {
      if h.via == BadText {
        errs := errs + [BadField("via", "not an address")];
      } else if family == Dual && h.via4 == NoText && h.via6 == NoText {
        errs := errs + [BadField("via", "ambiguous")];
      }
    }
    if h.via4 != NoText && !OfFamily(h.via4, V4) { errs := errs + [BadField("via4", "not IPv4")]; }
    if h.via6 != NoText && !OfFamily(h.via6, V6) { errs := errs + [BadField("via6", "not IPv6")]; }
  }
}
