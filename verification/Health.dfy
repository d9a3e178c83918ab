/** Gateway selection: stable partition by health, and metrics. The pinger is an oracle. */
module Health {
  import opened Wrappers
  import opened Prefixes
  import opened Config

  const METRIC_BASE := 100
  const METRIC_STEP := 10
  const UNHEALTHY_METRIC_OFFSET := 1000

  const DEFAULT_IPV4_TARGETS := [AddrText(IP(V4, 0x0808_0808)), AddrText(IP(V4, 0x0101_0101))]
  const DEFAULT_IPV6_TARGETS := [
    AddrText(IP(V6, 0x2001_4860_4860_0000_0000_0000_0000_8888)),
    AddrText(IP(V6, 0x2606_4700_4700_0000_0000_0000_0000_1111))]

  datatype Candidate = Candidate(dev: string, onLink: bool, via: Addr, check: HealthCheck)

  datatype Hop = Hop(linkIndex: int, onLink: bool, via: Addr, metric: int, healthy: bool)

  /** Whether a ping of the address through the candidate is answered. */
  type Pinger = (Candidate, Addr) -> bool

  function Targets(family: Family, c: Candidate): seq<AddrText> {
    if c.check.targets != [] then c.check.targets
    else if family == V6 then DEFAULT_IPV6_TARGETS else DEFAULT_IPV4_TARGETS
  }

  predicate Answers(family: Family, c: Candidate, t: AddrText, ping: Pinger) {
    OfFamily(t, family) && ping(c, t.addr)
  }

  /** Some configured address of the family answers or, with none configured at all, one of the two
      public resolvers of that family. */
  predicate Healthy(family: Family, c: Candidate, ping: Pinger) {
    if c.check.targets != [] then exists t :: t in c.check.targets && Answers(family, c, t, ping)
    else match family
      case V4 => ping(c, IP(V4, 0x0808_0808)) || ping(c, IP(V4, 0x0101_0101))
      case V6 =>
        ping(c, IP(V6, 0x2001_4860_4860_0000_0000_0000_0000_8888)) ||
        ping(c, IP(V6, 0x2606_4700_4700_0000_0000_0000_0000_1111))
  }

  /** Without configured targets there is something to ping, and all of it is of the family. */
  lemma DefaultTargetsFit(family: Family, c: Candidate)
    requires c.check.targets == []
    ensures |Targets(family, c)| == 2 && forall t :: t in Targets(family, c) ==> OfFamily(t, family)
  {
  }

  lemma TargetsDecide(family: Family, c: Candidate, ping: Pinger)
    ensures Healthy(family, c, ping) <==> exists t :: t in Targets(family, c) && Answers(family, c, t, ping)
  {
    if c.check.targets == [] {
      var ts := Targets(family, c);
      assert ts[0] in ts && ts[1] in ts && forall t :: t in ts ==> t == ts[0] || t == ts[1];
      assert Healthy(family, c, ping) <==> Answers(family, c, ts[0], ping) || Answers(family, c, ts[1], ping);
    }
  }

  /** A candidate that answers whatever it is asked is healthy unless only addresses of the other
      family are configured, and a silent one never is. */
  lemma AnsweringIsHealthy(family: Family, c: Candidate, ping: Pinger)
    ensures (forall a :: ping(c, a)) ==>
              (Healthy(family, c, ping) <==>
               c.check.targets == [] || exists t :: t in c.check.targets && OfFamily(t, family))
    ensures (forall a :: !ping(c, a)) ==> !Healthy(family, c, ping)
  {
  }

  method EvaluateCandidate(family: Family, c: Candidate, ping: Pinger) returns (healthy: bool, via: Addr)
    ensures healthy <==> Healthy(family, c, ping)
    ensures !healthy ==> via == NoAddr
    ensures healthy ==> exists j: nat :: j < |Targets(family, c)| && Answers(family, c, Targets(family, c)[j], ping) &&
                          via == Targets(family, c)[j].addr &&
                          forall l: nat :: l < j ==> !Answers(family, c, Targets(family, c)[l], ping)
  {
    var targets := Targets(family, c);
    TargetsDecide(family, c, ping);
    for j := 0 to |targets|
      invariant forall l: nat :: l < j ==> !Answers(family, c, targets[l], ping)
    {
      if !targets[j].AddrText? { continue; }
      if !OfFamily(targets[j], family) { continue; }
      if ping(c, targets[j].addr) {
        assert Answers(family, c, targets[j], ping);
        return true, targets[j].addr;
      }
    }
    return false, NoAddr;
  }

  // ---- the order and the metrics ----

  /** The indices below n whose flag is `want`, in increasing order. */
  function Flagged(flags: seq<bool>, n: nat, want: bool): seq<nat>
    requires n <= |flags|
  {
    if n == 0 then []
    else Flagged(flags, n - 1, want) + if flags[n - 1] == want then [n - 1] else []
  }

  function Order(flags: seq<bool>): seq<nat> {
    Flagged(flags, |flags|, true) + Flagged(flags, |flags|, false)
  }

  function Metric(flags: seq<bool>, pos: nat, healthy: bool): int {
    METRIC_BASE + pos * METRIC_STEP + if true in flags && !healthy then UNHEALTHY_METRIC_OFFSET else 0
  }

  /** The hop at a position of the result belongs to the candidate the order puts there. */
  ghost predicate HopAt(h: Hop, cs: seq<Candidate>, links: map<string, int>, flags: seq<bool>, pos: nat)
    requires |flags| == |cs| && pos < |Order(flags)|
  {
    var i := Order(flags)[pos];
    && i < |cs| && cs[i].dev in links
    && h.linkIndex == links[cs[i].dev] && h.onLink == cs[i].onLink && h.via == cs[i].via
    && h.healthy == flags[i] && h.metric == Metric(flags, pos, flags[i])
  }

  lemma {:induction false} FlaggedMembers(flags: seq<bool>, n: nat, want: bool)
    requires n <= |flags|
    ensures forall i: nat :: i in Flagged(flags, n, want) <==> i < n && flags[i] == want
    ensures forall a, b :: 0 <= a < b < |Flagged(flags, n, want)| ==>
              Flagged(flags, n, want)[a] < Flagged(flags, n, want)[b]
    ensures forall a :: 0 <= a < |Flagged(flags, n, want)| ==>
              Flagged(flags, n, want)[a] < n && flags[Flagged(flags, n, want)[a]] == want
  {
    if n > 0 { FlaggedMembers(flags, n - 1, want); }
  }

  lemma {:induction false} FlaggedCount(flags: seq<bool>, n: nat)
    requires n <= |flags|
    ensures |Flagged(flags, n, true)| + |Flagged(flags, n, false)| == n
  {
    if n > 0 { FlaggedCount(flags, n - 1); }
  }

  /** Order is the stable permutation that puts the healthy candidates first. */
  lemma OrderIsStablePartition(flags: seq<bool>)
    ensures |Order(flags)| == |flags|
    ensures forall i: nat :: i in Order(flags) <==> i < |flags|
    ensures forall a :: 0 <= a < |flags| ==> Order(flags)[a] < |flags|
    ensures forall a, b :: 0 <= a < b < |flags| ==>
              var i, j := Order(flags)[a], Order(flags)[b];
              if flags[i] == flags[j] then i < j else flags[i]
  {
    FlaggedMembers(flags, |flags|, true);
    FlaggedMembers(flags, |flags|, false);
    FlaggedCount(flags, |flags|);
  }

  /** So the first hop is the first healthy candidate, or the first one when none is healthy. */
  lemma FirstInOrder(flags: seq<bool>)
    requires flags != []
    ensures |Order(flags)| == |flags|
    ensures var f := Order(flags)[0];
            && f < |flags|
            && (true in flags ==> flags[f] && forall i :: 0 <= i < f ==> !flags[i])
            && (true !in flags ==> f == 0)
  {
    OrderIsStablePartition(flags);
    var f := Order(flags)[0];
    forall i: nat | i < |flags| && i != f ensures if flags[f] == flags[i] then f < i else flags[f] {
      assert i in Order(flags);
      var b :| 0 <= b < |Order(flags)| && Order(flags)[b] == i;
    }
    if true in flags {
      var k :| 0 <= k < |flags| && flags[k];
      assert flags[f];
    } else {
      assert !flags[0] && !flags[f];
    }
  }

  /** 100 for the first place and 10 more for each further one; 1000 on top for a silent candidate when
      another one answers. */
  lemma MetricValues(flags: seq<bool>, pos: nat, healthy: bool)
    ensures Metric(flags, pos, healthy) == if true in flags && !healthy then 1100 + 10 * pos else 100 + 10 * pos
  {
  }

  lemma MetricsIncrease(flags: seq<bool>, a: nat, b: nat)
    requires a < b < |flags|
    ensures |Order(flags)| == |flags| && Order(flags)[a] < |flags| && Order(flags)[b] < |flags|
    ensures Metric(flags, a, flags[Order(flags)[a]]) < Metric(flags, b, flags[Order(flags)[b]])
  {
    OrderIsStablePartition(flags);
  }

  ghost predicate StrictMetrics(hops: seq<Hop>) {
    (forall i :: 0 <= i < |hops| ==> hops[i].metric >= METRIC_BASE) &&
    forall i, j :: 0 <= i < j < |hops| ==> hops[i].metric < hops[j].metric
  }

  /** None only when an interface name is unknown. Otherwise the candidates in health order, each
      with its own link, gateway and verdict, and strictly increasing metrics. */
  method Select(family: Family, cs: seq<Candidate>, links: map<string, int>, ping: Pinger)
    returns (out: Option<seq<Hop>>, ghost flags: seq<bool>)
    ensures out.Some? <==> forall i :: 0 <= i < |cs| ==> cs[i].dev in links
    ensures |flags| == |cs| && forall i :: 0 <= i < |cs| ==> flags[i] == Healthy(family, cs[i], ping)
    ensures out.Some? ==> |out.value| == |Order(flags)| == |cs| && StrictMetrics(out.value)
    ensures out.Some? ==> forall a :: 0 <= a < |cs| ==> HopAt(out.value[a], cs, links, flags, a)
  {
    flags := seq(|cs|, i requires 0 <= i < |cs| => Healthy(family, cs[i], ping));
    OrderIsStablePartition(flags);
    var items: seq<Hop> := [];
    for i := 0 to |cs|
      invariant |items| == i
      invariant forall j :: 0 <= j < i ==> ItemFor(items[j], cs[j], links, flags[j])
    {
      if cs[i].dev !in links { return None, flags; }
      var healthy, via := EvaluateCandidate(family, cs[i], ping);
      items := items + [Hop(links[cs[i].dev], cs[i].onLink, cs[i].via, 0, healthy)];
    }
    var ordered, hasHealthy := HealthyFirst(items, flags);
    var hops := AssignMetrics(ordered, hasHealthy);
    forall a, b | 0 <= a < b < |hops| ensures hops[a].metric < hops[b].metric {
      MetricsIncrease(flags, a, b);
    }
    return Some(hops), flags;
  }

  ghost predicate ItemFor(h: Hop, c: Candidate, links: map<string, int>, healthy: bool) {
    c.dev in links && h.linkIndex == links[c.dev] && h.onLink == c.onLink && h.via == c.via && h.healthy == healthy
  }

  method HealthyFirst(items: seq<Hop>, ghost flags: seq<bool>) returns (ordered: seq<Hop>, hasHealthy: bool)
    requires |items| == |flags| && forall i :: 0 <= i < |items| ==> items[i].healthy == flags[i]
    ensures hasHealthy <==> true in flags
    ensures |ordered| == |Order(flags)| == |items|
    ensures forall a :: 0 <= a < |items| ==> Order(flags)[a] < |items| && ordered[a] == items[Order(flags)[a]]
  {
    OrderIsStablePartition(flags);
    hasHealthy := false;
    for i := 0 to |items|
      invariant !hasHealthy && true !in flags[..i]
    {
      if items[i].healthy {
        hasHealthy := true;
        break;
      }
    }
    if hasHealthy {
      var healthy := Pick(items, true, flags);
      var rest := Pick(items, false, flags);
      ordered := healthy + rest;
    } else {
      assert flags[..|flags|] == flags;
      AllFlagged(flags, |flags|);
      ordered := items;
    }
  }

  lemma {:induction false} AllFlagged(flags: seq<bool>, n: nat)
    requires n <= |flags| && true !in flags
    ensures Flagged(flags, n, true) == []
    ensures |Flagged(flags, n, false)| == n && forall a :: 0 <= a < n ==> Flagged(flags, n, false)[a] == a
  {
    if n > 0 {
      AllFlagged(flags, n - 1);
      assert flags[n - 1] in flags;
    }
  }

  method AssignMetrics(ordered: seq<Hop>, hasHealthy: bool) returns (out: seq<Hop>)
    ensures |out| == |ordered|
    ensures forall a :: 0 <= a < |out| ==>
              out[a] == ordered[a].(metric := METRIC_BASE + a * METRIC_STEP +
                                    if hasHealthy && !ordered[a].healthy then UNHEALTHY_METRIC_OFFSET else 0)
  {
    out := [];
    for a := 0 to |ordered|
      invariant |out| == a
      invariant forall b :: 0 <= b < a ==>
                  out[b] == ordered[b].(metric := METRIC_BASE + b * METRIC_STEP +
                                        if hasHealthy && !ordered[b].healthy then UNHEALTHY_METRIC_OFFSET else 0)
    {
      var metric := METRIC_BASE + a * METRIC_STEP;
      if hasHealthy && !ordered[a].healthy { metric := metric + UNHEALTHY_METRIC_OFFSET; }
      out := out + [ordered[a].(metric := metric)];
    }
  }

  method Pick(items: seq<Hop>, want: bool, ghost flags: seq<bool>) returns (out: seq<Hop>)
    requires |items| == |flags| && forall i :: 0 <= i < |items| ==> items[i].healthy == flags[i]
    ensures |out| == |Flagged(flags, |flags|, want)|
    ensures forall a :: 0 <= a < |out| ==>
              Flagged(flags, |flags|, want)[a] < |items| && out[a] == items[Flagged(flags, |flags|, want)[a]]
  {
    out := [];
    for i := 0 to |items|
      invariant |out| == |Flagged(flags, i, want)|
      invariant forall a :: 0 <= a < |out| ==>
                  Flagged(flags, i, want)[a] < i && out[a] == items[Flagged(flags, i, want)[a]]
    {
      if items[i].healthy == want { out := out + [items[i]]; }
    }
  }
}
