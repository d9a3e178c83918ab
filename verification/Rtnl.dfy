/** Routes, rules and the idealised kernel that holds them. */
module Rtnl {
  import opened Wrappers
  import opened Prefixes
  import opened Sequences

  datatype RouteType = Unicast | Throw

  /** The eight fields the program compares; Group and Dev only reach log lines. */
  datatype Route = Route(
    table: int, protocol: int, kind: RouteType, linkIndex: int,
    via: Addr, onLink: bool, metric: int, dst: Prefix)

  datatype Rule = Rule(
    priority: int, table: int, hasFWMark: bool, fwMark: nat, mask: nat, from: Prefix)

  /** The kernel keeps at most one route for a destination and metric in a table. */
  datatype Slot = Slot(table: int, dst: Prefix, metric: int)

  function SlotOf(r: Route): Slot {
    Slot(r.table, r.dst, r.metric)
  }

  ghost predicate SlotsDistinct(routes: set<Route>) {
    forall r, r' :: r in routes && r' in routes && SlotOf(r) == SlotOf(r') ==> r == r'
  }

  /** The route as the kernel stores it: masked destination, and no next hop on a throw route. */
  function Installed(r: Route): Route {
    var m := r.(dst := MaskedOrSame(r.dst));
    if r.kind == Throw then m.(linkIndex := 0, via := NoAddr, onLink := false) else m
  }

  /** The rule as the kernel stores it: no mark without a mask, and a masked source. */
  function InstalledRule(r: Rule): Rule {
    var m := r.(from := MaskedOrSame(r.from));
    if r.hasFWMark then m else m.(fwMark := 0, mask := 0)
  }

  // ---- route operations ----

  datatype Op = Add(route: Route) | Delete(route: Route)

  /** EEXIST is ignored, so adding to an occupied slot does nothing; deleting needs an exact match. */
  function Step(routes: set<Route>, op: Op): set<Route> {
    var r := Installed(op.route);
    match op
    case Add(_) => if exists r' :: r' in routes && SlotOf(r') == SlotOf(r) then routes else routes + {r}
    case Delete(_) => routes - {r}
  }

  function Run(routes: set<Route>, ops: seq<Op>): set<Route> {
    if ops == [] then routes else Step(Run(routes, ops[..|ops| - 1]), ops[|ops| - 1])
  }

  lemma RunSnoc(routes: set<Route>, log: seq<Op>, op: Op)
    ensures Run(routes, log + [op]) == Step(Run(routes, log), op)
  {
    assert (log + [op])[..|log|] == log;
  }

  lemma {:induction false} RunAppend(routes: set<Route>, a: seq<Op>, b: seq<Op>)
    ensures Run(routes, a + b) == Run(Run(routes, a), b)
  {
    if b == [] {
      assert a + b == a;
    } else {
      assert (a + b)[..|a + b| - 1] == a + b[..|b| - 1];
      RunAppend(routes, a, b[..|b| - 1]);
    }
  }

  lemma {:induction false} RunKeepsSlots(routes: set<Route>, ops: seq<Op>)
    requires SlotsDistinct(routes)
    ensures SlotsDistinct(Run(routes, ops))
  {
    if ops != [] { RunKeepsSlots(routes, ops[..|ops| - 1]); }
  }

  // ---- rule operations ----

  datatype RuleOp = AddRule(rule: Rule) | DeleteRule(rule: Rule)

  function RuleStep(rules: set<Rule>, op: RuleOp): set<Rule> {
    match op
    case AddRule(r) => rules + {InstalledRule(r)}
    case DeleteRule(r) => rules - {InstalledRule(r)}
  }

  function RuleRun(rules: set<Rule>, ops: seq<RuleOp>): set<Rule> {
    if ops == [] then rules else RuleStep(RuleRun(rules, ops[..|ops| - 1]), ops[|ops| - 1])
  }

  lemma RuleRunSnoc(rules: set<Rule>, log: seq<RuleOp>, op: RuleOp)
    ensures RuleRun(rules, log + [op]) == RuleStep(RuleRun(rules, log), op)
  {
    assert (log + [op])[..|log|] == log;
  }

  lemma {:induction false} RuleRunAppend(rules: set<Rule>, a: seq<RuleOp>, b: seq<RuleOp>)
    ensures RuleRun(rules, a + b) == RuleRun(RuleRun(rules, a), b)
  {
    if b == [] {
      assert a + b == a;
    } else {
      assert (a + b)[..|a + b| - 1] == a + b[..|b| - 1];
      RuleRunAppend(rules, a, b[..|b| - 1]);
    }
  }

  /** The kernel behind the rtnl.Kernel interface. Any call may fail, and then changes nothing. */
  class Kernel {
    var routes: set<Route>
    var rules: set<Rule>
    ghost const boot: set<Route>      // the routes and rules the logs start from
    ghost const bootRules: set<Rule>
    ghost var routeLog: seq<Op>       // the route calls that took effect, in order
    ghost var ruleLog: seq<RuleOp>    // and the rule calls
    ghost var failures: nat           // how many calls have failed

    /** Every state the routes have been in is Run(boot, l) for a prefix l of the log. */
    ghost predicate Valid()
      reads this
    {
      routes == Run(boot, routeLog)
    }

    ghost predicate RulesValid()
      reads this
    {
      rules == RuleRun(bootRules, ruleLog)
    }

    method AddRoute(r: Route) returns (ok: bool)
      requires Valid()
      modifies this`routes, this`routeLog, this`failures
      ensures Valid() && failures == old(failures) + if ok then 0 else 1
      ensures routeLog == if ok then old(routeLog) + [Add(r)] else old(routeLog)
    {
      ok := *;
      if ok {
        var k := Installed(r);
        if !exists r' :: r' in routes && SlotOf(r') == SlotOf(k) {
          routes := routes + {k};
        }
        RunSnoc(boot, routeLog, Add(r));
        routeLog := routeLog + [Add(r)];
      } else {
        failures := failures + 1;
      }
    }

    method DeleteRoute(r: Route) returns (ok: bool)
      requires Valid()
      modifies this`routes, this`routeLog, this`failures
      ensures Valid() && failures == old(failures) + if ok then 0 else 1
      ensures routeLog == if ok then old(routeLog) + [Delete(r)] else old(routeLog)
    {
      ok := *;
      if ok {
        RunSnoc(boot, routeLog, Delete(r));
        routes := routes - {Installed(r)};
        routeLog := routeLog + [Delete(r)];
      } else {
        failures := failures + 1;
      }
    }

    method AddRule(r: Rule) returns (ok: bool)
      requires RulesValid()
      modifies this`rules, this`ruleLog, this`failures
      ensures RulesValid() && failures == old(failures) + if ok then 0 else 1
      ensures ruleLog == if ok then old(ruleLog) + [RuleOp.AddRule(r)] else old(ruleLog)
    {
      ok := *;
      if ok {
        RuleRunSnoc(bootRules, ruleLog, RuleOp.AddRule(r));
        rules := rules + {InstalledRule(r)};
        ruleLog := ruleLog + [RuleOp.AddRule(r)];
      } else {
        failures := failures + 1;
      }
    }

    method DeleteRule(r: Rule) returns (ok: bool)
      requires RulesValid()
      modifies this`rules, this`ruleLog, this`failures
      ensures RulesValid() && failures == old(failures) + if ok then 0 else 1
      ensures ruleLog == if ok then old(ruleLog) + [RuleOp.DeleteRule(r)] else old(ruleLog)
    {
      ok := *;
      if ok {
        RuleRunSnoc(bootRules, ruleLog, RuleOp.DeleteRule(r));
        rules := rules - {InstalledRule(r)};
        ruleLog := ruleLog + [RuleOp.DeleteRule(r)];
      } else {
        failures := failures + 1;
      }
    }

    /** The routes of a table, family and protocol, in any order. */
    method ListRoutes(table: int, family: Family, protocol: int) returns (out: Option<seq<Route>>)
      modifies this`failures
      ensures failures == old(failures) + if out.Some? then 0 else 1
      ensures out.Some? ==> NoRepeats(out.value)
      ensures out.Some? ==>
                forall r :: r in out.value <==>
                  r in routes && r.table == table && r.dst.fam == family && r.protocol == protocol
    {
      var ok: bool := *;
      if !ok {
        failures := failures + 1;
        return None;
      }
      var rest := set r | r in routes && r.table == table && r.dst.fam == family && r.protocol == protocol;
      ghost var all := rest;
      var list: seq<Route> := [];
      while rest != {}
        invariant rest <= all && NoRepeats(list)
        invariant forall r :: r in list <==> r in all && r !in rest
      {
        var r :| r in rest;
        list := list + [r];
        rest := rest - {r};
      }
      return Some(list);
    }

    /** The rules of either family: the model keeps one rule set for both. */
    method ListRules() returns (out: Option<seq<Rule>>)
      modifies this`failures
      ensures failures == old(failures) + if out.Some? then 0 else 1
      ensures out.Some? ==> NoRepeats(out.value) && forall r :: r in out.value <==> r in rules
    {
      var ok: bool := *;
      if !ok {
        failures := failures + 1;
        return None;
      }
      var rest := rules;
      var list: seq<Rule> := [];
      while rest != {}
        invariant rest <= rules && NoRepeats(list)
        invariant forall r :: r in list <==> r in rules && r !in rest
      {
        var r :| r in rest;
        list := list + [r];
        rest := rest - {r};
      }
      return Some(list);
    }
  }
}
