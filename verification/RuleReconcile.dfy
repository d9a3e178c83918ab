/** rules.CurrentOwned and rules.Apply. */
module RuleReconcile {
  import opened Wrappers
  import opened Prefixes
  import opened Sequences
  import opened Config
  import opened Rtnl
  import opened Planner

  // ---- listing ----

  /** One group's rules: its table and priority, if that priority lies in the managed band. */
  datatype RuleScope = RuleScope(table: int, priority: int, base: int, step: int)

  predicate InBand(sc: RuleScope) {
    sc.base <= sc.priority < sc.base + sc.step * 1000
  }

  predicate RuleInScope(r: Rule, sc: RuleScope) {
    r.table == sc.table && r.priority == sc.priority && InBand(sc)
  }

  /** No rule is in both scopes. */
  predicate RuleScopesApart(a: RuleScope, b: RuleScope) {
    a.table != b.table || a.priority != b.priority || !InBand(a) || !InBand(b)
  }

  function OwnedRules(rules: set<Rule>, sc: RuleScope): set<Rule> {
    set r | r in rules && RuleInScope(r, sc)
  }

  method CurrentOwned(k: Kernel, sc: RuleScope, name: FamilyName) returns (out: Option<seq<Rule>>)
    modifies k`failures
    ensures k.failures == old(k.failures) + if out.Some? then 0 else 1
    ensures out.Some? ==> forall r :: r in out.value <==> Families(name) != {} && r in OwnedRules(k.rules, sc)
  {
    var list: seq<Rule> := [];
    if name == Dual || name == Unset || name == IPv4 {
      var more := ListFamily(k, sc);
      if more == None { return None; }
      list := list + more.value;
    }
    if name == Dual || name == Unset || name == IPv6 {
      var more := ListFamily(k, sc);
      if more == None { return None; }
      list := list + more.value;
    }
    assert Families(name) != {} <==> name in {Unset, Dual, IPv4, IPv6};
    return Some(list);
  }

  method ListFamily(k: Kernel, sc: RuleScope) returns (out: Option<seq<Rule>>)
    modifies k`failures
    ensures k.failures == old(k.failures) + if out.Some? then 0 else 1
    ensures out.Some? ==> forall r :: r in out.value <==> r in OwnedRules(k.rules, sc)
  {
    var rs := k.ListRules();
    if rs == None { return None; }
    var list: seq<Rule> := [];
    for i := 0 to |rs.value|
      invariant forall r :: r in list <==> r in rs.value[..i] && RuleInScope(r, sc)
    {
      assert rs.value[..i + 1] == rs.value[..i] + [rs.value[i]];
      if RuleInScope(rs.value[i], sc) { list := list + [rs.value[i]]; }
    }
    assert rs.value[..|rs.value|] == rs.value;
    return Some(list);
  }

  // ---- applying ----

  function RuleAdds(rs: seq<Rule>): seq<RuleOp> {
    seq(|rs|, i requires 0 <= i < |rs| => RuleOp.AddRule(rs[i]))
  }

  function RuleDeletes(rs: seq<Rule>): seq<RuleOp> {
    seq(|rs|, i requires 0 <= i < |rs| => RuleOp.DeleteRule(rs[i]))
  }

  datatype RulePlan = RulePlan(add: seq<Rule>, remove: seq<Rule>)

  function RuleOps(plans: seq<RulePlan>): seq<RuleOp> {
    if plans == [] then []
    else
      var gp := plans[|plans| - 1];
      RuleOps(plans[..|plans| - 1]) + RuleAdds(gp.add) + RuleDeletes(gp.remove)
  }

  /** Every call that took effect is the next one of RuleOps(plans); a failing call stops the run. */
  method Apply(k: Kernel, plans: seq<RulePlan>) returns (ok: bool, ghost done: seq<RuleOp>)
    requires k.RulesValid()
    modifies k`rules, k`ruleLog, k`failures
    ensures k.RulesValid() && k.ruleLog == old(k.ruleLog) + done && k.failures == old(k.failures) + if ok then 0 else 1
    ensures done <= RuleOps(plans) && (ok ==> done == RuleOps(plans))
    ensures k.rules == RuleRun(old(k.rules), done)
  {
    ok, done := ApplyGroups(k, plans);
    RuleRunAppend(k.bootRules, old(k.ruleLog), done);
  }

  method ApplyGroups(k: Kernel, plans: seq<RulePlan>) returns (ok: bool, ghost done: seq<RuleOp>)
    requires k.RulesValid()
    modifies k`rules, k`ruleLog, k`failures
    ensures k.RulesValid() && k.ruleLog == old(k.ruleLog) + done && k.failures == old(k.failures) + if ok then 0 else 1
    ensures done <= RuleOps(plans) && (ok ==> done == RuleOps(plans))
  {
    done := [];
    for i := 0 to |plans|
      invariant k.RulesValid() && k.ruleLog == old(k.ruleLog) + done && k.failures == old(k.failures)
      invariant done == RuleOps(plans[..i])
    {
      RuleOpsAt(plans, i);
      ok, done := AddRules(k, plans[i].add, old(k.ruleLog), done, RuleOps(plans));
      if !ok { return; }
      ok, done := DeleteRules(k, plans[i].remove, old(k.ruleLog), done, RuleOps(plans));
      if !ok { return; }
    }
    assert plans[..|plans|] == plans;
    ok := true;
  }

  method AddRules(k: Kernel, rs: seq<Rule>, ghost base: seq<RuleOp>, ghost before: seq<RuleOp>, ghost all: seq<RuleOp>)
    returns (ok: bool, ghost done: seq<RuleOp>)
    requires k.RulesValid() && k.ruleLog == base + before && before + RuleAdds(rs) <= all
    modifies k`rules, k`ruleLog, k`failures
    ensures k.RulesValid() && k.ruleLog == base + done && k.failures == old(k.failures) + if ok then 0 else 1
    ensures done <= all && (ok ==> done == before + RuleAdds(rs))
  {
    done := before;
    for i := 0 to |rs|
      invariant k.RulesValid() && k.ruleLog == base + done && k.failures == old(k.failures)
      invariant done == before + RuleAdds(rs)[..i]
    {
      OneMore(base, before, RuleAdds(rs), i, all);
      ok := k.AddRule(rs[i]);
      if !ok { return; }
      done := done + [RuleOp.AddRule(rs[i])];
    }
    assert RuleAdds(rs)[..|rs|] == RuleAdds(rs);
    ok := true;
  }

  method DeleteRules(k: Kernel, rs: seq<Rule>, ghost base: seq<RuleOp>, ghost before: seq<RuleOp>,
                     ghost all: seq<RuleOp>)
    returns (ok: bool, ghost done: seq<RuleOp>)
    requires k.RulesValid() && k.ruleLog == base + before && before + RuleDeletes(rs) <= all
    modifies k`rules, k`ruleLog, k`failures
    ensures k.RulesValid() && k.ruleLog == base + done && k.failures == old(k.failures) + if ok then 0 else 1
    ensures done <= all && (ok ==> done == before + RuleDeletes(rs))
  {
    done := before;
    for i := 0 to |rs|
      invariant k.RulesValid() && k.ruleLog == base + done && k.failures == old(k.failures)
      invariant done == before + RuleDeletes(rs)[..i]
    {
      OneMore(base, before, RuleDeletes(rs), i, all);
      ok := k.DeleteRule(rs[i]);
      if !ok { return; }
      done := done + [RuleOp.DeleteRule(rs[i])];
    }
    assert RuleDeletes(rs)[..|rs|] == RuleDeletes(rs);
    ok := true;
  }

  lemma RuleOpsAt(plans: seq<RulePlan>, i: nat)
    requires i < |plans|
    ensures RuleOps(plans[..i + 1]) == RuleOps(plans[..i]) + RuleAdds(plans[i].add) + RuleDeletes(plans[i].remove)
    ensures RuleOps(plans[..i]) + RuleAdds(plans[i].add) <= RuleOps(plans)
    ensures RuleOps(plans[..i + 1]) <= RuleOps(plans)
  {
    assert plans[..i + 1][..i] == plans[..i];
    RuleOpsPrefix(plans, i + 1);
  }

  lemma {:induction false} RuleOpsPrefix(plans: seq<RulePlan>, i: nat)
    requires i <= |plans|
    ensures RuleOps(plans[..i]) <= RuleOps(plans)
  {
    if i == |plans| {
      assert plans[..i] == plans;
    } else {
      RuleOpsPrefix(plans[..|plans| - 1], i);
      assert plans[..|plans| - 1][..i] == plans[..i];
    }
  }

  // ---- what it achieves ----

  datatype RuleGoal = RuleGoal(scope: RuleScope, desired: set<Rule>)

  ghost predicate RuleGoalOk(goal: RuleGoal) {
    forall r :: r in goal.desired ==> RuleInScope(r, goal.scope) && InstalledRule(r) == r
  }

  ghost predicate IsRulePlan(gp: RulePlan, goal: RuleGoal, rules: set<Rule>) {
    && (forall r :: r in gp.add <==> r in goal.desired && r !in OwnedRules(rules, goal.scope))
    && (forall r :: r in gp.remove <==> r in OwnedRules(rules, goal.scope) && r !in goal.desired)
  }

  ghost predicate RulesPlanned(plans: seq<RulePlan>, goals: seq<RuleGoal>, rules: set<Rule>) {
    && |plans| == |goals| && (forall r :: r in rules ==> InstalledRule(r) == r)
    && (forall i :: 0 <= i < |goals| ==> RuleGoalOk(goals[i]) && IsRulePlan(plans[i], goals[i], rules))
    && (forall i, j :: 0 <= i < j < |goals| ==> RuleScopesApart(goals[i].scope, goals[j].scope))
  }

  ghost function Added(ops: seq<RuleOp>): set<Rule> {
    set op | op in ops && op.AddRule? :: InstalledRule(op.rule)
  }

  ghost function Deleted(ops: seq<RuleOp>): set<Rule> {
    set op | op in ops && op.DeleteRule? :: InstalledRule(op.rule)
  }

  /** When no rule is both added and deleted, the order of the calls does not matter. */
  lemma {:induction false} RuleRunSets(rules: set<Rule>, ops: seq<RuleOp>)
    requires Added(ops) !! Deleted(ops)
    ensures RuleRun(rules, ops) == rules - Deleted(ops) + Added(ops)
  {
    if ops != [] {
      var front, op := ops[..|ops| - 1], ops[|ops| - 1];
      assert ops == front + [op];
      var r := InstalledRule(op.rule);
      assert Added(ops) == Added(front) + if op.AddRule? then {r} else {};
      assert Deleted(ops) == Deleted(front) + if op.AddRule? then {} else {r};
      RuleRunSets(rules, front);
    }
  }

  ghost predicate DesiredRule(r: Rule, goals: seq<RuleGoal>) {
    exists i :: 0 <= i < |goals| && r in goals[i].desired
  }

  ghost predicate OwnedRule(r: Rule, goals: seq<RuleGoal>) {
    exists i :: 0 <= i < |goals| && RuleInScope(r, goals[i].scope)
  }

  predicate Mentions(gp: RulePlan, op: RuleOp) {
    if op.AddRule? then op.rule in gp.add else op.rule in gp.remove
  }

  lemma GroupRuleOpsMembers(gp: RulePlan, op: RuleOp)
    ensures op in RuleAdds(gp.add) || op in RuleDeletes(gp.remove) <==> Mentions(gp, op)
  {
    if op.AddRule? && op.rule in gp.add {
      var i :| 0 <= i < |gp.add| && gp.add[i] == op.rule;
      assert RuleAdds(gp.add)[i] == op;
    } else if op.DeleteRule? && op.rule in gp.remove {
      var i :| 0 <= i < |gp.remove| && gp.remove[i] == op.rule;
      assert RuleDeletes(gp.remove)[i] == op;
    }
  }

  lemma MentionedByLast(plans: seq<RulePlan>, op: RuleOp)
    requires plans != []
    ensures var front := plans[..|plans| - 1];
            (exists i :: 0 <= i < |plans| && Mentions(plans[i], op)) <==>
            (exists i :: 0 <= i < |front| && Mentions(front[i], op)) || Mentions(plans[|plans| - 1], op)
  {
    var front := plans[..|plans| - 1];
    if i :| 0 <= i < |front| && Mentions(front[i], op) {
      assert Mentions(plans[i], op);
    }
    if i :| 0 <= i < |plans| && Mentions(plans[i], op) {
      assert i < |front| ==> Mentions(front[i], op);
    }
  }

  /** Every call of Apply is about a rule of the plan of some group. */
  lemma {:induction false} RuleOpsMembers(plans: seq<RulePlan>, op: RuleOp)
    ensures op in RuleOps(plans) <==> exists i :: 0 <= i < |plans| && Mentions(plans[i], op)
  {
    if plans != [] {
      var front, gp := plans[..|plans| - 1], plans[|plans| - 1];
      RuleOpsMembers(front, op);
      GroupRuleOpsMembers(gp, op);
      assert op in RuleOps(plans) <==> op in RuleOps(front) || op in RuleAdds(gp.add) || op in RuleDeletes(gp.remove);
      MentionedByLast(plans, op);
    }
  }

  /** What the calls add and delete, group by group. */
  lemma PlannedRuleSets(plans: seq<RulePlan>, goals: seq<RuleGoal>, rules: set<Rule>)
    requires RulesPlanned(plans, goals, rules)
    ensures forall r :: r in Added(RuleOps(plans)) <==> DesiredRule(r, goals) && r !in rules
    ensures forall r :: r in Deleted(RuleOps(plans)) <==> r in rules && OwnedRule(r, goals) && !DesiredRule(r, goals)
  {
    var ops := RuleOps(plans);
    forall r ensures r in Added(ops) <==> DesiredRule(r, goals) && r !in rules {
      if r in Added(ops) {
        var op :| op in ops && op.AddRule? && InstalledRule(op.rule) == r;
        RuleOpsMembers(plans, op);
        var i :| 0 <= i < |plans| && Mentions(plans[i], op);
        assert IsRulePlan(plans[i], goals[i], rules) && RuleGoalOk(goals[i]);
      }
      if DesiredRule(r, goals) && r !in rules {
        var i :| 0 <= i < |goals| && r in goals[i].desired;
        assert IsRulePlan(plans[i], goals[i], rules) && RuleGoalOk(goals[i]);
        assert Mentions(plans[i], RuleOp.AddRule(r));
        RuleOpsMembers(plans, RuleOp.AddRule(r));
      }
    }
    forall r ensures r in Deleted(ops) <==> r in rules && OwnedRule(r, goals) && !DesiredRule(r, goals) {
      if r in Deleted(ops) {
        var op :| op in ops && op.DeleteRule? && InstalledRule(op.rule) == r;
        RuleOpsMembers(plans, op);
        var i :| 0 <= i < |plans| && Mentions(plans[i], op);
        assert IsRulePlan(plans[i], goals[i], rules);
        OneScope(goals, i, r);
      }
      if r in rules && OwnedRule(r, goals) && !DesiredRule(r, goals) {
        var i :| 0 <= i < |goals| && RuleInScope(r, goals[i].scope);
        assert IsRulePlan(plans[i], goals[i], rules);
        assert Mentions(plans[i], RuleOp.DeleteRule(r));
        RuleOpsMembers(plans, RuleOp.DeleteRule(r));
      }
    }
  }

  /** A rule in one group's scope is no other group's business. */
  lemma OneScope(goals: seq<RuleGoal>, i: nat, r: Rule)
    requires i < |goals| && RuleInScope(r, goals[i].scope)
    requires forall j :: 0 <= j < |goals| ==> RuleGoalOk(goals[j])
    requires forall j, l :: 0 <= j < l < |goals| ==> RuleScopesApart(goals[j].scope, goals[l].scope)
    ensures DesiredRule(r, goals) <==> r in goals[i].desired
    ensures forall j :: 0 <= j < |goals| && RuleInScope(r, goals[j].scope) ==> j == i
  {
    forall j | 0 <= j < |goals| && (RuleInScope(r, goals[j].scope) || r in goals[j].desired) ensures j == i {
      assert RuleGoalOk(goals[j]);
    }
  }

  /** An error-free Apply leaves each group's scope holding exactly its desired rule, and every rule
      outside all scopes as it was. */
  lemma RulesConverge(plans: seq<RulePlan>, goals: seq<RuleGoal>, rules: set<Rule>)
    requires RulesPlanned(plans, goals, rules)
    ensures forall r :: r in RuleRun(rules, RuleOps(plans)) <==>
              DesiredRule(r, goals) || (r in rules && !OwnedRule(r, goals))
    ensures forall g :: 0 <= g < |goals| ==>
              OwnedRules(RuleRun(rules, RuleOps(plans)), goals[g].scope) == goals[g].desired
  {
    PlannedRuleSets(plans, goals, rules);
    RuleRunSets(rules, RuleOps(plans));
    forall r | DesiredRule(r, goals) ensures OwnedRule(r, goals) {
      var i :| 0 <= i < |goals| && r in goals[i].desired;
      assert RuleGoalOk(goals[i]);
    }
    var s := RuleRun(rules, RuleOps(plans));
    forall g | 0 <= g < |goals| ensures OwnedRules(s, goals[g].scope) == goals[g].desired {
      assert RuleGoalOk(goals[g]);
      forall r ensures r in OwnedRules(s, goals[g].scope) <==> r in goals[g].desired {
        if RuleInScope(r, goals[g].scope) { OneScope(goals, g, r); }
      }
    }
  }

  /** Two error-free runs for the same goals end with the same rules exactly when they start with the
      same rules outside every group's scope. */
  lemma RulesConfluentExactly(p1: seq<RulePlan>, r1: set<Rule>, p2: seq<RulePlan>, r2: set<Rule>, goals: seq<RuleGoal>)
    requires RulesPlanned(p1, goals, r1) && RulesPlanned(p2, goals, r2)
    ensures RuleRun(r1, RuleOps(p1)) == RuleRun(r2, RuleOps(p2)) <==>
            forall r :: !OwnedRule(r, goals) ==> (r in r1 <==> r in r2)
  {
    RulesConverge(p1, goals, r1);
    RulesConverge(p2, goals, r2);
    var s1, s2 := RuleRun(r1, RuleOps(p1)), RuleRun(r2, RuleOps(p2));
    forall r | !OwnedRule(r, goals) ensures (r in s1 <==> r in r1) && (r in s2 <==> r in r2) {
      forall i | 0 <= i < |goals| ensures r !in goals[i].desired {
        assert RuleGoalOk(goals[i]);
      }
    }
    if forall r :: !OwnedRule(r, goals) ==> (r in r1 <==> r in r2) {
      assert forall r :: r in s1 <==> r in s2;
    }
  }

  // ---- one group beside any others ----

  predicate AtPlace(r: Rule, sc: RuleScope) {
    r.table == sc.table && r.priority == sc.priority
  }

  function RulesAt(rules: set<Rule>, sc: RuleScope): set<Rule> {
    set r | r in rules && AtPlace(r, sc)
  }

  function AboutPlace(sc: RuleScope): RuleOp -> bool {
    (op: RuleOp) => AtPlace(op.rule, sc)
  }

  /** The rules of one table and priority evolve by the calls about them alone. */
  lemma {:induction false} RuleRunAt(rules: set<Rule>, ops: seq<RuleOp>, sc: RuleScope)
    ensures RulesAt(RuleRun(rules, ops), sc) == RuleRun(RulesAt(rules, sc), Filter(ops, AboutPlace(sc)))
  {
    if ops != [] {
      var front, op := ops[..|ops| - 1], ops[|ops| - 1];
      var mine := Filter(front, AboutPlace(sc));
      RuleRunAt(rules, front, sc);
      assert AtPlace(InstalledRule(op.rule), sc) <==> AtPlace(op.rule, sc);
      if AtPlace(op.rule, sc) {
        RuleRunSnoc(RulesAt(rules, sc), mine, op);
      } else {
        assert mine + [] == mine;
      }
    }
  }

  ghost predicate RuleLies(gp: RulePlan, sc: RuleScope, here: bool) {
    forall r :: r in gp.add || r in gp.remove ==> AtPlace(r, sc) == here
  }

  function GroupRuleOps(gp: RulePlan): seq<RuleOp> {
    RuleAdds(gp.add) + RuleDeletes(gp.remove)
  }

  lemma PlanRulesAt(gp: RulePlan, sc: RuleScope, here: bool)
    requires RuleLies(gp, sc, here)
    ensures Filter(GroupRuleOps(gp), AboutPlace(sc)) == if here then GroupRuleOps(gp) else []
  {
    var ops := GroupRuleOps(gp);
    forall op | op in ops ensures AtPlace(op.rule, sc) == here {
      GroupRuleOpsMembers(gp, op);
    }
    if here { FilterAll(ops, AboutPlace(sc)); } else { FilterNone(ops, AboutPlace(sc)); }
  }

  /** The calls about a place are those of the one group g there, if there is one (g < |plans|). */
  lemma {:induction false} RuleOpsAtPlace(plans: seq<RulePlan>, g: nat, sc: RuleScope)
    requires forall i :: 0 <= i < |plans| ==> RuleLies(plans[i], sc, i == g)
    ensures Filter(RuleOps(plans), AboutPlace(sc)) == if g < |plans| then GroupRuleOps(plans[g]) else []
  {
    if plans != [] {
      var n := |plans| - 1;
      var front, gp := RuleOps(plans[..n]), plans[n];
      RuleOpsAtPlace(plans[..n], g, sc);
      assert RuleOps(plans) == front + GroupRuleOps(gp);
      FilterAppend(front, GroupRuleOps(gp), AboutPlace(sc));
      assert RuleLies(gp, sc, n == g);
      PlanRulesAt(gp, sc, n == g);
    }
  }

  /** Group g has its table and priority to itself; nothing is asked of the other groups' rules. */
  ghost predicate RulesPlannedBeside(plans: seq<RulePlan>, goals: seq<RuleGoal>, rules: set<Rule>, g: nat) {
    && |plans| == |goals| && g < |goals| && (forall r :: r in rules ==> InstalledRule(r) == r)
    && (forall i :: 0 <= i < |goals| ==> IsRulePlan(plans[i], goals[i], rules))
    && (forall i, r :: 0 <= i < |goals| && r in goals[i].desired ==> AtPlace(r, goals[i].scope))
    && (forall i :: 0 <= i < |goals| && i != g ==>
          goals[i].scope.table != goals[g].scope.table || goals[i].scope.priority != goals[g].scope.priority)
  }

  /** Its rules are, wherever Apply stops, where some prefix of its own calls left them. */
  lemma GroupRules(plans: seq<RulePlan>, goals: seq<RuleGoal>, rules: set<Rule>, done: seq<RuleOp>, g: nat)
    requires RulesPlannedBeside(plans, goals, rules, g) && done <= RuleOps(plans)
    ensures var sc := goals[g].scope; var pre := Filter(done, AboutPlace(sc));
            && RulesAt(RuleRun(rules, done), sc) == RuleRun(RulesAt(rules, sc), pre)
            && pre <= GroupRuleOps(plans[g]) && (done == RuleOps(plans) ==> pre == GroupRuleOps(plans[g]))
  {
    var sc := goals[g].scope;
    forall i | 0 <= i < |plans| ensures RuleLies(plans[i], sc, i == g) {
      assert IsRulePlan(plans[i], goals[i], rules);
    }
    RuleRunAt(rules, done, sc);
    FilterPrefix(done, RuleOps(plans), AboutPlace(sc));
    RuleOpsAtPlace(plans, g, sc);
  }

  ghost function InstalledSet(rs: seq<Rule>): set<Rule> {
    set r | r in rs :: InstalledRule(r)
  }

  lemma InstalledSetLast(rs: seq<Rule>)
    requires rs != []
    ensures InstalledSet(rs) == InstalledSet(rs[..|rs| - 1]) + {InstalledRule(rs[|rs| - 1])}
  {
    assert rs == rs[..|rs| - 1] + [rs[|rs| - 1]];
  }

  lemma RuleCallsLast(rs: seq<Rule>)
    requires rs != []
    ensures RuleAdds(rs) == RuleAdds(rs[..|rs| - 1]) + [RuleOp.AddRule(rs[|rs| - 1])]
    ensures RuleDeletes(rs) == RuleDeletes(rs[..|rs| - 1]) + [RuleOp.DeleteRule(rs[|rs| - 1])]
  {
  }

  lemma {:induction false} RunRuleAdds(rules: set<Rule>, rs: seq<Rule>)
    ensures RuleRun(rules, RuleAdds(rs)) == rules + InstalledSet(rs)
  {
    if rs != [] {
      var front, r := rs[..|rs| - 1], rs[|rs| - 1];
      RuleCallsLast(rs);
      InstalledSetLast(rs);
      RunRuleAdds(rules, front);
      RuleRunSnoc(rules, RuleAdds(front), RuleOp.AddRule(r));
    }
  }

  lemma {:induction false} RunRuleDeletes(rules: set<Rule>, rs: seq<Rule>)
    ensures RuleRun(rules, RuleDeletes(rs)) == rules - InstalledSet(rs)
  {
    if rs != [] {
      var front, r := rs[..|rs| - 1], rs[|rs| - 1];
      RuleCallsLast(rs);
      InstalledSetLast(rs);
      RunRuleDeletes(rules, front);
      RuleRunSnoc(rules, RuleDeletes(front), RuleOp.DeleteRule(r));
    }
  }

  /** A group's calls, stopped anywhere: some additions, or all of them and some deletions. */
  lemma GroupRulesStop(gp: RulePlan, rules: set<Rule>, pre: seq<RuleOp>) returns (added: seq<Rule>, deleted: seq<Rule>)
    requires pre <= GroupRuleOps(gp)
    ensures added <= gp.add && deleted <= gp.remove && (deleted != [] ==> added == gp.add)
    ensures pre == GroupRuleOps(gp) ==> added == gp.add && deleted == gp.remove
    ensures RuleRun(rules, pre) == rules + InstalledSet(added) - InstalledSet(deleted)
  {
    var n := |gp.add|;
    added := if |pre| < n then gp.add[..|pre|] else gp.add;
    deleted := if |pre| <= n then [] else gp.remove[..|pre| - n];
    var cut := RuleAdds(added) + RuleDeletes(deleted);
    assert |cut| == |pre| && forall k :: 0 <= k < |pre| ==> cut[k] == GroupRuleOps(gp)[k] == pre[k];
    assert cut == pre;
    RuleRunAppend(rules, RuleAdds(added), RuleDeletes(deleted));
    RunRuleAdds(rules, added);
    RunRuleDeletes(rules + InstalledSet(added), deleted);
  }

  lemma OwnedAtPlace(rules: set<Rule>, sc: RuleScope)
    ensures OwnedRules(rules, sc) == if InBand(sc) then RulesAt(rules, sc) else {}
  {
  }

  /** A group whose rule the kernel keeps as configured ends with exactly that rule, whatever the other
      groups' rules are like. */
  lemma GroupRulesConverge(plans: seq<RulePlan>, goals: seq<RuleGoal>, rules: set<Rule>, g: nat)
    requires RulesPlannedBeside(plans, goals, rules, g) && RuleGoalOk(goals[g])
    ensures OwnedRules(RuleRun(rules, RuleOps(plans)), goals[g].scope) == goals[g].desired
  {
    var goal, gp := goals[g], plans[g];
    GroupRules(plans, goals, rules, RuleOps(plans), g);
    var added, deleted := GroupRulesStop(gp, RulesAt(rules, goal.scope), GroupRuleOps(gp));
    assert IsRulePlan(gp, goal, rules);
    OwnedAtPlace(rules, goal.scope);
    OwnedAtPlace(RuleRun(rules, RuleOps(plans)), goal.scope);
    PlanRulesInstalled(gp, goal, rules);
  }

  lemma PlanRulesInstalled(gp: RulePlan, goal: RuleGoal, rules: set<Rule>)
    requires IsRulePlan(gp, goal, rules) && RuleGoalOk(goal) && forall r :: r in rules ==> InstalledRule(r) == r
    ensures InstalledSet(gp.add) == goal.desired - OwnedRules(rules, goal.scope)
    ensures InstalledSet(gp.remove) == OwnedRules(rules, goal.scope) - goal.desired
  {
    forall r ensures r in InstalledSet(gp.add) <==> r in goal.desired - OwnedRules(rules, goal.scope) {
      if r in goal.desired - OwnedRules(rules, goal.scope) { assert r in gp.add && InstalledRule(r) == r; }
    }
    forall r ensures r in InstalledSet(gp.remove) <==> r in OwnedRules(rules, goal.scope) - goal.desired {
      if r in OwnedRules(rules, goal.scope) - goal.desired { assert r in gp.remove && InstalledRule(r) == r; }
    }
  }

  /** At every stopping point such a group that had a rule and wants one still has one. */
  lemma NeverWithoutRule(plans: seq<RulePlan>, goals: seq<RuleGoal>, rules: set<Rule>, done: seq<RuleOp>, g: nat,
                         c: Rule, d: Rule)
    requires RulesPlannedBeside(plans, goals, rules, g) && RuleGoalOk(goals[g]) && done <= RuleOps(plans)
    requires c in OwnedRules(rules, goals[g].scope) && d in goals[g].desired
    ensures OwnedRules(RuleRun(rules, done), goals[g].scope) != {}
  {
    var goal, gp, sc := goals[g], plans[g], goals[g].scope;
    GroupRules(plans, goals, rules, done, g);
    var added, deleted := GroupRulesStop(gp, RulesAt(rules, sc), Filter(done, AboutPlace(sc)));
    assert IsRulePlan(gp, goal, rules);
    PlanRulesInstalled(gp, goal, rules);
    OwnedAtPlace(rules, sc);
    OwnedAtPlace(RuleRun(rules, done), sc);
    if deleted == [] {
      assert InstalledSet(deleted) == {} && c in RulesAt(RuleRun(rules, done), sc);
    } else {
      assert InstalledSet(deleted) <= InstalledSet(gp.remove);
      assert d in RulesAt(RuleRun(rules, done), sc);
    }
  }

  // ---- what rules do ----

  datatype Packet = Packet(mark: nat, src: Addr)

  /** The bitwise masking of a mark, whatever it computes. */
  type Masking = (nat, nat) -> nat

  /** A rule with a mark compares masked marks; a rule with a source looks at the packet's. */
  predicate Sends(r: Rule, mask: Masking, pkt: Packet) {
    (r.hasFWMark ==> mask(pkt.mark, r.mask) == mask(r.fwMark, r.mask)) &&
    (IsValid(r.from) ==> Contains(r.from, pkt.src))
  }

  /** Storing a rule does not change which packets it sends to its table. */
  lemma InstalledSendsAlike(r: Rule, mask: Masking, pkt: Packet)
    ensures Sends(InstalledRule(r), mask, pkt) <==> Sends(r, mask, pkt)
  {
    if IsValid(r.from) { MaskedContains(r.from, pkt.src); }
  }

  /** Some rule of this table and priority sends the packet there. */
  ghost predicate Sent(rules: set<Rule>, table: int, priority: int, mask: Masking, pkt: Packet) {
    exists r :: r in rules && r.table == table && r.priority == priority && Sends(r, mask, pkt)
  }

  /** What the configuration asks: an enabled rule, its mark under its mask unless that is zero, and its
      source if one is given. */
  predicate Asks(c: RouteGroup, mask: Masking, pkt: Packet) {
    && c.rule.enabled
    && (c.rule.mask == 0 || mask(pkt.mark, c.rule.mask) == mask(c.rule.fwMark, c.rule.mask))
    && (c.rule.from.PrefixText? && IsValid(c.rule.from.prefix) ==> Contains(c.rule.from.prefix, pkt.src))
  }

  /** The desired rule sends exactly the packets the configuration asks for, to the configured table, at
      the configured priority; so does the form the kernel stores. */
  lemma DesiredRuleSends(c: RouteGroup, mask: Masking, pkt: Packet)
    ensures Sent((set r | r in DesiredRules(c)), c.rule.table, c.rule.priority, mask, pkt) <==> Asks(c, mask, pkt)
    ensures Sent((set r | r in DesiredRules(c) :: InstalledRule(r)), c.rule.table, c.rule.priority, mask, pkt) <==>
            Asks(c, mask, pkt)
  {
    var stored := set r | r in DesiredRules(c) :: InstalledRule(r);
    if c.rule.enabled {
      var d := DesiredRules(c)[0];
      InstalledSendsAlike(d, mask, pkt);
      assert d in DesiredRules(c) && InstalledRule(d) in stored;
      assert forall r :: r in DesiredRules(c) ==> r == d;
      assert Sends(d, mask, pkt) <==> Asks(c, mask, pkt);
    } else {
      assert DesiredRules(c) == [];
    }
  }

  /** The rules of a place in the band are the owned ones. */
  lemma SentByOwned(rules: set<Rule>, sc: RuleScope, mask: Masking, pkt: Packet)
    requires sc.base <= sc.priority < sc.base + sc.step * 1000
    ensures Sent(rules, sc.table, sc.priority, mask, pkt) <==>
            Sent(OwnedRules(rules, sc), sc.table, sc.priority, mask, pkt)
  {
    if r :| r in rules && r.table == sc.table && r.priority == sc.priority && Sends(r, mask, pkt) {
      assert r in OwnedRules(rules, sc);
    }
  }

  /** The band holds one thousand steps, from the base on: its first priority is the base and its last
      one comes just before the thousandth step. */
  lemma BandExactly(table: int, base: int, step: int, priority: int)
    requires step > 0
    ensures InBand(RuleScope(table, base, base, step)) && InBand(RuleScope(table, base + 1000 * step - 1, base, step))
    ensures !InBand(RuleScope(table, base - 1, base, step)) && !InBand(RuleScope(table, base + 1000 * step, base, step))
  {
  }

  /** The rule lookup takes the first match by priority, the smallest number first. */
  ghost predicate Decides(r: Rule, rules: set<Rule>, mask: Masking, pkt: Packet) {
    r in rules && Sends(r, mask, pkt) && forall q :: q in rules && Sends(q, mask, pkt) ==> r.priority <= q.priority
  }

  /** In a valid configuration a packet that an enabled zone asks for is never decided by the built-in
      group's rule, where the zone's rule is installed. */
  lemma ZonesComeFirst(c: Config, z: RouteGroup, rules: set<Rule>, mask: Masking, pkt: Packet, d: Rule, r: Rule)
    requires ConfigOk(c) && c.ruDefault.enabled && c.ruBuiltin == Some(true) && c.ruDefault.rule.enabled
    requires z in c.specialZones && z.enabled && z.rule.enabled && Asks(z, mask, pkt)
    requires d in DesiredRules(z) && InstalledRule(d) in rules
    requires r.priority == c.ruDefault.rule.priority
    ensures !Decides(r, rules, mask, pkt)
  {
    InstalledSendsAlike(d, mask, pkt);
    var i :| 0 <= i < |c.specialZones| && c.specialZones[i] == z;
  }

  // ---- the configured rule ----

  /** The kernel gives a configured rule back unchanged exactly when a zero mask comes with a zero
      mark and the source is masked; otherwise every later plan would differ from it again. */
  lemma ConfiguredRuleKeptExactly(c: RouteGroup, r: Rule)
    requires DesiredRules(c) == [r]
    ensures InstalledRule(r) == r <==>
              (c.rule.mask == 0 ==> c.rule.fwMark == 0) &&
              (c.rule.from.PrefixText? && IsValid(c.rule.from.prefix) ==> IsBlock(c.rule.from.prefix))
  {
    assert r == DesiredRules(c)[0];
  }

  /** What that costs: in the steady state, with the rule installed, an error-free Apply leaves the group
      without a rule exactly when the kernel keeps it in another form. The addition changes nothing and
      the removal takes the only rule, until the next Apply brings it back. */
  lemma RuleLostExactly(plans: seq<RulePlan>, goals: seq<RuleGoal>, rules: set<Rule>, g: nat, d: Rule)
    requires RulesPlannedBeside(plans, goals, rules, g) && goals[g].desired == {d} && InBand(goals[g].scope)
    ensures var was := OwnedRules(rules, goals[g].scope);
            var now := OwnedRules(RuleRun(rules, RuleOps(plans)), goals[g].scope);
            && (was == {InstalledRule(d)} ==> (now == {} <==> InstalledRule(d) != d))
            && (was == {} ==> now == {InstalledRule(d)})
  {
    var goal, gp, sc := goals[g], plans[g], goals[g].scope;
    GroupRules(plans, goals, rules, RuleOps(plans), g);
    var added, deleted := GroupRulesStop(gp, RulesAt(rules, sc), GroupRuleOps(gp));
    assert IsRulePlan(gp, goal, rules);
    OwnedAtPlace(rules, sc);
    OwnedAtPlace(RuleRun(rules, RuleOps(plans)), sc);
    var was, k := OwnedRules(rules, sc), InstalledRule(d);
    forall r ensures r in gp.add <==> r == d && d !in was {
    }
    forall r ensures r in gp.remove <==> r in was && r != d {
    }
    if was == {k} {
      assert InstalledRule(k) == k;
      assert k != d ==> k in gp.remove;
      assert InstalledSet(gp.add) <= {k};
      assert InstalledSet(gp.remove) == if k != d then {k} else {};
    } else if was == {} {
      assert d in gp.add && InstalledSet(gp.add) == {k} && InstalledSet(gp.remove) == {};
    }
  }

  /** Under those conditions, with the priority in the band, a validated group's rule is a goal. */
  lemma ConfiguredRuleGoal(c: RouteGroup, base: int, step: int) returns (goal: RuleGoal)
    requires GroupOk(c) && (c.rule.enabled ==> base <= c.rule.priority < base + step * 1000)
    requires c.rule.enabled ==> (c.rule.mask == 0 ==> c.rule.fwMark == 0)
    requires c.rule.enabled && c.rule.from.PrefixText? && IsValid(c.rule.from.prefix) ==> IsBlock(c.rule.from.prefix)
    ensures goal.scope == RuleScope(c.target.table, c.rule.priority, base, step) && RuleGoalOk(goal)
    ensures forall r :: r in goal.desired <==> r in DesiredRules(c)
  {
    goal := RuleGoal(RuleScope(c.target.table, c.rule.priority, base, step), set r | r in DesiredRules(c));
    if c.rule.enabled { ConfiguredRuleKeptExactly(c, DesiredRules(c)[0]); }
  }
}
