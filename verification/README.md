# route-sync, modelled and verified in Dafny

route-sync fetches CIDR lists, turns each into the desired contents of a Linux routing table, and
drives the kernel there through netlink. This project models that pipeline and proves what it is
for: the list aggregation, the plan, the two-phase reconcile over a kernel with slots, the health
driven choice of gateways, the resulting forwarding, and the daemon over whole runs.

`dafny verify dfyconfig.toml` checks everything.

## How the model is laid out

| file | what it holds |
|---|---|
| Prefixes, Aggregation, CanonicalForm, Normalization | addresses, CIDR blocks (section 3.1 of RFC 4632), the aggregation passes as functions, canonical form and minimality |
| Sequences | lists without repetition, filters, concatenation, first choices |
| Source | the loops of `internal/source` on arrays, sorted in place |
| Rtnl | routes, rules and the kernel class: slots, ignored EEXIST and not-found, calls that may fail |
| RouteReconcile, RouteConvergence, SharedScopes, RuleReconcile | both `Apply` functions, what every prefix of their calls keeps, and what groups with common scopes do to each other |
| Config, Health, Gateways, Keys, Planner, PlannerProperties | validation, gateway selection, map keys, desired routes and diffs |
| Exclusions | throw prefixes and excluded local addresses |
| Forwarding | longest-match lookup in the desired table (section 5.1 of RFC 4632) |
| Store, App, Failover, Daemon | last-known-good state, planning and cleanup, which gateways the planned routes use, the daemon as a state machine |
| Runs, Healing, LastKnownGood, Orphans | what holds over whole runs: what each event does to the world, settling and self-healing, the saved state, and what a reload leaves behind |

Four modelling ideas carry the proofs.

* A prefix is an aligned interval of integers. Masking clears host bits (`Floor`), so nesting of
  blocks (`Laminar`) is one induction over prefix lengths and everything after it is linear.
* `Apply` is a list of kernel calls (`Ops`, `RuleOps`). The methods prove that the calls that took
  effect are a prefix of that list, wherever a call failed, and the kernel class keeps the log of
  them. Statements about intermediate states are about every prefix. Go map order is covered by
  proving everything for every duplicate-free order (`IsPlan`).
* The kernel and the store count their failing calls, so a contract can say that an operation stops
  short only when something outside failed.
* A daemon run performs a script: the steps its events call for (`Script`). Each step makes a move, the
  work of a reconcile or cleanup as far as it got, or a reload, and takes one world to the next.

## Hypotheses

The code does not enforce these; where a theorem needs one, it is a visible premise. Most are shown
to be exactly the right condition.

* No two groups share a family of a table (`Apart`, `GroupsApart`). For groups with any scopes
  `EveryGoalMetExactly` proves that all get exactly what they want exactly when any two agree on what both
  own. Two with one scope and different wishes undo each other for ever: `SharedScopeFlaps` where the wishes
  fit side by side, `CompetitorsAlternate` for each slot both want.
* No foreign route occupies a desired slot (`NoForeign`); `ForeignBlocksExactly` proves both directions. This and
  the next premise are asked only of the group a statement is about (`PlannedBeside`, `Grantable`), and
  make-before-break needs neither.
* With a default, no source prefix is /0 (`DefaultClashExactly` shows that aggregation makes one exactly when
  the sources fill a family); a throw prefix never meets a source or default destination that has no hops
  (`Unclashing`); `SlotsDistinctExactly` proves both directions of the latter.
* The family is a known name. Validation enforces it; `DesiredInScopeExactly` proves both directions.
* No two groups manage rules of one table and in-band priority (`RulesApart`). A rule's `from` is masked, a
  zero mask comes with a zero mark, its priority lies in the band (`RuleKeepable`);
  `ConfiguredRuleKeptExactly` proves both directions of the first two.
* netip prints addresses faithfully and without the key separator (`Faithful`).
* Records that are in the store before a run are normalized lists, as the program writes them (a premise of
  `FallbackOverRuns` alone).

Properties that turn out false of the code are stated with their exact condition and a failing input.

| expected | exact condition | failing input |
|---|---|---|
| after any run an error-free reconcile ends where an uninterrupted one would | `SelfHealingExactly`, `RunHealsExactly`: the run kept what no goal owns; every difference is a route some configuration of the run owned and no goal does. `GroupHeals`: a group kept across the run always gets its routes | `ReloadOrphans`: a reload drops a zone, its routes stay for ever (`UnownedStays`) |
| every planned gateway has its destination's family | `GatewaysFitExactly`: the via4 and via6 fields fit wherever a destination without hops uses them | `MixedFieldsEscapeValidation` |
| a source prefix whose family some gateway offers uses the preferred gateway | `FailoverExactly`: the family is resolved, or the next hop's own via field names that gateway | `UnsetFamilyLosesGateway`: an unset family means both families everywhere except in `resolveCandidates` |
| a reconcile in the steady state changes no rule | `RuleLostExactly`, `ConfiguredRuleKeptExactly`: mark, mask and source are as the kernel stores them | any other rule, such as a mark without a mask: it is deleted and added again by turns |
| a fallback plans with the last fetch under the current aggregation flag | `FallbackAgreesExactly`: unless aggregation was switched off and had changed the list | `SwitchedOffStaysMerged` |
| with `exclude_local_ips` the host's own address takes no source-prefix route (documented in the README of route-sync, line 228) | `AddressExcludedExactly`: each source holding it contains the network of some public interface or starts where it does. On a host with one such interface: is no longer than its prefix or starts where its network does (`HostExcludedExactly`). For every source list, by that interface alone: only if the address is its network's first (`HostAlwaysExcludedExactly`) | `HostStaysRouted`: the code masks interface addresses before it compares (internal/app/app.go:384-400) |

## Model

| member | source | states |
|---|---|---|
| `Prefixes.Contains` | internal/source/aggregate.go:26 | a prefix contains exactly the addresses of its family in one aligned block |
| `Prefixes.Laminar` | internal/source/aggregate.go:20-36 | two CIDR blocks of a family are nested or disjoint |
| `Aggregation.MergePair` | internal/source/aggregate.go:57-70 | succeeds exactly on the two halves of one block and returns that block |
| `Aggregation.DropCoveredKeepsCover` | internal/source/aggregate.go:20-36 | removeCovered returns a sublist with the same addresses, for every valid input |
| `Aggregation.DropCoveredApart` | internal/source/aggregate.go:20-36 | on sorted blocks what is left is pairwise disjoint and in order |
| `Aggregation.MergePassKeepsCover` | internal/source/aggregate.go:38-55 | a merge pass changes no covered address, for every valid input |
| `Aggregation.SiblingsAreNeighbours` | internal/source/aggregate.go:42-53 | in a sorted disjoint list nothing lies between two siblings |
| `Aggregation.MergePassMergesAll` | internal/source/aggregate.go:38-55 | a pass returns exactly the blocks without a sibling and the parents of all sibling pairs, though it compares only neighbours |
| `CanonicalForm.OneEntryHoldsBlock` | internal/source/aggregate.go:5-18 | a sibling-free list that covers a whole block has one entry containing it |
| `CanonicalForm.MergeAllCanonical` | internal/source/aggregate.go:5-18 | repeated merging of disjoint blocks ends with exactly the maximal blocks of the covered set |
| `CanonicalForm.CanonicalUnique` | internal/source/aggregate.go:5-18 | equal coverage gives equal canonical lists |
| `CanonicalForm.CanonicalShortest` | internal/source/aggregate.go:5-18 | no CIDR list with the same coverage is shorter |
| `CanonicalForm.PairsShrink` | internal/source/aggregate.go:9-17 | after k passes only pairs of at most w - k bits are left |
| `CanonicalForm.PassBound` | internal/source/aggregate.go:9-17 | with prefixes of at most w bits, passes after the w-th change nothing |
| `Normalization.NormalizedMeaning` | internal/source/source.go:22-45 | without aggregation the sorted set of masked valid entries, with it the canonical form |
| `Normalization.AggregatedEqual` | internal/source/source.go:22-45 | lists covering the same addresses normalize to the same aggregated list |
| `Normalization.NormalizedCover` | internal/source/source.go:22-45 | normalizing, aggregated or not, keeps the covered addresses |
| `Normalization.Renormalized` | internal/source/source.go:22-45 | normalizing twice equals normalizing once with either flag: idempotent, and a later aggregation is absorbed |
| `Normalization.AggregationIsIdentity` | internal/source/source.go:38-40 | aggregation changes nothing exactly when no masked entry covers or is the sibling of another |
| `Source.SortPrefixes` | internal/source/source.go:63-74 | in place: ordered by family, address, length, and a permutation |
| `Source.RemoveCovered` | internal/source/aggregate.go:20-36 | sorts its argument in place and returns what the pass function gives |
| `Source.MergeOnePass` | internal/source/aggregate.go:38-55 | sorts in place, returns the merge pass, and reports a change exactly when the list got shorter |
| `Source.ScanPairs` | internal/source/aggregate.go:42-53 | the neighbour scan for any pair-merging function |
| `Source.TurnOnBlocks` | internal/source/aggregate.go:10-17 | on disjoint blocks both sorts and the second removal change nothing |
| `Source.Aggregate` | internal/source/aggregate.go:5-18 | keeps coverage for every valid input; on masked input returns the canonical list within w + 1 passes |
| `Source.Normalize` | internal/source/source.go:22-45 | returns the normalized list and leaves the caller's slice alone |
| `Planner.FilterFamily` | internal/source/source.go:47-61 | exactly the prefixes of the named families, in order |
| `Rtnl.Kernel.AddRoute` | internal/rtnl/netlink_linux.go:58-72 | a call that succeeds takes one Add step: nothing when the slot is occupied; a failing one changes nothing but the failure count |
| `Rtnl.Kernel.DeleteRoute` | internal/rtnl/netlink_linux.go:74-88 | a call that succeeds removes only the matching route |
| `Rtnl.Kernel.ListRoutes` | internal/rtnl/netlink_linux.go:25-56 | exactly the routes of a table, family and protocol, each once, in any order |
| `Rtnl.Kernel.AddRule` | internal/rtnl/netlink_linux.go:116-128 | a call that succeeds stores the rule without a mark when it has no mask, source masked |
| `Rtnl.Kernel.DeleteRule` | internal/rtnl/netlink_linux.go:130-142 | a call that succeeds removes the stored form of the rule |
| `Rtnl.Kernel.ListRules` | internal/rtnl/netlink_linux.go:90-114 | every rule once, in any order |
| `Rtnl.RunKeepsSlots` | internal/rtnl/netlink_linux.go:58-88 | no sequence of calls puts two routes in one slot |
| `RouteReconcile.Apply` | internal/reconcile/routes/routes.go:29-58 | the calls that took effect are a prefix of Ops, all of it on success, and determine the new routes |
| `RouteReconcile.ConflictingRouteRemovals` | internal/reconcile/routes/routes.go:60-69 | the removals whose destination is added again |
| `RouteReconcile.NotPreRemoved` | internal/reconcile/routes/routes.go:45-50 | the removals left for the second loop |
| `RouteConvergence.RemovalSplit` | internal/reconcile/routes/routes.go:45-69 | every removal goes early exactly when its destination is added again, and never twice |
| `RouteConvergence.RunAt` | internal/reconcile/routes/routes.go:29-58 | a family of a table evolves by the calls on it alone |
| `RouteConvergence.SlotsFreed` | internal/reconcile/routes/routes.go:31-37 | once the conflicting routes are gone, every slot to be added is free |
| `RouteConvergence.GroupStops` | internal/reconcile/routes/routes.go:29-58 | at any stopping point of one group's calls, whatever sits in its slots: no route both there and desired is missing, only desired routes appeared, and an unreplaced route goes only when every desired slot is taken |
| `RouteConvergence.GroupStopsOwn` | internal/reconcile/routes/routes.go:29-58 | with its slots to itself, every unreplaced route stands until all desired routes do |
| `RouteConvergence.MakeBeforeBreak` | internal/reconcile/routes/routes.go:29-69 | wherever Apply stops, with foreign routes and clashing wishes anywhere, routes both current and desired stand, and addresses covered before by an unreplaced route and after by a desired one stay covered in the group's table; by a route of the group if no foreign route holds its slots |
| `RouteConvergence.GroupConverges` | internal/reconcile/routes/routes.go:29-58 | a group whose wishes can be granted gets exactly those, whatever the other groups want |
| `RouteConvergence.Converges` | internal/reconcile/routes/routes.go:29-58 | an error-free Apply, in any order, leaves each scope exactly desired and all else unchanged |
| `RouteConvergence.ConfluentExactly` | internal/planner/planner.go:204-213 | two error-free runs for the same goals, in any order, end in the same state exactly when they start with the same routes outside every scope |
| `RouteConvergence.GroupConfluentExactly` | internal/planner/planner.go:204-213 | the same for one goal kept between two different sets of groups, in its own table and families; nothing is asked of the others' wishes |
| `RouteConvergence.DeletedOnce` | internal/reconcile/routes/routes.go:32-55 | of all routes, each one some group owns and does not want is deleted exactly once, and no other |
| `RouteConvergence.OthersKept` | internal/reconcile/routes/routes.go:29-58 | wherever Apply stops, a table, or a family of it, that no group names is unchanged |
| `RouteConvergence.UnownedUntouched` | internal/reconcile/routes/routes.go:29-58 | wherever Apply stops, a route outside every group's scope is untouched |
| `RouteConvergence.ForeignBlocksExactly` | internal/rtnl/netlink_linux.go:161-166 | all desired routes get installed exactly when no foreign route holds one of their slots |
| `SharedScopes.Outcome` | internal/reconcile/routes/routes.go:29-58 | what an error-free Apply leaves for groups with any scopes whose wishes fit side by side: every old route no group owns without wanting it, and everything any group wanted and lacked |
| `SharedScopes.EveryGoalMetExactly` | internal/app/app.go:182 | all groups get exactly what they want, from any state and with any scopes, exactly when any two agree on what both own |
| `SharedScopes.AgreeMeaning` | internal/app/app.go:182 | groups that share no family of a table agree, groups with one scope only if they want the same |
| `SharedScopes.SharedScopeFlaps` | internal/app/app.go:182 | two groups with one scope and different wishes that fit side by side: from empty to everything either wants, then to what both want, and back |
| `SharedScopes.CompetitorsAlternate` | internal/rtnl/netlink_linux.go:161-166 | two groups that want different routes in one slot take turns: the second one's addition is ignored while the first one's stands, and replaces it the next time |
| `SharedScopes.SharedScopeEmpties` | internal/app/app.go:182 | two groups with one scope and nothing in common empty it once both are installed |
| `RuleReconcile.CurrentOwned` | internal/reconcile/rules/rules.go:10-36 | exactly the rules of the table and priority, if that lies in the band |
| `RuleReconcile.BandExactly` | internal/reconcile/rules/rules.go:10-12 | the band starts at the base and ends just before its thousandth step |
| `RuleReconcile.Apply` | internal/reconcile/rules/rules.go:38-54 | the calls that took effect are a prefix of RuleOps, all of it on success |
| `RuleReconcile.RulesConverge` | internal/reconcile/rules/rules.go:38-54 | an error-free Apply leaves each group exactly its desired rule and every other rule as it was |
| `RuleReconcile.RulesConfluentExactly` | internal/planner/planner.go:217-238 | two error-free runs for the same rule goals end with the same rules exactly when they start with the same rules outside every scope |
| `RuleReconcile.NeverWithoutRule` | internal/reconcile/rules/rules.go:38-54 | wherever Apply stops, a group whose rule the kernel keeps as configured, that had a rule and wants one, has one, whatever the other groups' rules are like |
| `RuleReconcile.GroupRulesConverge` | internal/reconcile/rules/rules.go:38-54 | such a group with its table and priority to itself ends with exactly its rule, whatever the other groups' rules are like |
| `RuleReconcile.ConfiguredRuleKeptExactly` | internal/planner/planner.go:183-192 | the kernel returns the configured rule unchanged exactly when mark, mask and source are canonical |
| `RuleReconcile.RuleLostExactly` | internal/reconcile/rules/rules.go:38-54 | in the steady state an error-free Apply leaves the group without its rule exactly when the kernel keeps it in another form; the next one brings it back |
| `RuleReconcile.DesiredRuleSends` | internal/planner/planner.go:183-192 | the desired rule, in the form the kernel stores, sends exactly the packets whose mark under the configured mask, and whose source, the configuration asks for, at the configured table and priority; none when disabled |
| `RuleReconcile.ZonesComeFirst` | internal/config/config.go:208-221 | in a valid configuration the built-in group's rule never decides a packet that an enabled zone's rule asks for |
| `Config.Validate` | internal/config/config.go:196-223 | no error exactly when the configuration satisfies ConfigOk |
| `Config.ValidateGroup` | internal/config/config.go:225-280 | no error exactly when the group satisfies GroupOk |
| `Config.ValidateNextHop` | internal/config/config.go:282-339 | no error exactly when the next hop and its gateways satisfy NextHopOk |
| `Config.GroupsOf` | internal/config/config.go:181-194 | the built-in group first, then the enabled zones in order |
| `Config.GroupsMembers` | internal/config/config.go:181-194 | exactly the enabled zones and, when enabled and not switched off as a source, the built-in group under its fixed name |
| `Config.FamiliesExactly` | internal/source/source.go:47-61 | which families a name selects |
| `Health.EvaluateCandidate` | internal/health/health.go:145-177 | healthy exactly when some configured address of the family answers or, with none configured, one of the two public resolvers of that family; reports the first that does |
| `Health.DefaultTargetsFit` | internal/health/health.go:151-158 | without configured targets there are two to ping, both of the candidate's family |
| `Health.AnsweringIsHealthy` | internal/health/health.go:145-180 | a candidate that answers everything is healthy unless only addresses of the other family are configured, a silent one never |
| `Health.OrderIsStablePartition` | internal/health/health.go:108-130 | the order is the stable permutation with healthy candidates first |
| `Health.FirstInOrder` | internal/health/health.go:108-130 | first comes the first healthy candidate, or the first one when none is |
| `Health.Select` | internal/health/health.go:75-143 | fails only on an unknown interface; otherwise the candidates in that order with strictly increasing metrics |
| `Health.MetricValues` | internal/health/health.go:17-21 | metrics start at 100, grow by 10, and lie 1000 higher for a silent candidate beside an answering one |
| `Gateways.ResolveCandidates` | internal/app/app.go:241-261 | the selected IPv4 hops followed by the selected IPv6 hops, for the families it resolves |
| `Gateways.ResolvesExactly` | internal/app/app.go:246-260 | of the families a name selects, only IPv6 of an unset name is not resolved |
| `Gateways.FilterCandidatesByFamily` | internal/app/app.go:304-318 | the candidates of one family in configured order |
| `Gateways.GatewayOrder` | internal/app/app.go:263-291 | for any gateways list the candidates of a family are each gateway's own ones, with its own or the inherited settings, gateway after gateway as configured |
| `Gateways.CandidatesExactly` | internal/app/app.go:263-283 | a next hop's candidates of a family are those of all its listed gateways in order, or of its own fields when it lists none |
| `Gateways.ValidGatewayOffersOne` | internal/app/app.go:285-342 | a validated gateway gives at most one candidate of a family: its field for it, or via when both fields are empty |
| `Gateways.PreferredIsConfigured` | internal/app/app.go:263-350 | the preferred candidate is what the first configured gateway that answers offers or, when none does, the first that offers anything, with its own or the inherited device, health targets and timeout |
| `Keys.RouteKeyExact` | internal/planner/planner.go:240-242 | route keys agree exactly when all eight fields agree |
| `Keys.RuleKeyExact` | internal/planner/planner.go:244-246 | rule keys agree exactly when all six fields agree |
| `Planner.RemovePrefixesCoveringAddrs` | internal/planner/planner.go:113-131 | exactly the prefixes that contain none of the addresses, in order |
| `Planner.MatchingHops` | internal/planner/planner.go:99-111 | exactly the hops whose gateway has the family, in order |
| `Planner.DesiredRoutes` | internal/planner/planner.go:69-97 | exactly the routes of surviving sources, throw prefixes and defaults |
| `Planner.DesiredMembers` | internal/planner/planner.go:69-97 | the finite desired set has exactly those members |
| `Planner.DiffRoutes` | internal/planner/planner.go:194-215 | desired minus current and current minus desired, each route once, in any order |
| `Planner.DiffRules` | internal/planner/planner.go:217-238 | the same for rules |
| `Planner.Build` | internal/planner/planner.go:46-67 | one exact plan per group, with the number of distinct surviving prefixes |
| `PlannerProperties.SlotsDistinctExactly` | internal/planner/planner.go:69-97 | desired routes have pairwise distinct slots exactly when no throw prefix meets a hopless destination |
| `PlannerProperties.DesiredInScopeExactly` | internal/planner/planner.go:172-181 | desired routes lie in the listed families unless an unknown family has a default |
| `PlannerProperties.ScopeMeaning` | internal/reconcile/routes/routes.go:10-27 | a group owns the routes of its table, with the program's protocol, in its families |
| `PlannerProperties.GoalConsistent` | internal/planner/planner.go:69-97 | discharges the convergence premises about the desired routes |
| `PlannerProperties.PlanFixpoint` | internal/planner/planner.go:46-67 | re-listing after an error-free reconcile and planning a settled group again finds nothing to do, whatever became of the others |
| `PlannerProperties.GaugeIsExact` | internal/app/app.go:199 | current plus additions minus removals is the number of distinct desired routes |
| `PlannerProperties.GatewaysFitExactly` | internal/planner/planner.go:69-111 | every planned gateway has its destination's family exactly when the via4 and via6 fields do, for every surviving source and default destination without hops |
| `PlannerProperties.PlainViaIs` | internal/planner/planner.go:153-170 | a plain route's gateway is the field for the family, or via where that is empty and of the family |
| `PlannerProperties.GatewaysFit` | internal/planner/planner.go:149-170 | in a validated group only a next hop that mixes via fields with a gateways list can fail this |
| `PlannerProperties.MixedFieldsEscapeValidation` | internal/config/config.go:287-310 | a validated group with mixed next hops whose plan does fail it, and with other sources does not |
| `PlannerProperties.PreferredGatewayLeads` | internal/planner/planner.go:71-80 | the lowest-metric route of a source prefix uses the preferred gateway |
| `Forwarding.SplitRouting` | internal/planner/planner.go:69-97 | lookup goes to target, throw or default according to the longest source and throw prefix holding the address, and meets a throw route in just that case |
| `Forwarding.ExclusionThrows` | internal/app/app.go:206-216 | a lookup of an address in a configured exclusion ends in a throw route unless a longer source prefix survives around it |
| `Forwarding.DefaultRoutesAll` | internal/planner/planner.go:84-95 | with a default every address of its families is routed |
| `Forwarding.LookupUnique` | internal/planner/planner.go:69-97 | with distinct slots a lookup has one answer |
| `Forwarding.LocalsAvoidTarget` | internal/planner/planner.go:53-54 | no source-prefix route holds an address exactly when all sources that do are skipped for some interface; then no lookup takes one |
| `Exclusions.LocalNonPrivatePrefixes` | internal/app/app.go:352-374 | the first addresses of the networks of the host's interfaces, where they are public, as prefixes of full length |
| `Exclusions.ExclusionInputs` | internal/app/app.go:206-226 | the masked exclusions and those addresses, of the group's families; fails exactly on an unreadable exclusion or unlistable interfaces |
| `Exclusions.AddressExcludedExactly` | internal/planner/planner.go:113-131 | no surviving source holds an address exactly when each that does contains the network of some public interface or starts where it does |
| `Exclusions.NetworkAddrInExactly` | internal/app/app.go:384-400 | a block with the host's address holds its network's first address exactly when it is no longer than the interface's prefix or starts there |
| `Exclusions.HostExcludedExactly` | internal/planner/planner.go:113-131 | for the host's own address: sources that span its interface's network are all skipped, and with one public interface nothing less does |
| `Exclusions.HostAlwaysExcludedExactly` | internal/app/app.go:384-400 | the host's address is kept out of every source list exactly when it is its network's first |
| `Exclusions.HostStaysRouted` | internal/app/app.go:384-400 | a host in the upper half of its network keeps the source that is this half |
| `Forwarding.LookupUsesPreferredGateway` | internal/planner/planner.go:71-80 | a lookup that ends at a source prefix uses the preferred gateway |
| `Forwarding.AggregationKeepsForwarding` | internal/app/app.go:154 | with and without aggregation every address gets the same next hop |
| `Forwarding.AggregationKeepsReach` | internal/app/app.go:154 | with and without aggregation the same addresses are routed |
| `Forwarding.DefaultClashExactly` | internal/planner/planner.go:84-95 | an aggregated source meets a default destination exactly when the sources fill a family |
| `Store.GroupStore.SaveGroup` | internal/state/state.go:23-36 | a successful save overwrites the record of that directory and group, a failed one nothing; what was to be saved is logged |
| `Store.GroupStore.LoadGroup` | internal/state/state.go:38-55 | the saved entries of that directory and group that parse, masked, in order; nothing only without a record or on a failed read |
| `Store.FallbackPrefixes` | internal/app/app.go:138-159 | falling back to a saved fetch gives that fetch normalized with either flag |
| `Store.FallbackAgreesExactly` | internal/app/app.go:138-159 | that is the current flag's result unless aggregation was switched off and had changed the list |
| `Store.SwitchedOffStaysMerged` | internal/app/app.go:138-159 | any list with a sibling pair, saved aggregated, stays merged after aggregation is switched off |
| `App.CurrentOwned` | internal/reconcile/routes/routes.go:10-27 | exactly the group's scope, each route once, unless a listing failed |
| `App.SourcePrefixes` | internal/app/app.go:138-159 | normalized fetch, or what is saved in the configured directory, under its own or the current aggregation; saves exactly what was fetched, and gives nothing only when fetch and fallback both fail |
| `App.GroupInput` | internal/app/app.go:132-195 | skips only a failed fetch without usable saved state, aborts only for an unplannable group (an unsupported source type included) or a failed kernel call, and otherwise gives the exact planner input |
| `App.BuildPlan` | internal/app/app.go:128-204 | exact plans, in configured order, for every group but those with a failed fetch and no usable record, each from its fetch or its record; the store is updated group by group; fails only for an unplannable group or a failed kernel call |
| `App.ReconcileOnce` | internal/app/app.go:413-434 | that plan, rules then routes, stopping at the first failing call; complete whenever no call fails and every group is plannable; nothing on a dry run |
| `Failover.HopsExactly` | internal/app/app.go:241-261 | a family gets hops exactly when the name selects it, it is not IPv6 of an unset name, and it has candidates |
| `Failover.FailoverExactly` | internal/app/app.go:241-261 | a source prefix whose family some configured gateway offers is led by the preferred configured gateway exactly when the family is resolved or the next hop's own via field names it |
| `Failover.UnsetFamilyLosesGateway` | internal/app/app.go:246-260 | a validated group with an unset family, an IPv6 gateway and an IPv6 source whose only route has no gateway, no interface and metric 0 |
| `App.ReconcilePlanned` | internal/app/app.go:413-434 | the plans of a valid configuration whose groups share no family of a table meet the convergence premises |
| `App.ReconcilePlannedBeside` | internal/app/app.go:413-434 | and those about one group need only that group's own wishes to be grantable |
| `App.ReconcileRulesPlanned` | internal/app/app.go:413-434 | and those of the rule theorems |
| `Failover.FailoverAfterReconcile` | internal/app/app.go:413-434 | afterwards the kernel's routes of a settled group follow its configuration, sources the target's and default destinations the default's: led at metric 100 by the preferred configured gateway on its own device, or where none is resolved a single plain route on the next hop's device |
| `Failover.InputFollows` | internal/app/app.go:160-187 | the same for what a group plans |
| `Failover.ValidPlans` | internal/config/config.go:196-280 | every planned route of a valid configuration has a positive table and a protocol of a byte, every rule the group's own table and a positive priority, and a configured source is kept |
| `Failover.ValidOffersHaveDevices` | internal/config/config.go:282-310 | in a validated group whatever a gateway offers has a device |
| `Failover.DualOffersFields` | internal/config/config.go:315-322 | in a validated dual group a gateway offers an address only from the field for the family |
| `Failover.ValidIsPlannable` | internal/app/app.go:128-195 | a validated group can be planned as soon as its devices exist and, where needed, interfaces can be listed |
| `App.BuildCleanupPlan` | internal/app/app.go:436-462 | removes exactly the listed routes and, for enabled rules, the listed rules |
| `App.CleanupOwned` | internal/app/app.go:464-486 | applies that plan up to the first failing call, all of it when none fails, nothing on a dry run |
| `App.CleanupComplete` | internal/app/app.go:436-486 | an error-free cleanup removes every owned route and nothing else, shared tables included |
| `App.CleanupRulesComplete` | internal/app/app.go:436-486 | it removes the rules that groups with an enabled rule own, in the band, and no other rule |
| `Daemon.LoadConfig` | internal/app/app.go:98-119 | accepts exactly what is valid both as read and as overridden |
| `Daemon.OverridesExactly` | internal/app/app.go:98-119 | cleanup can only be switched on, the log format only replaced, the built-in group only switched off; the rest is as read |
| `Daemon.RunDaemon` | internal/app/app.go:488-533 | whatever fails on the way, the run performs exactly the steps its events call for, in order: a reconcile at startup and on each tick, a reload and a reconcile for each accepted configuration, the optional cleanup at the end |
| `Runs.ShutdownExactly` | internal/app/app.go:506-514 | a run that ends in termination leaves the world as it was before unless the active configuration asks for cleanup; then, without a failing call, exactly its owned routes and rules are gone |
| `Runs.TickReconciles` | internal/app/app.go:515-519 | a tick reconciles once under the active configuration; undisturbed, every grantable group then has exactly its desired routes |
| `Runs.HangupReloads` | internal/app/app.go:519-531 | a reload is adopted exactly when valid as read and as overridden, and reconciles at once under the new configuration; otherwise nothing changes |
| `Runs.StartupReconciles` | internal/app/app.go:499-505 | at startup the daemon reconciles once under its first configuration |
| `Runs.TerminationEnds` | internal/app/app.go:506-514 | nothing that arrives after termination has any effect |
| `Daemon.DaemonIsLegal` | internal/app/app.go:488-533 | such a run touches only routes and rules of the active configuration and adopts only valid ones |
| `Daemon.ActiveIsValid` | internal/app/app.go:520-530 | every configuration that is ever active has passed validation |
| `Daemon.RunsPlanFittingGateways` | internal/app/app.go:520-530 | in every run a planned gateway of the wrong family comes only from a stray via field, exactly, and only beside a gateways list |
| `Daemon.UnownedStays` | internal/app/app.go:520-530 | from any step on, a route outside the scopes of all active configurations stays: what a reload gives up is never cleaned up |
| `Daemon.ForeignRoutesKept` | internal/app/app.go:488-533 | over any run a route never in an active configuration's scope is untouched |
| `Daemon.ForeignRulesKept` | internal/app/app.go:488-533 | over any run a rule that no active configuration owns, band included, or installs is untouched |
| `Healing.ReconcileSettles` | internal/app/app.go:413-434 | a reconcile without failing calls leaves every planned group whose wishes can be granted exactly its desired routes, routes no planned group owns unchanged, and plans every fetched group |
| `Healing.ReconcileMakesBeforeBreak` | internal/app/app.go:413-434 | a reconcile, complete or failing midway, keeps what is both current and desired and the coverage of each planned group |
| `Healing.ReconcileSettlesExactly` | internal/app/app.go:413-434 | for a valid configuration whose groups may share tables, an error-free reconcile meets every goal exactly when any two agree |
| `Healing.RulesSettle` | internal/app/app.go:413-434 | the same for rules |
| `Healing.GroupRulesSettle` | internal/app/app.go:413-434 | and for one group with its table and priority to itself, whatever the others' rules are like |
| `Healing.GroupRulesSelect` | internal/app/app.go:413-434 | after an error-free reconcile the kernel's rules at a group's table and priority send there exactly the packets its configuration asks for |
| `Healing.SelfHealingExactly` | internal/app/app.go:488-533 | given the convergence premises before and after any run, an error-free reconcile ends where an uninterrupted one would exactly when the run kept what no goal owns; all differences are routes some configuration of the run owned and no goal does |
| `Healing.SelfHealing` | internal/app/app.go:488-533 | so it does, and the later premises hold, whenever every configuration of the run stays inside the goals' scopes |
| `Healing.GroupHeals` | internal/app/app.go:488-533 | a goal that can be granted and is kept across any run, whatever reloads did to other groups and whatever those want, ends exactly as desired; its table's families end as without the run if no configuration used them under another protocol |
| `Healing.RunHealsExactly` | internal/app/app.go:413-434 | the exact statement for whole reconciles before and after the run, given that both have the same goals |
| `Healing.GroupRunHeals` | internal/app/app.go:413-434 | the statement about a kept group for whole reconciles, under the same protocol condition |
| `Healing.RulesHealExactly` | internal/app/app.go:413-434 | reconciles before and after a run with the same rule goals end with the same rules exactly when the run kept the rules no goal owns |
| `Orphans.ReloadOrphans` | internal/app/app.go:520-530 | a run without any failure in which a reload drops a zone: its route stays, where the same reconcile without that history ends with none |
| `LastKnownGood.RecordsAreFetches` | internal/app/app.go:129-159 | over any run, state_dir changes included, each record is the initial one or the normalized fetch last saved in that directory under that name |
| `LastKnownGood.FallbackOverRuns` | internal/app/app.go:129-159 | over any run a group whose fetch fails is planned with that record of its current directory, under its own or the current aggregation |
| `LastKnownGood.OtherRecordsKept` | internal/state/state.go:57-59 | a reconcile that fetches only groups of other names or for another directory leaves a record as it was |
| `LastKnownGood.PlannedExactly` | internal/app/app.go:138-150 | without failures, exactly those groups are planned that were fetched, or have a record of their own name in the configured directory, or follow a fetched group of their name |

## Left out

- Fetching and parsing (`internal/source/ripe`, `internal/source/txt`): a fetch is any prefix list or a failure.
- YAML, flags, logging, metrics serving and signal delivery; signals are events of the daemon, defaults of absent fields are already applied.
- Pings: an answer belongs to a candidate and an address, so two identical candidates of a next hop get one answer; when it comes is not modelled.
- Intervals and timeouts: `Interval`, the tickers and ping timeouts carry no state the model needs.
- Text: addresses and prefixes appear as what netip parses; zones and IPv4-mapped addresses are not modelled.
- Route.Group and Route.Dev, and the names and check reports of hops and candidates: they only reach log lines and gauges.
- Rtnl.Kernel.DeleteRoute: does not model the kernel's wildcard matching of unset fields, because deletions name routes that were listed exactly.
- Rtnl.Kernel.AddRoute: does not model the IPv6 default metric, multipath merging or kernel refusals other than EEXIST; any refusal is a failing call.
- Rtnl.Kernel.ListRoutes: does not model entries without a readable destination, which the program skips.
- Rtnl.Kernel.AddRule: does not model the address family the rule is added under, because the model keeps one rule set.
- Rtnl.Kernel.DeleteRule: does not model the address family the rule is deleted under, for the same reason.
- RuleReconcile.CurrentOwned: does not separate the two families' listings, for the same reason.
- Config.ValidateNextHop: does not model Unicode white space in gateway names; a blank name is one of spaces, tabs and line ends.
- Rtnl.Kernel.ListRules: does not separate the rule tables of the two families; both listings see one rule set.
- Store.GroupStore.SaveGroup: does not model a write that fails halfway and damages the old record, nor group names that collide as file names.
- Source.SortPrefixes: models the library sort as some in-place sort; the order is total, so the result is unique.
- Local interface enumeration: the interface addresses, with their prefix lengths, and netip's classification of public addresses are inputs.
- `check`, `Plan.String`, usage text and the non-Linux stub.
