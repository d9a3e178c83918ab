/** What the daemon does about each event, as statements about the world before and after it. */
module Runs {
  import opened Wrappers
  import opened Prefixes
  import opened Config
  import opened Rtnl
  import opened RouteReconcile
  import opened RouteConvergence
  import opened Planner
  import opened App
  import opened Daemon
  import opened Healing

  /** These moves are a run of the daemon on these events. */
  ghost predicate Ran(opts: Options, w: World, startup: nat -> Env, events: seq<Event>, moves: seq<Move>) {
    Performed(opts, w, [Reconcile(startup)] + Script(opts, w.active, events), moves)
  }

  ghost predicate NoneTerminates(events: seq<Event>) {
    forall e :: e in events ==> !e.Terminate?
  }

  // ---- cutting a run before its last event ----

  lemma FollowsSplit(p: (World, Step, Move) -> bool, w: World, script: seq<Step>, steps: seq<Step>, moves: seq<Move>)
    requires Follows(p, w, script + steps, moves)
    ensures |script| <= |moves| && Follows(p, w, script, moves[..|script|])
    ensures Follows(p, After(w, moves[..|script|]), steps, moves[|script|..])
    ensures After(w, moves) == After(After(w, moves[..|script|]), moves[|script|..])
  {
    var n := |script|;
    var first, rest := moves[..n], moves[n..];
    assert moves == first + rest;
    AfterAppend(w, first, rest);
    forall i | 0 <= i < n ensures p(After(w, first[..i]), script[i], first[i]) {
      assert first[..i] == moves[..i] && (script + steps)[i] == script[i];
    }
    forall i | 0 <= i < |rest| ensures p(After(After(w, first), rest[..i]), steps[i], rest[i]) {
      AfterSlice(w, first, rest, n + i);
      assert (script + steps)[n + i] == steps[i] && rest[i] == moves[n + i];
      assert p(After(w, moves[..n + i]), (script + steps)[n + i], moves[n + i]);
    }
  }

  ghost function ActiveOf(opts: Options, active: Config, events: seq<Event>): Config
    decreases |events|
  {
    if events == [] then active else ActiveOf(opts, ActiveAfter(opts, active, events[0]), events[1..])
  }

  lemma {:induction false} ScriptAppend(opts: Options, active: Config, events: seq<Event>, e: Event)
    requires NoneTerminates(events)
    ensures Script(opts, active, events + [e]) ==
            Script(opts, active, events) + Steps(opts, ActiveOf(opts, active, events), e)
    decreases |events|
  {
    if events == [] {
      assert ([] + [e])[1..] == [] && ([] + [e])[0] == e;
      assert Steps(opts, active, e) + [] == Steps(opts, active, e) == [] + Steps(opts, active, e);
    } else {
      assert events[0] in events;
      assert (events + [e])[0] == events[0] && (events + [e])[1..] == events[1..] + [e];
      var next := ActiveAfter(opts, active, events[0]);
      ScriptAppend(opts, next, events[1..], e);
      Regroup(Steps(opts, active, events[0]), Script(opts, next, events[1..]),
              Steps(opts, ActiveOf(opts, next, events[1..]), e));
    }
  }

  lemma Regroup(a: seq<Step>, b: seq<Step>, c: seq<Step>)
    ensures a + (b + c) == a + b + c
  {
  }

  lemma StepActive(opts: Options, w: World, step: Step, m: Move)
    requires Performs(opts, w, step, m)
    ensures Next(w, m).active == if step.Adopt? then step.next else w.active
  {
  }

  /** The configuration a script of steps ends with. */
  ghost function Adopted(active: Config, script: seq<Step>): Config {
    if script == [] then active
    else
      var last := script[|script| - 1];
      if last.Adopt? then last.next else Adopted(active, script[..|script| - 1])
  }

  lemma {:induction false} AdoptedAppend(active: Config, a: seq<Step>, b: seq<Step>)
    ensures Adopted(active, a + b) == Adopted(Adopted(active, a), b)
  {
    if b == [] {
      assert a + b == a;
    } else {
      assert (a + b)[..|a + b| - 1] == a + b[..|b| - 1];
      AdoptedAppend(active, a, b[..|b| - 1]);
    }
  }

  lemma {:induction false} ScriptAdopts(opts: Options, active: Config, events: seq<Event>)
    requires NoneTerminates(events)
    ensures Adopted(active, Script(opts, active, events)) == ActiveOf(opts, active, events)
    decreases |events|
  {
    if events != [] {
      assert events[0] in events;
      var next, steps := ActiveAfter(opts, active, events[0]), Steps(opts, active, events[0]);
      ScriptAdopts(opts, next, events[1..]);
      AdoptedAppend(active, steps, Script(opts, next, events[1..]));
      assert Adopted(active, steps) == next by {
        if |steps| == 2 { assert steps[..1][..0] == [] && steps[..1][0] == steps[0]; }
      }
    }
  }

  ghost predicate AdoptsAt(i: nat, w: World, script: seq<Step>, moves: seq<Move>)
    requires i < |moves| && i < |script|
  {
    After(w, moves[..i + 1]).active == if script[i].Adopt? then script[i].next else After(w, moves[..i]).active
  }

  lemma StepAdopts(opts: Options, i: nat, w: World, script: seq<Step>, moves: seq<Move>)
    requires Performed(opts, w, script, moves) && i < |moves|
    ensures AdoptsAt(i, w, script, moves)
  {
    StepPerformed(opts, i, w, script, moves);
    StepActive(opts, After(w, moves[..i]), script[i], moves[i]);
  }

  lemma {:induction false} AdoptsThroughout(n: nat, w: World, script: seq<Step>, moves: seq<Move>)
    requires n <= |moves| == |script| && forall i :: 0 <= i < |moves| ==> AdoptsAt(i, w, script, moves)
    ensures After(w, moves[..n]).active == Adopted(w.active, script[..n])
  {
    if n > 0 {
      AdoptsThroughout(n - 1, w, script, moves);
      assert AdoptsAt(n - 1, w, script, moves);
      assert script[..n][..n - 1] == script[..n - 1];
    }
  }

  /** A run ends with the configuration its script last adopts. */
  lemma PerformedAdopts(opts: Options, w: World, script: seq<Step>, moves: seq<Move>)
    requires Performed(opts, w, script, moves)
    ensures After(w, moves).active == Adopted(w.active, script)
  {
    forall i | 0 <= i < |moves| ensures AdoptsAt(i, w, script, moves) {
      StepAdopts(opts, i, w, script, moves);
    }
    AdoptsThroughout(|moves|, w, script, moves);
    assert moves[..|moves|] == moves && script[..|moves|] == script;
  }

  /** A run on one event more is a run without it, followed by what that event calls for. */
  lemma LastEvent(opts: Options, w: World, startup: nat -> Env, events: seq<Event>, e: Event, moves: seq<Move>)
    returns (n: nat)
    requires Ran(opts, w, startup, events + [e], moves) && NoneTerminates(events)
    ensures n <= |moves| && Ran(opts, w, startup, events, moves[..n])
    ensures var before := After(w, moves[..n]);
            && Performed(opts, before, Steps(opts, before.active, e), moves[n..])
            && After(w, moves) == After(before, moves[n..])
  {
    var script := [Reconcile(startup)] + Script(opts, w.active, events);
    var active := ActiveOf(opts, w.active, events);
    ScriptAppend(opts, w.active, events, e);
    Regroup([Reconcile(startup)], Script(opts, w.active, events), Steps(opts, active, e));
    FollowsSplit(Performer(opts), w, script, Steps(opts, active, e), moves);
    n := |script|;
    PerformedAdopts(opts, w, script, moves[..n]);
    AdoptedAppend(w.active, [Reconcile(startup)], Script(opts, w.active, events));
    assert Adopted(w.active, [Reconcile(startup)]) == w.active;
    ScriptAdopts(opts, w.active, events);
  }

  lemma SinglePerformed(opts: Options, w: World, step: Step, moves: seq<Move>)
    requires Performed(opts, w, [step], moves)
    ensures |moves| == 1 && Performs(opts, w, step, moves[0]) && After(w, moves) == Next(w, moves[0])
  {
    StepPerformed(opts, 0, w, [step], moves);
    assert moves[..0] == [] && moves[..1] == moves;
  }

  // ---- the events ----

  /** Nothing outside keeps a reconcile from settling: no dry run, no failing call from one world to the
      other, groups that can be planned. */
  ghost predicate Undisturbed(opts: Options, w: World, envs: nat -> Env, after: World) {
    !opts.dryRun && after.failures == w.failures && AllPlannable(w.active, envs) && Placed(w)
  }

  /** A failure-free reconcile of plannable groups left every grantable group exactly as desired, and
      planned every group that was fetched. */
  ghost predicate Settled(opts: Options, w: World, envs: nat -> Env, after: World) {
    exists m, plans, inputs, at :: SettledBy(opts, w, envs, after, m, plans, inputs, at)
  }

  ghost predicate SettledBy(opts: Options, w: World, envs: nat -> Env, after: World, m: Move, plans: seq<GroupPlan>,
                            inputs: seq<InputGroup>, at: seq<nat>) {
    && ErrorFree(opts, w, envs, m, plans, inputs, at) && after == Next(w, m)
    && (forall i :: 0 <= i < |inputs| && Grantable(w, inputs[i]) ==>
          Owned(after.routes, ScopeOf(w.active.routeProtocol, inputs[i].config)) ==
          DesiredSet(w.active.routeProtocol, inputs[i]))
    && (forall i: nat :: i < |Groups(w.active)| && envs(i).fetch.Some? ==> i in at)
  }

  lemma ReconcileStep(opts: Options, w: World, envs: nat -> Env, m: Move)
    requires Performs(opts, w, Reconcile(envs), m)
    ensures Next(w, m).active == w.active
    ensures opts.dryRun ==> Next(w, m).routes == w.routes && Next(w, m).rules == w.rules
    ensures Undisturbed(opts, w, envs, Next(w, m)) ==> Settled(opts, w, envs, Next(w, m))
  {
    var plans, inputs, at :| Reconciles(opts, w, envs, m, plans, inputs, at);
    if Undisturbed(opts, w, envs, Next(w, m)) {
      ReconcileSettles(opts, w, envs, m, plans, inputs, at);
      assert SettledBy(opts, w, envs, Next(w, m), m, plans, inputs, at);
    }
  }

  /** At startup the daemon reconciles once, under the configuration it was started with. */
  lemma StartupReconciles(opts: Options, w: World, startup: nat -> Env, moves: seq<Move>)
    requires Ran(opts, w, startup, [], moves)
    ensures |moves| == 1 && Performs(opts, w, Reconcile(startup), moves[0]) && After(w, moves) == Next(w, moves[0])
    ensures Undisturbed(opts, w, startup, After(w, moves)) ==> Settled(opts, w, startup, After(w, moves))
  {
    assert [Reconcile(startup)] + [] == [Reconcile(startup)];
    SinglePerformed(opts, w, Reconcile(startup), moves);
    ReconcileStep(opts, w, startup, moves[0]);
  }

  /** A tick reconciles once under the active configuration, whichever that is. */
  lemma TickReconciles(opts: Options, w: World, startup: nat -> Env, events: seq<Event>, envs: nat -> Env,
                       moves: seq<Move>) returns (n: nat)
    requires Ran(opts, w, startup, events + [Tick(envs)], moves) && NoneTerminates(events)
    ensures n <= |moves| && Ran(opts, w, startup, events, moves[..n])
    ensures var before, after := After(w, moves[..n]), After(w, moves);
            && after.active == before.active
            && |moves| == n + 1 && Performs(opts, before, Reconcile(envs), moves[n]) && after == Next(before, moves[n])
            && (Undisturbed(opts, before, envs, after) ==> Settled(opts, before, envs, after))
  {
    n := LastEvent(opts, w, startup, events, Tick(envs), moves);
    var before := After(w, moves[..n]);
    SinglePerformed(opts, before, Reconcile(envs), moves[n..]);
    ReconcileStep(opts, before, envs, moves[n]);
  }

  lemma AdoptAndReconcile(opts: Options, w: World, next: Config, envs: nat -> Env, moves: seq<Move>)
    requires Performed(opts, w, [Adopt(next), Reconcile(envs)], moves)
    ensures |moves| == 2 && Performs(opts, w.(active := next), Reconcile(envs), moves[1])
    ensures After(w, moves) == Next(w.(active := next), moves[1])
  {
    var script := [Adopt(next), Reconcile(envs)];
    StepPerformed(opts, 0, w, script, moves);
    StepPerformed(opts, 1, w, script, moves);
    assert moves[..0] == [] && moves[..2] == moves;
  }

  /** A reload is adopted exactly when it is valid as read and as overridden; then it reconciles at once
      under the new configuration. Otherwise nothing changes. */
  lemma HangupReloads(opts: Options, w: World, startup: nat -> Env, events: seq<Event>, read: Option<Config>,
                      envs: nat -> Env, moves: seq<Move>) returns (n: nat)
    requires Ran(opts, w, startup, events + [Hangup(read, envs)], moves) && NoneTerminates(events)
    ensures n <= |moves| && Ran(opts, w, startup, events, moves[..n])
    ensures var before, after := After(w, moves[..n]), After(w, moves);
            if read.Some? && ConfigOk(read.value) && ConfigOk(Overridden(opts, read.value)) then
              var reloaded := before.(active := Overridden(opts, read.value));
              && after.active == reloaded.active
              && |moves| == n + 2 && Performs(opts, reloaded, Reconcile(envs), moves[n + 1])
              && after == Next(reloaded, moves[n + 1])
              && (Undisturbed(opts, reloaded, envs, after) ==> Settled(opts, reloaded, envs, after))
            else after == before
  {
    n := LastEvent(opts, w, startup, events, Hangup(read, envs), moves);
    var before, rest := After(w, moves[..n]), moves[n..];
    if read.Some? && ConfigOk(read.value) && ConfigOk(Overridden(opts, read.value)) {
      var next := Overridden(opts, read.value);
      AdoptAndReconcile(opts, before, next, envs, rest);
      ReconcileStep(opts, before.(active := next), envs, rest[1]);
    } else {
      assert rest == [];
    }
  }

  /** At the end the daemon cleans up exactly when the active configuration asks for it: without the
      option the world stays as it was; with it, and without a failing call, precisely the owned routes
      and rules of the active configuration are gone. */
  lemma ShutdownExactly(opts: Options, w: World, startup: nat -> Env, events: seq<Event>, moves: seq<Move>)
    returns (n: nat)
    requires Ran(opts, w, startup, events + [Terminate], moves) && NoneTerminates(events)
    requires KernelState(w.routes) && RulesInstalled(w.rules)
    ensures n <= |moves| && Ran(opts, w, startup, events, moves[..n])
    ensures var before, after := After(w, moves[..n]), After(w, moves);
            && after.active == before.active && after.saved == before.saved
            && (!before.active.cleanupOnShutdown ==> after == before)
            && (opts.dryRun ==> after.routes == before.routes && after.rules == before.rules)
            && (before.active.cleanupOnShutdown && !opts.dryRun && after.failures == before.failures ==>
                  && (forall r :: r in after.routes <==> r in before.routes && !InConfig(r, before.active))
                  && (forall r :: r in after.rules <==> r in before.rules && !CleanedRule(r, before.active)))
  {
    n := LastEvent(opts, w, startup, events, Terminate, moves);
    var before, rest := After(w, moves[..n]), moves[n..];
    KernelStateKept(w, moves[..n]);
    if before.active.cleanupOnShutdown {
      SinglePerformed(opts, before, Cleanup, rest);
      CleanupStep(opts, before, rest[0]);
    } else {
      assert rest == [];
    }
  }

  lemma CleanupStep(opts: Options, w: World, m: Move)
    requires Performs(opts, w, Cleanup, m) && KernelState(w.routes) && RulesInstalled(w.rules)
    ensures Next(w, m).active == w.active && Next(w, m).saved == w.saved
    ensures opts.dryRun ==> Next(w, m).routes == w.routes && Next(w, m).rules == w.rules
    ensures !opts.dryRun && Next(w, m).failures == w.failures ==>
              && (forall r :: r in Next(w, m).routes <==> r in w.routes && !InConfig(r, w.active))
              && (forall r :: r in Next(w, m).rules <==> r in w.rules && !CleanedRule(r, w.active))
  {
    var plans :| CleansUp(opts, w, m, plans);
    if !opts.dryRun && m.failures == 0 {
      CleanupComplete(plans, w.active, w.routes, w.rules);
      CleanupRulesComplete(plans, w.active, w.routes, w.rules);
    }
  }

  /** Nothing that arrives after termination has any effect. */
  lemma TerminationEnds(opts: Options, w: World, startup: nat -> Env, events: seq<Event>, more: seq<Event>,
                        moves: seq<Move>)
    requires NoneTerminates(events)
    ensures Ran(opts, w, startup, events + [Terminate] + more, moves) <==>
            Ran(opts, w, startup, events + [Terminate], moves)
  {
    ScriptEnds(opts, w.active, events, more);
  }

  lemma {:induction false} ScriptEnds(opts: Options, active: Config, events: seq<Event>, more: seq<Event>)
    requires NoneTerminates(events)
    ensures Script(opts, active, events + [Terminate] + more) == Script(opts, active, events + [Terminate])
    decreases |events|
  {
    var long, short := events + [Terminate] + more, events + [Terminate];
    if events != [] {
      assert events[0] in events;
      assert long[0] == short[0] == events[0];
      assert long[1..] == events[1..] + [Terminate] + more && short[1..] == events[1..] + [Terminate];
      ScriptEnds(opts, ActiveAfter(opts, active, events[0]), events[1..], more);
    } else {
      assert long[0] == Terminate == short[0];
    }
  }
}
