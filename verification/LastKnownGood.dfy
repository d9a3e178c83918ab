/** The last-known-good state over whole runs, whatever state directory each configuration names. */
module LastKnownGood {
  import opened Wrappers
  import opened Prefixes
  import opened Normalization
  import opened Config
  import opened Planner
  import opened Store
  import opened App
  import opened Daemon

  /** Step i of the run reconciled and fetched this for a group with its state there, under flag b. */
  ghost predicate FetchedAt(i: nat, key: RecordKey, f: seq<Prefix>, b: bool, w: World, script: seq<Step>,
                            moves: seq<Move>) {
    i < |script| && i < |moves| && script[i].Reconcile? &&
    var cfg := After(w, moves[..i]).active;
    b == cfg.aggregation &&
    exists j: nat :: j < |Groups(cfg)| && cfg.stateDir == key.dir && Groups(cfg)[j].name == key.group &&
      script[i].envs(j).fetch == Some(f)
  }

  /** The store holds this record under the key after every number of steps from lo to hi. */
  ghost predicate Stands(key: RecordKey, record: seq<Prefix>, lo: nat, hi: nat, w: World, moves: seq<Move>)
    requires hi <= |moves|
  {
    forall l :: lo <= l <= hi ==> Holds(After(w, moves[..l]).saved, key, record)
  }

  ghost predicate Holds(saved: Records, key: RecordKey, record: seq<Prefix>) {
    key in saved && saved[key] == record
  }

  /** The record is that fetch, normalized, and nothing has been saved over it up to step n. */
  ghost predicate LastFetched(key: RecordKey, record: seq<Prefix>, i: nat, f: seq<Prefix>, b: bool, n: nat, w: World,
                              script: seq<Step>, moves: seq<Move>)
    requires n <= |moves|
  {
    && i < n && FetchedAt(i, key, f, b, w, script, moves)
    && record == Normalized(f, b) && Stands(key, record, i + 1, n, w, moves)
  }

  /** After n steps the record is still the initial one or the last saved fetch. */
  ghost predicate Stems(key: RecordKey, record: seq<Prefix>, n: nat, w: World, script: seq<Step>, moves: seq<Move>)
    requires n <= |moves|
  {
    Stands(key, record, 0, n, w, moves) || exists i: nat, f, b :: LastFetched(key, record, i, f, b, n, w, script, moves)
  }

  ghost predicate AllStem(saved: Records, n: nat, w: World, script: seq<Step>, moves: seq<Move>)
    requires n <= |moves|
  {
    forall key :: key in saved ==> Stems(key, saved[key], n, w, script, moves)
  }

  lemma BelowIsFetched(key: RecordKey, record: seq<Prefix>, i: nat, n: nat, w: World, script: seq<Step>,
                       moves: seq<Move>)
    returns (f: seq<Prefix>, b: bool)
    requires i < |script| && i < |moves| && script[i].Reconcile?
    requires FetchedBelow(key, record, n, After(w, moves[..i]).active, script[i].envs)
    ensures FetchedAt(i, key, f, b, w, script, moves) && record == Normalized(f, b)
  {
    var cfg := After(w, moves[..i]).active;
    var j: nat :| j < n && j < |Groups(cfg)| && cfg.stateDir == key.dir && Groups(cfg)[j].name == key.group &&
      script[i].envs(j).fetch.Some? &&
      record == Normalized(script[i].envs(j).fetch.value, cfg.aggregation);
    f, b := script[i].envs(j).fetch.value, cfg.aggregation;
  }

  lemma StandsOn(key: RecordKey, record: seq<Prefix>, lo: nat, n: nat, w: World, moves: seq<Move>)
    requires n < |moves| && Stands(key, record, lo, n, w, moves)
    requires Holds(After(w, moves[..n + 1]).saved, key, record)
    ensures Stands(key, record, lo, n + 1, w, moves)
  {
    forall l | lo <= l <= n + 1 ensures Holds(After(w, moves[..l]).saved, key, record) {
      if l <= n { assert Holds(After(w, moves[..l]).saved, key, record); }
    }
  }

  lemma KeptStems(key: RecordKey, record: seq<Prefix>, n: nat, w: World, script: seq<Step>, moves: seq<Move>)
    requires n < |moves| && Stems(key, record, n, w, script, moves)
    requires Holds(After(w, moves[..n + 1]).saved, key, record)
    ensures Stems(key, record, n + 1, w, script, moves)
  {
    if Stands(key, record, 0, n, w, moves) {
      StandsOn(key, record, 0, n, w, moves);
    } else {
      var i: nat, f, b :| LastFetched(key, record, i, f, b, n, w, script, moves);
      StandsOn(key, record, i + 1, n, w, moves);
      assert LastFetched(key, record, i, f, b, n + 1, w, script, moves);
    }
  }

  ghost predicate KeptOrFetched(was: World, step: Step, key: RecordKey, record: seq<Prefix>) {
    Holds(was.saved, key, record) ||
    (step.Reconcile? && FetchedBelow(key, record, |Groups(was.active)|, was.active, step.envs))
  }

  /** One step keeps a record or saves a fetch over it. */
  lemma SavedByStep(opts: Options, was: World, step: Step, m: Move)
    requires Performs(opts, was, step, m)
    ensures forall key :: key in Next(was, m).saved ==> KeptOrFetched(was, step, key, Next(was, m).saved[key])
  {
    if step.Reconcile? {
      assert StoreStep(was.saved, m.saved, |Groups(was.active)|, was.active, step.envs);
    }
  }

  lemma StepStems(n: nat, w: World, script: seq<Step>, moves: seq<Move>, key: RecordKey, record: seq<Prefix>)
    requires n < |script| && n < |moves| && AllStem(After(w, moves[..n]).saved, n, w, script, moves)
    requires Holds(After(w, moves[..n + 1]).saved, key, record)
    requires KeptOrFetched(After(w, moves[..n]), script[n], key, record)
    ensures Stems(key, record, n + 1, w, script, moves)
  {
    var was := After(w, moves[..n]);
    if Holds(was.saved, key, record) {
      KeptStems(key, record, n, w, script, moves);
    } else {
      var f, b := BelowIsFetched(key, record, n, |Groups(was.active)|, w, script, moves);
      assert LastFetched(key, record, n, f, b, n + 1, w, script, moves);
    }
  }

  /** After n steps every record of the store is an initial one or the last saved fetch. */
  ghost predicate StoreStems(n: nat, w: World, script: seq<Step>, moves: seq<Move>) {
    n <= |moves| && AllStem(After(w, moves[..n]).saved, n, w, script, moves)
  }

  lemma StartStems(w: World, script: seq<Step>, moves: seq<Move>)
    ensures StoreStems(0, w, script, moves)
  {
    assert moves[..0] == [];
    forall key | key in w.saved ensures Stands(key, w.saved[key], 0, 0, w, moves) {
    }
  }

  ghost predicate SavedAt(i: nat, w: World, script: seq<Step>, moves: seq<Move>)
    requires i < |moves| && i < |script|
  {
    var saved := After(w, moves[..i + 1]).saved;
    forall key :: key in saved ==> KeptOrFetched(After(w, moves[..i]), script[i], key, saved[key])
  }

  lemma PerformedSaves(opts: Options, i: nat, w: World, script: seq<Step>, moves: seq<Move>)
    requires Performed(opts, w, script, moves) && i < |moves|
    ensures SavedAt(i, w, script, moves)
  {
    StepPerformed(opts, i, w, script, moves);
    SavedByStep(opts, After(w, moves[..i]), script[i], moves[i]);
  }

  lemma {:induction false} SavesStem(n: nat, w: World, script: seq<Step>, moves: seq<Move>)
    requires n <= |moves| == |script| && forall i :: 0 <= i < n ==> SavedAt(i, w, script, moves)
    ensures StoreStems(n, w, script, moves)
  {
    if n == 0 {
      StartStems(w, script, moves);
    } else {
      SavesStem(n - 1, w, script, moves);
      assert SavedAt(n - 1, w, script, moves);
      var saved := After(w, moves[..n]).saved;
      forall key | key in saved ensures Stems(key, saved[key], n, w, script, moves) {
        StepStems(n - 1, w, script, moves, key, saved[key]);
      }
    }
  }

  /** Over any run, every record of the store is an initial one or the normalized form of the fetch
      last saved in that directory for a group of that name. */
  lemma RecordsAreFetches(opts: Options, n: nat, w: World, script: seq<Step>, moves: seq<Move>)
    requires Performed(opts, w, script, moves) && n <= |moves|
    ensures StoreStems(n, w, script, moves)
  {
    forall i | 0 <= i < n ensures SavedAt(i, w, script, moves) {
      PerformedSaves(opts, i, w, script, moves);
    }
    SavesStem(n, w, script, moves);
  }

  /** f, normalized under flag b, is what a group with its state there falls back to in step n: the initial
      record, the last fetch saved since, or what an earlier group of the same name has just fetched. */
  ghost predicate Fallback(key: RecordKey, f: seq<Prefix>, b: bool, n: nat, w: World, script: seq<Step>,
                           moves: seq<Move>)
    requires n <= |moves|
  {
    || (SavedFrom(w.saved, key, f, b) && Stands(key, Normalized(f, b), 0, n, w, moves))
    || (exists i: nat :: LastFetched(key, Normalized(f, b), i, f, b, n, w, script, moves))
    || FetchedAt(n, key, f, b, w, script, moves)
  }

  lemma StemFallback(key: RecordKey, record: seq<Prefix>, n: nat, w: World, script: seq<Step>, moves: seq<Move>)
    returns (f: seq<Prefix>, b: bool)
    requires n <= |moves| && Stems(key, record, n, w, script, moves)
    requires forall x :: x in w.saved ==> exists f, b :: SavedFrom(w.saved, x, f, b)
    ensures record == Normalized(f, b) && Fallback(key, f, b, n, w, script, moves)
  {
    if Stands(key, record, 0, n, w, moves) {
      assert moves[..0] == [];
      assert Holds(After(w, moves[..0]).saved, key, record);
      f, b :| SavedFrom(w.saved, key, f, b);
    } else {
      var i: nat;
      i, f, b :| LastFetched(key, record, i, f, b, n, w, script, moves);
    }
  }

  /** So a reconcile that falls back plans with the last saved fetch, under its own or the current
      aggregation, provided the store did not start with anything but normalized lists. */
  lemma FallbackOverRuns(opts: Options, n: nat, w: World, script: seq<Step>, moves: seq<Move>, x: InputGroup, i: nat)
    returns (f: seq<Prefix>, b: bool)
    requires Performed(opts, w, script, moves) && n < |moves| && script[n].Reconcile?
    requires forall key :: key in w.saved ==> exists f, b :: SavedFrom(w.saved, key, f, b)
    requires var was := After(w, moves[..n]);
             InputAt(x, i, was.active, script[n].envs, was.saved, was.routes, was.rules)
    requires script[n].envs(i).fetch == None
    ensures Fallback(RecordKey(After(w, moves[..n]).active.stateDir, x.config.name), f, b, n, w, script, moves)
    ensures x.prefixes == Normalized(f, b || After(w, moves[..n]).active.aggregation)
  {
    var was, envs := After(w, moves[..n]), script[n].envs;
    var g := Groups(was.active)[i];
    var raw :| RawAt(raw, i, was.active, envs, was.saved) &&
               InputFor(x, was.active, g, envs(i), raw, was.routes, was.rules);
    var record :| raw == Loaded(record) && RecordAt(record, i, was.active, envs, was.saved);
    if Holds(was.saved, RecordKey(was.active.stateDir, g.name), record) {
      RecordsAreFetches(opts, n, w, script, moves);
      f, b := StemFallback(RecordKey(was.active.stateDir, g.name), record, n, w, script, moves);
    } else {
      f, b := BelowIsFetched(RecordKey(was.active.stateDir, g.name), record, n, i, w, script, moves);
    }
    FallbackPrefixes(f, b, was.active.aggregation);
  }

  // ---- whose record it is ----

  /** A reconcile that fetches only groups of other names, or for another directory, leaves a record as
      it was. */
  lemma OtherRecordsKept(opts: Options, w: World, envs: nat -> Env, m: Move, dir: string, group: string)
    requires Performs(opts, w, Reconcile(envs), m)
    requires forall j: nat :: j < |Groups(w.active)| && envs(j).fetch.Some? ==>
               w.active.stateDir != dir || Groups(w.active)[j].name != group
    ensures RecordKey(dir, group) in Next(w, m).saved <==> RecordKey(dir, group) in w.saved
    ensures RecordKey(dir, group) in w.saved ==>
              Next(w, m).saved[RecordKey(dir, group)] == w.saved[RecordKey(dir, group)]
  {
    var key := RecordKey(dir, group);
    assert StoreStep(w.saved, m.saved, |Groups(w.active)|, w.active, envs);
    if key in m.saved { assert key in w.saved; }
  }

  /** Without a failing call or store access, exactly those groups are planned that were fetched, or have
      a record of their own name in the configured directory, or follow a group of their name that was
      fetched. */
  lemma PlannedExactly(opts: Options, w: World, envs: nat -> Env, m: Move, plans: seq<GroupPlan>,
                       inputs: seq<InputGroup>, at: seq<nat>, i: nat)
    requires m.Work? && Reconciles(opts, w, envs, m, plans, inputs, at) && AllPlannable(w.active, envs)
    requires m.failures == 0 && m.storeFailures == 0 && i < |Groups(w.active)|
    ensures i in at <==>
              || envs(i).fetch.Some?
              || RecordKey(w.active.stateDir, Groups(w.active)[i].name) in w.saved
              || exists j: nat :: j < i && Groups(w.active)[j].name == Groups(w.active)[i].name && envs(j).fetch.Some?
  {
    var cfg := w.active;
    if i in at {
      var n :| 0 <= n < |at| && at[n] == i;
      assert InputAt(inputs[n], at[n], cfg, envs, w.saved, w.routes, w.rules);
      var raw :| RawAt(raw, i, cfg, envs, w.saved) &&
        InputFor(inputs[n], cfg, Groups(cfg)[i], envs(i), raw, w.routes, w.rules);
      if envs(i).fetch == None {
        var record :| raw == Loaded(record) && RecordAt(record, i, cfg, envs, w.saved);
      }
    } else {
      assert OnlySkipped(at, |Groups(cfg)|, cfg, envs, w.saved, false);
      assert NoRecord(i, cfg, envs, w.saved);
    }
  }
}
