/** When packages land: a task becomes merged, and a dependency counts as merged,
    only when its branch really is contained in the integration branch
    (engine/controller.py, scheduler/classifier.py). */
module Landings {
  import opened Classifier
  import opened Git
  import I = Integration
  import opened Invariants
  import opened Ledger
  import opened Project
  import opened Runner
  import R = Runs
  import opened Steps
  import opened Text
  import opened Tick
  import opened Wrappers

  /** In this tick the package's branch was contained in the integration branch:
      at the start, when the classification looked, or at the end, as the branch
      stood when the integration began. */
  ghost predicate LandedIn(cfg: Config, w: World, input: TickInput, t: World, id: string)
    requires ValidConfig(cfg) && ValidRepo(w.repo) && ValidRepo(t.repo)
  {
    || MergedId(cfg, w.repo, id)
    || (Settle(cfg, w, input).Ok? && ContainedIn(cfg, Settle(cfg, w, input).value.repo, t.repo, id))
  }

  lemma StaysContained(cfg: Config, past: RepoState, now: RepoState, later: RepoState, id: string)
    requires ValidRepo(now) && ValidRepo(later) && now.commits <= later.commits && ContainedIn(cfg, past, now, id)
    requires cfg.integration in later.refs && later.refs[cfg.integration] == now.refs[cfg.integration]
    ensures ContainedIn(cfg, past, later, id)
  {
    ReachesStable(now.commits, later.commits, now.refs[cfg.integration], past.refs[cfg.packages[id].branch]);
  }

  // ---- Hydration -------------------------------------------------------

  lemma {:induction false} EnsureAllAppends(l: LedgerState, cfg: Config, ids: seq<string>, a: nat)
    requires (forall id | id in ids :: id in cfg.packages) && a < |EnsureAll(l, cfg, ids).tasks|
    ensures var tasks := EnsureAll(l, cfg, ids).tasks;
            if a < |l.tasks| then tasks[a] == l.tasks[a] else tasks[a].status == Planned
    decreases |ids|
  {
    if ids != [] {
      var m := Ensured(l, ids[0], cfg.packages[ids[0]].name);
      EnsureAllAppends(m, cfg, ids[1..], a);
    }
  }

  /** Only a state of the kind `merged` makes its package's task merged. */
  lemma HydrateEachMerges(w: World, states: seq<PackageState>, a: nat) returns (k: nat)
    requires forall j, k | 0 <= j < k < |states| :: states[j].id != states[k].id
    requires DistinctIds(w.ledger.tasks) && HydrateEach(w, states).Ok? && a < |w.ledger.tasks|
    requires w.ledger.tasks[a].id == TaskIdFor(w.ledger.tasks[a].packageId) && w.ledger.tasks[a].status != Merged
    requires |HydrateEach(w, states).value.ledger.tasks| == |w.ledger.tasks|
    requires HydrateEach(w, states).value.ledger.tasks[a].status == Merged
    ensures k < |states| && states[k].id == w.ledger.tasks[a].packageId && states[k].kind == MergedIn
  {
    var before := w.ledger.tasks;
    assert IndexOf(before, before[a].id) == a;
    HydrationReachesTargets(w, states, a);
    k :| 0 <= k < |states| && TaskIdFor(states[k].id) == before[a].id;
    assert TaskIdFor(states[k].id)[5..] == states[k].id && before[a].id[5..] == before[a].packageId;
  }

  lemma EnsuredTask(cfg: Config, w: World, a: nat)
    requires ConfigOk(cfg) && WorldOk(cfg, w)
    requires (forall id | id in cfg.order :: id in cfg.packages) && a < |EnsureAll(w.ledger, cfg, cfg.order).tasks|
    ensures var tasks := EnsureAll(w.ledger, cfg, cfg.order).tasks;
            DistinctIds(tasks) && tasks[a].id == TaskIdFor(tasks[a].packageId)
  {
    EnsureAllKeeps(cfg, w, cfg.order);
    assert TaskOk(cfg, w.repo.commits, w.launches, w.landed, w.approvals, EnsureAll(w.ledger, cfg, cfg.order).tasks[a]);
  }

  /** Hydration marks a task merged only if its package's branch is contained in
      the integration branch. */
  lemma HydrationMergesContained(cfg: Config, w: World, a: nat)
    requires ConfigOk(cfg) && WorldOk(cfg, w) && Hydrate(cfg, w).Ok?
    requires var after := Hydrate(cfg, w).value.ledger.tasks;
             a < |after| && after[a].status == Merged && (a < |w.ledger.tasks| ==> w.ledger.tasks[a].status != Merged)
    ensures MergedId(cfg, w.repo, Hydrate(cfg, w).value.ledger.tasks[a].packageId)
  {
    SortedPackages(cfg);
    var ids, l := Sorted(cfg.order), EnsureAll(w.ledger, cfg, cfg.order);
    var states := ClassifyEach(cfg, w.repo, w.trees, l.tasks, ids);
    var looked := w.(ledger := l, landed := w.landed + MergedIds(cfg, w.repo));
    HydratedRecords(looked, states);
    EnsuredTask(cfg, w, a);
    EnsureAllAppends(w.ledger, cfg, cfg.order, a);
    var k := HydrateEachMerges(looked, states, a);
    ClassificationMeans(cfg, w.repo, w.trees, l.tasks, ids[k]);
  }

  lemma {:induction false} HydratedRecords(w: World, states: seq<PackageState>)
    requires HydrateEach(w, states).Ok?
    ensures var before, after := w.ledger.tasks, HydrateEach(w, states).value.ledger.tasks;
            |after| == |before| && forall j | 0 <= j < |before| :: after[j].packageId == before[j].packageId
    decreases |states|
  {
    if states != [] {
      var i := IndexOf(w.ledger.tasks, TaskIdFor(states[0].id));
      var target := if i < |w.ledger.tasks| then HydrateTarget(w.ledger.tasks[i].status, states[0].kind) else None;
      HydratedRecords(if target.Some? then Move(w, i, target.value, NO_NOTES).value else w, states[1..]);
    }
  }

  // ---- Integration -----------------------------------------------------

  /** The record is the same task's; if it became merged, and under its own name
      only, its package's branch is contained in the integration branch. */
  ghost predicate MergesContained(cfg: Config, before: Task, after: Task, past: RepoState, now: RepoState)
    requires ValidRepo(now)
  {
    && after == before.(status := after.status, notes := after.notes)
    && (after.status == Merged && before.status != Merged && OwnNameOnly(cfg, before) ==>
          ContainedIn(cfg, past, now, before.packageId))
  }

  lemma PhaseMergesContained(cfg: Config, w: World, input: I.Answers)
    requires ConfigOk(cfg) && WorldOk(cfg, w) && FitsSuite(cfg.commands, input.env) && IntegratePhase(cfg, w, input).Ok?
    ensures var t := IntegratePhase(cfg, w, input).value;
            && ValidRepo(t.repo) && |t.ledger.tasks| == |w.ledger.tasks|
            && forall a | 0 <= a < |w.ledger.tasks| ::
                 MergesContained(cfg, w.ledger.tasks[a], t.ledger.tasks[a], w.repo, t.repo)
  {
    SortedPackages(cfg);
    var states := ClassifyEach(cfg, w.repo, w.trees, w.ledger.tasks, Sorted(cfg.order));
    var candidates := Candidates(w.ledger.tasks, states).value;
    if candidates != [] {
      assert Listed(cfg, w, candidates[0]);
      CandidateHeads(w.repo, w.ledger.tasks, states);
      MergedTaskIsContained(cfg, w, candidates[0], input);
      var t := IntegrateCandidate(cfg, w, candidates[0], input).value;
      forall a | 0 <= a < |w.ledger.tasks|
        ensures MergesContained(cfg, w.ledger.tasks[a], t.ledger.tasks[a], w.repo, t.repo)
      {
        if a != CandidateTask(w.ledger.tasks, candidates[0]) {
          assert t.ledger.tasks[a] == w.ledger.tasks[a];
        }
      }
    }
  }

  lemma PhaseLands(cfg: Config, w: World, input: I.Answers, id: string)
    requires ConfigOk(cfg) && WorldOk(cfg, w) && FitsSuite(cfg.commands, input.env) && IntegratePhase(cfg, w, input).Ok?
    requires ValidRepo(IntegratePhase(cfg, w, input).value.repo)
    ensures var t := IntegratePhase(cfg, w, input).value;
            id in t.landed && id !in w.landed ==> ContainedIn(cfg, w.repo, t.repo, id)
  {
    SortedPackages(cfg);
    var states := ClassifyEach(cfg, w.repo, w.trees, w.ledger.tasks, Sorted(cfg.order));
    var candidates := Candidates(w.ledger.tasks, states).value;
    if candidates != [] {
      assert Listed(cfg, w, candidates[0]);
      CandidateHeads(w.repo, w.ledger.tasks, states);
      MergedTaskIsContained(cfg, w, candidates[0], input);
    }
  }

  // ---- One tick --------------------------------------------------------

  /** The phases after `Settle` merge tasks of contained packages only. */
  lemma MergeAndLaunchLands(cfg: Config, w: World, input: TickInput)
    requires ConfigOk(cfg) && WorldOk(cfg, w) && FitsSuite(cfg.commands, input.answers.env)
    requires MergeAndLaunch(cfg, w, input).Ok?
    ensures var t := MergeAndLaunch(cfg, w, input).value;
            && |t.ledger.tasks| == |w.ledger.tasks|
            && forall a | 0 <= a < |w.ledger.tasks| ::
                 MergesContained(cfg, w.ledger.tasks[a], t.ledger.tasks[a], w.repo, t.repo)
  {
    var m := if input.integrate then IntegratePhase(cfg, w, input.answers).value else w;
    if input.integrate {
      IntegratePhaseKeeps(cfg, w, input.answers);
      PhaseMergesContained(cfg, w, input.answers);
    }
    var t := MergeAndLaunch(cfg, w, input).value;
    LaunchFromKeeps(cfg, m, 0, |m.ledger.tasks|, Slots(cfg, m.ledger.tasks), input.launch, input.launching);
    forall a | 0 <= a < |w.ledger.tasks|
      ensures MergesContained(cfg, w.ledger.tasks[a], t.ledger.tasks[a], w.repo, t.repo)
    {
      assert MergesContained(cfg, w.ledger.tasks[a], m.ledger.tasks[a], w.repo, m.repo);
      assert SameRecord(m.ledger.tasks[a], t.ledger.tasks[a]);
      if ContainedIn(cfg, w.repo, m.repo, w.ledger.tasks[a].packageId) {
        StaysContained(cfg, w.repo, m.repo, t.repo, w.ledger.tasks[a].packageId);
      }
    }
  }

  lemma MergeAndLaunchGrows(cfg: Config, w: World, input: TickInput, id: string)
    requires ConfigOk(cfg) && WorldOk(cfg, w) && FitsSuite(cfg.commands, input.answers.env)
    requires MergeAndLaunch(cfg, w, input).Ok?
    requires id in MergeAndLaunch(cfg, w, input).value.landed && id !in w.landed
    ensures ContainedIn(cfg, w.repo, MergeAndLaunch(cfg, w, input).value.repo, id)
  {
    var m := if input.integrate then IntegratePhase(cfg, w, input.answers).value else w;
    if input.integrate {
      IntegratePhaseKeeps(cfg, w, input.answers);
      PhaseLands(cfg, w, input.answers, id);
    }
    LaunchFromKeeps(cfg, m, 0, |m.ledger.tasks|, Slots(cfg, m.ledger.tasks), input.launch, input.launching);
    StaysContained(cfg, w.repo, m.repo, MergeAndLaunch(cfg, w, input).value.repo, id);
  }

  lemma TickLands(cfg: Config, w: World, input: TickInput, id: string)
    requires ConfigOk(cfg) && WorldOk(cfg, w) && FitsSuite(cfg.commands, input.answers.env)
    requires ControllerTick(cfg, w, input).Ok?
    requires id in ControllerTick(cfg, w, input).value.landed && id !in w.landed
    ensures LandedIn(cfg, w, input, ControllerTick(cfg, w, input).value, id)
  {
    R.SettleKeeps(cfg, w, input);
    var settled := Settle(cfg, w, input).value;
    if id !in settled.landed {
      MergeAndLaunchGrows(cfg, settled, input, id);
    }
  }

  /** A tick marks a task merged only if its package's branch is contained in the
      integration branch, unless the task's title begins with the id of another
      package. */
  lemma TickMergesContained(cfg: Config, w: World, input: TickInput, a: nat)
    requires ConfigOk(cfg) && WorldOk(cfg, w) && FitsSuite(cfg.commands, input.answers.env)
    requires ControllerTick(cfg, w, input).Ok?
    requires var t := ControllerTick(cfg, w, input).value;
             && a < |t.ledger.tasks| && t.ledger.tasks[a].status == Merged && OwnNameOnly(cfg, t.ledger.tasks[a])
             && (a < |w.ledger.tasks| ==> w.ledger.tasks[a].status != Merged)
    ensures var t := ControllerTick(cfg, w, input).value;
            LandedIn(cfg, w, input, t, t.ledger.tasks[a].packageId)
  {
    R.SettleKeeps(cfg, w, input);
    var settled, t := Settle(cfg, w, input).value, ControllerTick(cfg, w, input).value;
    var hydrated := Hydrate(cfg, w).value.ledger.tasks;
    MergeAndLaunchLands(cfg, settled, input);
    assert MergesContained(cfg, settled.ledger.tasks[a], t.ledger.tasks[a], settled.repo, t.repo);
    assert SameRecord(hydrated[a], settled.ledger.tasks[a]);
    if settled.ledger.tasks[a].status == Merged {
      HydrationMergesContained(cfg, w, a);
    } else {
      assert OwnNameOnly(cfg, settled.ledger.tasks[a]) by {
        assert forall q :: MatchesPackage(t.ledger.tasks[a], q) == MatchesPackage(settled.ledger.tasks[a], q);
      }
    }
  }

  // ---- Runs ------------------------------------------------------------

  /** Step `j` of the run is a tick in which the package's branch was contained in
      the integration branch. */
  ghost predicate LandedAt(cfg: Config, states: seq<World>, steps: seq<R.Step>, j: nat, id: string)
    requires |states| == |steps| + 1
  {
    && j < |steps| && steps[j].Ticked? && ValidConfig(cfg) && ValidRepo(states[j].repo) && ValidRepo(states[j + 1].repo)
    && LandedIn(cfg, states[j], steps[j].input, states[j + 1], id)
  }

  lemma StepLands(cfg: Config, states: seq<World>, steps: seq<R.Step>, k: nat, id: string)
    requires R.IsRun(cfg, states, steps) && k < |steps|
    requires id in states[k + 1].landed && id !in states[k].landed
    ensures LandedAt(cfg, states, steps, k, id)
  {
    R.RunIsOk(cfg, states, steps, k);
    R.RunIsOk(cfg, states, steps, k + 1);
    assert R.NextAt(cfg, states, steps, k);
    if steps[k].Ticked? {
      TickLands(cfg, states[k], steps[k].input, id);
    }
  }

  /** Whatever counts as landed had its branch contained in the integration branch
      at some tick before. */
  lemma {:induction false} LandedWasContained(cfg: Config, states: seq<World>, steps: seq<R.Step>, k: nat, id: string)
    requires R.IsRun(cfg, states, steps) && k < |states| && id in states[k].landed
    ensures exists j :: 0 <= j < k && LandedAt(cfg, states, steps, j, id)
  {
    if k > 0 {
      if id in states[k - 1].landed {
        LandedWasContained(cfg, states, steps, k - 1, id);
      } else {
        StepLands(cfg, states, steps, k - 1, id);
        assert LandedAt(cfg, states, steps, k - 1, id);
      }
    }
  }

  /** Dependencies first, in earnest: when `launch_task` is called for a package in
      step `k`, each of its direct dependencies has landed in that tick or in an
      earlier one. */
  lemma LaunchedAfterDependenciesLanded(cfg: Config, states: seq<World>, steps: seq<R.Step>, k: nat, n: nat, d: string)
    requires R.IsRun(cfg, states, steps) && k < |steps|
    requires |states[k].launches| <= n < |states[k + 1].launches|
    requires states[k + 1].launches[n] in cfg.packages && d in cfg.packages[states[k + 1].launches[n]].deps
    ensures exists j :: 0 <= j <= k && LandedAt(cfg, states, steps, j, d)
  {
    R.RunIsOk(cfg, states, steps, k + 1);
    var w := states[k + 1];
    assert DepsDone(cfg, w.launches[..n], w.landed, w.launches[n]);
    LandedWasContained(cfg, states, steps, k + 1, d);
  }

  /** Whenever a task becomes merged, by hydration or by integration, its own
      package's branch is contained in the integration branch in that very tick,
      unless the task's title begins with the id of another package. */
  lemma MergedTaskHasLanded(cfg: Config, states: seq<World>, steps: seq<R.Step>, k: nat, a: nat)
    requires R.IsRun(cfg, states, steps) && k < |steps| && a < |states[k + 1].ledger.tasks|
    requires states[k + 1].ledger.tasks[a].status == Merged && OwnNameOnly(cfg, states[k + 1].ledger.tasks[a])
    requires a < |states[k].ledger.tasks| ==> states[k].ledger.tasks[a].status != Merged
    ensures LandedAt(cfg, states, steps, k, states[k + 1].ledger.tasks[a].packageId)
  {
    R.RunIsOk(cfg, states, steps, k);
    R.RunIsOk(cfg, states, steps, k + 1);
    assert R.NextAt(cfg, states, steps, k);
    if steps[k].Ticked? {
      TickMergesContained(cfg, states[k], steps[k].input, a);
    }
  }
}
