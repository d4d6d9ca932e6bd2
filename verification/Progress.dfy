/** What a whole tick gets done, and what it leaves alone (engine/controller.py,
    cli/main.py). */
module Progress {
  import opened Classifier
  import opened Dispatch
  import opened Git
  import opened History
  import I = Integration
  import opened Invariants
  import opened Ledger
  import opened Project
  import opened Reconciliation
  import opened Runner
  import R = Runs
  import opened Steps
  import opened Text
  import opened Tick
  import opened Wrappers

  // ---- Which package is integrated -------------------------------------

  /** The task `k` is the last stored one of the package. */
  ghost predicate LastAt(tasks: seq<Task>, id: string, k: nat) {
    k < |tasks| && tasks[k].packageId == id && forall m | k < m < |tasks| :: tasks[m].packageId != id
  }

  /** It may be merged. */
  ghost predicate MayMerge(tasks: seq<Task>, id: string, k: nat) {
    LastAt(tasks, id, k) && tasks[k].status in {ReviewPassed, MergeApproved, IntegrationReady}
  }

  ghost predicate HasToMerge(tasks: seq<Task>, id: string) {
    exists k :: MayMerge(tasks, id, k)
  }

  lemma {:induction false} LastIsFound(tasks: seq<Task>, id: string, k: nat)
    requires LastAt(tasks, id, k)
    ensures LastOf(tasks, id) == Some(tasks[k])
  {
    var n := |tasks| - 1;
    if k < n {
      assert tasks[..n][k] == tasks[k];
      LastIsFound(tasks[..n], id, k);
    }
  }

  lemma {:induction false} FoundIsLast(tasks: seq<Task>, id: string) returns (k: nat)
    requires LastOf(tasks, id).Some?
    ensures LastAt(tasks, id, k) && tasks[k] == LastOf(tasks, id).value
  {
    var n := |tasks| - 1;
    if tasks[n].packageId == id {
      k := n;
    } else {
      k := FoundIsLast(tasks[..n], id);
      assert forall m | k < m < n :: tasks[..n][m] == tasks[m];
    }
  }

  /** A candidate is a package whose last task may be merged. */
  lemma CandidateMeans(tasks: seq<Task>, s: PackageState)
    ensures IsCandidate(tasks, s) <==> HasToMerge(tasks, s.id)
  {
    if LastOf(tasks, s.id).Some? {
      var k := FoundIsLast(tasks, s.id);
      assert IsCandidate(tasks, s) ==> MayMerge(tasks, s.id, k);
    }
    if HasToMerge(tasks, s.id) {
      var k :| MayMerge(tasks, s.id, k);
      LastIsFound(tasks, s.id, k);
    }
  }

  /** The first candidate comes from the first state that is one. */
  lemma {:induction false} FirstCandidate(tasks: seq<Task>, states: seq<PackageState>) returns (k: nat)
    requires Candidates(tasks, states).Ok?
    ensures k <= |states| && forall m | 0 <= m < k :: !IsCandidate(tasks, states[m])
    ensures k == |states| <==> Candidates(tasks, states).value == []
    ensures k < |states| ==>
              && IsCandidate(tasks, states[k]) && states[k].head.Some?
              && Candidates(tasks, states).value[0]
                 == Candidate(states[k].id, states[k].branch, states[k].head.value, states[k].taskId)
  {
    if states == [] || IsCandidate(tasks, states[0]) {
      k := 0;
    } else {
      k := FirstCandidate(tasks, states[1..]);
      k := k + 1;
    }
  }

  lemma {:induction false} AscendingPairs(s: seq<string>, a: nat, b: nat)
    requires Ascending(s) && a < b < |s|
    ensures LexLe(s[a], s[b])
  {
    if a == 0 {
      assert s[b] in s[1..];
    } else {
      AscendingPairs(s[1..], a - 1, b - 1);
    }
  }

  /** What integrating the package does. */
  ghost predicate Attempts(cfg: Config, w: World, a: I.Answers, t: World, id: string, k: nat)
    requires ValidRepo(w.repo) && FitsSuite(cfg.commands, a.env)
  {
    && id in cfg.packages && cfg.packages[id].branch in w.repo.refs && MayMerge(w.ledger.tasks, id, k)
    && t.attempts == w.attempts + [Attempt(id, Some(w.ledger.tasks[k]))]
    && var branch := cfg.packages[id].branch;
       var call := I.Call(cfg.integration, id, branch, w.repo.commits[w.repo.refs[branch]].hash, cfg.commands, true);
       t.repo == I.Integrate(w.repo, call, a).0
  }

  lemma LeastOfIds(ids: seq<string>, tasks: seq<Task>, k: nat)
    requires Ascending(ids) && k < |ids| && forall m | 0 <= m < k :: !HasToMerge(tasks, ids[m])
    ensures forall other | other in ids && HasToMerge(tasks, other) :: LexLe(ids[k], other)
  {
    forall other | other in ids && HasToMerge(tasks, other) ensures LexLe(ids[k], other) {
      var b :| 0 <= b < |ids| && ids[b] == other;
      if b > k {
        AscendingPairs(ids, k, b);
      } else {
        LexLeTotal(other, other);
      }
    }
  }

  /** The first state with a task to merge, in terms of ids. */
  lemma FirstToMerge(tasks: seq<Task>, states: seq<PackageState>, ids: seq<string>) returns (k: nat)
    requires Candidates(tasks, states).Ok? && |states| == |ids|
    requires forall m | 0 <= m < |ids| :: states[m].id == ids[m]
    ensures k <= |ids| && forall m | 0 <= m < k :: !HasToMerge(tasks, ids[m])
    ensures k == |ids| <==> Candidates(tasks, states).value == []
    ensures k < |ids| ==>
              && HasToMerge(tasks, ids[k]) && states[k].head.Some?
              && Candidates(tasks, states).value[0]
                 == Candidate(states[k].id, states[k].branch, states[k].head.value, states[k].taskId)
  {
    k := FirstCandidate(tasks, states);
    forall m | 0 <= m < k ensures !HasToMerge(tasks, ids[m]) {
      CandidateMeans(tasks, states[m]);
    }
    if k < |ids| {
      CandidateMeans(tasks, states[k]);
    }
  }

  lemma PhaseUnfolds(cfg: Config, w: World, a: I.Answers)
    requires ConfigOk(cfg) && ValidRepo(w.repo) && FitsSuite(cfg.commands, a.env) && IntegratePhase(cfg, w, a).Ok?
    ensures forall id | id in Sorted(cfg.order) :: id in cfg.packages
    ensures var list :=
              Candidates(w.ledger.tasks, ClassifyEach(cfg, w.repo, w.trees, w.ledger.tasks, Sorted(cfg.order)));
            && list.Ok?
            && (list.value == [] ==> IntegratePhase(cfg, w, a) == Ok(w))
            && (list.value != [] ==>
                  && list.value[0].head < |w.repo.commits|
                  && IntegratePhase(cfg, w, a) == IntegrateCandidate(cfg, w, list.value[0], a))
  {
    SortedPackages(cfg);
    var states := ClassifyEach(cfg, w.repo, w.trees, w.ledger.tasks, Sorted(cfg.order));
    CandidateHeads(w.repo, w.ledger.tasks, states);
  }

  /** The phase takes the first id with a task to merge. */
  lemma PhaseTakesFirst(cfg: Config, w: World, a: I.Answers) returns (k: nat)
    requires ConfigOk(cfg) && ValidRepo(w.repo) && FitsSuite(cfg.commands, a.env) && IntegratePhase(cfg, w, a).Ok?
    ensures var ids := Sorted(cfg.order);
            && k <= |ids| && (forall m | 0 <= m < k :: !HasToMerge(w.ledger.tasks, ids[m]))
            && (k == |ids| ==> IntegratePhase(cfg, w, a).value == w)
            && (k < |ids| ==> ids[k] in cfg.packages && HasToMerge(w.ledger.tasks, ids[k]))
            && (k < |ids| ==>
                  var s := Classify(cfg, w.repo, w.trees, w.ledger.tasks, ids[k]);
                  && s.head.Some? && s.head.value < |w.repo.commits|
                  && IntegratePhase(cfg, w, a)
                     == IntegrateCandidate(cfg, w, Candidate(s.id, s.branch, s.head.value, s.taskId), a))
  {
    PhaseUnfolds(cfg, w, a);
    var ids := Sorted(cfg.order);
    k := FirstToMerge(w.ledger.tasks, ClassifyEach(cfg, w.repo, w.trees, w.ledger.tasks, ids), ids);
    assert k < |ids| ==> ids[k] in ids;
  }

  /** A phase that returns integrates the package with the least id of all those whose
      last task may be merged, by one call for its branch as it stands; without any it
      does nothing. */
  lemma LeastCandidateIsIntegrated(cfg: Config, w: World, a: I.Answers)
    requires ConfigOk(cfg) && ValidRepo(w.repo) && FitsSuite(cfg.commands, a.env) && IntegratePhase(cfg, w, a).Ok?
    ensures var t := IntegratePhase(cfg, w, a).value;
            || (t == w && forall id | id in cfg.packages :: !HasToMerge(w.ledger.tasks, id))
            || exists id, k :: && Attempts(cfg, w, a, t, id, k)
                               && forall other | other in cfg.packages && HasToMerge(w.ledger.tasks, other) ::
                                    LexLe(id, other)
  {
    SortedPackages(cfg);
    var ids := Sorted(cfg.order);
    var k := PhaseTakesFirst(cfg, w, a);
    if k == |ids| {
      forall id | id in cfg.packages ensures !HasToMerge(w.ledger.tasks, id) {
        var m :| 0 <= m < |ids| && ids[m] == id;
      }
    } else {
      var n :| MayMerge(w.ledger.tasks, ids[k], n);
      CandidateIsCalled(cfg, w, a, ids[k], n);
      LeastOfIds(ids, w.ledger.tasks, k);
    }
  }

  lemma CandidateIsCalled(cfg: Config, w: World, a: I.Answers, id: string, k: nat)
    requires ValidRepo(w.repo) && FitsSuite(cfg.commands, a.env) && id in cfg.packages
    requires MayMerge(w.ledger.tasks, id, k)
    requires cfg.packages[id].branch in w.repo.refs
    requires var s := Classify(cfg, w.repo, w.trees, w.ledger.tasks, id);
             && s.head.Some? && s.head.value < |w.repo.commits|
             && IntegrateCandidate(cfg, w, Candidate(s.id, s.branch, s.head.value, s.taskId), a).Ok?
    ensures var s := Classify(cfg, w.repo, w.trees, w.ledger.tasks, id);
            Attempts(cfg, w, a, IntegrateCandidate(cfg, w, Candidate(s.id, s.branch, s.head.value, s.taskId), a).value,
                     id, k)
  {
    LastIsFound(w.ledger.tasks, id, k);
  }

  /** A listed candidate's task is not one that may not be merged, if its title begins
      with its own package's id only. */
  lemma CandidateMayMerge(cfg: Config, w: World, c: Candidate, j: nat)
    requires ConfigOk(cfg) && WorldOk(cfg, w) && Listed(cfg, w, c)
    requires j < |w.ledger.tasks| && w.ledger.tasks[j].status !in {ReviewPassed, MergeApproved, IntegrationReady}
    requires OwnNameOnly(cfg, w.ledger.tasks[j])
    ensures CandidateTask(w.ledger.tasks, c) != j
  {
    SortedPackages(cfg);
    var ids, tasks := Sorted(cfg.order), w.ledger.tasks;
    ListedCandidate(cfg, w, c);
    var k := CandidateOrigin(tasks, ClassifyEach(cfg, w.repo, w.trees, tasks, ids), c);
    var m := LastOfIsStored(tasks, ids[k]);
    assert TaskOk(cfg, w.repo.commits, w.launches, w.landed, w.approvals, tasks[j]);
    assert TaskOk(cfg, w.repo.commits, w.launches, w.landed, w.approvals, tasks[m]);
    assert tasks[m].packageId == tasks[j].packageId ==> tasks[m].id == tasks[j].id;
  }

  /** Integration touches no record that may not be merged, unless its title begins with
      another package's id. */
  lemma IntegrationSparesOthers(cfg: Config, w: World, a: I.Answers, j: nat)
    requires ConfigOk(cfg) && WorldOk(cfg, w) && FitsSuite(cfg.commands, a.env) && IntegratePhase(cfg, w, a).Ok?
    requires j < |w.ledger.tasks| && w.ledger.tasks[j].status !in {ReviewPassed, MergeApproved, IntegrationReady}
    requires OwnNameOnly(cfg, w.ledger.tasks[j])
    ensures var t := IntegratePhase(cfg, w, a).value;
            j < |t.ledger.tasks| && t.ledger.tasks[j] == w.ledger.tasks[j]
  {
    PhaseUnfolds(cfg, w, a);
    var list :=
      Candidates(w.ledger.tasks, ClassifyEach(cfg, w.repo, w.trees, w.ledger.tasks, Sorted(cfg.order))).value;
    if list != [] {
      assert Listed(cfg, w, list[0]);
      CandidateMayMerge(cfg, w, list[0], j);
      MergedTaskIsContained(cfg, w, list[0], a);
    }
  }

  // ---- Ticks that wait -------------------------------------------------

  /** Without an approved plan and a populated context a tick changes nothing; without
      `integrate` it attempts no merge. */
  lemma WaitingTickChangesNothing(cfg: Config, w: World, input: TickInput)
    requires ConfigOk(cfg) && WorldOk(cfg, w) && FitsSuite(cfg.commands, input.answers.env)
    ensures !input.planApproved || !input.contextReady ==> ControllerTick(cfg, w, input) == Ok(w)
    ensures !input.integrate && ControllerTick(cfg, w, input).Ok? ==>
              var t := ControllerTick(cfg, w, input).value;
              t.attempts == w.attempts && SameHead(cfg, w, t)
  {
    if input.planApproved && input.contextReady && !input.integrate && ControllerTick(cfg, w, input).Ok? {
      R.SettleKeeps(cfg, w, input);
      var m := Settle(cfg, w, input).value;
      LaunchFromKeeps(cfg, m, 0, |m.ledger.tasks|, Slots(cfg, m.ledger.tasks), input.launch, input.launching);
    }
  }

  // ---- What a whole tick leaves alone ----------------------------------

  /** Step `k` is a tick that gets past the plan and context checks. */
  ghost predicate ReadyTick(steps: seq<R.Step>, k: nat) {
    k < |steps| && steps[k].Ticked? && steps[k].input.planApproved && steps[k].input.contextReady
  }

  /** The task's process was seen alive, and no result. */
  ghost predicate SeenAlive(o: Observation) {
    o.process.Process? && o.process.alive && o.result.NoResult?
  }

  /** Reconciliation and decisions leave a record alone that is not at work, or whose
      worker is alive and has left no result, and that awaits no decision of the default
      supervisor; in Hermes mode there is none. */
  lemma SettleSpares(cfg: Config, w: World, input: TickInput, j: nat)
    requires ConfigOk(cfg) && WorldOk(cfg, w) && Settle(cfg, w, input).Ok?
    requires var tasks := Hydrate(cfg, w).value.ledger.tasks;
             && j < |tasks| && (tasks[j].status == DecisionRequired ==> cfg.hermes)
             && (AtWork(tasks[j]) ==> tasks[j].packageId in cfg.packages && SeenAlive(input.reconciling(j)))
    ensures var t := Settle(cfg, w, input).value;
            j < |t.ledger.tasks| && t.ledger.tasks[j] == Hydrate(cfg, w).value.ledger.tasks[j]
  {
    HydrateKeeps(cfg, w);
    var m := Hydrate(cfg, w).value;
    var trace := ReconcilePhaseMeans(cfg, m, input.reconciling);
    assert ReconciledOnce(trace, j) && VisitedAt(cfg, trace, j, input.reconciling);
    if !cfg.hermes {
      var r := trace[|m.ledger.tasks|];
      DecideFromDecides(cfg, r, 0, |r.ledger.tasks|, input.deciding);
      assert Decided(cfg, r.ledger.tasks[j], Settle(cfg, w, input).value.ledger.tasks[j], input.deciding(j));
    }
  }

  lemma LaunchSpares(cfg: Config, w: World, launch: bool, answers: Launcher, j: nat)
    requires j < |w.ledger.tasks| && !Waits(w.ledger.tasks[j])
    requires LaunchFrom(cfg, w, 0, |w.ledger.tasks|, Slots(cfg, w.ledger.tasks), launch, answers).Ok?
    ensures var t := LaunchFrom(cfg, w, 0, |w.ledger.tasks|, Slots(cfg, w.ledger.tasks), launch, answers).value;
            j < |t.ledger.tasks| && t.ledger.tasks[j] == w.ledger.tasks[j]
  {
    var rounds := LaunchPhaseMeans(cfg, w, launch, answers);
    if j < |rounds| - 1 {
      assert DispatchedOnce(rounds, j) && RoundAt(cfg, rounds, j, launch, answers);
    } else {
      RecordKept(cfg, rounds, launch, answers, 0, |rounds| - 1, j);
    }
  }

  /** The second half of a tick leaves alone what neither waits for a launch nor may be
      merged. */
  lemma MergeAndLaunchSpares(cfg: Config, w: World, input: TickInput, j: nat)
    requires ConfigOk(cfg) && WorldOk(cfg, w) && FitsSuite(cfg.commands, input.answers.env)
    requires MergeAndLaunch(cfg, w, input).Ok? && j < |w.ledger.tasks| && OwnNameOnly(cfg, w.ledger.tasks[j])
    requires !Waits(w.ledger.tasks[j])
    requires w.ledger.tasks[j].status !in {ReviewPassed, MergeApproved, IntegrationReady}
    ensures var t := MergeAndLaunch(cfg, w, input).value;
            j < |t.ledger.tasks| && t.ledger.tasks[j] == w.ledger.tasks[j]
  {
    var m := if input.integrate then IntegratePhase(cfg, w, input.answers).value else w;
    if input.integrate {
      IntegrationSparesOthers(cfg, w, input.answers, j);
    }
    LaunchSpares(cfg, m, input.launch, input.launching, j);
  }

  lemma SettleSparesLiveWorker(cfg: Config, w: World, input: TickInput, j: nat)
    requires ConfigOk(cfg) && WorldOk(cfg, w) && Settle(cfg, w, input).Ok?
    requires j < |w.ledger.tasks| && AtWork(w.ledger.tasks[j]) && SeenAlive(input.reconciling(j))
    requires w.ledger.tasks[j].packageId in cfg.packages
    ensures var m := Settle(cfg, w, input).value;
            && WorldOk(cfg, m) && j < |m.ledger.tasks| && m.ledger.tasks[j] == w.ledger.tasks[j]
  {
    R.SettleKeeps(cfg, w, input);
    AtWorkIsKept(cfg, w, j);
    SettleSpares(cfg, w, input, j);
  }

  lemma HalvesOfTick(cfg: Config, w: World, input: TickInput) returns (m: World)
    requires ConfigOk(cfg) && ValidRepo(w.repo) && FitsSuite(cfg.commands, input.answers.env)
    requires input.planApproved && input.contextReady && ControllerTick(cfg, w, input).Ok?
    ensures Settle(cfg, w, input) == Ok(m) && ValidRepo(m.repo)
    ensures MergeAndLaunch(cfg, m, input) == ControllerTick(cfg, w, input)
  {
    m := Settle(cfg, w, input).value;
  }

  lemma TickSparesLiveWorker(cfg: Config, w: World, input: TickInput, j: nat)
    requires ConfigOk(cfg) && WorldOk(cfg, w) && FitsSuite(cfg.commands, input.answers.env)
    requires input.planApproved && input.contextReady && ControllerTick(cfg, w, input).Ok?
    requires j < |w.ledger.tasks| && AtWork(w.ledger.tasks[j]) && SeenAlive(input.reconciling(j))
    requires OwnNameOnly(cfg, w.ledger.tasks[j]) && w.ledger.tasks[j].packageId in cfg.packages
    ensures var t := ControllerTick(cfg, w, input).value;
            j < |t.ledger.tasks| && t.ledger.tasks[j] == w.ledger.tasks[j]
  {
    var m := HalvesOfTick(cfg, w, input);
    HalvesSpareLiveWorker(cfg, w, m, input, j);
  }

  lemma HalvesSpareLiveWorker(cfg: Config, w: World, m: World, input: TickInput, j: nat)
    requires ConfigOk(cfg) && WorldOk(cfg, w) && FitsSuite(cfg.commands, input.answers.env)
    requires Settle(cfg, w, input) == Ok(m) && ValidRepo(m.repo) && MergeAndLaunch(cfg, m, input).Ok?
    requires j < |w.ledger.tasks| && AtWork(w.ledger.tasks[j]) && SeenAlive(input.reconciling(j))
    requires OwnNameOnly(cfg, w.ledger.tasks[j]) && w.ledger.tasks[j].packageId in cfg.packages
    ensures var t := MergeAndLaunch(cfg, m, input).value;
            j < |t.ledger.tasks| && t.ledger.tasks[j] == w.ledger.tasks[j]
  {
    SettleSparesLiveWorker(cfg, w, input, j);
    AtWorkIsElsewhere(m.ledger.tasks[j]);
    MergeAndLaunchSpares(cfg, m, input, j);
  }

  lemma AtWorkIsElsewhere(t: Task)
    requires AtWork(t)
    ensures !Waits(t) && t.status !in {ReviewPassed, MergeApproved, IntegrationReady}
  {
  }

  /** No tick disturbs a live worker: a task at work whose process is alive and has left
      no result is, after the tick, exactly as it was before. */
  lemma LiveWorkerIsLeftAlone(cfg: Config, states: seq<World>, steps: seq<R.Step>, k: nat, j: nat)
    requires R.IsRun(cfg, states, steps) && ReadyTick(steps, k)
    requires j < |states[k].ledger.tasks| && AtWork(states[k].ledger.tasks[j])
    requires OwnNameOnly(cfg, states[k].ledger.tasks[j]) && states[k].ledger.tasks[j].packageId in cfg.packages
    requires SeenAlive(steps[k].input.reconciling(j))
    ensures j < |states[k + 1].ledger.tasks| && states[k + 1].ledger.tasks[j] == states[k].ledger.tasks[j]
  {
    R.RunIsOk(cfg, states, steps, k);
    assert R.NextAt(cfg, states, steps, k);
    TickSparesLiveWorker(cfg, states[k], steps[k].input, j);
  }

  /** Hydration leaves tasks at work alone, and blocked, failed and merged ones. */
  lemma AtWorkIsKept(cfg: Config, w: World, j: nat)
    requires ConfigOk(cfg) && WorldOk(cfg, w) && Hydrate(cfg, w).Ok? && j < |w.ledger.tasks|
    requires AtWork(w.ledger.tasks[j]) || w.ledger.tasks[j].status in {Blocked, Failed, Merged}
    ensures var after := Hydrate(cfg, w).value.ledger.tasks;
            j < |after| && after[j] == w.ledger.tasks[j]
  {
    SortedPackages(cfg);
    EveryPackageHasTask(w.ledger, cfg, cfg.order);
    HydrationMeans(cfg, w, j);
  }

  /** A handoff or a pause reaches the launch loop: hydration, reconciliation and
      decisions leave it as it was, exactly if its package's worktree has no uncommitted
      changes and its branch is not merged, when no other task answers to the package.
      With changes left in the worktree it is ready instead. */
  lemma HandoffReachesLaunchIff(cfg: Config, states: seq<World>, steps: seq<R.Step>, k: nat, j: nat)
    requires R.IsRun(cfg, states, steps) && ReadyTick(steps, k) && ValidRepo(states[k].repo)
    requires j < |states[k].ledger.tasks| && states[k].ledger.tasks[j].status in {HandoffNeeded, CooldownWait}
    requires SoleAnswer(cfg, states[k].ledger.tasks, j) && states[k].ledger.tasks[j].packageId in cfg.packages
    ensures Settle(cfg, states[k], steps[k].input).Ok?
    ensures var w, t := states[k], Settle(cfg, states[k], steps[k].input).value;
            var before, p := w.ledger.tasks[j], cfg.packages[w.ledger.tasks[j].packageId];
            && j < |t.ledger.tasks|
            && (t.ledger.tasks[j] == before <==> !Changed(w.trees, p) && !Behind(cfg, w.repo, p))
            && (Changed(w.trees, p) ==> t.ledger.tasks[j] == before.(status := Ready))
  {
    R.RunIsOk(cfg, states, steps, k);
    assert R.NextAt(cfg, states, steps, k);
    HandoffSettlesIff(cfg, states[k], steps[k].input, j);
  }

  lemma HandoffSettlesIff(cfg: Config, w: World, input: TickInput, j: nat)
    requires ConfigOk(cfg) && WorldOk(cfg, w) && Settle(cfg, w, input).Ok?
    requires j < |w.ledger.tasks| && w.ledger.tasks[j].status in {HandoffNeeded, CooldownWait}
    requires SoleAnswer(cfg, w.ledger.tasks, j) && w.ledger.tasks[j].packageId in cfg.packages
    ensures var t := Settle(cfg, w, input).value;
            var before, p := w.ledger.tasks[j], cfg.packages[w.ledger.tasks[j].packageId];
            && j < |t.ledger.tasks|
            && (t.ledger.tasks[j] == before <==> !Changed(w.trees, p) && !Behind(cfg, w.repo, p))
            && (Changed(w.trees, p) ==> t.ledger.tasks[j] == before.(status := Ready))
  {
    HydrationKeepsIff(cfg, w, j);
    var h := Hydrate(cfg, w).value.ledger.tasks;
    assert !AtWork(h[j]) && h[j].status != DecisionRequired by {
      HydratedStays(cfg, w, j);
    }
    SettleSpares(cfg, w, input, j);
  }

  /** Work left uncommitted is never taken up again: a ready task whose registered
      worktree is dirty is not launched, and if its launch is tried it is blocked. */
  lemma DirtyReadyTaskIsBlocked(cfg: Config, w: World, i: nat, launch: bool, a: LaunchAnswers)
    requires i < |w.ledger.tasks| && w.ledger.tasks[i].status == Ready && Called(cfg, w, i, a)
    requires var p := cfg.packages[w.ledger.tasks[i].packageId];
             p.tree in w.trees && w.trees[p.tree].registered && w.trees[p.tree].dirty
    ensures var r := LaunchOne(cfg, w, i, launch, a);
            && (r.Err? <==> a.adapter == Throws)
            && (r.Ok? ==> !r.value.1 && r.value.0.ledger.tasks[i].status == Blocked
                          && r.value.0.repo == w.repo && r.value.0.trees == w.trees)
  {
    LaunchOneMeans(cfg, w, i, launch, a);
  }

  /** In Hermes mode an open decision waits for the supervisor over a tick exactly if
      hydration leaves it alone; otherwise the next tick takes it back without one. */
  lemma OpenDecisionSurvivesIff(cfg: Config, w: World, input: TickInput, j: nat)
    requires ConfigOk(cfg) && WorldOk(cfg, w) && cfg.hermes && Settle(cfg, w, input).Ok?
    requires j < |w.ledger.tasks| && w.ledger.tasks[j].status == DecisionRequired
    requires SoleAnswer(cfg, w.ledger.tasks, j) && w.ledger.tasks[j].packageId in cfg.packages
    ensures var t := Settle(cfg, w, input).value;
            var p := cfg.packages[w.ledger.tasks[j].packageId];
            && j < |t.ledger.tasks|
            && (t.ledger.tasks[j] == w.ledger.tasks[j] <==>
                  && !Changed(w.trees, p) && !Behind(cfg, w.repo, p)
                  && ((BothExist(cfg, w.repo, p) && !Contained(cfg, w.repo, p)) || SomeUnmerged(cfg, w.repo, p)))
            && (Changed(w.trees, p) ==> t.ledger.tasks[j] == w.ledger.tasks[j].(status := Ready))
  {
    HydrationKeepsIff(cfg, w, j);
    var h := Hydrate(cfg, w).value.ledger.tasks;
    assert !AtWork(h[j]) by {
      HydratedStays(cfg, w, j);
    }
    SettleSpares(cfg, w, input, j);
  }

  // ---- What a whole tick gets done -------------------------------------

  /** Work conservation over runs: after every tick that gets past its checks and starts
      workers, as many tasks are at work as the limit allows, or no task waits for a
      launch except for quota. */
  lemma NoSlotIsWasted(cfg: Config, states: seq<World>, steps: seq<R.Step>, k: nat)
    requires R.IsRun(cfg, states, steps) && ReadyTick(steps, k) && steps[k].input.launch
    ensures || |ActiveTasks(states[k + 1].ledger.tasks)| >= cfg.concurrency
            || forall task | task in states[k + 1].ledger.tasks :: DealtWith(task)
  {
    R.RunIsOk(cfg, states, steps, k);
    assert R.NextAt(cfg, states, steps, k);
    var input := steps[k].input;
    var settled := Settle(cfg, states[k], input).value;
    var m := if input.integrate then IntegratePhase(cfg, settled, input.answers).value else settled;
    LaunchPhaseFills(cfg, m, input.launching);
  }

  lemma SettleBranches(cfg: Config, w: World, input: TickInput)
    requires ConfigOk(cfg) && WorldOk(cfg, w) && Settle(cfg, w, input).Ok?
    ensures Settle(cfg, w, input).value.repo.refs.Keys == w.repo.refs.Keys
  {
    HydrateKeeps(cfg, w);
    var m := Hydrate(cfg, w).value;
    var trace := ReconcilePhaseMeans(cfg, m, input.reconciling);
    TraceBranches(cfg, trace, input.reconciling, |m.ledger.tasks|);
    if !cfg.hermes {
      var r := trace[|m.ledger.tasks|];
      DecideBranches(cfg, r, 0, |r.ledger.tasks|, input.deciding);
    }
  }

  lemma PhaseBranches(cfg: Config, w: World, a: I.Answers)
    requires ConfigOk(cfg) && ValidRepo(w.repo) && FitsSuite(cfg.commands, a.env) && IntegratePhase(cfg, w, a).Ok?
    ensures var t := IntegratePhase(cfg, w, a).value;
            t.repo.refs.Keys == w.repo.refs.Keys && ValidRepo(t.repo)
  {
    PhaseUnfolds(cfg, w, a);
    var list :=
      Candidates(w.ledger.tasks, ClassifyEach(cfg, w.repo, w.trees, w.ledger.tasks, Sorted(cfg.order))).value;
    if list != [] {
      IntegrateFrame(w.repo, CallFor(cfg, w.repo.commits, list[0]), a);
    }
  }

  /** Every branch a tick makes contains the integration head the tick ends with, the
      merge it may have made included. */
  lemma NewBranchesContainHead(cfg: Config, states: seq<World>, steps: seq<R.Step>, k: nat, b: string)
    requires R.IsRun(cfg, states, steps) && k < |steps| && steps[k].Ticked?
    requires b in states[k + 1].repo.refs && b !in states[k].repo.refs
    ensures ContainsHead(cfg, states[k + 1].repo, b)
  {
    R.RunIsOk(cfg, states, steps, k);
    assert R.NextAt(cfg, states, steps, k);
    TickBranches(cfg, states[k], steps[k].input, b);
  }

  lemma TickBranches(cfg: Config, w: World, input: TickInput, b: string)
    requires ConfigOk(cfg) && WorldOk(cfg, w) && FitsSuite(cfg.commands, input.answers.env)
    requires ControllerTick(cfg, w, input).Ok?
    requires b in ControllerTick(cfg, w, input).value.repo.refs && b !in w.repo.refs
    ensures ContainsHead(cfg, ControllerTick(cfg, w, input).value.repo, b)
  {
    var m := HalvesOfTick(cfg, w, input);
    SettleBranches(cfg, w, input);
    var n := if input.integrate then IntegratePhase(cfg, m, input.answers).value else m;
    if input.integrate {
      PhaseBranches(cfg, m, input.answers);
    }
    LaunchPhaseBranches(cfg, n, input.launch, input.launching);
  }

  // ---- Commands given by hand ------------------------------------------

  /** The first stored task with that id or package id. */
  ghost predicate Names(tasks: seq<Task>, identifier: string, i: nat) {
    && i < |tasks| && (tasks[i].id == identifier || tasks[i].packageId == identifier)
    && forall m | 0 <= m < i :: tasks[m].id != identifier && tasks[m].packageId != identifier
  }

  lemma {:induction false} NamedIsFound(tasks: seq<Task>, identifier: string, i: nat)
    requires Names(tasks, identifier, i)
    ensures R.Found(tasks, identifier) == i
  {
    if i > 0 {
      NamedIsFound(tasks[1..], identifier, i - 1);
    }
  }

  /** Approving and rejecting by hand: the command goes through exactly if the first task
      with that id or package id belongs to a known package and is in no other terminal
      status; then that record alone gets the new status. */
  lemma CommandsMean(cfg: Config, w: World, identifier: string, i: nat)
    requires Names(w.ledger.tasks, identifier, i)
    ensures var approved, rejected := R.ApproveMerge(cfg, w, identifier), R.Reject(cfg, w, identifier);
            var before := w.ledger.tasks[i];
            && (approved.Ok? <==> before.packageId in cfg.packages && before.status !in {Merged, Rejected})
            && (rejected.Ok? <==> before.packageId in cfg.packages && before.status != Merged)
            && (approved.Ok? ==>
                  && OnlyRecord(w, approved.value, i)
                  && approved.value.approvals == w.approvals + {before.id}
                  && Stands(w.(approvals := w.approvals + {before.id}), approved.value, i, MergeApproved))
            && (rejected.Ok? ==> OnlyRecord(w, rejected.value, i) && Stands(w, rejected.value, i, Rejected))
  {
    NamedIsFound(w.ledger.tasks, identifier, i);
  }

  /** Without such a task both commands raise. */
  lemma UnknownNameRaises(cfg: Config, w: World, identifier: string)
    requires forall t | t in w.ledger.tasks :: t.id != identifier && t.packageId != identifier
    ensures R.ApproveMerge(cfg, w, identifier).Err? && R.Reject(cfg, w, identifier).Err?
  {
  }
}
