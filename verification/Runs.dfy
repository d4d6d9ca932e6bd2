/** Whole runs: controller ticks, human approvals and rejections, and workers, in
    any order (engine/controller.py, cli/main.py). */
module Runs {
  import opened Classifier
  import Dag
  import opened Gates
  import opened Git
  import opened History
  import I = Integration
  import opened Invariants
  import opened Ledger
  import opened Project
  import opened Runner
  import opened Steps
  import opened Text
  import opened Tick
  import opened Wrappers

  function Max(a: int, b: int): int {
    if a > b then a else b
  }

  // ---- Commands given by hand ------------------------------------------

  /** `_task_and_package`: the first task with that id or package id. */
  function Found(tasks: seq<Task>, identifier: string): (i: nat)
    ensures i <= |tasks|
    ensures i < |tasks| ==> tasks[i].id == identifier || tasks[i].packageId == identifier
  {
    if tasks == [] || tasks[0].id == identifier || tasks[0].packageId == identifier then 0
    else 1 + Found(tasks[1..], identifier)
  }

  function ByHand(cfg: Config, w: World, identifier: string, status: Status): (r: Outcome) {
    var i := Found(w.ledger.tasks, identifier);
    if i == |w.ledger.tasks| || w.ledger.tasks[i].packageId !in cfg.packages then Err(Uncaught)
    else Move(w, i, status, NO_NOTES)
  }

  /** `approve-merge` */
  function ApproveMerge(cfg: Config, w: World, identifier: string): (r: Outcome) {
    var approved :- ByHand(cfg, w, identifier, MergeApproved);
    Ok(approved.(approvals := w.approvals + {w.ledger.tasks[Found(w.ledger.tasks, identifier)].id}))
  }

  /** `reject` */
  function Reject(cfg: Config, w: World, identifier: string): (r: Outcome) {
    ByHand(cfg, w, identifier, Rejected)
  }

  // ---- Steps -----------------------------------------------------------

  datatype Step = Ticked(input: TickInput) | Approved(identifier: string) | Refused(identifier: string) | Others

  /** Workers and people at work in Git: anything that neither touches the ledger
      nor the integration branch, nor makes a branch or worktree for a package that
      was never launched. */
  ghost predicate Elsewhere(cfg: Config, w: World, t: World) {
    && t == w.(repo := t.repo, trees := t.trees)
    && ValidRepo(t.repo) && SameHead(cfg, w, t)
    && OnlyLaunchedExist(cfg, t.repo.refs, t.trees, t.launches)
  }

  ghost predicate Next(cfg: Config, w: World, step: Step, t: World)
    requires ValidConfig(cfg)
  {
    && ValidRepo(w.repo)
    && match step
       case Ticked(input) => FitsSuite(cfg.commands, input.answers.env) && ControllerTick(cfg, w, input) == Ok(t)
       case Approved(identifier) => ApproveMerge(cfg, w, identifier) == Ok(t)
       case Refused(identifier) => Reject(cfg, w, identifier) == Ok(t)
       case Others => Elsewhere(cfg, w, t)
  }

  /** No package has a branch or a worktree; every task is still planned. */
  ghost predicate FreshStart(cfg: Config, w: World) {
    && ValidRepo(w.repo) && Faithful(w.ledger)
    && (forall id | id in cfg.packages :: !Exists(w.repo.refs, w.trees, cfg.packages[id]))
    && (forall t | t in w.ledger.tasks ::
          t.id == TaskIdFor(t.packageId) && t.status == Planned && t.notes.failureKind.None?)
    && w.launches == [] && w.attempts == [] && w.approvals == {} && w.landed == {}
  }

  ghost predicate NextAt(cfg: Config, states: seq<World>, steps: seq<Step>, k: nat)
    requires ValidConfig(cfg) && k < |steps| && k + 1 < |states|
  {
    Next(cfg, states[k], steps[k], states[k + 1])
  }

  ghost predicate IsRun(cfg: Config, states: seq<World>, steps: seq<Step>) {
    && ConfigOk(cfg) && |states| == |steps| + 1 && FreshStart(cfg, states[0])
    && forall k {:trigger NextAt(cfg, states, steps, k)} | 0 <= k < |steps| :: NextAt(cfg, states, steps, k)
  }

  // ---- One step --------------------------------------------------------

  /** One step lost nothing and did not exceed the concurrency limit. */
  ghost predicate Grows(cfg: Config, w: World, t: World) {
    && w.ledger.events <= t.ledger.events
    && w.launches <= t.launches && w.attempts <= t.attempts
    && w.approvals <= t.approvals && w.landed <= t.landed
    && ActiveCount(t.ledger.tasks) <= Max(cfg.concurrency, ActiveCount(w.ledger.tasks))
  }

  /** Hydration, reconciliation and decisions keep the invariant and the activity. */
  lemma SettleKeeps(cfg: Config, w: World, input: TickInput)
    requires ConfigOk(cfg) && WorldOk(cfg, w) && Settle(cfg, w, input).Ok?
    ensures var t := Settle(cfg, w, input).value;
            && WorldOk(cfg, t) && t.launches == w.launches && t.attempts == w.attempts
            && t.landed == w.landed + MergedIds(cfg, w.repo)
            && ActiveCount(t.ledger.tasks) <= ActiveCount(w.ledger.tasks)
            && SameRecords(Hydrate(cfg, w).value.ledger.tasks, t.ledger.tasks)
            && NothingDropped(w, t)
  {
    HydrateKeeps(cfg, w);
    var hydrated := Hydrate(cfg, w).value;
    ReconcileFromKeeps(cfg, hydrated, 0, |hydrated.ledger.tasks|, input.reconciling);
    var reconciled := ReconcileFrom(cfg, hydrated, 0, |hydrated.ledger.tasks|, input.reconciling).value;
    if !cfg.hermes {
      DecideFromKeeps(cfg, reconciled, 0, |reconciled.ledger.tasks|, input.deciding);
      KeptTwice(cfg, hydrated, reconciled, Settle(cfg, w, input).value);
    }
  }

  /** A tick that returns keeps the invariant, loses nothing, and ends with no more
      active tasks than the limit or than it started with. */
  lemma TickAdvances(cfg: Config, w: World, input: TickInput)
    requires ConfigOk(cfg) && WorldOk(cfg, w) && FitsSuite(cfg.commands, input.answers.env)
    requires ControllerTick(cfg, w, input).Ok?
    ensures WorldOk(cfg, ControllerTick(cfg, w, input).value) && Grows(cfg, w, ControllerTick(cfg, w, input).value)
    ensures ControllerTick(cfg, w, input).value.approvals == w.approvals
  {
    if input.planApproved && input.contextReady {
      SettleKeeps(cfg, w, input);
      MergeAndLaunchAdvances(cfg, Settle(cfg, w, input).value, input);
    }
  }

  lemma MergeAndLaunchAdvances(cfg: Config, w: World, input: TickInput)
    requires ConfigOk(cfg) && WorldOk(cfg, w) && FitsSuite(cfg.commands, input.answers.env)
    requires MergeAndLaunch(cfg, w, input).Ok?
    ensures WorldOk(cfg, MergeAndLaunch(cfg, w, input).value) && Grows(cfg, w, MergeAndLaunch(cfg, w, input).value)
    ensures NothingDropped(w, MergeAndLaunch(cfg, w, input).value)
    ensures NoNewDecisions(w.ledger.tasks, MergeAndLaunch(cfg, w, input).value.ledger.tasks)
  {
    if input.integrate {
      IntegratePhaseKeeps(cfg, w, input.answers);
    }
    var integrated := if input.integrate then IntegratePhase(cfg, w, input.answers).value else w;
    var tasks := integrated.ledger.tasks;
    LaunchFromKeeps(cfg, integrated, 0, |tasks|, Slots(cfg, tasks), input.launch, input.launching);
    var t := MergeAndLaunch(cfg, w, input).value;
    NothingDroppedTwice(w, integrated, t);
    NoNewDecisionsTwice(w.ledger.tasks, tasks, t.ledger.tasks);
  }

  lemma ByHandAdvances(cfg: Config, w: World, identifier: string, status: Status)
    requires WorldOk(cfg, w) && ByHand(cfg, w, identifier, status).Ok?
    requires status == Rejected || (status == MergeApproved
                                    && w.ledger.tasks[Found(w.ledger.tasks, identifier)].id in w.approvals)
    ensures WorldOk(cfg, ByHand(cfg, w, identifier, status).value)
    ensures Grows(cfg, w, ByHand(cfg, w, identifier, status).value)
  {
    MoveKeeps(cfg, w, Found(w.ledger.tasks, identifier), status, NO_NOTES);
  }

  lemma ApproveAdvances(cfg: Config, w: World, identifier: string)
    requires WorldOk(cfg, w) && ApproveMerge(cfg, w, identifier).Ok?
    ensures WorldOk(cfg, ApproveMerge(cfg, w, identifier).value)
    ensures Grows(cfg, w, ApproveMerge(cfg, w, identifier).value)
  {
    var id := w.ledger.tasks[Found(w.ledger.tasks, identifier)].id;
    var noted := w.(approvals := w.approvals + {id});
    GrowthKeeps(cfg, w, noted);
    ByHandAdvances(cfg, noted, identifier, MergeApproved);
    assert ApproveMerge(cfg, w, identifier) == ByHand(cfg, noted, identifier, MergeApproved);
  }

  lemma StepAdvances(cfg: Config, w: World, step: Step, t: World)
    requires ConfigOk(cfg) && WorldOk(cfg, w) && Next(cfg, w, step, t)
    ensures WorldOk(cfg, t) && Grows(cfg, w, t)
    ensures t.attempts != w.attempts ==> step.Ticked? && t.approvals == w.approvals
  {
    match step
    case Ticked(input) => TickAdvances(cfg, w, input);
    case Approved(identifier) => ApproveAdvances(cfg, w, identifier);
    case Refused(identifier) => ByHandAdvances(cfg, w, identifier, Rejected);
    case Others => GrowthKeeps(cfg, w, t);
  }

  lemma FreshStartIsOk(cfg: Config, w: World)
    requires FreshStart(cfg, w)
    ensures WorldOk(cfg, w)
  {
    forall k | 0 <= k < |w.ledger.tasks|
      ensures TaskOk(cfg, w.repo.commits, w.launches, w.landed, w.approvals, w.ledger.tasks[k])
    {
      assert w.ledger.tasks[k] in w.ledger.tasks;
    }
  }

  // ---- Runs ------------------------------------------------------------

  /** The invariant holds throughout. */
  lemma {:induction false} RunIsOk(cfg: Config, states: seq<World>, steps: seq<Step>, k: nat)
    requires IsRun(cfg, states, steps) && k < |states|
    ensures WorldOk(cfg, states[k])
  {
    if k == 0 {
      FreshStartIsOk(cfg, states[0]);
    } else {
      RunIsOk(cfg, states, steps, k - 1);
      assert NextAt(cfg, states, steps, k - 1);
      StepAdvances(cfg, states[k - 1], steps[k - 1], states[k]);
    }
  }

  lemma RunStep(cfg: Config, states: seq<World>, steps: seq<Step>, k: nat)
    requires IsRun(cfg, states, steps) && k < |steps|
    ensures Grows(cfg, states[k], states[k + 1])
    ensures states[k + 1].attempts != states[k].attempts ==>
              steps[k].Ticked? && states[k + 1].approvals == states[k].approvals
  {
    RunIsOk(cfg, states, steps, k);
    assert NextAt(cfg, states, steps, k);
    StepAdvances(cfg, states[k], steps[k], states[k + 1]);
  }

  lemma {:induction false} EventsGrow(cfg: Config, states: seq<World>, steps: seq<Step>, i: nat, k: nat)
    requires IsRun(cfg, states, steps) && i <= k < |states|
    ensures states[i].ledger.events <= states[k].ledger.events
    decreases k
  {
    if i < k {
      EventsGrow(cfg, states, steps, i, k - 1);
      RunStep(cfg, states, steps, k - 1);
    }
  }

  // ---- Launch order ----------------------------------------------------

  lemma {:induction false} LaunchedAfterPath(cfg: Config, launches: seq<string>, landed: set<string>, n: nat,
                                             path: seq<string>)
    requires LaunchesOk(cfg, launches, landed) && n < |launches| && |path| >= 2
    requires Dag.IsPath(GraphOf(cfg), path) && path[0] == launches[n]
    ensures path[|path| - 1] in launches[..n]
    decreases |path|
  {
    assert Dag.Edge(GraphOf(cfg), path[0], path[1]);
    assert DepsDone(cfg, launches[..n], landed, launches[n]);
    var m :| 0 <= m < n && launches[m] == path[1];
    if |path| > 2 {
      forall i | 0 <= i < |path[1..]| - 1 ensures Dag.Edge(GraphOf(cfg), path[1..][i], path[1..][i + 1]) {
        assert Dag.Edge(GraphOf(cfg), path[i + 1], path[i + 2]);
      }
      LaunchedAfterPath(cfg, launches, landed, m, path[1..]);
      assert launches[..m] <= launches[..n];
    }
  }

  /** Launch order linearises the dependency graph: in every run from a repository
      without package branches, each launch of a package, the first one included,
      comes after a launch of each of its transitive dependencies. */
  lemma LaunchOrderLinearises(cfg: Config, states: seq<World>, steps: seq<Step>, k: nat, n: nat, path: seq<string>)
    requires IsRun(cfg, states, steps) && k < |states| && n < |states[k].launches| && |path| >= 2
    requires Dag.IsPath(GraphOf(cfg), path) && path[0] == states[k].launches[n]
    ensures path[|path| - 1] in states[k].launches[..n]
  {
    RunIsOk(cfg, states, steps, k);
    LaunchedAfterPath(cfg, states[k].launches, states[k].landed, n, path);
  }

  // ---- Concurrency -----------------------------------------------------

  lemma {:induction false} ActivityBound(cfg: Config, states: seq<World>, steps: seq<Step>, k: nat)
    requires IsRun(cfg, states, steps) && k < |states|
    ensures ActiveCount(states[k].ledger.tasks) <= Max(cfg.concurrency, ActiveCount(states[0].ledger.tasks))
  {
    if k > 0 {
      ActivityBound(cfg, states, steps, k - 1);
      RunStep(cfg, states, steps, k - 1);
      assert Grows(cfg, states[k - 1], states[k]);
    }
  }

  /** A run never has more active tasks than the configured limit. */
  lemma ConcurrencyBound(cfg: Config, states: seq<World>, steps: seq<Step>, k: nat)
    requires IsRun(cfg, states, steps) && k < |states|
    ensures |ActiveTasks(states[k].ledger.tasks)| <= Max(cfg.concurrency, 0)
  {
    NoneActive(states[0].ledger.tasks);
    ActivityBound(cfg, states, steps, k);
    ActiveCountIsCardinality(states[k].ledger.tasks);
  }

  lemma {:induction false} NoneActive(tasks: seq<Task>)
    requires forall t | t in tasks :: t.status == Planned
    ensures ActiveCount(tasks) == 0
  {
    if tasks != [] {
      NoneActive(tasks[..|tasks| - 1]);
    }
  }

  // ---- Worktrees and decisions -----------------------------------------

  /** Whatever the kernel or a human command does in a step, no branch goes, and every
      registered worktree stays, on its branch. */
  lemma StepDropsNothing(cfg: Config, states: seq<World>, steps: seq<Step>, k: nat)
    requires IsRun(cfg, states, steps) && k < |steps| && !steps[k].Others?
    ensures NothingDropped(states[k], states[k + 1])
  {
    RunIsOk(cfg, states, steps, k);
    assert NextAt(cfg, states, steps, k);
    if steps[k].Ticked? && steps[k].input.planApproved && steps[k].input.contextReady {
      var settled := Settle(cfg, states[k], steps[k].input).value;
      SettleKeeps(cfg, states[k], steps[k].input);
      MergeAndLaunchAdvances(cfg, settled, steps[k].input);
      NothingDroppedTwice(states[k], settled, states[k + 1]);
    }
  }

  lemma SettleDecides(cfg: Config, w: World, input: TickInput)
    requires ConfigOk(cfg) && WorldOk(cfg, w) && !cfg.hermes && Settle(cfg, w, input).Ok?
    ensures forall t | t in Settle(cfg, w, input).value.ledger.tasks && t.packageId in cfg.packages ::
              t.status != DecisionRequired
  {
    var hydrated := Hydrate(cfg, w).value;
    var reconciled := ReconcileFrom(cfg, hydrated, 0, |hydrated.ledger.tasks|, input.reconciling).value;
    DecideFromDecides(cfg, reconciled, 0, |reconciled.ledger.tasks|, input.deciding);
    var settled := Settle(cfg, w, input).value;
    forall t | t in settled.ledger.tasks && t.packageId in cfg.packages ensures t.status != DecisionRequired {
      var j :| 0 <= j < |settled.ledger.tasks| && settled.ledger.tasks[j] == t;
      DecidedIsClosed(cfg, reconciled.ledger.tasks[j], t, input.deciding(j));
    }
  }

  /** In controller mode a tick that gets past the plan and context checks leaves no
      decision open for any known package. */
  lemma NoDecisionStaysOpen(cfg: Config, states: seq<World>, steps: seq<Step>, k: nat, a: nat)
    requires IsRun(cfg, states, steps) && !cfg.hermes && k < |steps| && steps[k].Ticked?
    requires steps[k].input.planApproved && steps[k].input.contextReady
    requires a < |states[k + 1].ledger.tasks| && states[k + 1].ledger.tasks[a].packageId in cfg.packages
    ensures states[k + 1].ledger.tasks[a].status != DecisionRequired
  {
    RunIsOk(cfg, states, steps, k);
    assert NextAt(cfg, states, steps, k);
    var settled := Settle(cfg, states[k], steps[k].input).value;
    SettleKeeps(cfg, states[k], steps[k].input);
    SettleDecides(cfg, states[k], steps[k].input);
    MergeAndLaunchAdvances(cfg, settled, steps[k].input);
    assert NoDecision(settled.ledger.tasks[a], states[k + 1].ledger.tasks[a]);
    assert settled.ledger.tasks[a] in settled.ledger.tasks;
  }

  // ---- Merge gates -----------------------------------------------------

  /** Step `j` approved the task `id`. */
  ghost predicate ApprovedAt(states: seq<World>, steps: seq<Step>, j: nat, id: string)
    requires |states| == |steps| + 1
  {
    && j < |steps| && steps[j].Approved?
    && var i := Found(states[j].ledger.tasks, steps[j].identifier);
       i < |states[j].ledger.tasks| && states[j].ledger.tasks[i].id == id
  }

  lemma OnlyApprovalApproves(cfg: Config, w: World, step: Step, t: World)
    requires ValidConfig(cfg) && Next(cfg, w, step, t)
    ensures forall id | id in t.approvals && id !in w.approvals ::
              && step.Approved?
              && var i := Found(w.ledger.tasks, step.identifier);
                 i < |w.ledger.tasks| && w.ledger.tasks[i].id == id
  {
  }

  lemma {:induction false} ApprovalsAreGiven(cfg: Config, states: seq<World>, steps: seq<Step>, k: nat, id: string)
    requires IsRun(cfg, states, steps) && k < |states| && id in states[k].approvals
    ensures exists j :: 0 <= j < k && ApprovedAt(states, steps, j, id)
  {
    if k > 0 {
      assert NextAt(cfg, states, steps, k - 1);
      OnlyApprovalApproves(cfg, states[k - 1], steps[k - 1], states[k]);
      if id in states[k - 1].approvals {
        ApprovalsAreGiven(cfg, states, steps, k - 1, id);
      } else {
        assert ApprovedAt(states, steps, k - 1, id);
      }
    }
  }

  /** A package that needs a human reaches `integrate_one` only from
      `merge_approved`, and a human approved that very task in an earlier step. */
  lemma HumanGate(cfg: Config, states: seq<World>, steps: seq<Step>, k: nat, n: nat)
    requires IsRun(cfg, states, steps) && k < |steps|
    requires |states[k].attempts| <= n < |states[k + 1].attempts|
    requires var a := states[k + 1].attempts[n];
             a.packageId in cfg.packages && RequiresHumanMergeApproval(cfg.packages[a.packageId])
    ensures var a := states[k + 1].attempts[n];
            && a.task.Some? && a.task.value.packageId == a.packageId && a.task.value.status == MergeApproved
            && exists j :: 0 <= j < k && ApprovedAt(states, steps, j, a.task.value.id)
  {
    RunIsOk(cfg, states, steps, k + 1);
    RunStep(cfg, states, steps, k);
    var a := states[k + 1].attempts[n];
    assert GateOk(cfg, states[k + 1].repo.commits, states[k + 1].approvals, a);
    ApprovalsAreGiven(cfg, states, steps, k, a.task.value.id);
  }

  /** A task in `review_passed` never belongs to a package that needs a human, and
      carries passed validation, a passed review and a commit that respects the
      package's ownership contract; and so did every task integrated without
      approval. */
  lemma ReviewGate(cfg: Config, states: seq<World>, steps: seq<Step>, k: nat)
    requires IsRun(cfg, states, steps) && k < |states|
    ensures forall t | t in states[k].ledger.tasks && t.status == ReviewPassed ::
              Evidence(cfg, states[k].repo.commits, t)
    ensures forall a | a in states[k].attempts :: GateOk(cfg, states[k].repo.commits, states[k].approvals, a)
  {
    RunIsOk(cfg, states, steps, k);
    var w := states[k];
    forall t | t in w.ledger.tasks && t.status == ReviewPassed ensures Evidence(cfg, w.repo.commits, t) {
      var i :| 0 <= i < |w.ledger.tasks| && w.ledger.tasks[i] == t;
      assert TaskOk(cfg, w.repo.commits, w.launches, w.landed, w.approvals, w.ledger.tasks[i]);
    }
    forall a | a in w.attempts ensures GateOk(cfg, w.repo.commits, w.approvals, a) {
      var i :| 0 <= i < |w.attempts| && w.attempts[i] == a;
      assert GateOk(cfg, w.repo.commits, w.approvals, w.attempts[i]);
    }
  }

  lemma ReviewPassesIff(cfg: Config, w: World, i: nat, p: Package, provider: string, commit: CommitId,
                        files: seq<string>, validated: bool, o: Observation)
    requires i < |w.ledger.tasks| && w.ledger.tasks[i].status == Reviewing
    ensures var r := ReconcileReview(cfg, w, i, p, provider, commit, files, validated, o);
            && (r.Ok? && r.value.ledger.tasks[i].status == ReviewPassed <==>
                  !RequiresHumanMergeApproval(p) && ReviewPasses(p, provider, o.reviewer, files, validated))
            && (r.Ok? && r.value.ledger.tasks[i].status == ReviewPassed ==>
                  r.value.ledger.tasks[i].notes.commit == Some(commit))
  {
  }

  lemma AcceptedPassesIff(cfg: Config, w: World, i: nat, p: Package, provider: string,
                          commit: CommitId, files: seq<string>, o: Observation)
    requires i < |w.ledger.tasks| && w.ledger.tasks[i].status == Validating
    ensures var r := ReconcileAccepted(cfg, w, i, p, provider, commit, files, o);
            && (r.Ok? && r.value.ledger.tasks[i].status == ReviewPassed <==>
                  && !RequiresHumanMergeApproval(p) && o.suite == SuitePassed
                  && ReviewPasses(p, provider, o.reviewer, files, true))
            && (r.Ok? && r.value.ledger.tasks[i].status == ReviewPassed ==>
                  r.value.ledger.tasks[i].notes.commit == Some(commit))
  {
    if o.suite != SuiteRaised && o.suite != SuiteBroke {
      var tested := Tested(w, p, o.suite != SuitePassed && o.leavesDirty);
      var validated := o.suite == SuitePassed;
      var notes := NO_NOTES.(commit := Some(commit), validated := Some(validated));
      ReviewPassesIff(cfg, Move(tested, i, Reviewing, notes).value, i, p, provider, commit, files, validated, o);
    }
  }

  /** What the controller writes when it reads a completed result: the task is
      passed without a human exactly if the package needs none, the claim is borne
      out by the repository, package validation passed and the review did; and the
      commit on record is then the head of the package's branch. */
  lemma ReviewPassedExactly(cfg: Config, w: World, i: nat, p: Package, provider: string, report: Report, o: Observation)
    requires i < |w.ledger.tasks| && w.ledger.tasks[i].status == Validating && ValidRepo(w.repo)
    ensures var r := ReconcileCompleted(cfg, w, i, p, provider, report, o);
            && (r.Ok? && r.value.ledger.tasks[i].status == ReviewPassed <==>
                  && !RequiresHumanMergeApproval(p)
                  && report.schemaOk && Substantiated(p, report, w.repo, TreeOf(w, p))
                  && o.suite == SuitePassed
                  && ReviewPasses(p, provider, o.reviewer,
                                  report.files.GetOr(ListedFiles(w.repo.commits[w.repo.refs[p.branch]])), true))
            && (r.Ok? && r.value.ledger.tasks[i].status == ReviewPassed ==>
                  r.value.ledger.tasks[i].notes.commit == Some(w.repo.refs[p.branch]))
  {
    AcceptedIffSubstantiated(p, report, w.repo, TreeOf(w, p));
    var v := CompletedVerdict(p, report, w.repo, TreeOf(w, p));
    if v.Accepted? {
      AcceptedPassesIff(cfg, w, i, p, provider, v.commit, v.files, o);
      assert v.files == report.files.GetOr(ListedFiles(w.repo.commits[v.commit]));
    }
  }

  // ---- The ledger ------------------------------------------------------

  /** The event log replays to exactly the stored statuses throughout. */
  lemma LedgerIsFaithful(cfg: Config, states: seq<World>, steps: seq<Step>, k: nat)
    requires IsRun(cfg, states, steps) && k < |states|
    ensures Faithful(states[k].ledger)
  {
    RunIsOk(cfg, states, steps, k);
  }

  /** A merged or rejected task stays so for the rest of the run. */
  lemma TerminalTaskStays(cfg: Config, states: seq<World>, steps: seq<Step>, i: nat, k: nat, a: nat)
    requires IsRun(cfg, states, steps) && i <= k < |states|
    requires a < |states[i].ledger.tasks| && Terminal(states[i].ledger.tasks[a].status)
    ensures exists b :: 0 <= b < |states[k].ledger.tasks|
                        && states[k].ledger.tasks[b].id == states[i].ledger.tasks[a].id
                        && states[k].ledger.tasks[b].status == states[i].ledger.tasks[a].status
  {
    RunIsOk(cfg, states, steps, i);
    RunIsOk(cfg, states, steps, k);
    EventsGrow(cfg, states, steps, i, k);
    var l, m, task := states[i].ledger, states[k].ledger, states[i].ledger.tasks[a];
    assert m.events[..|l.events|] == l.events;
    assert l.tasks[a].id == task.id;
    TerminalIsForever(m.events, |l.events|, task.id);
    assert HasId(m.tasks, task.id);
    var b :| 0 <= b < |m.tasks| && m.tasks[b].id == task.id;
  }

  // ---- The integration branch ------------------------------------------

  /** The integration head stayed, or moved on to a descendant on which every
      required command has passed. */
  ghost predicate HeadAdvances(cfg: Config, s: RepoState, t: RepoState) {
    && ValidRepo(s) && ValidRepo(t) && s.commits <= t.commits && s.log <= t.log
    && cfg.integration in s.refs && cfg.integration in t.refs
    && var past, tip := s.refs[cfg.integration], t.refs[cfg.integration];
       Reaches(t.commits, tip, past) && (tip == past || Green(t, tip, cfg.commands))
  }

  lemma HeadAdvancesTwice(cfg: Config, s: RepoState, m: RepoState, t: RepoState)
    requires HeadAdvances(cfg, s, m) && HeadAdvances(cfg, m, t)
    ensures HeadAdvances(cfg, s, t)
  {
    var past, mid, tip := s.refs[cfg.integration], m.refs[cfg.integration], t.refs[cfg.integration];
    ReachesStable(m.commits, t.commits, mid, past);
    ReachesTransitive(t.commits, tip, mid, past);
    if tip == mid && mid != past {
      forall c | c in cfg.commands && c.required ensures Run(c, tip, true) in t.log {
        assert Run(c, mid, true) in m.log;
      }
    }
  }

  lemma SameHeadAdvances(cfg: Config, w: World, t: World)
    requires ValidRepo(w.repo) && ValidRepo(t.repo) && cfg.integration in w.repo.refs && SameHead(cfg, w, t)
    ensures HeadAdvances(cfg, w.repo, t.repo)
  {
  }

  lemma IntegrationAdvances(cfg: Config, s: RepoState, call: I.Call, a: I.Answers)
    requires I.Fits(s, call, a) && a.resets && cfg.integration in s.refs
    requires call.integration == cfg.integration && call.commands == cfg.commands
    requires I.Integrate(s, call, a).1 != I.Raised(I.SuiteCrashed)
    ensures HeadAdvances(cfg, s, I.Integrate(s, call, a).0)
  {
    IntegrationHeadMoves(s, call, a);
    SoundCallKeepsGreen(s, call, a);
    NextMovesHead(cfg.integration, s, Attempted(call, a), I.Integrate(s, call, a).0);
  }

  lemma CandidateAdvances(cfg: Config, w: World, c: Candidate, a: I.Answers)
    requires ValidRepo(w.repo) && FitsSuite(cfg.commands, a.env) && a.resets && c.head < |w.repo.commits|
    requires cfg.integration in w.repo.refs && IntegrateCandidate(cfg, w, c, a).Ok?
    ensures HeadAdvances(cfg, w.repo, IntegrateCandidate(cfg, w, c, a).value.repo)
  {
    IntegrationAdvances(cfg, w.repo, CallFor(cfg, w.repo.commits, c), a);
  }

  lemma MergePhaseAdvances(cfg: Config, w: World, a: I.Answers)
    requires ValidConfig(cfg) && ValidRepo(w.repo) && FitsSuite(cfg.commands, a.env) && a.resets
    requires cfg.integration in w.repo.refs && IntegratePhase(cfg, w, a).Ok?
    ensures HeadAdvances(cfg, w.repo, IntegratePhase(cfg, w, a).value.repo)
  {
    SortedPackages(cfg);
    var states := ClassifyEach(cfg, w.repo, w.trees, w.ledger.tasks, Sorted(cfg.order));
    var candidates := Candidates(w.ledger.tasks, states).value;
    if candidates == [] {
      SameHeadAdvances(cfg, w, w);
    } else {
      CandidateHeads(w.repo, w.ledger.tasks, states);
      CandidateAdvances(cfg, w, candidates[0], a);
    }
  }

  lemma MergeAndLaunchHead(cfg: Config, w: World, input: TickInput)
    requires ValidConfig(cfg) && ValidRepo(w.repo) && FitsSuite(cfg.commands, input.answers.env) && input.answers.resets
    requires cfg.integration in w.repo.refs && MergeAndLaunch(cfg, w, input).Ok?
    ensures HeadAdvances(cfg, w.repo, MergeAndLaunch(cfg, w, input).value.repo)
  {
    var integrated := if input.integrate then IntegratePhase(cfg, w, input.answers).value else w;
    if input.integrate {
      MergePhaseAdvances(cfg, w, input.answers);
    } else {
      SameHeadAdvances(cfg, w, w);
    }
    var t := MergeAndLaunch(cfg, w, input).value;
    SameHeadAdvances(cfg, integrated, t);
    HeadAdvancesTwice(cfg, w.repo, integrated.repo, t.repo);
  }

  lemma TickHead(cfg: Config, w: World, input: TickInput)
    requires ValidConfig(cfg) && ValidRepo(w.repo) && FitsSuite(cfg.commands, input.answers.env) && input.answers.resets
    requires cfg.integration in w.repo.refs && ControllerTick(cfg, w, input).Ok?
    ensures HeadAdvances(cfg, w.repo, ControllerTick(cfg, w, input).value.repo)
  {
    if !input.planApproved || !input.contextReady {
      SameHeadAdvances(cfg, w, w);
    } else {
      var decided := Settle(cfg, w, input).value;
      SameHeadAdvances(cfg, w, decided);
      MergeAndLaunchHead(cfg, decided, input);
      HeadAdvancesTwice(cfg, w.repo, decided.repo, MergeAndLaunch(cfg, decided, input).value.repo);
    }
  }

  lemma StepHead(cfg: Config, w: World, step: Step, t: World)
    requires ValidConfig(cfg) && Next(cfg, w, step, t) && cfg.integration in w.repo.refs
    requires step.Ticked? ==> step.input.answers.resets
    ensures HeadAdvances(cfg, w.repo, t.repo)
  {
    if step.Ticked? {
      TickHead(cfg, w, step.input);
    } else {
      SameHeadAdvances(cfg, w, t);
    }
  }

  /** The kernel keeps its integration branch green: between any two points of a
      run the integration head stayed or moved to a descendant on which all
      required commands passed, provided `reset --hard` works in every tick. */
  lemma {:induction false} ControllerKeepsGreen(cfg: Config, states: seq<World>, steps: seq<Step>, i: nat, k: nat)
    requires IsRun(cfg, states, steps) && i <= k < |states| && cfg.integration in states[0].repo.refs
    requires forall j | 0 <= j < |steps| && steps[j].Ticked? :: steps[j].input.answers.resets
    ensures HeadAdvances(cfg, states[i].repo, states[k].repo)
    decreases k, i
  {
    RunIsOk(cfg, states, steps, k);
    if k == 0 {
      SameHeadAdvances(cfg, states[0], states[0]);
    } else {
      ControllerKeepsGreen(cfg, states, steps, if i < k then i else k - 1, k - 1);
      assert NextAt(cfg, states, steps, k - 1);
      StepHead(cfg, states[k - 1], steps[k - 1], states[k]);
      if i == k {
        SameHeadAdvances(cfg, states[k], states[k]);
      } else {
        HeadAdvancesTwice(cfg, states[i].repo, states[k - 1].repo, states[k].repo);
      }
    }
  }
}
