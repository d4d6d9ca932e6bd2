/** One controller tick as a function of the world and of everything outside it
    (engine/controller.py, provisioning/worktrees.py): the reference the
    controller's methods refine. Every phase works on the stored records, task by
    task. A tick that lets an exception out has no result. */
module Tick {
  import opened Classifier
  import opened Gates
  import opened Git
  import opened History
  import I = Integration
  import opened Ledger
  import opened Project
  import opened Runner
  import opened Text
  import opened Wrappers

  /** One call of `integrate_one`: the candidate and its task as it was found. */
  datatype Attempt = Attempt(packageId: string, task: Option<Task>)

  /** `launches` and `attempts` are history variables: the packages of all
      `launch_task` calls and all `integrate_one` calls, in order; so are
      `approvals`, the tasks a human approved for merging, and `landed`, the
      packages whose branch was contained in the integration branch when a
      classification looked or when `integrate_one` returned. */
  datatype World = World(
    ledger: LedgerState,
    repo: RepoState,
    trees: map<string, Tree>,
    launches: seq<string>,
    attempts: seq<Attempt>,
    approvals: set<string>,
    landed: set<string>)

  datatype Uncaught = Uncaught

  type Outcome = Result<World, Uncaught>

  /** `ACTIVE_STATES` */
  predicate ActiveState(s: Status) {
    s == Assigned || s == Running || s == Validating || s == Reviewing || s == Integrating
  }

  function ActiveCount(tasks: seq<Task>): nat {
    if tasks == [] then 0
    else ActiveCount(tasks[..|tasks| - 1]) + if ActiveState(tasks[|tasks| - 1].status) then 1 else 0
  }

  /** `t` follows `w`: no stored task and no event has gone, nothing was approved,
      and Git is still consistent. */
  ghost predicate Follows(w: World, t: World) {
    && |t.ledger.tasks| >= |w.ledger.tasks|
    && w.ledger.events <= t.ledger.events && t.approvals == w.approvals && w.landed <= t.landed
    && (ValidRepo(w.repo) ==> ValidRepo(t.repo))
  }

  /** The integration head has not moved, and no evidence was lost. */
  ghost predicate SameHead(cfg: Config, w: World, t: World) {
    && w.repo.commits <= t.repo.commits && w.repo.log <= t.repo.log
    && (cfg.integration in w.repo.refs ==>
          cfg.integration in t.repo.refs && t.repo.refs[cfg.integration] == w.repo.refs[cfg.integration])
  }

  /** A guarded transition of the stored task `i`, in place. */
  function Move(w: World, i: nat, status: Status, notes: Notes): (r: Outcome)
    requires i < |w.ledger.tasks|
    ensures r.Ok? ==> |r.value.ledger.tasks| == |w.ledger.tasks| && r.value == w.(ledger := r.value.ledger)
    ensures r.Ok? ==> Follows(w, r.value)
  {
    var t := w.ledger.tasks[i];
    if status.Unlisted? || (Terminal(t.status) && status != t.status) then Err(Uncaught)
    else Ok(w.(ledger := LedgerState(w.ledger.tasks[i := Moved(t, status, Note(notes))],
                                     w.ledger.events + [Transition(t.id, t.status, status)])))
  }

  /** With distinct ids, that is what `transition_task` does to the stored task:
      the copy it is given is upserted by id. */
  lemma MoveIsTransition(w: World, i: nat, status: Status, notes: Notes)
    requires i < |w.ledger.tasks| && DistinctIds(w.ledger.tasks)
    ensures var l := Transitioned(w.ledger, w.ledger.tasks[i], status, Note(notes));
            Move(w, i, status, notes) == if l.Ok? then Ok(w.(ledger := l.value)) else Err(Uncaught)
  {
    assert IndexOf(w.ledger.tasks, w.ledger.tasks[i].id) == i;
  }

  // ---- hydrate_task_state ----------------------------------------------

  function EnsureAll(l: LedgerState, cfg: Config, ids: seq<string>): (r: LedgerState)
    requires forall id | id in ids :: id in cfg.packages
    ensures |r.tasks| >= |l.tasks| && l.events <= r.events
    decreases |ids|
  {
    if ids == [] then l else EnsureAll(Ensured(l, ids[0], cfg.packages[ids[0]].name), cfg, ids[1..])
  }

  function HydrateTarget(status: Status, kind: Kind): Option<Status> {
    if ActiveState(status) || status == Merged || status == Blocked || status == Failed then None
    else if kind == MergedIn then Some(Merged)
    else if kind == ExecutionReady || kind == RepairRequired then Some(Ready)
    else None
  }

  function HydrateEach(w: World, states: seq<PackageState>): (r: Outcome)
    ensures r.Ok? ==> Follows(w, r.value) && r.value == w.(ledger := r.value.ledger)
    decreases |states|
  {
    if states == [] then Ok(w)
    else
      var i := IndexOf(w.ledger.tasks, TaskIdFor(states[0].id));
      var target := if i < |w.ledger.tasks| then HydrateTarget(w.ledger.tasks[i].status, states[0].kind) else None;
      var next :- if target.Some? then Move(w, i, target.value, NO_NOTES) else Ok(w);
      HydrateEach(next, states[1..])
  }

  /** `merged_ids` */
  function MergedIds(cfg: Config, repo: RepoState): set<string>
    requires ValidRepo(repo)
  {
    set id | id in cfg.packages && MergedId(cfg, repo, id)
  }

  ghost function Hydrate(cfg: Config, w: World): (r: Outcome)
    requires ValidConfig(cfg) && ValidRepo(w.repo)
    ensures r.Ok? ==> Follows(w, r.value) && SameHead(cfg, w, r.value)
  {
    SortedPackages(cfg);
    if !DagValid(cfg) then Err(Uncaught)
    else
      var l := EnsureAll(w.ledger, cfg, cfg.order);
      HydrateEach(w.(ledger := l, landed := w.landed + MergedIds(cfg, w.repo)),
                  ClassifyEach(cfg, w.repo, w.trees, l.tasks, Sorted(cfg.order)))
  }

  // ---- Checkpoints and handoffs ----------------------------------------

  datatype CheckpointAnswer = NoCheckpoint | CheckpointMade(hash: string, files: seq<string>, dirty: bool)

  /** A checkpoint commit on the branch checked out in the package's worktree. It
      is forbidden on the integration branch. */
  function Checkpointed(cfg: Config, w: World, p: Package, c: CheckpointAnswer): (t: World)
    ensures Follows(w, t) && SameHead(cfg, w, t)
  {
    if c.CheckpointMade? && p.tree in w.trees && w.trees[p.tree].branch in w.repo.refs
       && w.trees[p.tree].branch != cfg.integration then
      var b := w.trees[p.tree].branch;
      CheckpointValid(w.repo, b, Commit(c.hash, [w.repo.refs[b]], c.files));
      w.(repo := w.repo.(commits := w.repo.commits + [Commit(c.hash, [w.repo.refs[b]], c.files)],
                         refs := w.repo.refs[b := |w.repo.commits|]),
         trees := w.trees[p.tree := w.trees[p.tree].(dirty := c.dirty)])
    else w
  }

  lemma CheckpointValid(repo: RepoState, branch: string, commit: Commit)
    requires branch in repo.refs && commit.parents == [repo.refs[branch]]
    ensures ValidRepo(repo) ==>
              ValidRepo(repo.(commits := repo.commits + [commit], refs := repo.refs[branch := |repo.commits|]))
  {
    if ValidRepo(repo) {
      var g := repo.commits + [commit];
      forall i | 0 <= i < |g| ensures forall p | p in g[i].parents :: p < i {
        assert i < |repo.commits| ==> g[i] == repo.commits[i];
      }
    }
  }

  function HandoffOrBlock(cfg: Config, w: World, i: nat, p: Package, provider: string, kind: FailureKind,
                          hasNext: bool, c: CheckpointAnswer): (r: Outcome)
    requires i < |w.ledger.tasks|
    ensures r.Ok? ==> Follows(w, r.value) && SameHead(cfg, w, r.value)
  {
    Move(Checkpointed(cfg, w, p, c), i, if hasNext then HandoffNeeded else Blocked,
         NO_NOTES.(lastProvider := Some(provider), failureKind := Some(kind)))
  }

  function AllowedActions(kind: FailureKind): set<Action> {
    match kind
    case FromLog(QuotaExhausted) | FromLog(RateLimited) | FromLog(Authentication) => {HandoffProvider, AskUser}
    case FromLog(WrapperQuoting) => {HandoffProvider, RepairAdapter, AskUser}
    case MissingResultWithCommit => {NormalizeResult, RetrySameProvider, HandoffProvider}
    case FromLog(ValidationCommandInvalid) | FromLog(ContractOwnershipGap) => {RepairContract, AskUser}
    case FromLog(MergeBranchDivergence) => {ReconcileBranch, AskUser}
    case _ => {RetrySameProvider, HandoffProvider, AskUser}
  }

  function RequireDecision(w: World, i: nat, kind: FailureKind): (r: Outcome)
    requires i < |w.ledger.tasks|
    ensures r.Ok? ==> Follows(w, r.value) && r.value == w.(ledger := r.value.ledger)
  {
    Move(w, i, DecisionRequired, NO_NOTES.(failureKind := Some(kind), allowed := Some(AllowedActions(kind))))
  }

  // ---- reconcile_processes ---------------------------------------------

  datatype ProcessView =
    | NoProcess
    | NotMapping
    | Process(provider: string, alive: bool, tmuxWaiting: bool, stale: bool)

  datatype ResultView =
    | NoResult
    | Unusable
    | CompletedResult(report: Report)
    | BlockedResult
    | OtherResult

  /** A suite in a package's worktree: its status, a `ValidationError`, or another
      exception. */
  datatype SuiteVerdict = SuitePassed | SuiteFailed | SuiteRaised | SuiteBroke

  datatype Completion = CompletionValidated | CompletionFailed(kind: LogKind) | CompletionRaised

  /** Everything a phase learns about one task from outside the ledger and Git. */
  datatype Observation = Observation(
    process: ProcessView,
    result: ResultView,
    suite: SuiteVerdict,
    leavesDirty: bool,
    reviewer: string,
    completion: Completion,
    logKind: LogKind,
    quoting: bool,
    hasNext: bool,
    normalizes: bool,
    checkpoint: CheckpointAnswer)

  function TreeOf(w: World, p: Package): Option<Tree> {
    if p.tree in w.trees then Some(w.trees[p.tree]) else None
  }

  /** `_has_clean_task_commit` */
  predicate HasCleanTaskCommit(cfg: Config, w: World, p: Package) {
    && p.tree in w.trees && !w.trees[p.tree].dirty && p.branch in w.repo.refs
    && w.trees[p.tree].branch in w.repo.refs && cfg.integration in w.repo.refs
    && w.repo.refs[w.trees[p.tree].branch] != w.repo.refs[cfg.integration]
  }

  /** The worktree after package validation has run its commands in it. */
  function Tested(w: World, p: Package, dirty: bool): (t: World)
    ensures t == w.(trees := t.trees) && t.trees.Keys == w.trees.Keys
  {
    if p.tree in w.trees then w.(trees := w.trees[p.tree := w.trees[p.tree].(dirty := dirty)]) else w
  }

  /** The review decides between the two merge gates and a handoff. */
  ghost function ReconcileReview(cfg: Config, w: World, i: nat, p: Package, provider: string, commit: CommitId,
                                 files: seq<string>, validated: bool, o: Observation): (r: Outcome)
    requires i < |w.ledger.tasks|
    ensures r.Ok? ==> Follows(w, r.value) && SameHead(cfg, w, r.value)
  {
    if !ReviewPasses(p, provider, o.reviewer, files, validated) then
      HandoffOrBlock(cfg, w, i, p, provider, ReviewFailure, o.hasNext, o.checkpoint)
    else
      Move(w, i, if RequiresHumanMergeApproval(p) then MergeReady else ReviewPassed,
           NO_NOTES.(commit := Some(commit), reviewed := Some(true)))
  }

  /** The report is accepted: validate the package, then review it. */
  ghost function ReconcileAccepted(cfg: Config, w: World, i: nat, p: Package, provider: string,
                                   commit: CommitId, files: seq<string>, o: Observation): (r: Outcome)
    requires i < |w.ledger.tasks|
    ensures r.Ok? ==> Follows(w, r.value) && SameHead(cfg, w, r.value)
  {
    var tested := Tested(w, p, o.suite != SuitePassed && o.leavesDirty);
    if o.suite == SuiteBroke then Err(Uncaught)
    else if o.suite == SuiteRaised then
      HandoffOrBlock(cfg, tested, i, p, provider, ValidationFailure, o.hasNext, o.checkpoint)
    else
      var validated := o.suite == SuitePassed;
      var reviewing :- Move(tested, i, Reviewing, NO_NOTES.(commit := Some(commit), validated := Some(validated)));
      ReconcileReview(cfg, reviewing, i, p, provider, commit, files, validated, o)
  }

  /** A completed result, with the task already `validating`. */
  ghost function ReconcileCompleted(cfg: Config, w: World, i: nat, p: Package, provider: string,
                                    report: Report, o: Observation): (r: Outcome)
    requires i < |w.ledger.tasks| && ValidRepo(w.repo)
    ensures r.Ok? ==> Follows(w, r.value) && SameHead(cfg, w, r.value)
  {
    match CompletedVerdict(p, report, w.repo, TreeOf(w, p))
    case GitFailed => Err(Uncaught)
    case Refused => HandoffOrBlock(cfg, w, i, p, provider, ValidationFailure, o.hasNext, o.checkpoint)
    case Accepted(commit, files) => ReconcileAccepted(cfg, w, i, p, provider, commit, files, o)
  }

  /** A result file was found and the task is `validating`. */
  ghost function ReconcileResult(cfg: Config, w: World, i: nat, p: Package, provider: string,
                                 o: Observation): (r: Outcome)
    requires i < |w.ledger.tasks| && ValidRepo(w.repo)
    ensures r.Ok? ==> Follows(w, r.value) && SameHead(cfg, w, r.value)
  {
    if o.result.CompletedResult? then ReconcileCompleted(cfg, w, i, p, provider, o.result.report, o)
    else if o.result.BlockedResult? then Move(w, i, Blocked, NO_NOTES)
    else Move(w, i, Failed, NO_NOTES)
  }

  /** No result yet: the process decides. */
  function ReconcileProcess(cfg: Config, w: World, i: nat, p: Package, o: Observation): (r: Outcome)
    requires i < |w.ledger.tasks| && o.process.Process?
    ensures r.Ok? ==> Follows(w, r.value) && SameHead(cfg, w, r.value)
  {
    if o.process.alive then Ok(w)
    else if o.process.tmuxWaiting then
      if !o.process.stale then Ok(w) else RequireDecision(w, i, StaleRunningProcess)
    else ReconcileFinished(cfg, w, i, p, o)
  }

  /** The process is gone and left no result: is there a commit? */
  function ReconcileFinished(cfg: Config, w: World, i: nat, p: Package, o: Observation): (r: Outcome)
    requires i < |w.ledger.tasks|
    ensures r.Ok? ==> Follows(w, r.value) && SameHead(cfg, w, r.value)
  {
    if HasCleanTaskCommit(cfg, w, p) then
      if cfg.hermes then RequireDecision(w, i, MissingResultWithCommit)
      else
        match o.completion
        case CompletionValidated => Ok(Tested(w, p, o.leavesDirty))
        case CompletionFailed(kind) => RequireDecision(w, i, FromLog(kind))
        case CompletionRaised => Err(Uncaught)
    else RequireDecision(w, i, FromLog(if o.quoting then WrapperQuoting else o.logKind))
  }

  /** An active task of a known package with a process record. */
  ghost function ReconcileActive(cfg: Config, w: World, i: nat, p: Package, provider: string,
                                 o: Observation): (r: Outcome)
    requires i < |w.ledger.tasks| && ValidRepo(w.repo) && o.process.Process?
    ensures r.Ok? ==> Follows(w, r.value) && SameHead(cfg, w, r.value)
  {
    if o.result.NoResult? then ReconcileProcess(cfg, w, i, p, o)
    else if o.result.Unusable? then Err(Uncaught)
    else
      var validating :- Move(w, i, Validating, NO_NOTES);
      ReconcileResult(cfg, validating, i, p, provider, o)
  }

  ghost function ReconcileOne(cfg: Config, w: World, i: nat, o: Observation): (r: Outcome)
    requires i < |w.ledger.tasks| && ValidRepo(w.repo)
    ensures r.Ok? ==> Follows(w, r.value) && SameHead(cfg, w, r.value)
  {
    var t := w.ledger.tasks[i];
    if !ActiveState(t.status) then Ok(w)
    else
      match o.process
      case NoProcess => Move(w, i, DecisionRequired, NO_NOTES.(failureKind := Some(MissingProcessRecord)))
      case NotMapping => Ok(w)
      case Process(recorded, _, _, _) =>
        if t.packageId !in cfg.packages then Move(w, i, Failed, NO_NOTES)
        else
          ReconcileActive(cfg, w, i, cfg.packages[t.packageId], t.notes.provider.GetOr(recorded), o)
  }

  // ---- _default_supervisor_decisions -----------------------------------

  /** `task.get("provider") or task.get("last_provider") or ""` */
  function KnownProvider(t: Task): string {
    if t.notes.provider.GetOr("") != "" then t.notes.provider.value else t.notes.lastProvider.GetOr("")
  }

  function DecideOne(cfg: Config, w: World, i: nat, o: Observation): (r: Outcome)
    requires i < |w.ledger.tasks|
    ensures r.Ok? ==> Follows(w, r.value) && SameHead(cfg, w, r.value)
  {
    var t := w.ledger.tasks[i];
    if t.status != DecisionRequired || t.packageId !in cfg.packages then Ok(w)
    else
      var kind, allowed := t.notes.failureKind.GetOr(Unclassified), t.notes.allowed.GetOr({});
      if kind == MissingResultWithCommit && NormalizeResult in allowed then
        if o.normalizes then Move(w, i, Validating, NO_NOTES) else Err(Uncaught)
      else if HandoffProvider in allowed && KnownProvider(t) != "" then
        HandoffOrBlock(cfg, w, i, cfg.packages[t.packageId], KnownProvider(t), kind, o.hasNext, o.checkpoint)
      else if RetrySameProvider in allowed then Move(w, i, Ready, NO_NOTES)
      else Move(w, i, Blocked, NO_NOTES)
  }

  // ---- The two phases that visit every stored task ---------------------

  type Observer = nat -> Observation

  ghost function ReconcileFrom(cfg: Config, w: World, i: nat, n: nat, observe: Observer): (r: Outcome)
    requires i <= n <= |w.ledger.tasks| && ValidRepo(w.repo)
    ensures r.Ok? ==> Follows(w, r.value) && SameHead(cfg, w, r.value)
    decreases n - i
  {
    if i == n then Ok(w)
    else
      var next :- ReconcileOne(cfg, w, i, observe(i));
      ReconcileFrom(cfg, next, i + 1, n, observe)
  }

  predicate Seen(w: World) {
    true
  }

  /** Reconciliation leads from `w` at task `i` to `r`. A proof has to mention `Seen` to
      unfold the definition; `ReconcilesToUnfolds` is the one place that does. */
  ghost predicate ReconcilesTo(cfg: Config, w: World, i: nat, n: nat, observe: Observer, r: Outcome) {
    forall v {:trigger Seen(v)} | v == w ::
      i <= n <= |v.ledger.tasks| && ValidRepo(v.repo) && ReconcileFrom(cfg, v, i, n, observe) == r
  }

  lemma ReconcilesToUnfolds(cfg: Config, w: World, i: nat, n: nat, observe: Observer, r: Outcome)
    requires ReconcilesTo(cfg, w, i, n, observe, r)
    ensures i <= n <= |w.ledger.tasks| && ValidRepo(w.repo) && ReconcileFrom(cfg, w, i, n, observe) == r
  {
    assert Seen(w);
  }

  lemma ReconcileEnds(cfg: Config, w: World, n: nat, observe: Observer, r: Outcome)
    requires ReconcilesTo(cfg, w, n, n, observe, r)
    ensures r == Ok(w)
  {
    ReconcilesToUnfolds(cfg, w, n, n, observe, r);
  }

  function DecideFrom(cfg: Config, w: World, i: nat, n: nat, observe: Observer): (r: Outcome)
    requires i <= n <= |w.ledger.tasks|
    ensures r.Ok? ==> Follows(w, r.value) && SameHead(cfg, w, r.value)
    decreases n - i
  {
    if i == n then Ok(w)
    else
      var next :- DecideOne(cfg, w, i, observe(i));
      DecideFrom(cfg, next, i + 1, n, observe)
  }

  // ---- Integration -----------------------------------------------------

  datatype Candidate = Candidate(packageId: string, branch: string, head: CommitId, taskId: Option<string>)

  /** `tasks_by_package`: later tasks win. */
  function LastOf(tasks: seq<Task>, packageId: string): Option<Task> {
    if tasks == [] then None
    else if tasks[|tasks| - 1].packageId == packageId then Some(tasks[|tasks| - 1])
    else LastOf(tasks[..|tasks| - 1], packageId)
  }

  predicate Mergeable(s: Status) {
    s == ReviewPassed || s == MergeApproved || s == IntegrationReady
  }

  predicate IsCandidate(tasks: seq<Task>, s: PackageState) {
    LastOf(tasks, s.id).Some? && Mergeable(LastOf(tasks, s.id).value.status)
  }

  /** `integration_candidates`: a candidate whose branch is missing raises. */
  function Candidates(tasks: seq<Task>, states: seq<PackageState>): Result<seq<Candidate>, Uncaught> {
    if states == [] then Ok([])
    else
      var s := states[0];
      if !IsCandidate(tasks, s) then Candidates(tasks, states[1..])
      else if s.head.None? then Err(Uncaught)
      else
        var rest :- Candidates(tasks, states[1..]);
        Ok([Candidate(s.id, s.branch, s.head.value, s.taskId)] + rest)
  }

  /** Candidates' heads are commits of the repository. */
  lemma {:induction false} CandidateHeads(repo: RepoState, tasks: seq<Task>, states: seq<PackageState>)
    requires forall s | s in states && s.head.Some? :: s.head.value < |repo.commits|
    requires Candidates(tasks, states).Ok?
    ensures forall c | c in Candidates(tasks, states).value :: c.head < |repo.commits|
  {
    if states != [] {
      CandidateHeads(repo, tasks, states[1..]);
    }
  }

  function CallFor(cfg: Config, commits: seq<Commit>, c: Candidate): I.Call
    requires c.head < |commits|
  {
    I.Call(cfg.integration, c.packageId, c.branch, commits[c.head].hash, cfg.commands, true)
  }

  /** The candidate's task, or the length when there is none. */
  function CandidateTask(tasks: seq<Task>, c: Candidate): (i: nat)
    ensures i <= |tasks|
  {
    if c.taskId.Some? then IndexOf(tasks, c.taskId.value) else |tasks|
  }

  function BeginCandidate(w: World, c: Candidate): (r: Outcome)
    ensures r.Ok? ==> Follows(w, r.value)
  {
    var tasks := w.ledger.tasks;
    var noted := w.(attempts := w.attempts + [Attempt(c.packageId, LastOf(tasks, c.packageId))]);
    if CandidateTask(tasks, c) < |tasks| then Move(noted, CandidateTask(tasks, c), Integrating, NO_NOTES) else Ok(noted)
  }

  function FinishCandidate(w: World, packageId: string, i: nat, repo: RepoState, raised: bool): (r: Outcome)
    requires i <= |w.ledger.tasks|
    ensures r.Ok? && ValidRepo(repo) ==> Follows(w, r.value)
  {
    var done := w.(repo := repo, landed := if raised then w.landed else w.landed + {packageId});
    if i < |w.ledger.tasks| then Move(done, i, if raised then Failed else Merged, NO_NOTES) else Ok(done)
  }

  lemma IntegrateFrame(s: RepoState, call: I.Call, a: I.Answers)
    requires I.Fits(s, call, a)
    ensures var t := I.Integrate(s, call, a).0;
            ValidRepo(t) && s.commits <= t.commits && s.log <= t.log && t.refs.Keys == s.refs.Keys
  {
    if call.integration in s.refs {
      IntegrationHeadMoves(s, call, a);
    }
  }

  /** Integrate one candidate, bracketed by its task's transitions. */
  ghost function IntegrateCandidate(cfg: Config, w: World, c: Candidate, a: I.Answers): (r: Outcome)
    requires ValidRepo(w.repo) && FitsSuite(cfg.commands, a.env) && c.head < |w.repo.commits|
    ensures r.Ok? ==> Follows(w, r.value)
  {
    var begun :- BeginCandidate(w, c);
    IntegrateFrame(w.repo, CallFor(cfg, w.repo.commits, c), a);
    var (repo, outcome) := I.Integrate(w.repo, CallFor(cfg, w.repo.commits, c), a);
    if outcome.Raised? && !I.Caught(outcome.stage) then Err(Uncaught)
    else FinishCandidate(begun, c.packageId, CandidateTask(w.ledger.tasks, c), repo, outcome.Raised?)
  }

  ghost function IntegratePhase(cfg: Config, w: World, a: I.Answers): (r: Outcome)
    requires ValidConfig(cfg) && ValidRepo(w.repo) && FitsSuite(cfg.commands, a.env)
    ensures r.Ok? ==> Follows(w, r.value)
  {
    SortedPackages(cfg);
    if !DagValid(cfg) then Err(Uncaught)
    else
      var states := ClassifyEach(cfg, w.repo, w.trees, w.ledger.tasks, Sorted(cfg.order));
      var candidates :- Candidates(w.ledger.tasks, states);
      if candidates == [] then Ok(w)
      else
        CandidateHeads(w.repo, w.ledger.tasks, states);
        IntegrateCandidate(cfg, w, candidates[0], a)
  }

  // ---- ensure_worktree and launch_task ---------------------------------

  datatype WorktreeAnswer = WorktreeAdded | AddFailed | AddFailedAfterBranch

  /** A call returns, raises a `RuntimeError`, which the launch loop turns into a
      blocked task, or raises something else. */
  datatype CallAnswer = Returns | Refuses | Throws

  /** `adapter`, `command` and `start` are the calls before the worktree, between the
      worktree and `assigned`, and after it; `clears` is whether a path in the way of
      the worktree could be deleted. */
  datatype LaunchAnswers = LaunchAnswers(
    provider: Option<string>,
    quotaRefuses: bool,
    checkpoint: CheckpointAnswer,
    adapter: CallAnswer,
    clears: bool,
    worktree: WorktreeAnswer,
    command: CallAnswer,
    start: CallAnswer)

  /** `ensure_worktree` first deletes what is at the worktree's path. */
  predicate InTheWay(w: World, p: Package) {
    p.tree in w.trees && !w.trees[p.tree].registered && !(w.trees[p.tree].gitMarker && w.trees[p.tree].usable)
  }

  /** `ensure_worktree`: the world afterwards and whether it returned. */
  function EnsureWorktree(cfg: Config, w: World, p: Package, repair: bool, answer: WorktreeAnswer): (r: (World, bool))
    ensures Follows(w, r.0) && SameHead(cfg, w, r.0) && r.0.ledger == w.ledger
  {
    var existing := TreeOf(w, p);
    if existing.Some? && existing.value.registered then
      (w, existing.value.branch == p.branch && (existing.value.dirty ==> repair))
    else if existing.Some? && existing.value.gitMarker && existing.value.usable then (w, false)
    else
      var cleared := w.(trees := w.trees - {p.tree});
      var added := Tree(true, true, true, p.branch, false);
      if repair then (cleared, false)
      else if p.branch in w.repo.refs then
        if answer == WorktreeAdded then (cleared.(trees := cleared.trees[p.tree := added]), true) else (cleared, false)
      else if cfg.integration !in w.repo.refs || answer == AddFailed then (cleared, false)
      else
        var branched := cleared.(repo := w.repo.(refs := w.repo.refs[p.branch := w.repo.refs[cfg.integration]]));
        if answer == WorktreeAdded then (branched.(trees := branched.trees[p.tree := added]), true)
        else (branched, false)
  }

  /** The part of `launch_task` after its worktree is there. */
  function StartTask(w: World, i: nat, provider: string, launch: bool, start: CallAnswer):
      (r: Result<(World, bool), Uncaught>)
    requires i < |w.ledger.tasks|
    ensures r.Ok? ==> Follows(w, r.value.0) && r.value.0 == w.(ledger := r.value.0.ledger)
  {
    var notes := NO_NOTES.(provider := Some(provider));
    if !launch then
      var planned :- Move(w, i, Ready, notes);
      Ok((planned, true))
    else
      var begun :- Move(w, i, Assigned, notes);
      if start == Throws then Err(Uncaught)
      else if start == Refuses then
        var blocked :- Move(begun, i, Blocked, notes);
        Ok((blocked, false))
      else
        var running :- Move(begun, i, Running, NO_NOTES);
        Ok((running, true))
  }

  /** The rest of `launch_task`, given how the calls up to the command ended. */
  function PreparedTask(w: World, prepared: CallAnswer, i: nat, provider: string, launch: bool, start: CallAnswer):
      (r: Result<(World, bool), Uncaught>)
    requires i < |w.ledger.tasks|
    ensures r.Ok? ==> Follows(w, r.value.0) && r.value.0 == w.(ledger := r.value.0.ledger)
  {
    if prepared == Throws then Err(Uncaught)
    else if prepared == Returns then StartTask(w, i, provider, launch, start)
    else
      var blocked :- Move(w, i, Blocked, NO_NOTES.(provider := Some(provider)));
      Ok((blocked, false))
  }

  /** `launch_task`, with the caller's handler: the world and whether it launched. */
  function LaunchTask(cfg: Config, w: World, i: nat, p: Package, provider: string, launch: bool, a: LaunchAnswers):
      (r: Result<(World, bool), Uncaught>)
    requires i < |w.ledger.tasks|
    ensures r.Ok? ==> Follows(w, r.value.0) && SameHead(cfg, w, r.value.0)
  {
    var repair := w.ledger.tasks[i].status == HandoffNeeded && p.tree in w.trees;
    var called := w.(launches := w.launches + [w.ledger.tasks[i].packageId]);
    if a.adapter != Returns then PreparedTask(called, a.adapter, i, provider, launch, a.start)
    else if InTheWay(w, p) && !a.clears then Err(Uncaught)
    else
      var (ready, ok) := EnsureWorktree(cfg, called, p, repair, a.worktree);
      PreparedTask(ready, if ok then a.command else Refuses, i, provider, launch, a.start)
  }

  predicate Launchable(s: Status) {
    s == Ready || s == HandoffNeeded || s == CooldownWait
  }

  /** `_pause_for_quota` */
  function PauseForQuota(cfg: Config, w: World, i: nat, p: Package, provider: string, c: CheckpointAnswer): (r: Outcome)
    requires i < |w.ledger.tasks|
    ensures r.Ok? ==> Follows(w, r.value) && SameHead(cfg, w, r.value)
  {
    Move(Checkpointed(cfg, w, p, c), i, HandoffNeeded,
         NO_NOTES.(provider := Some(provider), failureKind := Some(PauseThreshold)))
  }

  function LaunchWith(cfg: Config, w: World, i: nat, p: Package, provider: string, launch: bool, a: LaunchAnswers):
      (r: Result<(World, bool), Uncaught>)
    requires i < |w.ledger.tasks|
    ensures r.Ok? ==> Follows(w, r.value.0) && SameHead(cfg, w, r.value.0)
  {
    if a.quotaRefuses then
      var paused :- PauseForQuota(cfg, w, i, p, provider, a.checkpoint);
      Ok((paused, false))
    else LaunchTask(cfg, w, i, p, provider, launch, a)
  }

  function LaunchOne(cfg: Config, w: World, i: nat, launch: bool, a: LaunchAnswers):
      (r: Result<(World, bool), Uncaught>)
    requires i < |w.ledger.tasks|
    ensures r.Ok? ==> Follows(w, r.value.0) && SameHead(cfg, w, r.value.0)
  {
    var t := w.ledger.tasks[i];
    if !Launchable(t.status) then Ok((w, false))
    else if t.packageId !in cfg.packages then
      var failed :- Move(w, i, Failed, NO_NOTES);
      Ok((failed, false))
    else if a.provider.None? then
      var blocked :- Move(w, i, Blocked, NO_NOTES);
      Ok((blocked, false))
    else LaunchWith(cfg, w, i, cfg.packages[t.packageId], a.provider.value, launch, a)
  }

  type Launcher = nat -> LaunchAnswers

  /** The launch loop from task `i` on with `slots` left. */
  function LaunchFrom(cfg: Config, w: World, i: nat, n: nat, slots: nat, launch: bool, answers: Launcher): (r: Outcome)
    requires i <= n <= |w.ledger.tasks|
    ensures r.Ok? ==> Follows(w, r.value) && SameHead(cfg, w, r.value)
    decreases n - i
  {
    if i == n || slots == 0 then Ok(w)
    else
      var (next, launched) :- LaunchOne(cfg, w, i, launch, answers(i));
      LaunchFrom(cfg, next, i + 1, n, if launched then slots - 1 else slots, launch, answers)
  }

  /** The launch loop leads from `w` at task `i` to `r`. A proof has to mention `Seen`
      to unfold the definition; `LeadsToUnfolds` is the one place that does. */
  ghost predicate LeadsTo(cfg: Config, w: World, i: nat, n: nat, slots: nat, launch: bool, answers: Launcher,
                          r: Outcome)
  {
    forall v {:trigger Seen(v)} | v == w ::
      i <= n <= |v.ledger.tasks| && LaunchFrom(cfg, v, i, n, slots, launch, answers) == r
  }

  lemma LeadsToUnfolds(cfg: Config, w: World, i: nat, n: nat, slots: nat, launch: bool, answers: Launcher, r: Outcome)
    requires LeadsTo(cfg, w, i, n, slots, launch, answers, r)
    ensures i <= n <= |w.ledger.tasks| && LaunchFrom(cfg, w, i, n, slots, launch, answers) == r
  {
    assert Seen(w);
  }

  lemma LoopEnds(cfg: Config, w: World, i: nat, n: nat, slots: nat, launch: bool, answers: Launcher, r: Outcome)
    requires LeadsTo(cfg, w, i, n, slots, launch, answers, r) && (i == n || slots == 0)
    ensures r == Ok(w)
  {
    LeadsToUnfolds(cfg, w, i, n, slots, launch, answers, r);
  }

  function Slots(cfg: Config, tasks: seq<Task>): nat {
    if cfg.concurrency > ActiveCount(tasks) then cfg.concurrency - ActiveCount(tasks) else 0
  }

  // ---- controller_tick -------------------------------------------------

  /** What one tick is told from outside. */
  datatype TickInput = TickInput(
    planApproved: bool,
    contextReady: bool,
    launch: bool,
    integrate: bool,
    reconciling: Observer,
    deciding: Observer,
    answers: I.Answers,
    launching: Launcher)

  /** The second half: at most one integration, then launches into free slots. */
  ghost function MergeAndLaunch(cfg: Config, w: World, input: TickInput): (r: Outcome)
    requires ValidConfig(cfg) && ValidRepo(w.repo) && FitsSuite(cfg.commands, input.answers.env)
    ensures r.Ok? ==> Follows(w, r.value)
  {
    var integrated :- if input.integrate then IntegratePhase(cfg, w, input.answers) else Ok(w);
    var tasks := integrated.ledger.tasks;
    LaunchFrom(cfg, integrated, 0, |tasks|, Slots(cfg, tasks), input.launch, input.launching)
  }

  /** The first half: hydration, reconciliation and supervisor decisions. */
  ghost function Settle(cfg: Config, w: World, input: TickInput): (r: Outcome)
    requires ValidConfig(cfg) && ValidRepo(w.repo)
    ensures r.Ok? ==> Follows(w, r.value) && SameHead(cfg, w, r.value)
  {
    var hydrated :- Hydrate(cfg, w);
    var reconciled :- ReconcileFrom(cfg, hydrated, 0, |hydrated.ledger.tasks|, input.reconciling);
    if cfg.hermes then Ok(reconciled)
    else DecideFrom(cfg, reconciled, 0, |reconciled.ledger.tasks|, input.deciding)
  }

  ghost function ControllerTick(cfg: Config, w: World, input: TickInput): (r: Outcome)
    requires ValidConfig(cfg) && ValidRepo(w.repo) && FitsSuite(cfg.commands, input.answers.env)
    ensures r.Ok? ==> Follows(w, r.value)
  {
    if !input.planApproved || !input.contextReady then Ok(w)
    else
      var settled :- Settle(cfg, w, input);
      MergeAndLaunch(cfg, settled, input)
  }
}
