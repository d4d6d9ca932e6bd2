/** Where every package stands, derived from Git, worktrees and the ledger
    (scheduler/classifier.py). */
module Classifier {
  import Dag
  import opened Git
  import opened History
  import I = Integration
  import opened Ledger
  import opened Project
  import opened Text
  import opened Wrappers

  datatype Kind =
    | RepairRequired | MergedIn | Active | IntegrationBlocked | IntegrationQueued | ExecutionReady | Waiting

  datatype PackageState = PackageState(
    id: string,
    kind: Kind,
    unmet: seq<string>,
    branch: string,
    head: Option<CommitId>,
    taskId: Option<string>)

  /** `ACTIVE_TASK_STATES` of the task backend. */
  predicate BackendActive(s: Status) {
    match s
    case Ready | Assigned | Running | HandoffNeeded | CooldownWait | Validating | Validated
       | ReviewReady | Reviewing | ReviewPassed | MergeReady | MergeApproved | Integrating | Blocked => true
    case Unlisted(name) => name == "review" || name == "scheduled" || name == "todo" || name == "triage"
    case _ => false
  }

  predicate Dirty(trees: map<string, Tree>, p: Package) {
    p.tree in trees && trees[p.tree].usable && trees[p.tree].dirty
  }

  /** `git log integration..branch` is not empty. */
  predicate HasNewCommits(repo: RepoState, p: Package, integration: string)
    requires ValidRepo(repo)
  {
    p.branch in repo.refs && integration in repo.refs && !IsAncestor(repo, p.branch, integration)
  }

  predicate MergedId(cfg: Config, repo: RepoState, id: string)
    requires ValidRepo(repo)
  {
    id in cfg.packages && InMerged(repo, cfg.packages[id].branch, cfg.integration)
  }

  function Unmet(cfg: Config, repo: RepoState, deps: seq<string>): (unmet: seq<string>)
    requires ValidRepo(repo)
    ensures forall d :: d in unmet <==> d in deps && !MergedId(cfg, repo, d)
  {
    if deps == [] then []
    else (if MergedId(cfg, repo, deps[0]) then [] else [deps[0]]) + Unmet(cfg, repo, deps[1..])
  }

  function Classify(cfg: Config, repo: RepoState, trees: map<string, Tree>, tasks: seq<Task>, id: string): PackageState
    requires ValidRepo(repo) && id in cfg.packages
  {
    var p := cfg.packages[id];
    var task := TaskForPackage(tasks, id);
    var unmet := Unmet(cfg, repo, p.deps);
    var commits := HasNewCommits(repo, p, cfg.integration);
    var kind :=
      if Dirty(trees, p) then RepairRequired
      else if MergedId(cfg, repo, id) then MergedIn
      else if task.Some? && BackendActive(task.value.status) then Active
      else if commits && unmet != [] then IntegrationBlocked
      else if commits then IntegrationQueued
      else if unmet == [] then ExecutionReady
      else Waiting;
    PackageState(id, kind, unmet, p.branch,
                 if p.branch in repo.refs then Some(repo.refs[p.branch]) else None,
                 if task.Some? then Some(task.value.id) else None)
  }

  function ClassifyEach(cfg: Config, repo: RepoState, trees: map<string, Tree>, tasks: seq<Task>, ids: seq<string>):
      (states: seq<PackageState>)
    requires ValidRepo(repo) && forall id | id in ids :: id in cfg.packages
    ensures |states| == |ids|
    ensures forall i | 0 <= i < |ids| :: states[i] == Classify(cfg, repo, trees, tasks, ids[i])
  {
    seq(|ids|, i requires 0 <= i < |ids| => Classify(cfg, repo, trees, tasks, ids[i]))
  }

  lemma SortedPackages(cfg: Config)
    requires ValidConfig(cfg)
    ensures forall id :: id in Sorted(cfg.order) <==> id in cfg.packages
    ensures Distinct(Sorted(cfg.order)) && Ascending(Sorted(cfg.order))
  {
    SortedMembers(cfg.order);
  }

  ghost predicate DagValid(cfg: Config) {
    Dag.Known(GraphOf(cfg)) && Dag.Acyclic(GraphOf(cfg))
  }

  /** `classify_packages`: refused for an invalid dependency graph, otherwise one
      state a package, by ascending id. */
  method ClassifyPackages(cfg: Config, repo: RepoState, trees: map<string, Tree>, tasks: seq<Task>)
      returns (r: Option<seq<PackageState>>)
    requires ValidConfig(cfg) && ValidRepo(repo)
    ensures forall id | id in Sorted(cfg.order) :: id in cfg.packages
    ensures r == if DagValid(cfg) then Some(ClassifyEach(cfg, repo, trees, tasks, Sorted(cfg.order))) else None
  {
    SortedPackages(cfg);
    var check := Dag.ValidateDag(GraphOf(cfg));
    if check.Err? {
      return None;
    }
    var states := ClassifyLoop(cfg, repo, trees, tasks, Sorted(cfg.order));
    return Some(states);
  }

  method ClassifyLoop(cfg: Config, repo: RepoState, trees: map<string, Tree>, tasks: seq<Task>, ids: seq<string>)
      returns (states: seq<PackageState>)
    requires ValidRepo(repo) && forall id | id in ids :: id in cfg.packages
    ensures states == ClassifyEach(cfg, repo, trees, tasks, ids)
  {
    states := [];
    for i := 0 to |ids|
      invariant forall id | id in ids[..i] :: id in cfg.packages
      invariant states == ClassifyEach(cfg, repo, trees, tasks, ids[..i])
    {
      ClassifyOneMore(cfg, repo, trees, tasks, ids, i);
      states := states + [Classify(cfg, repo, trees, tasks, ids[i])];
    }
    assert ids[..|ids|] == ids;
  }

  lemma ClassifyOneMore(cfg: Config, repo: RepoState, trees: map<string, Tree>, tasks: seq<Task>,
                         ids: seq<string>, i: nat)
    requires ValidRepo(repo) && (forall id | id in ids :: id in cfg.packages) && i < |ids|
    ensures forall id | id in ids[..i + 1] :: id in cfg.packages
    ensures ids[i] in cfg.packages
    ensures ClassifyEach(cfg, repo, trees, tasks, ids[..i + 1])
            == ClassifyEach(cfg, repo, trees, tasks, ids[..i]) + [Classify(cfg, repo, trees, tasks, ids[i])]
  {
    assert ids[..i + 1] == ids[..i] + [ids[i]];
  }

  /** Statuses of a task that is in flight, as the task backend lists them. */
  const IN_FLIGHT: set<Status> := {
    Ready, Assigned, Running, HandoffNeeded, CooldownWait, Validating, Validated, ReviewReady, Reviewing,
    ReviewPassed, MergeReady, MergeApproved, Integrating, Blocked,
    Unlisted("review"), Unlisted("scheduled"), Unlisted("todo"), Unlisted("triage")
  }

  /** The package's worktree is usable and has uncommitted changes. */
  ghost predicate Changed(trees: map<string, Tree>, p: Package) {
    p.tree in trees && trees[p.tree].usable && trees[p.tree].dirty
  }

  ghost predicate BothExist(cfg: Config, repo: RepoState, p: Package) {
    p.branch in repo.refs && cfg.integration in repo.refs
  }

  /** The integration branch contains the package's branch. */
  ghost predicate Contained(cfg: Config, repo: RepoState, p: Package)
    requires ValidRepo(repo)
  {
    BothExist(cfg, repo, p) && Reaches(repo.commits, repo.refs[cfg.integration], repo.refs[p.branch])
  }

  /** Contained, and not itself the integration head. */
  ghost predicate Behind(cfg: Config, repo: RepoState, p: Package)
    requires ValidRepo(repo)
  {
    Contained(cfg, repo, p) && repo.refs[p.branch] != repo.refs[cfg.integration]
  }

  ghost predicate InFlight(tasks: seq<Task>, id: string) {
    TaskForPackage(tasks, id).Some? && TaskForPackage(tasks, id).value.status in IN_FLIGHT
  }

  ghost predicate Idle(cfg: Config, repo: RepoState, trees: map<string, Tree>, tasks: seq<Task>, p: Package, id: string)
    requires ValidRepo(repo)
  {
    !Changed(trees, p) && !Behind(cfg, repo, p) && !InFlight(tasks, id)
  }

  /** The kinds, exactly. Dirt in a usable worktree comes first, then a branch contained
      in the integration branch without being its head, then a found task in flight. An
      idle package is told apart by commits of its branch that the integration branch
      lacks, and by whether every dependency is merged. */
  lemma ClassificationMeans(cfg: Config, repo: RepoState, trees: map<string, Tree>, tasks: seq<Task>, id: string)
    requires ValidRepo(repo) && id in cfg.packages
    ensures var kind, p := Classify(cfg, repo, trees, tasks, id).kind, cfg.packages[id];
            var idle := Idle(cfg, repo, trees, tasks, p, id);
            var ahead := BothExist(cfg, repo, p) && !Contained(cfg, repo, p);
            var ready := forall d | d in p.deps :: d in cfg.packages && Behind(cfg, repo, cfg.packages[d]);
            && (kind == RepairRequired <==> Changed(trees, p))
            && (kind == MergedIn <==> !Changed(trees, p) && Behind(cfg, repo, p))
            && (kind == Active <==> !Changed(trees, p) && !Behind(cfg, repo, p) && InFlight(tasks, id))
            && (kind == IntegrationBlocked <==> idle && ahead && !ready)
            && (kind == IntegrationQueued <==> idle && ahead && ready)
            && (kind == ExecutionReady <==> idle && !ahead && ready)
            && (kind == Waiting <==> idle && !ahead && !ready)
  {
    var s, p := Classify(cfg, repo, trees, tasks, id), cfg.packages[id];
    assert s.unmet != [] ==> s.unmet[0] in s.unmet;
    forall d ensures MergedId(cfg, repo, d) <==> d in cfg.packages && Behind(cfg, repo, cfg.packages[d]) {
      MergedIdMeans(cfg, repo, d);
    }
    assert forall d | d in p.deps :: d in s.unmet || MergedId(cfg, repo, d);
    var found := TaskForPackage(tasks, id);
    if found.Some? {
      ActiveStatuses(found.value.status);
    }
  }

  lemma MergedIdMeans(cfg: Config, repo: RepoState, id: string)
    requires ValidRepo(repo)
    ensures MergedId(cfg, repo, id) <==> id in cfg.packages && Behind(cfg, repo, cfg.packages[id])
  {
  }

  /** Beside its kind a classification carries the package's branch, that branch's head
      if there is one, the task found for the package and the dependencies that are not
      merged. */
  lemma ClassificationNames(cfg: Config, repo: RepoState, trees: map<string, Tree>, tasks: seq<Task>, id: string)
    requires ValidRepo(repo) && id in cfg.packages
    ensures var s, b := Classify(cfg, repo, trees, tasks, id), cfg.packages[id].branch;
            && s.id == id && s.branch == b
            && (s.head.Some? <==> b in repo.refs) && (s.head.Some? ==> s.head.value == repo.refs[b])
            && (s.taskId.Some? <==> TaskForPackage(tasks, id).Some?)
            && (s.taskId.Some? ==> s.taskId.value == TaskForPackage(tasks, id).value.id)
            && (forall d :: d in s.unmet <==>
                  d in cfg.packages[id].deps && !(d in cfg.packages && Behind(cfg, repo, cfg.packages[d])))
  {
    forall d ensures MergedId(cfg, repo, d) <==> d in cfg.packages && Behind(cfg, repo, cfg.packages[d]) {
      MergedIdMeans(cfg, repo, d);
    }
  }

  lemma ActiveStatuses(s: Status)
    ensures BackendActive(s) <==> s in IN_FLIGHT
  {
  }

  /** After `integrate_one` merged a package whose branch was not checked out, the
      classifier reports it as merged unless its worktree has been dirtied. */
  lemma IntegrationIsClassifiedAsMerged(cfg: Config, repo: RepoState, call: I.Call, a: I.Answers,
                                        trees: map<string, Tree>, tasks: seq<Task>, id: string)
    requires id in cfg.packages && call.branch == cfg.packages[id].branch && call.integration == cfg.integration
    requires I.Fits(repo, call, a) && cfg.integration in repo.refs && I.Integrate(repo, call, a).1.Merged?
    requires CurrentBranch(repo) != Some(call.branch) && !Dirty(trees, cfg.packages[id])
    ensures ValidRepo(I.Integrate(repo, call, a).0)
    ensures Classify(cfg, I.Integrate(repo, call, a).0, trees, tasks, id).kind == MergedIn
  {
    MergedAgreesWithClassifier(repo, call, a);
  }
}
