/** The controller as it runs: methods that change the ledger, the repository and
    the worktrees step by step, going over lists and dictionaries loaded before the
    changes, and refine the functions of `Tick` (engine/controller.py,
    provisioning/worktrees.py, cli/main.py). */
module Controller {
  import opened Classifier
  import opened Gates
  import opened Git
  import I = Integration
  import opened Invariants
  import opened Ledger
  import opened Project
  import opened Runner
  import Runs
  import opened Text
  import opened Tick
  import opened Wrappers

  /** At most the record of task `i` changed, and not its id. */
  ghost predicate OnlyTask(before: seq<Task>, after: seq<Task>, i: nat) {
    && |after| == |before| && i < |before| && after[i].id == before[i].id
    && forall j | 0 <= j < |before| && j != i :: after[j] == before[j]
  }

  ghost predicate FreshAt(loaded: seq<Task>, stored: seq<Task>, j: nat)
    requires j < |loaded| == |stored|
  {
    loaded[j] == stored[j]
  }

  /** From `i` on, the list loaded earlier is what is stored now. */
  ghost predicate FreshFrom(loaded: seq<Task>, stored: seq<Task>, i: nat) {
    && |stored| == |loaded| && i <= |loaded|
    && forall j {:trigger FreshAt(loaded, stored, j)} | i <= j < |loaded| :: FreshAt(loaded, stored, j)
  }

  lemma FreshAfter(loaded: seq<Task>, before: seq<Task>, after: seq<Task>, i: nat)
    requires i < |loaded| && FreshFrom(loaded, before, i) && OnlyTask(before, after, i)
    ensures FreshFrom(loaded, after, i + 1)
  {
    forall j | i + 1 <= j < |loaded| ensures FreshAt(loaded, after, j) {
      assert FreshAt(loaded, before, j);
    }
  }

  /** The dictionary holds what is stored under `id`, or neither holds anything. */
  ghost predicate AgreeOn(byId: map<string, Task>, tasks: seq<Task>, id: string) {
    var i := IndexOf(tasks, id);
    (id in byId <==> i < |tasks|) && (id in byId ==> byId[id] == tasks[i])
  }

  ghost predicate InStep(byId: map<string, Task>, tasks: seq<Task>) {
    forall id {:trigger AgreeOn(byId, tasks, id)} :: AgreeOn(byId, tasks, id)
  }

  lemma AgreeElsewhere(byId: map<string, Task>, before: seq<Task>, after: seq<Task>, i: nat, id: string)
    requires OnlyTask(before, after, i) && id != before[i].id && AgreeOn(byId, before, id)
    ensures AgreeOn(byId, after, id)
  {
    var a, b := IndexOf(before, id), IndexOf(after, id);
    assert forall j | 0 <= j < |before| :: after[j].id == before[j].id;
    assert a == b;
  }

  lemma IndexAppended(tasks: seq<Task>, t: Task, id: string)
    ensures IndexOf(tasks + [t], id) ==
              if IndexOf(tasks, id) < |tasks| || t.id == id then IndexOf(tasks, id) else |tasks| + 1
  {
    var more, i, j := tasks + [t], IndexOf(tasks, id), IndexOf(tasks + [t], id);
    assert i < |tasks| ==> more[i].id == id;
    assert j < |tasks| ==> tasks[j].id == id;
    assert more[|tasks|] == t;
  }

  lemma AgreeAppended(byId: map<string, Task>, tasks: seq<Task>, t: Task, id: string)
    requires AgreeOn(byId, tasks, id) && IndexOf(tasks, t.id) == |tasks|
    ensures AgreeOn(byId[t.id := t], tasks + [t], id)
  {
    IndexAppended(tasks, t, id);
  }

  lemma EnsureInStep(byId: map<string, Task>, l: LedgerState, packageId: string, name: string)
    requires InStep(byId, l.tasks) && DistinctIds(l.tasks)
    ensures var m := Ensured(l, packageId, name);
            var e := Existing(m.tasks, packageId);
            && DistinctIds(m.tasks) && e < |m.tasks| && InStep(byId[m.tasks[e].id := m.tasks[e]], m.tasks)
  {
    var m, e := Ensured(l, packageId, name), Existing(l.tasks, packageId);
    if e < |l.tasks| {
      var t := l.tasks[e];
      assert AgreeOn(byId, l.tasks, t.id) && IndexOf(l.tasks, t.id) == e;
      assert byId[t.id := t] == byId;
    } else {
      var t := NewTask(packageId, name);
      assert m.tasks[|l.tasks|] == t && Existing(m.tasks, packageId) == |l.tasks|;
      var more := byId[t.id := t];
      forall id ensures AgreeOn(more, m.tasks, id) {
        assert AgreeOn(byId, l.tasks, id);
        AgreeAppended(byId, l.tasks, t, id);
      }
    }
  }

  class Kernel {
    const cfg: Config
    const store: TaskStore
    const repo: Repository
    var trees: map<string, Tree>
    ghost var launches: seq<string>
    ghost var attempts: seq<Attempt>
    ghost var approvals: set<string>
    ghost var landed: set<string>

    constructor (cfg: Config, store: TaskStore, repo: Repository, trees: map<string, Tree>)
      requires ValidRepo(repo.State()) && DistinctIds(store.tasks)
      ensures this.cfg == cfg && this.store == store && this.repo == repo && Valid()
      ensures Now() == World(store.State(), repo.State(), trees, [], [], {}, {})
    {
      this.cfg, this.store, this.repo, this.trees := cfg, store, repo, trees;
      launches, attempts, approvals, landed := [], [], {}, {};
    }

    ghost function Now(): World
      reads this, store, repo
    {
      World(store.State(), repo.State(), trees, launches, attempts, approvals, landed)
    }

    ghost predicate Valid()
      reads this, store, repo
    {
      ValidRepo(repo.State()) && DistinctIds(store.tasks)
    }

    /** `task` is the caller's copy of the stored task `i`, and it is fresh. */
    ghost predicate Holds(task: Task, i: nat)
      reads store
    {
      i < |store.tasks| && store.tasks[i] == task && DistinctIds(store.tasks)
    }

    /** `transition_task`: whether it raised, and the caller's copy afterwards. */
    method TransitionTo(task: Task, status: Status, notes: Notes, ghost i: nat) returns (raised: bool, updated: Task)
      requires Holds(task, i)
      modifies store
      ensures raised <==> Move(old(Now()), i, status, notes).Err?
      ensures !raised ==>
                && Now() == Move(old(Now()), i, status, notes).value
                && Holds(updated, i) && OnlyTask(old(store.tasks), store.tasks, i)
    {
      MoveIsTransition(Now(), i, status, notes);
      var r := store.TransitionTask(task, status, Note(notes));
      raised, updated := r.Err?, if r.Ok? then r.value else task;
    }

    // ---- hydrate_task_state --------------------------------------------

    method EnsureTasks(loaded: map<string, Task>) returns (byId: map<string, Task>)
      requires ValidConfig(cfg) && Valid() && InStep(loaded, store.tasks)
      modifies store
      ensures Valid() && InStep(byId, store.tasks)
      ensures Now() == old(Now()).(ledger := EnsureAll(old(store.State()), cfg, cfg.order))
    {
      byId := loaded;
      for i := 0 to |cfg.order|
        invariant Valid() && InStep(byId, store.tasks) && Now() == old(Now()).(ledger := store.State())
        invariant EnsureAll(old(store.State()), cfg, cfg.order) == EnsureAll(store.State(), cfg, cfg.order[i..])
      {
        var id := cfg.order[i];
        assert cfg.order[i..][0] == id && cfg.order[i..][1..] == cfg.order[i + 1..];
        EnsureInStep(byId, store.State(), id, cfg.packages[id].name);
        var task := store.EnsureTask(id, cfg.packages[id].name);
        byId := byId[task.id := task];
      }
    }

    /** Goes over the classification with the task dicts loaded before it. */
    method HydrateStates(byId: map<string, Task>, states: seq<PackageState>) returns (raised: bool)
      requires Valid() && InStep(byId, store.tasks)
      requires forall j, k | 0 <= j < k < |states| :: states[j].id != states[k].id
      modifies store
      ensures var r := HydrateEach(old(Now()), states); raised == r.Err? && (!raised ==> Now() == r.value && Valid())
    {
      raised := false;
      assert forall k | 0 <= k < |states| :: AgreeOn(byId, store.tasks, TaskIdFor(states[k].id));
      for i := 0 to |states|
        invariant Valid() && HydrateEach(old(Now()), states) == HydrateEach(Now(), states[i..])
        invariant forall k | i <= k < |states| :: AgreeOn(byId, store.tasks, TaskIdFor(states[k].id))
      {
        var s, id := states[i], TaskIdFor(states[i].id);
        assert states[i..][0] == s && states[i..][1..] == states[i + 1..];
        var target := if id in byId then HydrateTarget(byId[id].status, s.kind) else None;
        if target.Some? {
          ghost var before, at := store.tasks, IndexOf(store.tasks, id);
          var updated;
          raised, updated := TransitionTo(byId[id], target.value, NO_NOTES, at);
          if raised {
            return;
          }
          forall k | i < k < |states| ensures AgreeOn(byId, store.tasks, TaskIdFor(states[k].id)) {
            assert TaskIdFor(states[k].id)[5..] == states[k].id && id[5..] == s.id;
            AgreeElsewhere(byId, before, store.tasks, at, TaskIdFor(states[k].id));
          }
        }
      }
      assert states[|states|..] == [];
    }

    method HydrateTaskState() returns (raised: bool)
      requires ValidConfig(cfg) && Valid()
      modifies this`landed, store
      ensures var r := Hydrate(cfg, old(Now())); raised == r.Err? && (!raised ==> Now() == r.value && Valid())
    {
      SortedPackages(cfg);
      var byId := ById(store.tasks);
      byId := EnsureTasks(byId);
      var states := ClassifyPackages(cfg, repo.State(), trees, store.tasks);
      if states.None? {
        return true;
      }
      landed := landed + MergedIds(cfg, repo.State());
      raised := HydrateStates(byId, states.value);
    }

    // ---- Checkpoints and handoffs --------------------------------------

    method Checkpoint(p: Package, c: CheckpointAnswer)
      requires Valid()
      modifies this`trees, repo
      ensures Now() == Checkpointed(cfg, old(Now()), p, c) && Valid()
    {
      if c.CheckpointMade? && p.tree in trees && trees[p.tree].branch in repo.refs
         && trees[p.tree].branch != cfg.integration {
        var b := trees[p.tree].branch;
        CheckpointValid(repo.State(), b, Commit(c.hash, [repo.refs[b]], c.files));
        var commit := Commit(c.hash, [repo.refs[b]], c.files);
        repo.refs := repo.refs[b := |repo.commits|];
        repo.commits := repo.commits + [commit];
        trees := trees[p.tree := trees[p.tree].(dirty := c.dirty)];
      }
    }

    method HandOffOrBlock(task: Task, p: Package, provider: string, kind: FailureKind, hasNext: bool,
                          c: CheckpointAnswer, ghost i: nat) returns (raised: bool)
      requires Valid() && Holds(task, i)
      modifies this`trees, store, repo
      ensures var r := HandoffOrBlock(cfg, old(Now()), i, p, provider, kind, hasNext, c);
              && raised == r.Err?
              && (!raised ==> Now() == r.value && Valid() && OnlyTask(old(store.tasks), store.tasks, i))
    {
      Checkpoint(p, c);
      var notes := NO_NOTES.(lastProvider := Some(provider), failureKind := Some(kind));
      var updated;
      raised, updated := TransitionTo(task, if hasNext then HandoffNeeded else Blocked, notes, i);
    }

    // ---- reconcile_processes -------------------------------------------

    method RequireADecision(task: Task, kind: FailureKind, ghost i: nat) returns (raised: bool)
      requires Valid() && Holds(task, i)
      modifies store
      ensures var r := RequireDecision(old(Now()), i, kind);
              && raised == r.Err?
              && (!raised ==> Now() == r.value && Valid() && OnlyTask(old(store.tasks), store.tasks, i))
    {
      var notes := NO_NOTES.(failureKind := Some(kind), allowed := Some(AllowedActions(kind)));
      var updated;
      raised, updated := TransitionTo(task, DecisionRequired, notes, i);
    }

    /** A completed result: check the claim, validate the package, review it. */
    method ReconcileClaim(task: Task, p: Package, provider: string, report: Report, o: Observation, ghost i: nat)
        returns (raised: bool)
      requires Valid() && Holds(task, i)
      modifies this`trees, store, repo
      ensures var r := ReconcileCompleted(cfg, old(Now()), i, p, provider, report, o);
              && raised == r.Err?
              && (!raised ==> Now() == r.value && Valid() && OnlyTask(old(store.tasks), store.tasks, i))
    {
      var tree := if p.tree in trees then Some(trees[p.tree]) else None;
      var verdict := ValidateCompletedPackage(p, report, repo.State(), tree);
      match verdict
      case GitFailed =>
        raised := true;
      case Refused =>
        raised := HandOffOrBlock(task, p, provider, ValidationFailure, o.hasNext, o.checkpoint, i);
      case Accepted(commit, files) =>
        raised := ReviewClaim(task, p, provider, commit, files, o, i);
    }

    /** The validation commands have run in the package's worktree. */
    method NoteTested(p: Package, dirty: bool)
      modifies this`trees
      ensures Now() == Tested(old(Now()), p, dirty)
    {
      if p.tree in trees {
        trees := trees[p.tree := trees[p.tree].(dirty := dirty)];
      }
    }

    method ReviewClaim(task: Task, p: Package, provider: string, commit: CommitId, files: seq<string>,
                       o: Observation, ghost i: nat) returns (raised: bool)
      requires Valid() && Holds(task, i)
      modifies this`trees, store, repo
      ensures var r := ReconcileAccepted(cfg, old(Now()), i, p, provider, commit, files, o);
              && raised == r.Err?
              && (!raised ==> Now() == r.value && Valid() && OnlyTask(old(store.tasks), store.tasks, i))
    {
      NoteTested(p, o.suite != SuitePassed && o.leavesDirty);
      if o.suite == SuiteBroke {
        return true;
      }
      if o.suite == SuiteRaised {
        raised := HandOffOrBlock(task, p, provider, ValidationFailure, o.hasNext, o.checkpoint, i);
        return;
      }
      var validated := o.suite == SuitePassed;
      var current := task;
      raised, current :=
        TransitionTo(current, Reviewing, NO_NOTES.(commit := Some(commit), validated := Some(validated)), i);
      if raised {
        return;
      }
      var passed, findings := RunPackageReview(p, provider, o.reviewer, files, validated);
      if !passed {
        raised := HandOffOrBlock(current, p, provider, ReviewFailure, o.hasNext, o.checkpoint, i);
        return;
      }
      var next := if RequiresHumanMergeApproval(p) then MergeReady else ReviewPassed;
      raised, current := TransitionTo(current, next, NO_NOTES.(commit := Some(commit), reviewed := Some(true)), i);
    }

    method ReconcileFoundResult(task: Task, p: Package, provider: string, o: Observation, ghost i: nat)
        returns (raised: bool)
      requires Valid() && Holds(task, i)
      modifies this`trees, store, repo
      ensures var r := ReconcileResult(cfg, old(Now()), i, p, provider, o);
              && raised == r.Err?
              && (!raised ==> Now() == r.value && Valid() && OnlyTask(old(store.tasks), store.tasks, i))
    {
      if o.result.CompletedResult? {
        raised := ReconcileClaim(task, p, provider, o.result.report, o, i);
      } else {
        var updated;
        raised, updated := TransitionTo(task, if o.result.BlockedResult? then Blocked else Failed, NO_NOTES, i);
      }
    }

    method ReconcileMissingResult(task: Task, p: Package, o: Observation, ghost i: nat) returns (raised: bool)
      requires Valid() && Holds(task, i) && o.process.Process?
      modifies this`trees, store, repo
      ensures var r := ReconcileProcess(cfg, old(Now()), i, p, o);
              && raised == r.Err?
              && (!raised ==> Now() == r.value && Valid() && OnlyTask(old(store.tasks), store.tasks, i))
    {
      raised := false;
      if o.process.alive {
        return;
      }
      if o.process.tmuxWaiting {
        if o.process.stale {
          raised := RequireADecision(task, StaleRunningProcess, i);
        }
        return;
      }
      var committed := p.tree in trees && !trees[p.tree].dirty && p.branch in repo.refs
                       && trees[p.tree].branch in repo.refs && cfg.integration in repo.refs
                       && repo.refs[trees[p.tree].branch] != repo.refs[cfg.integration];
      if !committed {
        raised := RequireADecision(task, FromLog(if o.quoting then WrapperQuoting else o.logKind), i);
      } else if cfg.hermes {
        raised := RequireADecision(task, MissingResultWithCommit, i);
      } else if o.completion.CompletionFailed? {
        raised := RequireADecision(task, FromLog(o.completion.kind), i);
      } else {
        raised := o.completion.CompletionRaised?;
        NoteTested(p, o.leavesDirty);
      }
    }

    method ReconcileTask(task: Task, o: Observation, ghost i: nat) returns (raised: bool)
      requires Valid() && Holds(task, i)
      modifies this`trees, store, repo
      ensures var r := ReconcileOne(cfg, old(Now()), i, o);
              && raised == r.Err?
              && (!raised ==> Now() == r.value && Valid() && OnlyTask(old(store.tasks), store.tasks, i))
    {
      raised := false;
      var current := task;
      if !ActiveState(task.status) || o.process.NotMapping? {
        return;
      }
      if o.process.NoProcess? {
        raised, current :=
          TransitionTo(current, DecisionRequired, NO_NOTES.(failureKind := Some(MissingProcessRecord)), i);
      } else if task.packageId !in cfg.packages {
        raised, current := TransitionTo(current, Failed, NO_NOTES, i);
      } else {
        var p := cfg.packages[task.packageId];
        var provider := task.notes.provider.GetOr(o.process.provider);
        if o.result.NoResult? {
          raised := ReconcileMissingResult(current, p, o, i);
        } else if o.result.Unusable? {
          raised := true;
        } else {
          raised, current := TransitionTo(current, Validating, NO_NOTES, i);
          if !raised {
            raised := ReconcileFoundResult(current, p, provider, o, i);
          }
        }
      }
    }

    /** Goes over the task list loaded at the start. */
    method ReconcileProcesses(observe: Observer) returns (raised: bool)
      requires Valid()
      modifies this`trees, store, repo
      ensures var r := ReconcileFrom(cfg, old(Now()), 0, |old(store.tasks)|, observe);
              raised == r.Err? && (!raised ==> Now() == r.value && Valid())
    {
      var tasks := store.tasks;
      for i := 0 to |tasks|
        invariant Valid() && FreshFrom(tasks, store.tasks, i)
        invariant ReconcileFrom(cfg, old(Now()), 0, |tasks|, observe) == ReconcileFrom(cfg, Now(), i, |tasks|, observe)
      {
        ghost var before := store.tasks;
        assert FreshAt(tasks, before, i);
        raised := ReconcileTask(tasks[i], observe(i), i);
        if raised {
          return;
        }
        FreshAfter(tasks, before, store.tasks, i);
      }
      raised := false;
    }

    // ---- _default_supervisor_decisions ---------------------------------

    method DecideTask(task: Task, o: Observation, ghost i: nat) returns (raised: bool)
      requires Valid() && Holds(task, i)
      modifies this`trees, store, repo
      ensures var r := DecideOne(cfg, old(Now()), i, o);
              && raised == r.Err?
              && (!raised ==> Now() == r.value && Valid() && OnlyTask(old(store.tasks), store.tasks, i))
    {
      raised := false;
      if task.status != DecisionRequired || task.packageId !in cfg.packages {
        return;
      }
      var kind, allowed := task.notes.failureKind.GetOr(Unclassified), task.notes.allowed.GetOr({});
      var provider, updated := KnownProvider(task), task;
      if kind == MissingResultWithCommit && NormalizeResult in allowed {
        raised := !o.normalizes;
        if !raised {
          raised, updated := TransitionTo(task, Validating, NO_NOTES, i);
        }
      } else if HandoffProvider in allowed && provider != "" {
        raised := HandOffOrBlock(task, cfg.packages[task.packageId], provider, kind, o.hasNext, o.checkpoint, i);
      } else {
        raised, updated := TransitionTo(task, if RetrySameProvider in allowed then Ready else Blocked, NO_NOTES, i);
      }
    }

    method DefaultDecisions(observe: Observer) returns (raised: bool)
      requires Valid()
      modifies this`trees, store, repo
      ensures var r := if cfg.hermes then Ok(old(Now()))
                       else DecideFrom(cfg, old(Now()), 0, |old(store.tasks)|, observe);
              raised == r.Err? && (!raised ==> Now() == r.value && Valid())
    {
      raised := false;
      if cfg.hermes {
        return;
      }
      var tasks := store.tasks;
      for i := 0 to |tasks|
        invariant Valid() && FreshFrom(tasks, store.tasks, i)
        invariant DecideFrom(cfg, old(Now()), 0, |tasks|, observe) == DecideFrom(cfg, Now(), i, |tasks|, observe)
      {
        ghost var before := store.tasks;
        assert FreshAt(tasks, before, i);
        raised := DecideTask(tasks[i], observe(i), i);
        if raised {
          return;
        }
        FreshAfter(tasks, before, store.tasks, i);
      }
      raised := false;
    }

    // ---- Integration ---------------------------------------------------

    /** `integration_candidates`; `None` when Git raised. */
    method IntegrationCandidates() returns (r: Option<seq<Candidate>>)
      requires ValidConfig(cfg) && Valid()
      ensures forall id | id in Sorted(cfg.order) :: id in cfg.packages
      ensures var states := ClassifyEach(cfg, repo.State(), trees, store.tasks, Sorted(cfg.order));
              var c := Candidates(store.tasks, states);
              r == if DagValid(cfg) && c.Ok? then Some(c.value) else None
    {
      var states := ClassifyPackages(cfg, repo.State(), trees, store.tasks);
      if states.None? {
        return None;
      }
      r := CollectCandidates(store.tasks, states.value);
    }

    /** Integrate the candidate, bracketed by the transitions of its task. */
    method IntegrateNext(c: Candidate, a: I.Answers) returns (raised: bool)
      requires Valid() && FitsSuite(cfg.commands, a.env) && c.head < |repo.commits|
      modifies this`attempts, this`landed, store, repo
      ensures var r := IntegrateCandidate(cfg, old(Now()), c, a);
              raised == r.Err? && (!raised ==> Now() == r.value && Valid())
    {
      var i := CandidateTask(store.tasks, c);
      attempts := attempts + [Attempt(c.packageId, LastOf(store.tasks, c.packageId))];
      var call := CallFor(cfg, repo.commits, c);
      raised := false;
      var updated: Option<Task> := None;
      if i < |store.tasks| {
        var current;
        raised, current := TransitionTo(store.tasks[i], Integrating, NO_NOTES, i);
        if raised {
          return;
        }
        updated := Some(current);
      }
      IntegrateFrame(repo.State(), call, a);
      ghost var begun := Now();
      var outcome := I.IntegrateOne(repo, call, a);
      if outcome.Raised? && !I.Caught(outcome.stage) {
        return true;
      }
      raised := ConcludeAttempt(c.packageId, updated, outcome.Raised?, i, begun);
    }

    /** After `integrate_one` has changed the repository of `begun`. */
    method ConcludeAttempt(packageId: string, task: Option<Task>, failed: bool, ghost i: nat, ghost begun: World)
        returns (raised: bool)
      requires Valid() && i <= |store.tasks| && (task.Some? <==> i < |store.tasks|)
      requires task.Some? ==> Holds(task.value, i)
      requires Now() == begun.(repo := repo.State())
      modifies this`landed, store
      ensures var r := FinishCandidate(begun, packageId, i, repo.State(), failed);
              raised == r.Err? && (!raised ==> Now() == r.value && Valid())
    {
      raised := false;
      landed := if failed then landed else landed + {packageId};
      if task.Some? {
        var current;
        raised, current := TransitionTo(task.value, if failed then Failed else Merged, NO_NOTES, i);
      }
    }

    method IntegrateFirst(a: I.Answers) returns (raised: bool)
      requires ValidConfig(cfg) && Valid() && FitsSuite(cfg.commands, a.env)
      modifies this`attempts, this`landed, store, repo
      ensures var r := IntegratePhase(cfg, old(Now()), a);
              raised == r.Err? && (!raised ==> Now() == r.value && Valid())
    {
      SortedPackages(cfg);
      var candidates := IntegrationCandidates();
      if candidates.None? {
        return true;
      }
      if candidates.value == [] {
        return false;
      }
      CandidateHeads(repo.State(), store.tasks, ClassifyEach(cfg, repo.State(), trees, store.tasks, Sorted(cfg.order)));
      raised := IntegrateNext(candidates.value[0], a);
    }

    // ---- ensure_worktree and launch_task -------------------------------

    /** `ensure_worktree`: whether it returned. */
    method PrepareWorktree(p: Package, repair: bool, answer: WorktreeAnswer) returns (ok: bool)
      requires Valid()
      modifies this`trees, repo`refs
      ensures (Now(), ok) == EnsureWorktree(cfg, old(Now()), p, repair, answer) && Valid()
    {
      if p.tree in trees {
        var existing := trees[p.tree];
        if existing.registered {
          return existing.branch == p.branch && (existing.dirty ==> repair);
        }
        if existing.gitMarker && existing.usable {
          return false;
        }
      }
      trees := trees - {p.tree};
      if repair {
        return false;
      }
      if p.branch !in repo.refs {
        if cfg.integration !in repo.refs || answer == AddFailed {
          return false;
        }
        repo.refs := repo.refs[p.branch := repo.refs[cfg.integration]];
      }
      ok := answer == WorktreeAdded;
      if ok {
        trees := trees[p.tree := Tree(true, true, true, p.branch, false)];
      }
    }

    /** `ensure_worktree` would delete what is at the package's path. */
    function Blocks(p: Package): bool
      reads this
    {
      p.tree in trees && !trees[p.tree].registered && !(trees[p.tree].gitMarker && trees[p.tree].usable)
    }

    /** `launch_task` up to the caller's handler: whether an exception got through
        that handler, and whether a worker was launched. */
    method Launch(task: Task, p: Package, provider: string, launch: bool, a: LaunchAnswers, ghost i: nat)
        returns (raised: bool, launched: bool)
      requires Valid() && Holds(task, i)
      modifies this`trees, this`launches, store, repo`refs
      ensures var r := LaunchTask(cfg, old(Now()), i, p, provider, launch, a);
              && raised == r.Err?
              && (!raised ==> (Now(), launched) == r.value && Valid() && OnlyTask(old(store.tasks), store.tasks, i))
    {
      launches := launches + [task.packageId];
      if a.adapter != Returns {
        raised, launched := LaunchPrepared(task, a.adapter, provider, launch, a.start, i);
        return;
      }
      if Blocks(p) && !a.clears {
        return true, false;
      }
      ghost var called := Now();
      var repair := task.status == HandoffNeeded && p.tree in trees;
      var ok := PrepareWorktree(p, repair, a.worktree);
      assert (Now(), ok) == EnsureWorktree(cfg, called, p, repair, a.worktree);
      raised, launched := LaunchPrepared(task, if ok then a.command else Refuses, provider, launch, a.start, i);
    }

    /** The rest of `launch_task`, given how the calls up to the command ended. */
    method LaunchPrepared(task: Task, prepared: CallAnswer, provider: string, launch: bool, start: CallAnswer,
                          ghost i: nat) returns (raised: bool, launched: bool)
      requires Valid() && Holds(task, i)
      modifies store
      ensures var r := PreparedTask(old(Now()), prepared, i, provider, launch, start);
              && raised == r.Err?
              && (!raised ==> (Now(), launched) == r.value && Valid() && OnlyTask(old(store.tasks), store.tasks, i))
    {
      launched := false;
      if prepared == Throws {
        raised := true;
      } else if prepared == Returns {
        raised, launched := StartWorker(task, provider, launch, start, i);
      } else {
        var updated;
        raised, updated := TransitionTo(task, Blocked, NO_NOTES.(provider := Some(provider)), i);
      }
    }

    /** The rest of `launch_task`, in the prepared worktree. */
    method StartWorker(task: Task, provider: string, launch: bool, start: CallAnswer, ghost i: nat)
        returns (raised: bool, launched: bool)
      requires Valid() && Holds(task, i)
      modifies store
      ensures var r := StartTask(old(Now()), i, provider, launch, start);
              && raised == r.Err?
              && (!raised ==> (Now(), launched) == r.value && Valid() && OnlyTask(old(store.tasks), store.tasks, i))
    {
      var notes := NO_NOTES.(provider := Some(provider));
      var current := task;
      launched := true;
      raised, current := TransitionTo(current, if launch then Assigned else Ready, notes, i);
      if raised || !launch {
        return;
      }
      if start == Throws {
        raised := true;
      } else if start == Refuses {
        launched := false;
        raised, current := TransitionTo(current, Blocked, notes, i);
      } else {
        raised, current := TransitionTo(current, Running, NO_NOTES, i);
      }
    }

    method LaunchIfReady(task: Task, launch: bool, a: LaunchAnswers, ghost i: nat)
        returns (raised: bool, launched: bool)
      requires Valid() && Holds(task, i)
      modifies this`trees, this`launches, store, repo
      ensures var r := LaunchOne(cfg, old(Now()), i, launch, a);
              && raised == r.Err?
              && (!raised ==> (Now(), launched) == r.value && Valid() && OnlyTask(old(store.tasks), store.tasks, i))
    {
      raised, launched := false, false;
      var current := task;
      if !Launchable(task.status) {
        return;
      }
      if task.packageId !in cfg.packages {
        raised, current := TransitionTo(current, Failed, NO_NOTES, i);
      } else if a.provider.None? {
        raised, current := TransitionTo(current, Blocked, NO_NOTES, i);
      } else if a.quotaRefuses {
        Checkpoint(cfg.packages[task.packageId], a.checkpoint);
        raised, current := TransitionTo(current, HandoffNeeded,
          NO_NOTES.(provider := a.provider, failureKind := Some(PauseThreshold)), i);
      } else {
        raised, launched := Launch(task, cfg.packages[task.packageId], a.provider.value, launch, a, i);
      }
    }

    method LaunchReady(launch: bool, answers: Launcher) returns (raised: bool)
      requires Valid()
      modifies this`trees, this`launches, store, repo
      ensures var tasks := old(store.tasks);
              var r := LaunchFrom(cfg, old(Now()), 0, |tasks|, Slots(cfg, tasks), launch, answers);
              raised == r.Err? && (!raised ==> Now() == r.value && Valid())
    {
      var slots := Slots(cfg, store.tasks);
      ghost var r := LaunchFrom(cfg, Now(), 0, |store.tasks|, slots, launch, answers);
      raised := LaunchInto(slots, launch, answers, r);
    }

    method LaunchInto(slots: nat, launch: bool, answers: Launcher, ghost r: Outcome) returns (raised: bool)
      requires Valid() && LeadsTo(cfg, Now(), 0, |store.tasks|, slots, launch, answers, r)
      modifies this`trees, this`launches, store, repo
      ensures raised == r.Err? && (!raised ==> Now() == r.value && Valid())
    {
      var tasks, left, i := store.tasks, slots, 0;
      while i < |tasks| && left > 0
        invariant Valid() && FreshFrom(tasks, store.tasks, i)
        invariant LeadsTo(cfg, Now(), i, |tasks|, left, launch, answers, r)
      {
        raised, left := LaunchNext(tasks, i, left, launch, answers, r);
        if raised {
          return;
        }
        i := i + 1;
      }
      raised := false;
      LoopEnds(cfg, Now(), i, |tasks|, left, launch, answers, r);
    }

    method LaunchNext(tasks: seq<Task>, i: nat, slots: nat, launch: bool, answers: Launcher, ghost r: Outcome)
        returns (raised: bool, left: nat)
      requires Valid() && i < |tasks| && FreshFrom(tasks, store.tasks, i) && slots > 0
      requires LeadsTo(cfg, Now(), i, |tasks|, slots, launch, answers, r)
      modifies this`trees, this`launches, store, repo
      ensures raised ==> r.Err?
      ensures !raised ==>
                && Valid() && FreshFrom(tasks, store.tasks, i + 1)
                && LeadsTo(cfg, Now(), i + 1, |tasks|, left, launch, answers, r)
    {
      ghost var before := store.tasks;
      assert FreshAt(tasks, before, i);
      LeadsToUnfolds(cfg, Now(), i, |tasks|, slots, launch, answers, r);
      var launched;
      raised, launched := LaunchIfReady(tasks[i], launch, answers(i), i);
      left := if launched then slots - 1 else slots;
      if !raised {
        FreshAfter(tasks, before, store.tasks, i);
      }
    }

    // ---- controller_tick -----------------------------------------------

    method ControllerTick(input: TickInput) returns (raised: bool)
      requires ValidConfig(cfg) && Valid() && FitsSuite(cfg.commands, input.answers.env)
      modifies this`trees, this`launches, this`attempts, this`landed, store, repo
      ensures var r := Tick.ControllerTick(cfg, old(Now()), input);
              raised == r.Err? && (!raised ==> Now() == r.value && Valid())
      ensures !raised && ConfigOk(cfg) && WorldOk(cfg, old(Now())) ==>
                WorldOk(cfg, Now()) && Runs.Grows(cfg, old(Now()), Now())
    {
      ghost var before := Now();
      raised := RunTick(input);
      if !raised && ConfigOk(cfg) && WorldOk(cfg, before) {
        Runs.TickAdvances(cfg, before, input);
      }
    }

    method RunTick(input: TickInput) returns (raised: bool)
      requires ValidConfig(cfg) && Valid() && FitsSuite(cfg.commands, input.answers.env)
      modifies this`trees, this`launches, this`attempts, this`landed, store, repo
      ensures var r := Tick.ControllerTick(cfg, old(Now()), input);
              raised == r.Err? && (!raised ==> Now() == r.value && Valid())
    {
      if !input.planApproved || !input.contextReady {
        return false;
      }
      raised := HydrateTaskState();
      if raised {
        return;
      }
      raised := ReconcileProcesses(input.reconciling);
      if raised {
        return;
      }
      raised := DefaultDecisions(input.deciding);
      if raised {
        return;
      }
      raised := IntegrateAndLaunch(input);
    }

    method IntegrateAndLaunch(input: TickInput) returns (raised: bool)
      requires ValidConfig(cfg) && Valid() && FitsSuite(cfg.commands, input.answers.env)
      modifies this`trees, this`launches, this`attempts, this`landed, store, repo
      ensures var r := MergeAndLaunch(cfg, old(Now()), input);
              raised == r.Err? && (!raised ==> Now() == r.value && Valid())
    {
      if input.integrate {
        raised := IntegrateFirst(input.answers);
        if raised {
          return;
        }
      }
      raised := LaunchReady(input.launch, input.launching);
    }

    // ---- approve-merge -------------------------------------------------

    method ApproveMerge(identifier: string) returns (raised: bool)
      requires Valid()
      modifies this`approvals, store
      ensures var r := Runs.ApproveMerge(cfg, old(Now()), identifier);
              raised == r.Err? && (!raised ==> Now() == r.value && Valid())
    {
      for i := 0 to |store.tasks|
        invariant Now() == old(Now())
        invariant Runs.Found(store.tasks, identifier) == i + Runs.Found(store.tasks[i..], identifier)
      {
        var task := store.tasks[i];
        assert store.tasks[i..][0] == task && store.tasks[i..][1..] == store.tasks[i + 1..];
        if task.id == identifier || task.packageId == identifier {
          if task.packageId !in cfg.packages {
            return true;
          }
          var updated;
          raised, updated := TransitionTo(task, MergeApproved, NO_NOTES, i);
          approvals := approvals + {task.id};
          return;
        }
      }
      raised := true;
    }
  }

  /** `_task_by_id` */
  method ById(tasks: seq<Task>) returns (m: map<string, Task>)
    requires DistinctIds(tasks)
    ensures InStep(m, tasks)
  {
    m := map[];
    for i := 0 to |tasks|
      invariant forall id :: id in m <==> IndexOf(tasks, id) < i
      invariant forall id | id in m :: m[id] == tasks[IndexOf(tasks, id)]
    {
      assert IndexOf(tasks, tasks[i].id) == i;
      m := m[tasks[i].id := tasks[i]];
    }
  }

  method CollectCandidates(tasks: seq<Task>, states: seq<PackageState>) returns (r: Option<seq<Candidate>>)
    ensures var c := Candidates(tasks, states); r == if c.Ok? then Some(c.value) else None
  {
    var byPackage := ByPackage(tasks);
    var found := [];
    for i := 0 to |states|
      invariant var whole, rest := Candidates(tasks, states), Candidates(tasks, states[i..]);
                whole.Ok? == rest.Ok? && (rest.Ok? ==> whole.value == found + rest.value)
    {
      var s := states[i];
      assert states[i..][0] == s && states[i..][1..] == states[i + 1..];
      if s.id in byPackage && Mergeable(byPackage[s.id].status) {
        if s.head.None? {
          return None;
        }
        found := found + [Candidate(s.id, s.branch, s.head.value, s.taskId)];
      }
    }
    assert states[|states|..] == [] && found + [] == found;
    return Some(found);
  }

  /** `tasks_by_package`: a later task of the same package replaces an earlier one. */
  method ByPackage(tasks: seq<Task>) returns (m: map<string, Task>)
    ensures forall id :: id in m <==> LastOf(tasks, id).Some?
    ensures forall id | id in m :: Some(m[id]) == LastOf(tasks, id)
  {
    m := map[];
    for i := 0 to |tasks|
      invariant forall id :: id in m <==> LastOf(tasks[..i], id).Some?
      invariant forall id | id in m :: Some(m[id]) == LastOf(tasks[..i], id)
    {
      assert tasks[..i + 1][..i] == tasks[..i];
      m := m[tasks[i].packageId := tasks[i]];
    }
    assert tasks[..|tasks|] == tasks;
  }
}
