/** What every phase of a controller tick keeps: the ledger account, the launch
    order, the merge gates and the number of active tasks. */
module Invariants {
  import opened Classifier
  import opened Gates
  import opened Git
  import I = Integration
  import opened Ledger
  import opened Paths
  import opened Project
  import opened Runner
  import opened Text
  import opened Tick
  import opened Wrappers

  ghost predicate Apart(p: Package, q: Package) {
    p.branch != q.branch && p.tree != q.tree
  }

  /** No two packages share a branch or a worktree. */
  ghost predicate AllApart(cfg: Config) {
    forall a, b {:trigger Apart(cfg.packages[a], cfg.packages[b])} |
      a in cfg.packages && b in cfg.packages && a != b :: Apart(cfg.packages[a], cfg.packages[b])
  }

  ghost predicate ConfigOk(cfg: Config) {
    ValidConfig(cfg) && AllApart(cfg)
  }

  /** The direct dependencies of `id` have been launched and have landed. */
  ghost predicate DepsDone(cfg: Config, launches: seq<string>, landed: set<string>, id: string)
    requires id in cfg.packages
  {
    forall d | d in cfg.packages[id].deps :: d in launches && d in landed
  }

  /** Every launch comes after a launch of each direct dependency, and all of them
      have landed. */
  ghost predicate LaunchesOk(cfg: Config, launches: seq<string>, landed: set<string>) {
    forall k {:trigger DepsDone(cfg, launches[..k], landed, launches[k])} |
      0 <= k < |launches| && launches[k] in cfg.packages :: DepsDone(cfg, launches[..k], landed, launches[k])
  }

  /** The evidence a package must carry to be merged without a human. */
  ghost predicate Evidence(cfg: Config, commits: seq<Commit>, t: Task) {
    && t.packageId in cfg.packages
    && var p := cfg.packages[t.packageId];
    && !RequiresHumanMergeApproval(p)
    && t.notes.validated == Some(true) && t.notes.reviewed == Some(true)
    && t.notes.commit.Some? && t.notes.commit.value < |commits|
    && Owned(ListedFiles(commits[t.notes.commit.value]), p.owned, p.forbidden)
  }

  /** The statuses of tasks whose dependencies may never have been launched or
      have landed. */
  predicate Undispatched(s: Status) {
    s == Planned || s == MergeApproved || s == Merged || s == Rejected || s == Failed
  }

  /** The task answers to a package that has landed. */
  ghost predicate LandedTask(cfg: Config, landed: set<string>, t: Task) {
    exists id :: id in landed && id in cfg.packages && MatchesPackage(t, id)
  }

  ghost predicate TaskOk(cfg: Config, commits: seq<Commit>, launches: seq<string>, landed: set<string>,
                         approvals: set<string>, t: Task) {
    && t.id == TaskIdFor(t.packageId)
    && t.status != IntegrationReady && t.status != Integrating
    && (t.packageId in cfg.packages && !Undispatched(t.status) ==>
          DepsDone(cfg, launches, landed, t.packageId))
    && (t.status == ReviewPassed ==> Evidence(cfg, commits, t))
    && (t.status == MergeApproved ==> t.id in approvals)
    && (t.status == Merged ==> LandedTask(cfg, landed, t))
    && (!cfg.hermes ==> t.notes.failureKind != Some(MissingResultWithCommit))
  }

  ghost predicate TasksOk(cfg: Config, commits: seq<Commit>, launches: seq<string>, landed: set<string>,
                          approvals: set<string>, tasks: seq<Task>) {
    forall k {:trigger TaskOk(cfg, commits, launches, landed, approvals, tasks[k])} | 0 <= k < |tasks| ::
      TaskOk(cfg, commits, launches, landed, approvals, tasks[k])
  }

  predicate Exists(refs: map<string, CommitId>, trees: map<string, Tree>, p: Package) {
    p.branch in refs || p.tree in trees
  }

  /** A branch or worktree of a package exists only once it has been launched. */
  ghost predicate OnlyLaunchedExist(cfg: Config, refs: map<string, CommitId>, trees: map<string, Tree>,
                                    launches: seq<string>)
  {
    forall id {:trigger Exists(refs, trees, cfg.packages[id])} |
      id in cfg.packages && Exists(refs, trees, cfg.packages[id]) :: id in launches
  }

  /** How a package may reach `integrate_one`. */
  ghost predicate GateOk(cfg: Config, commits: seq<Commit>, approvals: set<string>, a: Attempt) {
    && a.task.Some? && a.task.value.packageId == a.packageId
    && ((a.task.value.status == MergeApproved && a.task.value.id in approvals)
        || (a.task.value.status == ReviewPassed && Evidence(cfg, commits, a.task.value)))
  }

  ghost predicate GatesOk(cfg: Config, commits: seq<Commit>, approvals: set<string>, attempts: seq<Attempt>) {
    forall k {:trigger GateOk(cfg, commits, approvals, attempts[k])} | 0 <= k < |attempts| ::
      GateOk(cfg, commits, approvals, attempts[k])
  }

  ghost predicate WorldOk(cfg: Config, w: World) {
    && Faithful(w.ledger)
    && ValidRepo(w.repo)
    && TasksOk(cfg, w.repo.commits, w.launches, w.landed, w.approvals, w.ledger.tasks)
    && LaunchesOk(cfg, w.launches, w.landed)
    && OnlyLaunchedExist(cfg, w.repo.refs, w.trees, w.launches)
    && GatesOk(cfg, w.repo.commits, w.approvals, w.attempts)
  }

  // ---- Counting --------------------------------------------------------

  function One(s: Status): nat {
    if ActiveState(s) then 1 else 0
  }

  lemma {:induction false} CountReplaced(tasks: seq<Task>, i: nat, t: Task)
    requires i < |tasks|
    ensures ActiveCount(tasks[i := t]) + One(tasks[i].status) == ActiveCount(tasks) + One(t.status)
  {
    var n := |tasks| - 1;
    if i == n {
      assert tasks[i := t][..n] == tasks[..n];
    } else {
      CountReplaced(tasks[..n], i, t);
      assert tasks[i := t][..n] == tasks[..n][i := t];
    }
  }

  lemma CountAppended(tasks: seq<Task>, t: Task)
    ensures ActiveCount(tasks + [t]) == ActiveCount(tasks) + One(t.status)
  {
    assert (tasks + [t])[..|tasks|] == tasks;
  }

  ghost predicate AtWork(t: Task) {
    t.status in {Assigned, Running, Validating, Reviewing, Integrating}
  }

  /** The tasks at work, which the concurrency limit counts. */
  ghost function ActiveTasks(tasks: seq<Task>): set<nat> {
    set i: nat | i < |tasks| && AtWork(tasks[i])
  }

  lemma {:induction false} ActiveCountIsCardinality(tasks: seq<Task>)
    ensures ActiveCount(tasks) == |ActiveTasks(tasks)|
  {
    if tasks == [] {
      assert ActiveTasks(tasks) == {};
    } else {
      var n := |tasks| - 1;
      ActiveCountIsCardinality(tasks[..n]);
      if AtWork(tasks[n]) {
        assert ActiveTasks(tasks) == ActiveTasks(tasks[..n]) + {n};
      } else {
        assert ActiveTasks(tasks) == ActiveTasks(tasks[..n]);
      }
    }
  }

  /** A status without a gate in front of it. */
  predicate Plain(s: Status) {
    s != IntegrationReady && s != ReviewPassed && s != MergeApproved && s != Integrating && s != Merged
  }

  // ---- One transition --------------------------------------------------

  ghost predicate MoveAllowed(cfg: Config, w: World, t: Task, status: Status, notes: Notes) {
    && status != IntegrationReady && status != Integrating
    && (t.packageId in cfg.packages && !Undispatched(status) ==>
          DepsDone(cfg, w.launches, w.landed, t.packageId))
    && (status == ReviewPassed ==> Evidence(cfg, w.repo.commits, Moved(t, status, Note(notes))))
    && (status == MergeApproved ==> t.id in w.approvals)
    && (status == Merged ==> LandedTask(cfg, w.landed, t))
    && (!cfg.hermes ==> notes.failureKind != Some(MissingResultWithCommit))
  }

  /** Any transition of a stored task keeps the account and counts. */
  lemma MoveShape(w: World, i: nat, status: Status, notes: Notes)
    requires Faithful(w.ledger) && i < |w.ledger.tasks| && Move(w, i, status, notes).Ok?
    ensures var t := Move(w, i, status, notes).value;
            && Faithful(t.ledger)
            && t == w.(ledger := t.ledger)
            && t.ledger.tasks == w.ledger.tasks[i := Moved(w.ledger.tasks[i], status, Note(notes))]
            && ActiveCount(t.ledger.tasks) + One(w.ledger.tasks[i].status)
               == ActiveCount(w.ledger.tasks) + One(status)
  {
    var before := w.ledger.tasks[i];
    MoveIsTransition(w, i, status, notes);
    FreshnessDecides(w.ledger, i, before, status, notes);
    TransitionShape(w.ledger, i, before, status, Note(notes));
    CountReplaced(w.ledger.tasks, i, Moved(before, status, Note(notes)));
  }

  lemma TasksOkReplaced(cfg: Config, commits: seq<Commit>, launches: seq<string>, landed: set<string>,
                        approvals: set<string>, tasks: seq<Task>, i: nat, t: Task)
    requires TasksOk(cfg, commits, launches, landed, approvals, tasks)
    requires TaskOk(cfg, commits, launches, landed, approvals, t)
    requires i < |tasks|
    ensures TasksOk(cfg, commits, launches, landed, approvals, tasks[i := t])
  {
    var more := tasks[i := t];
    forall k | 0 <= k < |more| ensures TaskOk(cfg, commits, launches, landed, approvals, more[k]) {
      if k != i {
        assert TaskOk(cfg, commits, launches, landed, approvals, tasks[k]);
      }
    }
  }

  lemma MoveKeeps(cfg: Config, w: World, i: nat, status: Status, notes: Notes)
    requires WorldOk(cfg, w) && i < |w.ledger.tasks| && Move(w, i, status, notes).Ok?
    requires MoveAllowed(cfg, w, w.ledger.tasks[i], status, notes)
    ensures var t := Move(w, i, status, notes).value;
            && WorldOk(cfg, t)
            && t == w.(ledger := t.ledger)
            && t.ledger.tasks == w.ledger.tasks[i := Moved(w.ledger.tasks[i], status, Note(notes))]
            && ActiveCount(t.ledger.tasks) + One(w.ledger.tasks[i].status)
               == ActiveCount(w.ledger.tasks) + One(status)
  {
    var before := w.ledger.tasks[i];
    MoveShape(w, i, status, notes);
    assert TaskOk(cfg, w.repo.commits, w.launches, w.landed, w.approvals, before);
    TasksOkReplaced(cfg, w.repo.commits, w.launches, w.landed, w.approvals, w.ledger.tasks, i,
                    Moved(before, status, Note(notes)));
  }

  lemma LandedTaskGrows(cfg: Config, landed: set<string>, more: set<string>, t: Task)
    requires landed <= more
    ensures LandedTask(cfg, landed, t) ==> LandedTask(cfg, more, t)
  {
  }

  /** Everything but the ledger may grow. */
  lemma GrowthKeeps(cfg: Config, w: World, t: World)
    requires WorldOk(cfg, w) && t.ledger == w.ledger && t.attempts == w.attempts && w.approvals <= t.approvals
    requires ValidRepo(t.repo) && w.repo.commits <= t.repo.commits
    requires w.launches <= t.launches && w.landed <= t.landed && LaunchesOk(cfg, t.launches, t.landed)
    requires OnlyLaunchedExist(cfg, t.repo.refs, t.trees, t.launches)
    ensures WorldOk(cfg, t)
  {
    forall k | 0 <= k < |w.ledger.tasks|
      ensures TaskOk(cfg, t.repo.commits, t.launches, t.landed, t.approvals, w.ledger.tasks[k])
    {
      assert TaskOk(cfg, w.repo.commits, w.launches, w.landed, w.approvals, w.ledger.tasks[k]);
      LandedTaskGrows(cfg, w.landed, t.landed, w.ledger.tasks[k]);
    }
    forall k | 0 <= k < |w.attempts| ensures GateOk(cfg, t.repo.commits, t.approvals, w.attempts[k]) {
      assert GateOk(cfg, w.repo.commits, w.approvals, w.attempts[k]);
    }
  }

  lemma LandingKeeps(cfg: Config, w: World, more: set<string>)
    requires WorldOk(cfg, w)
    ensures WorldOk(cfg, w.(landed := w.landed + more))
  {
    var t := w.(landed := w.landed + more);
    forall k | 0 <= k < |w.launches| && w.launches[k] in cfg.packages
      ensures DepsDone(cfg, w.launches[..k], t.landed, w.launches[k])
    {
      assert DepsDone(cfg, w.launches[..k], w.landed, w.launches[k]);
    }
    GrowthKeeps(cfg, w, t);
  }

  lemma SameNamesKeep(cfg: Config, w: World, refs: map<string, CommitId>, trees: map<string, Tree>)
    requires OnlyLaunchedExist(cfg, w.repo.refs, w.trees, w.launches)
    requires refs.Keys == w.repo.refs.Keys && trees.Keys == w.trees.Keys
    ensures OnlyLaunchedExist(cfg, refs, trees, w.launches)
  {
    forall id | id in cfg.packages && Exists(refs, trees, cfg.packages[id]) ensures id in w.launches {
      assert Exists(w.repo.refs, w.trees, cfg.packages[id]);
    }
  }

  lemma TestedKeeps(cfg: Config, w: World, p: Package, dirty: bool)
    requires WorldOk(cfg, w)
    ensures WorldOk(cfg, Tested(w, p, dirty)) && NothingDropped(w, Tested(w, p, dirty))
  {
    SameNamesKeep(cfg, w, w.repo.refs, Tested(w, p, dirty).trees);
    GrowthKeeps(cfg, w, Tested(w, p, dirty));
  }

  lemma CheckpointKeeps(cfg: Config, w: World, p: Package, c: CheckpointAnswer)
    requires WorldOk(cfg, w)
    ensures WorldOk(cfg, Checkpointed(cfg, w, p, c)) && NothingDropped(w, Checkpointed(cfg, w, p, c))
    ensures Checkpointed(cfg, w, p, c).ledger == w.ledger && Checkpointed(cfg, w, p, c).launches == w.launches
  {
    var t := Checkpointed(cfg, w, p, c);
    SameNamesKeep(cfg, w, t.repo.refs, t.trees);
    GrowthKeeps(cfg, w, t);
  }

  // ---- Hydration -------------------------------------------------------

  lemma NewTaskOk(cfg: Config, commits: seq<Commit>, launches: seq<string>, landed: set<string>,
                  approvals: set<string>, id: string, name: string)
    ensures TaskOk(cfg, commits, launches, landed, approvals, NewTask(id, name))
  {
    assert id + " " <= NewTask(id, name).title;
  }

  lemma TasksOkAppended(cfg: Config, commits: seq<Commit>, launches: seq<string>, landed: set<string>,
                        approvals: set<string>, tasks: seq<Task>, t: Task)
    requires TasksOk(cfg, commits, launches, landed, approvals, tasks)
    requires TaskOk(cfg, commits, launches, landed, approvals, t)
    ensures TasksOk(cfg, commits, launches, landed, approvals, tasks + [t])
  {
    forall k | 0 <= k < |tasks + [t]| ensures TaskOk(cfg, commits, launches, landed, approvals, (tasks + [t])[k]) {
      if k < |tasks| {
        assert TaskOk(cfg, commits, launches, landed, approvals, tasks[k]);
      }
    }
  }

  lemma EnsureOneKeeps(cfg: Config, w: World, id: string, name: string)
    requires WorldOk(cfg, w)
    ensures WorldOk(cfg, w.(ledger := Ensured(w.ledger, id, name)))
    ensures ActiveCount(Ensured(w.ledger, id, name).tasks) == ActiveCount(w.ledger.tasks)
  {
    EnsureKeepsFaithful(w.ledger, id, name);
    if Existing(w.ledger.tasks, id) == |w.ledger.tasks| {
      var t := NewTask(id, name);
      CountAppended(w.ledger.tasks, t);
      NewTaskOk(cfg, w.repo.commits, w.launches, w.landed, w.approvals, id, name);
      TasksOkAppended(cfg, w.repo.commits, w.launches, w.landed, w.approvals, w.ledger.tasks, t);
    }
  }

  lemma {:induction false} EnsureAllKeeps(cfg: Config, w: World, ids: seq<string>)
    requires ConfigOk(cfg) && WorldOk(cfg, w) && forall id | id in ids :: id in cfg.packages
    ensures WorldOk(cfg, w.(ledger := EnsureAll(w.ledger, cfg, ids)))
    ensures ActiveCount(EnsureAll(w.ledger, cfg, ids).tasks) == ActiveCount(w.ledger.tasks)
    decreases |ids|
  {
    if ids != [] {
      EnsureOneKeeps(cfg, w, ids[0], cfg.packages[ids[0]].name);
      EnsureAllKeeps(cfg, w.(ledger := Ensured(w.ledger, ids[0], cfg.packages[ids[0]].name)), ids[1..]);
    }
  }

  /** A classification that lets hydration move a task proves its dependencies
      have been launched and have landed. */
  ghost predicate StateOk(cfg: Config, launches: seq<string>, landed: set<string>, s: PackageState) {
    && s.id in cfg.packages
    && (s.kind == ExecutionReady || s.kind == RepairRequired || s.kind == MergedIn ==>
          DepsDone(cfg, launches, landed, s.id))
    && (s.kind == MergedIn ==> s.id in landed)
  }

  ghost predicate StatesOk(cfg: Config, launches: seq<string>, landed: set<string>, states: seq<PackageState>) {
    forall k | 0 <= k < |states| :: StateOk(cfg, launches, landed, states[k])
  }

  lemma ExistingHasDeps(cfg: Config, w: World, id: string)
    requires WorldOk(cfg, w) && id in cfg.packages && Exists(w.repo.refs, w.trees, cfg.packages[id])
    ensures DepsDone(cfg, w.launches, w.landed, id)
  {
    var k :| 0 <= k < |w.launches| && w.launches[k] == id;
    assert DepsDone(cfg, w.launches[..k], w.landed, id);
  }

  lemma ClassifiedOk(cfg: Config, w: World, tasks: seq<Task>, id: string)
    requires WorldOk(cfg, w) && id in cfg.packages && MergedIds(cfg, w.repo) <= w.landed
    ensures StateOk(cfg, w.launches, w.landed, Classify(cfg, w.repo, w.trees, tasks, id))
  {
    ClassificationMeans(cfg, w.repo, w.trees, tasks, id);
    var s, p := Classify(cfg, w.repo, w.trees, tasks, id), cfg.packages[id];
    if s.kind == ExecutionReady {
      forall d | d in p.deps ensures d in w.launches && d in w.landed {
        assert MergedId(cfg, w.repo, d);
        assert Exists(w.repo.refs, w.trees, cfg.packages[d]);
      }
    } else if s.kind in {RepairRequired, MergedIn} {
      ExistingHasDeps(cfg, w, id);
    }
  }

  lemma HydrateMoveKeeps(cfg: Config, w: World, s: PackageState)
    requires WorldOk(cfg, w) && StateOk(cfg, w.launches, w.landed, s)
    requires IndexOf(w.ledger.tasks, TaskIdFor(s.id)) < |w.ledger.tasks|
    requires HydrateTarget(w.ledger.tasks[IndexOf(w.ledger.tasks, TaskIdFor(s.id))].status, s.kind).Some?
    requires var i := IndexOf(w.ledger.tasks, TaskIdFor(s.id));
             Move(w, i, HydrateTarget(w.ledger.tasks[i].status, s.kind).value, NO_NOTES).Ok?
    ensures var i := IndexOf(w.ledger.tasks, TaskIdFor(s.id));
            var t := Move(w, i, HydrateTarget(w.ledger.tasks[i].status, s.kind).value, NO_NOTES).value;
            && WorldOk(cfg, t) && t == w.(ledger := t.ledger)
            && ActiveCount(t.ledger.tasks) == ActiveCount(w.ledger.tasks)
  {
    var i := IndexOf(w.ledger.tasks, TaskIdFor(s.id));
    var t := w.ledger.tasks[i];
    assert TaskOk(cfg, w.repo.commits, w.launches, w.landed, w.approvals, t);
    assert t.packageId == t.id[5..] && s.id == TaskIdFor(s.id)[5..];
    assert MatchesPackage(t, s.id);
    MoveKeeps(cfg, w, i, HydrateTarget(t.status, s.kind).value, NO_NOTES);
  }

  lemma {:induction false} HydrateEachKeeps(cfg: Config, w: World, states: seq<PackageState>)
    requires WorldOk(cfg, w) && HydrateEach(w, states).Ok? && StatesOk(cfg, w.launches, w.landed, states)
    ensures var t := HydrateEach(w, states).value;
            && WorldOk(cfg, t) && t == w.(ledger := t.ledger)
            && ActiveCount(t.ledger.tasks) == ActiveCount(w.ledger.tasks)
    decreases |states|
  {
    if states != [] {
      var i := IndexOf(w.ledger.tasks, TaskIdFor(states[0].id));
      var target := if i < |w.ledger.tasks| then HydrateTarget(w.ledger.tasks[i].status, states[0].kind) else None;
      assert StatesOk(cfg, w.launches, w.landed, states[1..]);
      if target.Some? {
        HydrateMoveKeeps(cfg, w, states[0]);
        HydrateEachKeeps(cfg, Move(w, i, target.value, NO_NOTES).value, states[1..]);
      } else {
        HydrateEachKeeps(cfg, w, states[1..]);
      }
    }
  }

  lemma ClassificationOk(cfg: Config, w: World, tasks: seq<Task>)
    requires ConfigOk(cfg) && WorldOk(cfg, w) && MergedIds(cfg, w.repo) <= w.landed
    ensures forall id | id in Sorted(cfg.order) :: id in cfg.packages
    ensures StatesOk(cfg, w.launches, w.landed, ClassifyEach(cfg, w.repo, w.trees, tasks, Sorted(cfg.order)))
  {
    SortedPackages(cfg);
    var ids := Sorted(cfg.order);
    forall k | 0 <= k < |ids|
      ensures StateOk(cfg, w.launches, w.landed, ClassifyEach(cfg, w.repo, w.trees, tasks, ids)[k])
    {
      assert ids[k] in ids;
      ClassifiedOk(cfg, w, tasks, ids[k]);
    }
  }

  lemma HydrateKeeps(cfg: Config, w: World)
    requires ConfigOk(cfg) && WorldOk(cfg, w) && Hydrate(cfg, w).Ok?
    ensures var t := Hydrate(cfg, w).value;
            && WorldOk(cfg, t) && t == w.(ledger := t.ledger, landed := w.landed + MergedIds(cfg, w.repo))
            && ActiveCount(t.ledger.tasks) == ActiveCount(w.ledger.tasks)
  {
    SortedPackages(cfg);
    var looked := w.(landed := w.landed + MergedIds(cfg, w.repo));
    LandingKeeps(cfg, w, MergedIds(cfg, w.repo));
    EnsureAllKeeps(cfg, looked, cfg.order);
    var l := EnsureAll(w.ledger, cfg, cfg.order);
    ClassificationOk(cfg, looked, l.tasks);
    HydrateEachKeeps(cfg, looked.(ledger := l), ClassifyEach(cfg, w.repo, w.trees, l.tasks, Sorted(cfg.order)));
  }

  // ---- Reconciliation --------------------------------------------------

  ghost predicate KeptTree(a: map<string, Tree>, b: map<string, Tree>, d: string)
    requires d in a
  {
    d in b && b[d].registered && b[d].branch == a[d].branch
  }

  /** No branch is gone, and every registered worktree is still there, on the same
      branch. */
  ghost predicate NothingDropped(w: World, t: World) {
    && w.repo.refs.Keys <= t.repo.refs.Keys
    && forall d {:trigger KeptTree(w.trees, t.trees, d)} | d in w.trees && w.trees[d].registered ::
         KeptTree(w.trees, t.trees, d)
  }

  lemma NothingDroppedTwice(w: World, m: World, t: World)
    requires NothingDropped(w, m) && NothingDropped(m, t)
    ensures NothingDropped(w, t)
  {
    forall d | d in w.trees && w.trees[d].registered ensures KeptTree(w.trees, t.trees, d) {
      assert KeptTree(w.trees, m.trees, d) && KeptTree(m.trees, t.trees, d);
    }
  }

  /** The record is the same task's, and it is merged only if it was. */
  ghost predicate SameRecord(a: Task, b: Task) {
    b == a.(status := b.status, notes := b.notes) && (b.status == Merged ==> a.status == Merged)
  }

  ghost predicate SameRecords(a: seq<Task>, b: seq<Task>) {
    |a| == |b| && forall i {:trigger SameRecord(a[i], b[i])} | 0 <= i < |a| :: SameRecord(a[i], b[i])
  }

  lemma SameRecordsTwice(a: seq<Task>, b: seq<Task>, c: seq<Task>)
    requires SameRecords(a, b) && SameRecords(b, c)
    ensures SameRecords(a, c)
  {
    forall i | 0 <= i < |a| ensures SameRecord(a[i], c[i]) {
      assert SameRecord(a[i], b[i]) && SameRecord(b[i], c[i]);
    }
  }

  lemma OneRecord(tasks: seq<Task>, i: nat, status: Status, notes: Notes)
    requires i < |tasks| && status != Merged
    ensures SameRecords(tasks, tasks[i := Moved(tasks[i], status, Note(notes))])
  {
  }

  /** The phase kept the invariant, and neither activated nor merged anything. */
  ghost predicate Kept(cfg: Config, w: World, t: World) {
    && WorldOk(cfg, t)
    && SameRecords(w.ledger.tasks, t.ledger.tasks) && t.landed == w.landed
    && ActiveCount(t.ledger.tasks) <= ActiveCount(w.ledger.tasks)
    && t.launches == w.launches && t.attempts == w.attempts
    && NothingDropped(w, t)
  }

  lemma KeptTwice(cfg: Config, w: World, m: World, t: World)
    requires Kept(cfg, w, m) && Kept(cfg, m, t)
    ensures Kept(cfg, w, t)
  {
    NothingDroppedTwice(w, m, t);
    SameRecordsTwice(w.ledger.tasks, m.ledger.tasks, t.ledger.tasks);
  }

  /** An inactive status, or any status for a task that was active. */
  lemma QuietMoveKeeps(cfg: Config, w: World, i: nat, status: Status, notes: Notes)
    requires WorldOk(cfg, w) && i < |w.ledger.tasks| && Move(w, i, status, notes).Ok?
    requires !Undispatched(w.ledger.tasks[i].status)
    requires Plain(status)
    requires !cfg.hermes ==> notes.failureKind != Some(MissingResultWithCommit)
    requires ActiveState(status) ==> ActiveState(w.ledger.tasks[i].status)
    ensures var t := Move(w, i, status, notes).value;
            && Kept(cfg, w, t) && t == w.(ledger := t.ledger)
            && t.ledger.tasks[i] == Moved(w.ledger.tasks[i], status, Note(notes))
  {
    assert TaskOk(cfg, w.repo.commits, w.launches, w.landed, w.approvals, w.ledger.tasks[i]);
    MoveKeeps(cfg, w, i, status, notes);
    OneRecord(w.ledger.tasks, i, status, notes);
  }

  lemma HandoffKeeps(cfg: Config, w: World, i: nat, p: Package, provider: string, kind: FailureKind,
                     hasNext: bool, c: CheckpointAnswer)
    requires WorldOk(cfg, w) && i < |w.ledger.tasks|
    requires HandoffOrBlock(cfg, w, i, p, provider, kind, hasNext, c).Ok?
    requires !Undispatched(w.ledger.tasks[i].status)
    requires !cfg.hermes ==> kind != MissingResultWithCommit
    ensures Kept(cfg, w, HandoffOrBlock(cfg, w, i, p, provider, kind, hasNext, c).value)
  {
    CheckpointKeeps(cfg, w, p, c);
    QuietMoveKeeps(cfg, Checkpointed(cfg, w, p, c), i, if hasNext then HandoffNeeded else Blocked,
                   NO_NOTES.(lastProvider := Some(provider), failureKind := Some(kind)));
    NothingDroppedTwice(w, Checkpointed(cfg, w, p, c), HandoffOrBlock(cfg, w, i, p, provider, kind, hasNext, c).value);
  }

  /** The task `i` of a world is being validated and belongs to `p`. */
  ghost predicate InValidation(cfg: Config, w: World, i: nat, p: Package) {
    && WorldOk(cfg, w) && i < |w.ledger.tasks| && w.ledger.tasks[i].status == Validating
    && w.ledger.tasks[i].packageId in cfg.packages && p == cfg.packages[w.ledger.tasks[i].packageId]
  }

  lemma ReconcileAcceptedKeeps(cfg: Config, w: World, i: nat, p: Package, provider: string,
                               commit: CommitId, files: seq<string>, o: Observation)
    requires InValidation(cfg, w, i, p)
    requires commit < |w.repo.commits| && Owned(ListedFiles(w.repo.commits[commit]), p.owned, p.forbidden)
    requires ReconcileAccepted(cfg, w, i, p, provider, commit, files, o).Ok?
    ensures Kept(cfg, w, ReconcileAccepted(cfg, w, i, p, provider, commit, files, o).value)
  {
    var tested := Tested(w, p, o.suite != SuitePassed && o.leavesDirty);
    TestedKeeps(cfg, w, p, o.suite != SuitePassed && o.leavesDirty);
    if o.suite == SuiteRaised {
      HandoffKeeps(cfg, tested, i, p, provider, ValidationFailure, o.hasNext, o.checkpoint);
    } else {
      AcceptedThenReviewed(cfg, w, tested, i, p, provider, commit, files, o);
    }
    NothingDroppedTwice(w, tested, ReconcileAccepted(cfg, w, i, p, provider, commit, files, o).value);
  }

  lemma AcceptedThenReviewed(cfg: Config, w: World, tested: World, i: nat, p: Package, provider: string,
                             commit: CommitId, files: seq<string>, o: Observation)
    requires InValidation(cfg, tested, i, p) && o.suite != SuiteRaised
    requires tested == Tested(w, p, o.suite != SuitePassed && o.leavesDirty) && i < |w.ledger.tasks|
    requires commit < |tested.repo.commits| && Owned(ListedFiles(tested.repo.commits[commit]), p.owned, p.forbidden)
    requires ReconcileAccepted(cfg, w, i, p, provider, commit, files, o).Ok?
    ensures Kept(cfg, tested, ReconcileAccepted(cfg, w, i, p, provider, commit, files, o).value)
  {
    var validated := o.suite == SuitePassed;
    var notes := NO_NOTES.(commit := Some(commit), validated := Some(validated));
    QuietMoveKeeps(cfg, tested, i, Reviewing, notes);
    var r := Move(tested, i, Reviewing, notes).value;
    ReconcileReviewKeeps(cfg, r, i, p, provider, commit, files, validated, o);
    KeptTwice(cfg, tested, r, ReconcileReview(cfg, r, i, p, provider, commit, files, validated, o).value);
  }

  lemma ReconcileCompletedKeeps(cfg: Config, w: World, i: nat, p: Package, provider: string,
                                report: Report, o: Observation)
    requires InValidation(cfg, w, i, p) && ReconcileCompleted(cfg, w, i, p, provider, report, o).Ok?
    ensures Kept(cfg, w, ReconcileCompleted(cfg, w, i, p, provider, report, o).value)
  {
    AcceptedIffSubstantiated(p, report, w.repo, TreeOf(w, p));
    var v := CompletedVerdict(p, report, w.repo, TreeOf(w, p));
    if v == Refused {
      HandoffKeeps(cfg, w, i, p, provider, ValidationFailure, o.hasNext, o.checkpoint);
    } else if v.Accepted? {
      ReconcileAcceptedKeeps(cfg, w, i, p, provider, v.commit, v.files, o);
    }
  }

  lemma ReconcileReviewKeeps(cfg: Config, w: World, i: nat, p: Package, provider: string, commit: CommitId,
                             files: seq<string>, validated: bool, o: Observation)
    requires WorldOk(cfg, w) && i < |w.ledger.tasks| && w.ledger.tasks[i].status == Reviewing
    requires w.ledger.tasks[i].packageId in cfg.packages && p == cfg.packages[w.ledger.tasks[i].packageId]
    requires w.ledger.tasks[i].notes.validated == Some(validated)
    requires commit < |w.repo.commits| && Owned(ListedFiles(w.repo.commits[commit]), p.owned, p.forbidden)
    requires ReconcileReview(cfg, w, i, p, provider, commit, files, validated, o).Ok?
    ensures Kept(cfg, w, ReconcileReview(cfg, w, i, p, provider, commit, files, validated, o).value)
  {
    if ReviewPasses(p, provider, o.reviewer, files, validated) {
      assert TaskOk(cfg, w.repo.commits, w.launches, w.landed, w.approvals, w.ledger.tasks[i]);
      var status := if RequiresHumanMergeApproval(p) then MergeReady else ReviewPassed;
      MoveKeeps(cfg, w, i, status, NO_NOTES.(commit := Some(commit), reviewed := Some(true)));
      OneRecord(w.ledger.tasks, i, status, NO_NOTES.(commit := Some(commit), reviewed := Some(true)));
    } else {
      HandoffKeeps(cfg, w, i, p, provider, ReviewFailure, o.hasNext, o.checkpoint);
    }
  }

  lemma ReconcileActiveKeeps(cfg: Config, w: World, i: nat, p: Package, provider: string, o: Observation)
    requires WorldOk(cfg, w) && i < |w.ledger.tasks| && o.process.Process? && ActiveState(w.ledger.tasks[i].status)
    requires w.ledger.tasks[i].packageId in cfg.packages && p == cfg.packages[w.ledger.tasks[i].packageId]
    requires ReconcileActive(cfg, w, i, p, provider, o).Ok?
    ensures Kept(cfg, w, ReconcileActive(cfg, w, i, p, provider, o).value)
  {
    if o.result.NoResult? {
      ReconcileProcessKeeps(cfg, w, i, p, o);
    } else if !o.result.Unusable? {
      QuietMoveKeeps(cfg, w, i, Validating, NO_NOTES);
      var v := Move(w, i, Validating, NO_NOTES).value;
      ReconcileResultKeeps(cfg, v, i, p, provider, o);
      KeptTwice(cfg, w, v, ReconcileResult(cfg, v, i, p, provider, o).value);
    }
  }

  lemma ReconcileOneKeeps(cfg: Config, w: World, i: nat, o: Observation)
    requires WorldOk(cfg, w) && i < |w.ledger.tasks| && ReconcileOne(cfg, w, i, o).Ok?
    ensures Kept(cfg, w, ReconcileOne(cfg, w, i, o).value)
  {
    var t := w.ledger.tasks[i];
    if ActiveState(t.status) && o.process.NoProcess? {
      QuietMoveKeeps(cfg, w, i, DecisionRequired, NO_NOTES.(failureKind := Some(MissingProcessRecord)));
    } else if ActiveState(t.status) && o.process.Process? {
      if t.packageId !in cfg.packages {
        QuietMoveKeeps(cfg, w, i, Failed, NO_NOTES);
      } else {
        ReconcileActiveKeeps(cfg, w, i, cfg.packages[t.packageId], t.notes.provider.GetOr(o.process.provider), o);
      }
    }
  }

  lemma ReconcileResultKeeps(cfg: Config, w: World, i: nat, p: Package, provider: string, o: Observation)
    requires InValidation(cfg, w, i, p)
    requires ReconcileResult(cfg, w, i, p, provider, o).Ok?
    ensures Kept(cfg, w, ReconcileResult(cfg, w, i, p, provider, o).value)
  {
    if o.result.CompletedResult? {
      ReconcileCompletedKeeps(cfg, w, i, p, provider, o.result.report, o);
    } else {
      QuietMoveKeeps(cfg, w, i, if o.result.BlockedResult? then Blocked else Failed, NO_NOTES);
    }
  }

  lemma ReconcileProcessKeeps(cfg: Config, w: World, i: nat, p: Package, o: Observation)
    requires WorldOk(cfg, w) && i < |w.ledger.tasks| && o.process.Process? && ActiveState(w.ledger.tasks[i].status)
    requires ReconcileProcess(cfg, w, i, p, o).Ok?
    ensures Kept(cfg, w, ReconcileProcess(cfg, w, i, p, o).value)
  {
    if o.process.tmuxWaiting {
      DecisionKeeps(cfg, w, i, StaleRunningProcess);
    } else if !o.process.alive {
      ReconcileFinishedKeeps(cfg, w, i, p, o);
    }
  }

  lemma ReconcileFinishedKeeps(cfg: Config, w: World, i: nat, p: Package, o: Observation)
    requires WorldOk(cfg, w) && i < |w.ledger.tasks| && ActiveState(w.ledger.tasks[i].status)
    requires ReconcileFinished(cfg, w, i, p, o).Ok?
    ensures Kept(cfg, w, ReconcileFinished(cfg, w, i, p, o).value)
  {
    if !HasCleanTaskCommit(cfg, w, p) {
      DecisionKeeps(cfg, w, i, FromLog(if o.quoting then WrapperQuoting else o.logKind));
    } else if cfg.hermes {
      DecisionKeeps(cfg, w, i, MissingResultWithCommit);
    } else if o.completion.CompletionFailed? {
      DecisionKeeps(cfg, w, i, FromLog(o.completion.kind));
    } else {
      TestedKeeps(cfg, w, p, o.leavesDirty);
    }
  }

  lemma DecisionKeeps(cfg: Config, w: World, i: nat, kind: FailureKind)
    requires WorldOk(cfg, w) && i < |w.ledger.tasks| && ActiveState(w.ledger.tasks[i].status)
    requires kind == MissingResultWithCommit ==> cfg.hermes
    ensures RequireDecision(w, i, kind).Ok? && Kept(cfg, w, RequireDecision(w, i, kind).value)
  {
    QuietMoveKeeps(cfg, w, i, DecisionRequired,
                   NO_NOTES.(failureKind := Some(kind), allowed := Some(AllowedActions(kind))));
  }

  /** One round of the loop. */
  lemma ReconcileRoundKeeps(cfg: Config, w: World, i: nat, n: nat, observe: Observer, r: Outcome)
      returns (next: World)
    requires WorldOk(cfg, w) && i < n && ReconcilesTo(cfg, w, i, n, observe, r) && r.Ok?
    ensures Kept(cfg, w, next) && ReconcilesTo(cfg, next, i + 1, n, observe, r)
  {
    ReconcilesToUnfolds(cfg, w, i, n, observe, r);
    ReconcileOneKeeps(cfg, w, i, observe(i));
    next := ReconcileOne(cfg, w, i, observe(i)).value;
  }

  lemma {:induction false} ReconcileLoopKeeps(cfg: Config, w: World, i: nat, n: nat, observe: Observer, r: Outcome)
    requires WorldOk(cfg, w) && i <= n && ReconcilesTo(cfg, w, i, n, observe, r) && r.Ok?
    ensures Kept(cfg, w, r.value)
    decreases n - i
  {
    if i == n {
      ReconcileEnds(cfg, w, n, observe, r);
    } else {
      var next := ReconcileRoundKeeps(cfg, w, i, n, observe, r);
      ReconcileLoopKeeps(cfg, next, i + 1, n, observe, r);
      KeptTwice(cfg, w, next, r.value);
    }
  }

  lemma ReconcileFromKeeps(cfg: Config, w: World, i: nat, n: nat, observe: Observer)
    requires WorldOk(cfg, w) && i <= n <= |w.ledger.tasks| && ReconcileFrom(cfg, w, i, n, observe).Ok?
    ensures Kept(cfg, w, ReconcileFrom(cfg, w, i, n, observe).value)
  {
    ReconcileLoopKeeps(cfg, w, i, n, observe, ReconcileFrom(cfg, w, i, n, observe));
  }

  // ---- Supervisor decisions --------------------------------------------

  lemma DecideOneKeeps(cfg: Config, w: World, i: nat, o: Observation)
    requires WorldOk(cfg, w) && !cfg.hermes && i < |w.ledger.tasks| && DecideOne(cfg, w, i, o).Ok?
    ensures Kept(cfg, w, DecideOne(cfg, w, i, o).value)
  {
    var t := w.ledger.tasks[i];
    assert TaskOk(cfg, w.repo.commits, w.launches, w.landed, w.approvals, t);
    if t.status == DecisionRequired && t.packageId in cfg.packages {
      var kind, allowed := t.notes.failureKind.GetOr(Unclassified), t.notes.allowed.GetOr({});
      assert kind != MissingResultWithCommit;
      if HandoffProvider in allowed && KnownProvider(t) != "" {
        HandoffKeeps(cfg, w, i, cfg.packages[t.packageId], KnownProvider(t), kind, o.hasNext, o.checkpoint);
      } else {
        QuietMoveKeeps(cfg, w, i, if RetrySameProvider in allowed then Ready else Blocked, NO_NOTES);
      }
    }
  }

  lemma DecideRound(cfg: Config, w: World, i: nat, n: nat, observe: Observer) returns (next: World)
    requires WorldOk(cfg, w) && !cfg.hermes && i < n <= |w.ledger.tasks| && DecideFrom(cfg, w, i, n, observe).Ok?
    ensures Kept(cfg, w, next) && DecideFrom(cfg, next, i + 1, n, observe) == DecideFrom(cfg, w, i, n, observe)
  {
    DecideOneKeeps(cfg, w, i, observe(i));
    next := DecideOne(cfg, w, i, observe(i)).value;
  }

  lemma {:induction false} DecideFromKeeps(cfg: Config, w: World, i: nat, n: nat, observe: Observer)
    requires WorldOk(cfg, w) && !cfg.hermes && i <= n <= |w.ledger.tasks| && DecideFrom(cfg, w, i, n, observe).Ok?
    ensures Kept(cfg, w, DecideFrom(cfg, w, i, n, observe).value)
    decreases n - i
  {
    if i < n {
      var next := DecideRound(cfg, w, i, n, observe);
      DecideFromKeeps(cfg, next, i + 1, n, observe);
      KeptTwice(cfg, w, next, DecideFrom(cfg, next, i + 1, n, observe).value);
    }
  }

  // ---- Integration -----------------------------------------------------

  lemma {:induction false} CandidateOrigin(tasks: seq<Task>, states: seq<PackageState>, c: Candidate) returns (k: nat)
    requires Candidates(tasks, states).Ok? && c in Candidates(tasks, states).value
    ensures k < |states| && IsCandidate(tasks, states[k]) && states[k].head.Some?
    ensures c == Candidate(states[k].id, states[k].branch, states[k].head.value, states[k].taskId)
  {
    if IsCandidate(tasks, states[0]) && c == Candidates(tasks, states).value[0] {
      k := 0;
    } else {
      k := CandidateOrigin(tasks, states[1..], c);
      k := k + 1;
    }
  }

  lemma {:induction false} LastOfIsStored(tasks: seq<Task>, packageId: string) returns (k: nat)
    requires LastOf(tasks, packageId).Some?
    ensures k < |tasks| && tasks[k] == LastOf(tasks, packageId).value && tasks[k].packageId == packageId
  {
    if tasks[|tasks| - 1].packageId == packageId {
      k := |tasks| - 1;
    } else {
      k := LastOfIsStored(tasks[..|tasks| - 1], packageId);
    }
  }

  /** The task an integration marks by id answers to the package's id. */
  ghost predicate MarksMatch(tasks: seq<Task>, packageId: string, taskId: string) {
    var i := IndexOf(tasks, taskId);
    i < |tasks| && MatchesPackage(tasks[i], packageId)
  }

  lemma LookupMarksMatch(tasks: seq<Task>, id: string)
    requires DistinctIds(tasks) && LastOf(tasks, id).Some?
    ensures TaskForPackage(tasks, id).Some? && MarksMatch(tasks, id, TaskForPackage(tasks, id).value.id)
  {
    var k := LastOfIsStored(tasks, id);
    FoundIsMostUrgent(tasks, id, k);
    var j := FoundIsStored(tasks, id);
    assert IndexOf(tasks, tasks[j].id) == j;
  }

  /** The attempt at a candidate meets the gates, and marks a task that answers to
      its package. */
  lemma CandidateIsGated(cfg: Config, w: World, id: string)
    requires WorldOk(cfg, w) && id in cfg.packages
    requires IsCandidate(w.ledger.tasks, Classify(cfg, w.repo, w.trees, w.ledger.tasks, id))
    ensures GateOk(cfg, w.repo.commits, w.approvals, Attempt(id, LastOf(w.ledger.tasks, id)))
    ensures var taskId := Classify(cfg, w.repo, w.trees, w.ledger.tasks, id).taskId;
            taskId.Some? && MarksMatch(w.ledger.tasks, id, taskId.value)
  {
    var k := LastOfIsStored(w.ledger.tasks, id);
    assert TaskOk(cfg, w.repo.commits, w.launches, w.landed, w.approvals, w.ledger.tasks[k]);
    LookupMarksMatch(w.ledger.tasks, id);
  }

  lemma NotedKeeps(cfg: Config, w: World, a: Attempt)
    requires WorldOk(cfg, w) && GateOk(cfg, w.repo.commits, w.approvals, a)
    ensures WorldOk(cfg, w.(attempts := w.attempts + [a]))
  {
    var all := w.attempts + [a];
    forall k | 0 <= k < |all| ensures GateOk(cfg, w.repo.commits, w.approvals, all[k]) {
      if k < |w.attempts| {
        assert GateOk(cfg, w.repo.commits, w.approvals, w.attempts[k]);
      }
    }
  }

  /** An integration attempt kept the invariant and the launches, and activated
      nothing. */
  ghost predicate Integrated(cfg: Config, w: World, t: World) {
    && WorldOk(cfg, t)
    && ActiveCount(t.ledger.tasks) <= ActiveCount(w.ledger.tasks)
    && t.launches == w.launches
    && NothingDropped(w, t) && NoNewDecisions(w.ledger.tasks, t.ledger.tasks)
  }

  /** A task moved to `integrating` and on, whosever it is. */
  lemma BracketKeeps(cfg: Config, w: World, i: nat, last: Status)
    requires WorldOk(cfg, w) && i < |w.ledger.tasks| && (last == Merged || last == Failed)
    requires last == Merged ==> LandedTask(cfg, w.landed, w.ledger.tasks[i])
    requires Move(w, i, Integrating, NO_NOTES).Ok?
    requires Move(Move(w, i, Integrating, NO_NOTES).value, i, last, NO_NOTES).Ok?
    ensures var t := Move(Move(w, i, Integrating, NO_NOTES).value, i, last, NO_NOTES).value;
            Integrated(cfg, w, t) && t == w.(ledger := t.ledger)
  {
    var task, mid := w.ledger.tasks[i], Move(w, i, Integrating, NO_NOTES).value;
    MoveShape(w, i, Integrating, NO_NOTES);
    MoveShape(mid, i, last, NO_NOTES);
    var final := Moved(Moved(task, Integrating, Note(NO_NOTES)), last, Note(NO_NOTES));
    assert TaskOk(cfg, w.repo.commits, w.launches, w.landed, w.approvals, task);
    assert Move(mid, i, last, NO_NOTES).value.ledger.tasks == w.ledger.tasks[i := final];
    TasksOkReplaced(cfg, w.repo.commits, w.launches, w.landed, w.approvals, w.ledger.tasks, i, final);
  }

  lemma RepoGrowthKeeps(cfg: Config, w: World, repo: RepoState)
    requires WorldOk(cfg, w) && ValidRepo(repo) && w.repo.commits <= repo.commits
    requires repo.refs.Keys == w.repo.refs.Keys
    ensures WorldOk(cfg, w.(repo := repo))
  {
    SameNamesKeep(cfg, w, repo.refs, w.trees);
    GrowthKeeps(cfg, w, w.(repo := repo));
  }

  lemma IntegrateCandidateKeeps(cfg: Config, w: World, c: Candidate, a: I.Answers)
    requires WorldOk(cfg, w) && FitsSuite(cfg.commands, a.env) && c.head < |w.repo.commits|
    requires GateOk(cfg, w.repo.commits, w.approvals, Attempt(c.packageId, LastOf(w.ledger.tasks, c.packageId)))
    requires c.packageId in cfg.packages && c.taskId.Some? && MarksMatch(w.ledger.tasks, c.packageId, c.taskId.value)
    requires IntegrateCandidate(cfg, w, c, a).Ok?
    ensures Integrated(cfg, w, IntegrateCandidate(cfg, w, c, a).value)
    ensures IntegrateCandidate(cfg, w, c, a).value.attempts
            == w.attempts + [Attempt(c.packageId, LastOf(w.ledger.tasks, c.packageId))]
  {
    var call := CallFor(cfg, w.repo.commits, c);
    var noted := w.(attempts := w.attempts + [Attempt(c.packageId, LastOf(w.ledger.tasks, c.packageId))]);
    var (repo, o) := I.Integrate(w.repo, call, a);
    NotedKeeps(cfg, w, Attempt(c.packageId, LastOf(w.ledger.tasks, c.packageId)));
    IntegrateFrame(w.repo, call, a);
    RepoGrowthKeeps(cfg, noted, repo);
    var more := if o.Raised? then {} else {c.packageId};
    LandingKeeps(cfg, noted.(repo := repo), more);
    var done := noted.(repo := repo, landed := w.landed + more);
    assert done.landed == if o.Raised? then w.landed else w.landed + {c.packageId};
    BracketKeeps(cfg, done, CandidateTask(w.ledger.tasks, c), if o.Raised? then Failed else Merged);
  }

  lemma IntegratePhaseKeeps(cfg: Config, w: World, a: I.Answers)
    requires ConfigOk(cfg) && WorldOk(cfg, w) && FitsSuite(cfg.commands, a.env) && IntegratePhase(cfg, w, a).Ok?
    ensures Integrated(cfg, w, IntegratePhase(cfg, w, a).value)
    ensures w.attempts <= IntegratePhase(cfg, w, a).value.attempts
  {
    SortedPackages(cfg);
    var ids := Sorted(cfg.order);
    var tasks := w.ledger.tasks;
    var states := ClassifyEach(cfg, w.repo, w.trees, tasks, ids);
    var candidates := Candidates(tasks, states).value;
    if candidates != [] {
      var k := CandidateOrigin(tasks, states, candidates[0]);
      assert ids[k] in ids;
      CandidateIsGated(cfg, w, ids[k]);
      IntegrateCandidateKeeps(cfg, w, candidates[0], a);
    }
  }

  // ---- Launching -------------------------------------------------------

  /** Launching kept the invariant and activated at most `count` tasks. */
  ghost predicate LaunchKept(cfg: Config, w: World, t: World, count: nat) {
    && WorldOk(cfg, t)
    && SameRecords(w.ledger.tasks, t.ledger.tasks) && t.landed == w.landed
    && ActiveCount(t.ledger.tasks) <= ActiveCount(w.ledger.tasks) + count
    && w.launches <= t.launches && t.attempts == w.attempts
    && NothingDropped(w, t) && NoNewDecisions(w.ledger.tasks, t.ledger.tasks)
  }

  /** The record is the same package's, and awaits a decision only if it did. */
  ghost predicate NoDecision(a: Task, b: Task) {
    b.packageId == a.packageId && (b.status == DecisionRequired ==> a.status == DecisionRequired)
  }

  ghost predicate NoNewDecisions(a: seq<Task>, b: seq<Task>) {
    |a| == |b| && forall i {:trigger NoDecision(a[i], b[i])} | 0 <= i < |a| :: NoDecision(a[i], b[i])
  }

  lemma NoNewDecisionsTwice(a: seq<Task>, b: seq<Task>, c: seq<Task>)
    requires NoNewDecisions(a, b) && NoNewDecisions(b, c)
    ensures NoNewDecisions(a, c)
  {
    forall i | 0 <= i < |a| ensures NoDecision(a[i], c[i]) {
      assert NoDecision(a[i], b[i]) && NoDecision(b[i], c[i]);
    }
  }

  lemma LaunchMoveKeeps(cfg: Config, w: World, i: nat, status: Status, notes: Notes)
    requires WorldOk(cfg, w) && i < |w.ledger.tasks| && Move(w, i, status, notes).Ok?
    requires !Undispatched(w.ledger.tasks[i].status)
    requires Plain(status) && status != DecisionRequired
    requires !cfg.hermes ==> notes.failureKind != Some(MissingResultWithCommit)
    ensures var t := Move(w, i, status, notes).value;
            && WorldOk(cfg, t) && t == w.(ledger := t.ledger) && SameRecords(w.ledger.tasks, t.ledger.tasks)
            && NoNewDecisions(w.ledger.tasks, t.ledger.tasks)
            && t.ledger.tasks[i].status == status
            && ActiveCount(t.ledger.tasks) + One(w.ledger.tasks[i].status) == ActiveCount(w.ledger.tasks) + One(status)
  {
    assert TaskOk(cfg, w.repo.commits, w.launches, w.landed, w.approvals, w.ledger.tasks[i]);
    MoveKeeps(cfg, w, i, status, notes);
    OneRecord(w.ledger.tasks, i, status, notes);
  }

  lemma CalledKeeps(cfg: Config, w: World, id: string)
    requires WorldOk(cfg, w) && id in cfg.packages && DepsDone(cfg, w.launches, w.landed, id)
    ensures WorldOk(cfg, w.(launches := w.launches + [id]))
  {
    var called := w.(launches := w.launches + [id]);
    forall k | 0 <= k < |called.launches| && called.launches[k] in cfg.packages
      ensures DepsDone(cfg, called.launches[..k], called.landed, called.launches[k])
    {
      assert called.launches[..k] == w.launches[..k];
      if k == |w.launches| {
        assert w.launches[..k] == w.launches;
      } else {
        assert DepsDone(cfg, w.launches[..k], w.landed, w.launches[k]);
      }
    }
    GrowthKeeps(cfg, w, called);
  }

  /** When `ensure_worktree` returns: the registered worktree is on the package's branch,
      and clean unless this is a repair; or there was none, this is no repair, no usable
      checkout is in the way, and Git could add it for a branch that is there or can be
      made. */
  ghost predicate GetsWorktree(cfg: Config, w: World, p: Package, repair: bool, answer: WorktreeAnswer) {
    if p.tree in w.trees && w.trees[p.tree].registered then
      w.trees[p.tree].branch == p.branch && (w.trees[p.tree].dirty ==> repair)
    else
      && !repair && answer == WorktreeAdded
      && (p.tree in w.trees ==> !(w.trees[p.tree].gitMarker && w.trees[p.tree].usable))
      && (p.branch in w.repo.refs || cfg.integration in w.repo.refs)
  }

  /** There is nothing at the worktree's path that `ensure_worktree` would keep. */
  ghost predicate PathIsFree(w: World, p: Package) {
    p.tree in w.trees ==> !w.trees[p.tree].registered && !(w.trees[p.tree].gitMarker && w.trees[p.tree].usable)
  }

  /** At most the package's own branch, at the integration head, and its own worktree
      are new or gone, and the worktree only if its path is free. */
  ghost predicate Provisioned(cfg: Config, w: World, t: World, p: Package) {
    && t.repo == w.repo.(refs := t.repo.refs)
    && (forall b | b in w.repo.refs :: b in t.repo.refs && t.repo.refs[b] == w.repo.refs[b])
    && (forall b | b in t.repo.refs && b !in w.repo.refs ::
          b == p.branch && cfg.integration in w.repo.refs && t.repo.refs[b] == w.repo.refs[cfg.integration])
    && (forall d | d != p.tree ::
          (d in t.trees <==> d in w.trees) && (d in t.trees ==> t.trees[d] == w.trees[d]))
    && (!PathIsFree(w, p) ==> t.repo == w.repo && t.trees == w.trees)
  }

  /** Preparing a worktree never touches a registered worktree, a usable foreign
      checkout, another package's worktree or an existing branch. When it returns,
      the package's branch is checked out in a registered worktree, clean unless
      this is a repair; a new branch starts at the integration head. */
  lemma WorktreeIsSafe(cfg: Config, w: World, p: Package, repair: bool, answer: WorktreeAnswer)
    ensures var (t, ok) := EnsureWorktree(cfg, w, p, repair, answer);
            && t == w.(repo := t.repo, trees := t.trees) && Provisioned(cfg, w, t, p)
            && (ok <==> GetsWorktree(cfg, w, p, repair, answer))
            && (ok ==>
                  && p.tree in t.trees && t.trees[p.tree].registered && t.trees[p.tree].branch == p.branch
                  && (t.trees[p.tree].dirty ==> repair))
            && (ok && PathIsFree(w, p) ==> t.trees[p.tree] == Tree(true, true, true, p.branch, false))
            && (!ok && PathIsFree(w, p) ==> p.tree !in t.trees)
            && (p.branch in t.repo.refs <==>
                  p.branch in w.repo.refs
                  || (PathIsFree(w, p) && !repair && cfg.integration in w.repo.refs && answer != AddFailed))
  {
  }

  lemma WorktreeKeeps(cfg: Config, w: World, id: string, repair: bool, answer: WorktreeAnswer)
    requires AllApart(cfg) && WorldOk(cfg, w) && id in cfg.packages && id in w.launches
    ensures var t := EnsureWorktree(cfg, w, cfg.packages[id], repair, answer).0;
            WorldOk(cfg, t) && t == w.(repo := t.repo, trees := t.trees) && NothingDropped(w, t)
  {
    var p := cfg.packages[id];
    var t := EnsureWorktree(cfg, w, p, repair, answer).0;
    WorktreeIsSafe(cfg, w, p, repair, answer);
    forall q | q in cfg.packages && Exists(t.repo.refs, t.trees, cfg.packages[q]) ensures q in w.launches {
      assert Exists(w.repo.refs, w.trees, cfg.packages[q]) || q == id || !Apart(cfg.packages[q], p);
    }
    GrowthKeeps(cfg, w, t);
  }

  lemma TwoMovesKeep(cfg: Config, w: World, i: nat, first: Status, notes: Notes, second: Status, more: Notes)
    requires WorldOk(cfg, w) && i < |w.ledger.tasks| && Launchable(w.ledger.tasks[i].status)
    requires Move(w, i, first, notes).Ok? && Move(Move(w, i, first, notes).value, i, second, more).Ok?
    requires first == Assigned && (second == Blocked || second == Running)
    requires notes.failureKind.None? && more.failureKind.None?
    ensures LaunchKept(cfg, w, Move(Move(w, i, first, notes).value, i, second, more).value,
                       if second == Running then 1 else 0)
  {
    var mid := Move(w, i, first, notes).value;
    LaunchMoveKeeps(cfg, w, i, first, notes);
    LaunchMoveKeeps(cfg, mid, i, second, more);
    SameRecordsTwice(w.ledger.tasks, mid.ledger.tasks, Move(mid, i, second, more).value.ledger.tasks);
    NoNewDecisionsTwice(w.ledger.tasks, mid.ledger.tasks, Move(mid, i, second, more).value.ledger.tasks);
  }

  lemma StartTaskKeeps(cfg: Config, w: World, i: nat, provider: string, launch: bool, start: CallAnswer)
    requires WorldOk(cfg, w) && i < |w.ledger.tasks| && Launchable(w.ledger.tasks[i].status)
    requires StartTask(w, i, provider, launch, start).Ok?
    ensures LaunchKept(cfg, w, StartTask(w, i, provider, launch, start).value.0,
                       if StartTask(w, i, provider, launch, start).value.1 then 1 else 0)
  {
    var notes := NO_NOTES.(provider := Some(provider));
    if !launch {
      LaunchMoveKeeps(cfg, w, i, Ready, notes);
    } else if start == Refuses {
      TwoMovesKeep(cfg, w, i, Assigned, notes, Blocked, notes);
    } else {
      TwoMovesKeep(cfg, w, i, Assigned, notes, Running, NO_NOTES);
    }
  }

  lemma PreparedTaskKeeps(cfg: Config, w: World, prepared: CallAnswer, i: nat, provider: string, launch: bool,
                          start: CallAnswer)
    requires WorldOk(cfg, w) && i < |w.ledger.tasks| && Launchable(w.ledger.tasks[i].status)
    requires PreparedTask(w, prepared, i, provider, launch, start).Ok?
    ensures LaunchKept(cfg, w, PreparedTask(w, prepared, i, provider, launch, start).value.0,
                       if PreparedTask(w, prepared, i, provider, launch, start).value.1 then 1 else 0)
  {
    if prepared == Returns {
      StartTaskKeeps(cfg, w, i, provider, launch, start);
    } else {
      LaunchMoveKeeps(cfg, w, i, Blocked, NO_NOTES.(provider := Some(provider)));
    }
  }

  /** The launch is recorded and its worktree prepared. */
  lemma PreparedKeeps(cfg: Config, w: World, id: string, repair: bool, answer: WorktreeAnswer)
    requires AllApart(cfg) && WorldOk(cfg, w) && id in cfg.packages && DepsDone(cfg, w.launches, w.landed, id)
    ensures var t := EnsureWorktree(cfg, w.(launches := w.launches + [id]), cfg.packages[id], repair, answer).0;
            && WorldOk(cfg, t) && t.ledger == w.ledger && t.launches == w.launches + [id] && t.attempts == w.attempts
            && t.landed == w.landed && NothingDropped(w, t)
  {
    CalledKeeps(cfg, w, id);
    WorktreeKeeps(cfg, w.(launches := w.launches + [id]), id, repair, answer);
  }

  /** A launch whose adapter is ready. */
  lemma LaunchHereKeeps(cfg: Config, w: World, i: nat, p: Package, provider: string, launch: bool, a: LaunchAnswers)
    requires AllApart(cfg) && WorldOk(cfg, w) && i < |w.ledger.tasks| && Launchable(w.ledger.tasks[i].status)
    requires w.ledger.tasks[i].packageId in cfg.packages && p == cfg.packages[w.ledger.tasks[i].packageId]
    requires DepsDone(cfg, w.launches, w.landed, w.ledger.tasks[i].packageId)
    requires a.adapter == Returns && LaunchTask(cfg, w, i, p, provider, launch, a).Ok?
    ensures LaunchKept(cfg, w, LaunchTask(cfg, w, i, p, provider, launch, a).value.0,
                       if LaunchTask(cfg, w, i, p, provider, launch, a).value.1 then 1 else 0)
  {
    var repair := w.ledger.tasks[i].status == HandoffNeeded && p.tree in w.trees;
    var called := w.(launches := w.launches + [w.ledger.tasks[i].packageId]);
    PreparedKeeps(cfg, w, w.ledger.tasks[i].packageId, repair, a.worktree);
    var (ready, ok) := EnsureWorktree(cfg, called, p, repair, a.worktree);
    PreparedTaskKeeps(cfg, ready, if ok then a.command else Refuses, i, provider, launch, a.start);
    NothingDroppedTwice(w, ready, LaunchTask(cfg, w, i, p, provider, launch, a).value.0);
  }

  lemma LaunchTaskKeeps(cfg: Config, w: World, i: nat, p: Package, provider: string, launch: bool, a: LaunchAnswers)
    requires AllApart(cfg) && WorldOk(cfg, w) && i < |w.ledger.tasks| && Launchable(w.ledger.tasks[i].status)
    requires w.ledger.tasks[i].packageId in cfg.packages && p == cfg.packages[w.ledger.tasks[i].packageId]
    requires LaunchTask(cfg, w, i, p, provider, launch, a).Ok?
    ensures LaunchKept(cfg, w, LaunchTask(cfg, w, i, p, provider, launch, a).value.0,
                       if LaunchTask(cfg, w, i, p, provider, launch, a).value.1 then 1 else 0)
  {
    assert TaskOk(cfg, w.repo.commits, w.launches, w.landed, w.approvals, w.ledger.tasks[i]);
    if a.adapter == Returns {
      LaunchHereKeeps(cfg, w, i, p, provider, launch, a);
    } else {
      var called := w.(launches := w.launches + [w.ledger.tasks[i].packageId]);
      CalledKeeps(cfg, w, w.ledger.tasks[i].packageId);
      PreparedTaskKeeps(cfg, called, a.adapter, i, provider, launch, a.start);
    }
  }

  lemma PauseKeeps(cfg: Config, w: World, i: nat, p: Package, provider: string, c: CheckpointAnswer)
    requires WorldOk(cfg, w) && i < |w.ledger.tasks| && Launchable(w.ledger.tasks[i].status)
    requires PauseForQuota(cfg, w, i, p, provider, c).Ok?
    ensures LaunchKept(cfg, w, PauseForQuota(cfg, w, i, p, provider, c).value, 0)
  {
    CheckpointKeeps(cfg, w, p, c);
    LaunchMoveKeeps(cfg, Checkpointed(cfg, w, p, c), i, HandoffNeeded,
                    NO_NOTES.(provider := Some(provider), failureKind := Some(PauseThreshold)));
  }

  lemma LaunchWithKeeps(cfg: Config, w: World, i: nat, p: Package, provider: string, launch: bool, a: LaunchAnswers)
    requires AllApart(cfg) && WorldOk(cfg, w) && i < |w.ledger.tasks| && Launchable(w.ledger.tasks[i].status)
    requires w.ledger.tasks[i].packageId in cfg.packages && p == cfg.packages[w.ledger.tasks[i].packageId]
    requires LaunchWith(cfg, w, i, p, provider, launch, a).Ok?
    ensures LaunchKept(cfg, w, LaunchWith(cfg, w, i, p, provider, launch, a).value.0,
                       if LaunchWith(cfg, w, i, p, provider, launch, a).value.1 then 1 else 0)
  {
    if a.quotaRefuses {
      PauseKeeps(cfg, w, i, p, provider, a.checkpoint);
    } else {
      LaunchTaskKeeps(cfg, w, i, p, provider, launch, a);
    }
  }

  lemma SetAsideKeeps(cfg: Config, w: World, i: nat, status: Status)
    requires WorldOk(cfg, w) && i < |w.ledger.tasks| && Launchable(w.ledger.tasks[i].status)
    requires status == Failed || status == Blocked
    ensures Move(w, i, status, NO_NOTES).Ok? && LaunchKept(cfg, w, Move(w, i, status, NO_NOTES).value, 0)
  {
    LaunchMoveKeeps(cfg, w, i, status, NO_NOTES);
  }

  lemma LaunchOneKeeps(cfg: Config, w: World, i: nat, launch: bool, a: LaunchAnswers)
    requires AllApart(cfg) && WorldOk(cfg, w) && i < |w.ledger.tasks| && LaunchOne(cfg, w, i, launch, a).Ok?
    ensures LaunchKept(cfg, w, LaunchOne(cfg, w, i, launch, a).value.0,
                       if LaunchOne(cfg, w, i, launch, a).value.1 then 1 else 0)
  {
    var t := w.ledger.tasks[i];
    if Launchable(t.status) {
      if t.packageId !in cfg.packages {
        SetAsideKeeps(cfg, w, i, Failed);
      } else if a.provider.None? {
        SetAsideKeeps(cfg, w, i, Blocked);
      } else {
        LaunchWithKeeps(cfg, w, i, cfg.packages[t.packageId], a.provider.value, launch, a);
      }
    }
  }

  lemma LaunchKeptTwice(cfg: Config, w: World, m: World, t: World, a: nat, b: nat)
    requires LaunchKept(cfg, w, m, a) && LaunchKept(cfg, m, t, b)
    ensures LaunchKept(cfg, w, t, a + b)
  {
    SameRecordsTwice(w.ledger.tasks, m.ledger.tasks, t.ledger.tasks);
    NoNewDecisionsTwice(w.ledger.tasks, m.ledger.tasks, t.ledger.tasks);
    NothingDroppedTwice(w, m, t);
  }

  /** One round of the launch loop. */
  lemma LaunchRoundKeeps(cfg: Config, w: World, i: nat, n: nat, slots: nat, launch: bool, answers: Launcher, r: Outcome)
      returns (next: World, left: nat)
    requires AllApart(cfg) && WorldOk(cfg, w) && i < n && slots > 0
    requires LeadsTo(cfg, w, i, n, slots, launch, answers, r) && r.Ok?
    ensures left <= slots && LaunchKept(cfg, w, next, slots - left)
    ensures LeadsTo(cfg, next, i + 1, n, left, launch, answers, r)
  {
    LeadsToUnfolds(cfg, w, i, n, slots, launch, answers, r);
    LaunchOneKeeps(cfg, w, i, launch, answers(i));
    var step := LaunchOne(cfg, w, i, launch, answers(i)).value;
    next, left := step.0, if step.1 then slots - 1 else slots;
  }

  lemma {:induction false} LaunchLoopKeeps(cfg: Config, w: World, i: nat, n: nat, slots: nat, launch: bool,
                                           answers: Launcher, r: Outcome)
    requires AllApart(cfg) && WorldOk(cfg, w) && i <= n
    requires LeadsTo(cfg, w, i, n, slots, launch, answers, r) && r.Ok?
    ensures LaunchKept(cfg, w, r.value, slots)
    decreases n - i
  {
    if i == n || slots == 0 {
      LoopEnds(cfg, w, i, n, slots, launch, answers, r);
    } else {
      var next, left := LaunchRoundKeeps(cfg, w, i, n, slots, launch, answers, r);
      LaunchLoopKeeps(cfg, next, i + 1, n, left, launch, answers, r);
      LaunchKeptTwice(cfg, w, next, r.value, slots - left, left);
    }
  }

  lemma LaunchFromKeeps(cfg: Config, w: World, i: nat, n: nat, slots: nat, launch: bool, answers: Launcher)
    requires AllApart(cfg) && WorldOk(cfg, w) && i <= n <= |w.ledger.tasks|
    requires LaunchFrom(cfg, w, i, n, slots, launch, answers).Ok?
    ensures LaunchKept(cfg, w, LaunchFrom(cfg, w, i, n, slots, launch, answers).value, slots)
  {
    LaunchLoopKeeps(cfg, w, i, n, slots, launch, answers, LaunchFrom(cfg, w, i, n, slots, launch, answers));
  }
}
