/** What single steps of the controller achieve for the task they handle
    (engine/controller.py, provisioning/worktrees.py). */
module Steps {
  import opened Classifier
  import opened Git
  import opened History
  import I = Integration
  import opened Invariants
  import opened Ledger
  import opened Project
  import opened Runner
  import opened Text
  import opened Tick
  import opened Wrappers

  // ---- Hydration -------------------------------------------------------

  /** The status a classification asks for: a task at work, done with or stuck keeps
      its own. */
  function HydratedStatus(status: Status, kind: Kind): Status {
    if status in {Assigned, Running, Validating, Reviewing, Integrating, Merged, Blocked, Failed} then status
    else if kind == MergedIn then Merged
    else if kind in {ExecutionReady, RepairRequired} then Ready
    else status
  }

  lemma HydratedRange(status: Status, kind: Kind)
    ensures HydratedStatus(status, kind) in {status, Ready, Merged}
  {
  }

  lemma TargetIsAskedFor(status: Status, kind: Kind)
    ensures HydrateTarget(status, kind).GetOr(status) == HydratedStatus(status, kind)
  {
  }

  /** Every classified package's task ends in the status its classification asks
      for, and every other task is untouched, whatever the order of the states. */
  lemma {:induction false} HydrationReachesTargets(w: World, states: seq<PackageState>, j: nat)
    requires forall a, b | 0 <= a < b < |states| :: states[a].id != states[b].id
    requires HydrateEach(w, states).Ok? && j < |w.ledger.tasks| && IndexOf(w.ledger.tasks, w.ledger.tasks[j].id) == j
    ensures var before, after := w.ledger.tasks, HydrateEach(w, states).value.ledger.tasks;
            && |after| == |before| && after[j] == before[j].(status := after[j].status)
            && (forall k | 0 <= k < |states| && TaskIdFor(states[k].id) == before[j].id ::
                  after[j].status == HydratedStatus(before[j].status, states[k].kind))
            && ((forall k | 0 <= k < |states| :: TaskIdFor(states[k].id) != before[j].id) ==> after[j] == before[j])
    decreases |states|
  {
    if states != [] {
      var s, rest := states[0], states[1..];
      var i := IndexOf(w.ledger.tasks, TaskIdFor(s.id));
      var target := if i < |w.ledger.tasks| then HydrateTarget(w.ledger.tasks[i].status, s.kind) else None;
      var next := if target.Some? then Move(w, i, target.value, NO_NOTES).value else w;
      TargetIsAskedFor(w.ledger.tasks[j].status, s.kind);
      HydratedOne(w, s, j);
      assert IndexOf(next.ledger.tasks, next.ledger.tasks[j].id) == j by {
        assert forall m | 0 <= m < |w.ledger.tasks| :: next.ledger.tasks[m].id == w.ledger.tasks[m].id;
      }
      HydrationReachesTargets(next, rest, j);
      forall k | 0 <= k < |rest| ensures TaskIdFor(rest[k].id) != TaskIdFor(s.id) {
        assert rest[k] == states[k + 1];
        assert TaskIdFor(rest[k].id)[5..] == rest[k].id && TaskIdFor(s.id)[5..] == s.id;
      }
      forall k | 0 < k < |states| ensures states[k] == rest[k - 1] {
      }
    }
  }

  lemma HydratedOne(w: World, s: PackageState, j: nat)
    requires j < |w.ledger.tasks| && IndexOf(w.ledger.tasks, w.ledger.tasks[j].id) == j
    requires var i := IndexOf(w.ledger.tasks, TaskIdFor(s.id));
             i < |w.ledger.tasks| && HydrateTarget(w.ledger.tasks[i].status, s.kind).Some? ==>
               Move(w, i, HydrateTarget(w.ledger.tasks[i].status, s.kind).value, NO_NOTES).Ok?
    ensures var i := IndexOf(w.ledger.tasks, TaskIdFor(s.id));
            var target := if i < |w.ledger.tasks| then HydrateTarget(w.ledger.tasks[i].status, s.kind) else None;
            var next := if target.Some? then Move(w, i, target.value, NO_NOTES).value else w;
            next.ledger.tasks[j]
            == if TaskIdFor(s.id) == w.ledger.tasks[j].id
               then w.ledger.tasks[j].(status := HydratedStatus(w.ledger.tasks[j].status, s.kind))
               else w.ledger.tasks[j]
  {
    TargetIsAskedFor(w.ledger.tasks[j].status, s.kind);
  }

  /** A stored task answers for the package. */
  ghost predicate HasTask(tasks: seq<Task>, id: string) {
    exists k :: 0 <= k < |tasks| && (tasks[k].id == "task-" + id || tasks[k].packageId == id)
  }

  /** The planned task made for one of the packages. */
  ghost predicate MadeFor(cfg: Config, ids: seq<string>, t: Task) {
    && t.packageId in ids && t.packageId in cfg.packages
    && t == Task("task-" + t.packageId, t.packageId, t.packageId + " " + cfg.packages[t.packageId].name, Planned,
                 NO_NOTES)
  }

  /** Before it classifies, hydration makes a planned task for exactly the packages that
      have none, and changes no stored one. */
  lemma {:induction false} EveryPackageHasTask(l: LedgerState, cfg: Config, ids: seq<string>)
    requires forall id | id in ids :: id in cfg.packages
    ensures var tasks := EnsureAll(l, cfg, ids).tasks;
            && l.tasks <= tasks && (forall id | id in ids :: HasTask(tasks, id))
            && (forall k {:trigger tasks[k]} | |l.tasks| <= k < |tasks| ::
                  MadeFor(cfg, ids, tasks[k]) && !HasTask(tasks[..k], tasks[k].packageId))
    decreases |ids|
  {
    if ids != [] {
      var m := Ensured(l, ids[0], cfg.packages[ids[0]].name);
      EveryPackageHasTask(m, cfg, ids[1..]);
      assert EnsureAll(l, cfg, ids) == EnsureAll(m, cfg, ids[1..]);
      EnsuredHasTask(l, cfg, ids[0]);
      var tasks := EnsureAll(l, cfg, ids).tasks;
      assert ids == [ids[0]] + ids[1..];
      MoreHaveTask(m.tasks, tasks, ids[0]);
      assert tasks[..|l.tasks|] == l.tasks;
    }
  }

  lemma EnsuredHasTask(l: LedgerState, cfg: Config, id: string)
    requires id in cfg.packages
    ensures var m := Ensured(l, id, cfg.packages[id].name);
            && l.tasks <= m.tasks && HasTask(m.tasks, id)
            && (HasTask(l.tasks, id) ==> m == l)
            && (!HasTask(l.tasks, id) ==> |m.tasks| == |l.tasks| + 1 && MadeFor(cfg, [id], m.tasks[|l.tasks|])
                                          && m.tasks[|l.tasks|].packageId == id)
  {
    var e := Existing(l.tasks, id);
    if e < |l.tasks| {
      assert l.tasks[e].id == "task-" + id || l.tasks[e].packageId == id;
    } else {
      var m := Ensured(l, id, cfg.packages[id].name);
      assert m.tasks[|l.tasks|].packageId == id;
    }
  }

  lemma MoreHaveTask(tasks: seq<Task>, more: seq<Task>, id: string)
    requires tasks <= more && HasTask(tasks, id)
    ensures HasTask(more, id)
  {
    var k :| 0 <= k < |tasks| && (tasks[k].id == "task-" + id || tasks[k].packageId == id);
    assert more[k] == tasks[k];
  }

  /** Hydration as a whole: a task of a configured package ends in the status its
      package's classification asks for, every other task stays as it was. */
  lemma HydrationMeans(cfg: Config, w: World, j: nat)
    requires ConfigOk(cfg) && WorldOk(cfg, w) && Hydrate(cfg, w).Ok?
    requires (forall id | id in cfg.order :: id in cfg.packages) && j < |EnsureAll(w.ledger, cfg, cfg.order).tasks|
    ensures var tasks, after := EnsureAll(w.ledger, cfg, cfg.order).tasks, Hydrate(cfg, w).value.ledger.tasks;
            && |after| == |tasks|
            && after[j] == if tasks[j].packageId in cfg.packages
                 then tasks[j].(status := HydratedStatus(tasks[j].status,
                                  Classify(cfg, w.repo, w.trees, tasks, tasks[j].packageId).kind))
                 else tasks[j]
  {
    SortedPackages(cfg);
    var ids, l := Sorted(cfg.order), EnsureAll(w.ledger, cfg, cfg.order);
    var states := ClassifyEach(cfg, w.repo, w.trees, l.tasks, ids);
    var looked := w.(ledger := l, landed := w.landed + MergedIds(cfg, w.repo));
    EnsureAllKeeps(cfg, w, cfg.order);
    var t := l.tasks[j];
    assert TaskOk(cfg, w.repo.commits, w.launches, w.landed, w.approvals, t);
    assert IndexOf(l.tasks, t.id) == j;
    StatesByTask(cfg, w.repo, w.trees, l.tasks, ids, t);
    HydrationReachesTargets(looked, states, j);
    if t.packageId in cfg.packages {
      var k :| 0 <= k < |ids| && ids[k] == t.packageId;
      assert TaskIdFor(states[k].id) == t.id;
    }
  }

  lemma StatesByTask(cfg: Config, repo: RepoState, trees: map<string, Tree>, tasks: seq<Task>, ids: seq<string>,
                     t: Task)
    requires ValidRepo(repo) && (forall id | id in ids :: id in cfg.packages) && Distinct(ids)
    requires t.id == TaskIdFor(t.packageId)
    ensures var states := ClassifyEach(cfg, repo, trees, tasks, ids);
            && (forall a, b | 0 <= a < b < |states| :: states[a].id != states[b].id)
            && forall k | 0 <= k < |states| :: TaskIdFor(states[k].id) == t.id <==> ids[k] == t.packageId
  {
    var states := ClassifyEach(cfg, repo, trees, tasks, ids);
    forall k | 0 <= k < |states|
      ensures states[k].id == ids[k] && (TaskIdFor(ids[k]) == t.id <==> ids[k] == t.packageId)
    {
      assert TaskIdFor(ids[k])[5..] == ids[k] && t.id[5..] == t.packageId;
    }
  }

  /** A stored task keeps its status, becomes ready or is found merged. */
  lemma HydratedStays(cfg: Config, w: World, j: nat)
    requires ConfigOk(cfg) && WorldOk(cfg, w) && Hydrate(cfg, w).Ok? && j < |w.ledger.tasks|
    ensures var after := Hydrate(cfg, w).value.ledger.tasks;
            j < |after| && after[j].status in {w.ledger.tasks[j].status, Ready, Merged}
  {
    SortedPackages(cfg);
    EveryPackageHasTask(w.ledger, cfg, cfg.order);
    HydrationMeans(cfg, w, j);
    var tasks := EnsureAll(w.ledger, cfg, cfg.order).tasks;
    if tasks[j].packageId in cfg.packages {
      HydratedRange(tasks[j].status, Classify(cfg, w.repo, w.trees, tasks, tasks[j].packageId).kind);
    }
  }

  /** The only task, stored or to be made, that answers to its package's id. */
  ghost predicate SoleAnswer(cfg: Config, tasks: seq<Task>, j: nat)
    requires j < |tasks|
  {
    && (forall k | 0 <= k < |tasks| && k != j :: !MatchesPackage(tasks[k], tasks[j].packageId))
    && forall id | id in cfg.packages && id != tasks[j].packageId ::
         !(tasks[j].packageId + " " <= id + " " + cfg.packages[id].name)
  }

  /** Tasks are made in the order of the configuration. */
  lemma {:induction false} TasksAreMadeInOrder(l: LedgerState, cfg: Config, ids: seq<string>, id: string)
    requires id in cfg.packages && forall x | x in ids :: x in cfg.packages
    ensures EnsureAll(l, cfg, ids + [id]) == Ensured(EnsureAll(l, cfg, ids), id, cfg.packages[id].name)
    decreases |ids|
  {
    if ids == [] {
      assert ids + [id] == [id] && [id][1..] == [];
    } else {
      assert (ids + [id])[1..] == ids[1..] + [id] && (ids + [id])[0] == ids[0];
      TasksAreMadeInOrder(Ensured(l, ids[0], cfg.packages[ids[0]].name), cfg, ids[1..], id);
    }
  }

  /** The classification of a package to which only its own task answers. */
  lemma OwnTaskIsClassified(cfg: Config, w: World, j: nat)
    requires ConfigOk(cfg) && WorldOk(cfg, w) && j < |w.ledger.tasks| && SoleAnswer(cfg, w.ledger.tasks, j)
    requires (forall id | id in cfg.order :: id in cfg.packages) && w.ledger.tasks[j].packageId in cfg.packages
    ensures var tasks := EnsureAll(w.ledger, cfg, cfg.order).tasks;
            && j < |tasks| && tasks[j] == w.ledger.tasks[j]
            && TaskForPackage(tasks, w.ledger.tasks[j].packageId) == Some(w.ledger.tasks[j])
  {
    var tasks, id := EnsureAll(w.ledger, cfg, cfg.order).tasks, w.ledger.tasks[j].packageId;
    EveryPackageHasTask(w.ledger, cfg, cfg.order);
    assert TaskOk(cfg, w.repo.commits, w.launches, w.landed, w.approvals, w.ledger.tasks[j]);
    forall k | 0 <= k < |tasks| && k != j ensures !MatchesPackage(tasks[k], id) {
      if k >= |w.ledger.tasks| {
        assert MadeFor(cfg, cfg.order, tasks[k]) && !HasTask(tasks[..k], tasks[k].packageId);
        assert tasks[..k][j] == tasks[j];
      }
    }
    OnlyMatchIsFound(tasks, j, id);
  }

  ghost predicate SomeUnmerged(cfg: Config, repo: RepoState, p: Package)
    requires ValidRepo(repo)
  {
    exists d :: d in p.deps && !(d in cfg.packages && Behind(cfg, repo, cfg.packages[d]))
  }

  /** When hydration leaves a task alone, exactly. One in flight stays while its package's
      worktree has no uncommitted changes and its branch is not merged; a handoff or a
      pause does only then, and with changes it becomes ready. An open decision stays
      only if, besides, there is a commit to integrate or a dependency to wait for. */
  lemma HydrationKeepsIff(cfg: Config, w: World, j: nat)
    requires ConfigOk(cfg) && WorldOk(cfg, w) && Hydrate(cfg, w).Ok? && j < |w.ledger.tasks|
    requires SoleAnswer(cfg, w.ledger.tasks, j) && w.ledger.tasks[j].packageId in cfg.packages
    ensures |Hydrate(cfg, w).value.ledger.tasks| > j
    ensures var before, after := w.ledger.tasks[j], Hydrate(cfg, w).value.ledger.tasks[j];
            var p := cfg.packages[before.packageId];
            var quiet := !Changed(w.trees, p) && !Behind(cfg, w.repo, p);
            && (before.status in IN_FLIGHT && quiet ==> after == before)
            && (before.status in {HandoffNeeded, CooldownWait} ==> (after == before <==> quiet))
            && (before.status == DecisionRequired ==>
                  (after == before <==>
                     quiet && ((BothExist(cfg, w.repo, p) && !Contained(cfg, w.repo, p))
                               || SomeUnmerged(cfg, w.repo, p))))
            && (before.status in {HandoffNeeded, CooldownWait, DecisionRequired} && Changed(w.trees, p) ==>
                  after == before.(status := Ready))
  {
    var kind := HydratedByKind(cfg, w, j);
    var before := w.ledger.tasks[j];
    assert before.(status := HydratedStatus(before.status, kind)) == before
           <==> HydratedStatus(before.status, kind) == before.status;
  }

  /** The kind that decides about a task, in terms of Git and the worktree. */
  lemma HydratedByKind(cfg: Config, w: World, j: nat) returns (kind: Kind)
    requires ConfigOk(cfg) && WorldOk(cfg, w) && Hydrate(cfg, w).Ok? && j < |w.ledger.tasks|
    requires SoleAnswer(cfg, w.ledger.tasks, j) && w.ledger.tasks[j].packageId in cfg.packages
    ensures |Hydrate(cfg, w).value.ledger.tasks| > j
    ensures var before := w.ledger.tasks[j];
            Hydrate(cfg, w).value.ledger.tasks[j] == before.(status := HydratedStatus(before.status, kind))
    ensures var before, p := w.ledger.tasks[j], cfg.packages[w.ledger.tasks[j].packageId];
            && (kind == RepairRequired <==> Changed(w.trees, p))
            && (kind == MergedIn <==> !Changed(w.trees, p) && Behind(cfg, w.repo, p))
            && (kind == Active <==> !Changed(w.trees, p) && !Behind(cfg, w.repo, p) && before.status in IN_FLIGHT)
            && (kind == ExecutionReady <==>
                  && !Changed(w.trees, p) && !Behind(cfg, w.repo, p) && before.status !in IN_FLIGHT
                  && !(BothExist(cfg, w.repo, p) && !Contained(cfg, w.repo, p)) && !SomeUnmerged(cfg, w.repo, p))
  {
    SortedPackages(cfg);
    var tasks, id := EnsureAll(w.ledger, cfg, cfg.order).tasks, w.ledger.tasks[j].packageId;
    OwnTaskIsClassified(cfg, w, j);
    HydrationMeans(cfg, w, j);
    ClassificationMeans(cfg, w.repo, w.trees, tasks, id);
    kind := Classify(cfg, w.repo, w.trees, tasks, id).kind;
  }

  // ---- Supervisor decisions --------------------------------------------

  /** The provider on the task's record, or else the last one. */
  ghost predicate OnRecord(notes: Notes, provider: string) {
    && provider != ""
    && (notes.provider == Some(provider)
        || (notes.provider in {None, Some("")} && notes.lastProvider == Some(provider)))
  }

  /** The record after a handoff: to the next provider if there is one, else blocked. */
  ghost predicate HandedOver(before: Task, after: Task, provider: string, kind: FailureKind, hasNext: bool) {
    after == before.(status := if hasNext then HandoffNeeded else Blocked,
                     notes := before.notes.(lastProvider := Some(provider), failureKind := Some(kind)))
  }

  /** The record's result is there but was never written down, and may be. */
  ghost predicate ToNormalize(t: Task) {
    && t.status == DecisionRequired && t.notes.failureKind == Some(MissingResultWithCommit)
    && t.notes.allowed.Some? && NormalizeResult in t.notes.allowed.value
  }

  ghost predicate Allows(t: Task, action: Action) {
    t.notes.allowed.Some? && action in t.notes.allowed.value
  }

  ghost predicate Open(cfg: Config, t: Task) {
    t.status == DecisionRequired && t.packageId in cfg.packages
  }

  ghost predicate MayHandOver(t: Task) {
    !ToNormalize(t) && Allows(t, HandoffProvider) && exists provider :: OnRecord(t.notes, provider)
  }

  /** What a phase of supervisor decisions does to one record, exactly: an open decision
      of a known package is taken; anything else is left alone. A result that may be
      normalised is validated again; a handoff is made if it is allowed and a provider
      is on record; without that, the task is tried again if that is allowed, and asking
      the user remains if not. */
  ghost predicate Decided(cfg: Config, before: Task, after: Task, o: Observation) {
    if !Open(cfg, before) then after == before
    else if ToNormalize(before) then o.normalizes && after == before.(status := Validating)
    else if MayHandOver(before) then
      exists provider :: OnRecord(before.notes, provider)
        && HandedOver(before, after, provider, before.notes.failureKind.GetOr(Unclassified), o.hasNext)
    else if Allows(before, RetrySameProvider) then after == before.(status := Ready)
    else after == before.(status := Blocked)
  }

  lemma KnownProviderIsOnRecord(t: Task)
    ensures KnownProvider(t) != "" ==> OnRecord(t.notes, KnownProvider(t))
    ensures forall provider | OnRecord(t.notes, provider) :: provider == KnownProvider(t)
  {
  }

  /** A checkpoint was committed on the branch checked out in the package's worktree, or
      nothing happened at all: there was nothing to commit, or that is the integration
      branch. */
  ghost predicate Saved(cfg: Config, w: World, t: World, p: Package, c: CheckpointAnswer) {
    && t == w.(ledger := t.ledger, repo := t.repo, trees := t.trees)
    && if c.CheckpointMade? && p.tree in w.trees && w.trees[p.tree].branch in w.repo.refs
          && w.trees[p.tree].branch != cfg.integration then
         var b := w.trees[p.tree].branch;
         && t.repo == w.repo.(commits := t.repo.commits, refs := w.repo.refs[b := |w.repo.commits|])
         && t.repo.commits == w.repo.commits + [Commit(c.hash, [w.repo.refs[b]], c.files)]
         && t.trees == w.trees[p.tree := w.trees[p.tree].(dirty := c.dirty)]
       else t.repo == w.repo && t.trees == w.trees
  }

  /** Of the stored records only `i` has changed. */
  ghost predicate OnlyRecord(w: World, t: World, i: nat) {
    && i < |w.ledger.tasks| == |t.ledger.tasks|
    && forall j {:trigger t.ledger.tasks[j]} | 0 <= j < |w.ledger.tasks| && j != i ::
         t.ledger.tasks[j] == w.ledger.tasks[j]
  }

  /** The events of a task that goes through the statuses of `path` in turn. */
  ghost function Trail(id: string, from: Status, path: seq<Status>): seq<Event> {
    if path == [] then []
    else
      var n := |path| - 1;
      Trail(id, from, path[..n]) + [Transition(id, if n == 0 then from else path[n - 1], path[n])]
  }

  /** What was logged from `w` to `t` is that the task `i` went through `path`. */
  ghost predicate Logs(w: World, t: World, i: nat, path: seq<Status>)
    requires i < |w.ledger.tasks|
  {
    t.ledger.events == w.ledger.events + Trail(w.ledger.tasks[i].id, w.ledger.tasks[i].status, path)
  }

  lemma LogsOne(w: World, t: World, i: nat, status: Status)
    requires i < |w.ledger.tasks|
    requires t.ledger.events
             == w.ledger.events + [Transition(w.ledger.tasks[i].id, w.ledger.tasks[i].status, status)]
    ensures Logs(w, t, i, [status])
  {
    assert [status][..0] == [];
    assert Trail(w.ledger.tasks[i].id, w.ledger.tasks[i].status, [status])
           == [] + [Transition(w.ledger.tasks[i].id, w.ledger.tasks[i].status, status)];
  }

  lemma {:induction false} TrailsJoin(id: string, from: Status, a: seq<Status>, b: seq<Status>)
    requires a != []
    ensures Trail(id, from, a + b) == Trail(id, from, a) + Trail(id, a[|a| - 1], b)
    decreases |b|
  {
    if b == [] {
      assert a + b == a;
    } else {
      var n := |b| - 1;
      assert (a + b)[..|a| + n] == a + b[..n];
      TrailsJoin(id, from, a, b[..n]);
    }
  }

  /** One after the other. */
  lemma LogsBoth(w: World, m: World, t: World, i: nat, a: seq<Status>, b: seq<Status>)
    requires i < |w.ledger.tasks| == |m.ledger.tasks| && a != [] && Logs(w, m, i, a) && Logs(m, t, i, b)
    requires m.ledger.tasks[i].id == w.ledger.tasks[i].id && m.ledger.tasks[i].status == a[|a| - 1]
    ensures Logs(w, t, i, a + b)
  {
    TrailsJoin(w.ledger.tasks[i].id, w.ledger.tasks[i].status, a, b);
  }

  /** A handoff saves the work and rewrites one record; it never raises unless the
      record is merged or rejected. */
  lemma HandoffRecord(cfg: Config, w: World, i: nat, p: Package, provider: string, kind: FailureKind,
                      hasNext: bool, c: CheckpointAnswer)
    requires i < |w.ledger.tasks| && !Terminal(w.ledger.tasks[i].status)
    ensures var r := HandoffOrBlock(cfg, w, i, p, provider, kind, hasNext, c);
            && r.Ok? && Saved(cfg, w, r.value, p, c) && OnlyRecord(w, r.value, i)
            && HandedOver(w.ledger.tasks[i], r.value.ledger.tasks[i], provider, kind, hasNext)
            && Logs(w, r.value, i, [if hasNext then HandoffNeeded else Blocked])
  {
    LogsOne(w, HandoffOrBlock(cfg, w, i, p, provider, kind, hasNext, c).value, i,
            if hasNext then HandoffNeeded else Blocked);
  }

  /** One decision, exactly; it raises only when normalising the result fails. */
  lemma DecideOneDecides(cfg: Config, w: World, i: nat, o: Observation)
    requires i < |w.ledger.tasks|
    ensures var r, before := DecideOne(cfg, w, i, o), w.ledger.tasks[i];
            && (r.Err? <==> Open(cfg, before) && ToNormalize(before) && !o.normalizes)
            && (r.Ok? ==>
                  && OnlyRecord(w, r.value, i) && Decided(cfg, before, r.value.ledger.tasks[i], o)
                  && Logs(w, r.value, i, if Open(cfg, before) then [r.value.ledger.tasks[i].status] else [])
                  && if Open(cfg, before) && MayHandOver(before)
                     then Saved(cfg, w, r.value, cfg.packages[before.packageId], o.checkpoint)
                     else r.value == w.(ledger := r.value.ledger))
  {
    var t := w.ledger.tasks[i];
    KnownProviderIsOnRecord(t);
    if Open(cfg, t) && !ToNormalize(t) && Allows(t, HandoffProvider) && KnownProvider(t) != "" {
      HandoffRecord(cfg, w, i, cfg.packages[t.packageId], KnownProvider(t),
                    t.notes.failureKind.GetOr(Unclassified), o.hasNext, o.checkpoint);
    } else if Open(cfg, t) && DecideOne(cfg, w, i, o).Ok? {
      LogsOne(w, DecideOne(cfg, w, i, o).value, i, DecideOne(cfg, w, i, o).value.ledger.tasks[i].status);
    }
  }

  lemma DecidedIsClosed(cfg: Config, before: Task, after: Task, o: Observation)
    requires Decided(cfg, before, after, o)
    ensures after.packageId == before.packageId && !Open(cfg, after)
  {
  }

  /** The default supervisor's phase decides every open decision of a known package,
      each by its own record and observation, and changes no other task; it raises
      exactly if some result cannot be normalised. */
  lemma {:induction false} DecideFromDecides(cfg: Config, w: World, i: nat, n: nat, observe: Observer)
    requires i <= n <= |w.ledger.tasks|
    ensures var r, before := DecideFrom(cfg, w, i, n, observe), w.ledger.tasks;
            && (r.Err? <==>
                  exists j :: i <= j < n && Open(cfg, before[j]) && ToNormalize(before[j]) && !observe(j).normalizes)
            && (r.Ok? ==>
                  && |r.value.ledger.tasks| == |before|
                  && (forall j | i <= j < n :: Decided(cfg, before[j], r.value.ledger.tasks[j], observe(j)))
                  && forall j | 0 <= j < |before| && !(i <= j < n) :: r.value.ledger.tasks[j] == before[j])
    decreases n - i
  {
    if i < n {
      DecideOneDecides(cfg, w, i, observe(i));
      if DecideOne(cfg, w, i, observe(i)).Ok? {
        var next := DecideOne(cfg, w, i, observe(i)).value;
        assert DecideFrom(cfg, w, i, n, observe) == DecideFrom(cfg, next, i + 1, n, observe);
        DecideFromDecides(cfg, next, i + 1, n, observe);
        assert forall j | i < j < n :: next.ledger.tasks[j] == w.ledger.tasks[j];
      }
    }
  }

  /** Decisions make and delete no branch. */
  lemma {:induction false} DecideBranches(cfg: Config, w: World, i: nat, n: nat, observe: Observer)
    requires i <= n <= |w.ledger.tasks| && DecideFrom(cfg, w, i, n, observe).Ok?
    ensures DecideFrom(cfg, w, i, n, observe).value.repo.refs.Keys == w.repo.refs.Keys
    decreases n - i
  {
    if i < n {
      DecideOneDecides(cfg, w, i, observe(i));
      var next := DecideOne(cfg, w, i, observe(i)).value;
      assert DecideFrom(cfg, w, i, n, observe) == DecideFrom(cfg, next, i + 1, n, observe);
      DecideBranches(cfg, next, i + 1, n, observe);
    }
  }

  // ---- Integration -----------------------------------------------------

  /** No other package's id begins the task's title. */
  ghost predicate OwnNameOnly(cfg: Config, t: Task) {
    forall id | id in cfg.packages && MatchesPackage(t, id) :: id == t.packageId
  }

  /** `c` is one of the candidates the phase lists. */
  ghost predicate Listed(cfg: Config, w: World, c: Candidate)
    requires ValidConfig(cfg) && ValidRepo(w.repo)
  {
    SortedPackages(cfg);
    var list := Candidates(w.ledger.tasks, ClassifyEach(cfg, w.repo, w.trees, w.ledger.tasks, Sorted(cfg.order)));
    list.Ok? && c in list.value
  }

  /** What a listed candidate stands for: a configured package, its branch and
      head, and a stored task that answers to the package, its own task unless the
      title begins with another package's id. */
  lemma ListedCandidate(cfg: Config, w: World, c: Candidate)
    requires ValidConfig(cfg) && ValidRepo(w.repo) && DistinctIds(w.ledger.tasks) && Listed(cfg, w, c)
    ensures c.packageId in cfg.packages && c.branch == cfg.packages[c.packageId].branch
    ensures c.branch in w.repo.refs && c.head == w.repo.refs[c.branch] < |w.repo.commits|
    ensures var i := CandidateTask(w.ledger.tasks, c);
            && i < |w.ledger.tasks| && MatchesPackage(w.ledger.tasks[i], c.packageId)
            && (OwnNameOnly(cfg, w.ledger.tasks[i]) ==> w.ledger.tasks[i].packageId == c.packageId)
  {
    SortedPackages(cfg);
    var ids := Sorted(cfg.order);
    var k := CandidateOrigin(w.ledger.tasks, ClassifyEach(cfg, w.repo, w.trees, w.ledger.tasks, ids), c);
    assert ids[k] in ids;
    LookupMarksMatch(w.ledger.tasks, ids[k]);
  }

  /** Integrating a listed candidate changes its task alone, and marks it merged
      exactly if `integrate_one` returned; then the package's branch, as it was
      found, is contained in a new, green integration head. Otherwise the task has
      failed. */
  lemma MergedTaskIsContained(cfg: Config, w: World, c: Candidate, a: I.Answers)
    requires ValidConfig(cfg) && ValidRepo(w.repo) && DistinctIds(w.ledger.tasks) && Listed(cfg, w, c)
    requires FitsSuite(cfg.commands, a.env) && c.head < |w.repo.commits| && IntegrateCandidate(cfg, w, c, a).Ok?
    ensures var t := IntegrateCandidate(cfg, w, c, a).value;
            var i := CandidateTask(w.ledger.tasks, c);
            var returned := I.Integrate(w.repo, CallFor(cfg, w.repo.commits, c), a).1.Merged?;
            && ValidRepo(t.repo) && |t.ledger.tasks| == |w.ledger.tasks| && i < |w.ledger.tasks|
            && (forall j | 0 <= j < |w.ledger.tasks| && j != i :: t.ledger.tasks[j] == w.ledger.tasks[j])
            && t.ledger.tasks[i].status == (if returned then Merged else Failed)
            && t.ledger.tasks[i]
               == w.ledger.tasks[i].(status := t.ledger.tasks[i].status, notes := t.ledger.tasks[i].notes)
            && t.landed == (if returned then w.landed + {c.packageId} else w.landed)
            && (OwnNameOnly(cfg, w.ledger.tasks[i]) ==> w.ledger.tasks[i].packageId == c.packageId)
            && (returned ==> ContainedIn(cfg, w.repo, t.repo, c.packageId) && FreshGreenHead(cfg, w.repo, t.repo))
  {
    ListedCandidate(cfg, w, c);
    var call := CallFor(cfg, w.repo.commits, c);
    var (repo, o) := I.Integrate(w.repo, call, a);
    IntegrateFrame(w.repo, call, a);
    ExecutedNeverPlans(w.repo, call, a);
    if o.Merged? {
      ReturnedCallContains(cfg, w.repo, call, a, c.packageId);
    }
  }

  /** An attempt is bracketed in the log: its task goes to `integrating` first, and then
      to `merged` or `failed`. */
  lemma BracketIsLogged(cfg: Config, w: World, c: Candidate, a: I.Answers)
    requires ValidRepo(w.repo) && FitsSuite(cfg.commands, a.env) && c.head < |w.repo.commits|
    requires IntegrateCandidate(cfg, w, c, a).Ok? && CandidateTask(w.ledger.tasks, c) < |w.ledger.tasks|
    ensures var i := CandidateTask(w.ledger.tasks, c);
            var raised := I.Integrate(w.repo, CallFor(cfg, w.repo.commits, c), a).1.Raised?;
            Logs(w, IntegrateCandidate(cfg, w, c, a).value, i, [Integrating, if raised then Failed else Merged])
  {
    var i, begun := CandidateTask(w.ledger.tasks, c), BeginCandidate(w, c).value;
    IntegrateFrame(w.repo, CallFor(cfg, w.repo.commits, c), a);
    var (repo, o) := I.Integrate(w.repo, CallFor(cfg, w.repo.commits, c), a);
    var last := if o.Raised? then Failed else Merged;
    LogsOne(w, begun, i, Integrating);
    LogsOne(begun, IntegrateCandidate(cfg, w, c, a).value, i, last);
    LogsBoth(w, begun, IntegrateCandidate(cfg, w, c, a).value, i, [Integrating], [last]);
    assert [Integrating] + [last] == [Integrating, last];
  }

  /** When an attempt lets an exception out, exactly: the task it would mark is merged or
      rejected, or `integrate_one` raised something else than the errors the tick
      catches. */
  lemma AttemptRaisesIff(cfg: Config, w: World, c: Candidate, a: I.Answers)
    requires ValidRepo(w.repo) && FitsSuite(cfg.commands, a.env) && c.head < |w.repo.commits|
    ensures var o := I.Integrate(w.repo, CallFor(cfg, w.repo.commits, c), a).1;
            var i := CandidateTask(w.ledger.tasks, c);
            IntegrateCandidate(cfg, w, c, a).Err? <==>
              || (i < |w.ledger.tasks| && w.ledger.tasks[i].status in {Merged, Rejected})
              || o in {I.Raised(I.SuiteCrashed), I.Raised(I.RollbackCrashed), I.Raised(I.RecordFailed)}
  {
    var call := CallFor(cfg, w.repo.commits, c);
    IntegrateFrame(w.repo, call, a);
    BeginRaisesIff(w, c);
    if BeginCandidate(w, c).Ok? {
      var o := I.Integrate(w.repo, call, a).1;
      FinishNeverRaises(BeginCandidate(w, c).value, c.packageId, CandidateTask(w.ledger.tasks, c),
                        I.Integrate(w.repo, call, a).0, o.Raised?);
    }
  }

  lemma BeginRaisesIff(w: World, c: Candidate)
    ensures var i := CandidateTask(w.ledger.tasks, c);
            && (BeginCandidate(w, c).Err? <==> i < |w.ledger.tasks| && w.ledger.tasks[i].status in {Merged, Rejected})
            && (BeginCandidate(w, c).Ok? ==>
                  && |BeginCandidate(w, c).value.ledger.tasks| == |w.ledger.tasks|
                  && (i < |w.ledger.tasks| ==> BeginCandidate(w, c).value.ledger.tasks[i].status == Integrating))
  {
  }

  lemma FinishNeverRaises(w: World, packageId: string, i: nat, repo: RepoState, raised: bool)
    requires i <= |w.ledger.tasks| && (i < |w.ledger.tasks| ==> w.ledger.tasks[i].status == Integrating)
    ensures FinishCandidate(w, packageId, i, repo, raised).Ok?
  {
  }

  /** The branch of package `id`, as it stood in `past`, is contained in the
      integration branch of `now`. */
  ghost predicate ContainedIn(cfg: Config, past: RepoState, now: RepoState, id: string)
    requires ValidRepo(now)
  {
    && id in cfg.packages && cfg.packages[id].branch in past.refs && cfg.integration in now.refs
    && Reaches(now.commits, now.refs[cfg.integration], past.refs[cfg.packages[id].branch])
  }

  /** The integration branch moved on to a commit on which all required commands
      passed. */
  ghost predicate FreshGreenHead(cfg: Config, past: RepoState, now: RepoState)
    requires ValidRepo(now)
  {
    && cfg.integration in past.refs && cfg.integration in now.refs
    && now.refs[cfg.integration] != past.refs[cfg.integration]
    && Reaches(now.commits, now.refs[cfg.integration], past.refs[cfg.integration])
    && Green(now, now.refs[cfg.integration], cfg.commands)
  }

  lemma ReturnedCallContains(cfg: Config, s: RepoState, call: I.Call, a: I.Answers, id: string)
    requires I.Fits(s, call, a) && I.Integrate(s, call, a).1.Merged? && id in cfg.packages
    requires call.integration == cfg.integration && call.commands == cfg.commands
    requires call.branch == cfg.packages[id].branch
    ensures ValidRepo(I.Integrate(s, call, a).0)
    ensures ContainedIn(cfg, s, I.Integrate(s, call, a).0, id) && FreshGreenHead(cfg, s, I.Integrate(s, call, a).0)
  {
    IntegrationHeadMoves(s, call, a);
    var t := I.Integrate(s, call, a).0;
    var tip, past, mine := t.refs[cfg.integration], s.refs[cfg.integration], s.refs[call.branch];
    assert mine in t.commits[tip].parents && past in t.commits[tip].parents;
    assert Reaches(t.commits, mine, mine) && Reaches(t.commits, past, past);
  }

  /** Packages "A" and "A B": "A" has passed its review and its branch is there.
      Integrating it would mark the running task of "A B". */
  lemma ForeignTaskIsMarked(cfg: Config, repo: RepoState, trees: map<string, Tree>)
    requires ValidRepo(repo) && "A" in cfg.packages && cfg.packages["A"].branch in repo.refs
    ensures var own := NewTask("A", "x").(status := ReviewPassed);
            var other := NewTask("A B", "y").(status := Running);
            var s := Classify(cfg, repo, trees, [own, other], "A");
            && IsCandidate([own, other], s) && s.head.Some?
            && CandidateTask([own, other], Candidate(s.id, s.branch, s.head.value, s.taskId)) == 1
            && !OwnNameOnly(cfg, other)
  {
    var own := NewTask("A", "x").(status := ReviewPassed);
    var other := NewTask("A B", "y").(status := Running);
    var tasks := [own, other];
    LookupFindsForeignTask();
    assert "A B" != "A" && own.packageId == "A" && other.packageId == "A B";
    assert tasks[..1] == [own];
    assert LastOf(tasks, "A") == LastOf(tasks[..1], "A") == Some(own);
    assert own.id[5..] == "A" && other.id[5..] == "A B";
    assert tasks[1..] == [other];
    assert IndexOf(tasks, other.id) == 1;
    assert other.title == "A B y" && "A" + " " <= other.title;
  }

  lemma ExecutedNeverPlans(s: RepoState, call: I.Call, a: I.Answers)
    requires I.Fits(s, call, a) && call.execute
    ensures !I.Integrate(s, call, a).1.Planned?
  {
  }
}
