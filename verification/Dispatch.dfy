/** What the launch loop does with every task it reaches, and that it leaves no slot
    unused (engine/controller.py, provisioning/worktrees.py). */
module Dispatch {
  import opened Git
  import opened Invariants
  import opened Ledger
  import opened Project
  import opened Reconciliation
  import opened Steps
  import opened Tick
  import opened Wrappers

  // ---- One task --------------------------------------------------------

  ghost predicate Waits(t: Task) {
    t.status in {Ready, HandoffNeeded, CooldownWait}
  }

  /** A launch in a worktree that is still there after a handoff goes on with the work
      in it. */
  ghost predicate Repairs(w: World, i: nat, p: Package)
    requires i < |w.ledger.tasks|
  {
    w.ledger.tasks[i].status == HandoffNeeded && p.tree in w.trees
  }

  /** `launch_task` is called for the task. */
  ghost predicate Called(cfg: Config, w: World, i: nat, a: LaunchAnswers)
    requires i < |w.ledger.tasks|
  {
    && Waits(w.ledger.tasks[i]) && w.ledger.tasks[i].packageId in cfg.packages
    && a.provider.Some? && !a.quotaRefuses
  }

  /** The call comes through: the adapter, the worktree, the command and, unless this
      is a plan, the start. */
  ghost predicate Works(cfg: Config, w: World, i: nat, launch: bool, a: LaunchAnswers)
    requires i < |w.ledger.tasks| && Called(cfg, w, i, a)
  {
    var p := cfg.packages[w.ledger.tasks[i].packageId];
    && a.adapter == Returns && GetsWorktree(cfg, w, p, Repairs(w, i, p), a.worktree)
    && a.command == Returns && (launch ==> a.start == Returns)
  }

  /** The call lets an exception out that the loop does not catch. */
  ghost predicate CannotLaunch(cfg: Config, w: World, i: nat, launch: bool, a: LaunchAnswers)
    requires i < |w.ledger.tasks|
  {
    && Called(cfg, w, i, a)
    && var p := cfg.packages[w.ledger.tasks[i].packageId];
       match a.adapter
       case Throws => true
       case Refuses => false
       case Returns =>
         || (p.tree in w.trees && !w.trees[p.tree].registered
             && !(w.trees[p.tree].gitMarker && w.trees[p.tree].usable) && !a.clears)
         || (GetsWorktree(cfg, w, p, Repairs(w, i, p), a.worktree)
             && (a.command == Throws || (a.command == Returns && launch && a.start == Throws)))
  }

  /** The package's branch is checked out in its registered worktree. */
  ghost predicate OnItsBranch(w: World, p: Package) {
    p.tree in w.trees && w.trees[p.tree].registered && w.trees[p.tree].branch == p.branch
  }

  /** The record after `launch_task` was called with that provider. */
  ghost predicate WithProvider(before: Task, after: Task, status: Status, provider: string) {
    after == before.(status := status, notes := before.notes.(provider := Some(provider)))
  }

  /** The calls before the start all come through. */
  ghost predicate Begins(cfg: Config, w: World, i: nat, a: LaunchAnswers)
    requires i < |w.ledger.tasks| && Called(cfg, w, i, a)
  {
    var p := cfg.packages[w.ledger.tasks[i].packageId];
    a.adapter == Returns && GetsWorktree(cfg, w, p, Repairs(w, i, p), a.worktree) && a.command == Returns
  }

  /** The statuses a called task goes through: a started worker's task is assigned
      before it runs. */
  ghost function LaunchPath(begun: bool, launch: bool, launched: bool): seq<Status> {
    if !begun then [Blocked]
    else if !launch then [Ready]
    else if launched then [Assigned, Running]
    else [Assigned, Blocked]
  }

  /** What the loop does with the task `i` from `w` to `t`, exactly. One that does not
      wait is passed over. One whose package is gone has failed, one without a provider
      is blocked, and one without quota has its work saved and waits on. For any other
      `launch_task` is called: it is launched exactly if the call comes through, and
      then its branch is checked out in its worktree; otherwise it is blocked. */
  ghost predicate Dispatched(cfg: Config, w: World, t: World, i: nat, launch: bool, a: LaunchAnswers, launched: bool) {
    && OnlyRecord(w, t, i)
    && var before, after := w.ledger.tasks[i], t.ledger.tasks[i];
       if !Waits(before) then !launched && t == w
       else if before.packageId !in cfg.packages then
         !launched && Stands(w, t, i, Failed) && Logs(w, t, i, [Failed])
       else if a.provider.None? then !launched && Stands(w, t, i, Blocked) && Logs(w, t, i, [Blocked])
       else
         var p := cfg.packages[before.packageId];
         if a.quotaRefuses then
           && !launched && Saved(cfg, w, t, p, a.checkpoint) && Logs(w, t, i, [HandoffNeeded])
           && after == before.(status := HandoffNeeded,
                               notes := before.notes.(provider := a.provider, failureKind := Some(PauseThreshold)))
         else
           && t == w.(ledger := t.ledger, repo := t.repo, trees := t.trees,
                      launches := w.launches + [before.packageId])
           && (launched <==> Works(cfg, w, i, launch, a)) && (launched ==> OnItsBranch(t, p))
           && Logs(w, t, i, LaunchPath(Begins(cfg, w, i, a), launch, launched))
           && (if a.adapter == Returns then Provisioned(cfg, w, t, p) else t.repo == w.repo && t.trees == w.trees)
           && WithProvider(before, after, if !launched then Blocked else if launch then Running else Ready,
                           a.provider.value)
  }

  /** What a start makes of the task: planned, started, or refused. */
  ghost predicate Started(w: World, t: World, i: nat, provider: string, launch: bool, launched: bool) {
    && OnlyRecord(w, t, i) && t == w.(ledger := t.ledger)
    && Logs(w, t, i, LaunchPath(true, launch, launched))
    && WithProvider(w.ledger.tasks[i], t.ledger.tasks[i],
                    if !launched then Blocked else if launch then Running else Ready, provider)
  }

  lemma PlanMeans(w: World, i: nat, provider: string, start: CallAnswer)
    requires i < |w.ledger.tasks| && Waits(w.ledger.tasks[i])
    ensures var r := StartTask(w, i, provider, false, start);
            r.Ok? && r.value.1 && Started(w, r.value.0, i, provider, false, true)
  {
    LogsOne(w, StartTask(w, i, provider, false, start).value.0, i, Ready);
  }

  lemma WorkerMeans(w: World, i: nat, provider: string, start: CallAnswer)
    requires i < |w.ledger.tasks| && Waits(w.ledger.tasks[i]) && start != Throws
    ensures var r := StartTask(w, i, provider, true, start);
            r.Ok? && r.value.1 == (start == Returns) && Started(w, r.value.0, i, provider, true, r.value.1)
  {
    var r, last := StartTask(w, i, provider, true, start), if start == Returns then Running else Blocked;
    var begun := Move(w, i, Assigned, NO_NOTES.(provider := Some(provider))).value;
    LogsOne(w, begun, i, Assigned);
    LogsOne(begun, r.value.0, i, last);
    LogsBoth(w, begun, r.value.0, i, [Assigned], [last]);
    assert [Assigned] + [last] == [Assigned, last];
  }

  lemma StartMeans(w: World, i: nat, provider: string, launch: bool, start: CallAnswer)
    requires i < |w.ledger.tasks| && Waits(w.ledger.tasks[i])
    ensures var r := StartTask(w, i, provider, launch, start);
            && (r.Err? <==> launch && start == Throws)
            && (r.Ok? ==>
                  && (r.value.1 <==> !launch || start == Returns)
                  && Started(w, r.value.0, i, provider, launch, r.value.1))
  {
    if !launch {
      PlanMeans(w, i, provider, start);
    } else if start != Throws {
      WorkerMeans(w, i, provider, start);
    }
  }

  lemma PreparedMeans(w: World, prepared: CallAnswer, i: nat, provider: string, launch: bool, start: CallAnswer)
    requires i < |w.ledger.tasks| && Waits(w.ledger.tasks[i])
    ensures var r := PreparedTask(w, prepared, i, provider, launch, start);
            && (r.Err? <==> prepared == Throws || (prepared == Returns && launch && start == Throws))
            && (r.Ok? ==>
                  var (t, launched) := r.value;
                  && (launched <==> prepared == Returns && (launch ==> start == Returns))
                  && t == w.(ledger := t.ledger) && OnlyRecord(w, t, i)
                  && Logs(w, t, i, LaunchPath(prepared == Returns, launch, launched))
                  && WithProvider(w.ledger.tasks[i], t.ledger.tasks[i],
                                  if !launched then Blocked else if launch then Running else Ready, provider))
  {
    if prepared == Returns {
      StartMeans(w, i, provider, launch, start);
    } else if prepared == Refuses {
      LogsOne(w, PreparedTask(w, prepared, i, provider, launch, start).value.0, i, Blocked);
    }
  }

  lemma HeldBackMeans(cfg: Config, w: World, i: nat, launch: bool, a: LaunchAnswers)
    requires i < |w.ledger.tasks| && Called(cfg, w, i, a) && a.adapter != Returns
    ensures var p := cfg.packages[w.ledger.tasks[i].packageId];
            var r := LaunchTask(cfg, w, i, p, a.provider.value, launch, a);
            && (r.Err? <==> CannotLaunch(cfg, w, i, launch, a))
            && (r.Ok? ==> Dispatched(cfg, w, r.value.0, i, launch, a, r.value.1))
  {
    var called := w.(launches := w.launches + [w.ledger.tasks[i].packageId]);
    PreparedMeans(called, a.adapter, i, a.provider.value, launch, a.start);
  }

  /** From a prepared worktree on. */
  lemma ProvidedMeans(cfg: Config, w: World, ready: World, ok: bool, i: nat, launch: bool, a: LaunchAnswers)
    requires i < |w.ledger.tasks| && Called(cfg, w, i, a) && a.adapter == Returns
    requires var before := w.ledger.tasks[i];
             var p := cfg.packages[before.packageId];
             && ready == w.(repo := ready.repo, trees := ready.trees, launches := w.launches + [before.packageId])
             && Provisioned(cfg, w, ready, p) && (ok <==> GetsWorktree(cfg, w, p, Repairs(w, i, p), a.worktree))
             && (ok ==> OnItsBranch(ready, p))
    ensures var r := PreparedTask(ready, if ok then a.command else Refuses, i, a.provider.value, launch, a.start);
            && (r.Err? <==> ok && (a.command == Throws || (a.command == Returns && launch && a.start == Throws)))
            && (r.Ok? ==> Dispatched(cfg, w, r.value.0, i, launch, a, r.value.1))
  {
    PreparedMeans(ready, if ok then a.command else Refuses, i, a.provider.value, launch, a.start);
    var r := PreparedTask(ready, if ok then a.command else Refuses, i, a.provider.value, launch, a.start);
    if r.Ok? {
      assert OnlyRecord(w, r.value.0, i);
    }
  }

  lemma LaunchTaskMeans(cfg: Config, w: World, i: nat, launch: bool, a: LaunchAnswers)
    requires i < |w.ledger.tasks| && Called(cfg, w, i, a) && a.adapter == Returns
    ensures var p := cfg.packages[w.ledger.tasks[i].packageId];
            var r := LaunchTask(cfg, w, i, p, a.provider.value, launch, a);
            && (r.Err? <==> CannotLaunch(cfg, w, i, launch, a))
            && (r.Ok? ==> Dispatched(cfg, w, r.value.0, i, launch, a, r.value.1))
  {
    var p := cfg.packages[w.ledger.tasks[i].packageId];
    var called := w.(launches := w.launches + [w.ledger.tasks[i].packageId]);
    var repair := Repairs(w, i, p);
    var (ready, ok) := EnsureWorktree(cfg, called, p, repair, a.worktree);
    WorktreeIsSafe(cfg, called, p, repair, a.worktree);
    ProvidedMeans(cfg, w, ready, ok, i, launch, a);
  }

  lemma PauseMeans(cfg: Config, w: World, i: nat, p: Package, provider: string, c: CheckpointAnswer)
    requires i < |w.ledger.tasks| && Waits(w.ledger.tasks[i])
    ensures var r, before := PauseForQuota(cfg, w, i, p, provider, c), w.ledger.tasks[i];
            && r.Ok? && OnlyRecord(w, r.value, i) && Saved(cfg, w, r.value, p, c)
            && Logs(w, r.value, i, [HandoffNeeded])
            && r.value.ledger.tasks[i]
               == before.(status := HandoffNeeded,
                          notes := before.notes.(provider := Some(provider), failureKind := Some(PauseThreshold)))
  {
    LogsOne(w, PauseForQuota(cfg, w, i, p, provider, c).value, i, HandoffNeeded);
  }

  lemma SetAsideMeans(w: World, i: nat, status: Status)
    requires i < |w.ledger.tasks| && Waits(w.ledger.tasks[i]) && !status.Unlisted?
    ensures var r := Move(w, i, status, NO_NOTES);
            r.Ok? && OnlyRecord(w, r.value, i) && Stands(w, r.value, i, status) && Logs(w, r.value, i, [status])
  {
    LogsOne(w, Move(w, i, status, NO_NOTES).value, i, status);
  }

  lemma NotCalledMeans(cfg: Config, w: World, i: nat, launch: bool, a: LaunchAnswers)
    requires i < |w.ledger.tasks| && !Called(cfg, w, i, a)
    ensures var r := LaunchOne(cfg, w, i, launch, a);
            r.Ok? && Dispatched(cfg, w, r.value.0, i, launch, a, r.value.1)
  {
    var t := w.ledger.tasks[i];
    if !Waits(t) {
      assert LaunchOne(cfg, w, i, launch, a) == Ok((w, false));
    } else if t.packageId in cfg.packages && a.provider.Some? {
      PauseMeans(cfg, w, i, cfg.packages[t.packageId], a.provider.value, a.checkpoint);
    } else {
      var status := if t.packageId !in cfg.packages then Failed else Blocked;
      SetAsideMeans(w, i, status);
      assert LaunchOne(cfg, w, i, launch, a) == Ok((Move(w, i, status, NO_NOTES).value, false));
    }
  }

  /** One task of the launch loop, exactly: what becomes of it, whether it was launched,
      and when the loop raises. */
  lemma LaunchOneMeans(cfg: Config, w: World, i: nat, launch: bool, a: LaunchAnswers)
    requires i < |w.ledger.tasks|
    ensures var r := LaunchOne(cfg, w, i, launch, a);
            && (r.Err? <==> CannotLaunch(cfg, w, i, launch, a))
            && (r.Ok? ==> Dispatched(cfg, w, r.value.0, i, launch, a, r.value.1))
  {
    if !Called(cfg, w, i, a) {
      NotCalledMeans(cfg, w, i, launch, a);
    } else if a.adapter == Returns {
      LaunchTaskMeans(cfg, w, i, launch, a);
    } else {
      HeldBackMeans(cfg, w, i, launch, a);
    }
  }

  // ---- The loop --------------------------------------------------------

  /** The world before a task is reached, and the slots left. */
  datatype Round = Round(world: World, left: nat)

  ghost predicate RoundAt(cfg: Config, rounds: seq<Round>, j: nat, launch: bool, answers: Launcher) {
    && j + 1 < |rounds| && rounds[j].left > 0
    && var w, t := rounds[j], rounds[j + 1];
       || (Dispatched(cfg, w.world, t.world, j, launch, answers(j), true) && t.left == w.left - 1)
       || (Dispatched(cfg, w.world, t.world, j, launch, answers(j), false) && t.left == w.left)
  }

  /** A launch takes a slot, anything else does not; the loop goes on only with a slot
      left. */
  ghost predicate Rounds(cfg: Config, rounds: seq<Round>, launch: bool, answers: Launcher) {
    rounds != [] && forall j {:trigger RoundAt(cfg, rounds, j, launch, answers)} | 0 <= j < |rounds| - 1 ::
                      RoundAt(cfg, rounds, j, launch, answers)
  }

  lemma OneMoreRound(cfg: Config, past: seq<Round>, next: Round, launch: bool, answers: Launcher)
    requires Rounds(cfg, past, launch, answers)
    requires RoundAt(cfg, past + [next], |past| - 1, launch, answers)
    ensures Rounds(cfg, past + [next], launch, answers)
  {
    var more := past + [next];
    forall j | 0 <= j < |more| - 1 ensures RoundAt(cfg, more, j, launch, answers) {
      if j < |past| - 1 {
        assert RoundAt(cfg, past, j, launch, answers);
      }
    }
  }

  /** The task `i` is the first whose launch lets an exception out. */
  ghost predicate StopsAt(cfg: Config, round: Round, i: nat, launch: bool, answers: Launcher) {
    round.left > 0 && i < |round.world.ledger.tasks| && CannotLaunch(cfg, round.world, i, launch, answers(i))
  }

  lemma LoopBegins(cfg: Config, w: World, slots: nat, launch: bool, answers: Launcher, r: Outcome)
    requires r == LaunchFrom(cfg, w, 0, |w.ledger.tasks|, slots, launch, answers)
    ensures LeadsTo(cfg, w, 0, |w.ledger.tasks|, slots, launch, answers, r)
  {
  }

  lemma LoopGoesOn(cfg: Config, w: World, i: nat, n: nat, slots: nat, launch: bool, answers: Launcher, r: Outcome)
    requires LeadsTo(cfg, w, i, n, slots, launch, answers, r) && i < n && slots > 0
    ensures i < |w.ledger.tasks|
    ensures var one := LaunchOne(cfg, w, i, launch, answers(i));
            && (one.Err? ==> r.Err?)
            && (one.Ok? ==>
                  LeadsTo(cfg, one.value.0, i + 1, n, if one.value.1 then slots - 1 else slots, launch, answers, r))
  {
    LeadsToUnfolds(cfg, w, i, n, slots, launch, answers, r);
  }

  lemma NextRound(cfg: Config, past: seq<Round>, n: nat, launch: bool, answers: Launcher, r: Outcome)
      returns (next: Option<Round>)
    requires past != [] && |past| <= n && past[|past| - 1].left > 0
    requires var now := past[|past| - 1]; LeadsTo(cfg, now.world, |past| - 1, n, now.left, launch, answers, r)
    ensures next.Some? ==>
              && RoundAt(cfg, past + [next.value], |past| - 1, launch, answers)
              && LeadsTo(cfg, next.value.world, |past|, n, next.value.left, launch, answers, r)
    ensures next.None? ==> r.Err? && StopsAt(cfg, past[|past| - 1], |past| - 1, launch, answers)
  {
    var i, now := |past| - 1, past[|past| - 1];
    LoopGoesOn(cfg, now.world, i, n, now.left, launch, answers, r);
    LaunchOneMeans(cfg, now.world, i, launch, answers(i));
    var one := LaunchOne(cfg, now.world, i, launch, answers(i));
    if one.Ok? {
      next := Some(Round(one.value.0, if one.value.1 then now.left - 1 else now.left));
      assert (past + [next.value])[i] == now && (past + [next.value])[i + 1] == next.value;
    } else {
      next := None;
    }
  }

  lemma {:induction false} RoundsOf(cfg: Config, past: seq<Round>, n: nat, launch: bool, answers: Launcher, r: Outcome)
      returns (rounds: seq<Round>)
    requires Rounds(cfg, past, launch, answers) && |past| <= n + 1
    requires var now := past[|past| - 1]; LeadsTo(cfg, now.world, |past| - 1, n, now.left, launch, answers, r)
    ensures Rounds(cfg, rounds, launch, answers) && past <= rounds && |rounds| <= n + 1
    ensures var last := rounds[|rounds| - 1];
            && (r.Ok? ==> r.value == last.world && (|rounds| == n + 1 || last.left == 0))
            && (r.Err? ==> StopsAt(cfg, last, |rounds| - 1, launch, answers))
    decreases n + 1 - |past|
  {
    rounds := past;
    var now := past[|past| - 1];
    if |past| == n + 1 || now.left == 0 {
      LoopEnds(cfg, now.world, |past| - 1, n, now.left, launch, answers, r);
    } else {
      var next := NextRound(cfg, past, n, launch, answers, r);
      if next.Some? {
        OneMoreRound(cfg, past, next.value, launch, answers);
        rounds := RoundsOf(cfg, past + [next.value], n, launch, answers, r);
      }
    }
  }

  // ---- Records and activity along the rounds ---------------------------

  /** A record changes only when it is reached. */
  lemma {:induction false} RecordKept(cfg: Config, rounds: seq<Round>, launch: bool, answers: Launcher,
                                      a: nat, b: nat, j: nat)
    requires Rounds(cfg, rounds, launch, answers) && a <= b < |rounds| && !(a <= j < b)
    requires j < |rounds[a].world.ledger.tasks|
    ensures |rounds[b].world.ledger.tasks| == |rounds[a].world.ledger.tasks|
    ensures rounds[b].world.ledger.tasks[j] == rounds[a].world.ledger.tasks[j]
    decreases b - a
  {
    if a < b {
      RecordKept(cfg, rounds, launch, answers, a, b - 1, j);
      assert RoundAt(cfg, rounds, b - 1, launch, answers);
    }
  }

  lemma {:induction false} SameRecordCount(cfg: Config, rounds: seq<Round>, launch: bool, answers: Launcher, b: nat)
    requires Rounds(cfg, rounds, launch, answers) && b < |rounds|
    ensures |rounds[b].world.ledger.tasks| == |rounds[0].world.ledger.tasks|
  {
    if b > 0 {
      SameRecordCount(cfg, rounds, launch, answers, b - 1);
      assert RoundAt(cfg, rounds, b - 1, launch, answers);
    }
  }

  /** A launch that starts a worker makes exactly one more task active; anything else
      the loop does makes none. */
  lemma DispatchActivates(cfg: Config, w: World, t: World, i: nat, a: LaunchAnswers, launched: bool)
    requires Dispatched(cfg, w, t, i, true, a, launched)
    ensures |ActiveTasks(t.ledger.tasks)| == |ActiveTasks(w.ledger.tasks)| + if launched then 1 else 0
  {
    var before, after := ActiveTasks(w.ledger.tasks), ActiveTasks(t.ledger.tasks);
    forall j: nat | j != i ensures j in after <==> j in before {
      assert j < |w.ledger.tasks| ==> t.ledger.tasks[j] == w.ledger.tasks[j];
    }
    if launched {
      assert after == before + {i};
    } else {
      assert after == before;
    }
  }

  lemma {:induction false} SlotsAreFilled(cfg: Config, rounds: seq<Round>, answers: Launcher, b: nat)
    requires Rounds(cfg, rounds, true, answers) && b < |rounds|
    ensures |ActiveTasks(rounds[b].world.ledger.tasks)| + rounds[b].left
            == |ActiveTasks(rounds[0].world.ledger.tasks)| + rounds[0].left
  {
    if b > 0 {
      SlotsAreFilled(cfg, rounds, answers, b - 1);
      assert RoundAt(cfg, rounds, b - 1, true, answers);
      var w, t := rounds[b - 1], rounds[b];
      DispatchActivates(cfg, w.world, t.world, b - 1, answers(b - 1), t.left < w.left);
    }
  }

  // ---- The phase -------------------------------------------------------

  /** The launch phase, task by task: it begins with as many slots as the limit leaves,
      and ends when every task has been reached or no slot is left; it raises exactly if
      a launch it comes to lets an exception out. */
  lemma LaunchPhaseMeans(cfg: Config, w: World, launch: bool, answers: Launcher) returns (rounds: seq<Round>)
    ensures var tasks := w.ledger.tasks;
            var r := LaunchFrom(cfg, w, 0, |tasks|, Slots(cfg, tasks), launch, answers);
            && Rounds(cfg, rounds, launch, answers) && |rounds| <= |tasks| + 1
            && rounds[0].world == w
            && (cfg.concurrency >= |ActiveTasks(tasks)| ==> rounds[0].left == cfg.concurrency - |ActiveTasks(tasks)|)
            && (cfg.concurrency < |ActiveTasks(tasks)| ==> rounds[0].left == 0)
            && var last := rounds[|rounds| - 1];
            && (r.Ok? ==> r.value == last.world && (|rounds| == |tasks| + 1 || last.left == 0))
            && (r.Err? ==> StopsAt(cfg, last, |rounds| - 1, launch, answers))
            && (forall j | 0 <= j < |rounds| - 1 :: DispatchedOnce(rounds, j))
  {
    var tasks := w.ledger.tasks;
    ActiveCountIsCardinality(tasks);
    var slots := Slots(cfg, tasks);
    var r := LaunchFrom(cfg, w, 0, |tasks|, slots, launch, answers);
    LoopBegins(cfg, w, slots, launch, answers, r);
    rounds := RoundsOf(cfg, [Round(w, slots)], |tasks|, launch, answers, r);
    assert rounds[0] == [Round(w, slots)][0];
    forall j | 0 <= j < |rounds| - 1 ensures DispatchedOnce(rounds, j) {
      OnceDispatched(cfg, rounds, launch, answers, j);
    }
  }

  lemma OnceDispatched(cfg: Config, rounds: seq<Round>, launch: bool, answers: Launcher, j: nat)
    requires Rounds(cfg, rounds, launch, answers) && j + 1 < |rounds| <= |rounds[0].world.ledger.tasks| + 1
    ensures DispatchedOnce(rounds, j)
  {
    RecordKept(cfg, rounds, launch, answers, 0, j, j);
    assert RoundAt(cfg, rounds, j, launch, answers);
    RecordKept(cfg, rounds, launch, answers, j + 1, |rounds| - 1, j);
  }

  /** The task `j` is reached on the record the phase found, and what the loop leaves of
      it then the phase leaves. */
  ghost predicate DispatchedOnce(rounds: seq<Round>, j: nat) {
    && j + 1 < |rounds|
    && var first, last := rounds[0].world.ledger.tasks, rounds[|rounds| - 1].world.ledger.tasks;
       && |rounds[j].world.ledger.tasks| == |rounds[j + 1].world.ledger.tasks| == |first| == |last| > j
       && rounds[j].world.ledger.tasks[j] == first[j] && rounds[j + 1].world.ledger.tasks[j] == last[j]
  }

  /** The record no longer waits for a launch, except for quota. */
  ghost predicate DealtWith(t: Task) {
    Waits(t) ==> t.status == HandoffNeeded && t.notes.failureKind == Some(PauseThreshold)
  }

  /** No slot is wasted: after a launch phase that starts workers and returns, as many
      tasks are active as the limit allows, or every waiting task has been dealt with. */
  lemma LaunchPhaseFills(cfg: Config, w: World, answers: Launcher)
    requires LaunchFrom(cfg, w, 0, |w.ledger.tasks|, Slots(cfg, w.ledger.tasks), true, answers).Ok?
    ensures var t := LaunchFrom(cfg, w, 0, |w.ledger.tasks|, Slots(cfg, w.ledger.tasks), true, answers).value;
            || |ActiveTasks(t.ledger.tasks)| >= cfg.concurrency
            || forall task | task in t.ledger.tasks :: DealtWith(task)
  {
    var rounds := LaunchPhaseMeans(cfg, w, true, answers);
    var n, last := |w.ledger.tasks|, rounds[|rounds| - 1];
    SlotsAreFilled(cfg, rounds, answers, |rounds| - 1);
    SameRecordCount(cfg, rounds, true, answers, |rounds| - 1);
    if last.left > 0 {
      forall k | 0 <= k < |last.world.ledger.tasks| ensures DealtWith(last.world.ledger.tasks[k]) {
        assert DispatchedOnce(rounds, k);
        assert RoundAt(cfg, rounds, k, true, answers);
      }
    }
  }

  // ---- Branches made on the way ----------------------------------------

  /** The branch contains the integration head. */
  ghost predicate ContainsHead(cfg: Config, repo: RepoState, b: string) {
    && ValidRepo(repo) && b in repo.refs && cfg.integration in repo.refs
    && Reaches(repo.commits, repo.refs[b], repo.refs[cfg.integration])
  }

  /** From `s` to `t` the integration head stayed, new branches contain it, and old ones
      that contained it still do. */
  ghost predicate BranchesFromHead(cfg: Config, s: RepoState, t: RepoState) {
    && ValidRepo(s) && ValidRepo(t) && s.refs.Keys <= t.refs.Keys
    && (cfg.integration in s.refs ==> t.refs[cfg.integration] == s.refs[cfg.integration])
    && forall b {:trigger ContainsHead(cfg, t, b)} | b in t.refs && (b !in s.refs || ContainsHead(cfg, s, b)) ::
         ContainsHead(cfg, t, b)
  }

  lemma BranchesFromHeadTwice(cfg: Config, s: RepoState, m: RepoState, t: RepoState)
    requires BranchesFromHead(cfg, s, m) && BranchesFromHead(cfg, m, t)
    ensures BranchesFromHead(cfg, s, t)
  {
    forall b | b in t.refs && (b !in s.refs || ContainsHead(cfg, s, b)) ensures ContainsHead(cfg, t, b) {
      assert b in m.refs ==> ContainsHead(cfg, m, b);
    }
  }

  /** A checkpoint makes no branch, and moves one only forward. */
  lemma SavedBranches(cfg: Config, w: World, t: World, p: Package, c: CheckpointAnswer)
    requires ValidRepo(w.repo) && Saved(cfg, w, t, p, c)
    ensures BranchesFromHead(cfg, w.repo, t.repo) && t.repo.refs.Keys == w.repo.refs.Keys
  {
    if t.repo != w.repo {
      var moved := w.trees[p.tree].branch;
      var g, h := w.repo.commits, t.repo.commits;
      CheckpointValid(w.repo, moved, h[|g|]);
      forall b | b in t.repo.refs && ContainsHead(cfg, w.repo, b) ensures ContainsHead(cfg, t.repo, b) {
        ReachesStable(g, h, w.repo.refs[b], w.repo.refs[cfg.integration]);
        if b == moved {
          assert w.repo.refs[b] in h[|g|].parents;
        }
      }
    }
  }

  lemma ProvisionedBranches(cfg: Config, w: World, t: World, p: Package)
    requires ValidRepo(w.repo) && Provisioned(cfg, w, t, p)
    ensures BranchesFromHead(cfg, w.repo, t.repo)
  {
    assert ValidRepo(t.repo);
    forall b | b in t.repo.refs && b !in w.repo.refs ensures ContainsHead(cfg, t.repo, b) {
      assert t.repo.refs[b] == t.repo.refs[cfg.integration];
    }
    forall b | b in w.repo.refs && ContainsHead(cfg, w.repo, b) ensures ContainsHead(cfg, t.repo, b) {
    }
  }

  lemma DispatchedBranches(cfg: Config, w: World, t: World, i: nat, launch: bool, a: LaunchAnswers, launched: bool)
    requires ValidRepo(w.repo) && Dispatched(cfg, w, t, i, launch, a, launched)
    ensures BranchesFromHead(cfg, w.repo, t.repo)
  {
    var before := w.ledger.tasks[i];
    if Waits(before) && before.packageId in cfg.packages && a.provider.Some? {
      var p := cfg.packages[before.packageId];
      if a.quotaRefuses {
        SavedBranches(cfg, w, t, p, a.checkpoint);
      } else if a.adapter == Returns {
        ProvisionedBranches(cfg, w, t, p);
      }
    }
  }

  lemma {:induction false} RoundBranches(cfg: Config, rounds: seq<Round>, launch: bool, answers: Launcher, b: nat)
    requires Rounds(cfg, rounds, launch, answers) && b < |rounds| && ValidRepo(rounds[0].world.repo)
    ensures BranchesFromHead(cfg, rounds[0].world.repo, rounds[b].world.repo)
  {
    if b > 0 {
      RoundBranches(cfg, rounds, launch, answers, b - 1);
      assert RoundAt(cfg, rounds, b - 1, launch, answers);
      var w, t := rounds[b - 1], rounds[b];
      DispatchedBranches(cfg, w.world, t.world, b - 1, launch, answers(b - 1), t.left < w.left);
      BranchesFromHeadTwice(cfg, rounds[0].world.repo, w.world.repo, t.world.repo);
    }
  }

  /** Every branch the launch phase makes contains the integration head. */
  lemma LaunchPhaseBranches(cfg: Config, w: World, launch: bool, answers: Launcher)
    requires ValidRepo(w.repo)
    requires LaunchFrom(cfg, w, 0, |w.ledger.tasks|, Slots(cfg, w.ledger.tasks), launch, answers).Ok?
    ensures var t := LaunchFrom(cfg, w, 0, |w.ledger.tasks|, Slots(cfg, w.ledger.tasks), launch, answers).value;
            BranchesFromHead(cfg, w.repo, t.repo)
  {
    var rounds := LaunchPhaseMeans(cfg, w, launch, answers);
    RoundBranches(cfg, rounds, launch, answers, |rounds| - 1);
  }
}
