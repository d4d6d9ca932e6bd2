/** When a controller tick raises instead of making progress
    (engine/controller.py). */
module Stalls {
  import opened Classifier
  import Dag
  import opened Git
  import opened Invariants
  import opened Ledger
  import opened Project
  import opened Runner
  import opened Runs
  import opened Text
  import opened Tick
  import opened Wrappers

  // ---- When a tick cannot get past hydration ---------------------------

  /** The package's task was rejected, yet its classification asks for a move. */
  ghost predicate Stuck(tasks: seq<Task>, s: PackageState) {
    var i := IndexOf(tasks, TaskIdFor(s.id));
    && i < |tasks| && tasks[i].status == Rejected
    && (s.kind == MergedIn || s.kind == ExecutionReady || s.kind == RepairRequired)
  }

  /** Hydrating one package does not change whether another one is stuck. */
  lemma MoveKeepsStuck(w: World, i: nat, status: Status, s: PackageState)
    requires i < |w.ledger.tasks| && Move(w, i, status, NO_NOTES).Ok? && w.ledger.tasks[i].id != TaskIdFor(s.id)
    ensures Stuck(Move(w, i, status, NO_NOTES).value.ledger.tasks, s) <==> Stuck(w.ledger.tasks, s)
  {
    var before, after := w.ledger.tasks, Move(w, i, status, NO_NOTES).value.ledger.tasks;
    assert forall j | 0 <= j < |before| :: after[j].id == before[j].id;
    assert IndexOf(before, TaskIdFor(s.id)) == IndexOf(after, TaskIdFor(s.id));
  }

  lemma {:induction false} HydrateEachRaisesIff(w: World, states: seq<PackageState>)
    requires forall j, k | 0 <= j < k < |states| :: states[j].id != states[k].id
    ensures HydrateEach(w, states).Err? <==> exists k :: 0 <= k < |states| && Stuck(w.ledger.tasks, states[k])
    decreases |states|
  {
    if states != [] {
      var s, rest := states[0], states[1..];
      var i := IndexOf(w.ledger.tasks, TaskIdFor(s.id));
      var target := if i < |w.ledger.tasks| then HydrateTarget(w.ledger.tasks[i].status, s.kind) else None;
      var next := if target.Some? then Move(w, i, target.value, NO_NOTES) else Ok(w);
      assert next.Err? <==> Stuck(w.ledger.tasks, s);
      if next.Ok? {
        HydrateEachRaisesIff(next.value, rest);
        forall k | 0 <= k < |rest| ensures Stuck(next.value.ledger.tasks, rest[k]) <==> Stuck(w.ledger.tasks, rest[k]) {
          assert rest[k] == states[k + 1];
          assert TaskIdFor(rest[k].id)[5..] == rest[k].id && TaskIdFor(s.id)[5..] == s.id;
          if target.Some? {
            MoveKeepsStuck(w, i, target.value, rest[k]);
          }
        }
        if k :| 0 <= k < |states| && Stuck(w.ledger.tasks, states[k]) {
          assert Stuck(next.value.ledger.tasks, rest[k - 1]);
        }
        if k :| 0 <= k < |rest| && Stuck(next.value.ledger.tasks, rest[k]) {
          assert Stuck(w.ledger.tasks, states[k + 1]);
        }
      }
    }
  }

  /** Some sorted state is stuck exactly if some package is. */
  lemma StuckStates(cfg: Config, w: World, tasks: seq<Task>)
    requires ValidConfig(cfg) && ValidRepo(w.repo)
    ensures forall id | id in Sorted(cfg.order) :: id in cfg.packages
    ensures var states := ClassifyEach(cfg, w.repo, w.trees, tasks, Sorted(cfg.order));
            (exists k :: 0 <= k < |states| && Stuck(tasks, states[k])) <==>
              exists id :: id in cfg.packages && Stuck(tasks, Classify(cfg, w.repo, w.trees, tasks, id))
  {
    SortedPackages(cfg);
    var ids := Sorted(cfg.order);
    var states := ClassifyEach(cfg, w.repo, w.trees, tasks, ids);
    if id :| id in cfg.packages && Stuck(tasks, Classify(cfg, w.repo, w.trees, tasks, id)) {
      var k :| 0 <= k < |ids| && ids[k] == id;
      assert Stuck(tasks, states[k]);
    }
    if k :| 0 <= k < |states| && Stuck(tasks, states[k]) {
      assert ids[k] in ids;
    }
  }

  /** A tick gets past hydration exactly if the dependency graph is valid and no
      rejected task belongs to a package classified as merged, ready or in need of
      repair: one rejected ready package stops the whole controller. */
  lemma HydrateRaisesIff(cfg: Config, w: World)
    requires ValidConfig(cfg) && ValidRepo(w.repo)
    ensures forall id | id in cfg.order :: id in cfg.packages
    ensures var tasks := EnsureAll(w.ledger, cfg, cfg.order).tasks;
            Hydrate(cfg, w).Err? <==>
              !DagValid(cfg)
              || exists id :: id in cfg.packages && Stuck(tasks, Classify(cfg, w.repo, w.trees, tasks, id))
  {
    SortedPackages(cfg);
    var l, ids := EnsureAll(w.ledger, cfg, cfg.order), Sorted(cfg.order);
    var states := ClassifyEach(cfg, w.repo, w.trees, l.tasks, ids);
    StuckStates(cfg, w, l.tasks);
    forall j, k | 0 <= j < k < |states| ensures states[j].id != states[k].id {
      assert states[j].id == ids[j] && states[k].id == ids[k];
    }
    HydrateEachRaisesIff(w.(ledger := l, landed := w.landed + MergedIds(cfg, w.repo)), states);
  }

  /** While a package is stuck, every tick that gets past the plan and context
      checks raises. */
  lemma StuckTickRaises(cfg: Config, w: World, input: TickInput)
    requires ValidConfig(cfg) && ValidRepo(w.repo) && FitsSuite(cfg.commands, input.answers.env)
    requires input.planApproved && input.contextReady
    requires forall id | id in cfg.order :: id in cfg.packages
    requires var tasks := EnsureAll(w.ledger, cfg, cfg.order).tasks;
             exists id :: id in cfg.packages && Stuck(tasks, Classify(cfg, w.repo, w.trees, tasks, id))
    ensures ControllerTick(cfg, w, input).Err?
  {
    HydrateRaisesIff(cfg, w);
  }

  // ---- A project of one package ----------------------------------------

  const ONLY: Package :=
    Package("P", "one", [], ["src"], [], "low", "auto", false, false, "", "work", "tree")

  const PROJECT: Config := Config(map["P" := ONLY], ["P"], "main", 1, false, [])

  function Start(status: Status, approvals: set<string>): World {
    var created := [Created(TaskIdFor("P"), Planned)];
    World(LedgerState([NewTask("P", "one").(status := status)],
                      if status == Planned then created else created + [Transition(TaskIdFor("P"), Planned, status)]),
          RepoState([Commit("c0", [], [])], map["main" := 0], OnBranch("main"), true, map[], []),
          map[], [], [], approvals, {})
  }

  lemma ProjectIsOk()
    ensures ConfigOk(PROJECT) && DagValid(PROJECT) && Sorted(PROJECT.order) == ["P"]
  {
    var g := GraphOf(PROJECT);
    assert g.deps == map["P" := []];
    assert Dag.IsRank(g, map["P" := 0]);
    Dag.RankedIffAcyclic(g);
    assert PROJECT.order[1..] == [];
    assert Sorted([]) == [];
  }

  lemma StartIsFresh()
    ensures FreshStart(PROJECT, Start(Planned, {}))
  {
    var w := Start(Planned, {});
    ReplayAppend([], Created(TaskIdFor("P"), Planned));
    assert [] + [Created(TaskIdFor("P"), Planned)] == [Created(TaskIdFor("P"), Planned)];
    assert w.ledger.tasks[0].id == TaskIdFor("P");
    assert HasId(w.ledger.tasks, TaskIdFor("P"));
  }

  lemma FirstCommand(status: Status)
    requires status == Rejected || status == MergeApproved
    ensures ByHand(PROJECT, Start(Planned, {}), "P", status) == Ok(Start(status, {}))
    ensures Found(Start(Planned, {}).ledger.tasks, "P") == 0
  {
    var w := Start(Planned, {});
    var t := w.ledger.tasks[0];
    var moved := NewTask("P", "one").(status := status);
    assert t.packageId == "P";
    assert Moved(t, status, Note(NO_NOTES)) == moved;
    assert w.ledger.tasks[0 := moved] == [moved];
    assert Start(status, {}).ledger ==
           LedgerState([moved], w.ledger.events + [Transition(t.id, Planned, status)]);
  }

  /** A run of one step. */
  lemma OneStep(step: Step, t: World)
    requires ValidConfig(PROJECT) && Next(PROJECT, Start(Planned, {}), step, t)
    ensures IsRun(PROJECT, [Start(Planned, {}), t], [step])
  {
    ProjectIsOk();
    StartIsFresh();
    var states, steps := [Start(Planned, {}), t], [step];
    forall k | 0 <= k < |steps| ensures NextAt(PROJECT, states, steps, k) {
      assert states[k] == Start(Planned, {}) && states[k + 1] == t;
    }
  }

  lemma FirstApproval()
    ensures ApproveMerge(PROJECT, Start(Planned, {}), "P") == Ok(Start(MergeApproved, {TaskIdFor("P")}))
  {
    FirstCommand(MergeApproved);
    assert Start(Planned, {}).ledger.tasks[0].id == TaskIdFor("P");
    assert {} + {TaskIdFor("P")} == {TaskIdFor("P")};
  }

  lemma Untouched(status: Status, approvals: set<string>)
    ensures var l := Start(status, approvals).ledger;
            && EnsureAll(l, PROJECT, ["P"]) == l
            && TaskForPackage(l.tasks, "P") == Some(l.tasks[0]) && IndexOf(l.tasks, TaskIdFor("P")) == 0
  {
    var l := Start(status, approvals).ledger;
    assert ["P"][1..] == [] && l.tasks[1..] == [];
    assert Existing(l.tasks, "P") == 0;
  }

  /** A human rejects the only package, which is ready: from then on every tick
      raises. */
  lemma RejectedReadyPackageStalls(input: TickInput)
    requires input.planApproved && input.contextReady && FitsSuite([], input.answers.env)
    ensures IsRun(PROJECT, [Start(Planned, {}), Start(Rejected, {})], [Refused("P")])
    ensures ValidConfig(PROJECT) && ValidRepo(Start(Rejected, {}).repo)
    ensures ControllerTick(PROJECT, Start(Rejected, {}), input).Err?
  {
    ProjectIsOk();
    FirstCommand(Rejected);
    OneStep(Refused("P"), Start(Rejected, {}));
    Untouched(Rejected, {});
    RejectedIsStuck();
    StuckTickRaises(PROJECT, Start(Rejected, {}), input);
  }

  lemma RejectedIsStuck()
    ensures var w := Start(Rejected, {});
            ValidRepo(w.repo) && Stuck(w.ledger.tasks, Classify(PROJECT, w.repo, w.trees, w.ledger.tasks, "P"))
  {
    Untouched(Rejected, {});
    var w := Start(Rejected, {});
    assert Classify(PROJECT, w.repo, w.trees, w.ledger.tasks, "P").kind == ExecutionReady;
  }

  // ---- When the integration phase cannot list its candidates -----------

  lemma {:induction false} CandidatesRaiseIff(tasks: seq<Task>, states: seq<PackageState>)
    ensures Candidates(tasks, states).Err? <==>
              exists k :: 0 <= k < |states| && IsCandidate(tasks, states[k]) && states[k].head.None?
  {
    if states != [] {
      CandidatesRaiseIff(tasks, states[1..]);
      assert forall k | 0 <= k < |states[1..]| :: states[1..][k] == states[k + 1];
      if k :| 0 <= k < |states| && IsCandidate(tasks, states[k]) && states[k].head.None? && k > 0 {
        assert IsCandidate(tasks, states[1..][k - 1]) && states[1..][k - 1].head.None?;
      }
    }
  }

  /** A task may be merged, but its package has no branch. */
  ghost predicate Branchless(cfg: Config, w: World, id: string) {
    && id in cfg.packages && cfg.packages[id].branch !in w.repo.refs
    && LastOf(w.ledger.tasks, id).Some? && Mergeable(LastOf(w.ledger.tasks, id).value.status)
  }

  /** Listing the candidates raises exactly if the dependency graph is invalid or
      some task is ready for a merge whose package has no branch. */
  lemma CandidateListRaisesIff(cfg: Config, w: World)
    requires ValidConfig(cfg) && ValidRepo(w.repo)
    ensures forall id | id in Sorted(cfg.order) :: id in cfg.packages
    ensures var states := ClassifyEach(cfg, w.repo, w.trees, w.ledger.tasks, Sorted(cfg.order));
            Candidates(w.ledger.tasks, states).Err? <==> exists id :: Branchless(cfg, w, id)
  {
    SortedPackages(cfg);
    var ids := Sorted(cfg.order);
    var states := ClassifyEach(cfg, w.repo, w.trees, w.ledger.tasks, ids);
    CandidatesRaiseIff(w.ledger.tasks, states);
    if id :| Branchless(cfg, w, id) {
      var k :| 0 <= k < |ids| && ids[k] == id;
      assert IsCandidate(w.ledger.tasks, states[k]) && states[k].head.None?;
    }
    if k :| 0 <= k < |states| && IsCandidate(w.ledger.tasks, states[k]) && states[k].head.None? {
      assert ids[k] in ids;
      assert Branchless(cfg, w, ids[k]);
    }
  }

  /** A human approves the only package before it was ever launched: every tick
      that integrates raises. */
  lemma EarlyApprovalStalls(input: TickInput)
    requires input.planApproved && input.contextReady && input.integrate && FitsSuite([], input.answers.env)
    ensures IsRun(PROJECT, [Start(Planned, {}), Start(MergeApproved, {TaskIdFor("P")})], [Approved("P")])
    ensures ValidConfig(PROJECT) && ValidRepo(Start(MergeApproved, {TaskIdFor("P")}).repo)
    ensures ControllerTick(PROJECT, Start(MergeApproved, {TaskIdFor("P")}), input).Err?
  {
    ProjectIsOk();
    FirstApproval();
    OneStep(Approved("P"), Start(MergeApproved, {TaskIdFor("P")}));
    ApprovedSettles(input);
    ApprovedIsBranchless(input);
  }

  lemma ApprovedIsBranchless(input: TickInput)
    requires input.integrate && FitsSuite([], input.answers.env)
    ensures var w := Start(MergeApproved, {TaskIdFor("P")});
            ValidConfig(PROJECT) && ValidRepo(w.repo) && MergeAndLaunch(PROJECT, w, input).Err?
  {
    ProjectIsOk();
    var w := Start(MergeApproved, {TaskIdFor("P")});
    assert w.ledger.tasks[|w.ledger.tasks| - 1].packageId == "P";
    assert Branchless(PROJECT, w, "P");
    CandidateListRaisesIff(PROJECT, w);
  }

  lemma ApprovedSettles(input: TickInput)
    ensures ValidConfig(PROJECT) && ValidRepo(Start(MergeApproved, {TaskIdFor("P")}).repo)
    ensures Settle(PROJECT, Start(MergeApproved, {TaskIdFor("P")}), input)
            == Ok(Start(MergeApproved, {TaskIdFor("P")}))
  {
    var w := Start(MergeApproved, {TaskIdFor("P")});
    ApprovedHydrates();
    IdleTask(PROJECT, w, input.reconciling, input.deciding);
  }

  lemma ApprovedHydrates()
    ensures ValidConfig(PROJECT) && ValidRepo(Start(MergeApproved, {TaskIdFor("P")}).repo)
    ensures Hydrate(PROJECT, Start(MergeApproved, {TaskIdFor("P")})) == Ok(Start(MergeApproved, {TaskIdFor("P")}))
  {
    ProjectIsOk();
    var w := Start(MergeApproved, {TaskIdFor("P")});
    Untouched(MergeApproved, {TaskIdFor("P")});
    assert MergedIds(PROJECT, w.repo) == {};
    assert w.landed + MergedIds(PROJECT, w.repo) == w.landed;
    ApprovedIsActive();
  }

  lemma ApprovedIsActive()
    ensures var w := Start(MergeApproved, {TaskIdFor("P")});
            && ValidRepo(w.repo)
            && HydrateEach(w, ClassifyEach(PROJECT, w.repo, w.trees, w.ledger.tasks, ["P"])) == Ok(w)
  {
    var w := Start(MergeApproved, {TaskIdFor("P")});
    Untouched(MergeApproved, {TaskIdFor("P")});
    var states := ClassifyEach(PROJECT, w.repo, w.trees, w.ledger.tasks, ["P"]);
    assert |states| == 1 && states[0].kind == Active;
    assert states[1..] == [];
    assert HydrateEach(w, states) == HydrateEach(w, []);
  }

  /** A single task that is neither active nor awaiting a decision is left alone. */
  lemma IdleTask(cfg: Config, w: World, reconciling: Observer, deciding: Observer)
    requires ValidRepo(w.repo) && |w.ledger.tasks| == 1
    requires !ActiveState(w.ledger.tasks[0].status) && w.ledger.tasks[0].status != DecisionRequired
    ensures ReconcileFrom(cfg, w, 0, 1, reconciling) == Ok(w) && DecideFrom(cfg, w, 0, 1, deciding) == Ok(w)
  {
    assert ReconcileFrom(cfg, w, 1, 1, reconciling) == Ok(w);
    assert DecideFrom(cfg, w, 1, 1, deciding) == Ok(w);
  }
}
