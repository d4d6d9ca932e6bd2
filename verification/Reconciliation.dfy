/** What one reconciliation does to every stored task, by what was observed of its
    process and result (engine/controller.py). */
module Reconciliation {
  import opened Gates
  import opened Git
  import opened Invariants
  import opened Ledger
  import opened Paths
  import opened Project
  import opened Steps
  import opened Tick
  import opened Wrappers

  /** What a supervisor may do after each failure read from a log. */
  const ALLOWED: map<LogKind, set<Action>> := map[
    QuotaExhausted := {HandoffProvider, AskUser},
    RateLimited := {HandoffProvider, AskUser},
    Authentication := {HandoffProvider, AskUser},
    WrapperQuoting := {HandoffProvider, RepairAdapter, AskUser},
    ValidationCommandInvalid := {RepairContract, AskUser},
    ContractOwnershipGap := {RepairContract, AskUser},
    MergeBranchDivergence := {ReconcileBranch, AskUser},
    Capacity := {RetrySameProvider, HandoffProvider, AskUser},
    GitFailure := {RetrySameProvider, HandoffProvider, AskUser},
    WorkspacePermission := {RetrySameProvider, HandoffProvider, AskUser},
    ResultPathUnwritable := {RetrySameProvider, HandoffProvider, AskUser},
    MissingWorkerResult := {RetrySameProvider, HandoffProvider, AskUser},
    TestFailure := {RetrySameProvider, HandoffProvider, AskUser},
    AdapterFailure := {RetrySameProvider, HandoffProvider, AskUser}
  ]

  lemma AllowedIsListed(kind: LogKind)
    ensures kind in ALLOWED && AllowedActions(FromLog(kind)) == ALLOWED[kind]
  {
    assert kind in ALLOWED;
  }

  // ---- What may become of a record -------------------------------------

  /** Nothing but the ledger changed, and the record has another status only. */
  ghost predicate Stands(w: World, t: World, i: nat, status: Status)
    requires OnlyRecord(w, t, i)
  {
    t == w.(ledger := t.ledger) && t.ledger.tasks[i] == w.ledger.tasks[i].(status := status)
  }

  /** The same after the statuses of `path`. */
  ghost predicate EndsUp(w: World, t: World, i: nat, path: seq<Status>)
    requires OnlyRecord(w, t, i) && path != []
  {
    Stands(w, t, i, path[|path| - 1]) && Logs(w, t, i, path)
  }

  /** Nothing but the ledger changed, and the record awaits a decision. */
  ghost predicate Awaits(w: World, t: World, i: nat, kind: FailureKind, allowed: set<Action>)
    requires OnlyRecord(w, t, i)
  {
    var before := w.ledger.tasks[i];
    && t == w.(ledger := t.ledger) && Logs(w, t, i, [DecisionRequired])
    && t.ledger.tasks[i] == before.(status := DecisionRequired,
                                    notes := before.notes.(failureKind := Some(kind), allowed := Some(allowed)))
  }

  /** Nothing but the dirt in the package's worktree changed. */
  ghost predicate Dirtied(w: World, t: World, p: Package, dirty: bool) {
    && t == w.(trees := t.trees) && t.trees.Keys == w.trees.Keys
    && forall d | d in w.trees ::
         t.trees[d] == if d == p.tree then w.trees[d].(dirty := dirty) else w.trees[d]
  }

  /** The worktree is there and clean, and its head is not the integration head. */
  ghost predicate HasOwnCommit(cfg: Config, w: World, p: Package) {
    && p.tree in w.trees && !w.trees[p.tree].dirty && p.branch in w.repo.refs
    && w.trees[p.tree].branch in w.repo.refs && cfg.integration in w.repo.refs
    && w.repo.refs[w.trees[p.tree].branch] != w.repo.refs[cfg.integration]
  }

  /** There is no result. A live process, or one that waits and is not stale, leaves
      everything as it was. A stale one, and one that is gone, call for a decision;
      only in controller mode a commit may be completed on the spot. */
  ghost predicate WithoutResult(cfg: Config, w: World, t: World, i: nat, p: Package, o: Observation)
    requires OnlyRecord(w, t, i) && o.process.Process?
  {
    if o.process.alive || (o.process.tmuxWaiting && !o.process.stale) then t == w
    else if o.process.tmuxWaiting then
      Awaits(w, t, i, StaleRunningProcess, {RetrySameProvider, HandoffProvider, AskUser})
    else if !HasOwnCommit(cfg, w, p) then
      var kind := if o.quoting then WrapperQuoting else o.logKind;
      kind in ALLOWED && Awaits(w, t, i, FromLog(kind), ALLOWED[kind])
    else if cfg.hermes then
      Awaits(w, t, i, MissingResultWithCommit, {NormalizeResult, RetrySameProvider, HandoffProvider})
    else
      match o.completion
      case CompletionValidated => Dirtied(w, t, p, o.leavesDirty)
      case CompletionFailed(kind) => kind in ALLOWED && Awaits(w, t, i, FromLog(kind), ALLOWED[kind])
      case CompletionRaised => false
  }

  /** The record is handed over after its work, tested or not, was saved. */
  ghost predicate HandsOn(cfg: Config, w: World, u: World, t: World, i: nat, before: Task, path: seq<Status>,
                          p: Package, provider: string, kind: FailureKind, o: Observation)
    requires OnlyRecord(w, t, i)
  {
    && Logs(w, t, i, path + [if o.hasNext then HandoffNeeded else Blocked])
    && u.ledger == w.ledger && Saved(cfg, u, t, p, o.checkpoint)
    && HandedOver(before, t.ledger.tasks[i], provider, kind, o.hasNext)
  }

  /** The worktree as a claim's check sees it. */
  ghost predicate BornOut(w: World, p: Package, report: Report) {
    && report.schemaOk && p.tree in w.trees && Substantiated(p, report, w.repo, Some(w.trees[p.tree]))
  }

  ghost predicate PassesReview(w: World, p: Package, provider: string, report: Report, o: Observation)
    requires BornOut(w, p, report)
  {
    && o.suite == SuitePassed
    && Owned(report.files.GetOr(ListedFiles(w.repo.commits[w.repo.refs[p.branch]])), p.owned, p.forbidden)
    && (p.reviewRequired ==> Reviewer(p, o.reviewer) != provider)
  }

  /** The accepted claim's worktree after its suite has run. */
  ghost function AfterSuite(w: World, p: Package, o: Observation): World
    requires p.tree in w.trees
  {
    w.(trees := w.trees[p.tree := w.trees[p.tree].(dirty := o.suite != SuitePassed && o.leavesDirty)])
  }

  /** The task claims to be completed. A claim that is not borne out, or whose suite
      raises, is handed over as a validation failure; one that does not pass the review
      as a review failure; any other waits for a human or has passed. */
  ghost predicate WithClaim(cfg: Config, w: World, t: World, i: nat, p: Package, provider: string,
                            report: Report, o: Observation)
    requires OnlyRecord(w, t, i)
  {
    var before, after := w.ledger.tasks[i], t.ledger.tasks[i];
    if !BornOut(w, p, report) then HandsOn(cfg, w, w, t, i, before, [Validating], p, provider, ValidationFailure, o)
    else
      var u := AfterSuite(w, p, o);
      var notes := before.notes.(commit := Some(w.repo.refs[p.branch]), validated := Some(o.suite == SuitePassed));
      && o.suite != SuiteBroke
      && if o.suite == SuiteRaised then
           HandsOn(cfg, w, u, t, i, before, [Validating], p, provider, ValidationFailure, o)
         else if !PassesReview(w, p, provider, report, o) then
           HandsOn(cfg, w, u, t, i, before.(notes := notes), [Validating, Reviewing], p, provider, ReviewFailure, o)
         else
           var status := if RequiresHumanMergeApproval(p) then MergeReady else ReviewPassed;
           && t == w.(ledger := t.ledger) && Logs(w, t, i, [Validating, Reviewing] + [status])
           && after == before.(status := status, notes := notes.(reviewed := Some(true)))
  }

  /** What reconciling the task `i` does, exactly. */
  ghost predicate Reconciled(cfg: Config, w: World, t: World, i: nat, o: Observation) {
    && OnlyRecord(w, t, i)
    && var before := w.ledger.tasks[i];
       if !AtWork(before) || o.process.NotMapping? then t == w
       else if o.process.NoProcess? then
         && t == w.(ledger := t.ledger) && Logs(w, t, i, [DecisionRequired])
         && t.ledger.tasks[i] == before.(status := DecisionRequired,
                                         notes := before.notes.(failureKind := Some(MissingProcessRecord)))
       else if before.packageId !in cfg.packages then EndsUp(w, t, i, [Failed])
       else
         var p := cfg.packages[before.packageId];
         match o.result
         case NoResult => WithoutResult(cfg, w, t, i, p, o)
         case Unusable => false
         case BlockedResult => EndsUp(w, t, i, [Validating, Blocked])
         case OtherResult => EndsUp(w, t, i, [Validating, Failed])
         case CompletedResult(report) =>
           WithClaim(cfg, w, t, i, p, before.notes.provider.GetOr(o.process.provider), report, o)
  }

  /** When reconciling the task `i` lets an exception out. */
  ghost predicate CannotReconcile(cfg: Config, w: World, i: nat, o: Observation)
    requires i < |w.ledger.tasks| && ValidRepo(w.repo)
  {
    var before := w.ledger.tasks[i];
    && AtWork(before) && o.process.Process? && before.packageId in cfg.packages
    && var p := cfg.packages[before.packageId];
       match o.result
       case NoResult =>
         && !o.process.alive && !o.process.tmuxWaiting && HasOwnCommit(cfg, w, p) && !cfg.hermes
         && o.completion == CompletionRaised
       case Unusable => true
       case CompletedResult(report) =>
         || GitFails(p, report, w.repo, if p.tree in w.trees then Some(w.trees[p.tree]) else None)
         || (BornOut(w, p, report) && o.suite == SuiteBroke)
       case _ => false
  }

  // ---- One task --------------------------------------------------------

  lemma WithoutResultMeans(cfg: Config, w: World, i: nat, p: Package, o: Observation)
    requires i < |w.ledger.tasks| && AtWork(w.ledger.tasks[i]) && o.process.Process?
    ensures var r := ReconcileProcess(cfg, w, i, p, o);
            && (r.Ok? ==> OnlyRecord(w, r.value, i) && WithoutResult(cfg, w, r.value, i, p, o))
            && (r.Err? <==> !o.process.alive && !o.process.tmuxWaiting && HasOwnCommit(cfg, w, p) && !cfg.hermes
                            && o.completion == CompletionRaised)
  {
    AllowedIsListed(if o.quoting then WrapperQuoting else o.logKind);
    if o.completion.CompletionFailed? {
      AllowedIsListed(o.completion.kind);
    }
    var r := ReconcileProcess(cfg, w, i, p, o);
    if r.Ok? && r.value.ledger != w.ledger {
      LogsOne(w, r.value, i, DecisionRequired);
    }
  }

  /** The world with the record `i` moved on to validation. */
  ghost predicate InValidation(w: World, v: World, i: nat) {
    && OnlyRecord(w, v, i) && v == w.(ledger := v.ledger) && Logs(w, v, i, [Validating])
    && v.ledger.tasks[i] == w.ledger.tasks[i].(status := Validating)
  }

  lemma ReviewMeans(cfg: Config, v: World, i: nat, p: Package, provider: string, commit: CommitId,
                    files: seq<string>, validated: bool, o: Observation)
    requires i < |v.ledger.tasks| && v.ledger.tasks[i].status == Reviewing
    ensures var r := ReconcileReview(cfg, v, i, p, provider, commit, files, validated, o);
            var before := v.ledger.tasks[i];
            && r.Ok? && OnlyRecord(v, r.value, i)
            && if ReviewPasses(p, provider, o.reviewer, files, validated) then
                 var status := if RequiresHumanMergeApproval(p) then MergeReady else ReviewPassed;
                 && r.value == v.(ledger := r.value.ledger) && Logs(v, r.value, i, [status])
                 && r.value.ledger.tasks[i]
                    == before.(status := status,
                               notes := before.notes.(commit := Some(commit), reviewed := Some(true)))
               else
                 && Saved(cfg, v, r.value, p, o.checkpoint)
                 && Logs(v, r.value, i, [if o.hasNext then HandoffNeeded else Blocked])
                 && HandedOver(before, r.value.ledger.tasks[i], provider, ReviewFailure, o.hasNext)
  {
    if !ReviewPasses(p, provider, o.reviewer, files, validated) {
      HandoffRecord(cfg, v, i, p, provider, ReviewFailure, o.hasNext, o.checkpoint);
    } else {
      LogsOne(v, ReconcileReview(cfg, v, i, p, provider, commit, files, validated, o).value, i,
              if RequiresHumanMergeApproval(p) then MergeReady else ReviewPassed);
    }
  }

  lemma RaisingSuiteMeans(cfg: Config, w: World, v: World, i: nat, p: Package, provider: string, o: Observation,
                          commit: CommitId, files: seq<string>)
    requires InValidation(w, v, i) && p.tree in w.trees && o.suite == SuiteRaised
    ensures var r := ReconcileAccepted(cfg, v, i, p, provider, commit, files, o);
            && r.Ok? && OnlyRecord(w, r.value, i)
            && HandsOn(cfg, w, AfterSuite(w, p, o), r.value, i, w.ledger.tasks[i], [Validating], p, provider,
                       ValidationFailure, o)
  {
    var tested := Tested(v, p, o.leavesDirty);
    assert tested == AfterSuite(w, p, o).(ledger := v.ledger);
    HandoffRecord(cfg, tested, i, p, provider, ValidationFailure, o.hasNext, o.checkpoint);
    LogsBoth(w, tested, ReconcileAccepted(cfg, v, i, p, provider, commit, files, o).value, i, [Validating],
             [if o.hasNext then HandoffNeeded else Blocked]);
  }

  /** The world in which an accepted claim is reviewed. */
  ghost predicate UnderReview(w: World, v: World, i: nat, p: Package, o: Observation, commit: CommitId)
    requires p.tree in w.trees
  {
    && OnlyRecord(w, v, i) && v == AfterSuite(w, p, o).(ledger := v.ledger) && Logs(w, v, i, [Validating, Reviewing])
    && v.ledger.tasks[i]
       == w.ledger.tasks[i].(status := Reviewing,
                             notes := w.ledger.tasks[i].notes.(commit := Some(commit),
                                                               validated := Some(o.suite == SuitePassed)))
  }

  lemma ReviewBegins(cfg: Config, w: World, v: World, i: nat, p: Package, provider: string, o: Observation,
                     commit: CommitId, files: seq<string>) returns (reviewing: World)
    requires InValidation(w, v, i) && p.tree in w.trees && (o.suite == SuitePassed || o.suite == SuiteFailed)
    ensures UnderReview(w, reviewing, i, p, o, commit)
    ensures ReconcileAccepted(cfg, v, i, p, provider, commit, files, o)
            == ReconcileReview(cfg, reviewing, i, p, provider, commit, files, o.suite == SuitePassed, o)
  {
    var tested := Tested(v, p, o.suite != SuitePassed && o.leavesDirty);
    assert tested == AfterSuite(w, p, o).(ledger := v.ledger);
    var notes := NO_NOTES.(commit := Some(commit), validated := Some(o.suite == SuitePassed));
    reviewing := Move(tested, i, Reviewing, notes).value;
    LogsOne(tested, reviewing, i, Reviewing);
    LogsBoth(w, tested, reviewing, i, [Validating], [Reviewing]);
    assert [Validating] + [Reviewing] == [Validating, Reviewing];
  }

  /** How the review of an accepted claim ends, seen from before its validation. */
  ghost predicate ReviewEnds(cfg: Config, w: World, t: World, i: nat, p: Package, provider: string, o: Observation,
                             commit: CommitId, passes: bool)
    requires p.tree in w.trees
  {
    && OnlyRecord(w, t, i)
    && var before := w.ledger.tasks[i];
       var notes := before.notes.(commit := Some(commit), validated := Some(o.suite == SuitePassed));
       if passes then
         var status := if RequiresHumanMergeApproval(p) then MergeReady else ReviewPassed;
         && t == AfterSuite(w, p, o).(ledger := t.ledger)
         && Logs(w, t, i, [Validating, Reviewing] + [status])
         && t.ledger.tasks[i] == before.(status := status, notes := notes.(reviewed := Some(true)))
       else
         HandsOn(cfg, w, AfterSuite(w, p, o), t, i, before.(notes := notes), [Validating, Reviewing],
                 p, provider, ReviewFailure, o)
  }

  lemma ReviewIsHeld(cfg: Config, w: World, v: World, i: nat, p: Package, provider: string, o: Observation,
                     commit: CommitId, files: seq<string>)
    requires i < |w.ledger.tasks| && p.tree in w.trees && UnderReview(w, v, i, p, o, commit)
    ensures var r := ReconcileReview(cfg, v, i, p, provider, commit, files, o.suite == SuitePassed, o);
            && r.Ok?
            && ReviewEnds(cfg, w, r.value, i, p, provider, o, commit,
                          ReviewPasses(p, provider, o.reviewer, files, o.suite == SuitePassed))
  {
    ReviewMeans(cfg, v, i, p, provider, commit, files, o.suite == SuitePassed, o);
    var r := ReconcileReview(cfg, v, i, p, provider, commit, files, o.suite == SuitePassed, o).value;
    if ReviewPasses(p, provider, o.reviewer, files, o.suite == SuitePassed) {
      LogsBoth(w, v, r, i, [Validating, Reviewing],
               [if RequiresHumanMergeApproval(p) then MergeReady else ReviewPassed]);
    } else {
      LogsBoth(w, v, r, i, [Validating, Reviewing], [if o.hasNext then HandoffNeeded else Blocked]);
    }
  }

  lemma ReviewedMeans(cfg: Config, w: World, v: World, i: nat, p: Package, provider: string, o: Observation,
                      commit: CommitId, files: seq<string>)
    requires InValidation(w, v, i) && p.tree in w.trees && (o.suite == SuitePassed || o.suite == SuiteFailed)
    ensures var r := ReconcileAccepted(cfg, v, i, p, provider, commit, files, o);
            && r.Ok?
            && ReviewEnds(cfg, w, r.value, i, p, provider, o, commit,
                          ReviewPasses(p, provider, o.reviewer, files, o.suite == SuitePassed))
  {
    var reviewing := ReviewBegins(cfg, w, v, i, p, provider, o, commit, files);
    ReviewIsHeld(cfg, w, reviewing, i, p, provider, o, commit, files);
  }

  lemma AcceptedMeans(cfg: Config, w: World, v: World, i: nat, p: Package, provider: string, report: Report,
                      o: Observation)
    requires InValidation(w, v, i) && ValidRepo(w.repo) && BornOut(w, p, report) && o.suite != SuiteBroke
    ensures var commit := w.repo.refs[p.branch];
            var files := report.files.GetOr(ListedFiles(w.repo.commits[commit]));
            var r := ReconcileAccepted(cfg, v, i, p, provider, commit, files, o);
            r.Ok? && OnlyRecord(w, r.value, i) && WithClaim(cfg, w, r.value, i, p, provider, report, o)
  {
    var commit := w.repo.refs[p.branch];
    var files := report.files.GetOr(ListedFiles(w.repo.commits[commit]));
    assert PassesReview(w, p, provider, report, o) <==>
             o.suite == SuitePassed && ReviewPasses(p, provider, o.reviewer, files, true);
    if o.suite == SuiteRaised {
      RaisingSuiteMeans(cfg, w, v, i, p, provider, o, commit, files);
    } else {
      ReviewedMeans(cfg, w, v, i, p, provider, o, commit, files);
      if PassesReview(w, p, provider, report, o) {
        assert AfterSuite(w, p, o).trees == w.trees;
      }
    }
  }

  lemma ClaimMeans(cfg: Config, w: World, v: World, i: nat, p: Package, provider: string, report: Report,
                   o: Observation)
    requires InValidation(w, v, i) && ValidRepo(w.repo)
    ensures var r := ReconcileCompleted(cfg, v, i, p, provider, report, o);
            && (r.Ok? ==> OnlyRecord(w, r.value, i) && WithClaim(cfg, w, r.value, i, p, provider, report, o))
            && (r.Err? <==>
                  || GitFails(p, report, w.repo, if p.tree in w.trees then Some(w.trees[p.tree]) else None)
                  || (BornOut(w, p, report) && o.suite == SuiteBroke))
  {
    var tree := if p.tree in w.trees then Some(w.trees[p.tree]) else None;
    AcceptedIffSubstantiated(p, report, w.repo, tree);
    GitFailsIff(p, report, w.repo, tree);
    var verdict := CompletedVerdict(p, report, w.repo, tree);
    if verdict == Refused {
      HandoffRecord(cfg, v, i, p, provider, ValidationFailure, o.hasNext, o.checkpoint);
      LogsBoth(w, v, ReconcileCompleted(cfg, v, i, p, provider, report, o).value, i, [Validating],
               [if o.hasNext then HandoffNeeded else Blocked]);
    } else if verdict.Accepted? && o.suite != SuiteBroke {
      AcceptedMeans(cfg, w, v, i, p, provider, report, o);
    }
  }

  lemma UnfinishedMeans(cfg: Config, w: World, v: World, i: nat, p: Package, provider: string, o: Observation)
    requires InValidation(w, v, i) && ValidRepo(w.repo) && (o.result.BlockedResult? || o.result.OtherResult?)
    ensures var r := ReconcileResult(cfg, v, i, p, provider, o);
            var last := if o.result.BlockedResult? then Blocked else Failed;
            r.Ok? && OnlyRecord(w, r.value, i) && EndsUp(w, r.value, i, [Validating, last])
  {
    var r := ReconcileResult(cfg, v, i, p, provider, o).value;
    var last := if o.result.BlockedResult? then Blocked else Failed;
    LogsOne(v, r, i, last);
    LogsBoth(w, v, r, i, [Validating], [last]);
    assert [Validating] + [last] == [Validating, last];
  }

  lemma WithResultMeans(cfg: Config, w: World, i: nat, p: Package, provider: string, o: Observation)
    requires i < |w.ledger.tasks| && ValidRepo(w.repo) && AtWork(w.ledger.tasks[i])
    requires o.process.Process? && !o.result.NoResult? && !o.result.Unusable?
    ensures var r := ReconcileActive(cfg, w, i, p, provider, o);
            && (r.Ok? ==> OnlyRecord(w, r.value, i))
            && (o.result.BlockedResult? ==> r.Ok? && EndsUp(w, r.value, i, [Validating, Blocked]))
            && (o.result.OtherResult? ==> r.Ok? && EndsUp(w, r.value, i, [Validating, Failed]))
            && (o.result.CompletedResult? ==>
                  var report := o.result.report;
                  && (r.Ok? ==> WithClaim(cfg, w, r.value, i, p, provider, report, o))
                  && (r.Err? <==>
                        || GitFails(p, report, w.repo, if p.tree in w.trees then Some(w.trees[p.tree]) else None)
                        || (BornOut(w, p, report) && o.suite == SuiteBroke)))
  {
    var v := Move(w, i, Validating, NO_NOTES).value;
    LogsOne(w, v, i, Validating);
    assert InValidation(w, v, i);
    if o.result.CompletedResult? {
      ClaimMeans(cfg, w, v, i, p, provider, o.result.report, o);
    } else {
      UnfinishedMeans(cfg, w, v, i, p, provider, o);
    }
  }

  /** Reconciling one task, exactly: what it leaves, and when it raises. */
  lemma ReconcileOneMeans(cfg: Config, w: World, i: nat, o: Observation)
    requires i < |w.ledger.tasks| && ValidRepo(w.repo)
    ensures var r := ReconcileOne(cfg, w, i, o);
            && (r.Ok? ==> Reconciled(cfg, w, r.value, i, o))
            && (r.Err? <==> CannotReconcile(cfg, w, i, o))
  {
    var before := w.ledger.tasks[i];
    if AtWork(before) && o.process.Process? && before.packageId in cfg.packages {
      var p := cfg.packages[before.packageId];
      var provider := before.notes.provider.GetOr(o.process.provider);
      if o.result.NoResult? {
        WithoutResultMeans(cfg, w, i, p, o);
      } else if !o.result.Unusable? {
        WithResultMeans(cfg, w, i, p, provider, o);
      }
    } else if AtWork(before) && !o.process.NotMapping? {
      LogsOne(w, ReconcileOne(cfg, w, i, o).value, i, if o.process.NoProcess? then DecisionRequired else Failed);
    }
  }

  // ---- The phase -------------------------------------------------------

  /** Between two worlds of a trace the task `j` was reconciled. */
  ghost predicate VisitedAt(cfg: Config, trace: seq<World>, j: nat, observe: Observer) {
    j + 1 < |trace| && Reconciled(cfg, trace[j], trace[j + 1], j, observe(j))
  }

  /** A trace has a world for every task about to be reconciled, and the last one. */
  ghost predicate Visits(cfg: Config, trace: seq<World>, observe: Observer) {
    trace != [] && forall j {:trigger VisitedAt(cfg, trace, j, observe)} | 0 <= j < |trace| - 1 ::
                     VisitedAt(cfg, trace, j, observe)
  }

  lemma VisitsOneMore(cfg: Config, past: seq<World>, next: World, observe: Observer)
    requires Visits(cfg, past, observe)
    requires Reconciled(cfg, past[|past| - 1], next, |past| - 1, observe(|past| - 1))
    ensures Visits(cfg, past + [next], observe)
  {
    var more := past + [next];
    forall j | 0 <= j < |more| - 1 ensures VisitedAt(cfg, more, j, observe) {
      if j < |past| - 1 {
        assert VisitedAt(cfg, past, j, observe);
      }
    }
  }

  /** The task `i` is the first that cannot be reconciled. */
  ghost predicate Stops(cfg: Config, w: World, i: nat, observe: Observer) {
    i < |w.ledger.tasks| && ValidRepo(w.repo) && CannotReconcile(cfg, w, i, observe(i))
  }

  /** One round of the loop. */
  lemma ReconcileRound(cfg: Config, w: World, i: nat, n: nat, observe: Observer, r: Outcome)
      returns (next: Option<World>)
    requires i < n && ReconcilesTo(cfg, w, i, n, observe, r)
    ensures next.Some? ==>
              && Reconciled(cfg, w, next.value, i, observe(i))
              && ReconcilesTo(cfg, next.value, i + 1, n, observe, r)
    ensures next.None? ==> r.Err? && Stops(cfg, w, i, observe)
  {
    ReconcilesToUnfolds(cfg, w, i, n, observe, r);
    ReconcileOneMeans(cfg, w, i, observe(i));
    var one := ReconcileOne(cfg, w, i, observe(i));
    next := if one.Ok? then Some(one.value) else None;
  }

  lemma {:induction false} TraceOf(cfg: Config, past: seq<World>, n: nat, observe: Observer, r: Outcome)
      returns (trace: seq<World>)
    requires Visits(cfg, past, observe) && |past| <= n + 1
    requires ReconcilesTo(cfg, past[|past| - 1], |past| - 1, n, observe, r)
    ensures Visits(cfg, trace, observe) && past <= trace && |trace| <= n + 1
    ensures r.Ok? ==> |trace| == n + 1 && r.value == trace[n]
    ensures r.Err? ==> Stops(cfg, trace[|trace| - 1], |trace| - 1, observe)
    decreases n + 1 - |past|
  {
    trace := past;
    if |past| == n + 1 {
      ReconcileEnds(cfg, past[n], n, observe, r);
    } else {
      var next := ReconcileRound(cfg, past[|past| - 1], |past| - 1, n, observe, r);
      if next.Some? {
        VisitsOneMore(cfg, past, next.value, observe);
        trace := TraceOf(cfg, past + [next.value], n, observe, r);
      }
    }
  }

  /** A record changes only when it is visited. */
  lemma {:induction false} RecordWaits(cfg: Config, trace: seq<World>, observe: Observer, a: nat, b: nat, j: nat)
    requires Visits(cfg, trace, observe) && a <= b < |trace| && !(a <= j < b)
    requires |trace[a].ledger.tasks| == |trace[0].ledger.tasks| && j < |trace[0].ledger.tasks|
    ensures |trace[b].ledger.tasks| == |trace[a].ledger.tasks| && trace[b].ledger.tasks[j] == trace[a].ledger.tasks[j]
    decreases b - a
  {
    if a < b {
      RecordWaits(cfg, trace, observe, a, b - 1, j);
      assert VisitedAt(cfg, trace, b - 1, observe);
    }
  }

  /** The task `j` is reconciled on the record the phase found, and what that leaves of
      it the phase leaves. */
  ghost predicate ReconciledOnce(trace: seq<World>, j: nat) {
    && j + 1 < |trace|
    && var last := |trace| - 1;
       && |trace[j].ledger.tasks| == |trace[j + 1].ledger.tasks| == |trace[last].ledger.tasks|
       && |trace[0].ledger.tasks| == |trace[last].ledger.tasks| > j
       && trace[j].ledger.tasks[j] == trace[0].ledger.tasks[j]
       && trace[j + 1].ledger.tasks[j] == trace[last].ledger.tasks[j]
  }

  /** The whole phase, record by record: every stored task is reconciled once, in order,
      as its observation says; the phase raises exactly if it comes to a task that
      cannot be reconciled. */
  lemma ReconcilePhaseMeans(cfg: Config, w: World, observe: Observer) returns (trace: seq<World>)
    requires ValidRepo(w.repo)
    ensures Visits(cfg, trace, observe) && trace[0] == w && |trace| <= |w.ledger.tasks| + 1
    ensures var r, n := ReconcileFrom(cfg, w, 0, |w.ledger.tasks|, observe), |w.ledger.tasks|;
            && (r.Err? <==> |trace| <= n && Stops(cfg, trace[|trace| - 1], |trace| - 1, observe))
            && (r.Ok? <==> |trace| == n + 1) && (r.Ok? ==> r.value == trace[n])
            && (r.Ok? ==> forall j | 0 <= j < n :: ReconciledOnce(trace, j))
  {
    var n, r := |w.ledger.tasks|, ReconcileFrom(cfg, w, 0, |w.ledger.tasks|, observe);
    trace := TraceOf(cfg, [w], n, observe, r);
    assert trace[0] == [w][0];
    RecordsStay(cfg, trace, observe);
    if |trace| == n + 1 {
      forall j | 0 <= j < n ensures ReconciledOnce(trace, j) {
        OnceEach(cfg, trace, observe, j);
      }
    }
  }

  lemma RecordsStay(cfg: Config, trace: seq<World>, observe: Observer)
    requires Visits(cfg, trace, observe)
    ensures |trace[|trace| - 1].ledger.tasks| == |trace[0].ledger.tasks|
  {
    SameLength(cfg, trace, observe, |trace| - 1);
  }

  lemma {:induction false} SameLength(cfg: Config, trace: seq<World>, observe: Observer, b: nat)
    requires Visits(cfg, trace, observe) && b < |trace|
    ensures |trace[b].ledger.tasks| == |trace[0].ledger.tasks|
  {
    if b > 0 {
      SameLength(cfg, trace, observe, b - 1);
      assert VisitedAt(cfg, trace, b - 1, observe);
    }
  }

  lemma OnceEach(cfg: Config, trace: seq<World>, observe: Observer, j: nat)
    requires Visits(cfg, trace, observe) && j + 1 < |trace| && j < |trace[0].ledger.tasks|
    ensures ReconciledOnce(trace, j)
  {
    RecordWaits(cfg, trace, observe, 0, j, j);
    assert VisitedAt(cfg, trace, j, observe);
    RecordWaits(cfg, trace, observe, j + 1, |trace| - 1, j);
  }

  // ---- Branches --------------------------------------------------------

  /** Reconciling makes and deletes no branch. */
  lemma ReconciledBranches(cfg: Config, w: World, t: World, i: nat, o: Observation)
    requires Reconciled(cfg, w, t, i, o)
    ensures t.repo.refs.Keys == w.repo.refs.Keys
  {
    if t.repo != w.repo {
      var p := cfg.packages[w.ledger.tasks[i].packageId];
      SavedKeepsBranches(cfg, w, t, p, o.checkpoint);
      if p.tree in w.trees {
        SavedKeepsBranches(cfg, AfterSuite(w, p, o), t, p, o.checkpoint);
      }
    }
  }

  lemma SavedKeepsBranches(cfg: Config, w: World, t: World, p: Package, c: CheckpointAnswer)
    ensures Saved(cfg, w, t, p, c) ==> t.repo.refs.Keys == w.repo.refs.Keys
  {
  }

  lemma {:induction false} TraceBranches(cfg: Config, trace: seq<World>, observe: Observer, b: nat)
    requires Visits(cfg, trace, observe) && b < |trace|
    ensures trace[b].repo.refs.Keys == trace[0].repo.refs.Keys
  {
    if b > 0 {
      TraceBranches(cfg, trace, observe, b - 1);
      assert VisitedAt(cfg, trace, b - 1, observe);
      ReconciledBranches(cfg, trace[b - 1], trace[b], b - 1, observe(b - 1));
    }
  }
}
