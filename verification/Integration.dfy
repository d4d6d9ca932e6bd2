/** The integration transaction: merge one package branch, validate the merge
    commit, roll back on failure, then bring the original branch up to date
    (integration/manager.py). */
module Integration {
  import opened Git
  import opened Runner
  import opened Wrappers

  datatype Call = Call(
    integration: string,
    packageId: string,
    branch: string,
    scheduledHead: string,
    commands: seq<Command>,
    execute: bool)

  datatype MergeAnswer = MergeConflict | MergeRefused | MergeDone(hash: string)

  /** What Git and the validation commands answer during one call. The code
      ignores the return codes of `merge --abort`, `reset --hard` and the last
      `switch`, so they may fail too. `records` is whether the evidence file could be
      written. */
  datatype Answers = Answers(
    lockFree: bool,
    switches: bool,
    merge: MergeAnswer,
    aborts: bool,
    env: Env,
    resets: bool,
    switchesBack: bool,
    fastForwards: bool,
    sync: MergeAnswer,
    handlerReturns: bool,
    records: bool)

  datatype Stage =
    | LockBusy | DirtyEntry | NoIntegrationBranch | SwitchFailed
    | UnknownBranch | HeadMoved | AlreadyMerged | DryRunReturnFailed
    | MergeFailed | ValidationFailed | SyncFailed
    | SuiteCrashed | RollbackCrashed | RecordFailed

  /** A `GitError` or a `ValidationError`: what the controller catches. */
  predicate Caught(stage: Stage) {
    stage != SuiteCrashed && stage != RollbackCrashed && stage != RecordFailed
  }

  datatype Outcome =
    | Planned(before: CommitId, actual: CommitId)
    | Merged(before: CommitId, after: CommitId, actual: CommitId, results: seq<Run>, synced: Option<CommitId>)
    | Raised(stage: Stage)

  ghost predicate Fits(s: RepoState, call: Call, a: Answers) {
    ValidRepo(s) && FitsSuite(call.commands, a.env)
  }

  function SwitchedTo(s: RepoState, branch: string): RepoState {
    s.(head := OnBranch(branch))
  }

  /** The branch that must be checked out again at the end, if any. */
  function ReturnBranch(s: RepoState, call: Call): Option<string> {
    if CurrentBranch(s) == Some(call.integration) then None else CurrentBranch(s)
  }

  function MergeCommit(hash: string, first: CommitId, second: CommitId): Commit {
    Commit(hash, [first, second], [])
  }

  /** `reset --hard before` and the clean-up of everything new, which may raise. */
  function RolledBack(s: RepoState, call: Call, before: CommitId, untracked: set<string>, a: Answers): (RepoState, bool)
    requires PicksLongest(a.env.pick)
  {
    CleanedUp(if a.resets then s.(refs := s.refs[call.integration := before], clean := true) else s,
              untracked, [], a.env.pick)
  }

  /** Merge `integration` into the original branch: fast-forward if possible. */
  function SyncOriginal(s: RepoState, original: string, call: Call, a: Answers): (RepoState, bool)
    requires ValidRepo(s) && original in s.refs && call.integration in s.refs
    requires ValidRepo(SwitchedTo(s, original))
  {
    var t := SwitchedTo(s, original);
    var tip, mine := s.refs[call.integration], s.refs[original];
    if !a.switchesBack then (s, false)
    else if Reaches(s.commits, mine, tip) then (t, true)
    else if Reaches(s.commits, tip, mine) && a.fastForwards then (t.(refs := t.refs[original := tip]), true)
    else
      match a.sync
      case MergeDone(hash) => (Committed(t, MergeCommit(hash, mine, tip)), true)
      case MergeRefused => (t, false)
      case MergeConflict => (t.(clean := false), false)
  }

  /** Validate the merge commit just made, keep it or take it back. */
  function ValidateMerge(s: RepoState, call: Call, before: CommitId, actual: CommitId,
                         original: Option<string>, a: Answers): (RepoState, Outcome)
    requires ValidRepo(s) && s.head == OnBranch(call.integration) && FitsSuite(call.commands, a.env)
    requires original.Some? ==> original.value in s.refs
  {
    var after := s.refs[call.integration];
    var untracked := s.untracked.Keys;
    var (t, suite) := ValidationSuite(s, call.commands, a.env);
    SuiteFrame(s, call.commands, a.env);
    if suite == Err(SuiteCrash) then (t, Raised(SuiteCrashed))
    else if suite.Err? || !suite.value.passed then
      var (u, raised) := RolledBack(t, call, before, untracked, a);
      (u, Raised(if raised then RollbackCrashed else ValidationFailed))
    else if original.None? then
      (t, if a.records then Merged(before, after, actual, suite.value.results, None) else Raised(RecordFailed))
    else
      var (u, ok) := SyncOriginal(t, original.value, call, a);
      if !ok then (u, Raised(SyncFailed))
      else if !a.records then (u, Raised(RecordFailed))
      else (u, Merged(before, after, actual, suite.value.results, Some(u.refs[original.value])))
  }

  /** The body of the `try`, with the integration branch checked out. */
  function TryIntegrate(s: RepoState, call: Call, original: Option<string>, a: Answers): (RepoState, Outcome)
    requires Fits(s, call, a) && s.head == OnBranch(call.integration)
    requires original.Some? ==> original.value in s.refs
  {
    if call.branch !in s.refs then (s, Raised(UnknownBranch))
    else
      var actual, before := s.refs[call.branch], s.refs[call.integration];
      if !(call.scheduledHead <= s.commits[actual].hash) then (s, Raised(HeadMoved))
      else if IsAncestor(s, call.branch, call.integration) then (s, Raised(AlreadyMerged))
      else if !call.execute then
        if original.None? then (s, Planned(before, actual))
        else if a.switchesBack then (SwitchedTo(s, original.value), Planned(before, actual))
        else (s, Raised(DryRunReturnFailed))
      else
        match a.merge
        case MergeRefused => (s, Raised(MergeFailed))
        case MergeConflict => (s.(clean := a.aborts), Raised(MergeFailed))
        case MergeDone(hash) =>
          var m := MergeCommit(hash, before, actual);
          CommittedValid(s, m);
          ValidateMerge(Committed(s, m), call, before, actual, original, a)
  }

  /** The exception handler around it. */
  function Handled(s: RepoState, original: Option<string>, a: Answers): RepoState {
    if original.Some? && s.clean && a.handlerReturns then SwitchedTo(s, original.value) else s
  }

  /** `integrate_one` */
  function Integrate(s: RepoState, call: Call, a: Answers): (RepoState, Outcome)
    requires Fits(s, call, a)
  {
    if !a.lockFree then (s, Raised(LockBusy))
    else if !s.clean then (s, Raised(DirtyEntry))
    else if call.integration !in s.refs then (s, Raised(NoIntegrationBranch))
    else if CurrentBranch(s) != Some(call.integration) && !a.switches then (s, Raised(SwitchFailed))
    else
      var original := ReturnBranch(s, call);
      var (t, o) := TryIntegrate(SwitchedTo(s, call.integration), call, original, a);
      if o.Raised? then (Handled(t, original, a), o) else (t, o)
  }

  // ---- The method ------------------------------------------------------

  method RunMerge(repo: Repository, call: Call, before: CommitId, actual: CommitId,
                  original: Option<string>, hash: string, a: Answers) returns (o: Outcome)
    requires Fits(repo.State(), call, a) && repo.head == OnBranch(call.integration)
    requires before < |repo.commits| && actual < |repo.commits|
    requires original.Some? ==> original.value in repo.refs
    modifies repo
    ensures var m := MergeCommit(hash, before, actual);
            ValidRepo(Committed(old(repo.State()), m)) &&
            (repo.State(), o) == ValidateMerge(Committed(old(repo.State()), m), call, before, actual, original, a)
  {
    CommittedValid(repo.State(), MergeCommit(hash, before, actual));
    repo.CommitHere(MergeCommit(hash, before, actual));
    o := RunValidation(repo, call, before, actual, original, a);
  }

  /** From the merge commit on. The untracked entries are those before the merge. */
  method RunValidation(repo: Repository, call: Call, before: CommitId, actual: CommitId,
                       original: Option<string>, a: Answers) returns (o: Outcome)
    requires ValidRepo(repo.State()) && repo.head == OnBranch(call.integration) && FitsSuite(call.commands, a.env)
    requires original.Some? ==> original.value in repo.refs
    modifies repo
    ensures (repo.State(), o) == ValidateMerge(old(repo.State()), call, before, actual, original, a)
  {
    var untracked, after := repo.untracked.Keys, repo.refs[call.integration];
    SuiteFrame(repo.State(), call.commands, a.env);
    var suite := RunSuite(repo, call.commands, a.env);
    if suite == Err(SuiteCrash) {
      return Raised(SuiteCrashed);
    }
    if suite.Err? || !suite.value.passed {
      var raised := RollBack(repo, call, before, untracked, a);
      return Raised(if raised then RollbackCrashed else ValidationFailed);
    }
    if original.Some? {
      var synced := RunSync(repo, original.value, call, a);
      if !synced {
        return Raised(SyncFailed);
      }
    }
    if !a.records {
      return Raised(RecordFailed);
    }
    return Merged(before, after, actual, suite.value.results,
                  if original.Some? then Some(repo.refs[original.value]) else None);
  }

  method RollBack(repo: Repository, call: Call, before: CommitId, untracked: set<string>, a: Answers)
      returns (raised: bool)
    requires repo.head == OnBranch(call.integration) && PicksLongest(a.env.pick)
    modifies repo
    ensures (repo.State(), raised) == RolledBack(old(repo.State()), call, before, untracked, a)
  {
    repo.ResetHard(before, a.resets);
    var removed;
    removed, raised := CleanupNewUntracked(repo, untracked, [], a.env.pick);
  }

  method RunSync(repo: Repository, original: string, call: Call, a: Answers) returns (ok: bool)
    requires ValidRepo(repo.State()) && original in repo.refs && call.integration in repo.refs
    modifies repo
    ensures ValidRepo(SwitchedTo(old(repo.State()), original))
    ensures (repo.State(), ok) == SyncOriginal(old(repo.State()), original, call, a)
  {
    repo.Switch(original, a.switchesBack);
    if !a.switchesBack {
      return false;
    }
    var tip, mine := repo.refs[call.integration], repo.refs[original];
    if Reaches(repo.commits, mine, tip) {
      return true;
    }
    if Reaches(repo.commits, tip, mine) && a.fastForwards {
      repo.refs := repo.refs[original := tip];
      return true;
    }
    match a.sync
    case MergeDone(hash) =>
      repo.CommitHere(MergeCommit(hash, mine, tip));
      ok := true;
    case MergeRefused =>
      ok := false;
    case MergeConflict =>
      repo.clean := false;
      ok := false;
  }

  method RunTry(repo: Repository, call: Call, original: Option<string>, a: Answers) returns (o: Outcome)
    requires Fits(repo.State(), call, a) && repo.head == OnBranch(call.integration)
    requires original.Some? ==> original.value in repo.refs
    modifies repo
    ensures (repo.State(), o) == TryIntegrate(old(repo.State()), call, original, a)
  {
    if call.branch !in repo.refs {
      return Raised(UnknownBranch);
    }
    var actual := repo.refs[call.branch];
    if !(call.scheduledHead <= repo.commits[actual].hash) {
      return Raised(HeadMoved);
    }
    var merged := repo.BranchIsAncestor(call.branch, call.integration);
    if merged {
      return Raised(AlreadyMerged);
    }
    var before := repo.refs[call.integration];
    if !call.execute {
      if original.Some? {
        repo.Switch(original.value, a.switchesBack);
        if !a.switchesBack {
          return Raised(DryRunReturnFailed);
        }
      }
      return Planned(before, actual);
    }
    match a.merge
    case MergeRefused =>
      return Raised(MergeFailed);
    case MergeConflict =>
      repo.clean := a.aborts;
      return Raised(MergeFailed);
    case MergeDone(hash) =>
      o := RunMerge(repo, call, before, actual, original, hash, a);
  }

  method IntegrateOne(repo: Repository, call: Call, a: Answers) returns (o: Outcome)
    requires Fits(repo.State(), call, a)
    modifies repo
    ensures (repo.State(), o) == Integrate(old(repo.State()), call, a)
  {
    if !a.lockFree {
      return Raised(LockBusy);
    }
    var current := repo.Branch();
    if !repo.clean {
      return Raised(DirtyEntry);
    }
    if call.integration !in repo.refs {
      return Raised(NoIntegrationBranch);
    }
    var original: Option<string> := None;
    if current != Some(call.integration) {
      repo.Switch(call.integration, a.switches);
      if !a.switches {
        return Raised(SwitchFailed);
      }
      original := current;
    }
    o := RunTry(repo, call, original, a);
    if o.Raised? && original.Some? && repo.clean {
      repo.Switch(original.value, a.handlerReturns);
    }
  }
}
