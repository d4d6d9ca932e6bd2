/** What integration promises: a failed attempt leaves no trace, the integration
    branch only ever moves to validated merge commits, and a merged branch stays
    merged (integration/manager.py, scheduler/classifier.py). */
module History {
  import opened Git
  import opened Integration
  import opened Runner
  import opened Wrappers

  // ---- One call --------------------------------------------------------

  /** Refs, HEAD, tracked files and the names of untracked entries are as before;
      only unreachable commits and the command log may have grown. */
  ghost predicate Restored(s: RepoState, t: RepoState) {
    && t == s.(commits := t.commits, log := t.log, untracked := t.untracked)
    && t.untracked.Keys == s.untracked.Keys
    && s.commits <= t.commits && s.log <= t.log
  }

  /** Raised at or before post-merge validation, once the entry checks passed. */
  ghost predicate RaisedInside(o: Outcome) {
    o.Raised? && o.stage in {UnknownBranch, HeadMoved, AlreadyMerged, DryRunReturnFailed, MergeFailed,
                             ValidationFailed, SuiteCrashed, RollbackCrashed}
  }

  ghost predicate RaisedAtEntry(o: Outcome) {
    o.Raised? && o.stage in {LockBusy, DirtyEntry, NoIntegrationBranch, SwitchFailed}
  }

  /** The merge commit just made. */
  ghost function Made(s: RepoState, call: Call, a: Answers): (t: RepoState)
    requires Fits(s, call, a) && s.head == OnBranch(call.integration) && a.merge.MergeDone?
    requires call.branch in s.refs
    ensures ValidRepo(t)
  {
    var m := MergeCommit(a.merge.hash, s.refs[call.integration], s.refs[call.branch]);
    CommittedValid(s, m);
    Committed(s, m)
  }

  /** Cleaning up what the commands left gives the old entries back: they kept
      every entry that was there, and whatever they added goes. */
  ghost predicate LeavesEntries(before: map<string, Entry>, after: map<string, Entry>) {
    before.Keys <= after.Keys && forall x | x in after && x !in before :: after[x] == Goes
  }

  lemma CleanupRestoresIff(s: RepoState, before: map<string, Entry>, pick: Pick)
    requires PicksLongest(pick) && s.clean
    ensures var (t, raised) := CleanedUp(s, before.Keys, [], pick);
            && (t.clean && t.untracked.Keys == before.Keys <==> LeavesEntries(before, s.untracked))
            && (LeavesEntries(before, s.untracked) ==> !raised)
  {
    var todo := Removable(s.untracked, before.Keys, []);
    SweepLeaves(s.untracked, s.clean, todo, pick);
    var left := CleanedUp(s, before.Keys, [], pick).0.untracked;
    assert forall x :: x in todo <==> x in s.untracked && x !in before;
    if left.Keys == before.Keys {
      forall x | x in s.untracked && x !in before ensures s.untracked[x] == Goes {
        assert x !in left;
      }
    }
    if LeavesEntries(before, s.untracked) {
      assert forall x | x in left :: x in s.untracked && x !in todo;
      assert forall x | x in before :: x in s.untracked && x !in todo;
    }
  }

  /** The commands were all started and answered. */
  ghost predicate CommandsEnd(s: RepoState, commands: seq<Command>, env: Env)
    requires ValidRepo(s) && FitsSuite(commands, env)
  {
    env.starts && RunCommands(s, commands, env.effects).2 != Broken
  }

  /** What the commands left decides what the suite leaves, unless it crashed; and
      a suite that leaves nothing hard to delete does not crash in its clean-up. */
  lemma SuiteLeaves(s: RepoState, commands: seq<Command>, env: Env)
    requires ValidRepo(s) && s.clean && FitsSuite(commands, env)
    ensures var (u, suite) := ValidationSuite(s, commands, env);
            var left := RunCommands(s, commands, env.effects).0;
            && (suite != Err(SuiteCrash) ==>
                  && CommandsEnd(s, commands, env)
                  && (LeavesEntries(s.untracked, u.untracked) <==> LeavesEntries(s.untracked, left.untracked)))
            && (CommandsEnd(s, commands, env) && LeavesEntries(s.untracked, left.untracked) ==>
                  suite != Err(SuiteCrash))
  {
    var (left, results, halt) := RunCommands(s, commands, env.effects);
    var todo := Removable(left.untracked, s.untracked.Keys, AllOutputs(commands));
    SweepLeaves(left.untracked, left.clean, todo, env.pick);
    var u := CleanedUp(left, s.untracked.Keys, AllOutputs(commands), env.pick);
    if !u.1 {
      forall x ensures x in s.untracked ==> (x in u.0.untracked <==> x in left.untracked) {
      }
    }
  }

  /** A validation that did not pass, or crashed, is undone exactly if the suite came
      to an end, `reset --hard` worked and the commands left only what goes. */
  lemma ValidationRestoresIff(s: RepoState, call: Call, before: CommitId, actual: CommitId,
                              original: Option<string>, a: Answers)
    requires ValidRepo(s) && s.clean && s.head == OnBranch(call.integration) && FitsSuite(call.commands, a.env)
    requires (original.Some? ==> original.value in s.refs) && before != s.refs[call.integration]
    requires ValidateMerge(s, call, before, actual, original, a).1 in
               {Raised(ValidationFailed), Raised(SuiteCrashed), Raised(RollbackCrashed)}
    ensures var t := ValidateMerge(s, call, before, actual, original, a).0;
            var left := RunCommands(s, call.commands, a.env.effects).0;
            && t == s.(refs := t.refs, clean := t.clean, untracked := t.untracked, log := t.log) && s.log <= t.log
            && (t.refs == s.refs[call.integration := before] && t.clean && t.untracked.Keys == s.untracked.Keys <==>
                  CommandsEnd(s, call.commands, a.env) && a.resets && LeavesEntries(s.untracked, left.untracked))
  {
    var (u, suite) := ValidationSuite(s, call.commands, a.env);
    SuiteFrame(s, call.commands, a.env);
    SuiteLeaves(s, call.commands, a.env);
    assert s.refs[call.integration := before][call.integration] != s.refs[call.integration];
    if suite != Err(SuiteCrash) && a.resets {
      CleanupRestoresIff(u.(refs := u.refs[call.integration := before], clean := true), s.untracked, a.env.pick);
    }
  }

  /** A call that refuses at entry changes nothing at all. */
  lemma EntryRefusalChangesNothing(s: RepoState, call: Call, a: Answers)
    requires Fits(s, call, a) && RaisedAtEntry(Integrate(s, call, a).1)
    ensures Integrate(s, call, a).0 == s
  {
    var switched := SwitchedTo(s, call.integration);
    if call.integration in s.refs {
      TryRefuses(switched, call, ReturnBranch(s, call), a);
    }
  }

  lemma TryRefuses(s: RepoState, call: Call, original: Option<string>, a: Answers)
    requires Fits(s, call, a) && s.head == OnBranch(call.integration)
    requires original.Some? ==> original.value in s.refs
    ensures var o := TryIntegrate(s, call, original, a).1;
            && !RaisedAtEntry(o)
            && (o == Raised(UnknownBranch) <==> call.branch !in s.refs)
            && (o == Raised(HeadMoved) <==>
                  call.branch in s.refs && !(call.scheduledHead <= s.commits[s.refs[call.branch]].hash))
            && (o == Raised(AlreadyMerged) <==>
                  && call.branch in s.refs && call.scheduledHead <= s.commits[s.refs[call.branch]].hash
                  && IsAncestor(s, call.branch, call.integration))
  {
    if call.branch in s.refs && a.merge.MergeDone? {
      var m := Made(s, call, a);
      SuiteFrame(m, call.commands, a.env);
    }
  }

  /** The guards before the merge let this call through. */
  ghost predicate TriesMerge(s: RepoState, call: Call)
    requires ValidRepo(s) && call.integration in s.refs
  {
    && call.branch in s.refs && call.execute
    && call.scheduledHead <= s.commits[s.refs[call.branch]].hash
    && !IsAncestor(s, call.branch, call.integration)
  }

  /** What the rollback of one attempt depends on: nothing, unless the merge was
      tried; then on the ignored return codes of Git, on whether the suite came to an
      end, and on what the validation commands did to untracked files. */
  ghost predicate RollbackWorks(s: RepoState, call: Call, a: Answers)
    requires Fits(s, call, a) && s.head == OnBranch(call.integration) && call.branch in s.refs
  {
    match a.merge
    case MergeRefused => true
    case MergeConflict => a.aborts
    case MergeDone(_) =>
      && CommandsEnd(Made(s, call, a), call.commands, a.env) && a.resets
      && LeavesEntries(s.untracked, RunCommands(Made(s, call, a), call.commands, a.env.effects).0.untracked)
  }

  lemma TryRestoresIff(s: RepoState, call: Call, original: Option<string>, a: Answers)
    requires Fits(s, call, a) && s.clean && s.head == OnBranch(call.integration)
    requires original.Some? ==> original.value in s.refs
    requires RaisedInside(TryIntegrate(s, call, original, a).1)
    ensures var (t, o) := TryIntegrate(s, call, original, a);
            && t.head == s.head && s.commits <= t.commits && s.log <= t.log
            && (Restored(s, t) <==> (TriesMerge(s, call) ==> RollbackWorks(s, call, a)))
  {
    if TriesMerge(s, call) && a.merge.MergeDone? {
      var actual, before := s.refs[call.branch], s.refs[call.integration];
      var made := Made(s, call, a);
      assert TryIntegrate(s, call, original, a) == ValidateMerge(made, call, before, actual, original, a);
      assert made.refs[call.integration] != before;
      ValidationRestoresIff(made, call, before, actual, original, a);
      assert made.refs[call.integration := before] == s.refs;
    }
  }

  /** Transactional rollback, exactly: after an attempt that raises at or before
      post-merge validation, refs, HEAD, tracked and untracked files are what they
      were if and only if the suite came to an end, the rollback itself worked and
      the branch that was checked out at entry could be checked out again. HEAD was either on the
      integration branch already, or on a branch to which the handler returned;
      a detached HEAD is never restored. */
  lemma RollbackRestoresIff(s: RepoState, call: Call, a: Answers)
    requires Fits(s, call, a) && RaisedInside(Integrate(s, call, a).1)
    ensures var (t, o) := Integrate(s, call, a);
            var on := SwitchedTo(s, call.integration);
            && call.integration in s.refs
            && (Restored(s, t) <==>
                  && (TriesMerge(on, call) ==> RollbackWorks(on, call, a))
                  && (CurrentBranch(s) == Some(call.integration) || (CurrentBranch(s).Some? && a.handlerReturns)))
  {
    var original := ReturnBranch(s, call);
    var on := SwitchedTo(s, call.integration);
    TryRestoresIff(on, call, original, a);
    var (t, o) := TryIntegrate(on, call, original, a);
    assert Integrate(s, call, a) == (Handled(t, original, a), o);
    assert on.clean;
    if t.clean && original.Some? && a.handlerReturns {
      assert SwitchedTo(t, original.value).head == s.head;
    }
  }

  /** With an attached HEAD and a cooperating Git, every failed attempt is undone,
      provided the commands come to an end, keep the untracked files they find and add
      none that cannot be deleted. */
  lemma FailedAttemptLeavesNoTrace(s: RepoState, call: Call, a: Answers)
    requires Fits(s, call, a) && (RaisedInside(Integrate(s, call, a).1) || RaisedAtEntry(Integrate(s, call, a).1))
    requires CurrentBranch(s).Some? && a.aborts && a.resets && a.handlerReturns
    requires call.integration in s.refs && call.branch in s.refs && a.merge.MergeDone? ==>
               var made := Made(SwitchedTo(s, call.integration), call, a);
               && CommandsEnd(made, call.commands, a.env)
               && LeavesEntries(s.untracked, RunCommands(made, call.commands, a.env.effects).0.untracked)
    ensures Restored(s, Integrate(s, call, a).0)
  {
    if RaisedAtEntry(Integrate(s, call, a).1) {
      EntryRefusalChangesNothing(s, call, a);
    } else {
      RollbackRestoresIff(s, call, a);
    }
  }

  /** A detached HEAD at entry: the refused call leaves the repository on the
      integration branch. */
  lemma DetachedHeadIsNotRestored(pick: Pick)
    requires PicksLongest(pick)
    ensures var s := RepoState([Commit("c0", [], [])], map["main" := 0], Detached(0), true, map[], []);
            var call := Call("main", "P", "work", "", [], true);
            var a := Answers(true, true, MergeRefused, true, Env(true, [], pick), true, true, true,
                             MergeRefused, true, true);
            Fits(s, call, a) && Integrate(s, call, a) == (s.(head := OnBranch("main")), Raised(UnknownBranch))
  {
    assert "work"[0] != "main"[0];
  }

  // ---- How the integration head moves ----------------------------------

  /** From `s` to `t` the integration branch moved to a fresh merge commit of its
      old head and the candidate, on which every required command passed. */
  ghost predicate GreenMerge(s: RepoState, t: RepoState, call: Call) {
    && call.integration in s.refs && call.integration in t.refs && call.branch in s.refs
    && var tip := t.refs[call.integration];
       && |s.commits| == tip < |t.commits|
       && t.commits[tip].parents == [s.refs[call.integration], s.refs[call.branch]]
       && Green(t, tip, call.commands)
  }

  /** What every step preserves. */
  ghost predicate Grows(s: RepoState, t: RepoState) {
    ValidRepo(t) && s.commits <= t.commits && s.log <= t.log && s.refs.Keys == t.refs.Keys
  }

  lemma SyncFrame(s: RepoState, original: string, call: Call, a: Answers)
    requires ValidRepo(s) && original in s.refs && call.integration in s.refs && original != call.integration
    ensures ValidRepo(SwitchedTo(s, original))
    ensures var (t, ok) := SyncOriginal(s, original, call, a);
            && Grows(s, t) && t.log == s.log
            && (forall b | b in s.refs && b != original :: t.refs[b] == s.refs[b])
            && (ok ==> Reaches(t.commits, t.refs[original], s.refs[call.integration]))
            && (!ok ==> t.refs == s.refs && t.commits == s.commits)
  {
    var m := Commit("", [s.refs[original], s.refs[call.integration]], []);
    match a.sync
    case MergeDone(hash) =>
      CommittedValid(SwitchedTo(s, original), MergeCommit(hash, s.refs[original], s.refs[call.integration]));
      var t := SyncOriginal(s, original, call, a).0;
      if |t.commits| > |s.commits| {
        var tip := t.refs[original];
        assert s.refs[call.integration] in t.commits[tip].parents;
        assert Reaches(t.commits, s.refs[call.integration], s.refs[call.integration]);
      }
    case _ =>
  }

  /** The outcomes of a merge that passed validation, whatever came after it. */
  predicate Validated(o: Outcome) {
    o.Merged? || o == Raised(SyncFailed) || o == Raised(RecordFailed)
  }

  /** The outcomes of a validation that did not pass and was to be rolled back. */
  predicate RolledBackFrom(o: Outcome) {
    o == Raised(ValidationFailed) || o == Raised(RollbackCrashed)
  }

  lemma ValidateMergeMoves(s: RepoState, call: Call, before: CommitId, actual: CommitId,
                           original: Option<string>, a: Answers)
    requires ValidRepo(s) && s.clean && s.head == OnBranch(call.integration) && FitsSuite(call.commands, a.env)
    requires original.Some? ==> original.value in s.refs && original.value != call.integration
    requires before < |s.commits|
    ensures var (t, o) := ValidateMerge(s, call, before, actual, original, a);
            var (u, suite) := ValidationSuite(s, call.commands, a.env);
            && Grows(s, t) && t.log == u.log
            && (Validated(o) || RolledBackFrom(o) || o == Raised(SuiteCrashed))
            && (o == Raised(SuiteCrashed) <==> suite == Err(SuiteCrash))
            && (Validated(o) <==> suite.Ok? && suite.value.passed)
            && (RolledBackFrom(o) ==> t.refs == if a.resets then s.refs[call.integration := before] else s.refs)
            && (!RolledBackFrom(o) ==> t.refs[call.integration] == s.refs[call.integration])
            && (Validated(o) ==> Green(t, s.refs[call.integration], call.commands))
            && (forall b | b in s.refs && b != call.integration && Some(b) != original :: t.refs[b] == s.refs[b])
  {
    SuiteFrame(s, call.commands, a.env);
    SuitePassedMeansGreen(s, call.commands, a.env);
    var (u, suite) := ValidationSuite(s, call.commands, a.env);
    if suite.Ok? && suite.value.passed && original.Some? {
      SyncFrame(u, original.value, call, a);
    }
  }

  /** How one step `s` to `t` of an attempt with outcome `o` moves refs. */
  ghost predicate HeadMoves(s: RepoState, t: RepoState, call: Call, o: Outcome, resets: bool)
    requires call.integration in s.refs
  {
    && Grows(s, t)
    && (Validated(o) ==> GreenMerge(s, t, call))
    && (t.refs[call.integration] != s.refs[call.integration] <==>
          Validated(o) || o == Raised(SuiteCrashed) || (RolledBackFrom(o) && !resets))
    && (t.refs[call.integration] != s.refs[call.integration] ==>
          t.refs[call.integration] == |s.commits| < |t.commits| && call.branch in s.refs
          && t.commits[|s.commits|].parents == [s.refs[call.integration], s.refs[call.branch]])
  }

  lemma MadeHeadMoves(s: RepoState, call: Call, original: Option<string>, a: Answers)
    requires Fits(s, call, a) && s.clean && s.head == OnBranch(call.integration)
    requires original.Some? ==> original.value in s.refs && original.value != call.integration
    requires call.branch in s.refs && a.merge.MergeDone?
    ensures var (t, o) :=
              ValidateMerge(Made(s, call, a), call, s.refs[call.integration], s.refs[call.branch], original, a);
            && HeadMoves(s, t, call, o, a.resets)
            && (forall b | b in s.refs && b != call.integration && Some(b) != original :: t.refs[b] == s.refs[b])
  {
    var actual, before := s.refs[call.branch], s.refs[call.integration];
    var made := Made(s, call, a);
    ValidateMergeMoves(made, call, before, actual, original, a);
    assert made.refs[call.integration := before] == s.refs;
    assert made.commits[|s.commits|] == MergeCommit(a.merge.hash, before, actual);
  }

  lemma TryHeadMoves(s: RepoState, call: Call, original: Option<string>, a: Answers)
    requires Fits(s, call, a) && s.clean && s.head == OnBranch(call.integration)
    requires original.Some? ==> original.value in s.refs && original.value != call.integration
    ensures var (t, o) := TryIntegrate(s, call, original, a);
            && HeadMoves(s, t, call, o, a.resets)
            && (forall b | b in s.refs && b != call.integration && Some(b) != original :: t.refs[b] == s.refs[b])
  {
    if TriesMerge(s, call) && a.merge.MergeDone? {
      MadeHeadMoves(s, call, original, a);
      assert TryIntegrate(s, call, original, a)
             == ValidateMerge(Made(s, call, a), call, s.refs[call.integration], s.refs[call.branch], original, a);
    }
  }

  /** The integration head stays, moves to a green merge commit, or is left on a
      merge commit that did not pass: because the suite crashed, or because `reset
      --hard` failed unnoticed. Of the other branches only the one checked out at
      entry can move. */
  lemma IntegrationHeadMoves(s: RepoState, call: Call, a: Answers)
    requires Fits(s, call, a) && call.integration in s.refs
    ensures HeadMoves(s, Integrate(s, call, a).0, call, Integrate(s, call, a).1, a.resets)
    ensures forall b | b in s.refs && b != call.integration && OnBranch(b) != s.head ::
              b in Integrate(s, call, a).0.refs && Integrate(s, call, a).0.refs[b] == s.refs[b]
  {
    if s.clean {
      TryHeadMoves(SwitchedTo(s, call.integration), call, ReturnBranch(s, call), a);
    }
  }

  /** The call makes a merge commit: the entry checks and the guards let it. */
  ghost predicate MakesMerge(s: RepoState, call: Call, a: Answers)
    requires Fits(s, call, a)
  {
    && a.lockFree && s.clean && call.integration in s.refs
    && (CurrentBranch(s) == Some(call.integration) || a.switches)
    && TriesMerge(SwitchedTo(s, call.integration), call) && a.merge.MergeDone?
  }

  /** The validation of that commit is undone, or recorded every required command
      as passed. */
  ghost predicate UndoneOrGreen(s: RepoState, call: Call, a: Answers)
    requires Fits(s, call, a) && MakesMerge(s, call, a)
  {
    var made := Made(SwitchedTo(s, call.integration), call, a);
    var (u, suite) := ValidationSuite(made, call.commands, a.env);
    || (a.resets && suite != Err(SuiteCrash) && !(suite.Ok? && suite.value.passed))
    || Green(u, |s.commits|, call.commands)
  }

  /** What one call must meet for the integration head to stay, or to move to a green
      merge commit. */
  ghost predicate KeepsGreen(s: RepoState, call: Call, a: Answers)
    requires Fits(s, call, a)
  {
    MakesMerge(s, call, a) ==> UndoneOrGreen(s, call, a)
  }

  lemma KeepsGreenIff(s: RepoState, call: Call, a: Answers)
    requires Fits(s, call, a) && call.integration in s.refs
    ensures var t := Integrate(s, call, a).0;
            && call.integration in t.refs
            && (t.refs[call.integration] == s.refs[call.integration] || GreenMerge(s, t, call) <==>
                  KeepsGreen(s, call, a))
  {
    IntegrationHeadMoves(s, call, a);
    if MakesMerge(s, call, a) {
      MadeIsValidated(s, call, a);
    }
  }

  /** A call that makes a merge commit ends as the validation of that commit does, up
      to where HEAD is. */
  lemma MadeIsValidated(s: RepoState, call: Call, a: Answers)
    requires Fits(s, call, a) && MakesMerge(s, call, a)
    ensures var (t, o) := Integrate(s, call, a);
            var made := Made(SwitchedTo(s, call.integration), call, a);
            var r :=
              ValidateMerge(made, call, s.refs[call.integration], s.refs[call.branch], ReturnBranch(s, call), a);
            var (u, suite) := ValidationSuite(made, call.commands, a.env);
            && o == r.1 && t == r.0.(head := t.head) && (!o.Raised? ==> t == r.0) && t.log == u.log
            && (Validated(o) || RolledBackFrom(o) || o == Raised(SuiteCrashed))
            && (o == Raised(SuiteCrashed) <==> suite == Err(SuiteCrash))
            && (Validated(o) <==> suite.Ok? && suite.value.passed)
  {
    var on, original := SwitchedTo(s, call.integration), ReturnBranch(s, call);
    var made := Made(on, call, a);
    ValidateMergeMoves(made, call, s.refs[call.integration], s.refs[call.branch], original, a);
    assert TryIntegrate(on, call, original, a)
           == ValidateMerge(made, call, s.refs[call.integration], s.refs[call.branch], original, a);
  }

  /** A working `reset --hard` and a suite that does not crash are enough. */
  lemma SoundCallKeepsGreen(s: RepoState, call: Call, a: Answers)
    requires Fits(s, call, a) && call.integration in s.refs
    requires a.resets && Integrate(s, call, a).1 != Raised(SuiteCrashed)
    ensures KeepsGreen(s, call, a)
  {
    IntegrationHeadMoves(s, call, a);
    KeepsGreenIff(s, call, a);
  }

  // ---- What a call returns ---------------------------------------------

  /** The entry checks let the call through to the integration branch. */
  ghost predicate Enters(s: RepoState, call: Call, a: Answers) {
    && a.lockFree && s.clean && call.integration in s.refs
    && (s.head == OnBranch(call.integration) || a.switches)
  }

  /** The scheduled branch is there, has not moved and is not merged yet. */
  ghost predicate Fresh(s: RepoState, call: Call)
    requires ValidRepo(s) && call.integration in s.refs
  {
    && call.branch in s.refs && call.scheduledHead <= s.commits[s.refs[call.branch]].hash
    && !Reaches(s.commits, s.refs[call.integration], s.refs[call.branch])
  }

  /** The branch to return to: the one checked out at entry, unless that is the
      integration branch. */
  ghost predicate MustReturn(s: RepoState, call: Call) {
    s.head.OnBranch? && s.head.name != call.integration
  }

  /** Why a call is refused before it plans or merges: each refusal exactly for its
      reason, in this order. */
  lemma RefusedExactly(s: RepoState, call: Call, a: Answers)
    requires Fits(s, call, a)
    ensures var o := Integrate(s, call, a).1;
            && (o == Raised(LockBusy) <==> !a.lockFree)
            && (o == Raised(DirtyEntry) <==> a.lockFree && !s.clean)
            && (o == Raised(NoIntegrationBranch) <==> a.lockFree && s.clean && call.integration !in s.refs)
            && (o == Raised(SwitchFailed) <==>
                  a.lockFree && s.clean && call.integration in s.refs && !Enters(s, call, a))
            && (o == Raised(UnknownBranch) <==> Enters(s, call, a) && call.branch !in s.refs)
            && (o == Raised(HeadMoved) <==>
                  Enters(s, call, a) && call.branch in s.refs
                  && !(call.scheduledHead <= s.commits[s.refs[call.branch]].hash))
            && (o == Raised(AlreadyMerged) <==>
                  Enters(s, call, a) && call.branch in s.refs
                  && call.scheduledHead <= s.commits[s.refs[call.branch]].hash
                  && Reaches(s.commits, s.refs[call.integration], s.refs[call.branch]))
  {
    if Enters(s, call, a) {
      TryRefuses(SwitchedTo(s, call.integration), call, ReturnBranch(s, call), a);
    }
  }

  /** What the others do: they plan, fail to merge, or make the merge commit. */
  lemma ProceedsExactly(s: RepoState, call: Call, a: Answers)
    requires Fits(s, call, a)
    ensures var o := Integrate(s, call, a).1;
            && (o.Planned? <==>
                  Enters(s, call, a) && Fresh(s, call) && !call.execute && (MustReturn(s, call) ==> a.switchesBack))
            && (o == Raised(DryRunReturnFailed) <==>
                  Enters(s, call, a) && Fresh(s, call) && !call.execute && MustReturn(s, call) && !a.switchesBack)
            && (o == Raised(MergeFailed) <==>
                  Enters(s, call, a) && Fresh(s, call) && call.execute && !a.merge.MergeDone?)
            && (Validated(o) || RolledBackFrom(o) || o == Raised(SuiteCrashed) <==> MakesMerge(s, call, a))
            && (MakesMerge(s, call, a) <==>
                  Enters(s, call, a) && Fresh(s, call) && call.execute && a.merge.MergeDone?)
  {
    if MakesMerge(s, call, a) {
      MadeIsValidated(s, call, a);
    }
  }

  /** The branch `b` was checked out at entry and has been brought up to the new
      integration head: fast-forwarded if it was behind, else by a merge commit. */
  ghost predicate BroughtUp(s: RepoState, t: RepoState, b: string, after: CommitId, forwarded: bool) {
    && b in s.refs && b in t.refs && after < |t.commits|
    && if forwarded then t.refs[b] == after && |t.commits| == after + 1
       else t.refs[b] == after + 1 && |t.commits| == after + 2 && t.commits[after + 1].parents == [s.refs[b], after]
  }

  /** What a returned merge has done to the repository. */
  ghost predicate MergedAs(s: RepoState, t: RepoState, call: Call, a: Answers, o: Outcome)
    requires ValidRepo(s) && call.integration in s.refs && call.branch in s.refs
  {
    var past, mine := s.refs[call.integration], s.refs[call.branch];
    && o.Merged? && o.after == |s.commits| < |t.commits| && t.refs.Keys == s.refs.Keys
    && s.commits <= t.commits && t.commits[o.after].parents == [past, mine]
    && t.refs[call.integration] == o.after
    && t.clean && t.log == s.log + o.results
    && (forall b | b in s.refs && b != call.integration && s.head != OnBranch(b) :: t.refs[b] == s.refs[b])
    && if MustReturn(s, call) then
         && s.head.name in s.refs && s.head.name in t.refs && o.synced == Some(t.refs[s.head.name])
         && BroughtUp(s, t, s.head.name, o.after,
                      a.fastForwards && (Reaches(s.commits, past, s.refs[s.head.name])
                                         || Reaches(s.commits, mine, s.refs[s.head.name])))
       else o.synced == None && |t.commits| == |s.commits| + 1
  }

  /** What a call that returns has done. HEAD is where it was, or on the integration
      branch if it was detached; the payload names the refs the call found; a plan
      changes nothing else; and a merge is the new integration head, to which the
      branch checked out at entry has been brought up. */
  lemma ReturnedCallMeans(s: RepoState, call: Call, a: Answers)
    requires Fits(s, call, a) && !Integrate(s, call, a).1.Raised?
    ensures var (t, o) := Integrate(s, call, a);
            && call.integration in s.refs && call.branch in s.refs
            && t.head == (if s.head.OnBranch? then s.head else OnBranch(call.integration))
            && o.before == s.refs[call.integration] && o.actual == s.refs[call.branch]
            && (o.Merged? <==> call.execute)
            && (o.Planned? ==> t == s.(head := t.head))
            && (o.Merged? ==> MergedAs(s, t, call, a, o))
  {
    var on, original := SwitchedTo(s, call.integration), ReturnBranch(s, call);
    if call.execute {
      var past, mine := s.refs[call.integration], s.refs[call.branch];
      var made := Made(on, call, a);
      MadeIsValidated(s, call, a);
      IntegrationHeadMoves(s, call, a);
      var u := ValidationSuite(made, call.commands, a.env).0;
      SuiteFrame(made, call.commands, a.env);
      RunCommandsFrame(made, call.commands, a.env.effects);
      SuitePassedMeansGreen(made, call.commands, a.env);
      if original.Some? {
        SyncedExactly(s, u, original.value, call, a);
      }
    }
  }

  lemma SyncedExactly(s: RepoState, u: RepoState, original: string, call: Call, a: Answers)
    requires Fits(s, call, a) && call.integration in s.refs && call.branch in s.refs && original in s.refs
    requires original != call.integration && a.merge.MergeDone?
    requires var made := Made(SwitchedTo(s, call.integration), call, a);
             ValidRepo(u) && u == made.(clean := u.clean, untracked := u.untracked, log := u.log)
    ensures ValidRepo(SwitchedTo(u, original))
    ensures var (t, ok) := SyncOriginal(u, original, call, a);
            var past, mine, home := s.refs[call.integration], s.refs[call.branch], s.refs[original];
            var behind := a.fastForwards && (Reaches(s.commits, past, home) || Reaches(s.commits, mine, home));
            && (ok <==> a.switchesBack && (behind || a.sync.MergeDone?))
            && (ok ==> t.head == OnBranch(original) && t == u.(head := t.head, commits := t.commits, refs := t.refs)
                       && BroughtUp(s, t, original, |s.commits|, behind))
  {
    var past, mine, home := s.refs[call.integration], s.refs[call.branch], s.refs[original];
    var tip := |s.commits|;
    assert u.refs[call.integration] == tip && u.refs[original] == home;
    if Reaches(u.commits, home, tip) {
      ReachesOlder(u.commits, home, tip);
      assert false;
    }
    assert Reaches(u.commits, tip, home) <==> Reaches(s.commits, past, home) || Reaches(s.commits, mine, home) by {
      assert u.commits[tip].parents == [past, mine] && home != tip;
      ReachesStable(s.commits, u.commits, past, home);
      ReachesStable(s.commits, u.commits, mine, home);
      assert past in u.commits[tip].parents && mine in u.commits[tip].parents;
    }
  }

  /** When the merge is kept, stated on the commands: the integration head moves to the
      merge, and the outcome is a validated one, exactly if the suite starts, all its
      commands exit, the required ones with code 0, the clean-up raises nothing and
      tracked files are clean afterwards. The call then returns unless the way back to
      the original branch or the evidence file fails. */
  lemma GoodCallMerges(s: RepoState, call: Call, a: Answers)
    requires Fits(s, call, a) && MakesMerge(s, call, a)
    ensures var (t, o) := Integrate(s, call, a);
            var made := Made(SwitchedTo(s, call.integration), call, a);
            var left := RunCommands(made, call.commands, a.env.effects).0;
            && (Validated(o) <==>
                  && a.env.starts && Reached(call.commands, a.env.effects, |call.commands|)
                  && left.clean && !SomeNew(s.untracked, left.untracked, call.commands, HitsTracked)
                  && !SomeNew(s.untracked, left.untracked, call.commands, Raises))
            && (Validated(o) ==> call.integration in t.refs && t.refs[call.integration] == |s.commits|)
            && (Validated(o) ==>
                  (o == Raised(SyncFailed) <==> MustReturn(s, call) && !WayBack(s, call, a))
                  && (o.Merged? <==> a.records && (MustReturn(s, call) ==> WayBack(s, call, a))))
  {
    var on, original := SwitchedTo(s, call.integration), ReturnBranch(s, call);
    var made := Made(on, call, a);
    MadeIsValidated(s, call, a);
    IntegrationHeadMoves(s, call, a);
    SuiteOutcomeExactly(made, call.commands, a.env);
    SuiteFrame(made, call.commands, a.env);
    if original.Some? {
      SyncedExactly(s, ValidationSuite(made, call.commands, a.env).0, original.value, call, a);
    }
  }

  /** The branch checked out at entry can be checked out again and brought up. */
  ghost predicate WayBack(s: RepoState, call: Call, a: Answers)
    requires ValidRepo(s) && MustReturn(s, call) && call.integration in s.refs && call.branch in s.refs
  {
    var home := s.refs[s.head.name];
    && a.switchesBack
    && (a.sync.MergeDone?
        || (a.fastForwards && (Reaches(s.commits, s.refs[call.integration], home)
                               || Reaches(s.commits, s.refs[call.branch], home))))
  }

  /** A kept merge whose way back failed: the integration branch stays on the merge, no
      other branch moves, and HEAD is on the original branch unless both switches
      failed; a conflict leaves tracked files changed. A merge whose evidence file could
      not be written leaves the repository as if it had been. */
  lemma KeptMergeFailsLater(s: RepoState, call: Call, a: Answers)
    requires Fits(s, call, a) && Integrate(s, call, a).1 in {Raised(SyncFailed), Raised(RecordFailed)}
    ensures var (t, o) := Integrate(s, call, a);
            && call.integration in s.refs
            && (o == Raised(SyncFailed) ==>
                  && MustReturn(s, call) && t.refs == s.refs[call.integration := |s.commits|]
                  && (t.head == s.head <==> a.switchesBack || a.handlerReturns)
                  && (t.clean <==> !a.switchesBack || a.sync == MergeRefused))
            && (o == Raised(RecordFailed) ==>
                  Integrate(s, call, a.(records := true)).1.Merged? && Integrate(s, call, a.(records := true)).0 == t)
  {
    ProceedsExactly(s, call, a);
    MadeIsValidated(s, call, a);
    GoodCallMerges(s, call, a);
    var on, original := SwitchedTo(s, call.integration), ReturnBranch(s, call);
    var made, b := Made(on, call, a), a.(records := true);
    var u := ValidationSuite(made, call.commands, a.env).0;
    SuiteFrame(made, call.commands, a.env);
    SuitePassedMeansGreen(made, call.commands, a.env);
    assert TryIntegrate(on, call, original, a)
           == ValidateMerge(made, call, s.refs[call.integration], s.refs[call.branch], original, a);
    if original.Some? {
      SyncedExactly(s, u, original.value, call, a);
    }
    if Integrate(s, call, a).1 == Raised(RecordFailed) {
      UnrecordedIsMade(s, call, a);
    }
  }

  /** Where HEAD is after a call that raised inside: back on the branch it was on exactly
      if that is another one than the integration branch, tracked files are clean and
      the last switch works; else on the integration branch. */
  lemma HeadAfterFailure(s: RepoState, call: Call, a: Answers)
    requires Fits(s, call, a) && RaisedInside(Integrate(s, call, a).1)
    ensures var t := Integrate(s, call, a).0;
            t.head == if MustReturn(s, call) && t.clean && a.handlerReturns then s.head else OnBranch(call.integration)
  {
    TryRestoresIff(SwitchedTo(s, call.integration), call, ReturnBranch(s, call), a);
  }

  lemma UnrecordedIsMade(s: RepoState, call: Call, a: Answers)
    requires Fits(s, call, a) && MakesMerge(s, call, a) && Integrate(s, call, a).1 == Raised(RecordFailed)
    ensures var b := a.(records := true);
            Integrate(s, call, b).1.Merged? && Integrate(s, call, b).0 == Integrate(s, call, a).0
  {
    var on, original := SwitchedTo(s, call.integration), ReturnBranch(s, call);
    var made, b := Made(on, call, a), a.(records := true);
    assert made == Made(on, call, b);
    assert TryIntegrate(on, call, original, a)
           == ValidateMerge(made, call, s.refs[call.integration], s.refs[call.branch], original, a);
    assert TryIntegrate(on, call, original, b)
           == ValidateMerge(made, call, s.refs[call.integration], s.refs[call.branch], original, b);
    SuiteFrame(made, call.commands, a.env);
    var u := ValidationSuite(made, call.commands, a.env).0;
    if original.Some? {
      SyncedExactly(s, u, original.value, call, a);
      assert SyncOriginal(u, original.value, call, a) == SyncOriginal(u, original.value, call, b);
    }
  }

  // ---- Failing inputs --------------------------------------------------

  const WORKED: RepoState :=
    RepoState([Commit("c0", [], []), Commit("c1", [], [])], map["main" := 0, "work" := 1],
              OnBranch("main"), true, map[], [])

  const TEST: Command := Command("test", true, [])

  const WORK: Call := Call("main", "P", "work", "c1", [TEST], true)

  /** A merge that works, and one required command with the given effect. */
  function OneCommand(effect: Effect, resets: bool, pick: Pick): Answers {
    Answers(true, true, MergeDone("c2"), true, Env(true, [effect], pick), resets, true, true, MergeRefused, true, true)
  }

  lemma OneCommandRuns(effect: Effect, resets: bool, pick: Pick)
    requires PicksLongest(pick)
    ensures var a := OneCommand(effect, resets, pick);
            && Fits(WORKED, WORK, a) && SwitchedTo(WORKED, "main") == WORKED
            && MakesMerge(WORKED, WORK, a)
            && Integrate(WORKED, WORK, a) == ValidateMerge(Made(WORKED, WORK, a), WORK, 0, 1, None, a)
            && Made(WORKED, WORK, a).refs["main"] == 2
            && RunCommands(Made(WORKED, WORK, a), [TEST], [effect]).0.log
               == if effect.ending.Exited? then [Run(TEST, 2, effect.ending == Exited(0))] else []
  {
    assert "work"[0] != "main"[0];
    assert !Reaches(WORKED.commits, 0, 1);
    var a := OneCommand(effect, resets, pick);
    var made := Made(WORKED, WORK, a);
    assert HeadCommit(made) == 2;
    assert [TEST][1..] == [] && [effect][1..] == [];
  }

  lemma NothingToSweep(s: RepoState, before: set<string>, outputs: seq<string>, pick: Pick)
    requires PicksLongest(pick) && s.untracked == map[]
    ensures CleanedUp(s, before, outputs, pick) == (s, false)
  {
    assert Removable(s.untracked, before, outputs) == {};
  }

  /** A reset that fails unnoticed leaves the integration branch on a commit whose
      required command failed. */
  lemma FailedResetLeavesRedHead(pick: Pick)
    requires PicksLongest(pick)
    ensures var a := OneCommand(Effect(Exited(1), true, map[]), false, pick);
            && Fits(WORKED, WORK, a) && Integrate(WORKED, WORK, a).1 == Raised(ValidationFailed)
            && Integrate(WORKED, WORK, a).0.refs["main"] == 2
            && Integrate(WORKED, WORK, a).0.log == [Run(TEST, 2, false)]
  {
    var effect := Effect(Exited(1), true, map[]);
    OneCommandRuns(effect, false, pick);
    var made := Made(WORKED, WORK, OneCommand(effect, false, pick));
    var left := RunCommands(made, [TEST], [effect]).0;
    NothingToSweep(left, {}, AllOutputs([TEST]), pick);
    NothingToSweep(left, {}, [], pick);
    assert WORKED.untracked.Keys == {};
    assert [Run(TEST, 2, false)][0] in [Run(TEST, 2, false)];
  }

  /** A required command prints a byte that is not UTF-8: the suite raises something
      else than a `ValidationError`, nothing is rolled back, and the integration
      branch stays on a commit for which no result was recorded. */
  lemma UndecodableOutputLeavesMerge(pick: Pick)
    requires PicksLongest(pick)
    ensures var a := OneCommand(Effect(Crashed, true, map[]), true, pick);
            && Fits(WORKED, WORK, a) && Integrate(WORKED, WORK, a).1 == Raised(SuiteCrashed)
            && Integrate(WORKED, WORK, a).0.refs["main"] == 2 && Integrate(WORKED, WORK, a).0.log == []
            && !Green(Integrate(WORKED, WORK, a).0, 2, WORK.commands)
  {
    OneCommandRuns(Effect(Crashed, true, map[]), true, pick);
    assert TEST in [TEST];
  }

  /** Sweeping a single new entry. */
  lemma OneEntry(s: RepoState, x: string, e: Entry, pick: Pick)
    requires PicksLongest(pick) && s.untracked == map[x := e]
    ensures CleanedUp(s, {}, [], pick) ==
              match e
              case Goes => (s.(untracked := map[]), false)
              case Stays => (s, false)
              case HitsTracked => (s.(clean := false), false)
              case Raises => (s, true)
  {
    var now := s.untracked;
    assert Removable(now, {}, []) == {x} && pick({x}) == x && {x} - {x} == {};
    assert now - {x} == map[];
    assert Sweep(now - {x}, s.clean, {}, pick) == Swept(now - {x}, s.clean, [], false);
    assert Sweep(now, s.clean, {}, pick) == Swept(now, s.clean, [], false);
    assert Sweep(now, false, {}, pick) == Swept(now, false, [], false);
  }

  /** The failing test leaves one new entry. */
  lemma FailingTestLeaves(x: string, e: Entry, pick: Pick)
    requires PicksLongest(pick)
    ensures var effect := Effect(Exited(1), true, map[x := e]);
            var a := OneCommand(effect, true, pick);
            var made := Made(WORKED, WORK, a);
            var left := made.(untracked := map[x := e], log := [Run(TEST, 2, false)]);
            && ValidRepo(made)
            && ValidationSuite(made, [TEST], a.env)
               == (CleanedUp(left, {}, [], pick).0,
                   if e == Raises then Err(SuiteCrash) else Ok(Suite(false, [Run(TEST, 2, false)])))
  {
    var effect := Effect(Exited(1), true, map[x := e]);
    var a := OneCommand(effect, true, pick);
    OneCommandRuns(effect, true, pick);
    var made := Made(WORKED, WORK, a);
    var left := made.(untracked := map[x := e], log := [Run(TEST, 2, false)]);
    assert made.log + [Run(TEST, 2, false)] == [Run(TEST, 2, false)];
    assert RunCommands(made, [TEST], [effect]) == (left, [Run(TEST, 2, false)], Finished);
    OneEntry(left, x, e, pick);
    assert made.untracked.Keys == {};
    assert AllOutputs([TEST]) == [] by {
      assert [TEST][1..] == [] && TEST.outputs + [] == [];
    }
    assert made.clean && a.env.starts && a.env.effects == [effect] && a.env.pick == pick;
    assert CleanedUp(left, made.untracked.Keys, AllOutputs([TEST]), pick) == CleanedUp(left, {}, [], pick);
    var (u, raised) := CleanedUp(left, made.untracked.Keys, AllOutputs([TEST]), pick);
    var failed := [Run(TEST, 2, false)];
    if e == Raises {
      assert ValidationSuite(made, [TEST], a.env) == (u, Err(SuiteCrash));
    } else {
      assert failed[0] in failed && !NoRequiredFailure(failed);
      assert ValidationSuite(made, [TEST], a.env) == (u, Ok(Suite(false, failed)));
    }
  }

  /** The failing test leaves a file that cannot be deleted because its directory is
      read-only: the clean-up raises, nothing is rolled back, and the integration
      branch stays on the commit that failed. */
  lemma ReadOnlyFileLeavesMerge(pick: Pick)
    requires PicksLongest(pick)
    ensures var a := OneCommand(Effect(Exited(1), true, map["d/x" := Raises]), true, pick);
            && Fits(WORKED, WORK, a) && Integrate(WORKED, WORK, a).1 == Raised(SuiteCrashed)
            && Integrate(WORKED, WORK, a).0.refs["main"] == 2
            && Integrate(WORKED, WORK, a).0.log == [Run(TEST, 2, false)]
  {
    OneCommandRuns(Effect(Exited(1), true, map["d/x" := Raises]), true, pick);
    FailingTestLeaves("d/x", Raises, pick);
    OneEntry(Made(WORKED, WORK, OneCommand(Effect(Exited(1), true, map["d/x" := Raises]), true, pick))
               .(untracked := map["d/x" := Raises], log := [Run(TEST, 2, false)]), "d/x", Raises, pick);
  }

  /** The failing test leaves a file whose name Git prints quoted: refs and tracked
      files are rolled back, the file stays. */
  lemma QuotedNameStays(pick: Pick)
    requires PicksLongest(pick)
    ensures var a := OneCommand(Effect(Exited(1), true, map["q" := Stays]), true, pick);
            && Fits(WORKED, WORK, a) && Integrate(WORKED, WORK, a).1 == Raised(ValidationFailed)
            && Integrate(WORKED, WORK, a).0.refs == WORKED.refs && Integrate(WORKED, WORK, a).0.clean
            && Integrate(WORKED, WORK, a).0.untracked == map["q" := Stays]
            && !Restored(WORKED, Integrate(WORKED, WORK, a).0)
  {
    UndoneExceptEntry("q", Stays, pick);
    assert "q" in map["q" := Stays];
  }

  /** The failing test leaves "notes " beside a tracked file "notes": the listing
      loses the space and the tracked file is deleted after the reset. */
  lemma StrippedNameDirtiesTree(pick: Pick)
    requires PicksLongest(pick)
    ensures var a := OneCommand(Effect(Exited(1), true, map["notes" := HitsTracked]), true, pick);
            && Fits(WORKED, WORK, a) && Integrate(WORKED, WORK, a).1 == Raised(ValidationFailed)
            && Integrate(WORKED, WORK, a).0.refs == WORKED.refs && !Integrate(WORKED, WORK, a).0.clean
  {
    UndoneExceptEntry("notes", HitsTracked, pick);
  }

  lemma UndoneExceptEntry(x: string, e: Entry, pick: Pick)
    requires PicksLongest(pick) && (e == Stays || e == HitsTracked)
    ensures var a := OneCommand(Effect(Exited(1), true, map[x := e]), true, pick);
            var t := Integrate(WORKED, WORK, a).0;
            && Fits(WORKED, WORK, a) && Integrate(WORKED, WORK, a).1 == Raised(ValidationFailed)
            && t.refs == WORKED.refs && t.untracked == map[x := e] && (t.clean <==> e == Stays)
  {
    var a := OneCommand(Effect(Exited(1), true, map[x := e]), true, pick);
    OneCommandRuns(Effect(Exited(1), true, map[x := e]), true, pick);
    FailingTestLeaves(x, e, pick);
    var made := Made(WORKED, WORK, a);
    OneEntry(made.(untracked := map[x := e], log := [Run(TEST, 2, false)]), x, e, pick);
    var u := ValidationSuite(made, [TEST], a.env).0;
    assert WORKED.untracked.Keys == {};
    assert u.refs["main" := 0] == WORKED.refs;
    OneEntry(u.(refs := WORKED.refs, clean := true), x, e, pick);
  }

  // ---- Runs: integrations interleaved with everybody else --------------

  /** One step of the repository's life: an integration attempt, or anything else
      that leaves the integration branch where it is. */
  datatype Step = Attempted(call: Call, answers: Answers) | Others

  ghost predicate Next(integration: string, s: RepoState, step: Step, t: RepoState) {
    && ValidRepo(s) && ValidRepo(t) && integration in s.refs && integration in t.refs
    && match step
       case Attempted(call, a) => call.integration == integration && Fits(s, call, a) && t == Integrate(s, call, a).0
       case Others => s.commits <= t.commits && s.log <= t.log && t.refs[integration] == s.refs[integration]
  }

  ghost predicate IsRun(integration: string, states: seq<RepoState>, steps: seq<Step>) {
    && |states| == |steps| + 1
    && (forall s | s in states :: ValidRepo(s) && integration in s.refs)
    && forall i | 0 <= i < |steps| :: Next(integration, states[i], steps[i], states[i + 1])
  }

  /** Step `i` made a validated merge commit the integration head. */
  ghost predicate MadeGreenHead(integration: string, states: seq<RepoState>, steps: seq<Step>, i: nat, head: CommitId)
    requires IsRun(integration, states, steps)
  {
    && i < |steps| && steps[i].Attempted?
    && GreenMerge(states[i], states[i + 1], steps[i].call)
    && states[i + 1].refs[integration] == head
  }

  lemma NextMovesHead(integration: string, s: RepoState, step: Step, t: RepoState)
    requires Next(integration, s, step, t)
    ensures s.commits <= t.commits && s.log <= t.log
    ensures Reaches(t.commits, t.refs[integration], s.refs[integration])
    ensures t.refs[integration] != s.refs[integration] ==>
              step.Attempted? && (KeepsGreen(s, step.call, step.answers) ==> GreenMerge(s, t, step.call))
  {
    if step.Attempted? {
      IntegrationHeadMoves(s, step.call, step.answers);
      KeepsGreenIff(s, step.call, step.answers);
      var tip, past := t.refs[integration], s.refs[integration];
      if tip != past {
        assert past in t.commits[tip].parents;
        assert Reaches(t.commits, past, past);
      }
    }
  }

  /** Always green: whatever is attempted in whatever order and whatever happens on
      other branches meanwhile, every integration head seen between calls is the
      first one or a merge commit, made by one of the calls, on which all its
      required commands passed, as long as no call's suite crashes and no reset
      fails on a commit that is not green. */
  lemma {:induction false} AlwaysGreen(integration: string, states: seq<RepoState>, steps: seq<Step>, k: nat)
    requires IsRun(integration, states, steps) && k < |states|
    requires forall i | 0 <= i < |steps| && steps[i].Attempted? ::
               && Fits(states[i], steps[i].call, steps[i].answers)
               && KeepsGreen(states[i], steps[i].call, steps[i].answers)
    ensures var head := states[k].refs[integration];
            head == states[0].refs[integration] ||
            exists i | 0 <= i < k :: MadeGreenHead(integration, states, steps, i, head)
  {
    if k > 0 {
      AlwaysGreen(integration, states, steps, k - 1);
      var s, t := states[k - 1], states[k];
      NextMovesHead(integration, s, steps[k - 1], t);
      if t.refs[integration] != s.refs[integration] {
        assert MadeGreenHead(integration, states, steps, k - 1, t.refs[integration]);
      }
    }
  }

  /** The integration heads form one ancestor chain, and evidence once recorded on
      a commit is never lost. */
  lemma {:induction false} HeadsFormOneChain(integration: string, states: seq<RepoState>, steps: seq<Step>,
                                             i: nat, j: nat)
    requires IsRun(integration, states, steps) && i <= j < |states|
    ensures states[i].commits <= states[j].commits && states[i].log <= states[j].log
    ensures Reaches(states[j].commits, states[j].refs[integration], states[i].refs[integration])
    decreases j - i
  {
    if i < j {
      HeadsFormOneChain(integration, states, steps, i, j - 1);
      var s, t := states[j - 1], states[j];
      NextMovesHead(integration, s, steps[j - 1], t);
      ReachesStable(s.commits, t.commits, s.refs[integration], states[i].refs[integration]);
      ReachesTransitive(t.commits, t.refs[integration], s.refs[integration], states[i].refs[integration]);
    }
  }

  // ---- Merged, as the classifier sees it -------------------------------

  /** The `merged_ids` test of `classify_packages` for one branch. */
  predicate InMerged(s: RepoState, branch: string, integration: string)
    requires ValidRepo(s)
  {
    branch in s.refs && IsAncestor(s, branch, integration) && s.refs[branch] != s.refs[integration]
  }

  /** After the integration branch moved, the classifier calls the package merged
      exactly if its branch was not the one checked out when the call began: that
      one is brought up to the integration head, which no longer counts. */
  lemma MergedAgreesWithClassifier(s: RepoState, call: Call, a: Answers)
    requires Fits(s, call, a) && call.integration in s.refs && Integrate(s, call, a).1.Merged?
    ensures ValidRepo(Integrate(s, call, a).0)
    ensures InMerged(Integrate(s, call, a).0, call.branch, call.integration) <==> CurrentBranch(s) != Some(call.branch)
  {
    var (t, o) := Integrate(s, call, a);
    IntegrationHeadMoves(s, call, a);
    var tip := t.refs[call.integration];
    assert s.refs[call.branch] in t.commits[tip].parents;
    assert Reaches(t.commits, s.refs[call.branch], s.refs[call.branch]);
    assert call.branch != call.integration;
    if CurrentBranch(s) == Some(call.branch) {
      MergedBranchWasSynced(s, call, a);
      if t.refs[call.branch] != tip && Reaches(t.commits, tip, t.refs[call.branch]) {
        ReachesOlder(t.commits, tip, t.refs[call.branch]);
        ReachesOlder(t.commits, t.refs[call.branch], tip);
      }
    }
  }

  /** A call made while the package's own branch is checked out: integrated, but
      not merged for the classifier, since its branch was synced to the new head. */
  lemma OwnBranchIsNotMerged(pick: Pick)
    requires PicksLongest(pick)
    ensures var s := RepoState([Commit("c0", [], []), Commit("c1", [0], [])], map["main" := 0, "work" := 1],
                               OnBranch("work"), true, map[], []);
            var call := Call("main", "P", "work", "c1", [], true);
            var a := Answers(true, true, MergeDone("c2"), true, Env(true, [], pick), true, true, true,
                             MergeRefused, true, true);
            && Fits(s, call, a) && Integrate(s, call, a).1.Merged? && ValidRepo(Integrate(s, call, a).0)
            && Integrate(s, call, a).0.refs["work"] == Integrate(s, call, a).0.refs["main"] == 2
            && !InMerged(Integrate(s, call, a).0, "work", "main")
  {
    var s := RepoState([Commit("c0", [], []), Commit("c1", [0], [])], map["main" := 0, "work" := 1],
                       OnBranch("work"), true, map[], []);
    var call := Call("main", "P", "work", "c1", [], true);
    var a := Answers(true, true, MergeDone("c2"), true, Env(true, [], pick), true, true, true,
                     MergeRefused, true, true);
    assert "work"[0] != "main"[0];
    var on := SwitchedTo(s, "main");
    assert !Reaches(s.commits, 0, 1);
    var m := Committed(on, MergeCommit("c2", 0, 1));
    CommittedValid(on, MergeCommit("c2", 0, 1));
    assert RunCommands(m, [], []) == (m, [], Finished);
    NothingToSweep(m, m.untracked.Keys, [], pick);
    assert 1 in m.commits[2].parents && Reaches(m.commits, 1, 1);
    assert !Reaches(m.commits, 1, 2) by {
      if Reaches(m.commits, 1, 2) {
        ReachesOlder(m.commits, 1, 2);
      }
    }
  }

  lemma MergedBranchWasSynced(s: RepoState, call: Call, a: Answers)
    requires Fits(s, call, a) && call.integration in s.refs && Integrate(s, call, a).1.Merged?
    requires ReturnBranch(s, call).Some?
    ensures var t := Integrate(s, call, a).0;
            && ValidRepo(t) && ReturnBranch(s, call).value in t.refs && call.integration in t.refs
            && Reaches(t.commits, t.refs[ReturnBranch(s, call).value], t.refs[call.integration])
  {
    var original := ReturnBranch(s, call).value;
    var on := SwitchedTo(s, call.integration);
    var m := MergeCommit(a.merge.hash, s.refs[call.integration], s.refs[call.branch]);
    CommittedValid(on, m);
    var mid := Committed(on, m);
    SuiteFrame(mid, call.commands, a.env);
    SyncFrame(ValidationSuite(mid, call.commands, a.env).0, original, call, a);
  }

  /** Whoever integrates afterwards, successfully or not, a merged branch that does
      not move stays merged for the classifier. */
  lemma {:induction false} MergedIsStable(integration: string, states: seq<RepoState>, steps: seq<Step>, branch: string,
                                          tip: CommitId, i: nat, j: nat)
    requires IsRun(integration, states, steps) && i <= j < |states|
    requires forall k | i <= k <= j :: branch in states[k].refs && states[k].refs[branch] == tip
    requires InMerged(states[i], branch, integration)
    ensures InMerged(states[j], branch, integration)
    decreases j - i
  {
    if i < j {
      MergedIsStable(integration, states, steps, branch, tip, i, j - 1);
      var s, t := states[j - 1], states[j];
      NextMovesHead(integration, s, steps[j - 1], t);
      ReachesStable(s.commits, t.commits, s.refs[integration], tip);
      ReachesTransitive(t.commits, t.refs[integration], s.refs[integration], tip);
      if steps[j - 1].Attempted? {
        IntegrationHeadMoves(s, steps[j - 1].call, steps[j - 1].answers);
      }
    }
  }

  /** A second attempt on a merged branch is refused, as already merged once it
      gets past the entry and head checks, and moves nothing. */
  lemma MergedIsRefused(s: RepoState, call: Call, a: Answers)
    requires Fits(s, call, a) && InMerged(s, call.branch, call.integration)
    ensures var (t, o) := Integrate(s, call, a);
            && o.Raised? && t.refs == s.refs && t.commits == s.commits
            && (o.stage in {LockBusy, DirtyEntry, SwitchFailed, HeadMoved, AlreadyMerged})
            && (a.lockFree && s.clean && a.switches && call.scheduledHead <= s.commits[s.refs[call.branch]].hash ==>
                  o.stage == AlreadyMerged)
  {
    assert IsAncestor(SwitchedTo(s, call.integration), call.branch, call.integration);
  }

  ghost function OutcomeAt(integration: string, states: seq<RepoState>, steps: seq<Step>, i: nat): Outcome
    requires IsRun(integration, states, steps) && i < |steps| && steps[i].Attempted?
  {
    assert Next(integration, states[i], steps[i], states[i + 1]);
    Integrate(states[i], steps[i].call, steps[i].answers).1
  }

  /** Together: a package integrated at step `i` is refused at every later attempt
      as long as its branch stays put and was not checked out at step `i`. */
  lemma IntegratedOnce(integration: string, states: seq<RepoState>, steps: seq<Step>, branch: string, tip: CommitId,
                       i: nat, j: nat)
    requires IsRun(integration, states, steps) && i < j < |steps| && steps[i].Attempted? && steps[j].Attempted?
    requires steps[i].call.branch == branch && steps[j].call.branch == branch
    requires OutcomeAt(integration, states, steps, i).Merged? && CurrentBranch(states[i]) != Some(branch)
    requires forall k | i < k <= j :: branch in states[k].refs && states[k].refs[branch] == tip
    ensures InMerged(states[j], branch, integration)
    ensures OutcomeAt(integration, states, steps, j).Raised?
    ensures states[j + 1].refs == states[j].refs
  {
    assert Next(integration, states[i], steps[i], states[i + 1]);
    assert Next(integration, states[j], steps[j], states[j + 1]);
    MergedAgreesWithClassifier(states[i], steps[i].call, steps[i].answers);
    MergedIsStable(integration, states, steps, branch, tip, i + 1, j);
    MergedIsRefused(states[j], steps[j].call, steps[j].answers);
  }
}
