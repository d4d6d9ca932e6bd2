/** The validation suite and the clean-up of what it leaves behind
    (validation/runner.py). */
module Runner {
  import opened Git
  import opened Paths
  import opened Text
  import opened Wrappers

  // ---- cleanup_new_untracked -------------------------------------------

  predicate Declared(item: string, outputs: seq<string>) {
    outputs == [] || exists o | o in outputs :: StringWithin(item, StripTrailing(Replace(o, '\\', '/'), '/'))
  }

  /** How `sorted` breaks ties among the longest names of a set. */
  type Pick = set<string> -> string

  ghost predicate PicksLongest(pick: Pick) {
    forall items: set<string> {:trigger pick(items)} | items != {} ::
      pick(items) in items && forall x | x in items :: |x| <= |pick(items)|
  }

  /** The new entries `cleanup_new_untracked` tries to delete. */
  function Removable(now: map<string, Entry>, before: set<string>, outputs: seq<string>): set<string> {
    set x | x in now && x !in before && Declared(x, outputs)
  }

  /** The entries left, whether tracked files are still clean, what was deleted in
      order, and whether a deletion raised. */
  datatype Swept = Swept(untracked: map<string, Entry>, clean: bool, removed: seq<string>, raised: bool)

  /** Deleting the entries of `todo`, longest name first, up to one that raises. */
  function Sweep(now: map<string, Entry>, clean: bool, todo: set<string>, pick: Pick): (w: Swept)
    requires PicksLongest(pick) && todo <= now.Keys
    decreases |todo|
  {
    if todo == {} then Swept(now, clean, [], false)
    else
      var item := pick(todo);
      match now[item]
      case Goes => var w := Sweep(now - {item}, clean, todo - {item}, pick); w.(removed := [item] + w.removed)
      case Stays => Sweep(now, clean, todo - {item}, pick)
      case HitsTracked => var w := Sweep(now, false, todo - {item}, pick); w.(removed := [item] + w.removed)
      case Raises => Swept(now, clean, [], true)
  }

  function SweepNew(s: RepoState, before: set<string>, outputs: seq<string>, pick: Pick): Swept
    requires PicksLongest(pick)
  {
    Sweep(s.untracked, s.clean, Removable(s.untracked, before, outputs), pick)
  }

  /** The repository after `cleanup_new_untracked`, and whether it raised. */
  function CleanedUp(s: RepoState, before: set<string>, outputs: seq<string>, pick: Pick): (RepoState, bool)
    requires PicksLongest(pick)
  {
    var w := SweepNew(s, before, outputs, pick);
    (s.(untracked := w.untracked, clean := w.clean), w.raised)
  }

  /** What a sweep leaves. Without a raising entry exactly the deletable entries of
      `todo` go, and tracked files stay clean unless one is hit; with one it raises,
      and that entry is still there. */
  lemma {:induction false} SweepLeaves(now: map<string, Entry>, clean: bool, todo: set<string>, pick: Pick)
    requires PicksLongest(pick) && todo <= now.Keys
    ensures var w := Sweep(now, clean, todo, pick);
            && w.untracked.Keys <= now.Keys && (forall x | x in w.untracked :: w.untracked[x] == now[x])
            && (forall x | x in now && (x !in todo || now[x] != Goes) :: x in w.untracked)
            && (w.raised <==> exists x :: x in todo && now[x] == Raises)
            && (!w.raised ==> forall x | x in todo && now[x] == Goes :: x !in w.untracked)
            && (!w.raised ==> (w.clean <==> clean && forall x | x in todo :: now[x] != HitsTracked))
    decreases |todo|
  {
    if todo != {} {
      var item := pick(todo);
      if now[item] == Goes {
        SweepLeaves(now - {item}, clean, todo - {item}, pick);
      } else if now[item] != Raises {
        SweepLeaves(now, clean && now[item] != HitsTracked, todo - {item}, pick);
      }
    }
  }

  /** Deleted are exactly the entries that can be, longest name first. */
  lemma {:induction false} SweepRemoves(now: map<string, Entry>, clean: bool, todo: set<string>, pick: Pick)
    requires PicksLongest(pick) && todo <= now.Keys
    ensures var w := Sweep(now, clean, todo, pick);
            && Distinct(w.removed) && LongestFirst(w.removed)
            && (forall x | x in w.removed :: x in todo && (now[x] == Goes || now[x] == HitsTracked))
            && (!w.raised ==> forall x | x in todo && (now[x] == Goes || now[x] == HitsTracked) :: x in w.removed)
    decreases |todo|
  {
    if todo != {} {
      var item := pick(todo);
      if now[item] == Goes {
        SweepRemoves(now - {item}, clean, todo - {item}, pick);
        PrependLonger(item, Sweep(now - {item}, clean, todo - {item}, pick).removed);
      } else if now[item] == HitsTracked {
        SweepRemoves(now, false, todo - {item}, pick);
        PrependLonger(item, Sweep(now, false, todo - {item}, pick).removed);
      } else if now[item] == Stays {
        SweepRemoves(now, clean, todo - {item}, pick);
      }
    }
  }

  ghost predicate LongestFirst(s: seq<string>) {
    forall i, j | 0 <= i < j < |s| :: |s[i]| >= |s[j]|
  }

  lemma PrependLonger(item: string, removed: seq<string>)
    requires Distinct(removed) && LongestFirst(removed) && item !in removed
    requires forall x | x in removed :: |x| <= |item|
    ensures Distinct([item] + removed) && LongestFirst([item] + removed)
    ensures forall x :: x in [item] + removed <==> x == item || x in removed
  {
  }

  /** What is left to sweep finishes what the loop has begun. */
  ghost predicate RestSweeps(w: Swept, now: map<string, Entry>, clean: bool, todo: set<string>,
                             removed: seq<string>, pick: Pick)
    requires PicksLongest(pick) && todo <= now.Keys
  {
    var rest := Sweep(now, clean, todo, pick);
    w == Swept(rest.untracked, rest.clean, removed + rest.removed, rest.raised)
  }

  lemma SweepStep(w: Swept, now: map<string, Entry>, clean: bool, todo: set<string>, removed: seq<string>, pick: Pick)
    requires PicksLongest(pick) && todo <= now.Keys && todo != {} && RestSweeps(w, now, clean, todo, removed, pick)
    ensures var item := pick(todo);
            match now[item]
            case Goes => RestSweeps(w, now - {item}, clean, todo - {item}, removed + [item], pick)
            case Stays => RestSweeps(w, now, clean, todo - {item}, removed, pick)
            case HitsTracked => RestSweeps(w, now, false, todo - {item}, removed + [item], pick)
            case Raises => w == Swept(now, clean, removed, true)
  {
    var item := pick(todo);
    match now[item]
    case Goes =>
      var rest := Sweep(now - {item}, clean, todo - {item}, pick);
      assert removed + ([item] + rest.removed) == removed + [item] + rest.removed;
    case HitsTracked =>
      var rest := Sweep(now, false, todo - {item}, pick);
      assert removed + ([item] + rest.removed) == removed + [item] + rest.removed;
    case Raises =>
      assert removed + [] == removed;
    case Stays =>
  }

  method CleanupNewUntracked(repo: Repository, before: set<string>, outputs: seq<string>, pick: Pick)
      returns (removed: seq<string>, raised: bool)
    requires PicksLongest(pick)
    modifies repo`untracked, repo`clean
    ensures (repo.State(), raised) == CleanedUp(old(repo.State()), before, outputs, pick)
    ensures removed == SweepNew(old(repo.State()), before, outputs, pick).removed
  {
    var removable := set x | x in repo.untracked && x !in before && Declared(x, outputs);
    ghost var w := SweepNew(repo.State(), before, outputs, pick);
    removed, raised := [], false;
    assert [] + w.removed == w.removed;
    while removable != {}
      invariant removable <= repo.untracked.Keys
      invariant RestSweeps(w, repo.untracked, repo.clean, removable, removed, pick)
      decreases |removable|
    {
      var item := pick(removable);
      SweepStep(w, repo.untracked, repo.clean, removable, removed, pick);
      var fate := repo.untracked[item];
      if fate == Raises {
        raised := true;
        return;
      }
      if fate == Goes {
        repo.untracked := repo.untracked - {item};
      } else if fate == HitsTracked {
        repo.clean := false;
      }
      if fate != Stays {
        removed := removed + [item];
      }
      removable := removable - {item};
    }
    assert removed + [] == removed;
  }

  // ---- run_validation_suite --------------------------------------------

  /** A `ValidationError`, or any other exception. */
  datatype SuiteError = DirtyBefore | BadWorkingDirectory | DirtyAfter | SuiteCrash

  /** What one run of the suite meets: whether its temporary directory can be made,
      what each command does, and how names are ordered for deletion. */
  datatype Env = Env(starts: bool, effects: seq<Effect>, pick: Pick)

  ghost predicate FitsSuite(commands: seq<Command>, env: Env) {
    |env.effects| == |commands| && PicksLongest(env.pick)
  }

  datatype Suite = Suite(passed: bool, results: seq<Run>)

  function AllOutputs(commands: seq<Command>): seq<string> {
    if commands == [] then [] else commands[0].outputs + AllOutputs(commands[1..])
  }

  /** A suite passes when no required command that ran failed. */
  predicate NoRequiredFailure(results: seq<Run>) {
    forall r | r in results :: r.command.required ==> r.passed
  }

  /** The result of a command that ended with an exit code. */
  function ResultOf(s: RepoState, c: Command, e: Effect): Run
    requires ValidRepo(s)
  {
    Run(c, HeadCommit(s), e.ending == Exited(0))
  }

  function Ran(s: RepoState, c: Command, e: Effect): RepoState
    requires ValidRepo(s)
  {
    s.(clean := e.clean, untracked := e.untracked, log := s.log + [ResultOf(s, c, e)])
  }

  /** How the command loop ended. */
  datatype Halt = Finished | NoDirectory | Broken

  /** The command loop: (state, results, how it ended). It stops after a required
      command fails. */
  function RunCommands(s: RepoState, commands: seq<Command>, effects: seq<Effect>): (RepoState, seq<Run>, Halt)
    requires ValidRepo(s) && |effects| == |commands|
    decreases |commands|
  {
    if commands == [] then (s, [], Finished)
    else
      var c, e := commands[0], effects[0];
      match e.ending
      case BadDirectory => (s, [], NoDirectory)
      case Crashed => (s.(clean := e.clean, untracked := e.untracked), [], Broken)
      case Exited(_) =>
        var result := ResultOf(s, c, e);
        if c.required && !result.passed then (Ran(s, c, e), [result], Finished)
        else
          var (t, rest, halt) := RunCommands(Ran(s, c, e), commands[1..], effects[1..]);
          (t, [result] + rest, halt)
  }

  function ValidationSuite(s: RepoState, commands: seq<Command>, env: Env): (RepoState, Result<Suite, SuiteError>)
    requires ValidRepo(s) && FitsSuite(commands, env)
  {
    if !s.clean then (s, Err(DirtyBefore))
    else if !env.starts then (s, Err(SuiteCrash))
    else
      var (t, results, halt) := RunCommands(s, commands, env.effects);
      match halt
      case NoDirectory => (t, Err(BadWorkingDirectory))
      case Broken => (t, Err(SuiteCrash))
      case Finished =>
        var (u, raised) := CleanedUp(t, s.untracked.Keys, AllOutputs(commands), env.pick);
        if raised then (u, Err(SuiteCrash))
        else if NoRequiredFailure(results) && !u.clean then (u, Err(DirtyAfter))
        else (u, Ok(Suite(NoRequiredFailure(results), results)))
  }

  /** Commands only touch the tracked-clean flag, the untracked entries and the log. */
  lemma {:induction false} RunCommandsFrame(s: RepoState, commands: seq<Command>, effects: seq<Effect>)
    requires ValidRepo(s) && |effects| == |commands|
    ensures var (t, results, halt) := RunCommands(s, commands, effects);
            t == s.(clean := t.clean, untracked := t.untracked, log := s.log + results)
    decreases |commands|
  {
    if commands == [] || !effects[0].ending.Exited? {
      assert s.log + [] == s.log;
    } else {
      var c, e := commands[0], effects[0];
      var r := ResultOf(s, c, e);
      if !(c.required && !r.passed) {
        RunCommandsFrame(Ran(s, c, e), commands[1..], effects[1..]);
        var rest := RunCommands(Ran(s, c, e), commands[1..], effects[1..]).1;
        assert s.log + [r] + rest == s.log + ([r] + rest);
      }
    }
  }

  /** The results are those of the first commands, all run on the same commit. */
  ghost predicate ResultsOf(results: seq<Run>, commands: seq<Command>, at: CommitId) {
    |results| <= |commands| &&
    forall i | 0 <= i < |results| :: results[i].command == commands[i] && results[i].at == at
  }

  lemma {:induction false} RunCommandsResults(s: RepoState, commands: seq<Command>, effects: seq<Effect>)
    requires ValidRepo(s) && |effects| == |commands|
    ensures ResultsOf(RunCommands(s, commands, effects).1, commands, HeadCommit(s))
    decreases |commands|
  {
    if commands != [] && effects[0].ending.Exited? {
      var c, e := commands[0], effects[0];
      var r := ResultOf(s, c, e);
      if !(c.required && !r.passed) {
        RunCommandsResults(Ran(s, c, e), commands[1..], effects[1..]);
        var rest := RunCommands(Ran(s, c, e), commands[1..], effects[1..]).1;
        assert HeadCommit(Ran(s, c, e)) == HeadCommit(s);
        ResultsCons(r, rest, commands);
      }
    }
  }

  lemma ResultsCons(r: Run, rest: seq<Run>, commands: seq<Command>)
    requires commands != [] && r.command == commands[0] && ResultsOf(rest, commands[1..], r.at)
    ensures ResultsOf([r] + rest, commands, r.at)
  {
    forall i | 0 < i < |[r] + rest| ensures ([r] + rest)[i].command == commands[i] && ([r] + rest)[i].at == r.at {
      assert ([r] + rest)[i] == rest[i - 1] && commands[i] == commands[1..][i - 1];
    }
  }

  lemma {:induction false} NoFailureRunsAll(s: RepoState, commands: seq<Command>, effects: seq<Effect>)
    requires ValidRepo(s) && |effects| == |commands|
    ensures var (t, results, halt) := RunCommands(s, commands, effects);
            halt == Finished && NoRequiredFailure(results) ==> |results| == |commands|
    ensures var (t, results, halt) := RunCommands(s, commands, effects);
            halt == Finished && NoRequiredFailure(results) && commands != [] ==>
              t.clean == effects[|commands| - 1].clean
    decreases |commands|
  {
    if commands != [] && effects[0].ending.Exited? {
      var c, e := commands[0], effects[0];
      var r := ResultOf(s, c, e);
      if !(c.required && !r.passed) {
        NoFailureRunsAll(Ran(s, c, e), commands[1..], effects[1..]);
        var (t, rest, halt) := RunCommands(Ran(s, c, e), commands[1..], effects[1..]);
        assert forall x | x in rest :: x in [r] + rest;
        if commands[1..] != [] {
          assert effects[1..][|commands[1..]| - 1] == effects[|commands| - 1];
        }
      } else {
        assert [r][0] == r;
      }
    }
  }

  /** On commit `at`, every required command of the suite ran and passed. */
  ghost predicate Green(s: RepoState, at: CommitId, commands: seq<Command>) {
    forall c | c in commands && c.required :: Run(c, at, true) in s.log
  }

  /** A suite that reports success ran every command, every required one passed on
      the checked-out commit, and it left tracked files clean. */
  lemma SuitePassedMeansGreen(s: RepoState, commands: seq<Command>, env: Env)
    requires ValidRepo(s) && FitsSuite(commands, env)
    ensures var (t, r) := ValidationSuite(s, commands, env);
            r.Ok? && r.value.passed ==>
              && t.clean && |r.value.results| == |commands| && Green(t, HeadCommit(s), commands)
  {
    var (t, r) := ValidationSuite(s, commands, env);
    if r.Ok? && r.value.passed {
      RunCommandsFrame(s, commands, env.effects);
      RunCommandsResults(s, commands, env.effects);
      NoFailureRunsAll(s, commands, env.effects);
      var results := r.value.results;
      forall c | c in commands && c.required ensures Run(c, HeadCommit(s), true) in t.log {
        var i :| 0 <= i < |commands| && commands[i] == c;
        assert results[i] in results;
        assert t.log[|s.log| + i] == results[i];
      }
    }
  }

  // ---- What the suite answers, by what its commands do -----------------

  /** The loop gets as far as command `i`: all before it exited, the required ones
      with code 0. */
  ghost predicate Reached(commands: seq<Command>, effects: seq<Effect>, i: nat)
    requires |effects| == |commands| && i <= |commands|
  {
    forall j | 0 <= j < i :: effects[j].ending.Exited? && (commands[j].required ==> effects[j].ending == Exited(0))
  }

  lemma ReachedShifts(commands: seq<Command>, effects: seq<Effect>, i: nat)
    requires |effects| == |commands| && i < |commands|
    ensures Reached(commands, effects, i + 1) <==>
              && effects[0].ending.Exited? && (commands[0].required ==> effects[0].ending == Exited(0))
              && Reached(commands[1..], effects[1..], i)
  {
    forall j | 0 < j < i + 1 ensures effects[j] == effects[1..][j - 1] && commands[j] == commands[1..][j - 1] {
    }
    if Reached(commands, effects, i + 1) {
      forall j | 0 <= j < i
        ensures effects[1..][j].ending.Exited? && (commands[1..][j].required ==> effects[1..][j].ending == Exited(0))
      {
        assert effects[j + 1] == effects[1..][j] && commands[j + 1] == commands[1..][j];
      }
    }
  }

  /** Exactly the reached commands that exit have a result, which tells whether the
      code was 0; how the loop ends is how the last reached command ended. */
  ghost predicate ResultsExactly(s: RepoState, commands: seq<Command>, effects: seq<Effect>,
                                 results: seq<Run>, halt: Halt)
    requires ValidRepo(s) && |effects| == |commands|
  {
    && |results| <= |commands|
    && (forall i | 0 <= i < |commands| ::
          i < |results| <==> Reached(commands, effects, i) && effects[i].ending.Exited?)
    && (forall i | 0 <= i < |results| ::
          results[i] == Run(commands[i], HeadCommit(s), effects[i].ending == Exited(0)))
    && (halt == Broken <==>
          exists i :: 0 <= i < |commands| && Reached(commands, effects, i) && effects[i].ending == Crashed)
    && (halt == NoDirectory <==>
          exists i :: 0 <= i < |commands| && Reached(commands, effects, i) && effects[i].ending == BadDirectory)
  }

  lemma {:induction false} RunCommandsExactly(s: RepoState, commands: seq<Command>, effects: seq<Effect>)
    requires ValidRepo(s) && |effects| == |commands|
    ensures var (t, results, halt) := RunCommands(s, commands, effects);
            ResultsExactly(s, commands, effects, results, halt)
    decreases |commands|
  {
    if commands != [] {
      var c, e := commands[0], effects[0];
      forall i | 0 <= i < |commands| - 1
        ensures Reached(commands, effects, i + 1) <==>
                  && e.ending.Exited? && (c.required ==> e.ending == Exited(0))
                  && Reached(commands[1..], effects[1..], i)
      {
        ReachedShifts(commands, effects, i);
      }
      assert Reached(commands, effects, 0);
      if e.ending.Exited? && (c.required ==> e.ending == Exited(0)) {
        var u := Ran(s, c, e);
        assert HeadCommit(u) == HeadCommit(s);
        RunCommandsExactly(u, commands[1..], effects[1..]);
        var (t, rest, halt) := RunCommands(u, commands[1..], effects[1..]);
        ExactlyCons(s, u, commands, effects, rest, halt);
      } else {
        forall i | 0 < i < |commands| ensures !Reached(commands, effects, i) {
          ReachedShifts(commands, effects, i - 1);
        }
      }
    }
  }

  lemma ExactlyCons(s: RepoState, u: RepoState, commands: seq<Command>, effects: seq<Effect>,
                    rest: seq<Run>, halt: Halt)
    requires ValidRepo(s) && ValidRepo(u) && HeadCommit(u) == HeadCommit(s)
    requires |effects| == |commands| && commands != []
    requires effects[0].ending.Exited? && (commands[0].required ==> effects[0].ending == Exited(0))
    requires ResultsExactly(u, commands[1..], effects[1..], rest, halt)
    ensures ResultsExactly(s, commands, effects, [ResultOf(s, commands[0], effects[0])] + rest, halt)
  {
    var all := [ResultOf(s, commands[0], effects[0])] + rest;
    forall i | 0 < i < |commands|
      ensures Reached(commands, effects, i) <==> Reached(commands[1..], effects[1..], i - 1)
      ensures effects[i] == effects[1..][i - 1] && commands[i] == commands[1..][i - 1]
    {
      ReachedShifts(commands, effects, i - 1);
    }
    forall i | 0 < i < |all| ensures all[i] == rest[i - 1] {
    }
    if halt == Broken {
      var i :| 0 <= i < |commands[1..]| && Reached(commands[1..], effects[1..], i) && effects[1..][i].ending == Crashed;
      assert Reached(commands, effects, i + 1) && effects[i + 1].ending == Crashed;
    }
    if halt == NoDirectory {
      var i :| 0 <= i < |commands[1..]| && Reached(commands[1..], effects[1..], i)
               && effects[1..][i].ending == BadDirectory;
      assert Reached(commands, effects, i + 1) && effects[i + 1].ending == BadDirectory;
    }
    if i :| 0 <= i < |commands| && Reached(commands, effects, i) && !effects[i].ending.Exited? {
      assert i > 0 && Reached(commands[1..], effects[1..], i - 1) && !effects[1..][i - 1].ending.Exited?;
    }
  }

  /** Command `i` is the last one that got to run. */
  ghost predicate LastToRun(commands: seq<Command>, effects: seq<Effect>, i: nat)
    requires |effects| == |commands|
  {
    && i < |commands| && Reached(commands, effects, i) && effects[i].ending != BadDirectory
    && (i + 1 < |commands| && Reached(commands, effects, i + 1) ==> effects[i + 1].ending == BadDirectory)
  }

  /** The commands leave the working tree as the last one that ran left it. */
  lemma {:induction false} LastCommandDecides(s: RepoState, commands: seq<Command>, effects: seq<Effect>, i: nat)
    requires ValidRepo(s) && |effects| == |commands| && LastToRun(commands, effects, i)
    ensures var t := RunCommands(s, commands, effects).0;
            t.clean == effects[i].clean && t.untracked == effects[i].untracked
    decreases i
  {
    if i > 0 {
      ReachedShifts(commands, effects, i - 1);
      if i + 1 < |commands| {
        ReachedShifts(commands, effects, i);
      }
      assert effects[1..][i - 1] == effects[i];
      LastCommandDecides(Ran(s, commands[0], effects[0]), commands[1..], effects[1..], i - 1);
    } else if |commands| > 1 {
      ReachedShifts(commands, effects, 0);
      assert Reached(commands[1..], effects[1..], 0);
      assert effects[1..][0] == effects[1];
    }
  }

  // ---- What the clean-up may delete ------------------------------------

  /** `o` names the directory or file `root`, with `/` or `\` between the parts and
      any number of them at the end. */
  ghost predicate Spells(o: string, root: string) {
    && |root| <= |o| && (root == [] || root[|root| - 1] != '/')
    && (forall i | 0 <= i < |root| :: root[i] == if o[i] == '\\' then '/' else o[i])
    && forall i | |root| <= i < |o| :: o[i] == '/' || o[i] == '\\'
  }

  lemma {:induction false} StripTrailingCuts(s: string, root: string)
    requires root <= s && (root == [] || root[|root| - 1] != '/')
    requires forall i | |root| <= i < |s| :: s[i] == '/'
    ensures StripTrailing(s, '/') == root
  {
    if |s| == |root| {
      assert s == root;
    } else {
      StripTrailingCuts(s[..|s| - 1], root);
    }
  }

  /** An entry may be deleted if nothing is declared, or if its path components begin
      with those of a declared output. */
  lemma DeclaredMeans(item: string, commands: seq<Command>, roots: map<string, string>)
    requires forall c, o | c in commands && o in c.outputs :: o in roots && Spells(o, roots[o])
    ensures Declared(item, AllOutputs(commands)) <==>
              || (forall c | c in commands :: c.outputs == [])
              || exists c, o | c in commands && o in c.outputs :: Components(roots[o]) <= Components(item)
  {
    AllOutputsMembers(commands);
    var all := AllOutputs(commands);
    forall o | o in all
      ensures o in roots
      ensures StringWithin(item, StripTrailing(Replace(o, '\\', '/'), '/')) <==>
                Components(roots[o]) <= Components(item)
    {
      var root := roots[o];
      var r := Replace(o, '\\', '/');
      assert root == r[..|root|];
      StripTrailingCuts(r, root);
      StringWithinIsComponentPrefix(item, root);
    }
    if c, o :| c in commands && o in c.outputs && Components(roots[o]) <= Components(item) {
      assert o in all;
    }
    if o :| o in all && StringWithin(item, StripTrailing(Replace(o, '\\', '/'), '/')) {
      var c :| c in commands && o in c.outputs;
      assert Components(roots[o]) <= Components(item);
    }
  }

  lemma {:induction false} AllOutputsMembers(commands: seq<Command>)
    ensures forall o :: o in AllOutputs(commands) <==> exists c :: c in commands && o in c.outputs
    ensures AllOutputs(commands) == [] <==> forall c | c in commands :: c.outputs == []
  {
    if commands != [] {
      AllOutputsMembers(commands[1..]);
      assert commands == [commands[0]] + commands[1..];
      assert commands[0] in commands;
    }
  }

  // ---- The suite's answer ----------------------------------------------

  /** A command that gets to run ends in that way. */
  ghost predicate SomeEnds(commands: seq<Command>, effects: seq<Effect>, ending: Ending)
    requires |effects| == |commands|
  {
    exists i :: 0 <= i < |commands| && Reached(commands, effects, i) && effects[i].ending == ending
  }

  /** A required command gets to run and exits with another code than 0. */
  ghost predicate SomeRequiredFails(commands: seq<Command>, effects: seq<Effect>)
    requires |effects| == |commands|
  {
    exists i :: 0 <= i < |commands| && Reached(commands, effects, i)
                && commands[i].required && effects[i].ending.Exited? && effects[i].ending != Exited(0)
  }

  /** Among the new entries that may be deleted there is one of that kind. */
  ghost predicate SomeNew(before: map<string, Entry>, left: map<string, Entry>, commands: seq<Command>, kind: Entry) {
    exists x :: x in left && x !in before && Declared(x, AllOutputs(commands)) && left[x] == kind
  }

  /** The suite's answer, exactly, by what the commands do: it passes if it starts on
      clean files, every command exits, the required ones with code 0, and files are
      clean after the clean-up; an optional command that fails does not matter. Each
      error and the failing report have their conditions too. */
  lemma SuiteOutcomeExactly(s: RepoState, commands: seq<Command>, env: Env)
    requires ValidRepo(s) && FitsSuite(commands, env)
    ensures var r := ValidationSuite(s, commands, env).1;
            var left := RunCommands(s, commands, env.effects).0;
            var tidy := left.clean && !SomeNew(s.untracked, left.untracked, commands, HitsTracked);
            var stuck := SomeNew(s.untracked, left.untracked, commands, Raises);
            var begun := s.clean && env.starts;
            var done := begun && !SomeEnds(commands, env.effects, Crashed)
                        && !SomeEnds(commands, env.effects, BadDirectory) && !stuck;
            && (r.Ok? && r.value.passed <==> begun && Reached(commands, env.effects, |commands|) && !stuck && tidy)
            && (r == Err(DirtyAfter) <==> begun && Reached(commands, env.effects, |commands|) && !stuck && !tidy)
            && (r.Ok? && !r.value.passed <==> done && SomeRequiredFails(commands, env.effects))
            && (r == Err(DirtyBefore) <==> !s.clean)
            && (r == Err(BadWorkingDirectory) <==> begun && SomeEnds(commands, env.effects, BadDirectory))
            && (r.Ok? ==> ResultsExactly(s, commands, env.effects, r.value.results, Finished))
  {
    var (left, results, halt) := RunCommands(s, commands, env.effects);
    RunCommandsExactly(s, commands, env.effects);
    EndsOnce(commands, env.effects);
    RequiredFailureIff(s, commands, env.effects);
    var todo := Removable(left.untracked, s.untracked.Keys, AllOutputs(commands));
    SweepLeaves(left.untracked, left.clean, todo, env.pick);
  }

  /** At most one reached command ends otherwise than by exiting, and then no required
      one failed. */
  lemma EndsOnce(commands: seq<Command>, effects: seq<Effect>)
    requires |effects| == |commands|
    ensures SomeEnds(commands, effects, Crashed) || SomeEnds(commands, effects, BadDirectory)
            || SomeRequiredFails(commands, effects) || Reached(commands, effects, |commands|)
    ensures !(SomeEnds(commands, effects, Crashed) && SomeEnds(commands, effects, BadDirectory))
    ensures SomeRequiredFails(commands, effects) ==>
              !SomeEnds(commands, effects, Crashed) && !SomeEnds(commands, effects, BadDirectory)
    ensures Reached(commands, effects, |commands|) ==>
              && !SomeRequiredFails(commands, effects)
              && !SomeEnds(commands, effects, Crashed) && !SomeEnds(commands, effects, BadDirectory)
  {
    if !Reached(commands, effects, |commands|) {
      FirstObstacle(commands, effects, |commands|);
    }
  }

  lemma {:induction false} FirstObstacle(commands: seq<Command>, effects: seq<Effect>, n: nat)
    requires |effects| == |commands| && n <= |commands| && !Reached(commands, effects, n)
    ensures SomeEnds(commands, effects, Crashed) || SomeEnds(commands, effects, BadDirectory)
            || SomeRequiredFails(commands, effects)
  {
    if n > 0 && !Reached(commands, effects, n - 1) {
      FirstObstacle(commands, effects, n - 1);
    }
  }

  lemma RequiredFailureIff(s: RepoState, commands: seq<Command>, effects: seq<Effect>)
    requires ValidRepo(s) && |effects| == |commands|
    ensures var (t, results, halt) := RunCommands(s, commands, effects);
            !NoRequiredFailure(results) <==> SomeRequiredFails(commands, effects)
  {
    RunCommandsExactly(s, commands, effects);
    var results := RunCommands(s, commands, effects).1;
    if r :| r in results && r.command.required && !r.passed {
      var i :| 0 <= i < |results| && results[i] == r;
      assert Reached(commands, effects, i) && effects[i].ending.Exited?;
    }
    if i :| 0 <= i < |commands| && Reached(commands, effects, i)
            && commands[i].required && effects[i].ending.Exited? && effects[i].ending != Exited(0) {
      assert i < |results| && results[i] in results;
    }
  }

  /** When it reports at all, the suite has deleted exactly the new entries that may
      be and can be. */
  lemma SuiteSweeps(s: RepoState, commands: seq<Command>, env: Env)
    requires ValidRepo(s) && FitsSuite(commands, env) && ValidationSuite(s, commands, env).1.Ok?
    ensures var t := ValidationSuite(s, commands, env).0;
            var left := RunCommands(s, commands, env.effects).0.untracked;
            forall x :: (x in t.untracked <==>
                           x in left && (x in s.untracked || left[x] != Goes || !Declared(x, AllOutputs(commands))))
                        && (x in t.untracked ==> t.untracked[x] == left[x])
  {
    var left := RunCommands(s, commands, env.effects).0;
    var todo := Removable(left.untracked, s.untracked.Keys, AllOutputs(commands));
    SweepLeaves(left.untracked, left.clean, todo, env.pick);
  }

  /** Whatever it reports, the suite keeps history, refs and HEAD. */
  lemma SuiteFrame(s: RepoState, commands: seq<Command>, env: Env)
    requires ValidRepo(s) && FitsSuite(commands, env)
    ensures var (t, r) := ValidationSuite(s, commands, env);
            && t == s.(clean := t.clean, untracked := t.untracked, log := t.log)
            && s.log <= t.log && ValidRepo(t)
  {
    RunCommandsFrame(s, commands, env.effects);
  }

  /** Running the commands from `i` on finishes what the loop has begun. */
  ghost predicate RestAgrees(start: RepoState, commands: seq<Command>, effects: seq<Effect>,
                             now: RepoState, results: seq<Run>, i: nat)
    requires ValidRepo(start) && ValidRepo(now) && |effects| == |commands| && i <= |commands|
  {
    var (t, rest, halt) := RunCommands(now, commands[i..], effects[i..]);
    RunCommands(start, commands, effects) == (t, results + rest, halt)
  }

  lemma RestAdvances(start: RepoState, commands: seq<Command>, effects: seq<Effect>,
                     now: RepoState, results: seq<Run>, i: nat)
    requires ValidRepo(start) && ValidRepo(now) && |effects| == |commands| && i < |commands|
    requires RestAgrees(start, commands, effects, now, results, i)
    ensures var c, e := commands[i], effects[i];
            var result := ResultOf(now, c, e);
            if e.ending.BadDirectory? then RunCommands(start, commands, effects) == (now, results, NoDirectory)
            else if e.ending.Crashed? then
              RunCommands(start, commands, effects)
              == (now.(clean := e.clean, untracked := e.untracked), results, Broken)
            else if c.required && !result.passed then
              RunCommands(start, commands, effects) == (Ran(now, c, e), results + [result], Finished)
            else
              RestAgrees(start, commands, effects, Ran(now, c, e), results + [result], i + 1)
  {
    assert commands[i..][1..] == commands[i + 1..] && effects[i..][1..] == effects[i + 1..];
    var c, e := commands[i], effects[i];
    var result := ResultOf(now, c, e);
    assert commands[i..][0] == c && effects[i..][0] == e;
    if !e.ending.Exited? {
      assert results + [] == results;
    } else if !(c.required && !result.passed) {
      var (t, rest, halt) := RunCommands(Ran(now, c, e), commands[i + 1..], effects[i + 1..]);
      assert RunCommands(now, commands[i..], effects[i..]) == (t, [result] + rest, halt);
      assert results + ([result] + rest) == results + [result] + rest;
    }
  }

  method RunEach(repo: Repository, commands: seq<Command>, effects: seq<Effect>)
      returns (results: seq<Run>, halt: Halt)
    requires ValidRepo(repo.State()) && |effects| == |commands|
    modifies repo
    ensures (repo.State(), results, halt) == RunCommands(old(repo.State()), commands, effects)
  {
    ghost var start := repo.State();
    results, halt := [], Finished;
    assert commands[0..] == commands && effects[0..] == effects;
    assert [] + RunCommands(start, commands, effects).1 == RunCommands(start, commands, effects).1;
    for i := 0 to |commands|
      invariant ValidRepo(repo.State())
      invariant RestAgrees(start, commands, effects, repo.State(), results, i)
    {
      RestAdvances(start, commands, effects, repo.State(), results, i);
      if effects[i].ending.BadDirectory? {
        halt := NoDirectory;
        return;
      }
      var at := match repo.head case OnBranch(b) => repo.refs[b] case Detached(c) => c;
      repo.clean, repo.untracked := effects[i].clean, effects[i].untracked;
      if effects[i].ending.Crashed? {
        halt := Broken;
        return;
      }
      var result := Run(commands[i], at, effects[i].ending == Exited(0));
      repo.log := repo.log + [result];
      results := results + [result];
      if result.command.required && !result.passed {
        return;
      }
    }
    assert results + [] == results;
  }

  method RunSuite(repo: Repository, commands: seq<Command>, env: Env) returns (r: Result<Suite, SuiteError>)
    requires ValidRepo(repo.State()) && FitsSuite(commands, env)
    modifies repo
    ensures (repo.State(), r) == ValidationSuite(old(repo.State()), commands, env)
  {
    if !repo.clean {
      return Err(DirtyBefore);
    }
    var before := repo.untracked.Keys;
    if !env.starts {
      return Err(SuiteCrash);
    }
    var results, halt := RunEach(repo, commands, env.effects);
    if halt != Finished {
      return Err(if halt == NoDirectory then BadWorkingDirectory else SuiteCrash);
    }
    var removed, raised := CleanupNewUntracked(repo, before, AllOutputs(commands), env.pick);
    if raised {
      return Err(SuiteCrash);
    }
    var passed := NoRequiredFailure(results);
    if passed && !repo.clean {
      return Err(DirtyAfter);
    }
    return Ok(Suite(passed, results));
  }
}
