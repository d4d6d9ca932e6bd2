/** The record of one worker process, written by the launcher, by the runner in
    the pane and by the controller's read-merge-write (engine/controller.py,
    processes/tmux_runner.py). */
module ProcessRecord {
  import opened Wrappers

  datatype Status = Launching | Running | Exited | OtherStatus(name: string)

  function Rank(s: Status): int {
    match s
    case Launching => 0
    case Running => 1
    case Exited => 2
    case OtherStatus(_) => -1
  }

  /** `details` holds the remaining keys both writers fill: command, cwd, paths,
      provider, mode, pane and times. */
  datatype Record = Record(pid: int, pgid: int, status: Status, returncode: Option<int>,
                           updatedAt: Option<real>, details: map<string, string>)

  datatype Disk = Absent | Torn | Stored(record: Record)

  function KeepPositive(existing: int, base: int): int {
    if existing > 0 then existing else base
  }

  function Later(existing: Option<real>, base: Option<real>): Option<real> {
    match existing
    case None => base
    case Some(t) => Some(if t >= base.GetOr(0.0) then t else base.GetOr(0.0))
  }

  /** `_merge_process_launch_record`: an unreadable file counts as no file. */
  function Merge(disk: Disk, base: Record): Record {
    if !disk.Stored? then base
    else
      var e := disk.record;
      Record(KeepPositive(e.pid, base.pid), KeepPositive(e.pgid, base.pgid),
             if Rank(e.status) >= Rank(base.status) then e.status else base.status,
             if e.returncode.Some? then e.returncode else base.returncode,
             Later(e.updatedAt, base.updatedAt),
             base.details + e.details)
  }

  /** How far a status has come; one the code does not know counts as behind all. */
  const PROGRESS: map<Status, int> := map[Launching := 0, Running := 1, Exited := 2]

  function ProgressOf(s: Status): int {
    if s in PROGRESS then PROGRESS[s] else -1
  }

  /** The merged record, key by key. Without a readable file it is the launcher's. Else
      a positive process id of the file wins, and so do its return code, every detail it
      has, and a status that is at least as far; the later of the two times is kept. */
  lemma MergeMeans(disk: Disk, base: Record)
    ensures var m := Merge(disk, base);
            && (!disk.Stored? ==> m == base)
            && (disk.Stored? ==>
                  var e := disk.record;
                  && (if e.pid > 0 then m.pid == e.pid else m.pid == base.pid)
                  && (if e.pgid > 0 then m.pgid == e.pgid else m.pgid == base.pgid)
                  && (if ProgressOf(e.status) < ProgressOf(base.status) then m.status == base.status
                      else m.status == e.status)
                  && (if e.returncode.Some? then m.returncode == e.returncode else m.returncode == base.returncode)
                  && (forall k :: k in m.details <==> k in e.details || k in base.details)
                  && (forall k | k in e.details :: m.details[k] == e.details[k])
                  && (forall k | k in base.details && k !in e.details :: m.details[k] == base.details[k])
                  && LaterOf(e.updatedAt, base.updatedAt, m.updatedAt))
  {
    if disk.Stored? {
      assert forall s: Status :: Rank(s) == ProgressOf(s);
    }
  }

  /** The file's time, unless the launcher's is later; an absent one of the file's is
      taken over, one of the launcher's counts as 0. */
  ghost predicate LaterOf(existing: Option<real>, base: Option<real>, merged: Option<real>) {
    match existing
    case None => merged == base
    case Some(t) =>
      && merged.Some? && merged.value >= t && (merged.value == t || Some(merged.value) == base || merged.value == 0.0)
      && (base.Some? ==> merged.value >= base.value && merged.value in {t, base.value})
      && (base.None? ==> merged.value >= 0.0 && merged.value in {t, 0.0})
  }

  /** Merging the same launch record twice is merging it once. */
  lemma MergeIdempotent(disk: Disk, base: Record)
    ensures Merge(Stored(Merge(disk, base)), base) == Merge(disk, base)
  {
    if disk.Stored? {
      assert base.details + (base.details + disk.record.details) == base.details + disk.record.details;
    } else {
      assert base.details + base.details == base.details;
    }
  }

  /** A write that loses nothing the record already told. */
  ghost predicate Keeps(before: Disk, after: Disk) {
    before.Stored? ==>
      && after.Stored?
      && Rank(before.record.status) <= Rank(after.record.status)
      && (before.record.pid > 0 ==> after.record.pid > 0)
      && (before.record.returncode.Some? ==> after.record.returncode == before.record.returncode)
  }

  /** How far the runner of this launch has come. */
  datatype Runner = NotStarted | Alive(pid: int) | Done(pid: int, code: int)

  datatype Step =
    | RunnerStarts(started: Record)
    | RunnerExits(finished: Record)
    | ControllerMerges(base: Record)

  datatype State = State(disk: Disk, runner: Runner)

  /** A record no process outcome is known for yet: what the launchers write and
      what the controller merges. */
  ghost predicate LaunchRecord(r: Record) {
    r.pid >= 0 && (r.status == Launching || r.status == Running) && r.returncode.None?
  }

  ghost predicate Enabled(s: State, step: Step) {
    match step
    case RunnerStarts(r) => s.runner.NotStarted? && r.pid > 0 && r.status == Running && r.returncode.None?
    case RunnerExits(r) => s.runner.Alive? && r.pid == s.runner.pid && r.status == Exited && r.returncode.Some?
    case ControllerMerges(b) => LaunchRecord(b)
  }

  function Apply(s: State, step: Step): State {
    match step
    case RunnerStarts(r) => State(Stored(r), Alive(r.pid))
    case RunnerExits(r) => State(Stored(r), Done(r.pid, r.returncode.GetOr(0)))
    case ControllerMerges(b) => State(Stored(Merge(s.disk, b)), s.runner)
  }

  function Exec(s: State, steps: seq<Step>): State
    decreases |steps|
  {
    if steps == [] then s else Exec(Apply(s, steps[0]), steps[1..])
  }

  ghost predicate AllEnabled(s: State, steps: seq<Step>)
    decreases |steps|
  {
    steps == [] || (Enabled(s, steps[0]) && AllEnabled(Apply(s, steps[0]), steps[1..]))
  }

  /** What the file says never runs ahead of the runner, and never lags it. */
  ghost predicate Consistent(s: State) {
    s.disk.Stored? &&
    var r := s.disk.record;
    match s.runner
    case NotStarted => LaunchRecord(r)
    case Alive(pid) => r.status == Running && r.pid == pid && pid > 0 && r.returncode.None?
    case Done(pid, code) => r.status == Exited && r.pid == pid && pid > 0 && r.returncode == Some(code)
  }

  lemma StepKeeps(s: State, step: Step)
    requires Consistent(s) && Enabled(s, step)
    ensures Consistent(Apply(s, step))
    ensures Keeps(s.disk, Apply(s, step).disk)
  {
  }

  /** Every interleaving of the runner's writes with any number of atomic
      controller merges: the status rank never falls, a positive pid never
      returns to 0, a recorded return code is never lost, and at the end the file
      tells exactly how far the runner has come. */
  lemma {:induction false} InterleavingsKeep(s: State, steps: seq<Step>)
    requires Consistent(s) && AllEnabled(s, steps)
    ensures Consistent(Exec(s, steps)) && Keeps(s.disk, Exec(s, steps).disk)
    decreases |steps|
  {
    if steps != [] {
      StepKeeps(s, steps[0]);
      InterleavingsKeep(Apply(s, steps[0]), steps[1..]);
    }
  }

  lemma {:induction false} ExecSplits(s: State, a: seq<Step>, b: seq<Step>)
    requires AllEnabled(s, a + b)
    ensures AllEnabled(s, a) && AllEnabled(Exec(s, a), b) && Exec(s, a + b) == Exec(Exec(s, a), b)
    decreases |a|
  {
    if a == [] {
      assert a + b == b;
    } else {
      assert (a + b)[1..] == a[1..] + b;
      ExecSplits(Apply(s, a[0]), a[1..], b);
    }
  }

  /** The same between any two moments of one launch. */
  lemma NothingIsEverLost(launch: Record, steps: seq<Step>, i: nat, j: nat)
    requires LaunchRecord(launch) && i <= j <= |steps|
    requires AllEnabled(State(Stored(launch), NotStarted), steps)
    ensures var s := State(Stored(launch), NotStarted);
            Keeps(Exec(s, steps[..i]).disk, Exec(s, steps[..j]).disk)
  {
    var s := State(Stored(launch), NotStarted);
    assert steps == steps[..j] + steps[j..];
    ExecSplits(s, steps[..j], steps[j..]);
    assert steps[..j] == steps[..i] + steps[i..j];
    ExecSplits(s, steps[..i], steps[i..j]);
    InterleavingsKeep(s, steps[..i]);
    InterleavingsKeep(Exec(s, steps[..i]), steps[i..j]);
  }

  // ---- The merge is not atomic -----------------------------------------

  /** The record the controller merges for a launch into a pane. */
  ghost predicate PaneBase(b: Record) {
    LaunchRecord(b) && b.status == Launching && b.pid == 0
  }

  ghost predicate RunnerOnly(steps: seq<Step>) {
    forall step | step in steps :: !step.ControllerMerges?
  }

  lemma {:induction false} RunnerOnlyMoves(s: State, steps: seq<Step>)
    requires AllEnabled(s, steps) && RunnerOnly(steps)
    ensures Exec(s, steps).runner == s.runner <==> steps == []
    ensures steps != [] ==> !Exec(s, steps).runner.NotStarted?
    ensures s.runner.Done? ==> steps == []
    ensures s.runner.Alive? && steps != [] ==> Exec(s, steps).runner.Done?
    decreases |steps|
  {
    if steps != [] {
      assert forall step | step in steps[1..] :: step in steps;
      RunnerOnlyMoves(Apply(s, steps[0]), steps[1..]);
    }
  }

  /** When the file is read, the runner moves, and the merged record is written
      over its update: nothing is lost exactly if the runner wrote nothing in
      between. */
  lemma SplitMergeKeepsIff(s: State, between: seq<Step>, base: Record)
    requires Consistent(s) && AllEnabled(s, between) && RunnerOnly(between) && PaneBase(base)
    requires s.runner.NotStarted? ==> s.disk.record.pid == 0
    ensures Keeps(Exec(s, between).disk, Stored(Merge(s.disk, base))) <==> between == []
  {
    RunnerOnlyMoves(s, between);
    InterleavingsKeep(s, between);
    if between == [] {
      StepKeeps(s, ControllerMerges(base));
    }
  }

  /** Reading the file while the runner rewrites it counts as no file, and the
      launch record then erases the runner's pid: safe only before it starts. */
  lemma TornReadKeepsIff(s: State, base: Record)
    requires Consistent(s) && PaneBase(base)
    ensures Keeps(s.disk, Stored(Merge(Torn, base)))
            <==> s.runner.NotStarted? && s.disk.record.status == Launching && s.disk.record.pid == 0
  {
  }

  const IN_PANE: Record := Record(0, 0, Launching, None, None, map[])
  const STARTED: Record := Record(7, 7, Running, None, None, map[])
  const FINISHED: Record := Record(7, 7, Exited, Some(1), None, map[])

  /** The controller reads before the worker exits and writes afterwards: the file
      says the worker runs, and its return code is gone. */
  lemma SplitMergeLosesExit()
    ensures var s := State(Stored(STARTED), Alive(7));
            && Consistent(s) && AllEnabled(s, [RunnerExits(FINISHED)])
            && Exec(s, [RunnerExits(FINISHED)]).disk == Stored(FINISHED)
            && Merge(s.disk, IN_PANE) == STARTED
            && !Keeps(Stored(FINISHED), Stored(Merge(s.disk, IN_PANE)))
  {
    assert Exec(Apply(State(Stored(STARTED), Alive(7)), RunnerExits(FINISHED)), []).disk == Stored(FINISHED);
  }

  /** The controller reads while the runner rewrites the file: the pid is erased. */
  lemma TornReadLosesPid()
    ensures var s := State(Stored(STARTED), Alive(7));
            && Consistent(s) && Merge(Torn, IN_PANE) == IN_PANE && IN_PANE.pid == 0
            && !Keeps(s.disk, Stored(Merge(Torn, IN_PANE)))
  {
  }

  // ---- The file --------------------------------------------------------

  /** The process file with its writers, each one write of the whole record. */
  class ProcessFile {
    var disk: Disk
    ghost var runner: Runner

    constructor (launch: Record)
      ensures disk == Stored(launch) && runner == NotStarted
    {
      disk := Stored(launch);
      runner := NotStarted;
    }

    ghost function View(): State
      reads this
    {
      State(disk, runner)
    }

    method WriteRunning(pid: int, pgid: int, now: real, details: map<string, string>)
      requires Consistent(View()) && runner.NotStarted? && pid > 0
      modifies this
      ensures View() == Apply(old(View()), RunnerStarts(Record(pid, pgid, Running, None, Some(now), details)))
      ensures Consistent(View()) && Keeps(old(disk), disk)
    {
      ghost var step := RunnerStarts(Record(pid, pgid, Running, None, Some(now), details));
      StepKeeps(View(), step);
      disk := Stored(Record(pid, pgid, Running, None, Some(now), details));
      runner := Alive(pid);
    }

    method WriteExited(pid: int, pgid: int, code: int, now: real, details: map<string, string>)
      requires Consistent(View()) && runner == Alive(pid)
      modifies this
      ensures View() == Apply(old(View()), RunnerExits(Record(pid, pgid, Exited, Some(code), Some(now), details)))
      ensures Consistent(View()) && Keeps(old(disk), disk)
    {
      ghost var step := RunnerExits(Record(pid, pgid, Exited, Some(code), Some(now), details));
      StepKeeps(View(), step);
      disk := Stored(Record(pid, pgid, Exited, Some(code), Some(now), details));
      runner := Done(pid, code);
    }

    /** Read, merge and write back as one step, key by key. */
    method MergeLaunchRecord(base: Record)
      requires Consistent(View()) && LaunchRecord(base)
      modifies this
      ensures View() == Apply(old(View()), ControllerMerges(base))
      ensures Consistent(View()) && Keeps(old(disk), disk)
    {
      StepKeeps(View(), ControllerMerges(base));
      var merged := base;
      if disk.Stored? {
        var existing := disk.record;
        if existing.pid > 0 {
          merged := merged.(pid := existing.pid);
        }
        if existing.pgid > 0 {
          merged := merged.(pgid := existing.pgid);
        }
        if Rank(existing.status) >= Rank(base.status) {
          merged := merged.(status := existing.status);
        }
        if existing.returncode.Some? {
          merged := merged.(returncode := existing.returncode);
        }
        merged := merged.(details := merged.details + existing.details,
                          updatedAt := Later(existing.updatedAt, base.updatedAt));
      }
      disk := Stored(merged);
    }
  }
}
