/** The durable task ledger: stored tasks, the append-only event log and the
    guarded transition (runtime/tasks.py, runtime/events.py,
    tasks/file_backend.py). */
module Ledger {
  import opened Git
  import opened Text
  import opened Wrappers

  datatype Status =
    | Planned | Ready | Assigned | Running | HandoffNeeded | CooldownWait | DecisionRequired
    | Validating | Validated | ReviewReady | Reviewing | ReviewPassed | MergeReady | MergeApproved
    | IntegrationReady | Integrating | Merged | Rejected | Blocked | Failed
    | Unlisted(name: string)

  predicate Terminal(s: Status) {
    s == Merged || s == Rejected
  }

  /** What `classify_failure` can return. */
  datatype LogKind =
    | QuotaExhausted | RateLimited | Capacity | GitFailure | WorkspacePermission | ResultPathUnwritable
    | Authentication | WrapperQuoting | MissingWorkerResult | ValidationCommandInvalid
    | ContractOwnershipGap | MergeBranchDivergence | TestFailure | AdapterFailure

  datatype FailureKind =
    | FromLog(kind: LogKind)
    | MissingProcessRecord | StaleRunningProcess | MissingResultWithCommit
    | ValidationFailure | ReviewFailure | PauseThreshold
    | Unclassified

  datatype Action =
    | NormalizeResult | RetrySameProvider | HandoffProvider | RepairAdapter
    | RepairContract | ReconcileBranch | AskUser

  /** The keys of a task dict that the controller reads back. An absent key is
      `None`. */
  datatype Notes = Notes(
    provider: Option<string>,
    lastProvider: Option<string>,
    failureKind: Option<FailureKind>,
    allowed: Option<set<Action>>,
    commit: Option<CommitId>,
    validated: Option<bool>,
    reviewed: Option<bool>)

  const NO_NOTES := Notes(None, None, None, None, None, None, None)

  datatype Task = Task(id: string, packageId: string, title: string, status: Status, notes: Notes)

  /** A transition payload. `status`, `from` and `to` are the keys that would
      override what the transition itself writes. */
  datatype Payload = Payload(status: Option<Status>, from: Option<Status>, to: Option<Status>, notes: Notes)

  function Note(notes: Notes): Payload {
    Payload(None, None, None, notes)
  }

  datatype Event = Created(id: string, status: Status) | Transition(id: string, from: Status, to: Status)

  datatype LedgerState = LedgerState(tasks: seq<Task>, events: seq<Event>)

  datatype TransitionError = UnknownStatus | TerminalTask

  function Update(kept: Notes, added: Notes): Notes {
    Notes(added.provider.Else(kept.provider), added.lastProvider.Else(kept.lastProvider),
          added.failureKind.Else(kept.failureKind), added.allowed.Else(kept.allowed),
          added.commit.Else(kept.commit), added.validated.Else(kept.validated), added.reviewed.Else(kept.reviewed))
  }

  /** The first stored task with that id, or the length. */
  function IndexOf(tasks: seq<Task>, id: string): (i: nat)
    ensures i <= |tasks|
    ensures i < |tasks| ==> tasks[i].id == id
    ensures forall j | 0 <= j < i :: tasks[j].id != id
  {
    if tasks == [] || tasks[0].id == id then 0 else 1 + IndexOf(tasks[1..], id)
  }

  function Upserted(tasks: seq<Task>, updated: Task): seq<Task> {
    var i := IndexOf(tasks, updated.id);
    if i < |tasks| then tasks[i := updated] else tasks + [updated]
  }

  /** The task dict after `transition_task` has updated it in place. */
  function Moved(task: Task, status: Status, payload: Payload): Task {
    task.(status := payload.status.GetOr(status), notes := Update(task.notes, payload.notes))
  }

  /** `transition_task` on the caller's copy of a task, fresh or not. */
  function Transitioned(l: LedgerState, task: Task, status: Status, payload: Payload):
      Result<LedgerState, TransitionError>
  {
    if status.Unlisted? then Err(UnknownStatus)
    else if Terminal(task.status) && status != task.status then Err(TerminalTask)
    else Ok(LedgerState(
              Upserted(l.tasks, Moved(task, status, payload)),
              l.events + [Transition(task.id, payload.from.GetOr(task.status), payload.to.GetOr(status))]))
  }

  function TaskIdFor(packageId: string): string {
    "task-" + packageId
  }

  function NewTask(packageId: string, name: string): Task {
    Task(TaskIdFor(packageId), packageId, packageId + " " + name, Planned, NO_NOTES)
  }

  /** The first task `ensure_task` would return, or the length. */
  function Existing(tasks: seq<Task>, packageId: string): (i: nat)
    ensures i <= |tasks|
    ensures i < |tasks| ==> tasks[i].id == TaskIdFor(packageId) || tasks[i].packageId == packageId
    ensures forall j | 0 <= j < i :: tasks[j].id != TaskIdFor(packageId) && tasks[j].packageId != packageId
  {
    if tasks == [] || tasks[0].id == TaskIdFor(packageId) || tasks[0].packageId == packageId then 0
    else 1 + Existing(tasks[1..], packageId)
  }

  function Ensured(l: LedgerState, packageId: string, name: string): LedgerState {
    if Existing(l.tasks, packageId) < |l.tasks| then l
    else
      var task := NewTask(packageId, name);
      LedgerState(l.tasks + [task], l.events + [Created(task.id, Planned)])
  }

  // ---- The store -------------------------------------------------------

  class TaskStore {
    var tasks: seq<Task>
    var events: seq<Event>

    constructor ()
      ensures State() == LedgerState([], [])
    {
      tasks, events := [], [];
    }

    function State(): LedgerState
      reads this
    {
      LedgerState(tasks, events)
    }

    method EnsureTask(packageId: string, name: string) returns (task: Task)
      modifies this
      ensures State() == Ensured(old(State()), packageId, name)
      ensures var i := Existing(tasks, packageId); i < |tasks| && task == tasks[i]
    {
      var i := 0;
      while i < |tasks|
        invariant 0 <= i <= |tasks| && State() == old(State())
        invariant forall j | 0 <= j < i :: tasks[j].id != TaskIdFor(packageId) && tasks[j].packageId != packageId
      {
        if tasks[i].id == TaskIdFor(packageId) || tasks[i].packageId == packageId {
          return tasks[i];
        }
        i := i + 1;
      }
      task := NewTask(packageId, name);
      tasks := tasks + [task];
      events := events + [Created(task.id, Planned)];
      assert tasks[|tasks| - 1] == task;
    }

    method UpsertTask(updated: Task)
      modifies this`tasks
      ensures tasks == Upserted(old(tasks), updated)
    {
      var i := 0;
      while i < |tasks|
        invariant 0 <= i <= |tasks| && tasks == old(tasks)
        invariant forall j | 0 <= j < i :: tasks[j].id != updated.id
      {
        if tasks[i].id == updated.id {
          tasks := tasks[i := updated];
          return;
        }
        i := i + 1;
      }
      tasks := tasks + [updated];
    }

    /** Returns the caller's copy as the transition leaves it. */
    method TransitionTask(task: Task, status: Status, payload: Payload) returns (r: Result<Task, TransitionError>)
      modifies this
      ensures var l := Transitioned(old(State()), task, status, payload);
              && (r.Ok? <==> l.Ok?)
              && (r.Ok? ==> State() == l.value && r.value == Moved(task, status, payload))
              && (r.Err? ==> State() == old(State()) && r.error == l.error)
    {
      if status.Unlisted? {
        return Err(UnknownStatus);
      }
      if Terminal(task.status) && status != task.status {
        return Err(TerminalTask);
      }
      var updated := Moved(task, status, payload);
      UpsertTask(updated);
      events := events + [Transition(task.id, payload.from.GetOr(task.status), payload.to.GetOr(status))];
      return Ok(updated);
    }
  }

  // ---- Replay ----------------------------------------------------------

  ghost function Replayed(statuses: map<string, Status>, e: Event): map<string, Status> {
    match e
    case Created(id, s) => statuses[id := s]
    case Transition(id, _, to) => statuses[id := to]
  }

  /** Folding the log from the empty map. */
  ghost function Replay(events: seq<Event>): map<string, Status> {
    if events == [] then map[]
    else Replayed(Replay(events[..|events| - 1]), events[|events| - 1])
  }

  /** The event continues the log before it: a creation is new, a transition
      starts from the task's previous status and never leaves a terminal one. */
  ghost predicate Continues(before: map<string, Status>, e: Event) {
    match e
    case Created(id, _) => id !in before
    case Transition(id, from, to) => id in before && before[id] == from && (Terminal(from) ==> to == from)
  }

  ghost predicate ContinuesAt(events: seq<Event>, n: nat)
    requires n < |events|
  {
    Continues(Replay(events[..n]), events[n])
  }

  ghost predicate Chained(events: seq<Event>) {
    forall n {:trigger ContinuesAt(events, n)} | 0 <= n < |events| :: ContinuesAt(events, n)
  }

  ghost predicate DistinctIds(tasks: seq<Task>) {
    forall i, j {:trigger tasks[i].id, tasks[j].id} | 0 <= i < j < |tasks| :: tasks[i].id != tasks[j].id
  }

  ghost predicate HasId(tasks: seq<Task>, id: string) {
    exists k :: 0 <= k < |tasks| && tasks[k].id == id
  }

  ghost predicate Agrees(tasks: seq<Task>, statuses: map<string, Status>) {
    && DistinctIds(tasks)
    && (forall id {:trigger HasId(tasks, id)} | id in statuses :: HasId(tasks, id))
    && forall i {:trigger tasks[i].id} | 0 <= i < |tasks| ::
         tasks[i].id in statuses && statuses[tasks[i].id] == tasks[i].status
  }

  /** The log is a gap-free account of exactly the stored statuses. */
  ghost predicate Faithful(l: LedgerState) {
    Chained(l.events) && Agrees(l.tasks, Replay(l.events))
  }

  lemma ReplayAppend(events: seq<Event>, e: Event)
    ensures Replay(events + [e]) == Replayed(Replay(events), e)
    ensures Chained(events + [e]) <==> Chained(events) && Continues(Replay(events), e)
  {
    var more := events + [e];
    assert more[..|events|] == events;
    assert ContinuesAt(more, |events|) <==> Continues(Replay(events), e);
    forall n | 0 <= n < |events| ensures ContinuesAt(more, n) <==> ContinuesAt(events, n) {
      assert more[..n] == events[..n];
    }
    if Chained(more) {
      forall n | 0 <= n < |events| ensures ContinuesAt(events, n) {
        assert ContinuesAt(more, n);
      }
    }
  }

  lemma AgreesAppended(tasks: seq<Task>, statuses: map<string, Status>, task: Task)
    requires Agrees(tasks, statuses) && task.id !in statuses
    ensures Agrees(tasks + [task], statuses[task.id := task.status])
  {
    var more := tasks + [task];
    assert more[|tasks|] == task;
    forall id | id in statuses[task.id := task.status] ensures HasId(more, id) {
      if id != task.id {
        assert HasId(tasks, id);
        var i :| 0 <= i < |tasks| && tasks[i].id == id;
        assert more[i].id == id;
      }
    }
  }

  /** `ensure_task` keeps the account. */
  lemma EnsureKeepsFaithful(l: LedgerState, packageId: string, name: string)
    requires Faithful(l)
    ensures Faithful(Ensured(l, packageId, name))
    ensures l.tasks <= Ensured(l, packageId, name).tasks
  {
    if Existing(l.tasks, packageId) == |l.tasks| {
      var task := NewTask(packageId, name);
      ReplayAppend(l.events, Created(task.id, Planned));
      assert task.id !in Replay(l.events) by {
        assert !HasId(l.tasks, task.id);
      }
      AgreesAppended(l.tasks, Replay(l.events), task);
    }
  }

  /** What a transition through the copy `task` of the stored task `i` must meet
      for the log to stay faithful. */
  ghost predicate Accounted(l: LedgerState, i: nat, task: Task, status: Status, payload: Payload)
    requires i < |l.tasks|
  {
    && payload.from.GetOr(task.status) == l.tasks[i].status
    && payload.to.GetOr(status) == payload.status.GetOr(status)
    && (Terminal(l.tasks[i].status) ==> payload.to.GetOr(status) == l.tasks[i].status)
  }

  lemma TransitionShape(l: LedgerState, i: nat, task: Task, status: Status, payload: Payload)
    requires DistinctIds(l.tasks) && i < |l.tasks| && l.tasks[i].id == task.id
    requires Transitioned(l, task, status, payload).Ok?
    ensures var m := Transitioned(l, task, status, payload).value;
            var e := Transition(task.id, payload.from.GetOr(task.status), payload.to.GetOr(status));
            && m == LedgerState(l.tasks[i := Moved(task, status, payload)], l.events + [e])
            && Replay(m.events) == Replay(l.events)[task.id := payload.to.GetOr(status)]
            && (Chained(m.events) <==> Chained(l.events) && Continues(Replay(l.events), e))
  {
    assert IndexOf(l.tasks, task.id) == i;
    ReplayAppend(l.events, Transition(task.id, payload.from.GetOr(task.status), payload.to.GetOr(status)));
  }

  lemma AgreesReplaced(tasks: seq<Task>, statuses: map<string, Status>, i: nat, task: Task, to: Status)
    requires Agrees(tasks, statuses) && i < |tasks| && task.id == tasks[i].id
    ensures Agrees(tasks[i := task], statuses[task.id := to]) <==> to == task.status
  {
    assert tasks[i := task][i] == task;
    forall id | id in statuses ensures HasId(tasks[i := task], id) {
      assert HasId(tasks, id);
      var k :| 0 <= k < |tasks| && tasks[k].id == id;
      assert tasks[i := task][k].id == id;
    }
  }

  lemma TransitionKeepsFaithfulIff(l: LedgerState, i: nat, task: Task, status: Status, payload: Payload)
    requires Faithful(l) && i < |l.tasks| && l.tasks[i].id == task.id
    requires Transitioned(l, task, status, payload).Ok?
    ensures Faithful(Transitioned(l, task, status, payload).value) <==> Accounted(l, i, task, status, payload)
  {
    var m := Transitioned(l, task, status, payload).value;
    TransitionShape(l, i, task, status, payload);
    AgreesReplaced(l.tasks, Replay(l.events), i, Moved(task, status, payload), payload.to.GetOr(status));
  }

  /** With a payload that has no `status`, `from` or `to` key, replay survives the
      transition exactly if the caller's copy carried the stored status. */
  lemma FreshnessDecides(l: LedgerState, i: nat, task: Task, status: Status, notes: Notes)
    requires Faithful(l) && i < |l.tasks| && l.tasks[i].id == task.id
    requires Transitioned(l, task, status, Note(notes)).Ok?
    ensures Faithful(Transitioned(l, task, status, Note(notes)).value) <==> task.status == l.tasks[i].status
  {
    TransitionKeepsFaithfulIff(l, i, task, status, Note(notes));
  }

  /** The log of a task that was created and moved once. */
  lemma MovedOnce(id: string, to: Status)
    ensures var events := [Created(id, Planned), Transition(id, Planned, to)];
            Chained(events) && Replay(events) == map[id := to]
  {
    var created, moved := Created(id, Planned), Transition(id, Planned, to);
    assert Replay([created]) == map[id := Planned] && Chained([created]) by {
      ReplayAppend([], created);
      assert [] + [created] == [created];
    }
    ReplayAppend([created], moved);
    assert [created] + [moved] == [created, moved];
    assert map[id := Planned][id := to] == map[id := to];
  }

  /** A stale copy walks past the terminal guard and resurrects a merged task. */
  lemma StaleCopyResurrects()
    ensures var stored := NewTask("P", "one").(status := Merged);
            var l := LedgerState([stored], [Created(stored.id, Planned), Transition(stored.id, Planned, Merged)]);
            var stale := stored.(status := Planned);
            && Faithful(l)
            && Transitioned(l, stale, Ready, Note(NO_NOTES)).Ok?
            && Transitioned(l, stale, Ready, Note(NO_NOTES)).value.tasks[0].status == Ready
  {
    var stored := NewTask("P", "one").(status := Merged);
    MovedOnce(stored.id, Merged);
    var l := LedgerState([stored], [Created(stored.id, Planned), Transition(stored.id, Planned, Merged)]);
    assert l.tasks[0].id == stored.id;
    assert HasId(l.tasks, stored.id);
  }

  /** `merged` and `rejected` are never left, at any two points of a chained log. */
  lemma {:induction false} TerminalIsForever(events: seq<Event>, n: nat, id: string)
    requires Chained(events) && n <= |events|
    requires id in Replay(events[..n]) && Terminal(Replay(events[..n])[id])
    ensures id in Replay(events) && Replay(events)[id] == Replay(events[..n])[id]
    decreases |events|
  {
    if n == |events| {
      assert events[..n] == events;
    } else {
      var front := events[..|events| - 1];
      assert front[..n] == events[..n] && events == front + [events[|front|]];
      ReplayAppend(front, events[|front|]);
      TerminalIsForever(front, n, id);
    }
  }

  /** A transition in full: refused for a status the ledger does not know, then for a
      copy that is merged or rejected and asked to leave that status; otherwise the
      first record with the copy's id becomes the copy with the new status, or is added
      at the end, with every note given replacing the copy's, and one event is logged. */
  lemma TransitionMeans(l: LedgerState, task: Task, status: Status, notes: Notes)
    ensures var r := Transitioned(l, task, status, Note(notes));
            && (r == Err(UnknownStatus) <==> status.Unlisted?)
            && (r == Err(TerminalTask) <==>
                  !status.Unlisted? && task.status in {Merged, Rejected} && status != task.status)
            && (r.Ok? ==>
                  && r.value.events == l.events + [Transition(task.id, task.status, status)]
                  && Rewrites(l.tasks, r.value.tasks, task, status, notes))
  {
    var i, updated := IndexOf(l.tasks, task.id), Moved(task, status, Note(notes));
    assert Overlaid(task.notes, notes, updated.notes);
    assert updated == task.(status := status, notes := updated.notes);
    if i < |l.tasks| {
      assert FirstWith(l.tasks, task.id, i);
    }
  }

  ghost predicate FirstWith(tasks: seq<Task>, id: string, i: nat) {
    i < |tasks| && tasks[i].id == id && forall j | 0 <= j < i :: tasks[j].id != id
  }

  ghost predicate Rewrites(before: seq<Task>, after: seq<Task>, task: Task, status: Status, notes: Notes) {
    exists noted: Notes {:trigger Overlaid(task.notes, notes, noted)} ::
      && Overlaid(task.notes, notes, noted)
      && var updated := task.(status := status, notes := noted);
         || (after == before + [updated] && forall j | 0 <= j < |before| :: before[j].id != task.id)
         || exists i: nat :: FirstWith(before, task.id, i) && after == before[i := updated]
  }

  /** Every note given replaces the old one, every other stays. */
  ghost predicate Overlaid(kept: Notes, added: Notes, result: Notes) {
    && (if added.provider.Some? then result.provider == added.provider else result.provider == kept.provider)
    && (if added.lastProvider.Some? then result.lastProvider == added.lastProvider
        else result.lastProvider == kept.lastProvider)
    && (if added.failureKind.Some? then result.failureKind == added.failureKind
        else result.failureKind == kept.failureKind)
    && (if added.allowed.Some? then result.allowed == added.allowed else result.allowed == kept.allowed)
    && (if added.commit.Some? then result.commit == added.commit else result.commit == kept.commit)
    && (if added.validated.Some? then result.validated == added.validated else result.validated == kept.validated)
    && (if added.reviewed.Some? then result.reviewed == added.reviewed else result.reviewed == kept.reviewed)
  }

  /** A transition touches the record of its own task only. */
  lemma TransitionIsLocal(l: LedgerState, task: Task, status: Status, payload: Payload, j: nat)
    requires Transitioned(l, task, status, payload).Ok? && j < |l.tasks| && l.tasks[j].id != task.id
    ensures var m := Transitioned(l, task, status, payload).value;
            j < |m.tasks| && m.tasks[j] == l.tasks[j] && l.events <= m.events
  {
  }

  // ---- task_for_package ------------------------------------------------

  function Priority(s: Status): nat {
    match s
    case Running => 0
    case Ready => 1
    case Validating => 2
    case ReviewReady => 3
    case Reviewing => 4
    case ReviewPassed => 5
    case MergeReady => 6
    case MergeApproved => 7
    case Blocked => 3
    case Unlisted(name) =>
      if name == "review" then 2 else if name == "todo" then 4 else if name == "scheduled" then 5
      else if name == "triage" then 6 else if name == "done" then 7 else if name == "archived" then 8 else 99
    case _ => 99
  }

  predicate MatchesPackage(task: Task, packageId: string) {
    task.packageId == packageId || packageId + " " <= task.title
  }

  predicate SortsBefore(a: Task, b: Task) {
    Priority(a.status) < Priority(b.status) || (Priority(a.status) == Priority(b.status) && LexLe(a.id, b.id))
  }

  /** The match that `sorted` puts first. */
  function TaskForPackage(tasks: seq<Task>, packageId: string): Option<Task> {
    if tasks == [] then None
    else
      var rest := TaskForPackage(tasks[1..], packageId);
      if !MatchesPackage(tasks[0], packageId) then rest
      else if rest.None? || SortsBefore(tasks[0], rest.value) then Some(tasks[0])
      else rest
  }

  /** Tasks as `ensure_task` makes them, for package ids without spaces. */
  ghost predicate WellNamed(task: Task) {
    task.id == TaskIdFor(task.packageId) && ' ' !in task.packageId && task.packageId + " " <= task.title
  }

  lemma MatchIsOwn(task: Task, packageId: string)
    requires WellNamed(task) && ' ' !in packageId
    ensures MatchesPackage(task, packageId) <==> task.packageId == packageId
  {
    if packageId + " " <= task.title {
      var a, b := task.title[|packageId| + 1..], task.title[|task.packageId| + 1..];
      assert task.title == packageId + [' '] + a;
      assert task.title == task.packageId + [' '] + b;
      PartitionFound(packageId, ' ', a);
      PartitionFound(task.packageId, ' ', b);
    }
  }

  /** The same tasks, in whatever statuses. */
  ghost predicate Restatused(tasks: seq<Task>, t: seq<Task>) {
    |t| == |tasks| && forall k {:trigger t[k]} | 0 <= k < |tasks| :: t[k] == tasks[k].(status := t[k].status)
  }

  lemma {:induction false} OnlyMatchIsFound(tasks: seq<Task>, i: nat, packageId: string)
    requires i < |tasks| && MatchesPackage(tasks[i], packageId)
    requires forall j | 0 <= j < |tasks| && j != i :: !MatchesPackage(tasks[j], packageId)
    ensures TaskForPackage(tasks, packageId) == Some(tasks[i])
    decreases |tasks|
  {
    if i > 0 {
      OnlyMatchIsFound(tasks[1..], i - 1, packageId);
    } else {
      NoMatchFindsNothing(tasks[1..], packageId);
    }
  }

  lemma {:induction false} NoMatchFindsNothing(tasks: seq<Task>, packageId: string)
    requires forall j | 0 <= j < |tasks| :: !MatchesPackage(tasks[j], packageId)
    ensures TaskForPackage(tasks, packageId) == None
    decreases |tasks|
  {
    if tasks != [] {
      NoMatchFindsNothing(tasks[1..], packageId);
    }
  }

  /** The lookup returns a stored match, and none is more urgent. */
  lemma {:induction false} FoundIsMostUrgent(tasks: seq<Task>, packageId: string, k: nat)
    requires k < |tasks| && MatchesPackage(tasks[k], packageId)
    ensures var r := TaskForPackage(tasks, packageId);
            && r.Some? && r.value in tasks && MatchesPackage(r.value, packageId)
            && Priority(r.value.status) <= Priority(tasks[k].status)
    decreases |tasks|
  {
    var rest := TaskForPackage(tasks[1..], packageId);
    if k > 0 {
      FoundIsMostUrgent(tasks[1..], packageId, k - 1);
      assert forall x | x in tasks[1..] :: x in tasks;
    } else if rest.Some? {
      var j := FoundIsStored(tasks[1..], packageId);
      FoundIsMostUrgent(tasks[1..], packageId, j);
      assert forall x | x in tasks[1..] :: x in tasks;
    }
  }

  lemma {:induction false} FoundIsStored(tasks: seq<Task>, packageId: string) returns (k: nat)
    requires TaskForPackage(tasks, packageId).Some?
    ensures k < |tasks| && tasks[k] == TaskForPackage(tasks, packageId).value && MatchesPackage(tasks[k], packageId)
    decreases |tasks|
  {
    if TaskForPackage(tasks, packageId) == Some(tasks[0]) && MatchesPackage(tasks[0], packageId) {
      k := 0;
    } else {
      k := FoundIsStored(tasks[1..], packageId);
      k := k + 1;
    }
  }

  /** How urgent a status is for the lookup: `sorted` puts smaller numbers first. */
  const URGENCY: map<Status, nat> := map[
    Running := 0, Ready := 1, Validating := 2, ReviewReady := 3, Reviewing := 4, ReviewPassed := 5,
    MergeReady := 6, MergeApproved := 7, Blocked := 3,
    Unlisted("review") := 2, Unlisted("todo") := 4, Unlisted("scheduled") := 5, Unlisted("triage") := 6,
    Unlisted("done") := 7, Unlisted("archived") := 8
  ]

  function UrgencyOf(s: Status): nat {
    if s in URGENCY then URGENCY[s] else 99
  }

  lemma PriorityIsUrgency(s: Status)
    ensures Priority(s) == UrgencyOf(s)
  {
  }

  /** The lookup's answer, exactly: a stored task answers if it is of that package or
      its title begins with the package's id and a space; of those the most urgent is
      found, of equally urgent ones that with the least id. */
  lemma {:induction false} MostUrgentIsFound(tasks: seq<Task>, packageId: string)
    ensures var r := TaskForPackage(tasks, packageId);
            && (r.None? <==> forall t | t in tasks :: t.packageId != packageId && !(packageId + " " <= t.title))
            && (r.Some? ==>
                  && r.value in tasks && (r.value.packageId == packageId || packageId + " " <= r.value.title)
                  && forall t | t in tasks && (t.packageId == packageId || packageId + " " <= t.title) ::
                       UrgencyOf(r.value.status) < UrgencyOf(t.status)
                       || (UrgencyOf(r.value.status) == UrgencyOf(t.status) && LexLe(r.value.id, t.id)))
    decreases |tasks|
  {
    if tasks != [] {
      MostUrgentIsFound(tasks[1..], packageId);
      assert tasks == [tasks[0]] + tasks[1..];
      var r, rest := TaskForPackage(tasks, packageId), TaskForPackage(tasks[1..], packageId);
      assert r.Some? ==> r.value in tasks;
      forall t | t in tasks && MatchesPackage(t, packageId)
        ensures r.Some? && SortsBefore(r.value, t) && Priority(r.value.status) == UrgencyOf(r.value.status)
                && Priority(t.status) == UrgencyOf(t.status)
      {
        PriorityIsUrgency(t.status);
        PriorityIsUrgency(r.value.status);
        LexLeTotal(tasks[0].id, if rest.Some? then rest.value.id else t.id);
        LexLeTotal(t.id, t.id);
        if rest.Some? && r == Some(tasks[0]) && t in tasks[1..] {
          PriorityIsUrgency(rest.value.status);
          if SortsBefore(tasks[0], rest.value) && LexLe(tasks[0].id, rest.value.id) && LexLe(rest.value.id, t.id) {
            LexLeTransitive(tasks[0].id, rest.value.id, t.id);
          }
        }
      }
    }
  }

  /** The lookup finds the package's own task `i` whatever the statuses are,
      exactly if no other task matches the package. */
  lemma LookupIsOwnIff(tasks: seq<Task>, i: nat, packageId: string)
    requires DistinctIds(tasks) && i < |tasks| && MatchesPackage(tasks[i], packageId)
    ensures (forall t | Restatused(tasks, t) :: TaskForPackage(t, packageId) == Some(t[i])) <==>
              forall j | 0 <= j < |tasks| && j != i :: !MatchesPackage(tasks[j], packageId)
  {
    if j :| 0 <= j < |tasks| && j != i && MatchesPackage(tasks[j], packageId) {
      var t := seq(|tasks|, k requires 0 <= k < |tasks| => tasks[k].(status := if k == j then Running else Failed));
      assert Restatused(tasks, t);
      FoundIsMostUrgent(t, packageId, j);
      assert Priority(t[i].status) == 99;
    } else {
      forall t | Restatused(tasks, t) ensures TaskForPackage(t, packageId) == Some(t[i]) {
        OnlyMatchIsFound(t, i, packageId);
      }
    }
  }

  /** For tasks as `ensure_task` makes them, in ids and names: no other package's
      id and name may begin with this id and a space. */
  lemma LookupIsOwnByNames(tasks: seq<Task>, names: seq<string>, i: nat)
    requires DistinctIds(tasks) && |names| == |tasks| && i < |tasks|
    requires forall j | 0 <= j < |tasks| ::
               tasks[j].id == TaskIdFor(tasks[j].packageId) && tasks[j].title == tasks[j].packageId + " " + names[j]
    ensures var id := tasks[i].packageId;
            (forall t | Restatused(tasks, t) :: TaskForPackage(t, id) == Some(t[i])) <==>
              forall j | 0 <= j < |tasks| && j != i :: !(id + " " <= tasks[j].packageId + " " + names[j])
  {
    LookupIsOwnIff(tasks, i, tasks[i].packageId);
    forall j | 0 <= j < |tasks| && j != i
      ensures MatchesPackage(tasks[j], tasks[i].packageId) <==>
                tasks[i].packageId + " " <= tasks[j].packageId + " " + names[j]
    {
      assert tasks[i].id != tasks[j].id;
    }
  }

  /** With space-free package ids, looking a package up by title finds its own
      task and no other. */
  lemma LookupFindsOwnTask(tasks: seq<Task>, packageId: string)
    requires (forall t | t in tasks :: WellNamed(t)) && DistinctIds(tasks) && ' ' !in packageId
    ensures var i := IndexOf(tasks, TaskIdFor(packageId));
            TaskForPackage(tasks, packageId) == if i < |tasks| then Some(tasks[i]) else None
  {
    var i := IndexOf(tasks, TaskIdFor(packageId));
    forall j | 0 <= j < |tasks| ensures MatchesPackage(tasks[j], packageId) <==> j == i {
      MatchIsOwn(tasks[j], packageId);
      assert tasks[j].packageId == tasks[j].id[5..] && packageId == TaskIdFor(packageId)[5..];
    }
    if i < |tasks| {
      OnlyMatchIsFound(tasks, i, packageId);
    } else {
      NoMatchFindsNothing(tasks, packageId);
    }
  }

  /** With a space inside a package id it can find somebody else's: looking up "A"
      returns the running task of the package "A B". */
  lemma LookupFindsForeignTask()
    ensures var own := NewTask("A", "x").(status := ReviewPassed);
            var other := NewTask("A B", "y").(status := Running);
            TaskForPackage([own, other], "A") == Some(other)
  {
    var own := NewTask("A", "x").(status := ReviewPassed);
    var other := NewTask("A B", "y").(status := Running);
    assert other.title == "A B y" && "A" + " " <= other.title;
    assert [own, other][1..] == [other] && [other][1..] == [];
    assert TaskForPackage([other], "A") == Some(other);
  }
}
