/** An abstract Git repository: the commit graph, branches, HEAD, whether tracked
    files are clean, and the untracked entries of the working tree (git.py). */
module Git {
  import opened Wrappers

  /** Commits are numbered as they are created, so a parent has a smaller number. */
  type CommitId = nat

  /** `files` are the paths the commit itself changes: against its parent, and for a
      merge those its resolution changed. */
  datatype Commit = Commit(hash: string, parents: seq<CommitId>, files: seq<string>)

  predicate ValidGraph(g: seq<Commit>) {
    forall i {:trigger g[i].parents} | 0 <= i < |g| :: forall p | p in g[i].parents :: p < i
  }

  /** `merge-base --is-ancestor a d` */
  predicate Reaches(g: seq<Commit>, d: CommitId, a: CommitId)
    requires ValidGraph(g) && d < |g|
    decreases d
  {
    d == a || exists p | p in g[d].parents :: Reaches(g, p, a)
  }

  lemma {:induction false} ReachesOlder(g: seq<Commit>, d: CommitId, a: CommitId)
    requires ValidGraph(g) && d < |g| && Reaches(g, d, a)
    ensures a <= d
    decreases d
  {
    if d != a {
      var p :| p in g[d].parents && Reaches(g, p, a);
      ReachesOlder(g, p, a);
    }
  }

  lemma {:induction false} ReachesTransitive(g: seq<Commit>, d: CommitId, m: CommitId, a: CommitId)
    requires ValidGraph(g) && d < |g| && Reaches(g, d, m) && m < |g| && Reaches(g, m, a)
    ensures Reaches(g, d, a)
    decreases d
  {
    if d != m {
      var p :| p in g[d].parents && Reaches(g, p, m);
      ReachesTransitive(g, p, m, a);
    }
  }

  /** New commits never change who reaches whom among the old ones. */
  lemma {:induction false} ReachesStable(g: seq<Commit>, h: seq<Commit>, d: CommitId, a: CommitId)
    requires ValidGraph(g) && ValidGraph(h) && g <= h && d < |g|
    ensures Reaches(g, d, a) <==> Reaches(h, d, a)
    decreases d
  {
    assert g[d] == h[d];
    forall p | p in g[d].parents ensures Reaches(g, p, a) <==> Reaches(h, p, a) {
      ReachesStable(g, h, p, a);
    }
  }

  datatype Head = OnBranch(name: string) | Detached(at: CommitId)

  /** What `diff-tree --name-only` lists without further flags: nothing for a merge
      commit or a root. */
  function ListedFiles(c: Commit): seq<string> {
    if |c.parents| == 1 then c.files else []
  }

  /** An untracked entry as `ls-files --others` lists it, by what deleting it does:
      a file, a link or an empty directory goes; an embedded repository, or a name
      that Git prints quoted, stays; a name that loses whitespace at the ends of the
      listing may hit a tracked file of the shorter name; a file in a read-only
      directory raises. */
  datatype Entry = Goes | Stays | HitsTracked | Raises

  datatype Command = Command(name: string, required: bool, outputs: seq<string>)

  /** One validation command run on one commit. */
  datatype Run = Run(command: Command, at: CommitId, passed: bool)

  /** `log` is a history variable: every validation result ever recorded here. */
  datatype RepoState = RepoState(
    commits: seq<Commit>,
    refs: map<string, CommitId>,
    head: Head,
    clean: bool,
    untracked: map<string, Entry>,
    log: seq<Run>)

  ghost predicate ValidRepo(s: RepoState) {
    && ValidGraph(s.commits)
    && (forall b | b in s.refs :: s.refs[b] < |s.commits|)
    && match s.head
       case OnBranch(b) => b in s.refs
       case Detached(c) => c < |s.commits|
  }

  function HeadCommit(s: RepoState): CommitId
    requires ValidRepo(s)
  {
    match s.head
    case OnBranch(b) => s.refs[b]
    case Detached(c) => c
  }

  /** `branch --show-current`: empty when HEAD is detached. */
  function CurrentBranch(s: RepoState): Option<string> {
    match s.head
    case OnBranch(b) => Some(b)
    case Detached(_) => None
  }

  predicate IsAncestor(s: RepoState, branch: string, descendant: string)
    requires ValidRepo(s)
  {
    branch in s.refs && descendant in s.refs && Reaches(s.commits, s.refs[descendant], s.refs[branch])
  }

  /** The checked-out branch gets a commit with the given parents. */
  function Committed(s: RepoState, commit: Commit): RepoState
    requires s.head.OnBranch?
  {
    s.(commits := s.commits + [commit], refs := s.refs[s.head.name := |s.commits|])
  }

  lemma CommittedValid(s: RepoState, commit: Commit)
    requires ValidRepo(s) && s.head.OnBranch? && forall p | p in commit.parents :: p < |s.commits|
    ensures ValidRepo(Committed(s, commit))
    ensures s.commits <= Committed(s, commit).commits
  {
    var t := Committed(s, commit);
    forall i | 0 <= i < |t.commits| ensures forall p | p in t.commits[i].parents :: p < i {
      assert i < |s.commits| ==> t.commits[i] == s.commits[i];
    }
  }

  // ---- The working copy ------------------------------------------------

  /** How a validation command ended: with an exit code, without a working directory
      to run in, or in an exception that is no `ValidationError` (output that is not
      UTF-8, say). */
  datatype Ending = Exited(code: int) | BadDirectory | Crashed

  /** What a validation command did to the working tree. It neither moves refs
      nor HEAD. */
  datatype Effect = Effect(ending: Ending, clean: bool, untracked: map<string, Entry>)

  class Repository {
    var commits: seq<Commit>
    var refs: map<string, CommitId>
    var head: Head
    var clean: bool
    var untracked: map<string, Entry>
    var log: seq<Run>

    constructor (commits: seq<Commit>, refs: map<string, CommitId>, head: Head)
      requires ValidRepo(RepoState(commits, refs, head, true, map[], []))
      ensures State() == RepoState(commits, refs, head, true, map[], [])
    {
      this.commits, this.refs, this.head := commits, refs, head;
      clean, untracked, log := true, map[], [];
    }

    function State(): RepoState
      reads this
    {
      RepoState(commits, refs, head, clean, untracked, log)
    }

    method Branch() returns (b: Option<string>)
      ensures b == CurrentBranch(State())
    {
      match head
      case OnBranch(name) => b := Some(name);
      case Detached(_) => b := None;
    }

    method BranchIsAncestor(branch: string, descendant: string) returns (r: bool)
      requires ValidRepo(State())
      ensures r == IsAncestor(State(), branch, descendant)
    {
      r := branch in refs && descendant in refs && Reaches(commits, refs[descendant], refs[branch]);
    }

    /** `git switch`: on success only HEAD changes. */
    method Switch(branch: string, succeeds: bool)
      modifies this`head
      ensures State() == old(State()).(head := if succeeds then OnBranch(branch) else old(head))
    {
      if succeeds {
        head := OnBranch(branch);
      }
    }

    method CommitHere(commit: Commit)
      requires head.OnBranch?
      modifies this
      ensures State() == Committed(old(State()), commit)
    {
      refs := refs[head.name := |commits|];
      commits := commits + [commit];
    }

    /** `git reset --hard` of the checked-out branch. */
    method ResetHard(target: CommitId, succeeds: bool)
      requires head.OnBranch?
      modifies this
      ensures State() == if succeeds
                then old(State()).(refs := old(refs)[old(head).name := target], clean := true)
                else old(State())
    {
      if succeeds {
        refs := refs[head.name := target];
        clean := true;
      }
    }
  }
}
