/** The mechanical gates between a worker's claim and a merge: the completed
    result check, package review and the human-approval rule
    (validation/worker_result.py, validation/review.py). */
module Gates {
  import opened Git
  import opened Paths
  import opened Project
  import opened Text
  import opened Wrappers

  // ---- requires_human_merge_approval -----------------------------------

  /** `str.lower` on the ASCII letters. */
  function Lower(s: string): string {
    seq(|s|, i requires 0 <= i < |s| =>
      if 'A' <= s[i] <= 'Z' then (s[i] as int - 'A' as int + 'a' as int) as char else s[i])
  }

  predicate RequiresHumanMergeApproval(p: Package) {
    p.approvalRequired || Lower(p.riskLevel) == "high" || Lower(p.riskLevel) == "critical" || p.mergePolicy == "manual"
  }

  /** `s` is the word, in upper or lower case letters. */
  ghost predicate SpellsWord(s: string, word: string) {
    |s| == |word| && forall i | 0 <= i < |s| :: s[i] == word[i] || s[i] as int + 32 == word[i] as int
  }

  /** A human must approve exactly when the package says so, in one of three ways; the
      case of the risk level does not matter. */
  lemma HumanApprovalMeans(p: Package)
    ensures RequiresHumanMergeApproval(p) <==>
              || p.approvalRequired || p.mergePolicy == "manual"
              || SpellsWord(p.riskLevel, "high") || SpellsWord(p.riskLevel, "critical")
  {
    LowerSpells(p.riskLevel, "high");
    LowerSpells(p.riskLevel, "critical");
  }

  lemma LowerSpells(s: string, word: string)
    requires forall i | 0 <= i < |word| :: 'a' <= word[i] <= 'z'
    ensures Lower(s) == word <==> SpellsWord(s, word)
  {
    if SpellsWord(s, word) {
      forall i | 0 <= i < |s| ensures Lower(s)[i] == word[i] {
      }
    }
    if Lower(s) == word {
      forall i | 0 <= i < |s| ensures s[i] == word[i] || s[i] as int + 32 == word[i] as int {
        assert Lower(s)[i] == word[i];
      }
    }
  }

  // ---- validate_completed_package --------------------------------------

  datatype CommitRef = Unreported | Resolves(id: CommitId) | Unresolvable

  datatype TestStatus = TestPassed | TestFailed | TestNotRun | TestOther

  /** A worker result with status `completed` or `success`. */
  datatype Report = Report(
    schemaOk: bool,
    branch: Option<string>,
    commit: CommitRef,
    files: Option<seq<string>>,
    tests: seq<TestStatus>)

  /** The check accepts a commit and the reported files, raises a
      `ValidationError`, or lets a Git error out. */
  datatype Verdict = Accepted(commit: CommitId, files: seq<string>) | Refused | GitFailed

  predicate TestsOk(tests: seq<TestStatus>) {
    forall t | t in tests :: t != TestFailed && t != TestNotRun
  }

  method ValidateCompletedPackage(p: Package, report: Report, repo: RepoState, tree: Option<Tree>) returns (v: Verdict)
    requires ValidRepo(repo)
    ensures v == CompletedVerdict(p, report, repo, tree)
  {
    if !report.schemaOk {
      return Refused;
    }
    if tree.None? {
      return GitFailed;
    }
    var actualBranch := tree.value.branch;
    var result := report;
    if result.commit == Unreported {
      if actualBranch !in repo.refs {
        return GitFailed;
      }
      result := result.(commit := Resolves(repo.refs[actualBranch]));
    }
    if result.branch.None? || result.branch == Some("") {
      result := result.(branch := Some(actualBranch));
    }
    if result.branch != Some(actualBranch) || actualBranch != p.branch {
      return Refused;
    }
    if actualBranch !in repo.refs || result.commit == Unresolvable {
      return GitFailed;
    }
    var actualHead := repo.refs[actualBranch];
    if result.commit != Resolves(actualHead) || tree.value.dirty {
      return Refused;
    }
    var changed := ListedFiles(repo.commits[actualHead]);
    if result.files.None? {
      result := result.(files := Some(changed));
    }
    var owned := ValidateOwnedPaths(changed, result.files.value, p.owned, p.forbidden);
    if owned.Err? || !TestsOk(result.tests) {
      return Refused;
    }
    return Accepted(actualHead, result.files.value);
  }

  function CompletedVerdict(p: Package, report: Report, repo: RepoState, tree: Option<Tree>): Verdict
    requires ValidRepo(repo)
  {
    if !report.schemaOk then Refused
    else if tree.None? then GitFailed
    else
      var b := tree.value.branch;
      if report.commit == Unreported && b !in repo.refs then GitFailed
      else if (report.branch.GetOr("") != "" && report.branch != Some(b)) || b != p.branch then Refused
      else if b !in repo.refs || report.commit == Unresolvable then GitFailed
      else
        var head := repo.refs[b];
        var changed := ListedFiles(repo.commits[head]);
        var files := report.files.GetOr(changed);
        if (report.commit != Unreported && report.commit != Resolves(head)) || tree.value.dirty then Refused
        else if ValidateOwnedPaths(changed, files, p.owned, p.forbidden).Err? then Refused
        else if !TestsOk(report.tests) then Refused
        else Accepted(head, files)
  }

  /** What the repository itself must show for a claim to be accepted. */
  ghost predicate Substantiated(p: Package, report: Report, repo: RepoState, tree: Option<Tree>) {
    && tree.Some? && !tree.value.dirty && tree.value.branch == p.branch && p.branch in repo.refs
    && repo.refs[p.branch] < |repo.commits|
    && (report.branch.GetOr("") == "" || report.branch == Some(p.branch))
    && (report.commit == Unreported || report.commit == Resolves(repo.refs[p.branch]))
    && Owned(ListedFiles(repo.commits[repo.refs[p.branch]]), p.owned, p.forbidden)
    && (report.files.Some? ==>
          NormalSet(report.files.value) == NormalSet(ListedFiles(repo.commits[repo.refs[p.branch]])))
    && TestFailed !in report.tests && TestNotRun !in report.tests
  }

  /** A completed result is accepted exactly if the facts in the worktree bear it
      out: a clean worktree on the package's branch, the reported commit being its
      HEAD, the paths Git lists for that commit being owned and not forbidden, a
      truthful list of them, and no failed or missing test. For a merge commit Git
      lists nothing. */
  lemma AcceptedIffSubstantiated(p: Package, report: Report, repo: RepoState, tree: Option<Tree>)
    requires ValidRepo(repo)
    ensures CompletedVerdict(p, report, repo, tree).Accepted? <==>
              report.schemaOk && Substantiated(p, report, repo, tree)
    ensures CompletedVerdict(p, report, repo, tree).Accepted? ==>
              var v := CompletedVerdict(p, report, repo, tree);
              v.commit == repo.refs[p.branch] && NormalSet(v.files) == NormalSet(ListedFiles(repo.commits[v.commit]))
  {
    if tree.Some? && tree.value.branch in repo.refs {
      var changed := ListedFiles(repo.commits[repo.refs[tree.value.branch]]);
      OwnedPathsAcceptedIff(changed, report.files.GetOr(changed), p.owned, p.forbidden);
    }
  }

  /** When Git cannot answer what the check asks: there is no worktree, a commit has to
      be looked up on a branch that is gone, or the claim names the right branch and
      either that is gone or the reported commit does not resolve. */
  ghost predicate GitFails(p: Package, report: Report, repo: RepoState, tree: Option<Tree>) {
    && report.schemaOk
    && (tree.Some? ==>
          var b := tree.value.branch;
          || (b !in repo.refs && report.commit == Unreported)
          || (b == p.branch && report.branch in {None, Some(""), Some(b)}
              && (b !in repo.refs || report.commit == Unresolvable)))
  }

  lemma GitFailsIff(p: Package, report: Report, repo: RepoState, tree: Option<Tree>)
    requires ValidRepo(repo)
    ensures CompletedVerdict(p, report, repo, tree) == GitFailed <==> GitFails(p, report, repo, tree)
  {
  }

  // ---- The rest of the branch ------------------------------------------

  /** A commit the package's branch would bring into the integration branch. */
  ghost predicate OfBranch(g: seq<Commit>, head: CommitId, tip: CommitId, c: CommitId)
    requires ValidGraph(g) && head < |g| && tip < |g|
  {
    c < |g| && Reaches(g, head, c) && !Reaches(g, tip, c)
  }

  ghost predicate BranchOwned(g: seq<Commit>, head: CommitId, tip: CommitId, p: Package)
    requires ValidGraph(g) && head < |g| && tip < |g|
  {
    forall c {:trigger g[c]} | 0 <= c < |g| && OfBranch(g, head, tip, c) :: Owned(g[c].files, p.owned, p.forbidden)
  }

  /** The same history and the same listing for `head`, whatever the commits really
      change. */
  ghost predicate Refilled(g: seq<Commit>, h: seq<Commit>, head: CommitId)
    requires head < |g|
  {
    && |h| == |g| && ListedFiles(h[head]) == ListedFiles(g[head])
    && forall c {:trigger h[c]} | 0 <= c < |g| :: h[c] == g[c].(files := h[c].files)
  }

  lemma {:induction false} RefilledReaches(g: seq<Commit>, h: seq<Commit>, head: CommitId, d: CommitId, a: CommitId)
    requires ValidGraph(g) && ValidGraph(h) && head < |g| && Refilled(g, h, head) && d < |g|
    ensures Reaches(g, d, a) <==> Reaches(h, d, a)
    decreases d
  {
    assert h[d].parents == g[d].parents;
    forall p | p in g[d].parents ensures Reaches(g, p, a) <==> Reaches(h, p, a) {
      RefilledReaches(g, h, head, p, a);
    }
  }

  lemma RefilledIsValid(g: seq<Commit>, h: seq<Commit>, head: CommitId)
    requires ValidGraph(g) && head < |g| && Refilled(g, h, head)
    ensures ValidGraph(h)
  {
    forall i | 0 <= i < |h| ensures forall p | p in h[i].parents :: p < i {
      assert h[i].parents == g[i].parents;
    }
  }

  lemma ClimbingIsNotOwned(p: Package)
    ensures !Owned([".."], p.owned, p.forbidden)
  {
    assert ".."[1] != "./"[1];
    NormalizeFixes("..");
    assert ".." in [".."];
    assert Components("..") == [".."] by {
      SplitAbsent("..", '/');
    }
  }

  /** Only what Git lists for the head commit is checked. Whatever the commits really
      change, an accepted branch respects the package's ownership as a whole exactly
      if it has no commit to bring in but a head with one parent. */
  lemma HeadCheckCoversBranchIff(p: Package, report: Report, repo: RepoState, tree: Option<Tree>, tip: CommitId)
    requires ValidRepo(repo) && Substantiated(p, report, repo, tree) && tip < |repo.commits|
    ensures var g, head := repo.commits, repo.refs[p.branch];
            (forall h | Refilled(g, h, head) :: ValidGraph(h) && BranchOwned(h, head, tip, p)) <==>
              forall c: CommitId | OfBranch(g, head, tip, c) :: c == head && |g[head].parents| == 1
    ensures forall h | Refilled(repo.commits, h, repo.refs[p.branch]) ::
              Substantiated(p, report, repo.(commits := h), tree)
  {
    var g, head := repo.commits, repo.refs[p.branch];
    forall h | Refilled(g, h, head) ensures ValidGraph(h)
      ensures forall c: CommitId :: OfBranch(g, head, tip, c) <==> OfBranch(h, head, tip, c)
    {
      RefilledIsValid(g, h, head);
      forall c: CommitId ensures OfBranch(g, head, tip, c) <==> OfBranch(h, head, tip, c) {
        RefilledReaches(g, h, head, head, c);
        RefilledReaches(g, h, head, tip, c);
      }
    }
    if c: CommitId :| OfBranch(g, head, tip, c) && !(c == head && |g[head].parents| == 1) {
      var h := g[c := g[c].(files := [".."])];
      assert Refilled(g, h, head);
      ClimbingIsNotOwned(p);
      assert h[c].files == [".."];
      assert OfBranch(h, head, tip, c);
    }
  }

  lemma PlainName(f: string, root: string)
    requires f != "" && f != ".." && SpaceFree(f) && '/' !in f && '\\' !in f
    requires root != "" && SpaceFree(root) && '/' !in root && '\\' !in root
    ensures PathIsWithin(f, root) <==> f == root
  {
    assert forall i | 0 <= i < |f| :: f[i] in f && f[i] != '/' && f[i] != '\\';
    assert forall i | 0 <= i < |root| :: root[i] in root && root[i] != '/' && root[i] != '\\';
    assert "./"[1] == '/' && (root + "/")[|root|] == '/';
    NormalizeFixes(f);
    NormalizeFixes(root);
    SplitAbsent(f, '/');
  }

  /** A worker commits outside its paths, then inside them: the claim is accepted. */
  lemma EarlierCommitIsNotChecked()
    ensures var p := Package("P", "one", [], ["src"], [], "low", "auto", false, false, "", "work", "tree");
            var repo := RepoState([Commit("c0", [], []), Commit("c1", [0], ["etc"]), Commit("c2", [1], ["src"])],
                                  map["main" := 0, "work" := 2], OnBranch("main"), true, map[], []);
            && ValidRepo(repo)
            && Substantiated(p, Report(true, None, Unreported, None, []), repo,
                             Some(Tree(true, true, true, "work", false)))
            && !BranchOwned(repo.commits, 2, 0, p)
  {
    EtcIsOutside();
    ChainOfThree(["etc"], ["src"]);
  }

  /** A worker merges the integration branch and changes another path on the way: Git
      lists nothing for the merge, and the claim is accepted. */
  lemma MergeHeadIsNotChecked()
    ensures var p := Package("P", "one", [], ["src"], [], "low", "auto", false, false, "", "work", "tree");
            var repo := RepoState([Commit("c0", [], []), Commit("c1", [0], ["src"]), Commit("c2", [0, 1], ["etc"])],
                                  map["main" := 1, "work" := 2], OnBranch("main"), true, map[], []);
            && ValidRepo(repo)
            && Substantiated(p, Report(true, None, Unreported, None, []), repo,
                             Some(Tree(true, true, true, "work", false)))
            && (forall c: CommitId | OfBranch(repo.commits, 2, 1, c) :: c == 2)
            && !BranchOwned(repo.commits, 2, 1, p)
  {
    EtcIsOutside();
    MergeOfTwo(["src"], ["etc"]);
  }

  lemma MergeOfTwo(first: seq<string>, second: seq<string>)
    ensures var g := [Commit("c0", [], []), Commit("c1", [0], first), Commit("c2", [0, 1], second)];
            && ValidGraph(g) && g[2].files == second && ListedFiles(g[2]) == []
            && forall c: CommitId :: OfBranch(g, 2, 1, c) <==> c == 2
  {
    var g := [Commit("c0", [], []), Commit("c1", [0], first), Commit("c2", [0, 1], second)];
    assert Reaches(g, 2, 2) && Reaches(g, 0, 0) && 0 in g[1].parents && Reaches(g, 1, 0) && Reaches(g, 1, 1);
    forall c: CommitId ensures OfBranch(g, 2, 1, c) <==> c == 2 {
      if Reaches(g, 1, c) {
        ReachesOlder(g, 1, c);
      }
    }
  }

  lemma ThreeLetters(s: string)
    requires |s| == 3 && 'a' <= s[0] <= 'z' && 'a' <= s[1] <= 'z' && 'a' <= s[2] <= 'z'
    ensures SpaceFree(s) && '/' !in s && '\\' !in s && s != "" && s != ".."
  {
  }

  lemma EtcIsOutside()
    ensures Owned(["src"], ["src"], []) && !Owned(["etc"], ["src"], [])
  {
    ThreeLetters("src");
    ThreeLetters("etc");
    PlainName("src", "src");
    PlainName("etc", "src");
    assert "etc"[0] != "src"[0];
    assert "etc" in ["etc"];
  }

  lemma ChainOfThree(first: seq<string>, second: seq<string>)
    ensures var g := [Commit("c0", [], []), Commit("c1", [0], first), Commit("c2", [1], second)];
            ValidGraph(g) && OfBranch(g, 2, 0, 1) && g[1].files == first && g[2].files == second
  {
    var g := [Commit("c0", [], []), Commit("c1", [0], first), Commit("c2", [1], second)];
    assert 1 in g[2].parents && Reaches(g, 1, 1);
  }

  // ---- run_package_review ----------------------------------------------

  const LOCAL_REVIEWER: string := "railwarden-local-reviewer"

  function Reviewer(p: Package, reviewerProvider: string): string {
    if reviewerProvider != "" then reviewerProvider
    else if p.reviewerProfile != "" then p.reviewerProfile
    else LOCAL_REVIEWER
  }

  datatype Finding = SameProvider | ValidationNotPassed | OutsideContract(error: OwnershipError)

  method RunPackageReview(p: Package, worker: string, reviewerProvider: string,
                          files: seq<string>, validated: bool) returns (passed: bool, findings: seq<Finding>)
    ensures passed == ReviewPasses(p, worker, reviewerProvider, files, validated)
    ensures passed <==> findings == []
    ensures SameProvider in findings <==> Reviewer(p, reviewerProvider) == worker && p.reviewRequired
    ensures ValidationNotPassed in findings <==> !validated
  {
    passed, findings := true, [];
    if Reviewer(p, reviewerProvider) == worker && p.reviewRequired {
      passed, findings := false, findings + [SameProvider];
    }
    if !validated {
      passed, findings := false, findings + [ValidationNotPassed];
    }
    var owned := ValidateOwnedPaths(files, files, p.owned, p.forbidden);
    OwnedPathsAcceptedIff(files, files, p.owned, p.forbidden);
    if owned.Err? {
      passed, findings := false, findings + [OutsideContract(owned.error)];
    }
  }

  /** A review passes when package validation passed, the files respect the
      contract, and, if a review is required, the reviewer is not the worker: the given
      one, or else the package's own, or else the local one. */
  ghost predicate ReviewPasses(p: Package, worker: string, reviewerProvider: string,
                               files: seq<string>, validated: bool)
  {
    && validated
    && Owned(files, p.owned, p.forbidden)
    && (p.reviewRequired ==>
          && (reviewerProvider != "" ==> worker != reviewerProvider)
          && (reviewerProvider == "" && p.reviewerProfile != "" ==> worker != p.reviewerProfile)
          && (reviewerProvider == "" && p.reviewerProfile == "" ==> worker != "railwarden-local-reviewer"))
  }
}
