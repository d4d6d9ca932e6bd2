/** Checkpoint commits: stage everything, unstage what the package may not
    touch, commit the rest (runtime/checkpoints.py). */
module Checkpoints {
  import opened Text
  import opened Wrappers
  import opened Paths

  /** The filter's own containment test: only trailing slashes of the allowed
      path are cut, the staged name is taken as Git prints it. */
  predicate Allows(item: string, allowed: string) {
    StringWithin(item, StripTrailing(allowed, '/'))
  }

  predicate AllowedByAny(item: string, allowed: seq<string>) {
    exists a | a in allowed :: Allows(item, a)
  }

  function Select(items: seq<string>, allowed: seq<string>, keep: bool): (r: seq<string>)
    ensures forall f :: f in r <==> f in items && AllowedByAny(f, allowed) == keep
  {
    if items == [] then []
    else (if AllowedByAny(items[0], allowed) == keep then [items[0]] else [])
         + Select(items[1..], allowed, keep)
  }

  function Names(items: seq<string>): set<string> {
    set f | f in items
  }

  function Without(items: seq<string>, gone: set<string>): (r: seq<string>)
    ensures forall f :: f in r <==> f in items && f !in gone
  {
    if items == [] then []
    else (if items[0] in gone then [] else [items[0]]) + Without(items[1..], gone)
  }

  datatype CheckpointError = OnIntegrationBranch | DetachedHead | CommitRejected

  datatype Checkpoint = Checkpoint(created: bool, files: seq<string>)

  /** Which paths of an index `diff --cached --name-only` leaves out: rename
      detection shows a moved file under its new name only. */
  type Hiding = seq<string> -> set<string>

  function Listed(index: seq<string>, hides: Hiding): (r: seq<string>)
    ensures forall f :: f in r <==> f in index && f !in hides(index)
  {
    Without(index, hides(index))
  }

  /** A package worktree: `pending` names every path that differs from HEAD,
      `index` the part of it that is staged, `history` the paths each commit made
      here changes. */
  class Workspace {
    const hides: Hiding
    var branch: string
    var pending: seq<string>
    var index: seq<string>
    var history: seq<seq<string>>

    constructor (hides: Hiding, branch: string, pending: seq<string>)
      ensures this.hides == hides && this.branch == branch && this.pending == pending
      ensures index == [] && history == []
    {
      this.hides, this.branch, this.pending := hides, branch, pending;
      index, history := [], [];
    }

    /** `_staged_files` */
    method StagedFiles() returns (files: seq<string>)
      ensures files == Listed(index, hides)
    {
      files := Listed(index, hides);
    }

    method AddAll()
      modifies this`index
      ensures index == pending
    {
      index := pending;
    }

    method RestoreStaged(items: seq<string>)
      modifies this`index
      ensures index == Without(old(index), Names(items))
    {
      index := Without(index, Names(items));
    }

    method UnstageDisallowed(allowed: seq<string>)
      modifies this`index
      ensures index == Filtered(old(index), allowed, hides)
    {
      var files := StagedFiles();
      var disallowed := Select(files, allowed, false);
      if disallowed != [] {
        RestoreStaged(disallowed);
      } else {
        assert Names(disallowed) == {};
        WithoutNothing(index);
      }
    }

    method Commit()
      modifies this
      ensures history == old(history) + [old(index)]
      ensures pending == Without(old(pending), Names(old(index))) && index == [] && branch == old(branch)
    {
      history := history + [index];
      pending := Without(pending, Names(index));
      index := [];
    }

    /** `hookAccepts` is what Git's commit answers. A refusal leaves HEAD alone. */
    method CreateCheckpointCommit(integrationBranch: string, allowed: seq<string>, hookAccepts: bool)
        returns (r: Result<Checkpoint, CheckpointError>)
      modifies this
      ensures branch == old(branch)
      ensures r == CheckpointOutcome(old(branch), old(pending), integrationBranch, allowed, hides, hookAccepts)
      ensures r.Ok? && r.value.created ==>
                var committed := CheckpointIndex(old(pending), allowed, hides);
                && history == old(history) + [committed] && index == []
                && pending == Without(old(pending), Names(committed))
      ensures !(r.Ok? && r.value.created) ==> history == old(history) && pending == old(pending)
    {
      if branch == integrationBranch {
        return Err(OnIntegrationBranch);
      }
      if branch == "" {
        return Err(DetachedHead);
      }
      AddAll();
      if allowed != [] {
        UnstageDisallowed(allowed);
      }
      var files := StagedFiles();
      if files == [] {
        return Ok(Checkpoint(false, []));
      }
      if !hookAccepts {
        return Err(CommitRejected);
      }
      Commit();
      return Ok(Checkpoint(true, files));
    }
  }

  lemma {:induction false} WithoutNothing(items: seq<string>)
    ensures Without(items, {}) == items
  {
    if items != [] {
      WithoutNothing(items[1..]);
      assert items == [items[0]] + items[1..];
    }
  }

  /** The index once the listed names outside the allowed paths are unstaged. */
  function Filtered(index: seq<string>, allowed: seq<string>, hides: Hiding): (r: seq<string>)
    ensures forall f :: f in r <==> f in index && (f in hides(index) || AllowedByAny(f, allowed))
  {
    Without(index, Names(Select(Listed(index, hides), allowed, false)))
  }

  /** What is staged when the checkpoint commits. */
  function CheckpointIndex(pending: seq<string>, allowed: seq<string>, hides: Hiding): seq<string> {
    if allowed == [] then pending else Filtered(pending, allowed, hides)
  }

  function CheckpointOutcome(branch: string, pending: seq<string>, integrationBranch: string, allowed: seq<string>,
                             hides: Hiding, hookAccepts: bool): Result<Checkpoint, CheckpointError>
  {
    var files := Listed(CheckpointIndex(pending, allowed, hides), hides);
    if branch == integrationBranch then Err(OnIntegrationBranch)
    else if branch == "" then Err(DetachedHead)
    else if files == [] then Ok(Checkpoint(false, []))
    else if !hookAccepts then Err(CommitRejected)
    else Ok(Checkpoint(true, files))
  }

  /** A file name as Git lists it, free of whitespace and backslashes. */
  ghost predicate GitName(f: string) {
    && f != [] && SpaceFree(f) && '\\' !in f
    && forall c | c in Components(f) :: c != "" && c != "." && c != ".."
  }

  lemma {:induction false} ComponentsEndWithSlash(f: string)
    requires f != [] && f[|f| - 1] == '/'
    ensures "" in Components(f)
  {
    if |f| == 1 {
      assert f == "/";
      assert Components(f)[0] == "";
    } else {
      var tail := Components(f[1..]);
      ComponentsEndWithSlash(f[1..]);
      if f[0] != '/' && tail[0] == "" {
        LastComponentEmpty(f[1..]);
        assert tail[|tail| - 1] == "" && |tail| > 1;
        assert Components(f)[|tail| - 1] == "";
      } else {
        var k :| 0 <= k < |tail| && tail[k] == "";
        assert f[0] == '/' ==> Components(f)[k + 1] == "";
        assert f[0] != '/' ==> Components(f)[k] == "";
      }
    }
  }

  lemma {:induction false} LastComponentEmpty(f: string)
    requires f != [] && f[|f| - 1] == '/'
    ensures var c := Components(f); |c| > 1 && c[|c| - 1] == ""
  {
    if |f| == 1 {
      assert f == "/";
      assert Components(f) == [[]] + Components([]);
    } else {
      LastComponentEmpty(f[1..]);
    }
  }

  lemma FirstComponent(f: string)
    ensures "/" <= f ==> Components(f)[0] == ""
    ensures "./" <= f ==> Components(f)[0] == "."
  {
    if "./" <= f {
      assert f[0] == '.' && f[1..][0] == '/';
      assert Components(f[1..])[0] == "";
    }
  }

  lemma GitNameIsNormal(f: string)
    requires GitName(f)
    ensures Normalize(f) == f && !Escapes(f)
  {
    var c := Components(f);
    if f[|f| - 1] == '/' {
      ComponentsEndWithSlash(f);
      assert false;
    }
    FirstComponent(f);
    assert c[0] in c;
    NormalizeFixes(f);
  }

  /** Every file the filter lets into a checkpoint is inside an owned root as the
      ownership check sees it; and a file inside an owned root written in normal
      form is never filtered out. */
  lemma CheckpointRefinesOwnership(item: string, allowed: seq<string>)
    requires GitName(item)
    ensures AllowedByAny(item, allowed) ==> WithinAny(item, allowed)
    ensures (forall a | a in allowed :: Normalize(a) == StripTrailing(a, '/')) ==>
              (AllowedByAny(item, allowed) <==> WithinAny(item, allowed))
  {
    GitNameIsNormal(item);
    if AllowedByAny(item, allowed) {
      var a :| a in allowed && Allows(item, a);
      AllowedRootIsNormal(item, a);
      assert PathIsWithin(item, a);
    }
    if WithinAny(item, allowed) && forall a | a in allowed :: Normalize(a) == StripTrailing(a, '/') {
      var a :| a in allowed && PathIsWithin(item, a);
      assert Allows(item, a);
    }
  }

  lemma AllowedRootIsNormal(item: string, a: string)
    requires GitName(item) && Allows(item, a)
    ensures Normalize(a) == StripTrailing(a, '/')
  {
    var t := StripTrailing(a, '/');
    StripTrailingIsPrefix(a, '/');
    GitNameIsNormal(item);
    assert t <= item;
    assert forall i | 0 <= i < |t| :: t[i] == item[i];
    SlashTail(a);
    assert forall i | 0 <= i < |a| :: a[i] == '/' || a[i] == t[i];
    assert t == [] ==> false by {
      FirstComponent(item);
    }
    StripKeeps(a);
    assert Replace(a, '\\', '/') == a;
    FirstComponent(item);
    assert Components(item)[0] in Components(item);
    assert |t| >= 2 && "./" <= a ==> "./" <= item;
    SplitAbsent(".", '/');
    assert |t| == 1 && "./" <= a ==> t == "." && t + "/" == "./";
    assert item != "." && !("./" <= item);
    assert !("./" <= a);
  }

  lemma {:induction false} SlashTail(a: string)
    ensures var t := StripTrailing(a, '/'); |t| <= |a| && forall i | |t| <= i < |a| :: a[i] == '/'
  {
    if a != [] && a[|a| - 1] == '/' {
      SlashTail(a[..|a| - 1]);
      var t := StripTrailing(a, '/');
      forall i | |t| <= i < |a| ensures a[i] == '/' {
        if i < |a| - 1 {
          assert a[..|a| - 1][i] == a[i];
        }
      }
    }
  }

  /** A path is hidden only behind a listed one: the new name of the file. */
  ghost predicate ShowsNewNames(hides: Hiding) {
    forall index: seq<string> {:trigger Listed(index, hides)} | index != [] :: Listed(index, hides) != []
  }

  /** The paths a checkpoint commit of this worktree changes. */
  function CheckpointChanges(pending: seq<string>, allowed: seq<string>, hides: Hiding): seq<string> {
    var index := CheckpointIndex(pending, allowed, hides);
    if Listed(index, hides) == [] then [] else index
  }

  /** What a checkpoint commits, exactly: of what is pending everything, if no paths are
      owned, and else what lies in an owned root or is hidden from the listing. Owned
      work is never left behind. */
  lemma CheckpointTakesExactly(pending: seq<string>, allowed: seq<string>, hides: Hiding)
    requires ShowsNewNames(hides) && forall f | f in pending :: GitName(f)
    requires forall a | a in allowed :: Normalize(a) == StripTrailing(a, '/')
    ensures forall f :: f in CheckpointChanges(pending, allowed, hides) <==>
              f in pending && (allowed == [] || f in hides(pending) || WithinAny(f, allowed))
  {
    var index := CheckpointIndex(pending, allowed, hides);
    assert index != [] ==> Listed(index, hides) != [];
    forall f | f in pending ensures AllowedByAny(f, allowed) <==> WithinAny(f, allowed) {
      CheckpointRefinesOwnership(f, allowed);
    }
    assert forall f :: f in index <==> f in CheckpointChanges(pending, allowed, hides);
  }

  /** How a checkpoint ends, exactly: it is forbidden on the integration branch and on a
      detached HEAD, does nothing when nothing is listed, and otherwise commits unless
      Git refuses; it reports the listing of what it commits. */
  lemma CheckpointEndsExactly(branch: string, pending: seq<string>, integrationBranch: string,
                              allowed: seq<string>, hides: Hiding, hookAccepts: bool)
    requires ShowsNewNames(hides)
    ensures var r := CheckpointOutcome(branch, pending, integrationBranch, allowed, hides, hookAccepts);
            var changes := CheckpointChanges(pending, allowed, hides);
            var permitted := branch != integrationBranch && branch != "";
            && (r == Err(OnIntegrationBranch) <==> branch == integrationBranch)
            && (r == Err(DetachedHead) <==> branch != integrationBranch && branch == "")
            && (r == Err(CommitRejected) <==> permitted && changes != [] && !hookAccepts)
            && (r == Ok(Checkpoint(false, [])) <==> permitted && changes == [])
            && (r.Ok? && r.value.created <==> permitted && changes != [] && hookAccepts)
            && (r.Ok? ==> forall f :: f in r.value.files <==> f in changes && f !in hides(changes))
  {
    var index := CheckpointIndex(pending, allowed, hides);
    assert index != [] ==> Listed(index, hides) != [];
  }

  /** When a checkpoint stays inside the package: exactly if nothing is pending, or
      the package names owned paths and the listing hides no path outside them.
      Without owned paths the filter is skipped and the whole worktree is
      committed; and a file moved into an owned path takes its deletion elsewhere
      past the filter. */
  lemma CheckpointStaysOwnedIff(pending: seq<string>, allowed: seq<string>, hides: Hiding)
    requires ShowsNewNames(hides) && forall f | f in pending :: GitName(f)
    ensures (forall f | f in CheckpointChanges(pending, allowed, hides) :: WithinAny(f, allowed)) <==>
              || pending == []
              || (allowed != [] && forall f | f in pending && f in hides(pending) :: WithinAny(f, allowed))
  {
    var index := CheckpointIndex(pending, allowed, hides);
    assert index != [] ==> Listed(index, hides) != [];
    forall f | f in pending && AllowedByAny(f, allowed) ensures WithinAny(f, allowed) {
      CheckpointRefinesOwnership(f, allowed);
    }
    if pending != [] {
      assert pending[0] in pending;
      assert allowed == [] ==> pending[0] in CheckpointChanges(pending, allowed, hides);
    }
    assert forall f | f in index :: f in CheckpointChanges(pending, allowed, hides);
  }

  /** `source` moved to `dest`: while both names are staged, the old one is hidden. */
  function Moved(source: string, dest: string): Hiding {
    index => if source in index && dest in index then {source} else {}
  }

  lemma MovedShowsNewName(source: string, dest: string)
    requires source != dest
    ensures ShowsNewNames(Moved(source, dest))
  {
    var hides := Moved(source, dest);
    forall index: seq<string> {:trigger Listed(index, hides)} | index != [] ensures Listed(index, hides) != [] {
      if source in index && dest in index {
        assert dest in Listed(index, hides);
      } else {
        assert index[0] in Listed(index, hides);
      }
    }
  }

  lemma SourceStaysStaged(source: string, dest: string, allowed: seq<string>)
    requires source != dest && allowed != []
    ensures source in CheckpointChanges([source, dest], allowed, Moved(source, dest))
  {
    MovedShowsNewName(source, dest);
    var pending, hides := [source, dest], Moved(source, dest);
    assert pending[0] == source && pending[1] == dest;
    var index := CheckpointIndex(pending, allowed, hides);
    assert source in index;
    assert Listed(index, hides) != [];
  }

  /** A file moved from `out` to `own`: the commit of the package that owns `own`
      deletes `out/f`. */
  lemma RenameEscapesFilter()
    ensures ShowsNewNames(Moved("out/f", "own/f"))
    ensures "out/f" in CheckpointChanges(["out/f", "own/f"], ["own"], Moved("out/f", "own/f"))
    ensures !WithinAny("out/f", ["own"])
  {
    assert "own/f"[1] != "out/f"[1];
    MovedShowsNewName("out/f", "own/f");
    SourceStaysStaged("out/f", "own/f", ["own"]);
    OutIsNotOwn();
  }

  lemma OutIsNotOwn()
    ensures !WithinAny("out/f", ["own"])
  {
    assert "out/f"[0] != "./"[0] && "own"[0] != "./"[0];
    NormalizeFixes("out/f");
    NormalizeFixes("own");
    assert "own"[1] != "out/f"[1] && ("own" + "/")[1] != "out/f"[1];
  }

  /** A package without owned paths commits whatever is there. */
  lemma UnownedCheckpointCommitsAll(hides: Hiding)
    requires ShowsNewNames(hides)
    ensures CheckpointChanges(["a"], [], hides) == ["a"] && !WithinAny("a", [])
  {
    assert Listed(["a"], hides) != [];
  }
}
