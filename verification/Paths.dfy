/** Repository paths: normalisation, containment and the ownership check that
    gates a package's changed files (validation/paths.py). */
module Paths {
  import opened Text
  import opened Wrappers

  // ---- normalize_repo_path ---------------------------------------------

  function DropDotSlash(s: string): string {
    if "./" <= s then DropDotSlash(s[2..]) else s
  }

  function Normalize(path: string): string {
    StripTrailing(DropDotSlash(Replace(Strip(path), '\\', '/')), '/')
  }

  method NormalizeRepoPath(path: string) returns (r: string)
    ensures r == Normalize(path)
  {
    var normalized := Replace(Strip(path), '\\', '/');
    while "./" <= normalized
      invariant DropDotSlash(normalized) == DropDotSlash(Replace(Strip(path), '\\', '/'))
      decreases |normalized|
    {
      normalized := normalized[2..];
    }
    return StripTrailing(normalized, '/');
  }

  lemma {:induction false} DropDotSlashIsSuffix(s: string)
    ensures |DropDotSlash(s)| <= |s| && DropDotSlash(s) == s[|s| - |DropDotSlash(s)|..]
    ensures !("./" <= DropDotSlash(s))
  {
    if "./" <= s {
      var rest := s[2..];
      DropDotSlashIsSuffix(rest);
      var d := DropDotSlash(rest);
      assert DropDotSlash(s) == d;
      assert rest[|rest| - |d|..] == s[|s| - |d|..];
    }
  }

  ghost predicate SliceOf(t: string, s: string) {
    exists lo, hi | 0 <= lo <= hi <= |s| :: t == s[lo..hi]
  }

  lemma StripIsSlice(s: string)
    ensures SliceOf(Strip(s), s)
  {
    StripLeftIsSuffix(s);
    StripRightIsPrefix(StripLeft(s));
    var l, k := |s| - |StripLeft(s)|, |Strip(s)|;
    assert Strip(s) == StripLeft(s)[..k] == s[l..l + k];
  }

  lemma NormalizeIsSlice(path: string)
    ensures SliceOf(Normalize(path), Replace(Strip(path), '\\', '/'))
  {
    var r := Replace(Strip(path), '\\', '/');
    DropDotSlashIsSuffix(r);
    StripTrailingIsPrefix(DropDotSlash(r), '/');
    var l, k := |r| - |DropDotSlash(r)|, |Normalize(path)|;
    assert Normalize(path) == DropDotSlash(r)[..k] == r[l..l + k];
  }

  /** Normalising only drops characters and turns `\` into `/`. */
  lemma NormalizedCharacters(path: string)
    ensures forall i | 0 <= i < |Normalize(path)| ::
              var c := Normalize(path)[i]; c != '\\' && (c == '/' || c in path)
  {
    StripIsSlice(path);
    NormalizeIsSlice(path);
    var s := Strip(path);
    var r := Replace(s, '\\', '/');
    var lo, hi :| 0 <= lo <= hi <= |r| && Normalize(path) == r[lo..hi];
    forall i | 0 <= i < |Normalize(path)|
      ensures Normalize(path)[i] != '\\' && (Normalize(path)[i] == '/' || Normalize(path)[i] in path)
    {
      assert Normalize(path)[i] == r[lo + i];
      assert s[lo + i] in path;
    }
  }

  /** What every normalised path looks like. */
  lemma NormalizedShape(path: string)
    ensures var n := Normalize(path);
            !("./" <= n) && (n == [] || n[|n| - 1] != '/')
  {
    var r := Replace(Strip(path), '\\', '/');
    DropDotSlashIsSuffix(r);
    StripTrailingIsPrefix(DropDotSlash(r), '/');
    var n, d := Normalize(path), DropDotSlash(r);
    assert forall i | 0 <= i < |n| :: n[i] == d[i];
  }

  /** A string already in the normalised shape, without boundary whitespace,
      is its own normal form. */
  lemma NormalizeFixes(n: string)
    requires forall i | 0 <= i < |n| :: n[i] != '\\'
    requires !("./" <= n) && (n == [] || n[|n| - 1] != '/')
    requires n == [] || (!IsSpace(n[0]) && !IsSpace(n[|n| - 1]))
    ensures Normalize(n) == n
  {
    StripKeeps(n);
    assert Replace(n, '\\', '/') == n;
  }

  lemma NormalizeNeverGrows(path: string)
    ensures |Normalize(path)| <= |Strip(path)|
  {
    var r := Replace(Strip(path), '\\', '/');
    DropDotSlashIsSuffix(r);
    StripTrailingIsPrefix(DropDotSlash(r), '/');
  }

  /** What normalising means, in one equation: the path is whitespace, then any number of
      `./`, the normal form and any number of `/`, written with `/` or `\`, then
      whitespace. */
  ghost predicate NormalFormOf(n: string, path: string, before: string, middle: string, after: string,
                               dots: nat, slashes: nat)
  {
    && path == before + middle + after && (forall c | c in before + after :: IsSpace(c))
    && (middle != [] ==> !IsSpace(middle[0]) && !IsSpace(middle[|middle| - 1]))
    && Unslashed(middle, Dots(dots) + n + Slashes(slashes))
    && !("./" <= n + Slashes(slashes)) && (n == [] || n[|n| - 1] != '/')
  }

  lemma NormalizeMeans(path: string)
      returns (before: string, middle: string, after: string, dots: nat, slashes: nat)
    ensures NormalFormOf(Normalize(path), path, before, middle, after, dots, slashes)
  {
    middle := Strip(path);
    before, after := Margins(path);
    dots, slashes := CutEnds(Replace(middle, '\\', '/'));
  }

  lemma CutEnds(r: string) returns (dots: nat, slashes: nat)
    ensures var n := StripTrailing(DropDotSlash(r), '/');
            && r == Dots(dots) + n + Slashes(slashes)
            && !("./" <= n + Slashes(slashes)) && (n == [] || n[|n| - 1] != '/')
  {
    dots := CutDots(r);
    slashes := CutSlashes(DropDotSlash(r));
    var n := StripTrailing(DropDotSlash(r), '/');
    assert Dots(dots) + (n + Slashes(slashes)) == Dots(dots) + n + Slashes(slashes);
  }

  /** The same text, with `\` for some `/`. */
  ghost predicate Unslashed(s: string, t: string) {
    |s| == |t| && forall i | 0 <= i < |s| :: t[i] == if s[i] == '\\' then '/' else s[i]
  }

  ghost function Dots(k: nat): string {
    if k == 0 then "" else "./" + Dots(k - 1)
  }

  ghost function Slashes(k: nat): string {
    seq(k, i => '/')
  }

  lemma Margins(path: string) returns (before: string, after: string)
    ensures forall c | c in before + after :: IsSpace(c)
    ensures path == before + Strip(path) + after
    ensures Strip(path) == [] || (!IsSpace(Strip(path)[0]) && !IsSpace(Strip(path)[|Strip(path)| - 1]))
  {
    before := LeftMargin(path);
    after := RightMargin(StripLeft(path));
    StripLeftIsSuffix(path);
    StripRightIsPrefix(StripLeft(path));
    assert path == before + (Strip(path) + after);
    assert Strip(path) != [] ==> Strip(path)[0] == StripLeft(path)[0];
  }

  lemma {:induction false} LeftMargin(s: string) returns (before: string)
    ensures s == before + StripLeft(s) && forall c | c in before :: IsSpace(c)
  {
    before := [];
    if s != [] && IsSpace(s[0]) {
      before := LeftMargin(s[1..]);
      assert s == [s[0]] + s[1..] == [s[0]] + before + StripLeft(s);
      before := [s[0]] + before;
    }
  }

  lemma {:induction false} RightMargin(s: string) returns (after: string)
    ensures s == StripRight(s) + after && forall c | c in after :: IsSpace(c)
  {
    after := [];
    if s != [] && IsSpace(s[|s| - 1]) {
      after := RightMargin(s[..|s| - 1]);
      assert s == s[..|s| - 1] + [s[|s| - 1]] == StripRight(s) + (after + [s[|s| - 1]]);
      after := after + [s[|s| - 1]];
    }
  }

  lemma {:induction false} CutDots(r: string) returns (k: nat)
    ensures r == Dots(k) + DropDotSlash(r) && |Dots(k)| == 2 * k && !("./" <= DropDotSlash(r))
  {
    k := 0;
    if "./" <= r {
      k := CutDots(r[2..]);
      assert r == "./" + r[2..] == "./" + Dots(k) + DropDotSlash(r);
      k := k + 1;
    }
  }

  lemma {:induction false} CutSlashes(d: string) returns (k: nat)
    ensures d == StripTrailing(d, '/') + Slashes(k)
    ensures var t := StripTrailing(d, '/'); t == [] || t[|t| - 1] != '/'
  {
    k := 0;
    if d != [] && d[|d| - 1] == '/' {
      k := CutSlashes(d[..|d| - 1]);
      assert d == d[..|d| - 1] + "/" == StripTrailing(d, '/') + (Slashes(k) + "/");
      assert Slashes(k) + "/" == Slashes(k + 1);
      k := k + 1;
    }
  }

  ghost predicate BoundarySpace(s: string) {
    s != [] && (IsSpace(s[0]) || IsSpace(s[|s| - 1]))
  }

  /** Normalising twice is normalising once exactly when cutting the `./` and
      `/` affixes did not uncover whitespace. */
  lemma NormalizeIdempotentIff(path: string)
    ensures Normalize(Normalize(path)) == Normalize(path) <==> !BoundarySpace(Normalize(path))
  {
    var n := Normalize(path);
    NormalizedShape(path);
    NormalizedCharacters(path);
    if BoundarySpace(n) {
      StripShortens(n);
      NormalizeNeverGrows(n);
    } else {
      NormalizeFixes(n);
    }
  }

  lemma NormalizeIdempotentOnSpaceFree(path: string)
    requires SpaceFree(path)
    ensures Normalize(Normalize(path)) == Normalize(path)
  {
    NormalizedCharacters(path);
    NormalizeIdempotentIff(path);
  }

  /** The whitespace that breaks idempotence: "a /" becomes "a ", then "a". */
  lemma NormalizeNotIdempotent()
    ensures Normalize("a /") == "a " && Normalize("a ") == "a"
  {
    assert StripLeft("a /") == "a /" && StripRight("a /") == "a /";
    assert Replace("a /", '\\', '/') == "a /";
    assert StripTrailing("a ", '/') == "a ";
    assert "a /"[..2] == "a ";
    assert StripLeft("a ") == "a ";
    assert "a "[..1] == "a" && StripRight("a") == "a";
    assert Replace("a", '\\', '/') == "a";
  }

  // ---- path_is_within --------------------------------------------------

  function Components(s: string): seq<string> {
    Split(s, '/')
  }

  /** `PurePosixPath.is_absolute` or a `..` part. */
  predicate Escapes(s: string) {
    "/" <= s || ".." in Components(s)
  }

  /** `p == r or p.startswith(r + "/")`. */
  predicate StringWithin(p: string, r: string) {
    p == r || r + "/" <= p
  }

  predicate PathIsWithin(path: string, root: string) {
    var p := Normalize(path);
    !Escapes(p) && StringWithin(p, Normalize(root))
  }

  lemma ComponentsStep(s: string)
    requires s != []
    ensures var rest := Components(s[1..]);
            Components(s) == if s[0] == '/' then [""] + rest else [[s[0]] + rest[0]] + rest[1..]
  {
  }

  lemma PrefixStep(cp: seq<string>, cr: seq<string>, c: char)
    requires |cp| >= 1 && |cr| >= 1
    ensures [[c] + cr[0]] + cr[1..] <= [[c] + cp[0]] + cp[1..] <==> cr <= cp
    ensures [""] + cr <= [""] + cp <==> cr <= cp
  {
    var a, b := [[c] + cr[0]] + cr[1..], [[c] + cp[0]] + cp[1..];
    if a <= b {
      assert a[0] == b[0];
      assert cr[0] == ([c] + cr[0])[1..] == ([c] + cp[0])[1..] == cp[0];
      assert forall i | 1 <= i < |cr| :: a[i] == cr[i] && b[i] == cp[i];
    }
    if cr <= cp {
      assert forall i | 1 <= i < |cr| :: a[i] == cr[i] && b[i] == cp[i];
    }
    assert ([""] + cr)[1..] == cr && ([""] + cp)[1..] == cp;
  }

  lemma FirstComponentsDiffer(p: string, r: string)
    requires p != [] && r != [] && p[0] != r[0]
    ensures Components(p)[0] != Components(r)[0]
  {
    ComponentsStep(p);
    ComponentsStep(r);
    assert p[0] != '/' ==> Components(p)[0][0] == p[0];
    assert r[0] != '/' ==> Components(r)[0][0] == r[0];
  }

  /** The string test is the component test, for every pair of strings. */
  lemma {:induction false} StringWithinIsComponentPrefix(p: string, r: string)
    ensures StringWithin(p, r) <==> Components(r) <= Components(p)
  {
    if r == [] {
      assert r + "/" == "/";
      assert Components(r) == [[]];
      assert StringWithin(p, r) <==> p == [] || p[0] == '/';
      assert Components(r) <= Components(p) <==> Components(p)[0] == [];
      if p != [] {
        ComponentsStep(p);
        assert p[0] != '/' ==> Components(p)[0][0] == p[0];
      }
    } else if p == [] {
      assert Components(p) == [[]];
      ComponentsStep(r);
    } else {
      var p', r' := p[1..], r[1..];
      assert p == [p[0]] + p' && r == [r[0]] + r';
      assert r + "/" == [r[0]] + (r' + "/");
      StringWithinIsComponentPrefix(p', r');
      assert StringWithin(p, r) <==> p[0] == r[0] && StringWithin(p', r') by {
        assert r + "/" <= p <==> p[0] == r[0] && r' + "/" <= p';
      }
      ComponentsStep(p);
      ComponentsStep(r);
      PrefixStep(Components(p'), Components(r'), p[0]);
      if p[0] != r[0] {
        FirstComponentsDiffer(p, r);
      }
    }
  }

  /** `path_is_within` compares `/`-components: on a path that neither is
      absolute nor climbs, it holds iff the normalised root's components are a
      prefix of the normalised path's. */
  lemma WithinIsComponentPrefix(path: string, root: string)
    ensures var p := Normalize(path);
            PathIsWithin(path, root) <==>
              && (p != "" ==> p[0] != '/') && ".." !in Components(p)
              && Components(Normalize(root)) <= Components(p)
  {
    StringWithinIsComponentPrefix(Normalize(path), Normalize(root));
  }

  lemma WithinIsTransitive(a: string, b: string, c: string)
    requires PathIsWithin(a, b) && PathIsWithin(b, c)
    ensures PathIsWithin(a, c)
  {
    WithinIsComponentPrefix(a, b);
    WithinIsComponentPrefix(b, c);
    WithinIsComponentPrefix(a, c);
  }

  predicate Nested(r1: string, r2: string) {
    PathIsWithin(r1, r2) || PathIsWithin(r2, r1)
  }

  lemma ComponentPrefixEscapes(p: string, r: string)
    requires !Escapes(p) && StringWithin(p, r)
    ensures !Escapes(r)
  {
    StringWithinIsComponentPrefix(p, r);
    assert r != [] ==> p[0] == r[0];
  }

  /** Two roots that contain one common path are nested in each other. */
  lemma CommonPathNestsRoots(path: string, r1: string, r2: string)
    requires PathIsWithin(path, r1) && PathIsWithin(path, r2)
    ensures Nested(r1, r2)
  {
    var p := Normalize(path);
    WithinIsComponentPrefix(path, r1);
    WithinIsComponentPrefix(path, r2);
    ComponentPrefixEscapes(p, Normalize(r1));
    ComponentPrefixEscapes(p, Normalize(r2));
    WithinIsComponentPrefix(r1, r2);
    WithinIsComponentPrefix(r2, r1);
  }

  // ---- validate_owned_paths --------------------------------------------

  datatype OwnershipError =
    | NoOwnedPaths
    | OutsideOwned(paths: seq<string>)
    | ForbiddenChanged(paths: seq<string>)
    | ReportMismatch(missing: set<string>, extra: set<string>)

  predicate WithinAny(path: string, roots: seq<string>) {
    exists r | r in roots :: PathIsWithin(path, r)
  }

  function Keep(paths: seq<string>, roots: seq<string>, inside: bool): (kept: seq<string>)
    ensures forall p :: p in kept <==> p in paths && WithinAny(p, roots) == inside
  {
    if paths == [] then []
    else (if WithinAny(paths[0], roots) == inside then [paths[0]] else [])
         + Keep(paths[1..], roots, inside)
  }

  function NormalSet(paths: seq<string>): set<string> {
    set p | p in paths :: Normalize(p)
  }

  function ValidateOwnedPaths(changed: seq<string>, reported: seq<string>,
                              owned: seq<string>, forbidden: seq<string>): Result<(), OwnershipError>
  {
    if owned == [] then Err(NoOwnedPaths)
    else if Keep(changed, owned, false) != [] then Err(OutsideOwned(Sorted(Keep(changed, owned, false))))
    else if Keep(changed, forbidden, true) != [] then Err(ForbiddenChanged(Sorted(Keep(changed, forbidden, true))))
    else if NormalSet(changed) != NormalSet(reported) then
      Err(ReportMismatch(NormalSet(changed) - NormalSet(reported), NormalSet(reported) - NormalSet(changed)))
    else Ok(())
  }

  /** Changed files that respect a package's contract. */
  ghost predicate Owned(files: seq<string>, owned: seq<string>, forbidden: seq<string>) {
    && owned != []
    && (forall f | f in files :: WithinAny(f, owned))
    && (forall f | f in files :: !WithinAny(f, forbidden))
  }

  /** The check accepts exactly the changes inside the owned roots and outside
      the forbidden ones, truthfully reported up to normalisation; and a
      mismatch names exactly the unreported and the invented files. */
  lemma OwnedPathsAcceptedIff(changed: seq<string>, reported: seq<string>,
                              owned: seq<string>, forbidden: seq<string>)
    ensures var v := ValidateOwnedPaths(changed, reported, owned, forbidden);
            && (v.Ok? <==> Owned(changed, owned, forbidden) && NormalSet(changed) == NormalSet(reported))
            && (v.Err? && v.error.OutsideOwned? ==>
                  forall f :: f in v.error.paths <==> f in changed && !WithinAny(f, owned))
            && (v.Err? && v.error.ForbiddenChanged? ==>
                  forall f :: f in v.error.paths <==> f in changed && WithinAny(f, forbidden))
            && (v.Err? && v.error.ReportMismatch? ==> v.error.missing + v.error.extra != {})
  {
    SortedMembers(Keep(changed, owned, false));
    SortedMembers(Keep(changed, forbidden, true));
    var out, bad := Keep(changed, owned, false), Keep(changed, forbidden, true);
    assert out != [] ==> out[0] in out;
    assert bad != [] ==> bad[0] in bad;
    if NormalSet(changed) != NormalSet(reported) {
      var x :| x in NormalSet(changed) + NormalSet(reported)
               && !(x in NormalSet(changed) && x in NormalSet(reported));
      assert x in (NormalSet(changed) - NormalSet(reported)) + (NormalSet(reported) - NormalSet(changed));
    }
  }

  /** Which error it is: no owned paths first, then files outside them, then forbidden
      ones, each list sorted, and last what the report leaves out or invents. */
  lemma ErrorsInOrder(changed: seq<string>, reported: seq<string>, owned: seq<string>, forbidden: seq<string>)
    ensures var v := ValidateOwnedPaths(changed, reported, owned, forbidden);
            var outside := exists f :: f in changed && !WithinAny(f, owned);
            var bad := exists f :: f in changed && WithinAny(f, forbidden);
            && (v == Err(NoOwnedPaths) <==> owned == [])
            && (v.Err? && v.error.OutsideOwned? <==> owned != [] && outside)
            && (v.Err? && v.error.ForbiddenChanged? <==> owned != [] && !outside && bad)
            && (v.Err? && v.error.OutsideOwned? ==> Ascending(v.error.paths))
            && (v.Err? && v.error.ForbiddenChanged? ==> Ascending(v.error.paths))
            && (v.Err? && v.error.ReportMismatch? ==>
                  forall x :: (x in v.error.missing <==> SomeNormal(changed, x) && !SomeNormal(reported, x))
                              && (x in v.error.extra <==> SomeNormal(reported, x) && !SomeNormal(changed, x)))
  {
    var out, bad := Keep(changed, owned, false), Keep(changed, forbidden, true);
    SortedMembers(out);
    SortedMembers(bad);
    assert out != [] ==> out[0] in out;
    assert bad != [] ==> bad[0] in bad;
    assert forall x :: x in NormalSet(changed) <==> SomeNormal(changed, x);
    assert forall x :: x in NormalSet(reported) <==> SomeNormal(reported, x);
  }

  ghost predicate SomeNormal(paths: seq<string>, x: string) {
    exists p :: p in paths && Normalize(p) == x
  }

  /** Isolation: two packages without nested owned roots whose changes both pass
      the check never changed the same file. */
  lemma DisjointOwnersDisjointChanges(
      changedA: seq<string>, reportedA: seq<string>, ownedA: seq<string>, forbiddenA: seq<string>,
      changedB: seq<string>, reportedB: seq<string>, ownedB: seq<string>, forbiddenB: seq<string>)
    requires forall a, b | a in ownedA && b in ownedB :: !Nested(a, b)
    requires ValidateOwnedPaths(changedA, reportedA, ownedA, forbiddenA).Ok?
    requires ValidateOwnedPaths(changedB, reportedB, ownedB, forbiddenB).Ok?
    ensures NormalSet(changedA) !! NormalSet(changedB)
    ensures NormalSet(reportedA) !! NormalSet(reportedB)
  {
    OwnedPathsAcceptedIff(changedA, reportedA, ownedA, forbiddenA);
    OwnedPathsAcceptedIff(changedB, reportedB, ownedB, forbiddenB);
    forall f, g | f in changedA && g in changedB ensures Normalize(f) != Normalize(g) {
      if Normalize(f) == Normalize(g) {
        var a :| a in ownedA && PathIsWithin(f, a);
        var b :| b in ownedB && PathIsWithin(g, b);
        assert PathIsWithin(f, b);
        CommonPathNestsRoots(f, a, b);
        assert false;
      }
    }
  }
}
