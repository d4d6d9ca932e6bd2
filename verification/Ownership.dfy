/** Exclusive ownership of planned paths: overlap resolution
    (planning/pipeline.py), scaffold inference and the registry check that
    freezes a plan (validation/contract.py). */
module Ownership {
  import opened Text
  import opened Wrappers

  datatype Package = Package(id: string, owned: seq<string>, scaffold: bool)

  ghost predicate DistinctIds(packages: seq<Package>) {
    forall i, j | 0 <= i < j < |packages| :: packages[i].id != packages[j].id
  }

  // ---- _package_sort_key -----------------------------------------------

  predicate AllDigits(s: string) {
    s != [] && forall i | 0 <= i < |s| :: '0' <= s[i] <= '9'
  }

  function Number(s: string): nat
    requires AllDigits(s)
  {
    var digit := s[|s| - 1] as int - '0' as int;
    if |s| == 1 then digit else Number(s[..|s| - 1]) * 10 + digit
  }

  /** `rsplit("-", 1)[-1]` */
  function Suffix(id: string): string {
    var parts := Split(id, '-'); parts[|parts| - 1]
  }

  function KeyNumber(id: string): nat {
    if AllDigits(Suffix(id)) then Number(Suffix(id)) else 0
  }

  /** The tuple order of `_package_sort_key`. */
  predicate KeyLe(a: string, b: string) {
    KeyNumber(a) < KeyNumber(b) || (KeyNumber(a) == KeyNumber(b) && LexLe(a, b))
  }

  lemma KeyLeIsTotalOrder(a: string, b: string, c: string)
    ensures KeyLe(a, b) || KeyLe(b, a)
    ensures KeyLe(a, b) && KeyLe(b, a) ==> a == b
    ensures KeyLe(a, b) && KeyLe(b, c) ==> KeyLe(a, c)
  {
    LexLeTotal(a, b);
    if LexLe(a, b) && LexLe(b, a) {
      LexLeAntisymmetric(a, b);
    }
    if LexLe(a, b) && LexLe(b, c) {
      LexLeTransitive(a, b, c);
    }
  }

  /** The number is the part after the last dash. */
  lemma {:induction false} SuffixIsLast(front: string, last: string)
    requires '-' !in last
    ensures Suffix(front + "-" + last) == last
  {
    var s := front + "-" + last;
    if front == [] {
      SplitAbsent(last, '-');
      assert s == [] + ['-'] + last;
      SplitCons([], '-', last);
    } else {
      SuffixIsLast(front[1..], last);
      assert s[1..] == front[1..] + "-" + last;
      assert s[0] == front[0];
      var rest := Split(s[1..], '-');
      DashSplits(front[1..], last);
      assert Split(s, '-')[|Split(s, '-')| - 1] == rest[|rest| - 1];
    }
  }

  lemma {:induction false} DashSplits(front: string, last: string)
    ensures |Split(front + "-" + last, '-')| >= 2
  {
    var s := front + "-" + last;
    if front == [] {
      assert s[0] == '-';
    } else {
      assert s[1..] == front[1..] + "-" + last;
      DashSplits(front[1..], last);
    }
  }

  /** Numbers compare as decimals: by their digits when they are equally long, and a
      longer one without leading zeros is greater. */
  lemma {:induction false} NumbersCompare(a: string, b: string)
    requires AllDigits(a) && AllDigits(b)
    ensures |a| == |b| ==> (Number(a) <= Number(b) <==> LexLe(a, b))
    ensures |a| < |b| && b[0] != '0' ==> Number(a) < Number(b)
    decreases |a| + |b|
  {
    var fa, fb := a[..|a| - 1], b[..|b| - 1];
    if |a| == |b| > 1 {
      NumbersCompare(fa, fb);
      NumbersCompare(fb, fa);
      LexLeLast(fa, fb, a[|a| - 1], b[|b| - 1]);
      assert a == fa + [a[|a| - 1]] && b == fb + [b[|b| - 1]];
    } else if |a| < |b| && b[0] != '0' {
      if |a| == 1 {
        LeadingDigit(b);
      } else {
        NumbersCompare(fa, fb);
      }
    }
  }

  lemma {:induction false} LeadingDigit(b: string)
    requires AllDigits(b) && |b| >= 2 && b[0] != '0'
    ensures Number(b) >= 10
  {
    if |b| > 2 {
      LeadingDigit(b[..|b| - 1]);
    } else {
      assert Number(b[..1]) >= 1;
    }
  }

  lemma {:induction false} LexLeLast(a: string, b: string, x: char, y: char)
    requires |a| == |b|
    ensures LexLe(a + [x], b + [y]) <==> (LexLe(a, b) && (LexLe(b, a) ==> x <= y))
  {
    if a == [] {
      assert LexLe([x], [y]) <==> x <= y;
    } else {
      assert (a + [x])[1..] == a[1..] + [x] && (b + [y])[1..] == b[1..] + [y];
      LexLeLast(a[1..], b[1..], x, y);
    }
  }

  /** The order of package ids: by the number after the last dash, 0 if there is none,
      then by code points. */
  lemma KeyOrderMeans(a: string, b: string, frontA: string, frontB: string, lastA: string, lastB: string)
    requires '-' !in lastA && '-' !in lastB && a == frontA + "-" + lastA && b == frontB + "-" + lastB
    ensures AllDigits(lastA) && AllDigits(lastB) && |lastA| == |lastB| ==>
              (KeyLe(a, b) <==> !LexLe(lastB, lastA) || (lastA == lastB && LexLe(a, b)))
    ensures AllDigits(lastA) && AllDigits(lastB) && |lastA| < |lastB| && lastB[0] != '0' ==> KeyLe(a, b) && !KeyLe(b, a)
    ensures !AllDigits(lastA) && AllDigits(lastB) && lastB[0] != '0' ==> KeyLe(a, b) && !KeyLe(b, a)
    ensures !AllDigits(lastA) && !AllDigits(lastB) ==> (KeyLe(a, b) <==> LexLe(a, b))
  {
    SuffixIsLast(frontA, lastA);
    SuffixIsLast(frontB, lastB);
    if AllDigits(lastA) && AllDigits(lastB) {
      NumbersCompare(lastA, lastB);
      NumbersCompare(lastB, lastA);
      LexLeTotal(lastA, lastB);
      if LexLe(lastA, lastB) && LexLe(lastB, lastA) {
        LexLeAntisymmetric(lastA, lastB);
      }
    } else if AllDigits(lastB) && lastB[0] != '0' {
      PositiveNumber(lastB);
    }
  }

  lemma PositiveNumber(b: string)
    requires AllDigits(b) && b[0] != '0'
    ensures Number(b) > 0
  {
    if |b| >= 2 {
      LeadingDigit(b);
    }
  }

  // ---- _resolve_owned_path_overlaps ------------------------------------

  ghost predicate Claims(packages: seq<Package>, id: string, path: string) {
    exists i :: 0 <= i < |packages| && packages[i].id == id && path in packages[i].owned
  }

  /** The claimant with the greatest (numeric suffix, id). */
  ghost predicate Wins(packages: seq<Package>, id: string, path: string) {
    Claims(packages, id, path) && forall other | Claims(packages, other, path) :: KeyLe(other, id)
  }

  lemma WinnerIsUnique(packages: seq<Package>, a: string, b: string, path: string)
    requires Wins(packages, a, path) && Wins(packages, b, path)
    ensures a == b
  {
    KeyLeIsTotalOrder(a, b, a);
  }

  function KeepWon(id: string, owned: seq<string>, winners: map<string, string>): (kept: seq<string>)
    ensures forall p :: p in kept <==> p in owned && p in winners && winners[p] == id
  {
    if owned == [] then []
    else (if owned[0] in winners && winners[owned[0]] == id then [owned[0]] else [])
         + KeepWon(id, owned[1..], winners)
  }

  function Keeping(package: Package, winners: map<string, string>): Package {
    package.(owned := KeepWon(package.id, package.owned, winners))
  }

  method MaxByKey(owners: seq<string>) returns (best: string)
    requires owners != []
    ensures best in owners && forall o | o in owners :: KeyLe(o, best)
  {
    best := owners[0];
    KeyLeIsTotalOrder(best, best, best);
    for i := 1 to |owners|
      invariant best in owners && forall j | 0 <= j < i :: KeyLe(owners[j], best)
    {
      KeyLeIsTotalOrder(owners[i], best, best);
      if !KeyLe(owners[i], best) {
        forall j | 0 <= j < i ensures KeyLe(owners[j], owners[i]) {
          KeyLeIsTotalOrder(owners[j], best, owners[i]);
        }
        KeyLeIsTotalOrder(owners[i], owners[i], owners[i]);
        best := owners[i];
      }
    }
  }

  ghost function WonBy(packages: seq<Package>, package: Package): set<string> {
    set p | p in package.owned && Wins(packages, package.id, p)
  }

  ghost predicate ResolvedTo(packages: seq<Package>, before: Package, after: Package) {
    && after == before.(owned := after.owned)
    && IsSelection(after.owned, before.owned, WonBy(packages, before))
  }

  /** What a resolution of the overlaps must look like, package by package. */
  ghost predicate Resolves(packages: seq<Package>, resolved: seq<Package>) {
    && |resolved| == |packages|
    && forall i | 0 <= i < |packages| :: ResolvedTo(packages, packages[i], resolved[i])
  }

  /** `kept` is `owned` restricted to the paths in `won`, in the same order and
      with the same repetitions. */
  ghost predicate IsSelection(kept: seq<string>, owned: seq<string>, won: set<string>) {
    if owned == [] then kept == []
    else if owned[0] in won then kept != [] && kept[0] == owned[0] && IsSelection(kept[1..], owned[1..], won)
    else IsSelection(kept, owned[1..], won)
  }

  lemma {:induction false} KeepWonIsSelection(id: string, owned: seq<string>,
                                              winners: map<string, string>, won: set<string>)
    requires forall p | p in owned :: p in won <==> p in winners && winners[p] == id
    ensures IsSelection(KeepWon(id, owned, winners), owned, won)
  {
    if owned != [] {
      KeepWonIsSelection(id, owned[1..], winners, won);
      var kept := KeepWon(id, owned, winners);
      assert owned[0] in owned;
      assert owned[0] in won ==> kept[1..] == KeepWon(id, owned[1..], winners);
      assert owned[0] !in won ==> kept == KeepWon(id, owned[1..], winners);
    }
  }

  lemma {:induction false} SelectionMembers(kept: seq<string>, owned: seq<string>, won: set<string>)
    requires IsSelection(kept, owned, won)
    ensures forall p :: p in kept <==> p in owned && p in won
  {
    if owned != [] {
      assert forall p :: p in owned <==> p == owned[0] || p in owned[1..];
      if owned[0] in won {
        SelectionMembers(kept[1..], owned[1..], won);
        assert forall p :: p in kept <==> p == kept[0] || p in kept[1..];
      } else {
        SelectionMembers(kept, owned[1..], won);
      }
    }
  }

  lemma {:induction false} SelectionUnique(a: seq<string>, b: seq<string>, owned: seq<string>, won: set<string>)
    requires IsSelection(a, owned, won) && IsSelection(b, owned, won)
    ensures a == b
  {
    if owned != [] {
      if owned[0] in won {
        SelectionUnique(a[1..], b[1..], owned[1..], won);
        assert a == [a[0]] + a[1..] && b == [b[0]] + b[1..];
      } else {
        SelectionUnique(a, b, owned[1..], won);
      }
    }
  }

  ghost predicate RecordsClaims(packages: seq<Package>, claims: map<string, seq<string>>, i: nat, j: nat)
    requires i <= |packages|
  {
    && (forall path | path in claims :: claims[path] != [])
    && (forall path, id | path in claims && id in claims[path] :: Claims(packages, id, path))
    && (forall k, path | 0 <= k < i && path in packages[k].owned ::
          path in claims && packages[k].id in claims[path])
    && (i < |packages| ==> forall m | 0 <= m < j && m < |packages[i].owned| ::
          packages[i].owned[m] in claims && packages[i].id in claims[packages[i].owned[m]])
  }

  method CollectClaims(packages: seq<Package>) returns (claims: map<string, seq<string>>)
    ensures RecordsClaims(packages, claims, |packages|, 0)
  {
    claims := map[];
    for i := 0 to |packages|
      invariant RecordsClaims(packages, claims, i, 0)
    {
      var id, owned := packages[i].id, packages[i].owned;
      for j := 0 to |owned|
        invariant RecordsClaims(packages, claims, i, j)
      {
        var path := owned[j];
        assert Claims(packages, id, path);
        var owners := if path in claims then claims[path] else [];
        var next := claims[path := owners + [id]];
        assert forall p, x :: p in claims && x in claims[p] ==> x in next[p];
        assert id in next[path];
        claims := next;
      }
      assert forall path | path in owned :: path in claims && id in claims[path];
    }
  }

  method ChooseWinners(packages: seq<Package>) returns (winners: map<string, string>)
    ensures forall k, path | 0 <= k < |packages| && path in packages[k].owned :: path in winners
    ensures forall path | path in winners :: Wins(packages, winners[path], path)
  {
    var claims := CollectClaims(packages);
    winners := map[];
    var open := claims.Keys;
    while open != {}
      invariant open <= claims.Keys && winners.Keys == claims.Keys - open
      invariant forall path | path in winners :: Wins(packages, winners[path], path)
    {
      var path :| path in open;
      var owners := claims[path];
      var w;
      if |owners| == 1 {
        w := owners[0];
        KeyLeIsTotalOrder(w, w, w);
      } else {
        w := MaxByKey(owners);
      }
      GreatestRecordedWins(packages, claims, path, w);
      winners := winners[path := w];
      open := open - {path};
    }
  }

  lemma GreatestRecordedWins(packages: seq<Package>, claims: map<string, seq<string>>, path: string, w: string)
    requires RecordsClaims(packages, claims, |packages|, 0) && path in claims
    requires w in claims[path] && forall o | o in claims[path] :: KeyLe(o, w)
    ensures Wins(packages, w, path)
  {
    forall other | Claims(packages, other, path) ensures KeyLe(other, w) {
      var i :| 0 <= i < |packages| && packages[i].id == other && path in packages[i].owned;
      assert other in claims[path];
    }
  }

  lemma KeepsWhatItWins(packages: seq<Package>, package: Package, winners: map<string, string>)
    requires package in packages
    requires forall path | path in winners :: Wins(packages, winners[path], path)
    requires forall path | path in package.owned :: path in winners
    ensures ResolvedTo(packages, package, Keeping(package, winners))
  {
    var id := package.id;
    forall p | p in package.owned ensures Wins(packages, id, p) <==> winners[p] == id {
      if Wins(packages, id, p) {
        WinnerIsUnique(packages, id, winners[p], p);
      }
    }
    KeepWonIsSelection(id, package.owned, winners, WonBy(packages, package));
  }

  method ResolveOwnedPathOverlaps(packages: seq<Package>) returns (resolved: seq<Package>)
    ensures Resolves(packages, resolved)
  {
    var winners := ChooseWinners(packages);
    resolved := [];
    for i := 0 to |packages|
      invariant |resolved| == i
      invariant forall k | 0 <= k < i :: resolved[k] == Keeping(packages[k], winners)
    {
      resolved := resolved + [Keeping(packages[i], winners)];
    }
    forall i | 0 <= i < |packages| ensures ResolvedTo(packages, packages[i], resolved[i]) {
      KeepsWhatItWins(packages, packages[i], winners);
    }
  }

  // ---- What a resolution means -----------------------------------------

  lemma GreatestKey(ids: set<string>) returns (w: string)
    requires ids != {}
    ensures w in ids && forall x | x in ids :: KeyLe(x, w)
  {
    var y :| y in ids;
    KeyLeIsTotalOrder(y, y, y);
    if ids - {y} == {} {
      assert ids == {y};
      w := y;
    } else {
      w := GreatestKey(ids - {y});
      KeyLeIsTotalOrder(y, w, y);
      if !KeyLe(y, w) {
        forall x | x in ids - {y} ensures KeyLe(x, y) {
          KeyLeIsTotalOrder(x, w, y);
        }
        w := y;
      }
    }
  }

  lemma ResolvedClaims(packages: seq<Package>, resolved: seq<Package>, id: string, path: string)
    requires DistinctIds(packages) && Resolves(packages, resolved)
    ensures Claims(resolved, id, path) <==> Wins(packages, id, path)
  {
    forall i | 0 <= i < |packages| ensures path in resolved[i].owned <==>
        path in packages[i].owned && Wins(packages, packages[i].id, path)
    {
      SelectionMembers(resolved[i].owned, packages[i].owned, WonBy(packages, packages[i]));
    }
    if Claims(resolved, id, path) {
      var i :| 0 <= i < |resolved| && resolved[i].id == id && path in resolved[i].owned;
    }
    if Wins(packages, id, path) {
      var i :| 0 <= i < |packages| && packages[i].id == id && path in packages[i].owned;
      assert resolved[i].id == id;
    }
  }

  /** Every path somebody claimed is afterwards owned by exactly one package, the
      claimant with the greatest key; and nothing else is owned. */
  lemma OneOwnerPerClaimedPath(packages: seq<Package>, resolved: seq<Package>, path: string)
    requires DistinctIds(packages) && Resolves(packages, resolved)
    ensures (exists id :: Claims(packages, id, path)) <==> (exists id :: Claims(resolved, id, path))
    ensures forall a, b | Claims(resolved, a, path) && Claims(resolved, b, path) :: a == b
    ensures forall a, b | Claims(resolved, a, path) && Claims(packages, b, path) :: KeyLe(b, a)
  {
    forall id ensures Claims(resolved, id, path) <==> Wins(packages, id, path) {
      ResolvedClaims(packages, resolved, id, path);
    }
    forall a, b | Claims(resolved, a, path) && Claims(resolved, b, path) ensures a == b {
      WinnerIsUnique(packages, a, b, path);
    }
    if id :| Claims(packages, id, path) {
      var i :| 0 <= i < |packages| && packages[i].id == id && path in packages[i].owned;
      var ids := set k | 0 <= k < |packages| && path in packages[k].owned :: packages[k].id;
      assert packages[i].id in ids;
      var w := GreatestKey(ids);
      assert Wins(packages, w, path);
      assert Claims(resolved, w, path);
    }
  }

  /** The outcome for a package depends on the plan's packages, not on their order. */
  lemma ResolutionIgnoresOrder(p1: seq<Package>, r1: seq<Package>, p2: seq<Package>, r2: seq<Package>,
                               i: nat, j: nat)
    requires Resolves(p1, r1) && Resolves(p2, r2)
    requires forall x :: x in p1 <==> x in p2
    requires i < |p1| && j < |p2| && p1[i] == p2[j]
    ensures r1[i] == r2[j]
  {
    forall id, path ensures Claims(p1, id, path) <==> Claims(p2, id, path) {
      SameClaims(p1, p2, id, path);
      SameClaims(p2, p1, id, path);
    }
    var owned := p1[i].owned;
    assert WonBy(p1, p1[i]) == WonBy(p2, p1[i]);
    SelectionUnique(r1[i].owned, r2[j].owned, owned, WonBy(p1, p1[i]));
  }

  lemma SameClaims(p1: seq<Package>, p2: seq<Package>, id: string, path: string)
    requires forall x | x in p1 :: x in p2
    ensures Claims(p1, id, path) ==> Claims(p2, id, path)
  {
    if Claims(p1, id, path) {
      var i :| 0 <= i < |p1| && p1[i].id == id && path in p1[i].owned;
      assert p1[i] in p2;
      var j :| 0 <= j < |p2| && p2[j] == p1[i];
    }
  }

  lemma {:induction false} SelectAll(kept: seq<string>, owned: seq<string>, won: set<string>)
    requires IsSelection(kept, owned, won) && forall p | p in owned :: p in won
    ensures kept == owned
  {
    if owned != [] {
      assert owned[0] in owned;
      SelectAll(kept[1..], owned[1..], won);
      assert kept == [kept[0]] + kept[1..] && owned == [owned[0]] + owned[1..];
    }
  }

  /** Resolving a resolved plan changes nothing. */
  lemma ResolutionIdempotent(packages: seq<Package>, resolved: seq<Package>, again: seq<Package>)
    requires DistinctIds(packages) && Resolves(packages, resolved) && Resolves(resolved, again)
    ensures again == resolved
  {
    forall i | 0 <= i < |resolved| ensures again[i] == resolved[i] {
      var id, owned := resolved[i].id, resolved[i].owned;
      forall p | p in owned ensures Wins(resolved, id, p) {
        assert Claims(resolved, id, p);
        OneOwnerPerClaimedPath(packages, resolved, p);
        KeyLeIsTotalOrder(id, id, id);
      }
      SelectAll(again[i].owned, owned, WonBy(resolved, resolved[i]));
    }
  }

  // ---- infer_scaffold_owned_paths and the freeze registry --------------

  const SCAFFOLD_EXTRAS: seq<string> :=
    ["package.json", "package-lock.json", "public/", "index.html", "vite.config.ts", "tsconfig.json"]

  /** The entries of `extras` that are not in `owned`, in their order. */
  ghost function AbsentFrom(owned: seq<string>, extras: seq<string>): seq<string> {
    if extras == [] then []
    else
      var last := extras[|extras| - 1];
      AbsentFrom(owned, extras[..|extras| - 1]) + if last in owned then [] else [last]
  }

  lemma ExtrasDiffer(i: nat)
    requires i < |SCAFFOLD_EXTRAS|
    ensures SCAFFOLD_EXTRAS[i] !in SCAFFOLD_EXTRAS[..i]
  {
    assert "package.json"[7] != "package-lock.json"[7];
    assert |"package-lock.json"| == 17 && |"public/"| == 7 && |"index.html"| == 10;
    assert |"vite.config.ts"| == 14 && |"tsconfig.json"| == 13;
  }

  method InferScaffoldOwnedPaths(package: Package) returns (owned: seq<string>)
    ensures !package.scaffold ==> owned == package.owned
    ensures package.owned <= owned
    ensures forall p :: p in owned <==>
              p in package.owned || (package.scaffold && p in SCAFFOLD_EXTRAS)
    ensures package.scaffold ==> owned == package.owned + AbsentFrom(package.owned, SCAFFOLD_EXTRAS)
  {
    owned := package.owned;
    if !package.scaffold {
      return;
    }
    for i := 0 to |SCAFFOLD_EXTRAS|
      invariant package.owned <= owned
      invariant forall p :: p in owned <==> p in package.owned || p in SCAFFOLD_EXTRAS[..i]
      invariant owned == package.owned + AbsentFrom(package.owned, SCAFFOLD_EXTRAS[..i])
    {
      var extra := SCAFFOLD_EXTRAS[i];
      ExtrasDiffer(i);
      assert SCAFFOLD_EXTRAS[..i + 1] == SCAFFOLD_EXTRAS[..i] + [extra];
      assert SCAFFOLD_EXTRAS[..i + 1][..i] == SCAFFOLD_EXTRAS[..i];
      if extra !in owned {
        owned := owned + [extra];
      }
    }
    assert SCAFFOLD_EXTRAS[..|SCAFFOLD_EXTRAS|] == SCAFFOLD_EXTRAS;
  }

  datatype FreezeError = EmptyPlan | NoOwnedPaths(id: string) | Overlap(path: string, first: string, second: string)

  /** No path belongs to two packages with an id. */
  ghost predicate Exclusive(packages: seq<Package>) {
    forall path, a, b | a != "" && b != "" && Claims(packages, a, path) && Claims(packages, b, path) :: a == b
  }

  /** What freezing a plan asks of its owned paths. Packages without an id are not
      looked at. */
  ghost predicate OwnershipFreezes(packages: seq<Package>) {
    && packages != []
    && (forall i | 0 <= i < |packages| && packages[i].id != "" :: packages[i].owned != [])
    && Exclusive(packages)
  }

  ghost predicate TrueError(packages: seq<Package>, e: FreezeError) {
    match e
    case EmptyPlan => packages == []
    case NoOwnedPaths(id) =>
      id != "" && exists i :: 0 <= i < |packages| && packages[i].id == id && packages[i].owned == []
    case Overlap(path, first, second) =>
      first != second && first != "" && second != "" && Claims(packages, first, path) && Claims(packages, second, path)
  }

  /** The ownership part of `validate_packages_for_freeze`, over the packages in
      the order it visits them. */
  method FreezeOwnership(packages: seq<Package>) returns (r: Result<(), FreezeError>)
    ensures r.Ok? <==> OwnershipFreezes(packages)
    ensures r.Err? ==> TrueError(packages, r.error)
  {
    if packages == [] {
      return Err(EmptyPlan);
    }
    var registry: map<string, string> := map[];
    for i := 0 to |packages|
      invariant Registers(packages, registry, i, 0)
      invariant forall k | 0 <= k < i && packages[k].id != "" :: packages[k].owned != []
    {
      var id, owned := packages[i].id, packages[i].owned;
      if id == "" {
        continue;
      }
      if owned == [] {
        return Err(NoOwnedPaths(id));
      }
      for j := 0 to |owned|
        invariant Registers(packages, registry, i, j)
      {
        var path := owned[j];
        assert Claims(packages, id, path);
        if path in registry && registry[path] != id {
          return Err(Overlap(path, registry[path], id));
        }
        registry := registry[path := id];
      }
      assert forall path | path in owned :: path in registry && registry[path] == id;
    }
    forall path, a, b | a != "" && b != "" && Claims(packages, a, path) && Claims(packages, b, path) ensures a == b {
      assert registry[path] == a && registry[path] == b;
    }
    return Ok(());
  }

  ghost predicate Registers(packages: seq<Package>, registry: map<string, string>, i: nat, j: nat)
    requires i <= |packages|
  {
    && (forall path | path in registry :: registry[path] != "" && Claims(packages, registry[path], path))
    && (forall k, path | 0 <= k < i && packages[k].id != "" && path in packages[k].owned ::
          path in registry && registry[path] == packages[k].id)
    && (i < |packages| ==> forall m | 0 <= m < j && m < |packages[i].owned| ::
          packages[i].owned[m] in registry && registry[packages[i].owned[m]] == packages[i].id)
  }

  ghost predicate Inferred(packages: seq<Package>, inferred: seq<Package>) {
    && |inferred| == |packages|
    && forall i | 0 <= i < |packages| ::
         && inferred[i].id == packages[i].id
         && forall p :: p in inferred[i].owned <==>
              p in packages[i].owned || (packages[i].scaffold && p in SCAFFOLD_EXTRAS)
  }

  /** Scaffold inference hands `extra` to a package although another one keeps it. */
  ghost predicate Reclaims(resolved: seq<Package>, i: nat, j: nat, extra: string)
    requires i < |resolved| && j < |resolved|
  {
    && i != j && resolved[i].id != "" && resolved[j].id != ""
    && resolved[i].scaffold && extra in SCAFFOLD_EXTRAS
    && (extra in resolved[j].owned || resolved[j].scaffold)
  }

  /** The inferred plan is free of overlaps exactly if nothing is handed back. */
  lemma ExclusiveIffNothingReclaimed(packages: seq<Package>, resolved: seq<Package>, inferred: seq<Package>)
    requires DistinctIds(packages) && Resolves(packages, resolved) && Inferred(resolved, inferred)
    ensures Exclusive(inferred) <==>
              forall i, j, extra | 0 <= i < |resolved| && 0 <= j < |resolved| :: !Reclaims(resolved, i, j, extra)
  {
    if i, j, extra :| 0 <= i < |resolved| && 0 <= j < |resolved| && Reclaims(resolved, i, j, extra) {
      assert extra in inferred[i].owned && extra in inferred[j].owned;
      assert Claims(inferred, inferred[i].id, extra) && Claims(inferred, inferred[j].id, extra);
    } else {
      forall path, a, b | a != "" && b != "" && Claims(inferred, a, path) && Claims(inferred, b, path) ensures a == b {
        var i :| 0 <= i < |inferred| && inferred[i].id == a && path in inferred[i].owned;
        var j :| 0 <= j < |inferred| && inferred[j].id == b && path in inferred[j].owned;
        if path in resolved[i].owned && path in resolved[j].owned {
          assert Claims(resolved, a, path) && Claims(resolved, b, path);
          OneOwnerPerClaimedPath(packages, resolved, path);
        } else {
          assert !Reclaims(resolved, i, j, path) && !Reclaims(resolved, j, i, path);
        }
      }
    }
  }

  /** A package that is no scaffold keeps a path exactly if it wins one. */
  lemma KeepsSomethingIffWins(packages: seq<Package>, resolved: seq<Package>, inferred: seq<Package>, i: nat)
    requires Resolves(packages, resolved) && Inferred(resolved, inferred) && i < |packages|
    ensures inferred[i].owned != [] <==>
              packages[i].scaffold || exists path :: path in packages[i].owned && Wins(packages, packages[i].id, path)
  {
    var won := WonBy(packages, packages[i]);
    SelectionMembers(resolved[i].owned, packages[i].owned, won);
    assert SCAFFOLD_EXTRAS[0] == "package.json";
    if packages[i].scaffold {
      assert "package.json" in inferred[i].owned;
    }
    if inferred[i].owned != [] {
      assert inferred[i].owned[0] in inferred[i].owned;
    }
    if path :| path in packages[i].owned && Wins(packages, packages[i].id, path) {
      assert path in inferred[i].owned;
    }
  }

  /** Approving a plan passes the ownership part of the freeze exactly if there is
      a package, scaffold inference hands no path back that another package kept,
      and every package that is no scaffold wins at least one of its paths. */
  lemma FreezeAcceptsIff(packages: seq<Package>, resolved: seq<Package>, inferred: seq<Package>)
    requires DistinctIds(packages) && Resolves(packages, resolved) && Inferred(resolved, inferred)
    ensures OwnershipFreezes(inferred) <==>
              && packages != []
              && (forall i, j, extra | 0 <= i < |resolved| && 0 <= j < |resolved| :: !Reclaims(resolved, i, j, extra))
              && (forall i | 0 <= i < |packages| && packages[i].id != "" ::
                    packages[i].scaffold
                    || exists path :: path in packages[i].owned && Wins(packages, packages[i].id, path))
  {
    ExclusiveIffNothingReclaimed(packages, resolved, inferred);
    forall i | 0 <= i < |packages|
      ensures inferred[i].id == packages[i].id
      ensures inferred[i].owned != [] <==>
                packages[i].scaffold || exists path :: path in packages[i].owned && Wins(packages, packages[i].id, path)
    {
      KeepsSomethingIffWins(packages, resolved, inferred, i);
    }
  }

  lemma LaterLetterWins(plan: seq<Package>, path: string)
    requires |plan| == 2 && plan[0].id == "A" && plan[1].id == "B" && plan[0].owned == plan[1].owned == [path]
    ensures Wins(plan, "B", path) && !Wins(plan, "A", path)
  {
    assert "A"[0] != "B"[0];
    assert Claims(plan, plan[0].id, path) && Claims(plan, plan[1].id, path);
    SplitAbsent("A", '-');
    SplitAbsent("B", '-');
    assert KeyLe("A", "B") && KeyLe("B", "B") && !KeyLe("B", "A");
  }

  /** A scaffold "A" and a "B" that claims package.json too and wins it:
      inference gives the path back to "A" and the freeze is refused. */
  lemma ScaffoldInferenceUndoesResolution(resolved: seq<Package>, inferred: seq<Package>)
    requires Resolves([Package("A", ["package.json"], true), Package("B", ["package.json"], false)], resolved)
    requires Inferred(resolved, inferred)
    ensures Claims(inferred, "A", "package.json") && Claims(inferred, "B", "package.json")
    ensures !OwnershipFreezes(inferred)
  {
    var plan := [Package("A", ["package.json"], true), Package("B", ["package.json"], false)];
    assert "A"[0] != "B"[0];
    LaterLetterWins(plan, "package.json");
    ResolvedClaims(plan, resolved, "B", "package.json");
    var j :| 0 <= j < |resolved| && resolved[j].id == "B" && "package.json" in resolved[j].owned;
    assert SCAFFOLD_EXTRAS[0] == "package.json";
    assert resolved[0].id == "A";
    assert "package.json" in inferred[0].owned && "package.json" in inferred[j].owned;
    assert inferred[0].id == "A" && inferred[j].id == "B";
    assert Claims(inferred, inferred[0].id, "package.json") && Claims(inferred, inferred[j].id, "package.json");
  }

  /** "A" and "B" claim one path and nothing else: "B" wins it, "A" is left with
      nothing, and the freeze is refused although no path is shared. */
  lemma LosingEverythingIsRefused(resolved: seq<Package>, inferred: seq<Package>)
    requires Resolves([Package("A", ["x"], false), Package("B", ["x"], false)], resolved)
    requires Inferred(resolved, inferred)
    ensures Exclusive(inferred) && !OwnershipFreezes(inferred)
  {
    var plan := [Package("A", ["x"], false), Package("B", ["x"], false)];
    assert "A"[0] != "B"[0];
    assert DistinctIds(plan);
    LaterLetterWins(plan, "x");
    ExclusiveIffNothingReclaimed(plan, resolved, inferred);
    KeepsSomethingIffWins(plan, resolved, inferred, 0);
  }
}
