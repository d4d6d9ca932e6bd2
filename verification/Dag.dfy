/** The dependency graph of work packages: validation, topological order and
    critical path (scheduler/dag.py). */
module Dag {
  import opened Text
  import opened Wrappers

  type Id = string

  /** `packages` as a dict: `order` is its iteration order. */
  datatype Graph = Graph(order: seq<Id>, deps: map<Id, seq<Id>>)

  ghost predicate WellKeyed(g: Graph) {
    Distinct(g.order) && forall id :: id in g.order <==> id in g.deps
  }

  ghost predicate Known(g: Graph) {
    forall a, b | a in g.deps && b in g.deps[a] :: b in g.deps
  }

  predicate Edge(g: Graph, a: Id, b: Id) {
    a in g.deps && b in g.deps[a]
  }

  function Elements(s: seq<Id>): set<Id> {
    set x | x in s
  }

  ghost predicate IsPath(g: Graph, p: seq<Id>) {
    p != [] && forall i | 0 <= i < |p| - 1 :: Edge(g, p[i], p[i + 1])
  }

  ghost predicate CycleAt(g: Graph, a: Id, p: seq<Id>) {
    IsPath(g, p) && |p| >= 2 && p[0] == a && p[|p| - 1] == a
  }

  ghost predicate ReachesItself(g: Graph, a: Id) {
    exists p :: CycleAt(g, a, p)
  }

  ghost predicate Acyclic(g: Graph) {
    forall a :: !ReachesItself(g, a)
  }

  // ---- Ranks: the measure that makes unguarded recursion terminate -----

  ghost predicate IsRank(g: Graph, rank: map<Id, nat>) {
    && rank.Keys == g.deps.Keys
    && forall a, b | a in g.deps && b in g.deps[a] :: b in rank && rank[b] < rank[a]
  }

  lemma {:induction false} RankFallsAlongPath(g: Graph, rank: map<Id, nat>, p: seq<Id>)
    requires IsRank(g, rank) && IsPath(g, p) && p[0] in g.deps
    ensures p[|p| - 1] in g.deps
    ensures rank[p[|p| - 1]] + |p| - 1 <= rank[p[0]]
  {
    if |p| > 1 {
      assert Edge(g, p[0], p[1]);
      assert forall i | 0 <= i < |p| - 2 :: Edge(g, p[1..][i], p[1..][i + 1]);
      RankFallsAlongPath(g, rank, p[1..]);
    }
  }

  lemma RankedIsAcyclic(g: Graph, rank: map<Id, nat>)
    requires IsRank(g, rank)
    ensures Acyclic(g)
  {
    forall a ensures !ReachesItself(g, a) {
      if ReachesItself(g, a) {
        var p :| CycleAt(g, a, p);
        assert Edge(g, p[0], p[1]);
        RankFallsAlongPath(g, rank, p);
        assert false;
      }
    }
  }

  lemma IndexOf(s: seq<Id>, x: Id) returns (k: nat)
    requires x in s
    ensures k < |s| && s[k] == x
  {
    k :| 0 <= k < |s| && s[k] == x;
  }

  lemma CloseCycle(g: Graph, stack: seq<Id>, id: Id)
    requires id in stack && IsPath(g, stack) && Edge(g, stack[|stack| - 1], id)
    ensures ReachesItself(g, id)
  {
    var k := IndexOf(stack, id);
    var c := stack[k..] + [id];
    forall i | 0 <= i < |c| - 1 ensures Edge(g, c[i], c[i + 1]) {
      assert c[i] == stack[k + i];
      if i < |c| - 2 {
        assert c[i + 1] == stack[k + i + 1];
      }
    }
    assert CycleAt(g, id, c);
  }

  /** From the end of a path of unranked packages, one can walk to a package
      whose dependencies are all ranked: the path cannot close, so it ends. */
  lemma {:induction false} FindReady(g: Graph, ranked: set<Id>, p: seq<Id>) returns (v: Id)
    requires Known(g) && Acyclic(g)
    requires IsPath(g, p) && forall x | x in p :: x in g.deps && x !in ranked
    ensures v in g.deps && v !in ranked && forall d | d in g.deps[v] :: d in ranked
    decreases g.deps.Keys - Elements(p)
  {
    var last := p[|p| - 1];
    if d :| d in g.deps[last] && d !in ranked {
      if d in p {
        CloseCycle(g, p, d);
        assert false;
      }
      var q := p + [d];
      assert d in q && Elements(q) == Elements(p) + {d};
      v := FindReady(g, ranked, q);
    } else {
      v := last;
    }
  }

  /** A rank for part of the graph that is closed under dependencies. */
  ghost predicate PartialRank(g: Graph, rank: map<Id, nat>) {
    && rank.Keys <= g.deps.Keys
    && (forall a | a in rank :: rank[a] < |rank|)
    && forall a, b | a in rank && b in g.deps[a] :: b in rank && rank[b] < rank[a]
  }

  lemma RankOneMore(g: Graph, rank: map<Id, nat>, v: Id)
    requires PartialRank(g, rank) && v in g.deps && v !in rank && forall d | d in g.deps[v] :: d in rank
    ensures PartialRank(g, rank[v := |rank|])
    ensures g.deps.Keys - rank[v := |rank|].Keys < g.deps.Keys - rank.Keys
  {
    var more := rank[v := |rank|];
    assert more.Keys == rank.Keys + {v};
    assert v in g.deps.Keys - rank.Keys;
  }

  lemma {:induction false} ExtendRank(g: Graph, rank: map<Id, nat>) returns (full: map<Id, nat>)
    requires Known(g) && Acyclic(g) && PartialRank(g, rank)
    ensures IsRank(g, full)
    decreases g.deps.Keys - rank.Keys
  {
    if rank.Keys == g.deps.Keys {
      full := rank;
    } else {
      var start :| start in g.deps && start !in rank;
      var v := FindReady(g, rank.Keys, [start]);
      RankOneMore(g, rank, v);
      full := ExtendRank(g, rank[v := |rank|]);
    }
  }

  /** A measure that falls along every dependency exists exactly for acyclic
      graphs: the recursion of `topological` and `critical_path`, which keeps no
      visiting set, terminates precisely because validation succeeded. */
  lemma RankedIffAcyclic(g: Graph)
    requires Known(g)
    ensures (exists rank :: IsRank(g, rank)) <==> Acyclic(g)
  {
    if Acyclic(g) {
      var rank := ExtendRank(g, map[]);
    }
    if rank :| IsRank(g, rank) {
      RankedIsAcyclic(g, rank);
    }
  }

  // ---- validate_dag ----------------------------------------------------

  datatype DagError = UnknownDependencies(package: Id, missing: set<Id>) | Cycle(at: Id)

  function Missing(g: Graph, id: Id): set<Id>
    requires id in g.deps
  {
    set d | d in g.deps[id] && d !in g.deps
  }

  ghost predicate KnownDeps(g: Graph, id: Id) {
    id in g.deps && forall d | d in g.deps[id] :: d in g.deps
  }

  lemma NothingMissing(g: Graph, id: Id)
    requires id in g.deps
    ensures Missing(g, id) == {} <==> KnownDeps(g, id)
  {
    if !KnownDeps(g, id) {
      var d :| d in g.deps[id] && d !in g.deps;
      assert d in Missing(g, id);
    }
  }

  /** Dependencies first: every dependency of an entry stands before it. */
  ghost predicate DependenciesFirst(g: Graph, done: seq<Id>) {
    && Distinct(done)
    && (forall x | x in done :: x in g.deps)
    && forall k, d | 0 <= k < |done| && d in g.deps[done[k]] :: d in done[..k]
  }

  lemma AppendFinished(g: Graph, done: seq<Id>, id: Id)
    requires DependenciesFirst(g, done) && id in g.deps && id !in done
    requires forall d | d in g.deps[id] :: d in done
    ensures DependenciesFirst(g, done + [id])
  {
    var next := done + [id];
    forall k, d | 0 <= k < |next| && d in g.deps[next[k]] ensures d in next[..k] {
      assert next[..k] == done[..k];
      assert k == |done| ==> done[..k] == done;
    }
  }

  /** A complete dependencies-first listing is a rank. */
  lemma FinishedRanks(g: Graph, done: seq<Id>) returns (rank: map<Id, nat>)
    requires DependenciesFirst(g, done) && forall id | id in g.deps :: id in done
    ensures IsRank(g, rank)
  {
    ghost var at: Id -> nat := x => if exists k :: 0 <= k < |done| && done[k] == x
                                    then var k :| 0 <= k < |done| && done[k] == x; k else 0;
    rank := map x | x in g.deps :: at(x);
    forall a, b | a in g.deps && b in g.deps[a] ensures b in rank && rank[b] < rank[a] {
      var k := IndexOf(done, a);
      assert rank[a] == k;
      var j := IndexOf(done[..k], b);
      assert done[j] == b;
      assert rank[b] == j;
    }
  }

  /** The closure state of `validate_dag`'s `visit`. */
  class CycleSearch {
    const g: Graph
    var visiting: set<Id>
    var visited: set<Id>
    ghost var finished: seq<Id>

    constructor (g: Graph)
      ensures this.g == g && Valid([]) && visited == {}
    {
      this.g := g;
      visiting, visited, finished := {}, {}, [];
    }

    /** `stack` lists the calls under way, outermost first. */
    ghost predicate Valid(stack: seq<Id>)
      reads this
    {
      && visiting == Elements(stack)
      && visited == Elements(finished)
      && (stack != [] ==> IsPath(g, stack))
      && (forall x | x in stack :: x in g.deps && x !in finished)
      && DependenciesFirst(g, finished)
    }

    method Visit(id: Id, ghost stack: seq<Id>) returns (r: Result<(), DagError>)
      requires Known(g) && id in g.deps && Valid(stack)
      requires stack != [] ==> Edge(g, stack[|stack| - 1], id)
      modifies this
      ensures r.Ok? ==> Valid(stack) && id in visited && old(visited) <= visited
      ensures r.Err? ==> r.error.Cycle? && ReachesItself(g, r.error.at)
      decreases g.deps.Keys - Elements(stack)
    {
      if id in visiting {
        CloseCycle(g, stack, id);
        return Err(Cycle(id));
      }
      if id in visited {
        return Ok(());
      }
      visiting := visiting + {id};
      ghost var inner := stack + [id];
      assert id in inner && Elements(inner) == Elements(stack) + {id};
      assert forall i | 0 <= i < |inner| - 1 :: Edge(g, inner[i], inner[i + 1]);
      var deps := g.deps[id];
      for i := 0 to |deps|
        invariant Valid(inner) && old(visited) <= visited
        invariant forall j | 0 <= j < i :: deps[j] in visited
      {
        var step := Visit(deps[i], inner);
        if step.Err? {
          return step;
        }
      }
      visiting := visiting - {id};
      visited := visited + {id};
      AppendFinished(g, finished, id);
      finished := finished + [id];
      assert id !in stack;
      return Ok(());
    }
  }

  /** `validate_dag`: it returns normally iff every dependency is known and no
      package reaches itself, it always terminates, and each error is true. */
  method ValidateDag(g: Graph) returns (r: Result<(), DagError>)
    requires WellKeyed(g)
    ensures r.Ok? <==> Known(g) && Acyclic(g)
    ensures r.Err? && r.error.UnknownDependencies? ==>
              var p := r.error.package;
              && p in g.deps && r.error.missing == (set d | d in g.deps[p] && d !in g.deps) && r.error.missing != {}
              && exists k :: 0 <= k < |g.order| && g.order[k] == p && forall j | 0 <= j < k :: KnownDeps(g, g.order[j])
    ensures r.Err? && r.error.Cycle? ==> Known(g) && ReachesItself(g, r.error.at)
  {
    for i := 0 to |g.order|
      invariant forall j | 0 <= j < i :: KnownDeps(g, g.order[j])
    {
      var id := g.order[i];
      var unknown := Missing(g, id);
      NothingMissing(g, id);
      if unknown != {} {
        ghost var d :| d in unknown;
        assert d in g.deps[id] && d !in g.deps;
        return Err(UnknownDependencies(id, unknown));
      }
    }
    forall a, b | a in g.deps && b in g.deps[a] ensures b in g.deps {
      var k := IndexOf(g.order, a);
      assert KnownDeps(g, g.order[k]);
    }
    var search := new CycleSearch(g);
    for i := 0 to |g.order|
      invariant search.Valid([]) && search.g == g
      invariant forall j | 0 <= j < i :: g.order[j] in search.visited
    {
      var step := search.Visit(g.order[i], []);
      if step.Err? {
        return step;
      }
    }
    ghost var rank := FinishedRanks(g, search.finished);
    RankedIsAcyclic(g, rank);
    return Ok(());
  }

  // ---- Dag.topological -------------------------------------------------

  /** All packages once, each after its dependencies. */
  ghost predicate IsTopological(g: Graph, s: seq<Id>) {
    DependenciesFirst(g, s) && forall id | id in g.deps :: id in s
  }

  /** In such an order a package follows everything it transitively needs. */
  lemma TransitiveDependencyPrecedes(g: Graph, s: seq<Id>, p: seq<Id>, i: nat, j: nat)
    requires IsTopological(g, s) && IsPath(g, p) && |p| >= 2
    requires i < |s| && s[i] == p[0] && j < |s| && s[j] == p[|p| - 1]
    ensures j < i
    decreases |p|
  {
    assert Edge(g, p[0], p[1]);
    var k := IndexOf(s[..i], p[1]);
    assert s[k] == p[1];
    if |p| > 2 {
      assert forall m | 0 <= m < |p| - 2 :: Edge(g, p[1..][m], p[1..][m + 1]);
      TransitiveDependencyPrecedes(g, s, p[1..], k, j);
    } else {
      assert j == k;
    }
  }

  // ---- Which topological order -----------------------------------------

  /** `done` after visiting `id`: a post-order walk along the dependency lists. */
  ghost function Finish(g: Graph, rank: map<Id, nat>, done: seq<Id>, id: Id): seq<Id>
    requires IsRank(g, rank) && id in g.deps
    decreases rank[id], |g.deps[id]| + 1
  {
    if id in done then done else FinishDeps(g, rank, done, id, |g.deps[id]|) + [id]
  }

  /** The same for the first `n` dependencies of `id`. */
  ghost function FinishDeps(g: Graph, rank: map<Id, nat>, done: seq<Id>, id: Id, n: nat): seq<Id>
    requires IsRank(g, rank) && id in g.deps && n <= |g.deps[id]|
    decreases rank[id], n
  {
    if n == 0 then done else Finish(g, rank, FinishDeps(g, rank, done, id, n - 1), g.deps[id][n - 1])
  }

  /** The walk started at each of the first `n` of `keys` in turn. */
  ghost function FinishKeys(g: Graph, rank: map<Id, nat>, keys: seq<Id>, n: nat): seq<Id>
    requires IsRank(g, rank) && (forall k | 0 <= k < |keys| :: keys[k] in g.deps) && n <= |keys|
  {
    if n == 0 then [] else Finish(g, rank, FinishKeys(g, rank, keys, n - 1), keys[n - 1])
  }

  /** The rank only bounds the walk. */
  lemma {:induction false} RankIsIrrelevant(g: Graph, r1: map<Id, nat>, r2: map<Id, nat>, done: seq<Id>, id: Id, n: nat)
    requires IsRank(g, r1) && IsRank(g, r2) && id in g.deps && n <= |g.deps[id]|
    ensures FinishDeps(g, r1, done, id, n) == FinishDeps(g, r2, done, id, n)
    decreases r1[id], n
  {
    if n > 0 {
      var d := g.deps[id][n - 1];
      RankIsIrrelevant(g, r1, r2, done, id, n - 1);
      assert r1[d] < r1[id];
      RankIsIrrelevant(g, r1, r2, FinishDeps(g, r1, done, id, n - 1), d, |g.deps[d]|);
    }
  }

  lemma {:induction false} KeysDecide(g1: Graph, g2: Graph, r1: map<Id, nat>, r2: map<Id, nat>, keys: seq<Id>, n: nat)
    requires IsRank(g1, r1) && IsRank(g2, r2) && g1.deps == g2.deps
    requires (forall k | 0 <= k < |keys| :: keys[k] in g1.deps) && n <= |keys|
    ensures FinishKeys(g1, r1, keys, n) == FinishKeys(g2, r2, keys, n)
  {
    if n > 0 {
      var id, done := keys[n - 1], FinishKeys(g1, r1, keys, n - 1);
      KeysDecide(g1, g2, r1, r2, keys, n - 1);
      SameDeps(g1, g2, r2, done, id, |g1.deps[id]|);
      RankIsIrrelevant(g1, r1, r2, done, id, |g1.deps[id]|);
    }
  }

  lemma {:induction false} SameDeps(g1: Graph, g2: Graph, rank: map<Id, nat>, done: seq<Id>, id: Id, n: nat)
    requires IsRank(g2, rank) && g1.deps == g2.deps && id in g1.deps && n <= |g1.deps[id]|
    ensures IsRank(g1, rank) && FinishDeps(g1, rank, done, id, n) == FinishDeps(g2, rank, done, id, n)
    decreases rank[id], n
  {
    if n > 0 {
      var d := g1.deps[id][n - 1];
      SameDeps(g1, g2, rank, done, id, n - 1);
      assert rank[d] < rank[id];
      SameDeps(g1, g2, rank, FinishDeps(g1, rank, done, id, n - 1), d, |g1.deps[d]|);
    }
  }

  /** `x` is `a` or something `a` transitively depends on. */
  ghost predicate Needs(g: Graph, a: Id, x: Id) {
    exists p :: IsPath(g, p) && p[0] == a && p[|p| - 1] == x
  }

  ghost predicate SomeNeeds(g: Graph, ids: seq<Id>, x: Id) {
    exists k :: 0 <= k < |ids| && Needs(g, ids[k], x)
  }

  lemma NeedsItself(g: Graph, a: Id)
    ensures Needs(g, a, a)
  {
    assert IsPath(g, [a]);
  }

  /** What `a` needs, beside itself, is what its dependencies need. */
  lemma NeedsStep(g: Graph, a: Id, x: Id)
    requires a in g.deps
    ensures Needs(g, a, x) <==> x == a || SomeNeeds(g, g.deps[a], x)
  {
    NeedsItself(g, a);
    if Needs(g, a, x) && x != a {
      var p :| IsPath(g, p) && p[0] == a && p[|p| - 1] == x;
      assert Edge(g, p[0], p[1]);
      var k := IndexOf(g.deps[a], p[1]);
      forall i | 0 <= i < |p[1..]| - 1 ensures Edge(g, p[1..][i], p[1..][i + 1]) {
        assert Edge(g, p[i + 1], p[i + 2]);
      }
      assert IsPath(g, p[1..]);
      assert Needs(g, g.deps[a][k], x);
    }
    if SomeNeeds(g, g.deps[a], x) {
      var k :| 0 <= k < |g.deps[a]| && Needs(g, g.deps[a][k], x);
      var p :| IsPath(g, p) && p[0] == g.deps[a][k] && p[|p| - 1] == x;
      var q := [a] + p;
      forall i | 0 <= i < |q| - 1 ensures Edge(g, q[i], q[i + 1]) {
        if i > 0 {
          assert Edge(g, p[i - 1], p[i]);
        }
      }
      assert IsPath(g, q) && q[|q| - 1] == x;
    }
  }

  lemma OneMoreNeeds(g: Graph, ids: seq<Id>, n: nat, x: Id)
    requires n < |ids|
    ensures SomeNeeds(g, ids[..n + 1], x) <==> SomeNeeds(g, ids[..n], x) || Needs(g, ids[n], x)
  {
    if SomeNeeds(g, ids[..n + 1], x) && !Needs(g, ids[n], x) {
      var k :| 0 <= k < n + 1 && Needs(g, ids[..n + 1][k], x);
      assert ids[..n][k] == ids[k];
    }
    if SomeNeeds(g, ids[..n], x) {
      var k :| 0 <= k < n && Needs(g, ids[..n][k], x);
      assert ids[..n + 1][k] == ids[k];
    }
    assert ids[..n + 1][n] == ids[n];
  }

  ghost predicate Closed(g: Graph, done: seq<Id>) {
    forall a, x {:trigger a in done, Needs(g, a, x)} | a in done && Needs(g, a, x) :: x in done
  }

  /** `more` continues `done` by exactly what the packages need that is not there yet. */
  ghost predicate GrowsBy(g: Graph, done: seq<Id>, more: seq<Id>, ids: seq<Id>) {
    && done <= more && Closed(g, more)
    && forall x {:trigger x in more} {:trigger SomeNeeds(g, ids, x)} :: x in more <==> x in done || SomeNeeds(g, ids, x)
  }

  /** The same for a single package. */
  ghost predicate GrowsByOne(g: Graph, done: seq<Id>, more: seq<Id>, id: Id) {
    && done <= more && Closed(g, more)
    && forall x {:trigger x in more} {:trigger Needs(g, id, x)} :: x in more <==> x in done || Needs(g, id, x)
  }

  lemma GrowsOneMore(g: Graph, done: seq<Id>, before: seq<Id>, more: seq<Id>, ids: seq<Id>, n: nat)
    requires n < |ids| && GrowsBy(g, done, before, ids[..n]) && GrowsByOne(g, before, more, ids[n])
    ensures GrowsBy(g, done, more, ids[..n + 1])
  {
    forall x ensures x in more <==> x in done || SomeNeeds(g, ids[..n + 1], x) {
      OneMoreNeeds(g, ids, n, x);
    }
  }

  lemma GrowsByNone(g: Graph, done: seq<Id>)
    requires Closed(g, done)
    ensures GrowsBy(g, done, done, [])
  {
  }

  /** A package listed after all it needs. */
  lemma GrowsByLast(g: Graph, done: seq<Id>, more: seq<Id>, id: Id)
    requires id in g.deps && GrowsBy(g, done, more, g.deps[id])
    ensures GrowsByOne(g, done, more + [id], id)
  {
    forall x ensures Needs(g, id, x) <==> x == id || SomeNeeds(g, g.deps[id], x) {
      NeedsStep(g, id, x);
    }
  }

  lemma AlreadyThere(g: Graph, done: seq<Id>, id: Id)
    requires Closed(g, done) && id in done
    ensures GrowsByOne(g, done, done, id)
  {
  }

  /** What the walk has done at each moment: after the first `n` dependencies of a
      package exactly what was done before and what they need, and `done` only grows at
      its end. With all of them, and the package itself last, that fixes the order. */
  lemma {:induction false} WalkCovers(g: Graph, rank: map<Id, nat>, done: seq<Id>, id: Id, n: nat)
    requires IsRank(g, rank) && id in g.deps && n <= |g.deps[id]| && Closed(g, done)
    ensures GrowsBy(g, done, FinishDeps(g, rank, done, id, n), g.deps[id][..n])
    decreases rank[id], n
  {
    var deps := g.deps[id];
    if n == 0 {
      assert deps[..n] == [];
      GrowsByNone(g, done);
    } else {
      var before := FinishDeps(g, rank, done, id, n - 1);
      WalkCovers(g, rank, done, id, n - 1);
      assert rank[deps[n - 1]] < rank[id];
      FinishCovers(g, rank, before, deps[n - 1]);
      GrowsOneMore(g, done, before, Finish(g, rank, before, deps[n - 1]), deps, n - 1);
    }
  }

  lemma {:induction false} FinishCovers(g: Graph, rank: map<Id, nat>, done: seq<Id>, id: Id)
    requires IsRank(g, rank) && id in g.deps && Closed(g, done)
    ensures GrowsByOne(g, done, Finish(g, rank, done, id), id)
    decreases rank[id], |g.deps[id]| + 1
  {
    if id in done {
      AlreadyThere(g, done, id);
    } else {
      var n := |g.deps[id]|;
      WalkCovers(g, rank, done, id, n);
      assert g.deps[id][..n] == g.deps[id];
      GrowsByLast(g, done, FinishDeps(g, rank, done, id, n), id);
    }
  }

  /** The order goes by roots: for every number of least ids there is a point up to which
      it lists exactly what they need, and the packages come in the order of those
      points. */
  lemma {:induction false} RootsInOrder(g: Graph, rank: map<Id, nat>, keys: seq<Id>, n: nat)
    requires IsRank(g, rank) && (forall k | 0 <= k < |keys| :: keys[k] in g.deps) && n <= |keys|
    ensures GrowsBy(g, [], FinishKeys(g, rank, keys, n), keys[..n])
    ensures n > 0 ==> FinishKeys(g, rank, keys, n - 1) <= FinishKeys(g, rank, keys, n)
  {
    if n == 0 {
      assert keys[..n] == [];
      GrowsByNone(g, []);
    } else {
      var before := FinishKeys(g, rank, keys, n - 1);
      RootsInOrder(g, rank, keys, n - 1);
      FinishCovers(g, rank, before, keys[n - 1]);
      GrowsOneMore(g, [], before, Finish(g, rank, before, keys[n - 1]), keys, n - 1);
    }
  }

  /** `s` is the order the sorted search yields. */
  ghost predicate IsSearchOrder(g: Graph, s: seq<Id>) {
    var keys := Sorted(g.order);
    && (forall k | 0 <= k < |keys| :: keys[k] in g.deps)
    && exists rank :: IsRank(g, rank) && s == FinishKeys(g, rank, keys, |keys|)
  }

  /** The order depends on the packages and their dependency lists alone, not on
      the dict's own order. */
  lemma SearchOrderIsCanonical(g1: Graph, s1: seq<Id>, g2: Graph, s2: seq<Id>)
    requires WellKeyed(g1) && WellKeyed(g2) && g1.deps == g2.deps
    requires IsSearchOrder(g1, s1) && IsSearchOrder(g2, s2)
    ensures s1 == s2
  {
    SortedMembers(g1.order);
    SortedMembers(g2.order);
    AscendingUnique(Sorted(g1.order), Sorted(g2.order));
    var keys := Sorted(g1.order);
    var r1 :| IsRank(g1, r1) && s1 == FinishKeys(g1, r1, keys, |keys|);
    var r2 :| IsRank(g2, r2) && s2 == FinishKeys(g2, r2, keys, |keys|);
    KeysDecide(g1, g2, r1, r2, keys, |keys|);
  }

  lemma {:induction false} LaterKeysAppend(g: Graph, rank: map<Id, nat>, keys: seq<Id>, m: nat, n: nat)
    requires IsRank(g, rank) && (forall k | 0 <= k < |keys| :: keys[k] in g.deps) && m <= n <= |keys|
    ensures FinishKeys(g, rank, keys, m) <= FinishKeys(g, rank, keys, n)
    decreases n - m
  {
    if m < n {
      LaterKeysAppend(g, rank, keys, m, n - 1);
      assert FinishKeys(g, rank, keys, n - 1) <= FinishKeys(g, rank, keys, n) by {
        RootsInOrder(g, rank, keys, n);
      }
    }
  }

  lemma {:induction false} LaterDepsAppend(g: Graph, rank: map<Id, nat>, done: seq<Id>, id: Id, m: nat, n: nat)
    requires IsRank(g, rank) && id in g.deps && m <= n <= |g.deps[id]|
    ensures FinishDeps(g, rank, done, id, m) <= FinishDeps(g, rank, done, id, n)
    decreases rank[id], n
  {
    if m < n {
      var d, before := g.deps[id][n - 1], FinishDeps(g, rank, done, id, n - 1);
      LaterDepsAppend(g, rank, done, id, m, n - 1);
      assert rank[d] < rank[id];
      LaterDepsAppend(g, rank, before, d, 0, |g.deps[d]|);
    }
  }

  /** A prefix of `s` lists exactly what the packages need. */
  ghost predicate PrefixCovers(g: Graph, s: seq<Id>, front: seq<Id>, ids: seq<Id>) {
    front <= s && forall x :: x in front <==> SomeNeeds(g, ids, x)
  }

  /** Which order the search yields, without the walk: for every `n`, a prefix of it lists
      exactly what the `n` least ids need. */
  lemma OrderGoesByLeastIds(g: Graph, s: seq<Id>, n: nat)
    requires WellKeyed(g) && IsSearchOrder(g, s) && n <= |Sorted(g.order)|
    ensures exists front :: PrefixCovers(g, s, front, Sorted(g.order)[..n])
  {
    var keys := Sorted(g.order);
    var rank :| IsRank(g, rank) && s == FinishKeys(g, rank, keys, |keys|);
    RootsInOrder(g, rank, keys, n);
    LaterKeysAppend(g, rank, keys, n, |keys|);
    assert PrefixCovers(g, s, FinishKeys(g, rank, keys, n), keys[..n]);
  }

  /** And inside the part of one id, which no lesser id needs, it goes by that package's
      own list of dependencies: after any number of them a prefix lists exactly what
      they and the lesser ids need. */
  lemma OrderGoesByDependencies(g: Graph, s: seq<Id>, m: nat, n: nat)
    requires WellKeyed(g) && IsSearchOrder(g, s) && m < |Sorted(g.order)|
    requires Sorted(g.order)[m] in g.deps && n <= |g.deps[Sorted(g.order)[m]]|
    requires !SomeNeeds(g, Sorted(g.order)[..m], Sorted(g.order)[m])
    ensures exists front :: PrefixCovers(g, s, front, Sorted(g.order)[..m] + g.deps[Sorted(g.order)[m]][..n])
  {
    var keys := Sorted(g.order);
    var rank :| IsRank(g, rank) && s == FinishKeys(g, rank, keys, |keys|);
    var done := FinishKeys(g, rank, keys, m);
    RootsInOrder(g, rank, keys, m);
    WalkCovers(g, rank, done, keys[m], n);
    DependenciesBegin(g, rank, keys, m, n);
    LaterKeysAppend(g, rank, keys, m + 1, |keys|);
    CoversBoth(g, s, done, FinishDeps(g, rank, done, keys[m], n), keys[..m], g.deps[keys[m]][..n]);
  }

  lemma DependenciesBegin(g: Graph, rank: map<Id, nat>, keys: seq<Id>, m: nat, n: nat)
    requires IsRank(g, rank) && (forall k | 0 <= k < |keys| :: keys[k] in g.deps) && m < |keys|
    requires n <= |g.deps[keys[m]]| && keys[m] !in FinishKeys(g, rank, keys, m)
    ensures FinishDeps(g, rank, FinishKeys(g, rank, keys, m), keys[m], n) <= FinishKeys(g, rank, keys, m + 1)
  {
    LaterDepsAppend(g, rank, FinishKeys(g, rank, keys, m), keys[m], n, |g.deps[keys[m]]|);
  }

  lemma CoversBoth(g: Graph, s: seq<Id>, done: seq<Id>, front: seq<Id>, a: seq<Id>, b: seq<Id>)
    requires GrowsBy(g, [], done, a) && GrowsBy(g, done, front, b) && front <= s
    ensures PrefixCovers(g, s, front, a + b)
  {
    forall x ensures x in front <==> SomeNeeds(g, a + b, x) {
      BothNeed(g, a, b, x);
    }
  }

  lemma BothNeed(g: Graph, a: seq<Id>, b: seq<Id>, x: Id)
    ensures SomeNeeds(g, a + b, x) <==> SomeNeeds(g, a, x) || SomeNeeds(g, b, x)
  {
    if SomeNeeds(g, a + b, x) {
      var k :| 0 <= k < |a + b| && Needs(g, (a + b)[k], x);
      assert k < |a| ==> Needs(g, a[k], x);
      assert k >= |a| ==> Needs(g, b[k - |a|], x);
    }
    if SomeNeeds(g, a, x) {
      var k :| 0 <= k < |a| && Needs(g, a[k], x);
      assert (a + b)[k] == a[k];
    }
    if SomeNeeds(g, b, x) {
      var k :| 0 <= k < |b| && Needs(g, b[k], x);
      assert (a + b)[|a| + k] == b[k];
    }
  }

  class TopologicalSearch {
    const g: Graph
    var visited: set<Id>
    var ordered: seq<Id>

    constructor (g: Graph)
      ensures this.g == g && Valid() && ordered == []
    {
      this.g := g;
      visited, ordered := {}, [];
    }

    ghost predicate Valid()
      reads this
    {
      visited == Elements(ordered) && DependenciesFirst(g, ordered)
    }

    method Visit(id: Id, ghost rank: map<Id, nat>)
      requires IsRank(g, rank) && id in g.deps && Valid()
      modifies this
      ensures Valid() && id in visited && old(visited) <= visited
      ensures forall x | x in visited :: x in old(visited) || rank[x] <= rank[id]
      ensures ordered == Finish(g, rank, old(ordered), id)
      decreases rank[id]
    {
      if id in visited {
        return;
      }
      var deps := g.deps[id];
      for i := 0 to |deps|
        invariant Valid() && old(visited) <= visited
        invariant forall j | 0 <= j < i :: deps[j] in visited
        invariant forall x | x in visited :: x in old(visited) || rank[x] < rank[id]
        invariant ordered == FinishDeps(g, rank, old(ordered), id, i)
      {
        Visit(deps[i], rank);
      }
      visited := visited + {id};
      AppendFinished(g, ordered, id);
      ordered := ordered + [id];
    }
  }

  method OrderAll(g: Graph, ghost rank: map<Id, nat>) returns (ordered: seq<Id>)
    requires WellKeyed(g) && IsRank(g, rank)
    ensures IsTopological(g, ordered) && IsSearchOrder(g, ordered)
  {
    var keys := Sorted(g.order);
    SortedMembers(g.order);
    assert forall k | 0 <= k < |keys| :: keys[k] in keys && keys[k] in g.deps;
    ordered := SearchFrom(g, keys, rank);
  }

  method SearchFrom(g: Graph, keys: seq<Id>, ghost rank: map<Id, nat>) returns (ordered: seq<Id>)
    requires IsRank(g, rank) && forall k | 0 <= k < |keys| :: keys[k] in g.deps
    ensures DependenciesFirst(g, ordered) && ordered == FinishKeys(g, rank, keys, |keys|)
    ensures forall k | 0 <= k < |keys| :: keys[k] in ordered
  {
    var search := new TopologicalSearch(g);
    for i := 0 to |keys|
      invariant search.Valid() && search.g == g
      invariant forall j | 0 <= j < i :: keys[j] in search.visited
      invariant search.ordered == FinishKeys(g, rank, keys, i)
    {
      search.Visit(keys[i], rank);
    }
    return search.ordered;
  }

  method Topological(g: Graph) returns (r: Result<seq<Id>, DagError>)
    requires WellKeyed(g)
    ensures r.Ok? <==> Known(g) && Acyclic(g)
    ensures r.Ok? ==> IsTopological(g, r.value) && IsSearchOrder(g, r.value)
  {
    var check := ValidateDag(g);
    if check.Err? {
      return Err(check.error);
    }
    RankedIffAcyclic(g);
    ghost var rank :| IsRank(g, rank);
    var ordered := OrderAll(g, rank);
    return Ok(ordered);
  }

  // ---- Dag.critical_path -----------------------------------------------

  /** A chain of packages, each a dependency of the next. */
  ghost predicate IsChain(g: Graph, c: seq<Id>) {
    (forall x | x in c :: x in g.deps) && forall i | 0 <= i < |c| - 1 :: Edge(g, c[i + 1], c[i])
  }

  /** `path_to` without the memo. */
  ghost function LongestTo(g: Graph, rank: map<Id, nat>, id: Id): seq<Id>
    requires IsRank(g, rank) && id in g.deps
    decreases rank[id], |g.deps[id]| + 1
  {
    if g.deps[id] == [] then [id] else LongestOf(g, rank, id, |g.deps[id]|) + [id]
  }

  /** The first longest path among those to the first `n` dependencies of `id`. */
  ghost function LongestOf(g: Graph, rank: map<Id, nat>, id: Id, n: nat): seq<Id>
    requires IsRank(g, rank) && id in g.deps && 1 <= n <= |g.deps[id]|
    decreases rank[id], n
  {
    var last := LongestTo(g, rank, g.deps[id][n - 1]);
    if n == 1 then last
    else var best := LongestOf(g, rank, id, n - 1); if |last| > |best| then last else best
  }

  /** `LongestTo` is a chain from a package without dependencies to `id`. */
  lemma {:induction false} LongestToIsChain(g: Graph, rank: map<Id, nat>, id: Id)
    requires IsRank(g, rank) && id in g.deps
    ensures var c := LongestTo(g, rank, id);
            c != [] && IsChain(g, c) && c[|c| - 1] == id && g.deps[c[0]] == []
    decreases rank[id], |g.deps[id]| + 1
  {
    if g.deps[id] != [] {
      var k := LongestOfIsChain(g, rank, id, |g.deps[id]|);
    }
  }

  lemma {:induction false} LongestOfIsChain(g: Graph, rank: map<Id, nat>, id: Id, n: nat) returns (k: nat)
    requires IsRank(g, rank) && id in g.deps && 1 <= n <= |g.deps[id]|
    ensures k < n
    ensures var c := LongestOf(g, rank, id, n);
            c != [] && IsChain(g, c) && c[|c| - 1] == g.deps[id][k] && g.deps[c[0]] == []
    decreases rank[id], n
  {
    LongestToIsChain(g, rank, g.deps[id][n - 1]);
    k := n - 1;
    if n > 1 {
      var j := LongestOfIsChain(g, rank, id, n - 1);
      if |LongestTo(g, rank, g.deps[id][n - 1])| <= |LongestOf(g, rank, id, n - 1)| {
        k := j;
      }
    }
  }

  /** Of several longest paths to its dependencies a package takes the first. */
  lemma {:induction false} LongestOfIsFirst(g: Graph, rank: map<Id, nat>, id: Id, n: nat) returns (k: nat)
    requires IsRank(g, rank) && id in g.deps && 1 <= n <= |g.deps[id]|
    ensures k < n && LongestOf(g, rank, id, n) == LongestTo(g, rank, g.deps[id][k])
    ensures forall m | 0 <= m < k :: |LongestTo(g, rank, g.deps[id][m])| < |LongestOf(g, rank, id, n)|
    ensures forall m | k <= m < n :: |LongestTo(g, rank, g.deps[id][m])| <= |LongestOf(g, rank, id, n)|
    decreases n
  {
    k := n - 1;
    if n > 1 {
      var j := LongestOfIsFirst(g, rank, id, n - 1);
      if |LongestTo(g, rank, g.deps[id][n - 1])| <= |LongestOf(g, rank, id, n - 1)| {
        k := j;
      }
    }
  }

  lemma {:induction false} LongestOfDominates(g: Graph, rank: map<Id, nat>, id: Id, n: nat, k: nat)
    requires IsRank(g, rank) && id in g.deps && k < n <= |g.deps[id]|
    ensures |LongestTo(g, rank, g.deps[id][k])| <= |LongestOf(g, rank, id, n)|
    decreases n
  {
    if k < n - 1 {
      LongestOfDominates(g, rank, id, n - 1, k);
    }
  }

  /** No chain that ends at `id` is longer than `LongestTo`. */
  lemma {:induction false} NoLongerChain(g: Graph, rank: map<Id, nat>, c: seq<Id>)
    requires IsRank(g, rank) && c != [] && IsChain(g, c)
    ensures |c| <= |LongestTo(g, rank, c[|c| - 1])|
    decreases |c|
  {
    var id := c[|c| - 1];
    if |c| > 1 {
      var front := c[..|c| - 1];
      assert Edge(g, c[|c| - 2 + 1], c[|c| - 2]);
      assert forall i | 0 <= i < |front| - 1 :: Edge(g, front[i + 1], front[i]);
      NoLongerChain(g, rank, front);
      var k := IndexOf(g.deps[id], front[|front| - 1]);
      LongestOfDominates(g, rank, id, |g.deps[id]|, k);
    }
  }

  class PathMemo {
    const g: Graph
    var memo: map<Id, seq<Id>>

    constructor (g: Graph)
      ensures this.g == g && memo == map[]
    {
      this.g := g;
      memo := map[];
    }

    ghost predicate Valid(rank: map<Id, nat>)
      reads this
      requires IsRank(g, rank)
    {
      forall id | id in memo :: id in g.deps && memo[id] == LongestTo(g, rank, id)
    }

    /** The memo never changes an answer. */
    method PathTo(id: Id, ghost rank: map<Id, nat>) returns (r: seq<Id>)
      requires IsRank(g, rank) && id in g.deps && Valid(rank)
      modifies this
      ensures Valid(rank) && r == LongestTo(g, rank, id)
      decreases rank[id]
    {
      if id in memo {
        return memo[id];
      }
      var deps := g.deps[id];
      if deps == [] {
        memo := memo[id := [id]];
        return memo[id];
      }
      var best := PathTo(deps[0], rank);
      for i := 1 to |deps|
        invariant Valid(rank) && best == LongestOf(g, rank, id, i)
      {
        var other := PathTo(deps[i], rank);
        if |other| > |best| {
          best := other;
        }
      }
      memo := memo[id := best + [id]];
      return memo[id];
    }
  }

  /** The last line of `critical_path`: the first longest path in dict order. */
  method FirstLongest(g: Graph, ghost rank: map<Id, nat>) returns (best: seq<Id>, ghost at: nat)
    requires WellKeyed(g) && IsRank(g, rank) && g.order != []
    ensures at < |g.order| && g.order[at] in g.deps && best == LongestTo(g, rank, g.order[at])
    ensures forall j | 0 <= j < |g.order| :: g.order[j] in g.deps && |LongestTo(g, rank, g.order[j])| <= |best|
    ensures forall j | 0 <= j < at :: g.order[j] in g.deps && |LongestTo(g, rank, g.order[j])| < |best|
  {
    assert forall j | 0 <= j < |g.order| :: g.order[j] in g.order;
    var search := new PathMemo(g);
    best := search.PathTo(g.order[0], rank);
    at := 0;
    for i := 1 to |g.order|
      invariant search.g == g && search.Valid(rank)
      invariant 0 <= at < i && best == LongestTo(g, rank, g.order[at])
      invariant forall j | 0 <= j < i :: |LongestTo(g, rank, g.order[j])| <= |best|
      invariant forall j | 0 <= j < at :: |LongestTo(g, rank, g.order[j])| < |best|
    {
      var other := search.PathTo(g.order[i], rank);
      if |other| > |best| {
        best := other;
        at := i;
      }
    }
  }

  lemma LongestOfAllIsLongestChain(g: Graph, rank: map<Id, nat>, best: nat)
    requires WellKeyed(g) && IsRank(g, rank)
    requires forall j | 0 <= j < |g.order| :: g.order[j] in g.deps && |LongestTo(g, rank, g.order[j])| <= best
    ensures forall c | IsChain(g, c) :: |c| <= best
  {
    forall c | IsChain(g, c) ensures |c| <= best {
      if c != [] {
        assert c[|c| - 1] in c;
        NoLongerChain(g, rank, c);
        var k := IndexOf(g.order, c[|c| - 1]);
      }
    }
  }

  /** `critical_path`: a dependency chain that starts at a package without
      dependencies, and no dependency chain of the graph is longer. Ties go to
      the earliest package in dict order. */
  method CriticalPath(g: Graph)
      returns (r: Result<seq<Id>, DagError>, ghost rank: map<Id, nat>, ghost at: nat)
    requires WellKeyed(g)
    ensures r.Ok? <==> Known(g) && Acyclic(g)
    ensures r.Ok? ==> IsChain(g, r.value) && (r.value == [] <==> g.order == [])
    ensures r.Ok? && r.value != [] ==> g.deps[r.value[0]] == []
    ensures r.Ok? ==> forall c | IsChain(g, c) :: |c| <= |r.value|
    ensures r.Ok? && g.order != [] ==>
              && IsRank(g, rank) && at < |g.order| && g.order[at] in g.deps
              && r.value == LongestTo(g, rank, g.order[at])
              && forall j | 0 <= j < at :: g.order[j] in g.deps && |LongestTo(g, rank, g.order[j])| < |r.value|
  {
    rank, at := map[], 0;
    var order := Topological(g);
    if order.Err? {
      r := Err(order.error);
      return;
    }
    RankedIffAcyclic(g);
    rank :| IsRank(g, rank);
    var best := [];
    if g.order != [] {
      best, at := FirstLongest(g, rank);
      LongestToIsChain(g, rank, g.order[at]);
    }
    LongestOfAllIsLongestChain(g, rank, |best|);
    r := Ok(best);
  }
}
