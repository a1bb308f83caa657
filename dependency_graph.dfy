/**
 * The dependency graph of the dependency-recording equivalence tests: a node per normalised
 * pair of states, flagged tested once a test has run on it, with the pairs its test relied on
 * as its dependencies. After a test fails, every tested pair whose dependencies all lead, through
 * tested pairs off the failing path, to pairs already known equivalent is merged.
 */
module DependencyGraphs {
  import opened Base
  import opened Sfa
  import opened UnionFind
  import opened Equivalence
  import opened Scan

  /** A node of the graph. The source's node holds its pair and references to the nodes it
      depends on; here a node is found under its pair, and dependencies are named by pair. */
  datatype StatePair = StatePair(tested: bool, deps: seq<Pair>)

  /** `pairLookup`: the node of each pair. */
  type Lookup = map<Pair, StatePair>

  /** Every dependency is itself a node of the graph. */
  ghost predicate EdgesInside(g: Lookup)
  {
    forall pr, d :: pr in g && d in g[pr].deps ==> d in g
  }

  /** The dependencies of `pair` so far, none for a pair without a node. */
  function DepsOf(g: Lookup, pair: Pair): seq<Pair>
  {
    if pair in g then g[pair].deps else []
  }

  /** `addDependency(pair, dependency)`: a pair does not depend on itself; otherwise `pair`
      becomes a tested node with `dependency` appended to its dependencies, and a dependency
      without a node gets an untested one. */
  function Recorded(g: Lookup, pair: Pair, dependency: Pair): (r: Lookup)
    ensures pair == dependency ==> r == g
    ensures pair != dependency ==>
      && r.Keys == g.Keys + {pair, dependency}
      && r[pair] == StatePair(true, DepsOf(g, pair) + [dependency])
      && (dependency !in g ==> r[dependency] == StatePair(false, []))
      && (forall x :: x in g && x != pair ==> r[x] == g[x])
    ensures EdgesInside(g) ==> EdgesInside(r)
  {
    if pair == dependency then g
    else
      var pairEntry := if pair in g then StatePair(true, g[pair].deps) else StatePair(true, []);
      var g1 := g[pair := pairEntry];
      var g2 := if dependency in g1 then g1 else g1[dependency := StatePair(false, [])];
      g2[pair := StatePair(true, g2[pair].deps + [dependency])]
  }

  /** The entries of `ds` other than `pair`, in order. */
  function Without(ds: seq<Pair>, pair: Pair): (r: seq<Pair>)
    ensures forall d :: d in r <==> d in ds && d != pair
  {
    if ds == [] then []
    else if ds[|ds| - 1] == pair then Without(ds[..|ds| - 1], pair)
    else Without(ds[..|ds| - 1], pair) + [ds[|ds| - 1]]
  }

  /** `addAllDependencies(pair, dpairs)`: `addDependency` for each entry in turn. The pair
      depends, after its old dependencies, on every entry other than itself, and is tested once
      it depends on anything; nodes of other pairs keep their dependencies. */
  function RecordedAll(g: Lookup, pair: Pair, ds: seq<Pair>): (r: Lookup)
    ensures g.Keys <= r.Keys
    ensures forall d :: d in ds && d != pair ==> d in r
    ensures forall x :: x in r && x !in g ==> x in ds || x == pair
    ensures Without(ds, pair) != [] ==> pair in r && r[pair] == StatePair(true, DepsOf(g, pair) + Without(ds, pair))
    ensures Without(ds, pair) == [] ==> r == g
    ensures forall x :: x in g && x != pair ==> r[x].deps == g[x].deps
    ensures EdgesInside(g) ==> EdgesInside(r)
  {
    if ds == [] then g
    else
      var earlier, d := ds[..|ds| - 1], ds[|ds| - 1];
      var prev := RecordedAll(g, pair, earlier);
      assert d != pair ==> DepsOf(prev, pair) + [d] == DepsOf(g, pair) + (Without(earlier, pair) + [d]);
      Recorded(prev, pair, d)
  }

  // ---------------------------------------------------------------------------------------------
  // Merging after a failed test.
  // ---------------------------------------------------------------------------------------------

  /** `x` and `y` are registered and share a class. */
  predicate SameClass(root: map<State, State>, x: State, y: State)
  {
    x in root && y in root && root[x] == root[y]
  }

  /** Every pair that a node of `s - base` depends on is in `s` or already has its two states in
      one class. */
  ghost predicate DepsSettled(g: Lookup, root: map<State, State>, s: set<Pair>, base: set<Pair>)
  {
    forall x, d :: x in s && x !in base && x in g && d in g[x].deps ==> d in s || SameClass(root, d.fst, d.snd)
  }

  /** The breadth-first walk of `mergePair` from the queue `queue` with the nodes of `seen`
      already collected: a collected pair or one whose states share a class is passed over; an
      untested or bad pair ends the walk with nothing to merge; any other pair is collected and
      its dependencies queued. The result is the collected pairs, `None` when there is nothing
      to merge, or the error of looking up a state unknown to the partition. */
  ghost function Explored(g: Lookup, root: map<State, State>, bad: set<Pair>, queue: seq<Pair>,
                          seen: set<Pair>): (r: Result<Option<set<Pair>>>)
    requires EdgesInside(g) && (forall d :: d in queue ==> d in g) && seen <= g.Keys
    ensures r.Ok? && r.value.Some? ==>
      var s := r.value.value;
      && seen <= s <= g.Keys
      && (forall d :: d in s && d !in seen ==> g[d].tested && d !in bad && d.fst in root && d.snd in root)
      && (forall d :: d in queue ==> d in s || SameClass(root, d.fst, d.snd))
      && DepsSettled(g, root, s, seen)
    ensures r.Ok? && r.value.None? ==> exists d :: d in g && d !in seen && (!g[d].tested || d in bad)
    ensures r.Err? ==> exists d :: d in g && (d.fst !in root || d.snd !in root)
    decreases |g.Keys - seen|, |queue|
  {
    if queue == [] then Ok(Some(seen))
    else
      var dep := queue[0];
      if dep in seen then Explored(g, root, bad, queue[1..], seen)
      else if dep.fst !in root || dep.snd !in root then Err(IllegalArgument)
      else if root[dep.fst] == root[dep.snd] then Explored(g, root, bad, queue[1..], seen)
      else if !g[dep].tested || dep in bad then Ok(None)
      else
        FewerUnseen(g.Keys, seen, dep);
        Explored(g, root, bad, queue[1..] + g[dep].deps, seen + {dep})
  }

  lemma FewerUnseen(keys: set<Pair>, seen: set<Pair>, dep: Pair)
    requires dep in keys && dep !in seen
    ensures |keys - (seen + {dep})| < |keys - seen|
  {
    assert keys - (seen + {dep}) == (keys - seen) - {dep};
  }

  /** Every pair of the graph has its states registered with the partition. */
  ghost predicate Registered(g: Lookup, root: map<State, State>)
  {
    forall d :: d in g ==> d.fst in root && d.snd in root
  }

  /** Registration depends only on the states of the partition. */
  lemma RegisteredKeys(g: Lookup, root0: map<State, State>, root: map<State, State>)
    requires Registered(g, root0) && root.Keys == root0.Keys
    ensures Registered(g, root)
  {
  }

  /** A `mergePair` that fails over a partition of the same states as `root0` shows that the
      graph is not registered over `root0`. */
  lemma ExploreFailsUnregistered(g: Lookup, bad: set<Pair>, root0: map<State, State>, root: map<State, State>, n: Pair)
    requires EdgesInside(g) && n in g && root.Keys == root0.Keys && Explored(g, root, bad, g[n].deps, {}).Err?
    ensures !Registered(g, root0)
  {
    if Registered(g, root0) {
      RegisteredKeys(g, root0, root);
    }
  }

  /** The partition `root` only joins classes of `root0`. Stated one pair of states at a time, so
      that a fact about two states is drawn only where a proof names them. */
  ghost predicate Coarsens(root0: map<State, State>, root: map<State, State>)
  {
    && root.Keys == root0.Keys
    && forall x, y :: KeptTogether(root0, root, x, y)
  }

  ghost predicate KeptTogether(root0: map<State, State>, root: map<State, State>, x: State, y: State)
  {
    x in root0 && y in root0 && root0[x] == root0[y] ==> x in root && y in root && root[x] == root[y]
  }

  /** The two states of every pair of `s` share a class. */
  ghost predicate JoinsAll(root: map<State, State>, s: set<Pair>)
  {
    forall pr :: pr in s ==> SameClass(root, pr.fst, pr.snd)
  }

  lemma CoarsensReflexive(root: map<State, State>)
    ensures Coarsens(root, root)
  {
  }

  lemma CoarsensTransitive(root0: map<State, State>, root1: map<State, State>, root2: map<State, State>)
    requires Coarsens(root0, root1) && Coarsens(root1, root2)
    ensures Coarsens(root0, root2)
  {
    forall x, y ensures KeptTogether(root0, root2, x, y) {
      assert KeptTogether(root0, root1, x, y) && KeptTogether(root1, root2, x, y);
    }
  }

  /** A later coarsening keeps joined pairs joined. */
  lemma JoinsAllCoarsens(root: map<State, State>, root': map<State, State>, s: set<Pair>)
    requires JoinsAll(root, s) && Coarsens(root, root')
    ensures JoinsAll(root', s)
  {
    forall pr | pr in s ensures SameClass(root', pr.fst, pr.snd) {
      assert KeptTogether(root, root', pr.fst, pr.snd);
    }
  }

  /** A merge of two classes coarsens the partition, keeps what it joined joined, and joins the
      two states of `pr`. */
  lemma UnionStep(root0: map<State, State>, root: map<State, State>, rank: map<State, int>, pr: Pair, done: set<Pair>)
    requires Coarsens(root0, root) && JoinsAll(root, done)
    requires pr.fst in root && pr.snd in root && root[pr.fst] in rank && root[pr.snd] in rank
    ensures Coarsens(root0, MergedRoot(root, rank, root[pr.fst], root[pr.snd]))
    ensures JoinsAll(MergedRoot(root, rank, root[pr.fst], root[pr.snd]), done + {pr})
  {
    var root' := MergedRoot(root, rank, root[pr.fst], root[pr.snd]);
    forall x, y ensures KeptTogether(root, root', x, y) {
      if x in root && y in root && root[x] == root[y] {
        MergeCoarsens(root, rank, root[pr.fst], root[pr.snd], x, y);
      }
    }
    assert Coarsens(root, root');
    CoarsensTransitive(root0, root, root');
  }

  // ---------------------------------------------------------------------------------------------
  // Joining pairs exactly.
  // ---------------------------------------------------------------------------------------------

  /** Every partition that coarsens `root0` and joins the pairs of `s` also coarsens `root`. */
  ghost predicate Finest(root0: map<State, State>, s: set<Pair>, root: map<State, State>)
  {
    forall root' {:trigger JoinsAll(root', s)} :: Coarsens(root0, root') && JoinsAll(root', s) ==> Coarsens(root, root')
  }

  /** `root` is `root0` with the pairs of `s` joined and nothing else: the finest partition that
      coarsens `root0` and joins every pair of `s`. */
  ghost predicate JoinOf(root0: map<State, State>, s: set<Pair>, root: map<State, State>)
  {
    Coarsens(root0, root) && JoinsAll(root, s) && Finest(root0, s, root)
  }

  /** Joining no pair leaves the partition as it is. */
  lemma JoinOfNothing(root: map<State, State>)
    ensures JoinOf(root, {}, root)
  {
    CoarsensReflexive(root);
  }

  /** Two partitions that both join `s` exactly into `root0` are the same partition. */
  lemma JoinOfUnique(root0: map<State, State>, s: set<Pair>, root1: map<State, State>, root2: map<State, State>)
    requires JoinOf(root0, s, root1) && JoinOf(root0, s, root2)
    ensures Coarsens(root1, root2) && Coarsens(root2, root1)
  {
  }

  /** The union of the classes of the two states of `pr` joins exactly `pr`. */
  lemma JoinOfUnion(root: map<State, State>, rank: map<State, int>, pr: Pair)
    requires pr.fst in root && pr.snd in root && root[pr.fst] in rank && root[pr.snd] in rank
    ensures JoinOf(root, {pr}, MergedRoot(root, rank, root[pr.fst], root[pr.snd]))
  {
    var merged := MergedRoot(root, rank, root[pr.fst], root[pr.snd]);
    CoarsensReflexive(root);
    UnionStep(root, root, rank, pr, {});
    forall root' | Coarsens(root, root') && JoinsAll(root', {pr}) ensures Coarsens(merged, root') {
      assert SameClass(root', pr.fst, pr.snd);
      forall x, y ensures KeptTogether(merged, root', x, y) {
        if x in merged && y in merged && merged[x] == merged[y] {
          assert KeptTogether(root, root', x, y);
          assert KeptTogether(root, root', x, pr.fst) && KeptTogether(root, root', x, pr.snd);
          assert KeptTogether(root, root', y, pr.fst) && KeptTogether(root, root', y, pr.snd);
        }
      }
    }
  }

  /** Joining `s` and then `t` joins exactly `s + t`. */
  lemma JoinOfStep(root0: map<State, State>, s: set<Pair>, root1: map<State, State>, t: set<Pair>, root2: map<State, State>)
    requires JoinOf(root0, s, root1) && JoinOf(root1, t, root2)
    ensures JoinOf(root0, s + t, root2)
  {
    CoarsensTransitive(root0, root1, root2);
    JoinsAllCoarsens(root1, root2, s);
    forall root' | Coarsens(root0, root') && JoinsAll(root', s + t) ensures Coarsens(root2, root') {
      assert JoinsAll(root', s) && JoinsAll(root', t);
      assert Coarsens(root1, root');
    }
  }

  /** Joining one pair: two states share a class afterwards exactly when they shared one before,
      or one of them shared a class with the first state of the pair and the other with the
      second. */
  lemma JoinOfPair(root0: map<State, State>, pr: Pair, root: map<State, State>, x: State, y: State)
    requires JoinOf(root0, {pr}, root)
    requires pr.fst in root0 && pr.snd in root0 && x in root0 && y in root0
    ensures SameClass(root, x, y) <==>
      || SameClass(root0, x, y)
      || (SameClass(root0, x, pr.fst) && SameClass(root0, y, pr.snd))
      || (SameClass(root0, x, pr.snd) && SameClass(root0, y, pr.fst))
  {
    assert SameClass(root, pr.fst, pr.snd);
    assert KeptTogether(root0, root, x, y);
    assert KeptTogether(root0, root, x, pr.fst) && KeptTogether(root0, root, x, pr.snd);
    assert KeptTogether(root0, root, y, pr.fst) && KeptTogether(root0, root, y, pr.snd);
    var r1, r2 := root0[pr.fst], root0[pr.snd];
    var joined := map z | z in root0 :: if root0[z] == r2 then r1 else root0[z];
    forall u, v ensures KeptTogether(root0, joined, u, v) {
    }
    assert Coarsens(root0, joined) && JoinsAll(joined, {pr});
    assert Coarsens(root, joined);
    assert KeptTogether(root, joined, x, y);
  }

  // ---------------------------------------------------------------------------------------------
  // Partitions whose classes hold only equivalent states.
  // ---------------------------------------------------------------------------------------------

  /** Only equivalent states share a class of `root`. */
  ghost predicate ClassesSound(a: Automaton, root: map<State, State>)
  {
    forall x, y :: SoundPair(a, root, x, y)
  }

  ghost predicate SoundPair(a: Automaton, root: map<State, State>, x: State, y: State)
  {
    SameClass(root, x, y) ==> Equivalent(a, x, y)
  }

  /** A sound partition has sound classes: the members of a class accept what its identifier
      accepts. */
  lemma SoundClasses(a: Automaton, root: map<State, State>)
    requires SoundPartition(a, root)
    ensures ClassesSound(a, root)
  {
    forall x, y ensures SoundPair(a, root, x, y) {
      if SameClass(root, x, y) {
        assert Equivalent(a, x, root[x]) && Equivalent(a, y, root[y]);
        EquivalentSymmetric(a, y, root[y]);
        EquivalentTransitive(a, x, root[x], y);
      }
    }
  }

  /** With sound classes, a partition whose identifiers identify themselves is sound. */
  lemma ClassesSoundPartition(a: Automaton, root: map<State, State>)
    requires ClassesSound(a, root) && Identifies(a, root)
    ensures SoundPartition(a, root)
  {
    forall x | x in root ensures Equivalent(a, x, root[x]) {
      assert SoundPair(a, root, x, root[x]);
    }
  }

  /** Joining pairs of equivalent states into a partition with sound classes keeps its classes
      sound. */
  lemma JoinOfSound(a: Automaton, root0: map<State, State>, s: set<Pair>, root: map<State, State>)
    requires JoinOf(root0, s, root) && ClassesSound(a, root0)
    requires forall pr :: pr in s ==> Equivalent(a, pr.fst, pr.snd)
    ensures ClassesSound(a, root)
  {
    forall x, y ensures SoundPair(a, root, x, y) {
      if SameClass(root, x, y) {
        // The partition into the states equivalent to `x` and all others.
        var split := map z | z in root0 :: if Equivalent(a, z, x) then x else x + 1;
        forall u, v ensures KeptTogether(root0, split, u, v) {
          if u in root0 && v in root0 && root0[u] == root0[v] {
            assert SoundPair(a, root0, u, v);
            SplitAgrees(a, x, u, v);
          }
        }
        forall pr | pr in s ensures SameClass(split, pr.fst, pr.snd) {
          SplitAgrees(a, x, pr.fst, pr.snd);
        }
        assert JoinsAll(split, s);
        assert KeptTogether(root, split, x, y);
        EquivalentSymmetric(a, y, x);
      }
    }
  }

  /** Equivalent states are both equivalent to `x` or neither is. */
  lemma SplitAgrees(a: Automaton, x: State, u: State, v: State)
    requires Equivalent(a, u, v)
    ensures Equivalent(a, u, x) <==> Equivalent(a, v, x)
  {
    if Equivalent(a, u, x) {
      EquivalentSymmetric(a, u, v);
      EquivalentTransitive(a, v, u, x);
    }
    if Equivalent(a, v, x) {
      EquivalentTransitive(a, u, v, x);
    }
  }

  // ---------------------------------------------------------------------------------------------
  // The merge loop of `mergeStates`.
  // ---------------------------------------------------------------------------------------------

  /** The tested nodes off the bad path: the nodes `mergeStates` calls `mergePair` from. */
  ghost function Starts(g: Lookup, bad: set<Pair>): set<Pair>
  {
    set n | n in g && g[n].tested && n !in bad
  }

  /** One `mergePair` from node `n` that does not fail: from the partition `root` it leaves the
      partition `root'`, counting `k` pairs merged. */
  ghost predicate MergedFrom(g: Lookup, bad: set<Pair>, root: map<State, State>, n: Pair,
                             root': map<State, State>, k: int)
    requires EdgesInside(g) && n in g
  {
    match Explored(g, root, bad, g[n].deps, {})
    case Ok(Some(s)) => k == |s| && JoinOf(root, s, root')
    case Ok(None) => k == 0 && root' == root
    case Err(_) => false
  }

  /** The `mergePair` calls from the nodes of `order` in turn lead from the partition `root0` to
      the partition `root`; call `i` counts `counts[i]` pairs merged. */
  ghost predicate MergeRun(g: Lookup, bad: set<Pair>, order: seq<Pair>, counts: seq<int>,
                           root0: map<State, State>, root: map<State, State>)
    decreases |order|
  {
    && EdgesInside(g) && |counts| == |order|
    && if order == [] then root == root0
       else exists mid :: LastCall(g, bad, order, counts, root0, mid, root)
  }

  /** `mid` is the partition before the last call of the run, and that call leaves `root`. */
  ghost predicate LastCall(g: Lookup, bad: set<Pair>, order: seq<Pair>, counts: seq<int>,
                           root0: map<State, State>, mid: map<State, State>, root: map<State, State>)
    requires EdgesInside(g) && |counts| == |order| && order != []
    decreases |order|, 0
  {
    && MergeRun(g, bad, order[..|order| - 1], counts[..|counts| - 1], root0, mid)
    && order[|order| - 1] in g
    && MergedFrom(g, bad, mid, order[|order| - 1], root, counts[|counts| - 1])
  }

  /** A run extended by one more call. */
  lemma MergeRunStep(g: Lookup, bad: set<Pair>, order: seq<Pair>, counts: seq<int>, root0: map<State, State>,
                     mid: map<State, State>, n: Pair, root: map<State, State>, k: int)
    requires MergeRun(g, bad, order, counts, root0, mid) && n in g
    requires MergedFrom(g, bad, mid, n, root, k)
    ensures MergeRun(g, bad, order + [n], counts + [k], root0, root)
  {
    assert (order + [n])[..|order|] == order && (counts + [k])[..|counts|] == counts;
    assert LastCall(g, bad, order + [n], counts + [k], root0, mid, root);
  }

  /** No pair occurs twice. */
  predicate Distinct(order: seq<Pair>)
  {
    forall i, j :: 0 <= i < j < |order| ==> order[i] != order[j]
  }

  /** The calls so far of the merge loop of `mergeStates`, with `todo` the nodes not yet taken:
      every node taken and started from occurs once in `order`, and `result` is the running
      total. */
  ghost predicate MergeLoop(g: Lookup, bad: set<Pair>, root0: map<State, State>, order: seq<Pair>,
                            counts: seq<int>, root: map<State, State>, todo: set<Pair>, result: int)
  {
    && MergeRun(g, bad, order, counts, root0, root)
    && Distinct(order) && (forall m :: m in order <==> m in Starts(g, bad) - todo)
    && todo <= g.Keys && result == IntSum(counts)
  }

  /** One call of the merge loop from node `n`, taken from `todo`. */
  lemma MergeLoopStep(g: Lookup, bad: set<Pair>, root0: map<State, State>, order: seq<Pair>, counts: seq<int>,
                      root: map<State, State>, todo: set<Pair>, result: int, n: Pair, root': map<State, State>, k: int)
    requires MergeLoop(g, bad, root0, order, counts, root, todo, result)
    requires n in todo && g[n].tested && n !in bad
    requires MergedFrom(g, bad, root, n, root', k)
    ensures MergeLoop(g, bad, root0, order + [n], counts + [k], root', todo - {n}, Wrap32(result + k))
  {
    MergeRunStep(g, bad, order, counts, root0, root, n, root', k);
    DistinctAppend(order, n);
    assert (counts + [k])[..|counts|] == counts;
  }

  /** A node the merge loop passes over leaves the calls so far as they were. */
  lemma MergeLoopSkip(g: Lookup, bad: set<Pair>, root0: map<State, State>, order: seq<Pair>, counts: seq<int>,
                      root: map<State, State>, todo: set<Pair>, result: int, n: Pair)
    requires MergeLoop(g, bad, root0, order, counts, root, todo, result)
    requires n in todo && (!g[n].tested || n in bad)
    ensures MergeLoop(g, bad, root0, order, counts, root, todo - {n}, result)
  {
  }

  /** What the calls so far say once the loop stops: each node was started from at most once,
      and every node was when none is left. */
  lemma MergeLoopEnd(g: Lookup, bad: set<Pair>, root0: map<State, State>, order: seq<Pair>, counts: seq<int>,
                     root: map<State, State>, todo: set<Pair>, result: int)
    requires MergeLoop(g, bad, root0, order, counts, root, todo, result)
    ensures MergeRun(g, bad, order, counts, root0, root)
    ensures Distinct(order) && forall n :: n in order ==> n in Starts(g, bad)
    ensures todo == {} ==> result == IntSum(counts) && forall n :: n in Starts(g, bad) ==> n in order
  {
  }

  // ---------------------------------------------------------------------------------------------
  // Graphs whose finished nodes are closed, and the soundness of merging them.
  // ---------------------------------------------------------------------------------------------

  /** The test of node `n` has handled every symbol: its two states are states that agree on
      the empty word, and on each symbol their successor classes under `root` coincide or form
      one of the node's dependencies or the node itself. */
  ghost predicate NodeClosed(ba: Algebra, a: Automaton, root: map<State, State>, g: Lookup, n: Pair)
  {
    n in g && AllClosed(ba, a, root, {n}, Deps(g, n))
  }

  /** The pairs the test of `n` may rely on: its dependencies and the pair itself. */
  ghost function Deps(g: Lookup, n: Pair): set<Pair>
  {
    (set d | d in DepsOf(g, n)) + {n}
  }

  /** Every dependency recorded in `g` is still recorded in `g'`. */
  ghost predicate Grows(g: Lookup, g': Lookup)
  {
    forall n, d :: d in DepsOf(g, n) ==> d in DepsOf(g', n)
  }

  lemma GrowsDeps(g: Lookup, g': Lookup, n: Pair)
    requires Grows(g, g')
    ensures Deps(g, n) <= Deps(g', n)
  {
  }

  lemma GrowsTransitive(g1: Lookup, g2: Lookup, g3: Lookup)
    requires Grows(g1, g2) && Grows(g2, g3)
    ensures Grows(g1, g3)
  {
  }

  /** Recording a dependency of a node still under test keeps every finished node closed, only
      adds dependencies, and makes the recorded pair one the node may rely on. */
  lemma RecordKeepsClosed(ba: Algebra, a: Automaton, root: map<State, State>, g: Lookup, open: set<Pair>,
                          pair: Pair, dependency: Pair)
    requires GraphClosed(ba, a, root, g, open) && pair in open
    ensures GraphClosed(ba, a, root, Recorded(g, pair, dependency), open)
    ensures Grows(g, Recorded(g, pair, dependency))
    ensures dependency in Deps(Recorded(g, pair, dependency), pair)
  {
    var r := Recorded(g, pair, dependency);
    forall n | n in r && r[n].tested && n !in open ensures NodeClosed(ba, a, root, r, n) {
      assert n in g && r[n] == g[n];
      assert NodeClosed(ba, a, root, g, n);
      assert Deps(r, n) == Deps(g, n);
    }
    if pair != dependency {
      assert DepsOf(r, pair) == DepsOf(g, pair) + [dependency];
    }
  }

  /** A node whose test has handled every symbol may leave the nodes still under test. */
  lemma CloseNode(ba: Algebra, a: Automaton, root: map<State, State>, g: Lookup, open: set<Pair>, pair: Pair)
    requires GraphClosed(ba, a, root, g, open)
    requires pair in g ==> AllClosed(ba, a, root, {pair}, Deps(g, pair))
    ensures GraphClosed(ba, a, root, g, open - {pair})
  {
    forall n | n in g && g[n].tested && n !in open - {pair} ensures NodeClosed(ba, a, root, g, n) {
      if n != pair {
        assert NodeClosed(ba, a, root, g, n);
      }
    }
  }

  /** Placing more nodes under test keeps the others closed. */
  lemma OpenMore(ba: Algebra, a: Automaton, root: map<State, State>, g: Lookup, open: set<Pair>, pair: Pair)
    requires GraphClosed(ba, a, root, g, open)
    ensures GraphClosed(ba, a, root, g, open + {pair})
  {
    forall n | n in g && g[n].tested && n !in open + {pair} ensures NodeClosed(ba, a, root, g, n) {
      assert NodeClosed(ba, a, root, g, n);
    }
  }

  /** With every finished node closed under a sound partition `root0`, the calls of
      `mergeStates` from `root0` leave a sound partition. */
  lemma MergeRunKeepsSound(ba: Algebra, a: Automaton, root0: map<State, State>, g: Lookup, bad: set<Pair>,
                           order: seq<Pair>, counts: seq<int>, root: map<State, State>)
    requires ValidAutomaton(ba, a) && SoundPartition(a, root0) && GraphClosed(ba, a, root0, g, bad)
    requires MergeRun(g, bad, order, counts, root0, root) && Identifies(a, root)
    ensures SoundPartition(a, root)
  {
    SoundClasses(a, root0);
    MergeRunSound(ba, a, root0, g, bad, order, counts, root0, root);
    ClassesSoundPartition(a, root);
  }

  /** Every tested node off `open` is closed: only the nodes of `open` may still be under test. */
  ghost predicate GraphClosed(ba: Algebra, a: Automaton, root: map<State, State>, g: Lookup, open: set<Pair>)
  {
    forall n {:trigger NodeClosed(ba, a, root, g, n)} :: n in g && g[n].tested && n !in open ==> NodeClosed(ba, a, root, g, n)
  }

  /** When the nodes off the bad path are closed under the partition `root0` of the test, the
      walk of `mergePair` under a partition `root` with sound classes collects only pairs of
      equivalent states: the collected nodes are closed among themselves up to pairs whose states
      already share a sound class. */
  lemma ExploredSound(ba: Algebra, a: Automaton, root0: map<State, State>, root: map<State, State>,
                      g: Lookup, bad: set<Pair>, queue: seq<Pair>, s: set<Pair>)
    requires ValidAutomaton(ba, a) && SoundPartition(a, root0) && ClassesSound(a, root)
    requires EdgesInside(g) && (forall d :: d in queue ==> d in g) && GraphClosed(ba, a, root0, g, bad)
    requires Explored(g, root, bad, queue, {}) == Ok(Some(s))
    ensures forall pr :: pr in s ==> Equivalent(a, pr.fst, pr.snd)
  {
    var t := s + set x, d | x in s && x in g && d in g[x].deps :: d;
    forall pr | pr in s
      ensures pr.fst in a.states && pr.snd in a.states && (pr.fst in a.finals <==> pr.snd in a.finals)
      ensures Closed(ba, a, root0, pr.fst, pr.snd, t)
    {
      assert NodeClosed(ba, a, root0, g, pr);
      var tp := Deps(g, pr);
      assert pr in {pr};
      HandledGrow(a, root0, pr.fst, pr.snd, ba.universe, tp, t);
    }
    forall pr | pr in t && pr !in s ensures Equivalent(a, pr.fst, pr.snd) {
      var x :| x in s && x in g && pr in g[x].deps;
      assert SameClass(root, pr.fst, pr.snd);
      assert SoundPair(a, root, pr.fst, pr.snd);
    }
    ClosedUpToEquivalent(ba, a, root0, s, t);
  }

  /** The calls of `mergeStates` keep the classes sound when the nodes off the bad path are
      closed under a sound partition `root0`. */
  lemma {:induction false} MergeRunSound(ba: Algebra, a: Automaton, root0: map<State, State>, g: Lookup,
                                         bad: set<Pair>, order: seq<Pair>, counts: seq<int>,
                                         start: map<State, State>, root: map<State, State>)
    requires ValidAutomaton(ba, a) && SoundPartition(a, root0) && GraphClosed(ba, a, root0, g, bad)
    requires MergeRun(g, bad, order, counts, start, root) && ClassesSound(a, start)
    ensures ClassesSound(a, root)
    decreases |order|
  {
    if order != [] {
      var mid :| LastCall(g, bad, order, counts, start, mid, root);
      MergeRunSound(ba, a, root0, g, bad, order[..|order| - 1], counts[..|counts| - 1], start, mid);
      var n := order[|order| - 1];
      match Explored(g, mid, bad, g[n].deps, {}) {
        case Ok(Some(s)) =>
          ExploredSound(ba, a, root0, mid, g, bad, g[n].deps, s);
          JoinOfSound(a, mid, s, root);
        case Ok(None) =>
      }
    }
  }

  lemma DistinctAppend(order: seq<Pair>, n: Pair)
    requires Distinct(order) && n !in order
    ensures Distinct(order + [n])
  {
    forall i | 0 <= i < |order| ensures (order + [n])[i] != n {
      assert order[i] in order;
    }
  }

  /** The exact total of the counts. */
  function Sum(counts: seq<int>): int
  {
    if counts == [] then 0 else Sum(counts[..|counts| - 1]) + counts[|counts| - 1]
  }

  /** The counts added up one `+=` at a time in Java's `int`: the exact total wrapped to 32 bits,
      and the exact total itself when that fits. */
  function IntSum(counts: seq<int>): (r: int)
    ensures IntMin <= r <= IntMax
    ensures (r - Sum(counts)) % 0x1_0000_0000 == 0
    ensures IntMin <= Sum(counts) <= IntMax ==> r == Sum(counts)
  {
    if counts == [] then 0 else Wrap32(IntSum(counts[..|counts| - 1]) + counts[|counts| - 1])
  }

  class DependencyGraph {
    var pairLookup: Lookup

    ghost predicate Valid()
      reads this
    {
      EdgesInside(pairLookup)
    }

    constructor ()
      ensures Valid() && pairLookup == map[]
    {
      pairLookup := map[];
    }

    method AddDependency(pair: Pair, dependency: Pair)
      requires Valid()
      modifies this
      ensures Valid() && pairLookup == Recorded(old(pairLookup), pair, dependency)
    {
      if pair == dependency {
        return;
      }
      var pairEntry;
      if pair in pairLookup {
        pairEntry := StatePair(true, pairLookup[pair].deps);
        pairLookup := pairLookup[pair := pairEntry];
      } else {
        pairEntry := StatePair(true, []);
        pairLookup := pairLookup[pair := pairEntry];
      }
      if dependency !in pairLookup {
        pairLookup := pairLookup[dependency := StatePair(false, [])];
      }
      pairLookup := pairLookup[pair := StatePair(true, pairLookup[pair].deps + [dependency])];
    }

    method AddAllDependencies(pair: Pair, dpairs: seq<Pair>)
      requires Valid()
      modifies this
      ensures Valid() && pairLookup == RecordedAll(old(pairLookup), pair, dpairs)
    {
      for i := 0 to |dpairs|
        invariant Valid() && pairLookup == RecordedAll(old(pairLookup), pair, dpairs[..i])
      {
        assert dpairs[..i + 1][..i] == dpairs[..i];
        AddDependency(pair, dpairs[i]);
      }
      assert dpairs[..|dpairs|] == dpairs;
    }

    /** `mergePair`: walks the dependencies of `pairEntry` and, unless a pair on the way is
        untested or bad, merges the classes of every pair collected; the result is the number
        of pairs merged. */
    method MergePair(pairEntry: Pair, equivClasses: DisjointSets, badPairs: set<Pair>) returns (r: Result<int>)
      requires Valid() && pairEntry in pairLookup && equivClasses.Valid()
      modifies equivClasses
      ensures equivClasses.Valid() && equivClasses.parentMap.Keys == old(equivClasses.parentMap.Keys)
      ensures Coarsens(old(equivClasses.Root), equivClasses.Root)
      ensures match Explored(pairLookup, old(equivClasses.Root), badPairs, pairLookup[pairEntry].deps, {})
        case Err(e) => r == Err(e) && equivClasses.Root == old(equivClasses.Root)
        case Ok(None) => r == Ok(0) && equivClasses.Root == old(equivClasses.Root)
        case Ok(Some(s)) => r == Ok(|s|) && JoinOf(old(equivClasses.Root), s, equivClasses.Root)
    {
      CoarsensReflexive(equivClasses.Root);
      var collected := CollectDeps(pairLookup[pairEntry].deps, equivClasses, badPairs);
      match collected {
        case Err(e) =>
          r := Err(e);
        case Ok(None) =>
          r := Ok(0);
        case Ok(Some(seenPairs)) =>
          UnionAll(seenPairs, equivClasses);
          r := Ok(|seenPairs|);
      }
    }

    /** `mergeStates`: `mergePair` from every tested node whose pair is off the bad path, in the
        order the map yields them; the result is the total of pairs merged, summed in Java's
        `int`. An error of `mergePair` ends the loop. The ghost results record the calls that
        did not fail: their nodes in order, the partitions between them and their counts. */
    method MergeStates(equivClasses: DisjointSets, badPath: set<Pair>)
      returns (r: Result<int>, ghost order: seq<Pair>, ghost counts: seq<int>)
      requires Valid() && equivClasses.Valid()
      modifies equivClasses
      ensures equivClasses.Valid() && equivClasses.parentMap.Keys == old(equivClasses.parentMap.Keys)
      ensures Coarsens(old(equivClasses.Root), equivClasses.Root)
      ensures MergeRun(pairLookup, badPath, order, counts, old(equivClasses.Root), equivClasses.Root)
      ensures Distinct(order) && forall n :: n in order ==> n in Starts(pairLookup, badPath)
      ensures r.Ok? ==> r.value == IntSum(counts) && forall n :: n in Starts(pairLookup, badPath) ==> n in order
      ensures Registered(pairLookup, old(equivClasses.Root)) ==> r.Ok?
    {
      ghost var root0 := equivClasses.Root;
      CoarsensReflexive(root0);
      order, counts := [], [];
      var result := 0;
      var todo := pairLookup.Keys;
      while todo != {}
        invariant equivClasses.Valid() && equivClasses.parentMap.Keys == old(equivClasses.parentMap.Keys)
        invariant Coarsens(root0, equivClasses.Root)
        invariant MergeLoop(pairLookup, badPath, root0, order, counts, equivClasses.Root, todo, result)
        decreases |todo|
      {
        var pairEntry, rest := TakePair(todo);
        if !pairLookup[pairEntry].tested || pairEntry in badPath {
          MergeLoopSkip(pairLookup, badPath, root0, order, counts, equivClasses.Root, todo, result, pairEntry);
          todo := rest;
          continue;
        }
        var merged := MergeNode(pairEntry, equivClasses, badPath, root0, order, counts, todo, result);
        if merged.Err? {
          MergeLoopEnd(pairLookup, badPath, root0, order, counts, equivClasses.Root, todo, result);
          return Err(merged.error), order, counts;
        }
        order, counts := order + [pairEntry], counts + [merged.value];
        result := Wrap32(result + merged.value);
        todo := rest;
      }
      MergeLoopEnd(pairLookup, badPath, root0, order, counts, equivClasses.Root, todo, result);
      r := Ok(result);
    }

    /** One call of `mergePair` in the loop of `mergeStates`, from the tested node `pairEntry` off
        the bad path, after the calls `order` that returned `counts`. */
    method MergeNode(pairEntry: Pair, equivClasses: DisjointSets, badPath: set<Pair>, ghost root0: map<State, State>,
                     ghost order: seq<Pair>, ghost counts: seq<int>, ghost todo: set<Pair>, result: int)
      returns (merged: Result<int>)
      requires Valid() && equivClasses.Valid() && Coarsens(root0, equivClasses.Root)
      requires MergeLoop(pairLookup, badPath, root0, order, counts, equivClasses.Root, todo, result)
      requires pairEntry in todo && pairLookup[pairEntry].tested && pairEntry !in badPath
      modifies equivClasses
      ensures equivClasses.Valid() && equivClasses.parentMap.Keys == old(equivClasses.parentMap.Keys)
      ensures Coarsens(root0, equivClasses.Root)
      ensures merged.Ok? ==> MergeLoop(pairLookup, badPath, root0, order + [pairEntry], counts + [merged.value],
                                       equivClasses.Root, todo - {pairEntry}, Wrap32(result + merged.value))
      ensures merged.Err? ==> equivClasses.Root == old(equivClasses.Root) && !Registered(pairLookup, root0)
    {
      ghost var root := equivClasses.Root;
      merged := MergePair(pairEntry, equivClasses, badPath);
      CoarsensTransitive(root0, root, equivClasses.Root);
      if merged.Err? {
        ExploreFailsUnregistered(pairLookup, badPath, root0, root, pairEntry);
        return;
      }
      MergeLoopStep(pairLookup, badPath, root0, order, counts, root, todo, result, pairEntry, equivClasses.Root, merged.value);
    }

    /** The queue loop of `mergePair`. */
    method CollectDeps(deps: seq<Pair>, equivClasses: DisjointSets, badPairs: set<Pair>)
      returns (r: Result<Option<set<Pair>>>)
      requires Valid() && equivClasses.Valid() && forall d :: d in deps ==> d in pairLookup
      modifies equivClasses
      ensures equivClasses.Valid() && equivClasses.Root == old(equivClasses.Root)
      ensures equivClasses.parentMap.Keys == old(equivClasses.parentMap.Keys)
      ensures r == Explored(pairLookup, old(equivClasses.Root), badPairs, deps, {})
    {
      ghost var root0 := equivClasses.Root;
      ghost var spec := Explored(pairLookup, root0, badPairs, deps, {});
      var depQueue := deps;
      var seenPairs: set<Pair> := {};
      while depQueue != []
        invariant equivClasses.Valid() && equivClasses.Root == root0
        invariant equivClasses.parentMap.Keys == old(equivClasses.parentMap.Keys)
        invariant (forall d :: d in depQueue ==> d in pairLookup) && seenPairs <= pairLookup.Keys
        invariant Explored(pairLookup, root0, badPairs, depQueue, seenPairs) == spec
        decreases |pairLookup.Keys - seenPairs|, |depQueue|
      {
        var dep := depQueue[0];
        if dep in seenPairs {
          depQueue := depQueue[1..];
          continue;
        }
        var f1 := equivClasses.Find(dep.fst);
        if f1.Err? {
          return Err(f1.error);
        }
        var f2 := equivClasses.Find(dep.snd);
        if f2.Err? {
          return Err(f2.error);
        }
        if f1.value == f2.value {
          depQueue := depQueue[1..];
          continue;
        }
        FewerUnseen(pairLookup.Keys, seenPairs, dep);
        seenPairs := seenPairs + {dep};
        if !pairLookup[dep].tested || dep in badPairs {
          return Ok(None);
        }
        depQueue := depQueue[1..] + pairLookup[dep].deps;
      }
      r := Ok(Some(seenPairs));
    }

    /** The union loop of `mergePair`: the classes of every pair of `pairs` are merged, in the
        order the set yields them. */
    method UnionAll(pairs: set<Pair>, equivClasses: DisjointSets)
      requires equivClasses.Valid()
      requires forall d :: d in pairs ==> d.fst in equivClasses.Root && d.snd in equivClasses.Root
      modifies equivClasses
      ensures equivClasses.Valid() && equivClasses.parentMap.Keys == old(equivClasses.parentMap.Keys)
      ensures JoinOf(old(equivClasses.Root), pairs, equivClasses.Root)
    {
      ghost var root0 := equivClasses.Root;
      JoinOfNothing(root0);
      var todo := pairs;
      ghost var done: set<Pair> := {};
      while todo != {}
        invariant equivClasses.Valid() && equivClasses.parentMap.Keys == old(equivClasses.parentMap.Keys)
        invariant JoinOf(root0, done, equivClasses.Root)
        invariant todo + done == pairs
        decreases |todo|
      {
        var mergePair, rest := TakePair(todo);
        JoinPair(mergePair, equivClasses, root0, done);
        done := done + {mergePair};
        todo := rest;
      }
    }

    /** One `union` of the union loop. */
    method JoinPair(pr: Pair, equivClasses: DisjointSets, ghost root0: map<State, State>, ghost done: set<Pair>)
      requires equivClasses.Valid() && JoinOf(root0, done, equivClasses.Root)
      requires pr.fst in root0 && pr.snd in root0
      modifies equivClasses
      ensures equivClasses.Valid() && equivClasses.parentMap.Keys == old(equivClasses.parentMap.Keys)
      ensures JoinOf(root0, done + {pr}, equivClasses.Root)
    {
      ghost var root, rank := equivClasses.Root, equivClasses.rankMap;
      var _ := equivClasses.Union(pr.fst, pr.snd);
      JoinOfUnion(root, rank, pr);
      JoinOfStep(root0, done, root, {pr}, equivClasses.Root);
    }
  }
}
