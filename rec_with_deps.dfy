/**
 * The recursive equivalence test of minimization/incremental/IncrementalRecWithDeps.java: the
 * recursive test of IncrementalRecursive that, at every meeting whose pair of successor classes
 * is already assumed or on the path, records in a dependency graph that the current pair relies
 * on it, and after a failed test merges the classes the graph shows mergeable. Recording never
 * changes what the test answers nor the pair sets it leaves.
 */
module RecWithDeps {
  import opened Base
  import opened Sfa
  import opened UnionFind
  import opened StateOrder
  import opened Splitting
  import opened Equivalence
  import opened Scan
  import opened Incremental
  import opened Recursive
  import opened DependencyGraphs
  import opened Walk
  import opened Distance
  import opened TwoSymbols

  /** A run of the test together with the dependency graph it leaves. */
  datatype DepRun = DepRun(run: Run, graph: Lookup)

  /** isEquivRecursive with the dependency graph `g`. */
  ghost function RecTestD(c: Ctx, p: State, q: State, neq: set<Pair>, equiv: set<Pair>, path: set<Pair>,
                          g: Lookup, asWritten: bool): (r: DepRun)
    requires CtxOK(c) && p in c.dist && q in c.dist
    decreases Unassumed(c, equiv), 2, 0
    ensures equiv <= r.run.equiv
    ensures EdgesInside(g) ==> EdgesInside(r.graph)
  {
    var pair := Normalize(c.dist, p, q);
    if pair in neq || c.dist[p] != c.dist[q] then DepRun(Run(Ok(false), neq + {pair}, equiv, path), g)
    else if pair in path then DepRun(Run(Ok(true), neq, equiv, path), g)
    else WalkD(c, pair, MovesFrom(c.a.moves, p), MovesFrom(c.a.moves, q), neq, equiv, path + {pair}, g, asWritten)
  }

  /** The loop of isEquivRecursive over the remaining moves of `pair`, with the graph. */
  ghost function WalkD(c: Ctx, pair: Pair, outp: seq<Move>, outq: seq<Move>,
                       neq: set<Pair>, equiv: set<Pair>, path: set<Pair>, g: Lookup, asWritten: bool): (r: DepRun)
    requires CtxOK(c)
    decreases Unassumed(c, equiv), 1, GuardSize(outp)
    ensures equiv <= r.run.equiv
    ensures EdgesInside(g) ==> EdgesInside(r.graph)
  {
    if outp == [] || outq == [] then DepRun(Run(Ok(true), neq, equiv + {pair}, path - {pair}), g)
    else
      var found := FirstMeeting(outp[0].guard, outq, 0);
      if found.None? then DepRun(Run(Err(NoOverlappingMove), neq, equiv, path), g)
      else
        var m := MeetD(c, pair, outp[0].to, outq[found.value].to, neq, equiv, path, g, asWritten);
        if m.run.answer != Ok(true) then m
        else
          var s := SplitStep(c.ba, outp, outq, found.value);
          NoMoreOutside(c.root.Values, equiv, m.run.equiv);
          SplitShrinksGuards(c.ba, outp, outq, found.value);
          WalkD(c, pair, s.outp, s.outq, m.run.neq, m.run.equiv, m.run.path, m.graph, asWritten)
  }

  /** Whether a meeting whose successor classes are `pc` and `qc`, with `next` their normalised
      pair, records that the pair under test depends on `next`. As written, only a pair already
      assumed or on the path is recorded, so a meeting that starts a new recursive call records
      nothing. The corrected rule also records every meeting whose two classes differ. */
  predicate Records(pc: State, qc: State, next: Pair, equiv: set<Pair>, path: set<Pair>, asWritten: bool)
  {
    next in equiv || next in path || (!asWritten && pc != qc)
  }

  /** A meeting of moves of `pair` into `x` and `y`: once the two classes are found, the
      meeting is recorded as a dependency of `pair` when `Records` says so; then the meeting goes
      on as in the recursive test. */
  ghost function MeetD(c: Ctx, pair: Pair, x: State, y: State, neq: set<Pair>, equiv: set<Pair>, path: set<Pair>,
                       g: Lookup, asWritten: bool): (r: DepRun)
    requires CtxOK(c)
    decreases Unassumed(c, equiv), 0, 0
    ensures equiv <= r.run.equiv
    ensures EdgesInside(g) ==> EdgesInside(r.graph)
  {
    if x !in c.root || y !in c.root then DepRun(Run(Err(IllegalArgument), neq, equiv, path), g)
    else
      var pc, qc := c.root[x], c.root[y];
      assert pc in c.root.Values && qc in c.root.Values;
      var next := Normalize(c.dist, pc, qc);
      var g' := if Records(pc, qc, next, equiv, path, asWritten) then Recorded(g, pair, next) else g;
      if pc != qc && next !in equiv then
        OneFewerOutside(c.root.Values, equiv, next);
        RecTestD(c, pc, qc, neq, equiv + {next}, path, g', asWritten)
      else DepRun(Run(Ok(true), neq, equiv, path), g')
  }

  /** Recording dependencies changes neither the answer nor the cache nor the pair sets: the
      test with the graph runs exactly as the recursive test. */
  lemma {:induction false} RecTestPlain(c: Ctx, p: State, q: State, neq: set<Pair>, equiv: set<Pair>,
                                        path: set<Pair>, g: Lookup, asWritten: bool)
    requires CtxOK(c) && p in c.dist && q in c.dist
    decreases Unassumed(c, equiv), 2, 0
    ensures RecTestD(c, p, q, neq, equiv, path, g, asWritten).run == RecTest(c, p, q, neq, equiv, path)
  {
    var pair := Normalize(c.dist, p, q);
    if !(pair in neq || c.dist[p] != c.dist[q]) && pair !in path {
      WalkPlain(c, pair, MovesFrom(c.a.moves, p), MovesFrom(c.a.moves, q), neq, equiv, path + {pair}, g, asWritten);
    }
  }

  lemma {:induction false} WalkPlain(c: Ctx, pair: Pair, outp: seq<Move>, outq: seq<Move>,
                                     neq: set<Pair>, equiv: set<Pair>, path: set<Pair>, g: Lookup, asWritten: bool)
    requires CtxOK(c)
    decreases Unassumed(c, equiv), 1, GuardSize(outp)
    ensures WalkD(c, pair, outp, outq, neq, equiv, path, g, asWritten).run == WalkFn(c, pair, outp, outq, neq, equiv, path)
  {
    if outp != [] && outq != [] {
      var found := FirstMeeting(outp[0].guard, outq, 0);
      if found.Some? {
        var j := found.value;
        MeetPlain(c, pair, outp[0].to, outq[j].to, neq, equiv, path, g, asWritten);
        WalkUnfold(c, pair, outp, outq, neq, equiv, path, j);
        WalkDUnfold(c, pair, outp, outq, neq, equiv, path, g, asWritten, j);
        var m := MeetD(c, pair, outp[0].to, outq[j].to, neq, equiv, path, g, asWritten);
        if m.run.answer == Ok(true) {
          var s := SplitStep(c.ba, outp, outq, j);
          NoMoreOutside(c.root.Values, equiv, m.run.equiv);
          SplitShrinksGuards(c.ba, outp, outq, j);
          WalkPlain(c, pair, s.outp, s.outq, m.run.neq, m.run.equiv, m.run.path, m.graph, asWritten);
        }
      }
    }
  }

  lemma {:induction false} MeetPlain(c: Ctx, pair: Pair, x: State, y: State, neq: set<Pair>, equiv: set<Pair>,
                                     path: set<Pair>, g: Lookup, asWritten: bool)
    requires CtxOK(c)
    decreases Unassumed(c, equiv), 0, 0
    ensures MeetD(c, pair, x, y, neq, equiv, path, g, asWritten).run == MeetFn(c, x, y, neq, equiv, path)
  {
    if x in c.root && y in c.root {
      var pc, qc := c.root[x], c.root[y];
      assert pc in c.root.Values && qc in c.root.Values;
      var next := Normalize(c.dist, pc, qc);
      var g' := if Records(pc, qc, next, equiv, path, asWritten) then Recorded(g, pair, next) else g;
      if pc != qc && next !in equiv {
        OneFewerOutside(c.root.Values, equiv, next);
        RecTestPlain(c, pc, qc, neq, equiv + {next}, path, g', asWritten);
      }
    }
  }

  /** One step of `WalkD` on lists that are not empty and meet at `j`. */
  lemma WalkDUnfold(c: Ctx, pair: Pair, outp: seq<Move>, outq: seq<Move>,
                    neq: set<Pair>, equiv: set<Pair>, path: set<Pair>, g: Lookup, asWritten: bool, j: nat)
    requires CtxOK(c) && outp != [] && outq != [] && FirstMeeting(outp[0].guard, outq, 0) == Some(j)
    ensures var m := MeetD(c, pair, outp[0].to, outq[j].to, neq, equiv, path, g, asWritten);
            var s := SplitStep(c.ba, outp, outq, j);
            WalkD(c, pair, outp, outq, neq, equiv, path, g, asWritten)
              == if m.run.answer != Ok(true) then m
                 else WalkD(c, pair, s.outp, s.outq, m.run.neq, m.run.equiv, m.run.path, m.graph, asWritten)
  {
  }

  /** With the corrected recording, a test keeps every finished node of the graph closed: each
      test that ends with `true` has handled every symbol up to its recorded dependencies, and
      only pairs still on the path are left open. The graph only gains dependencies, and a test
      that ends with `true` leaves the path as it was. */
  lemma {:induction false} RecTestDClosed(c: Ctx, p: State, q: State, neq: set<Pair>, equiv: set<Pair>,
                                          path: set<Pair>, g: Lookup)
    requires Proper(c) && p in c.a.states && q in c.a.states
    requires GraphClosed(c.ba, c.a, c.root, g, path)
    decreases Unassumed(c, equiv), 2, 0
    ensures var r := RecTestD(c, p, q, neq, equiv, path, g, false);
            && GraphClosed(c.ba, c.a, c.root, r.graph, r.run.path) && Grows(g, r.graph)
            && (r.run.answer == Ok(true) ==> r.run.path == path)
  {
    var pair := Normalize(c.dist, p, q);
    if !(pair in neq || c.dist[p] != c.dist[q]) && pair !in path {
      WalkStart(c.ba, c.a, c.root, p, q, Deps(g, pair));
      OpenMore(c.ba, c.a, c.root, g, path, pair);
      WalkDClosed(c, pair, p, q, MovesFrom(c.a.moves, p), MovesFrom(c.a.moves, q), neq, equiv, path + {pair}, g);
      assert path + {pair} - {pair} == path;
    }
  }

  lemma {:induction false} WalkDClosed(c: Ctx, pair: Pair, p: State, q: State, outp: seq<Move>, outq: seq<Move>,
                                       neq: set<Pair>, equiv: set<Pair>, path: set<Pair>, g: Lookup)
    requires Proper(c) && p in c.a.states && q in c.a.states && c.dist[p] == c.dist[q]
    requires pair == Normalize(c.dist, p, q) && pair in path
    requires WalkInv(c.ba, c.a, c.root, p, q, outp, outq, Deps(g, pair))
    requires GraphClosed(c.ba, c.a, c.root, g, path)
    decreases Unassumed(c, equiv), 1, GuardSize(outp)
    ensures var r := WalkD(c, pair, outp, outq, neq, equiv, path, g, false);
            && GraphClosed(c.ba, c.a, c.root, r.graph, r.run.path) && Grows(g, r.graph)
            && (r.run.answer == Ok(true) ==> r.run.path == path - {pair})
  {
    if outp == [] || outq == [] {
      WalkEnd(c.ba, c.a, c.root, p, q, outp, outq, Deps(g, pair));
      ClosedJoin(c.ba, c.a, c.root, c.dist, {}, p, q, pair, Deps(g, pair));
      assert {} + {pair} == {pair};
      CloseNode(c.ba, c.a, c.root, g, path, pair);
    } else {
      var found := FirstMeeting(outp[0].guard, outq, 0);
      if found.Some? {
        var j := found.value;
        WalkDUnfold(c, pair, outp, outq, neq, equiv, path, g, false, j);
        MeetDClosed(c, pair, p, q, outp, outq, j, neq, equiv, path, g);
        var m := MeetD(c, pair, outp[0].to, outq[j].to, neq, equiv, path, g, false);
        if m.run.answer == Ok(true) {
          var s := SplitStep(c.ba, outp, outq, j);
          GrowsDeps(g, m.graph, pair);
          WalkGrow(c.ba, c.a, c.root, p, q, outp, outq, Deps(g, pair), Deps(m.graph, pair));
          MeetStep(c.ba, c.a, c.root, p, q, outp, outq, j, Deps(m.graph, pair));
          NoMoreOutside(c.root.Values, equiv, m.run.equiv);
          SplitShrinksGuards(c.ba, outp, outq, j);
          WalkDClosed(c, pair, p, q, s.outp, s.outq, m.run.neq, m.run.equiv, m.run.path, m.graph);
          var r := WalkD(c, pair, s.outp, s.outq, m.run.neq, m.run.equiv, m.run.path, m.graph, false);
          GrowsTransitive(g, m.graph, r.graph);
        }
      }
    }
  }

  lemma {:induction false} MeetDClosed(c: Ctx, pair: Pair, p: State, q: State, outp: seq<Move>, outq: seq<Move>,
                                       j: nat, neq: set<Pair>, equiv: set<Pair>, path: set<Pair>, g: Lookup)
    requires Proper(c) && p in c.a.states && q in c.a.states && pair in path
    requires WalkInv(c.ba, c.a, c.root, p, q, outp, outq, Deps(g, pair)) && outp != [] && j < |outq|
    requires GraphClosed(c.ba, c.a, c.root, g, path)
    decreases Unassumed(c, equiv), 0, 0
    ensures var x, y := outp[0].to, outq[j].to;
            var m := MeetD(c, pair, x, y, neq, equiv, path, g, false);
            && GraphClosed(c.ba, c.a, c.root, m.graph, m.run.path) && Grows(g, m.graph)
            && (m.run.answer == Ok(true) ==>
                  && m.run.path == path && x in c.root && y in c.root
                  && (c.root[x] == c.root[y] || InEitherOrder(c.root[x], c.root[y], Deps(m.graph, pair))))
  {
    MoveEntersState(c.ba, c.a, p, outp, 0);
    MoveEntersState(c.ba, c.a, q, outq, j);
    var pc, qc := c.root[outp[0].to], c.root[outq[j].to];
    assert pc in c.root.Values && qc in c.root.Values;
    var next := Normalize(c.dist, pc, qc);
    var g' := if Records(pc, qc, next, equiv, path, false) then Recorded(g, pair, next) else g;
    if Records(pc, qc, next, equiv, path, false) {
      RecordKeepsClosed(c.ba, c.a, c.root, g, path, pair, next);
    }
    if pc != qc && next !in equiv {
      OneFewerOutside(c.root.Values, equiv, next);
      RecTestDClosed(c, pc, qc, neq, equiv + {next}, path, g');
      var r := RecTestD(c, pc, qc, neq, equiv + {next}, path, g', false);
      GrowsDeps(g', r.graph, pair);
      GrowsTransitive(g, g', r.graph);
      NormalizedPair(c.a, c.dist, pc, qc, Deps(r.graph, pair));
    } else {
      NormalizedPair(c.a, c.dist, pc, qc, Deps(g', pair));
    }
  }

  class EquivTestRecWithDeps {
    const outer: IncrementalMinimization
    const equivClasses: DisjointSets
    /** The dependencies recorded by this test. */
    const deps: DependencyGraph
    var equiv: set<Pair>
    var path: set<Pair>

    constructor (outer: IncrementalMinimization, equivClasses: DisjointSets, equiv: set<Pair>, path: set<Pair>)
      ensures this.outer == outer && this.equivClasses == equivClasses
      ensures this.equiv == equiv && this.path == path
      ensures fresh(deps) && deps.Valid() && deps.pairLookup == map[]
    {
      this.outer := outer;
      this.equivClasses := equivClasses;
      this.equiv := equiv;
      this.path := path;
      this.deps := new DependencyGraph();
    }

    ghost predicate Valid()
      reads equivClasses, deps
    {
      outer.Valid() && equivClasses.Valid() && equivClasses.parentMap.Keys == outer.aut.states && deps.Valid()
    }

    ghost function Context(root: map<State, State>): Ctx
    {
      Ctx(outer.ba, outer.aut, outer.distanceToFinalMap, root)
    }

    /** isEquiv: the recursive test from the start pair; on `false`, the classes the dependency
        graph shows mergeable off the failing path are merged. The answer and the pair sets are
        those of the recursive test over the classes before the merge, and the merge only joins
        classes. When the partition is sound and the graph's finished nodes are closed, as they
        are for a fresh graph, the merge keeps the partition sound. */
    method IsEquiv(pStart: State, qStart: State) returns (r: bool)
      requires Valid() && pStart in outer.aut.states && qStart in outer.aut.states
      requires PairsOfStates(outer.aut, equiv)
      modifies this, outer, equivClasses, deps
      ensures Valid()
      ensures equivClasses.parentMap.Keys == old(equivClasses.parentMap.Keys)
      ensures Coarsens(old(equivClasses.Root), equivClasses.Root)
      ensures r ==> equivClasses.Root == old(equivClasses.Root)
      ensures RecOutcome(outer.ba, outer.aut, outer.distanceToFinalMap, old(equivClasses.Root), old(outer.neq),
                         outer.neq, old(equiv), equiv, old(path), path, pStart, qStart, r)
      ensures && SoundPartition(outer.aut, old(equivClasses.Root))
              && GraphClosed(outer.ba, outer.aut, old(equivClasses.Root), old(deps.pairLookup), old(path))
              ==> SoundPartition(outer.aut, equivClasses.Root)
    {
      ghost var root0 := equivClasses.Root;
      ghost var closed := GraphClosed(outer.ba, outer.aut, root0, deps.pairLookup, path);
      r := Test(pStart, qStart);
      CoarsensReflexive(equivClasses.Root);
      if !r {
        ghost var order, counts := MergeFailed();
        if closed && SoundPartition(outer.aut, root0) {
          ClassesIdentify(outer.aut, equivClasses);
          MergeRunKeepsSound(outer.ba, outer.aut, root0, deps.pairLookup, path, order, counts, equivClasses.Root);
        }
      }
    }

    /** The recursive test from the start pair, with the test's pair sets. */
    method Test(pStart: State, qStart: State) returns (r: bool)
      requires Valid() && pStart in outer.aut.states && qStart in outer.aut.states
      requires PairsOfStates(outer.aut, equiv)
      modifies this, outer, equivClasses, deps
      ensures Valid()
      ensures equivClasses.Root == old(equivClasses.Root) && equivClasses.parentMap.Keys == old(equivClasses.parentMap.Keys)
      ensures RecOutcome(outer.ba, outer.aut, outer.distanceToFinalMap, equivClasses.Root, old(outer.neq),
                         outer.neq, old(equiv), equiv, old(path), path, pStart, qStart, r)
      ensures GraphClosed(outer.ba, outer.aut, equivClasses.Root, old(deps.pairLookup), old(path)) ==>
                GraphClosed(outer.ba, outer.aut, equivClasses.Root, deps.pairLookup, path)
    {
      ghost var root := equivClasses.Root;
      ClassesIdentify(outer.aut, equivClasses);
      assert Proper(Context(root));
      RecTestOutcome(Context(root), pStart, qStart, outer.neq, equiv, path);
      RecTestPlain(Context(root), pStart, qStart, outer.neq, equiv, path, deps.pairLookup, false);
      if GraphClosed(outer.ba, outer.aut, root, deps.pairLookup, path) {
        RecTestDClosed(Context(root), pStart, qStart, outer.neq, equiv, path, deps.pairLookup);
      }
      var res, e, p := IsEquivRecursive(pStart, qStart, root, equiv, path);
      r := res.value;
      SetPairs(e, p);
    }

    /** `deps.mergeStates(equivClasses, path)` after a failed test, its count discarded: the
        `mergePair` calls from the tested nodes off the failing path, each node at most once and
        every one of them when all pairs of the graph are registered with the partition. */
    method MergeFailed() returns (ghost order: seq<Pair>, ghost counts: seq<int>)
      requires Valid()
      modifies equivClasses
      ensures Valid()
      ensures equivClasses.parentMap.Keys == old(equivClasses.parentMap.Keys)
      ensures Coarsens(old(equivClasses.Root), equivClasses.Root)
      ensures MergeRun(deps.pairLookup, path, order, counts, old(equivClasses.Root), equivClasses.Root)
      ensures Distinct(order) && forall n :: n in order ==> n in Starts(deps.pairLookup, path)
      ensures Registered(deps.pairLookup, old(equivClasses.Root)) ==>
                forall n :: n in Starts(deps.pairLookup, path) ==> n in order
    {
      var _, o, k := deps.MergeStates(equivClasses, path);
      order, counts := o, k;
    }

    method SetPairs(e: set<Pair>, p: set<Pair>)
      modifies this
      ensures equiv == e && path == p
    {
      equiv, path := e, p;
    }

    /** isEquivRecursive on `p` and `q`, as `RecTestD` describes it. */
    method IsEquivRecursive(p: State, q: State, ghost root: map<State, State>, e0: set<Pair>, p0: set<Pair>)
      returns (r: Result<bool>, e: set<Pair>, pth: set<Pair>)
      requires outer.Valid() && equivClasses.Valid() && equivClasses.Root == root && CtxOK(Context(root))
      requires deps.Valid() && p in outer.aut.states && q in outer.aut.states
      modifies outer, equivClasses, deps
      decreases Unassumed(Context(root), e0), 2, 0
      ensures equivClasses.Valid() && equivClasses.Root == root && deps.Valid()
      ensures equivClasses.rankMap == old(equivClasses.rankMap)
      ensures equivClasses.parentMap.Keys == old(equivClasses.parentMap.Keys)
      ensures DepRun(Run(r, outer.neq, e, pth), deps.pairLookup)
                == RecTestD(Context(root), p, q, old(outer.neq), e0, p0, old(deps.pairLookup), false)
    {
      var known := outer.IsKnownNotEqual(p, q);
      if known {
        return Ok(false), e0, p0;
      }
      var pair := Normalize(outer.distanceToFinalMap, p, q);
      if pair in p0 {
        return Ok(true), e0, p0;
      }
      r, e, pth := Explore(pair, MovesFrom(outer.aut.moves, p), MovesFrom(outer.aut.moves, q), root, e0, p0 + {pair});
    }

    /** The loop of isEquivRecursive, as `WalkD` describes it. */
    method Explore(pair: Pair, outp0: seq<Move>, outq0: seq<Move>, ghost root: map<State, State>,
                   e0: set<Pair>, path0: set<Pair>)
      returns (r: Result<bool>, e: set<Pair>, pth: set<Pair>)
      requires outer.Valid() && equivClasses.Valid() && equivClasses.Root == root && CtxOK(Context(root))
      requires deps.Valid()
      modifies outer, equivClasses, deps
      decreases Unassumed(Context(root), e0), 1, GuardSize(outp0)
      ensures equivClasses.Valid() && equivClasses.Root == root && deps.Valid()
      ensures equivClasses.rankMap == old(equivClasses.rankMap)
      ensures equivClasses.parentMap.Keys == old(equivClasses.parentMap.Keys)
      ensures DepRun(Run(r, outer.neq, e, pth), deps.pairLookup)
                == WalkD(Context(root), pair, outp0, outq0, old(outer.neq), e0, path0, old(deps.pairLookup), false)
    {
      ghost var c := Context(root);
      var outp, outq := outp0, outq0;
      e, pth := e0, path0;
      while outp != [] && outq != []
        invariant equivClasses.Valid() && equivClasses.Root == root && deps.Valid()
        invariant equivClasses.rankMap == old(equivClasses.rankMap)
        invariant equivClasses.parentMap.Keys == old(equivClasses.parentMap.Keys)
        invariant e0 <= e
        invariant WalkD(c, pair, outp, outq, outer.neq, e, pth, deps.pairLookup, false)
                    == WalkD(c, pair, outp0, outq0, old(outer.neq), e0, path0, old(deps.pairLookup), false)
        decreases Unassumed(c, e), GuardSize(outp)
      {
        var found := FindNonDisjointMoves(outp, outq);
        if found.None? {
          return Err(NoOverlappingMove), e, pth;
        }
        var j := found.value;
        NoMoreOutside(root.Values, e0, e);
        var ok, e', pth' := Meet(pair, outp[0].to, outq[j].to, root, e, pth);
        if ok != Ok(true) {
          return ok, e', pth';
        }
        NoMoreOutside(root.Values, e, e');
        SplitShrinksGuards(outer.ba, outp, outq, j);
        var split := SplitStep(outer.ba, outp, outq, j);
        outp, outq, e, pth := split.outp, split.outq, e', pth';
      }
      r, e, pth := Ok(true), e + {pair}, pth - {pair};
    }

    /** The dependency of `pair` on the pair of successor classes `nextPair`, recorded when the
        two classes differ or that pair is already assumed or on the path. */
    method RecordMeeting(pair: Pair, pNextClass: State, qNextClass: State, nextPair: Pair, e: set<Pair>, pth: set<Pair>)
      requires deps.Valid()
      modifies deps
      ensures deps.Valid()
      ensures deps.pairLookup == if Records(pNextClass, qNextClass, nextPair, e, pth, false)
                                 then Recorded(old(deps.pairLookup), pair, nextPair)
                                 else old(deps.pairLookup)
    {
      if pNextClass != qNextClass || nextPair in e || nextPair in pth {
        deps.AddDependency(pair, nextPair);
      }
    }

    /** One meeting of the walk of `pair`, into the states `x` and `y`, as `MeetD` describes it. */
    method Meet(pair: Pair, x: State, y: State, ghost root: map<State, State>, e: set<Pair>, pth: set<Pair>)
      returns (r: Result<bool>, e': set<Pair>, pth': set<Pair>)
      requires outer.Valid() && equivClasses.Valid() && equivClasses.Root == root && CtxOK(Context(root))
      requires deps.Valid()
      modifies outer, equivClasses, deps
      decreases Unassumed(Context(root), e), 0, 0
      ensures equivClasses.Valid() && equivClasses.Root == root && deps.Valid()
      ensures equivClasses.rankMap == old(equivClasses.rankMap)
      ensures equivClasses.parentMap.Keys == old(equivClasses.parentMap.Keys)
      ensures DepRun(Run(r, outer.neq, e', pth'), deps.pairLookup)
                == MeetD(Context(root), pair, x, y, old(outer.neq), e, pth, old(deps.pairLookup), false)
    {
      var classes := FindNextClasses(equivClasses, x, y);
      if classes.Err? {
        return Err(IllegalArgument), e, pth;
      }
      var pNextClass, qNextClass := classes.value.fst, classes.value.snd;
      assert pNextClass in root.Values && qNextClass in root.Values;
      var nextPair := Normalize(outer.distanceToFinalMap, pNextClass, qNextClass);
      RecordMeeting(pair, pNextClass, qNextClass, nextPair, e, pth);
      if pNextClass != qNextClass && nextPair !in e {
        OneFewerOutside(root.Values, e, nextPair);
        r, e', pth' := IsEquivRecursive(pNextClass, qNextClass, root, e + {nextPair}, pth);
      } else {
        r, e', pth' := Ok(true), e, pth;
      }
    }
  }

  /** makeEquivTest of IncrementalRecWithDeps: a test over the current classes with empty pair
      sets and an empty dependency graph. */
  method MakeRecWithDepsTest(outer: IncrementalMinimization, equivClasses: DisjointSets)
    returns (t: EquivTestRecWithDeps)
    requires outer.Valid()
    ensures fresh(t) && t.outer == outer && t.equivClasses == equivClasses
    ensures t.equiv == {} && t.path == {} && fresh(t.deps) && t.deps.Valid() && t.deps.pairLookup == map[]
  {
    var equiv := NewPairSet(outer.numPairs);
    var path := NewPairSet(outer.numPairs);
    t := new EquivTestRecWithDeps(outer, equivClasses, equiv.value, path.value);
  }

  // ---------------------------------------------------------------------------------------------
  // The recording as written.
  // ---------------------------------------------------------------------------------------------

  /** The successor of state `x` of the witness on the symbol `c`: 0 and 1 on 0 go to 0 and 3, on 1
      to 2 and 0; 2 goes to 4 and 7; 3 to 5 on both; 4 to 6 on both; 5 to 7 and 3; 6 to 8 and
      4; 7 to 1 and 0; 8 to 2 and 0 (listed as the state on 0, then on 1). */
  function WitnessNext(x: State, c: Sym): (r: State)
    ensures 0 <= r < 9
  {
    if x == 0 then (if c == 0 then 0 else 2)
    else if x == 1 then (if c == 0 then 3 else 0)
    else if x == 2 then (if c == 0 then 4 else 7)
    else if x == 3 then 5
    else if x == 4 then 6
    else if x == 5 then (if c == 0 then 7 else 3)
    else if x == 6 then (if c == 0 then 8 else 4)
    else if x == 7 then (if c == 0 then 1 else 0)
    else (if c == 0 then 2 else 0)
  }

  /** An automaton over the symbols 0 and 1, started in 1, with the final states 0, 3 and 4:
      from 1, 7, 5 and 3 the word 1 preceded by none, one, two or three 0s reaches a final state,
      and from 2, 8, 6 and 4 it does not. Every state is reachable from 1. */
  function RecordWitness(): Automaton
  {
    TableAutomaton(WitnessNext, 9, 1, {0, 3, 4})
  }

  /** The distances of the witness to its final states. */
  function RecordWitnessDist(): map<State, int>
  {
    DistanceMap(9, WitnessDistance)
  }

  /** 0 for the final states 0, 3 and 4, and 1 for the others. */
  function WitnessDistance(x: State): nat
  {
    if x == 0 || x == 3 || x == 4 then 0 else 1
  }

  /** `a` is the witness as far as the test sees it: its states, its start, its final states
      and the moves of each state in list order. */
  ghost predicate LikeWitness(a: Automaton)
  {
    Tabled(a, WitnessNext, 9, 1, {0, 3, 4})
  }

  lemma RecordWitnessLike()
    ensures LikeWitness(RecordWitness())
  {
    TableTabled(WitnessNext, 9, 1, {0, 3, 4});
  }

  /** The witness is a valid automaton over {0, 1}. */
  lemma WitnessValid(a: Automaton)
    requires LikeWitness(a)
    ensures ValidAutomaton(Algebra({0, 1}), a)
  {
    TableValid(a, WitnessNext, 9, 1, {0, 3, 4});
  }

  /** `RecordWitnessDist` is the distance map of the witness. */
  lemma WitnessDistances(a: Automaton)
    requires LikeWitness(a)
    ensures IsDistanceMap(a, RecordWitnessDist())
  {
    forall x | 0 <= x < 9 ensures DistanceAt(WitnessNext, 9, {0, 3, 4}, WitnessDistance, x) {
    }
    TableDistances(a, WitnessNext, 9, 1, {0, 3, 4}, WitnessDistance);
  }

  /** The word 0001 tells 3 from 4. */
  lemma WitnessSeparates(a: Automaton)
    requires LikeWitness(a)
    ensures !Equivalent(a, 3, 4)
  {
    SeparatedSuffix(a, 4);
  }

  /** The pairs that the last `k + 1` symbols of 0001 tell apart: 0 and 7 by the empty word,
      1 and 2 by 1, 7 and 8 by 01, 5 and 6 by 001, and 3 and 4 by 0001. */
  function SeparatedBy(k: nat): Pair
  {
    if k == 0 then Pair(0, 7) else if k == 1 then Pair(1, 2) else if k == 2 then Pair(7, 8)
    else if k == 3 then Pair(5, 6) else Pair(3, 4)
  }

  lemma {:induction false} SeparatedSuffix(a: Automaton, k: nat)
    requires LikeWitness(a) && k <= 4
    ensures !Equivalent(a, SeparatedBy(k).fst, SeparatedBy(k).snd)
  {
    if k == 0 {
      assert Accepts(a, 0, []) && !Accepts(a, 7, []);
    } else {
      SeparatedSuffix(a, k - 1);
      var pr, next := SeparatedBy(k), SeparatedBy(k - 1);
      TableSeparates(a, WitnessNext, 9, 1, {0, 3, 4}, pr.fst, pr.snd, if k == 1 then 1 else 0);
    }
  }

  // The as-written test on the witness.

  /** The test on the witness over {0, 1}, with its distances and every state alone. */
  ghost predicate WitnessCtx(c: Ctx)
  {
    c.ba == Algebra({0, 1}) && LikeWitness(c.a) && c.dist == RecordWitnessDist() && c.root == Alone(9)
  }

  lemma WitnessCtxOK(c: Ctx)
    requires WitnessCtx(c)
    ensures CtxOK(c) && forall x :: x in c.root <==> 0 <= x < 9
    ensures forall x :: 0 <= x < 9 ==> x in c.dist && c.root[x] == x
  {
  }

  /** Two states of the witness at the same distance are normalised by identifier, and a state at
      distance 0 comes before one at distance 1. */
  lemma WitnessNormalize(c: Ctx, p: State, q: State)
    requires WitnessCtx(c) && 0 <= p <= q < 9
    requires WitnessDistance(p) <= WitnessDistance(q)
    ensures p in c.dist && q in c.dist && Normalize(c.dist, p, q) == Pair(p, q)
  {
  }

  /** The walk over the moves of `x` and `y`, which reach `x0` and `y0` on 0 and `x1` and `y1`
      on 1, when the meeting on 0 and then the meeting on 1 succeed: it ends with the pair
      assumed and off the path. */
  lemma {:induction false} WitnessWalk(c: Ctx, pair: Pair, x: State, y: State, x0: State, y0: State, x1: State, y1: State,
                    neq: set<Pair>, equiv: set<Pair>, path: set<Pair>, g: Lookup, m1: DepRun, m2: DepRun)
    requires CtxOK(c) && c.ba == Algebra({0, 1})
    requires x0 == WitnessNext(x, 0) && y0 == WitnessNext(y, 0) && x1 == WitnessNext(x, 1) && y1 == WitnessNext(y, 1)
    requires m1 == MeetD(c, pair, x0, y0, neq, equiv, path, g, true) && m1.run.answer == Ok(true)
    requires m2 == MeetD(c, pair, x1, y1, m1.run.neq, m1.run.equiv, m1.run.path, m1.graph, true)
    requires m2.run.answer == Ok(true)
    ensures WalkD(c, pair, StateMoves(WitnessNext, x), StateMoves(WitnessNext, y), neq, equiv, path, g, true)
              == DepRun(Run(Ok(true), m2.run.neq, m2.run.equiv + {pair}, m2.run.path - {pair}), m2.graph)
  {
    var outp, outq := StateMoves(WitnessNext, x), StateMoves(WitnessNext, y);
    var s := WitnessFirstMeeting(c, pair, x, y, neq, equiv, path, g);
    assert 1 in MkAnd(s.outp[0].guard, s.outq[0].guard);
    WalkDUnfold(c, pair, s.outp, s.outq, m1.run.neq, m1.run.equiv, m1.run.path, m1.graph, true, 0);
    var s2 := SplitStep(c.ba, s.outp, s.outq, 0);
    assert s2.outp == [] && s2.outq == [] by {
      assert Residual(c.ba, s.outp[0], s.outq[0].guard) == [];
      assert Residual(c.ba, s.outq[0], s.outp[0].guard) == [];
    }
  }

  /** The walk over the moves of `x` and `y` when the meeting on 0, of `x0` and `y0`, succeeds and
      the meeting on 1, of `x1` and `y1`, fails or throws. */
  lemma {:induction false} WitnessWalkStops(c: Ctx, pair: Pair, x: State, y: State, x0: State, y0: State, x1: State, y1: State,
                         neq: set<Pair>, equiv: set<Pair>, path: set<Pair>, g: Lookup, m1: DepRun, m2: DepRun)
    requires CtxOK(c) && c.ba == Algebra({0, 1})
    requires x0 == WitnessNext(x, 0) && y0 == WitnessNext(y, 0) && x1 == WitnessNext(x, 1) && y1 == WitnessNext(y, 1)
    requires m1 == MeetD(c, pair, x0, y0, neq, equiv, path, g, true) && m1.run.answer == Ok(true)
    requires m2 == MeetD(c, pair, x1, y1, m1.run.neq, m1.run.equiv, m1.run.path, m1.graph, true)
    requires m2.run.answer != Ok(true)
    ensures WalkD(c, pair, StateMoves(WitnessNext, x), StateMoves(WitnessNext, y), neq, equiv, path, g, true) == m2
  {
    var s := WitnessFirstMeeting(c, pair, x, y, neq, equiv, path, g);
    assert 1 in MkAnd(s.outp[0].guard, s.outq[0].guard);
    WalkDUnfold(c, pair, s.outp, s.outq, m1.run.neq, m1.run.equiv, m1.run.path, m1.graph, true, 0);
  }

  /** The meeting on 0 of the moves of `x` and `y`, and the moves on 1 left after it. */
  lemma {:induction false} WitnessFirstMeeting(c: Ctx, pair: Pair, x: State, y: State, neq: set<Pair>, equiv: set<Pair>,
                            path: set<Pair>, g: Lookup) returns (s: Split)
    requires CtxOK(c) && c.ba == Algebra({0, 1})
    ensures s == Split([Move(x, WitnessNext(x, 1), {1})], [Move(y, WitnessNext(y, 1), {1})])
    ensures var m1 := MeetD(c, pair, WitnessNext(x, 0), WitnessNext(y, 0), neq, equiv, path, g, true);
            WalkD(c, pair, StateMoves(WitnessNext, x), StateMoves(WitnessNext, y), neq, equiv, path, g, true)
              == if m1.run.answer != Ok(true) then m1
                 else WalkD(c, pair, s.outp, s.outq, m1.run.neq, m1.run.equiv, m1.run.path, m1.graph, true)
  {
    var outp, outq := StateMoves(WitnessNext, x), StateMoves(WitnessNext, y);
    assert 0 in MkAnd(outp[0].guard, outq[0].guard);
    WalkDUnfold(c, pair, outp, outq, neq, equiv, path, g, true, 0);
    s := SplitStep(c.ba, outp, outq, 0);
    assert s.outp == [outp[1]] && s.outq == [outq[1]] by {
      assert Residual(c.ba, outp[0], outq[0].guard) == [];
      assert Residual(c.ba, outq[0], outp[0].guard) == [];
    }
  }

  /** What the test of the witness reads, state by state: the class, the distance and the
      moves of each state, and the normalised pairs it meets. */
  ghost predicate WitnessFacts(c: Ctx)
  {
    && CtxOK(c) && c.ba == Algebra({0, 1})
    && ClassOf(c, 0) && ClassOf(c, 1) && ClassOf(c, 2) && ClassOf(c, 3) && ClassOf(c, 4)
    && ClassOf(c, 5) && ClassOf(c, 6) && ClassOf(c, 7) && ClassOf(c, 8)
    && MovesOf(c, 1) && MovesOf(c, 2) && MovesOf(c, 3) && MovesOf(c, 4)
    && MovesOf(c, 5) && MovesOf(c, 6) && MovesOf(c, 7) && MovesOf(c, 8)
    && c.dist[1] == c.dist[2] && c.dist[3] == c.dist[4] && c.dist[5] == c.dist[6] && c.dist[7] == c.dist[8]
    && c.dist[0] != c.dist[7]
    && Normalize(c.dist, 1, 2) == Pair(1, 2) && Normalize(c.dist, 3, 4) == Pair(3, 4)
    && Normalize(c.dist, 5, 6) == Pair(5, 6) && Normalize(c.dist, 7, 8) == Pair(7, 8)
    && Normalize(c.dist, 0, 0) == Pair(0, 0) && Normalize(c.dist, 0, 7) == Pair(0, 7)
  }

  lemma {:induction false} WitnessCtxFacts(c: Ctx)
    requires WitnessCtx(c)
    ensures WitnessFacts(c)
  {
    WitnessCtxOK(c);
    forall x | 0 <= x < 9 ensures ClassOf(c, x) && MovesOf(c, x) {
      assert MovesFrom(c.a.moves, x) == StateMoves(WitnessNext, x);
    }
    WitnessNormalize(c, 1, 2);
    WitnessNormalize(c, 3, 4);
    WitnessNormalize(c, 5, 6);
    WitnessNormalize(c, 7, 8);
    WitnessNormalize(c, 0, 0);
    WitnessNormalize(c, 0, 7);
  }

  /** A test of a pair neither known inequivalent nor on the path, at equal distances, walks the
      moves of its two states with the pair on the path. */
  lemma RecTestDFresh(c: Ctx, p: State, q: State, neq: set<Pair>, equiv: set<Pair>, path: set<Pair>,
                      g: Lookup, asWritten: bool, pair: Pair)
    requires CtxOK(c) && p in c.dist && q in c.dist && c.dist[p] == c.dist[q]
    requires pair == Normalize(c.dist, p, q) && pair !in neq && pair !in path
    ensures RecTestD(c, p, q, neq, equiv, path, g, asWritten)
              == WalkD(c, pair, MovesFrom(c.a.moves, p), MovesFrom(c.a.moves, q), neq, equiv, path + {pair}, g, asWritten)
  {
  }

  /** A test of a pair on the path succeeds at once. */
  lemma RecTestDOnPath(c: Ctx, p: State, q: State, neq: set<Pair>, equiv: set<Pair>, path: set<Pair>,
                       g: Lookup, asWritten: bool, pair: Pair)
    requires CtxOK(c) && p in c.dist && q in c.dist && c.dist[p] == c.dist[q]
    requires pair == Normalize(c.dist, p, q) && pair !in neq && pair in path
    ensures RecTestD(c, p, q, neq, equiv, path, g, asWritten) == DepRun(Run(Ok(true), neq, equiv, path), g)
  {
  }

  /** A test of two states at different distances fails at once. */
  lemma RecTestDApart(c: Ctx, p: State, q: State, neq: set<Pair>, equiv: set<Pair>, path: set<Pair>,
                      g: Lookup, asWritten: bool, pair: Pair)
    requires CtxOK(c) && p in c.dist && q in c.dist && c.dist[p] != c.dist[q]
    requires pair == Normalize(c.dist, p, q)
    ensures RecTestD(c, p, q, neq, equiv, path, g, asWritten) == DepRun(Run(Ok(false), neq + {pair}, equiv, path), g)
  {
  }

  /** A meeting of two classes whose pair is not yet assumed starts the test of that pair. */
  lemma MeetDRecurses(c: Ctx, pair: Pair, x: State, y: State, neq: set<Pair>, equiv: set<Pair>, path: set<Pair>,
                      g: Lookup, asWritten: bool, next: Pair, g': Lookup)
    requires CtxOK(c) && x in c.root && y in c.root && c.root[x] in c.dist && c.root[y] in c.dist
    requires c.root[x] != c.root[y] && next == Normalize(c.dist, c.root[x], c.root[y]) && next !in equiv
    requires g' == if Records(c.root[x], c.root[y], next, equiv, path, asWritten) then Recorded(g, pair, next) else g
    ensures MeetD(c, pair, x, y, neq, equiv, path, g, asWritten)
              == RecTestD(c, c.root[x], c.root[y], neq, equiv + {next}, path, g', asWritten)
  {
  }

  /** A meeting within one class or of an assumed pair only records. */
  lemma MeetDStops(c: Ctx, pair: Pair, x: State, y: State, neq: set<Pair>, equiv: set<Pair>, path: set<Pair>,
                   g: Lookup, asWritten: bool, next: Pair, g': Lookup)
    requires CtxOK(c) && x in c.root && y in c.root && c.root[x] in c.dist && c.root[y] in c.dist
    requires next == Normalize(c.dist, c.root[x], c.root[y]) && (c.root[x] == c.root[y] || next in equiv)
    requires g' == if Records(c.root[x], c.root[y], next, equiv, path, asWritten) then Recorded(g, pair, next) else g
    ensures MeetD(c, pair, x, y, neq, equiv, path, g, asWritten) == DepRun(Run(Ok(true), neq, equiv, path), g')
  {
  }

  /** The test of 7 and 8 with the path holding 1 and 2: its meeting on 0 reaches 1 and 2 on the
      path and records that dependency, its meeting on 1 reaches 0 and 0, and it succeeds. */
  lemma {:induction false} WitnessTest78(c: Ctx, neq: set<Pair>, equiv: set<Pair>, path: set<Pair>, g: Lookup)
    requires CtxOK(c) && c.ba == Algebra({0, 1})
    requires ClassOf(c, 7) && ClassOf(c, 8) && MovesOf(c, 7) && MovesOf(c, 8)
    requires ClassOf(c, 0) && ClassOf(c, 1) && ClassOf(c, 2)
    requires c.dist[7] == c.dist[8] && c.dist[1] == c.dist[2]
    requires Normalize(c.dist, 7, 8) == Pair(7, 8) && Normalize(c.dist, 1, 2) == Pair(1, 2)
    requires Normalize(c.dist, 0, 0) == Pair(0, 0)
    requires Pair(7, 8) in equiv && Pair(7, 8) !in path && Pair(7, 8) !in neq
    requires Pair(1, 2) in path && Pair(1, 2) !in equiv && Pair(1, 2) !in neq
    requires Pair(0, 0) !in equiv && Pair(0, 0) !in path
    ensures var r := RecTestD(c, 7, 8, neq, equiv, path, g, true);
      && r.run.answer == Ok(true) && r.run.neq == neq && r.run.path == path
      && r.run.equiv == equiv + {Pair(1, 2)}
      && r.graph == Recorded(g, Pair(7, 8), Pair(1, 2))
  {
    var w, s := Pair(7, 8), Pair(1, 2);
    var p1, g1 := path + {w}, Recorded(g, w, s);
    var m1 := DepRun(Run(Ok(true), neq, equiv + {s}, p1), g1);
    WitnessMeet12(c, w, neq, equiv, p1, g);
    MeetDStops(c, w, 0, 0, neq, equiv + {s}, p1, g1, true, Pair(0, 0), g1);
    WitnessWalk(c, w, 7, 8, 1, 2, 0, 0, neq, equiv, p1, g, m1, m1);
    RecTestDFresh(c, 7, 8, neq, equiv, path, g, true, w);
    assert p1 - {w} == path;
  }

  /** A meeting of 1 and 2 with the pair on the path records it and succeeds at once. */
  lemma {:induction false} WitnessMeet12(c: Ctx, pair: Pair, neq: set<Pair>, equiv: set<Pair>, path: set<Pair>, g: Lookup)
    requires CtxOK(c) && ClassOf(c, 1) && ClassOf(c, 2)
    requires c.dist[1] == c.dist[2] && Normalize(c.dist, 1, 2) == Pair(1, 2)
    requires Pair(1, 2) in path && Pair(1, 2) !in equiv && Pair(1, 2) !in neq
    ensures MeetD(c, pair, 1, 2, neq, equiv, path, g, true)
              == DepRun(Run(Ok(true), neq, equiv + {Pair(1, 2)}, path), Recorded(g, pair, Pair(1, 2)))
  {
    var s, g1 := Pair(1, 2), Recorded(g, pair, Pair(1, 2));
    MeetDRecurses(c, pair, 1, 2, neq, equiv, path, g, true, s, g1);
    RecTestDOnPath(c, 1, 2, neq, equiv + {s}, path, g1, true, s);
  }

  /** A meeting of 7 and 8 not yet assumed starts their test. */
  lemma {:induction false} WitnessMeet78(c: Ctx, pair: Pair, neq: set<Pair>, equiv: set<Pair>, path: set<Pair>, g: Lookup)
    requires CtxOK(c) && c.ba == Algebra({0, 1})
    requires ClassOf(c, 7) && ClassOf(c, 8) && MovesOf(c, 7) && MovesOf(c, 8)
    requires ClassOf(c, 0) && ClassOf(c, 1) && ClassOf(c, 2)
    requires c.dist[7] == c.dist[8] && c.dist[1] == c.dist[2]
    requires Normalize(c.dist, 7, 8) == Pair(7, 8) && Normalize(c.dist, 1, 2) == Pair(1, 2)
    requires Normalize(c.dist, 0, 0) == Pair(0, 0)
    requires Pair(7, 8) !in equiv && Pair(7, 8) !in path && Pair(7, 8) !in neq && Pair(7, 8) != pair
    requires Pair(1, 2) in path && Pair(1, 2) !in equiv && Pair(1, 2) !in neq
    requires Pair(0, 0) !in equiv && Pair(0, 0) !in path
    ensures var m := MeetD(c, pair, 7, 8, neq, equiv, path, g, true);
      && m.run.answer == Ok(true) && m.run.neq == neq && m.run.path == path
      && m.run.equiv == equiv + {Pair(7, 8), Pair(1, 2)}
      && m.graph == Recorded(g, Pair(7, 8), Pair(1, 2))
  {
    MeetDRecurses(c, pair, 7, 8, neq, equiv, path, g, true, Pair(7, 8), g);
    WitnessTest78(c, neq, equiv + {Pair(7, 8)}, path, g);
  }

  /** The test of 5 and 6 with 3 and 4 assumed: its meeting on 0 starts the test of 7 and 8 and
      records nothing, as the pair is new; its meeting on 1 reaches the assumed 3 and 4 and
      records that dependency. */
  lemma {:induction false} WitnessTest56(c: Ctx, neq: set<Pair>, equiv: set<Pair>, path: set<Pair>, g: Lookup)
    requires CtxOK(c) && c.ba == Algebra({0, 1})
    requires ClassOf(c, 5) && ClassOf(c, 6) && MovesOf(c, 5) && MovesOf(c, 6) && ClassOf(c, 3) && ClassOf(c, 4)
    requires ClassOf(c, 7) && ClassOf(c, 8) && MovesOf(c, 7) && MovesOf(c, 8)
    requires ClassOf(c, 0) && ClassOf(c, 1) && ClassOf(c, 2)
    requires c.dist[5] == c.dist[6] && c.dist[7] == c.dist[8] && c.dist[1] == c.dist[2]
    requires Normalize(c.dist, 5, 6) == Pair(5, 6) && Normalize(c.dist, 3, 4) == Pair(3, 4)
    requires Normalize(c.dist, 7, 8) == Pair(7, 8) && Normalize(c.dist, 1, 2) == Pair(1, 2)
    requires Normalize(c.dist, 0, 0) == Pair(0, 0)
    requires Pair(5, 6) in equiv && Pair(5, 6) !in path && Pair(5, 6) !in neq
    requires Pair(7, 8) !in equiv && Pair(7, 8) !in path && Pair(7, 8) !in neq
    requires Pair(3, 4) in equiv
    requires Pair(1, 2) in path && Pair(1, 2) !in equiv && Pair(1, 2) !in neq
    requires Pair(0, 0) !in equiv && Pair(0, 0) !in path
    ensures var r := RecTestD(c, 5, 6, neq, equiv, path, g, true);
      && r.run.answer == Ok(true) && r.run.neq == neq && r.run.path == path
      && r.run.equiv == equiv + {Pair(7, 8), Pair(1, 2)}
      && r.graph == Recorded(Recorded(g, Pair(7, 8), Pair(1, 2)), Pair(5, 6), Pair(3, 4))
  {
    var pp, n := Pair(5, 6), Pair(3, 4);
    var p1 := path + {pp};
    var m1 := MeetD(c, pp, 7, 8, neq, equiv, p1, g, true);
    WitnessMeet78(c, pp, neq, equiv, p1, g);
    var m2 := DepRun(Run(Ok(true), neq, m1.run.equiv, p1), Recorded(m1.graph, pp, n));
    MeetDStops(c, pp, 3, 4, neq, m1.run.equiv, p1, m1.graph, true, n, m2.graph);
    WitnessWalk(c, pp, 5, 6, 7, 8, 3, 4, neq, equiv, p1, g, m1, m2);
    RecTestDFresh(c, 5, 6, neq, equiv, path, g, true, pp);
    assert p1 - {pp} == path;
  }

  /** A meeting of 5 and 6 not yet assumed starts their test. */
  lemma {:induction false} WitnessMeet56(c: Ctx, pair: Pair, neq: set<Pair>, equiv: set<Pair>, path: set<Pair>, g: Lookup)
    requires CtxOK(c) && c.ba == Algebra({0, 1})
    requires ClassOf(c, 5) && ClassOf(c, 6) && MovesOf(c, 5) && MovesOf(c, 6) && ClassOf(c, 3) && ClassOf(c, 4)
    requires ClassOf(c, 7) && ClassOf(c, 8) && MovesOf(c, 7) && MovesOf(c, 8)
    requires ClassOf(c, 0) && ClassOf(c, 1) && ClassOf(c, 2)
    requires c.dist[5] == c.dist[6] && c.dist[7] == c.dist[8] && c.dist[1] == c.dist[2]
    requires Normalize(c.dist, 5, 6) == Pair(5, 6) && Normalize(c.dist, 3, 4) == Pair(3, 4)
    requires Normalize(c.dist, 7, 8) == Pair(7, 8) && Normalize(c.dist, 1, 2) == Pair(1, 2)
    requires Normalize(c.dist, 0, 0) == Pair(0, 0)
    requires Pair(5, 6) !in equiv && Pair(5, 6) !in path && Pair(5, 6) !in neq
    requires Pair(7, 8) !in equiv && Pair(7, 8) !in path && Pair(7, 8) !in neq
    requires Pair(3, 4) in equiv
    requires Pair(1, 2) in path && Pair(1, 2) !in equiv && Pair(1, 2) !in neq
    requires Pair(0, 0) !in equiv && Pair(0, 0) !in path
    ensures var m := MeetD(c, pair, 5, 6, neq, equiv, path, g, true);
      && m.run.answer == Ok(true) && m.run.neq == neq && m.run.path == path
      && m.run.equiv == equiv + {Pair(5, 6), Pair(7, 8), Pair(1, 2)}
      && m.graph == Recorded(Recorded(g, Pair(7, 8), Pair(1, 2)), Pair(5, 6), Pair(3, 4))
  {
    MeetDRecurses(c, pair, 5, 6, neq, equiv, path, g, true, Pair(5, 6), g);
    WitnessTest56(c, neq, equiv + {Pair(5, 6)}, path, g);
  }

  /** The test of 3 and 4 with the path holding 1 and 2: its meeting on 0 starts the test of 5
      and 6 and records nothing; its meeting on 1 reaches 5 and 6, assumed by then, and records
      that dependency, closing a cycle of dependencies between the two pairs. */
  lemma {:induction false} WitnessTest34(c: Ctx, neq: set<Pair>, equiv: set<Pair>, path: set<Pair>, g: Lookup)
    requires CtxOK(c) && c.ba == Algebra({0, 1})
    requires ClassOf(c, 3) && ClassOf(c, 4) && MovesOf(c, 3) && MovesOf(c, 4) && c.dist[3] == c.dist[4]
    requires ClassOf(c, 5) && ClassOf(c, 6) && MovesOf(c, 5) && MovesOf(c, 6)
    requires ClassOf(c, 7) && ClassOf(c, 8) && MovesOf(c, 7) && MovesOf(c, 8)
    requires ClassOf(c, 0) && ClassOf(c, 1) && ClassOf(c, 2)
    requires c.dist[5] == c.dist[6] && c.dist[7] == c.dist[8] && c.dist[1] == c.dist[2]
    requires Normalize(c.dist, 5, 6) == Pair(5, 6) && Normalize(c.dist, 3, 4) == Pair(3, 4)
    requires Normalize(c.dist, 7, 8) == Pair(7, 8) && Normalize(c.dist, 1, 2) == Pair(1, 2)
    requires Normalize(c.dist, 0, 0) == Pair(0, 0)
    requires Pair(3, 4) in equiv && Pair(3, 4) !in path && Pair(3, 4) !in neq
    requires Pair(5, 6) !in equiv && Pair(5, 6) !in path && Pair(5, 6) !in neq
    requires Pair(7, 8) !in equiv && Pair(7, 8) !in path && Pair(7, 8) !in neq
    requires Pair(1, 2) in path && Pair(1, 2) !in equiv && Pair(1, 2) !in neq
    requires Pair(0, 0) !in equiv && Pair(0, 0) !in path
    ensures var r := RecTestD(c, 3, 4, neq, equiv, path, g, true);
      && r.run.answer == Ok(true) && r.run.neq == neq && r.run.path == path
      && r.run.equiv == equiv + {Pair(5, 6), Pair(7, 8), Pair(1, 2)}
      && r.graph == WitnessGraph(g)
  {
    var n, pp := Pair(3, 4), Pair(5, 6);
    var p1 := path + {n};
    var m1 := MeetD(c, n, 5, 6, neq, equiv, p1, g, true);
    WitnessMeet56(c, n, neq, equiv, p1, g);
    var m2 := DepRun(Run(Ok(true), neq, m1.run.equiv, p1), Recorded(m1.graph, n, pp));
    MeetDStops(c, n, 5, 6, neq, m1.run.equiv, p1, m1.graph, true, pp, m2.graph);
    WitnessWalk(c, n, 3, 4, 5, 6, 5, 6, neq, equiv, p1, g, m1, m2);
    RecTestDFresh(c, 3, 4, neq, equiv, path, g, true, n);
    assert p1 - {n} == path;
  }

  /** The graph the test of 1 and 2 leaves on the witness, over `g`: 7 and 8 depend on 1 and 2,
      5 and 6 on 3 and 4, and 3 and 4 on 5 and 6. */
  ghost function WitnessGraph(g: Lookup): Lookup
  {
    Recorded(Recorded(Recorded(g, Pair(7, 8), Pair(1, 2)), Pair(5, 6), Pair(3, 4)), Pair(3, 4), Pair(5, 6))
  }

  /** The meeting on 0 of the test of 1 and 2 on the witness: it starts the test of 3 and 4,
      which goes through, assuming 3 and 4, 5 and 6, and 7 and 8 on the way. */
  lemma {:induction false} WitnessRunMeet34(c: Ctx)
    requires WitnessFacts(c)
    ensures var m1 := MeetD(c, Pair(1, 2), 3, 4, {}, {}, {Pair(1, 2)}, map[], true);
      && m1.run.answer == Ok(true) && m1.run.neq == {} && m1.run.path == {Pair(1, 2)}
      && m1.run.equiv == {Pair(3, 4), Pair(5, 6), Pair(7, 8), Pair(1, 2)}
      && m1.graph == WitnessGraph(map[])
  {
    var s, n := Pair(1, 2), Pair(3, 4);
    var p1: set<Pair> := {s};
    MeetDRecurses(c, s, 3, 4, {}, {}, p1, map[], true, n, map[]);
    assert {} + {n} == {n};
    WitnessTest34(c, {}, {n}, p1, map[]);
  }

  /** The test of 1 and 2 on the witness, as written: its meeting on 0 succeeds through the
      tests of 3 and 4, 5 and 6, and 7 and 8, which leave only 1 and 2 on the path; its meeting
      on 1 reaches 0 and 7 at distinct distances, so it fails. */
  lemma {:induction false} WitnessRun(c: Ctx)
    requires WitnessFacts(c)
    ensures var r := RecTestD(c, 1, 2, {}, {}, {}, map[], true);
      && r.run.answer == Ok(false) && r.run.path == {Pair(1, 2)}
      && r.graph == WitnessGraph(map[])
  {
    var s, x := Pair(1, 2), Pair(0, 7);
    var p1: set<Pair> := {s};
    var m1 := MeetD(c, s, 3, 4, {}, {}, p1, map[], true);
    WitnessRunMeet34(c);
    var e1 := m1.run.equiv;
    MeetDRecurses(c, s, 0, 7, {}, e1, p1, m1.graph, true, x, m1.graph);
    RecTestDApart(c, 0, 7, {}, e1 + {x}, p1, m1.graph, true, x);
    var m2 := MeetD(c, s, 0, 7, {}, e1, p1, m1.graph, true);
    assert m2.run.answer == Ok(false) && m2.run.path == p1 && m2.graph == m1.graph;
    WitnessWalkStops(c, s, 1, 2, 3, 4, 0, 7, {}, {}, p1, map[], m1, m2);
    assert {} + {s} == p1;
    assert MovesOf(c, 1) && MovesOf(c, 2);
    RecTestDFresh(c, 1, 2, {}, {}, {}, map[], true, s);
  }

  /** The graph the test of the witness leaves: 7 and 8 depend on 1 and 2, which were never
      tested, and 3 and 4 and 5 and 6 depend on each other. */
  ghost predicate WitnessGraphShape(g: Lookup)
  {
    && EdgesInside(g)
    && g.Keys == {Pair(7, 8), Pair(1, 2), Pair(5, 6), Pair(3, 4)}
    && g[Pair(7, 8)] == StatePair(true, [Pair(1, 2)]) && g[Pair(1, 2)] == StatePair(false, [])
    && g[Pair(5, 6)] == StatePair(true, [Pair(3, 4)]) && g[Pair(3, 4)] == StatePair(true, [Pair(5, 6)])
  }

  lemma WitnessGraphShaped()
    ensures WitnessGraphShape(WitnessGraph(map[]))
    ensures Starts(WitnessGraph(map[]), {Pair(1, 2)}) == {Pair(7, 8), Pair(5, 6), Pair(3, 4)}
  {
    var g1 := Recorded(map[], Pair(7, 8), Pair(1, 2));
    var g2 := Recorded(g1, Pair(5, 6), Pair(3, 4));
    assert DepsOf(g2, Pair(3, 4)) == [];
  }

  /** Where the merge after the failed witness test stands: every state of the witness has a
      class, and 3 and 4 share one exactly when 5 and 6 do. */
  ghost predicate WitnessMerging(root: map<State, State>)
  {
    && (forall x :: 0 <= x < 9 ==> x in root)
    && (SameClass(root, 3, 4) <==> SameClass(root, 5, 6))
  }

  /** Joining no pair leaves every two states in a class together exactly when they were. */
  lemma JoinOfNoPair(root: map<State, State>, root': map<State, State>, x: State, y: State)
    requires JoinOf(root, {}, root')
    ensures SameClass(root', x, y) <==> SameClass(root, x, y)
  {
    CoarsensReflexive(root);
    assert JoinsAll(root, {});
    assert Coarsens(root', root);
    assert KeptTogether(root, root', x, y) && KeptTogether(root', root, x, y);
  }

  /** One `mergePair` call after the witness test: from 7 and 8 it stops at 1 and 2 and changes
      no class; from 3 and 4 or from 5 and 6 it collects both pairs unless their states already
      share classes, so afterwards 3 and 4 share a class. */
  lemma {:induction false} WitnessMergeStep(g: Lookup, root: map<State, State>, n: Pair, root': map<State, State>, k: int)
    requires WitnessGraphShape(g) && WitnessMerging(root)
    requires n == Pair(7, 8) || n == Pair(5, 6) || n == Pair(3, 4)
    requires MergedFrom(g, {Pair(1, 2)}, root, n, root', k)
    ensures WitnessMerging(root')
    ensures SameClass(root, 3, 4) ==> SameClass(root', 3, 4)
    ensures n != Pair(7, 8) ==> SameClass(root', 3, 4)
  {
    var bad := {Pair(1, 2)};
    var e: set<Pair> := {};
    if n == Pair(7, 8) {
      var r := Explored(g, root, bad, [Pair(1, 2)], e);
      var d := Pair(1, 2);
      assert d.fst in root && d.snd in root && !g[d].tested && [d][1..] == [];
      if root[1] == root[2] {
        assert r == Explored(g, root, bad, [], e);
      } else {
        assert r == Ok(None);
      }
      if r.Ok? && r.value.Some? {
        JoinOfNoPair(root, root', 3, 4);
        JoinOfNoPair(root, root', 5, 6);
      }
    } else {
      var m := if n == Pair(5, 6) then Pair(3, 4) else Pair(5, 6);
      assert g[n].deps == [m];
      if SameClass(root, 3, 4) {
        assert Explored(g, root, bad, [m], e) == Ok(Some(e));
        JoinOfNoPair(root, root', 3, 4);
        JoinOfNoPair(root, root', 5, 6);
      } else {
        var both := e + {m} + {n};
        assert !SameClass(root, m.fst, m.snd) && !SameClass(root, n.fst, n.snd);
        assert g[m].deps == [n] && [m][1..] + [n] == [n] && [n][1..] + [m] == [m];
        assert Explored(g, root, bad, [m], e) == Explored(g, root, bad, [n], e + {m});
        assert Explored(g, root, bad, [n], e + {m}) == Explored(g, root, bad, [m], both);
        assert Explored(g, root, bad, [m], both) == Ok(Some(both));
        assert SameClass(root', m.fst, m.snd) && SameClass(root', n.fst, n.snd);
      }
    }
  }

  /** Every run of `mergePair` calls from nodes off the bad path of the witness test, started from
      the partition with every state alone, keeps `WitnessMerging`, and has joined 3 and 4 once
      it has started from 3 and 4 or from 5 and 6. */
  lemma {:induction false} WitnessMergeRun(g: Lookup, order: seq<Pair>, counts: seq<int>, root: map<State, State>)
    requires WitnessGraphShape(g)
    requires MergeRun(g, {Pair(1, 2)}, order, counts, Alone(9), root)
    requires forall n :: n in order ==> n in Starts(g, {Pair(1, 2)})
    ensures WitnessMerging(root)
    ensures Pair(3, 4) in order || Pair(5, 6) in order ==> SameClass(root, 3, 4)
    decreases |order|
  {
    if order == [] {
      assert Alone(9)[3] == 3 && Alone(9)[4] == 4 && Alone(9)[5] == 5 && Alone(9)[6] == 6;
    } else {
      var mid :| LastCall(g, {Pair(1, 2)}, order, counts, Alone(9), mid, root);
      var earlier, n := order[..|order| - 1], order[|order| - 1];
      assert forall x :: x in order ==> x in earlier || x == n;
      assert forall x :: x in earlier ==> x in order;
      WitnessMergeRun(g, earlier, counts[..|counts| - 1], mid);
      assert n in order;
      WitnessMergeStep(g, mid, n, root, counts[|counts| - 1]);
    }
  }

  /** As written, the failed test of 1 and 2 on the witness, from the partition with every state
      alone, leaves a graph whose merge joins 3 and 4, although the word 0001 tells them apart:
      every run of `mergeStates` that starts from each node off the bad path puts the two
      inequivalent states in one class. */
  lemma {:induction false} WitnessMergeUnsound(c: Ctx, order: seq<Pair>, counts: seq<int>, root: map<State, State>)
    requires WitnessCtx(c)
    requires MergeRun(WitnessGraph(map[]), {Pair(1, 2)}, order, counts, c.root, root)
    requires forall n :: n in order <==> n in Starts(WitnessGraph(map[]), {Pair(1, 2)})
    ensures CtxOK(c) && 1 in c.dist && 2 in c.dist
    ensures var r := RecTestD(c, 1, 2, {}, {}, {}, map[], true);
            && r.run.answer == Ok(false) && r.run.path == {Pair(1, 2)} && r.graph == WitnessGraph(map[])
    ensures SameClass(root, 3, 4) && !Equivalent(c.a, 3, 4)
  {
    WitnessCtxFacts(c);
    WitnessRun(c);
    WitnessGraphShaped();
    assert Pair(3, 4) in order;
    WitnessMergeRun(WitnessGraph(map[]), order, counts, root);
    WitnessSeparates(c.a);
  }

  /** A state of the witness alone in its class, with its distance. */
  ghost predicate ClassOf(c: Ctx, x: State)
  {
    x in c.root && c.root[x] == x && x in c.dist
  }

  /** A state of the witness with its two moves. */
  ghost predicate MovesOf(c: Ctx, x: State)
  {
    MovesFrom(c.a.moves, x) == StateMoves(WitnessNext, x)
  }
}
