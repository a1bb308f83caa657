/**
 * The equivalence test of minimization/incremental/IncrWithDependencyChecks.java: the iterative
 * test of IncrementalMinimization that records, for every pair of successor classes it assumes
 * or finds assumed, that the pair it is examining depends on it. When a meeting reaches a pair
 * known to be inequivalent, the failing path gets that pair too, and every tested pair of the
 * dependency graph whose dependencies are all tested and off the failing path has its two states
 * merged.
 *
 * The test is described by ghost functions (`DepTest`, `DepStack`, `DepWalk`, `DepMeet`) that
 * follow the Java loop by loop; the heap methods are proved to compute exactly what they
 * describe, and value lemmas prove what the functions promise.
 */
module DependencyChecks {
  import opened Base
  import opened Sfa
  import opened UnionFind
  import opened StateOrder
  import opened Splitting
  import opened Equivalence
  import opened Walk
  import opened Incremental
  import opened Recursive
  import opened DependencyGraphs
  import opened Scan
  import opened TwoSymbols

  // ---------------------------------------------------------------------------------------------
  // Dependencies.mergePair: the walk over a node's dependencies.
  // ---------------------------------------------------------------------------------------------

  /** Every node of `s - base` has all its dependencies in `s`. */
  ghost predicate DepsClosed(g: Lookup, s: set<Pair>, base: set<Pair>)
  {
    forall x, d :: x in s && x !in base && x in g && d in g[x].deps ==> d in s
  }

  /** `s` extends `seen` by tested nodes off the bad path only, and holds every dependency of
      what it adds. */
  ghost predicate GoodFrom(g: Lookup, bad: set<Pair>, s: set<Pair>, seen: set<Pair>)
  {
    && seen <= s <= g.Keys
    && (forall d :: d in s && d !in seen ==> g[d].tested && d !in bad)
    && DepsClosed(g, s, seen)
  }

  /** The queue loop of `mergePair` with the queue `queue` and the nodes `seen` already taken:
      a node met again is passed over, an untested node or one on the bad path ends the walk
      with nothing merged, any other node is taken and its dependencies queued. The result is
      the nodes taken, or `None` when the walk gave up. */
  ghost function Reached(g: Lookup, bad: set<Pair>, queue: seq<Pair>, seen: set<Pair>): (r: Option<set<Pair>>)
    requires EdgesInside(g) && (forall d :: d in queue ==> d in g) && seen <= g.Keys
    ensures r.Some? ==> GoodFrom(g, bad, r.value, seen) && forall d :: d in queue ==> d in r.value
    ensures r.None? ==> exists d :: d in g && d !in seen && (!g[d].tested || d in bad)
    decreases |g.Keys - seen|, |queue|
  {
    if queue == [] then Some(seen)
    else
      var dep := queue[0];
      if dep in seen then Reached(g, bad, queue[1..], seen)
      else if !g[dep].tested || dep in bad then None
      else
        FewerUnseen(g.Keys, seen, dep);
        Reached(g, bad, queue[1..] + g[dep].deps, seen + {dep})
  }

  /** The walk gives up only when it must: whenever some good extension of `seen` holds the
      whole queue, the walk ends with a set of nodes. With the first postcondition of `Reached`,
      the walk succeeds exactly when such an extension exists. */
  lemma {:induction false} ReachedComplete(g: Lookup, bad: set<Pair>, queue: seq<Pair>, seen: set<Pair>,
                                           s: set<Pair>)
    requires EdgesInside(g) && (forall d :: d in queue ==> d in g) && seen <= g.Keys
    requires GoodFrom(g, bad, s, seen) && forall d :: d in queue ==> d in s
    ensures Reached(g, bad, queue, seen).Some?
    decreases |g.Keys - seen|, |queue|
  {
    if queue != [] {
      var dep := queue[0];
      assert dep in queue;
      if dep in seen {
        ReachedComplete(g, bad, queue[1..], seen, s);
      } else {
        FewerUnseen(g.Keys, seen, dep);
        var next := queue[1..] + g[dep].deps;
        forall d | d in next ensures d in s {
          if d !in queue[1..] {
            assert d in g[dep].deps;
          }
        }
        ReachedComplete(g, bad, next, seen + {dep}, s);
      }
    }
  }

  /** The tested nodes off the bad path whose walk succeeds: those `mergeStates` merges. */
  ghost function Mergeable(g: Lookup, bad: set<Pair>): (r: set<Pair>)
    requires EdgesInside(g)
    ensures r <= g.Keys
    ensures forall n :: n in r ==> g[n].tested && n !in bad
  {
    set n | n in g.Keys && g[n].tested && n !in bad && Reached(g, bad, g[n].deps, {}).Some?
  }

  /** When the nodes off the bad path are closed under a sound partition `root0`, every
      mergeable node holds two equivalent states: with the nodes its walk reached it forms a set
      of pairs closed among themselves. */
  lemma MergeableSound(ba: Algebra, a: Automaton, root0: map<State, State>, g: Lookup, bad: set<Pair>)
    requires ValidAutomaton(ba, a) && SoundPartition(a, root0)
    requires EdgesInside(g) && GraphClosed(ba, a, root0, g, bad)
    ensures forall n :: n in Mergeable(g, bad) ==> Equivalent(a, n.fst, n.snd)
  {
    forall n | n in Mergeable(g, bad) ensures Equivalent(a, n.fst, n.snd) {
      var s := Reached(g, bad, g[n].deps, {}).value;
      var r := s + {n};
      forall pr | pr in r
        ensures pr.fst in a.states && pr.snd in a.states && (pr.fst in a.finals <==> pr.snd in a.finals)
        ensures Closed(ba, a, root0, pr.fst, pr.snd, r)
      {
        assert NodeClosed(ba, a, root0, g, pr);
        var tp := (set d | d in g[pr].deps) + {pr};
        assert pr in {pr};
        HandledGrow(a, root0, pr.fst, pr.snd, ba.universe, tp, r);
      }
      ClosedPairsEquivalent(ba, a, root0, r);
    }
  }

  /** The dependency graph of one test: the pairs it examined or met, as in `DependencyGraph`,
      with the classes it merges. */
  class Dependencies {
    const equivClasses: DisjointSets
    var pairLookup: Lookup

    ghost predicate Valid()
      reads this
    {
      EdgesInside(pairLookup)
    }

    constructor (equivClasses: DisjointSets)
      ensures Valid() && this.equivClasses == equivClasses && pairLookup == map[]
    {
      this.equivClasses := equivClasses;
      pairLookup := map[];
    }

    /** `addDependency`: the same recording as `DependencyGraph.AddDependency`. */
    method AddDependency(pair: Pair, dependency: Pair)
      requires Valid()
      modifies this
      ensures Valid() && pairLookup == Recorded(old(pairLookup), pair, dependency)
    {
      if pair == dependency {
        return;
      }
      if pair in pairLookup {
        pairLookup := pairLookup[pair := StatePair(true, pairLookup[pair].deps)];
      } else {
        pairLookup := pairLookup[pair := StatePair(true, [])];
      }
      if dependency !in pairLookup {
        pairLookup := pairLookup[dependency := StatePair(false, [])];
      }
      pairLookup := pairLookup[pair := StatePair(true, pairLookup[pair].deps + [dependency])];
    }

    method AddAllDependencies(pair: Pair, dpairs: seq<Pair>)
      requires Valid()
      modifies this
      ensures Valid() && pairLookup == RecordedAll(old(pairLookup), pair, dpairs)
    {
      for i := 0 to |dpairs|
        invariant Valid() && pairLookup == RecordedAll(old(pairLookup), pair, dpairs[..i])
      {
        assert dpairs[..i + 1][..i] == dpairs[..i];
        AddDependency(pair, dpairs[i]);
      }
      assert dpairs[..|dpairs|] == dpairs;
    }

    /** The queue loop of `mergePair` from the dependencies `deps`: whether it ran to the end. */
    method WalkDependencies(deps: seq<Pair>, badPath: set<Pair>) returns (complete: bool)
      requires Valid() && forall d :: d in deps ==> d in pairLookup
      ensures complete <==> Reached(pairLookup, badPath, deps, {}).Some?
    {
      ghost var spec := Reached(pairLookup, badPath, deps, {});
      var depQueue := deps;
      var seenPairs: set<Pair> := {};
      while depQueue != []
        invariant (forall d :: d in depQueue ==> d in pairLookup) && seenPairs <= pairLookup.Keys
        invariant Reached(pairLookup, badPath, depQueue, seenPairs) == spec
        decreases |pairLookup.Keys - seenPairs|, |depQueue|
      {
        var dep := depQueue[0];
        depQueue := depQueue[1..];
        if dep in seenPairs {
          continue;
        }
        FewerUnseen(pairLookup.Keys, seenPairs, dep);
        seenPairs := seenPairs + {dep};
        if !pairLookup[dep].tested {
          return false;
        }
        if dep in badPath {
          return false;
        }
        depQueue := depQueue + pairLookup[dep].deps;
      }
      return true;
    }

    /** `mergePair`: when the walk over the dependencies of `pairEntry` runs to the end, the two
        states of `pairEntry` itself are merged, and nothing else is. The result is the exception
        `union` throws for a state outside the partition, if any. */
    method MergePair(pairEntry: Pair, badPath: set<Pair>) returns (r: Option<Error>)
      requires Valid() && pairEntry in pairLookup && equivClasses.Valid()
      modifies equivClasses
      ensures equivClasses.Valid() && equivClasses.parentMap.Keys == old(equivClasses.parentMap.Keys)
      ensures Reached(pairLookup, badPath, pairLookup[pairEntry].deps, {}).None? ==>
                r.None? && equivClasses.Root == old(equivClasses.Root)
      ensures Reached(pairLookup, badPath, pairLookup[pairEntry].deps, {}).Some? ==>
                if pairEntry.fst in old(equivClasses.Root) && pairEntry.snd in old(equivClasses.Root)
                then r.None? && JoinOf(old(equivClasses.Root), {pairEntry}, equivClasses.Root)
                else r == Some(IllegalArgument) && equivClasses.Root == old(equivClasses.Root)
    {
      var complete := WalkDependencies(pairLookup[pairEntry].deps, badPath);
      if !complete {
        return None;
      }
      ghost var root, rank := equivClasses.Root, equivClasses.rankMap;
      var u := equivClasses.Union(pairEntry.fst, pairEntry.snd);
      if u.Err? {
        return Some(u.error);
      }
      JoinOfUnion(root, rank, pairEntry);
      return None;
    }

    /** `mergeStates`: `mergePair` from every tested node off the bad path, in the order the map
        yields them, until `union` throws. When every node's states are registered nothing
        throws, and then the new partition is the old one with exactly the pairs of the
        mergeable nodes joined, whatever the order. */
    method MergeStates(badPath: set<Pair>) returns (r: Option<Error>)
      requires Valid() && equivClasses.Valid()
      modifies equivClasses
      ensures equivClasses.Valid() && equivClasses.parentMap.Keys == old(equivClasses.parentMap.Keys)
      ensures Coarsens(old(equivClasses.Root), equivClasses.Root)
      ensures Registered(pairLookup, old(equivClasses.Root)) ==> r.None?
      ensures r.None? ==> JoinOf(old(equivClasses.Root), Mergeable(pairLookup, badPath), equivClasses.Root)
    {
      ghost var root0 := equivClasses.Root;
      ghost var mergeable := Mergeable(pairLookup, badPath);
      JoinOfNothing(root0);
      var todo := pairLookup.Keys;
      ghost var done: set<Pair> := {};
      while todo != {}
        invariant equivClasses.Valid() && equivClasses.parentMap.Keys == old(equivClasses.parentMap.Keys)
        invariant Coarsens(root0, equivClasses.Root)
        invariant todo + done == pairLookup.Keys
        invariant JoinOf(root0, done * mergeable, equivClasses.Root)
        decreases |todo|
      {
        var pairEntry, rest := TakePair(todo);
        todo := rest;
        r := MergeNode(pairEntry, badPath, root0, done, mergeable);
        if r.Some? {
          return;
        }
        done := done + {pairEntry};
      }
      assert done * mergeable == mergeable;
      return None;
    }

    /** One round of the loop of `mergeStates`, on the node `pairEntry`, the nodes of `done`
        handled before. */
    method MergeNode(pairEntry: Pair, badPath: set<Pair>, ghost root0: map<State, State>, ghost done: set<Pair>,
                     ghost mergeable: set<Pair>) returns (r: Option<Error>)
      requires Valid() && equivClasses.Valid() && pairEntry in pairLookup && mergeable == Mergeable(pairLookup, badPath)
      requires JoinOf(root0, done * mergeable, equivClasses.Root)
      modifies equivClasses
      ensures equivClasses.Valid() && equivClasses.parentMap.Keys == old(equivClasses.parentMap.Keys)
      ensures Coarsens(root0, equivClasses.Root)
      ensures Registered(pairLookup, root0) ==> r.None?
      ensures r.None? ==> JoinOf(root0, (done + {pairEntry}) * mergeable, equivClasses.Root)
    {
      if !pairLookup[pairEntry].tested || pairEntry in badPath {
        assert (done + {pairEntry}) * mergeable == done * mergeable;
        return None;
      }
      ghost var root := equivClasses.Root;
      ghost var reached := Reached(pairLookup, badPath, pairLookup[pairEntry].deps, {});
      r := MergePair(pairEntry, badPath);
      if r.Some? {
        if Registered(pairLookup, root0) {
          RegisteredKeys(pairLookup, root0, root);
        }
        return;
      }
      if reached.None? {
        assert (done + {pairEntry}) * mergeable == done * mergeable;
      } else {
        JoinOfStep(root0, done * mergeable, root, {pairEntry}, equivClasses.Root);
        assert (done + {pairEntry}) * mergeable == done * mergeable + {pairEntry};
      }
    }
  }

  // ---------------------------------------------------------------------------------------------
  // EquivTestDependency.isEquiv as ghost functions.
  // ---------------------------------------------------------------------------------------------

  /** Where the test stands: the not-equal cache, the assumed pairs, the dependency graph and the
      stack of pending records. */
  datatype DState = DState(neq: set<Pair>, equiv: set<Pair>, graph: Lookup, stack: seq<EquivRecord>)

  /** A stretch of the test: its answer (`Ok(true)` when it went through), the state it leaves
      and, after a failure, the failing path. */
  datatype DRun = DRun(answer: Result<bool>, st: DState, path: set<Pair>)

  /** Every record of the stack holds two states with distances. */
  ghost predicate StackIn(dist: map<State, int>, stack: seq<EquivRecord>)
  {
    forall i :: 0 <= i < |stack| ==> stack[i].pState in dist && stack[i].qState in dist
  }

  /** The stack without its top record still holds states with distances. */
  lemma StackPop(dist: map<State, int>, stack: seq<EquivRecord>)
    requires StackIn(dist, stack) && stack != []
    ensures StackIn(dist, stack[..|stack| - 1])
    ensures stack[|stack| - 1].pState in dist && stack[|stack| - 1].qState in dist
  {
    var rest := stack[..|stack| - 1];
    forall i | 0 <= i < |rest| ensures rest[i].pState in dist && rest[i].qState in dist {
      assert rest[i] == stack[i];
    }
  }

  /** What a stretch of the test changes: the cache and the assumed pairs only grow, the graph
      keeps its edges inside, and records are only pushed, each one with a newly assumed pair
      of class identifiers. */
  ghost predicate Advances(c: Ctx, st: DState, st': DState)
  {
    && st.equiv <= st'.equiv && st.neq <= st'.neq
    && Unassumed(c, st'.equiv) <= Unassumed(c, st.equiv)
    && |st.stack| <= |st'.stack|
    && (|st.stack| < |st'.stack| ==> Unassumed(c, st'.equiv) < Unassumed(c, st.equiv))
    && (StackIn(c.dist, st.stack) ==> StackIn(c.dist, st'.stack))
    && (EdgesInside(st.graph) ==> EdgesInside(st'.graph))
  }

  /** A meeting of the walk of `pair` into `x` and `y`, the path of the walk being `newPath`:
      `find` throws on a state outside the partition. When the classes differ and their pair is
      not assumed, a pair known inequivalent (which the cache then holds) ends the test with that
      pair added to the path; a pair off the path is assumed, pushed and recorded as a
      dependency of `pair`. A pair of classes already assumed is recorded as a dependency. As
      written (`asWritten`), a pair of distinct classes met on the path is not recorded; the
      corrected rule records it too, so that every meeting of two distinct classes that does not
      end the test leaves a dependency. */
  ghost function DepMeet(c: Ctx, pair: Pair, newPath: set<Pair>, x: State, y: State, st: DState, asWritten: bool): (r: DRun)
    requires CtxOK(c)
    ensures Advances(c, st, r.st)
  {
    if x !in c.root || y !in c.root then DRun(Err(IllegalArgument), st, newPath)
    else
      var pc, qc := c.root[x], c.root[y];
      assert pc in c.root.Values && qc in c.root.Values;
      var next := Normalize(c.dist, pc, qc);
      if pc != qc && next !in st.equiv then
        if next in st.neq || c.dist[pc] != c.dist[qc] then
          DRun(Ok(false), st.(neq := st.neq + {next}), newPath + {next})
        else if next !in newPath then
          OneFewerOutside(c.root.Values, st.equiv, next);
          DRun(Ok(true), DState(st.neq, st.equiv + {next}, Recorded(st.graph, pair, next),
                                st.stack + [EquivRecord(pc, qc, newPath)]), newPath)
        else DRun(Ok(true), st.(graph := if asWritten then st.graph else Recorded(st.graph, pair, next)), newPath)
      else if next in st.equiv then DRun(Ok(true), st.(graph := Recorded(st.graph, pair, next)), newPath)
      else DRun(Ok(true), st, newPath)
  }

  /** The inner loop over the remaining moves `outp` and `outq` of the record of `pair`: with no
      meeting the source reads element 0 of a null list; otherwise the first meeting is handled
      and the walk goes on with the parts of the two guards the other one missed. */
  ghost function DepWalk(c: Ctx, pair: Pair, newPath: set<Pair>, outp: seq<Move>, outq: seq<Move>,
                         st: DState, asWritten: bool): (r: DRun)
    requires CtxOK(c)
    decreases GuardSize(outp)
    ensures Advances(c, st, r.st)
  {
    if outp == [] || outq == [] then DRun(Ok(true), st, newPath)
    else
      var found := FirstMeeting(outp[0].guard, outq, 0);
      if found.None? then DRun(Err(NoOverlappingMove), st, newPath)
      else
        var m := DepMeet(c, pair, newPath, outp[0].to, outq[found.value].to, st, asWritten);
        if m.answer != Ok(true) then m
        else
          var s := SplitStep(c.ba, outp, outq, found.value);
          SplitShrinksGuards(c.ba, outp, outq, found.value);
          DepWalk(c, pair, newPath, s.outp, s.outq, m.st, asWritten)
  }

  /** The outer loop of isEquiv: the record on top of the stack is popped, its pair joins its
      path, and its moves are walked; an empty stack ends the loop with the path `path`
      untouched. */
  ghost function DepStack(c: Ctx, st: DState, path: set<Pair>, asWritten: bool): (r: DRun)
    requires CtxOK(c) && StackIn(c.dist, st.stack)
    decreases Unassumed(c, st.equiv), |st.stack|
    ensures st.neq <= r.st.neq && st.equiv <= r.st.equiv
    ensures EdgesInside(st.graph) ==> EdgesInside(r.st.graph)
  {
    if st.stack == [] then DRun(Ok(true), st, path)
    else
      var rec := st.stack[|st.stack| - 1];
      var pair := RecordPair(c.dist, rec);
      var rest := st.(stack := st.stack[..|st.stack| - 1]);
      var w := DepWalk(c, pair, rec.curPath + {pair}, MovesFrom(c.a.moves, rec.pState),
                       MovesFrom(c.a.moves, rec.qState), rest, asWritten);
      if w.answer != Ok(true) then w
      else DepStack(c, w.st, path, asWritten)
  }

  /** isEquiv on `p` and `q`: a start pair known inequivalent fails at once; otherwise the stack
      starts with the record of `p` and `q` over the test's path, and once it empties the start
      pair is assumed. */
  ghost function DepTest(c: Ctx, p: State, q: State, neq: set<Pair>, equiv: set<Pair>, path: set<Pair>,
                         g: Lookup, asWritten: bool): (r: DRun)
    requires CtxOK(c) && p in c.dist && q in c.dist
    ensures neq <= r.st.neq && equiv <= r.st.equiv
    ensures EdgesInside(g) ==> EdgesInside(r.st.graph)
  {
    var pair := Normalize(c.dist, p, q);
    if pair in neq || c.dist[p] != c.dist[q] then DRun(Ok(false), DState(neq + {pair}, equiv, g, []), path)
    else
      var r := DepStack(c, DState(neq, equiv, g, [EquivRecord(p, q, path)]), path, asWritten);
      if r.answer == Ok(true) then r.(st := r.st.(equiv := r.st.equiv + {pair})) else r
  }

  // ---------------------------------------------------------------------------------------------
  // What the test promises.
  // ---------------------------------------------------------------------------------------------

  /** What isEquiv promises of a test of `x` and `y` that started with the cache `neq0`, the
      assumed pairs `e0` and the path `p0`: it does not throw, the cache and the assumed pairs
      only grow; on `true` the path is as it was and the start pair is assumed; on `false` the
      path only grows. Under a sound partition and cache, the cache stays sound and on `false`
      every new path pair, and the start pair unless it was on the path, are inequivalent. */
  ghost predicate DepOutcome(c: Ctx, neq0: set<Pair>, e0: set<Pair>, p0: set<Pair>, x: State, y: State, t: DRun)
  {
    && x in c.dist && y in c.dist
    && t.answer.Ok?
    && neq0 <= t.st.neq && e0 <= t.st.equiv
    && (t.answer.value ==> t.path == p0 && Normalize(c.dist, x, y) in t.st.equiv)
    && (!t.answer.value ==> p0 <= t.path)
    && (SoundPartition(c.a, c.root) && NeqSound(c.a, neq0) ==>
          && NeqSound(c.a, t.st.neq)
          && (!t.answer.value ==> && (forall pr :: pr in t.path - p0 ==> !Equivalent(c.a, pr.fst, pr.snd))
                                  && (Normalize(c.dist, x, y) in p0 || !Equivalent(c.a, x, y))))
  }

  /** The test of `x` and `y` from the cache `neq0`, the assumed pairs `e0`, the path `p0` and
      the graph `g0` answers `res` and leaves the cache `neq`, the assumed pairs `e`, the path
      `p` and the graph `g`, and keeps what `DepOutcome` states. */
  ghost predicate Ran(c: Ctx, x: State, y: State, neq0: set<Pair>, e0: set<Pair>, p0: set<Pair>, g0: Lookup,
                      res: Result<bool>, neq: set<Pair>, e: set<Pair>, p: set<Pair>, g: Lookup)
  {
    && CtxOK(c) && x in c.dist && y in c.dist
    && var t := DepTest(c, x, y, neq0, e0, p0, g0, false);
    && res == t.answer && neq == t.st.neq && e == t.st.equiv && p == t.path && g == t.st.graph
    && DepOutcome(c, neq0, e0, p0, x, y, t)
  }

  /** What a stretch of the stack loop of a test started at pair `s` over the path `p0` keeps,
      from the state `st` to the run `r`: it does not throw, the cache and the assumed pairs only
      grow, the cache stays sound when `sound` holds, the graph is over pairs of states; when it
      went through, the records on the stack are well formed; when it failed, the failing path
      holds `s` and `p0` and, when `sound` holds, its pairs beyond `p0` are inequivalent. */
  ghost predicate Progress(c: Ctx, p0: set<Pair>, s: Pair, sound: bool, st: DState, r: DRun)
  {
    && r.answer.Ok?
    && st.equiv <= r.st.equiv && st.neq <= r.st.neq
    && (sound ==> NeqSound(c.a, r.st.neq))
    && PairsOfStates(c.a, r.st.graph.Keys)
    && (r.answer.value ==> RecordsOK(c.a, c.dist, r.st.equiv, p0, s, sound, r.st.stack))
    && (!r.answer.value ==> && s in r.path && p0 <= r.path
                            && (sound ==> forall x :: x in r.path - p0 ==> !Equivalent(c.a, x.fst, x.snd)))
  }

  /** The facts a stretch of the stack loop starts from. */
  ghost predicate Ready(c: Ctx, p0: set<Pair>, s: Pair, sound: bool, st: DState)
  {
    && Proper(c)
    && RecordsOK(c.a, c.dist, st.equiv, p0, s, sound, st.stack)
    && (sound ==> SoundPartition(c.a, c.root) && NeqSound(c.a, st.neq))
    && PairsOfStates(c.a, st.graph.Keys)
  }

  /** In a proper context the test never throws and keeps what isEquiv promises; the graph
      stays over pairs of states. */
  lemma DepTestOutcome(c: Ctx, p: State, q: State, neq: set<Pair>, e0: set<Pair>, p0: set<Pair>, g: Lookup, asWritten: bool)
    requires Proper(c) && p in c.a.states && q in c.a.states && PairsOfStates(c.a, g.Keys)
    ensures DepOutcome(c, neq, e0, p0, p, q, DepTest(c, p, q, neq, e0, p0, g, asWritten))
    ensures PairsOfStates(c.a, DepTest(c, p, q, neq, e0, p0, g, asWritten).st.graph.Keys)
  {
    var pair := Normalize(c.dist, p, q);
    NormalizedPair(c.a, c.dist, p, q, {});
    if pair in neq || c.dist[p] != c.dist[q] {
      if c.dist[p] != c.dist[q] {
        DistinctDistances(c.ba, c.a, c.dist, p, q);
      }
    } else {
      var sound := SoundPartition(c.a, c.root) && NeqSound(c.a, neq);
      var start := EquivRecord(p, q, p0);
      assert RecordOK(c.a, c.dist, e0, p0, pair, sound, start);
      var st := DState(neq, e0, g, [start]);
      assert Ready(c, p0, pair, sound, st);
      DepStackOutcome(c, p0, pair, sound, st, p0, asWritten);
    }
  }

  /** The stack loop, from a state ready for it, keeps `Progress`; when it goes through it
      leaves the path as it was. */
  lemma {:induction false} DepStackOutcome(c: Ctx, p0: set<Pair>, s: Pair, sound: bool, st: DState, path: set<Pair>, asWritten: bool)
    requires Ready(c, p0, s, sound, st) && StackIn(c.dist, st.stack)
    decreases Unassumed(c, st.equiv), |st.stack|
    ensures Progress(c, p0, s, sound, st, DepStack(c, st, path, asWritten))
    ensures DepStack(c, st, path, asWritten).answer == Ok(true) ==> DepStack(c, st, path, asWritten).path == path
  {
    if st.stack != [] {
      var rec := st.stack[|st.stack| - 1];
      var pair := RecordPair(c.dist, rec);
      var rest := st.(stack := st.stack[..|st.stack| - 1]);
      TopRecord(c.a, c.dist, st.equiv, p0, s, sound, st.stack);
      assert RecordsOK(c.a, c.dist, st.equiv, p0, s, sound, rest.stack) by {
        forall i | 0 <= i < |rest.stack| ensures RecordOK(c.a, c.dist, st.equiv, p0, s, sound, rest.stack[i]) {
          assert rest.stack[i] == st.stack[i];
        }
      }
      var outp, outq := MovesFrom(c.a.moves, rec.pState), MovesFrom(c.a.moves, rec.qState);
      InitialSplit(c.ba, c.a, rec.pState, rec.qState);
      DepWalkOutcome(c, p0, s, sound, rec, outp, outq, rest, asWritten);
      var w := DepWalk(c, pair, rec.curPath + {pair}, outp, outq, rest, asWritten);
      if w.answer == Ok(true) {
        DepStackOutcome(c, p0, s, sound, w.st, path, asWritten);
      }
    }
  }

  /** The walk of the record `rec`, from a state ready for it, keeps `Progress`. */
  lemma {:induction false} DepWalkOutcome(c: Ctx, p0: set<Pair>, s: Pair, sound: bool, rec: EquivRecord,
                                          outp: seq<Move>, outq: seq<Move>, st: DState, asWritten: bool)
    requires Ready(c, p0, s, sound, st) && RecordOK(c.a, c.dist, st.equiv, p0, s, sound, rec)
    requires SplitInv(c.ba, outp, outq) && Faithful(c.a, rec.pState, outp) && Faithful(c.a, rec.qState, outq)
    decreases GuardSize(outp)
    ensures Progress(c, p0, s, sound, st,
                     DepWalk(c, RecordPair(c.dist, rec), rec.curPath + {RecordPair(c.dist, rec)}, outp, outq, st, asWritten))
  {
    var pair := RecordPair(c.dist, rec);
    var newPath := rec.curPath + {pair};
    if outp != [] && outq != [] {
      MeetingExists(c.ba, outp, outq);
      var j := FirstMeeting(outp[0].guard, outq, 0).value;
      DepMeetOutcome(c, p0, s, sound, rec, outp, outq, j, st, asWritten);
      var m := DepMeet(c, pair, newPath, outp[0].to, outq[j].to, st, asWritten);
      if m.answer == Ok(true) {
        RecordGrow(c.a, c.dist, st.equiv, m.st.equiv, p0, s, sound, rec);
        SplitStepKeepsInv(c.ba, outp, outq, j);
        SplitStepFaithful(c.ba, c.a, rec.pState, rec.qState, outp, outq, j);
        SplitShrinksGuards(c.ba, outp, outq, j);
        var sp := SplitStep(c.ba, outp, outq, j);
        DepWalkOutcome(c, p0, s, sound, rec, sp.outp, sp.outq, m.st, asWritten);
        DepWalkUnfold(c, pair, newPath, outp, outq, st, j, asWritten);
      }
    }
  }

  /** One step of `DepWalk` on lists that are not empty and meet at `j`. */
  lemma DepWalkUnfold(c: Ctx, pair: Pair, newPath: set<Pair>, outp: seq<Move>, outq: seq<Move>, st: DState, j: nat, asWritten: bool)
    requires CtxOK(c) && outp != [] && outq != [] && FirstMeeting(outp[0].guard, outq, 0) == Some(j)
    ensures var m := DepMeet(c, pair, newPath, outp[0].to, outq[j].to, st, asWritten);
            var s := SplitStep(c.ba, outp, outq, j);
            DepWalk(c, pair, newPath, outp, outq, st, asWritten)
              == if m.answer != Ok(true) then m else DepWalk(c, pair, newPath, s.outp, s.outq, m.st, asWritten)
  {
  }

  /** A record stays well formed as more pairs are assumed. */
  lemma RecordGrow(a: Automaton, dist: map<State, int>, e: set<Pair>, e': set<Pair>, p0: set<Pair>, s: Pair,
                   sound: bool, rec: EquivRecord)
    requires RecordOK(a, dist, e, p0, s, sound, rec) && e <= e'
    ensures RecordOK(a, dist, e', p0, s, sound, rec)
  {
    RecordsGrow(a, dist, e, e', p0, s, sound, [rec]);
    assert [rec][0] == rec;
  }

  /** A meeting of the walk of `rec` at position `j` of `outq`, from a state ready for it, keeps
      `Progress`, and leaves the graph over pairs of states. */
  lemma DepMeetOutcome(c: Ctx, p0: set<Pair>, s: Pair, sound: bool, rec: EquivRecord,
                       outp: seq<Move>, outq: seq<Move>, j: nat, st: DState, asWritten: bool)
    requires Ready(c, p0, s, sound, st) && RecordOK(c.a, c.dist, st.equiv, p0, s, sound, rec)
    requires SplitInv(c.ba, outp, outq) && Faithful(c.a, rec.pState, outp) && Faithful(c.a, rec.qState, outq)
    requires outp != [] && j < |outq| && IsSatisfiable(MkAnd(outp[0].guard, outq[j].guard))
    ensures Progress(c, p0, s, sound, st, DepMeet(c, RecordPair(c.dist, rec), rec.curPath + {RecordPair(c.dist, rec)},
                                                 outp[0].to, outq[j].to, st, asWritten))
  {
    MoveEntersState(c.ba, c.a, rec.pState, outp, 0);
    MoveEntersState(c.ba, c.a, rec.qState, outq, j);
    var x, y := outp[0].to, outq[j].to;
    var pc, qc := c.root[x], c.root[y];
    var next := Normalize(c.dist, pc, qc);
    NormalizedPair(c.a, c.dist, pc, qc, {});
    NormalizedPair(c.a, c.dist, rec.pState, rec.qState, {});
    if pc != qc && next !in st.equiv {
      if next in st.neq || c.dist[pc] != c.dist[qc] {
        KnownMeetOutcome(c, p0, s, sound, rec, outp, outq, j, st, asWritten);
      } else if next !in rec.curPath + {RecordPair(c.dist, rec)} {
        PushMeetOutcome(c, p0, s, sound, rec, outp, outq, j, st, asWritten);
      } else {
        RecordedStates(c.a, c.dist, st.graph, rec, pc, qc);
      }
    } else if next in st.equiv {
      RecordedStates(c.a, c.dist, st.graph, rec, pc, qc);
    }
  }

  /** The case of `DepMeetOutcome` where the classes met differ and are known inequivalent. */
  lemma KnownMeetOutcome(c: Ctx, p0: set<Pair>, s: Pair, sound: bool, rec: EquivRecord,
                         outp: seq<Move>, outq: seq<Move>, j: nat, st: DState, asWritten: bool)
    requires Ready(c, p0, s, sound, st) && RecordOK(c.a, c.dist, st.equiv, p0, s, sound, rec)
    requires SplitInv(c.ba, outp, outq) && Faithful(c.a, rec.pState, outp) && Faithful(c.a, rec.qState, outq)
    requires outp != [] && j < |outq| && IsSatisfiable(MkAnd(outp[0].guard, outq[j].guard))
    requires outp[0].to in c.root && outq[j].to in c.root
    requires c.root[outp[0].to] in c.dist && c.root[outq[j].to] in c.dist
    requires var pc, qc := c.root[outp[0].to], c.root[outq[j].to];
             && pc != qc && Normalize(c.dist, pc, qc) !in st.equiv
             && (Normalize(c.dist, pc, qc) in st.neq || c.dist[pc] != c.dist[qc])
    ensures Progress(c, p0, s, sound, st, DepMeet(c, RecordPair(c.dist, rec), rec.curPath + {RecordPair(c.dist, rec)},
                                                 outp[0].to, outq[j].to, st, asWritten))
  {
    var pc, qc := c.root[outp[0].to], c.root[outq[j].to];
    var next := Normalize(c.dist, pc, qc);
    NormalizedPair(c.a, c.dist, pc, qc, {});
    NormalizedPair(c.a, c.dist, rec.pState, rec.qState, {});
    if sound {
      if c.dist[pc] != c.dist[qc] {
        DistinctDistances(c.ba, c.a, c.dist, pc, qc);
      }
      InequivalentMeeting(c.a, c.root, rec.pState, rec.qState, outp, outq, j);
    }
    FailedMeeting(c.a, c.dist, st.equiv, p0, s, sound, rec, next);
  }

  /** The case of `DepMeetOutcome` where the classes met give a new pair to assume, whose
      record is pushed. */
  lemma PushMeetOutcome(c: Ctx, p0: set<Pair>, s: Pair, sound: bool, rec: EquivRecord,
                        outp: seq<Move>, outq: seq<Move>, j: nat, st: DState, asWritten: bool)
    requires Ready(c, p0, s, sound, st) && RecordOK(c.a, c.dist, st.equiv, p0, s, sound, rec)
    requires SplitInv(c.ba, outp, outq) && Faithful(c.a, rec.pState, outp) && Faithful(c.a, rec.qState, outq)
    requires outp != [] && j < |outq| && IsSatisfiable(MkAnd(outp[0].guard, outq[j].guard))
    requires outp[0].to in c.root && outq[j].to in c.root
    requires c.root[outp[0].to] in c.dist && c.root[outq[j].to] in c.dist
    requires var pc, qc := c.root[outp[0].to], c.root[outq[j].to];
             && pc != qc && Normalize(c.dist, pc, qc) !in st.equiv
             && Normalize(c.dist, pc, qc) !in st.neq && c.dist[pc] == c.dist[qc]
             && Normalize(c.dist, pc, qc) !in rec.curPath + {RecordPair(c.dist, rec)}
    ensures Progress(c, p0, s, sound, st, DepMeet(c, RecordPair(c.dist, rec), rec.curPath + {RecordPair(c.dist, rec)},
                                                 outp[0].to, outq[j].to, st, asWritten))
  {
    var newPath := rec.curPath + {RecordPair(c.dist, rec)};
    var pc, qc := c.root[outp[0].to], c.root[outq[j].to];
    var next := Normalize(c.dist, pc, qc);
    NormalizedPair(c.a, c.dist, pc, qc, {});
    NormalizedPair(c.a, c.dist, rec.pState, rec.qState, {});
    if sound && !Equivalent(c.a, pc, qc) {
      InequivalentMeeting(c.a, c.root, rec.pState, rec.qState, outp, outq, j);
    }
    var e' := st.equiv + {next};
    ChildRecord(c.a, c.dist, st.equiv, e', p0, s, sound, rec, pc, qc);
    RecordsGrow(c.a, c.dist, st.equiv, e', p0, s, sound, st.stack);
    PushRecord(c.a, c.dist, e', p0, s, sound, st.stack, EquivRecord(pc, qc, newPath));
    RecordedStates(c.a, c.dist, st.graph, rec, pc, qc);
  }

  /** A meeting that reaches a pair `next` known inequivalent: the failing path is the record's
      path with its own pair and `next`. */
  lemma FailedMeeting(a: Automaton, dist: map<State, int>, e: set<Pair>, p0: set<Pair>, s: Pair, sound: bool,
                      rec: EquivRecord, next: Pair)
    requires RecordOK(a, dist, e, p0, s, sound, rec)
    requires sound ==> !Equivalent(a, rec.pState, rec.qState) && !Equivalent(a, next.fst, next.snd)
    ensures var failPath := rec.curPath + {RecordPair(dist, rec)} + {next};
            && s in failPath && p0 <= failPath
            && (sound ==> forall x :: x in failPath - p0 ==> !Equivalent(a, x.fst, x.snd))
  {
    FailedRecord(a, dist, e, p0, s, sound, [rec]);
  }

  /** A record pushed onto well-formed records. */
  lemma PushRecord(a: Automaton, dist: map<State, int>, e: set<Pair>, p0: set<Pair>, s: Pair, sound: bool,
                   stack: seq<EquivRecord>, rec: EquivRecord)
    requires RecordsOK(a, dist, e, p0, s, sound, stack) && RecordOK(a, dist, e, p0, s, sound, rec)
    ensures RecordsOK(a, dist, e, p0, s, sound, stack + [rec])
  {
    forall i | 0 <= i < |stack + [rec]| ensures RecordOK(a, dist, e, p0, s, sound, (stack + [rec])[i]) {
      if i < |stack| {
        assert (stack + [rec])[i] == stack[i];
      }
    }
  }

  /** Recording that the pair of `rec` depends on the pair of classes `pc`, `qc` keeps the
      graph over pairs of states. */
  lemma RecordedStates(a: Automaton, dist: map<State, int>, g: Lookup, rec: EquivRecord, pc: State, qc: State)
    requires PairsOfStates(a, g.Keys) && rec.pState in a.states && rec.qState in a.states
    requires rec.pState in dist && rec.qState in dist && pc in a.states && qc in a.states && pc in dist && qc in dist
    ensures PairsOfStates(a, Recorded(g, RecordPair(dist, rec), Normalize(dist, pc, qc)).Keys)
  {
  }

  // ---------------------------------------------------------------------------------------------
  // With the corrected recording, the graph's finished nodes are closed.
  // ---------------------------------------------------------------------------------------------

  /** A record holds two states of the automaton at equal distances. */
  ghost predicate RecordStates(a: Automaton, dist: map<State, int>, rec: EquivRecord)
  {
    && rec.pState in a.states && rec.qState in a.states && rec.pState in dist && rec.qState in dist
    && dist[rec.pState] == dist[rec.qState]
  }

  ghost predicate StackStates(a: Automaton, dist: map<State, int>, stack: seq<EquivRecord>)
  {
    forall i :: 0 <= i < |stack| ==> RecordStates(a, dist, stack[i])
  }

  /** A graph closed off `open` is closed off any larger set. */
  lemma ClosedOffMore(ba: Algebra, a: Automaton, root: map<State, State>, g: Lookup, open: set<Pair>, open': set<Pair>)
    requires GraphClosed(ba, a, root, g, open) && open <= open'
    ensures GraphClosed(ba, a, root, g, open')
  {
    forall n | n in g && g[n].tested && n !in open' ensures NodeClosed(ba, a, root, g, n) {
      assert n !in open;
    }
  }

  /** A record pushed onto records of states keeps them records of states. */
  lemma PushStates(a: Automaton, dist: map<State, int>, stack: seq<EquivRecord>, rec: EquivRecord)
    requires StackStates(a, dist, stack) && RecordStates(a, dist, rec)
    ensures StackStates(a, dist, stack + [rec])
  {
    forall i | 0 <= i < |stack + [rec]| ensures RecordStates(a, dist, (stack + [rec])[i]) {
      if i < |stack| {
        assert (stack + [rec])[i] == stack[i];
      }
    }
  }

  /** A meeting of the walk of `pair`, with the corrected recording, keeps every node but `pair`
      closed and the stack over states; when it goes through, the two classes met coincide or
      form a dependency of `pair`, and when it stops, the path returned holds `newPath`. */
  lemma DepMeetClosed(c: Ctx, pair: Pair, p: State, q: State, newPath: set<Pair>, outp: seq<Move>, outq: seq<Move>,
                      j: nat, st: DState)
    requires Proper(c) && p in c.a.states && q in c.a.states
    requires WalkInv(c.ba, c.a, c.root, p, q, outp, outq, Deps(st.graph, pair)) && outp != [] && j < |outq|
    requires GraphClosed(c.ba, c.a, c.root, st.graph, {pair}) && StackStates(c.a, c.dist, st.stack)
    ensures var x, y := outp[0].to, outq[j].to;
            var m := DepMeet(c, pair, newPath, x, y, st, false);
            && GraphClosed(c.ba, c.a, c.root, m.st.graph, {pair}) && Grows(st.graph, m.st.graph)
            && StackStates(c.a, c.dist, m.st.stack)
            && (m.answer == Ok(true) ==>
                  && x in c.root && y in c.root
                  && (c.root[x] == c.root[y] || InEitherOrder(c.root[x], c.root[y], Deps(m.st.graph, pair))))
            && (m.answer != Ok(true) ==> newPath <= m.path)
  {
    MoveEntersState(c.ba, c.a, p, outp, 0);
    MoveEntersState(c.ba, c.a, q, outq, j);
    var pc, qc := c.root[outp[0].to], c.root[outq[j].to];
    assert pc in c.root.Values && qc in c.root.Values;
    var next := Normalize(c.dist, pc, qc);
    var m := DepMeet(c, pair, newPath, outp[0].to, outq[j].to, st, false);
    var known := next in st.neq || c.dist[pc] != c.dist[qc];
    if (pc != qc && next !in st.equiv && !known) || next in st.equiv {
      RecordKeepsClosed(c.ba, c.a, c.root, st.graph, {pair}, pair, next);
      NormalizedPair(c.a, c.dist, pc, qc, Deps(m.st.graph, pair));
      if pc != qc && next !in st.equiv && next !in newPath {
        PushStates(c.a, c.dist, st.stack, EquivRecord(pc, qc, newPath));
      }
    }
  }

  /** The walk of `pair`, whose states are `p` and `q`, with the corrected recording: when it
      goes through, every tested node is closed; when it stops, every tested node off the path it
      returns is. */
  lemma {:induction false} DepWalkClosed(c: Ctx, pair: Pair, p: State, q: State, newPath: set<Pair>,
                                         outp: seq<Move>, outq: seq<Move>, st: DState)
    requires Proper(c) && p in c.a.states && q in c.a.states && c.dist[p] == c.dist[q]
    requires pair == Normalize(c.dist, p, q) && pair in newPath
    requires WalkInv(c.ba, c.a, c.root, p, q, outp, outq, Deps(st.graph, pair))
    requires GraphClosed(c.ba, c.a, c.root, st.graph, {pair}) && StackStates(c.a, c.dist, st.stack)
    decreases GuardSize(outp)
    ensures var r := DepWalk(c, pair, newPath, outp, outq, st, false);
            && (r.answer == Ok(true) ==>
                  GraphClosed(c.ba, c.a, c.root, r.st.graph, {}) && StackStates(c.a, c.dist, r.st.stack))
            && (r.answer != Ok(true) ==> GraphClosed(c.ba, c.a, c.root, r.st.graph, r.path))
  {
    if outp == [] || outq == [] {
      WalkEnd(c.ba, c.a, c.root, p, q, outp, outq, Deps(st.graph, pair));
      ClosedJoin(c.ba, c.a, c.root, c.dist, {}, p, q, pair, Deps(st.graph, pair));
      assert {} + {pair} == {pair};
      CloseNode(c.ba, c.a, c.root, st.graph, {pair}, pair);
      assert {pair} - {pair} == {};
    } else {
      var found := FirstMeeting(outp[0].guard, outq, 0);
      if found.None? {
        ClosedOffMore(c.ba, c.a, c.root, st.graph, {pair}, newPath);
      } else {
        var j := found.value;
        DepWalkUnfold(c, pair, newPath, outp, outq, st, j, false);
        DepMeetClosed(c, pair, p, q, newPath, outp, outq, j, st);
        var m := DepMeet(c, pair, newPath, outp[0].to, outq[j].to, st, false);
        if m.answer == Ok(true) {
          var s := SplitStep(c.ba, outp, outq, j);
          GrowsDeps(st.graph, m.st.graph, pair);
          WalkGrow(c.ba, c.a, c.root, p, q, outp, outq, Deps(st.graph, pair), Deps(m.st.graph, pair));
          MeetStep(c.ba, c.a, c.root, p, q, outp, outq, j, Deps(m.st.graph, pair));
          SplitShrinksGuards(c.ba, outp, outq, j);
          DepWalkClosed(c, pair, p, q, newPath, s.outp, s.outq, m.st);
        } else {
          ClosedOffMore(c.ba, c.a, c.root, m.st.graph, {pair}, m.path);
        }
      }
    }
  }

  /** The stack loop with the corrected recording, from a graph whose tested nodes are all
      closed: when it goes through they still are, and when it fails every tested node off the
      failing path is. */
  lemma {:induction false} DepStackClosed(c: Ctx, st: DState, path: set<Pair>)
    requires Proper(c) && StackIn(c.dist, st.stack) && StackStates(c.a, c.dist, st.stack)
    requires GraphClosed(c.ba, c.a, c.root, st.graph, {})
    decreases Unassumed(c, st.equiv), |st.stack|
    ensures var r := DepStack(c, st, path, false);
            GraphClosed(c.ba, c.a, c.root, r.st.graph, if r.answer == Ok(true) then {} else r.path)
  {
    if st.stack != [] {
      var rec := st.stack[|st.stack| - 1];
      var pair := RecordPair(c.dist, rec);
      var rest := st.(stack := st.stack[..|st.stack| - 1]);
      assert RecordStates(c.a, c.dist, rec);
      assert StackStates(c.a, c.dist, rest.stack) by {
        forall i | 0 <= i < |rest.stack| ensures RecordStates(c.a, c.dist, rest.stack[i]) {
          assert rest.stack[i] == st.stack[i];
        }
      }
      StackPop(c.dist, st.stack);
      var outp, outq := MovesFrom(c.a.moves, rec.pState), MovesFrom(c.a.moves, rec.qState);
      WalkStart(c.ba, c.a, c.root, rec.pState, rec.qState, Deps(st.graph, pair));
      OpenMore(c.ba, c.a, c.root, st.graph, {}, pair);
      assert {} + {pair} == {pair};
      DepWalkClosed(c, pair, rec.pState, rec.qState, rec.curPath + {pair}, outp, outq, rest);
      var w := DepWalk(c, pair, rec.curPath + {pair}, outp, outq, rest, false);
      if w.answer == Ok(true) {
        DepStackClosed(c, w.st, path);
      }
    }
  }

  /** With the corrected recording, a test started from a graph whose tested nodes are all
      closed leaves them all closed when it succeeds, and all those off the failing path when it
      fails: the graph `mergeStates` then reads is one `MergeableSound` applies to. */
  lemma DepTestClosed(c: Ctx, p: State, q: State, neq: set<Pair>, equiv: set<Pair>, path: set<Pair>, g: Lookup)
    requires Proper(c) && p in c.a.states && q in c.a.states && GraphClosed(c.ba, c.a, c.root, g, {})
    ensures var r := DepTest(c, p, q, neq, equiv, path, g, false);
            GraphClosed(c.ba, c.a, c.root, r.st.graph, if r.answer == Ok(true) then {} else r.path)
  {
    var pair := Normalize(c.dist, p, q);
    if pair in neq || c.dist[p] != c.dist[q] {
      ClosedOffMore(c.ba, c.a, c.root, g, {}, path);
    } else {
      var st := DState(neq, equiv, g, [EquivRecord(p, q, path)]);
      assert RecordStates(c.a, c.dist, st.stack[0]);
      DepStackClosed(c, st, path);
    }
  }

  /** With the corrected recording, the merge after a failed test keeps a sound partition
      sound when every tested node of the graph it started from was closed. */
  lemma FailedMergeSound(c: Ctx, p: State, q: State, neq0: set<Pair>, e0: set<Pair>, p0: set<Pair>, g0: Lookup,
                         neq: set<Pair>, e: set<Pair>, path: set<Pair>, g: Lookup, root: map<State, State>)
    requires Proper(c) && p in c.a.states && q in c.a.states && SoundPartition(c.a, c.root)
    requires EdgesInside(g0) && GraphClosed(c.ba, c.a, c.root, g0, {})
    requires Ran(c, p, q, neq0, e0, p0, g0, Ok(false), neq, e, path, g)
    requires EdgesInside(g) && JoinOf(c.root, Mergeable(g, path), root) && Identifies(c.a, root)
    ensures SoundPartition(c.a, root)
  {
    DepTestClosed(c, p, q, neq0, e0, p0, g0);
    MergeableSound(c.ba, c.a, c.root, g, path);
    DependencyGraphs.SoundClasses(c.a, c.root);
    JoinOfSound(c.a, c.root, Mergeable(g, path), root);
    ClassesSoundPartition(c.a, root);
  }

  // ---------------------------------------------------------------------------------------------
  // The test on the heap.
  // ---------------------------------------------------------------------------------------------

  class EquivTestDependency {
    const outer: IncrementalMinimization
    const equivClasses: DisjointSets
    /** The dependencies recorded by this test. */
    const deps: Dependencies
    /** Pairs assumed equivalent by this test. */
    var equiv: set<Pair>
    /** Pairs on the way to the pair that failed. */
    var path: set<Pair>

    constructor (outer: IncrementalMinimization, equivClasses: DisjointSets, equiv: set<Pair>, path: set<Pair>)
      ensures this.outer == outer && this.equivClasses == equivClasses
      ensures this.equiv == equiv && this.path == path
      ensures fresh(deps) && deps.Valid() && deps.equivClasses == equivClasses && deps.pairLookup == map[]
    {
      this.outer := outer;
      this.equivClasses := equivClasses;
      this.equiv := equiv;
      this.path := path;
      this.deps := new Dependencies(equivClasses);
    }

    /** The partition is over the automaton's states, the graph belongs to this test's
        partition and holds pairs of states only. */
    ghost predicate Valid()
      reads equivClasses, deps
    {
      && outer.Valid() && equivClasses.Valid() && equivClasses.parentMap.Keys == outer.aut.states
      && deps.equivClasses == equivClasses && deps.Valid() && PairsOfStates(outer.aut, deps.pairLookup.Keys)
    }

    ghost function Context(root: map<State, State>): Ctx
    {
      Ctx(outer.ba, outer.aut, outer.distanceToFinalMap, root)
    }

    /** The start pair is known inequivalent before the test begins. */
    ghost predicate StartKnown(p: State, q: State)
      reads outer
      requires p in outer.distanceToFinalMap && q in outer.distanceToFinalMap
    {
      || Normalize(outer.distanceToFinalMap, p, q) in outer.neq
      || outer.distanceToFinalMap[p] != outer.distanceToFinalMap[q]
    }

    /** isEquiv, with the corrected recording: the test `DepTest` describes over the classes
        before the call, which never throws and keeps what `DepOutcome` states; the cache, the
        pair sets and the graph are those it leaves. When the stack loop failed, exactly the pairs
        the graph shows mergeable off the failing path are joined; otherwise the partition is
        unchanged. When the partition is sound and every tested node of the graph is closed, as
        in a fresh graph, the merge keeps the partition sound. */
    method IsEquiv(pStart: State, qStart: State) returns (r: bool)
      requires Valid() && pStart in outer.aut.states && qStart in outer.aut.states
      modifies this, outer, equivClasses, deps
      ensures Valid()
      ensures equivClasses.parentMap.Keys == old(equivClasses.parentMap.Keys)
      ensures Coarsens(old(equivClasses.Root), equivClasses.Root)
      ensures CtxOK(Context(old(equivClasses.Root)))
      ensures Ran(Context(old(equivClasses.Root)), pStart, qStart, old(outer.neq), old(equiv), old(path),
                  old(deps.pairLookup), Ok(r), outer.neq, equiv, path, deps.pairLookup)
      ensures r || old(StartKnown(pStart, qStart)) ==> equivClasses.Root == old(equivClasses.Root)
      ensures !r && !old(StartKnown(pStart, qStart)) ==>
                JoinOf(old(equivClasses.Root), Mergeable(deps.pairLookup, path), equivClasses.Root)
      ensures && SoundPartition(outer.aut, old(equivClasses.Root))
              && GraphClosed(outer.ba, outer.aut, old(equivClasses.Root), old(deps.pairLookup), {})
              ==> SoundPartition(outer.aut, equivClasses.Root)
    {
      ClassesIdentify(outer.aut, equivClasses);
      var known := Known(pStart, qStart);
      if known {
        CoarsensReflexive(equivClasses.Root);
        return false;
      }
      r := Unknown(pStart, qStart);
    }

    /** The test of a start pair not known inequivalent: the stack loop, the merge when it
        fails, and why that merge keeps a sound partition sound. */
    method Unknown(pStart: State, qStart: State) returns (r: bool)
      requires Valid() && pStart in outer.aut.states && qStart in outer.aut.states && !StartKnown(pStart, qStart)
      modifies this, outer, equivClasses, deps
      ensures Valid()
      ensures equivClasses.parentMap.Keys == old(equivClasses.parentMap.Keys)
      ensures Coarsens(old(equivClasses.Root), equivClasses.Root)
      ensures CtxOK(Context(old(equivClasses.Root)))
      ensures Ran(Context(old(equivClasses.Root)), pStart, qStart, old(outer.neq), old(equiv), old(path),
                  old(deps.pairLookup), Ok(r), outer.neq, equiv, path, deps.pairLookup)
      ensures r ==> equivClasses.Root == old(equivClasses.Root)
      ensures !r ==> JoinOf(old(equivClasses.Root), Mergeable(deps.pairLookup, path), equivClasses.Root)
      ensures && SoundPartition(outer.aut, old(equivClasses.Root))
              && GraphClosed(outer.ba, outer.aut, old(equivClasses.Root), old(deps.pairLookup), {})
              ==> SoundPartition(outer.aut, equivClasses.Root)
    {
      ghost var root := equivClasses.Root;
      ghost var closed := GraphClosed(outer.ba, outer.aut, root, deps.pairLookup, {});
      ClassesIdentify(outer.aut, equivClasses);
      ghost var c, neq0, e0, p0, g0 := Context(root), outer.neq, equiv, path, deps.pairLookup;
      var res := Tested(pStart, qStart, root);
      r := res.value;
      if !r && closed && SoundPartition(outer.aut, root) {
        assert Proper(c);
        ClassesIdentify(outer.aut, equivClasses);
        FailedMergeSound(c, pStart, qStart, neq0, e0, p0, g0, outer.neq, equiv, path, deps.pairLookup, equivClasses.Root);
      }
    }

    /** `outer.isKnownNotEqual(pStart, qStart)`, which ends the test with false when the start
        pair is known inequivalent. */
    method Known(pStart: State, qStart: State) returns (known: bool)
      requires Valid() && pStart in outer.aut.states && qStart in outer.aut.states
      modifies outer
      ensures Valid() && known == old(StartKnown(pStart, qStart))
      ensures known ==> Ran(Context(equivClasses.Root), pStart, qStart, old(outer.neq), equiv, path,
                            deps.pairLookup, Ok(false), outer.neq, equiv, path, deps.pairLookup)
      ensures !known ==> outer.neq == old(outer.neq)
    {
      ClassesIdentify(outer.aut, equivClasses);
      known := outer.IsKnownNotEqual(pStart, qStart);
      if known {
        assert Proper(Context(equivClasses.Root));
        DepTestOutcome(Context(equivClasses.Root), pStart, qStart, old(outer.neq), equiv, path, deps.pairLookup, false);
      }
    }

    /** The stack loop, with what `DepOutcome` says of it, and `deps.mergeStates(newPath)` when
        it fails. */
    method Tested(pStart: State, qStart: State, ghost root: map<State, State>) returns (res: Result<bool>)
      requires Valid() && equivClasses.Root == root
      requires pStart in outer.aut.states && qStart in outer.aut.states && !StartKnown(pStart, qStart)
      modifies this, outer, equivClasses, deps
      ensures Valid() && equivClasses.parentMap.Keys == old(equivClasses.parentMap.Keys)
      ensures Coarsens(root, equivClasses.Root) && CtxOK(Context(root))
      ensures Ran(Context(root), pStart, qStart, old(outer.neq), old(equiv), old(path), old(deps.pairLookup),
                  res, outer.neq, equiv, path, deps.pairLookup)
      ensures res == Ok(false) ==> JoinOf(root, Mergeable(deps.pairLookup, path), equivClasses.Root)
      ensures res != Ok(false) ==> equivClasses.Root == root
    {
      ClassesIdentify(outer.aut, equivClasses);
      assert Proper(Context(root));
      DepTestOutcome(Context(root), pStart, qStart, outer.neq, equiv, path, deps.pairLookup, false);
      res := Stack(pStart, qStart, root);
    }

    /** The stack loop itself, over the classes `root`, and the merge when it fails. */
    method Stack(pStart: State, qStart: State, ghost root: map<State, State>) returns (res: Result<bool>)
      requires outer.Valid() && equivClasses.Valid() && equivClasses.Root == root && CtxOK(Context(root))
      requires deps.Valid() && deps.equivClasses == equivClasses
      requires pStart in outer.aut.states && qStart in outer.aut.states && !StartKnown(pStart, qStart)
      requires Registered(DepTest(Context(root), pStart, qStart, outer.neq, equiv, path, deps.pairLookup, false).st.graph, root)
      modifies this, outer, equivClasses, deps
      ensures equivClasses.Valid() && deps.Valid() && Coarsens(root, equivClasses.Root)
      ensures equivClasses.parentMap.Keys == old(equivClasses.parentMap.Keys)
      ensures var t := DepTest(Context(root), pStart, qStart, old(outer.neq), old(equiv), old(path), old(deps.pairLookup), false);
              && res == t.answer && outer.neq == t.st.neq && equiv == t.st.equiv && path == t.path
              && deps.pairLookup == t.st.graph
      ensures res == Ok(false) ==> JoinOf(root, Mergeable(deps.pairLookup, path), equivClasses.Root)
      ensures res != Ok(false) ==> equivClasses.Root == root
    {
      var pair := Normalize(outer.distanceToFinalMap, pStart, qStart);
      var r, e, p := ExamineStack(EquivRecord(pStart, qStart, path), root, equiv, path);
      if r == Ok(true) {
        e := e + {pair};
      }
      SetPairs(e, p);
      res := r;
      if r == Ok(false) {
        MergeFailed();
      } else {
        CoarsensReflexive(root);
      }
    }

    /** `deps.mergeStates(newPath)` after the stack loop failed, with the failing path stored
        in `path`. */
    method MergeFailed()
      requires deps.Valid() && deps.equivClasses == equivClasses && equivClasses.Valid()
      requires Registered(deps.pairLookup, equivClasses.Root)
      modifies equivClasses
      ensures equivClasses.Valid() && equivClasses.parentMap.Keys == old(equivClasses.parentMap.Keys)
      ensures Coarsens(old(equivClasses.Root), equivClasses.Root)
      ensures JoinOf(old(equivClasses.Root), Mergeable(deps.pairLookup, path), equivClasses.Root)
    {
      var _ := deps.MergeStates(path);
    }

    method SetPairs(e: set<Pair>, p: set<Pair>)
      modifies this
      ensures equiv == e && path == p
    {
      equiv, path := e, p;
    }

    /** The stack loop from the record `start`, as `DepStack` describes it. */
    method ExamineStack(start: EquivRecord, ghost root: map<State, State>, e0: set<Pair>, p0: set<Pair>)
      returns (res: Result<bool>, e: set<Pair>, pth: set<Pair>)
      requires outer.Valid() && equivClasses.Valid() && equivClasses.Root == root && CtxOK(Context(root))
      requires deps.Valid() && start.pState in outer.distanceToFinalMap && start.qState in outer.distanceToFinalMap
      modifies outer, equivClasses, deps
      ensures equivClasses.Valid() && equivClasses.Root == root && deps.Valid()
      ensures equivClasses.parentMap.Keys == old(equivClasses.parentMap.Keys)
      ensures var t := DepStack(Context(root), DState(old(outer.neq), e0, old(deps.pairLookup), [start]), p0, false);
              res == t.answer && outer.neq == t.st.neq && e == t.st.equiv && deps.pairLookup == t.st.graph
              && pth == t.path
    {
      ghost var c := Context(root);
      ghost var spec := DepStack(c, DState(outer.neq, e0, deps.pairLookup, [start]), p0, false);
      var stack := [start];
      e := e0;
      while stack != []
        invariant equivClasses.Valid() && equivClasses.Root == root && deps.Valid()
        invariant equivClasses.parentMap.Keys == old(equivClasses.parentMap.Keys)
        invariant StackIn(c.dist, stack)
        invariant DepStack(c, DState(outer.neq, e, deps.pairLookup, stack), p0, false) == spec
        decreases Unassumed(c, e), |stack|
      {
        var rec := stack[|stack| - 1];
        StackPop(c.dist, stack);
        stack := stack[..|stack| - 1];
        var pair := Normalize(outer.distanceToFinalMap, rec.pState, rec.qState);
        var newPath := rec.curPath + {pair};
        var outp, outq := MovesFrom(outer.aut.moves, rec.pState), MovesFrom(outer.aut.moves, rec.qState);
        ghost var walked := DepWalk(c, pair, newPath, outp, outq, DState(outer.neq, e, deps.pairLookup, stack), false);
        var w, e', stack', pth' := WalkRecord(pair, newPath, outp, outq, root, e, stack);
        assert stack' == walked.st.stack && e' == walked.st.equiv;
        if w != Ok(true) {
          return w, e', pth';
        }
        e, stack := e', stack';
      }
      return Ok(true), e, p0;
    }

    /** The inner loop over the moves `outp0` and `outq0` of the record of `pair`, as `DepWalk`
        describes it. */
    method WalkRecord(pair: Pair, newPath: set<Pair>, outp0: seq<Move>, outq0: seq<Move>, ghost root: map<State, State>,
                      e0: set<Pair>, stack0: seq<EquivRecord>)
      returns (res: Result<bool>, e: set<Pair>, stack: seq<EquivRecord>, pth: set<Pair>)
      requires outer.Valid() && equivClasses.Valid() && equivClasses.Root == root && CtxOK(Context(root))
      requires deps.Valid()
      modifies outer, equivClasses, deps
      ensures equivClasses.Valid() && equivClasses.Root == root && deps.Valid()
      ensures equivClasses.parentMap.Keys == old(equivClasses.parentMap.Keys)
      ensures DRun(res, DState(outer.neq, e, deps.pairLookup, stack), pth)
                == DepWalk(Context(root), pair, newPath, outp0, outq0, DState(old(outer.neq), e0, old(deps.pairLookup), stack0), false)
    {
      ghost var c := Context(root);
      ghost var spec := DepWalk(c, pair, newPath, outp0, outq0, DState(outer.neq, e0, deps.pairLookup, stack0), false);
      var outp, outq := outp0, outq0;
      e, stack := e0, stack0;
      while outp != [] && outq != []
        invariant equivClasses.Valid() && equivClasses.Root == root && deps.Valid()
        invariant equivClasses.parentMap.Keys == old(equivClasses.parentMap.Keys)
        invariant DepWalk(c, pair, newPath, outp, outq, DState(outer.neq, e, deps.pairLookup, stack), false) == spec
        decreases GuardSize(outp)
      {
        var found := FindNonDisjointMoves(outp, outq);
        if found.None? {
          return Err(NoOverlappingMove), e, stack, newPath;
        }
        var j := found.value;
        var ok, e', stack', pth' := Meet(pair, newPath, outp[0].to, outq[j].to, root, e, stack);
        if ok != Ok(true) {
          return ok, e', stack', pth';
        }
        SplitShrinksGuards(outer.ba, outp, outq, j);
        var split := SplitStep(outer.ba, outp, outq, j);
        outp, outq, e, stack := split.outp, split.outq, e', stack';
      }
      return Ok(true), e, stack, newPath;
    }

    /** One meeting of the walk of `pair`, into the states `x` and `y`, as `DepMeet` describes
        it. */
    method Meet(pair: Pair, newPath: set<Pair>, x: State, y: State, ghost root: map<State, State>,
                e: set<Pair>, stack: seq<EquivRecord>)
      returns (res: Result<bool>, e': set<Pair>, stack': seq<EquivRecord>, pth': set<Pair>)
      requires outer.Valid() && equivClasses.Valid() && equivClasses.Root == root && CtxOK(Context(root))
      requires deps.Valid()
      modifies outer, equivClasses, deps
      ensures equivClasses.Valid() && equivClasses.Root == root && deps.Valid()
      ensures equivClasses.parentMap.Keys == old(equivClasses.parentMap.Keys)
      ensures DRun(res, DState(outer.neq, e', deps.pairLookup, stack'), pth')
                == DepMeet(Context(root), pair, newPath, x, y, DState(old(outer.neq), e, old(deps.pairLookup), stack), false)
    {
      var classes := FindNextClasses(equivClasses, x, y);
      if classes.Err? {
        return Err(IllegalArgument), e, stack, newPath;
      }
      var pNextClass, qNextClass := classes.value.fst, classes.value.snd;
      assert pNextClass in root.Values && qNextClass in root.Values;
      var nextPair := Normalize(outer.distanceToFinalMap, pNextClass, qNextClass);
      if pNextClass != qNextClass && nextPair !in e {
        var known := outer.IsKnownNotEqual(pNextClass, qNextClass);
        if known {
          return Ok(false), e, stack, newPath + {nextPair};
        }
        deps.AddDependency(pair, nextPair);
        if nextPair !in newPath {
          return Ok(true), e + {nextPair}, stack + [EquivRecord(pNextClass, qNextClass, newPath)], newPath;
        }
      } else if nextPair in e {
        deps.AddDependency(pair, nextPair);
      }
      return Ok(true), e, stack, newPath;
    }
  }

  /** makeEquivTest of IncrWithDependencyChecks: a test over the current classes with empty pair
      sets and an empty dependency graph. */
  method MakeDependencyTest(outer: IncrementalMinimization, equivClasses: DisjointSets)
    returns (t: EquivTestDependency)
    requires outer.Valid()
    ensures fresh(t) && t.outer == outer && t.equivClasses == equivClasses
    ensures t.equiv == {} && t.path == {} && fresh(t.deps) && t.deps.Valid() && t.deps.pairLookup == map[]
  {
    var equiv := NewPairSet(outer.numPairs);
    var path := NewPairSet(outer.numPairs);
    t := new EquivTestDependency(outer, equivClasses, equiv.value, path.value);
  }

  // ---------------------------------------------------------------------------------------------
  // The recording as written.
  // ---------------------------------------------------------------------------------------------

  /** The successor of state `x` of the witness on the symbol `c` (the state on 0, then on 1):
      0 goes to 0 and 4, 1 to 0 and 0, 2 to 1 and 0, 3 to 1 and 5, 4 to 2 and 6, 5 to 3 and 7,
      6 to 4 and 8, 7 to 5 and 5, 8 to 6 and 6. */
  function CheckNext(x: State, c: Sym): (r: State)
    ensures 0 <= r < 9
  {
    if x == 0 then (if c == 0 then 0 else 4)
    else if x == 1 then 0
    else if x == 2 then (if c == 0 then 1 else 0)
    else if x == 3 then (if c == 0 then 1 else 5)
    else if x == 4 then (if c == 0 then 2 else 6)
    else if x == 5 then (if c == 0 then 3 else 7)
    else if x == 6 then (if c == 0 then 4 else 8)
    else if x == 7 then 5
    else 6
  }

  /** The distance of each state of the witness to its final state 0. */
  function CheckDistance(x: State): nat
  {
    if x == 0 then 0 else if x <= 2 then 1 else if x <= 4 then 2 else if x <= 6 then 3 else 4
  }

  /** The automaton over the symbols 0 and 1 with the table `CheckNext`, started in 3, with the
      final state 0; every state is reachable from 3. */
  function CheckWitness(): Automaton
  {
    TableAutomaton(CheckNext, 9, 3, {0})
  }

  /** The test on the witness over {0, 1}, with its distances and every state alone. */
  ghost predicate CheckCtx(c: Ctx)
  {
    && c.ba == Algebra({0, 1}) && Tabled(c.a, CheckNext, 9, 3, {0})
    && c.dist == DistanceMap(9, CheckDistance) && c.root == Alone(9)
  }

  /** The context of the witness is one the test is proved in. */
  lemma CheckProper(c: Ctx)
    requires CheckCtx(c)
    ensures Proper(c)
  {
    TableValid(c.a, CheckNext, 9, 3, {0});
    forall x | 0 <= x < 9 ensures DistanceAt(CheckNext, 9, {0}, CheckDistance, x) {
    }
    TableDistances(c.a, CheckNext, 9, 3, {0}, CheckDistance);
    assert c.root == map x | x in c.a.states :: x;
    Singletons(c.a, c.root);
  }

  lemma CheckWitnessCtx()
    ensures CheckCtx(Ctx(Algebra({0, 1}), CheckWitness(), DistanceMap(9, CheckDistance), Alone(9)))
  {
    TableTabled(CheckNext, 9, 3, {0});
  }

  /** The pairs told apart by the last `k + 1` symbols of 000: 0 and 1 by the empty word, 1
      and 2 by 0, 3 and 4 by 00, and 5 and 6 by 000. */
  function ApartBy(k: nat): Pair
  {
    if k == 0 then Pair(0, 1) else if k == 1 then Pair(1, 2) else if k == 2 then Pair(3, 4) else Pair(5, 6)
  }

  lemma {:induction false} CheckApart(a: Automaton, k: nat)
    requires Tabled(a, CheckNext, 9, 3, {0}) && k <= 3
    ensures !Equivalent(a, ApartBy(k).fst, ApartBy(k).snd)
  {
    if k == 0 {
      assert Accepts(a, 0, []) && !Accepts(a, 1, []);
    } else {
      CheckApart(a, k - 1);
      TableSeparates(a, CheckNext, 9, 3, {0}, ApartBy(k).fst, ApartBy(k).snd, 0);
    }
  }

  /** A state of the witness alone in its class, with its distance and its two moves. */
  ghost predicate CheckState(c: Ctx, x: State)
  {
    && x in c.root && c.root[x] == x && x in c.dist && c.dist[x] == CheckDistance(x)
    && MovesFrom(c.a.moves, x) == StateMoves(CheckNext, x)
  }

  /** What the test of the witness reads, state by state. */
  ghost predicate CheckFacts(c: Ctx)
  {
    && CtxOK(c) && c.ba == Algebra({0, 1})
    && CheckState(c, 0) && CheckState(c, 1) && CheckState(c, 2) && CheckState(c, 3) && CheckState(c, 4)
    && CheckState(c, 5) && CheckState(c, 6) && CheckState(c, 7) && CheckState(c, 8)
  }

  lemma {:induction false} CheckCtxFacts(c: Ctx)
    requires CheckCtx(c)
    ensures CheckFacts(c)
  {
    forall x | 0 <= x < 9 ensures CheckState(c, x) {
      assert MovesFrom(c.a.moves, x) == StateMoves(CheckNext, x);
    }
  }

  /** Two states of the witness are normalised by distance, then by identifier. */
  lemma CheckNormalize(c: Ctx, p: State, q: State)
    requires CheckState(c, p) && CheckState(c, q) && 0 <= p < 9 && 0 <= q < 9
    requires CheckDistance(p) < CheckDistance(q) || (CheckDistance(p) == CheckDistance(q) && p < q)
    ensures Normalize(c.dist, p, q) == Pair(p, q)
  {
    CompareDoesNotWrap(c.dist, p, q);
  }

  /** The walk over the moves of two states of a two-symbol table: the meeting on 0, then, if it
      goes through, the meeting on 1. */
  lemma {:induction false} TwoWalk(c: Ctx, next: Table, pair: Pair, newPath: set<Pair>, x: State, y: State,
                                   st: DState, asWritten: bool)
    requires CtxOK(c) && c.ba == Algebra({0, 1})
    ensures var m0 := DepMeet(c, pair, newPath, next(x, 0), next(y, 0), st, asWritten);
            var m1 := DepMeet(c, pair, newPath, next(x, 1), next(y, 1), m0.st, asWritten);
            DepWalk(c, pair, newPath, StateMoves(next, x), StateMoves(next, y), st, asWritten)
              == if m0.answer != Ok(true) then m0
                 else if m1.answer != Ok(true) then m1
                 else DRun(Ok(true), m1.st, newPath)
  {
    var outp, outq := StateMoves(next, x), StateMoves(next, y);
    assert 0 in MkAnd(outp[0].guard, outq[0].guard);
    DepWalkUnfold(c, pair, newPath, outp, outq, st, 0, asWritten);
    var s := SplitStep(c.ba, outp, outq, 0);
    assert s.outp == [outp[1]] && s.outq == [outq[1]] by {
      assert Residual(c.ba, outp[0], outq[0].guard) == [];
      assert Residual(c.ba, outq[0], outp[0].guard) == [];
    }
    var m0 := DepMeet(c, pair, newPath, next(x, 0), next(y, 0), st, asWritten);
    if m0.answer == Ok(true) {
      assert 1 in MkAnd(s.outp[0].guard, s.outq[0].guard);
      DepWalkUnfold(c, pair, newPath, s.outp, s.outq, m0.st, 0, asWritten);
      var s2 := SplitStep(c.ba, s.outp, s.outq, 0);
      assert s2.outp == [] && s2.outq == [] by {
        assert Residual(c.ba, s.outp[0], s.outq[0].guard) == [];
        assert Residual(c.ba, s.outq[0], s.outp[0].guard) == [];
      }
    }
  }

  /** One round of the outer loop: the top record `rec` is popped, leaving `rest`, and the moves
      of its states are walked with its pair on its path; a walk that goes through leaves the
      loop to go on from where it ends. */
  lemma PopUnfold(c: Ctx, st: DState, path: set<Pair>, asWritten: bool, rec: EquivRecord, pair: Pair,
                  newPath: set<Pair>, outp: seq<Move>, outq: seq<Move>, rest: DState, w: DRun)
    requires CtxOK(c) && StackIn(c.dist, st.stack) && st.stack != [] && rec == st.stack[|st.stack| - 1]
    requires rec.pState in c.dist && rec.qState in c.dist && pair == RecordPair(c.dist, rec)
    requires newPath == rec.curPath + {pair} && rest == st.(stack := st.stack[..|st.stack| - 1])
    requires outp == MovesFrom(c.a.moves, rec.pState) && outq == MovesFrom(c.a.moves, rec.qState)
    requires w == DepWalk(c, pair, newPath, outp, outq, rest, asWritten)
    ensures w.answer == Ok(true) ==> StackIn(c.dist, w.st.stack) && DepStack(c, st, path, asWritten) == DepStack(c, w.st, path, asWritten)
    ensures w.answer != Ok(true) ==> DepStack(c, st, path, asWritten) == w
  {
    StackPop(c.dist, st.stack);
  }

  /** A meeting of two distinct classes at one distance, neither assumed nor known inequivalent
      nor on the path, pushes their record and records the dependency. */
  lemma MeetPushes(c: Ctx, pair: Pair, newPath: set<Pair>, x: State, y: State, st: DState, asWritten: bool, next: Pair)
    requires CheckState(c, x) && CheckState(c, y) && CtxOK(c) && x != y && c.dist[x] == c.dist[y]
    requires next == Normalize(c.dist, x, y) && next !in st.equiv && next !in st.neq && next !in newPath
    ensures DepMeet(c, pair, newPath, x, y, st, asWritten)
              == DRun(Ok(true), DState(st.neq, st.equiv + {next}, Recorded(st.graph, pair, next),
                                       st.stack + [EquivRecord(x, y, newPath)]), newPath)
  {
  }

  /** A meeting of two distinct classes whose pair is on the path and not assumed records
      nothing as written. */
  lemma MeetOnPath(c: Ctx, pair: Pair, newPath: set<Pair>, x: State, y: State, st: DState, next: Pair)
    requires CheckState(c, x) && CheckState(c, y) && CtxOK(c) && x != y && c.dist[x] == c.dist[y]
    requires next == Normalize(c.dist, x, y) && next !in st.equiv && next !in st.neq && next in newPath
    ensures DepMeet(c, pair, newPath, x, y, st, true) == DRun(Ok(true), st, newPath)
  {
  }

  /** A meeting of two distinct classes whose pair is assumed records the dependency. */
  lemma MeetAssumed(c: Ctx, pair: Pair, newPath: set<Pair>, x: State, y: State, st: DState, asWritten: bool, next: Pair)
    requires CheckState(c, x) && CheckState(c, y) && CtxOK(c)
    requires next == Normalize(c.dist, x, y) && next in st.equiv
    ensures DepMeet(c, pair, newPath, x, y, st, asWritten)
              == DRun(Ok(true), st.(graph := Recorded(st.graph, pair, next)), newPath)
  {
  }

  /** A meeting of two classes at different distances fails, adding their pair to the cache and
      to the path. */
  lemma MeetApart(c: Ctx, pair: Pair, newPath: set<Pair>, x: State, y: State, st: DState, asWritten: bool, next: Pair)
    requires CheckState(c, x) && CheckState(c, y) && CtxOK(c) && c.dist[x] != c.dist[y]
    requires next == Normalize(c.dist, x, y) && next !in st.equiv
    ensures DepMeet(c, pair, newPath, x, y, st, asWritten)
              == DRun(Ok(false), st.(neq := st.neq + {next}), newPath + {next})
  {
  }

  /** The graph the test of 3 and 4 leaves on the witness, over the graph `g0` it starts from:
      3 and 4 depend on 1 and 2 and on 5 and 6, 5 and 6 on 7 and 8, and 7 and 8, twice, on 5
      and 6; 1 and 2 were never tested. */
  ghost function CheckGraph(g0: Lookup): Lookup
  {
    var g2 := Recorded(Recorded(g0, Pair(3, 4), Pair(1, 2)), Pair(3, 4), Pair(5, 6));
    Recorded(Recorded(Recorded(g2, Pair(5, 6), Pair(7, 8)), Pair(7, 8), Pair(5, 6)), Pair(7, 8), Pair(5, 6))
  }

  /** The walk of 3 and 4 (passed as `x` and `y`): its meetings push 1 and 2 and then 5 and 6. */
  lemma {:induction false} CheckWalk34(c: Ctx, x: State, y: State, pair: Pair, newPath: set<Pair>, st: DState)
    requires CtxOK(c) && c.ba == Algebra({0, 1})
    requires CheckState(c, 1) && CheckState(c, 2) && CheckState(c, 3) && CheckState(c, 4) && CheckState(c, 5) && CheckState(c, 6) && x == 3 && y == 4
    requires Pair(1, 2) !in st.equiv && Pair(1, 2) !in st.neq && Pair(1, 2) !in newPath
    requires Pair(5, 6) !in st.equiv && Pair(5, 6) !in st.neq && Pair(5, 6) !in newPath
    ensures DepWalk(c, pair, newPath, StateMoves(CheckNext, x), StateMoves(CheckNext, y), st, true)
              == DRun(Ok(true), DState(st.neq, st.equiv + {Pair(1, 2)} + {Pair(5, 6)},
                                       Recorded(Recorded(st.graph, pair, Pair(1, 2)), pair, Pair(5, 6)),
                                       st.stack + [EquivRecord(1, 2, newPath)] + [EquivRecord(5, 6, newPath)]), newPath)
  {
    CheckNormalize(c, 1, 2);
    CheckNormalize(c, 5, 6);
    TwoWalk(c, CheckNext, pair, newPath, x, y, st, true);
    MeetPushes(c, pair, newPath, 1, 2, st, true, Pair(1, 2));
    var m0 := DepMeet(c, pair, newPath, 1, 2, st, true);
    MeetPushes(c, pair, newPath, 5, 6, m0.st, true, Pair(5, 6));
  }

  /** A round that pops 3 and 4, recorded over the path `p0`: 1 and 2 and then 5 and 6 are
      assumed, pushed and recorded as dependencies. */
  lemma {:induction false} CheckPop34(c: Ctx, st: DState, path: set<Pair>, below: seq<EquivRecord>, p0: set<Pair>) returns (st': DState)
    requires CtxOK(c) && c.ba == Algebra({0, 1})
    requires CheckState(c, 1) && CheckState(c, 2) && CheckState(c, 3) && CheckState(c, 4) && CheckState(c, 5) && CheckState(c, 6)
    requires StackIn(c.dist, st.stack) && st.stack == below + [EquivRecord(3, 4, p0)]
    requires Pair(1, 2) !in st.equiv && Pair(1, 2) !in st.neq && Pair(1, 2) !in p0
    requires Pair(5, 6) !in st.equiv && Pair(5, 6) !in st.neq && Pair(5, 6) !in p0
    ensures var newPath := p0 + {Pair(3, 4)};
            st' == DState(st.neq, st.equiv + {Pair(1, 2)} + {Pair(5, 6)},
                          Recorded(Recorded(st.graph, Pair(3, 4), Pair(1, 2)), Pair(3, 4), Pair(5, 6)),
                          below + [EquivRecord(1, 2, newPath)] + [EquivRecord(5, 6, newPath)])
            && StackIn(c.dist, st'.stack) && DepStack(c, st, path, true) == DepStack(c, st', path, true)
  {
    var n, newPath := Pair(3, 4), p0 + {Pair(3, 4)};
    CheckNormalize(c, 3, 4);
    assert st.stack[..|st.stack| - 1] == below;
    var rest := st.(stack := below);
    CheckWalk34(c, 3, 4, n, newPath, rest);
    var w := DepWalk(c, n, newPath, StateMoves(CheckNext, 3), StateMoves(CheckNext, 4), rest, true);
    PopUnfold(c, st, path, true, st.stack[|st.stack| - 1], n, newPath, StateMoves(CheckNext, 3), StateMoves(CheckNext, 4), rest, w);
    st' := w.st;
  }

  /** The walk of 5 and 6 (passed as `x` and `y`): the meeting on 0 reaches 3 and 4 on the path
      and records nothing, the meeting on 1 pushes 7 and 8. */
  lemma {:induction false} CheckWalk56(c: Ctx, x: State, y: State, pair: Pair, newPath: set<Pair>, st: DState)
    requires CtxOK(c) && c.ba == Algebra({0, 1})
    requires CheckState(c, 3) && CheckState(c, 4) && CheckState(c, 7) && CheckState(c, 8) && x == 5 && y == 6
    requires Pair(3, 4) !in st.equiv && Pair(3, 4) !in st.neq && Pair(3, 4) in newPath
    requires Pair(7, 8) !in st.equiv && Pair(7, 8) !in st.neq && Pair(7, 8) !in newPath
    ensures DepWalk(c, pair, newPath, StateMoves(CheckNext, x), StateMoves(CheckNext, y), st, true)
              == DRun(Ok(true), DState(st.neq, st.equiv + {Pair(7, 8)}, Recorded(st.graph, pair, Pair(7, 8)),
                                       st.stack + [EquivRecord(7, 8, newPath)]), newPath)
  {
    CheckNormalize(c, 3, 4);
    CheckNormalize(c, 7, 8);
    TwoWalk(c, CheckNext, pair, newPath, x, y, st, true);
    MeetOnPath(c, pair, newPath, 3, 4, st, Pair(3, 4));
    MeetPushes(c, pair, newPath, 7, 8, st, true, Pair(7, 8));
  }

  /** A round that pops 5 and 6, recorded over a path `p0` holding 3 and 4, which are not
      assumed: 7 and 8 are assumed, pushed and recorded, and 3 and 4 are not recorded. */
  lemma {:induction false} CheckPop56(c: Ctx, st: DState, path: set<Pair>, below: seq<EquivRecord>, p0: set<Pair>) returns (st': DState)
    requires CtxOK(c) && c.ba == Algebra({0, 1})
    requires CheckState(c, 1) && CheckState(c, 2) && CheckState(c, 3) && CheckState(c, 4) && CheckState(c, 5) && CheckState(c, 6) && CheckState(c, 7) && CheckState(c, 8)
    requires StackIn(c.dist, st.stack) && st.stack == below + [EquivRecord(5, 6, p0)]
    requires Pair(3, 4) !in st.equiv && Pair(3, 4) !in st.neq && Pair(3, 4) in p0
    requires Pair(7, 8) !in st.equiv && Pair(7, 8) !in st.neq && Pair(7, 8) !in p0
    ensures var newPath := p0 + {Pair(5, 6)};
            st' == DState(st.neq, st.equiv + {Pair(7, 8)}, Recorded(st.graph, Pair(5, 6), Pair(7, 8)),
                          below + [EquivRecord(7, 8, newPath)])
            && StackIn(c.dist, st'.stack) && DepStack(c, st, path, true) == DepStack(c, st', path, true)
  {
    var n, newPath := Pair(5, 6), p0 + {Pair(5, 6)};
    CheckNormalize(c, 5, 6);
    assert st.stack[..|st.stack| - 1] == below;
    var rest := st.(stack := below);
    CheckWalk56(c, 5, 6, n, newPath, rest);
    var w := DepWalk(c, n, newPath, StateMoves(CheckNext, 5), StateMoves(CheckNext, 6), rest, true);
    PopUnfold(c, st, path, true, st.stack[|st.stack| - 1], n, newPath, StateMoves(CheckNext, 5), StateMoves(CheckNext, 6), rest, w);
    st' := w.st;
  }

  /** The walk of 7 and 8 (passed as `x` and `y`): both meetings reach the assumed 5 and 6 and
      record that dependency. */
  lemma {:induction false} CheckWalk78(c: Ctx, x: State, y: State, pair: Pair, newPath: set<Pair>, st: DState)
    requires CtxOK(c) && c.ba == Algebra({0, 1})
    requires CheckState(c, 5) && CheckState(c, 6) && x == 7 && y == 8 && Pair(5, 6) in st.equiv
    ensures DepWalk(c, pair, newPath, StateMoves(CheckNext, x), StateMoves(CheckNext, y), st, true)
              == DRun(Ok(true), st.(graph := Recorded(Recorded(st.graph, pair, Pair(5, 6)), pair, Pair(5, 6))), newPath)
  {
    CheckNormalize(c, 5, 6);
    TwoWalk(c, CheckNext, pair, newPath, x, y, st, true);
    MeetAssumed(c, pair, newPath, 5, 6, st, true, Pair(5, 6));
    var m0 := DepMeet(c, pair, newPath, 5, 6, st, true);
    MeetAssumed(c, pair, newPath, 5, 6, m0.st, true, Pair(5, 6));
  }

  /** A round that pops 7 and 8 with 5 and 6 assumed: both meetings record 5 and 6. */
  lemma {:induction false} CheckPop78(c: Ctx, st: DState, path: set<Pair>, below: seq<EquivRecord>, p0: set<Pair>) returns (st': DState)
    requires CtxOK(c) && c.ba == Algebra({0, 1})
    requires CheckState(c, 1) && CheckState(c, 2) && CheckState(c, 5) && CheckState(c, 6) && CheckState(c, 7) && CheckState(c, 8)
    requires StackIn(c.dist, st.stack) && st.stack == below + [EquivRecord(7, 8, p0)]
    requires Pair(5, 6) in st.equiv
    ensures st' == DState(st.neq, st.equiv, Recorded(Recorded(st.graph, Pair(7, 8), Pair(5, 6)), Pair(7, 8), Pair(5, 6)),
                          below)
    ensures StackIn(c.dist, st'.stack) && DepStack(c, st, path, true) == DepStack(c, st', path, true)
  {
    var n, newPath := Pair(7, 8), p0 + {Pair(7, 8)};
    CheckNormalize(c, 7, 8);
    assert st.stack[..|st.stack| - 1] == below;
    var rest := st.(stack := below);
    CheckWalk78(c, 7, 8, n, newPath, rest);
    var w := DepWalk(c, n, newPath, StateMoves(CheckNext, 7), StateMoves(CheckNext, 8), rest, true);
    PopUnfold(c, st, path, true, st.stack[|st.stack| - 1], n, newPath, StateMoves(CheckNext, 7), StateMoves(CheckNext, 8), rest, w);
    st' := w.st;
  }

  /** The walk of 1 and 2 (passed as `x` and `y`): the meeting on 0 reaches 0 and 1, at distinct
      distances, and fails with 0 and 1 cached and on the path. */
  lemma {:induction false} CheckWalk12(c: Ctx, x: State, y: State, pair: Pair, newPath: set<Pair>, st: DState)
    requires CtxOK(c) && c.ba == Algebra({0, 1})
    requires CheckState(c, 0) && CheckState(c, 1) && x == 1 && y == 2 && Pair(0, 1) !in st.equiv
    ensures DepWalk(c, pair, newPath, StateMoves(CheckNext, x), StateMoves(CheckNext, y), st, true)
              == DRun(Ok(false), st.(neq := st.neq + {Pair(0, 1)}), newPath + {Pair(0, 1)})
  {
    CheckNormalize(c, 0, 1);
    TwoWalk(c, CheckNext, pair, newPath, x, y, st, true);
    MeetApart(c, pair, newPath, 0, 1, st, true, Pair(0, 1));
  }

  /** A round that pops 1 and 2: the meeting of 0 and 1 ends the test, which fails. */
  lemma {:induction false} CheckPop12(c: Ctx, st: DState, path: set<Pair>, below: seq<EquivRecord>, p0: set<Pair>)
    requires CtxOK(c) && c.ba == Algebra({0, 1})
    requires CheckState(c, 0) && CheckState(c, 1) && CheckState(c, 2)
    requires StackIn(c.dist, st.stack) && st.stack == below + [EquivRecord(1, 2, p0)]
    requires Pair(0, 1) !in st.equiv
    ensures DepStack(c, st, path, true)
              == DRun(Ok(false), DState(st.neq + {Pair(0, 1)}, st.equiv, st.graph, below),
                      p0 + {Pair(1, 2)} + {Pair(0, 1)})
  {
    var n, newPath := Pair(1, 2), p0 + {Pair(1, 2)};
    CheckNormalize(c, 1, 2);
    assert st.stack[..|st.stack| - 1] == below;
    var rest := st.(stack := below);
    CheckWalk12(c, 1, 2, n, newPath, rest);
    var w := DepWalk(c, n, newPath, StateMoves(CheckNext, 1), StateMoves(CheckNext, 2), rest, true);
    PopUnfold(c, st, path, true, st.stack[|st.stack| - 1], n, newPath, StateMoves(CheckNext, 1), StateMoves(CheckNext, 2), rest, w);
  }

  /** The test of 3 and 4 on the witness, as written, from any graph `g0`: it assumes 1 and 2,
      5 and 6, and 7 and 8, and fails at 0 and 1, leaving `CheckGraph(g0)` and the path 3 and
      4, 1 and 2, 0 and 1. */
  /** The last round: 1 and 2 are popped over the path `path1` and the test fails. */
  lemma {:induction false} CheckFrom12(c: Ctx, g: Lookup, path1: set<Pair>)
    requires CtxOK(c) && c.ba == Algebra({0, 1})
    requires CheckState(c, 0) && CheckState(c, 1) && CheckState(c, 2)
    ensures var st := DState({}, {} + {Pair(1, 2)} + {Pair(5, 6)} + {Pair(7, 8)}, g, [] + [EquivRecord(1, 2, path1)]);
            DepStack(c, st, {}, true)
              == DRun(Ok(false), DState({} + {Pair(0, 1)}, st.equiv, g, []), path1 + {Pair(1, 2)} + {Pair(0, 1)})
  {
    var st := DState({}, {} + {Pair(1, 2)} + {Pair(5, 6)} + {Pair(7, 8)}, g, [] + [EquivRecord(1, 2, path1)]);
    assert Pair(0, 1) !in st.equiv;
    CheckPop12(c, st, {}, [], path1);
  }

  /** The last two rounds: 7 and 8 are popped, then 1 and 2, and the test fails. */
  lemma {:induction false} CheckFrom78(c: Ctx, g: Lookup, path1: set<Pair>, path2: set<Pair>)
    requires CtxOK(c) && c.ba == Algebra({0, 1})
    requires CheckState(c, 0) && CheckState(c, 1) && CheckState(c, 2) && CheckState(c, 5) && CheckState(c, 6) && CheckState(c, 7) && CheckState(c, 8)
    ensures var st := DState({}, {} + {Pair(1, 2)} + {Pair(5, 6)} + {Pair(7, 8)}, g,
                             [] + [EquivRecord(1, 2, path1)] + [EquivRecord(7, 8, path2)]);
            DepStack(c, st, {}, true)
              == DRun(Ok(false), DState({} + {Pair(0, 1)}, st.equiv,
                                        Recorded(Recorded(g, Pair(7, 8), Pair(5, 6)), Pair(7, 8), Pair(5, 6)), []),
                      path1 + {Pair(1, 2)} + {Pair(0, 1)})
  {
    var below: seq<EquivRecord> := [] + [EquivRecord(1, 2, path1)];
    var st := DState({}, {} + {Pair(1, 2)} + {Pair(5, 6)} + {Pair(7, 8)}, g, below + [EquivRecord(7, 8, path2)]);
    assert Pair(5, 6) in st.equiv;
    var st4 := CheckPop78(c, st, {}, below, path2);
    CheckFrom12(c, st4.graph, path1);
  }

  /** The rounds after the first: 5 and 6 are popped, then 7 and 8, then 1 and 2. */
  lemma {:induction false} CheckFrom56(c: Ctx, g: Lookup, path1: set<Pair>)
    requires CtxOK(c) && c.ba == Algebra({0, 1})
    requires CheckState(c, 0) && CheckState(c, 1) && CheckState(c, 2) && CheckState(c, 3) && CheckState(c, 4)
    requires CheckState(c, 5) && CheckState(c, 6) && CheckState(c, 7) && CheckState(c, 8)
    requires path1 == {} + {Pair(3, 4)}
    ensures var st := DState({}, {} + {Pair(1, 2)} + {Pair(5, 6)}, g,
                             [] + [EquivRecord(1, 2, path1)] + [EquivRecord(5, 6, path1)]);
            var g3 := Recorded(g, Pair(5, 6), Pair(7, 8));
            DepStack(c, st, {}, true)
              == DRun(Ok(false), DState({} + {Pair(0, 1)}, st.equiv + {Pair(7, 8)},
                                        Recorded(Recorded(g3, Pair(7, 8), Pair(5, 6)), Pair(7, 8), Pair(5, 6)), []),
                      path1 + {Pair(1, 2)} + {Pair(0, 1)})
  {
    var below: seq<EquivRecord> := [] + [EquivRecord(1, 2, path1)];
    var st := DState({}, {} + {Pair(1, 2)} + {Pair(5, 6)}, g, below + [EquivRecord(5, 6, path1)]);
    assert StackIn(c.dist, st.stack);
    var st3 := CheckPop56(c, st, {}, below, path1);
    CheckFrom78(c, Recorded(g, Pair(5, 6), Pair(7, 8)), path1, path1 + {Pair(5, 6)});
  }

  /** A test whose pair is neither cached nor at different distances and whose stack rounds
      end in `false` ends as those rounds do. */
  lemma TestFails(c: Ctx, p: State, q: State, neq: set<Pair>, equiv: set<Pair>, path: set<Pair>,
                  g: Lookup, asWritten: bool, pair: Pair, r: DRun)
    requires CtxOK(c) && p in c.dist && q in c.dist && c.dist[p] == c.dist[q]
    requires pair == Normalize(c.dist, p, q) && pair !in neq
    requires r == DepStack(c, DState(neq, equiv, g, [EquivRecord(p, q, path)]), path, asWritten) && r.answer == Ok(false)
    ensures DepTest(c, p, q, neq, equiv, path, g, asWritten) == r
  {
  }

  lemma {:induction false} CheckRun(c: Ctx, g0: Lookup)
    requires CheckFacts(c)
    ensures 3 in c.dist && 4 in c.dist
    ensures var r := DepTest(c, 3, 4, {}, {}, {}, g0, true);
            && r.answer == Ok(false) && r.path == {Pair(3, 4), Pair(1, 2), Pair(0, 1)} && r.st.graph == CheckGraph(g0)
  {
    var none: seq<EquivRecord>, path1: set<Pair> := [], {} + {Pair(3, 4)};
    assert path1 + {Pair(1, 2)} + {Pair(0, 1)} == {Pair(3, 4), Pair(1, 2), Pair(0, 1)};
    CheckNormalize(c, 3, 4);
    var st1 := DState({}, {}, g0, [EquivRecord(3, 4, {})]);
    assert st1.stack == none + [EquivRecord(3, 4, {})];
    var st2 := CheckPop34(c, st1, {}, none, {});
    CheckFrom56(c, st2.graph, path1);
    TestFails(c, 3, 4, {}, {}, {}, g0, true, Pair(3, 4), DepStack(c, st1, {}, true));
  }

  /** In the graph the test leaves, from a graph without nodes for 5 and 6 or 7 and 8, these two
      pairs are tested and depend only on each other. */
  lemma CheckGraphNodes(g0: Lookup)
    requires Pair(5, 6) !in g0 && Pair(7, 8) !in g0
    ensures var g := CheckGraph(g0);
            && Pair(5, 6) in g && g[Pair(5, 6)] == StatePair(true, [Pair(7, 8)])
            && Pair(7, 8) in g && g[Pair(7, 8)] == StatePair(true, [Pair(5, 6), Pair(5, 6)])
  {
    var p34, p56, p78 := Pair(3, 4), Pair(5, 6), Pair(7, 8);
    GraphRound2(g0);
    var g2 := Recorded(Recorded(g0, p34, Pair(1, 2)), p34, p56);
    GraphRound3(g2);
    var g3 := Recorded(g2, p56, p78);
    GraphRound4(g3);
    var g4 := Recorded(g3, p78, p56);
    GraphRound5(g4);
  }

  /** The rounds that record 5 and 6 and 7 and 8, from a graph without them. */
  lemma GraphRound2(g0: Lookup)
    requires Pair(5, 6) !in g0 && Pair(7, 8) !in g0
    ensures var g2 := Recorded(Recorded(g0, Pair(3, 4), Pair(1, 2)), Pair(3, 4), Pair(5, 6));
            Pair(5, 6) in g2 && g2[Pair(5, 6)] == StatePair(false, []) && Pair(7, 8) !in g2
  {
  }

  lemma GraphRound3(g2: Lookup)
    requires Pair(5, 6) in g2 && g2[Pair(5, 6)] == StatePair(false, []) && Pair(7, 8) !in g2
    ensures var g3 := Recorded(g2, Pair(5, 6), Pair(7, 8));
            && Pair(5, 6) in g3 && Pair(7, 8) in g3
            && g3[Pair(5, 6)] == StatePair(true, [Pair(7, 8)]) && g3[Pair(7, 8)] == StatePair(false, [])
  {
  }

  lemma GraphRound4(g3: Lookup)
    requires Pair(5, 6) in g3 && Pair(7, 8) in g3
    requires g3[Pair(5, 6)] == StatePair(true, [Pair(7, 8)]) && g3[Pair(7, 8)] == StatePair(false, [])
    ensures var g4 := Recorded(g3, Pair(7, 8), Pair(5, 6));
            && Pair(5, 6) in g4 && Pair(7, 8) in g4
            && g4[Pair(5, 6)] == StatePair(true, [Pair(7, 8)]) && g4[Pair(7, 8)] == StatePair(true, [Pair(5, 6)])
  {
  }

  lemma GraphRound5(g4: Lookup)
    requires Pair(5, 6) in g4 && Pair(7, 8) in g4
    requires g4[Pair(5, 6)] == StatePair(true, [Pair(7, 8)]) && g4[Pair(7, 8)] == StatePair(true, [Pair(5, 6)])
    ensures var g5 := Recorded(g4, Pair(7, 8), Pair(5, 6));
            && Pair(5, 6) in g5 && Pair(7, 8) in g5
            && g5[Pair(5, 6)] == StatePair(true, [Pair(7, 8)]) && g5[Pair(7, 8)] == StatePair(true, [Pair(5, 6), Pair(5, 6)])
  {
    assert [Pair(5, 6)] + [Pair(5, 6)] == [Pair(5, 6), Pair(5, 6)];
  }

  /** Every dependency in the graph the test leaves is a node. */
  lemma CheckGraphEdges(g0: Lookup)
    requires EdgesInside(g0)
    ensures EdgesInside(CheckGraph(g0))
  {
    var g2 := Recorded(Recorded(g0, Pair(3, 4), Pair(1, 2)), Pair(3, 4), Pair(5, 6));
    assert EdgesInside(g2);
    var g3 := Recorded(g2, Pair(5, 6), Pair(7, 8));
    assert EdgesInside(g3);
  }

  /** Off the failing path, 5 and 6 is a node `mergeStates` merges. */
  lemma CheckGraphMerges(g0: Lookup)
    requires EdgesInside(g0) && Pair(5, 6) !in g0 && Pair(7, 8) !in g0
    ensures EdgesInside(CheckGraph(g0))
    ensures Pair(5, 6) in Mergeable(CheckGraph(g0), {Pair(3, 4), Pair(1, 2), Pair(0, 1)})
  {
    CheckGraphNodes(g0);
    CheckGraphEdges(g0);
    var g, bad := CheckGraph(g0), {Pair(3, 4), Pair(1, 2), Pair(0, 1)};
    var s := {Pair(5, 6), Pair(7, 8)};
    assert GoodFrom(g, bad, s, {});
    ReachedComplete(g, bad, g[Pair(5, 6)].deps, {}, s);
  }

  /** As written, the failed test of 3 and 4 on the witness, from the partition with every state
      alone and a graph without nodes for 5 and 6 or 7 and 8 (the empty graph of a new test),
      leaves a graph whose merge joins 5 and 6, although the word 000 tells them apart. */
  lemma {:induction false} CheckMergeUnsound(c: Ctx, g0: Lookup, root: map<State, State>)
    requires CheckCtx(c) && EdgesInside(g0) && Pair(5, 6) !in g0 && Pair(7, 8) !in g0
    requires JoinOf(c.root, Mergeable(CheckGraph(g0), {Pair(3, 4), Pair(1, 2), Pair(0, 1)}), root)
    ensures Proper(c) && 3 in c.dist && 4 in c.dist
    ensures var r := DepTest(c, 3, 4, {}, {}, {}, g0, true);
            && r.answer == Ok(false) && r.path == {Pair(3, 4), Pair(1, 2), Pair(0, 1)} && r.st.graph == CheckGraph(g0)
    ensures SameClass(root, 5, 6) && !Equivalent(c.a, 5, 6)
  {
    CheckProper(c);
    CheckCtxFacts(c);
    CheckRun(c, g0);
    CheckGraphMerges(g0);
    CheckApart(c.a, 3);
  }
}
