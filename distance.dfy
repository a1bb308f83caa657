/**
 * The distance-to-final map: a reverse breadth-first search from the final states, with
 * `IntMax` marking the states from which no final state is reachable (sink states).
 */
module Distance {
  import opened Base
  import opened Sfa

  /** There is a path of exactly `k` moves from `x` to a final state. */
  ghost predicate PathTo(a: Automaton, x: State, k: nat)
    decreases k
  {
    if k == 0 then x in a.finals
    else exists i :: 0 <= i < |a.moves| && a.moves[i].from == x && PathTo(a, a.moves[i].to, k - 1)
  }

  /** `d` is the length of a shortest path from `x` to a final state, or `IntMax` if there is none. */
  ghost predicate Shortest(a: Automaton, x: State, d: int)
  {
    && 0 <= d <= IntMax
    && (d < IntMax ==> PathTo(a, x, d))
    && (forall k: nat {:trigger PathTo(a, x, k)} :: PathTo(a, x, k) ==> d <= k && d < IntMax)
  }

  /** The map `generateDistanceToFinalMap` promises: one entry per state, each the BFS distance. */
  ghost predicate IsDistanceMap(a: Automaton, dist: map<State, int>)
  {
    && dist.Keys == a.states
    && forall x :: x in dist ==> Shortest(a, x, dist[x])
  }

  /** An entry of the BFS queue. */
  datatype StateInfo = StateInfo(stateID: State, distanceToFinal: int)

  function Ids(queue: seq<StateInfo>): set<State>
  {
    set i | 0 <= i < |queue| :: queue[i].stateID
  }

  lemma PathStep(a: Automaton, m: Move, k: nat)
    requires m in a.moves && PathTo(a, m.to, k)
    ensures PathTo(a, m.from, k + 1)
  {
    var i :| 0 <= i < |a.moves| && a.moves[i] == m;
  }

  // ---------------------------------------------------------------------------------------------
  // The invariant of the search loop: `visited` holds `dv` (the distance each state was given
  // when first seen), `dm` the states already dequeued, `queue` the others in distance order.
  // ---------------------------------------------------------------------------------------------

  ghost predicate QueueFaithful(visited: set<State>, queue: seq<StateInfo>, dm: map<State, int>, dv: map<State, int>)
  {
    && dv.Keys == visited
    && dm.Keys <= visited
    && (forall x :: x in dm ==> dm[x] == dv[x])
    && (forall i :: 0 <= i < |queue| ==>
          queue[i].stateID in visited && queue[i].stateID !in dm
          && queue[i].distanceToFinal == dv[queue[i].stateID])
    && (forall i, j :: 0 <= i < j < |queue| ==> queue[i].stateID != queue[j].stateID)
    && (forall x :: x in visited ==> x in dm || x in Ids(queue))
  }

  ghost predicate QueueSorted(queue: seq<StateInfo>)
  {
    forall i, j :: 0 <= i < j < |queue| ==>
      queue[i].distanceToFinal <= queue[j].distanceToFinal <= queue[i].distanceToFinal + 1
  }

  /** Every visited state carries its shortest distance, which is below the number visited. */
  ghost predicate DistancesShortest(a: Automaton, visited: set<State>, dv: map<State, int>)
    requires dv.Keys == visited
  {
    forall x :: x in visited ==>
      && 0 <= dv[x] < |visited|
      && PathTo(a, x, dv[x])
      && (forall k: nat {:trigger PathTo(a, x, k)} :: PathTo(a, x, k) ==> dv[x] <= k)
  }

  /** Every predecessor of a dequeued state has been seen. */
  ghost predicate PredecessorsSeen(a: Automaton, visited: set<State>, dm: map<State, int>)
  {
    forall m :: m in a.moves && m.to in dm ==> m.from in visited
  }

  /** Every state with a path shorter than the head of the queue has been dequeued. */
  ghost predicate ShorterDequeued(a: Automaton, queue: seq<StateInfo>, dm: map<State, int>)
  {
    queue != [] ==>
      forall v, k: nat {:trigger PathTo(a, v, k)} :: PathTo(a, v, k) && k < queue[0].distanceToFinal ==> v in dm
  }

  ghost predicate BfsInv(a: Automaton, visited: set<State>, queue: seq<StateInfo>, dm: map<State, int>, dv: map<State, int>)
  {
    && visited <= a.states
    && a.finals <= visited
    && QueueFaithful(visited, queue, dm, dv)
    && QueueSorted(queue)
    && DistancesShortest(a, visited, dv)
    && PredecessorsSeen(a, visited, dm)
    && ShorterDequeued(a, queue, dm)
  }

  lemma IdsAppend(queue: seq<StateInfo>, e: StateInfo)
    ensures Ids(queue + [e]) == Ids(queue) + {e.stateID}
  {
    var q := queue + [e];
    forall x | x in Ids(queue) ensures x in Ids(q) {
      var i :| 0 <= i < |queue| && queue[i].stateID == x;
      assert q[i] == queue[i];
    }
    assert q[|queue|] == e;
  }

  /** What visiting the predecessors of a dequeued state does: every source of a move in `ms`
      is seen, and the unseen ones, `added`, are appended to the queue with distance `nd`. */
  ghost predicate Visited(ms: seq<Move>, nd: int, visited: set<State>, dv: map<State, int>,
                          added: seq<StateInfo>, visited': set<State>, dv': map<State, int>)
  {
    && dv.Keys == visited && visited <= visited' && dv'.Keys == visited'
    && (forall x :: x in visited ==> dv'[x] == dv[x])
    && (forall x :: x in visited' && x !in visited ==> dv'[x] == nd && exists m :: m in ms && m.from == x)
    && (forall i :: 0 <= i < |added| ==>
          added[i].stateID in visited' && added[i].stateID !in visited && added[i].distanceToFinal == nd)
    && (forall i, j :: 0 <= i < j < |added| ==> added[i].stateID != added[j].stateID)
    && (forall x :: x in visited' && x !in visited ==> x in Ids(added))
    && (forall m :: m in ms ==> m.from in visited')
    && (visited' == visited ==> added == [])
  }

  /** The inner loop over `getInputMovesTo(s)`. */
  method VisitPredecessors(ms: seq<Move>, nd: int, visited: set<State>, queue: seq<StateInfo>, ghost dv: map<State, int>)
    returns (visited': set<State>, queue': seq<StateInfo>, ghost dv': map<State, int>)
    requires dv.Keys == visited
    ensures |queue| <= |queue'| && queue' == queue + queue'[|queue|..]
    ensures Visited(ms, nd, visited, dv, queue'[|queue|..], visited', dv')
  {
    visited', queue', dv' := visited, queue, dv;
    ghost var added: seq<StateInfo> := [];
    for n := 0 to |ms|
      invariant queue' == queue + added
      invariant visited <= visited' && dv'.Keys == visited'
      invariant forall x :: x in visited ==> dv'[x] == dv[x]
      invariant forall x :: x in visited' && x !in visited ==> dv'[x] == nd && exists m :: m in ms[..n] && m.from == x
      invariant forall i :: 0 <= i < |added| ==>
          added[i].stateID in visited' && added[i].stateID !in visited && added[i].distanceToFinal == nd
      invariant forall i, j :: 0 <= i < j < |added| ==> added[i].stateID != added[j].stateID
      invariant forall x :: x in visited' && x !in visited ==> x in Ids(added)
      invariant forall m :: m in ms[..n] ==> m.from in visited'
      invariant visited' == visited ==> added == []
    {
      var nextState := ms[n].from;
      assert ms[..n + 1] == ms[..n] + [ms[n]];
      if nextState !in visited' {
        IdsAppend(added, StateInfo(nextState, nd));
        added := added + [StateInfo(nextState, nd)];
        queue' := queue' + [StateInfo(nextState, nd)];
        visited' := visited' + {nextState};
        dv' := dv'[nextState := nd];
      }
    }
    assert ms[..|ms|] == ms;
    assert queue'[|queue|..] == added;
  }

  /** A state not seen yet has no path shorter than the head of the queue. */
  lemma NoShortPath(a: Automaton, visited: set<State>, queue: seq<StateInfo>, dm: map<State, int>, u: State, k: nat)
    requires a.finals <= visited && dm.Keys <= visited
    requires PredecessorsSeen(a, visited, dm) && ShorterDequeued(a, queue, dm) && queue != []
    requires u !in visited && PathTo(a, u, k)
    ensures k > queue[0].distanceToFinal
  {
  }

  lemma StepFaithful(visited: set<State>, queue: seq<StateInfo>, dm: map<State, int>, dv: map<State, int>,
                     ms: seq<Move>, nd: int, added: seq<StateInfo>, visited': set<State>, dv': map<State, int>)
    requires QueueFaithful(visited, queue, dm, dv) && queue != []
    requires Visited(ms, nd, visited, dv, added, visited', dv')
    ensures QueueFaithful(visited', queue[1..] + added, dm[queue[0].stateID := queue[0].distanceToFinal], dv')
  {
    var tail, q', dm' := queue[1..], queue[1..] + added, dm[queue[0].stateID := queue[0].distanceToFinal];
    forall i | 0 <= i < |q'|
      ensures q'[i].stateID in visited' && q'[i].stateID !in dm' && q'[i].distanceToFinal == dv'[q'[i].stateID]
    {
      if i < |tail| {
        assert q'[i] == queue[i + 1];
        assert queue[i + 1].stateID != queue[0].stateID;
      } else {
        assert q'[i] == added[i - |tail|];
      }
    }
    forall i, j | 0 <= i < j < |q'| ensures q'[i].stateID != q'[j].stateID {
      if j < |tail| {
        assert q'[i] == queue[i + 1] && q'[j] == queue[j + 1];
      } else if i < |tail| {
        assert q'[i] == queue[i + 1] && q'[j] == added[j - |tail|];
      } else {
        assert q'[i] == added[i - |tail|] && q'[j] == added[j - |tail|];
      }
    }
    forall x | x in visited' ensures x in dm' || x in Ids(q') {
      if x !in dm' {
        if x in visited {
          assert x in Ids(queue);
          var i :| 0 <= i < |queue| && queue[i].stateID == x;
          assert q'[i - 1] == queue[i];
        } else {
          var i :| 0 <= i < |added| && added[i].stateID == x;
          assert q'[|tail| + i] == added[i];
        }
      }
    }
  }

  lemma StepSorted(queue: seq<StateInfo>, added: seq<StateInfo>)
    requires QueueSorted(queue) && queue != []
    requires forall i :: 0 <= i < |added| ==> added[i].distanceToFinal == queue[0].distanceToFinal + 1
    ensures QueueSorted(queue[1..] + added)
  {
    var tail, q' := queue[1..], queue[1..] + added;
    forall i, j | 0 <= i < j < |q'|
      ensures q'[i].distanceToFinal <= q'[j].distanceToFinal <= q'[i].distanceToFinal + 1
    {
      if j < |tail| {
        assert q'[i] == queue[i + 1] && q'[j] == queue[j + 1];
      } else if i < |tail| {
        assert q'[i] == queue[i + 1] && q'[j] == added[j - |tail|];
        assert queue[0].distanceToFinal <= queue[i + 1].distanceToFinal;
      } else {
        assert q'[i] == added[i - |tail|] && q'[j] == added[j - |tail|];
      }
    }
  }

  lemma StepShortest(a: Automaton, visited: set<State>, queue: seq<StateInfo>, dm: map<State, int>, dv: map<State, int>,
                     added: seq<StateInfo>, visited': set<State>, dv': map<State, int>)
    requires a.finals <= visited && dm.Keys <= visited && dv.Keys == visited && queue != []
    requires queue[0].stateID in visited && queue[0].distanceToFinal == dv[queue[0].stateID]
    requires DistancesShortest(a, visited, dv)
    requires PredecessorsSeen(a, visited, dm) && ShorterDequeued(a, queue, dm)
    requires Visited(MovesTo(a.moves, queue[0].stateID), queue[0].distanceToFinal + 1, visited, dv, added, visited', dv')
    ensures DistancesShortest(a, visited', dv')
  {
    var s, d := queue[0].stateID, queue[0].distanceToFinal;
    forall x | x in visited'
      ensures && 0 <= dv'[x] < |visited'|
              && PathTo(a, x, dv'[x])
              && (forall k: nat {:trigger PathTo(a, x, k)} :: PathTo(a, x, k) ==> dv'[x] <= k)
    {
      if x !in visited {
        var m :| m in MovesTo(a.moves, s) && m.from == x;
        PathStep(a, m, d);
        assert |visited| < |visited'| by {
          assert visited' == visited + (visited' - visited);
          assert x in visited' - visited;
        }
        forall k: nat | PathTo(a, x, k) ensures dv'[x] <= k {
          NoShortPath(a, visited, queue, dm, x, k);
        }
      } else {
        assert |visited| <= |visited'| by {
          assert visited' == visited + (visited' - visited);
        }
      }
    }
  }

  lemma StepShorterDequeued(a: Automaton, visited: set<State>, queue: seq<StateInfo>, dm: map<State, int>, dv: map<State, int>,
                            added: seq<StateInfo>, visited': set<State>, dv': map<State, int>)
    requires a.finals <= visited && dm.Keys <= visited && queue != [] && visited <= visited'
    requires PredecessorsSeen(a, visited, dm) && ShorterDequeued(a, queue, dm) && QueueSorted(queue[1..] + added)
    requires QueueFaithful(visited', queue[1..] + added, dm[queue[0].stateID := queue[0].distanceToFinal], dv')
    requires DistancesShortest(a, visited', dv')
    requires forall i :: 0 <= i < |added| ==> added[i].distanceToFinal == queue[0].distanceToFinal + 1
    requires forall i :: 1 <= i < |queue| ==> queue[0].distanceToFinal <= queue[i].distanceToFinal <= queue[0].distanceToFinal + 1
    ensures ShorterDequeued(a, queue[1..] + added, dm[queue[0].stateID := queue[0].distanceToFinal])
  {
    var d, q', dm' := queue[0].distanceToFinal, queue[1..] + added, dm[queue[0].stateID := queue[0].distanceToFinal];
    if q' != [] {
      var h := q'[0].distanceToFinal;
      assert h <= d + 1 by {
        if |queue| > 1 { assert q'[0] == queue[1]; } else { assert q'[0] == added[0]; }
      }
      forall v, k: nat | PathTo(a, v, k) && k < h ensures v in dm' {
        if k >= d {
          if v !in visited {
            NoShortPath(a, visited, queue, dm, v, k);
            assert false;
          }
        }
      }
    }
  }

  /** The search loop keeps its invariant when it dequeues the head and visits its predecessors. */
  lemma BfsStep(a: Automaton, visited: set<State>, queue: seq<StateInfo>, dm: map<State, int>, dv: map<State, int>,
                added: seq<StateInfo>, visited': set<State>, dv': map<State, int>)
    requires BfsInv(a, visited, queue, dm, dv) && queue != []
    requires Visited(MovesTo(a.moves, queue[0].stateID), queue[0].distanceToFinal + 1, visited, dv, added, visited', dv')
    requires visited' <= a.states
    ensures BfsInv(a, visited', queue[1..] + added, dm[queue[0].stateID := queue[0].distanceToFinal], dv')
  {
    var s, d := queue[0].stateID, queue[0].distanceToFinal;
    StepFaithful(visited, queue, dm, dv, MovesTo(a.moves, s), d + 1, added, visited', dv');
    StepSorted(queue, added);
    StepShortest(a, visited, queue, dm, dv, added, visited', dv');
    assert forall i :: 1 <= i < |queue| ==> d <= queue[i].distanceToFinal <= d + 1;
    StepShorterDequeued(a, visited, queue, dm, dv, added, visited', dv');
  }

  /** Once the queue is empty the seen states are closed under predecessors, so they are all
      the states that reach a final state. */
  lemma {:induction false} ReachableSeen(a: Automaton, visited: set<State>, dm: map<State, int>, v: State, k: nat)
    requires a.finals <= visited && dm.Keys == visited
    requires PredecessorsSeen(a, visited, dm)
    requires PathTo(a, v, k)
    ensures v in visited
    decreases k
  {
    if k > 0 {
      var i :| 0 <= i < |a.moves| && a.moves[i].from == v && PathTo(a, a.moves[i].to, k - 1);
      ReachableSeen(a, visited, dm, a.moves[i].to, k - 1);
      assert a.moves[i] in a.moves;
    }
  }

  /** `order` lists each of `keys` exactly once. */
  ghost predicate ListsKeys(order: seq<State>, keys: set<State>)
  {
    && (forall x :: x in order <==> x in keys)
    && (forall i, j :: 0 <= i < j < |order| ==> order[i] != order[j])
  }

  lemma OrderAppend(order: seq<State>, keys: set<State>, x: State)
    requires ListsKeys(order, keys) && x !in keys
    ensures ListsKeys(order + [x], keys + {x})
  {
    var o := order + [x];
    forall i, j | 0 <= i < j < |o| ensures o[i] != o[j] {
      if j == |order| {
        assert o[i] == order[i];
        assert order[i] in order;
      } else {
        assert o[i] == order[i] && o[j] == order[j];
      }
    }
  }

  /** Along `order` the distances never decrease. */
  ghost predicate DistanceOrdered(order: seq<State>, dist: map<State, int>)
  {
    forall i, j :: 0 <= i < j < |order| && order[i] in dist && order[j] in dist ==> dist[order[i]] <= dist[order[j]]
  }

  /** Inserting a new key with a distance no smaller than any present keeps the order. */
  lemma OrderedAppend(order: seq<State>, dist: map<State, int>, x: State, d: int)
    requires ListsKeys(order, dist.Keys) && DistanceOrdered(order, dist) && x !in dist
    requires forall y :: y in dist ==> dist[y] <= d
    ensures DistanceOrdered(order + [x], dist[x := d])
  {
    var o, dist' := order + [x], dist[x := d];
    forall i, j | 0 <= i < j < |o| && o[i] in dist' && o[j] in dist' ensures dist'[o[i]] <= dist'[o[j]] {
      assert o[i] == order[i] && order[i] in order;
      if j < |order| {
        assert o[j] == order[j] && order[j] in order;
      }
    }
  }

  /** The order of the entries the search has made: each key once, distances never decreasing,
      and none farther than the head of the queue. */
  ghost predicate SearchOrder(order: seq<State>, dist: map<State, int>, queue: seq<StateInfo>)
  {
    && ListsKeys(order, dist.Keys) && DistanceOrdered(order, dist)
    && (queue != [] ==> forall x :: x in dist ==> dist[x] <= queue[0].distanceToFinal)
  }

  /** Dequeuing the head and appending its unseen predecessors keeps the order of the entries. */
  lemma SearchOrderStep(order: seq<State>, dist: map<State, int>, queue: seq<StateInfo>, added: seq<StateInfo>)
    requires SearchOrder(order, dist, queue) && QueueSorted(queue) && queue != [] && queue[0].stateID !in dist
    requires forall i :: 0 <= i < |added| ==> added[i].distanceToFinal == queue[0].distanceToFinal + 1
    ensures SearchOrder(order + [queue[0].stateID], dist[queue[0].stateID := queue[0].distanceToFinal], queue[1..] + added)
  {
    OrderAppend(order, dist.Keys, queue[0].stateID);
    OrderedAppend(order, dist, queue[0].stateID, queue[0].distanceToFinal);
    HeadNotNearer(queue, added);
  }

  /** The order of the entries once sinks are being marked: the search's entries first, then
      sinks, each key once and distances never decreasing. */
  ghost predicate SinkOrder(order0: seq<State>, order: seq<State>, dist: map<State, int>)
  {
    && ListsKeys(order, dist.Keys) && DistanceOrdered(order, dist)
    && (forall x :: x in dist ==> dist[x] <= IntMax)
    && |order0| <= |order| && order[..|order0|] == order0
  }

  /** Marking one more sink keeps the order of the entries. */
  lemma SinkOrderStep(order0: seq<State>, order: seq<State>, dist: map<State, int>, st: State)
    requires SinkOrder(order0, order, dist) && st !in dist
    ensures SinkOrder(order0, order + [st], dist[st := IntMax])
  {
    OrderAppend(order, dist.Keys, st);
    OrderedAppend(order, dist, st, IntMax);
    assert (order + [st])[..|order0|] == order[..|order0|];
  }

  /** The queue's head is never nearer than the state dequeued before it. */
  lemma HeadNotNearer(queue: seq<StateInfo>, added: seq<StateInfo>)
    requires QueueSorted(queue) && queue != []
    requires forall i :: 0 <= i < |added| ==> added[i].distanceToFinal == queue[0].distanceToFinal + 1
    ensures queue[1..] + added != [] ==> (queue[1..] + added)[0].distanceToFinal >= queue[0].distanceToFinal
  {
    if |queue| > 1 {
      assert (queue[1..] + added)[0] == queue[1];
    } else if added != [] {
      assert (queue[1..] + added)[0] == added[0];
    }
  }

  /** The state after the first loop has the search invariant. */
  lemma InitialInv(a: Automaton, visited: set<State>, queue: seq<StateInfo>, dv: map<State, int>)
    requires EnqueueInv(a, {}, visited, queue, dv) && a.finals <= a.states
    ensures BfsInv(a, visited, queue, map[], dv)
  {
    forall x | x in visited ensures PathTo(a, x, 0) { }
    assert |visited| > 0 || visited == {};
  }

  /** The invariant of the first loop: the finals not in `finals` are queued at distance 0. */
  ghost predicate EnqueueInv(a: Automaton, finals: set<State>, visited: set<State>, queue: seq<StateInfo>,
                             dv: map<State, int>)
  {
    && finals <= a.finals
    && visited == a.finals - finals
    && dv.Keys == visited && (forall x :: x in dv ==> dv[x] == 0)
    && QueueFaithful(visited, queue, map[], dv)
    && (forall i :: 0 <= i < |queue| ==> queue[i].distanceToFinal == 0)
  }

  lemma EnqueueStep(a: Automaton, finals: set<State>, visited: set<State>, queue: seq<StateInfo>,
                    dv: map<State, int>, f: State)
    requires EnqueueInv(a, finals, visited, queue, dv) && f in finals
    ensures EnqueueInv(a, finals - {f}, visited + {f}, queue + [StateInfo(f, 0)], dv[f := 0])
  {
    IdsAppend(queue, StateInfo(f, 0));
    var q := queue + [StateInfo(f, 0)];
    forall i | 0 <= i < |q| ensures q[i].stateID in visited + {f} && q[i].distanceToFinal == dv[f := 0][q[i].stateID] {
      if i < |queue| { assert q[i] == queue[i]; }
    }
    forall i, j | 0 <= i < j < |q| ensures q[i].stateID != q[j].stateID {
      assert q[i] == queue[i];
      if j < |queue| { assert q[j] == queue[j]; }
    }
    assert QueueFaithful(visited + {f}, q, map[], dv[f := 0]);
    forall i | 0 <= i < |q| ensures q[i].distanceToFinal == 0 {
      if i < |queue| { assert q[i] == queue[i]; }
    }
  }

  /** The first loop: every final state is queued at distance 0. */
  method EnqueueFinals(a: Automaton) returns (visited: set<State>, queue: seq<StateInfo>, ghost dv: map<State, int>)
    ensures EnqueueInv(a, {}, visited, queue, dv)
  {
    visited, queue, dv := {}, [], map[];
    var finals := a.finals;
    while finals != {}
      invariant EnqueueInv(a, finals, visited, queue, dv)
      decreases |finals|
    {
      NonEmptyHasElement(finals);
      var f :| f in finals;
      EnqueueStep(a, finals, visited, queue, dv, f);
      queue := queue + [StateInfo(f, 0)];
      visited := visited + {f};
      dv := dv[f := 0];
      finals := finals - {f};
    }
  }

  /** The search loop, which dequeues a state, records its distance and visits its predecessors. */
  method Search(ba: Algebra, a: Automaton, visited0: set<State>, queue0: seq<StateInfo>, ghost dv0: map<State, int>)
    returns (dist: map<State, int>, order: seq<State>, visited: set<State>, ghost dv: map<State, int>)
    requires ValidAutomaton(ba, a)
    requires BfsInv(a, visited0, queue0, map[], dv0)
    ensures a.finals <= visited <= a.states && dist.Keys == visited && dv.Keys == visited
    ensures forall x :: x in dist ==> dist[x] == dv[x]
    ensures DistancesShortest(a, visited, dv) && PredecessorsSeen(a, visited, dist)
    ensures ListsKeys(order, dist.Keys) && DistanceOrdered(order, dist)
  {
    dist, order := map[], [];
    var queue := queue0;
    var seen := visited0;
    dv := dv0;
    while queue != []
      invariant BfsInv(a, seen, queue, dist, dv)
      invariant SearchOrder(order, dist, queue)
      decreases |a.states - seen|, |queue|
    {
      ghost var (seen0, queue1) := (seen, queue);
      dist, order, seen, queue, dv := Dequeue(ba, a, dist, order, seen, queue, dv);
      if seen != seen0 {
        FewerUnseen(a.states, seen0, seen);
      }
    }
    visited := seen;
    assert forall x :: x in visited ==> x in dist || x in Ids(queue);
  }

  /** One round of the search loop: the head of the queue is dequeued and its distance recorded,
      and its unseen predecessors are queued one step farther. The search invariant and the
      order of the entries are kept, and either more states are seen or the queue is shorter. */
  method Dequeue(ba: Algebra, a: Automaton, dist: map<State, int>, order: seq<State>, seen: set<State>,
                 queue: seq<StateInfo>, ghost dv: map<State, int>)
    returns (dist': map<State, int>, order': seq<State>, seen': set<State>, queue': seq<StateInfo>, ghost dv': map<State, int>)
    requires ValidAutomaton(ba, a) && queue != []
    requires BfsInv(a, seen, queue, dist, dv) && SearchOrder(order, dist, queue)
    ensures BfsInv(a, seen', queue', dist', dv') && SearchOrder(order', dist', queue')
    ensures dist' == dist[queue[0].stateID := queue[0].distanceToFinal] && order' == order + [queue[0].stateID]
    ensures seen <= seen' && (seen' == seen ==> |queue'| < |queue|)
  {
    var s := queue[0];
    var nextDistance := s.distanceToFinal + 1;
    assert s.stateID !in dist;
    dist' := dist[s.stateID := s.distanceToFinal];
    order' := order + [s.stateID];
    seen', queue', dv' := VisitPredecessors(MovesTo(a.moves, s.stateID), nextDistance, seen, queue[1..], dv);
    ghost var added := queue'[|queue| - 1..];
    PredecessorsAreStates(ba, a, s.stateID, nextDistance, seen, dv, added, seen', dv');
    BfsStep(a, seen, queue, dist, dv, added, seen', dv');
    SearchOrderStep(order, dist, queue, added);
  }

  lemma PredecessorsAreStates(ba: Algebra, a: Automaton, s: State, nd: int, visited: set<State>, dv: map<State, int>,
                              added: seq<StateInfo>, visited': set<State>, dv': map<State, int>)
    requires ValidAutomaton(ba, a) && visited <= a.states
    requires Visited(MovesTo(a.moves, s), nd, visited, dv, added, visited', dv')
    ensures visited' <= a.states
  {
    forall x | x in visited' ensures x in a.states {
      if x !in visited {
        var m :| m in MovesTo(a.moves, s) && m.from == x;
        assert m in a.moves;
      }
    }
  }

  /** The last loop marks every unvisited non-final state as a sink; with the search complete,
      every entry is a shortest distance. */
  lemma SinksShortest(a: Automaton, visited: set<State>, dv: map<State, int>, searched: map<State, int>,
                      dist: map<State, int>)
    requires a.finals <= visited <= a.states && searched.Keys == visited && dv.Keys == visited
    requires |a.states| < IntMax
    requires PredecessorsSeen(a, visited, searched) && DistancesShortest(a, visited, dv)
    requires dist.Keys == a.states
    requires forall x :: x in visited ==> dist[x] == dv[x]
    requires forall x :: x in dist && x !in visited ==> dist[x] == IntMax
    ensures IsDistanceMap(a, dist)
  {
    SubsetSize(visited, a.states);
    forall x | x in dist ensures Shortest(a, x, dist[x]) {
      if x !in visited {
        forall k: nat | PathTo(a, x, k) ensures false {
          ReachableSeen(a, visited, searched, x, k);
        }
      }
    }
  }

  /** The last loop: every non-final state that was not visited is a sink. */
  method MarkSinks(a: Automaton, visited: set<State>, dist0: map<State, int>, order0: seq<State>)
    returns (dist: map<State, int>, order: seq<State>)
    requires a.finals <= visited <= a.states && dist0.Keys == visited
    requires ListsKeys(order0, dist0.Keys) && DistanceOrdered(order0, dist0)
    requires forall x :: x in dist0 ==> dist0[x] <= IntMax
    ensures dist.Keys == a.states
    ensures forall x :: x in visited ==> dist[x] == dist0[x]
    ensures forall x :: x in dist && x !in visited ==> dist[x] == IntMax
    ensures ListsKeys(order, dist.Keys) && DistanceOrdered(order, dist)
    ensures |order0| <= |order| && order[..|order0|] == order0
  {
    dist, order := dist0, order0;
    var rest := a.states - a.finals;
    while rest != {}
      invariant rest <= a.states - a.finals
      invariant forall x :: x in dist <==> x in visited || (x in a.states && x !in a.finals && x !in rest)
      invariant forall x :: x in visited ==> dist[x] == dist0[x]
      invariant forall x :: x in dist && x !in visited ==> dist[x] == IntMax
      invariant SinkOrder(order0, order, dist)
      decreases |rest|
    {
      NonEmptyHasElement(rest);
      var st :| st in rest;
      if st !in visited {
        SinkOrderStep(order0, order, dist, st);
        dist := dist[st := IntMax];
        order := order + [st];
      }
      rest := rest - {st};
    }
    assert forall x :: x in dist <==> x in a.states;
  }

  /** generateDistanceToFinalMap: the distance of every state, and the order in which the
      entries were inserted into the linked map. */
  method DistanceToFinalMap(ba: Algebra, a: Automaton) returns (dist: map<State, int>, order: seq<State>)
    requires ValidAutomaton(ba, a)
    ensures IsDistanceMap(a, dist)
    ensures ListsKeys(order, dist.Keys) && DistanceOrdered(order, dist)
  {
    var visited0, queue0, dv0 := EnqueueFinals(a);
    InitialInv(a, visited0, queue0, dv0);
    var searched, searchOrder, visited, dv := Search(ba, a, visited0, queue0, dv0);
    SubsetSize(visited, a.states);
    dist, order := MarkSinks(a, visited, searched, searchOrder);
    SinksShortest(a, visited, dv, searched, dist);
  }

  lemma FewerUnseen(all: set<State>, seen0: set<State>, seen: set<State>)
    requires seen0 <= seen <= all && seen != seen0
    ensures |all - seen| < |all - seen0|
  {
    NonEmptyHasElement(seen - seen0);
    var x :| x in seen - seen0;
    var fewer, more := all - seen, all - seen0;
    assert more == fewer + (more - fewer);
    assert x in more - fewer;
  }

  lemma SubsetSize(s: set<State>, t: set<State>)
    requires s <= t
    ensures |s| <= |t|
  {
    assert t == s + (t - s);
  }

  // ---------------------------------------------------------------------------------------------
  // What the distances mean for the language of a state.
  // ---------------------------------------------------------------------------------------------

  /** A path of moves spells a word, since every guard of a valid automaton is satisfiable. */
  lemma {:induction false} PathGivesWord(a: Automaton, x: State, k: nat) returns (w: seq<Sym>)
    requires MovesAreSteps(a) && GuardsSatisfiable(a) && PathTo(a, x, k)
    ensures |w| == k && Accepts(a, x, w)
    decreases k
  {
    if k == 0 {
      w := [];
    } else {
      var i :| 0 <= i < |a.moves| && a.moves[i].from == x && PathTo(a, a.moves[i].to, k - 1);
      var m := a.moves[i];
      assert m in a.moves;
      var w' := PathGivesWord(a, m.to, k - 1);
      NonEmptyHasElement(m.guard);
      var c :| c in m.guard;
      w := [c] + w';
      assert w[0] == c && w[1..] == w';
      assert Target(a, x, w[0]) == Some(m.to);
    }
  }

  /** An accepted word follows a path of moves of its length. */
  lemma {:induction false} WordGivesPath(a: Automaton, x: State, w: seq<Sym>)
    requires Accepts(a, x, w)
    ensures PathTo(a, x, |w|)
    decreases |w|
  {
    if w != [] {
      var m := AcceptedStep(a, x, w);
      WordGivesPath(a, m.to, w[1..]);
      PathStep(a, m, |w| - 1);
    }
  }

  /** The first symbol of an accepted word is read by a move leaving the state, and the rest of
      the word is accepted from its target. */
  lemma AcceptedStep(a: Automaton, x: State, w: seq<Sym>) returns (m: Move)
    requires Accepts(a, x, w) && w != []
    ensures m in a.moves && m.from == x && Accepts(a, m.to, w[1..])
  {
    var ms := MovesFrom(a.moves, x);
    var i :| 0 <= i < |ms| && w[0] in ms[i].guard && ms[i].to == Target(a, x, w[0]).value;
    m := ms[i];
    assert m in ms;
  }

  /** The distance 0 marks exactly the final states. */
  lemma DistanceZeroIffFinal(a: Automaton, dist: map<State, int>, x: State)
    requires IsDistanceMap(a, dist) && x in a.states
    ensures dist[x] == 0 <==> x in a.finals
  {
    if x in a.finals {
      assert PathTo(a, x, 0);
    }
  }

  /** The sink marker `IntMax` marks exactly the states whose language is empty. */
  lemma SinkIffEmpty(ba: Algebra, a: Automaton, dist: map<State, int>, x: State)
    requires ValidAutomaton(ba, a) && IsDistanceMap(a, dist) && x in a.states
    ensures dist[x] == IntMax ==> forall w :: !Accepts(a, x, w)
    ensures dist[x] != IntMax ==> exists w :: Accepts(a, x, w)
  {
    if dist[x] < IntMax {
      ValidMovesAreSteps(ba, a);
      var w := PathGivesWord(a, x, dist[x]);
      assert Accepts(a, x, w);
    } else {
      forall w ensures !Accepts(a, x, w) {
        if Accepts(a, x, w) {
          WordGivesPath(a, x, w);
          assert false;
        }
      }
    }
  }

  lemma DistanceBound(ba: Algebra, a: Automaton, dist: map<State, int>, x: State, y: State)
    requires ValidAutomaton(ba, a) && IsDistanceMap(a, dist) && x in a.states && y in a.states
    requires Equivalent(a, x, y) && dist[x] < IntMax
    ensures dist[y] <= dist[x]
  {
    ValidMovesAreSteps(ba, a);
    var w := PathGivesWord(a, x, dist[x]);
    assert Accepts(a, y, w);
    WordGivesPath(a, y, w);
  }

  /** Language-equivalent states have the same distance, so a difference in distance
      proves two states inequivalent. */
  lemma EquivalentSameDistance(ba: Algebra, a: Automaton, dist: map<State, int>, x: State, y: State)
    requires ValidAutomaton(ba, a) && IsDistanceMap(a, dist) && x in a.states && y in a.states
    requires Equivalent(a, x, y)
    ensures dist[x] == dist[y]
  {
    assert Equivalent(a, y, x);
    if dist[x] < IntMax {
      DistanceBound(ba, a, dist, x, y);
    }
    if dist[y] < IntMax {
      DistanceBound(ba, a, dist, y, x);
    }
  }
}
