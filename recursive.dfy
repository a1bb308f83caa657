/**
 * The recursive equivalence test of minimization/incremental/IncrementalRecursive.java: the walk
 * over the moves of two states calls the test again on every pair of successor classes that is
 * neither one class nor already assumed, and a pair met again on the current path is taken as
 * equivalent. The sets of assumed pairs and of path pairs are threaded through the calls as
 * values and written back to the test's fields at the end.
 */
module Recursive {
  import opened Base
  import opened Sfa
  import opened UnionFind
  import opened Distance
  import opened StateOrder
  import opened Splitting
  import opened Equivalence
  import opened Walk
  import opened Incremental

  /** Every pair of `e` holds two states of the automaton. */
  ghost predicate PairsOfStates(a: Automaton, e: set<Pair>)
  {
    forall pr :: pr in e ==> pr.fst in a.states && pr.snd in a.states
  }

  /** Assuming the normalised pair of two states keeps the assumed pairs pairs of states. */
  lemma AssumeNext(a: Automaton, dist: map<State, int>, e: set<Pair>, x: State, y: State)
    requires PairsOfStates(a, e) && x in a.states && y in a.states && x in dist && y in dist
    ensures PairsOfStates(a, e + {Normalize(dist, x, y)})
  {
  }

  /** Assuming more pairs never leaves more pairs of `states` unassumed. */
  lemma NoMoreOutside(states: set<State>, e0: set<Pair>, e: set<Pair>)
    requires e0 <= e
    ensures |AllPairs(states) - e| <= |AllPairs(states) - e0|
  {
    var fewer, more := AllPairs(states) - e, AllPairs(states) - e0;
    assert more == fewer + (more - fewer);
  }

  /** Assuming a new pair of `states` leaves fewer pairs of `states` unassumed. */
  lemma OneFewerOutside(states: set<State>, e: set<Pair>, pr: Pair)
    requires pr.fst in states && pr.snd in states && pr !in e
    ensures |AllPairs(states) - (e + {pr})| < |AllPairs(states) - e|
  {
    assert pr == Pair(pr.fst, pr.snd);
    FewerOutside(states, e, e + {pr});
  }

  /** What isEquivRecursive promises of a call on `x` and `y` that took the cache from `neq0` to
      `neq`, the assumed pairs from `e0` to `e` and the path from `p0` to `p`. On `true` the path is
      as it was, the pair of `x` and `y` was on it or is assumed with `x` and `y` at one distance
      and closed up to the assumed pairs and the path, and so is every pair newly assumed and not
      on the path. On `false` the path only grows. Under a sound partition and cache, the cache
      stays sound and on `false` the two states, and every new pair of the path, are
      inequivalent. */
  ghost predicate RecOutcome(ba: Algebra, a: Automaton, dist: map<State, int>, root: map<State, State>,
                             neq0: set<Pair>, neq: set<Pair>, e0: set<Pair>, e: set<Pair>,
                             p0: set<Pair>, p: set<Pair>, x: State, y: State, r: bool)
  {
    && x in dist && y in dist
    && e0 <= e && neq0 <= neq && PairsOfStates(a, e)
    && (r ==> && p == p0
              && (|| Normalize(dist, x, y) in p0
                  || (Normalize(dist, x, y) in e && dist[x] == dist[y] && Closed(ba, a, root, x, y, e + p0)))
              && AllClosed(ba, a, root, e - e0 - p0, e + p0))
    && (!r ==> p0 <= p)
    && (SoundPartition(a, root) && NeqSound(a, neq0) ==>
          && NeqSound(a, neq)
          && (!r ==> && !Equivalent(a, x, y)
                     && forall pr :: pr in p - p0 ==> !Equivalent(a, pr.fst, pr.snd)))
  }

  /** The walk over the moves of `p` and `q` with the path `newPath`: the walk's invariant, and
      every pair assumed since `e0` and not on the path closed up to the assumed pairs and the
      path. */
  ghost predicate ExploreInv(ba: Algebra, a: Automaton, root: map<State, State>, p: State, q: State,
                             e0: set<Pair>, newPath: set<Pair>, e: set<Pair>, outp: seq<Move>, outq: seq<Move>)
  {
    && WalkInv(ba, a, root, p, q, outp, outq, e + newPath)
    && e0 <= e && PairsOfStates(a, e)
    && AllClosed(ba, a, root, e - e0 - newPath, e + newPath)
  }

  /** Started, the walk has handled nothing and assumed nothing new. */
  lemma ExploreStart(ba: Algebra, a: Automaton, root: map<State, State>, p: State, q: State,
                     e0: set<Pair>, newPath: set<Pair>)
    requires ValidAutomaton(ba, a) && p in a.states && q in a.states && PairsOfStates(a, e0)
    ensures ExploreInv(ba, a, root, p, q, e0, newPath, e0, MovesFrom(a.moves, p), MovesFrom(a.moves, q))
  {
    WalkStart(ba, a, root, p, q, e0 + newPath);
  }

  /** A call on a pair of successor classes `pc`, `qc` that answered `true`: the meeting is
      handled up to the pairs then assumed and the path, and the walk's invariant holds with
      those pairs. */
  lemma ChildClosed(ba: Algebra, a: Automaton, dist: map<State, int>, root: map<State, State>, p: State, q: State,
                    e0: set<Pair>, newPath: set<Pair>, e: set<Pair>, e': set<Pair>, outp: seq<Move>, outq: seq<Move>,
                    pc: State, qc: State)
    requires IsDistanceMap(a, dist) && pc in a.states && qc in a.states
    requires ExploreInv(ba, a, root, p, q, e0, newPath, e, outp, outq)
    requires e + {Normalize(dist, pc, qc)} <= e' && PairsOfStates(a, e')
    requires || Normalize(dist, pc, qc) in newPath
             || (dist[pc] == dist[qc] && Closed(ba, a, root, pc, qc, e' + newPath))
    requires AllClosed(ba, a, root, e' - (e + {Normalize(dist, pc, qc)}) - newPath, e' + newPath)
    ensures ExploreInv(ba, a, root, p, q, e0, newPath, e', outp, outq)
    ensures InEitherOrder(pc, qc, e' + newPath)
  {
    var nx := Normalize(dist, pc, qc);
    var t := e' + newPath;
    WalkGrow(ba, a, root, p, q, outp, outq, e + newPath, t);
    AllClosedGrow(ba, a, root, e - e0 - newPath, e + newPath, t);
    var done := (e - e0 - newPath) + (e' - (e + {nx}) - newPath);
    assert AllClosed(ba, a, root, done, t);
    if nx !in newPath {
      ClosedJoin(ba, a, root, dist, done, pc, qc, nx, t);
      assert e' - e0 - newPath <= done + {nx};
      AllClosedSub(ba, a, root, done + {nx}, e' - e0 - newPath, t, t);
    } else {
      assert e' - e0 - newPath <= done;
      AllClosedSub(ba, a, root, done, e' - e0 - newPath, t, t);
    }
    NormalizedPair(a, dist, pc, qc, t);
  }

  /** A walk that ran out of moves: the pair of `p` and `q` is closed, and assuming it finishes
      the call with `true`. */
  lemma ExploreDone(ba: Algebra, a: Automaton, dist: map<State, int>, root: map<State, State>,
                    neq0: set<Pair>, neq: set<Pair>, e0: set<Pair>, e: set<Pair>, p0: set<Pair>,
                    p: State, q: State, outp: seq<Move>, outq: seq<Move>)
    requires IsDistanceMap(a, dist) && p in a.states && q in a.states && dist[p] == dist[q]
    requires Normalize(dist, p, q) !in p0
    requires ExploreInv(ba, a, root, p, q, e0, p0 + {Normalize(dist, p, q)}, e, outp, outq)
    requires outp == [] || outq == []
    requires neq0 <= neq && (SoundPartition(a, root) && NeqSound(a, neq0) ==> NeqSound(a, neq))
    ensures RecOutcome(ba, a, dist, root, neq0, neq, e0, e + {Normalize(dist, p, q)}, p0, p0, p, q, true)
  {
    var pair := Normalize(dist, p, q);
    var newPath := p0 + {pair};
    var e' := e + {pair};
    WalkEnd(ba, a, root, p, q, outp, outq, e + newPath);
    assert e' + p0 == e + newPath;
    ClosedJoin(ba, a, root, dist, e - e0 - newPath, p, q, pair, e' + p0);
    assert e' - e0 - p0 <= (e - e0 - newPath) + {pair};
    AllClosedSub(ba, a, root, (e - e0 - newPath) + {pair}, e' - e0 - p0, e' + p0, e' + p0);
  }

  /** A walk that failed at a meeting: the path holds the pair of `p` and `q`, and under a sound
      partition and cache that pair is inequivalent too. */
  lemma ExploreFailed(ba: Algebra, a: Automaton, dist: map<State, int>, root: map<State, State>,
                      neq0: set<Pair>, neq: set<Pair>, e0: set<Pair>, e: set<Pair>, p0: set<Pair>, failPath: set<Pair>,
                      p: State, q: State)
    requires p in dist && q in dist && e0 <= e && PairsOfStates(a, e) && neq0 <= neq
    requires p0 + {Normalize(dist, p, q)} <= failPath
    requires SoundPartition(a, root) && NeqSound(a, neq0) ==>
               && NeqSound(a, neq) && !Equivalent(a, p, q)
               && forall pr :: pr in failPath - (p0 + {Normalize(dist, p, q)}) ==> !Equivalent(a, pr.fst, pr.snd)
    ensures RecOutcome(ba, a, dist, root, neq0, neq, e0, e, p0, failPath, p, q, false)
  {
    NormalizedPair(a, dist, p, q, {});
  }

  /** With an empty initial path, the outcome of the recursive test is the outcome the driver
      relies on from isEquiv, so the driver of IncrementalMinimization keeps its guarantees when
      it runs this test. */
  lemma RecursiveMeetsDriver(ba: Algebra, a: Automaton, dist: map<State, int>, root: map<State, State>,
                             neq0: set<Pair>, neq: set<Pair>, e0: set<Pair>, e: set<Pair>, p: set<Pair>,
                             x: State, y: State, r: bool)
    requires RecOutcome(ba, a, dist, root, neq0, neq, e0, e, {}, p, x, y, r)
    ensures EquivOutcome(ba, a, dist, root, neq0, neq, e0, e, {}, p, x, y, r)
  {
    assert e - e0 - {} == e - e0 && e + {} == e;
    assert p - {} == p;
  }

  /** What a meeting of the walk over the moves of `p` and `q` leaves: on `ok` the path is as it
      was and the walk's invariant holds of the lists after the step; otherwise the path
      `failPath` extends `newPath` and, when `sound`, shows `p` and `q` inequivalent. */
  ghost predicate MeetDone(ba: Algebra, a: Automaton, root: map<State, State>, p: State, q: State,
                           e0: set<Pair>, newPath: set<Pair>, e: set<Pair>, outp: seq<Move>, outq: seq<Move>, j: nat,
                           e': set<Pair>, ok: bool, failPath: set<Pair>, sound: bool)
    requires outp != [] && j < |outq|
  {
    && e <= e' && PairsOfStates(a, e')
    && (ok ==> && failPath == newPath
               && ExploreInv(ba, a, root, p, q, e0, newPath, e', SplitStep(ba, outp, outq, j).outp,
                             SplitStep(ba, outp, outq, j).outq))
    && (!ok ==> && newPath <= failPath
                && (sound ==> && !Equivalent(a, p, q)
                              && forall pr :: pr in failPath - newPath ==> !Equivalent(a, pr.fst, pr.snd)))
  }

  /** A meeting whose successor classes coincide or are already assumed is handled. */
  lemma MeetKept(ba: Algebra, a: Automaton, dist: map<State, int>, root: map<State, State>, p: State, q: State,
                 e0: set<Pair>, newPath: set<Pair>, e: set<Pair>, outp: seq<Move>, outq: seq<Move>, j: nat,
                 pc: State, qc: State, sound: bool)
    requires ExploreInv(ba, a, root, p, q, e0, newPath, e, outp, outq)
    requires outp != [] && j < |outq| && IsSatisfiable(MkAnd(outp[0].guard, outq[j].guard))
    requires outp[0].to in root && outq[j].to in root && pc == root[outp[0].to] && qc == root[outq[j].to]
    requires pc in dist && qc in dist && (pc == qc || Normalize(dist, pc, qc) in e)
    ensures MeetDone(ba, a, root, p, q, e0, newPath, e, outp, outq, j, e, true, newPath, sound)
  {
    NormalizedPair(a, dist, pc, qc, e + newPath);
    MeetStep(ba, a, root, p, q, outp, outq, j, e + newPath);
  }

  /** The answer of the recursive call on the successor classes of a meeting: `true` handles the
      meeting; `false` under a sound partition and cache shows `p` and `q` inequivalent. */
  lemma ChildAnswered(ba: Algebra, a: Automaton, dist: map<State, int>, root: map<State, State>,
                      neq0: set<Pair>, neq: set<Pair>, p: State, q: State,
                      e0: set<Pair>, newPath: set<Pair>, e: set<Pair>, e': set<Pair>, outp: seq<Move>, outq: seq<Move>,
                      j: nat, pc: State, qc: State, r: bool, failPath: set<Pair>)
    requires IsDistanceMap(a, dist) && pc in a.states && qc in a.states
    requires ExploreInv(ba, a, root, p, q, e0, newPath, e, outp, outq)
    requires outp != [] && j < |outq| && IsSatisfiable(MkAnd(outp[0].guard, outq[j].guard))
    requires outp[0].to in root && outq[j].to in root && pc == root[outp[0].to] && qc == root[outq[j].to]
    requires RecOutcome(ba, a, dist, root, neq0, neq, e + {Normalize(dist, pc, qc)}, e', newPath, failPath, pc, qc, r)
    ensures neq0 <= neq && (SoundPartition(a, root) && NeqSound(a, neq0) ==> NeqSound(a, neq))
    ensures MeetDone(ba, a, root, p, q, e0, newPath, e, outp, outq, j, e', r, failPath,
                     SoundPartition(a, root) && NeqSound(a, neq0))
  {
    if r {
      ChildClosed(ba, a, dist, root, p, q, e0, newPath, e, e', outp, outq, pc, qc);
      MeetStep(ba, a, root, p, q, outp, outq, j, e' + newPath);
    } else if SoundPartition(a, root) && NeqSound(a, neq0) {
      InequivalentMeeting(a, root, p, q, outp, outq, j);
    }
  }

  /** What the recursive test reads and never changes: the algebra, the automaton, the
      distances to the final states and the identifiers of the current classes. */
  datatype Ctx = Ctx(ba: Algebra, a: Automaton, dist: map<State, int>, root: map<State, State>)

  /** Where a call of the test leaves things: its answer or the exception it throws, the
      not-equal cache, the pairs assumed equivalent and the path. */
  datatype Run = Run(answer: Result<bool>, neq: set<Pair>, equiv: set<Pair>, path: set<Pair>)

  /** Every class identifier has a distance. */
  ghost predicate CtxOK(c: Ctx)
  {
    forall x {:trigger c.root[x]} :: x in c.root ==> c.root[x] in c.dist
  }

  /** The pairs of class identifiers not yet assumed equivalent: every recursive call assumes one
      more, which bounds the depth of the recursion. */
  ghost function Unassumed(c: Ctx, e: set<Pair>): nat
  {
    |AllPairs(c.root.Values) - e|
  }

  /** isEquivRecursive on `p` and `q`, with the cache `neq`, the assumed pairs `equiv` and the
      path `path`: a pair known inequivalent (which the cache then holds) fails, a pair already
      on the path succeeds, and any other pair joins the path and its moves are walked. */
  ghost function RecTest(c: Ctx, p: State, q: State, neq: set<Pair>, equiv: set<Pair>, path: set<Pair>): (r: Run)
    requires CtxOK(c) && p in c.dist && q in c.dist
    decreases Unassumed(c, equiv), 2, 0
    ensures equiv <= r.equiv
  {
    var pair := Normalize(c.dist, p, q);
    if pair in neq || c.dist[p] != c.dist[q] then Run(Ok(false), neq + {pair}, equiv, path)
    else if pair in path then Run(Ok(true), neq, equiv, path)
    else WalkFn(c, pair, MovesFrom(c.a.moves, p), MovesFrom(c.a.moves, q), neq, equiv, path + {pair})
  }

  /** The loop of isEquivRecursive over the remaining moves `outp` and `outq` of the pair
      `pair`: once either list is empty the pair leaves the path and is assumed; otherwise the
      first meeting is handled and, unless that fails, the walk goes on with the parts of the two
      guards the other one missed. With no meeting the source reads element 0 of a null list. */
  ghost function WalkFn(c: Ctx, pair: Pair, outp: seq<Move>, outq: seq<Move>,
                        neq: set<Pair>, equiv: set<Pair>, path: set<Pair>): (r: Run)
    requires CtxOK(c)
    decreases Unassumed(c, equiv), 1, GuardSize(outp)
    ensures equiv <= r.equiv
  {
    if outp == [] || outq == [] then Run(Ok(true), neq, equiv + {pair}, path - {pair})
    else
      var found := FirstMeeting(outp[0].guard, outq, 0);
      if found.None? then Run(Err(NoOverlappingMove), neq, equiv, path)
      else
        var m := MeetFn(c, outp[0].to, outq[found.value].to, neq, equiv, path);
        if m.answer != Ok(true) then m
        else
          var s := SplitStep(c.ba, outp, outq, found.value);
          NoMoreOutside(c.root.Values, equiv, m.equiv);
          SplitShrinksGuards(c.ba, outp, outq, found.value);
          WalkFn(c, pair, s.outp, s.outq, m.neq, m.equiv, m.path)
  }

  /** A meeting of moves into `x` and `y`: `find` throws on a state outside the partition; the
      pair of their classes, when the classes differ and the pair is not assumed, is assumed and
      tested by a recursive call. */
  ghost function MeetFn(c: Ctx, x: State, y: State, neq: set<Pair>, equiv: set<Pair>, path: set<Pair>): (r: Run)
    requires CtxOK(c)
    decreases Unassumed(c, equiv), 0, 0
    ensures equiv <= r.equiv
  {
    if x !in c.root || y !in c.root then Run(Err(IllegalArgument), neq, equiv, path)
    else
      var pc, qc := c.root[x], c.root[y];
      assert pc in c.root.Values && qc in c.root.Values;
      var next := Normalize(c.dist, pc, qc);
      if pc != qc && next !in equiv then
        OneFewerOutside(c.root.Values, equiv, next);
        RecTest(c, pc, qc, neq, equiv + {next}, path)
      else Run(Ok(true), neq, equiv, path)
  }

  /** One step of `WalkFn` on lists that are not empty and meet at `j`. */
  lemma WalkUnfold(c: Ctx, pair: Pair, outp: seq<Move>, outq: seq<Move>,
                   neq: set<Pair>, equiv: set<Pair>, path: set<Pair>, j: nat)
    requires CtxOK(c) && outp != [] && outq != [] && FirstMeeting(outp[0].guard, outq, 0) == Some(j)
    ensures var m := MeetFn(c, outp[0].to, outq[j].to, neq, equiv, path);
            var s := SplitStep(c.ba, outp, outq, j);
            WalkFn(c, pair, outp, outq, neq, equiv, path)
              == if m.answer != Ok(true) then m else WalkFn(c, pair, s.outp, s.outq, m.neq, m.equiv, m.path)
  {
  }

  /** The context the test is proved in: a valid automaton, its distances, and a partition whose
      classes are identified by their members. */
  ghost predicate Proper(c: Ctx)
  {
    && CtxOK(c) && ValidAutomaton(c.ba, c.a) && IsDistanceMap(c.a, c.dist) && Identifies(c.a, c.root)
  }

  /** What a meeting's call does in a proper context: it never throws, and it leaves what
      `MeetDone` describes. */
  ghost predicate MeetAnswered(c: Ctx, p: State, q: State, e0: set<Pair>, newPath: set<Pair>, e: set<Pair>,
                               outp: seq<Move>, outq: seq<Move>, j: nat, neq0: set<Pair>, m: Run)
    requires outp != [] && j < |outq|
  {
    && m.answer.Ok?
    && neq0 <= m.neq && (SoundPartition(c.a, c.root) && NeqSound(c.a, neq0) ==> NeqSound(c.a, m.neq))
    && MeetDone(c.ba, c.a, c.root, p, q, e0, newPath, e, outp, outq, j, m.equiv, m.answer.value, m.path,
                SoundPartition(c.a, c.root) && NeqSound(c.a, neq0))
  }

  /** In a proper context the recursive test never throws and keeps what isEquivRecursive
      promises. */
  lemma {:induction false} RecTestOutcome(c: Ctx, p: State, q: State, neq: set<Pair>, e0: set<Pair>, p0: set<Pair>)
    requires Proper(c) && p in c.a.states && q in c.a.states && PairsOfStates(c.a, e0)
    decreases Unassumed(c, e0), 2, 0, 0
    ensures RecTest(c, p, q, neq, e0, p0).answer.Ok?
    ensures RecOutcome(c.ba, c.a, c.dist, c.root, neq, RecTest(c, p, q, neq, e0, p0).neq, e0,
                       RecTest(c, p, q, neq, e0, p0).equiv, p0, RecTest(c, p, q, neq, e0, p0).path, p, q,
                       RecTest(c, p, q, neq, e0, p0).answer.value)
  {
    var pair := Normalize(c.dist, p, q);
    NormalizedPair(c.a, c.dist, p, q, {});
    if pair in neq || c.dist[p] != c.dist[q] {
      if c.dist[p] != c.dist[q] {
        DistinctDistances(c.ba, c.a, c.dist, p, q);
      }
    } else if pair in p0 {
      assert e0 - e0 - p0 == {};
    } else {
      ExploreStart(c.ba, c.a, c.root, p, q, e0, p0 + {pair});
      WalkOutcome(c, p, q, p0, e0, e0, MovesFrom(c.a.moves, p), MovesFrom(c.a.moves, q), neq, neq);
    }
  }

  /** The walk over the moves of `p` and `q`, started with its invariant, ends as
      isEquivRecursive promises. */
  lemma {:induction false} WalkOutcome(c: Ctx, p: State, q: State, p0: set<Pair>, e0: set<Pair>, e: set<Pair>,
                                       outp: seq<Move>, outq: seq<Move>, neq0: set<Pair>, neq: set<Pair>)
    requires Proper(c) && p in c.a.states && q in c.a.states && c.dist[p] == c.dist[q]
    requires Normalize(c.dist, p, q) !in p0
    requires ExploreInv(c.ba, c.a, c.root, p, q, e0, p0 + {Normalize(c.dist, p, q)}, e, outp, outq)
    requires neq0 <= neq && (SoundPartition(c.a, c.root) && NeqSound(c.a, neq0) ==> NeqSound(c.a, neq))
    decreases Unassumed(c, e), 1, GuardSize(outp), 1
    ensures WalkFn(c, Normalize(c.dist, p, q), outp, outq, neq, e, p0 + {Normalize(c.dist, p, q)}).answer.Ok?
    ensures var r := WalkFn(c, Normalize(c.dist, p, q), outp, outq, neq, e, p0 + {Normalize(c.dist, p, q)});
            RecOutcome(c.ba, c.a, c.dist, c.root, neq0, r.neq, e0, r.equiv, p0, r.path, p, q, r.answer.value)
  {
    var pair := Normalize(c.dist, p, q);
    if outp == [] || outq == [] {
      ExploreDone(c.ba, c.a, c.dist, c.root, neq0, neq, e0, e, p0, p, q, outp, outq);
      assert p0 + {pair} - {pair} == p0;
    } else {
      WalkStepOutcome(c, p, q, p0, e0, e, outp, outq, neq0, neq);
    }
  }

  /** A step of the walk: the first meeting is handled, and either fails the walk or leaves it
      with its invariant. */
  lemma {:induction false} WalkStepOutcome(c: Ctx, p: State, q: State, p0: set<Pair>, e0: set<Pair>, e: set<Pair>,
                                           outp: seq<Move>, outq: seq<Move>, neq0: set<Pair>, neq: set<Pair>)
    requires Proper(c) && p in c.a.states && q in c.a.states && c.dist[p] == c.dist[q]
    requires Normalize(c.dist, p, q) !in p0 && outp != [] && outq != []
    requires ExploreInv(c.ba, c.a, c.root, p, q, e0, p0 + {Normalize(c.dist, p, q)}, e, outp, outq)
    requires neq0 <= neq && (SoundPartition(c.a, c.root) && NeqSound(c.a, neq0) ==> NeqSound(c.a, neq))
    decreases Unassumed(c, e), 1, GuardSize(outp), 0
    ensures WalkFn(c, Normalize(c.dist, p, q), outp, outq, neq, e, p0 + {Normalize(c.dist, p, q)}).answer.Ok?
    ensures var r := WalkFn(c, Normalize(c.dist, p, q), outp, outq, neq, e, p0 + {Normalize(c.dist, p, q)});
            RecOutcome(c.ba, c.a, c.dist, c.root, neq0, r.neq, e0, r.equiv, p0, r.path, p, q, r.answer.value)
  {
    var newPath := p0 + {Normalize(c.dist, p, q)};
    MeetingExists(c.ba, outp, outq);
    var found := FirstMeeting(outp[0].guard, outq, 0);
    assert found.Some?;
    var j := found.value;
    MeetOutcome(c, p, q, e0, newPath, e, outp, outq, j, neq0, neq);
    var m := MeetFn(c, outp[0].to, outq[j].to, neq, e, newPath);
    WalkUnfold(c, Normalize(c.dist, p, q), outp, outq, neq, e, newPath, j);
    if m.answer == Ok(false) {
      ExploreFailed(c.ba, c.a, c.dist, c.root, neq0, m.neq, e0, m.equiv, p0, m.path, p, q);
    } else {
      var s := SplitStep(c.ba, outp, outq, j);
      NoMoreOutside(c.root.Values, e, m.equiv);
      SplitShrinksGuards(c.ba, outp, outq, j);
      WalkOutcome(c, p, q, p0, e0, m.equiv, s.outp, s.outq, neq0, m.neq);
    }
  }

  /** A meeting of the walk in a proper context never throws, and its recursive call, if any,
      answers as isEquivRecursive promises. */
  lemma {:induction false} MeetOutcome(c: Ctx, p: State, q: State, e0: set<Pair>, newPath: set<Pair>, e: set<Pair>,
                                       outp: seq<Move>, outq: seq<Move>, j: nat, neq0: set<Pair>, neq: set<Pair>)
    requires Proper(c) && p in c.a.states && q in c.a.states
    requires ExploreInv(c.ba, c.a, c.root, p, q, e0, newPath, e, outp, outq)
    requires outp != [] && j < |outq| && IsSatisfiable(MkAnd(outp[0].guard, outq[j].guard))
    requires neq0 <= neq && (SoundPartition(c.a, c.root) && NeqSound(c.a, neq0) ==> NeqSound(c.a, neq))
    decreases Unassumed(c, e), 0, 0, 1
    ensures MeetAnswered(c, p, q, e0, newPath, e, outp, outq, j, neq0, MeetFn(c, outp[0].to, outq[j].to, neq, e, newPath))
  {
    MoveEntersState(c.ba, c.a, p, outp, 0);
    MoveEntersState(c.ba, c.a, q, outq, j);
    var pc, qc := c.root[outp[0].to], c.root[outq[j].to];
    if pc != qc && Normalize(c.dist, pc, qc) !in e {
      ChildOutcome(c, p, q, e0, newPath, e, outp, outq, j, neq0, neq);
    } else {
      MeetKept(c.ba, c.a, c.dist, c.root, p, q, e0, newPath, e, outp, outq, j, pc, qc,
               SoundPartition(c.a, c.root) && NeqSound(c.a, neq0));
    }
  }

  /** The recursive call of a meeting on its pair of successor classes, assumed first. */
  lemma {:induction false} ChildOutcome(c: Ctx, p: State, q: State, e0: set<Pair>, newPath: set<Pair>, e: set<Pair>,
                                        outp: seq<Move>, outq: seq<Move>, j: nat, neq0: set<Pair>, neq: set<Pair>)
    requires Proper(c) && p in c.a.states && q in c.a.states
    requires ExploreInv(c.ba, c.a, c.root, p, q, e0, newPath, e, outp, outq)
    requires outp != [] && j < |outq| && IsSatisfiable(MkAnd(outp[0].guard, outq[j].guard))
    requires outp[0].to in c.a.states && outq[j].to in c.a.states
    requires c.root[outp[0].to] != c.root[outq[j].to]
    requires Normalize(c.dist, c.root[outp[0].to], c.root[outq[j].to]) !in e
    requires neq0 <= neq && (SoundPartition(c.a, c.root) && NeqSound(c.a, neq0) ==> NeqSound(c.a, neq))
    decreases Unassumed(c, e), 0, 0, 0
    ensures var pc, qc := c.root[outp[0].to], c.root[outq[j].to];
            MeetAnswered(c, p, q, e0, newPath, e, outp, outq, j, neq0,
                         RecTest(c, pc, qc, neq, e + {Normalize(c.dist, pc, qc)}, newPath))
  {
    var pc, qc := c.root[outp[0].to], c.root[outq[j].to];
    assert pc in c.root.Values && qc in c.root.Values;
    var next := Normalize(c.dist, pc, qc);
    AssumeNext(c.a, c.dist, e, pc, qc);
    OneFewerOutside(c.root.Values, e, next);
    RecTestOutcome(c, pc, qc, neq, e + {next}, newPath);
    var r := RecTest(c, pc, qc, neq, e + {next}, newPath);
    ChildAnswered(c.ba, c.a, c.dist, c.root, neq, r.neq, p, q, e0, newPath, e, r.equiv, outp, outq, j,
                  pc, qc, r.answer.value, r.path);
  }

  /** The classes of `x` and `y`, as the two calls of `find` give them, or the exception the
      first call on a state outside the partition throws. */
  method FindNextClasses(equivClasses: DisjointSets, x: State, y: State) returns (r: Result<Pair>)
    requires equivClasses.Valid()
    modifies equivClasses
    ensures equivClasses.Valid()
    ensures equivClasses.Root == old(equivClasses.Root) && equivClasses.rankMap == old(equivClasses.rankMap)
    ensures equivClasses.parentMap.Keys == old(equivClasses.parentMap.Keys)
    ensures r == if x in equivClasses.Root && y in equivClasses.Root
                 then Ok(Pair(equivClasses.Root[x], equivClasses.Root[y])) else Err(IllegalArgument)
  {
    var xFound := equivClasses.Find(x);
    if xFound.Err? {
      return Err(IllegalArgument);
    }
    var yFound := equivClasses.Find(y);
    if yFound.Err? {
      return Err(IllegalArgument);
    }
    return Ok(Pair(xFound.value, yFound.value));
  }

  class EquivTestRecursive {
    const outer: IncrementalMinimization
    const equivClasses: DisjointSets
    /** Pairs assumed equivalent by this test. */
    var equiv: set<Pair>
    /** Pairs on the chain of calls that are still open, and after a failure the chain that
        led to it. */
    var path: set<Pair>

    constructor (outer: IncrementalMinimization, equivClasses: DisjointSets, equiv: set<Pair>, path: set<Pair>)
      ensures this.outer == outer && this.equivClasses == equivClasses
      ensures this.equiv == equiv && this.path == path
    {
      this.outer := outer;
      this.equivClasses := equivClasses;
      this.equiv := equiv;
      this.path := path;
    }

    ghost predicate Valid()
      reads equivClasses
    {
      outer.Valid() && equivClasses.Valid() && Identifies(outer.aut, equivClasses.Root)
    }

    /** The context of a test over the classes `root`. */
    ghost function Context(root: map<State, State>): Ctx
    {
      Ctx(outer.ba, outer.aut, outer.distanceToFinalMap, root)
    }

    /** isEquiv: the recursive test from the start pair, with the test's pair sets; it never
        throws on a valid automaton and partition. */
    method IsEquiv(pStart: State, qStart: State) returns (r: bool)
      requires Valid() && pStart in outer.aut.states && qStart in outer.aut.states
      requires PairsOfStates(outer.aut, equiv)
      modifies this, outer, equivClasses
      ensures Valid()
      ensures equivClasses.Root == old(equivClasses.Root) && equivClasses.rankMap == old(equivClasses.rankMap)
      ensures equivClasses.parentMap.Keys == old(equivClasses.parentMap.Keys)
      ensures RecOutcome(outer.ba, outer.aut, outer.distanceToFinalMap, equivClasses.Root, old(outer.neq), outer.neq,
                         old(equiv), equiv, old(path), path, pStart, qStart, r)
    {
      assert Proper(Context(equivClasses.Root));
      RecTestOutcome(Context(equivClasses.Root), pStart, qStart, outer.neq, equiv, path);
      var res, e, p := IsEquivRecursive(pStart, qStart, equivClasses.Root, equiv, path);
      r := res.value;
      SetPairs(e, p);
    }

    method SetPairs(e: set<Pair>, p: set<Pair>)
      modifies this
      ensures equiv == e && path == p
    {
      equiv, path := e, p;
    }

    /** isEquivRecursive on `p` and `q` with the pairs `e0` assumed and the path `p0`, as
        `RecTest` describes it. */
    method IsEquivRecursive(p: State, q: State, ghost root: map<State, State>, e0: set<Pair>, p0: set<Pair>)
      returns (r: Result<bool>, e: set<Pair>, pth: set<Pair>)
      requires outer.Valid() && equivClasses.Valid() && equivClasses.Root == root && CtxOK(Context(root))
      requires p in outer.aut.states && q in outer.aut.states
      modifies outer, equivClasses
      decreases Unassumed(Context(root), e0), 2, 0
      ensures equivClasses.Valid() && equivClasses.Root == root
      ensures equivClasses.rankMap == old(equivClasses.rankMap)
      ensures equivClasses.parentMap.Keys == old(equivClasses.parentMap.Keys)
      ensures Run(r, outer.neq, e, pth) == RecTest(Context(root), p, q, old(outer.neq), e0, p0)
    {
      var known := outer.IsKnownNotEqual(p, q);
      if known {
        return Ok(false), e0, p0;
      }
      var pair := Normalize(outer.distanceToFinalMap, p, q);
      if pair in p0 {
        return Ok(true), e0, p0;
      }
      r, e, pth := Explore(pair, MovesFrom(outer.aut.moves, p), MovesFrom(outer.aut.moves, q), root, e0, p0 + {pair});
    }

    /** The loop of isEquivRecursive over the moves `outp0` and `outq0` of `pair`, the path
        `path0` holding the pair, as `WalkFn` describes it. */
    method Explore(pair: Pair, outp0: seq<Move>, outq0: seq<Move>, ghost root: map<State, State>,
                   e0: set<Pair>, path0: set<Pair>)
      returns (r: Result<bool>, e: set<Pair>, pth: set<Pair>)
      requires outer.Valid() && equivClasses.Valid() && equivClasses.Root == root && CtxOK(Context(root))
      modifies outer, equivClasses
      decreases Unassumed(Context(root), e0), 1, GuardSize(outp0)
      ensures equivClasses.Valid() && equivClasses.Root == root
      ensures equivClasses.rankMap == old(equivClasses.rankMap)
      ensures equivClasses.parentMap.Keys == old(equivClasses.parentMap.Keys)
      ensures Run(r, outer.neq, e, pth) == WalkFn(Context(root), pair, outp0, outq0, old(outer.neq), e0, path0)
    {
      ghost var c := Context(root);
      var outp, outq := outp0, outq0;
      e, pth := e0, path0;
      while outp != [] && outq != []
        invariant equivClasses.Valid() && equivClasses.Root == root
        invariant equivClasses.rankMap == old(equivClasses.rankMap)
        invariant equivClasses.parentMap.Keys == old(equivClasses.parentMap.Keys)
        invariant e0 <= e
        invariant WalkFn(c, pair, outp, outq, outer.neq, e, pth) == WalkFn(c, pair, outp0, outq0, old(outer.neq), e0, path0)
        decreases Unassumed(c, e), GuardSize(outp)
      {
        var found := FindNonDisjointMoves(outp, outq);
        if found.None? {
          return Err(NoOverlappingMove), e, pth;
        }
        var j := found.value;
        NoMoreOutside(root.Values, e0, e);
        var ok, e', pth' := Meet(outp[0].to, outq[j].to, root, e, pth);
        if ok != Ok(true) {
          return ok, e', pth';
        }
        NoMoreOutside(root.Values, e, e');
        SplitShrinksGuards(outer.ba, outp, outq, j);
        var split := SplitStep(outer.ba, outp, outq, j);
        outp, outq, e, pth := split.outp, split.outq, e', pth';
      }
      r, e, pth := Ok(true), e + {pair}, pth - {pair};
    }

    /** One meeting of the walk, into the states `x` and `y`, as `MeetFn` describes it. */
    method Meet(x: State, y: State, ghost root: map<State, State>, e: set<Pair>, pth: set<Pair>)
      returns (r: Result<bool>, e': set<Pair>, pth': set<Pair>)
      requires outer.Valid() && equivClasses.Valid() && equivClasses.Root == root && CtxOK(Context(root))
      modifies outer, equivClasses
      decreases Unassumed(Context(root), e), 0, 0
      ensures equivClasses.Valid() && equivClasses.Root == root
      ensures equivClasses.rankMap == old(equivClasses.rankMap)
      ensures equivClasses.parentMap.Keys == old(equivClasses.parentMap.Keys)
      ensures Run(r, outer.neq, e', pth') == MeetFn(Context(root), x, y, old(outer.neq), e, pth)
    {
      var classes := FindNextClasses(equivClasses, x, y);
      if classes.Err? {
        return Err(IllegalArgument), e, pth;
      }
      var pNextClass, qNextClass := classes.value.fst, classes.value.snd;
      assert pNextClass in root.Values && qNextClass in root.Values;
      var nextPair := Normalize(outer.distanceToFinalMap, pNextClass, qNextClass);
      if pNextClass != qNextClass && nextPair !in e {
        OneFewerOutside(root.Values, e, nextPair);
        r, e', pth' := IsEquivRecursive(pNextClass, qNextClass, root, e + {nextPair}, pth);
      } else {
        r, e', pth' := Ok(true), e, pth;
      }
    }
  }

  /** makeEquivTest of IncrementalRecursive: a recursive test over the current classes with
      empty pair sets. */
  method MakeRecursiveTest(outer: IncrementalMinimization, equivClasses: DisjointSets)
    returns (t: EquivTestRecursive)
    requires outer.Valid()
    ensures fresh(t) && t.outer == outer && t.equivClasses == equivClasses
    ensures t.equiv == {} && t.path == {}
  {
    var equiv := NewPairSet(outer.numPairs);
    var path := NewPairSet(outer.numPairs);
    t := new EquivTestRecursive(outer, equivClasses, equiv.value, path.value);
  }
}
