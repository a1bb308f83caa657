/**
 * The recursive equivalence test of the older IncrementalMinimization.java (default package). It
 * is the recursive test of IncrementalRecursive except for the path: a call that succeeds leaves
 * its own pair on the path, and the caller takes the pair of successor classes off the path
 * after every successful call. The two tests give the same answers and leave the same cache and
 * assumed pairs; their paths differ only in assumed pairs, and after a failure the older path is
 * part of the newer one. So a fresh older test promises what the driver relies on.
 */
module OlderRecursive {
  import opened Base
  import opened Sfa
  import opened UnionFind
  import opened Distance
  import opened StateOrder
  import opened Splitting
  import opened Equivalence
  import opened Walk
  import opened Incremental
  import opened Recursive

  /** isEquiv of the older EquivTestRecursive on `p` and `q`: a pair known inequivalent fails, a
      pair on the path succeeds, and any other pair joins the path and its moves are walked. */
  ghost function OldRec(c: Ctx, p: State, q: State, neq: set<Pair>, equiv: set<Pair>, path: set<Pair>): (r: Run)
    requires CtxOK(c) && p in c.dist && q in c.dist
    decreases Unassumed(c, equiv), 2, 0
    ensures equiv <= r.equiv
  {
    var pair := Normalize(c.dist, p, q);
    if pair in neq || c.dist[p] != c.dist[q] then Run(Ok(false), neq + {pair}, equiv, path)
    else if pair in path then Run(Ok(true), neq, equiv, path)
    else OldWalk(c, pair, MovesFrom(c.a.moves, p), MovesFrom(c.a.moves, q), neq, equiv, path + {pair})
  }

  /** The loop over the remaining moves of `pair`: once either list is empty the pair is assumed
      and stays on the path; otherwise the first meeting is handled and the walk goes on with the
      residual guards. */
  ghost function OldWalk(c: Ctx, pair: Pair, outp: seq<Move>, outq: seq<Move>,
                         neq: set<Pair>, equiv: set<Pair>, path: set<Pair>): (r: Run)
    requires CtxOK(c)
    decreases Unassumed(c, equiv), 1, GuardSize(outp)
    ensures equiv <= r.equiv
  {
    if outp == [] || outq == [] then Run(Ok(true), neq, equiv + {pair}, path)
    else
      var found := FirstMeeting(outp[0].guard, outq, 0);
      if found.None? then Run(Err(NoOverlappingMove), neq, equiv, path)
      else
        var m := OldMeet(c, outp[0].to, outq[found.value].to, neq, equiv, path);
        if m.answer != Ok(true) then m
        else
          var s := SplitStep(c.ba, outp, outq, found.value);
          NoMoreOutside(c.root.Values, equiv, m.equiv);
          SplitShrinksGuards(c.ba, outp, outq, found.value);
          OldWalk(c, pair, s.outp, s.outq, m.neq, m.equiv, m.path)
  }

  /** A meeting into `x` and `y`: a pair of distinct classes not yet assumed is assumed and
      tested by a recursive call, and taken off the path when that call succeeds. */
  ghost function OldMeet(c: Ctx, x: State, y: State, neq: set<Pair>, equiv: set<Pair>, path: set<Pair>): (r: Run)
    requires CtxOK(c)
    decreases Unassumed(c, equiv), 0, 0
    ensures equiv <= r.equiv
  {
    if x !in c.root || y !in c.root then Run(Err(IllegalArgument), neq, equiv, path)
    else
      var pc, qc := c.root[x], c.root[y];
      assert pc in c.root.Values && qc in c.root.Values;
      var next := Normalize(c.dist, pc, qc);
      if pc != qc && next !in equiv then
        OneFewerOutside(c.root.Values, equiv, next);
        var m := OldRec(c, pc, qc, neq, equiv + {next}, path);
        if m.answer == Ok(true) then Run(Ok(true), m.neq, m.equiv, m.path - {next}) else m
      else Run(Ok(true), neq, equiv, path)
  }

  /** One step of `OldWalk` on lists that are not empty and meet at `j`. */
  lemma OldWalkUnfold(c: Ctx, pair: Pair, outp: seq<Move>, outq: seq<Move>,
                      neq: set<Pair>, equiv: set<Pair>, path: set<Pair>, j: nat)
    requires CtxOK(c) && outp != [] && outq != [] && FirstMeeting(outp[0].guard, outq, 0) == Some(j)
    ensures var m := OldMeet(c, outp[0].to, outq[j].to, neq, equiv, path);
            var s := SplitStep(c.ba, outp, outq, j);
            OldWalk(c, pair, outp, outq, neq, equiv, path)
              == if m.answer != Ok(true) then m else OldWalk(c, pair, s.outp, s.outq, m.neq, m.equiv, m.path)
  {
  }

  /** The older path `po` and the newer path `pn`: the older is part of the newer, and every
      pair only the newer holds is assumed. */
  ghost predicate PathsAgree(po: set<Pair>, pn: set<Pair>, e: set<Pair>)
  {
    po <= pn && pn - po <= e
  }

  /** The older test runs as the newer one from agreeing paths: same answer, cache and assumed
      pairs; the paths still agree, except that on success the older one may keep the tested
      pair. */
  lemma {:induction false} OldRecSim(c: Ctx, p: State, q: State, neq: set<Pair>, equiv: set<Pair>,
                                     po: set<Pair>, pn: set<Pair>)
    requires CtxOK(c) && p in c.dist && q in c.dist
    requires PathsAgree(po, pn, equiv) && (Normalize(c.dist, p, q) in pn ==> Normalize(c.dist, p, q) in po)
    decreases Unassumed(c, equiv), 2, 0
    ensures var o, n := OldRec(c, p, q, neq, equiv, po), RecTest(c, p, q, neq, equiv, pn);
            && o.answer == n.answer && o.neq == n.neq && o.equiv == n.equiv
            && o.path <= n.path + (if n.answer == Ok(true) then {Normalize(c.dist, p, q)} else {})
            && n.path - o.path <= o.equiv
  {
    var pair := Normalize(c.dist, p, q);
    if !(pair in neq || c.dist[p] != c.dist[q]) && pair !in pn {
      OldWalkSim(c, pair, MovesFrom(c.a.moves, p), MovesFrom(c.a.moves, q), neq, equiv, po + {pair}, pn + {pair});
    }
  }

  lemma {:induction false} OldWalkSim(c: Ctx, pair: Pair, outp: seq<Move>, outq: seq<Move>,
                                      neq: set<Pair>, equiv: set<Pair>, po: set<Pair>, pn: set<Pair>)
    requires CtxOK(c) && PathsAgree(po, pn, equiv)
    decreases Unassumed(c, equiv), 1, GuardSize(outp)
    ensures var o, n := OldWalk(c, pair, outp, outq, neq, equiv, po), WalkFn(c, pair, outp, outq, neq, equiv, pn);
            && o.answer == n.answer && o.neq == n.neq && o.equiv == n.equiv
            && o.path <= n.path + (if n.answer == Ok(true) then {pair} else {})
            && n.path - o.path <= o.equiv
  {
    if outp != [] && outq != [] {
      var found := FirstMeeting(outp[0].guard, outq, 0);
      if found.Some? {
        var j := found.value;
        OldMeetSim(c, outp[0].to, outq[j].to, neq, equiv, po, pn);
        WalkUnfold(c, pair, outp, outq, neq, equiv, pn, j);
        OldWalkUnfold(c, pair, outp, outq, neq, equiv, po, j);
        var m := OldMeet(c, outp[0].to, outq[j].to, neq, equiv, po);
        var mn := MeetFn(c, outp[0].to, outq[j].to, neq, equiv, pn);
        if m.answer == Ok(true) {
          var s := SplitStep(c.ba, outp, outq, j);
          NoMoreOutside(c.root.Values, equiv, m.equiv);
          SplitShrinksGuards(c.ba, outp, outq, j);
          OldWalkSim(c, pair, s.outp, s.outq, m.neq, m.equiv, m.path, mn.path);
        }
      }
    }
  }

  lemma {:induction false} OldMeetSim(c: Ctx, x: State, y: State, neq: set<Pair>, equiv: set<Pair>,
                                      po: set<Pair>, pn: set<Pair>)
    requires CtxOK(c) && PathsAgree(po, pn, equiv)
    decreases Unassumed(c, equiv), 0, 0
    ensures var o, n := OldMeet(c, x, y, neq, equiv, po), MeetFn(c, x, y, neq, equiv, pn);
            && o.answer == n.answer && o.neq == n.neq && o.equiv == n.equiv
            && PathsAgree(o.path, n.path, o.equiv)
  {
    if x in c.root && y in c.root {
      var pc, qc := c.root[x], c.root[y];
      assert pc in c.root.Values && qc in c.root.Values;
      var next := Normalize(c.dist, pc, qc);
      if pc != qc && next !in equiv {
        OneFewerOutside(c.root.Values, equiv, next);
        OldRecSim(c, pc, qc, neq, equiv + {next}, po, pn);
      }
    }
  }

  /** What a fresh test of the older driver promises of a call on `x` and `y` that took the cache
      from `neq0` to `neq` and the assumed pairs from `e0` to `e`, leaving the path `p`. On `true`
      the path holds at most the start pair, the start pair is assumed and every newly assumed
      pair is closed up to the assumed pairs. Under a sound partition and cache, the cache stays
      sound and on `false` the two states and every pair of the path are inequivalent. */
  ghost predicate OlderOutcome(ba: Algebra, a: Automaton, dist: map<State, int>, root: map<State, State>,
                               neq0: set<Pair>, neq: set<Pair>, e0: set<Pair>, e: set<Pair>,
                               p: set<Pair>, x: State, y: State, r: bool)
  {
    && x in dist && y in dist
    && e0 <= e && neq0 <= neq
    && (r ==> p <= {Normalize(dist, x, y)} && Normalize(dist, x, y) in e && AllClosed(ba, a, root, e - e0, e))
    && (SoundPartition(a, root) && NeqSound(a, neq0) ==>
          && NeqSound(a, neq)
          && (!r ==> !Equivalent(a, x, y) && forall pr :: pr in p ==> !Equivalent(a, pr.fst, pr.snd)))
  }

  /** In a proper context the older test from an empty path never throws and keeps
      `OlderOutcome`. */
  lemma OldRecOutcome(c: Ctx, p: State, q: State, neq: set<Pair>, e0: set<Pair>)
    requires Proper(c) && p in c.a.states && q in c.a.states && PairsOfStates(c.a, e0)
    ensures OldRec(c, p, q, neq, e0, {}).answer.Ok?
    ensures var o := OldRec(c, p, q, neq, e0, {});
            OlderOutcome(c.ba, c.a, c.dist, c.root, neq, o.neq, e0, o.equiv, o.path, p, q, o.answer.value)
  {
    RecTestOutcome(c, p, q, neq, e0, {});
    OldRecSim(c, p, q, neq, e0, {}, {});
    var n := RecTest(c, p, q, neq, e0, {});
    assert n.equiv - e0 - {} == n.equiv - e0 && n.equiv + {} == n.equiv;
    assert n.path - {} == n.path;
  }

  /** In a proper context the older test never throws, and from an empty path it keeps
      `OlderOutcome`. */
  lemma OldRecAnswers(c: Ctx, p: State, q: State, neq: set<Pair>, e0: set<Pair>, p0: set<Pair>)
    requires Proper(c) && p in c.a.states && q in c.a.states && PairsOfStates(c.a, e0)
    ensures OldRec(c, p, q, neq, e0, p0).answer.Ok?
    ensures var o := OldRec(c, p, q, neq, e0, p0);
            p0 == {} ==> OlderOutcome(c.ba, c.a, c.dist, c.root, neq, o.neq, e0, o.equiv, o.path, p, q, o.answer.value)
  {
    RecTestOutcome(c, p, q, neq, e0, p0);
    OldRecSim(c, p, q, neq, e0, p0, p0);
    if p0 == {} {
      OldRecOutcome(c, p, q, neq, e0);
    }
  }

  class OlderEquivTestRecursive {
    const outer: IncrementalMinimization
    const equivClasses: DisjointSets
    /** Pairs assumed equivalent by this test. */
    var equiv: set<Pair>
    /** Pairs of the calls still open, and after a failure the chain that led to it. */
    var path: set<Pair>

    constructor (outer: IncrementalMinimization, equivClasses: DisjointSets, equiv: set<Pair>, path: set<Pair>)
      ensures this.outer == outer && this.equivClasses == equivClasses
      ensures this.equiv == equiv && this.path == path
    {
      this.outer := outer;
      this.equivClasses := equivClasses;
      this.equiv := equiv;
      this.path := path;
    }

    ghost predicate Valid()
      reads equivClasses
    {
      outer.Valid() && equivClasses.Valid() && Identifies(outer.aut, equivClasses.Root)
    }

    /** The context of a test over the classes `root`. */
    ghost function Context(root: map<State, State>): Ctx
    {
      Ctx(outer.ba, outer.aut, outer.distanceToFinalMap, root)
    }

    /** isEquiv as the driver calls it: it runs as `OldRec` describes, never throws on a valid
        automaton and partition, and from an empty path keeps `OlderOutcome`. */
    method IsEquiv(pStart: State, qStart: State) returns (r: bool)
      requires Valid() && pStart in outer.aut.states && qStart in outer.aut.states
      requires PairsOfStates(outer.aut, equiv)
      modifies this, outer, equivClasses
      ensures Valid()
      ensures equivClasses.Root == old(equivClasses.Root) && equivClasses.rankMap == old(equivClasses.rankMap)
      ensures equivClasses.parentMap.Keys == old(equivClasses.parentMap.Keys)
      ensures Run(Ok(r), outer.neq, equiv, path)
                == OldRec(Context(equivClasses.Root), pStart, qStart, old(outer.neq), old(equiv), old(path))
      ensures old(path) == {} ==>
                OlderOutcome(outer.ba, outer.aut, outer.distanceToFinalMap, equivClasses.Root, old(outer.neq),
                             outer.neq, old(equiv), equiv, path, pStart, qStart, r)
    {
      assert Proper(Context(equivClasses.Root));
      OldRecAnswers(Context(equivClasses.Root), pStart, qStart, outer.neq, equiv, path);
      var res, e, p := Descend(pStart, qStart, equivClasses.Root, equiv, path);
      r := res.value;
      SetPairs(e, p);
    }

    method SetPairs(e: set<Pair>, p: set<Pair>)
      modifies this
      ensures equiv == e && path == p
    {
      equiv, path := e, p;
    }

    /** The recursive isEquiv on `p` and `q` with the pairs `e0` assumed and the path `p0`, the
        two sets threaded through the calls. */
    method Descend(p: State, q: State, ghost root: map<State, State>, e0: set<Pair>, p0: set<Pair>)
      returns (r: Result<bool>, e: set<Pair>, pth: set<Pair>)
      requires outer.Valid() && equivClasses.Valid() && equivClasses.Root == root && CtxOK(Context(root))
      requires p in outer.aut.states && q in outer.aut.states
      modifies outer, equivClasses
      decreases Unassumed(Context(root), e0), 2, 0
      ensures equivClasses.Valid() && equivClasses.Root == root
      ensures equivClasses.rankMap == old(equivClasses.rankMap)
      ensures equivClasses.parentMap.Keys == old(equivClasses.parentMap.Keys)
      ensures Run(r, outer.neq, e, pth) == OldRec(Context(root), p, q, old(outer.neq), e0, p0)
    {
      var known := outer.IsKnownNotEqual(p, q);
      if known {
        return Ok(false), e0, p0;
      }
      var pair := Normalize(outer.distanceToFinalMap, p, q);
      if pair in p0 {
        return Ok(true), e0, p0;
      }
      r, e, pth := Explore(pair, MovesFrom(outer.aut.moves, p), MovesFrom(outer.aut.moves, q), root, e0, p0 + {pair});
    }

    /** The loop over the moves `outp0` and `outq0` of `pair`, as `OldWalk` describes it. */
    method Explore(pair: Pair, outp0: seq<Move>, outq0: seq<Move>, ghost root: map<State, State>,
                   e0: set<Pair>, path0: set<Pair>)
      returns (r: Result<bool>, e: set<Pair>, pth: set<Pair>)
      requires outer.Valid() && equivClasses.Valid() && equivClasses.Root == root && CtxOK(Context(root))
      modifies outer, equivClasses
      decreases Unassumed(Context(root), e0), 1, GuardSize(outp0)
      ensures equivClasses.Valid() && equivClasses.Root == root
      ensures equivClasses.rankMap == old(equivClasses.rankMap)
      ensures equivClasses.parentMap.Keys == old(equivClasses.parentMap.Keys)
      ensures Run(r, outer.neq, e, pth) == OldWalk(Context(root), pair, outp0, outq0, old(outer.neq), e0, path0)
    {
      ghost var c := Context(root);
      var outp, outq := outp0, outq0;
      e, pth := e0, path0;
      while outp != [] && outq != []
        invariant equivClasses.Valid() && equivClasses.Root == root
        invariant equivClasses.rankMap == old(equivClasses.rankMap)
        invariant equivClasses.parentMap.Keys == old(equivClasses.parentMap.Keys)
        invariant e0 <= e
        invariant OldWalk(c, pair, outp, outq, outer.neq, e, pth) == OldWalk(c, pair, outp0, outq0, old(outer.neq), e0, path0)
        decreases Unassumed(c, e), GuardSize(outp)
      {
        var found := FindNonDisjointMoves(outp, outq);
        if found.None? {
          return Err(NoOverlappingMove), e, pth;
        }
        var j := found.value;
        NoMoreOutside(root.Values, e0, e);
        var ok, e', pth' := Meet(outp[0].to, outq[j].to, root, e, pth);
        if ok != Ok(true) {
          return ok, e', pth';
        }
        NoMoreOutside(root.Values, e, e');
        SplitShrinksGuards(outer.ba, outp, outq, j);
        var split := SplitStep(outer.ba, outp, outq, j);
        outp, outq, e, pth := split.outp, split.outq, e', pth';
      }
      r, e := Ok(true), e + {pair};
    }

    /** One meeting of the walk, into the states `x` and `y`, as `OldMeet` describes it. */
    method Meet(x: State, y: State, ghost root: map<State, State>, e: set<Pair>, pth: set<Pair>)
      returns (r: Result<bool>, e': set<Pair>, pth': set<Pair>)
      requires outer.Valid() && equivClasses.Valid() && equivClasses.Root == root && CtxOK(Context(root))
      modifies outer, equivClasses
      decreases Unassumed(Context(root), e), 0, 0
      ensures equivClasses.Valid() && equivClasses.Root == root
      ensures equivClasses.rankMap == old(equivClasses.rankMap)
      ensures equivClasses.parentMap.Keys == old(equivClasses.parentMap.Keys)
      ensures Run(r, outer.neq, e', pth') == OldMeet(Context(root), x, y, old(outer.neq), e, pth)
    {
      var classes := FindNextClasses(equivClasses, x, y);
      if classes.Err? {
        return Err(IllegalArgument), e, pth;
      }
      var pNextClass, qNextClass := classes.value.fst, classes.value.snd;
      assert pNextClass in root.Values && qNextClass in root.Values;
      var nextPair := Normalize(outer.distanceToFinalMap, pNextClass, qNextClass);
      if pNextClass != qNextClass && nextPair !in e {
        OneFewerOutside(root.Values, e, nextPair);
        r, e', pth' := Descend(pNextClass, qNextClass, root, e + {nextPair}, pth);
        if r == Ok(true) {
          pth' := pth' - {nextPair};
        }
      } else {
        r, e', pth' := Ok(true), e, pth;
      }
    }
  }
}
