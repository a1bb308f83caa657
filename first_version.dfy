// The first version of the algorithm, in Main.java: a recursive equivalence test over a
// not-equal cache seeded with every pair of a final and a non-final state (no distances to the
// final states), and a driver that scans every pair of states in identifier order.

module FirstVersion {
  import opened Base
  import opened Sfa
  import opened UnionFind
  import opened StateOrder
  import opened Splitting
  import opened Equivalence
  import opened Walk
  import opened Merging
  import opened Scan
  import opened Incremental
  import opened Recursive
  import opened OlderRecursive
  import opened Seeding

  // ---------------------------------------------------------------------------------------------
  // The test as a function of what it reads.
  // ---------------------------------------------------------------------------------------------

  /** What the test reads and never changes: the algebra, the automaton and the identifiers of
      the current classes. */
  datatype Setting = Setting(ba: Algebra, a: Automaton, root: map<State, State>)

  /** Where a call of the test leaves things: its answer or the exception it throws, the pairs
      assumed equivalent and the path. The not-equal cache is only read. */
  datatype TestRun = TestRun(answer: Result<bool>, equiv: set<Pair>, path: set<Pair>)

  /** The pairs of class identifiers not yet assumed equivalent: every recursive call assumes
      one more, which bounds the depth of the recursion. */
  ghost function Remaining(c: Setting, e: set<Pair>): nat
  {
    |AllPairs(c.root.Values) - e|
  }

  /** The key under which a call on `p` and `q` looks its pair up in the cache and the path and
      stores it in the path and the assumed pairs: in argument order as written, by identifier
      when corrected. */
  function Key(p: State, q: State, asWritten: bool): (r: Pair)
    ensures r == Pair(p, q) || r == Pair(q, p)
    ensures !asWritten ==> r.fst <= r.snd
  {
    if asWritten then Pair(p, q) else NormalizeById(p, q)
  }

  /** isEquiv on `p` and `q` with the cache `neq`, the assumed pairs `equiv` and the path
      `path`: a pair in the cache fails, a pair on the path succeeds, and any other pair joins
      the path and its moves are walked. */
  ghost function Test(c: Setting, p: State, q: State, neq: set<Pair>, equiv: set<Pair>, path: set<Pair>,
                      asWritten: bool): (r: TestRun)
    decreases Remaining(c, equiv), 2, 0
    ensures equiv <= r.equiv
  {
    var pair := Key(p, q, asWritten);
    if pair in neq then TestRun(Ok(false), equiv, path)
    else if pair in path then TestRun(Ok(true), equiv, path)
    else WalkMoves(c, pair, MovesFrom(c.a.moves, p), MovesFrom(c.a.moves, q), neq, equiv, path + {pair}, asWritten)
  }

  /** The loop of isEquiv over the remaining moves `outp` and `outq` of `pair`: once either list
      is empty the pair is assumed, and stays on the path; otherwise the first meeting is
      handled and, unless that fails, the walk goes on with the parts of the two guards the
      other one missed. With no meeting the source reads element 0 of a null list. */
  ghost function WalkMoves(c: Setting, pair: Pair, outp: seq<Move>, outq: seq<Move>, neq: set<Pair>,
                           equiv: set<Pair>, path: set<Pair>, asWritten: bool): (r: TestRun)
    decreases Remaining(c, equiv), 1, GuardSize(outp)
    ensures equiv <= r.equiv
  {
    if outp == [] || outq == [] then TestRun(Ok(true), equiv + {pair}, path)
    else
      var found := FirstMeeting(outp[0].guard, outq, 0);
      if found.None? then TestRun(Err(NoOverlappingMove), equiv, path)
      else
        var m := MeetMoves(c, outp[0].to, outq[found.value].to, neq, equiv, path, asWritten);
        if m.answer != Ok(true) then m
        else
          var s := SplitStep(c.ba, outp, outq, found.value);
          NoMoreOutside(c.root.Values, equiv, m.equiv);
          SplitShrinksGuards(c.ba, outp, outq, found.value);
          WalkMoves(c, pair, s.outp, s.outq, neq, m.equiv, m.path, asWritten)
  }

  /** A meeting of moves into `x` and `y`: `find` throws on a state outside the partition; the
      pair of their classes, ordered by identifier, is assumed when the classes differ and it
      is not assumed yet, and the classes are tested, in the order `find` gives them; on
      success that ordered pair leaves the path. */
  ghost function MeetMoves(c: Setting, x: State, y: State, neq: set<Pair>, equiv: set<Pair>, path: set<Pair>,
                           asWritten: bool): (r: TestRun)
    decreases Remaining(c, equiv), 0, 0
    ensures equiv <= r.equiv
  {
    if x !in c.root || y !in c.root then TestRun(Err(IllegalArgument), equiv, path)
    else
      var pc, qc := c.root[x], c.root[y];
      assert pc in c.root.Values && qc in c.root.Values;
      var next := NormalizeById(pc, qc);
      if pc != qc && next !in equiv then
        OneFewerOutside(c.root.Values, equiv, next);
        var m := Test(c, pc, qc, neq, equiv + {next}, path, asWritten);
        if m.answer == Ok(true) then TestRun(Ok(true), m.equiv, m.path - {next}) else m
      else TestRun(Ok(true), equiv, path)
  }

  /** One step of `WalkMoves` on lists that are not empty and meet at `j`. */
  lemma WalkMovesUnfold(c: Setting, pair: Pair, outp: seq<Move>, outq: seq<Move>, neq: set<Pair>,
                        equiv: set<Pair>, path: set<Pair>, asWritten: bool, j: nat)
    requires outp != [] && outq != [] && FirstMeeting(outp[0].guard, outq, 0) == Some(j)
    ensures var m := MeetMoves(c, outp[0].to, outq[j].to, neq, equiv, path, asWritten);
            var s := SplitStep(c.ba, outp, outq, j);
            WalkMoves(c, pair, outp, outq, neq, equiv, path, asWritten)
              == if m.answer != Ok(true) then m else WalkMoves(c, pair, s.outp, s.outq, neq, m.equiv, m.path, asWritten)
  {
  }

  // ---------------------------------------------------------------------------------------------
  // What the corrected test promises.
  // ---------------------------------------------------------------------------------------------

  /** The automaton is valid and the classes are identified by their members. */
  ghost predicate ProperSetting(c: Setting)
  {
    ValidAutomaton(c.ba, c.a) && Identifies(c.a, c.root)
  }

  /** What a call on `x` and `y` promises, the assumed pairs going from `e0` to `e` and the path
      ending as `p`; `stack` holds the pairs of the calls in progress, which the path also
      holds, apart from pairs assumed since. On `true` the path and the stack with the call's
      pair differ only by assumed pairs; that pair is on the stack, or is assumed with `x` and
      `y` both final or both not and closed up to the assumed pairs and the stack, and so is
      every pair newly assumed and not on the stack. Under a sound partition and cache, `false`
      shows `x` and `y`, and every pair of the path off the stack, inequivalent. */
  ghost predicate FirstOutcome(ba: Algebra, a: Automaton, root: map<State, State>, neq: set<Pair>,
                               e0: set<Pair>, e: set<Pair>, stack: set<Pair>, p: set<Pair>, x: State, y: State,
                               r: bool)
  {
    && e0 <= e && PairsOfStates(a, e)
    && (r ==> && PathsAgree(p, stack + {NormalizeById(x, y)}, e)
              && (|| NormalizeById(x, y) in stack
                  || (&& NormalizeById(x, y) in e && (x in a.finals <==> y in a.finals)
                      && Closed(ba, a, root, x, y, e + stack)))
              && AllClosed(ba, a, root, e - e0 - stack, e + stack))
    && (SoundPartition(a, root) && NeqSound(a, neq) && !r ==>
          && !Equivalent(a, x, y)
          && forall pr :: pr in p - stack ==> !Equivalent(a, pr.fst, pr.snd))
  }

  /** In a proper setting with the seeded pairs in the cache the corrected test never throws,
      and it keeps what `FirstOutcome` describes. With an empty stack and path, `true` leaves
      every assumed pair closed, so equivalent, and `false` leaves every path pair
      inequivalent. */
  lemma {:induction false} TestOutcome(c: Setting, x: State, y: State, neq: set<Pair>, e0: set<Pair>,
                                       po: set<Pair>, stack: set<Pair>)
    requires ProperSetting(c) && x in c.a.states && y in c.a.states && PairsOfStates(c.a, e0)
    requires Seed(c.a) <= neq
    requires PathsAgree(po, stack, e0) && (NormalizeById(x, y) in stack ==> NormalizeById(x, y) in po)
    decreases Remaining(c, e0), 2, 0, 0
    ensures Test(c, x, y, neq, e0, po, false).answer.Ok?
    ensures var r := Test(c, x, y, neq, e0, po, false);
            FirstOutcome(c.ba, c.a, c.root, neq, e0, r.equiv, stack, r.path, x, y, r.answer.value)
  {
    var pair := NormalizeById(x, y);
    NormalizedByIdPair(c.a, x, y, {});
    if pair in neq {
    } else if pair in po {
      assert e0 - e0 - stack == {};
    } else {
      SeedSeparates(c.a, neq, x, y);
      ExploreStart(c.ba, c.a, c.root, x, y, e0, stack + {pair});
      WalkOutcome(c, x, y, neq, e0, stack, e0, MovesFrom(c.a.moves, x), MovesFrom(c.a.moves, y), po + {pair});
    }
  }

  /** The walk over the moves of `x` and `y`, started with its invariant, ends as the test
      promises. */
  lemma {:induction false} WalkOutcome(c: Setting, x: State, y: State, neq: set<Pair>, e0: set<Pair>,
                                       stack: set<Pair>, e: set<Pair>, outp: seq<Move>, outq: seq<Move>,
                                       path: set<Pair>)
    requires ProperSetting(c) && x in c.a.states && y in c.a.states && Seed(c.a) <= neq
    requires NormalizeById(x, y) !in stack && (x in c.a.finals <==> y in c.a.finals)
    requires ExploreInv(c.ba, c.a, c.root, x, y, e0, stack + {NormalizeById(x, y)}, e, outp, outq)
    requires PathsAgree(path, stack + {NormalizeById(x, y)}, e)
    decreases Remaining(c, e), 1, GuardSize(outp), 1
    ensures WalkMoves(c, NormalizeById(x, y), outp, outq, neq, e, path, false).answer.Ok?
    ensures var r := WalkMoves(c, NormalizeById(x, y), outp, outq, neq, e, path, false);
            FirstOutcome(c.ba, c.a, c.root, neq, e0, r.equiv, stack, r.path, x, y, r.answer.value)
  {
    if outp == [] || outq == [] {
      WalkDone(c.ba, c.a, c.root, neq, e0, e, stack, path, x, y, outp, outq);
    } else {
      WalkStepOutcome(c, x, y, neq, e0, stack, e, outp, outq, path);
    }
  }

  /** A walk that ran out of moves: the pair is closed, and assuming it finishes the call with
      `true`. */
  lemma WalkDone(ba: Algebra, a: Automaton, root: map<State, State>, neq: set<Pair>, e0: set<Pair>,
                 e: set<Pair>, stack: set<Pair>, path: set<Pair>, x: State, y: State,
                 outp: seq<Move>, outq: seq<Move>)
    requires x in a.states && y in a.states && (x in a.finals <==> y in a.finals)
    requires ExploreInv(ba, a, root, x, y, e0, stack + {NormalizeById(x, y)}, e, outp, outq)
    requires outp == [] || outq == []
    requires PathsAgree(path, stack + {NormalizeById(x, y)}, e)
    ensures FirstOutcome(ba, a, root, neq, e0, e + {NormalizeById(x, y)}, stack, path, x, y, true)
  {
    var pair := NormalizeById(x, y);
    var t := e + (stack + {pair});
    WalkEnd(ba, a, root, x, y, outp, outq, t);
    assert e + {pair} + stack == t;
    ClosedJoinById(ba, a, root, e - e0 - (stack + {pair}), x, y, pair, t);
    assert e + {pair} - e0 - stack <= (e - e0 - (stack + {pair})) + {pair};
    AllClosedSub(ba, a, root, (e - e0 - (stack + {pair})) + {pair}, e + {pair} - e0 - stack, t, t);
  }

  /** A closed pair of states that are both final or both not final joins a set of closed
      pairs, in whichever order it is stored. */
  lemma ClosedJoinById(ba: Algebra, a: Automaton, root: map<State, State>, done: set<Pair>,
                       x: State, y: State, pr: Pair, t: set<Pair>)
    requires x in a.states && y in a.states && (x in a.finals <==> y in a.finals)
    requires pr == Pair(x, y) || pr == Pair(y, x)
    requires AllClosed(ba, a, root, done, t) && Closed(ba, a, root, x, y, t)
    ensures AllClosed(ba, a, root, done + {pr}, t)
  {
    HandledMirror(a, root, x, y, ba.universe, t);
  }

  /** A step of the walk: the first meeting is handled, and either fails the walk or leaves it
      with its invariant. */
  lemma {:induction false} WalkStepOutcome(c: Setting, x: State, y: State, neq: set<Pair>, e0: set<Pair>,
                                           stack: set<Pair>, e: set<Pair>, outp: seq<Move>, outq: seq<Move>,
                                           path: set<Pair>)
    requires ProperSetting(c) && x in c.a.states && y in c.a.states && Seed(c.a) <= neq
    requires NormalizeById(x, y) !in stack && (x in c.a.finals <==> y in c.a.finals)
    requires ExploreInv(c.ba, c.a, c.root, x, y, e0, stack + {NormalizeById(x, y)}, e, outp, outq)
    requires PathsAgree(path, stack + {NormalizeById(x, y)}, e)
    requires outp != [] && outq != []
    decreases Remaining(c, e), 1, GuardSize(outp), 0
    ensures WalkMoves(c, NormalizeById(x, y), outp, outq, neq, e, path, false).answer.Ok?
    ensures var r := WalkMoves(c, NormalizeById(x, y), outp, outq, neq, e, path, false);
            FirstOutcome(c.ba, c.a, c.root, neq, e0, r.equiv, stack, r.path, x, y, r.answer.value)
  {
    var pair := NormalizeById(x, y);
    var stack' := stack + {pair};
    MeetingExists(c.ba, outp, outq);
    var found := FirstMeeting(outp[0].guard, outq, 0);
    assert found.Some?;
    var j := found.value;
    MeetOutcome(c, x, y, neq, e0, stack', e, outp, outq, j, path);
    var m := MeetMoves(c, outp[0].to, outq[j].to, neq, e, path, false);
    WalkMovesUnfold(c, pair, outp, outq, neq, e, path, false, j);
    if m.answer == Ok(false) {
      WalkFailed(c.ba, c.a, c.root, neq, e0, m.equiv, stack, m.path, x, y);
    } else {
      var s := SplitStep(c.ba, outp, outq, j);
      NoMoreOutside(c.root.Values, e, m.equiv);
      SplitShrinksGuards(c.ba, outp, outq, j);
      WalkOutcome(c, x, y, neq, e0, stack, m.equiv, s.outp, s.outq, m.path);
    }
  }

  /** A walk that failed at a meeting: under a sound partition and cache the call's pair and the
      path pairs off the stack are inequivalent. */
  lemma WalkFailed(ba: Algebra, a: Automaton, root: map<State, State>, neq: set<Pair>, e0: set<Pair>,
                   e: set<Pair>, stack: set<Pair>, path: set<Pair>, x: State, y: State)
    requires e0 <= e && PairsOfStates(a, e)
    requires SoundPartition(a, root) && NeqSound(a, neq) ==>
               && !Equivalent(a, x, y)
               && forall pr :: pr in path - (stack + {NormalizeById(x, y)}) ==> !Equivalent(a, pr.fst, pr.snd)
    ensures FirstOutcome(ba, a, root, neq, e0, e, stack, path, x, y, false)
  {
    NormalizedByIdPair(a, x, y, {});
    assert path - stack <= (path - (stack + {NormalizeById(x, y)})) + {NormalizeById(x, y)};
  }

  /** What a meeting of the walk over the moves of `x` and `y` leaves: no exception and more
      assumed pairs; on `true` the walk's invariant for the lists after the step, with the path
      agreeing with the stack; on `false`, when `sound`, `x` and `y` and every pair of the path
      off the stack inequivalent. */
  ghost predicate MeetingDone(ba: Algebra, a: Automaton, root: map<State, State>, x: State, y: State,
                              e0: set<Pair>, stack: set<Pair>, e: set<Pair>, outp: seq<Move>, outq: seq<Move>,
                              j: nat, m: TestRun, sound: bool)
    requires outp != [] && j < |outq|
  {
    && m.answer.Ok? && e <= m.equiv && PairsOfStates(a, m.equiv)
    && (m.answer.value ==>
          && ExploreInv(ba, a, root, x, y, e0, stack, m.equiv, SplitStep(ba, outp, outq, j).outp,
                        SplitStep(ba, outp, outq, j).outq)
          && PathsAgree(m.path, stack, m.equiv))
    && (!m.answer.value && sound ==>
          && !Equivalent(a, x, y)
          && forall pr :: pr in m.path - stack ==> !Equivalent(a, pr.fst, pr.snd))
  }

  /** A meeting of the walk never throws, and its recursive call, if any, answers as the test
      promises. */
  lemma {:induction false} MeetOutcome(c: Setting, x: State, y: State, neq: set<Pair>, e0: set<Pair>,
                                       stack: set<Pair>, e: set<Pair>, outp: seq<Move>, outq: seq<Move>, j: nat,
                                       path: set<Pair>)
    requires ProperSetting(c) && x in c.a.states && y in c.a.states && Seed(c.a) <= neq
    requires ExploreInv(c.ba, c.a, c.root, x, y, e0, stack, e, outp, outq) && PathsAgree(path, stack, e)
    requires outp != [] && j < |outq| && IsSatisfiable(MkAnd(outp[0].guard, outq[j].guard))
    decreases Remaining(c, e), 0, 0, 1
    ensures MeetingDone(c.ba, c.a, c.root, x, y, e0, stack, e, outp, outq, j,
                        MeetMoves(c, outp[0].to, outq[j].to, neq, e, path, false),
                        SoundPartition(c.a, c.root) && NeqSound(c.a, neq))
  {
    MoveEntersState(c.ba, c.a, x, outp, 0);
    MoveEntersState(c.ba, c.a, y, outq, j);
    var pc, qc := c.root[outp[0].to], c.root[outq[j].to];
    if pc != qc && NormalizeById(pc, qc) !in e {
      ChildOutcome(c, x, y, neq, e0, stack, e, outp, outq, j, path);
    } else {
      NormalizedByIdPair(c.a, pc, qc, e + stack);
      MeetStep(c.ba, c.a, c.root, x, y, outp, outq, j, e + stack);
    }
  }

  /** The recursive call of a meeting on its pair of successor classes, assumed first. */
  lemma {:induction false} ChildOutcome(c: Setting, x: State, y: State, neq: set<Pair>, e0: set<Pair>,
                                        stack: set<Pair>, e: set<Pair>, outp: seq<Move>, outq: seq<Move>, j: nat,
                                        path: set<Pair>)
    requires ProperSetting(c) && x in c.a.states && y in c.a.states && Seed(c.a) <= neq
    requires ExploreInv(c.ba, c.a, c.root, x, y, e0, stack, e, outp, outq) && PathsAgree(path, stack, e)
    requires outp != [] && j < |outq| && IsSatisfiable(MkAnd(outp[0].guard, outq[j].guard))
    requires outp[0].to in c.a.states && outq[j].to in c.a.states
    requires c.root[outp[0].to] != c.root[outq[j].to]
    requires NormalizeById(c.root[outp[0].to], c.root[outq[j].to]) !in e
    decreases Remaining(c, e), 0, 0, 0
    ensures MeetingDone(c.ba, c.a, c.root, x, y, e0, stack, e, outp, outq, j,
                        MeetMoves(c, outp[0].to, outq[j].to, neq, e, path, false),
                        SoundPartition(c.a, c.root) && NeqSound(c.a, neq))
  {
    var pc, qc := c.root[outp[0].to], c.root[outq[j].to];
    assert pc in c.root.Values && qc in c.root.Values;
    var next := NormalizeById(pc, qc);
    AssumeById(c.a, e, pc, qc);
    OneFewerOutside(c.root.Values, e, next);
    TestOutcome(c, pc, qc, neq, e + {next}, path, stack);
    var m := Test(c, pc, qc, neq, e + {next}, path, false);
    if m.answer == Ok(true) {
      ChildClosedById(c.ba, c.a, c.root, x, y, e0, stack, e, m.equiv, outp, outq, j, pc, qc);
      PathRestored(stack, next, m.path, m.equiv);
    } else if SoundPartition(c.a, c.root) && NeqSound(c.a, neq) {
      InequivalentMeeting(c.a, c.root, x, y, outp, outq, j);
    }
  }

  /** Assuming the ordered pair of two states keeps the assumed pairs pairs of states. */
  lemma AssumeById(a: Automaton, e: set<Pair>, x: State, y: State)
    requires PairsOfStates(a, e) && x in a.states && y in a.states
    ensures PairsOfStates(a, e + {NormalizeById(x, y)})
  {
  }

  /** A recursive call on the successor classes `pc`, `qc` of a meeting that answered `true`:
      the meeting is handled up to the pairs then assumed and the stack, and the walk's
      invariant holds with those pairs. */
  lemma ChildClosedById(ba: Algebra, a: Automaton, root: map<State, State>, x: State, y: State,
                        e0: set<Pair>, stack: set<Pair>, e: set<Pair>, e': set<Pair>, outp: seq<Move>,
                        outq: seq<Move>, j: nat, pc: State, qc: State)
    requires pc in a.states && qc in a.states
    requires ExploreInv(ba, a, root, x, y, e0, stack, e, outp, outq)
    requires outp != [] && j < |outq| && IsSatisfiable(MkAnd(outp[0].guard, outq[j].guard))
    requires outp[0].to in root && outq[j].to in root && pc == root[outp[0].to] && qc == root[outq[j].to]
    requires e + {NormalizeById(pc, qc)} <= e' && PairsOfStates(a, e')
    requires || NormalizeById(pc, qc) in stack
             || ((pc in a.finals <==> qc in a.finals) && Closed(ba, a, root, pc, qc, e' + stack))
    requires AllClosed(ba, a, root, e' - (e + {NormalizeById(pc, qc)}) - stack, e' + stack)
    ensures ExploreInv(ba, a, root, x, y, e0, stack, e', SplitStep(ba, outp, outq, j).outp,
                       SplitStep(ba, outp, outq, j).outq)
  {
    var t := e' + stack;
    WalkGrow(ba, a, root, x, y, outp, outq, e + stack, t);
    ChildPairsClosedById(ba, a, root, e0, stack, e, e', pc, qc);
    NormalizedByIdPair(a, pc, qc, t);
    MeetStep(ba, a, root, x, y, outp, outq, j, t);
  }

  /** The pairs closed before a recursive call, the pairs its call closed and the pair of the
      call itself, unless it is on the stack, are closed up to the pairs assumed after it. */
  lemma ChildPairsClosedById(ba: Algebra, a: Automaton, root: map<State, State>, e0: set<Pair>, stack: set<Pair>,
                             e: set<Pair>, e': set<Pair>, pc: State, qc: State)
    requires pc in a.states && qc in a.states
    requires AllClosed(ba, a, root, e - e0 - stack, e + stack)
    requires e + {NormalizeById(pc, qc)} <= e'
    requires || NormalizeById(pc, qc) in stack
             || ((pc in a.finals <==> qc in a.finals) && Closed(ba, a, root, pc, qc, e' + stack))
    requires AllClosed(ba, a, root, e' - (e + {NormalizeById(pc, qc)}) - stack, e' + stack)
    ensures AllClosed(ba, a, root, e' - e0 - stack, e' + stack)
  {
    var next := NormalizeById(pc, qc);
    var t := e' + stack;
    AllClosedGrow(ba, a, root, e - e0 - stack, e + stack, t);
    var done := (e - e0 - stack) + (e' - (e + {next}) - stack);
    assert AllClosed(ba, a, root, done, t);
    if next !in stack {
      ClosedJoinById(ba, a, root, done, pc, qc, next, t);
      assert e' - e0 - stack <= done + {next};
      AllClosedSub(ba, a, root, done + {next}, e' - e0 - stack, t, t);
    } else {
      assert e' - e0 - stack <= done;
      AllClosedSub(ba, a, root, done, e' - e0 - stack, t, t);
    }
  }

  /** A path that agrees with the stack and one more assumed pair agrees with the stack once
      that pair leaves it. */
  lemma PathRestored(stack: set<Pair>, next: Pair, path: set<Pair>, e: set<Pair>)
    requires PathsAgree(path, stack + {next}, e) && next in e
    ensures PathsAgree(path - {next}, stack, e)
  {
  }

  // ---------------------------------------------------------------------------------------------
  // The test as written.
  // ---------------------------------------------------------------------------------------------

  /** An automaton over the symbols 0 and 1 with the states 0 to 4: the initial state 4 moves
      to 0 on 0 and to 1 on 1; 0 moves to 3, 1 to 2, 2 to 2 and 3 to 3 on both symbols; 3 is
      the one final state. */
  function Witness(): (r: Automaton)
    ensures r.finals <= r.states && r.initial in r.states
  {
    Automaton({0, 1, 2, 3, 4}, 4, {3}, WitnessMoves(), false)
  }

  function WitnessMoves(): seq<Move>
  {
    [Move(0, 3, {0, 1}), Move(1, 2, {0, 1}), Move(2, 2, {0, 1}), Move(3, 3, {0, 1}), Move(4, 0, {0}), Move(4, 1, {1})]
  }

  /** The moves of each state of the witness, in list order. */
  lemma WitnessMovesFrom()
    ensures var ms := WitnessMoves();
            && MovesFrom(ms, 0) == [ms[0]] && MovesFrom(ms, 1) == [ms[1]] && MovesFrom(ms, 2) == [ms[2]]
            && MovesFrom(ms, 3) == [ms[3]] && MovesFrom(ms, 4) == [ms[4], ms[5]]
  {
    var ms := WitnessMoves();
    assert ms[1..][1..][1..][1..][1..][1..] == [];
  }

  /** The tested states 0 and 1 of the witness are the successors of its initial state. */
  lemma WitnessReached()
    ensures Target(Witness(), 4, 0) == Some(0) && Target(Witness(), 4, 1) == Some(1)
  {
    var ms := WitnessMoves();
    WitnessMovesFrom();
    assert MovesFrom(ms, 4)[1..] == [ms[5]];
  }

  /** The seeded cache of the witness pairs its final state 3 with each other state. */
  lemma WitnessSeed()
    ensures Seed(Witness()) == {Pair(0, 3), Pair(1, 3), Pair(2, 3), Pair(3, 4)}
  {
    var a := Witness();
    forall pr | pr in Seed(a) ensures pr in {Pair(0, 3), Pair(1, 3), Pair(2, 3), Pair(3, 4)} {
      var x, y :| x in a.finals && y in a.states - a.finals && pr == NormalizeById(x, y);
    }
    assert NormalizeById(3, 0) in Seed(a);
    assert NormalizeById(3, 1) in Seed(a);
    assert NormalizeById(3, 2) in Seed(a);
    assert NormalizeById(3, 4) in Seed(a);
  }

  /** The setting of the witness with every state alone in its class. */
  function WitnessSetting(): Setting
  {
    Setting(Algebra({0, 1}), Witness(), map[0 := 0, 1 := 1, 2 := 2, 3 := 3, 4 := 4])
  }

  /** The walks of the test of 0 and 1 on the witness: each pair has one move, and the two
      moves of a pair read the same symbols. */
  lemma WitnessWalks()
    ensures var c, m0, m1, m2, m3 := WitnessSetting(), Move(0, 3, {0, 1}), Move(1, 2, {0, 1}), Move(2, 2, {0, 1}), Move(3, 3, {0, 1});
            && MovesFrom(c.a.moves, 0) == [m0] && MovesFrom(c.a.moves, 1) == [m1]
            && MovesFrom(c.a.moves, 2) == [m2] && MovesFrom(c.a.moves, 3) == [m3]
            && FirstMeeting({0, 1}, [m1], 0) == Some(0) && FirstMeeting({0, 1}, [m2], 0) == Some(0)
            && SplitStep(c.ba, [m0], [m1], 0) == Split([], []) && SplitStep(c.ba, [m3], [m2], 0) == Split([], [])
  {
    WitnessMovesFrom();
    var m1, m2 := Move(1, 2, {0, 1}), Move(2, 2, {0, 1});
    assert 0 in MkAnd({0, 1}, m1.guard) && 0 in MkAnd({0, 1}, m2.guard);
  }

  /** As written, the test of 0 and 1 on the witness answers `true`, assuming (0, 1) and (2, 3). */
  lemma LookupAsWritten(seed: set<Pair>)
    requires seed == {Pair(0, 3), Pair(1, 3), Pair(2, 3), Pair(3, 4)}
    ensures var r := Test(WitnessSetting(), 0, 1, seed, {}, {}, true);
            r.answer == Ok(true) && Pair(0, 1) in r.equiv && Pair(2, 3) in r.equiv
  {
    var c := WitnessSetting();
    var m0, m1, m2, m3 := Move(0, 3, {0, 1}), Move(1, 2, {0, 1}), Move(2, 2, {0, 1}), Move(3, 3, {0, 1});
    WitnessWalks();
    // The inner call on (3, 2).
    var inner := Test(c, 3, 2, seed, {Pair(2, 3)}, {Pair(0, 1)}, true);
    WalkMovesUnfold(c, Pair(3, 2), [m3], [m2], seed, {Pair(2, 3)}, {Pair(0, 1), Pair(3, 2)}, true, 0);
    assert inner == TestRun(Ok(true), {Pair(2, 3), Pair(3, 2)}, {Pair(0, 1), Pair(3, 2)});
    // The outer call on (0, 1).
    var meet := MeetMoves(c, 3, 2, seed, {}, {Pair(0, 1)}, true);
    assert c.root[3] == 3 && c.root[2] == 2 && NormalizeById(3, 2) == Pair(2, 3);
    assert {} + {Pair(2, 3)} == {Pair(2, 3)};
    assert meet == TestRun(Ok(true), inner.equiv, inner.path - {Pair(2, 3)});
    WalkMovesUnfold(c, Pair(0, 1), [m0], [m1], seed, {}, {Pair(0, 1)}, true, 0);
    assert WalkMoves(c, Pair(0, 1), [m0], [m1], seed, {}, {Pair(0, 1)}, true).answer == Ok(true);
  }

  /** Corrected, the inner call of the test finds (2, 3) in the cache and the test answers
      `false`. */
  lemma LookupCorrected(seed: set<Pair>)
    requires seed == {Pair(0, 3), Pair(1, 3), Pair(2, 3), Pair(3, 4)}
    ensures Test(WitnessSetting(), 0, 1, seed, {}, {}, false).answer == Ok(false)
  {
    var c := WitnessSetting();
    var m0, m1 := Move(0, 3, {0, 1}), Move(1, 2, {0, 1});
    WitnessWalks();
    WalkMovesUnfold(c, Pair(0, 1), [m0], [m1], seed, {}, {Pair(0, 1)}, false, 0);
    assert c.root[3] == 3 && c.root[2] == 2 && NormalizeById(3, 2) == Pair(2, 3);
    assert Test(c, 3, 2, seed, {Pair(2, 3)}, {Pair(0, 1)}, false).answer == Ok(false);
  }

  /** The word 0 tells 0 from 1, and the empty word tells 3 from 2. */
  lemma WitnessApart()
    ensures !Equivalent(Witness(), 0, 1) && !Equivalent(Witness(), 2, 3)
  {
    var a := Witness();
    WitnessMovesFrom();
    assert [0][1..] == [];
    assert Target(a, 0, 0) == Some(3) && Target(a, 1, 0) == Some(2);
    assert Accepts(a, 0, [0]) && !Accepts(a, 1, [0]);
    assert Accepts(a, 3, []) && !Accepts(a, 2, []);
  }

  /** As written, the test looks its pair up in argument order while the cache holds pairs
      ordered by identifier. On the witness, with every state in a class of its own and the
      seeded cache, the test of 0 and 1 (the successors of the initial state) meets 3 and 2,
      calls itself on (3, 2), misses the cached pair (2, 3) and answers `true`, having assumed
      (2, 3); the driver then merges the final state 3 with the non-final state 2. Neither 0 and
      1 nor 2 and 3 are equivalent, and the corrected test answers `false`. */
  lemma LookupInArgumentOrder()
    ensures var a := Witness();
            var c := Setting(Algebra({0, 1}), a, map[0 := 0, 1 := 1, 2 := 2, 3 := 3, 4 := 4]);
            var r := Test(c, 0, 1, Seed(a), {}, {}, true);
            && Target(a, a.initial, 0) == Some(0) && Target(a, a.initial, 1) == Some(1)
            && Seed(a) == {Pair(0, 3), Pair(1, 3), Pair(2, 3), Pair(3, 4)}
            && r.answer == Ok(true) && Pair(0, 1) in r.equiv && Pair(2, 3) in r.equiv
            && !Equivalent(a, 0, 1) && !Equivalent(a, 2, 3)
            && Test(c, 0, 1, Seed(a), {}, {}, false).answer == Ok(false)
  {
    WitnessSeed();
    WitnessReached();
    LookupAsWritten(Seed(Witness()));
    LookupCorrected(Seed(Witness()));
    WitnessApart();
  }

  // ---------------------------------------------------------------------------------------------
  // The test object.
  // ---------------------------------------------------------------------------------------------

  /** The equivalence test of Main: the automaton, the algebra, the classes and the driver's
      not-equal cache, which the test only reads, with the pairs it assumes equivalent and its
      path. */
  class EquivTest {
    const aut: Automaton
    const ba: Algebra
    const equivClasses: DisjointSets
    const neq: set<Pair>
    /** Pairs assumed equivalent by this test. */
    var equiv: set<Pair>
    /** Pairs of the calls in progress, and after a failure the chain that led to it. */
    var path: set<Pair>

    constructor (aut: Automaton, ba: Algebra, equivClasses: DisjointSets, neq: set<Pair>, equiv: set<Pair>,
                 path: set<Pair>)
      ensures this.aut == aut && this.ba == ba && this.equivClasses == equivClasses && this.neq == neq
      ensures this.equiv == equiv && this.path == path
    {
      this.aut := aut;
      this.ba := ba;
      this.equivClasses := equivClasses;
      this.neq := neq;
      this.equiv := equiv;
      this.path := path;
    }

    /** The setting of a test over the classes `root`. */
    ghost function Context(root: map<State, State>): Setting
    {
      Setting(ba, aut, root)
    }

    /** isEquiv, with the lookup ordered by identifier: on a valid automaton and partition, with
        the seeded pairs in the cache, it never throws, and its answer and pair sets are what
        `FirstOutcome` describes. */
    method IsEquiv(p: State, q: State) returns (r: bool)
      requires ValidAutomaton(ba, aut) && equivClasses.Valid() && Identifies(aut, equivClasses.Root)
      requires p in aut.states && q in aut.states && PairsOfStates(aut, equiv) && Seed(aut) <= neq
      modifies this, equivClasses
      ensures equivClasses.Valid() && equivClasses.Root == old(equivClasses.Root)
      ensures equivClasses.rankMap == old(equivClasses.rankMap)
      ensures equivClasses.parentMap.Keys == old(equivClasses.parentMap.Keys)
      ensures TestRun(Ok(r), equiv, path) == Test(Context(equivClasses.Root), p, q, neq, old(equiv), old(path), false)
      ensures FirstOutcome(ba, aut, equivClasses.Root, neq, old(equiv), equiv, old(path), path, p, q, r)
    {
      assert path - path == {};
      TestOutcome(Context(equivClasses.Root), p, q, neq, equiv, path, path);
      var res, e, pth := IsEquivFrom(p, q, equivClasses.Root, equiv, path);
      r := res.value;
      SetPairs(e, pth);
    }

    method SetPairs(e: set<Pair>, p: set<Pair>)
      modifies this
      ensures equiv == e && path == p
    {
      equiv, path := e, p;
    }

    /** The body of isEquiv on `p` and `q` with the pairs `e0` assumed and the path `p0`, as
        `Test` describes it. */
    method IsEquivFrom(p: State, q: State, ghost root: map<State, State>, e0: set<Pair>, p0: set<Pair>)
      returns (r: Result<bool>, e: set<Pair>, pth: set<Pair>)
      requires equivClasses.Valid() && equivClasses.Root == root
      modifies equivClasses
      decreases Remaining(Context(root), e0), 2, 0
      ensures equivClasses.Valid() && equivClasses.Root == root
      ensures equivClasses.rankMap == old(equivClasses.rankMap)
      ensures equivClasses.parentMap.Keys == old(equivClasses.parentMap.Keys)
      ensures TestRun(r, e, pth) == Test(Context(root), p, q, neq, e0, p0, false)
    {
      var pair := NormalizeById(p, q);
      if pair in neq {
        return Ok(false), e0, p0;
      }
      if pair in p0 {
        return Ok(true), e0, p0;
      }
      r, e, pth := Explore(pair, MovesFrom(aut.moves, p), MovesFrom(aut.moves, q), root, e0, p0 + {pair});
    }

    /** The loop of isEquiv over the moves `outp0` and `outq0` of `pair`, as `WalkMoves`
        describes it. */
    method Explore(pair: Pair, outp0: seq<Move>, outq0: seq<Move>, ghost root: map<State, State>,
                   e0: set<Pair>, path0: set<Pair>)
      returns (r: Result<bool>, e: set<Pair>, pth: set<Pair>)
      requires equivClasses.Valid() && equivClasses.Root == root
      modifies equivClasses
      decreases Remaining(Context(root), e0), 1, GuardSize(outp0)
      ensures equivClasses.Valid() && equivClasses.Root == root
      ensures equivClasses.rankMap == old(equivClasses.rankMap)
      ensures equivClasses.parentMap.Keys == old(equivClasses.parentMap.Keys)
      ensures TestRun(r, e, pth) == WalkMoves(Context(root), pair, outp0, outq0, neq, e0, path0, false)
    {
      ghost var c := Context(root);
      var outp, outq := outp0, outq0;
      e, pth := e0, path0;
      while outp != [] && outq != []
        invariant equivClasses.Valid() && equivClasses.Root == root
        invariant equivClasses.rankMap == old(equivClasses.rankMap)
        invariant equivClasses.parentMap.Keys == old(equivClasses.parentMap.Keys)
        invariant e0 <= e
        invariant WalkMoves(c, pair, outp, outq, neq, e, pth, false) == WalkMoves(c, pair, outp0, outq0, neq, e0, path0, false)
        decreases Remaining(c, e), GuardSize(outp)
      {
        var found := FindNonDisjointMoves(outp, outq);
        if found.None? {
          return Err(NoOverlappingMove), e, pth;
        }
        var j := found.value;
        NoMoreOutside(root.Values, e0, e);
        var ok, e', pth' := Meet(outp[0].to, outq[j].to, root, e, pth);
        if ok != Ok(true) {
          return ok, e', pth';
        }
        NoMoreOutside(root.Values, e, e');
        SplitShrinksGuards(ba, outp, outq, j);
        var split := SplitStep(ba, outp, outq, j);
        outp, outq, e, pth := split.outp, split.outq, e', pth';
      }
      r, e := Ok(true), e + {pair};
    }

    /** One meeting of the walk, into the states `x` and `y`, as `MeetMoves` describes it. */
    method Meet(x: State, y: State, ghost root: map<State, State>, e: set<Pair>, pth: set<Pair>)
      returns (r: Result<bool>, e': set<Pair>, pth': set<Pair>)
      requires equivClasses.Valid() && equivClasses.Root == root
      modifies equivClasses
      decreases Remaining(Context(root), e), 0, 0
      ensures equivClasses.Valid() && equivClasses.Root == root
      ensures equivClasses.rankMap == old(equivClasses.rankMap)
      ensures equivClasses.parentMap.Keys == old(equivClasses.parentMap.Keys)
      ensures TestRun(r, e', pth') == MeetMoves(Context(root), x, y, neq, e, pth, false)
    {
      var classes := FindNextClasses(equivClasses, x, y);
      if classes.Err? {
        return Err(IllegalArgument), e, pth;
      }
      var pNextClass, qNextClass := classes.value.fst, classes.value.snd;
      assert pNextClass in root.Values && qNextClass in root.Values;
      var nextPair := NormalizeById(pNextClass, qNextClass);
      if pNextClass != qNextClass && nextPair !in e {
        OneFewerOutside(root.Values, e, nextPair);
        r, e', pth' := IsEquivFrom(pNextClass, qNextClass, root, e + {nextPair}, pth);
        if r == Ok(true) {
          pth' := pth' - {nextPair};
        }
      } else {
        r, e', pth' := Ok(true), e, pth;
      }
    }
  }

  // ---------------------------------------------------------------------------------------------
  // The driver.
  // ---------------------------------------------------------------------------------------------

  /** With every distance equal, the scan order of Scan is the order of the identifiers. */
  ghost function Flat(a: Automaton): (r: map<State, int>)
    ensures r.Keys == a.states
    ensures forall x :: x in r ==> r[x] == 0
  {
    map x | x in a.states :: 0
  }

  /** What the scan keeps: the classes are a sound partition of the states, the cache is sound
      and holds the seeded pairs, and the pairs of `settled` are settled. */
  ghost predicate DriverInv(a: Automaton, equivClasses: DisjointSets, neq: set<Pair>, settled: set<Pair>)
    reads equivClasses
  {
    SoundClasses(a, equivClasses) && NeqSound(a, neq) && Seed(a) <= neq && Settled(a, equivClasses.Root, settled)
  }

  /** incrementalMinimize. An automaton the library reports empty gives the empty automaton;
      otherwise the result is the quotient of the automaton by a partition that is sound and
      complete, so it accepts the same words and no two of its states are equivalent. */
  method IncrementalMinimize(aut: Automaton, ba: Algebra) returns (minAut: Automaton, ghost root: map<State, State>)
    requires ValidAutomaton(ba, aut)
    ensures aut.isEmpty ==> minAut == EmptySfa(ba)
    ensures !aut.isEmpty ==>
              && Identifies(aut, root) && SoundPartition(aut, root) && CompletePartition(aut, root)
              && IsQuotient(aut, root, minAut) && MovesAgree(minAut)
    ensures forall w :: Accepts(minAut, minAut.initial, w) == Accepts(aut, aut.initial, w)
  {
    if aut.isEmpty {
      return EmptySfa(ba), map[];
    }
    var equivClasses := MakeClasses(aut.states);
    Singletons(aut, equivClasses.Root);
    var numPairs := NumPairs(|aut.states|);
    NumPairsAccepted(|aut.states|);
    var created := NewPairSet(numPairs);
    var neq := SeedNeq(aut, created.value);
    SeedSound(aut);
    var states := StateList(aut.states);
    ghost var settled;
    neq, settled := ScanPairs(ba, aut, equivClasses, numPairs, neq, states);
    ClassesIdentify(aut, equivClasses);
    minAut := MergeClasses(aut, equivClasses);
    root := equivClasses.Root;
    QuotientLanguage(ba, aut, root, minAut);
    ScannedComplete(ba, aut, Flat(aut), root, settled, states);
    QuotientMovesAgree(ba, aut, root, minAut);
  }

  /** The two loops of incrementalMinimize over the states: every pair `(p, q)` with `p` before
      `q` in identifier order is settled. */
  method ScanPairs(ba: Algebra, a: Automaton, equivClasses: DisjointSets, numPairs: int, neq0: set<Pair>,
                   states: seq<State>)
    returns (neq: set<Pair>, ghost settled: set<Pair>)
    requires ValidAutomaton(ba, a) && 0 <= numPairs && DriverInv(a, equivClasses, neq0, {})
    requires forall x :: x in states ==> x in a.states
    modifies equivClasses
    ensures DriverInv(a, equivClasses, neq, settled) && RowsDone(Flat(a), settled, states, states)
  {
    neq, settled := neq0, {};
    for i := 0 to |states|
      invariant DriverInv(a, equivClasses, neq, settled)
      invariant RowsDone(Flat(a), settled, states[..i], states)
    {
      ghost var settled0 := settled;
      neq, settled := ScanRow(ba, a, equivClasses, numPairs, neq, states, states[i], settled);
      RowsStep(Flat(a), settled0, settled, states, states, i);
    }
    assert states[..|states|] == states;
  }

  /** With every distance equal, one state comes before another exactly when its identifier is
      smaller. */
  lemma FlatOrder(a: Automaton, x: State, y: State)
    requires x in a.states && y in a.states
    ensures Before(Flat(a), x, y) <==> x < y
  {
  }

  /** The inner loop for the row of `p`: a `q` not greater than `p` is skipped, any other pair
      is settled. */
  method ScanRow(ba: Algebra, a: Automaton, equivClasses: DisjointSets, numPairs: int, neq0: set<Pair>,
                 states: seq<State>, p: State, ghost settled0: set<Pair>)
    returns (neq: set<Pair>, ghost settled: set<Pair>)
    requires ValidAutomaton(ba, a) && 0 <= numPairs && DriverInv(a, equivClasses, neq0, settled0)
    requires p in a.states && forall x :: x in states ==> x in a.states
    modifies equivClasses
    ensures DriverInv(a, equivClasses, neq, settled) && settled0 <= settled
    ensures RowDone(Flat(a), settled, p, states)
  {
    neq, settled := neq0, settled0;
    for j := 0 to |states|
      invariant DriverInv(a, equivClasses, neq, settled) && settled0 <= settled
      invariant RowDone(Flat(a), settled, p, states[..j])
    {
      var q := states[j];
      ghost var before := settled;
      FlatOrder(a, p, q);
      if p < q {
        neq, settled := SettlePair(ba, a, equivClasses, numPairs, neq, p, q, settled);
      }
      RowStep(Flat(a), before, settled, p, states, j);
    }
    assert states[..|states|] == states;
  }

  /** The body of the inner loop for `p` before `q`: a pair in the cache or in one class is
      settled at once; any other pair is tested. */
  method SettlePair(ba: Algebra, a: Automaton, equivClasses: DisjointSets, numPairs: int, neq0: set<Pair>,
                    p: State, q: State, ghost settled0: set<Pair>)
    returns (neq: set<Pair>, ghost settled: set<Pair>)
    requires ValidAutomaton(ba, a) && 0 <= numPairs && DriverInv(a, equivClasses, neq0, settled0)
    requires p in a.states && q in a.states && p < q
    modifies equivClasses
    ensures DriverInv(a, equivClasses, neq, settled) && settled0 <= settled && Pair(p, q) in settled
  {
    neq, settled := neq0, settled0;
    var pair := Pair(p, q);
    if pair in neq {
      SettledSub(a, equivClasses.Root, settled, pair);
      return neq, settled + {pair};
    }
    var pClass, qClass := FindClasses(equivClasses, p, q);
    if pClass == qClass {
      SettledSub(a, equivClasses.Root, settled, pair);
      return neq, settled + {pair};
    }
    neq, settled := TestPair(ba, a, equivClasses, numPairs, neq, p, q, settled);
  }

  /** The test of a pair with fresh pair sets: on `true` the classes of every assumed pair are
      merged, on `false` the path pairs join the cache. */
  method TestPair(ba: Algebra, a: Automaton, equivClasses: DisjointSets, numPairs: int, neq0: set<Pair>,
                  p: State, q: State, ghost settled0: set<Pair>)
    returns (neq: set<Pair>, ghost settled: set<Pair>)
    requires ValidAutomaton(ba, a) && 0 <= numPairs && DriverInv(a, equivClasses, neq0, settled0)
    requires p in a.states && q in a.states && p < q
    modifies equivClasses
    ensures DriverInv(a, equivClasses, neq, settled) && settled0 <= settled && Pair(p, q) in settled
  {
    ClassesIdentify(a, equivClasses);
    var equiv := NewPairSet(numPairs);
    var path := NewPairSet(numPairs);
    var pEquiv := new EquivTest(a, ba, equivClasses, neq0, equiv.value, path.value);
    var isequiv := pEquiv.IsEquiv(p, q);
    var e, pth := pEquiv.equiv, pEquiv.path;
    if isequiv {
      assert e - {} - {} == e && e + {} == e;
      settled := MergeTested(ba, a, equivClasses, p, q, e, settled0);
      neq := neq0;
    } else {
      assert pth - {} == pth;
      neq := neq0 + pth;
      SettledSub(a, equivClasses.Root, settled0, Pair(p, q));
      settled := settled0 + {Pair(p, q)};
    }
  }

  /** A successful test: the pairs it assumed are closed, hence equivalent, and merging their
      classes settles the tested pair. */
  method MergeTested(ba: Algebra, a: Automaton, equivClasses: DisjointSets, p: State, q: State, equiv: set<Pair>,
                     ghost settled0: set<Pair>)
    returns (ghost settled: set<Pair>)
    requires ValidAutomaton(ba, a) && SoundClasses(a, equivClasses) && Settled(a, equivClasses.Root, settled0)
    requires Pair(p, q) in equiv && AllClosed(ba, a, equivClasses.Root, equiv, equiv)
    modifies equivClasses
    ensures SoundClasses(a, equivClasses) && settled0 <= settled && Settled(a, equivClasses.Root, settled)
    ensures Pair(p, q) in settled
  {
    ClosedPairsEquivalent(ba, a, equivClasses.Root, equiv);
    settled := MergeEquiv(a, equivClasses, equiv, settled0);
  }
}
