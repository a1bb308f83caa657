/**
 * One step of the side-by-side walk over the moves of two states, as every equivalence test
 * takes it, stated against the closure predicates of Equivalence: the symbols the walk has
 * removed from the cover are handled, the walk ends with every symbol handled, and a meeting
 * whose successor classes are inequivalent makes the two states inequivalent.
 */
module Walk {
  import opened Base
  import opened Sfa
  import opened StateOrder
  import opened Splitting
  import opened Distance
  import opened Equivalence

  /** Every ordered pair of states: what the sets of assumed pairs are drawn from. */
  ghost function AllPairs(states: set<State>): (r: set<Pair>)
    ensures forall x, y {:trigger Pair(x, y) in r} :: x in states && y in states ==> Pair(x, y) in r
  {
    set x, y | x in states && y in states :: Pair(x, y)
  }

  /** Taking new pairs of states into a set leaves fewer pairs outside it. */
  lemma FewerOutside(states: set<State>, e: set<Pair>, e': set<Pair>)
    requires e <= e' && e' - e <= AllPairs(states) && e' != e
    ensures |AllPairs(states) - e'| < |AllPairs(states) - e|
  {
    NonEmptyPairs(e' - e);
    var x :| x in e' - e;
    var fewer, more := AllPairs(states) - e', AllPairs(states) - e;
    assert more == fewer + (more - fewer);
    assert x in more - fewer;
  }

  /** The walk has dealt with every symbol outside the cover of `outp`. */
  ghost predicate WalkInv(ba: Algebra, a: Automaton, root: map<State, State>, p: State, q: State,
                          outp: seq<Move>, outq: seq<Move>, t: set<Pair>)
  {
    && SplitInv(ba, outp, outq) && Faithful(a, p, outp) && Faithful(a, q, outq)
    && HandledOn(a, root, p, q, ba.universe - Cover(outp), t)
  }

  /** The walk starts with no symbol handled and nothing outside the cover. */
  lemma WalkStart(ba: Algebra, a: Automaton, root: map<State, State>, p: State, q: State, t: set<Pair>)
    requires ValidAutomaton(ba, a) && p in a.states && q in a.states
    ensures WalkInv(ba, a, root, p, q, MovesFrom(a.moves, p), MovesFrom(a.moves, q), t)
  {
    InitialSplit(ba, a, p, q);
    assert ba.universe - Cover(MovesFrom(a.moves, p)) == {};
  }

  /** A move of a list faithful to a state of a valid automaton enters a state. */
  lemma MoveEntersState(ba: Algebra, a: Automaton, p: State, ms: seq<Move>, i: nat)
    requires ValidAutomaton(ba, a) && p in a.states && Faithful(a, p, ms) && GuardsProper(ba, ms)
    requires i < |ms|
    ensures ms[i].to in a.states
  {
    NonEmptyHasElement(ms[i].guard);
    var c :| c in ms[i].guard;
    assert ms[i] in ms;
    TargetTotal(ba, a, p, c);
  }

  /** One step whose meeting is handled: the invariant holds of the shorter lists, whose cover
      has strictly fewer symbols. */
  lemma MeetStep(ba: Algebra, a: Automaton, root: map<State, State>, p: State, q: State,
                 outp: seq<Move>, outq: seq<Move>, j: nat, t: set<Pair>)
    requires WalkInv(ba, a, root, p, q, outp, outq, t) && outp != [] && j < |outq|
    requires IsSatisfiable(MkAnd(outp[0].guard, outq[j].guard))
    requires outp[0].to in root && outq[j].to in root
    requires root[outp[0].to] == root[outq[j].to] || InEitherOrder(root[outp[0].to], root[outq[j].to], t)
    ensures WalkInv(ba, a, root, p, q, SplitStep(ba, outp, outq, j).outp, SplitStep(ba, outp, outq, j).outq, t)
    ensures |Cover(SplitStep(ba, outp, outq, j).outp)| < |Cover(outp)|
  {
    var s := SplitStep(ba, outp, outq, j);
    var meet := outp[0].guard * outq[j].guard;
    SplitStepKeepsInv(ba, outp, outq, j);
    SplitStepShrinks(ba, outp, outq, j);
    SplitStepFaithful(ba, a, p, q, outp, outq, j);
    MeetHandled(a, root, p, q, outp, outq, j, t);
    HandledUnion(a, root, p, q, ba.universe - Cover(outp), meet, t);
    assert ba.universe - Cover(s.outp) <= (ba.universe - Cover(outp)) + meet;
  }

  /** The symbols of a handled meeting are handled. */
  lemma MeetHandled(a: Automaton, root: map<State, State>, p: State, q: State,
                    outp: seq<Move>, outq: seq<Move>, j: nat, t: set<Pair>)
    requires Faithful(a, p, outp) && Faithful(a, q, outq) && outp != [] && j < |outq|
    requires outp[0].to in root && outq[j].to in root
    requires root[outp[0].to] == root[outq[j].to] || InEitherOrder(root[outp[0].to], root[outq[j].to], t)
    ensures HandledOn(a, root, p, q, outp[0].guard * outq[j].guard, t)
  {
    assert outp[0] in outp && outq[j] in outq;
  }

  /** When one list runs out the walk has handled every symbol: the pair is closed. */
  lemma WalkEnd(ba: Algebra, a: Automaton, root: map<State, State>, p: State, q: State,
                outp: seq<Move>, outq: seq<Move>, t: set<Pair>)
    requires WalkInv(ba, a, root, p, q, outp, outq, t) && (outp == [] || outq == [])
    ensures Closed(ba, a, root, p, q, t)
  {
    assert Cover(outp) == {};
  }

  /** A meeting whose successor classes are inequivalent under a sound partition shows the two
      states inequivalent. */
  lemma InequivalentMeeting(a: Automaton, root: map<State, State>, p: State, q: State,
                            outp: seq<Move>, outq: seq<Move>, j: nat)
    requires Faithful(a, p, outp) && Faithful(a, q, outq) && outp != [] && j < |outq|
    requires IsSatisfiable(MkAnd(outp[0].guard, outq[j].guard))
    requires SoundPartition(a, root) && outp[0].to in root && outq[j].to in root
    requires !Equivalent(a, root[outp[0].to], root[outq[j].to])
    ensures !Equivalent(a, p, q)
  {
    NonEmptyHasElement(MkAnd(outp[0].guard, outq[j].guard));
    var c :| c in MkAnd(outp[0].guard, outq[j].guard);
    assert outp[0] in outp && outq[j] in outq;
    InequivalentSuccessors(a, root, p, q, c, outp[0].to, outq[j].to);
  }

  /** A normalised pair holds the same two states, so it is equivalent exactly when they are. */
  lemma NormalizedPair(a: Automaton, dist: map<State, int>, x: State, y: State, t: set<Pair>)
    requires x in dist && y in dist
    ensures Normalize(dist, x, y) in t ==> InEitherOrder(x, y, t)
    ensures Equivalent(a, Normalize(dist, x, y).fst, Normalize(dist, x, y).snd) <==> Equivalent(a, x, y)
  {
    if Equivalent(a, x, y) {
      EquivalentSymmetric(a, x, y);
    }
    if Equivalent(a, y, x) {
      EquivalentSymmetric(a, y, x);
    }
  }

  /** The same for pairs ordered by identifier. */
  lemma NormalizedByIdPair(a: Automaton, x: State, y: State, t: set<Pair>)
    ensures NormalizeById(x, y) in t ==> InEitherOrder(x, y, t)
    ensures Equivalent(a, NormalizeById(x, y).fst, NormalizeById(x, y).snd) <==> Equivalent(a, x, y)
  {
    if Equivalent(a, x, y) {
      EquivalentSymmetric(a, x, y);
    }
    if Equivalent(a, y, x) {
      EquivalentSymmetric(a, y, x);
    }
  }

  /** Closure only improves as more pairs are assumed. */
  lemma AllClosedSub(ba: Algebra, a: Automaton, root: map<State, State>, r: set<Pair>, r': set<Pair>,
                     t: set<Pair>, t': set<Pair>)
    requires AllClosed(ba, a, root, r, t) && r' <= r && t <= t'
    ensures AllClosed(ba, a, root, r', t')
  {
    AllClosedGrow(ba, a, root, r, t, t');
  }

  /** Assuming more pairs keeps the walk's invariant. */
  lemma WalkGrow(ba: Algebra, a: Automaton, root: map<State, State>, p: State, q: State,
                 outp: seq<Move>, outq: seq<Move>, t: set<Pair>, t': set<Pair>)
    requires WalkInv(ba, a, root, p, q, outp, outq, t) && t <= t'
    ensures WalkInv(ba, a, root, p, q, outp, outq, t')
  {
    HandledGrow(a, root, p, q, ba.universe - Cover(outp), t, t');
  }

  /** A closed pair of states at the same distance joins a set of closed pairs, in whichever
      order it is stored. */
  lemma ClosedJoin(ba: Algebra, a: Automaton, root: map<State, State>, dist: map<State, int>,
                   done: set<Pair>, x: State, y: State, pr: Pair, t: set<Pair>)
    requires IsDistanceMap(a, dist) && x in a.states && y in a.states && dist[x] == dist[y]
    requires pr == Pair(x, y) || pr == Pair(y, x)
    requires AllClosed(ba, a, root, done, t) && Closed(ba, a, root, x, y, t)
    ensures AllClosed(ba, a, root, done + {pr}, t)
  {
    SameDistanceSameFinality(a, dist, x, y);
    HandledMirror(a, root, x, y, ba.universe, t);
  }
}
