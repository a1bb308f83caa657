/**
 * Automata over the two symbols 0 and 1 given by a table of successors: every state below `n`
 * has a move on 0 and then a move on 1, in that order. The automata on which the dependency
 * tests, as written, merge inequivalent states are of this kind; this module proves once what
 * the tests need of them: validity, successors, shortest distances and separating words.
 */
module TwoSymbols {
  import opened Base
  import opened Sfa
  import opened Distance

  /** The successor of each state on each symbol. */
  type Table = (State, Sym) -> State

  /** The states below `n`. */
  function Below(n: nat): set<State>
  {
    set x: State | 0 <= x < n && IsBelow(x, n)
  }

  predicate IsBelow(x: State, n: nat)
  {
    0 <= x < n
  }

  lemma {:induction false} BelowSize(n: nat)
    ensures |Below(n)| == n
  {
    if n > 0 {
      BelowSize(n - 1);
      assert Below(n) == Below(n - 1) + {n - 1};
    }
  }

  /** The two moves of state `x`: on 0, then on 1. */
  function StateMoves(next: Table, x: State): seq<Move>
  {
    [Move(x, next(x, 0), {0}), Move(x, next(x, 1), {1})]
  }

  /** The moves of the states below `k`, state by state. */
  function TableMoves(next: Table, k: nat): seq<Move>
  {
    if k == 0 then [] else TableMoves(next, k - 1) + StateMoves(next, k - 1)
  }

  lemma {:induction false} TableMovesFrom(next: Table, k: nat, p: State)
    ensures MovesFrom(TableMoves(next, k), p) == if 0 <= p < k then StateMoves(next, p) else []
  {
    if k > 0 {
      MovesFromAppend(TableMoves(next, k - 1), StateMoves(next, k - 1), p);
      TableMovesFrom(next, k - 1, p);
      var ms := StateMoves(next, k - 1);
      assert ms[1..][1..] == [];
    }
  }

  lemma {:induction false} MovesFromAppend(ms: seq<Move>, ns: seq<Move>, p: State)
    ensures MovesFrom(ms + ns, p) == MovesFrom(ms, p) + MovesFrom(ns, p)
    decreases |ms|
  {
    if ms == [] {
      assert ms + ns == ns;
    } else {
      assert (ms + ns)[0] == ms[0] && (ms + ns)[1..] == ms[1..] + ns;
      MovesFromAppend(ms[1..], ns, p);
      var h := if ms[0].from == p then [ms[0]] else [];
      assert h + MovesFrom(ms[1..], p) + MovesFrom(ns, p) == h + (MovesFrom(ms[1..], p) + MovesFrom(ns, p));
    }
  }

  /** The automaton of the table over the states below `n`. */
  function TableAutomaton(next: Table, n: nat, initial: State, finals: set<State>): Automaton
  {
    Automaton(Below(n), initial, finals, TableMoves(next, n), false)
  }

  /** Every successor of a state below `n` is below `n`. */
  ghost predicate Inside(next: Table, n: nat)
  {
    forall x, c :: 0 <= x < n ==> 0 <= next(x, c) < n
  }

  /** `a` is the automaton of the table as far as a test sees it: its states, its start, its
      final states and the moves of each state in list order. */
  ghost predicate Tabled(a: Automaton, next: Table, n: nat, initial: State, finals: set<State>)
  {
    && a.states == Below(n) && a.initial == initial && a.finals == finals && !a.isEmpty
    && forall p {:trigger MovesFrom(a.moves, p)} ::
         MovesFrom(a.moves, p) == if 0 <= p < n then StateMoves(next, p) else []
  }

  lemma TableTabled(next: Table, n: nat, initial: State, finals: set<State>)
    ensures Tabled(TableAutomaton(next, n, initial, finals), next, n, initial, finals)
  {
    var a := TableAutomaton(next, n, initial, finals);
    forall p ensures MovesFrom(a.moves, p) == if 0 <= p < n then StateMoves(next, p) else [] {
      TableMovesFrom(next, n, p);
    }
  }

  /** The automaton of a table whose successors, start and final states are its states is a
      valid automaton over {0, 1}. */
  lemma TableValid(a: Automaton, next: Table, n: nat, initial: State, finals: set<State>)
    requires Tabled(a, next, n, initial, finals) && Inside(next, n) && n < IntMax
    requires 0 <= initial < n && forall x :: x in finals ==> 0 <= x < n
    ensures ValidAutomaton(Algebra({0, 1}), a)
  {
    BelowSize(n);
    assert a.initial in a.states && a.finals <= a.states;
    assert forall s :: s in a.states ==> 0 <= s < IntMax;
    forall m | m in a.moves ensures m.from in a.states && m.to in a.states && m.guard != {} && m.guard <= {0, 1} {
      TableMoveInside(a, next, n, initial, finals, m);
    }
    forall x | x in a.states ensures Deterministic(Algebra({0, 1}), a, x) {
      TableDeterministic(a, next, n, initial, finals, x);
    }
  }

  /** Every move of the table leaves and enters a state below `n` on 0 or on 1. */
  lemma TableMoveInside(a: Automaton, next: Table, n: nat, initial: State, finals: set<State>, m: Move)
    requires Tabled(a, next, n, initial, finals) && Inside(next, n) && m in a.moves
    ensures m.from in a.states && m.to in a.states && m.guard != {} && m.guard <= {0, 1}
  {
    assert m in MovesFrom(a.moves, m.from);
  }

  /** Every state of the table has one move on 0 and one on 1. */
  lemma TableDeterministic(a: Automaton, next: Table, n: nat, initial: State, finals: set<State>, x: State)
    requires Tabled(a, next, n, initial, finals) && x in a.states
    ensures Deterministic(Algebra({0, 1}), a, x)
  {
    assert MovesFrom(a.moves, x) == StateMoves(next, x);
    TwoMoves(x, next(x, 0), next(x, 1));
  }

  /** A move on 0 and a move on 1 have disjoint guards that cover {0, 1}. */
  lemma TwoMoves(x: State, t0: State, t1: State)
    ensures GuardsDisjoint([Move(x, t0, {0}), Move(x, t1, {1})])
    ensures Cover([Move(x, t0, {0}), Move(x, t1, {1})]) == {0, 1}
  {
    var ms := [Move(x, t0, {0}), Move(x, t1, {1})];
    assert ms[1..] == [Move(x, t1, {1})] && ms[1..][1..] == [];
  }

  /** The successor of a state on 0 or 1 is the one the table gives. */
  lemma TableTarget(a: Automaton, next: Table, n: nat, initial: State, finals: set<State>, x: State, c: Sym)
    requires Tabled(a, next, n, initial, finals) && 0 <= x < n && (c == 0 || c == 1)
    ensures Target(a, x, c) == Some(next(x, c))
  {
    var ms := MovesFrom(a.moves, x);
    assert ms == StateMoves(next, x);
    if c == 1 {
      assert ms[1..] == [Move(x, next(x, 1), {1})];
    }
  }

  /** States whose successors on one symbol are inequivalent are inequivalent. */
  lemma SuccessorsSeparate(a: Automaton, x: State, y: State, c: Sym, tx: State, ty: State)
    requires Target(a, x, c) == Some(tx) && Target(a, y, c) == Some(ty) && !Equivalent(a, tx, ty)
    ensures !Equivalent(a, x, y)
  {
    var w :| Accepts(a, tx, w) != Accepts(a, ty, w);
    var cw := [c] + w;
    assert cw[0] == c && cw[1..] == w;
    assert Accepts(a, x, cw) != Accepts(a, y, cw);
  }

  /** Two states of the table whose successors on 0 or 1 are inequivalent are inequivalent. */
  lemma TableSeparates(a: Automaton, next: Table, n: nat, initial: State, finals: set<State>,
                       x: State, y: State, c: Sym)
    requires Tabled(a, next, n, initial, finals) && 0 <= x < n && 0 <= y < n && (c == 0 || c == 1)
    requires !Equivalent(a, next(x, c), next(y, c))
    ensures !Equivalent(a, x, y)
  {
    TableTarget(a, next, n, initial, finals, x, c);
    TableTarget(a, next, n, initial, finals, y, c);
    SuccessorsSeparate(a, x, y, c, next(x, c), next(y, c));
  }

  /** `d` is a distance table: at every state, as `DistanceAt` says. */
  ghost predicate DistanceTable(next: Table, n: nat, finals: set<State>, d: State -> nat)
  {
    forall x :: 0 <= x < n ==> DistanceAt(next, n, finals, d, x)
  }

  /** The distance of `x` is 0 exactly when `x` is final, is below `n`, and is otherwise one more
      than the least distance of its two successors. */
  ghost predicate DistanceAt(next: Table, n: nat, finals: set<State>, d: State -> nat, x: State)
  {
    && (x in finals <==> d(x) == 0) && d(x) < n
    && d(x) <= d(next(x, 0)) + 1 && d(x) <= d(next(x, 1)) + 1
    && (d(x) > 0 ==> d(next(x, 0)) == d(x) - 1 || d(next(x, 1)) == d(x) - 1)
  }

  /** The distances of the states below `n`, as a map. */
  function DistanceMap(n: nat, d: State -> nat): map<State, int>
  {
    map x: State | x in Below(n) :: d(x)
  }

  /** The partition with every state below `n` alone in its class. */
  function Alone(n: nat): map<State, State>
  {
    map x: State | x in Below(n) :: x
  }

  /** A distance table is the distance map of the automaton. */
  lemma TableDistances(a: Automaton, next: Table, n: nat, initial: State, finals: set<State>, d: State -> nat)
    requires Tabled(a, next, n, initial, finals) && Inside(next, n) && n <= IntMax
    requires DistanceTable(next, n, finals, d)
    ensures IsDistanceMap(a, DistanceMap(n, d))
  {
    forall x | x in DistanceMap(n, d) ensures Shortest(a, x, DistanceMap(n, d)[x]) {
      TableShortest(a, next, n, initial, finals, d, x);
    }
  }

  /** A distance table gives the shortest distance of every state to a final state. */
  lemma TableShortest(a: Automaton, next: Table, n: nat, initial: State, finals: set<State>,
                      d: State -> nat, x: State)
    requires Tabled(a, next, n, initial, finals) && Inside(next, n) && n <= IntMax
    requires DistanceTable(next, n, finals, d) && 0 <= x < n
    ensures Shortest(a, x, d(x))
  {
    assert DistanceAt(next, n, finals, d, x);
    TablePath(a, next, n, initial, finals, d, x, d(x));
    forall k: nat | PathTo(a, x, k) ensures d(x) <= k {
      TablePathLonger(a, next, n, initial, finals, d, x, k);
    }
  }

  /** From a state at distance `k` a path of `k` moves reaches a final state. */
  lemma {:induction false} TablePath(a: Automaton, next: Table, n: nat, initial: State, finals: set<State>,
                                     d: State -> nat, x: State, k: nat)
    requires Tabled(a, next, n, initial, finals) && Inside(next, n)
    requires DistanceTable(next, n, finals, d) && 0 <= x < n && d(x) == k
    ensures PathTo(a, x, k)
    decreases k
  {
    assert DistanceAt(next, n, finals, d, x);
    if k > 0 {
      var c := if d(next(x, 0)) == k - 1 then 0 else 1;
      TablePath(a, next, n, initial, finals, d, next(x, c), k - 1);
      TableStep(a, next, n, initial, finals, x, c, k - 1);
    }
  }

  /** A path from a successor of `x` is a path from `x` one move longer. */
  lemma TableStep(a: Automaton, next: Table, n: nat, initial: State, finals: set<State>, x: State, c: Sym, k: nat)
    requires Tabled(a, next, n, initial, finals) && 0 <= x < n && (c == 0 || c == 1)
    requires PathTo(a, next(x, c), k)
    ensures PathTo(a, x, k + 1)
  {
    var m := StateMoves(next, x)[c];
    assert m in MovesFrom(a.moves, x);
    PathStep(a, m, k);
  }

  /** A path from `x` goes on through one of its two successors. */
  lemma TableBack(a: Automaton, next: Table, n: nat, initial: State, finals: set<State>, x: State, k: nat)
    requires Tabled(a, next, n, initial, finals) && PathTo(a, x, k + 1)
    ensures PathTo(a, next(x, 0), k) || PathTo(a, next(x, 1), k)
  {
    var i :| 0 <= i < |a.moves| && a.moves[i].from == x && PathTo(a, a.moves[i].to, k);
    var m := a.moves[i];
    assert m in MovesFrom(a.moves, x);
  }

  /** No path to a final state is shorter than the distance. */
  lemma {:induction false} TablePathLonger(a: Automaton, next: Table, n: nat, initial: State, finals: set<State>,
                                           d: State -> nat, x: State, k: nat)
    requires Tabled(a, next, n, initial, finals) && Inside(next, n)
    requires DistanceTable(next, n, finals, d) && 0 <= x < n && PathTo(a, x, k)
    ensures d(x) <= k
    decreases k
  {
    assert DistanceAt(next, n, finals, d, x);
    if k > 0 {
      TableBack(a, next, n, initial, finals, x, k - 1);
      var c := if PathTo(a, next(x, 0), k - 1) then 0 else 1;
      TablePathLonger(a, next, n, initial, finals, d, next(x, c), k - 1);
    }
  }
}
