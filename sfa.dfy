/**
 * The two collaborators of the minimiser, reduced to finite data:
 * the predicate algebra (a guard is a finite set of symbols drawn from a universe) and
 * the symbolic automaton (a finite set of states and a list of guarded moves).
 */
module Sfa {
  import opened Base

  type State = int
  type Sym = int
  type Guard = set<Sym>

  /** The Boolean algebra: `True` is the universe, conjunction is intersection,
      negation is the complement against the universe, satisfiable means non-empty. */
  datatype Algebra = Algebra(universe: set<Sym>)

  function True(ba: Algebra): Guard { ba.universe }
  function MkAnd(g: Guard, h: Guard): Guard { g * h }
  function MkNot(ba: Algebra, g: Guard): Guard { ba.universe - g }
  predicate IsSatisfiable(g: Guard) { g != {} }

  /** SFAInputMove: a move from `from` to `to` on every symbol of `guard`. */
  datatype Move = Move(from: State, to: State, guard: Guard)

  /** The automaton as the library hands it over; `isEmpty` is the library's own flag. */
  datatype Automaton = Automaton(states: set<State>, initial: State, finals: set<State>,
                                 moves: seq<Move>, isEmpty: bool)

  /** A state pair, `List<Integer>` of length two in the source. */
  datatype Pair = Pair(fst: State, snd: State)

  /** A non-empty set of pairs has an element. */
  lemma NonEmptyPairs(s: set<Pair>)
    requires s != {}
    ensures exists x :: x in s
  {
    if forall x :: x !in s {
      assert false;
    }
  }

  /** getInputMovesFrom(p): the moves leaving `p`, in list order. */
  function MovesFrom(moves: seq<Move>, p: State): (r: seq<Move>)
    ensures forall m {:trigger m in r} :: m in r <==> m in moves && m.from == p
    ensures |r| <= |moves|
  {
    if moves == [] then []
    else (if moves[0].from == p then [moves[0]] else []) + MovesFrom(moves[1..], p)
  }

  /** getInputMovesFrom(S) for a collection of states. */
  function MovesFromSet(moves: seq<Move>, s: set<State>): (r: seq<Move>)
    ensures forall m :: m in r <==> m in moves && m.from in s
  {
    if moves == [] then []
    else (if moves[0].from in s then [moves[0]] else []) + MovesFromSet(moves[1..], s)
  }

  /** getInputMovesTo(t): the moves entering `t`, in list order. */
  function MovesTo(moves: seq<Move>, t: State): (r: seq<Move>)
    ensures forall m :: m in r <==> m in moves && m.to == t
  {
    if moves == [] then []
    else (if moves[0].to == t then [moves[0]] else []) + MovesTo(moves[1..], t)
  }

  /** The union of the guards of a list of moves. */
  function Cover(ms: seq<Move>): (r: Guard)
    ensures forall c :: c in r <==> exists i :: 0 <= i < |ms| && c in ms[i].guard
  {
    if ms == [] then {}
    else
      var rest := Cover(ms[1..]);
      assert forall c :: c in rest <==> exists i :: 1 <= i < |ms| && c in ms[i].guard by {
        forall c | c in rest ensures exists i :: 1 <= i < |ms| && c in ms[i].guard {
          var k :| 0 <= k < |ms[1..]| && c in ms[1..][k].guard;
          assert c in ms[k + 1].guard;
        }
      }
      ms[0].guard + rest
  }

  ghost predicate GuardsDisjoint(ms: seq<Move>) {
    forall i, j :: 0 <= i < j < |ms| ==> ms[i].guard * ms[j].guard == {}
  }

  /** What the minimiser's constructor establishes with determinize and mkTotal: from every state,
      the non-empty guards of the leaving moves are pairwise disjoint and cover the universe. The
      library's emptiness flag is set only on an automaton that accepts no word. */
  ghost predicate ValidAutomaton(ba: Algebra, a: Automaton) {
    && a.initial in a.states
    && (a.isEmpty ==> forall w :: !Accepts(a, a.initial, w))
    && a.finals <= a.states
    && (forall s :: s in a.states ==> 0 <= s < IntMax)
    && |a.states| < IntMax
    && (forall m :: m in a.moves ==>
          m.from in a.states && m.to in a.states && m.guard != {} && m.guard <= ba.universe)
    && (forall s {:trigger Deterministic(ba, a, s)} :: s in a.states ==> Deterministic(ba, a, s))
  }

  /** Two moves that leave one state and read a common symbol enter the same state: once the
      moves with the same ends are joined into one, no state has two moves on one symbol. */
  ghost predicate MovesAgree(a: Automaton)
  {
    forall m1, m2, c :: m1 in a.moves && m2 in a.moves && m1.from == m2.from && c in m1.guard && c in m2.guard ==> m1.to == m2.to
  }

  /** The non-empty guards of the moves leaving `s` are pairwise disjoint and cover the universe. */
  ghost predicate Deterministic(ba: Algebra, a: Automaton, s: State) {
    GuardsDisjoint(MovesFrom(a.moves, s)) && Cover(MovesFrom(a.moves, s)) == ba.universe
  }

  /** The target of the first move of `ms` whose guard holds `c`. */
  function StepIn(ms: seq<Move>, c: Sym): (r: Option<State>)
    ensures r.Some? <==> c in Cover(ms)
    ensures r.Some? ==> exists i :: 0 <= i < |ms| && c in ms[i].guard && ms[i].to == r.value
  {
    if ms == [] then None
    else if c in ms[0].guard then Some(ms[0].to)
    else
      var r := StepIn(ms[1..], c);
      assert r.Some? ==> exists i :: 1 <= i < |ms| && c in ms[i].guard && ms[i].to == r.value by {
        if r.Some? {
          var k :| 0 <= k < |ms[1..]| && c in ms[1..][k].guard && ms[1..][k].to == r.value;
          assert ms[k + 1] == ms[1..][k];
        }
      }
      r
  }

  /** The successor of state `x` on symbol `c`. */
  function Target(a: Automaton, x: State, c: Sym): Option<State> {
    StepIn(MovesFrom(a.moves, x), c)
  }

  /** Acceptance of a word from a state. */
  ghost predicate Accepts(a: Automaton, s: State, w: seq<Sym>)
    decreases |w|
  {
    if w == [] then s in a.finals
    else
      match Target(a, s, w[0])
      case None => false
      case Some(t) => Accepts(a, t, w[1..])
  }

  /** Acceptance as the SFA library defines it for any automaton: some run of moves reading `w`
      from `s` ends in a final state. On a deterministic automaton it agrees with `Accepts`. */
  ghost predicate AcceptsSome(a: Automaton, s: State, w: seq<Sym>)
    decreases |w|
  {
    if w == [] then s in a.finals
    else exists m :: m in a.moves && m.from == s && w[0] in m.guard && AcceptsSome(a, m.to, w[1..])
  }

  /** On a valid (deterministic and complete) automaton the run-based acceptance and the
      first-move acceptance coincide. */
  lemma {:induction false} AcceptsSomeDeterministic(ba: Algebra, a: Automaton, s: State, w: seq<Sym>)
    requires ValidAutomaton(ba, a) && s in a.states
    ensures AcceptsSome(a, s, w) == Accepts(a, s, w)
    decreases |w|
  {
    if w != [] {
      if AcceptsSome(a, s, w) {
        var m :| m in a.moves && m.from == s && w[0] in m.guard && AcceptsSome(a, m.to, w[1..]);
        TargetOfMove(ba, a, m, w[0]);
        AcceptsSomeDeterministic(ba, a, m.to, w[1..]);
      }
      if Accepts(a, s, w) {
        var ms := MovesFrom(a.moves, s);
        var t := Target(a, s, w[0]).value;
        var i :| 0 <= i < |ms| && w[0] in ms[i].guard && ms[i].to == t;
        assert ms[i] in ms;
        AcceptsSomeDeterministic(ba, a, t, w[1..]);
      }
    }
  }

  /** An automaton without final states accepts no word along any run. */
  lemma {:induction false} NoFinalsRejects(a: Automaton, s: State, w: seq<Sym>)
    requires a.finals == {}
    ensures !AcceptsSome(a, s, w)
    decreases |w|
  {
    if w != [] {
      forall m | m in a.moves && m.from == s && w[0] in m.guard ensures !AcceptsSome(a, m.to, w[1..]) {
        NoFinalsRejects(a, m.to, w[1..]);
      }
    }
  }

  /** Language equivalence of two states. */
  ghost predicate Equivalent(a: Automaton, x: State, y: State) {
    forall w :: Accepts(a, x, w) == Accepts(a, y, w)
  }

  /** In a list with pairwise disjoint guards the first move holding `c` is the only one. */
  lemma {:induction false} StepInDisjoint(ms: seq<Move>, i: nat, c: Sym)
    requires GuardsDisjoint(ms)
    requires i < |ms| && c in ms[i].guard
    ensures StepIn(ms, c) == Some(ms[i].to)
  {
    if i > 0 {
      assert c !in ms[0].guard by {
        assert ms[0].guard * ms[i].guard == {};
        assert c !in ms[0].guard * ms[i].guard;
      }
      assert GuardsDisjoint(ms[1..]) by {
        forall k, l | 0 <= k < l < |ms[1..]| ensures ms[1..][k].guard * ms[1..][l].guard == {} {
          assert ms[1..][k] == ms[k + 1] && ms[1..][l] == ms[l + 1];
        }
      }
      assert ms[1..][i - 1] == ms[i];
      StepInDisjoint(ms[1..], i - 1, c);
    }
  }

  /** In a valid automaton a move on `c` determines the successor on `c`. */
  lemma TargetOfMove(ba: Algebra, a: Automaton, m: Move, c: Sym)
    requires ValidAutomaton(ba, a)
    requires m in a.moves && c in m.guard
    ensures Target(a, m.from, c) == Some(m.to)
  {
    var ms := MovesFrom(a.moves, m.from);
    assert m in ms;
    assert Deterministic(ba, a, m.from);
    var i :| 0 <= i < |ms| && ms[i] == m;
    StepInDisjoint(ms, i, c);
  }

  /** Every move is a step of the automaton on each symbol of its guard. */
  ghost predicate MovesAreSteps(a: Automaton)
  {
    forall m, c :: m in a.moves && c in m.guard ==> Target(a, m.from, c) == Some(m.to)
  }

  ghost predicate GuardsSatisfiable(a: Automaton)
  {
    forall m :: m in a.moves ==> m.guard != {}
  }

  lemma ValidMovesAreSteps(ba: Algebra, a: Automaton)
    requires ValidAutomaton(ba, a)
    ensures MovesAreSteps(a) && GuardsSatisfiable(a)
  {
    forall m, c | m in a.moves && c in m.guard ensures Target(a, m.from, c) == Some(m.to) {
      TargetOfMove(ba, a, m, c);
    }
  }

  /** In a valid automaton every state has a successor on every symbol of the universe. */
  lemma TargetTotal(ba: Algebra, a: Automaton, x: State, c: Sym)
    requires ValidAutomaton(ba, a)
    requires x in a.states && c in ba.universe
    ensures Target(a, x, c).Some? && Target(a, x, c).value in a.states
  {
    var ms := MovesFrom(a.moves, x);
    assert Deterministic(ba, a, x);
    assert c in Cover(ms);
    var i :| 0 <= i < |ms| && c in ms[i].guard && ms[i].to == Target(a, x, c).value;
    assert ms[i] in ms;
  }

  /** The empty automaton of the library: one non-final state 0 looping on `True`. */
  function EmptySfa(ba: Algebra): (r: Automaton)
    ensures r.isEmpty && r.finals == {}
    ensures forall w :: !Accepts(r, 0, w)
    ensures forall w :: !AcceptsSome(r, 0, w)
  {
    var r := Automaton({0}, 0, {}, [Move(0, 0, True(ba))], true);
    assert forall w :: !Accepts(r, 0, w) by {
      forall w ensures !Accepts(r, 0, w) { EmptyRejects(ba, w); }
    }
    assert forall w :: !AcceptsSome(r, 0, w) by {
      forall w ensures !AcceptsSome(r, 0, w) { NoFinalsRejects(r, 0, w); }
    }
    r
  }

  lemma {:induction false} EmptyRejects(ba: Algebra, w: seq<Sym>)
    ensures !Accepts(Automaton({0}, 0, {}, [Move(0, 0, True(ba))], true), 0, w)
    decreases |w|
  {
    if w != [] {
      EmptyRejects(ba, w[1..]);
    }
  }
}
