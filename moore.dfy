// The classical Moore minimisation of MooreMinimization.java: the not-equal set starts from the
// pairs of a final and a non-final state and is refined pass after pass until a pass adds
// nothing; every state is then mapped to a representative it is not separated from, and the
// representatives with their retargeted moves make the result.

module Moore {
  import opened Base
  import opened Sfa
  import opened StateOrder
  import opened Equivalence
  import opened Splitting
  import opened Walk
  import opened Seeding

  // ---------------------------------------------------------------------------------------------
  // The refinement of the not-equal set.
  // ---------------------------------------------------------------------------------------------

  /** Every pair of the set is a pair of two states of `a`, the smaller identifier first. */
  ghost predicate OrderedStatePairs(a: Automaton, neq: set<Pair>)
  {
    forall pr :: pr in neq ==> pr.fst in a.states && pr.snd in a.states && pr.fst < pr.snd
  }

  /** No move of `ps` and move of `qs` whose guards overlap lead into a pair of `neq`. */
  ghost predicate MovesStable(ps: seq<Move>, qs: seq<Move>, neq: set<Pair>)
  {
    forall i, k :: 0 <= i < |ps| && 0 <= k < |qs| && IsSatisfiable(MkAnd(qs[k].guard, ps[i].guard)) ==>
      NormalizeById(ps[i].to, qs[k].to) !in neq
  }

  /** A pass examining the pair (p, q) would not add it. */
  ghost predicate PairStable(a: Automaton, neq: set<Pair>, p: State, q: State)
  {
    MovesStable(MovesFrom(a.moves, p), MovesFrom(a.moves, q), neq)
  }

  /** Every pair of a state of `xs` and a larger state of `ys` that is not in `neq` is stable. */
  ghost predicate RowsStable(a: Automaton, neq: set<Pair>, xs: seq<State>, ys: seq<State>)
  {
    forall p, q :: p in xs && q in ys && p < q && Pair(p, q) !in neq ==> PairStable(a, neq, p, q)
  }

  /** The fixpoint: no pass would add a pair. */
  ghost predicate Stable(a: Automaton, neq: set<Pair>)
  {
    forall p, q :: p in a.states && q in a.states && p < q && Pair(p, q) !in neq ==> PairStable(a, neq, p, q)
  }

  lemma MovesStableRow(ps: seq<Move>, p: Move, qs: seq<Move>, neq: set<Pair>)
    ensures MovesStable(ps + [p], qs, neq) <==> MovesStable(ps, qs, neq) && MovesStable([p], qs, neq)
  {
    if MovesStable(ps, qs, neq) && MovesStable([p], qs, neq) {
      forall i, k | 0 <= i < |ps + [p]| && 0 <= k < |qs| && IsSatisfiable(MkAnd(qs[k].guard, (ps + [p])[i].guard))
        ensures NormalizeById((ps + [p])[i].to, qs[k].to) !in neq
      {
        if i == |ps| { assert [p][0] == p; } else { assert (ps + [p])[i] == ps[i]; }
      }
    }
    if MovesStable(ps + [p], qs, neq) {
      forall i, k | 0 <= i < |ps| && 0 <= k < |qs| && IsSatisfiable(MkAnd(qs[k].guard, ps[i].guard))
        ensures NormalizeById(ps[i].to, qs[k].to) !in neq
      {
        assert (ps + [p])[i] == ps[i];
      }
      assert (ps + [p])[|ps|] == p;
    }
  }

  lemma MovesStableColumn(p: Move, qs: seq<Move>, q: Move, neq: set<Pair>)
    ensures MovesStable([p], qs + [q], neq) <==>
      MovesStable([p], qs, neq) && (IsSatisfiable(MkAnd(q.guard, p.guard)) ==> NormalizeById(p.to, q.to) !in neq)
  {
    if MovesStable([p], qs + [q], neq) {
      assert (qs + [q])[|qs|] == q && [p][0] == p;
      forall i, k | 0 <= i < 1 && 0 <= k < |qs| && IsSatisfiable(MkAnd(qs[k].guard, [p][i].guard))
        ensures NormalizeById([p][i].to, qs[k].to) !in neq
      {
        assert (qs + [q])[k] == qs[k];
      }
    }
  }

  /** Two moves whose guards overlap and whose targets are inequivalent leave inequivalent states:
      a symbol of the overlap followed by a word telling the targets apart tells them apart. */
  lemma MovesSeparate(ba: Algebra, a: Automaton, phi: Move, psi: Move)
    requires ValidAutomaton(ba, a)
    requires phi in a.moves && psi in a.moves && IsSatisfiable(MkAnd(psi.guard, phi.guard))
    requires !Equivalent(a, phi.to, psi.to)
    ensures !Equivalent(a, phi.from, psi.from)
  {
    NonEmptyHasElement(MkAnd(psi.guard, phi.guard));
    var c :| c in MkAnd(psi.guard, phi.guard);
    TargetOfMove(ba, a, phi, c);
    TargetOfMove(ba, a, psi, c);
    var w :| Accepts(a, phi.to, w) != Accepts(a, psi.to, w);
    assert ([c] + w)[0] == c && ([c] + w)[1..] == w;
    assert Accepts(a, phi.from, [c] + w) != Accepts(a, psi.from, [c] + w);
  }

  /** The two move loops of one pair (p, q), p < q, not yet in the set: the pair joins the set
      when some overlapping pair of moves leads into it. */
  method RefinePair(ba: Algebra, a: Automaton, p: State, q: State, neq0: set<Pair>)
    returns (neq: set<Pair>, added: bool)
    requires ValidAutomaton(ba, a)
    ensures added ==> p < q && Pair(p, q) !in neq0 && neq == neq0 + {Pair(p, q)}
    ensures !added ==> neq == neq0 && (p < q && Pair(p, q) !in neq0 ==> PairStable(a, neq0, p, q))
    ensures NeqSound(a, neq0) ==> NeqSound(a, neq)
  {
    neq, added := neq0, false;
    if q <= p {
      return;
    }
    var pair := Pair(p, q);
    if pair in neq {
      return;
    }
    var ps, qs := MovesFrom(a.moves, p), MovesFrom(a.moves, q);
    for i := 0 to |ps|
      invariant added == !MovesStable(ps[..i], qs, neq0)
      invariant neq == if added then neq0 + {pair} else neq0
      invariant NeqSound(a, neq0) ==> NeqSound(a, neq)
    {
      MovesStableRow(ps[..i], ps[i], qs, neq0);
      assert ps[..i + 1] == ps[..i] + [ps[i]];
      assert ps[i] in ps;
      neq, added := RefineMoves(ba, a, pair, ps[i], qs, neq0, neq, added);
    }
    assert ps[..|ps|] == ps;
  }

  /** The inner move loop of a pair: the moves of the second state against one move `phi` of the
      first. */
  method RefineMoves(ba: Algebra, a: Automaton, pair: Pair, phi: Move, qs: seq<Move>,
                     neq0: set<Pair>, neqIn: set<Pair>, addedIn: bool)
    returns (neq: set<Pair>, added: bool)
    requires ValidAutomaton(ba, a) && phi in a.moves && phi.from == pair.fst
    requires forall m :: m in qs ==> m in a.moves && m.from == pair.snd
    requires neqIn == if addedIn then neq0 + {pair} else neq0
    requires NeqSound(a, neq0) ==> NeqSound(a, neqIn)
    ensures added == (addedIn || !MovesStable([phi], qs, neq0))
    ensures neq == if added then neq0 + {pair} else neq0
    ensures NeqSound(a, neq0) ==> NeqSound(a, neq)
  {
    neq, added := neqIn, addedIn;
    for k := 0 to |qs|
      invariant added == (addedIn || !MovesStable([phi], qs[..k], neq0))
      invariant neq == if added then neq0 + {pair} else neq0
      invariant NeqSound(a, neq0) ==> NeqSound(a, neq)
    {
      var psi := qs[k];
      MovesStableColumn(phi, qs[..k], psi, neq0);
      assert qs[..k + 1] == qs[..k] + [psi];
      if IsSatisfiable(MkAnd(psi.guard, phi.guard)) {
        var nextPair := NormalizeById(phi.to, psi.to);
        if nextPair in neq {
          if NeqSound(a, neq) {
            NormalizedByIdPair(a, phi.to, psi.to, {});
            assert psi in qs;
            MovesSeparate(ba, a, phi, psi);
          }
          neq := neq + {pair};
          added := true;
        }
      }
    }
    assert qs[..|qs|] == qs;
  }

  /** One row of a pass: the pairs (p, q) for every q of the list of states. */
  method RefineRow(ba: Algebra, a: Automaton, p: State, states: seq<State>, neq0: set<Pair>)
    returns (neq: set<Pair>, changed: bool)
    requires ValidAutomaton(ba, a) && p in a.states && (forall x :: x in states ==> x in a.states)
    requires OrderedStatePairs(a, neq0)
    ensures neq0 <= neq && OrderedStatePairs(a, neq)
    ensures changed <==> neq != neq0
    ensures !changed ==> RowsStable(a, neq, [p], states)
    ensures NeqSound(a, neq0) ==> NeqSound(a, neq)
  {
    neq, changed := neq0, false;
    for j := 0 to |states|
      invariant neq0 <= neq && OrderedStatePairs(a, neq)
      invariant changed <==> neq != neq0
      invariant !changed ==> RowsStable(a, neq, [p], states[..j])
      invariant NeqSound(a, neq0) ==> NeqSound(a, neq)
    {
      var added;
      neq, added := RefinePair(ba, a, p, states[j], neq);
      if added {
        assert states[j] in states;
        changed := true;
      }
      assert states[..j + 1] == states[..j] + [states[j]];
    }
    assert states[..|states|] == states;
  }

  /** One pass over every pair of states, in the order of the list of states. */
  method RefinePass(ba: Algebra, a: Automaton, states: seq<State>, neq0: set<Pair>)
    returns (neq: set<Pair>, changed: bool)
    requires ValidAutomaton(ba, a) && (forall x :: x in states ==> x in a.states)
    requires OrderedStatePairs(a, neq0)
    ensures neq0 <= neq && OrderedStatePairs(a, neq)
    ensures changed <==> neq != neq0
    ensures !changed ==> RowsStable(a, neq, states, states)
    ensures NeqSound(a, neq0) ==> NeqSound(a, neq)
  {
    neq, changed := neq0, false;
    for i := 0 to |states|
      invariant neq0 <= neq && OrderedStatePairs(a, neq)
      invariant changed <==> neq != neq0
      invariant !changed ==> RowsStable(a, neq, states[..i], states)
      invariant NeqSound(a, neq0) ==> NeqSound(a, neq)
    {
      var rowChanged;
      neq, rowChanged := RefineRow(ba, a, states[i], states, neq);
      changed := changed || rowChanged;
      assert states[..i + 1] == states[..i] + [states[i]];
    }
    assert states[..|states|] == states;
  }

  lemma OrderedInAllPairs(a: Automaton, neq: set<Pair>)
    requires OrderedStatePairs(a, neq)
    ensures neq <= AllPairs(a.states)
  {
    forall pr | pr in neq ensures pr in AllPairs(a.states) {
      assert pr == Pair(pr.fst, pr.snd);
    }
  }

  /** The passes of the fixpoint loop, repeated until one adds nothing. Each pass that changes the
      set adds a pair of states, so the loop ends. */
  method Refine(ba: Algebra, a: Automaton, states: seq<State>, neq0: set<Pair>) returns (neq: set<Pair>)
    requires ValidAutomaton(ba, a) && (forall x :: x in states <==> x in a.states)
    requires OrderedStatePairs(a, neq0)
    ensures neq0 <= neq && OrderedStatePairs(a, neq)
    ensures Stable(a, neq)
    ensures NeqSound(a, neq0) ==> NeqSound(a, neq)
  {
    neq := neq0;
    var equivChanged := true;
    while equivChanged
      invariant neq0 <= neq && OrderedStatePairs(a, neq)
      invariant !equivChanged ==> RowsStable(a, neq, states, states)
      invariant NeqSound(a, neq0) ==> NeqSound(a, neq)
      decreases |AllPairs(a.states) - neq|, if equivChanged then 1 else 0
    {
      ghost var before := neq;
      neq, equivChanged := RefinePass(ba, a, states, neq);
      if equivChanged {
        OrderedInAllPairs(a, neq);
        FewerOutside(a.states, before, neq);
      }
    }
  }

  // ---------------------------------------------------------------------------------------------
  // What the fixpoint means.
  // ---------------------------------------------------------------------------------------------

  /** At the fixpoint, the successors on one symbol of two states not separated by the set are
      not separated either. */
  lemma StableSuccessors(ba: Algebra, a: Automaton, neq: set<Pair>, p: State, q: State, c: Sym)
    requires Stable(a, neq) && p in a.states && q in a.states && p != q && NormalizeById(p, q) !in neq
    requires Target(a, p, c).Some? && Target(a, q, c).Some?
    ensures NormalizeById(Target(a, p, c).value, Target(a, q, c).value) !in neq
  {
    var ps, qs := MovesFrom(a.moves, p), MovesFrom(a.moves, q);
    var x, y := Target(a, p, c).value, Target(a, q, c).value;
    var i :| 0 <= i < |ps| && c in ps[i].guard && ps[i].to == x;
    var k :| 0 <= k < |qs| && c in qs[k].guard && qs[k].to == y;
    if p < q {
      assert PairStable(a, neq, p, q);
      assert c in MkAnd(qs[k].guard, ps[i].guard);
    } else {
      assert PairStable(a, neq, q, p);
      assert c in MkAnd(ps[i].guard, qs[k].guard);
      NormalizeByIdSymmetric(x, y);
    }
  }

  /** At the fixpoint, with the seeded pairs in the set, two states whose pair is not in the set
      accept the same words. */
  lemma {:induction false} StableAgree(ba: Algebra, a: Automaton, neq: set<Pair>, p: State, q: State, w: seq<Sym>)
    requires ValidAutomaton(ba, a) && Seed(a) <= neq && Stable(a, neq)
    requires p in a.states && q in a.states && NormalizeById(p, q) !in neq
    ensures Accepts(a, p, w) == Accepts(a, q, w)
    decreases |w|
  {
    if p == q {
    } else if w == [] {
      SeedSeparates(a, neq, p, q);
    } else if w[0] !in ba.universe {
      assert Deterministic(ba, a, p) && Deterministic(ba, a, q);
    } else {
      TargetTotal(ba, a, p, w[0]);
      TargetTotal(ba, a, q, w[0]);
      StableSuccessors(ba, a, neq, p, q, w[0]);
      StableAgree(ba, a, neq, Target(a, p, w[0]).value, Target(a, q, w[0]).value, w[1..]);
    }
  }

  /** The refined set is exactly inequivalence: a pair of states is in it if and only if the two
      states are inequivalent. */
  lemma NeqExact(ba: Algebra, a: Automaton, neq: set<Pair>, p: State, q: State)
    requires ValidAutomaton(ba, a) && Seed(a) <= neq && Stable(a, neq) && NeqSound(a, neq)
    requires p in a.states && q in a.states
    ensures NormalizeById(p, q) in neq <==> !Equivalent(a, p, q)
  {
    NormalizedByIdPair(a, p, q, {});
    if NormalizeById(p, q) !in neq {
      forall w ensures Accepts(a, p, w) == Accepts(a, q, w) {
        StableAgree(ba, a, neq, p, q, w);
      }
    }
  }

  // ---------------------------------------------------------------------------------------------
  // The representatives.
  // ---------------------------------------------------------------------------------------------

  /** Every state seen so far has a representative; the representatives are exactly the states
      mapped to themselves; any other state is not separated from its representative; two
      representatives are always separated; the final representatives and the representative of
      the initial state are recorded. */
  ghost predicate RepsInv(a: Automaton, neq: set<Pair>, seen: seq<State>, stateEquiv: map<State, State>,
                          newStates: set<State>, newFinalStates: set<State>, newInitialState: Option<State>)
  {
    && (forall x :: x in seen ==> x in stateEquiv)
    && newStates <= stateEquiv.Keys
    && (forall x :: x in stateEquiv ==> stateEquiv[x] in newStates)
    && (forall x :: x in stateEquiv ==> (stateEquiv[x] == x <==> x in newStates))
    && (forall x :: x in stateEquiv && stateEquiv[x] != x ==> NormalizeById(x, stateEquiv[x]) !in neq)
    && (forall r1, r2 :: r1 in newStates && r2 in newStates && r1 != r2 ==> NormalizeById(r1, r2) in neq)
    && newFinalStates == newStates * a.finals
    && (a.initial in stateEquiv ==> newInitialState == Some(stateEquiv[a.initial]))
  }

  /** The loops that pick the representatives: each state in turn is mapped to every earlier
      representative it is not separated from, the last one winning, and becomes a representative
      itself when there is none. */
  method Representatives(a: Automaton, states: seq<State>, neq: set<Pair>)
    returns (stateEquiv: map<State, State>, newStates: set<State>, newFinalStates: set<State>,
             newInitialState: Option<State>)
    ensures forall x :: x in stateEquiv <==> x in states
    ensures RepsInv(a, neq, states, stateEquiv, newStates, newFinalStates, newInitialState)
  {
    stateEquiv, newStates, newFinalStates, newInitialState := map[], {}, {}, None;
    for i := 0 to |states|
      invariant forall x :: x in stateEquiv ==> x in states[..i]
      invariant RepsInv(a, neq, states[..i], stateEquiv, newStates, newFinalStates, newInitialState)
    {
      var p := states[i];
      assert states[..i + 1] == states[..i] + [p];
      stateEquiv, newInitialState := MapToRepresentative(a, neq, states[..i], p, stateEquiv, newStates,
                                                         newFinalStates, newInitialState);
      if p !in stateEquiv {
        AddRepresentative(a, neq, states[..i], p, stateEquiv, newStates, newFinalStates, newInitialState);
        newStates := newStates + {p};
        stateEquiv := stateEquiv[p := p];
        if p in a.finals {
          newFinalStates := newFinalStates + {p};
        }
        if p == a.initial {
          newInitialState := Some(p);
        }
      }
    }
    assert states[..|states|] == states;
  }

  /** A state separated from every representative becomes one, mapped to itself. */
  lemma AddRepresentative(a: Automaton, neq: set<Pair>, seen: seq<State>, p: State,
                          stateEquiv: map<State, State>, newStates: set<State>, newFinalStates: set<State>,
                          newInitialState: Option<State>)
    requires RepsInv(a, neq, seen, stateEquiv, newStates, newFinalStates, newInitialState)
    requires p !in stateEquiv && forall r :: r in newStates ==> NormalizeById(p, r) in neq
    ensures RepsInv(a, neq, seen + [p], stateEquiv[p := p], newStates + {p},
                    if p in a.finals then newFinalStates + {p} else newFinalStates,
                    if p == a.initial then Some(p) else newInitialState)
  {
    forall r1, r2 | r1 in newStates + {p} && r2 in newStates + {p} && r1 != r2
      ensures NormalizeById(r1, r2) in neq
    {
      NormalizeByIdSymmetric(r1, r2);
    }
  }

  /** The inner loop of the representatives: `p` is mapped to each representative it is not
      separated from, in the order of the collection of representatives, the last one winning. */
  method MapToRepresentative(a: Automaton, neq: set<Pair>, seen: seq<State>, p: State,
                             stateEquiv0: map<State, State>, newStates: set<State>,
                             newFinalStates: set<State>, newInitialState0: Option<State>)
    returns (stateEquiv: map<State, State>, newInitialState: Option<State>)
    requires RepsInv(a, neq, seen, stateEquiv0, newStates, newFinalStates, newInitialState0)
    ensures stateEquiv0.Keys <= stateEquiv.Keys <= stateEquiv0.Keys + {p}
    ensures RepsInv(a, neq, seen, stateEquiv, newStates, newFinalStates, newInitialState)
    ensures p !in stateEquiv ==> newInitialState == newInitialState0
    ensures p !in stateEquiv ==> forall r :: r in newStates ==> NormalizeById(p, r) in neq
  {
    var reps := StateList(newStates);
    stateEquiv, newInitialState := stateEquiv0, newInitialState0;
    for l := 0 to |reps|
      invariant stateEquiv0.Keys <= stateEquiv.Keys <= stateEquiv0.Keys + {p}
      invariant RepsInv(a, neq, seen, stateEquiv, newStates, newFinalStates, newInitialState)
      invariant p !in stateEquiv ==> newInitialState == newInitialState0
      invariant p !in stateEquiv ==> forall r :: r in reps[..l] ==> NormalizeById(p, r) in neq
    {
      var q := reps[l];
      var pair := NormalizeById(p, q);
      if pair !in neq {
        stateEquiv := stateEquiv[p := q];
        if p == a.initial {
          newInitialState := Some(q);
        }
      }
      assert reps[..l + 1] == reps[..l] + [q];
    }
    assert reps[..|reps|] == reps;
  }

  // ---------------------------------------------------------------------------------------------
  // The result.
  // ---------------------------------------------------------------------------------------------

  /** Every move of `moves` leaves a state of `from` and is a move of `a` from that state with the
      same guard, retargeted to the representative of its target. */
  ghost predicate RetargetSound(a: Automaton, stateEquiv: map<State, State>, moves: seq<Move>, from: set<State>)
  {
    forall m :: m in moves ==>
      && m.from in from
      && exists t :: t in a.moves && t.from == m.from && t.guard == m.guard && t.to in stateEquiv && m.to == stateEquiv[t.to]
  }

  /** Every move of `a` leaving a state of `from` is in `moves`, retargeted. */
  ghost predicate RetargetComplete(a: Automaton, stateEquiv: map<State, State>, moves: seq<Move>, from: set<State>)
  {
    forall t :: t in a.moves && t.from in from ==> t.to in stateEquiv && Move(t.from, stateEquiv[t.to], t.guard) in moves
  }

  /** The loops that build the moves of the result: the moves leaving each representative, in the
      order of the collection of representatives, retargeted to the representatives of their
      targets. */
  method NewTransitions(ba: Algebra, a: Automaton, reps: seq<State>, stateEquiv: map<State, State>)
    returns (moves: seq<Move>)
    requires ValidAutomaton(ba, a) && a.states <= stateEquiv.Keys
    ensures RetargetSound(a, stateEquiv, moves, set x | x in reps)
    ensures RetargetComplete(a, stateEquiv, moves, set x | x in reps)
  {
    moves := [];
    for i := 0 to |reps|
      invariant RetargetSound(a, stateEquiv, moves, set x | x in reps[..i])
      invariant RetargetComplete(a, stateEquiv, moves, set x | x in reps[..i])
    {
      moves := RetargetMovesFrom(ba, a, reps[i], stateEquiv, (set x | x in reps[..i]), moves);
      assert reps[..i + 1] == reps[..i] + [reps[i]];
    }
    assert reps[..|reps|] == reps;
  }

  /** The inner loop of the moves of the result: the moves leaving `p`, retargeted and appended. */
  method RetargetMovesFrom(ba: Algebra, a: Automaton, p: State, stateEquiv: map<State, State>,
                           from: set<State>, moves0: seq<Move>)
    returns (moves: seq<Move>)
    requires ValidAutomaton(ba, a) && a.states <= stateEquiv.Keys
    requires RetargetSound(a, stateEquiv, moves0, from)
    requires RetargetComplete(a, stateEquiv, moves0, from)
    ensures RetargetSound(a, stateEquiv, moves, from + {p})
    ensures RetargetComplete(a, stateEquiv, moves, from + {p})
  {
    var ts := MovesFrom(a.moves, p);
    moves := moves0;
    for k := 0 to |ts|
      invariant RetargetSound(a, stateEquiv, moves, from + {p})
      invariant RetargetComplete(a, stateEquiv, moves, from)
      invariant forall j :: 0 <= j < k ==> ts[j].to in stateEquiv && Move(p, stateEquiv[ts[j].to], ts[j].guard) in moves
    {
      var t := ts[k];
      assert t in ts;
      RetargetAppend(a, stateEquiv, moves, from, p, t);
      moves := moves + [Move(p, stateEquiv[t.to], t.guard)];
    }
    forall t | t in a.moves && t.from in from + {p}
      ensures t.to in stateEquiv && Move(t.from, stateEquiv[t.to], t.guard) in moves
    {
      if t.from !in from {
        assert t in ts;
        var j :| 0 <= j < |ts| && ts[j] == t;
      }
    }
  }

  /** Appending the retargeted copy of a move of `a` leaving `p` keeps both properties. */
  lemma RetargetAppend(a: Automaton, stateEquiv: map<State, State>, moves: seq<Move>, from: set<State>,
                       p: State, t: Move)
    requires t in a.moves && t.from == p && t.to in stateEquiv
    requires RetargetSound(a, stateEquiv, moves, from + {p})
    requires RetargetComplete(a, stateEquiv, moves, from)
    ensures RetargetSound(a, stateEquiv, moves + [Move(p, stateEquiv[t.to], t.guard)], from + {p})
    ensures RetargetComplete(a, stateEquiv, moves + [Move(p, stateEquiv[t.to], t.guard)], from)
    ensures forall n :: n in moves ==> n in moves + [Move(p, stateEquiv[t.to], t.guard)]
  {
    var moves' := moves + [Move(p, stateEquiv[t.to], t.guard)];
    forall n | n in moves'
      ensures n.from in from + {p}
      ensures exists u :: u in a.moves && u.from == n.from && u.guard == n.guard && u.to in stateEquiv && n.to == stateEquiv[u.to]
    {
      if n !in moves {
        assert n == Move(p, stateEquiv[t.to], t.guard);
      }
    }
  }

  /** What the result is made of: representatives that are states of `a`, the final ones among
      them, moves retargeted through `stateEquiv`, and every state mapped to an equivalent
      representative. */
  ghost predicate Retargeted(a: Automaton, m: Automaton, stateEquiv: map<State, State>)
  {
    && m.states <= a.states
    && m.finals == m.states * a.finals
    && RetargetSound(a, stateEquiv, m.moves, m.states)
    && RetargetComplete(a, stateEquiv, m.moves, m.states)
    && (forall x :: x in a.states ==> x in stateEquiv && stateEquiv[x] in m.states)
  }

  /** The result of a deterministic automaton is deterministic once its moves with the same ends
      are joined: two moves leaving a representative on a common symbol are the retargets of
      moves of the original that read that symbol from the same state. */
  lemma RetargetedMovesAgree(ba: Algebra, a: Automaton, m: Automaton, stateEquiv: map<State, State>)
    requires ValidAutomaton(ba, a) && RetargetSound(a, stateEquiv, m.moves, m.states)
    ensures MovesAgree(m)
  {
    forall m1, m2, c | m1 in m.moves && m2 in m.moves && m1.from == m2.from && c in m1.guard && c in m2.guard
      ensures m1.to == m2.to
    {
      var t1 :| t1 in a.moves && t1.from == m1.from && t1.guard == m1.guard && t1.to in stateEquiv && m1.to == stateEquiv[t1.to];
      var t2 :| t2 in a.moves && t2.from == m2.from && t2.guard == m2.guard && t2.to in stateEquiv && m2.to == stateEquiv[t2.to];
      TargetOfMove(ba, a, t1, c);
      TargetOfMove(ba, a, t2, c);
    }
  }

  /** From a representative, the result moves on a symbol to the representative of the state the
      original moves to, and has no move where the original has none. */
  lemma RetargetedTarget(ba: Algebra, a: Automaton, m: Automaton, stateEquiv: map<State, State>, r: State, c: Sym)
    requires ValidAutomaton(ba, a) && Retargeted(a, m, stateEquiv) && r in m.states
    ensures Target(a, r, c).Some? <==> Target(m, r, c).Some?
    ensures Target(a, r, c).Some? ==>
      Target(a, r, c).value in a.states && Target(m, r, c) == Some(stateEquiv[Target(a, r, c).value])
  {
    if Target(m, r, c).Some? {
      ResultMoveIsRetargeted(ba, a, m, stateEquiv, r, c);
    }
    if Target(a, r, c).Some? {
      OriginalMoveIsKept(ba, a, m, stateEquiv, r, c);
      ResultMoveIsRetargeted(ba, a, m, stateEquiv, r, c);
    }
  }

  lemma ResultMoveIsRetargeted(ba: Algebra, a: Automaton, m: Automaton, stateEquiv: map<State, State>, r: State, c: Sym)
    requires ValidAutomaton(ba, a) && RetargetSound(a, stateEquiv, m.moves, m.states)
    requires Target(m, r, c).Some?
    ensures Target(a, r, c).Some? && Target(a, r, c).value in stateEquiv
    ensures Target(m, r, c) == Some(stateEquiv[Target(a, r, c).value])
  {
    var ns := MovesFrom(m.moves, r);
    var i :| 0 <= i < |ns| && c in ns[i].guard && ns[i].to == Target(m, r, c).value;
    assert ns[i] in ns;
    var t :| t in a.moves && t.from == r && t.guard == ns[i].guard && t.to in stateEquiv && ns[i].to == stateEquiv[t.to];
    TargetOfMove(ba, a, t, c);
  }

  lemma OriginalMoveIsKept(ba: Algebra, a: Automaton, m: Automaton, stateEquiv: map<State, State>, r: State, c: Sym)
    requires ValidAutomaton(ba, a) && RetargetComplete(a, stateEquiv, m.moves, m.states) && r in m.states
    requires Target(a, r, c).Some?
    ensures Target(a, r, c).value in a.states && Target(m, r, c).Some?
  {
    var ms, ns := MovesFrom(a.moves, r), MovesFrom(m.moves, r);
    var i :| 0 <= i < |ms| && c in ms[i].guard && ms[i].to == Target(a, r, c).value;
    assert ms[i] in ms;
    var n := Move(r, stateEquiv[ms[i].to], ms[i].guard);
    assert n in ns;
    var j :| 0 <= j < |ns| && ns[j] == n;
    assert c in Cover(ns);
  }

  /** A representative accepts in the result exactly the words it accepts in the original. */
  lemma {:induction false} RetargetedAccepts(ba: Algebra, a: Automaton, m: Automaton, stateEquiv: map<State, State>,
                                             r: State, w: seq<Sym>)
    requires ValidAutomaton(ba, a) && Retargeted(a, m, stateEquiv) && r in m.states
    requires forall x :: x in a.states ==> Equivalent(a, x, stateEquiv[x])
    ensures Accepts(m, r, w) == Accepts(a, r, w)
    decreases |w|
  {
    if w != [] {
      RetargetedTarget(ba, a, m, stateEquiv, r, w[0]);
      if Target(a, r, w[0]).Some? {
        var x := Target(a, r, w[0]).value;
        RetargetedAccepts(ba, a, m, stateEquiv, stateEquiv[x], w[1..]);
        assert Equivalent(a, x, stateEquiv[x]);
      }
    }
  }

  /** The second half of minimize: the representatives of the refined set and the moves leaving
      them, retargeted. */
  method Rebuild(ba: Algebra, aut: Automaton, states: seq<State>, neq: set<Pair>)
    returns (minAut: Automaton, stateEquiv: map<State, State>)
    requires ValidAutomaton(ba, aut) && (forall x :: x in states <==> x in aut.states)
    ensures Retargeted(aut, minAut, stateEquiv) && minAut.isEmpty == aut.isEmpty
    ensures minAut.initial == stateEquiv[aut.initial]
    ensures forall x :: x in aut.states && stateEquiv[x] != x ==> NormalizeById(x, stateEquiv[x]) !in neq
    ensures forall x, y :: x in minAut.states && y in minAut.states && x != y ==> NormalizeById(x, y) in neq
  {
    var newStates, newFinalStates, newInitialState;
    stateEquiv, newStates, newFinalStates, newInitialState := Representatives(aut, states, neq);
    assert newInitialState != None by {
      assert aut.initial in states;
    }
    assert aut.states <= stateEquiv.Keys by {
      forall x | x in aut.states ensures x in stateEquiv {
        assert x in states;
      }
    }
    var reps := StateList(newStates);
    var newTransitions := NewTransitions(ba, aut, reps, stateEquiv);
    assert forall x :: x in reps ==> x in newStates;
    assert forall x :: x in newStates ==> x in reps;
    assert (set x | x in reps) == newStates;
    minAut := Automaton(newStates, newInitialState.value, newFinalStates, newTransitions, aut.isEmpty);
    forall x | x in newStates ensures x in aut.states {
      assert x in stateEquiv;
      assert x in states;
    }
    assert minAut.finals == minAut.states * aut.finals;
    assert RetargetSound(aut, stateEquiv, minAut.moves, minAut.states);
    assert RetargetComplete(aut, stateEquiv, minAut.moves, minAut.states);
  }

  /** What the refined set makes of the result: every state is equivalent to its representative,
      the representatives are pairwise inequivalent, and the result accepts the language of the
      input. */
  lemma RebuiltLanguage(ba: Algebra, aut: Automaton, neq: set<Pair>, minAut: Automaton, stateEquiv: map<State, State>)
    requires ValidAutomaton(ba, aut) && Seed(aut) <= neq && Stable(aut, neq) && NeqSound(aut, neq)
    requires Retargeted(aut, minAut, stateEquiv) && minAut.initial == stateEquiv[aut.initial]
    requires forall x :: x in aut.states && stateEquiv[x] != x ==> NormalizeById(x, stateEquiv[x]) !in neq
    requires forall x, y :: x in minAut.states && y in minAut.states && x != y ==> NormalizeById(x, y) in neq
    ensures forall x :: x in aut.states ==> Equivalent(aut, x, stateEquiv[x])
    ensures forall x, y :: x in minAut.states && y in minAut.states && x != y ==> !Equivalent(aut, x, y)
    ensures forall w :: Accepts(minAut, minAut.initial, w) == Accepts(aut, aut.initial, w)
  {
    forall x | x in aut.states ensures Equivalent(aut, x, stateEquiv[x]) {
      if stateEquiv[x] != x {
        NeqExact(ba, aut, neq, x, stateEquiv[x]);
      }
    }
    forall x, y | x in minAut.states && y in minAut.states && x != y ensures !Equivalent(aut, x, y) {
      NeqExact(ba, aut, neq, x, y);
    }
    forall w ensures Accepts(minAut, minAut.initial, w) == Accepts(aut, aut.initial, w) {
      RetargetedAccepts(ba, aut, minAut, stateEquiv, minAut.initial, w);
      assert Equivalent(aut, aut.initial, stateEquiv[aut.initial]);
    }
  }

  /** minimize: the empty automaton for an empty language; otherwise the representatives of the
      refined not-equal set with their retargeted moves. The result accepts the language of the
      input and no two of its states are equivalent. */
  method Minimize(aut: Automaton, ba: Algebra) returns (minAut: Automaton, ghost stateEquiv: map<State, State>)
    requires ValidAutomaton(ba, aut)
    ensures aut.isEmpty ==> minAut == EmptySfa(ba)
    ensures !aut.isEmpty ==> Retargeted(aut, minAut, stateEquiv) && MovesAgree(minAut)
    ensures !aut.isEmpty ==> minAut.initial == stateEquiv[aut.initial]
    ensures !aut.isEmpty ==> forall x :: x in aut.states ==> Equivalent(aut, x, stateEquiv[x])
    ensures forall w :: Accepts(minAut, minAut.initial, w) == Accepts(aut, aut.initial, w)
    ensures !aut.isEmpty ==>
      forall x, y :: x in minAut.states && y in minAut.states && x != y ==> !Equivalent(aut, x, y)
  {
    if aut.isEmpty {
      minAut, stateEquiv := EmptySfa(ba), map[];
      return;
    }
    var states := StateList(aut.states);
    var neq := SeedNeq(aut, {});
    SeedSound(aut);
    SeedPairs(aut);
    neq := Refine(ba, aut, states, neq);
    var equivOf;
    minAut, equivOf := Rebuild(ba, aut, states, neq);
    stateEquiv := equivOf;
    RebuiltLanguage(ba, aut, neq, minAut, stateEquiv);
    RetargetedMovesAgree(ba, aut, minAut, stateEquiv);
  }
}
