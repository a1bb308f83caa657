/**
 * What the equivalence tests establish about the automaton's language, shared by every variant:
 * a partition is sound when each state accepts the same words as the identifier of its class;
 * a set of pairs closed under successors (up to that partition) holds only equivalent states;
 * a pair with inequivalent successor classes is inequivalent; merging equivalent classes keeps a
 * partition sound; and the automaton rebuilt from a sound partition accepts the same words.
 */
module Equivalence {
  import opened Base
  import opened Sfa
  import opened UnionFind
  import opened Distance

  /** Every state accepts what the identifier of its class accepts. */
  ghost predicate SoundPartition(a: Automaton, root: map<State, State>)
  {
    forall x {:trigger root[x]} :: x in root ==> Equivalent(a, x, root[x])
  }

  /** `root` maps the states to identifiers that identify themselves. */
  ghost predicate Identifies(a: Automaton, root: map<State, State>)
  {
    && root.Keys == a.states
    && (forall x {:trigger root[x]} :: x in root ==> root[x] in root && root[root[x]] == root[x])
  }

  /** Every pair of the not-equal cache holds two inequivalent states. */
  ghost predicate NeqSound(a: Automaton, neq: set<Pair>)
  {
    forall pr :: pr in neq ==> !Equivalent(a, pr.fst, pr.snd)
  }

  /** `pr` or its mirror image is in `t`. */
  predicate InEitherOrder(x: State, y: State, t: set<Pair>)
  {
    Pair(x, y) in t || Pair(y, x) in t
  }

  /** On symbol `c` the successor classes of `x` and `y` coincide or form a pair of `t`. */
  ghost predicate Handled(a: Automaton, root: map<State, State>, x: State, y: State, c: Sym, t: set<Pair>)
  {
    var tx, ty := Target(a, x, c), Target(a, y, c);
    && tx.Some? && ty.Some? && tx.value in root && ty.value in root
    && (root[tx.value] == root[ty.value] || InEitherOrder(root[tx.value], root[ty.value], t))
  }

  ghost predicate HandledOn(a: Automaton, root: map<State, State>, x: State, y: State, cs: set<Sym>, t: set<Pair>)
  {
    forall c :: c in cs ==> Handled(a, root, x, y, c, t)
  }

  /** `x` and `y` are closed with respect to the assumed pairs `t`: every symbol is handled. */
  ghost predicate Closed(ba: Algebra, a: Automaton, root: map<State, State>, x: State, y: State, t: set<Pair>)
  {
    HandledOn(a, root, x, y, ba.universe, t)
  }

  /** Every pair of `r` is closed with respect to `t` and agrees on acceptance of the empty word. */
  ghost predicate AllClosed(ba: Algebra, a: Automaton, root: map<State, State>, r: set<Pair>, t: set<Pair>)
  {
    forall pr :: pr in r ==>
      && pr.fst in a.states && pr.snd in a.states
      && (pr.fst in a.finals <==> pr.snd in a.finals)
      && Closed(ba, a, root, pr.fst, pr.snd, t)
  }

  lemma HandledGrow(a: Automaton, root: map<State, State>, x: State, y: State, cs: set<Sym>, t: set<Pair>, t': set<Pair>)
    requires HandledOn(a, root, x, y, cs, t) && t <= t'
    ensures HandledOn(a, root, x, y, cs, t')
  {
    forall c | c in cs ensures Handled(a, root, x, y, c, t') {
      assert Handled(a, root, x, y, c, t);
    }
  }

  lemma HandledUnion(a: Automaton, root: map<State, State>, x: State, y: State, cs: set<Sym>, ds: set<Sym>, t: set<Pair>)
    requires HandledOn(a, root, x, y, cs, t) && HandledOn(a, root, x, y, ds, t)
    ensures HandledOn(a, root, x, y, cs + ds, t)
  {
  }

  lemma HandledMirror(a: Automaton, root: map<State, State>, x: State, y: State, cs: set<Sym>, t: set<Pair>)
    requires HandledOn(a, root, x, y, cs, t)
    ensures HandledOn(a, root, y, x, cs, t)
  {
    forall c | c in cs ensures Handled(a, root, y, x, c, t) {
      assert Handled(a, root, x, y, c, t);
    }
  }

  lemma AllClosedGrow(ba: Algebra, a: Automaton, root: map<State, State>, r: set<Pair>, t: set<Pair>, t': set<Pair>)
    requires AllClosed(ba, a, root, r, t) && t <= t'
    ensures AllClosed(ba, a, root, r, t')
  {
    forall pr | pr in r ensures Closed(ba, a, root, pr.fst, pr.snd, t') {
      HandledGrow(a, root, pr.fst, pr.snd, ba.universe, t, t');
    }
  }

  lemma EquivalentSymmetric(a: Automaton, x: State, y: State)
    requires Equivalent(a, x, y)
    ensures Equivalent(a, y, x)
  {
  }

  lemma EquivalentTransitive(a: Automaton, x: State, y: State, z: State)
    requires Equivalent(a, x, y) && Equivalent(a, y, z)
    ensures Equivalent(a, x, z)
  {
    forall w ensures Accepts(a, x, w) == Accepts(a, z, w) {
      assert Accepts(a, x, w) == Accepts(a, y, w);
    }
  }

  /** A symbol outside the universe leads nowhere from a state of a valid automaton. */
  lemma NoTargetOutside(ba: Algebra, a: Automaton, x: State, c: Sym)
    requires ValidAutomaton(ba, a) && x in a.states && c !in ba.universe
    ensures Target(a, x, c) == None
  {
    var ms := MovesFrom(a.moves, x);
    forall i | 0 <= i < |ms| ensures c !in ms[i].guard {
      assert ms[i] in ms;
    }
  }

  /** One word more: if all pairs of `r` agree on words no longer than `w` shortened by one, their
      two states agree on `w`. The pairs of `t` outside `r` are known equivalent. */
  lemma {:induction false} ClosedPairsAgree(ba: Algebra, a: Automaton, root: map<State, State>, r: set<Pair>,
                                            t: set<Pair>, w: seq<Sym>)
    requires ValidAutomaton(ba, a) && SoundPartition(a, root)
    requires AllClosed(ba, a, root, r, t) && KnownOutside(a, r, t)
    ensures forall pr :: pr in r ==> Accepts(a, pr.fst, w) == Accepts(a, pr.snd, w)
    decreases |w|
  {
    if w != [] {
      ClosedPairsAgree(ba, a, root, r, t, w[1..]);
      forall pr | pr in r ensures Accepts(a, pr.fst, w) == Accepts(a, pr.snd, w) {
        PairStep(ba, a, root, r, t, pr, w);
      }
    }
  }

  /** Every pair of `t` that is not in `r` holds two equivalent states. */
  ghost predicate KnownOutside(a: Automaton, r: set<Pair>, t: set<Pair>)
  {
    forall pr :: pr in t && pr !in r ==> Equivalent(a, pr.fst, pr.snd)
  }

  lemma PairStep(ba: Algebra, a: Automaton, root: map<State, State>, r: set<Pair>, t: set<Pair>, pr: Pair, w: seq<Sym>)
    requires ValidAutomaton(ba, a) && SoundPartition(a, root)
    requires AllClosed(ba, a, root, r, t) && KnownOutside(a, r, t) && pr in r && w != []
    requires forall pr' :: pr' in r ==> Accepts(a, pr'.fst, w[1..]) == Accepts(a, pr'.snd, w[1..])
    ensures Accepts(a, pr.fst, w) == Accepts(a, pr.snd, w)
  {
    var x, y, c := pr.fst, pr.snd, w[0];
    if c !in ba.universe {
      NoTargetOutside(ba, a, x, c);
      NoTargetOutside(ba, a, y, c);
    } else {
      assert Handled(a, root, x, y, c, t);
      var tx, ty := Target(a, x, c).value, Target(a, y, c).value;
      var rx, ry := root[tx], root[ty];
      assert Accepts(a, x, w) == Accepts(a, tx, w[1..]);
      assert Accepts(a, y, w) == Accepts(a, ty, w[1..]);
      assert Equivalent(a, tx, rx) && Equivalent(a, ty, ry);
      assert Accepts(a, tx, w[1..]) == Accepts(a, rx, w[1..]);
      assert Accepts(a, ty, w[1..]) == Accepts(a, ry, w[1..]);
      if rx != ry {
        if Pair(rx, ry) in t {
          assert Accepts(a, rx, w[1..]) == Accepts(a, ry, w[1..]);
        } else {
          assert Pair(ry, rx) in t;
          assert Accepts(a, ry, w[1..]) == Accepts(a, rx, w[1..]);
        }
      }
    }
  }

  /** Pairs closed among themselves (up to a sound partition) hold equivalent states. */
  lemma ClosedPairsEquivalent(ba: Algebra, a: Automaton, root: map<State, State>, r: set<Pair>)
    requires ValidAutomaton(ba, a) && SoundPartition(a, root)
    requires AllClosed(ba, a, root, r, r)
    ensures forall pr :: pr in r ==> Equivalent(a, pr.fst, pr.snd)
  {
    ClosedUpToEquivalent(ba, a, root, r, r);
  }

  /** Pairs closed up to themselves and to pairs known equivalent hold equivalent states. */
  lemma ClosedUpToEquivalent(ba: Algebra, a: Automaton, root: map<State, State>, r: set<Pair>, t: set<Pair>)
    requires ValidAutomaton(ba, a) && SoundPartition(a, root)
    requires AllClosed(ba, a, root, r, t) && KnownOutside(a, r, t)
    ensures forall pr :: pr in r ==> Equivalent(a, pr.fst, pr.snd)
  {
    forall pr | pr in r ensures Equivalent(a, pr.fst, pr.snd) {
      forall w ensures Accepts(a, pr.fst, w) == Accepts(a, pr.snd, w) {
        ClosedPairsAgree(ba, a, root, r, t, w);
      }
    }
  }

  /** If the classes `x` and `y` reach on symbol `c` are inequivalent, so are `x` and `y`. */
  lemma InequivalentSuccessors(a: Automaton, root: map<State, State>, x: State, y: State, c: Sym, tx: State, ty: State)
    requires SoundPartition(a, root)
    requires Target(a, x, c) == Some(tx) && Target(a, y, c) == Some(ty) && tx in root && ty in root
    requires !Equivalent(a, root[tx], root[ty])
    ensures !Equivalent(a, x, y)
  {
    var w :| Accepts(a, root[tx], w) != Accepts(a, root[ty], w);
    assert Accepts(a, tx, w) == Accepts(a, root[tx], w);
    assert Accepts(a, ty, w) == Accepts(a, root[ty], w);
    var cw := [c] + w;
    assert cw[1..] == w;
    assert Accepts(a, x, cw) != Accepts(a, y, cw);
  }

  /** Two states at different distances from a final state are inequivalent. */
  lemma DistinctDistances(ba: Algebra, a: Automaton, dist: map<State, int>, x: State, y: State)
    requires ValidAutomaton(ba, a) && IsDistanceMap(a, dist) && x in a.states && y in a.states
    requires dist[x] != dist[y]
    ensures !Equivalent(a, x, y)
  {
    if Equivalent(a, x, y) {
      EquivalentSameDistance(ba, a, dist, x, y);
    }
  }

  /** Equal distances mean equal finality. */
  lemma SameDistanceSameFinality(a: Automaton, dist: map<State, int>, x: State, y: State)
    requires IsDistanceMap(a, dist) && x in a.states && y in a.states && dist[x] == dist[y]
    ensures x in a.finals <==> y in a.finals
  {
    DistanceZeroIffFinal(a, dist, x);
    DistanceZeroIffFinal(a, dist, y);
  }

  // ---------------------------------------------------------------------------------------------
  // Merging classes.
  // ---------------------------------------------------------------------------------------------

  /** Hanging the class of `loser` below an equivalent identifier keeps the partition sound. */
  lemma RedirectSound(a: Automaton, root: map<State, State>, loser: State, winner: State)
    requires SoundPartition(a, root) && Equivalent(a, loser, winner)
    ensures SoundPartition(a, Redirect(root, loser, winner))
  {
    var root' := Redirect(root, loser, winner);
    forall x | x in root' ensures Equivalent(a, x, root'[x]) {
      if root[x] == loser {
        EquivalentTransitive(a, x, loser, winner);
      }
    }
  }

  /** Merging the classes of two equivalent elements keeps the partition sound. */
  lemma MergeSound(a: Automaton, root: map<State, State>, rank: map<State, int>, e1: State, e2: State)
    requires SoundPartition(a, root) && e1 in root && e2 in root
    requires root[e1] in rank && root[e2] in rank
    requires Equivalent(a, e1, e2)
    ensures SoundPartition(a, MergedRoot(root, rank, root[e1], root[e2]))
  {
    var r1, r2 := root[e1], root[e2];
    EquivalentSymmetric(a, e1, r1);
    EquivalentTransitive(a, r1, e1, e2);
    EquivalentTransitive(a, r1, e2, r2);
    if r1 != r2 {
      if rank[r1] >= rank[r2] {
        EquivalentSymmetric(a, r1, r2);
        RedirectSound(a, root, r2, r1);
      } else {
        RedirectSound(a, root, r1, r2);
      }
    }
  }

  /** Merging classes keeps every pair that shared a class in one class. */
  lemma MergeCoarsens(root: map<State, State>, rank: map<State, int>, r1: State, r2: State, x: State, y: State)
    requires r1 in rank && r2 in rank && x in root && y in root && root[x] == root[y]
    ensures x in MergedRoot(root, rank, r1, r2) && y in MergedRoot(root, rank, r1, r2)
    ensures MergedRoot(root, rank, r1, r2)[x] == MergedRoot(root, rank, r1, r2)[y]
  {
  }

  /** After merging the classes of `e1` and `e2`, the two share a class. */
  lemma MergeJoins(root: map<State, State>, rank: map<State, int>, e1: State, e2: State)
    requires e1 in root && e2 in root && root[e1] in rank && root[e2] in rank
    ensures MergedRoot(root, rank, root[e1], root[e2])[e1] == MergedRoot(root, rank, root[e1], root[e2])[e2]
  {
  }

  // ---------------------------------------------------------------------------------------------
  // The automaton rebuilt from a partition.
  // ---------------------------------------------------------------------------------------------

  /** The move of the rebuilt automaton made from move `t` of the source automaton. */
  function QuotientMove(root: map<State, State>, t: Move): Move
    requires t.from in root && t.to in root
  {
    Move(root[t.from], root[t.to], t.guard)
  }

  /** `q` is the automaton mergeSFAStates builds from the partition `root`: the identifiers are
      the states, every move leaves from the identifier of its source's class and enters the
      identifier of its target's class, the initial state is the identifier of the initial
      state's class, and the final states are the final identifiers. */
  ghost predicate IsQuotient(a: Automaton, root: map<State, State>, q: Automaton)
  {
    && q.states == RootsOf(root)
    && a.initial in root && q.initial == root[a.initial]
    && q.finals == q.states * a.finals
    && (forall t :: t in a.moves ==> t.from in root && t.to in root && QuotientMove(root, t) in q.moves)
    && (forall m :: m in q.moves ==> exists t :: t in a.moves && t.from in root && t.to in root && m == QuotientMove(root, t))
  }

  /** The rebuilt automaton accepts from the identifier of a class what the source automaton
      accepts from any state of that class. */
  lemma {:induction false} QuotientAccepts(ba: Algebra, a: Automaton, root: map<State, State>, q: Automaton, x: State, w: seq<Sym>)
    requires ValidAutomaton(ba, a) && Identifies(a, root) && SoundPartition(a, root)
    requires IsQuotient(a, root, q) && x in a.states
    ensures Accepts(q, root[x], w) == Accepts(a, x, w)
    decreases |w|
  {
    var rx := root[x];
    assert Equivalent(a, x, rx);
    assert Accepts(a, x, w) == Accepts(a, rx, w);
    if w == [] {
      assert rx in RootsOf(root);
    } else if w[0] !in ba.universe {
      NoTargetOutside(ba, a, x, w[0]);
      QuotientNoTarget(a, root, q, rx, w[0]);
    } else {
      var t := QuotientTarget(ba, a, root, q, x, w[0]);
      QuotientAccepts(ba, a, root, q, t.to, w[1..]);
      TargetOfMove(ba, a, t, w[0]);
      assert Accepts(q, rx, w) == Accepts(a, t.to, w[1..]);
      assert Accepts(a, t.from, w) == Accepts(a, t.to, w[1..]);
      assert Equivalent(a, t.from, root[t.from]);
    }
  }

  /** Along any run of the rebuilt automaton, not only along first moves, the identifier of a
      class accepts what the source automaton accepts from any state of that class. */
  lemma {:induction false} QuotientAcceptsSome(ba: Algebra, a: Automaton, root: map<State, State>, q: Automaton, x: State, w: seq<Sym>)
    requires ValidAutomaton(ba, a) && Identifies(a, root) && SoundPartition(a, root)
    requires IsQuotient(a, root, q) && x in a.states
    ensures AcceptsSome(q, root[x], w) == Accepts(a, x, w)
    decreases |w|
  {
    var rx := root[x];
    assert Equivalent(a, x, rx);
    assert Accepts(a, x, w) == Accepts(a, rx, w);
    if w == [] {
      assert rx in RootsOf(root);
    } else {
      if AcceptsSome(q, rx, w) {
        var m :| m in q.moves && m.from == rx && w[0] in m.guard && AcceptsSome(q, m.to, w[1..]);
        var t := QuotientOrigin(a, root, q, m);
        QuotientAcceptsSome(ba, a, root, q, t.to, w[1..]);
        TargetOfMove(ba, a, t, w[0]);
        assert Accepts(a, t.from, w);
        assert Equivalent(a, t.from, root[t.from]);
      }
      if Accepts(a, x, w) {
        if w[0] !in ba.universe {
          NoTargetOutside(ba, a, x, w[0]);
        } else {
          var t := QuotientTarget(ba, a, root, q, x, w[0]);
          QuotientAcceptsSome(ba, a, root, q, t.to, w[1..]);
          TargetOfMove(ba, a, t, w[0]);
          assert Equivalent(a, t.from, root[t.from]);
          assert Accepts(a, t.to, w[1..]);
          assert QuotientMove(root, t) in q.moves;
        }
      }
    }
  }

  /** The rebuilt automaton has no move on a symbol no source move reads. */
  lemma QuotientNoTarget(a: Automaton, root: map<State, State>, q: Automaton, r: State, c: Sym)
    requires IsQuotient(a, root, q)
    requires forall t :: t in a.moves ==> c !in t.guard
    ensures Target(q, r, c) == None
  {
    var qms := MovesFrom(q.moves, r);
    forall i | 0 <= i < |qms| ensures c !in qms[i].guard {
      assert qms[i] in qms;
      var t :| t in a.moves && t.from in root && t.to in root && qms[i] == QuotientMove(root, t);
    }
  }

  /** On a symbol of the universe the rebuilt automaton moves from the identifier of the class of
      `x` along the image of some move `t` of that class reading `c`. */
  lemma QuotientTarget(ba: Algebra, a: Automaton, root: map<State, State>, q: Automaton, x: State, c: Sym) returns (t: Move)
    requires ValidAutomaton(ba, a) && Identifies(a, root)
    requires IsQuotient(a, root, q) && x in a.states && c in ba.universe
    ensures t in a.moves && t.from in root && t.to in root && c in t.guard
    ensures root[t.from] == root[x] && t.to in a.states
    ensures Target(q, root[x], c) == Some(root[t.to])
  {
    var rx := root[x];
    var qms := MovesFrom(q.moves, rx);
    var m := MoveReading(ba, a, x, c);
    assert QuotientMove(root, m) in qms;
    assert c in Cover(qms) by {
      var j :| 0 <= j < |qms| && qms[j] == QuotientMove(root, m);
      assert c in qms[j].guard;
    }
    var v := Target(q, rx, c).value;
    var i :| 0 <= i < |qms| && c in qms[i].guard && qms[i].to == v;
    assert qms[i] in qms;
    t := QuotientOrigin(a, root, q, qms[i]);
  }

  /** Every state of a valid automaton has a move reading each symbol of the universe. */
  lemma MoveReading(ba: Algebra, a: Automaton, x: State, c: Sym) returns (m: Move)
    requires ValidAutomaton(ba, a) && x in a.states && c in ba.universe
    ensures m in a.moves && m.from == x && c in m.guard
  {
    var ams := MovesFrom(a.moves, x);
    assert Deterministic(ba, a, x);
    assert c in Cover(ams);
    var k :| 0 <= k < |ams| && c in ams[k].guard;
    m := ams[k];
    assert m in ams;
  }

  /** Every move of the rebuilt automaton is the image of a source move. */
  lemma QuotientOrigin(a: Automaton, root: map<State, State>, q: Automaton, m: Move) returns (t: Move)
    requires IsQuotient(a, root, q) && m in q.moves
    ensures t in a.moves && t.from in root && t.to in root && m == QuotientMove(root, t)
  {
    t :| t in a.moves && t.from in root && t.to in root && m == QuotientMove(root, t);
  }

  /** Equivalent states share a class. */
  ghost predicate CompletePartition(a: Automaton, root: map<State, State>)
  {
    forall x, y :: x in root && y in root && Equivalent(a, x, y) ==> root[x] == root[y]
  }

  /** With a complete partition the rebuilt automaton has no two distinct equivalent states. */
  lemma QuotientMinimal(ba: Algebra, a: Automaton, root: map<State, State>, q: Automaton, r1: State, r2: State)
    requires ValidAutomaton(ba, a) && Identifies(a, root) && SoundPartition(a, root)
    requires IsQuotient(a, root, q) && CompletePartition(a, root)
    requires r1 in q.states && r2 in q.states && Equivalent(q, r1, r2)
    ensures r1 == r2
  {
    assert r1 in RootsOf(root) && r2 in RootsOf(root);
    assert r1 in root && root[r1] == r1 && r2 in root && root[r2] == r2;
    forall w ensures Accepts(a, r1, w) == Accepts(a, r2, w) {
      QuotientAccepts(ba, a, root, q, r1, w);
      QuotientAccepts(ba, a, root, q, r2, w);
      assert Accepts(q, r1, w) == Accepts(q, r2, w);
    }
    assert Equivalent(a, r1, r2);
  }

  /** With a sound and complete partition, two moves of the rebuilt automaton that leave one
      class on a common symbol enter one class. */
  lemma QuotientMoveAgrees(ba: Algebra, a: Automaton, root: map<State, State>, q: Automaton, m1: Move, m2: Move, c: Sym)
    requires ValidAutomaton(ba, a) && Identifies(a, root) && SoundPartition(a, root) && CompletePartition(a, root)
    requires IsQuotient(a, root, q) && m1 in q.moves && m2 in q.moves
    requires m1.from == m2.from && c in m1.guard && c in m2.guard
    ensures m1.to == m2.to
  {
    var t1 := QuotientOrigin(a, root, q, m1);
    var t2 := QuotientOrigin(a, root, q, m2);
    TargetOfMove(ba, a, t1, c);
    TargetOfMove(ba, a, t2, c);
    assert Equivalent(a, t1.from, root[t1.from]) && Equivalent(a, t2.from, root[t2.from]);
    EquivalentSymmetric(a, t2.from, root[t2.from]);
    EquivalentTransitive(a, t1.from, root[t1.from], t2.from);
    if !Equivalent(a, root[t1.to], root[t2.to]) {
      InequivalentSuccessors(a, root, t1.from, t2.from, c, t1.to, t2.to);
    }
    assert root[t1.to] in root && root[t2.to] in root;
    assert root[root[t1.to]] == root[root[t2.to]];
  }

  /** The automaton rebuilt from a sound and complete partition is deterministic once its moves
      with the same ends are joined. */
  lemma QuotientMovesAgree(ba: Algebra, a: Automaton, root: map<State, State>, q: Automaton)
    requires ValidAutomaton(ba, a) && Identifies(a, root) && SoundPartition(a, root) && CompletePartition(a, root)
    requires IsQuotient(a, root, q)
    ensures MovesAgree(q)
  {
    forall m1, m2, c | m1 in q.moves && m2 in q.moves && m1.from == m2.from && c in m1.guard && c in m2.guard
      ensures m1.to == m2.to
    {
      QuotientMoveAgrees(ba, a, root, q, m1, m2, c);
    }
  }

  /** The rebuilt automaton accepts the language of the source automaton. */
  lemma QuotientLanguage(ba: Algebra, a: Automaton, root: map<State, State>, q: Automaton)
    requires ValidAutomaton(ba, a) && Identifies(a, root) && SoundPartition(a, root)
    requires IsQuotient(a, root, q)
    ensures forall w :: Accepts(q, q.initial, w) == Accepts(a, a.initial, w)
  {
    forall w ensures Accepts(q, q.initial, w) == Accepts(a, a.initial, w) {
      QuotientAccepts(ba, a, root, q, a.initial, w);
    }
  }

  /** The rebuilt automaton accepts the language of the source automaton along any run, the
      acceptance the SFA library itself uses, whether or not the partition is complete. */
  lemma QuotientLanguageSome(ba: Algebra, a: Automaton, root: map<State, State>, q: Automaton)
    requires ValidAutomaton(ba, a) && Identifies(a, root) && SoundPartition(a, root)
    requires IsQuotient(a, root, q)
    ensures forall w :: AcceptsSome(q, q.initial, w) == Accepts(a, a.initial, w)
  {
    forall w ensures AcceptsSome(q, q.initial, w) == Accepts(a, a.initial, w) {
      QuotientAcceptsSome(ba, a, root, q, a.initial, w);
    }
  }
}
