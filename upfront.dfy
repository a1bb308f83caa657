/**
 * The equivalence test with minterms computed up front (EquivTestNaive of IncrementalNaive.java,
 * whose isEquiv is the same code as EquivTestUpfront of the older IncrementalMinimization.java).
 * The two states of a record are compared minterm by minterm: the successor of a state on a
 * minterm is the target of the first leaving move whose guard meets the minterm.
 */
module Upfront {
  import opened Base
  import opened Sfa
  import opened UnionFind
  import opened Distance
  import opened StateOrder
  import opened Equivalence
  import opened Walk
  import opened Incremental
  import opened Minterms

  // ---------------------------------------------------------------------------------------------
  // The minterms of an automaton and the successor on a minterm.
  // ---------------------------------------------------------------------------------------------

  /** The minterms of the guards of all moves of `a`, as the constructor computes them. */
  function AutomatonMinterms(ba: Algebra, a: Automaton): seq<Guard>
  {
    MintermsOf(ba, MovesFromSet(a.moves, a.states))
  }

  /** Minterms fit an automaton when they cover the universe, are satisfiable, and each lies
      inside or outside the guard of every move. */
  ghost predicate MintermsFit(ba: Algebra, a: Automaton, minterms: seq<Guard>)
  {
    && UnionOf(minterms) == ba.universe
    && (forall i :: 0 <= i < |minterms| ==> IsSatisfiable(minterms[i]))
    && (forall i, m :: 0 <= i < |minterms| && m in a.moves ==> Separated(minterms[i], m.guard))
  }

  /** Over a satisfiable universe the minterms of a valid automaton's guards fit it. */
  lemma AutomatonMintermsFit(ba: Algebra, a: Automaton)
    requires ValidAutomaton(ba, a) && IsSatisfiable(ba.universe)
    ensures MintermsFit(ba, a, AutomatonMinterms(ba, a))
  {
    var ms := MovesFromSet(a.moves, a.states);
    var minterms := MintermsOf(ba, ms);
    MintermsPartition(ba, ms);
    forall i, m | 0 <= i < |minterms| && m in a.moves ensures Separated(minterms[i], m.guard) {
      assert m in ms;
      var k :| 0 <= k < |ms| && ms[k] == m;
      assert AllSeparated(minterms, ms[k].guard);
    }
  }

  /** The successor of `state` on `minterm` is the target of move `i` of `ms`: the first whose
      guard meets the minterm. */
  predicate FirstMeets(ms: seq<Move>, minterm: Guard, i: int)
  {
    && 0 <= i < |ms|
    && IsSatisfiable(MkAnd(minterm, ms[i].guard))
    && forall k :: 0 <= k < i ==> !IsSatisfiable(MkAnd(minterm, ms[k].guard))
  }

  /** mintermTransition: the target of the first move leaving `state` whose guard meets `minterm`,
      or nothing (the source's `null`) when none does. */
  method MintermTransition(a: Automaton, state: State, minterm: Guard) returns (toState: Option<State>)
    ensures toState.None? <==>
              forall m :: m in MovesFrom(a.moves, state) ==> !IsSatisfiable(MkAnd(minterm, m.guard))
    ensures toState.Some? ==>
              exists i :: FirstMeets(MovesFrom(a.moves, state), minterm, i)
                          && MovesFrom(a.moves, state)[i].to == toState.value
  {
    var moves := MovesFrom(a.moves, state);
    for i := 0 to |moves|
      invariant forall k :: 0 <= k < i ==> !IsSatisfiable(MkAnd(minterm, moves[k].guard))
    {
      if IsSatisfiable(MkAnd(minterm, moves[i].guard)) {
        assert FirstMeets(moves, minterm, i);
        return Some(moves[i].to);
      }
    }
    forall m | m in moves ensures !IsSatisfiable(MkAnd(minterm, m.guard)) {
      var k :| 0 <= k < |moves| && moves[k] == m;
    }
    return None;
  }

  /** On every symbol of `g` the automaton moves from `x` to `t`. */
  ghost predicate StepsOn(a: Automaton, x: State, g: Guard, t: State)
  {
    forall c :: c in g ==> Target(a, x, c) == Some(t)
  }

  /** A move leaving `x` whose guard meets one of the automaton's minterms holds the whole
      minterm, so on every symbol of the minterm the automaton moves to the move's target. */
  lemma MintermStep(ba: Algebra, a: Automaton, x: State, i: int, j: int)
    requires ValidAutomaton(ba, a) && 0 <= i < |AutomatonMinterms(ba, a)|
    requires 0 <= j < |MovesFrom(a.moves, x)|
    requires IsSatisfiable(MkAnd(AutomatonMinterms(ba, a)[i], MovesFrom(a.moves, x)[j].guard))
    ensures var m := MovesFrom(a.moves, x)[j];
            && m.to in a.states && IsSatisfiable(AutomatonMinterms(ba, a)[i])
            && StepsOn(a, x, AutomatonMinterms(ba, a)[i], m.to)
  {
    var minterm, m := AutomatonMinterms(ba, a)[i], MovesFrom(a.moves, x)[j];
    assert m in MovesFrom(a.moves, x);
    AutomatonMintermsFit(ba, a);
    assert Separated(minterm, m.guard);
    forall c | c in minterm ensures Target(a, x, c) == Some(m.to) {
      TargetOfMove(ba, a, m, c);
    }
  }

  /** From every state some leaving move meets each of the automaton's minterms, when the
      universe is satisfiable. */
  lemma MintermMoveExists(ba: Algebra, a: Automaton, x: State, i: int)
    requires ValidAutomaton(ba, a) && IsSatisfiable(ba.universe) && x in a.states
    requires 0 <= i < |AutomatonMinterms(ba, a)|
    ensures exists m :: m in MovesFrom(a.moves, x) && IsSatisfiable(MkAnd(AutomatonMinterms(ba, a)[i], m.guard))
  {
    var minterm := AutomatonMinterms(ba, a)[i];
    AutomatonMintermsFit(ba, a);
    assert IsSatisfiable(minterm);
    NonEmptyHasElement(minterm);
    var c :| c in minterm;
    var ms := MovesFrom(a.moves, x);
    assert Deterministic(ba, a, x);
    assert c in Cover(ms);
    var k :| 0 <= k < |ms| && c in ms[k].guard;
    assert c in MkAnd(minterm, ms[k].guard);
    assert ms[k] in ms;
  }

  /** No two moves leaving a state meet the same minterm: their guards would share its symbols. */
  lemma MintermMoveUnique(ba: Algebra, a: Automaton, x: State, i: int, j: int, k: int)
    requires ValidAutomaton(ba, a) && x in a.states && 0 <= i < |AutomatonMinterms(ba, a)|
    requires 0 <= j < |MovesFrom(a.moves, x)| && 0 <= k < |MovesFrom(a.moves, x)|
    requires IsSatisfiable(MkAnd(AutomatonMinterms(ba, a)[i], MovesFrom(a.moves, x)[j].guard))
    requires IsSatisfiable(MkAnd(AutomatonMinterms(ba, a)[i], MovesFrom(a.moves, x)[k].guard))
    ensures j == k
  {
    var minterm, ms := AutomatonMinterms(ba, a)[i], MovesFrom(a.moves, x);
    assert ms[j] in ms && ms[k] in ms;
    AutomatonMintermsFit(ba, a);
    assert Separated(minterm, ms[k].guard);
    NonEmptyHasElement(MkAnd(minterm, ms[j].guard));
    var c :| c in MkAnd(minterm, ms[j].guard);
    assert c in ms[k].guard;
    assert Deterministic(ba, a, x);
    assert GuardsDisjoint(ms);
  }

  // ---------------------------------------------------------------------------------------------
  // What the loops of isEquiv keep.
  // ---------------------------------------------------------------------------------------------

  /** The bookkeeping of a record under examination, with `e1` the pairs assumed before it: the
      record and the records it pushed are well formed, and each pair assumed since `e1` was
      pushed or lies on the initial path `p0` or is the start pair `s` (a pair is assumed before
      the path is consulted, so a pair of the path is assumed without a push). */
  ghost predicate RecordBook(a: Automaton, dist: map<State, int>, p0: set<Pair>, s: Pair, sound: bool,
                             rec: EquivRecord, e1: set<Pair>, e: set<Pair>, neq: set<Pair>,
                             pushed: seq<EquivRecord>, added: seq<Pair>)
  {
    && RecordOK(a, dist, e, p0, s, sound, rec)
    && RecordsOK(a, dist, e, p0, s, sound, pushed) && PairsOf(dist, pushed, added)
    && e1 <= e
    && (forall x :: x in e - e1 ==> x in added || x in p0 || x == s)
    && e - e1 <= AllPairs(a.states)
    && (pushed != [] ==> e != e1)
    && (sound ==> NeqSound(a, neq))
  }

  /** The state of the loop over the minterms: the first `i` minterms are handled. */
  ghost predicate MintermInv(a: Automaton, dist: map<State, int>, root: map<State, State>, p0: set<Pair>, s: Pair,
                             sound: bool, rec: EquivRecord, e1: set<Pair>, e: set<Pair>, neq: set<Pair>,
                             minterms: seq<Guard>, i: int, pushed: seq<EquivRecord>, added: seq<Pair>)
  {
    && 0 <= i <= |minterms|
    && HandledOn(a, root, rec.pState, rec.qState, UnionOf(minterms[..i]), e + p0 + {s})
    && RecordBook(a, dist, p0, s, sound, rec, e1, e, neq, pushed, added)
  }

  lemma MintermStart(a: Automaton, dist: map<State, int>, root: map<State, State>, p0: set<Pair>, s: Pair,
                     sound: bool, rec: EquivRecord, e1: set<Pair>, neq: set<Pair>, minterms: seq<Guard>)
    requires RecordOK(a, dist, e1, p0, s, sound, rec) && (sound ==> NeqSound(a, neq))
    ensures MintermInv(a, dist, root, p0, s, sound, rec, e1, e1, neq, minterms, 0, [], [])
  {
    assert minterms[..0] == [];
  }

  /** Handling minterm `i`: when the successor classes coincide or their pair is assumed, every
      symbol of the first `i + 1` minterms is handled. */
  lemma MintermHandled(a: Automaton, root: map<State, State>, dist: map<State, int>, x: State, y: State,
                       minterms: seq<Guard>, i: int, t: set<Pair>, tx: State, ty: State)
    requires 0 <= i < |minterms|
    requires HandledOn(a, root, x, y, UnionOf(minterms[..i]), t)
    requires StepsOn(a, x, minterms[i], tx) && StepsOn(a, y, minterms[i], ty) && tx in root && ty in root
    requires root[tx] in dist && root[ty] in dist
    requires root[tx] == root[ty] || Normalize(dist, root[tx], root[ty]) in t
    ensures HandledOn(a, root, x, y, UnionOf(minterms[..i + 1]), t)
  {
    NormalizedPair(a, dist, root[tx], root[ty], t);
    forall c | c in minterms[i] ensures Handled(a, root, x, y, c, t) {
      assert Target(a, x, c) == Some(tx) && Target(a, y, c) == Some(ty);
    }
    assert minterms[..i + 1] == minterms[..i] + [minterms[i]];
    UnionAppend(minterms[..i], [minterms[i]]);
    assert [minterms[i]][1..] == [];
    HandledUnion(a, root, x, y, UnionOf(minterms[..i]), UnionOf([minterms[i]]), t);
  }

  /** A successor pair known inequivalent: under a sound partition and cache the record's states
      are inequivalent, since they reach the two classes on every symbol of the minterm. */
  lemma MintermFails(a: Automaton, root: map<State, State>, x: State, y: State, g: Guard, tx: State, ty: State,
                     sound: bool, neq0: set<Pair>, neq: set<Pair>)
    requires sound ==> SoundPartition(a, root) && NeqSound(a, neq0)
    requires IsSatisfiable(g) && StepsOn(a, x, g, tx) && StepsOn(a, y, g, ty) && tx in root && ty in root
    requires NeqSound(a, neq0) ==> NeqSound(a, neq) && !Equivalent(a, root[tx], root[ty])
    ensures sound ==> NeqSound(a, neq) && !Equivalent(a, x, y)
  {
    if sound {
      NonEmptyHasElement(g);
      var c :| c in g;
      InequivalentSuccessors(a, root, x, y, c, tx, ty);
    }
  }

  /** A successor pair of distinct classes at equal distance that was not assumed: it is
      assumed, and pushed unless it is on the record's path. */
  lemma MintermAssumed(a: Automaton, dist: map<State, int>, p0: set<Pair>, s: Pair, sound: bool,
                       rec: EquivRecord, e1: set<Pair>, e: set<Pair>, neq: set<Pair>,
                       pushed0: seq<EquivRecord>, added0: seq<Pair>, pc: State, qc: State,
                       pushed: seq<EquivRecord>, added: seq<Pair>)
    requires IsDistanceMap(a, dist)
    requires RecordBook(a, dist, p0, s, sound, rec, e1, e, neq, pushed0, added0)
    requires pc in a.states && qc in a.states && pc != qc && dist[pc] == dist[qc]
    requires Normalize(dist, pc, qc) !in e
    requires sound && !Equivalent(a, pc, qc) ==> !Equivalent(a, rec.pState, rec.qState)
    requires var next, newPath := Normalize(dist, pc, qc), rec.curPath + {RecordPair(dist, rec)};
             && pushed == (if next !in newPath then pushed0 + [EquivRecord(pc, qc, newPath)] else pushed0)
             && added == (if next !in newPath then added0 + [next] else added0)
    ensures RecordBook(a, dist, p0, s, sound, rec, e1, e + {Normalize(dist, pc, qc)}, neq, pushed, added)
  {
    var next, newPath := Normalize(dist, pc, qc), rec.curPath + {RecordPair(dist, rec)};
    var e' := e + {next};
    RecordsGrow(a, dist, e, e', p0, s, sound, pushed0);
    assert RecordOK(a, dist, e', p0, s, sound, rec);
    if next !in newPath {
      ChildRecord(a, dist, e, e', p0, s, sound, rec, pc, qc);
      AppendRecord(a, dist, e', p0, s, sound, pushed0, added0, EquivRecord(pc, qc, newPath), next);
    } else {
      assert next in p0 || next == s;
    }
    assert next in AllPairs(a.states);
  }

  /** A minterm that does not fail the record: with `e'`, `pushed` and `added` as isEquiv leaves
      them, the first `i + 1` minterms are handled. */
  lemma MintermKept(a: Automaton, dist: map<State, int>, root: map<State, State>, p0: set<Pair>, s: Pair,
                    sound: bool, rec: EquivRecord, e1: set<Pair>, e: set<Pair>, neq: set<Pair>,
                    minterms: seq<Guard>, i: int, pushed0: seq<EquivRecord>, added0: seq<Pair>, tp: State, tq: State,
                    e': set<Pair>, pushed: seq<EquivRecord>, added: seq<Pair>)
    requires IsDistanceMap(a, dist) && Identifies(a, root)
    requires sound ==> SoundPartition(a, root)
    requires MintermInv(a, dist, root, p0, s, sound, rec, e1, e, neq, minterms, i, pushed0, added0)
    requires i < |minterms| && IsSatisfiable(minterms[i]) && tp in a.states && tq in a.states
    requires StepsOn(a, rec.pState, minterms[i], tp) && StepsOn(a, rec.qState, minterms[i], tq)
    requires var pc, qc := root[tp], root[tq];
             var next, newPath := Normalize(dist, pc, qc), rec.curPath + {RecordPair(dist, rec)};
             var assumed := pc != qc && next !in e;
             var taken := assumed && next !in newPath;
             && (assumed ==> dist[pc] == dist[qc])
             && e' == (if assumed then e + {next} else e)
             && pushed == (if taken then pushed0 + [EquivRecord(pc, qc, newPath)] else pushed0)
             && added == (if taken then added0 + [next] else added0)
    ensures MintermInv(a, dist, root, p0, s, sound, rec, e1, e', neq, minterms, i + 1, pushed, added)
  {
    var p, q := rec.pState, rec.qState;
    var pc, qc := root[tp], root[tq];
    var next := Normalize(dist, pc, qc);
    if pc != qc && next !in e {
      if sound && !Equivalent(a, pc, qc) {
        NonEmptyHasElement(minterms[i]);
        var c :| c in minterms[i];
        InequivalentSuccessors(a, root, p, q, c, tp, tq);
      }
      MintermAssumed(a, dist, p0, s, sound, rec, e1, e, neq, pushed0, added0, pc, qc, pushed, added);
    }
    HandledGrow(a, root, p, q, UnionOf(minterms[..i]), e + p0 + {s}, e' + p0 + {s});
    MintermHandled(a, root, dist, p, q, minterms, i, e' + p0 + {s}, tp, tq);
  }

  /** What examining a record leaves: its states are closed up to the assumed pairs, `s` and
      `p0`, and every pair assumed since `e0` was pushed or lies in `p0` or is `s`. */
  ghost predicate UpfrontExamined(ba: Algebra, a: Automaton, dist: map<State, int>, root: map<State, State>,
                                  p0: set<Pair>, s: Pair, sound: bool, rec: EquivRecord, e0: set<Pair>,
                                  e: set<Pair>, pushed: seq<EquivRecord>, added: seq<Pair>)
  {
    && Closed(ba, a, root, rec.pState, rec.qState, e + p0 + {s})
    && RecordsOK(a, dist, e, p0, s, sound, pushed) && PairsOf(dist, pushed, added)
    && e0 <= e
    && (forall x :: x in e - e0 ==> x in added || x in p0 || x == s)
    && e - e0 <= AllPairs(a.states)
    && (pushed != [] ==> e != e0)
  }

  /** All minterms handled: the minterms cover the universe, so the record is closed. */
  lemma MintermsDone(ba: Algebra, a: Automaton, dist: map<State, int>, root: map<State, State>, p0: set<Pair>,
                     s: Pair, sound: bool, rec: EquivRecord, e1: set<Pair>, e: set<Pair>, neq: set<Pair>,
                     minterms: seq<Guard>, pushed: seq<EquivRecord>, added: seq<Pair>)
    requires MintermInv(a, dist, root, p0, s, sound, rec, e1, e, neq, minterms, |minterms|, pushed, added)
    requires UnionOf(minterms) == ba.universe
    ensures UpfrontExamined(ba, a, dist, root, p0, s, sound, rec, e1, e, pushed, added)
  {
    assert minterms[..|minterms|] == minterms;
  }

  /** The state of isEquiv's stack loop: as for the iterative test, except that a pair assumed
      since `e0` may also lie in `p0` or be `s` without being finished or pending. */
  ghost predicate UpfrontStackInv(ba: Algebra, a: Automaton, dist: map<State, int>, root: map<State, State>,
                                  p0: set<Pair>, s: Pair, sound: bool, e0: set<Pair>, e: set<Pair>, done: set<Pair>,
                                  stack: seq<EquivRecord>, pend: seq<Pair>)
  {
    && RecordsOK(a, dist, e, p0, s, sound, stack) && PairsOf(dist, stack, pend)
    && AllClosed(ba, a, root, done, e + p0 + {s})
    && (forall x :: x in e - e0 ==> x in done || x in pend || x in p0 || x == s)
    && e - e0 <= AllPairs(a.states)
  }

  lemma UpfrontStackStart(ba: Algebra, a: Automaton, dist: map<State, int>, root: map<State, State>,
                          p0: set<Pair>, s: Pair, sound: bool, e0: set<Pair>, start: EquivRecord)
    requires RecordOK(a, dist, e0, p0, s, sound, start) && RecordPair(dist, start) == s
    ensures UpfrontStackInv(ba, a, dist, root, p0, s, sound, e0, e0, {}, [start], [s])
  {
  }

  /** Popping the last record and pushing `pushed`: the pairs assumed since the start are
      still finished, pending, in `p0` or `s`. */
  lemma UpfrontPendingStep(e0: set<Pair>, e: set<Pair>, e': set<Pair>, done: set<Pair>, pend: seq<Pair>,
                           added: seq<Pair>, p0: set<Pair>, s: Pair)
    requires pend != [] && e <= e'
    requires forall x :: x in e - e0 ==> x in done || x in pend || x in p0 || x == s
    requires forall x :: x in e' - e ==> x in added || x in p0 || x == s
    ensures forall x :: x in e' - e0 ==>
              x in done + {pend[|pend| - 1]} || x in pend[..|pend| - 1] + added || x in p0 || x == s
  {
    forall x | x in e' - e0
      ensures x in done + {pend[|pend| - 1]} || x in pend[..|pend| - 1] + added || x in p0 || x == s
    {
      if x in e - e0 && x !in done && x in pend {
        var i :| 0 <= i < |pend| && pend[i] == x;
        if i < |pend| - 1 {
          assert pend[..|pend| - 1][i] == x;
        }
      }
    }
  }

  /** One round of the stack loop: the record on top of `st` is examined and closed, its pair
      joins the finished ones and the records it pushed take its place. The measure drops when
      pairs were assumed. */
  lemma UpfrontPairDone(ba: Algebra, a: Automaton, dist: map<State, int>, root: map<State, State>,
                        p0: set<Pair>, s: Pair, sound: bool, e0: set<Pair>, e1: set<Pair>, e: set<Pair>,
                        done: set<Pair>, pend: seq<Pair>, st: seq<EquivRecord>, pushed: seq<EquivRecord>,
                        added: seq<Pair>)
    requires IsDistanceMap(a, dist) && st != [] && e0 <= e1
    requires UpfrontStackInv(ba, a, dist, root, p0, s, sound, e0, e1, done, st, pend)
    requires UpfrontExamined(ba, a, dist, root, p0, s, sound, st[|st| - 1], e1, e, pushed, added)
    ensures UpfrontStackInv(ba, a, dist, root, p0, s, sound, e0, e, done + {RecordPair(dist, st[|st| - 1])},
                            st[..|st| - 1] + pushed, pend[..|pend| - 1] + added)
    ensures e != e1 ==> |AllPairs(a.states) - e| < |AllPairs(a.states) - e1|
    ensures e == e1 ==> pushed == []
  {
    var cur := st[|st| - 1];
    var rest := st[..|st| - 1];
    assert RecordOK(a, dist, e1, p0, s, sound, cur);
    assert pend[|pend| - 1] == RecordPair(dist, cur);
    UpfrontPendingStep(e0, e1, e, done, pend, added, p0, s);
    AllClosedGrow(ba, a, root, done, e1 + p0 + {s}, e + p0 + {s});
    ClosedJoin(ba, a, root, dist, done, cur.pState, cur.qState, RecordPair(dist, cur), e + p0 + {s});
    RestPushed(a, dist, p0, s, sound, e1, e, st, pend, pushed, added);
    if e != e1 {
      FewerOutside(a.states, e1, e);
    }
  }

  /** The records below the top of the stack, with the pushed ones on top of them. */
  lemma RestPushed(a: Automaton, dist: map<State, int>, p0: set<Pair>, s: Pair, sound: bool, e1: set<Pair>,
                   e: set<Pair>, st: seq<EquivRecord>, pend: seq<Pair>, pushed: seq<EquivRecord>, added: seq<Pair>)
    requires st != [] && e1 <= e
    requires RecordsOK(a, dist, e1, p0, s, sound, st) && PairsOf(dist, st, pend)
    requires RecordsOK(a, dist, e, p0, s, sound, pushed) && PairsOf(dist, pushed, added)
    ensures RecordsOK(a, dist, e, p0, s, sound, st[..|st| - 1] + pushed)
    ensures PairsOf(dist, st[..|st| - 1] + pushed, pend[..|pend| - 1] + added)
  {
    var rest := st[..|st| - 1];
    assert RecordsOK(a, dist, e1, p0, s, sound, rest);
    RecordsGrow(a, dist, e1, e, p0, s, sound, rest);
    assert PairsOf(dist, rest, pend[..|pend| - 1]);
    StackPush(dist, rest, pend[..|pend| - 1], pushed, added);
  }

  // ---------------------------------------------------------------------------------------------
  // The outcome of isEquiv.
  // ---------------------------------------------------------------------------------------------

  /** What isEquiv promises of a test of `x` and `y` that took the cache from `neq0` to `neq`, the
      assumed pairs from `e0` to `e` and the path from `p0` to `p`. The path is never changed. On
      `true` the start pair is assumed and every newly assumed pair outside the initial path is
      closed up to the assumed pairs and the initial path. Under a sound partition and cache, the
      cache stays sound, and on `false` the start pair was on the initial path or its states are
      inequivalent. */
  ghost predicate UpfrontOutcome(ba: Algebra, a: Automaton, dist: map<State, int>, root: map<State, State>,
                                 neq0: set<Pair>, neq: set<Pair>, e0: set<Pair>, e: set<Pair>,
                                 p0: set<Pair>, p: set<Pair>, x: State, y: State, r: bool)
  {
    && x in dist && y in dist
    && e0 <= e && neq0 <= neq && p == p0
    && (r ==> Normalize(dist, x, y) in e && AllClosed(ba, a, root, e - e0 - p0, e + p0))
    && (SoundPartition(a, root) && NeqSound(a, neq0) ==>
          && NeqSound(a, neq)
          && (!r ==> Normalize(dist, x, y) in p0 || !Equivalent(a, x, y)))
  }

  /** With an empty initial path, as the driver creates it, the outcome is the one the driver
      relies on for the iterative test. */
  lemma UpfrontMeetsDriver(ba: Algebra, a: Automaton, dist: map<State, int>, root: map<State, State>,
                           neq0: set<Pair>, neq: set<Pair>, e0: set<Pair>, e: set<Pair>, p: set<Pair>,
                           x: State, y: State, r: bool)
    requires UpfrontOutcome(ba, a, dist, root, neq0, neq, e0, e, {}, p, x, y, r)
    ensures EquivOutcome(ba, a, dist, root, neq0, neq, e0, e, {}, p, x, y, r)
  {
    assert e - e0 - {} == e - e0;
    assert e + {} == e;
  }

  lemma UpfrontKnown(ba: Algebra, a: Automaton, dist: map<State, int>, root: map<State, State>,
                     neq0: set<Pair>, neq: set<Pair>, e0: set<Pair>, p0: set<Pair>, x: State, y: State)
    requires x in dist && y in dist && neq0 <= neq
    requires NeqSound(a, neq0) ==> NeqSound(a, neq) && !Equivalent(a, x, y)
    ensures UpfrontOutcome(ba, a, dist, root, neq0, neq, e0, e0, p0, p0, x, y, false)
  {
  }

  /** A failed stack loop: the start pair was on the initial path or its states are inequivalent. */
  lemma UpfrontFailedOutcome(ba: Algebra, a: Automaton, dist: map<State, int>, root: map<State, State>,
                             neq0: set<Pair>, neq: set<Pair>, e0: set<Pair>, assumed: set<Pair>, p0: set<Pair>,
                             s: Pair, x: State, y: State, sound: bool)
    requires x in dist && y in dist && s == Normalize(dist, x, y) && e0 <= assumed && neq0 <= neq
    requires SoundPartition(a, root) && NeqSound(a, neq0) ==> sound
    requires sound ==> NeqSound(a, neq) && (s in p0 || !Equivalent(a, s.fst, s.snd))
    ensures UpfrontOutcome(ba, a, dist, root, neq0, neq, e0, assumed, p0, p0, x, y, false)
  {
    NormalizedPair(a, dist, x, y, {});
  }

  /** A successful stack loop: every newly assumed pair outside `p0`, and `s`, is finished. */
  lemma UpfrontClosedOutcome(ba: Algebra, a: Automaton, dist: map<State, int>, root: map<State, State>,
                             neq0: set<Pair>, neq: set<Pair>, e0: set<Pair>, assumed: set<Pair>, done: set<Pair>,
                             p0: set<Pair>, s: Pair, x: State, y: State, sound: bool)
    requires x in dist && y in dist && s == Normalize(dist, x, y) && e0 <= assumed && neq0 <= neq
    requires s in done && forall z :: z in assumed - e0 ==> z in done || z in p0 || z == s
    requires AllClosed(ba, a, root, done, assumed + p0 + {s})
    requires SoundPartition(a, root) && NeqSound(a, neq0) ==> sound
    requires sound ==> NeqSound(a, neq)
    ensures UpfrontOutcome(ba, a, dist, root, neq0, neq, e0, assumed + {s}, p0, p0, x, y, true)
  {
    AllClosedSub(ba, a, root, done, (assumed + {s}) - e0 - p0, assumed + p0 + {s}, (assumed + {s}) + p0);
  }

  // ---------------------------------------------------------------------------------------------
  // The test.
  // ---------------------------------------------------------------------------------------------

  class EquivTestUpfront {
    const outer: IncrementalMinimization
    const equivClasses: DisjointSets
    /** The minterms of the automaton, computed once by the minimiser. */
    const minterms: seq<Guard>
    /** Pairs assumed equivalent by this test. */
    var equiv: set<Pair>
    /** The initial path; this test never changes it. */
    var path: set<Pair>

    constructor (outer: IncrementalMinimization, equivClasses: DisjointSets, minterms: seq<Guard>,
                 equiv: set<Pair>, path: set<Pair>)
      ensures this.outer == outer && this.equivClasses == equivClasses && this.minterms == minterms
      ensures this.equiv == equiv && this.path == path
    {
      this.outer := outer;
      this.equivClasses := equivClasses;
      this.minterms := minterms;
      this.equiv := equiv;
      this.path := path;
    }

    ghost predicate Valid()
      reads equivClasses
    {
      && outer.Valid() && equivClasses.Valid() && Identifies(outer.aut, equivClasses.Root)
      && minterms == AutomatonMinterms(outer.ba, outer.aut)
    }

    /** isEquiv: whether `pStart` and `qStart` are taken to be equivalent (UpfrontOutcome). It
        fails with IllegalArgument, the exception `find(null)` raises, only when some state has
        no move meeting a minterm, which a satisfiable universe rules out. */
    method IsEquiv(pStart: State, qStart: State) returns (r: Result<bool>)
      requires Valid() && pStart in outer.aut.states && qStart in outer.aut.states
      modifies this, outer, equivClasses
      ensures Valid()
      ensures equivClasses.Root == old(equivClasses.Root) && equivClasses.rankMap == old(equivClasses.rankMap)
      ensures equivClasses.parentMap.Keys == old(equivClasses.parentMap.Keys)
      ensures IsSatisfiable(outer.ba.universe) ==> r.Ok?
      ensures old(outer.neq) <= outer.neq
      ensures SoundPartition(outer.aut, equivClasses.Root) && NeqSound(outer.aut, old(outer.neq)) ==>
                NeqSound(outer.aut, outer.neq)
      ensures r.Ok? ==> UpfrontOutcome(outer.ba, outer.aut, outer.distanceToFinalMap, equivClasses.Root,
                                       old(outer.neq), outer.neq, old(equiv), equiv, old(path), path,
                                       pStart, qStart, r.value)
    {
      var e;
      r, e := Search(pStart, qStart);
      SetEquiv(e);
    }

    method SetEquiv(e: set<Pair>)
      modifies this
      ensures equiv == e && path == old(path)
    {
      equiv := e;
    }

    /** The work of isEquiv, returning the new `equiv` as `e`. */
    method Search(pStart: State, qStart: State) returns (r: Result<bool>, e: set<Pair>)
      requires Valid() && pStart in outer.aut.states && qStart in outer.aut.states
      modifies outer, equivClasses
      ensures Valid()
      ensures equivClasses.Root == old(equivClasses.Root) && equivClasses.rankMap == old(equivClasses.rankMap)
      ensures equivClasses.parentMap.Keys == old(equivClasses.parentMap.Keys)
      ensures IsSatisfiable(outer.ba.universe) ==> r.Ok?
      ensures old(outer.neq) <= outer.neq
      ensures SoundPartition(outer.aut, equivClasses.Root) && NeqSound(outer.aut, old(outer.neq)) ==>
                NeqSound(outer.aut, outer.neq)
      ensures r.Ok? ==> UpfrontOutcome(outer.ba, outer.aut, outer.distanceToFinalMap, equivClasses.Root,
                                       old(outer.neq), outer.neq, equiv, e, path, path, pStart, qStart, r.value)
    {
      ghost var root := equivClasses.Root;
      var known := outer.IsKnownNotEqual(pStart, qStart);
      if known {
        assert equivClasses.Root == root;
        UpfrontKnown(outer.ba, outer.aut, outer.distanceToFinalMap, root, old(outer.neq), outer.neq, equiv, path,
                     pStart, qStart);
        return Ok(false), equiv;
      }
      r, e := SearchFrom(pStart, qStart, old(outer.neq));
    }

    /** isEquiv after the start pair was not known inequivalent: the stack loop and its result. */
    method SearchFrom(pStart: State, qStart: State, ghost neq0: set<Pair>) returns (r: Result<bool>, e: set<Pair>)
      requires Valid() && pStart in outer.aut.states && qStart in outer.aut.states
      requires outer.distanceToFinalMap[pStart] == outer.distanceToFinalMap[qStart]
      requires neq0 <= outer.neq && (NeqSound(outer.aut, neq0) ==> NeqSound(outer.aut, outer.neq))
      modifies outer, equivClasses
      ensures Valid()
      ensures equivClasses.Root == old(equivClasses.Root) && equivClasses.rankMap == old(equivClasses.rankMap)
      ensures equivClasses.parentMap.Keys == old(equivClasses.parentMap.Keys)
      ensures IsSatisfiable(outer.ba.universe) ==> r.Ok?
      ensures neq0 <= outer.neq
      ensures SoundPartition(outer.aut, equivClasses.Root) && NeqSound(outer.aut, neq0) ==> NeqSound(outer.aut, outer.neq)
      ensures r.Ok? ==> UpfrontOutcome(outer.ba, outer.aut, outer.distanceToFinalMap, equivClasses.Root,
                                       neq0, outer.neq, equiv, e, path, path, pStart, qStart, r.value)
    {
      ghost var a, dist, root := outer.aut, outer.distanceToFinalMap, equivClasses.Root;
      ghost var sound := SoundPartition(a, root) && NeqSound(a, outer.neq);
      ghost var s := Normalize(dist, pStart, qStart);
      var start := EquivRecord(pStart, qStart, path);
      StartRecord(a, dist, equiv, path, sound, start);
      var assumed;
      ghost var done;
      r, assumed, done := ExamineStack(start, root, path, s, sound, equiv);
      assert equivClasses.Root == root;
      if r == Ok(false) {
        UpfrontFailedOutcome(outer.ba, a, dist, root, neq0, outer.neq, equiv, assumed, path, s, pStart, qStart, sound);
        e := assumed;
      } else if r == Ok(true) {
        UpfrontClosedOutcome(outer.ba, a, dist, root, neq0, outer.neq, equiv, assumed, done, path, s,
                             pStart, qStart, sound);
        e := assumed + {Normalize(outer.distanceToFinalMap, pStart, qStart)};
      } else {
        e := assumed;
      }
    }

    /** The stack loop of isEquiv, started with the record `start` of pair `s` and the pairs
        `e0` assumed so far. On failure, under a sound partition and cache, `s` was on the initial
        path `p0` or its states are inequivalent. On success every pair assumed since `e0` is
        finished, in `p0` or `s`, and `s` is finished: closed up to the assumed pairs, `s` and `p0`. */
    method ExamineStack(start: EquivRecord, ghost root: map<State, State>, ghost p0: set<Pair>, ghost s: Pair,
                        ghost sound: bool, e0: set<Pair>)
      returns (res: Result<bool>, assumed: set<Pair>, ghost done: set<Pair>)
      requires outer.Valid() && equivClasses.Valid() && equivClasses.Root == root && Identifies(outer.aut, root)
      requires minterms == AutomatonMinterms(outer.ba, outer.aut)
      requires sound ==> SoundPartition(outer.aut, root) && NeqSound(outer.aut, outer.neq)
      requires RecordOK(outer.aut, outer.distanceToFinalMap, e0, p0, s, sound, start)
      requires start.curPath == p0 && RecordPair(outer.distanceToFinalMap, start) == s
      modifies outer, equivClasses
      ensures equivClasses.Valid() && equivClasses.Root == root
      ensures equivClasses.rankMap == old(equivClasses.rankMap)
      ensures equivClasses.parentMap.Keys == old(equivClasses.parentMap.Keys)
      ensures e0 <= assumed && old(outer.neq) <= outer.neq
      ensures sound ==> NeqSound(outer.aut, outer.neq)
      ensures IsSatisfiable(outer.ba.universe) ==> res.Ok?
      ensures res == Ok(false) ==> (sound ==> s in p0 || !Equivalent(outer.aut, s.fst, s.snd))
      ensures res == Ok(true) ==>
                && s in done && (forall x :: x in assumed - e0 ==> x in done || x in p0 || x == s)
                && AllClosed(outer.ba, outer.aut, root, done, assumed + p0 + {s})
    {
      ghost var ba, a, dist := outer.ba, outer.aut, outer.distanceToFinalMap;
      assumed := e0;
      var testStack := [start];
      ghost var pend := [s];
      done := {};
      UpfrontStackStart(ba, a, dist, root, p0, s, sound, e0, start);
      while testStack != []
        invariant equivClasses.Valid() && equivClasses.Root == root
        invariant equivClasses.rankMap == old(equivClasses.rankMap)
        invariant equivClasses.parentMap.Keys == old(equivClasses.parentMap.Keys)
        invariant e0 <= assumed && old(outer.neq) <= outer.neq
        invariant sound ==> NeqSound(a, outer.neq)
        invariant UpfrontStackInv(ba, a, dist, root, p0, s, sound, e0, assumed, done, testStack, pend)
        invariant s in done || testStack == [start]
        decreases |AllPairs(a.states) - assumed|, |testStack|
      {
        ghost var st, e1 := testStack, assumed;
        var curEquivTest := testStack[|testStack| - 1];
        testStack := testStack[..|testStack| - 1];
        TopRecord(a, dist, assumed, p0, s, sound, st);
        var pushed;
        ghost var added;
        res, assumed, pushed, added := ExamineRecord(curEquivTest, root, p0, s, sound, assumed);
        if res != Ok(true) {
          if res == Ok(false) {
            FailedRecord(a, dist, e1, p0, s, sound, st);
          }
          return;
        }
        UpfrontPairDone(ba, a, dist, root, p0, s, sound, e0, e1, assumed, done, pend, st, pushed, added);
        done := done + {RecordPair(dist, curEquivTest)};
        testStack := testStack + pushed;
        pend := pend[..|pend| - 1] + added;
      }
      res := Ok(true);
    }

    /** One record of isEquiv's stack: the loop over the minterms. It fails when a pair of
        successor classes is known inequivalent; otherwise the record's states are closed and
        `pushed` holds the records for the newly assumed pairs off the path, whose pairs `added`
        lists. */
    method ExamineRecord(rec: EquivRecord, ghost root: map<State, State>, ghost p0: set<Pair>, ghost s: Pair,
                         ghost sound: bool, e0: set<Pair>)
      returns (res: Result<bool>, e: set<Pair>, pushed: seq<EquivRecord>, ghost added: seq<Pair>)
      requires outer.Valid() && equivClasses.Valid() && equivClasses.Root == root && Identifies(outer.aut, root)
      requires minterms == AutomatonMinterms(outer.ba, outer.aut)
      requires RecordOK(outer.aut, outer.distanceToFinalMap, e0, p0, s, sound, rec)
      requires sound ==> SoundPartition(outer.aut, root) && NeqSound(outer.aut, outer.neq)
      modifies outer, equivClasses
      ensures equivClasses.Valid() && equivClasses.Root == root
      ensures equivClasses.rankMap == old(equivClasses.rankMap)
      ensures equivClasses.parentMap.Keys == old(equivClasses.parentMap.Keys)
      ensures e0 <= e && old(outer.neq) <= outer.neq
      ensures sound ==> NeqSound(outer.aut, outer.neq)
      ensures IsSatisfiable(outer.ba.universe) ==> res.Ok?
      ensures res == Ok(false) ==> (sound ==> !Equivalent(outer.aut, rec.pState, rec.qState))
      ensures res == Ok(true) ==> UpfrontExamined(outer.ba, outer.aut, outer.distanceToFinalMap, root, p0, s, sound,
                                                  rec, e0, e, pushed, added)
    {
      ghost var ba, a, dist := outer.ba, outer.aut, outer.distanceToFinalMap;
      var newPath := rec.curPath + {RecordPair(outer.distanceToFinalMap, rec)};
      e, pushed, added := e0, [], [];
      MintermStart(a, dist, root, p0, s, sound, rec, e0, outer.neq, minterms);
      for i := 0 to |minterms|
        invariant equivClasses.Valid() && equivClasses.Root == root
        invariant equivClasses.rankMap == old(equivClasses.rankMap)
        invariant equivClasses.parentMap.Keys == old(equivClasses.parentMap.Keys)
        invariant old(outer.neq) <= outer.neq
        invariant MintermInv(a, dist, root, p0, s, sound, rec, e0, e, outer.neq, minterms, i, pushed, added)
      {
        res, e, pushed, added := HandleMinterm(rec, root, p0, s, sound, e0, e, newPath, i, pushed, added);
        if res != Ok(true) {
          return;
        }
      }
      MintermsPartition(ba, MovesFromSet(a.moves, a.states));
      MintermsDone(ba, a, dist, root, p0, s, sound, rec, e0, e, outer.neq, minterms, pushed, added);
      res := Ok(true);
    }

    /** The body of the loop over the minterms for minterm `i`: the successor classes of the two
        states are compared; a distinct pair not yet assumed is assumed, fails the record when
        known inequivalent, and is pushed as a new record unless it is on the path. */
    method HandleMinterm(rec: EquivRecord, ghost root: map<State, State>, ghost p0: set<Pair>, ghost s: Pair,
                         ghost sound: bool, ghost e1: set<Pair>, e: set<Pair>, newPath: set<Pair>, i: int,
                         pushed0: seq<EquivRecord>, ghost added0: seq<Pair>)
      returns (res: Result<bool>, e': set<Pair>, pushed: seq<EquivRecord>, ghost added: seq<Pair>)
      requires outer.Valid() && equivClasses.Valid() && equivClasses.Root == root && Identifies(outer.aut, root)
      requires minterms == AutomatonMinterms(outer.ba, outer.aut)
      requires sound ==> SoundPartition(outer.aut, root)
      requires MintermInv(outer.aut, outer.distanceToFinalMap, root, p0, s, sound, rec, e1, e, outer.neq,
                          minterms, i, pushed0, added0)
      requires i < |minterms| && newPath == rec.curPath + {RecordPair(outer.distanceToFinalMap, rec)}
      modifies outer, equivClasses
      ensures equivClasses.Valid() && equivClasses.Root == root
      ensures equivClasses.rankMap == old(equivClasses.rankMap)
      ensures equivClasses.parentMap.Keys == old(equivClasses.parentMap.Keys)
      ensures old(outer.neq) <= outer.neq && e1 <= e' && (sound ==> NeqSound(outer.aut, outer.neq))
      ensures IsSatisfiable(outer.ba.universe) ==> res.Ok?
      ensures res == Ok(false) ==> (sound ==> !Equivalent(outer.aut, rec.pState, rec.qState))
      ensures res == Ok(true) ==> MintermInv(outer.aut, outer.distanceToFinalMap, root, p0, s, sound, rec, e1, e',
                                             outer.neq, minterms, i + 1, pushed, added)
    {
      var pNext, qNext, found := NextStates(rec.pState, rec.qState, i);
      if !found {
        return Err(IllegalArgument), e, pushed0, added0;
      }
      var pNextClass, qNextClass := FindClasses(equivClasses, pNext, qNext);
      var nextPair := Normalize(outer.distanceToFinalMap, pNextClass, qNextClass);
      e', pushed, added := e, pushed0, added0;
      if pNextClass != qNextClass && nextPair !in e {
        e' := e + {nextPair};
        ghost var neq0 := outer.neq;
        var known := outer.IsKnownNotEqual(pNextClass, qNextClass);
        if known {
          MintermFails(outer.aut, root, rec.pState, rec.qState, minterms[i], pNext, qNext, sound, neq0, outer.neq);
          return Ok(false), e', pushed, added;
        }
        if nextPair !in newPath {
          pushed := pushed0 + [EquivRecord(pNextClass, qNextClass, newPath)];
          added := added0 + [nextPair];
        }
      }
      MintermKept(outer.aut, outer.distanceToFinalMap, root, p0, s, sound, rec, e1, e, outer.neq, minterms, i,
                  pushed0, added0, pNext, qNext, e', pushed, added);
      res := Ok(true);
    }

    /** The two calls of mintermTransition for minterm `i`: the successors of `x` and `y` on
        every symbol of the minterm. Over a satisfiable universe both exist. */
    method NextStates(x: State, y: State, i: int) returns (tx: State, ty: State, found: bool)
      requires outer.Valid() && x in outer.aut.states && y in outer.aut.states
      requires minterms == AutomatonMinterms(outer.ba, outer.aut) && 0 <= i < |minterms|
      ensures found ==> && tx in outer.aut.states && ty in outer.aut.states && IsSatisfiable(minterms[i])
                        && StepsOn(outer.aut, x, minterms[i], tx) && StepsOn(outer.aut, y, minterms[i], ty)
      ensures IsSatisfiable(outer.ba.universe) ==> found
    {
      ghost var ba, a := outer.ba, outer.aut;
      var px := MintermTransition(outer.aut, x, minterms[i]);
      var py := MintermTransition(outer.aut, y, minterms[i]);
      if IsSatisfiable(ba.universe) {
        MintermMoveExists(ba, a, x, i);
        MintermMoveExists(ba, a, y, i);
      }
      if px.None? || py.None? {
        return x, y, false;
      }
      ghost var j :| FirstMeets(MovesFrom(a.moves, x), minterms[i], j) && MovesFrom(a.moves, x)[j].to == px.value;
      ghost var k :| FirstMeets(MovesFrom(a.moves, y), minterms[i], k) && MovesFrom(a.moves, y)[k].to == py.value;
      MintermStep(ba, a, x, i, j);
      MintermStep(ba, a, y, i, k);
      return px.value, py.value, true;
    }
  }

  // ---------------------------------------------------------------------------------------------
  // The minimiser with the upfront test.
  // ---------------------------------------------------------------------------------------------

  /** IncrementalNaive: the incremental minimiser whose test compares states minterm by minterm;
      `base` is the minimiser it extends. */
  class IncrementalNaive {
    const base: IncrementalMinimization
    const minterms: seq<Guard>

    /** The base minimiser is built, then the minterms of the automaton are computed once. */
    constructor (aut: Automaton, ba: Algebra)
      requires ValidAutomaton(ba, aut)
      ensures fresh(base) && base.Valid() && base.aut == aut && base.ba == ba
      ensures base.numPairs == NumPairs(|aut.states|) && base.neq == {}
      ensures ListsKeys(base.order, base.distanceToFinalMap.Keys) && DistanceOrdered(base.order, base.distanceToFinalMap)
      ensures minterms == AutomatonMinterms(ba, aut)
    {
      var generated := GenerateMinterms(aut, ba);
      base := new IncrementalMinimization(aut, ba);
      minterms := generated;
    }

    /** makeEquivTest: an upfront test over the current classes with empty pair sets. */
    method MakeEquivTest(equivClasses: DisjointSets) returns (t: EquivTestUpfront)
      requires base.Valid()
      ensures fresh(t) && t.outer == base && t.equivClasses == equivClasses && t.minterms == minterms
      ensures t.equiv == {} && t.path == {}
    {
      var equiv := NewPairSet(base.numPairs);
      var path := NewPairSet(base.numPairs);
      t := new EquivTestUpfront(base, equivClasses, minterms, equiv.value, path.value);
    }
  }
}
