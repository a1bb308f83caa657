/**
 * mergeSFAStates: rebuilding the automaton from the partition. Both the newer minimiser and the
 * first version in Main.java build it the same way: one state per class identifier, every move of
 * a class leaving from the identifier and entering the identifier of its target's class.
 */
module Merging {
  import opened Base
  import opened Sfa
  import opened UnionFind
  import opened Equivalence

  /** The automaton over the classes of `equivClasses`. The library builds the automaton from
      the move collection; its emptiness flag is taken over from the source automaton, whose
      language the rebuilt one keeps (Equivalence.QuotientLanguage). */
  method MergeClasses(aut: Automaton, equivClasses: DisjointSets) returns (minAut: Automaton)
    requires equivClasses.Valid() && Identifies(aut, equivClasses.Root)
    requires forall t :: t in aut.moves ==> t.from in aut.states && t.to in aut.states
    requires aut.initial in aut.states
    modifies equivClasses
    ensures equivClasses.Valid()
    ensures equivClasses.Root == old(equivClasses.Root) && equivClasses.rankMap == old(equivClasses.rankMap)
    ensures equivClasses.parentMap.Keys == old(equivClasses.parentMap.Keys)
    ensures IsQuotient(aut, equivClasses.Root, minAut)
    ensures minAut.isEmpty == aut.isEmpty
  {
    ghost var root := equivClasses.Root;
    var classes := equivClasses.GetSets();
    var newStates := classes.Keys;
    var newTransitions: seq<Move> := [];
    ghost var origin: seq<Move> := [];
    var newFinalStates: set<State> := {};
    var todo := newStates;
    ghost var done: set<State> := {};
    while todo != {}
      invariant equivClasses.Valid() && equivClasses.Root == root
      invariant equivClasses.rankMap == old(equivClasses.rankMap)
      invariant equivClasses.parentMap.Keys == old(equivClasses.parentMap.Keys)
      invariant done + todo == newStates && done !! todo
      invariant Origins(root, origin, newTransitions, aut.moves)
      invariant Covered(root, aut.moves, done, newTransitions)
      invariant newFinalStates == done * aut.finals
      decreases |todo|
    {
      var p :| p in todo;
      var ms := MovesFromSet(aut.moves, classes[p]);
      ghost var before := newTransitions;
      newTransitions, origin := AddClassMoves(aut, equivClasses, classes, p, ms, newTransitions, origin);
      CoveredStep(aut, root, classes, p, ms, done, before, newTransitions);
      ghost var finals0 := newFinalStates;
      if p in aut.finals {
        newFinalStates := newFinalStates + {p};
      }
      ClassDone(newStates, done, todo, p, aut.finals, finals0, newFinalStates);
      done := done + {p};
      todo := todo - {p};
    }
    var newInitialState := equivClasses.Find(aut.initial);
    minAut := Automaton(newStates, newInitialState.value, newFinalStates, newTransitions, aut.isEmpty);
    OriginsGiveSources(root, origin, newTransitions, aut.moves);
  }

  /** The inner loop of mergeSFAStates: the images of the moves `ms` of the class of `p`. */
  method AddClassMoves(aut: Automaton, equivClasses: DisjointSets, classes: map<State, set<State>>, p: State,
                       ms: seq<Move>, trans0: seq<Move>, ghost origin0: seq<Move>)
    returns (trans: seq<Move>, ghost origin: seq<Move>)
    requires equivClasses.Valid() && Identifies(aut, equivClasses.Root)
    requires Partition(classes, equivClasses.Root) && p in classes
    requires forall t :: t in aut.moves ==> t.from in aut.states && t.to in aut.states
    requires forall t :: t in ms ==> t in aut.moves && t.from in classes[p]
    requires Origins(equivClasses.Root, origin0, trans0, aut.moves)
    modifies equivClasses
    ensures equivClasses.Valid() && equivClasses.Root == old(equivClasses.Root)
    ensures equivClasses.rankMap == old(equivClasses.rankMap)
    ensures equivClasses.parentMap.Keys == old(equivClasses.parentMap.Keys)
    ensures Origins(equivClasses.Root, origin, trans, aut.moves)
    ensures forall m :: m in trans0 ==> m in trans
    ensures forall l :: 0 <= l < |ms| ==> QuotientMove(equivClasses.Root, ms[l]) in trans
  {
    ghost var root := equivClasses.Root;
    trans, origin := trans0, origin0;
    for k := 0 to |ms|
      invariant equivClasses.Valid() && equivClasses.Root == root
      invariant equivClasses.rankMap == old(equivClasses.rankMap)
      invariant equivClasses.parentMap.Keys == old(equivClasses.parentMap.Keys)
      invariant Origins(root, origin, trans, aut.moves)
      invariant forall m :: m in trans0 ==> m in trans
      invariant forall l :: 0 <= l < k ==> QuotientMove(root, ms[l]) in trans
    {
      var t := ms[k];
      assert t in ms;
      var target := equivClasses.Find(t.to);
      assert root[t.from] == p && target.value == root[t.to];
      AppendImage(root, origin, trans, aut.moves, t, Move(p, target.value, t.guard));
      ImagesStep(root, ms, k, trans, Move(p, target.value, t.guard));
      trans := trans + [Move(p, target.value, t.guard)];
      origin := origin + [t];
    }
  }

  /** Moving the class `p` from `todo` to `done` keeps the bookkeeping of the loop. */
  lemma ClassDone(all: set<State>, done: set<State>, todo: set<State>, p: State, finals: set<State>,
                  finals0: set<State>, finals1: set<State>)
    requires done + todo == all && done !! todo && p in todo
    requires finals0 == done * finals
    requires finals1 == if p in finals then finals0 + {p} else finals0
    ensures (done + {p}) + (todo - {p}) == all && (done + {p}) !! (todo - {p})
    ensures finals1 == (done + {p}) * finals
  {
  }

  /** Move `i` of `trans` is the image of move `i` of `origin`, a source move. */
  ghost predicate Origins(root: map<State, State>, origin: seq<Move>, trans: seq<Move>, moves: seq<Move>)
  {
    && |origin| == |trans|
    && forall i :: 0 <= i < |origin| ==>
         origin[i] in moves && origin[i].from in root && origin[i].to in root && trans[i] == QuotientMove(root, origin[i])
  }

  lemma AppendImage(root: map<State, State>, origin: seq<Move>, trans: seq<Move>, moves: seq<Move>, t: Move, m: Move)
    requires Origins(root, origin, trans, moves)
    requires t in moves && t.from in root && t.to in root && m == QuotientMove(root, t)
    ensures Origins(root, origin + [t], trans + [m], moves)
    ensures m in trans + [m] && forall x :: x in trans ==> x in trans + [m]
  {
  }

  lemma ImagesStep(root: map<State, State>, ms: seq<Move>, k: nat, trans: seq<Move>, m: Move)
    requires k < |ms| && forall l :: 0 <= l < |ms| ==> ms[l].from in root && ms[l].to in root
    requires forall l :: 0 <= l < k ==> QuotientMove(root, ms[l]) in trans
    requires m == QuotientMove(root, ms[k])
    ensures forall l :: 0 <= l < k + 1 ==> QuotientMove(root, ms[l]) in trans + [m]
  {
  }

  lemma OriginsGiveSources(root: map<State, State>, origin: seq<Move>, trans: seq<Move>, moves: seq<Move>)
    requires Origins(root, origin, trans, moves)
    ensures forall m :: m in trans ==> exists t :: t in moves && t.from in root && t.to in root && m == QuotientMove(root, t)
  {
    forall m | m in trans ensures exists t :: t in moves && t.from in root && t.to in root && m == QuotientMove(root, t) {
      var i :| 0 <= i < |trans| && trans[i] == m;
      assert origin[i] in moves;
    }
  }

  /** Every source move leaving one of the classes `done` has its image in `trans`. */
  ghost predicate Covered(root: map<State, State>, moves: seq<Move>, done: set<State>, trans: seq<Move>)
  {
    forall t :: t in moves && t.from in root && root[t.from] in done ==>
      t.to in root && QuotientMove(root, t) in trans
  }

  /** Once the moves of the class of `p` are added, every source move leaving that class is. */
  lemma CoveredStep(aut: Automaton, root: map<State, State>, classes: map<State, set<State>>, p: State,
                    ms: seq<Move>, done: set<State>, trans0: seq<Move>, trans: seq<Move>)
    requires Partition(classes, root) && p in classes
    requires ms == MovesFromSet(aut.moves, classes[p])
    requires forall t :: t in aut.moves ==> t.from in root && t.to in root
    requires Covered(root, aut.moves, done, trans0)
    requires forall m :: m in trans0 ==> m in trans
    requires forall l :: 0 <= l < |ms| ==> QuotientMove(root, ms[l]) in trans
    ensures Covered(root, aut.moves, done + {p}, trans)
  {
    forall t | t in aut.moves && root[t.from] == p ensures QuotientMove(root, t) in trans {
      assert t.from in classes[p];
      assert t in ms;
      var l :| 0 <= l < |ms| && ms[l] == t;
    }
  }
}
