/**
 * The minterm tree: a binary refinement of `True` whose leaves, the minterms, are pairwise
 * disjoint, jointly cover the universe and each lie inside or outside every guard the tree
 * was refined by.
 */
module Minterms {
  import opened Sfa

  // ---------------------------------------------------------------------------------------------
  // The shape of a tree, as a value.
  // ---------------------------------------------------------------------------------------------

  /** A tree of predicates: a leaf, or a node with its two children. */
  datatype Shape = Leaf(pred: Guard) | Node(pred: Guard, left: Shape, right: Shape)

  /** Every predicate lies in the universe, and the two children of every node split its
      predicate: both satisfiable, disjoint, and jointly the node's predicate. */
  ghost predicate WellSplit(ba: Algebra, t: Shape)
  {
    && t.pred <= ba.universe
    && match t
       case Leaf(_) => true
       case Node(g, l, r) =>
         && IsSatisfiable(l.pred) && IsSatisfiable(r.pred)
         && l.pred * r.pred == {} && l.pred + r.pred == g
         && WellSplit(ba, l) && WellSplit(ba, r)
  }

  /** The leaves from left to right. */
  function Leaves(t: Shape): (r: seq<Guard>)
    ensures |r| >= 1
  {
    match t
    case Leaf(g) => [g]
    case Node(_, l, r) => Leaves(l) + Leaves(r)
  }

  /** `refine(pred)`: where the predicate of a node meets both `p` and its complement, a leaf is
      split into its part inside `p` and its part outside, and the children of an inner node
      are refined; any other node is left as it is. */
  function Refined(ba: Algebra, t: Shape, p: Guard): (r: Shape)
    ensures r.pred == t.pred
  {
    var inside := MkAnd(t.pred, p);
    var outside := MkAnd(t.pred, MkNot(ba, p));
    if IsSatisfiable(inside) && IsSatisfiable(outside) then
      match t
      case Leaf(g) => Node(g, Leaf(inside), Leaf(outside))
      case Node(g, l, r) => Node(g, Refined(ba, l, p), Refined(ba, r, p))
    else t
  }

  /** The tree after refining by the guards of `ms`, in order. */
  function RefineAll(ba: Algebra, t: Shape, ms: seq<Move>): Shape
  {
    if ms == [] then t else Refined(ba, RefineAll(ba, t, ms[..|ms| - 1]), ms[|ms| - 1].guard)
  }

  /** `generate_minterms`: the leaves of `True` refined by the guards of `ms`. */
  function MintermsOf(ba: Algebra, ms: seq<Move>): seq<Guard>
  {
    Leaves(RefineAll(ba, Leaf(True(ba)), ms))
  }

  // ---------------------------------------------------------------------------------------------
  // Properties of refinement.
  // ---------------------------------------------------------------------------------------------

  /** The union of a list of predicates. */
  function UnionOf(s: seq<Guard>): (r: Guard)
    ensures forall i :: 0 <= i < |s| ==> s[i] <= r
    ensures forall c :: c in r ==> exists i :: 0 <= i < |s| && c in s[i]
  {
    if s == [] then {}
    else
      var rest := UnionOf(s[1..]);
      assert forall c :: c in rest ==> exists i :: 0 <= i < |s| && c in s[i] by {
        forall c | c in rest ensures exists i :: 0 <= i < |s| && c in s[i] {
          var k :| 0 <= k < |s[1..]| && c in s[1..][k];
          assert c in s[k + 1];
        }
      }
      assert forall i :: 1 <= i < |s| ==> s[i] <= rest by {
        forall i | 1 <= i < |s| ensures s[i] <= rest {
          assert s[i] == s[1..][i - 1];
        }
      }
      s[0] + rest
  }

  lemma UnionAppend(a: seq<Guard>, b: seq<Guard>)
    ensures UnionOf(a + b) == UnionOf(a) + UnionOf(b)
  {
    var u := UnionOf(a + b);
    forall c | c in u ensures c in UnionOf(a) + UnionOf(b) {
      var i :| 0 <= i < |a + b| && c in (a + b)[i];
      if i < |a| {
        assert (a + b)[i] == a[i];
      } else {
        assert (a + b)[i] == b[i - |a|];
      }
    }
    forall c | c in UnionOf(a) + UnionOf(b) ensures c in u {
      if c in UnionOf(a) {
        var i :| 0 <= i < |a| && c in a[i];
        assert (a + b)[i] == a[i];
      } else {
        var i :| 0 <= i < |b| && c in b[i];
        assert (a + b)[|a| + i] == b[i];
      }
    }
  }

  /** No two entries of `s` share a symbol. */
  ghost predicate PairwiseDisjoint(s: seq<Guard>)
  {
    forall i, j :: 0 <= i < j < |s| ==> s[i] * s[j] == {}
  }

  /** A minterm lies entirely inside `p` or entirely outside it. */
  ghost predicate Separated(m: Guard, p: Guard)
  {
    m <= p || m * p == {}
  }

  /** Every leaf is separated by `p`. */
  ghost predicate AllSeparated(s: seq<Guard>, p: Guard)
  {
    forall i :: 0 <= i < |s| ==> Separated(s[i], p)
  }

  /** The leaves of a well-split tree are pairwise disjoint and their union is the tree's
      predicate. */
  lemma {:induction false} LeavesPartition(ba: Algebra, t: Shape)
    requires WellSplit(ba, t)
    ensures PairwiseDisjoint(Leaves(t)) && UnionOf(Leaves(t)) == t.pred
  {
    match t
    case Leaf(g) =>
    case Node(g, l, r) =>
      LeavesPartition(ba, l);
      LeavesPartition(ba, r);
      var sl, sr := Leaves(l), Leaves(r);
      UnionAppend(sl, sr);
      DisjointAppend(sl, sr, l.pred, r.pred);
  }

  /** Two pairwise disjoint lists whose entries lie in two disjoint sets make a pairwise
      disjoint list. */
  lemma DisjointAppend(a: seq<Guard>, b: seq<Guard>, x: Guard, y: Guard)
    requires PairwiseDisjoint(a) && PairwiseDisjoint(b) && x * y == {}
    requires forall i :: 0 <= i < |a| ==> a[i] <= x
    requires forall j :: 0 <= j < |b| ==> b[j] <= y
    ensures PairwiseDisjoint(a + b)
  {
    forall i, j | 0 <= i < j < |a + b| ensures (a + b)[i] * (a + b)[j] == {} {
      if j < |a| {
        assert (a + b)[i] == a[i] && (a + b)[j] == a[j];
      } else if i >= |a| {
        assert (a + b)[i] == b[i - |a|] && (a + b)[j] == b[j - |a|];
      } else {
        assert (a + b)[i] == a[i] && a[i] <= x;
        assert (a + b)[j] == b[j - |a|] && b[j - |a|] <= y;
      }
    }
  }

  /** The leaves of a well-split tree with a satisfiable predicate are satisfiable. */
  lemma {:induction false} LeavesSatisfiable(ba: Algebra, t: Shape)
    requires WellSplit(ba, t) && IsSatisfiable(t.pred)
    ensures forall i :: 0 <= i < |Leaves(t)| ==> IsSatisfiable(Leaves(t)[i])
  {
    match t
    case Leaf(g) =>
    case Node(g, l, r) =>
      LeavesSatisfiable(ba, l);
      LeavesSatisfiable(ba, r);
      var sl, sr := Leaves(l), Leaves(r);
      forall i | 0 <= i < |sl + sr| ensures IsSatisfiable((sl + sr)[i]) {
        if i < |sl| {
          assert (sl + sr)[i] == sl[i];
        } else {
          assert (sl + sr)[i] == sr[i - |sl|];
        }
      }
  }

  /** Refinement keeps a tree well split; a split leaf gets the two parts the source computes. */
  lemma {:induction false} RefineKeepsSplit(ba: Algebra, t: Shape, p: Guard)
    requires WellSplit(ba, t)
    ensures WellSplit(ba, Refined(ba, t, p))
  {
    var inside := MkAnd(t.pred, p);
    var outside := MkAnd(t.pred, MkNot(ba, p));
    if IsSatisfiable(inside) && IsSatisfiable(outside) {
      match t
      case Leaf(g) =>
        assert inside + outside == g;
      case Node(g, l, r) =>
        RefineKeepsSplit(ba, l, p);
        RefineKeepsSplit(ba, r, p);
    }
  }

  /** Every leaf of a well-split tree lies in the tree's predicate. */
  lemma LeafInside(ba: Algebra, t: Shape, i: int)
    requires WellSplit(ba, t) && 0 <= i < |Leaves(t)|
    ensures Leaves(t)[i] <= t.pred
  {
    LeavesPartition(ba, t);
  }

  /** After refining by `p`, every leaf lies inside `p` or outside it. */
  lemma {:induction false} RefineSeparates(ba: Algebra, t: Shape, p: Guard)
    requires WellSplit(ba, t)
    ensures AllSeparated(Leaves(Refined(ba, t, p)), p)
  {
    var inside := MkAnd(t.pred, p);
    var outside := MkAnd(t.pred, MkNot(ba, p));
    var s := Leaves(Refined(ba, t, p));
    if IsSatisfiable(inside) && IsSatisfiable(outside) {
      match t
      case Leaf(g) =>
      case Node(g, l, r) =>
        RefineSeparates(ba, l, p);
        RefineSeparates(ba, r, p);
        var sl, sr := Leaves(Refined(ba, l, p)), Leaves(Refined(ba, r, p));
        forall i | 0 <= i < |s| ensures Separated(s[i], p) {
          if i < |sl| {
            assert s[i] == sl[i];
          } else {
            assert s[i] == sr[i - |sl|];
          }
        }
    } else {
      assert s == Leaves(t);
      forall i | 0 <= i < |s| ensures Separated(s[i], p) {
        LeafInside(ba, t, i);
        if !IsSatisfiable(inside) {
          assert s[i] * p <= inside;
        } else {
          assert s[i] - p <= t.pred * (ba.universe - p) == {};
          forall c | c in s[i] ensures c in p {
            assert c !in s[i] - p;
          }
        }
      }
    }
  }

  /** Every leaf after a refinement lies in a leaf from before it. */
  lemma {:induction false} RefineNarrows(ba: Algebra, t: Shape, p: Guard, i: int)
    requires WellSplit(ba, t) && 0 <= i < |Leaves(Refined(ba, t, p))|
    ensures exists k :: 0 <= k < |Leaves(t)| && Leaves(Refined(ba, t, p))[i] <= Leaves(t)[k]
  {
    var inside := MkAnd(t.pred, p);
    var outside := MkAnd(t.pred, MkNot(ba, p));
    if IsSatisfiable(inside) && IsSatisfiable(outside) {
      match t
      case Leaf(g) =>
        assert Leaves(Refined(ba, t, p))[i] <= Leaves(t)[0];
      case Node(g, l, r) =>
        var sl, sr := Leaves(Refined(ba, l, p)), Leaves(Refined(ba, r, p));
        var s := Leaves(Refined(ba, t, p));
        if i < |sl| {
          RefineNarrows(ba, l, p, i);
          var k :| 0 <= k < |Leaves(l)| && sl[i] <= Leaves(l)[k];
          assert s[i] == sl[i] && Leaves(t)[k] == Leaves(l)[k];
        } else {
          RefineNarrows(ba, r, p, i - |sl|);
          var k :| 0 <= k < |Leaves(r)| && sr[i - |sl|] <= Leaves(r)[k];
          assert s[i] == sr[i - |sl|] && Leaves(t)[|Leaves(l)| + k] == Leaves(r)[k];
        }
    } else {
      assert Leaves(Refined(ba, t, p))[i] <= Leaves(t)[i];
    }
  }

  /** A later refinement keeps every leaf separated by an earlier guard. */
  lemma RefineKeepsSeparated(ba: Algebra, t: Shape, p: Guard, q: Guard)
    requires WellSplit(ba, t) && AllSeparated(Leaves(t), q)
    ensures AllSeparated(Leaves(Refined(ba, t, p)), q)
  {
    var s := Leaves(Refined(ba, t, p));
    forall i | 0 <= i < |s| ensures Separated(s[i], q) {
      RefineNarrows(ba, t, p, i);
      var k :| 0 <= k < |Leaves(t)| && s[i] <= Leaves(t)[k];
      assert Separated(Leaves(t)[k], q);
    }
  }

  /** Refining a well-split tree by several guards keeps it well split and its predicate, and
      leaves every leaf separated by each of the guards. */
  lemma {:induction false} RefineAllOutcome(ba: Algebra, t: Shape, ms: seq<Move>)
    requires WellSplit(ba, t)
    ensures WellSplit(ba, RefineAll(ba, t, ms)) && RefineAll(ba, t, ms).pred == t.pred
    ensures forall k :: 0 <= k < |ms| ==> AllSeparated(Leaves(RefineAll(ba, t, ms)), ms[k].guard)
  {
    if ms != [] {
      var front := ms[..|ms| - 1];
      var last := ms[|ms| - 1].guard;
      RefineAllOutcome(ba, t, front);
      var u := RefineAll(ba, t, front);
      RefineKeepsSplit(ba, u, last);
      RefineSeparates(ba, u, last);
      forall k | 0 <= k < |ms| ensures AllSeparated(Leaves(RefineAll(ba, t, ms)), ms[k].guard) {
        if k < |ms| - 1 {
          assert front[k] == ms[k];
          RefineKeepsSeparated(ba, u, last, ms[k].guard);
        }
      }
    }
  }

  /** What `generate_minterms` promises: the minterms are pairwise disjoint, jointly cover the
      universe, each lies inside or outside the guard of every move, and each is satisfiable
      unless the universe is empty. */
  lemma MintermsPartition(ba: Algebra, ms: seq<Move>)
    ensures PairwiseDisjoint(MintermsOf(ba, ms))
    ensures UnionOf(MintermsOf(ba, ms)) == ba.universe
    ensures forall k :: 0 <= k < |ms| ==> AllSeparated(MintermsOf(ba, ms), ms[k].guard)
    ensures IsSatisfiable(ba.universe) ==>
              forall i :: 0 <= i < |MintermsOf(ba, ms)| ==> IsSatisfiable(MintermsOf(ba, ms)[i])
  {
    var t := RefineAll(ba, Leaf(True(ba)), ms);
    RefineAllOutcome(ba, Leaf(True(ba)), ms);
    LeavesPartition(ba, t);
    if IsSatisfiable(ba.universe) {
      LeavesSatisfiable(ba, t);
    }
  }

  // ---------------------------------------------------------------------------------------------
  // The tree as the source builds it: nodes whose children are set in place.
  // ---------------------------------------------------------------------------------------------

  class MintermTree {
    const ba: Algebra
    var rootPred: Guard
    var left: MintermTree?
    var right: MintermTree?

    /** The nodes of the tree below and including this one. */
    ghost var Repr: set<object>
    /** The shape of the tree below and including this one. */
    ghost var Model: Shape

    ghost predicate Valid()
      reads this, Repr
      decreases Repr
    {
      && this in Repr
      && Model.pred == rootPred
      && (left == null <==> right == null)
      && (left == null ==> Model == Leaf(rootPred))
      && (left != null ==>
            && left in Repr && right in Repr
            && left.Repr <= Repr && right.Repr <= Repr
            && this !in left.Repr && this !in right.Repr && left.Repr !! right.Repr
            && left.ba == ba && right.ba == ba
            && left.Valid() && right.Valid()
            && Model == Node(rootPred, left.Model, right.Model))
    }

    /** A leaf holding `rootPred`. */
    constructor (ba: Algebra, rootPred: Guard)
      ensures Valid() && fresh(Repr)
      ensures this.ba == ba && Model == Leaf(rootPred)
    {
      this.ba := ba;
      this.rootPred := rootPred;
      left := null;
      right := null;
      Repr := {this};
      Model := Leaf(rootPred);
    }

    /** `isLeaf`: a node has no children or two, so the left one alone decides. */
    predicate IsLeaf()
      requires Valid()
      reads this, Repr
      ensures IsLeaf() <==> Model.Leaf?
    {
      left == null
    }

    /** `refine(pred)`, in place. */
    method Refine(pred: Guard)
      requires Valid()
      modifies Repr
      ensures Valid() && old(Repr) <= Repr && fresh(Repr - old(Repr))
      ensures Model == Refined(ba, old(Model), pred)
      decreases Repr
    {
      var predAnd := MkAnd(rootPred, pred);
      var predAndNot := MkAnd(rootPred, MkNot(ba, pred));
      if IsSatisfiable(predAnd) && IsSatisfiable(predAndNot) {
        if IsLeaf() {
          left := new MintermTree(ba, predAnd);
          right := new MintermTree(ba, predAndNot);
        } else {
          left.Refine(pred);
          right.Refine(pred);
        }
        Repr := Repr + left.Repr + right.Repr;
        Model := Node(rootPred, left.Model, right.Model);
      }
    }

    /** `getMinterms`: the leaves from left to right. */
    function GetMinterms(): (r: seq<Guard>)
      requires Valid()
      reads this, Repr
      ensures r == Leaves(Model)
      decreases Repr
    {
      if IsLeaf() then [rootPred] else left.GetMinterms() + right.GetMinterms()
    }
  }

  /** `generate_minterms(aut, ba)`: `True` refined by the guard of every move, in the order of
      `getInputMovesFrom(getStates())`. */
  method GenerateMinterms(aut: Automaton, ba: Algebra) returns (r: seq<Guard>)
    ensures r == MintermsOf(ba, MovesFromSet(aut.moves, aut.states))
  {
    var moves := MovesFromSet(aut.moves, aut.states);
    var tree := new MintermTree(ba, True(ba));
    for i := 0 to |moves|
      invariant tree.Valid() && tree.ba == ba && fresh(tree.Repr)
      invariant tree.Model == RefineAll(ba, Leaf(True(ba)), moves[..i])
    {
      assert moves[..i + 1][..i] == moves[..i];
      tree.Refine(moves[i].guard);
    }
    assert moves[..|moves|] == moves;
    r := tree.GetMinterms();
  }
}
