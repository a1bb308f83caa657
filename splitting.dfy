/**
 * Walking the moves of two states side by side: pick the first move of `p` and the first move
 * of `q` whose guard meets it, then keep only the parts of their guards the other one missed.
 */
module Splitting {
  import opened Base
  import opened Sfa

  /** Every guard is satisfiable and inside the universe. */
  ghost predicate GuardsProper(ba: Algebra, ms: seq<Move>)
  {
    forall i :: 0 <= i < |ms| ==> ms[i].guard != {} && ms[i].guard <= ba.universe
  }

  /** What the side-by-side walk keeps: within each list the guards are disjoint, and both
      lists still cover the same symbols. */
  ghost predicate SplitInv(ba: Algebra, outp: seq<Move>, outq: seq<Move>)
  {
    && GuardsProper(ba, outp) && GuardsProper(ba, outq)
    && GuardsDisjoint(outp) && GuardsDisjoint(outq)
    && Cover(outp) == Cover(outq)
  }

  /** Every move in `ms` is what state `p` does on each symbol of its guard. */
  ghost predicate Faithful(a: Automaton, p: State, ms: seq<Move>)
  {
    forall m, c :: m in ms && c in m.guard ==> Target(a, p, c) == Some(m.to)
  }

  /** findNonDisjointMoves: the position in `outq` of the first move whose guard meets the guard
      of the first move of `outp`, or `None` when there is none (the source returns null). */
  method FindNonDisjointMoves(outp: seq<Move>, outq: seq<Move>) returns (r: Option<nat>)
    requires outp != []
    ensures r.Some? ==> r.value < |outq| && IsSatisfiable(MkAnd(outp[0].guard, outq[r.value].guard))
    ensures r.Some? ==> forall k :: 0 <= k < r.value ==> !IsSatisfiable(MkAnd(outp[0].guard, outq[k].guard))
    ensures r.None? ==> forall k :: 0 <= k < |outq| ==> !IsSatisfiable(MkAnd(outp[0].guard, outq[k].guard))
    ensures r == FirstMeeting(outp[0].guard, outq, 0)
  {
    var pGuard := outp[0].guard;
    for j := 0 to |outq|
      invariant forall k :: 0 <= k < j ==> !IsSatisfiable(MkAnd(pGuard, outq[k].guard))
    {
      var pqAnd := MkAnd(pGuard, outq[j].guard);
      if IsSatisfiable(pqAnd) {
        return Some(j);
      }
    }
    return None;
  }

  /** The position in `outq`, from `k` on, of the first move whose guard meets `g`. */
  function FirstMeeting(g: Guard, outq: seq<Move>, k: nat): (r: Option<nat>)
    requires k <= |outq|
    decreases |outq| - k
    ensures r.Some? ==> k <= r.value < |outq| && IsSatisfiable(MkAnd(g, outq[r.value].guard))
    ensures r.Some? ==> forall i :: k <= i < r.value ==> !IsSatisfiable(MkAnd(g, outq[i].guard))
    ensures r.None? ==> forall i :: k <= i < |outq| ==> !IsSatisfiable(MkAnd(g, outq[i].guard))
  {
    if k == |outq| then None
    else if IsSatisfiable(MkAnd(g, outq[k].guard)) then Some(k)
    else FirstMeeting(g, outq, k + 1)
  }

  /** The number of symbols in the guards of `ms`, counted move by move: a walk step takes some
      away. */
  function GuardSize(ms: seq<Move>): nat
  {
    if ms == [] then 0 else |ms[0].guard| + GuardSize(ms[1..])
  }

  lemma {:induction false} GuardSizeConcat(xs: seq<Move>, ys: seq<Move>)
    ensures GuardSize(xs + ys) == GuardSize(xs) + GuardSize(ys)
  {
    if xs == [] {
      assert xs + ys == ys;
    } else {
      assert (xs + ys)[1..] == xs[1..] + ys;
      GuardSizeConcat(xs[1..], ys);
    }
  }

  /** What is left of a move outside a guard it meets holds fewer symbols than the move. */
  lemma ResidualSmaller(ba: Algebra, m: Move, h: Guard)
    requires IsSatisfiable(MkAnd(m.guard, h))
    ensures GuardSize(Residual(ba, m, h)) < |m.guard|
  {
    var g := MkAnd(m.guard, MkNot(ba, h));
    NonEmptyHasElement(MkAnd(m.guard, h));
    var c :| c in MkAnd(m.guard, h);
    assert m.guard == g + (m.guard - g);
    assert c in m.guard - g;
    if IsSatisfiable(g) {
      assert Residual(ba, m, h)[1..] == [];
    }
  }

  /** One walk step over a meeting leaves fewer symbols in the guards of `outp`. */
  lemma SplitShrinksGuards(ba: Algebra, outp: seq<Move>, outq: seq<Move>, j: nat)
    requires outp != [] && j < |outq| && IsSatisfiable(MkAnd(outp[0].guard, outq[j].guard))
    ensures GuardSize(SplitStep(ba, outp, outq, j).outp) < GuardSize(outp)
  {
    assert Remove(outp, 0) == outp[1..];
    GuardSizeConcat(outp[1..], Residual(ba, outp[0], outq[j].guard));
    ResidualSmaller(ba, outp[0], outq[j].guard);
  }

  /** The two lists after one step: the chosen moves are removed and their satisfiable
      residuals `p ∧ ¬q` and `q ∧ ¬p` are appended. */
  datatype Split = Split(outp: seq<Move>, outq: seq<Move>)

  /** The list without its `j`-th move. */
  function Remove(ms: seq<Move>, j: nat): (r: seq<Move>)
    requires j < |ms|
    ensures |r| == |ms| - 1
  {
    ms[..j] + ms[j + 1..]
  }

  /** The part of move `m` outside guard `h`, when it is satisfiable. */
  function Residual(ba: Algebra, m: Move, h: Guard): seq<Move>
  {
    var g := MkAnd(m.guard, MkNot(ba, h));
    if IsSatisfiable(g) then [Move(m.from, m.to, g)] else []
  }

  function SplitStep(ba: Algebra, outp: seq<Move>, outq: seq<Move>, j: nat): Split
    requires outp != [] && j < |outq|
  {
    var pMove, qMove := outp[0], outq[j];
    Split(Remove(outp, 0) + Residual(ba, pMove, qMove.guard),
          Remove(outq, j) + Residual(ba, qMove, pMove.guard))
  }

  lemma CoverConcat(xs: seq<Move>, ys: seq<Move>)
    ensures Cover(xs + ys) == Cover(xs) + Cover(ys)
  {
    var zs := xs + ys;
    forall c | c in Cover(zs) ensures c in Cover(xs) + Cover(ys) {
      var i :| 0 <= i < |zs| && c in zs[i].guard;
      if i < |xs| { assert zs[i] == xs[i]; } else { assert zs[i] == ys[i - |xs|]; }
    }
    forall c | c in Cover(xs) + Cover(ys) ensures c in Cover(zs) {
      if c in Cover(xs) {
        var i :| 0 <= i < |xs| && c in xs[i].guard;
        assert zs[i] == xs[i];
      } else {
        var i :| 0 <= i < |ys| && c in ys[i].guard;
        assert zs[|xs| + i] == ys[i];
      }
    }
  }

  /** Removing one move of a list with disjoint guards removes exactly its guard from the cover. */
  lemma CoverRemove(ms: seq<Move>, j: nat)
    requires GuardsDisjoint(ms) && j < |ms|
    ensures Cover(Remove(ms, j)) == Cover(ms) - ms[j].guard
  {
    var rest := Remove(ms, j);
    forall c | c in Cover(rest) ensures c in Cover(ms) - ms[j].guard {
      var i :| 0 <= i < |rest| && c in rest[i].guard;
      var k := if i < j then i else i + 1;
      assert rest[i] == ms[k];
      assert ms[k].guard * ms[j].guard == {} by {
        if k < j { assert ms[k].guard * ms[j].guard == {}; } else { assert ms[j].guard * ms[k].guard == {}; }
      }
      assert c !in ms[k].guard * ms[j].guard;
    }
    forall c | c in Cover(ms) - ms[j].guard ensures c in Cover(rest) {
      var k :| 0 <= k < |ms| && c in ms[k].guard;
      assert k != j;
      if k < j { assert rest[k] == ms[k]; } else { assert rest[k - 1] == ms[k]; }
    }
  }

  /** The remaining moves are disjoint from the removed one and among themselves. */
  lemma DisjointRemove(ms: seq<Move>, j: nat)
    requires GuardsDisjoint(ms) && j < |ms|
    ensures GuardsDisjoint(Remove(ms, j))
    ensures forall i :: 0 <= i < |Remove(ms, j)| ==> Remove(ms, j)[i].guard * ms[j].guard == {}
  {
    var rest := Remove(ms, j);
    forall a, b | 0 <= a < b < |rest| ensures rest[a].guard * rest[b].guard == {} {
      var ka := if a < j then a else a + 1;
      var kb := if b < j then b else b + 1;
      assert rest[a] == ms[ka] && rest[b] == ms[kb];
    }
    forall i | 0 <= i < |rest| ensures rest[i].guard * ms[j].guard == {} {
      var k := if i < j then i else i + 1;
      assert rest[i] == ms[k];
      if k < j { assert ms[k].guard * ms[j].guard == {}; } else { assert ms[j].guard * ms[k].guard == {}; }
    }
  }

  /** Appending a move whose guard lies inside the guard of a removed move keeps the guards disjoint. */
  lemma DisjointAppend(ms: seq<Move>, removed: Guard, extra: seq<Move>)
    requires GuardsDisjoint(ms) && |extra| <= 1
    requires forall i :: 0 <= i < |ms| ==> ms[i].guard * removed == {}
    requires forall i :: 0 <= i < |extra| ==> extra[i].guard <= removed
    ensures GuardsDisjoint(ms + extra)
  {
    var all := ms + extra;
    forall a, b | 0 <= a < b < |all| ensures all[a].guard * all[b].guard == {} {
      assert all[a] == ms[a];
      if b < |ms| {
        assert all[b] == ms[b];
      } else {
        assert all[b] == extra[0];
        assert all[a].guard * all[b].guard <= ms[a].guard * removed;
      }
    }
  }

  /** The residual guard `g ∧ ¬h` is `g` without `h` when `g` lies in the universe. */
  lemma ResidualIsDifference(ba: Algebra, m: Move, h: Guard)
    requires m.guard <= ba.universe
    ensures Cover(Residual(ba, m, h)) == m.guard - h
    ensures forall i :: 0 <= i < |Residual(ba, m, h)| ==>
              Residual(ba, m, h)[i] == Move(m.from, m.to, m.guard - h) && m.guard - h != {}
    ensures |Residual(ba, m, h)| <= 1
  {
    assert MkAnd(m.guard, MkNot(ba, h)) == m.guard - h;
  }

  /** One side of a step: remove move `j` and append its residual outside `h`. The result keeps
      proper, disjoint guards, and its cover loses exactly the meeting of move `j` with `h`. */
  lemma SideStep(ba: Algebra, ms: seq<Move>, j: nat, h: Guard)
    requires GuardsProper(ba, ms) && GuardsDisjoint(ms) && j < |ms|
    ensures GuardsProper(ba, Remove(ms, j) + Residual(ba, ms[j], h))
    ensures GuardsDisjoint(Remove(ms, j) + Residual(ba, ms[j], h))
    ensures Cover(Remove(ms, j) + Residual(ba, ms[j], h)) == Cover(ms) - ms[j].guard * h
  {
    var rest, extra := Remove(ms, j), Residual(ba, ms[j], h);
    var g := ms[j].guard;
    ResidualIsDifference(ba, ms[j], h);
    CoverRemove(ms, j);
    CoverConcat(rest, extra);
    GuardInCover(ms, j);
    DisjointRemove(ms, j);
    DisjointAppend(rest, g, extra);
    ProperRemoveAppend(ba, ms, j, extra);
  }

  lemma ProperRemoveAppend(ba: Algebra, ms: seq<Move>, j: nat, extra: seq<Move>)
    requires GuardsProper(ba, ms) && GuardsProper(ba, extra) && j < |ms|
    ensures GuardsProper(ba, Remove(ms, j) + extra)
  {
    var rest := Remove(ms, j);
    forall i | 0 <= i < |rest + extra| ensures (rest + extra)[i].guard != {} && (rest + extra)[i].guard <= ba.universe {
      if i < |rest| {
        var k := if i < j then i else i + 1;
        assert (rest + extra)[i] == rest[i];
        assert rest[i] == ms[k];
      } else {
        assert (rest + extra)[i] == extra[i - |rest|];
      }
    }
  }

  /** One step keeps the invariant, and removes from the common cover exactly the symbols of
      the meeting. */
  lemma SplitStepKeepsInv(ba: Algebra, outp: seq<Move>, outq: seq<Move>, j: nat)
    requires SplitInv(ba, outp, outq) && outp != [] && j < |outq|
    requires IsSatisfiable(MkAnd(outp[0].guard, outq[j].guard))
    ensures SplitInv(ba, SplitStep(ba, outp, outq, j).outp, SplitStep(ba, outp, outq, j).outq)
    ensures Cover(SplitStep(ba, outp, outq, j).outp) == Cover(outp) - outp[0].guard * outq[j].guard
  {
    var pG, qG := outp[0].guard, outq[j].guard;
    SideStep(ba, outp, 0, qG);
    SideStep(ba, outq, j, pG);
    assert pG * qG == qG * pG;
  }

  /** The common cover strictly shrinks, so the walk ends. */
  lemma SplitStepShrinks(ba: Algebra, outp: seq<Move>, outq: seq<Move>, j: nat)
    requires SplitInv(ba, outp, outq) && outp != [] && j < |outq|
    requires IsSatisfiable(MkAnd(outp[0].guard, outq[j].guard))
    ensures |Cover(SplitStep(ba, outp, outq, j).outp)| < |Cover(outp)|
  {
    SplitStepKeepsInv(ba, outp, outq, j);
    GuardInCover(outp, 0);
    Shrink(Cover(outp), outp[0].guard * outq[j].guard);
  }

  lemma GuardInCover(ms: seq<Move>, i: nat)
    requires i < |ms|
    ensures ms[i].guard <= Cover(ms)
  {
    forall c | c in ms[i].guard ensures c in Cover(ms) { }
  }

  lemma Shrink(all: set<Sym>, part: set<Sym>)
    requires part <= all && part != {}
    ensures |all - part| < |all|
  {
    assert all == (all - part) + part;
    assert (all - part) * part == {};
  }

  /** A step keeps every move of both lists faithful to its state's successors. */
  lemma SplitStepFaithful(ba: Algebra, a: Automaton, p: State, q: State, outp: seq<Move>, outq: seq<Move>, j: nat)
    requires outp != [] && j < |outq|
    requires Faithful(a, p, outp) && Faithful(a, q, outq)
    ensures Faithful(a, p, SplitStep(ba, outp, outq, j).outp) && Faithful(a, q, SplitStep(ba, outp, outq, j).outq)
  {
    SideFaithful(ba, a, p, outp, 0, outq[j].guard);
    SideFaithful(ba, a, q, outq, j, outp[0].guard);
  }

  lemma SideFaithful(ba: Algebra, a: Automaton, p: State, ms: seq<Move>, j: nat, h: Guard)
    requires j < |ms| && Faithful(a, p, ms)
    ensures Faithful(a, p, Remove(ms, j) + Residual(ba, ms[j], h))
  {
    var rest := Remove(ms, j);
    forall m, c | m in rest + Residual(ba, ms[j], h) && c in m.guard ensures Target(a, p, c) == Some(m.to) {
      if m in rest {
        var i :| 0 <= i < |rest| && rest[i] == m;
        if i < j { assert ms[i] == m; } else { assert ms[i + 1] == m; }
      } else {
        assert c in ms[j].guard && m.to == ms[j].to;
        assert ms[j] in ms;
      }
    }
  }

  /** With equal covers, a non-empty `outp` always meets some move of `outq`: the search of
      `findNonDisjointMoves` cannot come back empty-handed. */
  lemma MeetingExists(ba: Algebra, outp: seq<Move>, outq: seq<Move>)
    requires SplitInv(ba, outp, outq) && outp != []
    ensures exists k :: 0 <= k < |outq| && IsSatisfiable(MkAnd(outp[0].guard, outq[k].guard))
  {
    NonEmptyHasElement(outp[0].guard);
    var c :| c in outp[0].guard;
    assert c in Cover(outp);
    var k :| 0 <= k < |outq| && c in outq[k].guard;
    assert c in MkAnd(outp[0].guard, outq[k].guard);
  }

  /** The moves leaving a state of a valid automaton start the walk in the invariant. */
  lemma InitialSplit(ba: Algebra, a: Automaton, p: State, q: State)
    requires ValidAutomaton(ba, a) && p in a.states && q in a.states
    ensures SplitInv(ba, MovesFrom(a.moves, p), MovesFrom(a.moves, q))
    ensures Cover(MovesFrom(a.moves, p)) == ba.universe
    ensures Faithful(a, p, MovesFrom(a.moves, p)) && Faithful(a, q, MovesFrom(a.moves, q))
  {
    var outp, outq := MovesFrom(a.moves, p), MovesFrom(a.moves, q);
    assert Deterministic(ba, a, p) && Deterministic(ba, a, q);
    assert GuardsProper(ba, outp) by {
      forall i | 0 <= i < |outp| ensures outp[i].guard != {} && outp[i].guard <= ba.universe {
        assert outp[i] in outp;
      }
    }
    assert GuardsProper(ba, outq) by {
      forall i | 0 <= i < |outq| ensures outq[i].guard != {} && outq[i].guard <= ba.universe {
        assert outq[i] in outq;
      }
    }
    ValidMovesAreSteps(ba, a);
  }
}
