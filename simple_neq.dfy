// IncrSimpleNEQ.java: a variant of the incremental minimiser whose state order is the plain
// identifier order, whose distance hooks are switched off, and whose not-equal cache is seeded
// with every pair of a final and a non-final state and then only looked up.

module SimpleNeq {
  import opened Base
  import opened Sfa
  import opened StateOrder
  import opened Equivalence
  import opened Walk
  import opened Seeding
  import opened Incremental

  /** StateComparatorSimple.compare: the wrapping `int` subtraction of the two identifiers. For
      identifiers Java's `int` holds without going negative its sign is the identifier order. */
  function CompareSimple(a: State, b: State): (r: int)
    ensures 0 <= a <= IntMax && 0 <= b <= IntMax ==>
              && (r < 0 <==> a < b)
              && (r == 0 <==> a == b)
              && (r > 0 <==> b < a)
  {
    Wrap32(a - b)
  }

  /** The inherited normalize under the simple comparator: the pair with the state the comparator
      puts first, first. On identifiers of states it is the identifier order of Main.java and
      MooreMinimization.java. */
  function NormalizeSimple(p: State, q: State): (r: Pair)
    ensures r == Pair(p, q) || r == Pair(q, p)
    ensures 0 <= p <= IntMax && 0 <= q <= IntMax ==> r == NormalizeById(p, q)
  {
    if CompareSimple(p, q) < 0 then Pair(p, q) else Pair(q, p)
  }

  /** On identifiers of states the simple normalisation ignores the order of its arguments. */
  lemma NormalizeSimpleSymmetric(p: State, q: State)
    requires 0 <= p <= IntMax && 0 <= q <= IntMax
    ensures NormalizeSimple(p, q) == NormalizeSimple(q, p)
  {
    NormalizeByIdSymmetric(p, q);
  }

  /** generateDistanceToFinalMap: no distance map at all (Java's `null`). */
  function GenerateDistanceToFinalMap(): Option<map<State, int>>
  {
    None
  }

  /** getStateDistanceToFinal: every state at distance 0. */
  function GetStateDistanceToFinal(state: State): int
  {
    0
  }

  /** With the distances the hooks report, the base comparator falls through to its identifier
      comparison on every pair, and is the simple comparator. */
  lemma HookDistancesCompareById(dist: map<State, int>, a: State, b: State)
    requires a in dist && b in dist
    requires dist[a] == GetStateDistanceToFinal(a) && dist[b] == GetStateDistanceToFinal(b)
    ensures GenerateDistanceToFinalMap().None?
    ensures Compare(dist, a, b) == CompareSimple(a, b)
    ensures 0 <= a <= IntMax && 0 <= b <= IntMax ==> Normalize(dist, a, b) == NormalizeSimple(a, b)
  {
  }

  class IncrSimpleNeq {
    const ba: Algebra
    const aut: Automaton
    const numPairs: int
    /** Pairs, normalised, known to hold inequivalent states. */
    var neq: set<Pair>

    /** The cache holds the seeded pairs and only inequivalent pairs. */
    ghost predicate Valid()
      reads this
    {
      ValidAutomaton(ba, aut) && Seed(aut) <= neq && NeqSound(aut, neq)
    }

    /** The base constructor's empty cache, then every final state paired with every non-final
        state under the simple comparator. */
    constructor (aut: Automaton, ba: Algebra)
      requires ValidAutomaton(ba, aut)
      ensures Valid() && this.aut == aut && this.ba == ba
      ensures numPairs == NumPairs(|aut.states|) && neq == Seed(aut)
    {
      var n := NumPairs(|aut.states|);
      NumPairsAccepted(|aut.states|);
      var created := NewPairSet(n);
      var seeded := SeedNeq(aut, created.value);
      SeedSound(aut);
      this.aut := aut;
      this.ba := ba;
      numPairs := n;
      neq := seeded;
    }

    /** isKnownNotEqual: membership of the normalised pair in the cache, and nothing else; the
        cache is never extended here. Pairs of a final and a non-final state are always known,
        and every pair known is inequivalent. */
    method IsKnownNotEqual(p: State, q: State) returns (r: bool)
      requires Valid() && p in aut.states && q in aut.states
      ensures r <==> NormalizeSimple(p, q) in neq
      ensures ((p in aut.finals) != (q in aut.finals)) ==> r
      ensures r ==> !Equivalent(aut, p, q)
    {
      var normalizedPair := NormalizeSimple(p, q);
      r := normalizedPair in neq;
      NormalizedByIdPair(aut, p, q, {});
      if (p in aut.finals) != (q in aut.finals) {
        if p in aut.finals {
          assert NormalizeById(p, q) in Seed(aut);
        } else {
          assert NormalizeById(q, p) in Seed(aut);
          NormalizeByIdSymmetric(p, q);
        }
      }
    }
  }
}
