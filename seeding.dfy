// The not-equal cache every driver starts from: each final state paired with each non-final
// state, under the identifier order (Main.java, MooreMinimization.java and IncrSimpleNEQ.java
// seed it the same way).

module Seeding {
  import opened Base
  import opened Sfa
  import opened UnionFind
  import opened StateOrder
  import opened Equivalence
  import opened Walk

  /** The pairs the driver puts in the cache before the scan: every final state with every
      non-final state, ordered by identifier. */
  ghost function Seed(a: Automaton): set<Pair>
  {
    set x, y | x in a.finals && y in a.states - a.finals :: NormalizeById(x, y)
  }

  /** The seeded pairs are inequivalent: the empty word tells their states apart. */
  lemma SeedSound(a: Automaton)
    ensures NeqSound(a, Seed(a))
  {
    forall pr | pr in Seed(a) ensures !Equivalent(a, pr.fst, pr.snd) {
      var x, y :| x in a.finals && y in a.states - a.finals && pr == NormalizeById(x, y);
      assert Accepts(a, x, []) != Accepts(a, y, []);
      NormalizedByIdPair(a, x, y, {});
    }
  }

  /** The seeded pairs are ordered pairs of two different states. */
  lemma SeedPairs(a: Automaton)
    requires a.finals <= a.states
    ensures forall pr :: pr in Seed(a) ==> pr.fst in a.states && pr.snd in a.states && pr.fst < pr.snd
  {
    forall pr | pr in Seed(a) ensures pr.fst in a.states && pr.snd in a.states && pr.fst < pr.snd {
      var x, y :| x in a.finals && y in a.states - a.finals && pr == NormalizeById(x, y);
    }
  }

  /** Two states whose ordered pair is not in a cache holding the seeded pairs are both final or
      both not final. */
  lemma SeedSeparates(a: Automaton, neq: set<Pair>, x: State, y: State)
    requires Seed(a) <= neq && x in a.states && y in a.states && NormalizeById(x, y) !in neq
    ensures x in a.finals <==> y in a.finals
  {
    NormalizeByIdSymmetric(x, y);
  }

  /** The states of a set in the order the library's collection yields them; the model fixes
      no particular order. */
  method StateList(states: set<State>) returns (xs: seq<State>)
    ensures forall x :: x in xs <==> x in states
  {
    xs := [];
    var todo := states;
    while todo != {}
      invariant todo <= states
      invariant forall x :: x in xs <==> x in states - todo
      decreases |todo|
    {
      NonEmptyHasElement(todo);
      var x :| x in todo;
      xs := xs + [x];
      todo := todo - {x};
    }
  }

  /** Every pair of a state of `xs` and a state of `ys`, ordered by identifier, is in `neq`. */
  ghost predicate SeededRows(neq: set<Pair>, xs: seq<State>, ys: seq<State>)
  {
    forall x, y :: x in xs && y in ys ==> NormalizeById(x, y) in neq
  }

  /** The seeding loops of incrementalMinimize: every final state with every non-final state,
      ordered by identifier, joins the cache. */
  method SeedNeq(a: Automaton, neq0: set<Pair>) returns (neq: set<Pair>)
    ensures neq == neq0 + Seed(a)
  {
    var finals := StateList(a.finals);
    var nonFinals := StateList(a.states - a.finals);
    neq := neq0;
    for i := 0 to |finals|
      invariant neq0 <= neq <= neq0 + Seed(a)
      invariant SeededRows(neq, finals[..i], nonFinals)
    {
      for j := 0 to |nonFinals|
        invariant neq0 <= neq <= neq0 + Seed(a)
        invariant SeededRows(neq, finals[..i], nonFinals)
        invariant SeededRows(neq, [finals[i]], nonFinals[..j])
      {
        assert finals[i] in finals && nonFinals[j] in nonFinals;
        assert NormalizeById(finals[i], nonFinals[j]) in Seed(a);
        neq := neq + {NormalizeById(finals[i], nonFinals[j])};
        assert nonFinals[..j + 1] == nonFinals[..j] + [nonFinals[j]];
      }
      assert nonFinals[..|nonFinals|] == nonFinals;
      assert finals[..i + 1] == finals[..i] + [finals[i]];
    }
    assert finals[..|finals|] == finals;
    forall pr | pr in Seed(a) ensures pr in neq {
      var x, y :| x in a.finals && y in a.states - a.finals && pr == NormalizeById(x, y);
      assert x in finals && y in nonFinals;
    }
  }
}
