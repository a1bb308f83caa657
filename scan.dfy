/**
 * What every pair-scanning driver shares: the end of the time budget, the outcome of a run, and
 * the bookkeeping that shows the partition complete once every pair has been scanned: a pair
 * is settled when, if its states are equivalent, they share a class; merging classes keeps
 * pairs settled; and once every pair is settled in one order or the other, equivalent states
 * share a class.
 */
module Scan {
  import opened Base
  import opened Sfa
  import opened UnionFind
  import opened StateOrder
  import opened Equivalence
  import opened Walk

  /** What `minimize` hands back: the merged automaton, or the partly merged automaton carried by
      the TimeBudgetExceededException thrown once the clock passes the end of the budget. */
  datatype Outcome = Minimized(aut: Automaton) | BudgetExceeded(aut: Automaton)

  /** `startTime + budget` in Java's `long`; a negative sum is taken for an overflow and
      replaced by Long.MAX_VALUE. */
  function EndTime(startTime: int, budget: int): (r: int)
    requires LongMin <= startTime <= LongMax && LongMin <= budget <= LongMax
    ensures 0 <= r <= LongMax
    ensures 0 <= startTime && 0 <= budget ==>
              r == if startTime + budget <= LongMax then startTime + budget else LongMax
  {
    var endTime := Wrap64(startTime + budget);
    WrapNonNegativeSum(startTime, budget);
    if endTime < 0 then LongMax else endTime
  }

  /** The sum of two non-negative `long`s wraps to a negative value exactly when it overflows. */
  lemma WrapNonNegativeSum(x: int, y: int)
    requires LongMin <= x <= LongMax && LongMin <= y <= LongMax
    ensures 0 <= x && 0 <= y && x + y > LongMax ==> Wrap64(x + y) < 0
  {
    if 0 <= x && 0 <= y && x + y > LongMax {
      var s := x + y;
      assert s - LongMin >= 0x1_0000_0000_0000_0000;
      assert s - LongMin < 2 * 0x1_0000_0000_0000_0000;
      assert (s - LongMin) % 0x1_0000_0000_0000_0000 == s - LongMin - 0x1_0000_0000_0000_0000;
    }
  }

  /** `timeCheck`: the budget is exceeded when the clock reads past the end time. */
  predicate Expired(endTime: int, now: int)
  {
    now > endTime
  }

  /** The partition with a class per state identifies the states and is sound. */
  lemma Singletons(a: Automaton, root: map<State, State>)
    requires root == map x | x in a.states :: x
    ensures Identifies(a, root) && SoundPartition(a, root)
  {
  }

  /** Taking a member out of a set leaves a smaller set. */
  lemma RemoveShrinks(s: set<Pair>, x: Pair)
    requires x in s
    ensures |s - {x}| < |s|
  {
  }

  /** Some member of a non-empty set of pairs, and the set without it: the iteration over a
      HashSet, in whatever order it yields the pairs. */
  method TakePair(s: set<Pair>) returns (x: Pair, rest: set<Pair>)
    requires s != {}
    ensures x in s && rest == s - {x} && |rest| < |s|
  {
    NonEmptyPairs(s);
    x :| x in s;
    RemoveShrinks(s, x);
    rest := s - {x};
  }

  /** Every pair of `settled` holds two states which, when equivalent, share a class. */
  ghost predicate Settled(a: Automaton, root: map<State, State>, settled: set<Pair>)
  {
    forall pr :: pr in settled ==>
      pr.fst in root && pr.snd in root && (Equivalent(a, pr.fst, pr.snd) ==> root[pr.fst] == root[pr.snd])
  }

  lemma SettledSub(a: Automaton, root: map<State, State>, settled: set<Pair>, pr: Pair)
    requires Settled(a, root, settled) && pr.fst in root && pr.snd in root
    requires Equivalent(a, pr.fst, pr.snd) ==> root[pr.fst] == root[pr.snd]
    ensures Settled(a, root, settled + {pr})
  {
  }

  /** A pair settled in its normalised order is settled in either order. */
  lemma SettledNormalized(a: Automaton, root: map<State, State>, dist: map<State, int>, settled: set<Pair>,
                          p: State, q: State)
    requires Settled(a, root, settled) && p in dist && q in dist && Normalize(dist, p, q) in settled
    ensures Settled(a, root, settled + {Pair(p, q)})
  {
    NormalizedPair(a, dist, p, q, {});
  }

  /** Merging two classes keeps every settled pair settled. */
  lemma SettledMerge(a: Automaton, root: map<State, State>, rank: map<State, int>, r1: State, r2: State,
                     settled: set<Pair>)
    requires Settled(a, root, settled) && r1 in rank && r2 in rank
    ensures Settled(a, MergedRoot(root, rank, r1, r2), settled)
  {
    forall pr | pr in settled && Equivalent(a, pr.fst, pr.snd)
      ensures MergedRoot(root, rank, r1, r2)[pr.fst] == MergedRoot(root, rank, r1, r2)[pr.snd]
    {
      MergeCoarsens(root, rank, r1, r2, pr.fst, pr.snd);
    }
  }

  /** Every pair `(x, y)` with `x` among `xs` and `y` among `ys` strictly after `x` in the state
      order is settled. */
  ghost predicate RowsDone(dist: map<State, int>, settled: set<Pair>, xs: seq<State>, ys: seq<State>)
  {
    forall x, y :: x in xs && y in ys && x in dist && y in dist && Before(dist, x, y) ==> Pair(x, y) in settled
  }

  /** The first `k` entries of row `x` are settled. */
  ghost predicate RowDone(dist: map<State, int>, settled: set<Pair>, x: State, ys: seq<State>)
  {
    forall y :: y in ys && x in dist && y in dist && Before(dist, x, y) ==> Pair(x, y) in settled
  }

  lemma RowStep(dist: map<State, int>, settled: set<Pair>, settled': set<Pair>, x: State, ys: seq<State>, k: nat)
    requires k < |ys| && settled <= settled' && RowDone(dist, settled, x, ys[..k])
    requires x in dist && ys[k] in dist && Before(dist, x, ys[k]) ==> Pair(x, ys[k]) in settled'
    ensures RowDone(dist, settled', x, ys[..k + 1])
  {
    assert ys[..k + 1] == ys[..k] + [ys[k]];
  }

  lemma RowsStep(dist: map<State, int>, settled: set<Pair>, settled': set<Pair>, xs: seq<State>, ys: seq<State>,
                 i: nat)
    requires i < |xs| && settled <= settled'
    requires RowsDone(dist, settled, xs[..i], ys) && RowDone(dist, settled', xs[i], ys)
    ensures RowsDone(dist, settled', xs[..i + 1], ys)
  {
    assert xs[..i + 1] == xs[..i] + [xs[i]];
  }

  /** Once every pair of states is settled in the order the scan takes it, the partition is
      complete: equivalent states share a class. */
  lemma ScannedComplete(ba: Algebra, a: Automaton, dist: map<State, int>, root: map<State, State>,
                        settled: set<Pair>, order: seq<State>)
    requires ValidAutomaton(ba, a) && dist.Keys == a.states && root.Keys == a.states
    requires forall x :: x in dist ==> 0 <= dist[x] <= IntMax
    requires forall x :: x in a.states ==> x in order
    requires Settled(a, root, settled) && RowsDone(dist, settled, order, order)
    ensures CompletePartition(a, root)
  {
    forall x, y | x in root && y in root && Equivalent(a, x, y) ensures root[x] == root[y] {
      assert x in order && y in order;
      if Before(dist, x, y) {
        assert Pair(x, y) in settled;
      } else if Before(dist, y, x) {
        assert Pair(y, x) in settled;
        EquivalentSymmetric(a, x, y);
      }
    }
  }

  // ---------------------------------------------------------------------------------------------
  // The union loop of a successful test, shared by the drivers.
  // ---------------------------------------------------------------------------------------------

  /** The classes of a sound partition of the states of `a`. */
  ghost predicate SoundClasses(a: Automaton, equivClasses: DisjointSets)
    reads equivClasses
  {
    equivClasses.Valid() && equivClasses.parentMap.Keys == a.states && SoundPartition(a, equivClasses.Root)
  }

  /** The identifiers of a forest over the states are states that identify themselves. */
  lemma ClassesIdentify(a: Automaton, equivClasses: DisjointSets)
    requires equivClasses.Valid() && equivClasses.parentMap.Keys == a.states
    ensures Identifies(a, equivClasses.Root)
  {
    IdentifiersIdentifyThemselves(equivClasses.parentMap, equivClasses.rankMap, equivClasses.Root, equivClasses.Depth);
  }

  /** Every pair of `equiv` holds two equivalent states of `a`. */
  ghost predicate EquivalentPairs(a: Automaton, equiv: set<Pair>)
  {
    forall pr :: pr in equiv ==> pr.fst in a.states && pr.snd in a.states && Equivalent(a, pr.fst, pr.snd)
  }

  /** The state of the union loop: the pairs of `equiv` outside `todo` are settled. */
  ghost predicate MergeInv(a: Automaton, equivClasses: DisjointSets, equiv: set<Pair>, todo: set<Pair>,
                           settled0: set<Pair>, settled: set<Pair>)
    reads equivClasses
  {
    && SoundClasses(a, equivClasses) && Settled(a, equivClasses.Root, settled)
    && EquivalentPairs(a, equiv) && todo <= equiv && settled0 <= settled
    && forall pr :: pr in equiv ==> pr in todo || pr in settled
  }

  /** The union of the classes of every pair a successful test assumed, in any order. The pairs
      are equivalent, so the partition stays sound, and each ends up in one class. */
  method MergeEquiv(a: Automaton, equivClasses: DisjointSets, equiv: set<Pair>, ghost settled0: set<Pair>)
    returns (ghost settled: set<Pair>)
    requires SoundClasses(a, equivClasses) && Settled(a, equivClasses.Root, settled0)
    requires EquivalentPairs(a, equiv)
    modifies equivClasses
    ensures SoundClasses(a, equivClasses)
    ensures settled0 <= settled && equiv <= settled && Settled(a, equivClasses.Root, settled)
  {
    var todo := equiv;
    settled := settled0;
    while todo != {}
      invariant MergeInv(a, equivClasses, equiv, todo, settled0, settled)
      decreases |todo|
    {
      todo, settled := MergeNext(a, equivClasses, equiv, todo, settled0, settled);
    }
  }

  /** One round of the union loop. */
  method MergeNext(a: Automaton, equivClasses: DisjointSets, equiv: set<Pair>, todo0: set<Pair>,
                   ghost settled0: set<Pair>, ghost settled1: set<Pair>)
    returns (todo: set<Pair>, ghost settled: set<Pair>)
    requires MergeInv(a, equivClasses, equiv, todo0, settled0, settled1) && todo0 != {}
    modifies equivClasses
    ensures MergeInv(a, equivClasses, equiv, todo, settled0, settled) && |todo| < |todo0|
  {
    var equivPair;
    equivPair, todo := TakePair(todo0);
    settled := UnionPair(a, equivClasses, equiv, todo0, equivPair, settled0, settled1);
  }

  /** The union of the classes of one pair of `todo`: the pair is settled. */
  method UnionPair(a: Automaton, equivClasses: DisjointSets, equiv: set<Pair>, todo: set<Pair>, pr: Pair,
                   ghost settled0: set<Pair>, ghost settled1: set<Pair>) returns (ghost settled: set<Pair>)
    requires MergeInv(a, equivClasses, equiv, todo, settled0, settled1) && pr in todo
    modifies equivClasses
    ensures MergeInv(a, equivClasses, equiv, todo - {pr}, settled0, settled)
  {
    ghost var root, rank := equivClasses.Root, equivClasses.rankMap;
    ClassesIdentify(a, equivClasses);
    var united := equivClasses.Union(pr.fst, pr.snd);
    UnionSettles(a, root, rank, pr, settled1);
    settled := settled1 + {pr};
  }

  /** Merging the classes of an equivalent pair keeps the partition sound, joins the pair and
      keeps every settled pair settled. */
  lemma UnionSettles(a: Automaton, root: map<State, State>, rank: map<State, int>, pr: Pair, settled: set<Pair>)
    requires SoundPartition(a, root) && Settled(a, root, settled)
    requires pr.fst in root && pr.snd in root && root[pr.fst] in rank && root[pr.snd] in rank
    requires Equivalent(a, pr.fst, pr.snd)
    ensures var root' := MergedRoot(root, rank, root[pr.fst], root[pr.snd]);
            SoundPartition(a, root') && Settled(a, root', settled + {pr})
  {
    MergeSound(a, root, rank, pr.fst, pr.snd);
    MergeJoins(root, rank, pr.fst, pr.snd);
    SettledMerge(a, root, rank, root[pr.fst], root[pr.snd], settled);
  }
}
