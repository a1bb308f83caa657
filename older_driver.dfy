/**
 * The driver of the older IncrementalMinimization.java (default package). It scans the pairs of
 * states exactly as the newer minimiser does, but chooses its equivalence test by two flags: the
 * upfront-minterm test when `upfront` is set, else the older recursive test when `recursive` is
 * set, else the iterative test. The minterms of the automaton are computed once per run. A
 * static wrapper turns the budget exception into a normal return of the automaton it carries.
 */
module OlderDriver {
  import opened Base
  import opened Sfa
  import opened UnionFind
  import opened Distance
  import opened StateOrder
  import opened Equivalence
  import opened Walk
  import opened Merging
  import opened Scan
  import opened Incremental
  import opened Recursive
  import opened OlderRecursive
  import opened Minterms
  import opened Upfront

  /** What the driver needs of a test run with fresh pair sets on `x` and `y`, which took the
      cache from `neq0` to `neq` and left the assumed pairs `e` and the path `p`: on `true` the
      start pair is assumed and every assumed pair is closed up to the assumed pairs; under a
      sound partition and cache the cache stays sound, and on `false` the two states and every
      path pair are inequivalent. */
  ghost predicate FreshOutcome(ba: Algebra, a: Automaton, dist: map<State, int>, root: map<State, State>,
                               neq0: set<Pair>, neq: set<Pair>, e: set<Pair>, p: set<Pair>,
                               x: State, y: State, r: bool)
  {
    && x in dist && y in dist && neq0 <= neq
    && (r ==> Normalize(dist, x, y) in e && AllClosed(ba, a, root, e, e))
    && (SoundPartition(a, root) && NeqSound(a, neq0) ==>
          && NeqSound(a, neq)
          && (!r ==> !Equivalent(a, x, y) && forall pr :: pr in p ==> !Equivalent(a, pr.fst, pr.snd)))
  }

  /** The iterative test, started with empty pair sets, gives the driver what it needs. */
  lemma IterativeFresh(ba: Algebra, a: Automaton, dist: map<State, int>, root: map<State, State>,
                       neq0: set<Pair>, neq: set<Pair>, e: set<Pair>, p: set<Pair>, x: State, y: State, r: bool)
    requires EquivOutcome(ba, a, dist, root, neq0, neq, {}, e, {}, p, x, y, r)
    ensures FreshOutcome(ba, a, dist, root, neq0, neq, e, p, x, y, r)
  {
    assert e - {} == e && e + {} == e && p - {} == p;
  }

  /** The older recursive test, started with empty pair sets, gives the driver what it needs. */
  lemma OlderFresh(ba: Algebra, a: Automaton, dist: map<State, int>, root: map<State, State>,
                   neq0: set<Pair>, neq: set<Pair>, e: set<Pair>, p: set<Pair>, x: State, y: State, r: bool)
    requires OlderOutcome(ba, a, dist, root, neq0, neq, {}, e, p, x, y, r)
    ensures FreshOutcome(ba, a, dist, root, neq0, neq, e, p, x, y, r)
  {
    assert e - {} == e;
  }

  class OlderIncrementalMinimization {
    /** The state the older class shares with the newer one: the automaton, the algebra, the
        distances, the pair bound and the not-equal cache. */
    const base: IncrementalMinimization

    /** The automaton is taken deterministic and total; the distances are computed once. */
    constructor (aut: Automaton, ba: Algebra)
      requires ValidAutomaton(ba, aut)
      ensures fresh(base) && base.Valid() && base.aut == aut && base.ba == ba
      ensures base.numPairs == NumPairs(|aut.states|) && base.neq == {}
      ensures ListsKeys(base.order, base.distanceToFinalMap.Keys) && DistanceOrdered(base.order, base.distanceToFinalMap)
    {
      base := new IncrementalMinimization(aut, ba);
    }

    /** isSinkState: the distance map marks `p` as a sink. */
    predicate IsSinkState(p: State)
      requires p in base.distanceToFinalMap
    {
      base.distanceToFinalMap[p] == IntMax
    }

    /** A state is a sink exactly when it accepts no word. */
    lemma SinkStateAcceptsNothing(p: State)
      requires base.Valid() && p in base.aut.states
      ensures p in base.distanceToFinalMap
      ensures IsSinkState(p) <==> forall w :: !Accepts(base.aut, p, w)
    {
      SinkIffEmpty(base.ba, base.aut, base.distanceToFinalMap, p);
    }

    /** minimize: an empty automaton gives the library's empty automaton; otherwise every pair of
        states `(p, q)` with `q` after `p` is tested with the chosen test unless the cache or the
        partition already decides it, and the classes are merged. The upfront test throws only
        when the universe of symbols is empty. When the run does not throw, the partition `root`
        the result is built from is sound, and complete when the budget lasts. */
    method Minimize(budget: int, upfront: bool, recursive: bool, clock: nat -> int)
      returns (res: Result<Outcome>, ghost root: map<State, State>)
      requires base.Valid() && ListsKeys(base.order, base.distanceToFinalMap.Keys) && NeqSound(base.aut, base.neq)
      requires LongMin <= budget <= LongMax && LongMin <= clock(0) <= LongMax
      modifies base
      ensures NeqSound(base.aut, base.neq)
      ensures base.aut.isEmpty ==> res == Ok(Minimized(EmptySfa(base.ba)))
      ensures !upfront || IsSatisfiable(base.ba.universe) ==> res.Ok?
      ensures res.Ok? ==>
                forall w :: Accepts(res.value.aut, res.value.aut.initial, w) == Accepts(base.aut, base.aut.initial, w)
      ensures res.Ok? ==>
                forall w :: AcceptsSome(res.value.aut, res.value.aut.initial, w) == Accepts(base.aut, base.aut.initial, w)
      ensures res.Ok? && !base.aut.isEmpty ==>
                && Identifies(base.aut, root) && SoundPartition(base.aut, root)
                && IsQuotient(base.aut, root, res.value.aut)
                && (res.value.Minimized? ==> CompletePartition(base.aut, root) && MovesAgree(res.value.aut))
    {
      var startTime := clock(0);
      var endTime := EndTime(startTime, budget);
      if base.aut.isEmpty {
        return Ok(Minimized(EmptySfa(base.ba))), map[];
      }
      var minterms: seq<Guard> := [];
      if upfront {
        minterms := GenerateMinterms(base.aut, base.ba);
      }
      res, root := MinimizeClasses(minterms, upfront, recursive, endTime, clock);
    }

    /** minimize of a non-empty automaton once the end time is known and the minterms, if
        needed, are computed: the partition is built, scanned and merged. */
    method MinimizeClasses(minterms: seq<Guard>, upfront: bool, recursive: bool, endTime: int, clock: nat -> int)
      returns (res: Result<Outcome>, ghost root: map<State, State>)
      requires base.Valid() && ListsKeys(base.order, base.distanceToFinalMap.Keys) && NeqSound(base.aut, base.neq)
      requires Chosen(minterms, upfront)
      modifies base
      ensures NeqSound(base.aut, base.neq)
      ensures !upfront || IsSatisfiable(base.ba.universe) ==> res.Ok?
      ensures res.Ok? ==>
                && Identifies(base.aut, root) && SoundPartition(base.aut, root)
                && IsQuotient(base.aut, root, res.value.aut)
                && (forall w :: Accepts(res.value.aut, res.value.aut.initial, w) == Accepts(base.aut, base.aut.initial, w))
                && (forall w :: AcceptsSome(res.value.aut, res.value.aut.initial, w) == Accepts(base.aut, base.aut.initial, w))
                && (res.value.Minimized? ==> CompletePartition(base.aut, root) && MovesAgree(res.value.aut))
    {
      var equivClasses := MakeClasses(base.aut.states);
      Singletons(base.aut, equivClasses.Root);
      assert base.ScanInv(equivClasses, {});
      var status, settled, tick := ScanPairs(equivClasses, minterms, upfront, recursive, endTime, clock);
      root := equivClasses.Root;
      if status.Err? {
        return Err(status.error), root;
      }
      ClassesIdentify(base.aut, equivClasses);
      var merged := MergeClasses(base.aut, equivClasses);
      root := equivClasses.Root;
      QuotientLanguage(base.ba, base.aut, root, merged);
      QuotientLanguageSome(base.ba, base.aut, root, merged);
      if status.value {
        res := Ok(BudgetExceeded(merged));
      } else {
        ScannedComplete(base.ba, base.aut, base.distanceToFinalMap, root, settled, base.order);
        QuotientMovesAgree(base.ba, base.aut, root, merged);
        res := Ok(Minimized(merged));
      }
    }

    /** The choice of test is well formed: the upfront test gets the automaton's minterms. */
    ghost predicate Chosen(minterms: seq<Guard>, upfront: bool)
    {
      upfront ==> minterms == AutomatonMinterms(base.ba, base.aut)
    }

    /** The two loops of minimize over the state order. The status is `Ok(expired)` or the
        exception a test threw; unless the clock ran out or a test threw, every pair `(p, q)`
        with `q` after `p` is settled. */
    method ScanPairs(equivClasses: DisjointSets, minterms: seq<Guard>, upfront: bool, recursive: bool,
                     endTime: int, clock: nat -> int)
      returns (status: Result<bool>, ghost settled: set<Pair>, tick: nat)
      requires base.ScanInv(equivClasses, {}) && forall x :: x in base.order ==> x in base.aut.states
      requires Chosen(minterms, upfront)
      modifies base, equivClasses
      ensures base.ScanInv(equivClasses, settled)
      ensures !upfront || IsSatisfiable(base.ba.universe) ==> status.Ok?
      ensures status == Ok(false) ==> RowsDone(base.distanceToFinalMap, settled, base.order, base.order)
    {
      settled, tick := {}, 1;
      for i := 0 to |base.order|
        invariant base.ScanInv(equivClasses, settled)
        invariant RowsDone(base.distanceToFinalMap, settled, base.order[..i], base.order)
      {
        ghost var settled0 := settled;
        status, tick, settled := ScanRow(equivClasses, minterms, upfront, recursive, base.order[i], endTime,
                                         clock, tick, settled);
        if status != Ok(false) {
          return;
        }
        RowsStep(base.distanceToFinalMap, settled0, settled, base.order, base.order, i);
      }
      assert base.order[..|base.order|] == base.order;
      status := Ok(false);
    }

    /** The inner loop of minimize for the row of `p`; the `break` is never taken. */
    method ScanRow(equivClasses: DisjointSets, minterms: seq<Guard>, upfront: bool, recursive: bool, p: State,
                   endTime: int, clock: nat -> int, tick0: nat, ghost settled0: set<Pair>)
      returns (status: Result<bool>, tick: nat, ghost settled: set<Pair>)
      requires base.ScanInv(equivClasses, settled0) && p in base.aut.states
      requires forall x :: x in base.order ==> x in base.aut.states
      requires Chosen(minterms, upfront)
      modifies base, equivClasses
      ensures base.ScanInv(equivClasses, settled) && settled0 <= settled
      ensures !upfront || IsSatisfiable(base.ba.universe) ==> status.Ok?
      ensures status == Ok(false) ==> RowDone(base.distanceToFinalMap, settled, p, base.order)
    {
      tick, settled := tick0, settled0;
      for j := 0 to |base.order|
        invariant base.ScanInv(equivClasses, settled) && settled0 <= settled
        invariant RowDone(base.distanceToFinalMap, settled, p, base.order[..j])
      {
        var q := base.order[j];
        ghost var before := settled;
        base.PairDistances(p, q);
        if Compare(base.distanceToFinalMap, q, p) <= 0 {
          if base.distanceToFinalMap[p] < base.distanceToFinalMap[q] {
            assert false;
            break;
          }
        } else {
          status, tick, settled := SettlePair(equivClasses, minterms, upfront, recursive, p, q, endTime, clock,
                                              tick, settled);
          if status != Ok(false) {
            return;
          }
        }
        RowStep(base.distanceToFinalMap, before, settled, p, base.order, j);
      }
      assert base.order[..|base.order|] == base.order;
      status := Ok(false);
    }

    /** A pair known inequivalent or in one class is settled at once; otherwise the clock is
        read and, unless it ran out, the pair is tested. */
    method SettlePair(equivClasses: DisjointSets, minterms: seq<Guard>, upfront: bool, recursive: bool,
                      p: State, q: State, endTime: int, clock: nat -> int, tick0: nat, ghost settled0: set<Pair>)
      returns (status: Result<bool>, tick: nat, ghost settled: set<Pair>)
      requires base.ScanInv(equivClasses, settled0) && p in base.aut.states && q in base.aut.states
      requires Chosen(minterms, upfront)
      modifies base, equivClasses
      ensures base.ScanInv(equivClasses, settled) && settled0 <= settled
      ensures !upfront || IsSatisfiable(base.ba.universe) ==> status.Ok?
      ensures status == Ok(false) ==> Pair(p, q) in settled
    {
      tick, settled := tick0, settled0;
      var known := base.IsKnownNotEqual(p, q);
      if known {
        SettledSub(base.aut, equivClasses.Root, settled, Pair(p, q));
        return Ok(false), tick, settled + {Pair(p, q)};
      }
      var pClass, qClass := FindClasses(equivClasses, p, q);
      if pClass == qClass {
        SettledSub(base.aut, equivClasses.Root, settled, Pair(p, q));
        return Ok(false), tick, settled + {Pair(p, q)};
      }
      var expired := Expired(endTime, clock(tick));
      tick := tick + 1;
      if expired {
        return Ok(true), tick, settled;
      }
      status, tick, settled := TestPair(equivClasses, minterms, upfront, recursive, p, q, endTime, clock,
                                        tick, settled);
    }

    /** The test of a pair with fresh pair sets: on `true` the classes of every assumed pair are
        merged; on `false`, unless the clock ran out, the path pairs join the cache. */
    method TestPair(equivClasses: DisjointSets, minterms: seq<Guard>, upfront: bool, recursive: bool,
                    p: State, q: State, endTime: int, clock: nat -> int, tick0: nat, ghost settled0: set<Pair>)
      returns (status: Result<bool>, tick: nat, ghost settled: set<Pair>)
      requires base.ScanInv(equivClasses, settled0) && p in base.aut.states && q in base.aut.states
      requires Chosen(minterms, upfront)
      modifies base, equivClasses
      ensures base.ScanInv(equivClasses, settled) && settled0 <= settled
      ensures !upfront || IsSatisfiable(base.ba.universe) ==> status.Ok?
      ensures status == Ok(false) ==> Pair(p, q) in settled
    {
      tick, settled := tick0, settled0;
      ClassesIdentify(base.aut, equivClasses);
      var isequiv, equiv, path := RunTest(equivClasses, minterms, upfront, recursive, p, q);
      if isequiv.Err? {
        return Err(isequiv.error), tick, settled;
      }
      if isequiv.value {
        settled := base.MergeTested(equivClasses, p, q, equiv, settled);
        var expired := Expired(endTime, clock(tick));
        tick := tick + 1;
        status := Ok(expired);
      } else {
        var expired := Expired(endTime, clock(tick));
        tick := tick + 1;
        if expired {
          return Ok(true), tick, settled;
        }
        base.neq := base.neq + path;
        SettledSub(base.aut, equivClasses.Root, settled, Pair(p, q));
        settled := settled + {Pair(p, q)};
        status := Ok(false);
      }
    }

    /** The variant selection of minimize: upfront before recursive before iterative, each test
        over the current classes with fresh pair sets. */
    method RunTest(equivClasses: DisjointSets, minterms: seq<Guard>, upfront: bool, recursive: bool,
                   p: State, q: State)
      returns (r: Result<bool>, equiv: set<Pair>, path: set<Pair>)
      requires base.Valid() && equivClasses.Valid() && Identifies(base.aut, equivClasses.Root)
      requires p in base.aut.states && q in base.aut.states && Chosen(minterms, upfront)
      modifies base, equivClasses
      ensures base.Valid() && equivClasses.Valid()
      ensures equivClasses.Root == old(equivClasses.Root) && equivClasses.rankMap == old(equivClasses.rankMap)
      ensures equivClasses.parentMap.Keys == old(equivClasses.parentMap.Keys)
      ensures !upfront || IsSatisfiable(base.ba.universe) ==> r.Ok?
      ensures old(base.neq) <= base.neq
      ensures SoundPartition(base.aut, equivClasses.Root) && NeqSound(base.aut, old(base.neq)) ==> NeqSound(base.aut, base.neq)
      ensures r.Ok? ==> FreshOutcome(base.ba, base.aut, base.distanceToFinalMap, equivClasses.Root,
                                     old(base.neq), base.neq, equiv, path, p, q, r.value)
    {
      if upfront {
        r, equiv, path := RunUpfront(equivClasses, minterms, p, q);
      } else if recursive {
        var b;
        b, equiv, path := RunRecursive(equivClasses, p, q);
        r := Ok(b);
      } else {
        var b;
        b, equiv, path := RunIterative(equivClasses, p, q);
        r := Ok(b);
      }
    }

    /** The upfront test over the automaton's minterms. */
    method RunUpfront(equivClasses: DisjointSets, minterms: seq<Guard>, p: State, q: State)
      returns (r: Result<bool>, equiv: set<Pair>, path: set<Pair>)
      requires base.Valid() && equivClasses.Valid() && Identifies(base.aut, equivClasses.Root)
      requires p in base.aut.states && q in base.aut.states && minterms == AutomatonMinterms(base.ba, base.aut)
      modifies base, equivClasses
      ensures base.Valid() && equivClasses.Valid()
      ensures equivClasses.Root == old(equivClasses.Root) && equivClasses.rankMap == old(equivClasses.rankMap)
      ensures equivClasses.parentMap.Keys == old(equivClasses.parentMap.Keys)
      ensures IsSatisfiable(base.ba.universe) ==> r.Ok?
      ensures old(base.neq) <= base.neq
      ensures SoundPartition(base.aut, equivClasses.Root) && NeqSound(base.aut, old(base.neq)) ==> NeqSound(base.aut, base.neq)
      ensures r.Ok? ==> FreshOutcome(base.ba, base.aut, base.distanceToFinalMap, equivClasses.Root,
                                     old(base.neq), base.neq, equiv, path, p, q, r.value)
    {
      var e0 := NewPairSet(base.numPairs);
      var p0 := NewPairSet(base.numPairs);
      var pEquiv := new EquivTestUpfront(base, equivClasses, minterms, e0.value, p0.value);
      r := pEquiv.IsEquiv(p, q);
      equiv, path := pEquiv.equiv, pEquiv.path;
      if r.Ok? {
        UpfrontMeetsDriver(base.ba, base.aut, base.distanceToFinalMap, equivClasses.Root, old(base.neq), base.neq,
                           {}, equiv, path, p, q, r.value);
        IterativeFresh(base.ba, base.aut, base.distanceToFinalMap, equivClasses.Root, old(base.neq), base.neq,
                       equiv, path, p, q, r.value);
      }
    }

    /** The older recursive test. */
    method RunRecursive(equivClasses: DisjointSets, p: State, q: State)
      returns (r: bool, equiv: set<Pair>, path: set<Pair>)
      requires base.Valid() && equivClasses.Valid() && Identifies(base.aut, equivClasses.Root)
      requires p in base.aut.states && q in base.aut.states
      modifies base, equivClasses
      ensures base.Valid() && equivClasses.Valid()
      ensures equivClasses.Root == old(equivClasses.Root) && equivClasses.rankMap == old(equivClasses.rankMap)
      ensures equivClasses.parentMap.Keys == old(equivClasses.parentMap.Keys)
      ensures FreshOutcome(base.ba, base.aut, base.distanceToFinalMap, equivClasses.Root,
                           old(base.neq), base.neq, equiv, path, p, q, r)
    {
      var e0 := NewPairSet(base.numPairs);
      var p0 := NewPairSet(base.numPairs);
      var pEquiv := new OlderEquivTestRecursive(base, equivClasses, e0.value, p0.value);
      r := pEquiv.IsEquiv(p, q);
      equiv, path := pEquiv.equiv, pEquiv.path;
      OlderFresh(base.ba, base.aut, base.distanceToFinalMap, equivClasses.Root, old(base.neq), base.neq,
                 equiv, path, p, q, r);
    }

    /** The iterative test of the base class. */
    method RunIterative(equivClasses: DisjointSets, p: State, q: State)
      returns (r: bool, equiv: set<Pair>, path: set<Pair>)
      requires base.Valid() && equivClasses.Valid() && Identifies(base.aut, equivClasses.Root)
      requires p in base.aut.states && q in base.aut.states
      modifies base, equivClasses
      ensures base.Valid() && equivClasses.Valid()
      ensures equivClasses.Root == old(equivClasses.Root) && equivClasses.rankMap == old(equivClasses.rankMap)
      ensures equivClasses.parentMap.Keys == old(equivClasses.parentMap.Keys)
      ensures FreshOutcome(base.ba, base.aut, base.distanceToFinalMap, equivClasses.Root,
                           old(base.neq), base.neq, equiv, path, p, q, r)
    {
      var pEquiv := base.MakeEquivTest(equivClasses);
      r := pEquiv.IsEquiv(p, q);
      equiv, path := pEquiv.equiv, pEquiv.path;
      IterativeFresh(base.ba, base.aut, base.distanceToFinalMap, equivClasses.Root, old(base.neq), base.neq,
                     equiv, path, p, q, r);
    }
  }

  /** The static incrementalMinimize: a fresh minimiser run with the iterative or the upfront
      test; a run stopped by the budget hands back the partly merged automaton it carries, so
      either way the result accepts what the automaton accepts. */
  method IncrementalMinimize(aut: Automaton, ba: Algebra, budget: int, upfront: bool, clock: nat -> int)
    returns (r: Result<Automaton>)
    requires ValidAutomaton(ba, aut) && LongMin <= budget <= LongMax && LongMin <= clock(0) <= LongMax
    ensures !upfront || IsSatisfiable(ba.universe) ==> r.Ok?
    ensures aut.isEmpty ==> r == Ok(EmptySfa(ba))
    ensures r.Ok? ==> forall w :: Accepts(r.value, r.value.initial, w) == Accepts(aut, aut.initial, w)
    ensures r.Ok? ==> forall w :: AcceptsSome(r.value, r.value.initial, w) == Accepts(aut, aut.initial, w)
  {
    var min := new OlderIncrementalMinimization(aut, ba);
    var res, root := min.Minimize(budget, upfront, false, clock);
    if res.Err? {
      return Err(res.error);
    }
    r := Ok(res.value.aut);
  }

  /** incrRecursiveMin: a fresh minimiser run with the older recursive test and no budget. It
      never throws; an exhausted budget (possible only when the clock starts negative) is passed
      on as the outcome. */
  method IncrRecursiveMin(aut: Automaton, ba: Algebra, clock: nat -> int) returns (res: Outcome)
    requires ValidAutomaton(ba, aut) && LongMin <= clock(0) <= LongMax
    ensures aut.isEmpty ==> res == Minimized(EmptySfa(ba))
    ensures forall w :: Accepts(res.aut, res.aut.initial, w) == Accepts(aut, aut.initial, w)
    ensures forall w :: AcceptsSome(res.aut, res.aut.initial, w) == Accepts(aut, aut.initial, w)
  {
    var min := new OlderIncrementalMinimization(aut, ba);
    var r, root := min.Minimize(LongMax, false, true, clock);
    res := r.value;
  }
}
