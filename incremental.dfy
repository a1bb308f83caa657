/**
 * The incremental minimiser of minimization/incremental/IncrementalMinimization.java: the state
 * it keeps across equivalence tests (the distance-to-final map, the cache of pairs known to be
 * inequivalent), and the iterative equivalence test that walks the pairs reachable from a start
 * pair with an explicit stack.
 */
module Incremental {
  import opened Base
  import opened Sfa
  import opened UnionFind
  import opened Distance
  import opened StateOrder
  import opened Splitting
  import opened Equivalence
  import opened Walk
  import opened Merging
  import opened Scan

  // ---------------------------------------------------------------------------------------------
  // The capacity of the pair sets.
  // ---------------------------------------------------------------------------------------------

  /** `new HashSet(capacity, 0.9f)`: a negative initial capacity is refused with an
      IllegalArgumentException; otherwise the set starts empty. */
  function NewPairSet(capacity: int): (r: Result<set<Pair>>)
    ensures r.Ok? <==> capacity >= 0
    ensures r.Ok? ==> r.value == {}
  {
    if capacity < 0 then Err(IllegalArgument) else Ok({})
  }

  /** num_pairs as the constructor computes it: the square of the state count in Java's `int`. */
  function NumPairsAsWritten(n: nat): (r: int)
    ensures IntMin <= r <= IntMax
    ensures n * n <= IntMax ==> r == n * n
  {
    Wrap32(n * n)
  }

  /** For 46341 states the square wraps to a negative `int`, so the constructor's
      `new HashSet(num_pairs, 0.9f)` throws. */
  lemma NumPairsAsWrittenOverflows()
    ensures NumPairsAsWritten(46341) == -2147479015
    ensures NewPairSet(NumPairsAsWritten(46341)).Err?
  {
  }

  /** The intended capacity: room for every pair of states, capped at the largest `int`. */
  function NumPairs(n: nat): (r: int)
    ensures 0 <= r <= IntMax
    ensures n * n <= IntMax ==> r == n * n
    ensures n * n > IntMax ==> r == IntMax
  {
    if n * n <= IntMax then n * n else IntMax
  }

  /** The capped capacity is always accepted, and agrees with the one as written whenever the
      square fits. */
  lemma NumPairsAccepted(n: nat)
    ensures NewPairSet(NumPairs(n)).Ok?
    ensures n * n <= IntMax ==> NumPairs(n) == NumPairsAsWritten(n)
  {
  }

  // ---------------------------------------------------------------------------------------------
  // The minimiser's state.
  // ---------------------------------------------------------------------------------------------

  class IncrementalMinimization {
    const ba: Algebra
    const aut: Automaton
    const numPairs: int
    const distanceToFinalMap: map<State, int>
    /** The keys of `distanceToFinalMap` in insertion order, the order the driver visits them. */
    const order: seq<State>
    /** Pairs, normalised, known to hold inequivalent states. */
    var neq: set<Pair>

    ghost predicate Valid()
    {
      && ValidAutomaton(ba, aut)
      && IsDistanceMap(aut, distanceToFinalMap)
      && 0 <= numPairs
    }

    /** The automaton is taken deterministic and total; the distances are computed once. */
    constructor (aut: Automaton, ba: Algebra)
      requires ValidAutomaton(ba, aut)
      ensures Valid() && this.aut == aut && this.ba == ba
      ensures numPairs == NumPairs(|aut.states|) && neq == {}
      ensures ListsKeys(order, distanceToFinalMap.Keys) && DistanceOrdered(order, distanceToFinalMap)
    {
      var n := NumPairs(|aut.states|);
      NumPairsAccepted(|aut.states|);
      var created := NewPairSet(n);
      var dist, ord := DistanceToFinalMap(ba, aut);
      this.aut := aut;
      this.ba := ba;
      numPairs := n;
      neq := created.value;
      distanceToFinalMap := dist;
      order := ord;
    }

    /** A pair is known inequivalent when the cache holds it or its states lie at different
        distances from a final state; in the second case the pair is cached. Under a sound
        cache the answer `true` is right. */
    method IsKnownNotEqual(p: State, q: State) returns (r: bool)
      requires Valid() && p in aut.states && q in aut.states
      modifies this
      ensures r <==> Normalize(distanceToFinalMap, p, q) in old(neq) || distanceToFinalMap[p] != distanceToFinalMap[q]
      ensures neq == if r then old(neq) + {Normalize(distanceToFinalMap, p, q)} else old(neq)
      ensures NeqSound(aut, old(neq)) ==> NeqSound(aut, neq) && (r ==> !Equivalent(aut, p, q))
    {
      var normalizedPair := Normalize(distanceToFinalMap, p, q);
      NormalizedPair(aut, distanceToFinalMap, p, q, {});
      if normalizedPair in neq {
        r := true;
      } else if distanceToFinalMap[p] != distanceToFinalMap[q] {
        DistinctDistances(ba, aut, distanceToFinalMap, p, q);
        neq := neq + {normalizedPair};
        r := true;
      } else {
        r := false;
      }
    }

    /** makeEquivTest: a test over the current classes with empty pair sets. */
    method MakeEquivTest(equivClasses: DisjointSets) returns (t: EquivTest)
      requires Valid()
      ensures fresh(t) && t.outer == this && t.equivClasses == equivClasses
      ensures t.equiv == {} && t.path == {}
    {
      var equiv := NewPairSet(numPairs);
      var path := NewPairSet(numPairs);
      t := new EquivTest(this, equivClasses, equiv.value, path.value);
    }

    /** minimize: an empty automaton gives the library's empty automaton; otherwise every pair
        of states `(p, q)` with `q` after `p` in the state order is tested unless the cache or the
        partition already decides it, and the classes of the automaton are merged. The partition
        `root` the result is built from is sound whatever the clock reads; when the budget
        lasts it is also complete, so the result has no two distinct equivalent states
        (Equivalence.QuotientMinimal). `clock` gives the successive readings of the
        nanosecond clock, the first one being the start time. */
    method Minimize(budget: int, clock: nat -> int) returns (res: Outcome, ghost root: map<State, State>)
      requires Valid() && ListsKeys(order, distanceToFinalMap.Keys) && NeqSound(aut, neq)
      requires LongMin <= budget <= LongMax && LongMin <= clock(0) <= LongMax
      modifies this
      ensures NeqSound(aut, neq)
      ensures aut.isEmpty ==> res == Minimized(EmptySfa(ba))
      ensures forall w :: Accepts(res.aut, res.aut.initial, w) == Accepts(aut, aut.initial, w)
      ensures forall w :: AcceptsSome(res.aut, res.aut.initial, w) == Accepts(aut, aut.initial, w)
      ensures !aut.isEmpty ==>
                && Identifies(aut, root) && SoundPartition(aut, root) && IsQuotient(aut, root, res.aut)
                && (res.Minimized? ==> CompletePartition(aut, root) && MovesAgree(res.aut))
    {
      var startTime := clock(0);
      var endTime := EndTime(startTime, budget);
      if aut.isEmpty {
        return Minimized(EmptySfa(ba)), map[];
      }
      var equivClasses := MakeClasses(aut.states);
      Singletons(aut, equivClasses.Root);
      assert ScanInv(equivClasses, {});
      var expired, settled, tick := ScanPairs(equivClasses, endTime, clock);
      ClassesIdentify(aut, equivClasses);
      var merged := MergeClasses(aut, equivClasses);
      root := equivClasses.Root;
      QuotientLanguage(ba, aut, root, merged);
      QuotientLanguageSome(ba, aut, root, merged);
      if expired {
        res := BudgetExceeded(merged);
      } else {
        ScannedComplete(ba, aut, distanceToFinalMap, root, settled, order);
        QuotientMovesAgree(ba, aut, root, merged);
        res := Minimized(merged);
      }
    }

    /** What the scan keeps: the cache and the partition are sound and the pairs of `settled` are
        settled. */
    ghost predicate ScanInv(equivClasses: DisjointSets, settled: set<Pair>)
      reads this, equivClasses
    {
      var holds := Valid() && NeqSound(aut, neq) && SoundClasses(aut, equivClasses) && Settled(aut, equivClasses.Root, settled);
      holds
    }

    /** The two loops of minimize over the state order. Unless the clock ran out, every pair
        `(p, q)` with `q` after `p` is settled: equivalent states share a class. */
    method ScanPairs(equivClasses: DisjointSets, endTime: int, clock: nat -> int)
      returns (expired: bool, ghost settled: set<Pair>, tick: nat)
      requires ScanInv(equivClasses, {}) && forall x :: x in order ==> x in aut.states
      modifies this, equivClasses
      ensures ScanInv(equivClasses, settled)
      ensures !expired ==> RowsDone(distanceToFinalMap, settled, order, order)
    {
      settled, tick := {}, 1;
      for i := 0 to |order|
        invariant ScanInv(equivClasses, settled)
        invariant RowsDone(distanceToFinalMap, settled, order[..i], order)
      {
        ghost var settled0 := settled;
        expired, tick, settled := ScanRow(equivClasses, order[i], endTime, clock, tick, settled);
        if expired {
          return;
        }
        RowsStep(distanceToFinalMap, settled0, settled, order, order, i);
      }
      assert order[..|order|] == order;
      expired := false;
    }

    /** The inner loop of minimize for the row of `p`, from clock reading `tick0` on. A `q` not
        after `p` is skipped: it is never at a greater distance than `p`, so the loop's `break`
        is never taken. A pair known inequivalent or already in one class is settled as it is;
        any other pair is tested, and either its classes are merged or its states are
        inequivalent. */
    method ScanRow(equivClasses: DisjointSets, p: State, endTime: int, clock: nat -> int, tick0: nat,
                   ghost settled0: set<Pair>)
      returns (expired: bool, tick: nat, ghost settled: set<Pair>)
      requires ScanInv(equivClasses, settled0) && p in aut.states && forall x :: x in order ==> x in aut.states
      modifies this, equivClasses
      ensures ScanInv(equivClasses, settled) && settled0 <= settled
      ensures !expired ==> RowDone(distanceToFinalMap, settled, p, order)
    {
      tick, settled := tick0, settled0;
      for j := 0 to |order|
        invariant ScanInv(equivClasses, settled) && settled0 <= settled
        invariant RowDone(distanceToFinalMap, settled, p, order[..j])
      {
        var q := order[j];
        ghost var before := settled;
        PairDistances(p, q);
        if Compare(distanceToFinalMap, q, p) <= 0 {
          if distanceToFinalMap[p] < distanceToFinalMap[q] {
            assert false;
            break;
          }
        } else {
          expired, tick, settled := SettlePair(equivClasses, p, q, endTime, clock, tick, settled);
          if expired {
            return;
          }
        }
        RowStep(distanceToFinalMap, before, settled, p, order, j);
      }
      assert order[..|order|] == order;
      expired := false;
    }

    /** The comparator puts `q` after `p` exactly when `q` follows `p` in the state order, and a
        state that does not follow another is never at a greater distance. */
    lemma PairDistances(p: State, q: State)
      requires Valid() && p in aut.states && q in aut.states
      ensures Compare(distanceToFinalMap, q, p) > 0 <==> Before(distanceToFinalMap, p, q)
      ensures !Before(distanceToFinalMap, p, q) ==> distanceToFinalMap[q] <= distanceToFinalMap[p]
    {
    }

    /** The body of the inner loop of minimize for a pair `(p, q)` with `q` after `p`: a pair
        known inequivalent or in one class is settled at once; otherwise the clock is read and,
        unless it ran out, the pair is tested. */
    method SettlePair(equivClasses: DisjointSets, p: State, q: State, endTime: int, clock: nat -> int, tick0: nat,
                      ghost settled0: set<Pair>)
      returns (expired: bool, tick: nat, ghost settled: set<Pair>)
      requires ScanInv(equivClasses, settled0) && p in aut.states && q in aut.states
      modifies this, equivClasses
      ensures ScanInv(equivClasses, settled) && settled0 <= settled
      ensures !expired ==> Pair(p, q) in settled
    {
      tick, settled := tick0, settled0;
      var known := IsKnownNotEqual(p, q);
      if known {
        SettledSub(aut, equivClasses.Root, settled, Pair(p, q));
        return false, tick, settled + {Pair(p, q)};
      }
      var pClass, qClass := FindClasses(equivClasses, p, q);
      if pClass == qClass {
        SettledSub(aut, equivClasses.Root, settled, Pair(p, q));
        return false, tick, settled + {Pair(p, q)};
      }
      expired := Expired(endTime, clock(tick));
      tick := tick + 1;
      if expired {
        return;
      }
      expired, tick, settled := TestPair(equivClasses, p, q, endTime, clock, tick, settled);
    }

    /** The test of a pair, with fresh pair sets. On `true` the classes of every assumed pair are
        merged; on `false`, unless the clock ran out, the path pairs join the cache. Either way
        the clock is read once more. */
    method TestPair(equivClasses: DisjointSets, p: State, q: State, endTime: int, clock: nat -> int, tick0: nat,
                    ghost settled0: set<Pair>)
      returns (expired: bool, tick: nat, ghost settled: set<Pair>)
      requires ScanInv(equivClasses, settled0) && p in aut.states && q in aut.states
      modifies this, equivClasses
      ensures ScanInv(equivClasses, settled) && settled0 <= settled
      ensures !expired ==> Pair(p, q) in settled
    {
      tick, settled := tick0, settled0;
      ClassesIdentify(aut, equivClasses);
      var pEquiv := MakeEquivTest(equivClasses);
      var isequiv := pEquiv.IsEquiv(p, q);
      var equiv, path := pEquiv.equiv, pEquiv.path;
      if isequiv {
        assert equiv - {} == equiv && equiv + {} == equiv;
        settled := MergeTested(equivClasses, p, q, equiv, settled);
        expired := Expired(endTime, clock(tick));
        tick := tick + 1;
      } else {
        expired := Expired(endTime, clock(tick));
        tick := tick + 1;
        if expired {
          return;
        }
        neq := neq + path;
        SettledSub(aut, equivClasses.Root, settled, Pair(p, q));
        settled := settled + {Pair(p, q)};
      }
    }

    /** A successful test: the pairs it assumed are closed, hence equivalent, and merging their
        classes settles the tested pair. */
    method MergeTested(equivClasses: DisjointSets, p: State, q: State, equiv: set<Pair>, ghost settled0: set<Pair>)
      returns (ghost settled: set<Pair>)
      requires Valid() && SoundClasses(aut, equivClasses) && Settled(aut, equivClasses.Root, settled0)
      requires p in aut.states && q in aut.states
      requires Normalize(distanceToFinalMap, p, q) in equiv && AllClosed(ba, aut, equivClasses.Root, equiv, equiv)
      modifies equivClasses
      ensures SoundClasses(aut, equivClasses) && settled0 <= settled && Settled(aut, equivClasses.Root, settled)
      ensures Pair(p, q) in settled
    {
      ClosedPairsEquivalent(ba, aut, equivClasses.Root, equiv);
      settled := MergeEquiv(aut, equivClasses, equiv, settled0);
      SettledNormalized(aut, equivClasses.Root, distanceToFinalMap, settled, p, q);
      settled := settled + {Pair(p, q)};
    }
  }

  // ---------------------------------------------------------------------------------------------
  // The iterative equivalence test.
  // ---------------------------------------------------------------------------------------------

  /** A pending test: two states and the pairs on the way to them. */
  datatype EquivRecord = EquivRecord(pState: State, qState: State, curPath: set<Pair>)

  /** The normalised pair of a record. */
  function RecordPair(dist: map<State, int>, rec: EquivRecord): Pair
    requires rec.pState in dist && rec.qState in dist
  {
    Normalize(dist, rec.pState, rec.qState)
  }

  /** What holds of every record on the stack of a test started at pair `s` with path `p0`,
      while `e` is the set of pairs assumed equivalent: its states are states at equal distance,
      its path lies between `p0` and the assumed pairs and reaches back to `s`, its own pair is
      assumed, and (when the partition and the cache are sound) its inequivalence would make every
      pair on its path inequivalent. */
  ghost predicate RecordOK(a: Automaton, dist: map<State, int>, e: set<Pair>, p0: set<Pair>, s: Pair,
                           sound: bool, rec: EquivRecord)
  {
    && rec.pState in a.states && rec.qState in a.states
    && rec.pState in dist && rec.qState in dist
    && dist[rec.pState] == dist[rec.qState]
    && p0 <= rec.curPath <= e + p0 + {s}
    && (s in rec.curPath || RecordPair(dist, rec) == s)
    && RecordPair(dist, rec) in e + {s}
    && (sound && !Equivalent(a, rec.pState, rec.qState) ==>
          forall x :: x in rec.curPath - p0 ==> !Equivalent(a, x.fst, x.snd))
  }

  ghost predicate RecordsOK(a: Automaton, dist: map<State, int>, e: set<Pair>, p0: set<Pair>, s: Pair,
                            sound: bool, recs: seq<EquivRecord>)
  {
    forall i :: 0 <= i < |recs| ==> RecordOK(a, dist, e, p0, s, sound, recs[i])
  }

  /** `keys` lists the pairs of `recs`, position by position. */
  ghost predicate PairsOf(dist: map<State, int>, recs: seq<EquivRecord>, keys: seq<Pair>)
  {
    && |keys| == |recs|
    && forall i :: 0 <= i < |recs| ==>
         recs[i].pState in dist && recs[i].qState in dist && keys[i] == RecordPair(dist, recs[i])
  }

  lemma RecordsGrow(a: Automaton, dist: map<State, int>, e: set<Pair>, e': set<Pair>, p0: set<Pair>, s: Pair,
                    sound: bool, recs: seq<EquivRecord>)
    requires RecordsOK(a, dist, e, p0, s, sound, recs) && e <= e'
    ensures RecordsOK(a, dist, e', p0, s, sound, recs)
  {
    forall i | 0 <= i < |recs| ensures RecordOK(a, dist, e', p0, s, sound, recs[i]) {
      assert RecordOK(a, dist, e, p0, s, sound, recs[i]);
    }
  }

  /** The record pushed for successor classes `pc` and `qc` of a record: its path is the
      record's path with the record's own pair. */
  lemma ChildRecord(a: Automaton, dist: map<State, int>, e: set<Pair>, e': set<Pair>, p0: set<Pair>, s: Pair,
                    sound: bool, rec: EquivRecord, pc: State, qc: State)
    requires RecordOK(a, dist, e, p0, s, sound, rec) && e <= e'
    requires pc in a.states && qc in a.states && pc in dist && qc in dist && dist[pc] == dist[qc]
    requires Normalize(dist, pc, qc) in e'
    requires sound && !Equivalent(a, pc, qc) ==> !Equivalent(a, rec.pState, rec.qState)
    ensures RecordOK(a, dist, e', p0, s, sound, EquivRecord(pc, qc, rec.curPath + {RecordPair(dist, rec)}))
  {
    NormalizedPair(a, dist, rec.pState, rec.qState, {});
  }

  /** Popping the last record and pushing `pushed`: the pairs assumed since the start are
      still finished or pending. */
  lemma PendingStep(e0: set<Pair>, e: set<Pair>, e': set<Pair>, done: set<Pair>, pend: seq<Pair>, added: seq<Pair>)
    requires pend != [] && e <= e'
    requires forall x :: x in e - e0 ==> x in done || x in pend
    requires forall x :: x in e' - e ==> x in added
    ensures forall x :: x in e' - e0 ==>
              x in done + {pend[|pend| - 1]} || x in pend[..|pend| - 1] + added
  {
    forall x | x in e' - e0 ensures x in done + {pend[|pend| - 1]} || x in pend[..|pend| - 1] + added {
      if x in e - e0 && x !in done {
        var i :| 0 <= i < |pend| && pend[i] == x;
        if i < |pend| - 1 {
          assert pend[..|pend| - 1][i] == x;
        }
      }
    }
  }

  class EquivTest {
    const outer: IncrementalMinimization
    const equivClasses: DisjointSets
    /** Pairs assumed equivalent by this test. */
    var equiv: set<Pair>
    /** Pairs on the way to the pair that failed. */
    var path: set<Pair>

    constructor (outer: IncrementalMinimization, equivClasses: DisjointSets, equiv: set<Pair>, path: set<Pair>)
      ensures this.outer == outer && this.equivClasses == equivClasses
      ensures this.equiv == equiv && this.path == path
    {
      this.outer := outer;
      this.equivClasses := equivClasses;
      this.equiv := equiv;
      this.path := path;
    }

    ghost predicate Valid()
      reads equivClasses
    {
      outer.Valid() && equivClasses.Valid() && Identifies(outer.aut, equivClasses.Root)
    }

    /** isEquiv: whether `pStart` and `qStart` are taken to be equivalent. On `true` every
        pair the test assumed is closed up to the assumed pairs and the pairs of the initial
        path, and the start pair is among them; on `false` the path records the pairs on the
        way to the failure. Under a sound partition and cache, every new path pair and the start
        pair (unless it was on the initial path) are inequivalent, and the cache stays sound. */
    method IsEquiv(pStart: State, qStart: State) returns (r: bool)
      requires Valid() && pStart in outer.aut.states && qStart in outer.aut.states
      modifies this, outer, equivClasses
      ensures Valid()
      ensures equivClasses.Root == old(equivClasses.Root) && equivClasses.rankMap == old(equivClasses.rankMap)
      ensures equivClasses.parentMap.Keys == old(equivClasses.parentMap.Keys)
      ensures EquivOutcome(outer.ba, outer.aut, outer.distanceToFinalMap, equivClasses.Root, old(outer.neq), outer.neq,
                           old(equiv), equiv, old(path), path, pStart, qStart, r)
    {
      var e, p;
      r, e, p := Search(pStart, qStart);
      SetPairs(e, p);
    }

    method SetPairs(e: set<Pair>, p: set<Pair>)
      modifies this
      ensures equiv == e && path == p
    {
      equiv, path := e, p;
    }

    /** The work of isEquiv, returning the new pair sets `e` and `p` in place of `equiv` and `path`. */
    method Search(pStart: State, qStart: State) returns (r: bool, e: set<Pair>, p: set<Pair>)
      requires Valid() && pStart in outer.aut.states && qStart in outer.aut.states
      modifies outer, equivClasses
      ensures Valid()
      ensures equivClasses.Root == old(equivClasses.Root) && equivClasses.rankMap == old(equivClasses.rankMap)
      ensures equivClasses.parentMap.Keys == old(equivClasses.parentMap.Keys)
      ensures EquivOutcome(outer.ba, outer.aut, outer.distanceToFinalMap, equivClasses.Root, old(outer.neq), outer.neq,
                           equiv, e, path, p, pStart, qStart, r)
    {
      ghost var root := equivClasses.Root;
      var known := outer.IsKnownNotEqual(pStart, qStart);
      if known {
        assert equivClasses.Root == root;
        KnownOutcome(outer.ba, outer.aut, outer.distanceToFinalMap, root, old(outer.neq), outer.neq, equiv, path,
                     pStart, qStart);
        return false, equiv, path;
      }
      r, e, p := SearchFrom(pStart, qStart, old(outer.neq));
    }

    /** isEquiv after the start pair was not known inequivalent: the stack loop and its result. */
    method SearchFrom(pStart: State, qStart: State, ghost neq0: set<Pair>) returns (r: bool, e: set<Pair>, p: set<Pair>)
      requires Valid() && pStart in outer.aut.states && qStart in outer.aut.states
      requires outer.distanceToFinalMap[pStart] == outer.distanceToFinalMap[qStart]
      requires neq0 <= outer.neq && (NeqSound(outer.aut, neq0) ==> NeqSound(outer.aut, outer.neq))
      modifies outer, equivClasses
      ensures Valid()
      ensures equivClasses.Root == old(equivClasses.Root) && equivClasses.rankMap == old(equivClasses.rankMap)
      ensures equivClasses.parentMap.Keys == old(equivClasses.parentMap.Keys)
      ensures EquivOutcome(outer.ba, outer.aut, outer.distanceToFinalMap, equivClasses.Root, neq0, outer.neq,
                           equiv, e, path, p, pStart, qStart, r)
    {
      ghost var a, dist, root := outer.aut, outer.distanceToFinalMap, equivClasses.Root;
      ghost var sound := SoundPartition(a, root) && NeqSound(a, outer.neq);
      ghost var s := Normalize(dist, pStart, qStart);
      var start := EquivRecord(pStart, qStart, path);
      StartRecord(a, dist, equiv, path, sound, start);
      var failed, assumed, failPath, done := ExamineStack(start, root, path, s, sound, equiv);
      assert equivClasses.Root == root;
      if failed {
        FailedOutcome(outer.ba, a, dist, root, neq0, outer.neq, equiv, assumed, path, failPath, pStart, qStart, sound);
        r, e, p := false, assumed, failPath;
      } else {
        ClosedOutcome(outer.ba, a, dist, root, neq0, outer.neq, equiv, assumed, done, path, s, pStart, qStart, sound);
        r, e, p := true, assumed + {Normalize(outer.distanceToFinalMap, pStart, qStart)}, path;
      }
    }

    /** The stack loop of isEquiv, started with the record `start` of pair `s` and the pairs
        `e0` assumed so far. On failure `failPath` is the path of the record that failed; it holds
        `s`, and under a sound partition and cache its pairs beyond the initial path `p0` are
        inequivalent. On success every pair assumed since `e0`, and `s`, is finished: closed up
        to the assumed pairs, `s` and `p0`. */
    method ExamineStack(start: EquivRecord, ghost root: map<State, State>, ghost p0: set<Pair>, ghost s: Pair,
                        ghost sound: bool, e0: set<Pair>)
      returns (failed: bool, assumed: set<Pair>, failPath: set<Pair>, ghost done: set<Pair>)
      requires outer.Valid() && equivClasses.Valid() && equivClasses.Root == root && Identifies(outer.aut, root)
      requires sound ==> SoundPartition(outer.aut, root) && NeqSound(outer.aut, outer.neq)
      requires RecordOK(outer.aut, outer.distanceToFinalMap, e0, p0, s, sound, start)
      requires start.curPath == p0 && RecordPair(outer.distanceToFinalMap, start) == s
      modifies outer, equivClasses
      ensures equivClasses.Valid() && equivClasses.Root == root
      ensures equivClasses.rankMap == old(equivClasses.rankMap)
      ensures equivClasses.parentMap.Keys == old(equivClasses.parentMap.Keys)
      ensures e0 <= assumed && old(outer.neq) <= outer.neq
      ensures sound ==> NeqSound(outer.aut, outer.neq)
      ensures failed ==> && s in failPath && p0 <= failPath
                         && (sound ==> forall x :: x in failPath - p0 ==> !Equivalent(outer.aut, x.fst, x.snd))
      ensures !failed ==> && s in done && assumed - e0 <= done
                          && AllClosed(outer.ba, outer.aut, root, done, assumed + p0 + {s})
    {
      ghost var ba, a, dist := outer.ba, outer.aut, outer.distanceToFinalMap;
      assumed := e0;
      var testStack := [start];
      ghost var pend := [s];
      done := {};
      StackStart(ba, a, dist, root, p0, s, sound, e0, start);
      while testStack != []
        invariant equivClasses.Valid() && equivClasses.Root == root
        invariant equivClasses.rankMap == old(equivClasses.rankMap)
        invariant equivClasses.parentMap.Keys == old(equivClasses.parentMap.Keys)
        invariant e0 <= assumed && old(outer.neq) <= outer.neq
        invariant sound ==> NeqSound(a, outer.neq)
        invariant StackInv(ba, a, dist, root, p0, s, sound, e0, assumed, done, testStack, pend)
        invariant s in done || testStack == [start]
        decreases |AllPairs(a.states) - assumed|, |testStack|
      {
        ghost var st, e1 := testStack, assumed;
        var curEquivTest := testStack[|testStack| - 1];
        testStack := testStack[..|testStack| - 1];
        TopRecord(a, dist, assumed, p0, s, sound, st);
        var pushed;
        ghost var added;
        failed, assumed, pushed, added := ExamineRecord(curEquivTest, root, p0, s, sound, assumed);
        if failed {
          failPath := curEquivTest.curPath + {RecordPair(outer.distanceToFinalMap, curEquivTest)};
          FailedRecord(a, dist, e1, p0, s, sound, st);
          return;
        }
        PairDone(ba, a, dist, root, p0, s, sound, e0, e1, assumed, done, pend, st, pushed, added);
        done := done + {RecordPair(dist, curEquivTest)};
        testStack := testStack + pushed;
        pend := pend[..|pend| - 1] + added;
      }
      failed, failPath := false, {};
    }

    /** One record of isEquiv's stack: the walk over the moves of its two states, with `e0`
        the pairs assumed so far. It fails when a pair of successor classes is known
        inequivalent; otherwise the record's states are closed up to the pairs `e` then assumed,
        and `pushed` holds the records for the newly assumed pairs, whose pairs `added` lists. */
    method ExamineRecord(rec: EquivRecord, ghost root: map<State, State>, ghost p0: set<Pair>, ghost s: Pair,
                         ghost sound: bool, e0: set<Pair>)
      returns (failed: bool, e: set<Pair>, pushed: seq<EquivRecord>, ghost added: seq<Pair>)
      requires outer.Valid() && equivClasses.Valid() && equivClasses.Root == root && Identifies(outer.aut, root)
      requires RecordOK(outer.aut, outer.distanceToFinalMap, e0, p0, s, sound, rec)
      requires sound ==> SoundPartition(outer.aut, root) && NeqSound(outer.aut, outer.neq)
      modifies outer, equivClasses
      ensures equivClasses.Valid() && equivClasses.Root == root
      ensures equivClasses.rankMap == old(equivClasses.rankMap)
      ensures equivClasses.parentMap.Keys == old(equivClasses.parentMap.Keys)
      ensures e0 <= e && old(outer.neq) <= outer.neq
      ensures sound ==> NeqSound(outer.aut, outer.neq)
      ensures failed ==> (sound ==> !Equivalent(outer.aut, rec.pState, rec.qState))
      ensures !failed ==> RecordExamined(outer.ba, outer.aut, outer.distanceToFinalMap, root, p0, s, sound, rec,
                                         e0, e, pushed, added)
    {
      var p, q := rec.pState, rec.qState;
      var outp := MovesFrom(outer.aut.moves, p);
      var outq := MovesFrom(outer.aut.moves, q);
      WalkStart(outer.ba, outer.aut, root, p, q, e0 + p0 + {s});
      failed, e, pushed, added := WalkRecord(rec, root, p0, s, sound, e0, outp, outq);
    }

    /** The loop of isEquiv over the moves `outp` and `outq` of a record's two states. */
    method WalkRecord(rec: EquivRecord, ghost root: map<State, State>, ghost p0: set<Pair>, ghost s: Pair,
                      ghost sound: bool, e0: set<Pair>, outp0: seq<Move>, outq0: seq<Move>)
      returns (failed: bool, e: set<Pair>, pushed: seq<EquivRecord>, ghost added: seq<Pair>)
      requires outer.Valid() && equivClasses.Valid() && equivClasses.Root == root && Identifies(outer.aut, root)
      requires sound ==> SoundPartition(outer.aut, root)
      requires ExamineInv(outer.ba, outer.aut, outer.distanceToFinalMap, root, p0, s, sound, rec, e0, e0,
                          outer.neq, outp0, outq0, [], [])
      modifies outer, equivClasses
      ensures equivClasses.Valid() && equivClasses.Root == root
      ensures equivClasses.rankMap == old(equivClasses.rankMap)
      ensures equivClasses.parentMap.Keys == old(equivClasses.parentMap.Keys)
      ensures e0 <= e && old(outer.neq) <= outer.neq
      ensures sound ==> NeqSound(outer.aut, outer.neq)
      ensures failed ==> (sound ==> !Equivalent(outer.aut, rec.pState, rec.qState))
      ensures !failed ==> RecordExamined(outer.ba, outer.aut, outer.distanceToFinalMap, root, p0, s, sound, rec,
                                         e0, e, pushed, added)
    {
      ghost var ba, a, dist := outer.ba, outer.aut, outer.distanceToFinalMap;
      var newPath := rec.curPath + {RecordPair(outer.distanceToFinalMap, rec)};
      var outp, outq := outp0, outq0;
      e, pushed, added := e0, [], [];
      while outp != [] && outq != []
        invariant equivClasses.Valid() && equivClasses.Root == root
        invariant equivClasses.rankMap == old(equivClasses.rankMap)
        invariant equivClasses.parentMap.Keys == old(equivClasses.parentMap.Keys)
        invariant old(outer.neq) <= outer.neq
        invariant ExamineInv(ba, a, dist, root, p0, s, sound, rec, e0, e, outer.neq, outp, outq, pushed, added)
        decreases |Cover(outp)|
      {
        MeetingExists(ba, outp, outq);
        var found := FindNonDisjointMoves(outp, outq);
        assert found.Some?;
        var j := found.value;
        failed, e, pushed, added := HandleMeeting(rec, root, p0, s, sound, e0, e, newPath, outp, outq, j, pushed, added);
        if failed {
          return;
        }
        var split := SplitStep(outer.ba, outp, outq, j);
        outp, outq := split.outp, split.outq;
      }
      WalkEnd(ba, a, root, rec.pState, rec.qState, outp, outq, e + p0 + {s});
      failed := false;
    }

    /** The body of the walk in isEquiv: the successor classes of the meeting moves `outp[0]`
        and `outq[j]` are compared; a pair known inequivalent fails the record, and a pair neither
        assumed nor on the path is assumed and pushed as a new record. */
    method HandleMeeting(rec: EquivRecord, ghost root: map<State, State>, ghost p0: set<Pair>, ghost s: Pair,
                         ghost sound: bool, ghost e1: set<Pair>, e: set<Pair>, newPath: set<Pair>,
                         outp: seq<Move>, outq: seq<Move>, j: nat, pushed0: seq<EquivRecord>, ghost added0: seq<Pair>)
      returns (failed: bool, e': set<Pair>, pushed: seq<EquivRecord>, ghost added: seq<Pair>)
      requires outer.Valid() && equivClasses.Valid() && equivClasses.Root == root && Identifies(outer.aut, root)
      requires sound ==> SoundPartition(outer.aut, root)
      requires ExamineInv(outer.ba, outer.aut, outer.distanceToFinalMap, root, p0, s, sound, rec, e1, e,
                          outer.neq, outp, outq, pushed0, added0)
      requires newPath == rec.curPath + {RecordPair(outer.distanceToFinalMap, rec)}
      requires outp != [] && j < |outq| && IsSatisfiable(MkAnd(outp[0].guard, outq[j].guard))
      modifies outer, equivClasses
      ensures equivClasses.Valid() && equivClasses.Root == root
      ensures equivClasses.rankMap == old(equivClasses.rankMap)
      ensures equivClasses.parentMap.Keys == old(equivClasses.parentMap.Keys)
      ensures old(outer.neq) <= outer.neq
      ensures failed ==> && e' == e && (sound ==> NeqSound(outer.aut, outer.neq))
                         && (sound ==> !Equivalent(outer.aut, rec.pState, rec.qState))
      ensures !failed ==>
                && ExamineInv(outer.ba, outer.aut, outer.distanceToFinalMap, root, p0, s, sound, rec, e1, e',
                              outer.neq, SplitStep(outer.ba, outp, outq, j).outp,
                              SplitStep(outer.ba, outp, outq, j).outq, pushed, added)
                && |Cover(SplitStep(outer.ba, outp, outq, j).outp)| < |Cover(outp)|
    {
      ghost var ba, a, dist := outer.ba, outer.aut, outer.distanceToFinalMap;
      MoveEntersState(ba, a, rec.pState, outp, 0);
      MoveEntersState(ba, a, rec.qState, outq, j);
      ghost var neq0 := outer.neq;
      var pNextClass, qNextClass, known := CompareSuccessors(root, outp[0].to, outq[j].to, e);
      if known {
        MeetingFails(ba, a, dist, root, p0, s, sound, rec, e1, e, neq0, outer.neq, outp, outq, j, pushed0, added0);
        failed, e', pushed, added := true, e, pushed0, added0;
        return;
      }
      var nextPair := Normalize(outer.distanceToFinalMap, pNextClass, qNextClass);
      var taken := pNextClass != qNextClass && nextPair !in e && nextPair !in newPath;
      e' := if taken then e + {nextPair} else e;
      pushed := if taken then pushed0 + [EquivRecord(pNextClass, qNextClass, newPath)] else pushed0;
      added := if taken then added0 + [nextPair] else added0;
      MeetingKept(ba, a, dist, root, p0, s, sound, rec, e1, e, outer.neq, outp, outq, j, pushed0, added0,
                  e', pushed, added);
      failed := false;
    }

    /** The successor classes `pc` and `qc` of a meeting and whether their pair is known
        inequivalent; the cache is asked only when the classes differ and their pair is not
        among the assumed pairs `e`. */
    method CompareSuccessors(ghost root: map<State, State>, x: State, y: State, e: set<Pair>)
      returns (pc: State, qc: State, known: bool)
      requires outer.Valid() && equivClasses.Valid() && equivClasses.Root == root && Identifies(outer.aut, root)
      requires x in root && y in root
      modifies outer, equivClasses
      ensures equivClasses.Valid() && equivClasses.Root == root
      ensures equivClasses.rankMap == old(equivClasses.rankMap)
      ensures equivClasses.parentMap.Keys == old(equivClasses.parentMap.Keys)
      ensures pc == root[x] && qc == root[y] && pc in outer.aut.states && qc in outer.aut.states
      ensures known <==> && pc != qc && Normalize(outer.distanceToFinalMap, pc, qc) !in e
                         && (Normalize(outer.distanceToFinalMap, pc, qc) in old(outer.neq)
                             || outer.distanceToFinalMap[pc] != outer.distanceToFinalMap[qc])
      ensures outer.neq == if known then old(outer.neq) + {Normalize(outer.distanceToFinalMap, pc, qc)} else old(outer.neq)
      ensures NeqSound(outer.aut, old(outer.neq)) ==>
                NeqSound(outer.aut, outer.neq) && (known ==> !Equivalent(outer.aut, pc, qc))
    {
      pc, qc := FindClasses(equivClasses, x, y);
      var nextPair := Normalize(outer.distanceToFinalMap, pc, qc);
      known := false;
      if pc != qc && nextPair !in e {
        known := outer.IsKnownNotEqual(pc, qc);
      }
    }
  }

  /** The identifiers of the classes of two states, as the two calls of `find` give them. */
  method FindClasses(equivClasses: DisjointSets, x: State, y: State) returns (cx: State, cy: State)
    requires equivClasses.Valid() && x in equivClasses.Root && y in equivClasses.Root
    modifies equivClasses
    ensures equivClasses.Valid()
    ensures equivClasses.Root == old(equivClasses.Root) && equivClasses.rankMap == old(equivClasses.rankMap)
    ensures equivClasses.parentMap.Keys == old(equivClasses.parentMap.Keys)
    ensures cx == equivClasses.Root[x] && cy == equivClasses.Root[y]
  {
    var xFound := equivClasses.Find(x);
    var yFound := equivClasses.Find(y);
    cx, cy := xFound.value, yFound.value;
  }

  /** The `make` loop of minimize: every state in a class of its own. */
  method MakeClasses(states: set<State>) returns (equivClasses: DisjointSets)
    ensures fresh(equivClasses) && equivClasses.Valid() && equivClasses.parentMap.Keys == states
    ensures equivClasses.Root == map x | x in states :: x
  {
    equivClasses := new DisjointSets();
    var todo := states;
    while todo != {}
      invariant fresh(equivClasses) && equivClasses.Valid() && todo <= states
      invariant equivClasses.parentMap.Keys == states - todo
      invariant equivClasses.Root == map x | x in states - todo :: x
      decreases |todo|
    {
      NonEmptyHasElement(todo);
      var q :| q in todo;
      var made := equivClasses.Make(q);
      todo := todo - {q};
    }
  }

  /** The state of the walk over the moves of a record. */
  ghost predicate ExamineInv(ba: Algebra, a: Automaton, dist: map<State, int>, root: map<State, State>,
                             p0: set<Pair>, s: Pair, sound: bool, rec: EquivRecord, e1: set<Pair>, e: set<Pair>,
                             neq: set<Pair>, outp: seq<Move>, outq: seq<Move>, pushed: seq<EquivRecord>, added: seq<Pair>)
  {
    && WalkInv(ba, a, root, rec.pState, rec.qState, outp, outq, e + p0 + {s})
    && RecordOK(a, dist, e, p0, s, sound, rec)
    && RecordsOK(a, dist, e, p0, s, sound, pushed) && PairsOf(dist, pushed, added)
    && e1 <= e
    && (forall x :: x in e - e1 ==> x in added)
    && e - e1 <= AllPairs(a.states)
    && (pushed != [] ==> e != e1)
    && (sound ==> NeqSound(a, neq))
  }

  lemma AppendRecord(a: Automaton, dist: map<State, int>, e: set<Pair>, p0: set<Pair>, s: Pair, sound: bool,
                     recs: seq<EquivRecord>, keys: seq<Pair>, rec: EquivRecord, key: Pair)
    requires RecordsOK(a, dist, e, p0, s, sound, recs) && PairsOf(dist, recs, keys)
    requires RecordOK(a, dist, e, p0, s, sound, rec) && key == RecordPair(dist, rec)
    ensures RecordsOK(a, dist, e, p0, s, sound, recs + [rec]) && PairsOf(dist, recs + [rec], keys + [key])
    ensures forall x :: x in keys ==> x in keys + [key]
    ensures key in keys + [key]
  {
  }

  lemma StackPush(dist: map<State, int>, stack: seq<EquivRecord>, pend: seq<Pair>, pushed: seq<EquivRecord>, added: seq<Pair>)
    requires PairsOf(dist, stack, pend) && PairsOf(dist, pushed, added)
    ensures PairsOf(dist, stack + pushed, pend + added)
  {
  }

  /** What examining a record leaves: its states are closed up to the pairs `e` assumed after
      it, and the records pushed for the pairs assumed since `e0` are well formed. */
  ghost predicate RecordExamined(ba: Algebra, a: Automaton, dist: map<State, int>, root: map<State, State>,
                                 p0: set<Pair>, s: Pair, sound: bool, rec: EquivRecord, e0: set<Pair>, e: set<Pair>,
                                 pushed: seq<EquivRecord>, added: seq<Pair>)
  {
    && Closed(ba, a, root, rec.pState, rec.qState, e + p0 + {s})
    && RecordsOK(a, dist, e, p0, s, sound, pushed) && PairsOf(dist, pushed, added)
    && e0 <= e
    && (forall x :: x in e - e0 ==> x in added)
    && e - e0 <= AllPairs(a.states)
    && (pushed != [] ==> e != e0)
  }

  /** A meeting whose successor classes are known inequivalent: under a sound partition and
      cache, the record's states are inequivalent and the cache stays sound. */
  lemma MeetingFails(ba: Algebra, a: Automaton, dist: map<State, int>, root: map<State, State>,
                     p0: set<Pair>, s: Pair, sound: bool, rec: EquivRecord, e1: set<Pair>, e: set<Pair>,
                     neq0: set<Pair>, neq: set<Pair>, outp: seq<Move>, outq: seq<Move>, j: nat,
                     pushed: seq<EquivRecord>, added: seq<Pair>)
    requires sound ==> SoundPartition(a, root)
    requires ExamineInv(ba, a, dist, root, p0, s, sound, rec, e1, e, neq0, outp, outq, pushed, added)
    requires outp != [] && j < |outq| && IsSatisfiable(MkAnd(outp[0].guard, outq[j].guard))
    requires outp[0].to in root && outq[j].to in root
    requires NeqSound(a, neq0) ==> NeqSound(a, neq) && !Equivalent(a, root[outp[0].to], root[outq[j].to])
    ensures sound ==> NeqSound(a, neq) && !Equivalent(a, rec.pState, rec.qState)
  {
    if sound {
      InequivalentMeeting(a, root, rec.pState, rec.qState, outp, outq, j);
    }
  }

  /** A meeting that does not fail the record: its successor classes are equal, already
      assumed, on the path, or assumed now and pushed as a record; the walk goes on with the
      split lists. */
  lemma MeetingKept(ba: Algebra, a: Automaton, dist: map<State, int>, root: map<State, State>,
                    p0: set<Pair>, s: Pair, sound: bool, rec: EquivRecord, e1: set<Pair>, e: set<Pair>,
                    neq: set<Pair>, outp: seq<Move>, outq: seq<Move>, j: nat,
                    pushed0: seq<EquivRecord>, added0: seq<Pair>,
                    e': set<Pair>, pushed: seq<EquivRecord>, added: seq<Pair>)
    requires ValidAutomaton(ba, a) && IsDistanceMap(a, dist) && Identifies(a, root)
    requires sound ==> SoundPartition(a, root)
    requires ExamineInv(ba, a, dist, root, p0, s, sound, rec, e1, e, neq, outp, outq, pushed0, added0)
    requires outp != [] && j < |outq| && IsSatisfiable(MkAnd(outp[0].guard, outq[j].guard))
    requires outp[0].to in root && outq[j].to in root
    requires var pc, qc := root[outp[0].to], root[outq[j].to];
             var next := Normalize(dist, pc, qc);
             var newPath := rec.curPath + {RecordPair(dist, rec)};
             var taken := pc != qc && next !in e && next !in newPath;
             && (taken ==> dist[pc] == dist[qc])
             && e' == (if taken then e + {next} else e)
             && pushed == (if taken then pushed0 + [EquivRecord(pc, qc, newPath)] else pushed0)
             && added == (if taken then added0 + [next] else added0)
    ensures ExamineInv(ba, a, dist, root, p0, s, sound, rec, e1, e', neq,
                       SplitStep(ba, outp, outq, j).outp, SplitStep(ba, outp, outq, j).outq, pushed, added)
    ensures |Cover(SplitStep(ba, outp, outq, j).outp)| < |Cover(outp)|
  {
    var pc, qc := root[outp[0].to], root[outq[j].to];
    var next := Normalize(dist, pc, qc);
    var newPath := rec.curPath + {RecordPair(dist, rec)};
    if pc != qc && next !in e && next !in newPath {
      MeetingAssumed(ba, a, dist, root, p0, s, sound, rec, e1, e, neq, outp, outq, j, pushed0, added0);
    }
    assert RecordOK(a, dist, e', p0, s, sound, rec);
    NormalizedPair(a, dist, pc, qc, e' + p0 + {s});
    MeetStep(ba, a, root, rec.pState, rec.qState, outp, outq, j, e' + p0 + {s});
  }

  /** A meeting whose successor classes differ and whose pair is neither assumed nor on the
      path: the pair is assumed and a record for it is pushed. */
  lemma MeetingAssumed(ba: Algebra, a: Automaton, dist: map<State, int>, root: map<State, State>,
                       p0: set<Pair>, s: Pair, sound: bool, rec: EquivRecord, e1: set<Pair>, e: set<Pair>,
                       neq: set<Pair>, outp: seq<Move>, outq: seq<Move>, j: nat,
                       pushed0: seq<EquivRecord>, added0: seq<Pair>)
    requires ValidAutomaton(ba, a) && IsDistanceMap(a, dist) && Identifies(a, root)
    requires sound ==> SoundPartition(a, root)
    requires ExamineInv(ba, a, dist, root, p0, s, sound, rec, e1, e, neq, outp, outq, pushed0, added0)
    requires outp != [] && j < |outq| && IsSatisfiable(MkAnd(outp[0].guard, outq[j].guard))
    requires outp[0].to in root && outq[j].to in root
    requires var pc, qc := root[outp[0].to], root[outq[j].to];
             && pc != qc && dist[pc] == dist[qc] && Normalize(dist, pc, qc) !in e
    ensures var pc, qc := root[outp[0].to], root[outq[j].to];
            var next := Normalize(dist, pc, qc);
            ExamineInv(ba, a, dist, root, p0, s, sound, rec, e1, e + {next}, neq, outp, outq,
                       pushed0 + [EquivRecord(pc, qc, rec.curPath + {RecordPair(dist, rec)})], added0 + [next])
  {
    var p, q := rec.pState, rec.qState;
    var pc, qc := root[outp[0].to], root[outq[j].to];
    var next := Normalize(dist, pc, qc);
    var e' := e + {next};
    assert pc in a.states && qc in a.states;
    if sound && !Equivalent(a, pc, qc) {
      InequivalentMeeting(a, root, p, q, outp, outq, j);
    }
    ChildRecord(a, dist, e, e', p0, s, sound, rec, pc, qc);
    RecordsGrow(a, dist, e, e', p0, s, sound, pushed0);
    WalkGrow(ba, a, root, p, q, outp, outq, e + p0 + {s}, e' + p0 + {s});
    AppendRecord(a, dist, e', p0, s, sound, pushed0, added0, EquivRecord(pc, qc, rec.curPath + {RecordPair(dist, rec)}), next);
  }

  /** The state of isEquiv's stack loop: the records on the stack and their pairs `pend`, the
      finished pairs `done`, closed up to the assumed pairs `e`, `s` and `p0`, and every pair
      assumed since `e0` finished or pending. */
  ghost predicate StackInv(ba: Algebra, a: Automaton, dist: map<State, int>, root: map<State, State>,
                           p0: set<Pair>, s: Pair, sound: bool, e0: set<Pair>, e: set<Pair>, done: set<Pair>,
                           stack: seq<EquivRecord>, pend: seq<Pair>)
  {
    && RecordsOK(a, dist, e, p0, s, sound, stack) && PairsOf(dist, stack, pend)
    && AllClosed(ba, a, root, done, e + p0 + {s})
    && (forall x :: x in e - e0 ==> x in done || x in pend)
    && e - e0 <= AllPairs(a.states)
  }

  /** The record isEquiv starts from: its two states at equal distance, its path the initial one. */
  lemma StartRecord(a: Automaton, dist: map<State, int>, e0: set<Pair>, p0: set<Pair>, sound: bool,
                    start: EquivRecord)
    requires start.pState in a.states && start.qState in a.states
    requires start.pState in dist && start.qState in dist && dist[start.pState] == dist[start.qState]
    requires start.curPath == p0
    ensures RecordOK(a, dist, e0, p0, RecordPair(dist, start), sound, start)
  {
  }

  /** What isEquiv promises of a test of `x` and `y` that took the cache from `neq0` to `neq`, the
      assumed pairs from `e0` to `e` and the path from `p0` to `p`. On `true` the path is unchanged,
      the start pair is assumed and every newly assumed pair is closed up to the assumed pairs and
      the initial path. On `false` the path only grows. Under a sound partition and cache, the cache
      stays sound and on `false` every new path pair is inequivalent, and so is the start pair unless
      it was on the initial path. */
  ghost predicate EquivOutcome(ba: Algebra, a: Automaton, dist: map<State, int>, root: map<State, State>,
                               neq0: set<Pair>, neq: set<Pair>, e0: set<Pair>, e: set<Pair>,
                               p0: set<Pair>, p: set<Pair>, x: State, y: State, r: bool)
  {
    && x in dist && y in dist
    && e0 <= e && neq0 <= neq
    && (r ==> p == p0 && Normalize(dist, x, y) in e && AllClosed(ba, a, root, e - e0, e + p0))
    && (!r ==> p0 <= p)
    && (SoundPartition(a, root) && NeqSound(a, neq0) ==>
          && NeqSound(a, neq)
          && (!r ==> && (forall pr :: pr in p - p0 ==> !Equivalent(a, pr.fst, pr.snd))
                     && (Normalize(dist, x, y) in p0 || !Equivalent(a, x, y))))
  }

  /** A start pair known inequivalent: the test fails with nothing assumed and the path unchanged. */
  lemma KnownOutcome(ba: Algebra, a: Automaton, dist: map<State, int>, root: map<State, State>,
                     neq0: set<Pair>, neq: set<Pair>, e0: set<Pair>, p0: set<Pair>, x: State, y: State)
    requires x in dist && y in dist && neq0 <= neq
    requires NeqSound(a, neq0) ==> NeqSound(a, neq) && !Equivalent(a, x, y)
    ensures EquivOutcome(ba, a, dist, root, neq0, neq, e0, e0, p0, p0, x, y, false)
  {
  }

  /** A failed stack loop: the path holds the start pair `s` of `x` and `y`, so the start pair was on
      the initial path or its states are inequivalent. */
  lemma FailedOutcome(ba: Algebra, a: Automaton, dist: map<State, int>, root: map<State, State>,
                      neq0: set<Pair>, neq: set<Pair>, e0: set<Pair>, assumed: set<Pair>, p0: set<Pair>,
                      failPath: set<Pair>, x: State, y: State, sound: bool)
    requires x in dist && y in dist && e0 <= assumed && neq0 <= neq
    requires Normalize(dist, x, y) in failPath && p0 <= failPath
    requires SoundPartition(a, root) && NeqSound(a, neq0) ==> sound
    requires sound ==> NeqSound(a, neq) && forall pr :: pr in failPath - p0 ==> !Equivalent(a, pr.fst, pr.snd)
    ensures EquivOutcome(ba, a, dist, root, neq0, neq, e0, assumed, p0, failPath, x, y, false)
  {
    NormalizedPair(a, dist, x, y, {});
  }

  /** A successful stack loop: every pair assumed since `e0`, with the start pair `s`, is closed up
      to those pairs and the initial path. */
  lemma ClosedOutcome(ba: Algebra, a: Automaton, dist: map<State, int>, root: map<State, State>,
                      neq0: set<Pair>, neq: set<Pair>, e0: set<Pair>, assumed: set<Pair>, done: set<Pair>,
                      p0: set<Pair>, s: Pair, x: State, y: State, sound: bool)
    requires x in dist && y in dist && s == Normalize(dist, x, y) && e0 <= assumed && neq0 <= neq
    requires s in done && assumed - e0 <= done
    requires AllClosed(ba, a, root, done, assumed + p0 + {s})
    requires SoundPartition(a, root) && NeqSound(a, neq0) ==> sound
    requires sound ==> NeqSound(a, neq)
    ensures EquivOutcome(ba, a, dist, root, neq0, neq, e0, assumed + {s}, p0, p0, x, y, true)
  {
    AllClosedSub(ba, a, root, done, (assumed + {s}) - e0, assumed + p0 + {s}, (assumed + {s}) + p0);
  }

  /** The stack loop starts with the one record of `s` and nothing finished. */
  lemma StackStart(ba: Algebra, a: Automaton, dist: map<State, int>, root: map<State, State>,
                   p0: set<Pair>, s: Pair, sound: bool, e0: set<Pair>, start: EquivRecord)
    requires RecordOK(a, dist, e0, p0, s, sound, start) && RecordPair(dist, start) == s
    ensures StackInv(ba, a, dist, root, p0, s, sound, e0, e0, {}, [start], [s])
  {
  }

  /** The record on top of the stack is well formed. */
  lemma TopRecord(a: Automaton, dist: map<State, int>, e: set<Pair>, p0: set<Pair>, s: Pair, sound: bool,
                  st: seq<EquivRecord>)
    requires st != [] && RecordsOK(a, dist, e, p0, s, sound, st)
    ensures RecordOK(a, dist, e, p0, s, sound, st[|st| - 1])
  {
  }

  /** The path of a failed record holds the start pair, and under a sound partition and cache
      its pairs beyond the initial path are inequivalent. */
  lemma FailedRecord(a: Automaton, dist: map<State, int>, e: set<Pair>, p0: set<Pair>, s: Pair, sound: bool,
                     st: seq<EquivRecord>)
    requires st != [] && RecordsOK(a, dist, e, p0, s, sound, st)
    requires sound ==> !Equivalent(a, st[|st| - 1].pState, st[|st| - 1].qState)
    ensures var cur := st[|st| - 1];
            var failPath := cur.curPath + {RecordPair(dist, cur)};
            && s in failPath && p0 <= failPath
            && (sound ==> forall x :: x in failPath - p0 ==> !Equivalent(a, x.fst, x.snd))
  {
    var cur := st[|st| - 1];
    assert RecordOK(a, dist, e, p0, s, sound, cur);
    NormalizedPair(a, dist, cur.pState, cur.qState, {});
  }

  /** The bookkeeping of one round of isEquiv's stack: the record on top of `st` is examined
      and closed, its pair joins the finished ones and the records it pushed take its place.
      The measure drops when pairs were assumed. */
  lemma PairDone(ba: Algebra, a: Automaton, dist: map<State, int>, root: map<State, State>,
                 p0: set<Pair>, s: Pair, sound: bool, e0: set<Pair>, e1: set<Pair>, e: set<Pair>,
                 done: set<Pair>, pend: seq<Pair>, st: seq<EquivRecord>, pushed: seq<EquivRecord>, added: seq<Pair>)
    requires IsDistanceMap(a, dist) && st != [] && e0 <= e1
    requires StackInv(ba, a, dist, root, p0, s, sound, e0, e1, done, st, pend)
    requires RecordExamined(ba, a, dist, root, p0, s, sound, st[|st| - 1], e1, e, pushed, added)
    ensures StackInv(ba, a, dist, root, p0, s, sound, e0, e, done + {RecordPair(dist, st[|st| - 1])},
                     st[..|st| - 1] + pushed, pend[..|pend| - 1] + added)
    ensures e != e1 ==> |AllPairs(a.states) - e| < |AllPairs(a.states) - e1|
    ensures e == e1 ==> pushed == []
  {
    var cur := st[|st| - 1];
    var rest := st[..|st| - 1];
    assert RecordOK(a, dist, e1, p0, s, sound, cur);
    assert pend[|pend| - 1] == RecordPair(dist, cur);
    PendingStep(e0, e1, e, done, pend, added);
    AllClosedGrow(ba, a, root, done, e1 + p0 + {s}, e + p0 + {s});
    ClosedJoin(ba, a, root, dist, done, cur.pState, cur.qState, RecordPair(dist, cur), e + p0 + {s});
    assert RecordsOK(a, dist, e1, p0, s, sound, rest);
    RecordsGrow(a, dist, e1, e, p0, s, sound, rest);
    assert PairsOf(dist, rest, pend[..|pend| - 1]);
    StackPush(dist, rest, pend[..|pend| - 1], pushed, added);
    if e != e1 {
      FewerOutside(a.states, e1, e);
    }
  }
}
