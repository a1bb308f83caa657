# Incremental minimisation of symbolic finite automata, in Dafny

This project models the core of IncrementalMinimization, a Java library that minimises
symbolic finite automata (SFAs, automata whose moves carry predicates over an alphabet
instead of single letters). It then proves properties of that model. The algorithm builds
the partition into equivalence classes incrementally:

- a union-find structure (`DisjointSets`) holds the classes;
- a not-equal cache holds pairs already known to be inequivalent;
- a breadth-first distance-to-final map rules out pairs at different distances.

Each pair of states, scanned in (distance, identifier) order, is tested for equivalence.
A successful test merges the classes of every pair it assumed equivalent. A failed test
adds the pairs on its path to the cache. Finally the automaton is rebuilt over the classes.

The source has several equivalence tests:

- the iterative stack-based test;
- a recursive test;
- an older recursive test;
- an "upfront" test that walks precomputed minterms;
- two variants that record dependencies between pairs and merge classes after a failure.

As baselines it also has a first recursive version (`Main.java`) and Moore's fixpoint
algorithm (`MooreMinimization.java`).

## How the model is organised

- **Alphabet and automata.** A guard is the finite set of symbols its predicate holds, and
  the Boolean algebra is its universe (`Sfa`). An automaton is a datatype with its states,
  initial state, final states, the list of moves and the library's emptiness flag. The
  minimiser's constructor makes its automaton deterministic and total. The model takes the
  input to be deterministic and total already, and its emptiness flag to be set only when it
  accepts no word, as the library keeps it (`ValidAutomaton`).
- **Classes with state.** Objects whose fields the source updates are classes with
  `modifies` clauses:
  - the union-find structure `UnionFind.DisjointSets`, with its parent and rank maps;
  - the minimisers;
  - their equivalence-test objects;
  - the dependency graphs;
  - the minterm tree.

  Their loops are `while` loops with invariants.
- **Specification functions.** The recursive tests are methods proved equal to ghost
  functions (`Recursive.RecTest`, `FirstVersion.Test`, `OlderRecursive.OldRec`,
  `RecWithDeps.RecTestD`, `DependencyChecks.DepTest`). What the tests promise is proved about
  those functions by induction.
- **Soundness of a `true` answer.** A test that answers `true` leaves every pair it assumed
  closed: each symbol leads the two states to one class or to another assumed pair.
  `Equivalence.ClosedPairsEquivalent` proves such pairs language-equivalent. The drivers
  therefore keep the partition sound: states of one class are equivalent. When the budget is
  not exhausted, every scanned pair is settled, which makes the partition complete
  (`Scan.ScannedComplete`). The rebuilt automaton then accepts the input's language and has
  no two equivalent states (`Equivalence.QuotientLanguage`, `Equivalence.QuotientMinimal`),
  and it is deterministic: two moves of one state on a shared symbol enter one state
  (`Equivalence.QuotientMovesAgree`).
  A result built from a sound but incomplete partition, which a run stopped by the budget hands
  back, may have two moves of one state on a shared symbol entering different states. It still
  accepts the input's language along every run (`Sfa.AcceptsSome`, the library's acceptance;
  `Equivalence.QuotientLanguageSome`), and the drivers promise this form for every result.
- **Merging after a failure.** The dependency variants join classes after a failed test. A merge
  is described by `DependencyGraphs.JoinOf`: the new partition is the old one with exactly a
  given set of pairs joined. Soundness holds when every tested node of the graph off the failing
  path is closed (`DependencyGraphs.GraphClosed`). The recording as written can break this; the
  witnesses and the corrected recording are under Findings.
- **Java integer arithmetic.** Java's `int` and `long` wrap-around is written out
  (`Base.Wrap32`, `Base.Wrap64`). It matters in the comparator, in `startTime + budget` and in
  `num_pairs`.
- **Clock and budget.** The clock is a parameter `clock: nat -> int` giving the k-th reading
  of `System.nanoTime()`; the time budget is an ordinary argument.

## Model

| member | source | states |
|---|---|---|
| Base.Wrap32 | IncrementalMinimization/src/minimization/incremental/IncrementalMinimization.java:165-179 | The value is in Java's `int` range, differs from the exact integer by a multiple of 2^32, and is the exact integer whenever that fits: the comparator's wrapping subtraction. |
| Base.Wrap64 | IncrementalMinimization/src/minimization/incremental/IncrementalMinimization.java:357-361 | The same for Java's `long` (2^64), as in `startTime + budget`. |
| Sfa.MovesFrom | IncrementalMinimization/src/minimization/incremental/IncrementalMinimization.java:103-104 | `getInputMovesFrom(p)` holds exactly the automaton's moves leaving `p`, and never more moves than the automaton has. |
| Sfa.MovesFromSet | IncrementalMinimization/src/minimization/incremental/IncrementalMinimization.java:314 | `getInputMovesFrom` of a class holds exactly the moves leaving some state of the class. |
| Sfa.MovesTo | IncrementalMinimization/src/minimization/incremental/IncrementalMinimization.java:243 | `getInputMovesTo(t)` holds exactly the moves entering `t`. |
| Sfa.Cover | IncrementalMinimization/src/minimization/incremental/IncrementalMinimization.java:105-139 | A symbol is in the cover of a move list exactly when some guard of the list holds it. |
| Sfa.StepIn | IncrementalMinimization/src/minimization/incremental/IncrementalMinimization.java:195-199 | The first move holding `c` exists exactly when `c` is covered, and its target is the target of a move of the list whose guard holds `c`. |
| Sfa.StepInDisjoint | IncrementalMinimization/src/minimization/incremental/IncrementalMinimization.java:195-199 | In a list with pairwise disjoint guards (a deterministic automaton) the move holding `c` is the first one holding it. |
| Sfa.TargetOfMove | IncrementalMinimization/src/minimization/incremental/IncrementalMinimization.java:195-199 | `Sfa.Target`, the successor function: In a deterministic and total automaton a move reading `c` gives the successor on `c`. |
| Sfa.TargetTotal | IncrementalMinimization/src/minimization/incremental/IncrementalMinimization.java:199 | After `mkTotal` every state has a successor state on every symbol of the universe. |
| Sfa.EmptySfa | IncrementalMinimization/src/minimization/incremental/IncrementalMinimization.java:362-369 | `getEmptySFA` is flagged empty, has no final state and accepts no word from its state, along the first matching move or along any run. |
| Sfa.NoFinalsRejects | IncrementalMinimization/src/minimization/incremental/IncrementalMinimization.java:362-369 | An automaton without final states accepts no word along any run. |
| Sfa.AcceptsSomeDeterministic | IncrementalMinimization/src/Main.java:273-275 | `accepts` follows any run of moves; on a deterministic total automaton it agrees with acceptance along the successor function. |
| Sfa.EmptyRejects | IncrementalMinimization/src/minimization/incremental/IncrementalMinimization.java:362-369 | The empty automaton rejects every word. |
| StateOrder.Compare | IncrementalMinimization/src/minimization/incremental/IncrementalMinimization.java:165-179 | For non-negative distances and identifiers the sign of `compare` is the order on (distance, identifier), with 0 exactly for the same state. |
| StateOrder.CompareDoesNotWrap | IncrementalMinimization/src/minimization/incremental/IncrementalMinimization.java:169-177 | On non-negative values neither subtraction wraps: the result is the exact difference of distances, or of identifiers when the distances are equal. |
| StateOrder.NormalizeSymmetric | IncrementalMinimization/src/minimization/incremental/IncrementalMinimization.java:273-285 | `normalize(p, q)` and `normalize(q, p)` give the same pair. |
| StateOrder.NormalizeOrdered | IncrementalMinimization/src/minimization/incremental/IncrementalMinimization.java:273-285 | `StateOrder.Normalize`, the model of `normalize`: The normalised pair holds the two arguments, the one the comparator puts first in first place. |
| StateOrder.NormalizeById | IncrementalMinimization/src/Main.java:124-136 | The identifier-ordered `normalize`: it holds the two arguments, the smaller identifier first. |
| StateOrder.NormalizeByIdSymmetric | IncrementalMinimization/src/Main.java:124-136 | The identifier-ordered `normalize` ignores the order of its arguments. |
| Distance.EnqueueFinals | IncrementalMinimization/src/minimization/incremental/IncrementalMinimization.java:233-237 | Every final state is visited and queued at distance 0, and nothing else is. |
| Distance.VisitPredecessors | IncrementalMinimization/src/minimization/incremental/IncrementalMinimization.java:243-251 | Every source of a move entering the dequeued state is seen, and the unseen ones are appended at the next distance; the queue is only extended. |
| Distance.BfsStep | IncrementalMinimization/src/minimization/incremental/IncrementalMinimization.java:238-252 | Dequeuing the head and visiting its predecessors keeps the search invariant: the queue is sorted and faithful, recorded distances are shortest, predecessors of dequeued states are seen, and shorter states are dequeued. |
| Distance.Search | IncrementalMinimization/src/minimization/incremental/IncrementalMinimization.java:238-252 | After the loop the map holds exactly the visited states (finals included), each with its shortest distance to a final state; every predecessor of a visited state was seen. `order` lists each entry once, in the order the entries were made, which is breadth-first order: distances never decrease along it. |
| Distance.Dequeue | IncrementalMinimization/src/minimization/incremental/IncrementalMinimization.java:240-251 | One round of the search loop records the head's distance, appends the head to the entry order and queues its unseen predecessors. The search invariant is kept, no recorded distance exceeds the new head's, and either more states are seen or the queue is shorter. |
| Distance.SearchOrderStep | IncrementalMinimization/src/minimization/incremental/IncrementalMinimization.java:240-242 | Entering the dequeued head into the linked map keeps the entries listed once and in nondecreasing distance, because the head is never nearer than any earlier entry. |
| Distance.ReachableSeen | IncrementalMinimization/src/minimization/incremental/IncrementalMinimization.java:238-252 | Every state with a path to a final state was visited. |
| Distance.MarkSinks | IncrementalMinimization/src/minimization/incremental/IncrementalMinimization.java:254-261 | The map covers every state: unvisited states get `Integer.MAX_VALUE` and visited states keep their distance. The sinks are appended after the search's entries, so the entry order still lists each state once with distances never decreasing. |
| Distance.SinksShortest | IncrementalMinimization/src/minimization/incremental/IncrementalMinimization.java:254-261 | With the search complete, each entry is the length of a shortest path to a final state, or `Integer.MAX_VALUE` when there is none. |
| Distance.DistanceToFinalMap | IncrementalMinimization/src/minimization/incremental/IncrementalMinimization.java:210-264 | `generateDistanceToFinalMap` returns that distance map. Its entry order, the order `keySet()` of the linked map iterates, lists every state once with distances never decreasing: final states first, then breadth-first by distance, then the sinks. |
| Distance.PathGivesWord | IncrementalMinimization/src/minimization/incremental/IncrementalMinimization.java:238-252 | A path of `k` moves to a final state spells an accepted word of length `k`. |
| Distance.WordGivesPath | IncrementalMinimization/src/minimization/incremental/IncrementalMinimization.java:238-252 | An accepted word follows a path to a final state of the same length. |
| Distance.DistanceZeroIffFinal | IncrementalMinimization/src/minimization/incremental/IncrementalMinimization.java:233-237 | Distance 0 holds exactly for final states. |
| Distance.SinkIffEmpty | IncrementalMinimization/src/minimization/incremental/IncrementalMinimization.java:254-261 | The sink marker `Integer.MAX_VALUE` holds exactly for states whose language is empty, in both directions. |
| Distance.EquivalentSameDistance | IncrementalMinimization/src/minimization/incremental/IncrementalMinimization.java:294 | Language-equivalent states have the same distance, so `isKnownNotEqual`'s distance test is sound. |
| Equivalence.ClosedPairsEquivalent | IncrementalMinimization/src/minimization/incremental/IncrementalMinimization.java:81-143 | Pairs closed among themselves over a sound partition hold language-equivalent states: the reason why `true` from isEquiv is right. |
| Equivalence.InequivalentSuccessors | IncrementalMinimization/src/minimization/incremental/IncrementalMinimization.java:113-118 | When the classes two states reach on some symbol are inequivalent, the two states are inequivalent. |
| Equivalence.DistinctDistances | IncrementalMinimization/src/minimization/incremental/IncrementalMinimization.java:294-298 | States at different distances from a final state are inequivalent. |
| Equivalence.SameDistanceSameFinality | IncrementalMinimization/src/minimization/incremental/IncrementalMinimization.java:294 | States at equal distance are both final or both non-final. |
| Equivalence.MergeSound | IncrementalMinimization/src/minimization/incremental/IncrementalMinimization.java:408-411 | The union of two equivalent states' classes keeps the partition sound. |
| Equivalence.MergeCoarsens | IncrementalMinimization/src/DisjointSets.java:70-101 | A union keeps every two states that shared a class in one class. |
| Equivalence.MergeJoins | IncrementalMinimization/src/DisjointSets.java:70-101 | After `union(e1, e2)` the two elements share a class. |
| Equivalence.QuotientAccepts | IncrementalMinimization/src/minimization/incremental/IncrementalMinimization.java:305-326 | From a class identifier the rebuilt automaton accepts exactly what the source automaton accepts from any member of the class. |
| Equivalence.QuotientTarget | IncrementalMinimization/src/minimization/incremental/IncrementalMinimization.java:312-317 | From the class of `x` on a symbol `c` the rebuilt automaton moves to the class of the target of a source move of that class reading `c`. |
| Equivalence.QuotientOrigin | IncrementalMinimization/src/minimization/incremental/IncrementalMinimization.java:316 | Every move of the rebuilt automaton is the image of a source move. |
| Equivalence.QuotientMinimal | IncrementalMinimization/src/minimization/incremental/IncrementalMinimization.java:305-326 | With a complete partition no two distinct states of the rebuilt automaton are equivalent. |
| Equivalence.QuotientLanguage | IncrementalMinimization/src/minimization/incremental/IncrementalMinimization.java:305-326 | The rebuilt automaton, started from the class of the initial state, accepts the language of the source automaton. |
| Equivalence.QuotientAcceptsSome | IncrementalMinimization/src/minimization/incremental/IncrementalMinimization.java:305-326 | Along any run, not only the first matching move, the rebuilt automaton accepts from a class identifier exactly what the source accepts from any member, whether or not the partition is complete (so the rebuilt automaton may be nondeterministic). |
| Equivalence.QuotientLanguageSome | IncrementalMinimization/src/test/TestIncrementalMinimization.java:495-510 | A result rebuilt from any sound partition, such as the automaton a budget-stopped run hands back, accepts the input's language under the library's run-based acceptance, the equivalence the budget test asserts. |
| Equivalence.QuotientMovesAgree | IncrementalMinimization/src/test/TestIncrementalMinimization.java:112-114 | Over a sound and complete partition, two moves of the rebuilt automaton that leave one state and share a symbol enter the same state: the rebuilt automaton is deterministic, as the tests' `isDeterministic` checks expect. |
| Equivalence.EquivalentSymmetric | IncrementalMinimization/src/minimization/incremental/IncrementalMinimization.java:408-411 | Language equivalence is symmetric. |
| Equivalence.EquivalentTransitive | IncrementalMinimization/src/minimization/incremental/IncrementalMinimization.java:408-411 | Language equivalence is transitive. |
| Walk.AllPairs | IncrementalMinimization/src/minimization/incremental/IncrementalMinimization.java:202-203 | Every ordered pair of states is in the set of all pairs, which bounds the assumed pairs. |
| Walk.FewerOutside | IncrementalMinimization/src/minimization/incremental/IncrementalMinimization.java:122 | Assuming new pairs of states leaves fewer pairs outside the assumed set: the measure that ends the test. |
| Walk.WalkStart | IncrementalMinimization/src/minimization/incremental/IncrementalMinimization.java:103-104 | With a state's full move lists the walk starts in its invariant. |
| Walk.MeetStep | IncrementalMinimization/src/minimization/incremental/IncrementalMinimization.java:107-138 | After a meeting whose symbols are handled, the invariant holds of the split lists, and their common cover has strictly fewer symbols. |
| Walk.MeetHandled | IncrementalMinimization/src/minimization/incremental/IncrementalMinimization.java:110-126 | The symbols of a meeting whose classes coincide or form an assumed pair are handled. |
| Walk.WalkEnd | IncrementalMinimization/src/minimization/incremental/IncrementalMinimization.java:105 | Once a list runs out, every symbol is handled: the pair is closed. |
| Walk.InequivalentMeeting | IncrementalMinimization/src/minimization/incremental/IncrementalMinimization.java:113-118 | Under a sound partition, a meeting into inequivalent classes shows the two states inequivalent. |
| Walk.NormalizedPair | IncrementalMinimization/src/minimization/incremental/IncrementalMinimization.java:273-285 | A normalised pair is in a set only if the pair or its mirror is, and it is equivalent exactly when the two states are. |
| Walk.NormalizedByIdPair | IncrementalMinimization/src/Main.java:124-136 | The same for identifier-ordered pairs. |
| Walk.AllClosedSub | IncrementalMinimization/src/minimization/incremental/IncrementalMinimization.java:122 | Closure is kept by fewer pairs and by more assumed pairs. |
| Walk.WalkGrow | IncrementalMinimization/src/minimization/incremental/IncrementalMinimization.java:122 | Assuming more pairs keeps the walk's invariant. |
| Walk.ClosedJoin | IncrementalMinimization/src/minimization/incremental/IncrementalMinimization.java:141 | A closed pair at one distance joins a set of closed pairs, whichever order it is stored in. |
| Splitting.FindNonDisjointMoves | IncrementalMinimization/src/minimization/incremental/IncrementalMinimization.java:62-79 | `Some(j)` when move `j` is the first move of `outq` whose guard meets the guard of `outp[0]`; `None` (the source's null) exactly when no move does. |
| Splitting.FirstMeeting | IncrementalMinimization/src/minimization/incremental/IncrementalMinimization.java:69-77 | The same search from position `k` on. |
| Splitting.MeetingExists | IncrementalMinimization/src/minimization/incremental/IncrementalMinimization.java:105-108 | When both lists have the same cover, a non-empty `outp` always meets some move of `outq`, so the null result is never read. |
| Splitting.SplitStepKeepsInv | IncrementalMinimization/src/minimization/incremental/IncrementalMinimization.java:127-138 | One step (`Splitting.SplitStep`): One step keeps disjoint guards and equal covers, and removes exactly the meeting's symbols from the cover. |
| Splitting.SplitStepShrinks | IncrementalMinimization/src/minimization/incremental/IncrementalMinimization.java:105-138 | The common cover strictly shrinks, so the walk ends. |
| Splitting.SplitShrinksGuards | IncrementalMinimization/src/minimization/incremental/IncrementalMinimization.java:127-138 | A step leaves fewer symbols in the guards of `outp`. |
| Splitting.ResidualIsDifference | IncrementalMinimization/src/minimization/incremental/IncrementalMinimization.java:129-137 | `Splitting.Residual`: `MkAnd(g, MkNot(h))` is `g` minus `h`; the residual move is kept only when it is satisfiable. |
| Splitting.Remove | IncrementalMinimization/src/minimization/incremental/IncrementalMinimization.java:127-128 | `remove` takes exactly one move out of the list. |
| Splitting.CoverRemove | IncrementalMinimization/src/minimization/incremental/IncrementalMinimization.java:127-128 | Removing a move from a list with disjoint guards removes exactly its guard from the cover. |
| Splitting.SideStep | IncrementalMinimization/src/minimization/incremental/IncrementalMinimization.java:127-137 | One side of a step keeps proper, disjoint guards, and its cover loses exactly the meeting of the two guards. |
| Splitting.InitialSplit | IncrementalMinimization/src/minimization/incremental/IncrementalMinimization.java:103-104 | The move lists of two states start with disjoint guards, both covering the universe, and faithful to the states' successors. |
| Splitting.SplitStepFaithful | IncrementalMinimization/src/minimization/incremental/IncrementalMinimization.java:127-138 | After a step every move of both lists is still what its state does on each symbol of its guard. |
| UnionFind.DisjointSets.constructor | IncrementalMinimization/src/DisjointSets.java:18-22 | A new structure has no elements. |
| UnionFind.DisjointSets.Make | IncrementalMinimization/src/DisjointSets.java:34-45 | `make(e)` adds `e` as a singleton of rank 1 and changes nothing else; an element already present gives IllegalArgument and leaves the structure as it was. |
| UnionFind.DisjointSets.Find | IncrementalMinimization/src/DisjointSets.java:47-68 | `find(x)` returns the identifier of the set holding `x` and leaves the sets and ranks alone. Path compression: exactly the elements walked over from `x` (its old chain) are re-pointed directly to the identifier and every other parent link is kept, so a second walk from `x` takes at most one step. An absent element gives IllegalArgument and changes nothing. |
| UnionFind.DisjointSets.WalkUp | IncrementalMinimization/src/DisjointSets.java:54-59 | The first loop of `find` ends at the identifier of `x`, and `path` is exactly the chain walked: `x` first (none when `x` is an identifier), each element followed by its parent, the identifier left out. |
| UnionFind.Chain | IncrementalMinimization/src/DisjointSets.java:54-58 | The elements walked over from `x` all have a parent and belong to the set of `x`. |
| UnionFind.DisjointSets.CompressPath | IncrementalMinimization/src/DisjointSets.java:60-66 | The second loop of `find` re-points every collected element directly to the identifier and leaves every other parent link as it was; the sets, ranks and the forest invariant are kept. |
| UnionFind.CompressedChainShort | IncrementalMinimization/src/DisjointSets.java:60-66 | After the chain of `x` is compressed, `x` and every element of its old chain hang directly below the identifier: walking up from them takes at most one step. |
| UnionFind.DisjointSets.Compress | IncrementalMinimization/src/DisjointSets.java:62-65 | `parentMap.put(y, iden)` re-attaches one element directly to its identifier and changes no other parent link; the sets, the ranks and the forest invariant are kept. |
| UnionFind.DisjointSets.Union | IncrementalMinimization/src/DisjointSets.java:70-101 | `union(e1, e2)` merges the two sets and returns the surviving identifier: that of higher rank, or that of `e1` on a tie, whose rank then grows by one. An absent argument gives IllegalArgument with the sets unchanged. |
| UnionFind.DisjointSets.Link | IncrementalMinimization/src/DisjointSets.java:83-98 | Once both identifiers are found, the sets and ranks become the merge the rank rule prescribes. |
| UnionFind.DisjointSets.Attach | IncrementalMinimization/src/DisjointSets.java:89-98 | The losing identifier is hung below the winner, whose rank is raised exactly on a tie. |
| UnionFind.DisjointSets.GetSets | IncrementalMinimization/src/DisjointSets.java:103-121 | `getSets()` groups every element under its identifier; each group holds exactly the elements of that set. |
| UnionFind.IdentifierIsRoot | IncrementalMinimization/src/DisjointSets.java:54-59 | Walking up from any element ends at its identifier: every other element on the way has a lower rank, and the identifier has no parent. |
| UnionFind.IdentifiersIdentifyThemselves | IncrementalMinimization/src/DisjointSets.java:67 | The identifier `find` returns identifies itself, so `find(find(x)) == find(x)`. |
| UnionFind.MakeKeepsForest | IncrementalMinimization/src/DisjointSets.java:34-45 | Adding a singleton keeps the forest invariant. |
| UnionFind.CompressKeepsForest | IncrementalMinimization/src/DisjointSets.java:60-66 | Re-attaching an element directly to its identifier keeps the forest invariant. |
| UnionFind.AttachKeepsForest | IncrementalMinimization/src/DisjointSets.java:83-98 | Hanging a tree below an identifier of higher rank, or of equal rank and then raised, keeps the forest invariant. |
| UnionFind.MergeCountsSets | IncrementalMinimization/src/DisjointSets.java:70-101 | Merging two distinct sets lowers the number of sets by exactly one; merging a set with itself leaves it. |
| UnionFind.SetsComplete | IncrementalMinimization/src/DisjointSets.java:103-121 | The groups built over all elements are exactly the sets. |
| UnionFind.MakeSingletons | IncrementalMinimization/src/TestDisjointSets.java:11-18 | The test fixture: ten `make` calls give ten singletons of rank 1. |
| UnionFind.FromIdentifiers | IncrementalMinimization/src/DisjointSets.java:24-32 | The collection constructor succeeds exactly when the identifiers are pairwise distinct, and then holds one singleton per identifier; a repeated identifier gives IllegalArgument from `make`. |
| UnionFind.FindScenario | IncrementalMinimization/src/TestDisjointSets.java:20-28 | `testFind`: on ten singletons, `find(i) == i` for every `i`. |
| UnionFind.UnionScenario | IncrementalMinimization/src/TestDisjointSets.java:30-42 | `testUnion`: after `union(1,2)`, `union(3,4)` and `union(2,3)`, the elements 1, 2 and 4 are found in set 1, and 5 stays in set 5. |
| UnionFind.UnionFirstPair | IncrementalMinimization/src/TestDisjointSets.java:34-37 | After `union(1,2)`, both 1 and 2 are found in set 1, whose rank is 2. |
| UnionFind.UnionRest | IncrementalMinimization/src/TestDisjointSets.java:38-41 | After `union(3,4)` and `union(2,3)`, 4 is found in set 1 and 5 in set 5. |
| Seeding.SeedSound | IncrementalMinimization/src/Main.java:152-158 | The seeded pairs (each final state with each non-final state) hold inequivalent states: the empty word separates them. |
| Seeding.SeedPairs | IncrementalMinimization/src/Main.java:152-158 | Seeded pairs are ordered pairs of two distinct states. |
| Seeding.SeedSeparates | IncrementalMinimization/src/MooreMinimization.java:44-51 | Two states whose ordered pair is missing from a cache that holds the seed are both final or both non-final. |
| Seeding.StateList | IncrementalMinimization/src/Main.java:145 | The states come out of the collection in some order, each state listed. |
| Seeding.SeedNeq | IncrementalMinimization/src/Main.java:152-158 | The seeding loops add exactly the seed to the cache. |
| Scan.EndTime | IncrementalMinimization/src/minimization/incremental/IncrementalMinimization.java:357-361 | `startTime + budget` in `long`, replaced by `Long.MAX_VALUE` when it goes negative: for non-negative operands it is the sum saturated at `Long.MAX_VALUE`. |
| Scan.WrapNonNegativeSum | IncrementalMinimization/src/minimization/incremental/IncrementalMinimization.java:358-360 | A sum of two non-negative `long`s wraps negative exactly when it overflows, so the source's negative test detects overflow. |
| Scan.Singletons | IncrementalMinimization/src/minimization/incremental/IncrementalMinimization.java:370-374 | The partition in which every state is its own class identifies the states and is sound. |
| Scan.TakePair | IncrementalMinimization/src/minimization/incremental/IncrementalMinimization.java:405-421 | Iterating a HashSet: some member is taken and the rest is strictly smaller. |
| Scan.SettledMerge | IncrementalMinimization/src/minimization/incremental/IncrementalMinimization.java:405-421 | Merging classes keeps every settled pair settled. |
| Scan.ScannedComplete | IncrementalMinimization/src/minimization/incremental/IncrementalMinimization.java:375-432 | Once every pair in scan order is settled, the partition is complete: equivalent states share a class. |
| Scan.ClassesIdentify | IncrementalMinimization/src/minimization/incremental/IncrementalMinimization.java:370-374 | The identifiers of the union-find forest over the states identify themselves. |
| Scan.MergeEquiv | IncrementalMinimization/src/minimization/incremental/IncrementalMinimization.java:405-421 | The union loop over the pairs a successful test assumed keeps the partition sound and settles each pair. |
| Scan.MergeNext | IncrementalMinimization/src/minimization/incremental/IncrementalMinimization.java:408-411 | One `union` of the loop keeps the loop invariant (the partition sound, the pairs done settled) and takes one pair off what remains. |
| Scan.UnionPair | IncrementalMinimization/src/minimization/incremental/IncrementalMinimization.java:406-420 | One `union` of the loop settles its pair and keeps the loop invariant. |
| Scan.UnionSettles | IncrementalMinimization/src/minimization/incremental/IncrementalMinimization.java:406-420 | Merging an equivalent pair keeps the partition sound, joins the pair and keeps settled pairs settled. |
| Incremental.NewPairSet | IncrementalMinimization/src/minimization/incremental/IncrementalMinimization.java:203 | `new HashSet(capacity, 0.9f)` refuses a negative capacity (IllegalArgumentException) and otherwise starts empty. |
| Incremental.NumPairsAsWritten | IncrementalMinimization/src/minimization/incremental/IncrementalMinimization.java:202 | `num_pairs` as written: a value in Java's `int` range, equal to the square of the state count whenever that square fits. |
| Incremental.NumPairsAsWrittenOverflows | IncrementalMinimization/src/minimization/incremental/IncrementalMinimization.java:202-203 | With 46341 states that square wraps to -2147479015 and the HashSet constructor throws. |
| Incremental.NumPairs | IncrementalMinimization/src/minimization/incremental/IncrementalMinimization.java:202 | The corrected capacity: the square of the state count, capped at `Integer.MAX_VALUE`. |
| Incremental.NumPairsAccepted | IncrementalMinimization/src/minimization/incremental/IncrementalMinimization.java:202-203 | The capped capacity is always accepted, and equals the one as written whenever the square fits in `int`. |
| Incremental.IncrementalMinimization.constructor | IncrementalMinimization/src/minimization/incremental/IncrementalMinimization.java:193-208 | The minimiser keeps the automaton, starts with an empty cache and the corrected capacity, and computes the distance map once, with its entry order (every state once, distances never decreasing). |
| Incremental.IncrementalMinimization.IsKnownNotEqual | IncrementalMinimization/src/minimization/incremental/IncrementalMinimization.java:287-303 | The answer is true exactly when the cache holds the normalised pair or the two distances differ; in the second case the pair is added to the cache. A sound cache stays sound, and `true` then means inequivalent. |
| Incremental.IncrementalMinimization.MakeEquivTest | IncrementalMinimization/src/minimization/incremental/IncrementalMinimization.java:266-271 | A new iterative test over the current classes, with empty pair sets. |
| Incremental.IncrementalMinimization.Minimize | IncrementalMinimization/src/minimization/incremental/IncrementalMinimization.java:352-435 | The result always accepts the input's language, along the first matching move and along any run, so also a budget-stopped result that may be nondeterministic; an automaton flagged empty gives the library's empty automaton. Otherwise the result is the quotient by a sound partition. When the budget was not exhausted the partition is also complete, so no two result states are equivalent, and the result is deterministic: two moves of one state that share a symbol enter the same state. |
| Incremental.IncrementalMinimization.ScanPairs | IncrementalMinimization/src/minimization/incremental/IncrementalMinimization.java:375-432 | Unless the clock ran out, both scan loops settle every pair `(p, q)` with `q` after `p`; the partition and the cache stay sound. |
| Incremental.IncrementalMinimization.ScanRow | IncrementalMinimization/src/minimization/incremental/IncrementalMinimization.java:377-431 | The inner loop settles the row of `p`; the `break` for a smaller distance is never taken on pairs in scan order. |
| Incremental.IncrementalMinimization.PairDistances | IncrementalMinimization/src/minimization/incremental/IncrementalMinimization.java:379-389 | The comparator puts `q` after `p` exactly when `q` follows in scan order, and a state that does not follow is never farther from a final state. |
| Incremental.IncrementalMinimization.SettlePair | IncrementalMinimization/src/minimization/incremental/IncrementalMinimization.java:390-430 | A pair known inequivalent or in one class is settled at once; otherwise the clock is read and, unless time ran out, the pair is tested and settled. |
| Incremental.IncrementalMinimization.TestPair | IncrementalMinimization/src/minimization/incremental/IncrementalMinimization.java:401-430 | A fresh test: on `true` the assumed pairs' classes are merged, on `false` the path joins the cache; the pair is settled unless time ran out. |
| Incremental.IncrementalMinimization.MergeTested | IncrementalMinimization/src/minimization/incremental/IncrementalMinimization.java:405-421 | After a successful test the assumed pairs are closed, hence equivalent, and merging their classes keeps the partition sound and settles the tested pair. |
| Incremental.EquivTest.IsEquiv | IncrementalMinimization/src/minimization/incremental/IncrementalMinimization.java:81-143 | On `true` the start pair is assumed and every newly assumed pair is closed up to the assumed pairs and the initial path, so with an empty initial path it is equivalent. On `false` the path holds the start pair, and beyond the initial path its pairs are inequivalent. The cache only grows and stays sound. |
| Incremental.EquivTest.constructor | IncrementalMinimization/src/minimization/incremental/IncrementalMinimization.java:53-60 | A test holds the classes and the two pair sets it is given. |
| Incremental.EquivTest.Search | IncrementalMinimization/src/minimization/incremental/IncrementalMinimization.java:81-143 | The work of isEquiv: the classes are unchanged, and the answer and new pair sets meet what isEquiv promises. |
| Incremental.EquivTest.SearchFrom | IncrementalMinimization/src/minimization/incremental/IncrementalMinimization.java:88-143 | The same once the start pair is not known inequivalent. |
| Incremental.EquivTest.ExamineStack | IncrementalMinimization/src/minimization/incremental/IncrementalMinimization.java:90-140 | The stack loop: on failure the failing record's path holds the start pair and, under a sound partition and cache, its pairs beyond the initial path are inequivalent. On success every pair assumed on the way is finished and closed. |
| Incremental.EquivTest.ExamineRecord | IncrementalMinimization/src/minimization/incremental/IncrementalMinimization.java:92-139 | One popped record: a failure shows the record's states inequivalent; otherwise the record is closed up to the pairs then assumed, and the records pushed are well formed. |
| Incremental.EquivTest.WalkRecord | IncrementalMinimization/src/minimization/incremental/IncrementalMinimization.java:105-139 | The inner walk over the two move lists gives the same outcome as one record. |
| Incremental.EquivTest.HandleMeeting | IncrementalMinimization/src/minimization/incremental/IncrementalMinimization.java:107-138 | A meeting into a known-inequivalent pair fails the record. Otherwise the walk invariant holds of the split lists, whose cover strictly shrinks, and a new pair of classes is assumed and pushed. |
| Incremental.EquivTest.CompareSuccessors | IncrementalMinimization/src/minimization/incremental/IncrementalMinimization.java:110-118 | The successor classes come from `find`; the pair counts as known inequivalent exactly when the classes differ, the pair is not assumed, and the cache or the distances say so. Only then does the cache grow. |
| Incremental.FindClasses | IncrementalMinimization/src/minimization/incremental/IncrementalMinimization.java:110-111 | The two `find` calls return the identifiers of the classes of `x` and `y` and change no class. |
| Incremental.MakeClasses | IncrementalMinimization/src/minimization/incremental/IncrementalMinimization.java:370-374 | The `make` loop puts each state in a class of its own. |
| Incremental.MeetingFails | IncrementalMinimization/src/minimization/incremental/IncrementalMinimization.java:115-118 | A meeting into a known-inequivalent pair shows, under a sound partition and cache, that the record's states are inequivalent. |
| Incremental.MeetingKept | IncrementalMinimization/src/minimization/incremental/IncrementalMinimization.java:119-138 | A meeting that does not fail keeps the walk invariant on the split lists and shrinks the cover. |
| Incremental.MeetingAssumed | IncrementalMinimization/src/minimization/incremental/IncrementalMinimization.java:120-125 | A new pair of classes is assumed and its record, whose path extends the current one, is pushed. |
| Incremental.KnownOutcome | IncrementalMinimization/src/minimization/incremental/IncrementalMinimization.java:83-86 | A start pair known inequivalent fails the test, with nothing assumed and the path unchanged. |
| Incremental.FailedOutcome | IncrementalMinimization/src/minimization/incremental/IncrementalMinimization.java:115-118 | A failed stack loop keeps what isEquiv promises on `false`. |
| Incremental.ClosedOutcome | IncrementalMinimization/src/minimization/incremental/IncrementalMinimization.java:141-142 | A successful stack loop keeps what isEquiv promises on `true`. |
| Incremental.PairDone | IncrementalMinimization/src/minimization/incremental/IncrementalMinimization.java:90-140 | One round of the stack loop keeps its invariant, and the measure of unassumed pairs drops whenever pairs were assumed. |
| Incremental.FailedRecord | IncrementalMinimization/src/minimization/incremental/IncrementalMinimization.java:115-118 | The path of a failed record holds the start pair, and under a sound partition and cache its pairs beyond the initial path are inequivalent. |
| Merging.MergeClasses | IncrementalMinimization/src/minimization/incremental/IncrementalMinimization.java:305-326 | `mergeSFAStates` builds the quotient automaton of the partition, with the emptiness flag of the source automaton and the classes unchanged. |
| Merging.AddClassMoves | IncrementalMinimization/src/minimization/incremental/IncrementalMinimization.java:314-321 | The inner loop adds the image of every move of the class, and every move added is an image of a source move. |
| Merging.CoveredStep | IncrementalMinimization/src/minimization/incremental/IncrementalMinimization.java:312-322 | Once a class is processed, every source move that leaves it has its image in the result. |
| Merging.OriginsGiveSources | IncrementalMinimization/src/minimization/incremental/IncrementalMinimization.java:316 | Every move of the result is the image of some source move. |
| FirstVersion.Key | IncrementalMinimization/src/Main.java:63 | The key of a call is the pair in one of its two orders: argument order as written, ascending identifiers when corrected. |
| FirstVersion.TestOutcome | IncrementalMinimization/src/Main.java:61-111 | The corrected test never throws when the setting is proper and the cache holds the seed. From an empty path, `true` leaves every assumed pair closed (so equivalent) and `false` leaves every path pair inequivalent. |
| FirstVersion.Test | IncrementalMinimization/src/Main.java:61-111 | isEquiv of the first version as a function, with the lookup as written or corrected: the assumed pairs only grow. |
| FirstVersion.WalkMoves | IncrementalMinimization/src/Main.java:75-108 | The same for the walk over the move lists. |
| FirstVersion.MeetMoves | IncrementalMinimization/src/Main.java:80-95 | The same for one meeting. |
| FirstVersion.WalkOutcome | IncrementalMinimization/src/Main.java:75-108 | The walk over the moves of a pair, started in its invariant, ends as the test promises. |
| FirstVersion.WalkDone | IncrementalMinimization/src/Main.java:109-110 | Once a list runs out, the pair is closed, and assuming it finishes the call with `true`. |
| FirstVersion.WalkStepOutcome | IncrementalMinimization/src/Main.java:76-107 | Each walk step handles its meeting, then either fails the walk or keeps the invariant. |
| FirstVersion.WalkFailed | IncrementalMinimization/src/Main.java:84-95 | A walk that failed at a meeting shows the call's pair inequivalent under a sound partition and cache. |
| FirstVersion.MeetOutcome | IncrementalMinimization/src/Main.java:80-95 | A meeting never throws, and its recursive call, if any, answers as the test promises. |
| FirstVersion.ChildOutcome | IncrementalMinimization/src/Main.java:84-95 | The recursive call on the successor classes answers as the test promises. |
| FirstVersion.ChildClosedById | IncrementalMinimization/src/Main.java:84-95 | A recursive call that returned `true` handles its meeting, and the walk invariant survives the pairs then assumed. |
| FirstVersion.ChildPairsClosedById | IncrementalMinimization/src/Main.java:84-95 | The pairs assumed during a recursive call that returned `true` are closed, together with the pairs assumed before it. |
| FirstVersion.ClosedJoinById | IncrementalMinimization/src/Main.java:109-110 | A closed pair whose states agree on finality joins a set of closed pairs, whichever order it is stored in. |
| FirstVersion.PathRestored | IncrementalMinimization/src/Main.java:91-93 | Taking a finished pair off the path keeps the path in step with the calls in progress. |
| FirstVersion.Witness | IncrementalMinimization/src/Main.java:61-111 | The witness automaton is well formed: its initial state 4 and its final state 3 are states. |
| FirstVersion.WitnessReached | IncrementalMinimization/src/Main.java:73-74 | From the initial state 4 the witness moves to 0 on symbol 0 and to 1 on symbol 1, so the two tested states are reachable. |
| FirstVersion.WitnessSeed | IncrementalMinimization/src/Main.java:152-158 | The seeded cache of the witness pairs its final state 3 with each of the four other states. |
| FirstVersion.LookupAsWritten | IncrementalMinimization/src/Main.java:63-72 | With the lookup as written, the test of 0 and 1 from the seeded cache answers `true` and assumes (0, 1) and (2, 3). |
| FirstVersion.LookupCorrected | IncrementalMinimization/src/Main.java:63-72 | With the identifier-ordered lookup, the same test answers `false`. |
| FirstVersion.WitnessApart | IncrementalMinimization/src/Main.java:61-111 | 0 and 1 are inequivalent, and so are 2 and 3. |
| FirstVersion.LookupInArgumentOrder | IncrementalMinimization/src/Main.java:63-72 | As written, the lookup in argument order misses the seeded pair (2, 3) when the call is on (3, 2). On the witness, whose initial state reaches 0 and 1, the test of 0 and 1 therefore answers `true` and assumes (0, 1) and (2, 3), although both pairs are inequivalent. The corrected test answers `false`. |
| FirstVersion.EquivTest.constructor | IncrementalMinimization/src/Main.java:32-41 | A test holds the automaton, the classes, the cache and the two pair sets it is given. |
| FirstVersion.EquivTest.IsEquiv | IncrementalMinimization/src/Main.java:61-111 | isEquiv runs as the corrected test describes. It changes no class, and its answer and pair sets meet what the test promises. |
| FirstVersion.EquivTest.IsEquivFrom | IncrementalMinimization/src/Main.java:61-111 | The body of isEquiv for given pair sets agrees with the test function. |
| FirstVersion.EquivTest.Explore | IncrementalMinimization/src/Main.java:75-108 | The loop over the two move lists agrees with the walk function. |
| FirstVersion.EquivTest.Meet | IncrementalMinimization/src/Main.java:84-95 | One meeting agrees with the meeting function. |
| FirstVersion.IncrementalMinimize | IncrementalMinimization/src/Main.java:138-221 | The result always accepts the input's language; an automaton flagged empty gives the empty automaton. Otherwise the result is the quotient by a sound and complete partition: no two of its states are equivalent, and two moves of one state that share a symbol enter the same state. |
| FirstVersion.ScanPairs | IncrementalMinimization/src/Main.java:160-200 | Both scan loops settle every pair `(p, q)` with `p < q` by identifier. |
| FirstVersion.ScanRow | IncrementalMinimization/src/Main.java:161-199 | The row of `p` is settled; a `q` that is not greater is skipped. |
| FirstVersion.SettlePair | IncrementalMinimization/src/Main.java:165-198 | A pair in the cache or in one class is settled at once; otherwise it is tested. |
| FirstVersion.TestPair | IncrementalMinimization/src/Main.java:180-198 | A test on fresh pair sets merges the assumed classes on `true`, adds the path to the cache on `false`, and settles the pair. |
| FirstVersion.MergeTested | IncrementalMinimization/src/Main.java:182-190 | After a successful test the assumed pairs are equivalent; merging their classes keeps the partition sound and settles the pair. |
| FirstVersion.FlatOrder | IncrementalMinimization/src/Main.java:161-166 | With all distances equal, one state precedes another exactly when its identifier is smaller. |
| Recursive.RecTestOutcome | IncrementalMinimization/src/minimization/incremental/IncrementalRecursive.java:31-78 | In a proper context the recursive test never throws. On `true` the pair was on the path or is assumed with every new pair closed. On `false` the path grows by the failing pairs, which under a sound partition and cache are inequivalent beyond the initial path. |
| Recursive.WalkOutcome | IncrementalMinimization/src/minimization/incremental/IncrementalRecursive.java:45-74 | The walk over the moves of a pair, started in its invariant, ends as isEquivRecursive promises. |
| Recursive.WalkStepOutcome | IncrementalMinimization/src/minimization/incremental/IncrementalRecursive.java:46-73 | Each step handles its meeting, then either fails the walk or keeps its invariant. |
| Recursive.MeetOutcome | IncrementalMinimization/src/minimization/incremental/IncrementalRecursive.java:50-61 | A meeting never throws, and its recursive call, if any, answers as promised. |
| Recursive.ChildOutcome | IncrementalMinimization/src/minimization/incremental/IncrementalRecursive.java:54-61 | The recursive call on a new pair of successor classes answers as promised. |
| Recursive.ExploreStart | IncrementalMinimization/src/minimization/incremental/IncrementalRecursive.java:43-44 | The walk starts in its invariant, having handled nothing and assumed nothing new. |
| Recursive.ChildClosed | IncrementalMinimization/src/minimization/incremental/IncrementalRecursive.java:54-61 | A child call that returned `true` handles the meeting, and the walk invariant holds with the pairs then assumed. |
| Recursive.ExploreDone | IncrementalMinimization/src/minimization/incremental/IncrementalRecursive.java:75-77 | A walk that ran out of moves closes the pair, and assuming it ends the call with `true`. |
| Recursive.ExploreFailed | IncrementalMinimization/src/minimization/incremental/IncrementalRecursive.java:54-61 | A failed walk leaves the pair on the path, and under soundness shows it inequivalent. |
| Recursive.ChildAnswered | IncrementalMinimization/src/minimization/incremental/IncrementalRecursive.java:54-61 | `true` from the child handles the meeting; `false` under soundness shows the parent pair inequivalent. |
| Recursive.MeetKept | IncrementalMinimization/src/minimization/incremental/IncrementalRecursive.java:50-53 | A meeting whose classes coincide or are already assumed is handled. |
| Recursive.RecursiveMeetsDriver | IncrementalMinimization/src/minimization/incremental/IncrementalRecursive.java:81-85 | From an empty initial path, the recursive test's outcome is the one the driver relies on from isEquiv. |
| Recursive.RecTest | IncrementalMinimization/src/minimization/incremental/IncrementalRecursive.java:31-78 | isEquivRecursive as a function: the assumed pairs only grow. |
| Recursive.WalkFn | IncrementalMinimization/src/minimization/incremental/IncrementalRecursive.java:45-74 | The same for the walk over the move lists. |
| Recursive.MeetFn | IncrementalMinimization/src/minimization/incremental/IncrementalRecursive.java:50-61 | The same for one meeting. |
| Recursive.FindNextClasses | IncrementalMinimization/src/minimization/incremental/IncrementalRecursive.java:50-52 | The two `find` calls return the classes of `x` and `y`; a state outside the partition gives the exception. |
| Recursive.OneFewerOutside | IncrementalMinimization/src/minimization/incremental/IncrementalRecursive.java:57 | Assuming a new pair of states leaves fewer pairs unassumed: the measure that bounds the recursion. |
| Recursive.EquivTestRecursive.IsEquiv | IncrementalMinimization/src/minimization/incremental/IncrementalRecursive.java:81-85 | isEquiv starts the recursive test from the start pair, never throws, and keeps RecOutcome. |
| Recursive.EquivTestRecursive.constructor | IncrementalMinimization/src/minimization/incremental/IncrementalRecursive.java:25-29 | A recursive test holds the classes and the two pair sets it is given. |
| Recursive.EquivTestRecursive.IsEquivRecursive | IncrementalMinimization/src/minimization/incremental/IncrementalRecursive.java:31-78 | The method agrees with the recursive test function. |
| Recursive.EquivTestRecursive.Explore | IncrementalMinimization/src/minimization/incremental/IncrementalRecursive.java:45-74 | The loop agrees with the walk function. |
| Recursive.EquivTestRecursive.Meet | IncrementalMinimization/src/minimization/incremental/IncrementalRecursive.java:50-61 | One meeting agrees with the meeting function. |
| Recursive.MakeRecursiveTest | IncrementalMinimization/src/minimization/incremental/IncrementalRecursive.java:94-99 | The factory gives a new recursive test over the current classes, with empty pair sets. |
| OlderRecursive.OldRecSim | IncrementalMinimization/src/IncrementalMinimization.java:192-242 | The older recursive test gives the same answer, cache and assumed pairs as the newer one. Its path differs only on pairs that are assumed, or the tested pair after a success. |
| OlderRecursive.OldWalkSim | IncrementalMinimization/src/IncrementalMinimization.java:206-239 | The same for the walk over the move lists. |
| OlderRecursive.OldMeetSim | IncrementalMinimization/src/IncrementalMinimization.java:215-226 | The same for one meeting. |
| OlderRecursive.OldRecOutcome | IncrementalMinimization/src/IncrementalMinimization.java:192-242 | From an empty path, in a proper context, the older test never throws, and keeps what the driver needs. |
| OlderRecursive.OldRecAnswers | IncrementalMinimization/src/IncrementalMinimization.java:192-242 | The older test never throws from any path. |
| OlderRecursive.OldRec | IncrementalMinimization/src/IncrementalMinimization.java:192-241 | The older recursive test as a function: the assumed pairs only grow. |
| OlderRecursive.OldWalk | IncrementalMinimization/src/IncrementalMinimization.java:206-239 | The same for the walk over the move lists. |
| OlderRecursive.OldMeet | IncrementalMinimization/src/IncrementalMinimization.java:209-226 | The same for one meeting. |
| OlderRecursive.OlderEquivTestRecursive.IsEquiv | IncrementalMinimization/src/IncrementalMinimization.java:192-242 | isEquiv agrees with the older test function and, from an empty path, keeps the older outcome. |
| OlderRecursive.OlderEquivTestRecursive.constructor | IncrementalMinimization/src/IncrementalMinimization.java:185-189 | An older recursive test holds the classes and the two pair sets it is given. |
| OlderRecursive.OlderEquivTestRecursive.Descend | IncrementalMinimization/src/IncrementalMinimization.java:192-242 | The recursive method agrees with the older test function. |
| OlderRecursive.OlderEquivTestRecursive.Explore | IncrementalMinimization/src/IncrementalMinimization.java:206-239 | The loop agrees with the older walk function. |
| OlderRecursive.OlderEquivTestRecursive.Meet | IncrementalMinimization/src/IncrementalMinimization.java:215-226 | One meeting agrees with the older meeting function. |
| RecWithDeps.RecTestPlain | IncrementalMinimization/src/minimization/incremental/IncrementalRecWithDeps.java:34-85 | Recording dependencies changes neither the answer, nor the cache, nor the pair sets: the test runs exactly as the recursive one. |
| RecWithDeps.WalkPlain | IncrementalMinimization/src/minimization/incremental/IncrementalRecWithDeps.java:45-81 | The same for the walk. |
| RecWithDeps.MeetPlain | IncrementalMinimization/src/minimization/incremental/IncrementalRecWithDeps.java:57-68 | The same for one meeting. |
| RecWithDeps.EquivTestRecWithDeps.constructor | IncrementalMinimization/src/minimization/incremental/IncrementalRecWithDeps.java:27-32 | A test with an empty dependency graph. |
| RecWithDeps.EquivTestRecWithDeps.IsEquiv | IncrementalMinimization/src/minimization/incremental/IncrementalRecWithDeps.java:88-100 | The answer and pair sets are those of the recursive test over the classes before the call, so RecOutcome holds. `true` merges nothing and `false` only joins classes. When the partition is sound and every tested node of the graph off the path is closed, as in the fresh graph of each test, the merge keeps the partition sound (with the recording corrected, see Findings). |
| RecWithDeps.EquivTestRecWithDeps.Test | IncrementalMinimization/src/minimization/incremental/IncrementalRecWithDeps.java:88-90 | The recursive test from the start pair, keeping RecOutcome. |
| RecWithDeps.EquivTestRecWithDeps.MergeFailed | IncrementalMinimization/src/minimization/incremental/IncrementalRecWithDeps.java:91-98 | `deps.mergeStates(equivClasses, path)` after a failed test: `mergePair` from tested nodes off the failing path, each at most once and each joining exactly the pairs its walk collects. When every node's states are registered, every such node is taken. |
| RecWithDeps.EquivTestRecWithDeps.IsEquivRecursive | IncrementalMinimization/src/minimization/incremental/IncrementalRecWithDeps.java:34-85 | The method agrees with the test function that tracks dependencies. |
| RecWithDeps.EquivTestRecWithDeps.Explore | IncrementalMinimization/src/minimization/incremental/IncrementalRecWithDeps.java:45-81 | The loop over the two move lists agrees with the walk function that tracks dependencies. |
| RecWithDeps.EquivTestRecWithDeps.Meet | IncrementalMinimization/src/minimization/incremental/IncrementalRecWithDeps.java:50-68 | One meeting agrees with the meeting function that tracks dependencies. |
| RecWithDeps.RecTestD | IncrementalMinimization/src/minimization/incremental/IncrementalRecWithDeps.java:34-85 | The test with the dependency graph, with the recording as written or corrected: the assumed pairs only grow and the graph stays over pairs of states. |
| RecWithDeps.WalkD | IncrementalMinimization/src/minimization/incremental/IncrementalRecWithDeps.java:45-81 | The same for the walk. |
| RecWithDeps.MeetD | IncrementalMinimization/src/minimization/incremental/IncrementalRecWithDeps.java:50-68 | The same for one meeting. |
| RecWithDeps.RecTestDClosed | IncrementalMinimization/src/minimization/incremental/IncrementalRecWithDeps.java:34-85 | With the corrected recording, the graph a test leaves has every tested node off its path closed when the graph it started from had, and no recorded edge is lost; on `true` the path is as before. |
| RecWithDeps.EquivTestRecWithDeps.RecordMeeting | IncrementalMinimization/src/minimization/incremental/IncrementalRecWithDeps.java:57-60 | The corrected rule: the dependency edge from `pair` to the pair of successor classes is recorded exactly when that pair is already assumed or on the path, or the two classes differ; otherwise the graph is unchanged. As written, the source records only a pair already assumed or on the path; see Findings. |
| RecWithDeps.MakeRecWithDepsTest | IncrementalMinimization/src/minimization/incremental/IncrementalRecWithDeps.java:109-114 | The factory gives a new test over the current classes, with empty pair sets and an empty graph. |
| RecWithDeps.WitnessMergeUnsound | IncrementalMinimization/src/minimization/incremental/IncrementalRecWithDeps.java:57-68 | As written, the failed test of 1 and 2 on the witness leaves a graph whose merge joins 3 and 4, although they are inequivalent. |
| DependencyGraphs.Recorded | IncrementalMinimization/src/structures/DependencyGraph.java:98-127 | `addDependency`: a pair never depends on itself. Otherwise the pair becomes a tested node with the dependency appended, a missing dependency gets an untested node, and every other node is unchanged. |
| DependencyGraphs.RecordedAll | IncrementalMinimization/src/structures/DependencyGraph.java:129-135 | `addAllDependencies` appends every entry other than the pair itself and leaves the other nodes' dependencies alone. |
| DependencyGraphs.Explored | IncrementalMinimization/src/structures/DependencyGraph.java:144-158 | The queue walk of `mergePair` returns nodes that are tested, off the bad path and registered, with every queued dependency collected or already merged. It gives up only when it meets an untested or bad node; an unregistered state gives the exception. |
| DependencyGraphs.DependencyGraph.constructor | IncrementalMinimization/src/structures/DependencyGraph.java:93-96 | A new graph is empty. |
| DependencyGraphs.DependencyGraph.AddDependency | IncrementalMinimization/src/structures/DependencyGraph.java:98-127 | The graph becomes the recorded graph. |
| DependencyGraphs.DependencyGraph.AddAllDependencies | IncrementalMinimization/src/structures/DependencyGraph.java:129-135 | The graph becomes the graph with every entry recorded. |
| DependencyGraphs.DependencyGraph.MergePair | IncrementalMinimization/src/structures/DependencyGraph.java:137-164 | `mergePair` changes only the classes. When the walk from the node's dependencies gives up at an untested or bad node, nothing is merged and the result is 0; when it meets a state outside the partition, it throws and nothing is merged. When it succeeds, the new partition is the old one with exactly the collected pairs joined, so no other states are put together, and the result is their number. |
| DependencyGraphs.DependencyGraph.MergeStates | IncrementalMinimization/src/structures/DependencyGraph.java:166-185 | `mergeStates` calls `mergePair` only from tested nodes off the bad path, each at most once, and each call moves the partition as `mergePair` prescribes, with its count recorded. Without an exception every such node is taken and the result is the sum of the counts added in Java's `int`. When the states of every node are registered, nothing throws. |
| DependencyGraphs.DependencyGraph.CollectDeps | IncrementalMinimization/src/structures/DependencyGraph.java:144-158 | The queue loop agrees with the walk function. |
| DependencyGraphs.DependencyGraph.UnionAll | IncrementalMinimization/src/structures/DependencyGraph.java:159-162 | The union loop leaves the old partition with exactly the pairs of the set joined: they share a class, and every partition that coarsens the old one and joins them also coarsens the result. |
| DependencyGraphs.DependencyGraph.JoinPair | IncrementalMinimization/src/structures/DependencyGraph.java:159-162 | One `union` of the loop: the partition that joined exactly the pairs done so far now joins exactly those and the new pair. |
| DependencyGraphs.DependencyGraph.MergeNode | IncrementalMinimization/src/structures/DependencyGraph.java:169-183 | One `mergePair` call of the loop of `mergeStates`: unless it throws, the node is added to the calls made, its count to the counts and the running total is the `int` sum; when it throws, nothing changes and some node has a state outside the partition. |
| DependencyGraphs.IntSum | IncrementalMinimization/src/structures/DependencyGraph.java:181 | `result +=` in Java's `int`: the total stays in `int` range, differs from the exact sum by a multiple of 2^32, and is the exact sum whenever that fits. |
| DependencyGraphs.JoinOfUnion | IncrementalMinimization/src/DisjointSets.java:70-101 | A `union` of the classes of two states joins exactly that pair. |
| DependencyGraphs.JoinOfPair | IncrementalMinimization/src/DisjointSets.java:70-101 | After joining exactly one pair, two states share a class exactly when they did before or they are linked to the two states of the pair. |
| DependencyGraphs.ExploreFailsUnregistered | IncrementalMinimization/src/structures/DependencyGraph.java:144-158 | The walk of `mergePair` throws only when some node of the graph has a state outside the partition. |
| DependencyGraphs.MergeRunKeepsSound | IncrementalMinimization/src/structures/DependencyGraph.java:166-185 | When every tested node off the bad path was closed under a sound partition, the calls of `mergeStates` keep the partition sound. |
| DependencyGraphs.ExploredSound | IncrementalMinimization/src/structures/DependencyGraph.java:144-158 | Under the same hypothesis every pair the walk of `mergePair` collects holds equivalent states. |
| DependencyGraphs.JoinOfStep | IncrementalMinimization/src/structures/DependencyGraph.java:159-162 | Joining exactly one set of pairs and then exactly another joins exactly their union. |
| DependencyGraphs.MergeLoopEnd | IncrementalMinimization/src/structures/DependencyGraph.java:166-185 | Whatever part of the loop of `mergeStates` has run is a run of distinct calls from tested nodes off the bad path; when every node has been visited, every such node was called and the result is the `int` sum of the counts. |
| DependencyGraphs.MergeRunSound | IncrementalMinimization/src/structures/DependencyGraph.java:166-185 | When every tested node off the bad path was closed under a sound partition, a run of `mergePair` calls only ever puts equivalent states in one class. |
| DependencyGraphs.UnionStep | IncrementalMinimization/src/structures/DependencyGraph.java:159-162 | One `union` coarsens the partition and joins its pair. |
| DependencyGraphs.CoarsensTransitive | IncrementalMinimization/src/structures/DependencyGraph.java:159-162 | Coarsening composes. |
| DependencyGraphs.JoinsAllCoarsens | IncrementalMinimization/src/structures/DependencyGraph.java:166-185 | A later coarsening keeps joined pairs joined. |
| DependencyChecks.Reached | IncrementalMinimization/src/minimization/incremental/IncrWithDependencyChecks.java:215-234 | The queue walk of this variant: when it succeeds, the nodes it takes extend the seen ones well and hold the whole queue. When it gives up, some node is untested or on the bad path. |
| DependencyChecks.ReachedComplete | IncrementalMinimization/src/minimization/incremental/IncrWithDependencyChecks.java:215-234 | The walk gives up only when it must: if some good extension holds the queue, the walk succeeds. |
| DependencyChecks.Mergeable | IncrementalMinimization/src/minimization/incremental/IncrWithDependencyChecks.java:239-256 | The mergeable nodes are tested graph nodes off the bad path. |
| DependencyChecks.Dependencies.constructor | IncrementalMinimization/src/minimization/incremental/IncrWithDependencyChecks.java:109-112 | A new dependency graph is empty. |
| DependencyChecks.Dependencies.AddDependency | IncrementalMinimization/src/minimization/incremental/IncrWithDependencyChecks.java:114-142 | Records the edge exactly as `DependencyGraph.addDependency` does. |
| DependencyChecks.Dependencies.AddAllDependencies | IncrementalMinimization/src/minimization/incremental/IncrWithDependencyChecks.java:200-206 | Records every entry in turn. |
| DependencyChecks.Dependencies.WalkDependencies | IncrementalMinimization/src/minimization/incremental/IncrWithDependencyChecks.java:215-234 | The queue loop runs to the end exactly when the walk function succeeds. |
| DependencyChecks.Dependencies.MergePair | IncrementalMinimization/src/minimization/incremental/IncrWithDependencyChecks.java:208-237 | After a walk that gives up, nothing changes. After a complete walk, the new partition is the old one with exactly the node's own two states joined; or, for a state outside the partition, `union` throws IllegalArgument and nothing changes. |
| DependencyChecks.Dependencies.MergeStates | IncrementalMinimization/src/minimization/incremental/IncrWithDependencyChecks.java:239-256 | Merging only joins classes and never throws when every node is registered. Then the new partition is the old one with exactly the pairs of the mergeable nodes joined. |
| DependencyChecks.Dependencies.MergeNode | IncrementalMinimization/src/minimization/incremental/IncrWithDependencyChecks.java:241-254 | One round of the loop of `mergeStates`: unless `union` throws, which needs a state outside the partition, the partition becomes the one with exactly the mergeable nodes taken so far joined. |
| DependencyChecks.MergeableSound | IncrementalMinimization/src/minimization/incremental/IncrWithDependencyChecks.java:239-256 | When every tested node off the bad path was closed under a sound partition, every mergeable node holds equivalent states. |
| DependencyChecks.DepTestOutcome | IncrementalMinimization/src/minimization/incremental/IncrWithDependencyChecks.java:269-339 | In a proper context the test never throws, and it keeps what isEquiv promises: the cache and assumed pairs only grow, and the path is kept on `true` and only grows on `false`. The graph stays over pairs of states. |
| DependencyChecks.DepStackOutcome | IncrementalMinimization/src/minimization/incremental/IncrWithDependencyChecks.java:278-336 | The stack loop keeps its progress invariant and, on success, leaves the path as it was. |
| DependencyChecks.DepWalkOutcome | IncrementalMinimization/src/minimization/incremental/IncrWithDependencyChecks.java:290-334 | The walk of one record keeps the progress invariant. |
| DependencyChecks.DepMeetOutcome | IncrementalMinimization/src/minimization/incremental/IncrWithDependencyChecks.java:300-321 | One meeting keeps the progress invariant. |
| DependencyChecks.KnownMeetOutcome | IncrementalMinimization/src/minimization/incremental/IncrWithDependencyChecks.java:300-307 | A meeting into a known-inequivalent pair keeps the progress invariant. |
| DependencyChecks.PushMeetOutcome | IncrementalMinimization/src/minimization/incremental/IncrWithDependencyChecks.java:308-316 | A meeting that pushes a new record keeps the progress invariant. |
| DependencyChecks.FailedMeeting | IncrementalMinimization/src/minimization/incremental/IncrWithDependencyChecks.java:300-307 | The failing path holds the start pair, and under soundness its new pairs are inequivalent. |
| DependencyChecks.DepTest | IncrementalMinimization/src/minimization/incremental/IncrWithDependencyChecks.java:269-339 | The test as a function, with the recording as written or corrected: the cache and the assumed pairs only grow, and the graph stays over pairs of states. |
| DependencyChecks.DepStack | IncrementalMinimization/src/minimization/incremental/IncrWithDependencyChecks.java:278-336 | The stack loop as a function: the cache and the assumed pairs only grow, and the graph stays over pairs of states. |
| DependencyChecks.DepWalk | IncrementalMinimization/src/minimization/incremental/IncrWithDependencyChecks.java:290-334 | The walk over one record's moves: the cache and the assumed pairs only grow, a record is pushed only together with a newly assumed pair, and the graph stays over pairs of states. |
| DependencyChecks.DepMeet | IncrementalMinimization/src/minimization/incremental/IncrWithDependencyChecks.java:295-321 | One meeting, with the same guarantees as the walk. |
| DependencyChecks.DepTestClosed | IncrementalMinimization/src/minimization/incremental/IncrWithDependencyChecks.java:298-321 | With the corrected recording, a test started from a graph whose tested nodes are all closed leaves every tested node closed except those on the failing path. |
| DependencyChecks.FailedMergeSound | IncrementalMinimization/src/minimization/incremental/IncrWithDependencyChecks.java:300-306 | With the corrected recording, the merge after a failed test keeps a sound partition sound. |
| DependencyChecks.EquivTestDependency.constructor | IncrementalMinimization/src/minimization/incremental/IncrWithDependencyChecks.java:261-266 | A test with an empty dependency graph. |
| DependencyChecks.EquivTestDependency.IsEquiv | IncrementalMinimization/src/minimization/incremental/IncrWithDependencyChecks.java:269-339 | isEquiv never throws and runs as the test function with the corrected recording describes (see Findings). A start pair known inequivalent, or a successful test, leaves the classes alone. After a failed stack loop, the new partition is the old one with exactly the mergeable nodes off the failing path joined. When the partition is sound and every tested node of the graph is closed, as in the fresh graph of each test, the merged partition is sound. |
| DependencyChecks.EquivTestDependency.Unknown | IncrementalMinimization/src/minimization/incremental/IncrWithDependencyChecks.java:276-339 | For a start pair not known inequivalent: the stack loop as the test function describes, then, on failure, exactly the mergeable nodes off the path joined, keeping a sound partition sound. |
| DependencyChecks.EquivTestDependency.Tested | IncrementalMinimization/src/minimization/incremental/IncrWithDependencyChecks.java:276-336 | The stack loop agrees with the test function, and a failure is followed by the join of exactly the mergeable nodes. |
| DependencyChecks.EquivTestDependency.MergeFailed | IncrementalMinimization/src/minimization/incremental/IncrWithDependencyChecks.java:305 | `deps.mergeStates(newPath)` with every node registered: exactly the mergeable nodes off the path are joined. |
| DependencyChecks.EquivTestDependency.Known | IncrementalMinimization/src/minimization/incremental/IncrWithDependencyChecks.java:271-274 | A start pair known inequivalent ends the test with `false`. |
| DependencyChecks.EquivTestDependency.Stack | IncrementalMinimization/src/minimization/incremental/IncrWithDependencyChecks.java:278-336 | The stack loop agrees with the test function, and the merge follows a failure. |
| DependencyChecks.EquivTestDependency.ExamineStack | IncrementalMinimization/src/minimization/incremental/IncrWithDependencyChecks.java:278-336 | The stack loop agrees with the stack function. |
| DependencyChecks.EquivTestDependency.WalkRecord | IncrementalMinimization/src/minimization/incremental/IncrWithDependencyChecks.java:290-334 | The inner loop agrees with the walk function. |
| DependencyChecks.EquivTestDependency.Meet | IncrementalMinimization/src/minimization/incremental/IncrWithDependencyChecks.java:300-321 | One meeting agrees with the meeting function. |
| DependencyChecks.MakeDependencyTest | IncrementalMinimization/src/minimization/incremental/IncrWithDependencyChecks.java:348-353 | The factory gives a new test over the current classes, with empty pair sets and an empty graph. |
| DependencyChecks.CheckRun | IncrementalMinimization/src/minimization/incremental/IncrWithDependencyChecks.java:298-321 | As written, the test of 3 and 4 on the witness fails with the path {(3, 4), (1, 2), (0, 1)} and leaves the graph `CheckGraph`. |
| DependencyChecks.CheckMergeUnsound | IncrementalMinimization/src/minimization/incremental/IncrWithDependencyChecks.java:298-321 | As written, after that failed test the merge joins 5 and 6, although they are inequivalent. |
| Minterms.Leaves | IncrementalMinimization/src/MintermTree.java:60-73 | A tree has at least one leaf. |
| Minterms.Refined | IncrementalMinimization/src/MintermTree.java:41-58 | Refining leaves the predicate of the node unchanged. |
| Minterms.UnionOf | IncrementalMinimization/src/MintermTree.java:60-73 | The union contains every entry, and every symbol in it comes from some entry. |
| Minterms.LeavesPartition | IncrementalMinimization/src/MintermTree.java:41-58 | The leaves of a well-split tree are pairwise disjoint, and their union is the tree's predicate. |
| Minterms.LeavesSatisfiable | IncrementalMinimization/src/MintermTree.java:45-52 | The leaves of a well-split tree with a satisfiable predicate are satisfiable. |
| Minterms.RefineKeepsSplit | IncrementalMinimization/src/MintermTree.java:41-58 | Refinement keeps a tree well split. |
| Minterms.RefineSeparates | IncrementalMinimization/src/MintermTree.java:41-58 | After refining by `p`, each leaf lies wholly inside `p` or wholly outside it. |
| Minterms.RefineNarrows | IncrementalMinimization/src/MintermTree.java:41-58 | Each leaf after a refinement lies inside some leaf from before it. |
| Minterms.RefineKeepsSeparated | IncrementalMinimization/src/MintermTree.java:41-58 | A later refinement keeps each leaf separated by an earlier guard. |
| Minterms.RefineAllOutcome | IncrementalMinimization/src/MintermTree.java:12-20 | `Minterms.RefineAll`: Refining by several guards keeps the tree well split and its predicate unchanged, and each guard separates every leaf. |
| Minterms.MintermsPartition | IncrementalMinimization/src/MintermTree.java:12-20 | `Minterms.MintermsOf`: The minterms are pairwise disjoint, cover the universe, and each inside-or-outside every move's guard. Each is satisfiable unless the universe is empty. |
| Minterms.MintermTree.constructor | IncrementalMinimization/src/MintermTree.java:28-34 | A new tree is a single leaf holding the given predicate. |
| Minterms.MintermTree.IsLeaf | IncrementalMinimization/src/MintermTree.java:36-39 | `isLeaf` holds exactly for a leaf. |
| Minterms.MintermTree.Refine | IncrementalMinimization/src/MintermTree.java:41-58 | The in-place `refine` turns the tree into the refined tree. |
| Minterms.MintermTree.GetMinterms | IncrementalMinimization/src/MintermTree.java:60-73 | `getMinterms` returns the leaves from left to right. |
| Minterms.GenerateMinterms | IncrementalMinimization/src/MintermTree.java:12-20 | `generate_minterms` gives `True` refined by the guard of every move, in the order of `getInputMovesFrom(getStates())`. |
| Upfront.AutomatonMintermsFit | IncrementalMinimization/src/IncrementalNaive.java:88-93 | `Upfront.AutomatonMinterms`: Over a satisfiable universe the automaton's minterms cover it, are satisfiable, and each lies inside or outside every guard. |
| Upfront.MintermTransition | IncrementalMinimization/src/IncrementalNaive.java:25-39 | The result is the target of the first move leaving the state whose guard meets the minterm. It is null exactly when no such move exists. |
| Upfront.MintermStep | IncrementalMinimization/src/IncrementalNaive.java:60-79 | A move that meets a minterm holds all of it, so the automaton reads every symbol of the minterm to the same target. |
| Upfront.MintermMoveExists | IncrementalMinimization/src/IncrementalNaive.java:60-79 | With a satisfiable universe, some move leaving every state meets each minterm. |
| Upfront.MintermMoveUnique | IncrementalMinimization/src/IncrementalNaive.java:25-39 | No two moves leaving a state meet the same minterm. |
| Upfront.MintermHandled | IncrementalMinimization/src/IncrementalNaive.java:64-68 | When the successor classes coincide or are assumed, every symbol of the minterms handled so far is handled. |
| Upfront.MintermFails | IncrementalMinimization/src/IncrementalNaive.java:68-71 | A successor pair known inequivalent shows the record's states inequivalent under soundness. |
| Upfront.MintermAssumed | IncrementalMinimization/src/IncrementalNaive.java:71-77 | A new successor pair is assumed, and pushed unless it is on the path. |
| Upfront.MintermKept | IncrementalMinimization/src/IncrementalNaive.java:64-77 | A minterm that does not fail the record keeps the loop invariant. |
| Upfront.MintermsDone | IncrementalMinimization/src/IncrementalNaive.java:60-79 | With every minterm handled, the minterms cover the universe and the record is closed. |
| Upfront.UpfrontPairDone | IncrementalMinimization/src/IncrementalNaive.java:54-81 | One round of the stack loop keeps its invariant, and the measure drops whenever pairs were assumed. |
| Upfront.UpfrontMeetsDriver | IncrementalMinimization/src/IncrementalNaive.java:42-83 | From an empty initial path the upfront outcome is the one the driver relies on. |
| Upfront.UpfrontKnown | IncrementalMinimization/src/IncrementalNaive.java:44-47 | A start pair known inequivalent fails with nothing assumed. |
| Upfront.UpfrontFailedOutcome | IncrementalMinimization/src/IncrementalNaive.java:68-71 | A failed stack loop keeps what isEquiv promises on `false`. |
| Upfront.UpfrontClosedOutcome | IncrementalMinimization/src/IncrementalNaive.java:82-83 | A successful stack loop keeps what isEquiv promises on `true`. |
| Upfront.EquivTestUpfront.IsEquiv | IncrementalMinimization/src/IncrementalNaive.java:42-83 | The path is never changed. On `true` the start pair is assumed and the newly assumed pairs are closed; on `false` the pair is inequivalent or on the initial path. It fails only with `find(null)`'s exception, which a satisfiable universe rules out. A sound cache stays sound. |
| Upfront.EquivTestUpfront.constructor | IncrementalMinimization/src/IncrementalNaive.java:19-23 | A test holds the classes, the minterms and the two pair sets it is given. |
| Upfront.EquivTestUpfront.Search | IncrementalMinimization/src/IncrementalNaive.java:42-83 | The work of isEquiv: the classes are unchanged, the cache only grows and stays sound, and over a satisfiable universe the test does not throw and its outcome is the one the driver relies on. |
| Upfront.EquivTestUpfront.SearchFrom | IncrementalMinimization/src/IncrementalNaive.java:49-83 | The same once the start pair is not known inequivalent: the cache only grows and stays sound, and the outcome is the one the driver relies on. |
| Upfront.EquivTestUpfront.ExamineStack | IncrementalMinimization/src/IncrementalNaive.java:54-81 | The stack loop keeps the outcome isEquiv promises, for both answers. |
| Upfront.EquivTestUpfront.ExamineRecord | IncrementalMinimization/src/IncrementalNaive.java:60-79 | The minterm loop of one record either shows the record's states inequivalent or closes them. |
| Upfront.EquivTestUpfront.HandleMinterm | IncrementalMinimization/src/IncrementalNaive.java:61-78 | One minterm either fails the record or keeps the loop invariant. |
| Upfront.EquivTestUpfront.NextStates | IncrementalMinimization/src/IncrementalNaive.java:62-63 | The two transitions exist over a satisfiable universe, and they are the states' successors on every symbol of the minterm. |
| Upfront.IncrementalNaive.constructor | IncrementalMinimization/src/IncrementalNaive.java:88-93 | The base minimiser, with the automaton's minterms computed once. |
| Upfront.IncrementalNaive.MakeEquivTest | IncrementalMinimization/src/IncrementalNaive.java:95-100 | The factory gives a new upfront test with the minterms and empty pair sets. |
| Moore.MovesSeparate | IncrementalMinimization/src/MooreMinimization.java:69-86 | Two moves with overlapping guards into inequivalent targets leave inequivalent states. |
| Moore.RefinePair | IncrementalMinimization/src/MooreMinimization.java:58-87 | The pair of `p` and `q` joins the set when some overlapping pair of their moves leads into it, and otherwise it is stable. A sound set stays sound. |
| Moore.RefineMoves | IncrementalMinimization/src/MooreMinimization.java:72-85 | The inner move loop adds the pair exactly when some move of `q` overlaps `phi` and leads into the set. |
| Moore.RefineRow | IncrementalMinimization/src/MooreMinimization.java:57-88 | One row of a pass: `changed` holds exactly when the set grew, and an unchanged row is stable. |
| Moore.RefinePass | IncrementalMinimization/src/MooreMinimization.java:56-88 | One pass: `changed` holds exactly when the set grew, and an unchanged pass is stable everywhere. |
| Moore.Refine | IncrementalMinimization/src/MooreMinimization.java:52-89 | The fixpoint loop ends with a stable set, and a sound set stays sound. |
| Moore.StableSuccessors | IncrementalMinimization/src/MooreMinimization.java:52-89 | At the fixpoint, two unseparated states have unseparated successors. |
| Moore.StableAgree | IncrementalMinimization/src/MooreMinimization.java:52-89 | At the fixpoint, with the seed in the set, two unseparated states accept the same words. |
| Moore.NeqExact | IncrementalMinimization/src/MooreMinimization.java:44-89 | A pair is in the refined set exactly when its states are inequivalent. |
| Moore.Representatives | IncrementalMinimization/src/MooreMinimization.java:90-125 | Every state gets a representative. The representatives are exactly the states that map to themselves, and any two of them are separated. |
| Moore.AddRepresentative | IncrementalMinimization/src/MooreMinimization.java:112-124 | A state separated from every representative becomes a representative itself. |
| Moore.MapToRepresentative | IncrementalMinimization/src/MooreMinimization.java:96-111 | The state is mapped to an unseparated representative; when there is none, it is separated from all of them. |
| Moore.NewTransitions | IncrementalMinimization/src/MooreMinimization.java:127-136 | The result's moves are exactly the moves leaving the representatives, retargeted to the representatives of their targets. |
| Moore.RetargetMovesFrom | IncrementalMinimization/src/MooreMinimization.java:130-135 | The moves leaving `p`, retargeted, are appended to the result. |
| Moore.RetargetedTarget | IncrementalMinimization/src/MooreMinimization.java:127-137 | From a representative, the result moves to the representative of the original target, and has no move where the original has none. |
| Moore.RetargetedAccepts | IncrementalMinimization/src/MooreMinimization.java:127-137 | A representative accepts the same words in the result as in the original. |
| Moore.Rebuild | IncrementalMinimization/src/MooreMinimization.java:90-137 | The result is made of representatives and retargeted moves. Its initial state represents the original one, and its states are pairwise separated. |
| Moore.RetargetedMovesAgree | IncrementalMinimization/src/MooreMinimization.java:127-137 | Two retargeted moves that leave one representative and share a symbol enter the same representative: the rebuilt automaton is deterministic. |
| Moore.RebuiltLanguage | IncrementalMinimization/src/MooreMinimization.java:90-137 | Every state is equivalent to its representative, the representatives are pairwise inequivalent, and the languages agree. |
| Moore.Minimize | IncrementalMinimization/src/MooreMinimization.java:32-138 | The result always accepts the input's language; an automaton flagged empty gives the empty automaton. Otherwise no two result states are equivalent, every state maps to an equivalent representative, and two moves of one state that share a symbol enter the same state. |
| OlderDriver.IterativeFresh | IncrementalMinimization/src/IncrementalMinimization.java:98-160 | The iterative test, run with empty pair sets, gives the driver what it needs. |
| OlderDriver.OlderFresh | IncrementalMinimization/src/IncrementalMinimization.java:192-242 | The older recursive test, run with empty pair sets, gives the driver what it needs. |
| OlderDriver.OlderIncrementalMinimization.constructor | IncrementalMinimization/src/IncrementalMinimization.java:391-406 | Builds the base minimiser: an empty cache, the corrected capacity (see Findings) and the distance map. |
| OlderDriver.OlderIncrementalMinimization.SinkStateAcceptsNothing | IncrementalMinimization/src/IncrementalMinimization.java:478-481 | A state is a sink exactly when it accepts no word. |
| OlderDriver.OlderIncrementalMinimization.Minimize | IncrementalMinimization/src/IncrementalMinimization.java:548-650 | It does not throw unless the upfront test runs over an empty universe, and whenever it returns, the result accepts the input's language, along the first matching move and along any run, also when the budget stopped the run; an automaton flagged empty gives the empty automaton. Otherwise the result is the quotient by a sound partition. Unless the budget ran out, the partition is complete and two moves of one result state that share a symbol enter the same state. |
| OlderDriver.OlderIncrementalMinimization.MinimizeClasses | IncrementalMinimization/src/IncrementalMinimization.java:570-649 | The partition is built, scanned and merged. Whenever it does not throw, the result is the quotient by a sound partition and accepts the input's language along the first matching move and along any run, whether or not the budget lasted; when it lasted, the partition is complete and two moves of one result state that share a symbol enter the same state. |
| OlderDriver.OlderIncrementalMinimization.ScanPairs | IncrementalMinimization/src/IncrementalMinimization.java:575-647 | Unless the clock ran out or a test threw, both scan loops settle every pair in scan order. |
| OlderDriver.OlderIncrementalMinimization.ScanRow | IncrementalMinimization/src/IncrementalMinimization.java:577-646 | The row of `p` is settled unless the clock ran out or a test threw. |
| OlderDriver.OlderIncrementalMinimization.SettlePair | IncrementalMinimization/src/IncrementalMinimization.java:590-646 | A decided pair is settled at once; otherwise it is tested, unless the clock ran out. |
| OlderDriver.OlderIncrementalMinimization.TestPair | IncrementalMinimization/src/IncrementalMinimization.java:603-645 | The chosen test on fresh pair sets: on `true` it merges, on `false` it adds the path to the cache, and the pair is settled. |
| OlderDriver.OlderIncrementalMinimization.RunTest | IncrementalMinimization/src/IncrementalMinimization.java:603-616 | The variant is chosen (upfront, then recursive, then iterative), and each gives the driver's outcome. |
| OlderDriver.OlderIncrementalMinimization.RunUpfront | IncrementalMinimization/src/IncrementalMinimization.java:604-607 | The upfront test gives the driver's outcome, and does not throw over a satisfiable universe. |
| OlderDriver.OlderIncrementalMinimization.RunRecursive | IncrementalMinimization/src/IncrementalMinimization.java:608-611 | The older recursive test gives the driver's outcome. |
| OlderDriver.OlderIncrementalMinimization.RunIterative | IncrementalMinimization/src/IncrementalMinimization.java:612-615 | The iterative test gives the driver's outcome. |
| OlderDriver.IncrementalMinimize | IncrementalMinimization/src/IncrementalMinimization.java:338-364 | The static entry point returns the empty automaton for an automaton flagged empty, and whenever it returns, an automaton with the input's language, along the first matching move and along any run, even when the budget stopped the run. |
| OlderDriver.IncrRecursiveMin | IncrementalMinimization/src/IncrementalMinimization.java:366-377 | The recursive entry point never throws, and its result accepts the language of the input, along the first matching move and along any run. |
| SimpleNeq.CompareSimple | IncrementalMinimization/src/minimization/incremental/IncrSimpleNEQ.java:21-28 | For non-negative identifiers, the sign of the wrapping subtraction is the identifier order. |
| SimpleNeq.NormalizeSimple | IncrementalMinimization/src/minimization/incremental/IncrSimpleNEQ.java:21-28 | The normalised pair holds the two arguments and, on identifiers of states, is ordered by identifier. |
| SimpleNeq.NormalizeSimpleSymmetric | IncrementalMinimization/src/minimization/incremental/IncrSimpleNEQ.java:21-28 | The simple normalisation ignores argument order. |
| SimpleNeq.HookDistancesCompareById | IncrementalMinimization/src/minimization/incremental/IncrSimpleNEQ.java:43-53 | `SimpleNeq.GenerateDistanceToFinalMap` and `SimpleNeq.GetStateDistanceToFinal`: the map hook reports no map, and with the distances the hooks report, the base comparator equals the simple one. |
| SimpleNeq.IncrSimpleNeq.constructor | IncrementalMinimization/src/minimization/incremental/IncrSimpleNEQ.java:30-41 | The cache starts as exactly the seed: every final state paired with every non-final state. |
| SimpleNeq.IncrSimpleNeq.IsKnownNotEqual | IncrementalMinimization/src/minimization/incremental/IncrSimpleNEQ.java:55-60 | The answer is membership in the cache. Pairs of a final and a non-final state are always known, and every known pair is inequivalent. |

## Left out

- Distance.Search, Distance.DistanceToFinalMap: among entries of equal distance the source's order follows the iteration order of `getFinalStates()`, of `getInputMovesTo` and of `getNonFinalStates()`; the model takes the final and non-final states from sets in no fixed order, so only the order by distance (final states, then breadth-first, then sinks) is stated, not the order within one distance.
- Clock: `System.nanoTime()` is an oracle parameter, so the model says nothing about how long a test takes. Only the comparison against the end time is modelled.
- Debug output: the debug flag, `maxDepth`, `DebugException` and all printing to `System.out` are not modelled (`mergePair`, the isEquiv of IncrementalRecWithDeps, `timeCheck`). None of them affects a result.
- Minimisation records: `recordMinimization`, `updateRecord`, `getRecord` and `singularRecord` are not modelled; they only keep statistics.
- `toString` methods are not modelled; they only render text.
- determinize and mkTotal belong to the external automata library and are not part of this model. The input is required to be deterministic and total already (`ValidAutomaton`). The four-argument `MkSFA` of the library is modelled as plain construction, whose emptiness flag is taken over from the source automaton; what else the library does on construction is the subject of the `Moore.Rebuild` line below.
- Boxed `Integer` comparison: the source compares class identifiers with `==` on boxed `Integer`s (IncrementalMinimization.java:394, the older IncrementalMinimization.java:594, Main.java:173, DependencyGraph.java:148). The model compares values. With reference comparison such a check can only miss a merged pair, which is then tested again.
- HashSet and HashMap: capacity and load factor are not modelled beyond the negative-capacity exception (`Incremental.NewPairSet`). Iteration order is left unspecified: `Seeding.StateList` and `Scan.TakePair` yield the elements in some order, and every proof holds for any order.
- Incremental.IncrementalMinimization.constructor: computes `num_pairs` from the automaton before determinize, as the source does. Under `ValidAutomaton` that is the same automaton.
- Incremental.IncrementalMinimization.constructor, OlderDriver.OlderIncrementalMinimization.constructor, FirstVersion.IncrementalMinimize: use the corrected capacity `Incremental.NumPairs` (see Findings). FirstVersion.IncrementalMinimize also uses the corrected lookup.
- DependencyChecks.EquivTestDependency.IsEquiv: IncrWithDependencyChecks.java builds a four-argument `EquivRecord` and reads a `curEquiv` field that the base class does not declare. The model follows the evident meaning: a record with a path, and the dependency edge recorded for the current pair.
- RecWithDeps.EquivTestRecWithDeps.RecordMeeting, DependencyGraphs.DependencyGraph.MergeStates, DependencyChecks.Dependencies.MergeStates, RecWithDeps.EquivTestRecWithDeps.IsEquiv, DependencyChecks.EquivTestDependency.IsEquiv: the two dependency-tracking tests record edges as corrected under Findings; the recording as written appears only in the functions' `asWritten` mode and in the lemmas that exhibit the unsound merge. The merges are proved to keep a sound partition sound only when every tested node of the graph off the failing path is closed (`GraphClosed`), which holds for the fresh graph of each test; a graph kept across tests is not shown to stay closed.
- Sfa.ValidAutomaton, StateOrder.Compare, StateOrder.CompareDoesNotWrap: state identifiers are required to lie in [0, `Integer.MAX_VALUE`) and the state count below `Integer.MAX_VALUE`, so the comparator's `int` subtractions never wrap in the proofs. The source accepts any `Integer` identifier; for identifiers of opposite sign far apart, `a - b` wraps and the comparator's order is not the identifier order, a case the model does not cover.
- Moore.Rebuild, Moore.Minimize, FirstVersion.IncrementalMinimize: the four-argument `SFA.MkSFA` (MooreMinimization.java:137, Main.java:220) also removes dead and unreachable states in the library; the model keeps every representative, so the result may have more states than the library's, with the same language. The incremental drivers call the five-argument form ending in `ba, false` (IncrementalMinimization.java:324, and the older IncrementalMinimization.java:520), which the model follows.
- SimpleNeq: IncrSimpleNEQ.java assigns base-class members that are private or absent in the base, and returns a null distance map. The model gives it its own class, with its hooks as functions (`SimpleNeq.HookDistancesCompareById`) and the seeded cache. The inherited driver is not run on it.
- Upfront.IncrementalNaive.constructor: IncrementalNaive.java calls `super(aut, ba)` and overrides a `makeEquivTest` that the older base class it extends does not declare. The model pairs it with the base minimiser of `Incremental`.
- UnionFind.DisjointSets: DisjointSets.java has no `size()` method; the number of sets is `getSets().size()`, and `UnionFind.MergeCountsSets` states how `union` changes it.
- Moore.Representatives, Moore.MapToRepresentative: the source maps a state to the last earlier representative it is not separated from. The model proves the state is mapped to some such representative, which is all the result depends on; which one wins is not stated.
- Moore.Minimize: the unused `normalizeStateCount` (MooreMinimization.java:43) is not modelled.
- Solver timeouts: the `TimeoutException` that the Boolean algebra's solver calls may throw is not modelled. The algebra here is a finite set algebra whose operations always answer.
- Demo entry point: the `main` method of Main.java (line 223 on) is not modelled; it builds sample automata and prints them.

## Findings

| source | as written | input that shows it | evidently intended | confidence | as-written member | corrected member |
|---|---|---|---|---|---|---|
| IncrementalMinimization/src/minimization/incremental/IncrementalMinimization.java:202-203 | `num_pairs` is the square of the state count in Java's `int`, and is passed to `new HashSet(num_pairs, 0.9f)`. The same code appears at Main.java:150-151 and in the older IncrementalMinimization.java:400-401. | An automaton with 46341 states: the square wraps to -2147479015 and the HashSet constructor throws IllegalArgumentException. | A capacity for every pair of states, capped at `Integer.MAX_VALUE`. | not executed | Incremental.NumPairsAsWritten, Incremental.NumPairsAsWrittenOverflows | Incremental.NumPairs, Incremental.NumPairsAccepted |
| IncrementalMinimization/src/Main.java:63-72 | isEquiv looks up `Arrays.asList(p, q)` in argument order ("should already be normalized"). The cache and the assumed pairs hold pairs ordered by identifier, and the recursive call at Main.java:87 passes the classes in `find` order. | The five-state witness automaton `FirstVersion.Witness`, whose initial state 4 moves to 0 and to 1, testing states 0 and 1. The call on (3, 2) misses the cached pair (2, 3), so the test answers `true` with (0, 1) and (2, 3) assumed equivalent, which the driver then merges, although both pairs are inequivalent. | The lookup uses the identifier-ordered pair, and the test answers `false`. | not executed | FirstVersion.LookupInArgumentOrder, FirstVersion.LookupAsWritten | FirstVersion.LookupCorrected, FirstVersion.TestOutcome, FirstVersion.EquivTest.IsEquiv |
| IncrementalMinimization/src/minimization/incremental/IncrWithDependencyChecks.java:298-321 | A meeting of distinct classes whose pair is on the current path but not yet assumed records no dependency edge (only the push at 308 and the assumed case at 318 do), and after a failure `deps.mergeStates(newPath)` runs at 305. | The nine-state witness of `DependencyChecks.CheckNext`, testing 3 and 4 with a fresh graph: the test fails on the path {(3, 4), (1, 2), (0, 1)}, and the merge joins 5 and 6, which the word 000 separates. | Every meeting of two distinct classes whose pair is not known inequivalent records the edge, so every tested node off the failing path is closed and the merge only joins equivalent states. | not executed | DependencyChecks.CheckRun, DependencyChecks.CheckMergeUnsound | DependencyChecks.DepTestClosed, DependencyChecks.FailedMergeSound, DependencyChecks.EquivTestDependency.IsEquiv |
| IncrementalMinimization/src/minimization/incremental/IncrementalRecWithDeps.java:57-68 | The edge is recorded only when the successor pair is already assumed or on the path (57); a fresh pair that is then tested and succeeds records no edge, and after a failure `deps.mergeStates(equivClasses, path)` runs at 93. | The nine-state witness of `RecWithDeps.WitnessNext` (initial state 1, final states 0, 3 and 4), testing 1 and 2: every run of the merge joins 3 and 4, which the word 0001 separates. | Record the edge for every successor pair of distinct classes, fresh or not, so that the merge only joins equivalent states. | not executed | RecWithDeps.WitnessMergeUnsound | RecWithDeps.RecTestDClosed, RecWithDeps.EquivTestRecWithDeps.IsEquiv |
