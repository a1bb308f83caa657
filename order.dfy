/**
 * The orders in which the minimisers visit states and store state pairs. The newer driver orders
 * states by their distance to a final state and then by identifier; the older code and the
 * baselines order them by identifier alone. A pair is always stored with its smaller state first.
 */
module StateOrder {
  import opened Base
  import opened Sfa

  /** The distances and identifiers that Java's `int` can hold without the comparator's
      subtraction overflowing: both are non-negative. */
  predicate NonNegative(dist: map<State, int>, x: State)
    requires x in dist
  {
    0 <= dist[x] <= IntMax && 0 <= x <= IntMax
  }

  /** `a` comes strictly before `b`: closer to a final state, or as close and of smaller identifier. */
  predicate Before(dist: map<State, int>, a: State, b: State)
    requires a in dist && b in dist
  {
    dist[a] < dist[b] || (dist[a] == dist[b] && a < b)
  }

  /** StateComparator.compare, with Java's wrapping `int` subtraction. For non-negative distances
      and identifiers its sign is the lexicographic order on (distance, identifier). */
  function Compare(dist: map<State, int>, a: State, b: State): (r: int)
    requires a in dist && b in dist
    ensures NonNegative(dist, a) && NonNegative(dist, b) ==>
              && (r < 0 <==> Before(dist, a, b))
              && (r == 0 <==> a == b)
              && (r > 0 <==> Before(dist, b, a))
  {
    var diff := Wrap32(dist[a] - dist[b]);
    if diff == 0 then Wrap32(a - b) else diff
  }

  /** Neither subtraction of the comparator wraps around for non-negative values. */
  lemma CompareDoesNotWrap(dist: map<State, int>, a: State, b: State)
    requires a in dist && b in dist && NonNegative(dist, a) && NonNegative(dist, b)
    ensures Compare(dist, a, b) == if dist[a] != dist[b] then dist[a] - dist[b] else a - b
  {
  }

  /** normalize: the pair with the state that comes first in the order first. */
  function Normalize(dist: map<State, int>, p: State, q: State): Pair
    requires p in dist && q in dist
  {
    if Compare(dist, p, q) < 0 then Pair(p, q) else Pair(q, p)
  }

  /** Normalising does not depend on the order of the arguments. */
  lemma NormalizeSymmetric(dist: map<State, int>, p: State, q: State)
    requires p in dist && q in dist && NonNegative(dist, p) && NonNegative(dist, q)
    ensures Normalize(dist, p, q) == Normalize(dist, q, p)
  {
  }

  /** The normalised pair holds the two arguments, the first not after the second. */
  lemma NormalizeOrdered(dist: map<State, int>, p: State, q: State)
    requires p in dist && q in dist && NonNegative(dist, p) && NonNegative(dist, q)
    ensures Normalize(dist, p, q) == Pair(p, q) || Normalize(dist, p, q) == Pair(q, p)
    ensures Compare(dist, Normalize(dist, p, q).fst, Normalize(dist, p, q).snd) <= 0
  {
  }

  /** The normalize of the older code and the baselines: ascending identifiers. */
  function NormalizeById(p: State, q: State): (r: Pair)
    ensures r.fst <= r.snd
    ensures r == Pair(p, q) || r == Pair(q, p)
  {
    if p < q then Pair(p, q) else Pair(q, p)
  }

  lemma NormalizeByIdSymmetric(p: State, q: State)
    ensures NormalizeById(p, q) == NormalizeById(q, p)
  {
  }
}
