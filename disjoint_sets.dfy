/**
 * A union-find forest over hashable identifiers, with path compression in `Find`
 * and union by rank in `Union`.
 */
module UnionFind {
  import opened Base

  /** The source's sets are generic; the minimiser only ever stores state identifiers in them. */
  type Elem = int

  // ---------------------------------------------------------------------------------------------
  // The forest invariant, stated on the maps themselves so that its preservation can be proved
  // once per update, independently of the heap.
  // ---------------------------------------------------------------------------------------------

  /** `parent` maps every element to its parent (`None` marks the identifier of a set), `root` to
      the identifier at the top of its tree and `depth` to its height above that identifier. */
  ghost predicate Forest(parent: map<Elem, Option<Elem>>, rank: map<Elem, int>, root: map<Elem, Elem>, depth: map<Elem, int>)
  {
    && parent.Keys == rank.Keys
    && parent.Keys == root.Keys
    && parent.Keys == depth.Keys
    && forall x :: Placed(parent, rank, root, depth, x)
  }

  /** An element's rank is positive; an identifier identifies itself at height 0; any other
      element's parent lies in the same set, closer to the identifier and of higher rank.
      Stated one element at a time, so that a fact about an element is drawn only where the
      element's place is mentioned. */
  ghost predicate Placed(parent: map<Elem, Option<Elem>>, rank: map<Elem, int>, root: map<Elem, Elem>, depth: map<Elem, int>, x: Elem)
  {
    && (x in rank ==> rank[x] >= 1)
    && (x in parent && parent[x] == None ==> x in root && x in depth && root[x] == x && depth[x] == 0)
    && (x in parent && parent[x] != None ==>
          && x in root && x in depth && x in rank
          && parent[x].value in parent && parent[x].value in root
          && parent[x].value in depth && parent[x].value in rank
          && root[parent[x].value] == root[x]
          && 0 <= depth[parent[x].value] < depth[x]
          && rank[x] < rank[parent[x].value])
  }

  /** The identifiers after the set of `loser` is merged into that of `winner`. */
  ghost function Redirect(root: map<Elem, Elem>, loser: Elem, winner: Elem): map<Elem, Elem>
  {
    map y | y in root :: if root[y] == loser then winner else root[y]
  }

  /** The heights after the tree of `loser` is hung below another identifier. */
  ghost function Lift(depth: map<Elem, int>, root: map<Elem, Elem>, loser: Elem): map<Elem, int>
    requires depth.Keys == root.Keys
  {
    map y | y in depth :: if root[y] == loser then depth[y] + 1 else depth[y]
  }

  /** Walking up from any element ends at its identifier: the identifier has no parent,
      and every element other than its identifier has a lower rank. */
  lemma {:induction false} IdentifierIsRoot(parent: map<Elem, Option<Elem>>, rank: map<Elem, int>, root: map<Elem, Elem>,
                                            depth: map<Elem, int>, x: Elem)
    requires Forest(parent, rank, root, depth)
    requires x in root
    ensures root[x] in parent && parent[root[x]] == None && root[root[x]] == root[x]
    ensures x != root[x] ==> rank[x] < rank[root[x]]
    decreases depth[x]
  {
    assert Placed(parent, rank, root, depth, x);
    if parent[x] != None {
      var p := parent[x].value;
      IdentifierIsRoot(parent, rank, root, depth, p);
    }
  }

  /** In a forest every element's identifier is an element that identifies itself. */
  lemma IdentifiersIdentifyThemselves(parent: map<Elem, Option<Elem>>, rank: map<Elem, int>, root: map<Elem, Elem>,
                                      depth: map<Elem, int>)
    requires Forest(parent, rank, root, depth)
    ensures forall x {:trigger root[x]} :: x in root ==> root[x] in root && root[root[x]] == root[x]
  {
    forall x | x in root ensures root[x] in root && root[root[x]] == root[x] {
      IdentifierIsRoot(parent, rank, root, depth, x);
    }
  }

  /** A new element becomes a singleton set of rank 1. */
  lemma MakeKeepsForest(parent: map<Elem, Option<Elem>>, rank: map<Elem, int>, root: map<Elem, Elem>, depth: map<Elem, int>, e: Elem)
    requires Forest(parent, rank, root, depth)
    requires e !in parent
    ensures Forest(parent[e := None], rank[e := 1], root[e := e], depth[e := 0])
  {
    var parent', rank', root', depth' := parent[e := None], rank[e := 1], root[e := e], depth[e := 0];
    forall x ensures Placed(parent', rank', root', depth', x) {
      if x != e {
        assert Placed(parent, rank, root, depth, x);
      }
    }
  }

  /** Re-attaching a non-root directly to its identifier keeps the forest. */
  lemma CompressKeepsForest(parent: map<Elem, Option<Elem>>, rank: map<Elem, int>, root: map<Elem, Elem>, depth: map<Elem, int>, y: Elem)
    requires Forest(parent, rank, root, depth)
    requires y in parent && parent[y] != None
    ensures Forest(parent[y := Some(root[y])], rank, root, depth)
  {
    var r := root[y];
    IdentifierIsRoot(parent, rank, root, depth, y);
    var parent' := parent[y := Some(r)];
    forall x ensures Placed(parent', rank, root, depth, x) {
      if x == y {
        assert Placed(parent, rank, root, depth, y);
        assert Placed(parent, rank, root, depth, r);
      } else if x in parent' {
        assert Placed(parent, rank, root, depth, x);
        assert parent'[x] == parent[x];
      }
    }
  }

  /** The ranks after the identifier `winner` gains a set: one higher when `raise` is set. */
  function Raised(rank: map<Elem, int>, winner: Elem, raise: bool): map<Elem, int>
    requires winner in rank
  {
    if raise then rank[winner := rank[winner] + 1] else rank
  }

  /** Hanging the tree of the identifier `loser` below the identifier `winner`, of higher rank or
      of the same rank and then raised, keeps the forest. */
  lemma AttachKeepsForest(parent: map<Elem, Option<Elem>>, rank: map<Elem, int>, root: map<Elem, Elem>, depth: map<Elem, int>,
                             loser: Elem, winner: Elem, raise: bool)
    requires Forest(parent, rank, root, depth)
    requires loser in root && root[loser] == loser && parent[loser] == None
    requires winner in root && root[winner] == winner && parent[winner] == None && loser != winner
    requires rank[loser] < rank[winner] || (raise && rank[loser] == rank[winner])
    ensures Forest(parent[loser := Some(winner)], Raised(rank, winner, raise),
                   Redirect(root, loser, winner), Lift(depth, root, loser))
  {
    var parent' := parent[loser := Some(winner)];
    var rank' := Raised(rank, winner, raise);
    var root' := Redirect(root, loser, winner);
    var depth' := Lift(depth, root, loser);
    assert Placed(parent, rank, root, depth, winner);
    forall x ensures Placed(parent', rank', root', depth', x) {
      assert Placed(parent, rank, root, depth, x);
      if x != loser && x in parent' && parent'[x] != None {
        var p := parent[x].value;
        assert parent'[x].value == p && root[p] == root[x];
        assert x != winner;
      }
    }
  }

  /** The identifier `union` keeps when merging the sets identified by `r1` and `r2`:
      the one of higher rank, or `r1` on a tie. */
  ghost function Winner(rank: map<Elem, int>, r1: Elem, r2: Elem): Elem
    requires r1 in rank && r2 in rank
  {
    if r1 == r2 || rank[r1] >= rank[r2] then r1 else r2
  }

  /** The identifiers after the sets identified by `r1` and `r2` are merged. */
  ghost function MergedRoot(root: map<Elem, Elem>, rank: map<Elem, int>, r1: Elem, r2: Elem): map<Elem, Elem>
    requires r1 in rank && r2 in rank
  {
    if r1 == r2 then root
    else if rank[r1] >= rank[r2] then Redirect(root, r2, r1)
    else Redirect(root, r1, r2)
  }

  /** The ranks after the sets identified by `r1` and `r2` are merged:
      only a tie between two distinct sets raises the winner's rank. */
  ghost function MergedRank(rank: map<Elem, int>, r1: Elem, r2: Elem): map<Elem, int>
    requires r1 in rank && r2 in rank
  {
    if r1 != r2 && rank[r1] == rank[r2] then rank[r1 := rank[r1] + 1] else rank
  }

  /** The identifiers of the sets. */
  ghost function RootsOf(root: map<Elem, Elem>): set<Elem>
  {
    set x | x in root && root[x] == x
  }

  /** A union of two different sets leaves one set fewer, the identifier that lost; a union
      within one set leaves the sets as they are. */
  lemma MergeCountsSets(root: map<Elem, Elem>, rank: map<Elem, int>, r1: Elem, r2: Elem)
    requires r1 in rank && r2 in rank
    requires r1 in root && r2 in root && root[r1] == r1 && root[r2] == r2
    ensures r1 == r2 ==> RootsOf(MergedRoot(root, rank, r1, r2)) == RootsOf(root)
    ensures r1 != r2 ==>
              && RootsOf(MergedRoot(root, rank, r1, r2)) == RootsOf(root) - {if Winner(rank, r1, r2) == r1 then r2 else r1}
              && |RootsOf(MergedRoot(root, rank, r1, r2))| == |RootsOf(root)| - 1
  {
    if r1 != r2 {
      var winner := Winner(rank, r1, r2);
      var loser := if winner == r1 then r2 else r1;
      var merged := MergedRoot(root, rank, r1, r2);
      assert merged == Redirect(root, loser, winner);
      forall x | x in RootsOf(merged) ensures x in RootsOf(root) - {loser} {
        assert x in root && merged[x] == x;
        assert root[x] != loser;
      }
      forall x | x in RootsOf(root) - {loser} ensures x in RootsOf(merged) {
        assert root[x] == x;
      }
      assert RootsOf(merged) == RootsOf(root) - {loser};
      assert loser in RootsOf(root);
    }
  }

  /** `sets` holds, under each identifier, exactly the elements it identifies. */
  ghost predicate Partition(sets: map<Elem, set<Elem>>, root: map<Elem, Elem>)
  {
    && sets.Keys == RootsOf(root)
    && (forall r, y :: r in sets ==> (y in sets[r] <==> y in root && root[y] == r))
  }

  lemma SetsComplete(sets: map<Elem, set<Elem>>, root: map<Elem, Elem>, done: set<Elem>)
    requires SetsSoFar(sets, root, done)
    requires forall y :: y in root ==> y in done
    ensures Partition(sets, root)
  {
    forall r | r in RootsOf(root) ensures r in sets {
      assert root[r] == r;
      assert r in done;
    }
    forall r | r in sets ensures r in RootsOf(root) {
      assert r in root && root[r] == r;
    }
    assert sets.Keys == RootsOf(root);
  }

  /** `sets` groups the elements of `done` by identifier. */
  ghost predicate SetsSoFar(sets: map<Elem, set<Elem>>, root: map<Elem, Elem>, done: set<Elem>)
  {
    && done <= root.Keys
    && (forall r :: r in sets ==> r in root && root[r] == r)
    && (forall r, y :: r in sets ==> (y in sets[r] <==> y in done && root[y] == r))
    && (forall y :: y in done ==> root[y] in sets)
  }

  lemma SetsStep(sets: map<Elem, set<Elem>>, root: map<Elem, Elem>, done: set<Elem>, e: Elem)
    requires SetsSoFar(sets, root, done)
    requires e in root && e !in done && root[e] in root && root[root[e]] == root[e]
    ensures SetsSoFar(if root[e] !in sets then sets[root[e] := {e}] else sets[root[e] := sets[root[e]] + {e}],
                      root, done + {e})
  {
  }

  /** `parent` differs from `parent0` only in elements re-attached directly to their identifier. */
  ghost predicate CompressedFrom(parent0: map<Elem, Option<Elem>>, parent: map<Elem, Option<Elem>>, root: map<Elem, Elem>)
  {
    && parent.Keys == parent0.Keys
    && forall y :: y in parent ==> parent[y] == parent0[y] || (y in root && parent[y] == Some(root[y]))
  }

  lemma CompressedStep(parent0: map<Elem, Option<Elem>>, parent: map<Elem, Option<Elem>>, root: map<Elem, Elem>, y: Elem)
    requires CompressedFrom(parent0, parent, root) && y in parent && y in root
    ensures CompressedFrom(parent0, parent[y := Some(root[y])], root)
  {
  }

  /** The elements `find` walks over from `x` up to its identifier: `x` first, each followed by
      its parent, the identifier itself left out. */
  ghost function Chain(parent: map<Elem, Option<Elem>>, rank: map<Elem, int>, root: map<Elem, Elem>, depth: map<Elem, int>,
                       x: Elem): (r: seq<Elem>)
    requires Forest(parent, rank, root, depth) && x in parent
    ensures forall k :: 0 <= k < |r| ==> r[k] in parent && parent[r[k]] != None && root[r[k]] == root[x]
    decreases depth[x]
  {
    assert Placed(parent, rank, root, depth, x);
    if parent[x] == None then [] else [x] + Chain(parent, rank, root, depth, parent[x].value)
  }

  /** The parent links after every element of `path` is re-attached directly to `iden`. */
  ghost function Compressed(parent: map<Elem, Option<Elem>>, path: seq<Elem>, iden: Elem): map<Elem, Option<Elem>>
  {
    map y | y in parent :: if y in path then Some(iden) else parent[y]
  }

  /** After the chain of `x` is compressed, walking up from `x` or from any element of its chain
      takes at most one step: each of them hangs directly below the identifier. */
  lemma CompressedChainShort(parent: map<Elem, Option<Elem>>, rank: map<Elem, int>, root: map<Elem, Elem>,
                             depth: map<Elem, int>, x: Elem)
    requires Forest(parent, rank, root, depth) && x in parent
    requires Forest(Compressed(parent, Chain(parent, rank, root, depth, x), root[x]), rank, root, depth)
    ensures forall y :: y in Chain(parent, rank, root, depth, x) ==>
              Chain(Compressed(parent, Chain(parent, rank, root, depth, x), root[x]), rank, root, depth, y) == [y]
    ensures |Chain(Compressed(parent, Chain(parent, rank, root, depth, x), root[x]), rank, root, depth, x)| <= 1
  {
    var path := Chain(parent, rank, root, depth, x);
    var parent' := Compressed(parent, path, root[x]);
    IdentifierIsRoot(parent, rank, root, depth, x);
    assert root[x] !in path;
    assert parent'[root[x]] == None;
    if parent[x] != None {
      assert x in path;
    }
  }

  /** Re-attaching one more element of a path extends the compressed links by that element. */
  lemma CompressedAppend(parent: map<Elem, Option<Elem>>, path: seq<Elem>, i: nat, iden: Elem)
    requires i < |path| && path[i] in parent
    ensures Compressed(parent, path[..i + 1], iden) == Compressed(parent, path[..i], iden)[path[i] := Some(iden)]
  {
    assert path[..i + 1] == path[..i] + [path[i]];
  }

  class DisjointSets {
    var parentMap: map<Elem, Option<Elem>>
    var rankMap: map<Elem, int>

    /** The identifier at the top of each element's tree. */
    ghost var Root: map<Elem, Elem>
    /** The height of each element above its identifier, which makes walking up terminate. */
    ghost var Depth: map<Elem, int>

    ghost predicate Valid()
      reads this
    {
      Forest(parentMap, rankMap, Root, Depth)
    }

    constructor ()
      ensures Valid()
      ensures parentMap == map[] && rankMap == map[] && Root == map[]
    {
      parentMap := map[];
      rankMap := map[];
      Root := map[];
      Depth := map[];
    }

    /** Registers `e` as a singleton set of rank 1; an element already registered is an error. */
    method Make(e: Elem) returns (r: Result<()>)
      requires Valid()
      modifies this
      ensures Valid()
      ensures old(e in parentMap) ==> r == Err(IllegalArgument) && unchanged(this)
      ensures old(e !in parentMap) ==>
        && r == Ok(())
        && parentMap == old(parentMap)[e := None]
        && rankMap == old(rankMap)[e := 1]
        && Root == old(Root)[e := e]
    {
      if e !in parentMap {
        MakeKeepsForest(parentMap, rankMap, Root, Depth, e);
        parentMap := parentMap[e := None];
        rankMap := rankMap[e := 1];
        Root := Root[e := e];
        Depth := Depth[e := 0];
        r := Ok(());
      } else {
        r := Err(IllegalArgument);
      }
    }

    /** The identifier of the set holding `x`. Every element walked over on the way up
        is re-attached directly to that identifier; an unregistered element is an error. */
    method Find(x: Elem) returns (r: Result<Elem>)
      requires Valid()
      modifies this
      ensures Valid()
      ensures Root == old(Root) && rankMap == old(rankMap)
      ensures x !in old(parentMap) ==> r == Err(IllegalArgument) && unchanged(this)
      ensures x in old(parentMap) ==> r == Ok(Root[x])
      ensures x in old(parentMap) ==>
                && parentMap == Compressed(old(parentMap), old(Chain(parentMap, rankMap, Root, Depth, x)), Root[x])
                && |Chain(parentMap, rankMap, Root, Depth, x)| <= 1
      ensures CompressedFrom(old(parentMap), parentMap, Root)
    {
      if x !in parentMap {
        return Err(IllegalArgument);
      }
      var path, element := WalkUp(x);
      CompressPath(path, element);
      CompressedChainShort(old(parentMap), rankMap, Root, Depth, x);
      r := Ok(element);
    }

    /** The first loop of `find`: the elements from `x` up to its identifier, which it returns. */
    method WalkUp(x: Elem) returns (path: seq<Elem>, element: Elem)
      requires Valid() && x in parentMap
      ensures element in parentMap && element == Root[x]
      ensures path == Chain(parentMap, rankMap, Root, Depth, x)
      ensures forall k :: 0 <= k < |path| ==>
                path[k] in parentMap && parentMap[path[k]] != None && Root[path[k]] == element
    {
      path := [];
      element := x;
      while parentMap[element] != None
        invariant element in parentMap && Root[element] == Root[x]
        invariant path + Chain(parentMap, rankMap, Root, Depth, element) == Chain(parentMap, rankMap, Root, Depth, x)
        invariant forall k :: 0 <= k < |path| ==>
                    path[k] in parentMap && parentMap[path[k]] != None && Root[path[k]] == Root[x]
        decreases Depth[element]
      {
        assert Placed(parentMap, rankMap, Root, Depth, element);
        path := path + [element];
        element := parentMap[element].value;
      }
      assert Placed(parentMap, rankMap, Root, Depth, element);
    }

    /** The second loop of `find`: every element of `path` other than `element` is re-attached
        directly to its identifier `element`. */
    method CompressPath(path: seq<Elem>, element: Elem)
      requires Valid()
      requires forall k :: 0 <= k < |path| ==>
                 path[k] in parentMap && parentMap[path[k]] != None && Root[path[k]] == element
      modifies this
      ensures Valid()
      ensures Root == old(Root) && rankMap == old(rankMap) && Depth == old(Depth)
      ensures parentMap == Compressed(old(parentMap), path, element)
      ensures CompressedFrom(old(parentMap), parentMap, Root)
    {
      ghost var parent0 := parentMap;
      for i := 0 to |path|
        invariant Valid()
        invariant Root == old(Root) && rankMap == old(rankMap) && Depth == old(Depth)
        invariant parentMap == Compressed(parent0, path[..i], element)
        invariant CompressedFrom(parent0, parentMap, Root)
        invariant forall k :: 0 <= k < |path| ==> path[k] in parentMap && parentMap[path[k]] != None && Root[path[k]] == element
      {
        var pathMember := path[i];
        IdentifierIsRoot(parentMap, rankMap, Root, Depth, pathMember);
        CompressedAppend(parent0, path, i, element);
        if pathMember != element {
          ghost var before := parentMap;
          Compress(pathMember, element);
          CompressedStep(parent0, before, Root, pathMember);
        }
      }
    }

    /** `parentMap.put(y, iden)` for an element `y` below its identifier `iden`. */
    method Compress(y: Elem, iden: Elem)
      requires Valid() && y in parentMap && parentMap[y] != None && Root[y] == iden
      modifies this
      ensures Valid()
      ensures parentMap == old(parentMap)[y := Some(iden)]
      ensures Root == old(Root) && rankMap == old(rankMap) && Depth == old(Depth)
    {
      CompressKeepsForest(parentMap, rankMap, Root, Depth, y);
      parentMap := parentMap[y := Some(iden)];
    }

    /** Merges the sets holding `e1` and `e2` and returns the identifier of the merged set.
        The identifier of higher rank stays the identifier; on equal ranks that of `e1` does and
        its rank grows by one. An unregistered argument is an error. */
    method Union(e1: Elem, e2: Elem) returns (r: Result<Elem>)
      requires Valid()
      modifies this
      ensures Valid()
      ensures parentMap.Keys == old(parentMap.Keys)
      ensures (e1 !in old(parentMap) || e2 !in old(parentMap)) ==>
                r == Err(IllegalArgument) && Root == old(Root) && rankMap == old(rankMap)
      ensures e1 in old(parentMap) && e2 in old(parentMap) ==>
        var r1 := old(Root)[e1];
        var r2 := old(Root)[e2];
        && r1 in old(rankMap) && r2 in old(rankMap)
        && r == Ok(Winner(old(rankMap), r1, r2))
        && Root == MergedRoot(old(Root), old(rankMap), r1, r2)
        && rankMap == MergedRank(old(rankMap), r1, r2)
    {
      var f1 := Find(e1);
      if f1.Err? {
        return Err(IllegalArgument);
      }
      var f2 := Find(e2);
      if f2.Err? {
        return Err(IllegalArgument);
      }
      IdentifierIsRoot(parentMap, rankMap, Root, Depth, e1);
      IdentifierIsRoot(parentMap, rankMap, Root, Depth, e2);
      var unionIden := Link(f1.value, f2.value);
      r := Ok(unionIden);
    }

    /** The branch of `union` after both identifiers are found. */
    method Link(iden1: Elem, iden2: Elem) returns (unionIden: Elem)
      requires Valid()
      requires iden1 in Root && Root[iden1] == iden1 && iden2 in Root && Root[iden2] == iden2
      modifies this
      ensures Valid()
      ensures parentMap.Keys == old(parentMap.Keys)
      ensures unionIden == Winner(old(rankMap), iden1, iden2)
      ensures Root == MergedRoot(old(Root), old(rankMap), iden1, iden2)
      ensures rankMap == MergedRank(old(rankMap), iden1, iden2)
    {
      if iden1 == iden2 {
        unionIden := iden1;
      } else {
        var rank1 := rankMap[iden1];
        var rank2 := rankMap[iden2];
        if rank1 == rank2 {
          Attach(iden2, iden1, true);
          unionIden := iden1;
        } else if rank1 > rank2 {
          Attach(iden2, iden1, false);
          unionIden := iden1;
        } else {
          Attach(iden1, iden2, false);
          unionIden := iden2;
        }
      }
    }

    /** `parentMap.put(loser, winner)` for two distinct identifiers, followed on a tie of ranks by
        `rankMap.put(winner, rank + 1)`. */
    method Attach(loser: Elem, winner: Elem, raise: bool)
      requires Valid()
      requires loser in Root && Root[loser] == loser
      requires winner in Root && Root[winner] == winner && loser != winner
      requires rankMap[loser] < rankMap[winner] || (raise && rankMap[loser] == rankMap[winner])
      modifies this
      ensures Valid()
      ensures parentMap == old(parentMap)[loser := Some(winner)]
      ensures rankMap == Raised(old(rankMap), winner, raise)
      ensures Root == Redirect(old(Root), loser, winner)
    {
      IdentifierIsRoot(parentMap, rankMap, Root, Depth, loser);
      IdentifierIsRoot(parentMap, rankMap, Root, Depth, winner);
      AttachKeepsForest(parentMap, rankMap, Root, Depth, loser, winner, raise);
      Depth := Lift(Depth, Root, loser);
      Root := Redirect(Root, loser, winner);
      parentMap := parentMap[loser := Some(winner)];
      rankMap := Raised(rankMap, winner, raise);
    }

    /** The sets of the partition, each under its identifier. */
    method GetSets() returns (sets: map<Elem, set<Elem>>)
      requires Valid()
      modifies this
      ensures Valid()
      ensures Root == old(Root) && rankMap == old(rankMap) && parentMap.Keys == old(parentMap.Keys)
      ensures Partition(sets, Root)
    {
      sets := map[];
      var todo := parentMap.Keys;
      ghost var done: set<Elem> := {};
      while todo != {}
        invariant Valid()
        invariant Root == old(Root) && rankMap == old(rankMap) && parentMap.Keys == old(parentMap.Keys)
        invariant todo <= Root.Keys
        invariant forall y :: y in Root ==> (y in done <==> y !in todo)
        invariant SetsSoFar(sets, Root, done)
        decreases todo
      {
        NonEmptyHasElement(todo);
        var element :| element in todo;
        var found := Find(element);
        var identifier := found.value;
        IdentifierIsRoot(parentMap, rankMap, Root, Depth, element);
        SetsStep(sets, Root, done, element);
        if identifier !in sets {
          sets := sets[identifier := {element}];
        } else {
          sets := sets[identifier := sets[identifier] + {element}];
        }
        done := done + {element};
        todo := todo - {element};
      }
      SetsComplete(sets, Root, done);
    }
  }

  /** The `make` loop of the set tests: the singletons 0 to n - 1, each of rank 1. */
  method MakeSingletons(n: nat) returns (sets: DisjointSets)
    ensures fresh(sets) && sets.Valid()
    ensures forall x :: x in sets.parentMap <==> 0 <= x < n
    ensures forall x :: x in sets.Root ==> sets.Root[x] == x && sets.rankMap[x] == 1
  {
    sets := new DisjointSets();
    var i := 0;
    while i < n
      invariant 0 <= i <= n && sets.Valid()
      invariant forall x :: x in sets.parentMap <==> 0 <= x < i
      invariant forall x :: x in sets.Root ==> sets.Root[x] == x && sets.rankMap[x] == 1
    {
      var made := sets.Make(i);
      i := i + 1;
    }
  }

  /** The constructor over a collection of identifiers: `make` for each in turn. A repeated
      identifier makes `make` throw, and with it the constructor; otherwise every identifier is a
      singleton set of its own. */
  method FromIdentifiers(ids: seq<Elem>) returns (r: Result<DisjointSets>)
    ensures r.Ok? <==> forall i, j :: 0 <= i < j < |ids| ==> ids[i] != ids[j]
    ensures r.Err? ==> r.error == IllegalArgument
    ensures r.Ok? ==> fresh(r.value) && r.value.Valid()
    ensures r.Ok? ==> forall x :: x in r.value.parentMap <==> x in ids
    ensures r.Ok? ==> forall x :: x in r.value.Root ==> r.value.Root[x] == x && r.value.rankMap[x] == 1
  {
    var sets := new DisjointSets();
    var i := 0;
    while i < |ids|
      invariant 0 <= i <= |ids| && sets.Valid() && fresh(sets)
      invariant forall a, b :: 0 <= a < b < i ==> ids[a] != ids[b]
      invariant forall x :: x in sets.parentMap <==> x in ids[..i]
      invariant forall x :: x in sets.Root ==> sets.Root[x] == x && sets.rankMap[x] == 1
    {
      var made := sets.Make(ids[i]);
      if made.Err? {
        assert ids[i] in ids[..i];
        var k :| 0 <= k < i && ids[k] == ids[i];
        return Err(IllegalArgument);
      }
      assert ids[..i + 1] == ids[..i] + [ids[i]];
      i := i + 1;
    }
    assert ids[..i] == ids;
    return Ok(sets);
  }

  /** The find test: after ten `make` calls on 0 to 9, each element is its own identifier. */
  method FindScenario() returns (singletons: bool)
    ensures singletons
  {
    var sets := MakeSingletons(10);
    singletons := true;
    var i := 0;
    while i < 10
      invariant 0 <= i <= 10 && sets.Valid()
      invariant forall x :: x in sets.Root ==> sets.Root[x] == x
      invariant forall x :: x in sets.parentMap <==> 0 <= x < 10
      invariant singletons
    {
      var f := sets.Find(i);
      singletons := f == Ok(i);
      i := i + 1;
    }
  }

  /** The union test: on ten singletons 0 to 9, `union(1, 2)`, `union(3, 4)` and `union(2, 3)`.
      Afterwards 1 is the identifier of 1 and 2, then of 1 to 4 (the tie of ranks keeps the
      first argument's identifier), while 5 stays apart. */
  method UnionScenario() returns (find1: Elem, find2: Elem, find4: Elem, find5: Elem)
    ensures find1 == 1 && find2 == 1 && find4 == 1 && find5 == 5
  {
    var sets := MakeSingletons(10);
    find1, find2 := UnionFirstPair(sets);
    find4, find5 := UnionRest(sets);
  }

  /** The first union of the union test and the two finds after it. */
  method UnionFirstPair(sets: DisjointSets) returns (find1: Elem, find2: Elem)
    requires sets.Valid()
    requires forall x :: x in sets.parentMap <==> 0 <= x < 10
    requires forall x :: x in sets.Root ==> sets.Root[x] == x && sets.rankMap[x] == 1
    modifies sets
    ensures sets.Valid() && find1 == 1 && find2 == 1
    ensures 1 in sets.Root && 2 in sets.Root && 3 in sets.Root && 4 in sets.Root && 5 in sets.Root
    ensures sets.Root[1] == 1 && sets.Root[2] == 1 && sets.Root[3] == 3 && sets.Root[4] == 4 && sets.Root[5] == 5
    ensures 1 in sets.rankMap && 3 in sets.rankMap && 4 in sets.rankMap
    ensures sets.rankMap[1] == 2 && sets.rankMap[3] == 1 && sets.rankMap[4] == 1
  {
    assert sets.Root[1] == 1 && sets.Root[2] == 2;
    var u := sets.Union(1, 2);
    assert sets.Root[1] == 1 && sets.Root[2] == 1 && sets.Root[3] == 3 && sets.Root[4] == 4 && sets.Root[5] == 5;
    var f := sets.Find(1);
    var g := sets.Find(2);
    find1, find2 := f.value, g.value;
  }

  /** The last two unions of the union test and the finds of 4 and 5 after them. */
  method UnionRest(sets: DisjointSets) returns (find4: Elem, find5: Elem)
    requires sets.Valid()
    requires 1 in sets.Root && 2 in sets.Root && 3 in sets.Root && 4 in sets.Root && 5 in sets.Root
    requires sets.Root[1] == 1 && sets.Root[2] == 1 && sets.Root[3] == 3 && sets.Root[4] == 4 && sets.Root[5] == 5
    requires 1 in sets.rankMap && 3 in sets.rankMap && 4 in sets.rankMap
    requires sets.rankMap[1] == 2 && sets.rankMap[3] == 1 && sets.rankMap[4] == 1
    modifies sets
    ensures find4 == 1 && find5 == 5
  {
    var u := sets.Union(3, 4);
    assert sets.Root[1] == 1 && sets.Root[2] == 1 && sets.Root[3] == 3 && sets.Root[4] == 3 && sets.Root[5] == 5;
    assert sets.rankMap[1] == 2 && sets.rankMap[3] == 2;
    u := sets.Union(2, 3);
    assert sets.Root[4] == 1 && sets.Root[5] == 5;
    var f := sets.Find(4);
    var g := sets.Find(5);
    find4, find5 := f.value, g.value;
  }
}
