/** When another process commits between the marking and the sweep of a collection: exactly when the store stays closed. */
module Between {
  import opened Basics
  import opened Primitives
  import opened TreeCodec
  import opened Cas
  import opened Objects
  import opened Marking
  import Gc
  import opened Overlooked

  /** Marked as a missing root, put since, and listing something that is not marked. */
  predicate PutTooLate(pools: Pools, marked: Objs, swept: Objs, live: set<Id>, h: Id) {
    h in live && h !in marked && h in swept && !(Succ(pools, swept, h) <= live)
  }

  /** What was there at the marking points to nothing that is not marked. */
  lemma EarlierPointsInside(prim: Prim, pools: Pools, marked: Objs, swept: Objs, seeds: set<Id>, live: set<Id>, h: Id)
    requires SubTable(marked, swept) && IsReach(pools, marked, seeds, live)
    requires h in live && (h in marked || Succ(pools, swept, h) <= live)
    ensures Succ(pools, swept, h) <= live
  {
    if h in marked { assert Succ(pools, marked, h) == Succ(pools, swept, h); }
  }

  /**
   * `live` was computed on the table `marked`, and the sweep finds `swept`, to which others have added. What the sweep
   * leaves is closed if and only if no root that was missing at the marking has been put since with something in it that
   * is not marked.
   */
  lemma SweptLaterClosed(prim: Prim, pools: Pools, marked: Objs, swept: Objs, seeds: set<Id>, live: set<Id>)
    requires PoolsOk(prim, pools) && Closed(prim, pools, marked) && Closed(prim, pools, swept) && SubTable(marked, swept)
    requires IsReach(pools, marked, seeds, live)
    ensures Closed(prim, pools, Swept(swept, live)) <==> !exists h :: PutTooLate(pools, marked, swept, live, h)
    ensures forall h :: PutTooLate(pools, marked, swept, live, h) ==> h in seeds
  {
    Gc.ReachPresent(prim, pools, marked, seeds, live);
    if Closed(prim, pools, Swept(swept, live)) {
      forall h ensures !PutTooLate(pools, marked, swept, live, h) {
        if h in live && h in swept && swept[h] in pools.trees { assert Swept(swept, live)[h] == swept[h]; }
      }
    }
    if !exists h :: PutTooLate(pools, marked, swept, live, h) {
      forall h | h in swept && h in live && swept[h] in pools.trees
        ensures forall e :: e in Listing(swept[h]) ==> e.id in live
      {
        assert !PutTooLate(pools, marked, swept, live, h);
        EarlierPointsInside(prim, pools, marked, swept, seeds, live, h);
      }
      RestrictClosed(prim, pools, swept, live);
    }
  }

  /**
   * An input on which it does not: a root recorded and missing, so marked and nothing else, and its tree put again by
   * another process before the sweep. The root stays and its file goes.
   */
  lemma PutAgainLosesFile(prim: Prim, pools: Pools)
    requires Sound(prim) && PoolsOk(prim, pools) && pools == Pools({File}, {EncodeTree(Inner(prim))})
    ensures var inner := EncodeTree(Inner(prim));
            var root := prim.hash(inner);
            var swept: Objs := map[prim.hash(File) := File, root := inner];
            && Closed(prim, pools, map[]) && Closed(prim, pools, swept)
            && IsReach(pools, map[], {root}, {root})
            && PutTooLate(pools, map[], swept, {root}, root)
            && root in Swept(swept, {root}) && !Whole(Swept(swept, {root}), root, 0)
  {
    var inner := EncodeTree(Inner(prim));
    var root := prim.hash(inner);
    var swept: Objs := map[prim.hash(File) := File, root := inner];
    ListingsValid(prim, inner);
    assert inner != File && root != prim.hash(File);
    assert Listing(inner) == Inner(prim) && Inner(prim)[0] in Listing(inner);
    assert Succ(pools, swept, root) == {prim.hash(File)} by {
      assert forall e :: e in Inner(prim) ==> e == Inner(prim)[0];
    }
    assert Inner(prim)[0] in Listing(Swept(swept, {root})[root]);
  }
}
