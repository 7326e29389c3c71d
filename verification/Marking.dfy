/** `mark_live`: the objects a tree root keeps alive. */
module Marking {
  import opened Basics
  import opened Primitives
  import opened TreeCodec
  import opened Cas
  import opened Objects

  /** The ids an object points to; only tree contents point anywhere. */
  function Succ(pools: Pools, objs: Objs, id: Id): set<Id> {
    if id in objs && objs[id] in pools.trees then Ids(Listing(objs[id])) else {}
  }

  function Ids(es: seq<TreeEntry>): set<Id> {
    set e | e in es :: e.id
  }

  ghost predicate ClosedSet(pools: Pools, objs: Objs, s: set<Id>) {
    forall t :: t in s ==> Succ(pools, objs, t) <= s
  }

  /** `live` is contained in every closed set that contains `seeds`. */
  ghost predicate AtMost(pools: Pools, objs: Objs, seeds: set<Id>, live: set<Id>) {
    forall s: set<Id> :: seeds <= s && ClosedSet(pools, objs, s) ==> live <= s
  }

  /** The least closed set over `seeds`, which is unique. */
  ghost predicate IsReach(pools: Pools, objs: Objs, seeds: set<Id>, live: set<Id>) {
    seeds <= live && ClosedSet(pools, objs, live) && AtMost(pools, objs, seeds, live)
  }

  lemma ReachUnique(pools: Pools, objs: Objs, seeds: set<Id>, a: set<Id>, b: set<Id>)
    requires IsReach(pools, objs, seeds, a) && IsReach(pools, objs, seeds, b)
    ensures a == b
  {
  }

  lemma ReachAdd(pools: Pools, objs: Objs, seeds: set<Id>, live: set<Id>, root: Id, live': set<Id>)
    requires IsReach(pools, objs, seeds, live)
    requires live + {root} <= live' && ClosedSet(pools, objs, live') && AtMost(pools, objs, live + {root}, live')
    ensures IsReach(pools, objs, seeds + {root}, live')
  {
    forall s: set<Id> | seeds + {root} <= s && ClosedSet(pools, objs, s) ensures live' <= s {
      assert live <= s;
    }
  }

  /** Every id that any listing has. */
  function AllListed(objs: Objs): set<Id> {
    set h, e | h in objs && e in Listing(objs[h]) :: e.id
  }

  lemma Shrinks(universe: set<Id>, a: set<Id>, b: set<Id>)
    requires a < b && b - a <= universe
    ensures |universe - b| < |universe - a|
  {
    var x :| x in b && x !in a;
    SubsetSize(universe - b, (universe - a) - {x});
  }

  /** One round of following edges. */
  function Spread(pools: Pools, objs: Objs, s: set<Id>): set<Id> {
    s + set t, u | t in s && u in Succ(pools, objs, t) :: u
  }

  /** The least closed set exists: it is found by following edges until nothing is new. */
  ghost function Reach(pools: Pools, objs: Objs, seeds: set<Id>): (live: set<Id>)
    ensures IsReach(pools, objs, seeds, live)
    decreases |AllListed(objs) - seeds|
  {
    if ClosedSet(pools, objs, seeds) then seeds
    else
      Shrinks(AllListed(objs), seeds, Spread(pools, objs, seeds));
      Reach(pools, objs, Spread(pools, objs, seeds))
  }

  /** One turn of the inner loop: insert the id, and queue it if it is new and a directory's. */
  function Visit(marks: (set<Id>, seq<Id>), e: TreeEntry): (set<Id>, seq<Id>) {
    var (live, pending) := marks;
    if e.id in live then marks
    else (live + {e.id}, if e.typ == DIRECTORY then pending + [e.id] else pending)
  }

  function VisitAll(marks: (set<Id>, seq<Id>), es: seq<TreeEntry>): (set<Id>, seq<Id>) {
    if es == [] then marks else Visit(VisitAll(marks, es[..|es| - 1]), es[|es| - 1])
  }

  method MarkEntries(entries: seq<TreeEntry>, live0: set<Id>, pending0: seq<Id>)
    returns (live: set<Id>, pending: seq<Id>)
    ensures (live, pending) == VisitAll((live0, pending0), entries)
  {
    live, pending := live0, pending0;
    for i := 0 to |entries|
      invariant (live, pending) == VisitAll((live0, pending0), entries[..i])
    {
      assert entries[..i + 1][..i] == entries[..i];
      var entry := entries[i];
      if entry.id !in live {
        live := live + {entry.id};
        if entry.typ == DIRECTORY {
          pending := pending + [entry.id];
        }
      }
    }
    assert entries[..|entries|] == entries;
  }

  ghost predicate Lists(es: seq<TreeEntry>, id: Id, directory: bool) {
    exists e :: e in es && e.id == id && (e.typ == DIRECTORY <==> directory)
  }

  lemma {:induction false} VisitAllMeans(marks: (set<Id>, seq<Id>), es: seq<TreeEntry>)
    ensures var (live, pending) := VisitAll(marks, es);
            && live == marks.0 + Ids(es)
            && (forall t :: t in marks.1 ==> t in pending)
            && (forall t :: t in pending ==> t in marks.1 || Lists(es, t, true))
            && (forall t :: t in live && t !in marks.0 && t !in pending ==> Lists(es, t, false))
            && (pending == marks.1 || marks.0 < live)
  {
    if es != [] {
      var init, last := es[..|es| - 1], es[|es| - 1];
      assert es == init + [last];
      VisitAllMeans(marks, init);
      assert Ids(es) == Ids(init) + {last.id};
      forall t, d | Lists(init, t, d) ensures Lists(es, t, d) {
        var e :| e in init && e.id == t && (e.typ == DIRECTORY <==> d);
        assert e in es;
      }
      assert Lists(es, last.id, last.typ == DIRECTORY) by { assert last in es; }
    }
  }

  lemma SplitLast(ids: seq<Id>)
    requires ids != []
    ensures ids == ids[..|ids| - 1] + [ids[|ids| - 1]]
  {
  }

  lemma TurnShrinks(objs: Objs, live: set<Id>, rest: seq<Id>, id: Id)
    requires ReadTree(objs, id).Ok?
    ensures var (live', pending') := VisitAll((live, rest), Listing(objs[id]));
            var all := AllListed(objs);
            |all - live'| < |all - live| || (live' == live && pending' == rest)
  {
    var es := Listing(objs[id]);
    VisitAllMeans((live, rest), es);
    var live' := VisitAll((live, rest), es).0;
    if live < live' { Shrinks(AllListed(objs), live, live'); }
  }

  // ---------------------------------------------------------------- the marking of one root

  /** How a marking ends: what is marked, and the ids whose listings were followed. */
  datatype Marks = Marks(result: Result<()>, live: set<Id>, expanded: set<Id>)

  /** The outer loop by recursion. The last id is taken off; a listing that cannot be read ends it. */
  function MarkFrom(objs: Objs, live: set<Id>, pending: seq<Id>, expanded: set<Id>): Marks
    decreases |AllListed(objs) - live|, |pending|
  {
    if pending == [] then Marks(Ok(()), live, expanded)
    else
      var id, rest := pending[|pending| - 1], pending[..|pending| - 1];
      var es := ReadTree(objs, id);
      if es.Err? then Marks(Err(es.error), live, expanded)
      else
        TurnShrinks(objs, live, rest, id);
        var (live', pending') := VisitAll((live, rest), es.value);
        MarkFrom(objs, live', pending', expanded + {id})
  }

  function MarkRoot(objs: Objs, root: Id, live0: set<Id>): Marks {
    MarkFrom(objs, live0 + {root}, if root in live0 then [] else [root], {})
  }

  /** One turn of the loop, and that it comes closer to the end. */
  lemma MarkTurn(objs: Objs, live: set<Id>, pending: seq<Id>, expanded: set<Id>)
    requires pending != [] && ReadTree(objs, pending[|pending| - 1]).Ok?
    ensures var id, rest, all := pending[|pending| - 1], pending[..|pending| - 1], AllListed(objs);
            var (live', pending') := VisitAll((live, rest), ReadTree(objs, id).value);
            && MarkFrom(objs, live, pending, expanded) == MarkFrom(objs, live', pending', expanded + {id})
            && (|all - live'| < |all - live| || (live' == live && |pending'| < |pending|))
  {
    TurnShrinks(objs, live, pending[..|pending| - 1], pending[|pending| - 1]);
  }

  /** `mark_live`. It ends on every table, whatever its objects hold: shared, cyclic, missing or corrupt listings. */
  method MarkLive(objs: Objs, root: Id, live0: set<Id>) returns (r: Result<()>, live: set<Id>, ghost expanded: set<Id>)
    ensures r == MarkRoot(objs, root, live0).result && live == MarkRoot(objs, root, live0).live
    ensures expanded == MarkRoot(objs, root, live0).expanded
  {
    var pending: seq<Id> := [];
    live, expanded := live0, {};
    if root !in live {
      live := live + {root};
      pending := [root];
    }
    assert live == live0 + {root};
    while pending != []
      invariant MarkFrom(objs, live, pending, expanded) == MarkRoot(objs, root, live0)
      decreases |AllListed(objs) - live|, |pending|
    {
      var id := pending[|pending| - 1];
      var rest := pending[..|pending| - 1];
      var listing := ReadTree(objs, id);
      if listing.Err? {
        return Err(listing.error), live, expanded;
      }
      MarkTurn(objs, live, pending, expanded);
      live, pending := MarkEntries(listing.value, live, rest);
      expanded := expanded + {id};
    }
    r := Ok(());
  }

  /** Closed under the directory edges of the listings that can be read. */
  ghost predicate DirClosed(objs: Objs, s: set<Id>) {
    forall x :: x in s && ReadTree(objs, x).Ok? ==>
      forall e :: e in Listing(objs[x]) && e.typ == DIRECTORY ==> e.id in s
  }

  /** Some followed listing has the id, as a directory or as something else. */
  ghost predicate Sighted(objs: Objs, expanded: set<Id>, id: Id, directory: bool) {
    exists x :: x in expanded && ReadTree(objs, x).Ok? && Lists(Listing(objs[x]), id, directory)
  }

  /** Every followed listing can be read and has all its ids marked. */
  ghost predicate Followed(objs: Objs, live: set<Id>, expanded: set<Id>) {
    forall x :: x in expanded ==> x in live && ReadTree(objs, x).Ok? && Ids(Listing(objs[x])) <= live
  }

  /** Nothing is followed but what lies on directory edges from the root. */
  ghost predicate OnlyDirs(objs: Objs, root: Id, expanded: set<Id>) {
    forall s: set<Id> :: root in s && DirClosed(objs, s) ==> expanded <= s
  }

  /** What a marking amounts to, on any table. */
  ghost predicate Outcome(objs: Objs, root: Id, live0: set<Id>, m: Marks) {
    && live0 + {root} <= m.live && Followed(objs, m.live, m.expanded)
    && (forall t :: t in m.live ==>
          t in live0 + {root} || Sighted(objs, m.expanded, t, true) || Sighted(objs, m.expanded, t, false))
    && OnlyDirs(objs, root, m.expanded)
    && (root in live0 ==> m == Marks(Ok(()), live0, {}))
    && (m.result.Ok? ==>
          && (root in live0 || root in m.expanded)
          && forall t :: t in m.live ==> t in live0 || t in m.expanded || Sighted(objs, m.expanded, t, false))
    && (m.result.Err? ==>
          exists t :: t in m.live && ReadTree(objs, t) == Err(m.result.error)
                      && (t == root || Sighted(objs, m.expanded, t, true)))
  }

  /** The same in the middle of the loop, when there are ids left to follow. */
  ghost predicate Midway(objs: Objs, root: Id, live0: set<Id>, live: set<Id>, pending: seq<Id>, expanded: set<Id>) {
    && root !in live0 && live0 + {root} <= live && Followed(objs, live, expanded)
    && (forall t :: t in live ==>
          t in live0 + {root} || Sighted(objs, expanded, t, true) || Sighted(objs, expanded, t, false))
    && OnlyDirs(objs, root, expanded)
    && (forall t :: t in pending ==> t in live && (t == root || Sighted(objs, expanded, t, true)))
    && (forall t :: t in live ==> t in live0 || t in expanded || t in pending || Sighted(objs, expanded, t, false))
    && (root in expanded || root in pending)
  }

  lemma OnlyDirsStep(objs: Objs, root: Id, expanded: set<Id>, id: Id)
    requires OnlyDirs(objs, root, expanded) && (id == root || Sighted(objs, expanded, id, true))
    ensures OnlyDirs(objs, root, expanded + {id})
  {
    forall s: set<Id> | root in s && DirClosed(objs, s) ensures id in s {
      if id != root {
        var x :| x in expanded && ReadTree(objs, x).Ok? && Lists(Listing(objs[x]), id, true);
        assert x in s;
      }
    }
  }

  lemma SightedGrows(objs: Objs, expanded: set<Id>, id: Id, t: Id, directory: bool)
    requires Sighted(objs, expanded, t, directory) || (ReadTree(objs, id).Ok? && Lists(Listing(objs[id]), t, directory))
    ensures Sighted(objs, expanded + {id}, t, directory)
  {
    if Sighted(objs, expanded, t, directory) {
      var x :| x in expanded && ReadTree(objs, x).Ok? && Lists(Listing(objs[x]), t, directory);
      assert x in expanded + {id};
    } else {
      assert id in expanded + {id};
    }
  }

  lemma ListedSomehow(es: seq<TreeEntry>, t: Id)
    requires t in Ids(es)
    ensures Lists(es, t, true) || Lists(es, t, false)
  {
    var e :| e in es && e.id == t;
    assert Lists(es, t, e.typ == DIRECTORY);
  }

  lemma MidwaySightings(objs: Objs, live0: set<Id>, root: Id, live: set<Id>, expanded: set<Id>, id: Id)
    requires ReadTree(objs, id).Ok?
    requires forall t :: t in live ==>
               t in live0 + {root} || Sighted(objs, expanded, t, true) || Sighted(objs, expanded, t, false)
    ensures forall t :: t in live + Ids(Listing(objs[id])) ==>
              t in live0 + {root} || Sighted(objs, expanded + {id}, t, true) || Sighted(objs, expanded + {id}, t, false)
  {
    forall t | t in live + Ids(Listing(objs[id])) && t !in live0 + {root}
      ensures Sighted(objs, expanded + {id}, t, true) || Sighted(objs, expanded + {id}, t, false)
    {
      if t in live {
        SightedGrows(objs, expanded, id, t, Sighted(objs, expanded, t, true));
      } else {
        ListedSomehow(Listing(objs[id]), t);
        SightedGrows(objs, expanded, id, t, Lists(Listing(objs[id]), t, true));
      }
    }
  }

  lemma MidwayPending(objs: Objs, root: Id, live0: set<Id>, live: set<Id>, rest: seq<Id>, expanded: set<Id>, id: Id)
    requires Midway(objs, root, live0, live, rest + [id], expanded) && ReadTree(objs, id).Ok?
    ensures var (live', pending') := VisitAll((live, rest), Listing(objs[id]));
            && (forall t :: t in pending' ==> t in live' && (t == root || Sighted(objs, expanded + {id}, t, true)))
            && (forall t :: t in live' ==>
                  t in live0 || t in expanded + {id} || t in pending' || Sighted(objs, expanded + {id}, t, false))
            && (root in expanded + {id} || root in pending')
  {
    var es := Listing(objs[id]);
    var (live', pending') := VisitAll((live, rest), es);
    VisitAllMeans((live, rest), es);
    assert forall t :: t in rest + [id] <==> t in rest || t == id;
    forall t | t in pending' ensures t in live' && (t == root || Sighted(objs, expanded + {id}, t, true)) {
      if t in rest { assert t in rest + [id]; }
      if t != root { SightedGrows(objs, expanded, id, t, true); }
    }
    forall t | t in live' && t !in live0 && t !in expanded + {id} && t !in pending'
      ensures Sighted(objs, expanded + {id}, t, false)
    {
      SightedGrows(objs, expanded, id, t, false);
    }
  }

  lemma MidwayStep(objs: Objs, root: Id, live0: set<Id>, live: set<Id>, rest: seq<Id>, expanded: set<Id>, id: Id)
    requires Midway(objs, root, live0, live, rest + [id], expanded) && ReadTree(objs, id).Ok?
    ensures var (live', pending') := VisitAll((live, rest), Listing(objs[id]));
            Midway(objs, root, live0, live', pending', expanded + {id})
  {
    assert id in rest + [id];
    VisitAllMeans((live, rest), Listing(objs[id]));
    OnlyDirsStep(objs, root, expanded, id);
    MidwaySightings(objs, live0, root, live, expanded, id);
    MidwayPending(objs, root, live0, live, rest, expanded, id);
  }

  lemma {:induction false} MarkFromMeans(objs: Objs, root: Id, live0: set<Id>, live: set<Id>, pending: seq<Id>,
                                         expanded: set<Id>)
    requires Midway(objs, root, live0, live, pending, expanded)
    ensures Outcome(objs, root, live0, MarkFrom(objs, live, pending, expanded))
    decreases |AllListed(objs) - live|, |pending|
  {
    if pending != [] {
      var id, rest := pending[|pending| - 1], pending[..|pending| - 1];
      SplitLast(pending);
      assert id in pending;
      if ReadTree(objs, id).Ok? {
        TurnShrinks(objs, live, rest, id);
        MidwayStep(objs, root, live0, live, rest, expanded, id);
        var (live', pending') := VisitAll((live, rest), Listing(objs[id]));
        MarkFromMeans(objs, root, live0, live', pending', expanded + {id});
      }
    }
  }

  /**
   * What a marking does on an arbitrary table. It marks the root and the ids of the listings it follows, nothing else;
   * it follows only directories on the way from the root; an error is the one of a listing it had to read. If it ends
   * well, every newly marked id was followed or first sighted as something other than a directory.
   */
  lemma MarkRootMeans(objs: Objs, root: Id, live0: set<Id>)
    ensures Outcome(objs, root, live0, MarkRoot(objs, root, live0))
  {
    if root in live0 {
      assert live0 + {root} == live0;
    } else {
      MarkFromMeans(objs, root, live0, live0 + {root}, [root], {});
    }
  }

  // ---------------------------------------------------------------- with blobs and trees apart

  /** An id listed as a file points nowhere, even if it is present as the empty tree. */
  lemma FilePointsNowhere(prim: Prim, pools: Pools, objs: Objs, content: Bytes, t: Id)
    requires PoolsOk(prim, pools) && Named(prim, pools, objs) && content in pools.trees && Lists(Listing(content), t, false)
    ensures Succ(pools, objs, t) == {}
  {
    var e :| e in Listing(content) && e.id == t && e.typ != DIRECTORY;
    if t in objs && objs[t] in pools.trees { SharedIsEmpty(prim, pools, objs, t); }
  }

  /** Trees list only trees as directories, so a set of tree ids closed under all edges is closed under those. */
  lemma TreesDirClosed(prim: Prim, pools: Pools, objs: Objs, s: set<Id>)
    requires PoolsOk(prim, pools) && Named(prim, pools, objs) && ClosedSet(pools, objs, s)
    ensures DirClosed(objs, set t | t in s && t in TreeIds(prim, pools))
  {
    var d := set t | t in s && t in TreeIds(prim, pools);
    forall x, e | x in d && ReadTree(objs, x).Ok? && e in Listing(objs[x]) && e.typ == DIRECTORY ensures e.id in d {
      TreePresent(prim, pools, objs, x);
      assert Succ(pools, objs, x) <= s && e.id in Succ(pools, objs, x);
    }
  }

  lemma FollowedAreTrees(prim: Prim, pools: Pools, objs: Objs, root: Id, expanded: set<Id>, s: set<Id>)
    requires PoolsOk(prim, pools) && Named(prim, pools, objs) && root in TreeIds(prim, pools)
    requires OnlyDirs(objs, root, expanded) && root in s && ClosedSet(pools, objs, s)
    ensures expanded <= s && forall x :: x in expanded ==> x in TreeIds(prim, pools)
  {
    TreesDirClosed(prim, pools, objs, s);
    assert expanded <= set t | t in s && t in TreeIds(prim, pools);
  }

  /** Every id there is, closed trivially. */
  lemma AllIsClosed(pools: Pools, objs: Objs, root: Id)
    ensures ClosedSet(pools, objs, AllListed(objs) + {root})
  {
  }

  lemma MarksClosed(prim: Prim, pools: Pools, objs: Objs, root: Id, live0: set<Id>, m: Marks)
    requires PoolsOk(prim, pools) && Named(prim, pools, objs) && root in TreeIds(prim, pools)
    requires ClosedSet(pools, objs, live0) && Outcome(objs, root, live0, m) && m.result.Ok?
    ensures ClosedSet(pools, objs, m.live)
  {
    AllIsClosed(pools, objs, root);
    FollowedAreTrees(prim, pools, objs, root, m.expanded, AllListed(objs) + {root});
    forall t | t in m.live ensures Succ(pools, objs, t) <= m.live {
      if t in live0 {
        assert Succ(pools, objs, t) <= live0;
      } else if t !in m.expanded {
        var x :| x in m.expanded && ReadTree(objs, x).Ok? && Lists(Listing(objs[x]), t, false);
        TreePresent(prim, pools, objs, x);
        FilePointsNowhere(prim, pools, objs, objs[x], t);
      }
    }
  }

  lemma SightedStays(prim: Prim, pools: Pools, objs: Objs, s: set<Id>, expanded: set<Id>, t: Id, directory: bool)
    requires PoolsOk(prim, pools) && Named(prim, pools, objs) && ClosedSet(pools, objs, s)
    requires expanded <= s && (forall x :: x in expanded ==> x in TreeIds(prim, pools))
    requires Sighted(objs, expanded, t, directory)
    ensures t in s
  {
    var x :| x in expanded && ReadTree(objs, x).Ok? && Lists(Listing(objs[x]), t, directory);
    TreePresent(prim, pools, objs, x);
    assert Succ(pools, objs, x) <= s && t in Succ(pools, objs, x);
  }

  lemma MarksAtMost(prim: Prim, pools: Pools, objs: Objs, root: Id, live0: set<Id>, m: Marks)
    requires PoolsOk(prim, pools) && Named(prim, pools, objs) && root in TreeIds(prim, pools)
    requires Outcome(objs, root, live0, m)
    ensures AtMost(pools, objs, live0 + {root}, m.live)
  {
    forall s: set<Id> | live0 + {root} <= s && ClosedSet(pools, objs, s) ensures m.live <= s {
      FollowedAreTrees(prim, pools, objs, root, m.expanded, s);
      forall t | t in m.live ensures t in s {
        if t !in live0 + {root} {
          SightedStays(prim, pools, objs, s, m.expanded, t, Sighted(objs, m.expanded, t, true));
        }
      }
    }
  }

  /** In a closed table only the root itself can be missing, and then nothing else was marked. */
  lemma MarksFail(prim: Prim, pools: Pools, objs: Objs, root: Id, live0: set<Id>, m: Marks)
    requires PoolsOk(prim, pools) && Closed(prim, pools, objs) && root in TreeIds(prim, pools)
    requires Outcome(objs, root, live0, m)
    ensures m.result.Ok? <==> root in live0 || root in objs
    ensures m.result.Err? ==> m.result.error == MissingTree && m.live == live0 + {root}
  {
    if m.result.Err? {
      var t :| t in m.live && ReadTree(objs, t) == Err(m.result.error) && (t == root || Sighted(objs, m.expanded, t, true));
      AllIsClosed(pools, objs, root);
      FollowedAreTrees(prim, pools, objs, root, m.expanded, AllListed(objs) + {root});
      if t != root {
        var x :| x in m.expanded && ReadTree(objs, x).Ok? && Lists(Listing(objs[x]), t, true);
        TreePresent(prim, pools, objs, x);
        assert t in objs && t in TreeIds(prim, pools);
      }
      if t in objs && t in TreeIds(prim, pools) { TreePresent(prim, pools, objs, t); }
      assert t == root && root !in objs;
      assert DirClosed(objs, {root});
      assert m.expanded == {};
      assert m.live == live0 + {root};
    }
  }

  /**
   * With blobs and trees apart, a marking that ends well leaves the least closed set over what was marked before and
   * the root. In a closed table it does so exactly when the root is present (or was marked before); otherwise it marked
   * only the root's own id.
   */
  lemma MarkRootReaches(prim: Prim, pools: Pools, objs: Objs, root: Id, live0: set<Id>)
    requires PoolsOk(prim, pools) && Named(prim, pools, objs) && root in TreeIds(prim, pools)
    requires ClosedSet(pools, objs, live0)
    ensures var m := MarkRoot(objs, root, live0);
            && (m.result.Ok? ==> IsReach(pools, objs, live0 + {root}, m.live))
            && (Closed(prim, pools, objs) ==>
                  && (m.result.Ok? <==> root in live0 || root in objs)
                  && (m.result.Err? ==> m.result.error == MissingTree && m.live == live0 + {root}))
  {
    var m := MarkRoot(objs, root, live0);
    MarkRootMeans(objs, root, live0);
    MarksAtMost(prim, pools, objs, root, live0, m);
    if m.result.Ok? { MarksClosed(prim, pools, objs, root, live0, m); }
    if Closed(prim, pools, objs) { MarksFail(prim, pools, objs, root, live0, m); }
  }
}
