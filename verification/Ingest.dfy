/** `ingest_archive`: tar items into the store, and what looking paths up in the result gives. */
module Ingest {
  import opened Basics
  import opened Primitives
  import opened TreeCodec
  import opened Paths
  import opened Cas
  import opened Objects
  import opened MemTree
  import opened TarFold
  import opened Lifetime
  import opened Gc
  import opened Flush
  import opened Walker
  import Stamps

  // ---------------------------------------------------------------- what the fold builds

  /** The files of the tree are present as blobs. */
  predicate LeavesIn(objs: Objs, n: MemNode) {
    (!IsDir(n) ==> n.id in objs) && forall k :: k in n.children ==> LeavesIn(objs, n.children[k])
  }

  lemma {:induction false} LeavesGrow(objs: Objs, objs': Objs, n: MemNode)
    requires LeavesIn(objs, n) && objs.Keys <= objs'.Keys
    ensures LeavesIn(objs', n)
    decreases n
  {
    forall k | k in n.children ensures LeavesIn(objs', n.children[k]) { LeavesGrow(objs, objs', n.children[k]); }
  }

  lemma {:induction false} LeavesAt(objs: Objs, n: MemNode, path: Path)
    requires LeavesIn(objs, n) && At(n, path).Some?
    ensures LeavesIn(objs, At(n, path).value)
  {
    if path != [] { LeavesAt(objs, n.children[path[0]], path[1..]); }
  }

  /** Adding a well-built node under clean names keeps the tree well built. */
  lemma {:induction false} BuiltAfterAdd(n: MemNode, comps: Path, node: MemNode, isRoot: bool)
    requires Built(n) && Built(node) && AllClean(comps) && Add(n, comps, node, isRoot).Ok?
    ensures var m := Add(n, comps, node, isRoot).value;
            Built(m) && (isRoot && IsDir(n) ==> IsDir(m))
    decreases |comps|
  {
    if comps != [] {
      assert Clean(comps[0]);
      BuiltAfterAdd(Child(n, comps[0]), comps[1..], node, false);
    }
  }

  /** And files stay present. */
  lemma {:induction false} LeavesAfterAdd(objs: Objs, n: MemNode, comps: Path, node: MemNode, isRoot: bool)
    requires LeavesIn(objs, n) && LeavesIn(objs, node) && Add(n, comps, node, isRoot).Ok?
    ensures LeavesIn(objs, Add(n, comps, node, isRoot).value)
    decreases |comps|
  {
    if comps != [] {
      LeavesAfterAdd(objs, Child(n, comps[0]), comps[1..], node, false);
    }
  }

  /** A built tree whose files are present and whose listings are expected can be flushed. */
  lemma {:induction false} BuiltIsReady(prim: Prim, pools: Pools, objs: Objs, n: MemNode)
    requires Built(n) && LeavesIn(objs, n) && InPools(prim, pools, n)
    ensures Ready(prim, pools, objs, n)
    decreases n
  {
    forall k | k in n.children ensures Ready(prim, pools, objs, n.children[k]) {
      BuiltIsReady(prim, pools, objs, n.children[k]);
    }
  }

  predicate StoresBlob(item: TarItem) {
    item.typ != HARDLINK && item.typ != DIRECTORY
  }

  /** How many of the items are directories or hard links. */
  function Skipped(items: seq<TarItem>): (n: nat)
    ensures n <= |items|
  {
    if items == [] then 0
    else Skipped(items[..|items| - 1]) + if StoresBlob(items[|items| - 1]) then 0 else 1
  }

  /** The items that are neither directories ('d') nor hard links ('h'). */
  function FileItems(items: seq<TarItem>): set<int> {
    set i | 0 <= i < |items| && items[i].typ !in {100, 104}
  }

  lemma {:induction false} FilesCounted(items: seq<TarItem>)
    ensures |items| - Skipped(items) == |FileItems(items)|
    decreases |items|
  {
    if items != [] {
      var n := |items| - 1;
      FilesCounted(items[..n]);
      if items[n].typ in {100, 104} {
        assert FileItems(items) == FileItems(items[..n]);
      } else {
        assert FileItems(items) == FileItems(items[..n]) + {n};
      }
    }
  }

  /** The first error ends the fold. */
  lemma {:induction false} FoldStops(prim: Prim, items: seq<TarItem>, i: nat)
    requires i <= |items| && Fold(prim, items[..i]).Err?
    ensures Fold(prim, items) == Fold(prim, items[..i])
    decreases |items|
  {
    if i < |items| {
      var init := items[..|items| - 1];
      assert init[..i] == items[..i];
      FoldStops(prim, init, i);
    } else {
      assert items[..i] == items;
    }
  }

  // ---------------------------------------------------------------- the fold on the store

  method LookupNode(root: MemNode, comps: Path) returns (r: Option<MemNode>)
    ensures r == At(root, comps)
  {
    var cur := root;
    assert comps[0..] == comps;
    for i := 0 to |comps|
      invariant At(root, comps) == At(cur, comps[i..])
    {
      if !IsDir(cur) || comps[i] !in cur.children {
        return None;
      }
      assert comps[i..][1..] == comps[i + 1..];
      cur := cur.children[comps[i]];
    }
    r := Some(cur);
  }

  /** The store in order, and the tree built with its files stored. */
  ghost predicate Folding(store: TreeStore, tree: Builder)
    reads store, tree
  {
    && store.Valid() && Sound(store.prim)
    && Built(tree.root) && IsDir(tree.root) && LeavesIn(store.db.objs, tree.root)
  }

  method AddBuiltNode(store: TreeStore, tree: Builder, comps: Path, node: MemNode) returns (r: Result<()>)
    requires Folding(store, tree) && AllClean(comps) && Built(node) && LeavesIn(store.db.objs, node)
    requires IsDir(node) ==> node == EmptyDir
    modifies tree
    ensures r.Ok? ==> Folding(store, tree)
    ensures match Add(old(tree.root), comps, node, true)
            case Err(e) => r == Err(e)
            case Ok(t) => r == Ok(()) && tree.root == t
  {
    ghost var before := tree.root;
    r := tree.AddNode(comps, node);
    if r.Ok? {
      BuiltAfterAdd(before, comps, node, true);
      LeavesAfterAdd(store.db.objs, before, comps, node, true);
    }
  }

  /** `apply_item`. The blob is put before the node is added, so it stays in the store even if the node is refused. */
  method ApplyItem(store: TreeStore, tree: Builder, item: TarItem) returns (r: Result<()>)
    requires Folding(store, tree) && ItemOk(item) && (StoresBlob(item) ==> item.data in store.pools.blobs)
    modifies store`db, store`log, tree
    ensures store.Valid() && OnlyPuts(old(store.db), old(store.log), store.db, store.log)
    ensures r.Ok? ==> Folding(store, tree)
    ensures match AddItem(store.prim, old(tree.root), item)
            case Err(e) => r == Err(e)
            case Ok(t) => r == Ok(()) && tree.root == t
  {
    var comps := SplitPath(item.path);
    if comps.None? {
      return Err(PathTooLong);
    }
    SplitIsClean(item.path);
    if item.typ == HARDLINK {
      var target := SplitPath(item.data);
      var node: Option<MemNode> := None;
      if target.Some? {
        node := LookupNode(tree.root, target.value);
      }
      if node.None? {
        return Err(LinkTargetMissing);
      }
      if IsDir(node.value) {
        return Err(LinkTargetDirectory);
      }
      BuiltAt(tree.root, target.value);
      LeavesAt(store.db.objs, tree.root, target.value);
      r := AddBuiltNode(store, tree, comps.value, MemNode(node.value.typ, node.value.id, map[]));
    } else if item.typ == DIRECTORY {
      r := AddBuiltNode(store, tree, comps.value, EmptyDir);
    } else {
      ghost var objs := store.db.objs;
      var id := store.PutBlob(item.data);
      LeavesGrow(objs, store.db.objs, tree.root);
      r := AddBuiltNode(store, tree, comps.value, MemNode(item.typ, id, map[]));
    }
  }

  /** With the first `i` items folded, since the store was at `db0`. */
  ghost predicate FoldState(store: TreeStore, tree: Builder, items: seq<TarItem>, i: nat, db0: Db, log0: seq<Cas>)
    reads store, tree
  {
    && i <= |items| && Folding(store, tree)
    && Fold(store.prim, items[..i]) == Ok(tree.root)
    && OnlyPuts(db0, log0, store.db, store.log)
  }

  method FoldNext(store: TreeStore, tree: Builder, items: seq<TarItem>, i: nat, ghost db0: Db, ghost log0: seq<Cas>)
    returns (r: Result<()>)
    requires i < |items| && FoldState(store, tree, items, i, db0, log0)
    requires ItemOk(items[i]) && (StoresBlob(items[i]) ==> items[i].data in store.pools.blobs)
    modifies store`db, store`log, tree
    ensures r.Ok? ==> FoldState(store, tree, items, i + 1, db0, log0)
    ensures r.Err? ==> store.Valid() && OnlyPuts(db0, log0, store.db, store.log) && Fold(store.prim, items) == Err(r.error)
  {
    FoldStep(store.prim, items, i);
    ghost var db, log := store.db, store.log;
    r := ApplyItem(store, tree, items[i]);
    OnlyPutsChain(db0, log0, db, log, store.db, store.log);
    if r.Err? { FoldStops(store.prim, items, i + 1); }
  }

  lemma FoldStep(prim: Prim, items: seq<TarItem>, i: nat)
    requires i < |items| && Fold(prim, items[..i]).Ok?
    ensures Fold(prim, items[..i + 1]) == AddItem(prim, Fold(prim, items[..i]).value, items[i])
    ensures Skipped(items[..i + 1]) == Skipped(items[..i]) + if StoresBlob(items[i]) then 0 else 1
  {
    assert items[..i + 1][..i] == items[..i];
  }

  lemma WholePrefix(items: seq<TarItem>)
    ensures items[..|items|] == items && items[..0] == []
  {
  }

  /** The consumer's loop, on the items in the order the queue delivers them. `files` counts what was put as a blob. */
  method FoldItems(store: TreeStore, tree: Builder, items: seq<TarItem>) returns (r: Result<nat>)
    requires Folding(store, tree) && tree.root == EmptyDir
    requires forall i :: 0 <= i < |items| ==> ItemOk(items[i]) && (StoresBlob(items[i]) ==> items[i].data in store.pools.blobs)
    modifies store`db, store`log, tree
    ensures store.Valid() && OnlyPuts(old(store.db), old(store.log), store.db, store.log)
    ensures r.Ok? ==> Folding(store, tree) && r.value == |items| - Skipped(items)
    ensures match Fold(store.prim, items)
            case Err(e) => r == Err(e)
            case Ok(t) => r.Ok? && tree.root == t
  {
    WholePrefix(items);
    var files := 0;
    for i := 0 to |items|
      invariant FoldState(store, tree, items, i, old(store.db), old(store.log))
      invariant files == i - Skipped(items[..i])
    {
      FoldStep(store.prim, items, i);
      var applied := FoldNext(store, tree, items, i, old(store.db), old(store.log));
      if applied.Err? {
        return Err(applied.error);
      }
      if StoresBlob(items[i]) {
        files := files + 1;
      }
    }
    r := Ok(files);
  }

  // ---------------------------------------------------------------- the whole ingest

  /** The items fit the contents considered: every file's data, and every listing of the tree they build. */
  ghost predicate ItemsKnown(prim: Prim, pools: Pools, items: seq<TarItem>) {
    && (forall i :: 0 <= i < |items| ==> ItemOk(items[i]) && (StoresBlob(items[i]) ==> items[i].data in pools.blobs))
    && (Fold(prim, items).Ok? ==> InPools(prim, pools, Fold(prim, items).value))
  }

  /** Registered, synced, collected: record and root are there if the stamp is not expired. */
  lemma RootStays(su: Setup, st: Snapshot, id: Id, registered: nat, now: nat)
    requires SnapshotOk(su, st) && id in st.db.objs
    requires var s := Stamps.RootStamp(st.pending, Stamps.RootKey(id, true), registered); s <= now < U64 && now < s + su.ttl
    ensures var key, st' := Stamps.RootKey(id, true), Ingested(su, st, id, registered, now);
            id in st'.db.objs && Stamps.StampRead(st'.db.meta, key, Stamps.RootStamp(st.pending, key, registered))
  {
    var key := Stamps.RootKey(id, true);
    var s := Stamps.RootStamp(st.pending, key, registered);
    var synced := Next(su, Next(su, st, Register(id, true, registered)), SyncAll(registered));
    Stamps.StampRoundTrip(s);
    assert synced.pending == map[] && synced.db.objs == st.db.objs && synced.db.meta[key] == Stamps.Be64(s);
    FreshRootStays(su, synced, Root(id, true), s, now);
  }

  /** And the collection of an ingest drops every other root that is ttl old. */
  lemma OtherRootsGo(su: Setup, st: Snapshot, id: Id, registered: nat, now: nat, root: Root, t: nat)
    requires root != Root(id, true) && Stamps.StampRead(Stamps.Flushed(st.db.meta, st.pending), root.Key(), t)
    requires t + su.ttl <= now < U64
    requires Collects(su, Next(su, Next(su, st, Register(id, true, registered)), SyncAll(registered)), now)
    ensures root.Key() !in Ingested(su, st, id, registered, now).db.meta
  {
    OtherStampKept(su, st, id, registered, root, t);
    var synced := Next(su, Next(su, st, Register(id, true, registered)), SyncAll(registered));
    OldRootGoes(su, synced, root, t, now);
    IngestedBySync(su, st, id, registered, now, synced);
  }

  lemma IngestedBySync(su: Setup, st: Snapshot, id: Id, registered: nat, now: nat, synced: Snapshot)
    requires synced == Next(su, Next(su, st, Register(id, true, registered)), SyncAll(registered))
    ensures Ingested(su, st, id, registered, now) == AfterGc(su, synced, now)
  {
  }

  lemma OtherStampKept(su: Setup, st: Snapshot, id: Id, registered: nat, root: Root, t: nat)
    requires root != Root(id, true) && Stamps.StampRead(Stamps.Flushed(st.db.meta, st.pending), root.Key(), t)
    ensures var synced := Next(su, Next(su, st, Register(id, true, registered)), SyncAll(registered));
            synced.pending == map[] && Stamps.StampRead(synced.db.meta, root.Key(), t)
  {
    assert Stamps.RootKey(id, true)[1..] == id && root.Key()[1..] == root.id;
    assert root.Key() != Stamps.RootKey(id, true);
  }

  /** The end of an ingest: register, sync, collect. */
  method KeepRoot(store: TreeStore, id: Id, registered: nat, now: nat)
    requires store.Valid() && id in TreeIds(store.prim, store.pools) && id in store.db.objs
    modifies store
    ensures store.Valid() && store.Settled() && old(store.log) <= store.log
    ensures CrashesInOrder(store.prim, store.pools, store.log)
    ensures store.Snap() == Ingested(store.Config(), old(store.Snap()), id, registered, now) && store.pendingTouch == map[]
  {
    store.RegisterRoot(id, true, registered);
    store.Sync(registered);
    var collected;
    ghost var live;
    collected, live := store.MaybeGc(now);
  }

  /** Before that the tree is flushed. `put` are the objects by then. */
  method FinishIngest(store: TreeStore, tree: Builder, registered: nat, now: nat) returns (id: Id, ghost put: Objs)
    requires Folding(store, tree) && InPools(store.prim, store.pools, tree.root)
    modifies store, tree
    ensures store.Valid() && store.Settled() && id == IdOf(store.prim, old(tree.root)) && old(store.log) <= store.log
    ensures CrashesInOrder(store.prim, store.pools, store.log)
    ensures old(store.db).objs.Keys <= put.Keys && id in put && store.pendingTouch == map[]
    ensures store.Snap() == Ingested(store.Config(), Snapshot(Db(put, old(store.db).meta), old(store.pendingTouch)), id,
                                     registered, now)
    ensures var s := Stamps.RootStamp(old(store.pendingTouch), Stamps.RootKey(id, true), registered);
            s <= now < U64 && now < s + store.ttl ==>
              id in store.db.objs && Stamps.StampRead(store.db.meta, Stamps.RootKey(id, true), s)
  {
    BuiltIsReady(store.prim, store.pools, store.db.objs, tree.root);
    id := FlushTree(store, tree);
    put := store.db.objs;
    ghost var su, st := store.Config(), store.Snap();
    ghost var s := Stamps.RootStamp(st.pending, Stamps.RootKey(id, true), registered);
    if s <= now < U64 && now < s + su.ttl {
      RootStays(su, st, id, registered, now);
    }
    assert id in TreeIds(store.prim, store.pools);
    KeepRoot(store, id, registered, now);
  }

  /**
   * `ingest_archive`. It fails with the fold's error, or with the reader's once everything was delivered, with nothing
   * done but puts. Otherwise the root is the canonical id of the folded tree; it is registered, everything is synced,
   * and a collection is run; the root and its record are there unless its own stamp is already expired. A crash on the
   * way, wherever the puts sync, leaves a table in which every tree root stands for its whole tree.
   */
  method IngestArchive(store: TreeStore, items: seq<TarItem>, readError: Option<Error>, registered: nat, now: nat)
    returns (r: Result<(Id, nat)>, ghost put: Objs)
    requires store.Valid() && Sound(store.prim) && ItemsKnown(store.prim, store.pools, items)
    modifies store
    ensures store.Valid() && old(store.log) <= store.log && (r.Ok? ==> store.Settled())
    ensures CrashesInOrder(store.prim, store.pools, store.log)
    ensures Fold(store.prim, items).Err? ==> r == Err(Fold(store.prim, items).error)
    ensures Fold(store.prim, items).Ok? && readError.Some? ==> r == Err(readError.value)
    ensures r.Err? ==> OnlyPuts(old(store.db), old(store.log), store.db, store.log) && store.pendingTouch == old(store.pendingTouch)
    ensures Fold(store.prim, items).Ok? && readError.None? ==>
              r.Ok? && r.value.0 == IdOf(store.prim, Fold(store.prim, items).value) && r.value.1 == |FileItems(items)|
    ensures r.Ok? ==>
              && old(store.db).objs.Keys <= put.Keys && r.value.0 in put && store.pendingTouch == map[]
              && store.Snap() == Ingested(store.Config(), Snapshot(Db(put, old(store.db).meta), old(store.pendingTouch)),
                                          r.value.0, registered, now)
    ensures r.Ok? ==>
              var key := Stamps.RootKey(r.value.0, true);
              var s := Stamps.RootStamp(old(store.pendingTouch), key, registered);
              s <= now < U64 && now < s + store.ttl ==> r.value.0 in store.db.objs && Stamps.StampRead(store.db.meta, key, s)
  {
    var tree := new Builder();
    var folded := FoldItems(store, tree, items);
    CrashLeavesInOrder(store.prim, store.pools, store.log);
    put := store.db.objs;
    FilesCounted(items);
    if folded.Err? {
      return Err(folded.error), put;
    }
    if readError.Some? {
      return Err(readError.value), put;
    }
    var id;
    id, put := FinishIngest(store, tree, registered, now);
    r := Ok((id, folded.value));
  }
}
