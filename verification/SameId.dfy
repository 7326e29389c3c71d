/** The two ingests agree: tar items flushed breadth-first, and an object in memory put recursively. */
module SameId {
  import opened Basics
  import opened Primitives
  import opened TreeCodec
  import opened Objects
  import opened MemTree
  import opened TarFold
  import opened Flush
  import opened Walker
  import opened Ingest
  import opened EndToEnd
  import opened EvalStore

  /** What the object has at a path. */
  function FileAt(f: MemFile, path: Path): Option<Kind>
    decreases |path|
  {
    match f
    case Regular(exec, contents) => if path == [] then Some(File(if exec then EXECUTABLE else REGULAR, contents)) else None
    case Symlink(target) => if path == [] then Some(File(SYMLINK, target)) else None
    case Directory(entries) =>
      if path == [] then Some(Folder)
      else if path[0] in entries then FileAt(entries[path[0]], path[1..])
      else None
  }

  lemma {:induction false} NodeShows(prim: Prim, f: MemFile, path: Path)
    ensures At(ToNode(prim, f), path).Some? <==> FileAt(f, path).Some?
    ensures FileAt(f, path).Some? ==> Shows(prim, At(ToNode(prim, f), path).value, FileAt(f, path).value)
    decreases |path|
  {
    if path != [] && f.Directory? && path[0] in f.entries {
      NodeShows(prim, f.entries[path[0]], path[1..]);
    }
  }

  lemma {:induction false} FileKnown(prim: Prim, pools: Pools, f: MemFile, path: Path)
    requires Known(prim, pools, f) && FileAt(f, path).Some? && FileAt(f, path).value.File?
    ensures FileAt(f, path).value.data in pools.blobs
    decreases |path|
  {
    if path != [] { FileKnown(prim, pools, f.entries[path[0]], path[1..]); }
  }

  predicate SameThere(f: MemFile, fs: PathMap, path: Path) {
    FileAt(f, path) == Lookup(fs, path)
  }

  lemma SameFsAgrees(prim: Prim, f: MemFile, fs: PathMap)
    requires forall p :: SameThere(f, fs, p)
    ensures Agree(prim, ToNode(prim, f), fs)
  {
    forall p
      ensures p in fs <==> At(ToNode(prim, f), p).Some?
      ensures p in fs ==> Shows(prim, At(ToNode(prim, f), p).value, fs[p])
    {
      assert SameThere(f, fs, p);
      NodeShows(prim, f, p);
    }
  }

  lemma AgreesSameFs(prim: Prim, pools: Pools, f: MemFile, fs: PathMap, p: Path)
    requires PoolsOk(prim, pools) && Known(prim, pools, f) && FilesKnown(pools, fs) && Agree(prim, ToNode(prim, f), fs)
    ensures SameThere(f, fs, p)
  {
    NodeShows(prim, f, p);
    if p in fs {
      assert Shows(prim, At(ToNode(prim, f), p).value, fs[p]);
      if fs[p].File? {
        FileKnown(prim, pools, f, p);
        assert fs[p].data in pools.blobs + pools.trees && FileAt(f, p).value.data in pools.blobs + pools.trees;
      }
    }
  }

  /**
   * A tarball and an object in memory get the same root id exactly when they have the same thing at every path,
   * although one is flushed breadth-first from a list and the other put by recursion.
   */
  lemma SameIdSameFiles(prim: Prim, pools: Pools, items: seq<TarItem>, f: MemFile)
    requires Sound(prim) && PoolsOk(prim, pools) && ItemsKnown(prim, pools, items) && Fold(prim, items).Ok?
    requires Known(prim, pools, f) && NamesFit(f) && f.Directory?
    ensures FoldPaths(items).Ok?
    ensures IdOf(prim, Fold(prim, items).value) == IdOf(prim, ToNode(prim, f))
            <==> forall p :: SameThere(f, FoldPaths(items).value, p)
  {
    FoldAgrees(prim, items);
    FoldBuilds(prim, items);
    FoldKnown(pools, items);
    NodeBuilt(prim, f);
    NodeInPools(prim, pools, f);
    var a, b, fs := Fold(prim, items).value, ToNode(prim, f), FoldPaths(items).value;
    if IdOf(prim, a) == IdOf(prim, b) {
      IdDeterminesTree(prim, pools, a, b);
      forall p ensures SameThere(f, fs, p) { AgreesSameFs(prim, pools, f, fs, p); }
    }
    if forall p :: SameThere(f, fs, p) {
      SameFsAgrees(prim, f, fs);
      SameFsSameTree(prim, a, b, fs);
    }
  }
}
