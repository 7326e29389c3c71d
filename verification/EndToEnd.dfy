/** From tar items to lookups, and from trees to root ids: the chain of simple forms the fast forms amount to. */
module EndToEnd {
  import opened Basics
  import opened Primitives
  import opened TreeCodec
  import opened Paths
  import opened Objects
  import opened MemTree
  import opened TarFold
  import opened Flush
  import opened Walker
  import opened Ingest

  ghost predicate FilesKnown(pools: Pools, fs: PathMap) {
    forall p :: p in fs && fs[p].File? ==> fs[p].data in pools.blobs
  }

  lemma AddKeepsKnown(pools: Pools, fs: PathMap, path: Path, kind: Kind)
    requires FilesKnown(pools, fs) && (kind.File? ==> kind.data in pools.blobs) && AddPath(fs, path, kind).Ok?
    ensures FilesKnown(pools, AddPath(fs, path, kind).value)
  {
  }

  lemma {:induction false} FoldKnown(pools: Pools, items: seq<TarItem>)
    requires forall i :: 0 <= i < |items| ==> StoresBlob(items[i]) ==> items[i].data in pools.blobs
    requires FoldPaths(items).Ok?
    ensures FilesKnown(pools, FoldPaths(items).value)
  {
    if items != [] {
      var init, item := items[..|items| - 1], items[|items| - 1];
      FoldKnown(pools, init);
      var fs := FoldPaths(init).value;
      var comps := Split(item.path).value;
      if item.typ == HARDLINK {
        AddKeepsKnown(pools, fs, comps, fs[Split(item.data).value]);
      } else {
        AddKeepsKnown(pools, fs, comps, if item.typ == DIRECTORY then Folder else File(item.typ, item.data));
      }
    }
  }

  lemma {:induction false} FoldBuilds(prim: Prim, items: seq<TarItem>)
    requires Sound(prim) && Fold(prim, items).Ok?
    requires forall i :: 0 <= i < |items| ==> ItemOk(items[i])
    ensures Built(Fold(prim, items).value) && IsDir(Fold(prim, items).value)
  {
    if items != [] {
      var init, item := items[..|items| - 1], items[|items| - 1];
      FoldBuilds(prim, init);
      var root := Fold(prim, init).value;
      SplitIsClean(item.path);
      var comps := Split(item.path).value;
      if item.typ == HARDLINK {
        var n := At(root, Split(item.data).value).value;
        BuiltAt(root, Split(item.data).value);
        BuiltAfterAdd(root, comps, MemNode(n.typ, n.id, map[]), true);
      } else {
        BuiltAfterAdd(root, comps,
                      if item.typ == DIRECTORY then EmptyDir else MemNode(item.typ, prim.hash(item.data), map[]), true);
      }
    }
  }

  /** What a lookup has to return for a path of the file system. */
  ghost predicate Answers(objs: Objs, r: Result<Option<TreeEntry>>, fs: PathMap, path: Path) {
    if path !in fs then r == Ok(None)
    else
      && r.Ok? && r.value.Some?
      && match fs[path]
         case Folder => r.value.value.typ == DIRECTORY && r.value.value.id in objs
         case File(typ, data) =>
           r.value.value.typ == typ && r.value.value.id in objs && objs[r.value.value.id] == data
  }

  lemma {:induction false} DirStored(prim: Prim, pools: Pools, objs: Objs, n: MemNode, path: Path)
    requires Sound(prim) && PoolsOk(prim, pools) && Closed(prim, pools, objs)
    requires Built(n) && InPools(prim, pools, n) && (IsDir(n) ==> IdOf(prim, n) in objs)
    requires At(n, path).Some? && (path != [] || IsDir(n))
    ensures IdOf(prim, At(n, path).value) in objs
  {
    if path != [] {
      ChildStored(prim, pools, objs, n, path[0]);
      if path[1..] != [] || IsDir(n.children[path[0]]) {
        DirStored(prim, pools, objs, n.children[path[0]], path[1..]);
      }
    }
  }

  /**
   * For any items the fold accepts: in any later closed table that still has the root, looking up any path through
   * encodings, listings and binary search gives what the path map has there, down to the bytes of the files.
   */
  lemma LookupsMatchItems(prim: Prim, pools: Pools, objs: Objs, items: seq<TarItem>, path: Path)
    requires Sound(prim) && PoolsOk(prim, pools) && Closed(prim, pools, objs) && ItemsKnown(prim, pools, items)
    requires Fold(prim, items).Ok? && IdOf(prim, Fold(prim, items).value) in objs
    ensures FoldPaths(items).Ok?
    ensures Answers(objs, Walk(objs, RootEntry(IdOf(prim, Fold(prim, items).value)), path), FoldPaths(items).value, path)
  {
    FoldAgrees(prim, items);
    FoldBuilds(prim, items);
    FoldKnown(pools, items);
    var root, fs := Fold(prim, items).value, FoldPaths(items).value;
    WalkFinds(prim, pools, objs, root, [], path);
    if path in fs {
      var n := At(root, path).value;
      assert Shows(prim, n, fs[path]);
      DirStored(prim, pools, objs, root, path);
      if fs[path].File? {
        assert fs[path].data in pools.blobs + pools.trees && objs[n.id] in pools.blobs + pools.trees;
      }
    }
  }

  // ---------------------------------------------------------------- canonical ids

  lemma SameListing(prim: Prim, pools: Pools, a: MemNode, b: MemNode)
    requires Sound(prim) && CollisionFree(prim, pools.blobs + pools.trees)
    requires Built(a) && Built(b) && InPools(prim, pools, a) && InPools(prim, pools, b)
    requires IsDir(a) && IsDir(b) && IdOf(prim, a) == IdOf(prim, b)
    ensures Entries(prim, a) == Entries(prim, b)
  {
    BuiltEntries(prim, a);
    BuiltEntries(prim, b);
    var ea, eb := Entries(prim, a), Entries(prim, b);
    assert Encoded(ea) in pools.blobs + pools.trees && Encoded(eb) in pools.blobs + pools.trees;
    DecodeEncode(ea);
    DecodeEncode(eb);
  }

  lemma SameChild(prim: Prim, a: MemNode, b: MemNode, k: Bytes)
    requires Entries(prim, a) == Entries(prim, b)
    ensures k in a.children <==> k in b.children
    ensures k in a.children ==>
              a.children[k].typ == b.children[k].typ && IdOf(prim, a.children[k]) == IdOf(prim, b.children[k])
  {
    FindChild(prim, a, k);
    FindChild(prim, b, k);
  }

  /** Trees with the same type and id are the same tree. */
  lemma {:induction false} IdDeterminesTree(prim: Prim, pools: Pools, a: MemNode, b: MemNode)
    requires Sound(prim) && CollisionFree(prim, pools.blobs + pools.trees)
    requires Built(a) && Built(b) && InPools(prim, pools, a) && InPools(prim, pools, b)
    requires a.typ == b.typ && IdOf(prim, a) == IdOf(prim, b)
    ensures a == b
    decreases a
  {
    if IsDir(a) {
      SameListing(prim, pools, a, b);
      forall k ensures k in a.children <==> k in b.children { SameChild(prim, a, b, k); }
      forall k | k in a.children ensures a.children[k] == b.children[k] {
        SameChild(prim, a, b, k);
        IdDeterminesTree(prim, pools, a.children[k], b.children[k]);
      }
      assert a.children == b.children;
    }
  }

  /** A built tree is determined by what is found at each path. */
  lemma {:induction false} PathsDetermineTree(a: MemNode, b: MemNode)
    requires Built(a) && Built(b)
    requires forall p :: At(a, p).Some? <==> At(b, p).Some?
    requires forall p :: At(a, p).Some? ==> At(a, p).value.typ == At(b, p).value.typ && At(a, p).value.id == At(b, p).value.id
    ensures a == b
    decreases a
  {
    assert At(a, []) == Some(a) && At(b, []) == Some(b);
    forall k ensures k in a.children <==> k in b.children {
      assert At(a, [k]).Some? <==> At(b, [k]).Some?;
      assert IsDir(a) && k in a.children ==> At(a, [k]) == At(a.children[k], []);
      assert IsDir(b) && k in b.children ==> At(b, [k]) == At(b.children[k], []);
    }
    forall k | k in a.children ensures a.children[k] == b.children[k] {
      forall p ensures At(a.children[k], p) == At(a, [k] + p) && At(b.children[k], p) == At(b, [k] + p) {
        assert ([k] + p)[1..] == p;
      }
      PathsDetermineTree(a.children[k], b.children[k]);
    }
    assert a.children == b.children;
  }

  lemma AgreeDetermines(prim: Prim, pools: Pools, root: MemNode, f: PathMap, g: PathMap)
    requires CollisionFree(prim, pools.blobs + pools.trees) && FilesKnown(pools, f) && FilesKnown(pools, g)
    requires Agree(prim, root, f) && Agree(prim, root, g)
    ensures f == g
  {
    forall p | p in f ensures f[p] == g[p] {
      assert p in g;
      assert Shows(prim, At(root, p).value, f[p]) && Shows(prim, At(root, p).value, g[p]);
      if f[p].File? {
        assert f[p].data in pools.blobs + pools.trees && g[p].data in pools.blobs + pools.trees;
      }
    }
    assert forall p :: p in g <==> p in f;
  }

  lemma SameFsSameTree(prim: Prim, a: MemNode, b: MemNode, fs: PathMap)
    requires Built(a) && Built(b) && Agree(prim, a, fs) && Agree(prim, b, fs)
    ensures a == b
  {
    forall p | At(a, p).Some? ensures At(a, p).value.typ == At(b, p).value.typ && At(a, p).value.id == At(b, p).value.id {
      assert p in fs;
      assert Shows(prim, At(a, p).value, fs[p]) && Shows(prim, At(b, p).value, fs[p]);
      BuiltAt(a, p);
      BuiltAt(b, p);
    }
    PathsDetermineTree(a, b);
  }

  /** Root ids are canonical: two ingests get the same id exactly when they mean the same file system. */
  lemma RootIdsCanonical(prim: Prim, pools: Pools, xs: seq<TarItem>, ys: seq<TarItem>)
    requires Sound(prim) && PoolsOk(prim, pools) && ItemsKnown(prim, pools, xs) && ItemsKnown(prim, pools, ys)
    requires Fold(prim, xs).Ok? && Fold(prim, ys).Ok?
    ensures FoldPaths(xs).Ok? && FoldPaths(ys).Ok?
    ensures IdOf(prim, Fold(prim, xs).value) == IdOf(prim, Fold(prim, ys).value) <==> FoldPaths(xs) == FoldPaths(ys)
  {
    FoldAgrees(prim, xs);
    FoldAgrees(prim, ys);
    FoldBuilds(prim, xs);
    FoldBuilds(prim, ys);
    FoldKnown(pools, xs);
    FoldKnown(pools, ys);
    var a, b := Fold(prim, xs).value, Fold(prim, ys).value;
    var f, g := FoldPaths(xs).value, FoldPaths(ys).value;
    if IdOf(prim, a) == IdOf(prim, b) {
      IdDeterminesTree(prim, pools, a, b);
      AgreeDetermines(prim, pools, a, f, g);
    }
    if f == g { SameFsSameTree(prim, a, b, f); }
  }
}
