/** Archives of ingested trees: they never fail on depth, and they are as canonical as the file systems they come from. */
module NarTrees {
  import opened Basics
  import opened Primitives
  import opened TreeCodec
  import opened Paths
  import opened Objects
  import opened MemTree
  import opened TarFold
  import opened Flush
  import opened Walker
  import opened Ingest
  import opened EndToEnd
  import E = EvalStore
  import opened NarFormat
  import opened NarDump

  function Content(objs: Objs, id: Id): Bytes {
    if id in objs then objs[id] else []
  }

  /** The object an in-memory node stands for. */
  function FsNode(objs: Objs, n: MemNode): Fs
    decreases n, 1
  {
    if !IsDir(n) then Leaf(n.typ, Content(objs, n.id))
    else
      var keys := SortedKeys(n.children.Keys);
      assert forall i :: 0 <= i < |keys| ==> keys[i] in keys;
      Directory(FsChildren(objs, n, keys))
  }

  function FsChildren(objs: Objs, n: MemNode, keys: seq<Bytes>): seq<FsEntry>
    requires forall i :: 0 <= i < |keys| ==> keys[i] in n.children
    decreases n, 0, |keys|
  {
    if keys == [] then [] else [FsEntry(keys[0], FsNode(objs, n.children[keys[0]]))] + FsChildren(objs, n, keys[1..])
  }

  /** No path in the tree is longer than `room`. */
  predicate Shallow(n: MemNode, room: nat)
    decreases room
  {
    forall k :: k in n.children ==> room > 0 && Shallow(n.children[k], room - 1)
  }

  /** At that depth, no descendant is deeper than the limit. */
  predicate Within(n: MemNode, depth: nat) {
    depth <= MAX_TREE_DEPTH && Shallow(n, MAX_TREE_DEPTH - depth)
  }

  /** Reading the entry gives the object the node stands for, or fails on depth exactly when the node is too deep. */
  predicate ReadsAs(objs: Objs, typ: Byte, id: Id, depth: nat, n: MemNode) {
    FsOf(objs, typ, id, depth) == if Within(n, depth) then Ok(FsNode(objs, n)) else Err(TreeTooDeep)
  }

  /** A node whose tree is stored in a closed table. */
  ghost predicate TreeStored(prim: Prim, pools: Pools, objs: Objs, n: MemNode) {
    && Sound(prim) && PoolsOk(prim, pools) && Closed(prim, pools, objs)
    && Built(n) && InPools(prim, pools, n) && IdOf(prim, n) in objs
  }

  lemma StoredChild(prim: Prim, pools: Pools, objs: Objs, n: MemNode, name: Bytes)
    requires TreeStored(prim, pools, objs, n) && IsDir(n) && name in n.children
    ensures TreeStored(prim, pools, objs, n.children[name])
  {
    ChildStored(prim, pools, objs, n, name);
  }

  /** The entries `es` are those of the children `keys`, each read as it should be. */
  predicate ReadsChildren(objs: Objs, es: seq<TreeEntry>, depth: nat, n: MemNode, keys: seq<Bytes>) {
    && |es| == |keys|
    && forall i :: 0 <= i < |keys| ==>
         keys[i] in n.children && es[i].name == keys[i] && ReadsAs(objs, es[i].typ, es[i].id, depth, n.children[keys[i]])
  }

  predicate AllWithin(n: MemNode, keys: seq<Bytes>, depth: nat)
    requires forall i :: 0 <= i < |keys| ==> keys[i] in n.children
  {
    forall i :: 0 <= i < |keys| ==> Within(n.children[keys[i]], depth)
  }

  lemma {:induction false} ListReadsBack(objs: Objs, es: seq<TreeEntry>, depth: nat, n: MemNode, keys: seq<Bytes>)
    requires ReadsChildren(objs, es, depth, n, keys)
    ensures FsList(objs, es, depth) ==
            if AllWithin(n, keys, depth) then Ok(FsChildren(objs, n, keys)) else Err(TreeTooDeep)
    decreases |keys|
  {
    if keys != [] {
      assert ReadsAs(objs, es[0].typ, es[0].id, depth, n.children[keys[0]]);
      assert ReadsChildren(objs, es[1..], depth, n, keys[1..]) by {
        assert forall i :: 0 <= i < |keys| - 1 ==> keys[1..][i] == keys[i + 1] && es[1..][i] == es[i + 1];
      }
      ListReadsBack(objs, es[1..], depth, n, keys[1..]);
      WithinCons(n, keys, depth);
    }
  }

  lemma WithinCons(n: MemNode, keys: seq<Bytes>, depth: nat)
    requires keys != [] && forall i :: 0 <= i < |keys| ==> keys[i] in n.children
    ensures AllWithin(n, keys, depth) <==> Within(n.children[keys[0]], depth) && AllWithin(n, keys[1..], depth)
  {
    if AllWithin(n, keys[1..], depth) {
      forall i | 0 < i < |keys| ensures Within(n.children[keys[i]], depth) { assert keys[1..][i - 1] == keys[i]; }
    }
  }

  lemma WithinChildren(n: MemNode, depth: nat)
    requires depth <= MAX_TREE_DEPTH
    ensures forall i :: 0 <= i < |SortedKeys(n.children.Keys)| ==> SortedKeys(n.children.Keys)[i] in n.children
    ensures Within(n, depth) <==> AllWithin(n, SortedKeys(n.children.Keys), depth + 1)
  {
    var keys := SortedKeys(n.children.Keys);
    forall i | 0 <= i < |keys| ensures keys[i] in n.children { assert keys[i] in keys; }
    forall k | k in n.children ensures exists i :: 0 <= i < |keys| && keys[i] == k {
      var i := SortedKeysIndex(n.children.Keys, k);
    }
  }

  lemma DirReadsBack(objs: Objs, id: Id, depth: nat, n: MemNode, es: seq<TreeEntry>)
    requires IsDir(n) && depth <= MAX_TREE_DEPTH && ReadTree(objs, id) == Ok(es)
    requires ReadsChildren(objs, es, depth + 1, n, SortedKeys(n.children.Keys))
    ensures ReadsAs(objs, DIRECTORY, id, depth, n)
  {
    WithinChildren(n, depth);
    ListReadsBack(objs, es, depth + 1, n, SortedKeys(n.children.Keys));
  }

  lemma {:induction false} ReadsBack(prim: Prim, pools: Pools, objs: Objs, n: MemNode, depth: nat)
    requires TreeStored(prim, pools, objs, n) && depth <= MAX_TREE_DEPTH + 1
    ensures ReadsAs(objs, n.typ, IdOf(prim, n), depth, n)
    decreases n, 1
  {
    if depth > MAX_TREE_DEPTH {
    } else if !IsDir(n) {
      LeafReadsBack(objs, n, depth);
    } else {
      StoredReads(prim, pools, objs, n);
      ReadsAllChildren(prim, pools, objs, n, depth + 1);
      DirReadsBack(objs, IdOf(prim, n), depth, n, Entries(prim, n));
    }
  }

  lemma LeafReadsBack(objs: Objs, n: MemNode, depth: nat)
    requires Built(n) && !IsDir(n) && n.id in objs && depth <= MAX_TREE_DEPTH
    ensures ReadsAs(objs, n.typ, n.id, depth, n)
  {
  }

  lemma StoredReads(prim: Prim, pools: Pools, objs: Objs, n: MemNode)
    requires TreeStored(prim, pools, objs, n) && IsDir(n)
    ensures ReadTree(objs, IdOf(prim, n)) == Ok(Entries(prim, n))
  {
    ReadsListing(prim, pools, objs, n);
  }

  lemma {:induction false} ReadsAllChildren(prim: Prim, pools: Pools, objs: Objs, n: MemNode, depth: nat)
    requires TreeStored(prim, pools, objs, n) && IsDir(n) && depth <= MAX_TREE_DEPTH + 1
    ensures ReadsChildren(objs, Entries(prim, n), depth, n, SortedKeys(n.children.Keys))
    decreases n, 0
  {
    var keys, es := SortedKeys(n.children.Keys), Entries(prim, n);
    forall i | 0 <= i < |keys|
      ensures keys[i] in n.children && es[i].name == keys[i]
      ensures ReadsAs(objs, es[i].typ, es[i].id, depth, n.children[keys[i]])
    {
      assert keys[i] in keys;
      StoredChild(prim, pools, objs, n, keys[i]);
      ReadsBack(prim, pools, objs, n.children[keys[i]], depth);
    }
  }

  /** `n` directories inside each other, the innermost empty, as the eval store may be given them. */
  function Chain(n: nat): E.MemFile {
    E.MemFile.Directory(if n == 0 then map[] else map[[97] := Chain(n - 1)])
  }

  lemma {:induction false} ChainDepth(prim: Prim, n: nat, room: nat)
    ensures E.NamesFit(Chain(n))
    ensures Shallow(E.ToNode(prim, Chain(n)), room) <==> n <= room
    decreases n
  {
    if n > 0 {
      ChainNode(prim, n);
      ChainDepth(prim, n - 1, if room > 0 then room - 1 else 0);
      OnlyChild(E.ToNode(prim, Chain(n)), E.ToNode(prim, Chain(n - 1)), room);
    }
  }

  lemma ChainNode(prim: Prim, n: nat)
    requires n > 0
    ensures E.ToNode(prim, Chain(n)).children == map[[97] := E.ToNode(prim, Chain(n - 1))]
    ensures E.NamesFit(Chain(n)) <==> E.NamesFit(Chain(n - 1))
  {
    assert Chain(n).entries.Keys == {[97]};
  }

  lemma OnlyChild(n: MemNode, child: MemNode, room: nat)
    requires n.children == map[[97] := child]
    ensures Shallow(n, room) <==> room > 0 && Shallow(child, room - 1)
  {
    assert [97] in n.children;
  }

  /**
   * The eval store's ingest takes directories of any depth (`EvalStore.Ingest` refuses only long names): wherever a
   * chain of `n` of them is stored, dumping it fails exactly if `n` is more than 512.
   */
  lemma DeepChainFails(prim: Prim, pools: Pools, objs: Objs, n: nat)
    requires TreeStored(prim, pools, objs, E.ToNode(prim, Chain(n)))
    ensures E.NamesFit(Chain(n))
    ensures FsOf(objs, DIRECTORY, IdOf(prim, E.ToNode(prim, Chain(n))), 0) == Err(TreeTooDeep) <==> n > 512
  {
    ChainDepth(prim, n, MAX_TREE_DEPTH);
    ReadsBack(prim, pools, objs, E.ToNode(prim, Chain(n)), 0);
  }

  // ---------------------------------------------------------------- paths in the object

  function FsFind(entries: seq<FsEntry>, name: Bytes): Option<Fs> {
    if entries == [] then None else if entries[0].name == name then Some(entries[0].node) else FsFind(entries[1..], name)
  }

  function FsAt(f: Fs, path: Path): Option<Fs>
    decreases |path|
  {
    if path == [] then Some(f)
    else if !f.Directory? || FsFind(f.entries, path[0]).None? then None
    else FsAt(FsFind(f.entries, path[0]).value, path[1..])
  }

  lemma {:induction false} FindInChildren(objs: Objs, n: MemNode, keys: seq<Bytes>, name: Bytes)
    requires forall i :: 0 <= i < |keys| ==> keys[i] in n.children
    ensures FsFind(FsChildren(objs, n, keys), name) ==
            if name in keys then Some(FsNode(objs, n.children[name])) else None
    decreases |keys|
  {
    if keys != [] {
      FindInChildren(objs, n, keys[1..], name);
      assert FsChildren(objs, n, keys)[1..] == FsChildren(objs, n, keys[1..]);
      assert name in keys <==> name == keys[0] || name in keys[1..];
    }
  }

  lemma {:induction false} FsNodeAt(objs: Objs, n: MemNode, path: Path)
    requires Built(n)
    ensures FsAt(FsNode(objs, n), path) == if At(n, path).None? then None else Some(FsNode(objs, At(n, path).value))
    decreases |path|
  {
    if path != [] && IsDir(n) {
      var keys := SortedKeys(n.children.Keys);
      assert forall i :: 0 <= i < |keys| ==> keys[i] in keys;
      FindInChildren(objs, n, keys, path[0]);
      if path[0] in n.children { FsNodeAt(objs, n.children[path[0]], path[1..]); }
    }
  }

  // ---------------------------------------------------------------- ingested trees are shallow

  ghost predicate ShortPaths(fs: PathMap) {
    forall p :: p in fs ==> |p| <= MAX_TREE_DEPTH
  }

  /** A path of accepted items has at most 512 components: each was a path that `split_path` let through. */
  lemma {:induction false} FoldShort(items: seq<TarItem>)
    requires FoldPaths(items).Ok?
    ensures ShortPaths(FoldPaths(items).value)
  {
    if items != [] {
      var init, item := items[..|items| - 1], items[|items| - 1];
      FoldShort(init);
      ApplyShort(FoldPaths(init).value, item);
    }
  }

  lemma AddShort(fs: PathMap, path: Path, kind: Kind)
    requires ShortPaths(fs) && |path| <= MAX_TREE_DEPTH && AddPath(fs, path, kind).Ok?
    ensures ShortPaths(AddPath(fs, path, kind).value)
  {
  }

  lemma ApplyShort(fs: PathMap, item: TarItem)
    requires ShortPaths(fs) && ApplyPath(fs, item).Ok?
    ensures ShortPaths(ApplyPath(fs, item).value)
  {
    SplitIsClean(item.path);
    var comps := Split(item.path).value;
    if item.typ == HARDLINK {
      AddShort(fs, comps, fs[Split(item.data).value]);
    } else {
      AddShort(fs, comps, if item.typ == DIRECTORY then Folder else File(item.typ, item.data));
    }
  }

  lemma {:induction false} ShallowByPaths(n: MemNode, room: nat)
    requires Built(n) && forall p :: At(n, p).Some? ==> |p| <= room
    ensures Shallow(n, room)
    decreases room
  {
    forall k | k in n.children ensures room > 0 && Shallow(n.children[k], room - 1) {
      assert At(n.children[k], []).Some?;
      assert At(n, [k]) == At(n.children[k], [k][1..]);
      forall p | At(n.children[k], p).Some? ensures |p| <= room - 1 {
        assert ([k] + p)[1..] == p && At(n, [k] + p).Some?;
      }
      ShallowByPaths(n.children[k], room - 1);
    }
  }

  /** What the archive holds at a path of the file system. */
  predicate Holds(f: Option<Fs>, kind: Option<Kind>) {
    match kind
    case None => f.None?
    case Some(Folder) => f.Some? && f.value.Directory?
    case Some(File(typ, data)) => f == Some(if typ == SYMLINK then Symlink(data) else Regular(typ == EXECUTABLE, data))
  }

  /** The hypotheses of a dump: an accepted ingest whose root is still in a closed table. */
  ghost predicate Ingested(prim: Prim, pools: Pools, objs: Objs, items: seq<TarItem>) {
    && Sound(prim) && PoolsOk(prim, pools) && Closed(prim, pools, objs) && ItemsKnown(prim, pools, items)
    && Fold(prim, items).Ok? && IdOf(prim, Fold(prim, items).value) in objs
  }

  function RootOf(prim: Prim, items: seq<TarItem>): Id
    requires Fold(prim, items).Ok?
  {
    IdOf(prim, Fold(prim, items).value)
  }

  lemma HoldsAt(prim: Prim, pools: Pools, objs: Objs, items: seq<TarItem>, path: Path)
    requires Ingested(prim, pools, objs, items) && FoldPaths(items).Ok?
    ensures Holds(FsAt(FsNode(objs, Fold(prim, items).value), path), Lookup(FoldPaths(items).value, path))
  {
    FoldAgrees(prim, items);
    FoldBuilds(prim, items);
    FoldKnown(pools, items);
    var n, fs := Fold(prim, items).value, FoldPaths(items).value;
    FsNodeAt(objs, n, path);
    if path in fs {
      var m := At(n, path).value;
      assert Shows(prim, m, fs[path]);
      DirStored(prim, pools, objs, n, path);
      if fs[path].File? {
        assert fs[path].data in pools.blobs + pools.trees && objs[m.id] in pools.blobs + pools.trees;
      }
    }
  }

  lemma DumpsWhole(prim: Prim, pools: Pools, objs: Objs, items: seq<TarItem>)
    requires Ingested(prim, pools, objs, items)
    ensures FsOf(objs, DIRECTORY, RootOf(prim, items), 0) == Ok(FsNode(objs, Fold(prim, items).value))
  {
    FoldAgrees(prim, items);
    FoldBuilds(prim, items);
    var n := Fold(prim, items).value;
    FoldShort(items);
    forall p | At(n, p).Some? ensures |p| <= MAX_TREE_DEPTH { assert p in FoldPaths(items).value; }
    ShallowByPaths(n, MAX_TREE_DEPTH);
    ReadsBack(prim, pools, objs, n, 0);
  }

  /**
   * For any items the fold accepts, in any later closed table that still has the root: the dump never fails, on depth
   * or otherwise, and the object it writes has at every path exactly what the path map has there.
   */
  lemma DumpMatchesItems(prim: Prim, pools: Pools, objs: Objs, items: seq<TarItem>)
    requires Ingested(prim, pools, objs, items)
    ensures FoldPaths(items).Ok? && FsOf(objs, DIRECTORY, RootOf(prim, items), 0).Ok?
    ensures forall path ::
              Holds(FsAt(FsOf(objs, DIRECTORY, RootOf(prim, items), 0).value, path), Lookup(FoldPaths(items).value, path))
  {
    FoldAgrees(prim, items);
    DumpsWhole(prim, pools, objs, items);
    forall path ensures Holds(FsAt(FsNode(objs, Fold(prim, items).value), path), Lookup(FoldPaths(items).value, path)) {
      HoldsAt(prim, pools, objs, items, path);
    }
  }

  // ---------------------------------------------------------------- distinct trees, distinct archives

  predicate FileKind(kind: Kind) {
    kind.File? ==> ValidType(kind.typ) && kind.typ != DIRECTORY
  }

  ghost predicate FileKinds(fs: PathMap) {
    forall p :: p in fs ==> FileKind(fs[p])
  }

  lemma HoldsDetermines(f: Option<Fs>, a: Option<Kind>, b: Option<Kind>)
    requires Holds(f, a) && Holds(f, b)
    requires (a.Some? ==> FileKind(a.value)) && (b.Some? ==> FileKind(b.value))
    ensures a == b
  {
  }

  lemma AddKinds(fs: PathMap, path: Path, kind: Kind)
    requires FileKinds(fs) && FileKind(kind) && AddPath(fs, path, kind).Ok?
    ensures FileKinds(AddPath(fs, path, kind).value)
  {
  }

  lemma {:induction false} FoldKinds(items: seq<TarItem>)
    requires FoldPaths(items).Ok? && forall i :: 0 <= i < |items| ==> ItemOk(items[i])
    ensures FileKinds(FoldPaths(items).value)
  {
    if items != [] {
      var init, item := items[..|items| - 1], items[|items| - 1];
      FoldKinds(init);
      var fs := FoldPaths(init).value;
      var comps := Split(item.path).value;
      if item.typ == HARDLINK {
        AddKinds(fs, comps, fs[Split(item.data).value]);
      } else {
        AddKinds(fs, comps, if item.typ == DIRECTORY then Folder else File(item.typ, item.data));
      }
    }
  }

  lemma SameHeldSameFs(f: Fs, a: PathMap, b: PathMap)
    requires forall p :: Holds(FsAt(f, p), Lookup(a, p)) && Holds(FsAt(f, p), Lookup(b, p))
    requires FileKinds(a) && FileKinds(b)
    ensures a == b
  {
    forall p ensures Lookup(a, p) == Lookup(b, p) {
      HoldsDetermines(FsAt(f, p), Lookup(a, p), Lookup(b, p));
    }
    assert forall p :: p in a <==> Lookup(a, p).Some?;
    assert forall p :: p in b <==> Lookup(b, p).Some?;
    assert forall p :: p in a ==> Lookup(a, p) == Some(a[p]) && Lookup(b, p) == Some(b[p]);
  }

  /** Lengths are what a 64-bit count can hold. */
  predicate Sized(f: Fs) {
    Short(Tokens(f))
  }

  /** Two ingested trees have the same archive exactly when they mean the same file system. */
  lemma ArchivesCanonical(prim: Prim, pools: Pools, objs: Objs, xs: seq<TarItem>, ys: seq<TarItem>)
    requires Ingested(prim, pools, objs, xs) && Ingested(prim, pools, objs, ys)
    requires FsOf(objs, DIRECTORY, RootOf(prim, xs), 0).Ok? ==> Sized(FsOf(objs, DIRECTORY, RootOf(prim, xs), 0).value)
    requires FsOf(objs, DIRECTORY, RootOf(prim, ys), 0).Ok? ==> Sized(FsOf(objs, DIRECTORY, RootOf(prim, ys), 0).value)
    ensures FoldPaths(xs).Ok? && FoldPaths(ys).Ok?
    ensures FsOf(objs, DIRECTORY, RootOf(prim, xs), 0).Ok? && FsOf(objs, DIRECTORY, RootOf(prim, ys), 0).Ok?
    ensures Nar(FsOf(objs, DIRECTORY, RootOf(prim, xs), 0).value) == Nar(FsOf(objs, DIRECTORY, RootOf(prim, ys), 0).value)
            <==> FoldPaths(xs) == FoldPaths(ys)
  {
    DumpMatchesItems(prim, pools, objs, xs);
    DumpMatchesItems(prim, pools, objs, ys);
    RootIdsCanonical(prim, pools, xs, ys);
    var f, g := FsOf(objs, DIRECTORY, RootOf(prim, xs), 0).value, FsOf(objs, DIRECTORY, RootOf(prim, ys), 0).value;
    if Nar(f) == Nar(g) {
      NarInjective(f, g);
      FoldKinds(xs);
      FoldKinds(ys);
      SameHeldSameFs(f, FoldPaths(xs).value, FoldPaths(ys).value);
    }
  }
}
