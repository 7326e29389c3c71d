/** Folding tar items: what `apply_item` builds, against a plain map from paths to contents. */
module TarFold {
  import opened Basics
  import opened Primitives
  import opened TreeCodec
  import opened Paths
  import opened MemTree

  const HARDLINK: Byte := 104  // 'h'

  /** One archive entry: type 'd', 's', 'r', 'x', or 'h' with the link target in `data`. */
  datatype TarItem = TarItem(path: Bytes, typ: Byte, data: Bytes)

  predicate ItemOk(item: TarItem) {
    item.typ == HARDLINK || ValidType(item.typ)
  }

  // ---------------------------------------------------------------- the tree side

  /** `apply_item` on the tree; file contents appear as the id `putBlob` returns. */
  function AddItem(prim: Prim, root: MemNode, item: TarItem): Result<MemNode> {
    var comps := Split(item.path);
    if comps.None? then Err(PathTooLong)
    else if item.typ == HARDLINK then
      var target := Split(item.data);
      var node := if target.Some? then At(root, target.value) else None;
      if node.None? then Err(LinkTargetMissing)
      else if IsDir(node.value) then Err(LinkTargetDirectory)
      else Add(root, comps.value, MemNode(node.value.typ, node.value.id, map[]), true)
    else if item.typ == DIRECTORY then Add(root, comps.value, EmptyDir, true)
    else Add(root, comps.value, MemNode(item.typ, prim.hash(item.data), map[]), true)
  }

  function Fold(prim: Prim, items: seq<TarItem>): Result<MemNode> {
    if items == [] then Ok(EmptyDir)
    else
      var before := Fold(prim, items[..|items| - 1]);
      if before.Err? then before else AddItem(prim, before.value, items[|items| - 1])
  }

  // ---------------------------------------------------------------- the specification side

  datatype Kind = Folder | File(typ: Byte, data: Bytes)

  /** A file system as a map: which paths exist, and what they are. */
  type PathMap = map<Path, Kind>

  function Lookup(fs: PathMap, path: Path): Option<Kind> {
    if path in fs then Some(fs[path]) else None
  }

  const EmptyFs: PathMap := map[[] := Folder]

  /** Some proper prefix of the path is a file. */
  ghost predicate ThroughFile(fs: PathMap, path: Path) {
    exists k :: 0 <= k < |path| && path[..k] in fs && fs[path[..k]] != Folder
  }

  ghost predicate HasEntries(fs: PathMap, path: Path) {
    exists q :: q in fs && IsPrefix(path, q) && q != path
  }

  function Parents(path: Path): set<Path> {
    set k | 0 <= k < |path| :: path[..k]
  }

  /**
   * The overwrite rules. Nothing goes below a file. A directory over a directory changes nothing; anything else over
   * a directory needs it to be empty and not the root. Otherwise the path becomes what is added, and missing parents
   * become directories.
   */
  ghost function AddPath(fs: PathMap, path: Path, kind: Kind): Result<PathMap> {
    if ThroughFile(fs, path) then Err(ParentNotDirectory)
    else if path in fs && fs[path] == Folder && kind == Folder then Ok(fs)
    else if path in fs && fs[path] == Folder && (path == [] || HasEntries(fs, path)) then Err(NonEmptyDirectory)
    else Ok(fs + (map q | q in Parents(path) && q !in fs :: Folder) + map[path := kind])
  }

  /** One item: a hard link is a copy of what its target is now. */
  ghost function ApplyPath(fs: PathMap, item: TarItem): Result<PathMap> {
    var comps := Split(item.path);
    if comps.None? then Err(PathTooLong)
    else if item.typ == HARDLINK then
      var target := Split(item.data);
      if target.None? || target.value !in fs then Err(LinkTargetMissing)
      else if fs[target.value] == Folder then Err(LinkTargetDirectory)
      else AddPath(fs, comps.value, fs[target.value])
    else AddPath(fs, comps.value, if item.typ == DIRECTORY then Folder else File(item.typ, item.data))
  }

  ghost function FoldPaths(items: seq<TarItem>): Result<PathMap> {
    if items == [] then Ok(EmptyFs)
    else
      var before := FoldPaths(items[..|items| - 1]);
      if before.Err? then before else ApplyPath(before.value, items[|items| - 1])
  }

  // ---------------------------------------------------------------- the two agree

  ghost predicate Shows(prim: Prim, n: MemNode, kind: Kind) {
    match kind
    case Folder => IsDir(n)
    case File(typ, data) => !IsDir(n) && n.typ == typ && n.id == prim.hash(data) && n.children == map[]
  }

  /** The tree and the map have the same paths, and show the same thing at each. */
  ghost predicate Agree(prim: Prim, root: MemNode, fs: PathMap) {
    && (forall p :: p in fs <==> At(root, p).Some?)
    && (forall p :: p in fs ==> Shows(prim, At(root, p).value, fs[p]))
  }

  lemma AgreeBlocked(prim: Prim, root: MemNode, fs: PathMap, path: Path)
    requires Agree(prim, root, fs)
    ensures Blocked(root, path) <==> ThroughFile(fs, path)
  {
    if Blocked(root, path) {
      var k :| 0 <= k < |path| && At(root, path[..k]).Some? && !IsDir(At(root, path[..k]).value);
      assert path[..k] in fs && Shows(prim, At(root, path[..k]).value, fs[path[..k]]);
    }
    if ThroughFile(fs, path) {
      var k :| 0 <= k < |path| && path[..k] in fs && fs[path[..k]] != Folder;
      assert Shows(prim, At(root, path[..k]).value, fs[path[..k]]);
    }
  }

  lemma AgreeEntries(prim: Prim, root: MemNode, fs: PathMap, path: Path)
    requires Agree(prim, root, fs) && path in fs && fs[path] == Folder
    ensures At(root, path).value.children != map[] <==> HasEntries(fs, path)
  {
    var n := At(root, path).value;
    assert Shows(prim, n, Folder);
    if n.children != map[] {
      var name :| name in n.children;
      AtAppend(root, path, [name]);
      assert At(n, [name]) == Some(n.children[name]);
      assert path + [name] in fs && IsPrefix(path, path + [name]) && path + [name] != path;
    }
    if HasEntries(fs, path) {
      var q :| q in fs && IsPrefix(path, q) && q != path;
      assert q == path + q[|path|..];
      AtAppend(root, path, q[|path|..]);
      assert At(n, q[|path|..]).Some?;
    }
  }

  /** A path added in the map, looked at from any path. */
  lemma AddPathAt(fs: PathMap, path: Path, kind: Kind, q: Path)
    requires AddPath(fs, path, kind).Ok?
    requires path in fs && IsPrefix(q, path) ==> q in fs
    ensures var fs' := AddPath(fs, path, kind).value;
            && (q == path ==> q in fs' && fs'[q] == kind)
            && (q != path && IsPrefix(q, path) ==> q in fs' && fs'[q] == Folder)
            && (!IsPrefix(q, path) ==> (q in fs' <==> q in fs) && (q in fs ==> fs'[q] == fs[q]))
  {
    if q != path && IsPrefix(q, path) {
      assert path[..|path|] == path;
      assert path[..|q|] == q && q in Parents(path);
    } else if !IsPrefix(q, path) {
      assert q !in Parents(path);
    }
  }

  /** Below a path that can be added as a file, or that was none, there is nothing. */
  lemma NothingBelow(prim: Prim, root: MemNode, fs: PathMap, path: Path, q: Path)
    requires Agree(prim, root, fs) && IsPrefix(path, q) && q != path
    requires !(path in fs && fs[path] == Folder && HasEntries(fs, path))
    ensures q !in fs && At(root, q).None?
  {
    assert q == path + q[|path|..];
    AtAppend(root, path, q[|path|..]);
    if path in fs {
      assert Shows(prim, At(root, path).value, fs[path]);
      assert q[|path|..] != [];
      if fs[path] == Folder { assert q !in fs; }
    }
  }

  /** Adding a node and adding a path fail together, with the same error, and otherwise agree again. */
  lemma AddAgrees(prim: Prim, root: MemNode, fs: PathMap, path: Path, node: MemNode, kind: Kind)
    requires Agree(prim, root, fs) && Shows(prim, node, kind) && (IsDir(node) ==> node == EmptyDir)
    ensures match (Add(root, path, node, true), AddPath(fs, path, kind))
            case (Ok(r), Ok(f)) => Agree(prim, r, f)
            case (Err(e), Err(x)) => e == x
            case _ => false
  {
    AddFails(root, path, node, true);
    AgreeBlocked(prim, root, fs, path);
    if path in fs {
      assert Shows(prim, At(root, path).value, fs[path]);
      if fs[path] == Folder { AgreeEntries(prim, root, fs, path); }
    }
    if AddPath(fs, path, kind).Ok? {
      var r, f := Add(root, path, node, true).value, AddPath(fs, path, kind).value;
      forall q ensures (q in f <==> At(r, q).Some?) && (q in f ==> Shows(prim, At(r, q).value, f[q])) {
        AddAgreesAt(prim, root, fs, path, node, kind, q);
      }
    }
  }

  lemma AddAgreesAt(prim: Prim, root: MemNode, fs: PathMap, path: Path, node: MemNode, kind: Kind, q: Path)
    requires Agree(prim, root, fs) && Shows(prim, node, kind) && (IsDir(node) ==> node == EmptyDir)
    requires Add(root, path, node, true).Ok? && AddPath(fs, path, kind).Ok?
    ensures var r, f := Add(root, path, node, true).value, AddPath(fs, path, kind).value;
            (q in f <==> At(r, q).Some?) && (q in f ==> Shows(prim, At(r, q).value, f[q]))
  {
    if IsPrefix(q, path) {
      assert path == q + path[|q|..];
      AtAppend(root, q, path[|q|..]);
    }
    AddPathAt(fs, path, kind, q);
    assert q in fs ==> Shows(prim, At(root, q).value, fs[q]);
    if q == path {
      AddAtSelf(root, path, node, true);
    } else if IsPrefix(q, path) {
      AddAtAbove(root, path, node, true, q);
    } else if IsPrefix(path, q) {
      AddAtBelow(root, path, node, true, q);
      if !IsDir(node) { NothingBelow(prim, root, fs, path, q); }
    } else {
      AddAtElsewhere(root, path, node, true, q);
    }
  }

  lemma ApplyAgrees(prim: Prim, root: MemNode, fs: PathMap, item: TarItem)
    requires Agree(prim, root, fs) && ItemOk(item)
    ensures match (AddItem(prim, root, item), ApplyPath(fs, item))
            case (Ok(r), Ok(f)) => Agree(prim, r, f)
            case (Err(e), Err(x)) => e == x
            case _ => false
  {
    var comps := Split(item.path);
    if comps.Some? {
      if item.typ == HARDLINK {
        var target := Split(item.data);
        if target.Some? && target.value in fs {
          var n := At(root, target.value).value;
          assert Shows(prim, n, fs[target.value]);
          if !IsDir(n) {
            AddAgrees(prim, root, fs, comps.value, MemNode(n.typ, n.id, map[]), fs[target.value]);
          }
        }
      } else if item.typ == DIRECTORY {
        AddAgrees(prim, root, fs, comps.value, EmptyDir, Folder);
      } else {
        AddAgrees(prim, root, fs, comps.value, MemNode(item.typ, prim.hash(item.data), map[]), File(item.typ, item.data));
      }
    }
  }

  /**
   * The fold over any sequence of items accepts and rejects exactly as the path map does, with the same error, and
   * builds a tree with the same paths showing the same contents.
   */
  lemma {:induction false} FoldAgrees(prim: Prim, items: seq<TarItem>)
    requires forall i :: 0 <= i < |items| ==> ItemOk(items[i])
    ensures match (Fold(prim, items), FoldPaths(items))
            case (Ok(r), Ok(f)) => Agree(prim, r, f)
            case (Err(e), Err(x)) => e == x
            case _ => false
  {
    if items == [] {
      forall p ensures At(EmptyDir, p).Some? <==> p == [] {}
      assert Agree(prim, EmptyDir, EmptyFs);
    } else {
      var init := items[..|items| - 1];
      FoldAgrees(prim, init);
      if Fold(prim, init).Ok? {
        ApplyAgrees(prim, Fold(prim, init).value, FoldPaths(init).value, items[|items| - 1]);
      }
    }
  }
}
