/** The eval store: file system objects put recursively, and the records that name them. */
module EvalStore {
  import opened Basics
  import opened Primitives
  import opened TreeCodec
  import opened Cas
  import opened Objects
  import opened MemTree
  import opened Gc
  import opened Flush
  import opened Walker
  import Stamps

  // ---------------------------------------------------------------- ingest

  /** A file system object in memory. */
  datatype MemFile =
    | Regular(executable: bool, contents: Bytes)
    | Symlink(target: Bytes)
    | Directory(entries: map<Bytes, MemFile>)

  /** The same tree as tar items would build it. */
  function ToNode(prim: Prim, f: MemFile): MemNode {
    match f
    case Regular(exec, contents) => MemNode(if exec then EXECUTABLE else REGULAR, prim.hash(contents), map[])
    case Symlink(target) => MemNode(SYMLINK, prim.hash(target), map[])
    case Directory(entries) => MemNode(DIRECTORY, [], map name | name in entries :: ToNode(prim, entries[name]))
  }

  predicate NamesFit(f: MemFile) {
    f.Directory? ==> forall name :: name in f.entries ==> |name| <= MAX_NAME_LEN && NamesFit(f.entries[name])
  }

  /** Its contents, and the listings it can get, are among the contents considered. */
  ghost predicate Known(prim: Prim, pools: Pools, f: MemFile) {
    match f
    case Regular(_, contents) => contents in pools.blobs
    case Symlink(target) => target in pools.blobs
    case Directory(entries) =>
      && (NamesFit(f) ==> Encoded(Entries(prim, ToNode(prim, f))) in pools.trees)
      && forall name :: name in entries ==> Known(prim, pools, entries[name])
  }

  lemma {:induction false} NodeBuilt(prim: Prim, f: MemFile)
    requires Sound(prim) && NamesFit(f)
    ensures Built(ToNode(prim, f))
  {
    if f.Directory? {
      forall name | name in f.entries ensures Built(ToNode(prim, f.entries[name])) { NodeBuilt(prim, f.entries[name]); }
    }
  }

  lemma {:induction false} NodeInPools(prim: Prim, pools: Pools, f: MemFile)
    requires Known(prim, pools, f) && NamesFit(f)
    ensures InPools(prim, pools, ToNode(prim, f))
  {
    if f.Directory? {
      forall name | name in f.entries ensures InPools(prim, pools, ToNode(prim, f.entries[name])) {
        NodeInPools(prim, pools, f.entries[name]);
      }
    }
  }

  /** The first `i` entries of a directory, with their objects stored. */
  ghost predicate Collected(prim: Prim, objs: Objs, n: MemNode, entries: seq<TreeEntry>, i: nat) {
    && i <= |SortedKeys(n.children.Keys)| && entries == Entries(prim, n)[..i]
    && forall e :: e in entries ==> e.id in objs
  }

  lemma CollectOne(prim: Prim, objs: Objs, objs': Objs, n: MemNode, entries: seq<TreeEntry>, i: nat, typ: Byte, id: Id)
    requires Collected(prim, objs, n, entries, i) && i < |SortedKeys(n.children.Keys)| && objs.Keys <= objs'.Keys
    requires var name := SortedKeys(n.children.Keys)[i];
             name in n.children && typ == n.children[name].typ && id == IdOf(prim, n.children[name]) && id in objs'
    ensures Collected(prim, objs', n, entries + [TreeEntry(SortedKeys(n.children.Keys)[i], typ, id)], i + 1)
  {
    var es := Entries(prim, n);
    assert es[..i + 1] == es[..i] + [es[i]];
  }

  /** `putTree` refuses the entries exactly when a name is too long. */
  lemma DirEntries(prim: Prim, pools: Pools, f: MemFile)
    requires Sound(prim) && f.Directory? && Known(prim, pools, f)
    requires forall name :: name in f.entries ==> NamesFit(f.entries[name])
    ensures var es := Entries(prim, ToNode(prim, f));
            && (AllFit(es) <==> NamesFit(f))
            && (NamesFit(f) ==> ValidEntries(es) && EncodeTree(es) in pools.trees)
  {
    var n := ToNode(prim, f);
    var keys, es := SortedKeys(n.children.Keys), Entries(prim, n);
    if NamesFit(f) {
      NodeBuilt(prim, f);
      BuiltEntries(prim, n);
    } else {
      var name :| name in f.entries && |name| > MAX_NAME_LEN;
      var i := SortedKeysIndex(n.children.Keys, name);
      assert es[i].name == name;
    }
  }

  /** With the first `i` entries of the directory ingested, since the store was at `db0`. */
  ghost predicate EntriesState(store: TreeStore, f: MemFile, keys: seq<Bytes>, entries: seq<TreeEntry>, i: nat,
                               db0: Db, log0: seq<Cas>)
    reads store
  {
    && store.Valid() && f.Directory? && i <= |keys| && keys == SortedKeys(f.entries.Keys)
    && OnlyPuts(db0, log0, store.db, store.log)
    && Collected(store.prim, store.db.objs, ToNode(store.prim, f), entries, i)
    && forall k :: 0 <= k < i ==> keys[k] in f.entries && NamesFit(f.entries[keys[k]])
  }

  lemma EntriesDone(f: MemFile, prim: Prim, keys: seq<Bytes>, entries: seq<TreeEntry>, objs: Objs)
    requires f.Directory? && keys == SortedKeys(f.entries.Keys)
    requires Collected(prim, objs, ToNode(prim, f), entries, |keys|)
    requires forall k :: 0 <= k < |keys| ==> keys[k] in f.entries && NamesFit(f.entries[keys[k]])
    ensures entries == Entries(prim, ToNode(prim, f))
    ensures forall name :: name in f.entries ==> NamesFit(f.entries[name])
  {
    assert ToNode(prim, f).children.Keys == f.entries.Keys;
    forall name | name in f.entries ensures NamesFit(f.entries[name]) {
      var i := SortedKeysIndex(f.entries.Keys, name);
    }
  }

  /** The next entry of a directory. */
  method IngestChild(store: TreeStore, f: MemFile, keys: seq<Bytes>, entries: seq<TreeEntry>, i: nat,
                     ghost db0: Db, ghost log0: seq<Cas>)
    returns (r: Result<TreeEntry>)
    requires EntriesState(store, f, keys, entries, i, db0, log0) && i < |keys|
    requires Sound(store.prim) && Known(store.prim, store.pools, f)
    modifies store`db, store`log
    ensures r.Err? ==> store.Valid() && OnlyPuts(db0, log0, store.db, store.log) && r.error == EntryTooLarge && !NamesFit(f)
    ensures r.Ok? ==> EntriesState(store, f, keys, entries + [r.value], i + 1, db0, log0)
    decreases f, 0
  {
    assert keys[i] in keys;
    assert ToNode(store.prim, f).children.Keys == f.entries.Keys;
    ghost var db, log := store.db, store.log;
    var child := Ingest(store, f.entries[keys[i]]);
    OnlyPutsChain(db0, log0, db, log, store.db, store.log);
    if child.Err? {
      return Err(child.error);
    }
    CollectOne(store.prim, db.objs, store.db.objs, ToNode(store.prim, f), entries, i, child.value.0, child.value.1);
    r := Ok(TreeEntry(keys[i], child.value.0, child.value.1));
  }

  /** The visitor's case for directories: all entries first, in name order. */
  method IngestEntries(store: TreeStore, f: MemFile) returns (r: Result<seq<TreeEntry>>)
    requires store.Valid() && Sound(store.prim) && Known(store.prim, store.pools, f) && f.Directory?
    modifies store`db, store`log
    ensures store.Valid() && OnlyPuts(old(store.db), old(store.log), store.db, store.log)
    ensures r.Err? ==> r.error == EntryTooLarge && !NamesFit(f)
    ensures r.Ok? ==> r.value == Entries(store.prim, ToNode(store.prim, f)) && forall e :: e in r.value ==> e.id in store.db.objs
    ensures r.Ok? ==> forall name :: name in f.entries ==> NamesFit(f.entries[name])
    decreases f, 1
  {
    var keys := SortedKeys(f.entries.Keys);
    var entries: seq<TreeEntry> := [];
    for i := 0 to |keys|
      invariant EntriesState(store, f, keys, entries, i, old(store.db), old(store.log))
    {
      var child := IngestChild(store, f, keys, entries, i, old(store.db), old(store.log));
      if child.Err? {
        return Err(child.error);
      }
      entries := entries + [child.value];
    }
    EntriesDone(f, store.prim, keys, entries, store.db.objs);
    r := Ok(entries);
  }

  /** And the directory after them. */
  method PutDirectory(store: TreeStore, f: MemFile, entries: seq<TreeEntry>, ghost db0: Db, ghost log0: seq<Cas>)
    returns (r: Result<Id>)
    requires store.Valid() && Sound(store.prim) && Known(store.prim, store.pools, f) && f.Directory?
    requires entries == Entries(store.prim, ToNode(store.prim, f)) && forall e :: e in entries ==> e.id in store.db.objs
    requires forall name :: name in f.entries ==> NamesFit(f.entries[name])
    requires OnlyPuts(db0, log0, store.db, store.log)
    modifies store`db, store`log
    ensures store.Valid() && OnlyPuts(db0, log0, store.db, store.log)
    ensures (r.Ok? <==> NamesFit(f)) && (r.Err? ==> r.error == EntryTooLarge)
    ensures r.Ok? ==> r.value == IdOf(store.prim, ToNode(store.prim, f)) && r.value in store.db.objs
  {
    ghost var db, log := store.db, store.log;
    DirEntries(store.prim, store.pools, f);
    r := store.PutTree(entries);
    if r.Ok? {
      OnlyPutsThen(db0, log0, db, log, store.db, store.log);
    }
  }

  /**
   * `ingest`. The type and id of the object, the same id that flushing the tree breadth-first gives it; with a name
   * that is too long for a listing, an error.
   */
  method Ingest(store: TreeStore, f: MemFile) returns (r: Result<(Byte, Id)>)
    requires store.Valid() && Sound(store.prim) && Known(store.prim, store.pools, f)
    modifies store`db, store`log
    ensures store.Valid() && OnlyPuts(old(store.db), old(store.log), store.db, store.log)
    ensures (r.Ok? <==> NamesFit(f)) && (r.Err? ==> r.error == EntryTooLarge)
    ensures r.Ok? ==>
              var n := ToNode(store.prim, f);
              r.value.0 == n.typ && r.value.1 == IdOf(store.prim, n) && r.value.1 in store.db.objs
    decreases f, 2
  {
    match f {
      case Regular(exec, contents) =>
        var id := store.PutBlob(contents);
        r := Ok((if exec then EXECUTABLE else REGULAR, id));
      case Symlink(target) =>
        var id := store.PutBlob(target);
        r := Ok((SYMLINK, id));
      case Directory(_) =>
        var entries := IngestEntries(store, f);
        if entries.Err? {
          return Err(entries.error);
        }
        var id := PutDirectory(store, f, entries.value, old(store.db), old(store.log));
        if id.Err? {
          return Err(id.error);
        }
        r := Ok((DIRECTORY, id.value));
    }
  }
}
