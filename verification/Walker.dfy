/** `TreeWalker`: path lookup through cached listings and binary search. */
module Walker {
  import opened Basics
  import opened Primitives
  import opened TreeCodec
  import opened Paths
  import opened Objects
  import opened MemTree
  import opened Gc
  import opened Flush

  /** The entry of that name in a listing. */
  function FindName(es: seq<TreeEntry>, name: Bytes): Option<TreeEntry> {
    if es == [] then None
    else if es[0].name == name then Some(es[0])
    else FindName(es[1..], name)
  }

  /** What a path means in the object table: one listing after another. */
  function Walk(objs: Objs, from: TreeEntry, comps: Path): Result<Option<TreeEntry>>
    decreases |comps|
  {
    if comps == [] then Ok(Some(from))
    else if from.typ != DIRECTORY then Ok(None)
    else
      match ReadTree(objs, from.id)
      case Err(e) => Err(e)
      case Ok(es) =>
        match FindName(es, comps[0])
        case None => Ok(None)
        case Some(e) => Walk(objs, e, comps[1..])
  }

  function RootEntry(root: Id): TreeEntry {
    TreeEntry([], DIRECTORY, root)
  }

  lemma {:induction false} FindNameAt(es: seq<TreeEntry>, name: Bytes)
    ensures FindName(es, name).Some? ==> FindName(es, name).value in es && FindName(es, name).value.name == name
    ensures FindName(es, name).None? ==> forall e :: e in es ==> e.name != name
  {
    if es != [] && es[0].name != name {
      FindNameAt(es[1..], name);
      assert forall e :: e in es ==> e == es[0] || e in es[1..];
    }
  }

  /** In a sorted listing, the entry at the lower bound is the entry of that name, if there is one. */
  lemma LowerBoundFinds(es: seq<TreeEntry>, name: Bytes, at: nat)
    requires Sorted(Names(es)) && at <= |es|
    requires forall i :: 0 <= i < at ==> Less(es[i].name, name)
    requires at < |es| ==> !Less(es[at].name, name)
    ensures FindName(es, name) == if at < |es| && es[at].name == name then Some(es[at]) else None
  {
    FindNameAt(es, name);
    LessIrreflexive(name);
    forall i | at < i < |es| ensures Less(es[at].name, es[i].name) {
      assert Less(Names(es)[at], Names(es)[i]);
    }
    if at < |es| { LessTotal(es[at].name, name); }
    forall i | at < i < |es| ensures es[i].name != name {
      if Less(name, es[at].name) { LessAsymmetric(name, es[at].name); LessTransitive(name, es[at].name, es[i].name); }
    }
  }

  /** `std::ranges::lower_bound` on the names. */
  method LowerBound(es: seq<TreeEntry>, name: Bytes) returns (at: nat)
    requires Sorted(Names(es))
    ensures at <= |es|
    ensures forall i :: 0 <= i < at ==> Less(es[i].name, name)
    ensures at < |es| ==> !Less(es[at].name, name)
  {
    at := 0;
    var count := |es|;
    while count > 0
      invariant 0 <= count && at + count <= |es|
      invariant forall i :: 0 <= i < at ==> Less(es[i].name, name)
      invariant at + count < |es| ==> !Less(es[at + count].name, name)
    {
      var step := count / 2;
      var mid := at + step;
      if Less(es[mid].name, name) {
        forall i | at <= i < mid ensures Less(es[i].name, name) {
          assert Less(Names(es)[i], Names(es)[mid]);
          LessTransitive(es[i].name, es[mid].name, name);
        }
        at := mid + 1;
        count := count - (step + 1);
      } else {
        count := step;
      }
    }
  }

  /**
   * One more component. Nothing is below a missing path, nor below a file; below a directory is what its listing has
   * under that name; and the first listing on the way that cannot be read is the error.
   */
  lemma {:induction false} WalkMore(objs: Objs, from: TreeEntry, comps: Path, name: Bytes)
    ensures var before, r := Walk(objs, from, comps), Walk(objs, from, comps + [name]);
            && (before.Err? || before == Ok(None) ==> r == before)
            && (before.Ok? && before.value.Some? ==>
                  var at := before.value.value;
                  if at.typ != DIRECTORY then r == Ok(None)
                  else
                    match ReadTree(objs, at.id)
                    case Err(e) => r == Err(e)
                    case Ok(es) =>
                      && r.Ok?
                      && (r.value.Some? ==> r.value.value in es && r.value.value.name == name)
                      && (r.value.None? ==> forall e :: e in es ==> e.name != name))
    decreases |comps|
  {
    assert (comps + [name])[0] == if comps == [] then name else comps[0];
    if comps == [] {
      assert ([name])[1..] == [] && comps + [name] == [name];
      if from.typ == DIRECTORY && ReadTree(objs, from.id).Ok? { FindNameAt(ReadTree(objs, from.id).value, name); }
    } else {
      assert (comps + [name])[1..] == comps[1..] + [name];
      if from.typ == DIRECTORY && ReadTree(objs, from.id).Ok? {
        var e := FindName(ReadTree(objs, from.id).value, comps[0]);
        if e.Some? { WalkMore(objs, e.value, comps[1..], name); }
      }
    }
  }

  class TreeWalker {
    const store: TreeStore
    var cache: map<Id, seq<TreeEntry>>

    constructor (store: TreeStore)
      ensures this.store == store && cache == map[]
    {
      this.store := store;
      cache := map[];
    }

    /** Every cached listing is what the store would read. */
    ghost predicate CacheOk()
      reads this, store
    {
      forall id :: id in cache ==> ReadTree(store.db.objs, id) == Ok(cache[id])
    }

    /**
     * `tree`: read through the cache. The slot is created before the read, so a read that throws leaves an empty
     * listing behind: the cache stays in agreement exactly when the tree is cached or can be read.
     */
    method Tree(id: Id) returns (r: Result<seq<TreeEntry>>)
      requires CacheOk()
      modifies this
      ensures r == if id in old(cache) then Ok(old(cache)[id]) else ReadTree(store.db.objs, id)
      ensures cache == if id in old(cache) then old(cache) else old(cache)[id := if r.Ok? then r.value else []]
      ensures CacheOk() <==> id in old(cache) || ReadTree(store.db.objs, id).Ok?
    {
      if id !in cache {
        cache := cache[id := []];
        var es := store.ReadTree(id);
        if es.Err? {
          assert id in cache;
          return Err(es.error);
        }
        cache := cache[id := es.value];
      }
      r := Ok(cache[id]);
    }

    /** `lookup`: the result is the plain walk, whatever is cached. */
    method Lookup(root: Id, path: Bytes) returns (r: Result<Option<TreeEntry>>)
      requires CacheOk()
      modifies this
      ensures r == if Split(path).None? then Ok(None) else Walk(store.db.objs, RootEntry(root), Split(path).value)
      ensures r.Ok? ==> CacheOk()
    {
      var comps := SplitPath(path);
      if comps.None? {
        return Ok(None);
      }
      var out := RootEntry(root);
      assert comps.value[0..] == comps.value;
      for i := 0 to |comps.value|
        invariant CacheOk()
        invariant Walk(store.db.objs, RootEntry(root), comps.value) == Walk(store.db.objs, out, comps.value[i..])
      {
        if out.typ != DIRECTORY {
          return Ok(None);
        }
        assert comps.value[i..][1..] == comps.value[i + 1..];
        var es := Tree(out.id);
        if es.Err? {
          return Err(es.error);
        }
        EncodeDecode(store.db.objs[out.id]);
        var at := LowerBound(es.value, comps.value[i]);
        LowerBoundFinds(es.value, comps.value[i], at);
        if at == |es.value| || es.value[at].name != comps.value[i] {
          return Ok(None);
        }
        out := es.value[at];
      }
      r := Ok(Some(out));
    }
  }

  // ---------------------------------------------------------------- walking a flushed tree

  /** All listings of the tree are among the contents considered. */
  ghost predicate InPools(prim: Prim, pools: Pools, n: MemNode) {
    && (IsDir(n) ==> Encoded(Entries(prim, n)) in pools.trees)
    && forall k :: k in n.children ==> InPools(prim, pools, n.children[k])
  }

  lemma BuiltEntries(prim: Prim, n: MemNode)
    requires Sound(prim) && Built(n)
    ensures ValidEntries(Entries(prim, n))
  {
    var keys := SortedKeys(n.children.Keys);
    var es := Entries(prim, n);
    forall i | 0 <= i < |es| ensures Fits(es[i]) && ValidType(es[i].typ) {
      assert keys[i] in keys && Built(n.children[keys[i]]);
    }
    assert Names(es) == keys;
  }

  /** Reading a flushed directory gives its listing: nothing else can have that id. */
  lemma ReadsListing(prim: Prim, pools: Pools, objs: Objs, n: MemNode)
    requires Sound(prim) && PoolsOk(prim, pools) && Named(prim, pools, objs)
    requires Built(n) && InPools(prim, pools, n) && IsDir(n) && IdOf(prim, n) in objs
    ensures ReadTree(objs, IdOf(prim, n)) == Ok(Entries(prim, n))
    ensures objs[IdOf(prim, n)] in pools.trees
  {
    BuiltEntries(prim, n);
    DecodeEncode(Entries(prim, n));
    var content := Encoded(Entries(prim, n));
    assert content in pools.blobs + pools.trees && objs[IdOf(prim, n)] in pools.blobs + pools.trees;
  }

  lemma FindChild(prim: Prim, n: MemNode, name: Bytes)
    ensures FindName(Entries(prim, n), name) ==
            if name in n.children then Some(TreeEntry(name, n.children[name].typ, IdOf(prim, n.children[name]))) else None
  {
    var keys := SortedKeys(n.children.Keys);
    var es := Entries(prim, n);
    FindNameAt(es, name);
    forall i | 0 <= i < |es| ensures es[i].name == keys[i] && keys[i] in n.children { assert keys[i] in keys; }
    if name in n.children {
      var i := SortedKeysIndex(n.children.Keys, name);
      assert es[i].name == name && es[i] in es;
      var e := FindName(es, name).value;
      var j :| 0 <= j < |es| && es[j] == e;
      SortedDistinct(keys, i, j);
    }
  }

  function FinalName(comps: Path): Bytes {
    if comps == [] then [] else comps[|comps| - 1]
  }

  lemma ChildStored(prim: Prim, pools: Pools, objs: Objs, n: MemNode, name: Bytes)
    requires Sound(prim) && PoolsOk(prim, pools) && Closed(prim, pools, objs)
    requires Built(n) && InPools(prim, pools, n) && IsDir(n) && IdOf(prim, n) in objs && name in n.children
    ensures IdOf(prim, n.children[name]) in objs
  {
    ReadsListing(prim, pools, objs, n);
    FindChild(prim, n, name);
    FindNameAt(Entries(prim, n), name);
    assert FindName(Entries(prim, n), name).value in Listing(objs[IdOf(prim, n)]);
  }

  /** One step of the walk goes where the in-memory tree goes. */
  lemma WalkStep(prim: Prim, pools: Pools, objs: Objs, n: MemNode, name: Bytes, comps: Path)
    requires Sound(prim) && PoolsOk(prim, pools) && Closed(prim, pools, objs) && comps != []
    requires Built(n) && InPools(prim, pools, n) && IsDir(n) && IdOf(prim, n) in objs
    ensures Walk(objs, TreeEntry(name, n.typ, IdOf(prim, n)), comps) ==
            if comps[0] !in n.children then Ok(None)
            else
              var c := n.children[comps[0]];
              Walk(objs, TreeEntry(comps[0], c.typ, IdOf(prim, c)), comps[1..])
  {
    ReadsListing(prim, pools, objs, n);
    FindChild(prim, n, comps[0]);
  }

  /** The entry that stands for the in-memory node at a path. */
  function Shown(prim: Prim, n: MemNode, name: Bytes, comps: Path): Option<TreeEntry> {
    match At(n, comps)
    case None => None
    case Some(m) => Some(TreeEntry(if comps == [] then name else FinalName(comps), m.typ, IdOf(prim, m)))
  }

  lemma ShownStep(prim: Prim, n: MemNode, name: Bytes, comps: Path)
    requires comps != []
    ensures Shown(prim, n, name, comps) ==
            if IsDir(n) && comps[0] in n.children then Shown(prim, n.children[comps[0]], comps[0], comps[1..]) else None
  {
  }

  /** In a closed table that has the root, walking any path ends where the in-memory tree has it. */
  lemma {:induction false} WalkFinds(prim: Prim, pools: Pools, objs: Objs, n: MemNode, name: Bytes, comps: Path)
    requires Sound(prim) && PoolsOk(prim, pools) && Closed(prim, pools, objs)
    requires Built(n) && InPools(prim, pools, n) && (IsDir(n) ==> IdOf(prim, n) in objs)
    ensures Walk(objs, TreeEntry(name, n.typ, IdOf(prim, n)), comps) == Ok(Shown(prim, n, name, comps))
    decreases |comps|
  {
    if comps != [] {
      ShownStep(prim, n, name, comps);
      if IsDir(n) {
        WalkStep(prim, pools, objs, n, name, comps);
        if comps[0] in n.children {
          var c := n.children[comps[0]];
          ChildStored(prim, pools, objs, n, comps[0]);
          assert Built(c) && InPools(prim, pools, c);
          WalkFinds(prim, pools, objs, c, comps[0], comps[1..]);
        }
      }
    }
  }
}
