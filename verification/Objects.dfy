/** Blobs and trees in the object table: reading them, putting them, and the table being closed under tree edges. */
module Objects {
  import opened Basics
  import opened Primitives
  import opened TreeCodec
  import opened Cas

  type Objs = map<Id, Bytes>

  /** `TreeStore::readTree`. */
  function ReadTree(objs: Objs, id: Id): Result<seq<TreeEntry>> {
    if id in objs then DecodeTree(objs[id]) else Err(MissingTree)
  }

  /** The entries of a content, if it decodes. */
  function Listing(content: Bytes): seq<TreeEntry> {
    if DecodeTree(content).Ok? then DecodeTree(content).value else []
  }

  /** The object table after a put: an id that is already there keeps its content. */
  function PutObj(prim: Prim, objs: Objs, data: Bytes): Objs {
    if prim.hash(data) in objs then objs else objs[prim.hash(data) := data]
  }

  /**
   * The contents that are ever put in the runs considered: file contents and link targets in `blobs`, encoded
   * listings in `trees`. The hypotheses about hashes and roles are about these two finite sets.
   */
  datatype Pools = Pools(blobs: set<Bytes>, trees: set<Bytes>)

  function BlobIds(prim: Prim, pools: Pools): set<Id> {
    set b | b in pools.blobs :: prim.hash(b)
  }

  function TreeIds(prim: Prim, pools: Pools): set<Id> {
    set t | t in pools.trees :: prim.hash(t)
  }

  /**
   * No two contents collide; only the empty content is both a blob and a tree; each tree content decodes, and lists
   * trees as directories and blobs as anything else.
   */
  ghost predicate PoolsOk(prim: Prim, pools: Pools) {
    && CollisionFree(prim, pools.blobs + pools.trees)
    && pools.blobs * pools.trees <= {[]}
    && forall t :: t in pools.trees ==>
         && DecodeTree(t).Ok?
         && forall e :: e in Listing(t) ==>
              if e.typ == DIRECTORY then e.id in TreeIds(prim, pools) else e.id in BlobIds(prim, pools)
  }

  /**
   * All hypotheses can hold together: a file and a directory that lists it, two different contents whose digests a
   * sound hash tells apart.
   */
  lemma PoolsAreSatisfiable() returns (prim: Prim, pools: Pools, file: Bytes, listing: seq<TreeEntry>)
    ensures Sound(prim) && PoolsOk(prim, pools) && AllFit(listing)
    ensures pools == Pools({file}, {EncodeTree(listing)}) && file != EncodeTree(listing)
    ensures listing == [TreeEntry([97], REGULAR, prim.hash(file))]
  {
    file := [1];
    var ones: Bytes, zeros: Bytes := seq(HASH_LEN, i => 1), seq(HASH_LEN, i => 0);
    prim := Prim(d => if d == [1] then seq(HASH_LEN, i => 1) else seq(HASH_LEN, i => 0), d => None, (c, n) => None);
    assert prim.hash(file) == ones && ones[0] != zeros[0];
    listing := [TreeEntry([97], REGULAR, ones)];
    assert Names(listing) == [[97]];
    DecodeEncode(listing);
    var tree := EncodeTree(listing);
    assert |tree| > 1 && prim.hash(tree) == zeros;
    pools := Pools({file}, {tree});
    assert file in pools.blobs && prim.hash(file) in BlobIds(prim, pools);
  }

  /** Every object is one of those contents under its own hash. */
  ghost predicate Named(prim: Prim, pools: Pools, objs: Objs) {
    forall h :: h in objs ==> prim.hash(objs[h]) == h && objs[h] in pools.blobs + pools.trees
  }

  /** A tree present in the table has all its entries present: with the pools, all its descendants. */
  ghost predicate Closed(prim: Prim, pools: Pools, objs: Objs) {
    && Named(prim, pools, objs)
    && forall h :: h in objs && objs[h] in pools.trees ==>
         forall e :: e in Listing(objs[h]) ==> e.id in objs
  }

  /** A tree id that is present holds tree content. */
  lemma TreePresent(prim: Prim, pools: Pools, objs: Objs, id: Id)
    requires PoolsOk(prim, pools) && Named(prim, pools, objs) && id in objs && id in TreeIds(prim, pools)
    ensures objs[id] in pools.trees
  {
    var t :| t in pools.trees && prim.hash(t) == id;
    assert objs[id] in pools.blobs + pools.trees && t in pools.blobs + pools.trees;
  }

  lemma BlobPresent(prim: Prim, pools: Pools, objs: Objs, id: Id)
    requires PoolsOk(prim, pools) && Named(prim, pools, objs) && id in objs && id in BlobIds(prim, pools)
    ensures objs[id] in pools.blobs
  {
    var b :| b in pools.blobs && prim.hash(b) == id;
    assert objs[id] in pools.blobs + pools.trees && b in pools.blobs + pools.trees;
  }

  /** An id that is a blob and a tree has no entries. */
  lemma SharedIsEmpty(prim: Prim, pools: Pools, objs: Objs, id: Id)
    requires PoolsOk(prim, pools) && Named(prim, pools, objs)
    requires id in objs && objs[id] in pools.trees && id in BlobIds(prim, pools)
    ensures DecodeTree(objs[id]) == Ok([])
  {
    BlobPresent(prim, pools, objs, id);
    assert objs[id] in pools.blobs * pools.trees;
  }

  lemma PutNamed(prim: Prim, pools: Pools, objs: Objs, data: Bytes)
    requires PoolsOk(prim, pools) && Named(prim, pools, objs) && data in pools.blobs + pools.trees
    ensures Named(prim, pools, PutObj(prim, objs, data))
    ensures PutObj(prim, objs, data) == objs[prim.hash(data) := data]
  {
    var h := prim.hash(data);
    if h in objs {
      assert objs[h] in pools.blobs + pools.trees;
      assert objs[h := data] == objs;
    }
  }

  /** Putting a blob keeps the table closed: its content is no tree, or the empty one. */
  lemma PutBlobClosed(prim: Prim, pools: Pools, objs: Objs, data: Bytes)
    requires PoolsOk(prim, pools) && Closed(prim, pools, objs) && data in pools.blobs
    ensures Closed(prim, pools, PutObj(prim, objs, data))
    ensures var objs' := PutObj(prim, objs, data);
            prim.hash(data) in objs' && objs'[prim.hash(data)] == data
  {
    PutNamed(prim, pools, objs, data);
    var objs' := PutObj(prim, objs, data);
    forall h | h in objs' && objs'[h] in pools.trees
      ensures forall e :: e in Listing(objs'[h]) ==> e.id in objs'
    {
      if h == prim.hash(data) {
        assert data in pools.blobs * pools.trees;
        assert DecodeTree(data) == Ok([]);
      }
    }
  }

  /** Putting a tree whose entries are all present keeps the table closed. */
  lemma PutTreeClosed(prim: Prim, pools: Pools, objs: Objs, es: seq<TreeEntry>)
    requires PoolsOk(prim, pools) && Closed(prim, pools, objs) && ValidEntries(es)
    requires EncodeTree(es) in pools.trees
    requires forall e :: e in es ==> e.id in objs
    ensures var objs' := PutObj(prim, objs, EncodeTree(es));
            && Closed(prim, pools, objs')
            && prim.hash(EncodeTree(es)) in objs'
            && ReadTree(objs', prim.hash(EncodeTree(es))) == Ok(es)
  {
    DecodeEncode(es);
    PutNamed(prim, pools, objs, EncodeTree(es));
  }

  // ---------------------------------------------------------------- what closedness is for

  /** The tree at `id` can be read down to `depth` levels: every listing decodes, every blob is there. */
  ghost predicate Whole(objs: Objs, id: Id, depth: nat)
    decreases depth
  {
    && ReadTree(objs, id).Ok?
    && forall e :: e in Listing(objs[id]) ==>
         && e.id in objs
         && (e.typ == DIRECTORY && depth > 0 ==> Whole(objs, e.id, depth - 1))
  }

  /** The plugins ask only whether the root is present. In a closed table that is enough for the whole tree. */
  lemma {:induction false} RootImpliesWhole(prim: Prim, pools: Pools, objs: Objs, id: Id, depth: nat)
    requires PoolsOk(prim, pools) && Closed(prim, pools, objs)
    requires id in objs && id in TreeIds(prim, pools)
    ensures Whole(objs, id, depth)
    decreases depth
  {
    TreePresent(prim, pools, objs, id);
    forall e | e in Listing(objs[id])
      ensures e.id in objs && (e.typ == DIRECTORY && depth > 0 ==> Whole(objs, e.id, depth - 1))
    {
      if e.typ == DIRECTORY && depth > 0 {
        RootImpliesWhole(prim, pools, objs, e.id, depth - 1);
      }
    }
  }

  /** The object table after a compaction that keeps `live`. */
  function Swept(objs: Objs, live: set<Id>): Objs {
    map h | h in objs && h in live :: objs[h]
  }

  /** What a collection may leave: a subset closed under the edges of the trees in it. */
  lemma RestrictClosed(prim: Prim, pools: Pools, objs: Objs, live: set<Id>)
    requires PoolsOk(prim, pools) && Closed(prim, pools, objs)
    requires forall h :: h in objs && h in live && objs[h] in pools.trees ==>
               forall e :: e in Listing(objs[h]) ==> e.id in live
    ensures Closed(prim, pools, Swept(objs, live))
  {
  }
}
