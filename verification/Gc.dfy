/** `TreeStore`: blobs and trees in the CAS, root records, and garbage collection. */
module Gc {
  import opened Basics
  import opened Primitives
  import opened TreeCodec
  import opened Cas
  import opened Objects
  import opened Marking
  import opened Stamps
  import opened Lifetime

  /**
   * A history in order: every view of it is. So is whatever a crash leaves, wherever the syncs fall: the object table is
   * closed, so that a present tree root stands for its whole tree.
   */
  ghost predicate Orderly(prim: Prim, pools: Pools, log: seq<Cas>) {
    IsHistory(log) && forall i :: 0 <= i < |log| ==> DbOk(prim, pools, log[i].View())
  }

  /** A table in order, in which every tree root that is present is whole. */
  ghost predicate Sensible(prim: Prim, pools: Pools, db: Db) {
    && DbOk(prim, pools, db)
    && forall root, depth: nat :: root in db.objs && root in TreeIds(prim, pools) ==> Whole(db.objs, root, depth)
  }

  ghost predicate CrashesInOrder(prim: Prim, pools: Pools, log: seq<Cas>) {
    forall n :: 0 <= n < |log| ==> Sensible(prim, pools, log[n].Drop().View())
  }

  lemma OrderlyIsSensible(prim: Prim, pools: Pools, db: Db)
    requires PoolsOk(prim, pools) && DbOk(prim, pools, db)
    ensures Sensible(prim, pools, db)
  {
    forall root, depth: nat | root in db.objs && root in TreeIds(prim, pools) ensures Whole(db.objs, root, depth) {
      RootImpliesWhole(prim, pools, db.objs, root, depth);
    }
  }

  lemma CrashLeavesInOrder(prim: Prim, pools: Pools, log: seq<Cas>)
    requires PoolsOk(prim, pools) && Orderly(prim, pools, log)
    ensures CrashesInOrder(prim, pools, log)
  {
    forall n | 0 <= n < |log| ensures Sensible(prim, pools, log[n].Drop().View()) {
      var i := CrashLeavesAView(log, n);
      OrderlyIsSensible(prim, pools, log[i].View());
    }
  }

  /** Nothing but root records and the collection's own stamp differs. */
  ghost predicate OthersKept(a: Meta, b: Meta) {
    forall k :: !RootRecord(k) && k != LAST_GC ==> (k in a <==> k in b) && (k in a ==> a[k] == b[k])
  }

  /** Every view since has the same records apart from roots. */
  ghost predicate OthersSince(db0: Db, log0: seq<Cas>, log: seq<Cas>) {
    log0 <= log && forall i :: |log0| <= i < |log| ==> OthersKept(db0.meta, log[i].View().meta)
  }

  /** Every view since has the same objects, and the same records apart from roots. */
  ghost predicate OnlyRootsSince(db0: Db, log0: seq<Cas>, log: seq<Cas>) {
    log0 <= log && forall i :: |log0| <= i < |log| ==> log[i].View().objs == db0.objs && OthersKept(db0.meta, log[i].View().meta)
  }

  /** Every view since has the same objects and records, apart from newer stamps of roots. */
  ghost predicate OnlyStampsSince(db0: Db, log0: seq<Cas>, log: seq<Cas>) {
    OnlyRootsSince(db0, log0, log) && forall i :: |log0| <= i < |log| ==> db0.meta.Keys <= log[i].View().meta.Keys
  }

  /** The touches whose keys have been written so far. */
  function Written(batch: map<Bytes, nat>, keys: seq<Bytes>): map<Bytes, nat> {
    map k | k in batch && k in keys :: batch[k]
  }

  lemma WrittenNone(meta: Meta, batch: map<Bytes, nat>)
    ensures Flushed(meta, Written(batch, [])) == meta
  {
  }

  lemma WrittenNext(meta: Meta, batch: map<Bytes, nat>, keys: seq<Bytes>, i: nat)
    requires i < |keys| && forall k :: k in keys <==> k in batch
    ensures keys[i] in batch
    ensures Flushed(meta, Written(batch, keys[..i + 1])) == Flushed(meta, Written(batch, keys[..i]))[keys[i] := Be64(batch[keys[i]])]
  {
    assert keys[i] in keys;
    assert keys[..i + 1] == keys[..i] + [keys[i]];
  }

  lemma WrittenAll(batch: map<Bytes, nat>, keys: seq<Bytes>)
    requires forall k :: k in keys <==> k in batch
    ensures Written(batch, keys[..|keys|]) == batch
  {
    assert keys[..|keys|] == keys;
  }

  lemma StampsSinceNext(db0: Db, log0: seq<Cas>, log: seq<Cas>, batch: map<Bytes, nat>, keys: seq<Bytes>, db: Db,
                        log': seq<Cas>)
    requires OnlyStampsSince(db0, log0, log) && (forall k :: k in batch ==> RootRecord(k)) && Now(log, log', db)
    requires db == db0.(meta := Flushed(db0.meta, Written(batch, keys)))
    ensures OnlyStampsSince(db0, log0, log')
  {
  }

  lemma OthersSinceNext(db0: Db, log0: seq<Cas>, log: seq<Cas>, db: Db, log': seq<Cas>)
    requires OthersSince(db0, log0, log) && OthersKept(db0.meta, db.meta) && Now(log, log', db)
    ensures OthersSince(db0, log0, log')
  {
  }

  lemma RootsSinceNext(db0: Db, log0: seq<Cas>, log: seq<Cas>, db: Db, log': seq<Cas>)
    requires OnlyRootsSince(db0, log0, log) && OthersKept(db0.meta, db.meta) && db.objs == db0.objs && Now(log, log', db)
    ensures OnlyRootsSince(db0, log0, log')
  {
  }

  lemma OthersSinceChain(a: Db, la: seq<Cas>, b: Db, lb: seq<Cas>, lc: seq<Cas>)
    requires OthersSince(a, la, lb) && OthersKept(a.meta, b.meta) && OthersSince(b, lb, lc)
    ensures OthersSince(a, la, lc)
  {
    forall i | |la| <= i < |lc| ensures OthersKept(a.meta, lc[i].View().meta) {
      if i < |lb| { assert lc[i] == lb[i]; }
    }
  }

  predicate ExpiredKey(meta: Meta, key: Bytes, prefix: Byte, now: nat, ttl: nat) {
    key in meta && HasPrefix(key, prefix) && IsTimestamp(meta[key]) && Age(now, FromBigEndian(meta[key])) >= ttl
  }

  function KeySet(keys: seq<Bytes>): set<Bytes> {
    set k | k in keys
  }

  /** With the first `i` keys scanned: the expired ones among them, as a list and as a set. */
  ghost predicate ScanState(meta: Meta, prefix: Byte, now: nat, ttl: nat, keys: seq<Bytes>, i: nat,
                            expired: seq<Bytes>, found: set<Bytes>)
  {
    && i <= |keys| && found == KeySet(expired) && |found| == |expired|
    && forall k :: k in found <==> k in keys[..i] && ExpiredKey(meta, k, prefix, now, ttl)
  }

  lemma ScanNext(meta: Meta, prefix: Byte, now: nat, ttl: nat, keys: seq<Bytes>, i: nat, expired: seq<Bytes>,
                 found: set<Bytes>)
    requires ScanState(meta, prefix, now, ttl, keys, i, expired, found) && Sorted(keys) && i < |keys|
    ensures var hit := ExpiredKey(meta, keys[i], prefix, now, ttl);
            ScanState(meta, prefix, now, ttl, keys, i + 1,
                      if hit then expired + [keys[i]] else expired, if hit then found + {keys[i]} else found)
  {
    assert keys[..i + 1] == keys[..i] + [keys[i]];
    SortedRepeats(keys, i);
    var expired' := expired + [keys[i]];
    assert KeySet(expired') == KeySet(expired) + {keys[i]};
  }

  lemma ScanDone(meta: Meta, prefix: Byte, now: nat, ttl: nat, expired: seq<Bytes>, found: set<Bytes>)
    requires var keys := SortedKeys(KeysWith(meta, prefix)); ScanState(meta, prefix, now, ttl, keys, |keys|, expired, found)
    ensures found == Expired(meta, prefix, now, ttl)
  {
    var keys := SortedKeys(KeysWith(meta, prefix));
    assert keys[..|keys|] == keys;
  }

  function KeysWith(meta: Meta, prefix: Byte): set<Bytes> {
    set k | k in meta && HasPrefix(k, prefix)
  }

  /** In a closed table, marking reaches nothing missing but the missing roots themselves. */
  lemma ReachPresent(prim: Prim, pools: Pools, objs: Objs, seeds: set<Id>, live: set<Id>)
    requires Closed(prim, pools, objs) && IsReach(pools, objs, seeds, live)
    ensures live <= seeds + objs.Keys
  {
    assert ClosedSet(pools, objs, seeds + objs.Keys);
  }

  /** Blob roots point nowhere, so adding them to a marked set leaves it closed. */
  lemma ReachBlobs(prim: Prim, pools: Pools, objs: Objs, seeds: set<Id>, live: set<Id>, blobs: set<Id>)
    requires PoolsOk(prim, pools) && Named(prim, pools, objs) && IsReach(pools, objs, seeds, live)
    requires blobs <= BlobIds(prim, pools)
    ensures IsReach(pools, objs, seeds + blobs, live + blobs)
  {
    forall t | t in live + blobs ensures Succ(pools, objs, t) <= live + blobs {
      if t in blobs && t in objs && objs[t] in pools.trees { SharedIsEmpty(prim, pools, objs, t); }
    }
    forall s: set<Id> | seeds + blobs <= s && ClosedSet(pools, objs, s) ensures live + blobs <= s {
      assert live <= s;
    }
  }

  function RootIds(keys: seq<Bytes>): set<Id> {
    set k | k in keys && k != [] :: k[1..]
  }

  lemma RootIdsNext(keys: seq<Bytes>, i: nat)
    requires i < |keys| && keys[i] != []
    ensures RootIds(keys[..i + 1]) == RootIds(keys[..i]) + {keys[i][1..]}
  {
    assert keys[..i + 1] == keys[..i] + [keys[i]];
  }

  /** A missing root is not marked before its own turn: nothing present points to it. */
  lemma NotMarkedYet(prim: Prim, pools: Pools, objs: Objs, keys: seq<Bytes>, i: nat, live: set<Id>)
    requires Closed(prim, pools, objs) && Sorted(keys) && i < |keys|
    requires HasPrefix(keys[i], TREE_PREFIX) && forall j :: 0 <= j < i ==> HasPrefix(keys[j], TREE_PREFIX)
    requires IsReach(pools, objs, RootIds(keys[..i]), live)
    ensures keys[i][1..] in live ==> keys[i][1..] in objs
  {
    var seeds := RootIds(keys[..i]);
    ReachPresent(prim, pools, objs, seeds, live);
    if keys[i][1..] in seeds {
      var k :| k in keys[..i] && k != [] && k[1..] == keys[i][1..];
      var j :| 0 <= j < i && keys[j] == k;
      assert k == [k[0]] + k[1..] && keys[i] == [keys[i][0]] + keys[i][1..];
      SortedRepeats(keys, i);
    }
  }

  /** The keys of the scan: tree roots, all of them, each with a tree id. */
  lemma TreeRootKeys(prim: Prim, pools: Pools, meta: Meta)
    requires RootsOk(prim, pools, meta.Keys)
    ensures var keys := SortedKeys(KeysWith(meta, TREE_PREFIX));
            && (forall j :: 0 <= j < |keys| ==> HasPrefix(keys[j], TREE_PREFIX) && keys[j][1..] in TreeIds(prim, pools))
            && (forall k :: k in keys <==> k in meta && HasPrefix(k, TREE_PREFIX))
            && RootIds(keys) == RootsOf(meta, TREE_PREFIX)
  {
    var keys := SortedKeys(KeysWith(meta, TREE_PREFIX));
    forall j | 0 <= j < |keys| ensures HasPrefix(keys[j], TREE_PREFIX) && keys[j][1..] in TreeIds(prim, pools) {
      assert keys[j] in keys;
      assert KeyOk(prim, pools, keys[j]);
    }
    assert RootIds(keys) == RootsOf(meta, TREE_PREFIX);
  }

  lemma BrokenNext(objs: Objs, keys: seq<Bytes>, i: nat, broken: seq<Bytes>)
    requires i < |keys| && forall k :: k in broken <==> k in keys[..i] && MissingRoot(objs, k)
    ensures var broken' := if MissingRoot(objs, keys[i]) then broken + [keys[i]] else broken;
            forall k :: k in broken' <==> k in keys[..i + 1] && MissingRoot(objs, k)
  {
    assert keys[..i + 1] == keys[..i] + [keys[i]];
  }

  lemma DeletedNext(meta: Meta, keys: seq<Bytes>, i: nat)
    requires i < |keys|
    ensures meta - KeySet(keys[..i + 1]) == (meta - KeySet(keys[..i])) - {keys[i]}
  {
    assert keys[..i + 1] == keys[..i] + [keys[i]];
  }

  lemma DeletedAll(meta: Meta, keys: seq<Bytes>)
    ensures meta - KeySet(keys[..0]) == meta && keys[..|keys|] == keys
  {
  }

  lemma StampsSinceSync(db0: Db, log0: seq<Cas>, log: seq<Cas>, db: Db, log': seq<Cas>, pending: map<Bytes, nat>)
    requires OnlyStampsSince(db0, log0, log) && Now(log, log', db) && forall k :: k in pending ==> RootRecord(k)
    requires db == db0.(meta := Flushed(db0.meta, pending))
    ensures OnlyStampsSince(db0, log0, log')
  {
  }

  /** What one call of `mark_live` adds to the marking of the roots before it. */
  lemma MarkedRoot(prim: Prim, pools: Pools, objs: Objs, keys: seq<Bytes>, i: nat, before: set<Id>, ok: bool,
                   live: set<Id>)
    requires Closed(prim, pools, objs) && i < |keys| && keys[i] != []
    requires IsReach(pools, objs, RootIds(keys[..i]), before)
    requires ok ==> IsReach(pools, objs, before + {keys[i][1..]}, live)
    requires !ok ==> live == before + {keys[i][1..]} && keys[i][1..] !in objs
    ensures IsReach(pools, objs, RootIds(keys[..i + 1]), live)
  {
    RootIdsNext(keys, i);
    assert ClosedSet(pools, objs, live);
    ReachAdd(pools, objs, RootIds(keys[..i]), before, keys[i][1..], live);
  }

  lemma SortedRepeats(keys: seq<Bytes>, i: nat)
    requires Sorted(keys) && i < |keys|
    ensures keys[i] !in keys[..i]
  {
    if keys[i] in keys[..i] {
      var j :| 0 <= j < i && keys[j] == keys[i];
      LessIrreflexive(keys[i]);
    }
  }

  /** Once the touches are flushed, the collection goes on as from there. */
  lemma FlushedTwice(meta: Meta, pending: map<Bytes, nat>, now: nat, ttl: nat)
    ensures AfterExpiry(Flushed(meta, pending), map[], now, ttl) == AfterExpiry(meta, pending, now, ttl)
    ensures SomethingExpires(Flushed(meta, pending), map[], now, ttl) == SomethingExpires(meta, pending, now, ttl)
  {
    assert Flushed(Flushed(meta, pending), map[]) == Flushed(meta, pending);
  }

  lemma OthersKeptByExpiry(meta: Meta, now: nat, ttl: nat)
    ensures OthersKept(meta, AfterExpiry(meta, map[], now, ttl))
  {
    assert Flushed(meta, map[]) == meta;
  }

  /** Tree and blob roots expire independently. */
  lemma ExpiresApart(meta: Meta, now: nat, ttl: nat)
    ensures var trees := Expired(meta, TREE_PREFIX, now, ttl);
            Expired(meta - trees, BLOB_PREFIX, now, ttl) == Expired(meta, BLOB_PREFIX, now, ttl)
  {
  }

  lemma AllExpired(meta: Meta, prefix: Byte, now: nat, ttl: nat, keys: seq<Bytes>)
    requires KeySet(keys) == Expired(meta, prefix, now, ttl)
    ensures forall k :: k in keys ==> HasPrefix(k, prefix)
  {
    forall k | k in keys ensures HasPrefix(k, prefix) {
      assert k in KeySet(keys);
      assert k in Expired(meta, prefix, now, ttl);
    }
  }

  /** What a collection leaves can be said with any set that is the least closed one. */
  lemma GcCollected(su: Setup, st: Snapshot, now: nat, live: set<Id>)
    requires Collects(su, st, now) && SomethingExpires(st.db.meta, st.pending, now, su.ttl)
    requires var meta := AfterExpiry(st.db.meta, st.pending, now, su.ttl);
             IsReach(su.pools, st.db.objs, RootsOf(meta, TREE_PREFIX) + RootsOf(meta, BLOB_PREFIX), live)
    ensures AfterGc(su, st, now) ==
            Snapshot(Db(Swept(st.db.objs, live), RecordsAfter(st.db.objs, AfterExpiry(st.db.meta, st.pending, now, su.ttl))), map[])
  {
    var meta := AfterExpiry(st.db.meta, st.pending, now, su.ttl);
    var roots := RootsOf(meta, TREE_PREFIX) + RootsOf(meta, BLOB_PREFIX);
    ReachUnique(su.pools, st.db.objs, roots, live, Reach(su.pools, st.db.objs, roots));
  }

  class TreeStore {
    const prim: Prim
    ghost const pools: Pools
    const ttl: nat
    const gcInterval: nat
    const touchInterval: nat

    /** What the writer thread sees, and every state of the CAS so far, with a sync possible after every put. */
    var db: Db
    ghost var log: seq<Cas>
    var pendingTouch: map<Bytes, nat>

    ghost predicate Valid()
      reads this
    {
      && PoolsOk(prim, pools)
      && Orderly(prim, pools, log) && log[|log| - 1].View() == db
      && RootsOk(prim, pools, pendingTouch.Keys)
      && (forall k :: k in pendingTouch ==> RootRecord(k))
    }

    /** Everything the writer sees is committed. */
    ghost predicate Settled()
      reads this
    {
      log != [] && log[|log| - 1].pending.None?
    }

    ghost function Config(): Setup {
      Setup(prim, pools, ttl, gcInterval, touchInterval)
    }

    ghost function Snap(): Snapshot
      reads this
    {
      Snapshot(db, pendingTouch)
    }

    /** Opens on what an earlier process left committed. */
    constructor (prim: Prim, ghost pools: Pools, db: Db, ttl: nat, gcInterval: nat, touchInterval: nat)
      requires PoolsOk(prim, pools) && DbOk(prim, pools, db)
      ensures Valid() && Settled() && Snap() == Snapshot(db, map[]) && log == [Cas(db, None)]
      ensures Config() == Setup(prim, pools, ttl, gcInterval, touchInterval)
    {
      this.prim, this.pools, this.db := prim, pools, db;
      this.ttl, this.gcInterval, this.touchInterval := ttl, gcInterval, touchInterval;
      log := [Cas(db, None)];
      pendingTouch := map[];
    }

    /** Notes an operation of the CAS that has just led to `db`. */
    ghost method Log(op: Op)
      requires Orderly(prim, pools, log) && DbOk(prim, pools, db) && Apply(log[|log| - 1], op).View() == db
      modifies this`log
      ensures Orderly(prim, pools, log) && log[|log| - 1].View() == db && Now(old(log), log, db)
      ensures log == old(log) + [Apply(old(log)[|old(log)| - 1], op)]
    {
      HistoryNext(log, op);
      log := log + [Apply(log[|log| - 1], op)];
    }

    /** A put, and perhaps the sync that it makes by itself. */
    ghost method LogPut(data: Bytes)
      requires Orderly(prim, pools, log) && DbOk(prim, pools, db)
      requires db == log[|log| - 1].View().(objs := PutObj(prim, log[|log| - 1].View().objs, data))
      modifies this`log
      ensures Orderly(prim, pools, log) && log[|log| - 1].View() == db && Now(old(log), log, db)
    {
      Log(Store(prim.hash(data), data));
      var synced: bool := *;
      if synced {
        Log(Flush);
      }
    }

    /** `put` of the CAS, for a content that leaves the table closed. */
    method PutData(data: Bytes) returns (id: Id)
      requires Valid() && Closed(prim, pools, PutObj(prim, db.objs, data))
      modifies this`db, this`log
      ensures Valid() && id == prim.hash(data)
      ensures Snap() == Next(Config(), old(Snap()), PutObject(data)) && Now(old(log), log, db)
    {
      id := prim.hash(data);
      if id !in db.objs {
        db := db.(objs := db.objs[id := data]);
      }
      LogPut(data);
    }

    /** `putBlob`. */
    method PutBlob(data: Bytes) returns (id: Id)
      requires Valid() && data in pools.blobs
      modifies this`db, this`log
      ensures Valid() && id == prim.hash(data) && id in db.objs && db.objs[id] == data
      ensures Snap() == Next(Config(), old(Snap()), PutObject(data)) && Now(old(log), log, db)
    {
      PutBlobClosed(prim, pools, db.objs, data);
      id := PutData(data);
    }

    /** `putTree`. The entries of a tree are put before it. */
    method PutTree(entries: seq<TreeEntry>) returns (r: Result<Id>)
      requires Valid()
      requires AllFit(entries) ==>
                 && ValidEntries(entries) && EncodeTree(entries) in pools.trees
                 && forall e :: e in entries ==> e.id in db.objs
      modifies this`db, this`log
      ensures Valid() && (r.Ok? <==> AllFit(entries))
      ensures r.Err? ==> r.error == EntryTooLarge && db == old(db) && log == old(log)
      ensures r.Ok? ==>
                && r.value == prim.hash(EncodeTree(entries))
                && Snap() == Next(Config(), old(Snap()), PutObject(EncodeTree(entries)))
                && Now(old(log), log, db)
                && Objects.ReadTree(db.objs, r.value) == Ok(entries)
    {
      var buf := EncodeEntries(entries);
      if buf.Err? {
        return Err(buf.error);
      }
      PutTreeClosed(prim, pools, db.objs, entries);
      var id := PutData(buf.value);
      r := Ok(id);
    }

    /** `readTree`. */
    method ReadTree(id: Id) returns (r: Result<seq<TreeEntry>>)
      ensures r == Objects.ReadTree(db.objs, id)
    {
      if id !in db.objs {
        return Err(MissingTree);
      }
      r := DecodeEntries(db.objs[id]);
    }

    /** `readBlobView`. */
    method ReadBlob(id: Id) returns (r: Option<Bytes>)
      ensures r == if id in db.objs then Some(db.objs[id]) else None
    {
      r := if id in db.objs then Some(db.objs[id]) else None;
    }

    /** `hasTree`: all the plugins ask before serving a cached root. It is enough. */
    method HasTree(id: Id) returns (r: bool)
      requires Valid()
      ensures r <==> id in db.objs
      ensures r && id in TreeIds(prim, pools) ==> forall depth :: Whole(db.objs, id, depth)
    {
      r := id in db.objs;
      if r && id in TreeIds(prim, pools) {
        forall depth ensures Whole(db.objs, id, depth) { RootImpliesWhole(prim, pools, db.objs, id, depth); }
      }
    }

    method MetaPut(key: Bytes, val: Bytes)
      requires Valid() && KeyOk(prim, pools, key)
      modifies this`db, this`log
      ensures Valid() && Snap() == Next(Config(), old(Snap()), SetOther(key, val))
      ensures Now(old(log), log, db) && (old(Settled()) ==> Settled())
    {
      db := db.(meta := db.meta[key := val]);
      Log(SetRecord(key, val));
    }

    method MetaDel(key: Bytes)
      requires Valid()
      modifies this`db, this`log
      ensures Valid() && Snap() == Next(Config(), old(Snap()), DelOther(key))
      ensures Now(old(log), log, db) && (old(Settled()) ==> Settled())
    {
      db := db.(meta := db.meta - {key});
      Log(DelRecord(key));
    }

    method RegisterRoot(root: Id, tree: bool, now: nat)
      requires Valid() && root in (if tree then TreeIds(prim, pools) else BlobIds(prim, pools))
      modifies this`db, this`log
      ensures Valid() && Snap() == Next(Config(), old(Snap()), Register(root, tree, now))
      ensures Now(old(log), log, db) && (old(Settled()) ==> Settled())
    {
      RootKeyOk(prim, pools, root, tree);
      MetaPut(RootKey(root, tree), Be64(now));
    }

    method TouchRoot(root: Id, tree: bool, now: nat)
      requires Valid()
      modifies this`pendingTouch
      ensures Valid() && Snap() == Next(Config(), old(Snap()), Touch(root, tree, now))
    {
      var key := RootKey(root, tree);
      assert key[1..] == root;
      if key !in db.meta || !IsTimestamp(db.meta[key]) {
        return;
      }
      if Age(now, FromBigEndian(db.meta[key])) < touchInterval {
        return;
      }
      if key !in pendingTouch {
        assert KeyOk(prim, pools, key);
        pendingTouch := pendingTouch[key := now];
      }
    }

    /** With the first `i` deferred stamps written, since the store was at `db0`. */
    ghost predicate FlushState(batch: map<Bytes, nat>, keys: seq<Bytes>, i: nat, db0: Db, log0: seq<Cas>)
      reads this
    {
      && Valid() && i <= |keys| && pendingTouch == map[]
      && (forall k :: k in keys <==> k in batch)
      && RootsOk(prim, pools, batch.Keys) && (forall k :: k in batch ==> RootRecord(k))
      && db == db0.(meta := Flushed(db0.meta, Written(batch, keys[..i])))
      && OnlyStampsSince(db0, log0, log)
    }

    method FlushStamp(batch: map<Bytes, nat>, keys: seq<Bytes>, i: nat, ghost db0: Db, ghost log0: seq<Cas>)
      requires i < |keys| && FlushState(batch, keys, i, db0, log0)
      modifies this`db, this`log
      ensures FlushState(batch, keys, i + 1, db0, log0) && (old(Settled()) ==> Settled())
    {
      WrittenNext(db0.meta, batch, keys, i);
      ghost var before := log;
      MetaPut(keys[i], Be64(batch[keys[i]]));
      StampsSinceNext(db0, log0, before, batch, keys[..i + 1], db, log);
    }

    /** `flush_touches`: the deferred stamps, in whatever order. */
    method FlushTouches()
      requires Valid()
      modifies this
      ensures Valid() && pendingTouch == map[]
      ensures db == old(db).(meta := Flushed(old(db).meta, old(pendingTouch)))
      ensures OnlyStampsSince(old(db), old(log), log) && (old(Settled()) ==> Settled())
    {
      var batch := pendingTouch;
      pendingTouch := map[];
      var keys := SortedKeys(batch.Keys);
      WrittenNone(db.meta, batch);
      assert FlushState(batch, keys, 0, old(db), old(log)) by { assert keys[..0] == []; }
      for i := 0 to |keys|
        invariant FlushState(batch, keys, i, old(db), old(log)) && (old(Settled()) ==> Settled())
      {
        FlushStamp(batch, keys, i, old(db), old(log));
      }
      WrittenAll(batch, keys);
    }

    /** `sync`: flush the touches, then commit, which does not change what the writer sees. */
    method Sync(ghost now: nat)
      requires Valid()
      modifies this
      ensures Valid() && Settled() && Snap() == Next(Config(), old(Snap()), SyncAll(now))
      ensures OnlyStampsSince(old(db), old(log), log)
    {
      FlushTouches();
      ghost var before := log;
      Log(Flush);
      StampsSinceSync(old(db), old(log), before, db, log, old(pendingTouch));
    }

    /** The scan of `expire_roots`. */
    method ScanExpired(prefix: Byte, now: nat) returns (expired: seq<Bytes>)
      ensures KeySet(expired) == Expired(db.meta, prefix, now, ttl)
      ensures |expired| == |Expired(db.meta, prefix, now, ttl)|
    {
      var keys := SortedKeys(KeysWith(db.meta, prefix));
      expired := [];
      ghost var found: set<Bytes> := {};
      for i := 0 to |keys|
        invariant ScanState(db.meta, prefix, now, ttl, keys, i, expired, found)
      {
        assert keys[i] in keys;
        ScanNext(db.meta, prefix, now, ttl, keys, i, expired, found);
        if IsTimestamp(db.meta[keys[i]]) && Age(now, FromBigEndian(db.meta[keys[i]])) >= ttl {
          expired := expired + [keys[i]];
          found := found + {keys[i]};
        }
      }
      ScanDone(db.meta, prefix, now, ttl, expired, found);
    }

    /** With the first `i` of those records deleted, since the store was at `db0`. */
    ghost predicate DeleteState(keys: seq<Bytes>, i: nat, db0: Db, log0: seq<Cas>)
      reads this
    {
      && Valid() && i <= |keys| && (forall k :: k in keys ==> RootRecord(k))
      && db == db0.(meta := db0.meta - KeySet(keys[..i]))
      && OnlyRootsSince(db0, log0, log)
    }

    method DeleteNext(keys: seq<Bytes>, i: nat, ghost db0: Db, ghost log0: seq<Cas>)
      requires i < |keys| && DeleteState(keys, i, db0, log0)
      modifies this`db, this`log
      ensures DeleteState(keys, i + 1, db0, log0) && (old(Settled()) ==> Settled())
    {
      ghost var before := log;
      MetaDel(keys[i]);
      DeletedNext(db0.meta, keys, i);
      RootsSinceNext(db0, log0, before, db, log);
    }

    /** Deletes root records one by one. */
    method DeleteAll(keys: seq<Bytes>)
      requires Valid() && forall k :: k in keys ==> RootRecord(k)
      modifies this`db, this`log
      ensures Valid() && db == old(db).(meta := old(db).meta - KeySet(keys))
      ensures OnlyRootsSince(old(db), old(log), log) && (old(Settled()) ==> Settled())
    {
      DeletedAll(db.meta, keys);
      for i := 0 to |keys|
        invariant DeleteState(keys, i, old(db), old(log)) && (old(Settled()) ==> Settled())
      {
        DeleteNext(keys, i, old(db), old(log));
      }
    }

    /** `expire_roots`: scan for old stamps, then delete. */
    method ExpireRoots(prefix: Byte, now: nat) returns (count: nat)
      requires Valid() && (prefix == TREE_PREFIX || prefix == BLOB_PREFIX)
      modifies this`db, this`log
      ensures Valid() && db == old(db).(meta := old(db).meta - Expired(old(db).meta, prefix, now, ttl))
      ensures count == |Expired(old(db).meta, prefix, now, ttl)|
      ensures OnlyRootsSince(old(db), old(log), log) && (old(Settled()) ==> Settled())
    {
      var expired := ScanExpired(prefix, now);
      AllExpired(db.meta, prefix, now, ttl, expired);
      DeleteAll(expired);
      count := |expired|;
    }

    /** Marks one more tree root; false if the root's object is missing. */
    method MarkNext(ghost keys: seq<Bytes>, ghost i: nat, root: Id, before: set<Id>) returns (ok: bool, live: set<Id>)
      requires Valid() && Sorted(keys) && i < |keys| && forall j :: 0 <= j < |keys| ==> HasPrefix(keys[j], TREE_PREFIX)
      requires HasPrefix(keys[i], TREE_PREFIX) && root == keys[i][1..] && root in TreeIds(prim, pools)
      requires IsReach(pools, db.objs, RootIds(keys[..i]), before)
      ensures ok <==> !MissingRoot(db.objs, keys[i])
      ensures IsReach(pools, db.objs, RootIds(keys[..i + 1]), live)
    {
      NotMarkedYet(prim, pools, db.objs, keys, i, before);
      var r;
      ghost var expanded;
      r, live, expanded := MarkLive(db.objs, root, before);
      MarkRootReaches(prim, pools, db.objs, root, before);
      MarkedRoot(prim, pools, db.objs, keys, i, before, r.Ok?, live);
      ok := r.Ok?;
    }

    /** The marking part of `maybeGc`: every tree root in key order; roots that cannot be read are reported. */
    method MarkRoots() returns (live: set<Id>, broken: seq<Bytes>)
      requires Valid()
      ensures IsReach(pools, db.objs, RootsOf(db.meta, TREE_PREFIX), live)
      ensures forall k :: k in broken <==> k in db.meta && HasPrefix(k, TREE_PREFIX) && MissingRoot(db.objs, k)
    {
      var keys := SortedKeys(KeysWith(db.meta, TREE_PREFIX));
      live, broken := {}, [];
      TreeRootKeys(prim, pools, db.meta);
      for i := 0 to |keys|
        invariant IsReach(pools, db.objs, RootIds(keys[..i]), live)
        invariant forall k :: k in broken <==> k in keys[..i] && MissingRoot(db.objs, k)
      {
        BrokenNext(db.objs, keys, i, broken);
        var ok;
        ok, live := MarkNext(keys, i, keys[i][1..], live);
        if !ok {
          broken := broken + [keys[i]];
        }
      }
      assert keys[..|keys|] == keys;
    }

    /** How a collection ends, from the store as it was: what is left of objects and records. */
    ghost predicate Collected(was: Snapshot, now: nat, collected: bool, live: set<Id>)
      reads this
    {
      var meta := AfterExpiry(was.db.meta, was.pending, now, ttl);
      && Snap() == AfterGc(Config(), was, now)
      && (collected <==> Collects(Config(), was, now) && SomethingExpires(was.db.meta, was.pending, now, ttl))
      && (!collected ==> db.objs == was.db.objs)
      && (collected ==>
            && IsReach(pools, was.db.objs, RootsOf(meta, TREE_PREFIX) + RootsOf(meta, BLOB_PREFIX), live)
            && db.objs == Swept(was.db.objs, live) && db.meta == RecordsAfter(was.db.objs, meta))
    }

    /**
     * `maybeGc`. A collection leaves exactly the old objects in the least closed set over the unexpired roots, with
     * their contents; the records left are the unexpired ones whose tree is present. Every view in between is in order,
     * and so is what a crash at any point leaves.
     */
    method MaybeGc(now: nat) returns (collected: bool, ghost live: set<Id>)
      requires Valid()
      modifies this
      ensures Valid() && OthersSince(old(db), old(log), log) && (old(Settled()) ==> Settled())
      ensures CrashesInOrder(prim, pools, log)
      ensures Snap() == Next(Config(), old(Snap()), Lifetime.Gc(now)) && Collected(old(Snap()), now, collected, live)
    {
      ghost var touches := pendingTouch;
      FlushTouches();
      FlushedTwice(old(db).meta, touches, now, ttl);
      live := {};
      CrashLeavesInOrder(prim, pools, log);
      if LAST_GC in db.meta && IsTimestamp(db.meta[LAST_GC]) && Age(now, FromBigEndian(db.meta[LAST_GC])) < gcInterval {
        return false, {};
      }
      ghost var db1, log1 := db, log;
      collected, live := Collect(now);
      OthersSinceChain(old(db), old(log), db1, log1, log);
      CrashLeavesInOrder(prim, pools, log);
      if collected {
        GcCollected(Config(), old(Snap()), now, live);
      }
    }

    /** The part of `maybeGc` when it is not too soon: expire, and sweep if anything did. */
    method Collect(now: nat) returns (collected: bool, ghost live: set<Id>)
      requires Valid()
      modifies this`db, this`log
      ensures Valid() && OthersSince(old(db), old(log), log) && (old(Settled()) ==> Settled())
      ensures collected <==> SomethingExpires(old(db).meta, map[], now, ttl)
      ensures var meta := AfterExpiry(old(db).meta, map[], now, ttl);
              if !collected then db == old(db).(meta := meta)
              else
                && IsReach(pools, old(db).objs, RootsOf(meta, TREE_PREFIX) + RootsOf(meta, BLOB_PREFIX), live)
                && db == Db(Swept(old(db).objs, live), RecordsAfter(old(db).objs, meta))
    {
      live := {};
      var expired := StampAndExpire(now);
      OthersKeptByExpiry(old(db).meta, now, ttl);
      collected := expired != 0;
      if collected {
        ghost var db1, log1 := db, log;
        live := Sweep();
        OthersSinceChain(old(db), old(log), db1, log1, log);
      }
    }

    /** The part of `maybeGc` before marking: stamp itself, expire roots. */
    method StampAndExpire(now: nat) returns (count: nat)
      requires Valid()
      modifies this`db, this`log
      ensures Valid() && OthersSince(old(db), old(log), log) && (old(Settled()) ==> Settled())
      ensures db == old(db).(meta := AfterExpiry(old(db).meta, map[], now, ttl))
      ensures count == 0 <==> !SomethingExpires(old(db).meta, map[], now, ttl)
    {
      assert Flushed(db.meta, map[]) == db.meta;
      ghost var db0, log0 := db, log;
      MetaPut(LAST_GC, Be64(now));
      OthersSinceNext(db0, log0, log0, db, log);
      ghost var db1, log1 := db, log;
      count := ExpireBoth(now);
      OthersSinceChain(db0, log0, db1, log1, log);
    }

    method ExpireBoth(now: nat) returns (count: nat)
      requires Valid()
      modifies this`db, this`log
      ensures Valid() && OthersSince(old(db), old(log), log) && (old(Settled()) ==> Settled())
      ensures var trees := old(db).meta - Expired(old(db).meta, TREE_PREFIX, now, ttl);
              db == old(db).(meta := trees - Expired(trees, BLOB_PREFIX, now, ttl))
      ensures count == 0 <==>
                Expired(old(db).meta, TREE_PREFIX, now, ttl) == {} && Expired(old(db).meta, BLOB_PREFIX, now, ttl) == {}
    {
      ExpiresApart(db.meta, now, ttl);
      var trees := ExpireRoots(TREE_PREFIX, now);
      ghost var db1, log1 := db, log;
      var blobs := ExpireRoots(BLOB_PREFIX, now);
      OthersSinceChain(old(db), old(log), db1, log1, log);
      count := trees + blobs;
    }

    /** The part of `maybeGc` after something expired: mark, drop broken roots, add blob roots, compact. */
    method Sweep() returns (live: set<Id>)
      requires Valid()
      modifies this`db, this`log
      ensures Valid() && Settled() && OthersSince(old(db), old(log), log)
      ensures IsReach(pools, old(db).objs, RootsOf(old(db).meta, TREE_PREFIX) + RootsOf(old(db).meta, BLOB_PREFIX), live)
      ensures db == Db(Swept(old(db).objs, live), RecordsAfter(old(db).objs, old(db).meta))
    {
      var broken;
      live, broken := MarkRoots();
      DeleteAll(broken);
      ghost var marked := live;
      var blobs := ScanBlobRoots();
      live := live + blobs;
      ReachBlobs(prim, pools, db.objs, RootsOf(old(db).meta, TREE_PREFIX), marked, blobs);
      ghost var db1, log1 := db, log;
      Compact(live);
      OthersSinceChain(old(db), old(log), db1, log1, log);
    }

    /** `compact` as the writer sees it, for a set of ids closed under tree edges: its own sync, then the sweep. */
    method Compact(live: set<Id>)
      requires Valid() && ClosedSet(pools, db.objs, live)
      modifies this`db, this`log
      ensures Valid() && Settled() && OthersSince(old(db), old(log), log)
      ensures db == old(db).(objs := Swept(old(db).objs, live))
    {
      SweptClosed(prim, pools, db.objs, live);
      ghost var db0, log0 := db, log;
      Log(Flush);
      ghost var log1 := log;
      OthersSinceNext(db0, log0, log0, db0, log1);
      db := db.(objs := Swept(db.objs, live));
      Log(Op.Collect(live));
      OthersSinceNext(db0, log0, log1, db, log);
    }

    method ScanBlobRoots() returns (blobs: set<Id>)
      requires Valid()
      ensures blobs == RootsOf(db.meta, BLOB_PREFIX) && blobs <= BlobIds(prim, pools)
    {
      blobs := set k | k in db.meta && HasPrefix(k, BLOB_PREFIX) :: k[1..];
      forall k | k in db.meta && HasPrefix(k, BLOB_PREFIX) ensures k[1..] in BlobIds(prim, pools) {
        assert KeyOk(prim, pools, k);
      }
    }
  }
}
