/** `TarmacStore`: storing objects and derivations under store paths, and serving the ones still there. */
module PathStore {
  import opened Basics
  import opened Primitives
  import opened TreeCodec
  import opened Cas
  import opened Objects
  import opened MemTree
  import opened Lifetime
  import opened Gc
  import opened Flush
  import opened EvalStore
  import opened Records
  import Stamps

  lemma RoleOfNew(codec: Codec, prim: Prim, pools: Pools, meta: Stamps.Meta, key: Bytes, val: Bytes)
    requires RolesOk(codec, prim, pools, meta)
    requires RootNamed(codec, key, val).Some? ==>
               var root := RootNamed(codec, key, val).value;
               root.id in (if root.tree then TreeIds(prim, pools) else BlobIds(prim, pools))
    ensures RolesOk(codec, prim, pools, meta[key := val])
  {
  }

  /** What is put for a root is found in the pools under that root's role. */
  lemma IngestedRole(prim: Prim, pools: Pools, f: MemFile)
    requires Known(prim, pools, f) && NamesFit(f)
    ensures var n := ToNode(prim, f);
            IdOf(prim, n) in (if n.typ == DIRECTORY then TreeIds(prim, pools) else BlobIds(prim, pools))
  {
  }

  class TarmacStore {
    const store: TreeStore
    const codec: Codec

    constructor (store: TreeStore, codec: Codec)
      requires store.Valid() && Sound(store.prim) && Lossless(codec)
      requires forall i :: 0 <= i < |store.log| ==> RolesOk(codec, store.prim, store.pools, store.log[i].View().meta)
      ensures Valid() && this.store == store && this.codec == codec
    {
      this.store, this.codec := store, codec;
    }

    ghost predicate Valid()
      reads store
    {
      && store.Valid() && Sound(store.prim) && Lossless(codec)
      && forall i :: 0 <= i < |store.log| ==> RolesOk(codec, store.prim, store.pools, store.log[i].View().meta)
    }

    /** Every view since, with at most old records left naming what is not there. */
    ghost predicate BackedViews(db0: Db, log0: seq<Cas>)
      reads store
    {
      SinceOk(codec, store.prim, store.pools, db0, log0, store.log)
    }

    /**
     * At every point since, a crash leaves no record newly naming a root that is missing or not registered, and every
     * tree root that is present whole.
     */
    ghost predicate CrashSafe(db0: Db, log0: seq<Cas>)
      reads store
    {
      CrashesBacked(codec, db0, log0, store.log) && CrashesInOrder(store.prim, store.pools, store.log)
    }

    lemma ViewsBackedCrashSafe(db0: Db, log0: seq<Cas>)
      requires store.Valid() && BackedViews(db0, log0) && log0 != [] && log0[|log0| - 1].View() == db0
      ensures CrashSafe(db0, log0)
    {
      CrashLeavesBacked(codec, store.prim, store.pools, db0, log0, store.log);
      CrashLeavesInOrder(store.prim, store.pools, store.log);
    }

    /** Registers a root whose objects are put. */
    method RegisterPut(root: Root, now: nat, ghost db0: Db, ghost log0: seq<Cas>)
      requires store.Valid() && OnlyPuts(db0, log0, store.db, store.log) && RolesOk(codec, store.prim, store.pools, db0.meta)
      requires root.id in (if root.tree then TreeIds(store.prim, store.pools) else BlobIds(store.prim, store.pools))
      modifies store`db, store`log
      ensures store.Valid() && BackedViews(db0, log0) && RolesOk(codec, store.prim, store.pools, store.db.meta)
      ensures Grown(db0, store.db, [])
      ensures store.Snap() == Next(store.Config(), old(store.Snap()), Register(root.id, root.tree, now))
    {
      PutsSince(codec, store.prim, store.pools, db0, log0, store.db, store.log);
      ghost var before := store.log;
      store.RegisterRoot(root.id, root.tree, now);
      RolesKept(codec, store.prim, store.pools, db0.meta, store.db.meta);
      SinceNext(codec, store.prim, store.pools, db0, log0, before, store.db, store.log, []);
    }

    /** And writes the record that names it. */
    method WriteRecord(key: Bytes, val: Bytes, root: Root, now: nat, ghost db0: Db, ghost log0: seq<Cas>)
      requires store.Valid() && OnlyPuts(db0, log0, store.db, store.log) && RolesOk(codec, store.prim, store.pools, db0.meta)
      requires RootNamed(codec, key, val) == Some(root) && root.id in store.db.objs
      requires root.id in (if root.tree then TreeIds(store.prim, store.pools) else BlobIds(store.prim, store.pools))
      modifies store`db, store`log
      ensures store.Valid() && BackedViews(db0, log0) && RolesOk(codec, store.prim, store.pools, store.db.meta)
      ensures Grown(db0, store.db, key) && Backed(codec, store.db, key)
      ensures store.Snap() == Next(store.Config(), Next(store.Config(), old(store.Snap()), Register(root.id, root.tree, now)),
                                   SetOther(key, val))
    {
      NotARoot(codec, key, val);
      RegisterPut(root, now, db0, log0);
      ghost var before := store.log;
      RoleOfNew(codec, store.prim, store.pools, store.db.meta, key, val);
      store.MetaPut(key, val);
      SinceNext(codec, store.prim, store.pools, db0, log0, before, store.db, store.log, key);
    }

    /** And commits it. */
    method CommitRecord(key: Bytes, val: Bytes, root: Root, now: nat, ghost db0: Db, ghost log0: seq<Cas>)
      requires store.Valid() && OnlyPuts(db0, log0, store.db, store.log) && RolesOk(codec, store.prim, store.pools, db0.meta)
      requires RootNamed(codec, key, val) == Some(root) && root.id in store.db.objs
      requires root.id in (if root.tree then TreeIds(store.prim, store.pools) else BlobIds(store.prim, store.pools))
      modifies store
      ensures store.Valid() && store.Settled() && BackedViews(db0, log0)
      ensures store.Snap() == Recorded(store.Config(), old(store.Snap()), root, key, val, now)
      ensures key in store.db.meta && store.db.meta[key] == val && Backed(codec, store.db, key)
    {
      WriteRecord(key, val, root, now, db0, log0);
      NotARoot(codec, key, val);
      ghost var db, before := store.db, store.log;
      store.Sync(now);
      SinceStamps(codec, store.prim, store.pools, db0, log0, db, before, store.log, key);
    }

    /** The root is registered: its stamp reads `now`, or the time of the touch that was deferred for it. */
    ghost predicate RootRegistered(was: Snapshot, root: Root, now: nat)
      reads store
    {
      var t := Stamps.RootStamp(was.pending, root.Key(), now);
      root.Key() in store.db.meta && (t < U64 ==> Stamps.StampRead(store.db.meta, root.Key(), t))
    }

    /** The whole store after `rec` has been written for a path, from one whose objects are put. */
    ghost predicate PathRecorded(was: Snapshot, path: Bytes, rec: PathRecord, now: nat)
      reads store
    {
      var key, root := PathKey(path), Root(rec.rootId, rec.rootType == DIRECTORY);
      && store.Snap() == Recorded(store.Config(), was, root, key, codec.encode(rec), now)
      && store.pendingTouch == map[] && store.db.objs == was.db.objs && rec.rootId in store.db.objs
      && key in store.db.meta && codec.decode(store.db.meta[key]) == Some(rec)
      && Backed(codec, store.db, key) && RootRegistered(was, root, now)
    }

    /** The record of a path, for an object that is put. */
    method CommitPath(path: Bytes, rec: PathRecord, now: nat, ghost db0: Db, ghost log0: seq<Cas>)
      requires store.Valid() && OnlyPuts(db0, log0, store.db, store.log) && RolesOk(codec, store.prim, store.pools, db0.meta)
      requires Lossless(codec) && rec.rootId in store.db.objs
      requires rec.rootId in (if rec.rootType == DIRECTORY then TreeIds(store.prim, store.pools)
                              else BlobIds(store.prim, store.pools))
      modifies store
      ensures store.Valid() && store.Settled() && BackedViews(db0, log0)
      ensures PathRecorded(old(store.Snap()), path, rec, now)
    {
      KeysApart(path);
      RecordedStamp(store.Config(), store.Snap(), Root(rec.rootId, rec.rootType == DIRECTORY), PathKey(path), codec.encode(rec), now);
      CommitRecord(PathKey(path), codec.encode(rec), Root(rec.rootId, rec.rootType == DIRECTORY), now, db0, log0);
    }

    /**
     * `storeObject`. On success the record is there, names the object's canonical id, and its root is registered now; all
     * is committed, nothing but that and the flushed touches is different in the records, and objects only came. And at
     * every point on the way where the process could die, no record names a root that is missing or not registered, but
     * for records that did before.
     */
    method StoreObject(path: Bytes, f: MemFile, narHash: Bytes, narSize: nat, ca: Bytes, refs: seq<Bytes>, now: nat)
      returns (r: Result<()>)
      requires Valid() && Known(store.prim, store.pools, f)
      modifies store
      ensures Valid() && BackedViews(old(store.db), old(store.log)) && CrashSafe(old(store.db), old(store.log))
      ensures r == if NamesFit(f) then Ok(()) else Err(EntryTooLarge)
      ensures MoreObjects(old(store.db).objs)
      ensures r.Err? ==> store.db.meta == old(store.db).meta && store.pendingTouch == old(store.pendingTouch)
      ensures r.Ok? ==> store.Settled()
      ensures r.Ok? ==>
                var n := ToNode(store.prim, f);
                PathRecorded(Snapshot(Db(store.db.objs, old(store.db).meta), old(store.pendingTouch)), path,
                             PathRecord(n.typ, IdOf(store.prim, n), narHash, narSize, ca, refs), now)
    {
      ghost var db0, log0 := store.db, store.log;
      var stored := Ingest(store, f);
      if stored.Err? {
        PutsSince(codec, store.prim, store.pools, db0, log0, store.db, store.log);
        ViewsBackedCrashSafe(db0, log0);
        return Err(stored.error);
      }
      IngestedRole(store.prim, store.pools, f);
      CommitPath(path, PathRecord(stored.value.0, stored.value.1, narHash, narSize, ca, refs), now, db0, log0);
      ViewsBackedCrashSafe(db0, log0);
      r := Ok(());
    }

    ghost predicate MoreObjects(was: Objs)
      reads store
    {
      was.Keys <= store.db.objs.Keys
    }

    /** What `pathRecord` and `drvText` do to a record whose root is gone. */
    method DropRecord(key: Bytes)
      requires Valid() && (PATH_PREFIX <= key || DRV_PREFIX <= key)
      modifies store`db, store`log
      ensures Valid() && BackedViews(old(store.db), old(store.log)) && BackedSince(codec, old(store.db), store.db)
      ensures store.Snap() == Next(store.Config(), old(store.Snap()), DelOther(key))
    {
      NotARoot(codec, key, []);
      ghost var db0, log0 := store.db, store.log;
      store.MetaDel(key);
      SinceNext(codec, store.prim, store.pools, db0, log0, log0, store.db, store.log, key);
    }

    /** Nothing has happened but that there is no such record. */
    ghost predicate RecordGone(was: Snapshot, key: Bytes)
      reads store
    {
      store.Snap() == Snapshot(Db(was.db.objs, was.db.meta - {key}), was.pending)
    }

    /** Nothing has happened but a touch of that root. */
    ghost predicate JustTouched(was: Snapshot, id: Id, tree: bool, now: nat)
      reads store
    {
      store.Snap() == Next(store.Config(), was, Touch(id, tree, now))
    }

    /**
     * `pathRecord`. A record comes back exactly if it is there, decodes, and its root is present; then the whole
     * object is, and the root is touched. A record whose root was collected is deleted.
     */
    method GetPathRecord(path: Bytes, now: nat) returns (r: Result<Option<PathRecord>>)
      requires Valid()
      modifies store
      ensures Valid() && BackedViews(old(store.db), old(store.log)) && BackedSince(codec, old(store.db), store.db)
      ensures var key, db := PathKey(path), old(store.db);
              if key !in db.meta then r == Ok(None) && store.Snap() == old(store.Snap())
              else
                match codec.decode(db.meta[key])
                case None => r == Err(CorruptRecord) && store.Snap() == old(store.Snap())
                case Some(rec) =>
                  if rec.rootId in db.objs
                  then r == Ok(Some(rec)) && JustTouched(old(store.Snap()), rec.rootId, rec.rootType == DIRECTORY, now)
                  else r == Ok(None) && store.Snap() == Next(store.Config(), old(store.Snap()), DelOther(key))
      ensures r == Ok(None) ==> RecordGone(old(store.Snap()), PathKey(path))
      ensures r.Ok? && r.value.Some? && r.value.value.rootType == DIRECTORY ==>
                forall depth :: Whole(store.db.objs, r.value.value.rootId, depth)
    {
      var key := PathKey(path);
      KeysApart(path);
      if key !in store.db.meta {
        assert store.db.meta - {key} == store.db.meta;
        return Ok(None);
      }
      var rec := codec.decode(store.db.meta[key]);
      if rec.None? {
        return Err(CorruptRecord);
      }
      var present := store.HasTree(rec.value.rootId);
      if !present {
        DropRecord(key);
        return Ok(None);
      }
      store.TouchRoot(rec.value.rootId, rec.value.rootType == DIRECTORY, now);
      r := Ok(Some(rec.value));
    }

    /** `drvText`. The text put under the id the record names, and the root touched, or nothing and the record deleted. */
    method DrvText(path: Bytes, now: nat) returns (r: Option<Bytes>)
      requires Valid()
      modifies store
      ensures Valid() && BackedViews(old(store.db), old(store.log)) && BackedSince(codec, old(store.db), store.db)
      ensures var key, db := DrvKey(path), old(store.db);
              if key !in db.meta then r == None && store.Snap() == old(store.Snap())
              else if db.meta[key] in db.objs
              then r == Some(db.objs[db.meta[key]]) && JustTouched(old(store.Snap()), db.meta[key], false, now)
              else r == None && store.Snap() == Next(store.Config(), old(store.Snap()), DelOther(key))
      ensures r == None ==> RecordGone(old(store.Snap()), DrvKey(path))
      ensures r.Some? ==> store.prim.hash(r.value) == store.db.meta[DrvKey(path)]
    {
      var key := DrvKey(path);
      KeysApart(path);
      if key !in store.db.meta {
        assert store.db.meta - {key} == store.db.meta;
        return None;
      }
      var id := store.db.meta[key];
      var text := store.ReadBlob(id);
      if text.None? {
        DropRecord(key);
        return None;
      }
      store.TouchRoot(id, false, now);
      r := text;
    }

    /** The whole store after a text has been recorded for a path, from one where it is put. */
    ghost predicate TextRecorded(was: Snapshot, path: Bytes, text: Bytes, now: nat)
      reads store
    {
      var key, root := DrvKey(path), Root(store.prim.hash(text), false);
      && store.Snap() == Recorded(store.Config(), was, root, key, root.id, now)
      && store.pendingTouch == map[] && root.id in store.db.objs && store.db.objs[root.id] == text
      && key in store.db.meta && store.db.meta[key] == root.id
      && Backed(codec, store.db, key) && RootRegistered(was, root, now)
    }

    /** The writing part of `writeDerivation`: the blob, its root, the record, and a commit. */
    method CommitText(path: Bytes, text: Bytes, now: nat)
      requires Valid() && text in store.pools.blobs
      modifies store
      ensures Valid() && store.Settled() && BackedViews(old(store.db), old(store.log))
      ensures TextRecorded(Snapshot(Db(PutObj(store.prim, old(store.db).objs, text), old(store.db).meta), old(store.pendingTouch)),
                           path, text, now)
    {
      KeysApart(path);
      ghost var db0, log0 := store.db, store.log;
      var id := store.PutBlob(text);
      RecordedStamp(store.Config(), store.Snap(), Root(id, false), DrvKey(path), id, now);
      CommitRecord(DrvKey(path), id, Root(id, false), now, db0, log0);
    }

    /** `writeDerivation`: a touch if the text is still there, else the blob, its root, the record, and a commit. */
    method WriteDerivation(path: Bytes, text: Bytes, now: nat)
      requires Valid() && text in store.pools.blobs
      modifies store
      ensures Valid() && BackedViews(old(store.db), old(store.log)) && CrashSafe(old(store.db), old(store.log))
      ensures var key, db := DrvKey(path), old(store.db);
              if key in db.meta && db.meta[key] in db.objs then JustTouched(old(store.Snap()), db.meta[key], false, now)
              else
                store.Settled() &&
                TextRecorded(Snapshot(Db(PutObj(store.prim, db.objs, text), db.meta - {key}), old(store.pendingTouch)), path, text, now)
    {
      ghost var db0, log0 := store.db, store.log;
      var known := DrvText(path, now);
      if known.None? {
        ghost var db1, log1 := store.db, store.log;
        CommitText(path, text, now);
        SinceChain(codec, store.prim, store.pools, db0, log0, db1, log1, store.log);
      }
      ViewsBackedCrashSafe(db0, log0);
    }

    /**
     * `addToStore` for anything but a derivation. If the path has a record whose root is there, it touches that root and
     * does nothing else. Otherwise it does what `storeObject` does, on a store from which a stale record is gone.
     */
    method AddToStore(path: Bytes, f: MemFile, narHash: Bytes, narSize: nat, ca: Bytes, refs: seq<Bytes>, now: nat)
      returns (r: Result<()>)
      requires Valid() && Known(store.prim, store.pools, f)
      modifies store
      ensures Valid() && BackedViews(old(store.db), old(store.log)) && CrashSafe(old(store.db), old(store.log))
      ensures var key, db := PathKey(path), old(store.db);
              if key in db.meta && codec.decode(db.meta[key]).None? then
                r == Err(CorruptRecord) && store.Snap() == old(store.Snap())
              else if key in db.meta && codec.decode(db.meta[key]).value.rootId in db.objs then
                var rec := codec.decode(db.meta[key]).value;
                r == Ok(()) && JustTouched(old(store.Snap()), rec.rootId, rec.rootType == DIRECTORY, now)
              else
                var n := ToNode(store.prim, f);
                var was := Snapshot(Db(store.db.objs, db.meta - {key}), old(store.pendingTouch));
                && MoreObjects(db.objs)
                && (NamesFit(f) ==>
                      && r == Ok(()) && store.Settled()
                      && PathRecorded(was, path, PathRecord(n.typ, IdOf(store.prim, n), narHash, narSize, ca, refs), now))
                && (!NamesFit(f) ==> r == Err(EntryTooLarge) && store.Snap() == was)
    {
      ghost var db0, log0 := store.db, store.log;
      var known := GetPathRecord(path, now);
      ViewsBackedCrashSafe(db0, log0);
      if known.Err? {
        return Err(known.error);
      }
      if known.value.Some? {
        return Ok(());
      }
      ghost var db1, log1 := store.db, store.log;
      r := StoreObject(path, f, narHash, narSize, ca, refs, now);
      SinceChain(codec, store.prim, store.pools, db0, log0, db1, log1, store.log);
      ViewsBackedCrashSafe(db0, log0);
    }

    /**
     * A collection leaves the records that name roots alone, so some may name roots it took; `pathRecord` and `drvText`
     * drop those.
     */
    method Collect(now: nat)
      requires Valid()
      modifies store
      ensures Valid() && OthersKept(old(store.db).meta, store.db.meta)
      ensures store.Snap() == Next(store.Config(), old(store.Snap()), Event.Gc(now))
    {
      ghost var db0, log0 := store.db, store.log;
      var collected;
      ghost var live;
      collected, live := store.MaybeGc(now);
      forall i | 0 <= i < |store.log| ensures RolesOk(codec, store.prim, store.pools, store.log[i].View().meta) {
        if i < |log0| {
          assert store.log[i] == log0[i];
        } else {
          RolesKept(codec, store.prim, store.pools, db0.meta, store.log[i].View().meta);
        }
      }
    }
  }
}
