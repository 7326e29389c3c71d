/** The eval store's records: what names an object, and that what is named is there. */
module Records {
  import opened Basics
  import opened Primitives
  import opened TreeCodec
  import opened Cas
  import opened Objects
  import opened MemTree
  import opened Lifetime
  import opened Gc
  import opened Flush
  import opened EvalStore
  import Stamps

  const PATH_PREFIX: Bytes := [115, 112, 58]  // "sp:"
  const DRV_PREFIX: Bytes := [115, 100, 58]   // "sd:"

  datatype PathRecord = PathRecord(rootType: Byte, rootId: Id, narHash: Bytes, narSize: nat, ca: Bytes, refs: seq<Bytes>)

  /** The record's text form. */
  datatype Codec = Codec(encode: PathRecord -> Bytes, decode: Bytes -> Option<PathRecord>)

  ghost predicate Lossless(codec: Codec) {
    forall rec: PathRecord :: codec.decode(codec.encode(rec)) == Some(rec)
  }

  function PathKey(path: Bytes): Bytes {
    PATH_PREFIX + path
  }

  function DrvKey(path: Bytes): Bytes {
    DRV_PREFIX + path
  }

  /** The root a record of either kind names. */
  function RootNamed(codec: Codec, key: Bytes, val: Bytes): Option<Root> {
    if PATH_PREFIX <= key then
      match codec.decode(val)
      case None => None
      case Some(rec) => Some(Root(rec.rootId, rec.rootType == DIRECTORY))
    else if DRV_PREFIX <= key then Some(Root(val, false))
    else None
  }

  lemma NotARoot(codec: Codec, key: Bytes, val: Bytes)
    requires PATH_PREFIX <= key || DRV_PREFIX <= key
    ensures !RootRecord(key) && key != Stamps.LAST_GC
  {
    assert key[0] == 115;
  }

  lemma KeysApart(path: Bytes)
    ensures PATH_PREFIX <= PathKey(path) && DRV_PREFIX <= DrvKey(path) && !(PATH_PREFIX <= DrvKey(path))
  {
    assert DrvKey(path)[1] == 100;
  }

  /** The root that the record names is registered, and its object is there. */
  predicate Backed(codec: Codec, db: Db, key: Bytes) {
    key in db.meta && RootNamed(codec, key, db.meta[key]).Some? ==>
      var root := RootNamed(codec, key, db.meta[key]).value;
      Stamps.RootKey(root.id, root.tree) in db.meta && root.id in db.objs
  }

  /** Records name trees as trees and blobs as blobs. */
  ghost predicate RolesOk(codec: Codec, prim: Prim, pools: Pools, meta: Stamps.Meta) {
    forall k :: k in meta && RootNamed(codec, k, meta[k]).Some? ==>
      var root := RootNamed(codec, k, meta[k]).value;
      root.id in (if root.tree then TreeIds(prim, pools) else BlobIds(prim, pools))
  }

  /** A record that is backed means its whole object can be read. */
  lemma BackedIsWhole(codec: Codec, prim: Prim, pools: Pools, db: Db, key: Bytes, depth: nat)
    requires PoolsOk(prim, pools) && Closed(prim, pools, db.objs) && RolesOk(codec, prim, pools, db.meta)
    requires key in db.meta && RootNamed(codec, key, db.meta[key]).Some? && Backed(codec, db, key)
    ensures var root := RootNamed(codec, key, db.meta[key]).value;
            root.id in db.objs && (root.tree ==> Whole(db.objs, root.id, depth))
  {
    var root := RootNamed(codec, key, db.meta[key]).value;
    if root.tree { RootImpliesWhole(prim, pools, db.objs, root.id, depth); }
  }

  /** A view since `a`: no record names a root that is not there, but for old records that already did. */
  ghost predicate BackedSince(codec: Codec, a: Db, b: Db) {
    forall k :: k in b.meta ==> Backed(codec, b, k) || (k in a.meta && a.meta[k] == b.meta[k] && !Backed(codec, a, k))
  }

  /** From `a` to `b` objects and roots only came, and of the other records only the one at `key` may differ. */
  ghost predicate Grown(a: Db, b: Db, key: Bytes) {
    && a.objs.Keys <= b.objs.Keys
    && (forall k :: k in a.meta && RootRecord(k) ==> k in b.meta)
    && (forall k :: !RootRecord(k) && k != Stamps.LAST_GC && k != key ==>
          (k in a.meta <==> k in b.meta) && (k in a.meta ==> a.meta[k] == b.meta[k]))
  }

  lemma GrownIsBacked(codec: Codec, a: Db, b: Db, key: Bytes)
    requires Grown(a, b, key)
    requires key in b.meta ==> Backed(codec, b, key) || (key in a.meta && a.meta[key] == b.meta[key])
    ensures BackedSince(codec, a, b)
  {
    forall k | k in b.meta && !Backed(codec, b, k)
      ensures k in a.meta && a.meta[k] == b.meta[k] && !Backed(codec, a, k)
    {
      NotARoot(codec, k, b.meta[k]);
    }
  }

  lemma RolesKept(codec: Codec, prim: Prim, pools: Pools, a: Stamps.Meta, b: Stamps.Meta)
    requires RolesOk(codec, prim, pools, a) && OthersKept(a, b)
    ensures RolesOk(codec, prim, pools, b)
  {
    forall k | k in b && RootNamed(codec, k, b[k]).Some? ensures k in a && a[k] == b[k] { NotARoot(codec, k, b[k]); }
  }

  ghost predicate ViewOk(codec: Codec, prim: Prim, pools: Pools, db0: Db, view: Db) {
    BackedSince(codec, db0, view) && RolesOk(codec, prim, pools, view.meta)
  }

  /** What every view since the start of an operation satisfies. */
  ghost predicate SinceOk(codec: Codec, prim: Prim, pools: Pools, db0: Db, log0: seq<Cas>, log: seq<Cas>) {
    log0 <= log && forall i :: |log0| <= i < |log| ==> ViewOk(codec, prim, pools, db0, log[i].View())
  }

  lemma PutsSince(codec: Codec, prim: Prim, pools: Pools, db0: Db, log0: seq<Cas>, db: Db, log: seq<Cas>)
    requires OnlyPuts(db0, log0, db, log) && RolesOk(codec, prim, pools, db0.meta)
    ensures SinceOk(codec, prim, pools, db0, log0, log) && Grown(db0, db, []) && RolesOk(codec, prim, pools, db.meta)
  {
    forall i | |log0| <= i < |log| ensures ViewOk(codec, prim, pools, db0, log[i].View()) {
      GrownIsBacked(codec, db0, log[i].View(), []);
    }
  }

  /** One more view, in which at most the record at `key` is new, and backed, in its role. */
  lemma SinceNext(codec: Codec, prim: Prim, pools: Pools, db0: Db, log0: seq<Cas>, log: seq<Cas>, db: Db,
                  log': seq<Cas>, key: Bytes)
    requires SinceOk(codec, prim, pools, db0, log0, log) && Now(log, log', db)
    requires Grown(db0, db, key) && RolesOk(codec, prim, pools, db.meta)
    requires key in db.meta ==> Backed(codec, db, key) || (key in db0.meta && db0.meta[key] == db.meta[key])
    ensures SinceOk(codec, prim, pools, db0, log0, log')
  {
    GrownIsBacked(codec, db0, db, key);
    forall i | |log0| <= i < |log'| ensures ViewOk(codec, prim, pools, db0, log'[i].View()) {
      if i < |log| { assert log'[i] == log[i]; }
    }
  }

  /** Flushing stamps at the end keeps that. */
  lemma SinceStamps(codec: Codec, prim: Prim, pools: Pools, db0: Db, log0: seq<Cas>, db: Db, log: seq<Cas>,
                    log': seq<Cas>, key: Bytes)
    requires SinceOk(codec, prim, pools, db0, log0, log) && OnlyStampsSince(db, log, log')
    requires Grown(db0, db, key) && RolesOk(codec, prim, pools, db.meta) && !RootRecord(key) && key != Stamps.LAST_GC
    requires key in db.meta ==> Backed(codec, db, key) || (key in db0.meta && db0.meta[key] == db.meta[key])
    ensures SinceOk(codec, prim, pools, db0, log0, log')
  {
    forall i | |log0| <= i < |log'| ensures ViewOk(codec, prim, pools, db0, log'[i].View()) {
      if i < |log| {
        assert log'[i] == log[i];
      } else {
        RolesKept(codec, prim, pools, db.meta, log'[i].View().meta);
        GrownIsBacked(codec, db0, log'[i].View(), key);
      }
    }
  }

  lemma SinceChain(codec: Codec, prim: Prim, pools: Pools, a: Db, la: seq<Cas>, b: Db, lb: seq<Cas>, lc: seq<Cas>)
    requires SinceOk(codec, prim, pools, a, la, lb) && BackedSince(codec, a, b) && SinceOk(codec, prim, pools, b, lb, lc)
    ensures SinceOk(codec, prim, pools, a, la, lc)
  {
    forall i | |la| <= i < |lc| ensures ViewOk(codec, prim, pools, a, lc[i].View()) {
      if i < |lb| { assert lc[i] == lb[i]; }
    }
  }

  /** At every point since: what is committed was so before, or has no record newly naming what is not there. */
  ghost predicate CrashesBacked(codec: Codec, db0: Db, log0: seq<Cas>, log: seq<Cas>) {
    && log0 != [] && log0 <= log
    && forall n :: |log0| - 1 <= n < |log| ==>
         log[n].committed == log0[|log0| - 1].committed || BackedSince(codec, db0, log[n].committed)
  }

  /**
   * Wherever the syncs fall, and whenever the process dies: what is committed then has no record naming a root that is
   * not registered or not present, but for records that did before.
   */
  lemma CrashLeavesBacked(codec: Codec, prim: Prim, pools: Pools, db0: Db, log0: seq<Cas>, log: seq<Cas>)
    requires IsHistory(log) && log0 != [] && log0[|log0| - 1].View() == db0
    requires SinceOk(codec, prim, pools, db0, log0, log)
    ensures CrashesBacked(codec, db0, log0, log)
  {
    var k := |log0| - 1;
    assert log[k] == log0[k];
    forall n | k <= n < |log|
      ensures log[n].committed == log0[k].committed || BackedSince(codec, db0, log[n].committed)
    {
      CommittedSince(log, k, n);
      if log[n].committed != log[k].committed {
        var i :| k <= i <= n && log[n].committed == log[i].View();
        assert i > k ==> ViewOk(codec, prim, pools, db0, log[i].View());
      }
    }
  }
}
