/** One `TreeStore` from opening to closing: its events, and what each does to objects, records and deferred touches. */
module Lifetime {
  import opened Basics
  import opened Primitives
  import opened TreeCodec
  import opened Cas
  import opened Objects
  import opened Marking
  import opened Stamps

  // ---------------------------------------------------------------- tables in order

  /** Root records name trees with 'R' and blobs with 'B'. */
  ghost predicate KeyOk(prim: Prim, pools: Pools, key: Bytes) {
    && (HasPrefix(key, TREE_PREFIX) ==> key[1..] in TreeIds(prim, pools))
    && (HasPrefix(key, BLOB_PREFIX) ==> key[1..] in BlobIds(prim, pools))
  }

  ghost predicate RootsOk(prim: Prim, pools: Pools, keys: set<Bytes>) {
    forall k :: k in keys ==> KeyOk(prim, pools, k)
  }

  /** A view in order: the object table is closed, and root records are of the right kind. */
  ghost predicate DbOk(prim: Prim, pools: Pools, db: Db) {
    Closed(prim, pools, db.objs) && RootsOk(prim, pools, db.meta.Keys)
  }

  predicate RootRecord(key: Bytes) {
    HasPrefix(key, TREE_PREFIX) || HasPrefix(key, BLOB_PREFIX)
  }

  datatype Root = Root(id: Id, tree: bool) {
    function Key(): Bytes {
      RootKey(id, tree)
    }

    function Prefix(): Byte {
      if tree then TREE_PREFIX else BLOB_PREFIX
    }
  }

  predicate MissingRoot(objs: Objs, key: Bytes) {
    key != [] && key[1..] !in objs
  }

  lemma SweptClosed(prim: Prim, pools: Pools, objs: Objs, live: set<Id>)
    requires PoolsOk(prim, pools) && Closed(prim, pools, objs) && ClosedSet(pools, objs, live)
    ensures Closed(prim, pools, Swept(objs, live))
  {
    forall h | h in objs && h in live && objs[h] in pools.trees
      ensures forall e :: e in Listing(objs[h]) ==> e.id in live
    {
      assert Succ(pools, objs, h) <= live;
    }
    RestrictClosed(prim, pools, objs, live);
  }

  // ---------------------------------------------------------------- events

  /** How a store is set up. */
  datatype Setup = Setup(prim: Prim, pools: Pools, ttl: nat, gcInterval: nat, touchInterval: nat)

  /** What a store has at one moment. */
  datatype Snapshot = Snapshot(db: Db, pending: map<Bytes, nat>)

  /** `PutObject` is a blob or an encoded listing; records other than roots come and go with `SetOther` and `DelOther`. */
  datatype Event =
    | PutObject(data: Bytes)
    | SetOther(key: Bytes, val: Bytes)
    | DelOther(key: Bytes)
    | Register(root: Id, tree: bool, time: nat)
    | Touch(root: Id, tree: bool, time: nat)
    | SyncAll(time: nat)
    | Gc(time: nat)

  /** The records of trees that are missing go. */
  function RecordsAfter(objs: Objs, meta: Meta): Meta {
    map k | k in meta && !(HasPrefix(k, TREE_PREFIX) && MissingRoot(objs, k)) :: meta[k]
  }

  /** A collection that is not too soon after the last one. */
  predicate Collects(su: Setup, st: Snapshot, now: nat) {
    !RecentGc(Flushed(st.db.meta, st.pending), now, su.gcInterval)
  }

  /** `maybeGc`: flush the touches; expire roots; if any expired, drop broken roots and sweep what no root reaches. */
  ghost function AfterGc(su: Setup, st: Snapshot, now: nat): Snapshot {
    var meta := AfterExpiry(st.db.meta, st.pending, now, su.ttl);
    if !Collects(su, st, now) then Snapshot(st.db.(meta := Flushed(st.db.meta, st.pending)), map[])
    else if !SomethingExpires(st.db.meta, st.pending, now, su.ttl) then Snapshot(st.db.(meta := meta), map[])
    else
      var live := Reach(su.pools, st.db.objs, RootsOf(meta, TREE_PREFIX) + RootsOf(meta, BLOB_PREFIX));
      Snapshot(Db(Swept(st.db.objs, live), RecordsAfter(st.db.objs, meta)), map[])
  }

  /** What each event does; the methods of `Gc.TreeStore` are proved to do it. */
  ghost function Next(su: Setup, st: Snapshot, ev: Event): Snapshot {
    match ev
    case PutObject(data) => st.(db := st.db.(objs := PutObj(su.prim, st.db.objs, data)))
    case SetOther(key, val) => st.(db := st.db.(meta := st.db.meta[key := val]))
    case DelOther(key) => st.(db := st.db.(meta := st.db.meta - {key}))
    case Register(root, tree, t) => st.(db := st.db.(meta := Registered(st.db.meta, RootKey(root, tree), t)))
    case Touch(root, tree, t) =>
      st.(pending := Touched(st.db.meta, st.pending, RootKey(root, tree), t, su.touchInterval))
    case SyncAll(_) => Snapshot(st.db.(meta := Flushed(st.db.meta, st.pending)), map[])
    case Gc(t) => AfterGc(su, st, t)
  }

  /** What callers observe: a listing goes in after its entries, other records are other, roots are named as what they are. */
  ghost predicate Allowed(su: Setup, st: Snapshot, ev: Event) {
    match ev
    case PutObject(data) =>
      data in su.pools.blobs || (data in su.pools.trees && forall e :: e in Listing(data) ==> e.id in st.db.objs)
    case SetOther(key, _) => !RootRecord(key) && key != LAST_GC
    case DelOther(key) => !RootRecord(key) && key != LAST_GC
    case Register(root, tree, _) => root in (if tree then TreeIds(su.prim, su.pools) else BlobIds(su.prim, su.pools))
    case _ => true
  }

  ghost predicate SnapshotOk(su: Setup, st: Snapshot) {
    && PoolsOk(su.prim, su.pools) && DbOk(su.prim, su.pools, st.db)
    && RootsOk(su.prim, su.pools, st.pending.Keys) && forall k :: k in st.pending ==> RootRecord(k)
  }

  lemma RootKeyOk(prim: Prim, pools: Pools, root: Id, tree: bool)
    requires root in (if tree then TreeIds(prim, pools) else BlobIds(prim, pools))
    ensures KeyOk(prim, pools, RootKey(root, tree))
  {
    assert RootKey(root, tree)[1..] == root;
  }

  lemma PutObjectOk(su: Setup, st: Snapshot, data: Bytes)
    requires SnapshotOk(su, st) && Allowed(su, st, PutObject(data))
    ensures Closed(su.prim, su.pools, PutObj(su.prim, st.db.objs, data))
  {
    if data in su.pools.blobs {
      PutBlobClosed(su.prim, su.pools, st.db.objs, data);
    } else {
      EncodeDecode(data);
      PutTreeClosed(su.prim, su.pools, st.db.objs, DecodeTree(data).value);
    }
  }

  lemma FlushedRootsOk(su: Setup, st: Snapshot, now: nat)
    requires RootsOk(su.prim, su.pools, st.db.meta.Keys) && RootsOk(su.prim, su.pools, st.pending.Keys)
    ensures RootsOk(su.prim, su.pools, Flushed(st.db.meta, st.pending).Keys)
    ensures RootsOk(su.prim, su.pools, AfterExpiry(st.db.meta, st.pending, now, su.ttl).Keys)
  {
    assert KeyOk(su.prim, su.pools, LAST_GC);
    assert Flushed(st.db.meta, st.pending).Keys == st.db.meta.Keys + st.pending.Keys;
    assert AfterExpiry(st.db.meta, st.pending, now, su.ttl).Keys <= st.db.meta.Keys + st.pending.Keys + {LAST_GC};
  }

  lemma SweepOk(prim: Prim, pools: Pools, objs: Objs, meta: Meta, live: set<Id>)
    requires PoolsOk(prim, pools) && Closed(prim, pools, objs) && RootsOk(prim, pools, meta.Keys)
    requires ClosedSet(pools, objs, live)
    ensures DbOk(prim, pools, Db(Swept(objs, live), RecordsAfter(objs, meta)))
  {
    SweptClosed(prim, pools, objs, live);
    assert RecordsAfter(objs, meta).Keys <= meta.Keys;
  }

  lemma GcOk(su: Setup, st: Snapshot, now: nat)
    requires SnapshotOk(su, st)
    ensures SnapshotOk(su, AfterGc(su, st, now))
  {
    var meta := AfterExpiry(st.db.meta, st.pending, now, su.ttl);
    FlushedRootsOk(su, st, now);
    var live := Reach(su.pools, st.db.objs, RootsOf(meta, TREE_PREFIX) + RootsOf(meta, BLOB_PREFIX));
    SweepOk(su.prim, su.pools, st.db.objs, meta, live);
    assert DbOk(su.prim, su.pools, AfterGc(su, st, now).db);
  }

  /** Every event leaves a store in order. */
  lemma NextOk(su: Setup, st: Snapshot, ev: Event)
    requires SnapshotOk(su, st) && Allowed(su, st, ev)
    ensures SnapshotOk(su, Next(su, st, ev))
  {
    match ev
    case PutObject(data) => PutObjectOk(su, st, data);
    case Register(root, tree, _) => RootKeyOk(su.prim, su.pools, root, tree);
    case Gc(t) => GcOk(su, st, t);
    case _ =>
  }

  // ---------------------------------------------------------------- registering, touching, syncing, said without their steps

  /** A registration stamps the root's record with its time, and does nothing else. */
  lemma RegisterExactly(su: Setup, st: Snapshot, root: Root, t: nat)
    ensures var st' := Next(su, st, Register(root.id, root.tree, t));
            && st'.db.objs == st.db.objs && st'.pending == st.pending
            && (t < U64 ==> StampRead(st'.db.meta, root.Key(), t))
            && forall k :: k != root.Key() ==> (k in st'.db.meta <==> k in st.db.meta) && (k in st.db.meta ==> st'.db.meta[k] == st.db.meta[k])
  {
    if t < U64 { StampRoundTrip(t); }
  }

  /**
   * A touch is deferred exactly if the root is on record with a stamp at least the interval old, modulo 2^64, and no
   * touch of it is deferred yet; that is all it does.
   */
  lemma TouchExactly(su: Setup, st: Snapshot, root: Root, t: nat)
    ensures var key, st' := root.Key(), Next(su, st, Touch(root.id, root.tree, t));
            if && key in st.db.meta && |st.db.meta[key]| == 8 && key !in st.pending
               && (t - FromBigEndian(st.db.meta[key])) % 0x1_0000_0000_0000_0000 >= su.touchInterval
            then st' == Snapshot(st.db, st.pending[key := t])
            else st' == st
  {
  }

  /** A sync writes every deferred stamp over what was there, and does nothing else but commit. */
  lemma SyncExactly(su: Setup, st: Snapshot, t: nat)
    ensures var st' := Next(su, st, SyncAll(t));
            && st'.db.objs == st.db.objs && st'.pending == map[]
            && st'.db.meta.Keys == st.db.meta.Keys + st.pending.Keys
            && (forall k :: k in st.pending && st.pending[k] < U64 ==> StampRead(st'.db.meta, k, st.pending[k]))
            && forall k :: k in st.db.meta && k !in st.pending ==> st'.db.meta[k] == st.db.meta[k]
  {
    forall k | k in st.pending && st.pending[k] < U64
      ensures StampRead(Next(su, st, SyncAll(t)).db.meta, k, st.pending[k])
    {
      StampRoundTrip(st.pending[k]);
    }
  }

  // ---------------------------------------------------------------- sequences of events that callers make

  /** A root registered, a record written beside it, and a sync. */
  ghost function Recorded(su: Setup, st: Snapshot, root: Root, key: Bytes, val: Bytes, now: nat): Snapshot {
    Next(su, Next(su, Next(su, st, Register(root.id, root.tree, now)), SetOther(key, val)), SyncAll(now))
  }

  /** A tree root registered, a sync, and a collection. */
  ghost function Ingested(su: Setup, st: Snapshot, id: Id, registered: nat, now: nat): Snapshot {
    Next(su, Next(su, Next(su, st, Register(id, true, registered)), SyncAll(registered)), Gc(now))
  }

  lemma RecordedStamp(su: Setup, st: Snapshot, root: Root, key: Bytes, val: Bytes, now: nat)
    requires !RootRecord(key) && forall k :: k in st.pending ==> RootRecord(k)
    ensures var st' := Recorded(su, st, root, key, val, now);
            && st'.pending == map[] && st'.db.objs == st.db.objs && key in st'.db.meta && st'.db.meta[key] == val
            && (RootStamp(st.pending, root.Key(), now) < U64 ==>
                  StampRead(st'.db.meta, root.Key(), RootStamp(st.pending, root.Key(), now)))
  {
    if RootStamp(st.pending, root.Key(), now) < U64 { StampRoundTrip(RootStamp(st.pending, root.Key(), now)); }
  }

  // ---------------------------------------------------------------- what a collection does, said without its steps

  /** A root record, of a tree ('R') or a blob ('B'), whose stamp is at least `ttl` old; others never are. */
  predicate Outdated(meta: Meta, key: Bytes, now: nat, ttl: nat) {
    key in meta && key != [] && key[0] in {82, 66} && |meta[key]| == 8 && Age(now, FromBigEndian(meta[key])) >= ttl
  }

  ghost predicate SomeOutdated(meta: Meta, now: nat, ttl: nat) {
    exists key :: Outdated(meta, key, now, ttl)
  }

  /** The ids that the root records left by expiry name. */
  ghost function KeptIds(meta: Meta, now: nat, ttl: nat): set<Id> {
    set key | key in meta && key != [] && key[0] in {82, 66} && !Outdated(meta, key, now, ttl) :: key[1..]
  }

  lemma ExpiryLeaves(meta: Meta, pending: map<Bytes, nat>, now: nat, ttl: nat)
    ensures var flushed, after := Flushed(meta, pending), AfterExpiry(meta, pending, now, ttl);
            && (forall key :: key in after <==> key == LAST_GC || (key in flushed && !Outdated(flushed, key, now, ttl)))
            && (forall key :: key in after && key != LAST_GC ==> after[key] == flushed[key])
            && after[LAST_GC] == Be64(now)
            && (SomethingExpires(meta, pending, now, ttl) <==> SomeOutdated(flushed, now, ttl))
  {
    var flushed := Flushed(meta, pending);
    var stamped := flushed[LAST_GC := Be64(now)];
    forall key ensures key in Expired(stamped, TREE_PREFIX, now, ttl) + Expired(stamped, BLOB_PREFIX, now, ttl)
                       <==> Outdated(flushed, key, now, ttl) {}
  }

  lemma ExpiryLeavesIds(meta: Meta, pending: map<Bytes, nat>, now: nat, ttl: nat)
    ensures var after := AfterExpiry(meta, pending, now, ttl);
            RootsOf(after, TREE_PREFIX) + RootsOf(after, BLOB_PREFIX) == KeptIds(Flushed(meta, pending), now, ttl)
  {
    ExpiryLeaves(meta, pending, now, ttl);
    RootIdsOf(AfterExpiry(meta, pending, now, ttl), Flushed(meta, pending), now, ttl);
  }

  lemma RootIdsOf(after: Meta, flushed: Meta, now: nat, ttl: nat)
    requires forall key :: key in after <==> key == LAST_GC || (key in flushed && !Outdated(flushed, key, now, ttl))
    ensures RootsOf(after, TREE_PREFIX) + RootsOf(after, BLOB_PREFIX) == KeptIds(flushed, now, ttl)
  {
    forall id | id in RootsOf(after, TREE_PREFIX) + RootsOf(after, BLOB_PREFIX) ensures id in KeptIds(flushed, now, ttl) {
      var key :| key in after && key != [] && key[0] in {82, 66} && key[1..] == id;
    }
  }

  /**
   * A collection that runs stamps itself and drops the outdated roots. If there was one, it also drops the records of
   * trees that are missing, and of the objects it leaves those that are reached from a root that is left, tree or blob.
   */
  lemma GcLeaves(su: Setup, st: Snapshot, now: nat)
    requires Collects(su, st, now)
    ensures var st', flushed := AfterGc(su, st, now), Flushed(st.db.meta, st.pending);
            var some := SomeOutdated(flushed, now, su.ttl);
            && st'.pending == map[] && LAST_GC in st'.db.meta && st'.db.meta[LAST_GC] == Be64(now)
            && (forall key :: key != LAST_GC ==>
                  (key in st'.db.meta <==>
                    && key in flushed && !Outdated(flushed, key, now, su.ttl)
                    && !(some && key != [] && key[0] == 82 && key[1..] !in st.db.objs)))
            && (forall key :: key in st'.db.meta && key != LAST_GC ==> st'.db.meta[key] == flushed[key])
            && (!some ==> st'.db.objs == st.db.objs)
            && (some ==> forall live :: IsReach(su.pools, st.db.objs, KeptIds(flushed, now, su.ttl), live) ==>
                  st'.db.objs == map h | h in st.db.objs && h in live :: st.db.objs[h])
  {
    ExpiryLeaves(st.db.meta, st.pending, now, su.ttl);
    ExpiryLeavesIds(st.db.meta, st.pending, now, su.ttl);
    var flushed := Flushed(st.db.meta, st.pending);
    if SomeOutdated(flushed, now, su.ttl) {
      var ids := KeptIds(flushed, now, su.ttl);
      forall live | IsReach(su.pools, st.db.objs, ids, live)
        ensures AfterGc(su, st, now).db.objs == map h | h in st.db.objs && h in live :: st.db.objs[h]
      {
        ReachUnique(su.pools, st.db.objs, ids, live, Reach(su.pools, st.db.objs, ids));
      }
    }
  }

  /** A root that is there and whose stamp is less than `ttl` old stays, with its record. */
  lemma FreshRootStays(su: Setup, st: Snapshot, root: Root, t: nat, now: nat)
    requires st.pending == map[] && root.id in st.db.objs && StampRead(st.db.meta, root.Key(), t)
    requires t <= now < U64 && now < t + su.ttl
    ensures root.id in AfterGc(su, st, now).db.objs && StampRead(AfterGc(su, st, now).db.meta, root.Key(), t)
  {
    var key := root.Key();
    assert key[0] in {82, 66} && key[1..] == root.id && key != LAST_GC;
    assert Flushed(st.db.meta, st.pending) == st.db.meta;
    assert !Outdated(st.db.meta, key, now, su.ttl);
    if Collects(su, st, now) {
      GcLeaves(su, st, now);
      var ids := KeptIds(st.db.meta, now, su.ttl);
      var live := Reach(su.pools, st.db.objs, ids);
      assert root.id in ids;
    }
  }

  /** And one whose stamp is `ttl` old loses its record. */
  lemma OldRootGoes(su: Setup, st: Snapshot, root: Root, t: nat, now: nat)
    requires st.pending == map[] && StampRead(st.db.meta, root.Key(), t)
    requires t + su.ttl <= now < U64 && Collects(su, st, now)
    ensures root.Key() !in AfterGc(su, st, now).db.meta
  {
    assert root.Key()[0] in {82, 66} && root.Key() != LAST_GC;
    assert Flushed(st.db.meta, st.pending) == st.db.meta;
    assert Age(now, t) == now - t;
    assert Outdated(st.db.meta, root.Key(), now, su.ttl);
    GcLeaves(su, st, now);
  }

  /** So once a collection has swept, every tree root on record is there. */
  lemma SweptRootsPresent(su: Setup, st: Snapshot, now: nat)
    requires Collects(su, st, now) && SomeOutdated(Flushed(st.db.meta, st.pending), now, su.ttl)
    ensures forall key :: key in AfterGc(su, st, now).db.meta && key != [] && key[0] == 82 ==>
              key[1..] in AfterGc(su, st, now).db.objs
  {
    GcLeaves(su, st, now);
    var flushed := Flushed(st.db.meta, st.pending);
    var ids := KeptIds(flushed, now, su.ttl);
    var live := Reach(su.pools, st.db.objs, ids);
    forall key | key in AfterGc(su, st, now).db.meta && key != [] && key[0] == 82 ensures key[1..] in live {
      assert key != LAST_GC;
      assert key[1..] in ids;
    }
  }

  /** A collection that is not due flushes the touches and does nothing else. */
  lemma GcNotDue(su: Setup, st: Snapshot, now: nat)
    requires !Collects(su, st, now)
    ensures AfterGc(su, st, now) == Snapshot(Db(st.db.objs, Flushed(st.db.meta, st.pending)), map[])
  {
  }

  predicate SameLastGc(a: Meta, b: Meta) {
    (LAST_GC in a <==> LAST_GC in b) && (LAST_GC in a ==> b[LAST_GC] == a[LAST_GC])
  }

  /** The last collection that ran was at `t`. */
  predicate Noted(st: Snapshot, t: nat) {
    LAST_GC in st.db.meta && st.db.meta[LAST_GC] == Be64(t)
  }

  lemma GcNoted(su: Setup, st: Snapshot, ev: Event)
    requires ev.Gc? && Collects(su, st, ev.time)
    ensures Noted(Next(su, st, ev), ev.time)
  {
    GcLeaves(su, st, ev.time);
  }

  /** The only event that changes when the last collection was is a collection that runs. */
  lemma LastGcKept(su: Setup, st: Snapshot, ev: Event)
    requires SnapshotOk(su, st) && Allowed(su, st, ev) && !(ev.Gc? && Collects(su, st, ev.time))
    ensures SameLastGc(st.db.meta, Next(su, st, ev).db.meta)
  {
    assert LAST_GC !in st.pending;
    if ev.Register? { assert RootKey(ev.root, ev.tree)[0] != LAST_GC[0]; }
  }

  lemma NotedStays(su: Setup, st: Snapshot, ev: Event, t: nat)
    requires SnapshotOk(su, st) && Allowed(su, st, ev) && !(ev.Gc? && Collects(su, st, ev.time)) && Noted(st, t)
    ensures Noted(Next(su, st, ev), t)
  {
    LastGcKept(su, st, ev);
  }

  /** A collection is due if none was noted, or the last one is at least the interval ago, modulo 2^64. */
  lemma DueExactly(su: Setup, st: Snapshot, now: nat)
    requires forall k :: k in st.pending ==> RootRecord(k)
    ensures Collects(su, st, now) <==>
            || LAST_GC !in st.db.meta || |st.db.meta[LAST_GC]| != 8
            || (now - FromBigEndian(st.db.meta[LAST_GC])) % 0x1_0000_0000_0000_0000 >= su.gcInterval
  {
    assert LAST_GC !in st.pending;
  }

  /** When the last collection was at `t`, the next is due exactly from `gcInterval` later on. */
  lemma DueAfterInterval(su: Setup, st: Snapshot, t: nat, now: nat)
    requires Noted(st, t) && t <= now < U64
    requires forall k :: k in st.pending ==> RootRecord(k)
    ensures Collects(su, st, now) <==> now >= t + su.gcInterval
  {
    assert LAST_GC !in st.pending;
    StampRoundTrip(t);
  }
}
