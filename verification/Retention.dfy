/** How long a root that is used stays: exactly, over every sequence of events, and the guarantee behind deferred touches. */
module Retention {
  import opened Basics
  import opened Primitives
  import opened TreeCodec
  import opened Cas
  import opened Objects
  import opened Marking
  import opened Stamps
  import opened Lifetime

  ghost predicate RoleOk(su: Setup, root: Root) {
    root.id in (if root.tree then TreeIds(su.prim, su.pools) else BlobIds(su.prim, su.pools))
  }

  /** The root is recorded and its object is there; if it is a tree, the whole tree is. */
  ghost predicate Survives(st: Snapshot, root: Root) {
    && root.Key() in st.db.meta && root.id in st.db.objs
    && (root.tree ==> forall depth :: Whole(st.db.objs, root.id, depth))
  }

  // ---------------------------------------------------------------- runs and time

  ghost function After(su: Setup, st: Snapshot, evs: seq<Event>): Snapshot {
    if evs == [] then st else Next(su, After(su, st, evs[..|evs| - 1]), evs[|evs| - 1])
  }

  /** The time of the last event, and of the last that flushed the touches. */
  datatype Clock = Clock(now: nat, lastFlush: nat)

  predicate Timed(ev: Event) {
    ev.Register? || ev.Touch? || ev.SyncAll? || ev.Gc?
  }

  predicate Flushes(ev: Event) {
    ev.SyncAll? || ev.Gc?
  }

  function Tick(c: Clock, ev: Event): Clock {
    if Flushes(ev) then Clock(ev.time, ev.time) else if Timed(ev) then c.(now := ev.time) else c
  }

  function Ticked(c: Clock, evs: seq<Event>): Clock {
    if evs == [] then c else Tick(Ticked(c, evs[..|evs| - 1]), evs[|evs| - 1])
  }

  /** Times do not go back, fit the clock, and the touches are flushed at least every `gap`. */
  predicate Timely(c: Clock, gap: nat, ev: Event) {
    Timed(ev) ==> c.now <= ev.time < U64 && ev.time <= c.lastFlush + gap
  }

  predicate TimelyRun(c: Clock, gap: nat, evs: seq<Event>) {
    forall i :: 0 <= i < |evs| ==> Timely(Ticked(c, evs[..i]), gap, evs[i])
  }

  ghost predicate AllowedRun(su: Setup, st: Snapshot, evs: seq<Event>) {
    forall i :: 0 <= i < |evs| ==> Allowed(su, After(su, st, evs[..i]), evs[i])
  }

  // ---------------------------------------------------------------- the stamp of one root

  /** The stamp in its record and the touch deferred for it. */
  datatype Stamp = Stamp(written: nat, deferred: Option<nat>) {
    /** What the next flush leaves as the stamp. */
    function Effective(): nat {
      if deferred.Some? then deferred.value else written
    }
  }

  predicate Registers(ev: Event, root: Root) {
    ev.Register? && ev.root == root.id && ev.tree == root.tree
  }

  predicate Touches(ev: Event, root: Root) {
    ev.Touch? && ev.root == root.id && ev.tree == root.tree
  }

  function StampNext(su: Setup, root: Root, s: Stamp, ev: Event): Stamp {
    if Registers(ev, root) then s.(written := ev.time)
    else if Touches(ev, root) && s.deferred.None? && ev.time >= s.written + su.touchInterval then s.(deferred := Some(ev.time))
    else if Flushes(ev) then Stamp(s.Effective(), None)
    else s
  }

  /** The root's stamp after events that do not drop it. */
  function StampAfter(su: Setup, root: Root, s: Stamp, evs: seq<Event>): Stamp {
    if evs == [] then s else StampNext(su, root, StampAfter(su, root, s, evs[..|evs| - 1]), evs[|evs| - 1])
  }

  lemma LastEvent(su: Setup, st: Snapshot, root: Root, s: Stamp, c: Clock, evs: seq<Event>, n: nat)
    requires n < |evs|
    ensures After(su, st, evs[..n + 1]) == Next(su, After(su, st, evs[..n]), evs[n])
    ensures StampAfter(su, root, s, evs[..n + 1]) == StampNext(su, root, StampAfter(su, root, s, evs[..n]), evs[n])
    ensures Ticked(c, evs[..n + 1]) == Tick(Ticked(c, evs[..n]), evs[n])
  {
    assert evs[..n + 1][..n] == evs[..n];
  }

  predicate Effectual(su: Setup, root: Root, s: Stamp, evs: seq<Event>, j: nat)
    requires j < |evs|
  {
    Touches(evs[j], root) && evs[j].time >= StampAfter(su, root, s, evs[..j]).written + su.touchInterval
  }

  /** The time of the last registration, or what was written before. */
  function LastWritten(root: Root, written: nat, evs: seq<Event>): nat {
    if evs == [] then written
    else if Registers(evs[|evs| - 1], root) then evs[|evs| - 1].time
    else LastWritten(root, written, evs[..|evs| - 1])
  }

  /** Nothing was flushed or deferred between the two. */
  predicate Undeferred(su: Setup, root: Root, s: Stamp, evs: seq<Event>, from: nat, n: nat) {
    && from <= n <= |evs| && StampAfter(su, root, s, evs[..from]).deferred.None?
    && forall i :: from <= i < n ==> !Flushes(evs[i]) && !Effectual(su, root, s, evs, i)
  }

  /** Without an effectual touch since a flush, the effective stamp is the last one written. */
  lemma {:induction false} WrittenStampStands(su: Setup, root: Root, s: Stamp, evs: seq<Event>, from: nat, n: nat)
    requires Undeferred(su, root, s, evs, from, n)
    ensures var now := StampAfter(su, root, s, evs[..n]);
            && now.deferred.None?
            && now.Effective() == LastWritten(root, StampAfter(su, root, s, evs[..from]).written, evs[from..n])
    decreases n
  {
    if n > from {
      WrittenStampStands(su, root, s, evs, from, n - 1);
      assert evs[..n][..n - 1] == evs[..n - 1];
      assert evs[from..n][..n - 1 - from] == evs[from..n - 1];
      assert !Flushes(evs[n - 1]) && !Effectual(su, root, s, evs, n - 1);
    }
  }

  /** With one, it is the time of the first effectual touch, until the next flush. */
  lemma {:induction false} FirstTouchWins(su: Setup, root: Root, s: Stamp, evs: seq<Event>, from: nat, j: nat, n: nat)
    requires Undeferred(su, root, s, evs, from, j) && j < n <= |evs| && Effectual(su, root, s, evs, j)
    requires forall i :: j <= i < n ==> !Flushes(evs[i])
    ensures StampAfter(su, root, s, evs[..n]).deferred == Some(evs[j].time)
    ensures StampAfter(su, root, s, evs[..n]).Effective() == evs[j].time
    decreases n
  {
    assert evs[..n][..n - 1] == evs[..n - 1];
    assert !Flushes(evs[n - 1]);
    if n == j + 1 {
      WrittenStampStands(su, root, s, evs, from, j);
    } else {
      FirstTouchWins(su, root, s, evs, from, j, n - 1);
    }
  }

  // ---------------------------------------------------------------- the store follows

  /** The store's records and deferred touches show that stamp. */
  ghost predicate Tracks(st: Snapshot, root: Root, s: Stamp) {
    && root.Key() in st.db.meta && IsTimestamp(st.db.meta[root.Key()])
    && FromBigEndian(st.db.meta[root.Key()]) == s.written
    && s.deferred == if root.Key() in st.pending then Some(st.pending[root.Key()]) else None
  }

  predicate InTime(s: Stamp, c: Clock) {
    && c.lastFlush <= c.now < U64 && s.written <= c.now
    && (s.deferred.Some? ==> c.lastFlush <= s.deferred.value <= c.now)
  }

  /** A store in order with the root recorded, present and stamped. */
  ghost predicate Holding(su: Setup, st: Snapshot, root: Root, s: Stamp, c: Clock) {
    SnapshotOk(su, st) && RoleOk(su, root) && root.id in st.db.objs && Tracks(st, root, s) && InTime(s, c)
  }

  /** A flush would leave that stamp in the root's record. */
  predicate StampShown(st: Snapshot, root: Root, stamp: nat) {
    var meta := Flushed(st.db.meta, st.pending);
    root.Key() in meta && IsTimestamp(meta[root.Key()]) && FromBigEndian(meta[root.Key()]) == stamp
  }

  lemma FlushTracks(su: Setup, st: Snapshot, root: Root, s: Stamp, c: Clock)
    requires Holding(su, st, root, s, c)
    ensures StampShown(st, root, s.Effective())
  {
    if root.Key() in st.pending { StampRoundTrip(st.pending[root.Key()]); }
  }

  /** Expiry looks at each kind of root by itself. */
  lemma ExpirySpares(meta: Meta, pending: map<Bytes, nat>, t: nat, ttl: nat, key: Bytes, prefix: Byte)
    requires HasPrefix(key, prefix) && (prefix == TREE_PREFIX || prefix == BLOB_PREFIX)
    requires key in Flushed(meta, pending)
    ensures var flushed := Flushed(meta, pending);
            && (key in AfterExpiry(meta, pending, t, ttl)
                <==> !(IsTimestamp(flushed[key]) && Age(t, FromBigEndian(flushed[key])) >= ttl))
            && (key in AfterExpiry(meta, pending, t, ttl) ==> AfterExpiry(meta, pending, t, ttl)[key] == flushed[key])
  {
    assert key != LAST_GC;
    var stamped := Flushed(meta, pending)[LAST_GC := Be64(t)];
    assert key in stamped && stamped[key] == Flushed(meta, pending)[key];
  }

  /** Expiry spares the record exactly if the effective stamp is less than ttl old. */
  lemma ExpiryExact(meta: Meta, pending: map<Bytes, nat>, t: nat, ttl: nat, root: Root, stamp: nat)
    requires var flushed := Flushed(meta, pending);
             root.Key() in flushed && IsTimestamp(flushed[root.Key()]) && FromBigEndian(flushed[root.Key()]) == stamp
    requires stamp <= t < U64
    ensures var after := AfterExpiry(meta, pending, t, ttl);
            && (root.Key() in after <==> t < stamp + ttl)
            && (root.Key() in after ==> after[root.Key()] == Flushed(meta, pending)[root.Key()])
  {
    ExpirySpares(meta, pending, t, ttl, root.Key(), root.Prefix());
    assert Age(t, stamp) == t - stamp;
  }

  /** So does the whole collection, and what keeps the record keeps the object. */
  lemma GcExact(su: Setup, st: Snapshot, root: Root, s: Stamp, c: Clock, t: nat)
    requires Holding(su, st, root, s, c) && c.now <= t < U64
    ensures var st' := AfterGc(su, st, t);
            && (root.Key() in st'.db.meta <==> (Collects(su, st, t) ==> t < s.Effective() + su.ttl))
            && (root.Key() in st'.db.meta ==> root.id in st'.db.objs && Tracks(st', root, Stamp(s.Effective(), None)))
  {
    FlushTracks(su, st, root, s, c);
    ExpiryExact(st.db.meta, st.pending, t, su.ttl, root, s.Effective());
    var key := root.Key();
    assert key[1..] == root.id && key[0] == root.Prefix();
    var meta := AfterExpiry(st.db.meta, st.pending, t, su.ttl);
    if Collects(su, st, t) {
      if SomethingExpires(st.db.meta, st.pending, t, su.ttl) {
        assert key in meta ==> key in RecordsAfter(st.db.objs, meta);
        assert key in meta ==> root.id in RootsOf(meta, root.Prefix());
      }
    }
  }

  lemma HoldingNext(su: Setup, st: Snapshot, root: Root, s: Stamp, c: Clock, gap: nat, ev: Event)
    requires Holding(su, st, root, s, c) && Allowed(su, st, ev) && Timely(c, gap, ev)
    requires ev.Gc? && Collects(su, st, ev.time) ==> ev.time < s.Effective() + su.ttl
    ensures Holding(su, Next(su, st, ev), root, StampNext(su, root, s, ev), Tick(c, ev))
  {
    NextOk(su, st, ev);
    if ev.Gc? { GcExact(su, st, root, s, c, ev.time); } else { TracksNext(su, st, root, s, c, gap, ev); }
    InTimeNext(su, root, s, c, gap, ev);
  }

  lemma InTimeNext(su: Setup, root: Root, s: Stamp, c: Clock, gap: nat, ev: Event)
    requires InTime(s, c) && Timely(c, gap, ev)
    ensures InTime(StampNext(su, root, s, ev), Tick(c, ev))
  {
  }

  lemma TracksNext(su: Setup, st: Snapshot, root: Root, s: Stamp, c: Clock, gap: nat, ev: Event)
    requires Holding(su, st, root, s, c) && Allowed(su, st, ev) && Timely(c, gap, ev) && !ev.Gc?
    ensures var st' := Next(su, st, ev);
            root.id in st'.db.objs && Tracks(st', root, StampNext(su, root, s, ev))
  {
    SameKey(root, ev);
    assert RootRecord(root.Key()) && root.Key() != LAST_GC;
    match ev
    case Register(_, _, t) => StampRoundTrip(t);
    case Touch(_, _, t) => assert Age(t, s.written) == t - s.written;
    case SyncAll(_) => FlushTracks(su, st, root, s, c);
    case _ =>
  }

  lemma SameKey(root: Root, ev: Event)
    ensures ev.Register? || ev.Touch? ==>
              (RootKey(ev.root, ev.tree) == root.Key() <==> ev.root == root.id && ev.tree == root.tree)
  {
    if ev.Register? || ev.Touch? {
      assert RootKey(ev.root, ev.tree)[1..] == ev.root && root.Key()[1..] == root.id;
    }
  }

  lemma HoldingSurvives(su: Setup, st: Snapshot, root: Root, s: Stamp, c: Clock)
    requires Holding(su, st, root, s, c)
    ensures Survives(st, root)
  {
    if root.tree {
      forall depth ensures Whole(st.db.objs, root.id, depth) {
        RootImpliesWhole(su.prim, su.pools, st.db.objs, root.id, depth);
      }
    }
  }

  // ---------------------------------------------------------------- exactly when a root stays

  /** Each collection that ran found the root's effective stamp less than ttl old. */
  ghost predicate FreshAtGcs(su: Setup, st: Snapshot, root: Root, s: Stamp, evs: seq<Event>, n: nat)
    requires n <= |evs|
  {
    forall i :: 0 <= i < n && evs[i].Gc? && Collects(su, After(su, st, evs[..i]), evs[i].time) ==>
      evs[i].time < StampAfter(su, root, s, evs[..i]).Effective() + su.ttl
  }

  lemma {:induction false} FreshHolds(su: Setup, st: Snapshot, root: Root, s: Stamp, c: Clock, gap: nat,
                                      evs: seq<Event>, n: nat)
    requires Holding(su, st, root, s, c) && AllowedRun(su, st, evs) && TimelyRun(c, gap, evs)
    requires n <= |evs| && FreshAtGcs(su, st, root, s, evs, n)
    ensures Holding(su, After(su, st, evs[..n]), root, StampAfter(su, root, s, evs[..n]), Ticked(c, evs[..n]))
    decreases n
  {
    if n > 0 {
      FreshHolds(su, st, root, s, c, gap, evs, n - 1);
      LastEvent(su, st, root, s, c, evs, n - 1);
      HoldingNext(su, After(su, st, evs[..n - 1]), root, StampAfter(su, root, s, evs[..n - 1]),
                  Ticked(c, evs[..n - 1]), gap, evs[n - 1]);
    }
  }

  lemma {:induction false} SurvivesFresh(su: Setup, st: Snapshot, root: Root, s: Stamp, c: Clock, gap: nat,
                                         evs: seq<Event>, n: nat)
    requires Holding(su, st, root, s, c) && AllowedRun(su, st, evs) && TimelyRun(c, gap, evs)
    requires n <= |evs| && forall m :: 0 <= m <= n ==> Survives(After(su, st, evs[..m]), root)
    ensures FreshAtGcs(su, st, root, s, evs, n)
    decreases n
  {
    if n > 0 {
      SurvivesFresh(su, st, root, s, c, gap, evs, n - 1);
      assert Survives(After(su, st, evs[..n]), root);
      LastFresh(su, st, root, s, c, gap, evs, n - 1);
    }
  }

  lemma LastFresh(su: Setup, st: Snapshot, root: Root, s: Stamp, c: Clock, gap: nat, evs: seq<Event>, n: nat)
    requires Holding(su, st, root, s, c) && AllowedRun(su, st, evs) && TimelyRun(c, gap, evs) && n < |evs|
    requires FreshAtGcs(su, st, root, s, evs, n) && Survives(After(su, st, evs[..n + 1]), root)
    ensures FreshAtGcs(su, st, root, s, evs, n + 1)
  {
    FreshHolds(su, st, root, s, c, gap, evs, n);
    LastEvent(su, st, root, s, c, evs, n);
    assert Timely(Ticked(c, evs[..n]), gap, evs[n]);
    LastGcFresh(su, After(su, st, evs[..n]), root, StampAfter(su, root, s, evs[..n]), Ticked(c, evs[..n]), gap, evs[n]);
  }

  lemma LastGcFresh(su: Setup, st: Snapshot, root: Root, s: Stamp, c: Clock, gap: nat, ev: Event)
    requires Holding(su, st, root, s, c) && Timely(c, gap, ev) && Survives(Next(su, st, ev), root)
    ensures ev.Gc? && Collects(su, st, ev.time) ==> ev.time < s.Effective() + su.ttl
  {
    if ev.Gc? { GcExact(su, st, root, s, c, ev.time); }
  }

  /**
   * The exact condition. Over any events from a store that holds the root, the root survives throughout, with its
   * object and, for a tree, everything below it, if and only if each collection that runs finds the effective stamp
   * less than ttl old.
   */
  lemma ExactlyKept(su: Setup, st: Snapshot, root: Root, s: Stamp, c: Clock, gap: nat, evs: seq<Event>)
    requires Holding(su, st, root, s, c) && AllowedRun(su, st, evs) && TimelyRun(c, gap, evs)
    ensures (forall m :: 0 <= m <= |evs| ==> Survives(After(su, st, evs[..m]), root))
            <==> FreshAtGcs(su, st, root, s, evs, |evs|)
  {
    if forall m :: 0 <= m <= |evs| ==> Survives(After(su, st, evs[..m]), root) {
      SurvivesFresh(su, st, root, s, c, gap, evs, |evs|);
    }
    if FreshAtGcs(su, st, root, s, evs, |evs|) {
      forall m | 0 <= m <= |evs| ensures Survives(After(su, st, evs[..m]), root) {
        FreshHolds(su, st, root, s, c, gap, evs, m);
        HoldingSurvives(su, After(su, st, evs[..m]), root, StampAfter(su, root, s, evs[..m]), Ticked(c, evs[..m]));
      }
    }
  }

  // ---------------------------------------------------------------- the guarantee in terms of use

  predicate Uses(ev: Event, root: Root) {
    Registers(ev, root) || Touches(ev, root)
  }

  /** When the root was last registered or touched. */
  function LastUse(root: Root, used: nat, evs: seq<Event>): nat {
    if evs == [] then used
    else if Uses(evs[|evs| - 1], root) then evs[|evs| - 1].time
    else LastUse(root, used, evs[..|evs| - 1])
  }

  /** How much older than the last use the effective stamp can be. */
  function Slack(su: Setup, gap: nat): nat {
    if su.touchInterval > gap + 1 then su.touchInterval - 1 else gap
  }

  lemma {:induction false} StampLags(su: Setup, root: Root, s: Stamp, c: Clock, gap: nat, used: nat, evs: seq<Event>, n: nat)
    requires InTime(s, c) && used <= s.Effective() + Slack(su, gap) && TimelyRun(c, gap, evs) && n <= |evs|
    ensures InTime(StampAfter(su, root, s, evs[..n]), Ticked(c, evs[..n]))
    ensures LastUse(root, used, evs[..n]) <= StampAfter(su, root, s, evs[..n]).Effective() + Slack(su, gap)
    decreases n
  {
    if n > 0 {
      StampLags(su, root, s, c, gap, used, evs, n - 1);
      assert evs[..n][..n - 1] == evs[..n - 1];
      assert Timely(Ticked(c, evs[..n - 1]), gap, evs[n - 1]);
    }
  }

  /**
   * The guarantee. A root that at each collection was last registered or touched less than ttl - slack ago survives
   * every collection, although touches are deferred, the first one since a flush wins, and a flush may set a stamp back.
   */
  lemma UsedRootSurvives(su: Setup, st: Snapshot, root: Root, s: Stamp, c: Clock, gap: nat, used: nat, evs: seq<Event>)
    requires Holding(su, st, root, s, c) && AllowedRun(su, st, evs) && TimelyRun(c, gap, evs)
    requires used <= s.Effective() + Slack(su, gap)
    requires forall i :: 0 <= i < |evs| && evs[i].Gc? ==>
               evs[i].time + Slack(su, gap) < LastUse(root, used, evs[..i]) + su.ttl
    ensures forall m :: 0 <= m <= |evs| ==> Survives(After(su, st, evs[..m]), root)
  {
    forall i | 0 <= i < |evs| && evs[i].Gc?
      ensures evs[i].time < StampAfter(su, root, s, evs[..i]).Effective() + su.ttl
    {
      StampLags(su, root, s, c, gap, used, evs, i);
    }
    ExactlyKept(su, st, root, s, c, gap, evs);
  }

  /** The touch that is deferred for the root, if any. */
  function Deferred(st: Snapshot, root: Root): Option<nat> {
    if root.Key() in st.pending then Some(st.pending[root.Key()]) else None
  }

  /** Registering a root whose object is there is a start, whatever touch of it is deferred. */
  lemma RegisteredIsHeld(su: Setup, st: Snapshot, root: Root, c: Clock, t: nat)
    requires SnapshotOk(su, st) && RoleOk(su, root) && root.id in st.db.objs
    requires c.lastFlush <= c.now <= t < U64
    requires Deferred(st, root).Some? ==> c.lastFlush <= Deferred(st, root).value <= c.now
    ensures var ev := Register(root.id, root.tree, t);
            Holding(su, Next(su, st, ev), root, Stamp(t, Deferred(st, root)), Tick(c, ev))
  {
    var ev := Register(root.id, root.tree, t);
    NextOk(su, st, ev);
    StampRoundTrip(t);
  }

  /**
   * The guarantee from the registration on, for a root that had no record, or any record: at each collection that
   * comes, one last registered or touched less than ttl - slack ago survives.
   */
  lemma RegisteredRootSurvives(su: Setup, st: Snapshot, root: Root, c: Clock, gap: nat, t: nat, evs: seq<Event>)
    requires SnapshotOk(su, st) && RoleOk(su, root) && root.id in st.db.objs
    requires c.lastFlush <= c.now && Timely(c, gap, Register(root.id, root.tree, t))
    requires Deferred(st, root).Some? ==> c.lastFlush <= Deferred(st, root).value <= c.now
    requires var ev := Register(root.id, root.tree, t);
             AllowedRun(su, Next(su, st, ev), evs) && TimelyRun(Tick(c, ev), gap, evs)
    requires forall i :: 0 <= i < |evs| && evs[i].Gc? ==> evs[i].time + Slack(su, gap) < LastUse(root, t, evs[..i]) + su.ttl
    ensures var start := Next(su, st, Register(root.id, root.tree, t));
            forall m :: 0 <= m <= |evs| ==> Survives(After(su, start, evs[..m]), root)
  {
    var ev := Register(root.id, root.tree, t);
    RegisteredIsHeld(su, st, root, c, t);
    UsedRootSurvives(su, Next(su, st, ev), root, Stamp(t, Deferred(st, root)), Tick(c, ev), gap, t, evs);
  }

  lemma SyncHolds(su: Setup, st: Snapshot, root: Root, s: Stamp, c: Clock, t: nat)
    requires Holding(su, st, root, s, c) && c.now <= t < U64
    ensures Holding(su, Next(su, st, SyncAll(t)), root, Stamp(s.Effective(), None), Clock(t, t))
  {
    HoldingNext(su, st, root, s, c, t - c.lastFlush, SyncAll(t));
  }

  /** A root that the eval store has just recorded is held, and so all of the above is about it. */
  lemma RecordedIsHeld(su: Setup, st: Snapshot, root: Root, key: Bytes, val: Bytes, c: Clock, t: nat)
    requires SnapshotOk(su, st) && RoleOk(su, root) && root.id in st.db.objs && !RootRecord(key) && key != LAST_GC
    requires c.lastFlush <= c.now <= t < U64
    requires Deferred(st, root).Some? ==> c.lastFlush <= Deferred(st, root).value <= c.now
    ensures Holding(su, Recorded(su, st, root, key, val, t), root, Stamp(RootStamp(st.pending, root.Key(), t), None), Clock(t, t))
  {
    RegisteredIsHeld(su, st, root, c, t);
    var st1 := Next(su, st, Register(root.id, root.tree, t));
    var s := Stamp(t, Deferred(st, root));
    HoldingNext(su, st1, root, s, Clock(t, c.lastFlush), t - c.lastFlush, SetOther(key, val));
    SyncHolds(su, Next(su, st1, SetOther(key, val)), root, s, Clock(t, c.lastFlush), t);
  }

  /** So is the root of an ingest, unless its own stamp is expired by the end of it. */
  lemma IngestedIsHeld(su: Setup, st: Snapshot, id: Id, c: Clock, registered: nat, now: nat)
    requires SnapshotOk(su, st) && RoleOk(su, Root(id, true)) && id in st.db.objs
    requires c.lastFlush <= c.now <= registered <= now < U64
    requires Deferred(st, Root(id, true)).Some? ==> c.lastFlush <= Deferred(st, Root(id, true)).value <= c.now
    requires now < RootStamp(st.pending, RootKey(id, true), registered) + su.ttl
    ensures Holding(su, Ingested(su, st, id, registered, now), Root(id, true),
                    Stamp(RootStamp(st.pending, RootKey(id, true), registered), None), Clock(now, now))
  {
    var root := Root(id, true);
    RegisteredIsHeld(su, st, root, c, registered);
    var st1 := Next(su, st, Register(id, true, registered));
    SyncHolds(su, st1, root, Stamp(registered, Deferred(st, root)), Clock(registered, c.lastFlush), registered);
    HoldingNext(su, Next(su, st1, SyncAll(registered)), root, Stamp(RootStamp(st.pending, root.Key(), registered), None),
                Clock(registered, registered), now - registered, Gc(now));
  }

  // ---------------------------------------------------------------- how often collections run

  lemma {:induction false} RunOk(su: Setup, st: Snapshot, evs: seq<Event>, n: nat)
    requires SnapshotOk(su, st) && AllowedRun(su, st, evs) && n <= |evs|
    ensures SnapshotOk(su, After(su, st, evs[..n]))
  {
    if n > 0 {
      RunOk(su, st, evs, n - 1);
      assert evs[..n][..n - 1] == evs[..n - 1];
      NextOk(su, After(su, st, evs[..n - 1]), evs[n - 1]);
    }
  }

  /** The event at `i` is a collection that runs. */
  ghost predicate Collecting(su: Setup, st: Snapshot, evs: seq<Event>, i: nat)
    requires i < |evs|
  {
    evs[i].Gc? && Collects(su, After(su, st, evs[..i]), evs[i].time)
  }

  lemma AfterLast(su: Setup, st: Snapshot, evs: seq<Event>, n: nat)
    requires 0 < n <= |evs|
    ensures After(su, st, evs[..n]) == Next(su, After(su, st, evs[..n - 1]), evs[n - 1])
  {
    assert evs[..n][..n - 1] == evs[..n - 1];
  }

  lemma QuietStep(su: Setup, st: Snapshot, evs: seq<Event>, k: nat, t: nat)
    requires SnapshotOk(su, st) && AllowedRun(su, st, evs) && k < |evs| && !Collecting(su, st, evs, k)
    requires Noted(After(su, st, evs[..k]), t)
    ensures Noted(Next(su, After(su, st, evs[..k]), evs[k]), t)
  {
    RunOk(su, st, evs, k);
    NotedStays(su, After(su, st, evs[..k]), evs[k], t);
  }

  /** The time of the last collection that ran among the first `n` events. */
  ghost function LastRun(su: Setup, st: Snapshot, evs: seq<Event>, n: nat): Option<nat>
    requires n <= |evs|
  {
    if n == 0 then None
    else if Collecting(su, st, evs, n - 1) then Some(evs[n - 1].time)
    else LastRun(su, st, evs, n - 1)
  }

  lemma {:induction false} LastRunNoted(su: Setup, st: Snapshot, evs: seq<Event>, n: nat)
    requires SnapshotOk(su, st) && AllowedRun(su, st, evs) && n <= |evs| && LastRun(su, st, evs, n).Some?
    ensures Noted(After(su, st, evs[..n]), LastRun(su, st, evs, n).value)
  {
    AfterLast(su, st, evs, n);
    if Collecting(su, st, evs, n - 1) {
      GcNoted(su, After(su, st, evs[..n - 1]), evs[n - 1]);
    } else {
      LastRunNoted(su, st, evs, n - 1);
      QuietStep(su, st, evs, n - 1, LastRun(su, st, evs, n - 1).value);
    }
  }

  lemma {:induction false} LastRunIs(su: Setup, st: Snapshot, evs: seq<Event>, i: nat, n: nat)
    requires i < n <= |evs| && Collecting(su, st, evs, i)
    requires forall k :: i < k < n ==> !Collecting(su, st, evs, k)
    ensures LastRun(su, st, evs, n) == Some(evs[i].time)
    decreases n
  {
    if i < n - 1 { LastRunIs(su, st, evs, i, n - 1); }
  }

  /**
   * After a collection that ran at `evs[i]` and any other events, collections that were not due among them, the next is
   * due exactly from `gcInterval` after it on.
   */
  lemma NextCollection(su: Setup, st: Snapshot, evs: seq<Event>, i: nat, n: nat, now: nat)
    requires SnapshotOk(su, st) && AllowedRun(su, st, evs) && i < n <= |evs| && Collecting(su, st, evs, i)
    requires forall k :: i < k < n ==> !Collecting(su, st, evs, k)
    requires evs[i].time <= now < U64
    ensures Collects(su, After(su, st, evs[..n]), now) <==> now >= evs[i].time + su.gcInterval
  {
    LastRunIs(su, st, evs, i, n);
    LastRunNoted(su, st, evs, n);
    RunOk(su, st, evs, n);
    DueAfterInterval(su, After(su, st, evs[..n]), evs[i].time, now);
  }

  lemma ClockMoves(c: Clock, gap: nat, evs: seq<Event>, i: nat, j: nat)
    requires TimelyRun(c, gap, evs) && i <= j < |evs| && Timed(evs[i]) && Timed(evs[j])
    ensures evs[i].time <= evs[j].time < U64
  {
    assert Timely(Ticked(c, evs[..j]), gap, evs[j]);
    if i < j { ClockAt(c, gap, evs, i, j); }
  }

  lemma {:induction false} ClockAt(c: Clock, gap: nat, evs: seq<Event>, i: nat, n: nat)
    requires TimelyRun(c, gap, evs) && i < n <= |evs| && Timed(evs[i])
    ensures evs[i].time <= Ticked(c, evs[..n]).now
    decreases n
  {
    assert evs[..n][..n - 1] == evs[..n - 1];
    assert Timely(Ticked(c, evs[..n - 1]), gap, evs[n - 1]);
    if i < n - 1 { ClockAt(c, gap, evs, i, n - 1); }
  }

  /** So in any run, two collections that run are at least `gcInterval` apart. */
  lemma {:induction false} CollectionsApart(su: Setup, st: Snapshot, c: Clock, gap: nat, evs: seq<Event>, i: nat, j: nat)
    requires SnapshotOk(su, st) && AllowedRun(su, st, evs) && TimelyRun(c, gap, evs) && i < j < |evs|
    requires Collecting(su, st, evs, i) && Collecting(su, st, evs, j)
    ensures evs[j].time >= evs[i].time + su.gcInterval
    decreases j - i
  {
    if k :| i < k < j && Collecting(su, st, evs, k) {
      CollectionsApart(su, st, c, gap, evs, k, j);
      ClockMoves(c, gap, evs, i, k);
    } else {
      ClockMoves(c, gap, evs, i, j);
      NextCollection(su, st, evs, i, j, evs[j].time);
    }
  }

  // ---------------------------------------------------------------- the slack cannot be less

  /** A store with one blob and its record holds it, whatever the setup; no collection has run yet. */
  lemma OneBlobHeld(su: Setup, data: Bytes, w: nat, now: nat)
    requires PoolsOk(su.prim, su.pools) && data in su.pools.blobs && w <= now < U64
    ensures var root := Root(su.prim.hash(data), false);
            var st := Snapshot(Db(map[root.id := data], map[root.Key() := Be64(w)]), map[]);
            && Holding(su, st, root, Stamp(w, None), Clock(now, now))
            && forall t, interval :: !RecentGc(st.db.meta, t, interval)
  {
    var root := Root(su.prim.hash(data), false);
    var st := Snapshot(Db(map[root.id := data], map[root.Key() := Be64(w)]), map[]);
    StampRoundTrip(w);
    RootKeyOk(su.prim, su.pools, root.id, false);
    assert root.Key()[0] != LAST_GC[0];
    if data in su.pools.trees { SharedIsEmpty(su.prim, su.pools, st.db.objs, root.id); }
  }

  /** A timely run without a collection, after which the root is held with that stamp at that time. */
  ghost predicate HeldRun(su: Setup, st: Snapshot, root: Root, c0: Clock, gap: nat, evs: seq<Event>, s: Stamp, c: Clock) {
    && AllowedRun(su, st, evs) && TimelyRun(c0, gap, evs) && Ticked(c0, evs) == c
    && Holding(su, After(su, st, evs), root, s, c) && SameLastGc(st.db.meta, After(su, st, evs).db.meta)
  }

  lemma RunMore(su: Setup, st: Snapshot, c0: Clock, gap: nat, evs: seq<Event>, ev: Event)
    requires AllowedRun(su, st, evs) && TimelyRun(c0, gap, evs)
    requires Allowed(su, After(su, st, evs), ev) && Timely(Ticked(c0, evs), gap, ev)
    ensures AllowedRun(su, st, evs + [ev]) && TimelyRun(c0, gap, evs + [ev])
    ensures After(su, st, evs + [ev]) == Next(su, After(su, st, evs), ev)
    ensures Ticked(c0, evs + [ev]) == Tick(Ticked(c0, evs), ev)
  {
    var more := evs + [ev];
    assert more[..|evs|] == evs;
    forall i | 0 <= i < |more|
      ensures Allowed(su, After(su, st, more[..i]), more[i]) && Timely(Ticked(c0, more[..i]), gap, more[i])
    {
      if i < |evs| { assert more[..i] == evs[..i] && more[i] == evs[i]; }
    }
  }

  lemma LastUseMore(root: Root, used: nat, evs: seq<Event>, ev: Event)
    ensures LastUse(root, used, evs + [ev]) == if Uses(ev, root) then ev.time else LastUse(root, used, evs)
  {
    assert (evs + [ev])[..|evs|] == evs;
  }

  lemma HeldRunOn(su: Setup, st: Snapshot, root: Root, c0: Clock, gap: nat, evs: seq<Event>, s: Stamp, c: Clock, ev: Event)
    requires HeldRun(su, st, root, c0, gap, evs, s, c)
    requires Allowed(su, After(su, st, evs), ev) && Timely(c, gap, ev) && !ev.Gc?
    ensures HeldRun(su, st, root, c0, gap, evs + [ev], StampNext(su, root, s, ev), Tick(c, ev))
  {
    RunMore(su, st, c0, gap, evs, ev);
    HoldingNext(su, After(su, st, evs), root, s, c, gap, ev);
    LastGcKept(su, After(su, st, evs), ev);
  }

  /** Nothing but syncs from there on. */
  predicate OnlySyncs(evs: seq<Event>, from: nat) {
    forall i :: from <= i < |evs| ==> evs[i].SyncAll?
  }

  /** Waiting, with a sync every `gap`, until the next one is due no earlier than `t`. */
  lemma {:induction false} WaitUntil(su: Setup, st: Snapshot, root: Root, c0: Clock, gap: nat, evs: seq<Event>, stamp: nat,
                                     now: nat, t: nat)
    returns (more: seq<Event>, last: nat)
    requires HeldRun(su, st, root, c0, gap, evs, Stamp(stamp, None), Clock(now, now)) && now <= t < U64 && gap > 0
    ensures HeldRun(su, st, root, c0, gap, more, Stamp(stamp, None), Clock(last, last)) && last <= t <= last + gap
    ensures evs <= more && OnlySyncs(more, |evs|)
    ensures forall used :: LastUse(root, used, more) == LastUse(root, used, evs)
    decreases t - now
  {
    if t <= now + gap { return evs, now; }
    var next := now + gap;
    HeldRunOn(su, st, root, c0, gap, evs, Stamp(stamp, None), Clock(now, now), SyncAll(next));
    more, last := WaitUntil(su, st, root, c0, gap, evs + [SyncAll(next)], stamp, next, t);
    forall used ensures LastUse(root, used, more) == LastUse(root, used, evs) {
      LastUseMore(root, used, evs, SyncAll(next));
    }
  }

  /** A collection at `t` takes the root's record. */
  ghost predicate Drops(su: Setup, st: Snapshot, root: Root, t: nat) {
    root.Key() !in AfterGc(su, st, t).db.meta
  }

  /** A collection that runs when the stamp is ttl old does. */
  lemma StaleRootGoes(su: Setup, st: Snapshot, root: Root, stamp: nat, t: nat)
    requires StampShown(st, root, stamp) && Collects(su, st, t) && stamp + su.ttl <= t < U64
    ensures Drops(su, st, root, t)
  {
    ExpiryExact(st.db.meta, st.pending, t, su.ttl, root, stamp);
    assert root.Key() !in RecordsAfter(st.db.objs, AfterExpiry(st.db.meta, st.pending, t, su.ttl));
  }

  /** So does one at the end of such a run, if it is not too soon after the last one before it. */
  lemma StaleRootGoesLater(su: Setup, st: Snapshot, st': Snapshot, root: Root, stamp: nat, c: Clock, t: nat)
    requires !RecentGc(st.db.meta, t, su.gcInterval) && SameLastGc(st.db.meta, st'.db.meta)
    requires Holding(su, st', root, Stamp(stamp, None), c) && stamp + su.ttl == t < U64
    ensures Drops(su, st', root, t)
  {
    assert LAST_GC !in st'.pending;
    FlushTracks(su, st', root, Stamp(stamp, None), c);
    StaleRootGoes(su, st', root, stamp, t);
  }

  /** A touch at the moment it becomes effectual, a registration just before the next flush has to come, and that flush. */
  function TouchThenRegister(root: Root, f: nat, u: nat): seq<Event> {
    [Touch(root.id, root.tree, f), Register(root.id, root.tree, u), SyncAll(u)]
  }

  /** A touch when the stamp is old enough. */
  lemma TouchOn(su: Setup, st: Snapshot, root: Root, c0: Clock, gap: nat, evs: seq<Event>, w: nat, f: nat)
    requires HeldRun(su, st, root, c0, gap, evs, Stamp(w, None), Clock(f, f)) && f == w + su.touchInterval
    ensures HeldRun(su, st, root, c0, gap, evs + [Touch(root.id, root.tree, f)], Stamp(w, Some(f)), Clock(f, f))
  {
    HeldRunOn(su, st, root, c0, gap, evs, Stamp(w, None), Clock(f, f), Touch(root.id, root.tree, f));
  }

  lemma RegisterOn(su: Setup, st: Snapshot, root: Root, c0: Clock, gap: nat, evs: seq<Event>, w: nat, f: nat, u: nat)
    requires HeldRun(su, st, root, c0, gap, evs, Stamp(w, Some(f)), Clock(f, f)) && u == f + gap && u < U64
    ensures HeldRun(su, st, root, c0, gap, evs + [Register(root.id, root.tree, u)], Stamp(u, Some(f)), Clock(u, f))
  {
    HeldRunOn(su, st, root, c0, gap, evs, Stamp(w, Some(f)), Clock(f, f), Register(root.id, root.tree, u));
  }

  lemma SyncOn(su: Setup, st: Snapshot, root: Root, c0: Clock, gap: nat, evs: seq<Event>, f: nat, u: nat)
    requires HeldRun(su, st, root, c0, gap, evs, Stamp(u, Some(f)), Clock(u, f)) && u == f + gap && u < U64
    ensures HeldRun(su, st, root, c0, gap, evs + [SyncAll(u)], Stamp(f, None), Clock(u, u))
  {
    HeldRunOn(su, st, root, c0, gap, evs, Stamp(u, Some(f)), Clock(u, f), SyncAll(u));
  }

  lemma StandStill(su: Setup, st: Snapshot, root: Root, s: Stamp, c: Clock, gap: nat)
    requires Holding(su, st, root, s, c)
    ensures HeldRun(su, st, root, c, gap, [], s, c)
  {
  }

  lemma FlushedBack(su: Setup, st: Snapshot, root: Root, w: nat, f: nat, u: nat, gap: nat)
    requires f == w + su.touchInterval && u == f + gap && u < U64
    requires HeldRun(su, st, root, Clock(f, f), gap, [], Stamp(w, None), Clock(f, f))
    ensures HeldRun(su, st, root, Clock(f, f), gap, TouchThenRegister(root, f, u), Stamp(f, None), Clock(u, u))
  {
    var one: seq<Event> := [] + [Touch(root.id, root.tree, f)];
    var two := one + [Register(root.id, root.tree, u)];
    TouchOn(su, st, root, Clock(f, f), gap, [], w, f);
    RegisterOn(su, st, root, Clock(f, f), gap, one, w, f, u);
    SyncOn(su, st, root, Clock(f, f), gap, two, f, u);
    assert two + [SyncAll(u)] == TouchThenRegister(root, f, u);
  }

  lemma RegisteredLast(root: Root, used: nat, f: nat, u: nat)
    ensures LastUse(root, used, TouchThenRegister(root, f, u)) == u
  {
    var two := [Touch(root.id, root.tree, f)] + [Register(root.id, root.tree, u)];
    assert TouchThenRegister(root, f, u) == two + [SyncAll(u)];
    LastUseMore(root, used, [Touch(root.id, root.tree, f)], Register(root.id, root.tree, u));
    LastUseMore(root, used, two, SyncAll(u));
  }

  /**
   * A flush sets a stamp back by the whole flush gap: a touch at `f`, deferred, a registration at `u`, `gap` later, then
   * the next flush. A collection ttl - gap after that registration drops the root, so where the gap makes the slack, no
   * smaller slack would do, whatever the ttl.
   */
  lemma FlushSetsBack(su: Setup, st: Snapshot, root: Root, w: nat, f: nat, u: nat, gap: nat, t: nat)
    returns (evs: seq<Event>)
    requires Slack(su, gap) == gap <= su.ttl && gap > 0
    requires f == w + su.touchInterval && u == f + gap && t == f + su.ttl && t < U64
    requires Holding(su, st, root, Stamp(w, None), Clock(f, f)) && !RecentGc(st.db.meta, t, su.gcInterval)
    ensures TouchThenRegister(root, f, u) <= evs && OnlySyncs(evs, 3)
    ensures AllowedRun(su, st, evs) && TimelyRun(Clock(f, f), gap, evs) && Timely(Ticked(Clock(f, f), evs), gap, Gc(t))
    ensures t + Slack(su, gap) == LastUse(root, w, evs) + su.ttl
    ensures Drops(su, After(su, st, evs), root, t)
  {
    StandStill(su, st, root, Stamp(w, None), Clock(f, f), gap);
    FlushedBack(su, st, root, w, f, u, gap);
    RegisteredLast(root, w, f, u);
    var last;
    evs, last := WaitUntil(su, st, root, Clock(f, f), gap, TouchThenRegister(root, f, u), f, u, t);
    StaleRootGoesLater(su, st, After(su, st, evs), root, f, Clock(last, last), t);
  }

  lemma TouchTooEarly(su: Setup, st: Snapshot, root: Root, w: nat, u: nat, gap: nat)
    requires u < w + su.touchInterval && u < U64 && Holding(su, st, root, Stamp(w, None), Clock(u, u))
    ensures HeldRun(su, st, root, Clock(u, u), gap, [Touch(root.id, root.tree, u)], Stamp(w, None), Clock(u, u))
    ensures LastUse(root, w, [Touch(root.id, root.tree, u)]) == u
  {
    var none: seq<Event> := [];
    var touch := Touch(root.id, root.tree, u);
    StandStill(su, st, root, Stamp(w, None), Clock(u, u), gap);
    HeldRunOn(su, st, root, Clock(u, u), gap, none, Stamp(w, None), Clock(u, u), touch);
    assert none + [touch] == [touch];
    LastUseMore(root, w, none, touch);
  }

  /**
   * A touch just before it would become effectual is ignored. A collection ttl - (touch interval - 1) after it drops the
   * root, so where the touch interval makes the slack, no smaller slack would do either.
   */
  lemma TouchIgnored(su: Setup, st: Snapshot, root: Root, w: nat, u: nat, gap: nat, t: nat)
    returns (evs: seq<Event>)
    requires Slack(su, gap) == su.touchInterval - 1 <= su.ttl && gap > 0
    requires u == w + su.touchInterval - 1 && t == w + su.ttl && t < U64
    requires Holding(su, st, root, Stamp(w, None), Clock(u, u)) && !RecentGc(st.db.meta, t, su.gcInterval)
    ensures [Touch(root.id, root.tree, u)] <= evs && OnlySyncs(evs, 1)
    ensures AllowedRun(su, st, evs) && TimelyRun(Clock(u, u), gap, evs) && Timely(Ticked(Clock(u, u), evs), gap, Gc(t))
    ensures t + Slack(su, gap) == LastUse(root, w, evs) + su.ttl
    ensures Drops(su, After(su, st, evs), root, t)
  {
    TouchTooEarly(su, st, root, w, u, gap);
    var last;
    evs, last := WaitUntil(su, st, root, Clock(u, u), gap, [Touch(root.id, root.tree, u)], w, u, t);
    StaleRootGoesLater(su, st, After(su, st, evs), root, w, Clock(last, last), t);
  }
}
