/** `PackCas` as the object it is: one process's handle on a shared directory, its methods proved against Pack and Cas. */
module PackStore {
  import opened Basics
  import opened Primitives
  import opened Pack
  import opened PackInvariant
  import opened PackMachine
  import opened PackTheorems
  import opened PackCompact
  import C = Cas

  /** The directory with its LMDB environment, as every process sees it. */
  class Directory {
    var s: Shared

    constructor ()
      ensures s == Empty
    {
      s := Empty;
    }
  }

  /** The store as process `pr` sees it. */
  ghost function View(prim: Prim, s: Shared, pr: Proc): C.Cas {
    C.Cas(C.Db(Contents(prim, s), s.meta), PendingOf(prim, s, pr))
  }

  lemma PutMeans(prim: Prim, p: nat, s: Shared, pr: Proc, data: Bytes)
    requires Sound(prim) && Good(prim, s) && pr.Running? && ProcOk(prim, s, p, pr) && pr.batch.Some?
    ensures var (s', b) := Put(prim, s, pr.maps, pr.batch.value, data);
            var pr' := pr.(batch := Some(b));
            && Good(prim, s') && ProcOk(prim, s', p, pr') && s'.lock == s.lock
            && View(prim, s', pr') == View(prim, s, pr).Put(prim.hash(data), data)
  {
    PutOk(prim, p, s, pr, data);
    PutContents(prim, p, s, pr, data);
    WriterContents(prim, p, s, pr, PutBlob(p, data));
  }

  lemma PutWrites(prim: Prim, s: Shared, maps: Maps, b: Batch, data: Bytes)
    requires maps.cur.Some? && maps.cur.value.file < |s.files| && b.end <= |s.files[maps.cur.value.file]|
    requires prim.hash(data) !in b.entries
    ensures var (s', b') := Put(prim, s, maps, b, data);
            var f, stored := maps.cur.value.file, Stored(prim, data);
            && s' == s.(files := s.files[f := Pwrite(s.files[f], b.end, stored)])
            && b' == Batch(b.entries[prim.hash(data) := Entry(b.end, |stored|, |data|)], b.meta, b.committedEnd,
                           b.end + |stored|, b.bytes + |stored|, b.base)
  {
  }

  lemma BeginMeans(prim: Prim, p: nat, s: Shared, pr: Proc)
    requires Good(prim, s) && pr.Running? && ProcOk(prim, s, p, pr)
    requires pr.batch.None? && pr.phase == Settled && s.lock == Free
    ensures var (s', maps, b) := Begin(p, s, pr.maps);
            var pr' := pr.(maps := maps, batch := Some(b));
            && Good(prim, s') && ProcOk(prim, s', p, pr')
            && View(prim, s', pr') == View(prim, s, pr).Begin()
  {
    BeginOk(prim, p, s, pr);
    BeginContents(prim, p, s, pr);
    AcquireOk(prim, p, s, pr.maps);
    SameContents(prim, s, Begin(p, s, pr.maps).0);
  }

  /** Taking the flock first and mapping then is the same. */
  lemma BeginLocksFirst(me: nat, s: Shared, maps: Maps)
    ensures var l := s.(lock := Held(me, true));
            var (s1, maps1, m) := MappingFor(l, maps, l.Current(), true);
            var (s', maps', b) := Begin(me, s, maps);
            && s1 == s' && maps1 == maps'
            && m.Some?
            && (m.value.file < |s1.files| ==>
                  b == Batch(s.live.entries, s.meta, |s1.files[m.value.file]|, |s1.files[m.value.file]|, 0, s1.files[m.value.file]))
  {
    assert s.(lock := Held(me, true)).Current() == s.Current();
  }

  /** The entries, in this order, cover the pack from end to end without gap or overlap. */
  ghost predicate TiledBy(entries: map<Id, Entry>, keys: seq<Id>, size: nat) {
    && Distinct(keys) && (forall k :: k in keys <==> k in entries)
    && (keys == [] ==> size == 0)
    && (keys != [] ==> entries[keys[0]].off == 0)
    && (keys != [] ==> entries[keys[|keys| - 1]].off + entries[keys[|keys| - 1]].len == size)
    && forall i :: 0 < i < |keys| ==>
         entries[keys[i]].off == entries[keys[i - 1]].off + entries[keys[i - 1]].len
  }

  ghost predicate Tiled(s: Shared) {
    exists keys: seq<Id> :: TiledBy(s.live.entries, keys, |LiveFile(s)|)
  }

  lemma TiledByKeys(s: Shared, file: Bytes, entries: map<Id, Entry>, keys: seq<Id>)
    requires InBounds(file, entries, keys) && Distinct(keys)
    requires s.live.entries == Moved(entries, keys) && LiveFile(s) == Packed(file, entries, keys)
    ensures Tiled(s)
  {
    MovedTiles(file, entries, keys);
    assert TiledBy(s.live.entries, keys, |LiveFile(s)|);
  }

  predicate LockedBy(s: Shared, me: nat) {
    s.lock.Held? && s.lock.pid == me
  }

  /** The cleanup of an opening leaves the store in order exactly if it is not stale. */
  lemma CleansOpened(prim: Prim, me: nat, s: Shared, gen: nat)
    requires Good(prim, s) && gen <= s.Current()
    ensures Good(prim, CleanOpen(s, gen)) <==> !StaleClean(s, gen)
    ensures CleanOpen(s, gen).lock == s.lock && CleanOpen(s, gen).Current() == s.Current()
  {
    if StaleClean(s, gen) { StaleCleanBreaks(prim, s, gen); } else { CleanOpenOk(prim, me, s, gen); }
  }

  /** So does its mapping, and then the process is in order and sees what is committed. */
  lemma MapsOpened(prim: Prim, me: nat, s: Shared, gen: nat)
    requires Good(prim, s) && gen <= s.Current()
    ensures Good(prim, MapOpen(s, gen).0) <==> !StaleCreate(s, NoMaps, gen, true)
    ensures MapOpen(s, gen).0.lock == s.lock
    ensures var (s', pr) := MapOpen(s, gen);
            !StaleCreate(s, NoMaps, gen, true) ==>
              && ProcOk(prim, s', me, pr) && View(prim, s', pr) == C.Cas(C.Db(Contents(prim, s), s.meta), None)
  {
    if StaleCreate(s, NoMaps, gen, true) {
      StaleCreateBreaks(prim, s, NoMaps, gen);
    } else {
      MapOpenOk(prim, me, s, gen);
      SameContents(prim, s, MapOpen(s, gen).0);
    }
  }

  /** From the copied pack to the end of `compact`: switch, unlink, map, unlock. */
  function SwitchedOver(me: nat, s: Shared, maps: Maps, newFile: nat, keys: seq<Id>): (Shared, Maps)
    requires InBounds(FileOf(s, maps), s.live.entries, keys) && newFile < |s.files|
  {
    var s1 := CompactCommit(me, s, FileOf(s, maps), newFile, keys);
    var s2 := s1.(names := s1.names - {s.Current()});
    var (s3, maps3, _) := MappingFor(s2, maps, s2.Current(), true);
    (s3.(lock := Free), maps3)
  }

  lemma SwitchReads(prim: Prim, p: nat, s: Shared, pr: Proc, live: set<Id>)
    requires Good(prim, s) && pr.Running? && ProcOk(prim, s, p, pr) && pr.phase.Copying?
    ensures InBounds(FileOf(s, pr.maps), s.live.entries, Survivors(s.live.entries, live))
    ensures FileOf(s, pr.maps) == LiveFile(s)
  {
    assert s.GenAt(s.Current()) == s.live;
    SwitchOk(prim, p, s, pr, live);
  }

  /** The pack and the index after the switch are still those when the old name and the flock are gone. */
  lemma SwitchPacks(prim: Prim, p: nat, s: Shared, pr: Proc, live: set<Id>)
    requires Good(prim, s) && pr.Running? && ProcOk(prim, s, p, pr) && pr.phase.Copying?
    requires InBounds(FileOf(s, pr.maps), s.live.entries, Survivors(s.live.entries, live))
    ensures var keys := Survivors(s.live.entries, live);
            var s1 := CompactCommit(p, s, FileOf(s, pr.maps), pr.phase.file, keys);
            && s1.Current() == s.Current() + 1 && s1.meta == s.meta && s1.live.entries == Moved(s.live.entries, keys)
            && LiveFile(s1) == Packed(FileOf(s, pr.maps), s.live.entries, keys)
  {
  }

  lemma SwitchMeans(prim: Prim, p: nat, s: Shared, pr: Proc, live: set<Id>)
    requires Good(prim, s) && pr.Running? && ProcOk(prim, s, p, pr) && pr.phase.Copying?
    ensures InBounds(FileOf(s, pr.maps), s.live.entries, Survivors(s.live.entries, live))
    ensures FileOf(s, pr.maps) == LiveFile(s)
    ensures var keys := Survivors(s.live.entries, live);
            var (s', maps) := SwitchedOver(p, s, pr.maps, pr.phase.file, keys);
            var pr' := pr.(maps := maps, phase := Settled);
            && Good(prim, s') && ProcOk(prim, s', p, pr')
            && View(prim, s', pr') == View(prim, s, pr).Compact(live)
            && s'.Current() == s.Current() + 1 && s.Current() !in s'.names
            && LiveFile(s') == Packed(LiveFile(s), s.live.entries, keys) && s'.live.entries == Moved(s.live.entries, keys)
  {
    SwitchReads(prim, p, s, pr, live);
    SwitchOk(prim, p, s, pr, live);
    SwitchPacks(prim, p, s, pr, live);
    SwitchContents(prim, p, s, pr, live);
    var s1 := CompactCommit(p, s, FileOf(s, pr.maps), pr.phase.file, Survivors(s.live.entries, live));
    AfterSwitch(prim, p, s1, pr.(phase := Switched));
  }

  /** From the switched index to the end: the table stays, the old name and the flock go. */
  lemma AfterSwitch(prim: Prim, p: nat, s: Shared, pr: Proc)
    requires Good(prim, s) && pr.Running? && ProcOk(prim, s, p, pr) && pr.phase == Switched
    ensures var s2 := s.(names := s.names - {s.Current() - 1});
            var (s3, maps, _) := MappingFor(s2, pr.maps, s2.Current(), true);
            var s' := s2.(lock := Free);
            && s3 == s2
            && Good(prim, s') && ProcOk(prim, s', p, pr.(maps := maps, phase := Settled))
            && Contents(prim, s') == Contents(prim, s)
  {
    UnlinkOldOk(prim, p, s, pr);
    var s2 := s.(names := s.names - {s.Current() - 1});
    SameContents(prim, s, s2);
    EndsCompaction(prim, p, s2, pr.(phase := Unlinked));
  }

  lemma EndsCompaction(prim: Prim, p: nat, s: Shared, pr: Proc)
    requires Good(prim, s) && pr.Running? && ProcOk(prim, s, p, pr) && pr.phase == Unlinked
    ensures var (s', maps, _) := MappingFor(s, pr.maps, s.Current(), true);
            && s' == s
            && Good(prim, s.(lock := Free)) && ProcOk(prim, s.(lock := Free), p, pr.(maps := maps, phase := Settled))
            && Contents(prim, s.(lock := Free)) == Contents(prim, s)
  {
    EndCompactOk(prim, p, s, pr);
    MappingForOk(prim, p, s, pr.maps, s.Current(), true);
    SameContents(prim, s, s.(lock := Free));
  }

  /** Preparing the next pack does not touch the live one. */
  lemma PrepareKeepsLive(prim: Prim, s: Shared)
    requires Good(prim, s)
    ensures LiveFile(PrepareNext(s)) == LiveFile(s) && PrepareNext(s).Current() == s.Current()
  {
    assert s.GenAt(s.Current()) == s.live;
  }

  datatype Txn = Txn(entries: map<Id, Entry>, meta: map<Bytes, Bytes>)

  class PackCas {
    const prim: Prim
    const me: nat
    const dir: Directory

    var cur: Option<Mapping>
    var retired: seq<Mapping>

    var wtxn: Option<Txn>
    var committedEnd: nat
    var end: nat
    var batchBytes: nat
    ghost var base: Bytes

    ghost function MapsOf(): Maps
      reads this
    {
      Maps(cur, retired)
    }

    ghost function BatchOf(): Option<Batch>
      reads this
    {
      if wtxn.Some? then Some(Batch(wtxn.value.entries, wtxn.value.meta, committedEnd, end, batchBytes, base)) else None
    }

    ghost function ProcIn(phase: Phase): Proc
      reads this
    {
      Running(MapsOf(), BatchOf(), phase, Quiet)
    }

    ghost function ProcOf(): Proc
      reads this
    {
      ProcIn(Settled)
    }

    /** The invariant of the step machine, for this process between two calls. */
    ghost predicate Valid()
      reads this, dir
    {
      && Sound(prim)
      && Good(prim, dir.s)
      && ProcOk(prim, dir.s, me, ProcOf())
      && (wtxn.None? ==> !LockedBy(dir.s, me))
    }

    /** The store as this process sees it. */
    ghost function Abs(): C.Cas
      reads this, dir
    {
      View(prim, dir.s, ProcOf())
    }

    /** The object before it has mapped anything. */
    constructor (prim: Prim, me: nat, dir: Directory)
      ensures this.prim == prim && this.me == me && this.dir == dir
      ensures MapsOf() == NoMaps && wtxn.None?
    {
      this.prim := prim;
      this.me := me;
      this.dir := dir;
      cur := None;
      retired := [];
      wtxn := None;
      committedEnd, end, batchBytes := 0, 0, 0;
      base := [];
    }

    /** Steps of other processes while there is no object yet. */
    static method OthersBefore(prim: Prim, me: nat, dir: Directory)
      modifies dir
      ensures Good(prim, old(dir.s)) && !LockedBy(old(dir.s), me) ==>
                && Good(prim, dir.s) && !LockedBy(dir.s, me)
                && Rely(me, old(dir.s), dir.s) && ContentKept(prim, old(dir.s), dir.s)
    {
    }

    /**
     * `open_once`, while other processes do what they do: `cleaned` is the store when it looks at the flock, `mapped`
     * when it maps. What it returns is in order if and only if neither of the two found the store ahead of the generation
     * that was read first, in the way that matters there; and then it shows what is committed, with no batch.
     */
    static method Open(prim: Prim, me: nat, dir: Directory)
      returns (cas: PackCas, ghost gen: nat, ghost cleaned: Shared, ghost mapped: Shared)
      requires Sound(prim) && Good(prim, dir.s) && !LockedBy(dir.s, me)
      modifies dir
      ensures fresh(cas) && cas.prim == prim && cas.me == me && cas.dir == dir
      ensures gen == old(dir.s).Current() && Good(prim, cleaned)
      ensures Rely(me, old(dir.s), cleaned) && ContentKept(prim, old(dir.s), cleaned)
      ensures Good(prim, CleanOpen(cleaned, gen)) <==> !StaleClean(cleaned, gen)
      ensures !StaleClean(cleaned, gen) ==>
                && Good(prim, mapped) && ContentKept(prim, CleanOpen(cleaned, gen), mapped)
                && (dir.s, cas.ProcOf()) == MapOpen(mapped, gen)
                && (cas.Valid() <==> !StaleCreate(mapped, NoMaps, gen, true))
      ensures !StaleClean(cleaned, gen) && !StaleCreate(mapped, NoMaps, gen, true) ==>
                cas.Abs() == C.Cas(C.Db(Contents(prim, mapped), mapped.meta), None)
    {
      var read := dir.s.Current();
      gen := read;
      OthersBefore(prim, me, dir);
      cleaned := dir.s;
      CleansOpened(prim, me, cleaned, gen);
      if dir.s.lock.Free? {
        dir.s := Cleanup(dir.s, read);
      }
      OthersBefore(prim, me, dir);
      mapped := dir.s;
      if !StaleClean(cleaned, gen) { MapsOpened(prim, me, mapped, gen); }
      cas := new PackCas(prim, me, dir);
      var m := cas.MapGeneration(read, true);
    }

    /** Steps of other processes: callers may assume no more than what `PackMachine` shows every step to guarantee. */
    method Others()
      requires Valid()
      modifies dir
      ensures Valid()
      ensures Rely(me, old(dir.s), dir.s) && ContentKept(prim, old(dir.s), dir.s)
    {
    }

    /** `mapping_for`. */
    method MapGeneration(gen: nat, create: bool) returns (m: Option<Mapping>)
      modifies this`cur, this`retired, dir
      ensures (dir.s, MapsOf(), m) == MappingFor(old(dir.s), old(MapsOf()), gen, create)
    {
      if cur.Some? && cur.value.gen == gen {
        return cur;
      }
      for i := 0 to |retired|
        invariant FindRetired(retired, gen) == FindRetired(retired[i..], gen)
        invariant cur == old(cur) && retired == old(retired) && dir.s == old(dir.s)
      {
        if retired[i].gen == gen {
          return Some(retired[i]);
        }
      }
      if gen !in dir.s.names {
        if !create {
          return None;
        }
        dir.s := CreatePack(dir.s, gen);
      }
      var mapping := Mapping(gen, dir.s.names[gen]);
      if cur.None? || gen > cur.value.gen {
        if cur.Some? {
          retired := retired + [cur.value];
        }
        cur := Some(mapping);
      } else {
        retired := retired + [mapping];
      }
      m := Some(mapping);
    }

    /** `begin_batch`, after `lock_writer` found the flock free. */
    method BeginBatch()
      requires Valid() && wtxn.None? && dir.s.lock.Free?
      modifies this, dir
      ensures Valid() && Abs() == old(Abs()).Begin()
      ensures wtxn.Some? && batchBytes == 0
      ensures (dir.s, MapsOf(), BatchOf().value) == Begin(me, old(dir.s), old(MapsOf()))
    {
      BeginMeans(prim, me, dir.s, ProcOf());
      AcquireOk(prim, me, dir.s, MapsOf());
      BeginLocksFirst(me, dir.s, MapsOf());
      ghost var (s', maps, b) := Begin(me, dir.s, MapsOf());
      dir.s := dir.s.(lock := Held(me, true));
      wtxn := Some(Txn(dir.s.live.entries, dir.s.meta));
      var m := MapGeneration(dir.s.Current(), true);
      committedEnd := |dir.s.files[m.value.file]|;
      end := committedEnd;
      batchBytes := 0;
      base := dir.s.files[m.value.file];
      assert dir.s == s' && MapsOf() == maps && BatchOf() == Some(b);
    }

    /** `commit_batch`. */
    method CommitBatch()
      requires Valid() && wtxn.Some?
      modifies this, dir
      ensures Valid() && Abs() == old(Abs()).Sync()
      ensures wtxn.None? && dir.s == Commit(old(dir.s), old(BatchOf()).value)
    {
      CommitOk(prim, me, dir.s, ProcOf());
      CommitContents(prim, me, dir.s, ProcOf());
      dir.s := dir.s.(live := dir.s.live.(entries := wtxn.value.entries), meta := wtxn.value.meta);
      wtxn := None;
      committedEnd := end;
      dir.s := dir.s.(lock := Free);
    }

    /** `abort_batch`; `truncated` is whether `ftruncate` succeeds. */
    method AbortBatch(truncated: bool)
      requires Valid() && wtxn.Some?
      modifies this, dir
      ensures Valid() && Abs() == old(Abs()).Drop()
      ensures wtxn.None? && dir.s == Abort(old(dir.s), old(MapsOf()), old(BatchOf()).value, truncated)
      ensures truncated ==> FileOf(dir.s, MapsOf()) == old(base)
    {
      AbortOk(prim, me, dir.s, ProcOf(), truncated);
      WriterContents(prim, me, dir.s, ProcOf(), Action.AbortBatch(me, truncated));
      wtxn := None;
      var f := cur.value.file;
      if truncated {
        dir.s := dir.s.(files := dir.s.files[f := Truncate(dir.s.files[f], committedEnd)]);
        end := committedEnd;
      }
      dir.s := dir.s.(lock := Free);
    }

    /** `sync`. */
    method Sync()
      requires Valid()
      modifies this, dir
      ensures Valid() && Abs() == old(Abs()).Sync() && wtxn.None?
      ensures old(wtxn).None? ==> dir.s == old(dir.s) && MapsOf() == old(MapsOf())
      ensures old(wtxn).Some? ==> dir.s.lock.Free?
      ensures LiveFile(dir.s) == LiveFile(old(dir.s)) && dir.s.Current() == old(dir.s).Current()
    {
      if wtxn.Some? {
        CommitBatch();
      }
    }

    /** `lookup`: the open batch if there is one, else the committed index, with the generation of the same snapshot. */
    method Lookup(h: Id) returns (found: Option<Entry>, gen: nat)
      requires Valid()
      ensures gen == dir.s.Current()
      ensures found.Some? <==> h in Abs().View().objs
      ensures found.Some? ==>
                found.value.rawLen == |Abs().View().objs[h]|
      ensures found.Some? && wtxn.Some? ==> h in wtxn.value.entries && found.value == wtxn.value.entries[h]
      ensures found.Some? && wtxn.None? ==>
                Committed(prim, dir.s, gen, h, found.value, Abs().committed.objs[h])
    {
      gen := dir.s.Current();
      assert dir.s.GenAt(gen) == dir.s.live && GenOk(prim, dir.s.files, dir.s.live);
      var entries := if wtxn.Some? then wtxn.value.entries else dir.s.live.entries;
      if h !in entries {
        return None, gen;
      }
      if wtxn.None? {
        assert Covered(prim, LiveFile(dir.s), entries[h], h);
      } else {
        assert Covered(prim, FileOf(dir.s, MapsOf()), entries[h], h);
      }
      found := Some(entries[h]);
    }

    /** The compression attempt of `put`: LZ4 gets one byte less than the input, so it gives up rather than grow it. */
    method Compress(data: Bytes) returns (stored: Bytes)
      ensures stored == Stored(prim, data)
    {
      stored := data;
      if |data| >= MIN_COMPRESS_SIZE && |data| <= LZ4_MAX_INPUT_SIZE {
        var packed := prim.compress(data);
        if packed.Some? {
          stored := packed.value;
        }
      }
    }

    /** The writing part of `put`: bytes at `end` of the current pack, entry into the open transaction. */
    method Append(h: Id, data: Bytes, stored: Bytes)
      requires Valid() && wtxn.Some? && h == prim.hash(data) && stored == Stored(prim, data)
      requires h !in wtxn.value.entries
      modifies this, dir
      ensures Valid() && Abs() == old(Abs()).Put(h, data)
      ensures wtxn.Some? && batchBytes == old(batchBytes) + |stored|
    {
      var f := cur.value.file;
      ghost var s0, pr := dir.s, ProcOf();
      ghost var b := pr.batch.value;
      assert pr.maps.cur == cur && b == Batch(wtxn.value.entries, wtxn.value.meta, committedEnd, end, batchBytes, base);
      PutWrites(prim, s0, pr.maps, b, data);
      dir.s := dir.s.(files := dir.s.files[f := Pwrite(dir.s.files[f], end, stored)]);
      wtxn := Some(wtxn.value.(entries := wtxn.value.entries[h := Entry(end, |stored|, |data|)]));
      end := end + |stored|;
      batchBytes := batchBytes + |stored|;
      assert (dir.s, BatchOf().value) == Pack.Put(prim, s0, pr.maps, b, data);
      assert ProcOf() == pr.(batch := BatchOf());
      PutMeans(prim, me, s0, pr, data);
    }

    /** What this process sees if others have brought the directory to `at`: its own batch is as it was. */
    ghost function AbsAt(at: Shared): C.Cas
      reads this, dir
    {
      C.Cas(C.Db(Contents(prim, at), at.meta), Abs().pending)
    }

    /**
     * `put`. Without a batch it waits for the flock while other processes do what they do, `at` being the store after
     * that wait, and it fails if the flock stays taken; then it has done nothing.
     */
    method Put(data: Bytes) returns (r: Result<Id>, ghost at: Shared)
      requires Valid()
      modifies this, dir
      ensures Valid() && Rely(me, old(dir.s), at) && ContentKept(prim, old(dir.s), at)
      ensures old(wtxn).Some? ==> at == old(dir.s)
      ensures r == if old(wtxn).None? && !at.lock.Free? then Err(LockTimeout) else Ok(prim.hash(data))
      ensures r.Err? ==> Abs() == old(AbsAt(at)) && wtxn.None?
      ensures r.Ok? ==>
                && Abs() == var put := old(AbsAt(at)).Put(prim.hash(data), data); if wtxn.Some? then put else put.Sync()
      ensures r.Ok? ==> (wtxn.None? <==>
                && prim.hash(data) !in old(AbsAt(at)).View().objs
                && (if old(wtxn).Some? then old(batchBytes) else 0) + |Stored(prim, data)| >= AUTO_SYNC_BYTES)
    {
      if wtxn.None? {
        Others();
      }
      at := dir.s;
      if wtxn.None? && !dir.s.lock.Free? {
        return Err(LockTimeout), at;
      }
      var h := PutLocked(data);
      r := Ok(h);
    }

    /** The rest of `put`, with the automatic sync of large batches. */
    method PutLocked(data: Bytes) returns (h: Id)
      requires Valid() && (wtxn.None? ==> dir.s.lock.Free?)
      modifies this, dir
      ensures h == prim.hash(data) && Valid()
      ensures Abs() == var put := old(Abs()).Put(h, data); if wtxn.Some? then put else put.Sync()
      ensures wtxn.None? <==>
                && h !in old(Abs()).View().objs
                && (if old(wtxn).Some? then old(batchBytes) else 0) + |Stored(prim, data)| >= AUTO_SYNC_BYTES
    {
      h := prim.hash(data);
      if wtxn.None? {
        BeginBatch();
      }
      var found, _ := Lookup(h);
      if found.Some? {
        return;
      }
      var stored := Compress(data);
      Append(h, data, stored);
      if batchBytes >= AUTO_SYNC_BYTES {
        Sync();
      }
    }

    /**
     * `meta_put`. Without a batch it waits until no other process has a transaction open, `at` being the store after some
     * of that wait; it returns only when `done`.
     */
    method MetaPut(key: Bytes, val: Bytes) returns (done: bool, ghost at: Shared)
      requires Valid()
      modifies this, dir
      ensures Valid() && Rely(me, old(dir.s), at) && ContentKept(prim, old(dir.s), at)
      ensures old(wtxn).Some? ==> done && at == old(dir.s)
      ensures old(wtxn).None? ==> (done <==> !at.InTxn())
      ensures Abs() == if done then old(AbsAt(at)).MetaPut(key, val) else old(AbsAt(at))
    {
      if wtxn.None? {
        Others();
      }
      at := dir.s;
      done := wtxn.Some? || !dir.s.InTxn();
      if done {
        PutMeta(key, val);
      }
    }

    method PutMeta(key: Bytes, val: Bytes)
      requires Valid() && (wtxn.None? ==> !dir.s.InTxn())
      modifies this, dir
      ensures Valid() && Abs() == old(Abs()).MetaPut(key, val)
    {
      if wtxn.Some? {
        BatchMetaOk(prim, me, dir.s, ProcOf(), wtxn.value.meta[key := val]);
        wtxn := Some(wtxn.value.(meta := wtxn.value.meta[key := val]));
      } else {
        MetaOk(prim, me, dir.s, ProcOf(), dir.s.meta[key := val]);
        ghost var before := dir.s;
        dir.s := dir.s.(meta := dir.s.meta[key := val]);
        SameContents(prim, before, dir.s);
      }
    }

    /** `meta_del`, with the same wait. */
    method MetaDel(key: Bytes) returns (done: bool, ghost at: Shared)
      requires Valid()
      modifies this, dir
      ensures Valid() && Rely(me, old(dir.s), at) && ContentKept(prim, old(dir.s), at)
      ensures old(wtxn).Some? ==> done && at == old(dir.s)
      ensures old(wtxn).None? ==> (done <==> !at.InTxn())
      ensures Abs() == if done then old(AbsAt(at)).MetaDel(key) else old(AbsAt(at))
    {
      if wtxn.None? {
        Others();
      }
      at := dir.s;
      done := wtxn.Some? || !dir.s.InTxn();
      if done {
        DelMeta(key);
      }
    }

    method DelMeta(key: Bytes)
      requires Valid() && (wtxn.None? ==> !dir.s.InTxn())
      modifies this, dir
      ensures Valid() && Abs() == old(Abs()).MetaDel(key)
    {
      if wtxn.Some? {
        BatchMetaOk(prim, me, dir.s, ProcOf(), wtxn.value.meta - {key});
        wtxn := Some(wtxn.value.(meta := wtxn.value.meta - {key}));
      } else {
        MetaOk(prim, me, dir.s, ProcOf(), dir.s.meta - {key});
        ghost var before := dir.s;
        dir.s := dir.s.(meta := dir.s.meta - {key});
        SameContents(prim, before, dir.s);
      }
    }

    method Has(h: Id) returns (r: bool)
      requires Valid()
      ensures r <==> h in Abs().View().objs
    {
      var found, _ := Lookup(h);
      r := found.Some?;
    }

    /** `size`: the length of the content, without reading it. */
    method Size(h: Id) returns (r: Option<nat>)
      requires Valid()
      ensures r == if h in Abs().View().objs then Some(|Abs().View().objs[h]|) else None
    {
      var found, _ := Lookup(h);
      r := if found.Some? then Some(found.value.rawLen) else None;
    }

    // -------------------------------------------------------------- reading while others work

    /** Entry and mapping belong together: the mapped file reads the entry as `want`, now and after other processes' steps. */
    ghost predicate Readable(h: Id, e: Entry, m: Mapping, want: Bytes)
      reads this, dir
    {
      && m.file < |dir.s.files| && ReadEntry(prim, dir.s.files[m.file], e) == Ok(want) && prim.hash(want) == h
      && (wtxn.None? ==> Committed(prim, dir.s, m.gen, h, e, want) && dir.s.GenAt(m.gen).file == Some(m.file))
      && (wtxn.Some? ==>
            && h in wtxn.value.entries && wtxn.value.entries[h] == e && Some(m) == cur
            && h in Abs().View().objs && want == Abs().View().objs[h])
    }

    /** What a lookup established about generation `gen`, and other processes cannot take back. */
    ghost predicate Pinned(h: Id, e: Entry, gen: nat, want: Bytes)
      reads this, dir
    {
      && (wtxn.Some? ==> cur.Some? && gen == dir.s.Current() && Readable(h, e, cur.value, want))
      && (wtxn.None? ==> Committed(prim, dir.s, gen, h, e, want))
    }

    /** The lookup of `locate`, and the steps other processes take before it maps the pack. */
    method LookupThenOthers(h: Id) returns (found: Option<Entry>, gen: nat, ghost want: Bytes)
      requires Valid()
      modifies dir
      ensures Valid() && Rely(me, old(dir.s), dir.s) && old(dir.s).Current() == gen
      ensures found.None? ==> h !in Abs().View().objs
      ensures found.Some? ==> Pinned(h, found.value, gen, want)
    {
      want := [];
      found, gen := Lookup(h);
      assert dir.s.GenAt(gen) == dir.s.live && GenOk(prim, dir.s.files, dir.s.live);
      if found.None? {
        return;
      }
      want := Abs().View().objs[h];
      if wtxn.Some? {
        assert Covered(prim, FileOf(dir.s, MapsOf()), found.value, h);
        OthersPinnedInBatch(h, found.value, gen, want);
      } else {
        OthersPinned(h, found.value, gen, want);
      }
    }

    method OthersPinnedInBatch(h: Id, e: Entry, gen: nat, ghost want: Bytes)
      requires Valid() && wtxn.Some? && Pinned(h, e, gen, want)
      modifies dir
      ensures Valid() && Rely(me, old(dir.s), dir.s) && Pinned(h, e, gen, want)
    {
      ghost var was := dir.s;
      Others();
      BatchFileStays(prim, was, dir.s, me, ProcOf());
    }

    method OthersPinned(h: Id, e: Entry, gen: nat, ghost want: Bytes)
      requires Valid() && wtxn.None? && Pinned(h, e, gen, want)
      modifies dir
      ensures Valid() && Rely(me, old(dir.s), dir.s) && Pinned(h, e, gen, want)
    {
      ghost var was := dir.s;
      Others();
      CommittedStable(prim, was, dir.s, me, gen, h, e, want);
    }

    /** The mapping step of `locate`: it fails only if the generation is over. */
    method MapPinned(h: Id, e: Entry, gen: nat, ghost want: Bytes) returns (m: Option<Mapping>)
      requires Valid() && Pinned(h, e, gen, want)
      modifies this`cur, this`retired, dir
      ensures Valid() && dir.s == old(dir.s)
      ensures m.Some? ==> m.value.gen == gen && Readable(h, e, m.value, want)
      ensures m.None? ==> gen < dir.s.Current()
    {
      assert dir.s.GenAt(dir.s.Current()) == dir.s.live;
      MappingForOk(prim, me, dir.s, MapsOf(), gen, wtxn.Some?);
      m := MapGeneration(gen, wtxn.Some?);
    }

    /**
     * `locate`: look up, map, try again if the generation was retired in between. Other processes may do anything
     * between the two; eight failed attempts mean eight compactions.
     */
    method Locate(h: Id) returns (r: Result<Option<(Entry, Mapping)>>, ghost want: Bytes)
      requires Valid()
      modifies this`cur, this`retired, dir
      ensures Valid() && Rely(me, old(dir.s), dir.s)
      ensures r.Err? ==> r.error == GenerationChurn && dir.s.Current() >= old(dir.s).Current() + 8
      ensures r.Ok? && r.value.None? ==> h !in Abs().View().objs
      ensures r.Ok? && r.value.Some? ==>
                r.value.value.1.gen >= old(dir.s).Current() && Readable(h, r.value.value.0, r.value.value.1, want)
    {
      want := [];
      for attempt := 0 to MAX_GENERATION_RETRIES
        invariant Valid() && Rely(me, old(dir.s), dir.s)
        invariant dir.s.Current() >= old(dir.s).Current() + attempt
      {
        ghost var was := dir.s;
        var found, gen;
        found, gen, want := LookupThenOthers(h);
        RelyTransitive(me, old(dir.s), was, dir.s);
        if found.None? {
          return Ok(None), want;
        }
        var m := MapPinned(h, found.value, gen, want);
        if m.Some? {
          return Ok(Some((found.value, m.value))), want;
        }
      }
      r := Err(GenerationChurn);
    }

    method ReadFile(file: nat, e: Entry) returns (r: Result<Bytes>)
      requires file < |dir.s.files|
      ensures r == ReadEntry(prim, dir.s.files[file], e)
    {
      var stored := Pread(dir.s.files[file], e.off, e.len);
      if stored.Err? {
        return stored;
      }
      if e.rawLen == e.len {
        return stored;
      }
      r := Decompress(prim, stored.value, e.rawLen);
    }

    /**
     * `get`. What comes back was committed under `h` in a generation no older than the call, or is in the caller's
     * own batch; the only error is churn, and it takes eight compactions.
     */
    method Get(h: Id) returns (r: Result<Option<Bytes>>)
      requires Valid()
      modifies this`cur, this`retired, dir
      ensures Valid() && Rely(me, old(dir.s), dir.s)
      ensures r.Ok? && r.value.Some? ==>
                && prim.hash(r.value.value) == h
                && (wtxn.Some? ==> h in Abs().View().objs && r.value.value == Abs().View().objs[h])
                && (wtxn.None? ==> exists k, e :: old(dir.s).Current() <= k && Committed(prim, dir.s, k, h, e, r.value.value))
      ensures r.Ok? && r.value.None? ==> h !in Abs().View().objs
      ensures r.Err? ==> r.error == GenerationChurn && dir.s.Current() >= old(dir.s).Current() + 8
    {
      var found;
      ghost var want;
      found, want := Locate(h);
      if found.Err? {
        return Err(found.error);
      }
      if found.value.None? {
        return Ok(None);
      }
      var (e, m) := found.value.value;
      ghost var was := dir.s;
      OthersReadable(h, e, m, want);
      RelyTransitive(me, old(dir.s), was, dir.s);
      var data := ReadFile(m.file, e);
      r := Ok(Some(data.value));
    }

    method OthersReadable(h: Id, e: Entry, m: Mapping, ghost want: Bytes)
      requires Valid() && Readable(h, e, m, want)
      modifies dir
      ensures Valid() && Rely(me, old(dir.s), dir.s) && Readable(h, e, m, want)
    {
      ghost var was := dir.s;
      Others();
      if wtxn.Some? {
        BatchFileStays(prim, was, dir.s, me, ProcOf());
      } else {
        CommittedStable(prim, was, dir.s, me, m.gen, h, e, want);
      }
    }

    /**
     * `get_view`: `at` is the entry of `h`, in the caller's own batch or in a generation no older than the call. The
     * result is the content of that entry, or a refusal exactly if the entry lies beyond the mapped size.
     */
    method GetView(h: Id) returns (r: Result<Option<Bytes>>, ghost at: Option<Entry>)
      requires Valid()
      modifies this`cur, this`retired, dir
      ensures Valid() && Rely(me, old(dir.s), dir.s)
      ensures at.Some? && wtxn.Some? ==> h in wtxn.value.entries && wtxn.value.entries[h] == at.value
      ensures at.Some? && wtxn.None? ==>
                exists k, want :: old(dir.s).Current() <= k && Committed(prim, dir.s, k, h, at.value, want)
      ensures at.None? <==> r == Ok(None) || r == Err(GenerationChurn)
      ensures r.Ok? && r.value.Some? ==> prim.hash(r.value.value) == h
      ensures r.Ok? && r.value.Some? && wtxn.Some? ==> h in Abs().View().objs && r.value.value == Abs().View().objs[h]
      ensures r.Ok? && r.value.Some? && wtxn.None? ==>
                exists k :: old(dir.s).Current() <= k && Committed(prim, dir.s, k, h, at.value, r.value.value)
      ensures r.Ok? && r.value.None? ==> h !in Abs().View().objs
      ensures r == Err(PackOutOfBounds) <==> at.Some? && at.value.off + at.value.len > MAP_SIZE
      ensures r.Err? && r.error != PackOutOfBounds ==>
                r.error == GenerationChurn && dir.s.Current() >= old(dir.s).Current() + 8
    {
      at := None;
      var found;
      ghost var want;
      found, want := Locate(h);
      if found.Err? {
        return Err(found.error), at;
      }
      if found.value.None? {
        return Ok(None), at;
      }
      var (e, m) := found.value.value;
      at := Some(e);
      ghost var was := dir.s;
      OthersReadable(h, e, m, want);
      RelyTransitive(me, old(dir.s), was, dir.s);
      assert wtxn.None? ==> old(dir.s).Current() <= m.gen && Committed(prim, dir.s, m.gen, h, e, want);
      if e.off + e.len > MAP_SIZE {
        return Err(PackOutOfBounds), at;
      }
      var data := ReadFile(m.file, e);
      r := Ok(Some(data.value));
    }

    // -------------------------------------------------------------- compaction

    /** The machine's invariant for this process while it compacts into `newFile`. */
    ghost predicate Compacting(newFile: nat)
      reads this, dir
    {
      && Sound(prim) && Good(prim, dir.s) && wtxn.None?
      && ProcOk(prim, dir.s, me, ProcIn(Copying(newFile)))
    }

    method StartCompaction() returns (newFile: nat)
      requires Valid() && wtxn.None? && dir.s.lock.Free?
      modifies this`cur, this`retired, dir
      ensures Compacting(newFile) && Abs() == old(Abs())
      ensures dir.s.Current() == old(dir.s).Current() && LiveFile(dir.s) == LiveFile(old(dir.s))
      ensures dir.s.live.entries == old(dir.s).live.entries
    {
      ghost var s0, pr0 := dir.s, ProcOf();
      StartCompactOk(prim, me, s0, pr0);
      AcquireOk(prim, me, s0, MapsOf());
      MappingForOk(prim, me, s0, MapsOf(), s0.Current(), true);
      ghost var (s1, maps1, _) := MappingFor(s0, MapsOf(), s0.Current(), true);
      PrepareNextOk(prim, s1.(lock := Held(me, true)));
      var m := MapGeneration(dir.s.Current(), true);
      dir.s := PrepareNext(dir.s.(lock := Held(me, true)));
      newFile := dir.s.names[dir.s.Current() + 1];
      assert (dir.s, MapsOf(), newFile) == CompactStart(me, s0, pr0.maps);
      SameContents(prim, s0, dir.s);
      PrepareKeepsLive(prim, s1.(lock := Held(me, true)));
    }

    /** The part after the copy: switch the index, unlink the old pack, map the new one, release the flock. */
    method SwitchOver(newFile: nat, packed: Bytes, blobs: map<Id, Entry>, ghost live: set<Id>)
      requires Compacting(newFile)
      requires InBounds(LiveFile(dir.s), dir.s.live.entries, Survivors(dir.s.live.entries, live))
      requires packed == Packed(LiveFile(dir.s), dir.s.live.entries, Survivors(dir.s.live.entries, live))
      requires blobs == Moved(dir.s.live.entries, Survivors(dir.s.live.entries, live))
      modifies this, dir
      ensures Valid() && Abs() == old(Abs()).Compact(live) && dir.s.lock.Free? && wtxn.None?
      ensures dir.s.Current() == old(dir.s).Current() + 1 && old(dir.s).Current() !in dir.s.names
      ensures LiveFile(dir.s) == packed && dir.s.live.entries == blobs
    {
      SwitchMeans(prim, me, dir.s, ProcIn(Copying(newFile)), live);
      ghost var after := SwitchedOver(me, dir.s, MapsOf(), newFile, Survivors(dir.s.live.entries, live));
      var gen := dir.s.Current();
      dir.s := dir.s.(past := dir.s.past + [dir.s.live], live := Gen(Some(newFile), blobs),
                      files := dir.s.files[newFile := packed], lock := Held(me, false));
      dir.s := dir.s.(names := dir.s.names - {gen});
      var _ := MapGeneration(gen + 1, true);
      committedEnd, end := |packed|, |packed|;
      dir.s := dir.s.(lock := Free);
      assert (dir.s, MapsOf()) == after;
    }

    /** `compact` after its `sync`. */
    method CompactSynced(live: Id -> bool) returns (r: Result<()>)
      requires Valid() && wtxn.None? && dir.s.lock.Free?
      modifies this, dir
      ensures Valid() && wtxn.None? && dir.s.lock.Free?
      ensures r.Ok? ==> Abs() == old(Abs()).Compact(LiveSet(old(dir.s).live.entries, live))
      ensures r.Ok? ==> dir.s.Current() == old(dir.s).Current() + 1 && |LiveFile(dir.s)| <= |LiveFile(old(dir.s))|
      ensures r.Ok? ==> Tiled(dir.s)
      ensures r.Err? ==> r.error == PackOutOfBounds && Abs() == old(Abs())
      ensures r.Ok? <==> Viewable(old(dir.s).live.entries, LiveKeys(old(dir.s).live.entries, live))
    {
      var newFile := StartCompaction();
      var entries := dir.s.live.entries;
      LiveInBounds(newFile);
      var copy := CopyLive(dir.s.files[cur.value.file], entries, live);
      if copy.None? {
        AbandonCompaction(newFile);
        return Err(PackOutOfBounds);
      }
      var blobs := Reindex(copy.value.keep, entries, LiveKeys(entries, live));
      ghost var file := LiveFile(dir.s);
      SwitchOver(newFile, copy.value.written, blobs, LiveSet(entries, live));
      SurvivorsDistinct(entries, LiveSet(entries, live));
      TiledByKeys(dir.s, file, entries, LiveKeys(entries, live));
      PackedNoLarger(file, entries, LiveKeys(entries, live));
      r := Ok(());
    }

    /**
     * `compact`. After its own `sync` it waits for the flock while other processes do what they do: `synced` is the
     * store before that wait and `at` after it. The survivors are the objects of `at` that `live` accepts, each with its
     * content; their entries tile the new pack, which is no larger than the old one. It fails only if the flock stays
     * taken or on a live blob beyond the mapped size, and then has done no more than the `sync`.
     */
    method Compact(live: Id -> bool) returns (r: Result<()>, ghost synced: Shared, ghost at: Shared)
      requires Valid()
      modifies this, dir
      ensures Valid() && wtxn.None?
      ensures old(Abs()).Sync() == C.Cas(C.Db(Contents(prim, synced), synced.meta), None)
      ensures Rely(me, synced, at) && ContentKept(prim, synced, at)
      ensures var table := C.Cas(C.Db(Contents(prim, at), at.meta), None);
              Abs() == if r.Ok? then table.Compact(set h | h in table.committed.objs && live(h)) else table
      ensures r.Ok? ==> dir.s.Current() == at.Current() + 1 && |LiveFile(dir.s)| <= |LiveFile(at)| && Tiled(dir.s)
      ensures r.Err? ==> if at.lock.Free? then r.error == PackOutOfBounds else r.error == LockTimeout
      ensures at.lock.Free? ==> (r.Ok? <==> Viewable(at.live.entries, LiveKeys(at.live.entries, live)))
    {
      Sync();
      synced := dir.s;
      Others();
      at := dir.s;
      if !dir.s.lock.Free? {
        return Err(LockTimeout), synced, at;
      }
      assert LiveSet(dir.s.live.entries, live) == set h | h in Contents(prim, at) && live(h);
      r := CompactSynced(live);
    }

    lemma LiveInBounds(newFile: nat)
      requires Compacting(newFile)
      ensures cur.Some? && cur.value.file < |dir.s.files| && LiveFile(dir.s) == dir.s.files[cur.value.file]
      ensures Disjoint(dir.s.live.entries)
      ensures forall k :: k in dir.s.live.entries ==>
                dir.s.live.entries[k].off + dir.s.live.entries[k].len <= |LiveFile(dir.s)|
    {
      assert dir.s.GenAt(dir.s.Current()) == dir.s.live && GenOk(prim, dir.s.files, dir.s.live);
      assert forall k :: k in dir.s.live.entries ==> Covered(prim, LiveFile(dir.s), dir.s.live.entries[k], k);
    }

    /** The handler of `compact` for a failure before the index switch. */
    method AbandonCompaction(newFile: nat)
      requires Compacting(newFile)
      modifies this, dir
      ensures Valid() && wtxn.None? && dir.s.lock.Free? && Abs() == old(Abs())
      ensures dir.s.Current() == old(dir.s).Current() && dir.s.Current() + 1 !in dir.s.names
    {
      FailCompactOk(prim, me, dir.s, ProcIn(Copying(newFile)));
      ghost var before := dir.s;
      dir.s := dir.s.(names := dir.s.names - {dir.s.Current() + 1}, lock := Free);
      SameContents(prim, before, dir.s);
    }
  }
}
