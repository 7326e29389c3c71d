/**
 * N processes on one pack store. Each process has a writer thread and a reader thread; a step of either, or the
 * death of the process, may come at any time. The steps use the functions of module Pack.
 */
module PackMachine {
  import opened Basics
  import opened Primitives
  import opened Pack
  import opened PackInvariant

  /** Where a compaction is: copying to `file`, index switched, old pack unlinked. */
  datatype Phase = Settled | Copying(file: nat) | Switched | Unlinked

  /**
   * The reader thread inside `get`. `first` and `want` are remembered for the proofs: the generation of the call's
   * first lookup, and what the entry read as at the moment it was looked up.
   */
  datatype Reader =
    | Quiet
    | Looked(hash: Id, entry: Entry, gen: nat, attempt: nat, first: nat, want: Bytes)
    | Retry(hash: Id, attempt: nat, first: nat)
    | Located(hash: Id, entry: Entry, gen: nat, file: nat, want: Bytes)
    | Churned(first: nat)

  datatype Proc =
    | Opening(gen: nat, cleaned: bool)
    | Running(maps: Maps, batch: Option<Batch>, phase: Phase, reader: Reader)

  datatype World = World(s: Shared, procs: map<nat, Proc>)

  datatype Action =
    | OpenRead(p: nat)
    | OpenClean(p: nat)
    | OpenMap(p: nat)
    | Crash(p: nat)
    | BeginBatch(p: nat)
    | PutBlob(p: nat, data: Bytes)
    | TornWrite(p: nat, some: Bytes)
    | SetMeta(p: nat, key: Bytes, val: Bytes)
    | DelMeta(p: nat, key: Bytes)
    | CommitBatch(p: nat)
    | AbortBatch(p: nat, truncated: bool)
    | StartCompact(p: nat)
    | CopyChunk(p: nat, some: Bytes)
    | SwitchIndex(p: nat, live: set<Id>)
    | FailCompact(p: nat)
    | UnlinkOld(p: nat)
    | EndCompact(p: nat)
    | Lookup(p: nat, h: Id)
    | Map(p: nat)
    | Return(p: nat)

  // ---------------------------------------------------------------- the steps

  /** `cleanup_orphans`: every pack name but one goes. */
  function Cleanup(s: Shared, gen: nat): Shared {
    s.(names := map k | k in s.names && k == gen :: s.names[k])
  }

  const NoMaps := Maps(None, [])

  /** The middle of `open_once`: if the flock is free, it is held just for the cleanup. */
  function CleanOpen(s: Shared, gen: nat): Shared {
    if s.lock.Free? then Cleanup(s, gen) else s
  }

  /** Its end, without the flock. */
  function MapOpen(s: Shared, gen: nat): (Shared, Proc) {
    var (s', maps, _) := MappingFor(s, NoMaps, gen, true);
    (s', Running(maps, None, Settled, Quiet))
  }

  function WriterStep(prim: Prim, s: Shared, pr: Proc, a: Action): Option<(Shared, Proc)>
    requires pr.Running?
  {
    match a
    case BeginBatch(p) =>
      if pr.batch.Some? || pr.phase != Settled || s.lock != Free then None
      else
        var (s', maps, b) := Begin(p, s, pr.maps);
        Some((s', pr.(maps := maps, batch := Some(b))))
    case PutBlob(p, data) =>
      if pr.batch.None? || pr.batch.value.end > |FileOf(s, pr.maps)| then None
      else
        var (s', b) := Put(prim, s, pr.maps, pr.batch.value, data);
        Some((s', pr.(batch := Some(b))))
    case TornWrite(p, some) =>
      if pr.batch.None? || pr.batch.value.end > |FileOf(s, pr.maps)| then None
      else Some((TornPut(s, pr.maps, pr.batch.value, some), pr))
    case SetMeta(p, key, val) =>
      if pr.batch.Some? then Some((s, pr.(batch := Some(pr.batch.value.(meta := pr.batch.value.meta[key := val])))))
      else if s.InTxn() then None
      else Some((s.(meta := s.meta[key := val]), pr))
    case DelMeta(p, key) =>
      if pr.batch.Some? then Some((s, pr.(batch := Some(pr.batch.value.(meta := pr.batch.value.meta - {key})))))
      else if s.InTxn() then None
      else Some((s.(meta := s.meta - {key}), pr))
    case CommitBatch(p) =>
      if pr.batch.None? then None
      else Some((Commit(s, pr.batch.value), pr.(batch := None)))
    case AbortBatch(p, truncated) =>
      if pr.batch.None? then None
      else Some((Abort(s, pr.maps, pr.batch.value, truncated), pr.(batch := None)))
    case StartCompact(p) =>
      if pr.batch.Some? || pr.phase != Settled || s.lock != Free then None
      else
        var (s', maps, f) := CompactStart(p, s, pr.maps);
        Some((s', pr.(maps := maps, phase := Copying(f))))
    case CopyChunk(p, some) =>
      if !pr.phase.Copying? || pr.phase.file >= |s.files| then None
      else Some((s.(files := s.files[pr.phase.file := s.files[pr.phase.file] + some]), pr))
    case SwitchIndex(p, live) =>
      var keys := Survivors(s.live.entries, live);
      var pack := FileOf(s, pr.maps);
      if !pr.phase.Copying? || pr.phase.file >= |s.files| || !InBounds(pack, s.live.entries, keys)
         || !Viewable(s.live.entries, keys) then None
      else Some((CompactCommit(p, s, pack, pr.phase.file, keys), pr.(phase := Switched)))
    case FailCompact(p) =>
      if !pr.phase.Copying? then None
      else Some((s.(names := s.names - {s.Current() + 1}, lock := Free), pr.(phase := Settled)))
    case UnlinkOld(p) =>
      if pr.phase != Switched || s.Current() == 0 then None
      else Some((s.(names := s.names - {s.Current() - 1}), pr.(phase := Unlinked)))
    case EndCompact(p) =>
      if pr.phase != Unlinked then None
      else
        var (s', maps, _) := MappingFor(s, pr.maps, s.Current(), true);
        Some((s'.(lock := Free), pr.(maps := maps, phase := Settled)))
    case _ => None
  }

  /** A lookup in a read transaction: entry and generation are from one snapshot. */
  function LookUp(prim: Prim, s: Shared, h: Id, attempt: nat, first: nat): Reader {
    if h !in s.live.entries then Quiet
    else
      var e := s.live.entries[h];
      var file := if s.live.file.Some? && s.live.file.value < |s.files| then s.files[s.live.file.value] else [];
      var now := ReadEntry(prim, file, e);
      Looked(h, e, s.Current(), attempt, first, if now.Ok? then now.value else [])
  }

  function ReaderStep(prim: Prim, s: Shared, pr: Proc, a: Action): Option<(Shared, Proc)>
    requires pr.Running?
  {
    match a
    case Lookup(p, h) =>
      if pr.reader.Quiet? then Some((s, pr.(reader := LookUp(prim, s, h, 0, s.Current()))))
      else if pr.reader.Retry? && pr.reader.hash == h then
        Some((s, pr.(reader := LookUp(prim, s, h, pr.reader.attempt, pr.reader.first))))
      else None
    case Map(p) =>
      if !pr.reader.Looked? then None
      else
        var r := pr.reader;
        var (s', maps, m) := MappingFor(s, pr.maps, r.gen, pr.batch.Some?);
        var next :=
          if m.Some? then Located(r.hash, r.entry, r.gen, m.value.file, r.want)
          else if r.attempt + 1 < MAX_GENERATION_RETRIES then Retry(r.hash, r.attempt + 1, r.first)
          else Churned(r.first);
        Some((s', pr.(maps := maps, reader := next)))
    case Return(p) =>
      if pr.reader.Located? || pr.reader.Churned? then Some((s, pr.(reader := Quiet))) else None
    case _ => None
  }

  /** The world after an action, or nothing if the action is not possible now. */
  function Step(prim: Prim, w: World, a: Action): Option<World> {
    if a.OpenRead? then
      // open_once starts with an LMDB write transaction of its own
      if a.p in w.procs || w.s.InTxn() then None
      else Some(w.(procs := w.procs[a.p := Opening(w.s.Current(), false)]))
    else if a.p !in w.procs then None
    else if a.Crash? then
      Some(World(if w.s.lock.Held? && w.s.lock.pid == a.p then w.s.(lock := Free) else w.s, w.procs - {a.p}))
    else
      match w.procs[a.p]
      case Opening(gen, cleaned) =>
        if a.OpenClean? && !cleaned then Some(World(CleanOpen(w.s, gen), w.procs[a.p := Opening(gen, true)]))
        else if a.OpenMap? && cleaned then
          var (s', pr') := MapOpen(w.s, gen);
          Some(World(s', w.procs[a.p := pr']))
        else None
      case Running(_, _, _, _) =>
        var r := if a.Lookup? || a.Map? || a.Return? then ReaderStep(prim, w.s, w.procs[a.p], a)
                 else WriterStep(prim, w.s, w.procs[a.p], a);
        if r.None? then None else Some(World(r.value.0, w.procs[a.p := r.value.1]))
  }

  // ---------------------------------------------------------------- the invariant

  ghost predicate ReaderOk(prim: Prim, s: Shared, r: Reader) {
    match r
    case Quiet => true
    case Looked(h, e, k, attempt, first, want) =>
      Committed(prim, s, k, h, e, want) && attempt < MAX_GENERATION_RETRIES && first + attempt <= k
    case Retry(h, attempt, first) => attempt < MAX_GENERATION_RETRIES && first + attempt <= s.Current()
    case Located(h, e, k, f, want) => Committed(prim, s, k, h, e, want) && s.GenAt(k).file == Some(f)
    case Churned(first) => first + MAX_GENERATION_RETRIES <= s.Current()
  }

  ghost predicate ProcOk(prim: Prim, s: Shared, p: nat, pr: Proc) {
    match pr
    case Opening(gen, _) => gen <= s.Current()
    case Running(maps, batch, phase, reader) =>
      && MapsOk(s, maps)
      && ReaderOk(prim, s, reader)
      && (batch.Some? ==> phase == Settled && s.lock == Held(p, true) && BatchOk(prim, s, maps, batch.value))
      && (phase.Copying? ==>
            && s.lock == Held(p, true) && MapsLive(s, maps) && phase.file < |s.files|
            && s.Current() + 1 in s.names && s.names[s.Current() + 1] == phase.file)
      && (phase == Switched || phase == Unlinked ==> s.lock == Held(p, false) && s.Current() > 0)
  }

  /** Whoever holds the flock is alive and has a batch open or a compaction under way. */
  ghost predicate LockOwned(w: World) {
    w.s.lock.Held? ==>
      && w.s.lock.pid in w.procs
      && var pr := w.procs[w.s.lock.pid];
         pr.Running? && (pr.batch.Some? || pr.phase != Settled)
  }

  ghost predicate Inv(prim: Prim, w: World) {
    && Good(prim, w.s)
    && (forall p :: p in w.procs ==> ProcOk(prim, w.s, p, w.procs[p]))
    && LockOwned(w)
  }

  const Start := World(Empty, map[])

  lemma StartInv(prim: Prim)
    ensures Inv(prim, Start)
  {
    EmptyIsGood(prim);
  }

  // ---------------------------------------------------------------- each step keeps it

  /** A step by `p` from `s` to `s'` is fine for the shared state, for `p` itself and for everybody else. */
  ghost predicate StepOk(prim: Prim, p: nat, s: Shared, s': Shared, pr': Proc) {
    && Good(prim, s')
    && ProcOk(prim, s', p, pr')
    && ContentKept(prim, s, s')
    && (forall q :: q != p ==> Rely(q, s, s'))
  }

  lemma ProcStable(prim: Prim, s: Shared, s': Shared, q: nat, pr: Proc)
    requires ProcOk(prim, s, q, pr) && Rely(q, s, s') && ContentKept(prim, s, s')
    ensures ProcOk(prim, s', q, pr)
  {
    if pr.Running? {
      MapsStable(s, s', q, pr.maps);
      if pr.batch.Some? { BatchStable(prim, s, s', q, pr.maps, pr.batch.value); }
    }
  }

  lemma RelyTransitive(q: nat, s: Shared, m: Shared, s': Shared)
    requires Rely(q, s, m) && Rely(q, m, s')
    ensures Rely(q, s, s')
  {
  }

  lemma KeptTransitive(prim: Prim, s: Shared, m: Shared, s': Shared)
    requires ContentKept(prim, s, m) && ContentKept(prim, m, s')
    requires forall k, h :: 0 <= k <= s.Current() && h in s.GenAt(k).entries ==>
               k <= m.Current() && h in m.GenAt(k).entries && m.GenAt(k).entries[h] == s.GenAt(k).entries[h]
    ensures ContentKept(prim, s, s')
  {
    forall k, h | 0 <= k <= s.Current() && h in s.GenAt(k).entries && s.GenAt(k).file.Some?
      ensures k <= s'.Current() && s'.GenAt(k).file == s.GenAt(k).file
      ensures s.GenAt(k).file.value < |s.files| && s.GenAt(k).file.value < |s'.files|
      ensures ReadEntry(prim, s'.files[s.GenAt(k).file.value], s.GenAt(k).entries[h])
              == ReadEntry(prim, s.files[s.GenAt(k).file.value], s.GenAt(k).entries[h])
    {
      assert h in m.GenAt(k).entries;
    }
  }

  /** Taking or releasing the flock changes nothing for those who do not hold it. */
  lemma Relock(prim: Prim, s: Shared, lock: Lock, q: nat)
    requires Good(prim, s)
    ensures Good(prim, s.(lock := lock)) && ContentKept(prim, s, s.(lock := lock))
    ensures !(s.lock.Held? && s.lock.pid == q) ==> Rely(q, s, s.(lock := lock))
  {
    var s' := s.(lock := lock);
    forall k | 0 <= k <= s.Current() ensures s'.GenAt(k) == s.GenAt(k) && GenOk(prim, s'.files, s'.GenAt(k)) {
      assert GenOk(prim, s.files, s.GenAt(k));
    }
  }

  /** A fresh batch on the mapped live pack is in order. */
  lemma FreshBatchOk(prim: Prim, s: Shared, maps: Maps, b: Batch)
    requires Good(prim, s) && MapsOk(s, maps) && MapsLive(s, maps)
    requires b.entries == s.live.entries && b.base == s.files[maps.cur.value.file]
    requires b.committedEnd == b.end == |b.base|
    ensures BatchOk(prim, s, maps, b)
  {
    assert GenOk(prim, s.files, s.GenAt(s.Current()));
  }

  /** Mapping the live generation and then taking the flock. */
  lemma AcquireOk(prim: Prim, p: nat, s: Shared, maps: Maps)
    requires Good(prim, s) && MapsOk(s, maps) && s.lock == Free
    ensures var (s1, maps1, m) := MappingFor(s, maps, s.Current(), true);
            var s' := s1.(lock := Held(p, true));
            && Good(prim, s') && MapsOk(s', maps1) && MapsLive(s', maps1) && ContentKept(prim, s, s')
            && s'.past == s.past && s'.live.entries == s.live.entries && s'.meta == s.meta
            && m == maps1.cur && s'.live.file == Some(maps1.cur.value.file)
            && forall q :: Rely(q, s, s')
  {
    MappingForOk(prim, p, s, maps, s.Current(), true);
    var (s1, maps1, m) := MappingFor(s, maps, s.Current(), true);
    var s' := s1.(lock := Held(p, true));
    Relock(prim, s1, Held(p, true), p);
    KeptTransitive(prim, s, s1, s');
    forall q ensures Rely(q, s, s') {
      MappingForRely(prim, q, s, maps, s.Current(), true);
      Relock(prim, s1, Held(p, true), q);
      RelyTransitive(q, s, s1, s');
    }
    MapsStable(s1, s', p, maps1);
  }

  lemma ReaderStable(prim: Prim, s: Shared, s': Shared, q: nat, r: Reader)
    requires ReaderOk(prim, s, r) && Rely(q, s, s') && ContentKept(prim, s, s')
    ensures ReaderOk(prim, s', r)
  {
  }

  lemma BeginOk(prim: Prim, p: nat, s: Shared, pr: Proc)
    requires Good(prim, s) && pr.Running? && ProcOk(prim, s, p, pr)
    requires pr.batch.None? && pr.phase == Settled && s.lock == Free
    ensures var (s', maps, b) := Begin(p, s, pr.maps);
            StepOk(prim, p, s, s', pr.(maps := maps, batch := Some(b)))
  {
    AcquireOk(prim, p, s, pr.maps);
    var (s', maps, b) := Begin(p, s, pr.maps);
    assert GenOk(prim, s'.files, s'.GenAt(s'.Current()));
    FreshBatchOk(prim, s', maps, b);
    ReaderStable(prim, s, s', p, pr.reader);
  }

  /** Writing above `end` in the live pack keeps the open batch in order, and everyone else unaware. */
  lemma WriteOk(prim: Prim, p: nat, s: Shared, maps: Maps, b: Batch, data: Bytes)
    requires Good(prim, s) && s.lock == Held(p, true) && BatchOk(prim, s, maps, b)
    ensures var s' := WithFile(s, maps, Pwrite(FileOf(s, maps), b.end, data));
            && Good(prim, s') && ContentKept(prim, s, s') && BatchOk(prim, s', maps, b) && MapsOk(s', maps)
            && (forall q :: q != p ==> Rely(q, s, s'))
            && s'.past == s.past && s'.live == s.live && s'.meta == s.meta && s'.lock == s.lock
            && FileOf(s', maps) == Pwrite(FileOf(s, maps), b.end, data)
            && forall h :: h in b.entries ==>
                 ReadEntry(prim, FileOf(s', maps), b.entries[h]) == ReadEntry(prim, FileOf(s, maps), b.entries[h])
  {
    var file := FileOf(s, maps);
    var content := Pwrite(file, b.end, data);
    LiveWrite(prim, s, maps.cur.value.file, content, b.end);
    forall h | h in b.entries
      ensures Covered(prim, content, b.entries[h], h)
      ensures ReadEntry(prim, content, b.entries[h]) == ReadEntry(prim, file, b.entries[h])
    {
      ReadFrame(prim, file, content, b.end, b.entries[h]);
    }
    FilesRely(s, WithFile(s, maps, content).files, p);
    SameBelow(content, file, b.committedEnd, b.end);
  }

  /** Writing files under the flock is nothing to the others. */
  lemma FilesRely(s: Shared, files: seq<Bytes>, p: nat)
    requires s.lock.Held? && s.lock.pid == p
    ensures forall q :: q != p ==> Rely(q, s, s.(files := files))
  {
    assert forall k :: 0 <= k <= s.Current() ==> s.(files := files).GenAt(k) == s.GenAt(k);
  }

  lemma SameBelow(a: Bytes, b: Bytes, n: nat, m: nat)
    requires n <= m <= |a| && m <= |b| && a[..m] == b[..m]
    ensures a[..n] == b[..n]
  {
    assert a[..n] == a[..m][..n] && b[..n] == b[..m][..n];
  }

  lemma PutNewOk(prim: Prim, p: nat, s: Shared, pr: Proc, data: Bytes)
    requires Sound(prim) && Good(prim, s) && pr.Running? && ProcOk(prim, s, p, pr) && pr.batch.Some?
    requires prim.hash(data) !in pr.batch.value.entries
    ensures var (s', b) := Put(prim, s, pr.maps, pr.batch.value, data);
            && BatchOk(prim, s', pr.maps, b) && b.entries == pr.batch.value.entries[prim.hash(data) := b.entries[prim.hash(data)]]
            && ReadEntry(prim, FileOf(s', pr.maps), b.entries[prim.hash(data)]) == Ok(data)
  {
    var b := pr.batch.value;
    WriteOk(prim, p, s, pr.maps, b, Stored(prim, data));
    var (s', b') := Put(prim, s, pr.maps, b, data);
    PwriteCovers(prim, FileOf(s, pr.maps), b.end, data);
    assert Disjoint(b'.entries);
  }

  lemma PutOk(prim: Prim, p: nat, s: Shared, pr: Proc, data: Bytes)
    requires Sound(prim) && Good(prim, s) && pr.Running? && ProcOk(prim, s, p, pr) && pr.batch.Some?
    ensures var (s', b) := Put(prim, s, pr.maps, pr.batch.value, data);
            && StepOk(prim, p, s, s', pr.(batch := Some(b)))
            && s'.live.entries == s.live.entries
            && b.entries.Keys == pr.batch.value.entries.Keys + {prim.hash(data)}
            && (forall h :: h in pr.batch.value.entries ==>
                  && b.entries[h] == pr.batch.value.entries[h]
                  && ReadEntry(prim, FileOf(s', pr.maps), b.entries[h]) == ReadEntry(prim, FileOf(s, pr.maps), b.entries[h]))
            && (prim.hash(data) !in pr.batch.value.entries ==>
                  ReadEntry(prim, FileOf(s', pr.maps), b.entries[prim.hash(data)]) == Ok(data))
  {
    var b := pr.batch.value;
    var h := prim.hash(data);
    if h in b.entries {
      NothingMoves(prim, s);
    } else {
      WriteOk(prim, p, s, pr.maps, b, Stored(prim, data));
      PutNewOk(prim, p, s, pr, data);
      ReaderWrite(prim, p, s, Put(prim, s, pr.maps, b, data).0, pr.reader);
    }
  }

  /** The reader thread of the writing process is not disturbed either. */
  lemma ReaderWrite(prim: Prim, p: nat, s: Shared, s': Shared, r: Reader)
    requires ReaderOk(prim, s, r) && ContentKept(prim, s, s')
    requires s'.past == s.past && s'.live == s.live
    ensures ReaderOk(prim, s', r)
  {
    assert forall k :: 0 <= k <= s.Current() ==> s'.GenAt(k) == s.GenAt(k);
  }

  lemma TornOk(prim: Prim, p: nat, s: Shared, pr: Proc, some: Bytes)
    requires Good(prim, s) && pr.Running? && ProcOk(prim, s, p, pr) && pr.batch.Some?
    ensures StepOk(prim, p, s, TornPut(s, pr.maps, pr.batch.value, some), pr)
  {
    WriteOk(prim, p, s, pr.maps, pr.batch.value, some);
    ReaderWrite(prim, p, s, TornPut(s, pr.maps, pr.batch.value, some), pr.reader);
  }

  lemma CommitRely(prim: Prim, p: nat, s: Shared, pr: Proc)
    requires Good(prim, s) && pr.Running? && ProcOk(prim, s, p, pr) && pr.batch.Some?
    ensures var s' := Commit(s, pr.batch.value);
            && Good(prim, s') && ContentKept(prim, s, s') && Rely(p, s.(lock := Free), s')
            && forall q :: q != p ==> Rely(q, s, s')
  {
    var s' := Commit(s, pr.batch.value);
    forall k | 0 <= k <= s.Current()
      ensures s'.GenAt(k).file == s.GenAt(k).file && GenOk(prim, s'.files, s'.GenAt(k))
    {
      assert GenOk(prim, s.files, s.GenAt(k));
    }
    forall q | q != p ensures Rely(q, s, s') {}
  }

  lemma CommitOk(prim: Prim, p: nat, s: Shared, pr: Proc)
    requires Good(prim, s) && pr.Running? && ProcOk(prim, s, p, pr) && pr.batch.Some?
    ensures StepOk(prim, p, s, Commit(s, pr.batch.value), pr.(batch := None))
  {
    var s' := Commit(s, pr.batch.value);
    CommitRely(prim, p, s, pr);
    ReaderStable(prim, s.(lock := Free), s', p, pr.reader);
    MapsStable(s.(lock := Free), s', p, pr.maps);
  }

  /** An abort before it lets the flock go: at most the pack is cut back to its committed end. */
  lemma AbortCuts(prim: Prim, p: nat, s: Shared, pr: Proc, truncated: bool)
    requires Good(prim, s) && pr.Running? && ProcOk(prim, s, p, pr) && pr.batch.Some?
    ensures var m := Abort(s, pr.maps, pr.batch.value, truncated).(lock := s.lock);
            && Good(prim, m) && ContentKept(prim, s, m) && m == s.(files := m.files) && |m.files| == |s.files|
  {
    var b := pr.batch.value;
    if truncated {
      assert s.GenAt(s.Current()) == s.live;
      LiveWrite(prim, s, pr.maps.cur.value.file, Truncate(FileOf(s, pr.maps), b.committedEnd), b.committedEnd);
    }
  }

  lemma AbortShared(prim: Prim, p: nat, s: Shared, pr: Proc, truncated: bool)
    requires Good(prim, s) && pr.Running? && ProcOk(prim, s, p, pr) && pr.batch.Some?
    ensures var s' := Abort(s, pr.maps, pr.batch.value, truncated);
            && Good(prim, s') && ContentKept(prim, s, s') && s'.past == s.past && s'.live == s.live
            && (forall q :: q != p ==> Rely(q, s, s')) && Rely(p, s.(lock := Free), s')
  {
    var s' := Abort(s, pr.maps, pr.batch.value, truncated);
    var m := s'.(lock := s.lock);
    AbortCuts(prim, p, s, pr, truncated);
    Relock(prim, m, Free, p);
    assert forall k :: 0 <= k <= s.Current() ==> m.GenAt(k) == s.GenAt(k) && s'.GenAt(k) == s.GenAt(k);
    KeptTransitive(prim, s, m, s');
    forall q | q != p ensures Rely(q, s, s') {}
  }

  lemma AbortOk(prim: Prim, p: nat, s: Shared, pr: Proc, truncated: bool)
    requires Good(prim, s) && pr.Running? && ProcOk(prim, s, p, pr) && pr.batch.Some?
    ensures StepOk(prim, p, s, Abort(s, pr.maps, pr.batch.value, truncated), pr.(batch := None))
  {
    var s' := Abort(s, pr.maps, pr.batch.value, truncated);
    AbortShared(prim, p, s, pr, truncated);
    ReaderWrite(prim, p, s, s', pr.reader);
    MapsStable(s.(lock := Free), s', p, pr.maps);
  }

  lemma MetaOk(prim: Prim, p: nat, s: Shared, pr: Proc, meta: map<Bytes, Bytes>)
    requires Good(prim, s) && pr.Running? && ProcOk(prim, s, p, pr) && !s.InTxn()
    ensures StepOk(prim, p, s, s.(meta := meta), pr)
  {
    var s' := s.(meta := meta);
    forall k | 0 <= k <= s.Current() ensures s'.GenAt(k) == s.GenAt(k) && GenOk(prim, s'.files, s'.GenAt(k)) {
      assert GenOk(prim, s.files, s.GenAt(k));
    }
    forall q ensures Rely(q, s, s') {}
    ProcStable(prim, s, s', p, pr);
  }

  lemma BatchMetaOk(prim: Prim, p: nat, s: Shared, pr: Proc, meta: map<Bytes, Bytes>)
    requires Good(prim, s) && pr.Running? && ProcOk(prim, s, p, pr) && pr.batch.Some?
    ensures StepOk(prim, p, s, s, pr.(batch := Some(pr.batch.value.(meta := meta))))
  {
    forall q | q != p ensures Rely(q, s, s) {}
    assert BatchOk(prim, s, pr.maps, pr.batch.value.(meta := meta));
  }

  // ---------------------------------------------------------------- compaction

  /** A file that is no generation's pack can be rewritten, and given the next generation's name. */
  lemma StrayFile(prim: Prim, s: Shared, f: nat, content: Bytes)
    requires Good(prim, s) && f < |s.files|
    requires forall k :: 0 <= k <= s.Current() ==> s.GenAt(k).file != Some(f)
    ensures var s' := s.(files := s.files[f := content]);
            Good(prim, s') && ContentKept(prim, s, s') && forall q :: Rely(q, s, s')
  {
    var s' := s.(files := s.files[f := content]);
    forall k | 0 <= k <= s.Current() ensures s'.GenAt(k) == s.GenAt(k) && GenOk(prim, s'.files, s'.GenAt(k)) {
      assert GenOk(prim, s.files, s.GenAt(k));
    }
    assert s.live.file.Some? && s.live.file.value < |s.files| ==>
        s'.files[s.live.file.value] == s.files[s.live.file.value] by { assert s.GenAt(s.Current()) == s.live; }
    forall q ensures Rely(q, s, s') {}
  }

  lemma NewStray(prim: Prim, s: Shared)
    requires Good(prim, s) && s.Current() + 1 !in s.names
    ensures var s' := CreatePack(s, s.Current() + 1);
            Good(prim, s') && ContentKept(prim, s, s') && forall q :: Rely(q, s, s')
  {
    var s' := CreatePack(s, s.Current() + 1);
    forall k | 0 <= k <= s.Current() ensures s'.GenAt(k) == s.GenAt(k) && GenOk(prim, s'.files, s'.GenAt(k)) {
      assert GenOk(prim, s.files, s.GenAt(k));
    }
    forall q ensures Rely(q, s, s') {}
  }

  lemma PrepareNextOk(prim: Prim, s: Shared)
    requires Good(prim, s)
    ensures var s' := PrepareNext(s);
            && Good(prim, s') && ContentKept(prim, s, s') && (forall q :: Rely(q, s, s'))
            && s'.past == s.past && s'.live == s.live && s'.lock == s.lock && s'.meta == s.meta
            && s'.Current() + 1 in s'.names && s'.names[s'.Current() + 1] < |s'.files|
            && s'.files[s'.names[s'.Current() + 1]] == []
            && |s.files| <= |s'.files|
  {
    var next := s.Current() + 1;
    assert s.GenAt(s.Current()) == s.live && GenOk(prim, s.files, s.live);
    if next in s.names {
      StrayFile(prim, s, s.names[next], []);
    } else {
      NewStray(prim, s);
    }
  }

  lemma ThenRely(prim: Prim, s: Shared, m: Shared, s': Shared)
    requires ContentKept(prim, s, m) && ContentKept(prim, m, s')
    requires forall q :: Rely(q, s, m)
    requires forall q :: Rely(q, m, s')
    ensures ContentKept(prim, s, s')
    ensures forall q :: Rely(q, s, s')
  {
    assert Rely(0, s, m);
    KeptTransitive(prim, s, m, s');
    forall q ensures Rely(q, s, s') { RelyTransitive(q, s, m, s'); }
  }

  lemma StartCompactOk(prim: Prim, p: nat, s: Shared, pr: Proc)
    requires Good(prim, s) && pr.Running? && ProcOk(prim, s, p, pr)
    requires pr.batch.None? && pr.phase == Settled && s.lock == Free
    ensures var (s', maps, f) := CompactStart(p, s, pr.maps);
            StepOk(prim, p, s, s', pr.(maps := maps, phase := Copying(f)))
  {
    AcquireOk(prim, p, s, pr.maps);
    var (s1, maps, m) := MappingFor(s, pr.maps, s.Current(), true);
    var a := s1.(lock := Held(p, true));
    var (s', _, f) := CompactStart(p, s, pr.maps);
    PrepareNextOk(prim, a);
    assert s' == PrepareNext(a);
    ThenRely(prim, s, a, s');
    ReaderStable(prim, s, s', p, pr.reader);
    assert MapsOk(s', maps);
  }

  lemma CopyChunkOk(prim: Prim, p: nat, s: Shared, pr: Proc, some: Bytes)
    requires Good(prim, s) && pr.Running? && ProcOk(prim, s, p, pr) && pr.phase.Copying?
    ensures StepOk(prim, p, s, s.(files := s.files[pr.phase.file := s.files[pr.phase.file] + some]), pr)
  {
    var content := s.files[pr.phase.file] + some;
    StrayFile(prim, s, pr.phase.file, content);
    ProcStable(prim, s, s.(files := s.files[pr.phase.file := content]), p, pr);
  }

  lemma SurvivorsDistinct(entries: map<Id, Entry>, live: set<Id>)
    ensures Distinct(Survivors(entries, live))
  {
    var keys := Survivors(entries, live);
    forall i, j | 0 <= i < j < |keys| ensures keys[i] != keys[j] { LessIrreflexive(keys[i]); }
  }

  /** The generation a compaction commits is in order, and reads like the part of the old one it keeps. */
  lemma NewGenOk(prim: Prim, files: seq<Bytes>, g: Gen, newFile: nat, live: set<Id>)
    requires GenOk(prim, files, g) && newFile < |files| && g.file.Some?
    ensures InBounds(files[g.file.value], g.entries, Survivors(g.entries, live))
    ensures var keys := Survivors(g.entries, live);
            var was := files[g.file.value];
            var g' := Gen(Some(newFile), Moved(g.entries, keys));
            && GenOk(prim, files[newFile := Packed(was, g.entries, keys)], g')
            && g'.entries.Keys == g.entries.Keys * live
            && (forall h :: h in g'.entries ==>
                  ReadEntry(prim, Packed(was, g.entries, keys), g'.entries[h]) == ReadEntry(prim, was, g.entries[h]))
            && |Packed(was, g.entries, keys)| <= |was|
  {
    var keys := Survivors(g.entries, live);
    var was := files[g.file.value];
    SurvivorsDistinct(g.entries, live);
    assert InBounds(was, g.entries, keys) by {
      forall k | k in keys ensures g.entries[k].off + g.entries[k].len <= |was| {
        assert Covered(prim, was, g.entries[k], k);
      }
    }
    MovedTiles(was, g.entries, keys);
    PackedNoLarger(was, g.entries, keys);
    var g' := Gen(Some(newFile), Moved(g.entries, keys));
    forall h | h in g'.entries
      ensures ReadEntry(prim, Packed(was, g.entries, keys), g'.entries[h]) == ReadEntry(prim, was, g.entries[h])
      ensures Covered(prim, Packed(was, g.entries, keys), g'.entries[h], h)
    {
      assert h in keys;
      MovedReads(prim, was, g.entries, keys, h);
      assert Covered(prim, was, g.entries[h], h);
    }
  }

  lemma SwitchOk(prim: Prim, p: nat, s: Shared, pr: Proc, live: set<Id>)
    requires Good(prim, s) && pr.Running? && ProcOk(prim, s, p, pr) && pr.phase.Copying?
    ensures InBounds(FileOf(s, pr.maps), s.live.entries, Survivors(s.live.entries, live))
    ensures var s' := CompactCommit(p, s, FileOf(s, pr.maps), pr.phase.file, Survivors(s.live.entries, live));
            StepOk(prim, p, s, s', pr.(phase := Switched))
  {
    var f := pr.phase.file;
    var keys := Survivors(s.live.entries, live);
    assert s.GenAt(s.Current()) == s.live && GenOk(prim, s.files, s.live);
    NewGenOk(prim, s.files, s.live, f, live);
    var packed := Packed(FileOf(s, pr.maps), s.live.entries, keys);
    StrayFile(prim, s, f, packed);
    var a := s.(files := s.files[f := packed]);
    var s' := CompactCommit(p, s, FileOf(s, pr.maps), f, keys);
    forall k | 0 <= k <= s.Current() ensures s'.GenAt(k) == a.GenAt(k) && GenOk(prim, s'.files, s'.GenAt(k)) {
      assert GenOk(prim, a.files, a.GenAt(k));
    }
    assert GenOk(prim, s'.files, s'.GenAt(s'.Current()));
    assert s'.Current() == s.Current() + 1;
    assert FilesDistinct(s');
    assert NamesOk(s');
    forall q | q != p ensures Rely(q, s, s') {}
    assert ContentKept(prim, s, s');
    ReaderGrow(prim, s, s', pr.reader);
  }

  lemma ReaderGrow(prim: Prim, s: Shared, s': Shared, r: Reader)
    requires ReaderOk(prim, s, r) && ContentKept(prim, s, s') && s.Current() <= s'.Current()
    requires forall k :: 0 <= k <= s.Current() ==> s'.GenAt(k) == s.GenAt(k)
    ensures ReaderOk(prim, s', r)
  {
  }

  /** Dropping a name that is not the live pack's. */
  lemma UnlinkOk(prim: Prim, s: Shared, gone: nat)
    requires Good(prim, s) && gone != s.Current()
    ensures var s' := s.(names := s.names - {gone});
            && Good(prim, s') && ContentKept(prim, s, s')
            && forall q :: !(gone == s.Current() + 1 && s.lock.Held? && s.lock.pid == q) ==> Rely(q, s, s')
  {
    var s' := s.(names := s.names - {gone});
    forall k | 0 <= k <= s.Current() ensures s'.GenAt(k) == s.GenAt(k) && GenOk(prim, s'.files, s'.GenAt(k)) {
      assert GenOk(prim, s.files, s.GenAt(k));
    }
  }

  lemma FailCompactOk(prim: Prim, p: nat, s: Shared, pr: Proc)
    requires Good(prim, s) && pr.Running? && ProcOk(prim, s, p, pr) && pr.phase.Copying?
    ensures StepOk(prim, p, s, s.(names := s.names - {s.Current() + 1}, lock := Free), pr.(phase := Settled))
  {
    UnlinkOk(prim, s, s.Current() + 1);
    var a := s.(names := s.names - {s.Current() + 1});
    var s' := a.(lock := Free);
    Relock(prim, a, Free, p);
    KeptTransitive(prim, s, a, s');
    forall q | q != p ensures Rely(q, s, s') {
      Relock(prim, a, Free, q);
      RelyTransitive(q, s, a, s');
    }
    ReaderWrite(prim, p, s, s', pr.reader);
    assert MapsOk(s', pr.maps);
  }

  lemma UnlinkOldOk(prim: Prim, p: nat, s: Shared, pr: Proc)
    requires Good(prim, s) && pr.Running? && ProcOk(prim, s, p, pr) && pr.phase == Switched
    ensures StepOk(prim, p, s, s.(names := s.names - {s.Current() - 1}), pr.(phase := Unlinked))
  {
    UnlinkOk(prim, s, s.Current() - 1);
    var s' := s.(names := s.names - {s.Current() - 1});
    ProcStable(prim, s, s', p, pr);
  }

  lemma EndCompactOk(prim: Prim, p: nat, s: Shared, pr: Proc)
    requires Good(prim, s) && pr.Running? && ProcOk(prim, s, p, pr) && pr.phase == Unlinked
    ensures var (s', maps, _) := MappingFor(s, pr.maps, s.Current(), true);
            StepOk(prim, p, s, s'.(lock := Free), pr.(maps := maps, phase := Settled))
  {
    MappingForOk(prim, p, s, pr.maps, s.Current(), true);
    var (a, maps, _) := MappingFor(s, pr.maps, s.Current(), true);
    assert a == s;
    var s' := a.(lock := Free);
    forall q | q != p ensures Rely(q, s, s') { Relock(prim, a, Free, q); }
    Relock(prim, a, Free, p);
    ReaderWrite(prim, p, s, s', pr.reader);
    assert MapsOk(s', maps);
  }

  // ---------------------------------------------------------------- the reader thread

  lemma LookupOk(prim: Prim, p: nat, s: Shared, pr: Proc, h: Id, attempt: nat, first: nat)
    requires Good(prim, s) && pr.Running? && ProcOk(prim, s, p, pr)
    requires attempt < MAX_GENERATION_RETRIES && first + attempt <= s.Current()
    ensures StepOk(prim, p, s, s, pr.(reader := LookUp(prim, s, h, attempt, first)))
  {
    assert s.GenAt(s.Current()) == s.live && GenOk(prim, s.files, s.live);
    if h in s.live.entries { assert Covered(prim, s.files[s.live.file.value], s.live.entries[h], h); }
    forall q ensures Rely(q, s, s) {}
  }

  /** What a reader remembers after mapping. */
  lemma MapRemembers(prim: Prim, p: nat, s: Shared, pr: Proc)
    requires Good(prim, s) && pr.Running? && ProcOk(prim, s, p, pr) && pr.reader.Looked?
    requires !StaleCreate(s, pr.maps, pr.reader.gen, pr.batch.Some?)
    ensures ReaderStep(prim, s, pr, Map(p)).Some?
    ensures var r := ReaderStep(prim, s, pr, Map(p)).value;
            && r.0 == s && ReaderOk(prim, s, r.1.reader) && r.1 == pr.(maps := r.1.maps, reader := r.1.reader)
            && (!r.1.reader.Located? ==> pr.reader.gen < s.Current())
  {
    MapLeavesStore(prim, p, s, pr);
  }

  lemma MapOk(prim: Prim, p: nat, s: Shared, pr: Proc)
    requires Good(prim, s) && pr.Running? && ProcOk(prim, s, p, pr) && pr.reader.Looked?
    requires !StaleCreate(s, pr.maps, pr.reader.gen, pr.batch.Some?)
    ensures ReaderStep(prim, s, pr, Map(p)).Some?
    ensures var r := ReaderStep(prim, s, pr, Map(p)).value;
            r.0 == s && StepOk(prim, p, s, r.0, r.1)
    ensures var r := ReaderStep(prim, s, pr, Map(p)).value.1.reader;
            !r.Located? ==> pr.reader.gen < s.Current()
  {
    MapRemembers(prim, p, s, pr);
    MapsAfterMap(prim, p, s, pr);
    NothingMoves(prim, s);
  }

  lemma MapsAfterMap(prim: Prim, p: nat, s: Shared, pr: Proc)
    requires Good(prim, s) && pr.Running? && ProcOk(prim, s, p, pr) && pr.reader.Looked?
    requires !StaleCreate(s, pr.maps, pr.reader.gen, pr.batch.Some?) && ReaderStep(prim, s, pr, Map(p)).Some?
    ensures var maps := ReaderStep(prim, s, pr, Map(p)).value.1.maps;
            ProcOk(prim, s, p, pr.(maps := maps))
  {
    MapLeavesStore(prim, p, s, pr);
  }

  lemma NothingMoves(prim: Prim, s: Shared)
    requires Good(prim, s)
    ensures ContentKept(prim, s, s) && forall q :: Rely(q, s, s)
  {
    forall k | 0 <= k <= s.Current() && s.GenAt(k).file.Some? ensures s.GenAt(k).file.value < |s.files| {
      assert GenOk(prim, s.files, s.GenAt(k));
    }
  }

  lemma MapLeavesStore(prim: Prim, p: nat, s: Shared, pr: Proc)
    requires Good(prim, s) && pr.Running? && ProcOk(prim, s, p, pr) && pr.reader.Looked?
    requires !StaleCreate(s, pr.maps, pr.reader.gen, pr.batch.Some?)
    ensures var (s', maps, m) := MappingFor(s, pr.maps, pr.reader.gen, pr.batch.Some?);
            && s' == s && MapsOk(s, maps)
            && (pr.batch.Some? ==> MapsLive(s, maps) && maps.cur == pr.maps.cur)
            && (m.Some? ==> m.value.gen == pr.reader.gen && MappingOk(s, m.value))
            && (m.None? ==> pr.reader.gen !in s.names)
  {
    MappingForOk(prim, p, s, pr.maps, pr.reader.gen, pr.batch.Some?);
    assert s.GenAt(s.Current()) == s.live;
  }
}
