/** What holds of every run of the pack store, exactly when it stops holding, and what readers and writers get. */
module PackTheorems {
  import opened Basics
  import opened Primitives
  import opened Pack
  import opened PackInvariant
  import opened PackMachine
  import C = Cas

  // ---------------------------------------------------------------- opening

  /**
   * `open_once` read generation `gen` before it took the flock. A compaction has committed since and the flock is free
   * again, so `cleanup_orphans(gen)` unlinks the live pack.
   */
  predicate StaleClean(s: Shared, gen: nat) {
    gen < s.Current() && s.lock.Free?
  }

  lemma CleanupOk(prim: Prim, s: Shared)
    requires Good(prim, s) && s.lock.Free?
    ensures var s' := Cleanup(s, s.Current());
            && Good(prim, s') && ContentKept(prim, s, s') && forall q :: Rely(q, s, s')
  {
    var s' := Cleanup(s, s.Current());
    forall k | 0 <= k <= s.Current() ensures s'.GenAt(k) == s.GenAt(k) && GenOk(prim, s'.files, s'.GenAt(k)) {
      assert GenOk(prim, s.files, s.GenAt(k));
    }
  }

  lemma CleanOpenOk(prim: Prim, p: nat, s: Shared, gen: nat)
    requires Good(prim, s) && gen <= s.Current() && !StaleClean(s, gen)
    ensures var s' := CleanOpen(s, gen);
            StepOk(prim, p, s, s', Opening(gen, true)) && s'.lock == s.lock && s'.past == s.past
            && s'.live == s.live && s'.meta == s.meta
            && (s.lock.Free? ==> forall k :: k in s'.names <==> k in s.names && k == s.Current())
  {
    if s.lock.Free? {
      assert gen == s.Current();
      CleanupOk(prim, s);
    } else {
      forall q ensures Rely(q, s, s) {}
    }
  }

  lemma MapOpenOk(prim: Prim, p: nat, s: Shared, gen: nat)
    requires Good(prim, s) && gen <= s.Current() && !StaleCreate(s, NoMaps, gen, true)
    ensures var (s', pr) := MapOpen(s, gen);
            StepOk(prim, p, s, s', pr) && s'.lock == s.lock && s'.past == s.past
            && s'.live.entries == s.live.entries && s'.meta == s.meta
  {
    MappingForOk(prim, p, s, NoMaps, gen, true);
    forall q ensures Rely(q, s, MapOpen(s, gen).0) { MappingForRely(prim, q, s, NoMaps, gen, true); }
  }

  /** A stale cleanup breaks the store: the live pack loses its name. */
  lemma StaleCleanBreaks(prim: Prim, s: Shared, gen: nat)
    requires Good(prim, s) && StaleClean(s, gen)
    ensures !Good(prim, CleanOpen(s, gen))
  {
    assert s.Current() !in CleanOpen(s, gen).names;
  }

  /** So does mapping a generation that is over and whose name is gone: a dead name gets a new file. */
  lemma StaleCreateBreaks(prim: Prim, s: Shared, maps: Maps, gen: nat)
    requires Good(prim, s) && StaleCreate(s, maps, gen, true)
    ensures !Good(prim, MappingFor(s, maps, gen, true).0)
  {
    var s' := MappingFor(s, maps, gen, true).0;
    assert s'.names[gen] == |s.files|;
    assert GenOk(prim, s.files, s.GenAt(gen));
    assert s'.GenAt(gen) == s.GenAt(gen);
  }

  // ---------------------------------------------------------------- every step

  /** The three steps that can break the store, each by the guard of the branch that does it. */
  predicate Stale(w: World, a: Action) {
    match a
    case OpenClean(p) => p in w.procs && w.procs[p].Opening? && StaleClean(w.s, w.procs[p].gen)
    case OpenMap(p) => p in w.procs && w.procs[p].Opening? && StaleCreate(w.s, NoMaps, w.procs[p].gen, true)
    case Map(p) =>
      p in w.procs && w.procs[p].Running? && w.procs[p].reader.Looked? &&
      StaleCreate(w.s, w.procs[p].maps, w.procs[p].reader.gen, w.procs[p].batch.Some?)
    case _ => false
  }

  predicate BatchAction(a: Action) {
    a.BeginBatch? || a.PutBlob? || a.TornWrite? || a.SetMeta? || a.DelMeta? || a.CommitBatch? || a.AbortBatch?
  }

  lemma BatchStepOk(prim: Prim, p: nat, s: Shared, pr: Proc, a: Action)
    requires Sound(prim) && Good(prim, s) && pr.Running? && ProcOk(prim, s, p, pr)
    requires a.p == p && BatchAction(a) && !a.SetMeta? && !a.DelMeta? && WriterStep(prim, s, pr, a).Some?
    ensures var (s', pr') := WriterStep(prim, s, pr, a).value;
            StepOk(prim, p, s, s', pr')
  {
    match a
    case BeginBatch(_) => BeginOk(prim, p, s, pr);
    case PutBlob(_, data) => PutOk(prim, p, s, pr, data);
    case TornWrite(_, some) => TornOk(prim, p, s, pr, some);
    case CommitBatch(_) => CommitOk(prim, p, s, pr);
    case AbortBatch(_, truncated) => AbortOk(prim, p, s, pr, truncated);
  }

  lemma MetaStepOk(prim: Prim, p: nat, s: Shared, pr: Proc, a: Action)
    requires Sound(prim) && Good(prim, s) && pr.Running? && ProcOk(prim, s, p, pr)
    requires a.p == p && (a.SetMeta? || a.DelMeta?) && WriterStep(prim, s, pr, a).Some?
    ensures var (s', pr') := WriterStep(prim, s, pr, a).value;
            StepOk(prim, p, s, s', pr')
  {
    var was := if pr.batch.Some? then pr.batch.value.meta else s.meta;
    var meta := if a.SetMeta? then was[a.key := a.val] else was - {a.key};
    if pr.batch.Some? { BatchMetaOk(prim, p, s, pr, meta); } else { MetaOk(prim, p, s, pr, meta); }
  }

  lemma CompactStepOk(prim: Prim, p: nat, s: Shared, pr: Proc, a: Action)
    requires Sound(prim) && Good(prim, s) && pr.Running? && ProcOk(prim, s, p, pr)
    requires a.p == p && !BatchAction(a) && WriterStep(prim, s, pr, a).Some?
    ensures var (s', pr') := WriterStep(prim, s, pr, a).value;
            StepOk(prim, p, s, s', pr')
  {
    match a
    case StartCompact(_) => StartCompactOk(prim, p, s, pr);
    case CopyChunk(_, some) => CopyChunkOk(prim, p, s, pr, some);
    case SwitchIndex(_, live) => SwitchOk(prim, p, s, pr, live);
    case FailCompact(_) => FailCompactOk(prim, p, s, pr);
    case UnlinkOld(_) => UnlinkOldOk(prim, p, s, pr);
    case EndCompact(_) => EndCompactOk(prim, p, s, pr);
  }

  lemma WriterStepOk(prim: Prim, p: nat, s: Shared, pr: Proc, a: Action)
    requires Sound(prim) && Good(prim, s) && pr.Running? && ProcOk(prim, s, p, pr)
    requires a.p == p && WriterStep(prim, s, pr, a).Some?
    ensures var (s', pr') := WriterStep(prim, s, pr, a).value;
            StepOk(prim, p, s, s', pr')
  {
    if a.SetMeta? || a.DelMeta? { MetaStepOk(prim, p, s, pr, a); }
    else if BatchAction(a) { BatchStepOk(prim, p, s, pr, a); }
    else { CompactStepOk(prim, p, s, pr, a); }
  }

  lemma ReaderStepOk(prim: Prim, p: nat, s: Shared, pr: Proc, a: Action)
    requires Good(prim, s) && pr.Running? && ProcOk(prim, s, p, pr)
    requires a.p == p && ReaderStep(prim, s, pr, a).Some?
    requires a.Map? ==> !StaleCreate(s, pr.maps, pr.reader.gen, pr.batch.Some?)
    ensures var (s', pr') := ReaderStep(prim, s, pr, a).value;
            s' == s && StepOk(prim, p, s, s', pr')
  {
    match a
    case Lookup(_, h) =>
      if pr.reader.Quiet? { LookupOk(prim, p, s, pr, h, 0, s.Current()); }
      else { LookupOk(prim, p, s, pr, h, pr.reader.attempt, pr.reader.first); }
    case Map(_) => MapOk(prim, p, s, pr);
    case Return(_) => forall q ensures Rely(q, s, s) {}
  }

  /** A step of `p` that is fine for the shared state and for `p` is fine for the world. */
  lemma LiftStep(prim: Prim, w: World, p: nat, s': Shared, pr': Proc)
    requires Inv(prim, w) && StepOk(prim, p, w.s, s', pr')
    requires LockOwned(World(s', w.procs[p := pr']))
    ensures Inv(prim, World(s', w.procs[p := pr']))
  {
    var w' := World(s', w.procs[p := pr']);
    forall q | q in w'.procs ensures ProcOk(prim, s', q, w'.procs[q]) {
      if q != p {
        assert Rely(q, w.s, s');
        ProcStable(prim, w.s, s', q, w.procs[q]);
      }
    }
  }

  lemma CrashOk(prim: Prim, w: World, p: nat)
    requires Inv(prim, w) && p in w.procs
    ensures var w' := Step(prim, w, Crash(p)).value;
            Inv(prim, w') && ContentKept(prim, w.s, w'.s)
  {
    var w' := Step(prim, w, Crash(p)).value;
    forall q | q in w'.procs ensures ProcOk(prim, w'.s, q, w'.procs[q]) {
      Relock(prim, w.s, Free, q);
      if w'.s != w.s { ProcStable(prim, w.s, w'.s, q, w.procs[q]); }
    }
    Relock(prim, w.s, Free, p);
  }

  /** Both steps of an opening, when they are not stale. */
  lemma OpeningStepOk(prim: Prim, w: World, a: Action)
    requires Inv(prim, w) && Step(prim, w, a).Some? && !Stale(w, a)
    requires (a.OpenClean? || a.OpenMap?) && a.p in w.procs && w.procs[a.p].Opening?
    ensures var w' := Step(prim, w, a).value;
            && StepOk(prim, a.p, w.s, w'.s, w'.procs[a.p]) && w' == World(w'.s, w.procs[a.p := w'.procs[a.p]])
            && w'.s.lock == w.s.lock && w'.s.past == w.s.past
            && w'.s.live.entries == w.s.live.entries && w'.s.meta == w.s.meta
  {
    assert ProcOk(prim, w.s, a.p, w.procs[a.p]);
    if a.OpenClean? {
      CleanOpenOk(prim, a.p, w.s, w.procs[a.p].gen);
    } else {
      MapOpenOk(prim, a.p, w.s, w.procs[a.p].gen);
    }
  }

  lemma GoodStep(prim: Prim, w: World, a: Action)
    requires Sound(prim) && Inv(prim, w) && Step(prim, w, a).Some? && !Stale(w, a)
    ensures Inv(prim, Step(prim, w, a).value)
    ensures ContentKept(prim, w.s, Step(prim, w, a).value.s)
  {
    var w' := Step(prim, w, a).value;
    var p := a.p;
    if a.OpenRead? {
      forall q ensures Rely(q, w.s, w.s) {}
      LiftStep(prim, w, p, w.s, Opening(w.s.Current(), false));
    } else if a.Crash? {
      CrashOk(prim, w, p);
    } else if w.procs[p].Opening? {
      OpeningStepOk(prim, w, a);
      LiftStep(prim, w, p, w'.s, w'.procs[p]);
    } else if a.Lookup? || a.Map? || a.Return? {
      GoodReaderStep(prim, w, a);
    } else {
      GoodWriterStep(prim, w, a);
    }
  }

  lemma GoodReaderStep(prim: Prim, w: World, a: Action)
    requires Inv(prim, w) && a.p in w.procs && w.procs[a.p].Running? && !Stale(w, a)
    requires (a.Lookup? || a.Map? || a.Return?) && ReaderStep(prim, w.s, w.procs[a.p], a).Some?
    ensures var (s', pr') := ReaderStep(prim, w.s, w.procs[a.p], a).value;
            Inv(prim, World(s', w.procs[a.p := pr'])) && ContentKept(prim, w.s, s')
  {
    ReaderStepOk(prim, a.p, w.s, w.procs[a.p], a);
    var (s', pr') := ReaderStep(prim, w.s, w.procs[a.p], a).value;
    LiftStep(prim, w, a.p, s', pr');
  }

  lemma GoodWriterStep(prim: Prim, w: World, a: Action)
    requires Sound(prim) && Inv(prim, w) && a.p in w.procs && w.procs[a.p].Running?
    requires WriterStep(prim, w.s, w.procs[a.p], a).Some?
    ensures var (s', pr') := WriterStep(prim, w.s, w.procs[a.p], a).value;
            Inv(prim, World(s', w.procs[a.p := pr'])) && ContentKept(prim, w.s, s')
  {
    WriterStepOk(prim, a.p, w.s, w.procs[a.p], a);
    WriterLock(prim, w, a);
    var (s', pr') := WriterStep(prim, w.s, w.procs[a.p], a).value;
    LiftStep(prim, w, a.p, s', pr');
  }

  /** After a writer step the flock is free, or held by someone who is using it. */
  lemma WriterLock(prim: Prim, w: World, a: Action)
    requires Inv(prim, w) && a.p in w.procs && w.procs[a.p].Running?
    requires WriterStep(prim, w.s, w.procs[a.p], a).Some?
    ensures var (s', pr') := WriterStep(prim, w.s, w.procs[a.p], a).value;
            LockOwned(World(s', w.procs[a.p := pr']))
  {
    var pr := w.procs[a.p];
    if a.EndCompact? { MappingForOk(prim, a.p, w.s, pr.maps, w.s.Current(), true); }
  }

  /**
   * The invariant of the pack store. In every reachable world it survives a step exactly when the step is not stale:
   * every entry of generation g lies in pack g, no two overlap, each reads as bytes whose hash is its key, and every
   * process maps each generation to that generation's own pack.
   */
  lemma StepKeepsInvariant(prim: Prim, w: World, a: Action)
    requires Sound(prim) && Inv(prim, w) && Step(prim, w, a).Some?
    ensures Inv(prim, Step(prim, w, a).value) <==> !Stale(w, a)
  {
    if !Stale(w, a) {
      GoodStep(prim, w, a);
    } else if a.OpenClean? {
      StaleCleanBreaks(prim, w.s, w.procs[a.p].gen);
    } else if a.OpenMap? {
      StaleCreateBreaks(prim, w.s, NoMaps, w.procs[a.p].gen);
    } else {
      StaleCreateBreaks(prim, w.s, w.procs[a.p].maps, w.procs[a.p].reader.gen);
    }
  }

  /** What a process may rely on between two of its own steps, whatever the others do: the contract of `PackCas.Others`. */
  lemma OthersGuarantee(prim: Prim, w: World, a: Action, me: nat)
    requires Sound(prim) && Inv(prim, w) && Step(prim, w, a).Some? && !Stale(w, a) && a.p != me
    ensures Rely(me, w.s, Step(prim, w, a).value.s)
    ensures ContentKept(prim, w.s, Step(prim, w, a).value.s)
  {
    GoodStep(prim, w, a);
    if a.Crash? {
      Relock(prim, w.s, Free, me);
    } else if a.OpenClean? || a.OpenMap? {
      OpeningStepOk(prim, w, a);
    } else if a.Lookup? || a.Map? || a.Return? {
      ReaderStepOk(prim, a.p, w.s, w.procs[a.p], a);
    } else if !a.OpenRead? {
      WriterStepOk(prim, a.p, w.s, w.procs[a.p], a);
    }
  }

  // ---------------------------------------------------------------- refinement

  ghost function Value(prim: Prim, file: Bytes, e: Entry): Bytes {
    var r := ReadEntry(prim, file, e);
    if r.Ok? then r.value else []
  }

  function LiveFile(s: Shared): Bytes {
    if s.live.file.Some? && s.live.file.value < |s.files| then s.files[s.live.file.value] else []
  }

  /** The committed objects: every key of the index with the bytes it reads as. */
  ghost function Contents(prim: Prim, s: Shared): map<Id, Bytes> {
    map h | h in s.live.entries :: Value(prim, LiveFile(s), s.live.entries[h])
  }

  ghost function BatchContents(prim: Prim, file: Bytes, b: Batch): map<Id, Bytes> {
    map h | h in b.entries :: Value(prim, file, b.entries[h])
  }

  ghost function PendingOf(prim: Prim, s: Shared, pr: Proc): Option<C.Db> {
    if pr.Running? && pr.batch.Some?
    then Some(C.Db(BatchContents(prim, FileOf(s, pr.maps), pr.batch.value), pr.batch.value.meta))
    else None
  }

  ghost function Pending(prim: Prim, w: World): Option<C.Db> {
    if w.s.lock.Held? && w.s.lock.pid in w.procs then PendingOf(prim, w.s, w.procs[w.s.lock.pid]) else None
  }

  /** The store as a table of objects and records, with the batch of whoever holds the flock. */
  ghost function Abs(prim: Prim, w: World): C.Cas {
    C.Cas(C.Db(Contents(prim, w.s), w.s.meta), Pending(prim, w))
  }

  /** What each step means for that table; the steps not listed mean nothing. */
  ghost function Meaning(prim: Prim, c: C.Cas, a: Action, ownsBatch: bool): C.Cas {
    match a
    case BeginBatch(_) => c.Begin()
    case PutBlob(_, data) => c.Put(prim.hash(data), data)
    case SetMeta(_, key, val) => c.MetaPut(key, val)
    case DelMeta(_, key) => c.MetaDel(key)
    case CommitBatch(_) => c.Sync()
    case AbortBatch(_, _) => c.Drop()
    case SwitchIndex(_, live) => c.Compact(live)
    case Crash(_) => if ownsBatch then c.Drop() else c
    case _ => c
  }

  lemma SameContents(prim: Prim, s: Shared, s': Shared)
    requires Good(prim, s) && ContentKept(prim, s, s')
    requires s'.Current() == s.Current() && s'.live.entries == s.live.entries
    ensures Contents(prim, s') == Contents(prim, s)
  {
    assert s.GenAt(s.Current()) == s.live && GenOk(prim, s.files, s.live);
    assert s'.GenAt(s'.Current()) == s'.live;
    forall h | h in s.live.entries
      ensures Value(prim, LiveFile(s'), s'.live.entries[h]) == Value(prim, LiveFile(s), s.live.entries[h])
    {
      assert h in s.GenAt(s.Current()).entries;
    }
  }

  /** While a batch is open, the pack it writes to is still, for all steps but its own. */
  lemma BatchFileStays(prim: Prim, s: Shared, s': Shared, q: nat, pr: Proc)
    requires Good(prim, s) && ProcOk(prim, s, q, pr) && Rely(q, s, s') && pr.Running? && pr.batch.Some?
    ensures FileOf(s', pr.maps) == FileOf(s, pr.maps) && s'.live == s.live && s'.Current() == s.Current()
    ensures |s.files| <= |s'.files|
  {
    assert s.GenAt(s.Current()) == s.live;
    assert s.live.file == Some(pr.maps.cur.value.file);
  }

  /** The batch of another process reads the same after a step that is not its own. */
  lemma OtherPending(prim: Prim, s: Shared, s': Shared, q: nat, pr: Proc)
    requires Good(prim, s) && ProcOk(prim, s, q, pr) && Rely(q, s, s') && pr.Running? && pr.batch.Some?
    ensures PendingOf(prim, s', pr) == PendingOf(prim, s, pr)
  {
    BatchFileStays(prim, s, s', q, pr);
  }

  lemma WriterEntries(prim: Prim, p: nat, s: Shared, pr: Proc, a: Action)
    requires Sound(prim) && Good(prim, s) && pr.Running? && ProcOk(prim, s, p, pr)
    requires a.p == p && WriterStep(prim, s, pr, a).Some? && !a.SwitchIndex? && !a.CommitBatch?
    ensures var (s', _) := WriterStep(prim, s, pr, a).value;
            s'.Current() == s.Current() && s'.live.entries == s.live.entries
  {
    if a.BeginBatch? {
      AcquireOk(prim, p, s, pr.maps);
    } else if a.PutBlob? {
      PutOk(prim, p, s, pr, a.data);
    } else if a.StartCompact? {
      AcquireOk(prim, p, s, pr.maps);
      PrepareNextOk(prim, MappingFor(s, pr.maps, s.Current(), true).0.(lock := Held(p, true)));
    } else if a.EndCompact? {
      MappingForOk(prim, p, s, pr.maps, s.Current(), true);
    }
  }

  lemma WriterContents(prim: Prim, p: nat, s: Shared, pr: Proc, a: Action)
    requires Sound(prim) && Good(prim, s) && pr.Running? && ProcOk(prim, s, p, pr)
    requires a.p == p && WriterStep(prim, s, pr, a).Some? && !a.SwitchIndex? && !a.CommitBatch?
    ensures var (s', _) := WriterStep(prim, s, pr, a).value;
            Contents(prim, s') == Contents(prim, s)
  {
    WriterStepOk(prim, p, s, pr, a);
    WriterEntries(prim, p, s, pr, a);
    SameContents(prim, s, WriterStep(prim, s, pr, a).value.0);
  }

  lemma BeginContents(prim: Prim, p: nat, s: Shared, pr: Proc)
    requires Good(prim, s) && pr.Running? && ProcOk(prim, s, p, pr) && s.lock == Free
    ensures var (s', maps, b) := Begin(p, s, pr.maps);
            BatchContents(prim, FileOf(s', maps), b) == Contents(prim, s)
  {
    AcquireOk(prim, p, s, pr.maps);
    var (s', maps, b) := Begin(p, s, pr.maps);
    SameContents(prim, s, s');
    assert s'.GenAt(s'.Current()) == s'.live && GenOk(prim, s'.files, s'.live);
    assert FileOf(s', maps) == LiveFile(s');
  }

  lemma CommitContents(prim: Prim, p: nat, s: Shared, pr: Proc)
    requires Good(prim, s) && pr.Running? && ProcOk(prim, s, p, pr) && pr.batch.Some?
    ensures Contents(prim, Commit(s, pr.batch.value)) == BatchContents(prim, FileOf(s, pr.maps), pr.batch.value)
  {
    assert s.GenAt(s.Current()) == s.live;
    assert FileOf(s, pr.maps) == LiveFile(Commit(s, pr.batch.value));
  }

  lemma PutContents(prim: Prim, p: nat, s: Shared, pr: Proc, data: Bytes)
    requires Sound(prim) && Good(prim, s) && pr.Running? && ProcOk(prim, s, p, pr) && pr.batch.Some?
    ensures var (s', b) := Put(prim, s, pr.maps, pr.batch.value, data);
            var before := BatchContents(prim, FileOf(s, pr.maps), pr.batch.value);
            BatchContents(prim, FileOf(s', pr.maps), b)
            == if prim.hash(data) in before then before else before[prim.hash(data) := data]
  {
    PutOk(prim, p, s, pr, data);
  }

  lemma TornContents(prim: Prim, p: nat, s: Shared, pr: Proc, some: Bytes)
    requires Good(prim, s) && pr.Running? && ProcOk(prim, s, p, pr) && pr.batch.Some?
    ensures BatchContents(prim, FileOf(TornPut(s, pr.maps, pr.batch.value, some), pr.maps), pr.batch.value)
            == BatchContents(prim, FileOf(s, pr.maps), pr.batch.value)
  {
    WriteOk(prim, p, s, pr.maps, pr.batch.value, some);
  }

  lemma SwitchContents(prim: Prim, p: nat, s: Shared, pr: Proc, live: set<Id>)
    requires Good(prim, s) && pr.Running? && ProcOk(prim, s, p, pr) && pr.phase.Copying?
    ensures InBounds(FileOf(s, pr.maps), s.live.entries, Survivors(s.live.entries, live))
    ensures Contents(prim, CompactCommit(p, s, FileOf(s, pr.maps), pr.phase.file, Survivors(s.live.entries, live)))
            == map h | h in Contents(prim, s) && h in live :: Contents(prim, s)[h]
  {
    SwitchOk(prim, p, s, pr, live);
    assert s.GenAt(s.Current()) == s.live && GenOk(prim, s.files, s.live);
    assert FileOf(s, pr.maps) == LiveFile(s);
    NewGenOk(prim, s.files, s.live, pr.phase.file, live);
    KeptContents(prim, p, s, FileOf(s, pr.maps), pr.phase.file, live);
  }

  lemma KeptContents(prim: Prim, p: nat, s: Shared, file: Bytes, newFile: nat, live: set<Id>)
    requires newFile < |s.files| && file == LiveFile(s)
    requires InBounds(file, s.live.entries, Survivors(s.live.entries, live))
    requires var keys := Survivors(s.live.entries, live);
             var moved := Moved(s.live.entries, keys);
             && moved.Keys == s.live.entries.Keys * live
             && forall h :: h in moved ==>
                  ReadEntry(prim, Packed(file, s.live.entries, keys), moved[h]) == ReadEntry(prim, file, s.live.entries[h])
    ensures Contents(prim, CompactCommit(p, s, file, newFile, Survivors(s.live.entries, live)))
            == map h | h in Contents(prim, s) && h in live :: Contents(prim, s)[h]
  {
    var s' := CompactCommit(p, s, file, newFile, Survivors(s.live.entries, live));
    assert LiveFile(s') == Packed(file, s.live.entries, Survivors(s.live.entries, live));
    assert s'.live.entries == Moved(s.live.entries, Survivors(s.live.entries, live));
    KeptTable(prim, LiveFile(s), s.live.entries, LiveFile(s'), s'.live.entries, live);
  }

  lemma KeptTable(prim: Prim, was: Bytes, old0: map<Id, Entry>, now: Bytes, new0: map<Id, Entry>, live: set<Id>)
    requires new0.Keys == old0.Keys * live
    requires forall h :: h in new0 ==> ReadEntry(prim, now, new0[h]) == ReadEntry(prim, was, old0[h])
    ensures (map h | h in new0 :: Value(prim, now, new0[h]))
            == map h | h in old0 && h in live :: Value(prim, was, old0[h])
  {
  }

  /** Without the flock, or in a compaction, a process has no batch and neither has anyone else. */
  lemma NoPending(prim: Prim, w: World, p: nat)
    requires Inv(prim, w) && p in w.procs && w.procs[p].Running? && w.procs[p].batch.None?
    requires !w.s.InTxn() || w.s.lock.pid == p
    ensures Pending(prim, w).None?
  {
    if w.s.lock.Held? {
      var q := w.s.lock.pid;
      assert q in w.procs && ProcOk(prim, w.s, q, w.procs[q]);
    }
  }

  lemma BatchMeaning(prim: Prim, w: World, a: Action)
    requires Sound(prim) && Inv(prim, w) && a.p in w.procs && w.procs[a.p].Running?
    requires WriterStep(prim, w.s, w.procs[a.p], a).Some?
    requires a.BeginBatch? || a.PutBlob? || a.TornWrite? || a.CommitBatch? || a.AbortBatch?
    ensures var (s', pr') := WriterStep(prim, w.s, w.procs[a.p], a).value;
            Abs(prim, World(s', w.procs[a.p := pr'])) == Meaning(prim, Abs(prim, w), a, false)
  {
    var p, s, pr := a.p, w.s, w.procs[a.p];
    if a.CommitBatch? {
      CommitContents(prim, p, s, pr);
    } else {
      WriterContents(prim, p, s, pr, a);
      if a.BeginBatch? {
        NoPending(prim, w, p);
        BeginContents(prim, p, s, pr);
        AcquireOk(prim, p, s, pr.maps);
      } else if a.PutBlob? {
        PutContents(prim, p, s, pr, a.data);
        PutOk(prim, p, s, pr, a.data);
      } else if a.TornWrite? {
        TornContents(prim, p, s, pr, a.some);
      }
    }
  }

  lemma MetaMeaning(prim: Prim, w: World, a: Action)
    requires Sound(prim) && Inv(prim, w) && a.p in w.procs && w.procs[a.p].Running?
    requires WriterStep(prim, w.s, w.procs[a.p], a).Some?
    requires a.SetMeta? || a.DelMeta?
    ensures var (s', pr') := WriterStep(prim, w.s, w.procs[a.p], a).value;
            Abs(prim, World(s', w.procs[a.p := pr'])) == Meaning(prim, Abs(prim, w), a, false)
  {
    var p, s, pr := a.p, w.s, w.procs[a.p];
    WriterContents(prim, p, s, pr, a);
    if pr.batch.None? {
      NoPending(prim, w, p);
      assert s.lock.Held? ==> !s.lock.inTxn;
      var (s', pr') := WriterStep(prim, s, pr, a).value;
      MetaOk(prim, p, s, pr, s'.meta);
      var w' := World(s', w.procs[p := pr']);
      LiftStep(prim, w, p, s', pr');
      NoPending(prim, w', p);
    }
  }

  lemma CompactMeaning(prim: Prim, w: World, a: Action)
    requires Sound(prim) && Inv(prim, w) && a.p in w.procs && w.procs[a.p].Running?
    requires WriterStep(prim, w.s, w.procs[a.p], a).Some?
    requires a.StartCompact? || a.CopyChunk? || a.SwitchIndex? || a.FailCompact? || a.UnlinkOld? || a.EndCompact?
    ensures var (s', pr') := WriterStep(prim, w.s, w.procs[a.p], a).value;
            Abs(prim, World(s', w.procs[a.p := pr'])) == Meaning(prim, Abs(prim, w), a, false)
  {
    var p, s, pr := a.p, w.s, w.procs[a.p];
    var (s', pr') := WriterStep(prim, s, pr, a).value;
    NoPending(prim, w, p);
    if a.SwitchIndex? {
      SwitchContents(prim, p, s, pr, a.live);
    } else {
      WriterContents(prim, p, s, pr, a);
      if a.StartCompact? {
        AcquireOk(prim, p, s, pr.maps);
        PrepareNextOk(prim, MappingFor(s, pr.maps, s.Current(), true).0.(lock := Held(p, true)));
      } else if a.EndCompact? {
        MappingForOk(prim, p, s, pr.maps, s.Current(), true);
      }
    }
    WriterStepOk(prim, p, s, pr, a);
    WriterLock(prim, w, a);
    LiftStep(prim, w, p, s', pr');
    NoPending(prim, World(s', w.procs[p := pr']), p);
  }

  /**
   * Refinement: seen through `Abs`, every step of every process is the step of a plain table of objects and records
   * that `Meaning` names, and the batch is the table's only hidden state.
   */
  lemma Refines(prim: Prim, w: World, a: Action)
    requires Sound(prim) && Inv(prim, w) && Step(prim, w, a).Some? && !Stale(w, a)
    ensures Abs(prim, Step(prim, w, a).value)
            == Meaning(prim, Abs(prim, w), a, w.s.lock.Held? && w.s.lock.pid == a.p)
  {
    GoodStep(prim, w, a);
    if a.Crash? {
      SameContents(prim, w.s, Step(prim, w, a).value.s);
      CrashPending(prim, w, a.p);
    } else if a.OpenClean? || a.OpenMap? {
      OpeningRefines(prim, w, a);
    } else if a.Lookup? || a.Map? || a.Return? {
      ReaderStepOk(prim, a.p, w.s, w.procs[a.p], a);
      ReaderPending(prim, w, a);
    } else if !a.OpenRead? {
      WriterRefines(prim, w, a);
    }
  }

  lemma WriterRefines(prim: Prim, w: World, a: Action)
    requires Sound(prim) && Inv(prim, w) && Step(prim, w, a).Some?
    requires a.p in w.procs && w.procs[a.p].Running? && WriterStep(prim, w.s, w.procs[a.p], a).Some?
    requires !a.Crash? && !(a.Lookup? || a.Map? || a.Return?)
    ensures Abs(prim, Step(prim, w, a).value)
            == Meaning(prim, Abs(prim, w), a, w.s.lock.Held? && w.s.lock.pid == a.p)
  {
    if a.SetMeta? || a.DelMeta? { MetaMeaning(prim, w, a); }
    else if a.BeginBatch? || a.PutBlob? || a.TornWrite? || a.CommitBatch? || a.AbortBatch? { BatchMeaning(prim, w, a); }
    else { CompactMeaning(prim, w, a); }
  }

  lemma OpeningRefines(prim: Prim, w: World, a: Action)
    requires Inv(prim, w) && Step(prim, w, a).Some? && !Stale(w, a) && (a.OpenClean? || a.OpenMap?)
    ensures Abs(prim, Step(prim, w, a).value) == Abs(prim, w)
  {
    var w' := Step(prim, w, a).value;
    OpeningStepOk(prim, w, a);
    SameContents(prim, w.s, w'.s);
    if w.s.lock.Held? {
      var q := w.s.lock.pid;
      if w.procs[q].batch.Some? { OtherPending(prim, w.s, w'.s, q, w.procs[q]); }
    }
  }

  lemma CrashPending(prim: Prim, w: World, p: nat)
    requires Inv(prim, w) && p in w.procs
    ensures var w' := Step(prim, w, Crash(p)).value;
            Pending(prim, w') == if w.s.lock.Held? && w.s.lock.pid == p then None else Pending(prim, w)
  {
  }

  /** Mapping another generation does not change which file `current()` is while a batch is open. */
  lemma ReaderPending(prim: Prim, w: World, a: Action)
    requires Inv(prim, w) && a.p in w.procs && w.procs[a.p].Running? && ReaderStep(prim, w.s, w.procs[a.p], a).Some?
    requires !Stale(w, a)
    ensures var (s', pr') := ReaderStep(prim, w.s, w.procs[a.p], a).value;
            s' == w.s ==> Pending(prim, World(s', w.procs[a.p := pr'])) == Pending(prim, w)
  {
    var pr' := ReaderStep(prim, w.s, w.procs[a.p], a).value.1;
    assert PendingOf(prim, w.s, pr') == PendingOf(prim, w.s, w.procs[a.p]) by {
      ReaderKeepsBatch(prim, w.s, w.procs[a.p], a);
    }
    assert w.procs[a.p := pr'].Keys == w.procs.Keys;
  }

  lemma ReaderKeepsBatch(prim: Prim, s: Shared, pr: Proc, a: Action)
    requires Good(prim, s) && pr.Running? && ProcOk(prim, s, a.p, pr) && ReaderStep(prim, s, pr, a).Some?
    requires a.Map? && pr.reader.Looked? ==> !StaleCreate(s, pr.maps, pr.reader.gen, pr.batch.Some?)
    ensures var pr' := ReaderStep(prim, s, pr, a).value.1;
            pr'.Running? && pr'.batch == pr.batch && (pr.batch.Some? ==> pr'.maps.cur == pr.maps.cur)
  {
    if a.Map? { MapLeavesStore(prim, a.p, s, pr); }
  }
}
