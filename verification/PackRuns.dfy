/** The pack store over whole runs: safety, durability, reads that see one generation, and when no step is stale. */
module PackRuns {
  import opened Basics
  import opened Primitives
  import opened Pack
  import opened PackInvariant
  import opened PackMachine
  import opened PackTheorems
  import C = Cas

  ghost predicate IsRun(prim: Prim, ws: seq<World>, acts: seq<Action>) {
    |ws| == |acts| + 1 && forall i :: 0 <= i < |acts| ==> Step(prim, ws[i], acts[i]) == Some(ws[i + 1])
  }

  ghost predicate Clean(ws: seq<World>, acts: seq<Action>) {
    |ws| == |acts| + 1 && forall i :: 0 <= i < |acts| ==> !Stale(ws[i], acts[i])
  }

  /** Safety over every run, from any world in order; the first stale step, if any, is the first violation. */
  lemma {:induction false} RunSafe(prim: Prim, ws: seq<World>, acts: seq<Action>, i: nat)
    requires Sound(prim) && IsRun(prim, ws, acts) && Inv(prim, ws[0]) && i < |ws|
    requires forall k :: 0 <= k < i ==> !Stale(ws[k], acts[k])
    ensures Inv(prim, ws[i])
    ensures i < |acts| ==> (Inv(prim, ws[i + 1]) <==> !Stale(ws[i], acts[i]))
  {
    if i > 0 { RunSafe(prim, ws, acts, i - 1); }
    if i < |acts| {
      assert Step(prim, ws[i], acts[i]) == Some(ws[i + 1]);
      StepKeepsInvariant(prim, ws[i], acts[i]);
    }
  }

  /** The invariant in full: where committed blobs lie, that they do not overlap, and that they are what they are named. */
  lemma IndexSound(prim: Prim, w: World, h: Id)
    requires Inv(prim, w) && h in w.s.live.entries
    ensures w.s.Current() in w.s.names && w.s.live.file == Some(w.s.names[w.s.Current()])
    ensures var e := w.s.live.entries[h];
            && e.off + e.len <= |LiveFile(w.s)|
            && ReadEntry(prim, LiveFile(w.s), e) == Ok(Contents(prim, w.s)[h])
            && prim.hash(Contents(prim, w.s)[h]) == h
            && |Contents(prim, w.s)[h]| == e.rawLen
    ensures forall k :: k in w.s.live.entries && k != h ==> Apart(w.s.live.entries[h], w.s.live.entries[k])
  {
    assert w.s.GenAt(w.s.Current()) == w.s.live && GenOk(prim, w.s.files, w.s.live);
    assert Covered(prim, LiveFile(w.s), w.s.live.entries[h], h);
  }

  // ---------------------------------------------------------------- readers

  /** A lookup takes its value from the committed table at that instant; a miss is a miss at that instant. */
  lemma LookupIsAtomic(prim: Prim, w: World, p: nat, h: Id)
    requires Inv(prim, w) && Step(prim, w, Lookup(p, h)).Some?
    ensures var r := Step(prim, w, Lookup(p, h)).value.procs[p].reader;
            && (r.Looked? <==> h in Contents(prim, w.s))
            && (r.Looked? ==> r.hash == h && r.want == Contents(prim, w.s)[h])
  {
    if h in w.s.live.entries { IndexSound(prim, w, h); }
  }

  /** The `pread` or the view that follows, however many compactions later, returns exactly that value. */
  lemma ReadReturnsLookedUp(prim: Prim, w: World, p: nat)
    requires Inv(prim, w) && p in w.procs && w.procs[p].Running? && w.procs[p].reader.Located?
    ensures var r := w.procs[p].reader;
            r.file < |w.s.files| && ReadEntry(prim, w.s.files[r.file], r.entry) == Ok(r.want) && prim.hash(r.want) == r.hash
  {
    assert ProcOk(prim, w.s, p, w.procs[p]);
  }

  /** Between lookup and read the remembered value cannot change: `Map` copies it, nothing else touches it. */
  lemma ReaderRemembers(prim: Prim, w: World, a: Action, p: nat)
    requires Step(prim, w, a).Some? && p in w.procs && w.procs[p].Running? && w.procs[p].reader.Looked?
    requires a != Crash(p)
    ensures var pr := Step(prim, w, a).value.procs[p];
            && p in Step(prim, w, a).value.procs && pr.Running?
            && (pr.reader == w.procs[p].reader || a == Map(p))
            && (pr.reader.Located? ==> pr.reader.want == w.procs[p].reader.want && pr.reader.hash == w.procs[p].reader.hash)
  {
  }

  /** A failed attempt means a compaction committed after its lookup; the error needs eight of them in one call. */
  lemma ChurnNeedsCompactions(prim: Prim, w: World, p: nat)
    requires Inv(prim, w) && p in w.procs && w.procs[p].Running?
    ensures w.procs[p].reader.Churned? ==> w.s.Current() >= w.procs[p].reader.first + 8
    ensures w.procs[p].reader.Looked? && Step(prim, w, Map(p)).Some? && !Stale(w, Map(p)) ==>
              var r := Step(prim, w, Map(p)).value.procs[p].reader;
              !r.Located? ==> w.s.Current() > w.procs[p].reader.gen
  {
    assert ProcOk(prim, w.s, p, w.procs[p]);
    if w.procs[p].reader.Looked? && !Stale(w, Map(p)) { FailedMapIsLate(prim, w, p); }
  }

  lemma FailedMapIsLate(prim: Prim, w: World, p: nat)
    requires Inv(prim, w) && p in w.procs && w.procs[p].Running? && w.procs[p].reader.Looked? && !Stale(w, Map(p))
    ensures Step(prim, w, Map(p)).Some?
    ensures var pr := Step(prim, w, Map(p)).value.procs[p];
            pr.Running? && (!pr.reader.Located? ==> w.s.Current() > w.procs[p].reader.gen)
  {
    assert ProcOk(prim, w.s, p, w.procs[p]);
    MapRemembers(prim, p, w.s, w.procs[p]);
  }

  // ---------------------------------------------------------------- durability

  predicate Rejects(a: Action, h: Id) {
    a.SwitchIndex? && h !in a.live
  }

  lemma StepKeepsBlob(prim: Prim, w: World, a: Action, h: Id)
    requires Sound(prim) && Inv(prim, w) && Step(prim, w, a).Some? && !Stale(w, a)
    requires h in Contents(prim, w.s) && !Rejects(a, h)
    ensures var s' := Step(prim, w, a).value.s;
            h in Contents(prim, s') && Contents(prim, s')[h] == Contents(prim, w.s)[h]
  {
    if a.CommitBatch? {
      CommitKeepsBlob(prim, w, a.p, h);
    } else {
      Refines(prim, w, a);
      if a.SwitchIndex? {
        assert ProcOk(prim, w.s, a.p, w.procs[a.p]);
        NoPending(prim, w, a.p);
      }
      MeaningKeeps(prim, Abs(prim, w), a, w.s.lock.Held? && w.s.lock.pid == a.p, h);
    }
  }

  lemma MeaningKeeps(prim: Prim, c: C.Cas, a: Action, ownsBatch: bool, h: Id)
    requires h in c.committed.objs && !Rejects(a, h) && !a.CommitBatch? && (a.SwitchIndex? ==> c.pending.None?)
    ensures var c' := Meaning(prim, c, a, ownsBatch);
            h in c'.committed.objs && c'.committed.objs[h] == c.committed.objs[h]
  {
  }

  lemma CommitKeepsBlob(prim: Prim, w: World, p: nat, h: Id)
    requires Inv(prim, w) && p in w.procs && w.procs[p].Running? && w.procs[p].batch.Some?
    requires h in Contents(prim, w.s)
    ensures var s' := Commit(w.s, w.procs[p].batch.value);
            h in Contents(prim, s') && Contents(prim, s')[h] == Contents(prim, w.s)[h]
  {
    var pr := w.procs[p];
    assert ProcOk(prim, w.s, p, pr);
    CommitContents(prim, p, w.s, pr);
    assert w.s.GenAt(w.s.Current()) == w.s.live;
    assert FileOf(w.s, pr.maps) == LiveFile(w.s);
  }

  /**
   * Durability: what a returned `sync` committed stays readable with the same bytes through crashes, aborted and new
   * batches, and reopens, until a compaction whose `live` rejects it.
   */
  lemma {:induction false} Durable(prim: Prim, ws: seq<World>, acts: seq<Action>, h: Id, i: nat)
    requires Sound(prim) && IsRun(prim, ws, acts) && Clean(ws, acts) && Inv(prim, ws[0]) && i < |ws|
    requires h in Contents(prim, ws[0].s)
    requires forall k :: 0 <= k < i ==> !Rejects(acts[k], h)
    ensures h in Contents(prim, ws[i].s) && Contents(prim, ws[i].s)[h] == Contents(prim, ws[0].s)[h]
  {
    if i > 0 {
      Durable(prim, ws, acts, h, i - 1);
      RunSafe(prim, ws, acts, i - 1);
      assert Step(prim, ws[i - 1], acts[i - 1]) == Some(ws[i]);
      StepKeepsBlob(prim, ws[i - 1], acts[i - 1], h);
    }
  }

  ghost predicate InBatch(w: World, p: nat, base: Bytes, live: Gen, past: seq<Gen>, meta: map<Bytes, Bytes>) {
    && p in w.procs && w.procs[p].Running? && w.procs[p].batch.Some?
    && w.procs[p].batch.value.base == base && w.s.live == live && w.s.past == past && w.s.meta == meta
  }

  predicate Ends(a: Action, p: nat) {
    a == Crash(p) || a == CommitBatch(p) || (a.AbortBatch? && a.p == p)
  }

  lemma OthersKeepBatch(prim: Prim, w: World, a: Action, p: nat)
    requires Sound(prim) && Inv(prim, w) && Step(prim, w, a).Some? && !Stale(w, a) && a.p != p
    requires p in w.procs && w.procs[p].Running? && w.procs[p].batch.Some?
    ensures InBatch(Step(prim, w, a).value, p, w.procs[p].batch.value.base, w.s.live, w.s.past, w.s.meta)
  {
    OthersGuarantee(prim, w, a, p);
    LockedBatch(prim, w, p);
    assert LockedRely(w.s, Step(prim, w, a).value.s);
  }

  lemma LockedBatch(prim: Prim, w: World, p: nat)
    requires Inv(prim, w) && p in w.procs && w.procs[p].Running? && w.procs[p].batch.Some?
    ensures w.s.lock == Held(p, true) && w.s.live.file.Some? && w.procs[p].phase == Settled
  {
    assert ProcOk(prim, w.s, p, w.procs[p]);
    assert w.s.GenAt(w.s.Current()) == w.s.live;
  }

  lemma OwnStepKeepsBatch(prim: Prim, w: World, a: Action, p: nat)
    requires Sound(prim) && Inv(prim, w) && Step(prim, w, a).Some? && !Stale(w, a) && a.p == p && !Ends(a, p)
    requires p in w.procs && w.procs[p].Running? && w.procs[p].batch.Some?
    ensures InBatch(Step(prim, w, a).value, p, w.procs[p].batch.value.base, w.s.live, w.s.past, w.s.meta)
  {
    LockedBatch(prim, w, p);
    if a.Lookup? || a.Map? || a.Return? {
      assert ProcOk(prim, w.s, p, w.procs[p]);
      ReaderStepOk(prim, p, w.s, w.procs[p], a);
    }
  }

  lemma BatchGoesOn(prim: Prim, w: World, a: Action, p: nat)
    requires Sound(prim) && Inv(prim, w) && Step(prim, w, a).Some? && !Stale(w, a) && !Ends(a, p)
    requires p in w.procs && w.procs[p].Running? && w.procs[p].batch.Some?
    ensures InBatch(Step(prim, w, a).value, p, w.procs[p].batch.value.base, w.s.live, w.s.past, w.s.meta)
  {
    if a.p != p { OthersKeepBatch(prim, w, a, p); } else { OwnStepKeepsBatch(prim, w, a, p); }
  }

  lemma {:induction false} BatchRun(prim: Prim, ws: seq<World>, acts: seq<Action>, p: nat, i: nat)
    requires Sound(prim) && IsRun(prim, ws, acts) && Clean(ws, acts) && Inv(prim, ws[0])
    requires 1 <= i < |ws| && acts[0] == BeginBatch(p)
    requires forall k :: 1 <= k < i ==> !Ends(acts[k], p)
    ensures InBatch(ws[i], p, LiveFile(ws[0].s), ws[1].s.live, ws[0].s.past, ws[0].s.meta)
    ensures ws[1].s.live.entries == ws[0].s.live.entries
  {
    RunSafe(prim, ws, acts, i - 1);
    if i == 1 {
      assert Step(prim, ws[0], acts[0]) == Some(ws[1]);
      BatchBegins(prim, ws[0], p);
    } else {
      BatchRun(prim, ws, acts, p, i - 1);
      assert Step(prim, ws[i - 1], acts[i - 1]) == Some(ws[i]);
      BatchGoesOn(prim, ws[i - 1], acts[i - 1], p);
    }
  }

  lemma BatchBegins(prim: Prim, w: World, p: nat)
    requires Sound(prim) && Inv(prim, w) && Step(prim, w, BeginBatch(p)).Some?
    ensures var w' := Step(prim, w, BeginBatch(p)).value;
            InBatch(w', p, LiveFile(w.s), w'.s.live, w.s.past, w.s.meta) && w'.s.live.entries == w.s.live.entries
  {
    assert ProcOk(prim, w.s, p, w.procs[p]);
    AcquireOk(prim, p, w.s, w.procs[p].maps);
    BeginBase(prim, p, w.s, w.procs[p]);
  }

  lemma BeginBase(prim: Prim, p: nat, s: Shared, pr: Proc)
    requires Good(prim, s) && pr.Running? && ProcOk(prim, s, p, pr) && s.lock == Free
    ensures Begin(p, s, pr.maps).2.base == LiveFile(s)
  {
    MappingForOk(prim, p, s, pr.maps, s.Current(), true);
    assert s.GenAt(s.Current()) == s.live && GenOk(prim, s.files, s.live);
  }

  /**
   * An abort whose truncation succeeds undoes the whole batch: after any run from `begin_batch` to it, whatever was
   * put, torn or done by other processes, the pack holds the bytes it held, and index, records and generation are the
   * same.
   */
  lemma AbortUndoes(prim: Prim, ws: seq<World>, acts: seq<Action>, p: nat)
    requires Sound(prim) && IsRun(prim, ws, acts) && Clean(ws, acts) && Inv(prim, ws[0])
    requires |acts| >= 2 && acts[0] == BeginBatch(p) && acts[|acts| - 1] == AbortBatch(p, true)
    requires forall k :: 1 <= k < |acts| - 1 ==> !Ends(acts[k], p)
    ensures var s, s' := ws[0].s, ws[|acts|].s;
            && LiveFile(s') == LiveFile(s)
            && s'.live.entries == s.live.entries && s'.past == s.past && s'.meta == s.meta && s'.lock == Free
            && Contents(prim, s') == Contents(prim, s)
  {
    var n := |acts| - 1;
    BatchRun(prim, ws, acts, p, n);
    RunSafe(prim, ws, acts, n);
    assert Step(prim, ws[n], acts[n]) == Some(ws[n + 1]);
    AbortRestores(prim, ws[n], p);
  }

  lemma AbortRestores(prim: Prim, w: World, p: nat)
    requires Sound(prim) && Inv(prim, w) && p in w.procs && w.procs[p].Running? && w.procs[p].batch.Some?
    ensures var s' := Abort(w.s, w.procs[p].maps, w.procs[p].batch.value, true);
            && LiveFile(s') == w.procs[p].batch.value.base
            && s'.live == w.s.live && s'.past == w.s.past && s'.meta == w.s.meta && s'.lock == Free
  {
    assert ProcOk(prim, w.s, p, w.procs[p]);
    var b := w.procs[p].batch.value;
    assert w.s.GenAt(w.s.Current()) == w.s.live;
    assert FileOf(w.s, w.procs[p].maps) == LiveFile(w.s);
    assert Truncate(LiveFile(w.s), b.committedEnd) == b.base;
  }

  // ---------------------------------------------------------------- one process among the others

  /**
   * What a process may rely on between two of its own steps, however many the others take meanwhile: the contract of
   * `PackCas.Others`.
   */
  lemma {:induction false} OthersRun(prim: Prim, ws: seq<World>, acts: seq<Action>, me: nat, i: nat)
    requires Sound(prim) && IsRun(prim, ws, acts) && Clean(ws, acts) && Inv(prim, ws[0]) && i < |ws|
    requires forall k :: 0 <= k < i ==> acts[k].p != me
    ensures Rely(me, ws[0].s, ws[i].s) && ContentKept(prim, ws[0].s, ws[i].s)
  {
    if i == 0 {
      NothingMoves(prim, ws[0].s);
    } else {
      OthersRun(prim, ws, acts, me, i - 1);
      RunSafe(prim, ws, acts, i - 1);
      assert Step(prim, ws[i - 1], acts[i - 1]) == Some(ws[i]);
      OthersGuarantee(prim, ws[i - 1], acts[i - 1], me);
      RelyTransitive(me, ws[0].s, ws[i - 1].s, ws[i].s);
      KeptTransitive(prim, ws[0].s, ws[i - 1].s, ws[i].s);
    }
  }

  predicate OnlyReads(a: Action) {
    a.OpenRead? || a.OpenClean? || a.OpenMap? || a.Lookup? || a.Map? || a.Return? || a.Crash?
  }

  /** Only `p` writes, and it neither aborts nor crashes. */
  predicate WriterIs(p: nat, a: Action) {
    if a.p == p then !a.Crash? && !a.AbortBatch? else OnlyReads(a)
  }

  predicate LockedOnlyBy(s: Shared, p: nat) {
    s.lock.Held? ==> s.lock.pid == p
  }

  lemma LockStays(prim: Prim, w: World, a: Action, p: nat)
    requires Sound(prim) && Inv(prim, w) && Step(prim, w, a).Some? && !Stale(w, a)
    requires LockedOnlyBy(w.s, p) && WriterIs(p, a)
    ensures LockedOnlyBy(Step(prim, w, a).value.s, p)
  {
    if a.OpenClean? || a.OpenMap? {
      OpeningStepOk(prim, w, a);
    } else if a.Lookup? || a.Map? || a.Return? {
      ReaderStepOk(prim, a.p, w.s, w.procs[a.p], a);
    } else if a.BeginBatch? || a.StartCompact? {
      AcquireOk(prim, a.p, w.s, w.procs[a.p].maps);
    }
  }

  /** Each step of such a run is an operation of the plain table, or none. */
  lemma WriterLeads(prim: Prim, w: World, a: Action, p: nat)
    requires Sound(prim) && Inv(prim, w) && Step(prim, w, a).Some? && !Stale(w, a)
    requires LockedOnlyBy(w.s, p) && WriterIs(p, a)
    ensures C.Leads(Abs(prim, w), Abs(prim, Step(prim, w, a).value))
  {
    Refines(prim, w, a);
    MeaningLeads(prim, Abs(prim, w), a, w.s.lock.Held? && w.s.lock.pid == a.p);
  }

  lemma MeaningLeads(prim: Prim, c: C.Cas, a: Action, ownsBatch: bool)
    requires !a.AbortBatch? && (a.Crash? ==> !ownsBatch)
    ensures C.Leads(c, Meaning(prim, c, a, ownsBatch))
  {
    match a
    case BeginBatch(_) => assert Meaning(prim, c, a, ownsBatch) == C.Apply(c, C.Open);
    case PutBlob(_, data) => assert Meaning(prim, c, a, ownsBatch) == C.Apply(c, C.Store(prim.hash(data), data));
    case SetMeta(_, key, val) => assert Meaning(prim, c, a, ownsBatch) == C.Apply(c, C.SetRecord(key, val));
    case DelMeta(_, key) => assert Meaning(prim, c, a, ownsBatch) == C.Apply(c, C.DelRecord(key));
    case CommitBatch(_) => assert Meaning(prim, c, a, ownsBatch) == C.Apply(c, C.Flush);
    case SwitchIndex(_, live) => assert Meaning(prim, c, a, ownsBatch) == C.Apply(c, C.Collect(live));
    case _ =>
  }

  ghost function Tables(prim: Prim, ws: seq<World>): seq<C.Cas> {
    seq(|ws|, i requires 0 <= i < |ws| => Abs(prim, ws[i]))
  }

  lemma {:induction false} LockedThroughout(prim: Prim, ws: seq<World>, acts: seq<Action>, p: nat, i: nat)
    requires Sound(prim) && IsRun(prim, ws, acts) && Clean(ws, acts) && Inv(prim, ws[0]) && i < |ws|
    requires ws[0].s.lock.Free? && forall k :: 0 <= k < i ==> WriterIs(p, acts[k])
    ensures Inv(prim, ws[i]) && LockedOnlyBy(ws[i].s, p)
  {
    RunSafe(prim, ws, acts, i);
    if i > 0 {
      LockedThroughout(prim, ws, acts, p, i - 1);
      assert Step(prim, ws[i - 1], acts[i - 1]) == Some(ws[i]);
      LockStays(prim, ws[i - 1], acts[i - 1], p);
    }
  }

  /**
   * The history that a user of the store keeps is the store's own. In any run in which one process writes while others
   * open, read and crash, the table at each point is a history of table operations, the one `Gc.TreeStore` logs, and
   * what the writer sees is the table with its batch. So what a crash leaves is a view that the writer had.
   */
  lemma OneWriterHistory(prim: Prim, ws: seq<World>, acts: seq<Action>, p: nat)
    requires Sound(prim) && IsRun(prim, ws, acts) && Clean(ws, acts) && Inv(prim, ws[0])
    requires ws[0].s.lock.Free? && forall k :: 0 <= k < |acts| ==> WriterIs(p, acts[k])
    ensures C.IsHistory(Tables(prim, ws))
    ensures forall i :: 0 <= i < |ws| && p in ws[i].procs ==>
              Tables(prim, ws)[i] == C.Cas(C.Db(Contents(prim, ws[i].s), ws[i].s.meta), PendingOf(prim, ws[i].s, ws[i].procs[p]))
  {
    forall i | 0 <= i < |acts| ensures C.Leads(Tables(prim, ws)[i], Tables(prim, ws)[i + 1]) {
      LockedThroughout(prim, ws, acts, p, i);
      assert Step(prim, ws[i], acts[i]) == Some(ws[i + 1]);
      WriterLeads(prim, ws[i], acts[i], p);
    }
    forall i | 0 <= i < |ws| && p in ws[i].procs ensures Pending(prim, ws[i]) == PendingOf(prim, ws[i].s, ws[i].procs[p]) {
      LockedThroughout(prim, ws, acts, p, i);
      assert ProcOk(prim, ws[i].s, p, ws[i].procs[p]);
    }
  }

  lemma OneWriterCrash(prim: Prim, ws: seq<World>, acts: seq<Action>, p: nat, n: nat) returns (i: nat)
    requires Sound(prim) && IsRun(prim, ws, acts) && Clean(ws, acts) && Inv(prim, ws[0]) && n < |ws|
    requires ws[0].s.lock.Free? && forall k :: 0 <= k < |acts| ==> WriterIs(p, acts[k])
    ensures i <= n && C.Db(Contents(prim, ws[n].s), ws[n].s.meta) == Abs(prim, ws[i]).View()
  {
    OneWriterHistory(prim, ws, acts, p);
    i := C.CrashLeavesAView(Tables(prim, ws), n);
  }

  // ---------------------------------------------------------------- when no step is stale

  /** Openings are of the live generation, and so are lookups of a process that has a batch open. */
  ghost predicate Tidy(w: World) {
    forall p :: p in w.procs ==>
      match w.procs[p]
      case Opening(gen, _) => gen == w.s.Current()
      case Running(_, batch, _, reader) => batch.Some? && reader.Looked? ==> reader.gen == w.s.Current()
  }

  /**
   * What users of the library can arrange: no compaction commits while a process is inside `open_once`, and no
   * process opens a batch while its own reader thread is between lookup and mapping.
   */
  predicate Disciplined(w: World, a: Action) {
    && (a.SwitchIndex? ==> forall p :: p in w.procs ==> !w.procs[p].Opening?)
    && (a.BeginBatch? && a.p in w.procs && w.procs[a.p].Running? ==> !w.procs[a.p].reader.Looked?)
  }

  lemma SameGeneration(prim: Prim, w: World, a: Action)
    requires Sound(prim) && Inv(prim, w) && Step(prim, w, a).Some? && !Stale(w, a) && !a.SwitchIndex?
    ensures Step(prim, w, a).value.s.past == w.s.past
  {
    if a.OpenClean? || a.OpenMap? {
      OpeningStepOk(prim, w, a);
    } else if a.Lookup? || a.Map? || a.Return? {
      ReaderStepOk(prim, a.p, w.s, w.procs[a.p], a);
    } else if a.BeginBatch? || a.StartCompact? {
      AcquireOk(prim, a.p, w.s, w.procs[a.p].maps);
      if a.StartCompact? {
        PrepareNextOk(prim, MappingFor(w.s, w.procs[a.p].maps, w.s.Current(), true).0.(lock := Held(a.p, true)));
      }
    } else if a.EndCompact? {
      MappingForOk(prim, a.p, w.s, w.procs[a.p].maps, w.s.Current(), true);
    }
  }

  /** While one process compacts, nobody has a batch open. */
  lemma NoBatchInCompaction(prim: Prim, w: World, p: nat, q: nat)
    requires Inv(prim, w) && p in w.procs && w.procs[p].Running? && w.procs[p].phase.Copying?
    requires q in w.procs && w.procs[q].Running?
    ensures w.procs[q].batch.None?
  {
    assert ProcOk(prim, w.s, p, w.procs[p]);
    assert ProcOk(prim, w.s, q, w.procs[q]);
  }

  lemma TidyStep(prim: Prim, w: World, a: Action)
    requires Sound(prim) && Inv(prim, w) && Tidy(w) && Step(prim, w, a).Some? && Disciplined(w, a)
    ensures !Stale(w, a) && Tidy(Step(prim, w, a).value)
  {
    assert !Stale(w, a);
    if a.SwitchIndex? {
      TidySwitch(prim, w, a);
    } else {
      SameGeneration(prim, w, a);
      if a.p in w.procs && w.procs[a.p].Running? && WriterStep(prim, w.s, w.procs[a.p], a).Some? { TidyWriter(prim, w, a); }
    }
  }

  /** A writer's step leaves its own reader where it is. */
  lemma TidyWriter(prim: Prim, w: World, a: Action)
    requires Tidy(w) && Disciplined(w, a) && a.p in w.procs && w.procs[a.p].Running?
    requires WriterStep(prim, w.s, w.procs[a.p], a).Some?
    requires WriterStep(prim, w.s, w.procs[a.p], a).value.0.past == w.s.past
    ensures var (s', pr') := WriterStep(prim, w.s, w.procs[a.p], a).value; Tidy(World(s', w.procs[a.p := pr']))
  {
  }

  lemma TidySwitch(prim: Prim, w: World, a: Action)
    requires Inv(prim, w) && Step(prim, w, a).Some? && Disciplined(w, a) && a.SwitchIndex?
    ensures Tidy(Step(prim, w, a).value)
  {
    var w' := Step(prim, w, a).value;
    forall q | q in w'.procs ensures w'.procs[q].Running? && w'.procs[q].batch.None? {
      assert w.procs[q].Running?;
      NoBatchInCompaction(prim, w, a.p, q);
    }
  }

  /** So a disciplined run from the empty directory is safe throughout, with no further condition. */
  lemma {:induction false} DisciplinedRunSafe(prim: Prim, ws: seq<World>, acts: seq<Action>, i: nat)
    requires Sound(prim) && IsRun(prim, ws, acts) && ws[0] == Start && i < |ws|
    requires forall k :: 0 <= k < i ==> Disciplined(ws[k], acts[k])
    ensures Inv(prim, ws[i]) && Tidy(ws[i])
    ensures forall k :: 0 <= k < i ==> !Stale(ws[k], acts[k])
  {
    if i == 0 {
      StartInv(prim);
    } else {
      DisciplinedRunSafe(prim, ws, acts, i - 1);
      assert Step(prim, ws[i - 1], acts[i - 1]) == Some(ws[i]);
      TidyStep(prim, ws[i - 1], acts[i - 1]);
      GoodStep(prim, ws[i - 1], acts[i - 1]);
    }
  }
}
