/** The three ways a run can go stale, each with a concrete run that ends in an unreadable committed blob. */
module PackWitness {
  import opened Basics
  import opened Primitives
  import opened Pack
  import opened PackInvariant
  import opened PackMachine
  import opened PackTheorems
  import opened PackRuns

  const Blob: Bytes := [1]

  /** Process `p` is about to read the committed blob `h` and will get an error. */
  ghost predicate LostFor(prim: Prim, w: World, p: nat, h: Id) {
    && h in w.s.live.entries
    && p in w.procs && w.procs[p].Running? && w.procs[p].reader.Located?
    && w.procs[p].reader.hash == h
    && w.procs[p].reader.file < |w.s.files|
    && ReadEntry(prim, w.s.files[w.procs[p].reader.file], w.procs[p].reader.entry) == Err(PackTruncated)
  }

  lemma Extend(prim: Prim, ws: seq<World>, acts: seq<Action>, a: Action, w: World)
    requires IsRun(prim, ws, acts) && Step(prim, ws[|ws| - 1], a) == Some(w)
    ensures IsRun(prim, ws + [w], acts + [a])
  {
    var ws', acts' := ws + [w], acts + [a];
    forall i | 0 <= i < |acts'| ensures Step(prim, ws'[i], acts'[i]) == Some(ws'[i + 1]) {
      if i < |acts| {
        assert Step(prim, ws[i], acts[i]) == Some(ws[i + 1]);
      }
    }
  }

  predicate SameShared(s: Shared, t: Shared) {
    && s.past == t.past && s.live.file == t.live.file && s.live.entries == t.live.entries
    && s.meta == t.meta && s.names == t.names && s.files == t.files && s.lock == t.lock
  }

  predicate SameProc(a: Proc, b: Proc) {
    match (a, b)
    case (Opening(g, c), Opening(h, d)) => g == h && c == d
    case (Running(m, x, f, r), Running(n, y, g, t)) =>
      && m.cur == n.cur && m.retired == n.retired && f == g && r == t
      && (x.None? <==> y.None?)
      && (x.Some? && y.Some? ==>
            && x.value.entries == y.value.entries && x.value.meta == y.value.meta && x.value.base == y.value.base
            && x.value.committedEnd == y.value.committedEnd && x.value.end == y.value.end && x.value.bytes == y.value.bytes)
    case _ => false
  }

  lemma Goes(prim: Prim, w: World, a: Action, w': World)
    requires Step(prim, w, a).Some?
    requires SameShared(Step(prim, w, a).value.s, w'.s)
    requires Step(prim, w, a).value.procs.Keys == w'.procs.Keys
    requires forall q :: q in w'.procs ==> SameProc(Step(prim, w, a).value.procs[q], w'.procs[q])
    ensures Step(prim, w, a) == Some(w')
  {
    var r := Step(prim, w, a).value;
    assert r.s == w'.s;
    assert forall q :: q in w'.procs ==> r.procs[q] == w'.procs[q];
    assert r.procs == w'.procs;
  }

  function Opened(gen: nat, file: nat): Proc {
    Running(Maps(Some(Mapping(gen, file)), []), None, Settled, Quiet)
  }

  function Entries(prim: Prim): map<Id, Entry> {
    map[prim.hash(Blob) := Entry(0, 1, 1)]
  }

  function PackOf(n: nat): Option<nat> {
    Some(n)
  }

  function History(prim: Prim, n: nat): seq<Gen> {
    seq(n, k requires 0 <= k < n => Gen(PackOf(k), Entries(prim)))
  }

  function Copies(n: nat): seq<Bytes> {
    seq(n, k => Blob)
  }

  /** Process 0 after n compactions: it has mapped every generation. */
  function MapsOf(n: nat): Maps {
    Maps(Some(Mapping(n, n)), seq(n, k requires 0 <= k < n => Mapping(k, k)))
  }

  /** The directory holding one blob, after n compactions that kept it; process 0 did all the writing. */
  function Settle(prim: Prim, n: nat, others: map<nat, Proc>): World {
    World(Shared(History(prim, n), Gen(PackOf(n), Entries(prim)), map[], map[n := n], Copies(n + 1), Free),
          others[0 := Running(MapsOf(n), None, Settled, Quiet)])
  }

  const FirstPut: seq<Action> :=
    [OpenRead(0), OpenClean(0), OpenMap(0), BeginBatch(0), PutBlob(0, Blob), CommitBatch(0)]

  const Bare := Shared([], Gen(Some(0), map[]), map[], map[0 := 0], [[]], Free)

  function Putting(n: nat, prim: Prim): World {
    var b := if n == 0 then Batch(map[], map[], 0, 0, 0, [])
             else Batch(map[prim.hash(Blob) := Entry(0, 1, 1)], map[], 0, 1, 1, []);
    World(Bare.(lock := Held(0, true), files := if n == 0 then [[]] else [Blob]),
          map[0 := Opened(0, 0).(batch := Some(b))])
  }

  lemma FirstOpen(prim: Prim)
    ensures Step(prim, World(Empty, map[0 := Opening(0, false)]), OpenClean(0))
            == Some(World(Empty, map[0 := Opening(0, true)]))
    ensures Step(prim, World(Empty, map[0 := Opening(0, true)]), OpenMap(0)) == Some(World(Bare, map[0 := Opened(0, 0)]))
  {
    assert Cleanup(Empty, 0) == Empty;
    Goes(prim, World(Empty, map[0 := Opening(0, false)]), OpenClean(0), World(Empty, map[0 := Opening(0, true)]));
    Goes(prim, World(Empty, map[0 := Opening(0, true)]), OpenMap(0), World(Bare, map[0 := Opened(0, 0)]));
  }

  lemma FirstBatch(prim: Prim)
    ensures Step(prim, World(Bare, map[0 := Opened(0, 0)]), BeginBatch(0)) == Some(Putting(0, prim))
    ensures Step(prim, Putting(0, prim), PutBlob(0, Blob)) == Some(Putting(1, prim))
  {
    Goes(prim, World(Bare, map[0 := Opened(0, 0)]), BeginBatch(0), Putting(0, prim));
    assert Pwrite([], 0, Blob) == Blob;
    Goes(prim, Putting(0, prim), PutBlob(0, Blob), Putting(1, prim));
  }

  lemma FirstRead(prim: Prim)
    ensures Step(prim, Start, OpenRead(0)) == Some(World(Empty, map[0 := Opening(0, false)]))
  {
    Goes(prim, Start, OpenRead(0), World(Empty, map[0 := Opening(0, false)]));
  }

  lemma FirstCommit(prim: Prim)
    ensures Step(prim, Putting(1, prim), CommitBatch(0)) == Some(Settle(prim, 0, map[]))
  {
    Goes(prim, Putting(1, prim), CommitBatch(0), Settle(prim, 0, map[]));
  }

  lemma FirstOpened(prim: Prim) returns (ws: seq<World>)
    ensures IsRun(prim, ws, FirstPut[..2]) && ws[0] == Start && ws[|ws| - 1] == World(Empty, map[0 := Opening(0, true)])
  {
    FirstRead(prim);
    FirstOpen(prim);
    var none: seq<Action> := [];
    assert none + [OpenRead(0), OpenClean(0)] == FirstPut[..2];
    ws := TwoSteps(prim, [Start], none, OpenRead(0), World(Empty, map[0 := Opening(0, false)]),
                   OpenClean(0), World(Empty, map[0 := Opening(0, true)]));
  }

  lemma FirstBegun(prim: Prim, ws0: seq<World>) returns (ws: seq<World>)
    requires IsRun(prim, ws0, FirstPut[..2]) && ws0[|ws0| - 1] == World(Empty, map[0 := Opening(0, true)])
    ensures IsRun(prim, ws, FirstPut[..4]) && ws0 <= ws && ws[|ws| - 1] == Putting(0, prim)
  {
    FirstOpen(prim);
    FirstBatch(prim);
    assert FirstPut[..2] + [OpenMap(0), BeginBatch(0)] == FirstPut[..4];
    ws := TwoSteps(prim, ws0, FirstPut[..2], OpenMap(0), World(Bare, map[0 := Opened(0, 0)]), BeginBatch(0),
                   Putting(0, prim));
  }

  lemma OneBlobReached(prim: Prim) returns (ws: seq<World>)
    ensures IsRun(prim, ws, FirstPut) && ws[0] == Start && ws[|ws| - 1] == Settle(prim, 0, map[])
  {
    FirstBatch(prim);
    FirstCommit(prim);
    assert FirstPut[..4] + [PutBlob(0, Blob), CommitBatch(0)] == FirstPut;
    ws := FirstOpened(prim);
    ws := FirstBegun(prim, ws);
    ws := TwoSteps(prim, ws, FirstPut[..4], PutBlob(0, Blob), Putting(1, prim), CommitBatch(0), Settle(prim, 0, map[]));
  }

  // ---------------------------------------------------------------- one compaction

  /** The worlds inside the compaction that follows. */
  function Midway(prim: Prim, n: nat, phase: Phase, others: map<nat, Proc>): World {
    var me := others[0 := Running(MapsOf(n), None, phase, Quiet)];
    var g := Gen(PackOf(n), Entries(prim));
    if phase.Copying? then
      World(Shared(History(prim, n), g, map[], map[n := n, n + 1 := n + 1], Copies(n + 1) + [[]], Held(0, true)), me)
    else
      var names := if phase == Switched then map[n := n, n + 1 := n + 1] else map[n + 1 := n + 1];
      World(Shared(History(prim, n + 1), g.(file := PackOf(n + 1)), map[], names, Copies(n + 2), Held(0, false)), me)
  }

  lemma KeepsBlob(h: Id, entries: map<Id, Entry>)
    requires entries == map[h := Entry(0, 1, 1)]
    ensures Survivors(entries, {h}) == [h]
    ensures InBounds(Blob, entries, [h]) && Packed(Blob, entries, [h]) == Blob && Moved(entries, [h]) == entries
  {
    var keys := Survivors(entries, {h});
    assert h in keys;
    if |keys| > 1 {
      SurvivorsDistinct(entries, {h});
      assert keys[0] in keys && keys[1] in keys;
    }
    assert [h][..0] == [];
    assert Packed(Blob, entries, [h]) == Packed(Blob, entries, []) + Blob[0..1];
    assert Moved(entries, [h]) == Moved(entries, [])[h := Entry(0, 1, 1)];
  }

  lemma CompactStarts(prim: Prim, n: nat, others: map<nat, Proc>)
    requires 0 !in others
    ensures Step(prim, Settle(prim, n, others), StartCompact(0)) == Some(Midway(prim, n, Copying(n + 1), others))
  {
    Goes(prim, Settle(prim, n, others), StartCompact(0), Midway(prim, n, Copying(n + 1), others));
  }

  lemma CopySwitched(prim: Prim, n: nat, others: map<nat, Proc>)
    requires InBounds(Blob, Entries(prim), [prim.hash(Blob)])
    requires Packed(Blob, Entries(prim), [prim.hash(Blob)]) == Blob && Moved(Entries(prim), [prim.hash(Blob)]) == Entries(prim)
    ensures SameShared(CompactCommit(0, Midway(prim, n, Copying(n + 1), others).s, Blob, n + 1, [prim.hash(Blob)]),
                       Midway(prim, n, Switched, others).s)
  {
    assert (Copies(n + 1) + [[]])[n + 1 := Blob] == Copies(n + 2);
    assert History(prim, n) + [Gen(PackOf(n), Entries(prim))] == History(prim, n + 1);
  }

  lemma CompactSwitches(prim: Prim, n: nat, others: map<nat, Proc>)
    requires 0 !in others
    ensures Step(prim, Midway(prim, n, Copying(n + 1), others), SwitchIndex(0, {prim.hash(Blob)}))
            == Some(Midway(prim, n, Switched, others))
  {
    var w := Midway(prim, n, Copying(n + 1), others);
    KeepsBlob(prim.hash(Blob), Entries(prim));
    assert FileOf(w.s, MapsOf(n)) == Blob;
    CopySwitched(prim, n, others);
    Goes(prim, w, SwitchIndex(0, {prim.hash(Blob)}), Midway(prim, n, Switched, others));
  }

  lemma CompactUnlinks(prim: Prim, n: nat, others: map<nat, Proc>)
    requires 0 !in others
    ensures Step(prim, Midway(prim, n, Switched, others), UnlinkOld(0)) == Some(Midway(prim, n, Unlinked, others))
  {
    Goes(prim, Midway(prim, n, Switched, others), UnlinkOld(0), Midway(prim, n, Unlinked, others));
  }

  lemma CompactEnds(prim: Prim, n: nat, others: map<nat, Proc>)
    requires 0 !in others
    ensures Step(prim, Midway(prim, n, Unlinked, others), EndCompact(0)) == Some(Settle(prim, n + 1, others))
  {
    FindRetiredIs(MapsOf(n).retired, n + 1);
    Goes(prim, Midway(prim, n, Unlinked, others), EndCompact(0), Settle(prim, n + 1, others));
  }

  function Compaction(prim: Prim): seq<Action> {
    [StartCompact(0), SwitchIndex(0, {prim.hash(Blob)}), UnlinkOld(0), EndCompact(0)]
  }

  lemma TwoSteps(prim: Prim, ws0: seq<World>, acts0: seq<Action>, a: Action, v: World, b: Action, w: World)
    returns (ws: seq<World>)
    requires IsRun(prim, ws0, acts0)
    requires Step(prim, ws0[|ws0| - 1], a) == Some(v) && Step(prim, v, b) == Some(w)
    ensures IsRun(prim, ws, acts0 + [a, b]) && ws0 <= ws && |ws| == |ws0| + 2 && ws[|ws| - 1] == w
  {
    Extend(prim, ws0, acts0, a, v);
    Extend(prim, ws0 + [v], acts0 + [a], b, w);
    assert acts0 + [a] + [b] == acts0 + [a, b];
    ws := ws0 + [v] + [w];
  }

  lemma CompactsHalf(prim: Prim, ws0: seq<World>, acts0: seq<Action>, n: nat, others: map<nat, Proc>)
    returns (ws: seq<World>)
    requires IsRun(prim, ws0, acts0) && ws0[|ws0| - 1] == Settle(prim, n, others) && 0 !in others
    ensures IsRun(prim, ws, acts0 + [StartCompact(0), SwitchIndex(0, {prim.hash(Blob)})])
    ensures ws[0] == ws0[0] && |ws| == |ws0| + 2 && ws[|ws| - 1] == Midway(prim, n, Switched, others)
  {
    CompactStarts(prim, n, others);
    CompactSwitches(prim, n, others);
    ws := TwoSteps(prim, ws0, acts0, StartCompact(0), Midway(prim, n, Copying(n + 1), others),
                   SwitchIndex(0, {prim.hash(Blob)}), Midway(prim, n, Switched, others));
  }

  lemma Compacts(prim: Prim, ws0: seq<World>, acts0: seq<Action>, n: nat, others: map<nat, Proc>)
    returns (ws: seq<World>)
    requires IsRun(prim, ws0, acts0) && ws0[|ws0| - 1] == Settle(prim, n, others) && 0 !in others
    ensures IsRun(prim, ws, acts0 + Compaction(prim)) && ws[0] == ws0[0] && |ws| == |ws0| + 4
    ensures ws[|ws| - 1] == Settle(prim, n + 1, others)
  {
    var half := [StartCompact(0), SwitchIndex(0, {prim.hash(Blob)})];
    ws := CompactsHalf(prim, ws0, acts0, n, others);
    CompactUnlinks(prim, n, others);
    CompactEnds(prim, n, others);
    assert acts0 + half + [UnlinkOld(0), EndCompact(0)] == acts0 + Compaction(prim);
    ws := TwoSteps(prim, ws, acts0 + half, UnlinkOld(0), Midway(prim, n, Unlinked, others), EndCompact(0),
                   Settle(prim, n + 1, others));
  }

  // ---------------------------------------------------------------- open_once racing a compaction

  function Reading(prim: Prim, gen: nat): Reader {
    Looked(prim.hash(Blob), Entry(0, 1, 1), gen, 0, gen, Blob)
  }

  /** After process 1 unlinked the live pack. */
  function Unlinked1(prim: Prim): World {
    var w := Settle(prim, 1, map[1 := Opening(0, true)]);
    w.(s := w.s.(names := map[]))
  }

  /** And after process 2 opened: an empty pack.1 for an index that lists the blob. */
  function Replaced(prim: Prim, r: Reader): World {
    var w := Settle(prim, 1, map[1 := Opening(0, true), 2 := Running(Maps(Some(Mapping(1, 2)), []), None, Settled, r)]);
    w.(s := w.s.(names := map[1 := 2], files := Copies(2) + [[]]))
  }

  lemma StaleCleans(prim: Prim)
    ensures Step(prim, Settle(prim, 1, map[1 := Opening(0, false)]), OpenClean(1)) == Some(Unlinked1(prim))
    ensures Stale(Settle(prim, 1, map[1 := Opening(0, false)]), OpenClean(1))
  {
    var w := Settle(prim, 1, map[1 := Opening(0, false)]);
    assert Cleanup(w.s, 0).names == map[];
    Goes(prim, w, OpenClean(1), Unlinked1(prim));
  }

  /** Process 2 in the middle of opening. */
  function Follows2(prim: Prim, cleaned: bool): World {
    var w := Unlinked1(prim);
    w.(procs := w.procs[2 := Opening(1, cleaned)])
  }

  lemma NextOpens(prim: Prim)
    ensures Step(prim, Unlinked1(prim), OpenRead(2)) == Some(Follows2(prim, false))
    ensures Step(prim, Follows2(prim, false), OpenClean(2)) == Some(Follows2(prim, true))
    ensures Step(prim, Follows2(prim, true), OpenMap(2)) == Some(Replaced(prim, Quiet))
  {
    assert Cleanup(Follows2(prim, false).s, 1).names == map[];
    Goes(prim, Unlinked1(prim), OpenRead(2), Follows2(prim, false));
    Goes(prim, Follows2(prim, false), OpenClean(2), Follows2(prim, true));
    NextMapsNew(prim);
  }

  lemma NextMapsNew(prim: Prim)
    ensures Step(prim, Follows2(prim, true), OpenMap(2)) == Some(Replaced(prim, Quiet))
  {
    Goes(prim, Follows2(prim, true), OpenMap(2), Replaced(prim, Quiet));
  }

  lemma NextLooksUp(prim: Prim)
    ensures Step(prim, Replaced(prim, Quiet), Lookup(2, prim.hash(Blob))) == Some(Replaced(prim, Reading(prim, 1)))
  {
    var w := Replaced(prim, Quiet);
    assert w.s.live.file == Some(1) && w.s.files[1] == Blob && Blob[0..1] == Blob;
    assert LookUp(prim, w.s, prim.hash(Blob), 0, 1) == Reading(prim, 1);
    Goes(prim, w, Lookup(2, prim.hash(Blob)), Replaced(prim, Reading(prim, 1)));
  }

  lemma NextMaps(prim: Prim)
    ensures var r := Located(prim.hash(Blob), Entry(0, 1, 1), 1, 2, Blob);
            && Step(prim, Replaced(prim, Reading(prim, 1)), Map(2)) == Some(Replaced(prim, r))
            && LostFor(prim, Replaced(prim, r), 2, prim.hash(Blob))
  {
    var r := Located(prim.hash(Blob), Entry(0, 1, 1), 1, 2, Blob);
    Goes(prim, Replaced(prim, Reading(prim, 1)), Map(2), Replaced(prim, r));
  }

  /**
   * `open_once` racing a compaction: process 1 reads generation 0, process 0 compacts to generation 1, process 1
   * takes the free flock and unlinks pack.1. Process 2 then finds the blob in the index and nothing in the pack.
   */
  lemma StaleOpenLosesBlob(prim: Prim) returns (ws: seq<World>, acts: seq<Action>)
    ensures IsRun(prim, ws, acts) && ws[0] == Start
    ensures exists i :: 0 <= i < |acts| && acts[i] == OpenClean(1) && Stale(ws[i], acts[i])
    ensures LostFor(prim, ws[|ws| - 1], 2, prim.hash(Blob))
  {
    ws := OneBlobReached(prim);
    acts := FirstPut;
    var w := Settle(prim, 0, map[1 := Opening(0, false)]);
    Goes(prim, Settle(prim, 0, map[]), OpenRead(1), w);
    Extend(prim, ws, acts, OpenRead(1), w);
    ws, acts := ws + [w], acts + [OpenRead(1)];
    ws := Compacts(prim, ws, acts, 0, map[1 := Opening(0, false)]);
    acts := acts + Compaction(prim);
    var i := |acts|;
    StaleCleans(prim);
    Extend(prim, ws, acts, OpenClean(1), Unlinked1(prim));
    ws, acts := ws + [Unlinked1(prim)], acts + [OpenClean(1)];
    assert acts[i] == OpenClean(1) && Stale(ws[i], acts[i]);
    ws, acts := LastReads(prim, ws, acts);
  }

  lemma LastOpens(prim: Prim, ws0: seq<World>, acts0: seq<Action>) returns (ws: seq<World>)
    requires IsRun(prim, ws0, acts0) && ws0[|ws0| - 1] == Unlinked1(prim)
    ensures IsRun(prim, ws, acts0 + [OpenRead(2), OpenClean(2)]) && ws0 <= ws
    ensures ws[|ws| - 1] == Follows2(prim, true)
  {
    NextOpens(prim);
    ws := TwoSteps(prim, ws0, acts0, OpenRead(2), Follows2(prim, false), OpenClean(2), Follows2(prim, true));
  }

  lemma LastMaps(prim: Prim, ws0: seq<World>, acts0: seq<Action>) returns (ws: seq<World>)
    requires IsRun(prim, ws0, acts0) && ws0[|ws0| - 1] == Follows2(prim, true)
    ensures IsRun(prim, ws, acts0 + [OpenMap(2), Lookup(2, prim.hash(Blob))]) && ws0 <= ws
    ensures ws[|ws| - 1] == Replaced(prim, Reading(prim, 1))
  {
    NextMapsNew(prim);
    NextLooksUp(prim);
    ws := TwoSteps(prim, ws0, acts0, OpenMap(2), Replaced(prim, Quiet), Lookup(2, prim.hash(Blob)),
                   Replaced(prim, Reading(prim, 1)));
  }

  lemma LastReads(prim: Prim, ws0: seq<World>, acts0: seq<Action>) returns (ws: seq<World>, acts: seq<Action>)
    requires IsRun(prim, ws0, acts0) && ws0[|ws0| - 1] == Unlinked1(prim)
    ensures IsRun(prim, ws, acts) && ws0 <= ws && acts0 <= acts
    ensures LostFor(prim, ws[|ws| - 1], 2, prim.hash(Blob))
  {
    NextMaps(prim);
    var w := Replaced(prim, Located(prim.hash(Blob), Entry(0, 1, 1), 1, 2, Blob));
    ws := LastOpens(prim, ws0, acts0);
    acts := acts0 + [OpenRead(2), OpenClean(2)];
    ws := LastMaps(prim, ws, acts);
    acts := acts + [OpenMap(2), Lookup(2, prim.hash(Blob))];
    Extend(prim, ws, acts, Map(2), w);
    ws, acts := ws + [w], acts + [Map(2)];
  }

  // ---------------------------------------------------------------- a reader thread beside its own writer thread

  /** Process 1 with pack.0 mapped, its reader thread at `r`. */
  function Beside(r: Reader): map<nat, Proc> {
    map[1 := Running(Maps(Some(Mapping(0, 0)), []), None, Settled, r)]
  }

  /** Its writer thread has opened a batch in generation 2; then the reader thread mapped generation 1. */
  function Racing(prim: Prim, mapped: bool): World {
    var s := Settle(prim, 2, map[]).s.(lock := Held(1, true));
    var s' := if mapped then s.(names := map[2 := 2, 1 := 3], files := Copies(3) + [[]]) else s;
    var b := Batch(Entries(prim), map[], 1, 1, 0, Blob);
    var maps := Maps(Some(Mapping(2, 2)), if mapped then [Mapping(0, 0), Mapping(1, 3)] else [Mapping(0, 0)]);
    var r := if mapped then Located(prim.hash(Blob), Entry(0, 1, 1), 1, 3, Blob) else Reading(prim, 1);
    World(s', Settle(prim, 2, map[1 := Running(maps, Some(b), Settled, r)]).procs)
  }

  lemma RaceLooksUp(prim: Prim)
    ensures Step(prim, Settle(prim, 1, Beside(Quiet)), Lookup(1, prim.hash(Blob)))
            == Some(Settle(prim, 1, Beside(Reading(prim, 1))))
  {
    var w := Settle(prim, 1, Beside(Quiet));
    assert w.s.live.file == Some(1) && w.s.files[1] == Blob && Blob[0..1] == Blob;
    assert LookUp(prim, w.s, prim.hash(Blob), 0, 1) == Reading(prim, 1);
    Goes(prim, w, Lookup(1, prim.hash(Blob)), Settle(prim, 1, Beside(Reading(prim, 1))));
  }

  lemma RaceBegins(prim: Prim)
    ensures Step(prim, Settle(prim, 2, Beside(Reading(prim, 1))), BeginBatch(1)) == Some(Racing(prim, false))
  {
    var w := Settle(prim, 2, Beside(Reading(prim, 1)));
    assert w.s.names[2] == 2 && w.s.files[2] == Blob;
    Goes(prim, w, BeginBatch(1), Racing(prim, false));
  }

  lemma RaceMaps(prim: Prim)
    ensures Stale(Racing(prim, false), Map(1))
    ensures Step(prim, Racing(prim, false), Map(1)) == Some(Racing(prim, true))
    ensures LostFor(prim, Racing(prim, true), 1, prim.hash(Blob))
  {
    var w := Racing(prim, false);
    var maps := w.procs[1].maps;
    assert FindRetired([Mapping(0, 0)], 1) == FindRetired([Mapping(0, 0)][1..], 1) == None;
    assert FindMapping(maps, 1) == None && 1 !in w.s.names;
    assert CreatePack(w.s, 1).names == map[2 := 2, 1 := 3];
    Goes(prim, w, Map(1), Racing(prim, true));
  }

  lemma RaceEnds(prim: Prim, ws0: seq<World>, acts0: seq<Action>) returns (ws: seq<World>, acts: seq<Action>)
    requires IsRun(prim, ws0, acts0) && ws0[|ws0| - 1] == Settle(prim, 2, Beside(Reading(prim, 1)))
    ensures IsRun(prim, ws, acts) && ws0 <= ws
    ensures exists i :: 0 <= i < |acts| && acts[i] == Map(1) && Stale(ws[i], acts[i])
    ensures LostFor(prim, ws[|ws| - 1], 1, prim.hash(Blob))
  {
    RaceBegins(prim);
    RaceMaps(prim);
    Extend(prim, ws0, acts0, BeginBatch(1), Racing(prim, false));
    ws, acts := ws0 + [Racing(prim, false)], acts0 + [BeginBatch(1)];
    Extend(prim, ws, acts, Map(1), Racing(prim, true));
    var i := |acts|;
    ws, acts := ws + [Racing(prim, true)], acts + [Map(1)];
    assert acts[i] == Map(1) && Stale(ws[i], acts[i]);
  }

  lemma BesideReads(prim: Prim)
    ensures Step(prim, Settle(prim, 0, map[]), OpenRead(1)) == Some(Settle(prim, 0, map[1 := Opening(0, false)]))
  {
    Goes(prim, Settle(prim, 0, map[]), OpenRead(1), Settle(prim, 0, map[1 := Opening(0, false)]));
  }

  lemma BesideCleans(prim: Prim)
    ensures Step(prim, Settle(prim, 0, map[1 := Opening(0, false)]), OpenClean(1))
            == Some(Settle(prim, 0, map[1 := Opening(0, true)]))
  {
    var w := Settle(prim, 0, map[1 := Opening(0, false)]);
    assert Cleanup(w.s, 0).names == w.s.names;
    Goes(prim, w, OpenClean(1), Settle(prim, 0, map[1 := Opening(0, true)]));
  }

  lemma BesideMaps(prim: Prim)
    ensures Step(prim, Settle(prim, 0, map[1 := Opening(0, true)]), OpenMap(1)) == Some(Settle(prim, 0, Beside(Quiet)))
  {
    Goes(prim, Settle(prim, 0, map[1 := Opening(0, true)]), OpenMap(1), Settle(prim, 0, Beside(Quiet)));
  }

  lemma RaceStarts(prim: Prim) returns (ws: seq<World>, acts: seq<Action>)
    ensures IsRun(prim, ws, acts) && ws[0] == Start && ws[|ws| - 1] == Settle(prim, 0, Beside(Quiet))
  {
    ws := OneBlobReached(prim);
    acts := FirstPut;
    var w, w' := Settle(prim, 0, map[1 := Opening(0, false)]), Settle(prim, 0, map[1 := Opening(0, true)]);
    BesideReads(prim);
    BesideCleans(prim);
    BesideMaps(prim);
    ws := TwoSteps(prim, ws, acts, OpenRead(1), w, OpenClean(1), w');
    acts := acts + [OpenRead(1), OpenClean(1)];
    Extend(prim, ws, acts, OpenMap(1), Settle(prim, 0, Beside(Quiet)));
    ws, acts := ws + [Settle(prim, 0, Beside(Quiet))], acts + [OpenMap(1)];
  }

  /** Process 1 has looked the blob up in generation 1 and not mapped it yet. */
  lemma LookedUp(prim: Prim) returns (ws: seq<World>, acts: seq<Action>)
    ensures IsRun(prim, ws, acts) && ws[0] == Start && ws[|ws| - 1] == Settle(prim, 1, Beside(Reading(prim, 1)))
  {
    ws, acts := RaceStarts(prim);
    ws := Compacts(prim, ws, acts, 0, Beside(Quiet));
    acts := acts + Compaction(prim);
    RaceLooksUp(prim);
    var w := Settle(prim, 1, Beside(Reading(prim, 1)));
    Extend(prim, ws, acts, Lookup(1, prim.hash(Blob)), w);
    ws, acts := ws + [w], acts + [Lookup(1, prim.hash(Blob))];
  }

  /**
   * A reader thread looks up generation 1, process 0 compacts to generation 2, the reader's own process opens a batch,
   * and `locate`, seeing an open batch, creates an empty pack.1: the committed blob reads as truncated.
   */
  lemma StaleMapLosesBlob(prim: Prim) returns (ws: seq<World>, acts: seq<Action>)
    ensures IsRun(prim, ws, acts) && ws[0] == Start
    ensures exists i :: 0 <= i < |acts| && acts[i] == Map(1) && Stale(ws[i], acts[i])
    ensures LostFor(prim, ws[|ws| - 1], 1, prim.hash(Blob))
  {
    ws, acts := LookedUp(prim);
    ws := Compacts(prim, ws, acts, 1, Beside(Reading(prim, 1)));
    acts := acts + Compaction(prim);
    ws, acts := RaceEnds(prim, ws, acts);
  }

  // ---------------------------------------------------------------- open_once overtaken after its cleanup

  /** Process 2 in the middle of opening in generation 1, process 1 still between its lookup and its mapping. */
  function Late(prim: Prim, cleaned: bool): map<nat, Proc> {
    Beside(Reading(prim, 1))[2 := Opening(1, cleaned)]
  }

  /** Process 2 has mapped a new empty pack.1; then process 1's reader maps it too. */
  function Overtaken(prim: Prim, mapped: bool): World {
    var r := if mapped then Located(prim.hash(Blob), Entry(0, 1, 1), 1, 3, Blob) else Reading(prim, 1);
    var maps := if mapped then Maps(Some(Mapping(1, 3)), [Mapping(0, 0)]) else Maps(Some(Mapping(0, 0)), []);
    var w := Settle(prim, 2, map[1 := Running(maps, None, Settled, r), 2 := Opened(1, 3)]);
    w.(s := w.s.(names := map[2 := 2, 1 := 3], files := Copies(3) + [[]]))
  }

  lemma LateOpens(prim: Prim)
    ensures var w := Settle(prim, 1, Beside(Reading(prim, 1)));
            && Step(prim, w, OpenRead(2)) == Some(Settle(prim, 1, Late(prim, false)))
            && Step(prim, Settle(prim, 1, Late(prim, false)), OpenClean(2)) == Some(Settle(prim, 1, Late(prim, true)))
            && !Stale(Settle(prim, 1, Late(prim, false)), OpenClean(2))
  {
    var w := Settle(prim, 1, Late(prim, false));
    Goes(prim, Settle(prim, 1, Beside(Reading(prim, 1))), OpenRead(2), w);
    assert Cleanup(w.s, 1).names == w.s.names;
    Goes(prim, w, OpenClean(2), Settle(prim, 1, Late(prim, true)));
  }

  lemma LateMaps(prim: Prim)
    ensures Stale(Settle(prim, 2, Late(prim, true)), OpenMap(2))
    ensures Step(prim, Settle(prim, 2, Late(prim, true)), OpenMap(2)) == Some(Overtaken(prim, false))
  {
    var w := Settle(prim, 2, Late(prim, true));
    assert CreatePack(w.s, 1).names == map[2 := 2, 1 := 3];
    Goes(prim, w, OpenMap(2), Overtaken(prim, false));
  }

  lemma LateReads(prim: Prim)
    ensures Step(prim, Overtaken(prim, false), Map(1)) == Some(Overtaken(prim, true))
    ensures LostFor(prim, Overtaken(prim, true), 1, prim.hash(Blob))
  {
    var w := Overtaken(prim, false);
    assert FindMapping(w.procs[1].maps, 1) == None && w.s.names[1] == 3;
    Goes(prim, w, Map(1), Overtaken(prim, true));
  }

  /**
   * A reader thread looks up generation 1; process 2 opens, with a cleanup that is in order; process 0 compacts to
   * generation 2; process 2 goes on to map generation 1 and creates an empty pack.1, which the reader then maps.
   */
  lemma LateOpenLosesBlob(prim: Prim) returns (ws: seq<World>, acts: seq<Action>)
    ensures IsRun(prim, ws, acts) && ws[0] == Start
    ensures exists i :: 0 <= i < |acts| && acts[i] == OpenMap(2) && Stale(ws[i], acts[i])
    ensures LostFor(prim, ws[|ws| - 1], 1, prim.hash(Blob))
  {
    ws, acts := LookedUp(prim);
    LateOpens(prim);
    ws := TwoSteps(prim, ws, acts, OpenRead(2), Settle(prim, 1, Late(prim, false)),
                   OpenClean(2), Settle(prim, 1, Late(prim, true)));
    acts := acts + [OpenRead(2), OpenClean(2)];
    ws := Compacts(prim, ws, acts, 1, Late(prim, true));
    acts := acts + Compaction(prim);
    var i := |acts|;
    LateMaps(prim);
    LateReads(prim);
    ws := TwoSteps(prim, ws, acts, OpenMap(2), Overtaken(prim, false), Map(1), Overtaken(prim, true));
    acts := acts + [OpenMap(2), Map(1)];
    assert acts[i] == OpenMap(2) && Stale(ws[i], acts[i]);
  }
}
