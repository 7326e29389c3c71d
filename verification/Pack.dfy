/** The pack files, the index and the steps of `PackCas`, as functions on values. */
module Pack {
  import opened Basics
  import opened Primitives

  const MAP_SIZE: nat := 0x100_0000_0000      // kMapSize, 1 TiB
  const AUTO_SYNC_BYTES: nat := 0x1000_0000   // kAutoSyncBytes, 256 MiB
  const MIN_COMPRESS_SIZE: nat := 64
  const MAX_GENERATION_RETRIES: nat := 8

  // ---------------------------------------------------------------- blobs in a pack

  datatype Entry = Entry(off: nat, len: nat, rawLen: nat)

  /** What `put` writes for a blob: compressed when LZ4 makes it smaller. */
  function Stored(prim: Prim, data: Bytes): Bytes {
    if MIN_COMPRESS_SIZE <= |data| <= LZ4_MAX_INPUT_SIZE && prim.compress(data).Some?
    then prim.compress(data).value
    else data
  }

  function Decompress(prim: Prim, stored: Bytes, rawLen: nat): Result<Bytes> {
    if rawLen > LZ4_MAX_INPUT_SIZE || |stored| > INT32_MAX then Err(CorruptBlob)
    else
      var d := prim.decompress(stored, rawLen);
      if d.Some? && |d.value| == rawLen then Ok(d.value) else Err(CorruptBlob)
  }

  /** The bytes of a blob from what is stored for it. */
  function Expand(prim: Prim, stored: Bytes, rawLen: nat): Result<Bytes> {
    if rawLen == |stored| then Ok(stored) else Decompress(prim, stored, rawLen)
  }

  /** `pread_all`: an empty range needs no file bytes. */
  function Pread(file: Bytes, off: nat, len: nat): Result<Bytes> {
    if len == 0 then Ok([])
    else if off + len <= |file| then Ok(file[off..off + len])
    else Err(PackTruncated)
  }

  function ReadEntry(prim: Prim, file: Bytes, e: Entry): Result<Bytes> {
    var stored := Pread(file, e.off, e.len);
    if stored.Err? then stored else Expand(prim, stored.value, e.rawLen)
  }

  /** `pwrite_all` at an offset inside the file or at its end. */
  function Pwrite(file: Bytes, off: nat, data: Bytes): (r: Bytes)
    requires off <= |file|
    ensures |r| >= off + |data| && r[..off] == file[..off] && r[off..off + |data|] == data
  {
    if off + |data| <= |file| then file[..off] + data + file[off + |data|..] else file[..off] + data
  }

  /** The entry lies inside the file and reads as bytes whose hash is `h`. */
  ghost predicate Covered(prim: Prim, file: Bytes, e: Entry, h: Id) {
    && e.off + e.len <= |file|
    && ReadEntry(prim, file, e).Ok?
    && prim.hash(ReadEntry(prim, file, e).value) == h
  }

  ghost predicate Apart(a: Entry, b: Entry) {
    a.len == 0 || b.len == 0 || a.off + a.len <= b.off || b.off + b.len <= a.off
  }

  ghost predicate Disjoint(entries: map<Id, Entry>) {
    forall h, k :: h in entries && k in entries && h != k ==> Apart(entries[h], entries[k])
  }

  /** An entry only depends on the part of the file below its end. */
  lemma ReadFrame(prim: Prim, a: Bytes, b: Bytes, n: nat, e: Entry)
    requires n <= |a| && n <= |b| && a[..n] == b[..n] && e.off + e.len <= n
    ensures ReadEntry(prim, a, e) == ReadEntry(prim, b, e)
  {
    assert a[e.off..e.off + e.len] == a[..n][e.off..e.off + e.len];
    assert b[e.off..e.off + e.len] == b[..n][e.off..e.off + e.len];
  }

  /** What `put` writes reads back as the data, under the limits LZ4 imposes. */
  lemma StoredExpands(prim: Prim, data: Bytes)
    requires Sound(prim)
    ensures |Stored(prim, data)| <= |data|
    ensures Expand(prim, Stored(prim, data), |data|) == Ok(data)
    ensures |Stored(prim, data)| < |data| <==> 64 <= |data| <= 0x7E00_0000 && prim.compress(data).Some?
  {
  }

  lemma PwriteCovers(prim: Prim, file: Bytes, off: nat, data: Bytes)
    requires Sound(prim) && off <= |file|
    ensures var stored := Stored(prim, data);
            var e := Entry(off, |stored|, |data|);
            && Covered(prim, Pwrite(file, off, stored), e, prim.hash(data))
            && ReadEntry(prim, Pwrite(file, off, stored), e) == Ok(data)
  {
    StoredExpands(prim, data);
  }

  // ---------------------------------------------------------------- shared state

  /** One generation: the identity of its pack file, once created, and its committed index. */
  datatype Gen = Gen(file: Option<nat>, entries: map<Id, Entry>)

  /** The writer flock, and whether its holder also has the LMDB write transaction open. */
  datatype Lock = Free | Held(pid: nat, inTxn: bool)

  /**
   * What the processes share. `live` is the committed index and `|past|` the committed generation number;
   * `past` remembers how the earlier generations ended, for the proofs only: no step reads it.
   * Files are numbered by identity, so an unlinked file keeps its bytes; `names` maps N to the file now called pack.N.
   */
  datatype Shared = Shared(
    past: seq<Gen>,
    live: Gen,
    meta: map<Bytes, Bytes>,
    names: map<nat, nat>,
    files: seq<Bytes>,
    lock: Lock)
  {
    function Current(): nat { |past| }

    function GenAt(k: nat): Gen
      requires k <= |past|
    {
      if k < |past| then past[k] else live
    }

    function InTxn(): bool { lock.Held? && lock.inTxn }
  }

  const Empty := Shared([], Gen(None, map[]), map[], map[], [], Free)

  // ---------------------------------------------------------------- mappings of one process

  datatype Mapping = Mapping(gen: nat, file: nat)

  datatype Maps = Maps(cur: Option<Mapping>, retired: seq<Mapping>)

  function FindRetired(retired: seq<Mapping>, gen: nat): Option<Mapping> {
    if retired == [] then None
    else if retired[0].gen == gen then Some(retired[0])
    else FindRetired(retired[1..], gen)
  }

  function FindMapping(maps: Maps, gen: nat): Option<Mapping> {
    if maps.cur.Some? && maps.cur.value.gen == gen then maps.cur else FindRetired(maps.retired, gen)
  }

  function Remember(maps: Maps, m: Mapping): Maps {
    if maps.cur.None? then Maps(Some(m), maps.retired)
    else if m.gen > maps.cur.value.gen then Maps(Some(m), maps.retired + [maps.cur.value])
    else Maps(maps.cur, maps.retired + [m])
  }

  /** A new empty file under the name pack.`gen`. The pack of a generation is the first file created for it. */
  function CreatePack(s: Shared, gen: nat): Shared {
    var f := |s.files|;
    var live := if gen == s.Current() && s.live.file.None? then s.live.(file := Some(f)) else s.live;
    s.(names := s.names[gen := f], files := s.files + [[]], live := live)
  }

  /** `mapping_for` with `map_pack` inside: cached mapping, else open by name, creating the file if asked. */
  function MappingFor(s: Shared, maps: Maps, gen: nat, create: bool): (Shared, Maps, Option<Mapping>) {
    var found := FindMapping(maps, gen);
    if found.Some? then (s, maps, found)
    else if gen !in s.names && !create then (s, maps, None)
    else
      var s' := if gen in s.names then s else CreatePack(s, gen);
      var m := Mapping(gen, s'.names[gen]);
      (s', Remember(maps, m), Some(m))
  }

  // ---------------------------------------------------------------- the write batch

  /**
   * An open batch: the index and meta table as its transaction sees them, and the writer's offsets.
   * `base` remembers the pack as `begin_batch` found it, for the proofs only.
   */
  datatype Batch = Batch(
    entries: map<Id, Entry>,
    meta: map<Bytes, Bytes>,
    committedEnd: nat,
    end: nat,
    bytes: nat,
    base: Bytes)

  function FileOf(s: Shared, maps: Maps): Bytes {
    if maps.cur.Some? && maps.cur.value.file < |s.files| then s.files[maps.cur.value.file] else []
  }

  function WithFile(s: Shared, maps: Maps, content: Bytes): Shared {
    if maps.cur.Some? && maps.cur.value.file < |s.files|
    then s.(files := s.files[maps.cur.value.file := content])
    else s
  }

  /** `begin_batch`, once the flock is free. */
  function Begin(me: nat, s: Shared, maps: Maps): (Shared, Maps, Batch) {
    var (s1, maps1, m) := MappingFor(s, maps, s.Current(), true);
    var file := if m.Some? && m.value.file < |s1.files| then s1.files[m.value.file] else [];
    (s1.(lock := Held(me, true)), maps1, Batch(s.live.entries, s.meta, |file|, |file|, 0, file))
  }

  /** The part of `put` after the batch is open: the entry goes to the transaction, the bytes to the current pack. */
  function Put(prim: Prim, s: Shared, maps: Maps, b: Batch, data: Bytes): (Shared, Batch)
    requires b.end <= |FileOf(s, maps)|
  {
    var h := prim.hash(data);
    if h in b.entries then (s, b)
    else
      var stored := Stored(prim, data);
      var s' := WithFile(s, maps, Pwrite(FileOf(s, maps), b.end, stored));
      (s', b.(entries := b.entries[h := Entry(b.end, |stored|, |data|)],
              end := b.end + |stored|, bytes := b.bytes + |stored|))
  }

  /** `put` cut short inside `pwrite_all`: some bytes are written, the transaction and `end` are as before. */
  function TornPut(s: Shared, maps: Maps, b: Batch, some: Bytes): Shared
    requires b.end <= |FileOf(s, maps)|
  {
    WithFile(s, maps, Pwrite(FileOf(s, maps), b.end, some))
  }

  /** `commit_batch`. */
  function Commit(s: Shared, b: Batch): Shared {
    s.(live := s.live.(entries := b.entries), meta := b.meta, lock := Free)
  }

  function Truncate(file: Bytes, n: nat): Bytes {
    if n <= |file| then file[..n] else file + seq(n - |file|, i => 0)
  }

  /** `abort_batch`; `truncated` says whether `ftruncate` succeeded. */
  function Abort(s: Shared, maps: Maps, b: Batch, truncated: bool): Shared {
    var s' := if truncated then WithFile(s, maps, Truncate(FileOf(s, maps), b.committedEnd)) else s;
    s'.(lock := Free)
  }

  // ---------------------------------------------------------------- compaction

  function TotalLen(entries: map<Id, Entry>, keys: seq<Id>): nat
    requires forall k :: k in keys ==> k in entries
  {
    if keys == [] then 0
    else TotalLen(entries, keys[..|keys| - 1]) + entries[keys[|keys| - 1]].len
  }

  /** The new pack: the stored bytes of the kept blobs, one after the other. */
  function Packed(file: Bytes, entries: map<Id, Entry>, keys: seq<Id>): (r: Bytes)
    requires forall k :: k in keys ==> k in entries && entries[k].off + entries[k].len <= |file|
    ensures |r| == TotalLen(entries, keys)
  {
    if keys == [] then []
    else
      var e := entries[keys[|keys| - 1]];
      Packed(file, entries, keys[..|keys| - 1]) + file[e.off..e.off + e.len]
  }

  /** The new index: each kept blob where `Packed` puts it. */
  function Moved(entries: map<Id, Entry>, keys: seq<Id>): map<Id, Entry>
    requires forall k :: k in keys ==> k in entries
  {
    if keys == [] then map[]
    else
      var init := keys[..|keys| - 1];
      var e := entries[keys[|keys| - 1]];
      Moved(entries, init)[keys[|keys| - 1] := Entry(TotalLen(entries, init), e.len, e.rawLen)]
  }

  /** The keys a compaction keeps, in the cursor's order. */
  function Survivors(entries: map<Id, Entry>, live: set<Id>): (keys: seq<Id>)
    ensures Sorted(keys)
    ensures forall k :: k in keys <==> k in entries && k in live
  {
    SortedKeys(entries.Keys * live)
  }

  predicate InBounds(file: Bytes, entries: map<Id, Entry>, keys: seq<Id>) {
    forall k :: k in keys ==> k in entries && entries[k].off + entries[k].len <= |file|
  }

  /** `Mapping::view` refuses ranges beyond the mapped size. */
  predicate Viewable(entries: map<Id, Entry>, keys: seq<Id>) {
    forall k :: k in keys ==> k in entries && entries[k].off + entries[k].len <= MAP_SIZE
  }

  /** Open pack.(N + 1) with O_CREAT and O_TRUNC. */
  function PrepareNext(s: Shared): Shared {
    var next := s.Current() + 1;
    if next in s.names && s.names[next] < |s.files|
    then s.(files := s.files[s.names[next] := []])
    else CreatePack(s, next)
  }

  /** Take the flock and the transaction, map the live pack, create or empty the next pack. */
  function CompactStart(me: nat, s: Shared, maps: Maps): (Shared, Maps, nat) {
    var (s1, maps1, _) := MappingFor(s, maps, s.Current(), true);
    var s2 := PrepareNext(s1.(lock := Held(me, true)));
    (s2, maps1, s2.names[s.Current() + 1])
  }

  /** Switch to the new generation: one transaction replaces the index and the generation number. */
  function CompactCommit(me: nat, s: Shared, file: Bytes, newFile: nat, keys: seq<Id>): Shared
    requires InBounds(file, s.live.entries, keys) && newFile < |s.files|
  {
    s.(past := s.past + [s.live],
       live := Gen(Some(newFile), Moved(s.live.entries, keys)),
       files := s.files[newFile := Packed(file, s.live.entries, keys)],
       lock := Held(me, false))
  }

  // ---------------------------------------------------------------- facts about compaction

  lemma {:induction false} MovedKeys(entries: map<Id, Entry>, keys: seq<Id>)
    requires forall k :: k in keys ==> k in entries
    ensures Moved(entries, keys).Keys == set k | k in keys
  {
    if keys != [] {
      var init := keys[..|keys| - 1];
      assert keys == init + [keys[|keys| - 1]];
      MovedKeys(entries, init);
    }
  }

  predicate Distinct(keys: seq<Id>) {
    forall i, j :: 0 <= i < j < |keys| ==> keys[i] != keys[j]
  }

  lemma {:induction false} TotalLenMonotone(entries: map<Id, Entry>, keys: seq<Id>, i: nat)
    requires forall k :: k in keys ==> k in entries
    requires i <= |keys|
    ensures TotalLen(entries, keys[..i]) <= TotalLen(entries, keys)
    decreases |keys|
  {
    if i == |keys| {
      assert keys[..i] == keys;
    } else {
      var init := keys[..|keys| - 1];
      assert init[..i] == keys[..i];
      TotalLenMonotone(entries, init, i);
    }
  }

  lemma {:induction false} MovedOffset(entries: map<Id, Entry>, keys: seq<Id>, i: nat)
    requires forall k :: k in keys ==> k in entries
    requires Distinct(keys) && i < |keys|
    ensures keys[i] in Moved(entries, keys)
    ensures Moved(entries, keys)[keys[i]] ==
            Entry(TotalLen(entries, keys[..i]), entries[keys[i]].len, entries[keys[i]].rawLen)
    decreases |keys|
  {
    var init := keys[..|keys| - 1];
    if i < |keys| - 1 {
      MovedOffset(entries, init, i);
      assert init[..i] == keys[..i];
    }
  }

  lemma TotalLenNext(entries: map<Id, Entry>, keys: seq<Id>, i: nat)
    requires forall k :: k in keys ==> k in entries
    requires i < |keys|
    ensures TotalLen(entries, keys[..i + 1]) == TotalLen(entries, keys[..i]) + entries[keys[i]].len
    ensures TotalLen(entries, keys[..i + 1]) <= TotalLen(entries, keys)
  {
    assert keys[..i + 1][..i] == keys[..i];
    TotalLenMonotone(entries, keys, i + 1);
  }

  lemma {:induction false} PackedSlice(file: Bytes, entries: map<Id, Entry>, keys: seq<Id>, i: nat)
    requires InBounds(file, entries, keys) && i < |keys|
    ensures var e, at := entries[keys[i]], TotalLen(entries, keys[..i]);
            at + e.len <= |Packed(file, entries, keys)| &&
            Packed(file, entries, keys)[at..at + e.len] == file[e.off..e.off + e.len]
    decreases |keys|
  {
    var init, last := keys[..|keys| - 1], entries[keys[|keys| - 1]];
    var e, at := entries[keys[i]], TotalLen(entries, keys[..i]);
    assert InBounds(file, entries, init);
    var front, back := Packed(file, entries, init), file[last.off..last.off + last.len];
    assert Packed(file, entries, keys) == front + back;
    if i < |keys| - 1 {
      PackedSlice(file, entries, init, i);
      assert init[..i] == keys[..i];
      SliceOfFront(front, back, at, at + e.len);
    } else {
      SliceOfBack(front, back);
    }
  }

  lemma SliceOfFront(a: Bytes, b: Bytes, lo: nat, hi: nat)
    requires lo <= hi <= |a|
    ensures (a + b)[lo..hi] == a[lo..hi]
  {
  }

  lemma SliceOfBack(a: Bytes, b: Bytes)
    ensures (a + b)[|a|..|a| + |b|] == b
  {
  }

  /** Where the i-th kept blob goes: right behind the ones before it, with its stored bytes unchanged. */
  lemma MovedAt(file: Bytes, entries: map<Id, Entry>, keys: seq<Id>, i: nat)
    requires InBounds(file, entries, keys) && Distinct(keys) && i < |keys|
    ensures keys[i] in Moved(entries, keys)
    ensures var was, now := entries[keys[i]], Moved(entries, keys)[keys[i]];
            && now == Entry(TotalLen(entries, keys[..i]), was.len, was.rawLen)
            && now.off + now.len == TotalLen(entries, keys[..i + 1]) <= |Packed(file, entries, keys)|
            && Packed(file, entries, keys)[now.off..now.off + now.len] == file[was.off..was.off + was.len]
  {
    MovedOffset(entries, keys, i);
    TotalLenNext(entries, keys, i);
    PackedSlice(file, entries, keys, i);
  }

  /** The new entries tile the new pack: sorted by key, each starts where the one before it ends, none overlap. */
  lemma MovedTiles(file: Bytes, entries: map<Id, Entry>, keys: seq<Id>)
    requires InBounds(file, entries, keys) && Distinct(keys)
    ensures Moved(entries, keys).Keys == set k | k in keys
    ensures keys != [] ==> Moved(entries, keys)[keys[0]].off == 0
    ensures forall i :: 0 < i < |keys| ==>
              var before := Moved(entries, keys)[keys[i - 1]];
              Moved(entries, keys)[keys[i]].off == before.off + before.len
    ensures keys != [] ==>
              var last := Moved(entries, keys)[keys[|keys| - 1]];
              last.off + last.len == |Packed(file, entries, keys)|
    ensures Disjoint(Moved(entries, keys))
  {
    MovedKeys(entries, keys);
    forall i | 0 <= i < |keys| ensures MovedSpan(entries, keys, i) {
      MovedAt(file, entries, keys, i);
    }
    if keys != [] {
      assert MovedSpan(entries, keys, 0) && keys[..0] == [];
      assert MovedSpan(entries, keys, |keys| - 1);
      assert keys[..|keys|] == keys;
    }
    forall i | 0 < i < |keys|
      ensures var before := Moved(entries, keys)[keys[i - 1]];
              Moved(entries, keys)[keys[i]].off == before.off + before.len
    {
      assert MovedSpan(entries, keys, i - 1) && MovedSpan(entries, keys, i);
    }
    MovedApart(file, entries, keys);
  }

  /** The i-th kept blob starts behind the ones before it and ends where the next one starts. */
  ghost predicate MovedSpan(entries: map<Id, Entry>, keys: seq<Id>, i: nat)
    requires i < |keys| && forall k :: k in keys ==> k in entries
  {
    && keys[i] in Moved(entries, keys)
    && Moved(entries, keys)[keys[i]].off == TotalLen(entries, keys[..i])
    && Moved(entries, keys)[keys[i]].off + Moved(entries, keys)[keys[i]].len == TotalLen(entries, keys[..i + 1])
  }

  lemma MovedApart(file: Bytes, entries: map<Id, Entry>, keys: seq<Id>)
    requires InBounds(file, entries, keys) && Distinct(keys)
    ensures Disjoint(Moved(entries, keys))
  {
    MovedKeys(entries, keys);
    var m := Moved(entries, keys);
    forall h, k | h in m && k in m && h != k ensures Apart(m[h], m[k]) {
      var i :| 0 <= i < |keys| && keys[i] == h;
      var j :| 0 <= j < |keys| && keys[j] == k;
      if i < j { MovedOrder(file, entries, keys, i, j); } else { MovedOrder(file, entries, keys, j, i); }
    }
  }

  lemma MovedOrder(file: Bytes, entries: map<Id, Entry>, keys: seq<Id>, i: nat, j: nat)
    requires InBounds(file, entries, keys) && Distinct(keys) && i < j < |keys|
    ensures keys[i] in Moved(entries, keys) && keys[j] in Moved(entries, keys)
    ensures Moved(entries, keys)[keys[i]].off + Moved(entries, keys)[keys[i]].len <= Moved(entries, keys)[keys[j]].off
  {
    MovedAt(file, entries, keys, i);
    MovedAt(file, entries, keys, j);
    assert keys[..j][..i + 1] == keys[..i + 1];
    assert forall k :: k in keys[..j] ==> k in keys;
    TotalLenMonotone(entries, keys[..j], i + 1);
  }

  /** Every kept blob reads from the new pack exactly as it read from the old one. */
  lemma MovedReads(prim: Prim, file: Bytes, entries: map<Id, Entry>, keys: seq<Id>, k: Id)
    requires InBounds(file, entries, keys) && Distinct(keys) && k in keys
    ensures k in Moved(entries, keys)
    ensures ReadEntry(prim, Packed(file, entries, keys), Moved(entries, keys)[k]) == ReadEntry(prim, file, entries[k])
    ensures Moved(entries, keys)[k].off + Moved(entries, keys)[k].len <= |Packed(file, entries, keys)|
  {
    var i :| 0 <= i < |keys| && keys[i] == k;
    MovedAt(file, entries, keys, i);
  }

  /** The offsets lo, ..., lo + n - 1. */
  function Range(lo: nat, n: nat): (r: set<nat>)
    ensures forall x :: x in r <==> lo <= x < lo + n
    ensures |r| == n
  {
    if n == 0 then {} else Range(lo, n - 1) + {lo + n - 1}
  }

  function AllCells(entries: map<Id, Entry>, keys: seq<Id>): set<nat>
    requires forall k :: k in keys ==> k in entries
  {
    if keys == [] then {}
    else
      var e := entries[keys[|keys| - 1]];
      AllCells(entries, keys[..|keys| - 1]) + Range(e.off, e.len)
  }

  lemma {:induction false} CellOwner(entries: map<Id, Entry>, keys: seq<Id>, x: nat) returns (i: nat)
    requires forall k :: k in keys ==> k in entries
    requires x in AllCells(entries, keys)
    ensures i < |keys| && entries[keys[i]].off <= x < entries[keys[i]].off + entries[keys[i]].len
  {
    var init := keys[..|keys| - 1];
    if x in AllCells(entries, init) {
      i := CellOwner(entries, init, x);
    } else {
      i := |keys| - 1;
    }
  }

  lemma {:induction false} CellsSize(entries: map<Id, Entry>, keys: seq<Id>)
    requires forall k :: k in keys ==> k in entries
    requires Distinct(keys) && Disjoint(entries)
    ensures |AllCells(entries, keys)| == TotalLen(entries, keys)
  {
    if keys != [] {
      var init := keys[..|keys| - 1];
      var last := entries[keys[|keys| - 1]];
      CellsSize(entries, init);
      forall x | x in AllCells(entries, init) ensures x !in Range(last.off, last.len) {
        var i := CellOwner(entries, init, x);
        assert Apart(entries[keys[i]], last);
      }
      assert AllCells(entries, init) * Range(last.off, last.len) == {};
    }
  }

  /** Compaction never makes the pack larger, because committed entries do not overlap. */
  lemma PackedNoLarger(file: Bytes, entries: map<Id, Entry>, keys: seq<Id>)
    requires InBounds(file, entries, keys) && Distinct(keys) && Disjoint(entries)
    ensures |Packed(file, entries, keys)| <= |file|
  {
    CellsSize(entries, keys);
    var all := Range(0, |file|);
    forall x | x in AllCells(entries, keys) ensures x in all {
      var i := CellOwner(entries, keys, x);
    }
    SubsetSize(AllCells(entries, keys), all);
  }
}
