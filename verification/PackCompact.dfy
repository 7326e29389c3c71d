/** The copying loop of `compact`: live blobs through a chunk buffer into the next pack, then the new index. */
module PackCompact {
  import opened Basics
  import opened Primitives
  import opened Pack
  import opened PackInvariant
  import opened PackMachine

  const COMPACT_CHUNK: nat := 0x40_0000  // kCompactChunk

  function LiveSet(entries: map<Id, Entry>, live: Id -> bool): set<Id> {
    set h | h in entries && live(h)
  }

  /** The keys to keep, in the cursor's order. */
  function LiveKeys(entries: map<Id, Entry>, live: Id -> bool): seq<Id> {
    Survivors(entries, LiveSet(entries, live))
  }

  /** `kept` is what a scan of the first keys keeps, in the cursor's order. */
  ghost predicate Kept(scanned: seq<Id>, live: Id -> bool, kept: seq<Id>) {
    && Sorted(kept)
    && forall k :: k in kept <==> k in scanned && live(k)
  }

  lemma KeptNext(keys: seq<Id>, i: nat, live: Id -> bool, kept: seq<Id>)
    requires Sorted(keys) && i < |keys| && Kept(keys[..i], live, kept)
    ensures Kept(keys[..i + 1], live, if live(keys[i]) then kept + [keys[i]] else kept)
  {
    assert keys[..i + 1] == keys[..i] + [keys[i]];
    forall j | 0 <= j < |kept| ensures Less(kept[j], keys[i]) {
      assert kept[j] in kept;
      var n :| 0 <= n < i && keys[n] == kept[j];
    }
  }

  lemma KeptAll(entries: map<Id, Entry>, live: Id -> bool, kept: seq<Id>)
    requires Kept(SortedKeys(entries.Keys), live, kept)
    ensures kept == LiveKeys(entries, live)
  {
    SortedUnique(kept, LiveKeys(entries, live));
  }

  /** The vector `keep`: each kept key with its entry in the new pack. */
  ghost predicate Listed(entries: map<Id, Entry>, kept: seq<Id>, keep: seq<(Id, Entry)>)
    requires forall k :: k in kept ==> k in entries
  {
    && |keep| == |kept|
    && forall j :: 0 <= j < |kept| ==>
         keep[j] == (kept[j], Entry(TotalLen(entries, kept[..j]), entries[kept[j]].len, entries[kept[j]].rawLen))
  }

  lemma ListedNext(entries: map<Id, Entry>, kept: seq<Id>, keep: seq<(Id, Entry)>, k: Id)
    requires (forall k :: k in kept ==> k in entries) && Listed(entries, kept, keep) && k in entries
    ensures var e := entries[k];
            && (forall x :: x in kept + [k] ==> x in entries)
            && Listed(entries, kept + [k], keep + [(k, Entry(TotalLen(entries, kept), e.len, e.rawLen))])
            && TotalLen(entries, kept + [k]) == TotalLen(entries, kept) + e.len
  {
    var kept' := kept + [k];
    forall j | 0 <= j < |kept'| ensures kept'[..j] == if j < |kept| then kept[..j] else kept {}
    assert kept'[..|kept|] == kept;
  }

  lemma InBoundsNext(file: Bytes, entries: map<Id, Entry>, kept: seq<Id>, k: Id)
    requires InBounds(file, entries, kept) && k in entries && entries[k].off + entries[k].len <= |file|
    ensures InBounds(file, entries, kept + [k])
  {
  }

  lemma PackedNext(file: Bytes, entries: map<Id, Entry>, kept: seq<Id>, k: Id)
    requires InBounds(file, entries, kept) && k in entries && entries[k].off + entries[k].len <= |file|
    ensures InBounds(file, entries, kept + [k])
    ensures Packed(file, entries, kept + [k])
            == Packed(file, entries, kept) + file[entries[k].off..entries[k].off + entries[k].len]
  {
    InBoundsNext(file, entries, kept, k);
    PushedLast(kept, k);
    PackedLast(file, entries, kept + [k], kept, k);
  }

  lemma PushedLast(kept: seq<Id>, k: Id)
    ensures (kept + [k])[..|kept + [k]| - 1] == kept && (kept + [k])[|kept + [k]| - 1] == k
  {
  }

  lemma PackedLast(file: Bytes, entries: map<Id, Entry>, keys: seq<Id>, init: seq<Id>, k: Id)
    requires keys != [] && keys[..|keys| - 1] == init && keys[|keys| - 1] == k
    requires InBounds(file, entries, keys) && InBounds(file, entries, init) && k in entries
    requires entries[k].off + entries[k].len <= |file|
    ensures Packed(file, entries, keys)
            == Packed(file, entries, init) + file[entries[k].off..entries[k].off + entries[k].len]
  {
  }

  /** `mdb_drop` and the puts that follow: the new index, entry by entry. */
  method Reindex(keep: seq<(Id, Entry)>, ghost entries: map<Id, Entry>, ghost kept: seq<Id>)
    returns (blobs: map<Id, Entry>)
    requires (forall k :: k in kept ==> k in entries) && Listed(entries, kept, keep)
    ensures blobs == Moved(entries, kept)
  {
    blobs := map[];
    for j := 0 to |keep|
      invariant forall k :: k in kept[..j] ==> k in entries
      invariant blobs == Moved(entries, kept[..j])
    {
      assert kept[..j + 1][..j] == kept[..j];
      blobs := blobs[keep[j].0 := keep[j].1];
    }
    assert kept[..|keep|] == kept;
  }

  /** After scanning some keys: the kept blobs are in the file and the buffer, and `keep` says where. */
  ghost predicate CopyInv(file: Bytes, entries: map<Id, Entry>, live: Id -> bool, scanned: seq<Id>,
                          bytes: Bytes, keep: seq<(Id, Entry)>, newOff: nat, kept: seq<Id>)
  {
    && Kept(scanned, live, kept)
    && InBounds(file, entries, kept) && Viewable(entries, kept)
    && bytes == Packed(file, entries, kept)
    && Listed(entries, kept, keep)
    && newOff == TotalLen(entries, kept)
  }

  lemma CopySkip(file: Bytes, entries: map<Id, Entry>, live: Id -> bool, keys: seq<Id>, i: nat,
                 bytes: Bytes, keep: seq<(Id, Entry)>, newOff: nat, kept: seq<Id>)
    requires Sorted(keys) && i < |keys| && CopyInv(file, entries, live, keys[..i], bytes, keep, newOff, kept)
    requires !live(keys[i])
    ensures CopyInv(file, entries, live, keys[..i + 1], bytes, keep, newOff, kept)
  {
    KeptNext(keys, i, live, kept);
  }

  lemma CopyKeep(file: Bytes, entries: map<Id, Entry>, live: Id -> bool, keys: seq<Id>, i: nat,
                 bytes: Bytes, keep: seq<(Id, Entry)>, newOff: nat, kept: seq<Id>)
    requires Sorted(keys) && i < |keys| && CopyInv(file, entries, live, keys[..i], bytes, keep, newOff, kept)
    requires keys[i] in entries && entries[keys[i]].off + entries[keys[i]].len <= |file|
    requires live(keys[i]) && entries[keys[i]].off + entries[keys[i]].len <= MAP_SIZE
    ensures var k := keys[i];
            var e := entries[k];
            CopyInv(file, entries, live, keys[..i + 1], bytes + file[e.off..e.off + e.len],
                    keep + [(k, Entry(newOff, e.len, e.rawLen))], newOff + e.len, kept + [k])
  {
    var k := keys[i];
    KeptNext(keys, i, live, kept);
    PackedNext(file, entries, kept, k);
    ListedNext(entries, kept, keep, k);
    ViewableNext(entries, kept, k);
  }

  lemma ViewableNext(entries: map<Id, Entry>, kept: seq<Id>, k: Id)
    requires (forall x :: x in kept ==> x in entries) && Viewable(entries, kept)
    requires k in entries && entries[k].off + entries[k].len <= MAP_SIZE
    ensures Viewable(entries, kept + [k])
  {
  }

  lemma CopyDone(file: Bytes, entries: map<Id, Entry>, live: Id -> bool, bytes: Bytes, keep: seq<(Id, Entry)>,
                 newOff: nat, kept: seq<Id>)
    requires CopyInv(file, entries, live, SortedKeys(entries.Keys), bytes, keep, newOff, kept)
    ensures kept == LiveKeys(entries, live)
    ensures InBounds(file, entries, kept) && Viewable(entries, kept)
    ensures bytes == Packed(file, entries, kept) && Listed(entries, kept, keep) && newOff == |bytes|
  {
    KeptAll(entries, live, kept);
  }

  /** The loop's variables: bytes in the file, bytes in the buffer, the entries to keep, the next offset. */
  datatype Copy = Copy(written: Bytes, buf: Bytes, keep: seq<(Id, Entry)>, newOff: nat)

  /** The loop's body for a live entry: `buf += stored`, and `write_all` when the buffer has reached a chunk. */
  method CopyOne(c: Copy, file: Bytes, hash: Id, entry: Entry) returns (c': Copy)
    requires entry.off + entry.len <= |file|
    ensures c'.written + c'.buf == (c.written + c.buf) + file[entry.off..entry.off + entry.len]
    ensures c'.keep == c.keep + [(hash, Entry(c.newOff, entry.len, entry.rawLen))]
    ensures c'.newOff == c.newOff + entry.len
    ensures |c'.buf| < COMPACT_CHUNK
  {
    var stored := file[entry.off..entry.off + entry.len];
    var buf := c.buf + stored;
    assert c.written + buf == (c.written + c.buf) + stored;
    var keep := c.keep + [(hash, Entry(c.newOff, entry.len, entry.rawLen))];
    c' := Copy(c.written, buf, keep, c.newOff + entry.len);
    if |buf| >= COMPACT_CHUNK {
      c' := c'.(written := c.written + buf, buf := []);
      assert c'.written + c'.buf == c.written + buf;
    }
  }

  lemma WholeScan(keys: seq<Id>)
    ensures keys[..|keys|] == keys
  {
  }

  lemma TooFar(entries: map<Id, Entry>, live: Id -> bool, k: Id)
    requires k in entries && live(k) && entries[k].off + entries[k].len > MAP_SIZE
    ensures !Viewable(entries, LiveKeys(entries, live))
  {
    assert k in LiveKeys(entries, live);
  }

  /** After scanning the first `i` keys. */
  ghost predicate CopyState(c: Copy, file: Bytes, entries: map<Id, Entry>, live: Id -> bool, keys: seq<Id>, i: nat, kept: seq<Id>) {
    i <= |keys| && CopyInv(file, entries, live, keys[..i], c.written + c.buf, c.keep, c.newOff, kept)
  }

  lemma CopyStart(file: Bytes, entries: map<Id, Entry>, live: Id -> bool, keys: seq<Id>)
    ensures CopyState(Copy([], [], [], 0), file, entries, live, keys, 0, [])
  {
    var none: Bytes := [];
    assert keys[..0] == [] && none + none == none;
  }

  /** One turn of the cursor loop; nothing if a live entry is beyond the mapped size. */
  method CopyTurn(c: Copy, file: Bytes, entries: map<Id, Entry>, live: Id -> bool, keys: seq<Id>, i: nat, ghost kept: seq<Id>)
    returns (r: Option<Copy>, ghost kept': seq<Id>)
    requires CopyState(c, file, entries, live, keys, i, kept) && Sorted(keys) && i < |keys| && keys[i] in entries
    requires entries[keys[i]].off + entries[keys[i]].len <= |file|
    ensures r.Some? ==> CopyState(r.value, file, entries, live, keys, i + 1, kept')
    ensures r.None? ==> live(keys[i]) && entries[keys[i]].off + entries[keys[i]].len > MAP_SIZE
  {
    kept' := kept;
    var hash := keys[i];
    if !live(hash) {
      CopySkip(file, entries, live, keys, i, c.written + c.buf, c.keep, c.newOff, kept);
      return Some(c), kept';
    }
    if entries[hash].off + entries[hash].len > MAP_SIZE {
      return None, kept';
    }
    CopyKeep(file, entries, live, keys, i, c.written + c.buf, c.keep, c.newOff, kept);
    var c' := CopyOne(c, file, hash, entries[hash]);
    kept' := kept + [hash];
    r := Some(c');
  }

  /**
   * The cursor loop: for each live key, its stored bytes go to the buffer and on to the file a chunk at a time. It
   * stops early only at a live entry beyond the mapped size.
   */
  method CopyLive(file: Bytes, entries: map<Id, Entry>, live: Id -> bool) returns (r: Option<Copy>)
    requires forall k :: k in entries ==> entries[k].off + entries[k].len <= |file|
    ensures r.Some? <==> Viewable(entries, LiveKeys(entries, live))
    ensures r.Some? ==>
              && InBounds(file, entries, LiveKeys(entries, live))
              && r.value.written == Packed(file, entries, LiveKeys(entries, live)) && r.value.buf == []
              && Listed(entries, LiveKeys(entries, live), r.value.keep)
              && r.value.newOff == |r.value.written|
  {
    var keys := SortedKeys(entries.Keys);
    var c := Copy([], [], [], 0);
    ghost var kept: seq<Id> := [];
    CopyStart(file, entries, live, keys);
    for i := 0 to |keys|
      invariant CopyState(c, file, entries, live, keys, i, kept)
    {
      assert keys[i] in keys;
      var next;
      next, kept := CopyTurn(c, file, entries, live, keys, i, kept);
      if next.None? {
        TooFar(entries, live, keys[i]);
        return None;
      }
      c := next.value;
    }
    WholeScan(keys);
    CopyDone(file, entries, live, c.written + c.buf, c.keep, c.newOff, kept);
    r := Some(c.(written := c.written + c.buf, buf := []));
  }
}
