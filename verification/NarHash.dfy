/** `nar_sha256`: the archive through a buffer into a streaming hash. */
module NarHash {
  import opened Basics
  import opened TreeCodec
  import opened Cas
  import opened Gc
  import opened NarFormat
  import opened NarDump

  const HASH_BUF_SIZE: nat := 0x1_0000
  const HASH_DIRECT_THRESHOLD: nat := 256

  /** The state the sink closes over. `updates` are the calls of the hash so far, `input` all chunks so far. */
  class HashSink {
    var updates: seq<Bytes>
    var buf: Bytes
    var size: nat
    ghost var input: Bytes

    ghost predicate Buffered()
      reads this
    {
      && Concat(updates) + buf == input
      && |buf| <= HASH_BUF_SIZE
      && forall i :: 0 <= i < |updates| ==> updates[i] != []
    }

    ghost predicate Valid()
      reads this
    {
      Buffered() && size == |input| % U64
    }

    constructor ()
      ensures Valid() && updates == [] && buf == [] && size == 0 && input == []
    {
      updates, buf, size, input := [], [], 0, [];
    }

    method Update(chunk: Bytes)
      modifies this`updates
      ensures updates == old(updates) + [chunk] && Concat(updates) == Concat(old(updates)) + chunk
    {
      ConcatAppend(updates, [chunk]);
      assert Concat([chunk]) == chunk + Concat([]);
      updates := updates + [chunk];
    }

    method Flush()
      requires Buffered()
      modifies this`updates, this`buf
      ensures Buffered() && buf == [] && Concat(updates) == input
    {
      if buf != [] {
        Update(buf);
        buf := [];
      }
      assert Concat(updates) + [] == input;
    }

    /** The sink. Large chunks go straight to the hash, after what was buffered before them. */
    method Sink(chunk: Bytes)
      requires Valid()
      modifies this
      ensures Valid() && input == old(input) + chunk
      ensures |chunk| >= HASH_DIRECT_THRESHOLD ==> buf == []
    {
      size := (size + |chunk|) % U64;
      SizeOf(|input|, |chunk|);
      if |chunk| >= HASH_DIRECT_THRESHOLD {
        Flush();
        Update(chunk);
        input := input + chunk;
        assert Concat(updates) + [] == input;
        return;
      }
      if |buf| + |chunk| > HASH_BUF_SIZE {
        Flush();
      }
      buf := buf + chunk;
      input := input + chunk;
    }
  }

  lemma SizeOf(a: nat, b: nat)
    ensures (a % U64 + b) % U64 == (a + b) % U64
  {
  }

  lemma ArchiveAligned(f: Fs)
    ensures |Nar(f)| % U64 % 8 == 0
  {
    var n := |Nar(f)|;
    var q, r := n / U64, n % U64;
    assert n == q * U64 + r;
    assert (q * (U64 / 8)) * 8 == q * U64;
  }

  method SinkAll(sink: HashSink, chunks: seq<Bytes>)
    requires sink.Valid()
    modifies sink
    ensures sink.Valid() && sink.input == old(sink.input) + Concat(chunks)
  {
    assert chunks[0..] == chunks;
    for i := 0 to |chunks|
      invariant sink.Valid()
      invariant sink.input + Concat(chunks[i..]) == old(sink.input) + Concat(chunks)
    {
      assert chunks[i..][1..] == chunks[i + 1..];
      ghost var before := sink.input;
      sink.Sink(chunks[i]);
      assert before + (chunks[i] + Concat(chunks[i + 1..])) == (before + chunks[i]) + Concat(chunks[i + 1..]);
    }
    assert sink.input + [] == sink.input;
  }

  method HashChunks(chunks: seq<Bytes>, sha256: Bytes -> Bytes) returns (digest: Bytes, size: nat)
    ensures digest == sha256(Concat(chunks)) && size == |Concat(chunks)| % U64
  {
    var sink := new HashSink();
    SinkAll(sink, chunks);
    sink.Flush();
    assert [] + Concat(chunks) == Concat(chunks);
    digest, size := sha256(Concat(sink.updates)), sink.size;
  }

  /**
   * `nar_sha256`, with SHA-256 as a function of everything it was updated with. However the chunks fall into the
   * buffer, the digest is that of the archive; the size is its length, a multiple of eight.
   */
  method NarSha256(store: TreeStore, root: Id, sha256: Bytes -> Bytes) returns (r: Result<(Bytes, nat)>)
    ensures match FsOf(store.db.objs, DIRECTORY, root, 0)
            case Err(e) => r == Err(e)
            case Ok(tree) => r == Ok((sha256(Nar(tree)), |Nar(tree)| % U64)) && r.value.1 % 8 == 0
  {
    var dumped, chunks := Dump(store, root);
    if dumped.Err? {
      return Err(dumped.error);
    }
    ArchiveAligned(FsOf(store.db.objs, DIRECTORY, root, 0).value);
    var digest, size := HashChunks(chunks, sha256);
    r := Ok((digest, size));
  }
}
