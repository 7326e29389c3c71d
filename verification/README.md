# nix-tarmac, modelled and proved in Dafny

nix-tarmac keeps file system trees in a content-addressed store. This project models its three layers and proves what
each promises.

* **The pack store** (`src/pack_cas.cpp`): an append-only pack file per generation, an index from hash to
  `(off, len, raw_len)`, one write batch at a time under a file lock, compaction into the next generation, and readers
  that look up and map in two steps. `PackMachine` is a step machine of any number of processes, each with a writer and
  a reader thread, where a crash may come at any step. `PackStore.PackCas` is the same store as the object it is, its
  methods written as the code has them. Both are proved against the plain table of module `Cas`.
* **Trees** (`src/tree.cpp`): tar items folded into a tree in memory, flushed bottom up into tree objects, read back by
  a validating decoder and by cached binary search, and serialised as a Nix Archive through a hashing buffer; the queue
  between the reading and the ingesting thread; roots, deferred touches, expiry, mark and sweep.
* **The eval store** (`plugin/store.cc`): recursive ingest of an object in memory, and the records that name roots.

Modules follow the files: `Pack*`, `Cas` for the pack store; `TreeCodec`, `Objects`, `MemTree`, `Paths`, `TarFold`,
`Flush`, `Walker`, `Queue`, `Ingest`, `EndToEnd`, `NarFormat`, `NarDump`, `NarHash`, `NarTrees` for trees; `Marking`,
`Overlooked`, `Between`, `Stamps`, `Lifetime`, `Gc`, `Retention` for collection; `EvalStore`, `Records`, `PathStore`,
`SameId` for the eval store. `Formats` says the bytes of each format in letters. `Basics` and `Primitives` hold what all
share. `dafny verify dfyconfig.toml` checks everything.

## What is assumed

* BLAKE3 is an unknown function with 32-byte results, injective on the finite set of contents considered
  (`Primitives.CollisionFree`, `Objects.Pools`); nowhere on all byte strings. LZ4 is an unknown pair of functions:
  decompressing what was compressed gives it back, and compressed output is shorter than the input. SHA-256 is a
  function of the concatenation of its updates.
* LMDB transactions are atomic and reads see one snapshot; the file lock is exclusive and released by a crash; written
  pack bytes survive a process crash; an unlinked file stays readable through a mapping. Only processes crash, not the
  machine.
* `Objects.PoolsOk`: no content is both a blob and a tree with entries. Marking itself is modelled on any table, and
  without that assumption `mark_live` can overlook a directory: see below.
* In `Retention` the clock does not go back and fits 64 bits; `Stamps` and `Gc` have its arithmetic wrap as the code's does.
* One writer thread per process. In `Gc` no other process commits between the marking and the sweep of one collection;
  `Between` says exactly when the store stays closed if one does.

## What the proofs found

* `open_once` reads the generation before it looks at the file lock, and maps it after it has let the lock go. If a
  compaction has committed before the cleanup, the cleanup unlinks the live pack (`PackTheorems.StaleCleanBreaks`,
  `PackWitness.StaleOpenLosesBlob`). If one has committed and dropped the old name before the mapping, even after a
  cleanup that was in order, an empty file appears under a dead name (`PackTheorems.StaleCreateBreaks`,
  `PackWitness.LateOpenLosesBlob`).
* `locate` passes "create" to `mapping_for` whenever its process has a batch open. If the reader thread looked up before
  a compaction of another process and maps after its own process opened a batch, an empty pack is created under the old
  name and the blob reads as truncated (`PackTheorems.StaleCreateBreaks`, `PackWitness.StaleMapLosesBlob`).
* These are the only three: the invariant survives a step if and only if the step is not one of them
  (`PackTheorems.StepKeepsInvariant`), and `PackRuns.DisciplinedRunSafe` says how callers avoid them.
* "A root used less than ttl ago survives" is false. `Retention.ExactlyKept` has the exact condition, over all runs of a
  store: at each collection that runs, the root's effective stamp is less than ttl old. That stamp is the time of the
  first effectual touch since the last flush, else the last one written (`Retention.FirstTouchWins`,
  `Retention.WrittenStampStands`). A flush can set it back behind a newer registration (`Retention.FlushSetsBack`), and a
  touch can come just too early to be noted (`Retention.TouchIgnored`). In terms of use, a root last used less than ttl
  minus the slack ago survives (`Retention.UsedRootSurvives`), the slack being the flush gap or one less than the touch
  interval, whichever is more; and for every ttl of at least the slack, those two families of runs drop a root used ttl
  minus the slack ago.
* `mark_live` follows a directory only if its id was not marked before, and the marks are shared by all roots. A tree
  with a file whose content is the listing of one of its own subdirectories loses what is in there to the sweep
  (`Overlooked.SharedIdLosesFile`). A whole root is lost the same way if an earlier root has its listing as a file
  (`Overlooked.CopiedRootLost`), or lists it as a directory and is itself broken (`Overlooked.BrokenRootHides`). In each
  case `hasTree` still finds the root. `Overlooked.RootStaysWhole` says exactly when a tree stays whole, on any table and
  after any earlier marks.
* If another process puts objects between the marking and the sweep, the store can lose its closure, but only by a root
  that was recorded and missing at the marking and is put again before the sweep (`Between.SweptLaterClosed`, an if and
  only if, and `Between.PutAgainLosesFile`).
* A failed read in `TreeWalker::tree` leaves an empty listing in the cache. `Walker.TreeWalker.Tree` says exactly when
  the cache stays right.
* `nar_dump` fails on depth exactly on trees deeper than 512 (`NarTrees.ReadsBack`). Tar ingest never builds one
  (`NarTrees.DumpMatchesItems`); the eval store's ingest has no such limit
  (`NarTrees.DeepChainFails`).

## Model

| member | source | states |
|---|---|---|
| Basics.LessTotal | src/tree.cpp:394-399 | the order of names is total, with the lemmas beside it a strict order: what "sorted" means to decoder and search |
| Basics.LessExactly | src/tree.cpp:394-399 | one name is before another exactly if, up to some position, they are the same, and there it ends or has the smaller byte |
| Basics.SortedKeys | src/tree.cpp:110-117 | iteration over a map of children: its keys, sorted, each once |
| Objects.PoolsAreSatisfiable | src/pack_cas.cpp:34-43 | the assumptions about hash, compression and contents can be met together, on a file and a directory that lists it |
| Cas.CrashLeavesAView | src/pack_cas.cpp:643-647 | wherever automatic syncs fall and whenever the process dies, what is committed is a state its writer had seen |
| Pack.Pwrite | src/pack_cas.cpp:239-249 | after a write at an offset, the bytes below it are as before and the bytes written are there |
| Pack.StoredExpands | src/pack_cas.cpp:624-638 | what `put` stores for a blob expands to the blob, and is smaller exactly if the blob is within the limits and LZ4 compresses it |
| Pack.MovedAt | src/pack_cas.cpp:742-744 | where compaction puts a kept blob: behind the ones before it, with its stored bytes unchanged |
| Pack.MovedTiles | src/pack_cas.cpp:726-765 | the new entries start at 0, each where the one before ends, end at the new pack's length, and none overlap |
| Pack.MovedReads | src/pack_cas.cpp:726-765 | every kept blob reads from the new pack as it read from the old one |
| Pack.PackedNoLarger | src/pack_cas.cpp:726-754 | the new pack is no larger than the old one, because old entries did not overlap |
| PackInvariant.MappingForOk | src/pack_cas.cpp:378-401 | a mapping that comes back is of its generation's own pack, and the store stays in order, unless a dead name would be created |
| PackInvariant.MappingStays | src/pack_cas.cpp:378-401 | what is mapped once is found from then on, and a new mapping is of the file that has the name |
| PackInvariant.MappingForRely | src/pack_cas.cpp:378-401 | mapping changes nothing that other processes rely on |
| PackMachine.BeginOk | src/pack_cas.cpp:426-443 | opening a batch keeps the invariant of store and process, and what others rely on |
| PackMachine.PutOk | src/pack_cas.cpp:611-650 | so does a put: the new blob lies behind all others and reads back as itself |
| PackMachine.TornOk | src/pack_cas.cpp:239-249 | so does a put that dies inside its write |
| PackMachine.CommitOk | src/pack_cas.cpp:445-456 | so does a commit |
| PackMachine.AbortOk | src/pack_cas.cpp:458-468 | so does an abort, whether or not the truncation succeeds |
| PackMachine.StartCompactOk | src/pack_cas.cpp:711-724 | so does creating the next pack under the lock, even over a stray file of an earlier attempt |
| PackMachine.CopyChunkOk | src/pack_cas.cpp:745-748 | so does writing a chunk of it |
| PackMachine.SwitchOk | src/pack_cas.cpp:759-767 | so does the switch: the new generation is in order in its own file, and old generations still read |
| PackMachine.UnlinkOldOk | src/pack_cas.cpp:772 | so does dropping the old pack's name |
| PackMachine.FailCompactOk | src/pack_cas.cpp:776-783 | so does the failure handler before the commit |
| PackMachine.EndCompactOk | src/pack_cas.cpp:773-775 | so does mapping the new pack and releasing the lock |
| PackMachine.LookupOk | src/pack_cas.cpp:470-489 | a lookup remembers an entry that covers its blob in its generation's pack |
| PackMachine.MapOk | src/pack_cas.cpp:491-504 | the mapping step of a read finds that generation's pack, or the generation is over |
| PackTheorems.CleanOpenOk | src/pack_cas.cpp:529-548 | a cleanup in time, under the lock, leaves a name to the live pack only, and disturbs nobody |
| PackTheorems.StaleCleanBreaks | src/pack_cas.cpp:597-603 | an opening whose cleanup a compaction overtook unlinks the live pack |
| PackTheorems.StaleCreateBreaks | src/pack_cas.cpp:378-401 | a mapping, by a reader or by an opening, that recreates a dead pack breaks the store |
| PackTheorems.StepKeepsInvariant | src/pack_cas.cpp:426-784 | for every process and step, the invariant holds after it if and only if the step is not a stale cleanup, nor a stale mapping of an opening or of a read |
| PackTheorems.GoodStep | src/pack_cas.cpp:426-784 | every other step keeps the invariant and the readable content of all generations |
| PackTheorems.OthersGuarantee | src/pack_cas.cpp:408-424 | what a process may rely on while another takes a step: its locked state, and committed entries of every generation |
| PackRuns.OthersRun | src/pack_cas.cpp:408-424 | and while others take any number of steps |
| PackTheorems.Refines | src/pack_cas.cpp:426-784 | every step of every process is one step of a plain table of objects, records and one pending batch, or none |
| PackRuns.RunSafe | src/pack_cas.cpp:426-784 | the invariant in every state of every run without those three steps |
| PackRuns.IndexSound | src/pack_cas.cpp:470-489 | each committed entry lies inside the live pack, overlaps no other, and reads as bytes of its recorded length whose hash is its key |
| PackRuns.LookupIsAtomic | src/pack_cas.cpp:470-489 | a lookup takes the table's value, or its absence, at that instant |
| PackRuns.ReadReturnsLookedUp | src/pack_cas.cpp:652-684 | the read that follows, however many compactions later, returns that value |
| PackRuns.ReaderRemembers | src/pack_cas.cpp:491-504 | no step in between changes the value being read |
| PackRuns.ChurnNeedsCompactions | src/pack_cas.cpp:491-504 | a failed attempt means the generation grew since its lookup; the churn error needs eight compactions in one call |
| PackRuns.StepKeepsBlob | src/pack_cas.cpp:426-784 | no step but a compaction that rejects it changes or loses a committed blob |
| PackRuns.Durable | src/pack_cas.cpp:445-468 | so a synced blob stays, with its bytes, through crashes, aborts, batches and reopens |
| PackRuns.AbortUndoes | src/pack_cas.cpp:458-468 | an abort that truncates restores pack, index, records and generation to the batch's start, whatever came between |
| PackRuns.OneWriterHistory | src/pack_cas.cpp:426-784 | in a run in which one process writes while others open, read and crash, the tables are a history of table operations, as the tree store logs it, and the writer sees the table with its batch |
| PackRuns.OneWriterCrash | src/pack_cas.cpp:643-647 | so at every point what a crash leaves in the pack and the index is a view that the writer had |
| PackRuns.DisciplinedRunSafe | src/pack_cas.cpp:565-609 | runs from the empty directory are safe if no compaction commits inside an opening and no batch is opened inside a read of the same process |
| PackWitness.StaleOpenLosesBlob | src/pack_cas.cpp:587-604 | a run with a stale cleanup that ends with a committed blob unreadable |
| PackWitness.LateOpenLosesBlob | src/pack_cas.cpp:602-604 | a run where a compaction commits between an opening's cleanup, which is in order, and its mapping |
| PackWitness.StaleMapLosesBlob | src/pack_cas.cpp:491-504 | a run with a stale mapping by a reader |
| PackCompact.CopyOne | src/pack_cas.cpp:742-748 | one live entry through the chunk buffer: its bytes follow the earlier ones, its new offset is the running sum |
| PackCompact.CopyLive | src/pack_cas.cpp:726-754 | the cursor loop writes the live blobs in key order and lists their new entries; it stops only at a live entry beyond the mapped size |
| PackCompact.Reindex | src/pack_cas.cpp:759-765 | the rewritten index is the kept entries at their new places, nothing else |
| PackStore.PackCas.Open | src/pack_cas.cpp:565-609 | while others step in between, opening leaves the store in order if and only if neither its cleanup nor its mapping is stale, and then shows what is committed, with no batch |
| PackStore.PackCas.MapGeneration | src/pack_cas.cpp:378-401 | `mapping_for` through current, retired and new mappings |
| PackStore.PackCas.BeginBatch | src/pack_cas.cpp:426-443 | a batch starts as a copy of what is committed |
| PackStore.PackCas.CommitBatch | src/pack_cas.cpp:445-456 | commit makes the batch the committed state and frees the lock |
| PackStore.PackCas.AbortBatch | src/pack_cas.cpp:458-468 | abort drops the batch; offsets and file as at its start if the truncation succeeds |
| PackStore.PackCas.Sync | src/pack_cas.cpp:700-704 | commits the open batch, if any |
| PackStore.PackCas.Lookup | src/pack_cas.cpp:470-489 | finds an entry exactly for the objects the process sees, with the generation of the same snapshot |
| PackStore.PackCas.Compress | src/pack_cas.cpp:624-636 | the compression attempt and when it is not made |
| PackStore.PackCas.Append | src/pack_cas.cpp:637-645 | the new blob joins the batch under its hash with its bytes |
| PackStore.PackCas.Put | src/pack_cas.cpp:611-650 | after the wait for the lock, or the timeout: a put adds the object unless its id is there, and commits by itself exactly when the batch reaches its byte limit |
| PackStore.PackCas.MetaPut | src/pack_cas.cpp:786-793 | a record joins the open batch, or is committed at once after waiting for other transactions |
| PackStore.PackCas.MetaDel | src/pack_cas.cpp:809-818 | so does a deletion; a missing key is no error |
| PackStore.PackCas.Has | src/pack_cas.cpp:695-698 | presence in what the process sees |
| PackStore.PackCas.Size | src/pack_cas.cpp:686-693 | the content's length, without reading it |
| PackStore.PackCas.Locate | src/pack_cas.cpp:491-504 | entry and mapping of one generation, whatever other processes do between the two steps; else absence, or eight compactions |
| PackStore.PackCas.Get | src/pack_cas.cpp:652-667 | content whose hash is the key, committed no earlier than the call or in the own batch; the only error is churn |
| PackStore.PackCas.GetView | src/pack_cas.cpp:669-684 | the same through the mapping; refused exactly if the entry found for the key ends beyond the mapped size |
| PackStore.PackCas.SwitchOver | src/pack_cas.cpp:759-775 | the table keeps exactly the live objects, the generation grows by one, the old name is gone |
| PackStore.PackCas.Compact | src/pack_cas.cpp:708-784 | whatever others did while it waited for the lock, compaction keeps exactly the accepted objects with their contents; entries tile a pack no larger than the old one; it fails only on the lock or on a blob beyond the mapped size |
| PackStore.PackCas.AbandonCompaction | src/pack_cas.cpp:776-783 | a failure before the switch leaves the table as it was and no name for the next pack |
| TreeCodec.EncodeEntries | src/tree.cpp:351-365 | the buffer `putTree` builds is the encoding; too long a name or id is the only error |
| TreeCodec.ParseEntry | src/tree.cpp:373-393 | one entry parsed at a position, or the error of the first check that fails |
| TreeCodec.EntryErrors | src/tree.cpp:373-393 | too few bytes for a header, a letter that is no type, lengths over the end: which error, in that order |
| TreeCodec.DecodeEntries | src/tree.cpp:367-407 | `readTree`'s loop computes the recursive decoder |
| TreeCodec.DecodeEncode | src/tree.cpp:351-407 | decoding what was encoded gives the entries back |
| TreeCodec.EncodeDecode | src/tree.cpp:351-407 | every accepted buffer is the encoding of valid, sorted entries it decodes to |
| TreeCodec.CodecBijection | src/tree.cpp:351-407 | so the codec is a bijection between valid listings and accepted buffers |
| TreeCodec.DecodeErrors | src/tree.cpp:367-407 | a refused buffer behind entries in order has the error of its next entry, or that of the order |
| Formats.EntryBytes | src/tree.cpp:351-365 | the bytes of an entry, one by one |
| Formats.TypeLetters | src/tree.cpp:373-380 | the four letters |
| Objects.PutBlobClosed | src/tree.hpp:53 | a blob put keeps the store closed under tree edges |
| Objects.PutTreeClosed | src/tree.cpp:351-365 | so does a tree put after its entries |
| Objects.RootImpliesWhole | plugin/tarmac.cc:239 | in a closed store a present root means the whole tree can be read, to any depth |
| Objects.RestrictClosed | src/tree.cpp:608-611 | keeping an edge-closed subset keeps the store closed |
| MemTree.AddFails | src/tree.cpp:141-166 | `add_node` fails exactly below a file, or on a file over a non-empty directory or the root |
| MemTree.AddAtSelf | src/tree.cpp:150-165 | what is at the added path afterwards |
| MemTree.AddAtAbove | src/tree.cpp:145-153 | the path's parents become directories if they were missing |
| MemTree.AddAtElsewhere | src/tree.cpp:141-166 | no other path changes |
| MemTree.Builder.AddNode | src/tree.cpp:141-166 | the pointer-walking loop computes the recursive insertion, same errors |
| Paths.SplitPath | src/tree.cpp:300-322 | the loop computes the recursive split, which the next three rows determine for every path |
| Paths.SplitOne | src/tree.cpp:300-322 | a path without a slash: nothing for an empty one, "." and "..", one name, or too long |
| Paths.SplitMore | src/tree.cpp:306-319 | what one more component does to the split of a path: nothing, one less, one more, or too much |
| Paths.SplitStops | src/tree.cpp:316-318 | what is refused stays refused, whatever follows |
| Paths.SplitIsClean | src/tree.cpp:300-322 | accepted paths have at most 512 components, none empty, "." or "..", and are the split of their own joining |
| TarFold.AddAgrees | src/tree.cpp:141-166 | adding to the tree is adding to the path map under the overwrite rules |
| TarFold.ApplyAgrees | src/tree.cpp:324-347 | one tar item, hard links included, does to the tree what it does to the path map, or fails alike |
| TarFold.FoldAgrees | src/tree.cpp:324-347 | any sequence of items is accepted or refused with the same error, and builds the same paths and contents |
| Flush.ListDirs | src/tree.cpp:103-110 | the growing list has every directory once, shorter paths first |
| Flush.CollectEntries | src/tree.cpp:112-117 | the entries of a directory in name order, with the ids its children have by then |
| Flush.FlushDir | src/tree.cpp:111-119 | one directory flushed: its canonical id stored and present, its children dropped, no other id in the tree changed |
| Flush.FlushTree | src/tree.cpp:102-121 | the bottom-up loop returns the recursive hash of the tree and leaves the store closed at every point |
| Walker.LowerBound | src/tree.cpp:645-646 | the binary search finds the first name not below the one sought |
| Walker.LowerBoundFinds | src/tree.cpp:645-649 | in a sorted listing that is the entry of that name, if there is one |
| Walker.TreeWalker.Tree | src/tree.cpp:625-632 | the cached listing is the stored one; the cache stays right exactly when the tree was cached or can be read |
| Walker.TreeWalker.Lookup | src/tree.cpp:634-654 | a lookup through cache and binary search is the plain walk |
| Walker.WalkMore | src/tree.cpp:634-654 | what one more component does to the plain walk: nothing below a missing path or a file, else the entry of that name, or the error of the listing |
| Walker.WalkFinds | src/tree.cpp:634-654 | walking the stored tree ends where the in-memory tree has the path |
| Queue.ItemQueue.Push | src/tree.cpp:187-200 | blocks exactly if the queue is open, not empty, and has 512 items or would hold over 128 MiB; else throws or appends |
| Queue.ItemQueue.Pop | src/tree.cpp:208-219 | blocks, ends or takes the oldest item |
| Queue.ItemQueue.Close | src/tree.cpp:202-206 | the consumer's flag |
| Queue.ItemQueue.Finish | src/tree.cpp:221-226 | the producer's flag and error |
| Queue.RunSafe | src/tree.cpp:174-227 | in every run: nothing lost or reordered, byte count right, bounds kept, and no thread asleep whose condition holds |
| Queue.NeverStuck | src/tree.cpp:174-227 | unless both threads are finished one of them can move; both are never asleep |
| Queue.RunBounded | src/tree.cpp:421-446 | the number of turns is bounded by the archive and the spurious wake-ups |
| Queue.RunEnds | src/tree.cpp:421-446 | a run that cannot go on has both threads finished; all items in order and the reader's error were delivered, or the consumer bailed out after a prefix |
| Ingest.LookupNode | src/tree.cpp:123-138 | the loop finds the node at the path |
| Ingest.ApplyItem | src/tree.cpp:324-347 | one item on the store: the fold's step, its blob stored, the store closed throughout |
| Ingest.FoldItems | src/tree.cpp:435-438 | the consumer's loop is the fold |
| Ingest.FilesCounted | src/tree.cpp:344-346 | what it counts are the items that are neither directories nor hard links |
| Ingest.FinishIngest | src/tree.cpp:449-453 | flush, register, sync, collect, each as the store's own event; root and record are there afterwards, with its stamp, if that is not expired |
| Ingest.IngestArchive | src/tree.cpp:421-454 | first error of the fold, else the reader's, and nothing but puts; else canonical root id and file count, the root registered, all committed, a collection run, and no touch left deferred; a crash at any point leaves a store in order |
| Ingest.OtherRootsGo | src/tree.cpp:449-453 | that collection, when it is due, drops every other root that is ttl old |
| EndToEnd.LookupsMatchItems | src/tree.cpp:102-166 | from tar items through encoding, decoding and search, every path looks up to what the path map has, down to the bytes |
| EndToEnd.IdDeterminesTree | src/tree.cpp:102-121 | equal ids mean equal trees |
| EndToEnd.RootIdsCanonical | src/tree.cpp:102-121 | two ingests give the same root id exactly when their path maps are equal |
| NarFormat.ParseStrsRoundTrip | src/tree.cpp:660-673 | the strings of an archive parse back: length, bytes, zero padding |
| NarFormat.NarRoundTrip | src/tree.cpp:723-746 | a parser of the "Nix Archive (NAR) format" recovers the object from its archive |
| NarFormat.NarInjective | src/tree.cpp:723-746 | different objects have different archives |
| Formats.StringBytes | src/tree.cpp:660-673 | a string's eight length bytes, its bytes, its zeros |
| Formats.Words | src/tree.cpp:683-746 | the words of the format, letter by letter |
| Formats.FileArchives | src/tree.cpp:683-702 | the archives of a file, an executable and a link, in those words |
| Formats.DirectoryArchive | src/tree.cpp:704-746 | and of a directory, entry by entry |
| NarDump.DumpStr | src/tree.cpp:660-673 | the chunks of one string concatenate to its length, bytes and padding |
| NarDump.DumpLeaf | src/tree.cpp:683-702 | a file or symbolic link, or the missing-blob error |
| NarDump.DumpDirectory | src/tree.cpp:704-719 | what a directory leaves on the stack amounts to the rest of its tokens, and is less work than the directory was |
| NarDump.Dump | src/tree.cpp:723-746 | the loop ends and emits exactly the archive of the recursively read object, or throws that reading's first error after the strings said up to there |
| NarDump.OutMeans | src/tree.cpp:675-746 | what is said of a node is its object's strings, or ends in the error of its recursive reading |
| NarDump.CutShort | src/tree.cpp:723-746 | what was emitted before an error is a beginning of the archive that any completed store would give |
| NarTrees.ReadsBack | src/tree.cpp:735-737 | a stored tree reads as its object, or fails on depth exactly when it is deeper than the limit |
| NarTrees.DeepChainFails | plugin/store.cc:93-116 | the eval store's ingest accepts a chain of directories of any length; dumping it fails exactly if it is longer than 512 |
| NarTrees.DumpMatchesItems | src/tree.cpp:723-746 | the dump of an ingested tree never fails, and the object has at each path exactly what the items put there |
| NarTrees.ArchivesCanonical | src/tree.cpp:723-746 | two ingested trees have the same archive exactly when their path maps are equal |
| NarHash.HashSink.Flush | src/tree.cpp:763-768 | after a flush the updates are all of the input |
| NarHash.HashSink.Sink | src/tree.cpp:769-779 | updates and buffer together are the input in order, the buffer never over 64 KiB, the count modulo 2^64 |
| NarHash.NarSha256 | src/tree.cpp:748-788 | the digest of the archive, and its length, a multiple of eight |
| Stamps.StampRoundTrip | src/tree.cpp:472-491 | a clock reading survives its eight-byte form |
| Formats.StampBytes | src/tree.cpp:472-491 | its bytes, the highest first |
| Formats.RecordKeys | src/tree.cpp:493-508 | the keys of records: "R", "B", "lastgc", "sp:", "sd:" |
| Lifetime.RegisterExactly | src/tree.cpp:506-508 | a registration stamps one record with its time |
| Lifetime.TouchExactly | src/tree.cpp:510-522 | a touch is deferred exactly for a recorded root whose stamp is at least the interval old, modulo 2^64, and that has none deferred |
| Lifetime.SyncExactly | src/tree.cpp:531-545 | a sync writes every deferred stamp and nothing else |
| Lifetime.DueExactly | src/tree.cpp:581-586 | a collection is due exactly if none was noted or the last is the interval ago, modulo 2^64 |
| Marking.MarkEntries | src/tree.cpp:570-575 | one listing's entries marked, new directories queued |
| Marking.MarkLive | src/tree.cpp:562-577 | on any table the loop ends, and its result, marks and followed ids are those of the recursive marking; a listing that is missing or does not decode is its error |
| Marking.MarkRootMeans | src/tree.cpp:562-577 | what that leaves: root and followed directories' entries marked and nothing else, only directories below the root followed, and the error, if any, is that of a directory it came to |
| Marking.MarkRootReaches | src/tree.cpp:562-577 | in a closed store with one role for each id, it is the least closed set over root and edges, and fails exactly on a missing root, having marked only that |
| Marking.ReachUnique | src/tree.cpp:562-577 | that set is unique |
| Overlooked.MissedWasMarked | src/tree.cpp:562-577 | a directory that is listed and not followed was marked for an earlier root or listed as a file first; a root that is not followed was marked for an earlier one |
| Overlooked.RootStaysWhole | src/tree.cpp:562-611 | on any table and after any earlier marks, marking a whole tree ends well, and it stays whole through the sweep if and only if the directories not followed, the root among them, and everything below them are marked |
| Overlooked.SharedIdLosesFile | src/tree.cpp:572 | a tree of three objects in which one is both a file and a directory: after mark and sweep the root is present and no longer whole |
| Overlooked.CopiedRootLost | src/tree.cpp:565 | two roots, the first with a file whose bytes are the second's listing: the second is marked, not followed, kept, and no longer whole |
| Overlooked.BrokenRootHides | src/tree.cpp:591-602 | a broken first root that lists the second before its marking throws: the same |
| Between.SweptLaterClosed | src/tree.cpp:579-612 | with objects added between mark and sweep, what the sweep leaves is closed if and only if no root missing at the marking was put since with something unmarked in it |
| Between.PutAgainLosesFile | src/tree.cpp:591-611 | such a root, put again: it stays and its file goes |
| Cas.CommittedSince | src/pack_cas.cpp:643-647 | between two points of a writer's history, what is committed is what was, or something the writer saw since |
| Gc.CrashLeavesInOrder | src/pack_cas.cpp:643-647 | at every point of a store's history, a crash leaves a closed table in which a present tree root stands for its whole tree |
| Gc.TreeStore.constructor | src/tree.hpp:41-47 | a store opens in order on what was committed, with no deferred touches |
| Gc.TreeStore.PutBlob | src/tree.hpp:53 | the blob is there under its hash; every view of the store stays closed |
| Gc.TreeStore.PutTree | src/tree.cpp:351-365 | the tree is there and reads back as its entries; every view stays closed |
| Gc.TreeStore.ReadTree | src/tree.cpp:367-407 | missing, or the decoder's result |
| Gc.TreeStore.HasTree | src/tree.cpp:417-419 | presence of the root, and with it of the whole tree |
| Gc.TreeStore.RegisterRoot | src/tree.cpp:506-508 | the root's record gets the current time |
| Gc.TreeStore.TouchRoot | src/tree.cpp:510-522 | deferred, only for recorded roots with an old enough stamp, the first touch winning |
| Gc.TreeStore.FlushTouches | src/tree.cpp:536-545 | all deferred stamps written, objects and other records untouched in every view |
| Gc.TreeStore.Sync | src/tree.cpp:531-534 | touches flushed before the commit |
| Gc.TreeStore.ScanExpired | src/tree.cpp:547-557 | exactly the records of that prefix whose wrapped age is at least the limit |
| Gc.TreeStore.ExpireRoots | src/tree.cpp:547-560 | those records deleted and counted |
| Gc.TreeStore.MarkRoots | src/tree.cpp:591-602 | the least closed set over all tree roots; exactly the missing roots reported broken |
| Gc.TreeStore.Sweep | src/tree.cpp:591-611 | exactly the reachable objects and blob roots stay; records of missing trees go; the sync before the sweep is a state of its own |
| Gc.TreeStore.MaybeGc | src/tree.cpp:579-612 | when it collects, and that the result is exactly the old objects reachable from unexpired roots, contents unchanged, and the unexpired records without those of missing trees; what a crash at any point leaves is in order |
| Lifetime.GcLeaves | src/tree.cpp:579-612 | what a collection that is due does: its own stamp, the roots of either kind that are outdated, and only if there was one the records of missing trees and every object that no root left reaches |
| Lifetime.SweptRootsPresent | src/tree.cpp:591-611 | after a sweep every tree root on record is there |
| Lifetime.NextOk | src/tree.cpp:351-612 | every event of a store, as the methods of `Gc.TreeStore` are proved to do them, keeps the table closed and root records of the right kind |
| Retention.WrittenStampStands | src/tree.cpp:506-545 | without an effectual touch since a flush, the stamp that the next flush leaves is the last one written |
| Retention.FirstTouchWins | src/tree.cpp:510-545 | with one, it is the time of the first, until the flush |
| Retention.GcExact | src/tree.cpp:579-612 | one collection keeps the record of a present root if and only if it does not run or the effective stamp is less than ttl old, and with the record the object |
| Retention.ExactlyKept | src/tree.cpp:506-612 | over all runs of a store, a root survives with its record, object and whole tree if and only if each collection that runs finds its effective stamp less than ttl old |
| Retention.NextCollection | src/tree.cpp:581-587 | after a collection and any other events, the next is due exactly from the interval after it on |
| Retention.CollectionsApart | src/tree.cpp:581-587 | in any run, two collections that run are at least the interval apart |
| Retention.UsedRootSurvives | src/tree.cpp:506-612 | over all runs, a root last used less than ttl minus the slack ago at each collection survives, object and tree included |
| Retention.RegisteredRootSurvives | src/tree.cpp:506-612 | the same from a registration on, for a root whose object is there, whatever record and deferred touch it had |
| Retention.RecordedIsHeld | plugin/store.cc:416-433 | the root of an object just stored, or of a derivation just written, is held, so that the rows above are about it |
| Retention.IngestedIsHeld | src/tree.cpp:449-453 | so is the root of an ingest whose stamp is not expired |
| Retention.OneBlobHeld | src/tree.cpp:506-508 | for any setup, a store with one blob and its record is a start for all of this, and for the two lemmas below |
| Retention.FlushSetsBack | src/tree.cpp:536-545 | where the flush gap makes the slack, for any ttl from it on: a touch, a registration, a flush, then a sync every gap, after which a root used ttl minus the slack ago is dropped |
| Retention.TouchIgnored | src/tree.cpp:510-522 | where the touch interval makes it, for any ttl from it on: a touch, then a sync every gap, and the same |
| EvalStore.IngestEntries | plugin/store.cc:106-113 | the entries of a directory, put in name order before it |
| EvalStore.Ingest | plugin/store.cc:93-116 | type and canonical id of the object, present afterwards, or the too-large error exactly when a name is too long |
| SameId.SameIdSameFiles | plugin/store.cc:93-116 | a tarball and an object in memory get the same root id exactly when they have the same thing at every path |
| Records.BackedIsWhole | plugin/store.cc:300-303 | a record whose root is there means its whole object can be read |
| Records.CrashLeavesBacked | src/pack_cas.cpp:643-647 | at every point of a history since an operation began, what is committed was so before it, or has no record naming a root that is not registered or not there, but for records that did before |
| PathStore.TarmacStore.StoreObject | plugin/store.cc:416-433 | the whole store afterwards: the record names the object's canonical id with what was given, its root's stamp reads now or the touch that was deferred, touches are flushed, all is committed, other records as before; a crash at any point on the way leaves no new record without its root |
| PathStore.TarmacStore.GetPathRecord | plugin/store.cc:294-307 | a record comes back exactly if its root is present, which is touched; one whose root was collected is deleted; nothing else happens |
| PathStore.TarmacStore.DrvText | plugin/store.cc:309-321 | the text under the recorded id, whose root is touched, or nothing and the record deleted |
| PathStore.TarmacStore.WriteDerivation | plugin/store.cc:487-498 | a touch if the text is there; else the whole store afterwards: text, record and root, its stamp now or the touch deferred, all committed; a crash on the way leaves no new record without its root |
| PathStore.TarmacStore.AddToStore | plugin/store.cc:435-449 | a touch if the path has a record whose root is there; else what storing does, on a store without a stale record; the same at every crash |
| PathStore.TarmacStore.Collect | plugin/ctx.hh:31 | a collection as above, which leaves all records but root records alone |

## Left out

- Power loss: the index is opened without syncing, so what survives is not decided by this code; only process crashes are modelled.
- External corruption of files, poisoning and wiping, and the retry around opening.
- The clock behind the lock timeout, and failing commits or syncs; with them the handler of `compact` for a failing sync after the commit.
- The format check of the index, and index values of the wrong size.
- Several writer threads in one process, which the code refuses or asks callers to serialise.
- The cached size of a mapping: the view's range check is on the file itself.
- Ids that are not 32 bytes long: the code throws "bad hash length", the model finds nothing under them.
- Memory of mappings: generations stay mapped, as in the code, and mapping itself never fails.
- PackStore.PackCas.MetaPut: the wait for another process's transaction is not proved to end; a call still waiting is one that is not `done`.
- PackStore.PackCas.MetaDel: the same.
- Gc.TreeStore.MaybeGc: runs on the table of module Cas, where no other process commits during the call (Between has what commits between mark and sweep do), and compaction does not fail on blobs beyond 1 TiB.
- MemTree.Builder.AddNode: children are owned by value, so the pointers of the loops are paths; after an error the tree is unspecified.
- Ingest.IngestArchive: the items are given in the order the queue delivers them, which Queue proves to be the archive's order.
- Reading archives: formats, headers, sizes and entry types of libarchive are not part of this model.
- NarDump.Dump: the sink's calls are returned as a list of chunks, and the sink does not throw.
- NarHash.NarSha256: failures of the SHA-256 library.
- Records: the JSON text of a path record is an encoding assumed lossless; store paths, signatures and references are opaque bytes.
- Other plugin code: input schemes, URLs, downloads, accessors, settings and store registration.
- Deriving the two-thread scheduling of Queue from C++ threads: a turn is one look at the condition under the mutex and what follows it.
