/** What every step of the pack store keeps: of the shared state, of each process, and between processes. */
module PackInvariant {
  import opened Basics
  import opened Primitives
  import opened Pack

  // ---------------------------------------------------------------- shared state

  ghost predicate GenOk(prim: Prim, files: seq<Bytes>, g: Gen) {
    && Disjoint(g.entries)
    && (g.file.None? ==> g.entries == map[])
    && (g.file.Some? ==>
          && g.file.value < |files|
          && forall h :: h in g.entries ==> Covered(prim, files[g.file.value], g.entries[h], h))
  }

  /** Pack N, as long as it has its name, is generation N's own file; only the next generation may have a stray file. */
  ghost predicate NamesOk(s: Shared) {
    && (forall k :: k in s.names ==>
          && k <= s.Current() + 1
          && s.names[k] < |s.files|
          && (k <= s.Current() ==> s.GenAt(k).file == Some(s.names[k])))
    && (s.Current() + 1 in s.names ==>
          forall k :: 0 <= k <= s.Current() ==> s.GenAt(k).file != Some(s.names[s.Current() + 1]))
    && (s.live.file.Some? ==> s.Current() in s.names)
  }

  ghost predicate FilesDistinct(s: Shared) {
    && (forall k :: 0 <= k < s.Current() ==> s.GenAt(k).file.Some?)
    && (s.Current() > 0 ==> s.live.file.Some?)
    && (forall j, k :: 0 <= j < k <= s.Current() && s.GenAt(k).file.Some? ==> s.GenAt(j).file != s.GenAt(k).file)
  }

  ghost predicate Good(prim: Prim, s: Shared) {
    && (forall k :: 0 <= k <= s.Current() ==> GenOk(prim, s.files, s.GenAt(k)))
    && FilesDistinct(s)
    && NamesOk(s)
  }

  lemma EmptyIsGood(prim: Prim)
    ensures Good(prim, Empty)
  {
  }

  // ---------------------------------------------------------------- one process

  ghost predicate MappingOk(s: Shared, m: Mapping) {
    m.gen <= s.Current() && s.GenAt(m.gen).file == Some(m.file)
  }

  /** Every mapping of generation N is of generation N's own pack, and `cur` is the newest. */
  ghost predicate MapsOk(s: Shared, maps: Maps) {
    && (maps.cur.Some? ==> MappingOk(s, maps.cur.value))
    && (maps.cur.None? ==> maps.retired == [])
    && (forall i :: 0 <= i < |maps.retired| ==>
          MappingOk(s, maps.retired[i]) && maps.retired[i].gen < maps.cur.value.gen)
  }

  /** The live generation is mapped, so `current()` is its pack. */
  ghost predicate MapsLive(s: Shared, maps: Maps) {
    maps.cur.Some? && maps.cur.value.gen == s.Current()
  }

  ghost predicate BatchOk(prim: Prim, s: Shared, maps: Maps, b: Batch) {
    && MapsOk(s, maps) && MapsLive(s, maps) && maps.cur.value.file < |s.files|
    && var file := s.files[maps.cur.value.file];
       && b.committedEnd <= b.end <= |file|
       && |b.base| == b.committedEnd && file[..b.committedEnd] == b.base
       && Disjoint(b.entries)
       && (forall h :: h in b.entries ==>
             b.entries[h].off + b.entries[h].len <= b.end && Covered(prim, file, b.entries[h], h))
       && (forall h :: h in s.live.entries ==>
             && h in b.entries && b.entries[h] == s.live.entries[h]
             && b.entries[h].off + b.entries[h].len <= b.committedEnd)
  }

  // ---------------------------------------------------------------- between processes

  /** What the steps of the other processes may do to the shared state, seen by process `me`. */
  ghost predicate Rely(me: nat, s: Shared, s': Shared) {
    && s.Current() <= s'.Current()
    && (forall k :: 0 <= k <= s.Current() ==>
          && (s.GenAt(k).file.Some? ==> s'.GenAt(k).file == s.GenAt(k).file)
          && (forall h :: h in s.GenAt(k).entries ==>
                h in s'.GenAt(k).entries && s'.GenAt(k).entries[h] == s.GenAt(k).entries[h]))
    && (s.lock.Held? && s.lock.pid == me ==> LockedRely(s, s'))
  }

  /** The flock keeps the generation and the packs still; the open transaction also keeps the meta table. */
  ghost predicate LockedRely(s: Shared, s': Shared) {
    && s'.lock == s.lock && s'.past == s.past
    && (s.live.file.Some? ==> s'.live == s.live)
    && |s.files| <= |s'.files|
    && (s.InTxn() ==>
          && s'.meta == s.meta
          && (s.live.file.Some? && s.live.file.value < |s.files| ==>
                s'.files[s.live.file.value] == s.files[s.live.file.value]))
    && (s.Current() + 1 in s.names ==>
          s.Current() + 1 in s'.names && s'.names[s.Current() + 1] == s.names[s.Current() + 1])
  }

  /**
   * Entry `e` of `h` was committed in generation `k`. From then on it is in that generation's history and
   * its pack, whatever file name that pack has lost, reads it as `want`.
   */
  ghost predicate Committed(prim: Prim, s: Shared, k: nat, h: Id, e: Entry, want: Bytes) {
    && k <= s.Current()
    && h in s.GenAt(k).entries && s.GenAt(k).entries[h] == e
    && s.GenAt(k).file.Some? && s.GenAt(k).file.value < |s.files|
    && ReadEntry(prim, s.files[s.GenAt(k).file.value], e) == Ok(want)
    && prim.hash(want) == h
  }

  /** No step changes what a committed entry reads as, in any generation. */
  ghost predicate ContentKept(prim: Prim, s: Shared, s': Shared) {
    forall k, h :: 0 <= k <= s.Current() && h in s.GenAt(k).entries && s.GenAt(k).file.Some? ==>
      && k <= s'.Current() && s'.GenAt(k).file == s.GenAt(k).file
      && s.GenAt(k).file.value < |s.files| && s.GenAt(k).file.value < |s'.files|
      && ReadEntry(prim, s'.files[s.GenAt(k).file.value], s.GenAt(k).entries[h])
         == ReadEntry(prim, s.files[s.GenAt(k).file.value], s.GenAt(k).entries[h])
  }

  lemma MapsStable(s: Shared, s': Shared, me: nat, maps: Maps)
    requires MapsOk(s, maps) && Rely(me, s, s')
    ensures MapsOk(s', maps)
  {
  }

  lemma BatchStable(prim: Prim, s: Shared, s': Shared, me: nat, maps: Maps, b: Batch)
    requires BatchOk(prim, s, maps, b) && s.lock == Held(me, true) && Rely(me, s, s')
    ensures BatchOk(prim, s', maps, b) && s'.lock == Held(me, true)
  {
    MapsStable(s, s', me, maps);
  }

  lemma CommittedStable(prim: Prim, s: Shared, s': Shared, me: nat, k: nat, h: Id, e: Entry, want: Bytes)
    requires Committed(prim, s, k, h, e, want) && Rely(me, s, s') && ContentKept(prim, s, s')
    ensures Committed(prim, s', k, h, e, want)
  {
  }

  // ---------------------------------------------------------------- steps on files

  /** Replacing a file by one that agrees below `n` keeps every entry that ends there. */
  lemma GenFrame(prim: Prim, files: seq<Bytes>, f: nat, content: Bytes, n: nat, g: Gen)
    requires f < |files| && GenOk(prim, files, g)
    requires n <= |content| && n <= |files[f]| && content[..n] == files[f][..n]
    requires g.file == Some(f) ==> forall h :: h in g.entries ==> g.entries[h].off + g.entries[h].len <= n
    ensures GenOk(prim, files[f := content], g)
    ensures g.file.Some? ==> forall h :: h in g.entries ==>
              ReadEntry(prim, files[f := content][g.file.value], g.entries[h]) == ReadEntry(prim, files[g.file.value], g.entries[h])
  {
    if g.file == Some(f) {
      forall h | h in g.entries
        ensures ReadEntry(prim, content, g.entries[h]) == ReadEntry(prim, files[f], g.entries[h])
      {
        ReadFrame(prim, files[f], content, n, g.entries[h]);
      }
    }
  }

  /** Rewriting the live pack above its committed part disturbs nobody but the lock holder. */
  lemma LiveWrite(prim: Prim, s: Shared, f: nat, content: Bytes, n: nat)
    requires Good(prim, s) && s.live.file == Some(f)
    requires n <= |content| && n <= |s.files[f]| && content[..n] == s.files[f][..n]
    requires forall h :: h in s.live.entries ==> s.live.entries[h].off + s.live.entries[h].len <= n
    ensures var s' := s.(files := s.files[f := content]);
            Good(prim, s') && ContentKept(prim, s, s')
  {
    var s' := s.(files := s.files[f := content]);
    forall k | 0 <= k <= s.Current()
      ensures GenOk(prim, s'.files, s'.GenAt(k))
      ensures s.GenAt(k).file.Some? ==> forall h :: h in s.GenAt(k).entries ==>
                ReadEntry(prim, s'.files[s.GenAt(k).file.value], s.GenAt(k).entries[h])
                == ReadEntry(prim, s.files[s.GenAt(k).file.value], s.GenAt(k).entries[h])
    {
      GenFrame(prim, s.files, f, content, n, s.GenAt(k));
    }
  }

  // ---------------------------------------------------------------- mapping_for

  lemma {:induction false} FindRetiredIs(retired: seq<Mapping>, gen: nat)
    ensures FindRetired(retired, gen).Some? ==> FindRetired(retired, gen).value in retired && FindRetired(retired, gen).value.gen == gen
    ensures FindRetired(retired, gen).None? ==> forall m :: m in retired ==> m.gen != gen
  {
    if retired != [] && retired[0].gen != gen {
      FindRetiredIs(retired[1..], gen);
      assert forall m :: m in retired ==> m == retired[0] || m in retired[1..];
    }
  }

  /** `mapping_for(gen, create)` would create an empty pack under the name of a generation that is over. */
  predicate StaleCreate(s: Shared, maps: Maps, gen: nat, create: bool) {
    create && gen < s.Current() && gen !in s.names && FindMapping(maps, gen).None?
  }

  /** A mapping, if one comes back, is of the generation's own pack, and everything stays in order. */
  lemma MappingForOk(prim: Prim, me: nat, s: Shared, maps: Maps, gen: nat, create: bool)
    requires Good(prim, s) && MapsOk(s, maps) && gen <= s.Current() && !StaleCreate(s, maps, gen, create)
    ensures var (s', maps', m) := MappingFor(s, maps, gen, create);
            && Good(prim, s') && MapsOk(s', maps')
            && ContentKept(prim, s, s')
            && (s' == s || (gen == s.Current() && s.live.file.None?))
            && s'.past == s.past && s'.live.entries == s.live.entries && s'.meta == s.meta && s'.lock == s.lock
            && |s.files| <= |s'.files| && s'.files[..|s.files|] == s.files
            && (m.None? <==> FindMapping(maps, gen).None? && gen !in s.names && !create)
            && (m.Some? ==> m.value.gen == gen && MappingOk(s', m.value))
            && (gen == s.Current() && m.Some? ==> MapsLive(s', maps') && maps'.cur == m)
  {
    FindRetiredIs(maps.retired, gen);
    var (s', maps', m) := MappingFor(s, maps, gen, create);
    if FindMapping(maps, gen).None? && (gen in s.names || create) {
      if gen !in s.names {
        assert gen == s.Current() && s.live.file.None?;
        assert s.Current() == 0;
        assert s' == CreatePack(s, gen);
        assert GenOk(prim, s.files, s.GenAt(0));
        assert GenOk(prim, s'.files, s'.GenAt(0));
      }
    }
  }

  /** What a process has mapped once it goes on finding, and what it has just mapped it finds from now on. */
  lemma MappingStays(s: Shared, maps: Maps, gen: nat, create: bool, other: nat)
    requires MapsOk(s, maps)
    ensures var (s', maps', m) := MappingFor(s, maps, gen, create);
            && (FindMapping(maps, other).Some? ==> FindMapping(maps', other) == FindMapping(maps, other))
            && (m.Some? ==> FindMapping(maps', gen) == m)
            && (m.Some? && FindMapping(maps, gen).None? ==> gen in s'.names && m == Some(Mapping(gen, s'.names[gen])))
  {
    FindRetiredIs(maps.retired, other);
    FindRetiredIs(maps.retired, gen);
    var m := MappingFor(s, maps, gen, create).2;
    if m.Some? && FindMapping(maps, gen).None? {
      FindRetiredMore(maps.retired, m.value, other);
      FindRetiredMore(maps.retired, m.value, gen);
      if maps.cur.Some? {
        FindRetiredMore(maps.retired, maps.cur.value, other);
        FindRetiredMore(maps.retired, maps.cur.value, gen);
      }
    }
  }

  lemma {:induction false} FindRetiredMore(retired: seq<Mapping>, m: Mapping, gen: nat)
    ensures FindRetired(retired + [m], gen) ==
            if FindRetired(retired, gen).Some? then FindRetired(retired, gen) else if m.gen == gen then Some(m) else None
  {
    if retired != [] {
      assert (retired + [m])[1..] == retired[1..] + [m];
      if retired[0].gen != gen { FindRetiredMore(retired[1..], m, gen); }
    }
  }

  /** The steps of one process leave alone what another process relies on, as far as the flock is theirs. */
  lemma MappingForRely(prim: Prim, q: nat, s: Shared, maps: Maps, gen: nat, create: bool)
    requires Good(prim, s) && MapsOk(s, maps) && gen <= s.Current() && !StaleCreate(s, maps, gen, create)
    ensures Rely(q, s, MappingFor(s, maps, gen, create).0)
  {
    MappingForOk(prim, q, s, maps, gen, create);
    var s' := MappingFor(s, maps, gen, create).0;
    if s' != s {
      assert s' == CreatePack(s, gen);
    }
  }
}
