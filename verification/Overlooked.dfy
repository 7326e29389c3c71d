/** Ids marked before they are come to as directories: what `mark_live` overlooks, and exactly when a tree survives it. */
module Overlooked {
  import opened Basics
  import opened Primitives
  import opened TreeCodec
  import opened Cas
  import opened Objects
  import opened Marking

  /** The whole tree can be read, to any depth. */
  ghost predicate WholeAll(objs: Objs, id: Id) {
    forall depth :: Whole(objs, id, depth)
  }

  /** The root, or listed as a directory by a followed listing, but not followed: it was marked by then. */
  ghost predicate Missed(objs: Objs, root: Id, m: Marks, t: Id) {
    t !in m.expanded && (t == root || Sighted(objs, m.expanded, t, true))
  }

  /** Everything of the tree is marked, down to `depth` levels. */
  ghost predicate AllMarked(objs: Objs, live: set<Id>, id: Id, depth: nat)
    decreases depth
  {
    && id in live && ReadTree(objs, id).Ok?
    && forall e :: e in Listing(objs[id]) ==>
         && e.id in live
         && (e.typ == DIRECTORY && depth > 0 ==> AllMarked(objs, live, e.id, depth - 1))
  }

  /**
   * A missed id was sighted as a file first, or marked for an earlier root. The root itself is missed exactly if an
   * earlier root had marked it, and then nothing is followed.
   */
  lemma MissedWasMarked(objs: Objs, root: Id, live0: set<Id>, t: Id)
    requires MarkRoot(objs, root, live0).result.Ok? && Missed(objs, root, MarkRoot(objs, root, live0), t)
    ensures t in live0 || (t != root && Sighted(objs, MarkRoot(objs, root, live0).expanded, t, false))
  {
    MarkRootMeans(objs, root, live0);
    var m := MarkRoot(objs, root, live0);
    if t != root {
      var x :| x in m.expanded && ReadTree(objs, x).Ok? && Lists(Listing(objs[x]), t, true);
      assert t in Ids(Listing(objs[x]));
    }
  }

  lemma RootMissed(objs: Objs, root: Id, live0: set<Id>)
    requires MarkRoot(objs, root, live0).result.Ok?
    ensures Missed(objs, root, MarkRoot(objs, root, live0), root) <==> root in live0
    ensures root in live0 ==> MarkRoot(objs, root, live0) == Marks(Ok(()), live0, {})
  {
    MarkRootMeans(objs, root, live0);
  }

  /** A tree that was whole is whole after the sweep as deep as everything in it is marked. */
  lemma {:induction false} WholeIfMarked(objs: Objs, live: set<Id>, id: Id, depth: nat)
    requires Whole(objs, id, depth)
    ensures Whole(Swept(objs, live), id, depth) <==> AllMarked(objs, live, id, depth)
    decreases depth
  {
    if id in live {
      forall e | e in Listing(objs[id]) && e.typ == DIRECTORY && depth > 0
        ensures Whole(Swept(objs, live), e.id, depth - 1) <==> AllMarked(objs, live, e.id, depth - 1)
      {
        WholeIfMarked(objs, live, e.id, depth - 1);
      }
    }
  }

  /** Some of the objects, as they are. */
  ghost predicate SubTable(part: Objs, objs: Objs) {
    forall h :: h in part ==> h in objs && part[h] == objs[h]
  }

  lemma EntryWhole(part: Objs, objs: Objs, x: Id, e: TreeEntry)
    requires SubTable(part, objs) && WholeAll(part, x) && ReadTree(objs, x).Ok? && e in Listing(objs[x])
    requires e.typ == DIRECTORY
    ensures WholeAll(part, e.id)
  {
    assert Whole(part, x, 0);
    forall depth: nat ensures Whole(part, e.id, depth) {
      assert Whole(part, x, depth + 1);
    }
  }

  /** If the root's tree is whole, so is that of everything followed from it. */
  lemma FollowedWhole(part: Objs, objs: Objs, root: Id, expanded: set<Id>)
    requires SubTable(part, objs) && WholeAll(part, root) && OnlyDirs(objs, root, expanded)
    ensures forall x :: x in expanded ==> WholeAll(part, x)
  {
    var s := set x | x in AllListed(objs) + {root} && WholeAll(part, x);
    forall x, e | x in s && ReadTree(objs, x).Ok? && e in Listing(objs[x]) && e.typ == DIRECTORY ensures e.id in s {
      EntryWhole(part, objs, x, e);
    }
    assert DirClosed(objs, s);
  }

  lemma MissedWhole(part: Objs, objs: Objs, root: Id, m: Marks, t: Id)
    requires SubTable(part, objs) && WholeAll(part, root) && OnlyDirs(objs, root, m.expanded) && Missed(objs, root, m, t)
    ensures WholeAll(part, t)
  {
    if t != root {
      FollowedWhole(part, objs, root, m.expanded);
      var x :| x in m.expanded && ReadTree(objs, x).Ok? && Lists(Listing(objs[x]), t, true);
      var e :| e in Listing(objs[x]) && e.id == t && e.typ == DIRECTORY;
      EntryWhole(part, objs, x, e);
    }
  }

  /** Everything below the missed ids is marked all the same. */
  ghost predicate MissedMarked(objs: Objs, live: set<Id>, root: Id, m: Marks) {
    forall t, d: nat :: Missed(objs, root, m, t) ==> AllMarked(objs, live, t, d)
  }

  /** What was followed is marked to any depth, as far as what was missed is. */
  lemma {:induction false} FollowedMarked(objs: Objs, live: set<Id>, root: Id, m: Marks, x: Id, depth: nat)
    requires Followed(objs, m.live, m.expanded) && m.live <= live && x in m.expanded
    requires MissedMarked(objs, live, root, m)
    ensures AllMarked(objs, live, x, depth)
    decreases depth
  {
    forall e | e in Listing(objs[x])
      ensures e.id in live && (e.typ == DIRECTORY && depth > 0 ==> AllMarked(objs, live, e.id, depth - 1))
    {
      assert e.id in Ids(Listing(objs[x]));
      if e.typ == DIRECTORY && depth > 0 {
        if e.id in m.expanded {
          FollowedMarked(objs, live, root, m, e.id, depth - 1);
        } else {
          assert Lists(Listing(objs[x]), e.id, true);
          assert Missed(objs, root, m, e.id);
        }
      }
    }
  }

  lemma MarksMissed(objs: Objs, root: Id, live: set<Id>, m: Marks, t: Id, d: nat)
    requires WholeAll(objs, root) && WholeAll(Swept(objs, live), root)
    requires OnlyDirs(objs, root, m.expanded) && Missed(objs, root, m, t)
    ensures AllMarked(objs, live, t, d)
  {
    MissedWhole(objs, objs, root, m, t);
    MissedWhole(Swept(objs, live), objs, root, m, t);
    WholeIfMarked(objs, live, t, d);
  }

  lemma StaysWhole(objs: Objs, root: Id, live: set<Id>, m: Marks)
    requires WholeAll(objs, root) && Followed(objs, m.live, m.expanded) && m.live <= live
    requires MissedMarked(objs, live, root, m)
    ensures WholeAll(Swept(objs, live), root)
  {
    forall depth: nat ensures Whole(Swept(objs, live), root, depth) {
      if root in m.expanded {
        FollowedMarked(objs, live, root, m, root, depth);
      } else {
        assert Missed(objs, root, m, root);
      }
      WholeIfMarked(objs, live, root, depth);
    }
  }

  /**
   * On any table, after any earlier marks, for any sweep that keeps at least what is marked by then: marking a root whose
   * tree is whole ends well, and the tree stays whole if and only if the missed ids and everything below them are marked.
   * So without missed ids it does.
   */
  lemma RootStaysWhole(objs: Objs, root: Id, live0: set<Id>, live: set<Id>)
    requires WholeAll(objs, root) && MarkRoot(objs, root, live0).live <= live
    ensures MarkRoot(objs, root, live0).result.Ok?
    ensures WholeAll(Swept(objs, live), root) <==> MissedMarked(objs, live, root, MarkRoot(objs, root, live0))
  {
    MarkRootMeans(objs, root, live0);
    WholeEndsWell(objs, root, live0);
    var m := MarkRoot(objs, root, live0);
    if WholeAll(Swept(objs, live), root) { WholeMarksMissed(objs, root, live, m); }
    if MissedMarked(objs, live, root, m) { StaysWhole(objs, root, live, m); }
  }

  /** In a whole tree nothing that is followed is unreadable. */
  lemma WholeEndsWell(objs: Objs, root: Id, live0: set<Id>)
    requires WholeAll(objs, root)
    ensures MarkRoot(objs, root, live0).result.Ok?
  {
    MarkRootMeans(objs, root, live0);
    var m := MarkRoot(objs, root, live0);
    if m.result.Err? {
      var t :| t in m.live && ReadTree(objs, t) == Err(m.result.error) && (t == root || Sighted(objs, m.expanded, t, true));
      if t !in m.expanded { MissedWhole(objs, objs, root, m, t); }
      assert Whole(objs, t, 0);
    }
  }

  lemma WholeMarksMissed(objs: Objs, root: Id, live: set<Id>, m: Marks)
    requires WholeAll(objs, root) && WholeAll(Swept(objs, live), root) && OnlyDirs(objs, root, m.expanded)
    ensures MissedMarked(objs, live, root, m)
  {
    forall t, d: nat | Missed(objs, root, m, t) ensures AllMarked(objs, live, t, d) {
      MarksMissed(objs, root, live, m, t, d);
    }
  }

  // ---------------------------------------------------------------- an input on which a tree is lost

  const File: Bytes := [1]

  ghost function Inner(prim: Prim): (es: seq<TreeEntry>)
    requires Sound(prim)
    ensures AllFit(es)
  {
    [TreeEntry([99], REGULAR, prim.hash(File))]
  }

  /** The id of `Inner` twice: as a file whose bytes are that listing, and as the directory it is. */
  ghost function Outer(prim: Prim, inner: Bytes): (es: seq<TreeEntry>)
    requires Sound(prim)
    ensures AllFit(es)
  {
    [TreeEntry([97], REGULAR, prim.hash(inner)), TreeEntry([98], DIRECTORY, prim.hash(inner))]
  }

  lemma ListingsValid(prim: Prim, inner: Bytes)
    requires Sound(prim)
    ensures ValidEntries(Inner(prim)) && ValidEntries(Outer(prim, inner))
    ensures DecodeTree(EncodeTree(Inner(prim))) == Ok(Inner(prim))
    ensures DecodeTree(EncodeTree(Outer(prim, inner))) == Ok(Outer(prim, inner))
    ensures |EncodeTree(Inner(prim))| > 1 && |EncodeTree(Outer(prim, inner))| > |EncodeTree(Inner(prim))|
  {
    assert Names(Inner(prim)) == [[99]];
    assert Names(Outer(prim, inner)) == [[97], [98]];
    assert Less([97], [98]);
    DecodeEncode(Inner(prim));
    DecodeEncode(Outer(prim, inner));
    var outer := Outer(prim, inner);
    assert outer[1..] == [outer[1]] && Inner(prim)[1..] == [];
    assert EncodeTree(outer) == EncodeEntry(outer[0]) + EncodeTree(outer[1..]);
  }

  /** Three contents, each under its hash. */
  function Keyed(prim: Prim, a: Bytes, b: Bytes, c: Bytes): Objs {
    map[prim.hash(a) := a, prim.hash(b) := b, prim.hash(c) := c]
  }

  lemma KeyedReads(prim: Prim, a: Bytes, b: Bytes, c: Bytes)
    requires CollisionFree(prim, {a, b, c}) && a != b && a != c && b != c
    ensures prim.hash(a) != prim.hash(b) && prim.hash(a) != prim.hash(c) && prim.hash(b) != prim.hash(c)
    ensures var objs := Keyed(prim, a, b, c);
            && (forall h :: h in objs ==> prim.hash(objs[h]) == h)
            && prim.hash(a) in objs && prim.hash(b) in objs && prim.hash(c) in objs
            && objs[prim.hash(a)] == a && objs[prim.hash(b)] == b && objs[prim.hash(c)] == c
  {
    assert a in {a, b, c} && b in {a, b, c} && c in {a, b, c};
  }

  /** The three objects such a tree is stored as: file, directory, root. */
  ghost function ThreeObjects(prim: Prim): Objs
    requires Sound(prim)
  {
    var inner := EncodeTree(Inner(prim));
    Keyed(prim, File, inner, EncodeTree(Outer(prim, inner)))
  }

  /**
   * A tree with a file `a` that holds the listing of its own subdirectory `b`. Every object is stored under its hash,
   * no two collide, and the tree is whole. `mark_live` sights the shared id as a file first and does not follow it as
   * a directory, so the sweep takes the file in `b`, and the root that is left is no longer whole.
   */
  lemma SharedIdLosesFile(prim: Prim)
    requires Sound(prim)
    requires CollisionFree(prim, {File, EncodeTree(Inner(prim)), EncodeTree(Outer(prim, EncodeTree(Inner(prim))))})
    ensures var inner := EncodeTree(Inner(prim));
            var root := prim.hash(EncodeTree(Outer(prim, inner)));
            var objs := ThreeObjects(prim);
            && (forall h :: h in objs ==> prim.hash(objs[h]) == h)
            && WholeAll(objs, root)
            && MarkRoot(objs, root, {}) == Marks(Ok(()), {root, prim.hash(inner)}, {root})
            && root in Swept(objs, {root, prim.hash(inner)})
            && !Whole(Swept(objs, {root, prim.hash(inner)}), root, 1)
  {
    var inner := EncodeTree(Inner(prim));
    var root := prim.hash(EncodeTree(Outer(prim, inner)));
    ThreeRead(prim);
    SharedWhole(prim, ThreeObjects(prim), root, prim.hash(inner));
    MarksOne(prim, ThreeObjects(prim), root, inner);
    SweptBroken(prim, ThreeObjects(prim), root, inner);
  }

  lemma ThreeRead(prim: Prim)
    requires Sound(prim)
    requires CollisionFree(prim, {File, EncodeTree(Inner(prim)), EncodeTree(Outer(prim, EncodeTree(Inner(prim))))})
    ensures var inner := EncodeTree(Inner(prim));
            var root := prim.hash(EncodeTree(Outer(prim, inner)));
            && (forall h :: h in ThreeObjects(prim) ==> prim.hash(ThreeObjects(prim)[h]) == h)
            && root != prim.hash(inner) && prim.hash(inner) != prim.hash(File) && root != prim.hash(File)
            && prim.hash(File) in ThreeObjects(prim)
            && ReadTree(ThreeObjects(prim), root) == Ok(Outer(prim, inner))
            && ReadTree(ThreeObjects(prim), prim.hash(inner)) == Ok(Inner(prim))
  {
    var inner := EncodeTree(Inner(prim));
    ListingsValid(prim, inner);
    var outer := EncodeTree(Outer(prim, inner));
    assert outer != inner && inner != File && outer != File;
    KeyedReads(prim, File, inner, outer);
  }

  lemma SweptBroken(prim: Prim, objs: Objs, root: Id, inner: Bytes)
    requires Sound(prim)
    requires ReadTree(objs, root) == Ok(Outer(prim, inner)) && ReadTree(objs, prim.hash(inner)) == Ok(Inner(prim))
    requires prim.hash(File) != root && prim.hash(File) != prim.hash(inner)
    ensures root in Swept(objs, {root, prim.hash(inner)}) && !Whole(Swept(objs, {root, prim.hash(inner)}), root, 1)
  {
    var shared := prim.hash(inner);
    var swept := Swept(objs, {root, shared});
    assert Outer(prim, inner)[1] in Listing(swept[root]);
    assert Inner(prim)[0] in Listing(swept[shared]);
    assert !Whole(swept, shared, 0);
  }

  lemma SharedWhole(prim: Prim, objs: Objs, root: Id, shared: Id)
    requires Sound(prim)
    requires ReadTree(objs, shared) == Ok(Inner(prim)) && prim.hash(File) in objs && shared in objs
    requires ReadTree(objs, root).Ok? && forall e :: e in Listing(objs[root]) ==> e.id == shared
    ensures WholeAll(objs, root)
  {
    forall depth: nat ensures Whole(objs, shared, depth) {}
    forall depth: nat ensures Whole(objs, root, depth) {}
  }

  lemma MarksOne(prim: Prim, objs: Objs, root: Id, inner: Bytes)
    requires Sound(prim)
    requires ReadTree(objs, root) == Ok(Outer(prim, inner)) && root != prim.hash(inner)
    ensures MarkRoot(objs, root, {}) == Marks(Ok(()), {root, prim.hash(inner)}, {root})
  {
    var es, shared := Outer(prim, inner), prim.hash(inner);
    assert es[..1] == [es[0]] && [es[0]][..0] == [];
    var none: seq<Id> := [];
    assert VisitAll(({root}, none), [es[0]]) == ({root, shared}, none) by {
      assert {root} + {shared} == {root, shared};
      assert VisitAll(({root}, none), []) == ({root}, none);
    }
    assert VisitAll(({root}, none), es) == ({root, shared}, none);
    assert {} + {root} == {root};
    assert [root][..0] == none;
    assert MarkFrom(objs, {root}, [root], {}) == MarkFrom(objs, {root, shared}, none, {root});
  }

  // ---------------------------------------------------------------- inputs on which a later root is lost

  /** The id of the listing `inner` as a file whose bytes are that listing. */
  ghost function Copying(prim: Prim, inner: Bytes): (es: seq<TreeEntry>)
    requires Sound(prim)
    ensures AllFit(es)
  {
    [TreeEntry([97], REGULAR, prim.hash(inner))]
  }

  /** The directory `inner`, and after it one that is missing. */
  ghost function Breaking(prim: Prim, inner: Bytes, gone: Id): (es: seq<TreeEntry>)
    requires Sound(prim) && |gone| == HASH_LEN
    ensures AllFit(es)
  {
    [TreeEntry([97], DIRECTORY, prim.hash(inner)), TreeEntry([98], DIRECTORY, gone)]
  }

  lemma FirstListingsValid(prim: Prim, inner: Bytes, gone: Id)
    requires Sound(prim) && |gone| == HASH_LEN
    ensures ValidEntries(Copying(prim, inner)) && ValidEntries(Breaking(prim, inner, gone))
    ensures DecodeTree(EncodeTree(Copying(prim, inner))) == Ok(Copying(prim, inner))
    ensures DecodeTree(EncodeTree(Breaking(prim, inner, gone))) == Ok(Breaking(prim, inner, gone))
  {
    assert Names(Copying(prim, inner)) == [[97]];
    assert Names(Breaking(prim, inner, gone)) == [[97], [98]];
    assert Less([97], [98]);
    DecodeEncode(Copying(prim, inner));
    DecodeEncode(Breaking(prim, inner, gone));
  }

  /** Two roots, the second the directory `Inner`: its listing, its file, and the first root's listing. */
  ghost function TwoRoots(prim: Prim, first: Bytes): Objs
    requires Sound(prim)
  {
    Keyed(prim, File, EncodeTree(Inner(prim)), first)
  }

  /** The second root is whole, marked by the first and not followed: the sweep keeps it and takes its file. */
  ghost predicate SecondLost(prim: Prim, objs: Objs, root: Id, live0: set<Id>) {
    && WholeAll(objs, root) && MarkRoot(objs, root, live0) == Marks(Ok(()), live0, {})
    && root in Swept(objs, live0) && !Whole(Swept(objs, live0), root, 0)
  }

  lemma MarkedRootLost(prim: Prim, objs: Objs, root: Id, live0: set<Id>)
    requires Sound(prim)
    requires ReadTree(objs, root) == Ok(Inner(prim)) && prim.hash(File) in objs
    requires root in live0 && prim.hash(File) !in live0
    ensures SecondLost(prim, objs, root, live0)
  {
    forall depth: nat ensures Whole(objs, root, depth) {}
    RootMissed(objs, root, live0);
    assert live0 + {root} == live0;
    assert Inner(prim)[0] in Listing(Swept(objs, live0)[root]);
  }

  lemma TwoRootsRead(prim: Prim, first: Bytes)
    requires Sound(prim) && first !in {File, EncodeTree(Inner(prim))}
    requires CollisionFree(prim, {File, EncodeTree(Inner(prim)), first})
    ensures var objs, second := TwoRoots(prim, first), prim.hash(EncodeTree(Inner(prim)));
            && (forall h :: h in objs ==> prim.hash(objs[h]) == h)
            && prim.hash(first) != second && prim.hash(File) !in {prim.hash(first), second} && prim.hash(File) in objs
            && ReadTree(objs, second) == Ok(Inner(prim)) && ReadTree(objs, prim.hash(first)) == DecodeTree(first)
  {
    ListingsValid(prim, File);
    KeyedReads(prim, File, EncodeTree(Inner(prim)), first);
  }

  /** The first root has a file whose bytes are the second root's listing. Its marking ends well. */
  lemma CopiedRootLost(prim: Prim)
    requires Sound(prim)
    requires CollisionFree(prim, {File, EncodeTree(Inner(prim)), EncodeTree(Copying(prim, EncodeTree(Inner(prim))))})
    ensures var inner := EncodeTree(Inner(prim));
            var first := EncodeTree(Copying(prim, inner));
            var objs, live := TwoRoots(prim, first), {prim.hash(first), prim.hash(inner)};
            && (forall h :: h in objs ==> prim.hash(objs[h]) == h)
            && MarkRoot(objs, prim.hash(first), {}) == Marks(Ok(()), live, {prim.hash(first)})
            && WholeAll(objs, prim.hash(first)) && SecondLost(prim, objs, prim.hash(inner), live)
  {
    var inner := EncodeTree(Inner(prim));
    var first := EncodeTree(Copying(prim, inner));
    var objs, live := TwoRoots(prim, first), {prim.hash(first), prim.hash(inner)};
    FirstListingsValid(prim, inner, prim.hash(File));
    CopyingApart(prim, inner);
    TwoRootsRead(prim, first);
    MarksCopy(prim, objs, prim.hash(first), inner);
    MarkedRootLost(prim, objs, prim.hash(inner), live);
    forall depth: nat ensures Whole(objs, prim.hash(first), depth) {}
  }

  /** The first root lists the second as a directory and is broken: its marking ends before the second is followed. */
  lemma BrokenRootHides(prim: Prim, gone: Id)
    requires Sound(prim) && |gone| == HASH_LEN
    requires CollisionFree(prim, {File, EncodeTree(Inner(prim)), EncodeTree(Breaking(prim, EncodeTree(Inner(prim)), gone))})
    requires gone !in TwoRoots(prim, EncodeTree(Breaking(prim, EncodeTree(Inner(prim)), gone)))
    ensures var inner := EncodeTree(Inner(prim));
            var first := EncodeTree(Breaking(prim, inner, gone));
            var objs, live := TwoRoots(prim, first), {prim.hash(first), prim.hash(inner), gone};
            && (forall h :: h in objs ==> prim.hash(objs[h]) == h)
            && MarkRoot(objs, prim.hash(first), {}) == Marks(Err(MissingTree), live, {prim.hash(first)})
            && SecondLost(prim, objs, prim.hash(inner), live)
  {
    var inner := EncodeTree(Inner(prim));
    var first := EncodeTree(Breaking(prim, inner, gone));
    var objs := TwoRoots(prim, first);
    FirstListingsValid(prim, inner, gone);
    BreakingApart(prim, inner, gone);
    TwoRootsRead(prim, first);
    MarksBroken(prim, objs, prim.hash(first), inner, gone);
    MarkedRootLost(prim, objs, prim.hash(inner), {prim.hash(first), prim.hash(inner), gone});
  }

  lemma CopyingApart(prim: Prim, inner: Bytes)
    requires Sound(prim) && inner == EncodeTree(Inner(prim))
    ensures EncodeTree(Copying(prim, inner)) !in {File, inner}
  {
    ListingsValid(prim, inner);
    FirstListingsValid(prim, inner, prim.hash(File));
    assert Copying(prim, inner)[0].name != Inner(prim)[0].name;
    assert DecodeTree(File).Err?;
  }

  lemma BreakingApart(prim: Prim, inner: Bytes, gone: Id)
    requires Sound(prim) && inner == EncodeTree(Inner(prim))
    requires |gone| == HASH_LEN
    ensures EncodeTree(Breaking(prim, inner, gone)) !in {File, inner}
  {
    ListingsValid(prim, inner);
    FirstListingsValid(prim, inner, gone);
    assert Breaking(prim, inner, gone)[0].name != Inner(prim)[0].name;
    assert DecodeTree(File).Err?;
  }

  lemma MarksCopy(prim: Prim, objs: Objs, root: Id, inner: Bytes)
    requires Sound(prim)
    requires ReadTree(objs, root) == Ok(Copying(prim, inner)) && root != prim.hash(inner)
    ensures MarkRoot(objs, root, {}) == Marks(Ok(()), {root, prim.hash(inner)}, {root})
  {
    var es, shared := Copying(prim, inner), prim.hash(inner);
    var none: seq<Id> := [];
    assert es[..0] == [] && [root][..0] == none;
    assert VisitAll(({root}, none), es) == ({root, shared}, none) by {
      assert {root} + {shared} == {root, shared};
      assert VisitAll(({root}, none), []) == ({root}, none);
    }
    assert {} + {root} == {root};
    assert MarkFrom(objs, {root}, [root], {}) == MarkFrom(objs, {root, shared}, none, {root});
  }

  lemma MarksBroken(prim: Prim, objs: Objs, root: Id, inner: Bytes, gone: Id)
    requires Sound(prim) && |gone| == HASH_LEN
    requires ReadTree(objs, root) == Ok(Breaking(prim, inner, gone)) && root != prim.hash(inner)
    requires gone !in objs && prim.hash(inner) in objs
    ensures MarkRoot(objs, root, {}) == Marks(Err(MissingTree), {root, prim.hash(inner), gone}, {root})
  {
    var es, listed := Breaking(prim, inner, gone), prim.hash(inner);
    var none: seq<Id> := [];
    assert es[..1] == [es[0]] && [es[0]][..0] == [] && [root][..0] == none;
    assert VisitAll(({root}, none), [es[0]]) == ({root, listed}, [listed]) by {
      assert {root} + {listed} == {root, listed} && none + [listed] == [listed];
      assert VisitAll(({root}, none), []) == ({root}, none);
    }
    assert VisitAll(({root}, none), es) == ({root, listed, gone}, [listed, gone]) by {
      assert {root, listed} + {gone} == {root, listed, gone} && [listed] + [gone] == [listed, gone];
    }
    assert {} + {root} == {root};
    assert MarkFrom(objs, {root}, [root], {}) == MarkFrom(objs, {root, listed, gone}, [listed, gone], {root});
  }
}
