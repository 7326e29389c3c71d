/** `flush_tree`: from the in-memory tree to tree objects, children before parents. */
module Flush {
  import opened Basics
  import opened Primitives
  import opened TreeCodec
  import opened Cas
  import opened Objects
  import opened MemTree
  import opened Gc

  /** A directory's id once it is flushed, or what it will be: the hash of its sorted listing. */
  function IdOf(prim: Prim, n: MemNode): Id
    decreases n, 1
  {
    if !IsDir(n) || n.id != [] then n.id else prim.hash(Encoded(Entries(prim, n)))
  }

  /** The listing of a directory, in `std::map` order. */
  function Entries(prim: Prim, n: MemNode): (es: seq<TreeEntry>)
    ensures |es| == |SortedKeys(n.children.Keys)|
    decreases n, 0
  {
    var keys := SortedKeys(n.children.Keys);
    assert forall i :: 0 <= i < |keys| ==> keys[i] in keys;
    seq(|keys|, i requires 0 <= i < |keys| =>
      TreeEntry(keys[i], n.children[keys[i]].typ, IdOf(prim, n.children[keys[i]])))
  }

  function Encoded(es: seq<TreeEntry>): Bytes {
    if AllFit(es) then EncodeTree(es) else []
  }

  // ---------------------------------------------------------------- trees that can be flushed

  /** What the fold builds: directories have no id yet, everything else has one and no children; names are short. */
  predicate Built(n: MemNode) {
    && ValidType(n.typ)
    && (if IsDir(n) then n.id == [] else |n.id| == HASH_LEN && n.children == map[])
    && forall k :: k in n.children ==> |k| <= MAX_NAME_LEN && Built(n.children[k])
  }

  /**
   * A tree in the middle of a flush. Directories not flushed yet list what the pools expect; everything else is an
   * id that is present.
   */
  ghost predicate Ready(prim: Prim, pools: Pools, objs: Objs, n: MemNode) {
    && ValidType(n.typ)
    && (if IsDir(n) && n.id == [] then Encoded(Entries(prim, n)) in pools.trees
        else n.id in objs && |n.id| == HASH_LEN && n.children == map[])
    && forall k :: k in n.children ==> |k| <= MAX_NAME_LEN && Ready(prim, pools, objs, n.children[k])
  }

  lemma IdLength(prim: Prim, pools: Pools, objs: Objs, n: MemNode)
    requires Sound(prim) && Ready(prim, pools, objs, n)
    ensures |IdOf(prim, n)| == HASH_LEN
  {
  }

  lemma EntriesValid(prim: Prim, pools: Pools, objs: Objs, n: MemNode)
    requires Sound(prim) && Ready(prim, pools, objs, n)
    ensures ValidEntries(Entries(prim, n))
  {
    var keys := SortedKeys(n.children.Keys);
    var es := Entries(prim, n);
    forall i | 0 <= i < |es| ensures Fits(es[i]) && ValidType(es[i].typ) {
      assert keys[i] in keys;
      IdLength(prim, pools, objs, n.children[keys[i]]);
    }
    assert Names(es) == keys;
  }

  lemma {:induction false} ReadyGrows(prim: Prim, pools: Pools, objs: Objs, objs': Objs, n: MemNode)
    requires Ready(prim, pools, objs, n) && objs.Keys <= objs'.Keys
    ensures Ready(prim, pools, objs', n)
    decreases n
  {
    forall k | k in n.children ensures Ready(prim, pools, objs', n.children[k]) {
      ReadyGrows(prim, pools, objs, objs', n.children[k]);
    }
  }

  lemma {:induction false} ReadyAt(prim: Prim, pools: Pools, objs: Objs, n: MemNode, path: Path)
    requires Ready(prim, pools, objs, n) && At(n, path).Some?
    ensures Ready(prim, pools, objs, At(n, path).value)
  {
    if path != [] { ReadyAt(prim, pools, objs, n.children[path[0]], path[1..]); }
  }

  /** Replacing a child by one with the same type and id changes no listing. */
  lemma SameEntries(prim: Prim, n: MemNode, name: Bytes, c: MemNode)
    requires name in n.children && c.typ == n.children[name].typ && IdOf(prim, c) == IdOf(prim, n.children[name])
    ensures Entries(prim, n.(children := n.children[name := c])) == Entries(prim, n)
  {
    var m := n.(children := n.children[name := c]);
    assert m.children.Keys == n.children.Keys;
    var keys := SortedKeys(n.children.Keys);
    assert forall i :: 0 <= i < |keys| ==> Entries(prim, m)[i] == Entries(prim, n)[i];
  }

  /** Flushing one directory changes no id in the tree, and leaves it ready. */
  lemma {:induction false} FlushOne(prim: Prim, pools: Pools, objs: Objs, n: MemNode, path: Path)
    requires Sound(prim) && Ready(prim, pools, objs, n)
    requires At(n, path).Some? && IsDir(At(n, path).value) && IdOf(prim, At(n, path).value) in objs
    ensures var v := MemNode(DIRECTORY, IdOf(prim, At(n, path).value), map[]);
            && IdOf(prim, SetAt(n, path, v)) == IdOf(prim, n)
            && SetAt(n, path, v).typ == n.typ
            && Ready(prim, pools, objs, SetAt(n, path, v))
    decreases |path|
  {
    var v := MemNode(DIRECTORY, IdOf(prim, At(n, path).value), map[]);
    if path == [] {
      IdLength(prim, pools, objs, n);
    } else {
      var c := n.children[path[0]];
      FlushOne(prim, pools, objs, c, path[1..]);
      SameEntries(prim, n, path[0], SetAt(c, path[1..], v));
    }
  }

  // ---------------------------------------------------------------- the listing of directories

  function DirPaths(n: MemNode): set<Path> {
    if !IsDir(n) then {} else {[]} + set k, p | k in n.children && p in DirPaths(n.children[k]) :: [k] + p
  }

  lemma {:induction false} DirPathsAre(n: MemNode, p: Path)
    ensures p in DirPaths(n) <==> At(n, p).Some? && IsDir(At(n, p).value)
    decreases |p|
  {
    if p != [] {
      assert p == [p[0]] + p[1..];
      if IsDir(n) && p[0] in n.children { DirPathsAre(n.children[p[0]], p[1..]); }
      if p in DirPaths(n) {
        var k, q :| k in n.children && q in DirPaths(n.children[k]) && p == [k] + q;
        assert k == p[0] && q == p[1..];
      }
    }
  }

  predicate DistinctPaths(ps: seq<Path>) {
    forall i, j :: 0 <= i < j < |ps| ==> ps[i] != ps[j]
  }

  lemma {:induction false} DistinctBound(ps: seq<Path>, s: set<Path>)
    requires DistinctPaths(ps) && forall i :: 0 <= i < |ps| ==> ps[i] in s
    ensures |ps| <= |s|
  {
    if ps != [] {
      var last := ps[|ps| - 1];
      DistinctBound(ps[..|ps| - 1], s - {last});
    }
  }

  /** Shorter paths first, none twice, all of them directories. */
  predicate DirOrder(root: MemNode, order: seq<Path>) {
    && order != [] && order[0] == []
    && DistinctPaths(order)
    && (forall i, j :: 0 <= i < j < |order| ==> |order[i]| <= |order[j]|)
    && (forall i :: 0 <= i < |order| ==> At(root, order[i]).Some? && IsDir(At(root, order[i]).value))
  }

  predicate ChildListed(root: MemNode, order: seq<Path>, p: Path, name: Bytes) {
    At(root, p).Some? && name in At(root, p).value.children && IsDir(At(root, p).value.children[name]) ==> p + [name] in order
  }

  /** During the listing: everything listed so far came from a directory before `pos`, at most one level deeper. */
  predicate Frontier(order: seq<Path>, pos: nat) {
    && pos <= |order|
    && (pos < |order| ==> forall j :: 0 <= j < |order| ==> |order[j]| <= |order[pos]| + 1)
    && (forall j :: 0 < j < |order| ==> order[j] != [] && order[j][..|order[j]| - 1] in order[..pos])
  }

  /** The paths `more` are children of `p`, by names among `done`. */
  predicate ChildrenOf(p: Path, done: seq<Bytes>, more: seq<Path>) {
    forall j :: 0 <= j < |more| ==> more[j] != [] && more[j][..|more[j]| - 1] == p && more[j][|more[j]| - 1] in done
  }

  /** A child of the directory in hand is not listed yet: its only parent is here. */
  lemma FreshChild(order: seq<Path>, pos: nat, name: Bytes)
    requires DistinctPaths(order) && Frontier(order, pos) && pos < |order| && order[0] == []
    ensures order[pos] + [name] !in order
  {
    var p := order[pos];
    var p' := p + [name];
    assert p'[..|p'| - 1] == p;
    assert p !in order[..pos];
  }

  lemma OneMore(root: MemNode, order: seq<Path>, pos: nat, keys: seq<Bytes>, t: nat, more: seq<Path>)
    requires DirOrder(root, order) && Frontier(order, pos) && pos < |order| && t < |keys|
    requires DirOrder(root, order + more) && ChildrenOf(order[pos], keys[..t], more)
    requires Sorted(keys) && keys[t] in At(root, order[pos]).value.children
    requires IsDir(At(root, order[pos]).value.children[keys[t]])
    ensures var p' := order[pos] + [keys[t]];
            DirOrder(root, order + more + [p']) && ChildrenOf(order[pos], keys[..t + 1], more + [p'])
  {
    var p' := order[pos] + [keys[t]];
    AtAppend(root, order[pos], [keys[t]]);
    FreshChild(order, pos, keys[t]);
    assert keys[t] !in keys[..t] by { LessIrreflexive(keys[t]); }
    assert keys[..t + 1] == keys[..t] + [keys[t]];
    assert forall j :: 0 <= j < |more| ==> more[j][|more[j]| - 1] != keys[t];
    AppendDir(root, order, more, p');
  }

  lemma AppendDir(root: MemNode, order: seq<Path>, more: seq<Path>, p: Path)
    requires DirOrder(root, order + more) && p !in order && p !in more
    requires At(root, p).Some? && IsDir(At(root, p).value)
    requires forall j :: 0 <= j < |order| ==> |order[j]| <= |p|
    requires forall j :: 0 <= j < |more| ==> |more[j]| <= |p|
    requires order != []
    ensures DirOrder(root, order + more + [p])
  {
    var all := order + more;
    forall j | 0 <= j < |all| ensures all[j] != p && |all[j]| <= |p| {
      if j < |order| { assert all[j] == order[j] && order[j] in order; }
      else { assert all[j] == more[j - |order|] && more[j - |order|] in more; }
    }
  }

  /** The body of the first loop: the directories among the children of `order[pos]`, in name order. */
  method ListChildren(root: MemNode, order: seq<Path>, pos: nat) returns (more: seq<Path>)
    requires DirOrder(root, order) && Frontier(order, pos) && pos < |order|
    ensures DirOrder(root, order + more)
    ensures exists keys :: ChildrenOf(order[pos], keys, more)
    ensures AllListed(root, more, order[pos])
  {
    var here := At(root, order[pos]).value;
    var keys := SortedKeys(here.children.Keys);
    more := [];
    assert order + more == order;
    for t := 0 to |keys|
      invariant ListState(root, order, pos, keys, t, more)
    {
      assert keys[t] in keys;
      ListOne(root, order, pos, keys, t, more);
      if IsDir(here.children[keys[t]]) {
        more := more + [order[pos] + [keys[t]]];
      }
    }
    assert keys[..|keys|] == keys;
    assert ChildrenOf(order[pos], keys, more);
  }

  /** With the first `t` children of `order[pos]` looked at. */
  predicate ListState(root: MemNode, order: seq<Path>, pos: nat, keys: seq<Bytes>, t: nat, more: seq<Path>)
    requires pos < |order| && t <= |keys|
  {
    && DirOrder(root, order + more) && ChildrenOf(order[pos], keys[..t], more)
    && forall name :: name in keys[..t] ==> ChildListed(root, more, order[pos], name)
  }

  lemma ListedWith(root: MemNode, p: Path, done: seq<Bytes>, name: Bytes, more: seq<Path>, more': seq<Path>)
    requires (forall x :: x in done ==> ChildListed(root, more, p, x)) && ChildListed(root, more', p, name)
    requires forall q :: q in more ==> q in more'
    ensures forall x :: x in done + [name] ==> ChildListed(root, more', p, x)
  {
  }

  lemma ListOne(root: MemNode, order: seq<Path>, pos: nat, keys: seq<Bytes>, t: nat, more: seq<Path>)
    requires DirOrder(root, order) && Frontier(order, pos) && pos < |order| && t < |keys| && Sorted(keys)
    requires keys[t] in At(root, order[pos]).value.children && ListState(root, order, pos, keys, t, more)
    ensures ListState(root, order, pos, keys, t + 1,
                      if IsDir(At(root, order[pos]).value.children[keys[t]]) then more + [order[pos] + [keys[t]]] else more)
  {
    var p, name := order[pos], keys[t];
    assert keys[..t + 1] == keys[..t] + [name];
    if IsDir(At(root, p).value.children[name]) {
      OneMore(root, order, pos, keys, t, more);
      var more' := more + [p + [name]];
      assert order + more' == order + more + [p + [name]];
      ListedWith(root, p, keys[..t], name, more, more');
    } else {
      ListedWith(root, p, keys[..t], name, more, more);
      MoreDone(p, keys[..t], name, more);
    }
  }

  lemma MoreDone(p: Path, done: seq<Bytes>, name: Bytes, more: seq<Path>)
    requires ChildrenOf(p, done, more)
    ensures ChildrenOf(p, done + [name], more)
  {
  }

  lemma FrontierParents(order: seq<Path>, pos: nat, keys: seq<Bytes>, more: seq<Path>)
    requires Frontier(order, pos) && pos < |order| && ChildrenOf(order[pos], keys, more)
    ensures var all := order + more;
            forall j :: 0 < j < |all| ==> all[j] != [] && all[j][..|all[j]| - 1] in all[..pos + 1]
  {
    var all := order + more;
    assert all[..pos + 1] == order[..pos] + [order[pos]];
    forall j | 0 < j < |all| ensures all[j] != [] && all[j][..|all[j]| - 1] in all[..pos + 1] {
      if j >= |order| { assert all[j] == more[j - |order|]; }
    }
  }

  lemma FrontierNext(root: MemNode, order: seq<Path>, pos: nat, keys: seq<Bytes>, more: seq<Path>)
    requires DirOrder(root, order) && Frontier(order, pos) && pos < |order| && ChildrenOf(order[pos], keys, more)
    ensures Frontier(order + more, pos + 1)
  {
    FrontierParents(order, pos, keys, more);
    var all := order + more;
    if pos + 1 < |all| {
      var deep := |order[pos]|;
      assert forall j :: 0 <= j < |more| ==> |more[j]| == deep + 1;
      assert |all[pos + 1]| >= deep;
    }
  }

  lemma OrderBound(root: MemNode, order: seq<Path>)
    requires DirOrder(root, order)
    ensures |order| <= |DirPaths(root)|
  {
    forall i | 0 <= i < |order| ensures order[i] in DirPaths(root) { DirPathsAre(root, order[i]); }
    DistinctBound(order, DirPaths(root));
  }

  /** Every directory before `pos` has its child directories listed. */
  predicate ListedTo(root: MemNode, order: seq<Path>, pos: nat)
    requires pos <= |order|
  {
    forall p :: p in order[..pos] ==> AllListed(root, order, p)
  }

  predicate AllListed(root: MemNode, order: seq<Path>, p: Path) {
    At(root, p).Some? ==> forall name :: name in At(root, p).value.children ==> ChildListed(root, order, p, name)
  }

  lemma ListedNext(root: MemNode, order: seq<Path>, pos: nat, more: seq<Path>)
    requires pos < |order| && ListedTo(root, order, pos) && AllListed(root, more, order[pos])
    ensures ListedTo(root, order + more, pos + 1)
  {
    var all := order + more;
    assert all[..pos + 1] == order[..pos] + [order[pos]];
    forall p | p in all[..pos + 1] ensures AllListed(root, all, p) {
      if p != order[pos] { assert p in order[..pos] && AllListed(root, order, p); }
    }
  }

  /** The first loop of `flush_tree`: every directory, breadth first, by a list that grows while it is walked. */
  method ListDirs(root: MemNode) returns (order: seq<Path>)
    requires IsDir(root)
    ensures DirOrder(root, order) && ListedTo(root, order, |order|)
  {
    order := [[]];
    var pos := 0;
    while pos < |order|
      invariant DirOrder(root, order) && Frontier(order, pos) && ListedTo(root, order, pos)
      decreases |DirPaths(root)| - pos
    {
      OrderBound(root, order);
      var more := ListChildren(root, order, pos);
      ghost var keys :| ChildrenOf(order[pos], keys, more);
      FrontierNext(root, order, pos, keys, more);
      ListedNext(root, order, pos, more);
      order := order + more;
      pos := pos + 1;
    }
  }

  // ---------------------------------------------------------------- the flush

  predicate Pending(n: MemNode) {
    IsDir(n) && n.id == []
  }

  /** A listed directory is pending, and its pending children are listed too. */
  ghost predicate Todo(root: MemNode, order: seq<Path>, p: Path) {
    && At(root, p).Some? && Pending(At(root, p).value)
    && forall name :: name in At(root, p).value.children && Pending(At(root, p).value.children[name]) ==> p + [name] in order
  }

  /** What the second loop keeps of the directories still listed. */
  ghost predicate Unflushed(root: MemNode, order: seq<Path>) {
    forall i :: 0 <= i < |order| ==> Todo(root, order, order[i])
  }

  /** Shorter paths first and none twice: the part of `DirOrder` that does not depend on the tree. */
  predicate ByLength(order: seq<Path>) {
    && DistinctPaths(order)
    && forall i, j :: 0 <= i < j < |order| ==> |order[i]| <= |order[j]|
  }

  /** The last listed directory has no pending children left: they were longer, hence later. */
  lemma LastIsReady(root: MemNode, order: seq<Path>, name: Bytes)
    requires ByLength(order) && order != [] && Unflushed(root, order)
    requires name in At(root, order[|order| - 1]).value.children
    ensures !Pending(At(root, order[|order| - 1]).value.children[name])
  {
    var p := order[|order| - 1];
    assert Todo(root, order, p);
    forall j | 0 <= j < |order| ensures order[j] != p + [name] {
      assert |order[j]| <= |p|;
    }
  }

  /** Flushing the last directory keeps the rest of the list pending. */
  lemma FlushLast(root: MemNode, order: seq<Path>, id: Id)
    requires ByLength(order) && order != [] && Unflushed(root, order) && id != []
    ensures var p := order[|order| - 1];
            Unflushed(SetAt(root, p, MemNode(DIRECTORY, id, map[])), order[..|order| - 1])
  {
    var p := order[|order| - 1];
    var v := MemNode(DIRECTORY, id, map[]);
    var root' := SetAt(root, p, v);
    var rest := order[..|order| - 1];
    assert Todo(root, order, p);
    forall k | 0 <= k < |rest| ensures Todo(root', rest, rest[k]) {
      var q := rest[k];
      assert q == order[k] && Todo(root, order, q);
      assert q != p && |q| <= |p|;
      if IsPrefix(q, p) {
        FlushLastAbove(root, order, id, q);
      } else {
        assert q[..|q|] == q;
        AtSetElsewhere(root, p, v, q);
        forall name | name in At(root', q).value.children && Pending(At(root', q).value.children[name])
          ensures q + [name] in rest
        {
          assert q + [name] in order;
          assert (q + [name])[..|q|] == q;
        }
      }
    }
  }

  lemma FlushLastAbove(root: MemNode, order: seq<Path>, id: Id, q: Path)
    requires order != [] && At(root, order[|order| - 1]).Some? && id != [] && Todo(root, order, q)
    requires var p := order[|order| - 1]; IsPrefix(q, p) && q != p
    ensures var p := order[|order| - 1];
            Todo(SetAt(root, p, MemNode(DIRECTORY, id, map[])), order[..|order| - 1], q)
  {
    var p := order[|order| - 1];
    var v := MemNode(DIRECTORY, id, map[]);
    var root' := SetAt(root, p, v);
    AtSetAbove(root, p, v, q);
    var tail := p[|q|..];
    assert p == q + tail && tail != [];
    AtAppend(root, q, tail);
    var n, n' := At(root, q).value, At(root', q).value;
    assert n' == SetAt(n, tail, v);
    assert n'.children[tail[0]] == SetAt(n.children[tail[0]], tail[1..], v);
    forall name | name in n'.children && Pending(n'.children[name]) ensures q + [name] in order[..|order| - 1] {
      if name == tail[0] { SetAtKeepsPending(n.children[name], tail[1..], v); }
      assert q + [name] in order;
      assert (q + [name])[|q|..] == [name];
    }
  }

  lemma SetAtKeepsPending(n: MemNode, path: Path, v: MemNode)
    ensures Pending(SetAt(n, path, v)) ==> Pending(if path == [] then v else n)
  {
  }

  lemma {:induction false} BuiltAt(n: MemNode, path: Path)
    requires Built(n) && At(n, path).Some?
    ensures Built(At(n, path).value)
  {
    if path != [] { BuiltAt(n.children[path[0]], path[1..]); }
  }

  lemma UnflushedAtFirst(root: MemNode, order: seq<Path>)
    requires Built(root) && DirOrder(root, order) && ListedTo(root, order, |order|)
    ensures Unflushed(root, order)
  {
    TakeAll(order);
    forall i | 0 <= i < |order| ensures Todo(root, order, order[i]) {
      var p := order[i];
      BuiltAt(root, p);
      assert p in order && AllListed(root, order, p);
      forall name | name in At(root, p).value.children && Pending(At(root, p).value.children[name])
        ensures p + [name] in order
      {
        assert ChildListed(root, order, p, name);
      }
    }
  }

  /** The entries a directory shows once its child directories are flushed are its listing. */
  lemma ShownEntries(prim: Prim, n: MemNode, es: seq<TreeEntry>)
    requires forall name :: name in n.children ==> !Pending(n.children[name])
    requires |es| == |SortedKeys(n.children.Keys)|
    requires forall i :: 0 <= i < |es| ==>
               var name := SortedKeys(n.children.Keys)[i];
               name in n.children && es[i] == TreeEntry(name, n.children[name].typ, n.children[name].id)
    ensures es == Entries(prim, n)
  {
  }

  method CollectEntries(n: MemNode) returns (entries: seq<TreeEntry>)
    ensures |entries| == |SortedKeys(n.children.Keys)|
    ensures forall i :: 0 <= i < |entries| ==>
              var name := SortedKeys(n.children.Keys)[i];
              name in n.children && entries[i] == TreeEntry(name, n.children[name].typ, n.children[name].id)
  {
    var keys := SortedKeys(n.children.Keys);
    entries := [];
    for i := 0 to |keys|
      invariant |entries| == i
      invariant forall k :: 0 <= k < i ==>
                  keys[k] in n.children && entries[k] == TreeEntry(keys[k], n.children[keys[k]].typ, n.children[keys[k]].id)
    {
      assert keys[i] in keys;
      entries := entries + [TreeEntry(keys[i], n.children[keys[i]].typ, n.children[keys[i]].id)];
    }
  }

  lemma EntriesPresent(prim: Prim, pools: Pools, objs: Objs, n: MemNode)
    requires Ready(prim, pools, objs, n) && forall name :: name in n.children ==> !Pending(n.children[name])
    ensures forall e :: e in Entries(prim, n) ==> e.id in objs
  {
    var keys := SortedKeys(n.children.Keys);
    forall i | 0 <= i < |keys| ensures Entries(prim, n)[i].id in objs {
      assert keys[i] in keys;
      ChildPresent(prim, pools, objs, n, keys[i]);
    }
  }

  lemma ChildPresent(prim: Prim, pools: Pools, objs: Objs, n: MemNode, name: Bytes)
    requires Ready(prim, pools, objs, n) && name in n.children && !Pending(n.children[name])
    ensures IdOf(prim, n.children[name]) in objs
  {
  }

  /** One turn of the second loop: list a directory, put the listing, keep the id, drop the children. */
  method FlushDir(store: TreeStore, tree: Builder, p: Path)
    requires store.Valid() && Sound(store.prim) && Ready(store.prim, store.pools, store.db.objs, tree.root)
    requires At(tree.root, p).Some? && Pending(At(tree.root, p).value)
    requires forall name :: name in At(tree.root, p).value.children ==> !Pending(At(tree.root, p).value.children[name])
    modifies store`db, store`log, tree
    ensures store.Valid() && Ready(store.prim, store.pools, store.db.objs, tree.root)
    ensures IdOf(store.prim, tree.root) == IdOf(store.prim, old(tree.root))
    ensures var id := IdOf(store.prim, At(old(tree.root), p).value);
            id != [] && id in store.db.objs && tree.root == SetAt(old(tree.root), p, MemNode(DIRECTORY, id, map[]))
    ensures MorePut(old(store.db), store.db)
    ensures Now(old(store.log), store.log, store.db)
  {
    var dir := At(tree.root, p).value;
    ReadyAt(store.prim, store.pools, store.db.objs, tree.root, p);
    var entries := CollectEntries(dir);
    ShownEntries(store.prim, dir, entries);
    EntriesValid(store.prim, store.pools, store.db.objs, dir);
    EntriesPresent(store.prim, store.pools, store.db.objs, dir);
    IdLength(store.prim, store.pools, store.db.objs, dir);
    ghost var objs := store.db.objs;
    var put := store.PutTree(entries);
    ReadyGrows(store.prim, store.pools, objs, store.db.objs, tree.root);
    FlushOne(store.prim, store.pools, store.db.objs, tree.root, p);
    tree.root := SetAt(tree.root, p, MemNode(DIRECTORY, put.value, map[]));
  }

  /** Puts only: the records stay and the objects grow, in every view on the way. */
  ghost predicate OnlyPuts(db0: Db, log0: seq<Cas>, db: Db, log: seq<Cas>) {
    && db.meta == db0.meta && db0.objs.Keys <= db.objs.Keys
    && log0 <= log && forall k :: |log0| <= k < |log| ==> MorePut(db0, log[k].View())
  }

  predicate MorePut(a: Db, b: Db) {
    b.meta == a.meta && a.objs.Keys <= b.objs.Keys
  }

  /** In the middle of a flush: the store in order, the tree ready, its id still the one it started with. */
  ghost predicate Flushing(store: TreeStore, tree: Builder, goal: Id)
    reads store, tree
  {
    && store.Valid() && Sound(store.prim)
    && Ready(store.prim, store.pools, store.db.objs, tree.root)
    && IdOf(store.prim, tree.root) == goal
  }

  /** With `order[..i]` still to do, since the store was at `db0`. */
  ghost predicate FlushState(store: TreeStore, tree: Builder, goal: Id, order: seq<Path>, i: nat, db0: Db,
                             log0: seq<Cas>)
    reads store, tree
  {
    && i <= |order| && ByLength(order) && order != [] && order[0] == []
    && Flushing(store, tree, goal) && Unflushed(tree.root, order[..i])
    && (i == 0 ==> tree.root.id != [] && tree.root.id in store.db.objs)
    && OnlyPuts(db0, log0, store.db, store.log)
  }

  lemma TakeLast(order: seq<Path>, i: nat, pos: nat)
    requires ByLength(order) && i + 1 == pos <= |order|
    ensures var todo := order[..pos];
            ByLength(todo) && todo != [] && todo[|todo| - 1] == order[i] && todo[..|todo| - 1] == order[..i]
  {
  }

  lemma TakeAll(order: seq<Path>)
    ensures order[..|order|] == order
  {
  }

  lemma OnlyPutsThen(a: Db, la: seq<Cas>, b: Db, lb: seq<Cas>, c: Db, lc: seq<Cas>)
    requires OnlyPuts(a, la, b, lb) && MorePut(b, c) && Now(lb, lc, c)
    ensures OnlyPuts(a, la, c, lc)
  {
    forall k | |la| <= k < |lc| ensures MorePut(a, lc[k].View()) {
      if k < |lb| { assert lc[k] == lb[k]; }
    }
  }

  lemma OnlyPutsChain(a: Db, la: seq<Cas>, b: Db, lb: seq<Cas>, c: Db, lc: seq<Cas>)
    requires OnlyPuts(a, la, b, lb) && OnlyPuts(b, lb, c, lc)
    ensures OnlyPuts(a, la, c, lc)
  {
    forall k | |la| <= k < |lc| ensures MorePut(a, lc[k].View()) {
      if k < |lb| { assert lc[k] == lb[k]; }
    }
  }

  /** That turn in the list: `order[i]` is the last directory still to do. */
  method FlushNext(store: TreeStore, tree: Builder, ghost goal: Id, order: seq<Path>, i: nat, ghost pos: nat,
                   ghost db0: Db, ghost log0: seq<Cas>)
    requires i + 1 == pos <= |order| && FlushState(store, tree, goal, order, pos, db0, log0)
    modifies store`db, store`log, tree
    ensures FlushState(store, tree, goal, order, i, db0, log0)
  {
    ghost var todo := order[..pos];
    TakeLast(order, i, pos);
    var p := order[i];
    assert Todo(tree.root, todo, todo[|todo| - 1]);
    forall name | name in At(tree.root, p).value.children ensures !Pending(At(tree.root, p).value.children[name]) {
      LastIsReady(tree.root, todo, name);
    }
    ghost var before, db, log := tree.root, store.db, store.log;
    FlushDir(store, tree, p);
    FlushLast(before, todo, IdOf(store.prim, At(before, p).value));
    OnlyPutsThen(db0, log0, db, log, store.db, store.log);
  }

  /** The second loop of `flush_tree`: the list backwards, so children come before their parents. */
  method FlushListed(store: TreeStore, tree: Builder, order: seq<Path>, ghost goal: Id)
    requires FlushState(store, tree, goal, order, |order|, store.db, store.log)
    modifies store`db, store`log, tree
    ensures FlushState(store, tree, goal, order, 0, old(store.db), old(store.log))
  {
    ghost var db0, log0 := store.db, store.log;
    var pos := |order|;
    while pos > 0
      invariant 0 <= pos <= |order| && FlushState(store, tree, goal, order, pos, db0, log0)
    {
      var i := pos - 1;
      FlushNext(store, tree, goal, order, i, pos, db0, log0);
      pos := i;
    }
  }

  /**
   * `flush_tree`. The id it returns is the hash of the recursively sorted and encoded tree, although the tree is
   * flushed bottom up from a breadth-first list; every view of the store on the way is in order.
   */
  method FlushTree(store: TreeStore, tree: Builder) returns (id: Id)
    requires store.Valid() && Sound(store.prim) && Built(tree.root) && IsDir(tree.root)
    requires Ready(store.prim, store.pools, store.db.objs, tree.root)
    modifies store`db, store`log, tree
    ensures store.Valid() && id == IdOf(store.prim, old(tree.root)) && id in store.db.objs
    ensures OnlyPuts(old(store.db), old(store.log), store.db, store.log)
  {
    var order := ListDirs(tree.root);
    UnflushedAtFirst(tree.root, order);
    TakeAll(order);
    FlushListed(store, tree, order, IdOf(store.prim, tree.root));
    id := tree.root.id;
  }
}
