/** The in-memory tree that tar items are folded into: `MemNode`, `lookup_node` and `add_node`. */
module MemTree {
  import opened Basics
  import opened TreeCodec

  type Path = seq<Bytes>

  /** Nodes own their children by value, as in a `std::map` of nodes. The type is 'd' until something else is stored. */
  datatype MemNode = MemNode(typ: Byte, id: Id, children: map<Bytes, MemNode>)

  const EmptyDir := MemNode(DIRECTORY, [], map[])

  predicate IsDir(n: MemNode) {
    n.typ == DIRECTORY
  }

  /** `lookup_node`; a path of names also serves as the pointer the loops hold into the tree. */
  function At(n: MemNode, path: Path): Option<MemNode> {
    if path == [] then Some(n)
    else if !IsDir(n) || path[0] !in n.children then None
    else At(n.children[path[0]], path[1..])
  }

  function Child(n: MemNode, name: Bytes): MemNode {
    if name in n.children then n.children[name] else EmptyDir
  }

  /** Assignment through a pointer: the tree with `v` at `path`. */
  function SetAt(n: MemNode, path: Path, v: MemNode): MemNode
    decreases |path|
  {
    if path == [] then v
    else n.(children := n.children[path[0] := SetAt(Child(n, path[0]), path[1..], v)])
  }

  /** What `add_node` does, by recursion on the path. */
  function Add(cur: MemNode, comps: Path, node: MemNode, isRoot: bool): Result<MemNode>
    decreases |comps|
  {
    if comps == [] then
      if IsDir(cur) && IsDir(node) then Ok(cur)
      else if IsDir(cur) && (cur.children != map[] || isRoot) then Err(NonEmptyDirectory)
      else Ok(node)
    else if !IsDir(cur) then Err(ParentNotDirectory)
    else
      match Add(Child(cur, comps[0]), comps[1..], node, false)
      case Err(e) => Err(e)
      case Ok(c) => Ok(cur.(children := cur.children[comps[0] := c]))
  }

  predicate IsPrefix(p: Path, q: Path) {
    |p| <= |q| && q[..|p|] == p
  }

  lemma PrefixTail(p: Path, q: Path)
    requires p != [] && q != []
    ensures IsPrefix(p, q) <==> p[0] == q[0] && IsPrefix(p[1..], q[1..])
    ensures p == q <==> p[0] == q[0] && p[1..] == q[1..]
  {
    if p[0] == q[0] && p[1..] == q[1..] {
      assert p == [p[0]] + p[1..] == q;
    }
    if |p| <= |q| {
      if p[0] == q[0] && q[1..][..|p| - 1] == p[1..] {
        assert q[..|p|] == [q[0]] + q[1..][..|p| - 1] == p;
      }
    }
  }

  lemma {:induction false} AtAppend(n: MemNode, p: Path, q: Path)
    ensures At(n, p + q) == if At(n, p).Some? then At(At(n, p).value, q) else None
  {
    if p == [] {
      assert p + q == q;
    } else if IsDir(n) && p[0] in n.children {
      assert (p + q)[1..] == p[1..] + q;
      AtAppend(n.children[p[0]], p[1..], q);
    }
  }

  lemma {:induction false} AtSetAt(n: MemNode, path: Path, v: MemNode)
    requires At(n, path).Some?
    ensures At(SetAt(n, path, v), path) == Some(v)
  {
    if path != [] { AtSetAt(n.children[path[0]], path[1..], v); }
  }

  /** Elsewhere, the tree is as before: a path that neither contains nor is contained in the assigned one. */
  lemma {:induction false} AtSetElsewhere(n: MemNode, path: Path, v: MemNode, q: Path)
    requires At(n, path).Some? && !IsPrefix(path, q) && !IsPrefix(q, path)
    ensures At(SetAt(n, path, v), q) == At(n, q)
  {
    if path[0] == q[0] && IsDir(n) && q[0] in n.children {
      PrefixTail(path, q);
      PrefixTail(q, path);
      AtSetElsewhere(n.children[path[0]], path[1..], v, q[1..]);
    }
  }

  /** At an ancestor, the node is the old one with the assignment inside. */
  lemma {:induction false} AtSetAbove(n: MemNode, path: Path, v: MemNode, q: Path)
    requires At(n, path).Some? && IsPrefix(q, path)
    ensures At(n, q).Some? && At(SetAt(n, path, v), q) == Some(SetAt(At(n, q).value, path[|q|..], v))
  {
    if q != [] {
      assert q[0] == path[..|q|][0] == path[0];
      assert path[1..][..|q| - 1] == path[..|q|][1..] == q[1..];
      AtSetAbove(n.children[path[0]], path[1..], v, q[1..]);
      assert path[1..][|q| - 1..] == path[|q|..];
    }
  }

  // ---------------------------------------------------------------- what Add does to every path

  predicate Blocked(n: MemNode, comps: Path) {
    exists k :: 0 <= k < |comps| && At(n, comps[..k]).Some? && !IsDir(At(n, comps[..k]).value)
  }

  lemma BlockedTail(n: MemNode, comps: Path)
    requires comps != [] && IsDir(n)
    ensures Blocked(n, comps) <==> Blocked(Child(n, comps[0]), comps[1..])
  {
    var c, rest := Child(n, comps[0]), comps[1..];
    if Blocked(n, comps) {
      var k :| 0 <= k < |comps| && At(n, comps[..k]).Some? && !IsDir(At(n, comps[..k]).value);
      assert comps[..k][1..] == rest[..k - 1];
      assert At(c, rest[..k - 1]) == At(n, comps[..k]);
    }
    if Blocked(c, rest) {
      var k :| 0 <= k < |rest| && At(c, rest[..k]).Some? && !IsDir(At(c, rest[..k]).value);
      assert comps[..k + 1][1..] == rest[..k] && comps[..k + 1][0] == comps[0];
    }
  }

  /** Exactly when `add_node` throws, and what. */
  lemma {:induction false} AddFails(n: MemNode, comps: Path, node: MemNode, isRoot: bool)
    ensures var r := Add(n, comps, node, isRoot);
            && (r == Err(ParentNotDirectory) <==> Blocked(n, comps))
            && (r == Err(NonEmptyDirectory) <==>
                  && !Blocked(n, comps) && !IsDir(node) && At(n, comps).Some? && IsDir(At(n, comps).value)
                  && (At(n, comps).value.children != map[] || (isRoot && comps == [])))
            && (r.Err? ==> r.error == ParentNotDirectory || r.error == NonEmptyDirectory)
    decreases |comps|
  {
    if comps != [] {
      if IsDir(n) {
        BlockedTail(n, comps);
        AddFails(Child(n, comps[0]), comps[1..], node, false);
        if comps[0] !in n.children {
          assert At(n, comps) == None;
          if comps[1..] == [] {
            assert At(EmptyDir, []) == Some(EmptyDir);
          } else {
            assert At(EmptyDir, comps[1..]) == None;
          }
        }
      } else {
        assert comps[..0] == [] && At(n, comps[..0]) == Some(n);
        assert At(n, comps) == None;
      }
    }
  }

  lemma {:induction false} AddAtSelf(n: MemNode, comps: Path, node: MemNode, isRoot: bool)
    requires Add(n, comps, node, isRoot).Ok? && (IsDir(node) ==> node == EmptyDir)
    ensures At(Add(n, comps, node, isRoot).value, comps)
            == if IsDir(node) && At(n, comps).Some? && IsDir(At(n, comps).value) then At(n, comps) else Some(node)
    decreases |comps|
  {
    if comps != [] { AddAtSelf(Child(n, comps[0]), comps[1..], node, false); }
  }

  lemma {:induction false} AddAtAbove(n: MemNode, comps: Path, node: MemNode, isRoot: bool, q: Path)
    requires Add(n, comps, node, isRoot).Ok? && IsPrefix(q, comps) && q != comps
    ensures var m := Add(n, comps, node, isRoot).value;
            At(m, q).Some? && IsDir(At(m, q).value)
    decreases |comps|
  {
    if q != [] {
      PrefixTail(q, comps);
      AddAtAbove(Child(n, comps[0]), comps[1..], node, false, q[1..]);
    }
  }

  lemma {:induction false} AddAtBelow(n: MemNode, comps: Path, node: MemNode, isRoot: bool, q: Path)
    requires Add(n, comps, node, isRoot).Ok? && IsPrefix(comps, q) && q != comps
    requires if IsDir(node) then node == EmptyDir else node.children == map[]
    ensures At(Add(n, comps, node, isRoot).value, q) == if IsDir(node) then At(n, q) else None
    decreases |comps|
  {
    if comps == [] {
      assert q != [];
    } else {
      PrefixTail(comps, q);
      AddAtBelow(Child(n, comps[0]), comps[1..], node, false, q[1..]);
      if comps[0] !in n.children { assert At(EmptyDir, q[1..]) == None; }
    }
  }

  lemma {:induction false} AddAtElsewhere(n: MemNode, comps: Path, node: MemNode, isRoot: bool, q: Path)
    requires Add(n, comps, node, isRoot).Ok? && !IsPrefix(comps, q) && !IsPrefix(q, comps)
    ensures At(Add(n, comps, node, isRoot).value, q) == At(n, q)
    decreases |comps|
  {
    if q[0] == comps[0] {
      PrefixTail(comps, q);
      PrefixTail(q, comps);
      AddAtElsewhere(Child(n, comps[0]), comps[1..], node, false, q[1..]);
      if comps[0] !in n.children {
        assert q[1..] != [];
        assert At(EmptyDir, q[1..]) == None;
      }
    }
  }

  // ---------------------------------------------------------------- the loop

  /** Inserting a default node on the way does not change what the rest of the walk will do. */
  lemma {:induction false} AddAfterInsert(n: MemNode, comps: Path, k: nat, node: MemNode, isRoot: bool)
    requires k < |comps| && At(n, comps[..k]).Some? && IsDir(At(n, comps[..k]).value)
    requires comps[k] !in At(n, comps[..k]).value.children
    ensures Add(SetAt(n, comps[..k + 1], EmptyDir), comps, node, isRoot) == Add(n, comps, node, isRoot)
    ensures At(SetAt(n, comps[..k + 1], EmptyDir), comps[..k + 1]) == Some(EmptyDir)
    decreases k
  {
    var m := SetAt(n, comps[..k + 1], EmptyDir);
    assert comps[..k + 1][0] == comps[0];
    if k == 0 {
      assert comps[..0] == [];
      assert comps[..1][1..] == [];
      assert SetAt(Child(n, comps[0]), comps[..1][1..], EmptyDir) == EmptyDir;
      assert m == n.(children := n.children[comps[0] := EmptyDir]);
      assert Child(m, comps[0]) == EmptyDir == Child(n, comps[0]);
      match Add(EmptyDir, comps[1..], node, false)
      case Err(_) =>
      case Ok(c) => assert m.children[comps[0] := c] == n.children[comps[0] := c];
    } else {
      assert comps[..k][0] == comps[0] && comps[..k][1..] == comps[1..][..k - 1];
      assert comps[..k + 1][1..] == comps[1..][..k];
      var c := n.children[comps[0]];
      AddAfterInsert(c, comps[1..], k - 1, node, false);
      var c' := SetAt(c, comps[1..][..k], EmptyDir);
      assert m == n.(children := n.children[comps[0] := c']);
      match Add(c, comps[1..], node, false)
      case Err(_) =>
      case Ok(r) => assert m.children[comps[0] := r] == n.children[comps[0] := r];
    }
  }

  /** At the end of the walk, `Add` is an assignment there. */
  lemma {:induction false} AddHere(n: MemNode, comps: Path, node: MemNode, isRoot: bool)
    requires At(n, comps).Some?
    ensures Add(n, comps, node, isRoot) ==
            match Add(At(n, comps).value, [], node, isRoot && comps == [])
            case Err(e) => Err(e)
            case Ok(v) => Ok(SetAt(n, comps, v))
    decreases |comps|
  {
    if comps != [] { AddHere(n.children[comps[0]], comps[1..], node, false); }
  }

  lemma {:induction false} SetAtSame(n: MemNode, path: Path)
    requires At(n, path).Some?
    ensures SetAt(n, path, At(n, path).value) == n
  {
    if path != [] {
      SetAtSame(n.children[path[0]], path[1..]);
      assert n.children[path[0] := n.children[path[0]]] == n.children;
    }
  }

  /** The tree under construction. */
  class Builder {
    var root: MemNode

    constructor ()
      ensures root == EmptyDir
    {
      root := EmptyDir;
    }

    /** `add_node`: walk down, inserting default nodes, then decide what may be overwritten. */
    method AddNode(comps: Path, node: MemNode) returns (r: Result<()>)
      requires IsDir(node) ==> node == EmptyDir
      modifies this
      ensures match Add(old(root), comps, node, true)
              case Err(e) => r == Err(e)
              case Ok(tree) => r == Ok(()) && root == tree
    {
      ghost var goal := Add(root, comps, node, true);
      var cur: Path := [];
      for idx := 0 to |comps|
        invariant cur == comps[..idx] && At(root, cur).Some?
        invariant Add(root, comps, node, true) == goal
      {
        var here := At(root, cur).value;
        if !IsDir(here) {
          AddFails(root, comps, node, true);
          return Err(ParentNotDirectory);
        }
        var last := idx + 1 == |comps|;
        var inserted := comps[idx] !in here.children;
        assert comps[..idx + 1] == comps[..idx] + [comps[idx]];
        if inserted {
          AddAfterInsert(root, comps, idx, node, true);
          root := SetAt(root, comps[..idx + 1], EmptyDir);
        } else {
          AtAppend(root, comps[..idx], [comps[idx]]);
        }
        cur := cur + [comps[idx]];
        if last && inserted {
          assert comps[..idx + 1] == comps;
          AddHere(root, comps, node, true);
          root := SetAt(root, comps, node);
          return Ok(());
        }
      }
      assert comps[..|comps|] == comps;
      AddHere(root, comps, node, true);
      var target := At(root, cur).value;
      if IsDir(target) {
        if IsDir(node) {
          SetAtSame(root, comps);
          return Ok(());
        }
        if target.children != map[] || cur == [] {
          return Err(NonEmptyDirectory);
        }
      }
      root := SetAt(root, cur, node);
      r := Ok(());
    }
  }
}
