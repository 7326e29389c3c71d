/** `split_path`: the components of a tar or lookup path. */
module Paths {
  import opened Basics
  import opened TreeCodec

  const SLASH: Byte := 47
  const DOT: Bytes := [46]
  const DOTDOT: Bytes := [46, 46]
  const MAX_TREE_DEPTH: nat := 512

  /** Position of the first slash, or the length. */
  function FindSlash(path: Bytes): (n: nat)
    ensures n <= |path|
    ensures n < |path| ==> path[n] == SLASH
    ensures forall i :: 0 <= i < n ==> path[i] != SLASH
  {
    if path == [] || path[0] == SLASH then 0 else 1 + FindSlash(path[1..])
  }

  function Rest(path: Bytes): (rest: Bytes)
    requires path != []
    ensures |rest| < |path|
  {
    if FindSlash(path) == |path| then [] else path[FindSlash(path) + 1..]
  }

  /** One component against the ones so far; nothing when a limit is exceeded. */
  function Push(comps: seq<Bytes>, comp: Bytes): Option<seq<Bytes>> {
    if comp == [] || comp == DOT then Some(comps)
    else if comp == DOTDOT then Some(if comps == [] then [] else comps[..|comps| - 1])
    else if |comp| > MAX_NAME_LEN || |comps| >= MAX_TREE_DEPTH then None
    else Some(comps + [comp])
  }

  function SplitFrom(path: Bytes, comps: seq<Bytes>): Option<seq<Bytes>>
    decreases |path|
  {
    if path == [] then Some(comps)
    else
      var next := Push(comps, path[..FindSlash(path)]);
      if next.None? then None else SplitFrom(Rest(path), next.value)
  }

  function Split(path: Bytes): Option<seq<Bytes>> {
    SplitFrom(path, [])
  }

  method SplitPath(path0: Bytes) returns (r: Option<seq<Bytes>>)
    ensures r == Split(path0)
  {
    var path := path0;
    var comps: seq<Bytes> := [];
    while path != []
      invariant Split(path0) == SplitFrom(path, comps)
      decreases |path|
    {
      var slash := FindSlash(path);
      var comp := path[..slash];
      path := if slash == |path| then [] else path[slash + 1..];
      if comp == [] || comp == DOT {
        continue;
      }
      if comp == DOTDOT {
        if comps != [] {
          comps := comps[..|comps| - 1];
        }
        continue;
      }
      if |comp| > MAX_NAME_LEN || |comps| >= MAX_TREE_DEPTH {
        return None;
      }
      comps := comps + [comp];
    }
    r := Some(comps);
  }

  /** A name an accepted path can have. */
  predicate Clean(name: Bytes) {
    name != [] && name != DOT && name != DOTDOT && |name| <= MAX_NAME_LEN && forall i :: 0 <= i < |name| ==> name[i] != SLASH
  }

  predicate AllClean(comps: seq<Bytes>) {
    |comps| <= MAX_TREE_DEPTH && forall i :: 0 <= i < |comps| ==> Clean(comps[i])
  }

  /** Names joined with slashes. */
  function Join(comps: seq<Bytes>): Bytes {
    if comps == [] then []
    else if |comps| == 1 then comps[0]
    else comps[0] + [SLASH] + Join(comps[1..])
  }

  lemma {:induction false} SplitFromClean(path: Bytes, comps: seq<Bytes>)
    requires AllClean(comps) && SplitFrom(path, comps).Some?
    ensures AllClean(SplitFrom(path, comps).value)
    decreases |path|
  {
    if path != [] {
      SplitFromClean(Rest(path), Push(comps, path[..FindSlash(path)]).value);
    }
  }

  lemma FindSlashAt(name: Bytes, rest: Bytes)
    requires forall i :: 0 <= i < |name| ==> name[i] != SLASH
    ensures FindSlash(name + [SLASH] + rest) == |name| && FindSlash(name) == |name|
  {
    var path := name + [SLASH] + rest;
    assert path[|name|] == SLASH && forall i :: 0 <= i < |name| ==> path[i] == name[i];
  }

  lemma {:induction false} SplitJoinFrom(done: seq<Bytes>, comps: seq<Bytes>)
    requires AllClean(done + comps)
    ensures SplitFrom(Join(comps), done) == Some(done + comps)
    decreases |comps|
  {
    if comps == [] {
      assert done + comps == done;
    } else {
      var name := comps[0];
      assert (done + comps)[|done|] == name && Clean(name);
      var rest := if |comps| == 1 then [] else Join(comps[1..]);
      FindSlashAt(name, rest);
      var path := Join(comps);
      assert path[..|name|] == name;
      if |comps| > 1 { assert path[|name| + 1..] == rest; }
      assert (done + [name]) + comps[1..] == done + comps;
      SplitJoinFrom(done + [name], comps[1..]);
    }
  }

  /** The accepted component lists are exactly the clean ones, and each is the split of its own joining. */
  lemma SplitIsClean(path: Bytes)
    requires Split(path).Some?
    ensures AllClean(Split(path).value)
    ensures Split(Join(Split(path).value)) == Split(path)
  {
    SplitFromClean(path, []);
    var comps := Split(path).value;
    assert [] + comps == comps;
    SplitJoinFrom([], comps);
  }

  // ---------------------------------------------------------------- what each component does

  predicate NoSlash(s: Bytes) {
    forall i :: 0 <= i < |s| ==> s[i] != 47
  }

  lemma SlashIn(p: Bytes, q: Bytes)
    ensures var path := p + [47] + q;
            FindSlash(path) == FindSlash(p) && path[..FindSlash(path)] == p[..FindSlash(p)]
  {
    var path := p + [47] + q;
    assert forall i :: 0 <= i < |p| ==> path[i] == p[i];
    assert path[|p|] == 47;
  }

  /** The first component goes the same way whatever follows the path. */
  lemma SplitOff(p: Bytes, q: Bytes, comps: seq<Bytes>)
    ensures var n := FindSlash(p);
            var next := Push(comps, p[..n]);
            && SplitFrom(p + [47] + q, comps) ==
               (if next.None? then None
                else SplitFrom(if n == |p| then q else p[n + 1..] + [47] + q, next.value))
            && SplitFrom(p, comps) == (if next.None? then None else SplitFrom(if n == |p| then [] else p[n + 1..], next.value))
  {
    var path, n := p + [47] + q, FindSlash(p);
    SlashIn(p, q);
    if n == |p| {
      assert path[n + 1..] == q && p[..n] == p;
    } else {
      assert path[n + 1..] == p[n + 1..] + [47] + q;
    }
  }

  /** A path is split up to any slash in it, and then from there. */
  lemma {:induction false} SplitThen(p: Bytes, q: Bytes, comps: seq<Bytes>)
    ensures SplitFrom(p + [47] + q, comps) ==
            match SplitFrom(p, comps) case None => None case Some(c) => SplitFrom(q, c)
    decreases |p|
  {
    SplitOff(p, q, comps);
    var n := FindSlash(p);
    var next := Push(comps, p[..n]);
    if n < |p| && next.Some? { SplitThen(p[n + 1..], q, next.value); }
  }

  lemma SplitFinal(s: Bytes, comps: seq<Bytes>)
    requires NoSlash(s)
    ensures SplitFrom(s, comps) == Push(comps, s)
  {
    assert FindSlash(s) == |s| && s[..|s|] == s;
  }

  /** A path of one component: nothing, a name, or too long. */
  lemma SplitOne(s: Bytes)
    requires NoSlash(s)
    ensures s in {[], [46], [46, 46]} ==> Split(s) == Some([])
    ensures s !in {[], [46], [46, 46]} && |s| <= 65535 ==> Split(s) == Some([s])
    ensures |s| > 65535 ==> Split(s) == None
  {
    SplitFinal(s, []);
    assert [] + [s] == [s];
  }

  /**
   * One more component: an empty one and "." change nothing, ".." takes the last one away and stays at the top, a name
   * is added if it is not too long and there are not 512 already.
   */
  lemma SplitMore(p: Bytes, s: Bytes)
    requires Split(p).Some? && NoSlash(s)
    ensures var c, r := Split(p).value, Split(p + [47] + s);
            && (s in {[], [46]} ==> r == Some(c))
            && (s == [46, 46] ==> r == Some(if c == [] then [] else c[..|c| - 1]))
            && (s !in {[], [46], [46, 46]} ==> r == if |s| <= 65535 && |c| < 512 then Some(c + [s]) else None)
  {
    SplitThen(p, s, []);
    SplitFinal(s, Split(p).value);
  }

  /** What is refused stays refused. */
  lemma SplitStops(p: Bytes, q: Bytes)
    requires Split(p).None?
    ensures Split(p + [47] + q) == None
  {
    SplitThen(p, q, []);
  }
}
