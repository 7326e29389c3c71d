/** `nar_dump`: a tree in the store as a Nix Archive, by an explicit stack of work. */
module NarDump {
  import opened Basics
  import opened TreeCodec
  import opened Paths
  import opened Cas
  import opened Objects
  import opened Gc
  import opened NarFormat

  // ---------------------------------------------------------------- the simple form

  function Leaf(typ: Byte, contents: Bytes): Fs {
    if typ == SYMLINK then Symlink(contents) else Regular(typ == EXECUTABLE, contents)
  }

  function Room(depth: nat): nat {
    if depth > MAX_TREE_DEPTH then 0 else MAX_TREE_DEPTH + 1 - depth
  }

  /** The object an entry stands for, by recursion; the first thing that cannot be read is the error. */
  function FsOf(objs: Objs, typ: Byte, id: Id, depth: nat): Result<Fs>
    decreases Room(depth), 0
  {
    if depth > MAX_TREE_DEPTH then Err(TreeTooDeep)
    else if typ != DIRECTORY then if id in objs then Ok(Leaf(typ, objs[id])) else Err(MissingBlob)
    else
      var es := ReadTree(objs, id);
      if es.Err? then Err(es.error)
      else
        var entries := FsList(objs, es.value, depth + 1);
        if entries.Err? then Err(entries.error) else Ok(Directory(entries.value))
  }

  function FsList(objs: Objs, es: seq<TreeEntry>, depth: nat): Result<seq<FsEntry>>
    decreases Room(depth), |es|
  {
    if es == [] then Ok([])
    else
      var first := FsOf(objs, es[0].typ, es[0].id, depth);
      if first.Err? then Err(first.error)
      else
        var rest := FsList(objs, es[1..], depth);
        if rest.Err? then rest else Ok([FsEntry(es[0].name, first.value)] + rest.value)
  }

  // ---------------------------------------------------------------- what is said before an error

  /** The strings said, and the error that ended them. */
  datatype Out = Out(tokens: seq<Bytes>, error: Option<Error>)

  function Say(tokens: seq<Bytes>): Out {
    Out(tokens, None)
  }

  function Then(a: Out, b: Out): Out {
    if a.error.Some? then a else Out(a.tokens + b.tokens, b.error)
  }

  lemma ThenAssociates(a: Out, b: Out, c: Out)
    ensures Then(Then(a, b), c) == Then(a, Then(b, c))
  {
    assert a.tokens + b.tokens + c.tokens == a.tokens + (b.tokens + c.tokens);
  }

  lemma SayJoin(a: seq<Bytes>, b: seq<Bytes>, c: Out)
    ensures Then(Say(a), Then(Say(b), c)) == Then(Say(a + b), c)
  {
    ThenAssociates(Say(a), Say(b), c);
  }

  lemma SayNothing(a: Out)
    ensures Then(Say([]), a) == a && Then(a, Say([])) == a
  {
    assert [] + a.tokens == a.tokens && a.tokens + [] == a.tokens;
  }

  /** A node too deep is refused before anything is said of it; a file is read before its kind is said, a listing after. */
  function OutOf(objs: Objs, typ: Byte, id: Id, depth: nat): Out
    decreases Room(depth), 0
  {
    if depth > MAX_TREE_DEPTH then Out([], Some(TreeTooDeep))
    else if typ != DIRECTORY then
      if id in objs then Say(Tokens(Leaf(typ, objs[id]))) else Out([OPEN, TYPE], Some(MissingBlob))
    else
      var es := ReadTree(objs, id);
      if es.Err? then Out([OPEN, TYPE, DIRECTORY_FILE], Some(es.error))
      else Then(Say([OPEN, TYPE, DIRECTORY_FILE]), Then(OutList(objs, es.value, depth + 1), Say([CLOSE])))
  }

  function OutList(objs: Objs, es: seq<TreeEntry>, depth: nat): Out
    decreases Room(depth), |es|
  {
    if es == [] then Say([])
    else Then(EntryOut(es[0].name, OutOf(objs, es[0].typ, es[0].id, depth)), OutList(objs, es[1..], depth))
  }

  function EntryOut(name: Bytes, node: Out): Out {
    Then(Say([ENTRY, OPEN, NAME, name, NODE]), Then(node, Say([CLOSE])))
  }

  function Dumped(objs: Objs, root: Id): Out {
    Then(Say([MAGIC]), OutOf(objs, DIRECTORY, root, 0))
  }

  /** What is said is the object that the recursive reading gives, or ends in that reading's error. */
  predicate Says(out: Out, f: Result<Fs>) {
    if f.Err? then out.error == Some(f.error) else out == Say(Tokens(f.value))
  }

  predicate SaysEntries(out: Out, es: Result<seq<FsEntry>>) {
    if es.Err? then out.error == Some(es.error) else out == Say(EntryTokens(es.value))
  }

  lemma {:induction false} OutMeans(objs: Objs, typ: Byte, id: Id, depth: nat)
    ensures Says(OutOf(objs, typ, id, depth), FsOf(objs, typ, id, depth))
    decreases Room(depth), 0
  {
    if depth <= MAX_TREE_DEPTH && typ == DIRECTORY && ReadTree(objs, id).Ok? {
      OutListMeans(objs, ReadTree(objs, id).value, depth + 1);
      var entries := FsList(objs, ReadTree(objs, id).value, depth + 1);
      if entries.Ok? { ClosingJoin([OPEN, TYPE, DIRECTORY_FILE], EntryTokens(entries.value), []); }
    }
  }

  lemma {:induction false} OutListMeans(objs: Objs, es: seq<TreeEntry>, depth: nat)
    ensures SaysEntries(OutList(objs, es, depth), FsList(objs, es, depth))
    decreases Room(depth), |es|
  {
    if es != [] {
      OutMeans(objs, es[0].typ, es[0].id, depth);
      OutListMeans(objs, es[1..], depth);
      var f, rest := FsOf(objs, es[0].typ, es[0].id, depth), FsList(objs, es[1..], depth);
      if f.Ok? {
        ClosingJoin([ENTRY, OPEN, NAME, es[0].name, NODE], Tokens(f.value), []);
        if rest.Ok? { assert ([FsEntry(es[0].name, f.value)] + rest.value)[1..] == rest.value; }
      }
    }
  }

  /** The same, or cut short where an object is missing. */
  predicate UpTo(a: Out, b: Out) {
    a == b || (a.error in {Some(MissingBlob), Some(MissingTree)} && a.tokens <= b.tokens)
  }

  lemma ThenUpTo(a: Out, a': Out, b: Out, b': Out)
    requires UpTo(a, a') && UpTo(b, b')
    ensures UpTo(Then(a, b), Then(a', b'))
  {
  }

  /** With more objects in the store the dump is the same, or goes on where it had stopped. */
  lemma {:induction false} OutGrows(objs: Objs, objs': Objs, typ: Byte, id: Id, depth: nat)
    requires forall h :: h in objs ==> h in objs' && objs'[h] == objs[h]
    ensures UpTo(OutOf(objs, typ, id, depth), OutOf(objs', typ, id, depth))
    decreases Room(depth), 0
  {
    if depth <= MAX_TREE_DEPTH && typ == DIRECTORY && ReadTree(objs, id).Ok? {
      var es := ReadTree(objs, id).value;
      OutListGrows(objs, objs', es, depth + 1);
      ThenUpTo(OutList(objs, es, depth + 1), OutList(objs', es, depth + 1), Say([CLOSE]), Say([CLOSE]));
    }
  }

  lemma {:induction false} OutListGrows(objs: Objs, objs': Objs, es: seq<TreeEntry>, depth: nat)
    requires forall h :: h in objs ==> h in objs' && objs'[h] == objs[h]
    ensures UpTo(OutList(objs, es, depth), OutList(objs', es, depth))
    decreases Room(depth), |es|
  {
    if es != [] {
      OutGrows(objs, objs', es[0].typ, es[0].id, depth);
      OutListGrows(objs, objs', es[1..], depth);
      var node, node' := OutOf(objs, es[0].typ, es[0].id, depth), OutOf(objs', es[0].typ, es[0].id, depth);
      ThenUpTo(node, node', Say([CLOSE]), Say([CLOSE]));
      ThenUpTo(EntryOut(es[0].name, node), EntryOut(es[0].name, node'), OutList(objs, es[1..], depth), OutList(objs', es[1..], depth));
    }
  }

  /** So what is emitted before an error is a beginning of the archive that any completed store would give. */
  lemma CutShort(objs: Objs, objs': Objs, root: Id)
    requires forall h :: h in objs ==> h in objs' && objs'[h] == objs[h]
    requires FsOf(objs', DIRECTORY, root, 0).Ok?
    ensures NarBytes(Dumped(objs, root).tokens) <= Nar(FsOf(objs', DIRECTORY, root, 0).value)
  {
    OutGrows(objs, objs', DIRECTORY, root, 0);
    OutMeans(objs', DIRECTORY, root, 0);
    var some, all := Dumped(objs, root).tokens, Dumped(objs', root).tokens;
    assert some <= all;
    assert all == some + all[|some|..];
    NarBytesAppend(some, all[|some|..]);
  }

  // ---------------------------------------------------------------- the work stack

  datatype Work = Str(s: Bytes) | Node(typ: Byte, id: Id, depth: nat)

  function ItemOut(objs: Objs, w: Work): Out {
    match w
    case Str(s) => Say([s])
    case Node(typ, id, depth) => OutOf(objs, typ, id, depth)
  }

  /** What is still to come: the last item first. */
  function ToCome(objs: Objs, work: seq<Work>): Out {
    if work == [] then Say([])
    else Then(ItemOut(objs, work[|work| - 1]), ToCome(objs, work[..|work| - 1]))
  }

  lemma ToComePush(objs: Objs, work: seq<Work>, w: Work)
    ensures ToCome(objs, work + [w]) == Then(ItemOut(objs, w), ToCome(objs, work))
  {
    assert (work + [w])[..|work|] == work;
  }

  /** One directory entry on the stack, bottom first. */
  function EntryWork(e: TreeEntry, depth: nat): seq<Work> {
    [Str(CLOSE), Node(e.typ, e.id, depth), Str(NODE), Str(e.name), Str(NAME), Str(OPEN), Str(ENTRY)]
  }

  lemma ToComeStrs(objs: Objs, work: seq<Work>, e: TreeEntry)
    ensures ToCome(objs, work + [Str(NODE), Str(e.name), Str(NAME), Str(OPEN), Str(ENTRY)]) ==
            Then(Say([ENTRY, OPEN, NAME, e.name, NODE]), ToCome(objs, work))
  {
    ToComePush(objs, work, Str(NODE));
    ToComePush(objs, work + [Str(NODE)], Str(e.name));
    ToComePush(objs, work + [Str(NODE)] + [Str(e.name)], Str(NAME));
    ToComePush(objs, work + [Str(NODE)] + [Str(e.name)] + [Str(NAME)], Str(OPEN));
    ToComePush(objs, work + [Str(NODE)] + [Str(e.name)] + [Str(NAME)] + [Str(OPEN)], Str(ENTRY));
    assert work + [Str(NODE), Str(e.name), Str(NAME), Str(OPEN), Str(ENTRY)] ==
           work + [Str(NODE)] + [Str(e.name)] + [Str(NAME)] + [Str(OPEN)] + [Str(ENTRY)];
    var base := ToCome(objs, work).tokens;
    assert [ENTRY] + ([OPEN] + ([NAME] + ([e.name] + ([NODE] + base)))) == [ENTRY, OPEN, NAME, e.name, NODE] + base;
  }

  lemma ToComeEntry(objs: Objs, work: seq<Work>, e: TreeEntry, depth: nat)
    ensures ToCome(objs, work + EntryWork(e, depth)) ==
            Then(EntryOut(e.name, OutOf(objs, e.typ, e.id, depth)), ToCome(objs, work))
  {
    var lower := work + [Str(CLOSE)] + [Node(e.typ, e.id, depth)];
    ToComePush(objs, work, Str(CLOSE));
    ToComePush(objs, work + [Str(CLOSE)], Node(e.typ, e.id, depth));
    ToComeStrs(objs, lower, e);
    assert work + EntryWork(e, depth) == lower + [Str(NODE), Str(e.name), Str(NAME), Str(OPEN), Str(ENTRY)];
    var front, node, base := Say([ENTRY, OPEN, NAME, e.name, NODE]), OutOf(objs, e.typ, e.id, depth), ToCome(objs, work);
    ThenAssociates(node, Say([CLOSE]), base);
    ThenAssociates(front, Then(node, Say([CLOSE])), base);
  }

  /** The entries of a listing on the stack: pushed backwards, so that they come off in order. */
  function ListWork(es: seq<TreeEntry>, depth: nat): seq<Work> {
    if es == [] then [] else ListWork(es[1..], depth) + EntryWork(es[0], depth)
  }

  lemma {:induction false} ToComeList(objs: Objs, work: seq<Work>, es: seq<TreeEntry>, depth: nat)
    ensures ToCome(objs, work + ListWork(es, depth)) == Then(OutList(objs, es, depth), ToCome(objs, work))
    decreases |es|
  {
    if es == [] {
      assert work + ListWork(es, depth) == work;
      SayNothing(ToCome(objs, work));
    } else {
      var lower := work + ListWork(es[1..], depth);
      assert work + ListWork(es, depth) == lower + EntryWork(es[0], depth);
      ToComeEntry(objs, lower, es[0], depth);
      ToComeList(objs, work, es[1..], depth);
      ThenAssociates(EntryOut(es[0].name, OutOf(objs, es[0].typ, es[0].id, depth)), OutList(objs, es[1..], depth),
                     ToCome(objs, work));
    }
  }

  // ---------------------------------------------------------------- how long it runs

  /** Turns of the loop a node takes with everything below it. */
  function NodeCost(objs: Objs, typ: Byte, id: Id, depth: nat): nat
    decreases Room(depth), 0
  {
    if depth > MAX_TREE_DEPTH || typ != DIRECTORY || ReadTree(objs, id).Err? then 1
    else 2 + ListCost(objs, ReadTree(objs, id).value, depth + 1)
  }

  function ListCost(objs: Objs, es: seq<TreeEntry>, depth: nat): nat
    decreases Room(depth), |es|
  {
    if es == [] then 0 else 6 + NodeCost(objs, es[0].typ, es[0].id, depth) + ListCost(objs, es[1..], depth)
  }

  function Cost(objs: Objs, work: seq<Work>): nat {
    if work == [] then 0
    else
      var w := work[|work| - 1];
      (if w.Node? then NodeCost(objs, w.typ, w.id, w.depth) else 1) + Cost(objs, work[..|work| - 1])
  }

  lemma {:induction false} CostAppend(objs: Objs, a: seq<Work>, b: seq<Work>)
    ensures Cost(objs, a + b) == Cost(objs, a) + Cost(objs, b)
    decreases |b|
  {
    if b == [] {
      assert a + b == a;
    } else {
      assert (a + b)[..|a + b| - 1] == a + b[..|b| - 1];
      CostAppend(objs, a, b[..|b| - 1]);
    }
  }

  lemma EntryCost(objs: Objs, e: TreeEntry, depth: nat)
    ensures Cost(objs, EntryWork(e, depth)) == 6 + NodeCost(objs, e.typ, e.id, depth)
  {
    var w := EntryWork(e, depth);
    assert w == [w[0]] + [w[1]] + [w[2]] + [w[3]] + [w[4]] + [w[5]] + [w[6]];
    CostAppend(objs, [w[0]], [w[1]]);
    CostAppend(objs, [w[0]] + [w[1]], [w[2]]);
    CostAppend(objs, [w[0]] + [w[1]] + [w[2]], [w[3]]);
    CostAppend(objs, [w[0]] + [w[1]] + [w[2]] + [w[3]], [w[4]]);
    CostAppend(objs, [w[0]] + [w[1]] + [w[2]] + [w[3]] + [w[4]], [w[5]]);
    CostAppend(objs, [w[0]] + [w[1]] + [w[2]] + [w[3]] + [w[4]] + [w[5]], [w[6]]);
  }

  lemma {:induction false} ListWorkCost(objs: Objs, es: seq<TreeEntry>, depth: nat)
    ensures Cost(objs, ListWork(es, depth)) == ListCost(objs, es, depth)
    decreases |es|
  {
    if es != [] {
      CostAppend(objs, ListWork(es[1..], depth), EntryWork(es[0], depth));
      EntryCost(objs, es[0], depth);
      ListWorkCost(objs, es[1..], depth);
    }
  }

  // ---------------------------------------------------------------- the loop

  lemma {:induction false} LittleEndianAt(x: nat, n: nat, i: nat)
    requires i < n
    ensures LittleEndian(x, n)[i] == x / Pow256(i) % 256
    decreases i
  {
    if i > 0 {
      LittleEndianAt(x / 256, n - 1, i - 1);
      DivideTwice(x, Pow256(i - 1));
    }
  }

  lemma DivideTwice(x: nat, p: nat)
    requires p > 0
    ensures x / 256 / p == x / (256 * p)
  {
    var q := x / 256 / p;
    var rest := x - 256 * p * q;
    var r := x / 256 - p * q;
    assert 0 <= r < p;
    assert rest == 256 * r + x % 256;
    assert 0 <= rest < 256 * p;
    QuotientUnique(x, 256 * p, q, rest);
  }

  lemma QuotientUnique(x: nat, d: nat, q: nat, r: nat)
    requires x == d * q + r && r < d
    ensures x / d == q
  {
    var q' := x / d;
    assert q' < q ==> d * (q' + 1) <= d * q;
    assert q' > q ==> d * (q + 1) <= d * q';
  }

  lemma ConcatFew(a: Bytes, b: Bytes, c: Bytes)
    ensures Concat([a, b]) == a + b
    ensures Concat([a, b, c]) == a + b + c
  {
    assert Concat([]) == [];
    assert [b][1..] == [] && Concat([b]) == b;
    assert [c][1..] == [] && Concat([c]) == c;
    assert [a, b][1..] == [b];
    assert [b, c][1..] == [c] && Concat([b, c]) == b + c;
    assert [a, b, c][1..] == [b, c];
    assert a + (b + c) == a + b + c;
  }

  /** `nar_str`: the chunks it hands to the sink. */
  method DumpStr(s: Bytes) returns (chunks: seq<Bytes>)
    ensures Concat(chunks) == NarStr(s)
  {
    var lenbuf: Bytes := [];
    for idx := 0 to 8
      invariant lenbuf == LittleEndian(|s|, 8)[..idx]
    {
      LittleEndianAt(|s|, 8, idx);
      lenbuf := lenbuf + [|s| / Pow256(idx) % 256];
    }
    assert lenbuf == LittleEndian(|s|, 8);
    chunks := [lenbuf, s];
    var rem := |s| % 8;
    ConcatFew(lenbuf, s, Zeros(PadLen(|s|)));
    if rem != 0 {
      chunks := [lenbuf, s, Zeros(8 - rem)];
    }
  }

  /** One more string after those said so far. */
  method Emit(chunks: seq<Bytes>, ghost said: seq<Bytes>, s: Bytes) returns (more: seq<Bytes>)
    requires Concat(chunks) == NarBytes(said)
    ensures Concat(more) == NarBytes(said + [s])
  {
    var own := DumpStr(s);
    more := chunks + own;
    ConcatAppend(chunks, own);
    NarBytesAppend(said, [s]);
  }

  /** What comes between "type" and the contents of a leaf. */
  function KindTokens(typ: Byte): seq<Bytes> {
    if typ == SYMLINK then [SYMLINK_FILE, TARGET]
    else if typ == EXECUTABLE then [REGULAR_FILE, EXECUTABLE_FLAG, [], CONTENTS]
    else [REGULAR_FILE, CONTENTS]
  }

  lemma LeafTokens(said: seq<Bytes>, typ: Byte, contents: Bytes)
    ensures said + [OPEN, TYPE] + KindTokens(typ) + [contents] + [CLOSE] == said + Tokens(Leaf(typ, contents))
  {
  }

  method DumpKind(typ: Byte, chunks: seq<Bytes>, ghost said: seq<Bytes>) returns (more: seq<Bytes>)
    requires Concat(chunks) == NarBytes(said)
    ensures Concat(more) == NarBytes(said + KindTokens(typ))
  {
    if typ == SYMLINK {
      more := Emit(chunks, said, SYMLINK_FILE);
      more := Emit(more, said + [SYMLINK_FILE], TARGET);
      assert said + [SYMLINK_FILE] + [TARGET] == said + KindTokens(typ);
    } else {
      more := Emit(chunks, said, REGULAR_FILE);
      ghost var all := said + [REGULAR_FILE];
      if typ == EXECUTABLE {
        more := Emit(more, all, EXECUTABLE_FLAG);
        more := Emit(more, all + [EXECUTABLE_FLAG], []);
        all := all + [EXECUTABLE_FLAG] + [[]];
      }
      more := Emit(more, all, CONTENTS);
      assert all + [CONTENTS] == said + KindTokens(typ);
    }
  }

  /** `nar_leaf`, after "(" and "type". */
  method DumpLeaf(store: TreeStore, typ: Byte, id: Id, chunks: seq<Bytes>, ghost said: seq<Bytes>)
    returns (r: Result<()>, more: seq<Bytes>)
    requires Concat(chunks) == NarBytes(said + [OPEN, TYPE])
    ensures r == if id in store.db.objs then Ok(()) else Err(MissingBlob)
    ensures r.Ok? ==> Concat(more) == NarBytes(said + Tokens(Leaf(typ, store.db.objs[id])))
    ensures r.Err? ==> more == chunks
  {
    more := chunks;
    var blob := store.ReadBlob(id);
    if blob.None? {
      return Err(MissingBlob), more;
    }
    more := DumpKind(typ, more, said + [OPEN, TYPE]);
    more := Emit(more, said + [OPEN, TYPE] + KindTokens(typ), blob.value);
    more := Emit(more, said + [OPEN, TYPE] + KindTokens(typ) + [blob.value], CLOSE);
    LeafTokens(said, typ, blob.value);
    r := Ok(());
  }

  /** Pushes the children of a directory, last child first. */
  method PushChildren(ghost objs: Objs, children: seq<TreeEntry>, depth: nat, base: seq<Work>) returns (work: seq<Work>)
    ensures work == base + ListWork(children, depth)
  {
    work := base;
    assert children[|children|..] == [];
    for i := |children| downto 0
      invariant work == base + ListWork(children[i..], depth)
    {
      var child := children[i];
      assert children[i..][1..] == children[i + 1..];
      ghost var before := work;
      work := work + [Str(CLOSE)];
      work := work + [Node(child.typ, child.id, depth)];
      work := work + [Str(NODE)];
      work := work + [Str(child.name)];
      work := work + [Str(NAME)];
      work := work + [Str(OPEN)];
      work := work + [Str(ENTRY)];
      assert work == before + EntryWork(child, depth);
    }
    assert children[0..] == children;
  }

  /** What a directory leaves on the stack amounts to its tokens after "directory". */
  lemma DirectoryToCome(objs: Objs, rest: seq<Work>, id: Id, depth: nat)
    requires depth <= MAX_TREE_DEPTH && ReadTree(objs, id).Ok?
    ensures Then(Say([OPEN, TYPE, DIRECTORY_FILE]), ToCome(objs, rest + [Str(CLOSE)] + ListWork(ReadTree(objs, id).value, depth + 1)))
            == ToCome(objs, rest + [Node(DIRECTORY, id, depth)])
  {
    var es := ReadTree(objs, id).value;
    ToComeList(objs, rest + [Str(CLOSE)], es, depth + 1);
    ToComePush(objs, rest, Str(CLOSE));
    ToComePush(objs, rest, Node(DIRECTORY, id, depth));
    var front, entries, base := Say([OPEN, TYPE, DIRECTORY_FILE]), OutList(objs, es, depth + 1), ToCome(objs, rest);
    ThenAssociates(entries, Say([CLOSE]), base);
    ThenAssociates(front, Then(entries, Say([CLOSE])), base);
  }

  lemma ClosingJoin(front: seq<Bytes>, mid: seq<Bytes>, rest: seq<Bytes>)
    ensures front + (mid + ([CLOSE] + rest)) == (front + mid + [CLOSE]) + rest
  {
  }

  lemma DirectoryCost(objs: Objs, rest: seq<Work>, id: Id, depth: nat)
    requires depth <= MAX_TREE_DEPTH && ReadTree(objs, id).Ok?
    ensures Cost(objs, rest + [Str(CLOSE)] + ListWork(ReadTree(objs, id).value, depth + 1))
            < Cost(objs, rest + [Node(DIRECTORY, id, depth)])
  {
    var es := ReadTree(objs, id).value;
    CostAppend(objs, rest + [Str(CLOSE)], ListWork(es, depth + 1));
    ListWorkCost(objs, es, depth + 1);
    assert (rest + [Str(CLOSE)])[..|rest|] == rest;
    assert (rest + [Node(DIRECTORY, id, depth)])[..|rest|] == rest;
  }

  /** The stack, the chunks, and the strings they amount to, on the way to a goal. */
  ghost predicate Dumping(objs: Objs, goal: Out, work: seq<Work>, chunks: seq<Bytes>, said: seq<Bytes>) {
    Concat(chunks) == NarBytes(said) && Then(Say(said), ToCome(objs, work)) == goal
  }

  lemma SaidMore(objs: Objs, goal: Out, work: seq<Work>, said: seq<Bytes>, now: seq<Bytes>, work': seq<Work>)
    requires Then(Say(said), ToCome(objs, work)) == goal && Then(Say(now), ToCome(objs, work')) == ToCome(objs, work)
    ensures Then(Say(said + now), ToCome(objs, work')) == goal
  {
    SayJoin(said, now, ToCome(objs, work'));
  }

  lemma TakenOff(objs: Objs, work: seq<Work>)
    requires work != []
    ensures var w, rest := work[|work| - 1], work[..|work| - 1];
            && work == rest + [w]
            && ToCome(objs, work) == Then(ItemOut(objs, w), ToCome(objs, rest))
            && Cost(objs, rest) < Cost(objs, work)
  {
  }

  /** `nar_directory`, after "(" and "type". */
  method DumpDirectory(store: TreeStore, id: Id, depth: nat, rest: seq<Work>, chunks: seq<Bytes>,
                       ghost said: seq<Bytes>)
    returns (r: Result<()>, work: seq<Work>, more: seq<Bytes>)
    requires depth <= MAX_TREE_DEPTH && Concat(chunks) == NarBytes(said + [OPEN, TYPE])
    ensures r.Ok? <==> ReadTree(store.db.objs, id).Ok?
    ensures r.Err? ==> ReadTree(store.db.objs, id) == Err(r.error)
    ensures Concat(more) == NarBytes(said + [OPEN, TYPE, DIRECTORY_FILE])
    ensures r.Ok? ==>
              && Then(Say([OPEN, TYPE, DIRECTORY_FILE]), ToCome(store.db.objs, work))
                 == ToCome(store.db.objs, rest + [Node(DIRECTORY, id, depth)])
              && Cost(store.db.objs, work) < Cost(store.db.objs, rest + [Node(DIRECTORY, id, depth)])
  {
    more := Emit(chunks, said + [OPEN, TYPE], DIRECTORY_FILE);
    assert said + [OPEN, TYPE] + [DIRECTORY_FILE] == said + [OPEN, TYPE, DIRECTORY_FILE];
    work := rest + [Str(CLOSE)];
    var children := store.ReadTree(id);
    if children.Err? {
      return Err(children.error), work, more;
    }
    DirectoryToCome(store.db.objs, rest, id, depth);
    DirectoryCost(store.db.objs, rest, id, depth);
    work := PushChildren(store.db.objs, children.value, depth + 1, work);
    r := Ok(());
  }

  /** A node taken off the stack: its strings so far, and either an error or its children pushed. */
  method DumpNode(store: TreeStore, ghost goal: Out, node: Work, rest: seq<Work>,
                  chunks: seq<Bytes>, ghost said: seq<Bytes>)
    returns (r: Result<()>, work: seq<Work>, more: seq<Bytes>, ghost now: seq<Bytes>)
    requires node.Node? && Dumping(store.db.objs, goal, rest + [node], chunks, said)
    ensures r.Err? ==> goal == Out(said + now, Some(r.error)) && Concat(more) == NarBytes(said + now)
    ensures r.Ok? ==> Dumping(store.db.objs, goal, work, more, said + now) && Cost(store.db.objs, work) < Cost(store.db.objs, rest + [node])
  {
    work, more, now := rest, chunks, [];
    TakenOff(store.db.objs, rest + [node]);
    if node.depth > MAX_TREE_DEPTH {
      assert said + [] == said;
      return Err(TreeTooDeep), work, more, now;
    }
    more := Emit(more, said, OPEN);
    more := Emit(more, said + [OPEN], TYPE);
    assert said + [OPEN] + [TYPE] == said + [OPEN, TYPE];
    if node.typ == DIRECTORY {
      now := [OPEN, TYPE, DIRECTORY_FILE];
      r, work, more := DumpDirectory(store, node.id, node.depth, rest, more, said);
      if r.Ok? {
        SaidMore(store.db.objs, goal, rest + [node], said, now, work);
      }
    } else {
      now := [OPEN, TYPE];
      r, more := DumpLeaf(store, node.typ, node.id, more, said);
      if r.Ok? {
        now := Tokens(Leaf(node.typ, store.db.objs[node.id]));
        SaidMore(store.db.objs, goal, rest + [node], said, now, work);
      }
    }
  }

  /**
   * `nar_dump`. The loop ends, and the chunks it hands to the sink are the archive of the object that the recursive
   * reading gives; it throws exactly when that reading fails, with the same error, and after the strings up to there.
   */
  method Dump(store: TreeStore, root: Id) returns (r: Result<()>, chunks: seq<Bytes>)
    ensures var out := Dumped(store.db.objs, root);
            Concat(chunks) == NarBytes(out.tokens) && r == if out.error.Some? then Err(out.error.value) else Ok(())
    ensures match FsOf(store.db.objs, DIRECTORY, root, 0)
            case Err(e) => r == Err(e)
            case Ok(tree) => r == Ok(()) && Concat(chunks) == Nar(tree)
  {
    ghost var objs := store.db.objs;
    chunks := Emit([], [], MAGIC);
    var work := [Node(DIRECTORY, root, 0)];
    ghost var said := [MAGIC];
    ghost var goal := Dumped(objs, root);
    OutMeans(objs, DIRECTORY, root, 0);
    TakenOff(objs, work);
    SayNothing(OutOf(objs, DIRECTORY, root, 0));
    assert [] + [MAGIC] == said;
    while work != []
      invariant Dumping(objs, goal, work, chunks, said)
      decreases Cost(objs, work)
    {
      var item, rest := work[|work| - 1], work[..|work| - 1];
      TakenOff(objs, work);
      match item {
        case Str(s) =>
          chunks := Emit(chunks, said, s);
          SaidMore(objs, goal, work, said, [s], rest);
          said := said + [s];
          work := rest;
        case Node(_, _, _) =>
          ghost var now;
          r, work, chunks, now := DumpNode(store, goal, item, rest, chunks, said);
          if r.Err? {
            return r, chunks;
          }
          said := said + now;
      }
    }
    SayNothing(Say(said));
    r := Ok(());
  }
}
