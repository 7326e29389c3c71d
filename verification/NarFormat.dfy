/** The Nix Archive format: strings, the recursive serialisation of a file system object, and a parser. */
module NarFormat {
  import opened Basics

  const MAGIC: Bytes := [110, 105, 120, 45, 97, 114, 99, 104, 105, 118, 101, 45, 49]  // "nix-archive-1"
  const OPEN: Bytes := [40]
  const CLOSE: Bytes := [41]
  const TYPE: Bytes := [116, 121, 112, 101]
  const REGULAR_FILE: Bytes := [114, 101, 103, 117, 108, 97, 114]
  const EXECUTABLE_FLAG: Bytes := [101, 120, 101, 99, 117, 116, 97, 98, 108, 101]
  const CONTENTS: Bytes := [99, 111, 110, 116, 101, 110, 116, 115]
  const SYMLINK_FILE: Bytes := [115, 121, 109, 108, 105, 110, 107]
  const TARGET: Bytes := [116, 97, 114, 103, 101, 116]
  const DIRECTORY_FILE: Bytes := [100, 105, 114, 101, 99, 116, 111, 114, 121]
  const ENTRY: Bytes := [101, 110, 116, 114, 121]
  const NAME: Bytes := [110, 97, 109, 101]
  const NODE: Bytes := [110, 111, 100, 101]

  // ---------------------------------------------------------------- strings

  /** `n` little-endian bytes of a number. */
  function LittleEndian(x: nat, n: nat): (r: Bytes)
    ensures |r| == n
  {
    if n == 0 then [] else [x % 256] + LittleEndian(x / 256, n - 1)
  }

  function FromLittleEndian(b: Bytes): nat {
    if b == [] then 0 else b[0] as int + 256 * FromLittleEndian(b[1..])
  }

  function Zeros(n: nat): (r: Bytes)
    ensures |r| == n
  {
    seq(n, i => 0)
  }

  function PadLen(len: nat): nat {
    if len % 8 == 0 then 0 else 8 - len % 8
  }

  /** A NAR string: length, bytes, zeros up to a multiple of eight. */
  function NarStr(s: Bytes): (r: Bytes)
    ensures |r| % 8 == 0
    ensures |r| == 8 + |s| + PadLen(|s|)
  {
    LittleEndian(|s|, 8) + s + Zeros(PadLen(|s|))
  }

  lemma AlignedSum(a: nat, b: nat)
    requires a % 8 == 0 && b % 8 == 0
    ensures (a + b) % 8 == 0
  {
  }

  function NarBytes(tokens: seq<Bytes>): (r: Bytes)
    ensures |r| % 8 == 0
  {
    if tokens == [] then []
    else
      var first, rest := NarStr(tokens[0]), NarBytes(tokens[1..]);
      AlignedSum(|first|, |rest|);
      first + rest
  }

  lemma {:induction false} NarBytesAppend(a: seq<Bytes>, b: seq<Bytes>)
    ensures NarBytes(a + b) == NarBytes(a) + NarBytes(b)
  {
    if a == [] {
      assert a + b == b;
    } else {
      assert (a + b)[1..] == a[1..] + b;
      NarBytesAppend(a[1..], b);
    }
  }

  lemma {:induction false} LittleEndianRoundTrip(x: nat, n: nat)
    requires x < Pow256(n)
    ensures FromLittleEndian(LittleEndian(x, n)) == x
  {
    if n > 0 { LittleEndianRoundTrip(x / 256, n - 1); }
  }

  /** The string at the front, and the rest; nothing if it is cut short or its padding is not zero. */
  function ParseStr(b: Bytes): (r: Option<(Bytes, Bytes)>)
    ensures r.Some? ==> |r.value.1| < |b|
  {
    if |b| < 8 then None
    else
      var len := FromLittleEndian(b[..8]);
      var end := 8 + len + PadLen(len);
      if end > |b| || b[8 + len..end] != Zeros(PadLen(len)) then None
      else Some((b[8..8 + len], b[end..]))
  }

  function ParseStrs(b: Bytes): Option<seq<Bytes>>
    decreases |b|
  {
    if b == [] then Some([])
    else
      match ParseStr(b)
      case None => None
      case Some((s, rest)) =>
        match ParseStrs(rest)
        case None => None
        case Some(ss) => Some([s] + ss)
  }

  /** Lengths are 64-bit. */
  predicate Short(tokens: seq<Bytes>) {
    forall i :: 0 <= i < |tokens| ==> |tokens[i]| < U64
  }

  lemma ParseStrFront(s: Bytes, rest: Bytes)
    requires |s| < U64
    ensures ParseStr(NarStr(s) + rest) == Some((s, rest))
  {
    var b := NarStr(s) + rest;
    assert Pow256(4) == 0x1_0000_0000;
    assert Pow256(8) == U64;
    LittleEndianRoundTrip(|s|, 8);
    assert b[..8] == LittleEndian(|s|, 8);
    assert b[8..8 + |s|] == s;
    assert b[8 + |s|..8 + |s| + PadLen(|s|)] == Zeros(PadLen(|s|));
    assert b[8 + |s| + PadLen(|s|)..] == rest;
  }

  lemma {:induction false} ParseStrsRoundTrip(tokens: seq<Bytes>)
    requires Short(tokens)
    ensures ParseStrs(NarBytes(tokens)) == Some(tokens)
  {
    if tokens != [] {
      ParseStrFront(tokens[0], NarBytes(tokens[1..]));
      ParseStrsRoundTrip(tokens[1..]);
      assert [tokens[0]] + tokens[1..] == tokens;
    }
  }

  // ---------------------------------------------------------------- objects

  /** A file system object. */
  datatype Fs =
    | Regular(executable: bool, contents: Bytes)
    | Symlink(target: Bytes)
    | Directory(entries: seq<FsEntry>)

  datatype FsEntry = FsEntry(name: Bytes, node: Fs)

  function Tokens(f: Fs): seq<Bytes> {
    match f
    case Regular(exec, contents) =>
      [OPEN, TYPE, REGULAR_FILE] + (if exec then [EXECUTABLE_FLAG, []] else []) + [CONTENTS, contents, CLOSE]
    case Symlink(target) => [OPEN, TYPE, SYMLINK_FILE, TARGET, target, CLOSE]
    case Directory(entries) => [OPEN, TYPE, DIRECTORY_FILE] + EntryTokens(entries) + [CLOSE]
  }

  function EntryTokens(entries: seq<FsEntry>): seq<Bytes> {
    if entries == [] then [] else OneEntry(entries[0]) + EntryTokens(entries[1..])
  }

  function OneEntry(e: FsEntry): seq<Bytes> {
    [ENTRY, OPEN, NAME, e.name, NODE] + Tokens(e.node) + [CLOSE]
  }

  /** The archive of an object. */
  function Nar(f: Fs): Bytes {
    NarBytes([MAGIC] + Tokens(f))
  }

  // ---------------------------------------------------------------- a reference parser

  predicate Starts(ts: seq<Bytes>, front: seq<Bytes>) {
    |front| <= |ts| && ts[..|front|] == front
  }

  function ParseNode(ts: seq<Bytes>): (r: Option<(Fs, seq<Bytes>)>)
    ensures r.Some? ==> |r.value.1| < |ts|
    decreases |ts|, 0
  {
    if Starts(ts, [OPEN, TYPE, REGULAR_FILE, CONTENTS]) && |ts| >= 6 && ts[5] == CLOSE then
      Some((Regular(false, ts[4]), ts[6..]))
    else if Starts(ts, [OPEN, TYPE, REGULAR_FILE, EXECUTABLE_FLAG, [], CONTENTS]) && |ts| >= 8 && ts[7] == CLOSE then
      Some((Regular(true, ts[6]), ts[8..]))
    else if Starts(ts, [OPEN, TYPE, SYMLINK_FILE, TARGET]) && |ts| >= 6 && ts[5] == CLOSE then
      Some((Symlink(ts[4]), ts[6..]))
    else if Starts(ts, [OPEN, TYPE, DIRECTORY_FILE]) then
      match ParseEntries(ts[3..])
      case None => None
      case Some((entries, rest)) => Some((Directory(entries), rest))
    else None
  }

  function ParseEntries(ts: seq<Bytes>): (r: Option<(seq<FsEntry>, seq<Bytes>)>)
    ensures r.Some? ==> |r.value.1| < |ts|
    decreases |ts|, 1
  {
    if Starts(ts, [CLOSE]) then Some(([], ts[1..]))
    else if Starts(ts, [ENTRY, OPEN, NAME]) && |ts| >= 5 && ts[4] == NODE then
      match ParseNode(ts[5..])
      case None => None
      case Some((f, rest)) =>
        if !Starts(rest, [CLOSE]) then None
        else
          match ParseEntries(rest[1..])
          case None => None
          case Some((more, rest')) => Some(([FsEntry(ts[3], f)] + more, rest'))
    else None
  }

  function ParseNar(b: Bytes): Option<Fs> {
    match ParseStrs(b)
    case None => None
    case Some(ts) =>
      if !Starts(ts, [MAGIC]) then None
      else
        match ParseNode(ts[1..])
        case None => None
        case Some((f, rest)) => if rest == [] then Some(f) else None
  }

  lemma ParseRegular(exec: bool, contents: Bytes, rest: seq<Bytes>)
    ensures ParseNode(Tokens(Regular(exec, contents)) + rest) == Some((Regular(exec, contents), rest))
  {
    var ts := Tokens(Regular(exec, contents)) + rest;
    if exec {
      assert ts[..6] == [OPEN, TYPE, REGULAR_FILE, EXECUTABLE_FLAG, [], CONTENTS];
      assert ts[3] == EXECUTABLE_FLAG;
      assert ts[..4][3] != CONTENTS;
      assert ts[8..] == rest;
    } else {
      assert ts[..4] == [OPEN, TYPE, REGULAR_FILE, CONTENTS];
      assert ts[6..] == rest;
    }
  }

  lemma ParseSymlink(target: Bytes, rest: seq<Bytes>)
    ensures ParseNode(Tokens(Symlink(target)) + rest) == Some((Symlink(target), rest))
  {
    var ts := Tokens(Symlink(target)) + rest;
    assert ts[2] == SYMLINK_FILE;
    assert ts[..4] == [OPEN, TYPE, SYMLINK_FILE, TARGET];
    assert ts[..4][2] != REGULAR_FILE;
    assert ts[..6][2] != REGULAR_FILE;
    assert ts[6..] == rest;
  }

  lemma {:induction false} ParseNodeRoundTrip(f: Fs, rest: seq<Bytes>)
    ensures ParseNode(Tokens(f) + rest) == Some((f, rest))
    decreases f, 0
  {
    match f
    case Regular(exec, contents) => ParseRegular(exec, contents, rest);
    case Symlink(target) => ParseSymlink(target, rest);
    case Directory(entries) =>
      var ts := Tokens(f) + rest;
      assert ts[2] == DIRECTORY_FILE;
      assert ts[..3] == [OPEN, TYPE, DIRECTORY_FILE];
      assert |ts| >= 4 ==> ts[..4][2] == DIRECTORY_FILE;
      assert |ts| >= 6 ==> ts[..6][2] == DIRECTORY_FILE;
      assert ts[3..] == EntryTokens(entries) + [CLOSE] + rest;
      ParseEntriesRoundTrip(entries, rest);
  }

  lemma {:induction false} ParseEntriesRoundTrip(entries: seq<FsEntry>, rest: seq<Bytes>)
    ensures ParseEntries(EntryTokens(entries) + [CLOSE] + rest) == Some((entries, rest))
    decreases entries, 1
  {
    var ts := EntryTokens(entries) + [CLOSE] + rest;
    if entries == [] {
      assert ts[..1] == [CLOSE] && ts[1..] == rest;
    } else {
      var tail := EntryTokens(entries[1..]) + [CLOSE] + rest;
      assert ts == OneEntry(entries[0]) + tail;
      ParseEntriesRoundTrip(entries[1..], rest);
      ParseOneEntry(entries[0], tail);
      assert [entries[0]] + entries[1..] == entries;
    }
  }

  lemma {:induction false} ParseOneEntry(e: FsEntry, tail: seq<Bytes>)
    requires ParseEntries(tail).Some?
    ensures ParseEntries(OneEntry(e) + tail) == Some(([e] + ParseEntries(tail).value.0, ParseEntries(tail).value.1))
    decreases e, 1
  {
    var ts := OneEntry(e) + tail;
    assert ts[..1][0] == ENTRY;
    assert ts[..3] == [ENTRY, OPEN, NAME];
    assert ts[5..] == Tokens(e.node) + ([CLOSE] + tail);
    ParseNodeRoundTrip(e.node, [CLOSE] + tail);
    assert ([CLOSE] + tail)[..1] == [CLOSE] && ([CLOSE] + tail)[1..] == tail;
  }

  /** Parsing an archive gives back the object it was made from. */
  lemma NarRoundTrip(f: Fs)
    requires Short(Tokens(f))
    ensures ParseNar(Nar(f)) == Some(f)
  {
    var ts := [MAGIC] + Tokens(f);
    ParseStrsRoundTrip(ts);
    assert ts[..1] == [MAGIC] && ts[1..] == Tokens(f) + [];
    ParseNodeRoundTrip(f, []);
  }

  /** So different objects have different archives. */
  lemma NarInjective(f: Fs, g: Fs)
    requires Short(Tokens(f)) && Short(Tokens(g)) && Nar(f) == Nar(g)
    ensures f == g
  {
    NarRoundTrip(f);
    NarRoundTrip(g);
  }
}
