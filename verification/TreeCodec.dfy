/** The tree object encoding of `TreeStore::putTree` and `TreeStore::readTree`. */
module TreeCodec {
  import opened Basics

  const REGULAR: Byte := 114     // 'r'
  const EXECUTABLE: Byte := 120  // 'x'
  const SYMLINK: Byte := 115     // 's'
  const DIRECTORY: Byte := 100   // 'd'

  const MAX_NAME_LEN: nat := 0xffff
  const MAX_ID_LEN: nat := 0xff
  const HEADER: nat := 3

  datatype TreeEntry = TreeEntry(name: Bytes, typ: Byte, id: Bytes)

  predicate ValidType(t: Byte) {
    t == REGULAR || t == EXECUTABLE || t == SYMLINK || t == DIRECTORY
  }

  predicate Fits(e: TreeEntry) {
    |e.name| <= MAX_NAME_LEN && |e.id| <= MAX_ID_LEN
  }

  predicate AllFit(es: seq<TreeEntry>) {
    forall i :: 0 <= i < |es| ==> Fits(es[i])
  }

  function Names(es: seq<TreeEntry>): seq<Bytes> {
    seq(|es|, i requires 0 <= i < |es| => es[i].name)
  }

  /** What a tree object may list: known types, sizes within the header fields, names strictly sorted. */
  predicate ValidEntries(es: seq<TreeEntry>) {
    AllFit(es) && (forall i :: 0 <= i < |es| ==> ValidType(es[i].typ)) && Sorted(Names(es))
  }

  function EncodeEntry(e: TreeEntry): Bytes
    requires Fits(e)
  {
    [e.typ, |e.name| % 256, |e.name| / 256] + e.name + [|e.id|] + e.id
  }

  function EncodeTree(es: seq<TreeEntry>): Bytes
    requires AllFit(es)
  {
    if es == [] then [] else EncodeEntry(es[0]) + EncodeTree(es[1..])
  }

  /** One step of the decoder: the entry at the front of `buf` and how many bytes it takes. */
  function DecodeEntry(buf: Bytes): Result<(TreeEntry, nat)> {
    if |buf| < HEADER then Err(CorruptHeader)
    else if !ValidType(buf[0]) then Err(CorruptType)
    else
      var nameLen := Word(buf[1], buf[2]);
      if HEADER + nameLen + 1 > |buf| then Err(CorruptTruncated)
      else
        var idLen: nat := buf[HEADER + nameLen];
        var end := HEADER + nameLen + 1 + idLen;
        if end > |buf| then Err(CorruptTruncated)
        else
          Ok((TreeEntry(buf[HEADER..HEADER + nameLen], buf[0], buf[HEADER + nameLen + 1..end]), end))
  }

  predicate Follows(prev: Option<Bytes>, name: Bytes) {
    prev.None? || Less(prev.value, name)
  }

  /** The decoder on the rest of a buffer, given the name of the entry before it. */
  function DecodeFrom(buf: Bytes, prev: Option<Bytes>): Result<seq<TreeEntry>>
    decreases |buf|
  {
    if buf == [] then Ok([])
    else
      match DecodeEntry(buf)
      case Err(e) => Err(e)
      case Ok((entry, n)) =>
        if !Follows(prev, entry.name) then Err(CorruptOrder)
        else
          match DecodeFrom(buf[n..], Some(entry.name))
          case Err(e) => Err(e)
          case Ok(rest) => Ok([entry] + rest)
  }

  function DecodeTree(buf: Bytes): Result<seq<TreeEntry>> {
    DecodeFrom(buf, None)
  }

  lemma PushAll(buf: Bytes, e: TreeEntry)
    requires Fits(e)
    ensures buf + [e.typ] + [|e.name| % 256] + [|e.name| / 256] + e.name + [|e.id|] + e.id == buf + EncodeEntry(e)
  {
  }

  /** `putTree` without the final `put`: the buffer it hands to the CAS. */
  method EncodeEntries(entries: seq<TreeEntry>) returns (r: Result<Bytes>)
    ensures r.Ok? <==> AllFit(entries)
    ensures r.Ok? ==> r.value == EncodeTree(entries)
    ensures r.Err? ==> r.error == EntryTooLarge
  {
    var buf: Bytes := [];
    for i := 0 to |entries|
      invariant forall k :: 0 <= k < i ==> Fits(entries[k])
      invariant AllFit(entries) ==> EncodeTree(entries) == buf + EncodeTree(entries[i..])
    {
      var entry := entries[i];
      if |entry.name| > MAX_NAME_LEN || |entry.id| > MAX_ID_LEN {
        return Err(EntryTooLarge);
      }
      ghost var before := buf;
      buf := buf + [entry.typ];
      buf := buf + [|entry.name| % 256];
      buf := buf + [|entry.name| / 256];
      buf := buf + entry.name;
      buf := buf + [|entry.id|];
      buf := buf + entry.id;
      PushAll(before, entry);
      assert entries[i..][1..] == entries[i + 1..];
      if AllFit(entries) {
        var tail := EncodeTree(entries[i + 1..]);
        assert EncodeTree(entries[i..]) == EncodeEntry(entry) + tail;
        assert before + (EncodeEntry(entry) + tail) == (before + EncodeEntry(entry)) + tail;
      }
    }
    r := Ok(buf);
  }

  /** The whole result, given the entries already read and the result of the rest. */
  function Resume(out: seq<TreeEntry>, rest: Result<seq<TreeEntry>>): Result<seq<TreeEntry>> {
    if rest.Ok? then Ok(out + rest.value) else rest
  }

  function LastName(out: seq<TreeEntry>): Option<Bytes> {
    if out == [] then None else Some(out[|out| - 1].name)
  }

  /** `DecodeEntry` at a position, in terms of the whole buffer. */
  function EntryAt(buf: Bytes, pos: nat): Result<(TreeEntry, nat)>
    requires pos <= |buf|
  {
    if pos + HEADER > |buf| then Err(CorruptHeader)
    else if !ValidType(buf[pos]) then Err(CorruptType)
    else
      var name := pos + HEADER;
      var nameLen := Word(buf[pos + 1], buf[pos + 2]);
      if name + nameLen + 1 > |buf| then Err(CorruptTruncated)
      else
        var id := name + nameLen + 1;
        var idLen: nat := buf[id - 1];
        if id + idLen > |buf| then Err(CorruptTruncated)
        else Ok((TreeEntry(buf[name..name + nameLen], buf[pos], buf[id..id + idLen]), id + idLen))
  }

  lemma EntryAtIsDecodeEntry(buf: Bytes, pos: nat)
    requires pos <= |buf|
    ensures EntryAt(buf, pos) ==
            match DecodeEntry(buf[pos..]) case Err(e) => Err(e) case Ok((e, n)) => Ok((e, pos + n))
  {
    var rest := buf[pos..];
    if DecodeEntry(rest).Ok? {
      var nameLen := Word(rest[1], rest[2]);
      var idLen: nat := rest[HEADER + nameLen];
      var id := pos + HEADER + nameLen + 1;
      assert rest[HEADER..HEADER + nameLen] == buf[pos + HEADER..pos + HEADER + nameLen];
      assert rest[HEADER + nameLen + 1..HEADER + nameLen + 1 + idLen] == buf[id..id + idLen];
    }
  }

  /** What one turn of the decoder's loop does to the whole result. */
  lemma ResumeStep(out: seq<TreeEntry>, buf: Bytes, pos: nat)
    requires pos < |buf|
    ensures Resume(out, DecodeFrom(buf[pos..], LastName(out))) ==
            match EntryAt(buf, pos)
            case Err(e) => Err(e)
            case Ok((e, next)) =>
              if Follows(LastName(out), e.name) && next <= |buf|
              then Resume(out + [e], DecodeFrom(buf[next..], LastName(out + [e])))
              else Err(CorruptOrder)
  {
    EntryAtIsDecodeEntry(buf, pos);
    if DecodeEntry(buf[pos..]).Ok? {
      var (e, n) := DecodeEntry(buf[pos..]).value;
      assert buf[pos..][n..] == buf[pos + n..];
      var rest := DecodeFrom(buf[pos + n..], Some(e.name));
      if rest.Ok? {
        assert out + ([e] + rest.value) == (out + [e]) + rest.value;
      }
    }
  }

  /** The body of `readTree`'s loop up to the order check: parses the entry at `start`. */
  method ParseEntry(buf: Bytes, start: nat) returns (r: Result<(TreeEntry, nat)>)
    requires start < |buf|
    ensures r == EntryAt(buf, start)
  {
    var pos: nat := start;
    if pos + HEADER > |buf| {
      return Err(CorruptHeader);
    }
    var typ := buf[pos];
    pos := pos + 1;
    if typ != REGULAR && typ != EXECUTABLE && typ != SYMLINK && typ != DIRECTORY {
      return Err(CorruptType);
    }
    var nameLen := Word(buf[pos], buf[pos + 1]);
    pos := pos + 2;
    if pos + nameLen + 1 > |buf| {
      return Err(CorruptTruncated);
    }
    var name := buf[pos..pos + nameLen];
    pos := pos + nameLen;
    var idLen: nat := buf[pos];
    pos := pos + 1;
    if pos + idLen > |buf| {
      return Err(CorruptTruncated);
    }
    var id := buf[pos..pos + idLen];
    pos := pos + idLen;
    var parsed: (TreeEntry, nat) := (TreeEntry(name, typ, id), pos);
    r := Ok(parsed);
  }

  /** `readTree` after the CAS read: one pass over the buffer with a moving position. */
  method DecodeEntries(buf: Bytes) returns (r: Result<seq<TreeEntry>>)
    ensures r == DecodeTree(buf)
  {
    var out: seq<TreeEntry> := [];
    var pos := 0;
    assert buf[0..] == buf;
    assert DecodeTree(buf).Ok? ==> out + DecodeTree(buf).value == DecodeTree(buf).value;
    while pos < |buf|
      invariant 0 <= pos <= |buf|
      invariant DecodeTree(buf) == Resume(out, DecodeFrom(buf[pos..], LastName(out)))
      decreases |buf| - pos
    {
      ResumeStep(out, buf, pos);
      var parsed := ParseEntry(buf, pos);
      if parsed.Err? {
        return Err(parsed.error);
      }
      var (entry, next) := parsed.value;
      // TreeWalker.Lookup searches listings by halving, which needs the names in increasing order
      if out != [] && !Less(out[|out| - 1].name, entry.name) {
        return Err(CorruptOrder);
      }
      out := out + [entry];
      pos := next;
    }
    assert buf[pos..] == [] && out + [] == out;
    r := Ok(out);
  }

  lemma DecodeEncodedEntry(e: TreeEntry, rest: Bytes)
    requires Fits(e) && ValidType(e.typ)
    ensures DecodeEntry(EncodeEntry(e) + rest) == Ok((e, |EncodeEntry(e)|))
  {
    var buf := EncodeEntry(e) + rest;
    var n := |e.name|;
    assert Word(buf[1], buf[2]) == n;
    assert buf[HEADER..HEADER + n] == e.name;
    assert buf[HEADER + n] == |e.id|;
    assert buf[HEADER + n + 1..HEADER + n + 1 + |e.id|] == e.id;
  }

  lemma EncodeDecodedEntry(buf: Bytes)
    requires DecodeEntry(buf).Ok?
    ensures var (e, n) := DecodeEntry(buf).value;
            Fits(e) && ValidType(e.typ) && n <= |buf| && EncodeEntry(e) == buf[..n]
  {
    var (e, n) := DecodeEntry(buf).value;
    var nameLen := |e.name|;
    assert buf[..n] == buf[..HEADER] + buf[HEADER..HEADER + nameLen] + [buf[HEADER + nameLen]] + buf[HEADER + nameLen + 1..n];
    assert buf[..HEADER] == [buf[0], buf[1], buf[2]];
  }

  lemma BehindFirst(first: Bytes, rest: Bytes)
    ensures (first + rest)[|first|..] == rest
  {
  }

  /** An encoded entry at the front is read, and then the rest. */
  lemma DecodeStep(e: TreeEntry, rest: Bytes, prev: Option<Bytes>)
    requires Fits(e) && ValidType(e.typ) && Follows(prev, e.name)
    ensures DecodeFrom(EncodeEntry(e) + rest, prev) ==
            match DecodeFrom(rest, Some(e.name)) case Err(x) => Err(x) case Ok(more) => Ok([e] + more)
  {
    DecodeEncodedEntry(e, rest);
    BehindFirst(EncodeEntry(e), rest);
  }

  lemma {:induction false} DecodeEncodedFrom(es: seq<TreeEntry>, prev: Option<Bytes>)
    requires ValidEntries(es) && (es != [] ==> Follows(prev, es[0].name))
    ensures DecodeFrom(EncodeTree(es), prev) == Ok(es)
  {
    if es != [] {
      ValidTail(es);
      DecodeEncodedFrom(es[1..], Some(es[0].name));
      DecodeStep(es[0], EncodeTree(es[1..]), prev);
      FirstAndRest(es);
    }
  }

  lemma FirstAndRest(es: seq<TreeEntry>)
    requires es != []
    ensures [es[0]] + es[1..] == es
  {
  }

  lemma ValidTail(es: seq<TreeEntry>)
    requires ValidEntries(es) && es != []
    ensures ValidEntries(es[1..]) && (|es| > 1 ==> Follows(Some(es[0].name), es[1].name))
  {
    assert Names(es[1..]) == Names(es)[1..];
    if |es| > 1 {
      assert Less(Names(es)[0], Names(es)[1]);
    }
  }

  lemma ValidCons(e: TreeEntry, rest: seq<TreeEntry>)
    requires Fits(e) && ValidType(e.typ) && ValidEntries(rest)
    requires forall i :: 0 <= i < |rest| ==> Less(e.name, rest[i].name)
    ensures ValidEntries([e] + rest)
  {
    assert Names([e] + rest) == [e.name] + Names(rest);
  }

  lemma {:induction false} EncodeDecodedFrom(buf: Bytes, prev: Option<Bytes>)
    requires DecodeFrom(buf, prev).Ok?
    ensures var es := DecodeFrom(buf, prev).value;
            && ValidEntries(es) && EncodeTree(es) == buf
            && forall i :: 0 <= i < |es| ==> Follows(prev, es[i].name)
    decreases |buf|
  {
    if buf != [] {
      EncodeDecodedEntry(buf);
      var (e, n) := DecodeEntry(buf).value;
      EncodeDecodedFrom(buf[n..], Some(e.name));
      var rest := DecodeFrom(buf[n..], Some(e.name)).value;
      assert buf == buf[..n] + buf[n..];
      ValidCons(e, rest);
      assert ([e] + rest)[1..] == rest;
      forall i | 0 <= i < |rest| ensures Follows(prev, rest[i].name) {
        if prev.Some? { LessTransitive(prev.value, e.name, rest[i].name); }
      }
    }
  }

  /** Decoding what was encoded gives the entries back: nothing `putTree` is given in order is lost. */
  lemma DecodeEncode(es: seq<TreeEntry>)
    requires ValidEntries(es)
    ensures DecodeTree(EncodeTree(es)) == Ok(es)
  {
    DecodeEncodedFrom(es, None);
  }

  /** Every accepted byte string is the encoding of exactly the entries it decodes to. */
  lemma EncodeDecode(buf: Bytes)
    requires DecodeTree(buf).Ok?
    ensures ValidEntries(DecodeTree(buf).value) && EncodeTree(DecodeTree(buf).value) == buf
  {
    EncodeDecodedFrom(buf, None);
  }

  /** The codec is a bijection between valid listings and accepted byte strings. */
  lemma CodecBijection(es: seq<TreeEntry>, buf: Bytes)
    ensures ValidEntries(es) && EncodeTree(es) == buf <==> DecodeTree(buf) == Ok(es)
  {
    if ValidEntries(es) && EncodeTree(es) == buf { DecodeEncode(es); }
    if DecodeTree(buf) == Ok(es) { EncodeDecode(buf); }
  }

  // ---------------------------------------------------------------- what is wrong with a refused buffer

  /** The name that the next one has to come after. */
  function NameBefore(prev: Option<Bytes>, es: seq<TreeEntry>): Option<Bytes> {
    if es == [] then prev else Some(es[|es| - 1].name)
  }

  lemma FirstApart(es: seq<TreeEntry>, tail: Bytes)
    requires AllFit(es) && es != []
    ensures AllFit(es[1..]) && EncodeTree(es) + tail == EncodeEntry(es[0]) + (EncodeTree(es[1..]) + tail)
    ensures forall prev :: NameBefore(prev, es) == NameBefore(Some(es[0].name), es[1..])
  {
  }

  /** An accepted beginning is read, and the rest decides. */
  lemma {:induction false} DecodeOn(es: seq<TreeEntry>, tail: Bytes, prev: Option<Bytes>, error: Error)
    requires ValidEntries(es) && (es != [] ==> Follows(prev, es[0].name))
    requires DecodeFrom(tail, NameBefore(prev, es)) == Err(error)
    ensures DecodeFrom(EncodeTree(es) + tail, prev) == Err(error)
    decreases |es|
  {
    if es == [] {
      assert EncodeTree(es) + tail == tail;
    } else {
      FirstApart(es, tail);
      ValidTail(es);
      DecodeOn(es[1..], tail, Some(es[0].name), error);
      DecodeStep(es[0], EncodeTree(es[1..]) + tail, prev);
    }
  }

  /** The checks on one entry, in order: a header, a known letter, lengths that stay inside. */
  lemma EntryErrors(buf: Bytes)
    ensures |buf| < 3 ==> DecodeEntry(buf) == Err(CorruptHeader)
    ensures |buf| >= 3 && buf[0] !in {114, 120, 115, 100} ==> DecodeEntry(buf) == Err(CorruptType)
    ensures |buf| >= 3 && buf[0] in {114, 120, 115, 100} ==>
              var name := 3 + buf[1] as int + 256 * buf[2] as int;
              if |buf| <= name || |buf| < name + 1 + buf[name] as int then DecodeEntry(buf) == Err(CorruptTruncated)
              else DecodeEntry(buf).Ok? && DecodeEntry(buf).value.0.name == buf[3..name]
  {
  }

  /**
   * After entries that are in order, the error is that of what comes behind them, or that its name does not come after
   * the one before.
   */
  lemma DecodeErrors(es: seq<TreeEntry>, tail: Bytes)
    requires ValidEntries(es) && tail != []
    ensures DecodeEntry(tail).Err? ==> DecodeTree(EncodeTree(es) + tail) == Err(DecodeEntry(tail).error)
    ensures DecodeEntry(tail).Ok? && es != [] && !Less(es[|es| - 1].name, DecodeEntry(tail).value.0.name) ==>
              DecodeTree(EncodeTree(es) + tail) == Err(CorruptOrder)
  {
    var r := DecodeFrom(tail, NameBefore(None, es));
    if r.Err? { DecodeOn(es, tail, None, r.error); }
  }
}
