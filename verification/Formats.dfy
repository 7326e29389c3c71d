/** The formats byte by byte: what is in a listing, under which keys records are, and what an archive begins and ends with. */
module Formats {
  import opened Basics
  import opened TreeCodec
  import Stamps
  import Records
  import opened NarFormat
  import opened NarDump

  /** The bytes of a word in ASCII. */
  function Ascii(s: string): (r: Bytes)
    requires forall i :: 0 <= i < |s| ==> s[i] < 128 as char
    ensures |r| == |s| && forall i :: 0 <= i < |r| ==> r[i] == s[i] as int
  {
    seq(|s|, i requires 0 <= i < |s| => s[i] as int)
  }

  // ---------------------------------------------------------------- listings

  /** An entry: a letter, the name's length in two bytes, low byte first, the name, the id's length in one, the id. */
  lemma EntryBytes(e: TreeEntry, rest: seq<TreeEntry>)
    requires AllFit([e] + rest)
    ensures AllFit(rest)
    ensures EncodeTree([e] + rest) ==
            [e.typ, |e.name| % 256, |e.name| / 256] + e.name + [|e.id|] + e.id + EncodeTree(rest)
  {
    assert ([e] + rest)[1..] == rest && ([e] + rest)[0] == e;
    assert forall i :: 0 <= i < |rest| ==> rest[i] == ([e] + rest)[i + 1];
  }

  lemma TypeLetters()
    ensures [REGULAR] == Ascii("r") && [EXECUTABLE] == Ascii("x") && [SYMLINK] == Ascii("s") && [DIRECTORY] == Ascii("d")
    ensures forall t: Byte :: ValidType(t) <==> t in Ascii("rxsd")
  {
    assert Ascii("rxsd") == [114, 120, 115, 100];
  }

  // ---------------------------------------------------------------- records

  lemma RecordKeys(id: Bytes, path: Bytes)
    ensures Stamps.RootKey(id, true) == Ascii("R") + id && Stamps.RootKey(id, false) == Ascii("B") + id
    ensures Stamps.LAST_GC == Ascii("lastgc")
    ensures Records.PathKey(path) == Ascii("sp:") + path && Records.DrvKey(path) == Ascii("sd:") + path
  {
  }

  lemma {:induction false} BigEndianAt(x: nat, n: nat, i: nat)
    requires i < n
    ensures Stamps.BigEndian(x, n)[i] == x / Pow256(n - 1 - i) % 256
    decreases n
  {
    if i < n - 1 {
      BigEndianAt(x / 256, n - 1, i);
      DivideTwice(x, Pow256(n - 2 - i));
    }
  }

  /** A stamp is eight bytes, the highest first. */
  lemma StampBytes(t: nat)
    ensures Stamps.Be64(t) ==
            [t / 0x100_0000_0000_0000 % 256, t / 0x1_0000_0000_0000 % 256, t / 0x100_0000_0000 % 256, t / 0x1_0000_0000 % 256,
             t / 0x100_0000 % 256, t / 0x1_0000 % 256, t / 0x100 % 256, t % 256]
  {
    Powers();
    forall i | 0 <= i < 8 ensures Stamps.Be64(t)[i] == t / Pow256(7 - i) % 256 { BigEndianAt(t, 8, i); }
  }

  lemma Powers()
    ensures Pow256(0) == 1 && Pow256(1) == 0x100 && Pow256(2) == 0x1_0000 && Pow256(3) == 0x100_0000
    ensures Pow256(4) == 0x1_0000_0000 && Pow256(5) == 0x100_0000_0000 && Pow256(6) == 0x1_0000_0000_0000
    ensures Pow256(7) == 0x100_0000_0000_0000
  {
    assert Pow256(4) == 256 * Pow256(3);
    assert Pow256(6) == 256 * Pow256(5);
  }

  // ---------------------------------------------------------------- archives

  /** Eight bytes, the lowest first. */
  lemma LengthBytes(n: nat)
    ensures LittleEndian(n, 8) ==
            [n % 256, n / 0x100 % 256, n / 0x1_0000 % 256, n / 0x100_0000 % 256, n / 0x1_0000_0000 % 256,
             n / 0x100_0000_0000 % 256, n / 0x1_0000_0000_0000 % 256, n / 0x100_0000_0000_0000 % 256]
  {
    Powers();
    forall i | 0 <= i < 8 ensures LittleEndian(n, 8)[i] == n / Pow256(i) % 256 { LittleEndianAt(n, 8, i); }
  }

  lemma Padding(n: nat)
    ensures PadLen(n) == (8 - n % 8) % 8
  {
  }

  /** A string: its length, its bytes, and zeros up to a multiple of eight. */
  lemma StringBytes(s: Bytes)
    ensures var n := |s|;
            NarStr(s) ==
            [n % 256, n / 0x100 % 256, n / 0x1_0000 % 256, n / 0x100_0000 % 256, n / 0x1_0000_0000 % 256,
             n / 0x100_0000_0000 % 256, n / 0x1_0000_0000_0000 % 256, n / 0x100_0000_0000_0000 % 256]
            + s + seq((8 - n % 8) % 8, i => 0)
  {
    LengthBytes(|s|);
    Padding(|s|);
    assert Zeros(PadLen(|s|)) == seq((8 - |s| % 8) % 8, i => 0);
  }

  lemma Words()
    ensures MAGIC == Ascii("nix-archive-1") && OPEN == Ascii("(") && CLOSE == Ascii(")") && TYPE == Ascii("type")
    ensures REGULAR_FILE == Ascii("regular") && EXECUTABLE_FLAG == Ascii("executable") && CONTENTS == Ascii("contents")
    ensures SYMLINK_FILE == Ascii("symlink") && TARGET == Ascii("target") && DIRECTORY_FILE == Ascii("directory")
    ensures ENTRY == Ascii("entry") && NAME == Ascii("name") && NODE == Ascii("node")
  {
  }

  /** The strings between the brackets of a node. */
  function Bracketed(inside: seq<Bytes>): seq<Bytes> {
    [Ascii("(")] + inside + [Ascii(")")]
  }

  /** The archives of a file, an executable file and a symbolic link, in words. */
  lemma FileArchives(contents: Bytes)
    ensures Nar(Regular(false, contents)) ==
            NarBytes([Ascii("nix-archive-1")] + Bracketed([Ascii("type"), Ascii("regular"), Ascii("contents"), contents]))
    ensures Nar(Regular(true, contents)) ==
            NarBytes([Ascii("nix-archive-1")]
                     + Bracketed([Ascii("type"), Ascii("regular"), Ascii("executable"), [], Ascii("contents"), contents]))
    ensures Nar(Symlink(contents)) ==
            NarBytes([Ascii("nix-archive-1")] + Bracketed([Ascii("type"), Ascii("symlink"), Ascii("target"), contents]))
  {
    Words();
    assert [MAGIC] + Tokens(Regular(false, contents)) == [MAGIC] + ([OPEN] + [TYPE, REGULAR_FILE, CONTENTS, contents] + [CLOSE]);
    assert [MAGIC] + Tokens(Regular(true, contents))
        == [MAGIC] + ([OPEN] + [TYPE, REGULAR_FILE, EXECUTABLE_FLAG, [], CONTENTS, contents] + [CLOSE]);
    assert [MAGIC] + Tokens(Symlink(contents)) == [MAGIC] + ([OPEN] + [TYPE, SYMLINK_FILE, TARGET, contents] + [CLOSE]);
  }

  /** What one entry of a directory adds. */
  function EntryWords(name: Bytes, node: seq<Bytes>): seq<Bytes> {
    [Ascii("entry")] + Bracketed([Ascii("name"), name, Ascii("node")] + node)
  }

  /** And of a directory: the words of its entries, one after another. */
  lemma DirectoryArchive(entries: seq<FsEntry>)
    ensures Nar(Directory(entries)) ==
            NarBytes([Ascii("nix-archive-1")] + Bracketed([Ascii("type"), Ascii("directory")] + EntryTokens(entries)))
    ensures entries == [] ==> EntryTokens(entries) == []
    ensures entries != [] ==>
              EntryTokens(entries) == EntryWords(entries[0].name, Tokens(entries[0].node)) + EntryTokens(entries[1..])
  {
    Words();
    var inside := EntryTokens(entries);
    assert Tokens(Directory(entries)) == [OPEN] + ([TYPE, DIRECTORY_FILE] + inside) + [CLOSE];
    if entries != [] {
      var name, node := entries[0].name, Tokens(entries[0].node);
      assert OneEntry(entries[0]) == [ENTRY] + ([OPEN] + ([NAME, name, NODE] + node) + [CLOSE]);
    }
  }

  /** An archive is its strings one after another. */
  lemma ArchiveStrings(front: seq<Bytes>, s: Bytes, back: seq<Bytes>)
    ensures NarBytes([]) == [] && NarBytes(front + [s] + back) == NarBytes(front) + NarStr(s) + NarBytes(back)
  {
    NarBytesAppend(front + [s], back);
    NarBytesAppend(front, [s]);
    assert NarBytes([s]) == NarStr(s) + NarBytes([]);
  }
}
