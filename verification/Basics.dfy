/** Bytes, their order, and the result types shared by every layer. */
module Basics {

  type Byte = x: int | 0 <= x < 256

  type Bytes = seq<Byte>

  /** The name of an object: the hash of its content. */
  type Id = Bytes

  const U64: nat := 0x1_0000_0000_0000_0000

  /** A 16-bit length stored low byte first. */
  function Word(lo: Byte, hi: Byte): nat {
    lo as int + 256 * (hi as int)
  }

  datatype Option<+T> = None | Some(value: T)

  /** The exceptions the repository throws, one constructor per message that callers can tell apart. */
  datatype Error =
    | CorruptHeader        // "corrupt tree object"
    | CorruptType          // "corrupt tree object: bad type"
    | CorruptTruncated     // "corrupt tree object: truncated"
    | CorruptOrder         // "corrupt tree object: not sorted"
    | EntryTooLarge        // "tree entry too large"
    | MissingTree          // "missing tree object"
    | MissingBlob          // "missing blob"
    | TreeTooDeep          // "tree too deep"
    | PathTooLong          // "path ... too long"
    | ParentNotDirectory   // "parent of ... is not a directory"
    | NonEmptyDirectory    // "conflicting non-empty directory"
    | LinkTargetMissing    // "target does not exist"
    | LinkTargetDirectory  // "target is a directory"
    | PackOutOfBounds      // "pack index out of bounds"
    | PackTruncated        // "pack truncated"
    | CorruptBlob          // "corrupt compressed blob" and "blob too large"
    | GenerationChurn      // "pack generation churn"
    | LockTimeout          // "timed out waiting for the pack writer lock"
    | ArchiveError         // whatever reading the archive throws
    | ConsumerGone         // "consumer gone"
    | CorruptRecord        // whatever the JSON parser throws

  datatype Result<+T> = Ok(value: T) | Err(error: Error)

  /** The order of `std::string`: lexicographic on unsigned bytes. */
  predicate Less(a: Bytes, b: Bytes) {
    if b == [] then false
    else if a == [] then true
    else if a[0] != b[0] then a[0] < b[0]
    else Less(a[1..], b[1..])
  }

  lemma {:induction false} LessTransitive(a: Bytes, b: Bytes, c: Bytes)
    requires Less(a, b) && Less(b, c)
    ensures Less(a, c)
  {
    if a != [] && a[0] == b[0] == c[0] {
      LessTransitive(a[1..], b[1..], c[1..]);
    }
  }

  lemma {:induction false} LessIrreflexive(a: Bytes)
    ensures !Less(a, a)
  {
    if a != [] {
      LessIrreflexive(a[1..]);
    }
  }

  /** Up to a position the two are the same, and there `a` ends or has the smaller byte. */
  predicate DiffersAt(a: Bytes, b: Bytes, k: nat) {
    k <= |a| && k < |b| && a[..k] == b[..k] && (k < |a| ==> a[k] < b[k])
  }

  /** The order of strings as unsigned bytes, as `std::string` has it. */
  lemma {:induction false} LessExactly(a: Bytes, b: Bytes)
    ensures Less(a, b) <==> exists k: nat :: DiffersAt(a, b, k)
    decreases |a|
  {
    if a == [] {
      if b != [] { assert DiffersAt(a, b, 0); }
    } else if b != [] {
      if a[0] == b[0] {
        LessExactly(a[1..], b[1..]);
        if k: nat :| DiffersAt(a[1..], b[1..], k) {
          assert a[..k + 1] == [a[0]] + a[1..][..k] && b[..k + 1] == [b[0]] + b[1..][..k];
          assert DiffersAt(a, b, k + 1);
        }
        if k: nat :| DiffersAt(a, b, k) {
          assert k > 0 && a[1..][..k - 1] == a[..k][1..] && b[1..][..k - 1] == b[..k][1..];
          assert DiffersAt(a[1..], b[1..], k - 1);
        }
      } else {
        if a[0] < b[0] { assert DiffersAt(a, b, 0); }
        if k: nat :| DiffersAt(a, b, k) {
          if k > 0 { assert a[..k][0] == b[..k][0]; }
        }
      }
    }
  }

  lemma LessAsymmetric(a: Bytes, b: Bytes)
    requires Less(a, b)
    ensures !Less(b, a) && a != b
  {
    LessIrreflexive(a);
    if Less(b, a) {
      LessTransitive(a, b, a);
    }
  }

  lemma {:induction false} LessTotal(a: Bytes, b: Bytes)
    ensures Less(a, b) || a == b || Less(b, a)
  {
    if a != [] && b != [] && a[0] == b[0] {
      LessTotal(a[1..], b[1..]);
      if a[1..] == b[1..] {
        assert a == [a[0]] + a[1..] == b;
      }
    }
  }

  /** Names in strictly increasing order. */
  predicate Sorted(names: seq<Bytes>) {
    forall i, j :: 0 <= i < j < |names| ==> Less(names[i], names[j])
  }

  function Pow256(n: nat): (r: nat)
    ensures r > 0
  {
    if n == 0 then 1 else 256 * Pow256(n - 1)
  }

  lemma SubsetSize<T>(a: set<T>, b: set<T>)
    requires a <= b
    ensures |a| <= |b|
  {
    assert b == a + (b - a);
    assert a * (b - a) == {};
  }

  predicate IsLeast(m: Bytes, s: set<Bytes>) {
    m in s && forall x :: x in s && x != m ==> Less(m, x)
  }

  lemma {:induction false} LeastExists(s: set<Bytes>)
    requires s != {}
    ensures exists m :: IsLeast(m, s)
    decreases |s|
  {
    var x :| x in s;
    if s == {x} {
      assert IsLeast(x, s);
    } else {
      var rest := s - {x};
      assert rest != {};
      LeastExists(rest);
      var m :| IsLeast(m, rest);
      LessTotal(x, m);
      if Less(x, m) {
        forall y | y in s && y != x ensures Less(x, y) {
          if y != m { LessTransitive(x, m, y); }
        }
        assert IsLeast(x, s);
      } else {
        assert IsLeast(m, s);
      }
    }
  }

  lemma LeastUnique(s: set<Bytes>, a: Bytes, b: Bytes)
    requires IsLeast(a, s) && IsLeast(b, s)
    ensures a == b
  {
    if a != b { LessAsymmetric(a, b); }
  }

  function Least(s: set<Bytes>): (m: Bytes)
    requires s != {}
    ensures IsLeast(m, s)
  {
    LeastExists(s);
    assert forall a, b :: IsLeast(a, s) && IsLeast(b, s) ==> a == b by {
      forall a, b | IsLeast(a, s) && IsLeast(b, s) ensures a == b { LeastUnique(s, a, b); }
    }
    var m :| IsLeast(m, s);
    m
  }

  /** The iteration order of a `std::map` with string keys. */
  function SortedKeys(s: set<Bytes>): (names: seq<Bytes>)
    ensures Sorted(names)
    ensures forall x :: x in names <==> x in s
    decreases |s|
  {
    if s == {} then []
    else
      var m := Least(s);
      var rest := SortedKeys(s - {m});
      assert forall i :: 0 <= i < |rest| ==> rest[i] in rest && Less(m, rest[i]);
      [m] + rest
  }

  lemma SortedKeysIndex(s: set<Bytes>, x: Bytes) returns (i: nat)
    requires x in s
    ensures i < |SortedKeys(s)| && SortedKeys(s)[i] == x
  {
    i :| 0 <= i < |SortedKeys(s)| && SortedKeys(s)[i] == x;
  }

  lemma SortedDistinct(names: seq<Bytes>, i: nat, j: nat)
    requires Sorted(names) && i < |names| && j < |names| && names[i] == names[j]
    ensures i == j
  {
    LessIrreflexive(names[i]);
  }

  /** Two strictly sorted listings of the same names are the same listing. */
  lemma {:induction false} SortedUnique(a: seq<Bytes>, b: seq<Bytes>)
    requires Sorted(a) && Sorted(b)
    requires forall x :: x in a <==> x in b
    ensures a == b
  {
    if a == [] {
      assert forall i :: 0 <= i < |b| ==> b[i] in b;
    } else {
      assert a[0] in b;
      assert b != [] && b[0] in a;
      if a[0] != b[0] {
        LessAsymmetric(a[0], b[0]);
      }
      forall x ensures x in a[1..] <==> x in b[1..] {
        LessIrreflexive(a[0]);
        if x in a[1..] {
          assert x in a;
          assert Less(a[0], x);
        }
        if x in b[1..] {
          assert x in b;
          assert Less(b[0], x);
        }
      }
      SortedUnique(a[1..], b[1..]);
    }
  }

  /** Concatenation of a list of chunks. */
  function Concat(chunks: seq<Bytes>): Bytes {
    if chunks == [] then [] else chunks[0] + Concat(chunks[1..])
  }

  lemma {:induction false} ConcatAppend(a: seq<Bytes>, b: seq<Bytes>)
    ensures Concat(a + b) == Concat(a) + Concat(b)
  {
    if a == [] {
      assert a + b == b;
    } else {
      assert (a + b)[1..] == a[1..] + b;
      ConcatAppend(a[1..], b);
    }
  }
}
