/** Root records: their keys, their timestamps, and what touching, flushing and expiring do to them. */
module Stamps {
  import opened Basics
  import opened Cas

  const TREE_PREFIX: Byte := 82   // 'R'
  const BLOB_PREFIX: Byte := 66   // 'B'
  const LAST_GC: Bytes := [108, 97, 115, 116, 103, 99]  // "lastgc"

  type Meta = map<Bytes, Bytes>

  function RootKey(root: Id, tree: bool): Bytes {
    [if tree then TREE_PREFIX else BLOB_PREFIX] + root
  }

  predicate HasPrefix(key: Bytes, prefix: Byte) {
    key != [] && key[0] == prefix
  }

  /** `be64`, most significant byte first. */
  function BigEndian(x: nat, n: nat): (r: Bytes)
    ensures |r| == n
  {
    if n == 0 then [] else BigEndian(x / 256, n - 1) + [x % 256]
  }

  function FromBigEndian(b: Bytes): nat {
    if b == [] then 0 else FromBigEndian(b[..|b| - 1]) * 256 + b[|b| - 1] as int
  }

  function Be64(x: nat): Bytes {
    BigEndian(x, 8)
  }

  predicate IsTimestamp(b: Bytes) {
    |b| == 8
  }

  lemma {:induction false} BigEndianRoundTrip(x: nat, n: nat)
    requires x < Pow256(n)
    ensures FromBigEndian(BigEndian(x, n)) == x
  {
    if n > 0 {
      BigEndianRoundTrip(x / 256, n - 1);
      assert BigEndian(x, n)[..n - 1] == BigEndian(x / 256, n - 1);
    }
  }

  /** A clock reading survives being stored. */
  lemma StampRoundTrip(x: nat)
    requires x < U64
    ensures IsTimestamp(Be64(x)) && FromBigEndian(Be64(x)) == x
  {
    assert Pow256(4) == 0x1_0000_0000;
    assert Pow256(8) == U64;
    BigEndianRoundTrip(x, 8);
  }

  /** `now - stamp` on unsigned 64-bit integers. */
  function Age(now: nat, stamp: nat): nat {
    (now - stamp) % U64
  }

  /** The record at `key` is a stamp that reads as `t`. */
  predicate StampRead(meta: Meta, key: Bytes, t: nat) {
    key in meta && |meta[key]| == 8 && FromBigEndian(meta[key]) == t
  }

  /** The stamp a root registered at `t` has after the next flush: a touch that is already deferred overrides it. */
  function RootStamp(pending: map<Bytes, nat>, key: Bytes, t: nat): nat {
    if key in pending then pending[key] else t
  }

  // ---------------------------------------------------------------- registering and touching

  function Registered(meta: Meta, key: Bytes, now: nat): Meta {
    meta[key := Be64(now)]
  }

  /** `touchRoot`: nothing for unknown roots or recent stamps; the first touch since the last flush wins. */
  function Touched(meta: Meta, pending: map<Bytes, nat>, key: Bytes, now: nat, interval: nat): map<Bytes, nat> {
    if key !in meta || !IsTimestamp(meta[key]) then pending
    else if Age(now, FromBigEndian(meta[key])) < interval then pending
    else if key in pending then pending
    else pending[key := now]
  }

  /** `flush_touches`. */
  function Flushed(meta: Meta, pending: map<Bytes, nat>): Meta {
    meta + map k | k in pending :: Be64(pending[k])
  }

  /** The keys `expire_roots` deletes. */
  function Expired(meta: Meta, prefix: Byte, now: nat, ttl: nat): set<Bytes> {
    set k | k in meta && HasPrefix(k, prefix) && IsTimestamp(meta[k]) && Age(now, FromBigEndian(meta[k])) >= ttl
  }

  function RootsOf(meta: Meta, prefix: Byte): set<Id> {
    set k | k in meta && HasPrefix(k, prefix) :: k[1..]
  }

  /** The records once `maybeGc` has flushed, stamped itself and expired. */
  function AfterExpiry(meta: Meta, pending: map<Bytes, nat>, now: nat, ttl: nat): Meta {
    var stamped := Flushed(meta, pending)[LAST_GC := Be64(now)];
    var trees := stamped - Expired(stamped, TREE_PREFIX, now, ttl);
    trees - Expired(trees, BLOB_PREFIX, now, ttl)
  }

  /** `maybeGc` returns at once if the last collection is recent. */
  predicate RecentGc(meta: Meta, now: nat, interval: nat) {
    LAST_GC in meta && IsTimestamp(meta[LAST_GC]) && Age(now, FromBigEndian(meta[LAST_GC])) < interval
  }

  predicate SomethingExpires(meta: Meta, pending: map<Bytes, nat>, now: nat, ttl: nat) {
    var stamped := Flushed(meta, pending)[LAST_GC := Be64(now)];
    Expired(stamped, TREE_PREFIX, now, ttl) != {} || Expired(stamped, BLOB_PREFIX, now, ttl) != {}
  }
}
