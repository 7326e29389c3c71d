/** Contracts of the libraries the store calls: BLAKE3 and LZ4. */
module Primitives {
  import opened Basics

  const HASH_LEN: nat := 32

  const LZ4_MAX_INPUT_SIZE: nat := 0x7E00_0000

  const INT32_MAX: nat := 0x7FFF_FFFF

  /** The libraries as functions. `compress` is `LZ4_compress_default` with room for |data| - 1 bytes. */
  datatype Prim = Prim(
    hash: Bytes -> Bytes,
    compress: Bytes -> Option<Bytes>,
    decompress: (Bytes, nat) -> Option<Bytes>)

  /** What is assumed of them: digests have a fixed length, and decompression undoes compression. */
  ghost predicate Sound(prim: Prim) {
    && (forall d: Bytes :: |prim.hash(d)| == HASH_LEN)
    && (forall d: Bytes :: prim.compress(d).Some? ==>
          var c := prim.compress(d).value;
          0 < |c| < |d| && prim.decompress(c, |d|) == Some(d))
  }

  /** No two of these contents collide. Stated of finite sets only: a fixed-length digest cannot be injective. */
  ghost predicate CollisionFree(prim: Prim, contents: set<Bytes>) {
    forall a, b :: a in contents && b in contents && prim.hash(a) == prim.hash(b) ==> a == b
  }
}
