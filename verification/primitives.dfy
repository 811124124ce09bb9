/** The hash functions, which are library code here and in the wallet: arbitrary functions of the
    right width. Nothing in this project depends on which ones they are. */
module Primitives {
  import opened Base

  type Block = b: seq<byte> | |b| == 32 witness seq(32, _ => 0)
  type Block64 = b: seq<byte> | |b| == 64 witness seq(64, _ => 0)
  type Block20 = b: seq<byte> | |b| == 20 witness seq(20, _ => 0)

  datatype Hashes = Hashes(
    sha256: seq<byte> -> Block,
    sha512: seq<byte> -> Block64,
    sha3_512: seq<byte> -> Block64,
    ripemd160: seq<byte> -> Block20)

  /** `addr_hash_generate`: RIPEMD-160 over SHA3-512. */
  function AddrHash(h: Hashes, input: seq<byte>): Block20 {
    h.ripemd160(h.sha3_512(input))
  }
}
