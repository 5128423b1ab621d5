/** What a transaction input points to: an output of an earlier transaction (wire/msgtx.go,
chaincfg/chainhash/hash.go). */
module OutPoints {
  import opened Bytes

  const HASH_SIZE: nat := 32

  type Hash = h: seq<byte> | |h| == HASH_SIZE witness seq(HASH_SIZE, _ => 0)

  datatype OutPoint = OutPoint(hash: Hash, index: uint32)
}
