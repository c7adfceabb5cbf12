/** Transactions, their encoding and the hash that names them. The codec is a
    parameter; what is assumed of it is `Sound`. */
module Transactions {
  import opened Wrappers

  type Bytes = seq<bv8>
  datatype Address = Address(id: nat)
  datatype TxHash = TxHash(digest: nat)

  datatype Transaction = Transaction(nonce: nat, body: Bytes)

  /** `encode` and `decode` are the typed envelopes of EIP-2718. */
  datatype Codec = Codec(
    encode: Transaction -> Bytes,
    decode: Bytes -> Option<Transaction>,
    recover: Transaction -> Option<Address>,
    hash: Bytes -> TxHash)
  {
    ghost predicate Sound() {
      && (forall tx :: decode(encode(tx)) == Some(tx))
      && (forall x, y :: hash(x) == hash(y) ==> x == y)
    }

    function HashOf(tx: Transaction): TxHash {
      hash(encode(tx))
    }
  }

  /** A transaction the pool has validated, with the sender it recovered. */
  datatype PoolTxn = PoolTxn(sender: Address, tx: Transaction)

  predicate Genuine(c: Codec, t: PoolTxn) {
    c.recover(t.tx) == Some(t.sender)
  }

  /** What the pool hands to consensus. */
  datatype VerifiedTxn = VerifiedTxn(bytes: Bytes, sender: Address, nonce: nat)

  function ToVerified(c: Codec, t: PoolTxn): VerifiedTxn {
    VerifiedTxn(c.encode(t.tx), t.sender, t.tx.nonce)
  }

  type Instant = nat

  datatype CacheEntry = CacheEntry(insertedAt: Instant, txn: PoolTxn)

  type TxnCache = map<TxHash, CacheEntry>
}
