/** Transactions, scripts and addresses, as far as finding the wallet's own needs them. */
module ChainData {
  import opened Optional

  /** An address in its encoded form. */
  type Address = nat
  type Script = nat
  type TxId = nat
  type KeyScope = nat

  datatype OutPoint = OutPoint(tx: TxId, index: nat)
  datatype Tx = Tx(id: TxId, ins: seq<OutPoint>, outs: seq<Script>)
  datatype Block = Block(hash: nat, txs: seq<Tx>)

  /** A derived key of a scope, by child index on one of its two branches. */
  datatype ScopedIndex = ScopedIndex(scope: KeyScope, index: nat)
}
