/** The wire entities that dcrros reads from the node: transactions, blocks and outpoints. */
module Wire {
  import opened Prelude

  type Hash = h: Bytes | |h| == 32 witness seq(32, _ => 0)

  const ZERO_HASH: Hash :=
    [0, 0, 0, 0, 0, 0, 0, 0, 0, 0, 0, 0, 0, 0, 0, 0, 0, 0, 0, 0, 0, 0, 0, 0, 0, 0, 0, 0, 0, 0, 0, 0]

  const TREE_REGULAR: Int8 := 0
  const TREE_STAKE: Int8 := 1

  datatype OutPoint = OutPoint(hash: Hash, index: UInt32, tree: Int8)

  datatype TxIn = TxIn(prevOut: OutPoint, valueIn: int)

  datatype TxOut = TxOut(value: int, version: UInt16, pkScript: Bytes)

  /** What stake.DetermineTxType answers for a transaction. */
  datatype TxType = Regular | Ticket | Vote | Revocation | TreasuryAdd | TreasurySpend | TreasuryBase

  /** A transaction together with its hash and its detected type. */
  datatype Tx = Tx(hash: Hash, txType: TxType, ins: seq<TxIn>, outs: seq<TxOut>)

  datatype Block = Block(prevBlock: Hash, height: UInt32, voteBits: UInt16, txs: seq<Tx>, stxs: seq<Tx>)

  /** Information about an output spent by some input. */
  datatype PrevOutput = PrevOutput(pkScript: Bytes, version: UInt16, amount: int)

  /** The output an outpoint names, if the transaction index knows it. */
  function Lookup(txs: map<Hash, Tx>, o: OutPoint): Option<PrevOutput> {
    if o.hash in txs && o.index < |txs[o.hash].outs| then
      var out := txs[o.hash].outs[o.index];
      Some(PrevOutput(out.pkScript, out.version, out.value))
    else
      None
  }

  /** Looking up a list of outpoints succeeds only as a whole. */
  function Fetch(txs: map<Hash, Tx>, targets: seq<OutPoint>): Option<map<OutPoint, PrevOutput>> {
    if forall o | o in targets :: Lookup(txs, o).Some? then
      Some(map o | o in targets :: Lookup(txs, o).value)
    else
      None
  }
}
