/** Transactions as the wallet sees them.

    A transaction hash is modelled as an ideal hash: the identifier of a transaction is
    the hashed contents themselves, so that two transactions share an identifier only when
    they are the same transaction, and a transaction can only name, in its inputs,
    transactions that existed before it. */
module Bitcoin {
  import opened Wrappers

  /** The 160-bit hash of a public key, as extracted from an output script. */
  type Pkh = nat

  datatype TxId =
    | Id(body: TxBody)
    | Unknown(digest: nat)  // a hash no known transaction has

  datatype OutPoint = OutPoint(txHash: TxId, n: nat)

  datatype TxIn = TxIn(prev: OutPoint, sequence: nat)

  /** `pkh` is the result of the script test BRScriptPKH on the output's script. */
  datatype TxOut = TxOut(amount: nat, pkh: Option<Pkh>)

  /** `vsize` is the virtual size BIP141 gives the transaction. */
  datatype TxBody = TxBody(inputs: seq<TxIn>, outputs: seq<TxOut>, lockTime: nat, vsize: nat)

  datatype Tx = Tx(body: TxBody, blockHeight: nat, timestamp: nat) {
    function Hash(): TxId { Id(body) }
  }

  const TX_UNCONFIRMED: nat := 0x7FFF_FFFF
  const TX_FEE_PER_KB: nat := 1000
  const TX_OUTPUT_SIZE: nat := 34
  const TX_INPUT_SIZE: nat := 148
  const TX_MIN_OUTPUT_AMOUNT: nat := TX_FEE_PER_KB * 3 * (TX_OUTPUT_SIZE + TX_INPUT_SIZE) / 1000
  const TX_MAX_SIZE: nat := 100000
  const TX_MAX_LOCK_HEIGHT: nat := 500000000
  const SEQUENCE_FINAL: nat := 0xFFFF_FFFF  // UINT32_MAX

  function Inputs(b: TxBody): set<OutPoint> {
    set j | 0 <= j < |b.inputs| :: b.inputs[j].prev
  }

  /** True when a transaction with contents `b` spends an output of the transaction `id`. */
  predicate Spends(b: TxBody, id: TxId) {
    exists j :: 0 <= j < |b.inputs| && b.inputs[j].prev.txHash == id
  }

  /** A transaction set keyed by hash, as BRSet keeps it. */
  predicate KeyedByHash(all: map<TxId, Tx>) {
    forall id :: id in all ==> all[id].Hash() == id
  }
}
