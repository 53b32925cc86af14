/** What coin selection reads of a wallet: its unspent outputs, by their hashes, and its balance. */
module WalletFunds {
  import opened Wrappers
  import opened Wire
  import Bitcoin
  import Ledger
  import TxWire
  import opened CoinSelection

  type Hashing = Bitcoin.TxId -> seq<Byte>

  function Named(hash: Hashing, u: Bitcoin.OutPoint): Utxo {
    Utxo(hash(u.txHash), u.n)
  }

  function AllNamed(hash: Hashing, us: seq<Bitcoin.OutPoint>): (s: seq<Utxo>)
    ensures |s| == |us| && forall k :: 0 <= k < |us| ==> s[k] == Named(hash, us[k])
  {
    seq(|us|, k requires 0 <= k < |us| => Named(hash, us[k]))
  }

  /** The funds are those of the ledger: its unspent outputs, each of a known transaction and
      with its amount, and its balance. */
  predicate Shows(hash: Hashing, f: Funds, l: Ledger.Ledger) {
    && f.utxos == AllNamed(hash, l.utxos) && f.balance == l.balance
    && forall u :: u in l.utxos ==> IsShown(hash, f, u)
  }

  predicate IsShown(hash: Hashing, f: Funds, u: Bitcoin.OutPoint) {
    IsKnown(f, Named(hash, u)) && f.allTx[hash(u.txHash)][u.n].amount == Ledger.Amount(u)
  }

  /** What all unspent outputs are worth as coins is what they are worth in the ledger. */
  lemma {:induction false} WorthAsCoins(hash: Hashing, f: Funds, us: seq<Bitcoin.OutPoint>)
    requires forall u :: u in us ==> IsShown(hash, f, u)
    ensures Funding(Coins(f, AllNamed(hash, us))) == Ledger.Amounts(us)
    ensures |Coins(f, AllNamed(hash, us))| == |us|
  {
    if us != [] {
      var n := |us| - 1;
      WorthAsCoins(hash, f, us[..n]);
      var named := AllNamed(hash, us);
      assert named[..n] == AllNamed(hash, us[..n]);
      assert us[n] in us && named[n] == Named(hash, us[n]);
      var c := Coin(named[n], f.allTx[named[n].hash][named[n].n]);
      var before := Coins(f, named[..n]);
      assert Coins(f, named) == before + [c];
      TxWire.SumGrows(CoinAmount, before + [c], |before|);
      assert (before + [c])[..|before|] == before && (before + [c])[..|before| + 1] == before + [c];
    }
  }

  /** After a recomputation with nothing pending, the funds of the wallet are different coins
      whose worth is the balance, and none is left out. */
  lemma {:induction false} WalletFundsAreCoins(hash: Hashing, f: Funds, c: Ledger.Context, txs: seq<Bitcoin.TxBody>)
    requires forall s, t :: hash(s) == hash(t) ==> s == t
    requires Distinct(txs) && Ledger.Replay(c, txs).pending == {} && Shows(hash, f, Ledger.Replay(c, txs))
    ensures Distinct(f.utxos) && f.balance == Funding(Coins(f, f.utxos)) && |Coins(f, f.utxos)| == |f.utxos|
  {
    hide Ledger.Replay;
    hide Coins;
    hide Ledger.Amounts;
    Ledger.UtxosExactly(c, txs);
    Ledger.BalanceIsConserved(c, txs);
    WorthAsCoins(hash, f, Ledger.Replay(c, txs).utxos);
  }
}
