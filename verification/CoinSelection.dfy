/**
 * Building a transaction: which unspent outputs it takes, what fee it pays,
 * what comes back as change, and how much can be sent at most.
 */
module CoinSelection {
  import opened Wrappers
  import opened Wire
  import opened TxWire
  import Bitcoin

  const MIN_FEE_PER_KB: nat := Bitcoin.TX_FEE_PER_KB

  /** BRUTXO */
  datatype Utxo = Utxo(hash: seq<Byte>, n: nat)

  /** An unspent output with the output it names. */
  datatype Coin = Coin(utxo: Utxo, output: Output)

  /** What of the wallet is read: the outputs of its transactions are those of `allTx`. */
  datatype Funds = Funds(utxos: seq<Utxo>, allTx: map<seq<Byte>, seq<Output>>, balance: nat, feePerKb: nat)

  // -------------------------------------------------------------------- fees

  /** `_txFee` */
  function TxFee(feePerKb: nat, size: nat): nat {
    var standardFee := size * Bitcoin.TX_FEE_PER_KB / 1000;
    var fee := (((size * feePerKb / 1000) + 99) / 100) * 100;
    if fee > standardFee then fee else standardFee
  }

  /** The fee pays at least one satoshi a byte and the wanted rate, and at most a hundred satoshi more than that. */
  lemma {:induction false} FeeIsBetween(feePerKb: nat, size: nat)
    ensures var fee, wanted := TxFee(feePerKb, size), size * feePerKb / 1000;
      && fee >= size && fee >= wanted
      && (fee == size || (fee % 100 == 0 && fee < wanted + 100))
  {
    assert size * 1000 / 1000 == size;
    var wanted := size * feePerKb / 1000;
    assert (wanted + 99) / 100 * 100 % 100 == 0;
  }

  lemma {:induction false} Multiplies(a: nat, b: nat, c: nat)
    requires a <= b
    ensures a * c <= b * c
  {
  }

  lemma {:induction false} FeeGrows(feePerKb: nat, small: nat, large: nat)
    requires small <= large
    ensures TxFee(feePerKb, small) <= TxFee(feePerKb, large)
  {
    Multiplies(small, large, feePerKb);
    assert small * feePerKb / 1000 <= large * feePerKb / 1000;
  }

  /** BRWalletMinOutputAmount */
  function MinOutputAmount(feePerKb: nat): (m: nat)
    ensures m >= Bitcoin.TX_MIN_OUTPUT_AMOUNT
  {
    var amount := (Bitcoin.TX_MIN_OUTPUT_AMOUNT * feePerKb + MIN_FEE_PER_KB - 1) / MIN_FEE_PER_KB;
    if amount > Bitcoin.TX_MIN_OUTPUT_AMOUNT then amount else Bitcoin.TX_MIN_OUTPUT_AMOUNT
  }

  function VSize(tx: Tx): nat {
    (4 * BaseSize(tx) + WitnessesSize(tx) + 3) / 4
  }

  // ------------------------------------------------------------------- coins

  predicate IsKnown(f: Funds, u: Utxo) {
    u.hash in f.allTx && u.n < |f.allTx[u.hash]|
  }

  /** The unspent outputs whose transaction is known, in order. */
  function Coins(f: Funds, utxos: seq<Utxo>): (c: seq<Coin>)
    ensures forall k :: 0 <= k < |c| ==> c[k].utxo in utxos
    ensures |c| <= |utxos|
  {
    if |utxos| == 0 then []
    else
      var u := utxos[|utxos| - 1];
      var c := Coins(f, utxos[..|utxos| - 1]);
      if IsKnown(f, u) then c + [Coin(u, f.allTx[u.hash][u.n])] else c
  }

  function InputFor(c: Coin): Input {
    Input(c.utxo.hash, c.utxo.n, c.output.amount, Some(c.output.script), None, None, Bitcoin.SEQUENCE_FINAL)
  }

  function InputsFor(coins: seq<Coin>): (s: seq<Input>)
    ensures |s| == |coins|
  {
    seq(|coins|, k requires 0 <= k < |coins| => InputFor(coins[k]))
  }

  function TxFor(coins: seq<Coin>, outputs: seq<Output>): Tx {
    Tx(1, InputsFor(coins), outputs, 0)
  }

  function CoinAmount(c: Coin): nat { c.output.amount }

  function OutputAmount(o: Output): nat { o.amount }

  function InputAmount(i: Input): nat { i.amount }

  function OutPointOf(i: Input): Utxo { Utxo(i.txHash, i.index) }

  lemma {:induction false} CoinsAreDistinct(f: Funds, utxos: seq<Utxo>)
    requires Distinct(utxos)
    ensures forall j, k :: 0 <= j < k < |Coins(f, utxos)| ==> Coins(f, utxos)[j].utxo != Coins(f, utxos)[k].utxo
  {
    if |utxos| > 0 {
      CoinsAreDistinct(f, utxos[..|utxos| - 1]);
    }
  }

  // ------------------------------------------------------ sizes as inputs come in

  lemma {:induction false} SumJoins<T>(g: T -> nat, s: seq<T>, t: seq<T>)
    ensures Sum(g, s + t) == Sum(g, s) + Sum(g, t)
    decreases |t|
  {
    if |t| == 0 {
      assert s + t == s;
    } else {
      var n := |t| - 1;
      assert (s + t)[..|s| + n] == s + t[..n];
      SumJoins(g, s, t[..n]);
    }
  }

  lemma {:induction false} InputsJoin(c: seq<Coin>, d: seq<Coin>)
    ensures InputsFor(c + d) == InputsFor(c) + InputsFor(d)
  {
  }

  lemma {:induction false} VarIntSizeGrows(m: nat, n: nat)
    requires m <= n
    ensures VarIntSize(m) <= VarIntSize(n)
  {
  }

  lemma {:induction false} SizesGrow(c: seq<Coin>, d: seq<Coin>, outputs: seq<Output>)
    ensures VSize(TxFor(c, outputs)) <= VSize(TxFor(c + d, outputs))
  {
    hide VarIntSize;
    hide InputSize;
    hide WitnessSize;
    hide OutputSize;
    hide InputsFor;
    InputsJoin(c, d);
    SumJoins(InputSize, InputsFor(c), InputsFor(d));
    SumJoins(WitnessSize, InputsFor(c), InputsFor(d));
    VarIntSizeGrows(|c|, |c + d|);
    VarIntSizeGrows(|outputs|, |outputs|);
  }

  /** One more output of at most 34 bytes, the number of outputs still taking one byte. */
  lemma {:induction false} OneMoreOutput(coins: seq<Coin>, outputs: seq<Output>, o: Output)
    requires |outputs| <= 251 && |o.script| <= 25
    ensures VSize(TxFor(coins, outputs + [o])) <= VSize(TxFor(coins, outputs)) + Bitcoin.TX_OUTPUT_SIZE
  {
    hide InputsFor;
    hide InputSize;
    hide WitnessSize;
    SumJoins(OutputSize, outputs, [o]);
    assert Sum(OutputSize, [o]) == Sum(OutputSize, []) + OutputSize(o);
  }

  // --------------------------------------------------------- order of outputs

  lemma {:induction false} SameWithout<T>(s: seq<T>, t: seq<T>, u: seq<T>, x: T)
    requires multiset(s + [x]) == multiset(t + [x] + u)
    ensures multiset(s) == multiset(t + u)
  {
    assert multiset(s + [x]) == multiset(s) + multiset{x};
    assert multiset(t + [x] + u) == multiset(t + u) + multiset{x};
    assert multiset(s) == multiset(s + [x]) - multiset{x};
    assert multiset(t + u) == multiset(t + [x] + u) - multiset{x};
  }

  lemma {:induction false} SumOfPermutation<T>(g: T -> nat, s: seq<T>, t: seq<T>)
    requires multiset(s) == multiset(t)
    ensures Sum(g, s) == Sum(g, t)
    decreases |s|
  {
    assert |s| == |multiset(s)| == |multiset(t)| == |t|;
    if |s| > 0 {
      var n := |s| - 1;
      var x := s[n];
      assert s == s[..n] + [x];
      assert x in multiset(t);
      var k :| 0 <= k < |t| && t[k] == x;
      assert t == t[..k] + [x] + t[k + 1..];
      SumJoins(g, t[..k] + [x], t[k + 1..]);
      SumJoins(g, t[..k], [x]);
      SumJoins(g, t[..k], t[k + 1..]);
      assert Sum(g, [x]) == Sum(g, []) + g(x);
      SameWithout(s[..n], t[..k], t[k + 1..], x);
      SumOfPermutation(g, s[..n], t[..k] + t[k + 1..]);
    }
  }

  /** BRTransactionShuffleOutputs: the random choices are left open. */
  method ShuffleOutputs(outputs: seq<Output>) returns (r: seq<Output>)
    ensures multiset(r) == multiset(outputs)
  {
    r := outputs;
    var i := 0;
    while i + 1 < |r|
      invariant |r| == |outputs| && multiset(r) == multiset(outputs)
      decreases |r| - i
    {
      var j :| i <= j < |r|;
      r := r[i := r[j]][j := r[i]];
      i := i + 1;
    }
  }

  lemma {:induction false} ShuffledSize(coins: seq<Coin>, s: seq<Output>, t: seq<Output>)
    requires multiset(s) == multiset(t)
    ensures VSize(TxFor(coins, s)) == VSize(TxFor(coins, t))
    ensures Sum(OutputAmount, s) == Sum(OutputAmount, t)
  {
    assert |s| == |multiset(s)| == |multiset(t)| == |t|;
    SumOfPermutation(OutputSize, s, t);
    SumOfPermutation(OutputAmount, s, t);
  }

  // --------------------------------------------------------------- selection

  function Amount(outputs: seq<Output>): nat {
    Sum(OutputAmount, outputs)
  }

  function Funding(coins: seq<Coin>): nat {
    Sum(CoinAmount, coins)
  }

  /** The fee once these coins are in, with room for a change output, rounded up so that the rest is round. */
  function FeeFor(f: Funds, coins: seq<Coin>, outputs: seq<Output>): (fee: nat)
    ensures TxFee(f.feePerKb, VSize(TxFor(coins, outputs)) + Bitcoin.TX_OUTPUT_SIZE) <= fee
      < TxFee(f.feePerKb, VSize(TxFor(coins, outputs)) + Bitcoin.TX_OUTPUT_SIZE) + 100
  {
    var fee := TxFee(f.feePerKb, VSize(TxFor(coins, outputs)) + Bitcoin.TX_OUTPUT_SIZE);
    if |coins| > 0 && f.balance > Amount(outputs) + fee
    then fee + (f.balance - (Amount(outputs) + fee)) % 100
    else fee
  }

  /** The coins pay for everything exactly, or leave enough for change. */
  predicate Enough(f: Funds, coins: seq<Coin>, outputs: seq<Output>) {
    var need := Amount(outputs) + FeeFor(f, coins, outputs);
    Funding(coins) == need || Funding(coins) >= need + MinOutputAmount(f.feePerKb)
  }

  /** The first k coins are the fewest that are enough, or all there are. */
  predicate StopsAt(f: Funds, outputs: seq<Output>, k: nat) {
    var coins := Coins(f, f.utxos);
    && k <= |coins|
    && (k == |coins| || (k > 0 && Enough(f, coins[..k], outputs)))
    && forall j :: 0 < j < k ==> !Enough(f, coins[..j], outputs)
  }

  /** `TooLarge` is where the source goes on with a smaller transaction. */
  datatype Outcome = TooLarge | NotEnough | Built(tx: Tx)

  predicate IsTooLarge(coins: seq<Coin>, outputs: seq<Output>) {
    VSize(TxFor(coins, outputs)) + Bitcoin.TX_OUTPUT_SIZE > Bitcoin.TX_MAX_SIZE
  }

  predicate FallsShort(f: Funds, coins: seq<Coin>, outputs: seq<Output>) {
    |outputs| == 0 || Funding(coins) < Amount(outputs) + FeeFor(f, coins, outputs)
  }

  predicate IsBuilt(f: Funds, coins: seq<Coin>, outputs: seq<Output>, change: seq<Byte>, tx: Tx) {
    var need := Amount(outputs) + FeeFor(f, coins, outputs);
    && |outputs| > 0 && Funding(coins) >= need
    && tx.version == 1 && tx.lockTime == 0 && tx.inputs == InputsFor(coins)
    && if Funding(coins) - need > MinOutputAmount(f.feePerKb)
       then multiset(tx.outputs) == multiset(outputs + [Output(Funding(coins) - need, change)])
       else tx.outputs == outputs
  }

  /** What comes out when the loop ends with the first k coins. */
  predicate OutcomeAt(f: Funds, outputs: seq<Output>, change: seq<Byte>, r: Outcome, k: nat) {
    var coins := Coins(f, f.utxos);
    && k <= |coins|
    && match r
       case TooLarge => k > 0 && IsTooLarge(coins[..k], outputs) && forall j :: 0 < j < k ==> !Enough(f, coins[..j], outputs)
       case NotEnough => Settled(f, outputs, k) && FallsShort(f, coins[..k], outputs)
       case Built(tx) => Settled(f, outputs, k) && IsBuilt(f, coins[..k], outputs, change, tx)
  }

  predicate Settled(f: Funds, outputs: seq<Output>, k: nat) {
    StopsAt(f, outputs, k) && (k > 0 ==> !IsTooLarge(Coins(f, f.utxos)[..k], outputs))
  }

  ghost predicate IsOutcome(f: Funds, outputs: seq<Output>, change: seq<Byte>, r: Outcome) {
    exists k :: OutcomeAt(f, outputs, change, r, k)
  }

  lemma {:induction false} CoinsGrow(f: Funds, i: nat)
    requires i < |f.utxos|
    ensures var u := f.utxos[i];
      Coins(f, f.utxos[..i + 1]) ==
        if IsKnown(f, u) then Coins(f, f.utxos[..i]) + [Coin(u, f.allTx[u.hash][u.n])] else Coins(f, f.utxos[..i])
  {
    assert f.utxos[..i + 1][..i] == f.utxos[..i];
  }

  lemma {:induction false} CoinsPrefix(f: Funds, i: nat)
    requires i <= |f.utxos|
    ensures |Coins(f, f.utxos[..i])| <= |Coins(f, f.utxos)|
    ensures Coins(f, f.utxos)[..|Coins(f, f.utxos[..i])|] == Coins(f, f.utxos[..i])
    decreases |f.utxos| - i
  {
    if i < |f.utxos| {
      CoinsPrefix(f, i + 1);
      CoinsGrow(f, i);
      var c, d, all := Coins(f, f.utxos[..i]), Coins(f, f.utxos[..i + 1]), Coins(f, f.utxos);
      assert all[..|c|] == all[..|d|][..|c|] == d[..|c|] == c;
    } else {
      assert f.utxos[..i] == f.utxos;
    }
  }

  /** The state of the loop when the first k coins have been taken. */
  predicate Taking(f: Funds, coins: seq<Coin>, outputs: seq<Output>, k: nat, inputs: seq<Input>, funding: nat, fee: nat) {
    && k <= |coins|
    && inputs == InputsFor(coins[..k]) && funding == Funding(coins[..k]) && fee == FeeFor(f, coins[..k], outputs)
    && forall j :: 0 < j < k ==> !Enough(f, coins[..j], outputs)
  }

  lemma {:induction false} TakingStarts(f: Funds, coins: seq<Coin>, outputs: seq<Output>)
    ensures Taking(f, coins, outputs, 0, [], 0, FeeFor(f, [], outputs))
  {
    hide FeeFor;
    assert coins[..0] == [];
  }

  lemma {:induction false} FundingGrows(coins: seq<Coin>, k: nat)
    requires k < |coins|
    ensures Funding(coins[..k + 1]) == Funding(coins[..k]) + coins[k].output.amount
    ensures InputsFor(coins[..k + 1]) == InputsFor(coins[..k]) + [InputFor(coins[k])]
  {
    SumGrows(CoinAmount, coins, k);
  }

  lemma {:induction false} TakingGoesOn(f: Funds, coins: seq<Coin>, outputs: seq<Output>, k: nat, inputs: seq<Input>, funding: nat, fee: nat)
    requires Taking(f, coins, outputs, k, inputs, funding, fee)
    requires k < |coins| && (k > 0 ==> !Enough(f, coins[..k], outputs))
    ensures Taking(f, coins, outputs, k + 1, inputs + [InputFor(coins[k])], funding + coins[k].output.amount,
                   FeeFor(f, coins[..k + 1], outputs))
  {
    hide FeeFor;
    hide Enough;
    hide InputsFor;
    hide Funding;
    FundingGrows(coins, k);
  }

  /** The fee of a turn of the loop. */
  method Fee(f: Funds, ghost coins: seq<Coin>, outputs: seq<Output>, tx: Tx, amount: nat) returns (vsize: nat, fee: nat)
    requires |coins| > 0 && tx == TxFor(coins, outputs) && amount == Amount(outputs)
    ensures vsize == VSize(tx) && fee == FeeFor(f, coins, outputs)
  {
    hide BaseSize;
    hide WitnessesSize;
    hide TxFee;
    vsize := TransactionVSize(tx);
    fee := TxFee(f.feePerKb, vsize + Bitcoin.TX_OUTPUT_SIZE);
    if f.balance > amount + fee {
      fee := fee + (f.balance - (amount + fee)) % 100;
    }
  }

  lemma {:induction false} CoinAt(f: Funds, i: nat)
    requires i < |f.utxos| && IsKnown(f, f.utxos[i])
    ensures var k := |Coins(f, f.utxos[..i])|;
      && k < |Coins(f, f.utxos)| && |Coins(f, f.utxos[..i + 1])| == k + 1
      && Coins(f, f.utxos)[k] == Coin(f.utxos[i], f.allTx[f.utxos[i].hash][f.utxos[i].n])
  {
    CoinsGrow(f, i);
    CoinsPrefix(f, i + 1);
  }

  /** The loop over the unspent outputs. */
  method TakeCoins(f: Funds, outputs: seq<Output>, amount: nat)
    returns (fits: bool, inputs: seq<Input>, funding: nat, fee: nat, ghost k: nat)
    requires amount == Amount(outputs)
    ensures k <= |Coins(f, f.utxos)|
    ensures !fits ==> k > 0 && IsTooLarge(Coins(f, f.utxos)[..k], outputs)
    ensures !fits ==> forall j :: 0 < j < k ==> !Enough(f, Coins(f, f.utxos)[..j], outputs)
    ensures fits ==> Taking(f, Coins(f, f.utxos), outputs, k, inputs, funding, fee) && Settled(f, outputs, k)
  {
    hide VSize;
    hide FeeFor;
    hide TxFee;
    hide MinOutputAmount;
    hide Coins;
    hide InputsFor;
    hide Funding;
    hide Amount;
    ghost var coins := Coins(f, f.utxos);
    var minAmount := MinOutputAmount(f.feePerKb);
    fits, inputs, funding, k := true, [], 0, 0;
    fee := FirstFee(f, outputs);
    TakingStarts(f, coins, outputs);
    NoCoins(f);
    var i := 0;
    while i < |f.utxos|
      invariant 0 <= i <= |f.utxos| && k == |Coins(f, f.utxos[..i])|
      invariant Taking(f, coins, outputs, k, inputs, funding, fee)
      invariant k > 0 ==> !Enough(f, coins[..k], outputs) && !IsTooLarge(coins[..k], outputs)
    {
      var u := f.utxos[i];
      i := i + 1;
      if !IsKnown(f, u) {
        CoinsGrow(f, i - 1);
        continue;
      }
      var c := Coin(u, f.allTx[u.hash][u.n]);
      CoinAt(f, i - 1);
      TakingGoesOn(f, coins, outputs, k, inputs, funding, fee);
      k := k + 1;
      inputs, funding := inputs + [InputFor(c)], funding + c.output.amount;
      var vsize;
      vsize, fee := Fee(f, coins[..k], outputs, Tx(1, inputs, outputs, 0), amount);
      if vsize + Bitcoin.TX_OUTPUT_SIZE > Bitcoin.TX_MAX_SIZE {
        fits := false;
        return;
      }
      if funding == amount + fee || funding >= amount + fee + minAmount {
        return;
      }
    }
    assert f.utxos[..i] == f.utxos;
  }

  lemma {:induction false} NoCoins(f: Funds)
    ensures Coins(f, f.utxos[..0]) == []
  {
  }

  method FirstFee(f: Funds, outputs: seq<Output>) returns (fee: nat)
    ensures fee == FeeFor(f, [], outputs)
  {
    hide BaseSize;
    hide WitnessesSize;
    hide TxFee;
    assert InputsFor([]) == [];
    var vsize := TransactionVSize(Tx(1, [], outputs, 0));
    fee := TxFee(f.feePerKb, vsize + Bitcoin.TX_OUTPUT_SIZE);
  }

  method AddAmounts(outputs: seq<Output>) returns (amount: nat)
    ensures amount == Amount(outputs)
  {
    amount := 0;
    for j := 0 to |outputs|
      invariant amount == Amount(outputs[..j])
    {
      SumGrows(OutputAmount, outputs, j);
      amount := amount + outputs[j].amount;
    }
    assert outputs[..|outputs|] == outputs;
  }

  /** BRWalletCreateTxForOutputs, up to the point where it starts over with less. */
  method CreateTx(f: Funds, outputs: seq<Output>, change: seq<Byte>) returns (r: Outcome)
    ensures IsOutcome(f, outputs, change, r)
  {
    hide Coins;
    hide Sum;
    hide Funding;
    hide InputsFor;
    hide VSize;
    hide FeeFor;
    hide MinOutputAmount;
    hide Enough;
    hide StopsAt;
    hide Settled;
    hide IsTooLarge;
    var amount := AddAmounts(outputs);
    var fits, inputs, funding, fee;
    ghost var k;
    fits, inputs, funding, fee, k := TakeCoins(f, outputs, amount);
    if !fits {
      r := TooLarge;
    } else if |outputs| < 1 || funding < amount + fee {
      r := NotEnough;
    } else if funding - (amount + fee) > MinOutputAmount(f.feePerKb) {
      var shuffled := ShuffleOutputs(outputs + [Output(funding - (amount + fee), change)]);
      r := Built(Tx(1, inputs, shuffled, 0));
    } else {
      r := Built(Tx(1, inputs, outputs, 0));
    }
    assert OutcomeAt(f, outputs, change, r, k);
  }

  // -------------------------------------------------------------- guarantees

  lemma {:induction false} InputsPay(coins: seq<Coin>)
    ensures Sum(InputAmount, InputsFor(coins)) == Funding(coins)
  {
    if |coins| > 0 {
      var n := |coins| - 1;
      InputsPay(coins[..n]);
      assert InputsFor(coins)[..n] == InputsFor(coins[..n]);
    }
  }

  function Change(f: Funds, coins: seq<Coin>, outputs: seq<Output>): int {
    Funding(coins) - Amount(outputs) - FeeFor(f, coins, outputs)
  }

  lemma {:induction false} SizeOfBuilt(f: Funds, coins: seq<Coin>, outputs: seq<Output>, change: seq<Byte>, tx: Tx)
    requires IsBuilt(f, coins, outputs, change, tx) && |outputs| <= 251 && |change| <= 25
    ensures VSize(tx) <= VSize(TxFor(coins, outputs)) + Bitcoin.TX_OUTPUT_SIZE
    ensures Change(f, coins, outputs) > MinOutputAmount(f.feePerKb) ==>
      Sum(OutputAmount, tx.outputs) == Amount(outputs) + Change(f, coins, outputs)
  {
    hide FeeFor;
    hide VSize;
    hide MinOutputAmount;
    hide InputsFor;
    hide Funding;
    var c := Change(f, coins, outputs);
    if c > MinOutputAmount(f.feePerKb) {
      var o := Output(c, change);
      assert tx == TxFor(coins, tx.outputs);
      ShuffledSize(coins, tx.outputs, outputs + [o]);
      OneMoreOutput(coins, outputs, o);
      SumJoins(OutputAmount, outputs, [o]);
      assert Sum(OutputAmount, [o]) == Sum(OutputAmount, []) + c;
    } else {
      assert tx == TxFor(coins, outputs);
    }
  }

  predicate GivesChange(f: Funds, outputs: seq<Output>, change: seq<Byte>, built: seq<Output>, o: Output) {
    && o.script == change && o.amount > MinOutputAmount(f.feePerKb)
    && multiset(built) == multiset(outputs) + multiset{o}
  }

  /**
   * What holds of every transaction that is built, with at most 251 outputs
   * asked for: value is conserved, the fee is enough for its final size, change
   * is worth having, and what goes to the fee beyond the computed fee is not.
   */
  lemma {:induction false} BuiltIsSound(f: Funds, coins: seq<Coin>, outputs: seq<Output>, change: seq<Byte>, tx: Tx)
    requires IsBuilt(f, coins, outputs, change, tx) && |outputs| <= 251 && |change| <= 25
    ensures var paid := Sum(InputAmount, tx.inputs) - Sum(OutputAmount, tx.outputs);
      && paid >= TxFee(f.feePerKb, VSize(tx))
      && FeeFor(f, coins, outputs) <= paid <= FeeFor(f, coins, outputs) + MinOutputAmount(f.feePerKb)
      && (tx.outputs != outputs ==> paid == FeeFor(f, coins, outputs))
    ensures var paid := Sum(InputAmount, tx.inputs) - Sum(OutputAmount, tx.outputs);
      var fee := TxFee(f.feePerKb, VSize(Tx(1, tx.inputs, outputs, 0)) + Bitcoin.TX_OUTPUT_SIZE);
      if tx.outputs == outputs then paid < fee + 100 + MinOutputAmount(f.feePerKb) else paid < fee + 100
    ensures tx.inputs == InputsFor(coins)
    ensures tx.outputs == outputs || (exists o: Output :: GivesChange(f, outputs, change, tx.outputs, o))
  {
    hide VSize;
    hide MinOutputAmount;
    hide InputsFor;
    hide TxFee;
    hide Sum;
    InputsPay(coins);
    SizeOfBuilt(f, coins, outputs, change, tx);
    FeeGrows(f.feePerKb, VSize(tx), VSize(TxFor(coins, outputs)) + Bitcoin.TX_OUTPUT_SIZE);
    if Change(f, coins, outputs) > MinOutputAmount(f.feePerKb) {
      var o := Output(Change(f, coins, outputs), change);
      assert multiset(tx.outputs) == multiset(outputs) + multiset{o};
      assert GivesChange(f, outputs, change, tx.outputs, o);
    }
  }

  predicate SpendsAsKnown(f: Funds, i: Input) {
    && IsKnown(f, OutPointOf(i)) && i.signature.None? && i.sequence == 0xFFFF_FFFF
    && f.allTx[i.txHash][i.index] == Output(i.amount, BytesOf(i.script))
  }

  /** The inputs are different unspent outputs of the wallet, with their amounts and scripts. */
  lemma {:induction false} InputsAreCoins(f: Funds, k: nat, outputs: seq<Output>, change: seq<Byte>, tx: Tx)
    requires Distinct(f.utxos) && k <= |Coins(f, f.utxos)|
    requires IsBuilt(f, Coins(f, f.utxos)[..k], outputs, change, tx)
    ensures forall i, j :: 0 <= i < j < |tx.inputs| ==> OutPointOf(tx.inputs[i]) != OutPointOf(tx.inputs[j])
    ensures forall i :: 0 <= i < |tx.inputs| ==> OutPointOf(tx.inputs[i]) in f.utxos
    ensures forall i :: 0 <= i < |tx.inputs| ==> SpendsAsKnown(f, tx.inputs[i])
  {
    hide FeeFor;
    hide MinOutputAmount;
    hide Funding;
    hide Amount;
    CoinsAreDistinct(f, f.utxos);
    CoinsAreKnown(f, f.utxos);
    var coins := Coins(f, f.utxos);
    hide Coins;
    forall i | 0 <= i < |tx.inputs|
      ensures tx.inputs[i] == InputFor(coins[i])
    {
    }
  }

  lemma {:induction false} CoinsAreKnown(f: Funds, utxos: seq<Utxo>)
    ensures forall c :: c in Coins(f, utxos) ==> IsKnown(f, c.utxo) && f.allTx[c.utxo.hash][c.utxo.n] == c.output
  {
    if |utxos| > 0 {
      CoinsAreKnown(f, utxos[..|utxos| - 1]);
    }
  }

  /** Where there is more than enough, the fee is such that a multiple of 100 satoshi stays behind. */
  lemma {:induction false} RestIsRound(f: Funds, coins: seq<Coin>, outputs: seq<Output>)
    requires coins != []
    requires f.balance > Amount(outputs) + TxFee(f.feePerKb, VSize(TxFor(coins, outputs)) + 34)
    ensures (f.balance - (Amount(outputs) + FeeFor(f, coins, outputs))) % 100 == 0
  {
    hide TxFee;
    hide VSize;
    hide Amount;
    var rest := f.balance - (Amount(outputs) + TxFee(f.feePerKb, VSize(TxFor(coins, outputs)) + 34));
    assert (rest - rest % 100) % 100 == 0;
  }

  /** The coins leave less than change worth having, and do not pay for everything exactly. */
  predicate FewCoins(f: Funds, coins: seq<Coin>, outputs: seq<Output>) {
    var left := Funding(coins) - Amount(outputs) - FeeFor(f, coins, outputs);
    left != 0 && left < MinOutputAmount(f.feePerKb)
  }

  lemma {:induction false} BuiltParts(f: Funds, outputs: seq<Output>, change: seq<Byte>, tx: Tx, k: nat)
    requires OutcomeAt(f, outputs, change, Built(tx), k) && |outputs| <= 251 && |change| <= 25
    ensures k <= |Coins(f, f.utxos)| && IsBuilt(f, Coins(f, f.utxos)[..k], outputs, change, tx)
    ensures k > 0 ==> VSize(tx) <= 100000
    ensures forall j :: 0 < j < k ==> FewCoins(f, Coins(f, f.utxos)[..j], outputs)
    ensures k < |Coins(f, f.utxos)| ==> !FewCoins(f, Coins(f, f.utxos)[..k], outputs)
    ensures tx == Tx(1, tx.inputs, tx.outputs, 0)
  {
    hide FeeFor;
    hide VSize;
    hide MinOutputAmount;
    hide Funding;
    hide Amount;
    hide InputsFor;
    SizeOfBuilt(f, Coins(f, f.utxos)[..k], outputs, change, tx);
  }

  /** It is refused for lack of funds only when no output is asked for or all coins fall short. */
  lemma {:induction false} RefusedWhenShort(f: Funds, outputs: seq<Output>, change: seq<Byte>)
    requires IsOutcome(f, outputs, change, NotEnough) && outputs != []
    ensures var coins := Coins(f, f.utxos);
      Funding(coins) < Amount(outputs) + TxFee(f.feePerKb, VSize(TxFor(coins, outputs)) + Bitcoin.TX_OUTPUT_SIZE) + 100
  {
    hide TxFee;
    hide VSize;
    hide MinOutputAmount;
    hide Funding;
    hide Amount;
    var k := PointOf(f, outputs, change, NotEnough);
    OutcomeParts(f, outputs, change, NotEnough, k);
    var coins := Coins(f, f.utxos);
    hide Coins;
    if k == |coins| {
      assert coins[..k] == coins;
    }
  }

  /** It is too large only when the transaction with all coins is. */
  lemma {:induction false} TooLargeWithAll(f: Funds, outputs: seq<Output>, change: seq<Byte>)
    requires IsOutcome(f, outputs, change, TooLarge)
    ensures VSize(TxFor(Coins(f, f.utxos), outputs)) + 34 > 100000
  {
    hide VSize;
    var k := PointOf(f, outputs, change, TooLarge);
    OutcomeParts(f, outputs, change, TooLarge, k);
    var coins := Coins(f, f.utxos);
    hide Coins;
    if !IsTooLarge(coins, outputs) {
      SmallerFits(coins, k, outputs);
    }
  }

  /** What change must exceed: the dust limit of 546 satoshi, in proportion to the fee rate. */
  lemma {:induction false} MinOutputIs(feePerKb: nat)
    ensures var m := MinOutputAmount(feePerKb);
      && m >= 546 && m * 1000 >= 546 * feePerKb
      && (m == 546 || (m - 1) * 1000 < 546 * feePerKb)
  {
  }

  /** Whatever the selection builds spends distinct unspent outputs and pays what it should. */
  lemma {:induction false} CreatedIsSound(f: Funds, outputs: seq<Output>, change: seq<Byte>, tx: Tx) returns (k: nat)
    requires IsOutcome(f, outputs, change, Built(tx)) && Distinct(f.utxos) && |outputs| <= 251 && |change| <= 25
    ensures k <= |Coins(f, f.utxos)| && tx.inputs == InputsFor(Coins(f, f.utxos)[..k])
    ensures var paid := Sum(InputAmount, tx.inputs) - Sum(OutputAmount, tx.outputs);
      var fee := FeeFor(f, Coins(f, f.utxos)[..k], outputs);
      && paid >= TxFee(f.feePerKb, VSize(tx)) && fee <= paid <= fee + MinOutputAmount(f.feePerKb)
    ensures var paid := Sum(InputAmount, tx.inputs) - Sum(OutputAmount, tx.outputs);
      var fee := TxFee(f.feePerKb, VSize(Tx(1, tx.inputs, outputs, 0)) + Bitcoin.TX_OUTPUT_SIZE);
      if tx.outputs == outputs then paid < fee + 100 + MinOutputAmount(f.feePerKb) else paid < fee + 100
    ensures k > 0 ==> VSize(tx) <= 100000
    ensures forall j :: 0 < j < k ==> FewCoins(f, Coins(f, f.utxos)[..j], outputs)
    ensures k < |Coins(f, f.utxos)| ==> !FewCoins(f, Coins(f, f.utxos)[..k], outputs)
    ensures tx == Tx(1, tx.inputs, tx.outputs, 0)
    ensures tx.outputs == outputs || (exists o: Output :: GivesChange(f, outputs, change, tx.outputs, o))
    ensures forall i, j :: 0 <= i < j < |tx.inputs| ==> OutPointOf(tx.inputs[i]) != OutPointOf(tx.inputs[j])
    ensures forall i :: 0 <= i < |tx.inputs| ==> OutPointOf(tx.inputs[i]) in f.utxos && SpendsAsKnown(f, tx.inputs[i])
  {
    hide Settled;
    hide IsBuilt;
    hide GivesChange;
    hide InputsFor;
    hide OutPointOf;
    hide SpendsAsKnown;
    k := PointOf(f, outputs, change, Built(tx));
    BuiltParts(f, outputs, change, tx, k);
    hide FewCoins;
    hide Coins;
    hide FeeFor;
    hide TxFee;
    hide VSize;
    hide Sum;
    hide MinOutputAmount;
    BuiltIsSound(f, Coins(f, f.utxos)[..k], outputs, change, tx);
    InputsAreCoins(f, k, outputs, change, tx);
  }

  // ----------------------------------------------------- the most that can be sent

  /** The size BRWalletMaxOutputAmount counts on, for n inputs. */
  function EstimatedSize(n: nat): nat {
    8 + VarIntSize(n) + Bitcoin.TX_INPUT_SIZE * n + VarIntSize(2) + Bitcoin.TX_OUTPUT_SIZE * 2
  }

  function MaxOf(feePerKb: nat, coins: seq<Coin>): nat {
    var fee := TxFee(feePerKb, EstimatedSize(|coins|));
    if Funding(coins) > fee then Funding(coins) - fee else 0
  }

  lemma {:induction false} CoinsFromBack(f: Funds, i: nat)
    requires i < |f.utxos|
    ensures var u := f.utxos[i];
      Coins(f, f.utxos[i..]) ==
        (if IsKnown(f, u) then [Coin(u, f.allTx[u.hash][u.n])] else []) + Coins(f, f.utxos[i + 1..])
  {
    CoinsJoin(f, [f.utxos[i]], f.utxos[i + 1..]);
    assert f.utxos[i..] == [f.utxos[i]] + f.utxos[i + 1..];
    assert [f.utxos[i]][..0] == [];
  }

  lemma {:induction false} CoinsJoin(f: Funds, s: seq<Utxo>, t: seq<Utxo>)
    ensures Coins(f, s + t) == Coins(f, s) + Coins(f, t)
    decreases |t|
  {
    if |t| == 0 {
      assert s + t == s;
    } else {
      var n := |t| - 1;
      assert (s + t)[..|s| + n] == s + t[..n];
      CoinsJoin(f, s, t[..n]);
    }
  }

  /** BRWalletMaxOutputAmount, which runs over the unspent outputs from the last to the first. */
  method MaxOutputAmount(f: Funds) returns (max: nat)
    ensures max == MaxOf(f.feePerKb, Coins(f, f.utxos))
  {
    hide TxFee;
    hide Coins;
    hide Sum;
    var amount, inCount := 0, 0;
    var i := |f.utxos|;
    NothingLeft(f);
    while i > 0
      invariant 0 <= i <= |f.utxos|
      invariant inCount == |Coins(f, f.utxos[i..])| && amount == Funding(Coins(f, f.utxos[i..]))
    {
      i := i - 1;
      var u := f.utxos[i];
      CoinsFromBack(f, i);
      if IsKnown(f, u) {
        inCount := inCount + 1;
        amount := amount + f.allTx[u.hash][u.n].amount;
        OneInFront(Coin(u, f.allTx[u.hash][u.n]), Coins(f, f.utxos[i + 1..]));
      } else {
        assert [] + Coins(f, f.utxos[i + 1..]) == Coins(f, f.utxos[i + 1..]);
      }
    }
    assert f.utxos[0..] == f.utxos;
    var fee := TxFee(f.feePerKb, 8 + VarIntSize(inCount) + Bitcoin.TX_INPUT_SIZE * inCount + VarIntSize(2) + Bitcoin.TX_OUTPUT_SIZE * 2);
    max := if amount > fee then amount - fee else 0;
  }

  lemma {:induction false} NothingLeft(f: Funds)
    ensures Coins(f, f.utxos[|f.utxos|..]) == [] && Funding([]) == 0
  {
  }

  lemma {:induction false} OneInFront(c: Coin, coins: seq<Coin>)
    ensures Funding([c] + coins) == c.output.amount + Funding(coins)
  {
    SumJoins(CoinAmount, [c], coins);
    assert Sum(CoinAmount, [c]) == Sum(CoinAmount, []) + c.output.amount;
  }

  /** How many of the coins are spent with a witness. */
  function WitnessCoin(c: Coin): nat {
    if |c.output.script| > 0 && c.output.script[0] == OP_0 then 1 else 0
  }

  lemma {:induction false} InputSizes(coins: seq<Coin>)
    ensures Sum(WitnessCoin, coins) <= |coins|
    ensures Sum(InputSize, InputsFor(coins)) == Bitcoin.TX_INPUT_SIZE * (|coins| - Sum(WitnessCoin, coins))
    ensures Sum(WitnessSize, InputsFor(coins)) == Bitcoin.TX_INPUT_SIZE * Sum(WitnessCoin, coins)
  {
    if |coins| > 0 {
      var n := |coins| - 1;
      InputSizes(coins[..n]);
      assert InputsFor(coins)[..n] == InputsFor(coins[..n]);
      assert InputsFor(coins)[n] == InputFor(coins[n]);
    }
  }

  /** Whether the estimate covers spending n coins, w of them with a witness. */
  predicate EstimateCovers(w: nat, n: nat) {
    w == 0 || n + 2 <= 444 * w
  }

  lemma {:induction false} EstimateArithmetic(v: nat, w: nat, n: nat, s: nat)
    requires w <= n && s <= 25
    ensures var base := 8 + v + 1 + 148 * (n - w) + 9 + s;
      var wit := if w > 0 then 148 * w + 2 + n else 0;
      var vsize := (4 * base + wit + 3) / 4;
      && (EstimateCovers(w, n) ==> vsize + 34 <= 8 + v + 148 * n + 1 + 68)
      && (s == 25 && vsize + 34 <= 8 + v + 148 * n + 1 + 68 ==> EstimateCovers(w, n))
  {
  }

  /** The estimate covers the transaction with all coins and one output of 25 bytes exactly then. */
  lemma {:induction false} EstimateIs(coins: seq<Coin>, o: Output)
    requires |o.script| <= 25
    ensures var covers := EstimateCovers(Sum(WitnessCoin, coins), |coins|);
      var fits := VSize(TxFor(coins, [o])) + Bitcoin.TX_OUTPUT_SIZE <= EstimatedSize(|coins|);
      (covers ==> fits) && (|o.script| == 25 && fits ==> covers)
  {
    hide VarIntSize;
    hide Sum;
    hide InputSize;
    hide WitnessSize;
    hide EstimateCovers;
    hide BaseSize;
    InputSizes(coins);
    SizeOfOne(coins, o);
    EstimateArithmetic(VarIntSize(|coins|), Sum(WitnessCoin, coins), |coins|, |o.script|);
  }

  lemma {:induction false} SizeOfOne(coins: seq<Coin>, o: Output)
    requires |o.script| <= 25
    ensures BaseSize(TxFor(coins, [o])) == 8 + VarIntSize(|coins|) + 1 + Sum(InputSize, InputsFor(coins)) + 9 + |o.script|
    ensures VarIntSize(2) == 1
  {
    assert Sum(OutputSize, [o]) == Sum(OutputSize, []) + OutputSize(o);
  }

  /**
   * Every positive amount up to the maximum can be sent, when the transaction
   * with all coins is not too large, the wallet balance is what its coins are
   * worth, and the estimate covers the coins; it does when all pay to a key
   * hash in the same way.
   */
  lemma {:induction false} MaximumCanBeSent(f: Funds, o: Output, change: seq<Byte>, r: Outcome)
    requires |o.script| <= 25 && 0 < o.amount <= MaxOf(f.feePerKb, Coins(f, f.utxos))
    requires f.balance == Funding(Coins(f, f.utxos)) && !IsTooLarge(Coins(f, f.utxos), [o])
    requires EstimateCovers(Sum(WitnessCoin, Coins(f, f.utxos)), |Coins(f, f.utxos)|)
    requires IsOutcome(f, [o], change, r)
    ensures r.Built?
  {
    hide *;
    var k := PointOf(f, [o], change, r);
    var coins := Coins(f, f.utxos);
    OutcomeParts(f, [o], change, r, k);
    SmallerFits(coins, k, [o]);
    if r.NotEnough? {
      if k == |coins| {
        assert coins[..k] == coins;
        AllCoinsSuffice(f, coins, o);
      }
      NoShortfall(f, coins[..k], o);
    }
  }

  /** Without witnesses and with a script of 25 bytes the estimate is the size with room for change. */
  lemma {:induction false} EstimateIsExact(coins: seq<Coin>, o: Output)
    requires |o.script| == 25 && Sum(WitnessCoin, coins) == 0
    ensures VSize(TxFor(coins, [o])) + Bitcoin.TX_OUTPUT_SIZE == EstimatedSize(|coins|)
  {
    hide VarIntSize;
    hide Sum;
    hide InputSize;
    hide WitnessSize;
    hide BaseSize;
    InputSizes(coins);
    SizeOfOne(coins, o);
  }

  lemma {:induction false} NoWitnessInFirst(coins: seq<Coin>, k: nat)
    requires k <= |coins| && Sum(WitnessCoin, coins) == 0
    ensures Sum(WitnessCoin, coins[..k]) == 0
  {
    SumJoins(WitnessCoin, coins[..k], coins[k..]);
    assert coins[..k] + coins[k..] == coins;
  }

  /** No more is sent to a script of 25 bytes, from coins without witnesses, than the maximum for
      the coins that are spent; it is the maximum for all coins where fewer do not allow more. */
  lemma {:induction false} MoreCannotBeSent(f: Funds, o: Output, change: seq<Byte>, tx: Tx) returns (k: nat)
    requires |o.script| == 25 && Sum(WitnessCoin, Coins(f, f.utxos)) == 0 && IsOutcome(f, [o], change, Built(tx))
    ensures k <= |Coins(f, f.utxos)| && tx.inputs == InputsFor(Coins(f, f.utxos)[..k])
    ensures o.amount <= MaxOf(f.feePerKb, Coins(f, f.utxos)[..k]) || o.amount == 0
    ensures (forall j :: 0 <= j <= |Coins(f, f.utxos)| ==>
               MaxOf(f.feePerKb, Coins(f, f.utxos)[..j]) <= MaxOf(f.feePerKb, Coins(f, f.utxos))) ==>
              o.amount <= MaxOf(f.feePerKb, Coins(f, f.utxos))
  {
    hide VSize;
    hide TxFee;
    hide EstimatedSize;
    hide MinOutputAmount;
    hide Settled;
    k := PointOf(f, [o], change, Built(tx));
    assert IsBuilt(f, Coins(f, f.utxos)[..k], [o], change, tx);
    var coins := Coins(f, f.utxos);
    hide Coins;
    NoWitnessInFirst(coins, k);
    EstimateIsExact(coins[..k], o);
    assert Amount([o]) == Amount([]) + o.amount;
    hide InputsFor;
    hide Sum;
  }

  /** Fewer coins can allow more: a coin that is worth less than the fee for it lowers the maximum. */
  lemma {:induction false} DustLowersMaximum(c: Coin, dust: Coin)
    requires c.output.amount == 100000 && dust.output.amount == 1
    ensures MaxOf(1000, [c]) == 99700 && MaxOf(1000, [c, dust]) == 99601
  {
    assert [c, dust][..1] == [c] && [c][..0] == [];
    assert Funding([]) == 0;
    assert Funding([c]) == Funding([c][..0]) + 100000;
    assert Funding([c, dust]) == Funding([c, dust][..1]) + 1;
    assert EstimatedSize(1) == 226 && EstimatedSize(2) == 374;
    assert TxFee(1000, 226) == 300 && TxFee(1000, 374) == 400;
  }

  lemma {:induction false} PointOf(f: Funds, outputs: seq<Output>, change: seq<Byte>, r: Outcome) returns (k: nat)
    requires IsOutcome(f, outputs, change, r)
    ensures OutcomeAt(f, outputs, change, r, k)
  {
    hide OutcomeAt;
    k :| OutcomeAt(f, outputs, change, r, k);
  }

  lemma {:induction false} OutcomeParts(f: Funds, outputs: seq<Output>, change: seq<Byte>, r: Outcome, k: nat)
    requires OutcomeAt(f, outputs, change, r, k)
    ensures k <= |Coins(f, f.utxos)|
    ensures r.TooLarge? ==> IsTooLarge(Coins(f, f.utxos)[..k], outputs)
    ensures r.NotEnough? ==> FallsShort(f, Coins(f, f.utxos)[..k], outputs)
    ensures r.NotEnough? ==> k == |Coins(f, f.utxos)| || Enough(f, Coins(f, f.utxos)[..k], outputs)
  {
  }

  lemma {:induction false} SmallerFits(coins: seq<Coin>, k: nat, outputs: seq<Output>)
    requires k <= |coins| && !IsTooLarge(coins, outputs)
    ensures !IsTooLarge(coins[..k], outputs)
  {
    hide VSize;
    assert coins[..k] + coins[k..] == coins;
    SizesGrow(coins[..k], coins[k..], outputs);
  }

  lemma {:induction false} NoShortfall(f: Funds, coins: seq<Coin>, o: Output)
    requires Enough(f, coins, [o]) || Funding(coins) >= Amount([o]) + FeeFor(f, coins, [o])
    ensures !FallsShort(f, coins, [o])
  {
    hide FeeFor;
    hide MinOutputAmount;
  }

  lemma {:induction false} AllCoinsSuffice(f: Funds, coins: seq<Coin>, o: Output)
    requires |o.script| <= 25 && 0 < o.amount <= MaxOf(f.feePerKb, coins) && f.balance == Funding(coins)
    requires EstimateCovers(Sum(WitnessCoin, coins), |coins|)
    ensures Funding(coins) >= Amount([o]) + FeeFor(f, coins, [o])
  {
    hide VSize;
    hide TxFee;
    hide InputsFor;
    hide EstimatedSize;
    EstimateIs(coins, o);
    FeeGrows(f.feePerKb, VSize(TxFor(coins, [o])) + Bitcoin.TX_OUTPUT_SIZE, EstimatedSize(|coins|));
    assert Amount([o]) == Amount([]) + o.amount;
  }

  /** Wallets whose coins are all of one kind are covered, whatever their number. */
  lemma {:induction false} OneKindIsCovered(coins: seq<Coin>)
    requires (forall k :: 0 <= k < |coins| ==> WitnessCoin(coins[k]) == 0) ||
             (forall k :: 0 <= k < |coins| ==> WitnessCoin(coins[k]) == 1)
    ensures EstimateCovers(Sum(WitnessCoin, coins), |coins|)
  {
    CountKinds(coins);
  }

  lemma {:induction false} CountKinds(coins: seq<Coin>)
    ensures Sum(WitnessCoin, coins) <= |coins|
    ensures (forall k :: 0 <= k < |coins| ==> WitnessCoin(coins[k]) == 0) ==> Sum(WitnessCoin, coins) == 0
    ensures (forall k :: 0 <= k < |coins| ==> WitnessCoin(coins[k]) == 1) ==> Sum(WitnessCoin, coins) == |coins|
  {
    if |coins| > 0 {
      CountKinds(coins[..|coins| - 1]);
    }
  }
}
