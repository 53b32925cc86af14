/** The wallet's ledger: what one full recomputation of the caches computes from the
    transaction list, as a fold with one step per transaction, and the laws of that fold.
    WalletStore proves that the recomputing loops compute exactly this fold. */
module Ledger {
  import opened Wrappers
  import opened Bitcoin

  /** What a recomputation reads besides the list: the wallet's addresses, which
      transactions are unconfirmed, the known chain height and the clock. */
  datatype Context = Context(own: set<Pkh>, unconfirmed: set<TxBody>, blockHeight: nat, now: nat)

  datatype Ledger = Ledger(
    spent: set<OutPoint>,
    invalid: set<TxId>,
    pending: set<TxId>,
    used: set<Pkh>,
    utxos: seq<OutPoint>,
    balance: int,
    received: int,
    sent: int,
    hist: seq<int>)

  const EMPTY := Ledger({}, {}, {}, {}, [], 0, 0, 0, [])

  /** The amount of the output an outpoint names. */
  function Amount(u: OutPoint): nat {
    if u.txHash.Id? && u.n < |u.txHash.body.outputs| then u.txHash.body.outputs[u.n].amount else 0
  }

  function Amounts(us: seq<OutPoint>): nat {
    if us == [] then 0 else Amounts(us[..|us| - 1]) + Amount(us[|us| - 1])
  }

  predicate IsOwned(own: set<Pkh>, b: TxBody, j: nat)
    requires j < |b.outputs|
  {
    b.outputs[j].pkh.Some? && b.outputs[j].pkh.value in own
  }

  /** The outpoints, in order, of those of the first `k` outputs that pay the wallet. */
  function Owned(own: set<Pkh>, b: TxBody, k: nat): seq<OutPoint>
    requires k <= |b.outputs|
  {
    if k == 0 then []
    else if IsOwned(own, b, k - 1) then Owned(own, b, k - 1) + [OutPoint(Id(b), k - 1)]
    else Owned(own, b, k - 1)
  }

  function OwnedPkhs(own: set<Pkh>, b: TxBody, k: nat): set<Pkh>
    requires k <= |b.outputs|
  {
    if k == 0 then {}
    else if IsOwned(own, b, k - 1) then OwnedPkhs(own, b, k - 1) + {b.outputs[k - 1].pkh.value}
    else OwnedPkhs(own, b, k - 1)
  }

  /** The elements of `us` that are not in `spent`, in order, and those that are. */
  function Kept(us: seq<OutPoint>, spent: set<OutPoint>): seq<OutPoint> {
    if us == [] then []
    else if us[0] in spent then Kept(us[1..], spent)
    else [us[0]] + Kept(us[1..], spent)
  }

  function SweptAmount(us: seq<OutPoint>, spent: set<OutPoint>): nat {
    if us == [] then 0
    else (if us[0] in spent then Amount(us[0]) else 0) + SweptAmount(us[1..], spent)
  }

  /** Some input is already spent, or spends an invalid transaction. */
  predicate Conflicts(l: Ledger, b: TxBody) {
    exists j :: 0 <= j < |b.inputs| && InputConflicts(l, b.inputs[j])
  }

  predicate InputConflicts(l: Ledger, input: TxIn) {
    input.prev in l.spent || input.prev.txHash in l.invalid
  }

  predicate HasDust(b: TxBody) {
    exists j :: 0 <= j < |b.outputs| && b.outputs[j].amount < TX_MIN_OUTPUT_AMOUNT
  }

  /** An input can be replaced, is locked until later, or spends a pending transaction. */
  predicate InputPending(c: Context, pending: set<TxId>, b: TxBody, input: TxIn) {
    || input.sequence < SEQUENCE_FINAL - 1
    || (input.sequence < SEQUENCE_FINAL && b.lockTime < TX_MAX_LOCK_HEIGHT && b.lockTime > c.blockHeight + 1)
    || (input.sequence < SEQUENCE_FINAL && b.lockTime > c.now)
    || input.prev.txHash in pending
  }

  predicate IsPending(c: Context, pending: set<TxId>, b: TxBody) {
    || b.vsize > TX_MAX_SIZE
    || HasDust(b)
    || exists j :: 0 <= j < |b.inputs| && InputPending(c, pending, b, b.inputs[j])
  }

  /** The cached content after a transaction that is neither invalid nor pending, `spent`
      being the spent set with its inputs. */
  function Settle(own: set<Pkh>, l: Ledger, spent: set<OutPoint>, b: TxBody): Ledger {
    var owned := Owned(own, b, |b.outputs|);
    var balance := l.balance + Amounts(owned) - SweptAmount(l.utxos + owned, spent);
    Ledger(
      spent, l.invalid, l.pending,
      l.used + OwnedPkhs(own, b, |b.outputs|),
      Kept(l.utxos + owned, spent),
      balance,
      l.received + (if l.balance < balance then balance - l.balance else 0),
      l.sent + (if balance < l.balance then l.balance - balance else 0),
      l.hist + [balance])
  }

  function Step(c: Context, l: Ledger, b: TxBody): Ledger {
    if b in c.unconfirmed && Conflicts(l, b) then
      l.(invalid := l.invalid + {Id(b)}, hist := l.hist + [l.balance])
    else if b in c.unconfirmed && IsPending(c, l.pending, b) then
      l.(spent := l.spent + Inputs(b), pending := l.pending + {Id(b)}, hist := l.hist + [l.balance])
    else Settle(c.own, l, l.spent + Inputs(b), b)
  }

  function Replay(c: Context, txs: seq<TxBody>): Ledger {
    if txs == [] then EMPTY
    else Step(c, Replay(c, txs[..|txs| - 1]), txs[|txs| - 1])
  }

  // ---- Conservation of value ----

  lemma {:induction false} AmountsConcat(a: seq<OutPoint>, b: seq<OutPoint>)
    ensures Amounts(a + b) == Amounts(a) + Amounts(b)
  {
    if b == [] {
      assert a + b == a;
    } else {
      AmountsConcat(a, b[..|b| - 1]);
      assert (a + b)[..|a + b| - 1] == a + b[..|b| - 1];
    }
  }

  lemma {:induction false} SweepSplits(us: seq<OutPoint>, spent: set<OutPoint>)
    ensures Amounts(us) == Amounts(Kept(us, spent)) + SweptAmount(us, spent)
  {
    if us != [] {
      SweepSplits(us[1..], spent);
      assert us == [us[0]] + us[1..];
      AmountsConcat([us[0]], us[1..]);
      AmountsConcat([us[0]], Kept(us[1..], spent));
    }
  }

  predicate AddsUp(l: Ledger) {
    l.balance == Amounts(l.utxos) && l.balance == l.received - l.sent && l.received >= 0 && l.sent >= 0
  }

  lemma {:induction false} StepAddsUp(c: Context, l: Ledger, b: TxBody)
    requires AddsUp(l)
    ensures AddsUp(Step(c, l, b)) && Step(c, l, b).hist == l.hist + [Step(c, l, b).balance]
  {
    hide Conflicts;
    hide IsPending;
    hide OwnedPkhs;
    hide Kept;
    hide SweptAmount;
    hide Owned;
    hide Inputs;
    hide Amounts;
    AmountsConcat(l.utxos, Owned(c.own, b, |b.outputs|));
    SweepSplits(l.utxos + Owned(c.own, b, |b.outputs|), l.spent + Inputs(b));
  }

  /** At every step of a recomputation the balance is the value of the unspent outputs,
      hence never negative, and equals everything received less everything sent. */
  lemma {:induction false} BalanceIsConserved(c: Context, txs: seq<TxBody>)
    ensures var l := Replay(c, txs);
            && l.balance == Amounts(l.utxos)
            && l.balance == l.received - l.sent
            && l.received >= 0 && l.sent >= 0
            && |l.hist| == |txs|
            && forall k :: 0 <= k < |txs| ==> l.hist[k] == Replay(c, txs[..k + 1]).balance
  {
    hide Step;
    if txs != [] {
      var n := |txs| - 1;
      BalanceIsConserved(c, txs[..n]);
      StepAddsUp(c, Replay(c, txs[..n]), txs[n]);
      hide Amounts;
      forall k | 0 <= k < |txs|
        ensures Replay(c, txs).hist[k] == Replay(c, txs[..k + 1]).balance
      {
        if k < n {
          assert txs[..n][..k + 1] == txs[..k + 1];
        } else {
          assert txs[..k + 1] == txs;
        }
      }
    }
  }

  /** Everything the wallet's transactions ever paid to it. */
  function TotalOwned(own: set<Pkh>, txs: seq<TxBody>): nat {
    if txs == [] then 0
    else TotalOwned(own, txs[..|txs| - 1]) + Amounts(Owned(own, txs[|txs| - 1], |txs[|txs| - 1].outputs|))
  }

  /** No running total ever exceeds the wallet's gross receipts, so a 64-bit balance
      cannot wrap as long as those fit in 64 bits. */
  lemma {:induction false} TotalsAreBounded(c: Context, txs: seq<TxBody>)
    ensures var l := Replay(c, txs);
            && 0 <= l.balance <= l.received <= TotalOwned(c.own, txs)
            && 0 <= l.sent <= TotalOwned(c.own, txs)
  {
    if txs != [] {
      var n := |txs| - 1;
      TotalsAreBounded(c, txs[..n]);
      BalanceIsConserved(c, txs[..n]);
      BalanceIsConserved(c, txs);
    }
  }

  // ---- What the caches mean, transaction by transaction ----

  /** The listed transactions that a recomputation did not find invalid spend `p`. */
  ghost predicate SpentBy(l: Ledger, txs: seq<TxBody>, p: OutPoint) {
    exists x :: x in txs && Id(x) !in l.invalid && p in Inputs(x)
  }

  ghost predicate ReceivedBy(c: Context, l: Ledger, txs: seq<TxBody>, u: OutPoint) {
    exists x :: x in txs && Id(x) !in l.invalid && u in Owned(c.own, x, |x.outputs|)
  }

  lemma {:induction false} ReplayStep(c: Context, txs: seq<TxBody>, i: nat)
    requires i < |txs|
    ensures Replay(c, txs[..i + 1]) == Step(c, Replay(c, txs[..i]), txs[i])
  {
    assert txs[..i + 1][..i] == txs[..i];
  }

  /** Only listed transactions are recorded, and only unconfirmed ones as invalid or pending. */
  lemma {:induction false} RecordedAreListed(c: Context, txs: seq<TxBody>)
    ensures forall id :: id in Replay(c, txs).invalid ==> id.Id? && id.body in txs && id.body in c.unconfirmed
    ensures forall id :: id in Replay(c, txs).pending ==> id.Id? && id.body in txs && id.body in c.unconfirmed
  {
    if txs != [] {
      RecordedAreListed(c, txs[..|txs| - 1]);
    }
  }

  /** An unspent output is an output of a listed transaction. */
  lemma {:induction false} UtxosAreListed(c: Context, txs: seq<TxBody>)
    ensures forall u :: u in Replay(c, txs).utxos ==>
              u.txHash.Id? && u.txHash.body in txs && u.n < |u.txHash.body.outputs|
  {
    if txs != [] {
      var n := |txs| - 1;
      UtxosAreListed(c, txs[..n]);
      OwnedNamesItsTx(c.own, txs[n], |txs[n].outputs|);
      var l := Replay(c, txs[..n]);
      KeptExactly(l.utxos + Owned(c.own, txs[n], |txs[n].outputs|), l.spent + Inputs(txs[n]));
    }
  }

  /** A verdict once given stands: the prefix up to `i` decides the first `i` transactions. */
  lemma {:induction false} VerdictsStand(c: Context, txs: seq<TxBody>, i: nat)
    requires Distinct(txs) && i <= |txs|
    ensures forall x :: x in txs[..i] ==>
              (Id(x) in Replay(c, txs[..i]).invalid <==> Id(x) in Replay(c, txs).invalid)
    ensures Replay(c, txs[..i]).spent <= Replay(c, txs).spent
    ensures Replay(c, txs[..i]).pending <= Replay(c, txs).pending
    decreases |txs| - i
  {
    if i == |txs| {
      assert txs[..i] == txs;
    } else {
      VerdictsStand(c, txs, i + 1);
      ReplayStep(c, txs, i);
      forall x | x in txs[..i]
        ensures x != txs[i] && x in txs[..i + 1]
      {
        var k :| 0 <= k < i && txs[k] == x;
        assert txs[..i + 1][k] == x;
      }
    }
  }

  /** A transaction is invalid exactly when it is unconfirmed and conflicts with what came before. */
  lemma {:induction false} InvalidExactly(c: Context, txs: seq<TxBody>, i: nat)
    requires Distinct(txs) && i < |txs|
    ensures Id(txs[i]) in Replay(c, txs).invalid
            <==> txs[i] in c.unconfirmed && Conflicts(Replay(c, txs[..i]), txs[i])
  {
    VerdictsStand(c, txs, i + 1);
    ReplayStep(c, txs, i);
    RecordedAreListed(c, txs[..i]);
    assert txs[..i + 1][i] == txs[i];
  }

  /** Why a transaction that does not conflict is held back: it is too large, an output is dust,
      or an input can be replaced, is locked until after the next block or a later time, or spends
      a transaction that was held back. */
  predicate IsHeldBack(c: Context, pending: set<TxId>, b: TxBody) {
    || b.vsize > 100000
    || (exists j :: 0 <= j < |b.outputs| && b.outputs[j].amount < 546)
    || (exists j :: 0 <= j < |b.inputs| && b.inputs[j].sequence < 0xFFFF_FFFE)
    || (IsLocked(c, b) && exists j :: 0 <= j < |b.inputs| && b.inputs[j].sequence < 0xFFFF_FFFF)
    || (exists j :: 0 <= j < |b.inputs| && b.inputs[j].prev.txHash in pending)
  }

  /** A lock time below 500 million is a height, but is compared with the time as well. */
  predicate IsLocked(c: Context, b: TxBody) {
    b.lockTime > c.now || (b.lockTime < 500000000 && b.lockTime > c.blockHeight + 1)
  }

  lemma {:induction false} PendingIs(c: Context, pending: set<TxId>, b: TxBody)
    ensures IsPending(c, pending, b) <==> IsHeldBack(c, pending, b)
  {
    if IsHeldBack(c, pending, b) && !(b.vsize > 100000) && !HasDust(b) {
      if exists j :: 0 <= j < |b.inputs| && b.inputs[j].sequence < 0xFFFF_FFFE {
        var j :| 0 <= j < |b.inputs| && b.inputs[j].sequence < 0xFFFF_FFFE;
        assert InputPending(c, pending, b, b.inputs[j]);
      } else if exists j :: 0 <= j < |b.inputs| && b.inputs[j].prev.txHash in pending {
        var j :| 0 <= j < |b.inputs| && b.inputs[j].prev.txHash in pending;
        assert InputPending(c, pending, b, b.inputs[j]);
      } else {
        var j :| 0 <= j < |b.inputs| && b.inputs[j].sequence < 0xFFFF_FFFF;
        assert InputPending(c, pending, b, b.inputs[j]);
      }
    }
  }

  lemma {:induction false} PendingStands(c: Context, txs: seq<TxBody>, i: nat)
    requires Distinct(txs) && i <= |txs|
    ensures forall x :: x in txs[..i] ==> (Id(x) in Replay(c, txs[..i]).pending <==> Id(x) in Replay(c, txs).pending)
    decreases |txs| - i
  {
    if i == |txs| {
      assert txs[..i] == txs;
    } else {
      PendingStands(c, txs, i + 1);
      ReplayStep(c, txs, i);
      forall x | x in txs[..i]
        ensures x != txs[i] && x in txs[..i + 1]
      {
        var k :| 0 <= k < i && txs[k] == x;
        assert txs[..i + 1][k] == x;
      }
    }
  }

  /** A transaction is pending exactly when it is unconfirmed, valid, and held back. */
  lemma {:induction false} PendingExactly(c: Context, txs: seq<TxBody>, i: nat)
    requires Distinct(txs) && i < |txs|
    ensures Id(txs[i]) in Replay(c, txs).pending <==>
              && txs[i] in c.unconfirmed && Id(txs[i]) !in Replay(c, txs).invalid
              && IsHeldBack(c, Replay(c, txs[..i]).pending, txs[i])
  {
    hide IsHeldBack;
    hide IsPending;
    hide Conflicts;
    InvalidExactly(c, txs, i);
    PendingStands(c, txs, i + 1);
    ReplayStep(c, txs, i);
    RecordedAreListed(c, txs[..i]);
    PendingIs(c, Replay(c, txs[..i]).pending, txs[i]);
    assert txs[..i + 1][i] == txs[i];
    hide Settle;
  }

  /** The spent set is exactly the inputs of the transactions that are not invalid. */
  lemma {:induction false} SpentExactly(c: Context, txs: seq<TxBody>)
    requires Distinct(txs)
    ensures forall p :: p in Replay(c, txs).spent <==> SpentBy(Replay(c, txs), txs, p)
  {
    hide Conflicts;
    hide IsPending;
    hide OwnedPkhs;
    hide Kept;
    hide SweptAmount;
    hide Owned;
    hide Amounts;
    if txs != [] {
      var n := |txs| - 1;
      var b := txs[n];
      var before, after := Replay(c, txs[..n]), Replay(c, txs);
      SpentExactly(c, txs[..n]);
      VerdictsStand(c, txs, n);
      InvalidExactly(c, txs, n);
      forall p
        ensures p in after.spent <==> SpentBy(after, txs, p)
      {
        if SpentBy(before, txs[..n], p) {
          var x :| x in txs[..n] && Id(x) !in before.invalid && p in Inputs(x);
          assert x in txs && Id(x) !in after.invalid;
        }
        if SpentBy(after, txs, p) {
          var x :| x in txs && Id(x) !in after.invalid && p in Inputs(x);
          if x != b {
            assert x in txs[..n];
            assert SpentBy(before, txs[..n], p);
          }
        }
      }
    }
  }

  /** An unconfirmed transaction that is not invalid shares no input with an earlier
      transaction that is not invalid. */
  lemma {:induction false} NoDoubleSpend(c: Context, txs: seq<TxBody>, i: nat, j: nat)
    requires Distinct(txs) && i < j < |txs|
    requires txs[j] in c.unconfirmed
    requires Id(txs[i]) !in Replay(c, txs).invalid && Id(txs[j]) !in Replay(c, txs).invalid
    ensures Inputs(txs[i]) !! Inputs(txs[j])
  {
    VerdictsStand(c, txs, j);
    InvalidExactly(c, txs, j);
    SpentExactly(c, txs[..j]);
    assert txs[..j][i] == txs[i];
    var l := Replay(c, txs[..j]);
    forall p | p in Inputs(txs[i])
      ensures p !in Inputs(txs[j])
    {
      assert SpentBy(l, txs[..j], p);
    }
  }

  lemma {:induction false} OwnedNamesItsTx(own: set<Pkh>, b: TxBody, k: nat)
    requires k <= |b.outputs|
    ensures Distinct(Owned(own, b, k))
    ensures forall u :: u in Owned(own, b, k) <==> u.txHash == Id(b) && u.n < k && IsOwned(own, b, u.n)
  {
    if k > 0 {
      OwnedNamesItsTx(own, b, k - 1);
    }
  }

  lemma {:induction false} KeptExactly(us: seq<OutPoint>, spent: set<OutPoint>)
    ensures forall u :: u in Kept(us, spent) <==> u in us && u !in spent
    ensures Distinct(us) ==> Distinct(Kept(us, spent))
  {
    if us != [] {
      KeptExactly(us[1..], spent);
    }
  }

  /** The input is one of an earlier valid transaction, or spends an earlier invalid one. */
  ghost predicate ClashesWithEarlier(l: Ledger, txs: seq<TxBody>, i: nat, p: OutPoint)
    requires i <= |txs|
  {
    exists k :: 0 <= k < i && if Id(txs[k]) in l.invalid then p.txHash == Id(txs[k]) else p in Inputs(txs[k])
  }

  /** A transaction is invalid exactly when it is unconfirmed and one of its inputs clashes with
      what is listed before it. */
  lemma {:induction false} InvalidMeans(c: Context, txs: seq<TxBody>, i: nat)
    requires Distinct(txs) && i < |txs|
    ensures var l := Replay(c, txs);
            Id(txs[i]) in l.invalid <==>
              txs[i] in c.unconfirmed && exists p :: p in Inputs(txs[i]) && ClashesWithEarlier(l, txs, i, p)
  {
    InvalidExactly(c, txs, i);
    VerdictsStand(c, txs, i);
    SpentExactly(c, txs[..i]);
    RecordedAreListed(c, txs[..i]);
    var before, l := Replay(c, txs[..i]), Replay(c, txs);
    hide Replay;
    assert forall k :: 0 <= k < i ==> txs[k] in txs[..i];
    forall p
      ensures ClashesWithEarlier(l, txs, i, p) <==> p in before.spent || p.txHash in before.invalid
    {
      if p in before.spent {
        var x :| x in txs[..i] && Id(x) !in before.invalid && p in Inputs(x);
        var k :| 0 <= k < i && txs[k] == x;
      }
      if p.txHash in before.invalid {
        var k :| 0 <= k < i && txs[k] == p.txHash.body;
      }
    }
    forall j | 0 <= j < |txs[i].inputs|
      ensures txs[i].inputs[j].prev in Inputs(txs[i])
    {
    }
  }

  /** With nothing pending, the unspent outputs are exactly the outputs that valid
      transactions paid to the wallet and no valid transaction spends, each listed once. */
  lemma {:induction false} UtxosExactly(c: Context, txs: seq<TxBody>)
    requires Distinct(txs) && Replay(c, txs).pending == {}
    ensures var l := Replay(c, txs);
            && Distinct(l.utxos)
            && forall u :: u in l.utxos <==> ReceivedBy(c, l, txs, u) && u !in l.spent
  {
    if txs != [] {
      var n := |txs| - 1;
      var b := txs[n];
      var before, after := Replay(c, txs[..n]), Replay(c, txs);
      var owned := Owned(c.own, b, |b.outputs|);
      VerdictsStand(c, txs, n);
      UtxosExactly(c, txs[..n]);
      InvalidExactly(c, txs, n);
      OwnedNamesItsTx(c.own, b, |b.outputs|);
      KeptExactly(before.utxos + owned, after.spent);
      assert Distinct(before.utxos + owned) by {
        forall u | u in before.utxos
          ensures u !in owned
        {
          var x :| x in txs[..n] && u in Owned(c.own, x, |x.outputs|);
          OwnedNamesItsTx(c.own, x, |x.outputs|);
        }
      }
      forall u
        ensures u in after.utxos <==> ReceivedBy(c, after, txs, u) && u !in after.spent
      {
        ReceivedExtends(c, txs, u);
        if Id(b) in after.invalid {
          assert after.utxos == before.utxos && after.spent == before.spent;
        } else {
          assert after.utxos == Kept(before.utxos + owned, after.spent);
          assert u in before.utxos + owned <==> u in before.utxos || u in owned;
        }
      }
    }
  }

  /** What the last transaction adds to the outputs received. */
  lemma {:induction false} ReceivedExtends(c: Context, txs: seq<TxBody>, u: OutPoint)
    requires Distinct(txs) && txs != []
    ensures var n := |txs| - 1;
            ReceivedBy(c, Replay(c, txs), txs, u) <==>
            || ReceivedBy(c, Replay(c, txs[..n]), txs[..n], u)
            || (Id(txs[n]) !in Replay(c, txs).invalid && u in Owned(c.own, txs[n], |txs[n].outputs|))
  {
    var n := |txs| - 1;
    var before, after := Replay(c, txs[..n]), Replay(c, txs);
    VerdictsStand(c, txs, n);
    if ReceivedBy(c, before, txs[..n], u) {
      var x :| x in txs[..n] && Id(x) !in before.invalid && u in Owned(c.own, x, |x.outputs|);
      assert x in txs && Id(x) !in after.invalid;
    }
    if ReceivedBy(c, after, txs, u) {
      var x :| x in txs && Id(x) !in after.invalid && u in Owned(c.own, x, |x.outputs|);
      if x != txs[n] {
        assert x in txs[..n];
      }
    }
  }

  /** What the last transaction adds to the addresses marked used. */
  lemma {:induction false} UsedExtends(c: Context, txs: seq<TxBody>, k: Pkh)
    requires Distinct(txs) && txs != []
    ensures var n := |txs| - 1;
            UsedBy(c, Replay(c, txs), txs, k) <==>
            || UsedBy(c, Replay(c, txs[..n]), txs[..n], k)
            || (Id(txs[n]) !in Replay(c, txs).invalid && k in OwnedPkhs(c.own, txs[n], |txs[n].outputs|))
  {
    var n := |txs| - 1;
    var before, after := Replay(c, txs[..n]), Replay(c, txs);
    VerdictsStand(c, txs, n);
    if UsedBy(c, before, txs[..n], k) {
      var x :| x in txs[..n] && Id(x) !in before.invalid && k in OwnedPkhs(c.own, x, |x.outputs|);
      assert x in txs && Id(x) !in after.invalid;
    }
    if UsedBy(c, after, txs, k) {
      var x :| x in txs && Id(x) !in after.invalid && k in OwnedPkhs(c.own, x, |x.outputs|);
      if x != txs[n] {
        assert x in txs[..n];
      }
    }
  }

  /** The addresses marked used are those paid by valid transactions. */
  lemma {:induction false} UsedExactly(c: Context, txs: seq<TxBody>)
    requires Distinct(txs) && Replay(c, txs).pending == {}
    ensures forall k :: k in Replay(c, txs).used <==> UsedBy(c, Replay(c, txs), txs, k)
  {
    if txs != [] {
      var n := |txs| - 1;
      var before, after := Replay(c, txs[..n]), Replay(c, txs);
      VerdictsStand(c, txs, n);
      UsedExactly(c, txs[..n]);
      InvalidExactly(c, txs, n);
      forall k
        ensures k in after.used <==> UsedBy(c, after, txs, k)
      {
        UsedExtends(c, txs, k);
        if Id(txs[n]) in after.invalid {
          assert after.used == before.used;
        } else {
          assert after.used == before.used + OwnedPkhs(c.own, txs[n], |txs[n].outputs|);
        }
      }
    }
  }

  ghost predicate UsedBy(c: Context, l: Ledger, txs: seq<TxBody>, k: Pkh) {
    exists x :: x in txs && Id(x) !in l.invalid && k in OwnedPkhs(c.own, x, |x.outputs|)
  }

  // ---- Independence of order ----

  /** Two ledgers with the same content, whatever the order of the unspent outputs. */
  predicate SameView(a: Ledger, b: Ledger) {
    && a.spent == b.spent && a.invalid == b.invalid && a.pending == b.pending && a.used == b.used
    && multiset(a.utxos) == multiset(b.utxos) && a.balance == b.balance
  }

  predicate Before<T(==)>(s: seq<T>, x: T, y: T) {
    exists i, j :: 0 <= i < j < |s| && s[i] == x && s[j] == y
  }

  /** Every transaction that is still unconfirmed keeps its predecessors in front of it. */
  ghost predicate KeepsOrder(a: seq<TxBody>, b: seq<TxBody>, unconfirmed: set<TxBody>) {
    forall x, y :: Before(a, x, y) && y in unconfirmed ==> Before(b, x, y)
  }

  predicate UnconfirmedLast(txs: seq<TxBody>, unconfirmed: set<TxBody>) {
    forall i, j :: 0 <= i < j < |txs| && txs[i] in unconfirmed ==> txs[j] in unconfirmed
  }

  /** `b` is the list `a` re-sorted after some transactions, none of them invalid, were
      confirmed; meanwhile the chain height and the clock did not go back. */
  ghost predicate Confirmed(c: Context, a: seq<TxBody>, d: Context, b: seq<TxBody>) {
    && Distinct(a) && Distinct(b) && multiset(a) == multiset(b)
    && c.own == d.own && d.unconfirmed <= c.unconfirmed
    && c.blockHeight <= d.blockHeight && c.now <= d.now
    && (forall x :: x in a && x in c.unconfirmed && x !in d.unconfirmed ==> Id(x) !in Replay(c, a).invalid)
    && UnconfirmedLast(a, c.unconfirmed)
    && KeepsOrder(a, b, d.unconfirmed)
  }

  lemma {:induction false} SameMembers<T>(a: seq<T>, b: seq<T>)
    requires multiset(a) == multiset(b)
    ensures |a| == |b|
    ensures forall x :: x in a <==> x in b
  {
    assert |multiset(a)| == |multiset(b)|;
    forall x
      ensures x in a <==> x in b
    {
      assert x in multiset(a) <==> x in multiset(b);
    }
  }

  /** Moving confirmed transactions forward changes no verdict on a conflict. */
  lemma {:induction false} ConflictsAgree(c: Context, a: seq<TxBody>, i: nat, d: Context, b: seq<TxBody>, k: nat)
    requires Confirmed(c, a, d, b) && i < |a| && k < |b| && a[i] == b[k]
    requires a[i] in d.unconfirmed
    requires forall x :: x in b[..k] ==> (Id(x) in Replay(d, b[..k]).invalid <==> Id(x) in Replay(c, a).invalid)
    ensures Conflicts(Replay(c, a[..i]), a[i]) <==> Conflicts(Replay(d, b[..k]), b[k])
  {
    hide Kept;
    hide SweptAmount;
    hide Amounts;
    hide Owned;
    hide OwnedPkhs;
    hide HasDust;
    var u := a[i];
    var whole := Replay(c, a);
    var la, lb := Replay(c, a[..i]), Replay(d, b[..k]);
    SameMembers(a, b);
    VerdictsStand(c, a, i);
    SpentExactly(c, a[..i]);
    SpentExactly(d, b[..k]);
    RecordedAreListed(c, a[..i]);
    RecordedAreListed(d, b[..k]);
    InvalidExactly(c, a, i);
    if Conflicts(la, u) {
      var j :| 0 <= j < |u.inputs| && InputConflicts(la, u.inputs[j]);
      var p := u.inputs[j].prev;
      var x: TxBody;
      if p in la.spent {
        assert SpentBy(la, a[..i], p);
        x :| x in a[..i] && Id(x) !in la.invalid && p in Inputs(x);
      } else {
        x := p.txHash.body;
      }
      StaysBefore(c, a, i, d, b, k, x);
      assert p in la.spent ==> SpentBy(lb, b[..k], p);
      assert InputConflicts(lb, u.inputs[j]);
    }
    if Conflicts(lb, u) {
      var j :| 0 <= j < |u.inputs| && InputConflicts(lb, u.inputs[j]);
      var p := u.inputs[j].prev;
      var x: TxBody;
      if p in lb.spent {
        assert SpentBy(lb, b[..k], p);
        x :| x in b[..k] && Id(x) !in lb.invalid && p in Inputs(x);
      } else {
        x := p.txHash.body;
      }
      assert x in a;
      var m :| 0 <= m < |a| && a[m] == x;
      if m < i {
        assert a[..i][m] == x;
        assert p in lb.spent ==> SpentBy(la, a[..i], p);
        assert InputConflicts(la, u.inputs[j]);
      } else {
        assert m != i;
        CameAfter(c, a, i, m, d, b, k, p);
      }
    }
  }

  /** A predecessor of a still unconfirmed transaction remains one. */
  lemma {:induction false} StaysBefore(c: Context, a: seq<TxBody>, i: nat, d: Context, b: seq<TxBody>, k: nat, x: TxBody)
    requires Confirmed(c, a, d, b) && i < |a| && k < |b| && a[i] == b[k]
    requires a[i] in d.unconfirmed && x in a[..i]
    ensures x in b[..k]
  {
    var m :| 0 <= m < i && a[m] == x;
    assert Before(a, x, a[i]);
    var p, q :| 0 <= p < q < |b| && b[p] == x && b[q] == a[i];
    assert q == k;
    assert b[..k][p] == x;
  }

  /** A valid transaction moved ahead of `a[i]` cannot be what `a[i]` conflicts with,
      unless `a[i]` conflicted already. */
  lemma {:induction false} CameAfter(c: Context, a: seq<TxBody>, i: nat, m: nat, d: Context, b: seq<TxBody>, k: nat, p: OutPoint)
    requires Confirmed(c, a, d, b) && i < m < |a| && k < |b| && a[i] == b[k]
    requires a[i] in d.unconfirmed && a[m] in b[..k] && p in Inputs(a[i])
    requires if Id(a[m]) in Replay(c, a).invalid then p.txHash == Id(a[m]) else p in Inputs(a[m])
    ensures Conflicts(Replay(c, a[..i]), a[i])
  {
    InvalidExactly(c, a, i);
    if Id(a[m]) in Replay(c, a).invalid {
      RecordedAreListed(c, a);
      assert a[m] in d.unconfirmed;
      assert Before(a, a[i], a[m]);
    } else if Id(a[i]) !in Replay(c, a).invalid {
      NoDoubleSpend(c, a, i, m);
    }
  }

  /** The re-sorted list gives every transaction the verdict it already had. */
  lemma {:induction false} VerdictsAgree(c: Context, a: seq<TxBody>, d: Context, b: seq<TxBody>, k: nat)
    requires Confirmed(c, a, d, b) && Replay(c, a).pending == {} && k <= |b|
    ensures Replay(d, b[..k]).pending == {}
    ensures forall x :: x in b[..k] ==> (Id(x) in Replay(d, b[..k]).invalid <==> Id(x) in Replay(c, a).invalid)
  {
    hide Kept;
    hide SweptAmount;
    hide Amounts;
    hide Owned;
    hide OwnedPkhs;
    hide HasDust;
    hide Conflicts;
    hide IsPending;
    hide Inputs;
    if k > 0 {
      var n := k - 1;
      VerdictsAgree(c, a, d, b, n);
      ReplayStep(d, b, n);
      SameMembers(a, b);
      var x := b[n];
      assert x in a;
      var i :| 0 <= i < |a| && a[i] == x;
      RecordedAreListed(c, a);
      RecordedAreListed(d, b[..n]);
      InvalidExactly(c, a, i);
      if x in d.unconfirmed {
        ConflictsAgree(c, a, i, d, b, n);
        if Id(x) !in Replay(c, a).invalid {
          NotPendingLater(c, a, i, d);
        }
      }
      forall y | y in b[..k]
        ensures Id(y) in Replay(d, b[..k]).invalid <==> Id(y) in Replay(c, a).invalid
      {
        var j :| 0 <= j < k && b[j] == y;
        if j < n {
          assert b[..n][j] == y;
          assert y != x;
        } else {
          assert y == x && x !in b[..n];
        }
      }
    }
  }

  lemma {:induction false} NotPendingLater(c: Context, a: seq<TxBody>, i: nat, d: Context)
    requires Distinct(a) && i < |a| && Replay(c, a).pending == {}
    requires a[i] in c.unconfirmed && Id(a[i]) !in Replay(c, a).invalid
    requires c.blockHeight <= d.blockHeight && c.now <= d.now
    ensures !IsPending(d, {}, a[i])
  {
    VerdictsStand(c, a, i);
    VerdictsStand(c, a, i + 1);
    InvalidExactly(c, a, i);
    ReplayStep(c, a, i);
    assert !IsPending(c, {}, a[i]);
    forall j | 0 <= j < |a[i].inputs|
      ensures !InputPending(d, {}, a[i], a[i].inputs[j])
    {
      assert !InputPending(c, {}, a[i], a[i].inputs[j]);
    }
  }

  lemma {:induction false} DistinctMultiset<T>(s: seq<T>)
    requires Distinct(s)
    ensures forall x :: multiset(s)[x] == if x in s then 1 else 0
  {
    if s != [] {
      DistinctMultiset(s[..|s| - 1]);
      assert s == s[..|s| - 1] + [s[|s| - 1]];
    }
  }

  lemma {:induction false} AmountsOfMultiset(a: seq<OutPoint>, b: seq<OutPoint>)
    requires multiset(a) == multiset(b)
    ensures Amounts(a) == Amounts(b)
  {
    SameMembers(a, b);
    if a != [] {
      var x := a[|a| - 1];
      assert x in b;
      var i :| 0 <= i < |b| && b[i] == x;
      assert a == a[..|a| - 1] + [x];
      assert b == b[..i] + ([x] + b[i + 1..]);
      assert multiset(b) == multiset(b[..i] + b[i + 1..]) + multiset{x};
      assert multiset(a) == multiset(a[..|a| - 1]) + multiset{x};
      assert multiset(a[..|a| - 1]) == multiset(a) - multiset{x} == multiset(b) - multiset{x};
      AmountsOfMultiset(a[..|a| - 1], b[..i] + b[i + 1..]);
      AmountsConcat(b[..i], [x] + b[i + 1..]);
      AmountsConcat([x], b[i + 1..]);
      AmountsConcat(b[..i], b[i + 1..]);
    }
  }

  /** Confirming valid transactions leaves nothing to recompute: with nothing pending, a
      full recomputation over the re-sorted list would give the content already cached. */
  lemma {:induction false} ConfirmingChangesNothing(c: Context, a: seq<TxBody>, d: Context, b: seq<TxBody>)
    requires Confirmed(c, a, d, b) && Replay(c, a).pending == {}
    ensures SameView(Replay(c, a), Replay(d, b))
  {
    var before, after := Replay(c, a), Replay(d, b);
    SameMembers(a, b);
    assert b[..|b|] == b;
    VerdictsAgree(c, a, d, b, |b|);
    RecordedAreListed(c, a);
    RecordedAreListed(d, b);
    assert before.invalid == after.invalid;
    SpentExactly(c, a);
    SpentExactly(d, b);
    forall p
      ensures SpentBy(before, a, p) <==> SpentBy(after, b, p)
    {
    }
    assert before.spent == after.spent;
    UsedExactly(c, a);
    UsedExactly(d, b);
    forall k
      ensures UsedBy(c, before, a, k) <==> UsedBy(d, after, b, k)
    {
    }
    assert before.used == after.used;
    UtxosExactly(c, a);
    UtxosExactly(d, b);
    forall u
      ensures ReceivedBy(c, before, a, u) <==> ReceivedBy(d, after, b, u)
    {
    }
    DistinctMultiset(before.utxos);
    DistinctMultiset(after.utxos);
    assert multiset(before.utxos) == multiset(after.utxos);
    AmountsOfMultiset(before.utxos, after.utxos);
    BalanceIsConserved(c, a);
    BalanceIsConserved(d, b);
  }

  lemma {:induction false} RepeatCountsTwice<T>(s: seq<T>, i: nat, j: nat)
    requires i < j < |s|
    ensures s[i] == s[j] ==> multiset(s)[s[i]] >= 2
  {
    assert s == s[..j] + ([s[j]] + s[j + 1..]);
    assert s[..j][i] == s[i];
    assert s[i] in multiset(s[..j]);
  }

  lemma {:induction false} DistinctSurvives<T>(a: seq<T>, b: seq<T>)
    requires Distinct(a) && multiset(a) == multiset(b)
    ensures Distinct(b)
  {
    DistinctMultiset(a);
    forall i, j | 0 <= i < j < |b|
      ensures b[i] != b[j]
    {
      RepeatCountsTwice(b, i, j);
    }
  }

  /** For confirmed transactions the order of the list does not matter at all. */
  lemma {:induction false} AllConfirmedAnyOrder(c: Context, a: seq<TxBody>, b: seq<TxBody>)
    requires Distinct(a) && multiset(a) == multiset(b)
    requires forall x :: x in a ==> x !in c.unconfirmed
    ensures SameView(Replay(c, a), Replay(c, b))
  {
    SameMembers(a, b);
    RecordedAreListed(c, a);
    DistinctSurvives(a, b);
    forall x, y | Before(a, x, y)
      ensures y !in c.unconfirmed
    {
      assert y in a;
    }
    ConfirmingChangesNothing(c, a, c, b);
  }
}
