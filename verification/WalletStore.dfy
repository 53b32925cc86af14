/** The wallet object of BRWallet.c: its transaction list, kept sorted by block height, and
    the caches it recomputes from that list or, when it can, leaves alone. */
module WalletStore {
  import opened Wrappers
  import opened Bitcoin
  import opened Ledger
  import opened SpendGraph

  // ---- The order of the list ----

  /** The loop of `_BRWalletTxIsAscending`, which walks up the spend graph. */
  predicate IsAscending(all: map<TxId, Tx>, t1: Tx, t2: Tx)
    requires KeyedByHash(all)
    decreases t1.body
  {
    if t1.blockHeight > t2.blockHeight then true
    else if t1.blockHeight < t2.blockHeight then false
    else if Spends(t1.body, t2.Hash()) then true
    else if Spends(t2.body, t1.Hash()) then false
    else
      exists i ::
        && 0 <= i < |t1.body.inputs|
        && t1.body.inputs[i].prev.txHash in all
        && IsAscending(all, all[t1.body.inputs[i].prev.txHash], t2)
  }

  predicate PaysTo(b: TxBody, key: Pkh) {
    exists j :: 0 <= j < |b.outputs| && b.outputs[j].pkh == Some(key)
  }

  /** The position of the last address of `chain` the transaction pays, or -1. */
  function ChainIndex(b: TxBody, chain: seq<Pkh>): int {
    if chain == [] then -1
    else if PaysTo(b, chain[|chain| - 1]) then |chain| - 1
    else ChainIndex(b, chain[..|chain| - 1])
  }

  function Compare(all: map<TxId, Tx>, internal: seq<Pkh>, external: seq<Pkh>, t1: Tx, t2: Tx): int
    requires KeyedByHash(all)
  {
    if IsAscending(all, t1, t2) then 1
    else if IsAscending(all, t2, t1) then -1
    else
      var i := ChainIndex(t1.body, internal);
      var j := if i != -1 then ChainIndex(t2.body, internal) else -1;
      var i' := if j == -1 then ChainIndex(t1.body, external) else i;
      var j' := if j == -1 && i' != -1 then ChainIndex(t2.body, external) else j;
      if i' != -1 && j' != -1 && i' != j' then (if i' > j' then 1 else -1) else 0
  }

  predicate Known(all: map<TxId, Tx>, txs: seq<TxBody>) {
    KeyedByHash(all) && forall b :: b in txs ==> Id(b) in all
  }

  function HeightOf(all: map<TxId, Tx>, b: TxBody): nat
    requires Id(b) in all
  {
    all[Id(b)].blockHeight
  }

  ghost predicate SortedByHeight(all: map<TxId, Tx>, txs: seq<TxBody>)
    requires Known(all, txs)
  {
    forall i, j :: 0 <= i < j < |txs| ==> HeightOf(all, txs[i]) <= HeightOf(all, txs[j])
  }

  function UnconfirmedIn(all: map<TxId, Tx>, txs: seq<TxBody>): set<TxBody>
    requires Known(all, txs)
  {
    set b | b in txs && HeightOf(all, b) == TX_UNCONFIRMED
  }

  /** Where the insertion sort puts `tx`. */
  function InsertAt(all: map<TxId, Tx>, internal: seq<Pkh>, external: seq<Pkh>, txs: seq<TxBody>, tx: Tx): (p: nat)
    requires Known(all, txs)
    ensures p <= |txs|
  {
    if txs == [] then 0
    else if Compare(all, internal, external, all[Id(txs[|txs| - 1])], tx) > 0 then
      InsertAt(all, internal, external, txs[..|txs| - 1], tx)
    else |txs|
  }

  lemma {:induction false} InsertEarlier(all: map<TxId, Tx>, internal: seq<Pkh>, external: seq<Pkh>, txs: seq<TxBody>, i: nat, tx: Tx)
    requires Known(all, txs) && 0 < i <= |txs|
    requires Compare(all, internal, external, all[Id(txs[i - 1])], tx) > 0
    ensures InsertAt(all, internal, external, txs[..i], tx) == InsertAt(all, internal, external, txs[..i - 1], tx)
  {
    assert txs[..i][..i - 1] == txs[..i - 1];
  }

  lemma {:induction false} InsertHere(all: map<TxId, Tx>, internal: seq<Pkh>, external: seq<Pkh>, txs: seq<TxBody>, i: nat, tx: Tx)
    requires Known(all, txs) && i <= |txs|
    requires i > 0 ==> Compare(all, internal, external, all[Id(txs[i - 1])], tx) <= 0
    ensures InsertAt(all, internal, external, txs[..i], tx) == i
  {
  }

  /** The comparison respects heights, so the insertion point separates lower from higher. */
  lemma {:induction false} InsertSeparates(all: map<TxId, Tx>, internal: seq<Pkh>, external: seq<Pkh>,
                                           txs: seq<TxBody>, tx: Tx)
    requires Known(all, txs) && SortedByHeight(all, txs)
    ensures var p := InsertAt(all, internal, external, txs, tx);
            && (forall k :: 0 <= k < p ==> HeightOf(all, txs[k]) <= tx.blockHeight)
            && (forall k :: p <= k < |txs| ==> HeightOf(all, txs[k]) >= tx.blockHeight)
  {
    if txs != [] && Compare(all, internal, external, all[Id(txs[|txs| - 1])], tx) > 0 {
      InsertSeparates(all, internal, external, txs[..|txs| - 1], tx);
      var p := InsertAt(all, internal, external, txs[..|txs| - 1], tx);
      forall k | 0 <= k < p
        ensures HeightOf(all, txs[k]) <= tx.blockHeight
      {
        assert txs[..|txs| - 1][k] == txs[k];
      }
      forall k | p <= k < |txs|
        ensures HeightOf(all, txs[k]) >= tx.blockHeight
      {
        if k < |txs| - 1 {
          assert txs[..|txs| - 1][k] == txs[k];
        }
      }
    }
  }

  // ---- Spenders come behind what they spend ----

  lemma {:induction false} SpenderIsDeeper(b: TxBody, p: TxBody)
    requires Spends(b, Id(p))
    ensures Ancestry(p) < Ancestry(b)
  {
    var j :| 0 <= j < |b.inputs| && b.inputs[j].prev.txHash == Id(p);
    ParentIsShallower(b, j, |b.inputs|);
  }

  /** The transaction spends `id` directly, or through registered unconfirmed transactions. */
  predicate Descends(all: map<TxId, Tx>, b: TxBody, id: TxId)
    requires KeyedByHash(all)
    decreases b
  {
    || Spends(b, id)
    || exists i ::
        && 0 <= i < |b.inputs| && b.inputs[i].prev.txHash in all
        && all[b.inputs[i].prev.txHash].blockHeight == TX_UNCONFIRMED
        && Descends(all, all[b.inputs[i].prev.txHash].body, id)
  }

  lemma {:induction false} DescendantIsDeeper(all: map<TxId, Tx>, b: TxBody, p: TxBody)
    requires KeyedByHash(all) && Descends(all, b, Id(p))
    ensures Ancestry(p) < Ancestry(b)
    decreases b
  {
    if Spends(b, Id(p)) {
      SpenderIsDeeper(b, p);
    } else {
      var i :| 0 <= i < |b.inputs| && b.inputs[i].prev.txHash in all
               && all[b.inputs[i].prev.txHash].blockHeight == TX_UNCONFIRMED
               && Descends(all, all[b.inputs[i].prev.txHash].body, Id(p));
      DescendantIsDeeper(all, all[b.inputs[i].prev.txHash].body, p);
      ParentIsShallower(b, i, |b.inputs|);
    }
  }

  /** Of unconfirmed transactions, one is ascending to another exactly when it descends from it. */
  lemma {:induction false} AscendingIsDescent(all: map<TxId, Tx>, t1: Tx, t2: Tx)
    requires KeyedByHash(all) && (forall id :: id in all ==> all[id].blockHeight <= TX_UNCONFIRMED)
    requires t1.blockHeight == t2.blockHeight == TX_UNCONFIRMED
    ensures IsAscending(all, t1, t2) <==> Descends(all, t1.body, t2.Hash())
    decreases t1.body
  {
    if Spends(t2.body, t1.Hash()) {
      SpenderIsDeeper(t2.body, t1.body);
      if Descends(all, t1.body, t2.Hash()) {
        DescendantIsDeeper(all, t1.body, t2.body);
      }
    }
    forall i | 0 <= i < |t1.body.inputs| && t1.body.inputs[i].prev.txHash in all
      ensures var p := all[t1.body.inputs[i].prev.txHash];
              IsAscending(all, p, t2) <==> p.blockHeight == TX_UNCONFIRMED && Descends(all, p.body, t2.Hash())
    {
      var p := all[t1.body.inputs[i].prev.txHash];
      if p.blockHeight == TX_UNCONFIRMED {
        AscendingIsDescent(all, p, t2);
      }
    }
  }

  /** What the comparison puts behind a transaction of its height is not spent by it. */
  lemma {:induction false} SpentIsNotBehind(all: map<TxId, Tx>, internal: seq<Pkh>, external: seq<Pkh>, t: Tx, tx: Tx)
    requires KeyedByHash(all) && t.blockHeight == tx.blockHeight
    ensures Spends(tx.body, t.Hash()) ==> Compare(all, internal, external, t, tx) < 0
    ensures Spends(t.body, tx.Hash()) ==> Compare(all, internal, external, t, tx) > 0
    ensures ((forall id :: id in all ==> all[id].blockHeight <= TX_UNCONFIRMED) && tx.blockHeight == TX_UNCONFIRMED
             && Descends(all, tx.body, t.Hash())) ==> Compare(all, internal, external, t, tx) < 0
  {
    if Spends(tx.body, t.Hash()) {
      SpenderIsDeeper(tx.body, t.body);
      if Spends(t.body, tx.Hash()) { SpenderIsDeeper(t.body, tx.body); }
    }
    if (forall id :: id in all ==> all[id].blockHeight <= TX_UNCONFIRMED) && tx.blockHeight == TX_UNCONFIRMED
       && Descends(all, tx.body, t.Hash()) {
      AscendingIsDescent(all, t, tx);
      AscendingIsDescent(all, tx, t);
      DescendantIsDeeper(all, tx.body, t.body);
      if Descends(all, t.body, tx.Hash()) { DescendantIsDeeper(all, t.body, tx.body); }
    }
  }

  /** Nothing of its height at or behind the insertion point is spent by the new transaction, nor
      does an unconfirmed one descend from what is behind it; what stands right before it does
      not spend it. */
  lemma {:induction false} InsertBehindSpent(all: map<TxId, Tx>, internal: seq<Pkh>, external: seq<Pkh>, txs: seq<TxBody>, tx: Tx)
    requires Known(all, txs)
    ensures var p := InsertAt(all, internal, external, txs, tx);
            && (forall k :: p <= k < |txs| && HeightOf(all, txs[k]) == tx.blockHeight ==> !Spends(tx.body, Id(txs[k])))
            && (p > 0 && HeightOf(all, txs[p - 1]) == tx.blockHeight ==> !Spends(txs[p - 1], tx.Hash()))
            && ((forall id :: id in all ==> all[id].blockHeight <= TX_UNCONFIRMED) && tx.blockHeight == TX_UNCONFIRMED ==>
                  forall k :: p <= k < |txs| && HeightOf(all, txs[k]) == TX_UNCONFIRMED ==> !Descends(all, tx.body, Id(txs[k])))
  {
    hide Compare;
    hide Descends;
    hide Spends;
    if txs != [] {
      var n := |txs| - 1;
      var last := all[Id(txs[n])];
      if last.blockHeight == tx.blockHeight {
        SpentIsNotBehind(all, internal, external, last, tx);
      }
      if Compare(all, internal, external, last, tx) > 0 {
        InsertBehindSpent(all, internal, external, txs[..n], tx);
        assert forall k :: 0 <= k < n ==> txs[..n][k] == txs[k];
      }
    }
  }

  /** No transaction behind `b` in the list that has its height is spent by it. */
  ghost predicate BehindSpent(all: map<TxId, Tx>, txs: seq<TxBody>, b: TxBody)
    requires Known(all, txs)
  {
    forall i, j :: 0 <= i < j < |txs| && txs[i] == b && HeightOf(all, txs[j]) == HeightOf(all, b) ==> !Spends(b, Id(txs[j]))
  }

  lemma {:induction false} InsertedBehindSpent(all: map<TxId, Tx>, internal: seq<Pkh>, external: seq<Pkh>, txs: seq<TxBody>, b: TxBody)
    requires Known(all, txs) && Id(b) in all && b !in txs
    ensures var listed := InsertedAt(txs, InsertAt(all, internal, external, txs, all[Id(b)]), b);
            Known(all, listed) && BehindSpent(all, listed, b)
  {
    InsertBehindSpent(all, internal, external, txs, all[Id(b)]);
    hide InsertAt;
    hide Spends;
    hide Descends;
    var p := InsertAt(all, internal, external, txs, all[Id(b)]);
    var listed := InsertedAt(txs, p, b);
    forall k | 0 <= k < |listed|
      ensures listed[k] == if k < p then txs[k] else if k == p then b else txs[k - 1]
    {
    }
  }

  // ---- Ties ----

  /** The chain index names the last address of the chain that the transaction pays. */
  lemma {:induction false} ChainIndexIs(b: TxBody, chain: seq<Pkh>)
    ensures var i := ChainIndex(b, chain);
            && -1 <= i < |chain| && (i >= 0 ==> PaysTo(b, chain[i]))
            && forall k :: i < k < |chain| ==> !PaysTo(b, chain[k])
  {
    if chain != [] && !PaysTo(b, chain[|chain| - 1]) {
      ChainIndexIs(b, chain[..|chain| - 1]);
    }
  }

  /** Transactions that spending does not order are in the order of the internal addresses they
      pay, or if not both pay such of the external ones; and stay as they are if neither tells. */
  lemma {:induction false} TiesByAddress(all: map<TxId, Tx>, internal: seq<Pkh>, external: seq<Pkh>, t1: Tx, t2: Tx)
    requires KeyedByHash(all) && !IsAscending(all, t1, t2) && !IsAscending(all, t2, t1)
    ensures var i, j := ChainIndex(t1.body, internal), ChainIndex(t2.body, internal);
            var k, l := ChainIndex(t1.body, external), ChainIndex(t2.body, external);
            var c := Compare(all, internal, external, t1, t2);
            && (i >= 0 && j >= 0 ==> (c > 0 <==> i > j) && (c < 0 <==> i < j))
            && ((i < 0 || j < 0) && k >= 0 && l >= 0 ==> (c > 0 <==> k > l) && (c < 0 <==> k < l))
            && ((i < 0 || j < 0) && (k < 0 || l < 0) ==> c == 0)
  {
    ChainIndexIs(t1.body, internal);
    ChainIndexIs(t2.body, internal);
    ChainIndexIs(t1.body, external);
    ChainIndexIs(t2.body, external);
  }

  /** Every outpoint names an output of a registered transaction. */
  predicate Resolvable(all: map<TxId, Tx>, us: seq<OutPoint>) {
    forall u :: u in us ==>
      u.txHash in all && all[u.txHash].Hash() == u.txHash && u.n < |all[u.txHash].body.outputs|
  }

  function InsertedAt<T>(s: seq<T>, p: nat, x: T): seq<T>
    requires p <= |s|
  {
    s[..p] + [x] + s[p..]
  }

  function RemovedAt<T>(s: seq<T>, k: nat): seq<T>
    requires k < |s|
  {
    s[..k] + s[k + 1..]
  }

  // ---- Transactions of the wallet ----

  /** The transaction pays the wallet. */
  predicate PaysWallet(own: set<Pkh>, b: TxBody) {
    exists j :: 0 <= j < |b.outputs| && IsOwned(own, b, j)
  }

  /** The input spends a registered output that paid the wallet. */
  predicate SpendsWallet(all: map<TxId, Tx>, own: set<Pkh>, input: TxIn) {
    && input.prev.txHash in all
    && input.prev.n < |all[input.prev.txHash].body.outputs|
    && IsOwned(own, all[input.prev.txHash].body, input.prev.n)
  }

  predicate IsWalletTx(all: map<TxId, Tx>, own: set<Pkh>, b: TxBody) {
    PaysWallet(own, b) || exists j :: 0 <= j < |b.inputs| && SpendsWallet(all, own, b.inputs[j])
  }

  /** The list every step keeps: registered wallet transactions, each listed once, sorted by height. */
  ghost predicate GoodList(all: map<TxId, Tx>, own: set<Pkh>, txs: seq<TxBody>) {
    && Known(all, txs) && Distinct(txs) && SortedByHeight(all, txs)
    && forall b :: b in txs ==> HeightOf(all, b) <= TX_UNCONFIRMED && IsWalletTx(all, own, b)
  }

  /** `after` is `before` with other heights for some transactions and without some
      transactions foreign to the wallet. */
  ghost predicate SameBodies(before: map<TxId, Tx>, own: set<Pkh>, after: map<TxId, Tx>) {
    && KeyedByHash(before) && KeyedByHash(after) && after.Keys <= before.Keys
    && forall id :: id in before && id !in after ==> !IsWalletTx(before, own, before[id].body)
  }

  lemma {:induction false} WalletTxsRemain(before: map<TxId, Tx>, own: set<Pkh>, after: map<TxId, Tx>, b: TxBody)
    requires SameBodies(before, own, after)
    ensures IsWalletTx(before, own, b) <==> IsWalletTx(after, own, b)
  {
    forall j | 0 <= j < |b.inputs|
      ensures SpendsWallet(before, own, b.inputs[j]) <==> SpendsWallet(after, own, b.inputs[j])
    {
      var id := b.inputs[j].prev.txHash;
      if id in before {
        assert before[id].Hash() == id;
        if id in after {
          assert after[id].Hash() == id;
        }
      }
    }
  }

  /** The effect of re-sorting `txs[k]`, which got a new height, into the list. */
  function Moved(all: map<TxId, Tx>, internal: seq<Pkh>, external: seq<Pkh>, txs: seq<TxBody>, k: nat): seq<TxBody>
    requires k < |txs| && Known(all, txs)
  {
    var rest := RemovedAt(txs, k);
    InsertedAt(rest, InsertAt(all, internal, external, rest, all[Id(txs[k])]), txs[k])
  }

  /** Everything but `txs[k]` is still where the old heights put it. */
  ghost predicate SortedExcept(all: map<TxId, Tx>, txs: seq<TxBody>, k: nat)
    requires Known(all, txs)
  {
    forall i, j :: 0 <= i < j < |txs| && i != k && j != k ==> HeightOf(all, txs[i]) <= HeightOf(all, txs[j])
  }

  lemma {:induction false} MovedMultiset<T>(s: seq<T>, k: nat, p: nat)
    requires k < |s| && p < |s|
    ensures multiset(InsertedAt(RemovedAt(s, k), p, s[k])) == multiset(s)
  {
    var rest := RemovedAt(s, k);
    assert s == s[..k] + [s[k]] + s[k + 1..];
    assert rest == rest[..p] + rest[p..];
    assert multiset(rest[..p] + [s[k]] + rest[p..]) == multiset(rest) + multiset{s[k]};
    assert multiset(rest) + multiset{s[k]} == multiset(s[..k] + [s[k]] + s[k + 1..]);
  }

  lemma {:induction false} RestIsSorted(all: map<TxId, Tx>, txs: seq<TxBody>, k: nat)
    requires k < |txs| && Known(all, txs) && SortedExcept(all, txs, k)
    ensures Known(all, RemovedAt(txs, k)) && SortedByHeight(all, RemovedAt(txs, k))
  {
    var rest := RemovedAt(txs, k);
    forall i | 0 <= i < |rest|
      ensures rest[i] == txs[if i < k then i else i + 1]
    {
    }
    assert forall b :: b in rest ==> b in txs;
    forall i, j | 0 <= i < j < |rest|
      ensures HeightOf(all, rest[i]) <= HeightOf(all, rest[j])
    {
    }
  }

  lemma {:induction false} InsertedIsSorted(all: map<TxId, Tx>, rest: seq<TxBody>, p: nat, b: TxBody)
    requires p <= |rest| && Known(all, rest) && Id(b) in all && SortedByHeight(all, rest)
    requires forall k :: 0 <= k < p ==> HeightOf(all, rest[k]) <= HeightOf(all, b)
    requires forall k :: p <= k < |rest| ==> HeightOf(all, rest[k]) >= HeightOf(all, b)
    ensures Known(all, InsertedAt(rest, p, b)) && SortedByHeight(all, InsertedAt(rest, p, b))
  {
    var s := InsertedAt(rest, p, b);
    forall i | 0 <= i < |s|
      ensures s[i] == if i < p then rest[i] else if i == p then b else rest[i - 1]
    {
    }
    assert forall x :: x in s ==> x in rest || x == b;
  }

  lemma {:induction false} MovedIsSorted(all: map<TxId, Tx>, internal: seq<Pkh>, external: seq<Pkh>, txs: seq<TxBody>, k: nat)
    requires k < |txs| && Known(all, txs) && SortedExcept(all, txs, k)
    ensures var moved := Moved(all, internal, external, txs, k);
            && multiset(moved) == multiset(txs)
            && Known(all, moved) && SortedByHeight(all, moved)
  {
    var rest := RemovedAt(txs, k);
    RestIsSorted(all, txs, k);
    InsertSeparates(all, internal, external, rest, all[Id(txs[k])]);
    var p := InsertAt(all, internal, external, rest, all[Id(txs[k])]);
    InsertedIsSorted(all, rest, p, txs[k]);
    MovedMultiset(txs, k, p);
  }

  lemma {:induction false} InsertedKeepsBefore<T>(rest: seq<T>, p: nat, b: T, i: nat, j: nat)
    requires p <= |rest| && i < j < |rest|
    ensures Before(InsertedAt(rest, p, b), rest[i], rest[j])
  {
    var s := InsertedAt(rest, p, b);
    assert s[if i < p then i else i + 1] == rest[i];
    assert s[if j < p then j else j + 1] == rest[j];
  }

  lemma {:induction false} InsertedIsBefore<T>(rest: seq<T>, p: nat, b: T, j: nat)
    requires p <= j < |rest|
    ensures Before(InsertedAt(rest, p, b), b, rest[j])
  {
    var s := InsertedAt(rest, p, b);
    assert s[p] == b && s[j + 1] == rest[j];
  }

  /** Re-sorting a transaction that is now confirmed keeps every unconfirmed one behind
      whatever it was behind. */
  lemma {:induction false} MovedKeepsOrder(all: map<TxId, Tx>, internal: seq<Pkh>, external: seq<Pkh>, txs: seq<TxBody>, k: nat,
                        i: nat, j: nat)
    requires k < |txs| && Known(all, txs) && SortedExcept(all, txs, k)
    requires HeightOf(all, txs[k]) < TX_UNCONFIRMED
    requires i < j < |txs| && HeightOf(all, txs[j]) == TX_UNCONFIRMED
    ensures Before(Moved(all, internal, external, txs, k), txs[i], txs[j])
  {
    hide InsertAt;
    hide SortedByHeight;
    var rest := RemovedAt(txs, k);
    RestIsSorted(all, txs, k);
    InsertSeparates(all, internal, external, rest, all[Id(txs[k])]);
    var p := InsertAt(all, internal, external, rest, all[Id(txs[k])]);
    assert j != k;
    var j' := if j < k then j else j - 1;
    assert rest[j'] == txs[j];
    if i == k {
      InsertedIsBefore(rest, p, txs[k], j');
    } else {
      var i' := if i < k then i else i - 1;
      assert rest[i'] == txs[i];
      InsertedKeepsBefore(rest, p, txs[k], i', j');
    }
  }

  lemma {:induction false} MovedIsGood(all: map<TxId, Tx>, internal: seq<Pkh>, external: seq<Pkh>, txs: seq<TxBody>, k: nat)
    requires k < |txs| && Known(all, txs) && Distinct(txs) && SortedExcept(all, txs, k)
    ensures var moved := Moved(all, internal, external, txs, k);
            && multiset(moved) == multiset(txs) && Distinct(moved)
            && Known(all, moved) && SortedByHeight(all, moved)
            && (HeightOf(all, txs[k]) < TX_UNCONFIRMED ==> KeepsOrder(txs, moved, UnconfirmedIn(all, txs)))
  {
    var moved := Moved(all, internal, external, txs, k);
    MovedIsSorted(all, internal, external, txs, k);
    DistinctSurvives(txs, moved);
    if HeightOf(all, txs[k]) < TX_UNCONFIRMED {
      forall x, y | Before(txs, x, y) && y in UnconfirmedIn(all, txs)
        ensures Before(moved, x, y)
      {
        var i, j :| 0 <= i < j < |txs| && txs[i] == x && txs[j] == y;
        MovedKeepsOrder(all, internal, external, txs, k, i, j);
      }
    }
  }

  function Reheighted(all: map<TxId, Tx>, id: TxId, height: nat, timestamp: nat): map<TxId, Tx>
    requires id in all
  {
    all[id := all[id].(blockHeight := height, timestamp := timestamp)]
  }

  /** Giving one transaction a new height disturbs the order of no other. */
  lemma {:induction false} ReheightedIsSorted(all: map<TxId, Tx>, txs: seq<TxBody>, id: TxId, height: nat, timestamp: nat)
    requires Known(all, txs) && SortedByHeight(all, txs) && Distinct(txs) && id in all
    ensures var after := Reheighted(all, id, height, timestamp);
            && Known(after, txs)
            && (forall k :: 0 <= k < |txs| && Id(txs[k]) == id ==> SortedExcept(after, txs, k))
            && ((forall b :: b in txs ==> Id(b) != id) ==> SortedByHeight(after, txs))
  {
  }

  /** `after` gives the listed transactions the heights `before` gave them, except that those
      named in `ids` have height `height`. */
  ghost predicate HeightsSet(before: map<TxId, Tx>, after: map<TxId, Tx>, txs: seq<TxBody>, ids: set<TxId>, height: nat)
  {
    && Known(before, txs) && Known(after, txs)
    && forall b :: b in txs ==> HeightOf(after, b) == if Id(b) in ids then height else HeightOf(before, b)
  }

  /** Equal members keep every height bound and every association with the wallet. */
  lemma {:induction false} StaysGood(before: map<TxId, Tx>, own: set<Pkh>, txs: seq<TxBody>, after: map<TxId, Tx>, resorted: seq<TxBody>)
    requires GoodList(before, own, txs) && SameBodies(before, own, after)
    requires multiset(txs) == multiset(resorted)
    requires Known(after, resorted) && Distinct(resorted) && SortedByHeight(after, resorted)
    requires forall b :: b in resorted ==> HeightOf(after, b) <= TX_UNCONFIRMED
    ensures GoodList(after, own, resorted)
  {
    SameMembers(txs, resorted);
    forall b | b in resorted
      ensures IsWalletTx(after, own, b)
    {
      WalletTxsRemain(before, own, after, b);
    }
  }

  /** Setting the height of a wallet transaction and re-sorting it. */
  lemma {:induction false} ReheightMine(all: map<TxId, Tx>, own: set<Pkh>, txs: seq<TxBody>, id: TxId, height: nat, timestamp: nat,
                     resorted: seq<TxBody>)
    requires GoodList(all, own, txs) && id in all && height <= TX_UNCONFIRMED
    requires multiset(txs) == multiset(resorted) && Distinct(resorted)
    requires var after := Reheighted(all, id, height, timestamp);
             && Known(after, resorted) && SortedByHeight(after, resorted)
             && (height < TX_UNCONFIRMED ==> Known(after, txs) && KeepsOrder(txs, resorted, UnconfirmedIn(after, txs)))
    ensures var after := Reheighted(all, id, height, timestamp);
            && GoodList(after, own, resorted) && SameBodies(all, own, after)
            && HeightsSet(all, after, resorted, {id}, height)
            && (height < TX_UNCONFIRMED ==> KeepsOrder(txs, resorted, UnconfirmedIn(after, resorted)))
  {
    var after := Reheighted(all, id, height, timestamp);
    SameMembers(txs, resorted);
    assert HeightsSet(all, after, resorted, {id}, height);
    StaysGood(all, own, txs, after, resorted);
  }

  lemma {:induction false} ListIsKnown(all: map<TxId, Tx>, own: set<Pkh>, txs: seq<TxBody>)
    requires GoodList(all, own, txs)
    ensures Known(all, txs)
  {
  }

  /** The state of the updating loop when the transactions `done` have been updated. */
  ghost predicate Updated(all: map<TxId, Tx>, own: set<Pkh>, was: seq<TxBody>, after: map<TxId, Tx>, txs: seq<TxBody>,
                          done: set<TxId>, height: nat) {
    && SameBodies(all, own, after) && multiset(txs) == multiset(was) && HeightsSet(all, after, txs, done, height)
    && (height < TX_UNCONFIRMED ==> KeepsOrder(was, txs, UnconfirmedIn(after, txs)))
  }

  lemma {:induction false} NothingUpdated(all: map<TxId, Tx>, own: set<Pkh>, was: seq<TxBody>, height: nat)
    requires Known(all, was)
    ensures Updated(all, own, was, all, was, {}, height)
  {
  }

  lemma {:induction false} OneMoreUpdated(all: map<TxId, Tx>, own: set<Pkh>, was: seq<TxBody>, mid: map<TxId, Tx>, list: seq<TxBody>,
                       after: map<TxId, Tx>, resorted: seq<TxBody>, done: set<TxId>, id: TxId, height: nat)
    requires Updated(all, own, was, mid, list, done, height) && Updated(mid, own, list, after, resorted, {id}, height)
    ensures Updated(all, own, was, after, resorted, done + {id}, height)
  {
    hide SameBodies;
    hide HeightsSet;
    hide KeepsOrder;
    hide UnconfirmedIn;
    UpdateComposes(all, own, was, mid, list, after, resorted, done, id, height);
  }

  // ---- What an update sets ----

  predicate Changes(all: map<TxId, Tx>, id: TxId, height: nat, timestamp: nat) {
    id in all && (all[id].blockHeight != height || all[id].timestamp != timestamp)
  }

  /** A foreign transaction that is confirmed is forgotten. */
  predicate IsForgotten(all: map<TxId, Tx>, own: set<Pkh>, id: TxId, height: nat, timestamp: nat) {
    Changes(all, id, height, timestamp) && height != TX_UNCONFIRMED && !IsWalletTx(all, own, all[id].body)
  }

  /** The registered transactions, the named ones with the height and time. */
  function AllSet(all: map<TxId, Tx>, own: set<Pkh>, ids: set<TxId>, height: nat, timestamp: nat): map<TxId, Tx> {
    map id | id in all && !(id in ids && IsForgotten(all, own, id, height, timestamp)) ::
      if id in ids then all[id].(blockHeight := height, timestamp := timestamp) else all[id]
  }

  /** A named transaction of the wallet gets another height or time. */
  predicate IsUpdated(all: map<TxId, Tx>, own: set<Pkh>, id: TxId, height: nat, timestamp: nat) {
    Changes(all, id, height, timestamp) && IsWalletTx(all, own, all[id].body)
  }

  lemma {:induction false} AllSetKeepsBodies(all: map<TxId, Tx>, own: set<Pkh>, ids: set<TxId>, height: nat, timestamp: nat)
    requires KeyedByHash(all)
    ensures SameBodies(all, own, AllSet(all, own, ids, height, timestamp))
  {
    hide IsWalletTx;
  }

  /** Setting one more after others is setting all of them, and a repeated one changes nothing. */
  lemma {:induction false} SetOneMore(all: map<TxId, Tx>, own: set<Pkh>, done: set<TxId>, id: TxId, height: nat, timestamp: nat)
    requires KeyedByHash(all)
    ensures var mid := AllSet(all, own, done, height, timestamp);
            && AllSet(mid, own, {id}, height, timestamp) == AllSet(all, own, done + {id}, height, timestamp)
            && (IsUpdated(mid, own, id, height, timestamp) <==> id !in done && IsUpdated(all, own, id, height, timestamp))
  {
    var mid := AllSet(all, own, done, height, timestamp);
    AllSetKeepsBodies(all, own, done, height, timestamp);
    forall k | k in mid
      ensures IsWalletTx(mid, own, mid[k].body) <==> IsWalletTx(all, own, all[k].body)
    {
      WalletTxsRemain(all, own, mid, all[k].body);
    }
    hide IsWalletTx;
    hide SameBodies;
  }

  /** Setting a single transaction. */
  lemma {:induction false} SetOne(all: map<TxId, Tx>, own: set<Pkh>, id: TxId, height: nat, timestamp: nat)
    ensures var after := AllSet(all, own, {id}, height, timestamp);
            && (!Changes(all, id, height, timestamp) ==> after == all && !IsUpdated(all, own, id, height, timestamp))
            && (Changes(all, id, height, timestamp) ==>
                  if IsWalletTx(all, own, all[id].body)
                  then IsUpdated(all, own, id, height, timestamp) && after == Reheighted(all, id, height, timestamp)
                  else && !IsUpdated(all, own, id, height, timestamp)
                       && after == if height != TX_UNCONFIRMED then all - {id} else Reheighted(all, id, height, timestamp))
  {
    hide IsWalletTx;
  }

  lemma {:induction false} SetNone(all: map<TxId, Tx>, own: set<Pkh>, height: nat, timestamp: nat)
    ensures AllSet(all, own, {}, height, timestamp) == all
  {
  }

  function IdsOf(hashes: seq<TxId>): set<TxId> {
    set id | id in hashes
  }

  lemma {:induction false} IdsGrow(hashes: seq<TxId>, i: nat)
    requires i < |hashes|
    ensures IdsOf(hashes[..i + 1]) == IdsOf(hashes[..i]) + {hashes[i]}
  {
    assert hashes[..i + 1] == hashes[..i] + [hashes[i]];
  }

  /** One more turn of the updating loop, on top of the turns already taken. */
  lemma {:induction false} UpdateComposes(all: map<TxId, Tx>, own: set<Pkh>, was: seq<TxBody>, mid: map<TxId, Tx>, list: seq<TxBody>,
                       after: map<TxId, Tx>, resorted: seq<TxBody>, done: set<TxId>, id: TxId, height: nat)
    requires SameBodies(all, own, mid) && SameBodies(mid, own, after)
    requires multiset(was) == multiset(list) == multiset(resorted)
    requires HeightsSet(all, mid, list, done, height) && HeightsSet(mid, after, resorted, {id}, height)
    requires height < TX_UNCONFIRMED ==>
               && KeepsOrder(was, list, UnconfirmedIn(mid, list))
               && KeepsOrder(list, resorted, UnconfirmedIn(after, resorted))
    ensures SameBodies(all, own, after)
    ensures HeightsSet(all, after, resorted, done + {id}, height)
    ensures height < TX_UNCONFIRMED ==> KeepsOrder(was, resorted, UnconfirmedIn(after, resorted))
  {
    SameMembers(list, resorted);
    forall gone | gone in all && gone !in after
      ensures !IsWalletTx(all, own, all[gone].body)
    {
      if gone in mid {
        assert all[gone].Hash() == mid[gone].Hash();
        WalletTxsRemain(all, own, mid, mid[gone].body);
      }
    }
  }

  /** Confirming listed transactions none of which was invalid needs no recomputation. */
  lemma {:induction false} NothingStale(c: Context, was: seq<TxBody>, d: Context, txs: seq<TxBody>,
                     all: map<TxId, Tx>, after: map<TxId, Tx>, ids: set<TxId>, height: nat)
    requires height < TX_UNCONFIRMED && HeightsSet(all, after, txs, ids, height)
    requires multiset(was) == multiset(txs) && Known(all, was) && Distinct(was) && Distinct(txs)
    requires SortedByHeight(all, was) && forall b :: b in was ==> HeightOf(all, b) <= TX_UNCONFIRMED
    requires c.own == d.own && c.blockHeight <= d.blockHeight && c.now <= d.now
    requires c.unconfirmed == UnconfirmedIn(all, was) && d.unconfirmed == UnconfirmedIn(after, txs)
    requires KeepsOrder(was, txs, UnconfirmedIn(after, txs))
    requires Replay(c, was).pending == {}
    requires forall b :: b in txs && Id(b) in ids && HeightOf(all, b) != height ==> Id(b) !in Replay(c, was).invalid
    ensures SameView(Replay(c, was), Replay(d, txs))
  {
    SameMembers(was, txs);
    assert Confirmed(c, was, d, txs);
    ConfirmingChangesNothing(c, was, d, txs);
  }

  /** Setting the height of a transaction foreign to the wallet, and dropping it if confirmed. */
  lemma {:induction false} ReheightForeign(all: map<TxId, Tx>, own: set<Pkh>, txs: seq<TxBody>, id: TxId, height: nat, timestamp: nat,
                        after: map<TxId, Tx>)
    requires GoodList(all, own, txs) && id in all && !IsWalletTx(all, own, all[id].body)
    requires after == Reheighted(all, id, height, timestamp) || after == Reheighted(all, id, height, timestamp) - {id}
    ensures all[id].body !in txs
    ensures GoodList(after, own, txs) && SameBodies(all, own, after) && HeightsSet(all, after, txs, {id}, height)
  {
    assert all[id].Hash() == id;
    assert SameBodies(all, own, after);
    StaysGood(all, own, txs, after, txs);
  }

  /** No listed transaction is at a lower height than what it spends. */
  ghost predicate SpendersAbove(all: map<TxId, Tx>, txs: seq<TxBody>)
    requires Known(all, txs)
  {
    forall b, id :: b in txs && id in all && Spends(b, id) ==> all[id].blockHeight <= HeightOf(all, b)
  }

  /** What is left of the list `was` after the closures `gone` of some spenders of `id` went. */
  ghost predicate Partly(all: map<TxId, Tx>, was: seq<TxBody>, id: TxId, left: seq<TxBody>, gone: set<TxBody>)
    requires Known(all, was)
  {
    && (forall b :: b in left ==> b in was)
    && (SpendersAbove(all, was) ==>
          left == Without(was, gone) && ClosedUnderSpending(was, gone) && gone <= Closure(was, id))
  }

  /** One more spender's closure went. */
  lemma {:induction false} OneMoreGone(all: map<TxId, Tx>, was: seq<TxBody>, id: TxId, left: seq<TxBody>, gone: set<TxBody>,
                    d: TxId, after: seq<TxBody>)
    requires Known(all, was) && Known(all, left) && Partly(all, was, id, left, gone)
    requires d.Id? && d.body in was && Spends(d.body, id)
    requires forall b :: b in after ==> b in left
    requires SpendersAbove(all, left) ==> after == Without(left, Closure(left, d))
    ensures Partly(all, was, id, after, gone + Closure(was, d))
  {
    if SpendersAbove(all, was) {
      SpendersStayAbove(all, was, left);
      ClosuresAddUp(was, gone, d);
      ClosureGrows(was, d.body, id);
    }
  }

  /** The transaction itself goes last. */
  lemma {:induction false} AllGone(all: map<TxId, Tx>, was: seq<TxBody>, id: TxId, left: seq<TxBody>, gone: set<TxBody>, after: seq<TxBody>)
    requires Known(all, was) && Known(all, left) && Partly(all, was, id, left, gone)
    requires SpendersAbove(all, left) ==> after == Without(left, Closure(left, id))
    ensures SpendersAbove(all, was) ==> after == Without(was, Closure(was, id))
  {
    if SpendersAbove(all, was) {
      SpendersStayAbove(all, was, left);
      ClosuresAddUp(was, gone, id);
      assert gone + Closure(was, id) == Closure(was, id);
    }
  }

  lemma {:induction false} SpendersStayAbove(all: map<TxId, Tx>, txs: seq<TxBody>, left: seq<TxBody>)
    requires Known(all, txs) && SpendersAbove(all, txs) && forall b :: b in left ==> b in txs
    ensures SpendersAbove(all, left)
  {
  }

  lemma {:induction false} SublistIsGood(all: map<TxId, Tx>, own: set<Pkh>, txs: seq<TxBody>, gone: set<TxBody>)
    requires GoodList(all, own, txs)
    ensures GoodList(all, own, Without(txs, gone))
  {
    WithoutExactly(txs, gone);
    var left := Without(txs, gone);
    forall i, j | 0 <= i < j < |left|
      ensures HeightOf(all, left[i]) <= HeightOf(all, left[j])
    {
      assert Before(left, left[i], left[j]);
      assert Before(txs, left[i], left[j]);
    }
  }

  /** The heights once every transaction confirmed above `height` is unconfirmed again. */
  ghost predicate UnconfirmedAfter(before: map<TxId, Tx>, after: map<TxId, Tx>, txs: seq<TxBody>, height: nat) {
    && Known(before, txs) && Known(after, txs)
    && forall b :: b in txs ==>
         HeightOf(after, b) == if HeightOf(before, b) > height then TX_UNCONFIRMED else HeightOf(before, b)
  }

  /** Nothing but heights differs, and those only of listed transactions. */
  ghost predicate OnlyHeights(before: map<TxId, Tx>, after: map<TxId, Tx>, txs: seq<TxBody>) {
    && after.Keys == before.Keys
    && (forall id :: id in before ==> after[id].body == before[id].body && after[id].timestamp == before[id].timestamp)
    && (forall id :: id in before && !(id.Id? && id.body in txs) ==> after[id] == before[id])
  }

  /** A newly registered transaction fits into the list where the insertion sort puts it. */
  lemma {:induction false} RegisteringIsGood(all: map<TxId, Tx>, own: set<Pkh>, txs: seq<TxBody>, tx: Tx,
                          internal: seq<Pkh>, external: seq<Pkh>)
    requires GoodList(all, own, txs) && tx.blockHeight <= TX_UNCONFIRMED && tx.Hash() !in all
    ensures var after := all[tx.Hash() := tx];
            && GoodList(after, own, txs)
            && var listed := InsertedAt(txs, InsertAt(after, internal, external, txs, tx), tx.body);
            && (IsWalletTx(all, own, tx.body) ==> GoodList(after, own, listed))
            && multiset(listed) == multiset(txs) + multiset{tx.body}
            && (forall x, y :: Before(txs, x, y) ==> Before(listed, x, y))
  {
    var after := all[tx.Hash() := tx];
    forall b | IsWalletTx(all, own, b)
      ensures IsWalletTx(after, own, b)
    {
      RegisteringKeepsWalletTx(all, own, tx, b);
    }
    InsertSeparates(after, internal, external, txs, tx);
    var p := InsertAt(after, internal, external, txs, tx);
    InsertedIsSorted(after, txs, p, tx.body);
    var listed := InsertedAt(txs, p, tx.body);
    InsertedMembers(txs, p, tx.body);
  }

  lemma {:induction false} RegisteringKeepsWalletTx(all: map<TxId, Tx>, own: set<Pkh>, tx: Tx, b: TxBody)
    requires IsWalletTx(all, own, b) && tx.Hash() !in all
    ensures IsWalletTx(all[tx.Hash() := tx], own, b)
  {
    if !PaysWallet(own, b) {
      var j :| 0 <= j < |b.inputs| && SpendsWallet(all, own, b.inputs[j]);
      assert SpendsWallet(all[tx.Hash() := tx], own, b.inputs[j]);
    }
  }

  lemma {:induction false} NewIsNotListed(all: map<TxId, Tx>, txs: seq<TxBody>, tx: Tx)
    requires Known(all, txs) && tx.Hash() !in all
    ensures tx.body !in txs && Known(all[tx.Hash() := tx], txs)
  {
  }

  /** New addresses disown no listed transaction. */
  lemma {:induction false} MoreAddressesKeepGood(all: map<TxId, Tx>, own: set<Pkh>, more: set<Pkh>, txs: seq<TxBody>)
    requires GoodList(all, own, txs) && own <= more
    ensures GoodList(all, more, txs)
  {
    forall b | b in txs
      ensures IsWalletTx(all, more, b)
    {
      if PaysWallet(own, b) {
        var j :| 0 <= j < |b.outputs| && IsOwned(own, b, j);
        assert IsOwned(more, b, j);
      } else {
        var j :| 0 <= j < |b.inputs| && SpendsWallet(all, own, b.inputs[j]);
        assert SpendsWallet(all, more, b.inputs[j]);
      }
    }
  }

  lemma {:induction false} InsertedMembers(txs: seq<TxBody>, p: nat, b: TxBody)
    requires p <= |txs|
    ensures var listed := InsertedAt(txs, p, b);
            && multiset(listed) == multiset(txs) + multiset{b}
            && (forall x :: x in listed <==> x in txs || x == b)
            && (Distinct(txs) && b !in txs ==> Distinct(listed))
            && (forall x, y :: Before(txs, x, y) ==> Before(listed, x, y))
  {
    var listed := InsertedAt(txs, p, b);
    assert txs == txs[..p] + txs[p..];
    assert listed == txs[..p] + [b] + txs[p..];
    forall x
      ensures x in listed <==> x in txs || x == b
    {
      assert x in txs <==> x in txs[..p] || x in txs[p..];
    }
    forall x, y | Before(txs, x, y)
      ensures Before(listed, x, y)
    {
      var i, j :| 0 <= i < j < |txs| && txs[i] == x && txs[j] == y;
      InsertedKeepsBefore(txs, p, b, i, j);
    }
  }

  /** A direct spender's closure is part of the closure. */
  lemma {:induction false} ClosureGrows(txs: seq<TxBody>, d: TxBody, id: TxId)
    requires d in txs && Spends(d, id)
    ensures Closure(txs, Id(d)) <= Closure(txs, id)
  {
    forall b | b in Closure(txs, Id(d))
      ensures b in Closure(txs, id)
    {
      if Id(b) != Id(d) {
        DependenceChains(txs, txs, b, d, id);
      }
    }
  }

  /** Removing the one entry of an unspent transaction removes its closure. */
  lemma {:induction false} RemovedAlone(all: map<TxId, Tx>, txs: seq<TxBody>, id: TxId, k: nat)
    requires Distinct(txs) && k <= |txs|
    requires forall m :: k <= m < |txs| ==> Id(txs[m]) != id
    requires k > 0 ==> Id(txs[k - 1]) == id
    ensures (forall d :: d in txs ==> !Spends(d, id)) ==>
              Without(txs, Closure(txs, id)) == if k > 0 then txs[..k - 1] + txs[k..] else txs
  {
    if forall d :: d in txs ==> !Spends(d, id) {
      ClosureOfUnspent(txs, id);
      if k > 0 {
        WithoutOne(txs, k - 1);
        assert Closure(txs, id) == {txs[k - 1]};
      } else {
        WithoutNothing(txs, Closure(txs, id));
      }
    }
  }

  /** In a sorted list, unconfirming the tail above `height` unconfirms exactly what is above it. */
  lemma {:induction false} TailUnconfirmed(all: map<TxId, Tx>, own: set<Pkh>, txs: seq<TxBody>, after: map<TxId, Tx>, i: nat, height: nat)
    requires GoodList(all, own, txs) && Known(after, txs) && SameBodies(all, own, after) && i <= |txs|
    requires i > 0 ==> HeightOf(all, txs[i - 1]) <= height
    requires forall k :: i <= k < |txs| ==> HeightOf(all, txs[k]) > height && HeightOf(after, txs[k]) == TX_UNCONFIRMED
    requires forall k :: 0 <= k < i ==> HeightOf(after, txs[k]) == HeightOf(all, txs[k])
    ensures GoodList(after, own, txs) && UnconfirmedAfter(all, after, txs, height)
    ensures i == |txs| ==> forall b :: b in txs ==> HeightOf(all, b) <= height
  {
    assert forall k :: 0 <= k < i ==> HeightOf(all, txs[k]) <= height;
    forall b | b in txs
      ensures HeightOf(after, b) == if HeightOf(all, b) > height then TX_UNCONFIRMED else HeightOf(all, b)
    {
      var k :| 0 <= k < |txs| && txs[k] == b;
    }
    StaysGood(all, own, txs, after, txs);
  }

  lemma {:induction false} SweepStep(us: seq<OutPoint>, spent: set<OutPoint>, j: nat)
    requires j < |us|
    ensures Kept(us[j..], spent) == (if us[j] in spent then [] else [us[j]]) + Kept(us[j + 1..], spent)
    ensures SweptAmount(us[j..], spent)
         == (if us[j] in spent then Amount(us[j]) else 0) + SweptAmount(us[j + 1..], spent)
  {
    assert us[j..][1..] == us[j + 1..];
  }

  lemma {:induction false} NothingSwept(us: seq<OutPoint>, spent: set<OutPoint>)
    ensures us[..|us|] + Kept(us[|us|..], spent) == us && SweptAmount(us[|us|..], spent) == 0
  {
  }

  lemma {:induction false} OwnedStep(own: set<Pkh>, b: TxBody, j: nat)
    requires j < |b.outputs|
    ensures Owned(own, b, j + 1) == Owned(own, b, j) + (if IsOwned(own, b, j) then [OutPoint(Id(b), j)] else [])
    ensures Amounts(Owned(own, b, j + 1))
         == Amounts(Owned(own, b, j)) + (if IsOwned(own, b, j) then b.outputs[j].amount else 0)
    ensures OwnedPkhs(own, b, j + 1)
         == OwnedPkhs(own, b, j) + (if IsOwned(own, b, j) then {b.outputs[j].pkh.value} else {})
  {
    var before := Owned(own, b, j);
    var u := OutPoint(Id(b), j);
    assert (before + [u])[..|before|] == before;
  }

  lemma {:induction false} SettleFields(own: set<Pkh>, l: Ledger, spent: set<OutPoint>, b: TxBody, m: Ledger, owned: seq<OutPoint>)
    requires owned == Owned(own, b, |b.outputs|)
    requires m.spent == spent && m.invalid == l.invalid && m.pending == l.pending
    requires m.used == l.used + OwnedPkhs(own, b, |b.outputs|)
    requires m.utxos == Kept(l.utxos + owned, spent)
    requires m.balance == l.balance + Amounts(owned) - SweptAmount(l.utxos + owned, spent)
    requires m.received == l.received + (if l.balance < m.balance then m.balance - l.balance else 0)
    requires m.sent == l.sent + (if m.balance < l.balance then l.balance - m.balance else 0)
    requires m.hist == l.hist + [m.balance]
    ensures m == Settle(own, l, spent, b)
  {
  }

  /** What was spent before does not matter to settling: the new spent set is given. */
  lemma {:induction false} SettleIgnoresSpent(own: set<Pkh>, l: Ledger, m: Ledger, spent: set<OutPoint>, b: TxBody)
    requires m == l.(spent := m.spent)
    ensures Settle(own, m, spent, b) == Settle(own, l, spent, b)
  {
  }

  /** Whether a transaction conflicts does not depend on the balances. */
  lemma {:induction false} ConflictsIgnoreBalance(l: Ledger, m: Ledger, b: TxBody)
    requires l.spent == m.spent && l.invalid == m.invalid
    ensures Conflicts(l, b) <==> Conflicts(m, b)
  {
    assert forall j :: 0 <= j < |b.inputs| ==> (InputConflicts(l, b.inputs[j]) <==> InputConflicts(m, b.inputs[j]));
  }

  // ---- The object ----

  /** From position `i` on the elements have moved up by one. */
  predicate IsShifted<T(==)>(s: seq<T>, was: seq<T>, i: nat) {
    && i <= |was| && |s| == |was| + 1
    && (forall k :: 0 <= k < i ==> s[k] == was[k]) && (forall k :: i <= k < |was| ==> s[k + 1] == was[k])
  }

  lemma {:induction false} Shifted<T>(s: seq<T>, was: seq<T>, x: T)
    requires s == was + [x]
    ensures IsShifted(s, was, |was|) && was[..|was|] == was
  {
  }

  lemma {:induction false} ShiftOneMore<T>(s: seq<T>, was: seq<T>, i: nat)
    requires IsShifted(s, was, i) && i > 0
    ensures s[i - 1] == was[i - 1] && IsShifted(s[i := s[i - 1]], was, i - 1)
  {
  }

  class Wallet {
    var allTx: map<TxId, Tx>
    var transactions: seq<TxBody>
    var utxos: seq<OutPoint>
    var balanceHist: seq<int>
    var spentOutputs: set<OutPoint>
    var invalidTx: set<TxId>
    var pendingTx: set<TxId>
    var usedPKH: set<Pkh>
    var balance: nat
    var totalSent: nat
    var totalReceived: nat
    var allPKH: set<Pkh>
    var internalChain: seq<Pkh>
    var externalChain: seq<Pkh>
    var blockHeight: nat

    /** The caches, given the value of the running balance. */
    function Caches(bal: int): Ledger
      reads this`spentOutputs, this`invalidTx, this`pendingTx, this`usedPKH, this`utxos,
            this`totalReceived, this`totalSent, this`balanceHist
    {
      Ledger(spentOutputs, invalidTx, pendingTx, usedPKH, utxos, bal, totalReceived, totalSent, balanceHist)
    }

    function ContextAt(now: nat): Context
      requires Known(allTx, transactions)
      reads this`allTx, this`transactions, this`allPKH, this`blockHeight
    {
      Context(allPKH, UnconfirmedIn(allTx, transactions), blockHeight, now)
    }

    /** The loop over inputs that looks for a conflict. */
    method FindConflict(b: TxBody) returns (isInvalid: bool)
      ensures isInvalid <==> Conflicts(Caches(0), b)
    {
      var j := 0;
      isInvalid := false;
      while !isInvalid && j < |b.inputs|
        invariant 0 <= j <= |b.inputs|
        invariant isInvalid <==> exists m :: 0 <= m < j && InputConflicts(Caches(0), b.inputs[m])
      {
        if b.inputs[j].prev in spentOutputs || b.inputs[j].prev.txHash in invalidTx {
          isInvalid := true;
        }
        assert isInvalid <==> InputConflicts(Caches(0), b.inputs[j]);
        j := j + 1;
      }
    }

    method FindPending(b: TxBody, now: nat) returns (isPending: bool)
      requires Known(allTx, transactions)
      ensures isPending <==> IsPending(ContextAt(now), pendingTx, b)
    {
      ghost var c := ContextAt(now);
      isPending := b.vsize > TX_MAX_SIZE;
      var j := 0;
      while !isPending && j < |b.outputs|
        invariant 0 <= j <= |b.outputs|
        invariant isPending <==>
                  b.vsize > TX_MAX_SIZE || exists m :: 0 <= m < j && b.outputs[m].amount < TX_MIN_OUTPUT_AMOUNT
      {
        if b.outputs[j].amount < TX_MIN_OUTPUT_AMOUNT {
          isPending := true;
        }
        j := j + 1;
      }
      ghost var early := isPending;
      assert early <==> b.vsize > TX_MAX_SIZE || HasDust(b);
      j := 0;
      while !isPending && j < |b.inputs|
        invariant 0 <= j <= |b.inputs|
        invariant isPending <==> early || exists m :: 0 <= m < j && InputPending(c, pendingTx, b, b.inputs[m])
      {
        var input := b.inputs[j];
        if input.sequence < SEQUENCE_FINAL - 1 { isPending := true; }
        if input.sequence < SEQUENCE_FINAL && b.lockTime < TX_MAX_LOCK_HEIGHT && b.lockTime > blockHeight + 1 {
          isPending := true;
        }
        if input.sequence < SEQUENCE_FINAL && b.lockTime > now { isPending := true; }
        if input.prev.txHash in pendingTx { isPending := true; }
        assert isPending <==> InputPending(c, pendingTx, b, b.inputs[j]);
        j := j + 1;
      }
    }

    /** Appends the outputs of `b` that pay the wallet to the UTXO list. */
    method AddOutputs(b: TxBody, balance0: int) returns (bal: int)
      modifies this`utxos, this`usedPKH
      ensures utxos == old(utxos) + Owned(allPKH, b, |b.outputs|)
      ensures usedPKH == old(usedPKH) + OwnedPkhs(allPKH, b, |b.outputs|)
      ensures bal == balance0 + Amounts(Owned(allPKH, b, |b.outputs|))
    {
      bal := balance0;
      var j := 0;
      while j < |b.outputs|
        invariant 0 <= j <= |b.outputs|
        invariant utxos == old(utxos) + Owned(allPKH, b, j)
        invariant usedPKH == old(usedPKH) + OwnedPkhs(allPKH, b, j)
        invariant bal == balance0 + Amounts(Owned(allPKH, b, j))
      {
        OwnedStep(allPKH, b, j);
        var pkh := b.outputs[j].pkh;
        if pkh.Some? && pkh.value in allPKH {
          usedPKH := usedPKH + {pkh.value};
          utxos := utxos + [OutPoint(Id(b), j)];
          bal := bal + b.outputs[j].amount;
        }
        j := j + 1;
      }
    }

    /** Checks the whole UTXO list against the whole spent set, from the end. */
    method SweepSpent(balance0: int) returns (bal: int)
      requires balance0 == Amounts(utxos)
      requires Resolvable(allTx, utxos)
      modifies this`utxos
      ensures utxos == Kept(old(utxos), spentOutputs)
      ensures bal == balance0 - SweptAmount(old(utxos), spentOutputs)
      ensures bal == Amounts(utxos)
    {
      hide Kept;
      hide SweptAmount;
      hide Amounts;
      ghost var was := utxos;
      bal := balance0;
      var j := |utxos|;
      NothingSwept(was, spentOutputs);
      while j > 0
        invariant 0 <= j <= |was|
        invariant utxos == was[..j] + Kept(was[j..], spentOutputs)
        invariant bal == balance0 - SweptAmount(was[j..], spentOutputs)
      {
        SweepStep(was, spentOutputs, j - 1);
        assert was[..j] == was[..j - 1] + [was[j - 1]];
        assert was[j - 1] in was;
        if utxos[j - 1] in spentOutputs {
          var t := allTx[utxos[j - 1].txHash];
          bal := bal - t.body.outputs[utxos[j - 1].n].amount;
          utxos := utxos[..j - 1] + utxos[j..];
        }
        j := j - 1;
      }
      SweepSplits(was, spentOutputs);
      assert was[0..] == was;
    }

    method AddSpent(b: TxBody)
      modifies this`spentOutputs
      ensures spentOutputs == old(spentOutputs) + Inputs(b)
    {
      var j := 0;
      while j < |b.inputs|
        invariant 0 <= j <= |b.inputs|
        invariant spentOutputs == old(spentOutputs) + set m | 0 <= m < j :: b.inputs[m].prev
      {
        spentOutputs := spentOutputs + {b.inputs[j].prev};
        j := j + 1;
      }
    }

    /** Books the change of balance one transaction made. */
    method Book(bal: nat, prevBalance: nat)
      modifies this`totalReceived, this`totalSent, this`balanceHist
      ensures totalReceived == old(totalReceived) + (if prevBalance < bal then bal - prevBalance else 0)
      ensures totalSent == old(totalSent) + (if bal < prevBalance then prevBalance - bal else 0)
      ensures balanceHist == old(balanceHist) + [bal]
    {
      if prevBalance < bal { totalReceived := totalReceived + (bal - prevBalance); }
      if bal < prevBalance { totalSent := totalSent + (prevBalance - bal); }
      balanceHist := balanceHist + [bal];
    }

    method AddAndSweep(b: TxBody, balance0: nat) returns (bal: nat)
      requires balance0 == Amounts(utxos)
      requires Resolvable(allTx, utxos + Owned(allPKH, b, |b.outputs|))
      modifies this`usedPKH, this`utxos
      ensures utxos == Kept(old(utxos) + Owned(allPKH, b, |b.outputs|), spentOutputs)
      ensures bal == balance0 + Amounts(Owned(allPKH, b, |b.outputs|))
                     - SweptAmount(old(utxos) + Owned(allPKH, b, |b.outputs|), spentOutputs)
      ensures usedPKH == old(usedPKH) + OwnedPkhs(allPKH, b, |b.outputs|)
    {
      AmountsConcat(utxos, Owned(allPKH, b, |b.outputs|));
      var grown := AddOutputs(b, balance0);
      bal := SweepSpent(grown);
    }

    /** Adds the outputs of a transaction that is neither invalid nor pending. */
    method SettleOne(b: TxBody, balance0: nat, prevBalance: nat, ghost l: Ledger) returns (bal: nat)
      requires l == Caches(balance0) && prevBalance == balance0 == Amounts(utxos)
      requires Resolvable(allTx, utxos + Owned(allPKH, b, |b.outputs|))
      modifies this`usedPKH, this`utxos, this`totalReceived, this`totalSent, this`balanceHist
      ensures Caches(bal) == Settle(allPKH, l, spentOutputs, b)
    {
      bal := AddAndSweep(b, balance0);
      Book(bal, prevBalance);
      SettleFields(allPKH, l, spentOutputs, b, Caches(bal), Owned(allPKH, b, |b.outputs|));
    }

    /** One turn of the recomputation loop. */
    method ReplayOne(b: TxBody, now: nat, balance0: nat, prevBalance: nat, ghost c: Context, ghost l: Ledger)
      returns (bal: nat)
      requires Known(allTx, transactions) && b in transactions
      requires c == ContextAt(now) && l == Caches(balance0) && prevBalance == balance0 == Amounts(utxos)
      requires Resolvable(allTx, utxos)
      modifies this`spentOutputs, this`invalidTx, this`pendingTx, this`usedPKH, this`utxos,
               this`totalReceived, this`totalSent, this`balanceHist
      ensures Caches(bal) == Step(c, l, b)
    {
      hide Settle;
      hide Conflicts;
      hide IsPending;
      hide Owned;
      bal := balance0;
      var tx := allTx[Id(b)];
      assert b in c.unconfirmed <==> tx.blockHeight == TX_UNCONFIRMED;
      if tx.blockHeight == TX_UNCONFIRMED {
        var isInvalid := FindConflict(b);
        ConflictsIgnoreBalance(Caches(0), l, b);
        if isInvalid {
          invalidTx := invalidTx + {Id(b)};
          balanceHist := balanceHist + [bal];
          return;
        }
      }
      AddSpent(b);
      if tx.blockHeight == TX_UNCONFIRMED {
        var isPending := FindPending(b, now);
        if isPending {
          pendingTx := pendingTx + {Id(b)};
          balanceHist := balanceHist + [bal];
          return;
        }
      }
      OwnedNamesItsTx(allPKH, b, |b.outputs|);
      SettleIgnoresSpent(allPKH, l, Caches(bal), spentOutputs, b);
      bal := SettleOne(b, bal, prevBalance, Caches(bal));
    }

    /** The recomputation computes exactly the replay of the transaction list. */
    method UpdateBalance(now: nat)
      requires Known(allTx, transactions)
      modifies this`spentOutputs, this`invalidTx, this`pendingTx, this`usedPKH, this`utxos,
               this`totalReceived, this`totalSent, this`balanceHist, this`balance
      ensures Caches(balance) == Replay(ContextAt(now), transactions)
    {
      hide Step;
      hide Kept;
      hide Amounts;
      hide UnconfirmedIn;
      utxos, balanceHist := [], [];
      spentOutputs, invalidTx, pendingTx, usedPKH := {}, {}, {}, {};
      totalSent, totalReceived := 0, 0;
      var bal, prevBalance: nat := 0, 0;
      ghost var c := ContextAt(now);
      var i := 0;
      while i < |transactions|
        invariant 0 <= i <= |transactions|
        invariant c == ContextAt(now)
        invariant Caches(bal) == Replay(c, transactions[..i])
        invariant prevBalance == bal
      {
        BalanceIsConserved(c, transactions[..i]);
        UtxosAreListed(c, transactions[..i]);
        ReplayStep(c, transactions, i);
        bal := ReplayOne(transactions[i], now, bal, prevBalance, c, Caches(bal));
        prevBalance := bal;
        i := i + 1;
      }
      assert transactions[..i] == transactions;
      balance := bal;
    }

    ghost predicate Valid()
      reads this
    {
      GoodList(allTx, allPKH, transactions)
    }

    /** The caches hold what a recomputation at time `now` would compute, up to the order of
        the UTXO list. */
    ghost predicate AgreesAt(now: nat)
      requires Known(allTx, transactions)
      reads this
    {
      SameView(Caches(balance), Replay(ContextAt(now), transactions))
    }

    /** Insertion sort of one transaction into the list. */
    method InsertTx(b: TxBody)
      requires Known(allTx, transactions) && Id(b) in allTx
      modifies this`transactions
      ensures transactions == InsertedAt(old(transactions),
        InsertAt(allTx, internalChain, externalChain, old(transactions), allTx[Id(b)]), b)
    {
      hide InsertAt;
      hide IsAscending;
      hide ChainIndex;
      hide Compare;
      ghost var was := transactions;
      var tx := allTx[Id(b)];
      var i := |transactions|;
      transactions := transactions + [b];
      Shifted(transactions, was, b);
      while i > 0 && Compare(allTx, internalChain, externalChain, allTx[Id(transactions[i - 1])], tx) > 0
        invariant 0 <= i <= |was| && IsShifted(transactions, was, i)
        invariant InsertAt(allTx, internalChain, externalChain, was, tx)
               == InsertAt(allTx, internalChain, externalChain, was[..i], tx)
      {
        InsertEarlier(allTx, internalChain, externalChain, was, i, tx);
        ShiftOneMore(transactions, was, i);
        transactions := transactions[i := transactions[i - 1]];
        i := i - 1;
      }
      InsertHere(allTx, internalChain, externalChain, was, i, tx);
      transactions := transactions[i := b];
    }

    method ContainsTx(b: TxBody) returns (r: bool)
      ensures r <==> IsWalletTx(allTx, allPKH, b)
    {
      r := false;
      var i := 0;
      while !r && i < |b.outputs|
        invariant 0 <= i <= |b.outputs|
        invariant r <==> exists j :: 0 <= j < i && IsOwned(allPKH, b, j)
      {
        r := b.outputs[i].pkh.Some? && b.outputs[i].pkh.value in allPKH;
        assert r <==> IsOwned(allPKH, b, i);
        i := i + 1;
      }
      ghost var pays := r;
      assert pays <==> PaysWallet(allPKH, b);
      i := 0;
      while !r && i < |b.inputs|
        invariant 0 <= i <= |b.inputs|
        invariant r <==> pays || exists j :: 0 <= j < i && SpendsWallet(allTx, allPKH, b.inputs[j])
      {
        var prev := b.inputs[i].prev;
        if prev.txHash in allTx {
          var t := allTx[prev.txHash];
          r := prev.n < |t.body.outputs| && t.body.outputs[prev.n].pkh.Some?
               && t.body.outputs[prev.n].pkh.value in allPKH;
        }
        assert r <==> SpendsWallet(allTx, allPKH, b.inputs[i]);
        i := i + 1;
      }
    }

    /** Removes a listed transaction that got a new height and sorts it in again. */
    method Resort(b: TxBody)
      requires Known(allTx, transactions) && Distinct(transactions) && Id(b) in allTx
      requires forall k :: 0 <= k < |transactions| && transactions[k] == b ==> SortedExcept(allTx, transactions, k)
      requires b !in transactions ==> SortedByHeight(allTx, transactions)
      modifies this`transactions
      ensures multiset(transactions) == multiset(old(transactions))
      ensures Known(allTx, transactions) && Distinct(transactions) && SortedByHeight(allTx, transactions)
      ensures HeightOf(allTx, b) < TX_UNCONFIRMED ==>
                KeepsOrder(old(transactions), transactions, UnconfirmedIn(allTx, old(transactions)))
    {
      var k := FindLast(b);
      if k > 0 {
        hide Moved;
        hide SortedByHeight;
        hide KeepsOrder;
        hide UnconfirmedIn;
        hide SortedExcept;
        hide Known;
        MovedIsGood(allTx, internalChain, externalChain, transactions, k - 1);
        MoveTx(k - 1);
      }
    }

    /** The loop that looks for a transaction from the end of the list. */
    method FindLast(b: TxBody) returns (k: nat)
      ensures k <= |transactions|
      ensures b !in transactions[k..] && if k > 0 then transactions[k - 1] == b else b !in transactions
    {
      k := |transactions|;
      while k > 0 && transactions[k - 1] != b
        invariant 0 <= k <= |transactions|
        invariant b !in transactions[k..]
      {
        k := k - 1;
      }
    }

    /** Takes one transaction out of the list and sorts it in again. */
    method MoveTx(k: nat)
      requires Known(allTx, transactions) && k < |transactions|
      modifies this`transactions
      ensures transactions == Moved(allTx, internalChain, externalChain, old(transactions), k)
    {
      hide InsertAt;
      var b := transactions[k];
      transactions := transactions[..k] + transactions[k + 1..];
      InsertTx(b);
    }

    /** One turn of the loop that sets block heights and timestamps. `relevant` tells whether
        the wallet reports the transaction, `stale` whether the caches must be recomputed. */
    method UpdateOne(id: TxId, height: nat, timestamp: nat) returns (relevant: bool, stale: bool)
      requires Valid() && height <= TX_UNCONFIRMED
      modifies this`allTx, this`transactions
      ensures Valid() && Updated(old(allTx), allPKH, old(transactions), allTx, transactions, {id}, height)
      ensures Known(old(allTx), old(transactions)) && multiset(transactions) == multiset(old(transactions))
      ensures allTx == AllSet(old(allTx), allPKH, {id}, height, timestamp)
      ensures relevant <==> IsUpdated(old(allTx), allPKH, id, height, timestamp)
      ensures stale ==> relevant
      ensures id.Id? && id.body in old(transactions) && HeightOf(old(allTx), id.body) != height ==>
                relevant && (stale <==> id in pendingTx || id in invalidTx)
    {
      hide AllSet;
      hide IsUpdated;
      relevant, stale := false, false;
      SetOne(allTx, allPKH, id, height, timestamp);
      if id !in allTx || (allTx[id].blockHeight == height && allTx[id].timestamp == timestamp) {
        return;
      }
      var b := allTx[id].body;
      ghost var all, was := allTx, transactions;
      ReheightedIsSorted(allTx, transactions, id, height, timestamp);
      allTx := Reheighted(allTx, id, height, timestamp);
      assert SameBodies(all, allPKH, allTx);
      WalletTxsRemain(all, allPKH, allTx, b);
      var mine := ContainsTx(b);
      if mine {
        Resort(b);
        ReheightMine(all, allPKH, was, id, height, timestamp, transactions);
        relevant := true;
        stale := id in pendingTx || id in invalidTx;
      } else {
        if height != TX_UNCONFIRMED {
          allTx := allTx - {id};
        }
        ReheightForeign(all, allPKH, was, id, height, timestamp, allTx);
      }
    }

    /** The loop that sets block heights and timestamps. */
    method UpdateEach(hashes: seq<TxId>, height: nat, timestamp: nat) returns (updated: seq<TxId>, needsUpdate: bool)
      requires Valid() && height <= TX_UNCONFIRMED
      modifies this`allTx, this`transactions
      ensures Valid() && Updated(old(allTx), allPKH, old(transactions), allTx, transactions, IdsOf(hashes), height)
      ensures !needsUpdate ==> NoneStale(old(allTx), transactions, IdsOf(hashes), height)
      ensures allTx == AllSet(old(allTx), allPKH, IdsOf(hashes), height, timestamp)
      ensures Distinct(updated)
      ensures forall id :: id in updated <==> id in IdsOf(hashes) && IsUpdated(old(allTx), allPKH, id, height, timestamp)
    {
      hide Updated;
      hide AllSet;
      hide IsUpdated;
      hide GoodList;
      ghost var all, was := allTx, transactions;
      ListIsKnown(all, allPKH, was);
      NothingUpdated(all, allPKH, was, height);
      updated, needsUpdate := [], false;
      SetNone(all, allPKH, height, timestamp);
      var i := 0;
      assert IdsOf(hashes[..i]) == {};
      while i < |hashes|
        invariant 0 <= i <= |hashes| && Valid()
        invariant Updated(all, allPKH, was, allTx, transactions, IdsOf(hashes[..i]), height)
        invariant !needsUpdate ==> NoneStale(all, transactions, IdsOf(hashes[..i]), height)
        invariant allTx == AllSet(all, allPKH, IdsOf(hashes[..i]), height, timestamp)
        invariant Distinct(updated)
        invariant forall id :: id in updated <==> id in IdsOf(hashes[..i]) && IsUpdated(all, allPKH, id, height, timestamp)
      {
        hide IdsOf;
        SetOneMore(all, allPKH, IdsOf(hashes[..i]), hashes[i], height, timestamp);
        ghost var mid, list := allTx, transactions;
        var relevant, stale := UpdateOne(hashes[i], height, timestamp);
        if relevant { updated := updated + [hashes[i]]; }
        if stale { needsUpdate := true; }
        OneMoreUpdated(all, allPKH, was, mid, list, allTx, transactions, IdsOf(hashes[..i]), hashes[i], height);
        IdsGrow(hashes, i);
        if !needsUpdate {
          StillNoneStale(all, mid, was, list, IdsOf(hashes[..i]), hashes[i], height);
        }
        i := i + 1;
      }
      assert hashes[..i] == hashes;
    }

    lemma {:induction false} StillNoneStale(all: map<TxId, Tx>, mid: map<TxId, Tx>, was: seq<TxBody>, list: seq<TxBody>,
                                            done: set<TxId>, id: TxId, height: nat)
      requires Updated(all, allPKH, was, mid, list, done, height) && NoneStale(all, list, done, height)
      requires Known(mid, list) && multiset(list) == multiset(transactions)
      requires id.Id? && id.body in list && HeightOf(mid, id.body) != height ==> !(id in pendingTx || id in invalidTx)
      ensures NoneStale(all, transactions, done + {id}, height)
    {
      hide KeepsOrder;
      hide UnconfirmedIn;
      hide SameBodies;
      SameMembers(list, transactions);
    }

    /** No listed transaction in `ids` that really changed height was invalid or pending. */
    ghost predicate NoneStale(before: map<TxId, Tx>, txs: seq<TxBody>, ids: set<TxId>, height: nat)
      reads this`pendingTx, this`invalidTx
    {
      forall b :: b in txs && Id(b) in ids && Id(b) in before && HeightOf(before, b) != height ==>
        Id(b) !in pendingTx && Id(b) !in invalidTx
    }

    /** Sets the block heights and timestamps of the given transactions. When the caches were
        up to date and nothing was pending, confirming transactions leaves them up to date,
        whether or not they are recomputed. */
    method UpdateTransactions(hashes: seq<TxId>, height: nat, timestamp: nat, now: nat) returns (updated: seq<TxId>)
      requires Valid() && height <= TX_UNCONFIRMED
      modifies this`blockHeight, this`allTx, this`transactions, this`spentOutputs, this`invalidTx, this`pendingTx, this`usedPKH, this`utxos,
               this`totalReceived, this`totalSent, this`balanceHist, this`balance
      ensures Valid() && SameBodies(old(allTx), allPKH, allTx)
      ensures blockHeight == if height > old(blockHeight) then height else old(blockHeight)
      ensures multiset(transactions) == multiset(old(transactions))
      ensures HeightsSet(old(allTx), allTx, transactions, IdsOf(hashes), height)
      ensures allTx == AllSet(old(allTx), allPKH, IdsOf(hashes), height, timestamp)
      ensures Distinct(updated)
      ensures forall id :: id in updated <==> id in IdsOf(hashes) && IsUpdated(old(allTx), allPKH, id, height, timestamp)
      ensures forall t: nat :: (t <= now && height < TX_UNCONFIRMED && old(AgreesAt(t)) && old(pendingTx) == {}) ==>
                AgreesAt(now)
    {
      hide AllSet;
      hide IsUpdated;
      ghost var all, was, l := allTx, transactions, Caches(balance);
      ghost var height0 := blockHeight;
      if height > blockHeight { blockHeight := height; }
      var needsUpdate;
      updated, needsUpdate := UpdateEach(hashes, height, timestamp);
      if needsUpdate {
        UpdateBalance(now);
      } else {
        ghost var d := ContextAt(now);
        forall t: nat | t <= now && height < TX_UNCONFIRMED && old(AgreesAt(t)) && old(pendingTx) == {}
          ensures AgreesAt(now)
        {
          var c := Context(allPKH, UnconfirmedIn(all, was), height0, t);
          assert SameView(l, Replay(c, was));
          NothingStale(c, was, d, transactions, all, allTx, IdsOf(hashes), height);
        }
      }
    }

    /** An empty wallet whose address chains have been generated. */
    constructor (internal: seq<Pkh>, external: seq<Pkh>)
      ensures Valid() && transactions == [] && allTx == map[] && blockHeight == 0
      ensures internalChain == internal && externalChain == external
      ensures allPKH == (set k | k in internal) + (set k | k in external)
      ensures forall now :: AgreesAt(now)
    {
      allTx, transactions, utxos, balanceHist := map[], [], [], [];
      spentOutputs, invalidTx, pendingTx, usedPKH := {}, {}, {}, {};
      balance, totalSent, totalReceived, blockHeight := 0, 0, 0, 0;
      internalChain, externalChain := internal, external;
      allPKH := (set k | k in internal) + (set k | k in external);
    }

    method AddTx(tx: Tx)
      requires Valid() && tx.blockHeight <= TX_UNCONFIRMED && tx.Hash() !in allTx
      requires IsWalletTx(allTx, allPKH, tx.body)
      modifies this`allTx, this`transactions
      ensures Valid() && allTx == old(allTx)[tx.Hash() := tx]
      ensures multiset(transactions) == multiset(old(transactions)) + multiset{tx.body}
      ensures forall x, y :: Before(old(transactions), x, y) ==> Before(transactions, x, y)
      ensures BehindSpent(allTx, transactions, tx.body)
    {
      NewIsNotListed(allTx, transactions, tx);
      InsertedBehindSpent(allTx[tx.Hash() := tx], internalChain, externalChain, transactions, tx.body);
      hide BehindSpent;
      RegisteringIsGood(allTx, allPKH, transactions, tx, internalChain, externalChain);
      allTx := allTx[tx.Hash() := tx];
      InsertTx(tx.body);
    }

    /** Adds a transaction that belongs to the wallet; keeps track of unconfirmed ones that do not. */
    method RegisterTransaction(tx: Tx, now: nat) returns (r: bool)
      requires Valid() && tx.blockHeight <= TX_UNCONFIRMED
      modifies this`allTx, this`transactions, this`spentOutputs, this`invalidTx, this`pendingTx, this`usedPKH, this`utxos,
               this`totalReceived, this`totalSent, this`balanceHist, this`balance
      ensures Valid()
      ensures r <==> tx.Hash() in old(allTx) || IsWalletTx(old(allTx), allPKH, tx.body)
      ensures if tx.Hash() !in old(allTx) && (r || tx.blockHeight == TX_UNCONFIRMED)
              then allTx == old(allTx)[tx.Hash() := tx] else allTx == old(allTx)
      ensures if tx.Hash() !in old(allTx) && r
              then multiset(transactions) == multiset(old(transactions)) + multiset{tx.body}
                   && (forall x, y :: Before(old(transactions), x, y) ==> Before(transactions, x, y))
                   && Caches(balance) == Replay(ContextAt(now), transactions)
                   && BehindSpent(allTx, transactions, tx.body)
              else unchanged(this`transactions)
    {
      hide BehindSpent;
      hide IsWalletTx;
      hide InsertAt;
      hide Replay;
      hide SortedByHeight;
      hide UnconfirmedIn;
      hide Distinct;
      r := true;
      if tx.Hash() in allTx { return; }
      var mine := ContainsTx(tx.body);
      RegisteringIsGood(allTx, allPKH, transactions, tx, internalChain, externalChain);
      if mine {
        AddTx(tx);
        UpdateBalance(now);
      } else {
        if tx.blockHeight == TX_UNCONFIRMED { allTx := allTx[tx.Hash() := tx]; }
        r := false;
      }
    }

    /** New addresses are generated at the ends of the chains. The caches are left as they are. */
    method GrowChains(internal: seq<Pkh>, external: seq<Pkh>)
      requires Valid()
      modifies this`internalChain, this`externalChain, this`allPKH
      ensures Valid() && internalChain == old(internalChain) + internal && externalChain == old(externalChain) + external
      ensures allPKH == old(allPKH) + (set k | k in internal) + (set k | k in external)
    {
      internalChain, externalChain := internalChain + internal, externalChain + external;
      var grown := allPKH + (set k | k in internal) + (set k | k in external);
      MoreAddressesKeepGood(allTx, allPKH, grown, transactions);
      allPKH := grown;
    }

    /** Unconfirms the tail of the list that lies above `height`; the loop stops at the first
        transaction at or below it. */
    method UnconfirmTail(height: nat) returns (count: nat)
      requires Valid()
      modifies this`allTx
      ensures Valid() && OnlyHeights(old(allTx), allTx, transactions)
      ensures UnconfirmedAfter(old(allTx), allTx, transactions, height)
      ensures count == 0 ==> forall b :: b in transactions ==> HeightOf(old(allTx), b) <= height
    {
      var i := |transactions|;
      while i > 0 && allTx[Id(transactions[i - 1])].blockHeight > height
        invariant 0 <= i <= |transactions|
        invariant forall k :: i <= k < |transactions| ==> HeightOf(allTx, transactions[k]) > height
      {
        i := i - 1;
      }
      count := |transactions| - i;
      ghost var all := allTx;
      UnconfirmFrom(i);
      TailUnconfirmed(all, allPKH, transactions, allTx, i, height);
    }

    method UnconfirmFrom(i: nat)
      requires Known(allTx, transactions) && Distinct(transactions) && i <= |transactions|
      modifies this`allTx
      ensures Known(allTx, transactions) && SameBodies(old(allTx), allPKH, allTx) && OnlyHeights(old(allTx), allTx, transactions)
      ensures forall k :: i <= k < |transactions| ==> HeightOf(allTx, transactions[k]) == TX_UNCONFIRMED
      ensures forall k :: 0 <= k < i ==> HeightOf(allTx, transactions[k]) == HeightOf(old(allTx), transactions[k])
    {
      ghost var all := allTx;
      var count := |transactions| - i;
      var j := 0;
      while j < count
        invariant 0 <= j <= count
        invariant Known(allTx, transactions) && SameBodies(all, allPKH, allTx) && OnlyHeights(all, allTx, transactions)
        invariant forall k :: i <= k < i + j ==> HeightOf(allTx, transactions[k]) == TX_UNCONFIRMED
        invariant forall k :: 0 <= k < i ==> HeightOf(allTx, transactions[k]) == HeightOf(all, transactions[k])
      {
        var id := Id(transactions[i + j]);
        allTx := allTx[id := allTx[id].(blockHeight := TX_UNCONFIRMED)];
        j := j + 1;
      }
    }

    /** Marks every transaction confirmed above `height` as unconfirmed. */
    method SetTxUnconfirmedAfter(height: nat, now: nat)
      requires Valid()
      modifies this`blockHeight, this`allTx, this`spentOutputs, this`invalidTx, this`pendingTx, this`usedPKH, this`utxos,
               this`totalReceived, this`totalSent, this`balanceHist, this`balance
      ensures Valid() && OnlyHeights(old(allTx), allTx, transactions) && blockHeight == height
      ensures UnconfirmedAfter(old(allTx), allTx, transactions, height)
      ensures (exists b :: b in transactions && HeightOf(old(allTx), b) > height) ==>
                Caches(balance) == Replay(ContextAt(now), transactions)
    {
      hide OnlyHeights;
      blockHeight := height;
      var count := UnconfirmTail(height);
      if count > 0 { UpdateBalance(now); }
    }

    /** The listed transactions that spend `id`, looked for from the end of the list down to
        the height of the transaction itself. */
    method FindSpenders(id: TxId) returns (hashes: seq<TxId>)
      requires Valid() && id in allTx
      ensures forall h :: h in hashes ==> h.Id? && h.body in transactions && Spends(h.body, id)
      ensures SpendersAbove(allTx, transactions) ==>
                forall b :: b in transactions && Spends(b, id) ==> Id(b) in hashes
    {
      hashes := [];
      var tx := allTx[id];
      var i := |transactions|;
      while i > 0
        invariant 0 <= i <= |transactions|
        invariant forall h :: h in hashes ==> h.Id? && h.body in transactions && Spends(h.body, id)
        invariant forall k :: i <= k < |transactions| && Spends(transactions[k], id) ==> Id(transactions[k]) in hashes
      {
        var t := transactions[i - 1];
        if allTx[Id(t)].blockHeight < tx.blockHeight { break; }
        i := i - 1;
        if Id(t) == id {
          assert Spends(t, id) ==> DependsOn([], t, Id(t));
          if Spends(t, id) { DependentsAreDeeper([], t, t); }
          continue;
        }
        var found := false;
        var j := 0;
        while !found && j < |t.inputs|
          invariant 0 <= j <= |t.inputs|
          invariant found <==> exists m :: 0 <= m < j && t.inputs[m].prev.txHash == id
        {
          found := t.inputs[j].prev.txHash == id;
          j := j + 1;
        }
        if found { hashes := hashes + [Id(t)]; }
      }
    }

    /** Removes the one entry of a transaction no dependent was found for. */
    method RemoveEntry(id: TxId)
      requires Valid() && id in allTx
      modifies this`transactions
      ensures Valid() && allTx[id].body !in transactions
      ensures forall b :: b in transactions ==> b in old(transactions)
      ensures (forall d :: d in old(transactions) ==> !Spends(d, id)) ==>
                transactions == Without(old(transactions), Closure(old(transactions), id))
    {
      hide SortedByHeight;
      hide IsWalletTx;
      hide Closure;
      hide Without;
      ghost var was := transactions;
      var k := FindLast(allTx[id].body);
      assert forall m :: k <= m < |was| ==> was[m] == was[k..][m - k];
      RemovedAlone(allTx, was, id, k);
      if k > 0 {
        WithoutOne(was, k - 1);
        SublistIsGood(allTx, allPKH, was, {was[k - 1]});
        WithoutExactly(was, {was[k - 1]});
        transactions := transactions[..k - 1] + transactions[k..];
      }
    }

    /** Removes a transaction together with everything that depends on its outputs. It stops
        whatever the list holds; the removed set is exact when no spender is listed below
        the height of what it spends. */
    method RemoveTransaction(id: TxId, now: nat)
      requires Valid()
      modifies this`transactions, this`spentOutputs, this`invalidTx, this`pendingTx, this`usedPKH, this`utxos,
               this`totalReceived, this`totalSent, this`balanceHist, this`balance
      ensures Valid()
      ensures forall b :: b in transactions ==> b in old(transactions)
      ensures id !in allTx ==> transactions == old(transactions)
      ensures id in allTx ==>
                allTx[id].body !in transactions && Caches(balance) == Replay(ContextAt(now), transactions)
      ensures id in allTx && old(SpendersAbove(allTx, transactions)) ==>
                transactions == Without(old(transactions), Closure(old(transactions), id))
      decreases Dependents(transactions, id), 1
    {
      if id !in allTx { return; }
      var hashes := FindSpenders(id);
      if |hashes| > 0 {
        ghost var all, was := allTx, transactions;
        ghost var gone := RemoveSpenders(id, hashes, now);
        assert hashes[0] in hashes;
        SpenderGone(transactions, was, hashes[0].body, id);
        ghost var left := transactions;
        RemoveTransaction(id, now);
        AllGone(all, was, id, left, gone, transactions);
      } else {
        RemoveEntry(id);
        UpdateBalance(now);
      }
    }

    /** Removes the direct spenders that were found, last found first. */
    method RemoveSpenders(id: TxId, hashes: seq<TxId>, now: nat) returns (ghost gone: set<TxBody>)
      requires Valid() && hashes != []
      requires forall h :: h in hashes ==> h.Id? && h.body in transactions && Spends(h.body, id)
      modifies this`transactions, this`spentOutputs, this`invalidTx, this`pendingTx, this`usedPKH, this`utxos,
               this`totalReceived, this`totalSent, this`balanceHist, this`balance
      ensures Valid() && Partly(allTx, old(transactions), id, transactions, gone)
      ensures hashes[0].body !in transactions
      decreases Dependents(transactions, id), 0
    {
      ghost var all, was, left := allTx, transactions, transactions;
      gone := {};
      WithoutNothing(was, gone);
      var i := |hashes|;
      while i > 0
        invariant 0 <= i <= |hashes|
        invariant Valid() && left == transactions
        invariant Partly(all, was, id, left, gone)
        invariant i < |hashes| ==> hashes[i].body !in transactions
      {
        var d := hashes[i - 1];
        assert d in hashes && all[d].Hash() == d;
        FewerDependents(transactions, was, d.body, id);
        RemoveTransaction(d, now);
        OneMoreGone(all, was, id, left, gone, d, transactions);
        left, gone := transactions, gone + Closure(was, d);
        i := i - 1;
      }
    }
  }
}
