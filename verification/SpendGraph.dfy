/** Which listed transactions depend on another one, directly or through other listed
    transactions, and what is left of the list once they are gone. */
module SpendGraph {
  import opened Wrappers
  import opened Bitcoin
  import opened Ledger

  /** The listed transaction that the input spends. */
  predicate SpendsListed(txs: seq<TxBody>, input: TxIn) {
    input.prev.txHash.Id? && input.prev.txHash.body in txs
  }

  predicate DependsOn(txs: seq<TxBody>, b: TxBody, id: TxId)
    decreases b
  {
    || Spends(b, id)
    || exists j :: 0 <= j < |b.inputs| && SpendsListed(txs, b.inputs[j])
                   && DependsOn(txs, b.inputs[j].prev.txHash.body, id)
  }

  function Dependents(txs: seq<TxBody>, id: TxId): set<TxBody> {
    set b | b in txs && DependsOn(txs, b, id)
  }

  /** The transaction and everything listed that transitively spends it. */
  function Closure(txs: seq<TxBody>, id: TxId): set<TxBody> {
    set b | b in txs && (Id(b) == id || DependsOn(txs, b, id))
  }

  function Without(txs: seq<TxBody>, gone: set<TxBody>): seq<TxBody> {
    if txs == [] then []
    else if txs[0] in gone then Without(txs[1..], gone)
    else [txs[0]] + Without(txs[1..], gone)
  }

  /** Whatever spends a member is a member. */
  ghost predicate ClosedUnderSpending(txs: seq<TxBody>, s: set<TxBody>) {
    forall p, y :: p in s && p in txs && y in txs && Spends(y, Id(p)) ==> y in s
  }

  // ---- The order of the remaining list ----

  lemma {:induction false} WithoutExactly(txs: seq<TxBody>, gone: set<TxBody>)
    ensures forall b :: b in Without(txs, gone) <==> b in txs && b !in gone
    ensures Distinct(txs) ==> Distinct(Without(txs, gone))
    ensures forall x, y :: Before(Without(txs, gone), x, y) ==> Before(txs, x, y)
  {
    if txs != [] {
      WithoutExactly(txs[1..], gone);
      var rest := Without(txs[1..], gone);
      forall x, y | Before(Without(txs, gone), x, y)
        ensures Before(txs, x, y)
      {
        if txs[0] in gone {
          BeforeInTail(txs, x, y);
        } else {
          var i, j :| 0 <= i < j < 1 + |rest| && ([txs[0]] + rest)[i] == x && ([txs[0]] + rest)[j] == y;
          if i > 0 {
            assert rest[i - 1] == x && rest[j - 1] == y;
            BeforeInTail(txs, x, y);
          } else {
            assert y in rest;
            var k :| 0 <= k < |txs[1..]| && txs[1..][k] == y;
            assert txs[0] == x && txs[k + 1] == y;
          }
        }
      }
    }
  }

  lemma {:induction false} BeforeInTail<T>(s: seq<T>, x: T, y: T)
    requires s != [] && Before(s[1..], x, y)
    ensures Before(s, x, y)
  {
    var i, j :| 0 <= i < j < |s[1..]| && s[1..][i] == x && s[1..][j] == y;
    assert s[i + 1] == x && s[j + 1] == y;
  }

  lemma {:induction false} WithoutTwice(txs: seq<TxBody>, s: set<TxBody>, t: set<TxBody>, u: set<TxBody>)
    requires forall b :: b in txs ==> (b in u <==> b in s || b in t)
    ensures Without(Without(txs, s), t) == Without(txs, u)
  {
    if txs != [] {
      WithoutTwice(txs[1..], s, t, u);
    }
  }

  lemma {:induction false} WithoutNothing(txs: seq<TxBody>, gone: set<TxBody>)
    requires forall b :: b in txs ==> b !in gone
    ensures Without(txs, gone) == txs
  {
    if txs != [] {
      WithoutNothing(txs[1..], gone);
    }
  }

  lemma {:induction false} WithoutOne(txs: seq<TxBody>, k: nat)
    requires Distinct(txs) && k < |txs|
    ensures Without(txs, {txs[k]}) == txs[..k] + txs[k + 1..]
  {
    if k == 0 {
      WithoutNothing(txs[1..], {txs[0]});
    } else {
      WithoutOne(txs[1..], k - 1);
      assert txs[..k] + txs[k + 1..] == [txs[0]] + (txs[1..][..k - 1] + txs[1..][k..]);
    }
  }

  // ---- Dependence ----

  /** The length of the longest chain of spending behind a transaction. */
  function Ancestry(b: TxBody): nat
    decreases b, |b.inputs| + 1
  {
    AncestryOf(b, |b.inputs|)
  }

  function AncestryOf(b: TxBody, k: nat): nat
    requires k <= |b.inputs|
    decreases b, k
  {
    if k == 0 then 0
    else
      var rest := AncestryOf(b, k - 1);
      match b.inputs[k - 1].prev.txHash
      case Unknown(_) => rest
      case Id(p) => if Ancestry(p) + 1 > rest then Ancestry(p) + 1 else rest
  }

  lemma {:induction false} ParentIsShallower(b: TxBody, j: nat, k: nat)
    requires j < k <= |b.inputs| && b.inputs[j].prev.txHash.Id?
    ensures Ancestry(b.inputs[j].prev.txHash.body) < AncestryOf(b, k)
  {
    if j < k - 1 {
      ParentIsShallower(b, j, k - 1);
    }
  }

  /** Spending is acyclic. */
  lemma {:induction false} DependentsAreDeeper(txs: seq<TxBody>, b: TxBody, p: TxBody)
    requires DependsOn(txs, b, Id(p))
    ensures Ancestry(p) < Ancestry(b)
    decreases b
  {
    if Spends(b, Id(p)) {
      var j :| 0 <= j < |b.inputs| && b.inputs[j].prev.txHash == Id(p);
      ParentIsShallower(b, j, |b.inputs|);
    } else {
      var j :| 0 <= j < |b.inputs| && SpendsListed(txs, b.inputs[j])
               && DependsOn(txs, b.inputs[j].prev.txHash.body, Id(p));
      ParentIsShallower(b, j, |b.inputs|);
      DependentsAreDeeper(txs, b.inputs[j].prev.txHash.body, p);
    }
  }

  /** Dependence on a dependent is dependence, whatever else was in the list. */
  lemma {:induction false} DependenceChains(small: seq<TxBody>, txs: seq<TxBody>, b: TxBody, d: TxBody, id: TxId)
    requires forall x :: x in small ==> x in txs
    requires d in txs && Spends(d, id) && DependsOn(small, b, Id(d))
    ensures DependsOn(txs, b, id)
    decreases b
  {
    if Spends(b, Id(d)) {
      var j :| 0 <= j < |b.inputs| && b.inputs[j].prev.txHash == Id(d);
      assert SpendsListed(txs, b.inputs[j]) && DependsOn(txs, b.inputs[j].prev.txHash.body, id);
    } else {
      var j :| 0 <= j < |b.inputs| && SpendsListed(small, b.inputs[j])
               && DependsOn(small, b.inputs[j].prev.txHash.body, Id(d));
      DependenceChains(small, txs, b.inputs[j].prev.txHash.body, d, id);
      assert SpendsListed(txs, b.inputs[j]) && DependsOn(txs, b.inputs[j].prev.txHash.body, id);
    }
  }

  /** Removing a direct spender and its dependents first is a smaller task. */
  lemma {:induction false} FewerDependents(small: seq<TxBody>, txs: seq<TxBody>, d: TxBody, id: TxId)
    requires forall x :: x in small ==> x in txs
    requires d in txs && Spends(d, id)
    ensures Dependents(small, Id(d)) < Dependents(txs, id)
  {
    forall b | b in Dependents(small, Id(d))
      ensures b in Dependents(txs, id) && b != d
    {
      DependenceChains(small, txs, b, d, id);
      DependentsAreDeeper(small, b, d);
    }
    assert d in Dependents(txs, id);
  }

  lemma {:induction false} DependsMonotone(small: seq<TxBody>, txs: seq<TxBody>, b: TxBody, id: TxId)
    requires forall x :: x in small ==> x in txs
    requires DependsOn(small, b, id)
    ensures DependsOn(txs, b, id)
    decreases b
  {
    if !Spends(b, id) {
      var j :| 0 <= j < |b.inputs| && SpendsListed(small, b.inputs[j])
               && DependsOn(small, b.inputs[j].prev.txHash.body, id);
      DependsMonotone(small, txs, b.inputs[j].prev.txHash.body, id);
      assert SpendsListed(txs, b.inputs[j]) && DependsOn(txs, b.inputs[j].prev.txHash.body, id);
    }
  }

  /** With one direct spender gone from the list, fewer dependents are left. */
  lemma {:induction false} SpenderGone(small: seq<TxBody>, txs: seq<TxBody>, d: TxBody, id: TxId)
    requires forall x :: x in small ==> x in txs
    requires d in txs && d !in small && Spends(d, id)
    ensures Dependents(small, id) < Dependents(txs, id)
  {
    forall b | b in Dependents(small, id)
      ensures b in Dependents(txs, id)
    {
      DependsMonotone(small, txs, b, id);
    }
    assert d in Dependents(txs, id);
  }

  lemma {:induction false} ClosureIsClosed(txs: seq<TxBody>, id: TxId)
    ensures ClosedUnderSpending(txs, Closure(txs, id))
  {
    forall p, y | p in Closure(txs, id) && y in txs && Spends(y, Id(p))
      ensures y in Closure(txs, id)
    {
      if Id(p) != id {
        var j :| 0 <= j < |y.inputs| && y.inputs[j].prev.txHash == Id(p);
        assert SpendsListed(txs, y.inputs[j]) && DependsOn(txs, y.inputs[j].prev.txHash.body, id);
      }
    }
  }

  /** Outside a set closed under spending, dependence does not pass through it. */
  lemma {:induction false} DependsAvoids(txs: seq<TxBody>, s: set<TxBody>, y: TxBody, id: TxId)
    requires ClosedUnderSpending(txs, s) && y in txs && y !in s && DependsOn(txs, y, id)
    ensures DependsOn(Without(txs, s), y, id)
    decreases y
  {
    WithoutExactly(txs, s);
    if !Spends(y, id) {
      var j :| 0 <= j < |y.inputs| && SpendsListed(txs, y.inputs[j])
               && DependsOn(txs, y.inputs[j].prev.txHash.body, id);
      var p := y.inputs[j].prev.txHash.body;
      assert Spends(y, Id(p));
      DependsAvoids(txs, s, p, id);
      assert SpendsListed(Without(txs, s), y.inputs[j]);
    }
  }

  /** Removing one closure after another removes their union. */
  lemma {:induction false} ClosuresAddUp(txs: seq<TxBody>, s: set<TxBody>, id: TxId)
    requires ClosedUnderSpending(txs, s)
    ensures var left := Without(txs, s);
            Without(left, Closure(left, id)) == Without(txs, s + Closure(txs, id))
    ensures ClosedUnderSpending(txs, s + Closure(txs, id))
  {
    var left := Without(txs, s);
    WithoutExactly(txs, s);
    ClosureIsClosed(txs, id);
    forall b | b in txs
      ensures b in s + Closure(txs, id) <==> b in s || b in Closure(left, id)
    {
      if b in left && DependsOn(left, b, id) {
        DependsMonotone(left, txs, b, id);
      }
      if b in left && DependsOn(txs, b, id) {
        DependsAvoids(txs, s, b, id);
      }
    }
    WithoutTwice(txs, s, Closure(left, id), s + Closure(txs, id));
  }

  /** Where there are dependents there is a direct one. */
  lemma {:induction false} SomeoneSpends(txs: seq<TxBody>, b: TxBody, id: TxId) returns (d: TxBody)
    requires b in txs && DependsOn(txs, b, id)
    ensures d in txs && Spends(d, id)
    decreases b
  {
    if Spends(b, id) {
      d := b;
    } else {
      var j :| 0 <= j < |b.inputs| && SpendsListed(txs, b.inputs[j])
               && DependsOn(txs, b.inputs[j].prev.txHash.body, id);
      d := SomeoneSpends(txs, b.inputs[j].prev.txHash.body, id);
    }
  }

  /** A transaction nobody spends goes alone. */
  lemma {:induction false} ClosureOfUnspent(txs: seq<TxBody>, id: TxId)
    requires forall d :: d in txs ==> !Spends(d, id)
    ensures forall b :: b in txs ==> (b in Closure(txs, id) <==> Id(b) == id)
  {
    forall b | b in txs
      ensures !DependsOn(txs, b, id)
    {
      if DependsOn(txs, b, id) {
        var d := SomeoneSpends(txs, b, id);
      }
    }
  }
}
