/**
 * The address chains of a wallet and the generation of unused addresses ahead
 * of the last used one. Deriving the key hash number n of a chain is an
 * abstract function, which may fail.
 */
module AddressChain {
  import opened Wrappers
  import opened Bitcoin

  /** The position after the last used address, 0 if none is used. */
  function AfterLastUsed(chain: seq<Pkh>, used: set<Pkh>): (i: nat)
    ensures i <= |chain|
    ensures i > 0 ==> chain[i - 1] in used
    ensures forall k :: i <= k < |chain| ==> chain[k] !in used
  {
    if |chain| == 0 || chain[|chain| - 1] in used then |chain|
    else AfterLastUsed(chain[..|chain| - 1], used)
  }

  /** The chain ends in at least `gap` addresses that were never used. */
  predicate HasGap(chain: seq<Pkh>, used: set<Pkh>, gap: nat) {
    AfterLastUsed(chain, used) + gap <= |chain|
  }

  function Members(chain: seq<Pkh>): set<Pkh> {
    set k | k in chain
  }

  lemma {:induction false} LastUsedOfGrown(chain: seq<Pkh>, used: set<Pkh>, key: Pkh)
    ensures AfterLastUsed(chain + [key], used) ==
      if key in used then |chain| + 1 else AfterLastUsed(chain, used)
  {
    assert (chain + [key])[..|chain|] == chain;
  }

  /** The chain holds what derivation gives, number by number. */
  predicate Derived(derive: nat -> Option<Pkh>, chain: seq<Pkh>) {
    forall k :: 0 <= k < |chain| ==> derive(k) == Some(chain[k])
  }

  ghost predicate Injective(derive: nat -> Option<Pkh>) {
    forall j: nat, k: nat :: derive(j).Some? && derive(j) == derive(k) ==> j == k
  }

  lemma {:induction false} NewKeyIsNew(derive: nat -> Option<Pkh>, chain: seq<Pkh>, key: Pkh)
    requires Injective(derive) && Derived(derive, chain) && derive(|chain|) == Some(key)
    ensures key !in chain
  {
  }

  lemma {:induction false} DerivedGrows(derive: nat -> Option<Pkh>, chain: seq<Pkh>, key: Pkh)
    requires Derived(derive, chain) && derive(|chain|) == Some(key)
    ensures Derived(derive, chain + [key])
  {
  }

  /** What a chain has become: longer by as little as it takes, or until derivation failed. */
  predicate Extends(derive: nat -> Option<Pkh>, before: seq<Pkh>, after: seq<Pkh>, used: set<Pkh>, gap: nat) {
    && before <= after && Derived(derive, after)
    && (HasGap(after, used, gap) || derive(|after|).None?)
    && forall m :: |before| <= m < |after| ==> !HasGap(after[..m], used, gap)
  }

  lemma {:induction false} DerivedAgree(derive: nat -> Option<Pkh>, a: seq<Pkh>, b: seq<Pkh>)
    requires Derived(derive, a) && Derived(derive, b)
    ensures |a| <= |b| ==> b[..|a|] == a
  {
    forall k | 0 <= k < |a| && k < |b|
      ensures a[k] == b[k]
    {
      assert derive(k) == Some(a[k]);
    }
  }

  /** What is generated is determined by the chain before and the used addresses. */
  lemma {:induction false} GenerationIsUnique(derive: nat -> Option<Pkh>, before: seq<Pkh>, a: seq<Pkh>, b: seq<Pkh>,
                                              used: set<Pkh>, gap: nat)
    requires Extends(derive, before, a, used, gap) && Extends(derive, before, b, used, gap)
    ensures a == b
  {
    DerivedAgree(derive, a, b);
    DerivedAgree(derive, b, a);
  }

  /** A second generation with the same used addresses adds nothing. */
  lemma {:induction false} GeneratingAgainAddsNothing(derive: nat -> Option<Pkh>, before: seq<Pkh>, after: seq<Pkh>, again: seq<Pkh>,
                                                     used: set<Pkh>, gap: nat)
    requires Extends(derive, before, after, used, gap) && Extends(derive, after, again, used, gap)
    ensures again == after
  {
    GenerationIsUnique(derive, after, after, again, used, gap);
  }

  lemma {:induction false} StillNoGap(before: seq<Pkh>, chain: seq<Pkh>, key: Pkh, used: set<Pkh>, gap: nat)
    requires |before| <= |chain| && !HasGap(chain, used, gap)
    requires forall m :: |before| <= m < |chain| ==> !HasGap(chain[..m], used, gap)
    ensures forall m :: |before| <= m < |chain| + 1 ==> !HasGap((chain + [key])[..m], used, gap)
  {
    hide HasGap;
    forall m | |before| <= m < |chain| + 1
      ensures !HasGap((chain + [key])[..m], used, gap)
    {
      assert (chain + [key])[..m] == chain[..m];
      assert m == |chain| ==> chain[..m] == chain;
    }
  }

  lemma {:induction false} MembersOfGrown(before: seq<Pkh>, after: seq<Pkh>)
    requires before <= after
    ensures Members(after) == Members(before) + Members(after[|before|..])
  {
    assert after == before + after[|before|..];
  }

  lemma {:induction false} OneKeyMore(chain: seq<Pkh>, key: Pkh, used: set<Pkh>)
    requires key !in chain
    ensures if key in used then used - Members(chain + [key]) < used - Members(chain)
            else used - Members(chain + [key]) == used - Members(chain)
  {
    assert Members(chain + [key]) == Members(chain) + {key};
    if key in used {
      assert key in used - Members(chain);
    }
  }

  class Addresses {
    var internalChain: seq<Pkh>
    var externalChain: seq<Pkh>
    var allPKH: set<Pkh>
    var usedPKH: set<Pkh>
    const deriveInternal: nat -> Option<Pkh>
    const deriveExternal: nat -> Option<Pkh>

    /** The set of all addresses is what the two chains hold. */
    ghost predicate Valid()
      reads this
    {
      && Derived(deriveInternal, internalChain) && Derived(deriveExternal, externalChain)
      && allPKH == Members(internalChain) + Members(externalChain)
    }

    constructor (deriveInternal: nat -> Option<Pkh>, deriveExternal: nat -> Option<Pkh>)
      ensures Valid() && internalChain == externalChain == [] && usedPKH == {}
      ensures this.deriveInternal == deriveInternal && this.deriveExternal == deriveExternal
    {
      internalChain, externalChain, allPKH, usedPKH := [], [], {}, {};
      this.deriveInternal, this.deriveExternal := deriveInternal, deriveExternal;
    }

    /**
     * The loop that generates addresses. It ends because each new key hash either
     * is a used one that was not generated before, or narrows the gap.
     */
    method Generate(derive: nat -> Option<Pkh>, chain0: seq<Pkh>, gapLimit: nat) returns (chain: seq<Pkh>, i: nat)
      requires gapLimit > 0 && Derived(derive, chain0) && Injective(derive)
      ensures Extends(derive, chain0, chain, usedPKH, gapLimit) && chain0 <= chain && Derived(derive, chain)
      ensures i == AfterLastUsed(chain, usedPKH)
    {
      hide Members;
      hide Injective;
      chain := chain0;
      i := FindLastUsed(chain);
      while i + gapLimit > |chain|
        invariant chain0 <= chain && Derived(derive, chain) && i == AfterLastUsed(chain, usedPKH)
        invariant forall m :: |chain0| <= m < |chain| ==> !HasGap(chain[..m], usedPKH, gapLimit)
        decreases usedPKH - Members(chain), i + gapLimit - |chain|
      {
        hide AfterLastUsed;
        hide Derived;
        var key := derive(|chain|);
        if key.None? { break; }
        NewKeyIsNew(derive, chain, key.value);
        DerivedGrows(derive, chain, key.value);
        LastUsedOfGrown(chain, usedPKH, key.value);
        StillNoGap(chain0, chain, key.value, usedPKH, gapLimit);
        OneKeyMore(chain, key.value, usedPKH);
        chain := chain + [key.value];
        if key.value in usedPKH {
          i := |chain|;
        }
      }
    }

    /** The loop that keeps only the trailing addresses without transactions. */
    method FindLastUsed(chain: seq<Pkh>) returns (i: nat)
      ensures i == AfterLastUsed(chain, usedPKH)
    {
      i := |chain|;
      assert chain[..i] == chain;
      while i > 0 && chain[i - 1] !in usedPKH
        invariant i <= |chain| && AfterLastUsed(chain, usedPKH) == AfterLastUsed(chain[..i], usedPKH)
      {
        assert chain[..i][..i - 1] == chain[..i - 1];
        i := i - 1;
      }
    }

    /**
     * BRWalletUnusedAddrs. `moved` tells whether the grown chain moved to another
     * place in memory, which decides how the set of all addresses is brought up
     * to date; `wanted` whether there is a buffer for the addresses.
     */
    method UnusedAddrs(gapLimit: nat, internal: bool, wanted: bool, moved: bool) returns (addrs: seq<Pkh>)
      requires Valid() && gapLimit > 0
      requires Injective(if internal then deriveInternal else deriveExternal)
      modifies this`internalChain, this`externalChain, this`allPKH
      ensures Valid()
      ensures if internal then externalChain == old(externalChain) else internalChain == old(internalChain)
      ensures if internal then Extends(deriveInternal, old(internalChain), internalChain, usedPKH, gapLimit)
              else Extends(deriveExternal, old(externalChain), externalChain, usedPKH, gapLimit)
      ensures var chain := if internal then internalChain else externalChain;
        var i := AfterLastUsed(chain, usedPKH);
        addrs == if wanted && HasGap(chain, usedPKH, gapLimit) then chain[i..i + gapLimit] else []
    {
      hide AfterLastUsed;
      hide Injective;
      hide Derived;
      hide Members;
      var origChain := if internal then internalChain else externalChain;
      var chain, i := Generate(if internal then deriveInternal else deriveExternal, origChain, gapLimit);
      addrs := [];
      if wanted && i + gapLimit <= |chain| {
        addrs := CopyAddrs(chain, i, gapLimit);
      }
      if internal { internalChain := chain; } else { externalChain := chain; }
      MembersOfGrown(origChain, chain);
      if !moved {
        AddNew(chain, |origChain|);
      } else {
        Rebuild();
      }
    }

    method CopyAddrs(chain: seq<Pkh>, i: nat, gapLimit: nat) returns (addrs: seq<Pkh>)
      requires i + gapLimit <= |chain|
      ensures addrs == chain[i..i + gapLimit]
    {
      addrs := [];
      for j := 0 to gapLimit
        invariant addrs == chain[i..i + j]
      {
        addrs := addrs + [chain[i + j]];
      }
    }

    /** The set grows by the addresses that were just generated. */
    method AddNew(chain: seq<Pkh>, start: nat)
      requires start <= |chain|
      modifies this`allPKH
      ensures allPKH == old(allPKH) + Members(chain[start..])
    {
      for i := start to |chain|
        invariant allPKH == old(allPKH) + Members(chain[start..i])
      {
        assert chain[start..i + 1] == chain[start..i] + [chain[i]];
        allPKH := allPKH + {chain[i]};
      }
    }

    /** The set is cleared and both chains are added again. */
    method Rebuild()
      modifies this`allPKH
      ensures allPKH == Members(internalChain) + Members(externalChain)
    {
      allPKH := {};
      var i := |internalChain|;
      while i > 0
        invariant 0 <= i <= |internalChain| && allPKH == Members(internalChain[i..])
      {
        assert internalChain[i - 1..] == [internalChain[i - 1]] + internalChain[i..];
        allPKH := allPKH + {internalChain[i - 1]};
        i := i - 1;
      }
      i := |externalChain|;
      while i > 0
        invariant 0 <= i <= |externalChain| && allPKH == Members(internalChain) + Members(externalChain[i..])
      {
        assert externalChain[i - 1..] == [externalChain[i - 1]] + externalChain[i..];
        allPKH := allPKH + {externalChain[i - 1]};
        i := i - 1;
      }
    }
  }
}
