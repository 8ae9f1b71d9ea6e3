/** Replacement fees of pending EVM transactions (omni-relayer/src/startup/evm_fee_bumping.rs). */
module FeeBump {
  import opened Arithmetic

  /** `minFeeIncreasePercent` is 64 bits wide, fees are 128. */
  datatype Config = Config(minFeeIncreasePercent: nat, maxFeeInWei: nat)

  datatype Fee = Fee(maxFee: nat, priorityFee: nat)

  datatype Decision = Bump(fee: Fee) | LowerThanOriginal | AboveCap

  function Multiplier(c: Config): nat { (100 + c.minFeeIncreasePercent) % (U64_MAX + 1) }

  /** The least fee that counts as an increase; the product wraps at 128 bits. */
  function MinFee(c: Config, fee: nat): nat { (fee * Multiplier(c)) % (U128_MAX + 1) / 100 }

  function ShouldBump(c: Config, original: Fee, suggested: Fee): Decision {
    if suggested.maxFee < original.maxFee then LowerThanOriginal
    else
      var fee := Fee(Max(MinFee(c, original.maxFee), suggested.maxFee),
                     Max(MinFee(c, original.priorityFee), suggested.priorityFee));
      if fee.maxFee > c.maxFeeInWei then AboveCap else Bump(fee)
  }

  /** The fee can be raised without leaving the machine's range; a caller can check this beforehand. */
  predicate Fits(c: Config, fee: nat) {
    100 + c.minFeeIncreasePercent <= U64_MAX && fee * (100 + c.minFeeIncreasePercent) <= U128_MAX
  }

  /** `fee` raised by the configured percentage, rounded down, over the integers. */
  function Raised(c: Config, fee: nat): nat { fee * (100 + c.minFeeIncreasePercent) / 100 }

  lemma FitsMonotone(c: Config, x: nat, y: nat)
    requires x <= y && Fits(c, y)
    ensures Fits(c, x)
  {
    ProductBound(x, 100 + c.minFeeIncreasePercent, y, 100 + c.minFeeIncreasePercent);
  }

  lemma SmallModulus(x: nat, w: nat)
    requires x < w
    ensures x % w == x
  {
  }

  /** A wrapped product has lost at least one width, which is more than a hundred. */
  lemma WrapLosesAHundred(x: nat, w: nat)
    requires x >= w > 100
    ensures x % w / 100 < x / 100
  {
    assert x % w <= x - w;
  }

  lemma MinFeeIsExact(c: Config, fee: nat)
    requires Fits(c, fee)
    ensures MinFee(c, fee) == Raised(c, fee)
  {
    SmallModulus(100 + c.minFeeIncreasePercent, U64_MAX + 1);
    SmallModulus(fee * (100 + c.minFeeIncreasePercent), U128_MAX + 1);
  }

  lemma SmallerMultiplier(fee: nat, m: nat, k: nat)
    requires fee > 0 && m + 100 <= k
    ensures fee * m / 100 < fee * k / 100
  {
    ProductBound(fee, m + 100, fee, k);
    ProductBound(1, 100, fee, 100);
    assert fee * (m + 100) == fee * m + fee * 100;
  }

  lemma HundredthShrinks(x: nat, w: nat)
    requires w > 0
    ensures x % w / 100 <= x / 100
  {
    assert x % w <= x;
  }

  /** Outside the range the computed minimum falls short of the real one. */
  lemma MinFeeFallsShort(c: Config, fee: nat)
    requires !Fits(c, fee) && fee > 0
    ensures MinFee(c, fee) < Raised(c, fee)
  {
    var k := 100 + c.minFeeIncreasePercent;
    if k <= U64_MAX {
      SmallModulus(k, U64_MAX + 1);
      WrapLosesAHundred(fee * k, U128_MAX + 1);
    } else {
      assert k % (U64_MAX + 1) <= k - (U64_MAX + 1);
      SmallerMultiplier(fee, Multiplier(c), k);
      HundredthShrinks(fee * Multiplier(c), U128_MAX + 1);
    }
  }

  lemma NothingToRaise(c: Config)
    ensures Raised(c, 0) == 0
  {
  }

  /** One of the two fees reaches the raise exactly when the arithmetic does not wrap or the suggestion makes up for it. */
  lemma ReachesRaiseIff(c: Config, original: nat, suggested: nat)
    ensures Max(MinFee(c, original), suggested) >= Raised(c, original) <==>
            Fits(c, original) || suggested >= Raised(c, original)
  {
    if Fits(c, original) {
      MinFeeIsExact(c, original);
    } else if original == 0 {
      NothingToRaise(c);
    } else {
      MinFeeFallsShort(c, original);
    }
  }

  lemma RaisedMonotone(c: Config, x: nat, y: nat)
    requires x <= y
    ensures Raised(c, x) <= Raised(c, y)
  {
    ProductBound(x, 100 + c.minFeeIncreasePercent, y, 100 + c.minFeeIncreasePercent);
  }

  /** The validity rule of EIP-1559 for the two fees of a transaction. */
  predicate Valid(f: Fee) { f.priorityFee <= f.maxFee }

  /**
   * The raise, exactly, for every accepted bump: each fee is raised by the percentage if and only if that can be
   * computed without wrapping or the suggestion is that high anyway.
   */
  lemma BumpRaisesIff(c: Config, original: Fee, suggested: Fee)
    requires ShouldBump(c, original, suggested).Bump?
    ensures var fee := ShouldBump(c, original, suggested).fee;
            && (fee.maxFee >= Raised(c, original.maxFee) <==>
                Fits(c, original.maxFee) || suggested.maxFee >= Raised(c, original.maxFee))
            && (fee.priorityFee >= Raised(c, original.priorityFee) <==>
                Fits(c, original.priorityFee) || suggested.priorityFee >= Raised(c, original.priorityFee))
  {
    ReachesRaiseIff(c, original.maxFee, suggested.maxFee);
    ReachesRaiseIff(c, original.priorityFee, suggested.priorityFee);
  }

  /**
   * An accepted bump of a fee in range raises both fees by at least the percentage, meets the suggestion, stays
   * within the cap, whatever that is, and is no higher than that demands; it is valid if the original and the
   * suggestion are.
   */
  lemma AcceptedBump(c: Config, original: Fee, suggested: Fee)
    requires Fits(c, original.maxFee) && ShouldBump(c, original, suggested).Bump?
    ensures var fee := ShouldBump(c, original, suggested).fee;
            && Raised(c, original.maxFee) <= fee.maxFee
            && original.maxFee <= suggested.maxFee <= fee.maxFee <= c.maxFeeInWei
            && suggested.priorityFee <= fee.priorityFee
            && (fee.maxFee == suggested.maxFee || fee.maxFee == Raised(c, original.maxFee))
            && (Valid(original) ==>
                  && Raised(c, original.priorityFee) <= fee.priorityFee
                  && (fee.priorityFee == suggested.priorityFee || fee.priorityFee == Raised(c, original.priorityFee))
                  && (Valid(suggested) ==> Valid(fee)))
  {
    MinFeeIsExact(c, original.maxFee);
    if Valid(original) {
      FitsMonotone(c, original.priorityFee, original.maxFee);
      MinFeeIsExact(c, original.priorityFee);
      RaisedMonotone(c, original.priorityFee, original.maxFee);
    }
  }

  /** The demand a bump is held to: the raised fee, or what is left of it where the product wraps. */
  function Demand(c: Config, fee: nat): nat {
    if Fits(c, fee) then Raised(c, fee) else fee * Multiplier(c) % (U128_MAX + 1) / 100
  }

  /** A bump is accepted exactly when the suggestion is not below the original and both demands fit the cap. */
  lemma AcceptedIff(c: Config, original: Fee, suggested: Fee)
    ensures ShouldBump(c, original, suggested).Bump? <==>
            original.maxFee <= suggested.maxFee <= c.maxFeeInWei && Demand(c, original.maxFee) <= c.maxFeeInWei
    ensures original.maxFee > 0 && !Fits(c, original.maxFee) ==> Demand(c, original.maxFee) < Raised(c, original.maxFee)
  {
    if Fits(c, original.maxFee) {
      MinFeeIsExact(c, original.maxFee);
    } else if original.maxFee > 0 {
      MinFeeFallsShort(c, original.maxFee);
    }
  }

  lemma RaiseIsVoidIff(c: Config, fee: nat)
    ensures Raised(c, fee) <= fee <==> fee * c.minFeeIncreasePercent < 100
  {
    RaisedAdds(c, fee);
  }

  /**
   * An accepted bump leaves the maximal fee as it was exactly when the suggestion is the old fee and the computed
   * minimum does not exceed it. In range that means that the percentage of the fee is below one unit.
   */
  lemma BumpKeepsFeeIff(c: Config, original: Fee, suggested: Fee)
    requires ShouldBump(c, original, suggested).Bump?
    ensures ShouldBump(c, original, suggested).fee.maxFee == original.maxFee <==>
            && suggested.maxFee == original.maxFee
            && if Fits(c, original.maxFee) then original.maxFee * c.minFeeIncreasePercent < 100
               else Demand(c, original.maxFee) <= original.maxFee
  {
    if Fits(c, original.maxFee) {
      MinFeeIsExact(c, original.maxFee);
      RaiseIsVoidIff(c, original.maxFee);
    }
  }

  const HALF_RANGE: nat := 0x8000_0000_0000_0000_0000_0000_0000_0000

  /** Past the machine's range the wrapped product lets a transaction be replaced at its old fee. */
  lemma WrappedBumpIsNoIncrease()
    ensures var c, fee := Config(100, U128_MAX), Fee(HALF_RANGE, 0);
            !Fits(c, fee.maxFee) && ShouldBump(c, fee, fee) == Bump(fee) && Raised(c, fee.maxFee) > fee.maxFee
  {
    assert HALF_RANGE * 200 == 100 * (U128_MAX + 1);
    assert (100 * (U128_MAX + 1)) % (U128_MAX + 1) == 0;
  }

  // ----- Chains of bumps -----

  /** `fees[i + 1]` replaced `fees[i]` on the suggestion `suggested[i]`. */
  predicate Chain(c: Config, fees: seq<Fee>, suggested: seq<Fee>) {
    && |fees| == |suggested| + 1
    && (forall i :: 0 <= i < |suggested| ==> Valid(suggested[i]))
    && forall i :: 0 <= i < |suggested| ==> ShouldBump(c, fees[i], suggested[i]) == Bump(fees[i + 1])
  }

  /** What one bump at least adds. */
  function Increment(c: Config, fee: nat): nat { fee * c.minFeeIncreasePercent / 100 }

  lemma RaisedAdds(c: Config, fee: nat)
    ensures Raised(c, fee) == fee + Increment(c, fee)
  {
    var p := c.minFeeIncreasePercent;
    assert fee * (100 + p) == 100 * fee + fee * p;
    assert (100 * fee + fee * p) / 100 == fee + (fee * p) / 100;
  }

  lemma IncrementMonotone(c: Config, x: nat, y: nat)
    requires x <= y
    ensures Increment(c, x) <= Increment(c, y)
  {
    ProductBound(x, c.minFeeIncreasePercent, y, c.minFeeIncreasePercent);
  }

  /** Fees never fall along a chain, in range or not. */
  lemma {:induction false} NeverFalls(c: Config, fees: seq<Fee>, suggested: seq<Fee>, i: nat, j: nat)
    requires Chain(c, fees, suggested) && i <= j < |fees|
    ensures fees[i].maxFee <= fees[j].maxFee
  {
    if i < j {
      NeverFalls(c, fees, suggested, i, j - 1);
      assert ShouldBump(c, fees[j - 1], suggested[j - 1]) == Bump(fees[j]);
    }
  }

  /** The chain up to its `n`-th replacement started every bump from a fee in range. */
  predicate InRange(c: Config, fees: seq<Fee>, n: nat)
    requires n < |fees|
  {
    n > 0 ==> Fits(c, fees[n - 1].maxFee)
  }

  /**
   * Over any chain the fees stay valid and within the cap, and the `n`-th replacement is at least `n` first
   * increments above the first fee, if the last fee replaced was in range.
   */
  lemma {:induction false} ChainClimbs(c: Config, fees: seq<Fee>, suggested: seq<Fee>, n: nat)
    requires Chain(c, fees, suggested) && Valid(fees[0]) && n < |fees| && InRange(c, fees, n)
    ensures Valid(fees[n]) && (n > 0 ==> fees[n].maxFee <= c.maxFeeInWei)
    ensures fees[n].maxFee >= fees[0].maxFee + n * Increment(c, fees[0].maxFee)
  {
    if n > 0 {
      if n > 1 {
        NeverFalls(c, fees, suggested, n - 2, n - 1);
        FitsMonotone(c, fees[n - 2].maxFee, fees[n - 1].maxFee);
      }
      ChainClimbs(c, fees, suggested, n - 1);
      BumpAdds(c, fees, suggested, n - 1);
      OneMore(n, Increment(c, fees[0].maxFee));
    }
  }

  lemma OneMore(n: nat, m: nat)
    requires n > 0
    ensures n * m == (n - 1) * m + m
  {
  }

  lemma BumpAdds(c: Config, fees: seq<Fee>, suggested: seq<Fee>, i: nat)
    requires Chain(c, fees, suggested) && i < |suggested| && Fits(c, fees[i].maxFee)
    ensures fees[i + 1].maxFee >= fees[i].maxFee + Increment(c, fees[0].maxFee)
    ensures fees[i + 1].maxFee <= c.maxFeeInWei && (Valid(fees[i]) ==> Valid(fees[i + 1]))
  {
    assert ShouldBump(c, fees[i], suggested[i]) == Bump(fees[i + 1]);
    AcceptedBump(c, fees[i], suggested[i]);
    RaisedAdds(c, fees[i].maxFee);
    NeverFalls(c, fees, suggested, 0, i);
    IncrementMonotone(c, fees[0].maxFee, fees[i].maxFee);
  }

  lemma FirstIncrement(c: Config, fee: nat)
    requires fee * c.minFeeIncreasePercent >= 100
    ensures Increment(c, fee) >= 1
  {
  }

  /** If the first fee times the percentage reaches 100, every bump is a strict increase and the chain is bounded. */
  lemma ChainIsBounded(c: Config, fees: seq<Fee>, suggested: seq<Fee>)
    requires Chain(c, fees, suggested) && Valid(fees[0]) && InRange(c, fees, |suggested|)
    requires fees[0].maxFee * c.minFeeIncreasePercent >= 100
    ensures forall i :: 0 <= i < |suggested| ==> fees[i].maxFee < fees[i + 1].maxFee
    ensures suggested != [] ==> |suggested| <= c.maxFeeInWei - fees[0].maxFee
  {
    var n, least := |suggested|, Increment(c, fees[0].maxFee);
    FirstIncrement(c, fees[0].maxFee);
    forall i | 0 <= i < n ensures fees[i].maxFee < fees[i + 1].maxFee {
      NeverFalls(c, fees, suggested, i, n - 1);
      FitsMonotone(c, fees[i].maxFee, fees[n - 1].maxFee);
      BumpAdds(c, fees, suggested, i);
    }
    ChainClimbs(c, fees, suggested, n);
    ProductBound(n, 1, n, least);
  }

  /** Out of range there is no bound: the fee of the wrapped bump can be replaced by itself any number of times. */
  lemma WrappedChainIsUnbounded(n: nat)
    ensures var c, fee := Config(100, U128_MAX), Fee(HALF_RANGE, 0);
            Chain(c, seq(n + 1, _ => fee), seq(n, _ => fee)) && fee.maxFee * c.minFeeIncreasePercent >= 100
  {
    WrappedBumpIsNoIncrease();
  }
}
