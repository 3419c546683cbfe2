// Block emission and its split: `block_reward.rs` over the halving curve, and
// the conservation laws of the curve.

module BlockReward {
  import opened Outcome

  /** Amounts are 256-bit unsigned integers; every operation below is checked. */
  const U256_LIMIT: nat := 0x1_0000_0000_0000_0000_0000_0000_0000_0000_0000_0000_0000_0000_0000_0000_0000_0000

  const TOKEN_SCALE: nat := 1_000_000_000_000_000_000
  const PRECISION_SCALE: nat := 1_000_000_000_000

  function MulDiv(a: nat, b: nat, div: nat): Option<nat>
    requires div > 0
  {
    if a * b >= U256_LIMIT then None else Some(a * b / div)
  }

  /** The quotient is rounded down, and only an overflowing product fails. */
  lemma MulDivFloors(a: nat, b: nat, div: nat)
    requires div > 0
    ensures MulDiv(a, b, div).None? <==> a * b >= U256_LIMIT
    ensures MulDiv(a, b, div).Some? ==> IsFloor(MulDiv(a, b, div).value, a, b, div)
  {
    var q := a * b / div;
    assert q * div <= a * b < q * div + div;
  }

  /** `q` is the greatest integer with `q / a` at most `b / div`. */
  ghost predicate IsFloor(q: nat, a: nat, b: nat, div: nat) {
    q * div <= a * b < (q + 1) * div
  }

  /**
   * The halving curve: an inflation cap and a decay factor by second, in
   * 18-decimal fixed point, whose computation may fail.
   */
  datatype Curve = Curve(inflationCap: nat, decay: nat -> Option<nat>)

  /** `emitted_until`: cap times one minus the decay. */
  function EmittedUntil(curve: Curve, t: nat): Option<nat> {
    var decay := curve.decay(t);
    if decay.None? || decay.value > TOKEN_SCALE then None
    else MulDiv(curve.inflationCap, TOKEN_SCALE - decay.value, TOKEN_SCALE)
  }

  /** `reward_between`. */
  function RewardBetween(curve: Curve, from: nat, to: nat): Option<nat> {
    if to < from then None
    else if from == to || curve.inflationCap == 0 then Some(0)
    else
      var before, after := EmittedUntil(curve, from), EmittedUntil(curve, to);
      if before.None? || after.None? || after.value < before.value then None else Some(after.value - before.value)
  }

  /**
   * An earlier end fails, an empty interval or an empty cap pays nothing, and else
   * the growth of the emission is paid.
   */
  lemma RewardIsGrowth(curve: Curve, from: nat, to: nat)
    ensures to < from ==> RewardBetween(curve, from, to) == None
    ensures from == to || (from < to && curve.inflationCap == 0) ==> RewardBetween(curve, from, to) == Some(0)
    ensures var before, after := EmittedUntil(curve, from), EmittedUntil(curve, to);
      from < to && curve.inflationCap > 0 && before.Some? && after.Some? && before.value <= after.value ==>
        RewardBetween(curve, from, to) == Some(after.value - before.value)
  {
  }

  function FullBlockReward(curve: Curve, blockSecs: nat, parentHeight: nat): Option<nat> {
    RewardBetween(curve, parentHeight * blockSecs, parentHeight * blockSecs + blockSecs)
  }

  /** `block_emission`: genesis emits nothing. */
  function BlockEmission(curve: Curve, blockSecs: nat, height: nat): Option<nat> {
    if height == 0 then Some(0) else FullBlockReward(curve, blockSecs, height - 1)
  }

  /** Every block up to `tip` has an emission. */
  ghost predicate EmissionDefined(curve: Curve, blockSecs: nat, tip: nat) {
    forall h :: 0 <= h <= tip ==> BlockEmission(curve, blockSecs, h).Some?
  }

  /** Emission of the blocks at heights `[lo, hi)`. */
  ghost function EmissionSum(curve: Curve, blockSecs: nat, lo: nat, hi: nat): nat
    requires hi > 0 ==> EmissionDefined(curve, blockSecs, hi - 1)
    decreases hi
  {
    if hi <= lo then 0 else EmissionSum(curve, blockSecs, lo, hi - 1) + BlockEmission(curve, blockSecs, hi - 1).value
  }

  /** What the curve has emitted by `t` is the decayed part of the cap, rounded down; it fails for the three causes. */
  lemma EmittedIsDecayed(curve: Curve, t: nat)
    ensures var decay, emitted := curve.decay(t), EmittedUntil(curve, t);
      && (emitted.Some? ==> decay.Some? && decay.value <= TOKEN_SCALE
                            && IsFloor(emitted.value, curve.inflationCap, TOKEN_SCALE - decay.value, TOKEN_SCALE))
      && (emitted.None? ==> || decay.None? || decay.value > TOKEN_SCALE
                            || curve.inflationCap * (TOKEN_SCALE - decay.value) >= U256_LIMIT)
  {
    var decay := curve.decay(t);
    if decay.Some? && decay.value <= TOKEN_SCALE {
      MulDivFloors(curve.inflationCap, TOKEN_SCALE - decay.value, TOKEN_SCALE);
    }
  }

  lemma EmittedWithinCap(curve: Curve, t: nat)
    ensures EmittedUntil(curve, t).Some? ==> EmittedUntil(curve, t).value <= curve.inflationCap
  {
    if EmittedUntil(curve, t).Some? {
      ScaledWithin(curve.inflationCap, TOKEN_SCALE - curve.decay(t).value, TOKEN_SCALE);
    }
  }

  /** A fraction of an amount is at most the amount. */
  lemma ScaledWithin(a: nat, part: nat, whole: nat)
    requires part <= whole && whole > 0
    ensures a * part / whole <= a
  {
    var q := a * part / whole;
    assert q * whole <= a * part;
    assert a * part <= a * whole;
  }

  /**
   * The blocks' emissions telescope: together they are what the curve emits
   * over their time, so they never exceed the inflation cap.
   */
  lemma {:induction false} EmissionTelescopes(curve: Curve, blockSecs: nat, tip: nat)
    requires EmissionDefined(curve, blockSecs, tip)
    ensures EmissionSum(curve, blockSecs, 0, tip + 1) <= curve.inflationCap
    ensures tip > 0 && blockSecs > 0 && curve.inflationCap > 0 ==>
      && EmittedUntil(curve, 0).Some? && EmittedUntil(curve, tip * blockSecs).Some?
      && EmissionSum(curve, blockSecs, 0, tip + 1) ==
        EmittedUntil(curve, tip * blockSecs).value - EmittedUntil(curve, 0).value
  {
    if tip > 0 {
      EmissionTelescopes(curve, blockSecs, tip - 1);
      assert tip * blockSecs == (tip - 1) * blockSecs + blockSecs;
      assert BlockEmission(curve, blockSecs, tip).Some?;
      EmittedWithinCap(curve, tip * blockSecs);
      if tip == 1 {
        assert EmissionSum(curve, blockSecs, 0, 1) == 0;
      }
    }
  }

  // ---- The split ----

  /** Consensus settings the split reads: when Delta activates, and its miner percentage. */
  datatype Delta = Delta(activation: nat, capacityPercent: nat)

  datatype Split = Split(miner: nat, treasury: nat)

  predicate Reduced(delta: Option<Delta>, timestamp: nat, isCapacityPoa: bool) {
    isCapacityPoa && delta.Some? && timestamp >= delta.value.activation
  }

  /** `split_block_reward`. */
  function SplitBlockReward(full: nat, delta: Option<Delta>, timestamp: nat, isCapacityPoa: bool): Option<Split> {
    if !Reduced(delta, timestamp, isCapacityPoa) then Some(Split(full, 0))
    else
      var miner := MulDiv(full, delta.value.capacityPercent, PRECISION_SCALE);
      if miner.None? || full < miner.value then None else Some(Split(miner.value, full - miner.value))
  }

  /**
   * Who is paid: before Delta, or for a data PoA, the miner gets everything. After
   * it a capacity PoA pays the miner the percentage, rounded down, and the
   * treasury the rest.
   */
  lemma SplitPays(full: nat, delta: Option<Delta>, timestamp: nat, isCapacityPoa: bool)
    ensures !isCapacityPoa || delta.None? || timestamp < delta.value.activation ==>
      SplitBlockReward(full, delta, timestamp, isCapacityPoa) == Some(Split(full, 0))
    ensures var s := SplitBlockReward(full, delta, timestamp, isCapacityPoa);
      isCapacityPoa && delta.Some? && delta.value.activation <= timestamp && s.Some? ==>
        IsFloor(s.value.miner, full, delta.value.capacityPercent, PRECISION_SCALE)
  {
    if delta.Some? {
      MulDivFloors(full, delta.value.capacityPercent, PRECISION_SCALE);
    }
  }

  /** The split loses nothing, and a percentage of at most one hundred always splits. */
  lemma SplitConserves(full: nat, delta: Option<Delta>, timestamp: nat, isCapacityPoa: bool)
    ensures var s := SplitBlockReward(full, delta, timestamp, isCapacityPoa);
      && (s.Some? ==> s.value.miner + s.value.treasury == full)
      && (s.None? ==> Reduced(delta, timestamp, isCapacityPoa)
                      && (full * delta.value.capacityPercent >= U256_LIMIT
                          || delta.value.capacityPercent > PRECISION_SCALE))
  {
    if Reduced(delta, timestamp, isCapacityPoa) && delta.value.capacityPercent <= PRECISION_SCALE {
      ScaledWithin(full, delta.value.capacityPercent, PRECISION_SCALE);
    }
  }

  /** How each block above genesis was mined: its timestamp and PoA kind. */
  datatype Mined = Mined(timestamp: nat, isCapacityPoa: bool)

  ghost function SplitAt(curve: Curve, blockSecs: nat, delta: Option<Delta>, blocks: seq<Mined>, h: nat): Option<Split>
    requires h < |blocks| && BlockEmission(curve, blockSecs, h).Some?
  {
    SplitBlockReward(BlockEmission(curve, blockSecs, h).value, delta, blocks[h].timestamp, blocks[h].isCapacityPoa)
  }

  ghost predicate AllSplit(curve: Curve, blockSecs: nat, delta: Option<Delta>, blocks: seq<Mined>) {
    forall h :: 0 <= h < |blocks| ==>
      BlockEmission(curve, blockSecs, h).Some? && SplitAt(curve, blockSecs, delta, blocks, h).Some?
  }

  ghost function MinerTotal(curve: Curve, blockSecs: nat, delta: Option<Delta>, blocks: seq<Mined>, n: nat): nat
    requires n <= |blocks| && AllSplit(curve, blockSecs, delta, blocks)
  {
    if n == 0 then 0
    else
      MinerTotal(curve, blockSecs, delta, blocks, n - 1)
      + SplitAt(curve, blockSecs, delta, blocks, n - 1).value.miner
  }

  ghost function TreasuryTotal(curve: Curve, blockSecs: nat, delta: Option<Delta>, blocks: seq<Mined>, n: nat): nat
    requires n <= |blocks| && AllSplit(curve, blockSecs, delta, blocks)
  {
    if n == 0 then 0
    else
      TreasuryTotal(curve, blockSecs, delta, blocks, n - 1)
      + SplitAt(curve, blockSecs, delta, blocks, n - 1).value.treasury
  }

  /** Miner and treasury shares of any mix of blocks add up to their emission. */
  lemma {:induction false} SharesAreEmission(curve: Curve, blockSecs: nat, delta: Option<Delta>, blocks: seq<Mined>,
                                             n: nat)
    requires n <= |blocks| && AllSplit(curve, blockSecs, delta, blocks)
    ensures n > 0 ==> EmissionDefined(curve, blockSecs, n - 1)
    ensures MinerTotal(curve, blockSecs, delta, blocks, n) + TreasuryTotal(curve, blockSecs, delta, blocks, n)
         == EmissionSum(curve, blockSecs, 0, n)
  {
    if n > 0 {
      SharesAreEmission(curve, blockSecs, delta, blocks, n - 1);
      SplitConserves(BlockEmission(curve, blockSecs, n - 1).value, delta, blocks[n - 1].timestamp,
                     blocks[n - 1].isCapacityPoa);
    }
  }
}
