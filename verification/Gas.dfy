/** Fee planning and replacement fees (gas.rs, and the late-epoch bump of submitter.rs), in wei. */
module Gas {
  import opened Text

  const U128_MAX := 0xffff_ffff_ffff_ffff_ffff_ffff_ffff_ffff
  const MIN_GAS_LIMIT := 200_000

  type U128 = n: nat | n <= U128_MAX

  datatype GasPlan = GasPlan(gasLimit: nat, priority: U128, maxFee: U128)

  /** The fee settings, with the gwei amounts already converted to wei. */
  datatype FeeConfig = FeeConfig(priority: U128, cap: U128, gasLimitOverride: Option<nat>, gasLimitCap: nat,
                                 bumpPercent: nat, latePriority: U128, lateThreshold: nat)

  function Min(a: nat, b: nat): nat { if a < b then a else b }
  function Max(a: nat, b: nat): nat { if a < b then b else a }

  function SatMul(a: nat, b: nat): U128 { Min(a * b, U128_MAX) }
  function SatAdd(a: nat, b: nat): U128 { Min(a + b, U128_MAX) }

  /** plan_gas; the estimate is the node's, already scaled by 1.2. */
  function PlanGas(cfg: FeeConfig, baseFee: Option<U128>, scaledEstimate: nat): GasPlan
    requires cfg.gasLimitOverride == None ==> MIN_GAS_LIMIT <= cfg.gasLimitCap
  {
    var gasLimit := match cfg.gasLimitOverride
      case Some(g) => g
      case None => Min(Max(scaledEstimate, MIN_GAS_LIMIT), cfg.gasLimitCap);
    var base := if baseFee.Some? then baseFee.value else 0;
    GasPlan(Min(gasLimit, cfg.gasLimitCap), cfg.priority, Min(Max(cfg.cap, SatAdd(base, cfg.priority)), cfg.cap))
  }

  /** The bump before signing when the epoch is about to end. */
  function LateBump(cfg: FeeConfig, plan: GasPlan, baseFee: Option<U128>, blocksLeft: nat): GasPlan {
    if cfg.latePriority > 0 && blocksLeft <= cfg.lateThreshold && cfg.latePriority > plan.priority then
      var base := if baseFee.Some? then baseFee.value else 0;
      plan.(priority := cfg.latePriority, maxFee := Max(SatAdd(cfg.latePriority, SatMul(base, 2)), plan.maxFee))
    else plan
  }

  /** bump_eip1559 */
  function Bump(plan: GasPlan, percent: nat, cap: U128): GasPlan {
    var priority := SatMul(plan.priority, 100 + percent) / 100;
    plan.(priority := priority, maxFee := Max(Min(SatMul(plan.maxFee, 100 + percent) / 100, cap), priority))
  }

  /** The plan after k replacements. */
  function Bumped(plan: GasPlan, percent: nat, cap: U128, k: nat): GasPlan {
    if k == 0 then plan else Bump(Bumped(plan, percent, cap, k - 1), percent, cap)
  }

  /** None of the first k replacements reaches the top of u128. */
  ghost predicate Unsaturated(plan: GasPlan, percent: nat, cap: U128, k: nat) {
    forall j :: 0 <= j < k ==>
      && Bumped(plan, percent, cap, j).priority * (100 + percent) <= U128_MAX
      && Bumped(plan, percent, cap, j).maxFee * (100 + percent) <= U128_MAX
  }

  /** What EIP-1559 demands of a signed transaction. */
  predicate Signable(plan: GasPlan) {
    plan.priority <= plan.maxFee
  }

  function Pow(b: nat, k: nat): nat {
    if k == 0 then 1 else b * Pow(b, k - 1)
  }

  // ---------- The priority fee ----------

  lemma FloorBounds(p: nat, m: nat)
    ensures 100 * (p * m / 100) <= m * p <= 100 * (p * m / 100) + 99
  {
  }

  /**
   After k replacements the priority is at most m^k p / 100^k with m = 100 + percent, and falls
   short of it by no more than the rounding can take.
   */
  lemma {:induction false} PriorityBounds(plan: GasPlan, percent: nat, cap: U128, k: nat)
    requires Unsaturated(plan, percent, cap, k)
    ensures Pow(100, k) * Bumped(plan, percent, cap, k).priority <= Pow(100 + percent, k) * plan.priority
    ensures Pow(100, k) * (percent * Bumped(plan, percent, cap, k).priority - 99)
         >= Pow(100 + percent, k) * (percent * plan.priority - 99)
  {
    if k > 0 {
      var m := 100 + percent;
      var p, q := Bumped(plan, percent, cap, k - 1).priority, Bumped(plan, percent, cap, k).priority;
      PriorityBounds(plan, percent, cap, k - 1);
      FloorBounds(p, m);
      UpperStep(Pow(100, k - 1), Pow(m, k - 1), m, plan.priority, p, q);
      RoundingLoss(percent, p, q);
      LowerStep(Pow(100, k - 1), Pow(m, k - 1), m, percent * plan.priority - 99, percent * p - 99, percent * q - 99);
    }
  }

  lemma ScaleLe(k: nat, x: int, y: int)
    requires x <= y
    ensures k * x <= k * y
  {
    assert k * (y - x) >= 0;
  }

  /** Two steps of scaling: from x0 to x by g / h, from x to y by at most m / 100. */
  lemma UpperStep(h: nat, g: nat, m: nat, x0: int, x: int, y: int)
    requires h * x <= g * x0 && 100 * y <= m * x
    ensures (100 * h) * y <= (m * g) * x0
  {
    ScaleLe(h, 100 * y, m * x);
    ScaleLe(m, h * x, g * x0);
    Regroup(h, m, x);
    Regroup(h, 100, y);
    Regroup(m, g, x0);
  }

  lemma LowerStep(h: nat, g: nat, m: nat, x0: int, x: int, y: int)
    requires h * x >= g * x0 && 100 * y >= m * x
    ensures (100 * h) * y >= (m * g) * x0
  {
    ScaleLe(h, m * x, 100 * y);
    ScaleLe(m, g * x0, h * x);
    Regroup(h, m, x);
    Regroup(h, 100, y);
    Regroup(m, g, x0);
  }

  lemma Regroup(a: int, b: int, c: int)
    ensures a * (b * c) == (a * b) * c == (b * a) * c == b * (a * c)
  {
  }

  /** What rounding down a priority does to the quantity that the lower bound follows. */
  lemma RoundingLoss(b: nat, p: nat, q: nat)
    requires (100 + b) * p <= 100 * q + 99
    ensures (100 + b) * (b * p - 99) <= 100 * (b * q - 99)
  {
    var m := 100 + b;
    ScaleLe(b, m * p, 100 * q + 99);
    Regroup(b, m, p);
    assert b * (100 * q + 99) == 100 * (b * q) + 99 * b;
    assert m * (b * p - 99) == m * (b * p) - 99 * m;
  }

  lemma WholeAndRest(p: nat, t: nat)
    ensures (100 * p + t) / 100 == p + t / 100
  {
  }

  /** A replacement raises the priority exactly when the bump is worth at least one wei; otherwise it is stuck. */
  lemma PriorityRises(plan: GasPlan, percent: nat, cap: U128)
    requires plan.priority * (100 + percent) <= U128_MAX
    ensures Bump(plan, percent, cap).priority > plan.priority <==> percent * plan.priority >= 100
    ensures Bump(plan, percent, cap).priority == plan.priority <==> percent * plan.priority < 100
  {
    var p, t := plan.priority, percent * plan.priority;
    assert p * (100 + percent) == 100 * p + t;
    WholeAndRest(p, t);
  }

  // ---------- The fee cap ----------

  lemma PlannedMaxFee(cfg: FeeConfig, baseFee: Option<U128>, scaledEstimate: nat, blocksLeft: nat)
    requires cfg.gasLimitOverride == None ==> MIN_GAS_LIMIT <= cfg.gasLimitCap
    ensures PlanGas(cfg, baseFee, scaledEstimate).maxFee == cfg.cap
    ensures LateBump(cfg, PlanGas(cfg, baseFee, scaledEstimate), baseFee, blocksLeft).maxFee >= cfg.cap
  {
  }

  lemma BumpedMaxFee(plan: GasPlan, percent: nat, cap: U128)
    requires plan.maxFee >= cap && plan.maxFee * (100 + percent) <= U128_MAX
    ensures Bump(plan, percent, cap).maxFee == Max(cap, Bump(plan, percent, cap).priority)
  {
    var f, t := plan.maxFee, percent * plan.maxFee;
    assert f * (100 + percent) == 100 * f + t;
    WholeAndRest(f, t);
  }

  /**
   From the first replacement on, the fee limit is the cap, or the priority where that has outgrown
   it: the cap bounds what is paid only while the priority stays below it.
   */
  lemma {:induction false} ReplacedMaxFee(plan: GasPlan, percent: nat, cap: U128, k: nat)
    requires plan.maxFee >= cap && k >= 1 && Unsaturated(plan, percent, cap, k)
    ensures Bumped(plan, percent, cap, k).maxFee == Max(cap, Bumped(plan, percent, cap, k).priority)
  {
    if k > 1 {
      ReplacedMaxFee(plan, percent, cap, k - 1);
    }
    BumpedMaxFee(Bumped(plan, percent, cap, k - 1), percent, cap);
  }

  /**
   A replacement, to the wei, in terms of the old fees raised by the percentage and counted in hundredths: the priority
   is rounded down; so is the fee limit while that stays below the cap, and from there on it is the cap, or the
   priority if that is more.
   */
  lemma BumpToTheWei(plan: GasPlan, percent: nat, cap: U128, fee: nat, tip: nat)
    requires fee == plan.maxFee * (100 + percent) <= U128_MAX && tip == plan.priority * (100 + percent) <= U128_MAX
    ensures var next := Bump(plan, percent, cap);
      && 100 * next.priority <= tip < 100 * next.priority + 100
      && (fee >= 100 * cap ==> next.maxFee == Max(cap, next.priority))
      && (fee < 100 * cap && tip <= fee ==> 100 * next.maxFee <= fee < 100 * next.maxFee + 100)
      && (fee < 100 * cap && tip > fee ==> 100 * next.maxFee <= tip < 100 * next.maxFee + 100)
    ensures tip <= fee <==> plan.priority <= plan.maxFee
  {
    BumpShape(plan, percent, cap, fee, tip);
    RaisedOrder(plan.priority, plan.maxFee, 100 + percent, tip, fee);
    hide Bump;
    ClampedHundredths(fee, tip, cap);
  }

  lemma RaisedOrder(p: nat, f: nat, m: nat, tip: nat, fee: nat)
    requires m > 0 && tip == p * m && fee == f * m
    ensures tip <= fee <==> p <= f
  {
    if p <= f {
      ScaleLe(m, p, f);
    } else {
      ScaleLe(m, f + 1, p);
    }
  }

  lemma BumpShape(plan: GasPlan, percent: nat, cap: U128, x: nat, y: nat)
    requires x == plan.maxFee * (100 + percent) <= U128_MAX && y == plan.priority * (100 + percent) <= U128_MAX
    ensures Bump(plan, percent, cap).priority == y / 100
    ensures Bump(plan, percent, cap).maxFee == Max(Min(x / 100, cap), y / 100)
  {
  }

  lemma ClampedHundredths(x: nat, y: nat, cap: nat)
    ensures 100 * (y / 100) <= y < 100 * (y / 100) + 100 && 100 * (x / 100) <= x < 100 * (x / 100) + 100
    ensures x >= 100 * cap <==> x / 100 >= cap
    ensures y <= x ==> y / 100 <= x / 100
    ensures x <= y ==> x / 100 <= y / 100
  {
  }

  /** 15 percent on 100 and 1000 wei, well below the cap. */
  lemma BumpExample()
    ensures Bump(GasPlan(200_000, 100, 1000), 15, 10_000) == GasPlan(200_000, 115, 1150)
  {
  }

  lemma FloorBelow(x: nat, m: nat)
    ensures x / 100 < m <==> x < 100 * m
  {
  }

  /**
   A replacement lowers the fee limit exactly if a late-epoch bump had lifted it above the cap, and above
   what the priority, raised by the bump, comes to.
   */
  lemma MaxFeeDrops(plan: GasPlan, percent: nat, cap: U128)
    requires plan.maxFee >= cap
    requires plan.maxFee * (100 + percent) <= U128_MAX && plan.priority * (100 + percent) <= U128_MAX
    ensures Bump(plan, percent, cap).maxFee < plan.maxFee
        <==> plan.maxFee > cap && plan.priority * (100 + percent) < 100 * plan.maxFee
  {
    BumpedMaxFee(plan, percent, cap);
    FloorBelow(plan.priority * (100 + percent), plan.maxFee);
  }

  /** A replacement offers more than the cap exactly if the raised priority comes to more. */
  lemma CapPassed(plan: GasPlan, percent: nat, cap: U128)
    requires plan.maxFee >= cap
    requires plan.maxFee * (100 + percent) <= U128_MAX && plan.priority * (100 + percent) <= U128_MAX
    ensures Bump(plan, percent, cap).maxFee > cap <==> plan.priority * (100 + percent) >= 100 * (cap + 1)
  {
    BumpedMaxFee(plan, percent, cap);
    FloorBelow(plan.priority * (100 + percent), cap + 1);
  }

  /** The late-epoch bump changes the plan. */
  predicate LateFires(cfg: FeeConfig, blocksLeft: nat) {
    blocksLeft <= cfg.lateThreshold && cfg.latePriority > cfg.priority
  }

  /** The priority and the fee limit of the first plan. */
  lemma FirstPlanShape(cfg: FeeConfig, baseFee: Option<U128>, scaledEstimate: nat, blocksLeft: nat)
    requires cfg.gasLimitOverride == None ==> MIN_GAS_LIMIT <= cfg.gasLimitCap
    ensures var first := LateBump(cfg, PlanGas(cfg, baseFee, scaledEstimate), baseFee, blocksLeft);
      var base := if baseFee.Some? then baseFee.value else 0;
      if LateFires(cfg, blocksLeft) then
        && first.priority == cfg.latePriority
        && first.maxFee == Max(Min(cfg.latePriority + Min(2 * base, U128_MAX), U128_MAX), cfg.cap)
      else first.priority == cfg.priority && first.maxFee == cfg.cap
  {
  }

  lemma Unsaturable(f: nat, percent: nat)
    requires f * (100 + percent) <= U128_MAX
    ensures f <= U128_MAX / 100
  {
    ScaleLe(f, 100, 100 + percent);
  }

  lemma SplitPercent(p: nat, percent: nat)
    ensures p * (100 + percent) == 100 * p + percent * p
  {
  }

  /**
   In terms of the settings and the base fee: the first plan exceeds the cap exactly if the late bump
   fires and offers more, and its first replacement takes that back exactly if, besides, the percentage of
   the late priority is less than twice the base fee.
   */
  lemma FirstReplacementDrops(cfg: FeeConfig, baseFee: Option<U128>, scaledEstimate: nat, blocksLeft: nat)
    requires cfg.gasLimitOverride == None ==> MIN_GAS_LIMIT <= cfg.gasLimitCap
    requires var first := LateBump(cfg, PlanGas(cfg, baseFee, scaledEstimate), baseFee, blocksLeft);
      first.maxFee * (100 + cfg.bumpPercent) <= U128_MAX && first.priority * (100 + cfg.bumpPercent) <= U128_MAX
    ensures var first := LateBump(cfg, PlanGas(cfg, baseFee, scaledEstimate), baseFee, blocksLeft);
      var base := if baseFee.Some? then baseFee.value else 0;
      && (first.maxFee > cfg.cap <==> LateFires(cfg, blocksLeft) && cfg.latePriority + 2 * base > cfg.cap)
      && (Bump(first, cfg.bumpPercent, cfg.cap).maxFee < first.maxFee <==>
            && LateFires(cfg, blocksLeft) && cfg.latePriority + 2 * base > cfg.cap
            && cfg.bumpPercent * cfg.latePriority < 200 * base)
  {
    hide PlanGas, LateBump, Bump;
    var first := LateBump(cfg, PlanGas(cfg, baseFee, scaledEstimate), baseFee, blocksLeft);
    FirstPlanShape(cfg, baseFee, scaledEstimate, blocksLeft);
    MaxFeeDrops(first, cfg.bumpPercent, cfg.cap);
    Unsaturable(first.maxFee, cfg.bumpPercent);
    SplitPercent(first.priority, cfg.bumpPercent);
  }

  /** Such a plan: 5 gwei for the last blocks on a base fee of 20 gwei offer 45 gwei, and the first replacement 10. */
  lemma LateFeeDropped()
    ensures var cfg := FeeConfig(2_000_000_000, 10_000_000_000, None, 300_000, 15, 5_000_000_000, 5);
      var first := LateBump(cfg, PlanGas(cfg, Some(20_000_000_000), 240_000), Some(20_000_000_000), 3);
      && first.maxFee == 45_000_000_000
      && Bump(first, cfg.bumpPercent, cfg.cap).maxFee == 10_000_000_000
  {
  }

  lemma {:induction false} PriorityGrows(plan: GasPlan, percent: nat, cap: U128, k: nat)
    requires Unsaturated(plan, percent, cap, k) && percent * plan.priority >= 100
    ensures Bumped(plan, percent, cap, k).priority >= plan.priority + k
  {
    if k > 0 {
      var last := Bumped(plan, percent, cap, k - 1);
      PriorityGrows(plan, percent, cap, k - 1);
      ScaleLe(percent, plan.priority, last.priority);
      PriorityRises(last, percent, cap);
    }
  }

  /** A transaction whose priority moves at all and that is replaced often enough offers more than the cap. */
  lemma CapOutgrown(plan: GasPlan, percent: nat, cap: U128, k: nat)
    requires plan.maxFee >= cap && k >= 1 && Unsaturated(plan, percent, cap, k)
    requires percent * plan.priority >= 100 && plan.priority + k > cap
    ensures Bumped(plan, percent, cap, k).maxFee > cap
  {
    PriorityGrows(plan, percent, cap, k);
    ReplacedMaxFee(plan, percent, cap, k);
  }

  /** Such a plan: from 8 gwei under a cap of 10, the second replacement offers 10.58 gwei. */
  lemma SecondReplacementPassesCap()
    ensures var cfg := FeeConfig(8_000_000_000, 10_000_000_000, None, 300_000, 15, 0, 5);
      var first := LateBump(cfg, PlanGas(cfg, Some(20_000_000_000), 240_000), Some(20_000_000_000), 3);
      && first.maxFee == 10_000_000_000
      && Bump(Bump(first, cfg.bumpPercent, cfg.cap), cfg.bumpPercent, cfg.cap).maxFee == 10_580_000_000
  {
  }

  /** The loop that replaces skips a transaction exactly when both fees are stuck. */
  lemma ReplacementSkipped(plan: GasPlan, percent: nat, cap: U128)
    requires plan.maxFee >= cap
    requires plan.maxFee * (100 + percent) <= U128_MAX && plan.priority * (100 + percent) <= U128_MAX
    ensures Bump(plan, percent, cap) == plan
        <==> percent * plan.priority < 100 && plan.maxFee == Max(cap, plan.priority)
  {
    BumpedMaxFee(plan, percent, cap);
    PriorityRises(plan, percent, cap);
  }

  // ---------- The gas limit ----------

  /**
   The gas limit never exceeds its cap, and is the override or the scaled estimate wherever the
   bounds leave them alone; no replacement changes it.
   */
  lemma {:induction false} GasLimitKept(cfg: FeeConfig, baseFee: Option<U128>, scaledEstimate: nat, blocksLeft: nat,
      k: nat)
    requires cfg.gasLimitOverride == None ==> MIN_GAS_LIMIT <= cfg.gasLimitCap
    ensures var first := LateBump(cfg, PlanGas(cfg, baseFee, scaledEstimate), baseFee, blocksLeft);
      var limit := Bumped(first, cfg.bumpPercent, cfg.cap, k).gasLimit;
      && limit == first.gasLimit <= cfg.gasLimitCap
      && (cfg.gasLimitOverride == None ==> 200_000 <= limit)
      && (cfg.gasLimitOverride == None && 200_000 <= scaledEstimate <= cfg.gasLimitCap ==> limit == scaledEstimate)
      && (cfg.gasLimitOverride == None && scaledEstimate < 200_000 ==> limit == 200_000)
      && (cfg.gasLimitOverride == None && cfg.gasLimitCap < scaledEstimate ==> limit == cfg.gasLimitCap)
      && (cfg.gasLimitOverride.Some? && cfg.gasLimitOverride.value <= cfg.gasLimitCap ==>
            limit == cfg.gasLimitOverride.value)
      && (cfg.gasLimitOverride.Some? && cfg.gasLimitCap < cfg.gasLimitOverride.value ==> limit == cfg.gasLimitCap)
  {
    hide SatMul, SatAdd;
    if k > 0 {
      GasLimitKept(cfg, baseFee, scaledEstimate, blocksLeft, k - 1);
    }
  }

  // ---------- Signed plans ----------

  /** Every replacement is signable, whatever it replaces and whether or not it saturates. */
  lemma ReplacementSignable(plan: GasPlan, percent: nat, cap: U128)
    ensures Signable(Bump(plan, percent, cap))
  {
  }

  /** The first plan is signable exactly when the configured priority is within the cap or a late bump fires. */
  lemma FirstPlanSignable(cfg: FeeConfig, baseFee: Option<U128>, scaledEstimate: nat, blocksLeft: nat)
    requires cfg.gasLimitOverride == None ==> MIN_GAS_LIMIT <= cfg.gasLimitCap
    ensures Signable(LateBump(cfg, PlanGas(cfg, baseFee, scaledEstimate), baseFee, blocksLeft))
        <==> cfg.priority <= cfg.cap || LateFires(cfg, blocksLeft)
  {
  }

  // ---------- Fees in the database ----------

  /** A fee column: written with to_string, read with parse and zero for an error. */
  function ReadFee(s: string): U128 {
    match ParseUint(s, U128_MAX)
    case Some(n) => n
    case None => 0
  }

  lemma FeeColumn(n: U128)
    ensures ReadFee(ToDecimal(n)) == n
  {
    DecimalRoundTrip(n, U128_MAX);
  }
}
