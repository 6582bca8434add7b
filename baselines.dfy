/** The two baseline emission formulas: lifetime direct (refrigerant and
    embodied) emissions and lifetime indirect (energy) emissions, in kgCO2e.
    Quantities are exact reals; the lifetime is a whole number of years. */
module Baselines {

  /** Annual operating hours assumed for cooling and for heating. */
  const CoolingHours: real := 1000.0
  const HeatingHours: real := 600.0

  /** The system being rated. Percentages are on a 0..100 scale. */
  datatype SystemInputs = SystemInputs(
    capacityBtuh: real,
    seer2: real,
    hspf2: real,
    refrigerantChargeKg: real,
    reclaimedRefrigerantPct: real,
    annualLeakRatePct: real,
    eolLossPct: real,
    materialWeightKg: real)

  // ---------------------------------------------------------------
  // Direct emissions
  // ---------------------------------------------------------------

  /** Refrigerant lost over the lifetime: the annual leak of the original
      charge, accumulated linearly year after year. */
  function TotalLeakKg(system: SystemInputs, lifetimeYears: int): real {
    system.refrigerantChargeKg * (system.annualLeakRatePct / 100.0) * (lifetimeYears as real)
  }

  /** Charge left at end of life, clamped at zero. */
  function RemainingKg(system: SystemInputs, lifetimeYears: int): (r: real)
    ensures r >= 0.0
    ensures r >= system.refrigerantChargeKg - TotalLeakKg(system, lifetimeYears)
    ensures r == 0.0 || r == system.refrigerantChargeKg - TotalLeakKg(system, lifetimeYears)
  {
    var left := system.refrigerantChargeKg - TotalLeakKg(system, lifetimeYears);
    if left > 0.0 then left else 0.0
  }

  /** Refrigerant lost at decommissioning: a share of what is left. */
  function EolLeakKg(system: SystemInputs, lifetimeYears: int): real {
    RemainingKg(system, lifetimeYears) * (system.eolLossPct / 100.0)
  }

  /** All refrigerant released to the atmosphere over the lifetime, in kg. */
  function ReleasedKg(system: SystemInputs, lifetimeYears: int): real {
    TotalLeakKg(system, lifetimeYears) + EolLeakKg(system, lifetimeYears)
  }

  function RefrigerantEmissions(system: SystemInputs, refrigerantGwp: real, lifetimeYears: int): real {
    ReleasedKg(system, lifetimeYears) * refrigerantGwp
  }

  /** Credit for reclaimed refrigerant used at the initial fill, counted at
      half the GWP of the reclaimed mass. */
  function ReclaimedCredit(system: SystemInputs, refrigerantGwp: real): real {
    system.refrigerantChargeKg * (system.reclaimedRefrigerantPct / 100.0) * refrigerantGwp * (-0.5)
  }

  /** Emissions embodied in the outdoor unit's material. */
  function Embodied(system: SystemInputs, embodiedFactor: real): real {
    system.materialWeightKg * embodiedFactor
  }

  /** `calc_baseline_direct`. */
  function BaselineDirect(system: SystemInputs, refrigerantGwp: real, lifetimeYears: int,
                          embodiedFactor: real): real
  {
    RefrigerantEmissions(system, refrigerantGwp, lifetimeYears)
      + ReclaimedCredit(system, refrigerantGwp)
      + Embodied(system, embodiedFactor)
  }

  // ---------------------------------------------------------------
  // Indirect emissions
  // ---------------------------------------------------------------

  /** Efficiency ratings the indirect formula divides by. */
  predicate RatingsNonZero(system: SystemInputs) {
    system.seer2 != 0.0 && system.hspf2 != 0.0
  }

  function CoolingKwh(system: SystemInputs): real
    requires system.seer2 != 0.0
  {
    (system.capacityBtuh * CoolingHours) / (system.seer2 * 1000.0)
  }

  function HeatingKwh(system: SystemInputs): real
    requires system.hspf2 != 0.0
  {
    (system.capacityBtuh * HeatingHours) / (system.hspf2 * 1000.0)
  }

  /** `calc_baseline_indirect`. */
  function BaselineIndirect(system: SystemInputs, lifetimeYears: int, gridFactor: real): real
    requires RatingsNonZero(system)
  {
    (CoolingKwh(system) + HeatingKwh(system)) * gridFactor * (lifetimeYears as real)
  }

  // ---------------------------------------------------------------
  // Properties of the direct baseline
  // ---------------------------------------------------------------

  /** Once the accumulated leakage reaches the charge nothing is left to lose
      at end of life, however far the leakage overshoots. */
  lemma FullyLeakedNoEolLoss(system: SystemInputs, lifetimeYears: int)
    requires TotalLeakKg(system, lifetimeYears) >= system.refrigerantChargeKg
    ensures RemainingKg(system, lifetimeYears) == 0.0
    ensures EolLeakKg(system, lifetimeYears) == 0.0
    ensures ReleasedKg(system, lifetimeYears) == TotalLeakKg(system, lifetimeYears)
  {
  }

  /** With no annual leakage the whole charge reaches end of life, and the
      direct baseline is the end-of-life loss plus the credit and the
      embodied term. */
  lemma ZeroLeakRate(system: SystemInputs, refrigerantGwp: real, lifetimeYears: int,
                     embodiedFactor: real)
    requires system.annualLeakRatePct == 0.0 && system.refrigerantChargeKg >= 0.0
    ensures TotalLeakKg(system, lifetimeYears) == 0.0
    ensures EolLeakKg(system, lifetimeYears)
         == system.refrigerantChargeKg * system.eolLossPct / 100.0
    ensures BaselineDirect(system, refrigerantGwp, lifetimeYears, embodiedFactor)
         == system.refrigerantChargeKg * system.eolLossPct / 100.0 * refrigerantGwp
            + ReclaimedCredit(system, refrigerantGwp)
            + Embodied(system, embodiedFactor)
  {
  }

  /** The reclaimed credit is minus half the GWP-weighted reclaimed mass, so
      it never adds emissions when its inputs are non-negative. */
  lemma ReclaimedCreditIsCredit(system: SystemInputs, refrigerantGwp: real)
    ensures ReclaimedCredit(system, refrigerantGwp)
         == -0.5 * (system.refrigerantChargeKg * system.reclaimedRefrigerantPct / 100.0) * refrigerantGwp
    ensures system.refrigerantChargeKg >= 0.0 && system.reclaimedRefrigerantPct >= 0.0
            && refrigerantGwp >= 0.0
         ==> ReclaimedCredit(system, refrigerantGwp) <= 0.0
  {
    var m := system.refrigerantChargeKg * (system.reclaimedRefrigerantPct / 100.0);
    if system.refrigerantChargeKg >= 0.0 && system.reclaimedRefrigerantPct >= 0.0
       && refrigerantGwp >= 0.0 {
      assert m >= 0.0;
      assert m * refrigerantGwp >= 0.0;
    }
  }

  /** While the accumulated leakage stays within the charge, the refrigerant
      released (leaks plus end-of-life loss) is at least the leakage and at
      most the charge. */
  lemma ReleasedWithinCharge(system: SystemInputs, lifetimeYears: int)
    requires system.refrigerantChargeKg >= 0.0 && system.annualLeakRatePct >= 0.0
    requires 0.0 <= system.eolLossPct <= 100.0 && lifetimeYears >= 0
    requires system.annualLeakRatePct * (lifetimeYears as real) <= 100.0
    ensures TotalLeakKg(system, lifetimeYears) <= system.refrigerantChargeKg
    ensures TotalLeakKg(system, lifetimeYears) <= ReleasedKg(system, lifetimeYears)
              <= system.refrigerantChargeKg
  {
    var c, f := system.refrigerantChargeKg, system.annualLeakRatePct * (lifetimeYears as real) / 100.0;
    assert TotalLeakKg(system, lifetimeYears) == c * f;
    assert c * f <= c * 1.0 by { MulLeftMono(c, f, 1.0); }
    var rem := RemainingKg(system, lifetimeYears);
    var e := system.eolLossPct / 100.0;
    assert rem * e <= rem * 1.0 by { MulLeftMono(rem, e, 1.0); }
    assert rem * e >= rem * 0.0 by { MulLeftMono(rem, 0.0, e); }
    assert rem == c - c * f;
    assert ReleasedKg(system, lifetimeYears) == c * f + rem * e;
    assert rem * e <= rem;
    assert c * f + rem * e <= c;
  }

  /** Leakage accumulates linearly against the original charge and is not
      capped: when the leak rate times the lifetime exceeds 100%, the
      refrigerant counted as released is more than the system ever held. */
  lemma LeakageNotCappedByCharge(system: SystemInputs, lifetimeYears: int)
    requires system.refrigerantChargeKg > 0.0
    requires system.annualLeakRatePct * (lifetimeYears as real) > 100.0
    ensures ReleasedKg(system, lifetimeYears) == TotalLeakKg(system, lifetimeYears)
    ensures ReleasedKg(system, lifetimeYears) > system.refrigerantChargeKg
  {
    var c, f := system.refrigerantChargeKg, system.annualLeakRatePct * (lifetimeYears as real) / 100.0;
    assert TotalLeakKg(system, lifetimeYears) == c * f;
    assert c * 1.0 < c * f by { MulLeftStrict(c, 1.0, f); }
    FullyLeakedNoEolLoss(system, lifetimeYears);
  }

  /** A more potent refrigerant gives strictly more refrigerant emissions
      whenever any refrigerant is released. */
  lemma RefrigerantEmissionsGrowWithGwp(system: SystemInputs, gwp1: real, gwp2: real,
                                         lifetimeYears: int)
    requires ReleasedKg(system, lifetimeYears) > 0.0 && gwp1 < gwp2
    ensures RefrigerantEmissions(system, gwp1, lifetimeYears)
          < RefrigerantEmissions(system, gwp2, lifetimeYears)
  {
    MulLeftStrict(ReleasedKg(system, lifetimeYears), gwp1, gwp2);
  }

  /** The default system: 3 kg charge, 4% a year over 15 years, 85% lost at
      end of life, 140 kg of material at 5 kgCO2/kg, GWP 675. */
  lemma DefaultDirectScenario()
    ensures BaselineDirect(SystemInputs(36000.0, 15.0, 8.5, 3.0, 0.0, 4.0, 85.0, 140.0),
                           675.0, 15, 5.0) == 2603.5
  {
    var sys := SystemInputs(36000.0, 15.0, 8.5, 3.0, 0.0, 4.0, 85.0, 140.0);
    assert TotalLeakKg(sys, 15) == 1.8;
    assert RemainingKg(sys, 15) == 1.2;
    assert EolLeakKg(sys, 15) == 1.02;
  }

  // ---------------------------------------------------------------
  // Properties of the indirect baseline
  // ---------------------------------------------------------------

  /** Closed form: capacity times lifetime times grid factor times the
      hours-weighted reciprocal efficiencies. */
  lemma IndirectClosedForm(system: SystemInputs, lifetimeYears: int, gridFactor: real)
    requires RatingsNonZero(system)
    ensures BaselineIndirect(system, lifetimeYears, gridFactor)
         == (lifetimeYears as real) * gridFactor * system.capacityBtuh
            * (1.0 / system.seer2 + 0.6 / system.hspf2)
  {
    var cap := system.capacityBtuh;
    assert CoolingKwh(system) == cap * (1.0 / system.seer2);
    assert HeatingKwh(system) == cap * (0.6 / system.hspf2);
  }

  /** Non-negative inputs give a non-negative indirect baseline. */
  lemma IndirectNonNegative(system: SystemInputs, lifetimeYears: int, gridFactor: real)
    requires system.capacityBtuh >= 0.0 && system.seer2 > 0.0 && system.hspf2 > 0.0
    requires gridFactor >= 0.0 && lifetimeYears >= 0
    ensures BaselineIndirect(system, lifetimeYears, gridFactor) >= 0.0
  {
    var kwh := CoolingKwh(system) + HeatingKwh(system);
    assert kwh >= 0.0;
    assert kwh * gridFactor >= 0.0;
  }

  /** A higher SEER2 strictly lowers the indirect baseline when the system
      draws energy from a dirty grid over a positive lifetime. */
  lemma IndirectFallsWithSeer(system: SystemInputs, betterSeer: real, lifetimeYears: int,
                              gridFactor: real)
    requires system.capacityBtuh > 0.0 && 0.0 < system.seer2 < betterSeer && system.hspf2 > 0.0
    requires gridFactor > 0.0 && lifetimeYears > 0
    ensures BaselineIndirect(system.(seer2 := betterSeer), lifetimeYears, gridFactor)
          < BaselineIndirect(system, lifetimeYears, gridFactor)
  {
    var better := system.(seer2 := betterSeer);
    var k := (lifetimeYears as real) * gridFactor * system.capacityBtuh;
    IndirectClosedForm(system, lifetimeYears, gridFactor);
    IndirectClosedForm(better, lifetimeYears, gridFactor);
    assert k > 0.0 by {
      MulLeftStrict(lifetimeYears as real, 0.0, gridFactor);
      MulLeftStrict((lifetimeYears as real) * gridFactor, 0.0, system.capacityBtuh);
    }
    assert 1.0 / betterSeer < 1.0 / system.seer2;
    MulLeftStrict(k, 1.0 / betterSeer + 0.6 / system.hspf2, 1.0 / system.seer2 + 0.6 / system.hspf2);
  }

  /** The default system over 15 years on a 0.38 kgCO2/kWh grid: 2400 kWh of
      cooling and 21600/8.5 kWh of heating a year, 478800/17 kgCO2e in all
      (about 28164.71). */
  lemma DefaultIndirectScenario()
    ensures BaselineIndirect(SystemInputs(36000.0, 15.0, 8.5, 3.0, 0.0, 4.0, 85.0, 140.0), 15, 0.38)
         == (2400.0 + 21600.0 / 8.5) * 0.38 * 15.0
         == 478800.0 / 17.0
    ensures 28164.7 < 478800.0 / 17.0 < 28164.71
  {
    var sys := SystemInputs(36000.0, 15.0, 8.5, 3.0, 0.0, 4.0, 85.0, 140.0);
    assert CoolingKwh(sys) == 2400.0;
    assert HeatingKwh(sys) == 21600.0 / 8.5;
  }

  // ---------------------------------------------------------------
  // Arithmetic helpers
  // ---------------------------------------------------------------

  lemma MulLeftMono(c: real, x: real, y: real)
    requires c >= 0.0 && x <= y
    ensures c * x <= c * y
  {
    assert c * y - c * x == c * (y - x);
  }

  lemma MulLeftStrict(c: real, x: real, y: real)
    requires c > 0.0 && x < y
    ensures c * x < c * y
  {
    assert c * y - c * x == c * (y - x);
  }

}
