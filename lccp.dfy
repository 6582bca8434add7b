/** The life-cycle climate performance of one system: each baseline is
    scaled by its correction-factor multiplier and the two are added. */
module Lccp {
  import opened Baselines
  import opened CorrectionFactors

  // Global assumptions and their defaults.
  const DefaultLifetimeYears: int := 15
  const DefaultGridKgCo2PerKwh: real := 0.38
  const EmbodiedKgCo2PerKgMaterial: real := 5.0
  const DefaultRefrigerantGwp: real := 675.0

  /** The global assumptions the form asks for first. */
  datatype Assumptions = Assumptions(
    lifetimeYears: int,
    gridFactor: real,
    refrigerantGwp: real,
    embodiedFactor: real)

  /** Every figure the results panel shows. */
  datatype LccpResult = LccpResult(
    baseDirect: real,
    baseIndirect: real,
    directCfMult: real,
    indirectCfMult: real,
    adjDirect: real,
    adjIndirect: real,
    totalLccp: real)

  function BaseDirect(a: Assumptions, system: SystemInputs): real {
    BaselineDirect(system, a.refrigerantGwp, a.lifetimeYears, a.embodiedFactor)
  }

  function BaseIndirect(a: Assumptions, system: SystemInputs): real
    requires RatingsNonZero(system)
  {
    BaselineIndirect(system, a.lifetimeYears, a.gridFactor)
  }

  /** Total LCCP: adjusted direct plus adjusted indirect emissions. */
  function TotalLccp(a: Assumptions, system: SystemInputs, d: DirectCFInputs, i: IndirectCFInputs): real
    requires RatingsNonZero(system)
  {
    BaseDirect(a, system) * DirectMultiplier(d) + BaseIndirect(a, system) * IndirectMultiplier(i)
  }

  /** The calculation behind the results panel: both baselines, both
      multipliers from the builders, the adjusted figures and their sum.
      Each multiplier lies in its range. */
  method ComputeLccp(a: Assumptions, system: SystemInputs, d: DirectCFInputs, i: IndirectCFInputs)
    returns (r: LccpResult)
    requires RatingsNonZero(system)
    ensures r.baseDirect == BaseDirect(a, system)
    ensures r.baseIndirect == BaseIndirect(a, system)
    ensures r.directCfMult == DirectMultiplier(d)
    ensures r.indirectCfMult == IndirectMultiplier(i)
    ensures r.adjDirect == r.baseDirect * r.directCfMult
    ensures r.adjIndirect == r.baseIndirect * r.indirectCfMult
    ensures r.totalLccp == r.adjDirect + r.adjIndirect == TotalLccp(a, system, d, i)
    ensures InRange(r)
  {
    var baseDirect := BaselineDirect(system, a.refrigerantGwp, a.lifetimeYears, a.embodiedFactor);
    var baseIndirect := BaselineIndirect(system, a.lifetimeYears, a.gridFactor);

    var directCfMult := BuildDirectCF(d);
    var indirectCfMult := BuildIndirectCF(i);

    var adjDirect := baseDirect * directCfMult;
    var adjIndirect := baseIndirect * indirectCfMult;
    var totalLccp := adjDirect + adjIndirect;
    r := LccpResult(baseDirect, baseIndirect, directCfMult, indirectCfMult,
                    adjDirect, adjIndirect, totalLccp);

    DirectMultiplierBounds(d);
    IndirectMultiplierBounds(i);
  }

  /** Both multipliers lie between their extremes. */
  predicate InRange(r: LccpResult) {
    DirectLow <= r.directCfMult <= DirectHigh && IndirectLow <= r.indirectCfMult <= 1.0
  }

  /** In a result the calculation produces, a non-negative baseline is
      never scaled outside its multiplier's range, and with both baselines
      non-negative neither is the total. */
  lemma ResultBounds(r: LccpResult)
    requires InRange(r)
    requires r.adjDirect == r.baseDirect * r.directCfMult
    requires r.adjIndirect == r.baseIndirect * r.indirectCfMult
    requires r.totalLccp == r.adjDirect + r.adjIndirect
    ensures r.baseDirect >= 0.0
        ==> DirectLow * r.baseDirect <= r.adjDirect <= DirectHigh * r.baseDirect
    ensures r.baseIndirect >= 0.0
        ==> IndirectLow * r.baseIndirect <= r.adjIndirect <= r.baseIndirect
    ensures r.baseDirect >= 0.0 && r.baseIndirect >= 0.0
        ==> DirectLow * r.baseDirect + IndirectLow * r.baseIndirect
            <= r.totalLccp <= DirectHigh * r.baseDirect + r.baseIndirect
  {
    if r.baseDirect >= 0.0 {
      DirectScaled(r.baseDirect, r.directCfMult, r.adjDirect);
    }
    if r.baseIndirect >= 0.0 {
      IndirectScaled(r.baseIndirect, r.indirectCfMult, r.adjIndirect);
    }
  }

  lemma DirectScaled(base: real, m: real, adj: real)
    requires base >= 0.0 && DirectLow <= m <= DirectHigh && adj == base * m
    ensures DirectLow * base <= adj <= DirectHigh * base
  {
    ScaledWithin(base, DirectLow, m, DirectHigh);
  }

  lemma IndirectScaled(base: real, m: real, adj: real)
    requires base >= 0.0 && IndirectLow <= m <= 1.0 && adj == base * m
    ensures IndirectLow * base <= adj <= base
  {
    ScaledWithin(base, IndirectLow, m, 1.0);
    ScaledAtMost(base, m);
  }

  /** A non-negative amount scaled by a factor between `lo` and `hi` lies
      between the amount scaled by `lo` and by `hi`. */
  lemma ScaledWithin(base: real, lo: real, m: real, hi: real)
    requires base >= 0.0 && lo <= m <= hi
    ensures lo * base <= base * m <= hi * base
  {
    MulLeftMono(base, lo, m);
    MulLeftMono(base, m, hi);
  }

  /** A non-negative amount scaled by at most 1.0 does not grow. */
  lemma ScaledAtMost(base: real, m: real)
    requires base >= 0.0 && m <= 1.0
    ensures base * m <= base
  {
    MulLeftMono(base, m, 1.0);
  }

  /** Demand flexibility never raises the total when the indirect baseline
      is non-negative. */
  lemma DemandFlexNeverRaisesTotal(a: Assumptions, system: SystemInputs, d: DirectCFInputs,
                                   i: IndirectCFInputs)
    requires RatingsNonZero(system) && BaseIndirect(a, system) >= 0.0
    ensures TotalLccp(a, system, d, i.(demandFlex := true))
         <= TotalLccp(a, system, d, i.(demandFlex := false))
  {
    var off := IndirectMultiplier(i.(demandFlex := false));
    IndirectFlagsScaleOnly(i);
    IndirectMultiplierBounds(i.(demandFlex := false));
    MulLeftMono(BaseIndirect(a, system), off * DemandFlexFactor, off);
  }

  /** Leak detectors never raise the total when the direct baseline is
      non-negative. */
  lemma LeakDetectorsNeverRaiseTotal(a: Assumptions, system: SystemInputs, d: DirectCFInputs,
                                     i: IndirectCFInputs)
    requires RatingsNonZero(system) && BaseDirect(a, system) >= 0.0
    ensures TotalLccp(a, system, d.(leakDetectors := true), i)
         <= TotalLccp(a, system, d.(leakDetectors := false), i)
  {
    var off := DirectMultiplier(d.(leakDetectors := false));
    DirectFlagsScaleOnly(d);
    DirectMultiplierBounds(d.(leakDetectors := false));
    MulLeftMono(BaseDirect(a, system), off * LeakDetectorFactor, off);
  }

  // ---------------------------------------------------------------
  // The form's defaults
  // ---------------------------------------------------------------

  const DefaultAssumptions: Assumptions :=
    Assumptions(DefaultLifetimeYears, DefaultGridKgCo2PerKwh, DefaultRefrigerantGwp,
                EmbodiedKgCo2PerKgMaterial)

  /** 36000 Btuh, SEER2 15, HSPF2 8.5, 3 kg charge with none reclaimed, 4%
      leakage a year, 85% lost at end of life, 140 kg of material. */
  const DefaultSystem: SystemInputs :=
    SystemInputs(36000.0, 15.0, 8.5, 3.0, 0.0, 4.0, 85.0, 140.0)

  /** Nothing reclaimed, 12 cu.ft, neither box ticked, safety class "1". */
  const DefaultDirectCF: DirectCFInputs := DirectCFInputs(0.0, 12.0, false, false, "1")

  /** A single-stage compressor and neither box ticked. */
  const DefaultIndirectCF: IndirectCFInputs := IndirectCFInputs("1-stg", false, false)

  /** The defaults leave both multipliers at 1.0, so the total is the sum of
      the baselines: 2603.5 + 478800/17, about 30768.2 kgCO2e. */
  lemma DefaultTotal()
    ensures TotalLccp(DefaultAssumptions, DefaultSystem, DefaultDirectCF, DefaultIndirectCF)
         == 2603.5 + 478800.0 / 17.0
    ensures 30768.2 < 2603.5 + 478800.0 / 17.0 < 30768.21
  {
    DirectNeutral(DefaultDirectCF);
    IndirectNeutral(DefaultIndirectCF);
    DefaultDirectScenario();
    DefaultIndirectScenario();
  }
}
