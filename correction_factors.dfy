/** The two correction-factor builders. Each starts from a neutral multiplier
    of 1.0 and scales it once per feature. The builders are modelled as the
    step-by-step methods they are; each is proved equal to a specification
    that reads the same adjustments from ordered first-match tables and
    multiplies one factor per feature. */
module CorrectionFactors {
  import opened AsciiText

  /** Features that adjust the direct (refrigerant) emissions. */
  datatype DirectCFInputs = DirectCFInputs(
    reclaimedPerUnitPct: real,
    unitVolumeCuft: real,
    manufacturedInUsa: bool,
    leakDetectors: bool,
    refrigerantSafetyClass: string)

  /** Features that adjust the indirect (energy) emissions. */
  datatype IndirectCFInputs = IndirectCFInputs(
    compressorType: string,
    demandFlex: bool,
    connectedThermostat: bool)

  // ---------------------------------------------------------------
  // First-match tables and products of factors
  // ---------------------------------------------------------------

  /** Index of the first item that applies, or `|items|` when none does. */
  function FirstMatch<T>(items: seq<T>, applies: T -> bool): nat
    decreases |items|
  {
    if items == [] then 0
    else if applies(items[0]) then 0
    else 1 + FirstMatch(items[1..], applies)
  }

  /** `FirstMatch` finds the first item that applies: it applies (unless no
      item does and the index is `|items|`), and no item before it does. */
  lemma {:induction false} FirstMatchSpec<T>(items: seq<T>, applies: T -> bool)
    ensures FirstMatch(items, applies) <= |items|
    ensures FirstMatch(items, applies) < |items| ==> applies(items[FirstMatch(items, applies)])
    ensures forall j :: 0 <= j < FirstMatch(items, applies) ==> !applies(items[j])
    decreases |items|
  {
    if items != [] && !applies(items[0]) {
      var rest := items[1..];
      FirstMatchSpec(rest, applies);
      forall j | 1 <= j < FirstMatch(items, applies)
        ensures !applies(items[j])
      {
        assert items[j] == rest[j - 1];
      }
    }
  }

  /** A numeric tier: an inclusive lower or upper threshold and its factor. */
  datatype Tier = AtLeast(bound: real, factor: real) | AtMost(bound: real, factor: real)

  predicate TierApplies(t: Tier, x: real) {
    match t
    case AtLeast(b, _) => x >= b
    case AtMost(b, _) => x <= b
  }

  /** The factor of the first tier that `x` reaches; 1.0 when it reaches none. */
  function TierFactor(tiers: seq<Tier>, x: real): real {
    var k := FirstMatch(tiers, t => TierApplies(t, x));
    if k < |tiers| then tiers[k].factor else 1.0
  }

  /** A string rule: a prefix or a substring to look for, and its factor. */
  datatype Rule = PrefixRule(pattern: string, factor: real) | InfixRule(pattern: string, factor: real)

  predicate RuleApplies(r: Rule, s: string) {
    match r
    case PrefixRule(p, _) => StartsWith(s, p)
    case InfixRule(p, _) => Contains(s, p)
  }

  /** The factor of the first rule that `s` satisfies; 1.0 when it satisfies none. */
  function RuleFactor(rules: seq<Rule>, s: string): real {
    var k := FirstMatch(rules, r => RuleApplies(r, s));
    if k < |rules| then rules[k].factor else 1.0
  }

  function FlagFactor(on: bool, factor: real): real {
    if on then factor else 1.0
  }

  /** Product of the factors, multiplied in from the left as an accumulator
      starting at 1.0 does. */
  function Product(fs: seq<real>): real
    decreases |fs|
  {
    if fs == [] then 1.0 else Product(fs[..|fs| - 1]) * fs[|fs| - 1]
  }

  // ---------------------------------------------------------------
  // Direct correction factor
  // ---------------------------------------------------------------

  /** Share of refrigerant reclaimed per unit: 50% or more, else 20% or more. */
  const ReclaimedTiers: seq<Tier> := [AtLeast(50.0, 0.90), AtLeast(20.0, 0.95)]

  /** Unit volume in cubic feet: at most 6, else at most 10. */
  const VolumeTiers: seq<Tier> := [AtMost(6.0, 0.97), AtMost(10.0, 0.99)]

  const ManufacturedInUsaFactor: real := 0.98
  const LeakDetectorFactor: real := 0.95

  /** Safety classes that adjust the multiplier, after normalisation. */
  const SafetyAdjustments: map<string, real> := map["2L" := 0.995, "3" := 1.01]

  /** `refrigerant_safety_class.strip().upper()`. */
  function NormalizeSafetyClass(s: string): string {
    Upper(Trim(s))
  }

  /** Exact lookup of the normalised class; any other class leaves the
      multiplier as it is. */
  function SafetyFactor(s: string): real {
    var key := NormalizeSafetyClass(s);
    if key in SafetyAdjustments then SafetyAdjustments[key] else 1.0
  }

  /** One factor per feature, in the builder's order. */
  function DirectFactors(cf: DirectCFInputs): seq<real> {
    [ TierFactor(ReclaimedTiers, cf.reclaimedPerUnitPct),
      TierFactor(VolumeTiers, cf.unitVolumeCuft),
      FlagFactor(cf.manufacturedInUsa, ManufacturedInUsaFactor),
      FlagFactor(cf.leakDetectors, LeakDetectorFactor),
      SafetyFactor(cf.refrigerantSafetyClass) ]
  }

  function DirectMultiplier(cf: DirectCFInputs): real {
    Product(DirectFactors(cf))
  }

  /** `build_direct_cf`: the accumulator scaled feature by feature. After
      each block the accumulator is the product of the factors so far. */
  method BuildDirectCF(cf: DirectCFInputs) returns (cfVal: real)
    ensures cfVal == DirectMultiplier(cf)
  {
    ghost var fs := DirectFactors(cf);
    cfVal := 1.0;

    if cf.reclaimedPerUnitPct >= 50.0 {
      cfVal := cfVal * 0.9;
    } else if cf.reclaimedPerUnitPct >= 20.0 {
      cfVal := cfVal * 0.95;
    }
    ReclaimedStep(fs, cfVal, cf.reclaimedPerUnitPct);
    ghost var before := cfVal;

    if cf.unitVolumeCuft <= 6.0 {
      cfVal := cfVal * 0.97;
    } else if cf.unitVolumeCuft <= 10.0 {
      cfVal := cfVal * 0.99;
    }
    VolumeStep(fs, before, cfVal, cf.unitVolumeCuft);
    before := cfVal;

    if cf.manufacturedInUsa {
      cfVal := cfVal * 0.98;
    }
    FlagStep(fs, 2, before, cfVal, cf.manufacturedInUsa, ManufacturedInUsaFactor);
    before := cfVal;

    if cf.leakDetectors {
      cfVal := cfVal * 0.95;
    }
    FlagStep(fs, 3, before, cfVal, cf.leakDetectors, LeakDetectorFactor);
    before := cfVal;

    var safety := Upper(Trim(cf.refrigerantSafetyClass));
    if safety == "2L" {
      cfVal := cfVal * 0.995;
    } else if safety == "3" {
      cfVal := cfVal * 1.01;
    }
    SafetyStep(fs, before, cfVal, cf.refrigerantSafetyClass);
  }

  // ---------------------------------------------------------------
  // Indirect correction factor
  // ---------------------------------------------------------------

  /** Compressor patterns, tried in this order: fixed stage, two stage,
      variable speed. */
  const CompressorRules: seq<Rule> :=
    [PrefixRule("1", 1.00), InfixRule("2", 0.95), InfixRule("var", 0.90)]

  const DemandFlexFactor: real := 0.97
  const ConnectedThermostatFactor: real := 0.98

  /** `compressor_type.lower().strip()`. */
  function NormalizeCompressor(s: string): string {
    Trim(Lower(s))
  }

  function CompressorFactor(s: string): real {
    RuleFactor(CompressorRules, NormalizeCompressor(s))
  }

  /** One factor per feature, in the builder's order. */
  function IndirectFactors(cf: IndirectCFInputs): seq<real> {
    [ CompressorFactor(cf.compressorType),
      FlagFactor(cf.demandFlex, DemandFlexFactor),
      FlagFactor(cf.connectedThermostat, ConnectedThermostatFactor) ]
  }

  function IndirectMultiplier(cf: IndirectCFInputs): real {
    Product(IndirectFactors(cf))
  }

  /** `build_indirect_cf`: the accumulator scaled feature by feature. */
  method BuildIndirectCF(cf: IndirectCFInputs) returns (cfVal: real)
    ensures cfVal == IndirectMultiplier(cf)
  {
    cfVal := 1.0;

    var ctype := Trim(Lower(cf.compressorType));
    if StartsWith(ctype, "1") {
      cfVal := cfVal * 1.00;
    } else if Contains(ctype, "2") {
      cfVal := cfVal * 0.95;
    } else if Contains(ctype, "var") {
      cfVal := cfVal * 0.90;
    }
    ghost var compressor := cfVal;
    assert compressor == CompressorFactor(cf.compressorType) by {
      CompressorSelection(cf.compressorType);
    }

    if cf.demandFlex {
      cfVal := cfVal * 0.97;
    }

    if cf.connectedThermostat {
      cfVal := cfVal * 0.98;
    }
    Product3(compressor, FlagFactor(cf.demandFlex, DemandFlexFactor),
             FlagFactor(cf.connectedThermostat, ConnectedThermostatFactor));
  }

  // ---------------------------------------------------------------
  // Tier and rule selection
  // ---------------------------------------------------------------

  /** Exactly one reclaimed tier applies: 50% or more earns 0.90 and never
      also 0.95; 20% up to 50% earns 0.95; below 20% earns nothing. */
  lemma ReclaimedTierSelection(pct: real)
    ensures pct >= 50.0 ==> TierFactor(ReclaimedTiers, pct) == 0.90
    ensures 20.0 <= pct < 50.0 ==> TierFactor(ReclaimedTiers, pct) == 0.95
    ensures pct < 20.0 ==> TierFactor(ReclaimedTiers, pct) == 1.0
  {
    var k := FirstMatch(ReclaimedTiers, t => TierApplies(t, pct));
    FirstMatchSpec(ReclaimedTiers, t => TierApplies(t, pct));
    if pct < 50.0 {
      assert !TierApplies(ReclaimedTiers[0], pct);
      assert k != 0;
    }
  }

  /** Exactly one volume tier applies: 6 cu.ft or less earns 0.97 and never
      also 0.99; above 6 up to 10 earns 0.99; above 10 earns nothing. */
  lemma VolumeTierSelection(volume: real)
    ensures volume <= 6.0 ==> TierFactor(VolumeTiers, volume) == 0.97
    ensures 6.0 < volume <= 10.0 ==> TierFactor(VolumeTiers, volume) == 0.99
    ensures volume > 10.0 ==> TierFactor(VolumeTiers, volume) == 1.0
  {
    var k := FirstMatch(VolumeTiers, t => TierApplies(t, volume));
    FirstMatchSpec(VolumeTiers, t => TierApplies(t, volume));
    if volume > 6.0 {
      assert !TierApplies(VolumeTiers[0], volume);
      assert k != 0;
    }
  }

  /** The normalised safety class is compared exactly: "2L" gives 0.995,
      "3" gives 1.01, and every other class (among them "1" and "2") gives 1.0. */
  lemma SafetySelection(s: string)
    ensures SafetyFactor(s) == 0.995 <==> NormalizeSafetyClass(s) == "2L"
    ensures SafetyFactor(s) == 1.01 <==> NormalizeSafetyClass(s) == "3"
    ensures SafetyFactor(s) == 1.0
        <==> NormalizeSafetyClass(s) != "2L" && NormalizeSafetyClass(s) != "3"
  {
  }

  /** First match wins on the normalised compressor string: a leading "1"
      is a no-op whatever follows; otherwise any "2" gives 0.95 even next to
      "var"; otherwise "var" gives 0.90; anything else passes through. */
  lemma CompressorSelection(s: string)
    ensures var c := NormalizeCompressor(s);
      (StartsWith(c, "1") ==> CompressorFactor(s) == 1.00)
      && (!StartsWith(c, "1") && Contains(c, "2") ==> CompressorFactor(s) == 0.95)
      && (!StartsWith(c, "1") && !Contains(c, "2") && Contains(c, "var")
          ==> CompressorFactor(s) == 0.90)
      && (!StartsWith(c, "1") && !Contains(c, "2") && !Contains(c, "var")
          ==> CompressorFactor(s) == 1.0)
  {
    var c := NormalizeCompressor(s);
    var k := FirstMatch(CompressorRules, r => RuleApplies(r, c));
    FirstMatchSpec(CompressorRules, r => RuleApplies(r, c));
    if !StartsWith(c, "1") {
      assert !RuleApplies(CompressorRules[0], c);
      assert k != 0;
      if !Contains(c, "2") {
        assert !RuleApplies(CompressorRules[1], c);
        assert k != 1;
      }
    }
  }

  // ---------------------------------------------------------------
  // The classes and compressor types the form offers
  // ---------------------------------------------------------------

  /** The safety classes offered: "1" and "2" leave the multiplier alone,
      "3" is penalised and "2L" discounted. */
  lemma SafetyClassExamples()
    ensures SafetyFactor("1") == 1.0
    ensures SafetyFactor("2") == 1.0
    ensures SafetyFactor("3") == 1.01
    ensures SafetyFactor("2L") == 0.995
  {
    SafetyClassNormalForms();
  }

  /** The safety class is read without regard to surrounding whitespace or
      letter case. */
  lemma SafetyIgnoresPaddingAndCase(pre: string, s: string, post: string)
    requires AllSpace(pre) && AllSpace(post)
    ensures SafetyFactor(pre + s + post) == SafetyFactor(s)
    ensures SafetyFactor(Lower(s)) == SafetyFactor(s)
  {
    SafetyNormalFormIgnoresPaddingAndCase(pre, s, post);
    SameClassSameFactor(pre + s + post, s);
    SameClassSameFactor(Lower(s), s);
  }

  lemma SameClassSameFactor(x: string, y: string)
    requires NormalizeSafetyClass(x) == NormalizeSafetyClass(y)
    ensures SafetyFactor(x) == SafetyFactor(y)
  {
  }

  lemma SafetyNormalFormIgnoresPaddingAndCase(pre: string, s: string, post: string)
    requires AllSpace(pre) && AllSpace(post)
    ensures NormalizeSafetyClass(pre + s + post) == NormalizeSafetyClass(s)
    ensures NormalizeSafetyClass(Lower(s)) == NormalizeSafetyClass(s)
  {
    TrimIgnoresPadding(pre, s, post);
    LowerTrimCommute(s);
    UpperOfLower(Trim(s));
  }

  /** "2l", with any whitespace around it, is still class 2L. */
  lemma SafetyClassTwoLPadded(pre: string, post: string)
    requires AllSpace(pre) && AllSpace(post)
    ensures SafetyFactor(pre + "2l" + post) == 0.995
  {
    LowerCaseTwoL();
    SafetyIgnoresPaddingAndCase(pre, "2l", post);
  }

  lemma LowerCaseTwoL()
    ensures SafetyFactor("2l") == 0.995
  {
    assert Lower("2L") == "2l";
    SafetyIgnoresPaddingAndCase("", "2L", "");
    SafetyClassExamples();
  }

  /** The class typed as " 2l " earns the 2L discount. */
  lemma SafetyClassPadded()
    ensures SafetyFactor(" 2l ") == 0.995
  {
    SafetyClassTwoLPadded(" ", " ");
    assert " 2l " == " " + "2l" + " ";
  }

  /** The offered classes are their own normal forms. */
  lemma SafetyClassNormalForms()
    ensures NormalizeSafetyClass("1") == "1"
    ensures NormalizeSafetyClass("2") == "2"
    ensures NormalizeSafetyClass("3") == "3"
    ensures NormalizeSafetyClass("2L") == "2L"
  {
    assert TrimStart("1") == "1" && TrimEnd("1") == "1" && Upper("1") == "1";
    assert TrimStart("2") == "2" && TrimEnd("2") == "2" && Upper("2") == "2";
    assert TrimStart("3") == "3" && TrimEnd("3") == "3" && Upper("3") == "3";
    assert TrimStart("2L") == "2L" && TrimEnd("2L") == "2L" && Upper("2L") == "2L";
  }

  /** The compressor type is read without regard to surrounding whitespace
      or letter case. */
  lemma CompressorIgnoresPaddingAndCase(pre: string, s: string, post: string)
    requires AllSpace(pre) && AllSpace(post)
    ensures CompressorFactor(pre + s + post) == CompressorFactor(s)
    ensures CompressorFactor(Upper(s)) == CompressorFactor(s)
  {
    LowerConcat(pre, s, post);
    TrimIgnoresPadding(Lower(pre), Lower(s), Lower(post));
    LowerOfUpper(s);
  }

  /** "1-stg" is the explicit no-op of the fixed-stage compressor. */
  lemma FixedStageFactor()
    ensures CompressorFactor("1-stg") == 1.0
  {
    FixedStageNormal();
    assert StartsWith("1-stg", "1");
    CompressorSelection("1-stg");
  }

  /** "2-stg" earns the two-stage factor. */
  lemma TwoStageFactor()
    ensures CompressorFactor("2-stg") == 0.95
  {
    TwoStageNormal();
    assert !StartsWith("2-stg", "1") && OccursAt("2-stg", "2", 0);
    CompressorSelection("2-stg");
  }

  /** "variable" earns the variable-speed factor. */
  lemma VariableFactor()
    ensures CompressorFactor("variable") == 0.90
  {
    VariableNormal();
    assert !StartsWith("variable", "1") && OccursAt("variable", "var", 0);
    VariableHasNoTwo();
    CompressorSelection("variable");
  }

  /** A leading "1" wins over a later "2" and "var". */
  lemma LeadingOneWins()
    ensures Contains("12-var", "2") && Contains("12-var", "var")
    ensures CompressorFactor("12-var") == 1.0
  {
    LeadingOneNormal();
    assert OccursAt("12-var", "2", 1) && OccursAt("12-var", "var", 3);
    assert StartsWith("12-var", "1");
    CompressorSelection("12-var");
  }

  lemma FixedStageNormal() ensures NormalizeCompressor("1-stg") == "1-stg" {
    NoCapitalsUnpadded("1-stg");
  }

  lemma TwoStageNormal() ensures NormalizeCompressor("2-stg") == "2-stg" {
    NoCapitalsUnpadded("2-stg");
  }

  lemma VariableNormal() ensures NormalizeCompressor("variable") == "variable" {
    NoCapitalsUnpadded("variable");
  }

  lemma LeadingOneNormal() ensures NormalizeCompressor("12-var") == "12-var" {
    NoCapitalsUnpadded("12-var");
  }

  lemma NoCapitalsUnpadded(s: string)
    requires forall i :: 0 <= i < |s| ==> !('A' <= s[i] <= 'Z')
    requires Unpadded(s)
    ensures NormalizeCompressor(s) == s
  {
    LowerNoCapitals(s);
    TrimUnpadded(s);
  }

  /** "variable" holds no "2", so the two-stage rule passes it by. */
  lemma VariableHasNoTwo()
    ensures !Contains("variable", "2")
  {
    var v := "variable";
    forall i | 0 <= i <= |v| - 1 ensures !OccursAt(v, "2", i) {
      assert v[i..i + 1][0] == v[i] != '2';
    }
  }

  // ---------------------------------------------------------------
  // Neutral inputs, flags and bounds of the multipliers
  // ---------------------------------------------------------------

  /** Less than 20% reclaimed, a unit above 10 cu.ft, neither flag and
      safety class "1" leave the direct multiplier at exactly 1.0. */
  lemma DirectNeutral(cf: DirectCFInputs)
    requires cf.reclaimedPerUnitPct < 20.0 && cf.unitVolumeCuft > 10.0
    requires !cf.manufacturedInUsa && !cf.leakDetectors
    requires cf.refrigerantSafetyClass == "1"
    ensures DirectMultiplier(cf) == 1.0
  {
    ReclaimedTierSelection(cf.reclaimedPerUnitPct);
    VolumeTierSelection(cf.unitVolumeCuft);
    ClassOneNeutral(cf.refrigerantSafetyClass);
    var fs := DirectFactors(cf);
    assert fs[0] == 1.0 && fs[1] == 1.0 && fs[2] == 1.0 && fs[3] == 1.0 && fs[4] == 1.0;
    ProductOfOnes(fs);
  }

  lemma ClassOneNeutral(s: string)
    requires s == "1"
    ensures SafetyFactor(s) == 1.0
  {
    SafetyClassExamples();
  }

  /** Compressor "1-stg" with neither flag leaves the indirect multiplier at
      exactly 1.0. */
  lemma IndirectNeutral(cf: IndirectCFInputs)
    requires cf.compressorType == "1-stg" && !cf.demandFlex && !cf.connectedThermostat
    ensures IndirectMultiplier(cf) == 1.0
  {
    FixedStageFactor();
    var fs := IndirectFactors(cf);
    assert fs[0] == 1.0 && fs[1] == 1.0 && fs[2] == 1.0;
    ProductOfOnes(fs);
  }

  /** Each direct flag multiplies by its own factor and changes nothing else. */
  lemma DirectFlagsScaleOnly(cf: DirectCFInputs)
    ensures DirectMultiplier(cf.(manufacturedInUsa := true))
         == DirectMultiplier(cf.(manufacturedInUsa := false)) * ManufacturedInUsaFactor
    ensures DirectMultiplier(cf.(leakDetectors := true))
         == DirectMultiplier(cf.(leakDetectors := false)) * LeakDetectorFactor
  {
    ManufacturedScalesOnly(cf);
    LeakDetectorsScaleOnly(cf);
  }

  lemma ManufacturedScalesOnly(cf: DirectCFInputs)
    ensures DirectMultiplier(cf.(manufacturedInUsa := true))
         == DirectMultiplier(cf.(manufacturedInUsa := false)) * ManufacturedInUsaFactor
  {
    var fs, gs := DirectFactors(cf.(manufacturedInUsa := false)), DirectFactors(cf.(manufacturedInUsa := true));
    assert fs[0] == gs[0] && fs[1] == gs[1] && fs[3] == gs[3] && fs[4] == gs[4];
    ProductScaleAt(fs, gs, 2, ManufacturedInUsaFactor);
  }

  lemma LeakDetectorsScaleOnly(cf: DirectCFInputs)
    ensures DirectMultiplier(cf.(leakDetectors := true))
         == DirectMultiplier(cf.(leakDetectors := false)) * LeakDetectorFactor
  {
    var fs, gs := DirectFactors(cf.(leakDetectors := false)), DirectFactors(cf.(leakDetectors := true));
    assert fs[0] == gs[0] && fs[1] == gs[1] && fs[2] == gs[2] && fs[4] == gs[4];
    ProductScaleAt(fs, gs, 3, LeakDetectorFactor);
  }

  /** Each indirect flag multiplies by its own factor and changes nothing else. */
  lemma IndirectFlagsScaleOnly(cf: IndirectCFInputs)
    ensures IndirectMultiplier(cf.(demandFlex := true))
         == IndirectMultiplier(cf.(demandFlex := false)) * DemandFlexFactor
    ensures IndirectMultiplier(cf.(connectedThermostat := true))
         == IndirectMultiplier(cf.(connectedThermostat := false)) * ConnectedThermostatFactor
  {
    DemandFlexScalesOnly(cf);
    ThermostatScalesOnly(cf);
  }

  lemma DemandFlexScalesOnly(cf: IndirectCFInputs)
    ensures IndirectMultiplier(cf.(demandFlex := true))
         == IndirectMultiplier(cf.(demandFlex := false)) * DemandFlexFactor
  {
    var c := CompressorFactor(cf.compressorType);
    var t := FlagFactor(cf.connectedThermostat, ConnectedThermostatFactor);
    assert IndirectFactors(cf.(demandFlex := false)) == [c, 1.0, t];
    assert IndirectFactors(cf.(demandFlex := true)) == [c, DemandFlexFactor, t];
    ProductScaleAt([c, 1.0, t], [c, DemandFlexFactor, t], 1, DemandFlexFactor);
  }

  lemma ThermostatScalesOnly(cf: IndirectCFInputs)
    ensures IndirectMultiplier(cf.(connectedThermostat := true))
         == IndirectMultiplier(cf.(connectedThermostat := false)) * ConnectedThermostatFactor
  {
    var c := CompressorFactor(cf.compressorType);
    var d := FlagFactor(cf.demandFlex, DemandFlexFactor);
    assert IndirectFactors(cf.(connectedThermostat := false)) == [c, d, 1.0];
    assert IndirectFactors(cf.(connectedThermostat := true)) == [c, d, ConnectedThermostatFactor];
    ProductScaleAt([c, d, 1.0], [c, d, ConnectedThermostatFactor], 2, ConnectedThermostatFactor);
  }

  /** Every discount taken, and safety class 2L. */
  const DirectLowFactors: seq<real> := [0.9, 0.97, 0.98, 0.95, 0.995]
  /** No discount, and the class 3 penalty. */
  const DirectHighFactors: seq<real> := [1.0, 1.0, 1.0, 1.0, 1.01]
  const DirectLow: real := 0.9 * 0.97 * 0.98 * 0.95 * 0.995
  const DirectHigh: real := 1.01

  /** Each direct factor lies between its largest discount and its ceiling. */
  lemma DirectFactorRanges(cf: DirectCFInputs)
    ensures Between(DirectLowFactors, DirectFactors(cf), DirectHighFactors)
  {
    DirectTierRanges(cf);
    DirectSafetyRange(cf);
    var fs := DirectFactors(cf);
    BetweenFive(DirectLowFactors, fs, DirectHighFactors);
  }

  lemma DirectTierRanges(cf: DirectCFInputs)
    ensures 0.9 <= DirectFactors(cf)[0] <= 1.0 && 0.97 <= DirectFactors(cf)[1] <= 1.0
  {
    ReclaimedFactorRange(cf.reclaimedPerUnitPct);
    VolumeFactorRange(cf.unitVolumeCuft);
  }

  lemma DirectSafetyRange(cf: DirectCFInputs)
    ensures 0.995 <= DirectFactors(cf)[4] <= 1.01
  {
    SafetyFactorRange(cf.refrigerantSafetyClass);
  }

  lemma ReclaimedFactorRange(pct: real)
    ensures 0.9 <= TierFactor(ReclaimedTiers, pct) <= 1.0
  {
    ReclaimedTierSelection(pct);
  }

  lemma VolumeFactorRange(volume: real)
    ensures 0.97 <= TierFactor(VolumeTiers, volume) <= 1.0
  {
    VolumeTierSelection(volume);
  }

  lemma SafetyFactorRange(s: string)
    ensures 0.995 <= SafetyFactor(s) <= 1.01
  {
    SafetySelection(s);
  }

  /** The direct multiplier stays between its two extremes. */
  lemma DirectMultiplierBounds(cf: DirectCFInputs)
    ensures DirectLow <= DirectMultiplier(cf) <= DirectHigh
  {
    DirectFactorRanges(cf);
    ProductBetween(DirectLowFactors, DirectFactors(cf), DirectHighFactors);
    DirectExtremeProducts();
  }

  lemma DirectExtremeProducts()
    ensures Product(DirectLowFactors) == DirectLow
    ensures Product(DirectHighFactors) == DirectHigh
  {
    Product5(0.9, 0.97, 0.98, 0.95, 0.995);
    Product5(1.0, 1.0, 1.0, 1.0, 1.01);
  }

  /** Both extremes of the direct multiplier are reached. */
  lemma DirectMultiplierExtremes(cf: DirectCFInputs)
    ensures cf.reclaimedPerUnitPct >= 50.0 && cf.unitVolumeCuft <= 6.0
            && cf.manufacturedInUsa && cf.leakDetectors && cf.refrigerantSafetyClass == "2L"
        ==> DirectMultiplier(cf) == DirectLow
    ensures cf.reclaimedPerUnitPct < 20.0 && cf.unitVolumeCuft > 10.0
            && !cf.manufacturedInUsa && !cf.leakDetectors && cf.refrigerantSafetyClass == "3"
        ==> DirectMultiplier(cf) == DirectHigh
  {
    ReclaimedTierSelection(cf.reclaimedPerUnitPct);
    VolumeTierSelection(cf.unitVolumeCuft);
    SafetyClassExamples();
    DirectExtremeProducts();
  }

  /** Variable speed with both flags. */
  const IndirectLowFactors: seq<real> := [0.90, 0.97, 0.98]
  const IndirectHighFactors: seq<real> := [1.0, 1.0, 1.0]
  const IndirectLow: real := 0.90 * 0.97 * 0.98

  /** Each indirect factor lies between its largest discount and 1.0. */
  lemma IndirectFactorRanges(cf: IndirectCFInputs)
    ensures Between(IndirectLowFactors, IndirectFactors(cf), IndirectHighFactors)
  {
    IndirectCompressorRange(cf);
    var fs := IndirectFactors(cf);
    BetweenThree(IndirectLowFactors, fs, IndirectHighFactors);
  }

  lemma IndirectCompressorRange(cf: IndirectCFInputs)
    ensures 0.90 <= IndirectFactors(cf)[0] <= 1.0
  {
    CompressorFactorRange(cf.compressorType);
  }

  lemma CompressorFactorRange(s: string)
    ensures 0.90 <= CompressorFactor(s) <= 1.0
  {
    CompressorSelection(s);
  }

  /** The indirect multiplier never exceeds 1.0 and never falls below its
      lowest value. */
  lemma IndirectMultiplierBounds(cf: IndirectCFInputs)
    ensures IndirectLow <= IndirectMultiplier(cf) <= 1.0
  {
    IndirectFactorRanges(cf);
    ProductBetween(IndirectLowFactors, IndirectFactors(cf), IndirectHighFactors);
    IndirectExtremeProducts();
  }

  lemma IndirectExtremeProducts()
    ensures Product(IndirectLowFactors) == IndirectLow
    ensures Product(IndirectHighFactors) == 1.0
  {
    Product3(0.90, 0.97, 0.98);
    Product3(1.0, 1.0, 1.0);
  }

  /** The lowest indirect multiplier is reached by a variable-speed
      compressor with both flags. */
  lemma IndirectMultiplierLowest(cf: IndirectCFInputs)
    requires cf.compressorType == "variable" && cf.demandFlex && cf.connectedThermostat
    ensures IndirectMultiplier(cf) == IndirectLow
  {
    VariableFactor();
    IndirectExtremeProducts();
  }

  // ---------------------------------------------------------------
  // One block of a builder: the running value before and after it
  // ---------------------------------------------------------------

  /** The reclaimed block turns the starting 1.0 into the product of the
      first factor. */
  lemma ReclaimedStep(fs: seq<real>, after: real, pct: real)
    requires 1 <= |fs| && fs[0] == TierFactor(ReclaimedTiers, pct)
    requires pct >= 50.0 ==> after == 1.0 * 0.9
    requires 20.0 <= pct < 50.0 ==> after == 1.0 * 0.95
    requires pct < 20.0 ==> after == 1.0
    ensures after == Product(fs[..1])
  {
    assert after == 1.0 * fs[0] by { ReclaimedTierSelection(pct); }
    assert Product(fs[..0]) == 1.0;
    ScaleStep(fs, 0, 1.0, after);
  }

  /** The volume block scales the product of the first factor by the second. */
  lemma VolumeStep(fs: seq<real>, before: real, after: real, volume: real)
    requires 2 <= |fs| && fs[1] == TierFactor(VolumeTiers, volume)
    requires before == Product(fs[..1])
    requires volume <= 6.0 ==> after == before * 0.97
    requires 6.0 < volume <= 10.0 ==> after == before * 0.99
    requires volume > 10.0 ==> after == before
    ensures after == Product(fs[..2])
  {
    assert after == before * fs[1] by { VolumeTierSelection(volume); }
    ScaleStep(fs, 1, before, after);
  }

  /** A yes/no block scales the product of the first `k` factors by factor `k`. */
  lemma FlagStep(fs: seq<real>, k: nat, before: real, after: real, on: bool, factor: real)
    requires k < |fs| && fs[k] == FlagFactor(on, factor)
    requires before == Product(fs[..k])
    requires on ==> after == before * factor
    requires !on ==> after == before
    ensures after == Product(fs[..k + 1])
  {
    ScaleStep(fs, k, before, after);
  }

  /** The safety block completes the product of all five direct factors. */
  lemma SafetyStep(fs: seq<real>, before: real, after: real, s: string)
    requires |fs| == 5 && fs[4] == SafetyFactor(s)
    requires before == Product(fs[..4])
    requires NormalizeSafetyClass(s) == "2L" ==> after == before * 0.995
    requires NormalizeSafetyClass(s) == "3" ==> after == before * 1.01
    requires NormalizeSafetyClass(s) != "2L" && NormalizeSafetyClass(s) != "3" ==> after == before
    ensures after == Product(fs)
  {
    assert after == before * fs[4] by { SafetySelection(s); }
    ScaleStep(fs, 4, before, after);
    assert fs[..5] == fs;
  }

  // ---------------------------------------------------------------
  // Products of factors
  // ---------------------------------------------------------------

  /** One more factor multiplies the running product. */
  lemma ProductSnoc(fs: seq<real>, c: real)
    ensures Product(fs + [c]) == Product(fs) * c
  {
    assert (fs + [c])[..|fs|] == fs;
  }

  /** Scaling the product of the first `k` factors by factor `k` gives the
      product of the first `k + 1`. */
  lemma ScaleStep(fs: seq<real>, k: nat, before: real, after: real)
    requires k < |fs|
    requires before == Product(fs[..k]) && after == before * fs[k]
    ensures after == Product(fs[..k + 1])
  {
    ProductSnoc(fs[..k], fs[k]);
    assert fs[..k] + [fs[k]] == fs[..k + 1];
  }

  /** Products of non-negative reals are monotone in both arguments. */
  lemma MulMono(a: real, x: real, b: real, y: real)
    requires 0.0 <= a <= b && 0.0 <= x <= y
    ensures 0.0 <= a * x <= b * y
  {
    assert a * y - a * x == a * (y - x);
    assert b * y - a * y == (b - a) * y;
  }

  lemma Product3(a: real, b: real, c: real)
    ensures Product([a, b, c]) == a * b * c
  {
    ProductSnoc([], a);
    assert [] + [a] == [a];
    ProductSnoc([a], b);
    assert [a] + [b] == [a, b];
    ProductSnoc([a, b], c);
    assert [a, b] + [c] == [a, b, c];
  }

  lemma Product5(a: real, b: real, c: real, d: real, e: real)
    ensures Product([a, b, c, d, e]) == a * b * c * d * e
  {
    Product3(a, b, c);
    ProductSnoc([a, b, c], d);
    assert [a, b, c] + [d] == [a, b, c, d];
    ProductSnoc([a, b, c, d], e);
    assert [a, b, c, d] + [e] == [a, b, c, d, e];
  }

  /** `lo`, `fs` and `hi` have the same length and each `fs[i]` lies
      between `lo[i] >= 0` and `hi[i]`. */
  predicate Between(lo: seq<real>, fs: seq<real>, hi: seq<real>) {
    |lo| == |fs| == |hi|
    && forall i :: 0 <= i < |fs| ==> 0.0 <= lo[i] <= fs[i] <= hi[i]
  }

  /** Factors between non-negative bounds multiply to a product between the
      products of the bounds. */
  lemma {:induction false} ProductBetween(lo: seq<real>, fs: seq<real>, hi: seq<real>)
    requires Between(lo, fs, hi)
    ensures 0.0 <= Product(lo) <= Product(fs) <= Product(hi)
    decreases |fs|
  {
    if fs != [] {
      var n := |fs| - 1;
      assert Between(lo[..n], fs[..n], hi[..n]);
      ProductBetween(lo[..n], fs[..n], hi[..n]);
      MulMono(Product(lo[..n]), lo[n], Product(fs[..n]), fs[n]);
      MulMono(Product(fs[..n]), fs[n], Product(hi[..n]), hi[n]);
    }
  }

  /** A product of ones is one. */
  lemma {:induction false} ProductOfOnes(fs: seq<real>)
    requires forall i :: 0 <= i < |fs| ==> fs[i] == 1.0
    ensures Product(fs) == 1.0
    decreases |fs|
  {
    if fs != [] {
      ProductOfOnes(fs[..|fs| - 1]);
    }
  }

  /** Turning factor `k` from 1.0 into `c` multiplies the product by `c`. */
  lemma {:induction false} ProductScaleAt(fs: seq<real>, gs: seq<real>, k: nat, c: real)
    requires |fs| == |gs| && k < |fs| && fs[k] == 1.0 && gs[k] == c
    requires forall i :: 0 <= i < |fs| && i != k ==> gs[i] == fs[i]
    ensures Product(gs) == Product(fs) * c
    decreases |fs|
  {
    var n := |fs| - 1;
    if k == n {
      assert gs[..n] == fs[..n];
    } else {
      ProductScaleAt(fs[..n], gs[..n], k, c);
      var p := Product(fs[..n]);
      assert Product(gs) == (p * c) * fs[n];
      assert (p * c) * fs[n] == (p * fs[n]) * c;
    }
  }

  lemma BetweenFive(lo: seq<real>, fs: seq<real>, hi: seq<real>)
    requires lo == DirectLowFactors && hi == DirectHighFactors && |fs| == 5
    requires 0.9 <= fs[0] <= 1.0 && 0.97 <= fs[1] <= 1.0 && 0.98 <= fs[2] <= 1.0
    requires 0.95 <= fs[3] <= 1.0 && 0.995 <= fs[4] <= 1.01
    ensures Between(lo, fs, hi)
  {
  }

  lemma BetweenThree(lo: seq<real>, fs: seq<real>, hi: seq<real>)
    requires lo == IndirectLowFactors && hi == IndirectHighFactors && |fs| == 3
    requires 0.90 <= fs[0] <= 1.0 && 0.97 <= fs[1] <= 1.0 && 0.98 <= fs[2] <= 1.0
    ensures Between(lo, fs, hi)
  {
  }
}
