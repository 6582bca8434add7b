# LCCP calculation engine in Dafny

This project models the calculation core of an interactive life-cycle climate
performance (LCCP) estimator for an air-conditioning or heat-pump system, and
proves properties of that model. The figures are in kgCO2e. The estimate has
two parts:

- **Direct (refrigerant and embodied) emissions.** Refrigerant leaks every
  year of the system's lifetime, and a share of what remains is lost at end of
  life. Both are weighted by the refrigerant's GWP. A credit is granted for
  reclaimed refrigerant in the initial charge, and the outdoor unit's material
  adds embodied emissions.
- **Indirect (energy) emissions.** The system uses energy for 1000 cooling
  hours and 600 heating hours a year, at its SEER2 and HSPF2 ratings, on a grid
  with a given carbon factor, over its lifetime.

Each baseline is scaled by a **correction-factor multiplier** built from
product features:

- direct: share reclaimed, unit volume, US manufacture, leak detectors, and
  refrigerant safety class;
- indirect: compressor type, demand flexibility, and a connected thermostat.

The total LCCP is the sum of the two scaled baselines.

Modules:

- `AsciiText` (`text.dfy`): Python's `str.strip()`, `upper()`, `lower()`,
  `startswith` and substring test, on ASCII. The functions have no
  postconditions of their own; the `...Spec` lemmas state what they compute.
- `Baselines` (`baselines.dfy`): the input record and both baselines, as pure
  functions.
- `CorrectionFactors` (`correction_factors.dfy`): the two multiplier
  builders. Each is an imperative method with an accumulator, following the
  source's if/elif chains. Each is proved equal to a table-driven
  specification: ordered tier tables, first-match string rules and a map for
  the safety class. The specification is a product of one factor per
  feature.
- `Lccp` (`lccp.dfy`): the composition that the results panel shows, and the
  form's defaults.

Quantities are `real`, so rounding is not modelled. The lifetime is an `int`,
as in the source.

## Model

| member | source | states |
|---|---|---|
| AsciiText.TrimStartSpec | lccp_app.py:116 | stripping the front keeps a suffix of the string, drops only whitespace, and leaves no whitespace at its start |
| AsciiText.TrimEndSpec | lccp_app.py:128 | stripping the end keeps a prefix of the string, drops only whitespace, and leaves no whitespace at its end |
| AsciiText.TrimSpec | lccp_app.py:116 | `strip()` gives the infix of the input that has no whitespace at either end and only whitespace around it |
| AsciiText.UpperSpec | lccp_app.py:116 | `upper()` keeps the length and maps each character to its upper-case form |
| AsciiText.LowerSpec | lccp_app.py:128 | `lower()` keeps the length and maps each character to its lower-case form |
| AsciiText.TrimUnpadded | lccp_app.py:116 | a string with no whitespace at either end is unchanged by `strip()` |
| AsciiText.TrimIdempotent | lccp_app.py:116 | stripping twice gives the same result as stripping once |
| AsciiText.TrimIgnoresPadding | lccp_app.py:116 | whitespace added before and after a string does not change its stripped form |
| AsciiText.UpperTrimCommute | lccp_app.py:116 | stripping then upper-casing equals upper-casing then stripping |
| AsciiText.LowerTrimCommute | lccp_app.py:128 | lower-casing then stripping (the order at this line) equals stripping then lower-casing |
| AsciiText.LowerNoCapitals | lccp_app.py:128 | a string with no capital letters is its own lower-case form |
| Baselines.RemainingKg | lccp_app.py:62 | the charge left after leakage is never negative; it is the charge minus the leakage, or 0 when the leakage exceeds the charge |
| Baselines.FullyLeakedNoEolLoss | lccp_app.py:59-65 | once the accumulated leakage reaches the charge, nothing remains, the end-of-life leak is 0, and the refrigerant released is the leakage alone |
| Baselines.ZeroLeakRate | lccp_app.py:50-74 | with no annual leakage, the leakage is 0, the end-of-life leak is charge × loss%/100, and the direct baseline is that leak times GWP plus the credit and the embodied term |
| Baselines.ReclaimedCreditIsCredit | lccp_app.py:68-69 | the credit equals −0.5 × charge × reclaimed%/100 × GWP, and is ≤ 0 when its inputs are non-negative |
| Baselines.ReleasedWithinCharge | lccp_app.py:54-65 | while leak rate × lifetime stays within 100%, the refrigerant released is at least the leakage and at most the charge |
| Baselines.LeakageNotCappedByCharge | lccp_app.py:59-65 | when leak rate × lifetime exceeds 100%, the refrigerant counted as released is the uncapped leakage, which is more than the charge |
| Baselines.RefrigerantEmissionsGrowWithGwp | lccp_app.py:65 | whenever refrigerant is released, a higher GWP gives strictly higher refrigerant emissions |
| Baselines.DefaultDirectScenario | lccp_app.py:50-74 | the form's default system and assumptions give a direct baseline of exactly 2603.5 |
| Baselines.IndirectClosedForm | lccp_app.py:77-86 | the indirect baseline is lifetime × grid × capacity × (1/SEER2 + 0.6/HSPF2) |
| Baselines.IndirectNonNegative | lccp_app.py:77-86 | with non-negative capacity, grid factor and lifetime, and positive ratings, the indirect baseline is non-negative |
| Baselines.IndirectFallsWithSeer | lccp_app.py:81 | a higher SEER2 strictly lowers the indirect baseline, when capacity, grid factor and lifetime are positive |
| Baselines.DefaultIndirectScenario | lccp_app.py:77-86 | the default system over 15 years at 0.38 kgCO2/kWh gives (2400 + 21600/8.5) × 0.38 × 15 = 478800/17, about 28164.71 |
| CorrectionFactors.FirstMatchSpec | lccp_app.py:96-134 | the first-match search behind the reclaimed and volume tier chains (lines 96-105) and the compressor chain (lines 129-134) returns an item that applies (or the table's length when none does), and no earlier item applies |
| CorrectionFactors.BuildDirectCF | lccp_app.py:92-122 | the accumulator-based builder returns exactly the product of the five feature factors |
| CorrectionFactors.BuildIndirectCF | lccp_app.py:125-142 | the accumulator-based builder returns exactly the product of the three feature factors |
| CorrectionFactors.ReclaimedTierSelection | lccp_app.py:96-99 | 50% or more reclaimed gives 0.90 and never also 0.95; 20% up to 50% gives 0.95; below 20% gives 1.0 |
| CorrectionFactors.VolumeTierSelection | lccp_app.py:102-105 | 6 cu.ft or less gives 0.97 and never also 0.99; above 6 up to 10 gives 0.99; above 10 gives 1.0 |
| CorrectionFactors.SafetySelection | lccp_app.py:116-120 | the safety factor is 0.995 exactly when the normalised class is "2L", 1.01 exactly when it is "3", and 1.0 exactly when it is neither |
| CorrectionFactors.CompressorSelection | lccp_app.py:128-134 | on the normalised compressor string the first rule wins: a leading "1" gives 1.00; otherwise any "2" gives 0.95; otherwise "var" gives 0.90; otherwise 1.0 |
| CorrectionFactors.SafetyClassExamples | lccp_app.py:116-120 | classes "1" and "2" give 1.0, "3" gives 1.01, and "2L" gives 0.995 |
| CorrectionFactors.SafetyIgnoresPaddingAndCase | lccp_app.py:116 | whitespace around the class and its letter case do not change the safety factor |
| CorrectionFactors.SafetyClassTwoLPadded | lccp_app.py:116-118 | "2l" with any whitespace around it earns the 2L discount |
| CorrectionFactors.SafetyClassPadded | lccp_app.py:116-118 | " 2l " gives 0.995 |
| CorrectionFactors.CompressorIgnoresPaddingAndCase | lccp_app.py:128 | whitespace around the compressor type and its letter case do not change the compressor factor |
| CorrectionFactors.FixedStageFactor | lccp_app.py:129-130 | "1-stg" gives 1.0 |
| CorrectionFactors.TwoStageFactor | lccp_app.py:131-132 | "2-stg" gives 0.95 |
| CorrectionFactors.VariableFactor | lccp_app.py:133-134 | "variable" gives 0.90 |
| CorrectionFactors.LeadingOneWins | lccp_app.py:129-134 | "12-var" contains both "2" and "var", yet the leading "1" wins and it gives 1.0 |
| CorrectionFactors.DirectNeutral | lccp_app.py:92-122 | below 20% reclaimed, above 10 cu.ft, neither flag, and class "1" give a direct multiplier of exactly 1.0 |
| CorrectionFactors.IndirectNeutral | lccp_app.py:125-142 | "1-stg" with neither flag gives an indirect multiplier of exactly 1.0 |
| CorrectionFactors.DirectFlagsScaleOnly | lccp_app.py:108-113 | setting US manufacture (leak detectors) multiplies the direct multiplier by 0.98 (0.95), with all else unchanged |
| CorrectionFactors.IndirectFlagsScaleOnly | lccp_app.py:136-140 | setting demand flexibility (a connected thermostat) multiplies the indirect multiplier by 0.97 (0.98), with all else unchanged |
| CorrectionFactors.DirectFactorRanges | lccp_app.py:92-122 | each direct factor lies between its largest discount and 1.0; the safety factor lies between 0.995 and 1.01 |
| CorrectionFactors.DirectMultiplierBounds | lccp_app.py:92-122 | the direct multiplier lies between 0.9·0.97·0.98·0.95·0.995 and 1.01 |
| CorrectionFactors.DirectMultiplierExtremes | lccp_app.py:92-122 | every discount plus class 2L reaches the lower bound; no discount plus class 3 reaches 1.01 |
| CorrectionFactors.IndirectFactorRanges | lccp_app.py:125-142 | each indirect factor lies between its largest discount and 1.0 |
| CorrectionFactors.IndirectMultiplierBounds | lccp_app.py:125-142 | the indirect multiplier lies between 0.90·0.97·0.98 and 1.0 |
| CorrectionFactors.IndirectMultiplierLowest | lccp_app.py:125-142 | "variable" with both flags reaches the lower bound 0.90·0.97·0.98 |
| CorrectionFactors.ProductBetween | lccp_app.py:93-120 | factors that each lie between non-negative bounds multiply to a product between the products of those bounds |
| CorrectionFactors.ProductScaleAt | lccp_app.py:93-120 | changing one factor of the accumulator from 1.0 to c multiplies the product by c |
| Lccp.ComputeLccp | lccp_app.py:214-229 | the results are both baselines, the multipliers the builders return, each baseline times its multiplier, and their sum; each multiplier lies in its range |
| Lccp.ResultBounds | lccp_app.py:227-229 | a non-negative baseline stays between its multiplier's extremes after scaling, and so does the total when both baselines are non-negative |
| Lccp.DemandFlexNeverRaisesTotal | lccp_app.py:136-137 | with a non-negative indirect baseline, demand flexibility never raises the total LCCP |
| Lccp.LeakDetectorsNeverRaiseTotal | lccp_app.py:112-113 | with a non-negative direct baseline, leak detectors never raise the total LCCP |
| Lccp.DefaultTotal | lccp_app.py:153-229 | the form's defaults leave both multipliers at 1.0, so the total is 2603.5 + 478800/17, about 30768.2 |

## Left out

- The Streamlit form, the metrics display, the breakdown chart and the pandas
  table (`main`, lines 148 onward, except the calculation at lines 214-229).
  They are user interface and drawing, not calculation.
- The ranges the form's widgets enforce, such as a lifetime of 10 to 25 years
  or a SEER2 of 8 to 30. The model accepts any value, so the lemmas state
  their own hypotheses: non-negative inputs, or leakage within 100%.
- Baselines.BaselineIndirect: it requires non-zero SEER2 and HSPF2. Python
  would raise a division-by-zero error there, and the model does not model
  that error path.
- Floating point: quantities are exact reals, so rounding, and the
  formatting of results to whole numbers or three decimals, are not modelled.
- Unicode: whitespace is Python's `isspace` restricted to ASCII (space,
  `\t` to `\r`, and `\x1c` to `\x1f`). Case mapping covers `a`-`z` only.
  Non-ASCII whitespace and letters are treated as ordinary characters.
- Python's dynamic typing: a form value such as the integer slider results
  is modelled as a `real`. The lifetime is an `int`.
