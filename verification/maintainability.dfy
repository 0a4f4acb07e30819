/**
  * The Maintainability Index engine (`MaintainabilityIndexCalculator`): fifteen
  * piecewise sub-scores, blended into five category scores, blended into one index.
  * Everything is over `real`; the fractional powers go through `pow` (see RealPower),
  * and the index is the unrounded value (the program rounds it to two decimals).
  */
module Maintainability {
  import opened RealPower
  import opened TerraMetrics

  /** Python's `max` of two numbers. */
  function Max(a: real, b: real): real {
    if a >= b then a else b
  }

  // ---------------------------------------------------------------------------
  // Resource Composition (25 %): module ratio 40 %, block size 35 %, variables 25 %
  // ---------------------------------------------------------------------------

  /** Score of the share of modules among modules and resources: plateau 90 on [0.2, 0.6]. */
  function ModuleRatioScore(pow: PowFn, ratio: real): (r: real)
    ensures 30.0 <= r
  {
    if 0.2 <= ratio <= 0.6 then 90.0
    else if ratio < 0.2 then Max(40.0, 90.0 * pow(ratio / 0.2, 1.2))
    else Max(30.0, 90.0 - (ratio - 0.6) * 150.0)
  }

  /** The module sub-score; 60 (neutral) for a block with neither resources nor modules. */
  function ModuleScore(pow: PowFn, modules: nat, resources: nat): (r: real)
    ensures modules + resources == 0 ==> r == 60.0
    ensures 30.0 <= r
  {
    var total := resources + modules;
    if total > 0 then ModuleRatioScore(pow, modules as real / total as real) else 60.0
  }

  /** Score of a block's line count: rises to 95 at 25 lines, then falls; 70 for an empty block. */
  function SizeScore(pow: PowFn, loc: nat): (r: real)
    ensures 20.0 <= r
  {
    var l := loc as real;
    if loc == 0 then 70.0
    else if 10 <= loc <= 60 then
      (if loc <= 25 then 70.0 + ((l - 10.0) / 15.0) * 25.0
       else 95.0 - ((l - 25.0) / 35.0) * 15.0)
    else if loc < 10 then 50.0 + (l / 10.0) * 20.0
    else Max(20.0, 80.0 - pow(l - 60.0, 1.1) / 5.0)
  }

  /** Score of variables per block: plateau 90 on [0.4, 1.5]. */
  function VariableRatioScore(pow: PowFn, ratio: real): (r: real)
    ensures 40.0 <= r
  {
    if 0.4 <= ratio <= 1.5 then 90.0
    else if ratio < 0.4 then Max(50.0, 90.0 * pow(ratio / 0.4, 1.1))
    else Max(40.0, 90.0 - (ratio - 1.5) * 20.0)
  }

  /** The variable sub-score; the ratio divides by `max(num_blocks, 1)`. */
  function VariableScore(pow: PowFn, variables: nat, blocks: nat): (r: real)
    ensures 40.0 <= r
  {
    var denominator := if blocks > 1 then blocks else 1;
    VariableRatioScore(pow, variables as real / denominator as real)
  }

  function CompositionScore(pow: PowFn, m: TmMetrics, blockLoc: nat): real {
    ModuleScore(pow, m.numModules, m.numResources) * 0.40
    + SizeScore(pow, blockLoc) * 0.35
    + VariableScore(pow, m.numVariables, m.numBlocks) * 0.25
  }

  // ---------------------------------------------------------------------------
  // Configuration Clarity (25 %): explicitness 40 %, attribute count 35 %, nesting 25 %
  // ---------------------------------------------------------------------------

  /** Score of the share of hard-coded values among attributes: 90 up to 0.25. */
  function HardCodedRatioScore(pow: PowFn, ratio: real): (r: real)
    ensures 30.0 <= r
  {
    if ratio <= 0.25 then 90.0
    else Max(30.0, 90.0 * pow(0.25 / ratio, 1.2))
  }

  /** The explicitness sub-score; 90 for a block without attributes. */
  function ExplicitScore(pow: PowFn, hardCoded: nat, attrs: nat): (r: real)
    ensures attrs == 0 ==> r == 90.0
    ensures 30.0 <= r
  {
    if attrs > 0 then HardCodedRatioScore(pow, hardCoded as real / attrs as real) else 90.0
  }

  function AttributeScore(pow: PowFn, attrs: nat): (r: real)
    ensures 20.0 <= r
  {
    if attrs <= 12 then 90.0
    else if attrs <= 25 then 90.0 - (attrs - 12) as real * 3.0
    else Max(20.0, 51.0 - pow((attrs - 25) as real, 1.2) / 3.0)
  }

  function NestingScore(depth: nat): (r: real)
    ensures 15.0 <= r <= 90.0
  {
    if depth <= 1 then 90.0
    else if depth <= 2 then 70.0
    else if depth <= 3 then 45.0
    else Max(15.0, 45.0 - (depth - 3) as real * 12.0)
  }

  function ClarityScore(pow: PowFn, m: TmMetrics): real {
    ExplicitScore(pow, m.numHardCoded, m.numAttrs) * 0.40
    + AttributeScore(pow, m.numAttrs) * 0.35
    + NestingScore(m.nestingDepth) * 0.25
  }

  // ---------------------------------------------------------------------------
  // Dependency Management (20 %): complexity 35 %, dependency count 35 %, graph depth 30 %
  // ---------------------------------------------------------------------------

  function ComplexityScore(pow: PowFn, complexity: nat): (r: real)
    ensures 20.0 <= r
  {
    if complexity <= 4 then 90.0
    else if complexity <= 8 then 90.0 - (complexity - 4) as real * 8.0
    else Max(20.0, 58.0 - pow((complexity - 8) as real, 1.2) / 2.0)
  }

  function DependencyCountScore(pow: PowFn, deps: nat): (r: real)
    ensures 20.0 <= r
  {
    if deps <= 3 then 90.0
    else if deps <= 6 then 90.0 - (deps - 3) as real * 10.0
    else Max(20.0, 60.0 - pow((deps - 6) as real, 1.2) / 2.0)
  }

  function GraphDepthScore(depth: nat): (r: real)
    ensures 20.0 <= r <= 90.0
  {
    if depth <= 1 then 90.0
    else if depth <= 3 then 90.0 - (depth - 1) as real * 15.0
    else Max(20.0, 60.0 - (depth - 3) as real * 10.0)
  }

  function DependencyScore(pow: PowFn, m: TmMetrics): real {
    ComplexityScore(pow, m.complexity) * 0.35
    + DependencyCountScore(pow, m.numDependencies) * 0.35
    + GraphDepthScore(m.graphDepth) * 0.30
  }

  // ---------------------------------------------------------------------------
  // Security & Best Practices (20 %): deprecated 40 %, wildcards 30 %, dynamism 30 %
  // ---------------------------------------------------------------------------

  function DeprecatedScore(count: nat): (r: real)
    ensures 20.0 <= r <= 90.0
  {
    Max(20.0, 90.0 - count as real * 35.0)
  }

  function WildcardScore(count: nat): (r: real)
    ensures 20.0 <= r <= 90.0
  {
    Max(20.0, 90.0 - count as real * 30.0)
  }

  /** Score of loops plus conditions. */
  function DynamismScore(count: nat): (r: real)
    ensures 20.0 <= r <= 90.0
  {
    if count == 0 then 90.0
    else if count <= 2 then 80.0
    else if count <= 4 then 80.0 - (count - 2) as real * 15.0
    else Max(20.0, 50.0 - (count - 4) as real * 10.0)
  }

  function SecurityScore(m: TmMetrics): real {
    DeprecatedScore(m.numDeprecated) * 0.40
    + WildcardScore(m.numWildcards) * 0.30
    + DynamismScore(m.numLoops + m.numConditions) * 0.30
  }

  // ---------------------------------------------------------------------------
  // Operational Readiness (10 %): outputs 50 %, data sources 50 %
  // ---------------------------------------------------------------------------

  /** Score of outputs per resource: plateau 90 on [0.25, 0.75]. */
  function OutputRatioScore(pow: PowFn, ratio: real): (r: real)
    ensures 30.0 <= r
  {
    if 0.25 <= ratio <= 0.75 then 90.0
    else if ratio < 0.25 then Max(30.0, 90.0 * pow(ratio / 0.25, 1.2))
    else Max(40.0, 90.0 - (ratio - 0.75) * 60.0)
  }

  /** The output sub-score; 70 (neutral) for a block without resources. */
  function OutputScore(pow: PowFn, outputs: nat, resources: nat): (r: real)
    ensures resources == 0 ==> r == 70.0
    ensures 30.0 <= r
  {
    if resources > 0 then OutputRatioScore(pow, outputs as real / resources as real) else 70.0
  }

  /** Score of the share of data sources among data sources and resources: 90 up to 0.25. */
  function DataRatioScore(pow: PowFn, ratio: real): (r: real)
    ensures 30.0 <= r
  {
    if ratio <= 0.25 then 90.0
    else if ratio <= 0.4 then 90.0 - (ratio - 0.25) * 100.0
    else Max(30.0, 75.0 - pow(ratio - 0.4, 1.2) * 80.0)
  }

  /** The data-source sub-score; the ratio divides by `max(resources + data, 1)`. */
  function DataScore(pow: PowFn, data: nat, resources: nat): (r: real)
    ensures 30.0 <= r
  {
    var denominator := if resources + data > 1 then resources + data else 1;
    DataRatioScore(pow, data as real / denominator as real)
  }

  function OperationalScore(pow: PowFn, m: TmMetrics): real {
    OutputScore(pow, m.numOutputs, m.numResources) * 0.50
    + DataScore(pow, m.numData, m.numResources) * 0.50
  }

  // ---------------------------------------------------------------------------
  // The index
  // ---------------------------------------------------------------------------

  /** `calculate_mi` before its final `round(mi, 2)`. */
  function MaintainabilityIndex(pow: PowFn, m: TmMetrics, blockLoc: nat): real {
    CompositionScore(pow, m, blockLoc) * 0.25
    + ClarityScore(pow, m) * 0.25
    + DependencyScore(pow, m) * 0.20
    + SecurityScore(m) * 0.20
    + OperationalScore(pow, m) * 0.10
  }

  // ---------------------------------------------------------------------------
  // Properties of the scores
  // ---------------------------------------------------------------------------

  /** The module-ratio score is at most 90 and is exactly 90 on its plateau [0.2, 0.6], endpoints included. */
  lemma ModuleRatioPlateau(pow: PowFn, ratio: real)
    requires PowLaws(pow) && 0.0 <= ratio
    ensures ModuleRatioScore(pow, ratio) <= 90.0
    ensures ModuleRatioScore(pow, ratio) == 90.0 <==> 0.2 <= ratio <= 0.6
  {
    if ratio < 0.2 {
      PowRange(pow, ratio / 0.2, 1.2);
    }
  }

  /** The variable-ratio score is at most 90 and is exactly 90 on its plateau [0.4, 1.5]. */
  lemma VariableRatioPlateau(pow: PowFn, ratio: real)
    requires PowLaws(pow) && 0.0 <= ratio
    ensures VariableRatioScore(pow, ratio) <= 90.0
    ensures VariableRatioScore(pow, ratio) == 90.0 <==> 0.4 <= ratio <= 1.5
  {
    if ratio < 0.4 {
      PowRange(pow, ratio / 0.4, 1.1);
    }
  }

  /** The hard-coded-ratio score is at most 90 and is exactly 90 up to a ratio of 0.25. */
  lemma HardCodedRatioPlateau(pow: PowFn, ratio: real)
    requires PowLaws(pow) && 0.0 <= ratio
    ensures HardCodedRatioScore(pow, ratio) <= 90.0
    ensures HardCodedRatioScore(pow, ratio) == 90.0 <==> ratio <= 0.25
  {
    if ratio > 0.25 {
      PowRange(pow, 0.25 / ratio, 1.2);
    }
  }

  /** The output-ratio score is at most 90 and is exactly 90 on its plateau [0.25, 0.75]. */
  lemma OutputRatioPlateau(pow: PowFn, ratio: real)
    requires PowLaws(pow) && 0.0 <= ratio
    ensures OutputRatioScore(pow, ratio) <= 90.0
    ensures OutputRatioScore(pow, ratio) == 90.0 <==> 0.25 <= ratio <= 0.75
  {
    if ratio < 0.25 {
      PowRange(pow, ratio / 0.25, 1.2);
    }
  }

  /** The data-ratio score is at most 90 and is exactly 90 up to a ratio of 0.25; past 0.4 it is at most 75. */
  lemma DataRatioPlateau(pow: PowFn, ratio: real)
    requires PowLaws(pow) && 0.0 <= ratio
    ensures DataRatioScore(pow, ratio) <= 90.0
    ensures DataRatioScore(pow, ratio) == 90.0 <==> ratio <= 0.25
    ensures ratio > 0.4 ==> DataRatioScore(pow, ratio) <= 75.0
  {
    if ratio > 0.4 {
      PowRange(pow, ratio - 0.4, 1.2);
    }
  }

  /** The size score peaks at 95 for exactly 25 lines and never exceeds 80 past 60 lines. */
  lemma SizeScorePeak(pow: PowFn, loc: nat)
    requires PowLaws(pow)
    ensures SizeScore(pow, loc) <= 95.0
    ensures SizeScore(pow, loc) == 95.0 <==> loc == 25
    ensures loc > 60 ==> SizeScore(pow, loc) <= 80.0
  {
    if loc > 60 {
      PowRange(pow, loc as real - 60.0, 1.1);
    }
  }

  /** The segments of the piecewise scores meet at the documented values. */
  lemma SegmentJoins(pow: PowFn)
    requires PowLaws(pow)
    ensures ModuleScore(pow, 1, 4) == 90.0 && ModuleScore(pow, 3, 2) == 90.0
    ensures SizeScore(pow, 10) == 70.0 && SizeScore(pow, 25) == 95.0 && SizeScore(pow, 60) == 80.0
    ensures SizeScore(pow, 61) == 79.8
    ensures GraphDepthScore(1) == 90.0 && GraphDepthScore(2) == 75.0 && GraphDepthScore(3) == 60.0
    ensures DynamismScore(2) == 80.0 && DynamismScore(3) == 65.0 && DynamismScore(4) == 50.0
    ensures AttributeScore(pow, 25) == 51.0 && AttributeScore(pow, 26) < 51.0
    ensures ComplexityScore(pow, 8) == 58.0 && ComplexityScore(pow, 9) < 58.0
    ensures DependencyCountScore(pow, 6) == 60.0 && DependencyCountScore(pow, 7) < 60.0
  {
    assert pow(1.0, 1.1) == 1.0 && pow(1.0, 1.2) == 1.0;
  }

  /** More attributes never raise the attribute-count score, which stays at most 90. */
  lemma AttributeScoreAntitone(pow: PowFn, a: nat, b: nat)
    requires PowLaws(pow) && a <= b
    ensures AttributeScore(pow, b) <= AttributeScore(pow, a) <= 90.0
  {
    if b > 25 {
      PowRange(pow, (b - 25) as real, 1.2);
      if a > 25 {
        PowMonotone(pow, (a - 25) as real, (b - 25) as real, 1.2);
      }
    }
    if a > 25 {
      PowRange(pow, (a - 25) as real, 1.2);
    }
  }

  /** Higher cyclomatic complexity never raises the complexity score, which stays at most 90. */
  lemma ComplexityScoreAntitone(pow: PowFn, a: nat, b: nat)
    requires PowLaws(pow) && a <= b
    ensures ComplexityScore(pow, b) <= ComplexityScore(pow, a) <= 90.0
  {
    if b > 8 {
      PowRange(pow, (b - 8) as real, 1.2);
      if a > 8 {
        PowMonotone(pow, (a - 8) as real, (b - 8) as real, 1.2);
      }
    }
    if a > 8 {
      PowRange(pow, (a - 8) as real, 1.2);
    }
  }

  /** More dependencies never raise the dependency-count score, which stays at most 90. */
  lemma DependencyCountScoreAntitone(pow: PowFn, a: nat, b: nat)
    requires PowLaws(pow) && a <= b
    ensures DependencyCountScore(pow, b) <= DependencyCountScore(pow, a) <= 90.0
  {
    if b > 6 {
      PowRange(pow, (b - 6) as real, 1.2);
      if a > 6 {
        PowMonotone(pow, (a - 6) as real, (b - 6) as real, 1.2);
      }
    }
    if a > 6 {
      PowRange(pow, (a - 6) as real, 1.2);
    }
  }

  /** Nesting, graph depth, deprecated functions, wildcards and dynamism only ever lower their scores. */
  lemma CountScoresAntitone(a: nat, b: nat)
    requires a <= b
    ensures NestingScore(b) <= NestingScore(a)
    ensures GraphDepthScore(b) <= GraphDepthScore(a)
    ensures DeprecatedScore(b) <= DeprecatedScore(a)
    ensures WildcardScore(b) <= WildcardScore(a)
    ensures DynamismScore(b) <= DynamismScore(a)
  {
  }

  /** The ratio-based sub-scores stay within their bounds; each ratio is one of non-negative counts. */
  lemma ModuleScoreRange(pow: PowFn, modules: nat, resources: nat)
    requires PowLaws(pow)
    ensures 30.0 <= ModuleScore(pow, modules, resources) <= 90.0
  {
    if modules + resources > 0 {
      ModuleRatioPlateau(pow, modules as real / (resources + modules) as real);
    }
  }

  lemma VariableScoreRange(pow: PowFn, variables: nat, blocks: nat)
    requires PowLaws(pow)
    ensures 40.0 <= VariableScore(pow, variables, blocks) <= 90.0
  {
    var b := if blocks > 1 then blocks else 1;
    VariableRatioPlateau(pow, variables as real / b as real);
  }

  lemma ExplicitScoreRange(pow: PowFn, hardCoded: nat, attrs: nat)
    requires PowLaws(pow)
    ensures 30.0 <= ExplicitScore(pow, hardCoded, attrs) <= 90.0
  {
    if attrs > 0 {
      HardCodedRatioPlateau(pow, hardCoded as real / attrs as real);
    }
  }

  lemma OutputScoreRange(pow: PowFn, outputs: nat, resources: nat)
    requires PowLaws(pow)
    ensures 30.0 <= OutputScore(pow, outputs, resources) <= 90.0
  {
    if resources > 0 {
      OutputRatioPlateau(pow, outputs as real / resources as real);
    }
  }

  lemma DataScoreRange(pow: PowFn, data: nat, resources: nat)
    requires PowLaws(pow)
    ensures 30.0 <= DataScore(pow, data, resources) <= 90.0
  {
    var total := if resources + data > 1 then resources + data else 1;
    DataRatioPlateau(pow, data as real / total as real);
  }

  /** Every category score lies in [15, 95]. */
  lemma CategoriesInRange(pow: PowFn, m: TmMetrics, blockLoc: nat)
    requires PowLaws(pow)
    ensures 15.0 <= CompositionScore(pow, m, blockLoc) <= 95.0
    ensures 15.0 <= ClarityScore(pow, m) <= 95.0
    ensures 15.0 <= DependencyScore(pow, m) <= 95.0
    ensures 15.0 <= SecurityScore(m) <= 95.0
    ensures 15.0 <= OperationalScore(pow, m) <= 95.0
  {
    ModuleScoreRange(pow, m.numModules, m.numResources);
    SizeScorePeak(pow, blockLoc);
    VariableScoreRange(pow, m.numVariables, m.numBlocks);
    ExplicitScoreRange(pow, m.numHardCoded, m.numAttrs);
    AttributeScoreAntitone(pow, m.numAttrs, m.numAttrs);
    ComplexityScoreAntitone(pow, m.complexity, m.complexity);
    DependencyCountScoreAntitone(pow, m.numDependencies, m.numDependencies);
    OutputScoreRange(pow, m.numOutputs, m.numResources);
    DataScoreRange(pow, m.numData, m.numResources);
  }

  /**
    * The index lies in [15, 95], inside the documented 0 to 100 range, and, being a blend
    * whose weights sum to 1, between the smallest and the largest category score.
    */
  lemma IndexInRange(pow: PowFn, m: TmMetrics, blockLoc: nat)
    requires PowLaws(pow)
    ensures 15.0 <= MaintainabilityIndex(pow, m, blockLoc) <= 95.0
    ensures var c := [CompositionScore(pow, m, blockLoc), ClarityScore(pow, m), DependencyScore(pow, m),
                      SecurityScore(m), OperationalScore(pow, m)];
            (exists i :: 0 <= i < 5 && c[i] <= MaintainabilityIndex(pow, m, blockLoc)) &&
            (exists i :: 0 <= i < 5 && MaintainabilityIndex(pow, m, blockLoc) <= c[i])
  {
    CategoriesInRange(pow, m, blockLoc);
    var c := [CompositionScore(pow, m, blockLoc), ClarityScore(pow, m), DependencyScore(pow, m),
              SecurityScore(m), OperationalScore(pow, m)];
    var mi := MaintainabilityIndex(pow, m, blockLoc);
    assert mi == c[0] * 0.25 + c[1] * 0.25 + c[2] * 0.20 + c[3] * 0.20 + c[4] * 0.10;
    var lo, hi := 0, 0;
    for i := 1 to 5
      invariant 0 <= lo < 5 && 0 <= hi < 5
      invariant forall j :: 0 <= j < i ==> c[lo] <= c[j] && c[j] <= c[hi]
    {
      if c[i] < c[lo] { lo := i; }
      if c[i] > c[hi] { hi := i; }
    }
    assert c[lo] <= mi <= c[hi];
  }

  /**
    * With every other counter fixed, more nesting, complexity, dependencies, graph depth,
    * deprecated functions, wildcards, loops or conditions never raise the clarity score
    * or the index.
    */
  lemma IndexAntitone(pow: PowFn, m: TmMetrics, worse: TmMetrics, blockLoc: nat)
    requires PowLaws(pow)
    requires worse == m.(nestingDepth := worse.nestingDepth, complexity := worse.complexity,
                         numDependencies := worse.numDependencies, graphDepth := worse.graphDepth,
                         numDeprecated := worse.numDeprecated, numWildcards := worse.numWildcards,
                         numLoops := worse.numLoops, numConditions := worse.numConditions)
    requires m.nestingDepth <= worse.nestingDepth && m.complexity <= worse.complexity
    requires m.numDependencies <= worse.numDependencies && m.graphDepth <= worse.graphDepth
    requires m.numDeprecated <= worse.numDeprecated && m.numWildcards <= worse.numWildcards
    requires m.numLoops <= worse.numLoops && m.numConditions <= worse.numConditions
    ensures ClarityScore(pow, worse) <= ClarityScore(pow, m)
    ensures MaintainabilityIndex(pow, worse, blockLoc) <= MaintainabilityIndex(pow, m, blockLoc)
  {
    CountScoresAntitone(m.nestingDepth, worse.nestingDepth);
    CountScoresAntitone(m.graphDepth, worse.graphDepth);
    CountScoresAntitone(m.numDeprecated, worse.numDeprecated);
    CountScoresAntitone(m.numWildcards, worse.numWildcards);
    CountScoresAntitone(m.numLoops + m.numConditions, worse.numLoops + worse.numConditions);
    ComplexityScoreAntitone(pow, m.complexity, worse.complexity);
    DependencyCountScoreAntitone(pow, m.numDependencies, worse.numDependencies);
  }

  /**
    * The index of the all-zero fallback record is fixed: 80.175 for a one-line block
    * and 81.75 for an empty one (before rounding).
    */
  lemma FallbackIndex(pow: PowFn)
    requires PowLaws(pow)
    ensures MaintainabilityIndex(pow, EmptyMetrics(), 1) == 80.175
    ensures MaintainabilityIndex(pow, EmptyMetrics(), 0) == 81.75
  {
    var m := EmptyMetrics();
    assert pow(0.0, 1.1) == 0.0;
    assert CompositionScore(pow, m, 1) == 54.7;
    assert CompositionScore(pow, m, 0) == 61.0;
    assert ClarityScore(pow, m) == 90.0;
    assert DependencyScore(pow, m) == 90.0;
    assert SecurityScore(m) == 90.0;
    assert OperationalScore(pow, m) == 80.0;
  }
}
