/**
  * Normalisation of the Metrics Tool's report into one flat record of 22 counters
  * (`TerraMetricRunner._parse_metrics` and `_empty_metrics`).
  *
  * The tool's JSON report has a file-level `head` object and a `data` list with one
  * object per analysed block; every value the pipeline reads is a count. A section
  * the report lacks is given here as an empty map or an empty list, which is what
  * `raw_metrics.get("head", {})` and `raw_metrics.get("data", [])` substitute.
  */
module TerraMetrics {

  /** One JSON object of counters. */
  type Counters = map<string, nat>

  datatype ToolReport = ToolReport(head: Counters, data: seq<Counters>)

  /** The flat metrics record: one field per `tm_*` key, in the order the report row lists them. */
  datatype TmMetrics = TmMetrics(
    loc: nat,
    numVariables: nat,
    numOutputs: nat,
    complexity: nat,
    nestingDepth: nat,
    numDependencies: nat,
    numResources: nat,
    numModules: nat,
    numBlocks: nat,
    numData: nat,
    numProviders: nat,
    numTokens: nat,
    numStringValues: nat,
    numHardCoded: nat,
    numLoops: nat,
    numConditions: nat,
    numFunctionCalls: nat,
    numDeprecated: nat,
    numWildcards: nat,
    graphDepth: nat,
    numAttrs: nat,
    numVarsInBlock: nat)

  /** `d.get(key, 0)`. */
  function Get(d: Counters, key: string): nat {
    if key in d then d[key] else 0
  }

  /** `sum(block.get(key, 0) for block in data)`. */
  function SumOf(data: seq<Counters>, key: string): nat {
    if |data| == 0 then 0 else SumOf(data[..|data| - 1], key) + Get(data[|data| - 1], key)
  }

  /** `max((block.get(key, 0) for block in data), default=0)`: an upper bound that some block attains. */
  function MaxOf(data: seq<Counters>, key: string): (r: nat)
    ensures forall i :: 0 <= i < |data| ==> Get(data[i], key) <= r
    ensures |data| == 0 ==> r == 0
    ensures |data| > 0 ==> exists i :: 0 <= i < |data| && Get(data[i], key) == r
  {
    if |data| == 0 then 0
    else
      var prev := MaxOf(data[..|data| - 1], key);
      var x := Get(data[|data| - 1], key);
      assert forall i :: 0 <= i < |data| - 1 ==> data[..|data| - 1][i] == data[i];
      if |data| == 1 || x >= prev then x else prev
  }

  /**
    * The metrics record built from a tool report: file-level counters from `head`,
    * complexity, tokens and dependencies summed over all blocks, nesting the deepest
    * block's, and the remaining counters taken from the first block (none when the
    * report lists no block). Any key the report lacks reads as 0.
    */
  function ParseMetrics(report: ToolReport): (r: TmMetrics)
    ensures forall i :: 0 <= i < |report.data| ==>
              Get(report.data[i], "maxDepthNestedBlocks") <= r.nestingDepth
    ensures |report.data| > 0 ==>
              exists i :: 0 <= i < |report.data| && Get(report.data[i], "maxDepthNestedBlocks") == r.nestingDepth
    ensures report.data == [] ==>
              r.complexity == 0 && r.nestingDepth == 0 && r.numTokens == 0 && r.numDependencies == 0
    ensures report.data == [] ==>
              r.numStringValues == 0 && r.numHardCoded == 0 && r.numLoops == 0 && r.numConditions == 0 &&
              r.numFunctionCalls == 0 && r.numDeprecated == 0 && r.numWildcards == 0 &&
              r.graphDepth == 0 && r.numAttrs == 0 && r.numVarsInBlock == 0
  {
    var head := report.head;
    var data := report.data;
    var block: Counters := if |data| > 0 then data[0] else map[];
    TmMetrics(
      loc := Get(head, "num_lines_of_code"),
      numVariables := Get(head, "num_variables"),
      numOutputs := Get(head, "num_outputs"),
      complexity := SumOf(data, "sumMccabeCC"),
      nestingDepth := MaxOf(data, "maxDepthNestedBlocks"),
      numDependencies := SumOf(data, "numImplicitDependentResources") + SumOf(data, "numExplicitResourceDependency"),
      numResources := Get(head, "num_resources"),
      numModules := Get(head, "num_modules"),
      numBlocks := Get(head, "num_blocks"),
      numData := Get(head, "num_data"),
      numProviders := Get(head, "num_providers"),
      numTokens := SumOf(data, "numTokens"),
      numStringValues := Get(block, "numStringValues"),
      numHardCoded := Get(block, "numLiteralExpression"),
      numLoops := Get(block, "numLoops"),
      numConditions := Get(block, "numConditions"),
      numFunctionCalls := Get(block, "numFunctionCall"),
      numDeprecated := Get(block, "numDeprecatedFunctions"),
      numWildcards := Get(block, "numWildCardSuffixString") + Get(block, "numStarString"),
      graphDepth := Get(block, "depthOfBlock"),
      numAttrs := Get(block, "numAttrs"),
      numVarsInBlock := Get(block, "numVars"))
  }

  /** The all-zero record substituted whenever the tool is unavailable or fails. */
  function EmptyMetrics(): TmMetrics {
    TmMetrics(0, 0, 0, 0, 0, 0, 0, 0, 0, 0, 0, 0, 0, 0, 0, 0, 0, 0, 0, 0, 0, 0)
  }

  /** Every one of the 22 counters of a record is 0. */
  predicate AllZero(m: TmMetrics) {
    m.loc == 0 && m.numVariables == 0 && m.numOutputs == 0 && m.complexity == 0 &&
    m.nestingDepth == 0 && m.numDependencies == 0 && m.numResources == 0 && m.numModules == 0 &&
    m.numBlocks == 0 && m.numData == 0 && m.numProviders == 0 && m.numTokens == 0 &&
    m.numStringValues == 0 && m.numHardCoded == 0 && m.numLoops == 0 && m.numConditions == 0 &&
    m.numFunctionCalls == 0 && m.numDeprecated == 0 && m.numWildcards == 0 && m.graphDepth == 0 &&
    m.numAttrs == 0 && m.numVarsInBlock == 0
  }

  /**
    * An empty report, or one whose sections hold no counter at all, normalises to the
    * same record as the failure fallback, and that record is all zeros.
    */
  lemma {:induction false} EmptyReportIsFallback(data: seq<Counters>)
    requires forall i :: 0 <= i < |data| ==> data[i] == map[]
    ensures ParseMetrics(ToolReport(map[], data)) == EmptyMetrics()
    ensures AllZero(EmptyMetrics())
  {
    var r := ParseMetrics(ToolReport(map[], data));
    ZeroCountersSum(data, "sumMccabeCC");
    ZeroCountersSum(data, "numImplicitDependentResources");
    ZeroCountersSum(data, "numExplicitResourceDependency");
    ZeroCountersSum(data, "numTokens");
    if |data| > 0 {
      var i :| 0 <= i < |data| && Get(data[i], "maxDepthNestedBlocks") == r.nestingDepth;
    }
  }

  /** Summing a key over objects that lack it gives 0. */
  lemma {:induction false} ZeroCountersSum(data: seq<Counters>, key: string)
    requires forall i :: 0 <= i < |data| ==> key !in data[i]
    ensures SumOf(data, key) == 0
  {
    if |data| > 0 {
      ZeroCountersSum(data[..|data| - 1], key);
    }
  }
}
