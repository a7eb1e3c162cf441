/**
 The workload rightsizing analysis over exact arithmetic: window checks, p95 with headroom, rounding up,
 capping at the current request, the minimum-reduction cut-off, confidence, risk and savings.
 */
module Rightsizing {
  import opened Results
  import opened Quantiles

  const MIB: real := 1048576.0

  datatype Policy = Policy(
    cpuHeadroom: real,
    memoryHeadroom: real,
    minimumCpuCores: real,
    minimumMemoryBytes: real,
    minimumReduction: real,
    minimumSamples: nat,
    minimumDemoSeconds: nat,
    minimumProductionSeconds: nat,
    minimumCoverage: real)

  const DEFAULT_POLICY := Policy(1.5, 1.35, 0.05, 64.0 * MIB, 0.20, 5, 900, 604800, 0.80)

  /** The ranges the settings enforce. */
  predicate ValidPolicy(p: Policy) {
    && 1.1 <= p.cpuHeadroom <= 3.0 && 1.1 <= p.memoryHeadroom <= 3.0
    && 0.01 <= p.minimumCpuCores <= 1.0 && 16.0 * MIB <= p.minimumMemoryBytes <= 4096.0 * MIB
    && 0.05 <= p.minimumReduction <= 0.60
    && 0.5 <= p.minimumCoverage <= 1.0
  }

  datatype Observation = Observation(
    production: bool,
    cpuRequest: real,
    memoryRequest: real,
    cpuUsage: seq<Sample>,
    memoryUsage: seq<Sample>,
    totalCost: Option<real>,
    cpuCost: Option<real>,
    memoryCost: Option<real>,
    requestedSeconds: nat,
    observedSeconds: nat)

  /** The field constraints of the observation schema. */
  predicate ValidObservation(o: Observation) {
    && o.cpuRequest > 0.0 && o.memoryRequest > 0.0 && o.requestedSeconds >= 60
    && (o.cpuCost.Some? ==> o.cpuCost.value >= 0.0)
    && (o.memoryCost.Some? ==> o.memoryCost.value >= 0.0)
  }

  datatype Recommendation = Recommendation(
    cpu: real,
    memory: real,
    cpuReduction: real,
    memoryReduction: real,
    confidence: real,
    risk: int,
    savings: Option<real>)

  datatype Analysis = InsufficientData | NoRecommendation | Recommended(r: Recommendation)

  // ---------- rounding ----------

  function Ceil(x: real): (n: int)
    ensures n as real - 1.0 < x <= n as real
  {
    if x == x.Floor as real then x.Floor else x.Floor + 1
  }

  function Hundredths(n: int): real {
    n as real / 100.0
  }

  function Mebibytes(n: int): real {
    n as real * MIB
  }

  function RoundCpuUp(x: real): real {
    Hundredths(Ceil(x * 100.0))
  }

  function RoundMemoryUp(x: real): real {
    Mebibytes(Ceil(x / MIB))
  }

  /** Rounding to the nearest integer, ties to the even one. */
  function RoundHalfEven(x: real): (n: int)
    ensures n as real - 0.5 <= x <= n as real + 0.5
  {
    var f := x.Floor;
    if x - f as real < 0.5 then f
    else if x - f as real > 0.5 then f + 1
    else if f % 2 == 0 then f else f + 1
  }

  function RoundTo(x: real, unitsPerOne: real): real
    requires unitsPerOne > 0.0
  {
    RoundHalfEven(x * unitsPerOne) as real / unitsPerOne
  }

  function Min(a: real, b: real): real {
    if b < a then b else a
  }

  function Max(a: real, b: real): real {
    if b > a then b else a
  }

  // ---------- the analysis ----------

  predicate WindowProblem(p: Policy, o: Observation) {
    var required := if o.production then p.minimumProductionSeconds else p.minimumDemoSeconds;
    var samples := if |o.memoryUsage| < |o.cpuUsage| then |o.memoryUsage| else |o.cpuUsage|;
    || o.requestedSeconds < required
    || o.observedSeconds as real < o.requestedSeconds as real * p.minimumCoverage
    || samples < p.minimumSamples
  }

  /** Usage with headroom, at least the floor, rounded up. */
  function CpuNeed(usage: real, floor: real): real {
    RoundCpuUp(Max(usage, floor))
  }

  function MemoryNeed(usage: real, floor: real): real {
    RoundMemoryUp(Max(usage, floor))
  }

  function Reduction(request: real, need: real): real
    requires request > 0.0
  {
    1.0 - Min(request, need) / request
  }

  /**
   The request that is advised: the need capped at the current request, or the current one if too little is
   gained.
   */
  function Advised(request: real, need: real, minimumReduction: real): real
    requires request > 0.0
  {
    if Reduction(request, need) < minimumReduction then request else Min(request, need)
  }

  function EffectiveReduction(request: real, need: real, minimumReduction: real): real
    requires request > 0.0
  {
    if Reduction(request, need) < minimumReduction then 0.0 else Reduction(request, need)
  }

  function Confidence(o: Observation): real
    requires o.requestedSeconds > 0
  {
    var coverage := Min(1.0, o.observedSeconds as real / o.requestedSeconds as real);
    var completeness := if o.totalCost.Some? then 1.0 else 0.85;
    RoundTo(Min(0.99, coverage * completeness), 100.0)
  }

  function UnclampedRisk(o: Observation, reduction: real, confidence: real): int {
    RoundHalfEven(10.0 + reduction * 35.0 + (1.0 - confidence) * 25.0 + if o.production then 20.0 else 0.0)
  }

  function Savings(o: Observation, cpuReduction: real, memoryReduction: real): Option<real> {
    if o.cpuCost.Some? && o.memoryCost.Some?
    then Some(RoundedSavings(o.cpuCost.value, o.memoryCost.value, cpuReduction, memoryReduction))
    else None
  }

  function RoundedSavings(cpuCost: real, memoryCost: real, cpuReduction: real, memoryReduction: real): real {
    RoundTo(cpuCost * cpuReduction + memoryCost * memoryReduction, 10000.0)
  }

  /** The analysis once p95 usage with headroom is known for both resources. */
  function Analyze(p: Policy, o: Observation, cpuUsage: real, memoryUsage: real): Analysis
    requires ValidPolicy(p) && ValidObservation(o)
  {
    var cpuNeed := CpuNeed(cpuUsage, p.minimumCpuCores);
    var memoryNeed := MemoryNeed(memoryUsage, p.minimumMemoryBytes);
    var cpuReduction := EffectiveReduction(o.cpuRequest, cpuNeed, p.minimumReduction);
    var memoryReduction := EffectiveReduction(o.memoryRequest, memoryNeed, p.minimumReduction);
    if cpuReduction == 0.0 && memoryReduction == 0.0 then NoRecommendation else
    var confidence := Confidence(o);
    var risk := UnclampedRisk(o, Max(cpuReduction, memoryReduction), confidence);
    Recommended(Recommendation(
                  Advised(o.cpuRequest, cpuNeed, p.minimumReduction),
                  Advised(o.memoryRequest, memoryNeed, p.minimumReduction),
                  cpuReduction,
                  memoryReduction,
                  confidence,
                  if risk > 100 then 100 else risk,
                  Savings(o, cpuReduction, memoryReduction)))
  }

  /** The p95 of the usage, with headroom. */
  function PeakUsage(samples: seq<Sample>, headroom: real): Result<real> {
    var p95 :- Quantile(samples, 0.95);
    Ok(p95 * headroom)
  }

  function AnalyzeWorkload(p: Policy, o: Observation): Result<Analysis>
    requires ValidPolicy(p) && ValidObservation(o)
  {
    if WindowProblem(p, o) then Ok(InsufficientData) else
    var cpu :- PeakUsage(o.cpuUsage, p.cpuHeadroom);
    var memory :- PeakUsage(o.memoryUsage, p.memoryHeadroom);
    Ok(Analyze(p, o, cpu, memory))
  }

  // ---------- properties of the parts ----------

  lemma CeilMonotone(x: real, y: real)
    requires x <= y
    ensures Ceil(x) <= Ceil(y)
  {
  }

  lemma RoundHalfEvenMonotone(x: real, y: real)
    requires x <= y
    ensures RoundHalfEven(x) <= RoundHalfEven(y)
  {
    if x.Floor < y.Floor {
      assert x < (x.Floor + 1) as real <= y.Floor as real;
    }
  }

  lemma RoundHalfEvenExact(n: int)
    ensures RoundHalfEven(n as real) == n
  {
  }

  lemma NeedsBounded(usage: real, floor: real)
    requires usage >= 0.0 && floor > 0.0
    ensures CpuNeed(usage, floor) >= Max(usage, floor) > 0.0
    ensures MemoryNeed(usage, floor) >= Max(usage, floor) > 0.0
    ensures CpuNeed(usage, floor) < Max(usage, floor) + 0.01
    ensures MemoryNeed(usage, floor) < Max(usage, floor) + MIB
  {
  }

  lemma RoundedUpMonotone(x: real, y: real)
    requires x <= y
    ensures RoundCpuUp(x) <= RoundCpuUp(y)
    ensures RoundMemoryUp(x) <= RoundMemoryUp(y)
  {
    CeilMonotone(x * 100.0, y * 100.0);
    CeilMonotone(x / MIB, y / MIB);
  }

  lemma RatioOrder(x: real, y: real, d: real)
    requires x <= y && d > 0.0
    ensures x / d <= y / d
  {
  }

  /** A larger need never leads to a smaller advised request. */
  lemma AdvisedMonotone(request: real, a: real, b: real, minimumReduction: real)
    requires request > 0.0 && a <= b
    ensures Advised(request, a, minimumReduction) <= Advised(request, b, minimumReduction)
  {
    RatioOrder(Min(request, a), Min(request, b), request);
  }

  /** `advised` is `current` lowered by the fraction `reduction`. */
  predicate CutBy(current: real, advised: real, reduction: real) {
    advised == current * (1.0 - reduction)
  }

  predicate CutByAtLeast(current: real, advised: real, minimum: real) {
    advised <= current * (1.0 - minimum)
  }

  /** The advised request is the current one, or it covers the need and is a large enough cut. */
  lemma AdvisedBounds(request: real, need: real, minimumReduction: real)
    requires request > 0.0 && need > 0.0 && 0.0 < minimumReduction < 1.0
    ensures var a := Advised(request, need, minimumReduction);
            var r := EffectiveReduction(request, need, minimumReduction);
            && 0.0 < a <= request
            && 0.0 <= r < 1.0
            && CutBy(request, a, r)
            && (a == request <==> r == 0.0)
            && (a != request ==> a == need && CutByAtLeast(request, a, minimumReduction))
  {
    var rec := Min(request, need);
    var q := rec / request;
    assert rec == q * request;
    RatioOrder(rec, request, request);
    if 1.0 - q >= minimumReduction {
      ScaledOrder(request, q, 1.0 - minimumReduction);
      assert request * minimumReduction > 0.0;
      assert request * (1.0 - minimumReduction) == request - request * minimumReduction < request;
    }
  }

  lemma ConfidenceBounds(o: Observation)
    requires o.requestedSeconds > 0
    ensures 0.0 <= Confidence(o) <= 0.99
  {
    var coverage := Min(1.0, o.observedSeconds as real / o.requestedSeconds as real);
    RatioOrder(0.0, o.observedSeconds as real, o.requestedSeconds as real);
    var completeness := if o.totalCost.Some? then 1.0 else 0.85;
    var x := Min(0.99, coverage * completeness);
    RoundHalfEvenMonotone(0.0, x * 100.0);
    RoundHalfEvenMonotone(x * 100.0, 99.0);
    RoundHalfEvenExact(0);
    RoundHalfEvenExact(99);
  }

  lemma RiskBounds(o: Observation, reduction: real, confidence: real)
    requires 0.0 <= reduction <= 1.0 && 0.0 <= confidence <= 1.0
    ensures 10 <= UnclampedRisk(o, reduction, confidence) <= 90
  {
    var x := 10.0 + reduction * 35.0 + (1.0 - confidence) * 25.0 + if o.production then 20.0 else 0.0;
    RoundHalfEvenMonotone(10.0, x);
    RoundHalfEvenMonotone(x, 90.0);
    RoundHalfEvenExact(10);
    RoundHalfEvenExact(90);
  }

  lemma RoundToMonotone(x: real, y: real)
    requires 0.0 <= x <= y
    ensures 0.0 <= RoundTo(x, 10000.0) <= RoundTo(y, 10000.0)
  {
    RoundHalfEvenMonotone(0.0, x * 10000.0);
    RoundHalfEvenMonotone(x * 10000.0, y * 10000.0);
    RoundHalfEvenExact(0);
  }

  lemma Share(cost: real, fraction: real)
    requires cost >= 0.0 && 0.0 <= fraction <= 1.0
    ensures 0.0 <= cost * fraction <= cost
  {
  }

  /** Savings never exceed the rounded cost of what is being resized. */
  lemma SavingsBounds(o: Observation, cpuReduction: real, memoryReduction: real)
    requires ValidObservation(o) && 0.0 <= cpuReduction <= 1.0 && 0.0 <= memoryReduction <= 1.0
    ensures var s := Savings(o, cpuReduction, memoryReduction);
            && (s.Some? <==> o.cpuCost.Some? && o.memoryCost.Some?)
            && (s.Some? ==> 0.0 <= s.value <= RoundTo(o.cpuCost.value + o.memoryCost.value, 10000.0))
  {
    if o.cpuCost.Some? && o.memoryCost.Some? {
      RoundedShares(o.cpuCost.value, o.memoryCost.value, cpuReduction, memoryReduction);
    }
  }

  lemma RoundedShares(c: real, m: real, x: real, y: real)
    requires 0.0 <= c && 0.0 <= m && 0.0 <= x <= 1.0 && 0.0 <= y <= 1.0
    ensures 0.0 <= RoundedSavings(c, m, x, y) <= RoundTo(c + m, 10000.0)
  {
    Share(c, x);
    Share(m, y);
    SumBounds(c * x, m * y, c, m);
  }

  lemma SumBounds(a: real, b: real, c: real, d: real)
    requires 0.0 <= a <= c && 0.0 <= b <= d
    ensures 0.0 <= RoundTo(a + b, 10000.0) <= RoundTo(c + d, 10000.0)
  {
    RoundToMonotone(a + b, c + d);
  }

  // ---------- the main results ----------

  /** What an analysis asks the owner to set, the current request when nothing is recommended. */
  function AdvisedCpu(a: Analysis, o: Observation): real {
    if a.Recommended? then a.r.cpu else o.cpuRequest
  }

  function AdvisedMemory(a: Analysis, o: Observation): real {
    if a.Recommended? then a.r.memory else o.memoryRequest
  }

  lemma AdviceMonotone(p: Policy, o: Observation, busier: Observation, c: real, d: real, m: real, n: real)
    requires ValidPolicy(p) && ValidObservation(o) && ValidObservation(busier)
    requires o.cpuRequest == busier.cpuRequest && o.memoryRequest == busier.memoryRequest
    requires 0.0 <= c <= d && 0.0 <= m <= n
    ensures AdvisedCpu(Analyze(p, o, c, m), o) <= AdvisedCpu(Analyze(p, busier, d, n), busier)
    ensures AdvisedMemory(Analyze(p, o, c, m), o) <= AdvisedMemory(Analyze(p, busier, d, n), busier)
  {
    var cpu, memory, least := p.minimumCpuCores, p.minimumMemoryBytes, p.minimumReduction;
    RoundedUpMonotone(Max(c, cpu), Max(d, cpu));
    RoundedUpMonotone(Max(m, memory), Max(n, memory));
    AdvisedMonotone(o.cpuRequest, CpuNeed(c, cpu), CpuNeed(d, cpu), least);
    AdvisedMonotone(o.memoryRequest, MemoryNeed(m, memory), MemoryNeed(n, memory), least);
    AdviceIsAdvised(p, o, c, m);
    AdviceIsAdvised(p, busier, d, n);
  }

  lemma AdviceIsAdvised(p: Policy, o: Observation, c: real, m: real)
    requires ValidPolicy(p) && ValidObservation(o) && 0.0 <= c && 0.0 <= m
    ensures AdvisedCpu(Analyze(p, o, c, m), o)
         == Advised(o.cpuRequest, CpuNeed(c, p.minimumCpuCores), p.minimumReduction)
    ensures AdvisedMemory(Analyze(p, o, c, m), o)
         == Advised(o.memoryRequest, MemoryNeed(m, p.minimumMemoryBytes), p.minimumReduction)
  {
    NeedsBounded(c, p.minimumCpuCores);
    NeedsBounded(m, p.minimumMemoryBytes);
    AdvisedBounds(o.cpuRequest, CpuNeed(c, p.minimumCpuCores), p.minimumReduction);
    AdvisedBounds(o.memoryRequest, MemoryNeed(m, p.minimumMemoryBytes), p.minimumReduction);
  }

  lemma PeakUsageMonotone(a: seq<Sample>, b: seq<Sample>, headroom: real)
    requires Dominated(a, b) && headroom > 0.0
    ensures PeakUsage(a, headroom).Ok? <==> PeakUsage(b, headroom).Ok?
    ensures PeakUsage(a, headroom).Ok? ==> 0.0 <= PeakUsage(a, headroom).value <= PeakUsage(b, headroom).value
  {
    QuantileMonotone(a, b, 0.95);
    if Quantile(a, 0.95).Ok? {
      QuantileRises(a, 0.95, 0.95);
      ScaledUsage(Quantile(a, 0.95).value, Quantile(b, 0.95).value, headroom);
    }
  }

  lemma ScaledUsage(x: real, y: real, headroom: real)
    requires 0.0 <= x <= y && 0.0 < headroom
    ensures 0.0 <= x * headroom <= y * headroom
  {
  }

  /** Raising usage, sample by sample, never lowers the advice. */
  lemma RaisingUsageNeverLowersAdvice(p: Policy, o: Observation, cpuUsage: seq<Sample>, memoryUsage: seq<Sample>)
    requires ValidPolicy(p) && ValidObservation(o)
    requires Dominated(o.cpuUsage, cpuUsage) && Dominated(o.memoryUsage, memoryUsage)
    ensures var busier := o.(cpuUsage := cpuUsage, memoryUsage := memoryUsage);
            && (AnalyzeWorkload(p, o).Ok? <==> AnalyzeWorkload(p, busier).Ok?)
            && (AnalyzeWorkload(p, o).Ok? ==>
                  var a, b := AnalyzeWorkload(p, o).value, AnalyzeWorkload(p, busier).value;
                  AdvisedCpu(a, o) <= AdvisedCpu(b, busier) && AdvisedMemory(a, o) <= AdvisedMemory(b, busier))
  {
    var busier := o.(cpuUsage := cpuUsage, memoryUsage := memoryUsage);
    PeakUsageMonotone(o.cpuUsage, cpuUsage, p.cpuHeadroom);
    PeakUsageMonotone(o.memoryUsage, memoryUsage, p.memoryHeadroom);
    var c, d := PeakUsage(o.cpuUsage, p.cpuHeadroom), PeakUsage(cpuUsage, p.cpuHeadroom);
    var m, n := PeakUsage(o.memoryUsage, p.memoryHeadroom), PeakUsage(memoryUsage, p.memoryHeadroom);
    if !WindowProblem(p, o) && c.Ok? && m.Ok? {
      AdviceMonotone(p, o, busier, c.value, d.value, m.value, n.value);
    }
  }

  /** One resource of a recommendation, given usage with headroom. */
  ghost predicate SafeCut(current: real, advised: real, reduction: real, usage: real, floor: real, minimum: real) {
    && 0.0 < advised <= current
    && CutBy(current, advised, reduction)
    && (advised == current || (advised >= Max(usage, floor) && CutByAtLeast(current, advised, minimum)))
  }

  ghost predicate SafeRecommendation(p: Policy, o: Observation, r: Recommendation, cpuUsage: real, memoryUsage: real) {
    && SafeCut(o.cpuRequest, r.cpu, r.cpuReduction, cpuUsage, p.minimumCpuCores, p.minimumReduction)
    && SafeCut(o.memoryRequest, r.memory, r.memoryReduction, memoryUsage, p.minimumMemoryBytes, p.minimumReduction)
    && (r.cpu < o.cpuRequest || r.memory < o.memoryRequest)
    && 0.0 <= r.confidence <= 0.99
    && r.risk == UnclampedRisk(o, Max(r.cpuReduction, r.memoryReduction), r.confidence)
    && 10 <= r.risk <= 90
    && (r.savings.Some? <==> o.cpuCost.Some? && o.memoryCost.Some?)
    && (r.savings.Some? ==> 0.0 <= r.savings.value <= RoundTo(o.cpuCost.value + o.memoryCost.value, 10000.0))
  }

  lemma RecommendationIsSafe(p: Policy, o: Observation, c: real, m: real)
    requires ValidPolicy(p) && ValidObservation(o) && 0.0 <= c && 0.0 <= m
    ensures Analyze(p, o, c, m).Recommended? ==> SafeRecommendation(p, o, Analyze(p, o, c, m).r, c, m)
  {
    NeedsBounded(c, p.minimumCpuCores);
    NeedsBounded(m, p.minimumMemoryBytes);
    AdvisedBounds(o.cpuRequest, CpuNeed(c, p.minimumCpuCores), p.minimumReduction);
    AdvisedBounds(o.memoryRequest, MemoryNeed(m, p.minimumMemoryBytes), p.minimumReduction);
    ConfidenceBounds(o);
    if Analyze(p, o, c, m).Recommended? {
      var r := Analyze(p, o, c, m).r;
      RiskBounds(o, Max(r.cpuReduction, r.memoryReduction), r.confidence);
      SavingsBounds(o, r.cpuReduction, r.memoryReduction);
    }
  }

  /**
   Every recommendation: each request stays or is cut by at least the minimum fraction to a value that
   covers p95 with headroom and the floor; at least one is cut; the figures attached are in range, so
   the clamp of the risk at 100 never applies.
   */
  lemma EveryRecommendationIsSafe(p: Policy, o: Observation)
    requires ValidPolicy(p) && ValidObservation(o)
    ensures AnalyzeWorkload(p, o).Ok? && AnalyzeWorkload(p, o).value.Recommended? ==>
              var cpu, memory := PeakUsage(o.cpuUsage, p.cpuHeadroom), PeakUsage(o.memoryUsage, p.memoryHeadroom);
              && cpu.Ok? && memory.Ok?
              && SafeRecommendation(p, o, AnalyzeWorkload(p, o).value.r, cpu.value, memory.value)
              && CutsRounded(o, AnalyzeWorkload(p, o).value.r)
  {
    PeakUsageMonotone(o.cpuUsage, o.cpuUsage, p.cpuHeadroom);
    PeakUsageMonotone(o.memoryUsage, o.memoryUsage, p.memoryHeadroom);
    var cpu, memory := PeakUsage(o.cpuUsage, p.cpuHeadroom), PeakUsage(o.memoryUsage, p.memoryHeadroom);
    if cpu.Ok? && memory.Ok? {
      RecommendationIsSafe(p, o, cpu.value, memory.value);
      CutsAreRounded(p, o, cpu.value, memory.value);
    }
  }

  /** An advised request that is lower than the current one is a whole number of hundredths, or of MiB. */
  ghost predicate CutsRounded(o: Observation, r: Recommendation) {
    && (r.cpu < o.cpuRequest ==> exists n: int :: n > 0 && r.cpu == Hundredths(n))
    && (r.memory < o.memoryRequest ==> exists n: int :: n > 0 && r.memory == Mebibytes(n))
  }

  lemma CutsAreRounded(p: Policy, o: Observation, c: real, m: real)
    requires ValidPolicy(p) && ValidObservation(o) && 0.0 <= c && 0.0 <= m
    ensures Analyze(p, o, c, m).Recommended? ==> CutsRounded(o, Analyze(p, o, c, m).r)
  {
    AdviceIsAdvised(p, o, c, m);
    NeedsBounded(c, p.minimumCpuCores);
    NeedsBounded(m, p.minimumMemoryBytes);
    assert CpuNeed(c, p.minimumCpuCores) == Hundredths(Ceil(Max(c, p.minimumCpuCores) * 100.0));
    assert MemoryNeed(m, p.minimumMemoryBytes) == Mebibytes(Ceil(Max(m, p.minimumMemoryBytes) / MIB));
  }
}
