/**
 The whole rightsizing analysis told from its samples: percentile, headroom, floor, rounding, cut-off and the
 figures of a recommendation, without the functions that compute them.
 */
module Advice {
  import opened Results
  import opened Quantiles
  import opened Rightsizing

  /** The usable values of some samples, in ascending order. `Quantiles.AscendingIsUnique` makes it the only one. */
  ghost predicate Arranges(s: seq<real>, samples: seq<Sample>) {
    Ascending(s) && forall v: real :: multiset(s)[v] == if v >= 0.0 then multiset(samples)[Finite(v)] else 0
  }

  /** The value 95% of the way through an ascending sequence, between neighbours in proportion. */
  function NinetyFifth(s: seq<real>): real
    requires s != []
  {
    var k := (0.95 * (|s| - 1) as real).Floor;
    var f := 0.95 * (|s| - 1) as real - k as real;
    if f == 0.0 then s[k] else s[k] + (s[k + 1] - s[k]) * f
  }

  predicate Insufficient(p: Policy, o: Observation) {
    || o.requestedSeconds < (if o.production then p.minimumProductionSeconds else p.minimumDemoSeconds)
    || o.observedSeconds as real < o.requestedSeconds as real * p.minimumCoverage
    || |o.cpuUsage| < p.minimumSamples || |o.memoryUsage| < p.minimumSamples
  }

  /** `n` units are the fewest that cover `need`. */
  predicate Fewest(n: int, units: real, need: real) {
    n as real * units >= need && (n - 1) as real * units < need
  }

  /**
   The advised request is the fewest units that cover the need, if that cuts the current request by the least
   fraction or more, and else the current request.
   */
  ghost predicate Advises(current: real, advised: real, units: real, need: real, minimum: real) {
    exists n: int ::
      Fewest(n, units, need)
      && advised == if n as real * units <= current * (1.0 - minimum) then n as real * units else current
  }

  /** `x` rounded to so many parts of one. */
  ghost predicate Rounded(r: real, x: real, parts: real) {
    exists n: int :: IsNearest(n, x * parts) && IsParts(r, n, parts)
  }

  predicate IsParts(r: real, n: int, parts: real) {
    r * parts == n as real
  }

  predicate IsNearest(n: int, x: real) {
    -0.5 <= n as real - x <= 0.5
  }

  /** The figures of a recommendation. */
  ghost predicate Figures(o: Observation, r: Recommendation)
    requires o.requestedSeconds > 0
  {
    && ReducedBy(o.cpuRequest, r.cpu, r.cpuReduction) && ReducedBy(o.memoryRequest, r.memory, r.memoryReduction)
    && Rounded(r.confidence, Covered(o), 100.0)
    && IsNearest(r.risk, RiskOf(o, Larger(r.cpuReduction, r.memoryReduction), r.confidence))
    && (r.savings.Some? <==> o.cpuCost.Some? && o.memoryCost.Some?)
    && (r.savings.Some? ==> Rounded(r.savings.value, Saved(o, r.cpuReduction, r.memoryReduction), 10000.0))
  }

  predicate ReducedBy(current: real, advised: real, reduction: real) {
    advised == current * (1.0 - reduction)
  }

  function RiskOf(o: Observation, reduction: real, confidence: real): real {
    10.0 + reduction * 35.0 + (1.0 - confidence) * 25.0 + if o.production then 20.0 else 0.0
  }

  /** The costs that are cut. */
  function Saved(o: Observation, cpuReduction: real, memoryReduction: real): real {
    (if o.cpuCost.Some? then o.cpuCost.value * cpuReduction else 0.0)
    + if o.memoryCost.Some? then o.memoryCost.value * memoryReduction else 0.0
  }

  function WithHeadroom(usage: real, headroom: real): real {
    usage * headroom
  }

  function Larger(a: real, b: real): real {
    if a >= b then a else b
  }

  function Smaller(a: real, b: real): real {
    if a <= b then a else b
  }

  /** How much of the window was observed, less without a total cost, and never certain. */
  function Covered(o: Observation): real
    requires o.requestedSeconds > 0
  {
    Smaller(0.99, Smaller(1.0, o.observedSeconds as real / o.requestedSeconds as real)
                  * if o.totalCost.Some? then 1.0 else 0.85)
  }

  // ---------- percentiles ----------

  lemma ArrangedAsSorted(s: seq<real>, samples: seq<Sample>)
    requires Arranges(s, samples)
    ensures s == Sort(UsableValues(samples))
  {
    var sorted := Sort(UsableValues(samples));
    SortAscending(UsableValues(samples));
    forall v: real ensures multiset(s)[v] == multiset(sorted)[v] { UsableCount(samples, v); }
    assert multiset(s) == multiset(sorted);
    AscendingIsUnique(s, sorted);
  }

  lemma NinetyFifthAt(s: seq<real>, position: real)
    requires s != [] && position == Position(|s|, 0.95)
    ensures AtPosition(s, position) == NinetyFifth(s)
  {
    assert position == 0.95 * (|s| - 1) as real;
  }

  lemma PercentileFromSamples(samples: seq<Sample>, s: seq<real>)
    requires Arranges(s, samples)
    ensures Quantile(samples, 0.95) == if s == [] then Err(NoUsageValues) else Ok(NinetyFifth(s))
  {
    ArrangedAsSorted(s, samples);
    if s != [] { NinetyFifthAt(s, Position(|s|, 0.95)); }
  }

  lemma PeakFromSamples(samples: seq<Sample>, s: seq<real>, headroom: real)
    requires Arranges(s, samples)
    ensures s == [] ==> PeakUsage(samples, headroom) == Err(NoUsageValues)
    ensures s != [] ==>
              PeakUsage(samples, headroom).Ok?
                && PeakUsage(samples, headroom).value == WithHeadroom(NinetyFifth(s), headroom)
  {
    PercentileFromSamples(samples, s);
    if s != [] { PeakOf(samples, NinetyFifth(s), headroom); }
  }

  lemma PeakOf(samples: seq<Sample>, p95: real, headroom: real)
    requires Quantile(samples, 0.95) == Ok(p95)
    ensures PeakUsage(samples, headroom).Ok? && PeakUsage(samples, headroom).value == WithHeadroom(p95, headroom)
  {
    var quantile, peak := Quantile(samples, 0.95), PeakUsage(samples, headroom);
    assert quantile.Ok? && quantile.value == p95;
    assert peak.Ok? && peak.value == quantile.value * headroom;
  }

  lemma NinetyFifthIsUsable(samples: seq<Sample>, s: seq<real>)
    requires Arranges(s, samples) && s != []
    ensures NinetyFifth(s) >= 0.0
  {
    PercentileFromSamples(samples, s);
    QuantileRises(samples, 0.95, 0.95);
    var values := UsableValues(samples);
    var low :| low in values && low <= Quantile(samples, 0.95).value;
    UsableAreNonNegative(samples, low);
  }

  /** The value at a fractional position, between neighbours in proportion. */
  function Interpolated(s: seq<real>, position: real): real
    requires 0.0 <= position <= (|s| - 1) as real
  {
    var k := position.Floor;
    if position == k as real then s[k] else s[k] + (s[k + 1] - s[k]) * (position - k as real)
  }

  lemma InterpolatedAt(s: seq<real>, position: real)
    requires 0.0 <= position <= (|s| - 1) as real
    ensures AtPosition(s, position) == Interpolated(s, position)
  {
  }

  lemma PositionIs(n: nat, q: real, position: real)
    requires 0 < n && 0.0 <= q <= 1.0 && position == (n - 1) as real * q
    ensures Position(n, q) == position
  {
  }

  lemma QuantileFromSamples(samples: seq<Sample>, s: seq<real>, q: real, position: real)
    requires Arranges(s, samples) && s != [] && 0.0 <= q <= 1.0
    requires 0.0 <= position <= (|s| - 1) as real && Position(|s|, q) == position
    ensures Quantile(samples, q) == Ok(Interpolated(s, position))
  {
    ArrangedAsSorted(s, samples);
    InterpolatedAt(s, position);
    QuantileAt(samples, s, q, position);
  }

  lemma QuantileAt(samples: seq<Sample>, s: seq<real>, q: real, position: real)
    requires s == Sort(UsableValues(samples)) && s != [] && 0.0 <= q <= 1.0
    requires 0.0 <= position <= (|s| - 1) as real && Position(|s|, q) == position
    ensures Quantile(samples, q) == Ok(AtPosition(s, position))
  {
  }

  /** Percentile `q` of the values `s`, where `last` is their last position. */
  predicate IsPercentile(x: real, s: seq<real>, position: real) {
    0.0 <= position <= (|s| - 1) as real && x == Interpolated(s, position)
  }

  lemma PercentileFrom(samples: seq<Sample>, s: seq<real>, q: real, position: real) returns (x: real)
    requires Arranges(s, samples) && s != [] && 0.0 <= q <= 1.0
    requires 0.0 <= position <= (|s| - 1) as real && Position(|s|, q) == position
    ensures Quantile(samples, q) == Ok(x) && IsPercentile(x, s, position)
  {
    QuantileFromSamples(samples, s, q, position);
    x := Interpolated(s, position);
  }

  /** Each of the three percentiles of a series with a usable sample; one without any is an error. */
  lemma PercentilesFromSamples(samples: seq<Sample>, s: seq<real>, q: real, position: real)
    requires Arranges(s, samples) && (q == 0.50 || q == 0.95 || q == 0.99)
    requires s != [] ==> position == Position(|s|, q)
    ensures s == [] ==> PercentilesOf(samples) == Err(NoUsageValues)
    ensures s != [] ==>
              var r := PercentilesOf(samples);
              r.Ok? && IsPercentile(if q == 0.50 then r.value.p50 else if q == 0.95 then r.value.p95 else r.value.p99,
                                    s, position)
  {
    ArrangedAsSorted(s, samples);
    if s != [] {
      var x := PercentileFrom(samples, s, q, position);
      PercentileRead(samples, q);
    }
  }

  lemma PercentileRead(samples: seq<Sample>, q: real)
    requires Sort(UsableValues(samples)) != [] && (q == 0.50 || q == 0.95 || q == 0.99)
    ensures var r := PercentilesOf(samples);
            r.Ok? && Quantile(samples, q)
                     == Ok(if q == 0.50 then r.value.p50 else if q == 0.95 then r.value.p95 else r.value.p99)
  {
  }

  // ---------- requests ----------

  lemma FewestHundredths(x: real)
    ensures exists n: int :: Fewest(n, 0.01, x) && RoundCpuUp(x) == n as real * 0.01
  {
    var n := Ceil(x * 100.0);
    assert Fewest(n, 0.01, x);
  }

  lemma FewestMebibytes(x: real)
    ensures exists n: int :: Fewest(n, MIB, x) && RoundMemoryUp(x) == n as real * MIB
  {
    var n := Ceil(x / MIB);
    assert (x / MIB) * MIB == x;
    assert Fewest(n, MIB, x);
  }

  /** The cut-off, without dividing. */
  lemma CutOff(current: real, need: real, minimum: real)
    requires current > 0.0 && need > 0.0 && 0.0 < minimum < 1.0
    ensures Advised(current, need, minimum) == if need <= current * (1.0 - minimum) then need else current
    ensures EffectiveReduction(current, need, minimum) == 0.0 <==> Advised(current, need, minimum) == current
    ensures Advised(current, need, minimum) == current * (1.0 - EffectiveReduction(current, need, minimum))
  {
    AdvisedBounds(current, need, minimum);
    var least := Min(current, need);
    assert Reduction(current, need) == 1.0 - least / current;
    assert least / current * current == least;
    if Reduction(current, need) < minimum {
      Times(1.0 - minimum, least / current, current);
    } else {
      AtLeastTimes(least / current, 1.0 - minimum, current);
      Times(0.0, minimum, current);
    }
  }

  lemma Times(a: real, b: real, k: real)
    requires a < b && k > 0.0
    ensures a * k < b * k
  {
  }

  lemma AtLeastTimes(a: real, b: real, k: real)
    requires a <= b && k > 0.0
    ensures a * k <= b * k
  {
  }

  lemma NeedsAdvise(current: real, usage: real, floor: real, minimum: real)
    requires current > 0.0 && usage >= 0.0 && floor > 0.0 && 0.0 < minimum < 1.0
    ensures Advises(current, Advised(current, CpuNeed(usage, floor), minimum), 0.01, Larger(usage, floor), minimum)
    ensures Advises(current, Advised(current, MemoryNeed(usage, floor), minimum), MIB, Larger(usage, floor), minimum)
  {
    NeedsBounded(usage, floor);
    var need := Max(usage, floor);
    FewestHundredths(need);
    var n :| Fewest(n, 0.01, need) && RoundCpuUp(need) == n as real * 0.01;
    CutOff(current, CpuNeed(usage, floor), minimum);
    assert Fewest(n, 0.01, Larger(usage, floor));
    FewestMebibytes(need);
    var m :| Fewest(m, MIB, need) && RoundMemoryUp(need) == m as real * MIB;
    CutOff(current, MemoryNeed(usage, floor), minimum);
    assert Fewest(m, MIB, Larger(usage, floor));
  }

  // ---------- figures ----------

  lemma RoundToIsRounded(x: real, parts: real)
    requires parts > 0.0
    ensures Rounded(RoundTo(x, parts), x, parts)
  {
    var n := RoundHalfEven(x * parts);
    assert IsNearest(n, x * parts);
    Undivided(n as real, parts);
    assert IsParts(RoundTo(x, parts), n, parts);
  }

  lemma Undivided(x: real, k: real)
    requires k > 0.0
    ensures x / k * k == x
  {
  }

  lemma SavingsRounded(o: Observation, cpuReduction: real, memoryReduction: real)
    ensures var r := Savings(o, cpuReduction, memoryReduction);
            && (r.Some? <==> o.cpuCost.Some? && o.memoryCost.Some?)
            && (r.Some? ==> Rounded(r.value, Saved(o, cpuReduction, memoryReduction), 10000.0))
  {
    if o.cpuCost.Some? && o.memoryCost.Some? { RoundToIsRounded(Saved(o, cpuReduction, memoryReduction), 10000.0); }
  }

  lemma ConfidenceRounded(o: Observation)
    requires o.requestedSeconds > 0
    ensures Rounded(Confidence(o), Covered(o), 100.0)
  {
    RoundToIsRounded(Covered(o), 100.0);
  }

  lemma RiskRounded(o: Observation, reduction: real, confidence: real)
    ensures IsNearest(UnclampedRisk(o, reduction, confidence), RiskOf(o, reduction, confidence))
  {
  }

  lemma FiguresOf(p: Policy, o: Observation, cpu: real, memory: real)
    requires ValidPolicy(p) && ValidObservation(o) && 0.0 <= cpu && 0.0 <= memory
    ensures Analyze(p, o, cpu, memory).Recommended? ==> Figures(o, Analyze(p, o, cpu, memory).r)
  {
    if Analyze(p, o, cpu, memory).Recommended? {
      var r := Analyze(p, o, cpu, memory).r;
      SavingsRounded(o, r.cpuReduction, r.memoryReduction);
      ConfidenceRounded(o);
      RiskRounded(o, Larger(r.cpuReduction, r.memoryReduction), r.confidence);
      FiguresRead(p, o, cpu, memory);
      CutsRead(p, o, cpu, memory);
    }
  }

  /** What a recommendation carries. */
  lemma FiguresRead(p: Policy, o: Observation, cpu: real, memory: real)
    requires ValidPolicy(p) && ValidObservation(o) && 0.0 <= cpu && 0.0 <= memory
    requires Analyze(p, o, cpu, memory).Recommended?
    ensures var r := Analyze(p, o, cpu, memory).r;
            r.confidence == Confidence(o) && r.savings == Savings(o, r.cpuReduction, r.memoryReduction)
            && r.risk == UnclampedRisk(o, Larger(r.cpuReduction, r.memoryReduction), r.confidence)
  {
    RecommendationIsSafe(p, o, cpu, memory);
  }

  lemma CutsRead(p: Policy, o: Observation, cpu: real, memory: real)
    requires ValidPolicy(p) && ValidObservation(o) && 0.0 <= cpu && 0.0 <= memory
    requires Analyze(p, o, cpu, memory).Recommended?
    ensures var r := Analyze(p, o, cpu, memory).r;
            ReducedBy(o.cpuRequest, r.cpu, r.cpuReduction) && ReducedBy(o.memoryRequest, r.memory, r.memoryReduction)
  {
    RecommendationIsSafe(p, o, cpu, memory);
  }

  // ---------- the analysis ----------

  /** What the analysis answers, given the 95th percentiles. */
  ghost predicate Answers(p: Policy, o: Observation, cpu95: real, memory95: real, a: Analysis)
    requires o.requestedSeconds > 0
  {
    exists cpu, memory ::
      && AdvisesBoth(p, o, cpu95, memory95, cpu, memory)
      && if cpu == o.cpuRequest && memory == o.memoryRequest then a == NoRecommendation
         else a.Recommended? && a.r.cpu == cpu && a.r.memory == memory && Figures(o, a.r)
  }

  ghost predicate AdvisesBoth(p: Policy, o: Observation, cpu95: real, memory95: real, cpu: real, memory: real) {
    && Advises(o.cpuRequest, cpu, 0.01, Larger(WithHeadroom(cpu95, p.cpuHeadroom), p.minimumCpuCores),
               p.minimumReduction)
    && Advises(o.memoryRequest, memory, MIB, Larger(WithHeadroom(memory95, p.memoryHeadroom), p.minimumMemoryBytes),
               p.minimumReduction)
  }

  lemma AnalysisAnswers(p: Policy, o: Observation, cpu95: real, memory95: real)
    requires ValidPolicy(p) && ValidObservation(o) && 0.0 <= cpu95 && 0.0 <= memory95
    ensures Answers(p, o, cpu95, memory95,
                    Analyze(p, o, WithHeadroom(cpu95, p.cpuHeadroom), WithHeadroom(memory95, p.memoryHeadroom)))
  {
    var c, m := WithHeadroom(cpu95, p.cpuHeadroom), WithHeadroom(memory95, p.memoryHeadroom);
    AtLeastTimes(0.0, cpu95, p.cpuHeadroom);
    AtLeastTimes(0.0, memory95, p.memoryHeadroom);
    NeedsAdvise(o.cpuRequest, c, p.minimumCpuCores, p.minimumReduction);
    NeedsAdvise(o.memoryRequest, m, p.minimumMemoryBytes, p.minimumReduction);
    NeedsBounded(c, p.minimumCpuCores);
    NeedsBounded(m, p.minimumMemoryBytes);
    var cpu := Advised(o.cpuRequest, CpuNeed(c, p.minimumCpuCores), p.minimumReduction);
    var memory := Advised(o.memoryRequest, MemoryNeed(m, p.minimumMemoryBytes), p.minimumReduction);
    CutOff(o.cpuRequest, CpuNeed(c, p.minimumCpuCores), p.minimumReduction);
    CutOff(o.memoryRequest, MemoryNeed(m, p.minimumMemoryBytes), p.minimumReduction);
    FiguresOf(p, o, c, m);
    assert AdvisesBoth(p, o, cpu95, memory95, cpu, memory);
  }

  /**
   What the engine answers, from the samples. It needs enough of a window and usable values of both resources.
   With the 95th percentiles `cpu` and `memory`, each request is advised as `Advises` says of the percentile
   with headroom, or of the floor. It recommends exactly if one of them is cut, with these figures.
   */
  lemma AdviceFromSamples(p: Policy, o: Observation, cs: seq<real>, ms: seq<real>)
    requires ValidPolicy(p) && ValidObservation(o) && Arranges(cs, o.cpuUsage) && Arranges(ms, o.memoryUsage)
    ensures Insufficient(p, o) ==> AnalyzeWorkload(p, o) == Ok(InsufficientData)
    ensures !Insufficient(p, o) ==> (AnalyzeWorkload(p, o) == Err(NoUsageValues) <==> cs == [] || ms == [])
    ensures !Insufficient(p, o) && cs != [] && ms != [] ==>
              AnalyzeWorkload(p, o).Ok? && Answers(p, o, NinetyFifth(cs), NinetyFifth(ms), AnalyzeWorkload(p, o).value)
  {
    PeakFromSamples(o.cpuUsage, cs, p.cpuHeadroom);
    PeakFromSamples(o.memoryUsage, ms, p.memoryHeadroom);
    WindowIs(p, o);
    if !Insufficient(p, o) && cs != [] && ms != [] {
      NinetyFifthIsUsable(o.cpuUsage, cs);
      NinetyFifthIsUsable(o.memoryUsage, ms);
      AnalysisAnswers(p, o, NinetyFifth(cs), NinetyFifth(ms));
      AnalyzedFrom(p, o, WithHeadroom(NinetyFifth(cs), p.cpuHeadroom), WithHeadroom(NinetyFifth(ms), p.memoryHeadroom));
    } else if !Insufficient(p, o) {
      assert AnalyzeWorkload(p, o) == Err(NoUsageValues);
    }
  }

  lemma WindowIs(p: Policy, o: Observation)
    ensures WindowProblem(p, o) <==> Insufficient(p, o)
  {
  }

  lemma AnalyzedFrom(p: Policy, o: Observation, cpu: real, memory: real)
    requires ValidPolicy(p) && ValidObservation(o) && !WindowProblem(p, o)
    requires PeakUsage(o.cpuUsage, p.cpuHeadroom).Ok? && PeakUsage(o.cpuUsage, p.cpuHeadroom).value == cpu
    requires PeakUsage(o.memoryUsage, p.memoryHeadroom).Ok?
             && PeakUsage(o.memoryUsage, p.memoryHeadroom).value == memory
    ensures AnalyzeWorkload(p, o) == Ok(Analyze(p, o, cpu, memory))
  {
  }
}
