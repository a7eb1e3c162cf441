/**
 Order statistics of usage samples: non-finite and negative samples are dropped, the rest is sorted,
 and a quantile interpolates linearly between neighbours (type 7 of Hyndman and Fan). Arithmetic is exact.
 */
module Quantiles {
  import opened Results

  datatype Sample = Finite(value: real) | NotFinite

  predicate Usable(s: Sample) {
    s.Finite? && s.value >= 0.0
  }

  function UsableValues(samples: seq<Sample>): seq<real> {
    if samples == [] then []
    else (if Usable(samples[0]) then [samples[0].value] else []) + UsableValues(samples[1..])
  }

  function Insert(x: real, s: seq<real>): seq<real> {
    if s == [] || x <= s[0] then [x] + s else [s[0]] + Insert(x, s[1..])
  }

  function Sort(s: seq<real>): seq<real> {
    if s == [] then [] else Insert(s[0], Sort(s[1..]))
  }

  ghost predicate Ascending(s: seq<real>) {
    forall i, j :: 0 <= i <= j < |s| ==> s[i] <= s[j]
  }

  /** The value at a fractional position of a sequence. */
  function AtPosition(s: seq<real>, position: real): real
    requires 0.0 <= position <= (|s| - 1) as real
  {
    var lower := position.Floor;
    var upper := if position == lower as real then lower else lower + 1;
    if lower == upper then s[lower] else Between(s[lower], s[upper], position - lower as real)
  }

  function Between(a: real, b: real, t: real): real {
    a + (b - a) * t
  }

  /** Where the q-quantile of `n` ordered values lies. */
  function Position(n: nat, q: real): (p: real)
    requires 0 < n && 0.0 <= q <= 1.0
    ensures 0.0 <= p <= (n - 1) as real
  {
    (n - 1) as real * q
  }

  function OrderedQuantile(ordered: seq<real>, q: real): Result<real>
    requires 0.0 <= q <= 1.0
  {
    if |ordered| == 0 then Err(NoUsageValues) else Ok(AtPosition(ordered, Position(|ordered|, q)))
  }

  function Quantile(samples: seq<Sample>, q: real): Result<real>
    requires 0.0 <= q <= 1.0
  {
    OrderedQuantile(Sort(UsableValues(samples)), q)
  }

  datatype Percentiles = Percentiles(p50: real, p95: real, p99: real)

  function PercentilesOf(samples: seq<Sample>): Result<Percentiles> {
    var p50 :- Quantile(samples, 0.50);
    var p95 :- Quantile(samples, 0.95);
    var p99 :- Quantile(samples, 0.99);
    Ok(Percentiles(p50, p95, p99))
  }

  // ---------- sorting ----------

  lemma {:induction false} InsertAscending(x: real, s: seq<real>)
    requires Ascending(s)
    ensures Ascending(Insert(x, s)) && |Insert(x, s)| == |s| + 1
    ensures Insert(x, s)[0] == x || (s != [] && Insert(x, s)[0] == s[0])
  {
    if s != [] && x > s[0] {
      InsertAscending(x, s[1..]);
      PrependAscending(s[0], Insert(x, s[1..]));
    } else {
      PrependAscending(x, s);
    }
  }

  lemma PrependAscending(x: real, s: seq<real>)
    requires Ascending(s) && (s != [] ==> x <= s[0])
    ensures Ascending([x] + s)
  {
  }

  lemma {:induction false} InsertKeepsValues(x: real, s: seq<real>)
    ensures multiset(Insert(x, s)) == multiset(s) + multiset{x}
  {
    if s != [] && x > s[0] {
      InsertKeepsValues(x, s[1..]);
      assert s == [s[0]] + s[1..];
    }
  }

  lemma {:induction false} SortAscending(s: seq<real>)
    ensures Ascending(Sort(s)) && |Sort(s)| == |s|
    ensures multiset(Sort(s)) == multiset(s)
  {
    if s != [] {
      SortAscending(s[1..]);
      InsertAscending(s[0], Sort(s[1..]));
      InsertKeepsValues(s[0], Sort(s[1..]));
      assert s == [s[0]] + s[1..];
    }
  }

  lemma FirstIsLeast(a: seq<real>, x: real)
    requires Ascending(a) && x in multiset(a)
    ensures a != [] && a[0] <= x
  {
    var i :| 0 <= i < |a| && a[i] == x;
  }

  lemma SplitFirst(a: seq<real>)
    requires a != []
    ensures multiset(a[1..]) == multiset(a) - multiset{a[0]}
  {
    assert a == [a[0]] + a[1..];
  }

  lemma SameFirst(a: seq<real>, b: seq<real>)
    requires Ascending(a) && Ascending(b) && multiset(a) == multiset(b) && a != [] && b != []
    ensures a[0] == b[0]
  {
    assert b[0] in multiset(b);
    assert a[0] in multiset(a);
    FirstIsLeast(a, b[0]);
    FirstIsLeast(b, a[0]);
  }

  /** There is only one way to sort. */
  lemma {:induction false} AscendingIsUnique(a: seq<real>, b: seq<real>)
    requires Ascending(a) && Ascending(b) && multiset(a) == multiset(b)
    ensures a == b
  {
    assert |a| == |multiset(a)| == |multiset(b)| == |b|;
    if a != [] {
      SameFirst(a, b);
      SplitFirst(a);
      SplitFirst(b);
      var x, y := a[1..], b[1..];
      AscendingIsUnique(x, y);
      assert a == [a[0]] + x && b == [b[0]] + y;
    }
  }

  ghost predicate AtMost(a: seq<real>, b: seq<real>) {
    |a| == |b| && forall i :: 0 <= i < |a| ==> a[i] <= b[i]
  }

  /** Inserting a smaller value into a smaller ascending sequence gives a smaller one. */
  lemma {:induction false} InsertMonotone(x: real, y: real, a: seq<real>, b: seq<real>)
    requires x <= y && AtMost(a, b) && Ascending(a) && Ascending(b)
    ensures AtMost(Insert(x, a), Insert(y, b))
    decreases |a|
  {
    if a != [] {
      if x <= a[0] && y > b[0] {
        InsertMonotone(a[0], y, a[1..], b[1..]);
        assert Insert(a[0], a[1..]) == a;
      } else if x > a[0] && y <= b[0] {
        InsertMonotone(x, b[0], a[1..], b[1..]);
        assert Insert(b[0], b[1..]) == b;
      } else if x > a[0] {
        InsertMonotone(x, y, a[1..], b[1..]);
      }
    }
  }

  /** Sorting keeps a pointwise order: the i-th smallest value never falls when usage rises. */
  lemma {:induction false} SortMonotone(a: seq<real>, b: seq<real>)
    requires AtMost(a, b)
    ensures AtMost(Sort(a), Sort(b))
  {
    if a != [] {
      SortMonotone(a[1..], b[1..]);
      SortAscending(a[1..]);
      SortAscending(b[1..]);
      InsertMonotone(a[0], b[0], Sort(a[1..]), Sort(b[1..]));
    }
  }

  // ---------- interpolation ----------

  lemma BetweenMonotone(a: real, b: real, c: real, d: real, t: real)
    requires a <= c && b <= d && 0.0 <= t <= 1.0
    ensures Between(a, b, t) <= Between(c, d, t)
  {
    assert Between(a, b, t) == a * (1.0 - t) + b * t;
    assert Between(c, d, t) == c * (1.0 - t) + d * t;
    assert a * (1.0 - t) <= c * (1.0 - t) && b * t <= d * t;
  }

  lemma ScaledOrder(d: real, t: real, u: real)
    requires 0.0 <= d && t <= u
    ensures d * t <= d * u
  {
  }

  lemma BetweenRising(a: real, b: real, t: real, u: real)
    requires a <= b && 0.0 <= t <= u <= 1.0
    ensures a <= Between(a, b, t) <= Between(a, b, u) <= b
  {
    var d := b - a;
    assert Between(a, b, t) == a + d * t && Between(a, b, u) == a + d * u;
    ScaledOrder(d, 0.0, t);
    ScaledOrder(d, t, u);
    ScaledOrder(d, u, 1.0);
  }

  lemma AtPositionMonotone(a: seq<real>, b: seq<real>, position: real)
    requires AtMost(a, b) && 0.0 <= position <= (|a| - 1) as real
    ensures AtPosition(a, position) <= AtPosition(b, position)
  {
    var lower := position.Floor;
    if position != lower as real {
      BetweenMonotone(a[lower], a[lower + 1], b[lower], b[lower + 1], position - lower as real);
    }
  }

  /** A position's value lies between its neighbours. */
  lemma AtPositionBracketed(s: seq<real>, position: real)
    requires Ascending(s) && 0.0 <= position <= (|s| - 1) as real
    ensures s[position.Floor] <= AtPosition(s, position)
    ensures position.Floor + 1 < |s| ==> AtPosition(s, position) <= s[position.Floor + 1]
  {
    var lower := position.Floor;
    if position != lower as real {
      BetweenRising(s[lower], s[lower + 1], position - lower as real, 1.0);
    }
  }

  lemma AtPositionRising(s: seq<real>, p: real, q: real)
    requires Ascending(s) && 0.0 <= p <= q <= (|s| - 1) as real
    ensures AtPosition(s, p) <= AtPosition(s, q)
  {
    AtPositionBracketed(s, p);
    AtPositionBracketed(s, q);
    if p.Floor < q.Floor {
      assert s[p.Floor + 1] <= s[q.Floor];
    } else if p != p.Floor as real {
      BetweenRising(s[p.Floor], s[p.Floor + 1], p - p.Floor as real, q - q.Floor as real);
    }
  }

  // ---------- quantiles ----------

  lemma {:induction false} UsablePermutation(a: seq<Sample>, b: seq<Sample>)
    requires multiset(a) == multiset(b)
    ensures multiset(UsableValues(a)) == multiset(UsableValues(b))
  {
    forall v: real ensures multiset(UsableValues(a))[v] == multiset(UsableValues(b))[v] {
      UsableCount(a, v);
      UsableCount(b, v);
    }
  }

  lemma {:induction false} UsableCount(a: seq<Sample>, v: real)
    ensures multiset(UsableValues(a))[v] == if v >= 0.0 then multiset(a)[Finite(v)] else 0
  {
    if a != [] {
      UsableCount(a[1..], v);
      assert a == [a[0]] + a[1..];
    }
  }

  /** The order in which samples arrive does not matter. */
  lemma QuantileIgnoresOrder(a: seq<Sample>, b: seq<Sample>, q: real)
    requires multiset(a) == multiset(b) && 0.0 <= q <= 1.0
    ensures Quantile(a, q) == Quantile(b, q)
  {
    UsablePermutation(a, b);
    SortAscending(UsableValues(a));
    SortAscending(UsableValues(b));
    AscendingIsUnique(Sort(UsableValues(a)), Sort(UsableValues(b)));
  }

  /** Same samples usable, none of them lower in the second series. */
  ghost predicate Dominated(a: seq<Sample>, b: seq<Sample>) {
    |a| == |b| && forall i :: 0 <= i < |a| ==>
                     (Usable(a[i]) <==> Usable(b[i])) && (Usable(a[i]) ==> a[i].value <= b[i].value)
  }

  lemma {:induction false} UsableMonotone(a: seq<Sample>, b: seq<Sample>)
    requires Dominated(a, b)
    ensures AtMost(UsableValues(a), UsableValues(b))
  {
    if a != [] {
      UsableMonotone(a[1..], b[1..]);
      assert Usable(a[0]) <==> Usable(b[0]);
    }
  }

  /** Raising usage never lowers a quantile. */
  lemma QuantileMonotone(a: seq<Sample>, b: seq<Sample>, q: real)
    requires Dominated(a, b) && 0.0 <= q <= 1.0
    ensures Quantile(a, q).Ok? <==> Quantile(b, q).Ok?
    ensures Quantile(a, q).Ok? ==> Quantile(a, q).value <= Quantile(b, q).value
  {
    UsableMonotone(a, b);
    SortMonotone(UsableValues(a), UsableValues(b));
    OrderedQuantileMonotone(Sort(UsableValues(a)), Sort(UsableValues(b)), q);
  }

  lemma OrderedQuantileMonotone(s: seq<real>, t: seq<real>, q: real)
    requires AtMost(s, t) && 0.0 <= q <= 1.0
    ensures OrderedQuantile(s, q).Ok? <==> OrderedQuantile(t, q).Ok?
    ensures OrderedQuantile(s, q).Ok? ==> OrderedQuantile(s, q).value <= OrderedQuantile(t, q).value
  {
    if |s| > 0 { AtPositionMonotone(s, t, Position(|s|, q)); }
  }

  lemma {:induction false} UsableAreNonNegative(samples: seq<Sample>, v: real)
    requires v in UsableValues(samples)
    ensures v >= 0.0 && Finite(v) in samples
  {
    if v !in UsableValues(samples[1..]) {
      assert samples[0] == Finite(v);
    } else {
      UsableAreNonNegative(samples[1..], v);
    }
  }

  /** Quantiles rise with the fraction and stay between two of the usable samples. */
  lemma QuantileRises(samples: seq<Sample>, q: real, r: real)
    requires 0.0 <= q <= r <= 1.0
    requires Quantile(samples, q).Ok?
    ensures Quantile(samples, r).Ok? && 0.0 <= Quantile(samples, q).value <= Quantile(samples, r).value
    ensures exists low, high ::
              low in UsableValues(samples) && high in UsableValues(samples)
              && (forall v :: v in UsableValues(samples) ==> low <= v <= high)
              && low <= Quantile(samples, q).value && Quantile(samples, r).value <= high
  {
    var values := UsableValues(samples);
    SortAscending(values);
    OrderedQuantileRises(Sort(values), q, r);
    SameElements(Sort(values), values);
    var s := Sort(values);
    UsableAreNonNegative(samples, s[0]);
    assert s[0] in values && s[|s| - 1] in values;
  }

  lemma SameElements(s: seq<real>, t: seq<real>)
    requires multiset(s) == multiset(t)
    ensures forall v :: v in s <==> v in t
  {
    forall v ensures v in s <==> v in t {
      assert v in multiset(s) <==> v in multiset(t);
    }
  }

  lemma PositionRising(n: nat, q: real, r: real)
    requires 0 < n && 0.0 <= q <= r <= 1.0
    ensures Position(n, q) <= Position(n, r)
  {
    var last: real :| last == (n - 1) as real;
    ScaledOrder(last, q, r);
  }

  lemma OrderedQuantileRises(s: seq<real>, q: real, r: real)
    requires Ascending(s) && s != [] && 0.0 <= q <= r <= 1.0
    ensures s[0] <= OrderedQuantile(s, q).value <= OrderedQuantile(s, r).value <= s[|s| - 1]
  {
    var last := (|s| - 1) as real;
    PositionRising(|s|, q, r);
    AtPositionRising(s, 0.0, Position(|s|, q));
    AtPositionRising(s, Position(|s|, q), Position(|s|, r));
    AtPositionRising(s, Position(|s|, r), last);
  }

  lemma PercentilesOrdered(samples: seq<Sample>)
    requires PercentilesOf(samples).Ok?
    ensures 0.0 <= PercentilesOf(samples).value.p50 <= PercentilesOf(samples).value.p95
                <= PercentilesOf(samples).value.p99
  {
    QuantileRises(samples, 0.50, 0.95);
    QuantileRises(samples, 0.95, 0.99);
  }
}
