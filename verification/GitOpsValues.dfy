/**
 Kubernetes quantities as text, and the patch that writes a recommendation into a GitOps values
 document. Documents are the trees a YAML loader yields.
 */
module GitOpsValues {
  import opened Results
  import Quantiles
  import Rightsizing

  // ---------- decimal text ----------

  function Digit(d: nat): char
    requires d < 10
  {
    ['0', '1', '2', '3', '4', '5', '6', '7', '8', '9'][d]
  }

  predicate IsDigit(c: char) {
    '0' <= c <= '9'
  }

  function DigitValue(c: char): nat
    requires IsDigit(c)
  {
    (c - '0') as int
  }

  function NatText(n: nat): string {
    if n < 10 then [Digit(n)] else NatText(n / 10) + [Digit(n % 10)]
  }

  predicate AllDigits(s: string) {
    forall i :: 0 <= i < |s| ==> IsDigit(s[i])
  }

  function NatValue(s: string): nat
    requires AllDigits(s)
  {
    if s == [] then 0 else 10 * NatValue(s[..|s| - 1]) + DigitValue(s[|s| - 1])
  }

  function PowerOfTen(n: nat): (p: nat)
    ensures p > 0
  {
    if n == 0 then 1 else 10 * PowerOfTen(n - 1)
  }

  /** Where the first decimal point stands, or the length. */
  function PointAt(s: string): (i: nat)
    ensures i <= |s| && '.' !in s[..i] && (i < |s| ==> s[i] == '.')
  {
    if s == [] || s[0] == '.' then 0 else 1 + PointAt(s[1..])
  }

  /** A plain decimal number: digits, at most one point, an optional sign. */
  function ParseDecimal(s: string): Option<real> {
    if s != [] && s[0] == '-' then
      (match ParseUnsigned(s[1..]) case Some(v) => Some(-v) case None => None)
    else if s != [] && s[0] == '+' then ParseUnsigned(s[1..])
    else ParseUnsigned(s)
  }

  function ParseUnsigned(s: string): Option<real> {
    var i := PointAt(s);
    var whole, fraction := s[..i], if i < |s| then s[i + 1..] else [];
    if |whole| + |fraction| == 0 || !AllDigits(whole) || !AllDigits(fraction) then None
    else Some(NatValue(whole) as real + NatValue(fraction) as real / PowerOfTen(|fraction|) as real)
  }

  lemma {:induction false} NatTextDigits(n: nat)
    ensures AllDigits(NatText(n)) && |NatText(n)| > 0
    ensures NatValue(NatText(n)) == n
  {
    if n >= 10 {
      NatTextDigits(n / 10);
      var s := NatText(n / 10);
      assert (s + [Digit(n % 10)])[..|s|] == s;
    }
  }

  /** Printed whole numbers are read back exactly. */
  lemma DecimalRoundTrip(n: nat)
    ensures ParseDecimal(NatText(n)) == Some(n as real)
  {
    NatTextDigits(n);
    var s := NatText(n);
    assert IsDigit(s[0]);
    DigitsAreWhole(s);
  }

  lemma DigitsAreWhole(s: string)
    requires AllDigits(s) && s != []
    ensures ParseUnsigned(s) == Some(NatValue(s) as real)
  {
    NoPoint(s);
    assert s[..|s|] == s;
    assert NatValue([]) == 0 && PowerOfTen(0) == 1;
  }

  lemma {:induction false} NoPoint(s: string)
    requires AllDigits(s)
    ensures PointAt(s) == |s|
  {
    if s != [] {
      assert IsDigit(s[0]);
      NoPoint(s[1..]);
    }
  }

  // ---------- quantities ----------

  datatype Yaml =
    | Number(number: real)
    | Text(text: string)
    | Mapping(entries: map<string, Yaml>)
    | Other

  predicate EndsWith(s: string, suffix: string) {
    |suffix| <= |s| && s[|s| - |suffix|..] == suffix
  }

  function WithoutSuffix(s: string, suffix: string): string
    requires EndsWith(s, suffix)
  {
    s[..|s| - |suffix|]
  }

  function FromDecimal(s: string): Result<real> {
    match ParseDecimal(s) case Some(v) => Ok(v) case None => Err(QuantityInvalid)
  }

  function ParseCpu(value: Option<Yaml>): Result<real> {
    match value
    case Some(Number(x)) => Ok(x)
    case Some(Text(s)) =>
      if EndsWith(s, "m") && ParseDecimal(WithoutSuffix(s, "m")).Some?
      then Ok(ParseDecimal(WithoutSuffix(s, "m")).value / 1000.0)
      else FromDecimal(s)
    case _ => Err(QuantityInvalid)
  }

  /** Truncation toward zero. */
  function Truncate(x: real): int {
    if x >= 0.0 then x.Floor else -((-x).Floor)
  }

  const KIB: real := 1024.0
  const MIB: real := 1048576.0
  const GIB: real := 1073741824.0

  function ScaledText(s: string, suffix: string, unit: real): Result<int>
    requires EndsWith(s, suffix)
  {
    match ParseDecimal(WithoutSuffix(s, suffix))
    case Some(v) => Ok(ToBytes(v, unit))
    case None => Err(QuantityInvalid)
  }

  function ToBytes(v: real, unit: real): int {
    Rightsizing.RoundHalfEven(v * unit)
  }

  function ParseMemory(value: Option<Yaml>): Result<int> {
    match value
    case Some(Number(x)) => Ok(Truncate(x))
    case Some(Text(s)) =>
      if EndsWith(s, "Ki") then ScaledText(s, "Ki", KIB)
      else if EndsWith(s, "Mi") then ScaledText(s, "Mi", MIB)
      else if EndsWith(s, "Gi") then ScaledText(s, "Gi", GIB)
      else Err(QuantityInvalid)
    case _ => Err(QuantityInvalid)
  }

  function Millicores(cores: real): (n: int)
    ensures cores >= 0.0 ==> n >= 0
  {
    Rightsizing.Ceil(cores * 1000.0)
  }

  /** The ceiling of a byte count in mebibytes. */
  function MebibyteCount(bytes: int): (n: int)
    ensures bytes >= 0 ==> n >= 0
  {
    bytes / 1048576 + if bytes % 1048576 == 0 then 0 else 1
  }

  function PrintCpu(cores: real): Yaml
    requires cores >= 0.0
  {
    Text(NatText(Millicores(cores)) + "m")
  }

  function PrintMemory(bytes: int): Yaml
    requires bytes >= 0
  {
    Text(NatText(MebibyteCount(bytes)) + "Mi")
  }

  /**
   A printed CPU request reads back as at least the original and less than one millicore above it,
   and as exactly the original if and only if that is a whole number of millicores.
   */
  lemma CpuRoundTrip(cores: real)
    requires cores >= 0.0
    ensures ParseCpu(Some(PrintCpu(cores))) == Ok(Millicores(cores) as real / 1000.0)
    ensures cores <= Millicores(cores) as real / 1000.0 < cores + 0.001
    ensures Millicores(cores) as real / 1000.0 == cores <==> (cores * 1000.0).Floor as real == cores * 1000.0
  {
    var digits := NatText(Millicores(cores));
    var s := digits + "m";
    assert WithoutSuffix(s, "m") == digits;
    DecimalRoundTrip(Millicores(cores));
  }

  /** The same for memory, in whole mebibytes. */
  lemma MemoryRoundTrip(bytes: int)
    requires bytes >= 0
    ensures ParseMemory(Some(PrintMemory(bytes))) == Ok(MebibyteCount(bytes) * 1048576)
    ensures bytes <= MebibyteCount(bytes) * 1048576 < bytes + 1048576
    ensures MebibyteCount(bytes) * 1048576 == bytes <==> bytes % 1048576 == 0
  {
    ParsedMebibytes(MebibyteCount(bytes));
  }

  lemma ParsedMebibytes(n: nat)
    ensures ParseMemory(Some(Text(NatText(n) + "Mi"))) == Ok(n * 1048576)
  {
    WholeUnitsRead(n, Mi);
    assert Mi.Suffix() == "Mi";
  }

  /** What digits around a decimal point are worth, either side of it possibly empty. */
  function DecimalValue(whole: string, fraction: string): real
    requires AllDigits(whole) && AllDigits(fraction)
  {
    NatValue(whole) as real + NatValue(fraction) as real / PowerOfTen(|fraction|) as real
  }

  lemma {:induction false} PointAfterDigits(whole: string, rest: string)
    requires AllDigits(whole)
    ensures PointAt(whole + "." + rest) == |whole|
  {
    if whole != [] {
      assert IsDigit(whole[0]);
      PointAfterDigits(whole[1..], rest);
      assert (whole + "." + rest)[1..] == whole[1..] + "." + rest;
    }
  }

  /** A decimal fraction is read as what its digits are worth, with its sign. */
  lemma FractionReads(whole: string, fraction: string)
    requires AllDigits(whole) && AllDigits(fraction) && |whole| + |fraction| > 0
    ensures var s, v := whole + "." + fraction, DecimalValue(whole, fraction);
            ParseDecimal(s) == Some(v) && ParseDecimal("+" + s) == Some(v) && ParseDecimal("-" + s) == Some(-v)
  {
    UnsignedReads(whole, fraction);
    Unsigned(whole, fraction);
    SignReads(whole + "." + fraction, DecimalValue(whole, fraction));
  }

  lemma Unsigned(whole: string, fraction: string)
    requires AllDigits(whole)
    ensures var s := whole + "." + fraction; s != [] && s[0] != '+' && s[0] != '-'
  {
    var s := whole + "." + fraction;
    if whole == [] { assert s[0] == '.'; } else { assert s[0] == whole[0] && IsDigit(whole[0]); }
  }

  lemma SignReads(s: string, v: real)
    requires s != [] && s[0] != '+' && s[0] != '-' && ParseUnsigned(s) == Some(v)
    ensures ParseDecimal(s) == Some(v) && ParseDecimal("+" + s) == Some(v) && ParseDecimal("-" + s) == Some(-v)
  {
    assert ("+" + s)[1..] == s && ("-" + s)[1..] == s;
  }

  lemma UnsignedReads(whole: string, fraction: string)
    requires AllDigits(whole) && AllDigits(fraction) && |whole| + |fraction| > 0
    ensures ParseUnsigned(whole + "." + fraction) == Some(DecimalValue(whole, fraction))
  {
    var s := whole + "." + fraction;
    PointAfterDigits(whole, fraction);
    assert s[..|whole|] == whole && s[|whole| + 1..] == fraction;
  }

  /** CPU is read in cores, so "0.25" is a quarter of one. */
  lemma CpuFractionReads(whole: string, fraction: string)
    requires AllDigits(whole) && AllDigits(fraction) && |whole| + |fraction| > 0
    ensures ParseCpu(Some(Text(whole + "." + fraction))) == Ok(DecimalValue(whole, fraction))
  {
    var s := whole + "." + fraction;
    FractionReads(whole, fraction);
    if |fraction| > 0 { assert IsDigit(s[|s| - 1]); }
    assert s[|s| - 1..] == [s[|s| - 1]];
    assert !EndsWith(s, "m");
  }

  /** The three units of memory. */
  datatype Unit = Ki | Mi | Gi {
    function Suffix(): (s: string)
      ensures |s| == 2
    {
      match this case Ki => "Ki" case Mi => "Mi" case Gi => "Gi"
    }

    function Bytes(): nat {
      match this case Ki => 1024 case Mi => 1024 * 1024 case Gi => 1024 * 1024 * 1024
    }
  }

  /** A memory quantity is its number times its unit, rounded to the nearest byte. */
  lemma MemoryUnitsRead(number: string, unit: Unit, value: real, bytes: real)
    requires ParseDecimal(number) == Some(value) && bytes == value * unit.Bytes() as real
    ensures var r := ParseMemory(Some(Text(number + unit.Suffix())));
            r.Ok? && -0.5 <= r.value as real - bytes <= 0.5
  {
    Suffixed(number, unit);
    match unit
    case Ki => ScaledReads(number + "Ki", "Ki", KIB, value, bytes);
    case Mi => ScaledReads(number + "Mi", "Mi", MIB, value, bytes);
    case Gi => ScaledReads(number + "Gi", "Gi", GIB, value, bytes);
  }

  lemma ScaledReads(s: string, suffix: string, unit: real, value: real, bytes: real)
    requires EndsWith(s, suffix) && ParseDecimal(WithoutSuffix(s, suffix)) == Some(value) && bytes == value * unit
    ensures ScaledText(s, suffix, unit).Ok? && -0.5 <= ScaledText(s, suffix, unit).value as real - bytes <= 0.5
  {
    assert ScaledText(s, suffix, unit) == Ok(ToBytes(value, unit));
    NearestByte(value, unit, bytes);
  }

  lemma NearestByte(value: real, unit: real, bytes: real)
    requires bytes == value * unit
    ensures -0.5 <= ToBytes(value, unit) as real - bytes <= 0.5
  {
  }

  /** A whole number of units is read exactly. */
  lemma WholeUnitsRead(n: nat, unit: Unit)
    ensures ParseMemory(Some(Text(NatText(n) + unit.Suffix()))) == Ok(n * unit.Bytes())
  {
    DecimalRoundTrip(n);
    WholeProduct(n, unit.Bytes());
    MemoryUnitsRead(NatText(n), unit, n as real, (n * unit.Bytes()) as real);
    Nearest(ParseMemory(Some(Text(NatText(n) + unit.Suffix()))).value, n * unit.Bytes());
  }

  lemma WholeProduct(n: nat, k: nat)
    ensures n as real * k as real == (n * k) as real
  {
  }

  lemma Nearest(a: int, b: int)
    requires -0.5 <= a as real - b as real <= 0.5
    ensures a == b
  {
  }

  lemma Suffixed(number: string, unit: Unit)
    ensures var s := number + unit.Suffix();
            && (forall other: Unit :: EndsWith(s, other.Suffix()) <==> other == unit)
            && WithoutSuffix(s, unit.Suffix()) == number
  {
    var s := number + unit.Suffix();
    assert s[|s| - 2..] == unit.Suffix();
    forall other: Unit ensures EndsWith(s, other.Suffix()) <==> other == unit {
      assert other.Suffix()[0] == (match other case Ki => 'K' case Mi => 'M' case Gi => 'G');
    }
  }

  // ---------- the document ----------

  function Child(y: Yaml, key: string): Option<Yaml> {
    if y.Mapping? && key in y.entries then Some(y.entries[key]) else None
  }

  function Lookup(y: Yaml, path: seq<string>): Option<Yaml> {
    if path == [] then Some(y)
    else match Child(y, path[0]) case Some(c) => Lookup(c, path[1..]) case None => None
  }

  /** Replace the value at a path that leads through mappings. */
  function Replace(y: Yaml, path: seq<string>, value: Yaml): Yaml {
    if path == [] then value
    else if Child(y, path[0]).None? then y
    else Mapping(y.entries[path[0] := Replace(y.entries[path[0]], path[1..], value)])
  }

  const REQUESTS: seq<string> := ["cloudward-demo", "resources", "requests"]
  const CPU_PATH: seq<string> := ["cloudward-demo", "resources", "requests", "cpu"]
  const MEMORY_PATH: seq<string> := ["cloudward-demo", "resources", "requests", "memory"]

  datatype Requests = Requests(cpu: real, memory: real)

  /** Patch the two fixed request keys after matching the observed state. */
  function Patch(current: Requests, proposed: Requests, document: Yaml): Result<Yaml>
    requires proposed.cpu >= 0.0 && proposed.memory >= 0.0
  {
    if !document.Mapping? then Err(ValuesInvalid) else
    var requests := Lookup(document, REQUESTS);
    if requests.None? || !requests.value.Mapping? then Err(TargetMissing) else
    var cpu :- ParseCpu(Child(requests.value, "cpu"));
    var memory :- ParseMemory(Child(requests.value, "memory"));
    if cpu - current.cpu > 0.001 || current.cpu - cpu > 0.001 || memory != Truncate(current.memory)
    then Err(RecommendationStale)
    else Ok(Replace(Replace(document, CPU_PATH, PrintCpu(proposed.cpu)),
                    MEMORY_PATH, PrintMemory(Truncate(proposed.memory))))
  }

  lemma {:induction false} LookupReplaced(y: Yaml, path: seq<string>, value: Yaml, p: seq<string>)
    requires Lookup(y, path).Some?
    ensures Lookup(Replace(y, path, value), path) == Some(value)
    ensures !(path <= p) && !(p <= path) ==> Lookup(Replace(y, path, value), p) == Lookup(y, p)
    ensures p <= path ==> Lookup(Replace(y, path, value), p).Some? && Lookup(y, p).Some?
    decreases |path|
  {
    if path != [] && p != [] {
      LookupReplaced(y.entries[path[0]], path[1..], value, p[1..]);
      assert path[0] == p[0] && path[1..] <= p[1..] ==> path <= p;
      assert path[0] == p[0] && p[1..] <= path[1..] ==> p <= path;
    } else if path != [] {
      LookupReplaced(y.entries[path[0]], path[1..], value, []);
    }
  }

  /** Scalars have nothing below them. */
  lemma BelowScalar(y: Yaml, path: seq<string>, p: seq<string>)
    requires Lookup(y, path).Some? && !Lookup(y, path).value.Mapping? && path <= p && path != p
    ensures Lookup(y, p).None?
    decreases |path|
  {
    if path != [] { BelowScalar(y.entries[path[0]], path[1..], p[1..]); }
  }

  lemma RequestsAt(document: Yaml)
    requires Lookup(document, REQUESTS).Some?
    ensures Lookup(document, CPU_PATH) == Child(Lookup(document, REQUESTS).value, "cpu")
    ensures Lookup(document, MEMORY_PATH) == Child(Lookup(document, REQUESTS).value, "memory")
  {
    LookupAppend(document, REQUESTS, "cpu");
    LookupAppend(document, REQUESTS, "memory");
    assert CPU_PATH == REQUESTS + ["cpu"] && MEMORY_PATH == REQUESTS + ["memory"];
  }

  lemma {:induction false} LookupAppend(y: Yaml, path: seq<string>, key: string)
    requires Lookup(y, path).Some?
    ensures Lookup(y, path + [key]) == Child(Lookup(y, path).value, key)
    decreases |path|
  {
    if path == [] {
      assert Lookup(y, [key]) == (match Child(y, key) case Some(c) => Lookup(c, []) case None => None);
    } else {
      LookupAppend(y.entries[path[0]], path[1..], key);
      assert (path + [key])[1..] == path[1..] + [key];
    }
  }

  /**
   A successful patch writes the two quantities and nothing else: every other path that does not lead
   to them finds what it found before, and no path appears or disappears.
   */
  lemma PatchChangesOnlyTheRequests(current: Requests, proposed: Requests, document: Yaml, path: seq<string>)
    requires proposed.cpu >= 0.0 && proposed.memory >= 0.0
    ensures Patch(current, proposed, document).Ok? ==>
              var patched := Patch(current, proposed, document).value;
              && Lookup(patched, CPU_PATH) == Some(PrintCpu(proposed.cpu))
              && Lookup(patched, MEMORY_PATH) == Some(PrintMemory(Truncate(proposed.memory)))
              && (!(path <= CPU_PATH) && !(path <= MEMORY_PATH) ==> Lookup(patched, path) == Lookup(document, path))
              && (Lookup(patched, path).Some? <==> Lookup(document, path).Some?)
  {
    if Patch(current, proposed, document).Ok? {
      RequestsAt(document);
      ReplacedRequests(document, PrintCpu(proposed.cpu), PrintMemory(Truncate(proposed.memory)), path);
    }
  }

  /** Replacing the two scalars touches nothing beside the paths to them. */
  lemma ReplacedRequests(document: Yaml, cpu: Yaml, memory: Yaml, path: seq<string>)
    requires Lookup(document, CPU_PATH).Some? && !Lookup(document, CPU_PATH).value.Mapping? && !cpu.Mapping?
    requires Lookup(document, MEMORY_PATH).Some? && !Lookup(document, MEMORY_PATH).value.Mapping? && !memory.Mapping?
    ensures var patched := Replace(Replace(document, CPU_PATH, cpu), MEMORY_PATH, memory);
            && Lookup(patched, CPU_PATH) == Some(cpu)
            && Lookup(patched, MEMORY_PATH) == Some(memory)
            && (!(path <= CPU_PATH) && !(path <= MEMORY_PATH) ==> Lookup(patched, path) == Lookup(document, path))
            && (Lookup(patched, path).Some? <==> Lookup(document, path).Some?)
  {
    var middle := Replace(document, CPU_PATH, cpu);
    assert CPU_PATH[3] == "cpu" && MEMORY_PATH[3] == "memory";
    assert !(CPU_PATH <= MEMORY_PATH) && !(MEMORY_PATH <= CPU_PATH);
    LookupReplaced(document, CPU_PATH, cpu, MEMORY_PATH);
    LookupReplaced(document, CPU_PATH, cpu, path);
    LookupReplaced(middle, MEMORY_PATH, memory, CPU_PATH);
    LookupReplaced(middle, MEMORY_PATH, memory, path);
    var patched := Replace(middle, MEMORY_PATH, memory);
    if CPU_PATH <= path && path != CPU_PATH {
      BelowScalar(document, CPU_PATH, path);
      BelowScalar(patched, CPU_PATH, path);
    }
    if MEMORY_PATH <= path && path != MEMORY_PATH {
      BelowScalar(document, MEMORY_PATH, path);
      BelowScalar(patched, MEMORY_PATH, path);
    }
  }

  /** Where the patched document holds the two printed quantities. */
  lemma PatchedChildren(current: Requests, proposed: Requests, document: Yaml)
    requires proposed.cpu >= 0.0 && proposed.memory >= 0.0
    ensures Patch(current, proposed, document).Ok? ==>
              var requests := Lookup(Patch(current, proposed, document).value, REQUESTS);
              && Patch(current, proposed, document).value.Mapping?
              && requests.Some? && requests.value.Mapping?
              && Child(requests.value, "cpu") == Some(PrintCpu(proposed.cpu))
              && Child(requests.value, "memory") == Some(PrintMemory(Truncate(proposed.memory)))
  {
    if Patch(current, proposed, document).Ok? {
      PatchChangesOnlyTheRequests(current, proposed, document, REQUESTS);
      ChildrenAt(Patch(current, proposed, document).value, proposed);
    }
  }

  lemma ChildrenAt(patched: Yaml, proposed: Requests)
    requires proposed.cpu >= 0.0 && proposed.memory >= 0.0
    requires Lookup(patched, REQUESTS).Some?
    requires Lookup(patched, CPU_PATH) == Some(PrintCpu(proposed.cpu))
    requires Lookup(patched, MEMORY_PATH) == Some(PrintMemory(Truncate(proposed.memory)))
    ensures patched.Mapping? && Lookup(patched, REQUESTS).value.Mapping?
    ensures Child(Lookup(patched, REQUESTS).value, "cpu") == Some(PrintCpu(proposed.cpu))
    ensures Child(Lookup(patched, REQUESTS).value, "memory") == Some(PrintMemory(Truncate(proposed.memory)))
  {
    RequestsAt(patched);
  }

  /**
   Patching the patched document with the same recommendation is refused as stale, unless the written
   CPU is within a millicore of the one observed and the written memory equals the one observed.
   */
  lemma SecondPatch(current: Requests, proposed: Requests, document: Yaml)
    requires proposed.cpu >= 0.0 && proposed.memory >= 0.0
    ensures Patch(current, proposed, document).Ok? ==>
              var cpu := Millicores(proposed.cpu) as real / 1000.0;
              var memory := MebibyteCount(Truncate(proposed.memory)) * 1048576;
              var again := Patch(current, proposed, Patch(current, proposed, document).value);
              && (again.Ok? <==> -0.001 <= cpu - current.cpu <= 0.001 && memory == Truncate(current.memory))
              && (again.Err? ==> again.error == RecommendationStale)
  {
    if Patch(current, proposed, document).Ok? {
      PatchedChildren(current, proposed, document);
      CpuRoundTrip(proposed.cpu);
      MemoryRoundTrip(Truncate(proposed.memory));
      PatchWhereRequestsAre(current, proposed, Patch(current, proposed, document).value);
    }
  }

  lemma PatchWhereRequestsAre(current: Requests, proposed: Requests, document: Yaml)
    requires proposed.cpu >= 0.0 && proposed.memory >= 0.0
    requires document.Mapping? && Lookup(document, REQUESTS).Some? && Lookup(document, REQUESTS).value.Mapping?
    requires ParseCpu(Child(Lookup(document, REQUESTS).value, "cpu")).Ok?
    requires ParseMemory(Child(Lookup(document, REQUESTS).value, "memory")).Ok?
    ensures var cpu := ParseCpu(Child(Lookup(document, REQUESTS).value, "cpu")).value;
            var memory := ParseMemory(Child(Lookup(document, REQUESTS).value, "memory")).value;
            var patched := Patch(current, proposed, document);
            && (patched.Ok? <==> -0.001 <= cpu - current.cpu <= 0.001 && memory == Truncate(current.memory))
            && (patched.Err? ==> patched.error == RecommendationStale)
  {
  }

  function Part(x: real, k: real): real {
    x * k
  }

  lemma Scaled(x: real, y: real, k: real)
    requires x <= y && 0.0 <= k
    ensures x * k <= y * k && Part(x, k) <= Part(y, k)
  {
  }

  /** A cut by at least a fraction leaves at least that fraction of the advised value. */
  lemma CutLeaves(current: real, advised: real, reduction: real)
    requires 0.0 < advised && 0.0 < reduction < 1.0 && advised <= current * (1.0 - reduction)
    ensures current - advised >= Part(advised, reduction)
  {
    if current <= 0.0 {
      Scaled(current, 0.0, 1.0 - reduction);
    }
    Scaled(0.0, current, reduction);
    assert current * (1.0 - reduction) == current - current * reduction;
    Scaled(advised, current, reduction);
  }

  /** A cut of a request to `floor` or above, by the fraction `reduction` or more, always exceeds a millicore. */
  predicate Exceeds(floor: real, reduction: real) {
    Part(floor, reduction) > 0.001 * (1.0 - reduction)
  }

  lemma CpuCutIsVisible(current: real, advised: real, reduction: real, floor: real)
    requires 0.0 < reduction < 1.0 && floor > 0.0 && Exceeds(floor, reduction)
    requires advised >= floor && Rightsizing.CutByAtLeast(current, advised, reduction)
    requires exists n: int :: n > 0 && advised == Rightsizing.Hundredths(n)
    ensures current - Millicores(advised) as real / 1000.0 > 0.001
  {
    var n: int :| n > 0 && advised == Rightsizing.Hundredths(n);
    WrittenMillicores(n);
    VisibleGap(current, advised, reduction, floor);
  }

  lemma VisibleGap(current: real, advised: real, reduction: real, floor: real)
    requires 0.0 < reduction < 1.0 && floor > 0.0 && Exceeds(floor, reduction)
    requires advised >= floor && advised <= Part(current, 1.0 - reduction)
    ensures current - advised > 0.001
  {
    Scaled(floor, advised, reduction);
    PartOfDifference(current, advised, reduction);
    if current - advised <= 0.001 { Scaled(current - advised, 0.001, 1.0 - reduction); }
  }

  lemma PartOfDifference(current: real, advised: real, reduction: real)
    ensures Part(current - advised, 1.0 - reduction)
         == Part(current, 1.0 - reduction) - advised + Part(advised, reduction)
  {
  }

  lemma WrittenMillicores(n: nat)
    ensures Millicores(Rightsizing.Hundredths(n)) == n * 10
    ensures Millicores(Rightsizing.Hundredths(n)) as real / 1000.0 == Rightsizing.Hundredths(n)
  {
    assert Rightsizing.Hundredths(n) * 1000.0 == (n * 10) as real;
  }

  lemma MemoryCutIsVisible(current: real, advised: real, reduction: real)
    requires 0.05 <= reduction < 1.0 && advised >= 16.0 * MIB
    requires Rightsizing.CutByAtLeast(current, advised, reduction)
    requires exists n: int :: n > 0 && advised == Rightsizing.Mebibytes(n)
    ensures MebibyteCount(Truncate(advised)) * 1048576 != Truncate(current)
  {
    var n: int :| n > 0 && advised == Rightsizing.Mebibytes(n);
    WrittenMebibytes(n);
    CutLeaves(current, advised, reduction);
    Quarter(advised, reduction);
  }

  lemma Quarter(advised: real, reduction: real)
    requires 0.05 <= reduction && advised >= 16.0 * MIB
    ensures advised * reduction > 1.0
  {
    Scaled(16.0 * MIB, advised, reduction);
  }

  lemma WrittenMebibytes(n: nat)
    ensures Truncate(Rightsizing.Mebibytes(n)) == n * 1048576
    ensures MebibyteCount(Truncate(Rightsizing.Mebibytes(n))) == n
  {
    assert Rightsizing.Mebibytes(n) == (n * 1048576) as real;
  }

  /** At least one request is cut, to a rounded value above its floor and by at least the minimum fraction. */
  ghost predicate RealCut(current: Requests, proposed: Requests, reduction: real, cpuFloor: real) {
    || (Rightsizing.CutByAtLeast(current.cpu, proposed.cpu, reduction) && proposed.cpu >= cpuFloor
        && exists n: int :: n > 0 && proposed.cpu == Rightsizing.Hundredths(n))
    || (Rightsizing.CutByAtLeast(current.memory, proposed.memory, reduction) && proposed.memory >= 16.0 * MIB
        && exists n: int :: n > 0 && proposed.memory == Rightsizing.Mebibytes(n))
  }

  /** A patch that applies does not apply again: the patched document is refused as stale. */
  predicate PatchesOnce(current: Requests, proposed: Requests, document: Yaml)
    requires proposed.cpu >= 0.0 && proposed.memory >= 0.0
  {
    Patch(current, proposed, document).Ok? ==>
      Patch(current, proposed, Patch(current, proposed, document).value) == Err(RecommendationStale)
  }

  lemma RealCutPatchesOnce(current: Requests, proposed: Requests, document: Yaml, reduction: real, cpuFloor: real)
    requires proposed.cpu >= 0.0 && proposed.memory >= 0.0
    requires 0.05 <= reduction < 1.0 && cpuFloor > 0.0 && Exceeds(cpuFloor, reduction)
    requires RealCut(current, proposed, reduction, cpuFloor)
    ensures PatchesOnce(current, proposed, document)
  {
    if Patch(current, proposed, document).Ok? { SecondPatch(current, proposed, document); }
    if Rightsizing.CutByAtLeast(current.cpu, proposed.cpu, reduction) && proposed.cpu >= cpuFloor
       && exists n: int :: n > 0 && proposed.cpu == Rightsizing.Hundredths(n)
    {
      CpuCutIsVisible(current.cpu, proposed.cpu, reduction, cpuFloor);
    } else {
      MemoryCutIsVisible(current.memory, proposed.memory, reduction);
    }
  }

  /** The current and proposed requests of an observation and its recommendation. */
  function CurrentRequests(o: Rightsizing.Observation): Requests {
    Requests(o.cpuRequest, o.memoryRequest)
  }

  function ProposedRequests(r: Rightsizing.Recommendation): Requests {
    Requests(r.cpu, r.memory)
  }

  /** Every cut of a CPU request that the engine may recommend under this policy exceeds a millicore. */
  predicate VisibleCuts(p: Rightsizing.Policy) {
    Exceeds(Rightsizing.RoundCpuUp(p.minimumCpuCores), p.minimumReduction)
  }

  /** If the engine recommends `r`, the patch of a document does not apply a second time. */
  ghost predicate RecommendsOnce(p: Rightsizing.Policy, o: Rightsizing.Observation, r: Rightsizing.Recommendation,
                                 document: Yaml)
    requires Rightsizing.ValidPolicy(p)
  {
    Rightsizing.ValidObservation(o) && Rightsizing.AnalyzeWorkload(p, o) == Ok(Rightsizing.Recommended(r)) ==>
      r.cpu >= 0.0 && r.memory >= 0.0 && PatchesOnce(CurrentRequests(o), ProposedRequests(r), document)
  }

  lemma RecommendationPatchesOnce(p: Rightsizing.Policy, o: Rightsizing.Observation, r: Rightsizing.Recommendation,
                                  document: Yaml)
    requires Rightsizing.ValidPolicy(p) && VisibleCuts(p)
    ensures RecommendsOnce(p, o, r, document)
  {
    if Rightsizing.ValidObservation(o) && Rightsizing.AnalyzeWorkload(p, o) == Ok(Rightsizing.Recommended(r)) {
      RecommendationIsReal(p, o, r);
      FloorRounded(p.minimumCpuCores);
      RealCutPatchesOnce(CurrentRequests(o), ProposedRequests(r), document, p.minimumReduction,
                         Rightsizing.RoundCpuUp(p.minimumCpuCores));
    }
  }

  lemma FloorRounded(floor: real)
    requires floor > 0.0
    ensures Rightsizing.RoundCpuUp(floor) >= floor
  {
  }

  /**
   Under a policy no recommendation's patch ever applies a second time, if and only if a cut by the least
   fraction to the least request, rounded up, exceeds a millicore.
   */
  lemma PatchesOnceExactlyWhenVisible(p: Rightsizing.Policy)
    requires Rightsizing.ValidPolicy(p)
    ensures (forall o, r, document :: RecommendsOnce(p, o, r, document)) <==> VisibleCuts(p)
  {
    if VisibleCuts(p) {
      forall o, r, document ensures RecommendsOnce(p, o, r, document) {
        RecommendationPatchesOnce(p, o, r, document);
      }
    } else {
      var o, r, document := InvisibleCutPatchesTwice(p);
      assert !RecommendsOnce(p, o, r, document);
    }
  }

  lemma RecommendationIsReal(p: Rightsizing.Policy, o: Rightsizing.Observation, r: Rightsizing.Recommendation)
    requires Rightsizing.ValidPolicy(p) && Rightsizing.ValidObservation(o)
    ensures Rightsizing.AnalyzeWorkload(p, o) == Ok(Rightsizing.Recommended(r)) ==>
              r.cpu >= 0.0 && r.memory >= 0.0
              && RealCut(CurrentRequests(o), ProposedRequests(r), p.minimumReduction,
                         Rightsizing.RoundCpuUp(p.minimumCpuCores))
  {
    Rightsizing.EveryRecommendationIsSafe(p, o);
    if Rightsizing.AnalyzeWorkload(p, o) == Ok(Rightsizing.Recommended(r)) {
      SafeIsReal(p, o, r, Rightsizing.PeakUsage(o.cpuUsage, p.cpuHeadroom).value,
                 Rightsizing.PeakUsage(o.memoryUsage, p.memoryHeadroom).value);
    }
  }

  lemma SafeIsReal(p: Rightsizing.Policy, o: Rightsizing.Observation, r: Rightsizing.Recommendation, cpu: real,
                   memory: real)
    requires Rightsizing.ValidPolicy(p)
    requires Rightsizing.SafeRecommendation(p, o, r, cpu, memory) && Rightsizing.CutsRounded(o, r)
    ensures RealCut(CurrentRequests(o), ProposedRequests(r), p.minimumReduction,
                    Rightsizing.RoundCpuUp(p.minimumCpuCores))
    ensures r.cpu >= 0.0 && r.memory >= 0.0
  {
    if r.cpu < o.cpuRequest {
      var n: int :| n > 0 && r.cpu == Rightsizing.Hundredths(n);
      HundredthsAbove(n, p.minimumCpuCores);
    }
  }

  /** Whole hundredths above a floor are above the floor rounded up. */
  lemma HundredthsAbove(n: int, floor: real)
    requires Rightsizing.Hundredths(n) >= floor
    ensures Rightsizing.Hundredths(n) >= Rightsizing.RoundCpuUp(floor)
  {
    assert n as real >= floor * 100.0;
    assert Rightsizing.Ceil(floor * 100.0) <= n;
  }

  /** A workload that uses nothing: its current requests, and as many idle samples as an analysis asks for. */
  function Idle(cpu: real, memory: real, samples: nat, seconds: nat): Rightsizing.Observation {
    var usage := seq(samples, _ => Quantiles.Finite(0.0));
    Rightsizing.Observation(false, cpu, memory, usage, usage, None, None, None, seconds, seconds)
  }

  lemma {:induction false} IdleValues(samples: seq<Quantiles.Sample>)
    requires forall i :: 0 <= i < |samples| ==> samples[i] == Quantiles.Finite(0.0)
    ensures |Quantiles.UsableValues(samples)| == |samples|
    ensures forall v :: v in Quantiles.UsableValues(samples) ==> v == 0.0
  {
    if samples != [] { IdleValues(samples[1..]); }
  }

  lemma NoneOf(x: real, k: real)
    requires x == 0.0
    ensures x * k == 0.0
  {
  }

  lemma IdlePeak(samples: seq<Quantiles.Sample>, headroom: real)
    requires samples != [] && forall i :: 0 <= i < |samples| ==> samples[i] == Quantiles.Finite(0.0)
    ensures Rightsizing.PeakUsage(samples, headroom) == Ok(0.0)
  {
    IdleValues(samples);
    Quantiles.SortAscending(Quantiles.UsableValues(samples));
    var p95 := Quantiles.Quantile(samples, 0.95);
    assert p95.Ok?;
    Quantiles.QuantileRises(samples, 0.95, 0.95);
    var values := Quantiles.UsableValues(samples);
    var low, high :| low in values && high in values && low <= p95.value && p95.value <= high;
    NoneOf(p95.value, headroom);
    var peak := Rightsizing.PeakUsage(samples, headroom);
    assert peak.Ok? && peak.value == p95.value * headroom;
    assert peak.value == 0.0;
  }

  /** The CPU request from which an idle workload is cut by exactly the least fraction. */
  lemma LeastCut(floor: real, reduction: real) returns (request: real)
    requires 0.0 < floor && 0.0 < reduction < 1.0 && !Exceeds(floor, reduction)
    ensures request > 0.0 && floor <= request <= floor + 0.001
    ensures Rightsizing.Reduction(request, floor) == reduction
            && Rightsizing.Advised(request, floor, reduction) == floor
  {
    var rest := 1.0 - reduction;
    request := floor / rest;
    assert request * rest == floor;
    Scaled(rest, 1.0, request);
    PartOfDifference(request, floor, reduction);
    if request - floor > 0.001 { StrictlyScaled(0.001, request - floor, rest); }
    Quotient(floor, request, rest);
  }

  lemma StrictlyScaled(x: real, y: real, k: real)
    requires x < y && 0.0 < k
    ensures x * k < Part(y, k)
  {
  }

  lemma Quotient(x: real, y: real, k: real)
    requires y > 0.0 && y * k == x
    ensures x / y == k
  {
  }

  /** An idle workload that requests this much CPU, and the memory floor, is recommended exactly that least cut. */
  lemma LeastCutIsRecommended(p: Rightsizing.Policy, request: real, samples: nat, seconds: nat)
    requires Rightsizing.ValidPolicy(p) && request > 0.0
    requires var floor := Rightsizing.RoundCpuUp(p.minimumCpuCores);
             Rightsizing.Reduction(request, floor) == p.minimumReduction
             && Rightsizing.Advised(request, floor, p.minimumReduction) == floor
    requires 0 < samples && p.minimumSamples <= samples && 60 <= seconds && p.minimumDemoSeconds <= seconds
    ensures var o := Idle(request, Rightsizing.RoundMemoryUp(p.minimumMemoryBytes), samples, seconds);
            && Rightsizing.ValidObservation(o)
            && Rightsizing.AnalyzeWorkload(p, o).Ok? && Rightsizing.AnalyzeWorkload(p, o).value.Recommended?
            && ProposedRequests(Rightsizing.AnalyzeWorkload(p, o).value.r)
               == Requests(Rightsizing.RoundCpuUp(p.minimumCpuCores), Rightsizing.RoundMemoryUp(p.minimumMemoryBytes))
  {
    var memory := Rightsizing.RoundMemoryUp(p.minimumMemoryBytes);
    Rightsizing.NeedsBounded(0.0, p.minimumMemoryBytes);
    IdleAnalysis(p, request, memory, samples, seconds);
    IdleAdvice(p, Idle(request, memory, samples, seconds));
  }

  /** An idle workload is analysed with no usage at all. */
  lemma IdleAnalysis(p: Rightsizing.Policy, cpu: real, memory: real, samples: nat, seconds: nat)
    requires Rightsizing.ValidPolicy(p) && cpu > 0.0 && memory > 0.0
    requires 0 < samples && p.minimumSamples <= samples && 60 <= seconds && p.minimumDemoSeconds <= seconds
    ensures var o := Idle(cpu, memory, samples, seconds);
            Rightsizing.ValidObservation(o)
            && Rightsizing.AnalyzeWorkload(p, o) == Ok(Rightsizing.Analyze(p, o, 0.0, 0.0))
  {
    var o := Idle(cpu, memory, samples, seconds);
    IdlePeak(o.cpuUsage, p.cpuHeadroom);
    IdlePeak(o.memoryUsage, p.memoryHeadroom);
    Scaled(p.minimumCoverage, 1.0, seconds as real);
  }

  lemma IdleAdvice(p: Rightsizing.Policy, o: Rightsizing.Observation)
    requires Rightsizing.ValidPolicy(p) && Rightsizing.ValidObservation(o)
    requires o.memoryRequest == Rightsizing.RoundMemoryUp(p.minimumMemoryBytes)
    requires var floor := Rightsizing.RoundCpuUp(p.minimumCpuCores);
             Rightsizing.Reduction(o.cpuRequest, floor) == p.minimumReduction
             && Rightsizing.Advised(o.cpuRequest, floor, p.minimumReduction) == floor
    ensures Rightsizing.Analyze(p, o, 0.0, 0.0).Recommended?
    ensures ProposedRequests(Rightsizing.Analyze(p, o, 0.0, 0.0).r)
         == Requests(Rightsizing.RoundCpuUp(p.minimumCpuCores), o.memoryRequest)
  {
    assert Rightsizing.CpuNeed(0.0, p.minimumCpuCores) == Rightsizing.RoundCpuUp(p.minimumCpuCores);
    assert Rightsizing.MemoryNeed(0.0, p.minimumMemoryBytes) == o.memoryRequest;
    Uncut(o.memoryRequest, p.minimumReduction);
  }

  lemma Uncut(request: real, reduction: real)
    requires request > 0.0 && reduction > 0.0
    ensures Rightsizing.Advised(request, request, reduction) == request
  {
  }

  /** A document that holds just the two requests. */
  function RequestsDocument(cpu: Yaml, memory: Yaml): Yaml {
    var requests := Mapping(map["cpu" := cpu, "memory" := memory]);
    Mapping(map["cloudward-demo" := Mapping(map["resources" := Mapping(map["requests" := requests])])])
  }

  lemma RequestsOf(cpu: Yaml, memory: Yaml)
    ensures Lookup(RequestsDocument(cpu, memory), REQUESTS) == Some(Mapping(map["cpu" := cpu, "memory" := memory]))
  {
    var requests := Mapping(map["cpu" := cpu, "memory" := memory]);
    var resources := Mapping(map["requests" := requests]);
    var workload := Mapping(map["resources" := resources]);
    var document := Mapping(map["cloudward-demo" := workload]);
    assert Child(document, "cloudward-demo") == Some(workload);
    assert Child(workload, "resources") == Some(resources);
    assert Child(resources, "requests") == Some(requests);
    assert Lookup(document, REQUESTS) == Lookup(workload, REQUESTS[1..]) == Lookup(resources, REQUESTS[1..][1..]);
    assert Lookup(resources, REQUESTS[1..][1..]) == Lookup(requests, REQUESTS[1..][1..][1..]);
  }

  /** Requests that differ by a millicore at most, and only there, are patched twice. */
  lemma InvisiblePatchAppliesTwice(current: Requests, n: nat, m: nat)
    requires current.memory == Rightsizing.Mebibytes(m)
    requires Rightsizing.Hundredths(n) <= current.cpu <= Rightsizing.Hundredths(n) + 0.001
    ensures var proposed := Requests(Rightsizing.Hundredths(n), current.memory);
            var document := RequestsDocument(Number(current.cpu), Number(current.memory));
            && Patch(current, proposed, document).Ok?
            && Patch(current, proposed, Patch(current, proposed, document).value).Ok?
  {
    var document := RequestsDocument(Number(current.cpu), Number(current.memory));
    RequestsOf(Number(current.cpu), Number(current.memory));
    WrittenMillicores(n);
    WrittenMebibytes(m);
    SecondPatch(current, Requests(Rightsizing.Hundredths(n), current.memory), document);
  }

  lemma InvisibleCutPatchesTwice(p: Rightsizing.Policy)
    returns (o: Rightsizing.Observation, r: Rightsizing.Recommendation, document: Yaml)
    requires Rightsizing.ValidPolicy(p) && !VisibleCuts(p)
    ensures Rightsizing.ValidObservation(o) && Rightsizing.AnalyzeWorkload(p, o) == Ok(Rightsizing.Recommended(r))
    ensures r.cpu >= 0.0 && r.memory >= 0.0 && Patch(CurrentRequests(o), ProposedRequests(r), document).Ok?
    ensures !PatchesOnce(CurrentRequests(o), ProposedRequests(r), document)
  {
    var n, m := Rightsizing.Ceil(p.minimumCpuCores * 100.0), Rightsizing.Ceil(p.minimumMemoryBytes / MIB);
    FloorRounded(p.minimumCpuCores);
    var request := LeastCut(Rightsizing.Hundredths(n), p.minimumReduction);
    var samples := if p.minimumSamples > 0 then p.minimumSamples else 1;
    var seconds := if p.minimumDemoSeconds > 60 then p.minimumDemoSeconds else 60;
    LeastCutIsRecommended(p, request, samples, seconds);
    o := Idle(request, Rightsizing.Mebibytes(m), samples, seconds);
    r := Rightsizing.AnalyzeWorkload(p, o).value.r;
    document := RequestsDocument(Number(request), Number(Rightsizing.Mebibytes(m)));
    InvisiblePatchAppliesTwice(CurrentRequests(o), n, m);
  }

  /**
   The engine recommends cuts too small to be noticed: with a floor of 10 millicores and a minimum cut of
   5%, an idle workload that requests 0.0106 cores is cut to 0.01.
   */
  lemma TinyCutIsRecommended(p: Rightsizing.Policy, samples: nat, seconds: nat)
    requires Rightsizing.ValidPolicy(p) && p.minimumCpuCores == 0.01 && p.minimumReduction == 0.05
    requires p.minimumMemoryBytes == Rightsizing.Mebibytes(64)
    requires 0 < samples && p.minimumSamples <= samples && 60 <= seconds && p.minimumDemoSeconds <= seconds
    ensures var o := Idle(0.0106, Rightsizing.Mebibytes(64), samples, seconds);
            && Rightsizing.ValidObservation(o)
            && Rightsizing.AnalyzeWorkload(p, o).Ok? && Rightsizing.AnalyzeWorkload(p, o).value.Recommended?
            && ProposedRequests(Rightsizing.AnalyzeWorkload(p, o).value.r) == Requests(0.01, Rightsizing.Mebibytes(64))
  {
    var o := Idle(0.0106, Rightsizing.Mebibytes(64), samples, seconds);
    IdlePeak(o.cpuUsage, p.cpuHeadroom);
    IdlePeak(o.memoryUsage, p.memoryHeadroom);
    assert seconds as real * p.minimumCoverage <= seconds as real
      by { Scaled(p.minimumCoverage, 1.0, seconds as real); }
    TinyNeeds();
  }

  lemma TinyNeeds()
    ensures Rightsizing.CpuNeed(0.0, 0.01) == 0.01
    ensures Rightsizing.MemoryNeed(0.0, Rightsizing.Mebibytes(64)) == Rightsizing.Mebibytes(64)
    ensures Rightsizing.Advised(0.0106, 0.01, 0.05) == 0.01 && Rightsizing.EffectiveReduction(0.0106, 0.01, 0.05) != 0.0
    ensures Rightsizing.Advised(Rightsizing.Mebibytes(64), Rightsizing.Mebibytes(64), 0.05) == Rightsizing.Mebibytes(64)
  {
    assert Rightsizing.Mebibytes(64) / MIB == 64.0;
    assert 0.01 / 0.0106 <= 0.95;
  }

  /** The condition matters: that recommendation's patch applies a second time. */
  lemma TinyCutPatchesTwice()
    ensures var current, proposed := Requests(0.0106, 67108864.0), Requests(0.01, 67108864.0);
            var p := Rightsizing.DEFAULT_POLICY.(minimumCpuCores := 0.01, minimumReduction := 0.05);
            var o := Idle(0.0106, 67108864.0, 5, 900);
            var document := RequestsDocument(Number(0.011), Number(67108864.0));
            && Rightsizing.ValidPolicy(p) && Rightsizing.ValidObservation(o) && CurrentRequests(o) == current
            && Rightsizing.AnalyzeWorkload(p, o).Ok? && Rightsizing.AnalyzeWorkload(p, o).value.Recommended?
            && ProposedRequests(Rightsizing.AnalyzeWorkload(p, o).value.r) == proposed
            && Patch(current, proposed, document).Ok?
            && Patch(current, proposed, Patch(current, proposed, document).value).Ok?
  {
    var p := Rightsizing.DEFAULT_POLICY.(minimumCpuCores := 0.01, minimumReduction := 0.05);
    assert Rightsizing.Mebibytes(64) == 67108864.0;
    TinyCutIsRecommended(p, 5, 900);
    TinyPatchAppliesTwice();
  }

  lemma TinyPatchAppliesTwice()
    ensures var current, proposed := Requests(0.0106, 67108864.0), Requests(0.01, 67108864.0);
            var document := RequestsDocument(Number(0.011), Number(67108864.0));
            && Patch(current, proposed, document).Ok?
            && Patch(current, proposed, Patch(current, proposed, document).value).Ok?
  {
    RequestsOf(Number(0.011), Number(67108864.0));
    SecondPatch(Requests(0.0106, 67108864.0), Requests(0.01, 67108864.0),
                RequestsDocument(Number(0.011), Number(67108864.0)));
  }

  /** With the default settings no recommendation's patch ever applies a second time. */
  lemma DefaultPolicyPatchesOnce(o: Rightsizing.Observation, r: Rightsizing.Recommendation, document: Yaml)
    requires Rightsizing.ValidObservation(o)
    ensures Rightsizing.ValidPolicy(Rightsizing.DEFAULT_POLICY)
    ensures Rightsizing.AnalyzeWorkload(Rightsizing.DEFAULT_POLICY, o) == Ok(Rightsizing.Recommended(r)) ==>
              r.cpu >= 0.0 && r.memory >= 0.0 && PatchesOnce(CurrentRequests(o), ProposedRequests(r), document)
  {
    assert Rightsizing.DEFAULT_POLICY.minimumCpuCores * 100.0 == 5.0;
    assert Rightsizing.RoundCpuUp(Rightsizing.DEFAULT_POLICY.minimumCpuCores) == 0.05;
    RecommendationPatchesOnce(Rightsizing.DEFAULT_POLICY, o, r, document);
  }

  /** The values document belongs to a recommendation whose status a stale patch changes. */
  datatype Status = Recommended | PullRequestCreated | Expired

  class FinOpsRecommendation {
    const current: Requests
    const proposed: Requests
    var status: Status

    constructor (current: Requests, proposed: Requests)
      ensures this.current == current && this.proposed == proposed && status == Recommended
    {
      this.current, this.proposed, status := current, proposed, Recommended;
    }

    /** The patch, which also expires the recommendation exactly when the document has moved on. */
    method PatchGitopsValues(document: Yaml) returns (r: Result<Yaml>)
      requires proposed.cpu >= 0.0 && proposed.memory >= 0.0
      modifies this`status
      ensures r == Patch(current, proposed, document)
      ensures status == if r == Err(RecommendationStale) then Expired else old(status)
    {
      if !document.Mapping? { return Err(ValuesInvalid); }
      var requests := Lookup(document, REQUESTS);
      if requests.None? || !requests.value.Mapping? { return Err(TargetMissing); }
      var cpu := ParseCpu(Child(requests.value, "cpu"));
      if cpu.Err? { return Err(cpu.error); }
      var memory := ParseMemory(Child(requests.value, "memory"));
      if memory.Err? { return Err(memory.error); }
      if cpu.value - current.cpu > 0.001 || current.cpu - cpu.value > 0.001
        || memory.value != Truncate(current.memory) {
        status := Expired;
        return Err(RecommendationStale);
      }
      var patched := Replace(document, CPU_PATH, PrintCpu(proposed.cpu));
      patched := Replace(patched, MEMORY_PATH, PrintMemory(Truncate(proposed.memory)));
      return Ok(patched);
    }
  }
}
