/**
 The node-local forwarder of runtime security events: normalization, the expiring map that drops
 repeated events, the pruned deque that bounds the rate, and the loop that composes them.
 */
module Forwarder {
  import opened Results

  // ---------- normalization ----------

  datatype Classification = SuspiciousProcess | UnexpectedEgress | PrivilegeBehavior

  /** A pod as the sensor reports it, with its demo-target label. */
  datatype Pod = Pod(namespace: string, name: string, demoTarget: Option<string>)

  /** A raw event; the fields no check looks at are carried along as text. */
  datatype RawEvent = RawEvent(policy: string, pod: Option<Pod>, details: string)

  /** The normalized event. Its evidence reference names the node and the position in the run. */
  datatype Event = Event(classification: Classification, pod: Pod, details: string, node: string, sequence: nat)

  function Classify(policy: string): Option<Classification> {
    if policy == "cloudward-s1-unexpected-shell" then Some(SuspiciousProcess)
    else if policy == "cloudward-s2-unexpected-egress" then Some(UnexpectedEgress)
    else if policy == "cloudward-s3-privilege-attempt" then Some(PrivilegeBehavior)
    else None
  }

  predicate Watched(raw: RawEvent) {
    && Classify(raw.policy).Some?
    && raw.pod.Some?
    && raw.pod.value.namespace == "cloudward-staging"
    && raw.pod.value.name != ""
    && raw.pod.value.demoTarget == Some("true")
  }

  function Normalize(raw: RawEvent, node: string, sequence: nat): Option<Event> {
    if !Watched(raw) then None
    else Some(Event(Classify(raw.policy).value, raw.pod.value, raw.details, node, sequence))
  }

  lemma NormalizedPosition(raw: RawEvent, node: string, sequence: nat)
    ensures Normalize(raw, node, sequence).Some? ==> Normalize(raw, node, sequence).value.sequence == sequence
  {
  }

  // ---------- the rate, by full history ----------

  ghost predicate Ascending(h: seq<real>) {
    forall i, j :: 0 <= i <= j < |h| ==> h[i] <= h[j]
  }

  /** How many of the times lie in the half-open interval (low, high]. */
  function CountIn(h: seq<real>, low: real, high: real): (n: nat)
    ensures n <= |h|
  {
    if h == [] then 0
    else CountIn(h[..|h| - 1], low, high) + if low < h[|h| - 1] <= high then 1 else 0
  }

  /** An event may go out at a time when fewer than `rate` went out in the minute before. */
  predicate MayGo(h: seq<real>, now: real, rate: nat) {
    CountIn(h, now - 60.0, now) < rate
  }

  /** A history in which every time was one at which an event could go out. */
  ghost predicate Throttled(h: seq<real>, rate: nat) {
    h != [] ==>
      var before, last := h[..|h| - 1], h[|h| - 1];
      Throttled(before, rate) && MayGo(before, last, rate) && UpTo(before, last)
  }

  ghost predicate UpTo(h: seq<real>, last: real) {
    forall i :: 0 <= i < |h| ==> h[i] <= last
  }

  lemma {:induction false} ThrottledAscends(h: seq<real>, rate: nat)
    requires Throttled(h, rate)
    ensures Ascending(h)
  {
    if h != [] { ThrottledAscends(h[..|h| - 1], rate); }
  }

  lemma {:induction false} WindowIsSuffix(h: seq<real>, k: nat, low: real, high: real)
    requires k <= |h|
    requires forall i :: 0 <= i < k ==> h[i] <= low
    requires forall i :: k <= i < |h| ==> low < h[i] <= high
    ensures CountIn(h, low, high) == |h| - k
  {
    if k < |h| {
      WindowIsSuffix(h[..|h| - 1], k, low, high);
    } else if h != [] {
      WindowIsSuffix(h[..|h| - 1], k - 1, low, high);
    }
  }

  /** A window that starts later and whose end covers all the times counts no more of them. */
  lemma {:induction false} LaterWindow(h: seq<real>, low: real, high: real, later: real, last: real)
    requires low <= later && UpTo(h, last)
    ensures CountIn(h, later, high) <= CountIn(h, low, last)
  {
    if h != [] { LaterWindow(h[..|h| - 1], low, high, later, last); }
  }

  /** The minute up to a time holds no more than `rate` events. */
  predicate MinuteHolds(h: seq<real>, t: real, rate: nat) {
    CountIn(h, t - 60.0, t) <= rate
  }

  /**
   In a throttled history every interval of one minute, whether or not an event went out at its end,
   holds at most `rate` events.
   */
  lemma {:induction false} EveryMinuteIsBounded(h: seq<real>, rate: nat, t: real)
    requires Throttled(h, rate)
    ensures MinuteHolds(h, t, rate)
  {
    if h != [] {
      var before, last := h[..|h| - 1], h[|h| - 1];
      if t - 60.0 < last <= t {
        LaterWindow(before, last - 60.0, t, t - 60.0, last);
      } else {
        EveryMinuteIsBounded(before, rate, t);
      }
    }
  }

  lemma ThrottledAppend(h: seq<real>, now: real, rate: nat)
    requires Throttled(h, rate) && MayGo(h, now, rate) && UpTo(h, now)
    ensures Throttled(h + [now], rate)
  {
    assert (h + [now])[..|h|] == h;
  }

  /** What a pruned deque holds: an end of the history, cut no later than a given time. */
  ghost predicate TailOf(sent: seq<real>, h: seq<real>, cut: real) {
    && |sent| <= |h|
    && (forall i :: 0 <= i < |sent| ==> sent[i] == h[|h| - |sent| + i])
    && (forall i :: 0 <= i < |h| - |sent| ==> h[i] <= cut)
  }

  lemma TailCounts(sent: seq<real>, h: seq<real>, cut: real, now: real)
    requires TailOf(sent, h, cut) && Ascending(h) && cut <= now
    requires UpTo(h, now)
    requires sent != [] ==> cut < sent[0]
    ensures |sent| == CountIn(h, cut, now)
  {
    var k := |h| - |sent|;
    forall i | k <= i < |h| ensures cut < h[i] <= now {
      assert sent[0] == h[k] <= h[i];
    }
    WindowIsSuffix(h, k, cut, now);
  }

  /** What the rate check keeps: a throttled history up to the clock, and an end of it in the deque. */
  ghost predicate RateState(sent: seq<real>, admitted: seq<real>, rate: nat, clock: real) {
    Throttled(admitted, rate) && UpTo(admitted, clock) && TailOf(sent, admitted, clock - 60.0)
  }

  lemma ClockMoves(sent: seq<real>, admitted: seq<real>, rate: nat, clock: real, now: real)
    requires RateState(sent, admitted, rate, clock) && clock <= now
    ensures RateState(sent, admitted, rate, now)
  {
  }

  lemma WindowStep(sent: seq<real>, admitted: seq<real>, rate: nat, now: real)
    requires RateState(sent, admitted, rate, now) && (sent != [] ==> now - 60.0 < sent[0])
    ensures |sent| < rate <==> MayGo(admitted, now, rate)
    ensures |sent| < rate ==> RateState(sent + [now], admitted + [now], rate, now)
  {
    ThrottledAscends(admitted, rate);
    TailCounts(sent, admitted, now - 60.0, now);
    if |sent| < rate { ThrottledAppend(admitted, now, rate); }
  }

  // ---------- duplicates, by full history ----------

  /** An event that was not held to be a duplicate, and when. */
  datatype Pass = Pass(event: Event, at: real)

  /** When the event last passed. */
  function LastPass(passes: seq<Pass>, event: Event): Option<real> {
    if passes == [] then None
    else if passes[|passes| - 1].event == event then Some(passes[|passes| - 1].at)
    else LastPass(passes[..|passes| - 1], event)
  }

  /** The event passed less than the time to live ago. */
  predicate PassedRecently(passes: seq<Pass>, event: Event, ttl: real, now: real) {
    LastPass(passes, event).Some? && now < LastPass(passes, event).value + ttl
  }

  /** A history of passes each of which was no duplicate of an earlier one. */
  ghost predicate Fresh(passes: seq<Pass>, ttl: real) {
    passes != [] ==>
      var before, last := passes[..|passes| - 1], passes[|passes| - 1];
      Fresh(before, ttl) && !PassedRecently(before, last.event, ttl, last.at)
  }

  ghost predicate AtMost(passes: seq<Pass>, clock: real) {
    forall i :: 0 <= i < |passes| ==> passes[i].at <= clock
  }

  ghost predicate InOrder(passes: seq<Pass>) {
    forall i, j :: 0 <= i <= j < |passes| ==> passes[i].at <= passes[j].at
  }

  /** No pass of an event is later than its last one. */
  lemma {:induction false} LastPassIsLatest(passes: seq<Pass>, i: nat)
    requires i < |passes| && InOrder(passes)
    ensures LastPass(passes, passes[i].event).Some? && passes[i].at <= LastPass(passes, passes[i].event).value
  {
    if i < |passes| - 1 { LastPassIsLatest(passes[..|passes| - 1], i); }
  }

  /** Two passes of one event are at least the time to live apart, whatever was then dropped for the rate. */
  lemma {:induction false} PassesAreSpaced(passes: seq<Pass>, ttl: real, i: nat, j: nat)
    requires Fresh(passes, ttl) && InOrder(passes) && i < j < |passes| && passes[i].event == passes[j].event
    ensures passes[i].at + ttl <= passes[j].at
  {
    var before := passes[..|passes| - 1];
    if j == |passes| - 1 {
      LastPassIsLatest(before, i);
    } else {
      PassesAreSpaced(before, ttl, i, j);
    }
  }

  /** The map holds exactly the last passes that had not expired at some time. */
  ghost predicate Remembers(seen: map<Event, real>, passes: seq<Pass>, ttl: real, since: real) {
    && (forall e :: e in seen <==> PassedRecently(passes, e, ttl, since))
    && (forall e :: e in seen ==> seen[e] == LastPass(passes, e).value + ttl)
  }

  /** An event at a position the run has not reached has never passed. */
  lemma {:induction false} NewPositionNeverPassed(passes: seq<Pass>, event: Event)
    requires forall i :: 0 <= i < |passes| ==> passes[i].event.sequence < event.sequence
    ensures LastPass(passes, event) == None
  {
    if passes != [] { NewPositionNeverPassed(passes[..|passes| - 1], event); }
  }

  lemma FreshStep(passes: seq<Pass>, ttl: real, now: real, event: Event)
    requires Fresh(passes, ttl) && !PassedRecently(passes, event, ttl, now)
    ensures Fresh(passes + [Pass(event, now)], ttl)
  {
    assert (passes + [Pass(event, now)])[..|passes|] == passes;
  }

  lemma PassStep(seen: map<Event, real>, passes: seq<Pass>, ttl: real, now: real, event: Event)
    requires 0.0 < ttl && Remembers(seen, passes, ttl, now)
    ensures Remembers(seen[event := now + ttl], passes + [Pass(event, now)], ttl, now)
  {
    var longer := passes + [Pass(event, now)];
    assert longer[..|passes|] == passes;
    forall e ensures LastPass(longer, e) == if e == event then Some(now) else LastPass(passes, e) {}
  }

  ghost predicate DedupState(seen: map<Event, real>, passes: seq<Pass>, ttl: real, pruned: real, clock: real) {
    0.0 < ttl && pruned <= clock && Fresh(passes, ttl) && InOrder(passes) && AtMost(passes, clock)
    && Remembers(seen, passes, ttl, pruned)
  }

  lemma PruneStep(seen: map<Event, real>, kept: map<Event, real>, passes: seq<Pass>, ttl: real, pruned: real, now: real)
    requires Remembers(seen, passes, ttl, pruned) && pruned <= now
    requires forall e :: e in kept <==> e in seen && now < seen[e]
    requires forall e :: e in kept ==> kept[e] == seen[e]
    ensures Remembers(kept, passes, ttl, now)
  {
  }

  // ---------- the loop, without deque, map or duplicates ----------

  /** A raw event with the times at which the two checks read the clock. */
  datatype Arrival = Arrival(raw: RawEvent, duplicateAt: real, rateAt: real)

  datatype Progress = Progress(sequence: nat, admitted: seq<real>, delivered: seq<Event>)

  function Handle(p: Progress, a: Arrival, node: string, rate: nat): Progress {
    Forward(p.(sequence := p.sequence + 1), Normalize(a.raw, node, p.sequence + 1), a.rateAt, rate)
  }

  /** A normalized event goes out if the rate allows. */
  function Forward(p: Progress, event: Option<Event>, at: real, rate: nat): Progress {
    if event.Some? && MayGo(p.admitted, at, rate)
    then p.(admitted := p.admitted + [at], delivered := p.delivered + [event.value])
    else p
  }

  function HandleAll(p: Progress, arrivals: seq<Arrival>, node: string, rate: nat): Progress {
    if arrivals == [] then p
    else Handle(HandleAll(p, arrivals[..|arrivals| - 1], node, rate), arrivals[|arrivals| - 1], node, rate)
  }

  /** The clock never goes back. */
  ghost predicate ClockRuns(arrivals: seq<Arrival>, from: real) {
    && (forall i :: 0 <= i < |arrivals| ==> from <= arrivals[i].duplicateAt <= arrivals[i].rateAt)
    && (forall i, j :: 0 <= i < j < |arrivals| ==> arrivals[i].rateAt <= arrivals[j].duplicateAt)
  }

  /** Every delivery of a run is the image of one arrival, at its position, in order. */
  ghost predicate DeliveredInOrder(p: Progress) {
    && |p.delivered| == |p.admitted|
    && (forall i :: 0 <= i < |p.delivered| ==> 0 < p.delivered[i].sequence <= p.sequence)
    && (forall i, j :: 0 <= i < j < |p.delivered| ==> p.delivered[i].sequence < p.delivered[j].sequence)
  }

  ghost predicate RunState(p: Progress, rate: nat, clock: real) {
    DeliveredInOrder(p) && Throttled(p.admitted, rate) && UpTo(p.admitted, clock)
  }

  lemma HandleKeeps(p: Progress, a: Arrival, node: string, rate: nat, clock: real)
    requires RunState(p, rate, clock) && clock <= a.rateAt
    ensures RunState(Handle(p, a, node, rate), rate, a.rateAt)
  {
    var normalized := Normalize(a.raw, node, p.sequence + 1);
    if normalized.Some? && MayGo(p.admitted, a.rateAt, rate) {
      ThrottledAppend(p.admitted, a.rateAt, rate);
    }
  }

  lemma {:induction false} RunIsThrottled(arrivals: seq<Arrival>, node: string, rate: nat, from: real)
    requires ClockRuns(arrivals, from)
    ensures RunState(HandleAll(Progress(0, [], []), arrivals, node, rate), rate,
                     if arrivals == [] then from else arrivals[|arrivals| - 1].rateAt)
  {
    if arrivals != [] {
      var earlier, a := arrivals[..|arrivals| - 1], arrivals[|arrivals| - 1];
      RunIsThrottled(earlier, node, rate, from);
      HandleKeeps(HandleAll(Progress(0, [], []), earlier, node, rate), a, node, rate,
                  if earlier == [] then from else earlier[|earlier| - 1].rateAt);
    }
  }

  /** A run keeps the rate at every moment and delivers each arrival at most once, in order. */
  lemma RunKeepsRate(arrivals: seq<Arrival>, node: string, rate: nat, from: real)
    requires ClockRuns(arrivals, from)
    ensures var p := HandleAll(Progress(0, [], []), arrivals, node, rate);
            DeliveredInOrder(p) && forall t: real :: MinuteHolds(p.admitted, t, rate)
  {
    RunIsThrottled(arrivals, node, rate, from);
    var p := HandleAll(Progress(0, [], []), arrivals, node, rate);
    forall t: real ensures MinuteHolds(p.admitted, t, rate) {
      EveryMinuteIsBounded(p.admitted, rate, t);
    }
  }

  lemma HandleAppends(p: Progress, a: Arrival, node: string, rate: nat)
    ensures var alone := Handle(p.(delivered := []), a, node, rate);
            Handle(p, a, node, rate) == alone.(delivered := p.delivered + alone.delivered)
  {
  }

  /** What the plain step makes of one normalized event. */
  lemma ForwardOne(sequence: nat, admitted: seq<real>, event: Option<Event>, at: real, rate: nat)
    ensures Forward(Progress(sequence, admitted, []), event, at, rate)
         == if event.Some? && MayGo(admitted, at, rate)
            then Progress(sequence, admitted + [at], [event.value]) else Progress(sequence, admitted, [])
  {
    if event.Some? { assert [] + [event.value] == [event.value]; }
  }

  lemma LaterPositions(passes: seq<Pass>, sequence: nat, event: Event, at: real)
    requires forall i :: 0 <= i < |passes| ==> passes[i].event.sequence <= sequence
    requires event.sequence == sequence + 1
    ensures forall i :: 0 <= i < |passes| ==> passes[i].event.sequence < event.sequence
    ensures forall i :: 0 <= i < |passes + [Pass(event, at)]| ==>
            (passes + [Pass(event, at)])[i].event.sequence <= sequence + 1
  {
  }

  // ---------- the forwarder ----------

  class SecurityForwarder {
    const node: string
    const rate: nat
    const ttl: real
    var seen: map<Event, real>
    var sent: seq<real>
    var sequence: nat
    /** Every admission and every pass so far, the latest time read, and when the map was last pruned. */
    ghost var admitted: seq<real>
    ghost var passes: seq<Pass>
    ghost var clock: real
    ghost var pruned: real

    ghost predicate RateValid()
      reads `sent, `admitted, `clock
    {
      RateState(sent, admitted, rate, clock)
    }

    ghost predicate DedupValid()
      reads `seen, `passes, `pruned, `clock
    {
      DedupState(seen, passes, ttl, pruned, clock)
    }

    /** Nothing that passed carries a position this run has not reached. */
    ghost predicate Valid()
      reads this
    {
      RateValid() && DedupValid() && forall i :: 0 <= i < |passes| ==> passes[i].event.sequence <= sequence
    }

    /** The configuration check of the source: 1 to 10000 events, and a time to live of 10 to 3600 seconds. */
    constructor (node: string, rate: nat, ttl: int, now: real)
      requires 1 <= rate <= 10000 && 10 <= ttl <= 3600
      ensures Valid() && clock == now && admitted == [] && passes == [] && sequence == 0
      ensures this.node == node && this.rate == rate && this.ttl == ttl as real
    {
      this.node, this.rate, this.ttl := node, rate, ttl as real;
      seen, sent, sequence := map[], [], 0;
      admitted, passes, clock, pruned := [], [], now, now;
    }

    /** Forgets every entry that has expired. */
    method Prune(now: real)
      requires DedupValid() && clock <= now
      modifies this`seen, this`clock, this`pruned
      ensures DedupState(seen, passes, ttl, now, now) && clock == pruned == now
    {
      var expired := set e | e in seen && seen[e] <= now;
      ghost var before := seen;
      while expired != {}
        invariant forall e :: e in expired ==> e in before && before[e] <= now
        invariant forall e :: e in seen <==> e in before && (now < before[e] || e in expired)
        invariant forall e :: e in seen ==> seen[e] == before[e]
        modifies this`seen
        decreases |expired|
      {
        var e :| e in expired;
        seen := seen - {e};
        expired := expired - {e};
      }
      PruneStep(before, seen, passes, ttl, pruned, now);
      clock, pruned := now, now;
    }

    /** True exactly when the event passed less than the time to live ago; otherwise it passes now. */
    method Duplicate(event: Event, now: real) returns (duplicate: bool)
      requires RateValid() && DedupValid() && clock <= now
      modifies this`seen, this`passes, this`clock, this`pruned
      ensures RateValid() && DedupValid() && clock == now
      ensures duplicate <==> PassedRecently(old(passes), event, ttl, now)
      ensures passes == if duplicate then old(passes) else old(passes) + [Pass(event, now)]
      ensures Remembers(seen, passes, ttl, now)
    {
      ClockMoves(sent, admitted, rate, clock, now);
      Prune(now);
      if event in seen {
        return true;
      }
      FreshStep(passes, ttl, now, event);
      PassStep(seen, passes, ttl, now, event);
      seen := seen[event := now + ttl];
      passes := passes + [Pass(event, now)];
      return false;
    }

    /** Admits exactly when fewer than `rate` events were admitted in the last minute of the whole history. */
    method WithinRate(now: real) returns (ok: bool)
      requires RateValid() && DedupValid() && clock <= now
      modifies this`sent, this`admitted, this`clock
      ensures RateValid() && DedupValid() && clock == now
      ensures ok <==> MayGo(old(admitted), now, rate)
      ensures admitted == if ok then old(admitted) + [now] else old(admitted)
    {
      clock := now;
      while sent != [] && sent[0] <= now - 60.0
        invariant TailOf(sent, admitted, now - 60.0)
        modifies this`sent
        decreases |sent|
      {
        sent := sent[1..];
      }
      WindowStep(sent, admitted, rate, now);
      if |sent| >= rate {
        return false;
      }
      sent, admitted := sent + [now], admitted + [now];
      return true;
    }

    /** One normalized event, at a position not reached before: it is never a duplicate, so only the rate decides. */
    method Offer(event: Event, duplicateAt: real, rateAt: real) returns (ok: bool)
      requires RateValid() && DedupValid() && clock <= duplicateAt <= rateAt
      requires forall i :: 0 <= i < |passes| ==> passes[i].event.sequence < event.sequence
      modifies this`seen, this`passes, this`pruned, this`sent, this`admitted, this`clock
      ensures RateValid() && DedupValid() && clock == rateAt
      ensures ok <==> MayGo(old(admitted), rateAt, rate)
      ensures admitted == if ok then old(admitted) + [rateAt] else old(admitted)
      ensures passes == old(passes) + [Pass(event, duplicateAt)]
    {
      NewPositionNeverPassed(passes, event);
      var duplicate := Duplicate(event, duplicateAt);
      ok := false;
      if !duplicate {
        ok := WithinRate(rateAt);
      }
    }

    /**
     One turn of the main loop on what normalization made of the event at the next position. It delivers
     what the plain step without a deque and without duplicate detection delivers.
     */
    method Take(normalized: Option<Event>, duplicateAt: real, rateAt: real) returns (out: seq<Event>)
      requires Valid() && clock <= duplicateAt <= rateAt
      requires normalized.Some? ==> normalized.value.sequence == sequence + 1
      modifies this
      ensures Valid() && clock <= rateAt && sequence == old(sequence) + 1
      ensures Progress(sequence, admitted, out)
           == Forward(Progress(sequence, old(admitted), []), normalized, rateAt, rate)
    {
      ForwardOne(sequence + 1, admitted, normalized, rateAt, rate);
      sequence := sequence + 1;
      if normalized.None? { return []; }
      LaterPositions(passes, sequence - 1, normalized.value, duplicateAt);
      var ok := Offer(normalized.value, duplicateAt, rateAt);
      out := if ok then [normalized.value] else [];
    }

    /** The main loop over any finite run of arrivals delivers what the plain loop delivers. */
    method Run(arrivals: seq<Arrival>) returns (delivered: seq<Event>)
      requires Valid() && ClockRuns(arrivals, clock)
      modifies this
      ensures Valid()
      ensures Progress(sequence, admitted, delivered)
           == HandleAll(Progress(old(sequence), old(admitted), []), arrivals, node, rate)
    {
      delivered := [];
      var i := 0;
      while i < |arrivals|
        invariant 0 <= i <= |arrivals| && Valid()
        invariant i < |arrivals| ==> clock <= arrivals[i].duplicateAt
        invariant Progress(sequence, admitted, delivered)
               == HandleAll(Progress(old(sequence), old(admitted), []), arrivals[..i], node, rate)
      {
        assert arrivals[..i + 1][..i] == arrivals[..i];
        HandleAppends(Progress(sequence, admitted, delivered), arrivals[i], node, rate);
        var normalized := Normalize(arrivals[i].raw, node, sequence + 1);
        NormalizedPosition(arrivals[i].raw, node, sequence + 1);
        var out := Take(normalized, arrivals[i].duplicateAt, arrivals[i].rateAt);
        delivered := delivered + out;
        i := i + 1;
      }
      assert arrivals[..i] == arrivals;
    }
  }
}
