/**
 Exactly which runtime security events a run of the forwarder delivers, and as what.
 */
module ForwarderDelivery {
  import opened Results
  import opened Forwarder

  /** The sensor policies that are forwarded, and as what. */
  function KindOf(policy: string): Option<Classification> {
    match policy
    case "cloudward-s1-unexpected-shell" => Some(SuspiciousProcess)
    case "cloudward-s2-unexpected-egress" => Some(UnexpectedEgress)
    case "cloudward-s3-privilege-attempt" => Some(PrivilegeBehavior)
    case _ => None
  }

  /** An event of one of these policies, on a named demo target of the staging namespace. */
  predicate Relevant(raw: RawEvent) {
    && KindOf(raw.policy).Some?
    && raw.pod.Some? && raw.pod == Some(Pod("cloudward-staging", raw.pod.value.name, Some("true")))
    && raw.pod.value.name != ""
  }

  /** The event that an arrival goes out as, at a position in the run. */
  function Image(a: Arrival, node: string, position: nat): Event
    requires Relevant(a.raw)
  {
    Event(KindOf(a.raw.policy).value, a.raw.pod.value, a.raw.details, node, position)
  }

  lemma NormalizedExactly(a: Arrival, node: string, position: nat)
    ensures Normalize(a.raw, node, position) == if Relevant(a.raw) then Some(Image(a, node, position)) else None
  {
    ClassifiedAs(a.raw.policy);
  }

  lemma ClassifiedAs(policy: string)
    ensures Classify(policy) == KindOf(policy)
  {
  }

  /** An arrival that went out, at which position of the run. */
  datatype Gone = Gone(arrival: Arrival, position: nat)

  /** How many of those gone reached the rate check within the minute before a time. */
  function Within(gone: seq<Gone>, at: real): nat {
    if gone == [] then 0 else
    Within(gone[..|gone| - 1], at) + if at - 60.0 < gone[|gone| - 1].arrival.rateAt <= at then 1 else 0
  }

  /** The arrivals that go out: relevant ones with fewer than `rate` gone out in the minute before. */
  function Outgoing(arrivals: seq<Arrival>, rate: nat): seq<Gone> {
    if arrivals == [] then [] else
    var earlier, a := Outgoing(arrivals[..|arrivals| - 1], rate), arrivals[|arrivals| - 1];
    if Relevant(a.raw) && Within(earlier, a.rateAt) < rate then earlier + [Gone(a, |arrivals|)] else earlier
  }

  /** They are relevant arrivals of the run, at their positions. */
  lemma {:induction false} OutgoingAre(arrivals: seq<Arrival>, rate: nat)
    ensures forall i :: 0 <= i < |Outgoing(arrivals, rate)| ==>
              var g := Outgoing(arrivals, rate)[i];
              1 <= g.position <= |arrivals| && g.arrival == arrivals[g.position - 1] && Relevant(g.arrival.raw)
  {
    if arrivals != [] { OutgoingAre(arrivals[..|arrivals| - 1], rate); }
  }

  /** What has been delivered of those gone. */
  function Images(gone: seq<Gone>, node: string): seq<Event> {
    if gone == [] then [] else
    var g := gone[|gone| - 1];
    Images(gone[..|gone| - 1], node) + if Relevant(g.arrival.raw) then [Image(g.arrival, node, g.position)] else []
  }

  function Times(gone: seq<Gone>): seq<real> {
    if gone == [] then [] else Times(gone[..|gone| - 1]) + [gone[|gone| - 1].arrival.rateAt]
  }

  lemma {:induction false} CountedWithin(gone: seq<Gone>, at: real)
    ensures CountIn(Times(gone), at - 60.0, at) == Within(gone, at)
  {
    if gone != [] {
      var h := Times(gone[..|gone| - 1]);
      CountedWithin(gone[..|gone| - 1], at);
      assert Times(gone)[..|Times(gone)| - 1] == h;
    }
  }

  lemma OneMoreGone(gone: seq<Gone>, g: Gone, node: string, event: Event)
    requires Relevant(g.arrival.raw) && event == Image(g.arrival, node, g.position)
    ensures Images(gone + [g], node) == Images(gone, node) + [event]
    ensures Times(gone + [g]) == Times(gone) + [g.arrival.rateAt]
  {
    assert (gone + [g])[..|gone|] == gone;
  }

  /** A run delivers exactly the outgoing arrivals, each as its image at its position. */
  lemma {:induction false} DeliveredExactly(arrivals: seq<Arrival>, node: string, rate: nat)
    ensures var p, gone := HandleAll(Progress(0, [], []), arrivals, node, rate), Outgoing(arrivals, rate);
            p == Progress(|arrivals|, Times(gone), Images(gone, node))
  {
    if arrivals != [] {
      var earlier, a := arrivals[..|arrivals| - 1], arrivals[|arrivals| - 1];
      DeliveredExactly(earlier, node, rate);
      HandledOne(Outgoing(earlier, rate), a, node, rate, |arrivals|);
    }
  }

  lemma HandledOne(gone: seq<Gone>, a: Arrival, node: string, rate: nat, n: nat)
    requires n > 0
    ensures var next := if Relevant(a.raw) && Within(gone, a.rateAt) < rate then gone + [Gone(a, n)] else gone;
            Handle(Progress(n - 1, Times(gone), Images(gone, node)), a, node, rate)
            == Progress(n, Times(next), Images(next, node))
  {
    NormalizedExactly(a, node, n);
    ForwardedOne(gone, a, node, rate, n, Normalize(a.raw, node, n));
  }

  lemma ForwardedOne(gone: seq<Gone>, a: Arrival, node: string, rate: nat, n: nat, event: Option<Event>)
    requires event == if Relevant(a.raw) then Some(Image(a, node, n)) else None
    ensures var next := if event.Some? && Within(gone, a.rateAt) < rate then gone + [Gone(a, n)] else gone;
            Forward(Progress(n, Times(gone), Images(gone, node)), event, a.rateAt, rate)
            == Progress(n, Times(next), Images(next, node))
  {
    CountedWithin(gone, a.rateAt);
    if event.Some? { OneMoreGone(gone, Gone(a, n), node, event.value); }
  }
}
