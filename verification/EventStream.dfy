/**
 The resumable event stream: where a connection starts, how it pages through the log while rows keep
 appearing, and what a client that reconnects from its last received id has seen in the end.
 */
module EventStream {
  import opened Results

  const MAX_EVENT_CURSOR: nat := 2147483647
  const PAGE_SIZE: nat := 100

  /** The Last-Event-ID header: absent (or empty), not a number, or a number. */
  datatype Header = Absent | Malformed | Number(value: int)

  function Max(a: nat, b: nat): nat {
    if a < b then b else a
  }

  /** Where a connection starts: beyond everything the client says it has. */
  function InitialCursor(query: Option<nat>, header: Header): (r: Result<nat>)
    ensures r.Err? <==> header.Malformed? || (header.Number? && !(0 <= header.value <= MAX_EVENT_CURSOR))
    ensures r.Ok? && query.Some? ==> query.value <= r.value
    ensures r.Ok? && header.Number? ==> header.value <= r.value
    ensures r.Ok? ==> r.value == 0 || query == Some(r.value) || header == Number(r.value)
  {
    var cursor := if query.Some? then query.value else 0;
    match header
    case Absent => Ok(cursor)
    case Malformed => Err(EventCursorInvalid)
    case Number(n) => if 0 <= n <= MAX_EVENT_CURSOR then Ok(Max(cursor, n)) else Err(EventCursorInvalid)
  }

  /** The smallest id in the log beyond a cursor. */
  function NextId(log: seq<nat>, from: nat): Option<nat> {
    if log == [] then None else
    var rest, last := NextId(log[..|log| - 1], from), log[|log| - 1];
    if last <= from then rest
    else if rest.None? || last < rest.value then Some(last)
    else rest
  }

  lemma {:induction false} NextIdIsSmallest(log: seq<nat>, from: nat)
    ensures var r := NextId(log, from);
            match r
            case None => forall i :: 0 <= i < |log| ==> log[i] <= from
            case Some(m) =>
              && from < m && (exists i :: 0 <= i < |log| && log[i] == m)
              && forall i :: 0 <= i < |log| && from < log[i] ==> m <= log[i]
  {
    if log != [] {
      var rest := log[..|log| - 1];
      NextIdIsSmallest(rest, from);
      assert forall i :: 0 <= i < |rest| ==> rest[i] == log[i];
    }
  }

  /** A frame: the id sent, and how many rows were visible when its page was read. */
  datatype Frame = Frame(id: nat, visible: nat)

  /** The first rows beyond the cursor in id order. */
  function Page(log: seq<nat>, from: nat, size: nat): (page: seq<Frame>)
    ensures |page| <= size
    decreases size, log, from
  {
    if size == 0 || NextId(log, from).None? then []
    else [Frame(NextId(log, from).value, |log|)] + Page(log, NextId(log, from).value, size - 1)
  }

  /** The cursor after some frames. */
  function LastId(frames: seq<Frame>, from: nat): nat {
    if frames == [] then from else frames[|frames| - 1].id
  }

  /**
   One turn of the loop: whether it runs, the rows then visible, and how many frames go out before the client
   is gone.
   */
  datatype Round = Round(alive: bool, log: seq<nat>, accepted: nat)

  /** What one connection sends. */
  function Sent(cursor: nat, rounds: seq<Round>): seq<Frame>
    decreases |rounds|
  {
    if rounds == [] || !rounds[0].alive then [] else
    var page := Page(rounds[0].log, cursor, PAGE_SIZE);
    if rounds[0].accepted < |page| then page[..rounds[0].accepted]
    else page + Sent(LastId(page, cursor), rounds[1..])
  }

  /** A connection, and how many of its frames reached the client. */
  datatype Connection = Connection(rounds: seq<Round>, received: nat)

  function Arrived(frames: seq<Frame>, count: nat): seq<Frame> {
    if count <= |frames| then frames[..count] else frames
  }

  /** The header a client sends: its last received id, if it has one. */
  function Resume(received: seq<Frame>): Header {
    if received == [] then Absent else Number(received[|received| - 1].id)
  }

  function CursorOf(first: nat, received: seq<Frame>): nat {
    match InitialCursor(Some(first), Resume(received)) case Ok(c) => c case Err(_) => 0
  }

  /** All a client has received over its connections, each resumed from the last received id. */
  function Received(first: nat, connections: seq<Connection>): seq<Frame> {
    if connections == [] then [] else
    var before := Received(first, connections[..|connections| - 1]);
    var c := connections[|connections| - 1];
    before + Arrived(Sent(CursorOf(first, before), c.rounds), c.received)
  }

  // ---------- what is received ----------

  /** Each frame carries the next id of what was visible when its page was read. */
  ghost predicate Linked(log: seq<nat>, frames: seq<Frame>, from: nat) {
    frames != [] ==>
      var rest, last := frames[..|frames| - 1], frames[|frames| - 1];
      && Linked(log, rest, from)
      && last.visible <= |log|
      && NextId(log[..last.visible], LastId(rest, from)) == Some(last.id)
  }

  ghost predicate ReadFrom(rounds: seq<Round>, log: seq<nat>) {
    forall i :: 0 <= i < |rounds| ==> rounds[i].log <= log
  }

  lemma {:induction false} LinkedAppend(log: seq<nat>, a: seq<Frame>, b: seq<Frame>, from: nat)
    requires Linked(log, a, from) && Linked(log, b, LastId(a, from))
    ensures Linked(log, a + b, from) && LastId(a + b, from) == LastId(b, LastId(a, from))
  {
    if b == [] {
      assert a + b == a;
    } else {
      var rest := b[..|b| - 1];
      LinkedAppend(log, a, rest, from);
      assert (a + b)[..|a + b| - 1] == a + rest;
    }
  }

  lemma {:induction false} LinkedPrefix(log: seq<nat>, frames: seq<Frame>, from: nat, n: nat)
    requires Linked(log, frames, from) && n <= |frames|
    ensures Linked(log, frames[..n], from)
  {
    if n < |frames| {
      LinkedPrefix(log, frames[..|frames| - 1], from, n);
      assert frames[..|frames| - 1][..n] == frames[..n];
    } else {
      assert frames[..n] == frames;
    }
  }

  lemma {:induction false} PageLinked(log: seq<nat>, visible: seq<nat>, from: nat, size: nat)
    requires visible <= log
    ensures Linked(log, Page(visible, from, size), from)
    decreases size
  {
    if size > 0 && NextId(visible, from).Some? {
      var head := Frame(NextId(visible, from).value, |visible|);
      PageLinked(log, visible, head.id, size - 1);
      assert log[..|visible|] == visible;
      assert [head][..0] == [];
      LinkedAppend(log, [head], Page(visible, head.id, size - 1), from);
    }
  }

  lemma {:induction false} SentLinked(log: seq<nat>, cursor: nat, rounds: seq<Round>)
    requires ReadFrom(rounds, log)
    ensures Linked(log, Sent(cursor, rounds), cursor)
    decreases |rounds|
  {
    if rounds != [] && rounds[0].alive {
      var page := Page(rounds[0].log, cursor, PAGE_SIZE);
      PageLinked(log, rounds[0].log, cursor, PAGE_SIZE);
      if rounds[0].accepted < |page| {
        LinkedPrefix(log, page, cursor, rounds[0].accepted);
      } else {
        SentLinked(log, LastId(page, cursor), rounds[1..]);
        LinkedAppend(log, page, Sent(LastId(page, cursor), rounds[1..]), cursor);
      }
    }
  }

  /** Row ids are database integers. */
  ghost predicate Ids(log: seq<nat>) {
    forall i :: 0 <= i < |log| ==> log[i] <= MAX_EVENT_CURSOR
  }

  lemma {:induction false} LinkedAscends(log: seq<nat>, frames: seq<Frame>, from: nat)
    requires Linked(log, frames, from)
    ensures from <= LastId(frames, from)
    ensures forall i :: 0 <= i < |frames| ==> from < frames[i].id <= LastId(frames, from)
    ensures forall i, j :: 0 <= i < j < |frames| ==> frames[i].id < frames[j].id
    ensures Ids(log) ==> forall i :: 0 <= i < |frames| ==> frames[i].id <= MAX_EVENT_CURSOR
  {
    if frames != [] {
      var rest, last := frames[..|frames| - 1], frames[|frames| - 1];
      LinkedAscends(log, rest, from);
      NextIdIsSmallest(log[..last.visible], LastId(rest, from));
      assert forall i :: 0 <= i < |rest| ==> frames[i] == rest[i];
      assert LastId(rest, from) < last.id;
    }
  }

  ghost predicate AllReadFrom(connections: seq<Connection>, log: seq<nat>) {
    forall i :: 0 <= i < |connections| ==> ReadFrom(connections[i].rounds, log)
  }

  /**
   Whatever the disconnections, the frames received are strictly increasing, start beyond the first
   cursor, and each carries the next id of what was visible when its page was read.
   */
  lemma {:induction false} ReceivedIsLinked(log: seq<nat>, first: nat, connections: seq<Connection>)
    requires Ids(log) && AllReadFrom(connections, log) && first <= MAX_EVENT_CURSOR
    ensures Linked(log, Received(first, connections), first)
  {
    if connections != [] {
      var c := connections[|connections| - 1];
      var before := Received(first, connections[..|connections| - 1]);
      ReceivedIsLinked(log, first, connections[..|connections| - 1]);
      LinkedAscends(log, before, first);
      var cursor := CursorOf(first, before);
      assert cursor == LastId(before, first);
      var sent := Sent(cursor, c.rounds);
      SentLinked(log, cursor, c.rounds);
      if c.received <= |sent| { LinkedPrefix(log, sent, cursor, c.received); }
      LinkedAppend(log, before, Arrived(sent, c.received), first);
    }
  }

  /** The first frame whose id is not below an id. */
  function FirstFrom(frames: seq<Frame>, id: nat): (k: nat)
    ensures k <= |frames|
    ensures forall i :: 0 <= i < k ==> frames[i].id < id
    ensures k < |frames| ==> id <= frames[k].id
  {
    if frames == [] || id <= frames[0].id then 0 else 1 + FirstFrom(frames[1..], id)
  }

  ghost predicate Distinct(log: seq<nat>) {
    forall i, j :: 0 <= i < j < |log| ==> log[i] != log[j]
  }

  lemma {:induction false} FrameLinks(log: seq<nat>, frames: seq<Frame>, from: nat, k: nat)
    requires Linked(log, frames, from) && k < |frames|
    ensures frames[k].visible <= |log|
    ensures NextId(log[..frames[k].visible], if k == 0 then from else frames[k - 1].id) == Some(frames[k].id)
  {
    if k < |frames| - 1 { FrameLinks(log, frames[..|frames| - 1], from, k); }
  }

  /**
   Exactly which rows a client misses: a row beyond the first cursor that the client has gone past was
   received if and only if it was already visible when the page that took the client to it, or past
   it, was read.
   */
  lemma ReceivedExactlyWhenVisible(log: seq<nat>, first: nat, connections: seq<Connection>, i: nat)
    requires Ids(log) && Distinct(log) && AllReadFrom(connections, log) && first <= MAX_EVENT_CURSOR
    requires var received := Received(first, connections);
             i < |log| && first < log[i] <= LastId(received, first)
    ensures var received := Received(first, connections);
            var k := FirstFrom(received, log[i]);
            k < |received| && (received[k].id == log[i] <==> i < received[k].visible)
  {
    var received := Received(first, connections);
    ReceivedIsLinked(log, first, connections);
    LinkedAscends(log, received, first);
    var k := FirstFrom(received, log[i]);
    FrameLinks(log, received, first, k);
    var seen := log[..received[k].visible];
    NextIdIsSmallest(seen, if k == 0 then first else received[k - 1].id);
    if i < received[k].visible {
      assert seen[i] == log[i];
    }
  }

  // ---------- rows that become visible in id order ----------

  ghost predicate Increasing(log: seq<nat>) {
    forall i, j :: 0 <= i < j < |log| ==> log[i] < log[j]
  }

  /** How many rows of an increasing log are not beyond a cursor. */
  function Rank(log: seq<nat>, from: nat): (n: nat)
    ensures n <= |log|
  {
    if log == [] || from < log[0] then 0 else 1 + Rank(log[1..], from)
  }

  function FrameIds(frames: seq<Frame>): seq<nat> {
    if frames == [] then [] else FrameIds(frames[..|frames| - 1]) + [frames[|frames| - 1].id]
  }

  lemma {:induction false} RankSplits(log: seq<nat>, from: nat)
    ensures forall i :: 0 <= i < Rank(log, from) ==> log[i] <= from
    ensures Rank(log, from) < |log| ==> from < log[Rank(log, from)]
  {
    if log != [] && log[0] <= from {
      RankSplits(log[1..], from);
      assert forall i :: 0 < i < |log| ==> log[i] == log[1..][i - 1];
    }
  }

  lemma RankIs(log: seq<nat>, from: nat, n: nat)
    requires Increasing(log) && n <= |log|
    requires (n > 0 ==> log[n - 1] <= from) && (n < |log| ==> from < log[n])
    ensures Rank(log, from) == n
  {
    RankSplits(log, from);
  }

  /** The next id of an increasing log is the one at the cursor's rank. */
  lemma NextIsAtRank(log: seq<nat>, visible: nat, from: nat)
    requires Increasing(log) && visible <= |log| && NextId(log[..visible], from).Some?
    ensures Rank(log, from) < |log| && NextId(log[..visible], from).value == log[Rank(log, from)]
    ensures Rank(log, log[Rank(log, from)]) == Rank(log, from) + 1
  {
    var seen, n := log[..visible], Rank(log, from);
    RankSplits(log, from);
    NextIdIsSmallest(seen, from);
    var m := NextId(seen, from).value;
    var i :| 0 <= i < |seen| && seen[i] == m;
    assert seen[i] == log[i];
    assert n <= i;
    assert seen[n] == log[n];
    RankIs(log, log[n], n + 1);
  }

  lemma {:induction false} LinkedIsSlice(log: seq<nat>, frames: seq<Frame>, from: nat)
    requires Increasing(log) && Linked(log, frames, from)
    ensures Rank(log, from) + |frames| == Rank(log, LastId(frames, from))
    ensures FrameIds(frames) == log[Rank(log, from)..Rank(log, from) + |frames|]
  {
    if frames != [] {
      var rest, last := frames[..|frames| - 1], frames[|frames| - 1];
      LinkedIsSlice(log, rest, from);
      assert rest + [last] == frames;
      SliceStep(log, rest, last, from);
    }
  }

  lemma SliceStep(log: seq<nat>, rest: seq<Frame>, last: Frame, from: nat)
    requires Increasing(log) && last.visible <= |log|
    requires NextId(log[..last.visible], LastId(rest, from)) == Some(last.id)
    requires Rank(log, from) + |rest| == Rank(log, LastId(rest, from))
    requires FrameIds(rest) == log[Rank(log, from)..Rank(log, from) + |rest|]
    ensures var frames := rest + [last];
            Rank(log, from) + |frames| == Rank(log, LastId(frames, from))
            && FrameIds(frames) == log[Rank(log, from)..Rank(log, from) + |frames|]
  {
    NextIsAtRank(log, last.visible, LastId(rest, from));
    SliceGrows(log, rest, last, Rank(log, from));
  }

  lemma SliceGrows(log: seq<nat>, rest: seq<Frame>, last: Frame, n: nat)
    requires n + |rest| < |log| && log[n + |rest|] == last.id
    requires FrameIds(rest) == log[n..n + |rest|]
    ensures FrameIds(rest + [last]) == log[n..n + |rest + [last]|]
  {
    assert (rest + [last])[..|rest|] == rest;
    assert log[n..n + |rest|] + [log[n + |rest|]] == log[n..n + |rest| + 1];
  }

  /**
   When rows become visible in increasing id order, a client has received exactly the stretch of the
   log that follows its first cursor, without gap or repeat; and everything, once a page read after its
   last id would be empty.
   */
  lemma ReceivedIsTheLog(log: seq<nat>, first: nat, connections: seq<Connection>, received: seq<Frame>)
    requires Ids(log) && Increasing(log) && AllReadFrom(connections, log) && first <= MAX_EVENT_CURSOR
    requires received == Received(first, connections)
    ensures Rank(log, first) + |received| <= |log|
    ensures FrameIds(received) == log[Rank(log, first)..Rank(log, first) + |received|]
    ensures NextId(log, LastId(received, first)).None? ==> FrameIds(received) == log[Rank(log, first)..]
  {
    ReceivedIsLinked(log, first, connections);
    LinkedIsStretch(log, received, first);
  }

  lemma LinkedIsStretch(log: seq<nat>, frames: seq<Frame>, from: nat)
    requires Increasing(log) && Linked(log, frames, from)
    ensures Rank(log, from) + |frames| <= |log|
    ensures FrameIds(frames) == log[Rank(log, from)..Rank(log, from) + |frames|]
    ensures NextId(log, LastId(frames, from)).None? ==> FrameIds(frames) == log[Rank(log, from)..]
  {
    LinkedIsSlice(log, frames, from);
    NextIdIsSmallest(log, LastId(frames, from));
    RankSplits(log, LastId(frames, from));
  }

  lemma TwoPages(low: nat, high: nat)
    requires 0 < low < high
    ensures Page([high], 0, PAGE_SIZE) == [Frame(high, 1)] && Page([high, low], high, PAGE_SIZE) == []
  {
    NextIdIsSmallest([high], 0);
    NextIdIsSmallest([high], high);
    NextIdIsSmallest([high, low], high);
    assert Page([high], high, PAGE_SIZE - 1) == [];
  }

  lemma TwoRounds(first: Round, second: Round, cursor: nat)
    requires first.alive && second.alive && |Page(first.log, cursor, PAGE_SIZE)| <= first.accepted
    requires Page(second.log, LastId(Page(first.log, cursor, PAGE_SIZE), cursor), PAGE_SIZE) == []
    ensures Sent(cursor, [first, second]) == Page(first.log, cursor, PAGE_SIZE)
  {
    var next := LastId(Page(first.log, cursor, PAGE_SIZE), cursor);
    assert [first, second][1..] == [second] && [second][1..] == [];
    assert Sent(next, [second]) == [];
    assert Page(first.log, cursor, PAGE_SIZE) + [] == Page(first.log, cursor, PAGE_SIZE);
  }

  lemma OneConnection(first: nat, c: Connection)
    ensures Received(first, [c]) == Arrived(Sent(CursorOf(first, []), c.rounds), c.received)
  {
    assert [c][..0] == [];
  }

  /** The order matters: of two rows visible in the wrong order, the later one is never sent. */
  lemma LateRowIsSkipped(low: nat, high: nat)
    requires 0 < low < high <= MAX_EVENT_CURSOR
    ensures var rounds := [Round(true, [high], PAGE_SIZE), Round(true, [high, low], PAGE_SIZE)];
            && AllReadFrom([Connection(rounds, 2)], [high, low])
            && FrameIds(Received(0, [Connection(rounds, 2)])) == [high]
  {
    var rounds := [Round(true, [high], PAGE_SIZE), Round(true, [high, low], PAGE_SIZE)];
    assert [high] <= [high, low];
    TwoPages(low, high);
    TwoRounds(rounds[0], rounds[1], 0);
    OneConnection(0, Connection(rounds, 2));
    assert FrameIds([Frame(high, 1)]) == [high] by { assert [Frame(high, 1)][..0] == []; }
  }

  /** What a connection sends from round `i` on. */
  lemma SentFrom(cursor: nat, rounds: seq<Round>, i: nat)
    requires i <= |rounds|
    ensures Sent(cursor, rounds[i..])
         == if i == |rounds| || !rounds[i].alive then [] else
            var page := Page(rounds[i].log, cursor, PAGE_SIZE);
            Arrived(page, rounds[i].accepted)
            + if rounds[i].accepted < |page| then [] else Sent(LastId(page, cursor), rounds[i + 1..])
  {
    if i < |rounds| { assert rounds[i..][1..] == rounds[i + 1..]; }
  }

  /** Where a connection stands after the frames of one page went out behind those before it. */
  lemma PageSent(sent: seq<Frame>, frames: seq<Frame>, accepted: nat, rest: seq<Frame>, from: nat)
    ensures var page := Arrived(frames, accepted);
            && LastId(sent + page, from) == LastId(page, LastId(sent, from))
            && sent + (page + rest) == (sent + page) + rest
            && (accepted >= |frames| ==> page == frames)
  {
  }

  // ---------- the stream ----------

  class Stream {
    var cursor: nat

    constructor (cursor: nat)
      ensures this.cursor == cursor
    {
      this.cursor := cursor;
    }

    /** The frames of one page go out one by one until the client is gone. */
    method SendPage(frames: seq<Frame>, accepted: nat) returns (sent: seq<Frame>)
      modifies this
      ensures sent == Arrived(frames, accepted) && cursor == LastId(sent, old(cursor))
    {
      sent := [];
      var k := 0;
      while k < |frames| && k < accepted
        invariant 0 <= k <= |frames| && k <= accepted && sent == frames[..k]
        invariant cursor == LastId(sent, old(cursor))
      {
        cursor := frames[k].id;
        sent := sent + [frames[k]];
        k := k + 1;
      }
    }

    /** The generator: it moves the cursor frame by frame, so that a client cut off anywhere can resume. */
    method Events(rounds: seq<Round>) returns (sent: seq<Frame>)
      modifies this
      ensures sent == Sent(old(cursor), rounds)
      ensures cursor == LastId(sent, old(cursor))
    {
      sent := [];
      var i := 0;
      while i < |rounds| && rounds[i].alive
        invariant 0 <= i <= |rounds|
        invariant Sent(old(cursor), rounds) == sent + Sent(cursor, rounds[i..])
        invariant cursor == LastId(sent, old(cursor))
      {
        SentFrom(cursor, rounds, i);
        var frames := Page(rounds[i].log, cursor, PAGE_SIZE);
        ghost var rest :=
          if rounds[i].accepted < |frames| then [] else Sent(LastId(frames, cursor), rounds[i + 1..]);
        PageSent(sent, frames, rounds[i].accepted, rest, old(cursor));
        var page := SendPage(frames, rounds[i].accepted);
        sent := sent + page;
        assert Sent(old(cursor), rounds) == sent + rest;
        if rounds[i].accepted < |frames| {
          return;
        }
        i := i + 1;
      }
      SentFrom(cursor, rounds, i);
    }
  }
}
