/**
 The fixed-window request limiter: a counter per identity and window in Redis, and the in-process
 window that stands in for it in development and test.
 */
module RateLimit {
  import opened Results

  /**
   How Redis behaves during one call: not configured, working, or raising at either command. A command whose
   answer is lost has been executed all the same.
   */
  datatype Redis = NotConfigured | Working | IncrementFails | IncrementAnswerLost | ExpireFails | ExpireAnswerLost

  /**
   One request: when the window was computed, when Redis served the increment (both wall-clock), and
   the process's own monotonic time.
   */
  datatype Call = Call(identity: nat, read: real, served: real, monotonic: real, redis: Redis)

  datatype Key = Key(identity: nat, window: int)

  datatype Counter = Counter(count: nat, expires: Option<real>)

  datatype Window = Window(count: nat, expires: real)

  datatype Store = Store(redis: map<Key, Counter>, development: map<nat, Window>)

  datatype Policy = Policy(limit: nat, seconds: nat, development: bool)

  function WindowOf(p: Policy, c: Call): int
    requires p.seconds > 0
  {
    c.read.Floor / p.seconds
  }

  function Start(p: Policy, window: int): real {
    (window * p.seconds) as real
  }

  /** The count a key holds at a time: an expired key is gone. */
  function Live(redis: map<Key, Counter>, key: Key, at: real): Counter {
    if key in redis && (redis[key].expires.None? || at < redis[key].expires.value) then redis[key] else Counter(0, None)
  }

  function Incremented(p: Policy, redis: map<Key, Counter>, key: Key, c: Call): Counter {
    var counter := Live(redis, key, c.served);
    if counter.count == 0
    then Counter(1, if c.redis.ExpireFails? || c.redis.IncrementAnswerLost? then None
                 else Some(c.served + p.seconds as real + 1.0))
    else counter.(count := counter.count + 1)
  }

  /** Redis has counted the request but raises before it answers with the count. */
  predicate RaisesCounted(c: Call, count: nat) {
    c.redis.IncrementAnswerLost? || ((c.redis.ExpireFails? || c.redis.ExpireAnswerLost?) && count == 1)
  }

  /** Which counter admitted a request. */
  datatype Path = Shared | InProcess

  datatype Reply = Reply(store: Store, outcome: Result<Path>)

  /** The in-process window after one more request: a new one when the last is over. */
  function Counted(p: Policy, development: map<nat, Window>, c: Call): Window {
    var last := if c.identity in development then development[c.identity] else Window(0, 0.0);
    var current := if last.expires <= c.monotonic then Window(0, c.monotonic + p.seconds as real) else last;
    current.(count := current.count + 1)
  }

  function Fallback(p: Policy, st: Store, c: Call): Reply {
    if !p.development then Reply(st, Err(RateLimitUnavailable)) else
    var counted := Counted(p, st.development, c);
    Reply(st.(development := st.development[c.identity := counted]),
          if counted.count > p.limit then Err(RateLimited) else Ok(InProcess))
  }

  function Check(p: Policy, st: Store, c: Call): Reply
    requires p.seconds > 0
  {
    if c.redis == NotConfigured || c.redis == IncrementFails then Fallback(p, st, c) else
    var key := Key(c.identity, WindowOf(p, c));
    var counter := Incremented(p, st.redis, key, c);
    var counted := st.(redis := st.redis[key := counter]);
    if RaisesCounted(c, counter.count) then Fallback(p, counted, c)
    else Reply(counted, if counter.count > p.limit then Err(RateLimited) else Ok(Shared))
  }

  // ---------- runs ----------

  /** A request let through: by which counter, in the window starting when, and at what time. */
  datatype Admission = Admission(identity: nat, path: Path, start: real, at: real)

  function AdmissionOf(p: Policy, st: Store, c: Call): Admission
    requires p.seconds > 0 && Check(p, st, c).outcome.Ok?
  {
    match Check(p, st, c).outcome.value
    case Shared => Admission(c.identity, Shared, Start(p, WindowOf(p, c)), c.read)
    case InProcess =>
      Admission(c.identity, InProcess, Check(p, st, c).store.development[c.identity].expires - p.seconds as real,
                c.monotonic)
  }

  datatype Progress = Progress(store: Store, log: seq<Admission>)

  function Advance(p: Policy, g: Progress, c: Call): Progress
    requires p.seconds > 0
  {
    Progress(Check(p, g.store, c).store,
             if Check(p, g.store, c).outcome.Ok? then g.log + [AdmissionOf(p, g.store, c)] else g.log)
  }

  function Serve(p: Policy, g: Progress, calls: seq<Call>): Progress
    requires p.seconds > 0
  {
    if calls == [] then g else Advance(p, Serve(p, g, calls[..|calls| - 1]), calls[|calls| - 1])
  }

  const EMPTY := Progress(Store(map[], map[]), [])

  /**
   The wall clock is past the epoch, Redis serves an increment at most one second after the window was
   computed, and the monotonic clock is positive and never goes back.
   */
  ghost predicate Timely(calls: seq<Call>) {
    && (forall i :: 0 <= i < |calls| ==> TimelyCall(calls[i]))
    && (forall i, j :: 0 <= i <= j < |calls| ==> calls[i].monotonic <= calls[j].monotonic)
  }

  ghost predicate TimelyCall(c: Call) {
    ServedWithin(c, 1.0) && 0.0 <= c.monotonic
  }

  predicate ServedWithin(c: Call, delay: real) {
    0.0 <= c.read <= c.served <= c.read + delay
  }

  // ---------- counting ----------

  predicate By(a: Admission, identity: nat, path: Path) {
    a.identity == identity && a.path == path
  }

  /** Admissions of one identity by one counter within one window. */
  function InWindow(log: seq<Admission>, identity: nat, path: Path, start: real): nat {
    if log == [] then 0 else
    var last := log[|log| - 1];
    InWindow(log[..|log| - 1], identity, path, start) + if By(last, identity, path) && last.start == start then 1 else 0
  }

  /** Admissions of one identity by one counter from a time on, before another. */
  function Between(log: seq<Admission>, identity: nat, path: Path, low: real, high: real): nat {
    if log == [] then 0 else
    var last := log[|log| - 1];
    Between(log[..|log| - 1], identity, path, low, high)
    + if By(last, identity, path) && low <= last.at < high then 1 else 0
  }

  ghost predicate Inside(a: Admission, seconds: nat) {
    a.start <= a.at < a.start + seconds as real
  }

  /** Two windows are the same or do not overlap. */
  ghost predicate Apart(a: Admission, b: Admission, seconds: nat) {
    a.start == b.start || a.start + seconds as real <= b.start || b.start + seconds as real <= a.start
  }

  /** Every admission lies in its window, windows of one counter do not overlap, and none is overfull. */
  ghost predicate Windowed(log: seq<Admission>, limit: nat, seconds: nat) {
    && (forall i {:trigger Inside(log[i], seconds)} :: 0 <= i < |log| ==> Inside(log[i], seconds))
    && (forall i, j {:trigger Apart(log[i], log[j], seconds)} ::
          0 <= i < |log| && 0 <= j < |log| && By(log[i], log[j].identity, log[j].path) ==>
            Apart(log[i], log[j], seconds))
    && (forall identity, path, start :: InWindow(log, identity, path, start) <= limit)
  }

  predicate Hits(a: Admission, identity: nat, path: Path, low: real, high: real) {
    By(a, identity, path) && low <= a.at < high
  }

  /** If every admission of an interval belongs to one of two windows, their counts bound it. */
  lemma {:induction false} TwoWindowsCover(log: seq<Admission>, identity: nat, path: Path, low: real, high: real,
                                           a: real, b: real)
    requires forall i :: 0 <= i < |log| && Hits(log[i], identity, path, low, high) ==>
             log[i].start == a || log[i].start == b
    ensures Between(log, identity, path, low, high)
         <= InWindow(log, identity, path, a) + InWindow(log, identity, path, b)
  {
    if log != [] {
      TwoWindowsCover(log[..|log| - 1], identity, path, low, high, a, b);
      assert Hits(log[|log| - 1], identity, path, low, high) ==> log[|log| - 1].start == a || log[|log| - 1].start == b;
    }
  }

  /** An interval of one window's length meets at most two windows. */
  lemma WindowsBoundIntervals(log: seq<Admission>, limit: nat, seconds: nat, identity: nat, path: Path, t: real)
    requires Windowed(log, limit, seconds)
    ensures Between(log, identity, path, t, t + seconds as real) <= 2 * limit
  {
    var high := t + seconds as real;
    if i :| 0 <= i < |log| && Hits(log[i], identity, path, t, high) {
      if j :| 0 <= j < |log| && Hits(log[j], identity, path, t, high) && log[j].start != log[i].start {
        forall k | 0 <= k < |log| && Hits(log[k], identity, path, t, high)
          ensures log[k].start == log[i].start || log[k].start == log[j].start
        {
          assert Inside(log[i], seconds) && Inside(log[j], seconds) && Inside(log[k], seconds);
          assert Apart(log[i], log[j], seconds) && Apart(log[i], log[k], seconds) && Apart(log[j], log[k], seconds);
        }
        TwoWindowsCover(log, identity, path, t, high, log[i].start, log[j].start);
      } else {
        TwoWindowsCover(log, identity, path, t, high, log[i].start, log[i].start);
      }
    } else {
      TwoWindowsCover(log, identity, path, t, high, 0.0, 0.0);
    }
  }

  /** If every admission of an interval belongs to one of three windows, their counts bound it. */
  lemma {:induction false} ThreeWindowsCover(log: seq<Admission>, identity: nat, path: Path, low: real, high: real,
                                             a: real, b: real, c: real)
    requires forall i :: 0 <= i < |log| && Hits(log[i], identity, path, low, high) ==> log[i].start in {a, b, c}
    ensures Between(log, identity, path, low, high)
         <= InWindow(log, identity, path, a) + InWindow(log, identity, path, b) + InWindow(log, identity, path, c)
  {
    if log != [] {
      ThreeWindowsCover(log[..|log| - 1], identity, path, low, high, a, b, c);
      assert Hits(log[|log| - 1], identity, path, low, high) ==> log[|log| - 1].start in {a, b, c};
    }
  }

  /** No four windows of one counter meet an interval of two windows' length. */
  lemma FourIsTooMany(a: Admission, b: Admission, c: Admission, d: Admission, seconds: nat, low: real)
    requires Inside(a, seconds) && Inside(b, seconds) && Inside(c, seconds) && Inside(d, seconds)
    requires Apart(a, b, seconds) && Apart(a, c, seconds) && Apart(a, d, seconds)
    requires Apart(b, c, seconds) && Apart(b, d, seconds) && Apart(c, d, seconds)
    requires low <= a.at < low + 2.0 * seconds as real && low <= b.at < low + 2.0 * seconds as real
    requires low <= c.at < low + 2.0 * seconds as real && low <= d.at < low + 2.0 * seconds as real
    requires a.start != b.start && c.start != a.start && c.start != b.start
    ensures d.start in {a.start, b.start, c.start}
  {
  }

  /** An interval of two windows' length meets at most three windows. */
  lemma ThreeWindowsBound(log: seq<Admission>, limit: nat, seconds: nat, identity: nat, path: Path, low: real,
                          high: real)
    requires Windowed(log, limit, seconds) && high <= low + 2.0 * seconds as real
    ensures Between(log, identity, path, low, high) <= 3 * limit
  {
    if i :| 0 <= i < |log| && Hits(log[i], identity, path, low, high) {
      var a := log[i].start;
      if j :| 0 <= j < |log| && Hits(log[j], identity, path, low, high) && log[j].start != a {
        var b := log[j].start;
        if k :| 0 <= k < |log| && Hits(log[k], identity, path, low, high) && log[k].start != a && log[k].start != b {
          forall m | 0 <= m < |log| && Hits(log[m], identity, path, low, high)
            ensures log[m].start in {a, b, log[k].start} {
            PairsApart(log, limit, seconds, i, j, k, m);
            FourIsTooMany(log[i], log[j], log[k], log[m], seconds, low);
          }
          ThreeWindowsCover(log, identity, path, low, high, a, b, log[k].start);
        } else {
          ThreeWindowsCover(log, identity, path, low, high, a, b, b);
          TwoWindowsCover(log, identity, path, low, high, a, b);
        }
      } else {
        TwoWindowsCover(log, identity, path, low, high, a, a);
      }
    } else {
      TwoWindowsCover(log, identity, path, low, high, 0.0, 0.0);
    }
  }

  lemma PairsApart(log: seq<Admission>, limit: nat, seconds: nat, i: nat, j: nat, k: nat, m: nat)
    requires Windowed(log, limit, seconds) && i < |log| && j < |log| && k < |log| && m < |log|
    requires By(log[j], log[i].identity, log[i].path) && By(log[k], log[i].identity, log[i].path)
    requires By(log[m], log[i].identity, log[i].path)
    ensures Inside(log[i], seconds) && Inside(log[j], seconds) && Inside(log[k], seconds) && Inside(log[m], seconds)
    ensures Apart(log[i], log[j], seconds) && Apart(log[i], log[k], seconds) && Apart(log[i], log[m], seconds)
    ensures Apart(log[j], log[k], seconds) && Apart(log[j], log[m], seconds) && Apart(log[k], log[m], seconds)
  {
  }

  // ---------- what every run keeps ----------

  /** Windows computed from the clock are the multiples of their length. */
  lemma WindowContains(p: Policy, c: Call)
    requires p.seconds > 0
    ensures Start(p, WindowOf(p, c)) <= c.read < Start(p, WindowOf(p, c)) + p.seconds as real
  {
    var n := c.read.Floor;
    assert n == n / p.seconds * p.seconds + n % p.seconds;
  }

  lemma WindowsApart(p: Policy, v: int, w: int)
    requires v < w
    ensures Start(p, v) + p.seconds as real <= Start(p, w)
  {
    Multiples(v, w, p.seconds);
  }

  lemma {:induction false} Multiples(v: int, w: int, n: nat)
    requires v < w
    ensures v * n + n <= w * n
    decreases w - v
  {
    if v + 1 < w { Multiples(v + 1, w, n); }
  }

  function CountOf(redis: map<Key, Counter>, key: Key): nat {
    if key in redis then redis[key].count else 0
  }

  /** A key does not expire before every timely request of its window has been served. */
  predicate Outlives(p: Policy, key: Key, counter: Counter) {
    counter.count > 0
      && (counter.expires.None? || Start(p, key.window) + p.seconds as real + 1.0 <= counter.expires.value)
  }

  /** The shared counters have counted every admission of their windows. */
  ghost predicate SharedInv(p: Policy, redis: map<Key, Counter>, log: seq<Admission>) {
    && (forall key :: key in redis ==> Outlives(p, key, redis[key]))
    && (forall key: Key :: InWindow(log, key.identity, Shared, Start(p, key.window)) <= CountOf(redis, key))
    && (forall i :: 0 <= i < |log| && log[i].path == Shared ==> SharedStart(p, log[i]))
  }

  ghost predicate SharedStart(p: Policy, a: Admission) {
    exists w :: a.start == Start(p, w)
  }

  /** An earlier in-process admission belongs to the current window or to one that ended before it began. */
  ghost predicate Superseded(p: Policy, a: Admission, w: Window) {
    a.start + p.seconds as real == w.expires || a.start + 2.0 * p.seconds as real <= w.expires
  }

  /** The in-process window of an identity has counted every admission since it began. */
  ghost predicate LocalInv(p: Policy, development: map<nat, Window>, log: seq<Admission>) {
    AllSuperseded(p, development, log) && CountedAll(p, development, log)
  }

  ghost predicate AllSuperseded(p: Policy, development: map<nat, Window>, log: seq<Admission>) {
    forall i :: 0 <= i < |log| && log[i].path == InProcess ==>
      log[i].identity in development && Superseded(p, log[i], development[log[i].identity])
  }

  ghost predicate CountedAll(p: Policy, development: map<nat, Window>, log: seq<Admission>) {
    forall id :: id in development ==>
      InWindow(log, id, InProcess, development[id].expires - p.seconds as real) <= development[id].count
  }

  ghost predicate LocalClock(p: Policy, development: map<nat, Window>, now: real) {
    forall id :: id in development ==> development[id].expires <= now + p.seconds as real
  }

  lemma InWindowAppend(log: seq<Admission>, a: Admission, identity: nat, path: Path, start: real)
    ensures InWindow(log + [a], identity, path, start)
         == InWindow(log, identity, path, start) + if By(a, identity, path) && a.start == start then 1 else 0
  {
    assert (log + [a])[..|log|] == log;
  }

  lemma {:induction false} NoneInWindow(log: seq<Admission>, identity: nat, path: Path, start: real)
    requires forall i :: 0 <= i < |log| && By(log[i], identity, path) ==> log[i].start != start
    ensures InWindow(log, identity, path, start) == 0
  {
    if log != [] { NoneInWindow(log[..|log| - 1], identity, path, start); }
  }

  lemma WindowedAppend(log: seq<Admission>, a: Admission, limit: nat, seconds: nat)
    requires Windowed(log, limit, seconds) && Inside(a, seconds)
    requires forall i :: 0 <= i < |log| && By(log[i], a.identity, a.path) ==> Apart(log[i], a, seconds)
    requires InWindow(log, a.identity, a.path, a.start) < limit
    ensures Windowed(log + [a], limit, seconds)
  {
    forall identity, path, start ensures InWindow(log + [a], identity, path, start) <= limit {
      InWindowAppend(log, a, identity, path, start);
    }
  }

  /** Redis counts a timely request: the key is still there if any request of its window came before. */
  lemma CountShared(p: Policy, redis: map<Key, Counter>, log: seq<Admission>, c: Call)
    requires p.seconds > 0 && SharedInv(p, redis, log) && ServedWithin(c, 1.0)
    ensures var key := Key(c.identity, WindowOf(p, c));
            var counter := Incremented(p, redis, key, c);
            SharedInv(p, redis[key := counter], log) && counter.count == CountOf(redis, key) + 1
  {
    WindowContains(p, c);
    var key := Key(c.identity, WindowOf(p, c));
    var counter := Incremented(p, redis, key, c);
    if key in redis { assert Outlives(p, key, redis[key]); }
    assert Outlives(p, key, counter);
    forall k: Key ensures InWindow(log, k.identity, Shared, Start(p, k.window)) <= CountOf(redis[key := counter], k) {
      assert InWindow(log, k.identity, Shared, Start(p, k.window)) <= CountOf(redis, k);
    }
  }

  /** A request that Redis counted within the limit is logged. */
  lemma AdmitShared(p: Policy, redis: map<Key, Counter>, log: seq<Admission>, c: Call)
    requires p.seconds > 0 && SharedInv(p, redis, log) && Windowed(log, p.limit, p.seconds)
    requires var key := Key(c.identity, WindowOf(p, c));
             InWindow(log, c.identity, Shared, Start(p, key.window)) < CountOf(redis, key) <= p.limit
    ensures var a := Admission(c.identity, Shared, Start(p, WindowOf(p, c)), c.read);
            SharedInv(p, redis, log + [a]) && Windowed(log + [a], p.limit, p.seconds)
  {
    var w := WindowOf(p, c);
    var a := Admission(c.identity, Shared, Start(p, w), c.read);
    WindowContains(p, c);
    forall i | 0 <= i < |log| && By(log[i], a.identity, a.path) ensures Apart(log[i], a, p.seconds) {
      assert SharedStart(p, log[i]);
      var v :| log[i].start == Start(p, v);
      if v < w { WindowsApart(p, v, w); } else if w < v { WindowsApart(p, w, v); }
    }
    WindowedAppend(log, a, p.limit, p.seconds);
    forall k: Key ensures InWindow(log + [a], k.identity, Shared, Start(p, k.window)) <= CountOf(redis, k) {
      InWindowAppend(log, a, k.identity, Shared, Start(p, k.window));
      if k.window < w { WindowsApart(p, k.window, w); } else if w < k.window { WindowsApart(p, w, k.window); }
    }
    assert SharedStart(p, a);
  }

  lemma SharedUntouched(p: Policy, redis: map<Key, Counter>, log: seq<Admission>, a: Admission)
    requires SharedInv(p, redis, log) && a.path == InProcess
    ensures SharedInv(p, redis, log + [a])
  {
    forall k: Key ensures InWindow(log + [a], k.identity, Shared, Start(p, k.window)) <= CountOf(redis, k) {
      InWindowAppend(log, a, k.identity, Shared, Start(p, k.window));
    }
  }

  lemma LocalUntouched(p: Policy, development: map<nat, Window>, log: seq<Admission>, a: Admission)
    requires LocalInv(p, development, log) && a.path == Shared
    ensures LocalInv(p, development, log + [a])
  {
    forall id | id in development
      ensures InWindow(log + [a], id, InProcess, development[id].expires - p.seconds as real) <= development[id].count
    {
      InWindowAppend(log, a, id, InProcess, development[id].expires - p.seconds as real);
    }
  }

  /** The in-process window counts one request, restarting when the last window is over. */
  lemma CountLocal(p: Policy, development: map<nat, Window>, log: seq<Admission>, c: Call)
    requires p.seconds > 0 && 0.0 <= c.monotonic
    requires LocalInv(p, development, log) && LocalClock(p, development, c.monotonic)
    ensures var w := Counted(p, development, c);
            && LocalInv(p, development[c.identity := w], log)
            && LocalClock(p, development[c.identity := w], c.monotonic)
            && c.monotonic < w.expires <= c.monotonic + p.seconds as real
            && InWindow(log, c.identity, InProcess, w.expires - p.seconds as real) < w.count
  {
    var id, now := c.identity, c.monotonic;
    if id !in development || development[id].expires <= now {
      forall i | 0 <= i < |log| && By(log[i], id, InProcess) ensures log[i].start != now {
        assert Superseded(p, log[i], development[id]);
      }
      NoneInWindow(log, id, InProcess, now);
      assert Counted(p, development, c) == Window(1, now + p.seconds as real);
    }
  }

  lemma AdmitLocal(p: Policy, development: map<nat, Window>, log: seq<Admission>, c: Call)
    requires p.seconds > 0 && c.identity in development
    requires LocalInv(p, development, log) && Windowed(log, p.limit, p.seconds)
    requires var w := development[c.identity];
             && c.monotonic < w.expires <= c.monotonic + p.seconds as real
             && InWindow(log, c.identity, InProcess, w.expires - p.seconds as real) < w.count <= p.limit
    ensures var a := Admission(c.identity, InProcess, development[c.identity].expires - p.seconds as real, c.monotonic);
            LocalInv(p, development, log + [a]) && Windowed(log + [a], p.limit, p.seconds)
  {
    var w := development[c.identity];
    var a := Admission(c.identity, InProcess, w.expires - p.seconds as real, c.monotonic);
    LocalAppend(p, development, log, a);
    forall i | 0 <= i < |log| && By(log[i], a.identity, a.path) ensures Apart(log[i], a, p.seconds) {
      SupersededApart(p, log[i], a, w);
    }
    WindowedAppend(log, a, p.limit, p.seconds);
  }

  lemma SupersededApart(p: Policy, earlier: Admission, a: Admission, w: Window)
    requires Superseded(p, earlier, w) && a.start == w.expires - p.seconds as real
    ensures Apart(earlier, a, p.seconds)
  {
  }

  lemma LocalAppend(p: Policy, development: map<nat, Window>, log: seq<Admission>, a: Admission)
    requires LocalInv(p, development, log) && a.path == InProcess && a.identity in development
    requires a.start == development[a.identity].expires - p.seconds as real
    requires InWindow(log, a.identity, InProcess, a.start) < development[a.identity].count
    ensures LocalInv(p, development, log + [a])
  {
    assert Superseded(p, a, development[a.identity]);
    assert AllSuperseded(p, development, log + [a]);
    CountedAppend(p, development, log, a);
  }

  lemma CountedAppend(p: Policy, development: map<nat, Window>, log: seq<Admission>, a: Admission)
    requires CountedAll(p, development, log) && a.identity in development
    requires a.start == development[a.identity].expires - p.seconds as real
    requires InWindow(log, a.identity, InProcess, a.start) < development[a.identity].count
    ensures CountedAll(p, development, log + [a])
  {
    forall id | id in development
      ensures InWindow(log + [a], id, InProcess, development[id].expires - p.seconds as real) <= development[id].count
    {
      InWindowAppend(log, a, id, InProcess, development[id].expires - p.seconds as real);
    }
  }

  ghost predicate Inv(p: Policy, g: Progress, now: real) {
    && SharedInv(p, g.store.redis, g.log)
    && LocalInv(p, g.store.development, g.log) && LocalClock(p, g.store.development, now)
    && Windowed(g.log, p.limit, p.seconds)
    && (!p.development ==> forall i :: 0 <= i < |g.log| ==> g.log[i].path == Shared)
  }

  function LocalAdmission(p: Policy, development: map<nat, Window>, c: Call): Admission {
    Admission(c.identity, InProcess, Counted(p, development, c).expires - p.seconds as real, c.monotonic)
  }

  /** The store after the in-process window has counted a request. */
  function Grown(p: Policy, st: Store, c: Call): Store {
    st.(development := st.development[c.identity := Counted(p, st.development, c)])
  }

  lemma GrownKeeps(p: Policy, g: Progress, c: Call)
    requires p.seconds > 0 && Inv(p, g, c.monotonic) && 0.0 <= c.monotonic
    ensures Inv(p, Progress(Grown(p, g.store, c), g.log), c.monotonic)
    ensures NewCount(p, g.log, c, Counted(p, g.store.development, c))
  {
    CountLocal(p, g.store.development, g.log, c);
  }

  /** A window that has just counted a request counts one more than it has admitted. */
  predicate NewCount(p: Policy, log: seq<Admission>, c: Call, w: Window) {
    && c.monotonic < w.expires <= c.monotonic + p.seconds as real
    && InWindow(log, c.identity, InProcess, w.expires - p.seconds as real) < w.count
  }

  lemma LocalAdmitted(p: Policy, g: Progress, c: Call, w: Window)
    requires p.development && p.seconds > 0 && Inv(p, g, c.monotonic)
    requires c.identity in g.store.development && g.store.development[c.identity] == w
    requires NewCount(p, g.log, c, w) && w.count <= p.limit
    ensures var a := Admission(c.identity, InProcess, w.expires - p.seconds as real, c.monotonic);
            Inv(p, g.(log := g.log + [a]), c.monotonic)
  {
    AdmitLocal(p, g.store.development, g.log, c);
    SharedUntouched(p, g.store.redis, g.log,
                    Admission(c.identity, InProcess, w.expires - p.seconds as real, c.monotonic));
  }

  /** One request falling back on the in-process window. */
  function FellBack(p: Policy, g: Progress, c: Call): Progress {
    if !p.development then g
    else Progress(Grown(p, g.store, c),
                  if Counted(p, g.store.development, c).count <= p.limit
                  then g.log + [LocalAdmission(p, g.store.development, c)] else g.log)
  }

  lemma FallbackKeeps(p: Policy, g: Progress, c: Call)
    requires p.seconds > 0 && Inv(p, g, c.monotonic) && 0.0 <= c.monotonic
    ensures Inv(p, FellBack(p, g, c), c.monotonic)
  {
    if p.development {
      var grown := Progress(Grown(p, g.store, c), g.log);
      GrownKeeps(p, g, c);
      FellBackIs(p, g, c, grown);
      LocalDecided(p, grown, c, Counted(p, g.store.development, c));
    }
  }

  lemma FellBackIs(p: Policy, g: Progress, c: Call, grown: Progress)
    requires p.development && grown == Progress(Grown(p, g.store, c), g.log)
    ensures FellBack(p, g, c) == LocallyDecided(p, grown, c, Counted(p, g.store.development, c))
    ensures c.identity in grown.store.development
    ensures grown.store.development[c.identity] == Counted(p, g.store.development, c)
  {
  }

  /** What becomes of a request that the in-process window `w` has just counted. */
  function LocallyDecided(p: Policy, grown: Progress, c: Call, w: Window): Progress {
    if w.count > p.limit then grown
    else grown.(log := grown.log + [Admission(c.identity, InProcess, w.expires - p.seconds as real, c.monotonic)])
  }

  lemma LocalDecided(p: Policy, grown: Progress, c: Call, w: Window)
    requires p.development && p.seconds > 0 && Inv(p, grown, c.monotonic)
    requires c.identity in grown.store.development && grown.store.development[c.identity] == w
    requires NewCount(p, grown.log, c, w)
    ensures Inv(p, LocallyDecided(p, grown, c, w), c.monotonic)
  {
    if w.count <= p.limit { LocalAdmitted(p, grown, c, w); }
  }

  /** The store after Redis has counted a request. */
  function Recorded(p: Policy, st: Store, c: Call): Store
    requires p.seconds > 0
  {
    var key := Key(c.identity, WindowOf(p, c));
    st.(redis := st.redis[key := Incremented(p, st.redis, key, c)])
  }

  lemma SharedKeeps(p: Policy, g: Progress, c: Call)
    requires p.seconds > 0 && TimelyCall(c) && Inv(p, g, c.monotonic)
    ensures Inv(p, Progress(Recorded(p, g.store, c), g.log), c.monotonic)
    ensures var key := Key(c.identity, WindowOf(p, c));
            Incremented(p, g.store.redis, key, c).count <= p.limit ==>
              Inv(p, Progress(Recorded(p, g.store, c),
                              g.log + [Admission(c.identity, Shared, Start(p, WindowOf(p, c)), c.read)]), c.monotonic)
  {
    var key := Key(c.identity, WindowOf(p, c));
    CountShared(p, g.store.redis, g.log, c);
    if Incremented(p, g.store.redis, key, c).count <= p.limit {
      AdmitShared(p, Recorded(p, g.store, c).redis, g.log, c);
      LocalUntouched(p, g.store.development, g.log, Admission(c.identity, Shared, Start(p, WindowOf(p, c)), c.read));
    }
  }

  /** The three ways a request is handled. */
  lemma AdvanceCases(p: Policy, g: Progress, c: Call)
    requires p.seconds > 0
    ensures var counted := Progress(Recorded(p, g.store, c), g.log);
            var count := Incremented(p, g.store.redis, Key(c.identity, WindowOf(p, c)), c).count;
            Advance(p, g, c) ==
              if c.redis == NotConfigured || c.redis == IncrementFails then FellBack(p, g, c)
              else if RaisesCounted(c, count) then FellBack(p, counted, c)
              else if count <= p.limit then
                counted.(log := g.log + [Admission(c.identity, Shared, Start(p, WindowOf(p, c)), c.read)])
              else counted
  {
  }

  lemma AdvanceKeeps(p: Policy, g: Progress, c: Call)
    requires p.seconds > 0 && TimelyCall(c) && Inv(p, g, c.monotonic)
    ensures Inv(p, Advance(p, g, c), c.monotonic)
  {
    AdvanceCases(p, g, c);
    SharedKeeps(p, g, c);
    FallbackKeeps(p, g, c);
    FallbackKeeps(p, Progress(Recorded(p, g.store, c), g.log), c);
  }

  lemma {:induction false} ServeKeeps(p: Policy, calls: seq<Call>)
    requires p.seconds > 0 && Timely(calls)
    ensures Inv(p, Serve(p, EMPTY, calls), if calls == [] then 0.0 else calls[|calls| - 1].monotonic)
  {
    if calls != [] {
      var earlier, c := calls[..|calls| - 1], calls[|calls| - 1];
      ServeKeeps(p, earlier);
      var g := Serve(p, EMPTY, earlier);
      assert forall i :: 0 <= i < |earlier| ==> earlier[i].monotonic <= c.monotonic && 0.0 <= c.monotonic;
      assert Inv(p, g, c.monotonic);
      AdvanceKeeps(p, g, c);
    }
  }

  /**
   In every run each counter admits an identity at most `limit` times in one of its windows and at most
   twice that in any interval of a window's length. Outside development and test only Redis admits.
   */
  lemma EveryRunIsLimited(p: Policy, calls: seq<Call>, log: seq<Admission>, identity: nat, path: Path, t: real)
    requires p.seconds > 0 && Timely(calls) && log == Serve(p, EMPTY, calls).log
    ensures InWindow(log, identity, path, t) <= p.limit
    ensures Between(log, identity, path, t, t + p.seconds as real) <= 2 * p.limit
    ensures path == InProcess && !p.development ==> Between(log, identity, path, t, t + p.seconds as real) == 0
  {
    ServeKeeps(p, calls);
    LimitedLog(p, log, identity, path, t);
  }

  /** How many requests of an identity Redis served and admitted from a time on, before another. */
  function ServedBetween(p: Policy, calls: seq<Call>, identity: nat, low: real, high: real): nat
    requires p.seconds > 0
  {
    if calls == [] then 0 else
    var earlier, c := calls[..|calls| - 1], calls[|calls| - 1];
    ServedBetween(p, earlier, identity, low, high)
    + if Check(p, Serve(p, EMPTY, earlier).store, c).outcome == Ok(Shared) && c.identity == identity
      && low <= c.served < high
      then 1 else 0
  }

  /** A request served in an interval chose its window at most a second before it. */
  lemma {:induction false} ServedWereRead(p: Policy, calls: seq<Call>, identity: nat, low: real, high: real)
    requires p.seconds > 0 && Timely(calls)
    ensures ServedBetween(p, calls, identity, low, high)
         <= Between(Serve(p, EMPTY, calls).log, identity, Shared, low - 1.0, high)
  {
    if calls != [] {
      var earlier, c := calls[..|calls| - 1], calls[|calls| - 1];
      ServedWereRead(p, earlier, identity, low, high);
      ReadStep(p, Serve(p, EMPTY, earlier), c, identity, low - 1.0, high);
      assert TimelyCall(c);
    }
  }

  lemma ReadStep(p: Policy, g: Progress, c: Call, identity: nat, low: real, high: real)
    requires p.seconds > 0
    ensures Between(Advance(p, g, c).log, identity, Shared, low, high)
         == Between(g.log, identity, Shared, low, high)
            + if Check(p, g.store, c).outcome == Ok(Shared) && c.identity == identity && low <= c.read < high
              then 1 else 0
  {
    if Check(p, g.store, c).outcome.Ok? {
      assert (g.log + [AdmissionOf(p, g.store, c)])[..|g.log|] == g.log;
    }
  }

  /**
   Counted by the time at which Redis serves, an interval of a window's length can meet three windows: in every
   run it sees at most three times the limit.
   */
  lemma ServedIsLimited(p: Policy, calls: seq<Call>, identity: nat, t: real)
    requires p.seconds > 0 && Timely(calls)
    ensures ServedBetween(p, calls, identity, t, t + p.seconds as real) <= 3 * p.limit
  {
    var log := ServedInLog(p, calls, identity, t, t + p.seconds as real);
    ServedBound(p, log, ServedBetween(p, calls, identity, t, t + p.seconds as real), identity, t);
  }

  lemma ServedBound(p: Policy, log: seq<Admission>, n: nat, identity: nat, t: real)
    requires p.seconds > 0 && Windowed(log, p.limit, p.seconds)
    requires n <= Between(log, identity, Shared, t - 1.0, t + p.seconds as real)
    ensures n <= 3 * p.limit
  {
    ThreeWindowsBound(log, p.limit, p.seconds, identity, Shared, t - 1.0, t + p.seconds as real);
  }

  lemma ServedInLog(p: Policy, calls: seq<Call>, identity: nat, low: real, high: real) returns (log: seq<Admission>)
    requires p.seconds > 0 && Timely(calls)
    ensures Windowed(log, p.limit, p.seconds)
    ensures ServedBetween(p, calls, identity, low, high) <= Between(log, identity, Shared, low - 1.0, high)
  {
    log := RunLog(p, calls);
    ServedWereRead(p, calls, identity, low, high);
  }

  lemma RunLog(p: Policy, calls: seq<Call>) returns (log: seq<Admission>)
    requires p.seconds > 0 && Timely(calls)
    ensures log == Serve(p, EMPTY, calls).log && Windowed(log, p.limit, p.seconds)
  {
    var g := RunStore(p, calls);
    log := g.log;
  }

  /** What a timely run ends with. */
  lemma RunStore(p: Policy, calls: seq<Call>) returns (g: Progress)
    requires p.seconds > 0 && Timely(calls)
    ensures g == Serve(p, EMPTY, calls)
    ensures SharedInv(p, g.store.redis, g.log) && Windowed(g.log, p.limit, p.seconds)
  {
    ServeKeeps(p, calls);
    g := Serve(p, EMPTY, calls);
  }

  lemma LimitedLog(p: Policy, log: seq<Admission>, identity: nat, path: Path, t: real)
    requires Windowed(log, p.limit, p.seconds)
    requires !p.development ==> forall i :: 0 <= i < |log| ==> log[i].path == Shared
    ensures InWindow(log, identity, path, t) <= p.limit
    ensures Between(log, identity, path, t, t + p.seconds as real) <= 2 * p.limit
    ensures path == InProcess && !p.development ==> Between(log, identity, path, t, t + p.seconds as real) == 0
  {
    WindowsBoundIntervals(log, p.limit, p.seconds, identity, path, t);
    if path == InProcess && !p.development {
      NoneBy(log, identity, path, t, t + p.seconds as real);
    }
  }

  lemma {:induction false} NoneBy(log: seq<Admission>, identity: nat, path: Path, low: real, high: real)
    requires forall i :: 0 <= i < |log| ==> log[i].path != path
    ensures Between(log, identity, path, low, high) == 0
  {
    if log != [] { NoneBy(log[..|log| - 1], identity, path, low, high); }
  }

  // ---------- the bound is reached ----------

  function Copies<T>(x: T, k: nat): seq<T> {
    if k == 0 then [] else Copies(x, k - 1) + [x]
  }

  lemma {:induction false} ServeAppend(p: Policy, g: Progress, a: seq<Call>, b: seq<Call>)
    requires p.seconds > 0
    ensures Serve(p, g, a + b) == Serve(p, Serve(p, g, a), b)
  {
    if b == [] {
      assert a + b == a;
    } else {
      ServeAppend(p, g, a, b[..|b| - 1]);
      assert (a + b)[..|a + b| - 1] == a + b[..|b| - 1];
    }
  }

  /** What `k` admitted copies of a request in a fresh window leave behind. */
  ghost predicate Bursted(p: Policy, g: Progress, after: Progress, c: Call, k: nat)
    requires p.seconds > 0
  {
    var key := Key(c.identity, WindowOf(p, c));
    && after.log == g.log + Copies(Admission(c.identity, Shared, Start(p, key.window), c.read), k)
    && after.store.redis == (if k == 0 then g.store.redis
                             else g.store.redis[key := Counter(k, Some(c.served + p.seconds as real + 1.0))])
  }

  /** Requests repeated in a fresh window are all admitted up to the limit. */
  lemma {:induction false} Burst(p: Policy, g: Progress, c: Call, k: nat)
    requires p.seconds > 0 && c.redis == Working && k <= p.limit
    requires Key(c.identity, WindowOf(p, c)) !in g.store.redis
    ensures Bursted(p, g, Serve(p, g, Copies(c, k)), c, k)
  {
    if k > 0 {
      Burst(p, g, c, k - 1);
      CopiesLength(c, k - 1);
      assert Copies(c, k)[..k - 1] == Copies(c, k - 1);
      BurstStep(p, g, Serve(p, g, Copies(c, k - 1)), c, k);
    }
  }

  lemma BurstStep(p: Policy, g: Progress, before: Progress, c: Call, k: nat)
    requires p.seconds > 0 && c.redis == Working && 0 < k <= p.limit
    requires Key(c.identity, WindowOf(p, c)) !in g.store.redis && Bursted(p, g, before, c, k - 1)
    ensures Bursted(p, g, Advance(p, before, c), c, k)
  {
    AdvanceCases(p, before, c);
  }

  lemma {:induction false} CopiesLength<T>(x: T, k: nat)
    ensures |Copies(x, k)| == k
  {
    if k > 0 { CopiesLength(x, k - 1); }
  }

  lemma {:induction false} BetweenCopies(log: seq<Admission>, a: Admission, k: nat, low: real, high: real)
    requires low <= a.at < high
    ensures Between(log + Copies(a, k), a.identity, a.path, low, high)
         == Between(log, a.identity, a.path, low, high) + k
  {
    if k == 0 {
      assert log + Copies(a, 0) == log;
    } else {
      BetweenCopies(log, a, k - 1, low, high);
      var longer := log + Copies(a, k);
      assert longer[..|longer| - 1] == log + Copies(a, k - 1);
    }
  }

  function BurstCall(read: real): Call {
    Call(0, read, read, read, Working)
  }

  /** Twice the limit can get through within half a second: at the end of one window and the start of the next. */
  lemma TwiceTheLimitIsReached(p: Policy)
    requires p.seconds > 0
    ensures var early, late := BurstCall(p.seconds as real - 0.5), BurstCall(p.seconds as real);
            var calls := Copies(early, p.limit) + Copies(late, p.limit);
            Between(Serve(p, EMPTY, calls).log, 0, Shared, early.read, early.read + p.seconds as real) == 2 * p.limit
  {
    var early, late := BurstCall(p.seconds as real - 0.5), BurstCall(p.seconds as real);
    FirstWindows(p);
    BurstsFill(p, EMPTY, early, late, early.read, early.read + p.seconds as real);
  }

  /** Two bursts in two windows fill any interval they both fall in. */
  lemma BurstsFill(p: Policy, g: Progress, a: Call, b: Call, low: real, high: real)
    requires p.seconds > 0 && a.redis == Working && b.redis == Working && a.identity == b.identity
    requires WindowOf(p, a) != WindowOf(p, b) && g.log == [] && g.store.redis == map[]
    requires low <= a.read < high && low <= b.read < high
    ensures Between(Serve(p, g, Copies(a, p.limit) + Copies(b, p.limit)).log, a.identity, Shared, low, high)
            == 2 * p.limit
  {
    TwoBursts(p, g, a, b);
    var first := Admission(a.identity, Shared, Start(p, WindowOf(p, a)), a.read);
    var second := Admission(a.identity, Shared, Start(p, WindowOf(p, b)), b.read);
    BetweenCopies(g.log, first, p.limit, low, high);
    BetweenCopies(g.log + Copies(first, p.limit), second, p.limit, low, high);
  }

  /** Two bursts in two fresh windows are admitted in full. */
  lemma TwoBursts(p: Policy, g: Progress, a: Call, b: Call)
    requires p.seconds > 0 && a.redis == Working && b.redis == Working
    requires var first, second := Key(a.identity, WindowOf(p, a)), Key(b.identity, WindowOf(p, b));
             first != second && first !in g.store.redis && second !in g.store.redis
    ensures Serve(p, g, Copies(a, p.limit) + Copies(b, p.limit)).log
         == g.log + Copies(Admission(a.identity, Shared, Start(p, WindowOf(p, a)), a.read), p.limit)
                  + Copies(Admission(b.identity, Shared, Start(p, WindowOf(p, b)), b.read), p.limit)
  {
    Burst(p, g, a, p.limit);
    Burst(p, Serve(p, g, Copies(a, p.limit)), b, p.limit);
    ServeAppend(p, g, Copies(a, p.limit), Copies(b, p.limit));
  }

  lemma FirstWindows(p: Policy)
    requires p.seconds > 0
    ensures WindowOf(p, BurstCall(p.seconds as real - 0.5)) == 0 && WindowOf(p, BurstCall(p.seconds as real)) == 1
  {
    assert (p.seconds as real - 0.5).Floor == p.seconds - 1;
    assert (p.seconds as real).Floor == p.seconds;
    assert (p.seconds - 1) / p.seconds == 0;
  }

  lemma {:induction false} CopiesAre<T>(x: T, k: nat, i: nat)
    requires i < k
    ensures |Copies(x, k)| == k && Copies(x, k)[i] == x
  {
    CopiesLength(x, k - 1);
    if i < k - 1 { CopiesAre(x, k - 1, i); }
  }

  lemma BurstsAreTimely(a: Call, b: Call, k: nat)
    requires TimelyCall(a) && TimelyCall(b) && a.monotonic <= b.monotonic
    ensures Timely(Copies(a, k) + Copies(b, k))
  {
    var calls := Copies(a, k) + Copies(b, k);
    CopiesLength(a, k);
    CopiesLength(b, k);
    forall i | 0 <= i < |calls| ensures calls[i] == if i < k then a else b {
      if i < k { CopiesAre(a, k, i); } else { CopiesAre(b, k, i - k); }
    }
  }

  // ---------- exactly which intervals hold no more than the limit ----------

  ghost predicate IntervalHolds(p: Policy, calls: seq<Call>, identity: nat, t: real)
    requires p.seconds > 0
  {
    Timely(calls) ==> Between(Serve(p, EMPTY, calls).log, identity, Shared, t, t + p.seconds as real) <= p.limit
  }

  /** If every admission of an interval belongs to one window, its count bounds it. */
  lemma {:induction false} OneWindowCovers(log: seq<Admission>, identity: nat, path: Path, low: real, high: real,
                                           a: real)
    requires forall i :: 0 <= i < |log| && Hits(log[i], identity, path, low, high) ==> log[i].start == a
    ensures Between(log, identity, path, low, high) <= InWindow(log, identity, path, a)
  {
    if log != [] {
      OneWindowCovers(log[..|log| - 1], identity, path, low, high, a);
      assert Hits(log[|log| - 1], identity, path, low, high) ==> log[|log| - 1].start == a;
    }
  }

  lemma AlignedIsLimited(p: Policy, log: seq<Admission>, redis: map<Key, Counter>, identity: nat, w: int)
    requires p.seconds > 0 && Windowed(log, p.limit, p.seconds) && SharedInv(p, redis, log)
    ensures Between(log, identity, Shared, Start(p, w), Start(p, w) + p.seconds as real) <= p.limit
  {
    var low := Start(p, w);
    forall i | 0 <= i < |log| && Hits(log[i], identity, Shared, low, low + p.seconds as real)
      ensures log[i].start == low {
      assert Inside(log[i], p.seconds) && SharedStart(p, log[i]);
      var v :| log[i].start == Start(p, v);
      if v < w { WindowsApart(p, v, w); } else if w < v { WindowsApart(p, w, v); }
    }
    OneWindowCovers(log, identity, Shared, low, low + p.seconds as real, low);
    assert InWindow(log, identity, Shared, low) <= p.limit;
  }

  lemma WindowOfStart(p: Policy, w: int)
    requires p.seconds > 0
    ensures WindowOf(p, BurstCall(Start(p, w))) == w
  {
    WindowContains(p, BurstCall(Start(p, w)));
    var v := WindowOf(p, BurstCall(Start(p, w)));
    if v < w { WindowsApart(p, v, w); } else if w < v { WindowsApart(p, w, v); }
  }

  lemma UnalignedIsExceeded(p: Policy, t: real)
    requires p.seconds > 0 && p.limit > 0 && 0.0 <= t && t != Start(p, WindowOf(p, BurstCall(t)))
    ensures var late := BurstCall(Start(p, WindowOf(p, BurstCall(t)) + 1));
            var calls := Copies(BurstCall(t), p.limit) + Copies(late, p.limit);
            Timely(calls) && Between(Serve(p, EMPTY, calls).log, 0, Shared, t, t + p.seconds as real) == 2 * p.limit
  {
    var early := BurstCall(t);
    var v := WindowOf(p, early);
    var late := BurstCall(Start(p, v + 1));
    WindowContains(p, early);
    WindowsApart(p, v, v + 1);
    NextStart(p, v);
    WindowOfStart(p, v + 1);
    BurstsAreTimely(early, late, p.limit);
    BurstsFill(p, EMPTY, early, late, t, t + p.seconds as real);
  }

  lemma NextStart(p: Policy, v: int)
    ensures Start(p, v + 1) == Start(p, v) + p.seconds as real
  {
    assert (v + 1) * p.seconds == v * p.seconds + p.seconds;
  }

  /**
   Exactly which intervals of a window's length the shared counter keeps within the limit in every run:
   those that begin where a window begins. In any other one twice the limit can get through.
   */
  lemma LimitedExactlyWhenAligned(p: Policy, t: real)
    requires p.seconds > 0 && p.limit > 0 && 0.0 <= t
    ensures (forall calls, identity :: IntervalHolds(p, calls, identity, t)) <==> exists w :: t == Start(p, w)
  {
    if w :| t == Start(p, w) {
      forall calls, identity ensures IntervalHolds(p, calls, identity, t) {
        AlignedHolds(p, calls, identity, w);
      }
    } else {
      var calls := UnalignedFails(p, t);
    }
  }

  lemma AlignedHolds(p: Policy, calls: seq<Call>, identity: nat, w: int)
    requires p.seconds > 0
    ensures IntervalHolds(p, calls, identity, Start(p, w))
  {
    if Timely(calls) {
      var g := RunStore(p, calls);
      AlignedIsLimited(p, g.log, g.store.redis, identity, w);
    }
  }

  lemma UnalignedFails(p: Policy, t: real) returns (calls: seq<Call>)
    requires p.seconds > 0 && p.limit > 0 && 0.0 <= t && t != Start(p, WindowOf(p, BurstCall(t)))
    ensures !IntervalHolds(p, calls, 0, t)
  {
    var late := BurstCall(Start(p, WindowOf(p, BurstCall(t)) + 1));
    calls := Copies(BurstCall(t), p.limit) + Copies(late, p.limit);
    UnalignedIsExceeded(p, t);
  }

  // ---------- the in-process counter, sharply ----------

  /** A window whose first admission opened it. */
  ghost predicate Opened(log: seq<Admission>, identity: nat, start: real) {
    exists j :: 0 <= j < |log| && By(log[j], identity, InProcess) && log[j].start == start && log[j].at == start
  }

  /** Every in-process window, current or past, was opened by an admission. */
  ghost predicate AllOpened(p: Policy, g: Progress) {
    && (forall id :: id in g.store.development ==>
        Opened(g.log, id, g.store.development[id].expires - p.seconds as real))
    && (forall i :: 0 <= i < |g.log| && g.log[i].path == InProcess ==> Opened(g.log, g.log[i].identity, g.log[i].start))
  }

  lemma OpenedAppend(log: seq<Admission>, a: Admission, identity: nat, start: real)
    requires Opened(log, identity, start)
    ensures Opened(log + [a], identity, start)
  {
    var j :| 0 <= j < |log| && By(log[j], identity, InProcess) && log[j].start == start && log[j].at == start;
    assert (log + [a])[j] == log[j];
  }

  lemma LoggedOpened(p: Policy, g: Progress, a: Admission)
    requires AllOpened(p, g) && (a.path == InProcess ==> Opened(g.log + [a], a.identity, a.start))
    ensures AllOpened(p, g.(log := g.log + [a]))
  {
    forall id | id in g.store.development
      ensures Opened(g.log + [a], id, g.store.development[id].expires - p.seconds as real)
    {
      OpenedAppend(g.log, a, id, g.store.development[id].expires - p.seconds as real);
    }
    forall i | 0 <= i < |g.log + [a]| && (g.log + [a])[i].path == InProcess
      ensures Opened(g.log + [a], (g.log + [a])[i].identity, (g.log + [a])[i].start)
    {
      if i < |g.log| { OpenedAppend(g.log, a, g.log[i].identity, g.log[i].start); }
    }
  }

  /** The window in which a request is counted has been opened, by an earlier admission or by this one. */
  lemma WindowOpened(p: Policy, g: Progress, c: Call, w: Window, a: Admission)
    requires p.limit > 0 && AllOpened(p, g) && 0.0 <= c.monotonic
    requires w == Counted(p, g.store.development, c) && a == LocalAdmission(p, g.store.development, c)
    ensures w.count <= p.limit ==> Opened(g.log + [a], c.identity, a.start)
    ensures w.count > p.limit ==> Opened(g.log, c.identity, a.start)
  {
    var id := c.identity;
    if id in g.store.development && c.monotonic < g.store.development[id].expires {
      assert w.expires == g.store.development[id].expires;
      OpenedAppend(g.log, a, id, a.start);
    } else {
      assert w.count == 1 && a.start == c.monotonic;
      assert By((g.log + [a])[|g.log|], id, InProcess);
    }
  }

  lemma FellBackOpened(p: Policy, g: Progress, c: Call)
    requires p.limit > 0 && AllOpened(p, g) && 0.0 <= c.monotonic
    ensures AllOpened(p, FellBack(p, g, c))
  {
    if p.development {
      var w, a := Counted(p, g.store.development, c), LocalAdmission(p, g.store.development, c);
      var id, after := c.identity, FellBack(p, g, c);
      WindowOpened(p, g, c, w, a);
      if w.count <= p.limit { LoggedOpened(p, g, a); }
      assert after.store.development == g.store.development[id := w];
    }
  }

  lemma AdvanceOpened(p: Policy, g: Progress, c: Call)
    requires p.seconds > 0 && p.limit > 0 && AllOpened(p, g) && 0.0 <= c.monotonic
    ensures AllOpened(p, Advance(p, g, c))
  {
    AdvanceCases(p, g, c);
    var counted := Progress(Recorded(p, g.store, c), g.log);
    assert AllOpened(p, counted);
    FellBackOpened(p, g, c);
    FellBackOpened(p, counted, c);
    LoggedOpened(p, counted, Admission(c.identity, Shared, Start(p, WindowOf(p, c)), c.read));
  }

  lemma {:induction false} ServeOpened(p: Policy, calls: seq<Call>)
    requires p.seconds > 0 && p.limit > 0 && forall i :: 0 <= i < |calls| ==> 0.0 <= calls[i].monotonic
    ensures AllOpened(p, Serve(p, EMPTY, calls))
  {
    if calls != [] {
      ServeOpened(p, calls[..|calls| - 1]);
      AdvanceOpened(p, Serve(p, EMPTY, calls[..|calls| - 1]), calls[|calls| - 1]);
    }
  }

  /** Two windows cover an interval with one admission to spare when one of theirs lies outside it. */
  lemma {:induction false} TwoWindowsButOne(log: seq<Admission>, identity: nat, path: Path, low: real, high: real,
                                            a: real, b: real, j: nat)
    requires j < |log| && By(log[j], identity, path) && log[j].start == a && !(low <= log[j].at < high)
    requires forall i :: 0 <= i < |log| && Hits(log[i], identity, path, low, high) ==>
             log[i].start == a || log[i].start == b
    ensures Between(log, identity, path, low, high) + 1
         <= InWindow(log, identity, path, a) + InWindow(log, identity, path, b)
  {
    var rest, last := log[..|log| - 1], log[|log| - 1];
    assert Hits(last, identity, path, low, high) ==> last.start == a || last.start == b;
    if j < |log| - 1 {
      TwoWindowsButOne(rest, identity, path, low, high, a, b, j);
    } else {
      TwoWindowsCover(rest, identity, path, low, high, a, b);
    }
  }

  /**
   The in-process counter, whose windows begin with a request, admits at most one less than twice the
   limit in any interval of a window's length.
   */
  lemma InProcessIsSharper(p: Policy, calls: seq<Call>, log: seq<Admission>, identity: nat, t: real)
    requires p.seconds > 0 && p.limit > 0 && Timely(calls) && log == Serve(p, EMPTY, calls).log
    ensures Between(log, identity, InProcess, t, t + p.seconds as real) <= 2 * p.limit - 1
  {
    ServeKeeps(p, calls);
    ServeOpened(p, calls);
    OpenedWindowsBound(log, p.limit, p.seconds, identity, t);
  }

  lemma OpenedWindowsBound(log: seq<Admission>, limit: nat, seconds: nat, identity: nat, t: real)
    requires limit > 0 && Windowed(log, limit, seconds)
    requires forall i :: 0 <= i < |log| && log[i].path == InProcess ==> Opened(log, log[i].identity, log[i].start)
    ensures Between(log, identity, InProcess, t, t + seconds as real) <= 2 * limit - 1
  {
    var high := t + seconds as real;
    if i, j :| 0 <= i < |log| && 0 <= j < |log| && Hits(log[i], identity, InProcess, t, high)
               && Hits(log[j], identity, InProcess, t, high) && log[i].start < log[j].start {
      forall k | 0 <= k < |log| && Hits(log[k], identity, InProcess, t, high)
        ensures log[k].start == log[i].start || log[k].start == log[j].start
      {
        assert Inside(log[i], seconds) && Inside(log[j], seconds) && Inside(log[k], seconds);
        assert Apart(log[i], log[j], seconds) && Apart(log[i], log[k], seconds) && Apart(log[j], log[k], seconds);
      }
      assert Inside(log[i], seconds) && Inside(log[j], seconds) && Apart(log[i], log[j], seconds);
      assert Opened(log, identity, log[i].start);
      var first :| 0 <= first < |log| && By(log[first], identity, InProcess)
                   && log[first].start == log[i].start && log[first].at == log[i].start;
      TwoWindowsButOne(log, identity, InProcess, t, high, log[i].start, log[j].start, first);
      assert InWindow(log, identity, InProcess, log[i].start) <= limit;
      assert InWindow(log, identity, InProcess, log[j].start) <= limit;
    } else if i :| 0 <= i < |log| && Hits(log[i], identity, InProcess, t, high) {
      OneWindowCovers(log, identity, InProcess, t, high, log[i].start);
      assert InWindow(log, identity, InProcess, log[i].start) <= limit;
    } else {
      OneWindowCovers(log, identity, InProcess, t, high, 0.0);
      assert InWindow(log, identity, InProcess, 0.0) <= limit;
    }
  }

  // ---------- exactly how late Redis may serve ----------

  ghost predicate WorkingWithin(calls: seq<Call>, delay: real) {
    forall i :: 0 <= i < |calls| ==> ServedWithin(calls[i], delay) && calls[i].redis == Working
  }

  /** Calls served within a delay of their window's computation never overfill the window. */
  ghost predicate WindowHolds(p: Policy, calls: seq<Call>, identity: nat, w: int, delay: real)
    requires p.seconds > 0
  {
    WorkingWithin(calls, delay) ==>
      InWindow(Serve(p, EMPTY, calls).log, identity, Shared, Start(p, w)) <= p.limit
  }

  /** A request served when the key of its window has just expired starts the count anew. */
  lemma LateServiceOverfills(p: Policy, delay: real)
    requires p.seconds > 0 && p.limit > 0 && 1.0 < delay <= p.seconds as real + 1.0
    ensures var end := p.seconds as real + 1.0;
            !WindowHolds(p, Copies(BurstCall(0.0), p.limit) + [Call(0, end - delay, end, end, Working)], 0, 0, delay)
  {
    var end := p.seconds as real + 1.0;
    var first, late := BurstCall(0.0), Call(0, end - delay, end, end, Working);
    var burst := Copies(first, p.limit);
    var calls := burst + [late];
    FirstKey(p, first);
    FirstKey(p, late);
    Burst(p, EMPTY, first, p.limit);
    CopiesLength(first, p.limit);
    assert calls[..p.limit] == burst;
    ExpiredStep(p, EMPTY, Serve(p, EMPTY, burst), first, late);
    LateBurstWorks(first, late, p.limit, delay);
  }

  lemma LateBurstWorks(first: Call, late: Call, k: nat, delay: real)
    requires ServedWithin(first, delay) && ServedWithin(late, delay) && first.redis == late.redis == Working
    ensures WorkingWithin(Copies(first, k) + [late], delay)
  {
    var calls := Copies(first, k) + [late];
    CopiesLength(first, k);
    forall i | 0 <= i < |calls| ensures ServedWithin(calls[i], delay) && calls[i].redis == Working {
      if i < k { CopiesAre(first, k, i); }
    }
  }

  /** After a full burst a request of the same window, served as the key expires, is admitted too. */
  lemma ExpiredStep(p: Policy, g: Progress, before: Progress, first: Call, late: Call)
    requires p.seconds > 0 && p.limit > 0 && g.log == [] && late.redis == Working && late.identity == first.identity
    requires WindowOf(p, late) == WindowOf(p, first) && first.served + p.seconds as real + 1.0 <= late.served
    requires Bursted(p, g, before, first, p.limit)
    ensures InWindow(Advance(p, before, late).log, first.identity, Shared, Start(p, WindowOf(p, first))) == p.limit + 1
  {
    AdvanceCases(p, before, late);
    var start := Start(p, WindowOf(p, first));
    InWindowCopies(g.log, Admission(first.identity, Shared, start, first.read), p.limit);
    InWindowAppend(before.log, Admission(first.identity, Shared, start, late.read), first.identity, Shared, start);
  }

  lemma FirstKey(p: Policy, c: Call)
    requires p.seconds > 0 && 0.0 <= c.read < p.seconds as real
    ensures WindowOf(p, c) == 0
  {
  }

  lemma {:induction false} InWindowCopies(log: seq<Admission>, a: Admission, k: nat)
    ensures InWindow(log + Copies(a, k), a.identity, a.path, a.start) == InWindow(log, a.identity, a.path, a.start) + k
  {
    if k == 0 {
      assert log + Copies(a, 0) == log;
    } else {
      InWindowCopies(log, a, k - 1);
      var longer := log + Copies(a, k);
      assert longer[..|longer| - 1] == log + Copies(a, k - 1);
    }
  }

  /** Exactly which delays a window survives: those of at most the second by which its key outlives it. */
  lemma WindowSurvivesOneSecond(p: Policy, delay: real)
    requires p.seconds > 0 && p.limit > 0 && 0.0 <= delay
    ensures (forall calls, identity, w :: WindowHolds(p, calls, identity, w, delay)) <==> delay <= 1.0
  {
    if delay <= 1.0 {
      forall calls, identity, w ensures WindowHolds(p, calls, identity, w, delay) {
        if WorkingWithin(calls, delay) {
          SharedOnly(p, calls);
          assert InWindow(Serve(p, EMPTY, calls).log, identity, Shared, Start(p, w)) <= p.limit;
        }
      }
    } else {
      var most := p.seconds as real + 1.0;
      var d := if delay < most then delay else most;
      LateServiceOverfills(p, d);
      assert !WindowHolds(p, Copies(BurstCall(0.0), p.limit) + [Call(0, most - d, most, most, Working)], 0, 0, delay);
    }
  }

  /** While Redis works the in-process clock does not matter. */
  lemma {:induction false} SharedOnly(p: Policy, calls: seq<Call>)
    requires p.seconds > 0 && WorkingWithin(calls, 1.0)
    ensures var g := Serve(p, EMPTY, calls);
            SharedInv(p, g.store.redis, g.log) && Windowed(g.log, p.limit, p.seconds)
  {
    if calls != [] {
      var g, c := Serve(p, EMPTY, calls[..|calls| - 1]), calls[|calls| - 1];
      SharedOnly(p, calls[..|calls| - 1]);
      AdvanceCases(p, g, c);
      CountShared(p, g.store.redis, g.log, c);
      if Incremented(p, g.store.redis, Key(c.identity, WindowOf(p, c)), c).count <= p.limit {
        AdmitShared(p, Recorded(p, g.store, c).redis, g.log, c);
      }
    }
  }

  // ---------- no request is rejected before the limit ----------

  function AtMost(n: nat, limit: nat): nat {
    if n < limit then n else limit
  }

  /** As many requests were admitted in each window as were counted, up to the limit. */
  ghost predicate SharedFull(p: Policy, redis: map<Key, Counter>, log: seq<Admission>) {
    forall key: Key :: InWindow(log, key.identity, Shared, Start(p, key.window)) == AtMost(CountOf(redis, key), p.limit)
  }

  ghost predicate LocalFull(p: Policy, development: map<nat, Window>, log: seq<Admission>) {
    forall id :: id in development ==>
      InWindow(log, id, InProcess, development[id].expires - p.seconds as real)
        == AtMost(development[id].count, p.limit)
  }

  lemma SharedFullStep(p: Policy, redis: map<Key, Counter>, log: seq<Admission>, c: Call)
    requires p.seconds > 0 && SharedInv(p, redis, log) && SharedFull(p, redis, log) && ServedWithin(c, 1.0)
    ensures var key := Key(c.identity, WindowOf(p, c));
            var counter := Incremented(p, redis, key, c);
            var a := Admission(c.identity, Shared, Start(p, key.window), c.read);
            SharedFull(p, redis[key := counter], if counter.count <= p.limit then log + [a] else log)
  {
    CountShared(p, redis, log, c);
    var key := Key(c.identity, WindowOf(p, c));
    var counter := Incremented(p, redis, key, c);
    var a := Admission(c.identity, Shared, Start(p, key.window), c.read);
    var longer := if counter.count <= p.limit then log + [a] else log;
    forall k: Key
      ensures InWindow(longer, k.identity, Shared, Start(p, k.window))
              == AtMost(CountOf(redis[key := counter], k), p.limit)
    {
      assert InWindow(log, k.identity, Shared, Start(p, k.window)) == AtMost(CountOf(redis, k), p.limit);
      InWindowAppend(log, a, k.identity, Shared, Start(p, k.window));
      if k.window < key.window { WindowsApart(p, k.window, key.window); }
      if key.window < k.window { WindowsApart(p, key.window, k.window); }
    }
  }

  lemma {:induction false} WorkingFull(p: Policy, calls: seq<Call>)
    requires p.seconds > 0 && WorkingWithin(calls, 1.0)
    ensures var g := Serve(p, EMPTY, calls); SharedFull(p, g.store.redis, g.log)
  {
    if calls != [] {
      var earlier, c := calls[..|calls| - 1], calls[|calls| - 1];
      WorkingFull(p, earlier);
      SharedOnly(p, earlier);
      AdvanceCases(p, Serve(p, EMPTY, earlier), c);
      SharedFullStep(p, Serve(p, EMPTY, earlier).store.redis, Serve(p, EMPTY, earlier).log, c);
    }
  }

  /** While Redis works, a request is rejected exactly if its window has admitted as many as the limit. */
  lemma RejectedExactlyWhenFull(p: Policy, calls: seq<Call>, c: Call)
    requires p.seconds > 0 && WorkingWithin(calls, 1.0) && ServedWithin(c, 1.0) && c.redis == Working
    ensures var g := Serve(p, EMPTY, calls);
            Check(p, g.store, c).outcome
            == if InWindow(g.log, c.identity, Shared, Start(p, WindowOf(p, c))) < p.limit then Ok(Shared)
               else Err(RateLimited)
  {
    var g := Serve(p, EMPTY, calls);
    WorkingFull(p, calls);
    SharedOnly(p, calls);
    CountShared(p, g.store.redis, g.log, c);
    var key := Key(c.identity, WindowOf(p, c));
    assert InWindow(g.log, key.identity, Shared, Start(p, key.window)) == AtMost(CountOf(g.store.redis, key), p.limit);
  }

  lemma LocalFullCounted(p: Policy, development: map<nat, Window>, log: seq<Admission>, c: Call)
    requires p.seconds > 0 && 0.0 <= c.monotonic && LocalClock(p, development, c.monotonic)
    requires LocalInv(p, development, log) && LocalFull(p, development, log)
    ensures var w := Counted(p, development, c);
            && c.monotonic < w.expires <= c.monotonic + p.seconds as real && w.count > 0
            && InWindow(log, c.identity, InProcess, w.expires - p.seconds as real) == AtMost(w.count - 1, p.limit)
  {
    CountLocal(p, development, log, c);
    var id, now := c.identity, c.monotonic;
    if id !in development || development[id].expires <= now {
      forall i | 0 <= i < |log| && By(log[i], id, InProcess) ensures log[i].start != now {
        assert Superseded(p, log[i], development[id]);
      }
      NoneInWindow(log, id, InProcess, now);
      assert Counted(p, development, c) == Window(1, now + p.seconds as real);
    }
  }

  lemma LocalFullStep(p: Policy, development: map<nat, Window>, log: seq<Admission>, c: Call)
    requires p.seconds > 0 && 0.0 <= c.monotonic && LocalClock(p, development, c.monotonic)
    requires LocalInv(p, development, log) && LocalFull(p, development, log)
    ensures var w := Counted(p, development, c);
            var a := LocalAdmission(p, development, c);
            LocalFull(p, development[c.identity := w], if w.count <= p.limit then log + [a] else log)
  {
    LocalFullCounted(p, development, log, c);
    LocalFullPut(p, development, log, c.identity, Counted(p, development, c), LocalAdmission(p, development, c));
  }

  lemma LocalFullPut(p: Policy, development: map<nat, Window>, log: seq<Admission>, id: nat, w: Window, a: Admission)
    requires LocalFull(p, development, log) && w.count > 0
    requires By(a, id, InProcess) && a.start == w.expires - p.seconds as real
    requires InWindow(log, id, InProcess, a.start) == AtMost(w.count - 1, p.limit)
    ensures LocalFull(p, development[id := w], if w.count <= p.limit then log + [a] else log)
  {
    var longer := if w.count <= p.limit then log + [a] else log;
    var after := development[id := w];
    forall other | other in after
      ensures InWindow(longer, other, InProcess, after[other].expires - p.seconds as real)
           == AtMost(after[other].count, p.limit)
    {
      if other == id {
        InWindowAppend(log, a, id, InProcess, a.start);
      } else {
        OthersWindow(log, a, other, development[other].expires - p.seconds as real);
      }
    }
  }

  lemma OthersWindow(log: seq<Admission>, a: Admission, other: nat, start: real)
    requires !By(a, other, InProcess)
    ensures InWindow(log + [a], other, InProcess, start) == InWindow(log, other, InProcess, start)
  {
    InWindowAppend(log, a, other, InProcess, start);
  }

  lemma LocalFullShared(p: Policy, development: map<nat, Window>, log: seq<Admission>, a: Admission)
    requires LocalFull(p, development, log) && a.path == Shared
    ensures LocalFull(p, development, log + [a])
  {
    forall id | id in development
      ensures InWindow(log + [a], id, InProcess, development[id].expires - p.seconds as real)
           == AtMost(development[id].count, p.limit)
    {
      OthersWindow(log, a, id, development[id].expires - p.seconds as real);
    }
  }

  lemma AdvanceFull(p: Policy, g: Progress, c: Call)
    requires p.seconds > 0 && TimelyCall(c) && LocalClock(p, g.store.development, c.monotonic)
    requires LocalInv(p, g.store.development, g.log) && LocalFull(p, g.store.development, g.log)
    ensures LocalFull(p, Advance(p, g, c).store.development, Advance(p, g, c).log)
  {
    AdvanceCases(p, g, c);
    LocalFullStep(p, g.store.development, g.log, c);
    LocalFullShared(p, g.store.development, g.log, Admission(c.identity, Shared, Start(p, WindowOf(p, c)), c.read));
  }

  lemma {:induction false} ServeFull(p: Policy, calls: seq<Call>)
    requires p.seconds > 0 && Timely(calls)
    ensures var g := Serve(p, EMPTY, calls); LocalFull(p, g.store.development, g.log)
  {
    if calls != [] {
      var earlier, c := calls[..|calls| - 1], calls[|calls| - 1];
      ServeFull(p, earlier);
      LocalBefore(p, calls);
      AdvanceFull(p, Serve(p, EMPTY, earlier), c);
    }
  }

  lemma LocalBefore(p: Policy, calls: seq<Call>)
    requires p.seconds > 0 && Timely(calls) && calls != []
    ensures var g, c := Serve(p, EMPTY, calls[..|calls| - 1]), calls[|calls| - 1];
            LocalInv(p, g.store.development, g.log) && LocalClock(p, g.store.development, c.monotonic)
  {
    ServeKeeps(p, calls[..|calls| - 1]);
  }

  /** The in-process counter, too, rejects exactly if the window of the request has admitted as many as the limit. */
  lemma RejectedInProcessWhenFull(p: Policy, calls: seq<Call>, c: Call) returns (start: real)
    requires p.seconds > 0 && p.development && Timely(calls + [c])
    ensures start <= c.monotonic < start + p.seconds as real
    ensures var g := Serve(p, EMPTY, calls);
            Fallback(p, g.store, c).outcome
            == if InWindow(g.log, c.identity, InProcess, start) < p.limit then Ok(InProcess) else Err(RateLimited)
  {
    var all := calls + [c];
    assert all[..|all| - 1] == calls;
    ServeFull(p, calls);
    LocalBefore(p, all);
    var g := Serve(p, EMPTY, calls);
    LocalFullCounted(p, g.store.development, g.log, c);
    start := Counted(p, g.store.development, c).expires - p.seconds as real;
  }

  // ---------- the limiter ----------

  class RateLimiter {
    const policy: Policy
    /** The keys of this limiter in Redis, and the windows it keeps itself. */
    var redis: map<Key, Counter>
    var developmentCounts: map<nat, Window>

    constructor (limit: nat, seconds: nat, development: bool)
      requires seconds > 0
      ensures policy == Policy(limit, seconds, development) && Snapshot() == EMPTY.store
    {
      policy := Policy(limit, seconds, development);
      redis, developmentCounts := map[], map[];
    }

    function Snapshot(): Store
      reads this
    {
      Store(redis, developmentCounts)
    }

    /** Increment and, on the first request of a window, expire; the count unless either raises. */
    method CountInRedis(c: Call) returns (answer: Option<nat>)
      requires policy.seconds > 0 && !c.redis.NotConfigured? && !c.redis.IncrementFails?
      modifies this`redis
      ensures var key := Key(c.identity, WindowOf(policy, c));
              var counter := Incremented(policy, old(redis), key, c);
              redis == old(redis)[key := counter]
              && answer == if RaisesCounted(c, counter.count) then None else Some(counter.count)
    {
      var key := Key(c.identity, c.read.Floor / policy.seconds);
      if key in redis && redis[key].expires.Some? && redis[key].expires.value <= c.served {
        redis := redis - {key};
      }
      var count := if key in redis then redis[key].count + 1 else 1;
      var expires := if key in redis then redis[key].expires else None;
      if count == 1 {
        expires := if c.redis.IncrementAnswerLost? || c.redis.ExpireFails? then None
                   else Some(c.served + policy.seconds as real + 1.0);
      }
      redis := redis[key := Counter(count, expires)];
      assert redis == old(redis)[key := Counter(count, expires)];
      var raised := c.redis.IncrementAnswerLost? || (count == 1 && (c.redis.ExpireFails? || c.redis.ExpireAnswerLost?));
      answer := if raised then None else Some(count);
    }

    method Admit(c: Call) returns (outcome: Result<Path>)
      requires policy.seconds > 0
      modifies this`redis, this`developmentCounts
      ensures Reply(Snapshot(), outcome) == Check(policy, old(Snapshot()), c)
    {
      if c.redis != NotConfigured && c.redis != IncrementFails {
        var answer := CountInRedis(c);
        if answer.Some? {
          return if answer.value > policy.limit then Err(RateLimited) else Ok(Shared);
        }
      }
      if !policy.development {
        return Err(RateLimitUnavailable);
      }
      var window := if c.identity in developmentCounts then developmentCounts[c.identity] else Window(0, 0.0);
      if window.expires <= c.monotonic {
        window := Window(0, c.monotonic + policy.seconds as real);
      }
      window := window.(count := window.count + 1);
      developmentCounts := developmentCounts[c.identity := window];
      outcome := if window.count > policy.limit then Err(RateLimited) else Ok(InProcess);
    }
  }
}
