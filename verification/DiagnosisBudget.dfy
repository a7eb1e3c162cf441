/**
 Admission of model calls and the diagnosis transaction: the per-incident call budget, the circuit
 breaker over recent failures, and what every run of transactions keeps.
 */
module DiagnosisBudget {
  import opened Results
  import opened DiagnosisRouting

  /** One recorded model call; only diagnoses write them. */
  datatype Invocation = Invocation(incident: nat, failed: bool, at: int)

  datatype Diagnosis = Diagnosis(incident: nat, outcome: Outcome)

  datatype Store = Store(invocations: seq<Invocation>, diagnoses: seq<Diagnosis>)

  datatype Settings = Settings(enabled: bool, maxCalls: nat, threshold: nat, window: nat, maxChars: nat, router: Router)

  /** The limits the configuration allows. */
  predicate ValidSettings(s: Settings) {
    1 <= s.maxCalls <= 3 && 2 <= s.threshold <= 20 && 30 <= s.window <= 3600
  }

  /**
   One transaction: when it is admitted and when its rows are written, the context (none when it cannot
   be built) with its size as text, and the provider's replies.
   */
  datatype Request = Request(incident: nat, now: int, done: int, reuse: bool, context: Option<Context>, chars: nat,
                             replies: seq<Reply>)

  // ---------- admission ----------

  function Calls(log: seq<Invocation>, incident: nat): nat {
    if log == [] then 0
    else Calls(log[..|log| - 1], incident) + if log[|log| - 1].incident == incident then 1 else 0
  }

  /** Whether each call from a time on failed, oldest first. */
  function Recent(log: seq<Invocation>, cutoff: int): seq<bool> {
    if log == [] then [] else
    Recent(log[..|log| - 1], cutoff) + if log[|log| - 1].at >= cutoff then [log[|log| - 1].failed] else []
  }

  /** The last `threshold` recent calls exist and all failed. */
  predicate CircuitIsOpen(recent: seq<bool>, threshold: nat) {
    |recent| >= threshold && forall i :: |recent| - threshold <= i < |recent| ==> recent[i]
  }

  datatype Admission = Refused(code: Failure) | Admitted(calls: nat)

  function Min(a: nat, b: nat): nat {
    if a < b then a else b
  }

  function Admit(s: Settings, log: seq<Invocation>, incident: nat, now: int): Admission {
    if s.maxCalls <= Calls(log, incident) then Refused(CallBudgetExhausted)
    else if CircuitIsOpen(Recent(log, now - s.window), s.threshold) then Refused(CircuitOpen)
    else Admitted(Min(s.maxCalls - Calls(log, incident), 3))
  }

  // ---------- the transaction ----------

  function Latest(diagnoses: seq<Diagnosis>, incident: nat): Option<Diagnosis> {
    if diagnoses == [] then None
    else if diagnoses[|diagnoses| - 1].incident == incident then Some(diagnoses[|diagnoses| - 1])
    else Latest(diagnoses[..|diagnoses| - 1], incident)
  }

  /** Why no model is called, or how many calls may be made. */
  function Gate(s: Settings, st: Store, q: Request): Admission {
    if !s.enabled then Refused(Disabled) else
    var admission := Admit(s, st.invocations, q.incident, q.now);
    if admission.Refused? then admission
    else if q.context.None? then Refused(ContextInvalid)
    else if q.chars > s.maxChars then Refused(EvidenceBudgetExceeded)
    else admission
  }

  function Rows(incident: nat, attempts: seq<Attempt>, at: int): (rows: seq<Invocation>)
    ensures |rows| == |attempts|
    ensures forall i :: 0 <= i < |rows| ==> rows[i] == Invocation(incident, attempts[i].error.Some?, at)
  {
    if attempts == [] then []
    else
      Rows(incident, attempts[..|attempts| - 1], at)
      + [Invocation(incident, attempts[|attempts| - 1].error.Some?, at)]
  }

  function OutcomeOf(s: Settings, st: Store, q: Request): Outcome {
    match Gate(s, st, q)
    case Refused(code) => Unavailable(false, [], code)
    case Admitted(calls) =>
      (match q.context
       case Some(c) => Diagnose(s.router, c, true, calls, q.replies)
       case None => Unavailable(false, [], ContextInvalid))
  }

  /** The store after the transaction, and the record it answers with. */
  function DiagnoseAndStore(s: Settings, st: Store, q: Request): (Store, Diagnosis) {
    if Reuses(st, q) then (st, Latest(st.diagnoses, q.incident).value) else
    var outcome := OutcomeOf(s, st, q);
    (Store(st.invocations + Rows(q.incident, outcome.attempts, q.done),
           st.diagnoses + [Diagnosis(q.incident, outcome)]),
     Diagnosis(q.incident, outcome))
  }

  function RunAll(s: Settings, st: Store, requests: seq<Request>): Store {
    if requests == [] then st
    else DiagnoseAndStore(s, RunAll(s, st, requests[..|requests| - 1]), requests[|requests| - 1]).0
  }

  const EMPTY := Store([], [])

  /** The transactions follow one another in time. */
  ghost predicate Serialized(requests: seq<Request>) {
    && (forall i :: 0 <= i < |requests| ==> requests[i].now <= requests[i].done)
    && (forall i, j :: 0 <= i < j < |requests| ==> requests[i].done <= requests[j].now)
  }

  // ---------- the budget ----------

  lemma {:induction false} CallsAppend(log: seq<Invocation>, rows: seq<Invocation>, incident: nat)
    ensures Calls(log + rows, incident) == Calls(log, incident) + Calls(rows, incident)
  {
    if rows == [] {
      assert log + rows == log;
    } else {
      CallsAppend(log, rows[..|rows| - 1], incident);
      assert (log + rows)[..|log + rows| - 1] == log + rows[..|rows| - 1];
    }
  }

  lemma {:induction false} CallsOfRows(rows: seq<Invocation>, owner: nat, incident: nat)
    requires forall i :: 0 <= i < |rows| ==> rows[i].incident == owner
    ensures Calls(rows, incident) == if incident == owner then |rows| else 0
  {
    if rows != [] { CallsOfRows(rows[..|rows| - 1], owner, incident); }
  }

  predicate Reuses(st: Store, q: Request) {
    q.reuse && Latest(st.diagnoses, q.incident).Some?
  }

  /** What a transaction adds: nothing when it reuses, else one record, with attempts only when it was admitted. */
  lemma TransactionAdds(s: Settings, st: Store, q: Request)
    requires ValidSettings(s)
    ensures var after := DiagnoseAndStore(s, st, q).0;
            if Reuses(st, q) then after == st
            else var outcome := OutcomeOf(s, st, q);
                 && after.diagnoses == st.diagnoses + [Diagnosis(q.incident, outcome)]
                 && after.invocations == st.invocations + Rows(q.incident, outcome.attempts, q.done)
                 && (outcome.attempts != [] <==> Gate(s, st, q).Admitted?)
                 && FailedTail(outcome.attempts) <= 2
                 && (outcome.attempts != [] ==> Calls(st.invocations, q.incident) + |outcome.attempts| <= s.maxCalls)
  {
    if Gate(s, st, q).Admitted? {
      DiagnoseIsSound(s.router, q.context.value, true, Gate(s, st, q).calls, q.replies);
    }
  }

  /** A transaction records one call per attempt, for its own incident alone, and never beyond the budget. */
  lemma TransactionCalls(s: Settings, st: Store, q: Request, incident: nat)
    requires ValidSettings(s)
    ensures var after := DiagnoseAndStore(s, st, q).0;
            && Calls(after.invocations, incident)
               == Calls(st.invocations, incident)
                  + (if incident == q.incident && !Reuses(st, q) then |OutcomeOf(s, st, q).attempts| else 0)
            && (Calls(st.invocations, incident) <= s.maxCalls ==> Calls(after.invocations, incident) <= s.maxCalls)
  {
    TransactionAdds(s, st, q);
    if !Reuses(st, q) {
      var rows := Rows(q.incident, OutcomeOf(s, st, q).attempts, q.done);
      CallsAppend(st.invocations, rows, incident);
      CallsOfRows(rows, q.incident, incident);
    }
  }

  /** In every run an incident's recorded calls stay within its budget. */
  lemma {:induction false} BudgetHolds(s: Settings, requests: seq<Request>, incident: nat)
    requires ValidSettings(s)
    ensures Calls(RunAll(s, EMPTY, requests).invocations, incident) <= s.maxCalls
  {
    if requests != [] {
      var earlier := requests[..|requests| - 1];
      BudgetHolds(s, earlier, incident);
      TransactionCalls(s, RunAll(s, EMPTY, earlier), requests[|requests| - 1], incident);
    }
  }

  // ---------- the circuit breaker ----------

  /** How many of the latest recent calls failed in a row. */
  function Streak(recent: seq<bool>): (n: nat)
    ensures n <= |recent|
  {
    if recent == [] || !recent[|recent| - 1] then 0 else 1 + Streak(recent[..|recent| - 1])
  }

  lemma {:induction false} StreakIsTail(recent: seq<bool>, k: nat)
    requires k <= |recent|
    ensures Streak(recent) >= k <==> forall i :: |recent| - k <= i < |recent| ==> recent[i]
  {
    if k > 0 {
      StreakIsTail(recent[..|recent| - 1], k - 1);
    }
  }

  /** The circuit is open exactly when the latest calls failed at least `threshold` times in a row. */
  lemma OpenExactlyOnStreak(recent: seq<bool>, threshold: nat)
    ensures CircuitIsOpen(recent, threshold) <==> Streak(recent) >= threshold
  {
    if threshold <= |recent| { StreakIsTail(recent, threshold); }
  }

  /** Rows in time order, the last of them no later than `now`. */
  ghost predicate Chronological(log: seq<Invocation>, now: int) {
    log != [] ==>
      var last := log[|log| - 1];
      last.at <= now && Chronological(log[..|log| - 1], last.at)
  }

  lemma {:induction false} ChronologicalOrder(log: seq<Invocation>, now: int, i: nat, j: nat)
    requires Chronological(log, now) && i <= j < |log|
    ensures log[i].at <= log[j].at <= now
  {
    var rest, last := log[..|log| - 1], log[|log| - 1];
    if i < |rest| { ChronologicalOrder(rest, last.at, i, if j < |rest| then j else i); }
  }

  /** The same run of failures, read off the rows themselves. */
  function FailingRun(log: seq<Invocation>, cutoff: int): nat {
    if log == [] then 0 else
    var last := log[|log| - 1];
    if last.at < cutoff then FailingRun(log[..|log| - 1], cutoff)
    else if last.failed then 1 + FailingRun(log[..|log| - 1], cutoff)
    else 0
  }

  lemma {:induction false} FailingRunIsStreak(log: seq<Invocation>, cutoff: int)
    ensures FailingRun(log, cutoff) == Streak(Recent(log, cutoff))
  {
    if log != [] {
      var rest := log[..|log| - 1];
      FailingRunIsStreak(rest, cutoff);
      assert Recent(rest, cutoff) + [] == Recent(rest, cutoff);
      StreakAppend(Recent(rest, cutoff), log[|log| - 1].failed);
    }
  }

  lemma StreakAppend(recent: seq<bool>, failed: bool)
    ensures Streak(recent + [failed]) == if failed then 1 + Streak(recent) else 0
  {
    assert (recent + [failed])[..|recent|] == recent;
  }

  /** A later cut-off only shortens the run of failures. */
  lemma {:induction false} LaterCutoff(log: seq<Invocation>, earlier: int, later: int, now: int)
    requires Chronological(log, now) && earlier <= later
    ensures FailingRun(log, later) <= FailingRun(log, earlier)
  {
    if log != [] {
      var rest, last := log[..|log| - 1], log[|log| - 1];
      LaterCutoff(rest, earlier, later, last.at);
      if last.at < later { NoneRecent(rest, later, last.at); }
    }
  }

  lemma {:induction false} NoneRecent(log: seq<Invocation>, cutoff: int, now: int)
    requires Chronological(log, now) && now < cutoff
    ensures FailingRun(log, cutoff) == 0
  {
    if log != [] { NoneRecent(log[..|log| - 1], cutoff, log[|log| - 1].at); }
  }

  /** A transaction's rows lengthen the run of failures by no more than the failures that end it. */
  lemma {:induction false} RunGrows(log: seq<Invocation>, incident: nat, attempts: seq<Attempt>, at: int, cutoff: int)
    requires cutoff <= at
    ensures FailingRun(log + Rows(incident, attempts, at), cutoff) <= FailingRun(log, cutoff) + FailedTail(attempts)
  {
    var rows := Rows(incident, attempts, at);
    if attempts == [] {
      assert log + rows == log;
    } else {
      var fewer := attempts[..|attempts| - 1];
      RunGrows(log, incident, fewer, at, cutoff);
      assert (log + rows)[..|log + rows| - 1] == log + Rows(incident, fewer, at);
    }
  }

  /** Rows in time order, and never more than one failure beyond the threshold in a row within the window. */
  ghost predicate BreakerHolds(s: Settings, st: Store, now: int) {
    Chronological(st.invocations, now) && FailingRun(st.invocations, now - s.window) <= s.threshold + 1
  }

  lemma BreakerStep(s: Settings, st: Store, q: Request, before: int)
    requires ValidSettings(s) && BreakerHolds(s, st, before) && before <= q.now <= q.done
    ensures BreakerHolds(s, DiagnoseAndStore(s, st, q).0, q.done)
  {
    if Reuses(st, q) {
      LaterNow(st.invocations, before, q.done);
      LaterCutoff(st.invocations, before - s.window, q.done - s.window, before);
    } else {
      var attempts := OutcomeOf(s, st, q).attempts;
      OutcomeBounded(s, st, q);
      LogStep(s, st.invocations, q.incident, attempts, before, q.now, q.done);
      assert DiagnoseAndStore(s, st, q).0.invocations == st.invocations + Rows(q.incident, attempts, q.done);
    }
  }

  /** Attempts are made only while the circuit is closed, and end with at most two failures. */
  lemma OutcomeBounded(s: Settings, st: Store, q: Request)
    requires ValidSettings(s)
    ensures var attempts := OutcomeOf(s, st, q).attempts;
            FailedTail(attempts) <= 2 && (attempts != [] ==> FailingRun(st.invocations, q.now - s.window) < s.threshold)
  {
    if Gate(s, st, q).Admitted? {
      AdmittedWhenClosed(s, st, q);
      DiagnoseIsSound(s.router, q.context.value, true, Gate(s, st, q).calls, q.replies);
    }
  }

  lemma AdmittedWhenClosed(s: Settings, st: Store, q: Request)
    requires Gate(s, st, q).Admitted?
    ensures FailingRun(st.invocations, q.now - s.window) < s.threshold
  {
    FailingRunIsStreak(st.invocations, q.now - s.window);
    OpenExactlyOnStreak(Recent(st.invocations, q.now - s.window), s.threshold);
  }

  /** Rows written at `at` by a transaction that began at `now`, whose breaker let it make `attempts`. */
  lemma LogStep(s: Settings, log: seq<Invocation>, incident: nat, attempts: seq<Attempt>, before: int, now: int,
                at: int)
    requires Chronological(log, before) && FailingRun(log, before - s.window) <= s.threshold + 1
    requires before <= now <= at && FailedTail(attempts) <= 2
    requires attempts != [] ==> FailingRun(log, now - s.window) < s.threshold
    ensures var longer := log + Rows(incident, attempts, at);
            Chronological(longer, at) && FailingRun(longer, at - s.window) <= s.threshold + 1
  {
    LaterNow(log, before, at);
    RowsChronological(log, incident, attempts, at);
    if attempts == [] {
      assert log + Rows(incident, attempts, at) == log;
      LaterCutoff(log, before - s.window, at - s.window, before);
    } else {
      RunGrows(log, incident, attempts, at, now - s.window);
      LaterCutoff(log + Rows(incident, attempts, at), now - s.window, at - s.window, at);
    }
  }

  lemma LaterNow(log: seq<Invocation>, now: int, later: int)
    requires Chronological(log, now) && now <= later
    ensures Chronological(log, later)
  {
  }

  lemma {:induction false} RowsChronological(log: seq<Invocation>, incident: nat, attempts: seq<Attempt>, at: int)
    requires Chronological(log, at)
    ensures Chronological(log + Rows(incident, attempts, at), at)
  {
    if attempts == [] {
      assert log + Rows(incident, attempts, at) == log;
    } else {
      var fewer := attempts[..|attempts| - 1];
      RowsChronological(log, incident, fewer, at);
      var longer := log + Rows(incident, attempts, at);
      assert longer[..|longer| - 1] == log + Rows(incident, fewer, at);
    }
  }

  lemma {:induction false} BreakerAllAlong(s: Settings, requests: seq<Request>)
    requires ValidSettings(s) && Serialized(requests)
    ensures BreakerHolds(s, RunAll(s, EMPTY, requests), EndOf(requests))
  {
    if requests != [] {
      var earlier, q := requests[..|requests| - 1], requests[|requests| - 1];
      BreakerAllAlong(s, earlier);
      BreakerStep(s, RunAll(s, EMPTY, earlier), q, if earlier == [] then q.now else EndOf(earlier));
    }
  }

  function EndOf(requests: seq<Request>): int {
    if requests == [] then 0 else requests[|requests| - 1].done
  }

  /**
   In every run of transactions one after another the window never shows more than one failure beyond
   the threshold in a row: the breaker lets at most one more diagnosis fail.
   */
  lemma BreakerKeepsHolding(s: Settings, requests: seq<Request>)
    requires ValidSettings(s) && Serialized(requests)
    ensures var log := RunAll(s, EMPTY, requests).invocations;
            Streak(Recent(log, EndOf(requests) - s.window)) <= s.threshold + 1
    ensures BreakerHolds(s, RunAll(s, EMPTY, requests), EndOf(requests))
  {
    BreakerAllAlong(s, requests);
    FailingRunIsStreak(RunAll(s, EMPTY, requests).invocations, EndOf(requests) - s.window);
  }

  // ---------- when a model is asked ----------

  /** The newest diagnosis of an incident. */
  lemma {:induction false} LatestIsNewest(diagnoses: seq<Diagnosis>, incident: nat)
    ensures var r := Latest(diagnoses, incident);
            && (r.None? <==> forall k :: 0 <= k < |diagnoses| ==> diagnoses[k].incident != incident)
            && (r.Some? ==>
                  exists k :: 0 <= k < |diagnoses| && diagnoses[k] == r.value && r.value.incident == incident
                              && forall l :: k < l < |diagnoses| ==> diagnoses[l].incident != incident)
  {
    if diagnoses != [] {
      var last, rest := |diagnoses| - 1, diagnoses[..|diagnoses| - 1];
      if diagnoses[last].incident != incident {
        LatestIsNewest(rest, incident);
        if k :| 0 <= k < |rest| && Latest(rest, incident).Some? && rest[k] == Latest(rest, incident).value
                && forall l :: k < l < |rest| ==> rest[l].incident != incident {
          assert diagnoses[k] == rest[k];
        }
      }
    }
  }

  /** A model may be asked: enabled, within budget, the breaker closed, with a context that is small enough. */
  predicate MayAsk(s: Settings, st: Store, q: Request) {
    s.enabled && Calls(st.invocations, q.incident) < s.maxCalls
    && Streak(Recent(st.invocations, q.now - s.window)) < s.threshold && q.context.Some? && q.chars <= s.maxChars
  }

  /**
   A transaction that does not reuse a diagnosis asks a model exactly if it may, at most as often as the budget
   has left and three times, and otherwise stores the first reason it may not.
   */
  lemma AskedExactly(s: Settings, st: Store, q: Request)
    requires ValidSettings(s)
    ensures var o, calls := OutcomeOf(s, st, q), Calls(st.invocations, q.incident);
            && (o.attempts != [] <==> MayAsk(s, st, q))
            && (MayAsk(s, st, q) ==>
                  o == Diagnose(s.router, q.context.value, true, if s.maxCalls - calls < 3 then s.maxCalls - calls
                                else 3, q.replies))
            && (!MayAsk(s, st, q) ==>
                  o == Unavailable(false, [],
                         if !s.enabled then Disabled
                         else if calls >= s.maxCalls then CallBudgetExhausted
                         else if Streak(Recent(st.invocations, q.now - s.window)) >= s.threshold then CircuitOpen
                         else if q.context.None? then ContextInvalid
                         else EvidenceBudgetExceeded))
  {
    GateExactly(s, st, q);
    if MayAsk(s, st, q) { AsksAtLeastOnce(s, q.context.value, Gate(s, st, q).calls, q.replies); }
  }

  lemma GateExactly(s: Settings, st: Store, q: Request)
    requires ValidSettings(s)
    ensures var calls := Calls(st.invocations, q.incident);
            Gate(s, st, q)
            == if MayAsk(s, st, q) then Admitted(if s.maxCalls - calls < 3 then s.maxCalls - calls else 3)
               else Refused(if !s.enabled then Disabled
                            else if calls >= s.maxCalls then CallBudgetExhausted
                            else if Streak(Recent(st.invocations, q.now - s.window)) >= s.threshold then CircuitOpen
                            else if q.context.None? then ContextInvalid
                            else EvidenceBudgetExceeded)
    ensures MayAsk(s, st, q) ==> Gate(s, st, q).calls > 0
  {
    OpenExactlyOnStreak(Recent(st.invocations, q.now - s.window), s.threshold);
  }

  lemma AsksAtLeastOnce(s: Settings, c: Context, calls: nat, replies: seq<Reply>)
    requires calls > 0
    ensures Diagnose(s.router, c, true, calls, replies).attempts != []
  {
    DiagnoseIsSound(s.router, c, true, calls, replies);
  }

  // ---------- the application service ----------

  class DiagnosisService {
    const settings: Settings
    var invocations: seq<Invocation>
    var diagnoses: seq<Diagnosis>

    constructor (settings: Settings)
      ensures this.settings == settings && Snapshot() == EMPTY
    {
      this.settings, invocations, diagnoses := settings, [], [];
    }

    function Snapshot(): Store
      reads this
    {
      Store(invocations, diagnoses)
    }

    method Persist(incident: nat, outcome: Outcome, at: int) returns (record: Diagnosis)
      modifies this
      ensures record == Diagnosis(incident, outcome)
      ensures invocations == old(invocations) + Rows(incident, outcome.attempts, at)
      ensures diagnoses == old(diagnoses) + [record]
    {
      invocations := invocations + Rows(incident, outcome.attempts, at);
      record := Diagnosis(incident, outcome);
      diagnoses := diagnoses + [record];
    }

    method Serve(q: Request) returns (record: Diagnosis)
      modifies this
      ensures (Snapshot(), record) == DiagnoseAndStore(settings, old(Snapshot()), q)
    {
      if q.reuse {
        var existing := Latest(diagnoses, q.incident);
        if existing.Some? { return existing.value; }
      }
      if !settings.enabled {
        record := Persist(q.incident, Unavailable(false, [], Disabled), q.done);
        return;
      }
      var admission := Admit(settings, invocations, q.incident, q.now);
      if admission.Refused? {
        record := Persist(q.incident, Unavailable(false, [], admission.code), q.done);
        return;
      }
      if q.context.None? {
        record := Persist(q.incident, Unavailable(false, [], ContextInvalid), q.done);
        return;
      }
      if q.chars > settings.maxChars {
        record := Persist(q.incident, Unavailable(false, [], EvidenceBudgetExceeded), q.done);
        return;
      }
      var router := new DiagnosisRouter(settings.router);
      var outcome := router.Run(q.context.value, true, admission.calls, q.replies);
      record := Persist(q.incident, outcome, q.done);
    }
  }
}
