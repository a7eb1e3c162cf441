/**
 The model router behind an advisory diagnosis: which attempts it makes, when an answer counts as
 grounded in its context, and which answer it keeps.
 */
module DiagnosisRouting {
  import opened Results

  datatype RelatedChange = RelatedChange(repository: string, sha: string, files: set<string>)

  datatype Proposal = Proposal(confidence: real, evidence: set<string>, runbook: Option<string>,
                               change: Option<RelatedChange>)

  datatype GitChange = GitChange(repository: string, sha: string, file: string)

  datatype Context = Context(evidence: set<string>, runbooks: set<string>, changes: seq<GitChange>, complexity: int)

  datatype Failure =
    | CallBudgetExhausted
    | CircuitOpen
    | Disabled
    | ContextInvalid
    | EvidenceBudgetExceeded
    | OutputInvalid
    | EvidenceReferenceInvalid
    | RunbookInvalid
    | ChangeReferenceInvalid
    | ProviderFailure
    | ProviderError(code: nat)

  /** What one call of the provider brings: its own error, any other exception, or an answer of some schema. */
  datatype Reply = Raised(code: nat) | Crashed | Answered(output: Option<Proposal>, actual: string)

  // ---------- validation ----------

  function LowerChar(c: char): char {
    if 'A' <= c <= 'Z' then (c - 'A') + 'a' else c
  }

  function Lower(s: string): (r: string)
    ensures |r| == |s| && forall i :: 0 <= i < |s| ==> r[i] == LowerChar(s[i])
  {
    if s == [] then [] else [LowerChar(s[0])] + Lower(s[1..])
  }

  predicate SameCommit(item: GitChange, change: RelatedChange) {
    item.repository == change.repository && Lower(item.sha) == Lower(change.sha)
  }

  /** The files the context knows of one commit. */
  function KnownFiles(changes: seq<GitChange>, change: RelatedChange): set<string> {
    if changes == [] then {} else
    KnownFiles(changes[1..], change) + if SameCommit(changes[0], change) then {changes[0].file} else {}
  }

  function ValidateProposal(p: Proposal, c: Context): Option<Failure> {
    if p.evidence - c.evidence != {} then Some(EvidenceReferenceInvalid)
    else if p.runbook.Some? && p.runbook.value !in c.runbooks then Some(RunbookInvalid)
    else if p.change.Some?
            && (KnownFiles(c.changes, p.change.value) == {}
                || !(p.change.value.files <= KnownFiles(c.changes, p.change.value)))
    then Some(ChangeReferenceInvalid)
    else None
  }

  /** Everything an answer refers to is in the context it was given. */
  ghost predicate Grounded(p: Proposal, c: Context) {
    && (forall e :: e in p.evidence ==> e in c.evidence)
    && (p.runbook.Some? ==> p.runbook.value in c.runbooks)
    && (p.change.Some? ==>
          && (exists i :: 0 <= i < |c.changes| && SameCommit(c.changes[i], p.change.value))
          && forall f :: f in p.change.value.files ==> Changed(c.changes, p.change.value, f))
  }

  ghost predicate Changed(changes: seq<GitChange>, change: RelatedChange, file: string) {
    exists i :: 0 <= i < |changes| && SameCommit(changes[i], change) && changes[i].file == file
  }

  lemma {:induction false} KnownFilesAre(changes: seq<GitChange>, change: RelatedChange)
    ensures forall f :: f in KnownFiles(changes, change) <==> Changed(changes, change, f)
    ensures KnownFiles(changes, change) != {} <==> exists i :: 0 <= i < |changes| && SameCommit(changes[i], change)
  {
    if changes != [] {
      var rest := changes[1..];
      KnownFilesAre(rest, change);
      forall f ensures f in KnownFiles(changes, change) <==> Changed(changes, change, f) {
        if Changed(rest, change, f) {
          var i :| 0 <= i < |rest| && SameCommit(rest[i], change) && rest[i].file == f;
          assert changes[i + 1] == rest[i];
        }
        if Changed(changes, change, f) && !(SameCommit(changes[0], change) && changes[0].file == f) {
          var i :| 0 <= i < |changes| && SameCommit(changes[i], change) && changes[i].file == f;
          assert rest[i - 1] == changes[i];
        }
      }
      if i :| 0 <= i < |changes| && SameCommit(changes[i], change) {
        assert Changed(changes, change, changes[i].file);
      }
      if KnownFiles(changes, change) != {} {
        var f :| f in KnownFiles(changes, change);
        assert Changed(changes, change, f);
      }
    }
  }

  /** Validation accepts exactly the grounded answers. */
  lemma ValidExactlyWhenGrounded(p: Proposal, c: Context)
    ensures ValidateProposal(p, c) == None <==> Grounded(p, c)
  {
    var unknown := p.evidence - c.evidence;
    assert forall e :: e in p.evidence && e !in c.evidence <==> e in unknown;
    if p.change.Some? { KnownFilesAre(c.changes, p.change.value); }
  }

  // ---------- one attempt ----------

  datatype Answer = Answer(proposal: Proposal, requested: string, actual: string)

  datatype Attempt = Attempt(requested: string, actual: Option<string>, fallback: bool, escalation: bool,
                             error: Option<Failure>)

  /** What an attempt comes to: a grounded answer or a failure code. */
  datatype Judged = Success(answer: Answer) | Failed(code: Failure)

  function Judge(c: Context, model: string, reply: Reply): Judged {
    match reply
    case Raised(code) => Failed(ProviderError(code))
    case Crashed => Failed(ProviderFailure)
    case Answered(None, _) => Failed(OutputInvalid)
    case Answered(Some(p), actual) =>
      if ValidateProposal(p, c).Some? then Failed(ValidateProposal(p, c).value) else Success(Answer(p, model, actual))
  }

  function Logged(model: string, fallback: bool, escalation: bool, j: Judged): Attempt {
    Attempt(model, if j.Success? then Some(j.answer.actual) else None, fallback, escalation,
            if j.Failed? then Some(j.code) else None)
  }

  /** A reply beyond those foreseen is a crash of the provider. */
  function ReplyAt(replies: seq<Reply>, i: nat): Reply {
    if i < |replies| then replies[i] else Crashed
  }

  // ---------- routing ----------

  datatype Router = Router(primary: string, fallback: string, escalation: string, lowConfidence: real, complexity: int)

  datatype Outcome =
    | Available(proposal: Proposal, model: string, usedFallback: bool, usedEscalation: bool, attempts: seq<Attempt>)
    | Unavailable(usedFallback: bool, attempts: seq<Attempt>, failure: Failure)

  function AttemptLimit(maxAttempts: int): nat {
    if maxAttempts < 0 then 0 else if maxAttempts > 3 then 3 else maxAttempts
  }

  /** An answer calls for escalation: it is unsure, the incident is complex, and the model has not spoken yet. */
  predicate NeedsEscalation(r: Router, c: Context, a: Answer, allow: bool, made: nat, limit: nat) {
    allow && made < limit && a.proposal.confidence < r.lowConfidence && c.complexity >= r.complexity
    && r.escalation != a.requested && r.escalation != a.actual
  }

  function Diagnose(r: Router, c: Context, allow: bool, maxAttempts: int, replies: seq<Reply>): Outcome {
    var limit := AttemptLimit(maxAttempts);
    if limit == 0 then Unavailable(false, [], CallBudgetExhausted) else
    var primary := Judge(c, r.primary, ReplyAt(replies, 0));
    var first := [Logged(r.primary, false, false, primary)];
    if primary.Success? then Escalate(r, c, allow, limit, replies, primary.answer, false, first)
    else if 1 < limit && r.fallback != r.primary then
      var second := Judge(c, r.fallback, ReplyAt(replies, 1));
      var attempts := first + [Logged(r.fallback, true, false, second)];
      if second.Success? then Escalate(r, c, allow, limit, replies, second.answer, true, attempts)
      else Unavailable(true, attempts, second.code)
    else Unavailable(false, first, primary.code)
  }

  function Escalate(r: Router, c: Context, allow: bool, limit: nat, replies: seq<Reply>, selected: Answer,
                    usedFallback: bool, attempts: seq<Attempt>): Outcome
  {
    if !NeedsEscalation(r, c, selected, allow, |attempts|, limit)
    then Available(selected.proposal, selected.actual, usedFallback, false, attempts)
    else
      var judged := Judge(c, r.escalation, ReplyAt(replies, |attempts|));
      var all := attempts + [Logged(r.escalation, false, true, judged)];
      if judged.Success? && judged.answer.proposal.confidence >= selected.proposal.confidence
      then Available(judged.answer.proposal, judged.answer.actual, usedFallback, true, all)
      else Available(selected.proposal, selected.actual, usedFallback, true, all)
  }

  // ---------- what a diagnosis guarantees ----------

  /** The answer of one attempt of a diagnosis, if it was a good one. */
  function AnswerOf(c: Context, attempts: seq<Attempt>, replies: seq<Reply>, i: nat): Judged
    requires i < |attempts|
  {
    Judge(c, attempts[i].requested, ReplyAt(replies, i))
  }

  /** The record of every attempt is what the provider's reply to it came to. */
  ghost predicate Faithful(c: Context, attempts: seq<Attempt>, replies: seq<Reply>) {
    forall i :: 0 <= i < |attempts| ==>
      attempts[i]
        == Logged(attempts[i].requested, attempts[i].fallback, attempts[i].escalation,
                  AnswerOf(c, attempts, replies, i))
  }

  /** The kept answer comes from one of the attempts, and no other good answer was more confident. */
  ghost predicate BestAnswer(c: Context, attempts: seq<Attempt>, replies: seq<Reply>, proposal: Proposal,
                             model: string) {
    && (exists i ::
          && 0 <= i < |attempts|
          && AnswerOf(c, attempts, replies, i) == Success(Answer(proposal, attempts[i].requested, model)))
    && (forall i :: 0 <= i < |attempts| && AnswerOf(c, attempts, replies, i).Success? ==>
          AnswerOf(c, attempts, replies, i).answer.proposal.confidence <= proposal.confidence)
  }

  /** Attempts are made in this order, each only when the one before calls for it. */
  ghost predicate InRoute(r: Router, attempts: seq<Attempt>) {
    && (|attempts| > 0 ==> attempts[0].requested == r.primary && !attempts[0].fallback && !attempts[0].escalation)
    && (forall i :: 0 < i < |attempts| ==>
          if attempts[i].fallback
          then i == 1 && attempts[0].error.Some? && attempts[1].requested == r.fallback && r.fallback != r.primary
               && !attempts[1].escalation
          else attempts[i].escalation && i == |attempts| - 1 && attempts[i].requested == r.escalation
               && attempts[i - 1].error.None? && !attempts[i - 1].escalation)
  }

  /** How many attempts at the end failed. */
  function FailedTail(attempts: seq<Attempt>): (n: nat)
    ensures n <= |attempts|
  {
    if attempts == [] || attempts[|attempts| - 1].error.None? then 0 else 1 + FailedTail(attempts[..|attempts| - 1])
  }

  ghost predicate Sound(r: Router, c: Context, maxAttempts: int, replies: seq<Reply>, o: Outcome) {
    && |o.attempts| <= AttemptLimit(maxAttempts)
    && (o.attempts == [] <==> maxAttempts <= 0)
    && InRoute(r, o.attempts)
    && Faithful(c, o.attempts, replies)
    && FailedTail(o.attempts) <= 2
    && (o.Available? <==> exists i :: 0 <= i < |o.attempts| && o.attempts[i].error.None?)
    && (o.Available? ==> Grounded(o.proposal, c) && BestAnswer(c, o.attempts, replies, o.proposal, o.model))
    && (o.Unavailable? ==>
          Some(o.failure) == if o.attempts == [] then Some(CallBudgetExhausted) else o.attempts[|o.attempts| - 1].error)
  }

  lemma EscalateIsSound(r: Router, c: Context, allow: bool, maxAttempts: int, replies: seq<Reply>, selected: Answer,
                        usedFallback: bool, attempts: seq<Attempt>)
    requires 0 < |attempts| <= 2 && |attempts| <= AttemptLimit(maxAttempts)
    requires InRoute(r, attempts) && Faithful(c, attempts, replies)
    requires AnswerOf(c, attempts, replies, |attempts| - 1) == Success(selected)
    requires |attempts| == 2 ==> attempts[1].fallback && attempts[0].error.Some?
    ensures Sound(r, c, maxAttempts, replies,
                  Escalate(r, c, allow, AttemptLimit(maxAttempts), replies, selected, usedFallback, attempts))
  {
    var n := |attempts|;
    ValidExactlyWhenGrounded(selected.proposal, c);
    assert attempts[n - 1].error.None?;
    if NeedsEscalation(r, c, selected, allow, n, AttemptLimit(maxAttempts)) {
      var judged := Judge(c, r.escalation, ReplyAt(replies, n));
      var all := attempts + [Logged(r.escalation, false, true, judged)];
      AttemptAppended(c, attempts, replies, all[n], judged);
      if judged.Success? { ValidExactlyWhenGrounded(judged.answer.proposal, c); }
      EscalatedRoute(r, attempts, judged);
      EscalatedBest(c, attempts, replies, all, selected, judged);
    }
  }

  lemma AttemptAppended(c: Context, attempts: seq<Attempt>, replies: seq<Reply>, last: Attempt, judged: Judged)
    requires Faithful(c, attempts, replies)
    requires last == Logged(last.requested, last.fallback, last.escalation, judged)
    requires judged == Judge(c, last.requested, ReplyAt(replies, |attempts|))
    ensures Faithful(c, attempts + [last], replies)
    ensures forall i :: 0 <= i < |attempts| ==>
            AnswerOf(c, attempts + [last], replies, i) == AnswerOf(c, attempts, replies, i)
    ensures AnswerOf(c, attempts + [last], replies, |attempts|) == judged
  {
  }

  lemma EscalatedRoute(r: Router, attempts: seq<Attempt>, judged: Judged)
    requires 0 < |attempts| <= 2 && InRoute(r, attempts) && attempts[|attempts| - 1].error.None?
    requires |attempts| == 2 ==> attempts[1].fallback && attempts[0].error.Some?
    ensures InRoute(r, attempts + [Logged(r.escalation, false, true, judged)])
    ensures FailedTail(attempts + [Logged(r.escalation, false, true, judged)]) <= 1
  {
    var all := attempts + [Logged(r.escalation, false, true, judged)];
    assert all[..|attempts|] == attempts;
  }

  lemma EscalatedBest(c: Context, attempts: seq<Attempt>, replies: seq<Reply>, all: seq<Attempt>, selected: Answer,
                      judged: Judged)
    requires 0 < |attempts| <= 2 && |all| == |attempts| + 1
    requires Faithful(c, attempts, replies) && (|attempts| == 2 ==> attempts[0].error.Some?)
    requires AnswerOf(c, attempts, replies, |attempts| - 1) == Success(selected)
    requires forall i :: 0 <= i < |attempts| ==>
             AnswerOf(c, all, replies, i) == AnswerOf(c, attempts, replies, i) && all[i] == attempts[i]
    requires AnswerOf(c, all, replies, |attempts|) == judged
    ensures var best := if judged.Success? && judged.answer.proposal.confidence >= selected.proposal.confidence
                        then judged.answer else selected;
            BestAnswer(c, all, replies, best.proposal, best.actual)
  {
    assert |attempts| == 2 ==> AnswerOf(c, attempts, replies, 0).Failed?;
    assert AnswerOf(c, all, replies, |attempts| - 1) == Success(selected);
  }

  /**
   Every diagnosis makes at most the allowed number of attempts, in route order, and records each as it
   went. It has an answer exactly when some attempt succeeded; the answer is grounded in the context and
   no successful attempt was more confident. Never more than two failures end it.
   */
  lemma DiagnoseIsSound(r: Router, c: Context, allow: bool, maxAttempts: int, replies: seq<Reply>)
    ensures Sound(r, c, maxAttempts, replies, Diagnose(r, c, allow, maxAttempts, replies))
  {
    if AttemptLimit(maxAttempts) > 0 {
      var primary := Judge(c, r.primary, ReplyAt(replies, 0));
      var first := [Logged(r.primary, false, false, primary)];
      assert AnswerOf(c, first, replies, 0) == primary;
      if primary.Success? {
        EscalateIsSound(r, c, allow, maxAttempts, replies, primary.answer, false, first);
      } else if 1 < AttemptLimit(maxAttempts) && r.fallback != r.primary {
        FallbackIsSound(r, c, allow, maxAttempts, replies, primary);
      }
    }
  }

  /** The same once the primary model has failed and another one is asked. */
  lemma FallbackIsSound(r: Router, c: Context, allow: bool, maxAttempts: int, replies: seq<Reply>, primary: Judged)
    requires 1 < AttemptLimit(maxAttempts) && r.fallback != r.primary
    requires primary == Judge(c, r.primary, ReplyAt(replies, 0)) && primary.Failed?
    ensures Sound(r, c, maxAttempts, replies, Diagnose(r, c, allow, maxAttempts, replies))
  {
    var first := [Logged(r.primary, false, false, primary)];
    var second := Judge(c, r.fallback, ReplyAt(replies, 1));
    var attempts := first + [Logged(r.fallback, true, false, second)];
    assert AnswerOf(c, first, replies, 0) == primary;
    AttemptAppended(c, first, replies, attempts[1], second);
    if second.Success? {
      EscalateIsSound(r, c, allow, maxAttempts, replies, second.answer, true, attempts);
    }
  }

  // ---------- which models are asked ----------

  /** The fallback model is asked: the primary one failed, another attempt is left, and it is another model. */
  predicate AsksFallback(r: Router, c: Context, limit: nat, replies: seq<Reply>) {
    Judge(c, r.primary, ReplyAt(replies, 0)).Failed? && 1 < limit && r.fallback != r.primary
  }

  /** How many attempts there are before any escalation. */
  function Ordinary(r: Router, c: Context, limit: nat, replies: seq<Reply>): nat {
    if limit == 0 then 0 else if AsksFallback(r, c, limit, replies) then 2 else 1
  }

  /** The model that the last ordinary attempt asks, and what it comes to. */
  function LastOrdinary(r: Router, c: Context, limit: nat, replies: seq<Reply>): Judged {
    if AsksFallback(r, c, limit, replies) then Judge(c, r.fallback, ReplyAt(replies, 1))
    else Judge(c, r.primary, ReplyAt(replies, 0))
  }

  /**
   The stronger model is asked: an answer was given without enough confidence, about an incident complex enough,
   another attempt is left, and neither the model asked nor the one that answered was that model.
   */
  predicate AsksEscalation(r: Router, c: Context, allow: bool, limit: nat, replies: seq<Reply>) {
    var j := LastOrdinary(r, c, limit, replies);
    && j.Success? && allow && Ordinary(r, c, limit, replies) < limit
    && j.answer.proposal.confidence < r.lowConfidence && c.complexity >= r.complexity
    && r.escalation != j.answer.requested && r.escalation != j.answer.actual
  }

  /** The answer kept: the escalated one if it is at least as confident. */
  function Kept(r: Router, c: Context, allow: bool, limit: nat, replies: seq<Reply>): Judged {
    var j := LastOrdinary(r, c, limit, replies);
    if !AsksEscalation(r, c, allow, limit, replies) then j else
    var stronger := Judge(c, r.escalation, ReplyAt(replies, Ordinary(r, c, limit, replies)));
    if stronger.Success? && stronger.answer.proposal.confidence >= j.answer.proposal.confidence then stronger else j
  }

  /** Exactly which attempts a diagnosis makes, in which order, and what it answers. */
  lemma DiagnosisAsks(r: Router, c: Context, allow: bool, maxAttempts: int, replies: seq<Reply>)
    ensures var limit, o := AttemptLimit(maxAttempts), Diagnose(r, c, allow, maxAttempts, replies);
            var n, escalates := Ordinary(r, c, limit, replies), AsksEscalation(r, c, allow, limit, replies);
            && (limit == 0 ==> o == Unavailable(false, [], CallBudgetExhausted))
            && (limit > 0 ==>
                  && |o.attempts| == n + (if escalates then 1 else 0)
                  && o.attempts[0].requested == r.primary && !o.attempts[0].fallback && !o.attempts[0].escalation
                  && (n == 2 ==> o.attempts[1].requested == r.fallback && o.attempts[1].fallback)
                  && (escalates ==> o.attempts[n].requested == r.escalation && o.attempts[n].escalation)
                  && o.usedFallback == (n == 2)
                  && match Kept(r, c, allow, limit, replies)
                     case Success(a) =>
                       o.Available? && o.proposal == a.proposal && o.model == a.actual && o.usedEscalation == escalates
                     case Failed(code) => o.Unavailable? && o.failure == code)
  {
  }

  // ---------- the router ----------

  class DiagnosisRouter {
    const router: Router
    /** The attempts recorded so far, over all calls. */
    var recorded: seq<Attempt>

    constructor (router: Router)
      ensures this.router == router && recorded == []
    {
      this.router, recorded := router, [];
    }

    /** One call of the provider, recorded whatever comes of it. */
    method TryModel(c: Context, model: string, fallback: bool, escalation: bool, attempts: seq<Attempt>, reply: Reply)
      returns (judged: Judged, more: seq<Attempt>)
      modifies this`recorded
      ensures judged == Judge(c, model, reply)
      ensures more == attempts + [Logged(model, fallback, escalation, judged)]
      ensures recorded == old(recorded) + [Logged(model, fallback, escalation, judged)]
    {
      match reply {
        case Raised(code) => judged := Failed(ProviderError(code));
        case Crashed => judged := Failed(ProviderFailure);
        case Answered(output, actual) =>
          if output.None? {
            judged := Failed(OutputInvalid);
          } else {
            var refused := ValidateProposal(output.value, c);
            judged := if refused.Some? then Failed(refused.value) else Success(Answer(output.value, model, actual));
          }
      }
      var attempt := Logged(model, fallback, escalation, judged);
      recorded := recorded + [attempt];
      more := attempts + [attempt];
    }

    /** A diagnosis, which records exactly its own attempts. */
    method Run(c: Context, allow: bool, maxAttempts: int, replies: seq<Reply>) returns (o: Outcome)
      modifies this`recorded
      ensures o == Diagnose(router, c, allow, maxAttempts, replies)
      ensures recorded == old(recorded) + o.attempts
    {
      var limit := AttemptLimit(maxAttempts);
      if limit == 0 {
        return Unavailable(false, [], CallBudgetExhausted);
      }
      var judged, usedFallback, attempts := TryInOrder(c, limit, replies);
      if judged.Failed? {
        return Unavailable(usedFallback, attempts, judged.code);
      }
      o := TryEscalation(c, allow, limit, replies, judged.answer, usedFallback, attempts);
    }

    /** The primary model and, if it fails and the limit allows, the fallback. */
    method TryInOrder(c: Context, limit: nat, replies: seq<Reply>)
      returns (judged: Judged, usedFallback: bool, attempts: seq<Attempt>)
      requires 0 < limit
      modifies this`recorded
      ensures recorded == old(recorded) + attempts
      ensures var primary := Judge(c, router.primary, ReplyAt(replies, 0));
              var first := [Logged(router.primary, false, false, primary)];
              if primary.Failed? && 1 < limit && router.fallback != router.primary
              then
                usedFallback && judged == Judge(c, router.fallback, ReplyAt(replies, 1))
                && attempts == first + [Logged(router.fallback, true, false, judged)]
              else !usedFallback && judged == primary && attempts == first
    {
      attempts := [];
      judged, attempts := TryModel(c, router.primary, false, false, attempts, ReplyAt(replies, 0));
      usedFallback := false;
      if judged.Failed? && |attempts| < limit && router.fallback != router.primary {
        usedFallback := true;
        judged, attempts := TryModel(c, router.fallback, true, false, attempts, ReplyAt(replies, 1));
      }
    }

    /** Asks the stronger model about an unsure answer, and keeps the more confident of the two. */
    method TryEscalation(c: Context, allow: bool, limit: nat, replies: seq<Reply>, answer: Answer, usedFallback: bool,
                         made: seq<Attempt>) returns (o: Outcome)
      modifies this`recorded
      ensures o == Escalate(router, c, allow, limit, replies, answer, usedFallback, made)
      ensures made <= o.attempts && recorded == old(recorded) + o.attempts[|made|..]
    {
      var selected, usedEscalation, attempts := answer, false, made;
      if allow && |attempts| < limit && selected.proposal.confidence < router.lowConfidence
         && c.complexity >= router.complexity
         && router.escalation != selected.requested && router.escalation != selected.actual
      {
        usedEscalation := true;
        var judged;
        judged, attempts := TryModel(c, router.escalation, false, true, attempts, ReplyAt(replies, |attempts|));
        if judged.Success? && judged.answer.proposal.confidence >= selected.proposal.confidence {
          selected := judged.answer;
        }
      }
      return Available(selected.proposal, selected.actual, usedFallback, usedEscalation, attempts);
    }
  }
}
