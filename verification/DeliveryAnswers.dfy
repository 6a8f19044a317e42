/**
 What a delivery answers and what its entries say, told of the answers the world gave it
 (src/serving/application/serve-completion.ts, src/serving/domain/retry-policy.ts).
 */
module DeliveryAnswers {
  import opened Outcomes
  import opened Texts
  import opened ExecutionLog
  import opened HashChain
  import opened Gateway
  import opened Residency

  /** Call number k, counted from one, failed in a way that may pass. */
  predicate MayPass(completions: nat -> Completion, k: nat) {
    completions(k).CallFailed? && completions(k).failure != ProviderRefused
  }

  /** The first n calls failed so. */
  predicate FirstFail(completions: nat -> Completion, n: nat) {
    forall k | 0 < k <= n :: MayPass(completions, k)
  }

  /** Call number n is the first that did not fail so, and it completed with this reply. */
  predicate AnswersAs(completions: nat -> Completion, reply: Reply, n: nat) {
    0 < n <= 4 && FirstFail(completions, n - 1) && completions(n) == Completed(reply)
  }

  // ---- How attempts end ----------------------------------------------------------------------------------------

  /** Some candidate that suits has no adapter. */
  predicate LacksAdapter(serve: ServeRequest) {
    exists i :: 0 <= i < |serve.candidates|
        && Suits(serve.candidates[i], serve.tenantRegion, serve.requiresZeroRetention)
                && serve.candidates[i].id !in serve.adapters
  }

  /** Why the attempts ended, after as many calls as there were. */
  predicate EndTells(serve: ServeRequest, finished: bool, ended: (AttemptOutcome, Attempts),
                     completions: nat -> Completion) {
    var n := |ended.1.attempted|;
    match ended.0
    case AttemptServed(reply, _) => AnswersAs(completions, reply, n) && !finished
    case Retryable => n == 4 && FirstFail(completions, 4)
    case AttemptHalted(Refusal(_)) => FirstFail(completions, n)
    case AttemptHalted(ProviderFailed(why)) =>
      (match why
       case NotTransient => 0 < n <= 4 && FirstFail(completions, n - 1) && completions(n) == CallFailed(ProviderRefused)
       case AttemptsExhausted => n == 4 && FirstFail(completions, 4)
       case NoAdapter => FirstFail(completions, n) && LacksAdapter(serve)
       case LogRefused => finished
       case _ => false)
    case AttemptHalted(_) => false
  }

  lemma AttemptTells(serve: ServeRequest, s: Attempts, attempt: nat, completions: nat -> Completion)
    requires 0 < attempt <= 4 && |s.attempted| == attempt - 1 && FirstFail(completions, attempt - 1)
    ensures var first := Attempt(serve, s, attempt, completions(attempt));
            && (IsFinished(first.1.log) <==> IsFinished(s.log))
            && (if first.0.Retryable? then |first.1.attempted| == attempt < 4 && FirstFail(completions, attempt)
                else EndTells(serve, IsFinished(s.log), first, completions))
  {
    var decision := SelectProvider(serve, s.attempted);
    SelectionStaysInRegion(serve, s.attempted);
    if decision.Route? && decision.provider !in serve.adapters {
      EligibleMeansResident(serve, decision.provider);
      assert LacksAdapter(serve);
    }
  }

  lemma {:induction false} AttemptsTell(serve: ServeRequest, s: Attempts, attempt: nat, completions: nat -> Completion,
                                        finished: bool)
    requires 0 < attempt <= 4 && |s.attempted| == attempt - 1 && FirstFail(completions, attempt - 1)
    requires finished <==> IsFinished(s.log)
    ensures EndTells(serve, finished, AttemptsFrom(serve, s, attempt, completions), completions)
    decreases 4 - attempt
  {
    AttemptTells(serve, s, attempt, completions);
    FirstAttempt(serve, s, attempt, completions);
    var first := Attempt(serve, s, attempt, completions(attempt));
    if first.0.Retryable? { AttemptsTell(serve, first.1, attempt + 1, completions, finished); }
  }

  // ---- How a delivery ends -------------------------------------------------------------------------------------

  /** The result, and the number of calls made. */
  predicate ResultTells(serve: ServeRequest, log: Log, d: Delivery, r: ServeResult, calls: nat) {
    match r
    case Served(reply, _) =>
      d.claim.Claimed? && d.closeSeal.Some? && (d.openSeal.Some? || HasStarted(log))
          && AnswersAs(d.completions, reply, calls)
    case Rejected(AlreadyServed, _) => d.claim == AlreadyClaimed(true)
    case Rejected(InFlight, _) => d.claim == AlreadyClaimed(false)
    case Rejected(Refusal(_), _) => d.claim.Claimed? && FirstFail(d.completions, calls)
    case Rejected(ProviderFailed(why), _) =>
      (match why
       case ClaimFailed => d.claim.ClaimStoreFailed?
       case SealFailed => d.claim.Claimed? && ((d.openSeal.None? && !HasStarted(log)) || d.closeSeal.None?)
       case LogRefused => d.claim.Claimed? && IsFinished(log)
       case NoAdapter => d.claim.Claimed? && FirstFail(d.completions, calls) && LacksAdapter(serve)
       case NotTransient =>
         d.claim.Claimed? && 0 < calls <= 4 && FirstFail(d.completions, calls - 1)
         && d.completions(calls) == CallFailed(ProviderRefused)
       case AttemptsExhausted => d.claim.Claimed? && calls == 4 && FirstFail(d.completions, 4))
  }

  lemma ConclusionTells(serve: ServeRequest, log: Log, d: Delivery, finished: bool, ended: (AttemptOutcome, Attempts))
    requires d.claim.Claimed? && (d.openSeal.Some? || HasStarted(log)) && (finished ==> IsFinished(log))
    requires EndTells(serve, finished, ended, d.completions) && (ended.0.AttemptServed? ==> !IsFinished(ended.1.log))
    ensures ResultTells(serve, log, d, Conclude(serve, ended, d.closeSeal).0, |ended.1.attempted|)
  {
  }

  /**
   Every answer of a delivery is grounded in what it was answered: a reply is that of the first call that did not fail
   in a way that may pass, and every rejection is for what it says.
   */
  lemma DeliveryAnswersTruly(serve: ServeRequest, log: Log, d: Delivery)
    ensures var (r, trace) := Serve(serve, log, d);
            ResultTells(serve, log, d, r, |Calls(trace)|)
  {
    var start := OpenRun(serve, log, d.openSeal);
    if d.claim.Claimed? && start.Ok? {
      var s := Opening(serve, log, start.value);
      var ended := AttemptsFrom(serve, s, 1, d.completions);
      OpeningIsRouted(serve, log, d.openSeal, d.completions);
      AttemptsTell(serve, s, 1, d.completions, IsFinished(s.log));
      AttemptsSettleNothing(serve, s, 1, d.completions);
      AttemptsKeepRouted(serve, s, 1, d.completions);
      ConclusionTells(serve, log, d, IsFinished(s.log), ended);
      CallsAreAttempted(serve, ended, d.closeSeal);
    }
  }

  lemma CallsAreAttempted(serve: ServeRequest, ended: (AttemptOutcome, Attempts), closeSeal: Option<Sealed>)
    requires Calls(ended.1.trace) == ended.1.attempted
    ensures Calls(Conclude(serve, ended, closeSeal).1) == ended.1.attempted
  {
    var trace := ended.1.trace;
    if ended.0.AttemptServed? {
      var usage := Wrote(UsageOf(serve, ended.0.reply, ended.0.invocationSeq));
      CallsSnoc(trace, usage);
      CallsSnoc(trace + [usage], ClaimCompleted(true));
    }
    CallsSnoc(trace, ClaimCompleted(false));
  }

  // ---- What the entries say ------------------------------------------------------------------------------------

  /** An entry of a delivery tells of its request, of a provider that suits, or of the reply and its price. */
  predicate DeliveryEntry(serve: ServeRequest, d: Delivery, entry: Entry) {
    && entry.runId == serve.runId && entry.at == serve.at
    && match entry.event
       case RunStarted(principal, tenant, region, legalBasisPolicy, request) =>
         && principal == serve.principal && tenant == serve.tenant && region == serve.tenantRegion
         && legalBasisPolicy == serve.legalBasisPolicy && d.openSeal == Some(request)
       case ModelInvoked(snapshot, promptVersion, routerDecision, _) =>
         snapshot == serve.model && promptVersion == serve.promptVersion && ResidentFor(serve, routerDecision)
       case UsageRecorded(_, inputTokens, outputTokens, costMicros) =>
         && (exists n :: 0 < n <= 4 && AnswersWith(d.completions, n, inputTokens, outputTokens))
         && costMicros == serve.cost(inputTokens, outputTokens)
       case _ => false
  }

  predicate AnswersWith(completions: nat -> Completion, n: nat, inputTokens: int, outputTokens: int) {
    && completions(n).Completed? && AnswersAs(completions, completions(n).reply, n)
    && completions(n).reply.inputTokens == inputTokens && completions(n).reply.outputTokens == outputTokens
  }

  /** The log grew by entries of the delivery. */
  predicate GrewBy(serve: ServeRequest, d: Delivery, before: Log, after: Log) {
    before <= after && forall i | |before| <= i < |after| :: DeliveryEntry(serve, d, after[i])
  }

  lemma GrewByOne(serve: ServeRequest, d: Delivery, before: Log, after: Log, event: Event)
    requires GrewBy(serve, d, before, after) && !IsFinished(after)
    requires DeliveryEntry(serve, d, NextEntry(after, event, serve.runId, serve.at, serve.hash))
    ensures GrewBy(serve, d, before, AppendEntry(after, event, serve.runId, serve.at, serve.hash).value)
  {
  }

  lemma OpeningGrows(serve: ServeRequest, log: Log, d: Delivery)
    requires OpenRun(serve, log, d.openSeal).Ok?
    ensures GrewBy(serve, d, log, OpenRun(serve, log, d.openSeal).value)
  {
    if !HasStarted(log) {
      GrewByOne(serve, d, log, log,
                RunStarted(serve.principal, serve.tenant, serve.tenantRegion, serve.legalBasisPolicy,
                                               d.openSeal.value));
    }
  }

  lemma AttemptGrows(serve: ServeRequest, d: Delivery, log: Log, s: Attempts, attempt: nat, answer: Completion)
    requires attempt > 0 && GrewBy(serve, d, log, s.log)
    ensures GrewBy(serve, d, log, Attempt(serve, s, attempt, answer).1.log)
  {
    var decision := SelectProvider(serve, s.attempted);
    SelectionStaysInRegion(serve, s.attempted);
    if decision.Route? && !IsFinished(s.log) {
      EligibleMeansResident(serve, decision.provider);
      GrewByOne(serve, d, log, s.log, InvocationOf(serve, decision));
    }
  }

  lemma {:induction false} AttemptsGrow(serve: ServeRequest, d: Delivery, log: Log, s: Attempts, attempt: nat)
    requires attempt > 0 && GrewBy(serve, d, log, s.log)
    ensures GrewBy(serve, d, log, AttemptsFrom(serve, s, attempt, d.completions).1.log)
    decreases MAX_ATTEMPTS + 1 - attempt
  {
    if attempt <= MAX_ATTEMPTS {
      AttemptGrows(serve, d, log, s, attempt, d.completions(attempt));
      var (outcome, next) := Attempt(serve, s, attempt, d.completions(attempt));
      if outcome.Retryable? { AttemptsGrow(serve, d, log, next, attempt + 1); }
    }
  }

  lemma ConclusionGrows(serve: ServeRequest, d: Delivery, log: Log, finished: bool, ended: (AttemptOutcome, Attempts))
    requires GrewBy(serve, d, log, ended.1.log) && EndTells(serve, finished, ended, d.completions)
    ensures GrewBy(serve, d, log, Conclude(serve, ended, d.closeSeal).0.log)
  {
    var s := ended.1;
    if ended.0.AttemptServed? && !IsFinished(s.log) {
      var reply := ended.0.reply;
      assert AnswersWith(d.completions, |s.attempted|, reply.inputTokens, reply.outputTokens);
      GrewByOne(serve, d, log, s.log, UsageOf(serve, reply, ended.0.invocationSeq));
    }
  }

  /** Every entry a delivery adds to the log tells the truth. */
  lemma DeliveryEntriesTellTheTruth(serve: ServeRequest, log: Log, d: Delivery)
    ensures GrewBy(serve, d, log, Serve(serve, log, d).0.log)
  {
    var start := OpenRun(serve, log, d.openSeal);
    if d.claim.Claimed? && start.Ok? {
      var s := Opening(serve, log, start.value);
      OpeningGrows(serve, log, d);
      AttemptsTell(serve, s, 1, d.completions, IsFinished(s.log));
      AttemptsGrow(serve, d, log, s, 1);
      ConclusionGrows(serve, d, log, IsFinished(s.log), AttemptsFrom(serve, s, 1, d.completions));
    }
  }
}
