/**
 What a delivery writes: the log it returns, entry by entry (src/serving/application/serve-completion.ts).
 */
module DeliveryLog {
  import opened Outcomes
  import opened Texts
  import opened ExecutionLog
  import opened HashChain
  import opened Gateway

  function EventsOf(log: Log): seq<Event> {
    seq(|log|, i requires 0 <= i < |log| => log[i].event)
  }

  /** The events written, in order. */
  function Written(trace: seq<Effect>): seq<Event> {
    if |trace| == 0 then []
    else
      var earlier := Written(trace[..|trace| - 1]);
      if trace[|trace| - 1].Wrote? then earlier + [trace[|trace| - 1].event] else earlier
  }

  lemma WrittenSnoc(trace: seq<Effect>, effect: Effect)
    ensures Written(trace + [effect]) == if effect.Wrote? then Written(trace) + [effect.event] else Written(trace)
  {
    assert (trace + [effect])[..|trace|] == trace;
  }

  /** The log is this one and then what the trace says was written. */
  predicate Gained(log: Log, after: Log, trace: seq<Effect>) {
    log <= after && EventsOf(after) == EventsOf(log) + Written(trace)
  }

  lemma GainedOne(log: Log, after: Log, trace: seq<Effect>, event: Event, runId: Text, at: int, hash: EntryHasher)
    requires Gained(log, after, trace) && !IsFinished(after)
    ensures Gained(log, AppendEntry(after, event, runId, at, hash).value, trace + [Wrote(event)])
  {
    var longer := AppendEntry(after, event, runId, at, hash).value;
    WrittenSnoc(trace, Wrote(event));
    assert EventsOf(longer) == EventsOf(after) + [event];
  }

  lemma GainedNothing(log: Log, after: Log, trace: seq<Effect>, effect: Effect)
    requires Gained(log, after, trace) && !effect.Wrote?
    ensures Gained(log, after, trace + [effect])
  {
    WrittenSnoc(trace, effect);
  }

  lemma AttemptGains(serve: ServeRequest, log: Log, s: Attempts, attempt: nat, answer: Completion)
    requires attempt > 0 && Gained(log, s.log, s.trace)
    ensures var (_, next) := Attempt(serve, s, attempt, answer);
            Gained(log, next.log, next.trace)
  {
    var decision := SelectProvider(serve, s.attempted);
    if decision.Route? && !IsFinished(s.log) {
      var event := InvocationOf(serve, decision);
      GainedOne(log, s.log, s.trace, event, serve.runId, serve.at, serve.hash);
      GainedNothing(log, AppendEntry(s.log, event, serve.runId, serve.at, serve.hash).value, s.trace + [Wrote(event)],
                    Called(decision.provider));
    }
  }

  lemma {:induction false} AttemptsGain(serve: ServeRequest, log: Log, s: Attempts, attempt: nat,
                                        completions: nat -> Completion)
    requires attempt > 0 && Gained(log, s.log, s.trace)
    ensures var (_, after) := AttemptsFrom(serve, s, attempt, completions);
            Gained(log, after.log, after.trace)
    decreases MAX_ATTEMPTS + 1 - attempt
  {
    if attempt <= MAX_ATTEMPTS {
      AttemptGains(serve, log, s, attempt, completions(attempt));
      var (outcome, next) := Attempt(serve, s, attempt, completions(attempt));
      if outcome.Retryable? { AttemptsGain(serve, log, next, attempt + 1, completions); }
    }
  }

  lemma OpeningGains(serve: ServeRequest, log: Log, openSeal: Option<Sealed>)
    requires OpenRun(serve, log, openSeal).Ok?
    ensures var s := Opening(serve, log, OpenRun(serve, log, openSeal).value);
            Gained(log, s.log, s.trace)
  {
    assert EventsOf(log) + [] == EventsOf(log);
    if !HasStarted(log) {
      var event := RunStarted(serve.principal, serve.tenant, serve.tenantRegion, serve.legalBasisPolicy,
                              openSeal.value);
      GainedOne(log, log, [], event, serve.runId, serve.at, serve.hash);
      assert [] + [Wrote(event)] == [Wrote(event)];
    }
  }

  lemma ConclusionGains(serve: ServeRequest, log: Log, ended: (AttemptOutcome, Attempts), closeSeal: Option<Sealed>)
    requires Gained(log, ended.1.log, ended.1.trace)
    ensures var (r, trace) := Conclude(serve, ended, closeSeal);
            Gained(log, r.log, trace)
  {
    var s := ended.1;
    if ended.0.AttemptServed? && !IsFinished(s.log) {
      var usage := UsageOf(serve, ended.0.reply, ended.0.invocationSeq);
      GainedOne(log, s.log, s.trace, usage, serve.runId, serve.at, serve.hash);
      GainedNothing(log, AppendEntry(s.log, usage, serve.runId, serve.at, serve.hash).value, s.trace + [Wrote(usage)],
                    ClaimCompleted(true));
    }
    GainedNothing(log, s.log, s.trace, ClaimCompleted(false));
  }

  /**
   The trace is no fiction: the log a delivery returns is the one it was given and then exactly what the trace says was
   written.
   */
  lemma TraceIsTheLog(serve: ServeRequest, log: Log, d: Delivery)
    ensures var (r, trace) := Serve(serve, log, d);
            Gained(log, r.log, trace)
  {
    assert EventsOf(log) + [] == EventsOf(log);
    if d.claim.Claimed? && OpenRun(serve, log, d.openSeal).Ok? {
      var s := Opening(serve, log, OpenRun(serve, log, d.openSeal).value);
      OpeningGains(serve, log, d.openSeal);
      AttemptsGain(serve, log, s, 1, d.completions);
      ConclusionGains(serve, log, AttemptsFrom(serve, s, 1, d.completions), d.closeSeal);
    }
  }

  lemma {:induction false} WrittenComesFromTrace(trace: seq<Effect>, event: Event)
    requires event in Written(trace)
    ensures Wrote(event) in trace
  {
    if |trace| > 0 && !(trace[|trace| - 1] == Wrote(event)) { WrittenComesFromTrace(trace[..|trace| - 1], event); }
  }

  lemma GainedEntriesNameEligible(serve: ServeRequest, log: Log, after: Log, trace: seq<Effect>, i: nat)
    requires Gained(log, after, trace) && Routed(serve, trace) && |log| <= i < |after|
    ensures after[i].event.ModelInvoked? ==> HasEligible(serve, after[i].event.routerDecision)
  {
    var event := after[i].event;
    assert |EventsOf(after)| == |log| + |Written(trace)| && EventsOf(after)[i] == Written(trace)[i - |log|];
    WrittenComesFromTrace(trace, event);
    var k :| 0 <= k < |trace| && trace[k] == Wrote(event);
    assert NamesEligible(serve, trace[k]);
  }

  /** Every invocation a delivery adds to the log names a provider that is eligible. */
  lemma EntriesNameEligible(serve: ServeRequest, log: Log, d: Delivery, i: nat)
    requires |log| <= i < |Serve(serve, log, d).0.log|
    ensures var event := Serve(serve, log, d).0.log[i].event;
            event.ModelInvoked? ==> HasEligible(serve, event.routerDecision)
  {
    var (r, trace) := Serve(serve, log, d);
    TraceIsTheLog(serve, log, d);
    DeliveryStaysRouted(serve, log, d);
    GainedEntriesNameEligible(serve, log, r.log, trace, i);
  }
}
