/**
 What every run writes, whatever the world answers: verified logs of one grammar, each extending the one before, whose
 recorded costs are the ones the loop acted on (src/agent/application/run-agent.ts,
 src/serving/application/serve-completion.ts).
 */
module RunEvidence {
  import opened Outcomes
  import opened Texts
  import opened ExecutionLog
  import opened HashChain
  import opened Rail
  import opened LogGrammar
  import opened AgentRun
  import Gateway

  // ---- One append ------------------------------------------------------------------------------------------------

  function CostOf(event: Event): int {
    if event.UsageRecorded? then event.costMicros else 0
  }

  /** The recorded costs of a log, added up. */
  function UsageTotal(log: Log): int {
    if |log| == 0 then 0 else UsageTotal(log[..|log| - 1]) + CostOf(log[|log| - 1].event)
  }

  /** A verified log that extends another one and records that much more cost. */
  ghost predicate Grown(before: Log, after: Log, spent: int, hash: EntryHasher) {
    Verified(after, hash) && before <= after && UsageTotal(after) == UsageTotal(before) + spent
  }

  lemma FinishedMeansClosed(log: Log)
    requires Scan(log) != Wrong
    ensures IsFinished(log) <==> Scan(log) == Closed
  {
  }

  lemma StartedMeansOpened(log: Log)
    requires Scan(log) != Wrong && Scan(log) != Closed
    ensures Gateway.HasStarted(log) <==> Scan(log) != Fresh
  {
    if |log| > 0 {
      OpensFirst(log, 0);
      if |log| == 1 { assert Scan(log[..0]) == Fresh; }
    }
  }

  /** An append that keeps to the grammar always succeeds. */
  lemma AppendKeepsGrammar(log: Log, event: Event, runId: Text, at: int, hash: EntryHasher)
    requires Commits(hash) && Verified(log, hash)
    requires Scan(log) != Closed && Next(Scan(log), event, |log|) != Wrong
    ensures var r := AppendEntry(log, event, runId, at, hash);
            r.Ok? && Grown(log, r.value, CostOf(event), hash) && |r.value| == |log| + 1
            && Scan(r.value) == Next(Scan(log), event, |log|)
  {
    FinishedMeansClosed(log);
    AppendKeepsVerified(log, event, runId, at, hash);
    var entry := NextEntry(log, event, runId, at, hash);
    ScanSnoc(log, entry);
    assert (log + [entry])[..|log|] == log;
  }

  // ---- One delivery ----------------------------------------------------------------------------------------------

  predicate TurnMayStart(phase: Phase) {
    phase.Opened? || phase.Ready? || phase.Settled?
  }

  predicate BeforeAttempt(phase: Phase, attempt: nat) {
    if attempt == 1 then TurnMayStart(phase) else attempt > 0 && phase == Invoked(attempt - 1)
  }

  function ClosingOutcome(failure: RunFailure): RunOutcome {
    match failure
    case HaltedRun(_) => Halted
    case RefusedRun => Refused
    case AlreadyServedRun => Failed
    case FailedRun => Failed
  }

  /** A rejection leaves a log that the run can close the way it will, and is never due to the log. */
  predicate Closable(rejection: Gateway.ServeRejection, log: Log) {
    rejection != Gateway.ProviderFailed(Gateway.LogRefused)
        && MayFinish(Scan(log), ClosingOutcome(FailureOf(rejection)))
  }

  /** How one attempt leaves the log. */
  ghost predicate AttemptKept(before: Log, ended: (Gateway.AttemptOutcome, Gateway.Attempts), attempt: nat,
                              hash: EntryHasher) {
    var (outcome, next) := ended;
    && Grown(before, next.log, 0, hash)
    && (outcome.Retryable? ==> Scan(next.log) == Invoked(attempt))
    && (outcome.AttemptServed? ==> Scan(next.log) == Invoked(attempt) && outcome.invocationSeq == |next.log| - 1)
    && (outcome.AttemptHalted? ==> Closable(outcome.rejection, next.log))
  }

  lemma InvocationIsNext(log: Log, event: Event, attempt: nat)
    requires 0 < attempt <= Gateway.MAX_ATTEMPTS && BeforeAttempt(Scan(log), attempt) && event.ModelInvoked?
    ensures Next(Scan(log), event, |log|) == Invoked(attempt) && Scan(log) != Closed
  {
  }

  lemma RefusalIsClosable(reason: Gateway.RefusalReason, log: Log, attempt: nat)
    requires 0 < attempt && BeforeAttempt(Scan(log), attempt)
    ensures Closable(Gateway.Refusal(reason), log)
  {
  }

  lemma FailureIsClosable(why: Gateway.FailureReason, log: Log)
    requires Scan(log).Invoked? && why != Gateway.LogRefused
    ensures Closable(Gateway.ProviderFailed(why), log)
  {
  }

  lemma AttemptKeepsGrammar(serve: Gateway.ServeRequest, s: Gateway.Attempts, attempt: nat, answer: Gateway.Completion)
    requires Commits(serve.hash) && Verified(s.log, serve.hash)
    requires 0 < attempt <= Gateway.MAX_ATTEMPTS && BeforeAttempt(Scan(s.log), attempt)
    ensures AttemptKept(s.log, Gateway.Attempt(serve, s, attempt, answer), attempt, serve.hash)
  {
    var decision := Gateway.SelectProvider(serve, s.attempted);
    if decision.Route? {
      var event := Gateway.InvocationOf(serve, decision);
      InvocationIsNext(s.log, event, attempt);
      AppendKeepsGrammar(s.log, event, serve.runId, serve.at, serve.hash);
      var written := AppendEntry(s.log, event, serve.runId, serve.at, serve.hash).value;
      FailureIsClosable(Gateway.NoAdapter, written);
      FailureIsClosable(Gateway.NotTransient, written);
      FailureIsClosable(Gateway.AttemptsExhausted, written);
    } else {
      RefusalIsClosable(decision.reason, s.log, attempt);
    }
  }

  /** How the attempts leave the log: in an answered invocation, or closable. */
  ghost predicate AttemptsKept(before: Log, ended: (Gateway.AttemptOutcome, Gateway.Attempts), hash: EntryHasher) {
    var (outcome, next) := ended;
    && Grown(before, next.log, 0, hash) && !outcome.Retryable?
    && (outcome.AttemptServed? ==> Scan(next.log).Invoked? && outcome.invocationSeq == |next.log| - 1)
    && (outcome.AttemptHalted? ==> Closable(outcome.rejection, next.log))
  }

  lemma KeptInTheEnd(before: Log, first: (Gateway.AttemptOutcome, Gateway.Attempts), attempt: nat, hash: EntryHasher)
    requires AttemptKept(before, first, attempt, hash) && !first.0.Retryable?
    ensures AttemptsKept(before, first, hash)
  {
  }

  lemma KeptLater(before: Log, after: Log, ended: (Gateway.AttemptOutcome, Gateway.Attempts), hash: EntryHasher)
    requires Grown(before, after, 0, hash) && AttemptsKept(after, ended, hash)
    ensures AttemptsKept(before, ended, hash)
  {
  }

  lemma {:induction false} AttemptsKeepGrammar(serve: Gateway.ServeRequest, s: Gateway.Attempts, attempt: nat,
                                               completions: nat -> Gateway.Completion)
    requires Commits(serve.hash) && Verified(s.log, serve.hash)
    requires 0 < attempt <= Gateway.MAX_ATTEMPTS && BeforeAttempt(Scan(s.log), attempt)
    ensures AttemptsKept(s.log, Gateway.AttemptsFrom(serve, s, attempt, completions), serve.hash)
    decreases Gateway.MAX_ATTEMPTS - attempt
  {
    AttemptKeepsGrammar(serve, s, attempt, completions(attempt));
    Gateway.FirstAttempt(serve, s, attempt, completions);
    var first := Gateway.Attempt(serve, s, attempt, completions(attempt));
    if !first.0.Retryable? {
      KeptInTheEnd(s.log, first, attempt, serve.hash);
    } else {
      Gateway.LoopAlwaysAnswers(serve, s, attempt, completions);
      if attempt < Gateway.MAX_ATTEMPTS {
        AttemptsKeepGrammar(serve, first.1, attempt + 1, completions);
        KeptLater(s.log, first.1.log, Gateway.AttemptsFrom(serve, first.1, attempt + 1, completions), serve.hash);
      } else {
        Gateway.NoAttemptLeft(serve, first.1, completions);
      }
    }
  }

  lemma OpenKeepsGrammar(serve: Gateway.ServeRequest, log: Log, openSeal: Option<Sealed>)
    requires Commits(serve.hash) && Verified(log, serve.hash)
    requires Scan(log).Fresh? || Scan(log).Ready? || Scan(log).Settled?
    ensures var r := Gateway.OpenRun(serve, log, openSeal);
            && (r.Ok? ==> Grown(log, r.value, 0, serve.hash) && TurnMayStart(Scan(r.value)))
            && (r.Err? ==> Closable(r.error, log))
  {
    StartedMeansOpened(log);
    if !Gateway.HasStarted(log) && openSeal.Some? {
      AppendKeepsGrammar(log,
                         RunStarted(serve.principal, serve.tenant, serve.tenantRegion, serve.legalBasisPolicy,
                                    openSeal.value),
                         serve.runId, serve.at, serve.hash);
    }
  }

  /** What a reply costs, and nothing without one. */
  function SpentBy(serve: Gateway.ServeRequest, r: Gateway.ServeResult): int {
    if r.Served? then serve.cost(r.reply.inputTokens, r.reply.outputTokens) else 0
  }

  lemma CloseKeepsGrammar(serve: Gateway.ServeRequest, s: Gateway.Attempts, reply: Gateway.Reply, invocationSeq: nat,
                          closeSeal: Option<Sealed>)
    requires Commits(serve.hash) && Verified(s.log, serve.hash) && Scan(s.log).Invoked? && invocationSeq == |s.log| - 1
    ensures var r := Gateway.CloseRun(serve, s, reply, invocationSeq, closeSeal).0;
            && Grown(s.log, r.log, SpentBy(serve, r), serve.hash)
            && (r.Served? ==> Scan(r.log) == Settled)
            && (r.Rejected? ==> Closable(r.rejection, r.log))
  {
    if closeSeal.Some? {
      AppendKeepsGrammar(s.log, Gateway.UsageOf(serve, reply, invocationSeq), serve.runId, serve.at, serve.hash);
    }
  }

  /** A settled turn, or a log the run can close as the rejection asks. */
  ghost predicate DeliveryKept(before: Log, r: Gateway.ServeResult, spent: int, hash: EntryHasher) {
    && Grown(before, r.log, spent, hash)
    && (r.Served? ==> Scan(r.log) == Settled)
    && (r.Rejected? ==> Closable(r.rejection, r.log))
  }

  lemma ConcludeKeepsGrammar(serve: Gateway.ServeRequest, before: Log, start: Log,
                             ended: (Gateway.AttemptOutcome, Gateway.Attempts),
                              closeSeal: Option<Sealed>)
    requires Commits(serve.hash) && Grown(before, start, 0, serve.hash) && AttemptsKept(start, ended, serve.hash)
    ensures var r := Gateway.Conclude(serve, ended, closeSeal).0;
            DeliveryKept(before, r, SpentBy(serve, r), serve.hash)
  {
    var (outcome, s) := ended;
    if outcome.AttemptServed? {
      CloseKeepsGrammar(serve, s, outcome.reply, outcome.invocationSeq, closeSeal);
    }
  }

  /** A delivery leaves a settled turn, or a log the run can close as the rejection asks. */
  lemma DeliveryKeepsGrammar(serve: Gateway.ServeRequest, log: Log, d: Gateway.Delivery)
    requires Commits(serve.hash) && Verified(log, serve.hash)
    requires Scan(log).Fresh? || Scan(log).Ready? || Scan(log).Settled?
    ensures var r := Gateway.Serve(serve, log, d).0;
            DeliveryKept(log, r, SpentBy(serve, r), serve.hash)
  {
    OpenKeepsGrammar(serve, log, d.openSeal);
    var start := Gateway.OpenRun(serve, log, d.openSeal);
    if d.claim.Claimed? && start.Ok? {
      var opening := Gateway.Opening(serve, log, start.value);
      AttemptsKeepGrammar(serve, opening, 1, d.completions);
      ConcludeKeepsGrammar(serve, log, start.value, Gateway.AttemptsFrom(serve, opening, 1, d.completions),
                           d.closeSeal);
    }
  }

  // ---- One tool step ---------------------------------------------------------------------------------------------

  lemma {:induction false} WrongStays(events: seq<Event>, index: nat)
    ensures ScanOn(Wrong, events, index) == Wrong
    decreases |events|
  {
    if |events| > 0 { WrongStays(events[1..], index + 1); }
  }

  predicate NoUsage(events: seq<Event>) {
    forall i | 0 <= i < |events| :: !events[i].UsageRecorded?
  }

  lemma {:induction false} EventsKeepGrammar(log: Log, events: seq<Event>, runId: Text, clock: nat -> int,
                                             hash: EntryHasher)
    requires Commits(hash) && Verified(log, hash) && NoUsage(events)
    requires ScanOn(Scan(log), events, |log|) != Wrong
    ensures var (appended, after) := AppendEvents(log, events, runId, clock, hash);
            appended && Grown(log, after, 0, hash) && Scan(after) == ScanOn(Scan(log), events, |log|)
                && |after| == |log| + |events|
    decreases |events|
  {
    if |events| > 0 {
      if Next(Scan(log), events[0], |log|) == Wrong { WrongStays(events[1..], |log| + 1); }
      AppendKeepsGrammar(log, events[0], runId, clock(|log|), hash);
      EventsKeepGrammar(AppendEntry(log, events[0], runId, clock(|log|), hash).value, events[1..], runId, clock, hash);
    }
  }

  lemma {:induction false} BlocksScan(phase: Phase, events: seq<Event>, index: nat)
    requires phase.Settled? || phase.Blocking?
    requires forall i | 0 <= i < |events| :: events[i].GuardrailEvaluated? && events[i].railOutcome == Blocked
    ensures ScanOn(phase, events, index) == if |events| == 0 then phase else Blocking
    decreases |events|
  {
    if |events| > 0 { BlocksScan(Next(phase, events[0], index), events[1..], index + 1); }
  }

  lemma {:induction false} AllowancesScan(phase: Phase, events: seq<Event>, index: nat)
    requires phase.Settled? || phase.Blocking? || phase.Allowing?
    requires forall i | 0 <= i < |events| :: events[i].GuardrailEvaluated? && events[i].railOutcome == Allowed
    ensures ScanOn(phase, events, index) ==
            if |events| == 0 then phase else Allowing((if phase.Allowing? then phase.n else 0) + |events|)
    decreases |events|
  {
    if |events| > 0 { AllowancesScan(Next(phase, events[0], index), events[1..], index + 1); }
  }

  lemma {:induction false} RecordsScan(phase: Phase, events: seq<Event>, index: nat)
    requires phase.Settled? || phase.Blocking? || phase.Allowing? || phase.Retrieving?
    requires forall i | 0 <= i < |events| :: events[i].RecordRetrieved?
    ensures ScanOn(phase, events, index) ==
            if |events| == 0 then phase
            else if phase.Retrieving? then Retrieving(phase.allowed, phase.n + |events|)
            else Retrieving(if phase.Allowing? then phase.n else 0, |events|)
    decreases |events|
  {
    if |events| > 0 { RecordsScan(Next(phase, events[0], index), events[1..], index + 1); }
  }

  function AllowanceEvents(admitted: seq<RetrievedRecord>, screened: bool): seq<Event> {
    if screened
    then seq(|admitted|, _ => GuardrailEvaluated(Ascii("retrieval-rail"), Ascii("all-classifiers-passed"), Allowed))
    else []
  }

  lemma CallScans(phase: Phase, tool: Text, arguments: Sealed, committed: seq<Text>, index: nat)
    requires phase.Settled? || phase.Blocking?
             || (phase.Retrieving? && (phase.allowed == 0 || phase.allowed == phase.n))
    ensures ScanOn(phase, [ToolCalled(tool, arguments, ToolSucceeded, committed)], index) == Ready
  {
    assert [ToolCalled(tool, arguments, ToolSucceeded, committed)][1..] == [];
  }

  /** The block before the call: as many allowances as records, or none. */
  lemma BlockScans(blocked: seq<Event>, allowances: seq<Event>, records: seq<Event>, index: nat)
    requires forall i | 0 <= i < |blocked| :: blocked[i].GuardrailEvaluated? && blocked[i].railOutcome == Blocked
    requires forall i | 0 <= i < |allowances| ::
             allowances[i].GuardrailEvaluated? && allowances[i].railOutcome == Allowed
    requires forall i | 0 <= i < |records| :: records[i].RecordRetrieved?
    requires |allowances| == 0 || |allowances| == |records|
    ensures var phase := ScanOn(Settled, blocked + allowances + records, index);
            phase.Settled? || phase.Blocking? || (phase.Retrieving? && (phase.allowed == 0 || phase.allowed == phase.n))
  {
    ScanOnConcat(Settled, blocked + allowances, records, index);
    ScanOnConcat(Settled, blocked, allowances, index);
    BlocksScan(Settled, blocked, index);
    var afterBlocks := ScanOn(Settled, blocked, index);
    AllowancesScan(afterBlocks, allowances, index + |blocked|);
    RecordsScan(ScanOn(afterBlocks, allowances, index + |blocked|), records, index + |blocked + allowances|);
  }

  /** A tool that succeeded leaves a whole block: as many allowances as records, or none. */
  lemma SuccessScans(tool: Text, arguments: Sealed, blocked: seq<BlockedChunk>, admitted: seq<RetrievedRecord>,
                     screened: bool, committed: seq<Text>, index: nat)
    ensures var events := RetrievalEvents(tool, arguments, blocked, admitted, screened, committed);
            ScanOn(Settled, events, index) == Ready && NoUsage(events)
  {
    var blocks, allowances, records := BlockEvents(blocked), AllowanceEvents(admitted, screened),
        RecordEvents(admitted);
    BlockScans(blocks, allowances, records, index);
    ScanOnConcat(Settled, blocks + allowances + records, [ToolCalled(tool, arguments, ToolSucceeded, committed)],
                 index);
    CallScans(ScanOn(Settled, blocks + allowances + records, index), tool, arguments, committed,
              index + |blocks + allowances + records|);
  }

  lemma StepScans(deps: Deps, tool: Text, arguments: Sealed, turn: Turn, seen: set<Text>, index: nat)
    ensures var step := RecordFor(deps, tool, arguments, turn, seen);
            ScanOn(Settled, step.events, index) == (if step.effect.StepToolFailed? then Dead else Ready)
                && NoUsage(step.events)
  {
    var step := RecordFor(deps, tool, arguments, turn, seen);
    if DenialOf(deps, tool, turn).None? && turn.result.Observed? {
      var records := RecordsOf(tool, turn.result.observation);
      SuccessScans(tool, arguments, BlockedOf(records, deps.classifiers), Admitted(records, deps.classifiers),
                   |deps.classifiers| > 0, CommittedBy(turn.result.observation), index);
    } else {
      assert |step.events| == 1 && step.events[1..] == [];
    }
  }

  /** Only the sealing of the arguments can stop a tool step, and then nothing was written. */
  lemma ToolStepKeepsGrammar(request: RunRequest, deps: Deps, c: Context, tool: Text, turn: Turn)
    requires Commits(deps.hash) && Verified(c.log, deps.hash) && Scan(c.log) == Settled
    ensures var (effect, next) := ApplyToolStep(request, deps, c, tool, turn);
            && next.state == c.state && next.corrections == c.corrections && Grown(c.log, next.log, 0, deps.hash)
            && (effect.Ok? ==> Scan(next.log) == if effect.value.StepToolFailed? then Dead else Ready)
            && (effect.Err? ==> effect.error == FailedRun && next == c)
  {
    if turn.argumentsSeal.Some? {
      StepScans(deps, tool, turn.argumentsSeal.value, turn, c.seen, |c.log|);
      EventsKeepGrammar(c.log, RecordFor(deps, tool, turn.argumentsSeal.value, turn, c.seen).events, request.runId,
                        turn.clock, deps.hash);
    }
  }

  // ---- One trip --------------------------------------------------------------------------------------------------

  /** The loop head: a verified log between turns, whose recorded costs are the loop's own tally. */
  ghost predicate AtHead(c: Context, hash: EntryHasher) {
    && Verified(c.log, hash) && UsageTotal(c.log) == c.state.costMicros
    && (if !c.state.lastActionVerified then Scan(c.log) == Dead
        else Scan(c.log) == Ready || Scan(c.log) == Settled || Scan(c.log) == Fresh)
  }

  function OutcomeOf(answer: Result<Text, RunFailure>): RunOutcome {
    if answer.Ok? then Succeeded else ClosingOutcome(answer.error)
  }

  predicate EndsWith(log: Log, outcome: RunOutcome) {
    |log| > 0 && log[|log| - 1].event == RunFinished(outcome)
  }

  /** What a trip hands to the store: one log, torn nowhere, that says what the caller is told. */
  ghost predicate TripKept(before: Context, trip: Trip, stored: bool, hash: EntryHasher) {
    && trip.written == [trip.context.log]
    && Grown(before.log, trip.context.log, if trip.cost.Some? then trip.cost.value else 0, hash)
    && (trip.ended.None? ==> AtHead(trip.context, hash) && stored)
    && (trip.ended.Some? && stored ==> EndsWith(trip.context.log, OutcomeOf(trip.ended.value)))
    && (trip.ended.Some? && !stored ==> trip.ended.value == Err(FailedRun))
    && Whole(Scan(trip.context.log))
  }

  /** A log at rest: no delivery and no tool block is half written. */
  predicate Whole(phase: Phase) {
    phase.Settled? || phase.Ready? || phase.Dead? || phase.Closed?
  }

  lemma FinishKeepsGrammar(request: RunRequest, deps: Deps, c: Context, turn: Turn, outcome: RunOutcome,
                           answer: Result<Text, RunFailure>)
    requires Commits(deps.hash) && Verified(c.log, deps.hash) && MayFinish(Scan(c.log), outcome)
    ensures var (r, closed, logs) := FinishRun(request, deps, c, turn, outcome, answer);
            && r == (if turn.persists then answer else Err(FailedRun)) && logs == [closed.log]
            && closed == c.(log := closed.log) && Grown(c.log, closed.log, 0, deps.hash)
            && Scan(closed.log) == Closed && EndsWith(closed.log, outcome)
  {
    var events := [RunFinished(outcome)];
    assert events[1..] == [];
    assert ScanOn(Scan(c.log), events, |c.log|) == Closed;
    EventsKeepGrammar(c.log, events, request.runId, turn.clock, deps.hash);
  }

  lemma GrownTwice(a: Log, b: Log, c: Log, x: int, y: int, hash: EntryHasher)
    requires Grown(a, b, x, hash) && Grown(b, c, y, hash)
    ensures Grown(a, c, x + y, hash)
  {
  }

  lemma CloseFailedKeepsGrammar(request: RunRequest, deps: Deps, before: Context, c: Context, turn: Turn,
                                failure: RunFailure, prompts: seq<Text>, cost: Option<int>)
    requires Commits(deps.hash) && Grown(before.log, c.log, if cost.Some? then cost.value else 0, deps.hash)
    requires !failure.HaltedRun? && MayFinish(Scan(c.log), ClosingOutcome(failure))
    ensures TripKept(before, Ending(CloseFailed(request, deps, c, turn, failure), prompts, cost), turn.persists,
                     deps.hash)
  {
    FinishKeepsGrammar(request, deps, c, turn, ClosingOutcome(failure), Err(failure));
  }

  lemma ServeTurnKeepsGrammar(request: RunRequest, deps: Deps, prompt: Prompt, log: Log, turn: Turn)
    requires Commits(deps.hash) && Verified(log, deps.hash)
    requires Scan(log).Fresh? || Scan(log).Ready? || Scan(log).Settled?
    ensures var (served, after) := ServeTurn(request, deps, prompt, log, turn);
            && (served.Ok? ==>
                  Grown(log, after, deps.cost(served.value.inputTokens, served.value.outputTokens), deps.hash)
                  && Scan(after) == Settled)
            && (served.Err? ==>
                  Grown(log, after, 0, deps.hash) && !served.error.HaltedRun?
                  && MayFinish(Scan(after), ClosingOutcome(served.error)))
  {
    DeliveryKeepsGrammar(ServeRequestFor(request, deps, prompt, turn), log, turn.delivery);
  }

  lemma StepKeepsGrammar(request: RunRequest, deps: Deps, before: Context, c: Context, turn: Turn, text: Text,
                         cost: int, tool: Text)
    requires Commits(deps.hash) && AtHead(before, deps.hash) && c == before.(log := c.log)
    requires Grown(before.log, c.log, cost, deps.hash) && Scan(c.log) == Settled
    ensures TripKept(before, AfterStep(request, deps, ApplyToolStep(request, deps, c, tool, turn), turn, text, cost),
                     turn.persists, deps.hash)
  {
    ToolStepKeepsGrammar(request, deps, c, tool, turn);
    var (effect, c2) := ApplyToolStep(request, deps, c, tool, turn);
    GrownTwice(before.log, c.log, c2.log, cost, 0, deps.hash);
    if effect.Err? {
      CloseFailedKeepsGrammar(request, deps, before, c2, turn, effect.error, [text], Some(cost));
    }
  }

  lemma AnswerKeepsGrammar(request: RunRequest, deps: Deps, before: Context, c: Context, turn: Turn, text: Text,
                           cost: int, answer: Text)
    requires Commits(deps.hash) && Grown(before.log, c.log, cost, deps.hash) && Scan(c.log) == Settled
    ensures TripKept(before, Ending(FinishRun(request, deps, c, turn, Succeeded, Ok(answer)), [text], Some(cost)),
                     turn.persists, deps.hash)
  {
    FinishKeepsGrammar(request, deps, c, turn, Succeeded, Ok(answer));
  }

  /** What follows a reply. */
  lemma ReplyKeepsGrammar(request: RunRequest, deps: Deps, before: Context, c: Context, turn: Turn, text: Text,
                          reply: Gateway.Reply)
    requires Commits(deps.hash) && AtHead(before, deps.hash) && c == before.(log := c.log)
    requires Grown(before.log, c.log, deps.cost(reply.inputTokens, reply.outputTokens), deps.hash)
             && Scan(c.log) == Settled
    requires before.state.lastActionVerified
    ensures TripKept(before, AfterReply(request, deps, c, turn, text, reply), turn.persists, deps.hash)
  {
    var stepCost := deps.cost(reply.inputTokens, reply.outputTokens);
    match deps.parse(reply.text)
    case None =>
    case Some(Answer(answer)) => AnswerKeepsGrammar(request, deps, before, c, turn, text, stepCost, answer);
    case Some(UseTool(tool, _)) => StepKeepsGrammar(request, deps, before, c, turn, text, stepCost, tool);
  }

  lemma HaltKeepsGrammar(request: RunRequest, deps: Deps, c: Context, turn: Turn, reason: HaltReason)
    requires Commits(deps.hash) && AtHead(c, deps.hash)
    ensures TripKept(c, Ending(FinishRun(request, deps, c, turn, Halted, Err(HaltedRun(reason))), [], None),
                     turn.persists, deps.hash)
  {
    FinishKeepsGrammar(request, deps, c, turn, Halted, Err(HaltedRun(reason)));
  }

  lemma TripKeepsGrammar(request: RunRequest, deps: Deps, prompt: Prompt, summaries: seq<ToolSummary>, c: Context,
                         turn: Turn)
    requires Commits(deps.hash) && AtHead(c, deps.hash)
    ensures TripKept(c, OneTrip(request, deps, prompt, summaries, c, turn), turn.persists, deps.hash)
  {
    var verdict := EvaluateLoop(c.state, request.limits);
    if verdict.Some? {
      HaltKeepsGrammar(request, deps, c, turn, verdict.value);
    } else {
      var text := Transcript(request.question, summaries, c.observations, c.corrections);
      ServeTurnKeepsGrammar(request, deps, prompt, c.log, turn);
      var (served, log) := ServeTurn(request, deps, prompt, c.log, turn);
      var c1 := c.(log := log);
      if served.Err? {
        CloseFailedKeepsGrammar(request, deps, c, c1, turn, served.error, if turn.hashParses then [text] else [], None);
      } else {
        ReplyKeepsGrammar(request, deps, c, c1, turn, text, served.value);
      }
    }
  }
}
