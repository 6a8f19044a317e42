/**
 What a run answers, told of what the world answered it (src/agent/application/run-agent.ts,
 src/agent/domain/loop-controls.ts).
 */
module RunAnswers {
  import opened Outcomes
  import opened Texts
  import opened ExecutionLog
  import opened HashChain
  import opened Rail
  import opened LogGrammar
  import opened AgentRun
  import opened RunEvidence
  import opened RunTheorems
  import opened DeliveryAnswers
  import opened RunEntries
  import Gateway
  import Residency

  // ---- What an answer rests on ---------------------------------------------------------------------------------

  /** The reply of this turn's delivery is read as this answer. */
  predicate AnswersWithText(q: Quest, turn: Turn, text: Text) {
    exists n :: 0 < n <= 4 && ReadsAs(q.deps, turn.delivery.completions, n, text)
  }

  predicate ReadsAs(deps: Deps, completions: nat -> Gateway.Completion, n: nat, text: Text) {
    && completions(n).Completed? && AnswersAs(completions, completions(n).reply, n)
    && deps.parse(completions(n).reply.text) == Some(Answer(text))
  }

  /** Every provider that suits was called, and each call failed in a way that may pass. */
  ghost predicate TriedAll(q: Quest, turn: Turn) {
    exists calls: seq<Text> ::
      && FirstFail(turn.delivery.completions, |calls|)
      && forall provider |
           Residency.Resident(q.deps.candidates, q.request.tenantRegion, q.request.requiresZeroRetention, provider) ::
           provider in calls
  }

  /** Something the world was asked for in this turn failed. */
  predicate SomethingFailed(q: Quest, turn: Turn) {
    || !turn.persists || !turn.hashParses || turn.delivery.claim.ClaimStoreFailed?
    || turn.delivery.openSeal.None? || turn.delivery.closeSeal.None? || turn.argumentsSeal.None?
    || (exists n :: 0 < n <= 4 && FirstFail(turn.delivery.completions, n - 1)
                    && turn.delivery.completions(n) == Gateway.CallFailed(Gateway.ProviderRefused))
    || FirstFail(turn.delivery.completions, 4)
    || (exists i :: 0 <= i < |q.deps.candidates| && q.deps.candidates[i].id !in q.deps.adapters)
  }

  /** What a run that ends in this turn may answer, halts aside. */
  ghost predicate AnswerRests(q: Quest, turn: Turn, answer: Result<Text, RunFailure>) {
    match answer
    case Ok(text) => turn.persists && turn.delivery.claim.Claimed? && AnswersWithText(q, turn, text)
    case Err(RefusedRun) => turn.persists && turn.delivery.claim.Claimed? && TriedAll(q, turn)
    case Err(AlreadyServedRun) => turn.persists && turn.delivery.claim.AlreadyClaimed?
    case Err(FailedRun) => SomethingFailed(q, turn)
    case Err(HaltedRun(_)) => true
  }

  // ---- The limits ----------------------------------------------------------------------------------------------

  /** The limit a reason names is reached, and none of wider consequence is. */
  predicate LimitReached(reason: HaltReason, unverified: bool, spent: int, idle: int, turns: int, limits: LoopLimits) {
    match reason
    case UnverifiedAction => unverified
    case CostCeiling => !unverified && spent >= limits.costCeilingMicros
    case Stagnating => !unverified && spent < limits.costCeilingMicros && idle >= limits.maxStepsWithoutProgress
    case IterationCeiling =>
      && !unverified && spent < limits.costCeilingMicros && idle < limits.maxStepsWithoutProgress
      && turns >= limits.maxIterations
  }

  /** The log tells that the last tool was denied or failed. */
  predicate EndsUnverified(log: Log) {
    |log| > 0 && log[|log| - 1].event.ToolCalled? && log[|log| - 1].event.status != ToolSucceeded
  }

  // ---- Records seen --------------------------------------------------------------------------------------------

  /** The identifiers of the records a log tells of. */
  function RecordsIn(log: Log): set<Text> {
    set i | 0 <= i < |log| && log[i].event.RecordRetrieved? :: log[i].event.recordId
  }

  /** How many of the first n turns, counted back, told of no record that was not told of before. */
  function Idle(written: seq<Log>, n: nat): nat
    requires n <= |written|
  {
    if n == 0 || RecordsIn(written[n - 1]) != RecordsIn(Predecessor([], written, n - 1)) then 0
    else 1 + Idle(written, n - 1)
  }

  /**
   A halt is told by the record itself: by the log before the last, the turns it took, what it records as spent, how its
   last tool ended, and how many turns in a row brought no new record.
   */
  predicate HaltRests(limits: LoopLimits, written: seq<Log>, reason: HaltReason) {
    && |written| > 0
    && var (turns, head) := (|written| - 1, Predecessor([], written, |written| - 1));
    LimitReached(reason, EndsUnverified(head), UsageTotal(head), Idle(written, turns), turns, limits)
  }

  // ---- One trip ------------------------------------------------------------------------------------------------

  /** A trip's answer, in terms of the state it began in. */
  ghost predicate TripRests(q: Quest, c: Context, turn: Turn, trip: Trip) {
    trip.ended.Some? ==>
      AnswerRests(q, turn, trip.ended.value)
      && (trip.ended.value.Err? && trip.ended.value.error.HaltedRun? ==>
            LimitReached(trip.ended.value.error.reason, !c.state.lastActionVerified, c.state.costMicros,
                         c.state.stepsWithoutStateChange, c.state.iteration, q.request.limits))
  }

  lemma VerdictIsALimit(state: RunState, limits: LoopLimits)
    ensures var v := EvaluateLoop(state, limits);
            v.Some? ==> LimitReached(v.value, !state.lastActionVerified, state.costMicros,
                                     state.stepsWithoutStateChange,
                                     state.iteration, limits)
  {
  }

  lemma ExhaustedMeansAllTried(serve: Gateway.ServeRequest, calls: seq<Text>, completions: nat -> Gateway.Completion,
                               provider: Text)
    requires Gateway.Exhausted(serve, calls, completions) && Residency.ResidentFor(serve, provider)
    ensures provider in calls
  {
    Residency.EligibleMeansResident(serve, provider);
  }

  /** Refused for want of a provider, or because every one was tried. */
  ghost predicate RefusalGrounded(serve: Gateway.ServeRequest, r: Gateway.ServeResult, calls: seq<Text>,
                                  completions: nat -> Gateway.Completion) {
    && (r.Rejected? && r.rejection == Gateway.Refusal(Gateway.NoEligibleInRegionProvider)
        ==> Residency.NoneSuits(serve))
    && (r.Rejected? && r.rejection == Gateway.Refusal(Gateway.AllEligibleExhausted) ==>
          Gateway.Exhausted(serve, calls, completions))
  }

  lemma RefusalsAreGrounded(serve: Gateway.ServeRequest, log: Log, d: Gateway.Delivery)
    ensures RefusalGrounded(serve, Gateway.Serve(serve, log, d).0, Gateway.Calls(Gateway.Serve(serve, log, d).1),
                            d.completions)
  {
    var (r, trace) := Gateway.Serve(serve, log, d);
    Gateway.DeliveryStaysRouted(serve, log, d);
    Residency.RefusedExactlyWhenNoneSuits(serve, log, d);
    if r.Rejected? { assert r == Gateway.Rejected(r.rejection, r.log); }
  }

  /** A refused delivery has tried every provider that suits. */
  lemma RefusalMeansAllTried(serve: Gateway.ServeRequest, r: Gateway.ServeResult, calls: seq<Text>,
                             completions: nat -> Gateway.Completion, provider: Text)
    requires RefusalGrounded(serve, r, calls, completions) && r.Rejected? && r.rejection.Refusal?
    requires Residency.ResidentFor(serve, provider)
    ensures provider in calls
  {
    if r.rejection.reason.AllEligibleExhausted? { ExhaustedMeansAllTried(serve, calls, completions, provider); }
  }

  /** What a turn that was not served rests on. */
  lemma TurnFailureRests(q: Quest, log: Log, turn: Turn)
    requires !IsFinished(log)
    ensures var served := ServeTurn(q.request, q.deps, q.prompt, log, turn).0;
            && (served.Err? && turn.persists ==> AnswerRests(q, turn, Err(served.error)))
            && (served.Err? ==> !served.error.HaltedRun?)
            && (served.Ok? ==> turn.delivery.claim.Claimed? && RepliedIn(turn, served.value))
  {
    if turn.hashParses {
      var serve := ServeRequestFor(q.request, q.deps, q.prompt, turn);
      var (r, trace) := Gateway.Serve(serve, log, turn.delivery);
      DeliveryAnswersTruly(serve, log, turn.delivery);
      if r.Rejected? && r.rejection.Refusal? {
        RefusalsAreGrounded(serve, log, turn.delivery);
        forall provider | Residency.ResidentFor(serve, provider) ensures provider in Gateway.Calls(trace) {
          RefusalMeansAllTried(serve, r, Gateway.Calls(trace), turn.delivery.completions, provider);
        }
        assert FirstFail(turn.delivery.completions, |Gateway.Calls(trace)|);
      }
    }
  }

  lemma FinishRests(q: Quest, c: Context, turn: Turn, outcome: RunOutcome, answer: Result<Text, RunFailure>,
                    prompts: seq<Text>, cost: Option<int>)
    requires !IsFinished(c.log) && (turn.persists ==> AnswerRests(q, turn, answer))
    ensures var trip := Ending(FinishRun(q.request, q.deps, c, turn, outcome, answer), prompts, cost);
            AnswerRests(q, turn, trip.ended.value) && (turn.persists ==> trip.ended == Some(answer))
            && (!turn.persists ==> trip.ended == Some(Err(FailedRun)))
  {
    var events := [RunFinished(outcome)];
    var next := AppendEntry(c.log, events[0], q.request.runId, turn.clock(|c.log|), q.deps.hash);
    assert next.Ok? && events[1..] == [];
    assert AppendEvents(next.value, events[1..], q.request.runId, turn.clock, q.deps.hash) == (true, next.value);
    assert AppendEvents(c.log, events, q.request.runId, turn.clock, q.deps.hash) == (true, next.value);
  }

  lemma StepRests(q: Quest, c: Context, turn: Turn, text: Text, cost: int, tool: Text)
    requires Commits(q.deps.hash) && Verified(c.log, q.deps.hash) && Scan(c.log) == Settled
    ensures TripRests(q, c, turn,
                      AfterStep(q.request, q.deps, ApplyToolStep(q.request, q.deps, c, tool, turn), turn, text, cost))
  {
    var (effect, c2) := ApplyToolStep(q.request, q.deps, c, tool, turn);
    ToolStepKeepsGrammar(q.request, q.deps, c, tool, turn);
    StepFailsUnsealed(q, c, turn, tool);
    if effect.Err? {
      SettledIsOpen(c2.log);
      FinishRests(q, c2, turn, Failed, Err(FailedRun), [text], Some(cost));
    }
  }

  /** Only arguments that cannot be sealed stop a tool step. */
  lemma StepFailsUnsealed(q: Quest, c: Context, turn: Turn, tool: Text)
    requires Commits(q.deps.hash) && Verified(c.log, q.deps.hash) && Scan(c.log) == Settled
    ensures ApplyToolStep(q.request, q.deps, c, tool, turn).0.Err? ==> turn.argumentsSeal.None?
  {
    if turn.argumentsSeal.Some? {
      var events := RecordFor(q.deps, tool, turn.argumentsSeal.value, turn, c.seen).events;
      StepScans(q.deps, tool, turn.argumentsSeal.value, turn, c.seen, |c.log|);
      EventsKeepGrammar(c.log, events, q.request.runId, turn.clock, q.deps.hash);
    }
  }

  lemma SettledIsOpen(log: Log)
    requires !Scan(log).Closed? && !Scan(log).Wrong?
    ensures !IsFinished(log)
  {
  }

  lemma ReplyRests(q: Quest, c: Context, turn: Turn, text: Text, reply: Gateway.Reply)
    requires Commits(q.deps.hash) && Verified(c.log, q.deps.hash) && Scan(c.log) == Settled
    requires RepliedIn(turn, reply) && turn.delivery.claim.Claimed?
    ensures TripRests(q, c, turn, AfterReply(q.request, q.deps, c, turn, text, reply))
  {
    var cost := q.deps.cost(reply.inputTokens, reply.outputTokens);
    match q.deps.parse(reply.text)
    case None =>
    case Some(Answer(answer)) =>
      var n :| 0 < n <= 4 && AnswersAs(turn.delivery.completions, reply, n);
      assert ReadsAs(q.deps, turn.delivery.completions, n, answer);
      SettledIsOpen(c.log);
      FinishRests(q, c, turn, Succeeded, Ok(answer), [text], Some(cost));
    case Some(UseTool(tool, _)) => StepRests(q, c, turn, text, cost, tool);
  }

  lemma HaltRestsOnState(q: Quest, c: Context, turn: Turn, reason: HaltReason)
    requires !IsFinished(c.log) && EvaluateLoop(c.state, q.request.limits) == Some(reason)
    ensures TripRests(q, c, turn,
                      Ending(FinishRun(q.request, q.deps, c, turn, Halted, Err(HaltedRun(reason))), [], None))
  {
    VerdictIsALimit(c.state, q.request.limits);
    FinishRests(q, c, turn, Halted, Err(HaltedRun(reason)), [], None);
  }

  lemma FailureRests(q: Quest, c: Context, turn: Turn, failure: RunFailure, prompts: seq<Text>)
    requires !IsFinished(c.log) && !failure.HaltedRun? && (turn.persists ==> AnswerRests(q, turn, Err(failure)))
    ensures TripRests(q, c, turn, Ending(CloseFailed(q.request, q.deps, c, turn, failure), prompts, None))
  {
    FinishRests(q, c, turn, if failure.RefusedRun? then Refused else Failed, Err(failure), prompts, None);
  }

  lemma OneTripRests(q: Quest, summaries: seq<ToolSummary>, c: Context, turn: Turn)
    requires Commits(q.deps.hash) && AtHead(c, q.deps.hash)
    ensures TripRests(q, c, turn, OneTrip(q.request, q.deps, q.prompt, summaries, c, turn))
  {
    var verdict := EvaluateLoop(c.state, q.request.limits);
    SettledIsOpen(c.log);
    if verdict.Some? {
      HaltRestsOnState(q, c, turn, verdict.value);
    } else {
      var text := Transcript(q.request.question, summaries, c.observations, c.corrections);
      ServeTurnKeepsGrammar(q.request, q.deps, q.prompt, c.log, turn);
      TurnFailureRests(q, c.log, turn);
      var (served, log) := ServeTurn(q.request, q.deps, q.prompt, c.log, turn);
      var c1 := c.(log := log);
      if served.Err? {
        MayFinishIsOpen(log, ClosingOutcome(served.error));
        FailureRests(q, c1, turn, served.error, if turn.hashParses then [text] else []);
      } else {
        ReplyRests(q, c1, turn, text, served.value);
      }
    }
  }

  lemma MayFinishIsOpen(log: Log, outcome: RunOutcome)
    requires MayFinish(Scan(log), outcome)
    ensures !IsFinished(log)
  {
    SettledIsOpen(log);
  }

  // ---- What the log tells of records and of tools --------------------------------------------------------------

  function RecordIds(events: seq<Event>): set<Text> {
    set i | 0 <= i < |events| && events[i].RecordRetrieved? :: events[i].recordId
  }

  lemma AppendedRecords(log: Log, event: Event, runId: Text, at: int, hash: EntryHasher)
    requires !IsFinished(log)
    ensures RecordsIn(AppendEntry(log, event, runId, at, hash).value) == RecordsIn(log) + RecordIds([event])
  {
    var next := AppendEntry(log, event, runId, at, hash).value;
    forall id ensures id in RecordsIn(next) <==> id in RecordsIn(log) + RecordIds([event]) {
      if id in RecordsIn(log) {
        var i :| 0 <= i < |log| && log[i].event.RecordRetrieved? && log[i].event.recordId == id;
        assert next[i] == log[i];
      }
      if id in RecordIds([event]) { assert next[|log|].event == event && [event][0] == event; }
      if id in RecordsIn(next) {
        var i :| 0 <= i < |next| && next[i].event.RecordRetrieved? && next[i].event.recordId == id;
        if i < |log| { assert next[i] == log[i]; } else { assert [event][0] == event; }
      }
    }
  }

  lemma {:induction false} AppendedAllRecords(log: Log, events: seq<Event>, runId: Text, clock: nat -> int,
                                              hash: EntryHasher)
    requires AppendEvents(log, events, runId, clock, hash).0
    ensures RecordsIn(AppendEvents(log, events, runId, clock, hash).1) == RecordsIn(log) + RecordIds(events)
    decreases |events|
  {
    if |events| > 0 {
      var next := AppendEntry(log, events[0], runId, clock(|log|), hash).value;
      AppendedRecords(log, events[0], runId, clock(|log|), hash);
      AppendedAllRecords(next, events[1..], runId, clock, hash);
      assert events == [events[0]] + events[1..];
      assert RecordIds(events) == RecordIds([events[0]]) + RecordIds(events[1..]) by {
        IdsOfConcat([events[0]], events[1..]);
      }
    }
  }

  lemma IdsOfConcat(a: seq<Event>, b: seq<Event>)
    ensures RecordIds(a + b) == RecordIds(a) + RecordIds(b)
  {
    forall id ensures id in RecordIds(a + b) <==> id in RecordIds(a) || id in RecordIds(b) {
      if id in RecordIds(a) {
        var i :| 0 <= i < |a| && a[i].RecordRetrieved? && a[i].recordId == id;
        assert (a + b)[i] == a[i];
      }
      if id in RecordIds(b) {
        var i :| 0 <= i < |b| && b[i].RecordRetrieved? && b[i].recordId == id;
        assert (a + b)[|a| + i] == b[i];
      }
    }
  }

  lemma NoRecordIds(events: seq<Event>)
    requires forall i | 0 <= i < |events| :: !events[i].RecordRetrieved?
    ensures RecordIds(events) == {}
  {
  }

  lemma AdmittedIds(admitted: seq<RetrievedRecord>)
    ensures RecordIds(RecordEvents(admitted)) == IdsOf(admitted)
  {
    var events := RecordEvents(admitted);
    forall id ensures id in RecordIds(events) <==> id in IdsOf(admitted) {
      if id in IdsOf(admitted) {
        var i :| 0 <= i < |admitted| && admitted[i].recordId == id;
        assert events[i].recordId == id;
      }
    }
  }

  lemma SuccessIds(tool: Text, arguments: Sealed, blocked: seq<BlockedChunk>, admitted: seq<RetrievedRecord>,
                   screened: bool, committed: seq<Text>)
    ensures RecordIds(RetrievalEvents(tool, arguments, blocked, admitted, screened, committed)) == IdsOf(admitted)
  {
    var allowances := AllowanceEvents(admitted, screened);
    var call := [ToolCalled(tool, arguments, ToolSucceeded, committed)];
    IdsOfConcat(BlockEvents(blocked) + allowances + RecordEvents(admitted), call);
    IdsOfConcat(BlockEvents(blocked) + allowances, RecordEvents(admitted));
    IdsOfConcat(BlockEvents(blocked), allowances);
    NoRecordIds(BlockEvents(blocked));
    NoRecordIds(allowances);
    NoRecordIds(call);
    AdmittedIds(admitted);
  }

  /** A step sees what it tells of, and calls it new evidence exactly when some of it is new. */
  lemma StepIds(deps: Deps, tool: Text, arguments: Sealed, turn: Turn, seen: set<Text>)
    ensures var step := RecordFor(deps, tool, arguments, turn, seen);
            step.seen == seen + RecordIds(step.events) && (step.effect.ObservedNewEvidence? <==> step.seen != seen)
  {
    var step := RecordFor(deps, tool, arguments, turn, seen);
    if DenialOf(deps, tool, turn).None? && turn.result.Observed? {
      var records := RecordsOf(tool, turn.result.observation);
      var admitted := Admitted(records, deps.classifiers);
      SuccessIds(tool, arguments, BlockedOf(records, deps.classifiers), admitted, |deps.classifiers| > 0,
                 CommittedBy(turn.result.observation));
      NewIds(admitted, seen);
    } else {
      NoRecordIds(step.events);
    }
  }

  lemma NewIds(admitted: seq<RetrievedRecord>, seen: set<Text>)
    ensures HasNewEvidence(admitted, seen) <==> seen + IdsOf(admitted) != seen
  {
    if HasNewEvidence(admitted, seen) {
      var i :| 0 <= i < |admitted| && admitted[i].recordId !in seen;
      assert admitted[i].recordId in IdsOf(admitted);
    } else {
      assert forall id | id in IdsOf(admitted) :: id in seen;
    }
  }

  /** A delivery tells of no record. */
  lemma ServingTellsOfNoRecord(q: Quest, log: Log, turn: Turn)
    ensures RecordsIn(ServeTurn(q.request, q.deps, q.prompt, log, turn).1) == RecordsIn(log)
  {
    if turn.hashParses {
      var serve := ServeRequestFor(q.request, q.deps, q.prompt, turn);
      DeliveryEntriesTellTheTruth(serve, log, turn.delivery);
      var after := Gateway.Serve(serve, log, turn.delivery).0.log;
      GrownWithoutRecords(serve, turn.delivery, log, after);
    }
  }

  lemma GrownWithoutRecords(serve: Gateway.ServeRequest, d: Gateway.Delivery, log: Log, after: Log)
    requires GrewBy(serve, d, log, after)
    ensures RecordsIn(after) == RecordsIn(log)
  {
    forall id ensures id in RecordsIn(after) <==> id in RecordsIn(log) {
      if id in RecordsIn(log) {
        var i :| 0 <= i < |log| && log[i].event.RecordRetrieved? && log[i].event.recordId == id;
        assert after[i] == log[i];
      }
      if id in RecordsIn(after) {
        var i :| 0 <= i < |after| && after[i].event.RecordRetrieved? && after[i].event.recordId == id;
        assert i >= |log| ==> DeliveryEntry(serve, d, after[i]);
        assert i < |log| && after[i] == log[i];
      }
    }
  }

  lemma HeadTellsUnverified(c: Context, hash: EntryHasher)
    requires AtHead(c, hash)
    ensures EndsUnverified(c.log) <==> !c.state.lastActionVerified
  {
  }

  // ---- Whole runs ----------------------------------------------------------------------------------------------

  /** After these logs, a loop head: what the loop keeps of them is what they tell. */
  ghost predicate HeadRests(past: seq<Log>, c: Context, hash: EntryHasher) {
    && AtHead(c, hash) && |past| == c.state.iteration && c.log == (if |past| == 0 then [] else past[|past| - 1])
    && RecordsIn(c.log) == c.seen && Idle(past, |past|) == c.state.stepsWithoutStateChange
  }

  lemma {:induction false} IdleOfPrefix(past: seq<Log>, more: seq<Log>, n: nat)
    requires n <= |past|
    ensures Idle(past + more, n) == Idle(past, n)
  {
    if n > 0 {
      assert (past + more)[n - 1] == past[n - 1];
      assert n > 1 ==> (past + more)[n - 2] == past[n - 2];
      IdleOfPrefix(past, more, n - 1);
    }
  }

  /** The step counter after a turn: none if the turn told of a new record, otherwise one more. */
  predicate Counted(c: Context, next: Context) {
    && RecordsIn(next.log) == next.seen && next.state.iteration == c.state.iteration + 1
    && next.state.stepsWithoutStateChange == if next.seen != c.seen then 0 else c.state.stepsWithoutStateChange + 1
  }

  lemma NextHeadRests(past: seq<Log>, c: Context, next: Context, hash: EntryHasher)
    requires HeadRests(past, c, hash) && AtHead(next, hash) && Counted(c, next)
    ensures HeadRests(past + [next.log], next, hash)
  {
    var longer := past + [next.log];
    IdleOfPrefix(past, [next.log], |past|);
    assert longer[|past|] == next.log && Predecessor([], longer, |past|) == c.log;
  }

  lemma StepCounts(q: Quest, c: Context, c1: Context, turn: Turn, tool: Text, cost: int)
    requires RecordsIn(c.log) == c.seen && c1 == c.(log := c1.log) && RecordsIn(c1.log) == c.seen
    ensures var (effect, c2) := ApplyToolStep(q.request, q.deps, c1, tool, turn);
            effect.Ok? ==> Counted(c, c2.(state := Advance(c2.state, effect.value, cost)))
  {
    if turn.argumentsSeal.Some? {
      var step := RecordFor(q.deps, tool, turn.argumentsSeal.value, turn, c1.seen);
      StepIds(q.deps, tool, turn.argumentsSeal.value, turn, c1.seen);
      if AppendEvents(c1.log, step.events, q.request.runId, turn.clock, q.deps.hash).0 {
        AppendedAllRecords(c1.log, step.events, q.request.runId, turn.clock, q.deps.hash);
      }
    }
  }

  lemma ReplyCounts(q: Quest, c: Context, c1: Context, turn: Turn, text: Text, reply: Gateway.Reply)
    requires RecordsIn(c.log) == c.seen && c1 == c.(log := c1.log) && RecordsIn(c1.log) == c.seen
    ensures var trip := AfterReply(q.request, q.deps, c1, turn, text, reply);
            trip.ended.None? ==> Counted(c, trip.context)
  {
    var cost := q.deps.cost(reply.inputTokens, reply.outputTokens);
    match q.deps.parse(reply.text)
    case None =>
    case Some(Answer(_)) =>
    case Some(UseTool(tool, _)) => StepCounts(q, c, c1, turn, tool, cost);
  }

  lemma TripCounts(q: Quest, summaries: seq<ToolSummary>, c: Context, turn: Turn)
    requires RecordsIn(c.log) == c.seen
    ensures var trip := OneTrip(q.request, q.deps, q.prompt, summaries, c, turn);
            trip.ended.None? ==> Counted(c, trip.context)
  {
    if EvaluateLoop(c.state, q.request.limits).None? {
      var (served, log) := ServeTurn(q.request, q.deps, q.prompt, c.log, turn);
      ServingTellsOfNoRecord(q, c.log, turn);
      if served.Ok? {
        ReplyCounts(q, c, c.(log := log), turn,
                    Transcript(q.request.question, summaries, c.observations, c.corrections), served.value);
      }
    }
  }

  /** The answer of a run that handed over all these logs rests on its last turn, and a halt on the logs. */
  ghost predicate Rests(q: Quest, script: Script, written: seq<Log>, answer: Result<Text, RunFailure>) {
    && |written| > 0 && AnswerRests(q, script(|written| - 1), answer)
    && (answer.Err? && answer.error.HaltedRun? ==> HaltRests(q.request.limits, written, answer.error.reason))
  }

  /** The same of a run that comes after these logs. */
  ghost predicate RunRests(q: Quest, script: Script, past: seq<Log>, run: Run) {
    Rests(q, script, past + run.written, run.answer)
  }

  lemma LastTripRests(q: Quest, script: Script, past: seq<Log>, c: Context, trip: Trip, stored: bool)
    requires HeadRests(past, c, q.deps.hash) && trip.ended.Some? && trip.written == [trip.context.log]
    requires TripRests(q, c, script(c.state.iteration), trip)
    ensures RunRests(q, script, past, LastOf(trip, stored))
  {
    var all := past + trip.written;
    HeadTellsUnverified(c, q.deps.hash);
    IdleOfPrefix(past, trip.written, |past|);
    assert |all| - 1 == |past| && Predecessor([], all, |past|) == c.log;
  }

  lemma EarlierTripRests(q: Quest, script: Script, past: seq<Log>, trip: Trip, rest: Run)
    requires trip.written == [trip.context.log] && RunRests(q, script, past + [trip.context.log], rest)
    ensures RunRests(q, script, past, Before(trip, rest))
  {
    assert past + (trip.written + rest.written) == (past + [trip.context.log]) + rest.written;
  }

  /** A trip that goes on comes to a head again. */
  lemma TripComesToHead(q: Quest, summaries: seq<ToolSummary>, past: seq<Log>, c: Context, turn: Turn)
    requires Commits(q.deps.hash) && HeadRests(past, c, q.deps.hash)
    ensures var trip := OneTrip(q.request, q.deps, q.prompt, summaries, c, turn);
            && trip.written == [trip.context.log] && TripRests(q, c, turn, trip)
            && (trip.ended.None? ==> HeadRests(past + [trip.context.log], trip.context, q.deps.hash))
  {
    var trip := OneTrip(q.request, q.deps, q.prompt, summaries, c, turn);
    OneTripRests(q, summaries, c, turn);
    TripKeepsGrammar(q.request, q.deps, q.prompt, summaries, c, turn);
    TripCounts(q, summaries, c, turn);
    if trip.ended.None? { NextHeadRests(past, c, trip.context, q.deps.hash); }
  }

  lemma {:induction false} RunFromRests(q: Quest, summaries: seq<ToolSummary>, past: seq<Log>, c: Context,
                                        script: Script)
    requires Commits(q.deps.hash) && HeadRests(past, c, q.deps.hash)
    ensures RunRests(q, script, past, RunFrom(q.request, q.deps, q.prompt, summaries, c, script))
    decreases q.request.limits.maxIterations - c.state.iteration
  {
    var turn := script(c.state.iteration);
    TripComesToHead(q, summaries, past, c, turn);
    var trip := OneTrip(q.request, q.deps, q.prompt, summaries, c, turn);
    if trip.ended.None? {
      RunFromRests(q, summaries, past + [trip.context.log], trip.context, script);
      EarlierTripRests(q, script, past, trip, RunFrom(q.request, q.deps, q.prompt, summaries, trip.context, script));
    } else {
      LastTripRests(q, script, past, c, trip, turn.persists);
    }
  }

  lemma StartRests(hash: EntryHasher)
    ensures HeadRests([], INITIAL_CONTEXT, hash)
  {
    StartsAtHead(hash);
  }

  /**
   What a run answers rests on its last turn. An answer is how the reply of the first call that did not fail in passing
   reads; a refusal comes when every provider that suits was tried; a failure when something failed. And a halt is for
   the first of the four limits that the record itself shows to be reached.
   */
  lemma EveryAnswerRests(request: RunRequest, deps: Deps, script: Script)
    requires Commits(deps.hash) && deps.snapshot.Some? && deps.summaries.Some?
    ensures var run := AgentRunOf(request, deps, script);
            Rests(Quest(request, deps, deps.snapshot.value), script, run.written, run.answer)
  {
    var q := Quest(request, deps, deps.snapshot.value);
    StartRests(deps.hash);
    RunFromRests(q, deps.summaries.value, [], INITIAL_CONTEXT, script);
    assert [] + AgentRunOf(request, deps, script).written == AgentRunOf(request, deps, script).written;
  }
}
