/**
 Whole-run noninterference: what the rail withholds from one tool result changes nothing the run says, asks or remembers
 (src/agent/application/tool-step.ts, src/agent/application/run-agent.ts, src/agent/domain/retrieval-rail.ts).

 Two runs are compared whose worlds differ only in withheld tool output. Their logs may differ, since what was blocked
 is recorded; everything the model is shown and everything the caller is told may not.
 */
module Withholding {
  import opened Outcomes
  import opened Texts
  import opened ExecutionLog
  import opened HashChain
  import opened Rail
  import opened AgentRun
  import Gateway

  /** What the program reads back from its log while it runs: whether it was opened and whether it is closed. */
  predicate LogsAlike(a: Log, b: Log) {
    Gateway.HasStarted(a) == Gateway.HasStarted(b) && IsFinished(a) == IsFinished(b)
  }

  predicate ContextsAlike(a: Context, b: Context) {
    a.(log := b.log) == b && LogsAlike(a.log, b.log)
  }

  lemma AppendedStarts(log: Log, entry: Entry)
    ensures Gateway.HasStarted(log + [entry]) <==> Gateway.HasStarted(log) || entry.event.RunStarted?
    ensures IsFinished(log + [entry]) <==> entry.event.RunFinished?
  {
    var longer := log + [entry];
    assert longer[|log|] == entry;
    if Gateway.HasStarted(log) {
      var i :| 0 <= i < |log| && log[i].event.RunStarted?;
      assert longer[i].event.RunStarted?;
    }
  }

  /** Alike logs stay alike under appends of events of the same kind. */
  lemma AppendsAlike(a: Log, b: Log, x: Event, y: Event, runId: Text, s: int, t: int, hash: EntryHasher)
    requires LogsAlike(a, b) && x.RunStarted? == y.RunStarted? && x.RunFinished? == y.RunFinished?
    ensures var (p, q) := (AppendEntry(a, x, runId, s, hash), AppendEntry(b, y, runId, t, hash));
            p.Ok? == q.Ok? && (p.Ok? ==> LogsAlike(p.value, q.value))
  {
    AppendedStarts(a, NextEntry(a, x, runId, s, hash));
    AppendedStarts(b, NextEntry(b, y, runId, t, hash));
  }

  // ---- A delivery reads nothing else from the log ----------------------------------------------------------------

  predicate OutcomesAlike(a: Gateway.AttemptOutcome, b: Gateway.AttemptOutcome) {
    match a
    case AttemptServed(reply, _) => b.AttemptServed? && b.reply == reply
    case Retryable => b.Retryable?
    case AttemptHalted(rejection) => b == Gateway.AttemptHalted(rejection)
  }

  predicate AttemptsAlike(a: Gateway.Attempts, b: Gateway.Attempts) {
    a.attempted == b.attempted && LogsAlike(a.log, b.log)
  }

  lemma AttemptReadsLittle(serve: Gateway.ServeRequest, a: Gateway.Attempts, b: Gateway.Attempts, attempt: nat,
                           answer: Gateway.Completion)
    requires attempt > 0 && AttemptsAlike(a, b)
    ensures var (p, q) := (Gateway.Attempt(serve, a, attempt, answer), Gateway.Attempt(serve, b, attempt, answer));
            OutcomesAlike(p.0, q.0) && AttemptsAlike(p.1, q.1)
  {
    var decision := Gateway.SelectProvider(serve, a.attempted);
    if decision.Route? {
      var event := Gateway.InvocationOf(serve, decision);
      AppendsAlike(a.log, b.log, event, event, serve.runId, serve.at, serve.at, serve.hash);
    }
  }

  lemma {:induction false} AttemptsReadLittle(serve: Gateway.ServeRequest, a: Gateway.Attempts, b: Gateway.Attempts,
                                              attempt: nat, completions: nat -> Gateway.Completion)
    requires attempt > 0 && AttemptsAlike(a, b)
    ensures var (p, q) := (Gateway.AttemptsFrom(serve, a, attempt, completions),
                           Gateway.AttemptsFrom(serve, b, attempt, completions));
            OutcomesAlike(p.0, q.0) && AttemptsAlike(p.1, q.1)
    decreases Gateway.MAX_ATTEMPTS + 1 - attempt
  {
    if attempt <= Gateway.MAX_ATTEMPTS {
      AttemptReadsLittle(serve, a, b, attempt, completions(attempt));
      var (p, q) := (Gateway.Attempt(serve, a, attempt, completions(attempt)),
                     Gateway.Attempt(serve, b, attempt, completions(attempt)));
      if p.0.Retryable? {
        AttemptsReadLittle(serve, p.1, q.1, attempt + 1, completions);
      }
    }
  }

  predicate ResultsAlike(a: Gateway.ServeResult, b: Gateway.ServeResult) {
    && LogsAlike(a.log, b.log)
    && (match a
        case Served(reply, _) => b.Served? && b.reply == reply
        case Rejected(rejection, _) => b.Rejected? && b.rejection == rejection)
  }

  lemma OpenReadsLittle(serve: Gateway.ServeRequest, a: Log, b: Log, openSeal: Option<Sealed>)
    requires LogsAlike(a, b)
    ensures var (p, q) := (Gateway.OpenRun(serve, a, openSeal), Gateway.OpenRun(serve, b, openSeal));
            p.Ok? == q.Ok? && (p.Ok? ==> LogsAlike(p.value, q.value)) && (p.Err? ==> p.error == q.error)
  {
    if openSeal.Some? {
      var event := RunStarted(serve.principal, serve.tenant, serve.tenantRegion, serve.legalBasisPolicy,
                              openSeal.value);
      AppendsAlike(a, b, event, event, serve.runId, serve.at, serve.at, serve.hash);
    }
  }

  lemma CloseReadsLittle(serve: Gateway.ServeRequest, a: Gateway.Attempts, b: Gateway.Attempts,
                         reply: Gateway.Reply, i: nat, j: nat, closeSeal: Option<Sealed>)
    requires AttemptsAlike(a, b)
    ensures ResultsAlike(Gateway.CloseRun(serve, a, reply, i, closeSeal).0,
                         Gateway.CloseRun(serve, b, reply, j, closeSeal).0)
  {
    AppendsAlike(a.log, b.log, Gateway.UsageOf(serve, reply, i), Gateway.UsageOf(serve, reply, j), serve.runId,
                 serve.at, serve.at, serve.hash);
  }

  lemma DeliveryReadsLittle(serve: Gateway.ServeRequest, a: Log, b: Log, d: Gateway.Delivery)
    requires LogsAlike(a, b)
    ensures ResultsAlike(Gateway.Serve(serve, a, d).0, Gateway.Serve(serve, b, d).0)
  {
    OpenReadsLittle(serve, a, b, d.openSeal);
    var (p, q) := (Gateway.OpenRun(serve, a, d.openSeal), Gateway.OpenRun(serve, b, d.openSeal));
    if d.claim.Claimed? && p.Ok? {
      var (s, t) := (Gateway.Opening(serve, a, p.value), Gateway.Opening(serve, b, q.value));
      AttemptsReadLittle(serve, s, t, 1, d.completions);
      var (x, y) := (Gateway.AttemptsFrom(serve, s, 1, d.completions),
                     Gateway.AttemptsFrom(serve, t, 1, d.completions));
      if x.0.AttemptServed? {
        CloseReadsLittle(serve, x.1, y.1, x.0.reply, x.0.invocationSeq, y.0.invocationSeq, d.closeSeal);
      }
    }
  }

  // ---- Nor does a tool step ---------------------------------------------------------------------------------------

  predicate ToolEvents(events: seq<Event>) {
    |events| > 0 && forall i | 0 <= i < |events| :: !events[i].RunStarted? && !events[i].RunFinished?
  }

  lemma {:induction false} ToolEventsKeepTheLogOpen(log: Log, events: seq<Event>, runId: Text, clock: nat -> int,
                                                    hash: EntryHasher)
    requires ToolEvents(events)
    ensures var (appended, after) := AppendEvents(log, events, runId, clock, hash);
            appended == !IsFinished(log) && LogsAlike(log, after)
    decreases |events|
  {
    if !IsFinished(log) {
      var next := AppendEntry(log, events[0], runId, clock(|log|), hash).value;
      AppendedStarts(log, NextEntry(log, events[0], runId, clock(|log|), hash));
      if |events| > 1 {
        ToolEventsKeepTheLogOpen(next, events[1..], runId, clock, hash);
      } else {
        assert events[1..] == [];
      }
    }
  }

  lemma RecordsAreToolEvents(deps: Deps, tool: Text, arguments: Sealed, turn: Turn, seen: set<Text>)
    ensures ToolEvents(RecordFor(deps, tool, arguments, turn, seen).events)
  {
  }

  /** The same result but for what the rail withholds from it. */
  ghost predicate SameButWithheld(deps: Deps, a: ToolResult, b: ToolResult) {
    match a
    case ToolFails => b.ToolFails?
    case Observed(x) => b.Observed? && forall tool :: AgreeVisibly(tool, x, b.observation, deps.classifiers)
  }

  /** The same answers but for what the rail withholds from the tool's result. */
  ghost predicate TurnsAgree(deps: Deps, a: Turn, b: Turn) {
    a.(result := b.result) == b && SameButWithheld(deps, a.result, b.result)
  }

  lemma StepLearnsTheSame(deps: Deps, tool: Text, arguments: Sealed, s: Turn, t: Turn, seen: set<Text>)
    requires TurnsAgree(deps, s, t)
    ensures var (x, y) := (RecordFor(deps, tool, arguments, s, seen), RecordFor(deps, tool, arguments, t, seen));
            x.effect == y.effect && x.item == y.item && x.seen == y.seen
  {
    if s.result.Observed? {
      WithheldTeachesNothing(deps.words, tool, s.result.observation, t.result.observation, deps.classifiers, seen);
    }
  }

  lemma ToolStepLearnsTheSame(request: RunRequest, deps: Deps, a: Context, b: Context, tool: Text, s: Turn, t: Turn)
    requires ContextsAlike(a, b) && TurnsAgree(deps, s, t)
    ensures var (p, q) := (ApplyToolStep(request, deps, a, tool, s), ApplyToolStep(request, deps, b, tool, t));
            p.0 == q.0 && ContextsAlike(p.1, q.1)
  {
    if s.argumentsSeal.Some? {
      var arguments := s.argumentsSeal.value;
      StepLearnsTheSame(deps, tool, arguments, s, t, a.seen);
      RecordsAreToolEvents(deps, tool, arguments, s, a.seen);
      RecordsAreToolEvents(deps, tool, arguments, t, a.seen);
      ToolEventsKeepTheLogOpen(a.log, RecordFor(deps, tool, arguments, s, a.seen).events, request.runId, s.clock,
                               deps.hash);
      ToolEventsKeepTheLogOpen(b.log, RecordFor(deps, tool, arguments, t, a.seen).events, request.runId, t.clock,
                               deps.hash);
    }
  }

  // ---- Nor does a run ---------------------------------------------------------------------------------------------

  lemma OneEvent(log: Log, event: Event, runId: Text, clock: nat -> int, hash: EntryHasher)
    ensures var appended := AppendEntry(log, event, runId, clock(|log|), hash);
            AppendEvents(log, [event], runId, clock, hash) == if appended.Ok? then (true, appended.value)
                else (false, log)
  {
    assert [event][1..] == [];
    var appended := AppendEntry(log, event, runId, clock(|log|), hash);
    if appended.Ok? {
      assert AppendEvents(appended.value, [event][1..], runId, clock, hash) == (true, appended.value);
    }
  }

  predicate TripsAlike(p: Trip, q: Trip) {
    p.ended == q.ended && ContextsAlike(p.context, q.context) && p.prompts == q.prompts && p.cost == q.cost
        && |p.written| == |q.written|
  }

  lemma FinishReadsLittle(request: RunRequest, deps: Deps, a: Context, b: Context, s: Turn, t: Turn,
                          outcome: RunOutcome,
                          answer: Result<Text, RunFailure>, prompts: seq<Text>, cost: Option<int>)
    requires ContextsAlike(a, b) && TurnsAgree(deps, s, t)
    ensures TripsAlike(Ending(FinishRun(request, deps, a, s, outcome, answer), prompts, cost),
                       Ending(FinishRun(request, deps, b, t, outcome, answer), prompts, cost))
  {
    var event := RunFinished(outcome);
    OneEvent(a.log, event, request.runId, s.clock, deps.hash);
    OneEvent(b.log, event, request.runId, t.clock, deps.hash);
    AppendsAlike(a.log, b.log, event, event, request.runId, s.clock(|a.log|), t.clock(|b.log|), deps.hash);
  }

  lemma StepReadsLittle(request: RunRequest, deps: Deps, a: Context, b: Context, tool: Text, s: Turn, t: Turn,
                        text: Text, cost: int)
    requires ContextsAlike(a, b) && TurnsAgree(deps, s, t)
    ensures TripsAlike(AfterStep(request, deps, ApplyToolStep(request, deps, a, tool, s), s, text, cost),
                       AfterStep(request, deps, ApplyToolStep(request, deps, b, tool, t), t, text, cost))
  {
    ToolStepLearnsTheSame(request, deps, a, b, tool, s, t);
    var (p, q) := (ApplyToolStep(request, deps, a, tool, s), ApplyToolStep(request, deps, b, tool, t));
    if p.0.Err? {
      FinishReadsLittle(request, deps, p.1, q.1, s, t, if p.0.error.RefusedRun? then Refused else Failed,
                        Err(p.0.error), [text], Some(cost));
    }
  }

  lemma ReplyReadsLittle(request: RunRequest, deps: Deps, a: Context, b: Context, s: Turn, t: Turn, text: Text,
                         reply: Gateway.Reply)
    requires ContextsAlike(a, b) && TurnsAgree(deps, s, t)
    ensures TripsAlike(AfterReply(request, deps, a, s, text, reply), AfterReply(request, deps, b, t, text, reply))
  {
    var stepCost := deps.cost(reply.inputTokens, reply.outputTokens);
    match deps.parse(reply.text)
    case None =>
    case Some(Answer(answer)) =>
      FinishReadsLittle(request, deps, a, b, s, t, Succeeded, Ok(answer), [text], Some(stepCost));
    case Some(UseTool(tool, _)) => StepReadsLittle(request, deps, a, b, tool, s, t, text, stepCost);
  }

  lemma ServeTurnReadsLittle(request: RunRequest, deps: Deps, prompt: Prompt, a: Log, b: Log, s: Turn, t: Turn)
    requires LogsAlike(a, b) && TurnsAgree(deps, s, t)
    ensures var (x, y) := (ServeTurn(request, deps, prompt, a, s), ServeTurn(request, deps, prompt, b, t));
            x.0 == y.0 && LogsAlike(x.1, y.1)
  {
    DeliveryReadsLittle(ServeRequestFor(request, deps, prompt, s), a, b, s.delivery);
  }

  lemma TripReadsLittle(request: RunRequest, deps: Deps, prompt: Prompt, summaries: seq<ToolSummary>, a: Context,
                        b: Context, s: Turn, t: Turn)
    requires ContextsAlike(a, b) && TurnsAgree(deps, s, t)
    ensures TripsAlike(OneTrip(request, deps, prompt, summaries, a, s), OneTrip(request, deps, prompt, summaries, b, t))
  {
    var verdict := EvaluateLoop(a.state, request.limits);
    if verdict.Some? {
      FinishReadsLittle(request, deps, a, b, s, t, Halted, Err(HaltedRun(verdict.value)), [], None);
    } else {
      var text := Transcript(request.question, summaries, a.observations, a.corrections);
      ServeTurnReadsLittle(request, deps, prompt, a.log, b.log, s, t);
      var (x, y) := (ServeTurn(request, deps, prompt, a.log, s), ServeTurn(request, deps, prompt, b.log, t));
      var (a1, b1) := (a.(log := x.1), b.(log := y.1));
      if x.0.Err? {
        FinishReadsLittle(request, deps, a1, b1, s, t, if x.0.error.RefusedRun? then Refused else Failed,
                          Err(x.0.error),
                          if s.hashParses then [text] else [], None);
      } else {
        ReplyReadsLittle(request, deps, a1, b1, s, t, text, x.0.value);
      }
    }
  }

  /** Nobody outside can tell the two runs apart: not the model, not the caller, and not the loop's own bookkeeping. */
  predicate RunsAlike(p: Run, q: Run) {
    p.answer == q.answer && p.prompts == q.prompts && p.lastCost == q.lastCost && p.stored == q.stored
    && p.context.(log := q.context.log) == q.context && |p.written| == |q.written|
  }

  lemma AlikeAfterTrip(p: Trip, q: Trip, stored: bool, x: Run, y: Run)
    requires TripsAlike(p, q)
    ensures p.ended.Some? ==> RunsAlike(LastOf(p, stored), LastOf(q, stored))
    ensures p.ended.None? && RunsAlike(x, y) ==> RunsAlike(Before(p, x), Before(q, y))
  {
  }

  /** Every answer of the two worlds is the same but for what is withheld. */
  ghost predicate ScriptsAgree(deps: Deps, s: Script, t: Script) {
    forall i :: AgreeAt(deps, s, t, i)
  }

  ghost predicate AgreeAt(deps: Deps, s: Script, t: Script, i: nat) {
    TurnsAgree(deps, s(i), t(i))
  }

  lemma {:induction false} RunFromReadsLittle(request: RunRequest, deps: Deps, prompt: Prompt,
                                              summaries: seq<ToolSummary>,
                                              a: Context, b: Context, s: Script, t: Script)
    requires ContextsAlike(a, b) && ScriptsAgree(deps, s, t)
    ensures RunsAlike(RunFrom(request, deps, prompt, summaries, a, s), RunFrom(request, deps, prompt, summaries, b, t))
    decreases request.limits.maxIterations - a.state.iteration
  {
    var i := a.state.iteration;
    assert AgreeAt(deps, s, t, i);
    TripReadsLittle(request, deps, prompt, summaries, a, b, s(i), t(i));
    var (p, q) := (OneTrip(request, deps, prompt, summaries, a, s(i)),
                   OneTrip(request, deps, prompt, summaries, b, t(i)));
    if p.ended.None? {
      RunFromReadsLittle(request, deps, prompt, summaries, p.context, q.context, s, t);
      AlikeAfterTrip(p, q, s(i).persists, RunFrom(request, deps, prompt, summaries, p.context, s),
                     RunFrom(request, deps, prompt, summaries, q.context, t));
    } else {
      AlikeAfterTrip(p, q, s(i).persists, NO_RUN, NO_RUN);
    }
  }

  lemma StartAlike()
    ensures ContextsAlike(INITIAL_CONTEXT, INITIAL_CONTEXT) && RunsAlike(NO_RUN, NO_RUN)
  {
  }

  /** Withheld tool output influences neither what a run answers nor any prompt it sends. */
  lemma WithheldChangesNothing(request: RunRequest, deps: Deps, s: Script, t: Script)
    requires ScriptsAgree(deps, s, t)
    ensures RunsAlike(AgentRunOf(request, deps, s), AgentRunOf(request, deps, t))
  {
    StartAlike();
    if deps.snapshot.Some? && deps.summaries.Some? {
      RunFromReadsLittle(request, deps, deps.snapshot.value, deps.summaries.value, INITIAL_CONTEXT, INITIAL_CONTEXT, s,
                         t);
    }
  }
}
