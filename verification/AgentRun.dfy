/**
 The agent loop: one mutable context, one trip at a time
 (src/agent/application/run-agent.ts, tool-step.ts, run-log.ts, progress.ts and src/agent/domain/loop-controls.ts).

 What the world answers to trip number i is `script(i)`: the ledger, the providers, the key store, the catalogue, the
 gate, the tool, the clock and the log store, any of which may fail.
 */
module AgentRun {
  import opened Outcomes
  import opened Texts
  import opened ExecutionLog
  import opened HashChain
  import opened Rail
  import Lanes = DecisionLanes
  import Gateway

  // ---- Loop controls and progress ------------------------------------------------------------------------------

  datatype RunState = RunState(iteration: nat, stepsWithoutStateChange: nat, costMicros: int, lastActionVerified: bool)

  datatype LoopLimits = LoopLimits(maxIterations: int, maxStepsWithoutProgress: int, costCeilingMicros: int)

  datatype HaltReason = IterationCeiling | Stagnating | CostCeiling | UnverifiedAction

  /** The reason to halt, if there is one, by blast radius. */
  function EvaluateLoop(state: RunState, limits: LoopLimits): Option<HaltReason> {
    if !state.lastActionVerified then Some(UnverifiedAction)
    else if state.costMicros >= limits.costCeilingMicros then Some(CostCeiling)
    else if state.stepsWithoutStateChange >= limits.maxStepsWithoutProgress then Some(Stagnating)
    else if state.iteration >= limits.maxIterations then Some(IterationCeiling)
    else None
  }

  datatype StepEffect = ObservedNewEvidence | ObservedNothingNew | StepUnparseable | StepToolFailed

  function Advance(state: RunState, effect: StepEffect, stepCostMicros: int): RunState {
    RunState(state.iteration + 1,
             if effect.ObservedNewEvidence? then 0 else state.stepsWithoutStateChange + 1,
             state.costMicros + stepCostMicros,
             !effect.StepToolFailed?)
  }

  // ---- The run's request, its parts and its world --------------------------------------------------------------

  datatype AgentStep = UseTool(tool: Text, argumentsJson: Text) | Answer(text: Text)

  datatype ToolSummary = ToolSummary(name: Text, summary: Text)

  datatype Prompt = Prompt(model: Text, version: Text)

  datatype RunRequest = RunRequest(
    runId: Text, principal: Principal, tenant: Text, tenantRegion: Text, legalBasisPolicy: Text,
        requiresZeroRetention: bool,
    question: Text, limits: LoopLimits, jitter: real)

  /** `tools` gives the action class of each tool by name; `parse` is how replies are read. */
  datatype Deps = Deps(
    snapshot: Option<Prompt>, summaries: Option<seq<ToolSummary>>, tools: map<Text, Lanes.ActionClass>,
    classifiers: seq<Classifier>, candidates: seq<Gateway.ProviderProfile>, adapters: seq<Text>,
    cost: (int, int) -> int, rationale: (nat, nat) -> Text, hash: EntryHasher, parse: Text -> Option<AgentStep>,
    words: Wording)

  datatype ToolResult = ToolFails | Observed(observation: ToolObservation)

  /** `clock(n)` is the time read when the run writes its n-th entry during this trip. */
  datatype Turn = Turn(
    hashParses: bool, at: int, delivery: Gateway.Delivery, defined: bool, gate: Option<Lanes.ReviewOutcome>,
    argumentsSeal: Option<Sealed>, result: ToolResult, clock: nat -> int, persists: bool)

  type Script = nat -> Turn

  datatype RunFailure = HaltedRun(reason: HaltReason) | RefusedRun | AlreadyServedRun | FailedRun

  datatype Context = Context(log: Log, state: RunState, observations: seq<ContextItem>, corrections: seq<Text>,
                             seen: set<Text>)

  const INITIAL_CONTEXT := Context([], RunState(0, 0, 0, true), [], [], {})

  // ---- Writing to the log --------------------------------------------------------------------------------------

  /** Appends until one append fails; says whether none did. */
  function AppendEvents(log: Log, events: seq<Event>, runId: Text, clock: nat -> int, hash: EntryHasher): (bool, Log)
    decreases |events|
  {
    if |events| == 0 then (true, log)
    else
      var appended := AppendEntry(log, events[0], runId, clock(|log|), hash);
      if appended.Err? then (false, log) else AppendEvents(appended.value, events[1..], runId, clock, hash)
  }

  /** What one trip round the loop did: how the run ended, if it did, what was handed to the store and to the model. */
  datatype Trip = Trip(ended: Option<Result<Text, RunFailure>>, context: Context, written: seq<Log>,
                       prompts: seq<Text>, cost: Option<int>)

  function FinishRun(request: RunRequest, deps: Deps, c: Context, turn: Turn, outcome: RunOutcome,
                     answer: Result<Text, RunFailure>)
    : (Result<Text, RunFailure>, Context, seq<Log>)
  {
    var (appended, log) := AppendEvents(c.log, [RunFinished(outcome)], request.runId, turn.clock, deps.hash);
    var closed := c.(log := log);
    if !appended then (Err(FailedRun), closed, [])
    else (if turn.persists then answer else Err(FailedRun), closed, [log])
  }

  function CloseFailed(request: RunRequest, deps: Deps, c: Context, turn: Turn, failure: RunFailure)
    : (Result<Text, RunFailure>, Context, seq<Log>)
  {
    FinishRun(request, deps, c, turn, if failure.RefusedRun? then Refused else Failed, Err(failure))
  }

  // ---- Asking the model ----------------------------------------------------------------------------------------

  function ToolIndex(summaries: seq<ToolSummary>): Text {
    Join(seq(|summaries|, i requires 0 <= i < |summaries| =>
               Ascii("- ") + summaries[i].name + Ascii(": ") + summaries[i].summary), [10])
  }

  function ObservationLine(item: ContextItem): Text {
    Ascii("Observation (") + item.tool + (if item.truncated then Ascii(", truncated") else [])
    + Ascii("): ") + item.text
  }

  function Transcript(question: Text, summaries: seq<ToolSummary>, observations: seq<ContextItem>,
                      corrections: seq<Text>): Text {
    Join([Ascii("Tools available:\n") + ToolIndex(summaries), Ascii("Question: ") + question]
         + seq(|observations|, i requires 0 <= i < |observations| => ObservationLine(observations[i]))
         + corrections, [10, 10])
  }

  function ServeRequestFor(request: RunRequest, deps: Deps, prompt: Prompt, turn: Turn): Gateway.ServeRequest {
    Gateway.ServeRequest(request.runId, request.principal, request.tenant, request.tenantRegion,
                         request.legalBasisPolicy,
                         request.requiresZeroRetention, prompt.model, prompt.version, deps.candidates, deps.adapters,
                         turn.at, request.jitter, deps.cost, deps.rationale, deps.hash)
  }

  function FailureOf(rejection: Gateway.ServeRejection): RunFailure {
    match rejection
    case Refusal(_) => RefusedRun
    case AlreadyServed => AlreadyServedRun
    case InFlight => AlreadyServedRun
    case ProviderFailed(_) => FailedRun
  }

  /** The reply or how the run fails, and the log after the delivery. */
  function ServeTurn(request: RunRequest, deps: Deps, prompt: Prompt, log: Log,
                     turn: Turn): (Result<Gateway.Reply, RunFailure>, Log) {
    if !turn.hashParses then (Err(FailedRun), log)
    else
      match Gateway.Serve(ServeRequestFor(request, deps, prompt, turn), log, turn.delivery).0
      case Served(reply, after) => (Ok(reply), after)
      case Rejected(rejection, after) => (Err(FailureOf(rejection)), after)
  }

  // ---- One tool step -------------------------------------------------------------------------------------------

  /**
   What the tool step decided to record and what the loop learns from it, or that its arguments could not be sealed.
   */
  datatype StepRecord = StepRecord(events: seq<Event>, effect: StepEffect, item: ContextItem, seen: set<Text>)

  function DeniedCopy(words: Wording, reason: Lanes.DenialReason): Text {
    match reason
    case RejectedByReviewer => words.rejected
    case TimedOutFailSafe => words.unanswered
  }

  /** Why the tool may not run, if it may not: it is not available, or it was not approved. */
  function DenialOf(deps: Deps, tool: Text, turn: Turn): Option<Text> {
    if !turn.defined || tool !in deps.tools then Some(deps.words.unavailable)
    else
      var resolution := Lanes.SeekApproval(deps.tools[tool], turn.gate, Some(turn.at));
      if resolution.Denied? then Some(DeniedCopy(deps.words, resolution.reason)) else None
  }

  function DeniedRecord(tool: Text, arguments: Sealed, copy: Text, seen: set<Text>): StepRecord {
    StepRecord([ToolCalled(tool, arguments, ToolDenied, [])], StepToolFailed, CapToolOutput(tool, copy), seen)
  }

  function FailedRecord(deps: Deps, tool: Text, arguments: Sealed, seen: set<Text>): StepRecord {
    StepRecord([ToolCalled(tool, arguments, ToolFailed, [])], StepToolFailed,
               CapToolOutput(tool, deps.words.incomplete), seen)
  }

  function SucceededRecord(deps: Deps, tool: Text, arguments: Sealed, observation: ToolObservation,
                           seen: set<Text>): StepRecord {
    var records := RecordsOf(tool, observation);
    var learned := Learn(deps.words, tool, observation, deps.classifiers, seen);
    StepRecord(RetrievalEvents(tool, arguments, BlockedOf(records, deps.classifiers),
                               Admitted(records, deps.classifiers),
                               |deps.classifiers| > 0, CommittedBy(observation)),
               if learned.isNew then ObservedNewEvidence else ObservedNothingNew, learned.item, learned.seen)
  }

  function RecordFor(deps: Deps, tool: Text, arguments: Sealed, turn: Turn, seen: set<Text>): StepRecord {
    var denial := DenialOf(deps, tool, turn);
    if denial.Some? then DeniedRecord(tool, arguments, denial.value, seen)
    else
      match turn.result
      case ToolFails => FailedRecord(deps, tool, arguments, seen)
      case Observed(observation) => SucceededRecord(deps, tool, arguments, observation, seen)
  }

  function ApplyToolStep(request: RunRequest, deps: Deps, c: Context, tool: Text,
                         turn: Turn): (r: (Result<StepEffect, RunFailure>, Context))
    ensures r.1.state == c.state
  {
    if turn.argumentsSeal.None? then (Err(FailedRun), c)
    else
      var step := RecordFor(deps, tool, turn.argumentsSeal.value, turn, c.seen);
      var (appended, log) := AppendEvents(c.log, step.events, request.runId, turn.clock, deps.hash);
      if !appended then (Err(FailedRun), c.(log := log))
      else (Ok(step.effect), c.(log := log, observations := c.observations + [step.item], seen := step.seen))
  }

  // ---- One trip and the whole run ------------------------------------------------------------------------------

  /** Persisting what a trip that goes on left behind. */
  function GoOn(c: Context, turn: Turn, prompt: Text, cost: int): Trip {
    Trip(if turn.persists then None else Some(Err(FailedRun)), c, [c.log], [prompt], Some(cost))
  }

  function Ending(closed: (Result<Text, RunFailure>, Context, seq<Log>), prompts: seq<Text>, cost: Option<int>): Trip {
    Trip(Some(closed.0), closed.1, closed.2, prompts, cost)
  }

  /** What follows a reply: a correction, an answer or a tool step. */
  function AfterReply(request: RunRequest, deps: Deps, c: Context, turn: Turn, text: Text,
                      reply: Gateway.Reply): (trip: Trip)
    ensures trip.ended.None? ==> trip.context.state.iteration == c.state.iteration + 1
  {
    var stepCost := deps.cost(reply.inputTokens, reply.outputTokens);
    match deps.parse(reply.text)
    case None =>
      var corrections := if deps.words.correction in c.corrections then c.corrections
          else c.corrections + [deps.words.correction];
      GoOn(c.(corrections := corrections, state := Advance(c.state, StepUnparseable, stepCost)), turn, text, stepCost)
    case Some(Answer(answer)) =>
      Ending(FinishRun(request, deps, c, turn, Succeeded, Ok(answer)), [text], Some(stepCost))
    case Some(UseTool(tool, _)) =>
      AfterStep(request, deps, ApplyToolStep(request, deps, c, tool, turn), turn, text, stepCost)
  }

  function AfterStep(request: RunRequest, deps: Deps, step: (Result<StepEffect, RunFailure>, Context), turn: Turn,
                     text: Text, stepCost: int): Trip {
    var (effect, c) := step;
    if effect.Err? then Ending(CloseFailed(request, deps, c, turn, effect.error), [text], Some(stepCost))
    else GoOn(c.(state := Advance(c.state, effect.value, stepCost)), turn, text, stepCost)
  }

  function OneTrip(request: RunRequest, deps: Deps, prompt: Prompt, summaries: seq<ToolSummary>, c: Context,
                   turn: Turn): (trip: Trip)
    ensures trip.ended.None? ==> trip.context.state.iteration == c.state.iteration + 1 <= request.limits.maxIterations
  {
    var verdict := EvaluateLoop(c.state, request.limits);
    if verdict.Some? then Ending(FinishRun(request, deps, c, turn, Halted, Err(HaltedRun(verdict.value))), [], None)
    else
      var text := Transcript(request.question, summaries, c.observations, c.corrections);
      var (served, log) := ServeTurn(request, deps, prompt, c.log, turn);
      var c1 := c.(log := log);
      if served.Err? then Ending(CloseFailed(request, deps, c1, turn, served.error),
                                 if turn.hashParses then [text] else [], None)
      else AfterReply(request, deps, c1, turn, text, served.value)
  }

  /**
   A whole run: its answer, its final context, the logs handed to the store, whether the store took the last of them,
   the prompts sent, and the cost of the last turn that was served.
   */
  datatype Run = Run(answer: Result<Text, RunFailure>, context: Context, written: seq<Log>, stored: bool,
                     prompts: seq<Text>,
                     lastCost: Option<int>)

  function LastOf(trip: Trip, stored: bool): Run
    requires trip.ended.Some?
  {
    Run(trip.ended.value, trip.context, trip.written, stored, trip.prompts, trip.cost)
  }

  /** A run of which the first trip is known. */
  function Before(trip: Trip, rest: Run): Run {
    Run(rest.answer, rest.context, trip.written + rest.written, rest.stored, trip.prompts + rest.prompts,
        if rest.lastCost.Some? then rest.lastCost else trip.cost)
  }

  const NO_RUN := Run(Err(FailedRun), INITIAL_CONTEXT, [], false, [], None)

  function RunFrom(request: RunRequest, deps: Deps, prompt: Prompt, summaries: seq<ToolSummary>, c: Context,
                   script: Script): Run
    decreases request.limits.maxIterations - c.state.iteration
  {
    var turn := script(c.state.iteration);
    var trip := OneTrip(request, deps, prompt, summaries, c, turn);
    if trip.ended.Some? then LastOf(trip, turn.persists)
    else Before(trip, RunFrom(request, deps, prompt, summaries, trip.context, script))
  }

  function AgentRunOf(request: RunRequest, deps: Deps, script: Script): Run {
    if deps.snapshot.None? || deps.summaries.None? then NO_RUN
    else RunFrom(request, deps, deps.snapshot.value, deps.summaries.value, INITIAL_CONTEXT, script)
  }

  // ---- The loop as the program runs it -------------------------------------------------------------------------

  /** What the loop carries between turns; the ghost fields are what it has handed to the store and to the gateway. */
  class LoopContext {
    var log: Log
    var state: RunState
    var observations: seq<ContextItem>
    var corrections: seq<Text>
    var seen: set<Text>
    ghost var written: seq<Log>
    ghost var prompts: seq<Text>

    constructor ()
      ensures View() == INITIAL_CONTEXT && written == [] && prompts == []
    {
      log, state, observations, corrections, seen := [], RunState(0, 0, 0, true), [], [], {};
      written, prompts := [], [];
    }

    ghost function View(): Context
      reads this
    {
      Context(log, state, observations, corrections, seen)
    }

    method Append(events: seq<Event>, request: RunRequest, deps: Deps, turn: Turn) returns (appended: bool)
      modifies this`log
      ensures (appended, log) == AppendEvents(old(log), events, request.runId, turn.clock, deps.hash)
    {
      assert events[0..] == events;
      for i := 0 to |events|
        invariant AppendEvents(log, events[i..], request.runId, turn.clock, deps.hash)
                  == AppendEvents(old(log), events, request.runId, turn.clock, deps.hash)
      {
        assert events[i..][1..] == events[i + 1..];
        var next := AppendEntry(log, events[i], request.runId, turn.clock(|log|), deps.hash);
        if next.Err? {
          return false;
        }
        log := next.value;
      }
      return true;
    }

    method Persist(turn: Turn) returns (stored: bool)
      modifies this`written
      ensures stored == turn.persists && written == old(written) + [log]
    {
      written := written + [log];
      return turn.persists;
    }

    method Finish(outcome: RunOutcome, answer: Result<Text, RunFailure>, request: RunRequest, deps: Deps, turn: Turn)
      returns (r: Result<Text, RunFailure>)
      modifies this`log, this`written
      ensures var (expected, context, logs) := FinishRun(request, deps, old(View()), turn, outcome, answer);
              r == expected && View() == context && written == old(written) + logs
    {
      var appended := Append([RunFinished(outcome)], request, deps, turn);
      if !appended {
        return Err(FailedRun);
      }
      var stored := Persist(turn);
      return if stored then answer else Err(FailedRun);
    }

    method AskModel(request: RunRequest, deps: Deps, prompt: Prompt, summaries: seq<ToolSummary>, turn: Turn)
      returns (served: Result<Gateway.Reply, RunFailure>)
      modifies this`log, this`prompts
      ensures (served, log) == ServeTurn(request, deps, prompt, old(log), turn)
      ensures prompts == old(prompts) +
                if turn.hashParses then [Transcript(request.question, summaries, observations, corrections)] else []
    {
      if !turn.hashParses {
        return Err(FailedRun);
      }
      prompts := prompts + [Transcript(request.question, summaries, observations, corrections)];
      var answer, _ := Gateway.ServeCompletion(ServeRequestFor(request, deps, prompt, turn), log, turn.delivery);
      log := answer.log;
      return match answer
        case Served(reply, _) => Ok(reply)
        case Rejected(rejection, _) => Err(FailureOf(rejection));
    }

    method RecordDeniedTool(tool: Text, copy: Text, request: RunRequest, deps: Deps, turn: Turn)
        returns (effect: Result<StepEffect, RunFailure>)
      requires DenialOf(deps, tool, turn) == Some(copy)
      modifies this
      ensures (effect, View()) == ApplyToolStep(request, deps, old(View()), tool, turn)
      ensures written == old(written) && prompts == old(prompts)
    {
      if turn.argumentsSeal.None? {
        return Err(FailedRun);
      }
      var denied := Append([ToolCalled(tool, turn.argumentsSeal.value, ToolDenied, [])], request, deps, turn);
      if !denied {
        return Err(FailedRun);
      }
      observations := observations + [CapToolOutput(tool, copy)];
      return Ok(StepToolFailed);
    }

    method RunTool(tool: Text, request: RunRequest, deps: Deps, turn: Turn)
        returns (effect: Result<StepEffect, RunFailure>)
      requires DenialOf(deps, tool, turn) == None
      modifies this
      ensures (effect, View()) == ApplyToolStep(request, deps, old(View()), tool, turn)
      ensures written == old(written) && prompts == old(prompts)
    {
      if turn.argumentsSeal.None? {
        return Err(FailedRun);
      }
      var arguments := turn.argumentsSeal.value;
      if turn.result.ToolFails? {
        var recorded := Append([ToolCalled(tool, arguments, ToolFailed, [])], request, deps, turn);
        if !recorded {
          return Err(FailedRun);
        }
        observations := observations + [CapToolOutput(tool, deps.words.incomplete)];
        return Ok(StepToolFailed);
      }
      var observation := turn.result.observation;
      var admitted, blocked := AdmittedRecords(RecordsOf(tool, observation), deps.classifiers);
      var appended := Append(RetrievalEvents(tool, arguments, blocked, admitted, |deps.classifiers| > 0,
                                             CommittedBy(observation)),
                             request, deps, turn);
      if !appended {
        return Err(FailedRun);
      }
      var hasNewEvidence := HasNewEvidence(admitted, seen);
      seen := seen + IdsOf(admitted);
      observations := observations + [CapToolOutput(tool,
                                                    ObservationFor(deps.words, observation, admitted, |blocked| > 0,
                                                                   hasNewEvidence))];
      return Ok(if hasNewEvidence then ObservedNewEvidence else ObservedNothingNew);
    }

    method TakeStep(tool: Text, request: RunRequest, deps: Deps, turn: Turn)
        returns (effect: Result<StepEffect, RunFailure>)
      modifies this
      ensures (effect, View()) == ApplyToolStep(request, deps, old(View()), tool, turn)
      ensures written == old(written) && prompts == old(prompts)
    {
      if !turn.defined || tool !in deps.tools {
        effect := RecordDeniedTool(tool, deps.words.unavailable, request, deps, turn);
        return;
      }
      var resolution := Lanes.SeekApproval(deps.tools[tool], turn.gate, Some(turn.at));
      if resolution.Denied? {
        effect := RecordDeniedTool(tool, DeniedCopy(deps.words, resolution.reason), request, deps, turn);
        return;
      }
      effect := RunTool(tool, request, deps, turn);
    }

    /** Acts on a reply; the run goes on when nothing is returned. */
    method HeedReply(request: RunRequest, deps: Deps, turn: Turn, ghost text: Text, reply: Gateway.Reply)
      returns (ended: Option<Result<Text, RunFailure>>)
      modifies this
      ensures var trip := AfterReply(request, deps, old(View()), turn, text, reply);
              ended == trip.ended && View() == trip.context && written == old(written) + trip.written
      ensures prompts == old(prompts)
    {
      var stepCost := deps.cost(reply.inputTokens, reply.outputTokens);
      var step := deps.parse(reply.text);
      if step.None? {
        if deps.words.correction !in corrections {
          corrections := corrections + [deps.words.correction];
        }
        state := Advance(state, StepUnparseable, stepCost);
      } else if step.value.Answer? {
        var finished := Finish(Succeeded, Ok(step.value.text), request, deps, turn);
        return Some(finished);
      } else {
        var effect := TakeStep(step.value.tool, request, deps, turn);
        if effect.Err? {
          var closed := Finish(if effect.error.RefusedRun? then Refused else Failed, Err(effect.error), request, deps,
                               turn);
          return Some(closed);
        }
        state := Advance(state, effect.value, stepCost);
      }
      var stored := Persist(turn);
      return if stored then None else Some(Err(FailedRun));
    }

    /** One trip round the loop; the run goes on when nothing is returned. */
    method GoRound(request: RunRequest, deps: Deps, prompt: Prompt, summaries: seq<ToolSummary>, turn: Turn)
      returns (ended: Option<Result<Text, RunFailure>>)
      modifies this
      ensures var trip := OneTrip(request, deps, prompt, summaries, old(View()), turn);
              ended == trip.ended && View() == trip.context && written == old(written) + trip.written
                  && prompts == old(prompts) + trip.prompts
    {
      var verdict := EvaluateLoop(state, request.limits);
      if verdict.Some? {
        var halted := Finish(Halted, Err(HaltedRun(verdict.value)), request, deps, turn);
        return Some(halted);
      }
      ghost var text := Transcript(request.question, summaries, observations, corrections);
      var served := AskModel(request, deps, prompt, summaries, turn);
      if served.Err? {
        var closed := Finish(if served.error.RefusedRun? then Refused else Failed, Err(served.error), request, deps,
                             turn);
        return Some(closed);
      }
      ended := HeedReply(request, deps, turn, text, served.value);
      ReplySendsOnce(request, deps, old(View()).(log := ServeTurn(request, deps, prompt, old(log), turn).1), turn,
                     text, served.value);
    }
  }

  lemma ReplySendsOnce(request: RunRequest, deps: Deps, c: Context, turn: Turn, text: Text, reply: Gateway.Reply)
    ensures AfterReply(request, deps, c, turn, text, reply).prompts == [text]
  {
  }

  /** What is left of `whole` after some logs and prompts is `rest`. */
  ghost predicate Leaves(whole: Run, written: seq<Log>, prompts: seq<Text>, rest: Run) {
    && whole.answer == rest.answer && whole.context == rest.context
    && whole.written == written + rest.written && whole.prompts == prompts + rest.prompts
  }

  lemma LeavesLess(whole: Run, written: seq<Log>, prompts: seq<Text>, trip: Trip, rest: Run)
    requires Leaves(whole, written, prompts, Before(trip, rest))
    ensures Leaves(whole, written + trip.written, prompts + trip.prompts, rest)
  {
    assert written + (trip.written + rest.written) == (written + trip.written) + rest.written;
    assert prompts + (trip.prompts + rest.prompts) == (prompts + trip.prompts) + rest.prompts;
  }

  lemma RunAfterTrip(request: RunRequest, deps: Deps, prompt: Prompt, summaries: seq<ToolSummary>, c: Context,
                     script: Script,
                     whole: Run, written: seq<Log>, prompts: seq<Text>)
    requires Leaves(whole, written, prompts, RunFrom(request, deps, prompt, summaries, c, script))
    ensures var trip := OneTrip(request, deps, prompt, summaries, c, script(c.state.iteration));
            && (trip.ended.None? ==> Leaves(whole, written + trip.written, prompts + trip.prompts,
                                            RunFrom(request, deps, prompt, summaries, trip.context, script)))
            && (trip.ended.Some? ==> Leaves(whole, written, prompts, LastOf(trip, script(c.state.iteration).persists)))
  {
    var trip := OneTrip(request, deps, prompt, summaries, c, script(c.state.iteration));
    if trip.ended.None? {
      LeavesLess(whole, written, prompts, trip, RunFrom(request, deps, prompt, summaries, trip.context, script));
    }
  }

  /** The program's loop does what `AgentRunOf` says, and ends. */
  method RunAgent(request: RunRequest, deps: Deps, script: Script)
    returns (answer: Result<Text, RunFailure>, ghost context: Context, ghost written: seq<Log>,
             ghost prompts: seq<Text>)
    ensures answer == AgentRunOf(request, deps, script).answer
    ensures var run := AgentRunOf(request, deps, script);
            context == run.context && written == run.written && prompts == run.prompts
  {
    if deps.snapshot.None? || deps.summaries.None? {
      return Err(FailedRun), INITIAL_CONTEXT, [], [];
    }
    var prompt, summaries := deps.snapshot.value, deps.summaries.value;
    var loop := new LoopContext();
    ghost var whole := AgentRunOf(request, deps, script);
    while true
      invariant fresh(loop)
      invariant Leaves(whole, loop.written, loop.prompts,
                       RunFrom(request, deps, prompt, summaries, loop.View(), script))
      decreases request.limits.maxIterations - loop.state.iteration
    {
      RunAfterTrip(request, deps, prompt, summaries, loop.View(), script, whole, loop.written, loop.prompts);
      var ended := loop.GoRound(request, deps, prompt, summaries, script(loop.state.iteration));
      if ended.Some? {
        return ended.value, loop.View(), loop.written, loop.prompts;
      }
    }
  }
}
