/**
 What the entries of a whole run say, told of its request and of the answers the world gave in the turn that wrote them
 (src/agent/application/run-agent.ts, tool-step.ts, run-log.ts).
 */
module RunEntries {
  import opened Outcomes
  import opened Texts
  import opened ExecutionLog
  import opened HashChain
  import opened Rail
  import opened AgentRun
  import opened RunTheorems
  import opened DeliveryAnswers
  import Lanes = DecisionLanes
  import Gateway
  import Residency

  /** What a run is about: what was asked, with what parts, under which prompt. */
  datatype Quest = Quest(request: RunRequest, deps: Deps, prompt: Prompt)

  // ---- What a turn may write -----------------------------------------------------------------------------------

  /** In this turn the tool is there, and its action was approved or is in the fast lane and was not rejected. */
  predicate Permitted(deps: Deps, turn: Turn, tool: Text) {
    && turn.defined && tool in deps.tools
    && ((turn.gate.Some? && turn.gate.value.Approved?)
        || (deps.tools[tool] == Lanes.LowRiskReversible && !(turn.gate.Some? && turn.gate.value.Rejected?)))
  }

  /** The reply of this turn's delivery asks for the tool. */
  predicate Asked(deps: Deps, turn: Turn, tool: Text) {
    exists n :: 0 < n <= 4 && AsksFor(deps, turn.delivery.completions, n, tool)
  }

  predicate AsksFor(deps: Deps, completions: nat -> Gateway.Completion, n: nat, tool: Text) {
    && completions(n).Completed? && AnswersAs(completions, completions(n).reply, n)
    && var step := deps.parse(completions(n).reply.text);
    step.Some? && step.value.UseTool? && step.value.tool == tool
  }

  /** The tool's result holds this text. */
  predicate Offers(observation: ToolObservation, text: Text) {
    match observation
    case Retrieved(records) => exists i :: 0 <= i < |records| && records[i].text == text
    case Acted(receipt) => receipt.output == text
  }

  /**
   The tool's result holds this record, and every classifier allows its text; an action's output is a record of its own.
   */
  predicate Admits(deps: Deps, turn: Turn, observation: ToolObservation, recordId: Text, classification: Text,
                   provenance: Text) {
    match observation
    case Retrieved(records) =>
      exists i :: 0 <= i < |records| && AllAllow(records[i].text, deps.classifiers)
                  && records[i] == RetrievedRecord(recordId, classification, provenance, records[i].text)
    case Acted(receipt) =>
      && AllAllow(receipt.output, deps.classifiers)
      && classification == Ascii("internal") && provenance == Ascii("external-untrusted")
      && |recordId| >= |Ascii(":output")| && Asked(deps, turn, recordId[..|recordId| - |Ascii(":output")|])
      && recordId[|recordId| - |Ascii(":output")|..] == Ascii(":output")
  }

  /** A classifier blocks this text for that rule of its policy. */
  predicate BlockedFor(classifiers: seq<Classifier>, text: Text, policy: Text, rule: Text) {
    exists i :: 0 <= i < |classifiers| && classifiers[i].classify(text).Block?
                && classifiers[i].classify(text).policy == policy && classifiers[i].classify(text).rule == rule
  }

  predicate ToolTells(deps: Deps, turn: Turn, tool: Text, arguments: Sealed, status: ToolStatus, committed: seq<Text>) {
    && turn.argumentsSeal == Some(arguments) && Asked(deps, turn, tool)
    && (status == ToolDenied <==> !Permitted(deps, turn, tool))
    && (status == ToolFailed <==> Permitted(deps, turn, tool) && turn.result.ToolFails?)
    && (status != ToolSucceeded ==> committed == [])
    && (status == ToolSucceeded ==>
          turn.result.Observed?
          && committed == (match turn.result.observation
                           case Retrieved(_) => []
                           case Acted(receipt) => receipt.committed))
  }

  ghost predicate EventTells(q: Quest, turn: Turn, event: Event) {
    match event
    case RunStarted(principal, tenant, region, legalBasisPolicy, request) =>
      && principal == q.request.principal && tenant == q.request.tenant && region == q.request.tenantRegion
      && legalBasisPolicy == q.request.legalBasisPolicy && turn.delivery.openSeal == Some(request)
    case ModelInvoked(snapshot, promptVersion, routerDecision, _) =>
      && snapshot == q.prompt.model && promptVersion == q.prompt.version
      && Residency.Resident(q.deps.candidates, q.request.tenantRegion, q.request.requiresZeroRetention, routerDecision)
    case UsageRecorded(_, inputTokens, outputTokens, costMicros) =>
      && (exists n :: 0 < n <= 4 && AnswersWith(turn.delivery.completions, n, inputTokens, outputTokens))
      && costMicros == q.deps.cost(inputTokens, outputTokens)
    case ToolCalled(tool, arguments, status, committed) => ToolTells(q.deps, turn, tool, arguments, status, committed)
    case RecordRetrieved(recordId, classification, provenance) =>
      turn.result.Observed? && Admits(q.deps, turn, turn.result.observation, recordId, classification, provenance)
    case GuardrailEvaluated(policy, rule, railOutcome) =>
      turn.result.Observed?
      && if railOutcome == Allowed
         then policy == Ascii("retrieval-rail") && rule == Ascii("all-classifiers-passed") && |q.deps.classifiers| > 0
         else exists text :: Offers(turn.result.observation, text) && BlockedFor(q.deps.classifiers, text, policy, rule)
    case RunFinished(_) => true
    case HumanIntervened(_, _, _, _) => false
  }

  /** The entry is of this run, was written when the clock said so, and tells of this turn. */
  ghost predicate EntryTells(q: Quest, turn: Turn, entry: Entry) {
    && entry.runId == q.request.runId && EventTells(q, turn, entry.event)
    && entry.at == (if OfGateway(entry.event) || entry.seqNo < 0 then turn.at else turn.clock(entry.seqNo))
  }

  predicate OfGateway(event: Event) {
    event.RunStarted? || event.ModelInvoked? || event.UsageRecorded?
  }

  /** The log grew by entries that tell of this turn. */
  ghost predicate GrewTelling(q: Quest, turn: Turn, before: Log, after: Log) {
    before <= after && forall i | |before| <= i < |after| :: EntryTells(q, turn, after[i])
  }

  lemma GrewTwice(q: Quest, turn: Turn, a: Log, b: Log, c: Log)
    requires GrewTelling(q, turn, a, b) && GrewTelling(q, turn, b, c)
    ensures GrewTelling(q, turn, a, c)
  {
  }

  lemma EventGrows(q: Quest, turn: Turn, log: Log, event: Event)
    requires EventTells(q, turn, event) && !OfGateway(event) && !IsFinished(log)
    ensures var next := AppendEntry(log, event, q.request.runId, turn.clock(|log|), q.deps.hash).value;
            GrewTelling(q, turn, log, next)
  {
  }

  lemma {:induction false} EventsGrow(q: Quest, turn: Turn, log: Log, events: seq<Event>)
    requires forall i | 0 <= i < |events| :: EventTells(q, turn, events[i]) && !OfGateway(events[i])
    ensures GrewTelling(q, turn, log, AppendEvents(log, events, q.request.runId, turn.clock, q.deps.hash).1)
    decreases |events|
  {
    if |events| > 0 && !IsFinished(log) {
      var next := AppendEntry(log, events[0], q.request.runId, turn.clock(|log|), q.deps.hash).value;
      EventGrows(q, turn, log, events[0]);
      EventsGrow(q, turn, next, events[1..]);
      GrewTwice(q, turn, log, next, AppendEvents(log, events, q.request.runId, turn.clock, q.deps.hash).1);
    }
  }

  lemma DeliveredEntryTells(q: Quest, turn: Turn, entry: Entry)
    requires DeliveryEntry(ServeRequestFor(q.request, q.deps, q.prompt, turn), turn.delivery, entry)
    ensures EntryTells(q, turn, entry)
  {
  }

  lemma TurnServedGrows(q: Quest, log: Log, turn: Turn)
    ensures GrewTelling(q, turn, log, ServeTurn(q.request, q.deps, q.prompt, log, turn).1)
  {
    if turn.hashParses {
      var serve := ServeRequestFor(q.request, q.deps, q.prompt, turn);
      DeliveryEntriesTellTheTruth(serve, log, turn.delivery);
      var after := Gateway.Serve(serve, log, turn.delivery).0.log;
      forall i | |log| <= i < |after| ensures EntryTells(q, turn, after[i]) { DeliveredEntryTells(q, turn, after[i]); }
    }
  }

  // ---- The events of a tool step -------------------------------------------------------------------------------

  lemma {:induction false} BlockedWereOffered(chunks: seq<RetrievedChunk>, classifiers: seq<Classifier>,
                                              b: BlockedChunk)
    requires b in BlockedChunks(chunks, classifiers)
    ensures b.chunk in chunks && b.verdict == Screening(b.chunk.text, classifiers) && b.verdict.Block?
  {
    var verdict := Screening(chunks[0].text, classifiers);
    if verdict.Allow? || b != BlockedChunk(chunks[0], verdict) { BlockedWereOffered(chunks[1..], classifiers, b); }
  }

  lemma {:induction false} FirstBlockIsSomeones(text: Text, classifiers: seq<Classifier>, stage: Stage)
    ensures var v := FirstBlock(text, classifiers, stage);
            v.Block? ==> BlockedFor(classifiers, text, v.policy, v.rule)
  {
    if |classifiers| > 0 {
      if classifiers[0].stage == stage && classifiers[0].classify(text).Block? {
        assert classifiers[0].classify(text) == FirstBlock(text, classifiers, stage);
      } else {
        FirstBlockIsSomeones(text, classifiers[1..], stage);
        var v := FirstBlock(text, classifiers, stage);
        if v.Block? {
          var i :| 0 <= i < |classifiers[1..]| && classifiers[1..][i].classify(text).Block?
                   && classifiers[1..][i].classify(text).policy == v.policy
                      && classifiers[1..][i].classify(text).rule == v.rule;
          assert classifiers[i + 1] == classifiers[1..][i];
        }
      }
    }
  }

  lemma RecordsAreOffered(tool: Text, observation: ToolObservation, i: nat)
    requires i < |RecordsOf(tool, observation)|
    ensures Offers(observation, RecordsOf(tool, observation)[i].text)
  {
  }

  lemma BlocksTell(q: Quest, turn: Turn, tool: Text, i: nat)
    requires turn.result.Observed?
    requires i < |BlockedOf(RecordsOf(tool, turn.result.observation), q.deps.classifiers)|
    ensures EventTells(q, turn, BlockEvents(BlockedOf(RecordsOf(tool, turn.result.observation), q.deps.classifiers))[i])
  {
    var records := RecordsOf(tool, turn.result.observation);
    var chunks := ChunksOf(records);
    var b := BlockedOf(records, q.deps.classifiers)[i];
    BlockedWereOffered(chunks, q.deps.classifiers, b);
    var k :| 0 <= k < |chunks| && chunks[k] == b.chunk;
    RecordsAreOffered(tool, turn.result.observation, k);
    FirstBlockIsSomeones(b.chunk.text, q.deps.classifiers, FastInjection);
    FirstBlockIsSomeones(b.chunk.text, q.deps.classifiers, Hazard);
    assert Offers(turn.result.observation, b.chunk.text);
  }

  lemma OutputIdTells(deps: Deps, turn: Turn, tool: Text)
    requires Asked(deps, turn, tool)
    ensures var (id, suffix) := (tool + Ascii(":output"), Ascii(":output"));
            id[|id| - |suffix|..] == suffix && Asked(deps, turn, id[..|id| - |suffix|])
  {
    var (id, suffix) := (tool + Ascii(":output"), Ascii(":output"));
    assert id[..|id| - |suffix|] == tool;
  }

  lemma AdmittedTells(q: Quest, turn: Turn, tool: Text, i: nat)
    requires turn.result.Observed? && Asked(q.deps, turn, tool)
    requires i < |Admitted(RecordsOf(tool, turn.result.observation), q.deps.classifiers)|
    ensures EventTells(q, turn, RecordEvents(Admitted(RecordsOf(tool, turn.result.observation), q.deps.classifiers))[i])
  {
    var records := RecordsOf(tool, turn.result.observation);
    var record := Admitted(records, q.deps.classifiers)[i];
    AdmittedExactly(records, q.deps.classifiers, record);
    var k :| 0 <= k < |records| && records[k] == record;
    OutputIdTells(q.deps, turn, tool);
  }

  /** What a step writes about a tool that may not run, or that fails, is just that. */
  lemma CallTells(q: Quest, turn: Turn, tool: Text, arguments: Sealed, seen: set<Text>)
    requires turn.argumentsSeal == Some(arguments) && Asked(q.deps, turn, tool)
    ensures DenialOf(q.deps, tool, turn).None? <==> Permitted(q.deps, turn, tool)
    ensures DenialOf(q.deps, tool, turn).Some? ==> EventTells(q, turn, ToolCalled(tool, arguments, ToolDenied, []))
    ensures DenialOf(q.deps, tool, turn).None? && turn.result.ToolFails? ==>
              EventTells(q, turn, ToolCalled(tool, arguments, ToolFailed, []))
    ensures DenialOf(q.deps, tool, turn).None? && turn.result.Observed? ==>
              EventTells(q, turn, ToolCalled(tool, arguments, ToolSucceeded, CommittedBy(turn.result.observation)))
  {
    if turn.defined && tool in q.deps.tools {
      Lanes.ProceedNeedsApproval(q.deps.tools[tool], turn.gate, Some(turn.at));
    }
  }

  /** The events of a tool that succeeded, one after another. */
  lemma EventAt(tool: Text, arguments: Sealed, blocked: seq<BlockedChunk>, admitted: seq<RetrievedRecord>,
                screened: bool, committed: seq<Text>, i: nat)
    requires i < |RetrievalEvents(tool, arguments, blocked, admitted, screened, committed)|
    ensures var allowances := if screened then |admitted| else 0;
            RetrievalEvents(tool, arguments, blocked, admitted, screened, committed)[i] ==
            if i < |blocked| then BlockEvents(blocked)[i]
            else if i < |blocked| + allowances
            then GuardrailEvaluated(Ascii("retrieval-rail"), Ascii("all-classifiers-passed"), Allowed)
            else if i < |blocked| + allowances + |admitted| then RecordEvents(admitted)[i - |blocked| - allowances]
            else ToolCalled(tool, arguments, ToolSucceeded, committed)
  {
  }

  lemma SuccessTells(q: Quest, turn: Turn, tool: Text, arguments: Sealed, i: nat, event: Event)
    requires turn.argumentsSeal == Some(arguments) && Asked(q.deps, turn, tool)
    requires DenialOf(q.deps, tool, turn).None? && turn.result.Observed?
    requires var records := RecordsOf(tool, turn.result.observation);
             var events := RetrievalEvents(tool, arguments, BlockedOf(records, q.deps.classifiers),
                                           Admitted(records, q.deps.classifiers), |q.deps.classifiers| > 0,
                                           CommittedBy(turn.result.observation));
             i < |events| && event == events[i]
    ensures EventTells(q, turn, event) && !OfGateway(event)
  {
    var records := RecordsOf(tool, turn.result.observation);
    var (blocked, admitted) := (BlockedOf(records, q.deps.classifiers), Admitted(records, q.deps.classifiers));
    var allowances := if |q.deps.classifiers| > 0 then |admitted| else 0;
    EventAt(tool, arguments, blocked, admitted, |q.deps.classifiers| > 0, CommittedBy(turn.result.observation), i);
    if i < |blocked| {
      BlocksTell(q, turn, tool, i);
    } else if |blocked| + allowances <= i < |blocked| + allowances + |admitted| {
      AdmittedTells(q, turn, tool, i - |blocked| - allowances);
    } else if i >= |blocked| + allowances + |admitted| {
      CallTells(q, turn, tool, arguments, {});
    }
  }

  /** Every event of a tool step tells of its turn. */
  lemma StepTells(q: Quest, turn: Turn, tool: Text, arguments: Sealed, seen: set<Text>, i: nat)
    requires turn.argumentsSeal == Some(arguments) && Asked(q.deps, turn, tool)
    requires i < |RecordFor(q.deps, tool, arguments, turn, seen).events|
    ensures var event := RecordFor(q.deps, tool, arguments, turn, seen).events[i];
            EventTells(q, turn, event) && !OfGateway(event)
  {
    CallTells(q, turn, tool, arguments, seen);
    if DenialOf(q.deps, tool, turn).None? && turn.result.Observed? {
      SuccessTells(q, turn, tool, arguments, i, RecordFor(q.deps, tool, arguments, turn, seen).events[i]);
    }
  }

  lemma StepGrows(q: Quest, c: Context, tool: Text, turn: Turn)
    requires Asked(q.deps, turn, tool)
    ensures GrewTelling(q, turn, c.log, ApplyToolStep(q.request, q.deps, c, tool, turn).1.log)
  {
    if turn.argumentsSeal.Some? {
      var events := RecordFor(q.deps, tool, turn.argumentsSeal.value, turn, c.seen).events;
      forall i | 0 <= i < |events| ensures EventTells(q, turn, events[i]) && !OfGateway(events[i]) {
        StepTells(q, turn, tool, turn.argumentsSeal.value, c.seen, i);
      }
      EventsGrow(q, turn, c.log, events);
    }
  }

  // ---- A trip --------------------------------------------------------------------------------------------------

  /** A reply is that of this turn's delivery. */
  predicate RepliedIn(turn: Turn, reply: Gateway.Reply) {
    exists n :: 0 < n <= 4 && AnswersAs(turn.delivery.completions, reply, n)
  }

  lemma ServedReplyIsTheTurns(q: Quest, log: Log, turn: Turn)
    ensures var served := ServeTurn(q.request, q.deps, q.prompt, log, turn).0;
            served.Ok? ==> turn.hashParses && RepliedIn(turn, served.value)
  {
    if turn.hashParses {
      DeliveryAnswersTruly(ServeRequestFor(q.request, q.deps, q.prompt, turn), log, turn.delivery);
    }
  }

  lemma ReplyAsks(q: Quest, turn: Turn, reply: Gateway.Reply, tool: Text, argumentsJson: Text)
    requires RepliedIn(turn, reply) && q.deps.parse(reply.text) == Some(UseTool(tool, argumentsJson))
    ensures Asked(q.deps, turn, tool)
  {
    var n :| 0 < n <= 4 && AnswersAs(turn.delivery.completions, reply, n);
    assert AsksFor(q.deps, turn.delivery.completions, n, tool);
  }

  /** A trip hands over at most one log: its own, grown by entries that tell of its turn. */
  ghost predicate TripTells(q: Quest, turn: Turn, before: Log, trip: Trip) {
    && GrewTelling(q, turn, before, trip.context.log) && (trip.written == [] || trip.written == [trip.context.log])
    && (trip.ended.None? ==> trip.written == [trip.context.log])
  }

  lemma EndingTells(q: Quest, turn: Turn, before: Log, closed: (Result<Text, RunFailure>, Context, seq<Log>),
                    prompts: seq<Text>, cost: Option<int>)
    requires GrewTelling(q, turn, before, closed.1.log) && (closed.2 == [] || closed.2 == [closed.1.log])
    ensures TripTells(q, turn, before, Ending(closed, prompts, cost))
  {
  }

  lemma FinishTells(q: Quest, start: Log, c: Context, turn: Turn, outcome: RunOutcome,
                    answer: Result<Text, RunFailure>, prompts: seq<Text>, cost: Option<int>)
    requires GrewTelling(q, turn, start, c.log)
    ensures TripTells(q, turn, start, Ending(FinishRun(q.request, q.deps, c, turn, outcome, answer), prompts, cost))
  {
    EventsGrow(q, turn, c.log, [RunFinished(outcome)]);
    GrewTwice(q, turn, start, c.log, FinishRun(q.request, q.deps, c, turn, outcome, answer).1.log);
    EndingTells(q, turn, start, FinishRun(q.request, q.deps, c, turn, outcome, answer), prompts, cost);
  }

  lemma StepTripTells(q: Quest, start: Log, c: Context, turn: Turn, text: Text, cost: int, tool: Text)
    requires GrewTelling(q, turn, start, c.log) && Asked(q.deps, turn, tool)
    ensures TripTells(q, turn, start,
                      AfterStep(q.request, q.deps, ApplyToolStep(q.request, q.deps, c, tool, turn), turn, text, cost))
  {
    var (effect, c2) := ApplyToolStep(q.request, q.deps, c, tool, turn);
    StepGrows(q, c, tool, turn);
    GrewTwice(q, turn, start, c.log, c2.log);
    if effect.Err? {
      FinishTells(q, start, c2, turn, if effect.error.RefusedRun? then Refused else Failed, Err(effect.error), [text],
                  Some(cost));
    }
  }

  lemma ReplyTells(q: Quest, start: Log, c: Context, turn: Turn, text: Text, reply: Gateway.Reply)
    requires GrewTelling(q, turn, start, c.log) && RepliedIn(turn, reply)
    ensures TripTells(q, turn, start, AfterReply(q.request, q.deps, c, turn, text, reply))
  {
    var cost := q.deps.cost(reply.inputTokens, reply.outputTokens);
    match q.deps.parse(reply.text)
    case None =>
    case Some(Answer(answer)) => FinishTells(q, start, c, turn, Succeeded, Ok(answer), [text], Some(cost));
    case Some(UseTool(tool, argumentsJson)) =>
      ReplyAsks(q, turn, reply, tool, argumentsJson);
      StepTripTells(q, start, c, turn, text, cost, tool);
  }

  lemma OneTripTells(q: Quest, summaries: seq<ToolSummary>, c: Context, turn: Turn)
    ensures TripTells(q, turn, c.log, OneTrip(q.request, q.deps, q.prompt, summaries, c, turn))
  {
    var verdict := EvaluateLoop(c.state, q.request.limits);
    if verdict.Some? {
      FinishTells(q, c.log, c, turn, Halted, Err(HaltedRun(verdict.value)), [], None);
    } else {
      var text := Transcript(q.request.question, summaries, c.observations, c.corrections);
      var (served, log) := ServeTurn(q.request, q.deps, q.prompt, c.log, turn);
      var c1 := c.(log := log);
      TurnServedGrows(q, c.log, turn);
      ServedReplyIsTheTurns(q, c.log, turn);
      if served.Err? {
        FinishTells(q, c.log, c1, turn, if served.error.RefusedRun? then Refused else Failed, Err(served.error),
                    if turn.hashParses then [text] else [], None);
      } else {
        ReplyTells(q, c.log, c1, turn, text, served.value);
      }
    }
  }

  // ---- Whole runs ----------------------------------------------------------------------------------------------

  /** The i-th log handed over grew, since the one before, by what turn number first + i tells of. */
  ghost predicate LogTells(q: Quest, script: Script, first: nat, start: Log, written: seq<Log>, i: nat) {
    i < |written| && GrewTelling(q, script(first + i), Predecessor(start, written, i), written[i])
  }

  /** So does every log of a run from a loop head. */
  ghost predicate RunTells(q: Quest, script: Script, c: Context, run: Run) {
    forall i | 0 <= i < |run.written| :: LogTells(q, script, c.state.iteration, c.log, run.written, i)
  }

  lemma LastTells(q: Quest, script: Script, c: Context, trip: Trip, stored: bool)
    requires TripTells(q, script(c.state.iteration), c.log, trip) && trip.ended.Some?
    ensures RunTells(q, script, c, LastOf(trip, stored))
  {
  }

  lemma EarlierTells(q: Quest, script: Script, c: Context, trip: Trip, rest: Run)
    requires TripTells(q, script(c.state.iteration), c.log, trip) && trip.ended.None?
    requires trip.context.state.iteration == c.state.iteration + 1 && RunTells(q, script, trip.context, rest)
    ensures RunTells(q, script, c, Before(trip, rest))
  {
    var written := Before(trip, rest).written;
    assert written == [trip.context.log] + rest.written;
    forall i | 0 <= i < |written| ensures LogTells(q, script, c.state.iteration, c.log, written, i) {
      if i > 0 {
        assert LogTells(q, script, trip.context.state.iteration, trip.context.log, rest.written, i - 1);
        assert written[i] == rest.written[i - 1];
      }
    }
  }

  lemma {:induction false} RunFromTells(q: Quest, summaries: seq<ToolSummary>, c: Context, script: Script)
    ensures RunTells(q, script, c, RunFrom(q.request, q.deps, q.prompt, summaries, c, script))
    decreases q.request.limits.maxIterations - c.state.iteration
  {
    var turn := script(c.state.iteration);
    OneTripTells(q, summaries, c, turn);
    var trip := OneTrip(q.request, q.deps, q.prompt, summaries, c, turn);
    if trip.ended.None? {
      RunFromTells(q, summaries, trip.context, script);
      EarlierTells(q, script, c, trip, RunFrom(q.request, q.deps, q.prompt, summaries, trip.context, script));
    } else {
      LastTells(q, script, c, trip, turn.persists);
    }
  }

  lemma NothingTells(q: Quest, script: Script)
    ensures RunTells(q, script, INITIAL_CONTEXT, NO_RUN)
  {
  }

  /**
   Every entry of every log a run hands to its store tells of the request and of what the world answered in the turn
   that wrote it: whose run it is and where its data stays, which model a provider in the region was asked, what was
   used and what it cost, which tool was asked for and why it did or did not run, which records passed and what was
   withheld for which rule.
   */
  lemma EveryEntryTellsTheTruth(request: RunRequest, deps: Deps, script: Script)
    requires deps.snapshot.Some?
    ensures RunTells(Quest(request, deps, deps.snapshot.value), script, INITIAL_CONTEXT,
                     AgentRunOf(request, deps, script))
  {
    var q := Quest(request, deps, deps.snapshot.value);
    if deps.summaries.Some? {
      RunFromTells(q, deps.summaries.value, INITIAL_CONTEXT, script);
    } else {
      NothingTells(q, script);
    }
  }

  /**
   So an entry that tells of a tool that ran was written in a turn in which the tool was there and its action approved,
   or in the fast lane and not rejected.
   */
  lemma NoToolRunsUnapproved(request: RunRequest, deps: Deps, script: Script, i: nat, x: nat)
    requires var written := AgentRunOf(request, deps, script).written;
             i < |written| && |Predecessor([], written, i)| <= x < |written[i]|
    ensures var event := AgentRunOf(request, deps, script).written[i][x].event;
            event.ToolCalled? && event.status != ToolDenied ==> Permitted(deps, script(i), event.tool)
  {
    EveryEntryTellsTheTruth(request, deps, script);
    var (q, written) := (Quest(request, deps, deps.snapshot.value), AgentRunOf(request, deps, script).written);
    assert LogTells(q, script, 0, [], written, i);
    assert EntryTells(q, script(i), written[i][x]);
  }

  /** And every provider a run's logs name suits the tenant's region, and its retention where nothing may be kept. */
  lemma NoRunLeavesItsRegion(request: RunRequest, deps: Deps, script: Script, i: nat, x: nat)
    requires var written := AgentRunOf(request, deps, script).written;
             i < |written| && |Predecessor([], written, i)| <= x < |written[i]|
    ensures var event := AgentRunOf(request, deps, script).written[i][x].event;
            event.ModelInvoked? ==>
              exists p :: p in deps.candidates && p.id == event.routerDecision && p.healthy
                          && p.processingRegion == p.storageRegion == request.tenantRegion
                          && (request.requiresZeroRetention ==> p.zeroRetention)
  {
    EveryEntryTellsTheTruth(request, deps, script);
    var (q, written) := (Quest(request, deps, deps.snapshot.value), AgentRunOf(request, deps, script).written);
    assert LogTells(q, script, 0, [], written, i);
    var entry := written[i][x];
    assert EntryTells(q, script(i), entry);
    if entry.event.ModelInvoked? {
      var k :| 0 <= k < |deps.candidates| && deps.candidates[k].id == entry.event.routerDecision
               && Residency.Suits(deps.candidates[k], request.tenantRegion, request.requiresZeroRetention);
      assert deps.candidates[k] in deps.candidates;
    }
  }
}
