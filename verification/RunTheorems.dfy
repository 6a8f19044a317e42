/**
 Whole runs: the evidence they leave, what they spend and that they end
 (src/agent/application/run-agent.ts, progress.ts, tool-step.ts and src/agent/domain/loop-controls.ts).
 */
module RunTheorems {
  import opened Outcomes
  import opened Texts
  import opened ExecutionLog
  import opened HashChain
  import opened Rail
  import opened LogGrammar
  import opened AgentRun
  import opened RunEvidence
  import opened Sets
  import Gateway

  // ---- The record --------------------------------------------------------------------------------------------------

  function Predecessor(start: Log, written: seq<Log>, i: nat): Log
    requires i < |written|
  {
    if i == 0 then start else written[i - 1]
  }

  /** Every log handed to the store is verified, in the grammar, whole, and extends the one before. */
  ghost predicate Recorded(start: Log, written: seq<Log>, hash: EntryHasher) {
    && (forall i | 0 <= i < |written| :: Verified(written[i], hash) && Whole(Scan(written[i])))
    && (forall i | 0 <= i < |written| :: Predecessor(start, written, i) <= written[i])
  }

  lemma RecordedCons(start: Log, first: Log, rest: seq<Log>, hash: EntryHasher)
    requires Verified(first, hash) && Whole(Scan(first)) && start <= first && Recorded(first, rest, hash)
    ensures Recorded(start, [first] + rest, hash)
  {
    var written := [first] + rest;
    forall i | 0 <= i < |written|
      ensures Verified(written[i], hash) && Whole(Scan(written[i])) && Predecessor(start, written, i) <= written[i]
    {
      if i > 0 { assert Predecessor(first, rest, i - 1) <= rest[i - 1]; }
    }
  }

  /**
   The run from a loop head: one log per trip, the last of them the final one, and the closing entry of that log says
   what the caller is told, failures included, unless the store refused it; then the caller is told of a failure.
   */
  ghost predicate RunKept(start: Log, run: Run, hash: EntryHasher) {
    && |run.written| > 0 && run.written[|run.written| - 1] == run.context.log
    && Recorded(start, run.written, hash)
    && (if run.stored then EndsWith(run.context.log, OutcomeOf(run.answer)) else run.answer == Err(FailedRun))
  }

  lemma LastTripKept(before: Context, trip: Trip, stored: bool, hash: EntryHasher)
    requires TripKept(before, trip, stored, hash) && trip.ended.Some?
    ensures RunKept(before.log, LastOf(trip, stored), hash)
  {
    var log := trip.context.log;
    assert Recorded(log, [], hash);
    RecordedCons(before.log, log, [], hash);
    assert [log] + [] == [log];
  }

  lemma EarlierTripKept(before: Context, trip: Trip, stored: bool, rest: Run, hash: EntryHasher)
    requires TripKept(before, trip, stored, hash) && RunKept(trip.context.log, rest, hash)
    ensures RunKept(before.log, Before(trip, rest), hash)
  {
    var (log, run) := (trip.context.log, Before(trip, rest));
    RecordedCons(before.log, log, rest.written, hash);
    assert run.written == [log] + rest.written;
    assert run.written[|run.written| - 1] == rest.written[|rest.written| - 1];
  }

  lemma {:induction false} RunFromKeepsGrammar(request: RunRequest, deps: Deps, prompt: Prompt,
                                               summaries: seq<ToolSummary>, c: Context, script: Script)
    requires Commits(deps.hash) && AtHead(c, deps.hash)
    ensures RunKept(c.log, RunFrom(request, deps, prompt, summaries, c, script), deps.hash)
    decreases request.limits.maxIterations - c.state.iteration
  {
    var turn := script(c.state.iteration);
    TripKeepsGrammar(request, deps, prompt, summaries, c, turn);
    var trip := OneTrip(request, deps, prompt, summaries, c, turn);
    if trip.ended.None? {
      RunFromKeepsGrammar(request, deps, prompt, summaries, trip.context, script);
      EarlierTripKept(c, trip, turn.persists, RunFrom(request, deps, prompt, summaries, trip.context, script),
                      deps.hash);
    } else {
      LastTripKept(c, trip, turn.persists, deps.hash);
    }
  }

  lemma StartsAtHead(hash: EntryHasher)
    ensures AtHead(INITIAL_CONTEXT, hash)
  {
  }

  ghost predicate TellsTheTruth(run: Run, hash: EntryHasher) {
    && Recorded([], run.written, hash)
    && (|run.written| > 0 ==> run.written[|run.written| - 1] == run.context.log)
    && (if run.stored then EndsWith(run.context.log, OutcomeOf(run.answer)) else run.answer == Err(FailedRun))
  }

  lemma KeptTellsTheTruth(run: Run, hash: EntryHasher)
    requires RunKept([], run, hash)
    ensures TellsTheTruth(run, hash)
  {
  }

  lemma NothingRecorded(hash: EntryHasher)
    ensures TellsTheTruth(NO_RUN, hash)
  {
  }

  /**
   Whatever the world answers, every log a run persists is verified, whole and of the one grammar, and tells what the
   caller is told.
   */
  lemma EveryRunKeepsTheGrammar(request: RunRequest, deps: Deps, script: Script)
    requires Commits(deps.hash)
    ensures TellsTheTruth(AgentRunOf(request, deps, script), deps.hash)
  {
    NothingRecorded(deps.hash);
    if deps.snapshot.Some? && deps.summaries.Some? {
      StartsAtHead(deps.hash);
      var run := RunFrom(request, deps, deps.snapshot.value, deps.summaries.value, INITIAL_CONTEXT, script);
      RunFromKeepsGrammar(request, deps, deps.snapshot.value, deps.summaries.value, INITIAL_CONTEXT, script);
      KeptTellsTheTruth(run, deps.hash);
    }
  }

  /** Each of the logs is accepted in its turn, and the store then holds it. */
  predicate AcceptsEach(stored: Log, written: seq<Log>)
    decreases |written|
  {
    |written| > 0 ==>
      Validated(stored, written[0]).Ok? && stored + Validated(stored, written[0]).value == written[0]
          && AcceptsEach(written[0], written[1..])
  }

  lemma {:induction false} StoreFollows(stored: Log, written: seq<Log>, hash: EntryHasher)
    requires Commits(hash) && Verified(stored, hash) && Recorded(stored, written, hash)
    ensures AcceptsEach(stored, written)
    ensures AppendAll(stored, written) == if |written| == 0 then stored else written[|written| - 1]
    decreases |written|
  {
    if |written| > 0 {
      assert Predecessor(stored, written, 0) <= written[0];
      AcceptedMeansExtended(stored, written[0], hash);
      EqualLengthIsANoOp(stored, written[0]);
      var r := Validated(stored, written[0]);
      assert r.Ok? && stored + r.value == written[0];
      var rest := written[1..];
      forall i | 0 <= i < |rest|
        ensures Verified(rest[i], hash) && Whole(Scan(rest[i])) && Predecessor(written[0], rest, i) <= rest[i]
      {
        assert rest[i] == written[i + 1];
        assert Predecessor(stored, written, i + 1) <= written[i + 1];
      }
      StoreFollows(written[0], rest, hash);
    }
  }

  /** The store that was given these logs took each and holds the last of them. */
  predicate StoreHolds(run: Run) {
    AcceptsEach([], run.written) && (|run.written| > 0 ==> AppendAll([], run.written) == run.context.log)
  }

  lemma TruthIsHeld(run: Run, hash: EntryHasher)
    requires Commits(hash) && TellsTheTruth(run, hash)
    ensures StoreHolds(run)
  {
    StoreFollows([], run.written, hash);
  }

  /** A store that is given a run's logs one after another accepts each and ends up holding the run's own. */
  lemma StoreHoldsTheRun(request: RunRequest, deps: Deps, script: Script)
    requires Commits(deps.hash)
    ensures StoreHolds(AgentRunOf(request, deps, script))
  {
    EveryRunKeepsTheGrammar(request, deps, script);
    TruthIsHeld(AgentRunOf(request, deps, script), deps.hash);
  }

  /** Every turn's log is taken by the store. */
  ghost predicate NeverRefused(script: Script) {
    forall i :: script(i).persists
  }

  lemma {:induction false} RunFromIsStored(request: RunRequest, deps: Deps, prompt: Prompt,
                                           summaries: seq<ToolSummary>, c: Context, script: Script)
    requires NeverRefused(script)
    ensures RunFrom(request, deps, prompt, summaries, c, script).stored
    decreases request.limits.maxIterations - c.state.iteration
  {
    var trip := OneTrip(request, deps, prompt, summaries, c, script(c.state.iteration));
    if trip.ended.None? { RunFromIsStored(request, deps, prompt, summaries, trip.context, script); }
  }

  /** The last log handed over is the run's own, and it closes with what the caller is told. */
  predicate ClosesTheRecord(run: Run) {
    run.written != [] && run.written[|run.written| - 1] == run.context.log
        && EndsWith(run.context.log, OutcomeOf(run.answer))
  }

  lemma KeptAndStoredCloses(run: Run, hash: EntryHasher)
    requires RunKept([], run, hash) && run.stored
    ensures ClosesTheRecord(run)
  {
  }

  /**
   A run that began and whose store takes what it is given closes its record with what the caller is told, however the
   providers, the gate, the tools and the key store fail it.
   */
  lemma EveryExitClosesTheRecord(request: RunRequest, deps: Deps, script: Script)
    requires Commits(deps.hash) && deps.snapshot.Some? && deps.summaries.Some? && NeverRefused(script)
    ensures ClosesTheRecord(AgentRunOf(request, deps, script))
  {
    var run := RunFrom(request, deps, deps.snapshot.value, deps.summaries.value, INITIAL_CONTEXT, script);
    StartsAtHead(deps.hash);
    RunFromKeepsGrammar(request, deps, deps.snapshot.value, deps.summaries.value, INITIAL_CONTEXT, script);
    RunFromIsStored(request, deps, deps.snapshot.value, deps.summaries.value, INITIAL_CONTEXT, script);
    KeptAndStoredCloses(run, deps.hash);
  }

  // ---- What it costs -----------------------------------------------------------------------------------------------

  lemma SpendingNeedsRoom(request: RunRequest, deps: Deps, prompt: Prompt, summaries: seq<ToolSummary>, c: Context,
                          turn: Turn)
    ensures OneTrip(request, deps, prompt, summaries, c, turn).cost.Some?
            ==> c.state.costMicros < request.limits.costCeilingMicros
  {
  }

  /**
   What is recorded overshoots the ceiling by less than the last answered turn; without one nothing more is recorded.
   */
  predicate SpendsWithin(spent: int, limits: LoopLimits, run: Run) {
    if run.lastCost.Some? then UsageTotal(run.context.log) < limits.costCeilingMicros + run.lastCost.value
    else UsageTotal(run.context.log) == spent
  }

  lemma SpentAfterTrip(before: Context, limits: LoopLimits, trip: Trip, stored: bool, rest: Run, hash: EntryHasher)
    requires AtHead(before, hash) && TripKept(before, trip, stored, hash)
    requires trip.cost.Some? ==> before.state.costMicros < limits.costCeilingMicros
    ensures trip.ended.Some? ==> SpendsWithin(before.state.costMicros, limits, LastOf(trip, stored))
    ensures trip.ended.None? && SpendsWithin(trip.context.state.costMicros, limits, rest) ==>
              SpendsWithin(before.state.costMicros, limits, Before(trip, rest))
  {
  }

  lemma {:induction false} RunFromSpends(request: RunRequest, deps: Deps, prompt: Prompt, summaries: seq<ToolSummary>,
                                         c: Context, script: Script)
    requires Commits(deps.hash) && AtHead(c, deps.hash)
    ensures SpendsWithin(c.state.costMicros, request.limits, RunFrom(request, deps, prompt, summaries, c, script))
    decreases request.limits.maxIterations - c.state.iteration
  {
    var turn := script(c.state.iteration);
    TripKeepsGrammar(request, deps, prompt, summaries, c, turn);
    SpendingNeedsRoom(request, deps, prompt, summaries, c, turn);
    var trip := OneTrip(request, deps, prompt, summaries, c, turn);
    if trip.ended.None? {
      RunFromSpends(request, deps, prompt, summaries, trip.context, script);
      SpentAfterTrip(c, request.limits, trip, turn.persists,
                     RunFrom(request, deps, prompt, summaries, trip.context, script), deps.hash);
    } else {
      SpentAfterTrip(c, request.limits, trip, turn.persists, NO_RUN, deps.hash);
    }
  }

  lemma NothingSpent(limits: LoopLimits)
    ensures SpendsWithin(0, limits, NO_RUN) && INITIAL_CONTEXT.state.costMicros == 0
  {
  }

  /** What a run records overshoots its ceiling by less than its last answered turn; without one it records nothing. */
  lemma SpendingIsBounded(request: RunRequest, deps: Deps, script: Script)
    requires Commits(deps.hash)
    ensures SpendsWithin(0, request.limits, AgentRunOf(request, deps, script))
  {
    NothingSpent(request.limits);
    if deps.snapshot.Some? && deps.summaries.Some? {
      StartsAtHead(deps.hash);
      RunFromSpends(request, deps, deps.snapshot.value, deps.summaries.value, INITIAL_CONTEXT, script);
    }
  }

  // ---- That it ends ------------------------------------------------------------------------------------------------

  function Positive(n: int): nat {
    if n < 0 then 0 else n
  }

  /** Every turn so far is paid for by a record seen, or by the steps since the last one. */
  predicate Paced(c: Context, limit: nat) {
    c.state.stepsWithoutStateChange <= limit && c.state.iteration <= |c.seen| * limit + c.state.stepsWithoutStateChange
  }

  lemma NewEvidenceGrowsSeen(admitted: seq<RetrievedRecord>, seen: set<Text>)
    ensures |seen + IdsOf(admitted)| >= |seen| + if HasNewEvidence(admitted, seen) then 1 else 0
  {
    var all := seen + IdsOf(admitted);
    if HasNewEvidence(admitted, seen) {
      var i :| 0 <= i < |admitted| && admitted[i].recordId !in seen;
      assert seen + {admitted[i].recordId} <= all;
      SubsetSize(seen + {admitted[i].recordId}, all);
    } else {
      SubsetSize(seen, all);
    }
  }

  lemma {:induction false} MoreSeenMoreRoom(n: nat, m: nat, limit: nat)
    requires n <= m
    ensures n * limit <= m * limit && (m + 1) * limit == m * limit + limit
    ensures n < m ==> n * limit + limit <= m * limit
    decreases m - n
  {
    if n < m {
      MoreSeenMoreRoom(n + 1, m, limit);
      assert (n + 1) * limit == n * limit + limit;
    }
  }

  lemma StepSees(deps: Deps, tool: Text, arguments: Sealed, turn: Turn, seen: set<Text>)
    ensures var step := RecordFor(deps, tool, arguments, turn, seen);
            |step.seen| >= |seen| + if step.effect.ObservedNewEvidence? then 1 else 0
  {
    if DenialOf(deps, tool, turn).None? && turn.result.Observed? {
      NewEvidenceGrowsSeen(Admitted(RecordsOf(tool, turn.result.observation), deps.classifiers), seen);
    }
  }

  /** From one context to the next: a step more, or none since a record that was new. */
  predicate Moved(c: Context, next: Context) {
    && |next.seen| >= |c.seen|
    && (next.state.stepsWithoutStateChange == c.state.stepsWithoutStateChange + 1 ||
        (next.state.stepsWithoutStateChange == 0 && |next.seen| > |c.seen|))
  }

  /** A trip sends at most one prompt and writes at most one log, and one that goes on has moved. */
  predicate TripMoves(c: Context, limits: LoopLimits, trip: Trip) {
    && |trip.prompts| <= 1 && |trip.written| <= 1 && |trip.context.seen| >= |c.seen|
    && (trip.prompts != [] || trip.ended.None? ==> EvaluateLoop(c.state, limits).None?)
    && (trip.ended.None? ==>
          |trip.prompts| == 1 && Moved(c, trip.context)
          && trip.context.state.iteration == c.state.iteration + 1)
  }

  lemma FinishMoves(request: RunRequest, deps: Deps, before: Context, c: Context, turn: Turn, outcome: RunOutcome,
                    answer: Result<Text, RunFailure>, prompts: seq<Text>, cost: Option<int>)
    requires |c.seen| >= |before.seen| && |prompts| <= 1
    requires prompts != [] ==> EvaluateLoop(before.state, request.limits).None?
    ensures TripMoves(before, request.limits, Ending(FinishRun(request, deps, c, turn, outcome, answer), prompts, cost))
  {
  }

  lemma StepMoves(request: RunRequest, deps: Deps, before: Context, c: Context, tool: Text, turn: Turn, text: Text,
                  cost: int)
    requires c == before.(log := c.log) && EvaluateLoop(before.state, request.limits).None?
    ensures TripMoves(before, request.limits,
                      AfterStep(request, deps, ApplyToolStep(request, deps, c, tool, turn), turn, text, cost))
  {
    if turn.argumentsSeal.Some? {
      StepSees(deps, tool, turn.argumentsSeal.value, turn, c.seen);
    }
    var (effect, c2) := ApplyToolStep(request, deps, c, tool, turn);
    if effect.Err? {
      FinishMoves(request, deps, before, c2, turn, if effect.error.RefusedRun? then Refused else Failed,
                  Err(effect.error), [text], Some(cost));
    }
  }

  lemma ReplyMoves(request: RunRequest, deps: Deps, before: Context, c: Context, turn: Turn, text: Text,
                   reply: Gateway.Reply)
    requires c == before.(log := c.log) && EvaluateLoop(before.state, request.limits).None?
    ensures TripMoves(before, request.limits, AfterReply(request, deps, c, turn, text, reply))
  {
    var stepCost := deps.cost(reply.inputTokens, reply.outputTokens);
    match deps.parse(reply.text)
    case None =>
    case Some(Answer(answer)) =>
      FinishMoves(request, deps, before, c, turn, Succeeded, Ok(answer), [text], Some(stepCost));
    case Some(UseTool(tool, _)) => StepMoves(request, deps, before, c, tool, turn, text, stepCost);
  }

  /** A trip that goes on counts one more turn, and forgets its steps only for a record it had not seen. */
  lemma TripProgress(request: RunRequest, deps: Deps, prompt: Prompt, summaries: seq<ToolSummary>, c: Context,
                     turn: Turn)
    ensures TripMoves(c, request.limits, OneTrip(request, deps, prompt, summaries, c, turn))
  {
    var verdict := EvaluateLoop(c.state, request.limits);
    if verdict.Some? {
      FinishMoves(request, deps, c, c, turn, Halted, Err(HaltedRun(verdict.value)), [], None);
    } else {
      var text := Transcript(request.question, summaries, c.observations, c.corrections);
      var (served, log) := ServeTurn(request, deps, prompt, c.log, turn);
      var c1 := c.(log := log);
      if served.Err? {
        FinishMoves(request, deps, c, c1, turn, if served.error.RefusedRun? then Refused else Failed, Err(served.error),
                    if turn.hashParses then [text] else [], None);
      } else {
        ReplyMoves(request, deps, c, c1, turn, text, served.value);
      }
    }
  }

  /** Bounds on the turns left from a loop head. */
  predicate Ends(c: Context, limits: LoopLimits, run: Run) {
    && |run.context.seen| >= |c.seen|
    && c.state.iteration + |run.prompts| <= (|run.context.seen| + 1) * Positive(limits.maxStepsWithoutProgress)
    && (run.prompts != [] ==> c.state.iteration + |run.prompts| <= limits.maxIterations)
    && |run.written| <= |run.prompts| + 1
  }

  lemma MovedKeepsPace(c: Context, next: Context, limit: nat)
    requires Paced(c, limit) && Moved(c, next) && c.state.stepsWithoutStateChange < limit
    requires next.state.iteration == c.state.iteration + 1
    ensures Paced(next, limit)
  {
    MoreSeenMoreRoom(|c.seen|, |next.seen|, limit);
  }

  lemma PacedEnds(c: Context, limits: LoopLimits, last: Run)
    requires Paced(c, Positive(limits.maxStepsWithoutProgress)) && |last.context.seen| >= |c.seen|
    requires |last.prompts| <= 1 && |last.written| <= 1
    requires last.prompts != [] ==> EvaluateLoop(c.state, limits).None?
    ensures Ends(c, limits, last)
  {
    MoreSeenMoreRoom(|c.seen|, |last.context.seen|, Positive(limits.maxStepsWithoutProgress));
  }

  lemma EndsAfterTrip(c: Context, limits: LoopLimits, trip: Trip, stored: bool, rest: Run)
    requires TripMoves(c, limits, trip) && Paced(c, Positive(limits.maxStepsWithoutProgress))
    ensures trip.ended.None? ==> Paced(trip.context, Positive(limits.maxStepsWithoutProgress))
    ensures trip.ended.Some? ==> Ends(c, limits, LastOf(trip, stored))
    ensures trip.ended.None? && Ends(trip.context, limits, rest) ==> Ends(c, limits, Before(trip, rest))
  {
    if trip.ended.None? {
      MovedKeepsPace(c, trip.context, Positive(limits.maxStepsWithoutProgress));
    } else {
      PacedEnds(c, limits, LastOf(trip, stored));
    }
  }

  lemma {:induction false} RunFromEnds(request: RunRequest, deps: Deps, prompt: Prompt, summaries: seq<ToolSummary>,
                                       c: Context, script: Script)
    requires Paced(c, Positive(request.limits.maxStepsWithoutProgress))
    ensures Ends(c, request.limits, RunFrom(request, deps, prompt, summaries, c, script))
    decreases request.limits.maxIterations - c.state.iteration
  {
    var turn := script(c.state.iteration);
    TripProgress(request, deps, prompt, summaries, c, turn);
    var trip := OneTrip(request, deps, prompt, summaries, c, turn);
    EndsAfterTrip(c, request.limits, trip, turn.persists, NO_RUN);
    if trip.ended.None? {
      RunFromEnds(request, deps, prompt, summaries, trip.context, script);
      EndsAfterTrip(c, request.limits, trip, turn.persists,
                    RunFrom(request, deps, prompt, summaries, trip.context, script));
    }
  }

  /**
   Within the iteration limit, and within (d + 1) times the limit of steps without progress for d different records
   seen.
   */
  predicate EndsInTime(limits: LoopLimits, run: Run) {
    && |run.prompts| <= Positive(limits.maxIterations)
    && |run.prompts| <= (|run.context.seen| + 1) * Positive(limits.maxStepsWithoutProgress)
    && |run.written| <= |run.prompts| + 1
  }

  lemma StartsPaced(limits: LoopLimits)
    ensures Paced(INITIAL_CONTEXT, Positive(limits.maxStepsWithoutProgress)) && EndsInTime(limits, NO_RUN)
  {
    MoreSeenMoreRoom(0, 0, Positive(limits.maxStepsWithoutProgress));
  }

  lemma EndedInTime(limits: LoopLimits, run: Run)
    requires Ends(INITIAL_CONTEXT, limits, run)
    ensures EndsInTime(limits, run)
  {
  }

  /** Every run ends, within its iteration limit and within what the records its tools surfaced allow. */
  lemma EveryRunEnds(request: RunRequest, deps: Deps, script: Script)
    ensures EndsInTime(request.limits, AgentRunOf(request, deps, script))
  {
    StartsPaced(request.limits);
    if deps.snapshot.Some? && deps.summaries.Some? {
      RunFromEnds(request, deps, deps.snapshot.value, deps.summaries.value, INITIAL_CONTEXT, script);
      EndedInTime(request.limits,
                  RunFrom(request, deps, deps.snapshot.value, deps.summaries.value, INITIAL_CONTEXT, script));
    }
  }
}
