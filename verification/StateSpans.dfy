/** The states a run passed through, as the timeline shows them (src/evidence/application/project-run-timeline.ts). */
module StateSpans {
  import opened Outcomes
  import opened ExecutionLog
  import opened LogGrammar

  datatype AgentState = Queued | Thinking | Acting | AwaitingApproval | Recovering | FailedState

  datatype StateSpan = StateSpan(state: AgentState, at: int, fromSeq: int, toSeq: int)

  function BaseStateFor(event: Event): Option<AgentState> {
    match event
    case RunStarted(_, _, _, _, _) => Some(Queued)
    case RecordRetrieved(_, _, _) => Some(Thinking)
    case ModelInvoked(_, _, _, _) => Some(Thinking)
    case ToolCalled(_, _, _, _) => Some(Acting)
    case HumanIntervened(_, _, _, _) => Some(AwaitingApproval)
    case GuardrailEvaluated(_, _, _) => None
    case UsageRecorded(_, _, _, _) => None
    case RunFinished(outcome) => if outcome == Failed then Some(FailedState) else None
  }

  function NextRecovering(current: bool, event: Event): bool {
    if event.ToolCalled? then event.status == ToolFailed else if event.RunFinished? then false else current
  }

  function StateFor(event: Event, recovering: bool): Option<AgentState> {
    var base := BaseStateFor(event);
    if recovering && (base == Some(Thinking) || base == Some(Acting)) then Some(Recovering) else base
  }

  /** Whether the run is recovering after the log. */
  function Latch(log: Log): bool {
    |log| > 0 && NextRecovering(Latch(log[..|log| - 1]), log[|log| - 1].event)
  }

  function Extended(spans: seq<StateSpan>, state: Option<AgentState>, entry: Entry): seq<StateSpan> {
    if state.None? then spans
    else if |spans| > 0 && spans[|spans| - 1].state == state.value
    then spans[..|spans| - 1] + [spans[|spans| - 1].(toSeq := entry.seqNo)]
    else spans + [StateSpan(state.value, entry.at, entry.seqNo, entry.seqNo)]
  }

  function SpansOf(log: Log): seq<StateSpan> {
    if |log| == 0 then []
    else
      var before, last := log[..|log| - 1], log[|log| - 1];
      Extended(SpansOf(before), StateFor(last.event, Latch(before)), last)
  }

  method StatesFrom(log: Log) returns (spans: seq<StateSpan>)
    ensures spans == SpansOf(log)
  {
    spans := [];
    var recovering := false;
    for i := 0 to |log|
      invariant spans == SpansOf(log[..i]) && recovering == Latch(log[..i])
    {
      assert log[..i + 1][..i] == log[..i];
      var state := StateFor(log[i].event, recovering);
      recovering := NextRecovering(recovering, log[i].event);
      if state.None? {
        continue;
      }
      var last := |spans| - 1;
      if last >= 0 && spans[last].state == state.value {
        spans := spans[..last] + [spans[last].(toSeq := log[i].seqNo)];
      } else {
        spans := spans + [StateSpan(state.value, log[i].at, log[i].seqNo, log[i].seqNo)];
      }
    }
    assert log[..|log|] == log;
  }

  /** Neighbouring spans differ in state, and each ends before the next begins. */
  predicate InOrder(spans: seq<StateSpan>, next: int) {
    && (forall i | 0 <= i < |spans| :: spans[i].fromSeq <= spans[i].toSeq < next)
    && (forall i | 0 <= i < |spans| - 1 ::
        spans[i].state != spans[i + 1].state && spans[i].toSeq < spans[i + 1].fromSeq)
  }

  lemma ExtendedInOrder(spans: seq<StateSpan>, state: Option<AgentState>, entry: Entry)
    requires InOrder(spans, entry.seqNo)
    ensures InOrder(Extended(spans, state, entry), entry.seqNo + 1)
  {
    var longer, n := Extended(spans, state, entry), |spans|;
    if state.Some? && n > 0 && spans[n - 1].state == state.value {
      assert forall i | 0 <= i < n - 1 :: longer[i] == spans[i];
    }
  }

  /** In a numbered log the spans follow one another without overlap, and no two neighbours could be one. */
  lemma {:induction false} SpansAreInOrder(log: Log)
    requires forall i | 0 <= i < |log| :: log[i].seqNo == i
    ensures InOrder(SpansOf(log), |log|)
  {
    if |log| > 0 {
      var before, last := log[..|log| - 1], log[|log| - 1];
      SpansAreInOrder(before);
      ExtendedInOrder(SpansOf(before), StateFor(last.event, Latch(before)), last);
    }
  }

  predicate Shows(spans: seq<StateSpan>, state: AgentState) {
    exists i :: 0 <= i < |spans| && spans[i].state == state
  }

  lemma ExtendedShows(spans: seq<StateSpan>, state: Option<AgentState>, entry: Entry, other: AgentState)
    ensures Shows(Extended(spans, state, entry), other) <==> Shows(spans, other) || state == Some(other)
  {
    var longer := Extended(spans, state, entry);
    if Shows(spans, other) {
      var i :| 0 <= i < |spans| && spans[i].state == other;
      assert longer[i].state == other;
    }
    if state == Some(other) { assert longer[|longer| - 1].state == other; }
  }

  /** A run shows as failed exactly when it finished as failed: a refusal never does. */
  lemma {:induction false} FailedOnlyWhenFailed(log: Log)
    ensures Shows(SpansOf(log), FailedState) <==> exists i :: 0 <= i < |log| && log[i].event == RunFinished(Failed)
  {
    if |log| > 0 {
      var before, last := log[..|log| - 1], log[|log| - 1];
      FailedOnlyWhenFailed(before);
      ExtendedShows(SpansOf(before), StateFor(last.event, Latch(before)), last, FailedState);
      assert forall i | 0 <= i < |before| :: before[i] == log[i];
    }
  }

  lemma {:induction false} RecoveringMeansDead(log: Log)
    requires Scan(log) != Wrong && Latch(log)
    ensures Scan(log) == Dead
  {
    var before, last := log[..|log| - 1], log[|log| - 1].event;
    if !last.ToolCalled? {
      RecoveringMeansDead(before);
      DeadStep(last, |before|);
    } else {
      UnverifiedStep(Scan(before), last, |before|);
    }
  }

  lemma StepShowsNothingElse(before: Log, entry: Entry)
    requires Next(Scan(before), entry.event, |before|) != Wrong
    ensures var state := StateFor(entry.event, Latch(before));
            state != Some(Recovering) && state != Some(AwaitingApproval)
  {
    if Latch(before) {
      RecoveringMeansDead(before);
      DeadStep(entry.event, |before|);
    }
  }

  /**
   No log that a run writes ever shows it recovering or waiting for approval: after a failed tool the loop halts, and
   the gate's answers are not written to the log.
   */
  lemma {:induction false} RunsNeverShowRecovering(log: Log)
    requires Scan(log) != Wrong
    ensures !Shows(SpansOf(log), Recovering) && !Shows(SpansOf(log), AwaitingApproval)
  {
    if |log| > 0 {
      var before, last := log[..|log| - 1], log[|log| - 1];
      RunsNeverShowRecovering(before);
      StepShowsNothingElse(before, last);
      var state := StateFor(last.event, Latch(before));
      ExtendedShows(SpansOf(before), state, last, Recovering);
      ExtendedShows(SpansOf(before), state, last, AwaitingApproval);
    }
  }

  // ---- Every entry's state is shown where it is ----------------------------------------------------------------

  /** The state an entry places the run in. */
  function StateAt(log: Log, i: nat): Option<AgentState>
    requires i < |log|
  {
    StateFor(log[i].event, Latch(log[..i]))
  }

  /** One of the spans shows this state over this place. */
  predicate Covers(spans: seq<StateSpan>, state: AgentState, i: int) {
    exists j :: 0 <= j < |spans| && spans[j].state == state && spans[j].fromSeq <= i <= spans[j].toSeq
  }

  lemma ExtendedCovers(spans: seq<StateSpan>, state: Option<AgentState>, entry: Entry, shown: AgentState, i: int)
    requires |spans| > 0 ==> spans[|spans| - 1].toSeq < entry.seqNo
    ensures Covers(spans, shown, i) ==> Covers(Extended(spans, state, entry), shown, i)
    ensures state == Some(shown) && i == entry.seqNo && (|spans| > 0 ==> spans[|spans| - 1].fromSeq <= i) ==>
              Covers(Extended(spans, state, entry), shown, i)
  {
    var longer := Extended(spans, state, entry);
    if Covers(spans, shown, i) {
      var j :| 0 <= j < |spans| && spans[j].state == shown && spans[j].fromSeq <= i <= spans[j].toSeq;
      assert longer[j].state == shown && longer[j].fromSeq == spans[j].fromSeq && longer[j].toSeq >= spans[j].toSeq;
    }
    if state == Some(shown) && i == entry.seqNo && (|spans| > 0 ==> spans[|spans| - 1].fromSeq <= i) {
      assert longer[|longer| - 1].state == shown && longer[|longer| - 1].fromSeq <= i <= longer[|longer| - 1].toSeq;
    }
  }

  /** In a numbered log every entry that places the run in a state lies in a span of that state. */
  lemma {:induction false} EntriesAreCovered(log: Log, i: nat)
    requires i < |log| && forall k | 0 <= k < |log| :: log[k].seqNo == k
    ensures StateAt(log, i).Some? ==> Covers(SpansOf(log), StateAt(log, i).value, i)
    decreases |log|
  {
    var (before, last) := (log[..|log| - 1], log[|log| - 1]);
    var state := StateFor(last.event, Latch(before));
    assert forall k | 0 <= k < |before| :: before[k] == log[k];
    SpansAreInOrder(before);
    if StateAt(log, i).Some? {
      if i < |before| {
        EntriesAreCovered(before, i);
        assert before[..i] == log[..i];
      }
      ExtendedCovers(SpansOf(before), state, last, StateAt(log, i).value, i);
    }
  }

  /** A span begins with an entry that places the run in its state, and is dated by it. */
  predicate BeginsAt(span: StateSpan, log: Log) {
    && 0 <= span.fromSeq < |log| && span.at == log[span.fromSeq].at && StateAt(log, span.fromSeq) == Some(span.state)
  }

  lemma {:induction false} SpansBegin(log: Log, j: nat)
    requires j < |SpansOf(log)| && forall k | 0 <= k < |log| :: log[k].seqNo == k
    ensures BeginsAt(SpansOf(log)[j], log)
    decreases |log|
  {
    var before := log[..|log| - 1];
    assert forall k | 0 <= k < |before| :: before[k] == log[k];
    if j < |SpansOf(before)| {
      SpansBegin(before, j);
      assert before[..SpansOf(before)[j].fromSeq] == log[..SpansOf(before)[j].fromSeq];
    }
  }

  /** The kind of event that places a run in this state. */
  predicate Means(event: Event, state: AgentState) {
    match state
    case Queued => event.RunStarted?
    case Thinking => event.ModelInvoked? || event.RecordRetrieved?
    case Acting => event.ToolCalled?
    case FailedState => event == RunFinished(Failed)
    case AwaitingApproval => event.HumanIntervened?
    case Recovering => false
  }

  predicate Tells(log: Log, state: AgentState) {
    exists i :: 0 <= i < |log| && Means(log[i].event, state)
  }

  lemma TellsOneMore(log: Log, entry: Entry, state: AgentState)
    ensures Tells(log + [entry], state) <==> Tells(log, state) || Means(entry.event, state)
  {
    var longer := log + [entry];
    if Tells(log, state) {
      var i :| 0 <= i < |log| && Means(log[i].event, state);
      assert longer[i] == log[i];
    }
    assert longer[|log|] == entry;
    if Tells(longer, state) && !Means(entry.event, state) {
      var i :| 0 <= i < |longer| && Means(longer[i].event, state);
      assert i < |log| && log[i] == longer[i];
    }
  }

  lemma StateMeans(event: Event, recovering: bool, state: AgentState)
    requires StateFor(event, recovering) != Some(Recovering)
    ensures StateFor(event, recovering) == Some(state) <==> Means(event, state)
  {
  }

  lemma ShownOneMore(before: Log, last: Entry, state: AgentState)
    requires Next(Scan(before), last.event, |before|) != Wrong
    ensures Shows(Extended(SpansOf(before), StateFor(last.event, Latch(before)), last), state) <==>
            Shows(SpansOf(before), state) || Means(last.event, state)
  {
    StepShowsNothingElse(before, last);
    StateMeans(last.event, Latch(before), state);
    ExtendedShows(SpansOf(before), StateFor(last.event, Latch(before)), last, state);
  }

  /** The timeline of a run shows a state exactly when its log tells of something that places it there. */
  lemma {:induction false} ShownExactly(log: Log, state: AgentState)
    requires Scan(log) != Wrong
    ensures Shows(SpansOf(log), state) <==> Tells(log, state)
  {
    if |log| > 0 {
      var (before, last) := (log[..|log| - 1], log[|log| - 1]);
      ShownExactly(before, state);
      ShownOneMore(before, last, state);
      TellsOneMore(before, last, state);
      assert log == before + [last];
    }
  }

  // ---- Recovering ----------------------------------------------------------------------------------------------

  /** The i-th entry tells of a tool that failed, and no later one of a tool or of the end. */
  predicate FailedLast(log: Log, i: int) {
    && 0 <= i < |log| && log[i].event.ToolCalled? && log[i].event.status == ToolFailed
    && forall k | i < k < |log| :: !log[k].event.ToolCalled? && !log[k].event.RunFinished?
  }

  /** Of any log: it is recovering from the moment a tool fails until the next tool does not, or the run ends. */
  lemma {:induction false} RecoveringSinceAFailure(log: Log)
    ensures Latch(log) <==> exists i :: FailedLast(log, i)
  {
    if |log| > 0 {
      var (before, last) := (log[..|log| - 1], log[|log| - 1]);
      assert forall k | 0 <= k < |before| :: before[k] == log[k];
      RecoveringSinceAFailure(before);
      if last.event.ToolCalled? && last.event.status == ToolFailed {
        assert FailedLast(log, |log| - 1);
      } else if !last.event.ToolCalled? && !last.event.RunFinished? {
        if i :| FailedLast(before, i) { assert FailedLast(log, i); }
        if i :| FailedLast(log, i) { assert FailedLast(before, i); }
      }
    }
  }

  /** A recovering run shows so where it would show as thinking or acting, and nowhere else. */
  lemma RecoveringShows(event: Event, recovering: bool)
    ensures StateFor(event, recovering) == Some(Recovering) <==>
            recovering && (event.ModelInvoked? || event.RecordRetrieved? || event.ToolCalled?)
    ensures StateFor(event, recovering) != Some(Recovering)
            ==> forall state :: StateFor(event, recovering) == Some(state) <==> Means(event, state)
  {
    forall state | StateFor(event, recovering) != Some(Recovering)
      ensures StateFor(event, recovering) == Some(state) <==> Means(event, state) {
      StateMeans(event, recovering, state);
    }
  }
}
