/**
 The one grammar of every log a run writes, as a scanner over its events, and what being accepted means entry by entry
 (src/agent/application/run-agent.ts, src/agent/application/run-log.ts, src/serving/application/serve-completion.ts).
 */
module LogGrammar {
  import opened ExecutionLog
  import Gateway

  /**
   Where in the grammar a log stands: nothing yet; just opened; between turns after a tool; n invocations into a turn;
   the turn's usage recorded; inside a tool's block; after a tool that did not succeed; closed; or outside the grammar.
   */
  datatype Phase =
    | Fresh | Opened | Ready | Invoked(n: nat) | Settled
    | Blocking | Allowing(n: nat) | Retrieving(allowed: nat, n: nat)
    | Dead | Closed | Wrong

  /** A success closes only an answered turn, and a refusal only a turn that was never answered. */
  predicate MayFinish(phase: Phase, outcome: RunOutcome) {
    match phase
    case Fresh => outcome == Failed || outcome == Halted
    case Opened => outcome == Refused
    case Invoked(_) => outcome == Failed || outcome == Refused
    case Ready => outcome != Succeeded
    case Settled => true
    case Dead => outcome == Halted
    case _ => false
  }

  function Next(phase: Phase, event: Event, index: nat): Phase {
    match event
    case RunStarted(_, _, _, _, _) => if phase.Fresh? then Opened else Wrong
    case ModelInvoked(_, _, _, _) =>
      if phase.Opened? || phase.Ready? || phase.Settled? then Invoked(1)
      else if phase.Invoked? && phase.n < Gateway.MAX_ATTEMPTS then Invoked(phase.n + 1)
      else Wrong
    case UsageRecorded(invocationSeq, _, _, _) =>
      if phase.Invoked? && invocationSeq == index - 1 then Settled else Wrong
    case GuardrailEvaluated(_, _, Blocked) => if phase.Settled? || phase.Blocking? then Blocking else Wrong
    case GuardrailEvaluated(_, _, Allowed) =>
      if phase.Settled? || phase.Blocking? then Allowing(1)
      else if phase.Allowing? then Allowing(phase.n + 1)
      else Wrong
    case RecordRetrieved(_, _, _) =>
      if phase.Settled? || phase.Blocking? then Retrieving(0, 1)
      else if phase.Allowing? then Retrieving(phase.n, 1)
      else if phase.Retrieving? then Retrieving(phase.allowed, phase.n + 1)
      else Wrong
    case ToolCalled(_, _, ToolSucceeded, _) =>
      if phase.Settled? || phase.Blocking?
          || (phase.Retrieving? && (phase.allowed == 0 || phase.allowed == phase.n)) then Ready
      else Wrong
    case ToolCalled(_, _, _, _) => if phase.Settled? then Dead else Wrong
    case RunFinished(outcome) => if MayFinish(phase, outcome) then Closed else Wrong
    case HumanIntervened(_, _, _, _) => Wrong
  }

  function Scan(log: Log): Phase {
    if |log| == 0 then Fresh else Next(Scan(log[..|log| - 1]), log[|log| - 1].event, |log| - 1)
  }

  /** The phase after some more events are appended at the given index. */
  function ScanOn(phase: Phase, events: seq<Event>, index: nat): Phase
    decreases |events|
  {
    if |events| == 0 then phase else ScanOn(Next(phase, events[0], index), events[1..], index + 1)
  }

  lemma ScanSnoc(log: Log, entry: Entry)
    ensures Scan(log + [entry]) == Next(Scan(log), entry.event, |log|)
  {
    assert (log + [entry])[..|log|] == log;
  }

  lemma {:induction false} ScanOnConcat(phase: Phase, a: seq<Event>, b: seq<Event>, index: nat)
    ensures ScanOn(phase, a + b, index) == ScanOn(ScanOn(phase, a, index), b, index + |a|)
    decreases |a|
  {
    if |a| == 0 {
      assert a + b == b;
    } else {
      assert (a + b)[1..] == a[1..] + b;
      ScanOnConcat(Next(phase, a[0], index), a[1..], b, index + 1);
    }
  }

  lemma {:induction false} PrefixesScan(log: Log, n: nat)
    requires Scan(log) != Wrong && n <= |log|
    ensures Scan(log[..n]) != Wrong
    ensures n < |log| ==>
              Next(Scan(log[..n]), log[n].event, n) != Wrong
              && Next(Scan(log[..n]), log[n].event, n) == Scan(log[..n + 1])
    decreases |log|
  {
    if n == |log| {
      assert log[..n] == log;
    } else {
      var shorter := log[..|log| - 1];
      if n == |log| - 1 {
        assert log[..n + 1] == log;
      } else {
        PrefixesScan(shorter, n);
        assert shorter[..n] == log[..n] && shorter[..n + 1] == log[..n + 1];
      }
    }
  }

  /** n invocations in a row stand at the end of a log that is n invocations into a turn. */
  lemma {:induction false} InvocationsBefore(log: Log, n: nat)
    requires Scan(log) == Invoked(n)
    ensures 0 < n <= Gateway.MAX_ATTEMPTS && n < |log| && !log[|log| - n - 1].event.ModelInvoked?
    ensures forall k | |log| - n <= k < |log| :: log[k].event.ModelInvoked?
    decreases |log|
  {
    var shorter := log[..|log| - 1];
    var before := Scan(shorter);
    if before.Invoked? {
      InvocationsBefore(shorter, before.n);
    } else {
      assert |shorter| > 0;
      assert before == Next(Scan(shorter[..|shorter| - 1]), shorter[|shorter| - 1].event, |shorter| - 1);
    }
  }

  // One step of the scanner, event by event.

  lemma ClosedIsLast(event: Event, index: nat)
    ensures Next(Closed, event, index) == Wrong
  {
  }

  lemma FreshStep(event: Event, index: nat)
    requires Next(Fresh, event, index) != Wrong
    ensures event.RunStarted? || (event.RunFinished? && Next(Fresh, event, index) == Closed)
  {
  }

  lemma StartStep(phase: Phase, event: Event, index: nat)
    requires Next(phase, event, index) != Wrong && event.RunStarted?
    ensures phase == Fresh
  {
  }

  lemma UsageStep(phase: Phase, event: Event, index: nat)
    requires Next(phase, event, index) != Wrong && event.UsageRecorded?
    ensures phase.Invoked? && event.invocationSeq == index - 1
  {
  }

  lemma InvocationStep(phase: Phase, event: Event, index: nat)
    requires Next(phase, event, index) != Wrong && event.ModelInvoked?
    ensures Next(phase, event, index).Invoked?
  {
  }

  lemma AfterInvocationStep(n: nat, event: Event, index: nat)
    requires Next(Invoked(n), event, index) != Wrong
    ensures event.ModelInvoked? || event.UsageRecorded? || event == RunFinished(Failed) || event == RunFinished(Refused)
  {
  }

  lemma UnverifiedStep(phase: Phase, event: Event, index: nat)
    requires Next(phase, event, index) != Wrong && event.ToolCalled? && event.status != ToolSucceeded
    ensures Next(phase, event, index) == Dead
  {
  }

  lemma DeadStep(event: Event, index: nat)
    requires Next(Dead, event, index) != Wrong
    ensures event == RunFinished(Halted) && Next(Dead, event, index) == Closed
  {
  }

  lemma FinishStep(phase: Phase, event: Event, index: nat)
    requires Next(phase, event, index) != Wrong && event.RunFinished?
    ensures Next(phase, event, index) == Closed && (event.outcome == Succeeded ==> phase == Settled)
  {
  }

  /** A run that opened opens first and once; a run that did not holds nothing but its closing entry. */
  lemma OpensFirst(log: Log, i: nat)
    requires Scan(log) != Wrong && i < |log|
    ensures log[0].event.RunStarted? || (log[0].event.RunFinished? && |log| == 1)
    ensures log[i].event.RunStarted? <==> i == 0 && !log[0].event.RunFinished?
  {
    PrefixesScan(log, 0);
    FreshMeansEmpty(log[..0]);
    FreshStep(log[0].event, 0);
    if 1 < |log| {
      PrefixesScan(log, 1);
      if log[0].event.RunFinished? { ClosedIsLast(log[1].event, 1); }
    }
    if log[i].event.RunStarted? {
      PrefixesScan(log, i);
      StartStep(Scan(log[..i]), log[i].event, i);
      FreshMeansEmpty(log[..i]);
    }
  }

  /** The closing entry is last. */
  lemma ClosesLast(log: Log, i: nat)
    requires Scan(log) != Wrong && i < |log| && log[i].event.RunFinished?
    ensures i == |log| - 1
  {
    PrefixesScan(log, i);
    FinishStep(Scan(log[..i]), log[i].event, i);
    if i + 1 < |log| {
      PrefixesScan(log, i + 1);
      ClosedIsLast(log[i + 1].event, i + 1);
    }
  }

  /** A success closes a turn that was answered. */
  lemma SuccessIsAnswered(log: Log, i: nat)
    requires Scan(log) != Wrong && i < |log| && log[i].event == RunFinished(Succeeded)
    ensures i > 0 && log[i - 1].event.UsageRecorded?
  {
    PrefixesScan(log, i);
    FinishStep(Scan(log[..i]), log[i].event, i);
    var u, _, _ := BlockSoFar(log[..i]);
  }

  /** Usage names the invocation just before it. */
  lemma UsageNamesInvocation(log: Log, i: nat)
    requires Scan(log) != Wrong && i < |log| && log[i].event.UsageRecorded?
    ensures i > 0 && log[i].event.invocationSeq == i - 1 && log[i - 1].event.ModelInvoked?
  {
    PrefixesScan(log, i);
    UsageStep(Scan(log[..i]), log[i].event, i);
    InvocationsBefore(log[..i], Scan(log[..i]).n);
  }

  /** An invocation is followed by another one, by its usage, or by the end of the run in failure or refusal. */
  lemma AfterInvocation(log: Log, i: nat)
    requires Scan(log) != Wrong && i + 1 < |log| && log[i].event.ModelInvoked?
    ensures var next := log[i + 1].event;
            next.ModelInvoked? || next.UsageRecorded? || next == RunFinished(Failed) || next == RunFinished(Refused)
  {
    PrefixesScan(log, i);
    InvocationStep(Scan(log[..i]), log[i].event, i);
    PrefixesScan(log, i + 1);
    AfterInvocationStep(Scan(log[..i + 1]).n, log[i + 1].event, i + 1);
  }

  /** After a tool that was denied or failed, the run halts and nothing else follows. */
  lemma AfterUnverifiedTool(log: Log, i: nat)
    requires Scan(log) != Wrong && i + 1 < |log| && log[i].event.ToolCalled? && log[i].event.status != ToolSucceeded
    ensures log[i + 1].event == RunFinished(Halted) && |log| == i + 2
  {
    PrefixesScan(log, i);
    UnverifiedStep(Scan(log[..i]), log[i].event, i);
    PrefixesScan(log, i + 1);
    DeadStep(log[i + 1].event, i + 1);
    ClosesLast(log, i + 1);
  }

  lemma FreshMeansEmpty(log: Log)
    ensures Scan(log) == Fresh <==> |log| == 0
  {
  }

  /** At most four attempts are recorded in a row. */
  lemma FewAttempts(log: Log, i: nat)
    requires Scan(log) != Wrong && i + Gateway.MAX_ATTEMPTS < |log|
    ensures exists k :: i <= k <= i + Gateway.MAX_ATTEMPTS && !log[k].event.ModelInvoked?
  {
    var n := i + Gateway.MAX_ATTEMPTS;
    PrefixesScan(log, n);
    var upTo := log[..n + 1];
    PrefixesScan(log, n + 1);
    assert upTo[..n] == log[..n];
    if log[n].event.ModelInvoked? {
      assert Scan(upTo).Invoked?;
      InvocationsBefore(upTo, Scan(upTo).n);
      var k := |upTo| - Scan(upTo).n - 1;
      assert upTo[k] == log[k];
    }
  }

  predicate AllBlocked(log: Log, from: nat, upto: nat) {
    from <= upto <= |log| && forall k | from <= k < upto ::
        log[k].event.GuardrailEvaluated? && log[k].event.railOutcome == Blocked
  }

  predicate AllAllowed(log: Log, from: nat, upto: nat) {
    from <= upto <= |log| && forall k | from <= k < upto ::
        log[k].event.GuardrailEvaluated? && log[k].event.railOutcome == Allowed
  }

  predicate AllRetrieved(log: Log, from: nat, upto: nat) {
    from <= upto <= |log| && forall k | from <= k < upto :: log[k].event.RecordRetrieved?
  }

  /** A usage entry at u, then blocks up to x, allowances up to y, and records up to the end. */
  predicate ToolBlock(log: Log, u: nat, x: nat, y: nat) {
    && u < |log| && log[u].event.UsageRecorded?
    && AllBlocked(log, u + 1, x) && AllAllowed(log, x, y) && AllRetrieved(log, y, |log|)
  }

  predicate InBlock(phase: Phase) {
    phase.Settled? || phase.Blocking? || phase.Allowing? || phase.Retrieving?
  }

  lemma InBlockStep(phase: Phase, event: Event, index: nat)
    requires InBlock(Next(phase, event, index))
    ensures var next := Next(phase, event, index);
            if event.UsageRecorded? then next == Settled
            else InBlock(phase) && !next.Settled? && (event.RecordRetrieved? || event.GuardrailEvaluated?)
  {
  }

  lemma {:induction false} BlockSoFar(log: Log) returns (u: nat, x: nat, y: nat)
    requires InBlock(Scan(log))
    ensures ToolBlock(log, u, x, y)
    ensures match Scan(log)
            case Settled => u + 1 == x == y == |log|
            case Blocking => x == y == |log|
            case Allowing(n) => n > 0 && x + n == y == |log|
            case Retrieving(allowed, n) => n > 0 && x + allowed == y && y + n == |log|
            case _ => true
    decreases |log|
  {
    var shorter, last := log[..|log| - 1], log[|log| - 1];
    var before := Scan(shorter);
    InBlockStep(before, last.event, |shorter|);
    if Scan(log).Settled? {
      u, x, y := |log| - 1, |log|, |log|;
    } else {
      u, x, y := BlockSoFar(shorter);
      if last.event.RecordRetrieved? {
        assert AllRetrieved(log, y, |log|);
      } else if last.event.railOutcome == Allowed {
        y := |log|;
      } else {
        x, y := |log|, |log|;
      }
    }
  }

  /** A tool call that succeeded closes a block in which nothing was allowed, or as many were allowed as retrieved. */
  lemma SuccessClosesABlock(log: Log, i: nat) returns (u: nat, x: nat, y: nat)
    requires Scan(log) != Wrong && i < |log| && log[i].event.ToolCalled? && log[i].event.status == ToolSucceeded
    ensures ToolBlock(log[..i], u, x, y)
    ensures x == y || y - x == i - y
  {
    PrefixesScan(log, i);
    u, x, y := BlockSoFar(log[..i]);
  }
}
