/**
 Three readings of what a run cost: the timeline's, the spans' and the meter's
 (src/evidence/application/project-run-timeline.ts, spans-from-run.ts, meter-events-from-log.ts,
 src/evidence/domain/meter-event.ts).
 */
module CostProjections {
  import opened Outcomes
  import opened Texts
  import opened ExecutionLog
  import opened HashChain
  import opened LogGrammar
  import opened RunEvidence
  import AgentRun
  import RunTheorems

  datatype Settlement = Settlement(settlements: nat, inputTokens: int, outputTokens: int, micros: int)

  const NOTHING_SETTLED := Settlement(0, 0, 0, 0)

  datatype SettledCosts = SettledCosts(byInvocation: map<int, Settlement>, totalMicros: int, unattributedMicros: int,
                                       unattributedSeqs: seq<int>)

  datatype InvocationCost = InvocationCost(
    invocationSeq: int, snapshot: Text, routerDecision: Text, settlements: nat, inputTokens: int, outputTokens: int,
        costMicros: int)

  datatype RunCost = RunCost(perInvocation: seq<InvocationCost>, totalMicros: int, unattributedMicros: int,
                             unattributedSeqs: seq<int>)

  /** A map as the runtime has it: its keys in the order they were first set. */
  datatype Invocations = Invocations(order: seq<int>, events: map<int, Event>)

  ghost predicate InvocationsOk(m: Invocations) {
    && (forall k :: k in m.order <==> k in m.events) && (forall k | k in m.events :: m.events[k].ModelInvoked?)
    && (forall i, j | 0 <= i < j < |m.order| :: m.order[i] != m.order[j])
  }

  function Put(m: Invocations, k: int, event: Event): Invocations {
    Invocations(if k in m.events then m.order else m.order + [k], m.events[k := event])
  }

  function InvocationsOf(log: Log): Invocations {
    if |log| == 0 then Invocations([], map[])
    else
      var before, last := InvocationsOf(log[..|log| - 1]), log[|log| - 1];
      if last.event.ModelInvoked? then Put(before, last.seqNo, last.event) else before
  }

  function SettledFor(s: SettledCosts, k: int): Settlement {
    if k in s.byInvocation then s.byInvocation[k] else NOTHING_SETTLED
  }

  function Plus(s: Settlement, usage: Event): Settlement
    requires usage.UsageRecorded?
  {
    Settlement(s.settlements + 1, s.inputTokens + usage.inputTokens, s.outputTokens + usage.outputTokens,
               s.micros + usage.costMicros)
  }

  function SettleOne(s: SettledCosts, entry: Entry, known: set<int>): SettledCosts {
    if !entry.event.UsageRecorded? then s
    else if entry.event.invocationSeq !in known then
      s.(totalMicros := s.totalMicros + entry.event.costMicros,
         unattributedMicros := s.unattributedMicros + entry.event.costMicros,
             unattributedSeqs := s.unattributedSeqs + [entry.seqNo])
    else
      var k := entry.event.invocationSeq;
      s.(totalMicros := s.totalMicros + entry.event.costMicros,
         byInvocation := s.byInvocation[k := Plus(SettledFor(s, k), entry.event)])
  }

  function Settle(log: Log, known: set<int>): SettledCosts {
    if |log| == 0
    then SettledCosts(map[], 0, 0, [])
    else SettleOne(Settle(log[..|log| - 1], known), log[|log| - 1], known)
  }

  function CostOfInvocation(m: Invocations, s: SettledCosts, k: int): InvocationCost
    requires k in m.events && m.events[k].ModelInvoked?
  {
    var total := SettledFor(s, k);
    InvocationCost(k, m.events[k].snapshot, m.events[k].routerDecision, total.settlements, total.inputTokens,
                   total.outputTokens, total.micros)
  }

  lemma {:induction false} InvocationsAreOk(log: Log)
    ensures InvocationsOk(InvocationsOf(log))
  {
    if |log| > 0 { InvocationsAreOk(log[..|log| - 1]); }
  }

  method SettleLog(log: Log, known: set<int>) returns (settled: SettledCosts)
    ensures settled == Settle(log, known)
  {
    var byInvocation: map<int, Settlement> := map[];
    var unattributedSeqs: seq<int> := [];
    var unattributedMicros, totalMicros := 0, 0;
    for i := 0 to |log|
      invariant SettledCosts(byInvocation, totalMicros, unattributedMicros, unattributedSeqs) == Settle(log[..i], known)
    {
      assert log[..i + 1][..i] == log[..i];
      var event := log[i].event;
      if !event.UsageRecorded? {
        continue;
      }
      totalMicros := totalMicros + event.costMicros;
      if event.invocationSeq !in known {
        unattributedSeqs := unattributedSeqs + [log[i].seqNo];
        unattributedMicros := unattributedMicros + event.costMicros;
        continue;
      }
      var prior := if event.invocationSeq in byInvocation then byInvocation[event.invocationSeq] else NOTHING_SETTLED;
      byInvocation := byInvocation[event.invocationSeq := Plus(prior, event)];
    }
    assert log[..|log|] == log;
    return SettledCosts(byInvocation, totalMicros, unattributedMicros, unattributedSeqs);
  }

  method ReadInvocations(log: Log) returns (m: Invocations)
    ensures m == InvocationsOf(log)
  {
    m := Invocations([], map[]);
    for i := 0 to |log|
      invariant m == InvocationsOf(log[..i])
    {
      assert log[..i + 1][..i] == log[..i];
      if log[i].event.ModelInvoked? {
        m := Put(m, log[i].seqNo, log[i].event);
      }
    }
    assert log[..|log|] == log;
  }

  /** The timeline's cost: an item for every invocation, in order, with what was settled for it. */
  method CostFrom(log: Log) returns (cost: RunCost)
    ensures cost == CostOfRun(log)
  {
    InvocationsAreOk(log);
    var invocations := ReadInvocations(log);
    var settled := SettleLog(log, invocations.events.Keys);
    var perInvocation: seq<InvocationCost> := [];
    for i := 0 to |invocations.order|
      invariant |perInvocation| == i
      invariant forall j | 0 <= j < i ::
                perInvocation[j] == CostOfInvocation(invocations, settled, invocations.order[j])
    {
      perInvocation := perInvocation + [CostOfInvocation(invocations, settled, invocations.order[i])];
    }
    return RunCost(perInvocation, settled.totalMicros, settled.unattributedMicros, settled.unattributedSeqs);
  }

  function CostOfRun(log: Log): RunCost {
    InvocationsAreOk(log);
    var m := InvocationsOf(log);
    var s := Settle(log, m.events.Keys);
    RunCost(seq(|m.order|, i requires 0 <= i < |m.order| => CostOfInvocation(m, s, m.order[i])),
            s.totalMicros, s.unattributedMicros, s.unattributedSeqs)
  }

  // ---- Conservation ------------------------------------------------------------------------------------------------

  function SumMicros(s: SettledCosts, order: seq<int>): int {
    if |order| == 0 then 0 else SettledFor(s, order[0]).micros + SumMicros(s, order[1..])
  }

  function SumCosts(items: seq<InvocationCost>): int {
    if |items| == 0 then 0 else items[0].costMicros + SumCosts(items[1..])
  }

  /** A settlement changes the sum by itself if its invocation is in the list, and not at all otherwise. */
  lemma {:induction false} SettleAddsOnce(s: SettledCosts, entry: Entry, known: set<int>, order: seq<int>)
    requires entry.event.UsageRecorded? && forall i, j | 0 <= i < j < |order| :: order[i] != order[j]
    requires forall k | k in order :: k in known
    ensures SumMicros(SettleOne(s, entry, known), order)
            == SumMicros(s, order) + if entry.event.invocationSeq in order then entry.event.costMicros else 0
  {
    if |order| > 0 {
      var rest := order[1..];
      assert forall i | 0 <= i < |rest| :: rest[i] == order[i + 1];
      assert order == [order[0]] + rest;
      SettleAddsOnce(s, entry, known, rest);
    }
  }

  lemma {:induction false} SettleConserves(log: Log, known: set<int>, order: seq<int>)
    requires (forall i, j | 0 <= i < j < |order| :: order[i] != order[j]) && forall k :: k in order <==> k in known
    ensures var s := Settle(log, known);
            s.totalMicros == SumMicros(s, order) + s.unattributedMicros == UsageTotal(log)
  {
    if |log| == 0 {
      NothingSums(order);
    } else {
      var before, last := log[..|log| - 1], log[|log| - 1];
      SettleConserves(before, known, order);
      if last.event.UsageRecorded? { SettleAddsOnce(Settle(before, known), last, known, order); }
    }
  }

  lemma {:induction false} NothingSums(order: seq<int>)
    ensures SumMicros(SettledCosts(map[], 0, 0, []), order) == 0
  {
    if |order| > 0 { NothingSums(order[1..]); }
  }

  lemma {:induction false} SumsAgree(m: Invocations, s: SettledCosts, order: seq<int>, items: seq<InvocationCost>)
    requires |items| == |order| && forall i | 0 <= i < |order| :: items[i].costMicros == SettledFor(s, order[i]).micros
    ensures SumCosts(items) == SumMicros(s, order)
    decreases |order|
  {
    if |order| > 0 {
      assert forall i | 0 <= i < |order| - 1 :: items[1..][i] == items[i + 1] && order[1..][i] == order[i + 1];
      SumsAgree(m, s, order[1..], items[1..]);
    }
  }

  datatype MeterEvent = MeterEvent(runId: Text, at: int, inputTokens: int, outputTokens: int, costMicros: int)

  function MeterEventsFrom(log: Log): seq<MeterEvent> {
    if |log| == 0 then []
    else
      var before, last := MeterEventsFrom(log[..|log| - 1]), log[|log| - 1];
      if last.event.UsageRecorded?
      then before + [MeterEvent(last.runId, last.at, last.event.inputTokens, last.event.outputTokens,
                                last.event.costMicros)]
      else before
  }

  function MeterTotal(events: seq<MeterEvent>): int {
    if |events| == 0 then 0 else MeterTotal(events[..|events| - 1]) + events[|events| - 1].costMicros
  }

  lemma {:induction false} MeterCountsUsage(log: Log)
    ensures MeterTotal(MeterEventsFrom(log)) == UsageTotal(log)
  {
    if |log| > 0 {
      var before, last := log[..|log| - 1], log[|log| - 1];
      MeterCountsUsage(before);
      if last.event.UsageRecorded? {
        var all := MeterEventsFrom(log);
        assert all[..|all| - 1] == MeterEventsFrom(before);
      }
    }
  }

  /**
   Of any log, even a tampered one: what the timeline shows per invocation and what it cannot attribute add up to its
   total, which is the meter's total.
   */
  lemma CostIsConserved(log: Log)
    ensures var cost := CostOfRun(log);
            cost.totalMicros == SumCosts(cost.perInvocation) + cost.unattributedMicros
                == MeterTotal(MeterEventsFrom(log))
  {
    InvocationsAreOk(log);
    var m := InvocationsOf(log);
    var s := Settle(log, m.events.Keys);
    SettleConserves(log, m.events.Keys, m.order);
    SumsAgree(m, s, m.order, CostOfRun(log).perInvocation);
    MeterCountsUsage(log);
  }

  // ---- Periods -----------------------------------------------------------------------------------------------------

  predicate InPeriod(event: MeterEvent, start: int, end: int) { start <= event.at < end }

  function SourceTotal(events: seq<MeterEvent>, start: int, end: int): int {
    if |events| == 0 then 0
    else SourceTotal(events[1..], start, end) + if InPeriod(events[0], start, end) then events[0].costMicros else 0
  }

  lemma {:induction false} AdjacentPeriodsAdd(events: seq<MeterEvent>, start: int, middle: int, end: int)
    requires start <= middle <= end
    ensures SourceTotal(events, start, end) == SourceTotal(events, start, middle) + SourceTotal(events, middle, end)
  {
    if |events| > 0 { AdjacentPeriodsAdd(events[1..], start, middle, end); }
  }

  lemma {:induction false} EmptyPeriod(events: seq<MeterEvent>, at: int)
    ensures SourceTotal(events, at, at) == 0
  {
    if |events| > 0 { EmptyPeriod(events[1..], at); }
  }

  /** The totals of the windows between consecutive bounds. */
  function SumOfPeriods(events: seq<MeterEvent>, bounds: seq<int>): int {
    if |bounds| < 2 then 0 else SourceTotal(events, bounds[0], bounds[1]) + SumOfPeriods(events, bounds[1..])
  }

  /** Any chain of adjacent periods bills each event in its span once. */
  lemma {:induction false} PeriodsAddUp(events: seq<MeterEvent>, bounds: seq<int>)
    requires |bounds| > 0 && forall i, j | 0 <= i < j < |bounds| :: bounds[i] <= bounds[j]
    ensures SumOfPeriods(events, bounds) == SourceTotal(events, bounds[0], bounds[|bounds| - 1])
    decreases |bounds|
  {
    if |bounds| == 1 {
      EmptyPeriod(events, bounds[0]);
    } else {
      assert forall i | 0 <= i < |bounds| - 1 :: bounds[1..][i] == bounds[i + 1];
      PeriodsAddUp(events, bounds[1..]);
      AdjacentPeriodsAdd(events, bounds[0], bounds[1], bounds[|bounds| - 1]);
    }
  }

  lemma {:induction false} WholeSpanIsTheTotal(events: seq<MeterEvent>, start: int, end: int)
    requires forall i | 0 <= i < |events| :: InPeriod(events[i], start, end)
    ensures SourceTotal(events, start, end) == MeterTotal(events)
  {
    if |events| > 0 {
      TotalFromTheFront(events);
      assert forall i | 0 <= i < |events| - 1 :: events[1..][i] == events[i + 1];
      WholeSpanIsTheTotal(events[1..], start, end);
    }
  }

  lemma {:induction false} TotalFromTheFront(events: seq<MeterEvent>)
    requires |events| > 0
    ensures MeterTotal(events) == events[0].costMicros + MeterTotal(events[1..])
  {
    if |events| > 1 {
      var shorter := events[..|events| - 1];
      TotalFromTheFront(shorter);
      assert shorter[1..] == events[1..][..|events| - 2];
    }
  }

  // ---- Spans -------------------------------------------------------------------------------------------------------

  datatype Span = Span(model: Text, provider: Text, at: int, usage: Option<(int, int)>)

  /** Every settlement by the invocation it names, known or not. */
  function TokensFor(log: Log): map<int, (int, int)> {
    if |log| == 0 then map[]
    else
      var before, last := TokensFor(log[..|log| - 1]), log[|log| - 1];
      if !last.event.UsageRecorded? then before
      else
        var k := last.event.invocationSeq;
        var prior := if k in before then before[k] else (0, 0);
        before[k := (prior.0 + last.event.inputTokens, prior.1 + last.event.outputTokens)]
  }

  function SpanOf(entry: Entry, tokens: map<int, (int, int)>): Span
    requires entry.event.ModelInvoked?
  {
    Span(entry.event.snapshot, entry.event.routerDecision, entry.at,
         if entry.seqNo in tokens then Some(tokens[entry.seqNo]) else None)
  }

  function SpansOf(log: Log, tokens: map<int, (int, int)>): seq<Span> {
    if |log| == 0 then []
    else
      var before, last := SpansOf(log[..|log| - 1], tokens), log[|log| - 1];
      if last.event.ModelInvoked? then before + [SpanOf(last, tokens)] else before
  }

  method SpansFromRun(log: Log) returns (spans: seq<Span>)
    ensures spans == SpansOf(log, TokensFor(log))
  {
    var settled: map<int, (int, int)> := map[];
    for i := 0 to |log|
      invariant settled == TokensFor(log[..i])
    {
      assert log[..i + 1][..i] == log[..i];
      var event := log[i].event;
      if event.UsageRecorded? {
        var prior := if event.invocationSeq in settled then settled[event.invocationSeq] else (0, 0);
        settled := settled[event.invocationSeq := (prior.0 + event.inputTokens, prior.1 + event.outputTokens)];
      }
    }
    assert log[..|log|] == log;
    spans := [];
    for i := 0 to |log|
      invariant spans == SpansOf(log[..i], settled)
    {
      assert log[..i + 1][..i] == log[..i];
      if log[i].event.ModelInvoked? {
        spans := spans + [SpanOf(log[i], settled)];
      }
    }
  }

  lemma {:induction false} TokensMatchSettlements(log: Log, known: set<int>, k: int)
    requires k in known
    ensures var total := SettledFor(Settle(log, known), k);
            && (k in TokensFor(log) <==> total.settlements > 0)
            && (k in TokensFor(log) ==> TokensFor(log)[k] == (total.inputTokens, total.outputTokens))
            && (total.settlements == 0 ==> total == NOTHING_SETTLED)
  {
    if |log| > 0 { TokensMatchSettlements(log[..|log| - 1], known, k); }
  }

  predicate Numbered(log: Log) {
    forall i | 0 <= i < |log| :: log[i].seqNo == i
  }

  /** What a span shows is what the timeline shows for the same invocation. */
  predicate SpanShows(span: Span, cost: InvocationCost) {
    && span.model == cost.snapshot && span.provider == cost.routerDecision
    && span.usage == if cost.settlements > 0 then Some((cost.inputTokens, cost.outputTokens)) else None
  }

  /** In a numbered log the invocations are the spans', in the log's order. */
  lemma {:induction false} SpansFollowInvocations(log: Log, tokens: map<int, (int, int)>)
    requires Numbered(log)
    ensures var (spans, m) := (SpansOf(log, tokens), InvocationsOf(log));
            && |spans| == |m.order|
            && (forall k | k in m.events :: 0 <= k < |log| && m.events[k] == log[k].event)
            && forall i | 0 <= i < |spans| :: m.order[i] in m.events && log[m.order[i]].event.ModelInvoked?
                                               && spans[i] == SpanOf(log[m.order[i]], tokens)
  {
    if |log| > 0 { SpansFollowInvocations(log[..|log| - 1], tokens); }
  }

  /**
   On a verified log the spans and the timeline tell of the same invocations, in the same order, with the same tokens.
   */
  lemma SpansAgreeWithTimeline(log: Log, hash: EntryHasher)
    requires Verified(log, hash)
    ensures var (spans, items) := (SpansOf(log, TokensFor(log)), CostOfRun(log).perInvocation);
            |spans| == |items| && forall i | 0 <= i < |spans| :: SpanShows(spans[i], items[i])
  {
    forall i | 0 <= i < |log| ensures log[i].seqNo == i { assert EntryFault(log, i, hash) == None; }
    InvocationsAreOk(log);
    SpansFollowInvocations(log, TokensFor(log));
    var m := InvocationsOf(log);
    var (spans, items) := (SpansOf(log, TokensFor(log)), CostOfRun(log).perInvocation);
    forall i | 0 <= i < |spans| ensures SpanShows(spans[i], items[i]) {
      TokensMatchSettlements(log, m.events.Keys, m.order[i]);
    }
  }

  // ---- What a run writes is all attributed, once -------------------------------------------------------------------

  lemma {:induction false} InvocationIsKnown(log: Log, i: nat)
    requires Numbered(log) && i < |log| && log[i].event.ModelInvoked?
    ensures i in InvocationsOf(log).events
    decreases |log|
  {
    if i < |log| - 1 { InvocationIsKnown(log[..|log| - 1], i); }
  }

  /** Every usage entry names the entry before it, which the known invocations include. */
  predicate NamesPrevious(log: Log, known: set<int>) {
    forall i | 0 <= i < |log| && log[i].event.UsageRecorded? :: log[i].event.invocationSeq == i - 1 && i - 1 in known
  }

  lemma {:induction false} NamedPreviousSettlesOnce(log: Log, known: set<int>)
    requires NamesPrevious(log, known)
    ensures var s := Settle(log, known);
            s.unattributedMicros == 0 && s.unattributedSeqs == []
            && (forall k :: SettledFor(s, k).settlements <= 1) && (forall k | k >= |log| - 1 :: k !in s.byInvocation)
  {
    if |log| > 0 {
      var before := log[..|log| - 1];
      assert forall i | 0 <= i < |before| :: before[i] == log[i];
      NamedPreviousSettlesOnce(before, known);
      var (earlier, now) := (Settle(before, known), Settle(log, known));
      assert |log| - 2 !in earlier.byInvocation;
      forall k ensures SettledFor(now, k).settlements <= 1 { assert SettledFor(earlier, k).settlements <= 1; }
    }
  }

  /** Nothing is unattributed, the invocations make up the total, and none is settled twice. */
  predicate SettledOnce(cost: RunCost) {
    && cost.unattributedMicros == 0 && cost.unattributedSeqs == []
    && SumCosts(cost.perInvocation) == cost.totalMicros
    && forall i | 0 <= i < |cost.perInvocation| :: cost.perInvocation[i].settlements <= 1
  }

  /** On a log that a run wrote nothing is unattributed, and no invocation is settled twice. */
  lemma RunLogsSettleOnce(log: Log, hash: EntryHasher)
    requires Verified(log, hash) && Scan(log) != Wrong
    ensures SettledOnce(CostOfRun(log))
  {
    var known := InvocationsOf(log).events.Keys;
    forall i | 0 <= i < |log| ensures log[i].seqNo == i { assert EntryFault(log, i, hash) == None; }
    forall i | 0 <= i < |log| && log[i].event.UsageRecorded?
        ensures log[i].event.invocationSeq == i - 1 && i - 1 in known {
      UsageNamesInvocation(log, i);
      InvocationIsKnown(log, i - 1);
    }
    NamedPreviousSettlesOnce(log, known);
    CostIsConserved(log);
    var s := Settle(log, known);
    forall i | 0 <= i < |CostOfRun(log).perInvocation| ensures CostOfRun(log).perInvocation[i].settlements <= 1 {
      assert SettledFor(s, InvocationsOf(log).order[i]).settlements <= 1;
    }
  }

  /** Of every log any run hands to the store, all cost is attributed, and no invocation is charged twice. */
  lemma EveryRunSettlesOnce(request: AgentRun.RunRequest, deps: AgentRun.Deps, script: AgentRun.Script, i: nat)
    requires Commits(deps.hash) && i < |AgentRun.AgentRunOf(request, deps, script).written|
    ensures SettledOnce(CostOfRun(AgentRun.AgentRunOf(request, deps, script).written[i]))
  {
    var run := AgentRun.AgentRunOf(request, deps, script);
    RunTheorems.EveryRunKeepsTheGrammar(request, deps, script);
    WrittenIsGrammatical(run, i, deps.hash);
    RunLogsSettleOnce(run.written[i], deps.hash);
  }

  lemma WrittenIsGrammatical(run: AgentRun.Run, i: nat, hash: EntryHasher)
    requires RunTheorems.TellsTheTruth(run, hash) && i < |run.written|
    ensures Verified(run.written[i], hash) && Scan(run.written[i]) != Wrong
  {
  }
}
