/**
 What the projections show, entry by entry: each invocation with the usage that names it, each usage event billed when
 it happened (src/evidence/application/project-run-timeline.ts, spans-from-run.ts, meter-events-from-log.ts).
 */
module UsageSums {
  import opened Outcomes
  import opened Texts
  import opened ExecutionLog
  import opened HashChain
  import opened CostProjections

  // ---- Usage that names an invocation --------------------------------------------------------------------------

  predicate Names(entry: Entry, k: int) {
    entry.event.UsageRecorded? && entry.event.invocationSeq == k
  }

  /** How many usage entries name it, and what they add up to. */
  function Settled(log: Log, k: int): Settlement {
    if |log| == 0 then Settlement(0, 0, 0, 0)
    else if Names(log[0], k) then
      var (rest, event) := (Settled(log[1..], k), log[0].event);
      Settlement(rest.settlements + 1, rest.inputTokens + event.inputTokens, rest.outputTokens + event.outputTokens,
                 rest.micros + event.costMicros)
    else Settled(log[1..], k)
  }

  lemma {:induction false} SettledOneMore(log: Log, entry: Entry, k: int)
    ensures var before := Settled(log, k);
            Settled(log + [entry], k) ==
            if Names(entry, k)
            then Settlement(before.settlements + 1, before.inputTokens + entry.event.inputTokens,
                            before.outputTokens + entry.event.outputTokens, before.micros + entry.event.costMicros)
            else before
  {
    if |log| == 0 {
      assert [entry][1..] == [] && log + [entry] == [entry];
    } else {
      assert (log + [entry])[1..] == log[1..] + [entry];
      SettledOneMore(log[1..], entry, k);
    }
  }

  lemma {:induction false} SettlesWhatNamesIt(log: Log, known: set<int>, k: int)
    requires k in known
    ensures SettledFor(Settle(log, known), k) == Settled(log, k)
  {
    if |log| > 0 {
      var (before, last) := (log[..|log| - 1], log[|log| - 1]);
      assert log == before + [last];
      SettlesWhatNamesIt(before, known, k);
      SettledOneMore(before, last, k);
    }
  }

  // ---- The items and the spans ---------------------------------------------------------------------------------

  /** An item of the timeline tells of the invocation at this place. */
  predicate ItemTellsOf(item: InvocationCost, log: Log, k: int) {
    && 0 <= k < |log| && log[k].event.ModelInvoked? && item.invocationSeq == k
    && item.snapshot == log[k].event.snapshot && item.routerDecision == log[k].event.routerDecision
    && Settlement(item.settlements, item.inputTokens, item.outputTokens, item.costMicros) == Settled(log, k)
  }

  /** A span of the same. */
  predicate SpanTellsOf(span: Span, log: Log, k: int) {
    && 0 <= k < |log| && log[k].event.ModelInvoked? && span.at == log[k].at
    && span.model == log[k].event.snapshot && span.provider == log[k].event.routerDecision
    && var settled := Settled(log, k);
    span.usage == if settled.settlements > 0 then Some((settled.inputTokens, settled.outputTokens)) else None
  }

  /** The places of the invocations, in order: all of them, and no others. */
  ghost predicate PlacesOf(log: Log, places: seq<int>) {
    (forall i, j | 0 <= i < j < |places| :: places[i] < places[j]) && forall k :: k in places <==> InvokesAt(log, k)
  }

  predicate InvokesAt(log: Log, k: int) {
    0 <= k < |log| && log[k].event.ModelInvoked?
  }

  lemma {:induction false} InvocationEvents(log: Log)
    requires Numbered(log)
    ensures forall k :: k in InvocationsOf(log).events <==> 0 <= k < |log| && log[k].event.ModelInvoked?
    ensures forall k | k in InvocationsOf(log).events :: InvocationsOf(log).events[k] == log[k].event
  {
    if |log| > 0 {
      var before := log[..|log| - 1];
      assert forall i | 0 <= i < |before| :: before[i] == log[i];
      InvocationEvents(before);
    }
  }

  lemma PlacesOneMore(log: Log, entry: Entry, places: seq<int>)
    requires PlacesOf(log, places)
    ensures PlacesOf(log + [entry], if entry.event.ModelInvoked? then places + [|log|] else places)
  {
    var more := if entry.event.ModelInvoked? then places + [|log|] else places;
    forall k ensures k in more <==> InvokesAt(log + [entry], k) {
      assert InvokesAt(log + [entry], k) <==> InvokesAt(log, k) || (k == |log| && entry.event.ModelInvoked?);
      assert k in places <==> InvokesAt(log, k);
    }
    forall i | 0 <= i < |places| ensures places[i] < |log| {
      assert InvokesAt(log, places[i]) <==> places[i] in places;
    }
  }

  lemma {:induction false} InvocationPlaces(log: Log)
    requires Numbered(log)
    ensures PlacesOf(log, InvocationsOf(log).order)
  {
    if |log| > 0 {
      var (before, last) := (log[..|log| - 1], log[|log| - 1]);
      assert log == before + [last] && forall i | 0 <= i < |before| :: before[i] == log[i];
      InvocationPlaces(before);
      InvocationEvents(before);
      PlacesOneMore(before, last, InvocationsOf(before).order);
    }
  }

  /**
   On a numbered log the timeline has an item for every invocation, in order and for nothing else, each with its own
   model and provider and the sum of the usage that names it; and so have the spans.
   */
  lemma ItemsTellOfInvocations(log: Log)
    requires Numbered(log)
    ensures var (items, spans, places) := (CostOfRun(log).perInvocation, SpansOf(log, TokensFor(log)),
                                           InvocationsOf(log).order);
            && PlacesOf(log, places) && |items| == |spans| == |places|
            && forall i | 0 <= i < |places| ::
               ItemTellsOf(items[i], log, places[i]) && SpanTellsOf(spans[i], log, places[i])
  {
    var (items, spans, m) := (CostOfRun(log).perInvocation, SpansOf(log, TokensFor(log)), InvocationsOf(log));
    InvocationsAreOk(log);
    InvocationPlaces(log);
    InvocationEvents(log);
    SpansFollowInvocations(log, TokensFor(log));
    forall i | 0 <= i < |m.order|
      ensures ItemTellsOf(items[i], log, m.order[i]) && SpanTellsOf(spans[i], log, m.order[i])
    {
      assert m.order[i] in m.order && InvokesAt(log, m.order[i]);
      SettlesWhatNamesIt(log, m.events.Keys, m.order[i]);
      TokensMatchSettlements(log, m.events.Keys, m.order[i]);
    }
  }

  // ---- What cannot be attributed -------------------------------------------------------------------------------

  /** A usage entry that names no invocation of the log. */
  predicate Unattributed(log: Log, i: int) {
    && 0 <= i < |log| && log[i].event.UsageRecorded?
    && forall k | 0 <= k < |log| && log[k].event.ModelInvoked? :: log[k].seqNo != log[i].event.invocationSeq
  }

  lemma {:induction false} KnownAreInvocations(log: Log, k: int)
    ensures k in InvocationsOf(log).events
            <==> exists i :: 0 <= i < |log| && log[i].event.ModelInvoked? && log[i].seqNo == k
  {
    if |log| > 0 {
      var (before, last) := (log[..|log| - 1], log[|log| - 1]);
      assert forall i | 0 <= i < |before| :: before[i] == log[i];
      KnownAreInvocations(before, k);
      if last.event.ModelInvoked? && last.seqNo == k { assert log[|log| - 1].seqNo == k; }
    }
  }

  lemma {:induction false} UnattributedAre(log: Log, known: set<int>)
    ensures forall x :: x in Settle(log, known).unattributedSeqs <==>
              exists i :: 0 <= i < |log| && log[i].event.UsageRecorded? && log[i].event.invocationSeq !in known
                  && log[i].seqNo == x
  {
    if |log| > 0 {
      var (before, last) := (log[..|log| - 1], log[|log| - 1]);
      assert forall i | 0 <= i < |before| :: before[i] == log[i];
      UnattributedAre(before, known);
      forall x ensures x in Settle(log, known).unattributedSeqs <==>
          exists i :: 0 <= i < |log| && log[i].event.UsageRecorded? && log[i].event.invocationSeq !in known
              && log[i].seqNo == x {
        if last.event.UsageRecorded? && last.event.invocationSeq !in known && last.seqNo == x {
          assert log[|log| - 1].seqNo == x;
        }
      }
    }
  }

  /**
   Of any log, even a tampered one, what is listed as unattributed is just the usage that names no invocation of it.
   */
  lemma UnattributedIsWhatNamesNothing(log: Log, x: int)
    ensures x in CostOfRun(log).unattributedSeqs <==> exists i :: Unattributed(log, i) && log[i].seqNo == x
  {
    var known := InvocationsOf(log).events.Keys;
    UnattributedAre(log, known);
    forall i | 0 <= i < |log| && log[i].event.UsageRecorded?
      ensures log[i].event.invocationSeq !in known <==> Unattributed(log, i)
    {
      KnownAreInvocations(log, log[i].event.invocationSeq);
    }
  }

  // ---- The meter -----------------------------------------------------------------------------------------------

  /** What the usage entries written in the period cost. */
  function BilledIn(log: Log, start: int, end: int): int {
    if |log| == 0 then 0
    else
      BilledIn(log[..|log| - 1], start, end)
      + if log[|log| - 1].event.UsageRecorded? && start <= log[|log| - 1].at < end then log[|log| - 1].event.costMicros
          else 0
  }

  lemma {:induction false} TotalOneMore(events: seq<MeterEvent>, event: MeterEvent, start: int, end: int)
    ensures SourceTotal(events + [event], start, end)
            == SourceTotal(events, start, end) + if InPeriod(event, start, end) then event.costMicros else 0
  {
    if |events| == 0 {
      assert [event][1..] == [] && events + [event] == [event];
    } else {
      assert (events + [event])[1..] == events[1..] + [event];
      TotalOneMore(events[1..], event, start, end);
    }
  }

  /** A period's total is what the usage written in it cost. */
  lemma {:induction false} PeriodBillsItsUsage(log: Log, start: int, end: int)
    ensures SourceTotal(MeterEventsFrom(log), start, end) == BilledIn(log, start, end)
  {
    if |log| > 0 {
      var (before, last) := (log[..|log| - 1], log[|log| - 1]);
      PeriodBillsItsUsage(before, start, end);
      if last.event.UsageRecorded? {
        TotalOneMore(MeterEventsFrom(before),
                     MeterEvent(last.runId, last.at, last.event.inputTokens, last.event.outputTokens,
                                last.event.costMicros),
                     start, end);
      }
    }
  }

  /** A meter event tells of the usage entry at this place. */
  predicate MeterTellsOf(event: MeterEvent, entry: Entry) {
    && entry.event.UsageRecorded? && event.runId == entry.runId && event.at == entry.at
    && event.inputTokens == entry.event.inputTokens && event.outputTokens == entry.event.outputTokens
    && event.costMicros == entry.event.costMicros
  }

  /** There is a meter event for every usage entry, in order, and for nothing else. */
  lemma {:induction false} MeterTellsOfUsage(log: Log) returns (places: seq<nat>)
    ensures |places| == |MeterEventsFrom(log)|
    ensures forall i | 0 <= i < |places| :: places[i] < |log| && MeterTellsOf(MeterEventsFrom(log)[i], log[places[i]])
    ensures forall i, j | 0 <= i < j < |places| :: places[i] < places[j]
    ensures forall k: nat | k < |log| && log[k].event.UsageRecorded? :: k in places
  {
    if |log| == 0 {
      places := [];
    } else {
      var before := log[..|log| - 1];
      assert forall i | 0 <= i < |before| :: before[i] == log[i];
      places := MeterTellsOfUsage(before);
      if log[|log| - 1].event.UsageRecorded? { places := places + [|log| - 1]; }
    }
  }
}
