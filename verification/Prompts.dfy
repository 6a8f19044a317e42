/**
 What the model is told: that no prompt leaves out the question, the tools or anything the run has learned
 (src/agent/application/run-agent.ts, src/agent/application/tool-step.ts).
 */
module Prompts {
  import opened Outcomes
  import opened Texts
  import opened ExecutionLog
  import opened Rail
  import opened AgentRun
  import opened RunEntries
  import Lanes = DecisionLanes
  import Gateway

  predicate HasAt(text: Text, part: Text, i: nat) {
    i + |part| <= |text| && text[i..i + |part|] == part
  }

  predicate Contains(text: Text, part: Text) {
    exists i :: 0 <= i <= |text| && HasAt(text, part, i)
  }

  lemma ContainsWithin(before: Text, text: Text, after: Text, part: Text)
    requires Contains(text, part)
    ensures Contains(before + text + after, part)
  {
    var i :| 0 <= i <= |text| && HasAt(text, part, i);
    var whole := before + text + after;
    assert whole[|before| + i..|before| + i + |part|] == text[i..i + |part|];
    assert HasAt(whole, part, |before| + i);
  }

  lemma ContainsItself(text: Text)
    ensures Contains(text, text)
  {
    assert HasAt(text, text, 0);
  }

  lemma ContainsPart(before: Text, part: Text, after: Text)
    ensures Contains(before + part + after, part)
  {
    ContainsItself(part);
    ContainsWithin(before, part, after, part);
  }

  lemma {:induction false} JoinContains(texts: seq<Text>, separator: Text, k: nat, part: Text)
    requires k < |texts| && Contains(texts[k], part)
    ensures Contains(Join(texts, separator), part)
  {
    if |texts| > 1 {
      var rest := Join(texts[1..], separator);
      if k == 0 {
        ContainsWithin([], texts[0], separator + rest, part);
        assert [] + texts[0] + (separator + rest) == texts[0] + separator + rest;
      } else {
        JoinContains(texts[1..], separator, k - 1, part);
        ContainsWithin(texts[0] + separator, rest, [], part);
        assert texts[0] + separator + rest + [] == texts[0] + separator + rest;
      }
    }
  }

  // ---- One prompt ----------------------------------------------------------------------------------------------

  /** The prompt holds the question, every tool there is, everything observed and every correction. */
  predicate PromptTells(question: Text, summaries: seq<ToolSummary>, observations: seq<ContextItem>,
                        corrections: seq<Text>,
                        prompt: Text) {
    && Contains(prompt, question)
    && (forall i | 0 <= i < |summaries| ::
        Contains(prompt, summaries[i].name) && Contains(prompt, summaries[i].summary))
    && (forall i | 0 <= i < |observations| :: Contains(prompt, observations[i].text))
    && (forall i | 0 <= i < |corrections| :: Contains(prompt, corrections[i]))
  }

  lemma IndexTells(summaries: seq<ToolSummary>, i: nat)
    requires i < |summaries|
    ensures Contains(ToolIndex(summaries), summaries[i].name) && Contains(ToolIndex(summaries), summaries[i].summary)
  {
    var (name, summary) := (summaries[i].name, summaries[i].summary);
    var lines := seq(|summaries|, i requires 0 <= i < |summaries| =>
                       Ascii("- ") + summaries[i].name + Ascii(": ") + summaries[i].summary);
    ContainsPart(Ascii("- "), name, Ascii(": ") + summary);
    assert Ascii("- ") + name + (Ascii(": ") + summary) == lines[i];
    ContainsPart(Ascii("- ") + name + Ascii(": "), summary, []);
    assert Ascii("- ") + name + Ascii(": ") + summary + [] == lines[i];
    JoinContains(lines, [10], i, name);
    JoinContains(lines, [10], i, summary);
  }

  lemma LineTells(item: ContextItem)
    ensures Contains(ObservationLine(item), item.text)
  {
    var before := Ascii("Observation (") + item.tool + (if item.truncated then Ascii(", truncated") else [])
        + Ascii("): ");
    ContainsPart(before, item.text, []);
    assert before + item.text + [] == ObservationLine(item);
  }

  /** The parts of a transcript. */
  function Parts(question: Text, summaries: seq<ToolSummary>, observations: seq<ContextItem>,
                 corrections: seq<Text>): seq<Text> {
    [Ascii("Tools available:\n") + ToolIndex(summaries), Ascii("Question: ") + question]
    + seq(|observations|, i requires 0 <= i < |observations| => ObservationLine(observations[i])) + corrections
  }

  lemma PartsTell(question: Text, summaries: seq<ToolSummary>, observations: seq<ContextItem>, corrections: seq<Text>)
    ensures var prompt := Join(Parts(question, summaries, observations, corrections), [10, 10]);
            PromptTells(question, summaries, observations, corrections, prompt)
  {
    var parts := Parts(question, summaries, observations, corrections);
    var prompt := Join(parts, [10, 10]);
    ContainsPart(Ascii("Question: "), question, []);
    assert Ascii("Question: ") + question + [] == parts[1];
    JoinContains(parts, [10, 10], 1, question);
    forall i | 0 <= i < |summaries|
        ensures Contains(prompt, summaries[i].name) && Contains(prompt, summaries[i].summary) {
      IndexTells(summaries, i);
      ContainsWithin(Ascii("Tools available:\n"), ToolIndex(summaries), [], summaries[i].name);
      ContainsWithin(Ascii("Tools available:\n"), ToolIndex(summaries), [], summaries[i].summary);
      assert Ascii("Tools available:\n") + ToolIndex(summaries) + [] == parts[0];
      JoinContains(parts, [10, 10], 0, summaries[i].name);
      JoinContains(parts, [10, 10], 0, summaries[i].summary);
    }
    forall i | 0 <= i < |observations| ensures Contains(prompt, observations[i].text) {
      LineTells(observations[i]);
      assert parts[2 + i] == ObservationLine(observations[i]);
      JoinContains(parts, [10, 10], 2 + i, observations[i].text);
    }
    forall i | 0 <= i < |corrections| ensures Contains(prompt, corrections[i]) {
      ContainsItself(corrections[i]);
      assert parts[2 + |observations| + i] == corrections[i];
      JoinContains(parts, [10, 10], 2 + |observations| + i, corrections[i]);
    }
  }

  lemma TranscriptTellsAll(question: Text, summaries: seq<ToolSummary>, observations: seq<ContextItem>,
                           corrections: seq<Text>)
    ensures PromptTells(question, summaries, observations, corrections,
                        Transcript(question, summaries, observations, corrections))
  {
    PartsTell(question, summaries, observations, corrections);
    assert Transcript(question, summaries, observations, corrections)
           == Join(Parts(question, summaries, observations, corrections), [10, 10]);
  }

  // ---- What a turn adds ----------------------------------------------------------------------------------------

  /** The item is this text, or its first four thousand code units. */
  predicate ItemOf(item: ContextItem, tool: Text, full: Text) {
    && item.tool == tool && item.text <= full && (item.truncated <==> |full| > 4_000)
    && (if item.truncated then |item.text| == 4_000 else item.text == full)
  }

  /** Every text that passed is told, and when none did, that it was withheld or that there was none. */
  predicate ResultTold(words: Wording, classifiers: seq<Classifier>, observation: ToolObservation, seen: set<Text>,
                       full: Text) {
    match observation
    case Acted(receipt) =>
      && Contains(full, receipt.summary)
      && Contains(full, if AllAllow(receipt.output, classifiers) then receipt.output else words.withheld)
    case Retrieved(records) =>
      if forall i | 0 <= i < |records| :: !AllAllow(records[i].text, classifiers)
      then full == if |records| > 0 then words.withheld else words.noMatches
      else if forall i | 0 <= i < |records| && AllAllow(records[i].text, classifiers) :: records[i].recordId in seen
      then full == words.alreadyRetrieved
      else forall i | 0 <= i < |records| && AllAllow(records[i].text, classifiers) :: Contains(full, records[i].text)
  }

  /** What a tool step tells the model: why the tool did not run, that it failed, or its result. */
  predicate StepTold(deps: Deps, turn: Turn, tool: Text, seen: set<Text>, full: Text) {
    if !turn.defined || tool !in deps.tools then full == deps.words.unavailable
    else if !Permitted(deps, turn, tool)
    then full == if turn.gate.Some? && turn.gate.value.Rejected? then deps.words.rejected else deps.words.unanswered
    else if turn.result.ToolFails? then full == deps.words.incomplete
    else ResultTold(deps.words, deps.classifiers, turn.result.observation, seen, full)
  }

  lemma {:induction false} AdmittedHas(records: seq<RetrievedRecord>, classifiers: seq<Classifier>)
    ensures forall r :: r in Admitted(records, classifiers) <==> r in records && AllAllow(r.text, classifiers)
  {
    forall r ensures r in Admitted(records, classifiers) <==> r in records && AllAllow(r.text, classifiers) {
      AdmittedExactly(records, classifiers, r);
    }
  }

  lemma TextsTell(admitted: seq<RetrievedRecord>, first: seq<Text>, r: RetrievedRecord)
    requires r in admitted
    ensures Contains(Join(first + TextsOf(admitted), [10]), r.text)
  {
    var k :| 0 <= k < |admitted| && admitted[k] == r;
    ContainsItself(r.text);
    assert (first + TextsOf(admitted))[|first| + k] == r.text;
    JoinContains(first + TextsOf(admitted), [10], |first| + k, r.text);
  }

  lemma BlockedExactly(records: seq<RetrievedRecord>, classifiers: seq<Classifier>)
    ensures BlockedOf(records, classifiers) == [] <==>
            forall i | 0 <= i < |records| :: AllAllow(records[i].text, classifiers)
  {
    var chunks := ChunksOf(records);
    RailConserves(chunks, classifiers);
    assert forall i | 0 <= i < |records| :: chunks[i].text == records[i].text;
    if forall i | 0 <= i < |records| :: AllAllow(records[i].text, classifiers) {
      assert forall i | 0 <= i < |chunks| :: AllAllow(chunks[i].text, classifiers);
    } else {
      var i :| 0 <= i < |records| && !AllAllow(records[i].text, classifiers);
      assert !AllAllow(chunks[i].text, classifiers);
    }
  }

  lemma RetrievedTold(words: Wording, classifiers: seq<Classifier>, records: seq<RetrievedRecord>, seen: set<Text>)
    ensures var admitted := Admitted(records, classifiers);
            var isNew := HasNewEvidence(admitted, seen);
            ResultTold(words, classifiers, Retrieved(records), seen,
                       ObservationFor(words, Retrieved(records), admitted, |BlockedOf(records, classifiers)| > 0,
                                      isNew))
  {
    var admitted := Admitted(records, classifiers);
    AdmittedHas(records, classifiers);
    BlockedExactly(records, classifiers);
    if |admitted| == 0 {
      forall i | 0 <= i < |records| ensures !AllAllow(records[i].text, classifiers) { assert records[i] !in admitted; }
    } else {
      assert admitted[0] in admitted;
      var k :| 0 <= k < |records| && records[k] == admitted[0];
      NewEvidenceIsUnseen(records, classifiers, seen);
      forall i | 0 <= i < |records| && AllAllow(records[i].text, classifiers)
        ensures Contains(Join([] + TextsOf(admitted), [10]), records[i].text)
      {
        assert records[i] in admitted;
        TextsTell(admitted, [], records[i]);
      }
      assert [] + TextsOf(admitted) == TextsOf(admitted);
    }
  }

  lemma NewEvidenceIsUnseen(records: seq<RetrievedRecord>, classifiers: seq<Classifier>, seen: set<Text>)
    ensures HasNewEvidence(Admitted(records, classifiers), seen) <==>
            !forall i | 0 <= i < |records| && AllAllow(records[i].text, classifiers) :: records[i].recordId in seen
  {
    var admitted := Admitted(records, classifiers);
    AdmittedHas(records, classifiers);
    if HasNewEvidence(admitted, seen) {
      var j :| 0 <= j < |admitted| && admitted[j].recordId !in seen;
      assert admitted[j] in admitted;
      var i :| 0 <= i < |records| && records[i] == admitted[j];
    } else {
      forall i | 0 <= i < |records| && AllAllow(records[i].text, classifiers) ensures records[i].recordId in seen {
        assert records[i] in admitted;
        var j :| 0 <= j < |admitted| && admitted[j] == records[i];
      }
    }
  }

  lemma ActedTold(words: Wording, classifiers: seq<Classifier>, tool: Text, receipt: ActionReceipt, seen: set<Text>,
                  isNew: bool)
    ensures var records := RecordsOf(tool, Acted(receipt));
            var admitted := Admitted(records, classifiers);
            ResultTold(words, classifiers, Acted(receipt), seen,
                       ObservationFor(words, Acted(receipt), admitted, |BlockedOf(records, classifiers)| > 0, isNew))
  {
    var records := RecordsOf(tool, Acted(receipt));
    var admitted := Admitted(records, classifiers);
    AdmittedHas(records, classifiers);
    BlockedExactly(records, classifiers);
    assert records[0].text == receipt.output;
    if |admitted| == 0 {
      assert records[0] !in admitted;
      var full := receipt.summary + [10] + words.withheld;
      ContainsPart([], receipt.summary, [10] + words.withheld);
      assert [] + receipt.summary + ([10] + words.withheld) == full;
      ContainsPart(receipt.summary + [10], words.withheld, []);
      assert receipt.summary + [10] + words.withheld + [] == full;
    } else {
      assert admitted[0] in admitted && admitted[0] == records[0];
      TextsTell(admitted, [receipt.summary], records[0]);
      ContainsItself(receipt.summary);
      JoinContains([receipt.summary] + TextsOf(admitted), [10], 0, receipt.summary);
    }
  }

  lemma CapIsAnItem(tool: Text, full: Text)
    ensures ItemOf(CapToolOutput(tool, full), tool, full)
  {
  }

  /** The full text behind a step's item. */
  lemma StepIsTold(deps: Deps, tool: Text, arguments: Sealed, turn: Turn, seen: set<Text>) returns (full: Text)
    ensures ItemOf(RecordFor(deps, tool, arguments, turn, seen).item, tool, full)
    ensures StepTold(deps, turn, tool, seen, full)
  {
    var denial := DenialOf(deps, tool, turn);
    if turn.defined && tool in deps.tools {
      Lanes.ProceedNeedsApproval(deps.tools[tool], turn.gate, Some(turn.at));
    }
    if denial.Some? {
      full := denial.value;
    } else if turn.result.ToolFails? {
      full := deps.words.incomplete;
    } else {
      var observation := turn.result.observation;
      var records := RecordsOf(tool, observation);
      var admitted := Admitted(records, deps.classifiers);
      full := ObservationFor(deps.words, observation, admitted, |BlockedOf(records, deps.classifiers)| > 0,
                             HasNewEvidence(admitted, seen));
      match observation {
        case Retrieved(found) => RetrievedTold(deps.words, deps.classifiers, found, seen);
        case Acted(receipt) =>
          ActedTold(deps.words, deps.classifiers, tool, receipt, seen, HasNewEvidence(admitted, seen));
      }
    }
    CapIsAnItem(tool, full);
  }

  /**
   A trip that goes on adds what its turn brought: a correction of a reply that could not be read, or what the step
   told.
   */
  ghost predicate Learns(q: Quest, turn: Turn, c: Context, next: Context) {
    || (next.observations == c.observations && next.corrections != [] && q.deps.words.correction in next.corrections
        && c.corrections <= next.corrections)
    || (next.corrections == c.corrections
        && exists tool, item, full ::
             && next.observations == c.observations + [item] && ItemOf(item, tool, full) && Asked(q.deps, turn, tool)
             && StepTold(q.deps, turn, tool, c.seen, full))
  }

  lemma StepLearns(q: Quest, c: Context, c1: Context, turn: Turn, tool: Text)
    requires c1 == c.(log := c1.log) && Asked(q.deps, turn, tool)
    ensures var (effect, c2) := ApplyToolStep(q.request, q.deps, c1, tool, turn);
            effect.Ok? ==> Learns(q, turn, c, c2)
  {
    if turn.argumentsSeal.Some? {
      var full := StepIsTold(q.deps, tool, turn.argumentsSeal.value, turn, c.seen);
    }
  }

  lemma ReplyLearns(q: Quest, c: Context, c1: Context, turn: Turn, text: Text, reply: Gateway.Reply)
    requires c1 == c.(log := c1.log) && RepliedIn(turn, reply)
    ensures var trip := AfterReply(q.request, q.deps, c1, turn, text, reply);
            trip.ended.None? ==> Learns(q, turn, c, trip.context)
  {
    match q.deps.parse(reply.text)
    case None =>
    case Some(Answer(_)) =>
    case Some(UseTool(tool, argumentsJson)) =>
      ReplyAsks(q, turn, reply, tool, argumentsJson);
      StepLearns(q, c, c1, turn, tool);
      var (effect, c2) := ApplyToolStep(q.request, q.deps, c1, tool, turn);
      if effect.Ok? {
        var next := c2.(state := Advance(c2.state, effect.value, q.deps.cost(reply.inputTokens, reply.outputTokens)));
        assert next.observations == c2.observations && next.corrections == c2.corrections;
      }
  }

  lemma TripLearns(q: Quest, summaries: seq<ToolSummary>, c: Context, turn: Turn)
    ensures var trip := OneTrip(q.request, q.deps, q.prompt, summaries, c, turn);
            trip.ended.None? ==> Learns(q, turn, c, trip.context)
  {
    if EvaluateLoop(c.state, q.request.limits).None? {
      ServedReplyIsTheTurns(q, c.log, turn);
      var (served, log) := ServeTurn(q.request, q.deps, q.prompt, c.log, turn);
      if served.Ok? {
        ReplyLearns(q, c, c.(log := log), turn,
                    Transcript(q.request.question, summaries, c.observations, c.corrections), served.value);
      }
    }
  }

  // ---- Whole runs ----------------------------------------------------------------------------------------------

  /** Every prompt of a run from this head tells all that was learned before it. */
  ghost predicate PromptsTell(q: Quest, summaries: seq<ToolSummary>, c: Context, prompts: seq<Text>) {
    forall i | 0 <= i < |prompts| ::
      PromptTells(q.request.question, summaries, c.observations, c.corrections, prompts[i])
  }

  lemma LearnedIsKept(q: Quest, summaries: seq<ToolSummary>, turn: Turn, c: Context, next: Context, prompts: seq<Text>)
    requires Learns(q, turn, c, next) && PromptsTell(q, summaries, next, prompts)
    ensures PromptsTell(q, summaries, c, prompts)
  {
    forall i | 0 <= i < |prompts|
      ensures PromptTells(q.request.question, summaries, c.observations, c.corrections, prompts[i])
    {
      assert PromptTells(q.request.question, summaries, next.observations, next.corrections, prompts[i]);
      assert forall k | 0 <= k < |c.observations| :: c.observations[k] == next.observations[k];
      assert forall k | 0 <= k < |c.corrections| :: c.corrections[k] == next.corrections[k];
    }
  }

  lemma TripPrompts(q: Quest, summaries: seq<ToolSummary>, c: Context, turn: Turn)
    ensures PromptsTell(q, summaries, c, OneTrip(q.request, q.deps, q.prompt, summaries, c, turn).prompts)
  {
    TranscriptTellsAll(q.request.question, summaries, c.observations, c.corrections);
    var verdict := EvaluateLoop(c.state, q.request.limits);
    if verdict.None? {
      var text := Transcript(q.request.question, summaries, c.observations, c.corrections);
      var (served, log) := ServeTurn(q.request, q.deps, q.prompt, c.log, turn);
      if served.Ok? { ReplySendsOnce(q.request, q.deps, c.(log := log), turn, text, served.value); }
    }
  }

  lemma PromptsBefore(q: Quest, summaries: seq<ToolSummary>, c: Context, trip: Trip, rest: Run)
    requires PromptsTell(q, summaries, c, trip.prompts) && PromptsTell(q, summaries, c, rest.prompts)
    ensures PromptsTell(q, summaries, c, Before(trip, rest).prompts)
  {
  }

  /**
   Every prompt of a run holds the question, the tools, and everything observed and corrected before it; what a turn
   adds is `TripLearns`.
   */
  lemma {:induction false} EveryPromptTells(q: Quest, summaries: seq<ToolSummary>, c: Context, script: Script)
    ensures PromptsTell(q, summaries, c, RunFrom(q.request, q.deps, q.prompt, summaries, c, script).prompts)
    decreases q.request.limits.maxIterations - c.state.iteration
  {
    var turn := script(c.state.iteration);
    TripPrompts(q, summaries, c, turn);
    var trip := OneTrip(q.request, q.deps, q.prompt, summaries, c, turn);
    if trip.ended.None? {
      var rest := RunFrom(q.request, q.deps, q.prompt, summaries, trip.context, script);
      EveryPromptTells(q, summaries, trip.context, script);
      TripLearns(q, summaries, c, turn);
      LearnedIsKept(q, summaries, turn, c, trip.context, rest.prompts);
      PromptsBefore(q, summaries, c, trip, rest);
    }
  }
}
