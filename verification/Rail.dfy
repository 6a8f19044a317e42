/**
 Screening what tools return before it reaches the model
 (src/agent/domain/screen.ts, src/agent/domain/retrieval-rail.ts, src/agent/application/tool-step.ts).
 */
module Rail {
  import opened Texts
  import opened ExecutionLog

  datatype Stage = FastInjection | Hazard

  datatype Verdict = Allow | Block(stage: Stage, policy: Text, rule: Text)

  /** A classifier is its stage, its policy and what it says of every text. */
  datatype Classifier = Classifier(stage: Stage, policy: Text, classify: Text -> Verdict)

  datatype RetrievedRecord = RetrievedRecord(recordId: Text, classification: Text, provenance: Text, text: Text)

  /** `id` tells one chunk object from another, whatever they hold. */
  datatype RetrievedChunk = RetrievedChunk(id: nat, documentId: Text, text: Text)

  datatype BlockedChunk = BlockedChunk(chunk: RetrievedChunk, verdict: Verdict)

  datatype ActionReceipt = ActionReceipt(summary: Text, output: Text, committed: seq<Text>)

  datatype ToolObservation = Retrieved(records: seq<RetrievedRecord>) | Acted(receipt: ActionReceipt)

  datatype ContextItem = ToolOutput(tool: Text, text: Text, truncated: bool)

  predicate AllAllow(text: Text, classifiers: seq<Classifier>) {
    forall i | 0 <= i < |classifiers| :: classifiers[i].classify(text).Allow?
  }

  /** The first block among the classifiers of one stage, in the order given. */
  function FirstBlock(text: Text, classifiers: seq<Classifier>, stage: Stage): Verdict {
    if |classifiers| == 0 then Allow
    else if classifiers[0].stage == stage && classifiers[0].classify(text).Block? then classifiers[0].classify(text)
    else FirstBlock(text, classifiers[1..], stage)
  }

  /** Stage order first, then the order given. */
  function Screening(text: Text, classifiers: seq<Classifier>): Verdict {
    var fast := FirstBlock(text, classifiers, FastInjection);
    if fast.Block? then fast else FirstBlock(text, classifiers, Hazard)
  }

  lemma {:induction false} FirstBlockFinds(text: Text, classifiers: seq<Classifier>, stage: Stage)
    ensures FirstBlock(text, classifiers, stage).Allow? <==>
            forall i | 0 <= i < |classifiers| && classifiers[i].stage == stage :: classifiers[i].classify(text).Allow?
  {
    if |classifiers| > 0 && !(classifiers[0].stage == stage && classifiers[0].classify(text).Block?) {
      FirstBlockFinds(text, classifiers[1..], stage);
      assert forall i | 0 < i < |classifiers| :: classifiers[i] == classifiers[1..][i - 1];
    }
  }

  /** A text passes exactly when every classifier allows it, in whatever order they were given. */
  lemma ScreeningAllowsExactly(text: Text, classifiers: seq<Classifier>)
    ensures Screening(text, classifiers).Allow? <==> AllAllow(text, classifiers)
  {
    FirstBlockFinds(text, classifiers, FastInjection);
    FirstBlockFinds(text, classifiers, Hazard);
  }

  /**
   A verdict that blocks is the first given by a classifier of its stage, and no fast one blocks before a hazard does.
   */
  ghost predicate BlocksFirst(text: Text, classifiers: seq<Classifier>, verdict: Verdict, i: nat) {
    && i < |classifiers| && classifiers[i].classify(text) == verdict && verdict.Block?
    && (forall j | 0 <= j < i && classifiers[j].stage == classifiers[i].stage :: classifiers[j].classify(text).Allow?)
    && (classifiers[i].stage == Hazard ==>
          forall j | 0 <= j < |classifiers| && classifiers[j].stage == FastInjection ::
              classifiers[j].classify(text).Allow?)
  }

  lemma {:induction false} FirstBlockPlace(text: Text, classifiers: seq<Classifier>, stage: Stage) returns (i: nat)
    requires FirstBlock(text, classifiers, stage).Block?
    ensures i < |classifiers| && classifiers[i].stage == stage
            && classifiers[i].classify(text) == FirstBlock(text, classifiers, stage)
    ensures forall j | 0 <= j < i && classifiers[j].stage == stage :: classifiers[j].classify(text).Allow?
  {
    if classifiers[0].stage == stage && classifiers[0].classify(text).Block? {
      i := 0;
    } else {
      var rest := FirstBlockPlace(text, classifiers[1..], stage);
      i := rest + 1;
      assert forall j | 0 < j < |classifiers| :: classifiers[j] == classifiers[1..][j - 1];
    }
  }

  /** Whatever order classifiers are given in, the fast ones decide first, and of one stage the first that blocks. */
  lemma ScreeningBlocksFirst(text: Text, classifiers: seq<Classifier>)
    requires Screening(text, classifiers).Block?
    ensures exists i: nat :: BlocksFirst(text, classifiers, Screening(text, classifiers), i)
  {
    FirstBlockFinds(text, classifiers, FastInjection);
    var stage := if FirstBlock(text, classifiers, FastInjection).Block? then FastInjection else Hazard;
    var i := FirstBlockPlace(text, classifiers, stage);
    assert BlocksFirst(text, classifiers, Screening(text, classifiers), i);
  }

  /** The screen's loops; a hazard verdict means that no fast classifier blocked. */
  method Screen(text: Text, classifiers: seq<Classifier>) returns (verdict: Verdict)
    ensures verdict == Screening(text, classifiers)
    ensures verdict.Allow? <==> AllAllow(text, classifiers)
  {
    ScreeningAllowsExactly(text, classifiers);
    var stages := [FastInjection, Hazard];
    for s := 0 to 2
      invariant s > 0 ==> FirstBlock(text, classifiers, FastInjection).Allow?
      invariant s > 1 ==> FirstBlock(text, classifiers, Hazard).Allow?
    {
      assert classifiers[0..] == classifiers;
      for i := 0 to |classifiers|
        invariant FirstBlock(text, classifiers, stages[s]) == FirstBlock(text, classifiers[i..], stages[s])
      {
        assert classifiers[i..][1..] == classifiers[i + 1..];
        if classifiers[i].stage == stages[s] {
          verdict := classifiers[i].classify(text);
          if verdict.Block? { return; }
        }
      }
    }
    verdict := Allow;
  }

  function AdmittedChunks(chunks: seq<RetrievedChunk>, classifiers: seq<Classifier>): seq<RetrievedChunk> {
    if |chunks| == 0 then []
    else
      var rest := AdmittedChunks(chunks[1..], classifiers);
      if Screening(chunks[0].text, classifiers).Allow? then [chunks[0]] + rest else rest
  }

  function BlockedChunks(chunks: seq<RetrievedChunk>, classifiers: seq<Classifier>): seq<BlockedChunk> {
    if |chunks| == 0 then []
    else
      var rest := BlockedChunks(chunks[1..], classifiers);
      var verdict := Screening(chunks[0].text, classifiers);
      if verdict.Allow? then rest else [BlockedChunk(chunks[0], verdict)] + rest
  }

  /** The rail's loop over what was retrieved. */
  method RailRetrieved(chunks: seq<RetrievedChunk>, classifiers: seq<Classifier>)
    returns (admitted: seq<RetrievedChunk>, blocked: seq<BlockedChunk>)
    ensures admitted == AdmittedChunks(chunks, classifiers) && blocked == BlockedChunks(chunks, classifiers)
  {
    admitted, blocked := [], [];
    assert chunks[0..] == chunks;
    for i := 0 to |chunks|
      invariant AdmittedChunks(chunks, classifiers) == admitted + AdmittedChunks(chunks[i..], classifiers)
      invariant BlockedChunks(chunks, classifiers) == blocked + BlockedChunks(chunks[i..], classifiers)
    {
      assert chunks[i..][1..] == chunks[i + 1..];
      var verdict := Screen(chunks[i].text, classifiers);
      if verdict.Block? {
        blocked := blocked + [BlockedChunk(chunks[i], verdict)];
        continue;
      }
      admitted := admitted + [chunks[i]];
    }
  }

  lemma {:induction false} AdmittedChunksExactly(chunks: seq<RetrievedChunk>, classifiers: seq<Classifier>,
                                                 chunk: RetrievedChunk)
    ensures chunk in AdmittedChunks(chunks, classifiers)
            <==> chunk in chunks && Screening(chunk.text, classifiers).Allow?
  {
    if |chunks| > 0 {
      AdmittedChunksExactly(chunks[1..], classifiers, chunk);
      assert chunk in chunks <==> chunk == chunks[0] || chunk in chunks[1..];
    }
  }

  /** In the order they were retrieved. */
  predicate InOrder(chunks: seq<RetrievedChunk>) {
    forall i, j | 0 <= i < j < |chunks| :: chunks[i].id < chunks[j].id
  }

  function ChunksIn(blocked: seq<BlockedChunk>): seq<RetrievedChunk> {
    if |blocked| == 0 then [] else [blocked[0].chunk] + ChunksIn(blocked[1..])
  }

  /** Two lists of chunks as one, earlier ones first. */
  function Merged(a: seq<RetrievedChunk>, b: seq<RetrievedChunk>): seq<RetrievedChunk> {
    if |a| == 0 then b
    else if |b| == 0 then a
    else if a[0].id < b[0].id then [a[0]] + Merged(a[1..], b)
    else [b[0]] + Merged(a, b[1..])
  }

  lemma {:induction false} PartsAreLater(chunks: seq<RetrievedChunk>, classifiers: seq<Classifier>, id: nat)
    requires forall i | 0 <= i < |chunks| :: id < chunks[i].id
    ensures forall chunk | chunk in AdmittedChunks(chunks, classifiers) :: id < chunk.id
    ensures forall chunk | chunk in ChunksIn(BlockedChunks(chunks, classifiers)) :: id < chunk.id
  {
    if |chunks| > 0 { PartsAreLater(chunks[1..], classifiers, id); }
  }

  /** Nothing disappears, changes or moves: what was admitted and what was blocked merge into what was retrieved. */
  lemma {:induction false} RailConserves(chunks: seq<RetrievedChunk>, classifiers: seq<Classifier>)
    requires InOrder(chunks)
    ensures Merged(AdmittedChunks(chunks, classifiers), ChunksIn(BlockedChunks(chunks, classifiers))) == chunks
    ensures BlockedChunks(chunks, classifiers) == []
            <==> forall i | 0 <= i < |chunks| :: AllAllow(chunks[i].text, classifiers)
  {
    if |chunks| > 0 {
      var (first, rest) := (chunks[0], chunks[1..]);
      RailConserves(rest, classifiers);
      ScreeningAllowsExactly(first.text, classifiers);
      PartsAreLater(rest, classifiers, first.id);
      var (admitted, blocked) := (AdmittedChunks(rest, classifiers), ChunksIn(BlockedChunks(rest, classifiers)));
      assert chunks == [first] + rest;
      assert forall i | 0 < i < |chunks| :: chunks[i] == rest[i - 1];
      MergedFirst(first, admitted, blocked);
    }
  }

  lemma MergedFirst(first: RetrievedChunk, a: seq<RetrievedChunk>, b: seq<RetrievedChunk>)
    requires (forall chunk | chunk in a :: first.id < chunk.id) && (forall chunk | chunk in b :: first.id < chunk.id)
    ensures Merged([first] + a, b) == [first] + Merged(a, b) && Merged(a, [first] + b) == [first] + Merged(a, b)
  {
    assert ([first] + a)[1..] == a && ([first] + b)[1..] == b;
    if |a| > 0 { assert a[0] in a; }
    if |b| > 0 { assert b[0] in b; }
  }

  // ---- From records to chunks and back -----------------------------------------------------------------------------

  /** A new chunk object for every record. */
  function ChunksOf(records: seq<RetrievedRecord>): (chunks: seq<RetrievedChunk>)
    ensures |chunks| == |records| && InOrder(chunks)
  {
    seq(|records|, i requires 0 <= i < |records| => RetrievedChunk(i, records[i].recordId, records[i].text))
  }

  /** The records whose own chunk is among these. */
  function Reconciled(records: seq<RetrievedRecord>, chunks: seq<RetrievedChunk>,
                      among: set<RetrievedChunk>): seq<RetrievedRecord>
    requires |records| == |chunks|
  {
    if |records| == 0 then []
    else if chunks[0] in among then [records[0]] + Reconciled(records[1..], chunks[1..], among)
    else Reconciled(records[1..], chunks[1..], among)
  }

  function BlockedOf(records: seq<RetrievedRecord>, classifiers: seq<Classifier>): seq<BlockedChunk> {
    BlockedChunks(ChunksOf(records), classifiers)
  }

  /** The records that may reach the model: those whose own text passes. */
  function Admitted(records: seq<RetrievedRecord>, classifiers: seq<Classifier>): seq<RetrievedRecord> {
    if |records| == 0 then []
    else
      var rest := Admitted(records[1..], classifiers);
      if Screening(records[0].text, classifiers).Allow? then [records[0]] + rest else rest
  }

  /** These are the chunks of these records, of which just those that pass are among the set. */
  predicate Judged(records: seq<RetrievedRecord>, chunks: seq<RetrievedChunk>, among: set<RetrievedChunk>,
                   classifiers: seq<Classifier>) {
    && |records| == |chunks|
    && forall i | 0 <= i < |chunks| :: chunks[i] in among <==> Screening(records[i].text, classifiers).Allow?
  }

  lemma {:induction false} ReconciledIsAdmitted(records: seq<RetrievedRecord>, chunks: seq<RetrievedChunk>,
                                                among: set<RetrievedChunk>,
                                                classifiers: seq<Classifier>)
    requires Judged(records, chunks, among, classifiers)
    ensures Reconciled(records, chunks, among) == Admitted(records, classifiers)
  {
    if |records| > 0 {
      assert chunks[0] in among <==> Screening(records[0].text, classifiers).Allow?;
      assert forall i | 0 <= i < |chunks| - 1 :: chunks[1..][i] == chunks[i + 1] && records[1..][i] == records[i + 1];
      ReconciledIsAdmitted(records[1..], chunks[1..], among, classifiers);
    }
  }

  function ToSet(chunks: seq<RetrievedChunk>): set<RetrievedChunk> {
    set chunk | chunk in chunks
  }

  /**
   Chunks are made of the records, railed, and the records taken back by the identity of their chunks: each by its own
   text.
   */
  lemma RailedBackIsAdmitted(records: seq<RetrievedRecord>, classifiers: seq<Classifier>)
    ensures var chunks := ChunksOf(records);
            Reconciled(records, chunks, ToSet(AdmittedChunks(chunks, classifiers))) == Admitted(records, classifiers)
  {
    var chunks := ChunksOf(records);
    var among := ToSet(AdmittedChunks(chunks, classifiers));
    forall i | 0 <= i < |chunks| ensures chunks[i] in among <==> Screening(records[i].text, classifiers).Allow? {
      AdmittedChunksExactly(chunks, classifiers, chunks[i]);
    }
    ReconciledIsAdmitted(records, chunks, among, classifiers);
  }

  method AdmittedRecords(records: seq<RetrievedRecord>, classifiers: seq<Classifier>)
    returns (admitted: seq<RetrievedRecord>, blocked: seq<BlockedChunk>)
    ensures admitted == Admitted(records, classifiers) && blocked == BlockedOf(records, classifiers)
  {
    var chunks := ChunksOf(records);
    var passed, stopped := RailRetrieved(chunks, classifiers);
    RailedBackIsAdmitted(records, classifiers);
    return Reconciled(records, chunks, ToSet(passed)), stopped;
  }

  /**
   A record is admitted exactly when every classifier allows its own text: a blocked sibling with the same record id
   neither drags it out nor gets in with it.
   */
  lemma {:induction false} AdmittedExactly(records: seq<RetrievedRecord>, classifiers: seq<Classifier>,
                                           record: RetrievedRecord)
    ensures record in Admitted(records, classifiers) <==> record in records && AllAllow(record.text, classifiers)
  {
    if |records| > 0 {
      AdmittedExactly(records[1..], classifiers, record);
      ScreeningAllowsExactly(records[0].text, classifiers);
      assert record in records <==> record == records[0] || record in records[1..];
    }
  }

  /** What taking records back by their ids would give. */
  function TakenById(records: seq<RetrievedRecord>, ids: set<Text>): seq<RetrievedRecord> {
    if |records| == 0 then []
    else if records[0].recordId in ids then [records[0]] + TakenById(records[1..], ids)
    else TakenById(records[1..], ids)
  }

  lemma {:induction false} TakenByIdExactly(records: seq<RetrievedRecord>, ids: set<Text>, record: RetrievedRecord)
    ensures record in TakenById(records, ids) <==> record in records && record.recordId in ids
  {
    if |records| > 0 {
      TakenByIdExactly(records[1..], ids, record);
      assert record in records <==> record == records[0] || record in records[1..];
    }
  }

  lemma {:induction false} SameJudgement(records: seq<RetrievedRecord>, ids: set<Text>, classifiers: seq<Classifier>)
    requires forall record | record in records :: record.recordId in ids <==> Screening(record.text, classifiers).Allow?
    ensures TakenById(records, ids) == Admitted(records, classifiers)
  {
    if |records| > 0 {
      assert records[0] in records;
      SameJudgement(records[1..], ids, classifiers);
    }
  }

  /**
   Why identity: by ids the same records would come back exactly when no blocked record shares its id with an admitted
   one.
   */
  lemma IdsReadmitSiblings(records: seq<RetrievedRecord>, classifiers: seq<Classifier>)
    ensures TakenById(records, IdsOf(Admitted(records, classifiers))) == Admitted(records, classifiers) <==>
            forall x, y | x in records && y in records && AllAllow(x.text, classifiers)
                && !AllAllow(y.text, classifiers) ::
              x.recordId != y.recordId
  {
    var (admitted, ids) := (Admitted(records, classifiers), IdsOf(Admitted(records, classifiers)));
    forall record ensures record in admitted <==> record in records && AllAllow(record.text, classifiers) {
      AdmittedExactly(records, classifiers, record);
    }
    if x, y :| x in records && y in records && AllAllow(x.text, classifiers) && !AllAllow(y.text, classifiers)
               && x.recordId == y.recordId {
      assert x in admitted && y !in admitted;
      TakenByIdExactly(records, ids, y);
    } else {
      forall record | record in records ensures record.recordId in ids <==> Screening(record.text, classifiers).Allow? {
        ScreeningAllowsExactly(record.text, classifiers);
      }
      SameJudgement(records, ids, classifiers);
    }
  }

  // ---- What the model is told ----------------------------------------------------------------------------------

  const TOOL_OUTPUT_CAP := 4_000

  function CapToolOutput(tool: Text, text: Text): ContextItem {
    var truncated := |text| > TOOL_OUTPUT_CAP;
    ToolOutput(tool, if truncated then text[..TOOL_OUTPUT_CAP] else text, truncated)
  }

  /** The records of an observation as the rail sees them: an action's output is one untrusted record. */
  function RecordsOf(tool: Text, observation: ToolObservation): seq<RetrievedRecord> {
    match observation
    case Retrieved(records) => records
    case Acted(receipt) => [RetrievedRecord(tool + Ascii(":output"), Ascii("internal"), Ascii("external-untrusted"),
                                            receipt.output)]
  }

  function CommittedBy(observation: ToolObservation): seq<Text> {
    match observation
    case Retrieved(_) => []
    case Acted(receipt) => receipt.committed
  }

  function TextsOf(records: seq<RetrievedRecord>): seq<Text> {
    seq(|records|, i requires 0 <= i < |records| => records[i].text)
  }

  /**
   What the run says in the platform's own words: to the model when nothing else may be said, and of tools that did not
   run.
   */
  datatype Wording = Wording(
    withheld: Text, noMatches: Text, alreadyRetrieved: Text, unavailable: Text, rejected: Text, unanswered: Text,
        incomplete: Text,
    correction: Text)

  function ObservationFor(words: Wording, observation: ToolObservation, admitted: seq<RetrievedRecord>, blocked: bool,
                          hasNewEvidence: bool): Text {
    match observation
    case Acted(receipt) =>
      if |admitted| == 0 && blocked then receipt.summary + [10] + words.withheld
      else Join([receipt.summary] + TextsOf(admitted), [10])
    case Retrieved(_) =>
      if |admitted| == 0 then (if blocked then words.withheld else words.noMatches)
      else if hasNewEvidence then Join(TextsOf(admitted), [10])
      else words.alreadyRetrieved
  }

  predicate HasNewEvidence(admitted: seq<RetrievedRecord>, seen: set<Text>) {
    exists i :: 0 <= i < |admitted| && admitted[i].recordId !in seen
  }

  function IdsOf(records: seq<RetrievedRecord>): set<Text> {
    set i | 0 <= i < |records| :: records[i].recordId
  }

  /** What one successful tool call leaves in the loop's context. */
  datatype Learned = Learned(item: ContextItem, seen: set<Text>, isNew: bool)

  function Learn(words: Wording, tool: Text, observation: ToolObservation, classifiers: seq<Classifier>,
                 seen: set<Text>): Learned {
    var records := RecordsOf(tool, observation);
    var admitted := Admitted(records, classifiers);
    var isNew := HasNewEvidence(admitted, seen);
    Learned(CapToolOutput(tool,
                          ObservationFor(words, observation, admitted, |BlockedOf(records, classifiers)| > 0, isNew)),
            seen + IdsOf(admitted), isNew)
  }

  /** Two results that differ only in what the rail withholds. */
  predicate AgreeVisibly(tool: Text, a: ToolObservation, b: ToolObservation, classifiers: seq<Classifier>) {
    && a.Acted? == b.Acted?
    && (a.Acted? ==> a.receipt.summary == b.receipt.summary)
    && Admitted(RecordsOf(tool, a), classifiers) == Admitted(RecordsOf(tool, b), classifiers)
    && (BlockedOf(RecordsOf(tool, a), classifiers) == [] <==> BlockedOf(RecordsOf(tool, b), classifiers) == [])
  }

  /** Withheld content has no influence on what the loop learns. */
  lemma WithheldTeachesNothing(words: Wording, tool: Text, a: ToolObservation, b: ToolObservation,
                               classifiers: seq<Classifier>, seen: set<Text>)
    requires AgreeVisibly(tool, a, b, classifiers)
    ensures Learn(words, tool, a, classifiers, seen) == Learn(words, tool, b, classifiers, seen)
  {
  }

  /** A successful tool call as log events: every block, every allowance if a classifier ran, every record, the call. */
  function RetrievalEvents(tool: Text, arguments: Sealed, blocked: seq<BlockedChunk>, admitted: seq<RetrievedRecord>,
                           screened: bool, committed: seq<Text>): seq<Event>
  {
    BlockEvents(blocked)
    + (if screened then seq(|admitted|,
                            _ => GuardrailEvaluated(Ascii("retrieval-rail"), Ascii("all-classifiers-passed"), Allowed))
                            else [])
    + RecordEvents(admitted)
    + [ToolCalled(tool, arguments, ToolSucceeded, committed)]
  }

  function BlockEvents(blocked: seq<BlockedChunk>): (events: seq<Event>)
    ensures |events| == |blocked|
    ensures forall i | 0 <= i < |events| :: events[i].GuardrailEvaluated? && events[i].railOutcome == Blocked
  {
    seq(|blocked|, i requires 0 <= i < |blocked| =>
      var verdict := blocked[i].verdict;
      if verdict.Block?
      then GuardrailEvaluated(verdict.policy, verdict.rule, Blocked)
      else GuardrailEvaluated([], [], Blocked))
  }

  function RecordEvents(admitted: seq<RetrievedRecord>): (events: seq<Event>)
    ensures |events| == |admitted|
    ensures forall i | 0 <= i < |events| :: events[i].RecordRetrieved? && events[i].recordId == admitted[i].recordId
  {
    seq(|admitted|, i requires 0 <= i < |admitted| =>
      RecordRetrieved(admitted[i].recordId, admitted[i].classification, admitted[i].provenance))
  }
}
