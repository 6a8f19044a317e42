/**
 The execution log's events and entries (src/evidence/domain/execution-event.ts, src/evidence/domain/logged-entry.ts).
 */
module ExecutionLog {
  import opened Texts

  datatype Sealed = Sealed(subject: Text, bucket: Text, iv: Text, ciphertext: Text, wrappedSubjectKey: Text,
                           wrappedBucketKey: Text)

  datatype Principal = Human(id: Text, tenant: Text) | Agent(id: Text, tenant: Text) | Service(id: Text)

  datatype ToolStatus = ToolSucceeded | ToolFailed | ToolDenied
  datatype RailOutcome = Allowed | Blocked
  datatype HumanDecision = HumanApproved | HumanRejected | HumanTimedOut
  datatype RunOutcome = Succeeded | Failed | Halted | Refused

  /** The eight field groups an execution log records. */
  datatype Event =
    | RunStarted(principal: Principal, tenant: Text, region: Text, legalBasisPolicy: Text, request: Sealed)
    | RecordRetrieved(recordId: Text, classification: Text, provenance: Text)
    | ModelInvoked(snapshot: Text, promptVersion: Text, routerDecision: Text, routerRationale: Text)
    | ToolCalled(tool: Text, arguments: Sealed, status: ToolStatus, sideEffectsCommitted: seq<Text>)
    | GuardrailEvaluated(policy: Text, rule: Text, railOutcome: RailOutcome)
    | HumanIntervened(reviewer: Text, decision: HumanDecision, requestedAt: int, decidedAt: int)
    | UsageRecorded(invocationSeq: int, inputTokens: int, outputTokens: int, costMicros: int)
    | RunFinished(outcome: RunOutcome)

  /** Instants are milliseconds; each has one textual form. */
  datatype Entry = Entry(runId: Text, seqNo: int, at: int, previousHash: Text, hash: Text, event: Event)

  type Log = seq<Entry>

  /** Sixty-four zeros. */
  function GenesisHash(): Text {
    seq(64, _ => 48)
  }

  /** The same entry but for its own hash. */
  predicate SameContent(a: Entry, b: Entry) {
    a.(hash := b.hash) == b
  }

  /** What an entry's hash is computed by, out of everything the entry says. */
  type EntryHasher = Entry -> Text

  /** A collision-free entry hash: it depends on the content and on nothing else, and determines it. */
  ghost predicate Commits(hash: EntryHasher) {
    forall a, b :: hash(a) == hash(b) <==> SameContent(a, b)
  }
}
