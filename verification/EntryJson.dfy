/**
 Log entries as the JSON their hash is computed over (src/evidence/domain/append-entry.ts), and the proof that this
 text determines the entry.
 */
module EntryJson {
  import opened Texts
  import opened CanonicalJson
  import opened ExecutionLog

  // ---- Entries as JSON ---------------------------------------------------------------------------------------

  function Digits(n: nat): (t: Text)
    ensures |t| > 0 && (forall c | c in t :: IsDigit(c)) && (|t| == 1 <==> n < 10)
  {
    if n < 10 then [48 + n] else Digits(n / 10) + [48 + n % 10]
  }

  function Decimal(n: int): (t: Text)
    ensures IsNumberText(t)
  {
    if n < 0 then [45] + Digits(-n) else Digits(n)
  }

  lemma {:induction false} DigitsInjective(m: nat, n: nat)
    requires Digits(m) == Digits(n)
    ensures m == n
  {
    if m >= 10 && n >= 10 {
      var s, t := Digits(m), Digits(n);
      assert s[|s| - 1] == 48 + m % 10 && t[|t| - 1] == 48 + n % 10;
      assert Digits(m / 10) == s[..|s| - 1] && Digits(n / 10) == t[..|t| - 1];
      DigitsInjective(m / 10, n / 10);
    }
  }

  lemma DecimalInjective(m: int, n: int)
    requires Decimal(m) == Decimal(n)
    ensures m == n
  {
    assert m >= 0 ==> IsDigit(Decimal(m)[0]) by { if m >= 0 { assert Decimal(m)[0] in Digits(m); } }
    assert n >= 0 ==> IsDigit(Decimal(n)[0]) by { if n >= 0 { assert Decimal(n)[0] in Digits(n); } }
    if m < 0 {
      assert Digits(-m) == Decimal(m)[1..] && Digits(-n) == Decimal(n)[1..];
      DigitsInjective(-m, -n);
    } else {
      DigitsInjective(m, n);
    }
  }

  /** An object with these names and values, in this order. */
  function Record(names: seq<string>, values: seq<Json>): (j: Json)
    requires |names| == |values|
    ensures j.Obj? && |j.fields| == |names|
    ensures forall i | 0 <= i < |names| :: j.fields[i] == Field(Ascii(names[i]), values[i])
  {
    Obj(seq(|names|, i requires 0 <= i < |names| => Field(Ascii(names[i]), values[i])))
  }

  function Strings(ts: seq<Text>): (items: seq<Json>)
    ensures |items| == |ts| && forall i | 0 <= i < |ts| :: items[i] == Str(ts[i])
  {
    seq(|ts|, i requires 0 <= i < |ts| => Str(ts[i]))
  }

  const SEALED_NAMES := ["subject", "bucket", "iv", "ciphertext", "wrappedSubjectKey", "wrappedBucketKey"]

  function SealedTexts(s: Sealed): seq<Text> {
    [s.subject, s.bucket, s.iv, s.ciphertext, s.wrappedSubjectKey, s.wrappedBucketKey]
  }

  function SealedJson(s: Sealed): Json {
    Record(SEALED_NAMES, Strings(SealedTexts(s)))
  }

  function PrincipalNames(p: Principal): seq<string> {
    if p.Service? then ["kind", "id"] else ["kind", "id", "tenant"]
  }

  function PrincipalTexts(p: Principal): (ts: seq<Text>)
    ensures |ts| == |PrincipalNames(p)|
  {
    match p
    case Human(id, tenant) => [Ascii("human"), id, tenant]
    case Agent(id, tenant) => [Ascii("agent"), id, tenant]
    case Service(id) => [Ascii("service"), id]
  }

  function PrincipalJson(p: Principal): Json {
    Record(PrincipalNames(p), Strings(PrincipalTexts(p)))
  }

  function StatusText(s: ToolStatus): Text {
    match s
    case ToolSucceeded => Ascii("succeeded")
    case ToolFailed => Ascii("failed")
    case ToolDenied => Ascii("denied")
  }

  function RailText(o: RailOutcome): Text {
    match o
    case Allowed => Ascii("allowed")
    case Blocked => Ascii("blocked")
  }

  function DecisionText(d: HumanDecision): Text {
    match d
    case HumanApproved => Ascii("approved")
    case HumanRejected => Ascii("rejected")
    case HumanTimedOut => Ascii("timed-out")
  }

  function OutcomeText(o: RunOutcome): Text {
    match o
    case Succeeded => Ascii("succeeded")
    case Failed => Ascii("failed")
    case Halted => Ascii("halted")
    case Refused => Ascii("refused")
  }

  function KindText(e: Event): Text {
    match e
    case RunStarted(_, _, _, _, _) => Ascii("run-started")
    case RecordRetrieved(_, _, _) => Ascii("record-retrieved")
    case ModelInvoked(_, _, _, _) => Ascii("model-invoked")
    case ToolCalled(_, _, _, _) => Ascii("tool-called")
    case GuardrailEvaluated(_, _, _) => Ascii("guardrail-evaluated")
    case HumanIntervened(_, _, _, _) => Ascii("human-intervened")
    case UsageRecorded(_, _, _, _) => Ascii("usage-recorded")
    case RunFinished(_) => Ascii("run-finished")
  }

  const STARTED_NAMES := ["kind", "principal", "tenant", "region", "legalBasisPolicy", "request"]
  const RETRIEVED_NAMES := ["kind", "recordId", "classification", "provenance"]
  const INVOKED_NAMES := ["kind", "snapshot", "promptVersion", "routerDecision", "routerRationale"]
  const CALLED_NAMES := ["kind", "tool", "arguments", "status", "sideEffectsCommitted"]
  const EVALUATED_NAMES := ["kind", "policy", "rule", "outcome"]
  const INTERVENED_NAMES := ["kind", "reviewer", "decision", "requestedAt", "decidedAt"]
  const USAGE_NAMES := ["kind", "invocationSeq", "inputTokens", "outputTokens", "costMicros"]
  const FINISHED_NAMES := ["kind", "outcome"]

  function EventNames(e: Event): (names: seq<string>)
    ensures |names| > 1 && names[0] == "kind"
  {
    match e
    case RunStarted(_, _, _, _, _) => STARTED_NAMES
    case RecordRetrieved(_, _, _) => RETRIEVED_NAMES
    case ModelInvoked(_, _, _, _) => INVOKED_NAMES
    case ToolCalled(_, _, _, _) => CALLED_NAMES
    case GuardrailEvaluated(_, _, _) => EVALUATED_NAMES
    case HumanIntervened(_, _, _, _) => INTERVENED_NAMES
    case UsageRecorded(_, _, _, _) => USAGE_NAMES
    case RunFinished(_) => FINISHED_NAMES
  }

  function EventValues(e: Event): (values: seq<Json>)
    ensures |values| == |EventNames(e)| && values[0] == Str(KindText(e))
  {
    var kind := Str(KindText(e));
    match e
    case RunStarted(principal, tenant, region, policy, request) =>
      [kind, PrincipalJson(principal), Str(tenant), Str(region), Str(policy), SealedJson(request)]
    case RecordRetrieved(recordId, classification, provenance) =>
      [kind, Str(recordId), Str(classification), Str(provenance)]
    case ModelInvoked(snapshot, promptVersion, decision, rationale) =>
      [kind, Str(snapshot), Str(promptVersion), Str(decision), Str(rationale)]
    case ToolCalled(tool, arguments, status, committed) =>
      [kind, Str(tool), SealedJson(arguments), Str(StatusText(status)), Arr(Strings(committed))]
    case GuardrailEvaluated(policy, rule, outcome) =>
      [kind, Str(policy), Str(rule), Str(RailText(outcome))]
    case HumanIntervened(reviewer, decision, requestedAt, decidedAt) =>
      [kind, Str(reviewer), Str(DecisionText(decision)), Str(Decimal(requestedAt)), Str(Decimal(decidedAt))]
    case UsageRecorded(invocationSeq, input, output, cost) =>
      [kind, Number(Decimal(invocationSeq)), Number(Decimal(input)), Number(Decimal(output)), Number(Decimal(cost))]
    case RunFinished(outcome) =>
      [kind, Str(OutcomeText(outcome))]
  }

  function EventJson(e: Event): Json {
    Record(EventNames(e), EventValues(e))
  }

  /** What an entry commits to: everything but its own hash. */
  const ENTRY_NAMES := ["runId", "seq", "at", "previousHash", "event"]

  function EntryValues(e: Entry): (values: seq<Json>)
    ensures |values| == 5
  {
    [Str(e.runId), Number(Decimal(e.seqNo)), Str(Decimal(e.at)), Str(e.previousHash), EventJson(e.event)]
  }

  function HashableJson(e: Entry): Json {
    Record(ENTRY_NAMES, EntryValues(e))
  }

  function HashableEntry(e: Entry): Text {
    CanonicalText(HashableJson(e))
  }

  // ---- The hashed text determines the entry ------------------------------------------------------------------

  predicate Word(w: string) {
    w != "" && 'a' <= w[0] <= 'z'
  }

  /** A word that differs from each of `words[from..]` in length or first letter. */
  predicate OtherWord(word: string, words: seq<string>, from: nat)
    requires Word(word)
    decreases |words| - from
  {
    from >= |words| ||
    (Word(words[from]) && (|word| != |words[from]| || word[0] != words[from][0]) && OtherWord(word, words, from + 1))
  }

  predicate DistinctWords(words: seq<string>, from: nat := 0)
    decreases |words| - from
  {
    from >= |words| || (Word(words[from]) && OtherWord(words[from], words, from + 1) && DistinctWords(words, from + 1))
  }

  lemma {:induction false} OtherWordDiffers(word: string, words: seq<string>, from: nat, i: nat)
    requires Word(word) && OtherWord(word, words, from) && from <= i < |words|
    ensures Ascii(word) != Ascii(words[i])
    decreases |words| - from
  {
    if i > from { OtherWordDiffers(word, words, from + 1, i); }
  }

  lemma {:induction false} DistinctWordsDiffer(words: seq<string>, i: nat, k: nat, from: nat := 0)
    requires DistinctWords(words, from) && from <= i < k < |words|
    ensures Ascii(words[i]) != Ascii(words[k])
    decreases |words| - from
  {
    if i == from {
      OtherWordDiffers(words[i], words, from + 1, k);
    } else {
      DistinctWordsDiffer(words, i, k, from + 1);
    }
  }

  lemma {:induction false} WordIsNotProto(words: seq<string>, i: nat, from: nat := 0)
    requires DistinctWords(words, from) && from <= i < |words|
    ensures Ascii(words[i]) != PROTO
    decreases |words| - from
  {
    if i == from { assert PROTO[0] == 95; } else { WordIsNotProto(words, i, from + 1); }
  }

  predicate Sound(j: Json) {
    WellFormed(j) && NeverNames(j, PROTO)
  }

  lemma FieldsSound(fields: seq<Field>)
    requires DistinctNames(fields) && forall i | 0 <= i < |fields| :: fields[i].name != PROTO && Sound(fields[i].value)
    ensures Sound(Obj(fields))
  {
  }

  lemma RecordNamesDiffer(names: seq<string>, values: seq<Json>)
    requires |names| == |values| && DistinctWords(names)
    ensures DistinctNames(Record(names, values).fields)
  {
    var fields := Record(names, values).fields;
    forall i, k | 0 <= i < k < |fields| ensures fields[i].name != fields[k].name {
      DistinctWordsDiffer(names, i, k);
    }
  }

  lemma RecordSound(names: seq<string>, values: seq<Json>)
    requires |names| == |values| && DistinctWords(names)
    requires forall i | 0 <= i < |values| :: Sound(values[i])
    ensures Sound(Record(names, values))
  {
    var fields := Record(names, values).fields;
    RecordNamesDiffer(names, values);
    forall i | 0 <= i < |fields| ensures fields[i].name != PROTO && Sound(fields[i].value) {
      WordIsNotProto(names, i);
    }
    FieldsSound(fields);
  }

  lemma {:induction false} ValueAt(names: seq<string>, values: seq<Json>, i: nat)
    requires |names| == |values| && DistinctWords(names) && i < |names|
    ensures HasName(Record(names, values).fields, Ascii(names[i]))
    ensures ValueOf(Record(names, values).fields, Ascii(names[i])) == values[i]
  {
    var fields := Record(names, values).fields;
    assert fields[i].name == Ascii(names[i]);
    var v := ValueOf(fields, Ascii(names[i]));
    var k :| 0 <= k < |fields| && fields[k] == Field(Ascii(names[i]), v);
    if k < i { DistinctWordsDiffer(names, k, i); }
    if i < k { DistinctWordsDiffer(names, i, k); }
  }

  /** Records with the same names are the same tree only if their values are, place by place. */
  lemma RecordValue(names: seq<string>, vs: seq<Json>, ws: seq<Json>, i: nat)
    requires |names| == |vs| == |ws| && DistinctWords(names) && i < |names|
    requires SameTree(Record(names, vs), Record(names, ws), {})
    ensures SameTree(vs[i], ws[i], {})
  {
    ValueAt(names, ws, i);
    assert Record(names, vs).fields[i] == Field(Ascii(names[i]), vs[i]);
  }

  lemma RecordTexts(names: seq<string>, ss: seq<Text>, ts: seq<Text>)
    requires |names| == |ss| == |ts| && DistinctWords(names)
    requires SameTree(Record(names, Strings(ss)), Record(names, Strings(ts)), {})
    ensures ss == ts
  {
    forall i | 0 <= i < |ss| ensures ss[i] == ts[i] {
      RecordValue(names, Strings(ss), Strings(ts), i);
    }
  }

  lemma SealedSound(s: Sealed)
    ensures Sound(SealedJson(s))
  {
    StringsSound(SealedTexts(s));
    assert DistinctWords(SEALED_NAMES);
    RecordSound(SEALED_NAMES, Strings(SealedTexts(s)));
  }

  lemma PrincipalSound(p: Principal)
    ensures Sound(PrincipalJson(p))
  {
    StringsSound(PrincipalTexts(p));
    assert DistinctWords(["kind", "id"]) && DistinctWords(["kind", "id", "tenant"]);
    RecordSound(PrincipalNames(p), Strings(PrincipalTexts(p)));
  }

  lemma LongNamesDistinct()
    ensures DistinctWords(STARTED_NAMES) && DistinctWords(CALLED_NAMES)
  {
  }

  lemma MiddleNamesDistinct()
    ensures DistinctWords(INVOKED_NAMES) && DistinctWords(INTERVENED_NAMES)
  {
  }

  lemma UsageNamesDistinct()
    ensures DistinctWords(USAGE_NAMES) && DistinctWords(FINISHED_NAMES)
  {
  }

  lemma ShortNamesDistinct()
    ensures DistinctWords(RETRIEVED_NAMES) && DistinctWords(EVALUATED_NAMES)
  {
  }

  lemma EventNamesDistinct(e: Event)
    ensures DistinctWords(EventNames(e))
  {
    LongNamesDistinct();
    MiddleNamesDistinct();
    UsageNamesDistinct();
    ShortNamesDistinct();
  }

  lemma StringsSound(ts: seq<Text>)
    ensures Sound(Arr(Strings(ts)))
  {
    var items := Strings(ts);
    assert forall i | 0 <= i < |items| :: Sound(items[i]);
  }

  ghost predicate AllSound(values: seq<Json>) {
    forall i | 0 <= i < |values| :: Sound(values[i])
  }

  lemma RunStartedSound(e: Event)
    requires e.RunStarted?
    ensures AllSound(EventValues(e))
  {
    PrincipalSound(e.principal);
    SealedSound(e.request);
  }

  lemma ToolCalledSound(e: Event)
    requires e.ToolCalled?
    ensures AllSound(EventValues(e))
  {
    SealedSound(e.arguments);
    StringsSound(e.sideEffectsCommitted);
  }

  lemma OtherEventSound(e: Event)
    requires !e.RunStarted? && !e.ToolCalled?
    ensures AllSound(EventValues(e))
  {
  }

  lemma EventValuesSound(e: Event)
    ensures AllSound(EventValues(e))
  {
    if e.RunStarted? {
      RunStartedSound(e);
    } else if e.ToolCalled? {
      ToolCalledSound(e);
    } else {
      OtherEventSound(e);
    }
  }

  lemma EventSound(e: Event)
    ensures Sound(EventJson(e))
  {
    EventNamesDistinct(e);
    EventValuesSound(e);
    RecordSound(EventNames(e), EventValues(e));
  }

  lemma EntryNamesDistinct()
    ensures DistinctWords(ENTRY_NAMES)
  {
  }

  lemma HashableSound(e: Entry)
    ensures Sound(HashableJson(e))
  {
    EventSound(e.event);
    EntryNamesDistinct();
    RecordSound(ENTRY_NAMES, EntryValues(e));
  }

  lemma SealedTextsInjective(a: Sealed, b: Sealed)
    requires SealedTexts(a) == SealedTexts(b)
    ensures a == b
  {
    var ss, ts := SealedTexts(a), SealedTexts(b);
    assert ss[0] == ts[0] && ss[1] == ts[1] && ss[2] == ts[2] && ss[3] == ts[3] && ss[4] == ts[4] && ss[5] == ts[5];
  }

  lemma SealedInjective(a: Sealed, b: Sealed)
    requires SameTree(SealedJson(a), SealedJson(b), {})
    ensures a == b
  {
    SealedNamesDistinct();
    RecordTexts(SEALED_NAMES, SealedTexts(a), SealedTexts(b));
    SealedTextsInjective(a, b);
  }

  lemma SealedNamesDistinct()
    ensures DistinctWords(SEALED_NAMES)
  {
  }

  /** Records whose first field has the same name agree on it. */
  lemma FirstValue(ns: seq<string>, ms: seq<string>, vs: seq<Json>, ws: seq<Json>)
    requires |ns| == |vs| > 0 && |ms| == |ws| > 0 && ns[0] == ms[0] && DistinctWords(ms)
    requires SameTree(Record(ns, vs), Record(ms, ws), {})
    ensures vs[0].Str? ==> vs[0] == ws[0]
  {
    ValueAt(ms, ws, 0);
    assert Record(ns, vs).fields[0] == Field(Ascii(ns[0]), vs[0]);
    assert SameTree(vs[0], ws[0], {});
  }

  lemma PrincipalNamesDistinct(p: Principal)
    ensures DistinctWords(PrincipalNames(p))
  {
    assert DistinctWords(["kind", "id"]) && DistinctWords(["kind", "id", "tenant"]);
  }

  lemma PrincipalKindDecides(a: Principal, b: Principal)
    requires PrincipalTexts(a)[0] == PrincipalTexts(b)[0]
    ensures PrincipalNames(a) == PrincipalNames(b) && (PrincipalTexts(a) == PrincipalTexts(b) ==> a == b)
  {
    var ss, ts := PrincipalTexts(a), PrincipalTexts(b);
    assert ss[0][0] == ts[0][0];
    if ss == ts {
      assert ss[1] == ts[1];
      if !a.Service? { assert ss[2] == ts[2]; }
    }
  }

  lemma PrincipalInjective(a: Principal, b: Principal)
    requires SameTree(PrincipalJson(a), PrincipalJson(b), {})
    ensures a == b
  {
    var ss, ts := PrincipalTexts(a), PrincipalTexts(b);
    PrincipalNamesDistinct(b);
    FirstValue(PrincipalNames(a), PrincipalNames(b), Strings(ss), Strings(ts));
    PrincipalKindDecides(a, b);
    RecordTexts(PrincipalNames(a), ss, ts);
  }

  /** The kind texts of different kinds differ in length or first letter. */
  lemma KindTextDecides(a: Event, b: Event)
    requires KindText(a) == KindText(b)
    ensures EventNames(a) == EventNames(b)
    ensures a.RunStarted? == b.RunStarted? && a.RecordRetrieved? == b.RecordRetrieved?
            && a.ModelInvoked? == b.ModelInvoked?
    ensures a.ToolCalled? == b.ToolCalled? && a.GuardrailEvaluated? == b.GuardrailEvaluated?
    ensures a.HumanIntervened? == b.HumanIntervened? && a.UsageRecorded? == b.UsageRecorded?
            && a.RunFinished? == b.RunFinished?
  {
    assert KindText(a)[0] == KindText(b)[0];
  }

  lemma EventKindDecides(a: Event, b: Event)
    requires SameTree(EventJson(a), EventJson(b), {})
    ensures KindText(a) == KindText(b)
  {
    EventNamesDistinct(b);
    FirstValue(EventNames(a), EventNames(b), EventValues(a), EventValues(b));
  }

  lemma EventValue(a: Event, b: Event, i: nat)
    requires SameTree(EventJson(a), EventJson(b), {}) && EventNames(a) == EventNames(b) && i < |EventNames(a)|
    ensures SameTree(EventValues(a)[i], EventValues(b)[i], {})
  {
    EventNamesDistinct(a);
    RecordValue(EventNames(a), EventValues(a), EventValues(b), i);
  }

  lemma StringsTreeInjective(ss: seq<Text>, ts: seq<Text>)
    requires SameTree(Arr(Strings(ss)), Arr(Strings(ts)), {})
    ensures ss == ts
  {
    forall i | 0 <= i < |ss| ensures ss[i] == ts[i] {
      assert SameTree(Strings(ss)[i], Strings(ts)[i], {});
    }
  }

  lemma StatusTextInjective(a: ToolStatus, b: ToolStatus)
    requires StatusText(a) == StatusText(b)
    ensures a == b
  {
    assert StatusText(a)[0] == StatusText(b)[0];
  }

  lemma RailTextInjective(a: RailOutcome, b: RailOutcome)
    requires RailText(a) == RailText(b)
    ensures a == b
  {
    assert RailText(a)[0] == RailText(b)[0];
  }

  lemma DecisionTextInjective(a: HumanDecision, b: HumanDecision)
    requires DecisionText(a) == DecisionText(b)
    ensures a == b
  {
    assert DecisionText(a)[0] == DecisionText(b)[0];
  }

  lemma OutcomeTextInjective(a: RunOutcome, b: RunOutcome)
    requires OutcomeText(a) == OutcomeText(b)
    ensures a == b
  {
    assert OutcomeText(a)[0] == OutcomeText(b)[0];
  }

  /** The values of two events of one kind are the same trees, place by place. */
  ghost predicate SameValues(a: Event, b: Event) {
    EventNames(a) == EventNames(b) && forall i | 0 <= i < |EventNames(a)| ::
        SameTree(EventValues(a)[i], EventValues(b)[i], {})
  }

  lemma SameEventSameValues(a: Event, b: Event)
    requires SameTree(EventJson(a), EventJson(b), {})
    ensures SameValues(a, b) && KindText(a) == KindText(b)
  {
    EventKindDecides(a, b);
    KindTextDecides(a, b);
    forall i | 0 <= i < |EventNames(a)| ensures SameTree(EventValues(a)[i], EventValues(b)[i], {}) {
      EventValue(a, b, i);
    }
  }

  lemma StartedInjective(a: Event, b: Event)
    requires a.RunStarted? && b.RunStarted? && SameValues(a, b)
    ensures a == b
  {
    var (vs, ws) := (EventValues(a), EventValues(b));
    assert SameTree(vs[1], ws[1], {}) && SameTree(vs[2], ws[2], {}) && SameTree(vs[3], ws[3], {});
    assert SameTree(vs[4], ws[4], {}) && SameTree(vs[5], ws[5], {});
    PrincipalInjective(a.principal, b.principal);
    SealedInjective(a.request, b.request);
  }

  lemma CalledInjective(a: Event, b: Event)
    requires a.ToolCalled? && b.ToolCalled? && SameValues(a, b)
    ensures a == b
  {
    var (vs, ws) := (EventValues(a), EventValues(b));
    assert SameTree(vs[1], ws[1], {}) && SameTree(vs[2], ws[2], {}) && SameTree(vs[3], ws[3], {})
           && SameTree(vs[4], ws[4], {});
    SealedInjective(a.arguments, b.arguments);
    StatusTextInjective(a.status, b.status);
    StringsTreeInjective(a.sideEffectsCommitted, b.sideEffectsCommitted);
  }

  lemma IntervenedInjective(a: Event, b: Event)
    requires a.HumanIntervened? && b.HumanIntervened? && SameValues(a, b)
    ensures a == b
  {
    var (vs, ws) := (EventValues(a), EventValues(b));
    assert SameTree(vs[1], ws[1], {}) && SameTree(vs[2], ws[2], {}) && SameTree(vs[3], ws[3], {})
           && SameTree(vs[4], ws[4], {});
    DecisionTextInjective(a.decision, b.decision);
    DecimalInjective(a.requestedAt, b.requestedAt);
    DecimalInjective(a.decidedAt, b.decidedAt);
  }

  lemma UsageInjective(a: Event, b: Event)
    requires a.UsageRecorded? && b.UsageRecorded? && SameValues(a, b)
    ensures a == b
  {
    var (vs, ws) := (EventValues(a), EventValues(b));
    assert SameTree(vs[1], ws[1], {}) && SameTree(vs[2], ws[2], {}) && SameTree(vs[3], ws[3], {})
           && SameTree(vs[4], ws[4], {});
    DecimalInjective(a.invocationSeq, b.invocationSeq);
    DecimalInjective(a.inputTokens, b.inputTokens);
    DecimalInjective(a.outputTokens, b.outputTokens);
    DecimalInjective(a.costMicros, b.costMicros);
  }

  lemma PlainInjective(a: Event, b: Event)
    requires (a.RecordRetrieved? && b.RecordRetrieved?) || (a.ModelInvoked? && b.ModelInvoked?)
    requires SameValues(a, b)
    ensures a == b
  {
    var (vs, ws) := (EventValues(a), EventValues(b));
    assert SameTree(vs[1], ws[1], {}) && SameTree(vs[2], ws[2], {}) && SameTree(vs[3], ws[3], {});
    if a.ModelInvoked? { assert SameTree(vs[4], ws[4], {}); }
  }

  lemma ClosingInjective(a: Event, b: Event)
    requires (a.GuardrailEvaluated? && b.GuardrailEvaluated?) || (a.RunFinished? && b.RunFinished?)
    requires SameValues(a, b)
    ensures a == b
  {
    var (vs, ws) := (EventValues(a), EventValues(b));
    assert SameTree(vs[1], ws[1], {});
    if a.RunFinished? {
      OutcomeTextInjective(a.outcome, b.outcome);
    } else {
      assert SameTree(vs[2], ws[2], {}) && SameTree(vs[3], ws[3], {});
      RailTextInjective(a.railOutcome, b.railOutcome);
    }
  }

  /** Events that are the same JSON tree are the same event. */
  lemma EventInjective(a: Event, b: Event)
    requires SameTree(EventJson(a), EventJson(b), {})
    ensures a == b
  {
    SameEventSameValues(a, b);
    KindTextDecides(a, b);
    match a {
      case RunStarted(_, _, _, _, _) => StartedInjective(a, b);
      case ToolCalled(_, _, _, _) => CalledInjective(a, b);
      case HumanIntervened(_, _, _, _) => IntervenedInjective(a, b);
      case UsageRecorded(_, _, _, _) => UsageInjective(a, b);
      case RecordRetrieved(_, _, _) => PlainInjective(a, b);
      case ModelInvoked(_, _, _, _) => PlainInjective(a, b);
      case GuardrailEvaluated(_, _, _) => ClosingInjective(a, b);
      case RunFinished(_) => ClosingInjective(a, b);
    }
  }

  lemma EntryValue(a: Entry, b: Entry, i: nat)
    requires SameTree(HashableJson(a), HashableJson(b), {}) && i < 5
    ensures SameTree(EntryValues(a)[i], EntryValues(b)[i], {})
  {
    EntryNamesDistinct();
    RecordValue(ENTRY_NAMES, EntryValues(a), EntryValues(b), i);
  }

  /** The text an entry hashes determines everything the entry says: the chain's assumption about its hash input. */
  lemma HashableEntryInjective(a: Entry, b: Entry)
    ensures HashableEntry(a) == HashableEntry(b) <==> SameContent(a, b)
  {
    if HashableEntry(a) == HashableEntry(b) {
      HashableSound(a);
      HashableSound(b);
      CanonicalTextInjective(HashableJson(a), HashableJson(b));
      EntryValue(a, b, 0);
      EntryValue(a, b, 1);
      EntryValue(a, b, 2);
      EntryValue(a, b, 3);
      EntryValue(a, b, 4);
      DecimalInjective(a.seqNo, b.seqNo);
      DecimalInjective(a.at, b.at);
      EventInjective(a.event, b.event);
    }
  }

  /** An entry's hash as the program computes it. */
  function CanonicalHasher(hash: Text -> Text): EntryHasher {
    entry => hash(HashableEntry(entry))
  }

  /** Hashing the canonical text with an injective hash commits to the entry: the chain's one assumption. */
  lemma CanonicalHashCommits(hash: Text -> Text)
    requires forall s, t :: hash(s) == hash(t) ==> s == t
    ensures Commits(CanonicalHasher(hash))
  {
    var h := CanonicalHasher(hash);
    forall a, b ensures h(a) == h(b) <==> SameContent(a, b) {
      HashableEntryInjective(a, b);
    }
  }
}
