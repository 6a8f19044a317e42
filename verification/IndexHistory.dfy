/**
 Why an index may delete on read: over any history of queries, upserts and offboardings, with seals and destructions
 going on all the while, it answers as an index that never deletes would
 (src/knowledge/infrastructure/in-memory-vector-index.ts, sqlite-vector-index.ts).
 */
module IndexHistory {
  import opened Outcomes
  import opened Texts
  import opened Custody
  import opened VectorIndex
  import opened Sorting

  /** The key store's operations, one after another, without end. */
  datatype Timeline = Timeline(start: State, ops: nat -> Op)

  function At(t: Timeline, n: nat): State {
    if n == 0 then t.start else Apply(At(t, n - 1), t.ops(n - 1))
  }

  ghost predicate AdmissibleAt(t: Timeline, n: nat) {
    Admissible(At(t, n), t.ops(n))
  }

  ghost predicate Runs(t: Timeline) {
    WellKept(t.start.custodian) && forall n: nat :: AdmissibleAt(t, n)
  }

  lemma {:induction false} AlwaysWell(t: Timeline, n: nat)
    requires Runs(t)
    ensures WellKept(At(t, n).custodian)
  {
    if n > 0 {
      AlwaysWell(t, n - 1);
      assert AdmissibleAt(t, n - 1);
      ApplyKeepsWell(At(t, n - 1), t.ops(n - 1));
    }
  }

  lemma {:induction false} LostStaysLost(t: Timeline, n: nat, m: nat, sealed: SealedContent, plaintext: Text)
    requires Runs(t) && n <= m && Genuine(At(t, n), sealed, plaintext)
    ensures Genuine(At(t, m), sealed, plaintext)
    ensures Live(At(t, m), sealed) ==> Live(At(t, n), sealed)
    decreases m - n
  {
    if n < m {
      LostStaysLost(t, n, m - 1, sealed, plaintext);
      AlwaysWell(t, m - 1);
      assert AdmissibleAt(t, m - 1);
      ApplyKeeps(At(t, m - 1), t.ops(m - 1), sealed, plaintext);
    }
  }

  /** What each document's embedding was sealed from, and how embeddings are read. */
  datatype Contents = Contents(plain: IndexedDocument -> Text, codec: Codec)

  ghost predicate SealedBy(t: Timeline, k: Contents, document: IndexedDocument, n: nat) {
    Genuine(At(t, n), document.embedding, k.plain(document))
  }

  /** It cannot be read any more, or never held an embedding. */
  predicate Hopeless(t: Timeline, k: Contents, document: IndexedDocument, n: nat) {
    !Live(At(t, n), document.embedding) || k.codec.decode(k.plain(document)).None?
  }

  /**
   Something done to the index between two instants; each document of a query is asked for at an instant of its own, and
   each of the two custodian calls may fail to get through.
   */
  datatype Step =
    | Query(since: nat, upto: nat, query: ScopedQuery, when: IndexedDocument -> nat, reach: IndexedDocument -> Reach)
    | Upsert(since: nat, upto: nat, document: IndexedDocument)
    | DropNamespace(since: nat, upto: nat, namespace: Text)

  function Asked(t: Timeline, step: Step): Ask
    requires step.Query?
  {
    (document: IndexedDocument) => Unseal(At(t, step.when(document)), document.embedding, step.reach(document))
  }

  ghost predicate Timely(t: Timeline, k: Contents, steps: seq<Step>, n: nat)
    decreases |steps|
  {
    |steps| > 0 ==>
      && n <= steps[0].since <= steps[0].upto
      && (steps[0].Query? ==> forall d :: steps[0].since <= steps[0].when(d) <= steps[0].upto)
      && (steps[0].Upsert? ==> SealedBy(t, k, steps[0].document, steps[0].upto))
      && Timely(t, k, steps[1..], steps[0].upto)
  }

  /** The best readable documents of the namespace. */
  function Ideal(t: Timeline, k: Contents, documents: seq<IndexedDocument>, step: Step): seq<Match>
    requires step.Query?
  {
    TopOf(MatchesOf(InNamespace(documents, step.query.namespace), step.query, Asked(t, step), k.codec), step.query.topK)
  }

  /**
   `held` is what the index holds and `all` what it would hold if it never deleted on read: every query that answers
   gives the best readable documents of all, and one that does not leaves the index as it was.
   */
  ghost predicate Undiminished(t: Timeline, k: Contents, held: seq<IndexedDocument>, all: seq<IndexedDocument>,
                               steps: seq<Step>)
    decreases |steps|
  {
    |steps| > 0 ==>
      match steps[0]
      case Query(_, _, query, _, _) =>
        var (answer, left) := AfterQuery(held, query, Asked(t, steps[0]), k.codec);
        && (answer.Ok? ==> answer.value == Ideal(t, k, all, steps[0]))
        && (answer.Err? ==> left == held && !IsTerminalFailure(answer.error))
        && Undiminished(t, k, left, all, steps[1..])
      case Upsert(_, _, document) => Undiminished(t, k, Upserted(held, document), Upserted(all, document), steps[1..])
      case DropNamespace(_, _, namespace) =>
        Undiminished(t, k, OutsideNamespace(held, namespace), OutsideNamespace(all, namespace), steps[1..])
  }

  // ---- What is missing does not matter ----------------------------------------------------------------------------

  ghost predicate Missing(t: Timeline, k: Contents, gone: set<IndexedDocument>, n: nat) {
    forall d | d in gone :: SealedBy(t, k, d, n) && Hopeless(t, k, d, n)
  }

  ghost predicate AllSealed(t: Timeline, k: Contents, documents: seq<IndexedDocument>, n: nat) {
    forall d | d in documents :: SealedBy(t, k, d, n)
  }

  lemma LaterToo(t: Timeline, k: Contents, documents: seq<IndexedDocument>, gone: set<IndexedDocument>, n: nat, m: nat)
    requires Runs(t) && n <= m && Missing(t, k, gone, n) && AllSealed(t, k, documents, n)
    ensures Missing(t, k, gone, m) && AllSealed(t, k, documents, m)
  {
    forall d | d in gone ensures SealedBy(t, k, d, m) && Hopeless(t, k, d, m) {
      LostStaysLost(t, n, m, d.embedding, k.plain(d));
    }
    forall d | d in documents ensures SealedBy(t, k, d, m) { LostStaysLost(t, n, m, d.embedding, k.plain(d)); }
  }

  /**
   What could not be read at some instant of the step cannot be read later, and what could not be read before cannot be
   read now.
   */
  lemma AskedOnce(t: Timeline, k: Contents, step: Step, d: IndexedDocument, n: nat)
    requires Runs(t) && step.Query? && n <= step.when(d) <= step.upto && SealedBy(t, k, d, n)
    ensures Hopeless(t, k, d, n) ==> MatchOf(d, step.query, Asked(t, step), k.codec).None?
    ensures MatchOf(d, step.query, Asked(t, step), k.codec).None? && !IsOutage(Asked(t, step)(d))
            ==> Hopeless(t, k, d, step.upto)
  {
    LostStaysLost(t, n, step.when(d), d.embedding, k.plain(d));
    LostStaysLost(t, step.when(d), step.upto, d.embedding, k.plain(d));
    AlwaysWell(t, step.when(d));
    GenuineOpens(At(t, step.when(d)), d.embedding, k.plain(d));
  }

  lemma {:induction false} MissingScoreNothing(all: seq<IndexedDocument>, gone: set<IndexedDocument>,
                                               query: ScopedQuery, ask: Ask, codec: Codec)
    requires forall d | d in gone :: MatchOf(d, query, ask, codec).None?
    ensures MatchesOf(InNamespace(Without(all, gone), query.namespace), query, ask, codec)
            == MatchesOf(InNamespace(all, query.namespace), query, ask, codec)
  {
    if |all| > 0 { MissingScoreNothing(all[1..], gone, query, ask, codec); }
  }

  lemma {:induction false} WithoutTwice(all: seq<IndexedDocument>, gone: set<IndexedDocument>,
                                        more: set<IndexedDocument>)
    ensures Without(Without(all, gone), more) == Without(all, gone + more)
  {
    if |all| > 0 { WithoutTwice(all[1..], gone, more); }
  }

  lemma {:induction false} OutsideWithout(all: seq<IndexedDocument>, gone: set<IndexedDocument>, namespace: Text)
    ensures OutsideNamespace(Without(all, gone), namespace) == Without(OutsideNamespace(all, namespace), gone)
  {
    if |all| > 0 { OutsideWithout(all[1..], gone, namespace); }
  }

  lemma {:induction false} NoOutageMeansNone(candidates: seq<IndexedDocument>, ask: Ask)
    requires FirstOutage(candidates, ask).None?
    ensures forall d | d in candidates :: !IsOutage(ask(d))
  {
    if |candidates| > 0 {
      NoOutageMeansNone(candidates[1..], ask);
      assert candidates == [candidates[0]] + candidates[1..];
    }
  }

  lemma {:induction false} OutageIsPassing(candidates: seq<IndexedDocument>, ask: Ask)
    ensures FirstOutage(candidates, ask).Some? ==> !IsTerminalFailure(FirstOutage(candidates, ask).value)
  {
    if |candidates| > 0 { OutageIsPassing(candidates[1..], ask); }
  }

  lemma {:induction false} HeadIsFirst(rows: seq<IndexedDocument>, gone: set<IndexedDocument>,
                                       document: IndexedDocument)
    requires forall d | d in rows :: KeyBefore(document, d)
    ensures Upserted(Without(rows, gone), document) == [document] + Without(rows, gone)
  {
    WithoutKeepsKeyed(rows, gone);
  }

  lemma {:induction false} UpsertWithout(all: seq<IndexedDocument>, gone: set<IndexedDocument>,
                                         document: IndexedDocument)
    requires Keyed(all)
    ensures Upserted(Without(all, gone), document) == Without(Upserted(all, document), gone - {document})
  {
    if |all| > 0 {
      KeyOrder(document, all[0], all[0]);
      KeyOrder(all[0], document, document);
      if KeyBefore(document, all[0]) {
        forall d | d in all ensures KeyBefore(document, d) {
          var j :| 0 <= j < |all| && all[j] == d;
          KeyOrder(document, all[0], d);
        }
        HeadIsFirst(all, gone, document);
        SameWithout(all, gone, document);
      } else if SameKey(all[0], document) {
        forall d | d in all[1..] ensures KeyBefore(document, d) {
          var j :| 0 <= j < |all[1..]| && all[1..][j] == d;
          assert KeyBefore(all[0], all[j + 1]);
          KeyOrder(all[0], document, d);
        }
        HeadIsFirst(all[1..], gone, document);
        SameWithout(all[1..], gone, document);
      } else {
        UpsertWithout(all[1..], gone, document);
      }
    }
  }

  lemma {:induction false} SameWithout(rows: seq<IndexedDocument>, gone: set<IndexedDocument>,
                                       document: IndexedDocument)
    requires forall d | d in rows :: KeyBefore(document, d)
    ensures Without(rows, gone - {document}) == Without(rows, gone)
  {
    if |rows| > 0 {
      KeyOrder(document, document, document);
      assert rows[0] in rows;
      SameWithout(rows[1..], gone, document);
    }
  }

  /** One query, for an index that misses only what is hopeless. */
  lemma QueryStep(t: Timeline, k: Contents, held: seq<IndexedDocument>, all: seq<IndexedDocument>,
                  gone: set<IndexedDocument>, step: Step, n: nat)
    returns (more: set<IndexedDocument>)
    requires Runs(t) && step.Query? && n <= step.since <= step.upto && forall d ::
             step.since <= step.when(d) <= step.upto
    requires held == Without(all, gone) && Missing(t, k, gone, n) && AllSealed(t, k, all, n)
    ensures var (answer, left) := AfterQuery(held, step.query, Asked(t, step), k.codec);
            && (answer.Ok? ==> answer.value == Ideal(t, k, all, step))
            && (answer.Err? ==> left == held && !IsTerminalFailure(answer.error))
            && left == Without(all, more)
    ensures Missing(t, k, more, step.upto)
  {
    var ask := Asked(t, step);
    var candidates := InNamespace(held, step.query.namespace);
    forall d | d in gone ensures MatchOf(d, step.query, ask, k.codec).None? { AskedOnce(t, k, step, d, n); }
    MissingScoreNothing(all, gone, step.query, ask, k.codec);
    OutageIsPassing(candidates, ask);
    LaterToo(t, k, all, gone, n, step.upto);
    if FirstOutage(candidates, ask).None? {
      var unreadable := UnreadableOf(candidates, step.query, ask, k.codec);
      more := gone + unreadable;
      WithoutTwice(all, gone, unreadable);
      NoOutageMeansNone(candidates, ask);
      CandidatesAreRows(held, step.query.namespace);
      WithoutKeepsKeyed(all, gone);
      forall d | d in unreadable ensures SealedBy(t, k, d, step.upto) && Hopeless(t, k, d, step.upto) {
        AskedOnce(t, k, step, d, n);
      }
    } else {
      more := gone;
    }
  }

  predicate OnlyQueries(steps: seq<Step>) {
    forall i | 0 <= i < |steps| :: steps[i].Query?
  }

  lemma {:induction false} MissingOnlyTheHopeless(t: Timeline, k: Contents, held: seq<IndexedDocument>,
                                                  all: seq<IndexedDocument>,
                                                  gone: set<IndexedDocument>, steps: seq<Step>, n: nat)
    requires Runs(t) && Timely(t, k, steps, n) && (Keyed(all) || OnlyQueries(steps))
    requires held == Without(all, gone) && Missing(t, k, gone, n) && AllSealed(t, k, all, n)
    ensures Undiminished(t, k, held, all, steps)
    decreases |steps|
  {
    if |steps| > 0 {
      var step := steps[0];
      LaterToo(t, k, all, gone, n, step.upto);
      match step
      case Query(_, _, query, _, _) =>
        var more := QueryStep(t, k, held, all, gone, step, n);
        var (_, left) := AfterQuery(held, query, Asked(t, step), k.codec);
        MissingOnlyTheHopeless(t, k, left, all, more, steps[1..], step.upto);
      case Upsert(_, _, document) =>
        UpsertKeepsKeyed(all, document);
        UpsertWithout(all, gone, document);
        MissingOnlyTheHopeless(t, k, Upserted(held, document), Upserted(all, document), gone - {document}, steps[1..],
                               step.upto);
      case DropNamespace(_, _, namespace) =>
        OutsideKeepsKeyed(all, namespace);
        OutsideWithout(all, gone, namespace);
        MissingOnlyTheHopeless(t, k, OutsideNamespace(held, namespace), OutsideNamespace(all, namespace), gone,
                               steps[1..], step.upto);
    }
  }

  /** The stored index, from empty: any history of upserts, queries and offboardings. */
  lemma StoredIndexLosesNothing(t: Timeline, k: Contents, steps: seq<Step>)
    requires Runs(t) && Timely(t, k, steps, 0)
    ensures Undiminished(t, k, [], [], steps)
  {
    MissingOnlyTheHopeless(t, k, [], [], {}, steps, 0);
  }

  /** The index in memory, from any documents the key store sealed: any history of queries. */
  lemma MemoryIndexLosesNothing(t: Timeline, k: Contents, documents: seq<IndexedDocument>, steps: seq<Step>)
    requires Runs(t) && Timely(t, k, steps, 0) && OnlyQueries(steps) && AllSealed(t, k, documents, 0)
    ensures Undiminished(t, k, documents, documents, steps)
  {
    WithoutNone(documents);
    MissingOnlyTheHopeless(t, k, documents, documents, {}, steps, 0);
  }

  // ---- Namespaces --------------------------------------------------------------------------------------------------

  lemma {:induction false} OnlyCandidatesAsked(candidates: seq<IndexedDocument>, query: ScopedQuery, a: Ask, b: Ask,
                                               codec: Codec)
    requires forall d | d in candidates :: a(d) == b(d)
    ensures FirstOutage(candidates, a) == FirstOutage(candidates, b)
    ensures MatchesOf(candidates, query, a, codec) == MatchesOf(candidates, query, b, codec)
  {
    if |candidates| > 0 {
      assert candidates == [candidates[0]] + candidates[1..];
      OnlyCandidatesAsked(candidates[1..], query, a, b, codec);
    }
  }

  lemma {:induction false} OthersStay(rows: seq<IndexedDocument>, gone: set<IndexedDocument>, namespace: Text)
    requires forall d | d in gone :: d.namespace == namespace
    ensures OutsideNamespace(Without(rows, gone), namespace) == OutsideNamespace(rows, namespace)
  {
    if |rows| > 0 { OthersStay(rows[1..], gone, namespace); }
  }

  lemma {:induction false} MatchesAreCandidates(candidates: seq<IndexedDocument>, query: ScopedQuery, ask: Ask,
                                                codec: Codec, m: Match)
    requires m in MatchesOf(candidates, query, ask, codec)
    ensures exists d :: d in candidates && MatchOf(d, query, ask, codec) == Some(m)
  {
    if MatchOf(candidates[0], query, ask, codec) == Some(m) {
      assert candidates[0] in candidates;
    } else {
      MatchesAreCandidates(candidates[1..], query, ask, codec, m);
      var d :| d in candidates[1..] && MatchOf(d, query, ask, codec) == Some(m);
      assert d in candidates;
    }
  }

  /** An answer names documents of the query's own namespace only. */
  lemma AnswersComeFromTheNamespace(documents: seq<IndexedDocument>, query: ScopedQuery, ask: Ask, codec: Codec,
                                    m: Match)
    requires var answer := AfterQuery(documents, query, ask, codec).0;
             answer.Ok? && m in answer.value
    ensures m.namespace == query.namespace
    ensures exists d :: d in documents && d.namespace == query.namespace && MatchOf(d, query, ask, codec) == Some(m)
  {
    var candidates := InNamespace(documents, query.namespace);
    var matches := MatchesOf(candidates, query, ask, codec);
    CandidatesAreRows(documents, query.namespace);
    SortPermutes(matches, MoreSimilar);
    assert m in SortBy(matches, MoreSimilar);
    assert m in multiset(matches);
    MatchesAreCandidates(candidates, query, ask, codec, m);
  }

  /** A query never depends on another tenant's keys, and never returns or deletes another tenant's documents. */
  lemma NamespacesAreApart(documents: seq<IndexedDocument>, query: ScopedQuery, a: Ask, b: Ask, codec: Codec)
    requires forall d: IndexedDocument | d.namespace == query.namespace :: a(d) == b(d)
    ensures AfterQuery(documents, query, a, codec) == AfterQuery(documents, query, b, codec)
    ensures OutsideNamespace(AfterQuery(documents, query, a, codec).1, query.namespace)
            == OutsideNamespace(documents, query.namespace)
    ensures var answer := AfterQuery(documents, query, a, codec).0;
            answer.Ok? ==> forall m | m in answer.value :: m.namespace == query.namespace
  {
    var answer := AfterQuery(documents, query, a, codec).0;
    if answer.Ok? {
      forall m | m in answer.value ensures m.namespace == query.namespace {
        AnswersComeFromTheNamespace(documents, query, a, codec, m);
      }
    }
    var candidates := InNamespace(documents, query.namespace);
    CandidatesAreRows(documents, query.namespace);
    OnlyCandidatesAsked(candidates, query, a, b, codec);
    assert UnreadableOf(candidates, query, a, codec) == UnreadableOf(candidates, query, b, codec);
    OthersStay(documents, UnreadableOf(candidates, query, a, codec), query.namespace);
  }
}
