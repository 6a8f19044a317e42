/**
 Sealed vector indexes that delete what they cannot unseal
 (src/knowledge/infrastructure/in-memory-vector-index.ts, sqlite-vector-index.ts, src/knowledge/domain/scoped-query.ts).

 `ask` is what the key store answers for each document during one query. A stored row that does not parse is one whose
 document the key store calls corrupt.
 */
module VectorIndex {
  import opened Outcomes
  import opened Texts
  import opened Sorting
  import opened Custody

  datatype IndexedDocument = IndexedDocument(namespace: Text, documentId: Text, embedding: SealedContent)

  datatype ScopedQuery = ScopedQuery(namespace: Text, embedding: seq<real>, topK: int)

  datatype Match = Match(namespace: Text, documentId: Text, score: real)

  type Ask = IndexedDocument -> Result<Text, KeyStoreFailure>

  /** How an unsealed embedding is read, and how two embeddings compare. */
  datatype Codec = Codec(decode: Text -> Option<seq<real>>, similarity: (seq<real>, seq<real>) -> real)

  // ---- What one query does ----------------------------------------------------------------------------------------

  predicate IsOutage(answer: Result<Text, KeyStoreFailure>) {
    answer.Err? && !IsTerminalFailure(answer.error)
  }

  /** The document's place in the answer, if it can be read. */
  function MatchOf(document: IndexedDocument, query: ScopedQuery, ask: Ask, codec: Codec): Option<Match> {
    var unsealed := ask(document);
    if unsealed.Err? || codec.decode(unsealed.value).None? then None
    else Some(Match(document.namespace, document.documentId,
                    codec.similarity(codec.decode(unsealed.value).value, query.embedding)))
  }

  function InNamespace(documents: seq<IndexedDocument>, namespace: Text): seq<IndexedDocument> {
    if |documents| == 0 then []
    else if documents[0].namespace == namespace then [documents[0]] + InNamespace(documents[1..], namespace)
    else InNamespace(documents[1..], namespace)
  }

  function Without(documents: seq<IndexedDocument>, gone: set<IndexedDocument>): seq<IndexedDocument> {
    if |documents| == 0 then []
    else if documents[0] in gone then Without(documents[1..], gone)
    else [documents[0]] + Without(documents[1..], gone)
  }

  function MatchesOf(candidates: seq<IndexedDocument>, query: ScopedQuery, ask: Ask, codec: Codec): seq<Match> {
    if |candidates| == 0 then []
    else
      var rest := MatchesOf(candidates[1..], query, ask, codec);
      var m := MatchOf(candidates[0], query, ask, codec);
      if m.Some? then [m.value] + rest else rest
  }

  function FirstOutage(candidates: seq<IndexedDocument>, ask: Ask): Option<KeyStoreFailure> {
    if |candidates| == 0 then None
    else if IsOutage(ask(candidates[0])) then Some(ask(candidates[0]).error)
    else FirstOutage(candidates[1..], ask)
  }

  function UnreadableOf(candidates: seq<IndexedDocument>, query: ScopedQuery, ask: Ask,
                        codec: Codec): set<IndexedDocument> {
    set i | 0 <= i < |candidates| && MatchOf(candidates[i], query, ask, codec).None? :: candidates[i]
  }

  predicate MoreSimilar(a: Match, b: Match) { a.score > b.score }

  /** `slice(0, end)`: a negative end counts from the back. */
  function SliceTo<T>(xs: seq<T>, end: int): seq<T> {
    if end >= |xs| then xs else if end >= 0 then xs[..end] else if |xs| + end >= 0 then xs[..|xs| + end] else []
  }

  function TopOf(matches: seq<Match>, topK: int): seq<Match> {
    SliceTo(SortBy(matches, MoreSimilar), topK)
  }

  /** The answer, and the documents left; an outage fails the query and leaves them all. */
  function AfterQuery(documents: seq<IndexedDocument>, query: ScopedQuery, ask: Ask, codec: Codec)
    : (Result<seq<Match>, KeyStoreFailure>, seq<IndexedDocument>)
  {
    var candidates := InNamespace(documents, query.namespace);
    var outage := FirstOutage(candidates, ask);
    if outage.Some? then (Err(outage.value), documents)
    else (Ok(TopOf(MatchesOf(candidates, query, ask, codec), query.topK)),
          Without(documents, UnreadableOf(candidates, query, ask, codec)))
  }

  lemma SimilarityIsWeakOrder()
    ensures WeakOrder(MoreSimilar)
  {
  }

  /** With a limit, the answer is that many of the best: nothing left out scores more than anything returned. */
  lemma TopIsBest(matches: seq<Match>, topK: nat)
    ensures var sorted := SortBy(matches, MoreSimilar);
            && multiset(sorted) == multiset(matches)
            && TopOf(matches, topK) == sorted[..if topK < |sorted| then topK else |sorted|]
            && forall i, j | 0 <= i < j < |sorted| :: sorted[i].score >= sorted[j].score
  {
    SimilarityIsWeakOrder();
    SortPermutes(matches, MoreSimilar);
    SortOrders(matches, MoreSimilar);
    var sorted := SortBy(matches, MoreSimilar);
    forall i, j | 0 <= i < j < |sorted| ensures sorted[i].score >= sorted[j].score {
      assert !MoreSimilar(sorted[j], sorted[i]);
    }
  }

  // ---- The indexes as the program runs them ------------------------------------------------------------------------

  method ReadCandidates(candidates: seq<IndexedDocument>, query: ScopedQuery, ask: Ask, codec: Codec)
    returns (outage: Option<KeyStoreFailure>, scored: seq<Match>, unreadable: set<IndexedDocument>)
    ensures outage == FirstOutage(candidates, ask)
    ensures outage.None? ==>
              scored == MatchesOf(candidates, query, ask, codec)
              && unreadable == UnreadableOf(candidates, query, ask, codec)
  {
    scored, unreadable := [], {};
    assert candidates[0..] == candidates;
    for i := 0 to |candidates|
      invariant FirstOutage(candidates, ask) == FirstOutage(candidates[i..], ask)
      invariant MatchesOf(candidates, query, ask, codec) == scored + MatchesOf(candidates[i..], query, ask, codec)
      invariant forall d :: d in unreadable <==>
                            exists j :: 0 <= j < i && candidates[j] == d && MatchOf(d, query, ask, codec).None?
    {
      assert candidates[i..][1..] == candidates[i + 1..];
      var document := candidates[i];
      var answer := ask(document);
      if answer.Err? {
        if !IsTerminalFailure(answer.error) {
          return Some(answer.error), [], {};
        }
        unreadable := unreadable + {document};
      } else {
        var embedding := codec.decode(answer.value);
        if embedding.None? {
          unreadable := unreadable + {document};
        } else {
          scored := scored + [Match(document.namespace, document.documentId,
                                    codec.similarity(embedding.value, query.embedding))];
        }
      }
    }
    return None, scored, unreadable;
  }

  method Filtered(documents: seq<IndexedDocument>, namespace: Text) returns (candidates: seq<IndexedDocument>)
    ensures candidates == InNamespace(documents, namespace)
  {
    candidates := [];
    assert documents[0..] == documents;
    for i := 0 to |documents|
      invariant InNamespace(documents, namespace) == candidates + InNamespace(documents[i..], namespace)
    {
      assert documents[i..][1..] == documents[i + 1..];
      if documents[i].namespace == namespace {
        candidates := candidates + [documents[i]];
      }
    }
  }

  class InMemoryVectorIndex {
    var documents: seq<IndexedDocument>

    constructor (documents: seq<IndexedDocument>)
      ensures this.documents == documents
    {
      this.documents := documents;
    }

    method Query(query: ScopedQuery, ask: Ask, codec: Codec) returns (r: Result<seq<Match>, KeyStoreFailure>)
      modifies this
      ensures (r, documents) == AfterQuery(old(documents), query, ask, codec)
    {
      var candidates := Filtered(documents, query.namespace);
      var outage, scored, unreadable := ReadCandidates(candidates, query, ask, codec);
      if outage.Some? {
        return Err(outage.value);
      }
      if |unreadable| > 0 {
        documents := Without(documents, unreadable);
      } else {
        WithoutNone(documents);
      }
      return Ok(SliceTo(SortBy(scored, MoreSimilar), query.topK));
    }
  }

  lemma {:induction false} WithoutNone(documents: seq<IndexedDocument>)
    ensures Without(documents, {}) == documents
  {
    if |documents| > 0 { WithoutNone(documents[1..]); }
  }

  // ---- Rows by primary key ----------------------------------------------------------------------------------------

  predicate SameKey(a: IndexedDocument, b: IndexedDocument) {
    a.namespace == b.namespace && a.documentId == b.documentId
  }

  predicate KeyBefore(a: IndexedDocument, b: IndexedDocument) {
    LexLess(a.namespace, b.namespace) || (a.namespace == b.namespace && LexLess(a.documentId, b.documentId))
  }

  /** Rows come in primary-key order, one for a key. */
  ghost predicate Keyed(rows: seq<IndexedDocument>) {
    forall i, j | 0 <= i < j < |rows| :: KeyBefore(rows[i], rows[j])
  }

  function Upserted(rows: seq<IndexedDocument>, document: IndexedDocument): seq<IndexedDocument> {
    if |rows| == 0 || KeyBefore(document, rows[0]) then [document] + rows
    else if SameKey(rows[0], document) then [document] + rows[1..]
    else [rows[0]] + Upserted(rows[1..], document)
  }

  function OutsideNamespace(rows: seq<IndexedDocument>, namespace: Text): seq<IndexedDocument> {
    if |rows| == 0 then []
    else if rows[0].namespace == namespace then OutsideNamespace(rows[1..], namespace)
    else [rows[0]] + OutsideNamespace(rows[1..], namespace)
  }

  lemma KeyOrder(a: IndexedDocument, b: IndexedDocument, c: IndexedDocument)
    ensures SameKey(a, b) <==> !KeyBefore(a, b) && !KeyBefore(b, a)
    ensures !(KeyBefore(a, b) && KeyBefore(b, a))
    ensures KeyBefore(a, b) && KeyBefore(b, c) ==> KeyBefore(a, c)
    ensures SameKey(a, b) ==> (KeyBefore(a, c) <==> KeyBefore(b, c)) && (KeyBefore(c, a) <==> KeyBefore(c, b))
  {
    LexTotal(a.namespace, b.namespace);
    LexTotal(a.documentId, b.documentId);
    if LexLess(a.namespace, b.namespace) && LexLess(b.namespace, c.namespace) {
      LexTransitive(a.namespace, b.namespace, c.namespace);
    }
    if LexLess(a.documentId, b.documentId) && LexLess(b.documentId, c.documentId) {
      LexTransitive(a.documentId, b.documentId, c.documentId);
    }
  }

  lemma KeyedCons(first: IndexedDocument, rest: seq<IndexedDocument>)
    requires Keyed(rest) && forall d | d in rest :: KeyBefore(first, d)
    ensures Keyed([first] + rest)
  {
  }

  lemma {:induction false} UpsertKeepsKeyed(rows: seq<IndexedDocument>, document: IndexedDocument)
    requires Keyed(rows)
    ensures Keyed(Upserted(rows, document))
    ensures forall d :: d in Upserted(rows, document) <==> d == document || (d in rows && !SameKey(d, document))
  {
    if |rows| > 0 {
      forall k | 0 <= k < |rows|
          ensures KeyBefore(document, rows[0]) ==> KeyBefore(document, rows[k]) && !SameKey(rows[k], document) {
        KeyOrder(document, rows[0], rows[k]);
        KeyOrder(document, rows[k], rows[k]);
      }
      if !KeyBefore(document, rows[0]) {
        forall k | 0 < k < |rows|
            ensures SameKey(rows[0], document) ==> KeyBefore(document, rows[k]) && !SameKey(rows[k], document) {
          KeyOrder(rows[0], document, rows[k]);
          KeyOrder(document, rows[k], rows[k]);
        }
        KeyOrder(rows[0], document, document);
        if !SameKey(rows[0], document) {
          UpsertKeepsKeyed(rows[1..], document);
          KeyOrder(rows[0], document, document);
          KeyedCons(rows[0], Upserted(rows[1..], document));
        }
      }
    }
  }

  function IdsOf(documents: set<IndexedDocument>): set<Text> {
    set d | d in documents :: d.documentId
  }

  /** What is left after deleting the rows of one namespace that have these ids. */
  function WithoutKeys(rows: seq<IndexedDocument>, namespace: Text, ids: set<Text>): seq<IndexedDocument> {
    if |rows| == 0 then []
    else if rows[0].namespace == namespace && rows[0].documentId in ids then WithoutKeys(rows[1..], namespace, ids)
    else [rows[0]] + WithoutKeys(rows[1..], namespace, ids)
  }

  /** Deleting by key deletes exactly the rows that could not be read. */
  lemma {:induction false} DeleteByKey(all: seq<IndexedDocument>, rows: seq<IndexedDocument>, namespace: Text,
                                       gone: set<IndexedDocument>)
    requires Keyed(all) && forall d | d in gone :: d in all && d.namespace == namespace
    requires forall d | d in rows :: d in all
    ensures WithoutKeys(rows, namespace, IdsOf(gone)) == Without(rows, gone)
    decreases |rows|
  {
    if |rows| > 0 {
      DeleteByKey(all, rows[1..], namespace, gone);
      var row := rows[0];
      if row.namespace == namespace && row.documentId in IdsOf(gone) {
        var d :| d in gone && d.documentId == row.documentId;
        OneRowForAKey(all, d, row);
      }
    }
  }

  lemma OneRowForAKey(all: seq<IndexedDocument>, a: IndexedDocument, b: IndexedDocument)
    requires Keyed(all) && a in all && b in all && SameKey(a, b)
    ensures a == b
  {
    var i :| 0 <= i < |all| && all[i] == a;
    var j :| 0 <= j < |all| && all[j] == b;
    KeyOrder(a, b, b);
  }

  lemma {:induction false} CandidatesAreRows(rows: seq<IndexedDocument>, namespace: Text)
    ensures forall d :: d in InNamespace(rows, namespace) <==> d in rows && d.namespace == namespace
  {
    if |rows| > 0 {
      CandidatesAreRows(rows[1..], namespace);
      assert rows == [rows[0]] + rows[1..];
    }
  }

  class SqliteVectorIndex {
    var rows: seq<IndexedDocument>

    constructor ()
      ensures rows == [] && Keyed(rows)
    {
      rows := [];
    }

    method Upsert(document: IndexedDocument)
      requires Keyed(rows)
      modifies this
      ensures rows == Upserted(old(rows), document) && Keyed(rows)
    {
      UpsertKeepsKeyed(rows, document);
      rows := Upserted(rows, document);
    }

    method Query(query: ScopedQuery, ask: Ask, codec: Codec) returns (r: Result<seq<Match>, KeyStoreFailure>)
      requires Keyed(rows)
      modifies this
      ensures (r, rows) == AfterQuery(old(rows), query, ask, codec) && Keyed(rows)
    {
      var candidates := Filtered(rows, query.namespace);
      var outage, scored, unreadable := ReadCandidates(candidates, query, ask, codec);
      if outage.Some? {
        return Err(outage.value);
      }
      WithoutKeepsKeyed(rows, unreadable);
      CandidatesAreRows(rows, query.namespace);
      DeleteByKey(rows, rows, query.namespace, unreadable);
      rows := WithoutKeys(rows, query.namespace, IdsOf(unreadable));
      return Ok(SliceTo(SortBy(scored, MoreSimilar), query.topK));
    }

    method DropNamespace(namespace: Text) returns (count: nat)
      requires Keyed(rows)
      modifies this
      ensures rows == OutsideNamespace(old(rows), namespace) && Keyed(rows)
      ensures count == |InNamespace(old(rows), namespace)|
    {
      OutsideKeepsKeyed(rows, namespace);
      count := |rows| - |OutsideNamespace(rows, namespace)|;
      rows := OutsideNamespace(rows, namespace);
    }
  }

  lemma {:induction false} WithoutKeepsKeyed(rows: seq<IndexedDocument>, gone: set<IndexedDocument>)
    ensures Keyed(rows) ==> Keyed(Without(rows, gone))
    ensures forall d :: d in Without(rows, gone) <==> d in rows && d !in gone
  {
    if |rows| > 0 {
      WithoutKeepsKeyed(rows[1..], gone);
      assert rows == [rows[0]] + rows[1..];
      if Keyed(rows) { KeyedCons(rows[0], Without(rows[1..], gone)); }
    }
  }

  lemma {:induction false} OutsideKeepsKeyed(rows: seq<IndexedDocument>, namespace: Text)
    ensures Keyed(rows) ==> Keyed(OutsideNamespace(rows, namespace))
    ensures forall d :: d in OutsideNamespace(rows, namespace) <==> d in rows && d.namespace != namespace
    ensures |rows| == |OutsideNamespace(rows, namespace)| + |InNamespace(rows, namespace)|
  {
    if |rows| > 0 {
      OutsideKeepsKeyed(rows[1..], namespace);
      assert rows == [rows[0]] + rows[1..];
      if Keyed(rows) { KeyedCons(rows[0], OutsideNamespace(rows[1..], namespace)); }
    }
  }
}
