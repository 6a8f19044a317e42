/**
 What a query answers, told of the documents themselves
 (src/knowledge/infrastructure/in-memory-vector-index.ts, sqlite-vector-index.ts).
 */
module QueryAnswers {
  import opened Outcomes
  import opened Texts
  import opened Sorting
  import opened VectorIndex

  /** A document of the query's namespace that opens and holds an embedding. */
  predicate Readable(d: IndexedDocument, query: ScopedQuery, ask: Ask, codec: Codec) {
    d.namespace == query.namespace && ask(d).Ok? && codec.decode(ask(d).value).Some?
  }

  /** How similar the embedding it holds is to the query's. */
  function SimilarityTo(d: IndexedDocument, query: ScopedQuery, ask: Ask, codec: Codec): real
    requires Readable(d, query, ask, codec)
  {
    codec.similarity(codec.decode(ask(d).value).value, query.embedding)
  }

  predicate ReadableAt(documents: seq<IndexedDocument>, query: ScopedQuery, ask: Ask, codec: Codec, p: int) {
    0 <= p < |documents| && Readable(documents[p], query, ask, codec)
  }

  /** A match tells of the document at this place: its namespace, its identifier and its own similarity. */
  predicate TellsOf(documents: seq<IndexedDocument>, query: ScopedQuery, ask: Ask, codec: Codec, m: Match, p: nat) {
    && ReadableAt(documents, query, ask, codec, p)
    && m.namespace == query.namespace && m.documentId == documents[p].documentId
    && m.score == SimilarityTo(documents[p], query, ask, codec)
  }

  /** Where the readable documents are. */
  function ReadablePlaces(documents: seq<IndexedDocument>, query: ScopedQuery, ask: Ask, codec: Codec): set<nat> {
    set p: nat | p < |documents| && Readable(documents[p], query, ask, codec)
  }

  /**
   The i-th match is of the document at the i-th place picked; there are as many as asked for, or as there are; each
   outranks those after it, and every one outranks every readable document left out.
   */
  ghost predicate BestOf(documents: seq<IndexedDocument>, query: ScopedQuery, ask: Ask, codec: Codec,
                         answer: seq<Match>,
                         picks: seq<nat>) {
    && |picks| == |answer|
    && (forall i | 0 <= i < |picks| :: TellsOf(documents, query, ask, codec, answer[i], picks[i]))
    && (forall i, j | 0 <= i < j < |picks| :: Outranks(answer[i].score, picks[i], answer[j].score, picks[j]))
    && (forall i, p | 0 <= i < |answer| && ReadableAt(documents, query, ask, codec, p) && p !in picks ::
          Outranks(answer[i].score, picks[i], SimilarityTo(documents[p], query, ask, codec), p))
    && (query.topK >= 0 ==>
          |answer| == Least(query.topK, |ReadablePlaces(documents, query, ask, codec)|))
  }

  /** More similar, or as similar and stored before. */
  predicate Outranks(score: real, place: int, otherScore: real, other: int) {
    score > otherScore || (score == otherScore && place < other)
  }

  function Least(a: int, b: int): int {
    if a < b then a else b
  }

  // ---- Sorting places by what is there -------------------------------------------------------------------------

  function Each<A, B>(f: A -> B, xs: seq<A>): (ys: seq<B>)
    ensures |ys| == |xs| && forall i | 0 <= i < |xs| :: ys[i] == f(xs[i])
  {
    if |xs| == 0 then [] else [f(xs[0])] + Each(f, xs[1..])
  }

  function Through<A, B>(f: A -> B, before: (B, B) -> bool): (A, A) -> bool {
    (a, b) => before(f(a), f(b))
  }

  lemma {:induction false} InsertThrough<A, B>(x: A, xs: seq<A>, f: A -> B, before: (B, B) -> bool)
    ensures Each(f, Insert(x, xs, Through(f, before))) == Insert(f(x), Each(f, xs), before)
  {
    if |xs| > 0 && before(f(xs[0]), f(x)) {
      InsertThrough(x, xs[1..], f, before);
      assert Each(f, xs)[1..] == Each(f, xs[1..]);
    }
  }

  lemma {:induction false} SortThrough<A, B>(xs: seq<A>, f: A -> B, before: (B, B) -> bool)
    ensures Each(f, SortBy(xs, Through(f, before))) == SortBy(Each(f, xs), before)
  {
    if |xs| > 0 {
      SortThrough(xs[1..], f, before);
      InsertThrough(xs[0], SortBy(xs[1..], Through(f, before)), f, before);
      assert Each(f, xs)[1..] == Each(f, xs[1..]);
    }
  }

  // ---- The places ----------------------------------------------------------------------------------------------

  function PlacesFrom(documents: seq<IndexedDocument>, query: ScopedQuery, ask: Ask, codec: Codec, from: nat): seq<nat>
    requires from <= |documents|
    decreases |documents| - from
  {
    if from == |documents| then []
    else
      var rest := PlacesFrom(documents, query, ask, codec, from + 1);
      if Readable(documents[from], query, ask, codec) then [from] + rest else rest
  }

  function MatchAt(documents: seq<IndexedDocument>, query: ScopedQuery, ask: Ask, codec: Codec): nat -> Match {
    (p: nat) =>
      if p < |documents| && Readable(documents[p], query, ask, codec)
      then Match(query.namespace, documents[p].documentId, SimilarityTo(documents[p], query, ask, codec))
      else Match([], [], 0.0)
  }

  lemma {:induction false} MatchesAreAtPlaces(documents: seq<IndexedDocument>, query: ScopedQuery, ask: Ask,
                                              codec: Codec,
                                              from: nat)
    requires from <= |documents|
    ensures MatchesOf(InNamespace(documents[from..], query.namespace), query, ask, codec)
            == Each(MatchAt(documents, query, ask, codec), PlacesFrom(documents, query, ask, codec, from))
    decreases |documents| - from
  {
    if from < |documents| {
      MatchesAreAtPlaces(documents, query, ask, codec, from + 1);
      var (d, rest) := (documents[from], documents[from + 1..]);
      assert documents[from..] == [d] + rest;
      if d.namespace == query.namespace {
        var candidates := InNamespace(rest, query.namespace);
        assert InNamespace(documents[from..], query.namespace) == [d] + candidates;
        assert ([d] + candidates)[1..] == candidates;
        if Readable(d, query, ask, codec) {
          var places := PlacesFrom(documents, query, ask, codec, from + 1);
          assert ([from] + places)[1..] == places;
        }
      }
    }
  }

  predicate Ascending(xs: seq<nat>) {
    forall i, j | 0 <= i < j < |xs| :: xs[i] < xs[j]
  }

  lemma AscendingCons(x: nat, xs: seq<nat>)
    requires Ascending(xs) && forall y | y in xs :: x < y
    ensures Ascending([x] + xs)
  {
    forall j | 0 < j < |xs| + 1 ensures x < ([x] + xs)[j] { assert xs[j - 1] in xs; }
  }

  lemma {:induction false} PlacesAreReadable(documents: seq<IndexedDocument>, query: ScopedQuery, ask: Ask,
                                             codec: Codec,
                                             from: nat)
    requires from <= |documents|
    ensures Ascending(PlacesFrom(documents, query, ask, codec, from))
    ensures forall p: nat :: p in PlacesFrom(documents, query, ask, codec, from)
                             <==> from <= p && ReadableAt(documents, query, ask, codec, p)
    decreases |documents| - from
  {
    if from < |documents| {
      PlacesAreReadable(documents, query, ask, codec, from + 1);
      AscendingCons(from, PlacesFrom(documents, query, ask, codec, from + 1));
      forall p: nat ensures from <= p && ReadableAt(documents, query, ask, codec, p) <==>
                            (p == from && Readable(documents[from], query, ask, codec))
                            || (from + 1 <= p && ReadableAt(documents, query, ask, codec, p)) {
      }
    }
  }

  // ---- Rankings --------------------------------------------------------------------------------------------------

  function Members(xs: seq<nat>): set<nat> {
    set x | x in xs
  }

  predicate Distinct(xs: seq<nat>) {
    forall i, j | 0 <= i < j < |xs| :: xs[i] != xs[j]
  }

  lemma {:induction false} CountOfDistinct(xs: seq<nat>)
    requires Distinct(xs)
    ensures |Members(xs)| == |xs|
  {
    if |xs| > 0 {
      var rest := xs[1..];
      assert xs == [xs[0]] + rest;
      CountOfDistinct(rest);
      assert xs[0] !in rest;
      assert Members(xs) == {xs[0]} + Members(rest);
    }
  }

  lemma {:induction false} AscendingOnce(xs: seq<nat>, p: nat)
    requires Ascending(xs)
    ensures multiset(xs)[p] <= 1
  {
    if |xs| > 0 {
      var rest := xs[1..];
      assert xs == [xs[0]] + rest;
      AscendingOnce(rest, p);
      if p == xs[0] { assert p !in rest; }
    }
  }

  lemma TwiceCounts(xs: seq<nat>, i: nat, j: nat)
    requires i < j < |xs| && xs[i] == xs[j]
    ensures multiset(xs)[xs[i]] >= 2
  {
    var (front, back) := (xs[..j], xs[j..]);
    assert xs == front + back && front[i] == xs[i] && back[0] == xs[i];
    assert xs[i] in multiset(front) && xs[i] in multiset(back);
    assert multiset(xs)[xs[i]] == multiset(front)[xs[i]] + multiset(back)[xs[i]];
  }

  lemma Rearranged(xs: seq<nat>, ys: seq<nat>)
    requires multiset(xs) == multiset(ys) && Ascending(xs)
    ensures Distinct(ys) && Members(ys) == Members(xs) && |ys| == |xs|
  {
    SameCount(xs, ys);
    forall p ensures p in ys <==> p in xs { assert p in multiset(ys) <==> p in multiset(xs); }
    forall i, j | 0 <= i < j < |ys| ensures ys[i] != ys[j] {
      if ys[i] == ys[j] {
        TwiceCounts(ys, i, j);
        AscendingOnce(xs, ys[i]);
      }
    }
  }

  /** Each outranks those after it. */
  predicate Ranks(ranks: seq<nat>, score: nat -> real) {
    forall i, j | 0 <= i < j < |ranks| :: Outranks(score(ranks[i]), ranks[i], score(ranks[j]), ranks[j])
  }

  /** These places, each once, by rank. */
  ghost predicate RankedBy(ranks: seq<nat>, places: set<nat>, score: nat -> real) {
    Distinct(ranks) && Members(ranks) == places && |ranks| == |places| && Ranks(ranks, score)
  }

  lemma ThroughMeans(f: nat -> Match, a: nat, b: nat)
    ensures Through(f, MoreSimilar)(a, b) <==> f(a).score > f(b).score
  {
    var (before, through) := (MoreSimilar, Through(f, MoreSimilar));
    assert through(a, b) == before(f(a), f(b));
    assert before(f(a), f(b)) == MoreSimilar(f(a), f(b));
  }

  lemma RanksCons(x: nat, xs: seq<nat>, score: nat -> real)
    requires Ranks(xs, score) && forall y | y in xs :: Outranks(score(x), x, score(y), y)
    ensures Ranks([x] + xs, score)
  {
    forall j | 0 < j < |xs| + 1 ensures Outranks(score(x), x, score(([x] + xs)[j]), ([x] + xs)[j]) {
      assert xs[j - 1] in xs;
    }
  }

  /** A place that comes before all others goes before those that are as similar. */
  lemma {:induction false} InsertRanks(x: nat, xs: seq<nat>, f: nat -> Match, score: nat -> real)
    requires Ranks(xs, score) && (forall p :: f(p).score == score(p)) && forall y | y in xs :: x < y
    ensures Ranks(Insert(x, xs, Through(f, MoreSimilar)), score)
  {
    var before := Through(f, MoreSimilar);
    if |xs| > 0 {
      var (first, tail) := (xs[0], xs[1..]);
      assert xs == [first] + tail && forall i | 0 <= i < |tail| :: tail[i] == xs[i + 1];
      ThroughMeans(f, first, x);
      assert f(first).score == score(first) && f(x).score == score(x);
      if before(first, x) {
        forall y | y in tail ensures x < y { assert y in xs; }
        InsertRanks(x, tail, f, score);
        InsertKeeps(x, tail, before);
        var rest := Insert(x, tail, before);
        forall y | y in rest ensures Outranks(score(first), first, score(y), y) {
          assert y in multiset(rest);
          if y != x { AfterTheFirst(xs, score, y); }
        }
        RanksCons(first, rest, score);
      } else {
        forall y | y in xs ensures Outranks(score(x), x, score(y), y) {
          if y != first { AfterTheFirst(xs, score, y); }
        }
        RanksCons(x, xs, score);
      }
    }
  }

  lemma AfterTheFirst(xs: seq<nat>, score: nat -> real, y: nat)
    requires |xs| > 0 && Ranks(xs, score) && y in multiset(xs) && y != xs[0]
    ensures Outranks(score(xs[0]), xs[0], score(y), y)
  {
    var k :| 0 <= k < |xs| && xs[k] == y;
  }

  lemma {:induction false} SortRanks(places: seq<nat>, f: nat -> Match, score: nat -> real)
    requires Ascending(places) && forall p :: f(p).score == score(p)
    ensures Ranks(SortBy(places, Through(f, MoreSimilar)), score)
  {
    if |places| > 0 {
      var (rest, before) := (places[1..], Through(f, MoreSimilar));
      assert forall i | 0 <= i < |rest| :: rest[i] == places[i + 1];
      SortRanks(rest, f, score);
      SortPermutes(rest, before);
      forall y | y in SortBy(rest, before) ensures places[0] < y {
        assert y in multiset(SortBy(rest, before)) && y in multiset(rest);
      }
      InsertRanks(places[0], SortBy(rest, before), f, score);
    }
  }

  lemma SortingRanks(places: seq<nat>, f: nat -> Match, score: nat -> real)
    requires Ascending(places) && forall p :: f(p).score == score(p)
    ensures RankedBy(SortBy(places, Through(f, MoreSimilar)), Members(places), score)
  {
    var ranks := SortBy(places, Through(f, MoreSimilar));
    SortPermutes(places, Through(f, MoreSimilar));
    Rearranged(places, ranks);
    CountOfDistinct(ranks);
    SortRanks(places, f, score);
  }

  /** The first n of a ranking outrank all the others. */
  lemma FirstOfRanking(ranks: seq<nat>, places: set<nat>, score: nat -> real, n: nat)
    requires RankedBy(ranks, places, score) && n <= |ranks|
    ensures forall i, p | 0 <= i < n && p in places && p !in ranks[..n] ::
            Outranks(score(ranks[i]), ranks[i], score(p), p)
  {
    forall i, p | 0 <= i < n && p in places && p !in ranks[..n]
        ensures Outranks(score(ranks[i]), ranks[i], score(p), p) {
      assert p in Members(ranks) && ranks == ranks[..n] + ranks[n..];
      var j :| 0 <= j < |ranks[n..]| && ranks[n..][j] == p;
      assert ranks[n + j] == p;
    }
  }

  // ---- The answer ----------------------------------------------------------------------------------------------

  function ScoreAt(documents: seq<IndexedDocument>, query: ScopedQuery, ask: Ask, codec: Codec): nat -> real {
    (p: nat) =>
      if p < |documents| && Readable(documents[p], query, ask, codec)
      then SimilarityTo(documents[p], query, ask, codec) else 0.0
  }

  lemma PlacesRank(documents: seq<IndexedDocument>, query: ScopedQuery, ask: Ask, codec: Codec)
      returns (ranks: seq<nat>)
    ensures RankedBy(ranks, ReadablePlaces(documents, query, ask, codec), ScoreAt(documents, query, ask, codec))
    ensures SortBy(MatchesOf(InNamespace(documents, query.namespace), query, ask, codec), MoreSimilar)
            == Each(MatchAt(documents, query, ask, codec), ranks)
  {
    var f := MatchAt(documents, query, ask, codec);
    var places := PlacesFrom(documents, query, ask, codec, 0);
    ranks := SortBy(places, Through(f, MoreSimilar));
    assert documents[0..] == documents;
    MatchesAreAtPlaces(documents, query, ask, codec, 0);
    SortThrough(places, f, MoreSimilar);
    PlacesAreReadable(documents, query, ask, codec, 0);
    assert Members(places) == ReadablePlaces(documents, query, ask, codec);
    SortingRanks(places, f, ScoreAt(documents, query, ask, codec));
  }

  lemma RankTells(documents: seq<IndexedDocument>, query: ScopedQuery, ask: Ask, codec: Codec, p: nat)
    requires p in ReadablePlaces(documents, query, ask, codec)
    ensures TellsOf(documents, query, ask, codec, MatchAt(documents, query, ask, codec)(p), p)
    ensures ScoreAt(documents, query, ask, codec)(p) == SimilarityTo(documents[p], query, ask, codec)
  {
  }

  lemma TopOfRanks(documents: seq<IndexedDocument>, query: ScopedQuery, ask: Ask, codec: Codec, ranks: seq<nat>, n: nat)
    requires RankedBy(ranks, ReadablePlaces(documents, query, ask, codec), ScoreAt(documents, query, ask, codec))
    requires n <= |ranks| && (query.topK >= 0 ==> n == Least(query.topK, |ranks|))
    ensures BestOf(documents, query, ask, codec, Each(MatchAt(documents, query, ask, codec), ranks)[..n], ranks[..n])
  {
    var (places, score) := (ReadablePlaces(documents, query, ask, codec), ScoreAt(documents, query, ask, codec));
    var (answer, picks) := (Each(MatchAt(documents, query, ask, codec), ranks)[..n], ranks[..n]);
    FirstOfRanking(ranks, places, score, n);
    forall i | 0 <= i < n
      ensures TellsOf(documents, query, ask, codec, answer[i], picks[i]) && answer[i].score == score(picks[i])
    {
      assert ranks[i] in Members(ranks);
      RankTells(documents, query, ask, codec, picks[i]);
    }
    forall i, p | 0 <= i < n && ReadableAt(documents, query, ask, codec, p) && p !in picks
      ensures Outranks(answer[i].score, picks[i], SimilarityTo(documents[p], query, ask, codec), p)
    {
      assert p in places;
      RankTells(documents, query, ask, codec, p);
    }
  }

  /** Every answered query answers with the best of what it can read, each match with its own document's similarity. */
  lemma AnswersAreTheBest(documents: seq<IndexedDocument>, query: ScopedQuery, ask: Ask, codec: Codec)
    returns (picks: seq<nat>)
    requires AfterQuery(documents, query, ask, codec).0.Ok?
    ensures BestOf(documents, query, ask, codec, AfterQuery(documents, query, ask, codec).0.value, picks)
  {
    var ranks := PlacesRank(documents, query, ask, codec);
    var n := |SliceTo(ranks, query.topK)|;
    TopOfRanks(documents, query, ask, codec, ranks, n);
    picks := ranks[..n];
  }

  // ---- When it fails, and what it leaves -----------------------------------------------------------------------

  /** The key store failed in a way that says nothing of the content. */
  predicate Unanswered(d: IndexedDocument, query: ScopedQuery, ask: Ask) {
    && d.namespace == query.namespace && ask(d).Err?
    && !ask(d).error.SubjectErased? && !ask(d).error.BucketExpired? && !ask(d).error.CiphertextCorrupt?
  }

  lemma {:induction false} OutageIsUnanswered(candidates: seq<IndexedDocument>, query: ScopedQuery, ask: Ask)
    requires forall d | d in candidates :: d.namespace == query.namespace
    ensures FirstOutage(candidates, ask).Some? <==> exists d :: d in candidates && Unanswered(d, query, ask)
  {
    if |candidates| > 0 {
      var (first, rest) := (candidates[0], candidates[1..]);
      assert first in candidates && forall d :: d in candidates <==> d == first || d in rest;
      assert IsOutage(ask(first)) <==> Unanswered(first, query, ask);
      OutageIsUnanswered(rest, query, ask);
      if d :| d in rest && Unanswered(d, query, ask) { assert d in candidates; }
    }
  }

  /**
   A query fails, and changes nothing, exactly when the key store could not answer for one of its namespace's documents;
   otherwise just the documents of its namespace that hold no embedding any more are dropped.
   */
  lemma QueryDropsTheUnreadable(documents: seq<IndexedDocument>, query: ScopedQuery, ask: Ask, codec: Codec)
    ensures var (r, left) := AfterQuery(documents, query, ask, codec);
            && (r.Err? <==> exists d :: d in documents && Unanswered(d, query, ask))
            && (r.Err? ==> left == documents)
            && (r.Ok? ==> forall d :: d in left <==>
                                      d in documents && (d.namespace == query.namespace
                                                         ==> Readable(d, query, ask, codec)))
  {
    var candidates := InNamespace(documents, query.namespace);
    CandidatesAreRows(documents, query.namespace);
    OutageIsUnanswered(candidates, query, ask);
    WithoutKeepsKeyed(documents, UnreadableOf(candidates, query, ask, codec));
    forall d | d in candidates
        ensures d in UnreadableOf(candidates, query, ask, codec) <==> !Readable(d, query, ask, codec) {
      var i :| 0 <= i < |candidates| && candidates[i] == d;
    }
  }
}
