/**
 What chunking promises, in its own terms: what each chunk repeats, where it starts, and what is kept together
 (src/knowledge/domain/chunk-recursive.ts).
 */
module ChunkPromises {
  import opened Texts
  import opened Chunking

  /** The tokens left for new text in each chunk. */
  function Room(maxTokens: int, overlapTokens: int): int {
    if maxTokens - overlapTokens > 1 then maxTokens - overlapTokens else 1
  }

  /** The last n units of the piece before: as many as the overlap holds, none without an overlap. */
  predicate LongestCarry(previous: Text, n: nat, o: Options) {
    && n <= |previous| && (o.overlapTokens <= 0 ==> n == 0)
    && (n > 0 ==> o.countTokens(previous[|previous| - n..]) <= o.overlapTokens)
    && (0 < o.overlapTokens && n < |previous| ==> o.countTokens(previous[|previous| - n - 1..]) > o.overlapTokens)
  }

  /**
   A piece fits the room, or is a single unit; between two the text breaks, or one unit more would not have fitted.
   */
  predicate InRoom(piece: Text, next: Text, o: Options) {
    var room := Room(o.maxTokens, o.overlapTokens);
    && |piece| > 0 && (o.countTokens(piece) <= room || |piece| == 1)
    && (|next| > 0 ==>
          piece[|piece| - 1] == 10 || piece[|piece| - 1] == 32 || o.countTokens(piece + next[..1]) > room)
  }

  predicate InRoomAt(pieces: seq<Text>, i: nat, o: Options) {
    i < |pieces| && InRoom(pieces[i], if i + 1 < |pieces| then pieces[i + 1] else [], o)
  }

  /** A chunk is its piece after what it carries over, counted as a whole, and starts after what came before that. */
  predicate ChunkOf(chunk: Chunk, carried: Text, piece: Text, startToken: int, o: Options) {
    && chunk.text == carried + piece && chunk.tokenCount == o.countTokens(chunk.text) && chunk.startToken == startToken
  }

  ghost predicate Promised(text: Text, o: Options, pieces: seq<Text>, chunks: seq<Chunk>) {
    && Concat(pieces) == text && |chunks| == |pieces|
    && (forall i | 0 <= i < |pieces| :: InRoomAt(pieces, i, o))
    && (|pieces| > 0 ==> ChunkOf(chunks[0], [], pieces[0], 0, o))
    && (forall i | 0 < i < |pieces| :: Follows(pieces[i - 1], pieces[i], chunks[i - 1], chunks[i], o))
  }

  /** The next chunk carries over the longest end of the piece before, and starts where that is. */
  ghost predicate Follows(previous: Text, piece: Text, before: Chunk, chunk: Chunk, o: Options) {
    exists n: nat :: LongestCarry(previous, n, o) && CarriesOver(previous, n, piece, before, chunk, o)
  }

  predicate CarriesOver(previous: Text, n: nat, piece: Text, before: Chunk, chunk: Chunk, o: Options)
    requires n <= |previous|
  {
    var carried := previous[|previous| - n..];
    ChunkOf(chunk, carried, piece, before.startToken + before.tokenCount - o.countTokens(carried), o)
  }

  lemma SuffixIsLongest(piece: Text, o: Options)
    ensures LongestCarry(piece, |OverlapSuffix(piece, o)|, o)
  {
    if o.overlapTokens > 0 {
      var n := TakeFrom(piece, 0, o);
      assert |piece[|piece| - n..]| == n;
    }
  }

  lemma {:induction false} ChunksFollow(pieces: seq<Text>, carry: Text, startToken: int, o: Options, i: nat)
    requires 0 < i < |pieces| && |ChunksFrom(pieces, carry, startToken, o)| == |pieces|
    ensures var chunks := ChunksFrom(pieces, carry, startToken, o);
            Follows(pieces[i - 1], pieces[i], chunks[i - 1], chunks[i], o)
    decreases |pieces|
  {
    var chunks := ChunksFrom(pieces, carry, startToken, o);
    var next := OverlapSuffix(pieces[0], o);
    var start := startToken + o.countTokens(carry + pieces[0]) - o.countTokens(next);
    var rest := ChunksFrom(pieces[1..], next, start, o);
    assert chunks[1..] == rest && chunks[0] == Chunk(carry + pieces[0], startToken, o.countTokens(carry + pieces[0]));
    if i == 1 {
      SuffixIsLongest(pieces[0], o);
      assert rest[0] == Chunk(next + pieces[1], start, o.countTokens(next + pieces[1]));
      assert CarriesOver(pieces[0], |next|, pieces[1], chunks[0], chunks[1], o);
    } else {
      ChunksFollow(pieces[1..], next, start, o, i - 1);
      assert rest[i - 1] == chunks[i] && rest[i - 2] == chunks[i - 1];
    }
  }

  lemma PieceInRoom(text: Text, o: Options, i: nat)
    requires i < |PiecesOf(text, o)|
    ensures var pieces := PiecesOf(text, o);
            InRoomAt(pieces, i, o)
  {
    var (pieces, inner) := (PiecesOf(text, o), o.(maxTokens := ContentBudget(o)));
    SplitPieces(text, inner, 0);
    assert PieceOk(pieces[i], inner) && (i + 1 < |pieces| ==> CutOk(pieces[i], pieces[i + 1], inner));
  }

  lemma {:induction false} AsManyChunks(pieces: seq<Text>, carry: Text, startToken: int, o: Options)
    ensures |ChunksFrom(pieces, carry, startToken, o)| == |pieces|
    ensures |pieces| > 0 ==> ChunkOf(ChunksFrom(pieces, carry, startToken, o)[0], carry, pieces[0], startToken, o)
    decreases |pieces|
  {
    if |pieces| > 0 {
      var next := OverlapSuffix(pieces[0], o);
      AsManyChunks(pieces[1..], next, startToken + o.countTokens(carry + pieces[0]) - o.countTokens(next), o);
    }
  }

  lemma PiecesMakeUpTheText(text: Text, o: Options)
    ensures Concat(PiecesOf(text, o)) == text
  {
    SplitPieces(text, o.(maxTokens := ContentBudget(o)), 0);
  }

  /**
   Chunks are the pieces of the text, none lost and each within its room, every one but the first after the longest end
   of the piece before that the overlap holds, and each starting where that end does.
   */
  lemma ChunksKeepTheirPromises(text: Text, o: Options)
    ensures Promised(text, o, PiecesOf(text, o), ChunkRecursive(text, o))
  {
    var (pieces, chunks) := (PiecesOf(text, o), ChunkRecursive(text, o));
    PiecesMakeUpTheText(text, o);
    AsManyChunks(pieces, [], 0, o);
    forall i | 0 <= i < |pieces| ensures InRoomAt(pieces, i, o) {
      PieceInRoom(text, o, i);
    }
    forall i | 0 < i < |pieces| ensures Follows(pieces[i - 1], pieces[i], chunks[i - 1], chunks[i], o) {
      ChunksFollow(pieces, [], 0, o, i);
    }
  }

  // ---- What is kept together -----------------------------------------------------------------------------------

  /** A gathering fits, or is a single part. */
  lemma {:induction false} GatheringsFit(parts: seq<Text>, buffer: Text, o: Options, whole: seq<Text>)
    requires forall p | p in parts :: p in whole
    requires |buffer| > 0 ==> Fits(buffer, o) || buffer in whole
    ensures forall g | g in Gathered(parts, buffer, o) :: Fits(g, o) || g in whole
    decreases |parts|
  {
    if |parts| > 0 {
      assert parts[0] in parts && forall p | p in parts[1..] :: p in parts;
      if |buffer| > 0 && !Fits(buffer + parts[0], o) {
        GatheringsFit(parts[1..], parts[0], o, whole);
        forall g | g in Gathered(parts, buffer, o) ensures Fits(g, o) || g in whole {
          if g != buffer { assert g in Gathered(parts[1..], parts[0], o); }
        }
      } else {
        if |buffer| == 0 { assert buffer + parts[0] == parts[0]; }
        GatheringsFit(parts[1..], buffer + parts[0], o, whole);
      }
    }
  }

  /**
   A text too long is cut between its parts, gathered while they fit; just a part that does not fit is cut further.
   */
  predicate CutBetween(text: Text, separator: Text, o: Options, depth: nat)
    requires |separator| > 0 && depth < |SEPARATORS|
  {
    var groups := Gathered(SplitOnce(text, separator), [], o);
    && Split(text, o, depth) == SplitEach(groups, o, depth + 1)
    && forall g | g in groups :: Fits(g, o) || g in SplitOnce(text, separator)
  }

  /** Paragraphs are kept together first, then lines, then sentences, then words; only a word is cut anywhere. */
  lemma StructureIsKept(text: Text, o: Options)
    requires !Fits(text, o)
    ensures CutBetween(text, [10, 10], o, 0) && CutBetween(text, [10], o, 1)
    ensures CutBetween(text, [46, 32], o, 2) && CutBetween(text, [32], o, 3)
    ensures Split(text, o, 4) == HardSplit(text, o)
  {
    CutsAt(text, o, 0);
    CutsAt(text, o, 1);
    CutsAt(text, o, 2);
    CutsAt(text, o, 3);
  }

  lemma CutsAt(text: Text, o: Options, depth: nat)
    requires !Fits(text, o) && depth < |SEPARATORS|
    ensures CutBetween(text, SEPARATORS[depth], o, depth)
  {
    var parts := SplitOnce(text, SEPARATORS[depth]);
    AssembleSplitsGathered(parts, [], o, depth);
    GatheringsFit(parts, [], o, parts);
  }

  /** What fits is left alone. */
  lemma WhatFitsIsOneChunk(text: Text, o: Options)
    requires |text| > 0 && o.countTokens(text) <= Room(o.maxTokens, o.overlapTokens)
    ensures ChunkRecursive(text, o) == [Chunk(text, 0, o.countTokens(text))]
  {
    var pieces := [text];
    assert PiecesOf(text, o) == pieces && pieces[0..] == pieces && pieces[1..] == [] && [] + text == text;
    FirstChunk(pieces, 0, [], 0, o);
    assert ChunksFrom(pieces, [], 0, o)[0] == Chunk(text, 0, o.countTokens(text));
    assert |ChunksFrom(pieces[1..], OverlapSuffix(text, o),
                       o.countTokens(text) - o.countTokens(OverlapSuffix(text, o)), o)| == 0;
  }
}
