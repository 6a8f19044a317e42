/** Recursive chunking on a token budget (src/knowledge/domain/chunk-recursive.ts). */
module Chunking {
  import opened Texts

  datatype Options = Options(maxTokens: int, overlapTokens: int, countTokens: Text -> int)

  datatype Chunk = Chunk(text: Text, startToken: int, tokenCount: int)

  const NEWLINE: CodeUnit := 10
  const SPACE: CodeUnit := 32
  const STOP: CodeUnit := 46

  /** In descending order of structural significance. */
  const SEPARATORS: seq<Text> := [[NEWLINE, NEWLINE], [NEWLINE], [STOP, SPACE], [SPACE]]

  predicate Fits(text: Text, o: Options) { o.countTokens(text) <= o.maxTokens }

  // ---- Splitting on one separator ----------------------------------------------------------------------------------

  /** Where the separator first occurs, or the length of the text. */
  function IndexOf(text: Text, separator: Text): (i: nat)
    requires |separator| > 0
    ensures i <= |text| && (i < |text| ==> i + |separator| <= |text| && text[i..i + |separator|] == separator)
  {
    if |text| < |separator| then |text|
    else if text[..|separator|] == separator then 0
    else
      var rest := IndexOf(text[1..], separator);
      assert text[1..][rest..] == text[rest + 1..];
      rest + 1
  }

  predicate OccursAt(text: Text, separator: Text, j: nat) {
    j + |separator| <= |text| && text[j..j + |separator|] == separator
  }

  /** It is the first occurrence; the length of the text means there is none. */
  lemma {:induction false} IndexIsFirst(text: Text, separator: Text, j: nat)
    requires |separator| > 0 && OccursAt(text, separator, j)
    ensures IndexOf(text, separator) <= j
    decreases |text|
  {
    if text[..|separator|] != separator {
      assert text[1..][j - 1..j - 1 + |separator|] == text[j..j + |separator|];
      IndexIsFirst(text[1..], separator, j - 1);
    }
  }

  /** The parts between separators, each but the last with its separator. */
  function SplitOnce(text: Text, separator: Text): (parts: seq<Text>)
    requires |separator| > 0
    ensures |parts| > 0
    decreases |text|
  {
    var i := IndexOf(text, separator);
    if i == |text| then [text] else [text[..i + |separator|]] + SplitOnce(text[i + |separator|..], separator)
  }

  function Concat(pieces: seq<Text>): Text {
    if |pieces| == 0 then [] else pieces[0] + Concat(pieces[1..])
  }

  predicate EndsAtBreak(text: Text) {
    |text| > 0 && (text[|text| - 1] == NEWLINE || text[|text| - 1] == SPACE)
  }

  lemma HeadEndsAtBreak(text: Text, separator: Text)
    requires |separator| > 0 && EndsAtBreak(separator) && IndexOf(text, separator) < |text|
    ensures EndsAtBreak(text[..IndexOf(text, separator) + |separator|])
  {
    var i := IndexOf(text, separator);
    assert text[i + |separator| - 1] == text[i..i + |separator|][|separator| - 1];
  }

  predicate BreaksBetween(parts: seq<Text>) {
    forall k | 0 <= k < |parts| - 1 :: EndsAtBreak(parts[k])
  }

  lemma BreaksCons(first: Text, rest: seq<Text>)
    requires EndsAtBreak(first) && BreaksBetween(rest)
    ensures BreaksBetween([first] + rest)
  {
  }

  /** Splitting loses nothing, and every part but the last ends in its separator. */
  lemma {:induction false} SplitOnceParts(text: Text, separator: Text)
    requires |separator| > 0 && EndsAtBreak(separator)
    ensures Concat(SplitOnce(text, separator)) == text && BreaksBetween(SplitOnce(text, separator))
    decreases |text|
  {
    var i := IndexOf(text, separator);
    if i < |text| {
      var head, rest := text[..i + |separator|], text[i + |separator|..];
      SplitOnceParts(rest, separator);
      HeadEndsAtBreak(text, separator);
      BreaksCons(head, SplitOnce(rest, separator));
      ConcatCons(head, SplitOnce(rest, separator));
      assert text == head + rest;
    } else {
      assert Concat([text]) == text + Concat([]);
    }
  }

  lemma ConcatCons(first: Text, rest: seq<Text>)
    ensures Concat([first] + rest) == first + Concat(rest)
  {
    assert ([first] + rest)[1..] == rest;
  }

  // ---- The recursive split -----------------------------------------------------------------------------------------

  /** The longest prefix that fits, found from the top, or a single unit. */
  function Longest(text: Text, take: nat, o: Options): (n: nat)
    requires 0 < take <= |text|
    ensures 0 < n <= take && (n > 1 ==> Fits(text[..n], o)) && forall k | n < k <= take :: !Fits(text[..k], o)
  {
    if take > 1 && !Fits(text[..take], o) then Longest(text, take - 1, o) else take
  }

  function HardSplit(text: Text, o: Options): seq<Text>
    decreases |text|
  {
    if |text| == 0 then []
    else
      var take := Longest(text, |text|, o);
      [text[..take]] + HardSplit(text[take..], o)
  }

  function Split(text: Text, o: Options, depth: nat): seq<Text>
    requires depth <= |SEPARATORS|
    decreases |SEPARATORS| - depth, 1, 0
  {
    if Fits(text, o) then (if |text| == 0 then [] else [text])
    else if depth == |SEPARATORS| then HardSplit(text, o)
    else Assemble(SplitOnce(text, SEPARATORS[depth]), [], o, depth)
  }

  /** Parts gathered while they fit together; each gathering split further. */
  function Assemble(parts: seq<Text>, buffer: Text, o: Options, depth: nat): seq<Text>
    requires depth < |SEPARATORS|
    decreases |SEPARATORS| - depth, 0, |parts|
  {
    if |parts| == 0 then (if |buffer| > 0 then Split(buffer, o, depth + 1) else [])
    else if |buffer| > 0 && !Fits(buffer + parts[0], o)
    then Split(buffer, o, depth + 1) + Assemble(parts[1..], parts[0], o, depth)
    else Assemble(parts[1..], buffer + parts[0], o, depth)
  }

  // ---- What the pieces are -----------------------------------------------------------------------------------------

  /** A piece is not empty, and fits unless it is a single unit. */
  predicate PieceOk(piece: Text, o: Options) {
    |piece| > 0 && (Fits(piece, o) || |piece| == 1)
  }

  /** A cut falls after a line or a word, unless one unit more would not have fitted. */
  predicate CutOk(before: Text, after: Text, o: Options) {
    |after| > 0 && (EndsAtBreak(before) || !Fits(before + after[..1], o))
  }

  /** The pieces make up the text, each is in order, and so is every cut between two. */
  ghost predicate Pieces(pieces: seq<Text>, text: Text, o: Options) {
    && Concat(pieces) == text
    && (forall i | 0 <= i < |pieces| :: PieceOk(pieces[i], o))
    && (forall i | 0 <= i < |pieces| - 1 :: CutOk(pieces[i], pieces[i + 1], o))
  }

  lemma {:induction false} ConcatAppend(a: seq<Text>, b: seq<Text>)
    ensures Concat(a + b) == Concat(a) + Concat(b)
    decreases |a|
  {
    if |a| == 0 {
      assert a + b == b;
    } else {
      assert (a + b)[1..] == a[1..] + b;
      ConcatAppend(a[1..], b);
    }
  }

  lemma {:induction false} LastPieceEnds(pieces: seq<Text>, text: Text, o: Options)
    requires Pieces(pieces, text, o) && |pieces| > 0
    ensures |text| > 0 && text[|text| - 1] == pieces[|pieces| - 1][|pieces[|pieces| - 1]| - 1]
    decreases |pieces|
  {
    if |pieces| == 1 {
      assert Concat(pieces) == pieces[0] + Concat(pieces[1..]) == pieces[0];
    } else {
      var rest := pieces[1..];
      assert forall i | 0 <= i < |rest| :: rest[i] == pieces[i + 1];
      assert Pieces(rest, Concat(rest), o);
      LastPieceEnds(rest, Concat(rest), o);
    }
  }

  lemma JoinPieces(a: seq<Text>, x: Text, b: seq<Text>, y: Text, o: Options)
    requires Pieces(a, x, o) && Pieces(b, y, o) && EndsAtBreak(x)
    ensures Pieces(a + b, x + y, o)
  {
    ConcatAppend(a, b);
    if |a| > 0 { LastPieceEnds(a, x, o); }
    var pieces := a + b;
    forall i | 0 <= i < |pieces| - 1 ensures CutOk(pieces[i], pieces[i + 1], o) {
      if i == |a| - 1 {
        assert pieces[i] == a[i] && pieces[i + 1] == b[0] && PieceOk(b[0], o);
      }
    }
  }

  lemma {:induction false} HardSplitPieces(text: Text, o: Options)
    ensures Pieces(HardSplit(text, o), text, o)
    decreases |text|
  {
    if |text| > 0 {
      var take := Longest(text, |text|, o);
      var head, rest := text[..take], text[take..];
      HardSplitPieces(rest, o);
      assert text == head + rest;
      var pieces, tail := HardSplit(text, o), HardSplit(rest, o);
      if |tail| > 0 {
        assert tail[0] <= rest && PieceOk(tail[0], o);
        assert head + tail[0][..1] == text[..take + 1];
      }
      forall i | 0 <= i < |pieces| - 1 ensures CutOk(pieces[i], pieces[i + 1], o) {
        if i > 0 { assert pieces[i] == tail[i - 1] && pieces[i + 1] == tail[i]; }
      }
    }
  }

  lemma OnePiece(text: Text, o: Options)
    requires PieceOk(text, o)
    ensures Pieces([text], text, o)
  {
    assert Concat([text]) == text + Concat([]);
  }

  /** Splitting ends, loses nothing, and leaves pieces that fit with cuts where they belong. */
  lemma {:induction false} SplitPieces(text: Text, o: Options, depth: nat)
    requires depth <= |SEPARATORS|
    ensures Pieces(Split(text, o, depth), text, o)
    decreases |SEPARATORS| - depth, 1, 0
  {
    if Fits(text, o) {
      if |text| > 0 { OnePiece(text, o); }
    } else if depth == |SEPARATORS| {
      HardSplitPieces(text, o);
    } else {
      SplitOnceParts(text, SEPARATORS[depth]);
      AssemblePieces(SplitOnce(text, SEPARATORS[depth]), [], o, depth);
    }
  }

  lemma {:induction false} AssemblePieces(parts: seq<Text>, buffer: Text, o: Options, depth: nat)
    requires depth < |SEPARATORS| && BreaksBetween(parts)
    requires |parts| > 0 && |buffer| > 0 ==> EndsAtBreak(buffer)
    ensures Pieces(Assemble(parts, buffer, o, depth), buffer + Concat(parts), o)
    decreases |SEPARATORS| - depth, 0, |parts|
  {
    if |parts| == 0 {
      if |buffer| > 0 { SplitPieces(buffer, o, depth + 1); }
      assert buffer + Concat(parts) == buffer;
    } else {
      assert BreaksBetween(parts[1..]) && (|parts| > 1 ==> EndsAtBreak(parts[0]));
      if |buffer| > 0 && !Fits(buffer + parts[0], o) {
        SplitPieces(buffer, o, depth + 1);
        AssemblePieces(parts[1..], parts[0], o, depth);
        JoinPieces(Split(buffer, o, depth + 1), buffer, Assemble(parts[1..], parts[0], o, depth),
                   parts[0] + Concat(parts[1..]), o);
      } else {
        AssemblePieces(parts[1..], buffer + parts[0], o, depth);
        assert buffer + Concat(parts) == (buffer + parts[0]) + Concat(parts[1..]);
      }
    }
  }

  // ---- The splitter as the program runs it -------------------------------------------------------------------------

  method HardSplitText(text: Text, o: Options) returns (pieces: seq<Text>)
    ensures pieces == HardSplit(text, o)
  {
    pieces := [];
    var remaining := text;
    while |remaining| > 0
      invariant HardSplit(text, o) == pieces + HardSplit(remaining, o)
      decreases |remaining|
    {
      var take := |remaining|;
      while take > 1 && o.countTokens(remaining[..take]) > o.maxTokens
        invariant 0 < take <= |remaining|
        invariant Longest(remaining, take, o) == Longest(remaining, |remaining|, o)
      {
        take := take - 1;
      }
      assert take == Longest(remaining, |remaining|, o);
      assert HardSplit(remaining, o) == [remaining[..take]] + HardSplit(remaining[take..], o);
      pieces := pieces + [remaining[..take]];
      remaining := remaining[take..];
    }
  }

  method SplitText(text: Text, o: Options, depth: nat) returns (pieces: seq<Text>)
    requires depth <= |SEPARATORS|
    ensures pieces == Split(text, o, depth)
    decreases |SEPARATORS| - depth
  {
    if o.countTokens(text) <= o.maxTokens {
      return if |text| == 0 then [] else [text];
    }
    if depth == |SEPARATORS| {
      pieces := HardSplitText(text, o);
      return;
    }
    pieces := [];
    var buffer := [];
    var parts := SplitOnce(text, SEPARATORS[depth]);
    assert parts[0..] == parts;
    for i := 0 to |parts|
      invariant Split(text, o, depth) == pieces + Assemble(parts[i..], buffer, o, depth)
    {
      assert parts[i..][1..] == parts[i + 1..];
      var candidate := buffer + parts[i];
      if |buffer| > 0 && o.countTokens(candidate) > o.maxTokens {
        var more := SplitText(buffer, o, depth + 1);
        pieces := pieces + more;
        buffer := parts[i];
        continue;
      }
      buffer := candidate;
    }
    if |buffer| > 0 {
      var more := SplitText(buffer, o, depth + 1);
      pieces := pieces + more;
    }
  }

  // ---- Nothing is split that need not be ---------------------------------------------------------------------------

  /** What the parts are gathered into, before any of it is split further. */
  function Gathered(parts: seq<Text>, buffer: Text, o: Options): seq<Text>
    decreases |parts|
  {
    if |parts| == 0 then (if |buffer| > 0 then [buffer] else [])
    else if |buffer| > 0 && !Fits(buffer + parts[0], o) then [buffer] + Gathered(parts[1..], parts[0], o)
    else Gathered(parts[1..], buffer + parts[0], o)
  }

  function SplitEach(groups: seq<Text>, o: Options, depth: nat): seq<Text>
    requires depth <= |SEPARATORS|
  {
    if |groups| == 0 then [] else Split(groups[0], o, depth) + SplitEach(groups[1..], o, depth)
  }

  lemma {:induction false} AssembleSplitsGathered(parts: seq<Text>, buffer: Text, o: Options, depth: nat)
    requires depth < |SEPARATORS|
    ensures Assemble(parts, buffer, o, depth) == SplitEach(Gathered(parts, buffer, o), o, depth + 1)
    decreases |parts|
  {
    if |parts| == 0 {
      if |buffer| > 0 {
        assert Split(buffer, o, depth + 1) + SplitEach([], o, depth + 1) == Split(buffer, o, depth + 1);
      }
    } else if |buffer| > 0 && !Fits(buffer + parts[0], o) {
      AssembleSplitsGathered(parts[1..], parts[0], o, depth);
      assert Gathered(parts, buffer, o)[1..] == Gathered(parts[1..], parts[0], o);
    } else {
      AssembleSplitsGathered(parts[1..], buffer + parts[0], o, depth);
    }
  }

  /** The next gathering begins with a part that would not have fitted into this one. */
  ghost predicate CouldNotGrow(group: Text, next: Text, parts: seq<Text>, o: Options) {
    exists p :: p in parts && p <= next && !Fits(group + p, o)
  }

  lemma {:induction false} GatheringIsGreedy(parts: seq<Text>, buffer: Text, o: Options)
    ensures var groups := Gathered(parts, buffer, o);
            && (|buffer| > 0 ==> |groups| > 0 && buffer <= groups[0])
            && forall i | 0 <= i < |groups| - 1 :: CouldNotGrow(groups[i], groups[i + 1], parts, o)
    decreases |parts|
  {
    if |parts| > 0 {
      var flushes := |buffer| > 0 && !Fits(buffer + parts[0], o);
      var kept := if flushes then parts[0] else buffer + parts[0];
      GatheringIsGreedy(parts[1..], kept, o);
      var groups, rest := Gathered(parts, buffer, o), Gathered(parts[1..], kept, o);
      forall i | 0 <= i < |groups| - 1 ensures CouldNotGrow(groups[i], groups[i + 1], parts, o) {
        if flushes && i == 0 {
          EmptyPartGathersNext(parts[1..], parts[0], o);
          assert parts[0] in parts && parts[0] <= groups[1];
        } else {
          var j := if flushes then i - 1 else i;
          assert CouldNotGrow(rest[j], rest[j + 1], parts[1..], o);
          var p :| p in parts[1..] && p <= rest[j + 1] && !Fits(rest[j] + p, o);
          assert p in parts;
        }
      }
    }
  }

  lemma {:induction false} EmptyPartGathersNext(parts: seq<Text>, buffer: Text, o: Options)
    ensures |Gathered(parts, buffer, o)| > 0 ==> buffer <= Gathered(parts, buffer, o)[0]
    decreases |parts|
  {
    if |parts| > 0 && !(|buffer| > 0 && !Fits(buffer + parts[0], o)) {
      EmptyPartGathersNext(parts[1..], buffer + parts[0], o);
    }
  }

  // ---- Overlap -----------------------------------------------------------------------------------------------------

  /** How many units the overlap takes, from `take` up. */
  function TakeFrom(piece: Text, take: nat, o: Options): (n: nat)
    requires take <= |piece|
    ensures take <= n <= |piece|
    ensures n > take ==> o.countTokens(piece[|piece| - n..]) <= o.overlapTokens
    ensures n < |piece| ==> o.countTokens(piece[|piece| - n - 1..]) > o.overlapTokens
    decreases |piece| - take
  {
    if take < |piece| && o.countTokens(piece[|piece| - take - 1..]) <= o.overlapTokens
    then TakeFrom(piece, take + 1, o)
    else take
  }

  function OverlapSuffix(piece: Text, o: Options): (suffix: Text)
    ensures suffix == [] || o.countTokens(suffix) <= o.overlapTokens
    ensures |suffix| <= |piece| && suffix == piece[|piece| - |suffix|..]
  {
    if o.overlapTokens <= 0 then [] else piece[|piece| - TakeFrom(piece, 0, o)..]
  }

  function ContentBudget(o: Options): int {
    var left := o.maxTokens - o.overlapTokens;
    if left > 1 then left else 1
  }

  function ChunksFrom(pieces: seq<Text>, carry: Text, startToken: int, o: Options): seq<Chunk>
    decreases |pieces|
  {
    if |pieces| == 0 then []
    else
      var body := carry + pieces[0];
      var next := OverlapSuffix(pieces[0], o);
      [Chunk(body, startToken, o.countTokens(body))]
      + ChunksFrom(pieces[1..], next, startToken + o.countTokens(body) - o.countTokens(next), o)
  }

  function PiecesOf(text: Text, o: Options): seq<Text> {
    Split(text, o.(maxTokens := ContentBudget(o)), 0)
  }

  function ChunkRecursive(text: Text, o: Options): seq<Chunk> {
    ChunksFrom(PiecesOf(text, o), [], 0, o)
  }

  method OverlapOf(piece: Text, o: Options) returns (suffix: Text)
    ensures suffix == OverlapSuffix(piece, o)
  {
    if o.overlapTokens <= 0 {
      return [];
    }
    var take := 0;
    while take < |piece| && o.countTokens(piece[|piece| - take - 1..]) <= o.overlapTokens
      invariant 0 <= take <= |piece|
      invariant TakeFrom(piece, take, o) == TakeFrom(piece, 0, o)
    {
      take := take + 1;
    }
    return piece[|piece| - take..];
  }

  lemma FirstChunk(pieces: seq<Text>, i: nat, carry: Text, startToken: int, o: Options)
    requires i < |pieces|
    ensures ChunksFrom(pieces[i..], carry, startToken, o) ==
            [Chunk(carry + pieces[i], startToken, o.countTokens(carry + pieces[i]))]
            + ChunksFrom(pieces[i + 1..], OverlapSuffix(pieces[i], o),
                         startToken + o.countTokens(carry + pieces[i]) - o.countTokens(OverlapSuffix(pieces[i], o)), o)
  {
    assert pieces[i..][1..] == pieces[i + 1..] && pieces[i..][0] == pieces[i];
  }

  method ChunkText(text: Text, o: Options) returns (chunks: seq<Chunk>)
    ensures chunks == ChunkRecursive(text, o)
  {
    var pieces := SplitText(text, o.(maxTokens := ContentBudget(o)), 0);
    chunks := [];
    var startToken, carry := 0, [];
    assert pieces[0..] == pieces;
    for i := 0 to |pieces|
      invariant ChunkRecursive(text, o) == chunks + ChunksFrom(pieces[i..], carry, startToken, o)
    {
      FirstChunk(pieces, i, carry, startToken, o);
      var body := carry + pieces[i];
      var tokenCount := o.countTokens(body);
      chunks := chunks + [Chunk(body, startToken, tokenCount)];
      carry := OverlapOf(pieces[i], o);
      startToken := startToken + tokenCount - o.countTokens(carry);
    }
  }

  /** What the i-th chunk repeats: what was carried in, or of the piece before it. */
  function Repeated(pieces: seq<Text>, carry: Text, i: nat, o: Options): Text
    requires i < |pieces|
  {
    if i == 0 then carry else OverlapSuffix(pieces[i - 1], o)
  }

  function CarryOf(pieces: seq<Text>, i: nat, o: Options): Text
    requires i < |pieces|
  {
    Repeated(pieces, [], i, o)
  }

  lemma {:induction false} ChunkAt(pieces: seq<Text>, carry: Text, startToken: int, o: Options, i: nat)
    requires i < |pieces|
    ensures var chunks := ChunksFrom(pieces, carry, startToken, o);
            |chunks| == |pieces| && chunks[i].text == Repeated(pieces, carry, i, o) + pieces[i]
            && chunks[i].tokenCount == o.countTokens(chunks[i].text)
    decreases |pieces|
  {
    var next := OverlapSuffix(pieces[0], o);
    var start := startToken + o.countTokens(carry + pieces[0]) - o.countTokens(next);
    if i > 0 {
      ChunkAt(pieces[1..], next, start, o, i - 1);
    } else if |pieces| > 1 {
      ChunkAt(pieces[1..], next, start, o, 0);
    } else {
      assert |ChunksFrom(pieces[1..], next, start, o)| == 0;
    }
  }

  /**
   Chunk by chunk: its own piece after a suffix of the one before. The pieces alone make up the text, so nothing is lost
   and without overlap nothing is repeated.
   */
  lemma ChunksAreCarriedPieces(text: Text, o: Options, i: nat)
    requires i < |PiecesOf(text, o)|
    ensures var (pieces, chunks) := (PiecesOf(text, o), ChunkRecursive(text, o));
            && Pieces(pieces, text, o.(maxTokens := ContentBudget(o))) && |chunks| == |pieces|
            && chunks[i].text == CarryOf(pieces, i, o) + pieces[i]
            && (o.overlapTokens <= 0 ==> chunks[i].text == pieces[i])
  {
    SplitPieces(text, o.(maxTokens := ContentBudget(o)), 0);
    ChunkAt(PiecesOf(text, o), [], 0, o, i);
  }

  predicate AddsUp(countTokens: Text -> int, a: Text, b: Text) {
    countTokens(a + b) == countTokens(a) + countTokens(b)
  }

  ghost predicate Additive(countTokens: Text -> int) {
    forall a, b :: AddsUp(countTokens, a, b)
  }

  lemma NothingCountsNothing(countTokens: Text -> int)
    requires Additive(countTokens)
    ensures countTokens([]) == 0
  {
    var nothing: Text := [];
    assert AddsUp(countTokens, nothing, nothing) && nothing + nothing == nothing;
  }

  lemma TakeConcat(pieces: seq<Text>, i: nat)
    requires 0 < i <= |pieces|
    ensures Concat(pieces[..i]) == pieces[0] + Concat(pieces[1..][..i - 1])
  {
    assert pieces[..i] == [pieces[0]] + pieces[1..][..i - 1];
    ConcatCons(pieces[0], pieces[1..][..i - 1]);
  }

  function NextStart(piece: Text, carry: Text, startToken: int, o: Options): int {
    startToken + o.countTokens(carry + piece) - o.countTokens(OverlapSuffix(piece, o))
  }

  lemma {:induction false} StartsFrom(pieces: seq<Text>, carry: Text, startToken: int, o: Options, i: nat)
    requires i < |pieces| == |ChunksFrom(pieces, carry, startToken, o)| && Additive(o.countTokens)
    ensures ChunksFrom(pieces, carry, startToken, o)[i].startToken + o.countTokens(Repeated(pieces, carry, i, o))
            == startToken + o.countTokens(carry) + o.countTokens(Concat(pieces[..i]))
    decreases |pieces|
  {
    if i == 0 {
      NothingCountsNothing(o.countTokens);
      assert pieces[..0] == [];
    } else {
      var next, start := OverlapSuffix(pieces[0], o), NextStart(pieces[0], carry, startToken, o);
      var rest := pieces[1..];
      StartsFrom(rest, next, start, o, i - 1);
      assert AddsUp(o.countTokens, carry, pieces[0]) && AddsUp(o.countTokens, pieces[0], Concat(rest[..i - 1]));
      TakeConcat(pieces, i);
      assert Repeated(pieces, carry, i, o) == Repeated(rest, next, i - 1, o);
    }
  }

  /** With an additive counter each chunk starts as many tokens into the text as come before what it repeats. */
  lemma StartTokenIsAnOffset(text: Text, o: Options, i: nat)
    requires i < |PiecesOf(text, o)| && Additive(o.countTokens)
    ensures var (pieces, chunks) := (PiecesOf(text, o), ChunkRecursive(text, o));
            i < |chunks| && chunks[i].startToken + o.countTokens(CarryOf(pieces, i, o))
                == o.countTokens(Concat(pieces[..i]))
  {
    ChunkAt(PiecesOf(text, o), [], 0, o, i);
    StartsFrom(PiecesOf(text, o), [], 0, o, i);
    NothingCountsNothing(o.countTokens);
  }

  ghost predicate Subadditive(countTokens: Text -> int) {
    forall a, b :: countTokens(a + b) <= countTokens(a) + countTokens(b)
  }

  /** A chunk fits the window, but for one built on a single unit that was over the content budget by itself. */
  predicate ChunkFits(chunk: Chunk, piece: Text, o: Options) {
    chunk.tokenCount <= o.maxTokens || (|piece| == 1 && o.countTokens(piece) > ContentBudget(o))
  }

  ghost predicate AllFit(text: Text, o: Options) {
    var (pieces, chunks) := (PiecesOf(text, o), ChunkRecursive(text, o));
    |chunks| == |pieces| && forall i | 0 <= i < |chunks| :: ChunkFits(chunks[i], pieces[i], o)
  }

  lemma RoomMeansFit(text: Text, o: Options)
    requires Subadditive(o.countTokens) && 0 <= o.overlapTokens < o.maxTokens
    ensures AllFit(text, o)
  {
    var (pieces, chunks) := (PiecesOf(text, o), ChunkRecursive(text, o));
    if |pieces| > 0 { ChunksAreCarriedPieces(text, o, 0); }
    forall i | 0 <= i < |pieces| ensures ChunkFits(chunks[i], pieces[i], o) {
      ChunksAreCarriedPieces(text, o, i);
      ChunkAt(pieces, [], 0, o, i);
      assert PieceOk(pieces[i], o.(maxTokens := ContentBudget(o)));
      var carry := CarryOf(pieces, i, o);
      assert o.countTokens(carry + pieces[i]) <= o.countTokens(carry) + o.countTokens(pieces[i]);
      if carry == [] { assert carry + pieces[i] == pieces[i]; }
    }
  }

  // ---- Exactly when the window holds -------------------------------------------------------------------------------

  /** A counter by weight: the unit zero weighs w, every other unit one. */
  function Weigh(text: Text, w: nat): nat {
    if |text| == 0 then 0 else (if text[0] == 0 then w else 1) + Weigh(text[1..], w)
  }

  lemma {:induction false} WeighAdds(a: Text, b: Text, w: nat)
    ensures Weigh(a + b, w) == Weigh(a, w) + Weigh(b, w)
    decreases |a|
  {
    if |a| == 0 {
      assert a + b == b;
    } else {
      assert (a + b)[1..] == a[1..] + b;
      WeighAdds(a[1..], b, w);
    }
  }

  function WeightOptions(maxTokens: int, overlapTokens: int, w: nat): Options {
    Options(maxTokens, overlapTokens, (text: Text) => Weigh(text, w))
  }

  lemma WeightsAreSubadditive(maxTokens: int, overlapTokens: int, w: nat)
    ensures Subadditive(WeightOptions(maxTokens, overlapTokens, w).countTokens)
  {
    forall a, b ensures Weigh(a + b, w) <= Weigh(a, w) + Weigh(b, w) { WeighAdds(a, b, w); }
  }

  function Ones(n: nat): (t: Text)
    ensures |t| == n
  {
    if n == 0 then [] else [1] + Ones(n - 1)
  }

  lemma {:induction false} OnesWeigh(n: nat, w: nat)
    ensures Weigh(Ones(n), w) == n
  {
    if n > 0 { OnesWeigh(n - 1, w); }
  }

  /** Without overlap, a whole content budget in one chunk. */
  lemma BudgetOverflows(maxTokens: int, overlapTokens: int)
    requires overlapTokens <= 0 && !(0 <= overlapTokens < maxTokens)
    ensures exists text :: !AllFit(text, WeightOptions(maxTokens, overlapTokens, 1))
  {
    var o := WeightOptions(maxTokens, overlapTokens, 1);
    var text := Ones(ContentBudget(o));
    OnesWeigh(ContentBudget(o), 1);
    assert PiecesOf(text, o) == [text];
    assert [] + text == text;
    assert ChunkRecursive(text, o)[0] == Chunk(text, 0, ContentBudget(o));
    assert !ChunkFits(ChunkRecursive(text, o)[0], PiecesOf(text, o)[0], o);
    assert !AllFit(text, WeightOptions(maxTokens, overlapTokens, 1));
  }

  /** A heavy unit carried over in front of a light one. */
  lemma {:induction false} HeavyPairPieces(o: Options, depth: nat, text: Text)
    requires depth <= |SEPARATORS| && text == [0, 1] && o.countTokens(text) > o.maxTokens
             && o.countTokens([0, 1][..2]) > o.maxTokens
    requires o.countTokens([1]) <= o.maxTokens
    ensures Split(text, o, depth) == [[0], [1]]
    decreases |SEPARATORS| - depth
  {
    if depth == |SEPARATORS| {
      assert text[..2] == text && text[..1] == [0] && text[1..] == [1];
      assert Longest(text, 2, o) == 1;
      assert [1][..1] == [1] && [1][1..] == [];
      assert HardSplit([1], o) == [[1]] + HardSplit([], o);
    } else {
      NoSeparatorInPair(depth);
      assert SplitOnce(text, SEPARATORS[depth]) == [text];
      assert [text][1..] == [] && [] + text == text;
      HeavyPairPieces(o, depth + 1, text);
      assert Assemble([text], [], o, depth) == Assemble([], text, o, depth);
    }
  }

  lemma FoundWhereItStarts(text: Text, separator: Text)
    requires |separator| > 0
    ensures var i := IndexOf(text, separator);
            i < |text| ==> text[i] == separator[0]
  {
    var i := IndexOf(text, separator);
    if i < |text| { assert text[i..i + |separator|][0] == text[i]; }
  }

  lemma NoSeparatorInPair(depth: nat)
    requires depth < |SEPARATORS|
    ensures IndexOf([0, 1], SEPARATORS[depth]) == 2
  {
    FoundWhereItStarts([0, 1], SEPARATORS[depth]);
  }

  lemma PairWeights(w: nat)
    ensures Weigh([1], w) == 1 && Weigh([0], w) == w && Weigh([0, 1], w) == w + 1
  {
    assert [1][1..] == [] && [0][1..] == [] && [0, 1][1..] == [1];
  }

  lemma HeavyPairSplits(maxTokens: int, overlapTokens: int)
    requires 0 < overlapTokens && maxTokens <= overlapTokens
    ensures PiecesOf([0, 1], WeightOptions(maxTokens, overlapTokens, overlapTokens)) == [[0], [1]]
  {
    var o := WeightOptions(maxTokens, overlapTokens, overlapTokens);
    PairWeights(overlapTokens);
    assert [0, 1][..2] == [0, 1];
    HeavyPairPieces(o.(maxTokens := ContentBudget(o)), 0, [0, 1]);
  }

  lemma HeavyUnitCarries(maxTokens: int, overlapTokens: int)
    requires 0 < overlapTokens
    ensures OverlapSuffix([0], WeightOptions(maxTokens, overlapTokens, overlapTokens)) == [0]
  {
    PairWeights(overlapTokens);
    assert [0][0..] == [0];
    assert TakeFrom([0], 0, WeightOptions(maxTokens, overlapTokens, overlapTokens)) == 1;
  }

  lemma OverlapOverflows(maxTokens: int, overlapTokens: int)
    requires 0 < overlapTokens && maxTokens <= overlapTokens
    ensures exists text :: !AllFit(text, WeightOptions(maxTokens, overlapTokens, overlapTokens))
  {
    var o := WeightOptions(maxTokens, overlapTokens, overlapTokens);
    HeavyPairSplits(maxTokens, overlapTokens);
    HeavyUnitCarries(maxTokens, overlapTokens);
    PairWeights(overlapTokens);
    var pieces: seq<Text> := [[0], [1]];
    ChunkAt(pieces, [], 0, o, 1);
    assert pieces[1 - 1] == [0] && [0] + [1] == [0, 1];
    assert !ChunkFits(ChunkRecursive([0, 1], o)[1], pieces[1], o);
    assert !AllFit([0, 1], o);
  }

  /**
   The window holds for every text and every subadditive counter exactly when the overlap is smaller than the window.
   */
  lemma WindowHoldsExactlyWithRoom(maxTokens: int, overlapTokens: int)
    ensures (forall text, count | Subadditive(count) :: AllFit(text, Options(maxTokens, overlapTokens, count)))
            <==> 0 <= overlapTokens < maxTokens
  {
    if 0 <= overlapTokens < maxTokens {
      forall text, count | Subadditive(count) ensures AllFit(text, Options(maxTokens, overlapTokens, count)) {
        RoomMeansFit(text, Options(maxTokens, overlapTokens, count));
      }
    } else {
      var w := if overlapTokens <= 0 then 1 else overlapTokens;
      WeightsAreSubadditive(maxTokens, overlapTokens, w);
      if overlapTokens <= 0 { BudgetOverflows(maxTokens, overlapTokens); }
          else { OverlapOverflows(maxTokens, overlapTokens); }
      var o := WeightOptions(maxTokens, overlapTokens, w);
      var text :| !AllFit(text, o);
      assert o == Options(maxTokens, overlapTokens, o.countTokens);
    }
  }
}
