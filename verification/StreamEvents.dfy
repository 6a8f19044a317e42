/**
 Server-Sent Events: how a chunk is written (src/surfaces/domain/stream-event.ts,
 src/surfaces/infrastructure/streamed-output.ts) and how a client reads the stream (sections 9.2.5 and 9.2.6 of the
 WHATWG HTML Living Standard).

 Of the fields a stream may carry only `data` matters here; the others set no data, and the standard says nothing of
 comments.
 */
module StreamEvents {
  import opened Texts

  const LF: CodeUnit := 10
  const CR: CodeUnit := 13
  const SPACE: CodeUnit := 32
  const COLON: CodeUnit := 58
  const BYTE_ORDER_MARK: CodeUnit := 0xFEFF

  // ---- Writing -----------------------------------------------------------------------------------------------------

  /** The parts between line breaks, each of CRLF, CR and LF being one break. */
  function SplitLines(text: Text): (lines: seq<Text>)
    ensures |lines| > 0
    decreases |text|
  {
    if |text| == 0 then [[]]
    else if text[0] == CR && |text| > 1 && text[1] == LF then [[]] + SplitLines(text[2..])
    else if text[0] == CR || text[0] == LF then [[]] + SplitLines(text[1..])
    else
      var rest := SplitLines(text[1..]);
      [[text[0]] + rest[0]] + rest[1..]
  }

  function DataField(): Text { Ascii("data: ") }

  function DataLines(lines: seq<Text>): (fields: seq<Text>)
    ensures |fields| == |lines|
  {
    seq(|lines|, i requires 0 <= i < |lines| => DataField() + lines[i])
  }

  function StreamEvent(text: Text): Text {
    Join(DataLines(SplitLines(text)), [LF]) + [LF, LF]
  }

  function Streamed(chunks: seq<Text>): Text {
    if |chunks| == 0 then [] else StreamEvent(chunks[0]) + Streamed(chunks[1..])
  }

  // ---- Reading -----------------------------------------------------------------------------------------------------

  /** The lines a client gets to see; what no line end follows is never processed. */
  function CompleteLines(stream: Text): seq<Text> {
    var parts := SplitLines(stream);
    parts[..|parts| - 1]
  }

  function UpToColon(line: Text): (n: nat)
    ensures n <= |line| && (n < |line| ==> line[n] == COLON) && COLON !in line[..n]
  {
    if |line| == 0 || line[0] == COLON then 0
    else
      var n := 1 + UpToColon(line[1..]);
      assert line[..n] == [line[0]] + line[1..][..n - 1];
      n
  }

  /** The field's name and its value without one leading space; a comment is a field without a name. */
  function FieldOf(line: Text): (Text, Text) {
    var n := UpToColon(line);
    if n == |line| then (line, [])
    else
      var value := line[n + 1..];
      (line[..n], if |value| > 0 && value[0] == SPACE then value[1..] else value)
  }

  /** What a line adds to the data buffer. */
  function DataOf(line: Text): Text {
    var (name, value) := FieldOf(line);
    if name == Ascii("data") then value + [LF] else []
  }

  /** The data of the events dispatched, given what the buffer holds. */
  function Dispatched(lines: seq<Text>, buffer: Text): seq<Text>
    decreases |lines|
  {
    if |lines| == 0 then []
    else if |lines[0]| > 0 then Dispatched(lines[1..], buffer + DataOf(lines[0]))
    else if |buffer| == 0 then Dispatched(lines[1..], [])
    else [if buffer[|buffer| - 1] == LF then buffer[..|buffer| - 1] else buffer] + Dispatched(lines[1..], [])
  }

  function Decode(stream: Text): seq<Text> {
    var unmarked := if |stream| > 0 && stream[0] == BYTE_ORDER_MARK then stream[1..] else stream;
    Dispatched(CompleteLines(unmarked), [])
  }

  // ---- What survives the way ---------------------------------------------------------------------------------------

  /** Every line break as LF. */
  function Normalised(text: Text): Text
    decreases |text|
  {
    if |text| == 0 then []
    else if text[0] == CR && |text| > 1 && text[1] == LF then [LF] + Normalised(text[2..])
    else if text[0] == CR || text[0] == LF then [LF] + Normalised(text[1..])
    else [text[0]] + Normalised(text[1..])
  }

  predicate Unbroken(line: Text) { CR !in line && LF !in line }

  predicate AllUnbroken(lines: seq<Text>) { forall i | 0 <= i < |lines| :: Unbroken(lines[i]) }

  lemma {:induction false} LinesAreUnbroken(text: Text)
    ensures AllUnbroken(SplitLines(text))
    decreases |text|
  {
    if |text| > 0 {
      if text[0] == CR && |text| > 1 && text[1] == LF {
        LinesAreUnbroken(text[2..]);
      } else {
        LinesAreUnbroken(text[1..]);
      }
    }
  }

  lemma JoinCons(first: Text, rest: seq<Text>, separator: Text)
    requires |rest| > 0
    ensures Join([first] + rest, separator) == first + separator + Join(rest, separator)
  {
    assert ([first] + rest)[1..] == rest;
  }

  lemma JoinFirst(c: CodeUnit, lines: seq<Text>, separator: Text)
    requires |lines| > 0
    ensures Join([[c] + lines[0]] + lines[1..], separator) == [c] + Join(lines, separator)
  {
    if |lines| == 1 {
      assert lines[1..] == [] && [[c] + lines[0]] + lines[1..] == [[c] + lines[0]];
    } else {
      assert ([[c] + lines[0]] + lines[1..])[1..] == lines[1..];
      assert ([c] + lines[0]) + separator + Join(lines[1..], separator)
             == [c] + (lines[0] + separator + Join(lines[1..], separator));
    }
  }

  /** Its lines, joined again, are the text with its breaks normalised. */
  lemma {:induction false} LinesJoinNormalised(text: Text)
    ensures Join(SplitLines(text), [LF]) == Normalised(text)
    decreases |text|
  {
    if |text| > 0 {
      if text[0] == CR && |text| > 1 && text[1] == LF {
        LinesJoinNormalised(text[2..]);
        JoinCons([], SplitLines(text[2..]), [LF]);
      } else if text[0] == CR || text[0] == LF {
        LinesJoinNormalised(text[1..]);
        JoinCons([], SplitLines(text[1..]), [LF]);
      } else {
        LinesJoinNormalised(text[1..]);
        JoinFirst(text[0], SplitLines(text[1..]), [LF]);
      }
    }
  }

  /** A line and its end come off the front of a stream. */
  lemma {:induction false} LineComesOff(line: Text, rest: Text)
    requires Unbroken(line)
    ensures SplitLines(line + [LF] + rest) == [line] + SplitLines(rest)
    decreases |line|
  {
    var stream := line + [LF] + rest;
    if |line| == 0 {
      assert stream[0] == LF && stream[1..] == rest;
    } else {
      assert stream[0] == line[0] && stream[1..] == line[1..] + [LF] + rest;
      assert line[0] in line;
      LineComesOff(line[1..], rest);
      assert [line[0]] + line[1..] == line;
    }
  }

  lemma CompleteLineComesOff(line: Text, rest: Text)
    requires Unbroken(line)
    ensures CompleteLines(line + [LF] + rest) == [line] + CompleteLines(rest)
  {
    LineComesOff(line, rest);
  }

  lemma DataFieldIsPlain(line: Text)
    requires Unbroken(line)
    ensures Unbroken(DataField() + line) && |DataField()| == 6 && DataOf(DataField() + line) == line + [LF]
  {
    var field := DataField() + line;
    var data: Text := [100, 97, 116, 97];
    assert Ascii("data") == data;
    assert DataField() == data + [COLON, SPACE];
    assert field[..4] == data && field[4] == COLON && field[5..] == [SPACE] + line;
    ColonAt(field, 4);
    assert field[5..][1..] == line;
  }

  lemma {:induction false} ColonAt(line: Text, n: nat)
    requires n < |line| && line[n] == COLON && COLON !in line[..n]
    ensures UpToColon(line) == n
    decreases n
  {
    if n > 0 {
      assert line[0] in line[..n];
      assert line[1..][..n - 1] == line[..n][1..];
      ColonAt(line[1..], n - 1);
    }
  }

  /** A data line goes into the buffer. */
  lemma DataLineComesOff(line: Text, tail: Text, buffer: Text)
    requires Unbroken(line)
    ensures Dispatched(CompleteLines(DataField() + line + [LF] + tail), buffer)
            == Dispatched(CompleteLines(tail), buffer + (line + [LF]))
  {
    DataFieldIsPlain(line);
    CompleteLineComesOff(DataField() + line, tail);
    var seen := CompleteLines(DataField() + line + [LF] + tail);
    assert seen[0] == DataField() + line && seen[1..] == CompleteLines(tail);
  }

  /** An empty line dispatches a full buffer but for its last line end. */
  lemma EmptyLineDispatches(data: Text, rest: Text)
    ensures Dispatched(CompleteLines([LF] + rest), data + [LF]) == [data] + Dispatched(CompleteLines(rest), [])
  {
    assert [LF] + rest == [] + [LF] + rest;
    CompleteLineComesOff([], rest);
    var seen := CompleteLines([LF] + rest);
    assert seen[0] == [] && seen[1..] == CompleteLines(rest);
    assert (data + [LF])[..|data|] == data;
  }

  lemma FieldsJoined(lines: seq<Text>, rest: Text)
    requires |lines| > 1
    ensures Join(DataLines(lines), [LF]) + [LF, LF] + rest
            == DataField() + lines[0] + [LF] + (Join(DataLines(lines[1..]), [LF]) + [LF, LF] + rest)
  {
    assert DataLines(lines) == [DataField() + lines[0]] + DataLines(lines[1..]);
    JoinCons(DataField() + lines[0], DataLines(lines[1..]), [LF]);
  }

  lemma LinesJoined(buffer: Text, lines: seq<Text>)
    requires |lines| > 1
    ensures buffer + (lines[0] + [LF]) + Join(lines[1..], [LF]) == buffer + Join(lines, [LF])
  {
    JoinCons(lines[0], lines[1..], [LF]);
    assert lines == [lines[0]] + lines[1..];
    assert buffer + (lines[0] + [LF]) + Join(lines[1..], [LF]) == buffer + (lines[0] + [LF] + Join(lines[1..], [LF]));
  }

  lemma OneFieldJoined(line: Text, rest: Text)
    ensures Join(DataLines([line]), [LF]) + [LF, LF] + rest == DataField() + line + [LF] + ([LF] + rest)
  {
    assert DataLines([line]) == [DataField() + line];
  }

  lemma OneLineEvent(line: Text, rest: Text, buffer: Text)
    requires Unbroken(line)
    ensures Dispatched(CompleteLines(Join(DataLines([line]), [LF]) + [LF, LF] + rest), buffer)
            == [buffer + line] + Dispatched(CompleteLines(rest), [])
  {
    OneFieldJoined(line, rest);
    DataLineComesOff(line, [LF] + rest, buffer);
    assert buffer + (line + [LF]) == (buffer + line) + [LF];
    EmptyLineDispatches(buffer + line, rest);
  }

  /** One event's lines fill the buffer with its lines, and the empty line dispatches it. */
  lemma {:induction false} EventComesOff(lines: seq<Text>, rest: Text, buffer: Text)
    requires |lines| > 0 && AllUnbroken(lines)
    ensures Dispatched(CompleteLines(Join(DataLines(lines), [LF]) + [LF, LF] + rest), buffer)
            == [buffer + Join(lines, [LF])] + Dispatched(CompleteLines(rest), [])
    decreases |lines|
  {
    if |lines| == 1 {
      assert lines == [lines[0]];
      OneLineEvent(lines[0], rest, buffer);
    } else {
      FieldsJoined(lines, rest);
      DataLineComesOff(lines[0], Join(DataLines(lines[1..]), [LF]) + [LF, LF] + rest, buffer);
      EventComesOff(lines[1..], rest, buffer + (lines[0] + [LF]));
      LinesJoined(buffer, lines);
    }
  }

  function AllNormalised(chunks: seq<Text>): seq<Text> {
    seq(|chunks|, i requires 0 <= i < |chunks| => Normalised(chunks[i]))
  }

  lemma {:induction false} LinesDecode(chunks: seq<Text>)
    ensures Dispatched(CompleteLines(Streamed(chunks)), []) == AllNormalised(chunks)
    decreases |chunks|
  {
    if |chunks| == 0 {
      assert CompleteLines([]) == [];
    } else {
      var lines, rest := SplitLines(chunks[0]), Streamed(chunks[1..]);
      LinesAreUnbroken(chunks[0]);
      LinesJoinNormalised(chunks[0]);
      EventComesOff(lines, rest, []);
      LinesDecode(chunks[1..]);
      assert [] + Join(lines, [LF]) == Join(lines, [LF]);
      assert AllNormalised(chunks) == [Normalised(chunks[0])] + AllNormalised(chunks[1..]);
    }
  }

  lemma StreamStartsPlain(chunks: seq<Text>)
    requires |chunks| > 0
    ensures |Streamed(chunks)| > 0 && Streamed(chunks)[0] != BYTE_ORDER_MARK
  {
    var fields := DataLines(SplitLines(chunks[0]));
    DataFieldIsPlain([]);
    assert fields[0][0] == DataField()[0] == 100;
    assert Join(fields, [LF])[0] == fields[0][0];
    assert Streamed(chunks)[0] == StreamEvent(chunks[0])[0] == Join(fields, [LF])[0];
  }

  /** A client gets one event per chunk, in order, each holding its chunk with every line break as LF. */
  lemma DecodingGivesTheChunks(chunks: seq<Text>)
    ensures Decode(Streamed(chunks)) == AllNormalised(chunks)
  {
    if |chunks| > 0 { StreamStartsPlain(chunks); }
    LinesDecode(chunks);
  }

  lemma {:induction false} PlainTextIsNormal(text: Text)
    requires CR !in text
    ensures Normalised(text) == text
    decreases |text|
  {
    if |text| > 0 {
      assert text[0] in text;
      PlainTextIsNormal(text[1..]);
    }
  }

  /** Text without carriage returns arrives unchanged. */
  lemma PlainChunksArriveUnchanged(chunks: seq<Text>)
    requires forall i | 0 <= i < |chunks| :: CR !in chunks[i]
    ensures Decode(Streamed(chunks)) == chunks
  {
    DecodingGivesTheChunks(chunks);
    forall i | 0 <= i < |chunks| ensures Normalised(chunks[i]) == chunks[i] { PlainTextIsNormal(chunks[i]); }
  }
}
