/**
 Reading JSON by its grammar (sections 2 to 7 of RFC 8259, without the optional white space), and that the canonical
 text reads back as the canonical tree (src/primitives/domain/language/canonical-json.ts).
 */
module JsonReader {
  import opened Outcomes
  import opened Texts
  import opened CanonicalJson

  // ---- Strings -------------------------------------------------------------------------------------------------

  function HexValue(c: CodeUnit): Option<nat> {
    if '0' as int <= c <= '9' as int then Some(c - '0' as int)
    else if 'a' as int <= c <= 'f' as int then Some(c - 'a' as int + 10)
    else if 'A' as int <= c <= 'F' as int then Some(c - 'A' as int + 10)
    else None
  }

  /** The code unit that four hexadecimal digits name. */
  function ReadHex(text: Text): Option<CodeUnit> {
    if |text| < 4 then None
    else
      var (a, b, c, d) := (HexValue(text[0]), HexValue(text[1]), HexValue(text[2]), HexValue(text[3]));
      if a.None? || b.None? || c.None? || d.None? || a.value > 15 || b.value > 15 || c.value > 15
          || d.value > 15 then None
      else Some(((a.value * 16 + b.value) * 16 + c.value) * 16 + d.value)
  }

  /** What follows a backslash: the code unit it stands for, and what comes after. */
  function ReadEscape(text: Text): (r: Option<(CodeUnit, Text)>)
    ensures r.Some? ==> |r.value.1| < |text|
  {
    if |text| == 0 then None
    else if text[0] == '"' as int || text[0] == '\\' as int || text[0] == '/' as int then Some((text[0], text[1..]))
    else if text[0] == 'b' as int then Some((8, text[1..]))
    else if text[0] == 'f' as int then Some((12, text[1..]))
    else if text[0] == 'n' as int then Some((10, text[1..]))
    else if text[0] == 'r' as int then Some((13, text[1..]))
    else if text[0] == 't' as int then Some((9, text[1..]))
    else if text[0] == 'u' as int && ReadHex(text[1..]).Some? then Some((ReadHex(text[1..]).value, text[5..]))
    else None
  }

  /** The rest of a string after its opening quote; control characters must be escaped. */
  function ReadString(text: Text): (r: Option<(Text, Text)>)
    ensures r.Some? ==> |r.value.1| < |text|
    decreases |text|
  {
    if |text| == 0 || text[0] < 0x20 then None
    else if text[0] == '"' as int then Some(([], text[1..]))
    else if text[0] == '\\' as int then
      var escape := ReadEscape(text[1..]);
      if escape.None? then None
      else
        var more := ReadString(escape.value.1);
        if more.None? then None else Some(([escape.value.0] + more.value.0, more.value.1))
    else
      var more := ReadString(text[1..]);
      if more.None? then None else Some(([text[0]] + more.value.0, more.value.1))
  }

  // ---- Values --------------------------------------------------------------------------------------------------

  /** The longest stretch of units a number is made of. */
  function NumberPrefix(text: Text): (n: nat)
    ensures n <= |text| && (forall i | 0 <= i < n :: IsNumberUnit(text[i])) && (n < |text| ==> !IsNumberUnit(text[n]))
  {
    if |text| == 0 || !IsNumberUnit(text[0]) then 0 else 1 + NumberPrefix(text[1..])
  }

  predicate Begins(text: Text, word: string) {
    |word| <= |text| && forall i | 0 <= i < |word| :: text[i] == AsciiUnit(word[i])
  }

  function ReadValue(text: Text): (r: Option<(Json, Text)>)
    ensures r.Some? ==> |r.value.1| < |text|
    decreases |text|, 1
  {
    if |text| == 0 then None
    else if Begins(text, "null") then Some((Null, text[4..]))
    else if Begins(text, "true") then Some((Bool(true), text[4..]))
    else if Begins(text, "false") then Some((Bool(false), text[5..]))
    else if text[0] == '"' as int then
      var read := ReadString(text[1..]);
      if read.None? then None else Some((Str(read.value.0), read.value.1))
    else if text[0] == '[' as int then
      if |text| > 1 && text[1] == ']' as int then Some((Arr([]), text[2..]))
      else
        var read := ReadItems(text[1..]);
        if read.None? then None else Some((Arr(read.value.0), read.value.1))
    else if text[0] == '{' as int then
      if |text| > 1 && text[1] == '}' as int then Some((Obj([]), text[2..]))
      else
        var read := ReadFields(text[1..]);
        if read.None? then None else Some((Obj(read.value.0), read.value.1))
    else if IsDigit(text[0]) || text[0] == '-' as int then
      Some((Number(text[..NumberPrefix(text)]), text[NumberPrefix(text)..]))
    else None
  }

  /** One item or more, and the closing bracket. */
  function ReadItems(text: Text): (r: Option<(seq<Json>, Text)>)
    ensures r.Some? ==> |r.value.1| < |text|
    decreases |text|, 2
  {
    var item := ReadValue(text);
    if item.None? || |item.value.1| == 0 then None
    else if item.value.1[0] == ']' as int then Some(([item.value.0], item.value.1[1..]))
    else if item.value.1[0] != ',' as int then None
    else
      var more := ReadItems(item.value.1[1..]);
      if more.None? then None else Some(([item.value.0] + more.value.0, more.value.1))
  }

  /** One field or more, and the closing brace. */
  function ReadFields(text: Text): (r: Option<(seq<Field>, Text)>)
    ensures r.Some? ==> |r.value.1| < |text|
    decreases |text|, 2
  {
    if |text| == 0 || text[0] != '"' as int then None
    else
      var name := ReadString(text[1..]);
      if name.None? || |name.value.1| == 0 || name.value.1[0] != ':' as int then None
      else
        var value := ReadValue(name.value.1[1..]);
        if value.None? || |value.value.1| == 0 then None
        else
          var (field, after) := (Field(name.value.0, value.value.0), value.value.1);
          if after[0] == '}' as int then Some(([field], after[1..]))
          else if after[0] != ',' as int then None
          else
            var more := ReadFields(after[1..]);
            if more.None? then None else Some(([field] + more.value.0, more.value.1))
  }

  // ---- What is printed reads back ------------------------------------------------------------------------------

  lemma HexDigitReads(n: nat)
    requires n < 16
    ensures HexValue(HexDigit(n)) == Some(n)
  {
  }

  lemma FourDigitsRead(c: CodeUnit, rest: Text)
    ensures ReadHex([HexDigit(c / 4096), HexDigit(c / 256 % 16), HexDigit(c / 16 % 16), HexDigit(c % 16)] + rest)
            == Some(c)
  {
    HexDigitReads(c / 4096);
    HexDigitReads(c / 256 % 16);
    HexDigitReads(c / 16 % 16);
    HexDigitReads(c % 16);
    FourDigits(c);
  }

  /** A unit that is printed with a backslash reads back as itself. */
  lemma EscapeReads(c: CodeUnit, rest: Text)
    requires |EscapeUnit(c)| > 1
    ensures EscapeUnit(c)[0] == 92 && ReadEscape(EscapeUnit(c)[1..] + rest) == Some((c, rest))
  {
    var body := EscapeUnit(c)[1..] + rest;
    if |EscapeUnit(c)| == 2 {
      assert body[1..] == rest;
    } else {
      var digits := [HexDigit(c / 4096), HexDigit(c / 256 % 16), HexDigit(c / 16 % 16), HexDigit(c % 16)];
      FourDigitsRead(c, rest);
      assert body[0] == 117 && body[1..] == digits + rest && body[5..] == rest;
    }
  }

  lemma PlainUnits(c: CodeUnit)
    ensures |EscapeUnit(c)| == 1 ==> EscapeUnit(c) == [c] && c >= 0x20 && c != 34 && c != 92
    ensures |EscapeUnit(c)| == 1 || |EscapeUnit(c)| == 2 || |EscapeUnit(c)| == 6
  {
  }

  lemma UnitReads(c: CodeUnit, s: Text, more: Text, rest: Text)
    requires ReadString(more) == Some((s, rest))
    ensures ReadString(EscapeUnit(c) + more) == Some(([c] + s, rest))
  {
    var (e, text) := (EscapeUnit(c), EscapeUnit(c) + more);
    PlainUnits(c);
    if |e| > 1 {
      EscapeReads(c, more);
      assert text[0] == 92 && text[1..] == e[1..] + more;
    } else {
      assert text[0] == c && text[1..] == more;
    }
  }

  lemma PairReads(a: CodeUnit, b: CodeUnit, s: Text, more: Text, rest: Text)
    requires IsPair([a, b]) && ReadString(more) == Some((s, rest))
    ensures ReadString([a, b] + more) == Some(([a, b] + s, rest))
  {
    var text := [a, b] + more;
    assert text[1..] == [b] + more && text[1..][1..] == more;
    assert ReadString(text[1..]) == Some(([b] + s, rest));
    assert [a] + ([b] + s) == [a, b] + s;
  }

  lemma {:induction false} EscapedReads(s: Text, rest: Text)
    ensures ReadString(Escaped(s, rest)) == Some((s, rest))
    decreases |s|
  {
    if |s| == 0 {
      assert Escaped(s, rest)[1..] == rest;
    } else if IsPair(s) {
      EscapedReads(s[2..], rest);
      PairReads(s[0], s[1], s[2..], Escaped(s[2..], rest), rest);
      assert [s[0], s[1]] + s[2..] == s;
    } else {
      EscapedReads(s[1..], rest);
      UnitReads(s[0], s[1..], Escaped(s[1..], rest), rest);
      assert [s[0]] + s[1..] == s;
    }
  }

  lemma {:induction false} NumberEnds(digits: Text, rest: Text)
    requires (forall c | c in digits :: IsNumberUnit(c)) && Delimited(rest)
    ensures NumberPrefix(digits + rest) == |digits|
    decreases |digits|
  {
    if |digits| == 0 {
      assert digits + rest == rest;
    } else {
      assert (digits + rest)[1..] == digits[1..] + rest;
      NumberEnds(digits[1..], rest);
    }
  }

  lemma WordReads(word: Text, rest: Text)
    requires word == [110, 117, 108, 108] || word == [116, 114, 117, 101] || word == [102, 97, 108, 115, 101]
    ensures ReadValue(word + rest) ==
            Some((if word[0] == 110 then Null else Bool(word[0] == 116), rest))
  {
    var text := word + rest;
    assert text[..|word|] == word && text[|word|..] == rest;
    assert text[0] == word[0] && text[1] == word[1] && text[2] == word[2] && text[3] == word[3];
    if |word| == 5 { assert text[4] == word[4]; }
  }

  lemma NumberReads(digits: Text, rest: Text)
    requires IsNumberText(digits) && Delimited(rest)
    ensures ReadValue(digits + rest) == Some((Number(digits), rest))
  {
    var text := digits + rest;
    NumberEnds(digits, rest);
    assert text[0] == digits[0] && text[..|digits|] == digits && text[|digits|..] == rest;
  }

  lemma StrReads(s: Text, rest: Text)
    ensures ReadValue(Print(Str(s), rest)) == Some((Str(s), rest))
  {
    var text := Print(Str(s), rest);
    EscapedReads(s, rest);
    assert text[0] == 34 && text[1..] == Escaped(s, rest);
  }

  lemma BracketReads(text: Text)
    requires |text| > 1 && text[0] == 91
    ensures ReadValue(text) ==
            if text[1] == 93 then Some((Arr([]), text[2..]))
            else if ReadItems(text[1..]).None? then None
            else Some((Arr(ReadItems(text[1..]).value.0), ReadItems(text[1..]).value.1))
  {
    assert !Begins(text, "null") && !Begins(text, "true") && !Begins(text, "false");
  }

  lemma BraceReads(text: Text)
    requires |text| > 1 && text[0] == 123
    ensures ReadValue(text) ==
            if text[1] == 125 then Some((Obj([]), text[2..]))
            else if ReadFields(text[1..]).None? then None
            else Some((Obj(ReadFields(text[1..]).value.0), ReadFields(text[1..]).value.1))
  {
    assert !Begins(text, "null") && !Begins(text, "true") && !Begins(text, "false");
  }

  lemma ArrReads(items: seq<Json>, rest: Text)
    requires forall i | 0 <= i < |items| :: WellFormed(items[i])
    requires |items| > 0 ==> ReadItems(PrintItems(items, rest)) == Some((items, rest))
    ensures ReadValue([91] + PrintItems(items, rest)) == Some((Arr(items), rest))
  {
    var (inner, text) := (PrintItems(items, rest), [91] + PrintItems(items, rest));
    PrintItemsOpens(items, rest);
    assert text[1..] == inner && text[2..] == inner[1..];
    BracketReads(text);
  }

  lemma ObjReads(fields: seq<Field>, rest: Text)
    requires |fields| > 0 ==> ReadFields(PrintFields(fields, rest)) == Some((fields, rest))
    ensures ReadValue([123] + PrintFields(fields, rest)) == Some((Obj(fields), rest))
  {
    var (inner, text) := (PrintFields(fields, rest), [123] + PrintFields(fields, rest));
    PrintFieldsOpens(fields, rest);
    assert text[1..] == inner && text[2..] == inner[1..];
    BraceReads(text);
    if |fields| == 0 { assert inner[1..] == rest; }
  }

  /** A printed tree reads back as itself, off the front of whatever follows. */
  lemma {:induction false} PrintedReads(j: Json, rest: Text)
    requires WellFormed(j) && Delimited(rest)
    ensures ReadValue(Print(j, rest)) == Some((j, rest))
    decreases j, 1
  {
    match j {
      case Null => WordReads([110, 117, 108, 108], rest);
      case Bool(value) => WordReads(if value then [116, 114, 117, 101] else [102, 97, 108, 115, 101], rest);
      case Number(digits) => NumberReads(digits, rest);
      case Str(s) => StrReads(s, rest);
      case Arr(items) =>
        if |items| > 0 { ItemsRead(items, rest); }
        ArrReads(items, rest);
      case Obj(fields) =>
        if |fields| > 0 { FieldsRead(fields, rest); }
        ObjReads(fields, rest);
    }
  }

  lemma {:induction false} ItemsRead(items: seq<Json>, rest: Text)
    requires |items| > 0 && forall i | 0 <= i < |items| :: WellFormed(items[i])
    ensures ReadItems(PrintItems(items, rest)) == Some((items, rest))
    decreases items, 0
  {
    var after := AfterItem(items, rest);
    PrintItemsOpens(items, rest);
    PrintedReads(items[0], after);
    if |items| == 1 {
      assert after[1..] == rest && items == [items[0]];
    } else {
      ItemsRead(items[1..], rest);
      assert after[1..] == PrintItems(items[1..], rest) && items == [items[0]] + items[1..];
    }
  }

  lemma {:induction false} FieldsRead(fields: seq<Field>, rest: Text)
    requires |fields| > 0 && forall i | 0 <= i < |fields| :: WellFormed(fields[i].value)
    ensures ReadFields(PrintFields(fields, rest)) == Some((fields, rest))
    decreases fields, 0
  {
    var (first, after, text) := (fields[0], AfterField(fields, rest), PrintFields(fields, rest));
    var value := Print(first.value, after);
    EscapedReads(first.name, [58] + value);
    assert text[0] == 34 && text[1..] == Escaped(first.name, [58] + value);
    assert ([58] + value)[1..] == value;
    PrintedReads(first.value, after);
    if |fields| == 1 {
      assert after[1..] == rest && fields == [first];
    } else {
      FieldsRead(fields[1..], rest);
      assert after[1..] == PrintFields(fields[1..], rest) && fields == [first] + fields[1..];
    }
  }

  /** The canonical text is JSON, and reads back as the canonical tree. */
  lemma CanonicalTextReadsBack(value: Json)
    requires WellFormed(value)
    ensures ReadValue(CanonicalText(value)) == Some((Canonical(value), []))
  {
    CanonicalWellFormed(value);
    PrintedReads(Canonical(value), []);
  }
}
