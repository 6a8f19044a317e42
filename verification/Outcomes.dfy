/** Text as the program's runtime has it: UTF-16 code units. */
module Texts {
  type CodeUnit = c: int | 0 <= c < 0x1_0000

  type Text = seq<CodeUnit>

  function AsciiUnit(c: char): CodeUnit {
    if c < 128 as char then c as int else 0
  }

  /** A literal as code units. */
  function Ascii(s: string): (t: Text)
    ensures |t| == |s| && (|s| > 0 ==> t[0] == AsciiUnit(s[0]))
  {
    seq(|s|, i requires 0 <= i < |s| => AsciiUnit(s[i]))
  }

  /** Texts one after another, with a separator between neighbours. */
  function Join(texts: seq<Text>, separator: Text): Text {
    if |texts| == 0 then [] else if |texts| == 1 then texts[0] else texts[0] + separator + Join(texts[1..], separator)
  }

  /** Two texts joined by a separator that the first does not contain are told apart again. */
  lemma {:induction false} SeparatorTells(n: Text, r: Text, m: Text, s: Text, separator: CodeUnit)
    requires separator !in n && separator !in m && n + [separator] + r == m + [separator] + s
    ensures n == m && r == s
    decreases |n|
  {
    var left, right := n + [separator] + r, m + [separator] + s;
    assert left[0] == if n == [] then separator else n[0];
    assert right[0] == if m == [] then separator else m[0];
    if n == [] || m == [] {
      assert r == left[1..] && s == right[1..];
    } else {
      assert n[1..] + [separator] + r == left[1..] && m[1..] + [separator] + s == right[1..];
      SeparatorTells(n[1..], r, m[1..], s, separator);
      assert n == [n[0]] + n[1..] && m == [m[0]] + m[1..];
    }
  }

  /** The runtime's own order on strings: by code units. */
  predicate LexLess(a: Text, b: Text)
    decreases |a|
  {
    |b| > 0 && (|a| == 0 || a[0] < b[0] || (a[0] == b[0] && LexLess(a[1..], b[1..])))
  }

  lemma {:induction false} LexTotal(a: Text, b: Text)
    ensures !(LexLess(a, b) && LexLess(b, a))
    ensures a == b <==> !LexLess(a, b) && !LexLess(b, a)
    decreases |a|
  {
    if |a| > 0 && |b| > 0 && a[0] == b[0] {
      LexTotal(a[1..], b[1..]);
      assert a == [a[0]] + a[1..] && b == [b[0]] + b[1..];
    }
  }

  lemma {:induction false} LexTransitive(a: Text, b: Text, c: Text)
    requires LexLess(a, b) && LexLess(b, c)
    ensures LexLess(a, c)
    decreases |a|
  {
    if |a| > 0 && a[0] == b[0] == c[0] {
      LexTransitive(a[1..], b[1..], c[1..]);
    }
  }
}

/** The two result shapes every port of the program answers with. */
module Outcomes {
  datatype Option<+T> = None | Some(value: T)

  datatype Result<+T, +E> = Ok(value: T) | Err(error: E)
}
