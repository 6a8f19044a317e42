/**
 Deterministic JSON: field names sorted at every depth, then printed (src/primitives/domain/language/canonical-json.ts).

 A finite number is represented by the text that
 Number::toString gives it, so the numbers of this model are exactly the finite numbers up to the sign of zero.
 */
module CanonicalJson {
  import opened Texts

  /** A JSON tree; an object keeps its fields in insertion order. */
  datatype Json =
    | Null
    | Bool(value: bool)
    | Number(digits: Text)
    | Str(text: Text)
    | Arr(items: seq<Json>)
    | Obj(fields: seq<Field>)

  datatype Field = Field(name: Text, value: Json)

  /** Assigning to this name sets an object's prototype instead of creating a field. */
  const PROTO: Text := [95, 95, 112, 114, 111, 116, 111, 95, 95]

  predicate IsDigit(c: CodeUnit) {
    48 <= c <= 57
  }

  predicate IsNumberUnit(c: CodeUnit) {
    IsDigit(c) || c == 43 || c == 45 || c == 46 || c == 101
  }

  predicate IsNumberText(t: Text) {
    && 0 < |t|
    && (IsDigit(t[0]) || t[0] == 45)
    && forall c | c in t :: IsNumberUnit(c)
  }

  predicate DistinctNames(fields: seq<Field>) {
    forall i, j | 0 <= i < j < |fields| :: fields[i].name != fields[j].name
  }

  predicate WellFormed(j: Json)
    decreases j
  {
    match j
    case Number(digits) => IsNumberText(digits)
    case Arr(items) => forall i | 0 <= i < |items| :: WellFormed(items[i])
    case Obj(fields) => DistinctNames(fields) && forall i | 0 <= i < |fields| :: WellFormed(fields[i].value)
    case _ => true
  }

  /** No object anywhere in the tree has a field with this name. */
  predicate NeverNames(j: Json, name: Text)
    decreases j
  {
    match j
    case Arr(items) => forall i | 0 <= i < |items| :: NeverNames(items[i], name)
    case Obj(fields) => forall i | 0 <= i < |fields| :: fields[i].name != name && NeverNames(fields[i].value, name)
    case _ => true
  }

  predicate HasName(fields: seq<Field>, name: Text) {
    exists i :: 0 <= i < |fields| && fields[i].name == name
  }

  /** The value of an object's field with this name. */
  function ValueOf(fields: seq<Field>, name: Text): (value: Json)
    requires HasName(fields, name)
    ensures Field(name, value) in fields
  {
    if fields[0].name == name then fields[0].value
    else
      assert HasName(fields[1..], name) by {
        var i :| 0 <= i < |fields| && fields[i].name == name;
        assert fields[1..][i - 1].name == name;
      }
      ValueOf(fields[1..], name)
  }

  /** The same tree up to the order of the fields at every depth, not looking at fields with an ignored name. */
  ghost predicate SameTree(a: Json, b: Json, ignored: set<Text>)
    decreases a
  {
    match (a, b)
    case (Arr(xs), Arr(ys)) => |xs| == |ys| && forall i | 0 <= i < |xs| :: SameTree(xs[i], ys[i], ignored)
    case (Obj(fs), Obj(gs)) =>
      && (forall k | 0 <= k < |gs| && gs[k].name !in ignored :: HasName(fs, gs[k].name))
      && (forall i | 0 <= i < |fs| && fs[i].name !in ignored ::
            HasName(gs, fs[i].name) && SameTree(fs[i].value, ValueOf(gs, fs[i].name), ignored))
    case _ => a == b
  }

  // ---- Name order -------------------------------------------------------------------------------------------

  /** An array index: a decimal numeral without leading zeros below 2^32 - 1. */
  predicate IsIndex(t: Text) {
    && 0 < |t| <= 10
    && (forall c | c in t :: IsDigit(c))
    && (|t| == 1 || t[0] != 48)
    && (|t| == 10 ==> LexLess(t, [52, 50, 57, 52, 57, 54, 55, 50, 57, 53]))
  }

  /** Own-property order of an object filled in sorted name order: array indices ascending, then the other names. */
  predicate Precedes(a: Text, b: Text) {
    if IsIndex(a) && IsIndex(b) then |a| < |b| || (|a| == |b| && LexLess(a, b))
    else if IsIndex(a) || IsIndex(b) then IsIndex(a)
    else LexLess(a, b)
  }

  /** Own-property order is a strict total order on names. */
  lemma PrecedesIsStrictTotal(a: Text, b: Text, c: Text)
    ensures !(Precedes(a, b) && Precedes(b, a))
    ensures a == b <==> !Precedes(a, b) && !Precedes(b, a)
    ensures Precedes(a, b) && Precedes(b, c) ==> Precedes(a, c)
  {
    LexTotal(a, b);
    if LexLess(a, b) && LexLess(b, c) { LexTransitive(a, b, c); }
  }

  // ---- Sorting the fields of one object ----------------------------------------------------------------------

  ghost predicate StrictlyOrdered(fields: seq<Field>) {
    forall i, j | 0 <= i < j < |fields| :: Precedes(fields[i].name, fields[j].name)
  }

  /** Put one field at its place in own-property order. */
  function Place(fields: seq<Field>, f: Field): seq<Field> {
    if |fields| == 0 || Precedes(f.name, fields[0].name) then [f] + fields
    else [fields[0]] + Place(fields[1..], f)
  }

  /** The fields of an object in canonical order. */
  function Arrange(fields: seq<Field>): seq<Field> {
    if |fields| == 0 then [] else Place(Arrange(fields[1..]), fields[0])
  }

  lemma {:induction false} PlaceOrdered(fields: seq<Field>, f: Field)
    requires StrictlyOrdered(fields)
    requires forall g | g in fields :: g.name != f.name
    ensures StrictlyOrdered(Place(fields, f))
    ensures forall g :: g in Place(fields, f) <==> g == f || g in fields
  {
    if |fields| == 0 {
    } else if Precedes(f.name, fields[0].name) {
      forall k | 0 <= k < |fields| ensures Precedes(f.name, fields[k].name) {
        PrecedesIsStrictTotal(f.name, fields[0].name, fields[k].name);
      }
    } else {
      PlaceOrdered(fields[1..], f);
      PrecedesIsStrictTotal(f.name, fields[0].name, f.name);
      var rest := Place(fields[1..], f);
      assert forall g :: g in fields <==> g == fields[0] || g in fields[1..];
      forall k | 0 <= k < |rest| ensures Precedes(fields[0].name, rest[k].name) {
        assert rest[k] in rest;
      }
    }
  }

  lemma {:induction false} ArrangeOrdered(fields: seq<Field>)
    requires DistinctNames(fields)
    ensures StrictlyOrdered(Arrange(fields))
    ensures forall g :: g in Arrange(fields) <==> g in fields
  {
    if |fields| > 0 {
      ArrangeOrdered(fields[1..]);
      PlaceOrdered(Arrange(fields[1..]), fields[0]);
      assert forall g :: g in fields <==> g == fields[0] || g in fields[1..];
    }
  }

  /** Strictly ordered sequences of the same fields are the same sequence, so sorting forgets the input order. */
  lemma {:induction false} OrderedUnique(a: seq<Field>, b: seq<Field>)
    requires StrictlyOrdered(a) && StrictlyOrdered(b)
    requires forall g :: g in a <==> g in b
    ensures a == b
  {
    assert (|a| > 0 ==> a[0] in b) && (|b| > 0 ==> b[0] in a);
    if |a| > 0 {
      var i :| 0 <= i < |b| && b[i] == a[0];
      var k :| 0 <= k < |a| && a[k] == b[0];
      PrecedesIsStrictTotal(a[0].name, b[0].name, a[0].name);
      assert a[0] == b[0];
      forall g ensures g in a[1..] <==> g in b[1..] {
        PrecedesIsStrictTotal(a[0].name, a[0].name, a[0].name);
        if g in a[1..] { assert g in a && g.name != a[0].name; }
        if g in b[1..] { assert g in b && g.name != b[0].name; }
      }
      OrderedUnique(a[1..], b[1..]);
      assert a == [a[0]] + a[1..] && b == [b[0]] + b[1..];
    }
  }

  /** Object.keys(member).sort(). */
  function SortNames(fields: seq<Field>): (names: seq<Text>)
  {
    if |fields| == 0 then [] else InsertName(SortNames(fields[1..]), fields[0].name)
  }

  function InsertName(names: seq<Text>, name: Text): seq<Text> {
    if |names| == 0 || LexLess(name, names[0]) then [name] + names
    else [names[0]] + InsertName(names[1..], name)
  }

  ghost predicate LexSorted(names: seq<Text>) {
    forall i, j | 0 <= i < j < |names| :: LexLess(names[i], names[j])
  }

  lemma {:induction false} InsertNameSorted(names: seq<Text>, name: Text)
    requires LexSorted(names) && name !in names
    ensures LexSorted(InsertName(names, name))
    ensures forall n :: n in InsertName(names, name) <==> n == name || n in names
  {
    if |names| == 0 {
    } else if LexLess(name, names[0]) {
      forall k | 0 < k < |names| ensures LexLess(name, names[k]) {
        LexTransitive(name, names[0], names[k]);
      }
    } else {
      LexTotal(name, names[0]);
      InsertNameSorted(names[1..], name);
      assert forall n :: n in names <==> n == names[0] || n in names[1..];
      var rest := InsertName(names[1..], name);
      forall k | 0 <= k < |rest| ensures LexLess(names[0], rest[k]) {
        assert rest[k] in rest;
      }
    }
  }

  lemma {:induction false} SortNamesSorted(fields: seq<Field>)
    requires DistinctNames(fields)
    ensures LexSorted(SortNames(fields))
    ensures forall n :: n in SortNames(fields) <==> HasName(fields, n)
  {
    if |fields| > 0 {
      SortNamesSorted(fields[1..]);
      InsertNameSorted(SortNames(fields[1..]), fields[0].name);
      forall n | HasName(fields, n) ensures n in SortNames(fields) {
        var i :| 0 <= i < |fields| && fields[i].name == n;
        if i > 0 { assert fields[1..][i - 1].name == n; }
      }
    }
  }

  /** `sorted[name] = value` on a fresh object that has no such field yet. */
  function SetProperty(record: seq<Field>, name: Text, value: Json): seq<Field> {
    if name == PROTO then record
    else if IsIndex(name) then Place(record, Field(name, value))
    else record + [Field(name, value)]
  }

  /** The object's own fields that survive being assigned one by one. */
  function Assignable(fields: seq<Field>): (kept: seq<Field>)
    ensures forall g :: g in kept <==> g in fields && g.name != PROTO
  {
    if |fields| == 0 then []
    else if fields[0].name == PROTO then Assignable(fields[1..])
    else [fields[0]] + Assignable(fields[1..])
  }

  lemma {:induction false} AssignableDistinct(fields: seq<Field>)
    requires DistinctNames(fields)
    ensures DistinctNames(Assignable(fields))
  {
    if |fields| > 0 {
      AssignableDistinct(fields[1..]);
      var rest := Assignable(fields[1..]);
      forall k | 0 <= k < |rest| ensures rest[k].name != fields[0].name {
        assert rest[k] in rest;
      }
    }
  }

  /** One object's fields copied in sorted order: exactly the canonical arrangement of the assignable fields. */
  method SortKeys(member: seq<Field>) returns (sorted: seq<Field>)
    requires DistinctNames(member)
    ensures sorted == Arrange(Assignable(member))
  {
    SortNamesSorted(member);
    var names := SortNames(member);
    sorted := [];
    for i := 0 to |names|
      invariant StrictlyOrdered(sorted)
      invariant forall g :: g in sorted <==> g in member && g.name != PROTO && g.name in names[..i]
    {
      var name := names[i];
      assert name in names && HasName(member, name);
      var value := ValueOf(member, name);
      ghost var before := sorted;
      assert name !in names[..i] by {
        if name in names[..i] { var j :| 0 <= j < i && names[j] == name; LexTotal(name, name); }
      }
      assert forall g | g in before :: g.name != name;
      PlaceOrdered(before, Field(name, value));
      if !IsIndex(name) { AppendOrdered(before, name, value, names[..i]); }
      sorted := SetProperty(sorted, name, value);
      assert forall n :: n in names[..i + 1] <==> n in names[..i] || n == name;
      forall g | g in member && g.name == name ensures g == Field(name, value) {
      }
    }
    AssignableDistinct(member);
    ArrangeOrdered(Assignable(member));
    assert names[..|names|] == names;
    forall g | g in member ensures g.name in names {
      var i :| 0 <= i < |member| && member[i] == g;
    }
    OrderedUnique(sorted, Arrange(Assignable(member)));
  }

  lemma AppendOrdered(before: seq<Field>, name: Text, value: Json, processed: seq<Text>)
    requires StrictlyOrdered(before)
    requires forall g | g in before :: g.name in processed
    requires forall n | n in processed :: LexLess(n, name)
    requires !IsIndex(name)
    ensures StrictlyOrdered(before + [Field(name, value)])
  {
    forall k | 0 <= k < |before| ensures Precedes(before[k].name, name) {
      assert before[k] in before;
    }
  }

  // ---- Canonical form ----------------------------------------------------------------------------------------

  /** Every object of the tree replaced by its sorted copy, members first visited through the copy. */
  function Canonical(j: Json): (c: Json)
    decreases j
  {
    match j
    case Arr(items) => Arr(CanonicalItems(items))
    case Obj(fields) => Obj(Arrange(CanonicalFields(fields)))
    case _ => j
  }

  function CanonicalItems(items: seq<Json>): (c: seq<Json>)
    ensures |c| == |items| && forall i | 0 <= i < |items| :: c[i] == Canonical(items[i])
    decreases items
  {
    if |items| == 0 then [] else [Canonical(items[0])] + CanonicalItems(items[1..])
  }

  /** The assignable fields with canonical values; sorting before or after makes no difference, as names stay. */
  function CanonicalFields(fields: seq<Field>): (c: seq<Field>)
    ensures forall g | g in c :: g.name != PROTO && exists i ::
            0 <= i < |fields| && fields[i].name == g.name && g.value == Canonical(fields[i].value)
    ensures forall i | 0 <= i < |fields| && fields[i].name != PROTO ::
            Field(fields[i].name, Canonical(fields[i].value)) in c
    decreases fields
  {
    if |fields| == 0 then []
    else
      var rest := CanonicalFields(fields[1..]);
      assert forall i | 0 < i < |fields| :: fields[i] == fields[1..][i - 1];
      assert forall i | 0 <= i < |fields| - 1 :: fields[1..][i] == fields[i + 1];
      if fields[0].name == PROTO then rest
      else [Field(fields[0].name, Canonical(fields[0].value))] + rest
  }

  lemma {:induction false} CanonicalFieldsDistinct(fields: seq<Field>)
    requires DistinctNames(fields)
    ensures DistinctNames(CanonicalFields(fields))
  {
    if |fields| > 0 {
      CanonicalFieldsDistinct(fields[1..]);
      var rest := CanonicalFields(fields[1..]);
      forall k | 0 <= k < |rest| ensures rest[k].name != fields[0].name {
        assert rest[k] in rest;
        var i :| 0 <= i < |fields[1..]| && fields[1..][i].name == rest[k].name;
      }
    }
  }

  /** Two trees have one canonical form exactly when they are the same tree up to field order (and `__proto__`). */
  lemma {:induction false} CanonicalDecidesSameTree(a: Json, b: Json)
    requires WellFormed(a) && WellFormed(b)
    ensures Canonical(a) == Canonical(b) <==> SameTree(a, b, {PROTO})
    decreases a, 1
  {
    match (a, b) {
      case (Arr(xs), Arr(ys)) => CanonicalDecidesItems(xs, ys);
      case (Obj(fs), Obj(gs)) => CanonicalDecidesObjects(fs, gs);
      case _ =>
    }
  }

  lemma {:induction false} CanonicalDecidesItems(xs: seq<Json>, ys: seq<Json>)
    requires WellFormed(Arr(xs)) && WellFormed(Arr(ys))
    ensures Canonical(Arr(xs)) == Canonical(Arr(ys)) <==> SameTree(Arr(xs), Arr(ys), {PROTO})
    decreases Arr(xs), 0
  {
    if |xs| == |ys| {
      forall i | 0 <= i < |xs| ensures Canonical(xs[i]) == Canonical(ys[i]) <==> SameTree(xs[i], ys[i], {PROTO}) {
        CanonicalDecidesSameTree(xs[i], ys[i]);
      }
      if forall i | 0 <= i < |xs| :: Canonical(xs[i]) == Canonical(ys[i]) {
        assert CanonicalItems(xs) == CanonicalItems(ys);
      }
    }
  }

  /** Two objects' fields with a kept name correspond, with equal canonical values. */
  predicate FieldsAgree(fs: seq<Field>, gs: seq<Field>) {
    && (forall k | 0 <= k < |gs| && gs[k].name != PROTO :: HasName(fs, gs[k].name))
    && (forall i | 0 <= i < |fs| && fs[i].name != PROTO ::
          HasName(gs, fs[i].name) && Canonical(fs[i].value) == Canonical(ValueOf(gs, fs[i].name)))
  }

  /** Field by field, equal canonical values mean the same trees. */
  ghost predicate ValuesDecided(fs: seq<Field>, gs: seq<Field>) {
    forall i | 0 <= i < |fs| && HasName(gs, fs[i].name) ::
      Canonical(fs[i].value) == Canonical(ValueOf(gs, fs[i].name)) <==>
      SameTree(fs[i].value, ValueOf(gs, fs[i].name), {PROTO})
  }

  lemma AgreementIsSameness(fs: seq<Field>, gs: seq<Field>)
    requires ValuesDecided(fs, gs)
    ensures FieldsAgree(fs, gs) <==> SameTree(Obj(fs), Obj(gs), {PROTO})
  {
  }

  lemma {:induction false} CanonicalDecidesObjects(fs: seq<Field>, gs: seq<Field>)
    requires WellFormed(Obj(fs)) && WellFormed(Obj(gs))
    ensures Canonical(Obj(fs)) == Canonical(Obj(gs)) <==> SameTree(Obj(fs), Obj(gs), {PROTO})
    decreases Obj(fs), 0
  {
    forall i | 0 <= i < |fs| && HasName(gs, fs[i].name)
      ensures Canonical(fs[i].value) == Canonical(ValueOf(gs, fs[i].name)) <==>
              SameTree(fs[i].value, ValueOf(gs, fs[i].name), {PROTO})
    {
      var k :| 0 <= k < |gs| && gs[k] == Field(fs[i].name, ValueOf(gs, fs[i].name));
      CanonicalDecidesSameTree(fs[i].value, gs[k].value);
    }
    AgreementIsSameness(fs, gs);
    CanonicalDecidesFields(fs, gs);
  }

  lemma CanonicalDecidesFields(fs: seq<Field>, gs: seq<Field>)
    requires DistinctNames(fs) && DistinctNames(gs)
    ensures Canonical(Obj(fs)) == Canonical(Obj(gs)) <==> FieldsAgree(fs, gs)
  {
    var cf, cg := CanonicalFields(fs), CanonicalFields(gs);
    CanonicalFieldsDistinct(fs);
    CanonicalFieldsDistinct(gs);
    ArrangeOrdered(cf);
    ArrangeOrdered(cg);
    if Canonical(Obj(fs)) == Canonical(Obj(gs)) {
      assert forall g :: g in cf <==> g in cg;
      forall i | 0 <= i < |fs| && fs[i].name != PROTO
        ensures HasName(gs, fs[i].name) && Canonical(fs[i].value) == Canonical(ValueOf(gs, fs[i].name))
      {
        assert Field(fs[i].name, Canonical(fs[i].value)) in cg;
        var k :| 0 <= k < |gs| && gs[k].name == fs[i].name && Canonical(fs[i].value) == Canonical(gs[k].value);
        assert Field(fs[i].name, ValueOf(gs, fs[i].name)) in gs;
      }
      forall k | 0 <= k < |gs| && gs[k].name != PROTO ensures HasName(fs, gs[k].name) {
        assert Field(gs[k].name, Canonical(gs[k].value)) in cf;
      }
    }
    if FieldsAgree(fs, gs) {
      forall g | g in cf ensures g in cg {
        var i :| 0 <= i < |fs| && fs[i].name == g.name && g.value == Canonical(fs[i].value);
        var k :| 0 <= k < |gs| && gs[k] == Field(fs[i].name, ValueOf(gs, fs[i].name));
        assert Field(gs[k].name, Canonical(gs[k].value)) in cg;
      }
      forall g | g in cg ensures g in cf {
        var k :| 0 <= k < |gs| && gs[k].name == g.name && g.value == Canonical(gs[k].value);
        var i :| 0 <= i < |fs| && fs[i].name == gs[k].name;
        assert Field(fs[i].name, ValueOf(gs, fs[i].name)) in gs;
        assert Field(fs[i].name, Canonical(fs[i].value)) in cf;
      }
      OrderedUnique(Arrange(cf), Arrange(cg));
    }
  }

  lemma {:induction false} CanonicalWellFormed(j: Json)
    requires WellFormed(j)
    ensures WellFormed(Canonical(j))
    decreases j
  {
    match j {
      case Arr(items) =>
        forall i | 0 <= i < |items| ensures WellFormed(CanonicalItems(items)[i]) { CanonicalWellFormed(items[i]); }
      case Obj(fields) =>
        CanonicalFieldsDistinct(fields);
        ArrangeOrdered(CanonicalFields(fields));
        var sorted := Arrange(CanonicalFields(fields));
        forall k | 0 <= k < |sorted| ensures WellFormed(sorted[k].value) {
          assert sorted[k] in sorted;
          var i :| 0 <= i < |fields| && fields[i].name == sorted[k].name
              && sorted[k].value == Canonical(fields[i].value);
          CanonicalWellFormed(fields[i].value);
        }
        forall i, k | 0 <= i < k < |sorted| ensures sorted[i].name != sorted[k].name {
          PrecedesIsStrictTotal(sorted[i].name, sorted[k].name, sorted[i].name);
        }
      case _ =>
    }
  }

  // ---- Printing ----------------------------------------------------------------------------------------------

  function HexDigit(n: nat): CodeUnit
    requires n < 16
  {
    if n < 10 then 48 + n else 87 + n
  }

  predicate IsSurrogate(c: CodeUnit) {
    0xD800 <= c < 0xE000
  }

  predicate IsPair(s: Text) {
    |s| >= 2 && 0xD800 <= s[0] < 0xDC00 && 0xDC00 <= s[1] < 0xE000
  }

  /** The escape of one code unit that is not half of a surrogate pair (section 7 of RFC 8259). */
  function EscapeUnit(c: CodeUnit): (e: Text)
    ensures |e| > 0
  {
    if c == 8 then [92, 98]
    else if c == 9 then [92, 116]
    else if c == 10 then [92, 110]
    else if c == 12 then [92, 102]
    else if c == 13 then [92, 114]
    else if c == 34 || c == 92 then [92, c]
    else if c < 0x20 || IsSurrogate(c) then
      [92, 117, HexDigit(c / 4096), HexDigit(c / 256 % 16), HexDigit(c / 16 % 16), HexDigit(c % 16)]
    else [c]
  }

  // The printers below take the text that follows, so that printing only ever prepends.

  /** The escaped text and its closing quote, before `rest`. */
  function Escaped(s: Text, rest: Text): Text {
    if |s| == 0 then [34] + rest
    else if IsPair(s) then [s[0], s[1]] + Escaped(s[2..], rest)
    else EscapeUnit(s[0]) + Escaped(s[1..], rest)
  }

  function Quoted(s: Text, rest: Text): Text {
    [34] + Escaped(s, rest)
  }

  /** JSON.stringify of a tree, without white space, before `rest`. */
  function Print(j: Json, rest: Text): Text
    decreases j
  {
    match j
    case Null => [110, 117, 108, 108] + rest
    case Bool(value) => (if value then [116, 114, 117, 101] else [102, 97, 108, 115, 101]) + rest
    case Number(digits) => digits + rest
    case Str(text) => Quoted(text, rest)
    case Arr(items) => [91] + PrintItems(items, rest)
    case Obj(fields) => [123] + PrintFields(fields, rest)
  }

  /** The items and the closing bracket. */
  function PrintItems(items: seq<Json>, rest: Text): Text
    decreases items
  {
    if |items| == 0 then [93] + rest
    else Print(items[0], if |items| == 1 then [93] + rest else [44] + PrintItems(items[1..], rest))
  }

  /** The fields and the closing brace. */
  function PrintFields(fields: seq<Field>, rest: Text): Text
    decreases fields
  {
    if |fields| == 0 then [125] + rest
    else
      Quoted(fields[0].name,
             [58] + Print(fields[0].value,
                          if |fields| == 1 then [125] + rest else [44] + PrintFields(fields[1..], rest)))
  }

  function CanonicalText(value: Json): Text {
    Print(Canonical(value), [])
  }

  /** What the replacer does to one object: the sorted copy, with its members canonical in their turn. */
  lemma CanonicalVisitsSortedCopy(fields: seq<Field>)
    requires DistinctNames(fields)
    ensures var copy := Arrange(Assignable(fields));
            Canonical(Obj(fields))
            == Obj(seq(|copy|, i requires 0 <= i < |copy| => Field(copy[i].name, Canonical(copy[i].value))))
  {
    var copy := Arrange(Assignable(fields));
    var visited := seq(|copy|, i requires 0 <= i < |copy| => Field(copy[i].name, Canonical(copy[i].value)));
    var direct := CanonicalFields(fields);
    AssignableDistinct(fields);
    ArrangeOrdered(Assignable(fields));
    CanonicalFieldsDistinct(fields);
    ArrangeOrdered(direct);
    forall g | g in direct ensures g in visited {
      var i :| 0 <= i < |fields| && fields[i].name == g.name && g.value == Canonical(fields[i].value);
      assert fields[i] in copy;
      var k :| 0 <= k < |copy| && copy[k] == fields[i];
      assert visited[k] == g;
    }
    forall g | g in visited ensures g in direct {
      var k :| 0 <= k < |visited| && visited[k] == g;
      assert copy[k] in copy;
      var i :| 0 <= i < |fields| && fields[i] == copy[k];
    }
    OrderedUnique(Arrange(direct), visited);
  }

  // ---- Printing is injective -----------------------------------------------------------------------------------

  /** A continuation that cannot be taken for more of a number. */
  predicate Delimited(rest: Text) {
    |rest| == 0 || !IsNumberUnit(rest[0])
  }

  lemma SameSplit(a: Text, x: Text, b: Text, y: Text)
    requires a + x == b + y && |a| == |b|
    ensures a == b && x == y
  {
    assert a == (a + x)[..|a|] && b == (b + y)[..|b|];
    assert x == (a + x)[|a|..] && y == (b + y)[|b|..];
  }

  lemma FourDigits(c: CodeUnit)
    ensures c == 4096 * (c / 4096) + 256 * (c / 256 % 16) + 16 * (c / 16 % 16) + c % 16
  {
    assert c / 256 == 16 * (c / 4096) + c / 256 % 16;
    assert c / 16 == 16 * (c / 256) + c / 16 % 16;
  }

  /** Two escapes of different lengths differ in their first or second code unit. */
  lemma EscapeLength(c: CodeUnit, x: Text, d: CodeUnit, y: Text)
    requires EscapeUnit(c) + x == EscapeUnit(d) + y
    ensures |EscapeUnit(c)| == |EscapeUnit(d)|
  {
    var s, t := EscapeUnit(c), EscapeUnit(d);
    assert (s + x)[0] == s[0] && (t + y)[0] == t[0];
    if |s| > 1 && |t| > 1 {
      assert (s + x)[1] == s[1] && (t + y)[1] == t[1];
    }
  }

  lemma HexDigitInjective(m: nat, n: nat)
    requires m < 16 && n < 16 && HexDigit(m) == HexDigit(n)
    ensures m == n
  {
  }

  lemma LongEscapeInjective(c: CodeUnit, d: CodeUnit)
    requires EscapeUnit(c) == EscapeUnit(d) && |EscapeUnit(c)| == 6
    ensures c == d
  {
    var s, t := EscapeUnit(c), EscapeUnit(d);
    assert s[2] == t[2] && s[3] == t[3] && s[4] == t[4] && s[5] == t[5];
    HexDigitInjective(c / 4096, d / 4096);
    HexDigitInjective(c / 256 % 16, d / 256 % 16);
    HexDigitInjective(c / 16 % 16, d / 16 % 16);
    HexDigitInjective(c % 16, d % 16);
    FourDigits(c);
    FourDigits(d);
  }

  lemma EscapeInjective(c: CodeUnit, d: CodeUnit)
    requires EscapeUnit(c) == EscapeUnit(d)
    ensures c == d
  {
    var s, t := EscapeUnit(c), EscapeUnit(d);
    if |s| == 6 {
      LongEscapeInjective(c, d);
    } else if |s| == 2 {
      assert s[1] == t[1];
    } else {
      assert s[0] == t[0];
    }
  }

  lemma EscapedOpens(s: Text, rest: Text)
    ensures |Escaped(s, rest)| > 0
    ensures Escaped(s, rest)[0] == if |s| == 0 then 34 else if IsPair(s) then s[0] else EscapeUnit(s[0])[0]
    ensures IsPair(s) ==> |Escaped(s, rest)| > 1 && Escaped(s, rest)[1] == s[1]
  {
  }

  lemma {:induction false} EscapedCancel(s: Text, t: Text, x: Text, y: Text)
    requires Escaped(s, x) == Escaped(t, y)
    ensures s == t && x == y
    decreases |s|
  {
    EscapedOpens(s, x);
    EscapedOpens(t, y);
    if |s| == 0 || |t| == 0 {
      SameSplit([34], x, [34], y);
    } else if IsPair(s) || IsPair(t) {
      assert IsPair(s) && IsPair(t);
      SameSplit([s[0], s[1]], Escaped(s[2..], x), [t[0], t[1]], Escaped(t[2..], y));
      EscapedCancel(s[2..], t[2..], x, y);
      assert s == [s[0], s[1]] + s[2..] && t == [t[0], t[1]] + t[2..];
    } else {
      EscapeLength(s[0], Escaped(s[1..], x), t[0], Escaped(t[1..], y));
      SameSplit(EscapeUnit(s[0]), Escaped(s[1..], x), EscapeUnit(t[0]), Escaped(t[1..], y));
      EscapeInjective(s[0], t[0]);
      EscapedCancel(s[1..], t[1..], x, y);
      assert s == [s[0]] + s[1..] && t == [t[0]] + t[1..];
    }
  }

  lemma QuotedCancel(s: Text, t: Text, x: Text, y: Text)
    requires Quoted(s, x) == Quoted(t, y)
    ensures s == t && x == y
  {
    SameSplit([34], Escaped(s, x), [34], Escaped(t, y));
    EscapedCancel(s, t, x, y);
  }

  lemma LongerNumber(s: Text, t: Text, x: Text, y: Text)
    requires IsNumberText(t) && s + x == t + y && |s| < |t|
    ensures !Delimited(x)
  {
    assert (s + x)[|s|] == x[0] && (t + y)[|s|] == t[|s|];
  }

  lemma NumberCancel(s: Text, t: Text, x: Text, y: Text)
    requires IsNumberText(s) && IsNumberText(t) && Delimited(x) && Delimited(y)
    requires s + x == t + y
    ensures s == t && x == y
  {
    if |s| < |t| { LongerNumber(s, t, x, y); }
    if |t| < |s| { LongerNumber(t, s, y, x); }
    SameSplit(s, x, t, y);
  }

  /** The first code unit of a printed tree tells which kind of tree it is. */
  function Opening(j: Json): CodeUnit
    requires WellFormed(j)
  {
    match j
    case Null => 110
    case Bool(value) => if value then 116 else 102
    case Number(digits) => digits[0]
    case Str(_) => 34
    case Arr(_) => 91
    case Obj(_) => 123
  }

  lemma PrintOpens(j: Json, rest: Text)
    requires WellFormed(j)
    ensures |Print(j, rest)| > 0 && Print(j, rest)[0] == Opening(j)
  {
  }

  /** A printed tree can be read off the front of any text: printing is injective, whatever follows. */
  lemma {:induction false} PrintCancel(a: Json, b: Json, x: Text, y: Text)
    requires WellFormed(a) && WellFormed(b) && Delimited(x) && Delimited(y)
    requires Print(a, x) == Print(b, y)
    ensures a == b && x == y
    decreases a, 1
  {
    PrintOpens(a, x);
    PrintOpens(b, y);
    match a {
      case Null => SameSplit([110, 117, 108, 108], x, [110, 117, 108, 108], y);
      case Bool(value) =>
        var t: Text := if value then [116, 114, 117, 101] else [102, 97, 108, 115, 101];
        SameSplit(t, x, t, y);
      case Number(digits) => NumberCancel(digits, b.digits, x, y);
      case Str(text) => QuotedCancel(text, b.text, x, y);
      case Arr(items) =>
        SameSplit([91], PrintItems(items, x), [91], PrintItems(b.items, y));
        ItemsCancel(items, b.items, x, y);
      case Obj(fields) =>
        SameSplit([123], PrintFields(fields, x), [123], PrintFields(b.fields, y));
        FieldsCancel(fields, b.fields, x, y);
    }
  }

  /** What follows the first item. */
  function AfterItem(items: seq<Json>, rest: Text): (t: Text)
    ensures |t| > 0 && t[0] == if |items| <= 1 then 93 else 44
  {
    if |items| <= 1 then [93] + rest else [44] + PrintItems(items[1..], rest)
  }

  lemma PrintItemsOpens(items: seq<Json>, rest: Text)
    requires forall i | 0 <= i < |items| :: WellFormed(items[i])
    ensures |items| == 0 ==> PrintItems(items, rest) == [93] + rest
    ensures |items| > 0 ==> PrintItems(items, rest) == Print(items[0], AfterItem(items, rest))
                            && |PrintItems(items, rest)| > 0 && PrintItems(items, rest)[0] == Opening(items[0])
  {
    if |items| > 0 { PrintOpens(items[0], AfterItem(items, rest)); }
  }

  lemma {:induction false} ItemsCancel(xs: seq<Json>, ys: seq<Json>, x: Text, y: Text)
    requires forall i | 0 <= i < |xs| :: WellFormed(xs[i])
    requires forall i | 0 <= i < |ys| :: WellFormed(ys[i])
    requires PrintItems(xs, x) == PrintItems(ys, y)
    ensures xs == ys && x == y
    decreases xs, 0
  {
    var tx, ty := AfterItem(xs, x), AfterItem(ys, y);
    PrintItemsOpens(xs, x);
    PrintItemsOpens(ys, y);
    if |xs| > 0 && |ys| > 0 {
      PrintCancel(xs[0], ys[0], tx, ty);
      if |xs| > 1 {
        SameSplit([44], PrintItems(xs[1..], x), [44], PrintItems(ys[1..], y));
        ItemsCancel(xs[1..], ys[1..], x, y);
        assert xs == [xs[0]] + xs[1..] && ys == [ys[0]] + ys[1..];
      } else {
        SameSplit([93], x, [93], y);
      }
    } else {
      SameSplit([93], x, [93], y);
    }
  }

  /** What follows the first field's value. */
  function AfterField(fields: seq<Field>, rest: Text): (t: Text)
    ensures |t| > 0 && t[0] == if |fields| <= 1 then 125 else 44
  {
    if |fields| <= 1 then [125] + rest else [44] + PrintFields(fields[1..], rest)
  }

  lemma PrintFieldsOpens(fields: seq<Field>, rest: Text)
    ensures |PrintFields(fields, rest)| > 0
    ensures PrintFields(fields, rest)[0] == if |fields| == 0 then 125 else 34
  {
  }

  lemma {:induction false} FieldsCancel(fs: seq<Field>, gs: seq<Field>, x: Text, y: Text)
    requires forall i | 0 <= i < |fs| :: WellFormed(fs[i].value)
    requires forall i | 0 <= i < |gs| :: WellFormed(gs[i].value)
    requires PrintFields(fs, x) == PrintFields(gs, y)
    ensures fs == gs && x == y
    decreases fs, 0
  {
    var tx, ty := AfterField(fs, x), AfterField(gs, y);
    PrintFieldsOpens(fs, x);
    PrintFieldsOpens(gs, y);
    if |fs| > 0 && |gs| > 0 {
      QuotedCancel(fs[0].name, gs[0].name, [58] + Print(fs[0].value, tx), [58] + Print(gs[0].value, ty));
      SameSplit([58], Print(fs[0].value, tx), [58], Print(gs[0].value, ty));
      PrintCancel(fs[0].value, gs[0].value, tx, ty);
      if |fs| > 1 {
        SameSplit([44], PrintFields(fs[1..], x), [44], PrintFields(gs[1..], y));
        FieldsCancel(fs[1..], gs[1..], x, y);
        assert fs == [fs[0]] + fs[1..] && gs == [gs[0]] + gs[1..];
      } else {
        SameSplit([125], x, [125], y);
      }
    } else {
      SameSplit([125], x, [125], y);
    }
  }

  // ---- Main results ----------------------------------------------------------------------------------------------

  /** Canonical texts are equal exactly when the trees are the same up to field order, `__proto__` fields aside. */
  lemma CanonicalTextDecides(a: Json, b: Json)
    requires WellFormed(a) && WellFormed(b)
    ensures CanonicalText(a) == CanonicalText(b) <==> SameTree(a, b, {PROTO})
  {
    CanonicalWellFormed(a);
    CanonicalWellFormed(b);
    CanonicalDecidesSameTree(a, b);
    if CanonicalText(a) == CanonicalText(b) {
      PrintCancel(Canonical(a), Canonical(b), [], []);
    }
  }

  lemma {:induction false} OrdinaryNamesIgnoreNothing(a: Json, b: Json)
    requires NeverNames(a, PROTO) && NeverNames(b, PROTO)
    ensures SameTree(a, b, {PROTO}) <==> SameTree(a, b, {})
    decreases a
  {
    match (a, b) {
      case (Arr(xs), Arr(ys)) =>
        if |xs| == |ys| {
          forall i | 0 <= i < |xs| ensures SameTree(xs[i], ys[i], {PROTO}) <==> SameTree(xs[i], ys[i], {}) {
            OrdinaryNamesIgnoreNothing(xs[i], ys[i]);
          }
        }
      case (Obj(fs), Obj(gs)) =>
        forall i | 0 <= i < |fs| && HasName(gs, fs[i].name)
          ensures SameTree(fs[i].value, ValueOf(gs, fs[i].name), {PROTO}) <==>
                  SameTree(fs[i].value, ValueOf(gs, fs[i].name), {})
        {
          assert Field(fs[i].name, ValueOf(gs, fs[i].name)) in gs;
          OrdinaryNamesIgnoreNothing(fs[i].value, ValueOf(gs, fs[i].name));
        }
      case _ =>
    }
  }

  /** Without a `__proto__` field, equal canonical texts mean the same tree up to key order, and conversely. */
  lemma CanonicalTextInjective(a: Json, b: Json)
    requires WellFormed(a) && WellFormed(b) && NeverNames(a, PROTO) && NeverNames(b, PROTO)
    ensures CanonicalText(a) == CanonicalText(b) <==> SameTree(a, b, {})
  {
    CanonicalTextDecides(a, b);
    OrdinaryNamesIgnoreNothing(a, b);
  }

  /** A field's value is the one its name finds. */
  lemma NameFinds(fields: seq<Field>, i: nat)
    requires DistinctNames(fields) && i < |fields|
    ensures HasName(fields, fields[i].name) && ValueOf(fields, fields[i].name) == fields[i].value
  {
    var k :| 0 <= k < |fields| && fields[k] == Field(fields[i].name, ValueOf(fields, fields[i].name));
  }

  /** The sorted copy holds a field for each of these, with its value's canonical form. */
  lemma CopyOf(fields: seq<Field>) returns (copy: seq<Field>)
    requires DistinctNames(fields)
    ensures Canonical(Obj(fields)) == Obj(copy) && DistinctNames(copy)
    ensures forall i | 0 <= i < |fields| :: HasName(copy, fields[i].name) <==> fields[i].name != PROTO
    ensures forall i | 0 <= i < |fields| && fields[i].name != PROTO ::
              ValueOf(copy, fields[i].name) == Canonical(fields[i].value)
    ensures forall k | 0 <= k < |copy| ::
            HasName(fields, copy[k].name) && copy[k].value == Canonical(ValueOf(fields, copy[k].name))
  {
    var direct := CanonicalFields(fields);
    copy := Arrange(direct);
    CanonicalFieldsDistinct(fields);
    ArrangeOrdered(direct);
    forall i, k | 0 <= i < k < |copy| ensures copy[i].name != copy[k].name {
      PrecedesIsStrictTotal(copy[i].name, copy[k].name, copy[i].name);
    }
    forall i | 0 <= i < |fields|
      ensures HasName(copy, fields[i].name) <==> fields[i].name != PROTO
      ensures fields[i].name != PROTO ==> ValueOf(copy, fields[i].name) == Canonical(fields[i].value)
    {
      if fields[i].name != PROTO {
        var k :| 0 <= k < |copy| && copy[k] == Field(fields[i].name, Canonical(fields[i].value));
        NameFinds(copy, k);
      } else {
        assert forall k | 0 <= k < |copy| :: copy[k] in direct;
      }
    }
    forall k | 0 <= k < |copy|
        ensures HasName(fields, copy[k].name) && copy[k].value == Canonical(ValueOf(fields, copy[k].name)) {
      assert copy[k] in direct;
      var i :| 0 <= i < |fields| && fields[i].name == copy[k].name && copy[k].value == Canonical(fields[i].value);
      NameFinds(fields, i);
    }
  }

  /** The canonical form is the same tree exactly when no object in it has a `__proto__` field. */
  lemma {:induction false} CanonicalKeepsOrdinaryTrees(a: Json)
    requires WellFormed(a)
    ensures SameTree(Canonical(a), a, {}) <==> NeverNames(a, PROTO)
    decreases a
  {
    match a {
      case Arr(items) =>
        forall i | 0 <= i < |items|
            ensures SameTree(CanonicalItems(items)[i], items[i], {}) <==> NeverNames(items[i], PROTO) {
          CanonicalKeepsOrdinaryTrees(items[i]);
        }
      case Obj(fields) =>
        var copy := CopyOf(fields);
        forall i | 0 <= i < |fields| ensures FieldCopied(fields, copy, i) {
          NameFinds(fields, i);
          CanonicalKeepsOrdinaryTrees(fields[i].value);
        }
        forall k | 0 <= k < |copy| ensures CopiedFrom(fields, copy, k) {
        }
        KeepsFields(fields, copy);
      case _ =>
    }
  }

  /** The i-th field in the copy, and whether its value's canonical form is the same tree. */
  ghost predicate FieldCopied(fields: seq<Field>, copy: seq<Field>, i: nat) {
    && i < |fields| && HasName(fields, fields[i].name) && ValueOf(fields, fields[i].name) == fields[i].value
    && (HasName(copy, fields[i].name) <==> fields[i].name != PROTO)
    && (HasName(copy, fields[i].name) ==> ValueOf(copy, fields[i].name) == Canonical(fields[i].value))
    && (SameTree(Canonical(fields[i].value), fields[i].value, {}) <==> NeverNames(fields[i].value, PROTO))
  }

  /** The k-th field of the copy comes from a field of the original. */
  ghost predicate CopiedFrom(fields: seq<Field>, copy: seq<Field>, k: nat) {
    k < |copy| && HasName(fields, copy[k].name) && copy[k].value == Canonical(ValueOf(fields, copy[k].name))
  }

  lemma SameCopyIsOrdinary(fields: seq<Field>, copy: seq<Field>, i: nat)
    requires FieldCopied(fields, copy, i) && SameTree(Obj(copy), Obj(fields), {})
    ensures fields[i].name != PROTO && NeverNames(fields[i].value, PROTO)
  {
    var name := fields[i].name;
    assert HasName(copy, name);
    var k :| 0 <= k < |copy| && copy[k] == Field(name, ValueOf(copy, name));
    assert SameTree(copy[k].value, ValueOf(fields, copy[k].name), {});
  }

  lemma OrdinaryIsCopied(fields: seq<Field>, copy: seq<Field>, k: nat)
    requires CopiedFrom(fields, copy, k) && NeverNames(Obj(fields), PROTO)
    requires forall i | 0 <= i < |fields| :: FieldCopied(fields, copy, i)
    ensures HasName(fields, copy[k].name) && SameTree(copy[k].value, ValueOf(fields, copy[k].name), {})
  {
    var i :| 0 <= i < |fields| && fields[i] == Field(copy[k].name, ValueOf(fields, copy[k].name));
    assert FieldCopied(fields, copy, i);
  }

  lemma KeepsFields(fields: seq<Field>, copy: seq<Field>)
    requires forall i | 0 <= i < |fields| :: FieldCopied(fields, copy, i)
    requires forall k | 0 <= k < |copy| :: CopiedFrom(fields, copy, k)
    ensures SameTree(Obj(copy), Obj(fields), {}) <==> NeverNames(Obj(fields), PROTO)
  {
    if SameTree(Obj(copy), Obj(fields), {}) {
      forall i | 0 <= i < |fields| ensures fields[i].name != PROTO && NeverNames(fields[i].value, PROTO) {
        SameCopyIsOrdinary(fields, copy, i);
      }
    }
    if NeverNames(Obj(fields), PROTO) {
      forall k | 0 <= k < |copy|
          ensures HasName(fields, copy[k].name) && SameTree(copy[k].value, ValueOf(fields, copy[k].name), {}) {
        OrdinaryIsCopied(fields, copy, k);
      }
      forall i | 0 <= i < |fields| ensures HasName(copy, fields[i].name) { assert FieldCopied(fields, copy, i); }
    }
  }

  /** With one, they need not: the copy loses the field, and two different trees get one text. */
  lemma ProtoFieldIsLost()
    ensures var a, b := Obj([Field(PROTO, Null)]), Obj([]);
            WellFormed(a) && WellFormed(b) && !SameTree(a, b, {}) && CanonicalText(a) == CanonicalText(b)
  {
    var a, b := Obj([Field(PROTO, Null)]), Obj([]);
    assert a.fields[0].name == PROTO;
    CanonicalTextDecides(a, b);
  }
}
