/**
 Envelope encryption under destroyable keys
 (src/custody/infrastructure/envelope-subject-key-store.ts, in-memory-key-custodian.ts, sqlite-deletion-registry.ts,
 src/custody/domain/key-custodian.ts, src/primitives/domain/custody/key-store-failure.ts).

 Encryption is ideal: a box opens with its own key and initialisation vector and with nothing else. Random keys and
 identifiers are given to each operation, and never repeat.
 */
module Custody {
  import opened Outcomes
  import opened Texts
  import opened Retention

  type Key = nat

  datatype Cipher = Clear(text: Text) | Boxed(key: Key, iv: Text, content: Cipher)

  datatype SealedContent = SealedContent(
    subject: Text, bucket: Text, iv: Text, ciphertext: Cipher, wrappedSubjectKey: Text, wrappedBucketKey: Text)

  datatype KeyStoreFailure =
    | SubjectErased(subject: Text)
    | BucketExpired(bucket: Text)
    | CiphertextCorrupt
    | KeyDestroyed(name: Text)
    | CustodianUnreachable

  /** Only these say that the content is gone for good. */
  predicate IsTerminalFailure(failure: KeyStoreFailure) {
    failure.SubjectErased? || failure.BucketExpired? || failure.CiphertextCorrupt?
  }

  /** Who vouches for a destruction: an outside key management system, or this process. */
  datatype Attestation = ExternalRecord | SelfRecord

  datatype ErasureProof = ErasureProof(
    target: Text, destroyedAt: int, keyReference: Text, recordId: Text, attestation: Attestation)

  datatype DataKey = DataKey(plaintext: Key, wrapped: Text)

  // ---- Names ----------------------------------------------------------------------------------------------------

  const COLON: CodeUnit := 58
  const DOT: CodeUnit := 46

  function SubjectKeyName(subject: Text): Text { Ascii("subject-") + subject }

  function BucketKeyName(bucket: Text): Text { Ascii("bucket-") + bucket }

  function HandlePrefix(name: Text): Text { Ascii("local:") + name + [COLON] }

  function Handle(name: Text, uuid: Text): Text { HandlePrefix(name) + uuid }

  predicate StartsWith(t: Text, prefix: Text) {
    |prefix| <= |t| && t[..|prefix|] == prefix
  }

  /** Subjects and buckets never share a key, and neither sort of name contains a colon. */
  lemma KeyNames(subject: Text, bucket: Text)
    ensures SubjectKeyName(subject) != BucketKeyName(bucket)
    ensures COLON !in subject ==> COLON !in SubjectKeyName(subject)
    ensures COLON !in bucket ==> COLON !in BucketKeyName(bucket)
  {
    assert SubjectKeyName(subject)[0] == 115 && BucketKeyName(bucket)[0] == 98;
    NoColonIn("subject-");
    NoColonIn("bucket-");
  }

  lemma NoColonIn(s: string)
    requires forall i | 0 <= i < |s| :: s[i] != ':'
    ensures COLON !in Ascii(s)
  {
    forall i | 0 <= i < |s| ensures Ascii(s)[i] != COLON { assert AsciiUnit(s[i]) != COLON; }
  }

  lemma {:induction false} ColonEndsName(a: Text, b: Text, x: Text)
    requires COLON !in a && COLON !in b && StartsWith(a + [COLON] + x, b + [COLON])
    ensures a == b
    decreases |a|
  {
    var long, short := a + [COLON] + x, b + [COLON];
    assert long[..|short|][0] == long[0];
    assert long[0] == if |a| == 0 then COLON else a[0];
    assert short[0] == if |b| == 0 then COLON else b[0];
    if |a| > 0 && |b| > 0 {
      assert long[1..] == a[1..] + [COLON] + x && short[1..] == b[1..] + [COLON];
      assert long[1..][..|short[1..]|] == long[..|short|][1..];
      ColonEndsName(a[1..], b[1..], x);
      assert a == [a[0]] + a[1..] && b == [b[0]] + b[1..];
    }
  }

  /** The prefix a destroy looks for finds the handles of that key and of no other. */
  lemma PrefixTellsName(a: Text, b: Text, uuid: Text)
    requires COLON !in a && COLON !in b
    ensures StartsWith(Handle(a, uuid), HandlePrefix(b)) <==> a == b
  {
    var local := Ascii("local:");
    assert Handle(a, uuid) == local + (a + [COLON] + uuid) && HandlePrefix(b) == local + (b + [COLON]);
    if StartsWith(Handle(a, uuid), HandlePrefix(b)) {
      assert Handle(a, uuid)[|local|..] == a + [COLON] + uuid;
      assert Handle(a, uuid)[..|HandlePrefix(b)|][|local|..] == b + [COLON];
      ColonEndsName(a, b, uuid);
    }
  }

  // ---- Initialisation vectors -------------------------------------------------------------------------------------

  function UpTo(t: Text, stop: CodeUnit): Text {
    if |t| == 0 || t[0] == stop then [] else [t[0]] + UpTo(t[1..], stop)
  }

  /** The first two parts between dots, if there are two. */
  function SplitIv(iv: Text): Option<(Text, Text)> {
    var inner := UpTo(iv, DOT);
    if |inner| >= |iv| then None else Some((inner, UpTo(iv[|inner| + 1..], DOT)))
  }

  lemma {:induction false} UpToStops(a: Text, stop: CodeUnit, rest: Text)
    requires stop !in a && (|rest| > 0 ==> rest[0] == stop)
    ensures UpTo(a + rest, stop) == a
    decreases |a|
  {
    if |a| == 0 {
      assert a + rest == rest;
    } else {
      assert (a + rest)[1..] == a[1..] + rest;
      UpToStops(a[1..], stop, rest);
    }
  }

  lemma IvRoundTrip(inner: Text, outer: Text)
    requires DOT !in inner && DOT !in outer
    ensures SplitIv(inner + [DOT] + outer) == Some((inner, outer))
  {
    var iv := inner + [DOT] + outer;
    UpToStops(inner, DOT, [DOT] + outer);
    assert iv == inner + ([DOT] + outer);
    assert iv[|inner| + 1..] == outer == outer + [];
    UpToStops(outer, DOT, []);
  }

  // ---- The custodian --------------------------------------------------------------------------------------------

  datatype Issued = Issued(name: Text, uuid: Text, key: Key)

  /** `issued` remembers every key ever handed out; the program keeps no such record. */
  datatype Custodian = Custodian(keks: set<Text>, wrapped: map<Text, Key>, issued: map<Text, Issued>)

  function IssueDataKey(c: Custodian, name: Text, key: Key, uuid: Text): (DataKey, Custodian) {
    var handle := Handle(name, uuid);
    (DataKey(key, handle), Custodian(c.keks + {name}, c.wrapped[handle := key],
                                     c.issued[handle := Issued(name, uuid, key)]))
  }

  function UnwrapDataKey(c: Custodian, name: Text, wrapped: Text): Result<Key, KeyStoreFailure> {
    if name !in c.keks then Err(KeyDestroyed(name))
    else if wrapped !in c.wrapped then Err(CiphertextCorrupt)
    else Ok(c.wrapped[wrapped])
  }

  function DestroyKey(c: Custodian, name: Text): Custodian {
    c.(keks := c.keks - {name},
       wrapped := map handle | handle in c.wrapped && !StartsWith(handle, HandlePrefix(name)) :: c.wrapped[handle])
  }

  predicate IssuedOk(handle: Text, entry: Issued) {
    handle == Handle(entry.name, entry.uuid) && COLON !in entry.name
  }

  /**
   Every key still wrapped was issued under a name that still has its key-encryption key, and no key was issued twice.
   */
  ghost predicate WellKept(c: Custodian) {
    && (forall h | h in c.issued :: IssuedOk(h, c.issued[h]))
    && (forall g, h | g in c.issued && h in c.issued && c.issued[g].key == c.issued[h].key :: g == h)
    && (forall h | h in c.wrapped :: h in c.issued && c.wrapped[h] == c.issued[h].key && c.issued[h].name in c.keks)
  }

  /** A key and an identifier that were never drawn before. */
  ghost predicate FreshKey(c: Custodian, name: Text, key: Key, uuid: Text) {
    COLON !in name && Handle(name, uuid) !in c.issued && forall h | h in c.issued :: c.issued[h].key != key
  }

  lemma IssueKeepsWell(c: Custodian, name: Text, key: Key, uuid: Text)
    requires WellKept(c) && FreshKey(c, name, key, uuid)
    ensures var (_, after) := IssueDataKey(c, name, key, uuid);
            WellKept(after) && forall h | h in c.wrapped :: h in after.wrapped && after.wrapped[h] == c.wrapped[h]
  {
  }

  lemma DestroyKeepsWell(c: Custodian, name: Text)
    requires WellKept(c) && COLON !in name
    ensures WellKept(DestroyKey(c, name))
    ensures forall h | h in c.issued :: h in DestroyKey(c, name).wrapped <==> h in c.wrapped && c.issued[h].name != name
  {
    var after := DestroyKey(c, name);
    forall h | h in c.issued ensures h in after.wrapped <==> h in c.wrapped && c.issued[h].name != name {
      assert IssuedOk(h, c.issued[h]);
      PrefixTellsName(c.issued[h].name, name, c.issued[h].uuid);
    }
  }

  // ---- The key store --------------------------------------------------------------------------------------------

  datatype State = State(custodian: Custodian, proofs: map<Text, ErasureProof>)

  datatype SealRequest = SealRequest(subject: Text, bucket: Text, plaintext: Text)

  datatype Randomness = Randomness(subjectKey: Key, subjectUuid: Text, bucketKey: Key, bucketUuid: Text, inner: Text,
                                   outer: Text)

  /** Whether each of an operation's two calls gets through to the custodian. */
  datatype Reach = Reach(first: bool, second: bool)

  function Encrypted(key: Key, iv: Text, content: Cipher): Cipher { Boxed(key, iv, content) }

  function Decrypted(key: Key, iv: Text, cipher: Cipher): Option<Cipher> {
    if cipher.Boxed? && cipher.key == key && cipher.iv == iv then Some(cipher.content) else None
  }

  function Seal(s: State, request: SealRequest, rnd: Randomness,
                reach: Reach): (Result<SealedContent, KeyStoreFailure>, State) {
    if !reach.first then (Err(CustodianUnreachable), s)
    else
      var (subjectKey, c1) :=
          IssueDataKey(s.custodian, SubjectKeyName(request.subject), rnd.subjectKey, rnd.subjectUuid);
      if !reach.second then (Err(CustodianUnreachable), s.(custodian := c1))
      else
        var (bucketKey, c2) := IssueDataKey(c1, BucketKeyName(request.bucket), rnd.bucketKey, rnd.bucketUuid);
        (Ok(SealedContent(request.subject, request.bucket, rnd.inner + [DOT] + rnd.outer,
                          Encrypted(bucketKey.plaintext, rnd.outer,
                                    Encrypted(subjectKey.plaintext, rnd.inner, Clear(request.plaintext))),
                          subjectKey.wrapped, bucketKey.wrapped)),
         s.(custodian := c2))
  }

  function Unseal(s: State, sealed: SealedContent, reach: Reach): Result<Text, KeyStoreFailure> {
    var iv := SplitIv(sealed.iv);
    if iv.None? then Err(CiphertextCorrupt)
    else if !reach.first then Err(CustodianUnreachable)
    else
      var bucketKey := UnwrapDataKey(s.custodian, BucketKeyName(sealed.bucket), sealed.wrappedBucketKey);
      if bucketKey.Err?
      then Err(if bucketKey.error.KeyDestroyed? then BucketExpired(sealed.bucket) else bucketKey.error)
      else if !reach.second then Err(CustodianUnreachable)
      else
        var subjectKey := UnwrapDataKey(s.custodian, SubjectKeyName(sealed.subject), sealed.wrappedSubjectKey);
        if subjectKey.Err?
        then Err(if subjectKey.error.KeyDestroyed? then SubjectErased(sealed.subject) else subjectKey.error)
        else
          var once := Decrypted(bucketKey.value, iv.value.1, sealed.ciphertext);
          if once.None? then Err(CiphertextCorrupt)
          else
            var clear := Decrypted(subjectKey.value, iv.value.0, once.value);
            if clear.None? || !clear.value.Clear? then Err(CiphertextCorrupt) else Ok(clear.value.text)
  }

  /** A recorded destruction is answered from the record and does not reach the custodian. */
  function Destroy(s: State, name: Text, at: int, recordId: Text,
                   reaches: bool): (Result<ErasureProof, KeyStoreFailure>, State) {
    if name in s.proofs then (Ok(s.proofs[name]), s)
    else if !reaches then (Err(CustodianUnreachable), s)
    else
      var proof := ErasureProof(name, at, Ascii("local:") + name, recordId, SelfRecord);
      (Ok(proof), State(DestroyKey(s.custodian, name), s.proofs[name := proof]))
  }

  function DisposeProofs(s: State, now: int): State {
    s.(proofs := map name | name in s.proofs && s.proofs[name].destroyedAt > DisposalCutoff(now) :: s.proofs[name])
  }

  // ---- What is readable, and until when ---------------------------------------------------------------------------

  /** Content this store sealed, under keys it issued for its own subject and bucket. */
  ghost predicate Genuine(s: State, sealed: SealedContent, plaintext: Text) {
    var c := s.custodian;
    && sealed.wrappedSubjectKey in c.issued && c.issued[sealed.wrappedSubjectKey].name == SubjectKeyName(sealed.subject)
    && sealed.wrappedBucketKey in c.issued && c.issued[sealed.wrappedBucketKey].name == BucketKeyName(sealed.bucket)
    && SplitIv(sealed.iv).Some?
    && sealed.ciphertext == Boxed(c.issued[sealed.wrappedBucketKey].key, SplitIv(sealed.iv).value.1,
                                  Boxed(c.issued[sealed.wrappedSubjectKey].key, SplitIv(sealed.iv).value.0,
                                        Clear(plaintext)))
  }

  /** Both of its keys are still there. */
  predicate Live(s: State, sealed: SealedContent) {
    sealed.wrappedSubjectKey in s.custodian.wrapped && sealed.wrappedBucketKey in s.custodian.wrapped
  }

  /** Genuine content opens to what was sealed exactly while both keys are there; after that it fails for good. */
  lemma GenuineOpens(s: State, sealed: SealedContent, plaintext: Text)
    requires WellKept(s.custodian) && Genuine(s, sealed, plaintext)
    ensures var r := Unseal(s, sealed, Reach(true, true));
            (Live(s, sealed) <==> r == Ok(plaintext)) && (r.Err? <==> !Live(s, sealed))
                && (r.Err? ==> IsTerminalFailure(r.error))
    ensures forall reach :: var r := Unseal(s, sealed, reach);
            (r.Ok? ==> Live(s, sealed) && r.value == plaintext)
                && (r.Err? && IsTerminalFailure(r.error) ==> !Live(s, sealed))
  {
  }

  /**
   An envelope around genuine ciphertext opens only while both its keys are there, whatever names, handles and vectors
   it claims.
   */
  lemma CiphertextNeedsItsKeys(s: State, sealed: SealedContent, plaintext: Text, envelope: SealedContent, reach: Reach)
    requires WellKept(s.custodian) && Genuine(s, sealed, plaintext) && envelope.ciphertext == sealed.ciphertext
    ensures Unseal(s, envelope, reach).Ok? ==> Live(s, sealed) && Unseal(s, envelope, reach).value == plaintext
  {
    var c := s.custodian;
    if Unseal(s, envelope, reach).Ok? {
      var g, h := envelope.wrappedBucketKey, envelope.wrappedSubjectKey;
      assert c.issued[g].key == c.issued[sealed.wrappedBucketKey].key;
      assert c.issued[h].key == c.issued[sealed.wrappedSubjectKey].key;
    }
  }

  datatype Op =
    | SealOp(request: SealRequest, rnd: Randomness, reach: Reach)
    | EraseOp(subject: Text, at: int, recordId: Text, reaches: bool)
    | ExpireOp(bucket: Text, at: int, recordId: Text, reaches: bool)
    | DisposeOp(now: int)

  function Apply(s: State, op: Op): State {
    match op
    case SealOp(request, rnd, reach) => Seal(s, request, rnd, reach).1
    case EraseOp(subject, at, recordId, reaches) => Destroy(s, SubjectKeyName(subject), at, recordId, reaches).1
    case ExpireOp(bucket, at, recordId, reaches) => Destroy(s, BucketKeyName(bucket), at, recordId, reaches).1
    case DisposeOp(now) => DisposeProofs(s, now)
  }

  /** Names are as their parsers admit them, and what is drawn at random is new. */
  ghost predicate Admissible(s: State, op: Op) {
    match op
    case SealOp(request, rnd, _) =>
      && COLON !in request.subject && COLON !in request.bucket && DOT !in rnd.inner && DOT !in rnd.outer
      && FreshKey(s.custodian, SubjectKeyName(request.subject), rnd.subjectKey, rnd.subjectUuid)
      && FreshKey(s.custodian, BucketKeyName(request.bucket), rnd.bucketKey, rnd.bucketUuid)
      && rnd.subjectKey != rnd.bucketKey
    case EraseOp(subject, _, _, _) => COLON !in subject
    case ExpireOp(bucket, _, _, _) => COLON !in bucket
    case DisposeOp(_) => true
  }

  /** The operation destroys this key at the custodian. */
  predicate Destroys(s: State, op: Op, name: Text) {
    match op
    case EraseOp(subject, _, _, reaches) => name == SubjectKeyName(subject) && reaches && name !in s.proofs
    case ExpireOp(bucket, _, _, reaches) => name == BucketKeyName(bucket) && reaches && name !in s.proofs
    case _ => false
  }

  /** The operation destroys one of the two keys of this content. */
  predicate DestroysKeyOf(s: State, op: Op, sealed: SealedContent) {
    Destroys(s, op, SubjectKeyName(sealed.subject)) || Destroys(s, op, BucketKeyName(sealed.bucket))
  }

  lemma SealKeepsWell(s: State, op: Op)
    requires WellKept(s.custodian) && op.SealOp? && Admissible(s, op)
    ensures var after := Apply(s, op);
            WellKept(after.custodian) && after.proofs == s.proofs
            && (forall h | h in s.custodian.issued ::
                h in after.custodian.issued && after.custodian.issued[h] == s.custodian.issued[h])
            && (forall h | h in s.custodian.issued :: h in after.custodian.wrapped <==> h in s.custodian.wrapped)
  {
    if op.reach.first {
      KeyNames(op.request.subject, op.request.bucket);
      IssueKeepsWell(s.custodian, SubjectKeyName(op.request.subject), op.rnd.subjectKey, op.rnd.subjectUuid);
      var c1 := IssueDataKey(s.custodian, SubjectKeyName(op.request.subject), op.rnd.subjectKey, op.rnd.subjectUuid).1;
      if op.reach.second {
        PrefixTellsName(SubjectKeyName(op.request.subject), BucketKeyName(op.request.bucket), op.rnd.subjectUuid);
        assert StartsWith(Handle(BucketKeyName(op.request.bucket), op.rnd.bucketUuid),
                          HandlePrefix(BucketKeyName(op.request.bucket)));
        IssueKeepsWell(c1, BucketKeyName(op.request.bucket), op.rnd.bucketKey, op.rnd.bucketUuid);
      }
    }
  }

  lemma DestroyKeeps(s: State, name: Text, at: int, recordId: Text, reaches: bool, sealed: SealedContent,
                     plaintext: Text)
    requires WellKept(s.custodian) && COLON !in name && Genuine(s, sealed, plaintext)
    ensures var after := Destroy(s, name, at, recordId, reaches).1;
            && WellKept(after.custodian) && Genuine(after, sealed, plaintext)
            && (Live(after, sealed) <==>
                  Live(s, sealed)
                  && !(reaches && name !in s.proofs
                       && (name == SubjectKeyName(sealed.subject) || name == BucketKeyName(sealed.bucket))))
  {
    DestroyKeepsWell(s.custodian, name);
  }

  lemma ApplyKeepsWell(s: State, op: Op)
    requires WellKept(s.custodian) && Admissible(s, op)
    ensures WellKept(Apply(s, op).custodian)
  {
    match op
    case SealOp(_, _, _) => SealKeepsWell(s, op);
    case EraseOp(subject, _, _, _) =>
      KeyNames(subject, []);
      DestroyKeepsWell(s.custodian, SubjectKeyName(subject));
    case ExpireOp(bucket, _, _, _) =>
      KeyNames([], bucket);
      DestroyKeepsWell(s.custodian, BucketKeyName(bucket));
    case DisposeOp(_) =>
  }

  /** Genuine content stays genuine, and stops being readable exactly when one of its keys is destroyed. */
  ghost predicate Kept(s: State, after: State, sealed: SealedContent, plaintext: Text, destroyed: bool) {
    && WellKept(after.custodian) && Genuine(after, sealed, plaintext)
    && (Live(after, sealed) <==> Live(s, sealed) && !destroyed)
  }

  lemma SealKeeps(s: State, op: Op, sealed: SealedContent, plaintext: Text)
    requires WellKept(s.custodian) && op.SealOp? && Admissible(s, op) && Genuine(s, sealed, plaintext)
    ensures Kept(s, Apply(s, op), sealed, plaintext, false)
  {
    SealKeepsWell(s, op);
  }

  lemma EraseKeeps(s: State, op: Op, sealed: SealedContent, plaintext: Text)
    requires WellKept(s.custodian) && op.EraseOp? && Admissible(s, op) && Genuine(s, sealed, plaintext)
    ensures Kept(s, Apply(s, op), sealed, plaintext, DestroysKeyOf(s, op, sealed))
  {
    KeyNames(op.subject, sealed.bucket);
    DestroyKeeps(s, SubjectKeyName(op.subject), op.at, op.recordId, op.reaches, sealed, plaintext);
  }

  lemma ExpireKeeps(s: State, op: Op, sealed: SealedContent, plaintext: Text)
    requires WellKept(s.custodian) && op.ExpireOp? && Admissible(s, op) && Genuine(s, sealed, plaintext)
    ensures Kept(s, Apply(s, op), sealed, plaintext, DestroysKeyOf(s, op, sealed))
  {
    KeyNames(sealed.subject, op.bucket);
    DestroyKeeps(s, BucketKeyName(op.bucket), op.at, op.recordId, op.reaches, sealed, plaintext);
  }

  /** Whatever the operation. */
  lemma ApplyKeeps(s: State, op: Op, sealed: SealedContent, plaintext: Text)
    requires WellKept(s.custodian) && Admissible(s, op) && Genuine(s, sealed, plaintext)
    ensures Kept(s, Apply(s, op), sealed, plaintext, DestroysKeyOf(s, op, sealed))
  {
    match op
    case SealOp(_, _, _) => SealKeeps(s, op, sealed, plaintext);
    case EraseOp(_, _, _, _) => EraseKeeps(s, op, sealed, plaintext);
    case ExpireOp(_, _, _, _) => ExpireKeeps(s, op, sealed, plaintext);
    case DisposeOp(_) =>
  }

  /** Sealing gives genuine, readable content. */
  lemma SealGivesGenuine(s: State, request: SealRequest, rnd: Randomness)
    requires WellKept(s.custodian) && Admissible(s, SealOp(request, rnd, Reach(true, true)))
    ensures var (r, after) := Seal(s, request, rnd, Reach(true, true));
            r.Ok? && WellKept(after.custodian) && Genuine(after, r.value, request.plaintext) && Live(after, r.value)
  {
    SealKeepsWell(s, SealOp(request, rnd, Reach(true, true)));
    IvRoundTrip(rnd.inner, rnd.outer);
    KeyNames(request.subject, request.bucket);
    PrefixTellsName(SubjectKeyName(request.subject), BucketKeyName(request.bucket), rnd.subjectUuid);
    assert StartsWith(Handle(BucketKeyName(request.bucket), rnd.bucketUuid),
                      HandlePrefix(BucketKeyName(request.bucket)));
  }

  function ApplyAll(s: State, ops: seq<Op>): State
    decreases |ops|
  {
    if |ops| == 0 then s else ApplyAll(Apply(s, ops[0]), ops[1..])
  }

  ghost predicate AllAdmissible(s: State, ops: seq<Op>)
    decreases |ops|
  {
    |ops| > 0 ==> Admissible(s, ops[0]) && AllAdmissible(Apply(s, ops[0]), ops[1..])
  }

  /** Some operation of the history destroys the key at the custodian. */
  predicate EverDestroys(s: State, ops: seq<Op>, name: Text)
    decreases |ops|
  {
    |ops| > 0 && (Destroys(s, ops[0], name) || EverDestroys(Apply(s, ops[0]), ops[1..], name))
  }

  lemma {:induction false} HistoryKeeps(s: State, ops: seq<Op>, sealed: SealedContent, plaintext: Text)
    requires WellKept(s.custodian) && AllAdmissible(s, ops) && Genuine(s, sealed, plaintext)
    ensures var after := ApplyAll(s, ops);
            && WellKept(after.custodian) && Genuine(after, sealed, plaintext)
            && (Live(after, sealed) <==> Live(s, sealed) && !EverDestroys(s, ops, SubjectKeyName(sealed.subject))
                                                             && !EverDestroys(s, ops, BucketKeyName(sealed.bucket)))
    decreases |ops|
  {
    if |ops| > 0 {
      ApplyKeeps(s, ops[0], sealed, plaintext);
      HistoryKeeps(Apply(s, ops[0]), ops[1..], sealed, plaintext);
    }
  }

  /**
   Sealed content gives back its plaintext until its subject's or its bucket's key is destroyed at the custodian, and
   never again afterwards, whatever is sealed or destroyed in between; the failure then is one that says so.
   */
  lemma ReadableUntilDestroyed(s: State, request: SealRequest, rnd: Randomness, ops: seq<Op>)
    requires WellKept(s.custodian) && Admissible(s, SealOp(request, rnd, Reach(true, true)))
    requires AllAdmissible(Seal(s, request, rnd, Reach(true, true)).1, ops)
    ensures var (sealed, s1) := Seal(s, request, rnd, Reach(true, true));
            var after := ApplyAll(s1, ops);
            var r := Unseal(after, sealed.value, Reach(true, true));
            var destroyed := EverDestroys(s1, ops, SubjectKeyName(request.subject))
                || EverDestroys(s1, ops, BucketKeyName(request.bucket));
            (!destroyed ==> r == Ok(request.plaintext)) && (destroyed ==> r.Err? && IsTerminalFailure(r.error))
  {
    SealGivesGenuine(s, request, rnd);
    var (sealed, s1) := Seal(s, request, rnd, Reach(true, true));
    HistoryKeeps(s1, ops, sealed.value, request.plaintext);
    GenuineOpens(ApplyAll(s1, ops), sealed.value, request.plaintext);
  }

  /** Once destroyed, its ciphertext opens in no envelope in any later state. */
  lemma DestroyedIsLostForever(s: State, request: SealRequest, rnd: Randomness, ops: seq<Op>, envelope: SealedContent,
                               reach: Reach)
    requires WellKept(s.custodian) && Admissible(s, SealOp(request, rnd, Reach(true, true)))
    requires var (sealed, s1) := Seal(s, request, rnd, Reach(true, true));
             && AllAdmissible(s1, ops) && envelope.ciphertext == sealed.value.ciphertext
             && (EverDestroys(s1, ops, SubjectKeyName(request.subject))
                 || EverDestroys(s1, ops, BucketKeyName(request.bucket)))
    ensures Unseal(ApplyAll(Seal(s, request, rnd, Reach(true, true)).1, ops), envelope, reach).Err?
  {
    SealGivesGenuine(s, request, rnd);
    var (sealed, s1) := Seal(s, request, rnd, Reach(true, true));
    HistoryKeeps(s1, ops, sealed.value, request.plaintext);
    CiphertextNeedsItsKeys(ApplyAll(s1, ops), sealed.value, request.plaintext, envelope, reach);
  }

  /**
   An erasure makes readable content of its subject unreadable exactly when the registry has no proof of an earlier one.
   */
  lemma RepeatErasureSparesResealed(s: State, sealed: SealedContent, plaintext: Text, at: int, recordId: Text)
    requires WellKept(s.custodian) && Genuine(s, sealed, plaintext) && Live(s, sealed) && COLON !in sealed.subject
    ensures var (r, after) := Destroy(s, SubjectKeyName(sealed.subject), at, recordId, true);
            r.Ok? && (Unseal(after, sealed, Reach(true, true)).Err? <==> SubjectKeyName(sealed.subject) !in s.proofs)
  {
    var op := EraseOp(sealed.subject, at, recordId, true);
    KeyNames(sealed.subject, sealed.bucket);
    ApplyKeeps(s, op, sealed, plaintext);
    GenuineOpens(Apply(s, op), sealed, plaintext);
  }

  /**
   The case that happens: sealed after one erasure, the content outlives the next, which still answers with a proof.
   */
  lemma ResealedOutlivesErasure(request: SealRequest, rnd: Randomness)
    requires var s := Apply(State(Custodian({}, map[], map[]), map[]), EraseOp(request.subject, 0, [], true));
             Admissible(s, SealOp(request, rnd, Reach(true, true)))
    ensures var s := Apply(State(Custodian({}, map[], map[]), map[]), EraseOp(request.subject, 0, [], true));
            var (sealed, s1) := Seal(s, request, rnd, Reach(true, true));
            var (r, s2) := Destroy(s1, SubjectKeyName(request.subject), 1, [], true);
            r.Ok? && Unseal(s2, sealed.value, Reach(true, true)) == Ok(request.plaintext)
  {
    var s := Apply(State(Custodian({}, map[], map[]), map[]), EraseOp(request.subject, 0, [], true));
    SealGivesGenuine(s, request, rnd);
    var (sealed, s1) := Seal(s, request, rnd, Reach(true, true));
    assert SubjectKeyName(request.subject) in s1.proofs;
    GenuineOpens(s1, sealed.value, request.plaintext);
  }
}
