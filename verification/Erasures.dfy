/**
 What the proof of an erasure says, and how long it is answered with
 (src/custody/infrastructure/in-memory-key-custodian.ts, envelope-subject-key-store.ts, sqlite-deletion-registry.ts).
 */
module Erasures {
  import opened Outcomes
  import opened Texts
  import opened Custody

  const KEPT_FOR_MS := 730 * 24 * 60 * 60 * 1000

  /** A proof of this operation's destruction of this key: when it happened, under which record, and who says so. */
  predicate ProofOf(proof: ErasureProof, name: Text, op: Op) {
    && (op.EraseOp? || op.ExpireOp?)
    && proof.target == name && proof.destroyedAt == op.at && proof.recordId == op.recordId
    && proof.keyReference == Ascii("local:") + name && proof.attestation == SelfRecord
  }

  /** No disposal in these operations comes 730 days or more after the instant. */
  predicate NoneDisposes(ops: seq<Op>, instant: int) {
    forall i | 0 <= i < |ops| && ops[i].DisposeOp? :: ops[i].now < instant + KEPT_FOR_MS
  }

  lemma {:induction false} ApplyOneMore(s: State, ops: seq<Op>, op: Op)
    ensures ApplyAll(s, ops + [op]) == Apply(ApplyAll(s, ops), op)
    decreases |ops|
  {
    if |ops| == 0 {
      assert ApplyAll(Apply(s, op), []) == Apply(s, op);
    } else {
      assert (ops + [op])[1..] == ops[1..] + [op];
      ApplyOneMore(Apply(s, ops[0]), ops[1..], op);
    }
  }

  /** A destruction that reaches the custodian records its proof. */
  lemma DestructionIsRecorded(s: State, op: Op, name: Text)
    requires Destroys(s, op, name)
    ensures name in Apply(s, op).proofs && ProofOf(Apply(s, op).proofs[name], name, op)
    ensures name !in Apply(s, op).custodian.keks
  {
  }

  /** Any other operation leaves a key's proof as it is, or is a disposal 730 days or more after what it tells of. */
  lemma ProofStays(s: State, op: Op, name: Text)
    requires !Destroys(s, op, name)
    ensures name in Apply(s, op).proofs <==>
            name in s.proofs && (op.DisposeOp? ==> op.now < s.proofs[name].destroyedAt + KEPT_FOR_MS)
    ensures name in Apply(s, op).proofs ==> Apply(s, op).proofs[name] == s.proofs[name]
  {
  }

  /**
   The i-th operation destroyed the key at the custodian, and the proof is of that and has not been disposed of since.
   */
  predicate RecordedBy(s: State, ops: seq<Op>, name: Text, proof: ErasureProof, i: nat) {
    && i < |ops| && Destroys(ApplyAll(s, ops[..i]), ops[i], name) && ProofOf(proof, name, ops[i])
    && NoneDisposes(ops[i + 1..], proof.destroyedAt)
  }

  lemma RecordedStill(s: State, ops: seq<Op>, op: Op, name: Text, proof: ErasureProof, i: nat)
    requires RecordedBy(s, ops, name, proof, i) && (op.DisposeOp? ==> op.now < proof.destroyedAt + KEPT_FOR_MS)
    ensures RecordedBy(s, ops + [op], name, proof, i)
  {
    assert (ops + [op])[..i] == ops[..i] && (ops + [op])[i + 1..] == ops[i + 1..] + [op];
  }

  /** Over any history, a recorded proof is that of an operation which destroyed its key at the custodian. */
  lemma {:induction false} ProofsTellOfDestructions(s: State, ops: seq<Op>, name: Text)
    requires name !in s.proofs
    ensures name in ApplyAll(s, ops).proofs ==>
              exists i :: RecordedBy(s, ops, name, ApplyAll(s, ops).proofs[name], i)
    decreases |ops|
  {
    if |ops| > 0 {
      var (before, op) := (ops[..|ops| - 1], ops[|ops| - 1]);
      var (w, after) := (ApplyAll(s, before), ApplyAll(s, ops));
      assert ops == before + [op];
      ApplyOneMore(s, before, op);
      ProofsTellOfDestructions(s, before, name);
      if Destroys(w, op, name) {
        DestructionIsRecorded(w, op, name);
        assert ops[|ops|..] == [];
        assert RecordedBy(s, ops, name, after.proofs[name], |before|);
      } else {
        ProofStays(w, op, name);
        if name in after.proofs {
          var i :| RecordedBy(s, before, name, w.proofs[name], i);
          RecordedStill(s, before, op, name, w.proofs[name], i);
        }
      }
    }
  }

  lemma {:induction false} ProofLasts(s: State, ops: seq<Op>, name: Text)
    requires name in s.proofs
    ensures NoneDisposes(ops, s.proofs[name].destroyedAt) ==>
              name in ApplyAll(s, ops).proofs && ApplyAll(s, ops).proofs[name] == s.proofs[name]
    decreases |ops|
  {
    if |ops| > 0 && NoneDisposes(ops, s.proofs[name].destroyedAt) {
      assert !ops[0].DisposeOp? || ops[0].now < s.proofs[name].destroyedAt + KEPT_FOR_MS;
      ProofStays(s, ops[0], name);
      assert forall i | 0 <= i < |ops| - 1 :: ops[1..][i] == ops[i + 1];
      ProofLasts(Apply(s, ops[0]), ops[1..], name);
    }
  }

  /**
   Once a key was destroyed, every erasure of it is answered with the proof of that destruction, whatever else happens,
   until a disposal comes 730 days or more later.
   */
  lemma RepeatedErasureAnswersWithTheFirst(s: State, op: Op, name: Text, more: seq<Op>, at: int, recordId: Text,
                                           reaches: bool)
    requires Destroys(s, op, name) && NoneDisposes(more, op.at)
    ensures var (r, after) := Destroy(ApplyAll(Apply(s, op), more), name, at, recordId, reaches);
            r.Ok? && ProofOf(r.value, name, op) && after == ApplyAll(Apply(s, op), more)
  {
    DestructionIsRecorded(s, op, name);
    ProofLasts(Apply(s, op), more, name);
  }

  /** A disposal removes a proof exactly when it comes 730 days or more after the destruction. */
  lemma DisposalTakesItsTime(s: State, name: Text, now: int)
    requires name in s.proofs
    ensures name in DisposeProofs(s, now).proofs <==> now < s.proofs[name].destroyedAt + KEPT_FOR_MS
  {
    ProofStays(s, DisposeOp(now), name);
  }

  /** An erasure fails, and does nothing, exactly when nothing is recorded and the custodian is out of reach. */
  lemma ErasureFailsExactlyOutOfReach(s: State, name: Text, at: int, recordId: Text, reaches: bool)
    ensures var (r, after) := Destroy(s, name, at, recordId, reaches);
            && (r.Err? <==> name !in s.proofs && !reaches)
            && (r.Err? ==> r.error == CustodianUnreachable && after == s)
            && (r.Ok? ==> name in after.proofs && r.value == after.proofs[name])
  {
  }

  // ---- What a failure to open says -----------------------------------------------------------------------------

  /**
   Sealing fails exactly when a call does not get through. Content that does not open says which of its keys is
   destroyed, the bucket's first; it is called corrupt only when a later seal made that key again. An outage is told as
   one.
   */
  lemma FailuresTellWhat(s: State, sealed: SealedContent, plaintext: Text, reach: Reach)
    requires WellKept(s.custodian) && Genuine(s, sealed, plaintext)
    ensures var r := Unseal(s, sealed, reach);
            var (bucketGone, subjectGone) := (BucketKeyName(sealed.bucket) !in s.custodian.keks,
                                              SubjectKeyName(sealed.subject) !in s.custodian.keks);
            && (!reach.first ==> r == Err(CustodianUnreachable))
            && (reach.first && bucketGone ==> r == Err(BucketExpired(sealed.bucket)))
            && (reach == Reach(true, true) && !bucketGone && sealed.wrappedBucketKey in s.custodian.wrapped
                && subjectGone ==>
                  r == Err(SubjectErased(sealed.subject)))
            && (r == Err(CiphertextCorrupt) ==>
                  || (!bucketGone && sealed.wrappedBucketKey !in s.custodian.wrapped)
                  || (!subjectGone && sealed.wrappedSubjectKey !in s.custodian.wrapped))
  {
  }

  lemma SealingFailsExactlyOutOfReach(s: State, request: SealRequest, rnd: Randomness, reach: Reach)
    ensures var (r, after) := Seal(s, request, rnd, reach);
            && (r.Ok? <==> reach == Reach(true, true)) && (r.Err? ==> r.error == CustodianUnreachable)
            && after.proofs == s.proofs
            && (r.Ok? ==> r.value.subject == request.subject && r.value.bucket == request.bucket)
  {
  }
}
