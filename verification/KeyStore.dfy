/**
 The key store as the program runs it: a custodian and a registry that change in place, and the store that calls both
 (src/custody/infrastructure/envelope-subject-key-store.ts, in-memory-key-custodian.ts, sqlite-deletion-registry.ts).
 */
module KeyStore {
  import opened Outcomes
  import opened Texts
  import opened Custody
  import opened Retention
  import opened Sets

  class InMemoryKeyCustodian {
    var keks: set<Text>
    var wrapped: map<Text, Key>
    ghost var issued: map<Text, Issued>

    constructor ()
      ensures View() == Custodian({}, map[], map[])
    {
      keks, wrapped, issued := {}, map[], map[];
    }

    ghost function View(): Custodian
      reads this
    {
      Custodian(keks, wrapped, issued)
    }

    method IssueKey(name: Text, key: Key, uuid: Text) returns (issuedKey: DataKey)
      modifies this
      ensures (issuedKey, View()) == IssueDataKey(old(View()), name, key, uuid)
    {
      keks := keks + {name};
      var handle := Handle(name, uuid);
      wrapped := wrapped[handle := key];
      issued := issued[handle := Issued(name, uuid, key)];
      return DataKey(key, handle);
    }

    method UnwrapKey(name: Text, handle: Text) returns (r: Result<Key, KeyStoreFailure>)
      ensures r == UnwrapDataKey(View(), name, handle)
    {
      if name !in keks {
        return Err(KeyDestroyed(name));
      }
      return if handle in wrapped then Ok(wrapped[handle]) else Err(CiphertextCorrupt);
    }

    method Destroy(name: Text)
      modifies this
      ensures View() == DestroyKey(old(View()), name)
    {
      keks := keks - {name};
      var handles := wrapped.Keys;
      ghost var was := wrapped;
      while handles != {}
        invariant handles <= wrapped.Keys <= was.Keys
        invariant forall h | h in was :: h in wrapped <==> h in handles || !StartsWith(h, HandlePrefix(name))
        invariant forall h | h in wrapped :: wrapped[h] == was[h]
        invariant keks == old(keks) - {name} && issued == old(issued)
        decreases |handles|
      {
        var handle :| handle in handles;
        handles := handles - {handle};
        if StartsWith(handle, HandlePrefix(name)) {
          wrapped := wrapped - {handle};
        }
      }
      assert wrapped == DestroyKey(old(View()), name).wrapped;
    }
  }

  class SqliteDeletionRegistry {
    var destructions: map<Text, ErasureProof>

    constructor ()
      ensures destructions == map[]
    {
      destructions := map[];
    }

    /** The first proof of a destruction stays. */
    method Record(name: Text, proof: ErasureProof)
      modifies this
      ensures destructions == if name in old(destructions) then old(destructions) else old(destructions)[name := proof]
    {
      if name !in destructions {
        destructions := destructions[name := proof];
      }
    }

    method Lookup(name: Text) returns (proof: Option<ErasureProof>)
      ensures proof == if name in destructions then Some(destructions[name]) else None
    {
      return if name in destructions then Some(destructions[name]) else None;
    }

    method DisposeExpired(now: int) returns (count: nat)
      modifies this
      ensures destructions == DisposeProofs(State(Custodian({}, map[], map[]), old(destructions)), now).proofs
      ensures count == |old(destructions)| - |destructions|
    {
      var kept := map name | name in destructions && destructions[name].destroyedAt > DisposalCutoff(now) ::
          destructions[name];
      SubsetSize(kept.Keys, destructions.Keys);
      count := |destructions.Keys| - |kept.Keys|;
      destructions := kept;
    }
  }

  class EnvelopeSubjectKeyStore {
    const custodian: InMemoryKeyCustodian
    const registry: SqliteDeletionRegistry

    constructor (custodian: InMemoryKeyCustodian, registry: SqliteDeletionRegistry)
      ensures this.custodian == custodian && this.registry == registry
    {
      this.custodian, this.registry := custodian, registry;
    }

    ghost function View(): State
      reads custodian, registry
    {
      State(custodian.View(), registry.destructions)
    }

    method SealContent(request: SealRequest, rnd: Randomness, reach: Reach)
        returns (r: Result<SealedContent, KeyStoreFailure>)
      modifies custodian
      ensures (r, View()) == Seal(old(View()), request, rnd, reach)
    {
      if !reach.first {
        return Err(CustodianUnreachable);
      }
      var subjectKey := custodian.IssueKey(SubjectKeyName(request.subject), rnd.subjectKey, rnd.subjectUuid);
      if !reach.second {
        return Err(CustodianUnreachable);
      }
      var bucketKey := custodian.IssueKey(BucketKeyName(request.bucket), rnd.bucketKey, rnd.bucketUuid);
      var once := Encrypted(subjectKey.plaintext, rnd.inner, Clear(request.plaintext));
      var twice := Encrypted(bucketKey.plaintext, rnd.outer, once);
      return Ok(SealedContent(request.subject, request.bucket, rnd.inner + [DOT] + rnd.outer, twice,
                              subjectKey.wrapped, bucketKey.wrapped));
    }

    method UnsealContent(sealed: SealedContent, reach: Reach) returns (r: Result<Text, KeyStoreFailure>)
      ensures r == Unseal(View(), sealed, reach)
    {
      var iv := SplitIv(sealed.iv);
      if iv.None? {
        return Err(CiphertextCorrupt);
      }
      if !reach.first {
        return Err(CustodianUnreachable);
      }
      var bucketKey := custodian.UnwrapKey(BucketKeyName(sealed.bucket), sealed.wrappedBucketKey);
      if bucketKey.Err? {
        return Err(if bucketKey.error.KeyDestroyed? then BucketExpired(sealed.bucket) else bucketKey.error);
      }
      if !reach.second {
        return Err(CustodianUnreachable);
      }
      var subjectKey := custodian.UnwrapKey(SubjectKeyName(sealed.subject), sealed.wrappedSubjectKey);
      if subjectKey.Err? {
        return Err(if subjectKey.error.KeyDestroyed? then SubjectErased(sealed.subject) else subjectKey.error);
      }
      var once := Decrypted(bucketKey.value, iv.value.1, sealed.ciphertext);
      if once.None? {
        return Err(CiphertextCorrupt);
      }
      var clear := Decrypted(subjectKey.value, iv.value.0, once.value);
      return if clear.Some? && clear.value.Clear? then Ok(clear.value.text) else Err(CiphertextCorrupt);
    }

    method DestroyNamed(name: Text, at: int, recordId: Text, reaches: bool)
        returns (r: Result<ErasureProof, KeyStoreFailure>)
      modifies custodian, registry
      ensures (r, View()) == Custody.Destroy(old(View()), name, at, recordId, reaches)
    {
      var recorded := registry.Lookup(name);
      if recorded.Some? {
        return Ok(recorded.value);
      }
      if !reaches {
        return Err(CustodianUnreachable);
      }
      custodian.Destroy(name);
      var proof := ErasureProof(name, at, Ascii("local:") + name, recordId, SelfRecord);
      registry.Record(name, proof);
      return Ok(proof);
    }

    method DestroySubjectKey(subject: Text, at: int, recordId: Text, reaches: bool)
        returns (r: Result<ErasureProof, KeyStoreFailure>)
      modifies custodian, registry
      ensures View() == Apply(old(View()), EraseOp(subject, at, recordId, reaches))
      ensures r == Custody.Destroy(old(View()), SubjectKeyName(subject), at, recordId, reaches).0
    {
      r := DestroyNamed(SubjectKeyName(subject), at, recordId, reaches);
    }

    method ExpireBucket(bucket: Text, at: int, recordId: Text, reaches: bool)
        returns (r: Result<ErasureProof, KeyStoreFailure>)
      modifies custodian, registry
      ensures View() == Apply(old(View()), ExpireOp(bucket, at, recordId, reaches))
      ensures r == Custody.Destroy(old(View()), BucketKeyName(bucket), at, recordId, reaches).0
    {
      r := DestroyNamed(BucketKeyName(bucket), at, recordId, reaches);
    }
  }
}
