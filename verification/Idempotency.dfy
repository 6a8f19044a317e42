/**
 Claims on requests, and running a request once
 (src/serving/domain/idempotency-store.ts, src/serving/application/execute-once.ts,
 src/serving/infrastructure/in-memory-idempotency-store.ts, sqlite-idempotency-store.ts).
 */
module Idempotency {
  import opened Outcomes
  import opened Texts
  import opened Sets

  datatype RequestKey = RequestKey(namespace: Text, request: Text)

  datatype RecordedOutcome = RecordedOutcome(succeeded: bool, body: Text)

  datatype Claim = Claim(key: RequestKey, claimedAt: int, expiresAt: int, outcome: Option<RecordedOutcome>)

  datatype ClaimResult = Claimed(claim: Claim) | AlreadyClaimed(claim: Claim)

  datatype IdempotencyFailure = InFlight(request: Text) | UnknownClaim(request: Text)

  const CLAIM_TTL_MS := 24 * 60 * 60 * 1000

  predicate IsExpired(claim: Claim, at: int) { at >= claim.expiresAt }

  function NewClaim(key: RequestKey, at: int): Claim {
    Claim(key, at, at + CLAIM_TTL_MS, None)
  }

  /** A ledger under whatever keys a store uses: texts in memory, pairs in a table. */
  type Ledger<!K> = map<K, Claim>

  function ClaimIn<K>(ledger: Ledger<K>, k: K, key: RequestKey, at: int): (ClaimResult, Ledger<K>) {
    if k in ledger && !IsExpired(ledger[k], at) then (AlreadyClaimed(ledger[k]), ledger)
    else
      (Claimed(NewClaim(key, at)), ledger[k := NewClaim(key, at)])
  }

  function CompleteIn<K>(ledger: Ledger<K>, k: K, key: RequestKey,
                         outcome: RecordedOutcome): (Result<Claim, IdempotencyFailure>, Ledger<K>) {
    if k !in ledger then (Err(UnknownClaim(key.request)), ledger)
    else
      var completed := ledger[k].(outcome := Some(outcome));
      (Ok(completed), ledger[k := completed])
  }

  function SweptAt<K>(ledger: Ledger<K>, now: int): Ledger<K> {
    map k | k in ledger && ledger[k].expiresAt > now :: ledger[k]
  }

  /** What a delivery that found a claim is told. */
  function Deduped(key: RequestKey, claim: Claim): Result<RecordedOutcome, IdempotencyFailure> {
    if claim.outcome.Some? then Ok(claim.outcome.value) else Err(InFlight(key.request))
  }

  // ---- The stores --------------------------------------------------------------------------------------------------

  /** No namespace contains the separator. */
  const KEY_SEPARATOR: CodeUnit := 0

  function KeyFor(key: RequestKey): Text {
    key.namespace + [KEY_SEPARATOR] + key.request
  }

  lemma KeysNeverCollide(a: RequestKey, b: RequestKey)
    requires KEY_SEPARATOR !in a.namespace && KEY_SEPARATOR !in b.namespace
    ensures KeyFor(a) == KeyFor(b) <==> a == b
  {
    if KeyFor(a) == KeyFor(b) { SeparatorTells(a.namespace, a.request, b.namespace, b.request, KEY_SEPARATOR); }
  }

  class InMemoryIdempotencyStore {
    var claims: Ledger<Text>

    constructor ()
      ensures claims == map[]
    {
      claims := map[];
    }

    method Claim(key: RequestKey, at: int) returns (r: ClaimResult)
      modifies this
      ensures (r, claims) == ClaimIn(old(claims), KeyFor(key), key, at)
    {
      var k := KeyFor(key);
      if k in claims && !IsExpired(claims[k], at) {
        return AlreadyClaimed(claims[k]);
      }
      var claim := NewClaim(key, at);
      claims := claims[k := claim];
      return Claimed(claim);
    }

    method Complete(key: RequestKey, outcome: RecordedOutcome) returns (r: Result<Claim, IdempotencyFailure>)
      modifies this
      ensures (r, claims) == CompleteIn(old(claims), KeyFor(key), key, outcome)
    {
      var k := KeyFor(key);
      if k !in claims {
        return Err(UnknownClaim(key.request));
      }
      claims := claims[k := claims[k].(outcome := Some(outcome))];
      return Ok(claims[k]);
    }
  }

  class SqliteIdempotencyStore {
    var rows: Ledger<RequestKey>

    constructor ()
      ensures rows == map[]
    {
      rows := map[];
    }

    method Claim(key: RequestKey, at: int) returns (r: ClaimResult)
      modifies this
      ensures (r, rows) == ClaimIn(old(rows), key, key, at)
    {
      if key in rows && !IsExpired(rows[key], at) {
        return AlreadyClaimed(rows[key]);
      }
      var claim := NewClaim(key, at);
      rows := rows[key := claim];
      return Claimed(claim);
    }

    method Complete(key: RequestKey, outcome: RecordedOutcome) returns (r: Result<Claim, IdempotencyFailure>)
      modifies this
      ensures (r, rows) == CompleteIn(old(rows), key, key, outcome)
    {
      if key !in rows {
        return Err(UnknownClaim(key.request));
      }
      rows := rows[key := rows[key].(outcome := Some(outcome))];
      return Ok(rows[key]);
    }

    method SweepExpired(now: int) returns (count: nat)
      modifies this
      ensures rows == SweptAt(old(rows), now) && count == |old(rows)| - |rows|
    {
      var kept := map k | k in rows && rows[k].expiresAt > now :: rows[k];
      SubsetSize(kept.Keys, rows.Keys);
      count := |rows.Keys| - |kept.Keys|;
      rows := kept;
    }
  }

  /** The two stores hold the same claims for every namespace free of the separator. */
  ghost predicate SameClaims(memory: Ledger<Text>, table: Ledger<RequestKey>) {
    forall key: RequestKey | KEY_SEPARATOR !in key.namespace ::
      (KeyFor(key) in memory <==> key in table) && (key in table ==> memory[KeyFor(key)] == table[key])
  }

  lemma SetAlike(memory: Ledger<Text>, table: Ledger<RequestKey>, key: RequestKey, claim: Claim)
    requires SameClaims(memory, table) && KEY_SEPARATOR !in key.namespace
    ensures SameClaims(memory[KeyFor(key) := claim], table[key := claim])
  {
    forall other: RequestKey | KEY_SEPARATOR !in other.namespace
      ensures KeyFor(other) == KeyFor(key) <==> other == key
    {
      KeysNeverCollide(other, key);
    }
  }

  /** The string keys of the store in memory are as good as pairs: both stores answer alike and stay alike. */
  lemma StoresAnswerAlike(memory: Ledger<Text>, table: Ledger<RequestKey>, key: RequestKey, at: int,
                          outcome: RecordedOutcome)
    requires SameClaims(memory, table) && KEY_SEPARATOR !in key.namespace
    ensures var (m, t) := (ClaimIn(memory, KeyFor(key), key, at), ClaimIn(table, key, key, at));
            m.0 == t.0 && SameClaims(m.1, t.1)
    ensures var (m, t) := (CompleteIn(memory, KeyFor(key), key, outcome), CompleteIn(table, key, key, outcome));
            m.0 == t.0 && SameClaims(m.1, t.1)
  {
    SetAlike(memory, table, key, NewClaim(key, at));
    if key in table { SetAlike(memory, table, key, table[key].(outcome := Some(outcome))); }
  }

  // ---- One delivery -------------------------------------------------------------------------------------------------

  /** `meanwhile` is what the ledger becomes while the request runs. */
  method ExecuteOnce(store: SqliteIdempotencyStore, key: RequestKey, at: int, outcome: RecordedOutcome,
                     meanwhile: Ledger<RequestKey> -> Ledger<RequestKey>)
    returns (r: Result<RecordedOutcome, IdempotencyFailure>, ghost invoked: bool)
    modifies store
    ensures var (claimed, ledger) := ClaimIn(old(store.rows), key, key, at);
            && invoked == claimed.Claimed?
            && (!invoked ==> r == Deduped(key, claimed.claim) && store.rows == old(store.rows))
            && (invoked ==> store.rows == CompleteIn(meanwhile(ledger), key, key, outcome).1
                            && r == if key in meanwhile(ledger) then Ok(outcome) else Err(UnknownClaim(key.request)))
  {
    var claimed := store.Claim(key, at);
    if claimed.AlreadyClaimed? {
      var recorded := claimed.claim.outcome;
      return if recorded.None? then Err(InFlight(key.request)) else Ok(recorded.value), false;
    }
    store.rows := meanwhile(store.rows);
    var completed := store.Complete(key, outcome);
    return if completed.Ok? then Ok(outcome) else Err(completed.error), true;
  }
}
