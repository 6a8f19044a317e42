/**
 Appending to a log, refusing a bad continuation and verifying the chain
 (src/evidence/domain/append-entry.ts, src/evidence/domain/verify-run-log.ts).
 */
module HashChain {
  import opened Outcomes
  import opened Texts
  import opened ExecutionLog

  datatype AppendFailure = RunAlreadyFinished(runId: Text)

  datatype AppendRefusal =
    | SequenceRewind(tail: int, received: int)
    | ChainDiverged(expectedPrevious: Text, receivedPrevious: Text)

  datatype LogIntegrityFailure =
    | SequenceGap(expected: int, found: int)
    | ChainBroken(seqNo: int)
    | HashMismatch(seqNo: int)

  /** The hash the next entry must name as its predecessor's. */
  function TailHash(log: Log): Text {
    if |log| == 0 then GenesisHash() else log[|log| - 1].hash
  }

  predicate IsFinished(log: Log) {
    |log| > 0 && log[|log| - 1].event.RunFinished?
  }

  function SealEntry(unhashed: Entry, hash: EntryHasher): Entry {
    unhashed.(hash := hash(unhashed))
  }

  function NextEntry(log: Log, event: Event, runId: Text, at: int, hash: EntryHasher): Entry {
    SealEntry(Entry(runId, |log|, at, TailHash(log), [], event), hash)
  }

  function AppendEntry(log: Log, event: Event, runId: Text, at: int, hash: EntryHasher): (r: Result<Log, AppendFailure>)
    ensures r.Err? <==> IsFinished(log)
  {
    if IsFinished(log) then Err(RunAlreadyFinished(runId)) else Ok(log + [NextEntry(log, event, runId, at, hash)])
  }

  /** The entry carries the event, the next number and the hash of the entry before, and hashes to its own. */
  predicate Links(log: Log, entry: Entry, event: Event, runId: Text, at: int, hash: EntryHasher) {
    && entry.event == event && entry.runId == runId && entry.at == at && entry.seqNo == |log|
    && entry.previousHash == (if |log| == 0 then GenesisHash() else log[|log| - 1].hash)
    && entry.hash == hash(entry.(hash := []))
  }

  /** An append to an unfinished log adds the one entry that links to it, and changes nothing before. */
  lemma AppendAddsOneLink(log: Log, event: Event, runId: Text, at: int, hash: EntryHasher)
    ensures var r := AppendEntry(log, event, runId, at, hash);
            if IsFinished(log) then r == Err(RunAlreadyFinished(runId))
            else
              r.Ok? && |r.value| == |log| + 1 && r.value[..|log|] == log
              && Links(log, r.value[|log|], event, runId, at, hash)
  {
  }

  /** What is wrong with the i-th entry, looked at as the verifier does: number, link, hash. */
  function EntryFault(log: Log, i: nat, hash: EntryHasher): Option<LogIntegrityFailure>
    requires i < |log|
  {
    var entry := log[i];
    if entry.seqNo != i then Some(SequenceGap(i, entry.seqNo))
    else if entry.previousHash != TailHash(log[..i]) then Some(ChainBroken(entry.seqNo))
    else if hash(entry) != entry.hash then Some(HashMismatch(entry.seqNo))
    else None
  }

  predicate Verified(log: Log, hash: EntryHasher) {
    forall i | 0 <= i < |log| :: EntryFault(log, i, hash) == None
  }

  /** Accepts exactly the verified logs, and otherwise reports the first entry where the chain diverges. */
  method VerifyRunLog(log: Log, hash: EntryHasher) returns (r: Result<Log, LogIntegrityFailure>)
    ensures r.Ok? <==> Verified(log, hash)
    ensures r.Ok? ==> r.value == log
    ensures r.Err? ==> exists i ::
            0 <= i < |log| && Verified(log[..i], hash) && EntryFault(log, i, hash) == Some(r.error)
  {
    var expectedPrevious := GenesisHash();
    for index := 0 to |log|
      invariant expectedPrevious == TailHash(log[..index])
      invariant forall i | 0 <= i < index :: EntryFault(log, i, hash) == None
    {
      var entry := log[index];
      PrefixFaults(log, index, hash);
      ghost var fault := EntryFault(log, index, hash);
      if entry.seqNo != index {
        return Err(SequenceGap(index, entry.seqNo));
      }
      if entry.previousHash != expectedPrevious {
        return Err(ChainBroken(entry.seqNo));
      }
      if hash(entry) != entry.hash {
        return Err(HashMismatch(entry.seqNo));
      }
      expectedPrevious := entry.hash;
    }
    return Ok(log);
  }

  /** An entry's fault depends only on the entries up to it. */
  lemma PrefixFaults(log: Log, n: nat, hash: EntryHasher)
    requires n <= |log|
    ensures forall i | 0 <= i < n :: EntryFault(log[..n], i, hash) == EntryFault(log, i, hash)
  {
    forall i | 0 <= i < n ensures EntryFault(log[..n], i, hash) == EntryFault(log, i, hash) {
      assert log[..n][..i] == log[..i];
    }
  }

  lemma PrefixVerified(log: Log, n: nat, hash: EntryHasher)
    requires Verified(log, hash) && n <= |log|
    ensures Verified(log[..n], hash)
  {
    PrefixFaults(log, n, hash);
  }

  /** Appending an event to a verified, unfinished log gives a verified log. */
  lemma AppendKeepsVerified(log: Log, event: Event, runId: Text, at: int, hash: EntryHasher)
    requires Commits(hash) && Verified(log, hash) && !IsFinished(log)
    ensures var r := AppendEntry(log, event, runId, at, hash);
            r.Ok? && Verified(r.value, hash) && log <= r.value && r.value[|log|].event == event
  {
    var longer := log + [NextEntry(log, event, runId, at, hash)];
    var unhashed := Entry(runId, |log|, at, TailHash(log), [], event);
    assert SameContent(unhashed.(hash := hash(unhashed)), unhashed);
    assert longer[..|log|] == log;
    PrefixFaults(longer, |log|, hash);
  }

  lemma SameHashSameEntry(x: Entry, y: Entry, hash: EntryHasher)
    requires Commits(hash)
    requires hash(x) == x.hash == y.hash == hash(y)
    ensures x == y
  {
    assert SameContent(x, y);
  }

  /** Two verified logs that end in the same hash are the same log: one link commits to the whole history. */
  lemma {:induction false} SameTailSameLog(a: Log, b: Log, hash: EntryHasher)
    requires Commits(hash) && Verified(a, hash) && Verified(b, hash)
    requires |a| > 0 && |b| > 0 && TailHash(a) == TailHash(b)
    ensures a == b
    decreases |a|
  {
    var x, y := a[|a| - 1], b[|b| - 1];
    assert EntryFault(a, |a| - 1, hash) == None && EntryFault(b, |b| - 1, hash) == None;
    SameHashSameEntry(x, y, hash);
    var p, q := a[..|a| - 1], b[..|b| - 1];
    assert a == p + [x] && b == q + [y];
    if |p| > 0 {
      PrefixVerified(a, |p|, hash);
      PrefixVerified(b, |q|, hash);
      SameTailSameLog(p, q, hash);
    }
  }

  /** An altered, shortened, extended or reordered copy of a verified log that keeps its last hash does not verify. */
  lemma AlteredLogFails(log: Log, altered: Log, hash: EntryHasher)
    requires Commits(hash) && Verified(log, hash) && |log| > 0 && |altered| > 0
    requires altered != log && TailHash(altered) == TailHash(log)
    ensures !Verified(altered, hash)
  {
    if Verified(altered, hash) { SameTailSameLog(log, altered, hash); }
  }

  /** The write-time check of every log store: a single link, against the stored count and tail hash. */
  function ValidateAppend(storedCount: nat, tailHash: Option<Text>, entries: Log): Result<Log, AppendRefusal> {
    if |entries| < storedCount then Err(SequenceRewind(storedCount - 1, |entries| - 1))
    else if |entries| == storedCount then Ok([])
    else
      var first := entries[storedCount];
      var expectedPrevious := if tailHash.Some? then tailHash.value else GenesisHash();
      if first.previousHash != expectedPrevious then Err(ChainDiverged(expectedPrevious, first.previousHash))
      else Ok(entries[storedCount..])
  }

  function StoredTail(log: Log): Option<Text> {
    if |log| == 0 then None else Some(log[|log| - 1].hash)
  }

  function Validated(stored: Log, entries: Log): Result<Log, AppendRefusal> {
    ValidateAppend(|stored|, StoredTail(stored), entries)
  }

  /**
   For verified logs the one link decides: new entries are accepted exactly when the incoming log extends the stored
   one.
   */
  lemma AcceptedMeansExtended(stored: Log, incoming: Log, hash: EntryHasher)
    requires Commits(hash) && Verified(stored, hash) && Verified(incoming, hash)
    ensures |incoming| > |stored| ==> (Validated(stored, incoming).Ok? <==> stored <= incoming)
    ensures |incoming| > |stored| && stored <= incoming ==> stored + Validated(stored, incoming).value == incoming
  {
    if |incoming| > |stored| {
      var prefix := incoming[..|stored|];
      PrefixVerified(incoming, |stored|, hash);
      assert EntryFault(incoming, |stored|, hash) == None;
      if Validated(stored, incoming).Ok? && |stored| > 0 {
        SameTailSameLog(stored, prefix, hash);
      }
      if stored <= incoming {
        assert prefix == stored;
      }
      assert incoming == prefix + incoming[|stored|..];
    }
  }

  /**
   Without new entries the link is not looked at: a log of the stored length is accepted with nothing to write, whatever
   it says, and a shorter one is refused; so the stored log stays as it is.
   */
  lemma EqualLengthIsANoOp(stored: Log, incoming: Log)
    ensures |incoming| <= |stored| ==> AppendAll(stored, [incoming]) == stored
    ensures |incoming| <= |stored| ==> (Validated(stored, incoming).Ok? <==> |incoming| == |stored|)
    ensures |incoming| == |stored| ==> Validated(stored, incoming) == Ok([])
  {
    assert AppendAll(stored, []) == stored;
    if |incoming| <= |stored| {
      assert [incoming][1..] == [] && stored + [] == stored;
    }
  }

  /** A refusal names what it found: where the log would rewind to, or the two hashes that should have been one. */
  lemma RefusalsSayWhy(stored: Log, incoming: Log)
    ensures var r := Validated(stored, incoming);
            && (r.Err? && r.error.SequenceRewind? <==> |incoming| < |stored|)
            && (r.Err? && r.error.SequenceRewind? ==> r.error == SequenceRewind(|stored| - 1, |incoming| - 1))
            && (r.Err? && r.error.ChainDiverged? ==>
                  |incoming| > |stored| && r.error.receivedPrevious == incoming[|stored|].previousHash
                  && r.error.expectedPrevious == TailHash(stored) != r.error.receivedPrevious)
  {
  }

  /** What a store holds after a list of append requests, each refused or written whole. */
  function AppendAll(stored: Log, requests: seq<Log>): Log
    decreases |requests|
  {
    if |requests| == 0 then stored
    else
      var r := Validated(stored, requests[0]);
      AppendAll(if r.Ok? then stored + r.value else stored, requests[1..])
  }

  /** Any history of appends of verified logs keeps the store verified and only ever extends it. */
  lemma {:induction false} HistoryOnlyExtends(stored: Log, requests: seq<Log>, hash: EntryHasher)
    requires Commits(hash) && Verified(stored, hash)
    requires forall i | 0 <= i < |requests| :: Verified(requests[i], hash)
    ensures Verified(AppendAll(stored, requests), hash) && stored <= AppendAll(stored, requests)
    ensures AppendAll(stored, requests) == stored || AppendAll(stored, requests) in requests
    decreases |requests|
  {
    if |requests| > 0 {
      var r := Validated(stored, requests[0]);
      AcceptedMeansExtended(stored, requests[0], hash);
      var next := if r.Ok? then stored + r.value else stored;
      assert next == stored || next == requests[0];
      HistoryOnlyExtends(next, requests[1..], hash);
    }
  }
}
