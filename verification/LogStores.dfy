/**
 The two execution-log stores: a sequence per run in memory, and rows keyed by (namespace, run, seq)
 (src/evidence/infrastructure/in-memory-execution-log-store.ts,
 src/evidence/infrastructure/sqlite-execution-log-store.ts).
 */
module LogStores {
  import opened Outcomes
  import opened Texts
  import opened ExecutionLog
  import opened HashChain
  import opened Retention
  import opened Sets

  datatype RunKey = RunKey(namespace: Text, runId: Text)
  datatype RowKey = RowKey(run: RunKey, seqNo: int)

  datatype StoreFailure =
    | AppendRefused(refusal: AppendRefusal)
    | UnknownRun(runId: Text)
    | CorruptEntry(runId: Text, seqNo: int)
    | RunDisposed(runId: Text)
    | StorageError

  datatype Answer =
    | Appended(appended: Result<(), StoreFailure>)
    | Rows(entries: Result<Log, StoreFailure>)
    | Disposed(count: nat)

  datatype Op = Append(key: RunKey, log: Log) | Read(target: RunKey) | Dispose(now: int)

  /** The key a run has in memory; neither part of it contains a space. */
  function KeyFor(namespace: Text, runId: Text): Text {
    namespace + [32] + runId
  }

  lemma KeysNeverCollide(n: Text, r: Text, m: Text, s: Text)
    requires 32 !in n && 32 !in m
    ensures KeyFor(n, r) == KeyFor(m, s) <==> n == m && r == s
  {
    if KeyFor(n, r) == KeyFor(m, s) { SeparatorTells(n, r, m, s, 32); }
  }

  // ---- In memory ---------------------------------------------------------------------------------------------

  datatype Runs = Runs(live: map<RunKey, Log>, disposed: set<RunKey>)

  function StoredLog(s: Runs, key: RunKey): Log {
    if key in s.live then s.live[key] else []
  }

  function RunsAppend(s: Runs, key: RunKey, log: Log): (Result<(), StoreFailure>, Runs) {
    if key in s.disposed then (Err(RunDisposed(key.runId)), s)
    else
      var validated := Validated(StoredLog(s, key), log);
      if validated.Err? then (Err(AppendRefused(validated.error)), s)
      else if |validated.value| == 0 then (Ok(()), s)
      else (Ok(()), s.(live := s.live[key := StoredLog(s, key) + validated.value]))
  }

  function RunsRead(s: Runs, key: RunKey): Result<Log, StoreFailure> {
    if key in s.live then Ok(s.live[key]) else Err(UnknownRun(key.runId))
  }

  predicate LogIsDue(log: Log, now: int) {
    |log| > 0 && IsDueForDisposal(log[|log| - 1].at, now)
  }

  function DueRuns(s: Runs, now: int): set<RunKey> {
    set key | key in s.live && LogIsDue(s.live[key], now)
  }

  function RunsDispose(s: Runs, now: int): (nat, Runs) {
    var due := DueRuns(s, now);
    (|due|, Runs(s.live - due, s.disposed + due))
  }

  class InMemoryExecutionLogStore {
    var runs: map<RunKey, Log>
    var disposed: set<RunKey>

    constructor ()
      ensures State() == Runs(map[], {})
    {
      runs, disposed := map[], {};
    }

    ghost function State(): Runs
      reads this
    {
      Runs(runs, disposed)
    }

    method Append(key: RunKey, entries: Log) returns (r: Result<(), StoreFailure>)
      modifies this
      ensures (r, State()) == RunsAppend(old(State()), key, entries)
    {
      if key in disposed {
        return Err(RunDisposed(key.runId));
      }
      var stored := if key in runs then runs[key] else [];
      var validated := ValidateAppend(|stored|, StoredTail(stored), entries);
      if validated.Err? {
        return Err(AppendRefused(validated.error));
      }
      if |validated.value| > 0 {
        runs := runs[key := stored + validated.value];
      }
      return Ok(());
    }

    method Read(key: RunKey) returns (r: Result<Log, StoreFailure>)
      ensures r == RunsRead(State(), key)
    {
      if key in runs { return Ok(runs[key]); }
      return Err(UnknownRun(key.runId));
    }

    method DisposeExpiredRuns(now: int) returns (count: nat)
      modifies this
      ensures (count, State()) == RunsDispose(old(State()), now)
    {
      count := 0;
      var remaining := runs.Keys;
      ghost var was, due := State(), DueRuns(State(), now);
      ghost var gone := {};
      while remaining != {}
        invariant remaining <= was.live.Keys && remaining !! gone && gone <= due
        invariant forall k | k in due :: k in remaining || k in gone
        invariant count == |gone| && runs == was.live - gone && disposed == was.disposed + gone
        decreases |remaining|
      {
        var key :| key in remaining;
        RemoveOne(was, gone, key);
        var stored := runs[key];
        assert key in due <==> LogIsDue(stored, now);
        remaining := remaining - {key};
        if |stored| > 0 && IsDueForDisposal(stored[|stored| - 1].at, now) {
          runs, disposed, count := runs - {key}, disposed + {key}, count + 1;
          gone := gone + {key};
        }
      }
      assert gone == due;
    }
  }

  lemma RemoveOne(s: Runs, gone: set<RunKey>, key: RunKey)
    requires key !in gone
    ensures (s.live - gone) - {key} == s.live - (gone + {key})
    ensures (s.disposed + gone) + {key} == s.disposed + (gone + {key})
    ensures |gone + {key}| == |gone| + 1
    ensures key in s.live ==> key in s.live - gone && (s.live - gone)[key] == s.live[key]
  {
  }

  // ---- As rows -----------------------------------------------------------------------------------------------

  /** A stored row holds the text of an entry, or anything else once somebody edited it. */
  datatype Row = Row(entry: Option<Entry>)

  datatype Table = Table(rows: map<RowKey, Row>, disposed: set<RunKey>)

  function ParseStoredEntry(row: Row, hash: EntryHasher): Option<Entry> {
    if row.entry.Some? && hash(row.entry.value) == row.entry.value.hash then row.entry else None
  }

  function SeqNos(rows: map<RowKey, Row>, key: RunKey): set<int> {
    set k | k in rows && k.run == key :: k.seqNo
  }

  lemma {:induction false} HasMin(s: set<int>)
    requires s != {}
    ensures exists m :: m in s && forall x | x in s :: m <= x
    decreases |s|
  {
    var x := Member(s);
    var rest := s - {x};
    if rest == {} {
      forall y | y in s ensures x <= y { assert y == x || y in rest; }
    } else {
      HasMin(rest);
      var m :| m in rest && forall y | y in rest :: m <= y;
      var least := if m <= x then m else x;
      forall y | y in s ensures least <= y { assert y == x || y in rest; }
      assert least in s;
    }
  }

  function Min(s: set<int>): (m: int)
    requires s != {}
    ensures m in s && forall x | x in s :: m <= x
  {
    HasMin(s);
    var m :| m in s && forall x | x in s :: m <= x;
    m
  }

  /** ORDER BY seq ASC. */
  function Ascending(s: set<int>): (q: seq<int>)
    ensures forall x :: x in q <==> x in s
    decreases |s|
  {
    if s == {} then [] else
      var m := Min(s);
      assert s == (s - {m}) + {m};
      [m] + Ascending(s - {m})
  }

  function RunSeqNos(rows: map<RowKey, Row>, key: RunKey): (q: seq<int>)
    ensures forall x :: x in q <==> RowKey(key, x) in rows
  {
    assert forall x :: x in SeqNos(rows, key) <==> RowKey(key, x) in rows;
    Ascending(SeqNos(rows, key))
  }

  /** Rehydrate the rows in order, stopping at the first that does not parse or names another run. */
  function ParseRows(rows: map<RowKey, Row>, key: RunKey, seqNos: seq<int>, hash: EntryHasher): Result<Log, int>
    requires forall x | x in seqNos :: RowKey(key, x) in rows
  {
    if |seqNos| == 0 then Ok([])
    else
      var parsed := ParseStoredEntry(rows[RowKey(key, seqNos[0])], hash);
      if parsed.None? || parsed.value.runId != key.runId then Err(seqNos[0])
      else
        var rest := ParseRows(rows, key, seqNos[1..], hash);
        if rest.Err? then rest else Ok([parsed.value] + rest.value)
  }

  function TableTail(rows: map<RowKey, Row>, key: RunKey): Option<int> {
    var seqNos := RunSeqNos(rows, key);
    if |seqNos| == 0 then None else Some(seqNos[|seqNos| - 1])
  }

  /** Insert entries one by one; an occupied key aborts the whole transaction. */
  function InsertAll(rows: map<RowKey, Row>, key: RunKey, entries: Log): Option<map<RowKey, Row>>
    decreases |entries|
  {
    if |entries| == 0 then Some(rows)
    else if RowKey(key, entries[0].seqNo) in rows then None
    else InsertAll(rows[RowKey(key, entries[0].seqNo) := Row(Some(entries[0]))], key, entries[1..])
  }

  function TableAppend(t: Table, key: RunKey, log: Log): (Result<(), StoreFailure>, Table) {
    if key in t.disposed then (Err(RunDisposed(key.runId)), t)
    else
      var tail := TableTail(t.rows, key);
      if tail.Some? && (tail.value < -1 || t.rows[RowKey(key, tail.value)].entry.None?) then (Err(StorageError), t)
      else
        var validated := if tail.None? then ValidateAppend(0, None, log)
                         else ValidateAppend(tail.value + 1, Some(t.rows[RowKey(key, tail.value)].entry.value.hash),
                                             log);
        if validated.Err? then (Err(AppendRefused(validated.error)), t)
        else
          var rows := InsertAll(t.rows, key, validated.value);
          if rows.None? then (Err(StorageError), t) else (Ok(()), t.(rows := rows.value))
  }

  /** The sequence number the verifier reports for the first entry that does not verify, if there is one. */
  function FirstFault(log: Log, from: nat, hash: EntryHasher): (fault: Option<int>)
    requires from <= |log|
    ensures fault.None? <==> forall i | from <= i < |log| :: EntryFault(log, i, hash) == None
    decreases |log| - from
  {
    if from == |log| then None
    else if EntryFault(log, from, hash).Some? then Some(log[from].seqNo)
    else FirstFault(log, from + 1, hash)
  }

  lemma {:induction false} FirstFaultAt(log: Log, from: nat, at: nat, hash: EntryHasher)
    requires from <= at < |log| && Verified(log[..at], hash) && EntryFault(log, at, hash).Some?
    ensures FirstFault(log, from, hash) == Some(log[at].seqNo)
    decreases at - from
  {
    PrefixFaults(log, at, hash);
    if from < at {
      assert EntryFault(log[..at], from, hash) == None;
      FirstFaultAt(log, from + 1, at, hash);
    }
  }

  function SeqOf(failure: LogIntegrityFailure): int {
    if failure.SequenceGap? then failure.found else failure.seqNo
  }

  lemma ReportedSeq(log: Log, failure: LogIntegrityFailure, hash: EntryHasher)
    requires exists i :: 0 <= i < |log| && Verified(log[..i], hash) && EntryFault(log, i, hash) == Some(failure)
    ensures FirstFault(log, 0, hash) == Some(SeqOf(failure))
  {
    var i :| 0 <= i < |log| && Verified(log[..i], hash) && EntryFault(log, i, hash) == Some(failure);
    FirstFaultAt(log, 0, i, hash);
  }

  function TableRead(t: Table, key: RunKey, hash: EntryHasher): Result<Log, StoreFailure> {
    var seqNos := RunSeqNos(t.rows, key);
    if |seqNos| == 0 then Err(UnknownRun(key.runId))
    else
      var parsed := ParseRows(t.rows, key, seqNos, hash);
      if parsed.Err? then Err(CorruptEntry(key.runId, parsed.error))
      else
        var fault := FirstFault(parsed.value, 0, hash);
        if fault.Some? then Err(CorruptEntry(key.runId, fault.value)) else Ok(parsed.value)
  }

  function ParseAny(rows: map<RowKey, Row>, key: RunKey, seqNos: seq<int>, hash: EntryHasher): Option<Log>
    requires forall x | x in seqNos :: RowKey(key, x) in rows
  {
    if |seqNos| == 0 then Some([])
    else
      var parsed := ParseStoredEntry(rows[RowKey(key, seqNos[0])], hash);
      if parsed.None? then None
      else
        var rest := ParseAny(rows, key, seqNos[1..], hash);
        if rest.None? then None else Some([parsed.value] + rest.value)
  }

  /** The disposal clock: the last instant of a run whose every row parses and whose chain verifies. */
  function VerifiedLastAt(t: Table, key: RunKey, hash: EntryHasher): Option<int> {
    var entries := ParseAny(t.rows, key, RunSeqNos(t.rows, key), hash);
    if entries.None? || |entries.value| == 0 || !Verified(entries.value, hash) then None
    else Some(entries.value[|entries.value| - 1].at)
  }

  function RunKeys(rows: map<RowKey, Row>): set<RunKey> {
    set k | k in rows :: k.run
  }

  predicate RunIsDue(t: Table, key: RunKey, now: int, hash: EntryHasher) {
    var lastAt := VerifiedLastAt(t, key, hash);
    lastAt.Some? && IsDueForDisposal(lastAt.value, now)
  }

  function DueTableRuns(t: Table, now: int, hash: EntryHasher): set<RunKey> {
    set key | key in RunKeys(t.rows) && RunIsDue(t, key, now, hash)
  }

  function WithoutRuns(rows: map<RowKey, Row>, gone: set<RunKey>): map<RowKey, Row> {
    map k | k in rows && k.run !in gone :: rows[k]
  }

  function TableDispose(t: Table, now: int, hash: EntryHasher): (nat, Table) {
    var due := DueTableRuns(t, now, hash);
    (|due|, Table(WithoutRuns(t.rows, due), t.disposed + due))
  }

  class SqliteExecutionLogStore {
    var rows: map<RowKey, Row>
    var disposed: set<RunKey>
    const hash: EntryHasher

    constructor (hash: EntryHasher)
      ensures State() == Table(map[], {}) && this.hash == hash
    {
      rows, disposed, this.hash := map[], {}, hash;
    }

    ghost function State(): Table
      reads this
    {
      Table(rows, disposed)
    }

    /** One transaction: tail read, link check, inserts. */
    method Append(key: RunKey, entries: Log) returns (r: Result<(), StoreFailure>)
      modifies this
      ensures (r, State()) == TableAppend(old(State()), key, entries)
    {
      if key in disposed {
        return Err(RunDisposed(key.runId));
      }
      var tail := TableTail(rows, key);
      var validated: Result<Log, AppendRefusal>;
      if tail.None? {
        validated := ValidateAppend(0, None, entries);
      } else {
        var last := rows[RowKey(key, tail.value)];
        if tail.value < -1 || last.entry.None? {
          return Err(StorageError);
        }
        validated := ValidateAppend(tail.value + 1, Some(last.entry.value.hash), entries);
      }
      if validated.Err? {
        return Err(AppendRefused(validated.error));
      }
      var before := rows;
      for i := 0 to |validated.value|
        invariant InsertAll(before, key, validated.value) == InsertAll(rows, key, validated.value[i..])
        invariant disposed == old(disposed)
      {
        var entry := validated.value[i];
        assert validated.value[i..][1..] == validated.value[i + 1..];
        if RowKey(key, entry.seqNo) in rows {
          rows := before;
          return Err(StorageError);
        }
        rows := rows[RowKey(key, entry.seqNo) := Row(Some(entry))];
      }
      return Ok(());
    }

    method Read(key: RunKey) returns (r: Result<Log, StoreFailure>)
      ensures r == TableRead(State(), key, hash)
    {
      var seqNos := RunSeqNos(rows, key);
      if |seqNos| == 0 {
        return Err(UnknownRun(key.runId));
      }
      var entries: Log := [];
      assert seqNos[0..] == seqNos && forall log: Log :: [] + log == log;
      for i := 0 to |seqNos|
        invariant ParseRows(rows, key, seqNos, hash) == Prepend(entries, ParseRows(rows, key, seqNos[i..], hash))
      {
        var parsed := ParseStoredEntry(rows[RowKey(key, seqNos[i])], hash);
        assert seqNos[i..][1..] == seqNos[i + 1..];
        if parsed.None? || parsed.value.runId != key.runId {
          return Err(CorruptEntry(key.runId, seqNos[i]));
        }
        PrependAssociates(entries, parsed.value, ParseRows(rows, key, seqNos[i + 1..], hash));
        entries := entries + [parsed.value];
      }
      assert entries + [] == entries;
      var verified := VerifyRunLog(entries, hash);
      if verified.Err? {
        var failure := verified.error;
        ReportedSeq(entries, failure, hash);
        return Err(CorruptEntry(key.runId, SeqOf(failure)));
      }
      return Ok(entries);
    }

    method DisposeExpiredRuns(now: int) returns (count: nat)
      modifies this
      ensures (count, State()) == TableDispose(old(State()), now, hash)
    {
      count := 0;
      var remaining := RunKeys(rows);
      ghost var was, due := State(), DueTableRuns(State(), now, hash);
      ghost var gone: set<RunKey> := {};
      assert WithoutRuns(rows, {}) == rows;
      while remaining != {}
        invariant Sweeping(was, due, remaining, gone, count, State())
        decreases |remaining|
      {
        var key :| key in remaining;
        SweepOne(was, due, remaining, gone, count, State(), key, now, hash);
        var isDue := RunIsDue(Table(rows, disposed), key, now, hash);
        remaining := remaining - {key};
        if isDue {
          rows, disposed, count := WithoutRuns(rows, {key}), disposed + {key}, count + 1;
          gone := gone + {key};
        }
      }
      SweptAll(was, due, gone, count, State());
    }
  }

  /** Some runs are looked at, and of those the due ones are gone. */
  ghost predicate Sweeping(was: Table, due: set<RunKey>, remaining: set<RunKey>, gone: set<RunKey>, count: int,
                           t: Table) {
    && remaining <= RunKeys(was.rows) && remaining !! gone && gone <= due
    && (forall k | k in due :: k in remaining || k in gone)
    && count == |gone| && t == Table(WithoutRuns(was.rows, gone), was.disposed + gone)
  }

  lemma SweepOne(was: Table, due: set<RunKey>, remaining: set<RunKey>, gone: set<RunKey>, count: int, t: Table,
                 key: RunKey, now: int, hash: EntryHasher)
    requires due == DueTableRuns(was, now, hash) && Sweeping(was, due, remaining, gone, count, t) && key in remaining
    ensures RunIsDue(t, key, now, hash) ==>
              Sweeping(was, due, remaining - {key}, gone + {key}, count + 1,
                       Table(WithoutRuns(t.rows, {key}), t.disposed + {key}))
    ensures !RunIsDue(t, key, now, hash) ==> Sweeping(was, due, remaining - {key}, gone, count, t)
  {
    OtherRunsUntouched(was, gone, key, hash);
    DueByItsRows(was, gone, key, now, hash);
  }

  lemma SweptAll(was: Table, due: set<RunKey>, gone: set<RunKey>, count: int, t: Table)
    requires Sweeping(was, due, {}, gone, count, t)
    ensures (count, t) == (|due|, Table(WithoutRuns(was.rows, due), was.disposed + due))
  {
    assert gone == due;
  }

  function Prepend(front: Log, rest: Result<Log, int>): Result<Log, int> {
    if rest.Err? then rest else Ok(front + rest.value)
  }

  lemma PrependAssociates(front: Log, entry: Entry, rest: Result<Log, int>)
    ensures Prepend(front, Prepend([entry], rest)) == Prepend(front + [entry], rest)
  {
    if rest.Ok? { assert front + ([entry] + rest.value) == front + [entry] + rest.value; }
  }

  /** Deleting some runs' rows leaves every other run's verified instant as it was. */
  lemma OtherRunsUntouched(t: Table, gone: set<RunKey>, key: RunKey, hash: EntryHasher)
    requires key !in gone
    ensures VerifiedLastAt(Table(WithoutRuns(t.rows, gone), t.disposed + gone), key, hash)
            == VerifiedLastAt(t, key, hash)
    ensures WithoutRuns(WithoutRuns(t.rows, gone), {key}) == WithoutRuns(t.rows, gone + {key})
    ensures (t.disposed + gone) + {key} == t.disposed + (gone + {key}) && |gone + {key}| == |gone| + 1
  {
    var rows := WithoutRuns(t.rows, gone);
    assert SeqNos(rows, key) == SeqNos(t.rows, key);
    SameRowsParse(t.rows, rows, key, RunSeqNos(t.rows, key), hash);
  }

  lemma DueByItsRows(t: Table, gone: set<RunKey>, key: RunKey, now: int, hash: EntryHasher)
    requires key !in gone && key in RunKeys(t.rows)
    ensures RunIsDue(Table(WithoutRuns(t.rows, gone), t.disposed + gone), key, now, hash)
            <==> key in DueTableRuns(t, now, hash)
  {
    OtherRunsUntouched(t, gone, key, hash);
  }

  lemma {:induction false} SameRowsParse(rows: map<RowKey, Row>, less: map<RowKey, Row>, key: RunKey, seqNos: seq<int>,
                                         hash: EntryHasher)
    requires forall x | x in seqNos ::
             RowKey(key, x) in rows && RowKey(key, x) in less && rows[RowKey(key, x)] == less[RowKey(key, x)]
    ensures ParseAny(rows, key, seqNos, hash) == ParseAny(less, key, seqNos, hash)
  {
    if |seqNos| > 0 { SameRowsParse(rows, less, key, seqNos[1..], hash); }
  }
}
