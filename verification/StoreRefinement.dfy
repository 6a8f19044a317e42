/** The row store refines the sequence store, for every history of appends, reads and disposals. */
module StoreRefinement {
  import opened Outcomes
  import opened ExecutionLog
  import opened HashChain
  import opened LogStores
  import opened Retention

  /** The rows of a run are exactly this log, numbered from zero. */
  ghost predicate Holds(rows: map<RowKey, Row>, key: RunKey, log: Log) {
    && (forall x :: RowKey(key, x) in rows <==> 0 <= x < |log|)
    && forall i | 0 <= i < |log| :: rows[RowKey(key, i)] == Row(Some(log[i]))
  }

  /** What a run of the program writes: a verified log, every entry of it naming the run. */
  ghost predicate Genuine(key: RunKey, log: Log, hash: EntryHasher) {
    Verified(log, hash) && forall i | 0 <= i < |log| :: log[i].runId == key.runId
  }

  ghost predicate Agree(s: Runs, t: Table, hash: EntryHasher) {
    && s.disposed == t.disposed
    && s.live.Keys !! s.disposed
    && (forall key | key in s.live :: |s.live[key]| > 0 && Genuine(key, s.live[key], hash))
    && (forall key :: Holds(t.rows, key, StoredLog(s, key)))
  }

  function Numbers(from: nat, limit: nat): (q: seq<int>)
    requires from <= limit
    ensures |q| == limit - from
    ensures forall i | 0 <= i < |q| :: q[i] == from + i
    decreases limit - from
  {
    if from == limit then [] else [from] + Numbers(from + 1, limit)
  }

  lemma MinIs(s: set<int>, least: int)
    requires least in s && forall x | x in s :: least <= x
    ensures Min(s) == least
  {
    assert Min(s) in s;
  }

  lemma {:induction false} AscendingNumbers(s: set<int>, from: nat, limit: nat)
    requires from <= limit && forall x :: x in s <==> from <= x < limit
    ensures Ascending(s) == Numbers(from, limit)
    decreases limit - from
  {
    if from < limit {
      MinIs(s, from);
      AscendingNumbers(s - {from}, from + 1, limit);
    } else {
      assert forall x :: x !in s;
      NothingIsEmpty(s);
    }
  }

  lemma NothingIsEmpty(s: set<int>)
    requires forall x :: x !in s
    ensures s == {}
  {
    if s != {} { HasMin(s); }
  }

  lemma HeldSeqNos(rows: map<RowKey, Row>, key: RunKey, log: Log)
    requires Holds(rows, key, log)
    ensures RunSeqNos(rows, key) == Numbers(0, |log|)
    ensures TableTail(rows, key) == if |log| == 0 then None else Some(|log| - 1)
  {
    forall x ensures x in SeqNos(rows, key) <==> 0 <= x < |log| {
      assert x in SeqNos(rows, key) <==> RowKey(key, x) in rows;
    }
    AscendingNumbers(SeqNos(rows, key), 0, |log|);
  }

  /** Writing the new entries of a verified log meets no occupied key and completes the run's rows. */
  lemma {:induction false} InsertCompletes(rows: map<RowKey, Row>, key: RunKey, log: Log, from: nat)
    requires from <= |log| && Holds(rows, key, log[..from])
    requires forall i | from <= i < |log| :: log[i].seqNo == i
    ensures var r := InsertAll(rows, key, log[from..]);
            r.Some? && Holds(r.value, key, log)
            && forall other, l | other != key && Holds(rows, other, l) :: Holds(r.value, other, l)
    decreases |log| - from
  {
    if from < |log| {
      var next := rows[RowKey(key, from) := Row(Some(log[from]))];
      assert log[from..][0] == log[from] && log[from..][1..] == log[from + 1..];
      forall x ensures RowKey(key, x) in next <==> 0 <= x < from + 1 {
        assert RowKey(key, x) in rows <==> 0 <= x < from;
      }
      assert Holds(next, key, log[..from + 1]);
      forall other, l | other != key && Holds(rows, other, l) ensures Holds(next, other, l) {
        forall x ensures RowKey(other, x) in next <==> 0 <= x < |l| {
          assert RowKey(other, x) in rows <==> 0 <= x < |l|;
        }
      }
      InsertCompletes(next, key, log, from + 1);
    } else {
      assert log[..from] == log && log[from..] == [];
    }
  }

  /** Both stores hand the link check the same count and the same tail hash. */
  lemma SameCheck(s: Runs, t: Table, key: RunKey, log: Log, hash: EntryHasher)
    requires Agree(s, t, hash) && key !in s.disposed
    ensures var validated := Validated(StoredLog(s, key), log);
            TableAppend(t, key, log) ==
              if validated.Err? then (Err(AppendRefused(validated.error)), t)
              else
                var rows := InsertAll(t.rows, key, validated.value);
                if rows.None? then (Err(StorageError), t) else (Ok(()), t.(rows := rows.value))
  {
    var stored := StoredLog(s, key);
    assert Holds(t.rows, key, stored);
    HeldSeqNos(t.rows, key, stored);
    if |stored| > 0 {
      assert t.rows[RowKey(key, |stored| - 1)] == Row(Some(stored[|stored| - 1]));
    }
  }

  lemma AcceptedRefines(s: Runs, t: Table, key: RunKey, log: Log, hash: EntryHasher)
    requires Commits(hash) && Agree(s, t, hash) && Genuine(key, log, hash) && key !in s.disposed
    requires |StoredLog(s, key)| < |log| && Validated(StoredLog(s, key), log).Ok?
    ensures RunsAppend(s, key, log) == (Ok(()), s.(live := s.live[key := log]))
    ensures var rows := InsertAll(t.rows, key, Validated(StoredLog(s, key), log).value);
            rows.Some? && Agree(s.(live := s.live[key := log]), t.(rows := rows.value), hash)
  {
    var stored := StoredLog(s, key);
    assert Holds(t.rows, key, stored);
    assert Verified(stored, hash);
    AcceptedMeansExtended(stored, log, hash);
    assert log[..|stored|] == stored && Validated(stored, log).value == log[|stored|..];
    forall i | |stored| <= i < |log| ensures log[i].seqNo == i {
      assert EntryFault(log, i, hash) == None;
    }
    InsertCompletes(t.rows, key, log, |stored|);
    var rows := InsertAll(t.rows, key, log[|stored|..]).value;
    var s' := s.(live := s.live[key := log]);
    forall other ensures Holds(rows, other, StoredLog(s', other)) {
      assert Holds(t.rows, other, StoredLog(s, other));
    }
  }

  lemma AppendRefines(s: Runs, t: Table, key: RunKey, log: Log, hash: EntryHasher)
    requires Commits(hash) && Agree(s, t, hash) && Genuine(key, log, hash)
    ensures RunsAppend(s, key, log).0 == TableAppend(t, key, log).0
    ensures Agree(RunsAppend(s, key, log).1, TableAppend(t, key, log).1, hash)
  {
    if key !in s.disposed {
      SameCheck(s, t, key, log, hash);
      var validated := Validated(StoredLog(s, key), log);
      if validated.Ok? && |log| > |StoredLog(s, key)| {
        AcceptedRefines(s, t, key, log, hash);
      } else {
        EqualLengthIsANoOp(StoredLog(s, key), log);
      }
    }
  }

  lemma HeldRowParses(rows: map<RowKey, Row>, key: RunKey, log: Log, i: nat, hash: EntryHasher)
    requires Holds(rows, key, log) && Genuine(key, log, hash) && i < |log|
    ensures RowKey(key, i) in rows && ParseStoredEntry(rows[RowKey(key, i)], hash) == Some(log[i])
            && log[i].runId == key.runId
  {
    assert EntryFault(log, i, hash) == None;
  }

  lemma NumbersFrom(from: nat, limit: nat)
    requires from < limit
    ensures Numbers(from, limit)[0] == from && Numbers(from, limit)[1..] == Numbers(from + 1, limit)
  {
  }

  lemma {:induction false} HeldRowsRead(rows: map<RowKey, Row>, key: RunKey, log: Log, from: nat, hash: EntryHasher)
    requires Holds(rows, key, log) && Genuine(key, log, hash) && from <= |log|
    ensures ParseRows(rows, key, Numbers(from, |log|), hash) == Ok(log[from..])
    decreases |log| - from
  {
    if from == |log| {
      assert log[from..] == [];
    } else {
      NumbersFrom(from, |log|);
      HeldRowParses(rows, key, log, from, hash);
      HeldRowsRead(rows, key, log, from + 1, hash);
      assert log[from..] == [log[from]] + log[from + 1..];
    }
  }

  lemma {:induction false} HeldRowsAllParse(rows: map<RowKey, Row>, key: RunKey, log: Log, from: nat, hash: EntryHasher)
    requires Holds(rows, key, log) && Genuine(key, log, hash) && from <= |log|
    ensures ParseAny(rows, key, Numbers(from, |log|), hash) == Some(log[from..])
    decreases |log| - from
  {
    if from == |log| {
      assert log[from..] == [];
    } else {
      NumbersFrom(from, |log|);
      HeldRowParses(rows, key, log, from, hash);
      HeldRowsAllParse(rows, key, log, from + 1, hash);
      assert log[from..] == [log[from]] + log[from + 1..];
    }
  }

  lemma ReadRefines(s: Runs, t: Table, key: RunKey, hash: EntryHasher)
    requires Agree(s, t, hash)
    ensures RunsRead(s, key) == TableRead(t, key, hash)
  {
    var stored := StoredLog(s, key);
    assert Holds(t.rows, key, stored);
    HeldSeqNos(t.rows, key, stored);
    if key in s.live {
      HeldRowsRead(t.rows, key, stored, 0, hash);
      assert stored[0..] == stored;
    }
  }

  lemma LastAtRefines(s: Runs, t: Table, key: RunKey, hash: EntryHasher)
    requires Agree(s, t, hash) && key in s.live
    ensures VerifiedLastAt(t, key, hash) == Some(s.live[key][|s.live[key]| - 1].at)
  {
    var stored := s.live[key];
    assert Holds(t.rows, key, StoredLog(s, key));
    HeldSeqNos(t.rows, key, stored);
    HeldRowsAllParse(t.rows, key, stored, 0, hash);
    assert stored[0..] == stored;
  }

  lemma SameRunKeys(s: Runs, t: Table, hash: EntryHasher)
    requires Agree(s, t, hash)
    ensures RunKeys(t.rows) == s.live.Keys
  {
    forall key ensures key in RunKeys(t.rows) <==> key in s.live {
      assert Holds(t.rows, key, StoredLog(s, key));
      if key in s.live { assert RowKey(key, 0) in t.rows; }
      if key in RunKeys(t.rows) {
        var k :| k in t.rows && k.run == key;
        assert RowKey(key, k.seqNo) in t.rows;
      }
    }
  }

  lemma DisposeRefines(s: Runs, t: Table, now: int, hash: EntryHasher)
    requires Agree(s, t, hash)
    ensures var (a, s') := RunsDispose(s, now);
            var (b, t') := TableDispose(t, now, hash);
            a == b && Agree(s', t', hash)
  {
    SameRunKeys(s, t, hash);
    var due := DueRuns(s, now);
    forall key ensures key in due <==> key in DueTableRuns(t, now, hash) {
      if key in s.live { LastAtRefines(s, t, key, hash); }
    }
    assert due == DueTableRuns(t, now, hash);
    var s' := RunsDispose(s, now).1;
    var t' := TableDispose(t, now, hash).1;
    forall key ensures Holds(t'.rows, key, StoredLog(s', key)) {
      assert Holds(t.rows, key, StoredLog(s, key));
      forall x ensures RowKey(key, x) in t'.rows <==> 0 <= x < |StoredLog(s', key)| {
        assert RowKey(key, x) in t'.rows <==> RowKey(key, x) in t.rows && key !in due;
      }
    }
  }

  // ---- Histories -----------------------------------------------------------------------------------------------

  function StepRuns(s: Runs, op: Op): (Answer, Runs) {
    match op
    case Append(key, log) => var (r, s') := RunsAppend(s, key, log); (Appended(r), s')
    case Read(key) => (Rows(RunsRead(s, key)), s)
    case Dispose(now) => var (n, s') := RunsDispose(s, now); (Disposed(n), s')
  }

  function StepTable(t: Table, op: Op, hash: EntryHasher): (Answer, Table) {
    match op
    case Append(key, log) => var (r, t') := TableAppend(t, key, log); (Appended(r), t')
    case Read(key) => (Rows(TableRead(t, key, hash)), t)
    case Dispose(now) => var (n, t') := TableDispose(t, now, hash); (Disposed(n), t')
  }

  function RunsAnswers(s: Runs, ops: seq<Op>): seq<Answer>
    decreases |ops|
  {
    if |ops| == 0 then [] else var (a, s') := StepRuns(s, ops[0]); [a] + RunsAnswers(s', ops[1..])
  }

  function TableAnswers(t: Table, ops: seq<Op>, hash: EntryHasher): seq<Answer>
    decreases |ops|
  {
    if |ops| == 0 then [] else var (a, t') := StepTable(t, ops[0], hash); [a] + TableAnswers(t', ops[1..], hash)
  }

  function TableAfter(t: Table, ops: seq<Op>, hash: EntryHasher): Table
    decreases |ops|
  {
    if |ops| == 0 then t else TableAfter(StepTable(t, ops[0], hash).1, ops[1..], hash)
  }

  /** From agreeing stores, every history of genuine appends, reads and disposals gets the same answers. */
  lemma {:induction false} RowsRefineSequences(s: Runs, t: Table, ops: seq<Op>, hash: EntryHasher)
    requires Commits(hash) && Agree(s, t, hash)
    requires forall op | op in ops && op.Append? :: Genuine(op.key, op.log, hash)
    ensures RunsAnswers(s, ops) == TableAnswers(t, ops, hash)
    decreases |ops|
  {
    if |ops| > 0 {
      var op := ops[0];
      match op {
        case Append(key, log) => AppendRefines(s, t, key, log, hash);
        case Read(key) => ReadRefines(s, t, key, hash);
        case Dispose(now) => DisposeRefines(s, t, now, hash);
      }
      RowsRefineSequences(StepRuns(s, op).1, StepTable(t, op, hash).1, ops[1..], hash);
    }
  }

  /** After an append, a read of the run gives the longer of the two logs, and every other run reads as before. */
  lemma AppendedIsRead(s: Runs, key: RunKey, log: Log, hash: EntryHasher)
    requires Commits(hash) && Verified(StoredLog(s, key), hash) && Verified(log, hash) && |log| > 0
    requires key in s.live ==> |s.live[key]| > 0
    ensures var (r, after) := RunsAppend(s, key, log);
            && (r.Ok? ==> key !in s.disposed && |StoredLog(s, key)| <= |log|)
            && (r.Ok? && |StoredLog(s, key)| < |log| ==> StoredLog(s, key) <= log && RunsRead(after, key) == Ok(log))
            && (r.Ok? && |StoredLog(s, key)| == |log| ==> after == s && RunsRead(after, key) == Ok(StoredLog(s, key)))
            && (r.Err? ==> after == s)
            && (forall other | other != key :: RunsRead(after, other) == RunsRead(s, other))
            && after.disposed == s.disposed
  {
    AcceptedMeansExtended(StoredLog(s, key), log, hash);
    EqualLengthIsANoOp(StoredLog(s, key), log);
  }

  /** A disposal takes just the runs whose last entry is 730 days old or older: they are unknown to a read, for good. */
  lemma DisposedIsUnknown(s: Runs, now: int, key: RunKey)
    requires key in s.live && |s.live[key]| > 0 && key !in s.disposed
    ensures var (count, after) := RunsDispose(s, now);
            var due := now >= s.live[key][|s.live[key]| - 1].at + 730 * 24 * 60 * 60 * 1000;
            && RunsRead(after, key) == (if due then Err(UnknownRun(key.runId)) else Ok(s.live[key]))
            && (due ==> forall log :: RunsAppend(after, key, log) == (Err(RunDisposed(key.runId)), after))
            && (due ==> count > 0)
  {
    assert key in DueRuns(s, now) <==> LogIsDue(s.live[key], now);
    if key in DueRuns(s, now) { assert |DueRuns(s, now)| > 0; }
  }

  /** Both stores start empty, and empty stores agree. */
  lemma FreshStoresAgree(ops: seq<Op>, hash: EntryHasher)
    requires Commits(hash)
    requires forall op | op in ops && op.Append? :: Genuine(op.key, op.log, hash)
    ensures RunsAnswers(Runs(map[], {}), ops) == TableAnswers(Table(map[], {}), ops, hash)
  {
    RowsRefineSequences(Runs(map[], {}), Table(map[], {}), ops, hash);
  }

  ghost predicate Buried(t: Table, key: RunKey) {
    key in t.disposed && forall x :: RowKey(key, x) !in t.rows
  }

  lemma {:induction false} InsertTouchesOnly(rows: map<RowKey, Row>, key: RunKey, entries: Log, other: RowKey)
    requires other.run != key && InsertAll(rows, key, entries).Some?
    ensures other in InsertAll(rows, key, entries).value <==> other in rows
    decreases |entries|
  {
    if |entries| > 0 {
      InsertTouchesOnly(rows[RowKey(key, entries[0].seqNo) := Row(Some(entries[0]))], key, entries[1..], other);
    }
  }

  /** A disposed run stays without rows whatever is appended, read or disposed afterwards, verified or not. */
  lemma {:induction false} DisposedNeverLiveAgain(t: Table, ops: seq<Op>, key: RunKey, hash: EntryHasher)
    requires Buried(t, key)
    ensures var after := TableAfter(t, ops, hash);
            Buried(after, key)
            && TableRead(after, key, hash) == Err(UnknownRun(key.runId))
            && forall log :: TableAppend(after, key, log) == (Err(RunDisposed(key.runId)), after)
    decreases |ops|
  {
    if |ops| > 0 {
      var next := StepTable(t, ops[0], hash).1;
      forall x ensures RowKey(key, x) !in next.rows {
        if ops[0].Append? && ops[0].key != key && next.rows != t.rows {
          var entries :| InsertAll(t.rows, ops[0].key, entries) == Some(next.rows);
          InsertTouchesOnly(t.rows, ops[0].key, entries, RowKey(key, x));
        }
      }
      DisposedNeverLiveAgain(next, ops[1..], key, hash);
    } else {
      assert SeqNos(t.rows, key) == {};
    }
  }

  /** Whatever its rows hold, a run that does not parse and verify keeps every row through a disposal sweep. */
  lemma TamperedRunIsKept(t: Table, key: RunKey, now: int, hash: EntryHasher)
    requires VerifiedLastAt(t, key, hash).None?
    ensures var t' := TableDispose(t, now, hash).1;
            (key in t'.disposed <==> key in t.disposed)
            && forall x :: (RowKey(key, x) in t'.rows <==> RowKey(key, x) in t.rows)
                        && (RowKey(key, x) in t.rows ==> t'.rows[RowKey(key, x)] == t.rows[RowKey(key, x)])
  {
  }

  /** The table after a sweep: the rows of these runs are gone and no other, and just these join the disposed. */
  ghost predicate SweptOf(t: Table, due: set<RunKey>, swept: Table) {
    && (forall k :: k in swept.rows <==> k in t.rows && k.run !in due)
    && (forall k | k in swept.rows :: swept.rows[k] == t.rows[k])
    && swept.disposed == t.disposed + due
  }

  /**
   Of any table, however it came about, a sweep removes exactly the runs whose rows parse and verify and whose last
   entry is past retention, counts these, and leaves every other row as it is.
   */
  lemma SweepDisposesExactly(t: Table, now: int, hash: EntryHasher)
    ensures var (count, swept) := TableDispose(t, now, hash);
            var due := set key | key in RunKeys(t.rows) && VerifiedLastAt(t, key, hash).Some?
                                 && IsDueForDisposal(VerifiedLastAt(t, key, hash).value, now);
            count == |due| && SweptOf(t, due, swept)
  {
    assert DueTableRuns(t, now, hash)
           == set key | key in RunKeys(t.rows) && VerifiedLastAt(t, key, hash).Some?
                        && IsDueForDisposal(VerifiedLastAt(t, key, hash).value, now);
  }

  lemma {:induction false} ReadableParsesAlike(rows: map<RowKey, Row>, key: RunKey, seqNos: seq<int>, hash: EntryHasher)
    requires forall x | x in seqNos :: RowKey(key, x) in rows
    ensures var parsed := ParseRows(rows, key, seqNos, hash);
            parsed.Ok? ==> ParseAny(rows, key, seqNos, hash) == Some(parsed.value) && |parsed.value| == |seqNos|
  {
    if |seqNos| > 0 { ReadableParsesAlike(rows, key, seqNos[1..], hash); }
  }

  /** A run that can be read is due exactly when the last entry that is read is past retention. */
  lemma ReadableRunIsDueByItsLastEntry(t: Table, key: RunKey, now: int, hash: EntryHasher)
    requires TableRead(t, key, hash).Ok?
    ensures var log := TableRead(t, key, hash).value;
            |log| > 0 && Verified(log, hash)
                && (RunIsDue(t, key, now, hash) <==> IsDueForDisposal(log[|log| - 1].at, now))
  {
    ReadableParsesAlike(t.rows, key, RunSeqNos(t.rows, key), hash);
  }

  /** The row at this place does not hold an entry of the run whose hash is its own. */
  predicate BadRow(rows: map<RowKey, Row>, key: RunKey, x: int, hash: EntryHasher)
    requires RowKey(key, x) in rows
  {
    var entry := rows[RowKey(key, x)].entry;
    entry.None? || hash(entry.value) != entry.value.hash || entry.value.runId != key.runId
  }

  lemma {:induction false} FirstBadRow(rows: map<RowKey, Row>, key: RunKey, seqNos: seq<int>, hash: EntryHasher)
    requires forall x | x in seqNos :: RowKey(key, x) in rows
    ensures var parsed := ParseRows(rows, key, seqNos, hash);
            && (parsed.Err? ==> exists k ::
                0 <= k < |seqNos| && seqNos[k] == parsed.error && BadRow(rows, key, seqNos[k], hash)
                                            && forall j | 0 <= j < k :: !BadRow(rows, key, seqNos[j], hash))
            && (parsed.Ok? ==> |parsed.value| == |seqNos| && forall k | 0 <= k < |seqNos| ::
                                 rows[RowKey(key, seqNos[k])].entry == Some(parsed.value[k]))
  {
    if |seqNos| > 0 {
      FirstBadRow(rows, key, seqNos[1..], hash);
      assert forall k | 0 < k < |seqNos| :: seqNos[k] == seqNos[1..][k - 1];
      var (parsed, rest) := (ParseRows(rows, key, seqNos, hash), ParseRows(rows, key, seqNos[1..], hash));
      if rest.Err? && !BadRow(rows, key, seqNos[0], hash) {
        var k :| 0 <= k < |seqNos[1..]| && seqNos[1..][k] == rest.error && BadRow(rows, key, seqNos[1..][k], hash)
                 && forall j | 0 <= j < k :: !BadRow(rows, key, seqNos[1..][j], hash);
        assert seqNos[k + 1] == parsed.error;
      }
    }
  }

  /**
   Of any table, a read that fails says why: the run has no rows, or the row named is the first that does not hold an
   entry of the run, or, where all do, the first whose number or link is wrong.
   */
  lemma FailedReadNamesTheRow(t: Table, key: RunKey, hash: EntryHasher)
    ensures var r := TableRead(t, key, hash);
            var seqNos := RunSeqNos(t.rows, key);
            && (r.Err? && r.error.UnknownRun? <==> |seqNos| == 0)
            && (r.Err? ==> r.error == UnknownRun(key.runId) || exists x :: r.error == CorruptEntry(key.runId, x))
            && (forall x :: r == Err(CorruptEntry(key.runId, x)) ==>
                  (exists k :: 0 <= k < |seqNos| && seqNos[k] == x && BadRow(t.rows, key, seqNos[k], hash)
                               && forall j | 0 <= j < k :: !BadRow(t.rows, key, seqNos[j], hash))
                  || (exists log: Log, i: int ::
                      ParseRows(t.rows, key, seqNos, hash) == Ok(log) && FaultAt(log, i, hash)
                                       && log[i].seqNo == x))
  {
    var seqNos := RunSeqNos(t.rows, key);
    FirstBadRow(t.rows, key, seqNos, hash);
    var parsed := ParseRows(t.rows, key, seqNos, hash);
    if parsed.Ok? { FirstFaultIs(parsed.value, 0, hash); }
  }

  /** The first entry whose number, link or hash is wrong. */
  predicate FaultAt(log: Log, i: int, hash: EntryHasher) {
    0 <= i < |log| && EntryFault(log, i, hash).Some? && forall j | 0 <= j < i :: EntryFault(log, j, hash) == None
  }

  lemma {:induction false} FirstFaultIs(log: Log, from: nat, hash: EntryHasher)
    requires from <= |log| && forall j | 0 <= j < from :: EntryFault(log, j, hash) == None
    ensures FirstFault(log, from, hash).Some? ==>
              exists i :: FaultAt(log, i, hash) && FirstFault(log, from, hash) == Some(log[i].seqNo)
    decreases |log| - from
  {
    if from < |log| {
      if EntryFault(log, from, hash).Some? {
        assert FaultAt(log, from, hash);
      } else {
        FirstFaultIs(log, from + 1, hash);
      }
    }
  }
}
