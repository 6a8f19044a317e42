/**
 The approval queue under concurrency: requesters, reviewers and sweeps as tasks that interleave statement by statement,
 each acting on whatever it read or stamped earlier (src/governance/infrastructure/sqlite-approval-gate.ts).
 */
module ApprovalProtocol {
  import opened Outcomes
  import opened Texts
  import opened DecisionLanes
  import opened ReviewQueue
  import opened ApprovalGate
  import opened Retention

  /**
   Where a polling requester stands: about to read, about to look at the clock, about to expire its row, about to read
   again.
   */
  datatype Polling = AboutToRead | AboutToLook | AboutToExpire | AboutToReread

  datatype Task =
    | Requesting(at: Polling, id: ReviewId, review: ReviewRequest, deadline: int, startedAt: int)
    | Answered(answered: ReviewId, review: ReviewRequest, outcome: ReviewOutcome)
    | Unreadable(review: ReviewRequest, outcome: ReviewOutcome)
    | Opening(opening: ReviewId, opener: Text, stampedAt: int)
    | Considering(considered: ReviewId, considerer: Text, approves: bool, held: HeldReview)
    | Deciding(decision: Decision)
    | Decided(decided: ReviewId, result: Option<ReviewOutcome>)
    | Sweeping(sweptAt: int)
    | Disposing(cutoff: int)

  /** `gone` remembers the rows disposed of and `since` when each was enqueued; the program keeps no such record. */
  datatype World = World(now: int, rows: Table, gone: Table, since: map<ReviewId, int>, tasks: map<nat, Task>)

  datatype Action =
    | Tick(later: int)
    | Ask(task: nat, asked: ReviewRequest, id: ReviewId)
    | Open(task: nat, id: ReviewId, reviewer: Text)
    | Hold(task: nat, id: ReviewId, reviewer: Text, approves: bool)
    | Sweep(task: nat)
    | Dispose(task: nat)
    | Step(task: nat)

  function Start(now: int): World {
    World(now, map[], map[], map[], map[])
  }

  /** A requester's next step: read, look, expire, read again. */
  function Poll(w: World, task: Task): (Table, Task)
    requires task.Requesting?
  {
    match task.at
    case AboutToRead =>
      var answer := DecisionOf(w.rows, task.id);
      (w.rows, if answer.Some? then Answered(task.id, task.review, answer.value) else task.(at := AboutToLook))
    case AboutToLook => (w.rows, task.(at := if w.now >= task.deadline then AboutToExpire else AboutToRead))
    case AboutToExpire => (AfterExpire(w.rows, task.id), task.(at := AboutToReread))
    case AboutToReread =>
      var answer := DecisionOf(w.rows, task.id);
      (w.rows, Answered(task.id, task.review,
                        if answer.Some?
                        then answer.value
                        else TimedOut(LaneFor(task.review.action), w.now - task.startedAt)))
  }

  /** The next step of a task: its table afterwards and what becomes of it. */
  function Advanced(w: World, task: Task): (Table, Task) {
    match task
    case Requesting(_, _, _, _, _) => Poll(w, task)
    case Opening(id, reviewer, at) => (AfterOpen(w.rows, id, reviewer, at), Decided(id, None))
    case Considering(id, reviewer, approves, held) =>
      (w.rows,
       if approves && w.now < held.presentedAt + PolicyOf(held.lane).minConsiderationMs then Decided(id, None)
       else Deciding(Decision(id, reviewer, approves, held, w.now)))
    case Deciding(d) =>
      (AfterDecide(w.rows, d),
       Decided(d.review,
               if !MayDecide(w.rows, d) then None
               else Some(if d.approves then Approved(d.reviewer, d.at - d.held.presentedAt)
                         else Rejected(d.reviewer, d.at - d.held.presentedAt))))
    case Sweeping(at) => (AfterExpireOverdue(w.rows, at), task)
    case Disposing(cutoff) => (AfterDispose(w.rows, cutoff), task)
    case _ => (w.rows, task)
  }

  /** A new task: where it starts, and the table after its first statement. */
  function Started(w: World, a: Action): Option<(Table, Task)> {
    match a
    case Ask(_, review, id) =>
      var deadline := DeadlineFor(review);
      if deadline.None? then Some((w.rows, Unreadable(review, TimedOut(LaneFor(review.action), 0))))
      else if id in w.rows || id in w.gone then None
      else Some((w.rows[id := PendingRow(review, deadline.value)],
                 Requesting(AboutToRead, id, review, deadline.value, w.now)))
    case Open(_, id, reviewer) => Some((w.rows, Opening(id, reviewer, w.now)))
    case Hold(_, id, reviewer, approves) =>
      var held := HeldBy(w.rows, id, reviewer, w.now);
      Some((w.rows, if held.Some? then Considering(id, reviewer, approves, held.value) else Decided(id, None)))
    case Sweep(_) => Some((w.rows, Sweeping(w.now)))
    case Dispose(_) => Some((w.rows, Disposing(DisposalCutoff(w.now))))
    case _ => None
  }

  function Removed(w: World, rows: Table): Table {
    map id | id in w.rows && id !in rows :: w.rows[id]
  }

  /** New rows are enqueued now. */
  function Since(w: World, rows: Table): map<ReviewId, int> {
    map id | id in w.since.Keys + rows.Keys :: if id in w.since then w.since[id] else w.now
  }

  function Became(w: World, rows: Table, k: nat, task: Task): World {
    World(w.now, rows, w.gone + Removed(w, rows), Since(w, rows), w.tasks[k := task])
  }

  /** One action of anybody; one that does not apply changes nothing. */
  function Do(w: World, a: Action): World {
    match a
    case Tick(later) => if later > w.now then w.(now := later) else w
    case Step(k) =>
      if k !in w.tasks then w
      else
        var (rows, task) := Advanced(w, w.tasks[k]);
        Became(w, rows, k, task)
    case _ =>
      if a.task in w.tasks then w
      else
        var started := Started(w, a);
        if started.None? then w else Became(w, started.value.0, a.task, started.value.1)
  }

  function After(w: World, actions: seq<Action>): World
    decreases |actions|
  {
    if |actions| == 0 then w else After(Do(w, actions[0]), actions[1..])
  }

  // ---- What holds of every row and every task ----------------------------------------------------------------------

  /** A row some person answered: its holder, while it was theirs and before its deadline. */
  predicate AnsweredBy(row: Row, reviewer: Text, floorMs: nat) {
    && row.reviewer == Some(reviewer) && row.presentedTo == Some(reviewer)
    && row.presentedAt.Some? && row.decidedAt.Some?
    && row.presentedAt.value + floorMs <= row.decidedAt.value < row.deadlineAt
    && row.tookMs == Some(row.decidedAt.value - row.presentedAt.value)
  }

  predicate AnsweredOk(row: Row, now: int, floorMs: nat) {
    row.reviewer.Some? && AnsweredBy(row, row.reviewer.value, floorMs) && row.decidedAt.value <= now
  }

  predicate RowOk(row: Row, now: int) {
    && row.lane == LaneFor(row.action) && row.deadlineAt == row.requestedAt + PolicyOf(row.lane).slaMs
    && row.presentedTo.Some? == row.presentedAt.Some? && (row.presentedAt.Some? ==> row.presentedAt.value <= now)
    && match row.state
       case Pending => row.reviewer.None? && row.decidedAt.None? && row.tookMs.None?
       case ApprovedReview => AnsweredOk(row, now, PolicyOf(row.lane).minConsiderationMs)
       case RejectedReview => AnsweredOk(row, now, 0)
       case TimedOutReview =>
         row.reviewer.None? && row.tookMs.None? && row.decidedAt == Some(row.deadlineAt) && row.deadlineAt <= now
  }

  /** What became of a review, whether or not its row is still there. */
  function Fate(w: World, id: ReviewId): Option<Row> {
    if id in w.rows then Some(w.rows[id]) else if id in w.gone then Some(w.gone[id]) else None
  }

  predicate RequestFate(w: World, id: ReviewId, review: ReviewRequest) {
    && Fate(w, id).Some?
    && Fate(w, id).value.action == review.action && review.requestedAt == Some(Fate(w, id).value.requestedAt)
  }

  /**
   A row that was answered and disposed of before its requester looked again, which waited out the retention period.
   */
  predicate LookedTooLate(w: World, id: ReviewId, outcome: ReviewOutcome) {
    && outcome.TimedOut? && id in w.gone && outcome.waitedMs >= METADATA_RETENTION_MS
    && w.gone[id].decidedAt.Some? && IsDueForDisposal(w.gone[id].decidedAt.value, w.now)
  }

  /** What a requester was told is what became of its review, unless it looked too late. */
  predicate ToldTruly(w: World, id: ReviewId, outcome: ReviewOutcome) {
    Fate(w, id).Some? && (Matches(Fate(w, id).value, outcome) || LookedTooLate(w, id, outcome))
  }

  predicate HeldOk(w: World, id: ReviewId, held: HeldReview, now: int) {
    Fate(w, id).Some? && Fate(w, id).value.lane == held.lane && held.presentedAt <= now
  }

  predicate TaskOk(w: World, task: Task) {
    match task
    case Requesting(at, id, review, deadline, startedAt) =>
      && RequestFate(w, id, review) && deadline == Fate(w, id).value.deadlineAt
      && id in w.since && startedAt == w.since[id]
      && (at.AboutToExpire? ==> w.now >= deadline)
      && (at.AboutToReread? ==> !Fate(w, id).value.state.Pending?)
    case Answered(id, review, outcome) =>
      RequestFate(w, id, review) && !Fate(w, id).value.state.Pending? && ToldTruly(w, id, outcome)
    case Unreadable(review, outcome) => review.requestedAt.None? && outcome == TimedOut(LaneFor(review.action), 0)
    case Opening(_, _, at) => at <= w.now
    case Considering(id, _, _, held) => HeldOk(w, id, held, w.now)
    case Deciding(d) =>
      && HeldOk(w, d.review, d.held, d.at) && d.at <= w.now && d.review in w.since && w.since[d.review] <= d.at
      && (d.approves ==> d.held.presentedAt + PolicyOf(d.held.lane).minConsiderationMs <= d.at)
    case Decided(id, result) =>
      result.Some? ==> Fate(w, id).Some? && Matches(Fate(w, id).value, result.value) && !result.value.TimedOut?
    case Sweeping(at) => at <= w.now
    case Disposing(cutoff) => cutoff <= DisposalCutoff(w.now)
  }

  /** Nobody answered a row before it was there. */
  predicate AnsweredSince(row: Row, since: int) {
    row.reviewer.Some? ==> row.decidedAt.Some? && since <= row.decidedAt.value
  }

  predicate GoneOk(w: World, row: Row) {
    RowOk(row, w.now) && !row.state.Pending? && row.decidedAt.Some? && IsDueForDisposal(row.decidedAt.value, w.now)
  }

  predicate IdOk(w: World, id: ReviewId) {
    && (id in w.since <==> id in w.rows || id in w.gone) && (id in w.since ==> w.since[id] <= w.now)
    && (id in w.rows ==> id !in w.gone && RowOk(w.rows[id], w.now) && AnsweredSince(w.rows[id], w.since[id]))
    && (id in w.gone ==> GoneOk(w, w.gone[id]) && AnsweredSince(w.gone[id], w.since[id]))
  }

  ghost predicate TableOk(w: World) {
    forall id :: IdOk(w, id)
  }

  ghost predicate Sound(w: World) {
    TableOk(w) && forall k | k in w.tasks :: TaskOk(w, w.tasks[k])
  }

  // ---- How a row may move ------------------------------------------------------------------------------------------

  /** An answered or expired row never changes, a held row stays with its holder, and what was asked stays asked. */
  predicate RowMoves(before: Row, after: Row) {
    && after.action == before.action && after.lane == before.lane
    && after.requestedAt == before.requestedAt && after.deadlineAt == before.deadlineAt
    && (!before.state.Pending? ==> after == before)
    && (before.presentedTo.Some? ==> after.presentedTo == before.presentedTo)
  }

  /** A row moves, appears or, once answered or expired for 730 days, disappears for good. */
  predicate IdEvolves(before: World, after: World, id: ReviewId) {
    && (id in before.since ==> id in after.since && after.since[id] == before.since[id])
    && (id in before.gone ==> id !in after.rows && id in after.gone && after.gone[id] == before.gone[id])
    && (id in before.rows ==> Fate(after, id).Some? && RowMoves(before.rows[id], Fate(after, id).value))
    && (id in before.rows && id !in after.rows ==> GoneOk(after, Fate(after, id).value))
  }

  ghost predicate Evolves(before: World, after: World) {
    before.now <= after.now && forall id :: IdEvolves(before, after, id)
  }

  /** The review a task is about. */
  function Subject(task: Task): ReviewId {
    match task
    case Requesting(_, id, _, _, _) => id
    case Answered(id, _, _) => id
    case Opening(id, _, _) => id
    case Considering(id, _, _, _) => id
    case Deciding(d) => d.review
    case Decided(id, _) => id
    case _ => []
  }

  lemma FateMoves(before: World, after: World, id: ReviewId)
    requires IdOk(before, id) && IdEvolves(before, after, id) && before.now <= after.now && Fate(before, id).Some?
    ensures Fate(after, id).Some? && RowMoves(Fate(before, id).value, Fate(after, id).value)
    ensures id in before.since && id in after.since && after.since[id] == before.since[id]
  {
  }

  /** A task's beliefs outlive whatever the others do. */
  lemma TaskStays(before: World, after: World, task: Task)
    requires TableOk(before) && Evolves(before, after) && TaskOk(before, task)
    ensures TaskOk(after, task)
  {
    var id := Subject(task);
    assert IdOk(before, id) && IdEvolves(before, after, id);
    if Fate(before, id).Some? { FateMoves(before, after, id); }
  }

  /** A table the rows of a world may change into. */
  predicate IdMoves(w: World, rows: Table, id: ReviewId) {
    && (id in rows ==>
          RowOk(rows[id], w.now) && id !in w.gone
          && AnsweredSince(rows[id], if id in w.since then w.since[id] else w.now))
    && (id in w.rows && id in rows ==> RowMoves(w.rows[id], rows[id]))
    && (id in w.rows && id !in rows ==> GoneOk(w, w.rows[id]))
  }

  ghost predicate MovesTo(w: World, rows: Table) {
    forall id :: IdMoves(w, rows, id)
  }

  lemma MovedIdIsOk(w: World, rows: Table, k: nat, task: Task, id: ReviewId)
    requires IdOk(w, id) && IdMoves(w, rows, id)
    ensures IdOk(Became(w, rows, k, task), id) && IdEvolves(w, Became(w, rows, k, task), id)
  {
  }

  lemma MovedTableIsOk(w: World, rows: Table, k: nat, task: Task)
    requires TableOk(w) && MovesTo(w, rows)
    ensures TableOk(Became(w, rows, k, task)) && Evolves(w, Became(w, rows, k, task))
  {
    forall id ensures IdOk(Became(w, rows, k, task), id) && IdEvolves(w, Became(w, rows, k, task), id) {
      assert IdOk(w, id) && IdMoves(w, rows, id);
      MovedIdIsOk(w, rows, k, task, id);
    }
  }

  lemma BecameSound(w: World, rows: Table, k: nat, task: Task)
    requires Sound(w) && MovesTo(w, rows) && TaskOk(Became(w, rows, k, task), task)
    ensures Sound(Became(w, rows, k, task)) && Evolves(w, Became(w, rows, k, task))
  {
    var after := Became(w, rows, k, task);
    MovedTableIsOk(w, rows, k, task);
    forall j | j in after.tasks ensures TaskOk(after, after.tasks[j]) {
      if j != k { TaskStays(w, after, w.tasks[j]); }
    }
  }

  // ---- Each statement moves rows as they may move -------------------------------------------------------------------

  lemma UnchangedMoves(w: World)
    requires TableOk(w)
    ensures MovesTo(w, w.rows)
  {
    forall id ensures IdMoves(w, w.rows, id) { assert IdOk(w, id); }
  }

  /** It is enough to look at the one row a statement changes. */
  lemma OneRowMoves(w: World, rows: Table, id: ReviewId)
    requires TableOk(w) && IdMoves(w, rows, id)
    requires forall other | other != id ::
             (other in rows <==> other in w.rows) && (other in rows ==> rows[other] == w.rows[other])
    ensures MovesTo(w, rows)
  {
    forall other ensures IdMoves(w, rows, other) { assert IdOk(w, other); }
  }

  lemma OpenMoves(w: World, id: ReviewId, reviewer: Text, at: int)
    requires TableOk(w) && at <= w.now
    ensures MovesTo(w, AfterOpen(w.rows, id, reviewer, at))
  {
    assert IdOk(w, id);
    OneRowMoves(w, AfterOpen(w.rows, id, reviewer, at), id);
  }

  lemma DecideMoves(w: World, d: Decision)
    requires TableOk(w) && TaskOk(w, Deciding(d))
    ensures MovesTo(w, AfterDecide(w.rows, d))
  {
    assert IdOk(w, d.review);
    OneRowMoves(w, AfterDecide(w.rows, d), d.review);
  }

  lemma ExpireMoves(w: World, id: ReviewId)
    requires TableOk(w) && (id in w.rows ==> w.rows[id].deadlineAt <= w.now)
    ensures MovesTo(w, AfterExpire(w.rows, id))
  {
    assert IdOk(w, id);
    OneRowMoves(w, AfterExpire(w.rows, id), id);
  }

  lemma SweepMoves(w: World, at: int)
    requires TableOk(w) && at <= w.now
    ensures MovesTo(w, AfterExpireOverdue(w.rows, at))
  {
    forall id ensures IdMoves(w, AfterExpireOverdue(w.rows, at), id) { assert IdOk(w, id); }
  }

  lemma DisposeMoves(w: World, cutoff: int)
    requires TableOk(w) && cutoff <= DisposalCutoff(w.now)
    ensures MovesTo(w, AfterDispose(w.rows, cutoff))
  {
    forall id ensures IdMoves(w, AfterDispose(w.rows, cutoff), id) { assert IdOk(w, id); }
  }

  lemma EnqueueMoves(w: World, review: ReviewRequest, id: ReviewId)
    requires TableOk(w) && id !in w.rows && id !in w.gone && DeadlineFor(review).Some?
    ensures MovesTo(w, w.rows[id := PendingRow(review, DeadlineFor(review).value)])
  {
    assert IdOk(w, id);
    OneRowMoves(w, w.rows[id := PendingRow(review, DeadlineFor(review).value)], id);
  }

  // ---- Every action keeps all of it ---------------------------------------------------------------------------------

  lemma SameFate(w: World, k: nat, task: Task, id: ReviewId)
    requires IdOk(w, id)
    ensures var after := Became(w, w.rows, k, task);
            Fate(after, id) == Fate(w, id) && (id in after.gone <==> id in w.gone)
                && (id in w.gone ==> after.gone[id] == w.gone[id])
    ensures var after := Became(w, w.rows, k, task);
            after.now == w.now && (id in w.since ==> id in after.since && after.since[id] == w.since[id])
  {
    assert Removed(w, w.rows) == map[];
  }

  /** A timeout reported of a row that is gone was waited for as long as such rows are kept. */
  lemma GoneWasWaitedFor(w: World, id: ReviewId)
    requires IdOk(w, id) && id in w.gone && DecisionOf(w.rows, id).None?
    ensures var row := w.gone[id];
            row.state.TimedOutReview? || (row.decidedAt.Some? && IsDueForDisposal(row.decidedAt.value, w.now)
                                          && w.now - w.since[id] >= METADATA_RETENTION_MS)
  {
  }

  lemma ReadSound(w: World, k: nat, task: Task)
    requires Sound(w) && task.Requesting? && TaskOk(w, task) && !task.at.AboutToExpire?
    ensures var (rows, next) := Poll(w, task);
            rows == w.rows && TaskOk(Became(w, rows, k, next), next)
  {
    assert IdOk(w, task.id);
    SameFate(w, k, Poll(w, task).1, task.id);
    if task.id in w.gone { GoneWasWaitedFor(w, task.id); }
  }

  lemma GiveUpSound(w: World, k: nat, task: Task)
    requires Sound(w) && task.Requesting? && TaskOk(w, task) && task.at.AboutToExpire?
    ensures var (rows, next) := Poll(w, task);
            MovesTo(w, rows) && TaskOk(Became(w, rows, k, next), next)
  {
    var (rows, next) := Poll(w, task);
    assert IdOk(w, task.id);
    ExpireMoves(w, task.id);
    assert IdMoves(w, rows, task.id);
    MovedIdIsOk(w, rows, k, next, task.id);
    FateMoves(w, Became(w, rows, k, next), task.id);
  }

  lemma PollSound(w: World, k: nat)
    requires Sound(w) && k in w.tasks && w.tasks[k].Requesting?
    ensures var (rows, task) := Poll(w, w.tasks[k]);
            MovesTo(w, rows) && TaskOk(Became(w, rows, k, task), task)
  {
    var task := w.tasks[k];
    assert TaskOk(w, task);
    if task.at.AboutToExpire? {
      GiveUpSound(w, k, task);
    } else {
      UnchangedMoves(w);
      ReadSound(w, k, task);
    }
  }

  /** A table to move to, and a task that believes rightly there. */
  ghost predicate StepOk(w: World, k: nat, step: (Table, Task)) {
    MovesTo(w, step.0) && TaskOk(Became(w, step.0, k, step.1), step.1)
  }

  lemma OpenSound(w: World, k: nat, task: Task)
    requires Sound(w) && task.Opening? && TaskOk(w, task)
    ensures StepOk(w, k, Advanced(w, task))
  {
    assert IdOk(w, task.opening);
    OpenMoves(w, task.opening, task.opener, task.stampedAt);
  }

  lemma ConsiderSound(w: World, k: nat, task: Task)
    requires Sound(w) && task.Considering? && TaskOk(w, task)
    ensures StepOk(w, k, Advanced(w, task))
  {
    assert IdOk(w, task.considered);
    UnchangedMoves(w);
    SameFate(w, k, Advanced(w, task).1, task.considered);
  }

  lemma DecideSound(w: World, k: nat, task: Task)
    requires Sound(w) && task.Deciding? && TaskOk(w, task)
    ensures StepOk(w, k, Advanced(w, task))
  {
    var (rows, next) := Advanced(w, task);
    assert IdOk(w, task.decision.review);
    DecideMoves(w, task.decision);
    assert MayDecide(w.rows, task.decision) ==> Matches(rows[task.decision.review], next.result.value);
  }

  lemma SweepSound(w: World, k: nat, task: Task)
    requires Sound(w) && (task.Sweeping? || task.Disposing?) && TaskOk(w, task)
    ensures StepOk(w, k, Advanced(w, task))
  {
    if task.Sweeping? { SweepMoves(w, task.sweptAt); } else { DisposeMoves(w, task.cutoff); }
  }

  lemma RestSound(w: World, k: nat, task: Task)
    requires Sound(w) && (task.Answered? || task.Unreadable? || task.Decided?) && TaskOk(w, task)
    ensures StepOk(w, k, Advanced(w, task))
  {
    UnchangedMoves(w);
    MovedTableIsOk(w, w.rows, k, task);
    TaskStays(w, Became(w, w.rows, k, task), task);
  }

  lemma AdvancedSound(w: World, k: nat)
    requires Sound(w) && k in w.tasks
    ensures StepOk(w, k, Advanced(w, w.tasks[k]))
  {
    var task := w.tasks[k];
    assert TaskOk(w, task);
    match task
    case Requesting(_, _, _, _, _) => PollSound(w, k);
    case Opening(_, _, _) => OpenSound(w, k, task);
    case Considering(_, _, _, _) => ConsiderSound(w, k, task);
    case Deciding(_) => DecideSound(w, k, task);
    case Sweeping(_) => SweepSound(w, k, task);
    case Disposing(_) => SweepSound(w, k, task);
    case _ => RestSound(w, k, task);
  }

  lemma AskSound(w: World, a: Action)
    requires Sound(w) && a.Ask? && Started(w, a).Some?
    ensures StepOk(w, a.task, Started(w, a).value)
  {
    assert IdOk(w, a.id);
    UnchangedMoves(w);
    if DeadlineFor(a.asked).Some? { EnqueueMoves(w, a.asked, a.id); }
  }

  lemma StartedSound(w: World, a: Action)
    requires Sound(w) && !a.Tick? && Started(w, a).Some?
    ensures StepOk(w, a.task, Started(w, a).value)
  {
    if a.Ask? {
      AskSound(w, a);
    } else {
      UnchangedMoves(w);
      if a.Hold? { assert IdOk(w, a.id); SameFate(w, a.task, Started(w, a).value.1, a.id); }
    }
  }

  lemma TickSound(w: World, later: int)
    requires Sound(w) && later > w.now
    ensures Sound(w.(now := later)) && Evolves(w, w.(now := later))
  {
    var after := w.(now := later);
    forall id ensures IdOk(after, id) && IdEvolves(w, after, id) { assert IdOk(w, id); }
    forall k | k in after.tasks ensures TaskOk(after, after.tasks[k]) { TaskStays(w, after, w.tasks[k]); }
  }

  lemma AdvanceKeeps(w: World, k: nat)
    requires Sound(w)
    ensures Sound(Do(w, Step(k))) && Evolves(w, Do(w, Step(k)))
  {
    if k in w.tasks {
      var (rows, task) := Advanced(w, w.tasks[k]);
      AdvancedSound(w, k);
      BecameSound(w, rows, k, task);
    } else {
      NothingEvolves(w);
    }
  }

  lemma NothingEvolves(w: World)
    requires TableOk(w)
    ensures Evolves(w, w)
  {
    forall id ensures IdEvolves(w, w, id) { assert IdOk(w, id); }
  }

  lemma StartKeeps(w: World, a: Action)
    requires Sound(w) && !a.Tick? && !a.Step?
    ensures Sound(Do(w, a)) && Evolves(w, Do(w, a))
  {
    if a.task !in w.tasks && Started(w, a).Some? {
      var (rows, task) := Started(w, a).value;
      StartedSound(w, a);
      BecameSound(w, rows, a.task, task);
    } else {
      NothingEvolves(w);
    }
  }

  /** Any action of anybody keeps every row and every task sound, and moves rows only as they may move. */
  lemma DoSound(w: World, a: Action)
    requires Sound(w)
    ensures Sound(Do(w, a)) && Evolves(w, Do(w, a))
  {
    match a
    case Tick(later) => if later > w.now { TickSound(w, later); } else { NothingEvolves(w); }
    case Step(k) => AdvanceKeeps(w, k);
    case _ => StartKeeps(w, a);
  }

  // ---- Over every run -----------------------------------------------------------------------------------------------

  lemma {:induction false} EveryRunIsSound(w: World, actions: seq<Action>)
    requires Sound(w)
    ensures Sound(After(w, actions)) && Evolves(w, After(w, actions))
    decreases |actions|
  {
    if |actions| == 0 {
      NothingEvolves(w);
    } else {
      DoSound(w, actions[0]);
      EveryRunIsSound(Do(w, actions[0]), actions[1..]);
      EvolvesOn(w, Do(w, actions[0]), After(w, actions));
    }
  }

  lemma EvolvesOn(a: World, b: World, c: World)
    requires TableOk(a) && TableOk(c) && Evolves(a, b) && Evolves(b, c)
    ensures Evolves(a, c)
  {
    forall id ensures IdEvolves(a, c, id) {
      assert IdOk(a, id) && IdOk(c, id) && IdEvolves(a, b, id) && IdEvolves(b, c, id);
    }
  }

  /** Whoever interleaves, from an empty table. */
  lemma EveryReachableWorldIsSound(now: int, actions: seq<Action>)
    ensures Sound(After(Start(now), actions))
  {
    EveryRunIsSound(Start(now), actions);
  }

  /** Row by row: who may have answered it, and when. */
  lemma WhatRowsProve(now: int, actions: seq<Action>, id: ReviewId)
    requires id in After(Start(now), actions).rows
    ensures var w := After(Start(now), actions);
            var row := w.rows[id];
            && (row.state.ApprovedReview? ==>
                 row.reviewer.Some? && AnsweredBy(row, row.reviewer.value,
                                                  PolicyOf(LaneFor(row.action)).minConsiderationMs))
            && (row.state.RejectedReview? ==> row.reviewer.Some? && AnsweredBy(row, row.reviewer.value, 0))
            && (row.state.TimedOutReview? ==> row.decidedAt == Some(row.deadlineAt) && row.deadlineAt <= w.now)
            && row.deadlineAt == row.requestedAt + PolicyOf(LaneFor(row.action)).slaMs
  {
    EveryReachableWorldIsSound(now, actions);
    assert IdOk(After(Start(now), actions), id);
  }

  /** Once answered or expired, a row stays as it is for 730 days, whatever else happens. */
  lemma AnswersAreFinal(now: int, before: seq<Action>, more: seq<Action>, id: ReviewId)
    requires var row := After(Start(now), before).rows;
             id in row && !row[id].state.Pending?
    ensures var (w, x) := (After(Start(now), before), After(After(Start(now), before), more));
            if id in x.rows then x.rows[id] == w.rows[id]
            else w.rows[id].decidedAt.Some? && IsDueForDisposal(w.rows[id].decidedAt.value, x.now)
  {
    var w := After(Start(now), before);
    EveryReachableWorldIsSound(now, before);
    EveryRunIsSound(w, more);
    assert IdOk(w, id) && IdEvolves(w, After(w, more), id);
  }

  /**
   What a requester was told is what its row says, or what it said when it was disposed of; only one that waited for as
   long as rows are kept can be told of a timeout though a person answered. A decision reported as made was made.
   */
  lemma RequestersAreToldTheTruth(now: int, actions: seq<Action>, k: nat)
    requires k in After(Start(now), actions).tasks
    ensures var w := After(Start(now), actions);
            match w.tasks[k]
            case Answered(id, _, outcome) =>
              Fate(w, id).Some? && (Matches(Fate(w, id).value, outcome) || LookedTooLate(w, id, outcome))
            case Decided(id, Some(outcome)) => Fate(w, id).Some? && Matches(Fate(w, id).value, outcome)
            case _ => true
  {
    var w := After(Start(now), actions);
    EveryReachableWorldIsSound(now, actions);
    assert TaskOk(w, w.tasks[k]);
  }

  /**
   An action goes ahead only in one of three ways: a person who had it in front of them approved it, no sooner than the
   lane's floor after it was put there and before its deadline; it is in the fast lane and nobody answered in time, or
   nobody could tell when it was asked; or it is in the fast lane and its requester looked too late.
   */
  lemma NothingProceedsUnreviewed(now: int, actions: seq<Action>, k: nat)
    requires k in After(Start(now), actions).tasks
    ensures var w := After(Start(now), actions);
            var task := w.tasks[k];
            && (task.Answered? && ResolveReview(task.review, task.outcome) == Proceed ==>
                  Fate(w, task.answered).Some? &&
                  var row := Fate(w, task.answered).value;
                  || (row.state.ApprovedReview? && row.action == task.review.action && row.reviewer.Some?
                      && AnsweredBy(row, row.reviewer.value, PolicyOf(LaneFor(task.review.action)).minConsiderationMs))
                  || (task.review.action == LowRiskReversible
                      && (row.state.TimedOutReview? || LookedTooLate(w, task.answered, task.outcome))))
            && (task.Unreadable? && ResolveReview(task.review, task.outcome) == Proceed
                ==> task.review.action == LowRiskReversible)
  {
    var w := After(Start(now), actions);
    EveryReachableWorldIsSound(now, actions);
    var task := w.tasks[k];
    assert TaskOk(w, task);
    if task.Answered? { assert IdOk(w, task.answered); }
  }

  // ---- A requester that looks too late -----------------------------------------------------------------------------

  /**
   A requester for this kind of action, told of a timeout after this long, though its review was answered otherwise.
   */
  predicate Misled(w: World, k: nat, action: ActionClass, waited: int) {
    && k in w.tasks && w.tasks[k].Answered? && w.tasks[k].review.action == action
    && w.tasks[k].outcome == TimedOut(LaneFor(action), waited)
    && Fate(w, w.tasks[k].answered).Some? && !Matches(Fate(w, w.tasks[k].answered).value, w.tasks[k].outcome)
  }

  ghost predicate Reachable(w: World) {
    exists now, actions :: w == After(Start(now), actions)
  }

  lemma {:induction false} AfterOneMore(w: World, actions: seq<Action>, a: Action)
    ensures After(w, actions + [a]) == Do(After(w, actions), a)
    decreases |actions|
  {
    if |actions| == 0 {
      assert After(Do(w, a), []) == Do(w, a);
    } else {
      assert (actions + [a])[1..] == actions[1..] + [a];
      AfterOneMore(Do(w, actions[0]), actions[1..], a);
    }
  }

  lemma ReachableDo(w: World, a: Action)
    requires Reachable(w)
    ensures Reachable(Do(w, a))
  {
    var now, actions :| w == After(Start(now), actions);
    AfterOneMore(Start(now), actions, a);
  }

  function PromptlyRejected(action: ActionClass, reviewer: Text): Row {
    var row := PendingRow(ReviewRequest(action, Some(0)), PolicyOf(LaneFor(action)).slaMs);
    row.(state := RejectedReview, presentedTo := Some(reviewer), presentedAt := Some(0), reviewer := Some(reviewer),
         decidedAt := Some(0), tookMs := Some(0))
  }

  lemma Stepped(w: World, k: nat) returns (next: World)
    requires Reachable(w) && k in w.tasks
    ensures var (rows, task) := Advanced(w, w.tasks[k]);
            Reachable(next) && next.now == w.now && next.rows == rows && next.tasks == w.tasks[k := task]
                && next.gone == w.gone + Removed(w, rows)
  {
    next := Do(w, Step(k));
    ReachableDo(w, Step(k));
  }

  lemma Begun(w: World, a: Action) returns (next: World)
    requires Reachable(w) && !a.Tick? && !a.Step? && a.task !in w.tasks && Started(w, a).Some?
    ensures var (rows, task) := Started(w, a).value;
            Reachable(next) && next.now == w.now && next.rows == rows && next.tasks == w.tasks[a.task := task]
            && next.gone == w.gone + Removed(w, rows)
  {
    next := Do(w, a);
    ReachableDo(w, a);
  }

  function Asker(action: ActionClass, id: ReviewId, at: Polling): Task {
    Requesting(at, id, ReviewRequest(action, Some(0)), PolicyOf(LaneFor(action)).slaMs, 0)
  }

  /** At instant 0 there is one review, asked for by task 0, and no others but these tasks. */
  ghost predicate OneReview(w: World, action: ActionClass, id: ReviewId, row: Row, tasks: nat) {
    && Reachable(w) && w.now == 0 && w.rows == map[id := row] && w.gone == map[]
    && (forall k | k in w.tasks :: k < tasks) && 0 in w.tasks && w.tasks[0] == Asker(action, id, AboutToRead)
  }

  lemma AskedAndOpened(action: ActionClass, id: ReviewId, reviewer: Text) returns (w: World)
    ensures OneReview(w, action, id,
                      PromptlyRejected(action, reviewer).(state := Pending, reviewer := None, decidedAt := None,
                                                          tookMs := None), 2)
  {
    var review := ReviewRequest(action, Some(0));
    assert After(Start(0), []) == Start(0);
    w := Begun(Start(0), Ask(0, review, id));
    var row := PendingRow(review, PolicyOf(LaneFor(action)).slaMs);
    assert w.rows == map[id := row] && w.gone == map[];
    w := Begun(w, Open(1, id, reviewer));
    assert w.rows == map[id := row] && w.gone == map[];
    w := Stepped(w, 1);
    assert w.rows == map[id := row.(presentedTo := Some(reviewer), presentedAt := Some(0))] && w.gone == map[];
  }

  lemma RejectedAtOnce(action: ActionClass, id: ReviewId, reviewer: Text) returns (w: World)
    ensures OneReview(w, action, id, PromptlyRejected(action, reviewer), 3)
  {
    w := AskedAndOpened(action, id, reviewer);
    var (rows, held) := (w.rows, HeldReview(LaneFor(action), 0));
    w := Begun(w, Hold(2, id, reviewer, false));
    assert w.tasks[2] == Considering(id, reviewer, false, held) && w.rows == rows && w.gone == map[];
    w := Stepped(w, 2);
    assert w.tasks[2] == Deciding(Decision(id, reviewer, false, held, 0)) && w.rows == rows && w.gone == map[];
    w := Stepped(w, 2);
    assert w.rows == map[id := PromptlyRejected(action, reviewer)] && w.gone == map[];
  }

  /** The row is gone and its requester, long past the deadline, has not heard of it. */
  ghost predicate Unheard(w: World, action: ActionClass, id: ReviewId, row: Row, waited: int, at: Polling) {
    && Reachable(w) && w.now == waited && w.rows == map[] && w.gone == map[id := row]
    && 0 in w.tasks && w.tasks[0] == Asker(action, id, at)
  }

  lemma DisposedUnheard(start: World, action: ActionClass, id: ReviewId, row: Row, waited: int) returns (w: World)
    requires OneReview(start, action, id, row, 3) && waited >= METADATA_RETENTION_MS
    requires row.state.RejectedReview? && row.decidedAt == Some(0)
    ensures Unheard(w, action, id, row, waited, AboutToRead)
  {
    w := Do(start, Tick(waited));
    ReachableDo(start, Tick(waited));
    w := Begun(w, Dispose(3));
    assert w.rows == map[id := row] && w.gone == map[] && w.tasks[3] == Disposing(DisposalCutoff(waited));
    w := Stepped(w, 3);
    assert w.rows == map[] && w.gone == map[id := row];
  }

  lemma LooksOn(start: World, action: ActionClass, id: ReviewId, row: Row, waited: int, at: Polling) returns (w: World)
    requires Unheard(start, action, id, row, waited, at) && waited >= METADATA_RETENTION_MS && !at.AboutToReread?
    ensures Unheard(w, action, id, row, waited,
                    match at case AboutToRead => AboutToLook case AboutToLook => AboutToExpire case _ => AboutToReread)
  {
    w := Stepped(start, 0);
    assert w.rows == map[] && w.gone == map[id := row];
  }

  lemma HeardTooLate(action: ActionClass, id: ReviewId, reviewer: Text, waited: int) returns (w: World)
    requires waited >= METADATA_RETENTION_MS
    ensures Reachable(w) && Misled(w, 0, action, waited) && w.tasks[0].answered == id
    ensures Fate(w, id) == Some(PromptlyRejected(action, reviewer))
  {
    var row := PromptlyRejected(action, reviewer);
    w := RejectedAtOnce(action, id, reviewer);
    w := DisposedUnheard(w, action, id, row, waited);
    w := LooksOn(w, action, id, row, waited, AboutToRead);
    w := LooksOn(w, action, id, row, waited, AboutToLook);
    w := LooksOn(w, action, id, row, waited, AboutToExpire);
    w := Stepped(w, 0);
    assert w.rows == map[] && w.gone == map[id := row];
  }

  /** A timeout reported after this long can be untrue exactly when rows are not kept for longer. */
  lemma TimeoutsMisleadExactlyPastRetention(action: ActionClass, waited: int)
    ensures (exists w, k :: Reachable(w) && Misled(w, k, action, waited)) <==> waited >= METADATA_RETENTION_MS
  {
    if waited >= METADATA_RETENTION_MS {
      var w := HeardTooLate(action, [], [], waited);
    } else {
      forall w, k | Reachable(w) ensures !Misled(w, k, action, waited) {
        if k in w.tasks {
          var now, actions :| w == After(Start(now), actions);
          RequestersAreToldTheTruth(now, actions, k);
        }
      }
    }
  }

  /** For instance, a low-risk action whose requester slept that long goes ahead after a rejection. */
  lemma RejectedActionProceedsTooLate(reviewer: Text)
    ensures exists w, k :: Reachable(w) && Misled(w, k, LowRiskReversible, METADATA_RETENTION_MS)
                           && Fate(w, w.tasks[k].answered) == Some(PromptlyRejected(LowRiskReversible, reviewer))
                           && ResolveReview(w.tasks[k].review, w.tasks[k].outcome) == Proceed
  {
    var w := HeardTooLate(LowRiskReversible, [], reviewer, METADATA_RETENTION_MS);
    assert Fate(w, w.tasks[0].answered) == Some(PromptlyRejected(LowRiskReversible, reviewer));
  }

  /** Nobody takes a review out of another reviewer's hands. */
  lemma HoldsAreExclusive(now: int, before: seq<Action>, more: seq<Action>, id: ReviewId)
    requires var row := After(Start(now), before).rows;
             id in row && row[id].presentedTo.Some?
    ensures var (w, x) := (After(Start(now), before), After(After(Start(now), before), more));
            Fate(x, id).Some? && Fate(x, id).value.presentedTo == w.rows[id].presentedTo
            && (Fate(x, id).value.reviewer.Some? ==> Fate(x, id).value.reviewer == w.rows[id].presentedTo)
  {
    EveryReachableWorldIsSound(now, before);
    var w, x := After(Start(now), before), After(After(Start(now), before), more);
    EveryRunIsSound(w, more);
    assert IdOk(w, id) && IdEvolves(w, x, id) && IdOk(x, id);
  }
}
