/**
 The approval queue as a table of reviews: each SQL statement as a function of the table, and the gate that issues them
 (src/governance/infrastructure/sqlite-approval-gate.ts, src/governance/domain/review-brief.ts, review-decision.ts).
 */
module ApprovalGate {
  import opened Outcomes
  import opened Texts
  import opened DecisionLanes
  import opened ReviewQueue
  import opened Sorting
  import opened Retention
  import opened Sets

  datatype ReviewState = Pending | ApprovedReview | RejectedReview | TimedOutReview

  datatype Row = Row(
    action: ActionClass, lane: Lane, requestedAt: int, deadlineAt: int, state: ReviewState,
    presentedTo: Option<Text>, presentedAt: Option<int>, reviewer: Option<Text>, decidedAt: Option<int>,
        tookMs: Option<int>)

  type Table = map<ReviewId, Row>

  /** What a reviewer was found to hold when the row was read. */
  datatype HeldReview = HeldReview(lane: Lane, presentedAt: int)

  datatype Decision = Decision(review: ReviewId, reviewer: Text, approves: bool, held: HeldReview, at: int)

  datatype DecisionRefusal =
    | UnknownReview
    | AlreadyDecided(state: ReviewState)
    | DeadlinePassed(deadlineAt: int)
    | HeldByAnother(presentedTo: Text)
    | NotPresented
    | TooSoon(decidableFrom: int)

  datatype ReviewBrief = ReviewBrief(
    review: ReviewId, action: ActionClass, lane: Lane, reversible: bool, ifUnanswered: Resolution,
    requestedAt: int, deadlineAt: int, decidableFrom: int)

  // ---- The statements ------------------------------------------------------------------------------------------

  function PendingRow(review: ReviewRequest, deadlineAt: int): Row
    requires review.requestedAt.Some?
  {
    Row(review.action, LaneFor(review.action), review.requestedAt.value, deadlineAt, Pending, None, None, None, None,
        None)
  }

  predicate MayOpen(t: Table, id: ReviewId, reviewer: Text, at: int) {
    id in t && t[id].state.Pending? && t[id].deadlineAt > at
        && (t[id].presentedTo.None? || t[id].presentedTo == Some(reviewer))
  }

  function AfterOpen(t: Table, id: ReviewId, reviewer: Text, at: int): Table {
    if MayOpen(t, id, reviewer, at) then t[id := t[id].(presentedTo := Some(reviewer), presentedAt := Some(at))] else t
  }

  predicate MayDecide(t: Table, d: Decision) {
    && d.review in t && t[d.review].state.Pending? && t[d.review].deadlineAt > d.at
    && t[d.review].presentedTo == Some(d.reviewer) && t[d.review].presentedAt == Some(d.held.presentedAt)
  }

  function DecidedRow(row: Row, d: Decision): Row {
    row.(state := if d.approves then ApprovedReview else RejectedReview, reviewer := Some(d.reviewer),
         decidedAt := Some(d.at),
         tookMs := Some(d.at - d.held.presentedAt))
  }

  function AfterDecide(t: Table, d: Decision): Table {
    if MayDecide(t, d) then t[d.review := DecidedRow(t[d.review], d)] else t
  }

  function ExpiredRow(row: Row): Row {
    row.(state := TimedOutReview, decidedAt := Some(row.deadlineAt))
  }

  function AfterExpire(t: Table, id: ReviewId): Table {
    if id in t && t[id].state.Pending? then t[id := ExpiredRow(t[id])] else t
  }

  function AfterExpireOverdue(t: Table, at: int): Table {
    map id | id in t :: if t[id].state.Pending? && t[id].deadlineAt <= at then ExpiredRow(t[id]) else t[id]
  }

  predicate Disposable(row: Row, cutoff: int) {
    !row.state.Pending? && row.decidedAt.Some? && row.decidedAt.value <= cutoff
  }

  function AfterDispose(t: Table, cutoff: int): Table {
    map id | id in t && !Disposable(t[id], cutoff) :: t[id]
  }

  /** The answer a row gives its requester, if a person gave one. */
  function DecisionOf(t: Table, id: ReviewId): Option<ReviewOutcome> {
    if id !in t || t[id].reviewer.None? then None
    else
      var took := if t[id].tookMs.Some? then t[id].tookMs.value else 0;
      match t[id].state
      case ApprovedReview => Some(Approved(t[id].reviewer.value, took))
      case RejectedReview => Some(Rejected(t[id].reviewer.value, took))
      case _ => None
  }

  /** The read half of a decision. */
  function HeldBy(t: Table, id: ReviewId, reviewer: Text, now: int): Option<HeldReview> {
    if id in t && t[id].state.Pending? && t[id].deadlineAt > now && t[id].presentedAt.Some?
        && t[id].presentedTo == Some(reviewer)
    then Some(HeldReview(t[id].lane, t[id].presentedAt.value))
    else None
  }

  function RefusalOf(t: Table, id: ReviewId, reviewer: Text, now: int): DecisionRefusal {
    if id !in t then UnknownReview
    else if !t[id].state.Pending? then AlreadyDecided(t[id].state)
    else if t[id].deadlineAt <= now then DeadlinePassed(t[id].deadlineAt)
    else if t[id].presentedTo.Some? && t[id].presentedTo != Some(reviewer) then HeldByAnother(t[id].presentedTo.value)
    else NotPresented
  }

  function BriefFor(id: ReviewId, row: Row, presentedAt: int): ReviewBrief {
    ReviewBrief(id, row.action, row.lane, row.action == LowRiskReversible,
                ResolveReview(ReviewRequest(row.action, Some(row.requestedAt)),
                              TimedOut(row.lane, PolicyOf(row.lane).slaMs)),
                row.requestedAt, row.deadlineAt, presentedAt + PolicyOf(row.lane).minConsiderationMs)
  }

  function PendingOf(id: ReviewId, row: Row, at: int): PendingReview {
    PendingReview(id, row.action, row.lane, row.requestedAt, row.deadlineAt, row.deadlineAt - at, row.presentedTo)
  }

  /** An approval lands exactly when its reviewer holds the pending row long enough and before its deadline. */
  predicate MayApprove(t: Table, id: ReviewId, reviewer: Text, at: int) {
    && id in t && t[id].state.Pending? && t[id].presentedTo == Some(reviewer) && t[id].presentedAt.Some?
    && t[id].presentedAt.value + PolicyOf(t[id].lane).minConsiderationMs <= at < t[id].deadlineAt
  }

  predicate MayReject(t: Table, id: ReviewId, reviewer: Text, at: int) {
    && id in t && t[id].state.Pending? && t[id].presentedTo == Some(reviewer) && t[id].presentedAt.Some?
    && at < t[id].deadlineAt
  }

  // ---- What sweeps do ------------------------------------------------------------------------------------------

  /** Closing overdue rows leaves none pending past its deadline, and no other row is touched. */
  lemma SweepClosesOverdue(t: Table, at: int, id: ReviewId)
    requires id in t
    ensures var swept := AfterExpireOverdue(t, at);
            && swept.Keys == t.Keys
            && (swept[id].state.Pending? <==> t[id].state.Pending? && at < t[id].deadlineAt)
            && (if t[id].state.Pending? && t[id].deadlineAt <= at
                then swept[id].state.TimedOutReview? && swept[id].decidedAt == Some(t[id].deadlineAt)
                else swept[id] == t[id])
  {
  }

  /** A disposal removes just the rows decided 730 days ago or more. */
  lemma DisposalRemovesExactly(t: Table, now: int, id: ReviewId)
    requires id in t
    ensures var kept := AfterDispose(t, DisposalCutoff(now));
            && (id !in kept <==>
                  t[id].state != Pending && t[id].decidedAt.Some?
                  && now >= t[id].decidedAt.value + 730 * 24 * 60 * 60 * 1000)
            && (id in kept ==> kept[id] == t[id])
  {
  }

  // ---- What a reviewer is told -----------------------------------------------------------------------------------

  /**
   A brief tells its reviewer the truth: the row's own class, lane and instants; that only a low-risk action can be
   taken back; what the requester does if nobody answers; and that approving works from the instant it names until the
   deadline.
   */
  ghost predicate BriefTells(brief: ReviewBrief, t: Table, id: ReviewId, reviewer: Text, openedAt: int) {
    && id in t && brief.review == id && brief.action == t[id].action && brief.lane == t[id].lane
    && brief.requestedAt == t[id].requestedAt && brief.deadlineAt == t[id].deadlineAt
    && (brief.reversible <==> brief.action == LowRiskReversible)
    && (brief.ifUnanswered == if brief.action == LowRiskReversible then Proceed else Denied(TimedOutFailSafe))
    && (forall waited :: brief.ifUnanswered
                         == SeekApproval(brief.action, Some(TimedOut(LaneFor(brief.action), waited)),
                                         Some(brief.requestedAt)))
    && (forall at :: MayApprove(t, id, reviewer, at) <==> brief.decidableFrom <= at < brief.deadlineAt)
    && (forall at :: MayReject(t, id, reviewer, at) <==> at < brief.deadlineAt)
    && openedAt < brief.deadlineAt && t[id].presentedAt == Some(openedAt)
  }

  lemma OpenedBriefTells(t: Table, id: ReviewId, reviewer: Text, at: int)
    requires MayOpen(t, id, reviewer, at)
    ensures BriefTells(BriefFor(id, t[id], at), AfterOpen(t, id, reviewer, at), id, reviewer, at)
  {
  }

  /** A refusal is the one thing that stands in the way, and one that names nothing means that nobody holds the row. */
  lemma RefusalsTellWhy(t: Table, id: ReviewId, reviewer: Text, now: int)
    ensures var refusal := RefusalOf(t, id, reviewer, now);
            && (refusal == UnknownReview <==> id !in t)
            && (forall state :: refusal == AlreadyDecided(state) <==> id in t && t[id].state == state != Pending)
            && (forall deadline :: refusal == DeadlinePassed(deadline) <==>
                                   id in t && t[id].state.Pending? && t[id].deadlineAt == deadline <= now)
            && (forall holder :: refusal == HeldByAnother(holder) <==>
                                 id in t && t[id].state.Pending? && now < t[id].deadlineAt
                                 && t[id].presentedTo == Some(holder) && holder != reviewer)
            && (refusal == NotPresented <==> MayOpen(t, id, reviewer, now))
  {
  }

  // ---- What other processes may do to the table while this one sleeps ------------------------------------------

  /** A row somebody answered names them; no other row does. */
  predicate Shaped(row: Row) {
    if row.state.ApprovedReview? || row.state.RejectedReview? then row.reviewer.Some? && row.tookMs.Some?
    else row.reviewer.None?
  }

  ghost predicate WellShaped(t: Table) {
    forall id | id in t :: Shaped(t[id])
  }

  /** The outcome a requester was told is the one its row records. */
  predicate Matches(row: Row, outcome: ReviewOutcome) {
    match outcome
    case Approved(reviewer, took) =>
      row.state.ApprovedReview? && row.reviewer == Some(reviewer) && row.tookMs == Some(took)
    case Rejected(reviewer, took) =>
      row.state.RejectedReview? && row.reviewer == Some(reviewer) && row.tookMs == Some(took)
    case TimedOut(_, _) => row.state.TimedOutReview?
  }

  /** Others leave an answered row alone or dispose of it, and never bring back one that is gone. */
  ghost predicate LeavesAlone(before: Table, after: Table, id: ReviewId) {
    id in after ==> id in before && (!before[id].state.Pending? ==> after[id] == before[id])
  }

  ghost predicate Considerate(world: (nat, Table) -> Table, id: ReviewId) {
    forall n, t | WellShaped(t) :: WellShaped(world(n, t)) && LeavesAlone(t, world(n, t), id)
  }

  /** The readings of a clock never go back, and pass every instant. */
  ghost predicate Advances(clock: nat -> int, passes: int -> nat) {
    (forall i: nat, j: nat | i <= j :: clock(i) <= clock(j))
        && (forall t: int, i: nat | i >= passes(t) :: clock(i) >= t)
  }

  class SqliteApprovalGate {
    var rows: Table
    const clock: nat -> int
    ghost const passes: int -> nat
    /** How often the clock has been read. */
    var readings: nat

    ghost predicate Valid()
      reads this
    {
      Advances(clock, passes) && WellShaped(rows)
    }

    constructor (rows: Table, clock: nat -> int, ghost passes: int -> nat)
      requires Advances(clock, passes) && WellShaped(rows)
      ensures Valid() && this.clock == clock && this.rows == AfterExpireOverdue(rows, clock(0))
    {
      this.rows, this.clock, this.passes, this.readings := rows, clock, passes, 0;
      new;
      ExpireOverdue();
    }

    method Now() returns (now: int)
      modifies this`readings
      ensures now == clock(old(readings)) && readings == old(readings) + 1
    {
      now := clock(readings);
      readings := readings + 1;
    }

    method ExpireOverdue()
      requires Valid()
      modifies this
      ensures Valid() && rows == AfterExpireOverdue(old(rows), clock(old(readings))) && readings == old(readings) + 1
    {
      var now := Now();
      rows := map id | id in rows :: if rows[id].state.Pending? && rows[id].deadlineAt <= now then ExpiredRow(rows[id])
          else rows[id];
    }

    method Refusal(id: ReviewId, reviewer: Text) returns (refusal: DecisionRefusal)
      requires Valid()
      modifies this`readings
      ensures refusal == RefusalOf(rows, id, reviewer, clock(old(readings))) && readings >= old(readings)
    {
      if id !in rows {
        return UnknownReview;
      }
      var row := rows[id];
      if !row.state.Pending? {
        return AlreadyDecided(row.state);
      }
      var now := Now();
      if row.deadlineAt <= now {
        return DeadlinePassed(row.deadlineAt);
      }
      if row.presentedTo.Some? && row.presentedTo.value != reviewer {
        return HeldByAnother(row.presentedTo.value);
      }
      return NotPresented;
    }

    /** Hands the row to one reviewer; a row in another reviewer's hands stays there. */
    method Open(id: ReviewId, reviewer: Text) returns (r: Result<ReviewBrief, DecisionRefusal>)
      requires Valid()
      modifies this
      ensures Valid()
      ensures var at := clock(old(readings));
              && rows == AfterOpen(old(rows), id, reviewer, at)
              && (r.Ok? <==> MayOpen(old(rows), id, reviewer, at))
              && (r.Ok? ==> r.value == BriefFor(id, old(rows)[id], at) && BriefTells(r.value, rows, id, reviewer, at))
      ensures r.Err? ==> r.error == RefusalOf(rows, id, reviewer, clock(old(readings) + 1))
    {
      var at := Now();
      if id in rows && rows[id].state.Pending? && rows[id].deadlineAt > at
          && (rows[id].presentedTo.None? || rows[id].presentedTo == Some(reviewer)) {
        OpenedBriefTells(rows, id, reviewer, at);
        rows := rows[id := rows[id].(presentedTo := Some(reviewer), presentedAt := Some(at))];
        return Ok(BriefFor(id, rows[id], at));
      }
      var refusal := Refusal(id, reviewer);
      return Err(refusal);
    }

    method Held(id: ReviewId, reviewer: Text) returns (r: Result<HeldReview, DecisionRefusal>, ghost at: int)
      requires Valid()
      modifies this`readings
      ensures readings >= old(readings) && clock(old(readings)) <= at <= clock(readings)
      ensures r.Ok? <==> HeldBy(rows, id, reviewer, at).Some?
      ensures r.Ok? ==> r.value == HeldBy(rows, id, reviewer, at).value
      ensures r.Err? ==> exists k :: k >= old(readings) && r.error == RefusalOf(rows, id, reviewer, clock(k))
    {
      at := clock(readings);
      if id !in rows {
        assert UnknownReview == RefusalOf(rows, id, reviewer, clock(readings));
        return Err(UnknownReview), at;
      }
      var row := rows[id];
      var held := row.state.Pending?;
      if held {
        var now := Now();
        held := row.deadlineAt > now;
      }
      if !held || row.presentedAt.None? || row.presentedTo != Some(reviewer) {
        ghost var k := readings;
        var refusal := Refusal(id, reviewer);
        assert refusal == RefusalOf(rows, id, reviewer, clock(k));
        return Err(refusal), at;
      }
      return Ok(HeldReview(row.lane, row.presentedAt.value)), at;
    }

    /** The guarded write; the table changes exactly when the row is still as it was read. */
    method Decide(d: Decision) returns (r: Result<ReviewOutcome, DecisionRefusal>)
      requires Valid()
      modifies this
      ensures Valid() && rows == AfterDecide(old(rows), d)
      ensures r.Ok? <==> MayDecide(old(rows), d)
      ensures r.Ok? ==> Matches(rows[d.review], r.value) && (r.value.Approved? <==> d.approves) && !r.value.TimedOut?
      ensures r.Err? ==> r.error == RefusalOf(rows, d.review, d.reviewer, clock(old(readings)))
    {
      if d.review in rows && rows[d.review].state.Pending? && rows[d.review].deadlineAt > d.at
         && rows[d.review].presentedTo == Some(d.reviewer) && rows[d.review].presentedAt == Some(d.held.presentedAt)
      {
        rows := rows[d.review := DecidedRow(rows[d.review], d)];
        var took := d.at - d.held.presentedAt;
        return Ok(if d.approves then Approved(d.reviewer, took) else Rejected(d.reviewer, took));
      }
      var refusal := Refusal(d.review, d.reviewer);
      return Err(refusal);
    }

    /**
     `at` is the instant the approval was judged by: it lands exactly when the floor has passed and the deadline has
     not.
     */
    method Approve(id: ReviewId, reviewer: Text) returns (r: Result<ReviewOutcome, DecisionRefusal>, ghost at: int)
      requires Valid()
      modifies this
      ensures Valid() && at >= clock(old(readings))
      ensures r.Ok? <==> MayApprove(old(rows), id, reviewer, at)
      ensures r.Ok? ==> id in rows && rows == old(rows)[id := rows[id]] && rows[id].decidedAt == Some(at)
                        && rows[id].(state := Pending, reviewer := old(rows)[id].reviewer,
                                     decidedAt := old(rows)[id].decidedAt,
                                      tookMs := old(rows)[id].tookMs) == old(rows)[id]
                        && Matches(rows[id], r.value) && r.value.Approved? && r.value.reviewer == reviewer
                        && r.value.tookMs >= PolicyOf(rows[id].lane).minConsiderationMs
      ensures r.Err? ==> rows == old(rows)
      ensures r.Err? && !r.error.TooSoon? ==>
                exists k :: k >= old(readings) && r.error == RefusalOf(rows, id, reviewer, clock(k))
      ensures r.Err? && r.error.TooSoon? ==> MayReject(rows, id, reviewer, clock(old(readings)))
                                             && at < r.error.decidableFrom == rows[id].presentedAt.value
                                                     + PolicyOf(rows[id].lane).minConsiderationMs
    {
      var held;
      held, at := Held(id, reviewer);
      if held.Err? {
        return Err(held.error), at;
      }
      var decidableFrom := held.value.presentedAt + PolicyOf(held.value.lane).minConsiderationMs;
      var now := Now();
      at := now;
      if now < decidableFrom {
        return Err(TooSoon(decidableFrom)), at;
      }
      r := Decide(Decision(id, reviewer, true, held.value, now));
    }

    method Reject(id: ReviewId, reviewer: Text) returns (r: Result<ReviewOutcome, DecisionRefusal>, ghost at: int)
      requires Valid()
      modifies this
      ensures Valid() && at >= clock(old(readings))
      ensures r.Ok? <==> MayReject(old(rows), id, reviewer, at)
      ensures r.Ok? ==> id in rows && rows == old(rows)[id := rows[id]] && rows[id].decidedAt == Some(at)
                        && Matches(rows[id], r.value) && r.value.Rejected? && r.value.reviewer == reviewer
      ensures r.Err? ==> rows == old(rows) && exists k ::
              k >= old(readings) && r.error == RefusalOf(rows, id, reviewer, clock(k))
    {
      var held;
      held, at := Held(id, reviewer);
      if held.Err? {
        return Err(held.error), at;
      }
      var now := Now();
      at := now;
      r := Decide(Decision(id, reviewer, false, held.value, now));
    }

    method DisposeExpired() returns (count: nat)
      requires Valid()
      modifies this
      ensures Valid() && rows == AfterDispose(old(rows), DisposalCutoff(clock(old(readings))))
      ensures count == |old(rows)| - |rows|
    {
      var now := Now();
      var cutoff := DisposalCutoff(now);
      var kept := map id | id in rows && !Disposable(rows[id], cutoff) :: rows[id];
      assert kept.Keys <= rows.Keys;
      SubsetSize(kept.Keys, rows.Keys);
      count := |rows.Keys| - |kept.Keys|;
      rows := kept;
    }

    /** The end of the wait: expire the row, then read what really happened to it. */
    method GiveUp(id: ReviewId, lane: Lane, startedAt: int, world: (nat, Table) -> Table, moment: nat)
        returns (outcome: ReviewOutcome)
      requires Valid() && Considerate(world, id)
      modifies this
      ensures Valid() && readings >= old(readings) && (id in rows ==> Matches(rows[id], outcome))
      ensures outcome.TimedOut? ==>
                outcome.lane == lane && readings > 0 && outcome.waitedMs == clock(readings - 1) - startedAt
    {
      rows := world(moment, rows);
      rows := AfterExpire(rows, id);
      rows := world(moment + 1, rows);
      var late := DecisionOf(rows, id);
      if late.Some? {
        return late.value;
      }
      var end := Now();
      return TimedOut(lane, end - startedAt);
    }

    /**
     Enqueue, then poll until a person answered or the lane's time is over. Between any two statements the table changes
     as other processes change it; `world` says how, the n-th time.
     */
    method Request(review: ReviewRequest, id: ReviewId, world: (nat, Table) -> Table) returns (outcome: ReviewOutcome)
      requires Valid() && id !in rows && Considerate(world, id)
      modifies this
      ensures Valid()
      ensures review.requestedAt.None? ==> outcome == TimedOut(LaneFor(review.action), 0) && rows == old(rows)
      ensures review.requestedAt.Some? && id in rows ==> Matches(rows[id], outcome)
      ensures review.requestedAt.Some? && outcome.TimedOut? ==>
                outcome.lane == LaneFor(review.action) && readings > 0
                    && outcome.waitedMs == clock(readings - 1) - clock(old(readings))
                    && clock(readings - 1) >= DeadlineFor(review).value
    {
      var lane := LaneFor(review.action);
      var deadline := DeadlineFor(review);
      if deadline.None? {
        return TimedOut(lane, 0);
      }
      rows := rows[id := PendingRow(review, deadline.value)];
      var startedAt := Now();
      var moment := 0;
      while true
        invariant Valid()
        decreases passes(deadline.value) - readings
      {
        var decided := DecisionOf(rows, id);
        if decided.Some? {
          return decided.value;
        }
        var now := Now();
        if now >= deadline.value {
          outcome := GiveUp(id, lane, startedAt, world, moment);
          return;
        }
        rows := world(moment, rows);
        moment := moment + 1;
      }
    }

    /** Everything still awaiting a person once the overdue rows are closed, in the order to work it. */
    method Queue() returns (queue: seq<PendingReview>)
      requires Valid()
      modifies this
      ensures Valid() && rows == AfterExpireOverdue(old(rows), clock(old(readings)))
      ensures Waiting(rows, clock(old(readings) + 1), queue)
      ensures forall i | 0 <= i < |queue| :: ItemTells(queue[i], rows, clock(old(readings) + 1))
    {
      ExpireOverdue();
      var at := Now();
      var read := ReadPending(rows, at);
      SortedReadWaits(rows, at, read);
      queue := SortBy(read, MoreUrgent);
    }
  }

  // ---- The queue ---------------------------------------------------------------------------------------------------

  predicate Shows(t: Table, at: int, id: ReviewId) {
    id in t && t[id].state.Pending? && t[id].deadlineAt > at
  }

  /** An item tells of a row that still waits, and how long it may. */
  predicate ItemTells(item: PendingReview, t: Table, at: int) {
    && item.review in t && t[item.review].state.Pending?
    && item.action == t[item.review].action && item.lane == t[item.review].lane
    && item.requestedAt == t[item.review].requestedAt && item.deadlineAt == t[item.review].deadlineAt
    && item.presentedTo == t[item.review].presentedTo && item.remainingMs > 0
       && at + item.remainingMs == item.deadlineAt
  }

  /** The rows read among some ids: each pending one whose time is not over, once. */
  ghost predicate Reads(t: Table, at: int, among: set<ReviewId>, read: seq<PendingReview>) {
    && DistinctReviews(read)
    && (forall i | 0 <= i < |read| :: read[i].review in among && Shows(t, at, read[i].review)
                                      && read[i] == PendingOf(read[i].review, t[read[i].review], at))
    && (forall id | id in among && Shows(t, at, id) :: PendingOf(id, t[id], at) in read)
  }

  lemma ReadOneMore(t: Table, at: int, among: set<ReviewId>, read: seq<PendingReview>, id: ReviewId)
    requires Reads(t, at, among, read) && id in t && id !in among
    ensures Reads(t, at, among + {id}, if Shows(t, at, id) then read + [PendingOf(id, t[id], at)] else read)
  {
  }

  method ReadPending(t: Table, at: int) returns (read: seq<PendingReview>)
    ensures Reads(t, at, t.Keys, read)
  {
    read := [];
    var remaining := t.Keys;
    ghost var among := {};
    while remaining != {}
      invariant remaining + among == t.Keys && remaining !! among
      invariant Reads(t, at, among, read)
      decreases |remaining|
    {
      var id :| id in remaining;
      ReadOneMore(t, at, among, read, id);
      remaining := remaining - {id};
      among := among + {id};
      if t[id].state.Pending? && t[id].deadlineAt > at {
        read := read + [PendingOf(id, t[id], at)];
      }
    }
  }

  /** Exactly the pending rows whose time is not over, once each, the more urgent first. */
  ghost predicate Waiting(t: Table, at: int, queue: seq<PendingReview>) {
    Reads(t, at, t.Keys, queue) && Ordered(queue, MoreUrgent)
  }

  lemma SortedReadWaits(t: Table, at: int, read: seq<PendingReview>)
    requires Reads(t, at, t.Keys, read)
    ensures Waiting(t, at, SortBy(read, MoreUrgent))
  {
    UrgencyIsWeakOrder();
    SortOrders(read, MoreUrgent);
    SortPermutes(read, MoreUrgent);
    SameRowsRead(t, at, read, SortBy(read, MoreUrgent));
  }

  lemma SameRowsRead(t: Table, at: int, xs: seq<PendingReview>, ys: seq<PendingReview>)
    requires Reads(t, at, t.Keys, xs) && multiset(ys) == multiset(xs)
    ensures Reads(t, at, t.Keys, ys)
  {
    forall i | 0 <= i < |ys|
      ensures ys[i].review in t.Keys && Shows(t, at, ys[i].review)
              && ys[i] == PendingOf(ys[i].review, t[ys[i].review], at)
    {
      MembersByCount(ys, xs, i);
    }
    forall id | id in t.Keys && Shows(t, at, id) ensures PendingOf(id, t[id], at) in ys {
      var i :| 0 <= i < |xs| && xs[i] == PendingOf(id, t[id], at);
      MembersByCount(xs, ys, i);
    }
    DistinctByCount(xs, ys);
  }

  lemma DistinctByCount(xs: seq<PendingReview>, ys: seq<PendingReview>)
    requires DistinctReviews(xs) && multiset(ys) == multiset(xs)
    ensures DistinctReviews(ys)
  {
    forall i, j | 0 <= i < j < |ys| ensures ys[i].review != ys[j].review {
      MembersByCount(ys, xs, i);
      MembersByCount(ys, xs, j);
      var p :| 0 <= p < |xs| && xs[p] == ys[i];
      var q :| 0 <= q < |xs| && xs[q] == ys[j];
      if ys[i] == ys[j] {
        TwicePresent(ys, i, j);
        OnceEach(xs, p);
      }
    }
  }

  lemma TwicePresent(ys: seq<PendingReview>, i: nat, j: nat)
    requires i < j < |ys| && ys[i] == ys[j]
    ensures multiset(ys)[ys[i]] >= 2
  {
    assert ys == ys[..j] + [ys[j]] + ys[j + 1..];
    assert ys[..j][i] == ys[i];
    assert ys[i] in multiset(ys[..j]);
    assert multiset(ys) == multiset(ys[..j]) + multiset{ys[j]} + multiset(ys[j + 1..]);
  }

  lemma OnceEach(xs: seq<PendingReview>, p: nat)
    requires DistinctReviews(xs) && p < |xs|
    ensures multiset(xs)[xs[p]] == 1
  {
    assert xs == xs[..p] + [xs[p]] + xs[p + 1..];
    assert multiset(xs) == multiset(xs[..p]) + multiset{xs[p]} + multiset(xs[p + 1..]);
    assert xs[p] !in xs[..p] && xs[p] !in xs[p + 1..];
    assert multiset(xs[..p])[xs[p]] == 0 && multiset(xs[p + 1..])[xs[p]] == 0;
  }

  /** The table and the instant decide the queue: two reads of them cannot disagree. */
  lemma QueueIsDetermined(t: Table, at: int, a: seq<PendingReview>, b: seq<PendingReview>)
    requires Waiting(t, at, a) && Waiting(t, at, b)
    ensures a == b
  {
    SameReadsSameCount(t, at, a, b);
    ReviewsToldApart(a);
    OrderedOnce(a, b, MoreUrgent);
  }

  lemma SameReadsSameCount(t: Table, at: int, a: seq<PendingReview>, b: seq<PendingReview>)
    requires Reads(t, at, t.Keys, a) && Reads(t, at, t.Keys, b)
    ensures multiset(a) == multiset(b)
  {
    forall x ensures multiset(a)[x] == multiset(b)[x] {
      CountIsMembership(a, x);
      CountIsMembership(b, x);
      assert x in a <==> Shows(t, at, x.review) && x == PendingOf(x.review, t[x.review], at);
      assert x in b <==> Shows(t, at, x.review) && x == PendingOf(x.review, t[x.review], at);
    }
  }

  lemma CountIsMembership(xs: seq<PendingReview>, x: PendingReview)
    requires DistinctReviews(xs)
    ensures multiset(xs)[x] == if x in xs then 1 else 0
  {
    if x in xs {
      var p :| 0 <= p < |xs| && xs[p] == x;
      OnceEach(xs, p);
    }
  }
}
