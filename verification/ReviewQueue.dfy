/** What a reviewer sees waiting, and the order to work it in (src/governance/domain/pending-review.ts). */
module ReviewQueue {
  import opened Outcomes
  import opened Texts
  import opened DecisionLanes
  import opened Sorting

  type ReviewId = Text

  datatype PendingReview = PendingReview(
    review: ReviewId, action: ActionClass, lane: Lane, requestedAt: int, deadlineAt: int, remainingMs: int,
        presentedTo: Option<Text>)

  /** The end of the lane's time for an answer, if the request says when it was made. */
  function DeadlineFor(request: ReviewRequest): Option<int> {
    if request.requestedAt.None?
    then None
    else Some(request.requestedAt.value + PolicyOf(LaneFor(request.action)).slaMs)
  }

  function TimeoutCost(lane: Lane): int {
    if PolicyOf(lane).autoApproves then 1 else 0
  }

  /** Negative when the left one comes first. */
  function ByUrgency(left: PendingReview, right: PendingReview): int {
    var consequence := TimeoutCost(left.lane) - TimeoutCost(right.lane);
    if consequence != 0 then consequence
    else if left.remainingMs != right.remainingMs then left.remainingMs - right.remainingMs
    else if left.requestedAt != right.requestedAt then (if left.requestedAt < right.requestedAt then -1 else 1)
    else if LexLess(left.review, right.review) then -1 else 1
  }

  predicate MoreUrgent(left: PendingReview, right: PendingReview) {
    ByUrgency(left, right) < 0
  }

  /** Between different reviews exactly one order holds, and the comparator says which from either side. */
  lemma UrgencyIsTotal(a: PendingReview, b: PendingReview)
    ensures a.review != b.review ==> (MoreUrgent(a, b) <==> !MoreUrgent(b, a))
    ensures a.review != b.review ==> (ByUrgency(a, b) > 0 <==> ByUrgency(b, a) < 0) && ByUrgency(a, b) != 0
    ensures !(MoreUrgent(a, b) && MoreUrgent(b, a))
  {
    LexTotal(a.review, b.review);
  }

  lemma UrgencySeparates(a: PendingReview, b: PendingReview, c: PendingReview)
    requires MoreUrgent(a, c)
    ensures MoreUrgent(a, b) || MoreUrgent(b, c)
  {
    LexTotal(a.review, b.review);
    LexTotal(b.review, c.review);
    if !LexLess(a.review, b.review) && !LexLess(b.review, c.review) && LexLess(a.review, c.review) {
      if b.review != c.review { LexTransitive(c.review, b.review, a.review); LexTotal(a.review, c.review); }
    }
  }

  lemma UrgencyIsWeakOrder()
    ensures WeakOrder(MoreUrgent)
  {
    forall a, b | MoreUrgent(a, b) ensures !MoreUrgent(b, a) { UrgencyIsTotal(a, b); }
    forall a, b, c | MoreUrgent(a, c) ensures MoreUrgent(a, b) || MoreUrgent(b, c) { UrgencySeparates(a, b, c); }
  }

  /** Different places hold different reviews. */
  predicate DistinctReviews(xs: seq<PendingReview>) {
    forall i, j | 0 <= i < j < |xs| :: xs[i].review != xs[j].review
  }

  lemma ReviewsToldApart(xs: seq<PendingReview>)
    requires DistinctReviews(xs)
    ensures Separates(xs, MoreUrgent)
  {
    forall i, j | 0 <= i < |xs| && 0 <= j < |xs| && xs[i] != xs[j]
        ensures MoreUrgent(xs[i], xs[j]) || MoreUrgent(xs[j], xs[i]) {
      UrgencyIsTotal(xs[i], xs[j]);
      assert i < j || j < i;
    }
  }

  /** The worked order: strictly sorted, the same members, and the same whatever order they were read in. */
  lemma QueueOrderIsFixed(read: seq<PendingReview>, other: seq<PendingReview>)
    requires DistinctReviews(read) && multiset(read) == multiset(other)
    ensures SortBy(read, MoreUrgent) == SortBy(other, MoreUrgent)
    ensures multiset(SortBy(read, MoreUrgent)) == multiset(read)
  {
    UrgencyIsWeakOrder();
    SortOrders(read, MoreUrgent);
    SortOrders(other, MoreUrgent);
    SortPermutes(read, MoreUrgent);
    SortPermutes(other, MoreUrgent);
    ReviewsToldApart(read);
    ApartAnyway(read, SortBy(read, MoreUrgent));
    OrderedOnce(SortBy(read, MoreUrgent), SortBy(other, MoreUrgent), MoreUrgent);
  }

  lemma ApartAnyway(xs: seq<PendingReview>, ys: seq<PendingReview>)
    requires Separates(xs, MoreUrgent) && multiset(xs) == multiset(ys)
    ensures Separates(ys, MoreUrgent)
  {
    forall i, j | 0 <= i < |ys| && 0 <= j < |ys| && ys[i] != ys[j]
        ensures MoreUrgent(ys[i], ys[j]) || MoreUrgent(ys[j], ys[i]) {
      MembersByCount(ys, xs, i);
      MembersByCount(ys, xs, j);
    }
  }

  /**
   Nothing whose silence is harmless comes before something whose silence denies; within each, earlier ends come first.
   */
  lemma DenialsComeFirst(read: seq<PendingReview>, at: int, i: nat, j: nat)
    requires forall k | 0 <= k < |read| :: read[k].remainingMs == read[k].deadlineAt - at
    requires i < j < |SortBy(read, MoreUrgent)|
    ensures var queue := SortBy(read, MoreUrgent);
            && (PolicyOf(queue[i].lane).autoApproves ==> PolicyOf(queue[j].lane).autoApproves)
            && (PolicyOf(queue[i].lane).autoApproves == PolicyOf(queue[j].lane).autoApproves
                ==> queue[i].deadlineAt <= queue[j].deadlineAt)
  {
    UrgencyIsWeakOrder();
    SortOrders(read, MoreUrgent);
    SortPermutes(read, MoreUrgent);
    var queue := SortBy(read, MoreUrgent);
    MembersByCount(queue, read, i);
    MembersByCount(queue, read, j);
    assert !MoreUrgent(queue[j], queue[i]);
  }

  /** Between items of one class that end together the older request comes first, and then the smaller identifier. */
  lemma TiesGoToTheOlder(a: PendingReview, b: PendingReview)
    requires PolicyOf(a.lane).autoApproves == PolicyOf(b.lane).autoApproves && a.remainingMs == b.remainingMs
    ensures a.requestedAt != b.requestedAt ==> (MoreUrgent(a, b) <==> a.requestedAt < b.requestedAt)
    ensures a.requestedAt == b.requestedAt ==> (MoreUrgent(a, b) <==> LexLess(a.review, b.review))
  {
  }
}
