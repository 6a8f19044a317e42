/** Risk-tiered review lanes and what a review's outcome permits (src/governance/domain/decision-lane.ts). */
module DecisionLanes {
  import opened Outcomes
  import opened Texts

  datatype ActionClass = LowRiskReversible | SensitiveDataAccess | FinancialOrIrreversible

  datatype Lane = Fast | Standard | High

  datatype LanePolicy = LanePolicy(slaMs: nat, autoApproves: bool, minConsiderationMs: nat)

  function PolicyOf(lane: Lane): LanePolicy {
    match lane
    case Fast => LanePolicy(10_000, true, 1_000)
    case Standard => LanePolicy(5 * 60_000, false, 5_000)
    case High => LanePolicy(30 * 60_000, false, 15_000)
  }

  function LaneFor(action: ActionClass): Lane {
    match action
    case LowRiskReversible => Fast
    case SensitiveDataAccess => Standard
    case FinancialOrIrreversible => High
  }

  datatype ReviewRequest = ReviewRequest(action: ActionClass, requestedAt: Option<int>)

  datatype ReviewOutcome =
    | Approved(reviewer: Text, tookMs: int)
    | Rejected(reviewer: Text, tookMs: int)
    | TimedOut(lane: Lane, waitedMs: int)

  datatype Resolution = Proceed | Denied(reason: DenialReason)
  datatype DenialReason = RejectedByReviewer | TimedOutFailSafe

  function ResolveReview(request: ReviewRequest, outcome: ReviewOutcome): Resolution {
    match outcome
    case Approved(_, _) => Proceed
    case Rejected(_, _) => Denied(RejectedByReviewer)
    case TimedOut(_, _) => if PolicyOf(LaneFor(request.action)).autoApproves then Proceed else Denied(TimedOutFailSafe)
  }

  /** An absent gate is nobody answering. */
  function SeekApproval(action: ActionClass, answer: Option<ReviewOutcome>, requestedAt: Option<int>): Resolution {
    var review := ReviewRequest(action, requestedAt);
    ResolveReview(review, if answer.Some? then answer.value else TimedOut(LaneFor(action), 0))
  }

  /**
   The more an action can do, the longer it waits for a person and the longer that person must look; only what can be
   taken back goes ahead unanswered, and everybody has time to look before time is up. Looking takes a tenth of the fast
   lane's time at most, and nothing irreversible is approved within the ten seconds that pass for rubber-stamping.
   */
  lemma LanesScaleWithRisk()
    ensures var (low, middle, high) := (PolicyOf(LaneFor(LowRiskReversible)), PolicyOf(LaneFor(SensitiveDataAccess)),
                                        PolicyOf(LaneFor(FinancialOrIrreversible)));
            && low.slaMs < middle.slaMs < high.slaMs
            && 0 < low.minConsiderationMs < middle.minConsiderationMs < high.minConsiderationMs
            && low.minConsiderationMs < low.slaMs && middle.minConsiderationMs < middle.slaMs
            && high.minConsiderationMs < high.slaMs
            && 10 * low.minConsiderationMs <= low.slaMs && middle.minConsiderationMs < 10_000 < high.minConsiderationMs
            && low.autoApproves && !middle.autoApproves && !high.autoApproves
  {
  }

  /** Outside the fast lane an action proceeds only on an approval by a person; a rejection never proceeds. */
  lemma ProceedNeedsApproval(action: ActionClass, answer: Option<ReviewOutcome>, requestedAt: Option<int>)
    ensures SeekApproval(action, answer, requestedAt) == Proceed <==>
            (answer.Some? && answer.value.Approved?) ||
            (action == LowRiskReversible && !(answer.Some? && answer.value.Rejected?))
  {
  }
}
