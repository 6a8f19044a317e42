/** How long execution-log metadata is kept (src/primitives/domain/retention-schedule.ts). */
module Retention {
  const METADATA_RETENTION_MS := 730 * 24 * 60 * 60 * 1000

  predicate IsDueForDisposal(writtenAt: int, now: int) {
    now >= writtenAt + METADATA_RETENTION_MS
  }

  /** For stores that dispose with one ranged delete. */
  function DisposalCutoff(now: int): (cutoff: int)
    ensures forall writtenAt :: writtenAt <= cutoff <==> IsDueForDisposal(writtenAt, now)
  {
    now - METADATA_RETENTION_MS
  }
}
