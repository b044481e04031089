/**
 The statuses and phases an instance row carries.
 */
module Statuses {

  datatype Status =
    | Running | Pausing | Paused | Failing | Failed | Cancelling | Cancelled | Completed | Raised

  /** What a row waits on: nothing, its children, the collection of their results, or an external
      answer. */
  datatype Phase = NoPhase | Children | Collecting | Parked

  predicate Terminal(s: Status) {
    s.Completed? || s.Failed? || s.Raised? || s.Cancelled?
  }

  /** A paused row still takes answers; a row being cancelled does not. */
  predicate AcceptsOutcome(s: Status) {
    s.Running? || s.Paused? || s.Pausing?
  }
}
