// Where a staged transaction is on its way to Firefly: the status column every part of the
// integration reads.
module Staging {
  datatype Status = Pending | NeedsReview | ReadyToPush | Pushed | Skipped

  // Nothing fold reports, and no proposal, reaches the money of such a row.
  predicate Settled(s: Status) { s == Pushed || s == Skipped }
}
