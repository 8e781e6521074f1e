/** How a large invariant is handed from step to step unread.

    `Look` holds of every number, so `forall k: nat :: Look(k) ==> P` says just P. But the
    verifier unfolds it only where something is said of `Look`: a proof that needs P begins
    by looking, `assert Look(0)`, and one that merely passes the predicate on does not pay
    for what is in it. Every predicate of this form is documented by the P it stands for. */
module Sealing {
  ghost predicate Look(k: nat) {
    true
  }
}
