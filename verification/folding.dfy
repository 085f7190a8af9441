/** Folded facts: a predicate stated as `forall now :: Ask(now) ==> P`, with
    `Ask(now)` as its trigger, is handed on without `P` being looked into until
    `Ask(true)` is asserted. */
module Folding {
  ghost predicate Ask(now: bool) { now }
}
