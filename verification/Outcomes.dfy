/** How a step of a protocol ends. A raised exception, a failed guard and a crash are the
    same thing here: the method stops, and what it had already written stays written. */
module Outcomes {
  datatype Reason =
    | Interrupted    // crash, failed guard, exhausted budget or lost response
    | Disagreement   // two independent observations differ
    | Inadmissible   // an inventory or a document is malformed or over its bound
    | NotOwned       // the original owner is missing or ambiguous
    | NewBytes       // identities outside the original authorization appeared
    | Reappeared     // removed identities are present again
    | Incomplete     // a removal did not reach its required end state
    | Consumed       // a single-use identity was already reserved
    | Ambiguous      // a durable record is torn or differs from its only permitted value
    | Unresolved     // a submitted effect has not taken place
    | Unexplained    // an absence has no exact submission

  datatype Status = Ok | Stop(reason: Reason) {
    predicate IsFailure() { Stop? }
    function PropagateFailure(): Status requires Stop? { this }
  }

  datatype Option<+T> = None | Some(value: T)

  /** A possible interruption: never taken in a calm run. */
  method Checkpoint(calm: bool) returns (s: Status)
    ensures calm ==> s.Ok?
    ensures s.Stop? ==> s.reason.Interrupted?
  {
    var stop: bool := *;
    s := if stop && !calm then Stop(Interrupted) else Ok;
  }
}
