/** The append-only ledger of staged effects (scripts/m3_11_frozen_stage.py) over the exclusive
    reservation of scripts/m3_11_frozen_retirement.py. */
module Ledger {
  import opened Outcomes

  /** The content of `<name>.submitted.json`: the exact value of the effect, or bytes that a
      crash cut short. An absent file is an absent map entry. */
  datatype Slot = Torn | Exact

  datatype Ledger<Name> = Ledger(slots: map<Name, Slot>) {
    /** The name was consumed, by a complete or a torn reservation. */
    predicate Spent(name: Name) {
      name in slots
    }

    predicate IsTorn(name: Name) {
      name in slots && slots[name].Torn?
    }
  }

  function Empty<Name>(): Ledger<Name> {
    Ledger(map[])
  }

  /** `after` differs from `before` at most in one new reservation of `name`. */
  ghost predicate Extends<Name(!new)>(before: Ledger<Name>, after: Ledger<Name>, name: Name) {
    && (forall other :: other != name ==> (after.Spent(other) <==> before.Spent(other)))
    && (forall other :: other != name ==> (after.IsTorn(other) <==> before.IsTorn(other)))
    && (before.Spent(name) ==> after.Spent(name) && (after.IsTorn(name) <==> before.IsTorn(name)))
  }

  /** Exclusive durable reservation: a name is consumed by its first attempt, whether or not
      the attempt completes, and is never given back. */
  method Reserve<Name(==, !new)>(ledger: Ledger<Name>, name: Name, calm: bool) returns (s: Status, after: Ledger<Name>)
    ensures Extends(ledger, after, name)
    ensures ledger.Spent(name) ==> s == Stop(Consumed) && after == ledger
    ensures s.Ok? ==> !ledger.Spent(name) && after.Spent(name) && !after.IsTorn(name)
    ensures calm && !ledger.Spent(name) ==> s.Ok?
    ensures s.Stop? ==> s.reason.Interrupted? || s.reason.Consumed?
  {
    after := ledger;
    if name in ledger.slots {
      return Stop(Consumed), after;
    }
    :- Checkpoint(calm);
    after := Ledger(ledger.slots[name := Torn]);
    :- Checkpoint(calm);
    after := Ledger(ledger.slots[name := Exact]);
    s := Checkpoint(calm);
  }

  /** True for an exact submission, false for none; a torn record stops the caller. */
  method Submitted<Name(==)>(ledger: Ledger<Name>, name: Name) returns (s: Status, submitted: bool)
    ensures s.Ok? <==> !ledger.IsTorn(name)
    ensures s.Ok? ==> (submitted <==> ledger.Spent(name))
    ensures s.Stop? ==> s.reason.Ambiguous?
  {
    if name !in ledger.slots {
      return Ok, false;
    }
    if ledger.slots[name].Torn? {
      return Stop(Ambiguous), false;
    }
    return Ok, true;
  }
}
