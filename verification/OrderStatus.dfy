/** The documented table of legal order transitions. */
module OrderStatus {
  datatype Status = PENDING | TRIGGERED | EXECUTING | EXECUTED | FAILED | CANCELLED

  function AllowedTransitions(from: Status): set<Status> {
    match from
    case PENDING => {TRIGGERED, CANCELLED}
    case TRIGGERED => {EXECUTING, CANCELLED, FAILED}
    case EXECUTING => {EXECUTED, FAILED}
    case FAILED => {TRIGGERED}
    case EXECUTED => {}
    case CANCELLED => {}
  }

  predicate CanTransition(from: Status, to: Status) { to in AllowedTransitions(from) }

  /** What may come before each status. Nothing leads back to PENDING, and only EXECUTING leads to EXECUTED. */
  lemma WhatMayPrecede(from: Status)
    ensures !CanTransition(from, PENDING)
    ensures CanTransition(from, TRIGGERED) <==> from == PENDING || from == FAILED
    ensures CanTransition(from, EXECUTING) <==> from == TRIGGERED
    ensures CanTransition(from, EXECUTED) <==> from == EXECUTING
    ensures CanTransition(from, FAILED) <==> from == TRIGGERED || from == EXECUTING
    ensures CanTransition(from, CANCELLED) <==> from == PENDING || from == TRIGGERED
  {
  }

  /** Agrees with the table: terminal means nothing may follow. */
  predicate IsTerminal(s: Status): (r: bool)
    ensures r <==> forall to :: !CanTransition(s, to)
  {
    assert CanTransition(s, TRIGGERED) || CanTransition(s, FAILED) || AllowedTransitions(s) == {};
    s in {EXECUTED, CANCELLED}
  }

  /** Agrees with the table: cancellable means CANCELLED may follow. */
  predicate IsUserCancellable(s: Status): (r: bool)
    ensures r <==> CanTransition(s, CANCELLED)
  {
    s in {PENDING, TRIGGERED}
  }
}
