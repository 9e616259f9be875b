/** What holds when FAILED orders are not triggered again, with any number of executors. */
module ProtocolAttempt {
  import opened Wrappers
  import opened OrderStatus
  import opened Orders
  import opened Protocol
  import opened ProtocolTruth

  // ---- one claim, one signature --------------------------------------------

  /** The order only moves forward: PENDING, TRIGGERED, EXECUTING, and never back to one of these. */
  predicate Phase(r: Row, h: History) {
    && h.triggers <= 1 && h.signings <= h.claims <= 1
    && (r.status == PENDING ==> h.triggers == 0)
    && (r.status == PENDING || r.status == TRIGGERED ==> h.claims == 0)
    && (h.cancelled ==> h.claims == 0 && r.status != PENDING && r.status != TRIGGERED)
    && (r.status == CANCELLED ==> h.cancelled)
    && (r.submittedAt.Some? ==> h.signings == 1)
  }

  ghost predicate OneSignature(cfg: Config, c: Chain, h: History) {
    && (forall x :: Ours(cfg, c, x) ==> h.signings == 1)
    && (forall x, y :: Ours(cfg, c, x) && Ours(cfg, c, y) ==> x == y)
    && (c.consumed ==> h.signings == 1)
  }

  predicate OpPhase(h: History, op: Op) {
    match op
    case CancelRead(s, _) => IsUserCancellable(s)
    case RetriggerRead(_, _) => false
    case ExecClaimed(_) => h.claims == 1 && h.signings == 0
    case ExecSigned(_) => h.signings == 1
    case _ => true
  }

  ghost predicate OpsPhase(h: History, ops: map<nat, Op>) {
    && (forall k :: k in ops ==> OpPhase(h, ops[k]))
    && (forall j, k :: j in ops && k in ops && ops[j].ExecClaimed? && ops[k].ExecClaimed? ==> j == k)
  }

  ghost predicate Attempt(cfg: Config, w: World) {
    Truth(cfg, w) && Phase(w.row, w.history) && OneSignature(cfg, w.chain, w.history) && OpsPhase(w.history, w.ops)
  }

  lemma StepKeepsPhase(cfg: Config, w: World, a: Action)
    requires Attempt(cfg, w)
    ensures Phase(RowAfter(w, a), HistoryAfter(w, a))
  {
    if WriteBy(w, a).Some? {
      assert OpPhase(w.history, w.ops[a.k]);
    }
  }

  /** A transaction with this order's id appears only by a signature. */
  lemma OursBySigning(cfg: Config, w: World, a: Action, x: Hash)
    requires Ours(cfg, ChainAfter(cfg, w, a), x)
    ensures Ours(cfg, w.chain, x) || (Signs(w, a) && x == a.hash)
  {
  }

  /** The id gets consumed only by mining a transaction of this order on time, in a block after the clock less skew. */
  lemma ConsumedByMining(cfg: Config, w: World, a: Action)
    requires !w.chain.consumed && ChainAfter(cfg, w, a).consumed
    ensures a.Mine? && Ours(cfg, w.chain, a.hash) && a.hash in w.chain.network
    ensures 1000 * a.timestamp > w.now - cfg.skewMs && a.timestamp <= w.chain.signed[a.hash].deadline
  {
  }

  lemma StepKeepsOneSignature(cfg: Config, w: World, a: Action)
    requires Attempt(cfg, w)
    ensures OneSignature(cfg, ChainAfter(cfg, w, a), HistoryAfter(w, a))
  {
    var d := ChainAfter(cfg, w, a);
    if Signs(w, a) { assert OpPhase(w.history, w.ops[a.k]); }
    forall x | Ours(cfg, d, x)
      ensures HistoryAfter(w, a).signings == 1
      ensures Ours(cfg, w.chain, x) || (w.history.signings == 0 && x == a.hash)
    {
      OursBySigning(cfg, w, a, x);
    }
    if d.consumed && !w.chain.consumed { ConsumedByMining(cfg, w, a); }
  }

  /** How an operation comes to hold the claim or the signature. */
  lemma NextOpByClaim(cfg: Config, w: World, a: Action, op: Op)
    requires Continues(w, a) && op == w.ops[a.k] && NextOp(cfg, w, op, a).Some?
    ensures var next := NextOp(cfg, w, op, a).value;
      && (next.ExecClaimed? && next != op ==>
            Won(w, a) == Some(EXECUTING) && op.ExecBuilt? && w.row.status == TRIGGERED)
      && (next.ExecSigned? && next != op ==> Signs(w, a))
      && (op.ExecClaimed? && next == op ==> !Signs(w, a))
      && (next.CancelRead? || next.RetriggerRead? ==> next == op)
  {
  }

  lemma NextOpPhase(cfg: Config, w: World, a: Action, op: Op)
    requires Attempt(cfg, w) && OpPhase(w.history, op)
    requires Continues(w, a) && op == w.ops[a.k] && NextOp(cfg, w, op, a).Some?
    ensures OpPhase(HistoryAfter(w, a), NextOp(cfg, w, op, a).value)
    ensures NextOp(cfg, w, op, a).value.ExecClaimed? && !op.ExecClaimed? ==> w.history.claims == 0
  {
    NextOpByClaim(cfg, w, a, op);
    StepKeepsPhase(cfg, w, a);
  }

  lemma BegunOpPhase(cfg: Config, w: World, a: Action)
    requires !cfg.retries && BegunOp(cfg, w, a).Some?
    ensures forall h :: OpPhase(h, BegunOp(cfg, w, a).value)
    ensures !BegunOp(cfg, w, a).value.ExecClaimed?
  {
  }

  lemma OldOpPhase(cfg: Config, w: World, a: Action, k: nat)
    requires Attempt(cfg, w) && k in w.ops && !(Signs(w, a) && k == a.k)
    ensures OpPhase(HistoryAfter(w, a), w.ops[k])
  {
    assert OpPhase(w.history, w.ops[k]);
    StepKeepsPhase(cfg, w, a);
    if Signs(w, a) { assert OpPhase(w.history, w.ops[a.k]); }
  }

  lemma StepKeepsOpsPhase(cfg: Config, w: World, a: Action)
    requires !cfg.retries && Attempt(cfg, w)
    ensures OpsPhase(HistoryAfter(w, a), OpsAfter(cfg, w, a))
  {
    var i, ops := HistoryAfter(w, a), OpsAfter(cfg, w, a);
    forall k | k in ops
      ensures OpPhase(i, ops[k])
      ensures ops[k].ExecClaimed? ==> (k in w.ops && w.ops[k].ExecClaimed?) || (w.history.claims == 0 && k == a.k)
    {
      OpsOneByOne(cfg, w, a, k);
      if k !in w.ops {
        BegunOpPhase(cfg, w, a);
      } else if Continues(w, a) && k == a.k {
        assert OpPhase(w.history, w.ops[k]);
        NextOpPhase(cfg, w, a, w.ops[k]);
      } else {
        OldOpPhase(cfg, w, a, k);
      }
    }
    if w.history.claims == 0 {
      forall k | k in w.ops ensures !w.ops[k].ExecClaimed? { assert OpPhase(w.history, w.ops[k]); }
    }
  }

  lemma StepKeepsAttempt(cfg: Config, w: World, a: Action)
    requires !cfg.retries && Attempt(cfg, w)
    ensures Attempt(cfg, Step(cfg, w, a))
  {
    StepKeepsTruth(cfg, w, a);
    StepKeepsPhase(cfg, w, a);
    StepKeepsOneSignature(cfg, w, a);
    StepKeepsOpsPhase(cfg, w, a);
  }

  lemma {:induction false} RunKeepsAttempt(cfg: Config, w: World, actions: seq<Action>)
    requires !cfg.retries && Attempt(cfg, w)
    ensures Attempt(cfg, Run(cfg, w, actions))
    ensures w.history.cancelled ==> Run(cfg, w, actions).history.cancelled
    decreases |actions|
  {
    if |actions| != 0 {
      StepKeepsAttempt(cfg, w, actions[0]);
      RunKeepsAttempt(cfg, Step(cfg, w, actions[0]), actions[1..]);
    }
  }

  // ---- theorems ------------------------------------------------------------

  /**
   At most once: with any number of concurrent engines, executors and cancels, the
   order is triggered, claimed and signed at most once.
   */
  lemma ClaimedAndSignedAtMostOnce(cfg: Config, terms: Terms, now: int, actions: seq<Action>)
    requires !cfg.retries
    ensures var w := Run(cfg, Start(terms, now), actions);
      && w.history.triggers <= 1 && w.history.claims <= 1 && w.history.signings <= w.history.claims
      && (forall x, y :: Ours(cfg, w.chain, x) && Ours(cfg, w.chain, y) ==> x == y)
  {
    RunKeepsAttempt(cfg, Start(terms, now), actions);
  }

  /** Cancels are honoured: once a cancel is written, no transaction for the order is ever signed, let alone mined. */
  lemma CancelIsFinal(cfg: Config, terms: Terms, now: int, before: seq<Action>, after: seq<Action>)
    requires !cfg.retries
    requires Run(cfg, Start(terms, now), before).history.cancelled
    ensures var w := Run(cfg, Start(terms, now), before + after);
      w.history.signings == 0 && !w.chain.consumed && (forall h :: !Ours(cfg, w.chain, h)) && w.row.status != EXECUTED
  {
    RunConcat(cfg, Start(terms, now), before, after);
    RunKeepsAttempt(cfg, Start(terms, now), before);
    RunKeepsAttempt(cfg, Run(cfg, Start(terms, now), before), after);
  }
}
