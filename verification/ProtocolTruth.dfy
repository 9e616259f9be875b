/** What holds in every run, with any number of executors and any retries. */
module ProtocolTruth {
  import opened Wrappers
  import opened OrderStatus
  import opened Orders
  import opened TransactionMonitor
  import opened Protocol

  // ---- everything the chain shows stays true --------------------------------

  predicate Grows(c: Chain, d: Chain) {
    && (forall h :: h in c.signed ==> h in d.signed && d.signed[h] == c.signed[h])
    && c.network <= d.network
    && (forall h :: h in c.receipts ==> h in d.receipts && d.receipts[h] == c.receipts[h])
    && (c.consumed ==> d.consumed)
  }

  lemma ChainGrows(cfg: Config, w: World, a: Action)
    ensures Grows(w.chain, ChainAfter(cfg, w, a))
  {
  }

  ghost predicate ChainTruth(cfg: Config, c: Chain) {
    && (forall h :: h in c.network ==> h in c.signed)
    && (forall h :: h in c.receipts ==> h in c.network)
    && (forall h :: h in c.receipts && c.receipts[h] && Ours(cfg, c, h) ==> c.consumed)
    && c.swaps == if c.consumed then 1 else 0
  }

  // ---- what an operation in flight knows ------------------------------------

  predicate OutcomeTruth(cfg: Config, c: Chain, o: Outcome) {
    Ours(cfg, c, o.txHash) && (o.SUCCESS? || o.DROPPED_BUT_EXECUTED? ==> c.consumed)
  }

  predicate OpTruth(cfg: Config, c: Chain, op: Op) {
    match op
    case ExecSpent(_) => c.consumed
    case ExecSigned(h) => Ours(cfg, c, h)
    case ExecRecorded(h) => Ours(cfg, c, h)
    case ExecSent(h) => Ours(cfg, c, h)
    case MonRead(h, _) => Ours(cfg, c, h)
    case MonMissing(h, _, _) => Ours(cfg, c, h)
    case MonGone(h, _, _) => Ours(cfg, c, h)
    case MonVerdict(o) => OutcomeTruth(cfg, c, o)
    case LogRead(_, h) => Ours(cfg, c, h) && c.consumed
    case AuditConsumed => c.consumed
    case _ => true
  }

  ghost predicate OpsTruth(cfg: Config, c: Chain, ops: map<nat, Op>) {
    forall k :: k in ops ==> OpTruth(cfg, c, ops[k])
  }

  /** EXECUTED only if the chain agrees; a tracked hash is a transaction carrying this order's id. */
  predicate RowTruth(cfg: Config, c: Chain, r: Row) {
    && (r.status == EXECUTED ==> c.consumed)
    && (r.txHash.Some? ==> Ours(cfg, c, r.txHash.value))
  }

  ghost predicate Truth(cfg: Config, w: World) {
    ChainTruth(cfg, w.chain) && OpsTruth(cfg, w.chain, w.ops) && RowTruth(cfg, w.chain, w.row)
  }

  lemma StepKeepsChainTruth(cfg: Config, w: World, a: Action)
    requires Truth(cfg, w)
    ensures ChainTruth(cfg, ChainAfter(cfg, w, a))
  {
    if Continues(w, a) {
      assert OpTruth(cfg, w.chain, w.ops[a.k]);
    }
  }

  /** The operation a step leaves under a key: as it was, continued, or begun. */
  lemma OpsOneByOne(cfg: Config, w: World, a: Action, k: nat)
    requires k in OpsAfter(cfg, w, a)
    ensures var op := OpsAfter(cfg, w, a)[k];
      || (k in w.ops && op == w.ops[k])
      || (Continues(w, a) && k == a.k && NextOp(cfg, w, w.ops[k], a) == Some(op))
      || (k !in w.ops && BegunOp(cfg, w, a) == Some(op))
  {
  }

  lemma NextExecOpTruth(cfg: Config, w: World, a: Action, op: Op)
    requires Truth(cfg, w) && OpTruth(cfg, w.chain, op) && IsExec(op) && NextExecOp(cfg, w, op, a).Some?
    ensures OpTruth(cfg, ChainAfter(cfg, w, a), NextExecOp(cfg, w, op, a).value) || (op.ExecClaimed? && a.ExecSigns?)
  {
    ChainGrows(cfg, w, a);
  }

  lemma NextMonitorOpTruth(cfg: Config, w: World, a: Action, op: Op)
    requires Truth(cfg, w) && OpTruth(cfg, w.chain, op) && IsMonitor(op) && NextMonitorOp(cfg, w, op, a).Some?
    ensures OpTruth(cfg, ChainAfter(cfg, w, a), NextMonitorOp(cfg, w, op, a).value) || (op.ExecClaimed? && a.ExecSigns?)
  {
    ChainGrows(cfg, w, a);
  }

  lemma NextOtherOpTruth(cfg: Config, w: World, a: Action, op: Op)
    requires Truth(cfg, w) && OpTruth(cfg, w.chain, op) && NextOtherOp(w, op, a).Some?
    ensures OpTruth(cfg, ChainAfter(cfg, w, a), NextOtherOp(w, op, a).value) || (op.ExecClaimed? && a.ExecSigns?)
  {
    ChainGrows(cfg, w, a);
  }

  lemma NextOpTruth(cfg: Config, w: World, a: Action, op: Op)
    requires Truth(cfg, w) && OpTruth(cfg, w.chain, op) && NextOp(cfg, w, op, a).Some?
    ensures OpTruth(cfg, ChainAfter(cfg, w, a), NextOp(cfg, w, op, a).value) || (op.ExecClaimed? && a.ExecSigns?)
  {
    if IsExec(op) && !a.Crash? { NextExecOpTruth(cfg, w, a, op); }
    else if IsMonitor(op) && !a.Crash? { NextMonitorOpTruth(cfg, w, a, op); }
    else { NextOtherOpTruth(cfg, w, a, op); }
  }

  lemma BegunOpTruth(cfg: Config, w: World, a: Action)
    requires Truth(cfg, w) && BegunOp(cfg, w, a).Some?
    ensures OpTruth(cfg, w.chain, BegunOp(cfg, w, a).value)
  {
  }

  lemma OpTruthGrows(cfg: Config, c: Chain, d: Chain, op: Op)
    requires Grows(c, d) && OpTruth(cfg, c, op)
    ensures OpTruth(cfg, d, op)
  {
  }

  lemma StepKeepsOpsTruth(cfg: Config, w: World, a: Action)
    requires Truth(cfg, w)
    ensures OpsTruth(cfg, ChainAfter(cfg, w, a), OpsAfter(cfg, w, a))
  {
    var d, ops := ChainAfter(cfg, w, a), OpsAfter(cfg, w, a);
    ChainGrows(cfg, w, a);
    forall k | k in ops ensures OpTruth(cfg, d, ops[k]) {
      OpsOneByOne(cfg, w, a, k);
      if k in w.ops {
        OpTruthGrows(cfg, w.chain, d, w.ops[k]);
        if ops[k] != w.ops[k] { NextOpTruth(cfg, w, a, w.ops[k]); }
      } else {
        BegunOpTruth(cfg, w, a);
        OpTruthGrows(cfg, w.chain, d, ops[k]);
      }
    }
  }

  /** Whatever a step writes is true of the chain already. */
  lemma WritesTruth(cfg: Config, w: World, a: Action)
    requires Truth(cfg, w)
    ensures RowTruth(cfg, w.chain, RowAfter(w, a))
  {
    if Continues(w, a) {
      assert OpTruth(cfg, w.chain, w.ops[a.k]);
    }
  }

  lemma StepKeepsRowTruth(cfg: Config, w: World, a: Action)
    requires Truth(cfg, w)
    ensures RowTruth(cfg, ChainAfter(cfg, w, a), RowAfter(w, a))
  {
    WritesTruth(cfg, w, a);
    ChainGrows(cfg, w, a);
  }

  lemma StepKeepsTruth(cfg: Config, w: World, a: Action)
    requires Truth(cfg, w)
    ensures Truth(cfg, Step(cfg, w, a))
  {
    StepKeepsChainTruth(cfg, w, a);
    StepKeepsOpsTruth(cfg, w, a);
    StepKeepsRowTruth(cfg, w, a);
  }

  lemma {:induction false} RunKeepsTruth(cfg: Config, w: World, actions: seq<Action>)
    requires Truth(cfg, w)
    ensures Truth(cfg, Run(cfg, w, actions))
    decreases |actions|
  {
    if |actions| != 0 {
      StepKeepsTruth(cfg, w, actions[0]);
      RunKeepsTruth(cfg, Step(cfg, w, actions[0]), actions[1..]);
    }
  }

  // ---- theorems ------------------------------------------------------------

  /**
   EXECUTED is never a lie: with any executors and retries, in every reachable
   state, an EXECUTED row's id is consumed on chain, whichever of the writers put
   it there, and a tracked hash carries the order's id.
   */
  lemma ExecutedIsNeverALie(cfg: Config, terms: Terms, now: int, actions: seq<Action>)
    ensures var w := Run(cfg, Start(terms, now), actions);
      && (w.row.status == EXECUTED ==> w.chain.consumed)
      && (w.row.txHash.Some? ==> Ours(cfg, w.chain, w.row.txHash.value))
  {
    RunKeepsTruth(cfg, Start(terms, now), actions);
  }

  /** At most one swap ever lands for the id, and exactly one once it is consumed. */
  lemma AtMostOneSwap(cfg: Config, terms: Terms, now: int, actions: seq<Action>)
    ensures var c := Run(cfg, Start(terms, now), actions).chain;
      c.swaps <= 1 && (c.consumed <==> c.swaps == 1)
  {
    RunKeepsTruth(cfg, Start(terms, now), actions);
  }

  /** Evidence on the row is never erased. */
  lemma {:induction false} RunKeepsEvidence(cfg: Config, w: World, actions: seq<Action>)
    ensures w.row.txHash.Some? ==> Run(cfg, w, actions).row.txHash.Some?
    ensures w.row.submittedAt.Some? ==> Run(cfg, w, actions).row.submittedAt.Some?
    decreases |actions|
  {
    if |actions| != 0 {
      assert w.row.txHash.Some? ==> RowAfter(w, actions[0]).txHash.Some?;
      assert w.row.submittedAt.Some? ==> RowAfter(w, actions[0]).submittedAt.Some?;
      RunKeepsEvidence(cfg, Step(cfg, w, actions[0]), actions[1..]);
    }
  }
}
