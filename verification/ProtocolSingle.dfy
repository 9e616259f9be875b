/** What holds when, besides, at most one executor is live at a time. */
module ProtocolSingle {
  import opened Wrappers
  import opened OrderStatus
  import opened Orders
  import opened Protocol
  import opened ProtocolTruth
  import opened ProtocolAttempt

  predicate Evidence(r: Row) { r.txHash.Some? && r.submittedAt.Some? }

  /** Between the claim and the record nothing moves the row; a monitor only ever sees a recorded row. */
  predicate OpRecorded(r: Row, op: Op) {
    match op
    case ExecClaimed(_) => r.status == EXECUTING && r.txHash.None?
    case ExecSigned(_) => r.status == EXECUTING && r.txHash.None?
    case ExecRecorded(_) => Evidence(r)
    case ExecSent(_) => Evidence(r)
    case MonNever => false
    case _ => IsMonitor(op) ==> Evidence(r)
  }

  ghost predicate AtMostOneExecutor(ops: map<nat, Op>) {
    forall j, k :: j in ops && k in ops && IsExec(ops[j]) && IsExec(ops[k]) ==> j == k
  }

  ghost predicate Persisted(cfg: Config, w: World) {
    && (forall h :: h in w.chain.network && Ours(cfg, w.chain, h) ==> Evidence(w.row))
    && (w.chain.consumed ==> Evidence(w.row))
    && (w.row.txHash.Some? <==> w.row.submittedAt.Some?)
    && (w.monitorKnows ==> Evidence(w.row))
    && (forall k :: k in w.ops ==> OpRecorded(w.row, w.ops[k]))
    && AtMostOneExecutor(w.ops)
  }

  lemma ExecStaysExec(cfg: Config, w: World, a: Action, op: Op)
    requires IsExec(op) && NextExecOp(cfg, w, op, a).Some?
    ensures IsExec(NextExecOp(cfg, w, op, a).value)
  {
  }

  lemma MonitorStaysMonitor(cfg: Config, w: World, a: Action, op: Op)
    requires IsMonitor(op) && NextMonitorOp(cfg, w, op, a).Some?
    ensures IsMonitor(NextMonitorOp(cfg, w, op, a).value)
  {
  }

  lemma NextOpKind(cfg: Config, w: World, a: Action, op: Op)
    requires NextOp(cfg, w, op, a).Some?
    ensures IsExec(NextOp(cfg, w, op, a).value) <==> IsExec(op)
    ensures IsMonitor(NextOp(cfg, w, op, a).value) <==> IsMonitor(op)
  {
    if IsExec(op) && !a.Crash? { ExecStaysExec(cfg, w, a, op); }
    else if IsMonitor(op) && !a.Crash? { MonitorStaysMonitor(cfg, w, a, op); }
  }

  lemma StepKeepsOneExecutor(cfg: Config, w: World, a: Action)
    requires cfg.singleExecutor && AtMostOneExecutor(w.ops)
    ensures AtMostOneExecutor(OpsAfter(cfg, w, a))
  {
    var ops := OpsAfter(cfg, w, a);
    forall k | k in ops && IsExec(ops[k])
      ensures (k in w.ops && IsExec(w.ops[k])) || (k == a.k && forall j :: j in w.ops ==> !IsExec(w.ops[j]))
    {
      OpsOneByOne(cfg, w, a, k);
      if Continues(w, a) && k == a.k { NextOpKind(cfg, w, a, w.ops[k]); }
    }
  }

  /** While a claimer has not recorded its hash, no write but its own record matches the row. */
  lemma NobodyMovesTheRow(cfg: Config, w: World, a: Action, k: nat)
    requires Attempt(cfg, w) && Persisted(cfg, w)
    requires k in w.ops && (w.ops[k].ExecClaimed? || (w.ops[k].ExecSigned? && !(a.ExecRecords? && a.k == k)))
    ensures RowAfter(w, a) == w.row
  {
    assert OpRecorded(w.row, w.ops[k]);
    if WriteBy(w, a).Some? {
      var op := w.ops[a.k];
      assert OpRecorded(w.row, op) && OpPhase(w.history, op) && OpTruth(cfg, w.chain, op);
      assert a.k != k ==> !IsExec(op);
    }
  }

  lemma EvidenceAfter(w: World, a: Action)
    requires Evidence(w.row)
    ensures Evidence(RowAfter(w, a))
  {
  }

  lemma OldOpRecorded(cfg: Config, w: World, a: Action, k: nat)
    requires Attempt(cfg, w) && Persisted(cfg, w)
    requires k in w.ops && !(a.ExecRecords? && a.k == k && w.ops[k].ExecSigned?)
    ensures OpRecorded(RowAfter(w, a), w.ops[k])
  {
    assert OpRecorded(w.row, w.ops[k]);
    if Evidence(w.row) { EvidenceAfter(w, a); }
    if w.ops[k].ExecClaimed? || w.ops[k].ExecSigned? { NobodyMovesTheRow(cfg, w, a, k); }
  }

  /** An order that was never signed has neither hash nor submission time. */
  lemma UnsignedHasNoEvidence(cfg: Config, w: World)
    requires Attempt(cfg, w) && w.history.signings == 0
    ensures w.row.txHash.None? && w.row.submittedAt.None?
  {
  }

  /** A claim finds a row without evidence, and leaves it so. */
  lemma ClaimRecorded(cfg: Config, w: World, a: Action, op: Op)
    requires Attempt(cfg, w) && Persisted(cfg, w) && a.ExecClaims? && op.ExecBuilt?
    requires Continues(w, a) && op == w.ops[a.k] && NextExecOp(cfg, w, op, a).Some?
    ensures OpRecorded(RowAfter(w, a), NextExecOp(cfg, w, op, a).value)
  {
    if w.row.status == TRIGGERED { UnsignedHasNoEvidence(cfg, w); }
  }

  lemma NextExecOpRecorded(cfg: Config, w: World, a: Action, op: Op)
    requires Attempt(cfg, w) && Persisted(cfg, w) && IsExec(op)
    requires Continues(w, a) && op == w.ops[a.k] && NextExecOp(cfg, w, op, a).Some?
    ensures OpRecorded(RowAfter(w, a), NextExecOp(cfg, w, op, a).value)
  {
    if op.ExecBuilt? && a.ExecClaims? {
      ClaimRecorded(cfg, w, a, op);
    } else {
      assert OpRecorded(w.row, op);
      if !(a.ExecRecords? && op.ExecSigned?) { OldOpRecorded(cfg, w, a, a.k); }
    }
  }

  lemma NextMonitorOpRecorded(cfg: Config, w: World, a: Action, op: Op)
    requires IsMonitor(op) && OpRecorded(w.row, op) && NextMonitorOp(cfg, w, op, a).Some?
    ensures OpRecorded(RowAfter(w, a), NextMonitorOp(cfg, w, op, a).value)
  {
    MonitorStaysMonitor(cfg, w, a, op);
    EvidenceAfter(w, a);
  }

  lemma NextOpRecorded(cfg: Config, w: World, a: Action, op: Op)
    requires Attempt(cfg, w) && Persisted(cfg, w)
    requires Continues(w, a) && op == w.ops[a.k] && NextOp(cfg, w, op, a).Some?
    ensures OpRecorded(RowAfter(w, a), NextOp(cfg, w, op, a).value)
  {
    if IsExec(op) && !a.Crash? {
      NextExecOpRecorded(cfg, w, a, op);
    } else if IsMonitor(op) && !a.Crash? {
      assert OpRecorded(w.row, op);
      NextMonitorOpRecorded(cfg, w, a, op);
    } else {
      NextOpKind(cfg, w, a, op);
    }
  }

  lemma BegunOpRecorded(cfg: Config, w: World, a: Action)
    requires Persisted(cfg, w) && BegunOp(cfg, w, a).Some?
    ensures OpRecorded(w.row, BegunOp(cfg, w, a).value)
    ensures !BegunOp(cfg, w, a).value.ExecClaimed? && !BegunOp(cfg, w, a).value.ExecSigned?
  {
  }

  lemma OpRecordedAfter(cfg: Config, w: World, a: Action, k: nat)
    requires Attempt(cfg, w) && Persisted(cfg, w) && k in OpsAfter(cfg, w, a)
    ensures OpRecorded(RowAfter(w, a), OpsAfter(cfg, w, a)[k])
  {
    OpsOneByOne(cfg, w, a, k);
    if k !in w.ops {
      BegunOpRecorded(cfg, w, a);
      assert WriteBy(w, a).None?;
    } else if Continues(w, a) && k == a.k {
      NextOpRecorded(cfg, w, a, w.ops[k]);
    } else {
      OldOpRecorded(cfg, w, a, k);
    }
  }

  lemma NetworkRecorded(cfg: Config, w: World, a: Action, h: Hash)
    requires Attempt(cfg, w) && Persisted(cfg, w)
    requires h in ChainAfter(cfg, w, a).network && Ours(cfg, ChainAfter(cfg, w, a), h)
    ensures Evidence(RowAfter(w, a))
  {
    OursBySigning(cfg, w, a, h);
    if Continues(w, a) { assert OpRecorded(w.row, w.ops[a.k]); }
    if Evidence(w.row) { EvidenceAfter(w, a); }
  }

  lemma OpsRecordedAfter(cfg: Config, w: World, a: Action)
    requires Attempt(cfg, w) && Persisted(cfg, w)
    ensures forall k :: k in OpsAfter(cfg, w, a) ==> OpRecorded(RowAfter(w, a), OpsAfter(cfg, w, a)[k])
    ensures forall h :: h in ChainAfter(cfg, w, a).network && Ours(cfg, ChainAfter(cfg, w, a), h) ==>
              Evidence(RowAfter(w, a))
  {
    forall k | k in OpsAfter(cfg, w, a) ensures OpRecorded(RowAfter(w, a), OpsAfter(cfg, w, a)[k]) {
      OpRecordedAfter(cfg, w, a, k);
    }
    forall h | h in ChainAfter(cfg, w, a).network && Ours(cfg, ChainAfter(cfg, w, a), h)
      ensures Evidence(RowAfter(w, a))
    {
      NetworkRecorded(cfg, w, a, h);
    }
  }

  lemma StepKeepsPersisted(cfg: Config, w: World, a: Action)
    requires cfg.singleExecutor && Attempt(cfg, w) && Persisted(cfg, w)
    ensures Persisted(cfg, Step(cfg, w, a))
  {
    var v := Step(cfg, w, a);
    OpsRecordedAfter(cfg, w, a);
    StepKeepsOneExecutor(cfg, w, a);
    if v.chain.consumed || v.monitorKnows { FlagsRecorded(cfg, w, a); }
    EvidenceTogether(cfg, w, a);
  }

  /** Hash and submission time come together. */
  lemma EvidenceTogether(cfg: Config, w: World, a: Action)
    requires Attempt(cfg, w) && Persisted(cfg, w)
    ensures RowAfter(w, a).txHash.Some? <==> RowAfter(w, a).submittedAt.Some?
  {
    if Continues(w, a) { assert OpRecorded(w.row, w.ops[a.k]) && OpTruth(cfg, w.chain, w.ops[a.k]); }
  }

  lemma FlagsRecorded(cfg: Config, w: World, a: Action)
    requires Attempt(cfg, w) && Persisted(cfg, w)
    requires ChainAfter(cfg, w, a).consumed || KnowsAfter(cfg, w, a)
    ensures Evidence(RowAfter(w, a))
  {
    if Continues(w, a) { assert OpRecorded(w.row, w.ops[a.k]); }
    if ChainAfter(cfg, w, a).consumed && !w.chain.consumed { ConsumedByMining(cfg, w, a); }
    EvidenceAfter(w, a);
  }

  lemma {:induction false} RunKeepsPersisted(cfg: Config, w: World, actions: seq<Action>)
    requires cfg.singleExecutor && !cfg.retries && Attempt(cfg, w) && Persisted(cfg, w)
    ensures Persisted(cfg, Run(cfg, w, actions)) && Attempt(cfg, Run(cfg, w, actions))
    decreases |actions|
  {
    if |actions| != 0 {
      StepKeepsAttempt(cfg, w, actions[0]);
      StepKeepsPersisted(cfg, w, actions[0]);
      RunKeepsPersisted(cfg, Step(cfg, w, actions[0]), actions[1..]);
    }
  }

  /**
   Persist before broadcast: over every interleaving and crash point, whenever a
   transaction of the order is on the network, the row already holds that very
   hash and a submission time, and any continuation of the run keeps it so.
   */
  lemma PersistBeforeBroadcast(cfg: Config, terms: Terms, now: int, before: seq<Action>, after: seq<Action>, h: Hash)
    requires cfg.singleExecutor && !cfg.retries
    requires var w := Run(cfg, Start(terms, now), before); h in w.chain.network && Ours(cfg, w.chain, h)
    ensures var w := Run(cfg, Start(terms, now), before); w.row.txHash == Some(h) && w.row.submittedAt.Some?
    ensures var w := Run(cfg, Start(terms, now), before + after); w.row.txHash == Some(h) && w.row.submittedAt.Some?
  {
    var w := Run(cfg, Start(terms, now), before);
    RunKeepsPersisted(cfg, Start(terms, now), before);
    RunConcat(cfg, Start(terms, now), before, after);
    RunKeepsAttempt(cfg, w, after);
    RunKeepsEvidence(cfg, w, after);
    RunKeepsOurs(cfg, w, after, h);
  }

  lemma {:induction false} RunKeepsOurs(cfg: Config, w: World, actions: seq<Action>, h: Hash)
    requires Ours(cfg, w.chain, h)
    ensures Ours(cfg, Run(cfg, w, actions).chain, h)
    decreases |actions|
  {
    if |actions| != 0 {
      ChainGrows(cfg, w, actions[0]);
      RunKeepsOurs(cfg, Step(cfg, w, actions[0]), actions[1..], h);
    }
  }

  /**
   The FAILED audit hides nothing: every reachable FAILED order whose id is
   consumed has the evidence that the audit asks for before it looks at the chain,
   the ones produced by the handleFailure race included.
   */
  lemma FailedButConsumedHasEvidence(cfg: Config, terms: Terms, now: int, actions: seq<Action>)
    requires cfg.singleExecutor && !cfg.retries
    ensures var w := Run(cfg, Start(terms, now), actions);
      w.row.status == FAILED && w.chain.consumed ==> w.row.txHash.Some? && w.row.submittedAt.Some?
  {
    RunKeepsPersisted(cfg, Start(terms, now), actions);
  }

  /**
   Exactly when FAILED is returned although a transaction of the order is on the
   network: at the error handler's re-read, the row is no longer EXECUTING. It is
   then EXECUTED or FAILED, by somebody else's hand.
   */
  lemma FailedThoughSentExactly(cfg: Config, terms: Terms, now: int, actions: seq<Action>, k: nat, h: Hash)
    requires cfg.singleExecutor && !cfg.retries
    requires var w := Run(cfg, Start(terms, now), actions);
             k in w.ops && w.ops[k].ExecFailing? && h in w.chain.network && Ours(cfg, w.chain, h)
    ensures var w := Run(cfg, Start(terms, now), actions);
      && NextOp(cfg, w, w.ops[k], ExecRereads(k))
         == (if w.row.status == EXECUTING then None else Some(ExecFailRead(w.row.status, w.row.version)))
      && w.row.status in {EXECUTING, EXECUTED, FAILED}
  {
    RunKeepsPersisted(cfg, Start(terms, now), actions);
    RereadDecides(cfg, Run(cfg, Start(terms, now), actions), k, h);
  }

  lemma RereadDecides(cfg: Config, w: World, k: nat, h: Hash)
    requires Attempt(cfg, w) && Persisted(cfg, w)
    requires k in w.ops && w.ops[k].ExecFailing? && h in w.chain.network && Ours(cfg, w.chain, h)
    ensures NextExecOp(cfg, w, w.ops[k], ExecRereads(k))
         == (if w.row.status == EXECUTING then None else Some(ExecFailRead(w.row.status, w.row.version)))
    ensures w.row.status in {EXECUTING, EXECUTED, FAILED}
  {
  }
}
