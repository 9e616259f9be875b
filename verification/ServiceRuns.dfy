/**
 What the services do to one row is a run of the protocol: the monitor and the
 reconciler undisturbed, cancels and claims with others writing in between.
 */
module ServiceRuns {
  import opened Wrappers
  import opened OrderStatus
  import opened Orders
  import opened TransactionMonitor
  import opened LogScan
  import opened OrderRepo
  import opened Protocol
  import opened Reconciliation
  import OrderService
  import ProtocolAttempt
  import TriggerEngine

  /** The answers are true of the chain, and the clock and the grace period are the ones of the protocol. */
  predicate Observes(cfg: Config, w: World, env: Env) {
    && env.now == w.now && env.graceMs == cfg.graceMs && w.row.terms.executionId == cfg.executionId
    && (w.row.txHash.Some? ==> TruthfulReceipt(w.chain, w.row.txHash.value, env.receiptOf(w.row.txHash.value)))
    && TruthfulContract(w.chain, env.isExecuted(cfg.executionId))
  }

  /** `w` with operation `op` in flight. */
  function With(w: World, k: nat, op: Op): World { w.(ops := w.ops[k := op]) }

  predicate IsQuestion(a: Action) { a.MonReceipt? || a.MonMempool? || a.MonContract? || a.AuditProbes? }

  /** Asking changes nothing but what is known. */
  lemma AskingOnly(cfg: Config, w: World, a: Action)
    requires IsQuestion(a)
    ensures RowAfter(w, a) == w.row && ChainAfter(cfg, w, a) == w.chain && HistoryAfter(w, a) == w.history
    ensures KnowsAfter(cfg, w, a) == w.monitorKnows && HandedOffAfter(w, a) == w.handedOff
  {
  }

  lemma Learns(cfg: Config, w: World, k: nat, op: Op, a: Action, next: Op)
    requires IsQuestion(a) && a.k == k
    requires NextOp(cfg, With(w, k, op), op, a) == Some(next)
    ensures Step(cfg, With(w, k, op), a) == With(w, k, next)
  {
    AskingOnly(cfg, With(w, k, op), a);
    assert w.ops[k := op][k := next] == w.ops[k := next];
  }

  lemma Begins(cfg: Config, w: World, a: Action, op: Op)
    requires a.MonReads? || a.LogReads? || a.AuditLists?
    requires a.k !in w.ops && BegunOp(cfg, w, a) == Some(op)
    ensures Step(cfg, w, a) == With(w, a.k, op)
  {
  }

  lemma Applies(cfg: Config, w: World, k: nat, o: Outcome)
    ensures var v := Step(cfg, With(w, k, MonVerdict(o)), MonApplies(k));
      && v.chain == w.chain
      && v.row == match Resolution(o, w.now) case Some(write) => Apply(w.row, write) case None => w.row
  {
  }

  predicate CanAsk(cfg: Config, w: World, k: nat, env: Env) {
    && Observes(cfg, w, env) && k !in w.ops && w.monitorKnows
    && w.row.status == EXECUTING && w.row.txHash.Some? && w.row.submittedAt.Some?
  }

  /** The stuck query selects the row exactly if the sweep of the protocol tells the monitor of the order. */
  lemma StuckFilterAgrees(cfg: Config, w: World)
    ensures Selects(StuckExecuting(cfg.stuckAfterMs, w.now), w.row) <==>
            Step(cfg, w.(monitorKnows := false), SweepFinds).monitorKnows
  {
  }

  /** The questions that getOutcome asks, in order, end in its answer. */
  lemma Asks(cfg: Config, w: World, k: nat, env: Env) returns (actions: seq<Action>)
    requires CanAsk(cfg, w, k, env)
    ensures Run(cfg, w, actions) == With(w, k, MonVerdict(OutcomeOf(env, w.row)))
  {
    var hash, at := w.row.txHash.value, w.row.submittedAt.value;
    var r := env.receiptOf(hash);
    Begins(cfg, w, MonReads(k), MonRead(hash, at));
    RunSnoc(cfg, w, [], MonReads(k));
    RunSnoc(cfg, w, [] + [MonReads(k)], MonReceipt(k, r));
    actions := [] + [MonReads(k)] + [MonReceipt(k, r)];
    if r.ReceiptNotFound? {
      Learns(cfg, w, k, MonRead(hash, at), MonReceipt(k, r), MonMissing(hash, at, w.now));
      actions := AsksFurther(cfg, w, k, env, actions);
    } else {
      Learns(cfg, w, k, MonRead(hash, at), MonReceipt(k, r), MonVerdict(OutcomeOf(env, w.row)));
    }
  }

  lemma AsksFurther(cfg: Config, w: World, k: nat, env: Env, asked: seq<Action>) returns (actions: seq<Action>)
    requires CanAsk(cfg, w, k, env) && env.receiptOf(w.row.txHash.value).ReceiptNotFound?
    requires Run(cfg, w, asked) == With(w, k, MonMissing(w.row.txHash.value, w.row.submittedAt.value, w.now))
    ensures Run(cfg, w, actions) == With(w, k, MonVerdict(OutcomeOf(env, w.row)))
  {
    var hash, at := w.row.txHash.value, w.row.submittedAt.value;
    var m := env.mempoolOf(hash);
    RunSnoc(cfg, w, asked, MonMempool(k, m));
    actions := asked + [MonMempool(k, m)];
    if m.NotVisible? && w.now - at >= cfg.graceMs {
      Learns(cfg, w, k, MonMissing(hash, at, w.now), MonMempool(k, m), MonGone(hash, at, w.now));
      actions := AsksTheContract(cfg, w, k, env, actions);
    } else {
      Learns(cfg, w, k, MonMissing(hash, at, w.now), MonMempool(k, m), MonVerdict(OutcomeOf(env, w.row)));
    }
  }

  lemma AsksTheContract(cfg: Config, w: World, k: nat, env: Env, asked: seq<Action>) returns (actions: seq<Action>)
    requires CanAsk(cfg, w, k, env) && env.receiptOf(w.row.txHash.value).ReceiptNotFound?
    requires env.mempoolOf(w.row.txHash.value).NotVisible? && w.now - w.row.submittedAt.value >= cfg.graceMs
    requires Run(cfg, w, asked) == With(w, k, MonGone(w.row.txHash.value, w.row.submittedAt.value, w.now))
    ensures Run(cfg, w, actions) == With(w, k, MonVerdict(OutcomeOf(env, w.row)))
  {
    var c := MonContract(k, env.isExecuted(cfg.executionId));
    RunSnoc(cfg, w, asked, c);
    actions := asked + [c];
    var gone := MonGone(w.row.txHash.value, w.row.submittedAt.value, w.now);
    Learns(cfg, w, k, gone, c, MonVerdict(OutcomeOf(env, w.row)));
  }

  /** TxMonitorService.check, undisturbed, is a run of the protocol. */
  lemma CheckIsARun(cfg: Config, w: World, k: nat, env: Env) returns (actions: seq<Action>)
    requires Observes(cfg, w, env) && k !in w.ops && w.monitorKnows
    ensures Run(cfg, w, actions).row == Checked(env, w.row) && Run(cfg, w, actions).chain == w.chain
  {
    if w.row.status != EXECUTING {
      actions := [];
    } else if w.row.txHash.None? || w.row.submittedAt.None? {
      Begins(cfg, w, MonReads(k), MonNever);
      RunSnoc(cfg, w, [], MonReads(k));
      RunSnoc(cfg, w, [] + [MonReads(k)], MonNeverFails(k));
      actions := [] + [MonReads(k)] + [MonNeverFails(k)];
    } else {
      actions := Asks(cfg, w, k, env);
      RunSnoc(cfg, w, actions, MonApplies(k));
      Applies(cfg, w, k, OutcomeOf(env, w.row));
      actions := actions + [MonApplies(k)];
    }
  }

  /** The FAILED audit of one row, undisturbed, is a run of the protocol, if the chain answers. */
  lemma AuditIsARun(cfg: Config, w: World, k: nat, env: Env) returns (actions: seq<Action>)
    requires Observes(cfg, w, env) && k !in w.ops && !env.isExecuted(cfg.executionId).ContractError?
    ensures Run(cfg, w, actions).row == Audited(env, w.row) && Run(cfg, w, actions).chain == w.chain
  {
    if Audited(env, w.row) == w.row { return []; }
    actions := AuditAsks(cfg, w, k);
    RunSnoc(cfg, w, actions, AuditWrites(k));
    AuditStep(cfg, w, k);
    actions := actions + [AuditWrites(k)];
  }

  lemma AuditAsks(cfg: Config, w: World, k: nat) returns (actions: seq<Action>)
    requires k !in w.ops && w.row.status == FAILED && HasEvidence(w.row) && w.chain.consumed
    ensures Run(cfg, w, actions) == With(w, k, AuditConsumed)
  {
    actions := [] + [AuditLists(k)] + [AuditProbes(k)];
    RunSnoc(cfg, w, [], AuditLists(k));
    RunSnoc(cfg, w, [] + [AuditLists(k)], AuditProbes(k));
    Begins(cfg, w, AuditLists(k), AuditRead);
    Learns(cfg, w, k, AuditRead, AuditProbes(k), AuditConsumed);
  }

  lemma AuditStep(cfg: Config, w: World, k: nat)
    ensures var v := Step(cfg, With(w, k, AuditConsumed), AuditWrites(k));
      v.chain == w.chain && v.row == Apply(w.row, ForceExecuted(FAILED, None, None, None, w.now))
  {
  }

  /** Applying a log that the chain really emitted for the order is a run of the protocol. */
  lemma LogIsARun(cfg: Config, w: World, k: nat, log: SwapLog) returns (actions: seq<Action>)
    requires k !in w.ops && w.row.terms.executionId == cfg.executionId
    requires log.executionId == cfg.executionId ==> HasLog(cfg, w.chain, log.txHash)
    ensures Run(cfg, w, actions).row == LogApplied(w.now, log, w.row) && Run(cfg, w, actions).chain == w.chain
  {
    if log.executionId != cfg.executionId || w.row.status == EXECUTED { return []; }
    Begins(cfg, w, LogReads(k, log.txHash), LogRead(w.row.status, log.txHash));
    RunSnoc(cfg, w, [], LogReads(k, log.txHash));
    actions := [] + [LogReads(k, log.txHash)];
    RunSnoc(cfg, w, actions, LogWrites(k, log.blockNumber, log.amountOut));
    LogStep(cfg, w, k, log);
    actions := actions + [LogWrites(k, log.blockNumber, log.amountOut)];
  }

  lemma LogStep(cfg: Config, w: World, k: nat, log: SwapLog)
    ensures var read := LogRead(w.row.status, log.txHash);
            var v := Step(cfg, With(w, k, read), LogWrites(k, log.blockNumber, log.amountOut));
      && v.chain == w.chain
      && v.row == Apply(w.row, ForceExecuted(w.row.status, Some(log.txHash), Some(log.blockNumber),
                                             Some(log.amountOut), w.now))
  {
  }

  // ---- a read, whatever happens in between, and a write ----------------------------

  /** The writes that a run issues to the row, in order. */
  function WritesIn(cfg: Config, w: World, actions: seq<Action>): seq<Write>
    decreases |actions|
  {
    if |actions| == 0 then []
    else
      var write := WriteBy(w, actions[0]);
      (if write.Some? then [write.value] else []) + WritesIn(cfg, Step(cfg, w, actions[0]), actions[1..])
  }

  lemma {:induction false} RowOfRun(cfg: Config, w: World, actions: seq<Action>)
    ensures Run(cfg, w, actions).row == ApplyAll(w.row, WritesIn(cfg, w, actions))
    decreases |actions|
  {
    if |actions| != 0 {
      var rest := WritesIn(cfg, Step(cfg, w, actions[0]), actions[1..]);
      RowOfRun(cfg, Step(cfg, w, actions[0]), actions[1..]);
      if WriteBy(w, actions[0]).Some? {
        assert ([WriteBy(w, actions[0]).value] + rest)[1..] == rest;
      } else {
        assert [] + rest == rest;
      }
    }
  }

  /** In the order table, the others write to this order what the actors of the run write to its row. */
  ghost predicate Mirrors(cfg: Config, w: World, between: seq<Action>, rows: map<OrderId, Row>, id: OrderId,
                          others: seq<Event>)
  {
    id in rows && rows[id] == w.row && WritesTo(id, others) == WritesIn(cfg, w, between)
  }

  /** An operation begins, others do anything, and it is where it was on the row that they left. */
  lemma InBetween(cfg: Config, w: World, a: Action, op: Op, between: seq<Action>, rows: map<OrderId, Row>,
                  id: OrderId, others: seq<Event>)
    requires !a.Tick? && !a.ForeignTx? && !a.Mine? && !a.SweepFinds? && a.k !in w.ops && BegunOp(cfg, w, a) == Some(op)
    requires forall i :: 0 <= i < |between| ==> Elsewhere(a.k, between[i])
    requires Mirrors(cfg, Step(cfg, w, a), between, rows, id, others) && Step(cfg, w, a).row == w.row
    ensures var v := Run(cfg, w, [] + [a] + between);
            a.k in v.ops && v.ops[a.k] == op && v.row == Play(rows, others)[id]
  {
    var begun := Step(cfg, w, a);
    RunThen(cfg, w, [], a, between);
    OwnOpStays(cfg, begun, between, a.k);
    RowOfRun(cfg, begun, between);
    PlayRow(rows, others, id);
  }

  /**
   OrderService.cancelOrder of a cancellable order, with anything in between, is a run
   of the protocol: it ends in the row that the service reports, and with the cancel
   on record exactly if the service reports success.
   */
  lemma CancelIsARun(cfg: Config, w: World, k: nat, between: seq<Action>, rows: map<OrderId, Row>, id: OrderId,
                     others: seq<Event>)
    requires k !in w.ops && IsUserCancellable(w.row.status)
    requires forall i :: 0 <= i < |between| ==> Elsewhere(k, between[i])
    requires Mirrors(cfg, Step(cfg, w, CancelReads(k)), between, rows, id, others)
    ensures var v := Run(cfg, w, [] + [CancelReads(k)] + between); var now := Play(rows, others)[id];
            var z := Run(cfg, w, [] + [CancelReads(k)] + between + [CancelWrites(k)]);
      && z.row == (if OrderService.Untouched(rows, id, others) then OrderService.Swapped(now, CANCELLED, None) else now)
      && (z.history.cancelled <==> v.history.cancelled || OrderService.Untouched(rows, id, others))
  {
    var op := CancelRead(w.row.status, w.row.version);
    var v := Run(cfg, w, [] + [CancelReads(k)] + between);
    InBetween(cfg, w, CancelReads(k), op, between, rows, id, others);
    RunSnoc(cfg, w, [] + [CancelReads(k)] + between, CancelWrites(k));
    PlayRow(rows, others, id);
    TransitionMeansUntouched(w.row, WritesTo(id, others), CANCELLED, None);
    CancelStep(cfg, v, k, op);
  }

  lemma CancelStep(cfg: Config, v: World, k: nat, op: Op)
    requires k in v.ops && v.ops[k] == op && op.CancelRead?
    ensures var write := Transition(op.status, op.version, CANCELLED); var z := Step(cfg, v, CancelWrites(k));
      z.row == Apply(v.row, write) && (z.history.cancelled <==> v.history.cancelled || Matches(v.row, write))
  {
  }

  /** And so is markTriggered of a PENDING or, as a retry, of a FAILED order. */
  lemma RetriggerIsARun(cfg: Config, w: World, k: nat, between: seq<Action>, rows: map<OrderId, Row>, id: OrderId,
                        others: seq<Event>)
    requires cfg.retries && k !in w.ops && w.row.status in {PENDING, FAILED}
    requires forall i :: 0 <= i < |between| ==> Elsewhere(k, between[i])
    requires Mirrors(cfg, Step(cfg, w, RetriggerReads(k)), between, rows, id, others)
    ensures var now := Play(rows, others)[id];
            var z := Run(cfg, w, [] + [RetriggerReads(k)] + between + [RetriggerWrites(k)]);
      z.row == if OrderService.Untouched(rows, id, others) then OrderService.Swapped(now, TRIGGERED, None) else now
  {
    var op := RetriggerRead(w.row.status, w.row.version);
    var v := Run(cfg, w, [] + [RetriggerReads(k)] + between);
    InBetween(cfg, w, RetriggerReads(k), op, between, rows, id, others);
    RunSnoc(cfg, w, [] + [RetriggerReads(k)] + between, RetriggerWrites(k));
    PlayRow(rows, others, id);
    TransitionMeansUntouched(w.row, WritesTo(id, others), TRIGGERED, None);
    RetriggerStep(cfg, v, k, op);
  }

  lemma RetriggerStep(cfg: Config, v: World, k: nat, op: Op)
    requires k in v.ops && v.ops[k] == op && op.RetriggerRead?
    ensures Step(cfg, v, RetriggerWrites(k)).row == Apply(v.row, Transition(op.status, op.version, TRIGGERED))
  {
  }

  /** So a reported cancel is final: no transaction of the order is signed or mined in any continuation. */
  lemma ReportedCancelIsFinal(cfg: Config, terms: Terms, start: int, before: seq<Action>, k: nat, between: seq<Action>,
                              rows: map<OrderId, Row>, id: OrderId, others: seq<Event>, after: seq<Action>)
    requires !cfg.retries && forall i :: 0 <= i < |between| ==> Elsewhere(k, between[i])
    requires var w := Run(cfg, Start(terms, start), before);
      && k !in w.ops && IsUserCancellable(w.row.status)
      && Mirrors(cfg, Step(cfg, w, CancelReads(k)), between, rows, id, others)
    requires OrderService.Untouched(rows, id, others)
    ensures var w := Run(cfg, Start(terms, start), before);
            var z := Run(cfg, Run(cfg, w, [] + [CancelReads(k)] + between + [CancelWrites(k)]), after);
      z.history.signings == 0 && !z.chain.consumed && (forall h :: !Ours(cfg, z.chain, h)) && z.row.status != EXECUTED
  {
    var w := Run(cfg, Start(terms, start), before);
    var cancel := [] + [CancelReads(k)] + between + [CancelWrites(k)];
    ProtocolAttempt.RunKeepsAttempt(cfg, Start(terms, start), before);
    CancelIsARun(cfg, w, k, between, rows, id, others);
    RunConcat(cfg, Start(terms, start), before, cancel);
    RunConcat(cfg, Start(terms, start), before + cancel, after);
    ProtocolAttempt.CancelIsFinal(cfg, terms, start, before + cancel, after);
  }

  /**
   The trigger engine's claim of a PENDING order, with anything in between, is a run of
   the protocol: it ends in the row that the claim leaves, counts as a trigger exactly
   if the claim wins, and only then can the engine hand the order off.
   */
  lemma ClaimIsARun(cfg: Config, w: World, k: nat, between: seq<Action>, rows: map<OrderId, Row>, id: OrderId,
                    others: seq<Event>)
    requires k !in w.ops && w.row.status == PENDING
    requires forall i :: 0 <= i < |between| ==> Elsewhere(k, between[i])
    requires Mirrors(cfg, Step(cfg, w, EngineReads(k)), between, rows, id, others)
    ensures var v := Run(cfg, w, [] + [EngineReads(k)] + between); var e := TriggerEngine.Claim(k, id, w.row.version);
            var z := Run(cfg, w, [] + [EngineReads(k)] + between + [EngineClaims(k)]);
            var wins := TriggerEngine.Wins(Play(rows, others), e);
      && z.row == Updated(Play(rows, others), id, e.write)[id]
      && z.history.triggers == v.history.triggers + (if wins then 1 else 0)
      && (if wins then HandedOffAfter(z, EngineEnqueues(k)) else k !in z.ops)
  {
    var v := Run(cfg, w, [] + [EngineReads(k)] + between);
    InBetween(cfg, w, EngineReads(k), EngineRead(w.row.version), between, rows, id, others);
    RunSnoc(cfg, w, [] + [EngineReads(k)] + between, EngineClaims(k));
    ClaimStep(cfg, v, k, w.row.version);
  }

  lemma ClaimStep(cfg: Config, v: World, k: nat, version: nat)
    requires k in v.ops && v.ops[k] == EngineRead(version)
    ensures var write := Transition(PENDING, version, TRIGGERED); var z := Step(cfg, v, EngineClaims(k));
      && z.row == Apply(v.row, write)
      && z.history.triggers == v.history.triggers + (if Matches(v.row, write) then 1 else 0)
      && (if Matches(v.row, write) then HandedOffAfter(z, EngineEnqueues(k)) else k !in z.ops)
  {
  }
}
