/** What the monitor and the reconciler make of one order row, given what the chain answers. */
module Reconciliation {
  import opened Wrappers
  import opened OrderStatus
  import opened Orders
  import opened TransactionMonitor
  import opened OrderRepo
  import opened LogScan
  import Protocol
  import ProtocolSingle

  /** The clock and every answer of the node and the contract during one pass. */
  datatype Env = Env(now: int, graceMs: nat, receiptOf: Hash -> ReceiptAnswer, mempoolOf: Hash -> MempoolAnswer,
                     isExecuted: ExecutionId -> ContractAnswer)

  datatype Options = Options(stuckAfterMs: nat, scan: ScanConfig, auditLimit: nat)

  function OutcomeOf(env: Env, r: Row): Outcome
    requires r.txHash.Some? && r.submittedAt.Some?
  {
    var hash := r.txHash.value;
    GetOutcome(hash, r.submittedAt.value, env.now, env.graceMs, env.receiptOf(hash), env.mempoolOf(hash),
               env.isExecuted(r.terms.executionId))
  }

  /** What TxMonitorService.check writes for the row it read; None while there is nothing to conclude. */
  function CheckWrite(env: Env, r: Row): Option<Write> {
    if r.status != EXECUTING then None
    else if r.txHash.None? || r.submittedAt.None? then Some(MarkFailed(None, None, env.now))
    else Resolution(OutcomeOf(env, r), env.now)
  }

  /** The row after the check, if nobody else writes it. */
  function Checked(env: Env, r: Row): Row {
    match CheckWrite(env, r)
    case None => r
    case Some(w) => Apply(r, w)
  }

  /**
   What a check makes of an EXECUTING row, by the answers alone: EXECUTED or FAILED with
   the block of the receipt, at any age; EXECUTED or FAILED as the contract says, once
   the transaction is nowhere and out of grace; FAILED if nothing was ever submitted;
   and else as it was.
   */
  ghost predicate Settles(env: Env, r: Row, s: Row) {
    var executed := r.(status := EXECUTED, version := r.version + 1, confirmedAt := Some(env.now));
    var failed := r.(status := FAILED, version := r.version + 1, confirmedAt := Some(env.now));
    if r.txHash.None? || r.submittedAt.None? then s == failed
    else
      var contract := env.isExecuted(r.terms.executionId);
      match env.receiptOf(r.txHash.value)
      case ReceiptSuccess(b, out) =>
        s == executed.(blockNumber := Some(b), amountOut := if out.Some? then out else r.amountOut)
      case ReceiptReverted(b) => s == failed.(blockNumber := Some(b))
      case ReceiptError => s == r
      case ReceiptNotFound =>
        if !env.mempoolOf(r.txHash.value).NotVisible? || env.now < r.submittedAt.value + env.graceMs
           || contract.ContractError? then s == r
        else if contract.Consumed? then s == executed.(blockNumber := Some(0)) else s == failed
  }

  lemma CheckedSettles(env: Env, r: Row)
    requires r.status == EXECUTING
    ensures Settles(env, r, Checked(env, r))
  {
  }

  /** The row after applyLog, if the log is found to be about it. */
  function LogApplied(now: int, log: SwapLog, r: Row): Row {
    if r.terms.executionId == log.executionId && r.status != EXECUTED
    then Apply(r, ForceExecuted(r.status, Some(log.txHash), Some(log.blockNumber), Some(log.amountOut), now))
    else r
  }

  function Backfilled(now: int, logs: seq<SwapLog>, r: Row): Row
    decreases |logs|
  {
    if |logs| == 0 then r
    else LogApplied(now, logs[|logs| - 1], Backfilled(now, logs[..|logs| - 1], r))
  }

  predicate HasEvidence(r: Row) { r.txHash.Some? || r.submittedAt.Some? }

  /** The row after auditFailed has looked at it. */
  function Audited(env: Env, r: Row): Row {
    if r.status == FAILED && HasEvidence(r) && env.isExecuted(r.terms.executionId).Consumed?
    then Apply(r, ForceExecuted(FAILED, None, None, None, env.now))
    else r
  }

  datatype Correction =
    | Check
    | Sweep(stuckAfterMs: nat)
    | Backfill(logs: seq<SwapLog>)
    | Audit

  function Corrected(env: Env, c: Correction, r: Row): (s: Row)
    ensures s.terms == r.terms
    ensures s.status == r.status ==> s == r
    ensures s != r ==> s.status in {EXECUTED, FAILED}
    ensures s.submittedAt == r.submittedAt && (r.txHash.Some? ==> s.txHash.Some?)
  {
    match c
    case Check => Checked(env, r)
    case Sweep(stuckAfterMs) => if Selects(StuckExecuting(stuckAfterMs, env.now), r) then Checked(env, r) else r
    case Backfill(logs) => BackfilledMeaning(env.now, logs, r); Backfilled(env.now, logs, r)
    case Audit => Audited(env, r)
  }

  /** The first log about an id. */
  function FirstAbout(logs: seq<SwapLog>, id: ExecutionId): (r: Option<SwapLog>)
    ensures r.Some? ==> r.value in logs && r.value.executionId == id
    ensures r.None? ==> forall log :: log in logs ==> log.executionId != id
  {
    if |logs| == 0 then None
    else if logs[0].executionId == id then Some(logs[0])
    else
      assert forall log :: log in logs ==> log == logs[0] || log in logs[1..];
      FirstAbout(logs[1..], id)
  }

  lemma {:induction false} FirstAboutGrows(logs: seq<SwapLog>, last: SwapLog, id: ExecutionId)
    ensures FirstAbout(logs + [last], id)
         == if FirstAbout(logs, id).Some? then FirstAbout(logs, id)
            else if last.executionId == id then Some(last) else None
  {
    if |logs| == 0 {
      assert FirstAbout([last][1..], id) == None;
    } else {
      assert (logs + [last])[1..] == logs[1..] + [last];
      FirstAboutGrows(logs[1..], last, id);
    }
  }

  /** A backfill writes a row at most once: from the first log about it, unless the row was EXECUTED already. */
  lemma {:induction false} BackfilledMeaning(now: int, logs: seq<SwapLog>, r: Row)
    ensures var first := FirstAbout(logs, r.terms.executionId);
            Backfilled(now, logs, r) == if first.Some? then LogApplied(now, first.value, r) else r
    decreases |logs|
  {
    if |logs| != 0 {
      var front, last := logs[..|logs| - 1], logs[|logs| - 1];
      assert logs == front + [last];
      BackfilledMeaning(now, front, r);
      FirstAboutGrows(front, last, r.terms.executionId);
    }
  }

  /**
   A backfill corrects a row exactly if it is not EXECUTED and some log is about it, and
   the row then has the hash, block and amount of the first such log.
   */
  lemma BackfillsExactly(now: int, logs: seq<SwapLog>, r: Row)
    ensures var s := Backfilled(now, logs, r);
      && (s != r <==> r.status != EXECUTED && exists log :: log in logs && log.executionId == r.terms.executionId)
      && (s != r ==> exists i :: IsFirstAbout(logs, r.terms.executionId, i) && s == FilledFrom(now, logs[i], r))
  {
    BackfilledMeaning(now, logs, r);
    if FirstAbout(logs, r.terms.executionId).Some? {
      var i := IndexOfFirst(logs, r.terms.executionId);
    }
  }

  function FilledFrom(now: int, log: SwapLog, r: Row): Row {
    r.(status := EXECUTED, version := r.version + 1, txHash := Some(log.txHash), blockNumber := Some(log.blockNumber),
       amountOut := Some(log.amountOut), confirmedAt := Some(now))
  }

  predicate IsFirstAbout(logs: seq<SwapLog>, id: ExecutionId, i: int) {
    0 <= i < |logs| && logs[i].executionId == id && forall j :: 0 <= j < i ==> logs[j].executionId != id
  }

  lemma {:induction false} IndexOfFirst(logs: seq<SwapLog>, id: ExecutionId) returns (i: int)
    requires FirstAbout(logs, id).Some?
    ensures IsFirstAbout(logs, id, i) && logs[i] == FirstAbout(logs, id).value
  {
    if logs[0].executionId == id { return 0; }
    i := IndexOfFirst(logs[1..], id);
    i := i + 1;
    forall j | 0 <= j < i ensures logs[j].executionId != id {
      if j > 0 { assert logs[j] == logs[1..][j - 1]; }
    }
  }

  /** The audit corrects a row exactly if it is FAILED, was signed or submitted, and its execution id is consumed. */
  lemma AuditsExactly(env: Env, r: Row)
    ensures var s := Audited(env, r);
      && (s != r <==> r.status == FAILED && (r.txHash.Some? || r.submittedAt.Some?)
                      && env.isExecuted(r.terms.executionId).Consumed?)
      && (s != r ==> s == r.(status := EXECUTED, version := r.version + 1, confirmedAt := Some(env.now)))
  {
  }

  // ---- tables of rows --------------------------------------------------------

  function OnAll(env: Env, c: Correction, rows: map<OrderId, Row>): map<OrderId, Row> {
    map id | id in rows :: Corrected(env, c, rows[id])
  }

  function OnIds(env: Env, c: Correction, rows: map<OrderId, Row>, ids: seq<OrderId>): map<OrderId, Row> {
    map id | id in rows :: if id in ids then Corrected(env, c, rows[id]) else rows[id]
  }

  /** Checking every listed stuck row is sweeping the table, if the list is complete. */
  lemma SweptAll(env: Env, stuckAfterMs: nat, limit: nat, rows: map<OrderId, Row>, ids: seq<OrderId>)
    requires Lists(rows, StuckExecuting(stuckAfterMs, env.now), limit, ids)
    requires |Where(rows, StuckExecuting(stuckAfterMs, env.now))| <= limit
    ensures OnIds(env, Check, rows, ids) == OnAll(env, Sweep(stuckAfterMs), rows)
  {
  }

  lemma AuditedAll(env: Env, limit: nat, rows: map<OrderId, Row>, ids: seq<OrderId>)
    requires Lists(rows, ByStatus(FAILED), limit, ids) && |Where(rows, ByStatus(FAILED))| <= limit
    ensures OnIds(env, Audit, rows, ids) == OnAll(env, Audit, rows)
  {
  }

  // ---- one whole run -----------------------------------------------------------

  /** The logs of the blocks `from` to `to`, in order. */
  function LogsIn(view: View, from: nat, to: nat): seq<SwapLog>
    decreases 1 + to - from
  {
    if from > to then [] else view.logsOf(from) + LogsIn(view, from + 1, to)
  }

  function Window(cfg: ScanConfig, checkpoint: Option<nat>, view: View): seq<SwapLog> {
    LogsIn(view, From(cfg, checkpoint, view.head), To(cfg, checkpoint, view.head))
  }

  /** Sweep, backfill and audit, one after the other, on the whole table. */
  function Reconciled(env: Env, opt: Options, logs: seq<SwapLog>, rows: map<OrderId, Row>): map<OrderId, Row> {
    OnAll(env, Audit, OnAll(env, Backfill(logs), OnAll(env, Sweep(opt.stuckAfterMs), rows)))
  }

  /** No pass of a run has anything to do on the row. */
  predicate Settled(env: Env, opt: Options, logs: seq<SwapLog>, r: Row) {
    && Corrected(env, Sweep(opt.stuckAfterMs), r) == r
    && Corrected(env, Backfill(logs), r) == r
    && Corrected(env, Audit, r) == r
  }

  /** Every log in `logs` is also in `more`. */
  predicate Within(logs: seq<SwapLog>, more: seq<SwapLog>) {
    forall log :: log in logs ==> log in more
  }

  lemma SettledAfter(env: Env, opt: Options, logs: seq<SwapLog>, next: seq<SwapLog>, r: Row)
    requires Within(next, logs)
    ensures var swept := Corrected(env, Sweep(opt.stuckAfterMs), r);
            Settled(env, opt, next, Corrected(env, Audit, Corrected(env, Backfill(logs), swept)))
  {
    var swept := Corrected(env, Sweep(opt.stuckAfterMs), r);
    var filled := Corrected(env, Backfill(logs), swept);
    var audited := Corrected(env, Audit, filled);
    BackfilledMeaning(env.now, logs, swept);
    BackfilledMeaning(env.now, next, audited);
  }

  /** The logs of a window are those of its blocks, in order: of one block its own, of two windows in a row both. */
  lemma {:induction false} LogsOfBlocks(view: View, from: nat, mid: nat, to: nat)
    requires from <= mid <= to
    ensures LogsIn(view, from, to) == LogsIn(view, from, mid) + LogsIn(view, mid + 1, to)
    ensures LogsIn(view, mid, mid) == view.logsOf(mid)
    decreases mid - from
  {
    assert LogsIn(view, mid + 1, mid) == [];
    if from == mid {
      assert LogsIn(view, from, mid) == view.logsOf(from);
    } else {
      LogsOfBlocks(view, from + 1, mid, to);
    }
  }

  lemma {:induction false} LogInWindow(view: View, from: nat, to: nat, log: SwapLog)
    ensures log in LogsIn(view, from, to) <==> exists b: nat :: from <= b <= to && log in view.logsOf(b)
    decreases 1 + to - from
  {
    if from <= to {
      LogInWindow(view, from + 1, to, log);
      assert log in LogsIn(view, from, to) <==> log in view.logsOf(from) || log in LogsIn(view, from + 1, to);
    }
  }

  /** A scan that reached the head leaves nothing new to the next one at the same head. */
  lemma NextWindowWithin(cfg: ScanConfig, checkpoint: Option<nat>, view: View)
    requires cfg.maxRange >= cfg.reorgBuffer && To(cfg, checkpoint, view.head) == view.head
    ensures Within(Window(cfg, AfterPass(cfg, checkpoint, view.head), view), Window(cfg, checkpoint, view))
  {
    var next := AfterPass(cfg, checkpoint, view.head);
    var logs, more := Window(cfg, next, view), Window(cfg, checkpoint, view);
    forall log | log in logs ensures log in more {
      LogInWindow(view, From(cfg, next, view.head), To(cfg, next, view.head), log);
      LogInWindow(view, From(cfg, checkpoint, view.head), To(cfg, checkpoint, view.head), log);
    }
  }

  lemma SettledTableStays(env: Env, opt: Options, logs: seq<SwapLog>, rows: map<OrderId, Row>)
    requires forall id :: id in rows ==> Settled(env, opt, logs, rows[id])
    ensures Reconciled(env, opt, logs, rows) == rows
  {
    forall id | id in rows ensures Reconciled(env, opt, logs, rows)[id] == rows[id] {
      assert Settled(env, opt, logs, rows[id]);
    }
  }

  /**
   Reconciliation is idempotent on orders: at the same chain, head and clock, if the
   first run's scan reached the head, a second run has nothing to do on any order.
   */
  lemma SecondRunFindsNothing(env: Env, opt: Options, checkpoint: Option<nat>, view: View, rows: map<OrderId, Row>)
    requires opt.scan.maxRange >= opt.scan.reorgBuffer && To(opt.scan, checkpoint, view.head) == view.head
    ensures var once := Reconciled(env, opt, Window(opt.scan, checkpoint, view), rows);
            var next := Window(opt.scan, AfterPass(opt.scan, checkpoint, view.head), view);
      && (forall id :: id in once ==> Settled(env, opt, next, once[id]))
      && Reconciled(env, opt, next, once) == once
  {
    var logs := Window(opt.scan, checkpoint, view);
    var next := Window(opt.scan, AfterPass(opt.scan, checkpoint, view.head), view);
    NextWindowWithin(opt.scan, checkpoint, view);
    forall id | id in rows
      ensures Settled(env, opt, next, Reconciled(env, opt, logs, rows)[id])
    {
      SettledAfter(env, opt, logs, next, rows[id]);
    }
    SettledTableStays(env, opt, next, Reconciled(env, opt, logs, rows));
  }

  /**
   After a run no order that the chain knows to be executed is left behind, except
   those the chain could not be asked about: a row with a log in the window is
   EXECUTED, and a FAILED row with evidence is unconsumed or unanswered.
   */
  lemma NothingLeftBehind(env: Env, opt: Options, logs: seq<SwapLog>, rows: map<OrderId, Row>, id: OrderId)
    requires id in rows
    ensures var r := Reconciled(env, opt, logs, rows)[id];
      && ((exists log :: log in logs && log.executionId == r.terms.executionId) ==> r.status == EXECUTED)
      && (r.status == FAILED && HasEvidence(r) ==> !env.isExecuted(r.terms.executionId).Consumed?)
  {
    var swept := Corrected(env, Sweep(opt.stuckAfterMs), rows[id]);
    BackfilledMeaning(env.now, logs, swept);
  }

  /**
   The FAILED audit hides nothing: with one executor and no retries, in every
   reachable state of the protocol, an audit that gets the chain's answer leaves no
   order FAILED whose id is consumed.
   */
  lemma AuditLeavesNoLie(cfg: Protocol.Config, terms: Terms, now: int, actions: seq<Protocol.Action>, env: Env)
    requires cfg.singleExecutor && !cfg.retries && terms.executionId == cfg.executionId
    requires var w := Protocol.Run(cfg, Protocol.Start(terms, now), actions);
             env.isExecuted(w.row.terms.executionId) == if w.chain.consumed then Consumed else Unconsumed
    ensures var w := Protocol.Run(cfg, Protocol.Start(terms, now), actions);
            !(Audited(env, w.row).status == FAILED && w.chain.consumed)
  {
    ProtocolSingle.FailedButConsumedHasEvidence(cfg, terms, now, actions);
  }
}
