/**
 The execution of one order, as a machine of interleaved actors: trigger engines,
 user cancels, executors, the network, transaction monitors and the reconciler.

 Every repository write is one atomic step. A read is an earlier step of its own
 whose result the actor carries with it, and any actor can crash between any two
 of its steps.
 */
module Protocol {
  import opened Wrappers
  import opened OrderStatus
  import opened Orders
  import opened TransactionMonitor

  /**
   `singleExecutor`: at most one live executor. `retries`: FAILED orders may be
   triggered again. Times are milliseconds except `windowSec`.
   */
  datatype Config = Config(executionId: ExecutionId, singleExecutor: bool, retries: bool, windowSec: nat,
                           graceMs: nat, skewMs: nat, stuckAfterMs: nat)

  datatype Tx = Tx(executionId: ExecutionId, deadline: int)

  /** `consumed` is isExecuted of this order's id, `swaps` how often a swap of it landed. */
  datatype Chain = Chain(signed: map<Hash, Tx>, network: set<Hash>, receipts: map<Hash, bool>, consumed: bool,
                         swaps: nat)

  /** What each in-flight operation has learned so far. */
  datatype Op =
    | EngineRead(version: nat)
    | EngineWon
    | CancelRead(status: Status, version: nat)
    | RetriggerRead(status: Status, version: nat)
    // ExecutionService.executeOrder
    | ExecRead(version: nat)
    | ExecSpent(version: nat)
    | ExecFresh(version: nat)
    | ExecBuilt(version: nat, deadline: int)
    | ExecClaimed(deadline: int)
    | ExecSigned(hash: Hash)
    | ExecRecorded(hash: Hash)
    | ExecSent(hash: Hash)
    | ExecFailing
    | ExecFailRead(status: Status, version: nat)
    // TxMonitorService.check
    | MonRead(hash: Hash, submittedAt: int)
    | MonNever
    | MonMissing(hash: Hash, submittedAt: int, at: int)
    | MonGone(hash: Hash, submittedAt: int, at: int)
    | MonVerdict(outcome: Outcome)
    // ReconcilerService.applyLog and auditFailed
    | LogRead(status: Status, hash: Hash)
    | AuditRead
    | AuditConsumed

  /** History that the theorems speak about; no step reads it. */
  datatype History = History(triggers: nat, claims: nat, signings: nat, cancelled: bool, dropped: bool)

  /**
   `monitorKnows`: a monitor job exists. `handedOff`: an execution job does, and the
   queue may deliver it, again and to several workers, at any time.
   */
  datatype World = World(now: int, row: Row, chain: Chain, ops: map<nat, Op>, monitorKnows: bool, handedOff: bool,
                         history: History)

  function Start(terms: Terms, now: int): World {
    World(now, NewRow(terms), Chain(map[], {}, map[], false, 0), map[], false, false, History(0, 0, 0, false, false))
  }

  datatype Action =
    | Tick(ms: nat)
    | Crash(k: nat)
    | EngineReads(k: nat)
    | EngineClaims(k: nat)
    | EngineEnqueues(k: nat)
    | CancelReads(k: nat)
    | CancelWrites(k: nat)
    | RetriggerReads(k: nat)
    | RetriggerWrites(k: nat)
    | ExecReads(k: nat)
    | ExecProbes(k: nat)
    | ExecReconciles(k: nat)
    | ExecBuilds(k: nat)
    | ExecClaims(k: nat)
    | ExecSigns(k: nat, hash: Hash)
    | ExecRecords(k: nat)
    | ExecBroadcasts(k: nat)
    | ExecEnqueues(k: nat)
    // the monitor job is there, but the call that put it there rejects
    | ExecEnqueuesUnheard(k: nat)
    | ExecThrows(k: nat)
    | ExecRereads(k: nat)
    | ExecFails(k: nat)
    | ForeignTx(hash: Hash, tx: Tx)
    | Mine(hash: Hash, timestamp: int, otherChecks: bool)
    | SweepFinds
    | MonReads(k: nat)
    | MonNeverFails(k: nat)
    | MonReceipt(k: nat, receipt: ReceiptAnswer)
    | MonMempool(k: nat, mempool: MempoolAnswer)
    | MonContract(k: nat, contract: ContractAnswer)
    | MonApplies(k: nat)
    | LogReads(k: nat, hash: Hash)
    | LogWrites(k: nat, block: nat, amountOut: nat)
    | AuditLists(k: nat)
    | AuditProbes(k: nat)
    | AuditWrites(k: nat)

  predicate IsExec(op: Op) {
    || op.ExecRead? || op.ExecSpent? || op.ExecFresh? || op.ExecBuilt? || op.ExecClaimed? || op.ExecSigned?
    || op.ExecRecorded? || op.ExecSent? || op.ExecFailing? || op.ExecFailRead?
  }

  predicate IsMonitor(op: Op) {
    op.MonRead? || op.MonNever? || op.MonMissing? || op.MonGone? || op.MonVerdict?
  }

  /** Inside the try block of executeOrder. */
  predicate CanThrow(op: Op) {
    op.ExecFresh? || op.ExecBuilt? || op.ExecClaimed? || op.ExecSigned? || op.ExecRecorded? || op.ExecSent?
  }

  predicate Ours(cfg: Config, c: Chain, h: Hash) {
    h in c.signed && c.signed[h].executionId == cfg.executionId
  }

  /** A step that continues the operation in flight under its key. */
  predicate Continues(w: World, a: Action) {
    !a.Tick? && !a.ForeignTx? && !a.Mine? && !a.SweepFinds? && a.k in w.ops
  }

  // ---- reads that start an operation ----------------------------------------

  /** A SwapExecuted log of this order, emitted by the successful transaction `h`. */
  predicate HasLog(cfg: Config, c: Chain, h: Hash) {
    Ours(cfg, c, h) && h in c.receipts && c.receipts[h]
  }

  /** The operation that a read of the row starts, if the reader goes on. */
  function BegunOp(cfg: Config, w: World, a: Action): Option<Op> {
    var r := w.row;
    match a
    case EngineReads(_) => if r.status == PENDING then Some(EngineRead(r.version)) else None
    case CancelReads(_) => if IsUserCancellable(r.status) then Some(CancelRead(r.status, r.version)) else None
    case RetriggerReads(_) =>
      if cfg.retries && CanTransition(r.status, TRIGGERED) then Some(RetriggerRead(r.status, r.version)) else None
    case ExecReads(_) =>
      if w.handedOff && r.status == TRIGGERED && (cfg.singleExecutor ==> forall j :: j in w.ops ==> !IsExec(w.ops[j]))
      then Some(ExecRead(r.version)) else None
    case MonReads(_) =>
      if !w.monitorKnows || r.status != EXECUTING then None
      else if r.txHash.None? || r.submittedAt.None? then Some(MonNever)
      else Some(MonRead(r.txHash.value, r.submittedAt.value))
    case LogReads(_, h) => if HasLog(cfg, w.chain, h) && r.status != EXECUTED then Some(LogRead(r.status, h)) else None
    case AuditLists(_) =>
      if r.status == FAILED && (r.txHash.Some? || r.submittedAt.Some?) then Some(AuditRead) else None
    case _ => None
  }

  // ---- what an operation in flight does next ---------------------------------

  /** The node tells the truth about receipts it has, and may fail to have one. */
  predicate TruthfulReceipt(c: Chain, h: Hash, r: ReceiptAnswer) {
    match r
    case ReceiptSuccess(_, _) => h in c.receipts && c.receipts[h]
    case ReceiptReverted(_) => h in c.receipts && !c.receipts[h]
    case ReceiptNotFound => true
    case ReceiptError => true
  }

  predicate TruthfulContract(c: Chain, a: ContractAnswer) {
    (a.Consumed? ==> c.consumed) && (a.Unconsumed? ==> !c.consumed)
  }

  /** Execution: probe, build, claim, sign, record, broadcast, hand off; or throw and clean up. */
  function NextExecOp(cfg: Config, w: World, op: Op, a: Action): Option<Op> {
    match a
    case ExecProbes(_) =>
      if op.ExecRead? then Some(if w.chain.consumed then ExecSpent(op.version) else ExecFresh(op.version)) else Some(op)
    case ExecReconciles(_) => if op.ExecSpent? then None else Some(op)
    case ExecBuilds(_) => if op.ExecFresh? then Some(ExecBuilt(op.version, w.now / 1000 + cfg.windowSec)) else Some(op)
    case ExecClaims(_) =>
      if !op.ExecBuilt? then Some(op)
      else if Matches(w.row, Transition(TRIGGERED, op.version, EXECUTING)) then Some(ExecClaimed(op.deadline)) else None
    case ExecSigns(_, hash) => if op.ExecClaimed? && hash !in w.chain.signed then Some(ExecSigned(hash)) else Some(op)
    case ExecRecords(_) => if op.ExecSigned? then Some(ExecRecorded(op.hash)) else Some(op)
    case ExecBroadcasts(_) => if op.ExecRecorded? then Some(ExecSent(op.hash)) else Some(op)
    case ExecEnqueues(_) => if op.ExecSent? then None else Some(op)
    case ExecThrows(_) => if CanThrow(op) then Some(ExecFailing) else Some(op)
    // handleFailure: defer to the monitor if an EXECUTING row has a hash, else prepare to fail the row as read
    case ExecRereads(_) =>
      if !op.ExecFailing? then Some(op)
      else if w.row.status == EXECUTING && w.row.txHash.Some? then None
      else Some(ExecFailRead(w.row.status, w.row.version))
    case ExecFails(_) => if op.ExecFailRead? then None else Some(op)
    case _ => Some(op)
  }

  /** Monitoring: receipt, then mempool, then contract; each answer may end the questions. */
  function NextMonitorOp(cfg: Config, w: World, op: Op, a: Action): Option<Op> {
    match a
    case MonReceipt(_, r) =>
      if !op.MonRead? || !TruthfulReceipt(w.chain, op.hash, r) then Some(op)
      else if r.ReceiptNotFound? then Some(MonMissing(op.hash, op.submittedAt, w.now))
      else Some(MonVerdict(GetOutcome(op.hash, op.submittedAt, w.now, cfg.graceMs, r, MempoolError, ContractError)))
    case MonMempool(_, m) =>
      if !op.MonMissing? then Some(op)
      else if m.NotVisible? && op.at - op.submittedAt >= cfg.graceMs then Some(MonGone(op.hash, op.submittedAt, op.at))
      else Some(MonVerdict(GetOutcome(op.hash, op.submittedAt, op.at, cfg.graceMs, ReceiptNotFound, m, ContractError)))
    case MonContract(_, c) =>
      if !op.MonGone? || !TruthfulContract(w.chain, c) then Some(op)
      else Some(MonVerdict(GetOutcome(op.hash, op.submittedAt, op.at, cfg.graceMs, ReceiptNotFound, NotVisible, c)))
    case MonNeverFails(_) => if op.MonNever? then None else Some(op)
    case MonApplies(_) => if op.MonVerdict? then None else Some(op)
    case _ => Some(op)
  }

  /**
   Engines, users, retries and the reconciler: one write after the read; the audit's
   probe comes in between, and the engine's hand-off afterwards.
   */
  function NextOtherOp(w: World, op: Op, a: Action): Option<Op> {
    match a
    case Crash(_) => None
    case EngineClaims(_) =>
      if !op.EngineRead? then Some(op)
      else if Matches(w.row, Transition(PENDING, op.version, TRIGGERED)) then Some(EngineWon) else None
    case EngineEnqueues(_) => if op.EngineWon? then None else Some(op)
    case CancelWrites(_) => if op.CancelRead? then None else Some(op)
    case RetriggerWrites(_) => if op.RetriggerRead? then None else Some(op)
    case LogWrites(_, _, _) => if op.LogRead? then None else Some(op)
    case AuditProbes(_) => if !op.AuditRead? then Some(op) else if w.chain.consumed then Some(AuditConsumed) else None
    case AuditWrites(_) => if op.AuditConsumed? then None else Some(op)
    case _ => Some(op)
  }

  /** What the operation knows after the step; None when it is over. */
  function NextOp(cfg: Config, w: World, op: Op, a: Action): Option<Op> {
    if IsExec(op) && !a.Crash? then NextExecOp(cfg, w, op, a)
    else if IsMonitor(op) && !a.Crash? then NextMonitorOp(cfg, w, op, a)
    else NextOtherOp(w, op, a)
  }

  /** The repository write that the step issues. */
  function WriteOf(w: World, op: Op, a: Action): Option<Write> {
    match a
    case EngineClaims(_) => if op.EngineRead? then Some(Transition(PENDING, op.version, TRIGGERED)) else None
    case CancelWrites(_) => if op.CancelRead? then Some(Transition(op.status, op.version, CANCELLED)) else None
    case RetriggerWrites(_) => if op.RetriggerRead? then Some(Transition(op.status, op.version, TRIGGERED)) else None
    case ExecReconciles(_) => if op.ExecSpent? then Some(Transition(TRIGGERED, op.version, EXECUTED)) else None
    case ExecClaims(_) => if op.ExecBuilt? then Some(Transition(TRIGGERED, op.version, EXECUTING)) else None
    case ExecRecords(_) => if op.ExecSigned? then Some(RecordTxHash(op.hash, w.now)) else None
    case ExecFails(_) => if op.ExecFailRead? then Some(Transition(op.status, op.version, FAILED)) else None
    case MonNeverFails(_) => if op.MonNever? then Some(MarkFailed(None, None, w.now)) else None
    case MonApplies(_) => if op.MonVerdict? then Resolution(op.outcome, w.now) else None
    case LogWrites(_, block, out) =>
      if op.LogRead? then Some(ForceExecuted(op.status, Some(op.hash), Some(block), Some(out), w.now)) else None
    case AuditWrites(_) => if op.AuditConsumed? then Some(ForceExecuted(FAILED, None, None, None, w.now)) else None
    case _ => None
  }

  function WriteBy(w: World, a: Action): Option<Write> {
    if Continues(w, a) then WriteOf(w, w.ops[a.k], a) else None
  }

  // ---- the parts of the next state -------------------------------------------

  function RowAfter(w: World, a: Action): Row {
    match WriteBy(w, a)
    case None => w.row
    case Some(write) => Apply(w.row, write)
  }

  function OpsAfter(cfg: Config, w: World, a: Action): map<nat, Op> {
    if a.Tick? || a.ForeignTx? || a.Mine? || a.SweepFinds? then w.ops
    else if a.k in w.ops then
      match NextOp(cfg, w, w.ops[a.k], a)
      case None => w.ops - {a.k}
      case Some(op) => w.ops[a.k := op]
    else
      match BegunOp(cfg, w, a)
      case None => w.ops
      case Some(op) => w.ops[a.k := op]
  }

  predicate Signs(w: World, a: Action) {
    a.ExecSigns? && Continues(w, a) && w.ops[a.k].ExecClaimed? && a.hash !in w.chain.signed
  }

  /** The contract's verdict on a mined call: replay guard, deadline, and everything else it checks. */
  predicate Lands(consumed: bool, deadline: int, timestamp: int, otherChecks: bool) {
    !consumed && timestamp <= deadline && otherChecks
  }

  /** A block stamped after the worker clock less the skew. A foreign transaction never consumes this order's id. */
  function MineTx(cfg: Config, c: Chain, h: Hash, timestamp: int, otherChecks: bool): Chain
    requires h in c.signed
  {
    if c.signed[h].executionId != cfg.executionId then c.(receipts := c.receipts[h := otherChecks])
    else if Lands(c.consumed, c.signed[h].deadline, timestamp, otherChecks)
    then c.(receipts := c.receipts[h := true], consumed := true, swaps := c.swaps + 1)
    else c.(receipts := c.receipts[h := false])
  }

  function ChainAfter(cfg: Config, w: World, a: Action): Chain {
    var c := w.chain;
    match a
    case ExecSigns(k, hash) =>
      if Signs(w, a) then c.(signed := c.signed[hash := Tx(cfg.executionId, w.ops[k].deadline)]) else c
    case ExecBroadcasts(k) =>
      if Continues(w, a) && w.ops[k].ExecRecorded? then c.(network := c.network + {w.ops[k].hash}) else c
    case ForeignTx(hash, tx) =>
      if hash in c.signed || tx.executionId == cfg.executionId then c
      else c.(signed := c.signed[hash := tx], network := c.network + {hash})
    case Mine(h, timestamp, otherChecks) =>
      if h in c.network && h in c.signed && h !in c.receipts && 1000 * timestamp > w.now - cfg.skewMs
      then MineTx(cfg, c, h, timestamp, otherChecks) else c
    case _ => c
  }

  /** The monitor hears of the order from the executor's hand-off or from the stuck sweep. */
  predicate KnowsAfter(cfg: Config, w: World, a: Action) {
    || w.monitorKnows
    || ((a.ExecEnqueues? || a.ExecEnqueuesUnheard?) && Continues(w, a) && w.ops[a.k].ExecSent?)
    || (a.ExecRereads? && Continues(w, a) && w.ops[a.k].ExecFailing? && w.row.status == EXECUTING && w.row.txHash.Some?)
    || (a.SweepFinds? && w.row.status == EXECUTING && w.row.submittedAt.Some?
        && w.row.submittedAt.value < w.now - cfg.stuckAfterMs)
  }

  /** Only an engine that claimed the order hands it to the execution queue. */
  predicate HandedOffAfter(w: World, a: Action) {
    w.handedOff || (a.EngineEnqueues? && Continues(w, a) && w.ops[a.k].EngineWon?)
  }

  /** The status that a winning transition of this step puts on the row. */
  function Won(w: World, a: Action): Option<Status> {
    match WriteBy(w, a)
    case Some(Transition(s, v, next, h)) => if Matches(w.row, Transition(s, v, next, h)) then Some(next) else None
    case _ => None
  }

  /** A drop verdict that takes effect. */
  predicate Drops(w: World, a: Action) {
    && a.MonApplies? && Continues(w, a) && w.ops[a.k].MonVerdict? && w.ops[a.k].outcome.DROPPED_NOT_EXECUTED?
    && w.row.status == EXECUTING
  }

  function HistoryAfter(w: World, a: Action): History {
    var h := w.history;
    History(h.triggers + (if Won(w, a) == Some(TRIGGERED) then 1 else 0),
            h.claims + (if Won(w, a) == Some(EXECUTING) then 1 else 0),
            h.signings + (if Signs(w, a) then 1 else 0),
            h.cancelled || Won(w, a) == Some(CANCELLED),
            h.dropped || Drops(w, a))
  }

  function Step(cfg: Config, w: World, a: Action): World {
    World(w.now + (if a.Tick? then a.ms else 0), RowAfter(w, a), ChainAfter(cfg, w, a), OpsAfter(cfg, w, a),
          KnowsAfter(cfg, w, a), HandedOffAfter(w, a), HistoryAfter(w, a))
  }

  /** Any interleaving of any actors. */
  function Run(cfg: Config, w: World, actions: seq<Action>): World
    decreases |actions|
  {
    if |actions| == 0 then w else Run(cfg, Step(cfg, w, actions[0]), actions[1..])
  }

  lemma {:induction false} RunConcat(cfg: Config, w: World, first: seq<Action>, second: seq<Action>)
    ensures Run(cfg, w, first + second) == Run(cfg, Run(cfg, w, first), second)
    decreases |first|
  {
    if |first| == 0 {
      assert first + second == second;
    } else {
      assert (first + second)[1..] == first[1..] + second;
      RunConcat(cfg, Step(cfg, w, first[0]), first[1..], second);
    }
  }

  /** A run extended by one step. */
  lemma {:induction false} RunSnoc(cfg: Config, w: World, actions: seq<Action>, a: Action)
    ensures Run(cfg, w, actions + [a]) == Step(cfg, Run(cfg, w, actions), a)
  {
    RunConcat(cfg, w, actions, [a]);
    assert Run(cfg, Run(cfg, w, actions), [a]) == Run(cfg, Step(cfg, Run(cfg, w, actions), a), [a][1..]);
  }

  /** A run extended by one step and whatever follows it. */
  lemma RunThen(cfg: Config, w: World, actions: seq<Action>, a: Action, more: seq<Action>)
    ensures Run(cfg, w, actions + [a] + more) == Run(cfg, Step(cfg, Run(cfg, w, actions), a), more)
  {
    RunConcat(cfg, w, actions + [a], more);
    RunSnoc(cfg, w, actions, a);
  }

  /** A step that is not a step of operation `k`. */
  predicate Elsewhere(k: nat, a: Action) { a.Tick? || a.ForeignTx? || a.Mine? || a.SweepFinds? || a.k != k }

  lemma {:induction false} OwnOpStays(cfg: Config, w: World, actions: seq<Action>, k: nat)
    requires forall i :: 0 <= i < |actions| ==> Elsewhere(k, actions[i])
    ensures k in Run(cfg, w, actions).ops <==> k in w.ops
    ensures k in w.ops ==> Run(cfg, w, actions).ops[k] == w.ops[k]
    decreases |actions|
  {
    if |actions| != 0 {
      assert Elsewhere(k, actions[0]);
      assert k in OpsAfter(cfg, w, actions[0]) <==> k in w.ops;
      OwnOpStays(cfg, Step(cfg, w, actions[0]), actions[1..], k);
    }
  }
}
