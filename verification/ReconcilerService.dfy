/** The reconciler: the chain is the source of truth, and four passes correct the tables by it. */
module ReconcilerService {
  import opened Wrappers
  import opened OrderStatus
  import opened Orders
  import opened OrderRepo
  import opened LogScan
  import opened Reconciliation
  import opened TxMonitor
  import Protocol
  import ProtocolSingle

  datatype Kind = STUCK_EXECUTING | LOG_BACKFILL | FAILED_BUT_EXECUTED | EXECUTED_NO_EVIDENCE

  datatype Entry = Entry(orderId: Option<OrderId>, kind: Kind)

  /** The orders that the entries are about, in order. */
  function LoggedIds(entries: seq<Entry>): seq<OrderId> {
    if |entries| == 0 then []
    else
      var last := entries[|entries| - 1];
      LoggedIds(entries[..|entries| - 1]) + if last.orderId.Some? then [last.orderId.value] else []
  }

  lemma LoggedSingle(e: Entry)
    ensures LoggedIds([e]) == if e.orderId.Some? then [e.orderId.value] else []
  {
    assert [e][..0] == [];
  }

  lemma {:induction false} LoggedConcat(entries: seq<Entry>, more: seq<Entry>)
    ensures LoggedIds(entries + more) == LoggedIds(entries) + LoggedIds(more)
    decreases |more|
  {
    if |more| == 0 {
      assert entries + more == entries;
    } else {
      assert (entries + more)[..|entries + more| - 1] == entries + more[..|more| - 1];
      LoggedConcat(entries, more[..|more| - 1]);
    }
  }

  predicate AllOf(entries: seq<Entry>, kind: Kind) { forall e :: e in entries ==> e.kind == kind }

  lemma {:induction false} LoggedMeaning(entries: seq<Entry>, e: Entry)
    requires e in entries && e.orderId.Some?
    ensures e.orderId.value in LoggedIds(entries)
  {
    if e != entries[|entries| - 1] { LoggedMeaning(entries[..|entries| - 1], e); }
  }

  class ReconciliationRepository {
    var checkpoint: Option<nat>
    var entries: seq<Entry>

    constructor ()
      ensures checkpoint == None && entries == []
    {
      checkpoint, entries := None, [];
    }

    method SetCheckpoint(blockNumber: nat)
      modifies this`checkpoint
      ensures checkpoint == LogScan.SetCheckpoint(old(checkpoint), blockNumber)
      ensures old(checkpoint).Some? ==> checkpoint.Some? && checkpoint.value >= old(checkpoint).value
    {
      if checkpoint.Some? && checkpoint.value >= blockNumber { return; }
      checkpoint := Some(blockNumber);
    }

    method Log(entry: Entry)
      modifies this`entries
      ensures entries == old(entries) + [entry]
    {
      entries := entries + [entry];
    }
  }

  datatype OrderAudit = LeftAlone | CorrectedIt | DiedInLog | Unanswered

  /** The audit has to ask about the order, and the chain does not answer. */
  predicate Unanswerable(env: Env, r: Row) { HasEvidence(r) && env.isExecuted(r.terms.executionId).ContractError? }

  /** The database claims what the chain denies. */
  predicate Suspicious(env: Env, r: Row) { r.status == EXECUTED && env.isExecuted(r.terms.executionId).Unconsumed? }

  predicate NoneTwice(ids: seq<OrderId>) { forall i, j :: 0 <= i < j < |ids| ==> ids[i] != ids[j] }

  predicate FailedOnes(rows: map<OrderId, Row>, ids: seq<OrderId>) {
    NoneTwice(ids) && forall i :: 0 <= i < |ids| ==> ids[i] in rows && rows[ids[i]].status == FAILED
  }

  /** The suspicious ones of `ids`, in order. */
  function SuspiciousOf(env: Env, rows: map<OrderId, Row>, ids: seq<OrderId>): seq<OrderId>
    requires forall i :: 0 <= i < |ids| ==> ids[i] in rows
  {
    if |ids| == 0 then []
    else
      var n := |ids| - 1;
      SuspiciousOf(env, rows, ids[..n]) + if Suspicious(env, rows[ids[n]]) then [ids[n]] else []
  }

  /** The first `n` listed orders are looked at, and these are the suspicious ones. */
  predicate ConfirmedSoFar(env: Env, rows: map<OrderId, Row>, executed: seq<OrderId>, n: nat,
                           suspicious: seq<OrderId>)
  {
    && n <= |executed|
    && (forall i :: 0 <= i < |executed| ==> executed[i] in rows && rows[executed[i]].status == EXECUTED)
    && suspicious == SuspiciousOf(env, rows, executed[..n])
  }

  lemma {:induction false} SuspiciousMeaning(env: Env, rows: map<OrderId, Row>, ids: seq<OrderId>)
    requires forall i :: 0 <= i < |ids| ==> ids[i] in rows
    ensures forall id :: id in SuspiciousOf(env, rows, ids) <==> id in ids && Suspicious(env, rows[id])
    ensures NoneTwice(ids) ==> NoneTwice(SuspiciousOf(env, rows, ids))
  {
    if |ids| != 0 {
      var n := |ids| - 1;
      assert ids == ids[..n] + [ids[n]];
      SuspiciousMeaning(env, rows, ids[..n]);
    }
  }

  lemma SuspiciousSnoc(env: Env, rows: map<OrderId, Row>, ids: seq<OrderId>, i: nat)
    requires i < |ids| && forall j :: 0 <= j < |ids| ==> ids[j] in rows
    ensures SuspiciousOf(env, rows, ids[..i + 1])
         == SuspiciousOf(env, rows, ids[..i]) + if Suspicious(env, rows[ids[i]]) then [ids[i]] else []
  {
    assert ids[..i + 1][..i] == ids[..i];
  }

  function Elements(ids: seq<OrderId>): set<OrderId> { set id | id in ids }

  function SuspiciousIds(env: Env, rows: map<OrderId, Row>): set<OrderId> {
    set id | id in rows && rows[id].status == EXECUTED && env.isExecuted(rows[id].terms.executionId).Unconsumed?
  }

  lemma {:induction false} CountDistinct(ids: seq<OrderId>)
    requires NoneTwice(ids)
    ensures |Elements(ids)| == |ids|
  {
    if |ids| != 0 {
      var front, last := ids[..|ids| - 1], ids[|ids| - 1];
      CountDistinct(front);
      assert ids == front + [last];
      assert last !in Elements(front);
      assert Elements(ids) == Elements(front) + {last};
    }
  }

  datatype PassName = SWEEP | BACKFILL | AUDIT_FAILED | AUDIT_EXECUTED

  datatype Report = Report(stuckChecked: nat, stuckResolved: nat, logsScanned: nat, backfilled: nat,
                           failedButExecuted: nat,
                           executedWithoutEvidence: nat, errors: seq<PassName>)

  /**
   Whether the list queries and, for the backfill, the node answer at all, and where
   else each pass throws, if it does.
   */
  datatype Faults = Faults(listsStuck: bool, answers: bool, listsFailed: bool, listsExecuted: bool,
                           sweep: Option<nat>, backfill: Option<nat>, auditFailed: Option<nat>,
                           auditExecuted: Option<nat>)

  function NoFaults(): Faults { Faults(true, true, true, true, None, None, None, None) }

  /** A pass that got through `n` items threw right after them, or in the log of the last one. */
  predicate ThrewAt(failsAt: Option<nat>, n: nat) {
    failsAt.Some? && (failsAt.value == 2 * n || failsAt.value + 1 == 2 * n)
  }

  /** What other actors write during each of the passes that write. */
  datatype Interference = Interference(sweep: nat -> seq<Event>, backfill: nat -> seq<Event>,
                                       audit: nat -> seq<Event>) {
    ghost predicate By(me: nat) { OthersBy(sweep, me) && OthersBy(backfill, me) && OthersBy(audit, me) }

    ghost predicate Quiet() { OrderRepo.Quiet(sweep) && OrderRepo.Quiet(backfill) && OrderRepo.Quiet(audit) }
  }

  /** Everything written during each of them, by whomever, in order. */
  datatype RunLog = RunLog(sweep: seq<Event>, backfill: seq<Event>, audit: seq<Event>) {
    function All(): seq<Event> { sweep + backfill + audit }
  }

  /** What pass 1 found and did; `stuckChecked` of the report is the number of orders listed. */
  datatype SweepReport = SweepReport(ok: bool, stuck: seq<OrderId>, resolved: nat, results: seq<MonitorStatus>)

  datatype BackfillReport = BackfillReport(ok: bool, scanned: nat, applied: nat, backfilled: nat)

  datatype AuditReport = AuditReport(ok: bool, inspected: seq<OrderId>, corrected: nat)

  /** `stuck` is the list of stuck orders, or nothing at all if the query rejected. */
  ghost predicate ListsStuck(opt: Options, env: Env, rows: map<OrderId, Row>, listed: bool, stuck: seq<OrderId>) {
    if listed then Lists(rows, StuckExecuting(opt.stuckAfterMs, env.now), opt.auditLimit, stuck) else stuck == []
  }

  /**
   Pass 1: the listed orders were checked in order, up to where it threw; it counts,
   and logs, what the checks reported, which covers every write that took effect and
   is exactly those if nobody else wrote.
   */
  ghost predicate SweepResult(opt: Options, env: Env, me: nat, before: map<OrderId, Row>, rows: map<OrderId, Row>,
                              listed: bool, r: SweepReport, log: seq<Event>, added: seq<Entry>, quiet: bool)
  {
    && ListsStuck(opt, env, before, listed, r.stuck) && (r.ok ==> listed) && AllOf(added, STUCK_EXECUTING)
    && |r.results| <= |r.stuck| && (r.ok ==> |r.results| == |r.stuck|)
    && SweptSoFar(env, me, before, rows, r.stuck, |r.results|, r.results, log, quiet)
    && r.resolved == |ResolvedIds(r.stuck, r.results)|
    && (if r.ok then LoggedIds(added) == ResolvedIds(r.stuck, r.results)
        else Trails(LoggedIds(added), ResolvedIds(r.stuck, r.results)))
  }

  /** Pass 2: it counts, and logs, exactly the corrections that took effect; the last may be missing if it threw. */
  ghost predicate BackfillResult(env: Env, me: nat, logs: seq<SwapLog>, before: map<OrderId, Row>,
                                 rows: map<OrderId, Row>,
                                 r: BackfillReport, written: seq<Event>, added: seq<Entry>, quiet: bool)
  {
    && BackfilledSoFar(env, me, before, rows, logs, r.applied, written, quiet) && AllOf(added, LOG_BACKFILL)
    && r.backfilled == |LoggedIds(added)|
    && Trails(LoggedIds(added), Effective(before, written, me))
    && (r.ok ==> r.applied == |logs| && LoggedIds(added) == Effective(before, written, me))
  }

  /** Pass 3: it counts exactly the corrections that took effect, and logs them; the last may be missing if it threw. */
  ghost predicate AuditResult(opt: Options, env: Env, me: nat, before: map<OrderId, Row>, rows: map<OrderId, Row>,
                              r: AuditReport, written: seq<Event>, added: seq<Entry>, quiet: bool)
  {
    && rows == Play(before, written) && AllOf(added, FAILED_BUT_EXECUTED)
    && (r.ok ==> Lists(before, ByStatus(FAILED), opt.auditLimit, r.inspected))
    && (r.ok ==> forall id :: id in r.inspected && id in before ==> !Unanswerable(env, before[id]))
    && (quiet ==> rows == OnIds(env, Audit, before, r.inspected))
    && r.corrected == |Effective(before, written, me)|
    && Trails(LoggedIds(added), Effective(before, written, me))
    && (r.ok ==> LoggedIds(added) == Effective(before, written, me))
  }

  function ReportOf(r1: SweepReport, r2: BackfillReport, r3: AuditReport): Report {
    Report(|r1.stuck|, r1.resolved, r2.scanned, r2.backfilled, r3.corrected, 0,
           (if r1.ok then [] else [SWEEP]) + (if r2.ok then [] else [BACKFILL]) + if r3.ok then [] else [AUDIT_FAILED])
  }

  /**
   What the report counts: the stuck orders listed; the log corrections that took
   effect, unless the backfill threw; the audit corrections that took effect; and of
   the resolutions at least, and exactly if nobody else wrote, those that took effect.
   If nothing threw, every write of the run that took effect has an entry; and if
   nobody else wrote, there are entries about no other orders.
   */
  ghost predicate Accounts(opt: Options, env: Env, me: nat, rows: map<OrderId, Row>, listed: bool, log: RunLog,
                           report: Report, added: seq<Entry>, quiet: bool)
  {
    var swept := Play(rows, log.sweep);
    var stuck := |Where(rows, StuckExecuting(opt.stuckAfterMs, env.now))|;
    && report.stuckChecked == (if !listed then 0 else if stuck <= opt.auditLimit then stuck else opt.auditLimit)
    && report.stuckResolved >= |Effective(rows, log.sweep, me)|
    && (quiet ==> report.stuckResolved == |Effective(rows, log.sweep, me)|)
    && (BACKFILL !in report.errors ==> report.backfilled == |Effective(swept, log.backfill, me)|)
    && report.failedButExecuted == |Effective(Play(swept, log.backfill), log.audit, me)|
    && (report.errors == [] ==> forall id :: id in Effective(rows, log.All(), me) ==> id in LoggedIds(added))
    && (quiet ==> forall id :: id in LoggedIds(added) ==> id in Effective(rows, log.All(), me))
  }

  /**
   What a run that nobody disturbs does: nothing to an order that is settled, and no
   entry about it, whatever throws; and if nothing throws and every row to look at is
   within the limits, what the specification says.
   */
  ghost predicate Corrects(opt: Options, env: Env, logs: seq<SwapLog>, before: map<OrderId, Row>,
                           after: map<OrderId, Row>, added: seq<Entry>, ok: bool, quiet: bool)
  {
    quiet ==>
      && (forall id :: id in before && Settled(env, opt, logs, before[id]) ==> id in after && after[id] == before[id])
      && (forall id :: id in LoggedIds(added) ==> id in before && !Settled(env, opt, logs, before[id]))
      && (ok && Unhindered(env, opt, logs, before) ==> after == Reconciled(env, opt, logs, before))
  }

  /** The chain does not answer for the order. */
  predicate Unasked(env: Env, r: Row) { env.isExecuted(r.terms.executionId).ContractError? }

  ghost predicate SomeUnasked(env: Env, rows: map<OrderId, Row>) { exists id :: id in rows && Unasked(env, rows[id]) }

  /**
   A pass is among the errors only through a fault of its own, or an order that the
   chain does not answer for; what stops one of them does not stop the others.
   */
  ghost predicate Blames(faults: Faults, env: Env, rows: map<OrderId, Row>, errors: seq<PassName>) {
    && (SWEEP in errors ==> !faults.listsStuck || faults.sweep.Some?)
    && (BACKFILL in errors ==> !faults.answers || faults.backfill.Some?)
    && (AUDIT_FAILED in errors ==> !faults.listsFailed || faults.auditFailed.Some? || SomeUnasked(env, rows))
    && (AUDIT_EXECUTED in errors ==> !faults.listsExecuted || faults.auditExecuted.Some? || SomeUnasked(env, rows))
    && (!faults.listsStuck ==> SWEEP in errors) && (!faults.answers ==> BACKFILL in errors)
    && (!faults.listsFailed ==> AUDIT_FAILED in errors)
  }

  /** Every row to look at is within the limits. */
  ghost predicate Unhindered(env: Env, opt: Options, logs: seq<SwapLog>, rows: map<OrderId, Row>) {
    && |Where(rows, StuckExecuting(opt.stuckAfterMs, env.now))| <= opt.auditLimit
    && var filled := OnAll(env, Backfill(logs), OnAll(env, Sweep(opt.stuckAfterMs), rows));
       |Where(filled, ByStatus(FAILED))| <= opt.auditLimit
  }

  function Filled(now: int, log: SwapLog, rows: map<OrderId, Row>): map<OrderId, Row> {
    map id | id in rows :: LogApplied(now, log, rows[id])
  }

  /** `trail` has an entry for each of `ids`, in order, the last one possibly missing. */
  predicate Trails(trail: seq<OrderId>, ids: seq<OrderId>) { trail == ids || (ids != [] && trail == ids[..|ids| - 1]) }

  lemma TrailsOnward(ids: seq<OrderId>, trail: seq<OrderId>, more: seq<OrderId>)
    requires Trails(trail, more)
    ensures Trails(ids + trail, ids + more)
  {
    if trail != more {
      assert (ids + more)[..|ids + more| - 1] == ids + more[..|more| - 1];
    }
  }

  class ReconcilerService {
    const orders: OrderRepository
    const recon: ReconciliationRepository
    const monitor: TxMonitorService
    const opt: Options
    // who writes, in the history of all writes
    const me: nat

    ghost predicate Valid() { monitor.orders == orders && monitor.me == me }

    constructor (orders: OrderRepository, recon: ReconciliationRepository, monitor: TxMonitorService, opt: Options)
      requires monitor.orders == orders
      ensures Valid() && this.orders == orders && this.recon == recon && this.opt == opt
    {
      this.orders, this.recon, this.monitor, this.opt, this.me := orders, recon, monitor, opt, monitor.me;
    }

    // A pass throws before item i if it fails at 2 * i, and in the log of item i, its
    // order written already, if it fails at 2 * i + 1.

    /** Check one stuck order; a resolution is counted before it is logged. */
    method SweepOne(env: Env, id: OrderId, earlier: seq<Event>, others: seq<Event>, dies: bool)
      returns (ok: bool, status: MonitorStatus, ghost log: seq<Event>, ghost added: seq<Entry>)
      requires Valid() && id in orders.rows && ByOthers(earlier, me) && ByOthers(others, me)
      modifies orders, recon`entries
      ensures orders.rows == Play(old(orders.rows), log) && recon.entries == old(recon.entries) + added
      ensures AllOf(added, STUCK_EXECUTING)
      ensures Effective(old(orders.rows), log, me) == [] ||
              (Resolves(status) && Effective(old(orders.rows), log, me) == [id])
      ensures earlier == [] && others == [] ==>
                && orders.rows == OnIds(env, Check, old(orders.rows), [id])
                && Effective(old(orders.rows), log, me) == if Resolves(status) then [id] else []
      ensures ok ==> LoggedIds(added) == if Resolves(status) then [id] else []
      ensures (!ok <==> dies && Resolves(status)) && (!ok ==> added == [])
    {
      added := [];
      status, log := monitor.CheckNext(env, id, earlier, others);
      if !Resolves(status) { return true, status, log, added; }
      if dies { return false, status, log, added; }
      recon.Log(Entry(Some(id), STUCK_EXECUTING));
      added := [Entry(Some(id), STUCK_EXECUTING)];
      LoggedSingle(Entry(Some(id), STUCK_EXECUTING));
      return true, status, log, added;
    }

    /** Check number `i`, with the pass so far. */
    method SweepNext(env: Env, stuck: seq<OrderId>, i: nat, earlier: seq<Event>, others: seq<Event>, dies: bool,
                     resolved: nat, results: seq<MonitorStatus>, ghost before: map<OrderId, Row>,
                     ghost log: seq<Event>, ghost ids: seq<OrderId>, ghost quiet: bool)
      returns (ok: bool, count: nat, all: seq<MonitorStatus>, ghost longer: seq<Event>, ghost added: seq<Entry>,
               ghost more: seq<OrderId>)
      requires Valid() && SweptSoFar(env, me, before, orders.rows, stuck, i, results, log, quiet)
      requires i < |stuck| && stuck[i] in before && (forall j :: 0 <= j < i ==> stuck[j] != stuck[i])
      requires ByOthers(earlier, me) && ByOthers(others, me) && (quiet ==> earlier == [] && others == [])
      requires ResolvedIds(stuck, results) == ids && resolved == |ids|
      modifies orders, recon`entries
      ensures SweptSoFar(env, me, before, orders.rows, stuck, i + 1, all, longer, quiet)
      ensures ResolvedIds(stuck, all) == more && count == |more|
      ensures recon.entries == old(recon.entries) + added && AllOf(added, STUCK_EXECUTING)
      ensures if ok then more == ids + LoggedIds(added) else dies && Trails(ids + LoggedIds(added), more)
    {
      ghost var rows := orders.rows;
      var status;
      ghost var written;
      ok, status, written, added := SweepOne(env, stuck[i], earlier, others, dies);
      SweepStep(env, me, before, rows, stuck, i, results, log, quiet, status, written);
      all, longer, more := results + [status], log + written, ids + if Resolves(status) then [stuck[i]] else [];
      count := if Resolves(status) then resolved + 1 else resolved;
    }

    /** `others(2 * i)` is written before check number `i` reads, and `others(2 * i + 1)` before it writes. */
    method SweepAll(env: Env, stuck: seq<OrderId>, others: nat -> seq<Event>, failsAt: Option<nat>)
      returns (ok: bool, resolved: nat, results: seq<MonitorStatus>, ghost log: seq<Event>, ghost added: seq<Entry>)
      requires Valid() && OthersBy(others, me)
      requires forall i :: 0 <= i < |stuck| ==> stuck[i] in orders.rows
      requires forall i, j :: 0 <= i < j < |stuck| ==> stuck[i] != stuck[j]
      modifies orders, recon`entries
      ensures |results| <= |stuck| && (ok ==> |results| == |stuck|) && (ok || ThrewAt(failsAt, |results|))
      ensures SweptSoFar(env, me, old(orders.rows), orders.rows, stuck, |results|, results, log, Quiet(others))
      ensures recon.entries == old(recon.entries) + added && AllOf(added, STUCK_EXECUTING)
      ensures resolved == |ResolvedIds(stuck, results)|
      ensures if ok then LoggedIds(added) == ResolvedIds(stuck, results)
              else Trails(LoggedIds(added), ResolvedIds(stuck, results))
    {
      ghost var before, ids := orders.rows, [];
      resolved, results, log, added := 0, [], [], [];
      NoneSwept(env, before, stuck);
      var i := 0;
      while i < |stuck|
        invariant 0 <= i <= |stuck|
        invariant SweptSoFar(env, me, before, orders.rows, stuck, i, results, log, Quiet(others))
        invariant recon.entries == old(recon.entries) + added && AllOf(added, STUCK_EXECUTING)
        invariant LoggedIds(added) == ids
        invariant ResolvedIds(stuck, results) == ids && resolved == |ids|
      {
        var fails, dies := failsAt == Some(2 * i), failsAt == Some(2 * i + 1);
        if fails { return false, resolved, results, log, added; }
        ghost var entries;
        ok, resolved, results, log, entries, ids :=
          SweepNext(env, stuck, i, others(2 * i), others(2 * i + 1), dies, resolved, results, before, log, ids,
                    Quiet(others));
        LoggedConcat(added, entries);
        added := added + entries;
        i := i + 1;
        if !ok { return; }
      }
      ok := true;
    }

    /** Pass 1. A check that resolves nothing leaves the order to the next run. */
    method SweepStuckExecuting(env: Env, others: nat -> seq<Event>, lists: bool, failsAt: Option<nat>)
      returns (r: SweepReport, ghost log: seq<Event>, ghost added: seq<Entry>)
      requires Valid() && OthersBy(others, me)
      modifies orders, recon`entries
      ensures SweepResult(opt, env, me, old(orders.rows), orders.rows, lists, r, log, added, Quiet(others))
      ensures lists ==> OldestSubmittedBefore(old(orders.rows), env.now - opt.stuckAfterMs, opt.auditLimit, r.stuck)
      ensures recon.entries == old(recon.entries) + added && (r.ok || !lists || ThrewAt(failsAt, |r.results|))
    {
      if !lists {
        NoneSwept(env, orders.rows, []);
        return SweepReport(false, [], 0, []), [], [];
      }
      var stuck := orders.FindMany(StuckExecuting(opt.stuckAfterMs, env.now), opt.auditLimit);
      var ok, resolved, results;
      ok, resolved, results, log, added := SweepAll(env, stuck, others, failsAt);
      r := SweepReport(ok, stuck, resolved, results);
    }

    /**
     Writes the row whose id the log carries, unless there is none, or it is EXECUTED
     already, or `others` have changed its status since it was read.
     */
    method ApplyLog(env: Env, log: SwapLog, others: seq<Event>, dies: bool)
      returns (ok: bool, corrected: bool, ghost written: seq<Event>, ghost added: seq<Entry>)
      requires UniqueIds(orders.rows) && ByOthers(others, me)
      modifies orders, recon`entries
      ensures orders.rows == Play(old(orders.rows), written) && recon.entries == old(recon.entries) + added
      ensures AllOf(added, LOG_BACKFILL) && (!ok ==> added == [])
      ensures forall id :: id in old(orders.rows) && old(orders.rows)[id].terms.executionId == log.executionId ==>
                Effective(old(orders.rows), written, me)
                == if old(orders.rows)[id].status != EXECUTED
                      && Play(old(orders.rows), others)[id].status == old(orders.rows)[id].status then [id] else []
      ensures (forall id :: id in old(orders.rows) ==> old(orders.rows)[id].terms.executionId != log.executionId) ==>
                Effective(old(orders.rows), written, me) == []
      ensures others == [] ==> orders.rows == Filled(env.now, log, old(orders.rows))
      ensures corrected <==> ok && Effective(old(orders.rows), written, me) != []
      ensures LoggedIds(added) == if ok then Effective(old(orders.rows), written, me) else []
      ensures |Effective(old(orders.rows), written, me)| <= 1
      ensures !ok <==> dies && (Effective(old(orders.rows), written, me) != [] ||
                                forall id :: id in old(orders.rows) ==>
                                  old(orders.rows)[id].terms.executionId != log.executionId)
    {
      ghost var before := orders.rows;
      written, added := [], [];
      FillsOneRow(env.now, log, before);
      var found := orders.FindByExecutionId(log.executionId);
      if found.None? {
        if dies { return false, false, written, added; }
        recon.Log(Entry(None, LOG_BACKFILL));
        added := [Entry(None, LOG_BACKFILL)];
        LoggedSingle(Entry(None, LOG_BACKFILL));
        return true, false, written, added;
      }
      var id := found.value;
      var order := orders.FindById(id);
      if order.value.status == EXECUTED { return true, false, written, added; }
      orders.Meanwhile(others);
      var status := order.value.status;
      ghost var w := LogWrite(env.now, log, order.value);
      OthersThenMine(before, others, Event(me, id, w));
      written := others + [Event(me, id, w)];
      var updated := orders.ForceExecutedFromReconciliation(id, status, Some(log.txHash), Some(log.blockNumber),
                                                            Some(log.amountOut), env.now);
      if updated.None? { return true, false, written, added; }
      if dies { return false, false, written, added; }
      recon.Log(Entry(Some(id), LOG_BACKFILL));
      added := [Entry(Some(id), LOG_BACKFILL)];
      LoggedSingle(Entry(Some(id), LOG_BACKFILL));
      return true, true, written, added;
    }

    /** Log number `i`, with the pass so far; a correction is counted after it is logged. */
    method ApplyNext(env: Env, logs: seq<SwapLog>, i: nat, others: seq<Event>, dies: bool, backfilled: nat,
                     ghost before: map<OrderId, Row>, ghost written: seq<Event>, ghost trail: seq<OrderId>,
                     ghost quiet: bool)
      returns (ok: bool, count: nat, ghost log: seq<Event>, ghost added: seq<Entry>, ghost logged: seq<OrderId>)
      requires BackfilledSoFar(env, me, before, orders.rows, logs, i, written, quiet) && i < |logs|
      requires ByOthers(others, me) && (quiet ==> others == [])
      requires Effective(before, written, me) == trail && backfilled == |trail|
      modifies orders, recon`entries
      ensures BackfilledSoFar(env, me, before, orders.rows, logs, i + 1, log, quiet)
      ensures recon.entries == old(recon.entries) + added && AllOf(added, LOG_BACKFILL)
      ensures logged == trail + LoggedIds(added) && count == |logged|
      ensures if ok then Effective(before, log, me) == logged else dies && Trails(logged, Effective(before, log, me))
    {
      ghost var rows := orders.rows;
      var corrected;
      ghost var more;
      ok, corrected, more, added := ApplyLog(env, logs[i], others, dies);
      BackfillStep(env, me, before, rows, logs, i, written, quiet, more);
      log, logged := written + more, trail + LoggedIds(added);
      count := if corrected then backfilled + 1 else backfilled;
    }

    /** `others(i)` is written while log number `i` is applied. */
    method ApplyLogs(env: Env, logs: seq<SwapLog>, others: nat -> seq<Event>, failsAt: Option<nat>)
      returns (ok: bool, applied: nat, backfilled: nat, ghost written: seq<Event>, ghost added: seq<Entry>)
      requires UniqueIds(orders.rows) && OthersBy(others, me)
      modifies orders, recon`entries
      ensures BackfilledSoFar(env, me, old(orders.rows), orders.rows, logs, applied, written, Quiet(others))
      ensures recon.entries == old(recon.entries) + added && AllOf(added, LOG_BACKFILL)
      ensures ok || ThrewAt(failsAt, applied)
      ensures backfilled == |LoggedIds(added)| && Trails(LoggedIds(added), Effective(old(orders.rows), written, me))
      ensures ok ==> applied == |logs| && LoggedIds(added) == Effective(old(orders.rows), written, me)
    {
      ghost var before, trail := orders.rows, [];
      NothingBackfilled(env, before);
      applied, backfilled, written, added := 0, 0, [], [];
      assert logs[..0] == [];
      while applied < |logs|
        invariant applied <= |logs|
        invariant BackfilledSoFar(env, me, before, orders.rows, logs, applied, written, Quiet(others))
        invariant recon.entries == old(recon.entries) + added && AllOf(added, LOG_BACKFILL)
        invariant LoggedIds(added) == trail
        invariant Effective(before, written, me) == trail && backfilled == |trail|
      {
        var fails, dies := failsAt == Some(2 * applied), failsAt == Some(2 * applied + 1);
        if fails { return false, applied, backfilled, written, added; }
        ghost var entries;
        ok, backfilled, written, entries, trail := ApplyNext(env, logs, applied, others(applied), dies, backfilled,
                                                             before, written, trail, Quiet(others));
        LoggedConcat(added, entries);
        applied, added := applied + 1, added + entries;
        if !ok { return; }
      }
      ok := failsAt != Some(2 * |logs|);
    }

    /**
     Pass 2. The checkpoint moves only if the node answered, every log was applied and
     every entry written.
     */
    method BackfillFromLogs(env: Env, view: View, answers: bool, others: nat -> seq<Event>, failsAt: Option<nat>)
      returns (r: BackfillReport, ghost written: seq<Event>, ghost added: seq<Entry>)
      requires UniqueIds(orders.rows) && OthersBy(others, me)
      modifies orders, recon
      ensures BackfillResult(env, me, Window(opt.scan, old(recon.checkpoint), view), old(orders.rows), orders.rows, r,
                             written, added, Quiet(others))
      ensures r.scanned == if answers then |Window(opt.scan, old(recon.checkpoint), view)| else 0
      ensures recon.checkpoint == if r.ok then AfterPass(opt.scan, old(recon.checkpoint), view.head)
                                  else old(recon.checkpoint)
      ensures recon.entries == old(recon.entries) + added && (r.ok ==> answers)
      ensures r.ok || !answers || ThrewAt(failsAt, r.applied)
    {
      var from, upTo := From(opt.scan, recon.checkpoint, view.head), To(opt.scan, recon.checkpoint, view.head);
      var logs := LogsIn(view, from, upTo);
      NothingBackfilled(env, orders.rows);
      assert logs[..0] == [];
      if !answers { return BackfillReport(false, 0, 0, 0), [], []; }
      if upTo < from { return BackfillReport(true, 0, 0, 0), [], []; }
      var ok, applied, backfilled;
      ok, applied, backfilled, written, added := ApplyLogs(env, logs, others, failsAt);
      if ok { recon.SetCheckpoint(upTo); }
      r := BackfillReport(ok, |logs|, applied, backfilled);
    }

    /**
     One order of the FAILED audit, as it was listed. Only orders that got as far as
     signing are looked up on chain. A correction is counted before it is logged.
     */
    method AuditOrder(env: Env, id: OrderId, order: Row, others: seq<Event>, dies: bool)
      returns (result: OrderAudit, ghost written: seq<Event>, ghost added: seq<Entry>)
      requires id in orders.rows && order.status == FAILED && ByOthers(others, me)
      modifies orders, recon`entries
      ensures orders.rows == Play(old(orders.rows), written) && recon.entries == old(recon.entries) + added
      ensures AllOf(added, FAILED_BUT_EXECUTED) && (!result.CorrectedIt? ==> added == [])
      ensures Effective(old(orders.rows), written, me)
           == if Audited(env, order) != order && Play(old(orders.rows), others)[id].status == FAILED then [id] else []
      ensures result.CorrectedIt? || result.DiedInLog? <==> Effective(old(orders.rows), written, me) != []
      ensures result.Unanswered? <==>
                && (order.txHash.Some? || order.submittedAt.Some?)
                && env.isExecuted(order.terms.executionId).ContractError?
      ensures others == [] && order == old(orders.rows)[id] ==>
                orders.rows == if result.Unanswered? then old(orders.rows)
                               else OnIds(env, Audit, old(orders.rows), [id])
      ensures LoggedIds(added) == if result.CorrectedIt? then [id] else []
      ensures result.DiedInLog? <==> dies && Effective(old(orders.rows), written, me) != []
    {
      ghost var before := orders.rows;
      written, added := others, [];
      orders.Meanwhile(others);
      OthersHaveNoEffectOfMine(before, others, me);
      AuditsOneRow(env, before, id, others, order);
      if order.txHash.None? && order.submittedAt.None? { return LeftAlone, written, added; }
      var answer := env.isExecuted(order.terms.executionId);
      if answer.ContractError? { return Unanswered, written, added; }
      if !answer.Consumed? { return LeftAlone, written, added; }
      OthersThenMine(before, others, Event(me, id, AuditWrite(env)));
      written := others + [Event(me, id, AuditWrite(env))];
      var updated := orders.ForceExecutedFromReconciliation(id, FAILED, None, None, None, env.now);
      if updated.None? { return LeftAlone, written, added; }
      if dies { return DiedInLog, written, added; }
      recon.Log(Entry(Some(id), FAILED_BUT_EXECUTED));
      added := [Entry(Some(id), FAILED_BUT_EXECUTED)];
      LoggedSingle(Entry(Some(id), FAILED_BUT_EXECUTED));
      return CorrectedIt, written, added;
    }

    /** Order number `i` of the audit, with the pass so far; a correction is counted before it is logged. */
    method AuditNext(env: Env, snapshot: map<OrderId, Row>, failed: seq<OrderId>, i: nat, others: seq<Event>,
                     dies: bool,
                     corrected: nat, ghost written: seq<Event>, ghost trail: seq<OrderId>, ghost quiet: bool)
      returns (result: OrderAudit, count: nat, ghost log: seq<Event>, ghost added: seq<Entry>,
               ghost logged: seq<OrderId>)
      requires AuditedSoFar(env, me, snapshot, orders.rows, failed, i, written, quiet) && i < |failed|
      requires FailedOnes(snapshot, failed)
      requires ByOthers(others, me) && (quiet ==> others == [])
      requires Effective(snapshot, written, me) == trail && corrected == |trail|
      modifies orders, recon`entries
      ensures AuditedSoFar(env, me, snapshot, orders.rows, failed, if result.Unanswered? then i else i + 1, log, quiet)
      ensures recon.entries == old(recon.entries) + added && AllOf(added, FAILED_BUT_EXECUTED)
      ensures logged == trail + LoggedIds(added)
      ensures count == |Effective(snapshot, log, me)|
      ensures if result.DiedInLog? then Trails(logged, Effective(snapshot, log, me))
              else Effective(snapshot, log, me) == logged
      ensures (result.DiedInLog? ==> dies) && (result.Unanswered? <==> Unanswerable(env, snapshot[failed[i]]))
    {
      ghost var rows := orders.rows;
      ghost var more;
      result, more, added := AuditOrder(env, failed[i], snapshot[failed[i]], others, dies);
      AuditStep(env, me, snapshot, rows, failed, i, written, quiet, more);
      log, logged := written + more, trail + LoggedIds(added);
      count := if result.CorrectedIt? || result.DiedInLog? then corrected + 1 else corrected;
    }

    /** `others(i)` is written before order number `i` is. */
    method AuditAll(env: Env, snapshot: map<OrderId, Row>, failed: seq<OrderId>, others: nat -> seq<Event>,
                    failsAt: Option<nat>)
      returns (ok: bool, n: nat, corrected: nat, ghost written: seq<Event>, ghost added: seq<Entry>)
      requires OthersBy(others, me) && orders.rows == snapshot
      requires FailedOnes(snapshot, failed)
      modifies orders, recon`entries
      ensures AuditedSoFar(env, me, snapshot, orders.rows, failed, n, written, Quiet(others))
      ensures recon.entries == old(recon.entries) + added && AllOf(added, FAILED_BUT_EXECUTED)
      ensures corrected == |Effective(snapshot, written, me)|
      ensures Trails(LoggedIds(added), Effective(snapshot, written, me))
      ensures ok ==> n == |failed| && LoggedIds(added) == Effective(snapshot, written, me)
      ensures ok || ThrewAt(failsAt, n) || (n < |failed| && Unanswerable(env, snapshot[failed[n]]))
    {
      ghost var trail := [];
      corrected, written, added, n := 0, [], [], 0;
      assert failed[..0] == [];
      while n < |failed|
        invariant n <= |failed|
        invariant AuditedSoFar(env, me, snapshot, orders.rows, failed, n, written, Quiet(others))
        invariant recon.entries == old(recon.entries) + added && AllOf(added, FAILED_BUT_EXECUTED)
        invariant LoggedIds(added) == trail
        invariant Effective(snapshot, written, me) == trail && corrected == |trail|
      {
        var fails, dies := failsAt == Some(2 * n), failsAt == Some(2 * n + 1);
        if fails { return false, n, corrected, written, added; }
        var result;
        ghost var entries;
        result, corrected, written, entries, trail := AuditNext(env, snapshot, failed, n, others(n), dies, corrected,
                                                                written, trail, Quiet(others));
        LoggedConcat(added, entries);
        added := added + entries;
        if result.Unanswered? { return false, n, corrected, written, added; }
        n := n + 1;
        if result.DiedInLog? { return false, n, corrected, written, added; }
      }
      ok := true;
    }

    /** Pass 3. An unanswered isExecuted ends the pass at that order. */
    method AuditFailed(env: Env, others: nat -> seq<Event>, lists: bool, failsAt: Option<nat>)
      returns (r: AuditReport, ghost written: seq<Event>, ghost added: seq<Entry>)
      requires OthersBy(others, me)
      modifies orders, recon`entries
      ensures AuditResult(opt, env, me, old(orders.rows), orders.rows, r, written, added, Quiet(others))
      ensures recon.entries == old(recon.entries) + added
      ensures (r.ok ==> lists) && (r.ok || !lists || ThrewAt(failsAt, |r.inspected|) || SomeUnasked(env, orders.rows))
    {
      ghost var before := orders.rows;
      if !lists { return AuditReport(false, [], 0), [], []; }
      var failed := orders.FindMany(ByStatus(FAILED), opt.auditLimit);
      var ok, n, corrected;
      ok, n, corrected, written, added := AuditAll(env, orders.rows, failed, others, failsAt);
      assert failed[..|failed|] == failed;
      if !ok && !ThrewAt(failsAt, n) { PlayKeepsTerms(before, written, failed[n]); }
      r := AuditReport(ok, failed[..n], corrected);
    }

    /** One order of the last audit; it is counted before it is logged. */
    method ConfirmOrder(env: Env, id: OrderId, dies: bool)
      returns (answered: bool, ok: bool, suspicious: seq<OrderId>, ghost added: seq<Entry>)
      requires id in orders.rows && orders.rows[id].status == EXECUTED
      modifies recon`entries
      ensures recon.entries == old(recon.entries) + added && AllOf(added, EXECUTED_NO_EVIDENCE)
      ensures suspicious == if env.isExecuted(orders.rows[id].terms.executionId).Unconsumed? then [id] else []
      ensures !answered <==> env.isExecuted(orders.rows[id].terms.executionId).ContractError?
      ensures if ok then LoggedIds(added) == suspicious else dies && Trails(LoggedIds(added), suspicious)
    {
      suspicious, added, ok := [], [], true;
      var order := orders.FindById(id);
      var answer := env.isExecuted(order.value.terms.executionId);
      answered := !answer.ContractError?;
      if answer.Unconsumed? {
        suspicious, ok := [id], !dies;
        if ok {
          recon.Log(Entry(Some(id), EXECUTED_NO_EVIDENCE));
          added := [Entry(Some(id), EXECUTED_NO_EVIDENCE)];
          LoggedSingle(Entry(Some(id), EXECUTED_NO_EVIDENCE));
        }
      }
    }

    /** Order number `n` of the audit, with the pass so far. */
    method ConfirmNext(env: Env, executed: seq<OrderId>, n: nat, dies: bool, suspicious: seq<OrderId>)
      returns (answered: bool, ok: bool, longer: seq<OrderId>, ghost added: seq<Entry>)
      requires ConfirmedSoFar(env, orders.rows, executed, n, suspicious) && n < |executed|
      modifies recon`entries
      ensures recon.entries == old(recon.entries) + added && AllOf(added, EXECUTED_NO_EVIDENCE)
      ensures ConfirmedSoFar(env, orders.rows, executed, n + 1, longer)
      ensures !answered <==> Unasked(env, orders.rows[executed[n]])
      ensures if ok then longer == suspicious + LoggedIds(added)
              else dies && Trails(suspicious + LoggedIds(added), longer)
    {
      SuspiciousSnoc(env, orders.rows, executed, n);
      var more;
      answered, ok, more, added := ConfirmOrder(env, executed[n], dies);
      longer := suspicious + more;
      if !ok { TrailsOnward(suspicious, LoggedIds(added), more); }
    }

    method ConfirmAll(env: Env, executed: seq<OrderId>, failsAt: Option<nat>)
      returns (ok: bool, n: nat, suspicious: seq<OrderId>, ghost added: seq<Entry>)
      requires forall i :: 0 <= i < |executed| ==>
                 executed[i] in orders.rows && orders.rows[executed[i]].status == EXECUTED
      modifies recon`entries
      ensures recon.entries == old(recon.entries) + added && AllOf(added, EXECUTED_NO_EVIDENCE)
      ensures ConfirmedSoFar(env, orders.rows, executed, n, suspicious)
      ensures ok || ThrewAt(failsAt, n) || (0 < n && Unasked(env, orders.rows[executed[n - 1]]))
      ensures if ok then n == |executed| && LoggedIds(added) == suspicious else Trails(LoggedIds(added), suspicious)
    {
      suspicious, added, n := [], [], 0;
      assert executed[..0] == [];
      while n < |executed|
        invariant ConfirmedSoFar(env, orders.rows, executed, n, suspicious)
        invariant recon.entries == old(recon.entries) + added && AllOf(added, EXECUTED_NO_EVIDENCE)
        invariant LoggedIds(added) == suspicious
      {
        var fails, dies := failsAt == Some(2 * n), failsAt == Some(2 * n + 1);
        if fails { return false, n, suspicious, added; }
        var answered;
        ghost var entries;
        answered, ok, suspicious, entries := ConfirmNext(env, executed, n, dies, suspicious);
        LoggedConcat(added, entries);
        n, added := n + 1, added + entries;
        if !answered || !ok { return false, n, suspicious, added; }
      }
      ok := true;
    }

    /** Pass 4. EXECUTED rows that the chain does not confirm are reported, never corrected. */
    method AuditExecuted(env: Env, lists: bool, failsAt: Option<nat>)
      returns (ok: bool, executed: seq<OrderId>, n: nat, suspicious: seq<OrderId>, ghost added: seq<Entry>)
      modifies recon`entries
      ensures recon.entries == old(recon.entries) + added && AllOf(added, EXECUTED_NO_EVIDENCE)
      ensures if lists then Lists(orders.rows, ByStatus(EXECUTED), opt.auditLimit, executed) else !ok && executed == []
      ensures n <= |executed| && suspicious == SuspiciousOf(env, orders.rows, executed[..n])
      ensures forall id :: id in suspicious <==>
                id in executed[..n] && env.isExecuted(orders.rows[id].terms.executionId).Unconsumed?
      ensures ok || !lists || ThrewAt(failsAt, n) || SomeUnasked(env, orders.rows)
      ensures if ok then n == |executed| && LoggedIds(added) == suspicious else Trails(LoggedIds(added), suspicious)
    {
      if !lists { return false, [], 0, [], []; }
      executed := orders.FindMany(ByStatus(EXECUTED), opt.auditLimit);
      ok, n, suspicious, added := ConfirmAll(env, executed, failsAt);
      SuspiciousMeaning(env, orders.rows, executed[..n]);
    }

    /** The passes that write orders, each whether or not the one before it threw. */
    method Passes(env: Env, view: View, faults: Faults, others: Interference)
      returns (r1: SweepReport, r2: BackfillReport, r3: AuditReport, ghost log: RunLog, ghost swept: map<OrderId, Row>,
               ghost filled: map<OrderId, Row>, ghost e1: seq<Entry>, ghost e2: seq<Entry>, ghost e3: seq<Entry>)
      requires Valid() && UniqueIds(orders.rows) && others.By(me)
      modifies orders, recon
      ensures recon.entries == old(recon.entries) + (e1 + e2 + e3)
      ensures recon.checkpoint == if r2.ok then AfterPass(opt.scan, old(recon.checkpoint), view.head)
                                  else old(recon.checkpoint)
      ensures r2.scanned == if faults.answers then |Window(opt.scan, old(recon.checkpoint), view)| else 0
      ensures SweepResult(opt, env, me, old(orders.rows), swept, faults.listsStuck, r1, log.sweep, e1, others.Quiet())
      ensures BackfillResult(env, me, Window(opt.scan, old(recon.checkpoint), view), swept, filled, r2, log.backfill,
                             e2, others.Quiet())
      ensures AuditResult(opt, env, me, filled, orders.rows, r3, log.audit, e3, others.Quiet())
      ensures (r1.ok ==> faults.listsStuck) && (r1.ok || !faults.listsStuck || faults.sweep.Some?)
      ensures (r2.ok ==> faults.answers) && (r2.ok || !faults.answers || faults.backfill.Some?)
      ensures r3.ok ==> faults.listsFailed
      ensures r3.ok || !faults.listsFailed || faults.auditFailed.Some? || SomeUnasked(env, orders.rows)
    {
      ghost var logs, rows, entries := Window(opt.scan, recon.checkpoint, view), orders.rows, recon.entries;
      ghost var sweep, backfill, audit;
      r1, sweep, e1 := SweepStuckExecuting(env, others.sweep, faults.listsStuck, faults.sweep);
      PlayKeepsUniqueIds(rows, sweep);
      swept := orders.rows;
      r2, backfill, e2 := BackfillFromLogs(env, view, faults.answers, others.backfill, faults.backfill);
      filled := orders.rows;
      r3, audit, e3 := AuditFailed(env, others.audit, faults.listsFailed, faults.auditFailed);
      log := RunLog(sweep, backfill, audit);
      assert entries + e1 + e2 + e3 == entries + (e1 + e2 + e3);
      PassesOfQuietRun(opt, env, me, logs, rows, swept, filled, orders.rows, faults.listsStuck, r1, r2, r3, log, e1, e2,
                       e3, others);
    }

    /** What those passes amount to. */
    method Correct(env: Env, view: View, faults: Faults, others: Interference)
      returns (report: Report, ghost log: RunLog, ghost added: seq<Entry>)
      requires Valid() && UniqueIds(orders.rows) && others.By(me)
      modifies orders, recon
      ensures recon.entries == old(recon.entries) + added
      ensures recon.checkpoint == if BACKFILL in report.errors then old(recon.checkpoint)
                                  else AfterPass(opt.scan, old(recon.checkpoint), view.head)
      ensures report.logsScanned == if faults.answers then |Window(opt.scan, old(recon.checkpoint), view)| else 0
      ensures RunResult(opt, env, me, Window(opt.scan, old(recon.checkpoint), view), old(orders.rows), orders.rows,
                        faults.listsStuck, log, report, added, others.Quiet())
      ensures Blames(faults, env, orders.rows, report.errors) && AUDIT_EXECUTED !in report.errors
    {
      ghost var logs, rows := Window(opt.scan, recon.checkpoint, view), orders.rows;
      ghost var swept, filled, e1, e2, e3;
      var r1, r2, r3;
      r1, r2, r3, log, swept, filled, e1, e2, e3 := Passes(env, view, faults, others);
      added, report := e1 + e2 + e3, ReportOf(r1, r2, r3);
      RunMeans(opt, env, me, logs, rows, swept, filled, orders.rows, faults.listsStuck, r1, r2, r3, log, e1, e2, e3,
               others.Quiet());
      ErrorsOf(r1, r2, r3);
    }

    /** Pass 4 at the end of a run, as it shows in the report. */
    method Confirm(env: Env, report: Report, lists: bool, failsAt: Option<nat>)
      returns (after: Report, ghost added: seq<Entry>)
      modifies recon`entries
      ensures recon.entries == old(recon.entries) + added && AllOf(added, EXECUTED_NO_EVIDENCE)
      ensures after == report.(executedWithoutEvidence := after.executedWithoutEvidence, errors := after.errors)
      ensures after.errors == report.errors || after.errors == report.errors + [AUDIT_EXECUTED]
      ensures AUDIT_EXECUTED !in after.errors && |Where(orders.rows, ByStatus(EXECUTED))| <= opt.auditLimit ==>
                after.executedWithoutEvidence == |SuspiciousIds(env, orders.rows)|
      ensures lists && failsAt.None? && !SomeUnasked(env, orders.rows) ==> after.errors == report.errors
      ensures !lists ==> after.errors == report.errors + [AUDIT_EXECUTED]
    {
      var ok, executed, n, suspicious;
      ok, executed, n, suspicious, added := AuditExecuted(env, lists, failsAt);
      after := report.(executedWithoutEvidence := |suspicious|,
                       errors := report.errors + if ok then [] else [AUDIT_EXECUTED]);
      if ok { AllSuspicious(env, orders.rows, opt.auditLimit, executed); }
    }

    /** The four passes. `added` is what the correcting ones log, and `denied` what the last one does. */
    method Run(env: Env, view: View, faults: Faults, others: Interference)
      returns (report: Report, ghost log: RunLog, ghost added: seq<Entry>, ghost denied: seq<Entry>)
      requires Valid() && UniqueIds(orders.rows) && others.By(me)
      modifies orders, recon
      ensures recon.entries == old(recon.entries) + added + denied && AllOf(denied, EXECUTED_NO_EVIDENCE)
      ensures recon.checkpoint == if BACKFILL in report.errors then old(recon.checkpoint)
                                  else AfterPass(opt.scan, old(recon.checkpoint), view.head)
      ensures report.logsScanned == if faults.answers then |Window(opt.scan, old(recon.checkpoint), view)| else 0
      ensures RunResult(opt, env, me, Window(opt.scan, old(recon.checkpoint), view), old(orders.rows), orders.rows,
                        faults.listsStuck, log, report, added, others.Quiet())
      ensures AUDIT_EXECUTED !in report.errors && |Where(orders.rows, ByStatus(EXECUTED))| <= opt.auditLimit ==>
                report.executedWithoutEvidence == |SuspiciousIds(env, orders.rows)|
      ensures Blames(faults, env, orders.rows, report.errors)
      ensures !faults.listsExecuted ==> AUDIT_EXECUTED in report.errors
      ensures faults == NoFaults() && !SomeUnasked(env, orders.rows) ==> report.errors == []
    {
      ghost var logs := Window(opt.scan, recon.checkpoint, view);
      report, log, added := Correct(env, view, faults, others);
      ghost var before := report;
      report, denied := Confirm(env, report, faults.listsExecuted, faults.auditExecuted);
      AccountsStay(opt, env, me, logs, old(orders.rows), orders.rows, faults.listsStuck, log, before, report, added,
                   others.Quiet());
      if faults == NoFaults() && !SomeUnasked(env, orders.rows) { NoErrors(report.errors); }
    }

    /**
     The scheduled runs, one after the other, with nobody else writing. An order that is
     EXECUTED stays as it is, and none of them ever logs a correction of it: an entry
     that was lost is lost for good.
     */
    method Repeat(runs: seq<Scheduled>) returns (ghost added: seq<Entry>)
      requires Valid() && UniqueIds(orders.rows)
      modifies orders, recon
      ensures UniqueIds(orders.rows) && recon.entries == old(recon.entries) + added
      ensures forall id :: id in old(orders.rows) && old(orders.rows)[id].status == EXECUTED ==>
                id in orders.rows && orders.rows[id] == old(orders.rows)[id] && NoCorrectionOf(added, id)
    {
      ghost var before := orders.rows;
      added := [];
      var i := 0;
      while i < |runs|
        invariant 0 <= i <= |runs| && UniqueIds(orders.rows)
        invariant recon.entries == old(recon.entries) + added
        invariant forall id :: id in before && before[id].status == EXECUTED ==>
                    id in orders.rows && orders.rows[id] == before[id] && NoCorrectionOf(added, id)
      {
        ghost var more := RunAlone(runs[i]);
        added := added + more;
        i := i + 1;
      }
    }

    method RunAlone(run: Scheduled) returns (ghost added: seq<Entry>)
      requires Valid() && UniqueIds(orders.rows)
      modifies orders, recon
      ensures UniqueIds(orders.rows) && recon.entries == old(recon.entries) + added
      ensures forall id :: id in old(orders.rows) && old(orders.rows)[id].status == EXECUTED ==>
                id in orders.rows && orders.rows[id] == old(orders.rows)[id] && NoCorrectionOf(added, id)
    {
      ghost var before, logs := orders.rows, Window(opt.scan, recon.checkpoint, run.view);
      var report;
      ghost var log, corrections, denied;
      report, log, corrections, denied := Run(run.env, run.view, run.faults, Nobody());
      added := corrections + denied;
      forall id | id in before && before[id].status == EXECUTED
        ensures id in orders.rows && orders.rows[id] == before[id] && NoCorrectionOf(added, id)
      {
        ExecutedIsSettled(run.env, opt, logs, before[id]);
        NotLogged(corrections, denied, id);
      }
    }
  }

  // ---- the audit trail --------------------------------------------------------------

  /** One scheduled run: what the chain answers, and where it fails. */
  datatype Scheduled = Scheduled(env: Env, view: View, faults: Faults)

  function Nobody(): Interference { Interference(_ => [], _ => [], _ => []) }

  /** No entry says that the order was corrected. */
  predicate NoCorrectionOf(entries: seq<Entry>, id: OrderId) {
    forall e :: e in entries && e.orderId == Some(id) ==> e.kind == EXECUTED_NO_EVIDENCE
  }

  lemma NotLogged(corrections: seq<Entry>, denied: seq<Entry>, id: OrderId)
    requires id !in LoggedIds(corrections) && AllOf(denied, EXECUTED_NO_EVIDENCE)
    ensures NoCorrectionOf(corrections + denied, id)
  {
    forall e | e in corrections + denied && e.orderId == Some(id) ensures e.kind == EXECUTED_NO_EVIDENCE {
      if e in corrections { LoggedMeaning(corrections, e); }
    }
  }

  lemma ExecutedIsSettled(env: Env, opt: Options, logs: seq<SwapLog>, r: Row)
    requires r.status == EXECUTED
    ensures Settled(env, opt, logs, r)
  {
    BackfilledMeaning(env.now, logs, r);
  }

  /**
   A forced correction whose entry is lost: the database call for the entry rejects after
   the order was written.
   */
  method BackfillEntryCanBeLost(r: ReconcilerService, env: Env, log: SwapLog, id: OrderId)
    requires UniqueIds(r.orders.rows) && id in r.orders.rows && r.orders.rows[id].status == EXECUTING
    requires r.orders.rows[id].terms.executionId == log.executionId
    modifies r.orders, r.recon`entries
    ensures id in r.orders.rows && r.orders.rows[id].status == EXECUTED && r.recon.entries == old(r.recon.entries)
  {
    var ok, corrected;
    ghost var written, added;
    ok, corrected, written, added := r.ApplyLog(env, log, [], true);
  }

  /** The same in the FAILED audit. */
  method AuditEntryCanBeLost(r: ReconcilerService, env: Env, id: OrderId)
    requires id in r.orders.rows && r.orders.rows[id].status == FAILED && HasEvidence(r.orders.rows[id])
    requires env.isExecuted(r.orders.rows[id].terms.executionId).Consumed?
    modifies r.orders, r.recon`entries
    ensures id in r.orders.rows && r.orders.rows[id].status == EXECUTED && r.recon.entries == old(r.recon.entries)
  {
    var result;
    ghost var written, added;
    result, written, added := r.AuditOrder(env, id, r.orders.rows[id], [], true);
  }

  // ---- a run as a whole ----------------------------------------------------------

  /** The count of the last audit, from a list that is complete. */
  lemma AllSuspicious(env: Env, rows: map<OrderId, Row>, limit: nat, executed: seq<OrderId>)
    requires Lists(rows, ByStatus(EXECUTED), limit, executed)
    ensures executed[..|executed|] == executed
    ensures |Where(rows, ByStatus(EXECUTED))| <= limit ==>
              |SuspiciousOf(env, rows, executed)| == |SuspiciousIds(env, rows)|
  {
    assert executed[..|executed|] == executed;
    var suspicious := SuspiciousOf(env, rows, executed);
    SuspiciousMeaning(env, rows, executed);
    CountDistinct(suspicious);
    if |Where(rows, ByStatus(EXECUTED))| <= limit {
      assert Elements(suspicious) == SuspiciousIds(env, rows);
    }
  }

  /** Whatever covers the parts covers the whole. */
  lemma PartsCover(x: seq<OrderId>, y: seq<OrderId>, z: seq<OrderId>, ids: seq<OrderId>)
    requires forall id :: id in x ==> id in ids
    ensures forall id :: id in x + y + z ==> id in ids + y + z
  {
  }

  /** What the correcting passes of a run leave, count and log. */
  ghost predicate RunResult(opt: Options, env: Env, me: nat, logs: seq<SwapLog>, rows: map<OrderId, Row>,
                             last: map<OrderId, Row>, listed: bool, log: RunLog, report: Report, added: seq<Entry>,
                             quiet: bool)
  {
    && last == Play(rows, log.All()) && UniqueIds(last)
    && (forall e :: e in added ==> e.kind != EXECUTED_NO_EVIDENCE)
    && Accounts(opt, env, me, rows, listed, log, report, added, quiet)
    && Corrects(opt, env, logs, rows, last, added, report.errors == [], quiet)
  }

  lemma RunCounts(opt: Options, env: Env, me: nat, logs: seq<SwapLog>, rows: map<OrderId, Row>,
                  swept: map<OrderId, Row>, filled: map<OrderId, Row>, audited: map<OrderId, Row>, listed: bool,
                  r1: SweepReport, r2: BackfillReport, r3: AuditReport, log: RunLog, e1: seq<Entry>, e2: seq<Entry>,
                  e3: seq<Entry>, quiet: bool)
    requires SweepResult(opt, env, me, rows, swept, listed, r1, log.sweep, e1, quiet)
    requires BackfillResult(env, me, logs, swept, filled, r2, log.backfill, e2, quiet)
    requires AuditResult(opt, env, me, filled, audited, r3, log.audit, e3, quiet)
    ensures Accounts(opt, env, me, rows, listed, log, ReportOf(r1, r2, r3), e1 + e2 + e3, quiet)
  {
    ErrorsOf(r1, r2, r3);
    if r1.ok && r2.ok && r3.ok { RunCovers(me, rows, log, e1, e2, e3); }
    if quiet { RunIsCovered(me, rows, log, e1, e2, e3); }
  }

  /** If each pass has an entry for each of its writes that took effect, so has the run. */
  lemma RunCovers(me: nat, rows: map<OrderId, Row>, log: RunLog, e1: seq<Entry>, e2: seq<Entry>, e3: seq<Entry>)
    requires forall id :: id in Effective(rows, log.sweep, me) ==> id in LoggedIds(e1)
    requires LoggedIds(e2) == Effective(Play(rows, log.sweep), log.backfill, me)
    requires LoggedIds(e3) == Effective(Play(Play(rows, log.sweep), log.backfill), log.audit, me)
    ensures forall id :: id in Effective(rows, log.All(), me) ==> id in LoggedIds(e1 + e2 + e3)
  {
    RunAccounts(me, rows, log, e1, e2, e3);
    PartsCover(Effective(rows, log.sweep, me), LoggedIds(e2), LoggedIds(e3), LoggedIds(e1));
  }

  /** And if each pass logs only what took effect, so does the run. */
  lemma RunIsCovered(me: nat, rows: map<OrderId, Row>, log: RunLog, e1: seq<Entry>, e2: seq<Entry>, e3: seq<Entry>)
    requires Trails(LoggedIds(e1), Effective(rows, log.sweep, me))
    requires Trails(LoggedIds(e2), Effective(Play(rows, log.sweep), log.backfill, me))
    requires Trails(LoggedIds(e3), Effective(Play(Play(rows, log.sweep), log.backfill), log.audit, me))
    ensures forall id :: id in LoggedIds(e1 + e2 + e3) ==> id in Effective(rows, log.All(), me)
  {
    RunAccounts(me, rows, log, e1, e2, e3);
  }

  /** Undisturbed, the orders that have nothing to do on them stay. */
  lemma RunKeepsSettled(opt: Options, env: Env, me: nat, logs: seq<SwapLog>, rows: map<OrderId, Row>,
                        swept: map<OrderId, Row>, filled: map<OrderId, Row>, audited: map<OrderId, Row>, listed: bool,
                        r1: SweepReport, r2: BackfillReport, r3: AuditReport, log: RunLog, e1: seq<Entry>,
                        e2: seq<Entry>, e3: seq<Entry>)
    requires SweepResult(opt, env, me, rows, swept, listed, r1, log.sweep, e1, true)
    requires BackfillResult(env, me, logs, swept, filled, r2, log.backfill, e2, true)
    requires AuditResult(opt, env, me, filled, audited, r3, log.audit, e3, true)
    ensures forall id :: id in rows && Settled(env, opt, logs, rows[id]) ==> id in audited && audited[id] == rows[id]
  {
    assert audited == RunRows(env, rows, r1.stuck, |r1.results|, logs, r2.applied, r3.inspected);
    assert forall i :: 0 <= i < |r1.stuck| ==>
             r1.stuck[i] in rows && Selects(StuckExecuting(opt.stuckAfterMs, env.now), rows[r1.stuck[i]]);
    forall id | id in rows && Settled(env, opt, logs, rows[id]) ensures id in audited && audited[id] == rows[id] {
      RunLeavesSettled(env, opt, logs, rows, r1.stuck, |r1.results|, r2.applied, r3.inspected, id);
    }
  }

  /** Undisturbed and unhindered, the orders are the reconciled ones. */
  lemma RunIsReconciliation(opt: Options, env: Env, me: nat, logs: seq<SwapLog>, rows: map<OrderId, Row>,
                            swept: map<OrderId, Row>, filled: map<OrderId, Row>, audited: map<OrderId, Row>,
                            listed: bool, r1: SweepReport, r2: BackfillReport, r3: AuditReport, log: RunLog,
                            e1: seq<Entry>, e2: seq<Entry>, e3: seq<Entry>)
    requires SweepResult(opt, env, me, rows, swept, listed, r1, log.sweep, e1, true)
    requires BackfillResult(env, me, logs, swept, filled, r2, log.backfill, e2, true)
    requires AuditResult(opt, env, me, filled, audited, r3, log.audit, e3, true)
    requires r1.ok && r2.ok && r3.ok && Unhindered(env, opt, logs, rows)
    ensures audited == Reconciled(env, opt, logs, rows)
  {
    assert r1.stuck[..|r1.stuck|] == r1.stuck && logs[..|logs|] == logs;
    assert audited == RunRows(env, rows, r1.stuck, |r1.results|, logs, r2.applied, r3.inspected);
    RunReconciles(env, opt, logs, rows, r1.stuck, |r1.results|, r2.applied, r3.inspected);
  }

  lemma RunCorrects(opt: Options, env: Env, me: nat, logs: seq<SwapLog>, rows: map<OrderId, Row>,
                    swept: map<OrderId, Row>, filled: map<OrderId, Row>, audited: map<OrderId, Row>, listed: bool,
                    r1: SweepReport, r2: BackfillReport, r3: AuditReport, log: RunLog, e1: seq<Entry>, e2: seq<Entry>,
                    e3: seq<Entry>)
    requires SweepResult(opt, env, me, rows, swept, listed, r1, log.sweep, e1, true)
    requires BackfillResult(env, me, logs, swept, filled, r2, log.backfill, e2, true)
    requires AuditResult(opt, env, me, filled, audited, r3, log.audit, e3, true)
    requires audited == Play(rows, log.All())
    requires forall id :: id in LoggedIds(e1 + e2 + e3) ==> id in Effective(rows, log.All(), me)
    ensures Corrects(opt, env, logs, rows, audited, e1 + e2 + e3, r1.ok && r2.ok && r3.ok, true)
  {
    RunKeepsSettled(opt, env, me, logs, rows, swept, filled, audited, listed, r1, r2, r3, log, e1, e2, e3);
    forall id | id in LoggedIds(e1 + e2 + e3) ensures id in rows && !Settled(env, opt, logs, rows[id]) {
      EffectiveMoves(rows, log.All(), me, id);
    }
    if r1.ok && r2.ok && r3.ok && Unhindered(env, opt, logs, rows) {
      RunIsReconciliation(opt, env, me, logs, rows, swept, filled, audited, listed, r1, r2, r3, log, e1, e2, e3);
    }
  }

  /** What is promised of an undisturbed pass is promised of every pass of an undisturbed run. */
  lemma PassesOfQuietRun(opt: Options, env: Env, me: nat, logs: seq<SwapLog>, rows: map<OrderId, Row>,
                         swept: map<OrderId, Row>, filled: map<OrderId, Row>, audited: map<OrderId, Row>, listed: bool,
                         r1: SweepReport, r2: BackfillReport, r3: AuditReport, log: RunLog, e1: seq<Entry>,
                         e2: seq<Entry>, e3: seq<Entry>, others: Interference)
    requires SweepResult(opt, env, me, rows, swept, listed, r1, log.sweep, e1, OrderRepo.Quiet(others.sweep))
    requires BackfillResult(env, me, logs, swept, filled, r2, log.backfill, e2, OrderRepo.Quiet(others.backfill))
    requires AuditResult(opt, env, me, filled, audited, r3, log.audit, e3, OrderRepo.Quiet(others.audit))
    ensures SweepResult(opt, env, me, rows, swept, listed, r1, log.sweep, e1, others.Quiet())
    ensures BackfillResult(env, me, logs, swept, filled, r2, log.backfill, e2, others.Quiet())
    ensures AuditResult(opt, env, me, filled, audited, r3, log.audit, e3, others.Quiet())
  {
  }

  lemma RunMeans(opt: Options, env: Env, me: nat, logs: seq<SwapLog>, rows: map<OrderId, Row>, swept: map<OrderId, Row>,
                 filled: map<OrderId, Row>, audited: map<OrderId, Row>, listed: bool, r1: SweepReport,
                 r2: BackfillReport, r3: AuditReport, log: RunLog, e1: seq<Entry>, e2: seq<Entry>, e3: seq<Entry>,
                 quiet: bool)
    requires UniqueIds(rows)
    requires SweepResult(opt, env, me, rows, swept, listed, r1, log.sweep, e1, quiet)
    requires BackfillResult(env, me, logs, swept, filled, r2, log.backfill, e2, quiet)
    requires AuditResult(opt, env, me, filled, audited, r3, log.audit, e3, quiet)
    ensures RunResult(opt, env, me, logs, rows, audited, listed, log, ReportOf(r1, r2, r3), e1 + e2 + e3, quiet)
  {
    RunKeepsIds(me, rows, log);
    RunCounts(opt, env, me, logs, rows, swept, filled, audited, listed, r1, r2, r3, log, e1, e2, e3, quiet);
    ErrorsOf(r1, r2, r3);
    if quiet {
      RunCorrects(opt, env, me, logs, rows, swept, filled, audited, listed, r1, r2, r3, log, e1, e2, e3);
    }
  }

  lemma ErrorsOf(r1: SweepReport, r2: BackfillReport, r3: AuditReport)
    ensures var errors := ReportOf(r1, r2, r3).errors;
      && (errors == [] <==> r1.ok && r2.ok && r3.ok) && AUDIT_EXECUTED !in errors
      && (SWEEP in errors <==> !r1.ok) && (BACKFILL in errors <==> !r2.ok) && (AUDIT_FAILED in errors <==> !r3.ok)
  {
  }

  lemma NoErrors(errors: seq<PassName>)
    requires SWEEP !in errors && BACKFILL !in errors && AUDIT_FAILED !in errors && AUDIT_EXECUTED !in errors
    ensures errors == []
  {
    if errors != [] {
      assert errors[0] in errors;
      match errors[0]
      case SWEEP =>
      case BACKFILL =>
      case AUDIT_FAILED =>
      case AUDIT_EXECUTED =>
    }
  }

  lemma RunKeepsIds(me: nat, rows: map<OrderId, Row>, log: RunLog)
    requires UniqueIds(rows)
    ensures var swept := Play(rows, log.sweep); var filled := Play(swept, log.backfill);
            var audited := Play(filled, log.audit);
      && audited == Play(rows, log.All())
      && UniqueIds(swept) && UniqueIds(audited)
  {
    RunAccounts(me, rows, log, [], [], []);
    PlayKeepsUniqueIds(rows, log.sweep);
    PlayKeepsUniqueIds(Play(rows, log.sweep), log.backfill);
    PlayKeepsUniqueIds(Play(Play(rows, log.sweep), log.backfill), log.audit);
  }

  /** A pass that writes no order changes nothing of what is said about the ones before it. */
  lemma AccountsStay(opt: Options, env: Env, me: nat, logs: seq<SwapLog>, rows: map<OrderId, Row>,
                     last: map<OrderId, Row>, listed: bool, log: RunLog, before: Report, after: Report,
                     added: seq<Entry>, quiet: bool)
    requires RunResult(opt, env, me, logs, rows, last, listed, log, before, added, quiet)
    requires after == before.(executedWithoutEvidence := after.executedWithoutEvidence, errors := after.errors)
    requires after.errors == before.errors || after.errors == before.errors + [AUDIT_EXECUTED]
    ensures RunResult(opt, env, me, logs, rows, last, listed, log, after, added, quiet)
    ensures BACKFILL in after.errors <==> BACKFILL in before.errors
  {
  }

  lemma RunAccounts(me: nat, rows: map<OrderId, Row>, log: RunLog, e1: seq<Entry>, e2: seq<Entry>, e3: seq<Entry>)
    ensures Play(rows, log.All()) == Play(Play(Play(rows, log.sweep), log.backfill), log.audit)
    ensures Effective(rows, log.All(), me)
         == Effective(rows, log.sweep, me) + Effective(Play(rows, log.sweep), log.backfill, me)
            + Effective(Play(Play(rows, log.sweep), log.backfill), log.audit, me)
    ensures LoggedIds(e1 + e2 + e3) == LoggedIds(e1) + LoggedIds(e2) + LoggedIds(e3)
  {
    TracksMore(rows, log.sweep, log.backfill, me);
    TracksMore(rows, log.sweep + log.backfill, log.audit, me);
    LoggedConcat(e1, e2);
    LoggedConcat(e1 + e2, e3);
  }

  /** The orders after a run in which `checked` stuck orders and `applied` logs were gone through. */
  function RunRows(env: Env, rows: map<OrderId, Row>, stuck: seq<OrderId>, checked: nat, logs: seq<SwapLog>,
                   applied: nat,
                   inspected: seq<OrderId>)
    : map<OrderId, Row>
    requires checked <= |stuck| && applied <= |logs|
  {
    OnIds(env, Audit, OnAll(env, Backfill(logs[..applied]), OnIds(env, Check, rows, stuck[..checked])), inspected)
  }

  /** Undisturbed, the orders are the reconciled ones. */
  lemma RunReconciles(env: Env, opt: Options, logs: seq<SwapLog>, rows: map<OrderId, Row>, stuck: seq<OrderId>,
                      checked: nat,
                      applied: nat, inspected: seq<OrderId>)
    requires Lists(rows, StuckExecuting(opt.stuckAfterMs, env.now), opt.auditLimit, stuck)
    requires checked <= |stuck| && applied <= |logs|
    ensures var filled := OnAll(env, Backfill(logs), OnIds(env, Check, rows, stuck));
      Unhindered(env, opt, logs, rows) && checked == |stuck| && applied == |logs|
      && Lists(filled, ByStatus(FAILED), opt.auditLimit, inspected) ==>
        RunRows(env, rows, stuck, checked, logs, applied, inspected) == Reconciled(env, opt, logs, rows)
  {
    var filled := OnAll(env, Backfill(logs), OnIds(env, Check, rows, stuck));
    if Unhindered(env, opt, logs, rows) && Lists(filled, ByStatus(FAILED), opt.auditLimit, inspected) {
      assert stuck[..|stuck|] == stuck && logs[..|logs|] == logs;
      SweptAll(env, opt.stuckAfterMs, opt.auditLimit, rows, stuck);
      AuditedAll(env, opt.auditLimit, OnAll(env, Backfill(logs), OnAll(env, Sweep(opt.stuckAfterMs), rows)), inspected);
    }
  }

  /** An order with nothing to do on it stays, whatever is listed and wherever a pass stops. */
  lemma RunLeavesSettled(env: Env, opt: Options, logs: seq<SwapLog>, rows: map<OrderId, Row>, stuck: seq<OrderId>,
                         checked: nat, applied: nat, inspected: seq<OrderId>, id: OrderId)
    requires forall i :: 0 <= i < |stuck| ==>
               stuck[i] in rows && Selects(StuckExecuting(opt.stuckAfterMs, env.now), rows[stuck[i]])
    requires checked <= |stuck| && applied <= |logs| && id in rows && Settled(env, opt, logs, rows[id])
    ensures RunRows(env, rows, stuck, checked, logs, applied, inspected)[id] == rows[id]
  {
    PrefixSettled(env, logs, logs[..applied], rows[id]);
  }

  lemma PrefixSettled(env: Env, logs: seq<SwapLog>, applied: seq<SwapLog>, r: Row)
    requires applied <= logs && Corrected(env, Backfill(logs), r) == r
    ensures Corrected(env, Backfill(applied), r) == r
  {
    BackfilledMeaning(env.now, logs, r);
    BackfilledMeaning(env.now, applied, r);
    assert forall log :: log in applied ==> log in logs;
  }

  // ---- steps of the loops ------------------------------------------------------

  function AuditWrite(env: Env): Write { ForceExecuted(FAILED, None, None, None, env.now) }

  /** Alone, the audit of one order as it stands is the specification's. */
  lemma AuditsOneRow(env: Env, rows: map<OrderId, Row>, id: OrderId, others: seq<Event>, order: Row)
    requires id in rows && order.status == FAILED
    ensures others == [] && order == rows[id] ==>
              OnIds(env, Audit, rows, [id])
              == if Audited(env, order) == order then rows else Updated(rows, id, AuditWrite(env))
    ensures others == [] ==> Play(rows, others) == rows
    ensures Audited(env, order) != order <==> HasEvidence(order) && env.isExecuted(order.terms.executionId).Consumed?
  {
  }

  /** Alone, applying a log to the row found is the specification's. */
  lemma FillsOneRow(now: int, log: SwapLog, rows: map<OrderId, Row>)
    requires UniqueIds(rows)
    ensures (forall id :: id in rows ==> rows[id].terms.executionId != log.executionId) ==>
              Filled(now, log, rows) == rows
    ensures forall id :: id in rows && rows[id].terms.executionId == log.executionId ==>
              Filled(now, log, rows)
              == if rows[id].status == EXECUTED then rows else Updated(rows, id, LogWrite(now, log, rows[id]))
  {
  }

  function LogWrite(now: int, log: SwapLog, r: Row): Write {
    ForceExecuted(r.status, Some(log.txHash), Some(log.blockNumber), Some(log.amountOut), now)
  }

  ghost predicate BackfilledSoFar(env: Env, me: nat, before: map<OrderId, Row>, rows: map<OrderId, Row>,
                                  logs: seq<SwapLog>,
                                  i: nat, written: seq<Event>, quiet: bool)
  {
    && i <= |logs|
    && rows == Play(before, written)
    && UniqueIds(rows)
    && (quiet ==> rows == OnAll(env, Backfill(logs[..i]), before))
  }

  lemma BackfillStep(env: Env, me: nat, before: map<OrderId, Row>, rows: map<OrderId, Row>, logs: seq<SwapLog>,
                     i: nat, written: seq<Event>, quiet: bool, more: seq<Event>)
    requires BackfilledSoFar(env, me, before, rows, logs, i, written, quiet) && i < |logs|
    requires quiet ==> Play(rows, more) == Filled(env.now, logs[i], rows)
    ensures BackfilledSoFar(env, me, before, Play(rows, more), logs, i + 1, written + more, quiet)
    ensures Effective(before, written + more, me) == Effective(before, written, me) + Effective(rows, more, me)
  {
    TracksMore(before, written, more, me);
    PlayKeepsUniqueIds(rows, more);
    if quiet { OneMoreLog(env, logs, i, before); }
  }

  lemma NothingBackfilled(env: Env, rows: map<OrderId, Row>)
    ensures OnAll(env, Backfill([]), rows) == rows
  {
  }

  lemma OneMoreLog(env: Env, logs: seq<SwapLog>, i: nat, rows: map<OrderId, Row>)
    requires i < |logs|
    ensures Filled(env.now, logs[i], OnAll(env, Backfill(logs[..i]), rows)) == OnAll(env, Backfill(logs[..i + 1]), rows)
  {
    assert logs[..i + 1][..i] == logs[..i];
  }

  ghost predicate AuditedSoFar(env: Env, me: nat, before: map<OrderId, Row>, rows: map<OrderId, Row>,
                               failed: seq<OrderId>,
                               i: nat, written: seq<Event>, quiet: bool)
  {
    && i <= |failed|
    && rows == Play(before, written)
    && (forall j :: 0 <= j < i && failed[j] in before ==> !Unanswerable(env, before[failed[j]]))
    && (quiet ==> rows == OnIds(env, Audit, before, failed[..i]))
  }

  lemma AuditStep(env: Env, me: nat, before: map<OrderId, Row>, rows: map<OrderId, Row>, failed: seq<OrderId>, i: nat,
                  written: seq<Event>, quiet: bool, more: seq<Event>)
    requires AuditedSoFar(env, me, before, rows, failed, i, written, quiet)
    requires i < |failed| && failed[i] in before && (forall j :: 0 <= j < i ==> failed[j] != failed[i])
    requires quiet && before[failed[i]] == rows[failed[i]] ==>
               Play(rows, more)
               == if Unanswerable(env, before[failed[i]]) then rows else OnIds(env, Audit, rows, [failed[i]])
    ensures Effective(before, written + more, me) == Effective(before, written, me) + Effective(rows, more, me)
    ensures AuditedSoFar(env, me, before, Play(rows, more), failed,
                         if Unanswerable(env, before[failed[i]]) then i else i + 1, written + more, quiet)
  {
    TracksMore(before, written, more, me);
    if quiet { OneMore(env, Audit, before, failed, i); }
  }

  // ---- the FAILED audit over the protocol ---------------------------------------------

  /** The row of a reachable state of the protocol, with one executor and no retries. */
  ghost predicate ReachedBy(cfg: Protocol.Config, now: int, actions: seq<Protocol.Action>, consumed: bool, r: Row) {
    && cfg.singleExecutor && !cfg.retries && cfg.executionId == r.terms.executionId
    && var w := Protocol.Run(cfg, Protocol.Start(r.terms, now), actions);
       w.row == r && w.chain.consumed == consumed
  }

  ghost predicate Reachable(consumed: ExecutionId -> bool, r: Row) {
    exists cfg, now, actions :: ReachedBy(cfg, now, actions, consumed(r.terms.executionId), r)
  }

  /** The contract answers truly of what it has consumed, if it answers. */
  ghost predicate Truthful(env: Env, consumed: ExecutionId -> bool) {
    forall id :: (env.isExecuted(id).Consumed? ==> consumed(id)) && (env.isExecuted(id).Unconsumed? ==> !consumed(id))
  }

  /**
   The FAILED audit hides nothing: on a table whose rows are those of reachable states,
   an undisturbed pass that does not throw, with all FAILED rows within its limit,
   leaves no order FAILED whose id is consumed.
   */
  lemma AuditPassLeavesNoLie(opt: Options, env: Env, me: nat, consumed: ExecutionId -> bool,
                             before: map<OrderId, Row>, after: map<OrderId, Row>, r: AuditReport, written: seq<Event>,
                             added: seq<Entry>)
    requires AuditResult(opt, env, me, before, after, r, written, added, true) && r.ok
    requires |Where(before, ByStatus(FAILED))| <= opt.auditLimit
    requires Truthful(env, consumed) && forall id :: id in before ==> Reachable(consumed, before[id])
    ensures forall id :: id in after ==> !(after[id].status == FAILED && consumed(after[id].terms.executionId))
  {
    FailedAreInspected(opt, env, me, before, after, r, written, added);
    forall id | id in after ensures !(after[id].status == FAILED && consumed(after[id].terms.executionId)) {
      assert after == OnIds(env, Audit, before, r.inspected);
      AuditSettles(env, consumed, before[id], id in r.inspected);
    }
  }

  lemma FailedAreInspected(opt: Options, env: Env, me: nat, before: map<OrderId, Row>, after: map<OrderId, Row>,
                           r: AuditReport, written: seq<Event>, added: seq<Entry>)
    requires AuditResult(opt, env, me, before, after, r, written, added, true) && r.ok
    requires |Where(before, ByStatus(FAILED))| <= opt.auditLimit
    ensures forall id :: id in before && before[id].status == FAILED ==>
              id in r.inspected && !Unanswerable(env, before[id])
  {
    forall id | id in before && before[id].status == FAILED ensures id in r.inspected {
      assert Selects(ByStatus(FAILED), before[id]);
    }
  }

  lemma AuditSettles(env: Env, consumed: ExecutionId -> bool, r: Row, inspected: bool)
    requires Truthful(env, consumed) && Reachable(consumed, r)
    requires r.status == FAILED ==> inspected && !Unanswerable(env, r)
    ensures var s := if inspected then Corrected(env, Audit, r) else r;
            !(s.status == FAILED && consumed(s.terms.executionId))
  {
    if r.status == FAILED && consumed(r.terms.executionId) { ConsumedHasEvidence(consumed, r); }
  }

  lemma ConsumedHasEvidence(consumed: ExecutionId -> bool, r: Row)
    requires Reachable(consumed, r) && r.status == FAILED && consumed(r.terms.executionId)
    ensures HasEvidence(r)
  {
    var cfg, now, actions :| ReachedBy(cfg, now, actions, true, r);
    ProtocolSingle.FailedButConsumedHasEvidence(cfg, r.terms, now, actions);
  }
}
