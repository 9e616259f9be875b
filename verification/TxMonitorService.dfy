/** The transaction monitor service: decides what an outcome means for the order row. */
module TxMonitor {
  import opened Wrappers
  import opened OrderStatus
  import opened Orders
  import opened OrderRepo
  import opened Reconciliation

  datatype MonitorStatus = ResolvedExecuted | ResolvedFailed | StillPending | Unknown | Skipped

  predicate Resolves(s: MonitorStatus) { s.ResolvedExecuted? || s.ResolvedFailed? }

  /** What a check of `id` writes, given the rows it read from. */
  function OwnWrite(env: Env, me: nat, rows: map<OrderId, Row>, id: OrderId): seq<Event> {
    if id !in rows then []
    else match CheckWrite(env, rows[id])
      case None => []
      case Some(w) => [Event(me, id, w)]
  }

  /**
   A check concludes from the row it read, and writes only if the row is EXECUTING
   still: after any writes of others that is exactly if, another claim of the order
   apart, nobody has written its status since.
   */
  lemma CheckLandsExactly(env: Env, rows: map<OrderId, Row>, id: OrderId, others: seq<Event>, me: nat)
    requires id in rows && CheckWrite(env, rows[id]).Some?
    ensures var now := Play(rows, others); var own := Event(me, id, CheckWrite(env, rows[id]).value);
            var ws := WritesTo(id, others);
      && (Takes(now, own) <==> now[id].status == EXECUTING)
      && (StatusWrites(rows[id], ws) == 0 ==> Takes(now, own))
      && ((forall w :: w in ws ==> !(w.Transition? && w.nextStatus == EXECUTING)) ==>
            (Takes(now, own) <==> StatusWrites(rows[id], ws) == 0))
  {
    var ws := WritesTo(id, others);
    PlayRow(rows, others, id);
    VersionCountsStatusWrites(rows[id], ws);
    if forall w :: w in ws ==> !(w.Transition? && w.nextStatus == EXECUTING) {
      StaysExecutingExactly(rows[id], ws);
    }
  }

  /** So a check can report a resolution that it did not make: somebody else failed the order first. */
  lemma CheckCanLose(env: Env, rows: map<OrderId, Row>, id: OrderId, me: nat, other: nat)
    requires id in rows && CheckWrite(env, rows[id]).Some?
    ensures var others := [Event(other, id, Orders.MarkFailed(None, None, env.now))];
            var own := OwnWrite(env, me, rows, id);
      && own != [] && !Takes(Play(rows, others), own[0])
      && Play(rows, others + own) == Play(rows, others)
  {
    var e := Event(other, id, Orders.MarkFailed(None, None, env.now));
    var own := OwnWrite(env, me, rows, id);
    PlaySnoc(rows, [], e);
    assert [] + [e] == [e];
    OwnWritePlays(rows, [e], own);
  }

  /** What a check of an EXECUTING row reports, by the answers alone; a failed read is Unknown, not pending. */
  predicate Reports(env: Env, r: Row, status: MonitorStatus) {
    if r.txHash.None? || r.submittedAt.None? then status.ResolvedFailed?
    else
      var receipt, mempool := env.receiptOf(r.txHash.value), env.mempoolOf(r.txHash.value);
      var contract := env.isExecuted(r.terms.executionId);
      var inGrace := env.now < r.submittedAt.value + env.graceMs;
      if receipt.ReceiptSuccess? then status.ResolvedExecuted?
      else if receipt.ReceiptReverted? then status.ResolvedFailed?
      else if receipt.ReceiptError? || mempool.MempoolError? then status.Unknown?
      else if mempool.Visible? || inGrace then status.StillPending?
      else if contract.ContractError? then status.Unknown?
      else if contract.Consumed? then status.ResolvedExecuted? else status.ResolvedFailed?
  }

  class TxMonitorService {
    // who writes, in the history of all writes
    const me: nat
    const orders: OrderRepository

    constructor (me: nat, orders: OrderRepository)
      ensures this.me == me && this.orders == orders
    {
      this.me, this.orders := me, orders;
    }

    /**
     `others` is what other actors write between the read and the write. The status
     reports the conclusion, whether or not the write still found the order EXECUTING:
     its result is ignored. Asks to be called again exactly if there was none.
     */
    method Check(env: Env, id: OrderId, others: seq<Event>)
      returns (status: MonitorStatus, requeue: bool, ghost log: seq<Event>)
      modifies orders
      ensures log == others + OwnWrite(env, me, old(orders.rows), id)
      ensures orders.rows == Play(old(orders.rows), log)
      ensures Resolves(status) <==> OwnWrite(env, me, old(orders.rows), id) != []
      ensures Resolves(status) ==>
                var w := OwnWrite(env, me, old(orders.rows), id)[0].write;
                if w.MarkConfirmed? then status == ResolvedExecuted else status == ResolvedFailed && w.MarkFailed?
      ensures status.Skipped? <==> id !in old(orders.rows) || old(orders.rows)[id].status != EXECUTING
      ensures requeue <==> status.StillPending? || status.Unknown?
      ensures Resolves(status) && Takes(Play(old(orders.rows), others), OwnWrite(env, me, old(orders.rows), id)[0]) ==>
                id in orders.rows && orders.rows[id].status == if status.ResolvedExecuted? then EXECUTED else FAILED
      ensures others == [] ==> orders.rows == OnIds(env, Correction.Check, old(orders.rows), [id])
      ensures others == [] && id in old(orders.rows) && old(orders.rows)[id].status == EXECUTING ==>
                id in orders.rows && Settles(env, old(orders.rows)[id], orders.rows[id])
      ensures id in old(orders.rows) && old(orders.rows)[id].status == EXECUTING ==>
                Reports(env, old(orders.rows)[id], status)
    {
      ghost var before := orders.rows;
      ghost var own := OwnWrite(env, me, before, id);
      var order := orders.FindById(id);
      orders.Meanwhile(others);
      OwnWritePlays(before, others, own);
      AloneIsTheCorrection(env, me, before, id);
      log := others + own;
      if order.None? || order.value.status != EXECUTING { return Skipped, false, log; }
      CheckedSettles(env, order.value);
      status, requeue := Conclude(env, id, order.value);
    }

    /** What is concluded from the row as read, and written whatever the row is now. */
    method Conclude(env: Env, id: OrderId, r: Row) returns (status: MonitorStatus, requeue: bool)
      requires r.status == EXECUTING
      modifies orders
      ensures Reports(env, r, status)
      ensures orders.rows == match CheckWrite(env, r)
                             case None => old(orders.rows)
                             case Some(w) => Updated(old(orders.rows), id, w)
      ensures match CheckWrite(env, r)
              case None => (status.StillPending? || status.Unknown?) && requeue
              case Some(w) =>
                && !requeue
                && if w.MarkConfirmed? then status == ResolvedExecuted else status == ResolvedFailed && w.MarkFailed?
    {
      if r.txHash.None? || r.submittedAt.None? {
        var _ := orders.MarkFailed(id, None, None, env.now);
        return ResolvedFailed, false;
      }
      match OutcomeOf(env, r)
      case SUCCESS(hash, block, out) =>
        var _ := orders.MarkConfirmed(id, hash, block, out, env.now);
        return ResolvedExecuted, false;
      case REVERTED(hash, block) =>
        var _ := orders.MarkFailed(id, Some(hash), Some(block), env.now);
        return ResolvedFailed, false;
      case TX_PENDING(_, _) => return StillPending, true;
      case DROPPED_BUT_EXECUTED(hash) =>
        var _ := orders.MarkConfirmed(id, hash, 0, None, env.now);
        return ResolvedExecuted, false;
      case DROPPED_NOT_EXECUTED(hash) =>
        var _ := orders.MarkFailed(id, Some(hash), None, env.now);
        return ResolvedFailed, false;
      case RPC_ERROR(_) => return Unknown, true;
    }

    method SweepStuck(env: Env, olderThanMs: nat, limit: nat, others: nat -> seq<Event>)
      returns (stuck: seq<OrderId>, results: seq<MonitorStatus>, ghost log: seq<Event>)
      requires OthersBy(others, me)
      modifies orders
      ensures Lists(old(orders.rows), StuckExecuting(olderThanMs, env.now), limit, stuck) && |results| == |stuck|
      ensures OldestSubmittedBefore(old(orders.rows), env.now - olderThanMs, limit, stuck)
      ensures orders.rows == Play(old(orders.rows), log)
      ensures Among(Effective(old(orders.rows), log, me), ResolvedIds(stuck, results))
      ensures Quiet(others) ==>
                && orders.rows == OnIds(env, Correction.Check, old(orders.rows), stuck)
                && Effective(old(orders.rows), log, me) == ResolvedIds(stuck, results)
    {
      stuck := orders.FindMany(StuckExecuting(olderThanMs, env.now), limit);
      results, log := CheckEach(env, stuck, others);
      assert stuck[..|stuck|] == stuck;
    }

    /** `others(2 * i)` is written before check number `i` reads, and `others(2 * i + 1)` before it writes. */
    method CheckEach(env: Env, ids: seq<OrderId>, others: nat -> seq<Event>)
      returns (results: seq<MonitorStatus>, ghost log: seq<Event>)
      requires OthersBy(others, me)
      requires forall i :: 0 <= i < |ids| ==> ids[i] in orders.rows
      requires forall i, j :: 0 <= i < j < |ids| ==> ids[i] != ids[j]
      modifies orders
      ensures SweptSoFar(env, me, old(orders.rows), orders.rows, ids, |ids|, results, log, Quiet(others))
    {
      ghost var before := orders.rows;
      results, log := [], [];
      NoneSwept(env, before, ids);
      var i := 0;
      while i < |ids|
        invariant SweptSoFar(env, me, before, orders.rows, ids, i, results, log, Quiet(others))
      {
        ghost var rows := orders.rows;
        var status;
        ghost var more;
        status, more := CheckNext(env, ids[i], others(2 * i), others(2 * i + 1));
        SweepStep(env, me, before, rows, ids, i, results, log, Quiet(others), status, more);
        log := log + more;
        results := results + [status];
        i := i + 1;
      }
    }

    /** One check of a sweep, with others writing before its read and before its write. */
    method CheckNext(env: Env, id: OrderId, earlier: seq<Event>, others: seq<Event>)
      returns (status: MonitorStatus, ghost log: seq<Event>)
      requires id in orders.rows && ByOthers(earlier, me) && ByOthers(others, me)
      modifies orders
      ensures orders.rows == Play(old(orders.rows), log)
      ensures Effective(old(orders.rows), log, me) == [] ||
              (Resolves(status) && Effective(old(orders.rows), log, me) == [id])
      ensures earlier == [] && others == [] ==>
                && orders.rows == OnIds(env, Correction.Check, old(orders.rows), [id])
                && Effective(old(orders.rows), log, me) == if Resolves(status) then [id] else []
    {
      ghost var before := orders.rows;
      orders.Meanwhile(earlier);
      ghost var rows := orders.rows;
      var requeue;
      status, requeue, log := Check(env, id, others);
      CheckEffect(env, me, rows, id, others);
      TracksMore(before, earlier, log, me);
      OthersHaveNoEffectOfMine(before, earlier, me);
      log := earlier + log;
    }
  }

  /** The ids of a sweep whose check reported a resolution, in order. */
  function ResolvedIds(stuck: seq<OrderId>, results: seq<MonitorStatus>): seq<OrderId>
    requires |results| <= |stuck|
  {
    if |results| == 0 then []
    else
      var n := |results| - 1;
      ResolvedIds(stuck, results[..n]) + if Resolves(results[n]) then [stuck[n]] else []
  }

  /** Every id in `ids` is in `all`, which is no shorter. */
  predicate Among(ids: seq<OrderId>, all: seq<OrderId>) { |ids| <= |all| && forall id :: id in ids ==> id in all }

  lemma StillAmong(ids: seq<OrderId>, all: seq<OrderId>, more: seq<OrderId>, moreOfAll: seq<OrderId>)
    requires Among(ids, all) && (more == [] || more == moreOfAll)
    ensures Among(ids + more, all + moreOfAll)
  {
  }

  /** The first `i` listed orders are checked, with `results`, by the writes in `log` and those of others. */
  ghost predicate SweptSoFar(env: Env, me: nat, before: map<OrderId, Row>, rows: map<OrderId, Row>, stuck: seq<OrderId>,
                             i: nat, results: seq<MonitorStatus>, log: seq<Event>, quiet: bool)
  {
    && |results| == i <= |stuck|
    && rows == Play(before, log)
    && Among(Effective(before, log, me), ResolvedIds(stuck, results))
    && (quiet ==>
          && rows == OnIds(env, Correction.Check, before, stuck[..i])
          && Effective(before, log, me) == ResolvedIds(stuck, results))
  }

  lemma NoneSwept(env: Env, rows: map<OrderId, Row>, stuck: seq<OrderId>)
    ensures stuck[..0] == [] && OnIds(env, Correction.Check, rows, stuck[..0]) == rows
  {
  }

  lemma SweepStep(env: Env, me: nat, before: map<OrderId, Row>, rows: map<OrderId, Row>, stuck: seq<OrderId>,
                  i: nat, results: seq<MonitorStatus>, log: seq<Event>, quiet: bool, status: MonitorStatus,
                  more: seq<Event>)
    requires SweptSoFar(env, me, before, rows, stuck, i, results, log, quiet)
    requires i < |stuck| && stuck[i] in before && (forall j :: 0 <= j < i ==> stuck[j] != stuck[i])
    requires Effective(rows, more, me) == [] || (Resolves(status) && Effective(rows, more, me) == [stuck[i]])
    requires quiet ==> Play(rows, more) == OnIds(env, Correction.Check, rows, [stuck[i]])
                       && Effective(rows, more, me) == if Resolves(status) then [stuck[i]] else []
    ensures SweptSoFar(env, me, before, Play(rows, more), stuck, i + 1, results + [status], log + more, quiet)
    ensures ResolvedIds(stuck, results + [status])
         == ResolvedIds(stuck, results) + if Resolves(status) then [stuck[i]] else []
  {
    TracksMore(before, log, more, me);
    assert (results + [status])[..i] == results;
    StillAmong(Effective(before, log, me), ResolvedIds(stuck, results), Effective(rows, more, me),
               if Resolves(status) then [stuck[i]] else []);
    if quiet { OneMore(env, Correction.Check, before, stuck, i); }
  }

  /** Of what a check adds to the history, only its own write counts as its effect. */
  lemma CheckEffect(env: Env, me: nat, rows: map<OrderId, Row>, id: OrderId, others: seq<Event>)
    requires id in rows && ByOthers(others, me)
    ensures var own := OwnWrite(env, me, rows, id);
      Effective(rows, others + own, me) == if own != [] && Takes(Play(rows, others), own[0]) then [id] else []
    ensures others == [] ==> Effective(rows, others + OwnWrite(env, me, rows, id), me)
                             == if OwnWrite(env, me, rows, id) != [] then [id] else []
  {
    var own := OwnWrite(env, me, rows, id);
    if own == [] {
      assert others + own == others;
      OthersHaveNoEffectOfMine(rows, others, me);
    } else {
      assert own == [own[0]];
      OthersThenMine(rows, others, own[0]);
      if others == [] { CheckLandsExactly(env, rows, id, others, me); }
    }
  }

  /** One more id of a list without duplicates is one more row corrected. */
  lemma OneMore(env: Env, c: Correction, rows: map<OrderId, Row>, ids: seq<OrderId>, i: nat)
    requires i < |ids| && ids[i] in rows && (forall j :: 0 <= j < i ==> ids[j] != ids[i])
    ensures OnIds(env, c, OnIds(env, c, rows, ids[..i]), [ids[i]]) == OnIds(env, c, rows, ids[..i + 1])
    ensures OnIds(env, c, rows, ids[..i])[ids[i]] == rows[ids[i]]
  {
    assert forall id :: id in ids[..i + 1] <==> id in ids[..i] || id == ids[i];
  }

  /** With nobody in between, what a check writes is the correction of its row. */
  lemma AloneIsTheCorrection(env: Env, me: nat, rows: map<OrderId, Row>, id: OrderId)
    ensures Play(rows, [] + OwnWrite(env, me, rows, id)) == OnIds(env, Correction.Check, rows, [id])
  {
    var own := OwnWrite(env, me, rows, id);
    OwnWritePlays(rows, [], own);
    if own == [] {
      assert OnIds(env, Correction.Check, rows, [id]) == rows;
    } else {
      CorrectsItsRow(env, rows, id, own[0].write);
    }
  }

  lemma CorrectsItsRow(env: Env, rows: map<OrderId, Row>, id: OrderId, w: Write)
    requires id in rows && CheckWrite(env, rows[id]) == Some(w)
    ensures Updated(rows, id, w) == OnIds(env, Correction.Check, rows, [id])
  {
  }

  lemma OwnWritePlays(rows: map<OrderId, Row>, others: seq<Event>, own: seq<Event>)
    requires |own| <= 1
    ensures own == [] ==> Play(rows, others + own) == Play(rows, others)
    ensures own != [] ==> Play(rows, others + own) == Updated(Play(rows, others), own[0].id, own[0].write)
  {
    if own == [] {
      assert others + own == others;
    } else {
      assert others + own == others + [own[0]];
      PlaySnoc(rows, others, own[0]);
    }
  }
}
