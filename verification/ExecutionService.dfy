/**
 Execution of one order, statement by statement. The fields are what the executor
 shares with every other actor: the row, the chain, and what the others are in the
 middle of. Each method is the code between two awaits and is proved to be a step
 of module Protocol; `ExecuteOrder` strings them together with anything happening
 in between.
 */
module ExecutionService {
  import opened Wrappers
  import opened OrderStatus
  import opened Orders
  import opened Protocol

  /**
   The awaits, in the order of the code. The last three are inside the error handler:
   its re-read, its hand-off to the monitor, its FAILED write.
   */
  datatype Stage =
    | Finding | Probing | Reconciling | Quoting | Claiming | Signing | Recording | Broadcasting | HandingOff
    | Rereading | Deferring | Failing

  /** How an awaited call ends. Late: it took effect, its answer got lost, and it rejects all the same. */
  datatype Await = Resolves | Rejects | RejectsLate
  {
    predicate Fails() { !Resolves? }

    predicate Lands() { !Rejects? }
  }

  datatype ExecutionOutcome = Skipped | AlreadyExecuted | Submitted | Failed | Threw

  datatype ClaimResult = Won | Lost | Errored

  /** The last step of operation `k`. */
  function LastOwn(k: nat, trace: seq<Action>): Option<Action> {
    if |trace| == 0 then None
    else if Elsewhere(k, trace[|trace| - 1]) then LastOwn(k, trace[..|trace| - 1])
    else Some(trace[|trace| - 1])
  }

  /** The outcome tells which of its steps an execution ended with. */
  predicate Tells(k: nat, outcome: ExecutionOutcome, trace: seq<Action>) {
    var last := LastOwn(k, trace);
    match outcome
    case Failed => last == Some(ExecFails(k))
    case AlreadyExecuted => last == Some(ExecReconciles(k))
    case Submitted => last == Some(ExecEnqueues(k)) || last == Some(ExecRereads(k)) || last == Some(Crash(k))
    case Skipped => last == Some(ExecReads(k)) || last == Some(ExecClaims(k))
    case Threw => last == Some(Crash(k)) || last == Some(ExecFails(k)) || last == Some(ExecReconciles(k))
  }

  lemma {:induction false} LastOwnConcat(k: nat, trace: seq<Action>, rest: seq<Action>)
    ensures LastOwn(k, trace + rest) == if LastOwn(k, rest).Some? then LastOwn(k, rest) else LastOwn(k, trace)
    decreases |rest|
  {
    if |rest| == 0 {
      assert trace + rest == trace;
    } else {
      assert (trace + rest)[..|trace + rest| - 1] == trace + rest[..|rest| - 1];
      LastOwnConcat(k, trace, rest[..|rest| - 1]);
    }
  }

  /** A step of `k` at the end, or followed only by steps of others. */
  lemma {:induction false} LastOwnStep(k: nat, trace: seq<Action>, a: Action, others: seq<Action>)
    requires !Elsewhere(k, a) && forall i :: 0 <= i < |others| ==> Elsewhere(k, others[i])
    ensures LastOwn(k, trace + [a] + others) == Some(a)
    decreases |others|
  {
    if |others| == 0 {
      assert trace + [a] + others == trace + [a];
    } else {
      assert (trace + [a] + others)[..|trace + [a] + others| - 1] == trace + [a] + others[..|others| - 1];
      LastOwnStep(k, trace, a, others[..|others| - 1]);
    }
  }

  lemma OneStep(cfg: Config, w: World, k: nat, a: Action)
    requires !Elsewhere(k, a)
    ensures Run(cfg, w, [a]) == Step(cfg, w, a) && LastOwn(k, [a]) == Some(a)
  {
    RunSnoc(cfg, w, [], a);
    LastOwnStep(k, [], a, []);
    assert [] + [a] == [a] && [] + [a] + [] == [a];
  }

  /** What an undisturbed error handler does to the row it finds. */
  predicate Handled(outcome: ExecutionOutcome, before: Row, after: Row, awaits: Stage -> Await) {
    var defers := before.status == EXECUTING && before.txHash.Some?;
    && outcome == (if awaits(Rereading).Fails() then Threw
                   else if defers then Submitted
                   else if awaits(Failing).Fails() then Threw else Failed)
    && after == if !awaits(Rereading).Fails() && !defers && awaits(Failing).Lands()
                then Apply(before, Transition(before.status, before.version, FAILED)) else before
  }

  /** The signed hash gets as far as the row. */
  predicate Records(chain: Chain, hash: Hash, awaits: Stage -> Await) {
    !awaits(Signing).Fails() && hash !in chain.signed && awaits(Recording).Lands()
  }

  /** The transaction gets as far as the network. */
  predicate Sends(chain: Chain, hash: Hash, awaits: Stage -> Await) {
    Records(chain, hash, awaits) && !awaits(Recording).Fails() && awaits(Broadcasting).Lands()
  }

  predicate Completes(chain: Chain, hash: Hash, awaits: Stage -> Await) {
    Sends(chain, hash, awaits) && !awaits(Broadcasting).Fails() && !awaits(HandingOff).Fails()
  }

  /** What an undisturbed execution does once the order is claimed. */
  predicate Carried(outcome: ExecutionOutcome, before: Row, after: Row, now: int, chain: Chain, next: Chain,
                    hash: Hash, awaits: Stage -> Await)
  {
    var reached := if Records(chain, hash, awaits) then Apply(before, RecordTxHash(hash, now)) else before;
    && next.network == chain.network + (if Sends(chain, hash, awaits) then {hash} else {})
    && if Completes(chain, hash, awaits) then outcome == Submitted && after == reached
       else Handled(outcome, reached, after, awaits)
  }

  /**
   What an undisturbed execution of a fresh order promises: how far it gets is decided
   by the first await that rejects, and the error handler does the rest. So SUBMITTED
   means the hash is on the row, whether or not it got to the network, and FAILED that
   nothing got there. If the error handler's own database call rejects, the call
   throws, and the row stays as it was reached, unless the FAILED write landed.
   */
  predicate Promised(outcome: ExecutionOutcome, before: Row, after: Row, now: int, chain: Chain, next: Chain,
                     hash: Hash, awaits: Stage -> Await)
  {
    var claimed := Apply(before, Transition(before.status, before.version, EXECUTING));
    if awaits(Quoting).Fails() || awaits(Claiming).Fails() then
      && next.network == chain.network
      && Handled(outcome, if awaits(Quoting).Fails() || awaits(Claiming).Rejects? then before else claimed, after,
                 awaits)
    else Carried(outcome, claimed, after, now, chain, next, hash, awaits)
  }

  /** What an undisturbed execution does to a TRIGGERED order: a spent id is reconciled, a fresh one attempted. */
  predicate Tried(outcome: ExecutionOutcome, before: Row, after: Row, now: int, chain: Chain, next: Chain,
                  hash: Hash, awaits: Stage -> Await)
  {
    if awaits(Probing).Fails() then outcome == Threw && after == before && next == chain
    else if chain.consumed then
      && outcome == (if awaits(Reconciling).Fails() then Threw else AlreadyExecuted) && next == chain
      && after == if awaits(Reconciling).Lands() then before.(status := EXECUTED, version := before.version + 1)
                  else before
    else Promised(outcome, before, after, now, chain, next, hash, awaits)
  }

  class ExecutionService {
    const cfg: Config
    // identifies this execution among the operations in flight
    const k: nat
    var now: int
    var row: Row
    var chain: Chain
    var ops: map<nat, Op>
    var monitorKnows: bool
    var handedOff: bool
    var history: History

    function View(): World
      reads this
    {
      World(now, row, chain, ops, monitorKnows, handedOff, history)
    }

    constructor (cfg: Config, k: nat, w: World)
      ensures this.cfg == cfg && this.k == k && View() == w
    {
      this.cfg, this.k := cfg, k;
      now, row, chain, ops, history := w.now, w.row, w.chain, w.ops, w.history;
      monitorKnows, handedOff := w.monitorKnows, w.handedOff;
    }

    /** Everyone else, for as long as this execution awaits something. */
    method Others(actions: seq<Action>)
      requires forall i :: 0 <= i < |actions| ==> Elsewhere(k, actions[i])
      modifies this
      ensures View() == Run(cfg, old(View()), actions)
      ensures (k in ops <==> k in old(ops)) && (k in ops ==> ops[k] == old(ops)[k])
    {
      OwnOpStays(cfg, View(), actions, k);
      var w := Run(cfg, View(), actions);
      now, row, chain, ops, history := w.now, w.row, w.chain, w.ops, w.history;
      monitorKnows, handedOff := w.monitorKnows, w.handedOff;
    }

    method UpdateRow(write: Write) returns (updated: bool)
      modifies `row
      ensures row == Apply(old(row), write) && (updated <==> Matches(old(row), write))
    {
      updated := Matches(row, write);
      if updated { row := Apply(row, write); }
    }

    /** The execution is where `op` says. */
    predicate At(op: Op)
      reads this
    {
      k in ops && ops[k] == op
    }

    method FindOrder() returns (order: Row)
      requires k !in ops && handedOff && (cfg.singleExecutor ==> forall j :: j in ops ==> !IsExec(ops[j]))
      modifies `ops
      ensures View() == Step(cfg, old(View()), ExecReads(k))
      ensures order == row && (if order.status == TRIGGERED then At(ExecRead(order.version)) else k !in ops)
    {
      order := row;
      if order.status == TRIGGERED { ops := ops[k := ExecRead(order.version)]; }
    }

    method IsExecuted(version: nat) returns (consumed: bool)
      requires At(ExecRead(version))
      modifies `ops
      ensures View() == Step(cfg, old(View()), ExecProbes(k))
      ensures consumed == chain.consumed && At(if consumed then ExecSpent(version) else ExecFresh(version))
    {
      consumed := chain.consumed;
      ops := ops[k := if consumed then ExecSpent(version) else ExecFresh(version)];
    }

    method Reconcile(version: nat)
      requires At(ExecSpent(version))
      modifies `row, `ops, `history
      ensures View() == Step(cfg, old(View()), ExecReconciles(k)) && k !in ops
      ensures row == Apply(old(row), Transition(TRIGGERED, version, EXECUTED))
    {
      history := HistoryAfter(View(), ExecReconciles(k));
      var _ := UpdateRow(Transition(TRIGGERED, version, EXECUTED));
      ops := ops - {k};
    }

    method BuildParams(version: nat) returns (deadline: int)
      requires At(ExecFresh(version))
      modifies `ops
      ensures View() == Step(cfg, old(View()), ExecBuilds(k))
      ensures deadline == now / 1000 + cfg.windowSec && At(ExecBuilt(version, deadline))
    {
      deadline := now / 1000 + cfg.windowSec;
      ops := ops[k := ExecBuilt(version, deadline)];
    }

    method ClaimOrder(version: nat, deadline: int) returns (claimed: bool)
      requires At(ExecBuilt(version, deadline))
      modifies `row, `ops, `history
      ensures View() == Step(cfg, old(View()), ExecClaims(k))
      ensures claimed <==> old(row).status == TRIGGERED && old(row).version == version
      ensures if claimed then At(ExecClaimed(deadline)) else k !in ops
      ensures chain == old(chain) && row == Apply(old(row), Transition(TRIGGERED, version, EXECUTING))
    {
      history := HistoryAfter(View(), ExecClaims(k));
      claimed := UpdateRow(Transition(TRIGGERED, version, EXECUTING));
      ops := if claimed then ops[k := ExecClaimed(deadline)] else ops - {k};
    }

    /** Local signing fixes the hash before anyone else has seen it. */
    method SignLocally(deadline: int, hash: Hash)
      requires At(ExecClaimed(deadline)) && hash !in chain.signed
      modifies `chain, `ops, `history
      ensures View() == Step(cfg, old(View()), ExecSigns(k, hash)) && At(ExecSigned(hash))
      ensures chain.network == old(chain).network
    {
      history := HistoryAfter(View(), ExecSigns(k, hash));
      chain := chain.(signed := chain.signed[hash := Tx(cfg.executionId, deadline)]);
      ops := ops[k := ExecSigned(hash)];
    }

    /** The result is ignored, as in the callback. */
    method RecordSigned(hash: Hash)
      requires At(ExecSigned(hash))
      modifies `row, `ops
      ensures View() == Step(cfg, old(View()), ExecRecords(k)) && At(ExecRecorded(hash))
    {
      var _ := UpdateRow(RecordTxHash(hash, now));
      ops := ops[k := ExecRecorded(hash)];
    }

    method Broadcast(hash: Hash)
      requires At(ExecRecorded(hash))
      modifies `chain, `ops
      ensures View() == Step(cfg, old(View()), ExecBroadcasts(k)) && At(ExecSent(hash))
      ensures hash in chain.network
    {
      chain := chain.(network := chain.network + {hash});
      ops := ops[k := ExecSent(hash)];
    }

    method HandOff(hash: Hash)
      requires At(ExecSent(hash))
      modifies `monitorKnows, `ops
      ensures View() == Step(cfg, old(View()), ExecEnqueues(k)) && k !in ops && monitorKnows
    {
      monitorKnows := true;
      ops := ops - {k};
    }

    /** The job is in the queue, but the call rejects. */
    method HandOffUnheard(hash: Hash)
      requires At(ExecSent(hash))
      modifies `monitorKnows
      ensures View() == Step(cfg, old(View()), ExecEnqueuesUnheard(k)) && At(ExecSent(hash)) && monitorKnows
    {
      monitorKnows := true;
    }

    method Throw()
      requires k in ops && CanThrow(ops[k])
      modifies `ops
      ensures View() == Step(cfg, old(View()), ExecThrows(k)) && At(ExecFailing)
    {
      ops := ops[k := ExecFailing];
    }

    /** Dies, or gives up without a further effect. */
    method Abandon()
      requires k in ops
      modifies `ops
      ensures View() == Step(cfg, old(View()), Crash(k)) && k !in ops
    {
      ops := ops - {k};
    }

    /** Defers to the monitor if a hash is on an EXECUTING row; else remembers the row as it is now. */
    method Reread() returns (current: Row, deferred: bool)
      requires At(ExecFailing)
      modifies `monitorKnows, `ops
      ensures View() == Step(cfg, old(View()), ExecRereads(k))
      ensures current == row && (deferred <==> current.status == EXECUTING && current.txHash.Some?)
      ensures if deferred then k !in ops && monitorKnows else At(ExecFailRead(current.status, current.version))
    {
      current := row;
      deferred := current.status == EXECUTING && current.txHash.Some?;
      if deferred {
        monitorKnows, ops := true, ops - {k};
      } else {
        ops := ops[k := ExecFailRead(current.status, current.version)];
      }
    }

    method FailOrder(status: Status, version: nat)
      requires At(ExecFailRead(status, version))
      modifies `row, `ops, `history
      ensures View() == Step(cfg, old(View()), ExecFails(k)) && k !in ops
      ensures row == Apply(old(row), Transition(status, version, FAILED))
    {
      history := HistoryAfter(View(), ExecFails(k));
      var _ := UpdateRow(Transition(status, version, FAILED));
      ops := ops - {k};
    }

    /** Nobody else does anything in between. */
    static ghost predicate Alone(others: Stage -> seq<Action>) { forall s :: others(s) == [] }

    ghost predicate OthersElsewhere(others: Stage -> seq<Action>) {
      forall s, i :: 0 <= i < |others(s)| ==> Elsewhere(k, others(s)[i])
    }

    /**
     Never asserts more than is known: an order that may be on the network is left to
     the monitor.
     */
    method HandleFailure(awaits: Stage -> Await, others: Stage -> seq<Action>)
      returns (outcome: ExecutionOutcome, ghost trace: seq<Action>)
      requires k in ops && CanThrow(ops[k]) && OthersElsewhere(others)
      modifies this
      ensures View() == Run(cfg, old(View()), trace) && k !in ops
      ensures Tells(k, outcome, trace) && !outcome.AlreadyExecuted? && !outcome.Skipped?
      ensures Alone(others) ==> Handled(outcome, old(row), row, awaits) && chain == old(chain)
    {
      RunThen(cfg, View(), [], ExecThrows(k), others(Rereading));
      ghost var w, rest := View(), [];
      trace := [] + [ExecThrows(k)] + others(Rereading);
      Throw();
      Others(others(Rereading));
      outcome, rest := Resolve(awaits, others);
      RunConcat(cfg, w, trace, rest);
      LastOwnConcat(k, trace, rest);
      trace := trace + rest;
    }

    /**
     The row as re-read decides: the monitor takes over exactly if it is EXECUTING with
     a hash; else the order is to be failed. A rejected re-read escapes.
     */
    method Resolve(awaits: Stage -> Await, others: Stage -> seq<Action>)
      returns (outcome: ExecutionOutcome, ghost trace: seq<Action>)
      requires At(ExecFailing) && OthersElsewhere(others)
      modifies this
      ensures View() == Run(cfg, old(View()), trace) && k !in ops
      ensures outcome == if awaits(Rereading).Fails() then Threw
                         else if old(row).status == EXECUTING && old(row).txHash.Some? then Submitted
                         else if awaits(Failing).Fails() then Threw else Failed
      ensures Tells(k, outcome, trace)
      ensures Alone(others) ==> Handled(outcome, old(row), row, awaits) && chain == old(chain)
    {
      ghost var w, rest := View(), [];
      var defers := row.status == EXECUTING && row.txHash.Some?;
      if awaits(Rereading).Fails() || (defers && awaits(Deferring).Rejects?) {
        // the re-read rejects, or else the hand-off does and the order is left for the stuck sweep
        OneStep(cfg, w, k, Crash(k));
        Abandon();
        return if awaits(Rereading).Fails() then Threw else Submitted, [Crash(k)];
      }
      OneStep(cfg, w, k, ExecRereads(k));
      trace := [ExecRereads(k)];
      var current, deferred := Reread();
      if deferred { return Submitted, trace; }
      outcome, rest := FailAsRead(current, awaits, others);
      RunConcat(cfg, w, trace, rest);
      LastOwnConcat(k, trace, rest);
      trace := trace + rest;
    }

    /** Compare-and-swap to FAILED from the row as re-read. */
    method FailAsRead(current: Row, awaits: Stage -> Await, others: Stage -> seq<Action>)
      returns (outcome: ExecutionOutcome, ghost trace: seq<Action>)
      requires At(ExecFailRead(current.status, current.version)) && OthersElsewhere(others)
      modifies this
      ensures View() == Run(cfg, old(View()), trace) && k !in ops
      ensures outcome == (if awaits(Failing).Fails() then Threw else Failed) && Tells(k, outcome, trace)
      ensures Alone(others) ==> chain == old(chain)
      ensures Alone(others) ==>
                row == if awaits(Failing).Lands()
                       then Apply(old(row), Transition(current.status, current.version, FAILED)) else old(row)
    {
      ghost var w, rest := View(), [];
      trace := others(Failing);
      Others(others(Failing));
      outcome, rest := WriteFailed(current.status, current.version, awaits(Failing));
      RunConcat(cfg, w, trace, rest);
      LastOwnConcat(k, trace, rest);
      trace := trace + rest;
    }

    method WriteFailed(status: Status, version: nat, await: Await)
      returns (outcome: ExecutionOutcome, ghost trace: seq<Action>)
      requires At(ExecFailRead(status, version))
      modifies `row, `ops, `history
      ensures View() == Run(cfg, old(View()), trace) && k !in ops
      ensures outcome == (if await.Fails() then Threw else Failed)
      ensures LastOwn(k, trace) == Some(if await.Rejects? then Crash(k) else ExecFails(k))
      ensures row == if await.Lands() then Apply(old(row), Transition(status, version, FAILED)) else old(row)
    {
      if await.Rejects? {
        OneStep(cfg, View(), k, Crash(k));
        Abandon();
        return Threw, [Crash(k)];
      }
      OneStep(cfg, View(), k, ExecFails(k));
      FailOrder(status, version);
      return if await.Fails() then Threw else Failed, [ExecFails(k)];
    }

    /** Sign, and what the others do while the row is written. */
    method SignThen(deadline: int, hash: Hash, others: seq<Action>) returns (ghost trace: seq<Action>)
      requires At(ExecClaimed(deadline)) && hash !in chain.signed
      requires forall i :: 0 <= i < |others| ==> Elsewhere(k, others[i])
      modifies this
      ensures View() == Run(cfg, old(View()), trace) && At(ExecSigned(hash))
      ensures others == [] ==> chain.network == old(chain).network && row == old(row) && now == old(now)
    {
      trace := [] + [ExecSigns(k, hash)] + others;
      RunThen(cfg, View(), [], ExecSigns(k, hash), others);
      SignLocally(deadline, hash);
      Others(others);
    }

    /** Record, and what the others do until the transaction is sent. */
    method RecordThen(hash: Hash, others: seq<Action>) returns (ghost trace: seq<Action>)
      requires At(ExecSigned(hash)) && forall i :: 0 <= i < |others| ==> Elsewhere(k, others[i])
      modifies this
      ensures View() == Run(cfg, old(View()), trace) && At(ExecRecorded(hash))
      ensures others == [] ==>
                chain == old(chain) && now == old(now) && row == Apply(old(row), RecordTxHash(hash, now))
    {
      trace := [] + [ExecRecords(k)] + others;
      RunThen(cfg, View(), [], ExecRecords(k), others);
      RecordSigned(hash);
      Others(others);
    }

    /** Sign and persist; false if something failed. */
    method SignAndRecord(deadline: int, hash: Hash, awaits: Stage -> Await, others: Stage -> seq<Action>)
      returns (ok: bool, ghost trace: seq<Action>)
      requires At(ExecClaimed(deadline)) && OthersElsewhere(others)
      modifies this
      ensures View() == Run(cfg, old(View()), trace)
      ensures if ok then At(ExecRecorded(hash)) else k in ops && CanThrow(ops[k])
      ensures Alone(others) ==>
                && (ok <==> Records(old(chain), hash, awaits) && !awaits(Recording).Fails())
                && chain.network == old(chain).network && now == old(now)
                && row == if Records(old(chain), hash, awaits) then Apply(old(row), RecordTxHash(hash, now))
                          else old(row)
    {
      if awaits(Signing).Fails() || hash in chain.signed { return false, []; }
      ghost var w, rest := View(), [];
      trace := SignThen(deadline, hash, others(Recording));
      if awaits(Recording).Rejects? { return false, trace; }
      rest := RecordThen(hash, others(Broadcasting));
      RunConcat(cfg, w, trace, rest);
      return !awaits(Recording).Fails(), trace + rest;
    }

    /** Sign, record, broadcast and hand off; anything may fail at any point. */
    method Submit(deadline: int, hash: Hash, awaits: Stage -> Await, others: Stage -> seq<Action>)
      returns (ok: bool, ghost trace: seq<Action>)
      requires At(ExecClaimed(deadline)) && OthersElsewhere(others)
      modifies this
      ensures View() == Run(cfg, old(View()), trace)
      ensures if ok then k !in ops && LastOwn(k, trace) == Some(ExecEnqueues(k)) else k in ops && CanThrow(ops[k])
      ensures Alone(others) ==>
                && (ok <==> Completes(old(chain), hash, awaits)) && now == old(now)
                && chain.network == old(chain).network + (if Sends(old(chain), hash, awaits) then {hash} else {})
                && row == if Records(old(chain), hash, awaits) then Apply(old(row), RecordTxHash(hash, now))
                          else old(row)
    {
      ghost var w, rest := View(), [];
      ok, trace := SignAndRecord(deadline, hash, awaits, others);
      if !ok { return; }
      ok, rest := SendAndHandOff(hash, awaits, others);
      RunConcat(cfg, w, trace, rest);
      LastOwnConcat(k, trace, rest);
      trace := trace + rest;
    }

    method SendAndHandOff(hash: Hash, awaits: Stage -> Await, others: Stage -> seq<Action>)
      returns (ok: bool, ghost trace: seq<Action>)
      requires At(ExecRecorded(hash)) && OthersElsewhere(others)
      modifies this
      ensures View() == Run(cfg, old(View()), trace)
      ensures if ok then k !in ops && LastOwn(k, trace) == Some(ExecEnqueues(k)) else k in ops && CanThrow(ops[k])
      ensures Alone(others) ==>
                && (ok <==> !awaits(Broadcasting).Fails() && !awaits(HandingOff).Fails())
                && chain.network == old(chain).network + (if awaits(Broadcasting).Lands() then {hash} else {})
                && row == old(row) && now == old(now)
    {
      if awaits(Broadcasting).Rejects? { return false, []; }
      ghost var w, rest := View(), [];
      trace := BroadcastThen(hash, others(HandingOff));
      if awaits(Broadcasting).Fails() { return false, trace; }
      ok, rest := TryHandOff(hash, awaits(HandingOff));
      RunConcat(cfg, w, trace, rest);
      LastOwnConcat(k, trace, rest);
      trace := trace + rest;
    }

    method TryHandOff(hash: Hash, await: Await) returns (ok: bool, ghost trace: seq<Action>)
      requires At(ExecSent(hash))
      modifies `monitorKnows, `ops
      ensures View() == Run(cfg, old(View()), trace) && (ok <==> !await.Fails())
      ensures if ok then k !in ops && LastOwn(k, trace) == Some(ExecEnqueues(k)) else At(ExecSent(hash))
    {
      match await
      case Rejects => return false, [];
      case RejectsLate =>
        OneStep(cfg, View(), k, ExecEnqueuesUnheard(k));
        HandOffUnheard(hash);
        return false, [ExecEnqueuesUnheard(k)];
      case Resolves =>
        OneStep(cfg, View(), k, ExecEnqueues(k));
        HandOff(hash);
        return true, [ExecEnqueues(k)];
    }

    /** Broadcast, and what the others do while that is awaited. */
    method BroadcastThen(hash: Hash, others: seq<Action>) returns (ghost trace: seq<Action>)
      requires At(ExecRecorded(hash)) && forall i :: 0 <= i < |others| ==> Elsewhere(k, others[i])
      modifies this
      ensures View() == Run(cfg, old(View()), trace) && At(ExecSent(hash))
      ensures others == [] ==>
                chain.network == old(chain).network + {hash} && row == old(row) && now == old(now)
    {
      trace := [] + [ExecBroadcasts(k)] + others;
      RunThen(cfg, View(), [], ExecBroadcasts(k), others);
      Broadcast(hash);
      Others(others);
    }

    /** Build the parameters, and what the others do while the quote is awaited. */
    method BuildThen(version: nat, others: seq<Action>) returns (deadline: int, ghost trace: seq<Action>)
      requires At(ExecFresh(version)) && forall i :: 0 <= i < |others| ==> Elsewhere(k, others[i])
      modifies this
      ensures View() == Run(cfg, old(View()), trace) && At(ExecBuilt(version, deadline))
      ensures others == [] ==> chain == old(chain) && row == old(row) && now == old(now)
    {
      trace := [] + [ExecBuilds(k)] + others;
      RunThen(cfg, View(), [], ExecBuilds(k), others);
      deadline := BuildParams(version);
      Others(others);
    }

    /** Build the parameters and claim; Lost is another worker's claim. */
    method BuildAndClaim(version: nat, awaits: Stage -> Await, others: Stage -> seq<Action>)
      returns (claim: ClaimResult, deadline: int, ghost trace: seq<Action>)
      requires At(ExecFresh(version)) && OthersElsewhere(others)
      modifies this
      ensures View() == Run(cfg, old(View()), trace)
      ensures claim.Won? ==> At(ExecClaimed(deadline))
      ensures claim.Lost? ==> k !in ops && LastOwn(k, trace) == Some(ExecClaims(k))
      ensures claim.Errored? ==> k in ops && CanThrow(ops[k])
      ensures Alone(others) && old(row).status == TRIGGERED && old(row).version == version ==>
                && chain == old(chain) && now == old(now)
                && claim == (if awaits(Quoting).Fails() || awaits(Claiming).Fails() then Errored else ClaimResult.Won)
                && row == if awaits(Quoting).Fails() || awaits(Claiming).Rejects? then old(row)
                          else Apply(old(row), Transition(TRIGGERED, version, EXECUTING))
    {
      if awaits(Quoting).Fails() { return Errored, 0, []; }
      ghost var w, rest := View(), [];
      deadline, trace := BuildThen(version, others(Claiming));
      // a claim that finds nothing to write and rejects is one that did not land
      var finds := row.status == TRIGGERED && row.version == version;
      if awaits(Claiming).Rejects? || (awaits(Claiming).Fails() && !finds) { return Errored, deadline, trace; }
      claim, rest := ClaimThen(version, deadline, others(Signing));
      RunConcat(cfg, w, trace, rest);
      LastOwnConcat(k, trace, rest);
      trace := trace + rest;
      if awaits(Claiming).Fails() { claim := Errored; }
    }

    /** Claim, and what the others do while the transaction is prepared. */
    method ClaimThen(version: nat, deadline: int, others: seq<Action>)
      returns (claim: ClaimResult, ghost trace: seq<Action>)
      requires At(ExecBuilt(version, deadline)) && forall i :: 0 <= i < |others| ==> Elsewhere(k, others[i])
      modifies this
      ensures View() == Run(cfg, old(View()), trace) && LastOwn(k, trace) == Some(ExecClaims(k))
      ensures if claim.Won? then At(ExecClaimed(deadline)) else claim.Lost? && k !in ops
      ensures claim.Won? <==> old(row).status == TRIGGERED && old(row).version == version
      ensures others == [] ==> chain == old(chain) && now == old(now)
      ensures others == [] ==> row == Apply(old(row), Transition(TRIGGERED, version, EXECUTING))
    {
      trace := [] + [ExecClaims(k)] + others;
      RunThen(cfg, View(), [], ExecClaims(k), others);
      LastOwnStep(k, [], ExecClaims(k), others);
      var claimed := ClaimOrder(version, deadline);
      Others(others);
      claim := if claimed then ClaimResult.Won else Lost;
    }

    /** The try block: quote, build, claim, submit. */
    method Attempt(version: nat, hash: Hash, awaits: Stage -> Await, others: Stage -> seq<Action>)
      returns (outcome: ExecutionOutcome, ghost trace: seq<Action>)
      requires At(ExecFresh(version)) && OthersElsewhere(others)
      modifies this
      ensures View() == Run(cfg, old(View()), trace) && k !in ops
      ensures Tells(k, outcome, trace) && !outcome.AlreadyExecuted?
      ensures Alone(others) && old(row).status == TRIGGERED && old(row).version == version ==>
                Promised(outcome, old(row), row, old(now), old(chain), chain, hash, awaits)
    {
      ghost var w, rest := View(), [];
      var claim, deadline;
      claim, deadline, trace := BuildAndClaim(version, awaits, others);
      if claim.Lost? { return Skipped, trace; }
      if claim.Errored? {
        outcome, rest := HandleFailure(awaits, others);
      } else {
        outcome, rest := Carry(deadline, hash, awaits, others);
      }
      RunConcat(cfg, w, trace, rest);
      LastOwnConcat(k, trace, rest);
      trace := trace + rest;
    }

    /** A claimed order: submit, and clean up if that fails. */
    method Carry(deadline: int, hash: Hash, awaits: Stage -> Await, others: Stage -> seq<Action>)
      returns (outcome: ExecutionOutcome, ghost trace: seq<Action>)
      requires At(ExecClaimed(deadline)) && OthersElsewhere(others)
      modifies this
      ensures View() == Run(cfg, old(View()), trace) && k !in ops
      ensures Tells(k, outcome, trace) && !outcome.AlreadyExecuted? && !outcome.Skipped?
      ensures Alone(others) ==> Carried(outcome, old(row), row, old(now), old(chain), chain, hash, awaits)
    {
      ghost var w, rest := View(), [];
      var ok;
      ok, trace := Submit(deadline, hash, awaits, others);
      if ok { return Submitted, trace; }
      outcome, rest := HandleFailure(awaits, others);
      RunConcat(cfg, w, trace, rest);
      LastOwnConcat(k, trace, rest);
      trace := trace + rest;
    }

    /**
     One call of executeOrder for a delivered job, with the others doing anything while
     it awaits and any await rejecting, early or late: a run of the protocol. If it
     returns FAILED it issued the FAILED write last, and if EXECUTED, the EXECUTED one.
     Undisturbed, the outcome says what happened.
     */
    method ExecuteOrder(hash: Hash, awaits: Stage -> Await, others: Stage -> seq<Action>)
      returns (outcome: ExecutionOutcome, ghost trace: seq<Action>)
      requires k !in ops && handedOff && OthersElsewhere(others)
      requires cfg.singleExecutor ==> forall j :: j in ops ==> !IsExec(ops[j])
      modifies this
      ensures View() == Run(cfg, old(View()), trace) && k !in ops
      ensures if awaits(Finding).Fails() then trace == [] else Tells(k, outcome, trace)
      ensures awaits(Finding).Fails() || old(row).status != TRIGGERED ==>
                && outcome == (if awaits(Finding).Fails() then Threw else Skipped)
                && row == old(row) && chain == old(chain)
      ensures Alone(others) && !awaits(Finding).Fails() && old(row).status == TRIGGERED ==>
                Tried(outcome, old(row), row, old(now), old(chain), chain, hash, awaits)
    {
      if awaits(Finding).Fails() { return Threw, []; }
      ghost var w, rest := View(), [];
      RunThen(cfg, w, [], ExecReads(k), []);
      RunThen(cfg, w, [], ExecReads(k), others(Probing));
      var order := FindOrder();
      if order.status != TRIGGERED { return Skipped, [] + [ExecReads(k)] + []; }
      trace := [] + [ExecReads(k)] + others(Probing);
      Others(others(Probing));
      outcome, rest := Proceed(order.version, hash, awaits, others);
      RunConcat(cfg, w, trace, rest);
      LastOwnConcat(k, trace, rest);
      trace := trace + rest;
    }

    /** Probe, and what the others do until the answer is used. */
    method ProbeThen(version: nat, others: seq<Action>) returns (consumed: bool, ghost trace: seq<Action>)
      requires At(ExecRead(version)) && forall i :: 0 <= i < |others| ==> Elsewhere(k, others[i])
      modifies this
      ensures View() == Run(cfg, old(View()), trace)
      ensures consumed == old(chain).consumed && At(if consumed then ExecSpent(version) else ExecFresh(version))
      ensures others == [] ==> row == old(row) && chain == old(chain) && now == old(now)
    {
      trace := [] + [ExecProbes(k)] + others;
      RunThen(cfg, View(), [], ExecProbes(k), others);
      consumed := IsExecuted(version);
      Others(others);
    }

    /** On-chain truth first: a spent id is reconciled, not attempted. */
    method Proceed(version: nat, hash: Hash, awaits: Stage -> Await, others: Stage -> seq<Action>)
      returns (outcome: ExecutionOutcome, ghost trace: seq<Action>)
      requires At(ExecRead(version)) && OthersElsewhere(others)
      modifies this
      ensures View() == Run(cfg, old(View()), trace) && k !in ops
      ensures Tells(k, outcome, trace)
      ensures Alone(others) && old(row).status == TRIGGERED && old(row).version == version ==>
                Tried(outcome, old(row), row, old(now), old(chain), chain, hash, awaits)
    {
      ghost var w, rest := View(), [];
      if awaits(Probing).Fails() {
        OneStep(cfg, w, k, Crash(k));
        Abandon();
        return Threw, [Crash(k)];
      }
      var consumed;
      consumed, trace := ProbeThen(version, others(Quoting));
      if consumed {
        outcome, rest := ReconcileSpent(version, awaits(Reconciling));
      } else {
        outcome, rest := Attempt(version, hash, awaits, others);
      }
      RunConcat(cfg, w, trace, rest);
      LastOwnConcat(k, trace, rest);
      trace := trace + rest;
    }

    method ReconcileSpent(version: nat, await: Await)
      returns (outcome: ExecutionOutcome, ghost trace: seq<Action>)
      requires At(ExecSpent(version))
      modifies this
      ensures View() == Run(cfg, old(View()), trace) && k !in ops
      ensures outcome == (if await.Fails() then Threw else AlreadyExecuted) && Tells(k, outcome, trace)
      ensures chain == old(chain)
      ensures row == if await.Lands() then Apply(old(row), Transition(TRIGGERED, version, EXECUTED)) else old(row)
    {
      ghost var w := View();
      if await.Rejects? {
        OneStep(cfg, w, k, Crash(k));
        Abandon();
        return Threw, [Crash(k)];
      }
      OneStep(cfg, w, k, ExecReconciles(k));
      Reconcile(version);
      return if await.Fails() then Threw else AlreadyExecuted, [ExecReconciles(k)];
    }
  }
}
