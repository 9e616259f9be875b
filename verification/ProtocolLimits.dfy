/** Where the guarantees of the protocol end, and exactly under which conditions they hold. */
module ProtocolLimits {
  import opened Wrappers
  import opened OrderStatus
  import opened Orders
  import opened TransactionMonitor
  import opened Protocol
  import opened ProtocolAttempt
  import opened ProtocolDeadline
  import opened ProtocolSingle

  // ---- the documented transition table ---------------------------------------

  /**
   Which writes leave the documented table, exactly: the pre-flight reconciliation
   of a TRIGGERED order, a handleFailure that found the order in a status other
   than TRIGGERED or EXECUTING, a log backfill of an order that is not EXECUTING,
   and the FAILED audit.
   */
  lemma OffTableExactly(cfg: Config, w: World, a: Action)
    requires Attempt(cfg, w)
    requires WriteBy(w, a).Some? && Matches(w.row, WriteBy(w, a).value) && !a.ExecRecords?
    ensures RowAfter(w, a).version == w.row.version + 1
    ensures !CanTransition(w.row.status, RowAfter(w, a).status) <==>
            || a.ExecReconciles?
            || (a.ExecFails? && w.row.status != TRIGGERED && w.row.status != EXECUTING)
            || (a.LogWrites? && w.row.status != EXECUTING)
            || a.AuditWrites?
  {
    assert OpPhase(w.history, w.ops[a.k]);
  }

  // ---- a sample run ----------------------------------------------------------

  /** The run can be extended from `w` to `w'` by `a`. */
  lemma Extend(cfg: Config, terms: Terms, actions: seq<Action>, a: Action, w: World, w': World)
    returns (longer: seq<Action>)
    requires Run(cfg, Start(terms, 0), actions) == w && Step(cfg, w, a) == w'
    ensures longer == actions + [a] && Run(cfg, Start(terms, 0), longer) == w'
  {
    RunSnoc(cfg, Start(terms, 0), actions, a);
    longer := actions + [a];
  }

  /** At time 0, handed off, before anything is signed. */
  function Unsigned(terms: Terms, status: Status, version: nat, ops: map<nat, Op>, claims: nat): World {
    World(0, NewRow(terms).(status := status, version := version), Chain(map[], {}, map[], false, 0), ops, false, true,
          History(1, claims, 0, false, false))
  }

  lemma ReachEngineRead(cfg: Config, terms: Terms) returns (actions: seq<Action>)
    ensures Run(cfg, Start(terms, 0), actions) == Start(terms, 0).(ops := map[0 := EngineRead(0)])
  {
    actions := Extend(cfg, terms, [], EngineReads(0), Start(terms, 0),
                      Start(terms, 0).(ops := map[0 := EngineRead(0)]));
  }

  /** Triggered, and the engine has not handed it off yet. */
  function WonWorld(terms: Terms): World {
    Unsigned(terms, TRIGGERED, 1, map[0 := EngineWon], 0).(handedOff := false)
  }

  lemma ReachWon(cfg: Config, terms: Terms) returns (actions: seq<Action>)
    ensures Run(cfg, Start(terms, 0), actions) == WonWorld(terms)
  {
    actions := ReachEngineRead(cfg, terms);
    actions := Extend(cfg, terms, actions, EngineClaims(0), Start(terms, 0).(ops := map[0 := EngineRead(0)]),
                      WonWorld(terms));
  }

  lemma ReachTriggered(cfg: Config, terms: Terms) returns (actions: seq<Action>)
    ensures Run(cfg, Start(terms, 0), actions) == Unsigned(terms, TRIGGERED, 1, map[], 0)
  {
    actions := ReachWon(cfg, terms);
    actions := Extend(cfg, terms, actions, EngineEnqueues(0), WonWorld(terms), Unsigned(terms, TRIGGERED, 1, map[], 0));
  }

  /** One executor, or with `rival` two, have found the id unconsumed. */
  function Executors(rival: bool, first: Op): map<nat, Op> {
    if rival then map[0 := first, 1 := ExecFresh(1)] else map[0 := first]
  }

  lemma ReachPicked(cfg: Config, terms: Terms) returns (actions: seq<Action>)
    ensures Run(cfg, Start(terms, 0), actions) == Unsigned(terms, TRIGGERED, 1, map[0 := ExecRead(1)], 0)
  {
    actions := ReachTriggered(cfg, terms);
    actions := Extend(cfg, terms, actions, ExecReads(0), Unsigned(terms, TRIGGERED, 1, map[], 0),
                      Unsigned(terms, TRIGGERED, 1, map[0 := ExecRead(1)], 0));
  }

  lemma ReachFresh(cfg: Config, terms: Terms) returns (actions: seq<Action>)
    ensures Run(cfg, Start(terms, 0), actions) == Unsigned(terms, TRIGGERED, 1, map[0 := ExecFresh(1)], 0)
  {
    actions := ReachPicked(cfg, terms);
    actions := Extend(cfg, terms, actions, ExecProbes(0), Unsigned(terms, TRIGGERED, 1, map[0 := ExecRead(1)], 0),
                      Unsigned(terms, TRIGGERED, 1, map[0 := ExecFresh(1)], 0));
  }

  lemma ReachJoined(cfg: Config, terms: Terms) returns (actions: seq<Action>)
    requires !cfg.singleExecutor
    ensures Run(cfg, Start(terms, 0), actions)
         == Unsigned(terms, TRIGGERED, 1, map[0 := ExecFresh(1), 1 := ExecRead(1)], 0)
  {
    actions := ReachFresh(cfg, terms);
    actions := Extend(cfg, terms, actions, ExecReads(1), Unsigned(terms, TRIGGERED, 1, map[0 := ExecFresh(1)], 0),
                      Unsigned(terms, TRIGGERED, 1, map[0 := ExecFresh(1), 1 := ExecRead(1)], 0));
  }

  lemma ReachRival(cfg: Config, terms: Terms) returns (actions: seq<Action>)
    requires !cfg.singleExecutor
    ensures Run(cfg, Start(terms, 0), actions) == Unsigned(terms, TRIGGERED, 1, Executors(true, ExecFresh(1)), 0)
  {
    actions := ReachJoined(cfg, terms);
    var joined := map[0 := ExecFresh(1), 1 := ExecRead(1)];
    assert joined[1 := ExecFresh(1)] == Executors(true, ExecFresh(1));
    actions := Extend(cfg, terms, actions, ExecProbes(1), Unsigned(terms, TRIGGERED, 1, joined, 0),
                      Unsigned(terms, TRIGGERED, 1, Executors(true, ExecFresh(1)), 0));
  }

  lemma ReachReady(cfg: Config, terms: Terms, rival: bool) returns (actions: seq<Action>)
    requires rival ==> !cfg.singleExecutor
    ensures Run(cfg, Start(terms, 0), actions) == Unsigned(terms, TRIGGERED, 1, Executors(rival, ExecFresh(1)), 0)
  {
    if rival { actions := ReachRival(cfg, terms); } else { actions := ReachFresh(cfg, terms); }
  }

  lemma BuildsFirst(cfg: Config, terms: Terms, ready: map<nat, Op>)
    requires 0 in ready && ready[0] == ExecFresh(1)
    ensures Step(cfg, Unsigned(terms, TRIGGERED, 1, ready, 0), ExecBuilds(0))
         == Unsigned(terms, TRIGGERED, 1, ready[0 := ExecBuilt(1, cfg.windowSec)], 0)
  {
  }

  lemma ReachBuilt(cfg: Config, terms: Terms, rival: bool) returns (actions: seq<Action>)
    requires rival ==> !cfg.singleExecutor
    ensures Run(cfg, Start(terms, 0), actions)
         == Unsigned(terms, TRIGGERED, 1, Executors(rival, ExecFresh(1))[0 := ExecBuilt(1, cfg.windowSec)], 0)
  {
    var ready := ReachReady(cfg, terms, rival);
    BuildsFirst(cfg, terms, Executors(rival, ExecFresh(1)));
    RunSnoc(cfg, Start(terms, 0), ready, ExecBuilds(0));
    actions := ready + [ExecBuilds(0)];
  }

  lemma ClaimsFirst(cfg: Config, terms: Terms, built: map<nat, Op>)
    requires 0 in built && built[0] == ExecBuilt(1, cfg.windowSec)
    ensures Step(cfg, Unsigned(terms, TRIGGERED, 1, built, 0), ExecClaims(0))
         == Unsigned(terms, EXECUTING, 2, built[0 := ExecClaimed(cfg.windowSec)], 1)
  {
  }

  lemma ReachClaimed(cfg: Config, terms: Terms, rival: bool) returns (actions: seq<Action>)
    requires rival ==> !cfg.singleExecutor
    ensures Run(cfg, Start(terms, 0), actions)
         == Unsigned(terms, EXECUTING, 2, Executors(rival, ExecClaimed(cfg.windowSec)), 1)
  {
    var built := ReachBuilt(cfg, terms, rival);
    var ops := Executors(rival, ExecFresh(1))[0 := ExecBuilt(1, cfg.windowSec)];
    assert ops[0 := ExecClaimed(cfg.windowSec)] == Executors(rival, ExecClaimed(cfg.windowSec));
    ClaimsFirst(cfg, terms, ops);
    RunSnoc(cfg, Start(terms, 0), built, ExecClaims(0));
    actions := built + [ExecClaims(0)];
  }

  /** The one transaction of the order, signed with the deadline built at time 0. */
  function Signed(cfg: Config): map<Hash, Tx> { map[0 := Tx(cfg.executionId, cfg.windowSec)] }

  /** Signed and recorded at time 0, and on the network if `sent`. */
  function Recorded(cfg: Config, terms: Terms, now: int, sent: bool, ops: map<nat, Op>, knows: bool,
                    dropped: bool): World {
    World(now, Row(terms, EXECUTING, 2, Some(0), Some(0), None, None, None),
          Chain(Signed(cfg), if sent then {0} else {}, map[], false, 0), ops, knows, true,
          History(1, 1, 1, false, dropped))
  }

  function SignedWorld(cfg: Config, terms: Terms): World {
    Unsigned(terms, EXECUTING, 2, map[0 := ExecSigned(0)], 1)
    .(chain := Chain(Signed(cfg), {}, map[], false, 0), history := History(1, 1, 1, false, false))
  }

  lemma ReachSigned(cfg: Config, terms: Terms) returns (actions: seq<Action>)
    ensures Run(cfg, Start(terms, 0), actions) == SignedWorld(cfg, terms)
  {
    actions := ReachClaimed(cfg, terms, false);
    actions := Extend(cfg, terms, actions, ExecSigns(0, 0),
                      Unsigned(terms, EXECUTING, 2, map[0 := ExecClaimed(cfg.windowSec)], 1), SignedWorld(cfg, terms));
  }

  lemma ReachRecorded(cfg: Config, terms: Terms) returns (actions: seq<Action>)
    ensures Run(cfg, Start(terms, 0), actions)
         == Recorded(cfg, terms, 0, false, map[0 := ExecRecorded(0)], false, false)
  {
    actions := ReachSigned(cfg, terms);
    actions := Extend(cfg, terms, actions, ExecRecords(0), SignedWorld(cfg, terms),
                      Recorded(cfg, terms, 0, false, map[0 := ExecRecorded(0)], false, false));
  }

  lemma ReachSent(cfg: Config, terms: Terms) returns (actions: seq<Action>)
    ensures Run(cfg, Start(terms, 0), actions) == Recorded(cfg, terms, 0, true, map[0 := ExecSent(0)], false, false)
  {
    actions := ReachRecorded(cfg, terms);
    actions := Extend(cfg, terms, actions, ExecBroadcasts(0),
                      Recorded(cfg, terms, 0, false, map[0 := ExecRecorded(0)], false, false),
                      Recorded(cfg, terms, 0, true, map[0 := ExecSent(0)], false, false));
  }

  // ---- the drop verdict ------------------------------------------------------

  lemma ReachWatched(cfg: Config, terms: Terms) returns (actions: seq<Action>)
    ensures Run(cfg, Start(terms, 0), actions) == Recorded(cfg, terms, 0, true, map[], true, false)
  {
    actions := ReachSent(cfg, terms);
    actions := Extend(cfg, terms, actions, ExecEnqueues(0),
                      Recorded(cfg, terms, 0, true, map[0 := ExecSent(0)], false, false),
                      Recorded(cfg, terms, 0, true, map[], true, false));
  }

  /** The executor hands off, and a whole grace period goes by. */
  lemma ReachLate(cfg: Config, terms: Terms) returns (actions: seq<Action>)
    ensures Run(cfg, Start(terms, 0), actions) == Recorded(cfg, terms, cfg.graceMs, true, map[], true, false)
  {
    actions := ReachWatched(cfg, terms);
    actions := Extend(cfg, terms, actions, Tick(cfg.graceMs), Recorded(cfg, terms, 0, true, map[], true, false),
                      Recorded(cfg, terms, cfg.graceMs, true, map[], true, false));
  }

  function Late(cfg: Config, terms: Terms, op: Op): World {
    Recorded(cfg, terms, cfg.graceMs, true, map[0 := op], true, false)
  }

  lemma ReachAsked(cfg: Config, terms: Terms) returns (actions: seq<Action>)
    ensures Run(cfg, Start(terms, 0), actions) == Late(cfg, terms, MonRead(0, 0))
  {
    actions := ReachLate(cfg, terms);
    actions := Extend(cfg, terms, actions, MonReads(0), Recorded(cfg, terms, cfg.graceMs, true, map[], true, false),
                      Late(cfg, terms, MonRead(0, 0)));
  }

  /** The monitor finds no receipt and nothing in the mempool. */
  lemma ReachMissing(cfg: Config, terms: Terms) returns (actions: seq<Action>)
    ensures Run(cfg, Start(terms, 0), actions) == Late(cfg, terms, MonMissing(0, 0, cfg.graceMs))
  {
    actions := ReachAsked(cfg, terms);
    actions := Extend(cfg, terms, actions, MonReceipt(0, ReceiptNotFound), Late(cfg, terms, MonRead(0, 0)),
                      Late(cfg, terms, MonMissing(0, 0, cfg.graceMs)));
  }

  lemma ReachGone(cfg: Config, terms: Terms) returns (actions: seq<Action>)
    ensures Run(cfg, Start(terms, 0), actions) == Late(cfg, terms, MonGone(0, 0, cfg.graceMs))
  {
    actions := ReachMissing(cfg, terms);
    actions := Extend(cfg, terms, actions, MonMempool(0, NotVisible), Late(cfg, terms, MonMissing(0, 0, cfg.graceMs)),
                      Late(cfg, terms, MonGone(0, 0, cfg.graceMs)));
  }

  lemma ReachVerdict(cfg: Config, terms: Terms) returns (actions: seq<Action>)
    ensures Run(cfg, Start(terms, 0), actions) == Late(cfg, terms, MonVerdict(DROPPED_NOT_EXECUTED(0)))
  {
    actions := ReachGone(cfg, terms);
    actions := Extend(cfg, terms, actions, MonContract(0, Unconsumed), Late(cfg, terms, MonGone(0, 0, cfg.graceMs)),
                      Late(cfg, terms, MonVerdict(DROPPED_NOT_EXECUTED(0))));
  }

  function DroppedWorld(cfg: Config, terms: Terms): World {
    var w := Recorded(cfg, terms, cfg.graceMs, true, map[], true, true);
    w.(row := w.row.(status := FAILED, version := 3, confirmedAt := Some(cfg.graceMs)))
  }

  lemma VerdictDrops(cfg: Config, terms: Terms)
    ensures Step(cfg, Late(cfg, terms, MonVerdict(DROPPED_NOT_EXECUTED(0))), MonApplies(0)) == DroppedWorld(cfg, terms)
  {
  }

  lemma ReachDropped(cfg: Config, terms: Terms) returns (actions: seq<Action>)
    ensures Run(cfg, Start(terms, 0), actions) == DroppedWorld(cfg, terms)
  {
    var verdict := ReachVerdict(cfg, terms);
    VerdictDrops(cfg, terms);
    RunSnoc(cfg, Start(terms, 0), verdict, MonApplies(0));
    actions := verdict + [MonApplies(0)];
  }

  /** Inside the deadline, in a block stamped after the clock less the skew. */
  lemma DroppedCanLand(cfg: Config, terms: Terms)
    requires !GraceCoversDeadline(cfg)
    ensures Step(cfg, DroppedWorld(cfg, terms), Mine(0, cfg.windowSec, true)).chain.consumed
  {
  }

  /**
   A drop verdict is final in every run exactly when the grace period is at least
   the deadline window plus the clock skew. Otherwise the transaction can still be
   mined inside its deadline after the order was failed as dropped.
   */
  lemma DropVerdictIsFinalExactly(cfg: Config, terms: Terms)
    requires !cfg.retries
    ensures GraceCoversDeadline(cfg) <==>
            forall now, before, after :: Run(cfg, Start(terms, now), before).history.dropped ==>
              !Run(cfg, Start(terms, now), before + after).chain.consumed
  {
    if GraceCoversDeadline(cfg) {
      forall now, before, after | Run(cfg, Start(terms, now), before).history.dropped
        ensures !Run(cfg, Start(terms, now), before + after).chain.consumed
      {
        DropVerdictIsFinal(cfg, terms, now, before, after);
      }
    } else {
      var before := ReachDropped(cfg, terms);
      var after := [Mine(0, cfg.windowSec, true)];
      RunSnoc(cfg, Start(terms, 0), before, after[0]);
      DroppedCanLand(cfg, terms);
      assert Run(cfg, Start(terms, 0), before + after).chain.consumed;
    }
  }

  // ---- two executors ---------------------------------------------------------

  lemma ReachRivalThrows(cfg: Config, terms: Terms) returns (actions: seq<Action>)
    requires !cfg.singleExecutor
    ensures Run(cfg, Start(terms, 0), actions)
         == Unsigned(terms, EXECUTING, 2, map[0 := ExecClaimed(cfg.windowSec), 1 := ExecFailing], 1)
  {
    actions := ReachClaimed(cfg, terms, true);
    var claimed := map[0 := ExecClaimed(cfg.windowSec), 1 := ExecFresh(1)];
    assert claimed[1 := ExecFailing] == map[0 := ExecClaimed(cfg.windowSec), 1 := ExecFailing];
    actions := Extend(cfg, terms, actions, ExecThrows(1), Unsigned(terms, EXECUTING, 2, claimed, 1),
                      Unsigned(terms, EXECUTING, 2, map[0 := ExecClaimed(cfg.windowSec), 1 := ExecFailing], 1));
  }

  /** The rival throws and finds the order EXECUTING without a hash. */
  lemma ReachRivalRead(cfg: Config, terms: Terms) returns (actions: seq<Action>)
    requires !cfg.singleExecutor
    ensures Run(cfg, Start(terms, 0), actions)
         == Unsigned(terms, EXECUTING, 2, map[0 := ExecClaimed(cfg.windowSec), 1 := ExecFailRead(EXECUTING, 2)], 1)
  {
    actions := ReachRivalThrows(cfg, terms);
    var failing := map[0 := ExecClaimed(cfg.windowSec), 1 := ExecFailing];
    var read := map[0 := ExecClaimed(cfg.windowSec), 1 := ExecFailRead(EXECUTING, 2)];
    assert failing[1 := ExecFailRead(EXECUTING, 2)] == read;
    actions := Extend(cfg, terms, actions, ExecRereads(1), Unsigned(terms, EXECUTING, 2, failing, 1),
                      Unsigned(terms, EXECUTING, 2, read, 1));
  }

  /** It fails the order before the claimer records its hash. */
  lemma ReachFailedUnderneath(cfg: Config, terms: Terms) returns (actions: seq<Action>)
    requires !cfg.singleExecutor
    ensures Run(cfg, Start(terms, 0), actions) == Unsigned(terms, FAILED, 3, map[0 := ExecClaimed(cfg.windowSec)], 1)
  {
    actions := ReachRivalRead(cfg, terms);
    var ops := map[0 := ExecClaimed(cfg.windowSec), 1 := ExecFailRead(EXECUTING, 2)];
    assert ops - {1} == map[0 := ExecClaimed(cfg.windowSec)];
    actions := Extend(cfg, terms, actions, ExecFails(1), Unsigned(terms, EXECUTING, 2, ops, 1),
                      Unsigned(terms, FAILED, 3, map[0 := ExecClaimed(cfg.windowSec)], 1));
  }

  /** Failed, and signed all the same; `sent` although its hash was not recorded. */
  function LostWorld(cfg: Config, terms: Terms, op: Op, sent: bool): World {
    World(0, NewRow(terms).(status := FAILED, version := 3),
          Chain(Signed(cfg), if sent then {0} else {}, map[], false, 0), map[0 := op], false, true,
          History(1, 1, 1, false, false))
  }

  lemma ReachSignedUnderneath(cfg: Config, terms: Terms) returns (actions: seq<Action>)
    requires !cfg.singleExecutor
    ensures Run(cfg, Start(terms, 0), actions) == LostWorld(cfg, terms, ExecSigned(0), false)
  {
    actions := ReachFailedUnderneath(cfg, terms);
    actions := Extend(cfg, terms, actions, ExecSigns(0, 0),
                      Unsigned(terms, FAILED, 3, map[0 := ExecClaimed(cfg.windowSec)], 1),
                      LostWorld(cfg, terms, ExecSigned(0), false));
  }

  lemma ReachNotRecorded(cfg: Config, terms: Terms) returns (actions: seq<Action>)
    requires !cfg.singleExecutor
    ensures Run(cfg, Start(terms, 0), actions) == LostWorld(cfg, terms, ExecRecorded(0), false)
  {
    actions := ReachSignedUnderneath(cfg, terms);
    actions := Extend(cfg, terms, actions, ExecRecords(0), LostWorld(cfg, terms, ExecSigned(0), false),
                      LostWorld(cfg, terms, ExecRecorded(0), false));
  }

  lemma ReachLost(cfg: Config, terms: Terms) returns (actions: seq<Action>)
    requires !cfg.singleExecutor
    ensures Run(cfg, Start(terms, 0), actions) == LostWorld(cfg, terms, ExecSent(0), true)
  {
    actions := ReachNotRecorded(cfg, terms);
    actions := Extend(cfg, terms, actions, ExecBroadcasts(0), LostWorld(cfg, terms, ExecRecorded(0), false),
                      LostWorld(cfg, terms, ExecSent(0), true));
  }

  /** Whatever is on the network is on the row. */
  ghost predicate NetworkIsRecorded(cfg: Config, w: World) {
    forall h :: h in w.chain.network && Ours(cfg, w.chain, h) ==> w.row.txHash == Some(h) && w.row.submittedAt.Some?
  }

  /**
   Persist-before-broadcast, and with it the completeness of the FAILED audit, holds
   in every run exactly when at most one executor is live at a time. With two, the
   loser's error handling can fail the order between the winner's claim and its
   record, and the record's null result is ignored.
   */
  lemma SingleExecutorExactly(cfg: Config, terms: Terms)
    requires !cfg.retries && cfg.windowSec > 0
    ensures cfg.singleExecutor <==>
            forall now, actions :: NetworkIsRecorded(cfg, Run(cfg, Start(terms, now), actions))
    ensures cfg.singleExecutor <==>
            forall now, actions :: var w := Run(cfg, Start(terms, now), actions);
              w.row.status == FAILED && w.chain.consumed ==> w.row.txHash.Some? || w.row.submittedAt.Some?
  {
    if cfg.singleExecutor {
      forall now, actions ensures NetworkIsRecorded(cfg, Run(cfg, Start(terms, now), actions)) {
        var w := Run(cfg, Start(terms, now), actions);
        forall h | h in w.chain.network && Ours(cfg, w.chain, h)
          ensures w.row.txHash == Some(h) && w.row.submittedAt.Some?
        {
          PersistBeforeBroadcast(cfg, terms, now, actions, [], h);
        }
      }
      forall now, actions
        ensures var w := Run(cfg, Start(terms, now), actions);
                w.row.status == FAILED && w.chain.consumed ==> w.row.txHash.Some? || w.row.submittedAt.Some?
      {
        FailedButConsumedHasEvidence(cfg, terms, now, actions);
      }
    } else {
      var actions := ReachLost(cfg, terms);
      var lost := LostWorld(cfg, terms, ExecSent(0), true);
      assert 0 in lost.chain.network && Ours(cfg, lost.chain, 0);
      assert !NetworkIsRecorded(cfg, Run(cfg, Start(terms, 0), actions));
      LostLands(cfg, terms, actions);
    }
  }

  lemma LostLands(cfg: Config, terms: Terms, actions: seq<Action>)
    requires cfg.windowSec > 0 && Run(cfg, Start(terms, 0), actions) == LostWorld(cfg, terms, ExecSent(0), true)
    ensures var w := Run(cfg, Start(terms, 0), actions + [Mine(0, 1, true)]);
      w.row.status == FAILED && w.chain.consumed && w.row.txHash.None? && w.row.submittedAt.None?
  {
    RunSnoc(cfg, Start(terms, 0), actions, Mine(0, 1, true));
  }

  // ---- EXECUTED is not absorbing ----------------------------------------------

  /** The swap has landed, the log backfill has seen it, and the executor is still in its error handler. */
  function Settled(cfg: Config, terms: Terms, status: Status, version: nat, ops: map<nat, Op>): World {
    World(0, Row(terms, status, version, Some(0), Some(0), Some(7), Some(1), Some(0)),
          Chain(Signed(cfg), {0}, map[0 := true], true, 1), ops, false, true, History(1, 1, 1, false, false))
  }

  /** Broadcast at time 0 and mined, and nobody has told the row. */
  function Landed(cfg: Config, terms: Terms, ops: map<nat, Op>): World {
    var chain := Chain(Signed(cfg), {0}, map[0 := true], true, 1);
    Recorded(cfg, terms, 0, true, ops, false, false).(chain := chain)
  }

  lemma ReachThrown(cfg: Config, terms: Terms) returns (actions: seq<Action>)
    ensures Run(cfg, Start(terms, 0), actions) == Recorded(cfg, terms, 0, true, map[0 := ExecFailing], false, false)
  {
    actions := ReachSent(cfg, terms);
    actions := Extend(cfg, terms, actions, ExecThrows(0),
                      Recorded(cfg, terms, 0, true, map[0 := ExecSent(0)], false, false),
                      Recorded(cfg, terms, 0, true, map[0 := ExecFailing], false, false));
  }

  /** After the broadcast the hand-off throws, and meanwhile the transaction is mined. */
  lemma ReachLanded(cfg: Config, terms: Terms) returns (actions: seq<Action>)
    requires cfg.windowSec > 0
    ensures Run(cfg, Start(terms, 0), actions) == Landed(cfg, terms, map[0 := ExecFailing])
  {
    actions := ReachThrown(cfg, terms);
    actions := Extend(cfg, terms, actions, Mine(0, 1, true),
                      Recorded(cfg, terms, 0, true, map[0 := ExecFailing], false, false),
                      Landed(cfg, terms, map[0 := ExecFailing]));
  }

  lemma ReachLogRead(cfg: Config, terms: Terms) returns (actions: seq<Action>)
    requires cfg.windowSec > 0
    ensures Run(cfg, Start(terms, 0), actions)
         == Landed(cfg, terms, map[0 := ExecFailing, 1 := LogRead(EXECUTING, 0)])
  {
    actions := ReachLanded(cfg, terms);
    var mined := Landed(cfg, terms, map[0 := ExecFailing]);
    var read := map[0 := ExecFailing, 1 := LogRead(EXECUTING, 0)];
    assert mined.ops[1 := LogRead(EXECUTING, 0)] == read;
    actions := Extend(cfg, terms, actions, LogReads(1, 0), mined, mined.(ops := read));
  }

  lemma Backfills(cfg: Config, terms: Terms, read: map<nat, Op>)
    requires 1 in read && read[1] == LogRead(EXECUTING, 0)
    ensures Step(cfg, Landed(cfg, terms, read), LogWrites(1, 7, 1)) == Settled(cfg, terms, EXECUTED, 3, read - {1})
  {
  }

  lemma ReachBackfilled(cfg: Config, terms: Terms) returns (actions: seq<Action>)
    requires cfg.windowSec > 0
    ensures Run(cfg, Start(terms, 0), actions) == Settled(cfg, terms, EXECUTED, 3, map[0 := ExecFailing])
  {
    var read := ReachLogRead(cfg, terms);
    var ops := map[0 := ExecFailing, 1 := LogRead(EXECUTING, 0)];
    assert ops - {1} == map[0 := ExecFailing];
    Backfills(cfg, terms, ops);
    RunSnoc(cfg, Start(terms, 0), read, LogWrites(1, 7, 1));
    actions := read + [LogWrites(1, 7, 1)];
  }

  lemma ReachExecutedRead(cfg: Config, terms: Terms) returns (executed: seq<Action>)
    requires cfg.windowSec > 0
    ensures Run(cfg, Start(terms, 0), executed) == Settled(cfg, terms, EXECUTED, 3, map[0 := ExecFailRead(EXECUTED, 3)])
  {
    executed := ReachBackfilled(cfg, terms);
    executed := Extend(cfg, terms, executed, ExecRereads(0), Settled(cfg, terms, EXECUTED, 3, map[0 := ExecFailing]),
                       Settled(cfg, terms, EXECUTED, 3, map[0 := ExecFailRead(EXECUTED, 3)]));
  }

  lemma ReachFailedAgain(cfg: Config, terms: Terms, executed: seq<Action>)
    requires Run(cfg, Start(terms, 0), executed)
          == Settled(cfg, terms, EXECUTED, 3, map[0 := ExecFailRead(EXECUTED, 3)])
    ensures Run(cfg, Start(terms, 0), executed + [ExecFails(0)]) == Settled(cfg, terms, FAILED, 4, map[])
  {
    var failed := Extend(cfg, terms, executed, ExecFails(0),
                         Settled(cfg, terms, EXECUTED, 3, map[0 := ExecFailRead(EXECUTED, 3)]),
                         Settled(cfg, terms, FAILED, 4, map[]));
  }

  /**
   The transition table calls EXECUTED terminal; the code does not keep to it. Even
   with one executor and no retries, an error after the broadcast can take an order
   from EXECUTED to FAILED although its swap landed. The next FAILED audit puts it back.
   */
  lemma ExecutedCanBecomeFailed(cfg: Config, terms: Terms) returns (executed: seq<Action>, corrected: seq<Action>)
    requires cfg.windowSec > 0
    ensures var w := Run(cfg, Start(terms, 0), executed); w.row.status == EXECUTED && w.chain.consumed
    ensures Run(cfg, Start(terms, 0), executed + [ExecFails(0)]).row.status == FAILED
    ensures corrected == executed + [ExecFails(0)] + [AuditLists(0)] + [AuditProbes(0)] + [AuditWrites(0)]
    ensures Run(cfg, Start(terms, 0), corrected).row.status == EXECUTED
  {
    executed := ReachExecutedRead(cfg, terms);
    ReachFailedAgain(cfg, terms, executed);
    corrected := ReachAudited(cfg, terms, executed + [ExecFails(0)]);
  }

  lemma ReachListed(cfg: Config, terms: Terms, failing: seq<Action>) returns (listed: seq<Action>)
    requires Run(cfg, Start(terms, 0), failing) == Settled(cfg, terms, FAILED, 4, map[])
    ensures listed == failing + [AuditLists(0)]
    ensures Run(cfg, Start(terms, 0), listed) == Settled(cfg, terms, FAILED, 4, map[0 := AuditRead])
  {
    listed := Extend(cfg, terms, failing, AuditLists(0), Settled(cfg, terms, FAILED, 4, map[]),
                     Settled(cfg, terms, FAILED, 4, map[0 := AuditRead]));
  }

  lemma AuditFinds(cfg: Config, terms: Terms)
    ensures Step(cfg, Settled(cfg, terms, FAILED, 4, map[0 := AuditRead]), AuditProbes(0))
         == Settled(cfg, terms, FAILED, 4, map[0 := AuditConsumed])
  {
  }

  lemma AuditPutsBack(cfg: Config, terms: Terms)
    ensures Step(cfg, Settled(cfg, terms, FAILED, 4, map[0 := AuditConsumed]), AuditWrites(0)).row.status == EXECUTED
  {
  }

  lemma ReachProbed(cfg: Config, terms: Terms, listed: seq<Action>) returns (probed: seq<Action>)
    requires Run(cfg, Start(terms, 0), listed) == Settled(cfg, terms, FAILED, 4, map[0 := AuditRead])
    ensures probed == listed + [AuditProbes(0)]
    ensures Run(cfg, Start(terms, 0), probed) == Settled(cfg, terms, FAILED, 4, map[0 := AuditConsumed])
  {
    AuditFinds(cfg, terms);
    RunSnoc(cfg, Start(terms, 0), listed, AuditProbes(0));
    probed := listed + [AuditProbes(0)];
  }

  lemma ReachAudited(cfg: Config, terms: Terms, failing: seq<Action>) returns (corrected: seq<Action>)
    requires Run(cfg, Start(terms, 0), failing) == Settled(cfg, terms, FAILED, 4, map[])
    ensures corrected == failing + [AuditLists(0)] + [AuditProbes(0)] + [AuditWrites(0)]
    ensures Run(cfg, Start(terms, 0), corrected).row.status == EXECUTED
  {
    var listed := ReachListed(cfg, terms, failing);
    var probed := ReachProbed(cfg, terms, listed);
    AuditPutsBack(cfg, terms);
    RunSnoc(cfg, Start(terms, 0), probed, AuditWrites(0));
    corrected := probed + [AuditWrites(0)];
  }

  // ---- CANCELLED is not absorbing ---------------------------------------------

  /** After the probe and before the claim, the user asks to cancel. */
  lemma ReachCancelling(cfg: Config, terms: Terms) returns (actions: seq<Action>)
    ensures Run(cfg, Start(terms, 0), actions)
         == Unsigned(terms, TRIGGERED, 1, map[0 := ExecFresh(1), 1 := CancelRead(TRIGGERED, 1)], 0)
  {
    actions := ReachFresh(cfg, terms);
    var unclaimed := Unsigned(terms, TRIGGERED, 1, map[0 := ExecFresh(1)], 0);
    var read := map[0 := ExecFresh(1), 1 := CancelRead(TRIGGERED, 1)];
    assert unclaimed.ops[1 := CancelRead(TRIGGERED, 1)] == read;
    actions := Extend(cfg, terms, actions, CancelReads(1), unclaimed, unclaimed.(ops := read));
  }

  lemma Cancels(cfg: Config, terms: Terms)
    ensures var read := map[0 := ExecFresh(1), 1 := CancelRead(TRIGGERED, 1)];
            Step(cfg, Unsigned(terms, TRIGGERED, 1, read, 0), CancelWrites(1))
            == CancelledWorld(terms, CANCELLED, 2, map[0 := ExecFresh(1)])
  {
    assert map[0 := ExecFresh(1), 1 := CancelRead(TRIGGERED, 1)] - {1} == map[0 := ExecFresh(1)];
  }

  lemma ReachCancelled(cfg: Config, terms: Terms) returns (actions: seq<Action>)
    ensures Run(cfg, Start(terms, 0), actions) == CancelledWorld(terms, CANCELLED, 2, map[0 := ExecFresh(1)])
  {
    var read := ReachCancelling(cfg, terms);
    Cancels(cfg, terms);
    RunSnoc(cfg, Start(terms, 0), read, CancelWrites(1));
    actions := read + [CancelWrites(1)];
  }

  function CancelledWorld(terms: Terms, status: Status, version: nat, ops: map<nat, Op>): World {
    World(0, NewRow(terms).(status := status, version := version), Chain(map[], {}, map[], false, 0), ops, false, true,
          History(1, 0, 0, true, false))
  }

  lemma ReachCancelledThrows(cfg: Config, terms: Terms, cancelled: seq<Action>) returns (actions: seq<Action>)
    requires Run(cfg, Start(terms, 0), cancelled) == CancelledWorld(terms, CANCELLED, 2, map[0 := ExecFresh(1)])
    ensures actions == cancelled + [ExecThrows(0)]
    ensures Run(cfg, Start(terms, 0), actions) == CancelledWorld(terms, CANCELLED, 2, map[0 := ExecFailing])
  {
    actions := Extend(cfg, terms, cancelled, ExecThrows(0), CancelledWorld(terms, CANCELLED, 2, map[0 := ExecFresh(1)]),
                      CancelledWorld(terms, CANCELLED, 2, map[0 := ExecFailing]));
  }

  /** Any error then, and the error handler has read the row. */
  lemma ReachCancelledRead(cfg: Config, terms: Terms, cancelled: seq<Action>) returns (actions: seq<Action>)
    requires Run(cfg, Start(terms, 0), cancelled) == CancelledWorld(terms, CANCELLED, 2, map[0 := ExecFresh(1)])
    ensures actions == cancelled + [ExecThrows(0)] + [ExecRereads(0)]
    ensures Run(cfg, Start(terms, 0), actions)
         == CancelledWorld(terms, CANCELLED, 2, map[0 := ExecFailRead(CANCELLED, 2)])
  {
    actions := ReachCancelledThrows(cfg, terms, cancelled);
    actions := Extend(cfg, terms, actions, ExecRereads(0), CancelledWorld(terms, CANCELLED, 2, map[0 := ExecFailing]),
                      CancelledWorld(terms, CANCELLED, 2, map[0 := ExecFailRead(CANCELLED, 2)]));
  }

  /**
   The table calls CANCELLED terminal, too. An error in an execution that was under
   way when the user cancelled takes the order from CANCELLED to FAILED.
   */
  lemma CancelledCanBecomeFailed(cfg: Config, terms: Terms) returns (cancelled: seq<Action>)
    ensures var w := Run(cfg, Start(terms, 0), cancelled); w.row.status == CANCELLED && w.history.cancelled
    ensures var failing := cancelled + [ExecThrows(0)] + [ExecRereads(0)] + [ExecFails(0)];
            Run(cfg, Start(terms, 0), failing).row.status == FAILED
  {
    cancelled := ReachCancelled(cfg, terms);
    var read := ReachCancelledRead(cfg, terms, cancelled);
    RunSnoc(cfg, Start(terms, 0), read, ExecFails(0));
  }
}
