/** The orders that no actor, or none but a cancelling user, will ever move again. */
module ProtocolStranded {
  import opened OrderStatus
  import opened Orders
  import opened TransactionMonitor
  import opened Protocol
  import opened ProtocolTruth
  import opened ProtocolAttempt
  import opened ProtocolSingle
  import opened ProtocolLimits
  import opened Reconciliation
  import opened ServiceRuns

  /**
   EXECUTING without a submission time, nobody at work on it, no monitor job, and
   nothing of it on the network: the stuck sweep does not select it, and there is no
   receipt, no log and no FAILED status for anyone else to go by.
   */
  ghost predicate Stranded(cfg: Config, w: World) {
    && w.row.status == EXECUTING && w.row.submittedAt.None?
    && w.ops == map[] && !w.monitorKnows
    && (forall h :: h in w.chain.network ==> !Ours(cfg, w.chain, h))
    && ChainTruth(cfg, w.chain)
  }

  lemma StepKeepsStranded(cfg: Config, w: World, a: Action)
    requires Stranded(cfg, w)
    ensures Stranded(cfg, Step(cfg, w, a)) && Step(cfg, w, a).row == w.row
  {
    ChainGrows(cfg, w, a);
    assert !Continues(w, a) && BegunOp(cfg, w, a).None?;
  }

  /** Stranded is for good, whatever anyone does, with retries and any number of executors. */
  lemma {:induction false} StrandedForever(cfg: Config, w: World, actions: seq<Action>)
    requires Stranded(cfg, w)
    ensures Run(cfg, w, actions).row == w.row
    decreases |actions|
  {
    if |actions| != 0 {
      StepKeepsStranded(cfg, w, actions[0]);
      StrandedForever(cfg, Step(cfg, w, actions[0]), actions[1..]);
    }
  }

  /** What the stuck sweep and a monitor that finds nothing see after a long enough time. */
  function Empty(cfg: Config, w: World): Env {
    Env(w.now, cfg.graceMs, _ => ReceiptNotFound, _ => NotVisible,
        _ => if w.chain.consumed then Consumed else Unconsumed)
  }

  /** Long after, with the monitor at work on the order. */
  function LongAfter(cfg: Config, w: World): World
    requires w.row.submittedAt.Some?
  {
    w.(now := w.now + Wait(cfg, w), monitorKnows := true)
  }

  function Wait(cfg: Config, w: World): nat
    requires w.row.submittedAt.Some?
  {
    var due := w.row.submittedAt.value + cfg.stuckAfterMs + cfg.graceMs + 1;
    if due > w.now then due - w.now else 0
  }

  lemma SweepHears(cfg: Config, w: World)
    requires w.row.status == EXECUTING && w.row.submittedAt.Some?
    ensures Run(cfg, w, [Tick(Wait(cfg, w)), SweepFinds]) == LongAfter(cfg, w)
  {
    var late := w.(now := w.now + Wait(cfg, w));
    assert Step(cfg, w, Tick(Wait(cfg, w))) == late;
    assert Step(cfg, late, SweepFinds) == LongAfter(cfg, w);
    RunSnoc(cfg, w, [], Tick(Wait(cfg, w)));
    RunSnoc(cfg, w, [] + [Tick(Wait(cfg, w))], SweepFinds);
    assert [] + [Tick(Wait(cfg, w))] + [SweepFinds] == [Tick(Wait(cfg, w)), SweepFinds];
  }

  /** An order with a hash and a submission time can still be resolved. */
  lemma CanBeResolved(cfg: Config, w: World) returns (after: seq<Action>)
    requires w.row.status == EXECUTING && w.row.submittedAt.Some? && w.ops == map[]
    requires w.row.terms.executionId == cfg.executionId
    ensures Run(cfg, w, after).row.status != EXECUTING
  {
    var late := LongAfter(cfg, w);
    SweepHears(cfg, w);
    var check := CheckIsARun(cfg, late, 0, Empty(cfg, late));
    after := [Tick(Wait(cfg, w)), SweepFinds] + check;
    RunConcat(cfg, w, [Tick(Wait(cfg, w)), SweepFinds], check);
  }

  /**
   Which EXECUTING orders can ever leave that status, once nobody is at work on them
   and no monitor job exists: exactly those with a submission time. The others are
   stranded for good.
   */
  lemma StrandedExactly(cfg: Config, terms: Terms, now: int, before: seq<Action>)
    requires cfg.singleExecutor && !cfg.retries && terms.executionId == cfg.executionId
    requires var w := Run(cfg, Start(terms, now), before);
             w.row.status == EXECUTING && w.ops == map[] && !w.monitorKnows
    ensures var w := Run(cfg, Start(terms, now), before);
            w.row.submittedAt.Some? <==> exists after :: Run(cfg, w, after).row.status != EXECUTING
  {
    var w := Run(cfg, Start(terms, now), before);
    RunKeepsPersisted(cfg, Start(terms, now), before);
    RunKeepsTerms(cfg, Start(terms, now), before);
    if w.row.submittedAt.Some? {
      var after := CanBeResolved(cfg, w);
    } else {
      forall after ensures Run(cfg, w, after).row.status == EXECUTING {
        StrandedForever(cfg, w, after);
      }
    }
  }

  lemma {:induction false} RunKeepsTerms(cfg: Config, w: World, actions: seq<Action>)
    ensures Run(cfg, w, actions).row.terms == w.row.terms
    decreases |actions|
  {
    if |actions| != 0 {
      assert RowAfter(w, actions[0]).terms == w.row.terms;
      RunKeepsTerms(cfg, Step(cfg, w, actions[0]), actions[1..]);
    }
  }

  /**
   Such orders exist: the executor claims one, and then dies, or throws and its error
   handler's own database call rejects, before the hash is recorded.
   */
  lemma ClaimThenNothingStrands(cfg: Config, terms: Terms) returns (died: seq<Action>, threw: seq<Action>)
    ensures Stranded(cfg, Run(cfg, Start(terms, 0), died)) && Stranded(cfg, Run(cfg, Start(terms, 0), threw))
    ensures exists claimed :: died == claimed + [Crash(0)] && threw == claimed + [ExecThrows(0)] + [Crash(0)]
  {
    var claimed := ReachClaimed(cfg, terms, false);
    var w := Unsigned(terms, EXECUTING, 2, Executors(false, ExecClaimed(cfg.windowSec)), 1);
    died, threw := claimed + [Crash(0)], claimed + [ExecThrows(0)] + [Crash(0)];
    RunSnoc(cfg, Start(terms, 0), claimed, Crash(0));
    RunSnoc(cfg, Start(terms, 0), claimed, ExecThrows(0));
    RunSnoc(cfg, Start(terms, 0), claimed + [ExecThrows(0)], Crash(0));
    DyingStrands(cfg, terms);
  }

  lemma DyingStrands(cfg: Config, terms: Terms)
    ensures var w := Unsigned(terms, EXECUTING, 2, Executors(false, ExecClaimed(cfg.windowSec)), 1);
      && Stranded(cfg, Step(cfg, w, Crash(0)))
      && Stranded(cfg, Step(cfg, Step(cfg, w, ExecThrows(0)), Crash(0)))
  {
    assert Executors(false, ExecClaimed(cfg.windowSec)) - {0} == map[];
    assert map[0 := ExecFailing] - {0} == map[];
    assert Executors(false, ExecClaimed(cfg.windowSec))[0 := ExecFailing] == map[0 := ExecFailing];
  }

  // ---- TRIGGERED and never handed off --------------------------------------------

  /** What can be in flight for an order that was never handed off. */
  predicate BeforeHandOff(op: Op) {
    match op
    case EngineRead(_) => true
    case EngineWon => true
    case CancelRead(s, _) => IsUserCancellable(s)
    case RetriggerRead(s, _) => s == PENDING
    case _ => false
  }

  /** Nobody executes an order that was never handed off. */
  ghost predicate NotStarted(cfg: Config, w: World) {
    && w.row.status in {PENDING, TRIGGERED, CANCELLED}
    && (forall h :: !Ours(cfg, w.chain, h))
    && (forall k :: k in w.ops ==> BeforeHandOff(w.ops[k]))
  }

  lemma BegunBeforeHandOff(cfg: Config, w: World, a: Action)
    requires NotStarted(cfg, w) && !w.handedOff && BegunOp(cfg, w, a).Some?
    ensures BeforeHandOff(BegunOp(cfg, w, a).value) && !BegunOp(cfg, w, a).value.EngineWon?
    ensures BegunOp(cfg, w, a).value.EngineRead? ==> w.row.status == PENDING
  {
  }

  lemma NextBeforeHandOff(cfg: Config, w: World, a: Action, op: Op)
    requires BeforeHandOff(op) && NextOp(cfg, w, op, a).Some?
    ensures BeforeHandOff(NextOp(cfg, w, op, a).value)
    ensures NextOp(cfg, w, op, a).value.EngineWon? ==> op.EngineWon? || w.row.status == PENDING
  {
  }

  lemma StepKeepsNotStarted(cfg: Config, w: World, a: Action)
    requires NotStarted(cfg, w) && !w.handedOff
    ensures NotStarted(cfg, Step(cfg, w, a))
  {
    if Continues(w, a) { assert BeforeHandOff(w.ops[a.k]); }
    forall k | k in OpsAfter(cfg, w, a) ensures BeforeHandOff(OpsAfter(cfg, w, a)[k]) {
      OpsOneByOne(cfg, w, a, k);
      if k !in w.ops {
        BegunBeforeHandOff(cfg, w, a);
      } else if OpsAfter(cfg, w, a)[k] != w.ops[k] {
        NextBeforeHandOff(cfg, w, a, w.ops[k]);
      }
    }
    forall h ensures !Ours(cfg, ChainAfter(cfg, w, a), h) {
      if Ours(cfg, ChainAfter(cfg, w, a), h) { OursBySigning(cfg, w, a, h); }
    }
  }

  lemma {:induction false} RunKeepsNotStarted(cfg: Config, w: World, actions: seq<Action>)
    requires w.handedOff || NotStarted(cfg, w)
    ensures var v := Run(cfg, w, actions); v.handedOff || NotStarted(cfg, v)
    decreases |actions|
  {
    if |actions| != 0 {
      if !w.handedOff { StepKeepsNotStarted(cfg, w, actions[0]); }
      RunKeepsNotStarted(cfg, Step(cfg, w, actions[0]), actions[1..]);
    }
  }

  /** Triggered, not handed off, and no engine is about to. */
  ghost predicate Forgotten(cfg: Config, w: World) {
    && NotStarted(cfg, w) && !w.handedOff && w.row.status in {TRIGGERED, CANCELLED}
    && (forall k :: k in w.ops ==> !w.ops[k].EngineWon?)
  }

  lemma StepKeepsForgotten(cfg: Config, w: World, a: Action)
    requires Forgotten(cfg, w)
    ensures Forgotten(cfg, Step(cfg, w, a))
    ensures Step(cfg, w, a).row == w.row || Step(cfg, w, a).row.status == CANCELLED
  {
    StepKeepsNotStarted(cfg, w, a);
    if Continues(w, a) { assert BeforeHandOff(w.ops[a.k]) && !w.ops[a.k].EngineWon?; }
    forall k | k in OpsAfter(cfg, w, a) ensures !OpsAfter(cfg, w, a)[k].EngineWon? {
      OpsOneByOne(cfg, w, a, k);
      if k !in w.ops {
        BegunBeforeHandOff(cfg, w, a);
      } else if OpsAfter(cfg, w, a)[k] != w.ops[k] {
        NextBeforeHandOff(cfg, w, a, w.ops[k]);
      }
    }
  }

  /** Only a cancel ever moves such an order, with retries and any number of engines and executors. */
  lemma {:induction false} ForgottenForever(cfg: Config, w: World, actions: seq<Action>)
    requires Forgotten(cfg, w)
    ensures Forgotten(cfg, Run(cfg, w, actions))
    ensures Run(cfg, w, actions).row == w.row || Run(cfg, w, actions).row.status == CANCELLED
    decreases |actions|
  {
    if |actions| != 0 {
      StepKeepsForgotten(cfg, w, actions[0]);
      ForgottenForever(cfg, Step(cfg, w, actions[0]), actions[1..]);
    }
  }

  // ---- a job that is delivered ----------------------------------------------------

  function Holding(w: World, op: Op): World { w.(ops := map[0 := op]) }

  lemma Picks(cfg: Config, w: World)
    requires w.row.status == TRIGGERED && w.handedOff && w.ops == map[]
    ensures Step(cfg, w, ExecReads(0)) == Holding(w, ExecRead(w.row.version))
  {
  }

  lemma Probes(cfg: Config, w: World)
    ensures Step(cfg, Holding(w, ExecRead(w.row.version)), ExecProbes(0))
         == Holding(w, if w.chain.consumed then ExecSpent(w.row.version) else ExecFresh(w.row.version))
  {
  }

  lemma Reconciles(cfg: Config, w: World)
    requires w.row.status == TRIGGERED
    ensures Step(cfg, Holding(w, ExecSpent(w.row.version)), ExecReconciles(0)).row.status == EXECUTED
  {
  }

  lemma Builds(cfg: Config, w: World)
    ensures Step(cfg, Holding(w, ExecFresh(w.row.version)), ExecBuilds(0))
         == Holding(w, ExecBuilt(w.row.version, w.now / 1000 + cfg.windowSec))
  {
  }

  lemma Claims(cfg: Config, w: World, deadline: int)
    requires w.row.status == TRIGGERED
    ensures Step(cfg, Holding(w, ExecBuilt(w.row.version, deadline)), ExecClaims(0)).row.status == EXECUTING
  {
  }

  lemma RunOfTwo(cfg: Config, w: World, a: Action, b: Action)
    ensures Run(cfg, w, [a, b]) == Step(cfg, Step(cfg, w, a), b)
  {
    RunSnoc(cfg, w, [], a);
    RunSnoc(cfg, w, [] + [a], b);
    assert [] + [a] + [b] == [a, b];
  }

  /** A delivered job finds out whether the id is spent. */
  lemma CanBeProbed(cfg: Config, w: World) returns (after: seq<Action>)
    requires w.row.status == TRIGGERED && w.handedOff && w.ops == map[]
    ensures Run(cfg, w, after)
         == Holding(w, if w.chain.consumed then ExecSpent(w.row.version) else ExecFresh(w.row.version))
  {
    after := [ExecReads(0), ExecProbes(0)];
    RunOfTwo(cfg, w, ExecReads(0), ExecProbes(0));
    Picks(cfg, w);
    Probes(cfg, w);
  }

  lemma CanBeBuilt(cfg: Config, w: World) returns (after: seq<Action>)
    ensures Run(cfg, Holding(w, ExecFresh(w.row.version)), after)
         == Holding(w, ExecBuilt(w.row.version, w.now / 1000 + cfg.windowSec))
  {
    after := [] + [ExecBuilds(0)];
    RunSnoc(cfg, Holding(w, ExecFresh(w.row.version)), [], ExecBuilds(0));
    Builds(cfg, w);
  }

  lemma BuiltCanBeClaimed(cfg: Config, w: World, deadline: int) returns (after: seq<Action>)
    requires w.row.status == TRIGGERED
    ensures Run(cfg, Holding(w, ExecBuilt(w.row.version, deadline)), after).row.status == EXECUTING
  {
    after := [] + [ExecClaims(0)];
    RunSnoc(cfg, Holding(w, ExecBuilt(w.row.version, deadline)), [], ExecClaims(0));
    Claims(cfg, w, deadline);
  }

  lemma CanBeClaimed(cfg: Config, w: World) returns (after: seq<Action>)
    requires w.row.status == TRIGGERED
    ensures Run(cfg, Holding(w, ExecFresh(w.row.version)), after).row.status == EXECUTING
  {
    var built := CanBeBuilt(cfg, w);
    var claimed := BuiltCanBeClaimed(cfg, w, w.now / 1000 + cfg.windowSec);
    after := built + claimed;
    RunConcat(cfg, Holding(w, ExecFresh(w.row.version)), built, claimed);
  }

  /** It takes the order on in either case. */
  lemma CanBeExecuted(cfg: Config, w: World) returns (after: seq<Action>)
    requires w.row.status == TRIGGERED && w.handedOff && w.ops == map[]
    ensures Run(cfg, w, after).row.status in {EXECUTING, EXECUTED}
  {
    var probed := CanBeProbed(cfg, w);
    if w.chain.consumed {
      after := probed + [ExecReconciles(0)];
      RunSnoc(cfg, w, probed, ExecReconciles(0));
      Reconciles(cfg, w);
    } else {
      var claimed := CanBeClaimed(cfg, w);
      after := probed + claimed;
      RunConcat(cfg, w, probed, claimed);
    }
  }

  /**
   Which TRIGGERED orders can ever be executed, once nobody is at work on them:
   exactly those that were handed to the execution queue. The others stay TRIGGERED
   until the user cancels; no pass of the reconciler looks at them.
   */
  lemma HandedOffExactly(cfg: Config, terms: Terms, now: int, before: seq<Action>)
    requires var w := Run(cfg, Start(terms, now), before); w.row.status == TRIGGERED && w.ops == map[]
    ensures var w := Run(cfg, Start(terms, now), before);
      w.handedOff <==> exists after :: Run(cfg, w, after).row.status !in {TRIGGERED, CANCELLED}
  {
    var w := Run(cfg, Start(terms, now), before);
    RunKeepsNotStarted(cfg, Start(terms, now), before);
    if w.handedOff {
      var after := CanBeExecuted(cfg, w);
    } else {
      forall after ensures Run(cfg, w, after).row.status in {TRIGGERED, CANCELLED} {
        ForgottenForever(cfg, w, after);
      }
    }
  }

  /** Such orders exist: the engine claims one, and dies, or its hand-off rejects and it goes on. */
  lemma ClaimWithoutHandOffStrands(cfg: Config, terms: Terms) returns (actions: seq<Action>)
    ensures var w := Run(cfg, Start(terms, 0), actions); w.row.status == TRIGGERED && w.ops == map[] && !w.handedOff
    ensures forall after :: Run(cfg, Start(terms, 0), actions + after).row.status in {TRIGGERED, CANCELLED}
  {
    var won := ReachWon(cfg, terms);
    actions := won + [Crash(0)];
    RunSnoc(cfg, Start(terms, 0), won, Crash(0));
    var w := Run(cfg, Start(terms, 0), actions);
    assert w == Unsigned(terms, TRIGGERED, 1, map[], 0).(handedOff := false);
    forall after ensures Run(cfg, Start(terms, 0), actions + after).row.status in {TRIGGERED, CANCELLED} {
      RunConcat(cfg, Start(terms, 0), actions, after);
      ForgottenForever(cfg, w, after);
    }
  }
}
