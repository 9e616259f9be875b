/** When a drop verdict is final. */
module ProtocolDeadline {
  import opened Orders
  import opened Protocol
  import opened ProtocolTruth
  import opened ProtocolAttempt

  /** The grace period outlasts every deadline the executor can set, with the clock skew on top. */
  predicate GraceCoversDeadline(cfg: Config) {
    cfg.graceMs >= 1000 * cfg.windowSec + cfg.skewMs
  }

  /** No transaction of this order can land in a block stamped, in milliseconds, after `bound`. */
  ghost predicate Within(cfg: Config, c: Chain, bound: int) {
    forall h :: Ours(cfg, c, h) ==> 1000 * c.signed[h].deadline <= bound
  }

  /** The one signed transaction is past its deadline in every block still to come, and did not land. */
  ghost predicate Dead(cfg: Config, w: World) {
    w.history.signings == 1 && Within(cfg, w.chain, w.now - cfg.skewMs) && !w.chain.consumed
  }

  /** Everything signed is covered by the submission time `t`. */
  ghost predicate Tracked(cfg: Config, w: World, t: int) {
    w.history.signings == 1 && Within(cfg, w.chain, t + 1000 * cfg.windowSec)
  }

  ghost predicate OpDeadline(cfg: Config, w: World, op: Op) {
    match op
    case ExecBuilt(_, d) => 1000 * d <= w.now + 1000 * cfg.windowSec
    case ExecClaimed(d) => 1000 * d <= w.now + 1000 * cfg.windowSec
    case ExecSigned(h) => Within(cfg, w.chain, w.now + 1000 * cfg.windowSec)
    case MonRead(_, t) => Tracked(cfg, w, t)
    case MonMissing(_, t, at) => Tracked(cfg, w, t) && at <= w.now
    case MonGone(_, t, at) => Tracked(cfg, w, t) && at <= w.now && at - t >= cfg.graceMs
    case MonVerdict(o) => o.DROPPED_NOT_EXECUTED? ==> Dead(cfg, w)
    case _ => true
  }

  ghost predicate Deadlines(cfg: Config, w: World) {
    && (forall k :: k in w.ops ==> OpDeadline(cfg, w, w.ops[k]))
    && (w.row.submittedAt.Some? ==> Within(cfg, w.chain, w.row.submittedAt.value + 1000 * cfg.windowSec))
    && (w.history.dropped ==> Dead(cfg, w))
  }

  lemma WithinStays(cfg: Config, w: World, a: Action, bound: int)
    requires Attempt(cfg, w) && w.history.signings == 1 && Within(cfg, w.chain, bound)
    ensures Within(cfg, ChainAfter(cfg, w, a), bound)
    ensures HistoryAfter(w, a).signings == 1
  {
    ChainGrows(cfg, w, a);
    assert Signs(w, a) ==> OpPhase(w.history, w.ops[a.k]);
    forall h | Ours(cfg, ChainAfter(cfg, w, a), h) ensures Ours(cfg, w.chain, h) {
      OursBySigning(cfg, w, a, h);
    }
  }

  lemma DeadStays(cfg: Config, w: World, a: Action)
    requires Attempt(cfg, w) && Dead(cfg, w)
    ensures Dead(cfg, Step(cfg, w, a))
  {
    WithinStays(cfg, w, a, w.now - cfg.skewMs);
    if ChainAfter(cfg, w, a).consumed {
      ConsumedByMining(cfg, w, a);
    }
  }

  lemma TrackedStays(cfg: Config, w: World, a: Action, t: int)
    requires Attempt(cfg, w) && Tracked(cfg, w, t)
    ensures Tracked(cfg, Step(cfg, w, a), t)
  {
    WithinStays(cfg, w, a, t + 1000 * cfg.windowSec);
  }

  /** What a monitor knows about deadlines stays so. */
  lemma MonDeadlineStays(cfg: Config, w: World, a: Action, op: Op)
    requires Attempt(cfg, w) && OpDeadline(cfg, w, op) && IsMonitor(op)
    ensures OpDeadline(cfg, Step(cfg, w, a), op)
  {
    match op
    case MonRead(_, t) => TrackedStays(cfg, w, a, t);
    case MonMissing(_, t, _) => TrackedStays(cfg, w, a, t);
    case MonGone(_, t, _) => TrackedStays(cfg, w, a, t);
    case MonVerdict(o) => if o.DROPPED_NOT_EXECUTED? { DeadStays(cfg, w, a); }
    case _ =>
  }

  /** And so does what any operation knows. */
  lemma OpDeadlineStays(cfg: Config, w: World, a: Action, op: Op)
    requires Attempt(cfg, w) && OpDeadline(cfg, w, op) && (op.ExecSigned? ==> w.history.signings == 1)
    ensures OpDeadline(cfg, Step(cfg, w, a), op)
  {
    if op.ExecSigned? {
      WithinStays(cfg, w, a, w.now + 1000 * cfg.windowSec);
    } else if IsMonitor(op) {
      MonDeadlineStays(cfg, w, a, op);
    }
  }

  /** Signing: the only transaction of the order gets the deadline that was built earlier. */
  lemma SigningWithin(cfg: Config, w: World, a: Action)
    requires Attempt(cfg, w) && Signs(w, a) && OpDeadline(cfg, w, w.ops[a.k])
    ensures Within(cfg, ChainAfter(cfg, w, a), w.now + 1000 * cfg.windowSec)
  {
    assert OpPhase(w.history, w.ops[a.k]);
    forall h | Ours(cfg, ChainAfter(cfg, w, a), h) ensures h == a.hash {
      OursBySigning(cfg, w, a, h);
    }
  }

  /** The verdict step: out of grace and unconsumed means dead. */
  lemma VerdictMeansDead(cfg: Config, w: World, t: int, at: int)
    requires GraceCoversDeadline(cfg)
    requires Tracked(cfg, w, t) && at <= w.now && at - t >= cfg.graceMs && !w.chain.consumed
    ensures Dead(cfg, w)
  {
  }

  lemma NextMonitorOpDeadline(cfg: Config, w: World, a: Action, op: Op)
    requires GraceCoversDeadline(cfg) && OpDeadline(cfg, w, op) && IsMonitor(op) && NextMonitorOp(cfg, w, op, a).Some?
    ensures OpDeadline(cfg, w, NextMonitorOp(cfg, w, op, a).value)
    ensures !NextMonitorOp(cfg, w, op, a).value.ExecSigned?
  {
    if op.MonGone? && op.at - op.submittedAt >= cfg.graceMs && !w.chain.consumed {
      VerdictMeansDead(cfg, w, op.submittedAt, op.at);
    }
  }

  lemma NextExecOpDeadline(cfg: Config, w: World, a: Action, op: Op)
    requires OpDeadline(cfg, w, op) && IsExec(op) && NextExecOp(cfg, w, op, a).Some?
    requires !(op.ExecClaimed? && a.ExecSigns?)
    ensures OpDeadline(cfg, w, NextExecOp(cfg, w, op, a).value)
    ensures NextExecOp(cfg, w, op, a).value.ExecSigned? ==> op.ExecSigned?
  {
  }

  /** What a step teaches an operation is so already before the step, signing apart. */
  lemma NextOpDeadline(cfg: Config, w: World, a: Action, op: Op)
    requires GraceCoversDeadline(cfg) && OpDeadline(cfg, w, op)
    requires NextOp(cfg, w, op, a).Some? && !(op.ExecClaimed? && a.ExecSigns?)
    ensures OpDeadline(cfg, w, NextOp(cfg, w, op, a).value)
    ensures NextOp(cfg, w, op, a).value.ExecSigned? ==> op.ExecSigned?
  {
    if IsExec(op) && !a.Crash? { NextExecOpDeadline(cfg, w, a, op); }
    else if IsMonitor(op) && !a.Crash? { NextMonitorOpDeadline(cfg, w, a, op); }
  }

  lemma BegunOpDeadline(cfg: Config, w: World, a: Action)
    requires Attempt(cfg, w) && Deadlines(cfg, w) && BegunOp(cfg, w, a).Some?
    ensures OpDeadline(cfg, w, BegunOp(cfg, w, a).value) && !BegunOp(cfg, w, a).value.ExecSigned?
  {
  }

  /** An operation that a step continues, signing apart, or leaves alone. */
  lemma OldOpDeadline(cfg: Config, w: World, a: Action, k: nat)
    requires GraceCoversDeadline(cfg) && Attempt(cfg, w) && Deadlines(cfg, w)
    requires k in w.ops && k in OpsAfter(cfg, w, a) && !(Signs(w, a) && k == a.k)
    ensures OpDeadline(cfg, w, OpsAfter(cfg, w, a)[k])
    ensures OpsAfter(cfg, w, a)[k].ExecSigned? ==> w.history.signings == 1
  {
    OpsOneByOne(cfg, w, a, k);
    assert OpDeadline(cfg, w, w.ops[k]) && OpPhase(w.history, w.ops[k]);
    if Continues(w, a) && k == a.k && !(w.ops[k].ExecClaimed? && a.ExecSigns?) {
      NextOpDeadline(cfg, w, a, w.ops[k]);
    }
  }

  lemma OpDeadlineAfter(cfg: Config, w: World, a: Action, k: nat)
    requires GraceCoversDeadline(cfg) && Attempt(cfg, w) && Deadlines(cfg, w) && k in OpsAfter(cfg, w, a)
    ensures OpDeadline(cfg, Step(cfg, w, a), OpsAfter(cfg, w, a)[k])
  {
    OpsOneByOne(cfg, w, a, k);
    if Signs(w, a) && k == a.k {
      assert OpDeadline(cfg, w, w.ops[k]);
      SigningWithin(cfg, w, a);
    } else {
      if k !in w.ops { BegunOpDeadline(cfg, w, a); } else { OldOpDeadline(cfg, w, a, k); }
      OpDeadlineStays(cfg, w, a, OpsAfter(cfg, w, a)[k]);
    }
  }

  /** The submission time on the row covers the deadline of everything signed. */
  lemma SubmissionWithin(cfg: Config, w: World, a: Action)
    requires Attempt(cfg, w) && Deadlines(cfg, w) && RowAfter(w, a).submittedAt.Some?
    ensures Within(cfg, ChainAfter(cfg, w, a), RowAfter(w, a).submittedAt.value + 1000 * cfg.windowSec)
  {
    if RowAfter(w, a).submittedAt == w.row.submittedAt {
      WithinStays(cfg, w, a, w.row.submittedAt.value + 1000 * cfg.windowSec);
    } else {
      assert OpDeadline(cfg, w, w.ops[a.k]) && OpPhase(w.history, w.ops[a.k]);
      WithinStays(cfg, w, a, w.now + 1000 * cfg.windowSec);
    }
  }

  lemma DroppedMeansDead(cfg: Config, w: World, a: Action)
    requires Attempt(cfg, w) && Deadlines(cfg, w) && HistoryAfter(w, a).dropped
    ensures Dead(cfg, Step(cfg, w, a))
  {
    if Drops(w, a) { assert OpDeadline(cfg, w, w.ops[a.k]); }
    DeadStays(cfg, w, a);
  }

  lemma StepKeepsDeadlines(cfg: Config, w: World, a: Action)
    requires GraceCoversDeadline(cfg) && Attempt(cfg, w) && Deadlines(cfg, w)
    ensures Deadlines(cfg, Step(cfg, w, a))
  {
    var v := Step(cfg, w, a);
    forall k | k in v.ops ensures OpDeadline(cfg, v, v.ops[k]) {
      OpDeadlineAfter(cfg, w, a, k);
    }
    if v.row.submittedAt.Some? { SubmissionWithin(cfg, w, a); }
    if v.history.dropped { DroppedMeansDead(cfg, w, a); }
  }

  lemma {:induction false} RunKeepsDeadlines(cfg: Config, w: World, actions: seq<Action>)
    requires !cfg.retries && GraceCoversDeadline(cfg) && Attempt(cfg, w) && Deadlines(cfg, w)
    ensures Deadlines(cfg, Run(cfg, w, actions)) && Attempt(cfg, Run(cfg, w, actions))
    decreases |actions|
  {
    if |actions| != 0 {
      StepKeepsAttempt(cfg, w, actions[0]);
      StepKeepsDeadlines(cfg, w, actions[0]);
      RunKeepsDeadlines(cfg, Step(cfg, w, actions[0]), actions[1..]);
    }
  }

  lemma {:induction false} DeadForever(cfg: Config, w: World, actions: seq<Action>)
    requires !cfg.retries && Attempt(cfg, w) && Dead(cfg, w)
    ensures !Run(cfg, w, actions).chain.consumed
    decreases |actions|
  {
    if |actions| != 0 {
      StepKeepsAttempt(cfg, w, actions[0]);
      DeadStays(cfg, w, actions[0]);
      DeadForever(cfg, Step(cfg, w, actions[0]), actions[1..]);
    }
  }

  /** Once an order is failed as dropped, no continuation of the run ever consumes its id. */
  lemma DropVerdictIsFinal(cfg: Config, terms: Terms, now: int, before: seq<Action>, after: seq<Action>)
    requires !cfg.retries && GraceCoversDeadline(cfg)
    requires Run(cfg, Start(terms, now), before).history.dropped
    ensures !Run(cfg, Start(terms, now), before + after).chain.consumed
  {
    RunKeepsDeadlines(cfg, Start(terms, now), before);
    RunConcat(cfg, Start(terms, now), before, after);
    DeadForever(cfg, Run(cfg, Start(terms, now), before), after);
  }
}
