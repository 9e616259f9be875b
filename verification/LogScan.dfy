/** The block window of the log backfill and its checkpoint. */
module LogScan {
  import opened Wrappers
  import opened Orders

  datatype SwapLog = SwapLog(executionId: ExecutionId, txHash: Hash, blockNumber: nat, amountOut: nat)

  datatype ScanConfig = ScanConfig(reorgBuffer: nat, maxRange: nat)

  /** What a node shows at one moment: its head, and the SwapExecuted logs of each block. */
  datatype View = View(head: nat, logsOf: nat -> seq<SwapLog>)

  function Max(a: int, b: int): int { if a > b then a else b }

  function Min(a: int, b: int): int { if a < b then a else b }

  function From(cfg: ScanConfig, checkpoint: Option<nat>, head: nat): nat {
    match checkpoint
    case Some(c) => Max(0, c - cfg.reorgBuffer)
    case None => Max(0, head - cfg.maxRange)
  }

  function To(cfg: ScanConfig, checkpoint: Option<nat>, head: nat): nat {
    Min(head, From(cfg, checkpoint, head) + cfg.maxRange)
  }

  /** The checkpoint never moves backwards. */
  function SetCheckpoint(checkpoint: Option<nat>, block: nat): Option<nat> {
    if checkpoint.Some? && checkpoint.value >= block then checkpoint else Some(block)
  }

  /** The checkpoint after a successful pass; a head below the window is nothing to scan. */
  function AfterPass(cfg: ScanConfig, checkpoint: Option<nat>, head: nat): Option<nat> {
    if To(cfg, checkpoint, head) < From(cfg, checkpoint, head) then checkpoint
    else SetCheckpoint(checkpoint, To(cfg, checkpoint, head))
  }

  // ---- any sequence of passes ------------------------------------------------

  /** A pass that fails, wherever it fails, leaves the checkpoint alone. */
  datatype Pass = Pass(view: View, succeeds: bool)

  /** The checkpoint that pass number `n` finds. */
  function CheckpointAt(cfg: ScanConfig, passes: seq<Pass>, n: nat): Option<nat>
    requires n <= |passes|
  {
    if n == 0 then None
    else if passes[n - 1].succeeds then AfterPass(cfg, CheckpointAt(cfg, passes, n - 1), passes[n - 1].view.head)
    else CheckpointAt(cfg, passes, n - 1)
  }

  predicate Scans(cfg: ScanConfig, passes: seq<Pass>, i: nat, b: nat)
    requires i < |passes|
  {
    var c, head := CheckpointAt(cfg, passes, i), passes[i].view.head;
    passes[i].succeeds && From(cfg, c, head) <= b <= To(cfg, c, head)
  }

  /** Blocks more than the buffer below an observed head show the same logs ever after. */
  ghost predicate BoundedReorgs(cfg: ScanConfig, passes: seq<Pass>) {
    forall i, j, b: nat :: 0 <= i < j < |passes| && b + cfg.reorgBuffer < passes[i].view.head ==>
      passes[j].view.logsOf(b) == passes[i].view.logsOf(b)
  }

  /** Pass `i` handed over the logs of `b`, and every later view agrees that these were the final ones. */
  ghost predicate HandsOverFinal(cfg: ScanConfig, passes: seq<Pass>, n: nat, i: nat, b: nat)
    requires i < n <= |passes|
  {
    && Scans(cfg, passes, i, b)
    && b + cfg.reorgBuffer < passes[i].view.head
    && forall j :: i <= j < |passes| ==> passes[j].view.logsOf(b) == passes[i].view.logsOf(b)
  }

  ghost predicate Covered(cfg: ScanConfig, passes: seq<Pass>, n: nat, b: nat)
    requires n <= |passes|
  {
    exists i: nat :: i < n && HandsOverFinal(cfg, passes, n, i, b)
  }

  /** `f` is the first pass that succeeds. */
  predicate FirstSuccess(passes: seq<Pass>, f: nat) {
    f < |passes| && passes[f].succeeds && forall i :: 0 <= i < f ==> !passes[i].succeeds
  }

  lemma {:induction false} NoCheckpointBefore(cfg: ScanConfig, passes: seq<Pass>, f: nat, n: nat)
    requires FirstSuccess(passes, f) && n <= f
    ensures CheckpointAt(cfg, passes, n) == None
  {
    if n > 0 { NoCheckpointBefore(cfg, passes, f, n - 1); }
  }

  lemma {:induction false} CheckpointNeverDecreases(cfg: ScanConfig, passes: seq<Pass>, m: nat, n: nat)
    requires m <= n <= |passes| && CheckpointAt(cfg, passes, m).Some?
    ensures CheckpointAt(cfg, passes, n).Some?
    ensures CheckpointAt(cfg, passes, m).value <= CheckpointAt(cfg, passes, n).value
    decreases n
  {
    if m < n { CheckpointNeverDecreases(cfg, passes, m, n - 1); }
  }

  /** The checkpoint after the first successful pass is the head it saw. */
  lemma FirstCheckpoint(cfg: ScanConfig, passes: seq<Pass>, f: nat)
    requires FirstSuccess(passes, f)
    ensures CheckpointAt(cfg, passes, f) == None
    ensures CheckpointAt(cfg, passes, f + 1) == Some(passes[f].view.head)
  {
    NoCheckpointBefore(cfg, passes, f, f);
  }

  /** The first successful pass scans exactly the blocks from maxRange below its head, or from block 0, to its head. */
  lemma FirstPassScansExactly(cfg: ScanConfig, passes: seq<Pass>, f: nat, b: nat)
    requires FirstSuccess(passes, f)
    ensures var head := passes[f].view.head; Scans(cfg, passes, f, b) <==> head <= b + cfg.maxRange && b <= head
  {
    FirstCheckpoint(cfg, passes, f);
  }

  /**
   Every later one starts the reorg buffer below the checkpoint, or at block 0, and ends
   at the head or a whole range on. What it leaves as the checkpoint is the last block
   it scanned, unless the checkpoint was past that already.
   */
  lemma LaterPassScansExactly(cfg: ScanConfig, passes: seq<Pass>, f: nat, i: nat)
    requires FirstSuccess(passes, f) && f < i < |passes| && passes[i].succeeds
    ensures CheckpointAt(cfg, passes, i).Some? && CheckpointAt(cfg, passes, i + 1).Some?
    ensures var c, next := CheckpointAt(cfg, passes, i).value, CheckpointAt(cfg, passes, i + 1).value;
      && (forall b: nat :: Scans(cfg, passes, i, b) <==>
            && c <= b + cfg.reorgBuffer && b <= passes[i].view.head
            && (b + cfg.reorgBuffer <= c + cfg.maxRange || b <= cfg.maxRange))
      && (forall b: nat :: Scans(cfg, passes, i, b) ==> b <= next)
      && c <= next && (c == next || Scans(cfg, passes, i, next))
  {
    FirstCheckpoint(cfg, passes, f);
    CheckpointNeverDecreases(cfg, passes, f + 1, i);
  }

  lemma ScannedIsFinal(cfg: ScanConfig, passes: seq<Pass>, n: nat, i: nat, b: nat)
    requires BoundedReorgs(cfg, passes) && i < n <= |passes|
    requires Scans(cfg, passes, i, b) && b + cfg.reorgBuffer < passes[i].view.head
    ensures Covered(cfg, passes, n, b)
  {
    assert HandsOverFinal(cfg, passes, n, i, b);
  }

  lemma MoreCovered(cfg: ScanConfig, passes: seq<Pass>, n: nat, b: nat)
    requires n < |passes| && Covered(cfg, passes, n, b)
    ensures Covered(cfg, passes, n + 1, b)
  {
    var i: nat :| i < n && HandsOverFinal(cfg, passes, n, i, b);
    assert HandsOverFinal(cfg, passes, n + 1, i, b);
  }

  /**
   Log scanning has no gaps: after any sequence of passes, failed ones and lagging
   heads included, every block from the start of the first successful pass up to,
   not including, the start of the next pass was scanned by a pass that saw its
   final logs.
   */
  lemma {:induction false} ScanIsComplete(cfg: ScanConfig, passes: seq<Pass>, f: nat, n: nat, b: nat)
    requires BoundedReorgs(cfg, passes) && FirstSuccess(passes, f) && f < n <= |passes|
    requires From(cfg, None, passes[f].view.head) <= b
    requires CheckpointAt(cfg, passes, n).Some? && b + cfg.reorgBuffer < CheckpointAt(cfg, passes, n).value
    ensures Covered(cfg, passes, n, b)
    decreases n
  {
    FirstCheckpoint(cfg, passes, f);
    if n == f + 1 {
      ScannedIsFinal(cfg, passes, n, f, b);
    } else {
      CheckpointNeverDecreases(cfg, passes, f + 1, n - 1);
      var c := CheckpointAt(cfg, passes, n - 1).value;
      if b + cfg.reorgBuffer < c {
        ScanIsComplete(cfg, passes, f, n - 1, b);
        MoreCovered(cfg, passes, n - 1, b);
      } else {
        ScannedIsFinal(cfg, passes, n, n - 1, b);
      }
    }
  }

  /** With a range that exceeds the buffer, no pass after the first successful one looks below its start. */
  lemma NothingBelowFirst(cfg: ScanConfig, passes: seq<Pass>, f: nat, i: nat, b: nat)
    requires cfg.reorgBuffer <= cfg.maxRange && FirstSuccess(passes, f) && i < |passes| && Scans(cfg, passes, i, b)
    ensures From(cfg, None, passes[f].view.head) <= b
  {
    FirstCheckpoint(cfg, passes, f);
    if i > f {
      CheckpointNeverDecreases(cfg, passes, f + 1, i);
    }
  }

  /**
   Counting from the first pass that was tried instead is not the same: if it
   failed, the next one starts from the head of its own moment. Every block from
   the first start tried up to the next pass's start is covered exactly when the
   first successful pass started no later, or nothing lies in between.
   */
  lemma FirstAttemptCoveredExactly(cfg: ScanConfig, passes: seq<Pass>, f: nat)
    requires cfg.reorgBuffer <= cfg.maxRange && BoundedReorgs(cfg, passes) && FirstSuccess(passes, f)
    ensures var n := |passes|; var start := From(cfg, None, passes[0].view.head);
      && CheckpointAt(cfg, passes, n).Some?
      && var next := CheckpointAt(cfg, passes, n).value - cfg.reorgBuffer;
         (forall b: nat :: start <= b < next ==> Covered(cfg, passes, n, b))
         <==> From(cfg, None, passes[f].view.head) <= start || next <= start
  {
    var n, start := |passes|, From(cfg, None, passes[0].view.head);
    FirstCheckpoint(cfg, passes, f);
    CheckpointNeverDecreases(cfg, passes, f + 1, n);
    if From(cfg, None, passes[f].view.head) <= start {
      forall b: nat | start <= b && b + cfg.reorgBuffer < CheckpointAt(cfg, passes, n).value
        ensures Covered(cfg, passes, n, b)
      {
        ScanIsComplete(cfg, passes, f, n, b);
      }
    } else if start + cfg.reorgBuffer < CheckpointAt(cfg, passes, n).value {
      if Covered(cfg, passes, n, start) {
        var i: nat :| i < n && HandsOverFinal(cfg, passes, n, i, start);
        NothingBelowFirst(cfg, passes, f, i, start);
        assert false;
      }
    }
  }

  function NoLogs(b: nat): seq<SwapLog> { [] }

  /** A failed first pass at head 0, and the first success once the head is past the range. */
  function LateStart(cfg: ScanConfig): seq<Pass> {
    [Pass(View(0, NoLogs), false), Pass(View(cfg.maxRange + 1, NoLogs), true)]
  }

  /**
   And that can fail: block 0, where the first pass tried began, is below the next
   start and was never scanned.
   */
  lemma FirstAttemptCanMiss(cfg: ScanConfig)
    requires cfg.reorgBuffer <= cfg.maxRange
    ensures var passes := LateStart(cfg);
      && BoundedReorgs(cfg, passes) && FirstSuccess(passes, 1)
      && From(cfg, None, passes[0].view.head) == 0 < From(cfg, CheckpointAt(cfg, passes, 2), passes[1].view.head)
      && !Covered(cfg, passes, 2, 0)
  {
    var passes := LateStart(cfg);
    FirstCheckpoint(cfg, passes, 1);
    forall i: nat | i < 2 ensures !HandsOverFinal(cfg, passes, 2, i, 0) {
      assert !Scans(cfg, passes, i, 0);
    }
  }

  // ---- progress --------------------------------------------------------------

  /** A successful pass below the head advances the checkpoint exactly when the range exceeds what is re-scanned. */
  lemma AdvancesExactly(cfg: ScanConfig, c: nat, head: nat)
    requires c < head
    ensures var after := AfterPass(cfg, Some(c), head);
      && after.Some? && after.value >= c
      && (after.value > c <==> cfg.maxRange > Min(c, cfg.reorgBuffer))
      && (cfg.maxRange > cfg.reorgBuffer ==> after.value - c >= Min(head - c, cfg.maxRange - cfg.reorgBuffer))
      && after.value <= head
  {
  }

  /** The checkpoint after `n` successful passes at one head. */
  function Passes(cfg: ScanConfig, c: nat, head: nat, n: nat): Option<nat> {
    if n == 0 then Some(c)
    else match Passes(cfg, c, head, n - 1)
      case Some(d) => AfterPass(cfg, Some(d), head)
      case None => None
  }

  /** An explicit bound: a backlog of k times (range - buffer) blocks is cleared by k passes. */
  lemma {:induction false} BacklogClears(cfg: ScanConfig, c: nat, head: nat, n: nat)
    requires c <= head && cfg.maxRange > cfg.reorgBuffer
    ensures Passes(cfg, c, head, n).Some?
    ensures Min(head, c + n * (cfg.maxRange - cfg.reorgBuffer)) <= Passes(cfg, c, head, n).value <= head
    ensures n * (cfg.maxRange - cfg.reorgBuffer) >= head - c ==> Passes(cfg, c, head, n) == Some(head)
  {
    var gain := cfg.maxRange - cfg.reorgBuffer;
    if n > 0 {
      BacklogClears(cfg, c, head, n - 1);
      assert n * gain == (n - 1) * gain + gain;
      var d := Passes(cfg, c, head, n - 1).value;
      if d < head { AdvancesExactly(cfg, d, head); }
    }
  }

  /** Past the buffer, a range that does not exceed the buffer never advances again, whatever the head. */
  lemma {:induction false} StuckForever(cfg: ScanConfig, c: nat, head: nat, n: nat)
    requires cfg.maxRange <= cfg.reorgBuffer <= c
    ensures Passes(cfg, c, head, n) == Some(c)
  {
    if n > 0 { StuckForever(cfg, c, head, n - 1); }
  }
}
