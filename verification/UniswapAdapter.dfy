/** The quote, the slippage floor and the deadline, from the adapter to the vault. */
module UniswapAdapter {
  import opened Wrappers
  import V = Vault
  import VaultTheorems
  import Protocol

  datatype DexQuote = DexQuote(tokenIn: V.Token, tokenOut: V.Token, amountIn: nat, amountOut: nat, poolFee: nat,
                               quotedAt: int)

  datatype DexError = NoLiquidity | QuoteStale(ageMs: int)

  const BPS: nat := 10000
  const MAX_QUOTE_AGE_MS: nat := 30000

  /** The range that the environment schema accepts. */
  type SlippageBps = b: nat | 1 <= b <= 5000 witness 100

  datatype ChainConfig = ChainConfig(slippageBps: SlippageBps, deadlineWindowSec: nat)

  // ---- the best tier -----------------------------------------------------------

  /** The answers of the fee tiers that can be used; a dead tier answers None. */
  function Usable(tiers: seq<Option<DexQuote>>): seq<DexQuote> {
    if |tiers| == 0 then []
    else (if tiers[0].Some? && tiers[0].value.amountOut > 0 then [tiers[0].value] else []) + Usable(tiers[1..])
  }

  function Reduce(best: DexQuote, qs: seq<DexQuote>): DexQuote
    decreases |qs|
  {
    if |qs| == 0 then best else Reduce(if qs[0].amountOut > best.amountOut then qs[0] else best, qs[1..])
  }

  function GetQuote(tiers: seq<Option<DexQuote>>): Result<DexQuote, DexError> {
    var usable := Usable(tiers);
    if |usable| == 0 then Failure(NoLiquidity) else Success(Reduce(usable[0], usable[1..]))
  }

  /** A tier answered with a positive amount. */
  predicate Answered(tiers: seq<Option<DexQuote>>, j: int) {
    0 <= j < |tiers| && tiers[j].Some? && tiers[j].value.amountOut > 0
  }

  /** `q` is at least every tier, and beats every tier before `i`. */
  ghost predicate BestUpTo(tiers: seq<Option<DexQuote>>, q: DexQuote, i: int) {
    && (forall j :: Answered(tiers, j) ==> tiers[j].value.amountOut <= q.amountOut)
    && (forall j :: j < i && Answered(tiers, j) ==> tiers[j].value.amountOut < q.amountOut)
  }

  lemma Shift(tiers: seq<Option<DexQuote>>, q: DexQuote, i: int)
    requires |tiers| > 0 && BestUpTo(tiers[1..], q, i)
    requires Answered(tiers, 0) ==> tiers[0].value.amountOut <= q.amountOut
    requires Answered(tiers, 0) && i >= 0 ==> tiers[0].value.amountOut < q.amountOut
    ensures BestUpTo(tiers, q, i + 1)
  {
    forall j | Answered(tiers, j)
      ensures tiers[j].value.amountOut <= q.amountOut
      ensures j < i + 1 ==> tiers[j].value.amountOut < q.amountOut
    {
      assert j == 0 || Answered(tiers[1..], j - 1);
    }
  }

  /** The fold ends at the tier `i` that first reaches the maximum, or, with i == -1, stays where it started. */
  lemma {:induction false} FoldFindsBest(best: DexQuote, tiers: seq<Option<DexQuote>>) returns (i: int)
    ensures var q := Reduce(best, Usable(tiers));
      && BestUpTo(tiers, q, i) && q.amountOut >= best.amountOut
      && (if i == -1 then q == best else Answered(tiers, i) && tiers[i].value == q && q.amountOut > best.amountOut)
    decreases |tiers|
  {
    if |tiers| == 0 { return -1; }
    if !Answered(tiers, 0) {
      assert Usable(tiers) == Usable(tiers[1..]);
      i := FoldFindsBest(best, tiers[1..]);
      Shift(tiers, Reduce(best, Usable(tiers)), i);
      i := if i == -1 then -1 else i + 1;
    } else {
      var first := tiers[0].value;
      assert Usable(tiers)[1..] == Usable(tiers[1..]);
      var better := if first.amountOut > best.amountOut then first else best;
      i := FoldFindsBest(better, tiers[1..]);
      Shift(tiers, Reduce(best, Usable(tiers)), i);
      i := if i == -1 && better == best then -1 else i + 1;
    }
  }

  lemma {:induction false} FirstUsable(tiers: seq<Option<DexQuote>>) returns (f: nat)
    requires |Usable(tiers)| > 0
    ensures Answered(tiers, f) && (forall j :: j < f ==> !Answered(tiers, j))
    ensures Usable(tiers) == [tiers[f].value] + Usable(tiers[f + 1..])
  {
    if Answered(tiers, 0) { return 0; }
    f := FirstUsable(tiers[1..]);
    assert tiers[1..][f + 1..] == tiers[f + 2..];
    forall j | 0 < j < |tiers| ensures Answered(tiers, j) == Answered(tiers[1..], j - 1) {
    }
    f := f + 1;
  }

  lemma {:induction false} NoneUsable(tiers: seq<Option<DexQuote>>, j: int)
    requires |Usable(tiers)| == 0
    ensures !Answered(tiers, j)
  {
    if |tiers| > 0 && j > 0 {
      NoneUsable(tiers[1..], j - 1);
      assert Answered(tiers, j) == Answered(tiers[1..], j - 1);
    }
  }

  /**
   The quote is the best one over all tiers that answered, the earliest of equals,
   and there is none exactly if no tier answered with a positive amount.
   */
  lemma QuoteIsTheBest(tiers: seq<Option<DexQuote>>)
    ensures GetQuote(tiers).Failure? <==> forall j :: !Answered(tiers, j)
    ensures GetQuote(tiers).Success? ==> exists i ::
              Answered(tiers, i) && tiers[i].value == GetQuote(tiers).value && BestUpTo(tiers, GetQuote(tiers).value, i)
  {
    if |Usable(tiers)| == 0 {
      forall j ensures !Answered(tiers, j) { NoneUsable(tiers, j); }
    } else {
      var f := FirstUsable(tiers);
      var i := FoldFindsBest(tiers[f].value, tiers[f + 1..]);
      var q := GetQuote(tiers).value;
      var at := f + 1 + i;
      forall j | Answered(tiers, j)
        ensures tiers[j].value.amountOut <= q.amountOut
        ensures j < at ==> tiers[j].value.amountOut < q.amountOut
      {
        assert j > f ==> Answered(tiers[f + 1..], j - f - 1);
      }
      assert Answered(tiers, at) && tiers[at].value == q && BestUpTo(tiers, q, at);
    }
  }

  // ---- the floor ------------------------------------------------------------------

  function MinAmountOut(amountOut: nat, slippageBps: SlippageBps): nat { amountOut * (BPS - slippageBps) / BPS }

  /** The floor is never above the quote, grows with it, and misses the exact ratio by less than one unit. */
  lemma FloorIsTight(best: nat, more: nat, bps: SlippageBps)
    requires best <= more
    ensures MinAmountOut(best, bps) <= best
    ensures MinAmountOut(best, bps) <= MinAmountOut(more, bps)
    ensures MinAmountOut(best, bps) * BPS <= best * (BPS - bps) < (MinAmountOut(best, bps) + 1) * BPS
    ensures MinAmountOut(best, bps) == best <==> best == 0
  {
    var keep := BPS - bps;
    assert best * keep <= more * keep;
    assert best * keep + best * bps == best * BPS;
  }

  function BuildExecutionParams(cfg: ChainConfig, now: nat, executionId: V.ExecutionId, owner: V.Address,
                                quote: DexQuote)
    : Result<V.SwapArgs, DexError>
  {
    var ageMs := now - quote.quotedAt;
    if ageMs > MAX_QUOTE_AGE_MS then Failure(QuoteStale(ageMs))
    else Success(V.SwapArgs(executionId, owner, quote.tokenIn, quote.tokenOut, quote.poolFee, quote.amountIn,
                            MinAmountOut(quote.amountOut, cfg.slippageBps), now / 1000 + cfg.deadlineWindowSec))
  }

  /**
   A quote is accepted exactly if it is at most 30 s old. The parameters go through its
   own pool for its own amounts, their floor is the quoted amount less the slippage,
   rounded down, and they expire the window after the present second.
   */
  lemma BuildExactly(cfg: ChainConfig, now: nat, executionId: V.ExecutionId, owner: V.Address, q: DexQuote)
    ensures var r := BuildExecutionParams(cfg, now, executionId, owner, q);
      && (r.Success? <==> now - q.quotedAt <= 30000)
      && (r.Failure? ==> r.error == QuoteStale(now - q.quotedAt))
      && (r.Success? ==>
            var a := r.value;
            && a.executionId == executionId && a.owner == owner && a.poolFee == q.poolFee
            && a.tokenIn == q.tokenIn && a.tokenOut == q.tokenOut && a.amountIn == q.amountIn
            && a.minAmountOut * 10000 <= q.amountOut * (10000 - cfg.slippageBps) < (a.minAmountOut + 1) * 10000
            && 1000 * (a.deadline - cfg.deadlineWindowSec) <= now < 1000 * (a.deadline - cfg.deadlineWindowSec + 1))
  {
    FloorIsTight(q.amountOut, q.amountOut, cfg.slippageBps);
  }

  // ---- to the vault -----------------------------------------------------------------

  /** What the transaction with the built parameters leaves behind, whatever happens inside the router call. */
  function Executed(v: V.State, sender: V.Address, a: V.SwapArgs, timestamp: nat, inner: seq<V.Action>,
                    amountOut: nat): V.State {
    if V.EnterSwap(v, sender, a, timestamp).Failure? then v
    else VaultTheorems.WholeSwap(v, sender, a, timestamp, inner, amountOut)
  }

  /**
   The slippage floor holds from the quote to the vault: if the built parameters
   execute, the owner paid the quoted amountIn and was credited at least the floor
   of the best quote over all tiers, and the quote was no older than its own limit
   plus the deadline window.
   */
  lemma SlippageFloorReachesTheOwner(tiers: seq<Option<DexQuote>>, cfg: ChainConfig, now: nat,
                                     executionId: V.ExecutionId, owner: V.Address, v: V.State, sender: V.Address,
                                     timestamp: nat, inner: seq<V.Action>, amountOut: nat, j: int)
    requires GetQuote(tiers).Success? && Answered(tiers, j)
    requires BuildExecutionParams(cfg, now, executionId, owner, GetQuote(tiers).value).Success?
    requires v.call == V.Idle
    requires forall i :: 0 <= i < |inner| ==> !inner[i].SwapReturns? && !inner[i].CallReverts?
    ensures var q := GetQuote(tiers).value;
            var a := BuildExecutionParams(cfg, now, executionId, owner, q).value;
            var w := Executed(v, sender, a, timestamp, inner, amountOut);
      w.call == V.Idle && w != v ==>
        && V.BalanceOf(w, owner, q.tokenIn) == V.BalanceOf(v, owner, q.tokenIn) - q.amountIn
        && V.BalanceOf(w, owner, q.tokenOut)
           >= V.BalanceOf(v, owner, q.tokenOut) + MinAmountOut(q.amountOut, cfg.slippageBps)
        && MinAmountOut(q.amountOut, cfg.slippageBps) >= MinAmountOut(tiers[j].value.amountOut, cfg.slippageBps)
        && 1000 * timestamp - q.quotedAt <= MAX_QUOTE_AGE_MS + 1000 * cfg.deadlineWindowSec
  {
    var q := GetQuote(tiers).value;
    QuoteIsTheBest(tiers);
    FloorIsTight(tiers[j].value.amountOut, q.amountOut, cfg.slippageBps);
    var a := BuildExecutionParams(cfg, now, executionId, owner, q).value;
    if V.EnterSwap(v, sender, a, timestamp).Success? {
      VaultTheorems.SwapSettlesOrVanishes(v, sender, a, timestamp, inner, amountOut);
    }
  }

  /**
   The protocol's picture of mining is the vault's: a transaction consumes its id
   exactly if it leaves a trace, and then the id was unused and the block on time.
   */
  lemma MiningIsTheVaults(v: V.State, sender: V.Address, a: V.SwapArgs, timestamp: nat, inner: seq<V.Action>,
                          amountOut: nat)
    requires v.call == V.Idle
    requires forall i :: 0 <= i < |inner| ==> !inner[i].SwapReturns? && !inner[i].CallReverts?
    ensures var w := Executed(v, sender, a, timestamp, inner, amountOut);
            var consumed := a.executionId in v.books.executedIds;
      w.call == V.Idle ==>
        && (w != v ==> Protocol.Lands(consumed, a.deadline, timestamp, true))
        && (a.executionId in w.books.executedIds <==> consumed || w != v)
        && (forall id :: id != a.executionId ==> (id in w.books.executedIds <==> id in v.books.executedIds))
  {
    if V.EnterSwap(v, sender, a, timestamp).Success? {
      VaultTheorems.SwapSettlesOrVanishes(v, sender, a, timestamp, inner, amountOut);
    }
  }
}
