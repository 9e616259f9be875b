/**
 The order protocol, the quotes and the vault as one system: the chain that the
 protocol talks about is the vault contract, an execution is built from a quote, and a
 transaction of the order is mined by running it.
 */
module EndToEnd {
  import opened Wrappers
  import opened OrderStatus
  import opened Orders
  import opened Protocol
  import opened ProtocolTruth
  import opened UniswapAdapter
  import ProtocolAttempt
  import V = Vault
  import VaultInvariants
  import VaultTheorems

  /** What the order asks for. */
  datatype Deal = Deal(owner: V.Address, tokenIn: V.Token, tokenOut: V.Token, amountIn: nat,
                       slippageBps: SlippageBps)

  /** The answers of the fee tiers that an execution was built from, and when. */
  datatype Built = Built(tiers: seq<Option<DexQuote>>, at: nat)

  /** `built` is what each execution in flight has built, `calls` what each signed transaction calls the vault with. */
  datatype System = System(world: World, vault: V.State, built: map<nat, Built>, calls: map<Hash, Built>)

  function Launch(terms: Terms, now: int, vault: V.State): System { System(Start(terms, now), vault, map[], map[]) }

  datatype Happening =
    // any step of the protocol, except building an execution and mining a transaction of the order
    | Happens(a: Action)
    // execution `k` gets its quotes and builds its parameters
    | Quoted(k: nat, tiers: seq<Option<DexQuote>>)
    // a transaction of the order is mined; `inner` happens while the router is in control
    | SwapMined(hash: Hash, timestamp: nat, sender: V.Address, inner: seq<V.Action>, amountOut: nat, reverts: bool)
    // any other transactions of the vault
    | VaultUsed(actions: seq<V.Action>)

  /** What the adapter makes of the quotes. */
  function Params(cfg: Config, d: Deal, b: Built): Result<V.SwapArgs, DexError> {
    match GetQuote(b.tiers)
    case Failure(e) => Failure(e)
    case Success(q) =>
      BuildExecutionParams(ChainConfig(d.slippageBps, cfg.windowSec), b.at, cfg.executionId, d.owner, q)
  }

  /** The tiers were asked about this deal, and the parameters could be built. */
  ghost predicate Buildable(cfg: Config, d: Deal, b: Built) {
    && Params(cfg, d, b).Success?
    && forall j :: Answered(b.tiers, j) ==>
         var q := b.tiers[j].value; q.tokenIn == d.tokenIn && q.tokenOut == d.tokenOut && q.amountIn == d.amountIn
  }

  /** The vault after the transaction; the token or the router may make it revert. */
  function VaultAfter(v: V.State, a: V.SwapArgs, e: Happening): V.State
    requires e.SwapMined?
  {
    if e.reverts then v else Executed(v, e.sender, a, e.timestamp, e.inner, e.amountOut)
  }

  /** The network has the transaction, no block has it yet, and it runs from its entry to its end. */
  ghost predicate CanBeMined(cfg: Config, d: Deal, s: System, e: Happening)
    requires e.SwapMined?
  {
    var w := s.world;
    && e.hash in w.chain.network && e.hash !in w.chain.receipts && 1000 * e.timestamp > w.now - cfg.skewMs
    && Ours(cfg, w.chain, e.hash) && e.hash in s.calls && Buildable(cfg, d, s.calls[e.hash])
    && (forall i :: 0 <= i < |e.inner| ==> !e.inner[i].SwapReturns? && !e.inner[i].CallReverts?)
    && VaultAfter(s.vault, Params(cfg, d, s.calls[e.hash]).value, e).call == V.Idle
  }

  /** Whole transactions of others. The order's id is known to the executor only. */
  predicate CanBeUsed(cfg: Config, s: System, actions: seq<V.Action>) {
    && (forall i :: 0 <= i < |actions| && actions[i].ExecuteSwap? ==> actions[i].args.executionId != cfg.executionId)
    && V.Run(s.vault, actions).call == V.Idle
  }

  /** A signature fixes the parameters that were built. */
  function CallsAfter(s: System, a: Action): map<Hash, Built> {
    if Signs(s.world, a) && a.k in s.built then s.calls[a.hash := s.built[a.k]] else s.calls
  }

  ghost function Advance(cfg: Config, d: Deal, s: System, e: Happening): System {
    var w := s.world;
    match e
    case Happens(a) =>
      if a.ExecBuilds? || (a.Mine? && Ours(cfg, w.chain, a.hash)) then s
      else s.(world := Step(cfg, w, a), calls := CallsAfter(s, a))
    case Quoted(k, tiers) =>
      if k in w.ops && w.ops[k].ExecFresh? && w.now >= 0 && Buildable(cfg, d, Built(tiers, w.now))
      then s.(world := Step(cfg, w, ExecBuilds(k)), built := s.built[k := Built(tiers, w.now)]) else s
    case SwapMined(hash, timestamp, _, _, _, _) =>
      if !CanBeMined(cfg, d, s, e) then s
      else
        var vault := VaultAfter(s.vault, Params(cfg, d, s.calls[hash]).value, e);
        s.(world := Step(cfg, w, Mine(hash, timestamp, vault != s.vault)), vault := vault)
    case VaultUsed(actions) => if CanBeUsed(cfg, s, actions) then s.(vault := V.Run(s.vault, actions)) else s
  }

  ghost function AdvanceAll(cfg: Config, d: Deal, s: System, es: seq<Happening>): System
    decreases |es|
  {
    if |es| == 0 then s else AdvanceAll(cfg, d, Advance(cfg, d, s, es[0]), es[1..])
  }

  // ---- the two chains are one --------------------------------------------------

  ghost predicate Joined(cfg: Config, s: System) {
    && Truth(cfg, s.world) && VaultInvariants.Invariant(s.vault) && s.vault.call == V.Idle
    && (s.world.chain.consumed <==> cfg.executionId in s.vault.books.executedIds)
  }

  lemma HappensJoined(cfg: Config, s: System, a: Action)
    requires Joined(cfg, s) && !(a.Mine? && Ours(cfg, s.world.chain, a.hash))
    ensures Joined(cfg, s.(world := Step(cfg, s.world, a)))
  {
    StepKeepsTruth(cfg, s.world, a);
    ChainGrows(cfg, s.world, a);
    if ChainAfter(cfg, s.world, a).consumed && !s.world.chain.consumed {
      ProtocolAttempt.ConsumedByMining(cfg, s.world, a);
    }
  }

  lemma ExecutedKeeps(v: V.State, a: V.SwapArgs, e: Happening)
    requires e.SwapMined? && VaultInvariants.Invariant(v)
    ensures VaultInvariants.Invariant(VaultAfter(v, a, e))
  {
    var entered := V.Step(v, V.ExecuteSwap(e.sender, a, e.timestamp));
    VaultInvariants.StepKeeps(v, V.ExecuteSwap(e.sender, a, e.timestamp));
    VaultInvariants.RunKeeps(entered, e.inner);
    VaultInvariants.StepKeeps(V.Run(entered, e.inner), V.SwapReturns(e.amountOut));
  }

  /** What the adapter builds carries the order's id and the deadline of that moment. */
  lemma ParamsCarry(cfg: Config, d: Deal, b: Built)
    requires Buildable(cfg, d, b)
    ensures var a := Params(cfg, d, b).value;
      && a.executionId == cfg.executionId && a.owner == d.owner && a.deadline == b.at / 1000 + cfg.windowSec
      && a.tokenIn == d.tokenIn && a.tokenOut == d.tokenOut && a.amountIn == d.amountIn
      && GetQuote(b.tiers).Success? && a.poolFee == GetQuote(b.tiers).value.poolFee
  {
    QuoteIsTheBest(b.tiers);
  }

  /** On the vault: the invariant stays, and the id is consumed exactly if it was, or the transaction left a trace. */
  lemma SwapMinedOnVault(cfg: Config, d: Deal, s: System, e: Happening)
    requires VaultInvariants.Invariant(s.vault) && s.vault.call == V.Idle
    requires e.SwapMined? && CanBeMined(cfg, d, s, e)
    ensures var args := Params(cfg, d, s.calls[e.hash]).value; var vault := VaultAfter(s.vault, args, e);
      && VaultInvariants.Invariant(vault)
      && (cfg.executionId in vault.books.executedIds
          <==> cfg.executionId in s.vault.books.executedIds || vault != s.vault)
      && (vault != s.vault ==>
            Lands(cfg.executionId in s.vault.books.executedIds, args.deadline, e.timestamp, true))
  {
    var args := Params(cfg, d, s.calls[e.hash]).value;
    ParamsCarry(cfg, d, s.calls[e.hash]);
    ExecutedKeeps(s.vault, args, e);
    MiningIsTheVaults(s.vault, e.sender, args, e.timestamp, e.inner, e.amountOut);
  }

  /** On the protocol's chain: a transaction that lands consumes the id. */
  lemma MinedOnChain(cfg: Config, w: World, h: Hash, timestamp: int, landed: bool)
    requires h in w.chain.network && h !in w.chain.receipts && Ours(cfg, w.chain, h)
    requires 1000 * timestamp > w.now - cfg.skewMs
    requires landed ==> Lands(w.chain.consumed, w.chain.signed[h].deadline, timestamp, true)
    ensures ChainAfter(cfg, w, Mine(h, timestamp, landed)).consumed <==> w.chain.consumed || landed
  {
  }

  lemma SwapMinedJoined(cfg: Config, d: Deal, s: System, e: Happening)
    requires Joined(cfg, s) && Called(cfg, d, s) && e.SwapMined? && CanBeMined(cfg, d, s, e)
    ensures Joined(cfg, Advance(cfg, d, s, e))
  {
    assert OnRecord(cfg, d, s.calls, s.world.chain, e.hash);
    var vault := VaultAfter(s.vault, Params(cfg, d, s.calls[e.hash]).value, e);
    SwapMinedOnVault(cfg, d, s, e);
    ParamsCarry(cfg, d, s.calls[e.hash]);
    MinedOnChain(cfg, s.world, e.hash, e.timestamp, vault != s.vault);
    StepKeepsTruth(cfg, s.world, Mine(e.hash, e.timestamp, vault != s.vault));
  }

  /** A swap on the stack was entered by an executeSwap with its arguments. */
  lemma SwapCallFrom(v: V.State, a: V.Action)
    requires VaultInvariants.SavedFits(v) && V.Step(v, a).call.Swapping?
    ensures var args := V.Step(v, a).call.args;
            (v.call.Swapping? && args == v.call.args) || (a.ExecuteSwap? && args == a.args)
  {
    if VaultInvariants.IsAdmin(a) { VaultInvariants.AdminTouchesNoBalance(v, a); }
  }

  /** Transactions that do not carry an id neither consume it nor log a swap of it. */
  lemma {:induction false} OtherIdsStay(v: V.State, actions: seq<V.Action>, id: V.ExecutionId, swaps: seq<V.Event>)
    requires VaultInvariants.SavedFits(v) && (v.call.Swapping? ==> v.call.args.executionId != id)
    requires forall i :: 0 <= i < |actions| && actions[i].ExecuteSwap? ==> actions[i].args.executionId != id
    requires VaultTheorems.HasSwaps(v, id, swaps)
    ensures id in VaultTheorems.Settled(V.Run(v, actions)) <==> id in VaultTheorems.Settled(v)
    ensures VaultTheorems.HasSwaps(V.Run(v, actions), id, swaps)
    decreases |actions|
  {
    if |actions| != 0 {
      var w := V.Step(v, actions[0]);
      VaultTheorems.SettledOnlyGrows(v, actions[0]);
      VaultTheorems.StepKeepsSwaps(v, actions[0], id, swaps);
      VaultInvariants.StepKeepsSaved(v, actions[0]);
      if w.call.Swapping? { SwapCallFrom(v, actions[0]); }
      OtherIdsStay(w, actions[1..], id, swaps);
    }
  }

  // ---- what was quoted is what is called -----------------------------------------

  /** An execution that has built its parameters, and keeps their deadline until it signs. */
  ghost predicate OpBuilt(cfg: Config, d: Deal, built: map<nat, Built>, k: nat, op: Op) {
    op.ExecBuilt? || op.ExecClaimed? ==>
      k in built && Buildable(cfg, d, built[k]) && op.deadline == built[k].at / 1000 + cfg.windowSec
  }

  /** The parameters of a signed transaction of the order are on record, with its deadline. */
  ghost predicate OnRecord(cfg: Config, d: Deal, calls: map<Hash, Built>, c: Chain, h: Hash) {
    && (h in calls <==> Ours(cfg, c, h))
    && (h in calls ==> Buildable(cfg, d, calls[h]) && c.signed[h].deadline == calls[h].at / 1000 + cfg.windowSec)
  }

  /** Every signed transaction of the order calls the vault with parameters that were built from quotes. */
  ghost predicate Called(cfg: Config, d: Deal, s: System) {
    && (forall k :: k in s.world.ops ==> OpBuilt(cfg, d, s.built, k, s.world.ops[k]))
    && (forall h :: OnRecord(cfg, d, s.calls, s.world.chain, h))
  }

  /** Nothing but a claim keeps the deadline that was built, and nothing but building sets one. */
  predicate KeepsBuilt(op: Op, next: Op) {
    next.ExecBuilt? || next.ExecClaimed? ==>
      next == op || (op.ExecBuilt? && next.ExecClaimed? && next.deadline == op.deadline)
  }

  lemma NextExecOpBuilt(cfg: Config, w: World, a: Action, op: Op)
    requires !a.ExecBuilds? && NextExecOp(cfg, w, op, a).Some?
    ensures KeepsBuilt(op, NextExecOp(cfg, w, op, a).value)
  {
  }

  lemma NextMonitorOpBuilt(cfg: Config, w: World, a: Action, op: Op)
    requires NextMonitorOp(cfg, w, op, a).Some?
    ensures KeepsBuilt(op, NextMonitorOp(cfg, w, op, a).value)
  {
  }

  lemma NextOpBuilt(cfg: Config, w: World, a: Action, op: Op)
    requires !a.ExecBuilds? && NextOp(cfg, w, op, a).Some?
    ensures KeepsBuilt(op, NextOp(cfg, w, op, a).value)
  {
    if IsExec(op) && !a.Crash? { NextExecOpBuilt(cfg, w, a, op); }
    else if IsMonitor(op) && !a.Crash? { NextMonitorOpBuilt(cfg, w, a, op); }
  }

  lemma BegunOpBuilt(cfg: Config, w: World, a: Action)
    requires BegunOp(cfg, w, a).Some?
    ensures !BegunOp(cfg, w, a).value.ExecBuilt? && !BegunOp(cfg, w, a).value.ExecClaimed?
  {
  }

  lemma HappensBuilt(cfg: Config, d: Deal, s: System, a: Action, k: nat)
    requires Called(cfg, d, s) && !a.ExecBuilds? && k in OpsAfter(cfg, s.world, a)
    ensures OpBuilt(cfg, d, s.built, k, OpsAfter(cfg, s.world, a)[k])
  {
    OpsOneByOne(cfg, s.world, a, k);
    if k !in s.world.ops {
      BegunOpBuilt(cfg, s.world, a);
    } else {
      assert OpBuilt(cfg, d, s.built, k, s.world.ops[k]);
      if OpsAfter(cfg, s.world, a)[k] != s.world.ops[k] { NextOpBuilt(cfg, s.world, a, s.world.ops[k]); }
    }
  }

  lemma HappensOnRecord(cfg: Config, d: Deal, s: System, a: Action, h: Hash)
    requires OnRecord(cfg, d, s.calls, s.world.chain, h)
    requires Signs(s.world, a) ==> OpBuilt(cfg, d, s.built, a.k, s.world.ops[a.k])
    ensures OnRecord(cfg, d, CallsAfter(s, a), ChainAfter(cfg, s.world, a), h)
  {
    ChainGrows(cfg, s.world, a);
    if Ours(cfg, ChainAfter(cfg, s.world, a), h) { ProtocolAttempt.OursBySigning(cfg, s.world, a, h); }
  }

  lemma HappensCalled(cfg: Config, d: Deal, s: System, a: Action)
    requires Called(cfg, d, s) && !a.ExecBuilds?
    ensures Called(cfg, d, s.(world := Step(cfg, s.world, a), calls := CallsAfter(s, a)))
  {
    forall k | k in OpsAfter(cfg, s.world, a) ensures OpBuilt(cfg, d, s.built, k, OpsAfter(cfg, s.world, a)[k]) {
      HappensBuilt(cfg, d, s, a, k);
    }
    if Signs(s.world, a) { assert OpBuilt(cfg, d, s.built, a.k, s.world.ops[a.k]); }
    forall h ensures OnRecord(cfg, d, CallsAfter(s, a), ChainAfter(cfg, s.world, a), h) {
      assert OnRecord(cfg, d, s.calls, s.world.chain, h);
      HappensOnRecord(cfg, d, s, a, h);
    }
  }

  lemma QuotedCalled(cfg: Config, d: Deal, s: System, k: nat, tiers: seq<Option<DexQuote>>)
    requires Called(cfg, d, s)
    ensures Called(cfg, d, Advance(cfg, d, s, Quoted(k, tiers)))
  {
    var w, t := s.world, Advance(cfg, d, s, Quoted(k, tiers));
    if t != s {
      var op := ExecBuilt(w.ops[k].version, w.now / 1000 + cfg.windowSec);
      assert t.world.chain == w.chain && t.world.ops == w.ops[k := op];
      forall j | j in t.world.ops ensures OpBuilt(cfg, d, t.built, j, t.world.ops[j]) {
        if j != k { assert OpBuilt(cfg, d, s.built, j, w.ops[j]); }
      }
    }
  }

  // ---- what is called is what is logged ------------------------------------------

  /** The event is that of a swap with these arguments. */
  predicate Logs(e: V.Event, a: V.SwapArgs) {
    && e.SwapExecuted? && e.executionId == a.executionId && e.owner == a.owner && e.tokenIn == a.tokenIn
    && e.tokenOut == a.tokenOut && e.amountIn == a.amountIn && e.minAmountOut == a.minAmountOut
    && e.poolFee == a.poolFee
  }

  /** The event is the swap of one of the signed transactions. */
  ghost predicate Settles(cfg: Config, d: Deal, calls: map<Hash, Built>, e: V.Event) {
    exists h :: h in calls && Buildable(cfg, d, calls[h]) && Logs(e, Params(cfg, d, calls[h]).value)
  }

  ghost predicate Logged(cfg: Config, d: Deal, s: System) {
    forall e :: e in VaultTheorems.SwapsFor(s.vault.books.events, cfg.executionId) ==> Settles(cfg, d, s.calls, e)
  }

  lemma SwapMinedLogged(cfg: Config, d: Deal, s: System, e: Happening)
    requires Joined(cfg, s) && Called(cfg, d, s) && Logged(cfg, d, s) && e.SwapMined? && CanBeMined(cfg, d, s, e)
    ensures Logged(cfg, d, Advance(cfg, d, s, e))
  {
    var args := Params(cfg, d, s.calls[e.hash]).value;
    var vault := VaultAfter(s.vault, args, e);
    if vault != s.vault {
      VaultTheorems.WholeSwapLogs(s.vault, e.sender, args, e.timestamp, e.inner, e.amountOut, cfg.executionId);
      assert Logs(V.SwapEvent(e.sender, args, e.amountOut), args);
      assert Settles(cfg, d, s.calls, V.SwapEvent(e.sender, args, e.amountOut));
    }
  }

  lemma SwapMinedCalled(cfg: Config, d: Deal, s: System, e: Happening)
    requires Called(cfg, d, s) && e.SwapMined? && CanBeMined(cfg, d, s, e)
    ensures Called(cfg, d, Advance(cfg, d, s, e))
  {
    var vault := VaultAfter(s.vault, Params(cfg, d, s.calls[e.hash]).value, e);
    var mine := Mine(e.hash, e.timestamp, vault != s.vault);
    HappensCalled(cfg, d, s, mine);
    assert CallsAfter(s, mine) == s.calls;
  }

  /** Signing adds a call, and changes none that is on record. */
  lemma CallsGrow(cfg: Config, d: Deal, s: System, a: Action)
    requires Called(cfg, d, s) && Logged(cfg, d, s)
    ensures forall e :: e in VaultTheorems.SwapsFor(s.vault.books.events, cfg.executionId) ==>
              Settles(cfg, d, CallsAfter(s, a), e)
  {
    forall e | e in VaultTheorems.SwapsFor(s.vault.books.events, cfg.executionId)
      ensures Settles(cfg, d, CallsAfter(s, a), e)
    {
      var h :| h in s.calls && Buildable(cfg, d, s.calls[h]) && Logs(e, Params(cfg, d, s.calls[h]).value);
      assert OnRecord(cfg, d, s.calls, s.world.chain, h);
      assert CallsAfter(s, a)[h] == s.calls[h];
    }
  }

  // ---- all of it, over whole runs ------------------------------------------------

  ghost predicate Whole(cfg: Config, d: Deal, s: System) { Joined(cfg, s) && Called(cfg, d, s) && Logged(cfg, d, s) }

  lemma VaultUsedWhole(cfg: Config, d: Deal, s: System, actions: seq<V.Action>)
    requires Whole(cfg, d, s)
    ensures Whole(cfg, d, Advance(cfg, d, s, VaultUsed(actions)))
  {
    if CanBeUsed(cfg, s, actions) {
      VaultInvariants.RunKeeps(s.vault, actions);
      OtherIdsStay(s.vault, actions, cfg.executionId,
                   VaultTheorems.SwapsFor(s.vault.books.events, cfg.executionId));
    }
  }

  lemma HappensWhole(cfg: Config, d: Deal, s: System, a: Action)
    requires Whole(cfg, d, s)
    ensures Whole(cfg, d, Advance(cfg, d, s, Happens(a)))
  {
    if !a.ExecBuilds? && !(a.Mine? && Ours(cfg, s.world.chain, a.hash)) {
      HappensJoined(cfg, s, a);
      HappensCalled(cfg, d, s, a);
      CallsGrow(cfg, d, s, a);
    }
  }

  lemma AdvanceWhole(cfg: Config, d: Deal, s: System, e: Happening)
    requires Whole(cfg, d, s)
    ensures Whole(cfg, d, Advance(cfg, d, s, e))
  {
    match e
    case Happens(a) => HappensWhole(cfg, d, s, a);
    case Quoted(k, tiers) =>
      HappensJoined(cfg, s, ExecBuilds(k));
      QuotedCalled(cfg, d, s, k, tiers);
    case SwapMined(_, _, _, _, _, _) =>
      if CanBeMined(cfg, d, s, e) {
        SwapMinedJoined(cfg, d, s, e);
        SwapMinedCalled(cfg, d, s, e);
        SwapMinedLogged(cfg, d, s, e);
      }
    case VaultUsed(actions) => VaultUsedWhole(cfg, d, s, actions);
  }

  lemma {:induction false} AdvanceAllWhole(cfg: Config, d: Deal, s: System, es: seq<Happening>)
    requires Whole(cfg, d, s)
    ensures Whole(cfg, d, AdvanceAll(cfg, d, s, es))
    decreases |es|
  {
    if |es| != 0 {
      AdvanceWhole(cfg, d, s, es[0]);
      AdvanceAllWhole(cfg, d, Advance(cfg, d, s, es[0]), es[1..]);
    }
  }

  lemma LaunchIsWhole(cfg: Config, d: Deal, terms: Terms, now: int, vault: V.State)
    requires VaultInvariants.Invariant(vault) && vault.call == V.Idle && cfg.executionId !in vault.books.executedIds
    ensures Whole(cfg, d, Launch(terms, now, vault))
  {
    VaultTheorems.SwapsForSound(vault.books.events, cfg.executionId);
  }

  // ---- what the database says of the ledger ---------------------------------------

  /** Event number `i` is the one and only swap of the id. */
  predicate OnlySwap(events: seq<V.Event>, i: int, id: V.ExecutionId) {
    && VaultTheorems.SwapAt(events, i, id)
    && forall j :: 0 <= j < |events| && VaultTheorems.SwapAt(events, j, id) ==> j == i
  }

  /** The swap went through the pool of tier number `i`, the first of the best, with its floor. */
  ghost predicate ThroughBest(d: Deal, tiers: seq<Option<DexQuote>>, i: int, e: V.Event)
    requires e.SwapExecuted?
  {
    && Answered(tiers, i) && BestUpTo(tiers, tiers[i].value, i) && e.poolFee == tiers[i].value.poolFee
    && e.minAmountOut == MinAmountOut(tiers[i].value.amountOut, d.slippageBps)
  }

  /**
   The owner got the deal: exactly the asked amount was paid, through the best pool, and
   what was credited is at least the slippage floor of every fee tier that answered.
   */
  ghost predicate Delivered(d: Deal, tiers: seq<Option<DexQuote>>, e: V.Event) {
    && e.SwapExecuted? && e.owner == d.owner && e.tokenIn == d.tokenIn && e.tokenOut == d.tokenOut
    && e.amountIn == d.amountIn && e.amountOut >= e.minAmountOut
    && (exists i :: ThroughBest(d, tiers, i, e))
    && forall j :: Answered(tiers, j) ==> e.amountOut >= MinAmountOut(tiers[j].value.amountOut, d.slippageBps)
  }

  lemma LoggedIsDelivered(cfg: Config, d: Deal, b: Built, e: V.Event)
    requires Buildable(cfg, d, b) && Logs(e, Params(cfg, d, b).value) && e.amountOut >= e.minAmountOut
    ensures Delivered(d, b.tiers, e)
  {
    ParamsCarry(cfg, d, b);
    QuoteIsTheBest(b.tiers);
    var best := GetQuote(b.tiers).value.amountOut;
    var i :| Answered(b.tiers, i) && b.tiers[i].value == GetQuote(b.tiers).value
             && BestUpTo(b.tiers, GetQuote(b.tiers).value, i);
    assert ThroughBest(d, b.tiers, i, e);
    forall j | Answered(b.tiers, j) ensures e.amountOut >= MinAmountOut(b.tiers[j].value.amountOut, d.slippageBps) {
      FloorIsTight(b.tiers[j].value.amountOut, best, d.slippageBps);
    }
  }

  /**
   The database never claims more than the ledger shows. From any vault that has not
   seen the id, through any interleaving of the order's actors with any use of the
   vault: `consumed` is the replay set, the number of swaps landed is the number of
   SwapExecuted events of the id, and an EXECUTED order has exactly one such event. It
   is the owner's deal, at or above the slippage floor of the best quote that the
   signed transaction was built from.
   */
  lemma ExecutedMeansSettled(cfg: Config, d: Deal, terms: Terms, now: int, vault: V.State, es: seq<Happening>)
    requires VaultInvariants.Invariant(vault) && vault.call == V.Idle && cfg.executionId !in vault.books.executedIds
    ensures var s := AdvanceAll(cfg, d, Launch(terms, now, vault), es);
      var events, id := s.vault.books.events, cfg.executionId;
      && (s.world.chain.consumed <==> id in s.vault.books.executedIds)
      && s.world.chain.swaps == |VaultTheorems.SwapsFor(events, id)|
      && (s.world.row.status == EXECUTED ==>
            exists i, h :: OnlySwap(events, i, id) && h in s.calls && Delivered(d, s.calls[h].tiers, events[i]))
  {
    var s := AdvanceAll(cfg, d, Launch(terms, now, vault), es);
    LaunchIsWhole(cfg, d, terms, now, vault);
    AdvanceAllWhole(cfg, d, Launch(terms, now, vault), es);
    VaultTheorems.SwapsForSound(s.vault.books.events, cfg.executionId);
    if s.world.row.status == EXECUTED {
      var i, h := TheSwap(cfg, d, s);
    }
  }

  lemma TheSwap(cfg: Config, d: Deal, s: System) returns (i: int, h: Hash)
    requires Whole(cfg, d, s) && s.world.chain.consumed
    ensures OnlySwap(s.vault.books.events, i, cfg.executionId)
    ensures h in s.calls && Delivered(d, s.calls[h].tiers, s.vault.books.events[i])
  {
    var events, id := s.vault.books.events, cfg.executionId;
    VaultTheorems.SwapIdsMeaning(events, id);
    i :| VaultTheorems.SwapAt(events, i, id);
    VaultTheorems.SoundSwapsMeaning(events, i, id);
    VaultTheorems.SwapsForMeaning(events, id, i);
    h :| h in s.calls && Buildable(cfg, d, s.calls[h]) && Logs(events[i], Params(cfg, d, s.calls[h]).value);
    LoggedIsDelivered(cfg, d, s.calls[h], events[i]);
  }
}
