/** What holds of the vault over whole runs. */
module VaultTheorems {
  import opened MapSums
  import opened Wrappers
  import opened Vault
  import opened VaultInvariants

  // ---- accounting ----------------------------------------------------------

  /**
   In every reachable state, inside external calls too, totalAccounted is the sum
   of all balances, the vault holds at least that much, and no withdrawal or swap
   ever fails on the subtraction from totalAccounted.
   */
  lemma AccountingHolds(weth: Token, admin: Address, executor: Address, actions: seq<Action>, t: Token)
    ensures var v := Run(Init(weth, admin, executor), actions);
      && Accounted(v, t) == SumFor(v.books.balances, t)
      && Held(v, t) >= Accounted(v, t)
      && (forall u, x, native :: EnterWithdraw(v, u, t, x, native) != Failure(ArithmeticPanic))
      && (forall sender, a, now :: EnterSwap(v, sender, a, now) != Failure(ArithmeticPanic))
  {
    InitIsGood(weth, admin, executor);
    RunKeeps(Init(weth, admin, executor), actions);
    var v := Run(Init(weth, admin, executor), actions);
    assert Held(v, t) >= Accounted(v, t) + Reserved(v.weth, v.call, t);
    forall u, x, native ensures EnterWithdraw(v, u, t, x, native) != Failure(ArithmeticPanic) {
      DebitNeverPanics(v.books, u, t, x);
    }
    forall sender, a: SwapArgs, now ensures EnterSwap(v, sender, a, now) != Failure(ArithmeticPanic) {
      DebitNeverPanics(v.books, a.owner, a.tokenIn, a.amountIn);
    }
  }

  // ---- the event log -------------------------------------------------------

  /** Position `i` of the log is a swap of `id`. */
  predicate SwapAt(events: seq<Event>, i: int, id: ExecutionId) {
    0 <= i < |events| && events[i].SwapExecuted? && events[i].executionId == id
  }

  lemma {:induction false} SwapIdsMeaning(events: seq<Event>, id: ExecutionId)
    ensures id in SwapIds(events) <==> exists i :: SwapAt(events, i, id)
  {
    if |events| != 0 {
      var prefix := events[..|events| - 1];
      SwapIdsMeaning(prefix, id);
      if SwapAt(events, |events| - 1, id) {
      } else if id in SwapIds(events) {
        var i :| SwapAt(prefix, i, id);
        assert SwapAt(events, i, id);
      } else if i :| SwapAt(events, i, id) {
        assert SwapAt(prefix, i, id);
      }
    }
  }

  lemma {:induction false} SoundSwapsMeaning(events: seq<Event>, i: int, id: ExecutionId)
    requires SoundSwaps(events) && SwapAt(events, i, id)
    ensures events[i].amountOut >= events[i].minAmountOut
    ensures forall j :: SwapAt(events, j, id) ==> j == i
  {
    var last := |events| - 1;
    var prefix := events[..last];
    SwapIdsMeaning(prefix, id);
    if i == last {
      forall j | SwapAt(events, j, id) ensures j == i {
        if j != i { assert SwapAt(prefix, j, id); }
      }
    } else {
      assert SwapAt(prefix, i, id);
      SoundSwapsMeaning(prefix, i, id);
      forall j | SwapAt(events, j, id) ensures j == i {
        if j != last { assert SwapAt(prefix, j, id); }
      }
    }
  }

  /**
   The log is the ledger. After any run, between transactions: folding Deposited,
   Withdrawn and SwapExecuted gives every balance exactly; `isExecuted(id)` is
   true exactly of the ids in SwapExecuted events; each id has one such event;
   and each swap credited at least its minAmountOut.
   */
  lemma EventLogIsTheLedger(weth: Token, admin: Address, executor: Address, actions: seq<Action>)
    requires Run(Init(weth, admin, executor), actions).call == Idle
    ensures var v := Run(Init(weth, admin, executor), actions);
      && (forall u, t :: BalanceOf(v, u, t) == Net(v.books.events, u, t))
      && (forall id :: id in v.books.executedIds <==> exists i :: SwapAt(v.books.events, i, id))
      && (forall i, j, id :: SwapAt(v.books.events, i, id) && SwapAt(v.books.events, j, id) ==> i == j)
      && (forall i, id :: SwapAt(v.books.events, i, id) ==>
            v.books.events[i].amountOut >= v.books.events[i].minAmountOut)
  {
    InitIsGood(weth, admin, executor);
    RunKeeps(Init(weth, admin, executor), actions);
    var v := Run(Init(weth, admin, executor), actions);
    var events := v.books.events;
    forall u, t ensures BalanceOf(v, u, t) == Net(events, u, t) {
      assert v.books.BalanceOf(u, t) == Net(events, u, t) - InFlight(v.call, u, t);
    }
    forall id ensures id in v.books.executedIds <==> exists i :: SwapAt(events, i, id) {
      SwapIdsMeaning(events, id);
    }
    forall i, id | SwapAt(events, i, id)
      ensures events[i].amountOut >= events[i].minAmountOut
      ensures forall j :: SwapAt(events, j, id) ==> j == i
    {
      SoundSwapsMeaning(events, i, id);
    }
  }

  // ---- what a swap is allowed to do -------------------------------------------

  /**
   The restrictions on a swap, all of them and no other: in a reachable state a call
   gets past the checks exactly if it is the executor's, on time, of an unused id,
   between two allowlisted tokens, within the cap and the owner's own balance, with
   the vault neither paused nor inside another call.
   */
  lemma SwapAdmittedExactly(v: State, sender: Address, a: SwapArgs, timestamp: nat)
    requires Invariant(v)
    ensures EnterSwap(v, sender, a, timestamp).Success? <==>
            && sender in v.policy.executors && !v.policy.paused && v.call == Idle
            && a.executionId != ZERO_ID && a.executionId !in v.books.executedIds && timestamp <= a.deadline
            && a.owner != ZERO_ADDRESS && a.tokenIn != a.tokenOut && {a.tokenIn, a.tokenOut} <= v.policy.allowedToken
            && 0 < a.amountIn <= Lookup(v.policy.maxTradeAmount, a.tokenIn)
            && a.amountIn <= BalanceOf(v, a.owner, a.tokenIn)
  {
    DebitNeverPanics(v.books, a.owner, a.tokenIn, a.amountIn);
  }

  // ---- one swap, from entry to return --------------------------------------

  /** While a swap is on the stack, only its return or its revert ends it. */
  lemma InsideSwap(v: State, a: Action)
    requires v.call.Swapping? && !a.SwapReturns? && !a.CallReverts?
    ensures var w := Step(v, a);
      && w.call.Swapping? && w.call.args == v.call.args && w.call.saved == v.call.saved
      && w.books.balances == v.books.balances && w.books.totalAccounted == v.books.totalAccounted
      && w.books.executedIds == v.books.executedIds
  {
    if IsAdmin(a) { AdminTouchesNoBalance(v, a); }
  }

  lemma {:induction false} InsideSwapRun(v: State, inner: seq<Action>)
    requires v.call.Swapping?
    requires forall i :: 0 <= i < |inner| ==> !inner[i].SwapReturns? && !inner[i].CallReverts?
    ensures var w := Run(v, inner);
      && w.call.Swapping? && w.call.args == v.call.args && w.call.saved == v.call.saved
      && w.books.balances == v.books.balances && w.books.totalAccounted == v.books.totalAccounted
      && w.books.executedIds == v.books.executedIds
    decreases |inner|
  {
    if |inner| != 0 {
      InsideSwap(v, inner[0]);
      InsideSwapRun(Step(v, inner[0]), inner[1..]);
    }
  }

  /** The state after a whole `executeSwap` transaction, with `inner` happening inside the router call. */
  function WholeSwap(v: State, sender: Address, a: SwapArgs, timestamp: nat, inner: seq<Action>,
                     amountOut: nat): State {
    Step(Run(Step(v, ExecuteSwap(sender, a, timestamp)), inner), SwapReturns(amountOut))
  }

  /**
   A swap settles or leaves no trace. If it settles, it was on time and its id
   unused; the owner paid exactly amountIn and was credited at least minAmountOut;
   and no other balance moved. If it does not, the vault is as before the
   transaction.
   */
  lemma SwapSettlesOrVanishes(v: State, sender: Address, a: SwapArgs, timestamp: nat, inner: seq<Action>,
                              amountOut: nat)
    requires v.call == Idle && EnterSwap(v, sender, a, timestamp).Success?
    requires forall i :: 0 <= i < |inner| ==> !inner[i].SwapReturns? && !inner[i].CallReverts?
    ensures var w := WholeSwap(v, sender, a, timestamp, inner, amountOut);
      w.call == Idle ==>
        || w == v
        || (&& timestamp <= a.deadline && a.executionId !in v.books.executedIds
            && w.books.executedIds == v.books.executedIds + {a.executionId}
            && amountOut >= a.minAmountOut
            && BalanceOf(w, a.owner, a.tokenIn) == BalanceOf(v, a.owner, a.tokenIn) - a.amountIn
            && BalanceOf(w, a.owner, a.tokenOut) == BalanceOf(v, a.owner, a.tokenOut) + amountOut
            && forall u: Address, t: Token :: u != a.owner || (t != a.tokenIn && t != a.tokenOut) ==>
                 BalanceOf(w, u, t) == BalanceOf(v, u, t))
  {
    InsideSwapRun(Step(v, ExecuteSwap(sender, a, timestamp)), inner);
  }

  /** The ids consumed as an outside reader sees them: a transaction in flight does not count. */
  function Settled(v: State): set<ExecutionId> {
    if v.call == Idle then v.books.executedIds else v.call.saved.books.executedIds
  }

  /** `isExecuted` never goes back to false, and only a returning swap of an unused id turns it true. */
  lemma SettledOnlyGrows(v: State, a: Action)
    requires SavedFits(v)
    ensures Settled(v) <= Settled(Step(v, a))
    ensures forall id :: id in Settled(Step(v, a)) && id !in Settled(v) ==>
              v.call.Swapping? && a.SwapReturns? && v.call.args.executionId == id
  {
    if IsAdmin(a) { AdminTouchesNoBalance(v, a); }
  }

  // ---- the swaps of one id -------------------------------------------------

  /** The SwapExecuted events of the id, in order. */
  function SwapsFor(events: seq<Event>, id: ExecutionId): seq<Event> {
    if |events| == 0 then []
    else
      var last := events[|events| - 1];
      SwapsFor(events[..|events| - 1], id) + if last.SwapExecuted? && last.executionId == id then [last] else []
  }

  lemma SwapsForEmit(events: seq<Event>, e: Event, id: ExecutionId)
    ensures SwapsFor(events + [e], id)
         == SwapsFor(events, id) + if e.SwapExecuted? && e.executionId == id then [e] else []
  {
    assert (events + [e])[..|events|] == events;
  }

  lemma {:induction false} SwapsForMeaning(events: seq<Event>, id: ExecutionId, i: int)
    requires SwapAt(events, i, id)
    ensures events[i] in SwapsFor(events, id)
  {
    if i < |events| - 1 { SwapsForMeaning(events[..|events| - 1], id, i); }
  }

  lemma {:induction false} SwapsForSound(events: seq<Event>, id: ExecutionId)
    requires SoundSwaps(events)
    ensures |SwapsFor(events, id)| == if id in SwapIds(events) then 1 else 0
  {
    if |events| != 0 { SwapsForSound(events[..|events| - 1], id); }
  }

  /** The swaps of the id are `swaps`, now and in the state a revert would restore. */
  predicate HasSwaps(v: State, id: ExecutionId, swaps: seq<Event>) {
    && SwapsFor(v.books.events, id) == swaps
    && (v.call != Idle ==> SwapsFor(v.call.saved.books.events, id) == swaps)
  }

  /** What a step that returns to the caller may emit. */
  function EmittedBy(v: State, a: Action): Option<Event> {
    match a
    case SwapReturns(out) => if v.call.Swapping? then Some(SwapEvent(v.call.sender, v.call.args, out)) else None
    case WithdrawReturns(_) =>
      if v.call.Withdrawing? then Some(Withdrawn(v.call.user, v.call.token, v.call.amount)) else None
    case DepositETHReturns => if v.call.Wrapping? then Some(Deposited(v.call.user, v.weth, v.call.value)) else None
    case DepositReturns =>
      if v.call.Depositing? && Held(v, v.call.token) >= v.call.balanceBefore
      then Some(Deposited(v.call.user, v.call.token, Held(v, v.call.token) - v.call.balanceBefore)) else None
    case _ => None
  }

  /** Entering or passing control around emits nothing; a return emits its event, or restores what was. */
  lemma StepEmits(v: State, a: Action)
    requires !IsAdmin(a)
    ensures var w := Step(v, a);
      || (v.call != Idle && w == v.call.saved)
      || w.books.events == v.books.events
      || (w.call == Idle && EmittedBy(v, a).Some? && w.books.events == v.books.events + [EmittedBy(v, a).value])
  {
  }

  /** What a step can do to the log, and to the log that a revert would restore. */
  predicate Evolves(v: State, w: State, emitted: Option<Event>) {
    || (v.call != Idle && w == v.call.saved && w.call == Idle)
    || (w.books.events == v.books.events && (w.call == Idle || SavedFrom(v, w)))
    || (w.call == Idle && emitted.Some? && w.books.events == v.books.events + [emitted.value])
  }

  predicate SavedFrom(v: State, w: State)
    requires w.call != Idle
  {
    if v.call == Idle then w.call.saved == v else w.call.saved == v.call.saved
  }

  lemma StepEvolves(v: State, a: Action)
    requires SavedFits(v) && !IsAdmin(a)
    ensures Evolves(v, Step(v, a), EmittedBy(v, a))
  {
    StepEmits(v, a);
    StepKeepsSaved(v, a);
  }

  lemma EvolvingKeepsSwaps(v: State, w: State, emitted: Option<Event>, id: ExecutionId, swaps: seq<Event>)
    requires HasSwaps(v, id, swaps) && Evolves(v, w, emitted)
    requires emitted.Some? && emitted.value.SwapExecuted? ==> emitted.value.executionId != id
    ensures HasSwaps(w, id, swaps)
  {
    if emitted.Some? { SwapsForEmit(v.books.events, emitted.value, id); }
  }

  lemma AdminKeepsSwaps(v: State, a: Action, id: ExecutionId, swaps: seq<Event>)
    requires IsAdmin(a) && HasSwaps(v, id, swaps)
    ensures HasSwaps(Step(v, a), id, swaps)
  {
    AdminTouchesNoBalance(v, a);
    if Step(v, a) != v { SwapsForEmit(v.books.events, Step(v, a).books.events[|v.books.events|], id); }
  }

  /** Only the return of a swap of the id adds a swap of the id. */
  lemma StepKeepsSwaps(v: State, a: Action, id: ExecutionId, swaps: seq<Event>)
    requires SavedFits(v) && HasSwaps(v, id, swaps)
    requires !(a.SwapReturns? && v.call.Swapping? && v.call.args.executionId == id)
    ensures HasSwaps(Step(v, a), id, swaps)
  {
    if IsAdmin(a) {
      AdminKeepsSwaps(v, a, id, swaps);
    } else {
      StepEvolves(v, a);
      EvolvingKeepsSwaps(v, Step(v, a), EmittedBy(v, a), id, swaps);
    }
  }

  lemma {:induction false} InsideSwapKeepsSwaps(v: State, inner: seq<Action>, id: ExecutionId, swaps: seq<Event>)
    requires SavedFits(v) && HasSwaps(v, id, swaps)
    requires forall i :: 0 <= i < |inner| ==> !inner[i].SwapReturns?
    ensures HasSwaps(Run(v, inner), id, swaps) && SavedFits(Run(v, inner))
    decreases |inner|
  {
    if |inner| != 0 {
      StepKeepsSaved(v, inner[0]);
      StepKeepsSwaps(v, inner[0], id, swaps);
      InsideSwapKeepsSwaps(Step(v, inner[0]), inner[1..], id, swaps);
    }
  }

  /** A swap that settles logs itself, with its arguments, and nothing else of any id. */
  lemma WholeSwapLogs(v: State, sender: Address, a: SwapArgs, timestamp: nat, inner: seq<Action>, amountOut: nat,
                      id: ExecutionId)
    requires v.call == Idle && EnterSwap(v, sender, a, timestamp).Success?
    requires forall i :: 0 <= i < |inner| ==> !inner[i].SwapReturns? && !inner[i].CallReverts?
    ensures var w := WholeSwap(v, sender, a, timestamp, inner, amountOut);
      w.call == Idle ==>
        SwapsFor(w.books.events, id) == SwapsFor(v.books.events, id)
          + if w != v && a.executionId == id then [SwapEvent(sender, a, amountOut)] else []
  {
    var entered := Step(v, ExecuteSwap(sender, a, timestamp));
    var u := Run(entered, inner);
    InsideSwapKeepsSwaps(entered, inner, id, SwapsFor(v.books.events, id));
    SwapsForEmit(u.books.events, SwapEvent(sender, a, amountOut), id);
    SettlesWithItsId(v, sender, a, timestamp, inner, amountOut);
  }

  lemma {:induction false} SenderStays(v: State, inner: seq<Action>)
    requires v.call.Swapping?
    requires forall i :: 0 <= i < |inner| ==> !inner[i].SwapReturns? && !inner[i].CallReverts?
    ensures Run(v, inner).call.Swapping? && Run(v, inner).call.sender == v.call.sender
    decreases |inner|
  {
    if |inner| != 0 {
      InsideSwap(v, inner[0]);
      if IsAdmin(inner[0]) { AdminTouchesNoBalance(v, inner[0]); }
      SenderStays(Step(v, inner[0]), inner[1..]);
    }
  }

  /** The return of a swap changes nothing, undoes it, or logs it. */
  lemma SwapReturnLogs(u: State, amountOut: nat)
    requires u.call.Swapping?
    ensures var w := Step(u, SwapReturns(amountOut));
      || w == u || w == u.call.saved
      || w.books.events == u.books.events + [SwapEvent(u.call.sender, u.call.args, amountOut)]
  {
  }

  /** A swap that leaves a trace is not undone. */
  lemma SettlesWithItsId(v: State, sender: Address, a: SwapArgs, timestamp: nat, inner: seq<Action>, amountOut: nat)
    requires v.call == Idle && EnterSwap(v, sender, a, timestamp).Success?
    requires forall i :: 0 <= i < |inner| ==> !inner[i].SwapReturns? && !inner[i].CallReverts?
    ensures var u := Run(Step(v, ExecuteSwap(sender, a, timestamp)), inner);
            var w := WholeSwap(v, sender, a, timestamp, inner, amountOut);
      w.call == Idle ==> w == v || w.books.events == u.books.events + [SwapEvent(sender, a, amountOut)]
  {
    var entered := EnterSwap(v, sender, a, timestamp).value;
    assert Step(v, ExecuteSwap(sender, a, timestamp)) == entered;
    assert entered.call == Swapping(sender, a, a.amountIn, 0, v);
    InsideSwapRun(entered, inner);
    SenderStays(entered, inner);
    SwapReturnLogs(Run(entered, inner), amountOut);
  }

  // ---- exit ----------------------------------------------------------------

  datatype Exit = Exit(user: Address, token: Token, amount: nat)

  /** One whole `withdraw` transaction; the token moves what it is asked to move if the vault holds it. */
  function ExitOne(v: State, x: Exit): Result<State, Error> {
    match EnterWithdraw(v, x.user, x.token, x.amount, false)
    case Failure(e) => Failure(e)
    case Success(w) =>
      var paid := Step(w, TokenPays);
      if paid.call.paid then LeaveWithdraw(paid, true) else Failure(ExternalCallFailed)
  }

  /** Withdrawals one after the other, stopping at the first that fails. */
  function ExitAll(v: State, xs: seq<Exit>): Result<State, Error>
    decreases |xs|
  {
    if |xs| == 0 then Success(v)
    else match ExitOne(v, xs[0])
      case Failure(e) => Failure(e)
      case Success(w) => ExitAll(w, xs[1..])
  }

  /** What `xs` asks for in all from one balance. */
  function Demand(xs: seq<Exit>, u: Address, t: Token): nat {
    if |xs| == 0 then 0
    else (if xs[0].user == u && xs[0].token == t then xs[0].amount else 0) + Demand(xs[1..], u, t)
  }

  function TokenDemand(xs: seq<Exit>, t: Token): nat {
    if |xs| == 0 then 0 else (if xs[0].token == t then xs[0].amount else 0) + TokenDemand(xs[1..], t)
  }

  lemma RunOfThree(v: State, a: Action, b: Action, c: Action)
    ensures Run(v, [a, b, c]) == Step(Step(Step(v, a), b), c)
  {
    assert [a, b, c][1..] == [b, c] && [b, c][1..] == [c] && [c][1..] == [];
    assert Run(v, [a, b, c]) == Run(Step(v, a), [b, c]);
    assert Run(Step(v, a), [b, c]) == Run(Step(Step(v, a), b), [c]);
    assert Run(Step(Step(v, a), b), [c]) == Run(Step(Step(Step(v, a), b), c), []);
  }

  lemma PaidReturns(w: State)
    requires w.call.Withdrawing? && w.call.paid && LeaveWithdraw(w, true).Success?
    ensures Step(w, WithdrawReturns(true)) == LeaveWithdraw(w, true).value
  {
  }

  /** A withdrawal is a run of the machine. */
  lemma ExitOneIsARun(v: State, x: Exit)
    requires v.call == Idle && ExitOne(v, x).Success?
    ensures ExitOne(v, x).value == Run(v, [Withdraw(x.user, x.token, x.amount), TokenPays, WithdrawReturns(true)])
  {
    RunOfThree(v, Withdraw(x.user, x.token, x.amount), TokenPays, WithdrawReturns(true));
    var entered := EnterWithdraw(v, x.user, x.token, x.amount, false).value;
    assert Step(v, Withdraw(x.user, x.token, x.amount)) == entered;
    PaidReturns(Step(entered, TokenPays));
  }

  /**
   Funds are never trapped: between transactions of any reachable state, paused or
   not and whatever is allowlisted, a withdrawal succeeds exactly when it asks for
   a positive amount within the caller's own balance, and then it moves that
   balance, the total and the holdings by the amount and nothing else.
   */
  lemma WithdrawalGoesThrough(v: State, x: Exit)
    requires Invariant(v) && v.call == Idle
    ensures ExitOne(v, x).Success? <==> 0 < x.amount <= BalanceOf(v, x.user, x.token)
    ensures ExitOne(v, x).Success? ==> var w := ExitOne(v, x).value;
      && w.call == Idle && Invariant(w) && w.policy == v.policy
      && (forall u, t ::
            BalanceOf(w, u, t) == BalanceOf(v, u, t) - (if u == x.user && t == x.token then x.amount else 0))
      && (forall t :: Accounted(w, t) == Accounted(v, t) - (if t == x.token then x.amount else 0))
      && (forall t :: Held(w, t) == Held(v, t) - (if t == x.token then x.amount else 0))
  {
    DebitNeverPanics(v.books, x.user, x.token, x.amount);
    assert Held(v, x.token) >= Accounted(v, x.token) + Reserved(v.weth, v.call, x.token);
    if ExitOne(v, x).Success? {
      ExitOneIsARun(v, x);
      RunKeeps(v, [Withdraw(x.user, x.token, x.amount), TokenPays, WithdrawReturns(true)]);
    }
  }

  /**
   Any list of withdrawals goes through, in its order, exactly when every amount
   is positive and no balance is asked for more than it holds.
   */
  lemma {:induction false} ExitsGoThrough(v: State, xs: seq<Exit>)
    requires Invariant(v) && v.call == Idle
    ensures ExitAll(v, xs).Success? <==>
            && (forall i :: 0 <= i < |xs| ==> xs[i].amount > 0)
            && (forall u, t :: Demand(xs, u, t) <= BalanceOf(v, u, t))
    ensures ExitAll(v, xs).Success? ==> var w := ExitAll(v, xs).value;
      && w.call == Idle && Invariant(w)
      && (forall u, t :: BalanceOf(w, u, t) == BalanceOf(v, u, t) - Demand(xs, u, t))
      && (forall t :: Accounted(w, t) == Accounted(v, t) - TokenDemand(xs, t))
      && (forall t :: Held(w, t) == Held(v, t) - TokenDemand(xs, t))
    decreases |xs|
  {
    if |xs| != 0 {
      WithdrawalGoesThrough(v, xs[0]);
      if ExitOne(v, xs[0]).Success? {
        var w := ExitOne(v, xs[0]).value;
        ExitsGoThrough(w, xs[1..]);
        SplitDemand(v, w, xs);
      } else {
        assert Demand(xs, xs[0].user, xs[0].token) >= xs[0].amount;
      }
    }
  }

  lemma SplitDemand(v: State, w: State, xs: seq<Exit>)
    requires |xs| != 0
    requires forall u, t :: BalanceOf(w, u, t)
                         == BalanceOf(v, u, t) - (if u == xs[0].user && t == xs[0].token then xs[0].amount else 0)
    ensures (forall u, t :: Demand(xs, u, t) <= BalanceOf(v, u, t)) <==>
            (forall u, t :: Demand(xs[1..], u, t) <= BalanceOf(w, u, t))
    ensures xs[0].amount > 0 ==>
            ((forall i :: 0 <= i < |xs| ==> xs[i].amount > 0) <==>
             (forall i :: 0 <= i < |xs[1..]| ==> xs[1..][i].amount > 0))
  {
    assert forall u, t :: Demand(xs, u, t) - Demand(xs[1..], u, t) == BalanceOf(v, u, t) - BalanceOf(w, u, t);
    if forall i :: 0 <= i < |xs[1..]| ==> xs[1..][i].amount > 0 {
      forall i | 0 < i < |xs| ensures xs[i].amount > 0 { assert xs[i] == xs[1..][i - 1]; }
    }
  }

  /**
   Everyone can leave: if the withdrawals add up to every balance of every user,
   they all succeed in whatever order, and what is left is no claim at all and
   exactly the surplus nobody had a claim to.
   */
  lemma EveryoneCanLeave(v: State, xs: seq<Exit>, t: Token)
    requires Invariant(v) && v.call == Idle
    requires forall i :: 0 <= i < |xs| ==> xs[i].amount > 0
    requires forall u, s :: Demand(xs, u, s) == BalanceOf(v, u, s)
    ensures ExitAll(v, xs).Success?
    ensures Accounted(ExitAll(v, xs).value, t) == 0
    ensures Held(ExitAll(v, xs).value, t) == UnaccountedBalance(v, t) == Held(v, t) - Accounted(v, t)
  {
    ExitsGoThrough(v, xs);
    var w := ExitAll(v, xs).value;
    forall u ensures Lookup(w.books.balances, (u, t)) == 0 {
      assert BalanceOf(w, u, t) == BalanceOf(v, u, t) - Demand(xs, u, t);
    }
    ZeroSum(w.books.balances, t);
    assert w.books.Accounted(t) == SumFor(w.books.balances, t);
    assert Held(v, t) >= Accounted(v, t) + Reserved(v.weth, v.call, t);
  }

  /** Withdrawals that ask for exactly what a balance map holds. */
  lemma {:induction false} ExitsOf(balances: map<(Address, Token), nat>) returns (xs: seq<Exit>)
    ensures forall i :: 0 <= i < |xs| ==> xs[i].amount > 0
    ensures forall u, t :: Demand(xs, u, t) == Lookup(balances, (u, t))
    decreases |balances|
  {
    if |balances| == 0 {
      xs := [];
    } else {
      var k :| k in balances;
      var rest := ExitsOf(balances - {k});
      xs := if balances[k] > 0 then [Exit(k.0, k.1, balances[k])] + rest else rest;
      forall u, t ensures Demand(xs, u, t) == Lookup(balances, (u, t)) {
        assert xs != rest ==> xs[1..] == rest;
        assert Demand(rest, u, t) == Lookup(balances - {k}, (u, t));
      }
    }
  }

  /** So in every state between transactions there are withdrawals that let everyone leave. */
  lemma AWayOutExists(v: State) returns (xs: seq<Exit>)
    requires Invariant(v) && v.call == Idle
    ensures ExitAll(v, xs).Success?
    ensures var w := ExitAll(v, xs).value;
      && (forall u, t :: BalanceOf(w, u, t) == 0)
      && (forall t :: Accounted(w, t) == 0 && Held(w, t) == Held(v, t) - Accounted(v, t))
  {
    xs := ExitsOf(v.books.balances);
    forall u, t ensures Demand(xs, u, t) == BalanceOf(v, u, t) {
    }
    ExitsGoThrough(v, xs);
    forall t
      ensures Accounted(ExitAll(v, xs).value, t) == 0 && Held(ExitAll(v, xs).value, t) == Held(v, t) - Accounted(v, t)
    {
      EveryoneCanLeave(v, xs, t);
    }
  }
}
