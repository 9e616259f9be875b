/**
 What every step of the vault keeps, at transaction boundaries and at every point
 where control is inside an external call.
 */
module VaultInvariants {
  import opened MapSums
  import opened Wrappers
  import opened Vault

  // ---- the event log as a ledger -------------------------------------------

  /** What one event says about the balance of `u` in `t`. */
  function Effect(e: Event, u: Address, t: Token): int {
    match e
    case Deposited(user, token, amount) => if user == u && token == t then amount else 0
    case Withdrawn(user, token, amount) => if user == u && token == t then 0 - amount else 0
    case SwapExecuted(_, owner, _, tokenIn, tokenOut, amountIn, amountOut, _, _) =>
      if owner != u then 0
      else (if tokenOut == t then amountOut else 0) - (if tokenIn == t then amountIn else 0)
    case _ => 0
  }

  /** The balance of `u` in `t` according to the log alone. */
  function Net(events: seq<Event>, u: Address, t: Token): int {
    if |events| == 0 then 0 else Net(events[..|events| - 1], u, t) + Effect(events[|events| - 1], u, t)
  }

  /** The ids of the SwapExecuted events. */
  function SwapIds(events: seq<Event>): set<ExecutionId> {
    if |events| == 0 then {}
    else
      var last := events[|events| - 1];
      SwapIds(events[..|events| - 1]) + (if last.SwapExecuted? then {last.executionId} else {})
  }

  /** No id twice, and every swap at or above its floor. */
  predicate SoundSwaps(events: seq<Event>) {
    |events| == 0 ||
    (var last := events[|events| - 1];
     && SoundSwaps(events[..|events| - 1])
     && (last.SwapExecuted? ==>
           last.executionId !in SwapIds(events[..|events| - 1]) && last.amountOut >= last.minAmountOut))
  }

  lemma NetEmit(events: seq<Event>, e: Event, u: Address, t: Token)
    ensures Net(events + [e], u, t) == Net(events, u, t) + Effect(e, u, t)
  {
    assert (events + [e])[..|events|] == events;
  }

  lemma SwapsEmit(events: seq<Event>, e: Event)
    ensures SwapIds(events + [e]) == SwapIds(events) + (if e.SwapExecuted? then {e.executionId} else {})
    ensures SoundSwaps(events + [e]) <==>
            && SoundSwaps(events)
            && (e.SwapExecuted? ==> e.executionId !in SwapIds(events) && e.amountOut >= e.minAmountOut)
  {
    assert (events + [e])[..|events|] == events;
  }

  // ---- the invariant -------------------------------------------------------

  /** totalAccounted is the sum of all users' balances, token by token. */
  ghost predicate Accounting(b: Books) {
    forall t :: b.Accounted(t) == SumFor(b.balances, t)
  }

  /** A debit that is in effect although its event is not emitted yet. */
  function InFlight(c: Call, u: Address, t: Token): nat {
    match c
    case Withdrawing(user, token, amount, _, _, _) => if user == u && token == t then amount else 0
    case Swapping(_, a, _, _, _) => if a.owner == u && a.tokenIn == t then a.amountIn else 0
    case _ => 0
  }

  /** Every balance is what the log says, less the debit in flight. */
  ghost predicate Ledger(b: Books, c: Call) {
    forall u, t :: b.BalanceOf(u, t) == Net(b.events, u, t) - InFlight(c, u, t)
  }

  /** The replay set is the ids of the log, plus the id of the swap in flight. */
  predicate ReplaySafe(b: Books, c: Call) {
    && SoundSwaps(b.events)
    && b.executedIds == SwapIds(b.events) + (if c.Swapping? then {c.args.executionId} else {})
    && (c.Swapping? ==> c.args.executionId !in SwapIds(b.events) && c.args.tokenIn != c.args.tokenOut)
  }

  /** Tokens held beyond totalAccounted that the call in flight will still move or credit. */
  function Reserved(weth: Token, c: Call, t: Token): nat {
    match c
    case Wrapping(_, value, wrapped, _) => if wrapped && t == weth then value else 0
    case Withdrawing(_, token, amount, _, paid, _) => if !paid && t == token then amount else 0
    case Swapping(_, a, allowance, delivered, _) =>
      if t == a.tokenIn then allowance else if t == a.tokenOut then delivered else 0
    case _ => 0
  }

  ghost predicate Covered(v: State) {
    && (forall t :: Held(v, t) >= Accounted(v, t) + Reserved(v.weth, v.call, t))
    && (v.call.Depositing? ==> Accounted(v, v.call.token) <= v.call.balanceBefore <= Held(v, v.call.token))
  }

  ghost predicate Good(v: State) {
    Accounting(v.books) && Ledger(v.books, v.call) && ReplaySafe(v.books, v.call) && Covered(v)
  }

  /** What a revert restores is the state at entry; meanwhile the replay set has grown by the swap in flight only. */
  predicate SavedFits(v: State) {
    v.call != Idle ==>
      && v.call.saved.call == Idle && v.call.saved.weth == v.weth
      && v.books.executedIds == v.call.saved.books.executedIds
                                + (if v.call.Swapping? then {v.call.args.executionId} else {})
  }

  ghost predicate Invariant(v: State) {
    Good(v) && SavedFits(v) && (v.call != Idle ==> Good(v.call.saved))
  }

  lemma InitIsGood(weth: Token, admin: Address, executor: Address)
    ensures Invariant(Init(weth, admin, executor))
  {
    var b := Init(weth, admin, executor).books;
    forall t ensures b.Accounted(t) == SumFor(b.balances, t) { ZeroSum(b.balances, t); }
    if executor != ZERO_ADDRESS {
      SwapsEmit([], ExecutorUpdated(ZERO_ADDRESS, executor));
      assert [] + b.events == b.events;
    }
  }

  // ---- what moves of the books keep ----------------------------------------

  /** The subtraction from totalAccounted never underflows: a covered debit always goes through. */
  lemma DebitNeverPanics(b: Books, u: Address, t: Token, x: nat)
    requires Accounting(b)
    ensures b.Debit(u, t, x) != Failure(ArithmeticPanic)
    ensures b.Debit(u, t, x).Success? <==> x <= b.BalanceOf(u, t)
  {
    EntryAtMostSum(b.balances, (u, t));
    assert b.Accounted(t) == SumFor(b.balances, t);
  }

  /** One balance and its total, written together by the same difference. */
  lemma WriteKeepsAccounting(b: Books, d: Books, u: Address, t: Token, x: nat, total: nat)
    requires Accounting(b)
    requires d.balances == b.balances[(u, t) := x] && d.totalAccounted == b.totalAccounted[t := total]
    requires total - x == b.Accounted(t) - b.BalanceOf(u, t)
    ensures Accounting(d)
  {
    forall s ensures d.Accounted(s) == SumFor(d.balances, s) {
      assert b.Accounted(s) == SumFor(b.balances, s);
      SumUpdate(b.balances, (u, t), x, s);
    }
  }

  lemma DebitKeepsAccounting(b: Books, u: Address, t: Token, x: nat)
    requires Accounting(b) && b.Debit(u, t, x).Success?
    ensures Accounting(b.Debit(u, t, x).value)
  {
    WriteKeepsAccounting(b, b.Debit(u, t, x).value, u, t, b.BalanceOf(u, t) - x, b.Accounted(t) - x);
  }

  lemma CreditKeepsAccounting(b: Books, u: Address, t: Token, x: nat)
    requires Accounting(b) && b.Credit(u, t, x).Success?
    ensures Accounting(b.Credit(u, t, x).value)
  {
    WriteKeepsAccounting(b, b.Credit(u, t, x).value, u, t, b.BalanceOf(u, t) + x, b.Accounted(t) + x);
  }

  /** Opening a call with a debit moves the debit in flight. */
  lemma DebitKeepsLedger(b: Books, c: Call, u: Address, t: Token, x: nat)
    requires Ledger(b, Idle) && b.Debit(u, t, x).Success?
    requires forall p, s :: InFlight(c, p, s) == if p == u && s == t then x else 0
    ensures Ledger(b.Debit(u, t, x).value, c)
  {
    var d := b.Debit(u, t, x).value;
    forall p, s ensures d.BalanceOf(p, s) == Net(d.events, p, s) - InFlight(c, p, s) {
      assert b.BalanceOf(p, s) == Net(b.events, p, s) - InFlight(Idle, p, s);
    }
  }

  /** Closing a call with a credit and its event settles what was in flight. */
  lemma CreditKeepsLedger(b: Books, c: Call, u: Address, t: Token, x: nat, e: Event)
    requires Ledger(b, c) && b.Credit(u, t, x).Success?
    requires forall p, s :: Effect(e, p, s) == (if p == u && s == t then x else 0) - InFlight(c, p, s)
    ensures Ledger(b.Credit(u, t, x).value.Emit(e), Idle)
  {
    var d := b.Credit(u, t, x).value.Emit(e);
    forall p, s ensures d.BalanceOf(p, s) == Net(d.events, p, s) - InFlight(Idle, p, s) {
      assert b.BalanceOf(p, s) == Net(b.events, p, s) - InFlight(c, p, s);
      assert Effect(e, p, s) == (if p == u && s == t then x else 0) - InFlight(c, p, s);
      NetEmit(b.events, e, p, s);
    }
  }

  /** An event that moves no balance by itself, only what was in flight. */
  lemma EmitKeepsLedger(b: Books, c: Call, d: Call, e: Event)
    requires Ledger(b, c)
    requires forall p, s :: Effect(e, p, s) == InFlight(d, p, s) - InFlight(c, p, s)
    ensures Ledger(b.Emit(e), d)
  {
    forall p, s ensures b.Emit(e).BalanceOf(p, s) == Net(b.Emit(e).events, p, s) - InFlight(d, p, s) {
      assert b.BalanceOf(p, s) == Net(b.events, p, s) - InFlight(c, p, s);
      assert Effect(e, p, s) == InFlight(d, p, s) - InFlight(c, p, s);
      NetEmit(b.events, e, p, s);
    }
  }

  // ---- entry points --------------------------------------------------------

  lemma EnterDepositKeeps(v: State, sender: Address, token: Token, amount: nat)
    requires Good(v)
    ensures Good(OrSame(v, EnterDeposit(v, sender, token, amount)))
  {
    var w := OrSame(v, EnterDeposit(v, sender, token, amount));
    forall s ensures Held(w, s) >= Accounted(w, s) + Reserved(w.weth, w.call, s) {
      assert Held(v, s) >= Accounted(v, s) + Reserved(v.weth, v.call, s);
    }
  }

  lemma EnterDepositETHKeeps(v: State, sender: Address, value: nat)
    requires Good(v)
    ensures Good(OrSame(v, EnterDepositETH(v, sender, value)))
  {
    var w := OrSame(v, EnterDepositETH(v, sender, value));
    forall s ensures Held(w, s) >= Accounted(w, s) + Reserved(w.weth, w.call, s) {
      assert Held(v, s) >= Accounted(v, s) + Reserved(v.weth, v.call, s);
    }
  }

  lemma EnterWithdrawKeeps(v: State, sender: Address, token: Token, amount: nat, native: bool)
    requires Good(v)
    ensures Good(OrSame(v, EnterWithdraw(v, sender, token, amount, native)))
  {
    var r := EnterWithdraw(v, sender, token, amount, native);
    if r.Success? {
      DebitKeepsAccounting(v.books, sender, token, amount);
      DebitKeepsLedger(v.books, r.value.call, sender, token, amount);
      OpenCover(v, r.value, token, amount);
    }
  }

  lemma EnterSwapKeeps(v: State, sender: Address, a: SwapArgs, timestamp: nat)
    requires Good(v)
    ensures Good(OrSame(v, EnterSwap(v, sender, a, timestamp)))
  {
    var r := EnterSwap(v, sender, a, timestamp);
    if r.Success? {
      var b := v.books.Debit(a.owner, a.tokenIn, a.amountIn).value;
      DebitKeepsAccounting(v.books, a.owner, a.tokenIn, a.amountIn);
      DebitKeepsLedger(v.books, r.value.call, a.owner, a.tokenIn, a.amountIn);
      SameBooks(b, r.value.books, r.value.call);
      OpenCover(v, r.value, a.tokenIn, a.amountIn);
    }
  }

  /** Accounting and the ledger ignore the replay set. */
  lemma SameBooks(b: Books, d: Books, c: Call)
    requires Accounting(b) && Ledger(b, c)
    requires d.balances == b.balances && d.totalAccounted == b.totalAccounted && d.events == b.events
    ensures Accounting(d) && Ledger(d, c)
  {
    assert forall t :: d.Accounted(t) == b.Accounted(t);
    assert forall u, t :: d.BalanceOf(u, t) == b.BalanceOf(u, t);
  }

  /** What a debit takes out of totalAccounted is reserved for the call it opens. */
  lemma OpenCover(v: State, w: State, t: Token, x: nat)
    requires Covered(v) && v.call == Idle && w.held == v.held
    requires forall s :: Accounted(w, s) == Accounted(v, s) - if s == t then x else 0
    requires forall s :: Reserved(w.weth, w.call, s) == if s == t then x else 0
    requires !w.call.Depositing?
    ensures Covered(w)
  {
    forall s ensures Held(w, s) >= Accounted(w, s) + Reserved(w.weth, w.call, s) {
      assert Held(v, s) >= Accounted(v, s) + Reserved(v.weth, v.call, s);
    }
  }

  // ---- returns -------------------------------------------------------------

  lemma CloseKeepsBooks(v: State, u: Address, t: Token, x: nat, e: Event)
    requires Accounting(v.books) && Ledger(v.books, v.call) && v.books.Credit(u, t, x).Success?
    requires forall p, s :: Effect(e, p, s) == (if p == u && s == t then x else 0) - InFlight(v.call, p, s)
    ensures var d := v.books.Credit(u, t, x).value.Emit(e); Accounting(d) && Ledger(d, Idle)
  {
    CreditKeepsAccounting(v.books, u, t, x);
    var c := v.books.Credit(u, t, x).value;
    forall s ensures c.Emit(e).Accounted(s) == SumFor(c.Emit(e).balances, s) {
      assert c.Accounted(s) == SumFor(c.balances, s);
    }
    CreditKeepsLedger(v.books, v.call, u, t, x, e);
  }

  /** The event of a returning swap takes over from the swap in flight. */
  lemma CloseReplay(v: State, u: Address, t: Token, x: nat, e: Event)
    requires ReplaySafe(v.books, v.call) && v.books.Credit(u, t, x).Success?
    requires e.SwapExecuted? <==> v.call.Swapping?
    requires e.SwapExecuted? ==> e.executionId == v.call.args.executionId && e.amountOut >= e.minAmountOut
    ensures ReplaySafe(v.books.Credit(u, t, x).value.Emit(e), Idle)
  {
    SwapsEmit(v.books.events, e);
  }

  lemma CloseCovered(v: State, u: Address, t: Token, x: nat, e: Event)
    requires Covered(v) && v.books.Credit(u, t, x).Success? && Held(v, t) >= Accounted(v, t) + x
    ensures Covered(Close(v, v.books.Credit(u, t, x), e).value)
  {
    CloseCover(v, Close(v, v.books.Credit(u, t, x), e).value, t, x);
  }

  lemma CloseKeeps(v: State, u: Address, t: Token, x: nat, e: Event)
    requires Good(v) && v.books.Credit(u, t, x).Success?
    requires forall p, s :: Effect(e, p, s) == (if p == u && s == t then x else 0) - InFlight(v.call, p, s)
    requires Held(v, t) >= Accounted(v, t) + x
    requires e.SwapExecuted? <==> v.call.Swapping?
    requires e.SwapExecuted? ==> e.executionId == v.call.args.executionId && e.amountOut >= e.minAmountOut
    ensures Good(Close(v, v.books.Credit(u, t, x), e).value)
  {
    CloseKeepsBooks(v, u, t, x, e);
    CloseReplay(v, u, t, x, e);
    CloseCovered(v, u, t, x, e);
  }

  lemma CloseCover(v: State, w: State, t: Token, x: nat)
    requires Covered(v) && w.held == v.held && w.call == Idle
    requires forall s :: Accounted(w, s) == Accounted(v, s) + if s == t then x else 0
    requires Held(v, t) >= Accounted(v, t) + x
    ensures Covered(w)
  {
    forall s ensures Held(w, s) >= Accounted(w, s) + Reserved(w.weth, w.call, s) {
      assert Held(v, s) >= Accounted(v, s) + Reserved(v.weth, v.call, s);
    }
  }

  lemma DepositReturnsKeeps(v: State)
    requires Good(v) && v.call.Depositing?
    ensures LeaveDeposit(v).Success? ==> Good(LeaveDeposit(v).value)
  {
    var c := v.call;
    if LeaveDeposit(v).Success? {
      var received := Held(v, c.token) - c.balanceBefore;
      var e := Deposited(c.user, c.token, received);
      assert LeaveDeposit(v) == Close(v, v.books.Credit(c.user, c.token, received), e);
      CloseKeeps(v, c.user, c.token, received, e);
    }
  }

  lemma DepositETHReturnsKeeps(v: State)
    requires Good(v) && v.call.Wrapping? && v.call.wrapped
    ensures LeaveDepositETH(v).Success? ==> Good(LeaveDepositETH(v).value)
  {
    if LeaveDepositETH(v).Success? {
      assert Held(v, v.weth) >= Accounted(v, v.weth) + Reserved(v.weth, v.call, v.weth);
      CloseKeeps(v, v.call.user, v.weth, v.call.value, Deposited(v.call.user, v.weth, v.call.value));
    }
  }

  lemma SwapReturnsKeeps(v: State, amountOut: nat)
    requires Good(v) && v.call.Swapping? && amountOut <= v.call.delivered
    ensures LeaveSwap(v, amountOut).Success? ==> Good(LeaveSwap(v, amountOut).value)
  {
    var a := v.call.args;
    if LeaveSwap(v, amountOut).Success? {
      assert Held(v, a.tokenOut) >= Accounted(v, a.tokenOut) + Reserved(v.weth, v.call, a.tokenOut);
      CloseKeeps(v, a.owner, a.tokenOut, amountOut, SwapEvent(v.call.sender, a, amountOut));
    }
  }

  lemma WithdrawReturnsKeeps(v: State, ethSent: bool)
    requires Good(v) && v.call.Withdrawing? && v.call.paid
    ensures LeaveWithdraw(v, ethSent).Success? ==> Good(LeaveWithdraw(v, ethSent).value)
  {
    if LeaveWithdraw(v, ethSent).Success? {
      EmitKeeps(v, LeaveWithdraw(v, ethSent).value, Withdrawn(v.call.user, v.call.token, v.call.amount));
    }
  }

  // ---- steps that write no balance -----------------------------------------

  lemma EmitKeeps(v: State, w: State, e: Event)
    requires Good(v) && w.books == v.books.Emit(e)
    requires w.call == v.call || (w.call == Idle && !v.call.Swapping?)
    requires forall p, s :: Effect(e, p, s) == InFlight(w.call, p, s) - InFlight(v.call, p, s)
    requires !e.SwapExecuted?
    requires w.weth == v.weth && (w.held == v.held || w.call == Idle)
    requires forall s :: Held(w, s) >= Held(v, s) || Held(w, s) == Accounted(v, s)
    ensures Good(w)
  {
    EmitKeepsLedger(v.books, v.call, w.call, e);
    SwapsEmit(v.books.events, e);
    forall s ensures w.books.Accounted(s) == SumFor(w.books.balances, s) {
      assert v.books.Accounted(s) == SumFor(v.books.balances, s);
    }
    forall s ensures Held(w, s) >= Accounted(w, s) + Reserved(w.weth, w.call, s) {
      assert Held(v, s) >= Accounted(v, s) + Reserved(v.weth, v.call, s);
    }
  }

  predicate IsAdmin(a: Action) {
    || a.AdminSetExecutor? || a.AdminSetTokenAllowed? || a.AdminRemoveToken? || a.AdminSetMaxTradeAmount?
    || a.AdminPause? || a.AdminUnpause? || a.AdminSweep?
  }

  /** No admin, pause or sweep step moves a user balance, a total or the replay set. */
  lemma AdminTouchesNoBalance(v: State, a: Action)
    requires IsAdmin(a)
    ensures var w := Step(v, a);
      && w.books.balances == v.books.balances && w.books.totalAccounted == v.books.totalAccounted
      && w.books.executedIds == v.books.executedIds && w.call == v.call && w.weth == v.weth
      && (w.held != v.held ==> a.AdminSweep? && v.call == Idle)
      && (forall t :: Held(w, t) >= Held(v, t) || Held(w, t) == Accounted(v, t))
      && (w != v ==>
           && |w.books.events| == |v.books.events| + 1
           && w.books == v.books.Emit(w.books.events[|v.books.events|])
           && !w.books.events[|v.books.events|].SwapExecuted?
           && forall p, s :: Effect(w.books.events[|v.books.events|], p, s) == 0)
  {
  }

  lemma AdminStepKeeps(v: State, a: Action)
    requires Good(v) && IsAdmin(a)
    ensures Good(Step(v, a))
  {
    var w := Step(v, a);
    AdminTouchesNoBalance(v, a);
    if w != v {
      EmitKeeps(v, w, w.books.events[|v.books.events|]);
    }
  }

  predicate IsExternal(a: Action) {
    a.TokenArrives? || a.WethWraps? || a.TokenPays? || a.RouterPulls? || a.RouterDelivers?
  }

  /** What other contracts do inside an external call leaves the books and the debit in flight alone. */
  lemma ExternalTouchesNoBooks(v: State, a: Action)
    requires IsExternal(a)
    ensures var w := Step(v, a);
      && w.books == v.books && w.weth == v.weth && (v.call == Idle <==> w.call == Idle)
      && (v.call.Swapping? <==> w.call.Swapping?) && (v.call.Swapping? ==> w.call.args == v.call.args)
      && forall p, s :: InFlight(w.call, p, s) == InFlight(v.call, p, s)
  {
  }

  lemma ExternalKeepsCover(v: State, a: Action)
    requires IsExternal(a) && Covered(v) && ReplaySafe(v.books, v.call)
    ensures Covered(Step(v, a))
  {
    var w := Step(v, a);
    forall s ensures Held(w, s) >= Accounted(w, s) + Reserved(w.weth, w.call, s) {
      assert Held(v, s) >= Accounted(v, s) + Reserved(v.weth, v.call, s);
    }
  }

  lemma ExternalStepKeeps(v: State, a: Action)
    requires Good(v) && IsExternal(a)
    ensures Good(Step(v, a))
  {
    var w := Step(v, a);
    ExternalTouchesNoBooks(v, a);
    ExternalKeepsCover(v, a);
    forall p, s ensures w.books.BalanceOf(p, s) == Net(w.books.events, p, s) - InFlight(w.call, p, s) {
      assert v.books.BalanceOf(p, s) == Net(v.books.events, p, s) - InFlight(v.call, p, s);
    }
  }

  lemma StepKeepsGood(v: State, a: Action)
    requires Good(v) && (v.call != Idle ==> Good(v.call.saved))
    ensures Good(Step(v, a))
  {
    match a
    case Deposit(sender, token, amount) => EnterDepositKeeps(v, sender, token, amount);
    case DepositETH(sender, value) => EnterDepositETHKeeps(v, sender, value);
    case Withdraw(sender, token, amount) => EnterWithdrawKeeps(v, sender, token, amount, false);
    case WithdrawETH(sender, amount) => EnterWithdrawKeeps(v, sender, v.weth, amount, true);
    case ExecuteSwap(sender, args, timestamp) => EnterSwapKeeps(v, sender, args, timestamp);
    case DepositReturns => if v.call.Depositing? { DepositReturnsKeeps(v); }
    case DepositETHReturns => if v.call.Wrapping? && v.call.wrapped { DepositETHReturnsKeeps(v); }
    case WithdrawReturns(ethSent) => if v.call.Withdrawing? && v.call.paid { WithdrawReturnsKeeps(v, ethSent); }
    case SwapReturns(amountOut) =>
      if v.call.Swapping? && amountOut <= v.call.delivered { SwapReturnsKeeps(v, amountOut); }
    case CallReverts =>
    case _ => if IsAdmin(a) { AdminStepKeeps(v, a); } else { ExternalStepKeeps(v, a); }
  }

  /** The state a revert restores is fixed when the call is entered. */
  lemma StepKeepsSaved(v: State, a: Action)
    requires SavedFits(v)
    ensures SavedFits(Step(v, a))
    ensures var w := Step(v, a);
      w.call == Idle || (v.call == Idle && w.call.saved == v) || (v.call != Idle && w.call.saved == v.call.saved)
  {
    if IsAdmin(a) { AdminTouchesNoBalance(v, a); }
  }

  lemma StepKeeps(v: State, a: Action)
    requires Invariant(v)
    ensures Invariant(Step(v, a))
  {
    StepKeepsGood(v, a);
    StepKeepsSaved(v, a);
  }

  /** Every reachable state of every run, whoever acts and wherever control is. */
  lemma {:induction false} RunKeeps(v: State, actions: seq<Action>)
    requires Invariant(v)
    ensures Invariant(Run(v, actions))
    decreases |actions|
  {
    if |actions| != 0 {
      StepKeeps(v, actions[0]);
      RunKeeps(Step(v, actions[0]), actions[1..]);
    }
  }
}
